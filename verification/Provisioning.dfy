/** Stepped provisioning: resources are created step by step, with readiness checks as barriers in between. */
module Provisioning {
  import opened Json

  // ---- Waiting ----

  /**
   Probes until a probe succeeds or the deadline passes; `rounds` is how many ticks arrive before the deadline
   is noticed. Success means the last probe succeeded, and failure that all of them failed.
  */
  method WaitFor(probe: int -> Option<string>, rounds: nat) returns (err: Option<string>, probes: nat)
    ensures err.None? <==> exists n | 0 <= n <= rounds :: probe(n).None?
    ensures 0 < probes <= rounds + 1
    ensures err.None? <==> probe(probes - 1).None?
    ensures forall n | 0 <= n < probes - 1 :: probe(n).Some?
  {
    var n := 0;
    err := probe(n);
    while err.Some?
      invariant n <= rounds
      invariant err == probe(n)
      invariant forall m | 0 <= m < n :: probe(m).Some?
      decreases rounds - n
    {
      if n == rounds {
        return Some("process timed out"), n + 1;
      }
      n := n + 1;
      err := probe(n);
    }
    return None, n + 1;
  }

  /** Whether a status condition is of the type looked for; malformed ones end the search. */
  datatype ConditionKind = Malformed | OtherType | Wanted(status: Option<string>)

  function Classify(condition: Json, type_: string): ConditionKind {
    match Get(condition, "type")
    case Some(JString(t)) =>
      if t != type_ then OtherType
      else (match Get(condition, "status") case Some(JString(s)) => Wanted(Some(s)) case _ => Wanted(None))
    case _ => Malformed
  }

  /** The condition says what type it is of, and that is another one. */
  predicate IsOfOtherType(condition: Json, type_: string) {
    && Get(condition, "type").Some? && Get(condition, "type").value.JString?
    && Get(condition, "type") != Some(JString(type_))
  }

  /**
   Ready means that the resource reports conditions, that the first one of the wanted type has the wanted status,
   and that none before it is malformed.
  */
  method ConditionReady(resource: Json, type_: string, status: string) returns (ready: bool)
    ensures ready <==>
            && var conditions := Lookup(resource, ["status", "conditions"]);
            && conditions.Some? && conditions.value.JList?
            && exists i | 0 <= i < |conditions.value.items| ::
                 && Get(conditions.value.items[i], "type") == Some(JString(type_))
                 && Get(conditions.value.items[i], "status") == Some(JString(status))
                 && forall j | 0 <= j < i :: IsOfOtherType(conditions.value.items[j], type_)
  {
    var found := Lookup(resource, ["status", "conditions"]);
    if found.None? || !found.value.JList? {
      return false;
    }
    var conditions := found.value.items;
    for i := 0 to |conditions|
      invariant forall j | 0 <= j < i :: IsOfOtherType(conditions[j], type_)
    {
      match Classify(conditions[i], type_) {
        case Malformed => return false;
        case OtherType =>
        case Wanted(s) => return s == Some(status);
      }
    }
    return false;
  }

  // ---- The plan ----

  /** A readiness check; one without a condition has no type the broker knows, and never succeeds. */
  datatype ReadinessCheck = ReadinessCheck(name: string, hasCondition: bool)

  /** A step's rendered templates, of which some may have no associated resource, and its checks. */
  datatype Step = Step(templates: seq<Option<Json>>, checks: seq<ReadinessCheck>)

  datatype Task = Create(step: nat, template: Option<Json>) | Await(step: nat, check: ReadinessCheck)

  function Creates(templates: seq<Option<Json>>, n: nat): (r: seq<Task>)
    ensures |r| == |templates|
  {
    if templates == [] then []
    else [Create(n, templates[0])] + Creates(templates[1..], n)
  }

  function Awaits(checks: seq<ReadinessCheck>, n: nat): (r: seq<Task>)
    ensures |r| == |checks|
  {
    if checks == [] then [] else [Await(n, checks[0])] + Awaits(checks[1..], n)
  }

  /** What the first `n` steps have to do, in order. */
  function Flatten(steps: seq<Step>, n: nat): seq<Task>
    requires n <= |steps|
  {
    if n == 0 then []
    else Flatten(steps, n - 1) + Creates(steps[n - 1].templates, n - 1) + Awaits(steps[n - 1].checks, n - 1)
  }

  // ---- The run ----

  /** How the cluster treats the i-th task: whether a create succeeds, what each probe says, how long we may wait. */
  datatype Environment = Environment(create: int -> bool, probe: (int, int) -> Option<string>, rounds: int -> nat)

  /** A template without a resource is skipped; a check passes if a probe succeeds in time. */
  ghost predicate Succeeds(env: Environment, i: nat, task: Task) {
    match task
    case Create(_, template) => template.None? || env.create(i)
    case Await(_, check) => check.hasCondition && exists n | 0 <= n <= env.rounds(i) :: env.probe(i, n).None?
  }

  ghost predicate AllSucceed(env: Environment, trace: seq<Task>, n: nat)
    requires n <= |trace|
  {
    forall i | 0 <= i < n :: Succeeds(env, i, trace[i])
  }

  /** The run attempted what is in `trace`; all of it succeeded, but for the last one if the run failed. */
  ghost predicate Attempted(env: Environment, trace: seq<Task>, ok: bool) {
    if ok then AllSucceed(env, trace, |trace|)
    else
      && trace != []
      && AllSucceed(env, trace, |trace| - 1)
      && !Succeeds(env, |trace| - 1, trace[|trace| - 1])
  }

  method PerformTask(env: Environment, i: nat, task: Task) returns (ok: bool)
    ensures ok <==> Succeeds(env, i, task)
    ensures ok <==> match task
                    case Create(_, None) => true
                    case Create(_, Some(_)) => env.create(i)
                    case Await(_, check) =>
                      check.hasCondition && exists n | 0 <= n <= env.rounds(i) :: env.probe(i, n).None?
  {
    match task
    case Create(_, template) => ok := template.None? || env.create(i);
    case Await(_, check) =>
      var probe := n => if check.hasCondition then env.probe(i, n) else Some("check type undefined");
      var err, _ := WaitFor(probe, env.rounds(i));
      assert forall n :: probe(n) == if check.hasCondition then env.probe(i, n) else Some("check type undefined");
      ok := err.None?;
  }

  /** Performs `tasks` after `before`, up to the first that fails. */
  method PerformTasks(env: Environment, before: seq<Task>, tasks: seq<Task>) returns (ok: bool, trace: seq<Task>)
    requires Attempted(env, before, true)
    ensures Attempted(env, trace, ok)
    ensures trace <= before + tasks
    ensures ok ==> trace == before + tasks
  {
    trace := before;
    for t := 0 to |tasks|
      invariant trace == before + tasks[..t]
      invariant Attempted(env, trace, true)
    {
      ok := PerformTask(env, |trace|, tasks[t]);
      assert tasks[..t + 1] == tasks[..t] + [tasks[t]];
      trace := trace + [tasks[t]];
      if !ok {
        return;
      }
    }
    ok := true;
  }

  /**
   Performs the steps in order: the attempted tasks are a prefix of the plan, and the run succeeds exactly if the
   whole plan was performed.
  */
  method Run(steps: seq<Step>, env: Environment) returns (ok: bool, trace: seq<Task>)
    ensures Attempted(env, trace, ok)
    ensures trace <= Flatten(steps, |steps|)
    ensures ok <==> trace == Flatten(steps, |steps|) && AllSucceed(env, trace, |trace|)
  {
    trace := [];
    for n := 0 to |steps|
      invariant trace == Flatten(steps, n)
      invariant Attempted(env, trace, true)
    {
      ok, trace := PerformTasks(env, trace, Creates(steps[n].templates, n));
      if ok {
        ok, trace := PerformTasks(env, trace, Awaits(steps[n].checks, n));
      }
      if !ok {
        assert trace <= Flatten(steps, n + 1);
        FlattenGrows(steps, n + 1, |steps|);
        return;
      }
    }
    ok := true;
  }

  lemma {:induction false} FlattenGrows(steps: seq<Step>, n: nat, m: nat)
    requires n <= m <= |steps|
    ensures Flatten(steps, n) <= Flatten(steps, m)
    decreases m - n
  {
    if n < m {
      FlattenGrows(steps, n, m - 1);
    }
  }

  // ---- Barriers ----

  lemma {:induction false} CreatesAt(templates: seq<Option<Json>>, n: nat, i: nat)
    requires i < |templates|
    ensures Creates(templates, n)[i] == Create(n, templates[i])
  {
    if i > 0 {
      CreatesAt(templates[1..], n, i - 1);
    }
  }

  lemma {:induction false} AwaitsAt(checks: seq<ReadinessCheck>, n: nat, i: nat)
    requires i < |checks|
    ensures Awaits(checks, n)[i] == Await(n, checks[i])
  {
    if i > 0 {
      AwaitsAt(checks[1..], n, i - 1);
    }
  }

  /** How many tasks the first `n` steps have. */
  function Size(steps: seq<Step>, n: nat): nat
    requires n <= |steps|
  {
    if n == 0 then 0 else Size(steps, n - 1) + |steps[n - 1].templates| + |steps[n - 1].checks|
  }

  /** The plan is everything the steps list, and nothing else: step by step the templates in order, then the checks. */
  lemma {:induction false} PlanIsComplete(steps: seq<Step>, n: nat, i: nat, j: nat)
    requires i < n <= |steps|
    ensures |Flatten(steps, n)| == Size(steps, n)
    ensures j < |steps[i].templates| ==>
              && Size(steps, i) + j < Size(steps, n)
              && Flatten(steps, n)[Size(steps, i) + j] == Create(i, steps[i].templates[j])
    ensures j < |steps[i].checks| ==>
              && Size(steps, i) + |steps[i].templates| + j < Size(steps, n)
              && Flatten(steps, n)[Size(steps, i) + |steps[i].templates| + j] == Await(i, steps[i].checks[j])
    decreases n
  {
    FlattenSize(steps, n - 1);
    if i < n - 1 {
      PlanIsComplete(steps, n - 1, i, j);
    } else {
      if j < |steps[i].templates| {
        CreatesAt(steps[i].templates, i, j);
      }
      if j < |steps[i].checks| {
        AwaitsAt(steps[i].checks, i, j);
      }
    }
  }

  lemma {:induction false} FlattenSize(steps: seq<Step>, n: nat)
    requires n <= |steps|
    ensures |Flatten(steps, n)| == Size(steps, n)
  {
    if n > 0 {
      FlattenSize(steps, n - 1);
    }
  }

  /** Every check of step `i` is planned among the first `n` steps. */
  lemma {:induction false} CheckPlanned(steps: seq<Step>, n: nat, i: nat, check: ReadinessCheck) returns (a: nat)
    requires i < n <= |steps| && check in steps[i].checks
    ensures a < |Flatten(steps, n)| && Flatten(steps, n)[a] == Await(i, check)
    decreases n
  {
    if i < n - 1 {
      a := CheckPlanned(steps, n - 1, i, check);
    } else {
      var c :| 0 <= c < |steps[i].checks| && steps[i].checks[c] == check;
      AwaitsAt(steps[i].checks, i, c);
      a := |Flatten(steps, i)| + |steps[i].templates| + c;
    }
  }

  /** In the plan, every check of a step comes before everything of a later step. */
  lemma {:induction false} ChecksComeFirst(steps: seq<Step>, n: nat, b: nat, i: nat, check: ReadinessCheck)
    returns (a: nat)
    requires n <= |steps| && b < |Flatten(steps, n)|
    requires i < Flatten(steps, n)[b].step && i < |steps| && check in steps[i].checks
    ensures a < b && Flatten(steps, n)[a] == Await(i, check)
    decreases n
  {
    var before := |Flatten(steps, n - 1)|;
    if b < before {
      a := ChecksComeFirst(steps, n - 1, b, i, check);
    } else {
      var t := |steps[n - 1].templates|;
      if b < before + t {
        CreatesAt(steps[n - 1].templates, n - 1, b - before);
      } else {
        AwaitsAt(steps[n - 1].checks, n - 1, b - before - t);
      }
      a := CheckPlanned(steps, n - 1, i, check);
    }
  }

  /**
   Barriers hold, however the cluster behaves: when a run attempts anything of a step, every check of every earlier
   step has been awaited before, and has succeeded.
  */
  lemma {:induction false} BarriersHold(env: Environment, steps: seq<Step>, trace: seq<Task>, ok: bool, b: nat, i: nat,
          check: ReadinessCheck)
    requires Attempted(env, trace, ok) && trace <= Flatten(steps, |steps|)
    requires b < |trace| && i < trace[b].step && i < |steps| && check in steps[i].checks
    ensures exists a | 0 <= a < b :: trace[a] == Await(i, check) && Succeeds(env, a, trace[a])
  {
    var a := ChecksComeFirst(steps, |steps|, b, i, check);
    assert trace[a] == Await(i, check);
  }
}
