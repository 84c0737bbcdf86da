/**
 Watching the configuration resource: every event validates it, records the verdict in its status, and decides
 whether the broker serves it.
*/
module Status {
  import opened Json
  import Config

  const CONFIGURATION_VALID: string := "ConfigurationValid"
  const TICKS_PER_SECOND: nat := 1_000_000_000

  datatype Condition = Condition(type_: string, status: string, transition: nat, reason: string, message: string)

  datatype Resource = Resource(name: string, namespace: string, spec: Config.Spec, status: seq<Condition>)

  /** Clocks tick in nanoseconds, but times are stored in whole seconds. */
  function Seconds(time: nat): nat {
    time - time % TICKS_PER_SECOND
  }

  /** That is the last whole second before or at the time. */
  lemma {:induction false} LastSecond(time: nat)
    ensures Seconds(time) <= time < Seconds(time) + 1_000_000_000 && Seconds(time) % 1_000_000_000 == 0
  {
    assert time == time / TICKS_PER_SECOND * TICKS_PER_SECOND + time % TICKS_PER_SECOND;
  }

  function AsStored(c: Condition): Condition {
    c.(transition := Seconds(c.transition))
  }

  /** Validation's complaint about a configuration, if it has one. */
  function Complaint(spec: Config.Spec): Option<string> {
    var fault := Config.Validate(spec);
    if fault.Some? then Some(Config.Text(fault.value)) else None
  }

  function StatusOf(complaint: Option<string>): string {
    if complaint.None? then "True" else "False"
  }

  /** The first validity condition of a status. */
  function Recorded(status: seq<Condition>): Option<Condition> {
    if status == [] then None
    else if status[0].type_ == CONFIGURATION_VALID then Some(status[0])
    else Recorded(status[1..])
  }

  /** The condition a status should consist of: the present verdict, dated by its last change. */
  function Verdict(complaint: Option<string>, status: seq<Condition>, now: nat): Condition {
    var before := Recorded(status);
    Condition(CONFIGURATION_VALID, StatusOf(complaint),
              if before.Some? && before.value.status == StatusOf(complaint) then before.value.transition else now,
              if complaint.None? then "ValidationSucceeded" else "ValidationFailed",
              if complaint.None? then "" else complaint.value)
  }

  /** What reconciling asks the API server to write. */
  function Writes(r: Resource, now: nat): seq<Resource> {
    var status := [Verdict(Complaint(r.spec), r.status, now)];
    if r.status == status then [] else [r.(status := status)]
  }

  /** The status once that write has gone through. */
  function Next(complaint: Option<string>, status: seq<Condition>, now: nat): seq<Condition> {
    var condition := Verdict(complaint, status, now);
    if status == [condition] then status else [AsStored(condition)]
  }

  function Reconciled(r: Resource, now: nat): Resource {
    r.(status := Next(Complaint(r.spec), r.status, now))
  }

  /** The API server: the writes requested of it, and the last one that got through, with its times rounded. */
  class ConfigApi {
    var requests: seq<Resource>
    var stored: Option<Resource>

    constructor ()
      ensures requests == [] && stored == None
    {
      requests, stored := [], None;
    }

    method Update(r: Resource) returns (ok: bool)
      requires |r.status| == 1
      modifies this
      ensures requests == old(requests) + [r]
      ensures stored == if ok then Some(r.(status := [AsStored(r.status[0])])) else old(stored)
    {
      requests := requests + [r];
      ok := *;
      if ok { stored := Some(r.(status := [AsStored(r.status[0])])); }
    }
  }

  /**
   Writes the verdict exactly if the status says anything else; whether the write gets through does not matter to the
   caller.
  */
  method UpdateStatus(api: ConfigApi, r: Resource, now: nat) returns (fault: Option<Config.Fault>)
    modifies api
    ensures fault == Config.Validate(r.spec)
    ensures api.requests == old(api.requests) + Writes(r, now)
    ensures api.stored == old(api.stored) || api.stored == Some(Reconciled(r, now))
  {
    fault := Config.Validate(r.spec);
    var condition := Condition(CONFIGURATION_VALID, "True", now, "ValidationSucceeded", "");
    if fault.Some? {
      condition := condition.(status := "False", reason := "ValidationFailed", message := Config.Text(fault.value));
    }
    var i := 0;
    while i < |r.status|
      invariant i <= |r.status|
      invariant Recorded(r.status) == Recorded(r.status[i..])
      invariant condition == Verdict(Complaint(r.spec), [], now)
    {
      if r.status[i].type_ == CONFIGURATION_VALID {
        if r.status[i].status == condition.status {
          condition := condition.(transition := r.status[i].transition);
        }
        break;
      }
      i := i + 1;
    }
    assert condition == Verdict(Complaint(r.spec), r.status, now);
    if r.status == [condition] { return; }
    var _ := api.Update(r.(status := [condition]));
  }

  // ---- What the status says ----

  /** Of several validity conditions the first is taken for what was recorded. */
  lemma {:induction false} FirstIsRecorded(status: seq<Condition>, n: nat)
    requires n < |status| && status[n].type_ == "ConfigurationValid"
    requires forall m | 0 <= m < n :: status[m].type_ != "ConfigurationValid"
    ensures Recorded(status) == Some(status[n])
    decreases n
  {
    if n > 0 {
      assert forall m | 0 <= m < n - 1 :: status[1..][m] == status[m + 1];
      FirstIsRecorded(status[1..], n - 1);
    }
  }

  /** The verdict says that the configuration is valid, and complains of nothing, exactly if it is sound. */
  lemma {:induction false} VerdictIsTrue(r: Resource, now: nat)
    ensures var verdict := Verdict(Complaint(r.spec), r.status, now);
            && verdict.type_ == "ConfigurationValid"
            && (verdict.status == "True" <==> Config.Sound(r.spec))
            && (verdict.status == "False" <==> !Config.Sound(r.spec))
            && (verdict.reason == if Config.Sound(r.spec) then "ValidationSucceeded" else "ValidationFailed")
            && (verdict.message == "" <==> Config.Sound(r.spec))
  {
    Config.ValidMeansSound(r.spec);
    if !Config.Sound(r.spec) {
      Config.FaultsAreTold(Config.Validate(r.spec).value);
    }
  }

  // ---- The status settles ----

  /** After one write nothing is left to write, whatever the clock says later. */
  lemma {:induction false} OneWriteSettles(r: Resource, now: nat, later: nat)
    ensures Writes(Reconciled(r, now), later) == []
    ensures Reconciled(Reconciled(r, now), later) == Reconciled(r, now)
  {
    NextSettles(Complaint(r.spec), r.status, now, later);
  }

  lemma {:induction false} NextSettles(complaint: Option<string>, status: seq<Condition>, now: nat, later: nat)
    ensures var next := Next(complaint, status, now); next == [Verdict(complaint, next, later)]
  {
    var next := Next(complaint, status, now);
    assert Recorded(next) == Some(next[0]);
  }

  /** A reconciliation: what validation says of the specification by then, and the time. */
  datatype Change = Change(complaint: Option<string>, now: nat)

  function History(status: seq<Condition>, changes: seq<Change>): seq<Condition>
    decreases |changes|
  {
    if changes == [] then status
    else
      var last := changes[|changes| - 1];
      Next(last.complaint, History(status, changes[..|changes| - 1]), last.now)
  }

  /** The present stretch of equal validity began at change `k`. */
  predicate Began(changes: seq<Change>, k: nat) {
    && k < |changes|
    && (forall i | k <= i < |changes| :: changes[i].complaint.None? == changes[|changes| - 1].complaint.None?)
    && (k > 0 ==> changes[k - 1].complaint.None? != changes[k].complaint.None?)
  }

  /** Every history has such a beginning. */
  function LastFlip(changes: seq<Change>): (k: nat)
    requires changes != []
    ensures Began(changes, k)
    decreases |changes|
  {
    var n := |changes| - 1;
    if n == 0 || changes[n - 1].complaint.None? != changes[n].complaint.None? then n
    else
      var k := LastFlip(changes[..n]);
      assert changes[..n][|changes[..n]| - 1] == changes[n - 1];
      k
  }

  /** The one condition of a settled status, for a transition at `time`. */
  function Settling(complaint: Option<string>, time: nat): Condition {
    Condition(CONFIGURATION_VALID, StatusOf(complaint), Seconds(time),
              if complaint.None? then "ValidationSucceeded" else "ValidationFailed",
              if complaint.None? then "" else complaint.value)
  }

  /** One reconciliation: a status that already says so keeps its date. */
  lemma {:induction false} NextFirst(status: seq<Condition>, complaint: Option<string>, now: nat)
    ensures var next, before := Next(complaint, status, now), Recorded(status);
            var kept := before.Some? && before.value.status == StatusOf(complaint);
            && |next| == 1 && AsStored(next[0]) == Settling(complaint, if kept then before.value.transition else now)
            && (!kept ==> next == [Settling(complaint, now)])
  {
    assert Seconds(Seconds(now)) == Seconds(now);
    if Recorded(status).Some? {
      assert Seconds(Seconds(Recorded(status).value.transition)) == Seconds(Recorded(status).value.transition);
    }
    if status == [Verdict(complaint, status, now)] {
      assert Recorded(status) == Some(status[0]);
    }
  }

  /**
   When the present verdict was reached: when validity last flipped, or, if it never has, when the first status says.
  */
  function Since(status: seq<Condition>, changes: seq<Change>, k: nat): nat
    requires k < |changes|
  {
    var before := Recorded(status);
    if k == 0 && before.Some? && before.value.status == StatusOf(changes[0].complaint) then before.value.transition
    else changes[k].now
  }

  /**
   Through any history, whatever status it starts from, the status comes to consist of the present verdict, dated to
   the second by when the validity last flipped.
  */
  lemma {:induction false} TransitionIsLastFlip(status: seq<Condition>, changes: seq<Change>, k: nat)
    requires Began(changes, k)
    ensures var h := History(status, changes);
            && |h| == 1
            && AsStored(h[0]) == Settling(changes[|changes| - 1].complaint, Since(status, changes, k))
            && (Recorded(status).None? ==> h == [Settling(changes[|changes| - 1].complaint, changes[k].now)])
    decreases |changes|
  {
    var n := |changes| - 1;
    if n > 0 {
      var before := changes[..n];
      var j := if k < n then k else LastFlip(before);
      assert k < n ==> Began(before, k);
      TransitionIsLastFlip(status, before, j);
      NextFirst(History(status, before), changes[n].complaint, changes[n].now);
      assert Recorded(History(status, before)) == Some(History(status, before)[0]);
    } else {
      assert changes[..0] == [];
      NextFirst(status, changes[0].complaint, changes[0].now);
    }
  }

  // ---- What is served ----

  datatype Event =
    | Added(resource: Resource)
    | Updated(resource: Resource)
    | Deleted(resource: Resource)

  /** The configuration served after an event; events about other names are ignored. */
  function Serve(served: Option<Resource>, name: string, e: Event): Option<Resource> {
    if e.resource.name != name then served
    else if e.Deleted? || Complaint(e.resource.spec).Some? then None
    else Some(e.resource)
  }

  function ServedAfter(name: string, events: seq<Event>): Option<Resource>
    decreases |events|
  {
    if events == [] then None else Serve(ServedAfter(name, events[..|events| - 1]), name, events[|events| - 1])
  }

  class Configuration {
    const name: string
    const api: ConfigApi
    var config: Option<Resource>

    constructor (name: string, api: ConfigApi)
      ensures this.name == name && this.api == api && config == None
    {
      this.name, this.api, config := name, api, None;
    }

    method CreateHandler(r: Resource, now: nat)
      modifies this, api
      ensures config == Serve(old(config), name, Added(r))
      ensures api.requests == old(api.requests) + if r.name == name then Writes(r, now) else []
    {
      if r.name != name { return; }
      var fault := UpdateStatus(api, r, now);
      if fault.Some? {
        config := None;
        return;
      }
      config := Some(r);
    }

    method UpdateHandler(before: Resource, r: Resource, now: nat)
      modifies this, api
      ensures config == Serve(old(config), name, Updated(r))
      ensures api.requests == old(api.requests) + if r.name == name then Writes(r, now) else []
    {
      if r.name != name { return; }
      var fault := UpdateStatus(api, r, now);
      if fault.Some? {
        config := None;
        return;
      }
      config := Some(r);
    }

    method DeleteHandler(r: Resource)
      modifies this
      ensures config == Serve(old(config), name, Deleted(r))
    {
      if r.name != name { return; }
      config := None;
    }

    /** The informer delivers events one after the other. */
    method Watch(events: seq<Event>, clock: int -> nat)
      requires config == None
      modifies this, api
      ensures config == ServedAfter(name, events)
    {
      for i := 0 to |events|
        invariant config == ServedAfter(name, events[..i])
      {
        assert events[..i + 1][..i] == events[..i];
        match events[i] {
          case Added(r) => CreateHandler(r, clock(i));
          case Updated(r) => UpdateHandler(r, r, clock(i));
          case Deleted(r) => DeleteHandler(r);
        }
      }
      assert events[..|events|] == events;
    }
  }

  /** `i` is the latest event about the name. */
  predicate Latest(name: string, events: seq<Event>, i: nat) {
    i < |events| && events[i].resource.name == name && forall j | i < j < |events| :: events[j].resource.name != name
  }

  /** Event `i` makes the broker serve `r` from then on. */
  ghost predicate Accepts(name: string, events: seq<Event>, i: nat, r: Resource) {
    Latest(name, events, i) && !events[i].Deleted? && events[i].resource == r && Config.Sound(r.spec)
  }

  /**
   A configuration is served exactly if the latest event for its name was a creation or update that passed
   validation; it is that event's, and it is sound.
  */
  lemma {:induction false} ServedIsLatestValid(name: string, events: seq<Event>, r: Resource)
    ensures ServedAfter(name, events) == Some(r) <==> exists i: nat :: Accepts(name, events, i, r)
    decreases |events|
  {
    Config.ValidMeansSound(r.spec);
    if events != [] {
      var n := |events| - 1;
      var before := events[..n];
      ServedIsLatestValid(name, before, r);
      if events[n].resource.name == name {
        assert Latest(name, events, n);
        assert Accepts(name, events, n, r) <==> ServedAfter(name, events) == Some(r);
      } else {
        forall i: nat ensures Accepts(name, before, i, r) <==> Accepts(name, events, i, r) {
          assert Latest(name, before, i) <==> Latest(name, events, i);
        }
      }
    }
  }
}
