/** What the protocol guarantees on every run, under every interleaving, stale copy and API failure. */
module Theorems {
  import opened Json
  import opened Registry
  import opened Operation
  import opened Decisions
  import opened Lifecycle
  import opened Protocol
  import opened Safety

  function EntryAt(site: Site, s: State): Option<Secret> {
    if site.ref in s.server.secrets then Some(s.server.secrets[site.ref]) else None
  }

  // ---- Ownership ----

  /** The step left the entry and thread `w` alone. */
  predicate Leaves(site: Site, s: State, s': State, w: nat) {
    && EntryAt(site, s') == EntryAt(site, s)
    && w < |s.threads| && w < |s'.threads| && s'.threads[w] == s.threads[w]
  }

  lemma {:induction false} CreateLeaves(site: Site, s: State, t: nat, c: Choice, w: nat)
    requires Inv(site, s) && t < |s.threads| && w < |s.threads| && IsWorker(s.threads[w]) && t != w
    requires s.threads[t].Creating? || s.threads[t].Registering? || s.threads[t].Preparing?
    ensures Leaves(site, s, CreateStep(site, s, t, c), w)
  {
    assert ThreadOk(site, s.server, Replay(s.log), s.threads[w]);
  }

  /** An operation about to start was prepared on a copy that recorded none, so on an older version. */
  lemma {:induction false} StartLeaves(site: Site, s: State, t: nat, c: Choice, w: nat)
    requires Inv(site, s) && t < |s.threads| && w < |s.threads| && IsWorker(s.threads[w]) && t != w
    requires s.threads[t].Starting?
    ensures Leaves(site, s, StartStep(site, s, t, c), w)
  {
    var i := Replay(s.log);
    assert ThreadOk(site, s.server, i, s.threads[w]);
    assert ThreadOk(site, s.server, i, s.threads[t]);
    OperationAt(site.instanceId, i);
  }

  /** A poll about to end an operation read its status, so an older version. */
  lemma {:induction false} PollLeaves(site: Site, s: State, t: nat, c: Choice, w: nat)
    requires Inv(site, s) && t < |s.threads| && w < |s.threads| && IsWorker(s.threads[w]) && t != w
    requires s.threads[t].Polling? || s.threads[t].Ending?
    ensures Leaves(site, s, PollStep(site, s, t, c), w)
  {
    var i := Replay(s.log);
    assert ThreadOk(site, s.server, i, s.threads[w]);
    assert ThreadOk(site, s.server, i, s.threads[t]);
    OperationAt(site.instanceId, i);
  }

  /** While a goroutine is at work no step of another thread changes the entry. */
  lemma {:induction false} OnlyWorkersWrite(site: Site, s: State, t: nat, c: Choice, w: nat)
    requires Inv(site, s) && t < |s.threads| && w < |s.threads| && IsWorker(s.threads[w]) && t != w
    ensures Leaves(site, s, MoveStep(site, s, t, c), w)
  {
    match s.threads[t]
    case Creating(_) => CreateLeaves(site, s, t, c, w);
    case Registering(_, _, _) => CreateLeaves(site, s, t, c, w);
    case Preparing(_, _, _) => CreateLeaves(site, s, t, c, w);
    case Starting(_, _, _) => StartLeaves(site, s, t, c, w);
    case Polling(_) => PollLeaves(site, s, t, c, w);
    case Ending(_, _, _) => PollLeaves(site, s, t, c, w);
    case _ =>
  }

  /**
   From the commit that starts an operation until its goroutine is done, the stored entry belongs to that
   goroutine: no other handler, goroutine or outsider changes it.
  */
  lemma {:induction false} WorkerOwnsEntry(site: Site, actions: seq<Action>, w: nat, a: Action)
    requires w < |Run(site, actions).threads| && IsWorker(Run(site, actions).threads[w])
    requires a.Move? || a.Crash? ==> a.thread != w
    ensures EntryAt(site, Step(site, Run(site, actions), a)) == EntryAt(site, Run(site, actions))
    ensures Step(site, Run(site, actions), a).threads[w] == Run(site, actions).threads[w]
  {
    var s := Run(site, actions);
    EveryRunIsSafe(site, actions);
    assert ThreadOk(site, s.server, Replay(s.log), s.threads[w]);
    if a.Move? && a.thread < |s.threads| {
      OnlyWorkersWrite(site, s, a.thread, a.choice, w);
    }
  }

  /** There is never more than one such goroutine. */
  lemma {:induction false} OneGoroutine(site: Site, actions: seq<Action>, v: nat, w: nat)
    requires v < |Run(site, actions).threads| && w < |Run(site, actions).threads|
    requires IsWorker(Run(site, actions).threads[v]) && IsWorker(Run(site, actions).threads[w])
    ensures v == w
  {
    EveryRunIsSafe(site, actions);
  }

  /**
   Unless the API is down, the commit that records a run's outcome succeeds: it adds the status to the entry
   as it was, and the operation id stored there is the one this goroutine was started for.
  */
  lemma {:induction false} CompleteNeverConflicts(site: Site, actions: seq<Action>, w: nat, c: Choice)
    requires w < |Run(site, actions).threads| && Run(site, actions).threads[w].Completing? && c.up
    ensures var s := Run(site, actions);
            var s' := Step(site, s, Move(w, c));
            && site.ref in s.server.secrets && site.ref in s'.server.secrets
            && s'.server.secrets[site.ref].data
                 == s.server.secrets[site.ref].data[OperationStatus := JString(StatusText(s.threads[w].result))]
            && GetString(s.server.secrets[site.ref].data, OperationID) == Ok(Some(s.threads[w].id))
            && s'.log == s.log + [Completed(s.threads[w].id, s.threads[w].result)]
  {
    var s := Run(site, actions);
    EveryRunIsSafe(site, actions);
    assert ThreadOk(site, s.server, Replay(s.log), s.threads[w]);
    OperationAt(site.instanceId, Replay(s.log));
  }

  // ---- Atomic commits ----

  /** How an event shows in the stored data. */
  predicate Effect(site: Site, before: Option<Secret>, after: Option<Secret>, e: Event) {
    match e
    case Created(req, ns) => before.None? && after.Some? && after.value.data == InitialData(site.instanceId, ns, req)
    case Accepted(id, change) =>
      && before.Some? && after.Some?
      && after.value.data == StartedData(
           match change
           case ProvisionWith(values) => before.value.data + values
           case UpdateTo(parameters) => before.value.data[Parameters := parameters]
           case Remove => before.value.data,
           KindOf(change), id)
    case Completed(_, result) => before.Some? && after.Some?
        && after.value.data == CompletedData(before.value.data, result)
    case Ended(_, _) => before.Some? && after.Some? && after.value.data == EndedData(before.value.data)
    case Removed(_) => before.Some? && after.None?
    case _ => after == before
  }

  /** Nothing happened to the entry, or one event did. */
  ghost predicate OneEvent(site: Site, s: State, s': State) {
    || (s'.log == s.log && EntryAt(site, s') == EntryAt(site, s))
    || (exists e :: s'.log == s.log + [e] && Effect(site, EntryAt(site, s), EntryAt(site, s'), e))
  }

  lemma {:induction false} LoggedEvent(site: Site, s: State, s': State, e: Event)
    requires s'.log == s.log + [e] && Effect(site, EntryAt(site, s), EntryAt(site, s'), e)
    ensures OneEvent(site, s, s')
  {
  }

  lemma {:induction false} CreateIsOneEvent(site: Site, s: State, t: nat, c: Choice)
    requires Inv(site, s) && t < |s.threads|
    requires s.threads[t].Creating? || s.threads[t].Registering? || s.threads[t].Preparing?
    ensures OneEvent(site, s, CreateStep(site, s, t, c))
  {
    assert ThreadOk(site, s.server, Replay(s.log), s.threads[t]);
    var s' := CreateStep(site, s, t, c);
    if s'.log != s.log {
      if s.threads[t].Creating? {
        LoggedEvent(site, s, s',
            Replied(s.threads[t].req, ReplyToCreate(s.server.secrets[site.ref].data, s.threads[t].req)));
      } else {
        LoggedEvent(site, s, s', Created(s.threads[t].req, s.threads[t].namespace));
      }
    }
  }

  lemma {:induction false} StartIsOneEvent(site: Site, s: State, t: nat, c: Choice)
    requires Inv(site, s) && t < |s.threads| && s.threads[t].Starting?
    ensures OneEvent(site, s, StartStep(site, s, t, c))
  {
    assert ThreadOk(site, s.server, Replay(s.log), s.threads[t]);
    var s' := StartStep(site, s, t, c);
    if s'.log != s.log {
      LoggedEvent(site, s, s', Accepted(s.threads[t].id, s.threads[t].change));
    }
  }

  lemma {:induction false} PollIsOneEvent(site: Site, s: State, t: nat, c: Choice)
    requires Inv(site, s) && t < |s.threads| && (s.threads[t].Polling? || s.threads[t].Ending?)
    ensures OneEvent(site, s, PollStep(site, s, t, c))
  {
    assert ThreadOk(site, s.server, Replay(s.log), s.threads[t]);
    var s' := PollStep(site, s, t, c);
    if s'.log != s.log {
      LoggedEvent(site, s, s', s'.log[|s.log|]);
    }
  }

  lemma {:induction false} MoveIsOneEvent(site: Site, s: State, t: nat, c: Choice)
    requires Inv(site, s) && t < |s.threads|
    ensures OneEvent(site, s, MoveStep(site, s, t, c))
  {
    assert ThreadOk(site, s.server, Replay(s.log), s.threads[t]);
    var s' := MoveStep(site, s, t, c);
    match s.threads[t]
    case Updating(_) =>
    case Merging(_, _) =>
    case Deleting(_) =>
    case Checking(_, _) =>
    case Deprovisioning(id, _) => if s'.log != s.log { LoggedEvent(site, s, s', Removed(id)); }
    case Starting(_, _, _) => StartIsOneEvent(site, s, t, c);
    case Working(_, _, _) =>
    case Completing(_, id, result, _) => if s'.log != s.log { LoggedEvent(site, s, s', Completed(id, result)); }
    case Polling(_) => PollIsOneEvent(site, s, t, c);
    case Ending(_, _, _) => PollIsOneEvent(site, s, t, c);
    case Done =>
    case _ => CreateIsOneEvent(site, s, t, c);
  }

  /**
   Every step of every run changes the stored entry by at most one event, and by exactly what that event says:
   a rejected request leaves it as it was, an accepted update brings its parameters and its operation in one
   commit, and the registry values of a create arrive only together with its operation.
  */
  lemma {:induction false} CommitsAreAtomic(site: Site, actions: seq<Action>, a: Action)
    ensures OneEvent(site, Run(site, actions), Step(site, Run(site, actions), a))
  {
    var s := Run(site, actions);
    EveryRunIsSafe(site, actions);
    if a.Move? && a.thread < |s.threads| {
      MoveIsOneEvent(site, s, a.thread, a.choice);
    }
  }

  // ---- The stored entry ----

  /** In a legal log the instance is still what its creation said, until it is removed. */
  lemma {:induction false} OriginStands(log: seq<Event>, c: nat, j: nat)
    requires Legal(log) && c < j <= |log| && log[c].Created? && forall k | c < k < j :: !log[k].Removed?
    ensures var i := Replay(log[..j]); i.Present? && i.origin == log[c].req && i.namespace == log[c].namespace
    decreases j
  {
    LegalAt(log, j - 1);
    if j - 1 > c {
      OriginStands(log, c, j - 1);
    }
  }

  /** An instance that is there was created, and has not been removed since. */
  lemma {:induction false} PresentWasCreated(log: seq<Event>) returns (c: nat)
    requires Legal(log) && Replay(log).Present?
    ensures c < |log| && log[c].Created? && forall k | c < k < |log| :: !log[k].Removed?
    decreases |log|
  {
    var n := |log| - 1;
    if log[n].Created? {
      c := n;
    } else {
      c := PresentWasCreated(log[..n]);
    }
  }

  /**
   The stored entry of every reachable state: an operation exactly when an operation id, a status only with
   an operation, and service, plan, instance and namespace as they were when the instance was created.
  */
  lemma {:induction false} StoredEntryShape(site: Site, actions: seq<Action>) returns (c: nat)
    requires site.ref in Run(site, actions).server.secrets
    ensures var s := Run(site, actions);
            var d := s.server.secrets[site.ref].data;
            && c < |s.log| && s.log[c].Created? && (forall k | c < k < |s.log| :: !s.log[k].Removed?)
            && (OperationType in d <==> OperationID in d)
            && (OperationStatus in d ==> OperationType in d)
            && GetString(d, ServiceID) == Ok(Some(s.log[c].req.service))
            && GetString(d, PlanID) == Ok(Some(s.log[c].req.plan))
            && GetString(d, InstanceID) == Ok(Some(site.instanceId))
            && GetString(d, Namespace) == Ok(Some(s.log[c].namespace))
  {
    var s := Run(site, actions);
    EveryRunIsSafe(site, actions);
    c := PresentWasCreated(s.log);
    OriginStands(s.log, c, |s.log|);
    assert s.log[..|s.log|] == s.log;
    IdentityAt(site.instanceId, Replay(s.log));
    OperationAt(site.instanceId, Replay(s.log));
  }

  // ---- What clients see ----

  /** On every run, two operations are never accepted without the first being closed in between. */
  lemma {:induction false} RunsCarryOneOperation(site: Site, actions: seq<Action>, i: nat, j: nat)
    requires var log := Run(site, actions).log; i < j < |log| && log[i].Accepted? && log[j].Accepted?
    ensures var log := Run(site, actions).log; exists k :: i < k < j && Closes(log[k], log[i].id)
  {
    EveryRunIsSafe(site, actions);
    AtMostOneOperation(Run(site, actions).log, i, j);
  }

  /** On every run, a terminal answer is given once, after the operation's run, and tells how that run went. */
  lemma {:induction false} RunsAnswerTruly(site: Site, actions: seq<Action>, j: nat)
    requires var log := Run(site, actions).log; j < |log| && log[j].Ended?
    ensures var log := Run(site, actions).log;
            && (forall k | 0 <= k < |log| && log[k].Ended? && log[k].id == log[j].id :: k == j)
            && (exists i, k :: && 0 <= i < k < j
                               && log[i].Accepted? && log[i].id == log[j].id && !log[i].change.Remove?
                               && log[k].Completed? && log[k].id == log[j].id
                               && log[j].text == StatusText(log[k].result))
  {
    var log := Run(site, actions).log;
    EveryRunIsSafe(site, actions);
    forall k | 0 <= k < |log| && log[k].Ended? && log[k].id == log[j].id ensures k == j {
      if k < j { OneTerminalAnswer(log, k, j); } else if j < k { OneTerminalAnswer(log, j, k); }
    }
    var i, k := TerminalAnswerIsTrue(log, j);
  }

  /** In every reachable state a poll that is well posed is answered twice if no operation is recorded, else once. */
  lemma {:induction false} PollsAnsweredTwice(site: Site, actions: seq<Action>, query: PollRequest)
    requires site.ref in Run(site, actions).server.secrets
    ensures var d := Run(site, actions).server.secrets[site.ref].data;
            Complaints(d, query) == if WellPosed(query) && OperationID !in d then 1 else 0
  {
    EveryRunIsSafe(site, actions);
    IdentityAt(site.instanceId, Replay(Run(site, actions).log));
    OperationAt(site.instanceId, Replay(Run(site, actions).log));
  }

  /** So asking once more for an operation whose end has been reported gets a complaint, and then a refusal. */
  lemma {:induction false} PolledAfterEnd(instanceId: string, i: Instance)
    requires i.Present? && UserValues(i.values) && i.phase.Finished? && i.phase.id != ""
    ensures var d, query := EndedData(DataOf(instanceId, i)), PollRequest(Given(i.phase.id), NotGiven, NotGiven);
            && PollVerdict(DataOf(instanceId, i), query).Terminal? && Complaints(DataOf(instanceId, i), query) == 0
            && PollVerdict(d, query) == Refused && Complaints(d, query) == 1
  {
    IdentityAt(instanceId, i);
    OperationAt(instanceId, i);
    EndedDataOf(instanceId, i);
    IdentityAt(instanceId, i.(phase := Idle));
    OperationAt(instanceId, i.(phase := Idle));
  }
}
