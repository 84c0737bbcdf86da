/** Every run of the concurrent broker produces a legal log, and the stored entry is what the log says. */
module Safety {
  import opened Json
  import opened Registry
  import opened Operation
  import opened Decisions
  import opened Lifecycle
  import opened Protocol

  // ---- The invariant ----

  /** The entry is still at the version the copy was taken at. */
  predicate Current(site: Site, server: Server, copy: Copy) {
    site.ref in server.secrets && server.secrets[site.ref].version == copy.version
  }

  /** A copy of the current version is a copy of the current data. */
  predicate Faithful(site: Site, server: Server, copy: Copy) {
    && copy.version <= server.clock
    && (Current(site, server, copy) ==> server.secrets[site.ref].data == copy.base)
  }

  predicate IsWorker(t: Thread) {
    t.Working? || t.Completing? || t.Deprovisioning?
  }

  function Changed(d: Data, change: Change): Data {
    match change
    case ProvisionWith(values) => d + values
    case UpdateTo(parameters) => d[Parameters := parameters]
    case Remove => d
  }

  predicate ThreadOk(site: Site, server: Server, i: Instance, t: Thread) {
    match t
    case Registering(req, ns, data) => data == InitialData(site.instanceId, ns, req)
    case Preparing(_, _, copy) =>
      && Faithful(site, server, copy) && copy.data == copy.base
      && (Current(site, server, copy) ==> i.Present? && i.virgin)
    case Merging(_, copy) => Faithful(site, server, copy) && copy.data == copy.base
    case Checking(_, copy) => Faithful(site, server, copy) && copy.data == copy.base
    case Starting(change, id, copy) =>
      && Faithful(site, server, copy)
      && OperationType !in copy.base
      && copy.data == StartedData(Changed(copy.base, change), KindOf(change), id)
      && (change.ProvisionWith? ==>
            UserValues(change.values) && (Current(site, server, copy) ==> i.Present? && i.virgin))
    case Ending(id, text, copy) =>
      && Faithful(site, server, copy)
      && copy.data == EndedData(copy.base)
      && GetString(copy.base, OperationID) == Ok(Some(id)) && GetString(copy.base, OperationStatus) == Ok(Some(text))
    case Working(kind, id, copy) =>
      && Current(site, server, copy) && copy.data == server.secrets[site.ref].data
      && i.Present? && i.phase == InFlight(id, kind) && kind != Deprovision
    case Completing(kind, id, result, copy) =>
      && Current(site, server, copy) && copy.data == CompletedData(server.secrets[site.ref].data, result)
      && i.Present? && i.phase == InFlight(id, kind) && kind != Deprovision
    case Deprovisioning(id, copy) =>
      && Current(site, server, copy) && i.Present? && i.phase == InFlight(id, Deprovision)
    case _ => true
  }

  /** The stored entry is the instance the log describes. */
  predicate Matches(site: Site, server: Server, i: Instance) {
    if i.Absent? then site.ref !in server.secrets
    else
      && site.ref in server.secrets && UserValues(i.values)
      && server.secrets[site.ref].version <= server.clock
      && server.secrets[site.ref].data == DataOf(site.instanceId, i)
      && (i.virgin ==> i.values == map[] && i.phase.Idle?)
  }

  predicate IdsOk(s: State) {
    && AcceptedIds(s.log) <= s.issued
    && (forall t | 0 <= t < |s.threads| && s.threads[t].Starting? ::
          s.threads[t].id in s.issued && s.threads[t].id !in AcceptedIds(s.log))
    && (forall t, u | && 0 <= t < |s.threads| && 0 <= u < |s.threads| && t != u
                      && s.threads[t].Starting? && s.threads[u].Starting? ::
          s.threads[t].id != s.threads[u].id)
  }

  predicate OneWorker(s: State) {
    forall t, u | 0 <= t < |s.threads| && 0 <= u < |s.threads| && IsWorker(s.threads[t]) && IsWorker(s.threads[u]) ::
      t == u
  }

  predicate ThreadsOk(site: Site, s: State) {
    forall t | 0 <= t < |s.threads| :: ThreadOk(site, s.server, Replay(s.log), s.threads[t])
  }

  predicate Inv(site: Site, s: State) {
    && Legal(s.log)
    && Matches(site, s.server, Replay(s.log))
    && ThreadsOk(site, s)
    && OneWorker(s)
    && IdsOk(s)
  }

  // ---- How steps keep it ----

  /** A write moves the entry to a version no copy has seen, so whatever a bystander's copy says stays true. */
  lemma {:induction false} Bystander(site: Site, server: Server, server': Server, i: Instance, i': Instance, t: Thread)
    requires ThreadOk(site, server, i, t) && !IsWorker(t)
    requires server'.clock >= server.clock
    requires site.ref in server'.secrets ==> server'.secrets[site.ref].version > server.clock
    ensures ThreadOk(site, server', i', t)
  {
  }

  lemma {:induction false} LogGrows(log: seq<Event>, e: Event)
    ensures Replay(log + [e]) == After(Replay(log), e)
    ensures Legal(log + [e]) <==> Legal(log) && Enabled(Replay(log), e) && (e.Accepted? ==> e.id !in AcceptedIds(log))
    ensures AcceptedIds(log + [e]) == AcceptedIds(log) + if e.Accepted? then {e.id} else {}
  {
    assert (log + [e])[..|log + [e]| - 1] == log;
    if e.Accepted? {
      assert e in log + [e];
    }
    forall x | x in AcceptedIds(log) ensures x in AcceptedIds(log + [e]) {
      var f :| f in log && f.Accepted? && f.id == x;
      assert f in log + [e];
    }
  }

  /** A thread that moves on by itself. */
  lemma {:induction false} LocalStep(site: Site, s: State, t: nat, thread: Thread)
    requires Inv(site, s) && t < |s.threads|
    requires ThreadOk(site, s.server, Replay(s.log), thread)
    requires !thread.Starting? && (IsWorker(thread) ==> IsWorker(s.threads[t]))
    ensures Inv(site, Become(s, t, thread))
  {
  }

  /** A read-only answer. */
  lemma {:induction false} AnswerStep(site: Site, s: State, e: Event)
    requires Inv(site, s) && Enabled(Replay(s.log), e) && (e.Replied? || e.Running? || e.Gone?)
    ensures Inv(site, Log(s, e))
  {
    LogGrows(s.log, e);
  }

  /** A write by the only thread that has a say in it. */
  lemma {:induction false} WriteStep(site: Site, s: State, t: nat, thread: Thread, server: Server, e: Event)
    requires Inv(site, s) && t < |s.threads|
    requires Enabled(Replay(s.log), e)
    requires e.Accepted? ==> s.threads[t].Starting? && s.threads[t].id == e.id
    requires forall u | 0 <= u < |s.threads| && u != t :: !IsWorker(s.threads[u])
    requires server.clock > s.server.clock
    requires site.ref in server.secrets ==> server.secrets[site.ref].version > s.server.clock
    requires Matches(site, server, After(Replay(s.log), e))
    requires ThreadOk(site, server, After(Replay(s.log), e), thread) && !thread.Starting?
    ensures Inv(site, Write(s, t, thread, server, e))
  {
    LogGrows(s.log, e);
    var s' := Write(s, t, thread, server, e);
    forall u | 0 <= u < |s'.threads| ensures ThreadOk(site, server, Replay(s'.log), s'.threads[u]) {
      if u != t {
        Bystander(site, s.server, server, Replay(s.log), Replay(s'.log), s.threads[u]);
      }
    }
  }

  /** While no operation is in flight, or none is recorded, no goroutine is at work. */
  lemma {:induction false} NoWorker(site: Site, s: State)
    requires Inv(site, s)
    requires Replay(s.log).Present? ==> !Replay(s.log).phase.InFlight?
    ensures forall u | 0 <= u < |s.threads| :: !IsWorker(s.threads[u])
  {
    forall u | 0 <= u < |s.threads| ensures !IsWorker(s.threads[u]) {
      assert ThreadOk(site, s.server, Replay(s.log), s.threads[u]);
    }
  }

  lemma {:induction false} BeginKeeps(site: Site, s: State, t: nat, copy: Copy, change: Change, c: Choice)
    requires Inv(site, s) && t < |s.threads|
    requires Faithful(site, s.server, copy) && copy.data == Changed(copy.base, change)
    requires change.ProvisionWith? ==>
               && UserValues(change.values)
               && (Current(site, s.server, copy) ==> Replay(s.log).Present? && Replay(s.log).virgin)
    ensures Inv(site, Begin(s, t, copy, change, c))
  {
    if GetString(copy.data, OperationType) != Ok(None) {
      LocalStep(site, s, t, Done);
    } else if c.id !in s.issued {
      assert OperationType !in copy.base by {
        assert OperationType !in copy.data;
        match change
        case ProvisionWith(values) => assert (copy.base + values).Keys == copy.base.Keys + values.Keys;
        case _ =>
      }
      Issue(site, s, t, Starting(change, c.id, copy.(data := StartedData(copy.data, KindOf(change), c.id))));
    }
  }

  /** Drawing an id nobody has drawn. */
  lemma {:induction false} Issue(site: Site, s: State, t: nat, thread: Thread)
    requires Inv(site, s) && t < |s.threads|
    requires thread.Starting? && thread.id !in s.issued && ThreadOk(site, s.server, Replay(s.log), thread)
    ensures Inv(site, Become(s, t, thread).(issued := s.issued + {thread.id}))
  {
    var s' := Become(s, t, thread).(issued := s.issued + {thread.id});
    assert ThreadsOk(site, s');
    assert OneWorker(s');
    assert IdsOk(s');
  }

  lemma {:induction false} CreateKeeps(site: Site, s: State, t: nat, c: Choice)
    requires Inv(site, s) && t < |s.threads|
    requires s.threads[t].Creating? || s.threads[t].Registering? || s.threads[t].Preparing?
    ensures Inv(site, CreateStep(site, s, t, c))
  {
    LocalStep(site, s, t, Done);
    var i := Replay(s.log);
    assert ThreadOk(site, s.server, i, s.threads[t]);
    match s.threads[t]
    case Creating(req) =>
      if c.up && site.ref in s.server.secrets {
        ReplyIsExpected(site.instanceId, i, req);
        AnswerStep(site, Become(s, t, Done), Replied(req, ReplyToCreate(s.server.secrets[site.ref].data, req)));
      } else if c.up {
        match GetNamespace(site.decode, req.context, site.brokerNamespace)
        case Ok(ns) => LocalStep(site, s, t, Registering(req, ns, InitialData(site.instanceId, ns, req)));
        case Err(_) =>
      }
    case Registering(req, ns, data) =>
      if c.up && CanCreate(s.server, site.ref) {
        var server := AfterCreate(s.server, site.ref, data);
        NoWorker(site, s);
        var i' := After(i, Created(req, ns));
        assert DataOf(site.instanceId, i') == data;
        WriteStep(site, s, t, Preparing(req, ns, Fetched(server, site.ref)), server, Created(req, ns));
      }
    case Preparing(req, ns, copy) =>
      if Prepared(copy.data, c.values).Ok? && c.valid {
        PreparedOverlays(copy.data, c.values);
        BeginKeeps(site, s, t, copy.(data := Prepared(copy.data, c.values).value), ProvisionWith(Written(c.values)), c);
      }
  }

  lemma {:induction false} UpdateKeeps(site: Site, s: State, t: nat, c: Choice)
    requires Inv(site, s) && t < |s.threads| && (s.threads[t].Updating? || s.threads[t].Merging?)
    ensures Inv(site, UpdateStep(site, s, t, c))
  {
    LocalStep(site, s, t, Done);
    assert ThreadOk(site, s.server, Replay(s.log), s.threads[t]);
    match s.threads[t]
    case Updating(parameters) =>
      if c.up && site.ref in s.server.secrets {
        LocalStep(site, s, t, Merging(parameters, Fetched(s.server, site.ref)));
      }
    case Merging(parameters, copy) =>
      BeginKeeps(site, s, t, copy.(data := copy.data[Parameters := Stored(parameters)]), UpdateTo(Stored(parameters)),
          c);
  }

  lemma {:induction false} DeleteKeeps(site: Site, s: State, t: nat, c: Choice)
    requires Inv(site, s) && t < |s.threads|
    requires s.threads[t].Deleting? || s.threads[t].Checking? || s.threads[t].Deprovisioning?
    ensures Inv(site, DeleteStep(site, s, t, c))
  {
    LocalStep(site, s, t, Done);
    assert ThreadOk(site, s.server, Replay(s.log), s.threads[t]);
    match s.threads[t]
    case Deleting(wanted) =>
      if c.up && site.ref in s.server.secrets {
        LocalStep(site, s, t, Checking(wanted, Fetched(s.server, site.ref)));
      }
    case Checking(wanted, copy) =>
      BeginKeeps(site, s, t, copy, Remove, c);
    case Deprovisioning(id, _) =>
      if c.up && site.ref in s.server.secrets {
        WriteStep(site, s, t, Done, AfterDelete(s.server, site.ref), Removed(id));
      }
  }

  lemma {:induction false} PollKeeps(site: Site, s: State, t: nat, c: Choice)
    requires Inv(site, s) && t < |s.threads| && (s.threads[t].Polling? || s.threads[t].Ending?)
    ensures Inv(site, PollStep(site, s, t, c))
  {
    LocalStep(site, s, t, Done);
    var i := Replay(s.log);
    assert ThreadOk(site, s.server, i, s.threads[t]);
    match s.threads[t]
    case Polling(query) =>
      if c.up && site.ref !in s.server.secrets {
        AnswerStep(site, Become(s, t, Done), Gone);
      } else if c.up {
        PollFetched(site, s, t, query);
      }
    case Ending(id, text, copy) =>
      if c.up && CanUpdate(s.server, site.ref, copy.version) {
        EndedMatches(site, s, t);
        NoWorker(site, s);
        WriteStep(site, s, t, Done, AfterUpdate(s.server, site.ref, copy.data), Ended(id, text));
      }
  }

  /** What a poll reads is what the log says: running, finished, or no operation to speak of. */
  lemma {:induction false} PollFetched(site: Site, s: State, t: nat, query: PollRequest)
    requires Inv(site, s) && t < |s.threads| && site.ref in s.server.secrets
    ensures var copy := Fetched(s.server, site.ref);
            match PollVerdict(copy.data, query)
            case Refused => true
            case Unreadable => true
            case StillRunning =>
              Complaints(copy.data, query) == 0 ==> Inv(site, Log(Become(s, t, Done), Running(query.operation.value)))
            case Terminal(id, text) => Inv(site, Become(s, t, Ending(id, text, copy.(data := EndedData(copy.data)))))
  {
    var i := Replay(s.log);
    IdentityAt(site.instanceId, i);
    OperationAt(site.instanceId, i);
    var copy := Fetched(s.server, site.ref);
    LocalStep(site, s, t, Done);
    match PollVerdict(copy.data, query)
    case Refused =>
    case Unreadable =>
    case StillRunning =>
      if Complaints(copy.data, query) == 0 {
        AnswerStep(site, Become(s, t, Done), Running(query.operation.value));
      }
    case Terminal(id, text) =>
      LocalStep(site, s, t, Ending(id, text, copy.(data := EndedData(copy.data))));
  }

  /** Ending a finished operation leaves the entry as if it had never been recorded. */
  lemma {:induction false} EndedMatches(site: Site, s: State, t: nat)
    requires Inv(site, s) && t < |s.threads| && s.threads[t].Ending?
    requires CanUpdate(s.server, site.ref, s.threads[t].copy.version)
    ensures var i, e := Replay(s.log), Ended(s.threads[t].id, s.threads[t].text);
            && Enabled(i, e)
            && Matches(site, AfterUpdate(s.server, site.ref, s.threads[t].copy.data), After(i, e))
  {
    var i := Replay(s.log);
    var Ending(id, text, copy) := s.threads[t];
    assert ThreadOk(site, s.server, i, s.threads[t]);
    OperationAt(site.instanceId, i);
    EndedDataOf(site.instanceId, i);
  }

  lemma {:induction false} EndedDataOf(instanceId: string, i: Instance)
    requires i.Present? && UserValues(i.values) && i.phase.Finished?
    ensures EndedData(DataOf(instanceId, i)) == DataOf(instanceId, i.(phase := Idle))
  {
    var d := InitialData(instanceId, i.namespace, i.origin)[Parameters := i.parameters];
    assert EndedData(SystemData(instanceId, i)) == d;
    assert forall k | k in i.values :: !Reserved(k);
    assert EndedData(i.values) == i.values;
    assert EndedData(SystemData(instanceId, i) + i.values) ==
             EndedData(SystemData(instanceId, i)) + EndedData(i.values);
  }

  lemma {:induction false} WorkKeeps(site: Site, s: State, t: nat, c: Choice)
    requires Inv(site, s) && t < |s.threads| && (s.threads[t].Working? || s.threads[t].Completing?)
    ensures Inv(site, WorkStep(site, s, t, c))
  {
    LocalStep(site, s, t, Done);
    var i := Replay(s.log);
    assert ThreadOk(site, s.server, i, s.threads[t]);
    match s.threads[t]
    case Working(kind, id, copy) =>
      LocalStep(site, s, t, Completing(kind, id, c.result, copy.(data := CompletedData(copy.data, c.result))));
    case Completing(_, id, result, copy) =>
      if c.up {
        var i' := After(i, Completed(id, result));
        CompletedDataOf(site.instanceId, i, result);
        WriteStep(site, s, t, Done, AfterUpdate(s.server, site.ref, copy.data), Completed(id, result));
      }
  }

  lemma {:induction false} CompletedDataOf(instanceId: string, i: Instance, result: Option<string>)
    requires i.Present? && UserValues(i.values) && i.phase.InFlight?
    ensures CompletedData(DataOf(instanceId, i), result)
              == DataOf(instanceId, i.(phase := Finished(i.phase.id, i.phase.kind, result)))
  {
    assert forall k | k in i.values :: !Reserved(k);
  }

  /** An operation accepted: the entry is the copy the handler edited, and its goroutine is the only one. */
  lemma {:induction false} StartKeeps(site: Site, s: State, t: nat, c: Choice)
    requires Inv(site, s) && t < |s.threads| && s.threads[t].Starting?
    ensures Inv(site, StartStep(site, s, t, c))
  {
    LocalStep(site, s, t, Done);
    var i := Replay(s.log);
    var Starting(change, id, copy) := s.threads[t];
    assert ThreadOk(site, s.server, i, s.threads[t]);
    if c.up && CanUpdate(s.server, site.ref, copy.version) {
      AcceptedMatches(site, s, t);
      NoWorker(site, s);
      var server := AfterUpdate(s.server, site.ref, copy.data);
      WriteStep(site, s, t, Done, server, Accepted(id, change));
      var after := Write(s, t, Done, server, Accepted(id, change));
      LogGrows(s.log, Accepted(id, change));
      NobodyWorks(s, t);
      Spawn(site, after, Worker(change, id, Fetched(server, site.ref)));
    }
  }

  lemma {:induction false} NobodyWorks(s: State, t: nat)
    requires t < |s.threads| && forall u | 0 <= u < |s.threads| :: !IsWorker(s.threads[u])
    ensures var after := Become(s, t, Done).threads; forall u | 0 <= u < |after| :: !IsWorker(after[u])
  {
  }

  lemma {:induction false} Spawn(site: Site, s: State, thread: Thread)
    requires Inv(site, s) && ThreadOk(site, s.server, Replay(s.log), thread) && !thread.Starting?
    requires IsWorker(thread) ==> forall u | 0 <= u < |s.threads| :: !IsWorker(s.threads[u])
    ensures Inv(site, s.(threads := s.threads + [thread]))
  {
  }

  lemma {:induction false} AcceptedMatches(site: Site, s: State, t: nat)
    requires Inv(site, s) && t < |s.threads| && s.threads[t].Starting?
    requires CanUpdate(s.server, site.ref, s.threads[t].copy.version)
    ensures var i, e := Replay(s.log), Accepted(s.threads[t].id, s.threads[t].change);
            && Enabled(i, e)
            && Matches(site, AfterUpdate(s.server, site.ref, s.threads[t].copy.data), After(i, e))
  {
    var i := Replay(s.log);
    var Starting(change, id, copy) := s.threads[t];
    assert ThreadOk(site, s.server, i, s.threads[t]);
    OperationAt(site.instanceId, i);
    AcceptedDataOf(site.instanceId, i, change, id);
  }

  /** System keys set over user values might as well be set under them. */
  lemma {:induction false} SetUnder(d: Data, values: Data, key: Key, v: Json)
    requires UserValues(values) && Reserved(key)
    ensures (d + values)[key := v] == d[key := v] + values
  {
    assert key !in values;
  }

  lemma {:induction false} StartedUnder(d: Data, values: Data, kind: Kind, id: string)
    requires UserValues(values)
    ensures StartedData(d + values, kind, id) == StartedData(d, kind, id) + values
  {
    SetUnder(d, values, OperationType, JString(KindName(kind)));
    SetUnder(d[OperationType := JString(KindName(kind))], values, OperationID, JString(id));
  }

  lemma {:induction false} AcceptedDataOf(instanceId: string, i: Instance, change: Change, id: string)
    requires i.Present? && i.phase.Idle? && UserValues(i.values)
    requires change.ProvisionWith? ==> i.values == map[] && UserValues(change.values) && i.virgin
    ensures StartedData(Changed(DataOf(instanceId, i), change), KindOf(change), id)
              == DataOf(instanceId, After(i, Accepted(id, change)))
  {
    var d := InitialData(instanceId, i.namespace, i.origin)[Parameters := i.parameters];
    match change
    case ProvisionWith(values) =>
      assert d + i.values == d;
      StartedUnder(d, values, Provision, id);
    case UpdateTo(parameters) =>
      SetUnder(d, i.values, Parameters, parameters);
      StartedUnder(d[Parameters := parameters], i.values, Update, id);
      assert d[Parameters := parameters] == InitialData(instanceId, i.namespace, i.origin)[Parameters := parameters];
    case Remove =>
      StartedUnder(d, i.values, Deprovision, id);
  }

  // ---- The main theorem ----

  lemma {:induction false} MoveKeeps(site: Site, s: State, t: nat, c: Choice)
    requires Inv(site, s) && t < |s.threads|
    ensures Inv(site, MoveStep(site, s, t, c))
  {
    match s.threads[t]
    case Updating(_) => UpdateKeeps(site, s, t, c);
    case Merging(_, _) => UpdateKeeps(site, s, t, c);
    case Deleting(_) => DeleteKeeps(site, s, t, c);
    case Checking(_, _) => DeleteKeeps(site, s, t, c);
    case Deprovisioning(_, _) => DeleteKeeps(site, s, t, c);
    case Starting(_, _, _) => StartKeeps(site, s, t, c);
    case Working(_, _, _) => WorkKeeps(site, s, t, c);
    case Completing(_, _, _, _) => WorkKeeps(site, s, t, c);
    case Polling(_) => PollKeeps(site, s, t, c);
    case Ending(_, _, _) => PollKeeps(site, s, t, c);
    case Done =>
    case _ => CreateKeeps(site, s, t, c);
  }

  /** Commits to other objects only move the clock. */
  lemma {:induction false} OthersKeep(site: Site, s: State, secrets: map<Ref, Secret>, ticks: nat)
    requires Inv(site, s)
    ensures Inv(site, Step(site, s, Others(secrets, ticks)))
  {
    var s' := Step(site, s, Others(secrets, ticks));
    forall t | 0 <= t < |s.threads| ensures ThreadOk(site, s'.server, Replay(s'.log), s'.threads[t]) {
      assert ThreadOk(site, s.server, Replay(s.log), s.threads[t]);
    }
  }

  lemma {:induction false} StepKeeps(site: Site, s: State, a: Action)
    requires Inv(site, s)
    ensures Inv(site, Step(site, s, a))
  {
    match a
    case Arrive(request) => if IsRequest(request) { Spawn(site, s, request); }
    case Move(t, c) => if t < |s.threads| { MoveKeeps(site, s, t, c); }
    case Crash(t) => if t < |s.threads| { LocalStep(site, s, t, Done); }
    case Others(secrets, ticks) => OthersKeep(site, s, secrets, ticks);
  }

  /** Every run keeps the invariant: its log is legal, and the stored entry is the instance the log describes. */
  lemma {:induction false} EveryRunIsSafe(site: Site, actions: seq<Action>)
    ensures Inv(site, Run(site, actions))
    decreases |actions|
  {
    if actions != [] {
      EveryRunIsSafe(site, actions[..|actions| - 1]);
      StepKeeps(site, Run(site, actions[..|actions| - 1]), actions[|actions| - 1]);
    }
  }
}
