/**
 One singleton resource and the registry entries that own it: provisioning goroutines create or join it while
 entries are deleted, the garbage collector prunes and collects, and outsiders edit, remove or replace it.
 The steps of a goroutine are those of `Creation.CreateResource`.
*/
module Singleton {
  import opened Json
  import opened Registry

  /** `owners` is absent if the object has no owner references at all. */
  datatype Resource = Resource(owners: Option<seq<OwnerReference>>, version: nat, uid: nat)

  datatype Worker =
    | Creating(me: OwnerReference)
    | Finding(me: OwnerReference)
    | Joining(me: OwnerReference, owners: seq<OwnerReference>, version: nat)
    | Succeeded(me: OwnerReference, uid: nat)
    | Failed(me: OwnerReference)

  /** `live` are the registry entries there are; `removed` the resources taken away by outsiders, which is history. */
  datatype State = State(resource: Option<Resource>, clock: nat, live: set<OwnerReference>, workers: seq<Worker>,
      removed: set<nat>)

  datatype Action =
    | Register(name: string)
    | Deregister(entry: OwnerReference)
    | Provision(entry: OwnerReference)
    | Move(worker: nat, up: bool)
    | Prune
    | Collect
    | Edit
    | Remove
    | Plant(owners: Option<seq<OwnerReference>>)

  // ---- Steps ----

  function Become(s: State, w: nat, worker: Worker): State
    requires w < |s.workers|
  {
    s.(workers := s.workers[w := worker])
  }

  /** The resource with new owners, at the next version. */
  function Rewritten(s: State, owners: Option<seq<OwnerReference>>): State
    requires s.resource.Some?
  {
    s.(resource := Some(Resource(owners, s.clock + 1, s.resource.value.uid)), clock := s.clock + 1)
  }

  function Planted(s: State, owners: Option<seq<OwnerReference>>): State {
    s.(resource := Some(Resource(owners, s.clock + 1, s.clock + 1)), clock := s.clock + 1)
  }

  /** A failing API call fails the goroutine; so does a cluster-wide resource that exists, for it is never found. */
  function MoveStep(clusterWide: bool, s: State, w: nat, up: bool): State
    requires w < |s.workers|
  {
    var me := s.workers[w].me;
    match s.workers[w]
    case Creating(_) =>
      if !up then Become(s, w, Failed(me))
      else if s.resource.Some? then Become(s, w, Finding(me))
      else Become(Planted(s, Some([me])), w, Succeeded(me, s.clock + 1))
    case Finding(_) =>
      if !up || clusterWide || s.resource.None? || s.resource.value.owners.None? then Become(s, w, Failed(me))
      else Become(s, w, Joining(me, s.resource.value.owners.value, s.resource.value.version))
    case Joining(_, owners, version) =>
      if !up || s.resource.None? || s.resource.value.version != version then Become(s, w, Failed(me))
      else Become(Rewritten(s, Some(owners + [me])), w, Succeeded(me, s.resource.value.uid))
    case _ => s
  }

  function Alive(owners: seq<OwnerReference>, live: set<OwnerReference>): (r: seq<OwnerReference>)
    ensures forall o :: o in r <==> o in owners && o in live
  {
    if owners == [] then []
    else if owners[0] in live then [owners[0]] + Alive(owners[1..], live)
    else Alive(owners[1..], live)
  }

  /** The garbage collector acts on owned resources only. */
  predicate Owned(s: State) {
    s.resource.Some? && s.resource.value.owners.Some? && s.resource.value.owners.value != []
  }

  function Step(clusterWide: bool, s: State, a: Action): State {
    match a
    case Register(name) => s.(live := s.live + {OwnerReference(name, s.clock + 1)}, clock := s.clock + 1)
    case Deregister(entry) => s.(live := s.live - {entry})
    case Provision(entry) => if entry in s.live then s.(workers := s.workers + [Creating(entry)]) else s
    case Move(w, up) => if w < |s.workers| then MoveStep(clusterWide, s, w, up) else s
    case Prune =>
      if Owned(s) && Alive(s.resource.value.owners.value, s.live) != []
      then Rewritten(s, Some(Alive(s.resource.value.owners.value, s.live))) else s
    case Collect =>
      if Owned(s) && Alive(s.resource.value.owners.value, s.live) == [] then s.(resource := None) else s
    case Edit => if s.resource.Some? then Rewritten(s, s.resource.value.owners) else s
    case Remove =>
      if s.resource.Some? then s.(resource := None, removed := s.removed + {s.resource.value.uid}) else s
    case Plant(owners) => if s.resource.None? then Planted(s, owners) else s
  }

  const START: State := State(None, 0, {}, [], {})

  function Run(clusterWide: bool, actions: seq<Action>): State
    decreases |actions|
  {
    if actions == [] then START
    else Step(clusterWide, Run(clusterWide, actions[..|actions| - 1]), actions[|actions| - 1])
  }

  // ---- What every step keeps ----

  predicate WorkerOk(s: State, w: Worker) {
    && w.me.uid <= s.clock
    && match w
       case Joining(_, owners, version) =>
         && version <= s.clock
         && (s.resource.Some? && s.resource.value.version == version ==> s.resource.value.owners == Some(owners))
       case Succeeded(me, uid) =>
         && uid <= s.clock
         && (me in s.live && uid !in s.removed ==>
               && s.resource.Some? && s.resource.value.uid == uid
               && s.resource.value.owners.Some? && me in s.resource.value.owners.value)
       case _ => true
  }

  predicate ClockOk(s: State) {
    && (forall o | o in s.live :: o.uid <= s.clock)
    && (forall u | u in s.removed :: u <= s.clock)
    && (s.resource.Some? ==> s.resource.value.version <= s.clock && s.resource.value.uid <= s.clock
                             && s.resource.value.uid !in s.removed)
  }

  predicate Inv(s: State) {
    ClockOk(s) && forall w | 0 <= w < |s.workers| :: WorkerOk(s, s.workers[w])
  }

  /** A worker that does not move stays as it should be, unless what it relies on changes. */
  lemma {:induction false} Bystander(clusterWide: bool, s: State, a: Action, w: Worker)
    requires Inv(s) && WorkerOk(s, w)
    ensures WorkerOk(Step(clusterWide, s, a), w)
  {
    if a.Move? && a.worker < |s.workers| {
      assert WorkerOk(s, s.workers[a.worker]);
    }
  }

  lemma {:induction false} StepKeeps(clusterWide: bool, s: State, a: Action)
    requires Inv(s)
    ensures Inv(Step(clusterWide, s, a))
  {
    var s' := Step(clusterWide, s, a);
    forall w | 0 <= w < |s'.workers| ensures WorkerOk(s', s'.workers[w]) {
      if w < |s.workers| {
        Bystander(clusterWide, s, a, s.workers[w]);
        assert WorkerOk(s, s.workers[w]);
      }
    }
  }

  lemma {:induction false} RunKeeps(clusterWide: bool, actions: seq<Action>)
    ensures Inv(Run(clusterWide, actions))
    decreases |actions|
  {
    if actions != [] {
      RunKeeps(clusterWide, actions[..|actions| - 1]);
      StepKeeps(clusterWide, Run(clusterWide, actions[..|actions| - 1]), actions[|actions| - 1]);
    }
  }

  // ---- Guarantees ----

  /**
   Through any interleaving, the owners of a singleton that outsiders leave in place contain every live registry
   entry whose provisioning created or joined it.
  */
  lemma {:induction false} OwnersAreKept(clusterWide: bool, actions: seq<Action>, w: nat)
    requires var s := Run(clusterWide, actions);
             w < |s.workers| && s.workers[w].Succeeded? && s.workers[w].me in s.live && s.workers[w].uid !in s.removed
    ensures var s := Run(clusterWide, actions);
            && s.resource.Some? && s.resource.value.uid == s.workers[w].uid
            && s.resource.value.owners.Some? && s.workers[w].me in s.resource.value.owners.value
  {
    RunKeeps(clusterWide, actions);
    assert WorkerOk(Run(clusterWide, actions), Run(clusterWide, actions).workers[w]);
  }

  /** The garbage collector takes it only after the last such entry is gone. */
  lemma {:induction false} CollectedWhenAbandoned(clusterWide: bool, actions: seq<Action>, w: nat)
    requires var s := Run(clusterWide, actions);
             && s.resource.Some? && Step(clusterWide, s, Collect).resource.None?
             && w < |s.workers| && s.workers[w].Succeeded? && s.workers[w].uid == s.resource.value.uid
    ensures Run(clusterWide, actions).workers[w].me !in Run(clusterWide, actions).live
  {
    var s := Run(clusterWide, actions);
    RunKeeps(clusterWide, actions);
    if s.workers[w].me in s.live {
      OwnersAreKept(clusterWide, actions, w);
    }
  }

  // ---- Sharing ----

  /** Two provisionings ended up owning the same resource. */
  predicate Shared(s: State, v: nat, w: nat) {
    && v < w < |s.workers| && s.workers[v].Succeeded? && s.workers[w].Succeeded?
    && s.workers[v].uid == s.workers[w].uid && s.workers[v].me != s.workers[w].me
  }

  predicate Unshared(s: State) {
    && (forall w | 0 <= w < |s.workers| :: !s.workers[w].Joining?)
    && (forall v, w | 0 <= v < w < |s.workers| && s.workers[v].Succeeded? && s.workers[w].Succeeded? ::
          s.workers[v].uid != s.workers[w].uid)
  }

  lemma {:induction false} ClusterWideStep(s: State, a: Action)
    requires Inv(s) && Unshared(s)
    ensures Unshared(Step(true, s, a))
  {
    assert forall w | 0 <= w < |s.workers| :: WorkerOk(s, s.workers[w]);
    if a.Move? && a.worker < |s.workers| {
      var s' := MoveStep(true, s, a.worker, a.up);
      assert forall w | 0 <= w < |s.workers| && w != a.worker :: s'.workers[w] == s.workers[w];
    } else {
      var s' := Step(true, s, a);
      assert forall w | 0 <= w < |s.workers| :: s'.workers[w] == s.workers[w];
    }
  }

  lemma {:induction false} ClusterWideIsUnshared(actions: seq<Action>)
    ensures Unshared(Run(true, actions))
    decreases |actions|
  {
    if actions != [] {
      RunKeeps(true, actions[..|actions| - 1]);
      ClusterWideIsUnshared(actions[..|actions| - 1]);
      ClusterWideStep(Run(true, actions[..|actions| - 1]), actions[|actions| - 1]);
    }
  }

  lemma {:induction false} RunExtends(clusterWide: bool, actions: seq<Action>, a: Action)
    ensures Run(clusterWide, actions + [a]) == Step(clusterWide, Run(clusterWide, actions), a)
  {
    assert (actions + [a])[..|actions|] == actions;
  }

  /** Two entries come to share a resource in some run exactly if its type is namespaced. */
  lemma {:induction false} SharedIfNamespaced(clusterWide: bool)
    ensures !clusterWide <==> exists actions, v, w :: Shared(Run(clusterWide, actions), v, w)
  {
    if clusterWide {
      forall actions, v: nat, w: nat ensures !Shared(Run(clusterWide, actions), v, w) {
        ClusterWideIsUnshared(actions);
      }
    } else {
      var a, b := OwnerReference("a", 1), OwnerReference("b", 2);
      RunExtends(false, [], Register("a"));
      var run := [] + [Register("a")];
      RunExtends(false, run, Register("b"));
      run := run + [Register("b")];
      RunExtends(false, run, Provision(a));
      run := run + [Provision(a)];
      RunExtends(false, run, Provision(b));
      run := run + [Provision(b)];
      assert Run(false, run) == State(None, 2, {a, b}, [Creating(a), Creating(b)], {});
      RunExtends(false, run, Move(0, true));
      run := run + [Move(0, true)];
      assert Run(false, run) == State(Some(Resource(Some([a]), 3, 3)), 3, {a, b}, [Succeeded(a, 3), Creating(b)], {});
      RunExtends(false, run, Move(1, true));
      run := run + [Move(1, true)];
      RunExtends(false, run, Move(1, true));
      run := run + [Move(1, true)];
      RunExtends(false, run, Move(1, true));
      run := run + [Move(1, true)];
      assert Shared(Run(false, run), 0, 1);
    }
  }
}
