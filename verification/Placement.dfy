/**
 Where handlers look for an instance, and where it is. The requests for one instance are interleaved call by
 call: creates list it in the directory and register its entry, deletes take it off the list, decide, and leave
 the rest to a goroutine; all others look it up and carry on where it says.
*/
module Placement {
  import opened Json
  import opened Directory
  import Config
  import Decisions

  datatype Thread =
    | Creating(binding: Config.Binding, context: Option<Decisions.Raw>)
    | Listing(namespace: string, listed: bool, version: nat)
    | Registering(namespace: string)
    | Looking(deletes: bool)
    | Delisting(namespace: string)
    | Removing(namespace: string, version: nat)
    | Deciding(namespace: string)
    | Serving(namespace: string)
    | Deprovisioning(namespace: string)
    | Done

  /** The directory's secret: what it says about the instance. */
  datatype Secret = Secret(entry: Option<string>, version: nat)

  /**
   `homes` are the namespaces that hold an entry of the instance, `leaving` those whose entry is being
   deprovisioned; `refused` remembers that, since the instance was last listed, a delete left it stored and unlisted.
  */
  datatype State = State(directory: Option<Secret>, clock: nat, homes: set<string>, leaving: set<string>,
                         threads: seq<Thread>, refused: bool)

  /** The broker's namespace, and the JSON decoder. */
  datatype Site = Site(broker: string, decode: string -> Json)

  datatype Action =
    | Arrive(request: Thread)
    | Move(thread: nat, up: bool, accepts: bool)
    | Crash(thread: nat)
    | OtherInstances

  predicate IsRequest(t: Thread) {
    t.Creating? || t.Looking?
  }

  function Listed(s: State, broker: string): string {
    if s.directory.Some? && s.directory.value.entry.Some? then s.directory.value.entry.value else broker
  }

  function Become(s: State, t: nat, thread: Thread): State
    requires t < |s.threads|
  {
    s.(threads := s.threads[t := thread])
  }

  predicate IsUnlisted(s: State) {
    s.directory.None? || s.directory.value.entry.None?
  }

  /** A delete ends without having been accepted. */
  function GivenUp(s: State, t: nat): State
    requires t < |s.threads|
  {
    Become(s, t, Done).(refused := s.refused || (s.homes != {} && IsUnlisted(s)))
  }

  function Commit(s: State, entry: Option<string>): State {
    s.(directory := Some(Secret(entry, s.clock + 1)), clock := s.clock + 1)
  }

  function VersionOf(s: State): nat {
    if s.directory.Some? then s.directory.value.version else 0
  }

  function CreateStep(site: Site, s: State, t: nat, up: bool): State
    requires t < |s.threads| && (s.threads[t].Creating? || s.threads[t].Listing? || s.threads[t].Registering?)
  {
    match s.threads[t]
    case Creating(binding, context) =>
      (match RegistryNamespace(site.decode, binding, context, site.broker)
       case Ok(n) => Become(s, t, if up then Listing(n, s.directory.Some?, VersionOf(s)) else Done)
       case Err(_) => Become(s, t, Done))
    case Listing(n, listed, version) =>
      if !up || s.directory.Some? != listed || (listed && s.directory.value.version != version) then Become(s, t, Done)
      else Become(Commit(s, Some(n)), t, Registering(n)).(refused := false)
    case Registering(n) =>
      if !up || n in s.homes then Become(s, t, Done)
      else Become(s.(homes := s.homes + {n}), t, Done)
  }

  function DeleteStep(site: Site, s: State, t: nat, up: bool, accepts: bool): State
    requires t < |s.threads|
    requires || s.threads[t].Delisting? || s.threads[t].Removing?
             || s.threads[t].Deciding? || s.threads[t].Deprovisioning?
  {
    match s.threads[t]
    case Delisting(n) =>
      Become(s, t, if up && s.directory.Some? && s.directory.value.entry.Some?
                   then Removing(n, s.directory.value.version) else Deciding(n))
    case Removing(n, version) =>
      if up && s.directory.Some? && s.directory.value.version == version then Become(Commit(s, None), t, Deciding(n))
      else Become(s, t, Deciding(n))
    case Deciding(n) =>
      if up && accepts && n in s.homes && n !in s.leaving then
        Become(s.(leaving := s.leaving + {n}), t, Deprovisioning(n))
      else GivenUp(s, t)
    case Deprovisioning(n) =>
      if up then Become(s.(homes := s.homes - {n}, leaving := s.leaving - {n}), t, Done) else Become(s, t, Done)
  }

  function MoveStep(site: Site, s: State, t: nat, up: bool, accepts: bool): State
    requires t < |s.threads|
  {
    match s.threads[t]
    case Creating(_, _) => CreateStep(site, s, t, up)
    case Listing(_, _, _) => CreateStep(site, s, t, up)
    case Registering(_) => CreateStep(site, s, t, up)
    case Looking(deletes) =>
      var n := if up then Listed(s, site.broker) else site.broker;
      Become(s, t, if deletes then Delisting(n) else Serving(n))
    case Serving(_) => s
    case Done => s
    case _ => DeleteStep(site, s, t, up, accepts)
  }

  function Step(site: Site, s: State, a: Action): State {
    match a
    case Arrive(request) =>
      if IsRequest(request) then s.(threads := s.threads + [request]) else s
    case Move(t, up, accepts) => if t < |s.threads| then MoveStep(site, s, t, up, accepts) else s
    case Crash(t) =>
      if t < |s.threads| then
        if s.threads[t].Deciding? then GivenUp(s, t) else Become(s, t, Done)
      else s
    case OtherInstances =>
      Commit(s, if s.directory.Some? then s.directory.value.entry else None)
  }

  /** A fresh installation, or one from before there was a directory, whose entries are in the broker's namespace. */
  function Start(site: Site, legacy: bool): State {
    State(None, 0, if legacy then {site.broker} else {}, {}, [], false)
  }

  function Run(site: Site, legacy: bool, actions: seq<Action>): State
    decreases |actions|
  {
    if actions == [] then Start(site, legacy)
    else Step(site, Run(site, legacy, actions[..|actions| - 1]), actions[|actions| - 1])
  }

  // ---- One home ----

  /** Every create that resolves at all resolves to `home`. */
  predicate OneHome(site: Site, home: string, a: Action) {
    a.Arrive? && a.request.Creating? ==>
      var n := RegistryNamespace(site.decode, a.request.binding, a.request.context, site.broker);
      n.Ok? ==> n.value == home
  }

  predicate ThreadAtHome(site: Site, home: string, t: Thread) {
    match t
    case Creating(binding, context) => OneHome(site, home, Arrive(t))
    case Listing(n, _, _) => n == home
    case Registering(n) => n == home
    case Delisting(n) => n == home || n == site.broker
    case Removing(n, _) => n == home || n == site.broker
    case Deciding(n) => n == home || n == site.broker
    case Serving(n) => n == home || n == site.broker
    case Deprovisioning(n) => n == home
    case _ => true
  }

  predicate AtHome(site: Site, home: string, s: State) {
    && s.homes <= {home} && s.leaving <= s.homes
    && (s.directory.Some? && s.directory.value.entry.Some? ==> s.directory.value.entry.value == home)
    && forall t | 0 <= t < |s.threads| :: ThreadAtHome(site, home, s.threads[t])
  }

  /** Only thread `t` changed, and everything that says where the instance is still says `home`. */
  predicate StaysHome(site: Site, home: string, s: State, s': State, t: nat)
    requires t < |s.threads|
  {
    && t < |s'.threads| && s'.threads == s.threads[t := s'.threads[t]] && ThreadAtHome(site, home, s'.threads[t])
    && s'.homes <= {home} && s'.leaving <= s'.homes
    && (s'.directory.Some? && s'.directory.value.entry.Some? ==> s'.directory.value.entry.value == home)
  }

  lemma {:induction false} CreateStaysHome(site: Site, home: string, s: State, t: nat, up: bool)
    requires AtHome(site, home, s) && t < |s.threads|
    requires s.threads[t].Creating? || s.threads[t].Listing? || s.threads[t].Registering?
    ensures StaysHome(site, home, s, CreateStep(site, s, t, up), t)
  {
    assert ThreadAtHome(site, home, s.threads[t]);
  }

  lemma {:induction false} DeleteStaysHome(site: Site, home: string, s: State, t: nat, up: bool, accepts: bool)
    requires AtHome(site, home, s) && t < |s.threads|
    requires s.threads[t].Delisting? || s.threads[t].Removing? || s.threads[t].Deciding? || s.threads[t].Deprovisioning?
    ensures StaysHome(site, home, s, DeleteStep(site, s, t, up, accepts), t)
  {
    assert ThreadAtHome(site, home, s.threads[t]);
  }

  lemma {:induction false} MoveStaysHome(site: Site, home: string, s: State, t: nat, up: bool, accepts: bool)
    requires AtHome(site, home, s) && t < |s.threads|
    ensures StaysHome(site, home, s, MoveStep(site, s, t, up, accepts), t)
  {
    assert ThreadAtHome(site, home, s.threads[t]);
    match s.threads[t]
    case Creating(_, _) => CreateStaysHome(site, home, s, t, up);
    case Listing(_, _, _) => CreateStaysHome(site, home, s, t, up);
    case Registering(_) => CreateStaysHome(site, home, s, t, up);
    case Looking(_) =>
    case Serving(_) =>
    case Done =>
    case _ => DeleteStaysHome(site, home, s, t, up, accepts);
  }

  lemma {:induction false} StepStaysHome(site: Site, home: string, s: State, a: Action)
    requires AtHome(site, home, s) && OneHome(site, home, a)
    ensures AtHome(site, home, Step(site, s, a))
  {
    if a.Move? && a.thread < |s.threads| {
      MoveStaysHome(site, home, s, a.thread, a.up, a.accepts);
    }
  }

  lemma {:induction false} RunsStayHome(site: Site, home: string, legacy: bool, actions: seq<Action>)
    requires forall i | 0 <= i < |actions| :: OneHome(site, home, actions[i])
    requires legacy ==> home == site.broker
    ensures AtHome(site, home, Run(site, legacy, actions))
    decreases |actions|
  {
    if actions != [] {
      RunsStayHome(site, home, legacy, actions[..|actions| - 1]);
      StepStaysHome(site, home, Run(site, legacy, actions[..|actions| - 1]), actions[|actions| - 1]);
    }
  }

  /**
   With broker-local bindings only, the directory does not matter: in every state of every interleaving, with or
   without an entry, and whether or not it can be read, instances are looked for, and are, in the broker's namespace.
  */
  lemma {:induction false} BrokerLocalNeedsNoDirectory(site: Site, legacy: bool, actions: seq<Action>, t: nat)
    requires forall i | 0 <= i < |actions| && actions[i].Arrive? && actions[i].request.Creating? ::
               actions[i].request.binding.scope in {Config.Unscoped, Config.BrokerLocal}
    ensures var s := Run(site, legacy, actions);
            && Listed(s, site.broker) == site.broker && s.homes <= {site.broker}
            && (t < |s.threads| && !s.threads[t].Creating? && !s.threads[t].Looking? && !s.threads[t].Done? ==>
                  s.threads[t].namespace == site.broker)
  {
    assert forall i | 0 <= i < |actions| :: OneHome(site, site.broker, actions[i]);
    RunsStayHome(site, site.broker, legacy, actions);
    var s := Run(site, legacy, actions);
    if t < |s.threads| {
      assert ThreadAtHome(site, site.broker, s.threads[t]);
    }
  }

  // ---- Creates and deletes ----

  predicate Creator(t: Thread) {
    t.Creating? || t.Listing? || t.Registering?
  }

  predicate Deleter(t: Thread) {
    (t.Looking? && t.deletes) || t.Delisting? || t.Removing? || t.Deciding?
  }

  /** A create handler and a delete handler are at work at the same time. */
  predicate Overlapping(s: State) {
    exists t, u :: 0 <= t < |s.threads| && 0 <= u < |s.threads| && Creator(s.threads[t]) && Deleter(s.threads[u])
  }

  /**
   Worse, one has listed the instance and is about to register it while the other is about to take it off the list.
  */
  predicate Crossing(s: State) {
    exists t, u :: 0 <= t < |s.threads| && 0 <= u < |s.threads| && s.threads[t].Registering? && s.threads[u].Removing?
  }

  predicate IsListed(home: string, s: State) {
    s.directory.Some? && s.directory.value.entry == Some(home)
  }

  predicate Deciders(s: State) {
    exists t :: 0 <= t < |s.threads| && s.threads[t].Deciding?
  }

  /**
   Who is about to register finds the instance listed; so is an idle stored instance, unless a delete is deciding or
   was refused.
  */
  predicate Orderly(home: string, s: State) {
    && (forall t | 0 <= t < |s.threads| && s.threads[t].Registering? :: IsListed(home, s))
    && (!s.refused && home in s.homes && home !in s.leaving ==> IsListed(home, s) || Deciders(s))
    && (s.refused ==> IsUnlisted(s))
  }

  /** One thread becomes something else. */
  lemma {:induction false} Becomes(s: State, s': State, t: nat, thread: Thread)
    requires t < |s.threads| && s'.threads == s.threads[t := thread]
    ensures Deciders(s) && !s.threads[t].Deciding? ==> Deciders(s')
    ensures thread.Deciding? ==> Deciders(s')
    ensures forall u | 0 <= u < |s'.threads| && u != t :: s'.threads[u] == s.threads[u]
  {
    assert s'.threads[t] == thread;
    if Deciders(s) && !s.threads[t].Deciding? {
      var u :| 0 <= u < |s.threads| && s.threads[u].Deciding?;
      assert s'.threads[u].Deciding?;
    }
  }

  lemma {:induction false} CreateIsOrderly(site: Site, home: string, s: State, t: nat, up: bool)
    requires AtHome(site, home, s) && Orderly(home, s) && t < |s.threads|
    requires s.threads[t].Creating? || s.threads[t].Listing? || s.threads[t].Registering?
    ensures Orderly(home, CreateStep(site, s, t, up))
  {
    var s' := CreateStep(site, s, t, up);
    assert ThreadAtHome(site, home, s.threads[t]);
    Becomes(s, s', t, s'.threads[t]);
  }

  lemma {:induction false} DeleteIsOrderly(site: Site, home: string, s: State, t: nat, up: bool, accepts: bool)
    requires AtHome(site, home, s) && Orderly(home, s) && !Crossing(s) && t < |s.threads|
    requires s.threads[t].Delisting? || s.threads[t].Removing? || s.threads[t].Deciding? || s.threads[t].Deprovisioning?
    ensures Orderly(home, DeleteStep(site, s, t, up, accepts))
  {
    var s' := DeleteStep(site, s, t, up, accepts);
    assert ThreadAtHome(site, home, s.threads[t]);
    Becomes(s, s', t, s'.threads[t]);
  }

  lemma {:induction false} StepIsOrderly(site: Site, home: string, s: State, a: Action)
    requires AtHome(site, home, s) && OneHome(site, home, a) && Orderly(home, s) && !Crossing(s)
    ensures Orderly(home, Step(site, s, a))
  {
    var s' := Step(site, s, a);
    match a
    case Move(t, up, accepts) =>
      if t < |s.threads| {
        match s.threads[t] {
          case Creating(_, _) => CreateIsOrderly(site, home, s, t, up);
          case Listing(_, _, _) => CreateIsOrderly(site, home, s, t, up);
          case Registering(_) => CreateIsOrderly(site, home, s, t, up);
          case Looking(_) => Becomes(s, s', t, s'.threads[t]);
          case Serving(_) =>
          case Done =>
          case _ => DeleteIsOrderly(site, home, s, t, up, accepts);
        }
      }
    case Crash(t) =>
      if t < |s.threads| { Becomes(s, s', t, Done); }
    case Arrive(_) =>
      if Deciders(s) {
        var u :| 0 <= u < |s.threads| && s.threads[u].Deciding?;
        assert s'.threads[u].Deciding?;
      }
    case OtherInstances =>
  }

  lemma {:induction false} RunsAreOrderly(site: Site, home: string, legacy: bool, actions: seq<Action>)
    requires home != site.broker && !legacy
    requires forall i | 0 <= i < |actions| :: OneHome(site, home, actions[i])
    requires forall n | 0 <= n < |actions| :: !Crossing(Run(site, legacy, actions[..n]))
    ensures Orderly(home, Run(site, legacy, actions))
    decreases |actions|
  {
    if actions != [] {
      var before := actions[..|actions| - 1];
      assert forall n | 0 <= n < |before| :: before[..n] == actions[..n];
      RunsAreOrderly(site, home, legacy, before);
      RunsStayHome(site, home, legacy, before);
      StepIsOrderly(site, home, Run(site, legacy, before), actions[|actions| - 1]);
    }
  }

  /**
   If all creates resolve to one namespace and none of them crosses a delete, then whenever no delete is deciding a
   stored instance that is not being deprovisioned is looked for where it is, exactly if that is the broker's namespace
   or no delete was refused since it was last listed. Any number of creates, deletes, lookups and goroutines may be at
   work otherwise.
  */
  lemma {:induction false} DirectoryAgrees(site: Site, home: string, legacy: bool, actions: seq<Action>)
    requires legacy ==> home == site.broker
    requires forall i | 0 <= i < |actions| :: OneHome(site, home, actions[i])
    requires forall n | 0 <= n < |actions| :: !Crossing(Run(site, legacy, actions[..n]))
    requires !Deciders(Run(site, legacy, actions))
    ensures var s := Run(site, legacy, actions);
            forall n | n in s.homes && n !in s.leaving ::
              Listed(s, site.broker) == n <==> n == site.broker || !s.refused
  {
    RunsStayHome(site, home, legacy, actions);
    if home != site.broker {
      RunsAreOrderly(site, home, legacy, actions);
    }
  }

  lemma {:induction false} CrossingOverlaps(s: State)
    ensures Crossing(s) ==> Overlapping(s)
  {
    if t, u :| 0 <= t < |s.threads| && 0 <= u < |s.threads| && s.threads[t].Registering? && s.threads[u].Removing? {
      assert Creator(s.threads[t]) && Deleter(s.threads[u]);
    }
  }

  /** In particular if no create handler is at work while a delete handler is. */
  lemma {:induction false} DirectoryAgreesApart(site: Site, home: string, legacy: bool, actions: seq<Action>)
    requires legacy ==> home == site.broker
    requires forall i | 0 <= i < |actions| :: OneHome(site, home, actions[i])
    requires forall n | 0 <= n < |actions| :: !Overlapping(Run(site, legacy, actions[..n]))
    requires !Deciders(Run(site, legacy, actions))
    ensures var s := Run(site, legacy, actions);
            forall n | n in s.homes && n !in s.leaving ::
              Listed(s, site.broker) == n <==> n == site.broker || !s.refused
  {
    forall n | 0 <= n < |actions| ensures !Crossing(Run(site, legacy, actions[..n])) {
      CrossingOverlaps(Run(site, legacy, actions[..n]));
    }
    DirectoryAgrees(site, home, legacy, actions);
  }

  /** One more action after a run that ends in `s`. */
  lemma {:induction false} Play(site: Site, home: string, actions: seq<Action>, s: State, a: Action)
    returns (more: seq<Action>)
    requires Run(site, false, actions) == s && OneHome(site, home, a)
    requires forall i | 0 <= i < |actions| :: OneHome(site, home, actions[i])
    ensures Run(site, false, more) == Step(site, s, a)
    ensures forall i | 0 <= i < |more| :: OneHome(site, home, more[i])
  {
    more := actions + [a];
    assert more[..|actions|] == actions;
  }

  lemma {:induction false} CreatedOnce(site: Site, home: string, create: Thread) returns (actions: seq<Action>)
    requires create.Creating? && RegistryNamespace(site.decode, create.binding, create.context, site.broker) == Ok(home)
    ensures forall i | 0 <= i < |actions| :: OneHome(site, home, actions[i])
    ensures Run(site, false, actions) == State(Some(Secret(Some(home), 1)), 1, {home}, {}, [Done], false)
  {
    var go := Move(0, true, true);
    actions := Play(site, home, [], Start(site, false), Arrive(create));
    actions := Play(site, home, actions, State(None, 0, {}, {}, [create], false), go);
    actions := Play(site, home, actions, State(None, 0, {}, {}, [Listing(home, false, 0)], false), go);
    actions := Play(site, home, actions, State(Some(Secret(Some(home), 1)), 1, {}, {}, [Registering(home)], false), go);
  }

  /** An instance is created, and a second create for it is about to register it. */
  lemma {:induction false} CreatedTwice(site: Site, home: string, create: Thread) returns (actions: seq<Action>)
    requires create.Creating? && RegistryNamespace(site.decode, create.binding, create.context, site.broker) == Ok(home)
    ensures forall i | 0 <= i < |actions| :: OneHome(site, home, actions[i])
    ensures Run(site, false, actions)
        == State(Some(Secret(Some(home), 2)), 2, {home}, {}, [Done, Registering(home)], false)
  {
    var go, listed := Move(1, true, true), Some(Secret(Some(home), 1));
    actions := CreatedOnce(site, home, create);
    actions := Play(site, home, actions, State(listed, 1, {home}, {}, [Done], false), Arrive(create));
    actions := Play(site, home, actions, State(listed, 1, {home}, {}, [Done, create], false), go);
    actions := Play(site, home, actions, State(listed, 1, {home}, {}, [Done, Listing(home, true, 1)], false), go);
  }

  /**
   A create crossing a delete can leave the instance unlisted, though every delete was accepted: a second create lists
   it, the delete takes it off the list and runs to its end, and only then the create registers it anew.
  */
  lemma {:induction false} CrossingMisleads(site: Site, home: string, create: Thread) returns (actions: seq<Action>)
    requires create.Creating? && RegistryNamespace(site.decode, create.binding, create.context, site.broker) == Ok(home)
    requires home != site.broker
    ensures forall i | 0 <= i < |actions| :: OneHome(site, home, actions[i])
    ensures var s := Run(site, false, actions);
            && (forall t | 0 <= t < |s.threads| :: s.threads[t] == Done) && !s.refused
            && home in s.homes && home !in s.leaving && Listed(s, site.broker) == site.broker
  {
    actions := CreatedTwice(site, home, create);
    var go, other, listed := Move(2, true, true), Registering(home), Some(Secret(Some(home), 2));
    actions := Play(site, home, actions, State(listed, 2, {home}, {}, [Done, other], false), Arrive(Looking(true)));
    actions := Play(site, home, actions, State(listed, 2, {home}, {}, [Done, other, Looking(true)], false), go);
    actions := Play(site, home, actions, State(listed, 2, {home}, {}, [Done, other, Delisting(home)], false), go);
    actions := Play(site, home, actions, State(listed, 2, {home}, {}, [Done, other, Removing(home, 2)], false), go);
    listed := Some(Secret(None, 3));
    actions := Play(site, home, actions, State(listed, 3, {home}, {}, [Done, other, Deciding(home)], false), go);
    actions := Play(site, home, actions, State(listed, 3, {home}, {home}, [Done, other, Deprovisioning(home)], false),
        go);
    actions := Play(site, home, actions, State(listed, 3, {}, {}, [Done, other, Done], false), Move(1, true, true));
    assert Run(site, false, actions) == State(listed, 3, {home}, {}, [Done, Done, Done], false);
  }

  /** A thread changes the directory only over the version it fetched, or creates it if it found none. */
  lemma {:induction false} StaleCopiesDoNotLand(site: Site, s: State, a: Action)
    requires Step(site, s, a).directory != s.directory && !a.OtherInstances?
    ensures a.Move? && a.thread < |s.threads|
    ensures match s.threads[a.thread]
            case Listing(_, listed, version) =>
              if listed then s.directory.Some? && s.directory.value.version == version else s.directory.None?
            case Removing(_, version) => s.directory.Some? && s.directory.value.version == version
            case _ => false
  {
  }

  /** The action may list the instance. */
  predicate Lists(s: State, a: Action) {
    a.Move? && a.thread < |s.threads| && s.threads[a.thread].Listing?
  }

  /** The action takes the instance off the list. */
  predicate Delists(s: State, a: Action) {
    && a.Move? && a.up && a.thread < |s.threads| && s.threads[a.thread].Removing?
    && s.directory.Some? && s.directory.value.version == s.threads[a.thread].version
  }

  lemma {:induction false} StaysUnlisted(site: Site, s: State, a: Action)
    requires (IsUnlisted(s) && !Lists(s, a)) || Delists(s, a)
    ensures IsUnlisted(Step(site, s, a))
  {
  }

  lemma {:induction false} UnlistedSince(site: Site, legacy: bool, actions: seq<Action>, r: nat)
    requires r < |actions| && Delists(Run(site, legacy, actions[..r]), actions[r])
    requires forall m | r < m < |actions| :: !Lists(Run(site, legacy, actions[..m]), actions[m])
    ensures IsUnlisted(Run(site, legacy, actions))
    decreases |actions|
  {
    var last := |actions| - 1;
    var before := actions[..last];
    if r < last {
      assert before[..r] == actions[..r];
      forall m | r < m < last ensures !Lists(Run(site, legacy, before[..m]), before[m]) {
        assert before[..m] == actions[..m];
      }
      UnlistedSince(site, legacy, before, r);
    }
    StaysUnlisted(site, Run(site, legacy, before), actions[last]);
  }

  /**
   From the moment a delete takes an instance off the directory until a create lists it again, whatever else happens
   and whether the delete is accepted, refused or crashes: the instance, if it is still or again stored, is looked for
   where it is exactly if that is the broker's namespace.
  */
  lemma {:induction false} UnlistedUntilListed(site: Site, legacy: bool, actions: seq<Action>, r: nat)
    requires r < |actions| && Delists(Run(site, legacy, actions[..r]), actions[r])
    requires forall m | r < m < |actions| :: !Lists(Run(site, legacy, actions[..m]), actions[m])
    ensures var s := Run(site, legacy, actions);
            IsUnlisted(s) && forall n | n in s.homes :: Listed(s, site.broker) == n <==> n == site.broker
  {
    UnlistedSince(site, legacy, actions, r);
  }

  /** A delete request, carried through to its decision with the API up all the time. */
  function AfterDelete(site: Site, s: State, accepts: bool): State {
    var t := |s.threads|;
    var looked := Step(site, Step(site, s, Arrive(Looking(true))), Move(t, true, accepts));
    Step(site, Step(site, Step(site, looked, Move(t, true, accepts)), Move(t, true, accepts)), Move(t, true, accepts))
  }

  /**
   A delete that nothing interferes with takes a listed instance off the directory before it decides. Whether it is
   then refused or accepted, the entry is still stored afterwards, and it is looked for where it is exactly if that
   is the broker's namespace.
  */
  lemma {:induction false} DeleteDelistsFirst(site: Site, s: State, home: string, accepts: bool)
    requires IsListed(home, s) && home in s.homes && home !in s.leaving
    ensures var after := AfterDelete(site, s, accepts);
            && home in after.homes && (home in after.leaving <==> accepts) && !IsListed(home, after)
            && (Listed(after, site.broker) == home <==> home == site.broker)
  {
    var t := |s.threads|;
    var arrived := Step(site, s, Arrive(Looking(true)));
    assert arrived.threads[t] == Looking(true);
    var looked := Step(site, arrived, Move(t, true, accepts));
    assert looked.threads[t] == Delisting(home);
    var removing := Step(site, looked, Move(t, true, accepts));
    assert removing.threads[t] == Removing(home, s.directory.value.version);
    var deciding := Step(site, removing, Move(t, true, accepts));
    assert deciding.threads[t] == Deciding(home) && deciding.homes == s.homes && deciding.leaving == s.leaving;
  }
}
