/**
 The concurrent broker, for one service instance: any number of create, update, delete and poll handlers and
 of the goroutines they leave behind, interleaved step by step. Every one works on its own copy of the
 registry entry, which may be stale, and reaches the stored one only by committing that copy.
*/
module Protocol {
  import opened Json
  import opened Registry
  import opened Operation
  import opened Decisions
  import opened Lifecycle

  /** Where the instance's entry lives, the namespace the broker runs in, and the JSON decoder. */
  datatype Site = Site(ref: Ref, instanceId: string, brokerNamespace: string, decode: string -> Json)

  /** A local copy of the entry: what was fetched or last committed, its version, and the edited data. */
  datatype Copy = Copy(base: Data, version: nat, data: Data)

  datatype Thread =
    | Creating(req: CreateRequest)
    | Registering(req: CreateRequest, namespace: string, data: Data)
    | Preparing(req: CreateRequest, namespace: string, copy: Copy)
    | Updating(parameters: Option<Raw>)
    | Merging(parameters: Option<Raw>, copy: Copy)
    | Deleting(wanted: DeleteRequest)
    | Checking(wanted: DeleteRequest, copy: Copy)
    | Starting(change: Change, id: string, copy: Copy)
    | Polling(query: PollRequest)
    | Ending(id: string, text: string, copy: Copy)
    | Working(kind: Kind, id: string, copy: Copy)
    | Completing(kind: Kind, id: string, result: Option<string>, copy: Copy)
    | Deprovisioning(id: string, copy: Copy)
    | Done

  /** `issued` holds the operation ids drawn so far; `log` is history. */
  datatype State = State(server: Server, threads: seq<Thread>, issued: set<string>, log: seq<Event>)

  /** What the environment decides in a step: whether the API call gets through, whether checks and rendering
      pass, the registry values rendered, a fresh id, and the outcome of a run. */
  datatype Choice = Choice(up: bool, valid: bool, values: seq<(Key, Json)>, id: string, result: Option<string>)

  datatype Action =
    | Arrive(request: Thread)
    | Move(thread: nat, choice: Choice)
    | Crash(thread: nat)
    | Others(secrets: map<Ref, Secret>, ticks: nat)

  predicate IsRequest(t: Thread) {
    t.Creating? || t.Updating? || t.Deleting? || t.Polling?
  }

  // ---- Steps ----

  function Fetched(s: Server, ref: Ref): Copy
    requires ref in s.secrets
  {
    Copy(s.secrets[ref].data, s.secrets[ref].version, s.secrets[ref].data)
  }

  function Become(s: State, t: nat, thread: Thread): State
    requires t < |s.threads|
  {
    s.(threads := s.threads[t := thread])
  }

  function Log(s: State, e: Event): State {
    s.(log := s.log + [e])
  }

  /** A commit of thread `t`, which then becomes `thread`; the event is what it means to the instance. */
  function Write(s: State, t: nat, thread: Thread, server: Server, e: Event): State
    requires t < |s.threads|
  {
    Log(Become(s, t, thread), e).(server := server)
  }

  /** operation.Start up to its commit: refuse if the copy records an operation, else record a new one. */
  function Begin(s: State, t: nat, copy: Copy, change: Change, choice: Choice): State
    requires t < |s.threads|
  {
    if GetString(copy.data, OperationType) != Ok(None) then Become(s, t, Done)
    else if choice.id in s.issued then s
    else
      Become(s, t, Starting(change, choice.id, copy.(data := StartedData(copy.data, KindOf(change), choice.id))))
        .(issued := s.issued + {choice.id})
  }

  function CreateStep(site: Site, s: State, t: nat, c: Choice): State
    requires t < |s.threads| && (s.threads[t].Creating? || s.threads[t].Registering? || s.threads[t].Preparing?)
  {
    match s.threads[t]
    case Creating(req) =>
      if !c.up then Become(s, t, Done)
      else if site.ref in s.server.secrets then
        Log(Become(s, t, Done), Replied(req, ReplyToCreate(s.server.secrets[site.ref].data, req)))
      else
        (match GetNamespace(site.decode, req.context, site.brokerNamespace)
         case Err(_) => Become(s, t, Done)
         case Ok(ns) => Become(s, t, Registering(req, ns, InitialData(site.instanceId, ns, req))))
    case Registering(req, ns, data) =>
      if !c.up || !CanCreate(s.server, site.ref) then Become(s, t, Done)
      else
        var server := AfterCreate(s.server, site.ref, data);
        Write(s, t, Preparing(req, ns, Fetched(server, site.ref)), server, Created(req, ns))
    case Preparing(req, ns, copy) =>
      (match Prepared(copy.data, c.values)
       case Ok(data) =>
         if !c.valid then Become(s, t, Done)
         else Begin(s, t, copy.(data := data), ProvisionWith(Written(c.values)), c)
       case Err(_) => Become(s, t, Done))
  }

  function UpdateStep(site: Site, s: State, t: nat, c: Choice): State
    requires t < |s.threads| && (s.threads[t].Updating? || s.threads[t].Merging?)
  {
    match s.threads[t]
    case Updating(parameters) =>
      if !c.up || site.ref !in s.server.secrets then Become(s, t, Done)
      else Become(s, t, Merging(parameters, Fetched(s.server, site.ref)))
    case Merging(parameters, copy) =>
      if !c.valid then Become(s, t, Done)
      else Begin(s, t, copy.(data := copy.data[Parameters := Stored(parameters)]), UpdateTo(Stored(parameters)), c)
  }

  function DeleteStep(site: Site, s: State, t: nat, c: Choice): State
    requires t < |s.threads| && (s.threads[t].Deleting? || s.threads[t].Checking? || s.threads[t].Deprovisioning?)
  {
    match s.threads[t]
    case Deleting(wanted) =>
      if !c.up || site.ref !in s.server.secrets then Become(s, t, Done)
      else Become(s, t, Checking(wanted, Fetched(s.server, site.ref)))
    case Checking(wanted, copy) =>
      if !DeleteMatches(copy.data, wanted) then Become(s, t, Done)
      else Begin(s, t, copy, Remove, c)
    case Deprovisioning(id, _) =>
      if !c.up || site.ref !in s.server.secrets then Become(s, t, Done)
      else Write(s, t, Done, AfterDelete(s.server, site.ref), Removed(id))
  }

  /** The goroutine that an accepted operation leaves behind, sharing the entry that was just committed. */
  function Worker(change: Change, id: string, copy: Copy): Thread {
    if change.Remove? then Deprovisioning(id, copy) else Working(KindOf(change), id, copy)
  }

  function StartStep(site: Site, s: State, t: nat, c: Choice): State
    requires t < |s.threads| && s.threads[t].Starting?
  {
    var Starting(change, id, copy) := s.threads[t];
    if !c.up || !CanUpdate(s.server, site.ref, copy.version) then Become(s, t, Done)
    else
      var server := AfterUpdate(s.server, site.ref, copy.data);
      var after := Write(s, t, Done, server, Accepted(id, change));
      after.(threads := after.threads + [Worker(change, id, Fetched(server, site.ref))])
  }

  /** The goroutine's run returns, operation.Complete edits the copy, then commits it. */
  function WorkStep(site: Site, s: State, t: nat, c: Choice): State
    requires t < |s.threads| && (s.threads[t].Working? || s.threads[t].Completing?)
  {
    match s.threads[t]
    case Working(kind, id, copy) =>
      var op := GetString(copy.data, OperationType);
      if op.Err? || op.value.None? then Become(s, t, Done)
      else Become(s, t, Completing(kind, id, c.result, copy.(data := CompletedData(copy.data, c.result))))
    case Completing(_, id, result, copy) =>
      if !c.up || !CanUpdate(s.server, site.ref, copy.version) then Become(s, t, Done)
      else Write(s, t, Done, AfterUpdate(s.server, site.ref, copy.data), Completed(id, result))
  }

  function PollStep(site: Site, s: State, t: nat, c: Choice): State
    requires t < |s.threads| && (s.threads[t].Polling? || s.threads[t].Ending?)
  {
    match s.threads[t]
    case Polling(query) =>
      if !c.up then Become(s, t, Done)
      else if site.ref !in s.server.secrets then Log(Become(s, t, Done), Gone)
      else
        var copy := Fetched(s.server, site.ref);
        (match PollVerdict(copy.data, query)
         case Refused => Become(s, t, Done)
         case Unreadable => Become(s, t, Done)
         case StillRunning =>
           if Complaints(copy.data, query) > 0 then Become(s, t, Done)
           else Log(Become(s, t, Done), Running(query.operation.value))
         case Terminal(id, text) =>
           var op := GetString(copy.data, OperationType);
           if op.Err? || op.value.None? then Become(s, t, Done)
           else Become(s, t, Ending(id, text, copy.(data := EndedData(copy.data)))))
    case Ending(id, text, copy) =>
      if !c.up || !CanUpdate(s.server, site.ref, copy.version) then Become(s, t, Done)
      else Write(s, t, Done, AfterUpdate(s.server, site.ref, copy.data), Ended(id, text))
  }

  function MoveStep(site: Site, s: State, t: nat, c: Choice): State
    requires t < |s.threads|
  {
    match s.threads[t]
    case Creating(_) => CreateStep(site, s, t, c)
    case Registering(_, _, _) => CreateStep(site, s, t, c)
    case Preparing(_, _, _) => CreateStep(site, s, t, c)
    case Updating(_) => UpdateStep(site, s, t, c)
    case Merging(_, _) => UpdateStep(site, s, t, c)
    case Deleting(_) => DeleteStep(site, s, t, c)
    case Checking(_, _) => DeleteStep(site, s, t, c)
    case Deprovisioning(_, _) => DeleteStep(site, s, t, c)
    case Starting(_, _, _) => StartStep(site, s, t, c)
    case Working(_, _, _) => WorkStep(site, s, t, c)
    case Completing(_, _, _, _) => WorkStep(site, s, t, c)
    case Polling(_) => PollStep(site, s, t, c)
    case Ending(_, _, _) => PollStep(site, s, t, c)
    case Done => s
  }

  function Step(site: Site, s: State, a: Action): State {
    match a
    case Arrive(request) => if IsRequest(request) then s.(threads := s.threads + [request]) else s
    case Move(t, c) => if t < |s.threads| then MoveStep(site, s, t, c) else s
    case Crash(t) => if t < |s.threads| then Become(s, t, Done) else s
    case Others(secrets, ticks) =>
      s.(server := Server(
        if site.ref in s.server.secrets then secrets[site.ref := s.server.secrets[site.ref]] else secrets - {site.ref},
        s.server.clock + ticks))
  }

  const START: State := State(Server(map[], 0), [], {}, [])

  /** Every run: any sequence of actions from the start; an action that is not possible changes nothing. */
  function Run(site: Site, actions: seq<Action>): State
    decreases |actions|
  {
    if actions == [] then START
    else Step(site, Run(site, actions[..|actions| - 1]), actions[|actions| - 1])
  }
}
