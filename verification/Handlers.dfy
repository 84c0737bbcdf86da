/**
 The service instance handlers, as they run: each fetches the entry, edits it locally, commits it and leaves
 the rest to a goroutine that shares the entry. `Protocol` interleaves the same steps.
*/
module Handlers {
  import opened Json
  import opened Registry
  import opened Operation
  import opened Decisions
  import Config
  import Spelling

  datatype Response =
    | AcceptedOperation(id: string, dashboard: Option<string>)
    | AlreadyThere(dashboard: Option<string>)
    | Conflict
    | BadRequest
    | Missing
    | GoneForGood
    | StillInProgress
    | Ended(state: PollState)
    | ServerError

  function InstanceRef(namespace: string, instanceId: string): Ref {
    Ref(namespace, Name(ServiceInstance, instanceId))
  }

  function Answer(reply: CreateReply): Response {
    match reply
    case Ready(dashboard) => AlreadyThere(dashboard)
    case InProgress(id, dashboard) => AcceptedOperation(id, dashboard)
    case Conflicting => Response.Conflict
    case Broken => ServerError
  }

  /** Sets the registry values the templates rendered, one by one, until a reserved key stops it. */
  method PrepareRegistry(entry: Entry, values: seq<(Key, Json)>) returns (ok: bool)
    modifies entry.secret
    ensures ok <==> forall i | 0 <= i < |values| :: values[i].1 == JNull || !Reserved(values[i].0)
    ensures ok ==> Overlaid(values, old(entry.secret.data), entry.secret.data)
    ensures ok ==> old(Prepared(entry.secret.data, values)) == Ok(entry.secret.data)
    ensures ok ==> entry.Held() == old(entry.Held()).(data := entry.secret.data)
  {
    var was := entry.secret.data;
    for n := 0 to |values|
      invariant entry.secret == old(entry.secret)
      invariant Prepared(was, values[..n]) == Ok(entry.secret.data)
      invariant entry.Held() == old(entry.Held()).(data := entry.secret.data)
    {
      assert values[..n + 1][..n] == values[..n];
      var (key, value) := values[n];
      if value != JNull {
        var failure := entry.SetUser(key, value);
        if failure.Some? {
          PreparedUnlessReserved(was, values);
          KeyAccess(key);
          return false;
        }
      }
    }
    assert values[..|values|] == values;
    PreparedUnlessReserved(was, values);
    PreparedIsOverlaid(was, values);
    ok := true;
  }

  /** The goroutine's last act: record the outcome of its run. It may have happened by now, or not yet. */
  method InBackground(entry: Entry, api: ApiServer, result: Option<string>)
    requires GetString(entry.secret.data, OperationType).Ok? && GetString(entry.secret.data, OperationType).value.Some?
    modifies entry, entry.secret, api
    ensures api.state == old(api.state) ||
            (&& api.state.clock > old(api.state.clock)
             && old(CanUpdate(api.state, entry.secret.ref, entry.secret.version) || !entry.exists_)
             && api.state.secrets.Keys == old(api.state.secrets.Keys) + {old(entry.secret.ref)}
             && (forall r | r in old(api.state.secrets) && r != old(entry.secret.ref) ::
                 api.state.secrets[r] == old(api.state.secrets[r]))
             && api.state.secrets[old(entry.secret.ref)].data == old(CompletedData(entry.secret.data, result)))
  {
    var scheduled: bool := *;
    if scheduled {
      var _ := Complete(entry, api, result);
    }
  }

  /** What a new entry is first committed as; its context may be malformed. */
  function Registered(decode: string -> Json, before: Server, ref: Ref, brokerNamespace: string, instanceId: string,
          req: CreateRequest): Result<Server>
  {
    match GetNamespace(decode, req.context, brokerNamespace)
    case Err(e) => Err(e)
    case Ok(ns) => Ok(AfterCreate(before, ref, InitialData(instanceId, ns, req)))
  }

  /** What the request brought along is stored: its namespace or the broker's own, its identifiers and its texts. */
  predicate Requested(decode: string -> Json, d: Data, brokerNamespace: string, instanceId: string,
          req: CreateRequest)
  {
    && Namespace in d && d[Namespace].JString?
    && NamespaceTaken(decode, req.context, brokerNamespace, d[Namespace].s)
    && InstanceID in d && d[InstanceID] == JString(instanceId)
    && ServiceID in d && d[ServiceID] == JString(req.service)
    && PlanID in d && d[PlanID] == JString(req.plan)
    && Context in d && d[Context] == (if req.context.Some? then JString(Spelling.Compact(req.context.value)) else JNull)
    && Parameters in d
    && d[Parameters] == (if req.parameters.Some? then JString(Spelling.Compact(req.parameters.value)) else JNull)
  }

  lemma {:induction false} InitialIsRequested(decode: string -> Json, brokerNamespace: string, instanceId: string,
          namespace: string, req: CreateRequest)
    requires NamespaceTaken(decode, req.context, brokerNamespace, namespace)
    ensures var d := InitialData(instanceId, namespace, req);
            && Requested(decode, d, brokerNamespace, instanceId, req)
            && d.Keys == {Namespace, InstanceID, ServiceID, PlanID, Context, Parameters}
  {
  }

  /** The first half of a create: record the request. */
  method Register(api: ApiServer, entry: Entry, decode: string -> Json, brokerNamespace: string, instanceId: string,
          req: CreateRequest) returns (ok: bool)
    requires !entry.exists_ && !entry.readOnly && entry.secret.data == map[]
    modifies entry, entry.secret, api
    ensures entry.secret == old(entry.secret) || fresh(entry.secret)
    ensures !ok ==> api.state == old(api.state)
    ensures NamesNoString(decode, req.context) ==> !ok
    ensures api.reliable && !NamesNoString(decode, req.context) && old(entry.secret.ref !in api.state.secrets) ==> ok
    ensures ok ==> Requested(decode, entry.secret.data, brokerNamespace, instanceId, req)
    ensures ok ==> entry.secret.data.Keys == {Namespace, InstanceID, ServiceID, PlanID, Context, Parameters}
    ensures ok ==>
              var s := Registered(decode, old(api.state), old(entry.secret.ref), brokerNamespace, instanceId, req);
              && s == Ok(api.state) && old(CanCreate(api.state, entry.secret.ref))
              && entry.secret.ref == old(entry.secret.ref) && entry.exists_ && !entry.readOnly
              && entry.secret.data == api.state.secrets[entry.secret.ref].data
              && entry.secret.version == api.state.secrets[entry.secret.ref].version
  {
    var ns := GetNamespace(decode, req.context, brokerNamespace);
    NamespaceIsTaken(decode, req.context, brokerNamespace, if ns.Ok? then ns.value else "");
    if ns.Err? { return false; }
    entry.Set(Namespace, JString(ns.value));
    entry.Set(InstanceID, JString(instanceId));
    entry.Set(ServiceID, JString(req.service));
    entry.Set(PlanID, JString(req.plan));
    entry.Set(Context, Stored(req.context));
    entry.Set(Parameters, Stored(req.parameters));
    assert entry.secret.data == InitialData(instanceId, ns.value, req);
    InitialIsRequested(decode, brokerNamespace, instanceId, ns.value, req);
    var failure := entry.Commit(api);
    ok := failure.None?;
  }

  /** The store once an operation is accepted: its entry as started, or as its goroutine has completed it by now. */
  predicate Launched(before: Server, after: Server, ref: Ref, data: Data, kind: Kind, id: string,
          result: Option<string>)
  {
    var started := StartedData(data, kind, id);
    && ref in before.secrets && after.secrets.Keys == before.secrets.Keys && before.clock < after.clock
    && (forall r | r in before.secrets && r != ref :: after.secrets[r] == before.secrets[r])
    && (after.secrets[ref].data == started || after.secrets[ref].data == CompletedData(started, result))
  }

  /**
   Starts an operation on the entry's edited copy and launches its goroutine. The answer is read from a frozen
   clone: whatever the goroutine has done to the entry meanwhile, it names the operation just started.
  */
  method Launch(api: ApiServer, entry: Entry, kind: Kind, id: string, result: Option<string>)
    returns (frozen: Option<Entry>)
    modifies entry, entry.secret, api
    ensures frozen.None? ==> api.state == old(api.state)
    ensures (&& api.reliable
             && old(entry.exists_ && !entry.readOnly && CanUpdate(api.state, entry.secret.ref, entry.secret.version))
             && OperationType !in old(entry.secret.data)) ==> frozen.Some?
    ensures frozen.Some? ==>
              && OperationType !in old(entry.secret.data)
              && frozen.value.secret.data == StartedData(old(entry.secret.data), kind, id)
    ensures frozen.Some? && old(entry.exists_) ==>
              && old(CanUpdate(api.state, entry.secret.ref, entry.secret.version))
              && Launched(old(api.state), api.state, old(entry.secret.ref), old(entry.secret.data), kind, id, result)
  {
    var failure := Start(entry, api, kind, id);
    if failure.Some? { return None; }
    var clone := entry.Clone();
    InBackground(entry, api, result);
    return Some(clone);
  }

  /** No value is meant for a reserved key. */
  predicate Writables(values: seq<(Key, Json)>) {
    forall i | 0 <= i < |values| :: values[i].1 == JNull || !Reserved(values[i].0)
  }

  /** The dashboard address that templates computed last, if they computed one that is not null. */
  ghost predicate DashboardComputed(values: seq<(Key, Json)>, dashboard: Option<string>) {
    match dashboard
    case None => NoneFor(values, DashboardURL)
    case Some(address) => exists i :: LastFor(values, DashboardURL, i) && values[i].1 == JString(address)
  }

  /** The computed values are all stored, under each key the last one. */
  ghost predicate Computed(values: seq<(Key, Json)>, d: Data) {
    forall key, i | LastFor(values, key, i) :: key in d && d[key] == values[i].1
  }

  /** Launching stores the computed values, and leaves what they were laid over under the reserved keys. */
  lemma {:induction false} LaunchStores(before: Server, after: Server, ref: Ref, base: Data, values: seq<(Key, Json)>,
          kind: Kind, id: string, result: Option<string>)
    requires Writables(values) && Launched(before, after, ref, base + Written(values), kind, id, result)
    ensures Computed(values, after.secrets[ref].data)
    ensures forall key | key in {Namespace, InstanceID, ServiceID, PlanID, Context, Parameters} && key in base ::
              key in after.secrets[ref].data && after.secrets[ref].data[key] == base[key]
  {
    var d := after.secrets[ref].data;
    PreparedUnlessReserved(map[], values);
    PreparedOverlays(map[], values);
    forall key, i | LastFor(values, key, i) ensures key in d && d[key] == values[i].1 {
      WrittenAt(values, key);
      assert !Reserved(key);
    }
  }

  /** The dashboard address answered is the one computed last, and only strings will do. */
  lemma {:induction false} DashboardAnswered(base: Data, values: seq<(Key, Json)>)
    requires Writables(values) && DashboardURL !in base
    ensures var dashboard := GetString(base + Written(values), DashboardURL);
            if dashboard.Ok? then
              && DashboardComputed(values, dashboard.value)
              && forall i | LastFor(values, DashboardURL, i) :: values[i].1.JString?
            else exists i :: LastFor(values, DashboardURL, i) && !values[i].1.JString?
  {
    PreparedUnlessReserved(map[], values);
    WrittenAt(values, DashboardURL);
    var i := LastOrNone(values, DashboardURL);
    if LastFor(values, DashboardURL, i) {
      assert GetString(base + Written(values), DashboardURL).Ok? <==> values[i].1.JString?;
      forall j | LastFor(values, DashboardURL, j) ensures j == i {
        assert j < i ==> !LastFor(values, DashboardURL, j);
        assert i < j ==> !LastFor(values, DashboardURL, i);
      }
    } else {
      assert DashboardURL !in base + Written(values);
    }
  }

  /**
   How provisioning an entry with `data` ends: with the operation launched, which is answered with its id exactly if
   the computed dashboard address is a string or missing, and with an error if it is anything else; or with nothing
   done.
  */
  predicate Provisioned(before: Server, after: Server, ref: Ref, data: Data, kind: Kind, id: string,
          result: Option<string>, response: Response)
  {
    var dashboard := GetString(data, DashboardURL);
    if after == before then response in {BadRequest, ServerError}
    else
      && Launched(before, after, ref, data, kind, id, result)
      && response == if dashboard.Ok? then AcceptedOperation(id, dashboard.value) else ServerError
  }

  /** The second half of a create: compute the registry values, start the operation, answer with it. */
  method Provision(api: ApiServer, entry: Entry, values: seq<(Key, Json)>, renders: bool, id: string,
          result: Option<string>)
    returns (response: Response)
    requires entry.exists_ && !entry.readOnly
    modifies entry, entry.secret, api
    ensures Provisioned(old(api.state), api.state, old(entry.secret.ref), old(entry.secret.data) + Written(values),
                        Kind.Provision, id, result, response)
    ensures api.state != old(api.state) ==>
              && Writables(values) && renders
              && Computed(values, api.state.secrets[old(entry.secret.ref)].data)
    ensures api.state != old(api.state) && DashboardURL !in old(entry.secret.data) ==>
              if response.AcceptedOperation? then DashboardComputed(values, response.dashboard)
              else exists i :: LastFor(values, DashboardURL, i) && !values[i].1.JString?
    ensures (&& api.reliable && old(CanUpdate(api.state, entry.secret.ref, entry.secret.version))
             && OperationType !in old(entry.secret.data) && Writables(values) && renders) ==>
              api.state != old(api.state)
  {
    ghost var was, ref, before := entry.secret.data, entry.secret.ref, api.state;
    var prepared := PrepareRegistry(entry, values);
    if !prepared || !renders { return BadRequest; }
    PreparedUnlessReserved(was, values);
    PreparedOverlays(was, values);
    assert entry.secret.data == was + Written(values);
    var frozen := Launch(api, entry, Kind.Provision, id, result);
    if frozen.None? { return ServerError; }
    assert frozen.value.secret.data == StartedData(was + Written(values), Kind.Provision, id);
    LaunchStores(before, api.state, ref, was, values, Kind.Provision, id, result);
    var operation := GetString(frozen.value.secret.data, OperationID);
    var dashboard := GetString(frozen.value.secret.data, DashboardURL);
    if DashboardURL !in was {
      DashboardAnswered(was, values);
    }
    assert dashboard == GetString(was + Written(values), DashboardURL);
    if dashboard.Err? { return ServerError; }
    return AcceptedOperation(operation.value.value, dashboard.value);
  }

  /** What a create does not check against the store: the plan, the schema, the context and the templates. */
  predicate CreateAllowed(spec: Config.Spec, schemaHolds: bool, decode: string -> Json, req: CreateRequest) {
    && Config.ValidateServicePlan(spec, req.service, req.plan) && schemaHolds
    && !NamesNoString(decode, req.context)
  }

  /** A create for a known instance is answered by what is stored. */
  predicate RepeatAnswered(d: Data, req: CreateRequest, response: Response) {
    if FirstIs(Findings(d, req), Differs) then response == Response.Conflict
    else if FirstIs(Findings(d, req), Unusable) then response == ServerError
    else match response
      case AlreadyThere(dashboard) => AgreedReply(d, Ready(dashboard))
      case AcceptedOperation(id, dashboard) => AgreedReply(d, CreateReply.InProgress(id, dashboard))
      case Conflict => AgreedReply(d, Conflicting)
      case ServerError => AgreedReply(d, Broken)
      case _ => false
  }

  lemma {:induction false} AnswerToRepeat(d: Data, req: CreateRequest)
    ensures RepeatAnswered(d, req, Answer(ReplyToCreate(d, req)))
  {
    ReplyMeans(d, req);
  }

  /**
   A create for a known instance only answers from what is stored. For a new one the entry first appears as
   requested; the registry values follow in the very commit that records the operation, or not at all.
  */
  method HandleCreate(api: ApiServer, spec: Config.Spec, schemaHolds: bool, decode: string -> Json,
          brokerNamespace: string, namespace: string, instanceId: string, req: CreateRequest, values: seq<(Key, Json)>,
          renders: bool, id: string, result: Option<string>) returns (response: Response)
    modifies api
    ensures InstanceRef(namespace, instanceId) in old(api.state).secrets ==>
              && api.state == old(api.state)
              && (|| response in {BadRequest, ServerError}
                  || RepeatAnswered(old(api.state).secrets[InstanceRef(namespace, instanceId)].data, req, response))
    ensures api.reliable && Config.ValidateServicePlan(spec, req.service, req.plan) && schemaHolds ==>
              InstanceRef(namespace, instanceId) in old(api.state).secrets ==>
                RepeatAnswered(old(api.state).secrets[InstanceRef(namespace, instanceId)].data, req, response)
    ensures InstanceRef(namespace, instanceId) !in old(api.state).secrets && api.state == old(api.state) ==>
              response in {BadRequest, ServerError}
    ensures !CreateAllowed(spec, schemaHolds, decode, req) ==> api.state == old(api.state)
    ensures InstanceRef(namespace, instanceId) !in old(api.state).secrets && response.AcceptedOperation? ==>
              && response.id == id && DashboardComputed(values, response.dashboard)
              && InstanceRef(namespace, instanceId) in api.state.secrets
              && Computed(values, api.state.secrets[InstanceRef(namespace, instanceId)].data)
    ensures api.state != old(api.state) ==>
              && InstanceRef(namespace, instanceId) in api.state.secrets
              && Requested(decode, api.state.secrets[InstanceRef(namespace, instanceId)].data, brokerNamespace,
                           instanceId, req)
    ensures InstanceRef(namespace, instanceId) !in old(api.state).secrets && api.state != old(api.state) ==>
              var registered := Registered(decode, old(api.state), InstanceRef(namespace, instanceId),
                  brokerNamespace, instanceId, req);
              && registered.Ok?
              && Provisioned(registered.value, api.state, InstanceRef(namespace, instanceId),
                             registered.value.secrets[InstanceRef(namespace, instanceId)].data + Written(values),
                             Kind.Provision, id, result, response)
              && (api.state != registered.value ==> Writables(values) && renders)
    ensures (&& api.reliable && InstanceRef(namespace, instanceId) !in old(api.state).secrets
             && CreateAllowed(spec, schemaHolds, decode, req) && Writables(values) && renders) ==>
              && api.state != old(api.state)
              && Ok(api.state) != Registered(decode, old(api.state), InstanceRef(namespace, instanceId),
                  brokerNamespace, instanceId, req)
              && Computed(values, api.state.secrets[InstanceRef(namespace, instanceId)].data)
              && (response.AcceptedOperation? <==>
                    forall i | LastFor(values, DashboardURL, i) :: values[i].1.JString?)
  {
    if !Config.ValidateServicePlan(spec, req.service, req.plan) || !schemaHolds { return BadRequest; }
    var fetched := Entry.New(api, ServiceInstance, namespace, instanceId, false);
    if fetched.Err? { return ServerError; }
    var entry := fetched.value;
    if entry.exists_ {
      AnswerToRepeat(entry.secret.data, req);
      return Answer(ReplyToCreate(entry.secret.data, req));
    }
    var ok := Register(api, entry, decode, brokerNamespace, instanceId, req);
    if !ok { return ServerError; }
    assert DashboardURL !in entry.secret.data;
    ghost var registered, base := api.state, entry.secret.data;
    response := Provision(api, entry, values, renders, id, result);
    if api.state != registered {
      LaunchStores(registered, api.state, InstanceRef(namespace, instanceId), base, values, Kind.Provision, id, result);
    }
  }

  datatype UpdateRequest = UpdateRequest(service: string, plan: string, parameters: Option<Raw>)

  /** The checks an update passes before it touches anything; an empty plan means the instance's own. */
  predicate UpdateAllowed(spec: Config.Spec, d: Data, req: UpdateRequest) {
    var plan := GetString(d, PlanID);
    && plan.Ok? && plan.value.Some?
    && var newPlan := if req.plan != "" then req.plan else plan.value.value;
    && Config.ValidateServicePlan(spec, req.service, newPlan)
    && Config.PlanUpdatable(spec, req.service, plan.value.value, newPlan)
  }

  /**
   The service of the request is never compared with the instance's: an update is allowed exactly if the service it
   names, whichever that is, offers the plan asked for, and lets plans change if that is another one than the
   instance's.
  */
  lemma {:induction false} AnyServiceWillDo(spec: Config.Spec, d: Data, req: UpdateRequest, service: Json)
    requires GetString(d, PlanID).Ok? && GetString(d, PlanID).value.Some?
    ensures UpdateAllowed(spec, d, req) <==> UpdateAllowed(spec, d[ServiceID := service], req)
    ensures var plan := GetString(d, PlanID).value.value;
            UpdateAllowed(spec, d, req) <==>
              var offering := Config.GetServiceOffering(spec.services, req.service);
              && offering.Some?
              && Config.FindPlan(offering.value.plans, if req.plan != "" then req.plan else plan).Some?
              && (offering.value.planUpdatable || req.plan in {"", plan})
  {
    assert GetString(d[ServiceID := service], PlanID) == GetString(d, PlanID);
  }

  /**
   A rejected update leaves the stored entry as it was; an accepted one brings parameters and operation in one
   commit.
  */
  method HandleUpdate(api: ApiServer, spec: Config.Spec, schemaHolds: bool, namespace: string, instanceId: string,
                      req: UpdateRequest, merges: bool, id: string, result: Option<string>) returns (response: Response)
    modifies api
    ensures !response.AcceptedOperation? ==> api.state == old(api.state)
    ensures InstanceRef(namespace, instanceId) !in old(api.state).secrets ==> response in {Missing, ServerError}
    ensures api.reliable && InstanceRef(namespace, instanceId) in old(api.state).secrets ==>
              var d := old(api.state).secrets[InstanceRef(namespace, instanceId)].data;
              PlanID in d && HasText(d, PlanID) && (!UpdateAllowed(spec, d, req) || !schemaHolds || !merges) ==>
                response == BadRequest
    ensures (&& api.reliable && InstanceRef(namespace, instanceId) in old(api.state).secrets
             && UpdateAllowed(spec, old(api.state).secrets[InstanceRef(namespace, instanceId)].data, req)
             && schemaHolds && merges
             && OperationType !in old(api.state).secrets[InstanceRef(namespace, instanceId)].data) ==>
              response.AcceptedOperation?
    ensures response.AcceptedOperation? ==>
              var ref := InstanceRef(namespace, instanceId);
              && response.id == id
              && ref in old(api.state).secrets
              && UpdateAllowed(spec, old(api.state).secrets[ref].data, req)
              && OperationType !in old(api.state).secrets[ref].data
              && Launched(old(api.state), api.state, ref,
                  old(api.state).secrets[ref].data[Parameters := Stored(req.parameters)],
                          Kind.Update, id, result)
  {
    var fetched := Entry.New(api, ServiceInstance, namespace, instanceId, false);
    if fetched.Err? { return ServerError; }
    var entry := fetched.value;
    if !entry.exists_ { return Missing; }
    var plan := GetString(entry.secret.data, PlanID);
    if plan.Err? || plan.value.None? { return ServerError; }
    if !UpdateAllowed(spec, entry.secret.data, req) || !schemaHolds { return BadRequest; }
    entry.Set(Parameters, Stored(req.parameters));
    if !merges { return BadRequest; }
    var frozen := Launch(api, entry, Kind.Update, id, result);
    if frozen.None? { return ServerError; }
    var operation := GetString(frozen.value.secret.data, OperationID);
    return AcceptedOperation(operation.value.value, None);
  }

  /** A delete is accepted only for the instance's own service and plan, and only while no operation is recorded. */
  method HandleDelete(api: ApiServer, namespace: string, instanceId: string, req: DeleteRequest, id: string)
    returns (response: Response)
    modifies api
    ensures !response.AcceptedOperation? ==> api.state == old(api.state)
    ensures InstanceRef(namespace, instanceId) !in old(api.state).secrets ==> response in {GoneForGood, ServerError}
    ensures api.reliable && InstanceRef(namespace, instanceId) in old(api.state).secrets ==>
              var d := old(api.state).secrets[InstanceRef(namespace, instanceId)].data;
              if {ServiceID, PlanID} <= d.Keys && HasText(d, ServiceID) && HasText(d, PlanID)
              then response == BadRequest <==> !StoredFor(d, req.service, req.plan)
              else response == ServerError
    ensures (&& api.reliable && InstanceRef(namespace, instanceId) in old(api.state).secrets
             && StoredFor(old(api.state).secrets[InstanceRef(namespace, instanceId)].data, req.service, req.plan)
             && OperationType !in old(api.state).secrets[InstanceRef(namespace, instanceId)].data) ==>
              response.AcceptedOperation?
    ensures response.AcceptedOperation? ==>
              var ref := InstanceRef(namespace, instanceId);
              && response.id == id
              && ref in old(api.state).secrets
              && StoredFor(old(api.state).secrets[ref].data, req.service, req.plan)
              && OperationType !in old(api.state).secrets[ref].data
              && (var started := AfterUpdate(old(api.state), ref,
                                         StartedData(old(api.state).secrets[ref].data, Deprovision, id));
                  api.state == started || api.state == AfterDelete(started, ref))
  {
    var fetched := Entry.New(api, ServiceInstance, namespace, instanceId, false);
    if fetched.Err? { return ServerError; }
    var entry := fetched.value;
    if !entry.exists_ { return GoneForGood; }
    var service, plan := GetString(entry.secret.data, ServiceID), GetString(entry.secret.data, PlanID);
    if service.Err? || service.value.None? || plan.Err? || plan.value.None? { return ServerError; }
    DeleteMatchesStored(entry.secret.data, req);
    if service.value.value != req.service || plan.value.value != req.plan { return BadRequest; }
    var failure := Start(entry, api, Deprovision, id);
    if failure.Some? { return ServerError; }
    var scheduled: bool := *;
    if scheduled {
      var _ := entry.Delete(api);
    }
    var operation := GetString(entry.secret.data, OperationID);
    return AcceptedOperation(operation.value.value, None);
  }

  /**
   The last answer to a poll and what it means to the store, in terms of what is stored. Only ending an operation can
   go wrong.
  */
  ghost predicate PollAnswered(d: Data, query: PollRequest, ref: Ref, answer: Response, before: Server, after: Server,
          reliable: bool)
    requires ref in before.secrets
  {
    if !query.operation.Given? || query.service.Ambiguous? || query.plan.Ambiguous? then
      answer == BadRequest && after == before
    else if !HasText(d, ServiceID) || !HasText(d, PlanID) || !HasText(d, OperationID) then
      answer == ServerError && after == before
    else if !RightQuery(d, query) then answer == BadRequest && after == before
    else if OperationStatus !in d then answer == StillInProgress && after == before
    else if !HasText(d, OperationStatus) then answer == ServerError && after == before
    else
      var text := TextAt(d, OperationStatus);
      if answer == Ended(if text == "" then Succeeded else Failed(text)) then
        && OperationType in d && HasText(d, OperationType)
        && after == AfterUpdate(before, ref, d - {OperationType, OperationID, OperationStatus})
      else
        && answer == ServerError && after == before
        && (reliable ==> OperationType !in d || !HasText(d, OperationType))
  }

  /** Only complaints. */
  predicate Complained(responses: seq<Response>, n: nat) {
    |responses| == n && forall i | 0 <= i < n :: responses[i] == ServerError
  }

  /** The checks of a poll: complaints, and the verdict's answer unless it is terminal. */
  method CheckPoll(d: Data, query: PollRequest)
    returns (complaints: seq<Response>, answer: Option<Response>, text: string)
    ensures Complained(complaints, Complaints(d, query))
    ensures answer.None? <==> PollVerdict(d, query).Terminal?
    ensures answer.None? ==> PollVerdict(d, query).text == text
    ensures var posed := query.operation.Given? && !query.service.Ambiguous? && !query.plan.Ambiguous?;
            var right := posed && ReadableQuery(d) && RightQuery(d, query);
            && (answer == Some(BadRequest) <==> !posed || (ReadableQuery(d) && !right))
            && (answer == Some(StillInProgress) <==> right && OperationStatus !in d)
            && (answer == Some(ServerError) <==>
                  posed && (!ReadableQuery(d) || (right && !HasText(d, OperationStatus))))
            && (answer.None? <==> right && OperationStatus in d && HasText(d, OperationStatus))
            && (answer.None? ==> text == TextAt(d, OperationStatus))
  {
    complaints, text := [], "";
    if !WellPosed(query) { return [], Some(BadRequest), ""; }
    var service := GetString(d, ServiceID);
    if service.Err? { return [], Some(ServerError), ""; }
    if service.value.None? { complaints := complaints + [ServerError]; }
    var plan := GetString(d, PlanID);
    if plan.Err? { return complaints, Some(ServerError), ""; }
    if plan.value.None? { complaints := complaints + [ServerError]; }
    var id := GetString(d, OperationID);
    if id.Err? { return complaints, Some(ServerError), ""; }
    if id.value.None? { complaints := complaints + [ServerError]; }
    if query.service.Given? && query.service.value != Otherwise(service.value) {
      return complaints, Some(BadRequest), "";
    }
    if query.plan.Given? && query.plan.value != Otherwise(plan.value) { return complaints, Some(BadRequest), ""; }
    if query.operation.value != Otherwise(id.value) { return complaints, Some(BadRequest), ""; }
    var status := GetString(d, OperationStatus);
    if status.Err? { return complaints, Some(ServerError), ""; }
    if status.value.None? { return complaints, Some(StillInProgress), ""; }
    return complaints, None, status.value.value;
  }

  /**
   A poll changes the entry exactly when it reports the end of its operation, and then takes just that operation off
   it. Every complaint about a missing key is one more answer before the verdict's.
  */
  method HandlePoll(api: ApiServer, namespace: string, instanceId: string, query: PollRequest)
    returns (responses: seq<Response>)
    modifies api
    ensures InstanceRef(namespace, instanceId) !in old(api.state).secrets ==>
              api.state == old(api.state) && responses in {[GoneForGood], [ServerError]}
    ensures api.reliable && InstanceRef(namespace, instanceId) !in old(api.state).secrets ==> responses == [GoneForGood]
    ensures |responses| > 0
    ensures InstanceRef(namespace, instanceId) in old(api.state).secrets ==>
              var d := old(api.state).secrets[InstanceRef(namespace, instanceId)].data;
              var answer := responses[|responses| - 1];
              && (answer.StillInProgress? ==> RightQuery(d, query) && OperationStatus !in d)
              && (answer.Ended? ==>
                    && RightQuery(d, query) && OperationStatus in d && HasText(d, OperationStatus)
                    && answer.state == (if TextAt(d, OperationStatus) == "" then Succeeded
                                        else Failed(TextAt(d, OperationStatus))))
              && (answer.Ended? <==> api.state != old(api.state))
    ensures InstanceRef(namespace, instanceId) in old(api.state).secrets ==>
              var d := old(api.state).secrets[InstanceRef(namespace, instanceId)].data;
              || (responses == [ServerError] && api.state == old(api.state) && !api.reliable)
              || (&& |responses| > 0 && Complained(responses[..|responses| - 1], Complaints(d, query))
                  && PollAnswered(d, query, InstanceRef(namespace, instanceId), responses[|responses| - 1],
                                  old(api.state), api.state, api.reliable))
  {
    var fetched := Entry.New(api, ServiceInstance, namespace, instanceId, false);
    if fetched.Err? { return [ServerError]; }
    var entry := fetched.value;
    if !entry.exists_ { return [GoneForGood]; }
    var complaints, answer, text := CheckPoll(entry.secret.data, query);
    if answer.Some? { return complaints + [answer.value]; }
    ghost var d := entry.secret.data;
    assert EndedData(d) == d - {OperationType, OperationID, OperationStatus};
    var failure := End(entry, api);
    return complaints + [if failure.Some? then ServerError else Ended(TerminalState(text))];
  }
}
