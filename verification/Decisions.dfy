/** What the instance handlers decide from a request and the registry data they read. */
module Decisions {
  import opened Json
  import opened Registry
  import opened Operation
  import Spelling

  /** A raw JSON extension of a request body: the text of a value other than null, exactly as the client spelled it. */
  type Raw = s: string | s != "null" witness "{}"

  datatype CreateRequest = CreateRequest(service: string, plan: string, context: Option<Raw>, parameters: Option<Raw>)

  /** How an extension is stored: its text, as the encoder passes it on; an absent one as null. */
  function Stored(raw: Option<Raw>): Json {
    if raw.Some? then JString(Spelling.Compact(raw.value)) else JNull
  }

  /** Comparing the bytes of a request's extension with those read back from the registry. */
  predicate SameRaw(raw: Option<Raw>, stored: Json) {
    stored == if raw.Some? then JString(raw.value) else JNull
  }

  /** Where resources go: the context's namespace if it names one, else the broker's own. */
  function GetNamespace(decode: string -> Json, context: Option<Raw>, brokerNamespace: string): Result<string> {
    if context.None? then Ok(brokerNamespace)
    else match Get(decode(context.value), "namespace")
      case None => Ok(brokerNamespace)
      case Some(JString(n)) => Ok(n)
      case Some(_) => Err("request context namespace not a string")
  }

  /** What becomes of the namespace a context may name: a string is taken, nothing stands for the broker's own. */
  predicate NamespaceTaken(decode: string -> Json, context: Option<Raw>, brokerNamespace: string, namespace: string) {
    if context.Some? && Get(decode(context.value), "namespace").Some?
    then Get(decode(context.value), "namespace") == Some(JString(namespace))
    else namespace == brokerNamespace
  }

  /** The context has an attribute for the namespace that is no string. */
  predicate NamesNoString(decode: string -> Json, context: Option<Raw>) {
    && context.Some? && Get(decode(context.value), "namespace").Some?
    && !Get(decode(context.value), "namespace").value.JString?
  }

  lemma {:induction false} NamespaceIsTaken(decode: string -> Json, context: Option<Raw>, brokerNamespace: string,
          namespace: string)
    ensures GetNamespace(decode, context, brokerNamespace) == Ok(namespace) <==>
              NamespaceTaken(decode, context, brokerNamespace, namespace)
    ensures GetNamespace(decode, context, brokerNamespace).Err? <==> NamesNoString(decode, context)
  {
  }

  /** The values a new entry is first committed with. */
  function InitialData(instanceId: string, namespace: string, req: CreateRequest): Data {
    map[Namespace := JString(namespace),
        InstanceID := JString(instanceId),
        ServiceID := JString(req.service),
        PlanID := JString(req.plan),
        Context := Stored(req.context),
        Parameters := Stored(req.parameters)]
  }

  datatype CreateReply =
    | Ready(dashboard: Option<string>)
    | InProgress(id: string, dashboard: Option<string>)
    | Conflicting
    | Broken

  /** The answer to a create for an instance that already exists. */
  function ReplyToCreate(d: Data, req: CreateRequest): CreateReply {
    var service := GetString(d, ServiceID);
    if service.Err? || service.value.None? then Broken
    else if service.value.value != req.service then Conflicting
    else
      var plan := GetString(d, PlanID);
      if plan.Err? || plan.value.None? then Broken
      else if plan.value.value != req.plan then Conflicting
      else if Context !in d then Broken
      else if !SameRaw(req.context, d[Context]) then Conflicting
      else if Parameters !in d then Broken
      else if !SameRaw(req.parameters, d[Parameters]) then Conflicting
      else
        var op := GetString(d, OperationType);
        if op.Err? then Broken
        else if op.value.Some? && op.value.value != KindName(Provision) then Conflicting
        else
          var id := GetString(d, OperationID);
          if op.value.Some? && (id.Err? || id.value.None?) then Broken
          else
            var dashboard := GetString(d, DashboardURL);
            if dashboard.Err? then Broken
            else if op.value.Some? then InProgress(id.value.value, dashboard.value)
            else Ready(dashboard.value)
  }

  /** How something stored compares with what a request says: it may also be missing, or of the wrong type. */
  datatype Finding = Agrees | Differs | Unusable

  function CompareText(d: Data, key: Key, wanted: string): Finding {
    if key !in d || !HasText(d, key) then Unusable else if TextAt(d, key) == wanted then Agrees else Differs
  }

  function CompareRaw(d: Data, key: Key, wanted: Option<Raw>): Finding {
    if key !in d then Unusable
    else if (wanted.None? && d[key] == JNull) || (wanted.Some? && d[key] == JString(wanted.value)) then Agrees
    else Differs
  }

  /** The first of the findings that is not agreement. */
  predicate FirstIs(findings: seq<Finding>, finding: Finding) {
    finding != Agrees && exists n :: 0 <= n < |findings| && findings[n] == finding
                                     && forall m | 0 <= m < n :: findings[m] == Agrees
  }

  function Findings(d: Data, req: CreateRequest): seq<Finding> {
    [CompareText(d, ServiceID, req.service), CompareText(d, PlanID, req.plan),
     CompareRaw(d, Context, req.context), CompareRaw(d, Parameters, req.parameters)]
  }

  /** What is stored about a dashboard address. */
  predicate DashboardStored(d: Data, dashboard: Option<string>) {
    if DashboardURL !in d then dashboard == None
    else HasText(d, DashboardURL) && dashboard == Some(TextAt(d, DashboardURL))
  }

  /** A request that agrees with what is stored is told of the provisioning at work, or that there is none. */
  predicate AgreedReply(d: Data, reply: CreateReply) {
    match reply
    case Ready(dashboard) => OperationType !in d && DashboardStored(d, dashboard)
    case InProgress(id, dashboard) =>
      && OperationType in d && d[OperationType] == JString("provision")
      && OperationID in d && HasText(d, OperationID) && id == TextAt(d, OperationID) && DashboardStored(d, dashboard)
    case Conflicting => OperationType in d && HasText(d, OperationType) && TextAt(d, OperationType) != "provision"
    case Broken =>
      || !HasText(d, OperationType)
      || (&& (OperationType in d ==> d[OperationType] == JString("provision"))
          && ((OperationType in d && (OperationID !in d || !HasText(d, OperationID))) || !HasText(d, DashboardURL)))
  }

  /** The answer to a create for a known instance, comparison by comparison. */
  lemma {:induction false} ReplyMeans(d: Data, req: CreateRequest)
    ensures var reply, findings := ReplyToCreate(d, req), Findings(d, req);
            && (FirstIs(findings, Differs) ==> reply == Conflicting)
            && (FirstIs(findings, Unusable) ==> reply == Broken)
            && (!FirstIs(findings, Differs) && !FirstIs(findings, Unusable) ==> AgreedReply(d, reply))
  {
    var findings := Findings(d, req);
    if findings[0] != Agrees {
      assert FirstIs(findings, findings[0]);
    } else if findings[1] != Agrees {
      assert FirstIs(findings, findings[1]);
    } else if findings[2] != Agrees {
      assert FirstIs(findings, findings[2]);
    } else if findings[3] != Agrees {
      assert FirstIs(findings, findings[3]);
    }
  }

  /** Set the values the binding's registry templates rendered, in order; a reserved key stops it. */
  function Prepared(d: Data, values: seq<(Key, Json)>): Result<Data>
    decreases |values|
  {
    if values == [] then Ok(d)
    else match Prepared(d, values[..|values| - 1])
      case Err(e) => Err(e)
      case Ok(d') =>
        var (key, value) := values[|values| - 1];
        if value == JNull then Ok(d')
        else if !Writable(key) then Err("registry key cannot be written")
        else Ok(d'[key := value])
  }

  /** The registry values themselves. */
  function Written(values: seq<(Key, Json)>): Data {
    var r := Prepared(map[], values);
    if r.Ok? then r.value else map[]
  }

  /** Preparing succeeds exactly if no rendered value is meant for a reserved key; nulls are skipped. */
  lemma {:induction false} PreparedUnlessReserved(d: Data, values: seq<(Key, Json)>)
    ensures Prepared(d, values).Ok? <==> forall i | 0 <= i < |values| :: values[i].1 == JNull || !Reserved(values[i].0)
    decreases |values|
  {
    if values != [] {
      var n := |values| - 1;
      var before := values[..n];
      PreparedUnlessReserved(d, before);
      KeyAccess(values[n].0);
      assert forall i | 0 <= i < n :: before[i] == values[i];
      assert Prepared(d, values).Ok? <==>
        Prepared(d, before).Ok? && (values[n].1 == JNull || !Reserved(values[n].0));
    }
  }

  /** Value `i` is the last one for the key that is not null. */
  predicate LastFor(values: seq<(Key, Json)>, key: Key, i: int) {
    && 0 <= i < |values| && values[i].0 == key && values[i].1 != JNull
    && forall j | i < j < |values| :: values[j].0 != key || values[j].1 == JNull
  }

  /** No value but null is meant for the key. */
  predicate NoneFor(values: seq<(Key, Json)>, key: Key) {
    forall i | 0 <= i < |values| :: values[i].0 != key || values[i].1 == JNull
  }

  /** Preparing leaves the last value for a key that is not null, ... */
  lemma {:induction false} LastStands(d: Data, values: seq<(Key, Json)>, key: Key, i: nat)
    requires Prepared(d, values).Ok? && LastFor(values, key, i)
    ensures key in Prepared(d, values).value && Prepared(d, values).value[key] == values[i].1
    decreases |values|
  {
    var n := |values| - 1;
    if i < n {
      var before := values[..n];
      assert before[i] == values[i];
      assert forall j | 0 <= j < n :: before[j] == values[j];
      LastStands(d, before, key, i);
      assert values[n].0 != key || values[n].1 == JNull;
    }
  }

  /** ... and what was there if there is none. */
  lemma {:induction false} NoneStands(d: Data, values: seq<(Key, Json)>, key: Key)
    requires Prepared(d, values).Ok? && NoneFor(values, key)
    ensures key in Prepared(d, values).value <==> key in d
    ensures key in d ==> Prepared(d, values).value[key] == d[key]
    decreases |values|
  {
    if values != [] {
      var n := |values| - 1;
      var before := values[..n];
      assert forall j | 0 <= j < n :: before[j] == values[j];
      NoneStands(d, before, key);
      assert values[n].0 != key || values[n].1 == JNull;
    }
  }

  /** There is a last value for a key, or none. */
  lemma {:induction false} LastOrNone(values: seq<(Key, Json)>, key: Key) returns (i: nat)
    ensures LastFor(values, key, i) || NoneFor(values, key)
    decreases |values|
  {
    i := 0;
    if values != [] {
      var n := |values| - 1;
      if values[n].0 == key && values[n].1 != JNull {
        i := n;
      } else {
        i := LastOrNone(values[..n], key);
        assert forall j | 0 <= j < n :: values[..n][j] == values[j];
      }
    }
  }

  /** The computed values are there: a key is written exactly if some value for it is not null, with the last such. */
  lemma {:induction false} WrittenAt(values: seq<(Key, Json)>, key: Key)
    requires Prepared(map[], values).Ok?
    ensures key in Written(values) <==> exists i | 0 <= i < |values| :: values[i].0 == key && values[i].1 != JNull
    ensures forall i | LastFor(values, key, i) :: key in Written(values) && Written(values)[key] == values[i].1
  {
    var i := LastOrNone(values, key);
    forall j | LastFor(values, key, j) ensures key in Written(values) && Written(values)[key] == values[j].1 {
      LastStands(map[], values, key, j);
    }
    if NoneFor(values, key) {
      NoneStands(map[], values, key);
    }
  }

  /** The values laid over the data: under every key the last one that is not null, or else what was there. */
  ghost predicate Overlaid(values: seq<(Key, Json)>, before: Data, after: Data) {
    && (forall key, i | LastFor(values, key, i) :: key in after && after[key] == values[i].1)
    && (forall key | NoneFor(values, key) ::
          (key in after <==> key in before) && (key in before ==> after[key] == before[key]))
  }

  lemma {:induction false} PreparedIsOverlaid(d: Data, values: seq<(Key, Json)>)
    requires Prepared(d, values).Ok?
    ensures Overlaid(values, d, Prepared(d, values).value)
  {
    var after := Prepared(d, values).value;
    forall key, i | LastFor(values, key, i) ensures key in after && after[key] == values[i].1 {
      LastStands(d, values, key, i);
    }
    forall key | NoneFor(values, key)
      ensures (key in after <==> key in d) && (key in d ==> after[key] == d[key])
    {
      NoneStands(d, values, key);
    }
  }

  /** Rendered values are laid over the entry's data, and touch no reserved key. */
  lemma {:induction false} PreparedOverlays(d: Data, values: seq<(Key, Json)>)
    requires Prepared(d, values).Ok?
    ensures Prepared(map[], values).Ok?
    ensures Prepared(d, values).value == d + Written(values)
    ensures forall k | k in Written(values) :: !Reserved(k)
    decreases |values|
  {
    if values != [] {
      var before := values[..|values| - 1];
      PreparedOverlays(d, before);
      KeyAccess(values[|values| - 1].0);
    }
  }

  /** A parameter of the request's query; one that is given more than once has no value. */
  datatype Parameter = NotGiven | Given(value: string) | Ambiguous

  datatype PollRequest = PollRequest(operation: Parameter, service: Parameter, plan: Parameter)

  datatype PollOutcome =
    | Refused
    | Unreadable
    | StillRunning
    | Terminal(id: string, text: string)

  /** The query passes the checks made before anything is read: the operation is named, the hints are unique. */
  predicate WellPosed(req: PollRequest) {
    !req.service.Ambiguous? && !req.plan.Ambiguous? && req.operation.Given?
  }

  /** The value a handler goes on with when a key is missing: Go's empty string. */
  function Otherwise(o: Option<string>): string {
    if o.Some? then o.value else ""
  }

  /** The poll handler's verdict. Its checks for missing keys do not return, so it carries on with empty strings. */
  function PollVerdict(d: Data, req: PollRequest): PollOutcome {
    var service, plan, id := GetString(d, ServiceID), GetString(d, PlanID), GetString(d, OperationID);
    if !WellPosed(req) then Refused
    else if service.Err? || plan.Err? || id.Err? then Unreadable
    else if req.service.Given? && req.service.value != Otherwise(service.value) then Refused
    else if req.plan.Given? && req.plan.value != Otherwise(plan.value) then Refused
    else if req.operation.value != Otherwise(id.value) then Refused
    else
      var status := GetString(d, OperationStatus);
      if status.Err? then Unreadable
      else if status.value.None? then StillRunning
      else Terminal(req.operation.value, status.value.value)
  }

  /** The hint, if given, is what is stored. */
  predicate Hints(hint: Parameter, text: string) {
    hint.Given? ==> hint.value == text
  }

  /** The query names the recorded operation, and its hints are right; a missing key counts as the empty string. */
  predicate RightQuery(d: Data, req: PollRequest) {
    && req.operation == Given(TextAt(d, OperationID))
    && Hints(req.service, TextAt(d, ServiceID)) && Hints(req.plan, TextAt(d, PlanID))
  }

  predicate ReadableQuery(d: Data) {
    HasText(d, ServiceID) && HasText(d, PlanID) && HasText(d, OperationID)
  }

  /** What each verdict means in terms of what is stored. */
  lemma {:induction false} VerdictMeans(d: Data, req: PollRequest)
    ensures var posed := req.operation.Given? && !req.service.Ambiguous? && !req.plan.Ambiguous?;
            var right := posed && ReadableQuery(d) && RightQuery(d, req);
            var verdict := PollVerdict(d, req);
            && (verdict.Refused? <==> !posed || (ReadableQuery(d) && !right))
            && (verdict.Unreadable? <==> posed && (!ReadableQuery(d) || (right && !HasText(d, OperationStatus))))
            && (verdict.StillRunning? <==> right && OperationStatus !in d)
            && (verdict.Terminal? <==> right && OperationStatus in d && HasText(d, OperationStatus))
            && (verdict.Terminal? ==>
                  verdict.id == TextAt(d, OperationID) && verdict.text == TextAt(d, OperationStatus))
  {
  }

  function Missing(d: Data, key: Key): nat {
    if key in d then 0 else 1
  }

  /** The errors written for missing keys on the way to the verdict, each an answer of its own. */
  function Complaints(d: Data, req: PollRequest): nat {
    if !WellPosed(req) || GetString(d, ServiceID).Err? then 0
    else
      Missing(d, ServiceID) +
      if GetString(d, PlanID).Err? then 0
      else Missing(d, PlanID) + if GetString(d, OperationID).Err? then 0 else Missing(d, OperationID)
  }

  /** A poll gets one answer exactly if its query is refused outright, or the keys are there as far as they are read. */
  lemma {:induction false} OneAnswer(d: Data, req: PollRequest)
    ensures Complaints(d, req) == 0 <==>
              || !WellPosed(req)
              || GetString(d, ServiceID).Err?
              || (ServiceID in d && (GetString(d, PlanID).Err? || (PlanID in d && OperationID in d)))
  {
    assert GetString(d, OperationID).Err? ==> OperationID in d;
  }

  /** There is one complaint for each missing key among those read, and reading ends at the first that is no string. */
  lemma {:induction false} ComplaintsCounted(d: Data, req: PollRequest)
    ensures req.operation.Given? && !req.service.Ambiguous? && !req.plan.Ambiguous? ==>
              Complaints(d, req) ==
                (if ServiceID in d then 0 else 1)
                + (if HasText(d, ServiceID) && PlanID !in d then 1 else 0)
                + (if HasText(d, ServiceID) && HasText(d, PlanID) && OperationID !in d then 1 else 0)
  {
  }

  /** The state a terminal poll reports. */
  datatype PollState = Succeeded | Failed(description: string)

  function TerminalState(text: string): PollState {
    if text != "" then Failed(text) else Succeeded
  }

  datatype DeleteRequest = DeleteRequest(service: string, plan: string)

  predicate DeleteMatches(d: Data, req: DeleteRequest) {
    GetString(d, ServiceID) == Ok(Some(req.service)) && GetString(d, PlanID) == Ok(Some(req.plan))
  }

  /** The stored instance is of that service and plan. */
  predicate StoredFor(d: Data, service: string, plan: string) {
    && ServiceID in d && HasText(d, ServiceID) && TextAt(d, ServiceID) == service
    && PlanID in d && HasText(d, PlanID) && TextAt(d, PlanID) == plan
  }

  lemma {:induction false} DeleteMatchesStored(d: Data, req: DeleteRequest)
    ensures DeleteMatches(d, req) <==> StoredFor(d, req.service, req.plan)
  {
  }
}
