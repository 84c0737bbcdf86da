/**
 The life of one service instance as its users see it: a state machine over events. The concurrent broker
 is proved to produce only legal logs of these events.
*/
module Lifecycle {
  import opened Json
  import opened Registry
  import opened Operation
  import opened Decisions
  import Spelling

  datatype Phase =
    | Idle
    | InFlight(id: string, kind: Kind)
    | Finished(id: string, kind: Kind, result: Option<string>)

  /** `virgin`: no operation has been accepted since the instance was created. */
  datatype Instance =
    | Absent
    | Present(origin: CreateRequest, namespace: string, parameters: Json, values: Data, virgin: bool, phase: Phase)

  /** What an accepted operation changes besides recording itself. */
  datatype Change = ProvisionWith(values: Data) | UpdateTo(parameters: Json) | Remove

  function KindOf(change: Change): Kind {
    match change
    case ProvisionWith(_) => Provision
    case UpdateTo(_) => Update
    case Remove => Deprovision
  }

  datatype Event =
    | Created(req: CreateRequest, namespace: string)
    | Accepted(id: string, change: Change)
    | Completed(id: string, result: Option<string>)
    | Ended(id: string, text: string)
    | Removed(id: string)
    | Replied(req: CreateRequest, reply: CreateReply)
    | Running(id: string)
    | Gone

  /** Registry values the templates computed: none under a reserved key. */
  predicate UserValues(values: Data) {
    forall k | k in values :: !Reserved(k)
  }

  /** The values the broker itself keeps for an instance. */
  function SystemData(instanceId: string, i: Instance): Data
    requires i.Present?
  {
    var d := InitialData(instanceId, i.namespace, i.origin)[Parameters := i.parameters];
    match i.phase
    case Idle => d
    case InFlight(id, kind) => StartedData(d, kind, id)
    case Finished(id, kind, result) => CompletedData(StartedData(d, kind, id), result)
  }

  /** The registry data of an instance. */
  function DataOf(instanceId: string, i: Instance): Data
    requires i.Present?
  {
    SystemData(instanceId, i) + i.values
  }

  predicate Enabled(i: Instance, e: Event) {
    match e
    case Created(req, namespace) => i.Absent?
    case Accepted(id, change) =>
      && i.Present? && i.phase.Idle?
      && (change.ProvisionWith? ==> i.virgin && UserValues(change.values))
    case Completed(id, result) => i.Present? && i.phase.InFlight? && i.phase.id == id && i.phase.kind != Deprovision
    case Ended(id, text) => i.Present? && i.phase.Finished? && i.phase.id == id && text == StatusText(i.phase.result)
    case Removed(id) => i.Present? && i.phase == InFlight(id, Deprovision)
    case Replied(req, reply) => i.Present? && reply == ExpectedReply(i, req)
    case Running(id) => i.Present? && i.phase.InFlight? && i.phase.id == id
    case Gone => i.Absent?
  }

  function After(i: Instance, e: Event): Instance {
    if !Enabled(i, e) then i
    else match e
      case Created(req, namespace) => Present(req, namespace, Stored(req.parameters), map[], true, Idle)
      case Accepted(id, change) =>
        var j := i.(virgin := false, phase := InFlight(id, KindOf(change)));
        (match change
         case ProvisionWith(values) => j.(values := values)
         case UpdateTo(parameters) => j.(parameters := parameters)
         case Remove => j)
      case Completed(id, result) => i.(phase := Finished(id, i.phase.kind, result))
      case Ended(_, _) => i.(phase := Idle)
      case Removed(_) => Absent
      case _ => i
  }

  function Replay(log: seq<Event>): Instance
    decreases |log|
  {
    if log == [] then Absent else After(Replay(log[..|log| - 1]), log[|log| - 1])
  }

  function AcceptedIds(log: seq<Event>): set<string> {
    set e | e in log && e.Accepted? :: e.id
  }

  /** Every event was possible when it happened, and no operation id is used twice. */
  predicate Legal(log: seq<Event>)
    decreases |log|
  {
    log != [] ==>
      var before, e := log[..|log| - 1], log[|log| - 1];
      Legal(before) && Enabled(Replay(before), e) && (e.Accepted? ==> e.id !in AcceptedIds(before))
  }

  // ---- What a repeated create is told ----

  predicate SameRequest(i: Instance, req: CreateRequest)
    requires i.Present?
  {
    && req.service == i.origin.service && req.plan == i.origin.plan
    && SameRaw(req.context, Stored(i.origin.context)) && SameRaw(req.parameters, i.parameters)
  }

  /** The dashboard address the templates computed; only a string will do. */
  function Dashboard(i: Instance): Result<Option<string>>
    requires i.Present?
  {
    GetString(i.values, DashboardURL)
  }

  function ExpectedReply(i: Instance, req: CreateRequest): CreateReply
    requires i.Present?
  {
    if !SameRequest(i, req) then Conflicting
    else match i.phase
      case Idle => if Dashboard(i).Err? then Broken else Ready(Dashboard(i).value)
      case _ =>
        if i.phase.kind != Provision then Conflicting
        else if Dashboard(i).Err? then Broken
        else CreateReply.InProgress(i.phase.id, Dashboard(i).value)
  }

  lemma {:induction false} SystemAt(instanceId: string, i: Instance, key: Key)
    requires i.Present? && UserValues(i.values)
    ensures var d := DataOf(instanceId, i);
            && (Reserved(key) ==> GetString(d, key) == GetString(SystemData(instanceId, i), key))
            && (Reserved(key) && key in d ==>
                  key in SystemData(instanceId, i) && d[key] == SystemData(instanceId, i)[key])
            && (Reserved(key) && key in SystemData(instanceId, i) ==> key in d)
            && (!Reserved(key) ==> GetString(d, key) == GetString(i.values, key))
  {
    assert Reserved(key) ==> key !in i.values;
  }

  /** The request's own keys read the same in every phase. */
  lemma {:induction false} RequestAt(instanceId: string, i: Instance, key: Key)
    requires i.Present? && UserValues(i.values)
    requires key in {Namespace, InstanceID, ServiceID, PlanID, Context, Parameters}
    ensures var d, base := DataOf(instanceId, i),
        InitialData(instanceId, i.namespace, i.origin)[Parameters := i.parameters];
            key in d && d[key] == base[key]
  {
    SystemAt(instanceId, i, key);
  }

  /** What can be read under each key of an instance's data. */
  lemma {:induction false} IdentityAt(instanceId: string, i: Instance)
    requires i.Present? && UserValues(i.values)
    ensures var d := DataOf(instanceId, i);
            && GetString(d, ServiceID) == Ok(Some(i.origin.service))
            && GetString(d, PlanID) == Ok(Some(i.origin.plan))
            && GetString(d, InstanceID) == Ok(Some(instanceId))
            && GetString(d, Namespace) == Ok(Some(i.namespace))
            && Context in d && d[Context] == Stored(i.origin.context)
            && Parameters in d && d[Parameters] == i.parameters
            && GetString(d, DashboardURL) == Dashboard(i)
  {
    RequestAt(instanceId, i, ServiceID);
    RequestAt(instanceId, i, PlanID);
    RequestAt(instanceId, i, InstanceID);
    RequestAt(instanceId, i, Namespace);
    RequestAt(instanceId, i, Context);
    RequestAt(instanceId, i, Parameters);
    SystemAt(instanceId, i, DashboardURL);
  }

  lemma {:induction false} OperationAt(instanceId: string, i: Instance)
    requires i.Present? && UserValues(i.values)
    ensures var d := DataOf(instanceId, i);
            match i.phase
            case Idle => OperationType !in d && OperationID !in d && OperationStatus !in d
            case InFlight(id, kind) =>
              && GetString(d, OperationType) == Ok(Some(KindName(kind))) && GetString(d, OperationID) == Ok(Some(id))
              && OperationStatus !in d
            case Finished(id, kind, result) =>
              && GetString(d, OperationType) == Ok(Some(KindName(kind))) && GetString(d, OperationID) == Ok(Some(id))
              && GetString(d, OperationStatus) == Ok(Some(StatusText(result)))
  {
    SystemAt(instanceId, i, OperationType);
    SystemAt(instanceId, i, OperationID);
    SystemAt(instanceId, i, OperationStatus);
  }

  /** The same as texts: which keys decode into strings, and which. */
  lemma {:induction false} TextsAt(instanceId: string, i: Instance)
    requires i.Present? && UserValues(i.values)
    ensures var d := DataOf(instanceId, i);
            && HasText(d, ServiceID) && TextAt(d, ServiceID) == i.origin.service
            && HasText(d, PlanID) && TextAt(d, PlanID) == i.origin.plan
            && HasText(d, OperationID) && TextAt(d, OperationID) == (if i.phase.Idle? then "" else i.phase.id)
            && HasText(d, OperationType) && (OperationType in d <==> !i.phase.Idle?)
            && HasText(d, OperationStatus) && (OperationStatus in d <==> i.phase.Finished?)
            && (i.phase.Finished? ==> TextAt(d, OperationStatus) == StatusText(i.phase.result))
  {
    IdentityAt(instanceId, i);
    OperationAt(instanceId, i);
  }

  /** The handler's answer, read off the stored data, is the one the instance's history calls for. */
  lemma {:induction false} ReplyIsExpected(instanceId: string, i: Instance, req: CreateRequest)
    requires i.Present? && UserValues(i.values)
    ensures ReplyToCreate(DataOf(instanceId, i), req) == ExpectedReply(i, req)
  {
    IdentityAt(instanceId, i);
    OperationAt(instanceId, i);
  }

  // ---- Laws of every legal log ----

  lemma {:induction false} LegalAt(log: seq<Event>, n: nat)
    requires Legal(log) && n < |log|
    ensures Legal(log[..n]) && Enabled(Replay(log[..n]), log[n])
    ensures log[n].Accepted? ==> log[n].id !in AcceptedIds(log[..n])
    ensures Legal(log[..n + 1]) && Replay(log[..n + 1]) == After(Replay(log[..n]), log[n])
    decreases |log|
  {
    var before := log[..|log| - 1];
    if n == |log| - 1 {
      assert log[..n + 1] == log;
    } else {
      LegalAt(before, n);
      assert before[..n] == log[..n] && before[..n + 1] == log[..n + 1];
    }
  }

  /** The operation `id` is the one open on the instance. */
  predicate Open(i: Instance, id: string) {
    i.Present? && !i.phase.Idle? && i.phase.id == id
  }

  /** The events that close an operation: the poll that reports its end, or the removal of the instance. */
  predicate Closes(e: Event, id: string) {
    (e.Ended? || e.Removed?) && e.id == id
  }

  lemma {:induction false} OpenUntilClosed(log: seq<Event>, i: nat, j: nat)
    requires Legal(log) && i < j <= |log| && log[i].Accepted?
    requires forall k | i < k < j :: !Closes(log[k], log[i].id)
    ensures Open(Replay(log[..j]), log[i].id)
    ensures Replay(log[..j]).phase.kind == KindOf(log[i].change)
    decreases j
  {
    LegalAt(log, j - 1);
    if j - 1 > i {
      OpenUntilClosed(log, i, j - 1);
    }
  }

  /** Between two accepted operations the first is closed: an instance carries at most one at a time. */
  lemma {:induction false} AtMostOneOperation(log: seq<Event>, i: nat, j: nat)
    requires Legal(log) && i < j < |log| && log[i].Accepted? && log[j].Accepted?
    ensures exists k :: i < k < j && Closes(log[k], log[i].id)
  {
    if forall k | i < k < j :: !Closes(log[k], log[i].id) {
      OpenUntilClosed(log, i, j);
      LegalAt(log, j);
    }
  }

  /** An open operation was accepted, with its kind; a finished one has its completion since. */
  lemma {:induction false} OpenHasHistory(log: seq<Event>) returns (i: nat, k: nat)
    requires Legal(log) && Replay(log).Present? && !Replay(log).phase.Idle?
    ensures i < |log| && log[i].Accepted? && log[i].id == Replay(log).phase.id
    ensures KindOf(log[i].change) == Replay(log).phase.kind
    ensures Replay(log).phase.Finished? ==>
              i < k < |log| && log[k] == Completed(log[i].id, Replay(log).phase.result)
                  && Replay(log).phase.kind != Deprovision
    decreases |log|
  {
    var n := |log| - 1;
    if log[n].Accepted? {
      i, k := n, 0;
    } else {
      i, k := OpenHasHistory(log[..n]);
      if log[n].Completed? { k := n; }
    }
  }

  /** Ended operations were accepted, and none of them is open any more. */
  lemma {:induction false} EndedStaysEnded(log: seq<Event>, j: nat)
    requires Legal(log) && j < |log| && log[j].Ended?
    ensures log[j].id in AcceptedIds(log)
    ensures !Open(Replay(log), log[j].id)
    decreases |log|
  {
    var n := |log| - 1;
    if j < n {
      EndedStaysEnded(log[..n], j);
      assert log[j].id in AcceptedIds(log[..n]);
    } else {
      var i, _ := OpenHasHistory(log[..n]);
      assert log[i] in log;
    }
  }

  /** Each operation gets at most one terminal poll answer. */
  lemma {:induction false} OneTerminalAnswer(log: seq<Event>, j: nat, k: nat)
    requires Legal(log) && j < k < |log| && log[j].Ended? && log[k].Ended?
    ensures log[j].id != log[k].id
  {
    LegalAt(log, k);
    EndedStaysEnded(log[..k], j);
  }

  /**
   A terminal answer comes after its operation's run completed, and says `failed` exactly when the run
   returned an error whose text is not empty; the operation is no deprovisioning.
  */
  lemma {:induction false} TerminalAnswerIsTrue(log: seq<Event>, j: nat) returns (i: nat, k: nat)
    requires Legal(log) && j < |log| && log[j].Ended?
    ensures i < k < j && log[i].Accepted? && log[i].id == log[j].id && !log[i].change.Remove?
    ensures log[k].Completed? && log[k].id == log[j].id
    ensures TerminalState(log[j].text).Failed? <==> log[k].result.Some? && log[k].result.value != ""
    ensures TerminalState(log[j].text).Failed? ==> log[k].result == Some(TerminalState(log[j].text).description)
  {
    LegalAt(log, j);
    i, k := OpenHasHistory(log[..j]);
  }

  /** A deprovisioning is never reported as ended; the poll that first reveals it says the instance is gone. */
  lemma {:induction false} DeprovisionEndsInGone(log: seq<Event>, i: nat, j: nat)
    requires Legal(log) && i < |log| && j < |log| && log[i].Accepted? && log[i].change.Remove?
    ensures !(log[j].Ended? && log[j].id == log[i].id)
    ensures i < j && log[j].Gone? ==> exists k :: i < k < j && log[k] == Removed(log[i].id)
  {
    if log[j].Ended? && log[j].id == log[i].id {
      var i', _ := TerminalAnswerIsTrue(log, j);
      AcceptedOnce(log, i, i');
    }
    if i < j && log[j].Gone? && forall k | i < k < j :: log[k] != Removed(log[i].id) {
      forall k | i < k < j && log[k].Ended? ensures log[k].id != log[i].id {
        if log[k].id == log[i].id {
          var i', _ := TerminalAnswerIsTrue(log, k);
          AcceptedOnce(log, i, i');
        }
      }
      OpenUntilClosed(log, i, j);
      LegalAt(log, j);
    }
  }

  lemma {:induction false} AcceptedOnce(log: seq<Event>, i: nat, j: nat)
    requires Legal(log) && i < |log| && j < |log| && log[i].Accepted? && log[j].Accepted? && log[i].id == log[j].id
    ensures i == j
  {
    if i < j {
      assert log[..j][i] in log[..j];
      LegalAt(log, j);
    } else if j < i {
      assert log[..i][j] in log[..i];
      LegalAt(log, i);
    }
  }

  // ---- Idempotent creation ----

  /**
   A second request for the same service and plan, whose extensions are spelled as the registry gives back the
   first's.
  */
  predicate Repeats(again: CreateRequest, first: CreateRequest) {
    && again.service == first.service && again.plan == first.plan
    && SameRaw(again.context, Stored(first.context)) && SameRaw(again.parameters, Stored(first.parameters))
  }

  /** The encoder passes the extension on as it is. */
  predicate IsCompact(raw: Option<Raw>) {
    raw.Some? ==> Spelling.Compact(raw.value) == raw.value
  }

  predicate Quiet(e: Event) {
    !e.Created? && !e.Accepted?
  }

  /** From its creation to its provisioning, an instance is just what was requested. */
  lemma {:induction false} FreshUntilProvisioned(log: seq<Event>, c: nat, i: nat)
    requires Legal(log) && c < i <= |log| && log[c].Created?
    requires forall k | c < k < i :: Quiet(log[k])
    ensures Replay(log[..i]) == Present(log[c].req, log[c].namespace, Stored(log[c].req.parameters), map[], true, Idle)
    decreases i
  {
    LegalAt(log, i - 1);
    if i - 1 > c {
      FreshUntilProvisioned(log, c, i - 1);
    }
  }

  lemma {:induction false} ProvisionedSince(log: seq<Event>, c: nat, i: nat, j: nat)
    requires Legal(log) && c < i < j <= |log| && log[c].Created? && log[i].Accepted? && log[i].change.ProvisionWith?
    requires forall k | c < k < j && k != i :: Quiet(log[k])
    ensures var s := Replay(log[..j]);
            && s.Present? && s.origin == log[c].req && s.parameters == Stored(log[c].req.parameters)
            && s.values == log[i].change.values
            && (if exists k :: i < k < j && log[k].Ended? then s.phase.Idle?
                else Open(s, log[i].id) && s.phase.kind == Provision)
    decreases j
  {
    LegalAt(log, j - 1);
    if j - 1 == i {
      FreshUntilProvisioned(log, c, i);
    } else {
      ProvisionedSince(log, c, i, j - 1);
      var s := Replay(log[..j - 1]);
      if log[j - 1].Ended? {
        assert i < j - 1 < j && log[j - 1].Ended?;
      } else if exists k :: i < k < j - 1 && log[k].Ended? {
        var k :| i < k < j - 1 && log[k].Ended?;
        assert i < k < j;
      }
    }
  }

  /**
   After a create was accepted, and until something else is: a repetition is answered with the same operation
   until that is ended, and with success from then on; anything else is a conflict.
  */
  lemma {:induction false} RepeatedCreate(log: seq<Event>, c: nat, i: nat, j: nat)
    requires Legal(log) && c < i < j < |log| && log[c].Created? && log[i].Accepted? && log[i].change.ProvisionWith?
    requires forall k | c < k < j && k != i :: Quiet(log[k])
    requires log[j].Replied?
    requires GetString(log[i].change.values, DashboardURL).Ok?
    ensures var dashboard := GetString(log[i].change.values, DashboardURL).value;
            log[j].reply ==
              if !Repeats(log[j].req, log[c].req) then Conflicting
              else if exists k :: i < k < j && log[k].Ended? then Ready(dashboard)
              else CreateReply.InProgress(log[i].id, dashboard)
  {
    ProvisionedSince(log, c, i, j);
    LegalAt(log, j);
  }

  /** Sending the very same request again counts as a repetition exactly if the encoder leaves its extensions alone. */
  lemma {:induction false} VerbatimRepeat(log: seq<Event>, c: nat, i: nat, j: nat)
    requires Legal(log) && c < i < j < |log| && log[c].Created? && log[i].Accepted? && log[i].change.ProvisionWith?
    requires forall k | c < k < j && k != i :: Quiet(log[k])
    requires log[j].Replied? && log[j].req == log[c].req
    requires GetString(log[i].change.values, DashboardURL).Ok?
    ensures (log[j].reply == Conflicting) <==> !(IsCompact(log[c].req.context) && IsCompact(log[c].req.parameters))
    ensures log[j].reply != Conflicting && log[j].reply.InProgress? ==> log[j].reply.id == log[i].id
  {
    RepeatedCreate(log, c, i, j);
  }

  /** What came out of the encoder once can be sent again: it repeats both the request it was made from and itself. */
  lemma {:induction false} CompactedRepeats(first: CreateRequest, again: CreateRequest)
    requires again.service == first.service && again.plan == first.plan
    requires again.context.Some? <==> first.context.Some?
    requires again.context.Some? ==> again.context.value == Spelling.Compact(first.context.value)
    requires again.parameters.Some? <==> first.parameters.Some?
    requires again.parameters.Some? ==> again.parameters.value == Spelling.Compact(first.parameters.value)
    ensures Repeats(again, first) && Repeats(again, again)
  {
    if first.context.Some? { Spelling.CompactIsIdempotent(Spelling.Outside, first.context.value); }
    if first.parameters.Some? { Spelling.CompactIsIdempotent(Spelling.Outside, first.parameters.value); }
  }

  function Compacted(raw: Option<Raw>): Option<string> {
    if raw.Some? then Some(Spelling.Compact(raw.value)) else None
  }

  /** The one request that repeats another: the same service and plan, and its extensions as the encoder writes them. */
  lemma {:induction false} OnlyTheTextRepeats(again: CreateRequest, first: CreateRequest)
    ensures Repeats(again, first) <==>
              && again.service == first.service && again.plan == first.plan
              && again.context == Compacted(first.context) && again.parameters == Compacted(first.parameters)
  {
  }

  /**
   Of two different texts that the encoder leaves alone, whatever they say, each repeats itself and neither the other:
   the same attributes in another order are a conflict.
  */
  lemma {:induction false} ReorderedIsNoRepeat(first: CreateRequest, again: CreateRequest)
    requires first.parameters.Some? && Spelling.Clean(Spelling.Outside, first.parameters.value)
    requires IsCompact(first.context)
    requires again.parameters.Some? && Spelling.Clean(Spelling.Outside, again.parameters.value)
    requires IsCompact(again.context)
    requires first.parameters != again.parameters
    ensures Repeats(first, first) && Repeats(again, again) && !Repeats(again, first)
  {
    Spelling.CleanIsUntouched(Spelling.Outside, first.parameters.value);
    Spelling.CleanIsUntouched(Spelling.Outside, again.parameters.value);
  }

  /** Markup is stored escaped, so a request with any in its parameters or context does not even repeat itself. */
  lemma {:induction false} MarkupIsNoRepeat(req: CreateRequest, x: Raw, i: nat)
    requires req.parameters == Some(x) || req.context == Some(x)
    requires i < |x| && Spelling.Spelled(x[i]) != [x[i]]
    ensures !Repeats(req, req)
  {
    Spelling.MarkupIsNotClean(Spelling.Outside, x, i);
    Spelling.CleanIsUntouched(Spelling.Outside, x);
  }

  // ---- What a repeated create that succeeds is worth ----

  /** Since the creation `c` a provisioning has run to its end without an error to report. */
  predicate Succeeds(log: seq<Event>, c: nat, j: nat)
    requires j <= |log|
  {
    exists i, k :: && c < i < k < j && log[i].Accepted? && log[i].change.ProvisionWith?
                   && log[k].Completed? && log[k].id == log[i].id && StatusText(log[k].result) == ""
  }

  /** Since the creation `c` a poll has been told so. */
  predicate Reported(log: seq<Event>, c: nat, j: nat)
    requires j <= |log|
  {
    exists i, e :: c < i < e < j && log[i].Accepted? && log[i].change.ProvisionWith? && log[e] == Ended(log[i].id, "")
  }

  lemma {:induction false} InFlightOnce(log: seq<Event>, k: nat, j: nat)
    requires Legal(log) && k < j <= |log| && log[k].Completed?
    ensures log[k].id in AcceptedIds(log[..j])
    ensures var s := Replay(log[..j]); s.Present? && s.phase.InFlight? ==> s.phase.id != log[k].id
    decreases j
  {
    LegalAt(log, j - 1);
    if j - 1 > k {
      InFlightOnce(log, k, j - 1);
      assert forall e | e in log[..j - 1] :: e in log[..j];
      assert log[..j - 1] + [log[j - 1]] == log[..j];
    } else {
      var i, _ := OpenHasHistory(log[..k]);
      assert log[..k][i] in log[..j];
    }
  }

  /** Each run ends but once. */
  lemma {:induction false} CompletedOnce(log: seq<Event>, k: nat, l: nat)
    requires Legal(log) && k < l < |log| && log[k].Completed? && log[l].Completed?
    ensures log[k].id != log[l].id
  {
    InFlightOnce(log, k, l);
    LegalAt(log, l);
  }

  lemma {:induction false} SuccessIsReported(log: seq<Event>, c: nat, j: nat, i: nat, k: nat)
    requires Legal(log) && j < |log| && c < i < k < j && forall n | c < n < j :: !log[n].Removed?
    requires log[i].Accepted? && log[i].change.ProvisionWith?
    requires log[k].Completed? && log[k].id == log[i].id && StatusText(log[k].result) == ""
    requires Replay(log[..j]).Present? && Replay(log[..j]).phase.Idle?
    ensures Reported(log, c, j)
  {
    if forall e | i < e < j :: !Closes(log[e], log[i].id) {
      OpenUntilClosed(log, i, j);
    } else {
      var e :| i < e < j && Closes(log[e], log[i].id);
      EndTellsResult(log, k, e);
      assert log[e] == Ended(log[i].id, "");
    }
  }

  /** The end of an operation is told with the result it was completed with. */
  lemma {:induction false} EndTellsResult(log: seq<Event>, k: nat, e: nat)
    requires Legal(log) && k < |log| && log[k].Completed? && e < |log| && Closes(log[e], log[k].id)
    ensures log[e].Ended? ==> log[e].text == StatusText(log[k].result)
  {
    if log[e].Ended? {
      LegalAt(log, e);
      var _, l := OpenHasHistory(log[..e]);
      if l < k { CompletedOnce(log, l, k); } else if k < l { CompletedOnce(log, k, l); }
    }
  }

  lemma {:induction false} ReportIsOfSuccess(log: seq<Event>, c: nat, j: nat, i: nat, e: nat)
    requires Legal(log) && j < |log| && c < i < e < j
    requires log[i].Accepted? && log[i].change.ProvisionWith? && log[e] == Ended(log[i].id, "")
    ensures Succeeds(log, c, j)
  {
    LegalAt(log, e);
    var i', k := OpenHasHistory(log[..e]);
    AcceptedOnce(log, i, i');
    assert log[k].Completed? && log[k].id == log[i].id;
  }

  /**
   A repeated create that is answered with success means that the instance was provisioned exactly if a poll has been
   told of that success before. Nothing else tells it from an instance whose preparation failed or is still under way,
   or whose provisioning failed.
  */
  lemma {:induction false} ReadyIfReported(log: seq<Event>, c: nat, j: nat)
    requires Legal(log) && c < j < |log| && log[c].Created? && forall n | c < n < j :: !log[n].Removed?
    requires log[j].Replied? && log[j].reply.Ready?
    ensures Succeeds(log, c, j) <==> Reported(log, c, j)
  {
    LegalAt(log, j);
    if i, k :| && c < i < k < j && log[i].Accepted? && log[i].change.ProvisionWith?
               && log[k].Completed? && log[k].id == log[i].id && StatusText(log[k].result) == "" {
      SuccessIsReported(log, c, j, i, k);
    }
    if i, e :| c < i < e < j && log[i].Accepted? && log[i].change.ProvisionWith? && log[e] == Ended(log[i].id, "") {
      ReportIsOfSuccess(log, c, j, i, e);
    }
  }
}
