/**
 The handlers of `Handlers` and the threads of `Protocol` are two views of the same code: a request that nothing
 interferes with leaves the store, thread step by thread step, as the handler's contract says.
*/
module Alone {
  import opened Json
  import opened Registry
  import opened Operation
  import opened Decisions
  import opened Lifecycle
  import opened Protocol
  import Handlers
  import Safety

  /** `n` steps of one thread, with nothing in between. */
  function Moves(site: Site, s: State, t: nat, c: Choice, n: nat): State {
    if n == 0 then s else Step(site, Moves(site, s, t, c, n - 1), Move(t, c))
  }

  /** A request that arrives and is carried through in `n` steps. */
  function Handled(site: Site, s: State, request: Thread, c: Choice, n: nat): State {
    Moves(site, Step(site, s, Arrive(request)), |s.threads|, c, n)
  }

  lemma {:induction false} FirstMoves(site: Site, s: State, t: nat, c: Choice)
    ensures var s1 := Step(site, s, Move(t, c)); var s2 := Step(site, s1, Move(t, c));
            var s3 := Step(site, s2, Move(t, c));
            && Moves(site, s, t, c, 1) == s1 && Moves(site, s, t, c, 2) == s2 && Moves(site, s, t, c, 3) == s3
            && Moves(site, s, t, c, 4) == Step(site, s3, Move(t, c))
  {
    assert Moves(site, s, t, c, 1) == Step(site, s, Move(t, c));
    assert Moves(site, s, t, c, 2) == Step(site, Moves(site, s, t, c, 1), Move(t, c));
    assert Moves(site, s, t, c, 3) == Step(site, Moves(site, s, t, c, 2), Move(t, c));
  }

  predicate Free(d: Data) {
    GetString(d, OperationType) == Ok(None)
  }

  /** The last two steps of any accepted request: the operation is recorded if the copy has none. */
  lemma {:induction false} StartAlone(site: Site, s: State, t: nat, copy: Copy, change: Change, c: Choice)
    requires t < |s.threads| && c.up && c.id !in s.issued
    requires site.ref in s.server.secrets && copy.version == s.server.secrets[site.ref].version
    ensures var s1 := Begin(s, t, copy, change, c);
            && t < |s1.threads| && (s1.threads[t].Done? || s1.threads[t].Starting?)
            && var s2 := MoveStep(site, s1, t, c);
            && t < |s2.threads| && s2.threads[t].Done?
            && s2.server == if Free(copy.data)
                            then AfterUpdate(s.server, site.ref, StartedData(copy.data, KindOf(change), c.id))
                            else s.server
  {
  }

  /** An update that checks out, with no operation recorded, is launched as `Handlers.HandleUpdate` has it. */
  lemma {:induction false} UpdateAlone(site: Site, s: State, parameters: Option<Raw>, c: Choice)
    requires c.up && c.id !in s.issued
    ensures var s', t := Handled(site, s, Updating(parameters), c, 3), |s.threads|;
            && t < |s'.threads| && s'.threads[t].Done?
            && if site.ref in s.server.secrets && Free(s.server.secrets[site.ref].data) && c.valid
               then Handlers.Launched(s.server, s'.server, site.ref,
                                      s.server.secrets[site.ref].data[Parameters := Stored(parameters)],
                                      Kind.Update, c.id, c.result)
               else s'.server == s.server
  {
    var t := |s.threads|;
    var s0 := Step(site, s, Arrive(Updating(parameters)));
    FirstMoves(site, s0, t, c);
    var s1 := Step(site, s0, Move(t, c));
    if site.ref in s.server.secrets {
      var copy := Fetched(s.server, site.ref);
      assert s1.threads[t] == Merging(parameters, copy);
      if c.valid {
        StartAlone(site, s1, t, copy.(data := copy.data[Parameters := Stored(parameters)]),
            UpdateTo(Stored(parameters)), c);
      }
    }
  }

  /** A delete is accepted for the instance's own service and plan, as `Handlers.HandleDelete` has it. */
  lemma {:induction false} DeleteAlone(site: Site, s: State, wanted: DeleteRequest, c: Choice)
    requires c.up && c.id !in s.issued
    ensures var s', t := Handled(site, s, Deleting(wanted), c, 3), |s.threads|;
            && t < |s'.threads| && s'.threads[t].Done?
            && s'.server ==
               if site.ref in s.server.secrets && DeleteMatches(s.server.secrets[site.ref].data, wanted)
                  && Free(s.server.secrets[site.ref].data)
               then AfterUpdate(s.server, site.ref, StartedData(s.server.secrets[site.ref].data, Deprovision, c.id))
               else s.server
  {
    var t := |s.threads|;
    var s0 := Step(site, s, Arrive(Deleting(wanted)));
    FirstMoves(site, s0, t, c);
    var s1 := Step(site, s0, Move(t, c));
    if site.ref in s.server.secrets {
      var copy := Fetched(s.server, site.ref);
      assert s1.threads[t] == Checking(wanted, copy);
      StartAlone(site, s1, t, copy, Remove, c);
    }
  }

  /** A poll with a terminal verdict takes two steps, and ends the operation in the second. */
  lemma {:induction false} EndAlone(site: Site, s: State, t: nat, query: PollRequest, c: Choice)
    requires c.up && t < |s.threads| && s.threads[t] == Polling(query) && site.ref in s.server.secrets
    requires var d := s.server.secrets[site.ref].data;
             PollVerdict(d, query).Terminal? && OperationType in d && HasText(d, OperationType)
    ensures var s' := Step(site, Step(site, s, Move(t, c)), Move(t, c));
            var d := s.server.secrets[site.ref].data;
            && t < |s'.threads| && s'.threads[t].Done?
            && s'.server == AfterUpdate(s.server, site.ref, EndedData(d))
            && s'.log == s.log + [Event.Ended(PollVerdict(d, query).id, PollVerdict(d, query).text)]
  {
    var d := s.server.secrets[site.ref].data;
    var copy, verdict := Fetched(s.server, site.ref), PollVerdict(d, query);
    assert Step(site, s, Move(t, c)) == Become(s, t, Ending(verdict.id, verdict.text, copy.(data := EndedData(d))));
  }

  /** Any other takes one, and leaves the store alone. */
  lemma {:induction false} RefuseAlone(site: Site, s: State, t: nat, query: PollRequest, c: Choice)
    requires c.up && t < |s.threads| && s.threads[t] == Polling(query) && site.ref in s.server.secrets
    requires var d := s.server.secrets[site.ref].data;
             PollVerdict(d, query).Terminal? ==> OperationType !in d || !HasText(d, OperationType)
    ensures var s' := Step(site, s, Move(t, c));
            var d := s.server.secrets[site.ref].data;
            && t < |s'.threads| && s'.threads[t].Done? && Step(site, s', Move(t, c)) == s' && s'.server == s.server
            && s'.log == s.log + if PollVerdict(d, query).StillRunning? && Complaints(d, query) == 0
                                 then [Running(query.operation.value)] else []
  {
  }

  /** What a poll's last answer puts on record. */
  function Recorded(d: Data, query: PollRequest, answer: Handlers.Response): seq<Event>
    requires query.operation.Ambiguous? || query.operation.NotGiven? ==> !answer.StillInProgress? && !answer.Ended?
  {
    match answer
    case StillInProgress => if Complaints(d, query) == 0 then [Running(query.operation.value)] else []
    case Ended(Succeeded) => [Event.Ended(query.operation.value, "")]
    case Ended(Failed(text)) => [Event.Ended(query.operation.value, text)]
    case _ => []
  }

  /** A poll ends the operation whose outcome it reports, as `Handlers.HandlePoll` has it. */
  lemma {:induction false} PollAlone(site: Site, s: State, query: PollRequest, c: Choice)
    returns (answer: Handlers.Response)
    requires c.up && site.ref in s.server.secrets
    ensures answer.StillInProgress? || answer.Ended? ==> query.operation.Given?
    ensures var s', t := Handled(site, s, Polling(query), c, 2), |s.threads|;
            var d := s.server.secrets[site.ref].data;
            && t < |s'.threads| && s'.threads[t].Done?
            && Handlers.PollAnswered(d, query, site.ref, answer, s.server, s'.server, true)
            && s'.log == s.log + Recorded(d, query, answer)
  {
    var t := |s.threads|;
    var s0 := Step(site, s, Arrive(Polling(query)));
    FirstMoves(site, s0, t, c);
    var d := s.server.secrets[site.ref].data;
    VerdictMeans(d, query);
    var ends := PollVerdict(d, query).Terminal? && OperationType in d && HasText(d, OperationType);
    if ends {
      EndAlone(site, s0, t, query, c);
      assert EndedData(d) == d - {OperationType, OperationID, OperationStatus};
    } else {
      RefuseAlone(site, s0, t, query, c);
    }
    match PollVerdict(d, query)
    case Refused => answer := Handlers.BadRequest;
    case Unreadable => answer := Handlers.ServerError;
    case StillRunning => answer := Handlers.StillInProgress;
    case Terminal(_, text) =>
      answer := if ends then Handlers.Ended(if text == "" then Succeeded else Failed(text)) else Handlers.ServerError;
  }

  /** A poll for an instance that is not stored changes nothing. */
  lemma {:induction false} PollGoneAlone(site: Site, s: State, query: PollRequest, c: Choice)
    requires c.up && site.ref !in s.server.secrets
    ensures var s', t := Handled(site, s, Polling(query), c, 2), |s.threads|;
            && t < |s'.threads| && s'.threads[t].Done? && s'.server == s.server && s'.log == s.log + [Gone]
  {
    var s0 := Step(site, s, Arrive(Polling(query)));
    FirstMoves(site, s0, |s.threads|, c);
  }

  /**
   In every run, and whatever query: a poll is told that the operation is in progress exactly while it is at work, and
   is told how it ended exactly once it has been completed; a query that names no operation asks about none.
  */
  lemma {:induction false} PollsTellThePhase(site: Site, actions: seq<Action>, query: PollRequest,
          answer: Handlers.Response, after: Server)
    requires var s := Run(site, actions);
             && site.ref in s.server.secrets
             && Handlers.PollAnswered(s.server.secrets[site.ref].data, query, site.ref, answer, s.server, after, true)
    ensures var i := Replay(Run(site, actions).log);
            var right := && i.Present? && Hints(query.service, i.origin.service) && Hints(query.plan, i.origin.plan)
                         && !query.service.Ambiguous? && !query.plan.Ambiguous?
                         && query.operation == Given(if i.phase.Idle? then "" else i.phase.id);
            && i.Present?
            && (answer.StillInProgress? <==> right && !i.phase.Finished?)
            && (answer.Ended? <==> right && i.phase.Finished?)
            && (answer.Ended? ==>
                  answer.state == match i.phase.result
                                  case Some(text) => if text != "" then Failed(text) else Succeeded
                                  case None => Succeeded)
            && (!right ==> answer == Handlers.BadRequest)
            && (!answer.Ended? ==> after == Run(site, actions).server)
  {
    var i := Replay(Run(site, actions).log);
    Safety.EveryRunIsSafe(site, actions);
    TextsAt(site.instanceId, i);
  }

  /** A create for a stored instance answers from what is stored, as `Handlers.HandleCreate` has it. */
  lemma {:induction false} CreateKnownAlone(site: Site, s: State, req: CreateRequest, c: Choice)
    requires c.up && site.ref in s.server.secrets
    ensures var s', t := Handled(site, s, Creating(req), c, 1), |s.threads|;
            && t < |s'.threads| && s'.threads[t].Done? && s'.server == s.server
            && s'.log == s.log + [Replied(req, ReplyToCreate(s.server.secrets[site.ref].data, req))]
  {
    var s0 := Step(site, s, Arrive(Creating(req)));
    FirstMoves(site, s0, |s.threads|, c);
  }

  lemma {:induction false} RegisterAlone(site: Site, s: State, t: nat, req: CreateRequest, c: Choice)
    requires c.up && t < |s.threads| && s.threads[t] == Creating(req) && site.ref !in s.server.secrets
    ensures var s2 := Step(site, Step(site, s, Move(t, c)), Move(t, c));
            match GetNamespace(site.decode, req.context, site.brokerNamespace)
            case Err(_) => s2 == Become(s, t, Done)
            case Ok(ns) =>
              var server := AfterCreate(s.server, site.ref, InitialData(site.instanceId, ns, req));
              && s2.server == server && s2.issued == s.issued && |s2.threads| == |s.threads|
              && s2.threads[t] == Preparing(req, ns, Fetched(server, site.ref))
  {
    var s1 := Step(site, s, Move(t, c));
    match GetNamespace(site.decode, req.context, site.brokerNamespace)
    case Err(_) =>
    case Ok(ns) => assert s1.threads[t] == Registering(req, ns, InitialData(site.instanceId, ns, req));
  }

  /** A create for a new instance registers it, and launches its provisioning with the computed values. */
  lemma {:induction false} CreateNewAlone(site: Site, s: State, req: CreateRequest, c: Choice)
    requires c.up && c.id !in s.issued && site.ref !in s.server.secrets
    ensures var s', t := Handled(site, s, Creating(req), c, 4), |s.threads|;
            var registered := Handlers.Registered(site.decode, s.server, site.ref, site.brokerNamespace,
                site.instanceId, req);
            && t < |s'.threads| && s'.threads[t].Done?
            && if registered.Err? then s'.server == s.server
               else if c.valid && Prepared(map[], c.values).Ok?
               then Handlers.Launched(registered.value, s'.server, site.ref,
                                      registered.value.secrets[site.ref].data + Written(c.values),
                                      Kind.Provision, c.id, c.result)
               else s'.server == registered.value
  {
    var t := |s.threads|;
    var s0 := Step(site, s, Arrive(Creating(req)));
    FirstMoves(site, s0, t, c);
    RegisterAlone(site, s0, t, req, c);
    var s2 := Step(site, Step(site, s0, Move(t, c)), Move(t, c));
    match GetNamespace(site.decode, req.context, site.brokerNamespace)
    case Err(_) =>
    case Ok(ns) => PrepareAlone(site, s2, t, req, ns, c);
  }

  lemma {:induction false} PrepareAlone(site: Site, s: State, t: nat, req: CreateRequest, ns: string, c: Choice)
    requires c.up && c.id !in s.issued && t < |s.threads| && site.ref in s.server.secrets
    requires s.threads[t] == Preparing(req, ns, Fetched(s.server, site.ref))
    requires OperationType !in s.server.secrets[site.ref].data
    ensures var s' := Step(site, Step(site, s, Move(t, c)), Move(t, c));
            && t < |s'.threads| && s'.threads[t].Done?
            && if c.valid && Prepared(map[], c.values).Ok?
               then Handlers.Launched(s.server, s'.server, site.ref,
                   s.server.secrets[site.ref].data + Written(c.values),
                                      Kind.Provision, c.id, c.result)
               else s'.server == s.server
  {
    var copy := Fetched(s.server, site.ref);
    PreparedUnlessReserved(map[], c.values);
    PreparedUnlessReserved(copy.data, c.values);
    if c.valid && Prepared(copy.data, c.values).Ok? {
      PreparedOverlays(copy.data, c.values);
      StartAlone(site, s, t, copy.(data := copy.data + Written(c.values)), ProvisionWith(Written(c.values)), c);
    }
  }
}
