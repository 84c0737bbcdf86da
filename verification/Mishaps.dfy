/** Runs of the protocol, action by action, in which users are told something that is not so. */
module Mishaps {
  import opened Json
  import opened Registry
  import opened Operation
  import opened Decisions
  import opened Lifecycle
  import opened Protocol
  import Safety

  lemma {:induction false} Play(site: Site, actions: seq<Action>, s: State, a: Action) returns (more: seq<Action>)
    requires Run(site, actions) == s
    ensures Run(site, more) == Step(site, s, a)
  {
    more := actions + [a];
    assert more[..|actions|] == actions;
  }

  /** The server once a request is registered, and the handler about to prepare it. */
  function Registered(site: Site, req: CreateRequest, ns: string): Server {
    AfterCreate(Server(map[], 0), site.ref, InitialData(site.instanceId, ns, req))
  }

  lemma {:induction false} RegisteredRun(site: Site, req: CreateRequest, ns: string, c: Choice)
    returns (actions: seq<Action>)
    requires GetNamespace(site.decode, req.context, site.brokerNamespace) == Ok(ns) && c.up
    ensures var server := Registered(site, req, ns);
            Run(site, actions) == State(server, [Preparing(req, ns, Fetched(server, site.ref))], {}, [Created(req, ns)])
  {
    var data := InitialData(site.instanceId, ns, req);
    actions := Play(site, [], START, Arrive(Creating(req)));
    actions := Play(site, actions, State(Server(map[], 0), [Creating(req)], {}, []), Move(0, c));
    actions := Play(site, actions, State(Server(map[], 0), [Registering(req, ns, data)], {}, []), Move(0, c));
  }

  /** A create whose preparation fails leaves its entry behind, and repeating it is answered with success. */
  lemma {:induction false} UnpreparedIsReady(site: Site, req: CreateRequest, ns: string, c: Choice)
    returns (actions: seq<Action>)
    requires GetNamespace(site.decode, req.context, site.brokerNamespace) == Ok(ns) && c.up && !c.valid
    requires IsCompact(req.context) && IsCompact(req.parameters)
    ensures Run(site, actions).log == [Created(req, ns), Replied(req, Ready(None))]
  {
    var server := Registered(site, req, ns);
    var copy := Fetched(server, site.ref);
    actions := RegisteredRun(site, req, ns, c);
    actions := Play(site, actions, State(server, [Preparing(req, ns, copy)], {}, [Created(req, ns)]), Move(0, c));
    actions := Play(site, actions, State(server, [Done], {}, [Created(req, ns)]), Arrive(Creating(req)));
    actions := Play(site, actions, State(server, [Done, Creating(req)], {}, [Created(req, ns)]), Move(1, c));
    var i := Present(req, ns, Stored(req.parameters), map[], true, Idle);
    assert DataOf(site.instanceId, i) == copy.data;
    ReplyIsExpected(site.instanceId, i, req);
  }

  function InPhase(req: CreateRequest, ns: string, phase: Phase): Instance {
    Present(req, ns, Stored(req.parameters), map[], false, phase)
  }

  function Started(site: Site, req: CreateRequest, ns: string, id: string): Server {
    AfterUpdate(Registered(site, req, ns), site.ref, StartedData(InitialData(site.instanceId, ns, req), Provision, id))
  }

  function Ran(site: Site, req: CreateRequest, ns: string, id: string, result: Option<string>): Server {
    var started := Started(site, req, ns, id);
    AfterUpdate(started, site.ref, CompletedData(started.secrets[site.ref].data, result))
  }

  lemma {:induction false} StartedRun(site: Site, req: CreateRequest, ns: string, c: Choice)
    returns (actions: seq<Action>)
    requires GetNamespace(site.decode, req.context, site.brokerNamespace) == Ok(ns) && c.up && c.valid && c.values == []
    ensures var started := Started(site, req, ns, c.id);
            Run(site, actions) == State(started, [Done, Working(Provision, c.id, Fetched(started, site.ref))], {c.id},
                                        [Created(req, ns), Accepted(c.id, ProvisionWith(map[]))])
  {
    var server, d := Registered(site, req, ns), InitialData(site.instanceId, ns, req);
    var copy := Fetched(server, site.ref);
    var starting := Starting(ProvisionWith(map[]), c.id, copy.(data := StartedData(d, Provision, c.id)));
    actions := RegisteredRun(site, req, ns, c);
    actions := Play(site, actions, State(server, [Preparing(req, ns, copy)], {}, [Created(req, ns)]), Move(0, c));
    assert Run(site, actions) == State(server, [starting], {c.id}, [Created(req, ns)]);
    actions := Play(site, actions, State(server, [starting], {c.id}, [Created(req, ns)]), Move(0, c));
  }

  lemma {:induction false} CompletedRun(site: Site, req: CreateRequest, ns: string, c: Choice)
    returns (actions: seq<Action>)
    requires GetNamespace(site.decode, req.context, site.brokerNamespace) == Ok(ns) && c.up && c.valid && c.values == []
    ensures var started := Started(site, req, ns, c.id);
            Run(site, actions) == State(Ran(site, req, ns, c.id, c.result), [Done, Done], {c.id},
                                        [Created(req, ns), Accepted(c.id, ProvisionWith(map[])),
                                         Completed(c.id, c.result)])
  {
    var started := Started(site, req, ns, c.id);
    var copy := Fetched(started, site.ref);
    var log := [Created(req, ns), Accepted(c.id, ProvisionWith(map[]))];
    var completing := Completing(Provision, c.id, c.result, copy.(data := CompletedData(copy.data, c.result)));
    actions := StartedRun(site, req, ns, c);
    actions := Play(site, actions, State(started, [Done, Working(Provision, c.id, copy)], {c.id}, log), Move(1, c));
    assert Run(site, actions) == State(started, [Done, completing], {c.id}, log);
    actions := Play(site, actions, State(started, [Done, completing], {c.id}, log), Move(1, c));
  }

  lemma {:induction false} RanDataOf(site: Site, req: CreateRequest, ns: string, id: string, result: Option<string>)
    ensures var server := Ran(site, req, ns, id, result);
            && site.ref in server.secrets
            && server.secrets[site.ref].data
                 == DataOf(site.instanceId, InPhase(req, ns, Finished(id, Provision, result)))
  {
    var base := InitialData(site.instanceId, ns, req);
    assert base[Parameters := Stored(req.parameters)] == base;
  }

  /** What a poll reads once the run has ended, and what it leaves. */
  lemma {:induction false} RanData(site: Site, req: CreateRequest, ns: string, id: string, result: Option<string>)
    ensures var server := Ran(site, req, ns, id, result);
            && site.ref in server.secrets
            && var d := server.secrets[site.ref].data;
            && PollVerdict(d, PollRequest(Given(id), NotGiven, NotGiven)) == Terminal(id, StatusText(result))
            && GetString(d, OperationType) == Ok(Some(KindName(Provision)))
            && EndedData(d) == DataOf(site.instanceId, InPhase(req, ns, Idle))
  {
    var i := InPhase(req, ns, Finished(id, Provision, result));
    RanDataOf(site, req, ns, id, result);
    IdentityAt(site.instanceId, i);
    OperationAt(site.instanceId, i);
    Safety.EndedDataOf(site.instanceId, i);
  }

  /** A provisioning, whatever its outcome, whose end is about to be polled. */
  lemma {:induction false} PolledRun(site: Site, req: CreateRequest, ns: string, c: Choice)
    returns (actions: seq<Action>)
    requires GetNamespace(site.decode, req.context, site.brokerNamespace) == Ok(ns) && c.up && c.valid && c.values == []
    ensures var ran := Ran(site, req, ns, c.id, c.result);
            var copy := Fetched(ran, site.ref);
            Run(site, actions) ==
              State(ran, [Done, Done, Ending(c.id, StatusText(c.result), copy.(data := EndedData(copy.data)))], {c.id},
                    [Created(req, ns), Accepted(c.id, ProvisionWith(map[])), Completed(c.id, c.result)])
  {
    var ran := Ran(site, req, ns, c.id, c.result);
    var log := [Created(req, ns), Accepted(c.id, ProvisionWith(map[])), Completed(c.id, c.result)];
    var query := PollRequest(Given(c.id), NotGiven, NotGiven);
    actions := CompletedRun(site, req, ns, c);
    actions := Play(site, actions, State(ran, [Done, Done], {c.id}, log), Arrive(Polling(query)));
    actions := Play(site, actions, State(ran, [Done, Done, Polling(query)], {c.id}, log), Move(2, c));
    RanData(site, req, ns, c.id, c.result);
  }

  /** A provisioning, whatever its outcome, whose end has been polled. */
  lemma {:induction false} EndedRun(site: Site, req: CreateRequest, ns: string, c: Choice)
    returns (actions: seq<Action>)
    requires GetNamespace(site.decode, req.context, site.brokerNamespace) == Ok(ns) && c.up && c.valid && c.values == []
    ensures var s := Run(site, actions);
            && s.log == [Created(req, ns), Accepted(c.id, ProvisionWith(map[])), Completed(c.id, c.result),
                         Ended(c.id, StatusText(c.result))]
            && s.threads == [Done, Done, Done] && site.ref in s.server.secrets
            && s.server.secrets[site.ref].data == DataOf(site.instanceId, InPhase(req, ns, Idle))
  {
    actions := PolledRun(site, req, ns, c);
    actions := Play(site, actions, Run(site, actions), Move(2, c));
    RanData(site, req, ns, c.id, c.result);
  }

  /** A run that fails with an error that has no text is reported as succeeded. */
  lemma {:induction false} SilentFailureSucceeds(site: Site, req: CreateRequest, ns: string, c: Choice)
    returns (actions: seq<Action>)
    requires GetNamespace(site.decode, req.context, site.brokerNamespace) == Ok(ns) && c.up && c.valid && c.values == []
    requires c.result == Some("")
    ensures var log := Run(site, actions).log;
            && |log| == 4 && log[2] == Completed(c.id, Some("")) && log[3].Ended? && log[3].id == c.id
            && TerminalState(log[3].text) == Succeeded
  {
    actions := EndedRun(site, req, ns, c);
  }

  /** Repeating a create whose provisioning failed, and was reported as failed, is answered with success. */
  lemma {:induction false} FailedIsReady(site: Site, req: CreateRequest, ns: string, c: Choice, text: string)
    returns (actions: seq<Action>)
    requires GetNamespace(site.decode, req.context, site.brokerNamespace) == Ok(ns) && c.up && c.valid && c.values == []
    requires c.result == Some(text) && text != "" && IsCompact(req.context) && IsCompact(req.parameters)
    ensures var log := Run(site, actions).log;
            && |log| == 5 && log[3] == Ended(c.id, text) && TerminalState(text) == Failed(text)
            && log[4] == Replied(req, Ready(None))
  {
    actions := EndedRun(site, req, ns, c);
    var s := Run(site, actions);
    var arrived := Step(site, s, Arrive(Creating(req)));
    actions := Play(site, actions, s, Arrive(Creating(req)));
    assert arrived.threads[3] == Creating(req);
    actions := Play(site, actions, arrived, Move(3, c));
    ReplyIsExpected(site.instanceId, InPhase(req, ns, Idle), req);
  }
}
