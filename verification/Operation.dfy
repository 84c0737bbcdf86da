/** The asynchronous operation recorded on a registry entry: started, completed with a status, ended. */
module Operation {
  import opened Json
  import opened Registry

  datatype Kind = Provision | Update | Deprovision

  function KindName(kind: Kind): string {
    match kind
    case Provision => "provision"
    case Update => "update"
    case Deprovision => "deprovision"
  }

  /** Different kinds are stored under different names. */
  lemma {:induction false} KindsDiffer(kind: Kind, other: Kind)
    ensures KindName(kind) == KindName(other) <==> kind == other
  {
    assert KindName(Provision)[0] == 'p' && KindName(Update)[0] == 'u' && KindName(Deprovision)[0] == 'd';
  }

  /** The stored status: the text of the error the operation ended with, empty for none. */
  function StatusText(result: Option<string>): string {
    if result.Some? then result.value else ""
  }

  function StartedData(d: Data, kind: Kind, id: string): Data {
    d[OperationType := JString(KindName(kind))][OperationID := JString(id)]
  }

  function CompletedData(d: Data, result: Option<string>): Data {
    d[OperationStatus := JString(StatusText(result))]
  }

  function EndedData(d: Data): Data {
    d - {OperationType} - {OperationID} - {OperationStatus}
  }

  /**
   The edited local copy was committed; or it was not, because it can not be or the API is down, and nothing changed.
  */
  ghost predicate Sent(before: View, after: View, api: Server, api': Server, failure: Option<Failure>) {
    var lands :=
      && !before.readOnly
      && if before.exists_ then CanUpdate(api, before.ref, before.version) else CanCreate(api, before.ref);
    if failure.Some? then api' == api && after == before && (failure != Some(Unavailable) ==> !lands)
    else
      && lands
      && api' == (if before.exists_ then AfterUpdate(api, before.ref, before.data)
                  else AfterCreate(api, before.ref, before.data))
      && after.ref == before.ref && after.data == before.data && after.version == api'.clock
      && after.exists_ && !after.readOnly
  }

  /** Refuses, touching nothing, if the local copy records an operation; else records one and commits it. */
  method Start(entry: Entry, api: ApiServer, kind: Kind, id: string) returns (failure: Option<Failure>)
    modifies entry, entry.secret, api
    ensures entry.secret == old(entry.secret) || fresh(entry.secret)
    ensures api.reliable ==> failure != Some(Unavailable)
    ensures !old(GetString(entry.secret.data, OperationType).Ok?) ==> failure == Some(Malformed)
    ensures (&& old(GetString(entry.secret.data, OperationType)).Ok?
             && old(GetString(entry.secret.data, OperationType)).value.Some?) ==>
              failure == Some(OperationExists)
    ensures failure in {Some(Malformed), Some(OperationExists)} ==>
              api.state == old(api.state) && entry.Held() == old(entry.Held())
    ensures old(GetString(entry.secret.data, OperationType)) == Ok(None) ==>
              Sent(old(entry.Held()).(data := StartedData(old(entry.secret.data), kind, id)), entry.Held(),
                   old(api.state), api.state, failure)
  {
    var op := GetString(entry.secret.data, OperationType);
    if op.Err? { return Some(Malformed); }
    if op.value.Some? { return Some(OperationExists); }
    entry.Set(OperationType, JString(KindName(kind)));
    entry.Set(OperationID, JString(id));
    failure := entry.Commit(api);
  }

  method Complete(entry: Entry, api: ApiServer, status: Option<string>) returns (failure: Option<Failure>)
    modifies entry, entry.secret, api
    ensures entry.secret == old(entry.secret) || fresh(entry.secret)
    ensures api.reliable ==> failure != Some(Unavailable)
    ensures old(GetString(entry.secret.data, OperationType)) == Ok(None) ==>
              failure == Some(NoOperation) && api.state == old(api.state) && entry.Held() == old(entry.Held())
    ensures (&& old(GetString(entry.secret.data, OperationType)).Ok?
             && old(GetString(entry.secret.data, OperationType)).value.Some?) ==>
              Sent(old(entry.Held()).(data := CompletedData(old(entry.secret.data), status)), entry.Held(),
                   old(api.state), api.state, failure)
    ensures old(GetString(entry.secret.data, OperationType)).Err? ==>
              failure == Some(Malformed) && api.state == old(api.state) && entry.Held() == old(entry.Held())
  {
    var op := GetString(entry.secret.data, OperationType);
    if op.Err? { return Some(Malformed); }
    if op.value.None? { return Some(NoOperation); }
    entry.Set(OperationStatus, JString(StatusText(status)));
    failure := entry.Commit(api);
  }

  method End(entry: Entry, api: ApiServer) returns (failure: Option<Failure>)
    modifies entry, entry.secret, api
    ensures entry.secret == old(entry.secret) || fresh(entry.secret)
    ensures api.reliable ==> failure != Some(Unavailable)
    ensures old(GetString(entry.secret.data, OperationType)) == Ok(None) ==>
              failure == Some(NoOperation) && api.state == old(api.state) && entry.Held() == old(entry.Held())
    ensures (&& old(GetString(entry.secret.data, OperationType)).Ok?
             && old(GetString(entry.secret.data, OperationType)).value.Some?) ==>
              Sent(old(entry.Held()).(data := EndedData(old(entry.secret.data))), entry.Held(),
                   old(api.state), api.state, failure)
    ensures old(GetString(entry.secret.data, OperationType)).Err? ==>
              failure == Some(Malformed) && api.state == old(api.state) && entry.Held() == old(entry.Held())
  {
    var op := GetString(entry.secret.data, OperationType);
    if op.Err? { return Some(Malformed); }
    if op.value.None? { return Some(NoOperation); }
    entry.Unset(OperationType);
    entry.Unset(OperationID);
    entry.Unset(OperationStatus);
    failure := entry.Commit(api);
  }
}
