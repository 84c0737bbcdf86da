/**
 The persistence layer: registry entries, the keys in them and who may touch those keys.

 What it relies on from the Kubernetes API server: creating an existing name fails, and an update carrying a
 stale resource version fails.
*/
module Registry {
  import opened Json

  /** The keys the broker manages, and any other name a configuration may use. */
  datatype Key =
    | Namespace
    | InstanceID
    | ServiceID
    | PlanID
    | Context
    | Parameters
    | OperationType
    | OperationID
    | OperationStatus
    | DashboardURL
    | Credentials
    | Other(name: string)

  function NameOf(key: Key): string {
    match key
    case Namespace => "namespace"
    case InstanceID => "instance-id"
    case ServiceID => "service-id"
    case PlanID => "plan-id"
    case Context => "context"
    case Parameters => "parameters"
    case OperationType => "operation"
    case OperationID => "operation-id"
    case OperationStatus => "operation-status"
    case DashboardURL => "dashboard-url"
    case Credentials => "credentials"
    case Other(name) => name
  }

  /** The key a name stands for; different names stand for different keys. */
  function KeyOf(name: string): (key: Key)
    ensures NameOf(key) == name
  {
    match name
    case "namespace" => Namespace
    case "instance-id" => InstanceID
    case "service-id" => ServiceID
    case "plan-id" => PlanID
    case "context" => Context
    case "parameters" => Parameters
    case "operation" => OperationType
    case "operation-id" => OperationID
    case "operation-status" => OperationStatus
    case "dashboard-url" => DashboardURL
    case "credentials" => Credentials
    case _ => Other(name)
  }

  /**
   A registry secret's data. Every value is stored as JSON; the raw extensions of a request, which come back as the
   texts they are stored as, stand here as strings holding those texts.
  */
  type Data = map<Key, Json>

  datatype KeyPolicy = KeyPolicy(name: Key, read: bool, write: bool)

  const KEY_POLICIES: seq<KeyPolicy> := [
    KeyPolicy(Namespace, true, false),
    KeyPolicy(InstanceID, true, false),
    KeyPolicy(ServiceID, true, false),
    KeyPolicy(PlanID, true, false),
    KeyPolicy(Context, false, false),
    KeyPolicy(Parameters, false, false),
    KeyPolicy(OperationType, false, false),
    KeyPolicy(OperationID, false, false),
    KeyPolicy(OperationStatus, false, false),
    KeyPolicy(DashboardURL, true, true),
    KeyPolicy(Credentials, true, true)
  ]

  function FindPolicy(name: Key, from: nat): Option<KeyPolicy>
    requires from <= |KEY_POLICIES|
    decreases |KEY_POLICIES| - from
  {
    if from == |KEY_POLICIES| then None
    else if KEY_POLICIES[from].name == name then Some(KEY_POLICIES[from])
    else FindPolicy(name, from + 1)
  }

  predicate Readable(name: Key) {
    var policy := FindPolicy(name, 0);
    policy.None? || policy.value.read
  }

  predicate Writable(name: Key) {
    var policy := FindPolicy(name, 0);
    policy.None? || policy.value.write
  }

  /** The keys the broker keeps to itself. */
  predicate Reserved(key: Key) {
    !key.DashboardURL? && !key.Credentials? && !key.Other?
  }

  /** The keys of the request and of the operation in flight. */
  predicate Hidden(key: Key) {
    key.Context? || key.Parameters? || key.OperationType? || key.OperationID? || key.OperationStatus?
  }

  /** Templates may write exactly the unreserved keys, and read all but the hidden ones. */
  lemma {:induction false} KeyAccess(key: Key)
    ensures Writable(key) <==> !Reserved(key)
    ensures Readable(key) <==> !Hidden(key)
  {
    assert FindPolicy(key, 11) == None;
    assert FindPolicy(key, 9) == if key == DashboardURL then Some(KEY_POLICIES[9]) else FindPolicy(key, 10);
    assert FindPolicy(key, 7) == if key == OperationID then Some(KEY_POLICIES[7]) else FindPolicy(key, 8);
    assert FindPolicy(key, 5) == if key == Parameters then Some(KEY_POLICIES[5]) else FindPolicy(key, 6);
    assert FindPolicy(key, 3) == if key == PlanID then Some(KEY_POLICIES[3]) else FindPolicy(key, 4);
    assert FindPolicy(key, 1) == if key == InstanceID then Some(KEY_POLICIES[1]) else FindPolicy(key, 2);
  }

  // ---- The store ----

  datatype Ref = Ref(namespace: string, name: string)

  datatype Secret = Secret(data: Data, version: nat, uid: nat)

  /** Versions are drawn from one ever growing clock, as they are in etcd. */
  datatype Server = Server(secrets: map<Ref, Secret>, clock: nat)

  datatype Failure = NotFound | AlreadyExists | Conflict | Unavailable | ReadOnly | OperationExists | NoOperation
      | Malformed | NotWritable

  predicate CanCreate(s: Server, ref: Ref) {
    ref !in s.secrets
  }

  predicate CanUpdate(s: Server, ref: Ref, version: nat) {
    ref in s.secrets && s.secrets[ref].version == version
  }

  function AfterCreate(s: Server, ref: Ref, data: Data): Server {
    Server(s.secrets[ref := Secret(data, s.clock + 1, s.clock + 1)], s.clock + 1)
  }

  function AfterUpdate(s: Server, ref: Ref, data: Data): Server
    requires ref in s.secrets
  {
    Server(s.secrets[ref := Secret(data, s.clock + 1, s.secrets[ref].uid)], s.clock + 1)
  }

  function AfterDelete(s: Server, ref: Ref): Server {
    Server(s.secrets - {ref}, s.clock + 1)
  }

  // ---- Names ----

  datatype Type = ServiceInstance | ServiceBinding

  function TypeName(t: Type): string {
    match t
    case ServiceInstance => "service-instance"
    case ServiceBinding => "service-binding"
  }

  function Name(t: Type, name: string): string {
    "registry-" + TypeName(t) + "-" + name
  }

  /** Instances and bindings, whatever their identifiers, never share a secret name. */
  lemma {:induction false} NamesNeverCollide(t: Type, a: string, u: Type, b: string)
    ensures Name(t, a) == Name(u, b) <==> t == u && a == b
  {
    if t != u {
      assert Name(ServiceInstance, a)[17] == 'i' && Name(ServiceInstance, b)[17] == 'i';
      assert Name(ServiceBinding, a)[17] == 'b' && Name(ServiceBinding, b)[17] == 'b';
    } else {
      var prefix := "registry-" + TypeName(t) + "-";
      assert Name(t, a)[|prefix|..] == a && Name(t, b)[|prefix|..] == b;
    }
  }

  // ---- Reading values ----

  /** Decoding into a string leaves it empty for null and fails for any other type. */
  function GetString(d: Data, key: Key): Result<Option<string>> {
    if key !in d then Ok(None)
    else match d[key]
      case JString(s) => Ok(Some(s))
      case JNull => Ok(Some(""))
      case _ => Err("cannot unmarshal into a string")
  }

  /** What is stored, if anything, decodes into a string: it is one, or null. */
  predicate HasText(d: Data, key: Key) {
    key in d ==> d[key].JString? || d[key].JNull?
  }

  /** The text under a key; Go's empty string where nothing or null is stored. */
  function TextAt(d: Data, key: Key): string {
    if key in d && d[key].JString? then d[key].s else ""
  }

  /** The template function's view of the registry: reserved keys are refused, missing ones are null. */
  function GetUser(d: Data, key: Key): Result<Json> {
    if !Readable(key) then Err("registry key cannot be read")
    else Ok(if key in d then d[key] else JNull)
  }

  /** It fails exactly for the keys hidden from templates. */
  lemma {:induction false} HiddenFromTemplates(d: Data, key: Key)
    ensures GetUser(d, key).Err? <==> Hidden(key)
    ensures !Hidden(key) ==> GetUser(d, key) == Ok(if key in d then d[key] else JNull)
  {
    KeyAccess(key);
  }

  // ---- Entries ----

  /**
   The API server, as a client sees it: unless it is reliable any call may also fail for no reason, changing nothing.
  */
  class ApiServer {
    const reliable: bool
    var state: Server

    constructor (s: Server, reliable: bool)
      ensures state == s && this.reliable == reliable
    {
      this.state, this.reliable := s, reliable;
    }

    method Fetch(ref: Ref) returns (r: Result<Option<Secret>>)
      ensures r.Ok? ==> r.value == if ref in state.secrets then Some(state.secrets[ref]) else None
      ensures reliable ==> r.Ok?
    {
      var up: bool := *;
      if !up && !reliable { return Err("unavailable"); }
      r := Ok(if ref in state.secrets then Some(state.secrets[ref]) else None);
    }

    method Create(ref: Ref, data: Data) returns (failure: Option<Failure>)
      modifies this
      ensures failure.None? ==> old(CanCreate(state, ref)) && state == old(AfterCreate(state, ref, data))
      ensures failure.Some? ==> state == old(state)
      ensures failure == Some(AlreadyExists) ==> !CanCreate(state, ref)
      ensures failure.Some? ==> failure.value in {AlreadyExists, Unavailable}
      ensures reliable ==> failure != Some(Unavailable)
    {
      var up: bool := *;
      if !up && !reliable { return Some(Unavailable); }
      if ref in state.secrets { return Some(AlreadyExists); }
      state := AfterCreate(state, ref, data);
      return None;
    }

    method Update(ref: Ref, data: Data, version: nat) returns (failure: Option<Failure>)
      modifies this
      ensures failure.None? ==> old(CanUpdate(state, ref, version)) && state == old(AfterUpdate(state, ref, data))
      ensures failure.Some? ==> state == old(state)
      ensures failure in {Some(NotFound), Some(Conflict)} ==> !CanUpdate(state, ref, version)
      ensures failure.Some? ==> failure.value in {NotFound, Conflict, Unavailable}
      ensures reliable ==> failure != Some(Unavailable)
    {
      var up: bool := *;
      if !up && !reliable { return Some(Unavailable); }
      if ref !in state.secrets { return Some(NotFound); }
      if state.secrets[ref].version != version { return Some(Conflict); }
      state := AfterUpdate(state, ref, data);
      return None;
    }

    method Delete(ref: Ref) returns (failure: Option<Failure>)
      modifies this
      ensures failure.None? ==> old(ref in state.secrets) && state == old(AfterDelete(state, ref))
      ensures failure.Some? ==> state == old(state)
      ensures failure.Some? ==> failure.value in {NotFound, Unavailable}
      ensures failure == Some(NotFound) ==> ref !in state.secrets
      ensures reliable ==> failure != Some(Unavailable)
    {
      var up: bool := *;
      if !up && !reliable { return Some(Unavailable); }
      if ref !in state.secrets { return Some(NotFound); }
      state := AfterDelete(state, ref);
      return None;
    }
  }

  /** The local copy of a secret that an entry edits before committing it. */
  class LocalSecret {
    const ref: Ref
    var data: Data
    var version: nat
    var uid: nat

    constructor (ref: Ref, data: Data, version: nat, uid: nat)
      ensures this.ref == ref && this.data == data && this.version == version && this.uid == uid
    {
      this.ref, this.data, this.version, this.uid := ref, data, version, uid;
    }
  }

  /** What an entry holds, as a value. */
  datatype View = View(ref: Ref, data: Data, version: nat, uid: nat, exists_: bool, readOnly: bool)

  datatype OwnerReference = OwnerReference(name: string, uid: nat)

  class Entry {
    var secret: LocalSecret
    var exists_: bool
    var readOnly: bool

    constructor (secret: LocalSecret, exists_: bool, readOnly: bool)
      ensures this.secret == secret && this.exists_ == exists_ && this.readOnly == readOnly
    {
      this.secret, this.exists_, this.readOnly := secret, exists_, readOnly;
    }

    ghost function Held(): View
      reads this, secret
    {
      View(secret.ref, secret.data, secret.version, secret.uid, exists_, readOnly)
    }

    /** Fetches the entry, or starts an empty one that does not exist yet. */
    static method New(api: ApiServer, t: Type, namespace: string, name: string, readOnly: bool)
      returns (r: Result<Entry>)
      ensures api.reliable ==> r.Ok?
      ensures r.Ok? ==>
                var ref := Ref(namespace, Name(t, name));
                && fresh(r.value) && fresh(r.value.secret)
                && r.value.Held() ==
                   if ref in api.state.secrets
                   then View(ref, api.state.secrets[ref].data, api.state.secrets[ref].version,
                       api.state.secrets[ref].uid, true, readOnly)
                   else View(ref, map[], 0, 0, false, readOnly)
    {
      var ref := Ref(namespace, Name(t, name));
      var fetched := api.Fetch(ref);
      match fetched
      case Err(e) => return Err(e);
      case Ok(None) =>
        var local := new LocalSecret(ref, map[], 0, 0);
        var entry := new Entry(local, false, readOnly);
        return Ok(entry);
      case Ok(Some(found)) =>
        var local := new LocalSecret(ref, found.data, found.version, found.uid);
        var entry := new Entry(local, true, readOnly);
        return Ok(entry);
    }

    /** The clone reads the same, can never write, and shares nothing with the original. */
    method Clone() returns (c: Entry)
      ensures fresh(c) && fresh(c.secret)
      ensures c.Held() == Held().(readOnly := true)
    {
      var copied := new LocalSecret(secret.ref, secret.data, secret.version, secret.uid);
      c := new Entry(copied, exists_, true);
    }

    /** A binding starts from everything its instance holds. */
    method Inherit(o: Entry)
      modifies secret
      ensures Held() == old(Held()).(data := old(secret.data) + old(o.secret.data))
    {
      secret.data := secret.data + o.secret.data;
    }

    method Set(key: Key, value: Json)
      modifies secret
      ensures Held() == old(Held()).(data := old(secret.data)[key := value])
    {
      secret.data := secret.data[key := value];
    }

    method SetUser(key: Key, value: Json) returns (failure: Option<Failure>)
      modifies secret
      ensures failure == if Writable(key) then None else Some(NotWritable)
      ensures Held() == old(Held()).(data := if Writable(key) then old(secret.data)[key := value] else old(secret.data))
    {
      if !Writable(key) { return Some(NotWritable); }
      Set(key, value);
      return None;
    }

    method Unset(key: Key)
      modifies secret
      ensures Held() == old(Held()).(data := old(secret.data) - {key})
    {
      secret.data := secret.data - {key};
    }

    /**
     Sends the whole local copy. It lands exactly on the stored version it was fetched at, or on no secret at
     all if there was none; otherwise neither the store nor the local copy changes.
    */
    method Commit(api: ApiServer) returns (failure: Option<Failure>)
      modifies this, secret, api
      ensures secret == old(secret) || fresh(secret)
      ensures failure.None? ==>
                && !old(readOnly)
                && (if old(exists_) then old(CanUpdate(api.state, secret.ref, secret.version))
                    else old(CanCreate(api.state, secret.ref)))
                && api.state == (if old(exists_) then old(AfterUpdate(api.state, secret.ref, secret.data))
                                 else old(AfterCreate(api.state, secret.ref, secret.data)))
                && Held() == View(old(secret.ref), old(secret.data), api.state.clock,
                                  api.state.secrets[old(secret.ref)].uid, true, false)
      ensures failure.Some? ==> api.state == old(api.state) && Held() == old(Held())
      ensures failure.Some? ==> failure.value in {ReadOnly, AlreadyExists, NotFound, Conflict, Unavailable}
      ensures api.reliable ==> failure != Some(Unavailable)
      ensures failure.Some? && failure != Some(Unavailable) ==>
                || old(readOnly)
                || (if old(exists_) then !old(CanUpdate(api.state, secret.ref, secret.version))
                    else !old(CanCreate(api.state, secret.ref)))
    {
      if readOnly { return Some(ReadOnly); }
      if exists_ {
        failure := api.Update(secret.ref, secret.data, secret.version);
      } else {
        failure := api.Create(secret.ref, secret.data);
      }
      if failure.Some? { return; }
      var stored := api.state.secrets[secret.ref];
      secret := new LocalSecret(secret.ref, stored.data, stored.version, stored.uid);
      exists_ := true;
    }

    /** Deletes by name, whatever version is stored. */
    method Delete(api: ApiServer) returns (failure: Option<Failure>)
      modifies api
      ensures readOnly ==> failure == Some(ReadOnly)
      ensures failure.None? ==>
                api.state == if exists_ then AfterDelete(old(api.state), secret.ref) else old(api.state)
      ensures failure.Some? ==> api.state == old(api.state)
      ensures api.reliable && !readOnly && (exists_ ==> secret.ref in old(api.state).secrets) ==> failure.None?
    {
      if readOnly { return Some(ReadOnly); }
      if !exists_ { return None; }
      failure := api.Delete(secret.ref);
    }

    method GetOwnerReference() returns (o: OwnerReference)
      ensures o == OwnerReference(secret.ref.name, secret.uid)
    {
      o := OwnerReference(secret.ref.name, secret.uid);
    }
  }
}
