/**
 The directory: one secret in the broker's namespace that says in which namespace the registry entry of each
 service instance lives. Instances it does not list are looked for in the broker's namespace.
*/
module Directory {
  import opened Json
  import opened Cluster
  import Config
  import Decisions

  const DIRECTORY_NAME: string := "couchbase-service-broker-directory"

  function SecretRef(namespace: string): Ref {
    Ref("v1", "Secret", namespace, DIRECTORY_NAME)
  }

  function EntryJson(namespace: string): Json {
    JMap(map["namespace" := JString(namespace)])
  }

  /** The directory's contents in a cluster; none if the secret does not exist. */
  function Contents(c: Cluster, brokerNamespace: string): map<string, Json> {
    var ref := SecretRef(brokerNamespace);
    if ref in c.objects && c.objects[ref].body.JMap? then c.objects[ref].body.entries else map[]
  }

  /** What a listed entry says; one without a namespace says the empty one, as Go's decoder does. */
  function Decoded(data: Json): Result<string> {
    match data
    case JMap(entries) =>
      (match Get(data, "namespace")
       case Some(JString(n)) => Ok(n)
       case Some(JNull) => Ok("")
       case None => Ok("")
       case _ => Err("cannot unmarshal"))
    case JNull => Ok("")
    case _ => Err("cannot unmarshal")
  }

  /** Where handlers look for an instance. */
  function Resolve(c: Cluster, brokerNamespace: string, instanceId: string): string {
    var d := Contents(c, brokerNamespace);
    if instanceId in d && Decoded(d[instanceId]).Ok? then Decoded(d[instanceId]).value else brokerNamespace
  }

  /** Where a new instance's entry goes, by the binding's registry scope. */
  function RegistryNamespace(decode: string -> Json, binding: Config.Binding, context: Option<Decisions.Raw>,
          brokerNamespace: string): Result<string>
  {
    match binding.scope
    case Unscoped => Ok(brokerNamespace)
    case BrokerLocal => Ok(brokerNamespace)
    case Explicit => Ok(binding.registryNamespace)
    case InstanceLocal => Decisions.GetNamespace(decode, context, brokerNamespace)
  }

  /** The namespace a new instance is listed at, scope by scope. */
  predicate ListedFor(decode: string -> Json, binding: Config.Binding, context: Option<Decisions.Raw>,
          brokerNamespace: string, namespace: string)
  {
    match binding.scope
    case Explicit => namespace == binding.registryNamespace
    case InstanceLocal => Decisions.NamespaceTaken(decode, context, brokerNamespace, namespace)
    case _ => namespace == brokerNamespace
  }

  lemma {:induction false} ScopeDecides(decode: string -> Json, binding: Config.Binding, context: Option<Decisions.Raw>,
          brokerNamespace: string, namespace: string)
    ensures RegistryNamespace(decode, binding, context, brokerNamespace) == Ok(namespace) <==>
              && ListedFor(decode, binding, context, brokerNamespace, namespace)
              && (binding.scope.InstanceLocal? ==> !Decisions.NamesNoString(decode, context))
    ensures RegistryNamespace(decode, binding, context, brokerNamespace).Err? <==>
              binding.scope.InstanceLocal? && Decisions.NamesNoString(decode, context)
  {
    Decisions.NamespaceIsTaken(decode, context, brokerNamespace, namespace);
  }

  /** An entry counts if it is an object whose namespace, if it has one, is a string; else the instance is unlisted. */
  lemma {:induction false} ResolvesTo(c: Cluster, brokerNamespace: string, instanceId: string)
    ensures var d, namespace := Contents(c, brokerNamespace), Resolve(c, brokerNamespace, instanceId);
            if instanceId !in d then namespace == brokerNamespace
            else
              var listed := Get(d[instanceId], "namespace");
              && (listed.Some? && listed.value.JString? ==> namespace == listed.value.s)
              && (listed.Some? && !listed.value.JString? && !listed.value.JNull? ==> namespace == brokerNamespace)
              && (!d[instanceId].JMap? && !d[instanceId].JNull? ==> namespace == brokerNamespace)
              && (d[instanceId].JNull? || (d[instanceId].JMap? && (listed.None? || listed.value.JNull?)) ==>
                    namespace == "")
  {
  }

  class Directory {
    const ref: Ref
    var data: map<string, Json>
    var version: nat
    var exists_: bool

    constructor (ref: Ref, data: map<string, Json>, version: nat, exists_: bool)
      ensures this.ref == ref && this.data == data && this.version == version && this.exists_ == exists_
    {
      this.ref, this.data, this.version, this.exists_ := ref, data, version, exists_;
    }

    /** The local copy is of what the cluster stores. */
    ghost predicate Current(c: Cluster)
      reads this
    {
      if exists_ then ref in c.objects && c.objects[ref] == Live(JMap(data), version)
      else ref !in c.objects && data == map[]
    }

    /** Whether committing the local copy will be accepted. */
    ghost predicate Storable(c: Cluster)
      reads this
    {
      if exists_ then ref in c.objects && c.objects[ref].version == version else ref !in c.objects
    }

    static method New(api: ApiServer, brokerNamespace: string) returns (r: Result<Directory>)
      requires SecretRef(brokerNamespace) in api.state.objects ==>
          api.state.objects[SecretRef(brokerNamespace)].body.JMap?
      ensures api.reliable ==> r.Ok?
      ensures r.Ok? ==> fresh(r.value) && r.value.ref == SecretRef(brokerNamespace) && r.value.Current(api.state)
    {
      var ref := SecretRef(brokerNamespace);
      var secret := api.Get(ref);
      if secret.Err? { return Err(secret.error); }
      var d: Directory;
      if secret.value.None? {
        d := new Directory(ref, map[], 0, false);
      } else {
        d := new Directory(ref, secret.value.value.body.entries, secret.value.value.version, true);
      }
      return Ok(d);
    }

    /** Stores the local copy over the version it was fetched at, or where no directory was. */
    method Commit(api: ApiServer) returns (ok: bool)
      modifies this`version, this`exists_, api
      ensures !ok ==> api.state == old(api.state) && version == old(version) && exists_ == old(exists_)
      ensures api.reliable && old(Storable(api.state)) ==> ok
      ensures ok ==>
                && old(Storable(api.state))
                && api.state == AfterCreate(old(api.state), ref, JMap(data))
                && Current(api.state)
    {
      if exists_ {
        ok := api.Update(Write(ref, JMap(data), version));
      } else {
        var failure := api.Create(ref, JMap(data));
        ok := failure.None?;
      }
      if ok {
        version := api.state.objects[ref].version;
        exists_ := true;
      }
    }

    method Add(api: ApiServer, instanceId: string, namespace: string) returns (ok: bool)
      modifies this, api
      ensures data == old(data)[instanceId := EntryJson(namespace)]
      ensures !ok ==> api.state == old(api.state)
      ensures ok ==> Current(api.state) && api.state == AfterCreate(old(api.state), ref, JMap(data))
      ensures ok ==> old(Storable(api.state))
      ensures api.reliable && old(Storable(api.state)) ==> ok
    {
      data := data[instanceId := EntryJson(namespace)];
      ok := Commit(api);
    }

    method Lookup(instanceId: string) returns (r: Result<string>)
      ensures r == if instanceId in data then Decoded(data[instanceId]) else Err("directory entry missing")
    {
      if instanceId !in data { return Err("directory entry missing"); }
      return Decoded(data[instanceId]);
    }

    method Remove(api: ApiServer, instanceId: string) returns (ok: bool)
      modifies this, api
      ensures data == old(data) - {instanceId}
      ensures !ok ==> api.state == old(api.state)
      ensures ok ==> instanceId in old(data) && Current(api.state)
                     && api.state == AfterCreate(old(api.state), ref, JMap(data))
      ensures ok ==> old(Storable(api.state))
      ensures api.reliable && old(Storable(api.state)) && instanceId in old(data) ==> ok
    {
      if instanceId !in data { return false; }
      data := data - {instanceId};
      ok := Commit(api);
    }
  }

  // ---- What the handlers do with it ----

  ghost predicate Readable(c: Cluster, brokerNamespace: string) {
    SecretRef(brokerNamespace) in c.objects ==> c.objects[SecretRef(brokerNamespace)].body.JMap?
  }

  /** Nothing but the directory changed. */
  ghost predicate DirectoryOnly(before: Cluster, after: Cluster, brokerNamespace: string) {
    var ref := SecretRef(brokerNamespace);
    after.objects - {ref} == before.objects - {ref}
  }

  /** A create lists the instance at the namespace its binding and context resolve to, overwriting any earlier entry. */
  method RegisterInstance(api: ApiServer, spec: Config.Spec, decode: string -> Json, context: Option<Decisions.Raw>,
          brokerNamespace: string, instanceId: string, service: string, plan: string) returns (r: Result<string>)
    requires Readable(api.state, brokerNamespace)
    modifies api
    ensures r.Err? ==> api.state == old(api.state)
    ensures var binding := Config.GetTemplateBindings(spec, service, plan);
            var refused := || binding.None?
                           || (binding.value.scope.InstanceLocal? && Decisions.NamesNoString(decode, context));
            (refused ==> r.Err?) && (api.reliable ==> (r.Err? <==> refused))
    ensures r.Ok? ==>
              && ListedFor(decode, Config.GetTemplateBindings(spec, service, plan).value, context, brokerNamespace,
                           r.value)
              && Contents(api.state, brokerNamespace)
                  == old(Contents(api.state, brokerNamespace))[instanceId := JMap(map["namespace" := JString(r.value)])]
              && Resolve(api.state, brokerNamespace, instanceId) == r.value
              && DirectoryOnly(old(api.state), api.state, brokerNamespace)
  {
    var binding := Config.GetTemplateBindings(spec, service, plan);
    if binding.None? { return Err("no binding"); }
    var namespace := RegistryNamespace(decode, binding.value, context, brokerNamespace);
    ScopeDecides(decode, binding.value, context, brokerNamespace, if namespace.Ok? then namespace.value else "");
    if namespace.Err? { return namespace; }
    var directory := Directory.New(api, brokerNamespace);
    if directory.Err? { return Err(directory.error); }
    var ok := directory.value.Add(api, instanceId, namespace.value);
    if !ok { return Err("cannot commit"); }
    return namespace;
  }

  /**
   Looking an instance up never fails: without a usable entry, or a reachable directory, the broker's namespace is
   assumed.
  */
  method GetInstance(api: ApiServer, brokerNamespace: string, instanceId: string) returns (namespace: string)
    requires Readable(api.state, brokerNamespace)
    ensures namespace == Resolve(api.state, brokerNamespace, instanceId) || namespace == brokerNamespace
    ensures api.reliable ==> namespace == Resolve(api.state, brokerNamespace, instanceId)
  {
    var directory := Directory.New(api, brokerNamespace);
    if directory.Err? { return brokerNamespace; }
    var entry := directory.value.Lookup(instanceId);
    if entry.Err? { return brokerNamespace; }
    return entry.value;
  }

  /** Either the instance is taken off the directory, or, whatever went wrong, nothing changes and nobody is told. */
  method DeleteInstance(api: ApiServer, brokerNamespace: string, instanceId: string)
    requires Readable(api.state, brokerNamespace)
    modifies api
    ensures api.reliable && instanceId in old(Contents(api.state, brokerNamespace)) ==> api.state != old(api.state)
    ensures api.state == old(api.state) ||
            (&& Contents(api.state, brokerNamespace) == old(Contents(api.state, brokerNamespace)) - {instanceId}
             && instanceId in old(Contents(api.state, brokerNamespace))
             && Resolve(api.state, brokerNamespace, instanceId) == brokerNamespace
             && DirectoryOnly(old(api.state), api.state, brokerNamespace))
  {
    var directory := Directory.New(api, brokerNamespace);
    if directory.Err? { return; }
    var _ := directory.value.Remove(api, instanceId);
  }
}
