/**
 The Kubernetes cluster the broker provisions into: objects found by type, namespace and name, whose updates are
 refused unless they are of the stored version.
*/
module Cluster {
  import opened Json
  import Config

  datatype Ref = Ref(apiVersion: string, kind: string, namespace: string, name: string)

  datatype Live = Live(body: Json, version: nat)

  /** Versions are drawn from one ever growing clock. */
  datatype Cluster = Cluster(objects: map<Ref, Live>, clock: nat)

  /** An object to be written over the version it was made from. */
  datatype Write = Write(ref: Ref, body: Json, version: nat)

  predicate CanWrite(c: Cluster, w: Write) {
    w.ref in c.objects && c.objects[w.ref].version == w.version
  }

  function AfterWrite(c: Cluster, w: Write): Cluster {
    Cluster(c.objects[w.ref := Live(w.body, c.clock + 1)], c.clock + 1)
  }

  function AfterCreate(c: Cluster, ref: Ref, body: Json): Cluster {
    Cluster(c.objects[ref := Live(body, c.clock + 1)], c.clock + 1)
  }

  predicate Wellformed(c: Cluster) {
    forall r | r in c.objects :: c.objects[r].version <= c.clock
  }

  /** What may become of a cluster: objects come, change and go, but a version is never used again. */
  predicate Evolves(c: Cluster, d: Cluster) {
    && Wellformed(d) && c.clock <= d.clock
    && forall r | r in d.objects && d.objects[r].version <= c.clock :: r in c.objects && c.objects[r] == d.objects[r]
  }

  datatype Failure = AlreadyExists | Other

  /**
   The API server. Unless it is reliable any call may also fail for no reason, changing nothing; unless it is quiet
   others change the cluster between calls.
  */
  class ApiServer {
    const reliable: bool
    const quiet: bool
    var state: Cluster

    constructor (c: Cluster, reliable: bool, quiet: bool)
      ensures state == c && this.reliable == reliable && this.quiet == quiet
    {
      this.state, this.reliable, this.quiet := c, reliable, quiet;
    }

    /** Whatever others do. */
    method Others()
      requires Wellformed(state)
      modifies this
      ensures Evolves(old(state), state)
      ensures quiet ==> state == old(state)
    {
      var c: Cluster := *;
      if !quiet && Evolves(state, c) { state := c; }
    }

    method Get(ref: Ref) returns (r: Result<Option<Live>>)
      ensures r.Ok? ==> r.value == if ref in state.objects then Some(state.objects[ref]) else None
      ensures reliable ==> r.Ok?
    {
      var up: bool := *;
      if !up && !reliable { return Err("unavailable"); }
      return Ok(if ref in state.objects then Some(state.objects[ref]) else None);
    }

    method Create(ref: Ref, body: Json) returns (failure: Option<Failure>)
      modifies this
      ensures failure.None? ==> ref !in old(state).objects && state == AfterCreate(old(state), ref, body)
      ensures failure.Some? ==> state == old(state)
      ensures failure == Some(AlreadyExists) ==> ref in state.objects
      ensures reliable ==> failure == if ref in old(state).objects then Some(AlreadyExists) else None
    {
      var up: bool := *;
      if !up && !reliable { return Some(Other); }
      if ref in state.objects { return Some(AlreadyExists); }
      state := AfterCreate(state, ref, body);
      return None;
    }

    method Update(w: Write) returns (ok: bool)
      modifies this
      ensures state == if ok then AfterWrite(old(state), w) else old(state)
      ensures ok ==> CanWrite(old(state), w)
      ensures reliable && CanWrite(old(state), w) ==> ok
    {
      var up: bool := *;
      ok := (up || reliable) && CanWrite(state, w);
      if ok { state := AfterWrite(state, w); }
    }
  }

  /** What a request brings along: the entry's namespace, the templates' renderings and the API's resource types. */
  datatype Context = Context(spec: Config.Spec, namespace: Option<string>, render: Config.Template -> Result<Json>,
                             isClusterWide: (string, string) -> Option<bool>, codec: Codec)

  function StringAt(d: Json, path: seq<string>): string {
    match Lookup(d, path) case Some(JString(s)) => s case _ => ""
  }

  predicate IsClusterWide(ctx: Context, d: Json) {
    ctx.isClusterWide(StringAt(d, ["apiVersion"]), StringAt(d, ["kind"])) == Some(true)
  }

  /** The namespace an object is meant for: its own, or else the given one. */
  function NamespaceOf(d: Json, namespace: Option<string>): Result<string> {
    var own := StringAt(d, ["metadata", "namespace"]);
    if own != "" then Ok(own)
    else if namespace.Some? then Ok(namespace.value)
    else Err("unable to lookup namespace")
  }

  /** Where an object lives; cluster-wide ones in no namespace. */
  function Locate(ctx: Context, d: Json, namespace: Option<string>): Result<Ref> {
    var apiVersion, kind := StringAt(d, ["apiVersion"]), StringAt(d, ["kind"]);
    match ctx.isClusterWide(apiVersion, kind)
    case None => Err("no such resource type")
    case Some(wide) =>
      match NamespaceOf(d, namespace)
      case Err(e) => Err(e)
      case Ok(ns) => Ok(Ref(apiVersion, kind, if wide then "" else ns, StringAt(d, ["metadata", "name"])))
  }

  /** The value is the string at that place of an object, or empty if there is no string. */
  predicate Says(d: Json, path: seq<string>, value: string) {
    if Lookup(d, path).Some? && Lookup(d, path).value.JString? then Lookup(d, path) == Some(JString(value))
    else value == ""
  }

  /**
   The object is found there: under its own type and name, in no namespace if the type is cluster-wide, else in its own
   namespace if it says one, else in the given one.
  */
  predicate Belongs(ctx: Context, d: Json, namespace: Option<string>, ref: Ref) {
    && Says(d, ["apiVersion"], ref.apiVersion) && Says(d, ["kind"], ref.kind) && Says(d, ["metadata", "name"], ref.name)
    && match ctx.isClusterWide(ref.apiVersion, ref.kind)
       case None => false
       case Some(true) => ref.namespace == "" && (namespace.None? ==> !Says(d, ["metadata", "namespace"], ""))
       case Some(false) =>
         if Says(d, ["metadata", "namespace"], "") then namespace == Some(ref.namespace)
         else Says(d, ["metadata", "namespace"], ref.namespace)
  }

  lemma {:induction false} LocateMeans(ctx: Context, d: Json, namespace: Option<string>, ref: Ref)
    ensures Locate(ctx, d, namespace) == Ok(ref) <==> Belongs(ctx, d, namespace, ref)
  {
    assert Says(d, ["apiVersion"], StringAt(d, ["apiVersion"])) && Says(d, ["kind"], StringAt(d, ["kind"]));
    assert Says(d, ["metadata", "name"], StringAt(d, ["metadata", "name"]));
    var own := StringAt(d, ["metadata", "namespace"]);
    assert Says(d, ["metadata", "namespace"], own);
    assert own != "" <==> !Says(d, ["metadata", "namespace"], "");
  }
}
