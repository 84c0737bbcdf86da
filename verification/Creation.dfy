/** Creating one rendered resource in the cluster, or joining the owners of a singleton that is already there. */
module Creation {
  import opened Json
  import opened Cluster
  import Registry
  import Resources

  function OwnerJson(owner: Registry.OwnerReference): Json {
    JMap(map["apiVersion" := JString("v1"), "kind" := JString("Secret"),
             "name" := JString(owner.name), "uid" := JNumber(owner.uid)])
  }

  function OwnersOf(d: Json): Option<seq<Json>> {
    match Lookup(d, Resources.OWNERS_PATH) case Some(JList(items)) => Some(items) case _ => None
  }

  /** There is a place for the resource, and room for its annotation and owner. */
  ghost predicate Creatable(ctx: Context, rendering: Json, ref: Ref) {
    Belongs(ctx, rendering, ctx.namespace, ref) && Resources.RoomForAnnotation(rendering)
  }

  /** The resource was created from its rendering, with the registry entry as its only owner. */
  ghost predicate CreatedAs(ctx: Context, before: Cluster, after: Cluster, rendering: Json,
          owner: Registry.OwnerReference)
  {
    var ref := Locate(ctx, rendering, ctx.namespace);
    var dressed := Resources.Dressed(ctx.codec, rendering, JList([OwnerJson(owner)]));
    && ref.Ok? && Belongs(ctx, rendering, ctx.namespace, ref.value)
    && dressed.Some? && ref.value !in before.objects
    && after == AfterCreate(before, ref.value, dressed.value)
  }

  /** The registry entry was added to the owners of the resource that was there, and nothing else changed. */
  ghost predicate Joined(ctx: Context, before: Cluster, after: Cluster, rendering: Json, owner: Registry.OwnerReference)
  {
    var ref := Locate(ctx, rendering, ctx.namespace);
    && ref.Ok? && Belongs(ctx, rendering, ctx.namespace, ref.value)
    && ref.value in before.objects && ref.value in after.objects
    && after.objects == before.objects[ref.value := after.objects[ref.value]]
    && OwnersOf(before.objects[ref.value].body).Some?
    && OwnersOf(after.objects[ref.value].body)
        == Some(OwnersOf(before.objects[ref.value].body).value + [OwnerJson(owner)])
    && Resources.SameApart(after.objects[ref.value].body, before.objects[ref.value].body)
    && Lookup(after.objects[ref.value].body, Resources.ANNOTATION_PATH)
        == Lookup(before.objects[ref.value].body, Resources.ANNOTATION_PATH)
  }

  lemma {:induction false} OwnFrames(d: Json, owners: Json)
    requires Resources.SetNested(d, Resources.OWNERS_PATH, owners).Some?
    ensures var r := Resources.SetNested(d, Resources.OWNERS_PATH, owners).value;
            && Lookup(r, Resources.OWNERS_PATH) == Some(owners)
            && Resources.SameApart(r, d)
            && Lookup(r, Resources.ANNOTATION_PATH) == Lookup(d, Resources.ANNOTATION_PATH)
  {
    var r := Resources.SetNested(d, Resources.OWNERS_PATH, owners).value;
    Resources.SetNestedReads(d, Resources.OWNERS_PATH, owners);
    var m := if "metadata" in d.entries then d.entries["metadata"] else JMap(map[]);
    assert Resources.OWNERS_PATH[1..] == ["ownerReferences"];
    Resources.SetNestedReads(m, ["ownerReferences"], owners);
    assert Get(m, "annotations") == Get(Get(r, "metadata").value, "annotations");
    Resources.SetNestedElsewhere(d, Resources.OWNERS_PATH, owners, Resources.ANNOTATION_PATH, 1);
  }

  /** Where there are owners they can be replaced. */
  lemma {:induction false} OwnersSettable(d: Json, owners: Json)
    requires OwnersOf(d).Some?
    ensures Resources.SetNested(d, Resources.OWNERS_PATH, owners).Some?
  {
    assert Lookup(d, Resources.OWNERS_PATH) == Lookup(Get(d, "metadata").value, Resources.OWNERS_PATH[1..]);
    assert Resources.OWNERS_PATH[1..] == ["ownerReferences"];
  }

  /** Objects of cluster-wide types are in no namespace. */
  ghost predicate WellPlaced(ctx: Context, c: Cluster) {
    forall r | r in c.objects && ctx.isClusterWide(r.apiVersion, r.kind) == Some(true) :: r.namespace == ""
  }

  /**
   Adds the entry to the owners of the singleton found at `ref`. Without any owner references there the broker
   does not claim the object.
  */
  method Join(api: ApiServer, ref: Ref, owner: Registry.OwnerReference) returns (ok: bool)
    modifies api
    ensures !ok ==> api.state == old(api.state)
    ensures api.reliable && ref in old(api.state).objects && OwnersOf(old(api.state).objects[ref].body).Some? ==> ok
    ensures ok ==>
              && ref in old(api.state).objects && OwnersOf(old(api.state).objects[ref].body).Some?
              && var extended := Resources.SetNested(old(api.state).objects[ref].body, Resources.OWNERS_PATH,
                                   JList(OwnersOf(old(api.state).objects[ref].body).value + [OwnerJson(owner)]));
                 && extended.Some?
                 && api.state ==
                      AfterWrite(old(api.state), Write(ref, extended.value, old(api.state).objects[ref].version))
  {
    var existing := api.Get(ref);
    if existing.Err? || existing.value.None? { return false; }
    var found := existing.value.value;
    var owners := OwnersOf(found.body);
    if owners.None? { return false; }
    var extended := Resources.SetNested(found.body, Resources.OWNERS_PATH, JList(owners.value + [OwnerJson(owner)]));
    OwnersSettable(found.body, JList(owners.value + [OwnerJson(owner)]));
    ok := api.Update(Write(ref, extended.value, found.version));
  }

  /**
   A template without a resource is skipped. Otherwise success means the resource was created, or that it is a
   singleton and the entry now is among its owners. The existing singleton is always looked for in a namespace,
   so one of a cluster-wide type is never found and can not be joined.
  */
  method CreateResource(ctx: Context, api: ApiServer, rendering: Option<Json>, singleton: bool,
          owner: Registry.OwnerReference)
    returns (ok: bool)
    requires WellPlaced(ctx, api.state)
    modifies api
    ensures rendering.None? ==> ok
    ensures !ok || rendering.None? ==> api.state == old(api.state)
    ensures rendering.Some? && ok ==> exists ref :: Creatable(ctx, rendering.value, ref)
    ensures forall ref | api.reliable && rendering.Some? && Creatable(ctx, rendering.value, ref) ::
              if ref !in old(api.state).objects then ok
              else (&& singleton && ctx.isClusterWide(ref.apiVersion, ref.kind) == Some(false)
                    && OwnersOf(old(api.state).objects[ref].body).Some?) ==> ok
    ensures ok && rendering.Some? ==>
              || CreatedAs(ctx, old(api.state), api.state, rendering.value, owner)
              || (singleton && Joined(ctx, old(api.state), api.state, rendering.value, owner))
    ensures (&& ok && rendering.Some? && IsClusterWide(ctx, rendering.value)
             && NamespaceOf(rendering.value, ctx.namespace) != Ok("")) ==>
              CreatedAs(ctx, old(api.state), api.state, rendering.value, owner)
    ensures ok && rendering.Some? && !singleton ==> CreatedAs(ctx, old(api.state), api.state, rendering.value, owner)
  {
    if rendering.None? { return true; }
    var dressed := Resources.Dressed(ctx.codec, rendering.value, JList([OwnerJson(owner)]));
    var ref := Locate(ctx, rendering.value, ctx.namespace);
    Resources.DressedIfRoom(ctx.codec, rendering.value, JList([OwnerJson(owner)]));
    forall r { LocateMeans(ctx, rendering.value, ctx.namespace, r); }
    if dressed.None? || ref.Err? { return false; }
    assert Creatable(ctx, rendering.value, ref.value);
    var failure := api.Create(ref.value, dressed.value);
    if failure.None? { return true; }
    if failure != Some(AlreadyExists) || !singleton { return false; }
    var namespace := NamespaceOf(rendering.value, ctx.namespace).value;
    ok := Join(api, ref.value.(namespace := namespace), owner);
    if ok {
      var before := old(api.state).objects[ref.value].body;
      OwnFrames(before, JList(OwnersOf(before).value + [OwnerJson(owner)]));
    }
  }

  /** A created resource shows its rendering, carries it as its annotation, and is owned by its registry entry. */
  lemma {:induction false} CreatedShowsRendering(ctx: Context, before: Cluster, after: Cluster, rendering: Json,
          owner: Registry.OwnerReference)
    requires CreatedAs(ctx, before, after, rendering, owner)
    ensures var live := after.objects[Locate(ctx, rendering, ctx.namespace).value].body;
            && Resources.SameApart(live, rendering)
            && Lookup(live, Resources.ANNOTATION_PATH) == Some(JString(ctx.codec.encode(rendering)))
            && OwnersOf(live) == Some([JMap(map["apiVersion" := JString("v1"), "kind" := JString("Secret"),
                                                "name" := JString(owner.name), "uid" := JNumber(owner.uid)])])
  {
    Resources.CreationAnnotates(ctx.codec, rendering, JList([OwnerJson(owner)]));
  }
}
