/**
 The life of one non-singleton Kubernetes resource: created from a rendering, annotated with that
 rendering, and later moved to new renderings by a three-way merge while others edit it.
*/
module Resources {
  import opened Json
  import MergePatch

  const ANNOTATION: string := "servicebroker.couchbase.com/resource"
  const ANNOTATION_PATH: seq<string> := ["metadata", "annotations", ANNOTATION]
  const OWNERS_PATH: seq<string> := ["metadata", "ownerReferences"]

  /** Sets a nested attribute, making missing objects on the way; a non-object on the way is an error. */
  function SetNested(d: Json, path: seq<string>, v: Json): Option<Json>
    requires path != []
    decreases |path|
  {
    if !d.JMap? then None
    else if |path| == 1 then Some(JMap(d.entries[path[0] := v]))
    else match SetNested(if path[0] in d.entries then d.entries[path[0]] else JMap(map[]), path[1..], v)
      case None => None
      case Some(inner) => Some(JMap(d.entries[path[0] := inner]))
  }

  /** The annotations of a rendering, which creation insists are strings if there are any. */
  predicate StringAnnotations(d: Json) {
    match Lookup(d, ["metadata", "annotations"])
    case None => true
    case Some(a) => a.JMap? && forall k | k in a.entries :: a.entries[k].JString?
  }

  /** The object creation sends: the rendering, annotated with itself, owned by the registry entry. */
  function Dressed(codec: Codec, rendering: Json, owners: Json): Option<Json> {
    if !rendering.JMap? || !StringAnnotations(rendering) then None
    else match SetNested(rendering, ANNOTATION_PATH, JString(codec.encode(rendering)))
      case None => None
      case Some(annotated) => SetNested(annotated, OWNERS_PATH, owners)
  }

  /** What an update makes of the live object: an error, nothing to do, or the object to send. */
  function Merged(codec: Codec, live: Json, rendering: Json): Result<Option<Json>> {
    match Lookup(live, ANNOTATION_PATH)
    case Some(JString(text)) =>
      (match codec.decode(text)
       case None => Err("annotation is not JSON")
       case Some(original) =>
         if !original.JMap? || !rendering.JMap? then Err("not an object")
         else if original == rendering then Ok(None)
         else
           match SetNested(MergePatch.Apply(live, MergePatch.Diff(original, rendering)), ANNOTATION_PATH,
                           JString(codec.encode(rendering)))
           case None => Err("annotations are not an object")
           case Some(updated) => Ok(Some(updated)))
    case _ => Err("failed to lookup original resource")
  }

  // ---- Nested updates, attribute by attribute ----

  function GetIn(d: Option<Json>, k: string): Option<Json> {
    if d.Some? then Get(d.value, k) else None
  }

  lemma {:induction false} SetNestedReads(d: Json, path: seq<string>, v: Json)
    requires path != [] && SetNested(d, path, v).Some?
    ensures SetNested(d, path, v).value.JMap?
    ensures Lookup(SetNested(d, path, v).value, path) == Some(v)
    ensures forall k | k != path[0] :: Get(SetNested(d, path, v).value, k) == Get(d, k)
    ensures |path| > 1 ==>
              Get(SetNested(d, path, v).value, path[0])
                == SetNested(if path[0] in d.entries then d.entries[path[0]] else JMap(map[]), path[1..], v)
    decreases |path|
  {
    if |path| > 1 {
      SetNestedReads(if path[0] in d.entries then d.entries[path[0]] else JMap(map[]), path[1..], v);
    } else {
      assert Lookup(v, path[1..]) == Some(v);
    }
  }

  /** Writing the annotation leaves every other attribute of the object, its metadata and its annotations alone. */
  lemma {:induction false} AnnotateFrames(d: Json, v: Json)
    requires SetNested(d, ANNOTATION_PATH, v).Some?
    ensures var r := SetNested(d, ANNOTATION_PATH, v).value;
            && r.JMap? && Lookup(r, ANNOTATION_PATH) == Some(v)
            && SameApart(r, d)
            && Get(r, "metadata").Some? && Get(r, "metadata").value.JMap?
            && GetIn(Get(r, "metadata"), "ownerReferences") == GetIn(Get(d, "metadata"), "ownerReferences")
  {
    var r := SetNested(d, ANNOTATION_PATH, v).value;
    SetNestedReads(d, ANNOTATION_PATH, v);
    var m := if "metadata" in d.entries then d.entries["metadata"] else JMap(map[]);
    assert ANNOTATION_PATH[1..] == ["annotations", ANNOTATION];
    SetNestedReads(m, ["annotations", ANNOTATION], v);
    var a := if "annotations" in m.entries then m.entries["annotations"] else JMap(map[]);
    assert ["annotations", ANNOTATION][1..] == [ANNOTATION];
    SetNestedReads(a, [ANNOTATION], v);
  }

  /** Nothing that is no object is in the way of the path. */
  predicate Open(d: Json, path: seq<string>)
    decreases |path|
  {
    path == [] || (d.JMap? && (path[0] in d.entries && |path| > 1 ==> Open(d.entries[path[0]], path[1..])))
  }

  /** A nested update succeeds exactly if nothing is in its way. */
  lemma {:induction false} SetNestedIfOpen(d: Json, path: seq<string>, v: Json)
    requires path != []
    ensures SetNested(d, path, v).Some? <==> Open(d, path)
    decreases |path|
  {
    if d.JMap? && |path| > 1 {
      if path[0] in d.entries {
        SetNestedIfOpen(d.entries[path[0]], path[1..], v);
      } else {
        SetNestedIfOpen(JMap(map[]), path[1..], v);
        EmptyIsOpen(path[1..]);
      }
    }
  }

  lemma {:induction false} EmptyIsOpen(path: seq<string>)
    ensures Open(JMap(map[]), path)
  {
  }

  /** An object whose metadata, if any, is one too, and whose annotations, if any, are strings. */
  predicate RoomForAnnotation(d: Json) {
    && d.JMap?
    && match Get(d, "metadata")
       case None => true
       case Some(m) =>
         && m.JMap?
         && match Get(m, "annotations")
            case None => true
            case Some(a) => a.JMap? && forall k | k in a.entries :: a.entries[k].JString?
  }

  lemma {:induction false} AnnotationIsOpen(d: Json)
    ensures Open(d, ANNOTATION_PATH) <==>
              && d.JMap?
              && match Get(d, "metadata")
                 case None => true
                 case Some(m) => m.JMap? && (Get(m, "annotations").Some? ==> Get(m, "annotations").value.JMap?)
  {
    assert ANNOTATION_PATH[1..] == ["annotations", ANNOTATION];
    assert ["annotations", ANNOTATION][1..] == [ANNOTATION];
    if Get(d, "metadata").Some? {
      var m := Get(d, "metadata").value;
      assert Open(m, ["annotations", ANNOTATION]) <==>
        m.JMap? && (Get(m, "annotations").Some? ==> Open(Get(m, "annotations").value, [ANNOTATION]));
    }
  }

  /** Exactly such a rendering can be created. */
  lemma {:induction false} DressedIfRoom(codec: Codec, rendering: Json, owners: Json)
    ensures Dressed(codec, rendering, owners).Some? <==> RoomForAnnotation(rendering)
  {
    var annotation := JString(codec.encode(rendering));
    SetNestedIfOpen(rendering, ANNOTATION_PATH, annotation);
    AnnotationIsOpen(rendering);
    assert ["metadata", "annotations"][1..] == ["annotations"];
    assert Lookup(rendering, ["metadata", "annotations"]) == GetIn(Get(rendering, "metadata"), "annotations") by {
      if Get(rendering, "metadata").Some? {
        var m := Get(rendering, "metadata").value;
        assert ["annotations"][1..] == [];
        assert Lookup(m, ["annotations"]) == Get(m, "annotations");
      }
    }
    if SetNested(rendering, ANNOTATION_PATH, annotation).Some? {
      var annotated := SetNested(rendering, ANNOTATION_PATH, annotation).value;
      AnnotateFrames(rendering, annotation);
      SetNestedIfOpen(annotated, OWNERS_PATH, owners);
      assert OWNERS_PATH[1..] == ["ownerReferences"];
    }
  }

  /** Agreement on everything but the resource annotation and the owner references. */
  ghost predicate SameApart(x: Json, y: Json) {
    && (forall k | k != "metadata" :: Get(x, k) == Get(y, k))
    && (forall k | k != "annotations" && k != "ownerReferences" ::
          GetIn(Get(x, "metadata"), k) == GetIn(Get(y, "metadata"), k))
    && (forall k | k != ANNOTATION ::
          GetIn(GetIn(Get(x, "metadata"), "annotations"), k) == GetIn(GetIn(Get(y, "metadata"), "annotations"), k))
  }

  lemma {:induction false} CreationAnnotates(codec: Codec, rendering: Json, owners: Json)
    requires Dressed(codec, rendering, owners).Some?
    ensures var live := Dressed(codec, rendering, owners).value;
            && live.JMap? && SameApart(live, rendering)
            && Lookup(live, ANNOTATION_PATH) == Some(JString(codec.encode(rendering)))
            && Lookup(live, OWNERS_PATH) == Some(owners)
  {
    var annotated := SetNested(rendering, ANNOTATION_PATH, JString(codec.encode(rendering))).value;
    AnnotateFrames(rendering, JString(codec.encode(rendering)));
    SetNestedReads(annotated, OWNERS_PATH, owners);
    assert OWNERS_PATH[1..] == ["ownerReferences"];
    SetNestedReads(annotated.entries["metadata"], ["ownerReferences"], owners);
    var live := Dressed(codec, rendering, owners).value;
    assert ANNOTATION_PATH[1..] == ["annotations", ANNOTATION];
    assert Lookup(live, ANNOTATION_PATH) == Lookup(Get(live, "metadata").value, ["annotations", ANNOTATION]);
    assert Lookup(annotated, ANNOTATION_PATH) == Lookup(Get(annotated, "metadata").value, ["annotations", ANNOTATION]);
    assert Get(Get(live, "metadata").value, "annotations") == Get(Get(annotated, "metadata").value, "annotations");
  }

  /** Whatever a patch does to the annotations, the object sent carries the new rendering as its annotation. */
  lemma {:induction false} MergedIsAnnotated(codec: Codec, live: Json, rendering: Json)
    requires Merged(codec, live, rendering).Ok? && Merged(codec, live, rendering).value.Some?
    ensures Lookup(Merged(codec, live, rendering).value.value, ANNOTATION_PATH)
        == Some(JString(codec.encode(rendering)))
  {
    var original := codec.decode(Lookup(live, ANNOTATION_PATH).value.s).value;
    AnnotateFrames(MergePatch.Apply(live, MergePatch.Diff(original, rendering)), JString(codec.encode(rendering)));
  }

  // ---- The merge, one nesting level at a time ----

  /** What the diff between two attribute values says. */
  function Change(o: Option<Json>, n: Option<Json>): Option<Json> {
    if o == n then None
    else if n.None? then Some(JNull)
    else if o.Some? && o.value.JMap? && n.value.JMap? then Some(MergePatch.Diff(o.value, n.value))
    else n
  }

  lemma {:induction false} DiffAt(o: Json, n: Json, k: string)
    requires o.JMap? && n.JMap?
    ensures Get(MergePatch.Diff(o, n), k) == Change(Get(o, k), Get(n, k))
  {
  }

  /** Where live and original agree, the merge gives the new value. */
  lemma {:induction false} MergeAgrees(o: Option<Json>, n: Option<Json>)
    requires n.Some? ==> !n.value.JNull? && NullFree(n.value)
    ensures MergePatch.Patched(o, Change(o, n)) == n
  {
    if o != n && n.Some? {
      if o.Some? && o.value.JMap? && n.value.JMap? {
        MergePatch.NullFreeInherits(o.value, n.value);
        MergePatch.DiffRoundTrip(o.value, n.value);
      } else {
        var t := if o.Some? then o.value else JNull;
        if !t.JMap? {
          MergePatch.NullFreeInherits(t, n.value);
          MergePatch.ApplyFresh(t, n.value);
        }
      }
    }
  }

  /** Below an attribute that the new rendering holds as an object, the merge works key by key. */
  lemma {:induction false} MergeDescends(l: Option<Json>, o: Option<Json>, n: Option<Json>, k: string)
    requires n.Some? && n.value.JMap?
    ensures GetIn(MergePatch.Patched(l, Change(o, n)), k)
              == MergePatch.Patched(GetIn(l, k), Change(GetIn(o, k), GetIn(n, k)))
  {
    if o != n {
      var t := if l.Some? then l.value else JNull;
      if o.Some? && o.value.JMap? {
        MergePatch.ApplyAt(t, MergePatch.Diff(o.value, n.value), k);
        DiffAt(o.value, n.value, k);
      } else {
        MergePatch.ApplyAt(t, n.value, k);
      }
    }
  }

  lemma {:induction false} NullFreeIn(n: Option<Json>, k: string)
    requires n.Some? ==> NullFree(n.value)
    ensures var v := GetIn(n, k); v.Some? ==> !v.value.JNull? && NullFree(v.value)
  {
  }

  /** Merging an attribute on which live and original agree gives the new one; `k` is such a sub-attribute. */
  lemma {:induction false} MergeAgreesBelow(l: Option<Json>, o: Option<Json>, n: Option<Json>, k: string)
    requires GetIn(l, k) == GetIn(o, k)
    requires n.Some? ==> NullFree(n.value)
    requires var m := MergePatch.Patched(l, Change(o, n)); m.Some? ==> m.value.JMap?
    ensures GetIn(MergePatch.Patched(l, Change(o, n)), k) == GetIn(n, k)
  {
    NullFreeIn(n, k);
    if n.Some? && n.value.JMap? {
      MergeDescends(l, o, n, k);
      MergeAgrees(GetIn(o, k), GetIn(n, k));
    }
  }

  lemma {:induction false} SettableNesting(d: Json, v: Json)
    requires SetNested(d, ANNOTATION_PATH, v).Some?
    ensures var m := Get(d, "metadata"); m.Some? ==> m.value.JMap?
    ensures var a := GetIn(Get(d, "metadata"), "annotations"); a.Some? ==> a.value.JMap?
  {
    SetNestedReads(d, ANNOTATION_PATH, v);
    var m := if "metadata" in d.entries then d.entries["metadata"] else JMap(map[]);
    assert ANNOTATION_PATH[1..] == ["annotations", ANNOTATION];
    SetNestedReads(m, ["annotations", ANNOTATION], v);
    assert ["annotations", ANNOTATION][1..] == [ANNOTATION];
  }

  /** One annotation of the merged metadata is the new rendering's, if live and original agreed on it. */
  lemma {:induction false} AnnotationTracks(l: Option<Json>, o: Option<Json>, n: Option<Json>, k: string)
    requires GetIn(GetIn(l, "annotations"), k) == GetIn(GetIn(o, "annotations"), k)
    requires n.Some? ==> NullFree(n.value)
    requires var m := MergePatch.Patched(l, Change(o, n));
             && (m.Some? ==> m.value.JMap?)
             && (GetIn(m, "annotations").Some? ==> GetIn(m, "annotations").value.JMap?)
    ensures GetIn(GetIn(MergePatch.Patched(l, Change(o, n)), "annotations"), k) == GetIn(GetIn(n, "annotations"), k)
  {
    if n.Some? && n.value.JMap? {
      MergeDescends(l, o, n, "annotations");
      NullFreeIn(n, "annotations");
      MergeAgreesBelow(GetIn(l, "annotations"), GetIn(o, "annotations"), GetIn(n, "annotations"), k);
    }
  }

  lemma {:induction false} MergedAttribute(live: Json, original: Json, rendering: Json, k: string)
    requires original.JMap? && rendering.JMap?
    ensures Get(MergePatch.Apply(live, MergePatch.Diff(original, rendering)), k)
              == MergePatch.Patched(Get(live, k), Change(Get(original, k), Get(rendering, k)))
  {
    MergePatch.ApplyAt(live, MergePatch.Diff(original, rendering), k);
    DiffAt(original, rendering, k);
  }

  /** A live object that shows the original shows the new rendering once it is merged. */
  lemma {:induction false} MergeTracks(live: Json, original: Json, rendering: Json, v: Json)
    requires original.JMap? && rendering.JMap? && live.JMap? && NullFree(rendering)
    requires SameApart(live, original)
    requires SetNested(MergePatch.Apply(live, MergePatch.Diff(original, rendering)), ANNOTATION_PATH, v).Some?
    ensures SameApart(MergePatch.Apply(live, MergePatch.Diff(original, rendering)), rendering)
  {
    var merged := MergePatch.Apply(live, MergePatch.Diff(original, rendering));
    SettableNesting(merged, v);
    forall k | k != "metadata" ensures Get(merged, k) == Get(rendering, k) {
      MergedAttribute(live, original, rendering, k);
      NullFreeIn(Some(rendering), k);
      MergeAgrees(Get(original, k), Get(rendering, k));
    }
    MergedAttribute(live, original, rendering, "metadata");
    NullFreeIn(Some(rendering), "metadata");
    var l, o, n := Get(live, "metadata"), Get(original, "metadata"), Get(rendering, "metadata");
    forall k | k != "annotations" && k != "ownerReferences"
      ensures GetIn(Get(merged, "metadata"), k) == GetIn(n, k)
    {
      MergeAgreesBelow(l, o, n, k);
    }
    forall k | k != ANNOTATION
      ensures GetIn(GetIn(Get(merged, "metadata"), "annotations"), k) == GetIn(GetIn(n, "annotations"), k)
    {
      AnnotationTracks(l, o, n, k);
    }
  }

  lemma {:induction false} SameApartChains(x: Json, y: Json, z: Json)
    requires SameApart(x, y) && SameApart(y, z)
    ensures SameApart(x, z)
  {
    forall k | k != "metadata" ensures Get(x, k) == Get(z, k) { assert Get(x, k) == Get(y, k); }
    forall k | k != "annotations" && k != "ownerReferences"
      ensures GetIn(Get(x, "metadata"), k) == GetIn(Get(z, "metadata"), k)
    {
      assert GetIn(Get(x, "metadata"), k) == GetIn(Get(y, "metadata"), k);
    }
    forall k | k != ANNOTATION
      ensures GetIn(GetIn(Get(x, "metadata"), "annotations"), k) == GetIn(GetIn(Get(z, "metadata"), "annotations"), k)
    {
      assert GetIn(GetIn(Get(x, "metadata"), "annotations"), k) == GetIn(GetIn(Get(y, "metadata"), "annotations"), k);
    }
  }

  // ---- Runs ----

  /** What happens to a resource after its creation: the broker updates it, or somebody else replaces it. */
  datatype Act = Update(rendering: Json) | Edit(replacement: Json)

  /** The live object, with the rendering last committed to it. */
  datatype Resource = Resource(live: Json, committed: Json)

  function Step(codec: Codec, r: Resource, act: Act): Resource {
    match act
    case Edit(replacement) => r.(live := replacement)
    case Update(rendering) =>
      match Merged(codec, r.live, rendering)
      case Ok(Some(updated)) => Resource(updated, rendering)
      case Ok(None) => r.(committed := rendering)
      case Err(_) => r
  }

  function Run(codec: Codec, r: Resource, acts: seq<Act>): Resource
    decreases |acts|
  {
    if acts == [] then r else Step(codec, Run(codec, r, acts[..|acts| - 1]), acts[|acts| - 1])
  }

  /** Outsiders may change anything but the broker's annotation. */
  ghost predicate SparesAnnotation(codec: Codec, r: Resource, acts: seq<Act>) {
    forall i | 0 <= i < |acts| && acts[i].Edit? ::
      && acts[i].replacement.JMap?
      && Lookup(acts[i].replacement, ANNOTATION_PATH) == Lookup(Run(codec, r, acts[..i]).live, ANNOTATION_PATH)
  }

  ghost predicate Annotated(codec: Codec, r: Resource) {
    && r.live.JMap? && r.committed.JMap?
    && Lookup(r.live, ANNOTATION_PATH) == Some(JString(codec.encode(r.committed)))
  }

  lemma {:induction false} StepAnnotated(codec: Codec, r: Resource, act: Act)
    requires Lawful(codec) && Annotated(codec, r)
    requires act.Edit? ==>
               && act.replacement.JMap?
               && Lookup(act.replacement, ANNOTATION_PATH) == Lookup(r.live, ANNOTATION_PATH)
    ensures Annotated(codec, Step(codec, r, act))
    ensures act.Update? && Merged(codec, r.live, act.rendering).Ok? ==> Step(codec, r, act).committed == act.rendering
    ensures act.Update? && Merged(codec, r.live, act.rendering) == Ok(None) ==> r.committed == act.rendering
  {
    if act.Update? {
      assert codec.decode(codec.encode(r.committed)) == Some(r.committed);
      match Merged(codec, r.live, act.rendering)
      case Ok(Some(updated)) =>
        AnnotateFrames(MergePatch.Apply(r.live, MergePatch.Diff(r.committed, act.rendering)),
            JString(codec.encode(act.rendering)));
      case _ =>
    }
  }

  /** However the resource is updated and edited, its annotation is the rendering last committed to it. */
  lemma {:induction false} AnnotationIsLastRendering(codec: Codec, rendering: Json, owners: Json, acts: seq<Act>)
    requires Lawful(codec) && Dressed(codec, rendering, owners).Some?
    requires SparesAnnotation(codec, Resource(Dressed(codec, rendering, owners).value, rendering), acts)
    ensures Annotated(codec, Run(codec, Resource(Dressed(codec, rendering, owners).value, rendering), acts))
    decreases |acts|
  {
    var r0 := Resource(Dressed(codec, rendering, owners).value, rendering);
    if acts == [] {
      CreationAnnotates(codec, rendering, owners);
    } else {
      var before := acts[..|acts| - 1];
      assert forall i | 0 <= i < |before| :: before[..i] == acts[..i];
      AnnotationIsLastRendering(codec, rendering, owners, before);
      StepAnnotated(codec, Run(codec, r0, before), acts[|acts| - 1]);
    }
  }

  /** Edits that touch at most owner references. */
  ghost predicate EditsOwnersOnly(codec: Codec, r: Resource, acts: seq<Act>) {
    forall i | 0 <= i < |acts| && acts[i].Edit? :: SameApart(acts[i].replacement, Run(codec, r, acts[..i]).live)
  }

  /** With no outside edits the live object is the latest rendering, but for the annotation and the owners. */
  lemma {:induction false} LiveIsLastRendering(codec: Codec, rendering: Json, owners: Json, acts: seq<Act>)
    requires Lawful(codec) && Dressed(codec, rendering, owners).Some?
    requires var r0 := Resource(Dressed(codec, rendering, owners).value, rendering);
             SparesAnnotation(codec, r0, acts) && EditsOwnersOnly(codec, r0, acts)
    requires forall i | 0 <= i < |acts| && acts[i].Update? :: NullFree(acts[i].rendering)
    ensures var r := Run(codec, Resource(Dressed(codec, rendering, owners).value, rendering), acts);
            SameApart(r.live, r.committed)
    decreases |acts|
  {
    var r0 := Resource(Dressed(codec, rendering, owners).value, rendering);
    if acts == [] {
      CreationAnnotates(codec, rendering, owners);
    } else {
      var before := acts[..|acts| - 1];
      assert forall i | 0 <= i < |before| :: before[..i] == acts[..i];
      LiveIsLastRendering(codec, rendering, owners, before);
      AnnotationIsLastRendering(codec, rendering, owners, before);
      StepTracks(codec, Run(codec, r0, before), acts[|acts| - 1]);
    }
  }

  lemma {:induction false} StepTracks(codec: Codec, r: Resource, act: Act)
    requires Lawful(codec) && Annotated(codec, r) && SameApart(r.live, r.committed)
    requires act.Edit? ==> SameApart(act.replacement, r.live)
    requires act.Update? ==> NullFree(act.rendering)
    ensures SameApart(Step(codec, r, act).live, Step(codec, r, act).committed)
  {
    match act
    case Edit(replacement) => SameApartChains(replacement, r.live, r.committed);
    case Update(rendering) =>
      assert codec.decode(codec.encode(r.committed)) == Some(r.committed);
      match Merged(codec, r.live, rendering)
      case Ok(Some(updated)) =>
        var v := JString(codec.encode(rendering));
        var merged := MergePatch.Apply(r.live, MergePatch.Diff(r.committed, rendering));
        MergeTracks(r.live, r.committed, rendering, v);
        AnnotateFrames(merged, v);
        SameApartChains(updated, merged, rendering);
      case _ =>
  }

  // ---- Outside edits ----

  /** Writing at one path does not show at another that parts from it. */
  lemma {:induction false} SetNestedElsewhere(d: Json, path: seq<string>, v: Json, other: seq<string>, j: nat)
    requires path != [] && SetNested(d, path, v).Some?
    requires j < |path| && j < |other| && path[..j] == other[..j] && path[j] != other[j]
    ensures Lookup(SetNested(d, path, v).value, other) == Lookup(d, other)
    decreases j
  {
    SetNestedReads(d, path, v);
    if j > 0 {
      var k := path[0];
      assert path[..j][0] == other[..j][0];
      assert path[1..][..j - 1] == path[..j][1..] == other[..j][1..] == other[1..][..j - 1];
      SetNestedElsewhere(if k in d.entries then d.entries[k] else JMap(map[]), path[1..], v, other[1..], j - 1);
    }
  }

  /** The path leaves the one the annotation is written at, at key `j`. */
  predicate PartsFromAnnotation(path: seq<string>, j: nat) {
    j < |ANNOTATION_PATH| && j < |path| && path[..j] == ANNOTATION_PATH[..j] && path[j] != ANNOTATION_PATH[j]
  }

  /** The update from one rendering to the other leaves what others put at the path alone. */
  predicate UpdateSpares(original: Json, rendering: Json, path: seq<string>) {
    original.JMap? && rendering.JMap? ==> MergePatch.Spares(MergePatch.Diff(original, rendering), path)
  }

  /**
   What others put at a path outlives any sequence of updates whose patches spare it, and of edits elsewhere. Each
   patch is that from the rendering last committed to the next one.
  */
  lemma {:induction false} EditSurvivesUpdates(codec: Codec, r: Resource, acts: seq<Act>, path: seq<string>, j: nat)
    requires Lawful(codec) && Annotated(codec, r) && PartsFromAnnotation(path, j)
    requires SparesAnnotation(codec, r, acts)
    requires forall n | 0 <= n < |acts| ::
               match acts[n]
               case Update(rendering) => UpdateSpares(Run(codec, r, acts[..n]).committed, rendering, path)
               case Edit(replacement) => Lookup(replacement, path) == Lookup(Run(codec, r, acts[..n]).live, path)
    ensures var after := Run(codec, r, acts);
            Annotated(codec, after) && Lookup(after.live, path) == Lookup(r.live, path)
    decreases |acts|
  {
    if acts != [] {
      var before := acts[..|acts| - 1];
      assert forall i | 0 <= i < |before| :: before[..i] == acts[..i];
      EditSurvivesUpdates(codec, r, before, path, j);
      EditSurvivesAct(codec, Run(codec, r, before), acts[|acts| - 1], path, j);
    }
  }

  lemma {:induction false} EditSurvivesAct(codec: Codec, r: Resource, act: Act, path: seq<string>, j: nat)
    requires Lawful(codec) && Annotated(codec, r) && PartsFromAnnotation(path, j)
    requires match act
             case Update(rendering) => UpdateSpares(r.committed, rendering, path)
             case Edit(replacement) =>
               && replacement.JMap? && Lookup(replacement, ANNOTATION_PATH) == Lookup(r.live, ANNOTATION_PATH)
               && Lookup(replacement, path) == Lookup(r.live, path)
    ensures var after := Step(codec, r, act);
            Annotated(codec, after) && Lookup(after.live, path) == Lookup(r.live, path)
  {
    StepAnnotated(codec, r, act);
    if act.Update? {
      assert codec.decode(codec.encode(r.committed)) == Some(r.committed);
      match Merged(codec, r.live, act.rendering)
      case Ok(Some(updated)) =>
        var patch := MergePatch.Diff(r.committed, act.rendering);
        MergePatch.SparedStays(r.live, patch, path);
        SetNestedElsewhere(MergePatch.Apply(r.live, patch), ANNOTATION_PATH, JString(codec.encode(act.rendering)),
            path, j);
      case _ =>
    }
  }

  /** The rendering leads through objects to the `i`-th key of the path, and does not have that key. */
  predicate Unmentioned(rendering: Json, path: seq<string>, i: nat) {
    i < |path| && MergePatch.ObjectsTo(rendering, path, i) && Lookup(rendering, path[..i + 1]).None?
  }

  /** An update spares a path that neither rendering mentions, unless it takes away an object on the way to it. */
  lemma {:induction false} UnmentionedIsSpared(original: Json, rendering: Json, path: seq<string>, i: nat, k: nat)
    requires original.JMap? && rendering.JMap? && Unmentioned(original, path, i) && Unmentioned(rendering, path, k)
    ensures MergePatch.Spares(MergePatch.Diff(original, rendering), path) <==> i <= k
    decreases i
  {
    var key := path[0];
    assert path[..0] == [] && path[..1] == [key];
    if i > 0 {
      MergePatch.ObjectsStep(original, path, i);
      assert path[..i + 1][1..] == path[1..][..i];
    }
    if k > 0 {
      MergePatch.ObjectsStep(rendering, path, k);
      assert path[..k + 1][1..] == path[1..][..k];
    }
    if i > 0 && k > 0 {
      UnmentionedIsSpared(original.entries[key], rendering.entries[key], path[1..], i - 1, k - 1);
    } else {
      NotGot(original, key);
      NotGot(rendering, key);
      if k > 0 { AddedIsSpared(rendering.entries[key], path[1..], k - 1); }
    }
  }

  /** An object that is new in a rendering spares what it does not mention. */
  lemma {:induction false} AddedIsSpared(rendering: Json, path: seq<string>, k: nat)
    requires rendering.JMap? && Unmentioned(rendering, path, k)
    ensures MergePatch.Spares(rendering, path)
    decreases k
  {
    assert path[..0] == [] && path[..1] == [path[0]];
    if k > 0 {
      MergePatch.ObjectsStep(rendering, path, k);
      assert path[..k + 1][1..] == path[1..][..k];
      AddedIsSpared(rendering.entries[path[0]], path[1..], k - 1);
    } else {
      NotGot(rendering, path[0]);
    }
  }

  lemma {:induction false} NotGot(d: Json, k: string)
    ensures Lookup(d, [k]) == Get(d, k)
  {
    if Get(d, k).Some? {
      assert [k][1..] == [];
    }
  }
}
