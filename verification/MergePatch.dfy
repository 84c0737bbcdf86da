/** Merge patches: the diff the updater computes and its application by section 2 of RFC 7396. */
module MergePatch {
  import opened Json

  /** Section 2 of RFC 7396: objects merge attribute by attribute, null deletes, all else replaces. */
  function Apply(target: Json, patch: Json): Json
    decreases patch
  {
    if !patch.JMap? then patch
    else
      var base := if target.JMap? then target.entries else map[];
      JMap(map k | k in base.Keys + patch.entries.Keys && !(k in patch.entries && patch.entries[k].JNull?) ::
             if k in patch.entries
             then Apply(if k in base then base[k] else JNull, patch.entries[k])
             else base[k])
  }

  /** The merge patch from one object to another: recursive over the attributes both sides hold as objects. */
  function Diff(a: Json, b: Json): Json
    requires a.JMap? && b.JMap?
    decreases b
  {
    JMap(map k | k in a.entries.Keys + b.entries.Keys && Get(a, k) != Get(b, k) ::
           if k !in b.entries then JNull
           else if k in a.entries && a.entries[k].JMap? && b.entries[k].JMap? then Diff(a.entries[k], b.entries[k])
           else b.entries[k])
  }

  // ---- One attribute at a time ----

  /** How a patch changes one attribute. */
  function Patched(v: Option<Json>, p: Option<Json>): Option<Json> {
    match p
    case None => v
    case Some(q) =>
      if q.JNull? then None else Some(Apply(if v.Some? then v.value else JNull, q))
  }

  lemma {:induction false} ApplyAt(target: Json, patch: Json, k: string)
    requires patch.JMap?
    ensures Get(Apply(target, patch), k) == Patched(Get(target, k), Get(patch, k))
  {
    var base := if target.JMap? then target.entries else map[];
    assert Get(target, k) == if k in base then Some(base[k]) else None;
  }

  /** Two objects with the same attributes are the same object. */
  lemma {:induction false} SameAttributes(a: Json, b: Json)
    requires a.JMap? && b.JMap?
    requires forall k :: Get(a, k) == Get(b, k)
    ensures a == b
  {
    assert forall k :: k in a.entries <==> k in b.entries by {
      forall k ensures k in a.entries <==> k in b.entries { assert Get(a, k) == Get(b, k); }
    }
    assert forall k | k in a.entries :: a.entries[k] == b.entries[k] by {
      forall k | k in a.entries ensures a.entries[k] == b.entries[k] { assert Get(a, k) == Get(b, k); }
    }
    assert a.entries == b.entries;
  }

  // ---- Round trip ----

  /** Every null attribute of `b` is one `a` already holds at the same place, under objects on both sides. */
  predicate NullsInherited(a: Json, b: Json)
    decreases b
  {
    b.JMap? ==>
      forall k | k in b.entries ::
        || Get(a, k) == Some(b.entries[k])
        || (!b.entries[k].JNull? && NullsInherited(if Get(a, k).Some? then a.entries[k] else JNull, b.entries[k]))
  }

  /** A value that replaces something else survives application exactly when it carries no null attribute. */
  lemma {:induction false} ApplyFresh(target: Json, patch: Json)
    requires !target.JMap?
    ensures Apply(target, patch) == patch <==> NullsInherited(target, patch)
    decreases patch
  {
    if patch.JMap? {
      var r := Apply(target, patch);
      forall k | k in patch.entries && !patch.entries[k].JNull?
        ensures Get(r, k) == Some(patch.entries[k]) <==> NullsInherited(JNull, patch.entries[k])
      {
        ApplyAt(target, patch, k);
        ApplyFresh(JNull, patch.entries[k]);
      }
      forall k | k in patch.entries && patch.entries[k].JNull?
        ensures Get(r, k) != Some(patch.entries[k])
      {
        ApplyAt(target, patch, k);
      }
      if NullsInherited(target, patch) {
        forall k ensures Get(r, k) == Get(patch, k) { ApplyAt(target, patch, k); }
        SameAttributes(r, patch);
      }
    }
  }

  /** The law of the updater's diff, with its exact condition: patching the original gives the new rendering. */
  lemma {:induction false} DiffRoundTrip(a: Json, b: Json)
    requires a.JMap? && b.JMap?
    ensures Apply(a, Diff(a, b)) == b <==> NullsInherited(a, b)
    decreases b
  {
    var p := Diff(a, b);
    var r := Apply(a, p);
    forall k
      ensures Get(r, k) == Get(b, k) <==>
              (k in b.entries ==>
                 || Get(a, k) == Some(b.entries[k])
                 || (!b.entries[k].JNull?
                     && NullsInherited(if Get(a, k).Some? then a.entries[k] else JNull, b.entries[k])))
    {
      ApplyAt(a, p, k);
      if Get(a, k) != Get(b, k) && k in b.entries {
        if k in a.entries && a.entries[k].JMap? && b.entries[k].JMap? {
          DiffRoundTrip(a.entries[k], b.entries[k]);
        } else if k in a.entries && a.entries[k].JMap? {
        } else {
          ApplyFresh(if k in a.entries then a.entries[k] else JNull, b.entries[k]);
        }
      }
    }
    if NullsInherited(a, b) {
      SameAttributes(r, b);
    }
  }

  lemma {:induction false} NullFreeInherits(a: Json, b: Json)
    requires NullFree(b)
    ensures NullsInherited(a, b)
    decreases b
  {
    if b.JMap? {
      forall k | k in b.entries { NullFreeInherits(if Get(a, k).Some? then a.entries[k] else JNull, b.entries[k]); }
    }
  }

  // ---- The patch on a live object that others have edited ----

  /** What a merge owes to the new rendering at one path: its exact value, or an object where it has an object. */
  predicate Honours(merged: Option<Json>, wanted: Option<Json>) {
    if wanted.Some? && wanted.value.JMap? then merged.Some? && merged.value.JMap? else merged == wanted
  }

  lemma {:induction false} ApplyCarries(target: Json, patch: Json, path: seq<string>)
    requires Lookup(patch, path).Some? && !Lookup(patch, path).value.JNull?
    ensures Honours(Lookup(Apply(target, patch), path), Lookup(patch, path))
    decreases |path|
  {
    if path != [] {
      ApplyAt(target, patch, path[0]);
      var t := Get(target, path[0]);
      ApplyCarries(if t.Some? then t.value else JNull, patch.entries[path[0]], path[1..]);
    }
  }

  /** Wherever the two renderings differ, the merged object shows the new one, whatever the live object held. */
  lemma {:induction false} MergeShowsChanges(old_: Json, new_: Json, live: Json, path: seq<string>)
    requires old_.JMap? && new_.JMap?
    requires Lookup(old_, path) != Lookup(new_, path) && Lookup(new_, path) != Some(JNull)
    ensures Honours(Lookup(Apply(live, Diff(old_, new_)), path), Lookup(new_, path))
    decreases |path|
  {
    if path != [] {
      var k := path[0];
      var l := Get(live, k);
      ApplyAt(live, Diff(old_, new_), k);
      if k in new_.entries {
        if k in old_.entries && old_.entries[k].JMap? && new_.entries[k].JMap? {
          MergeShowsChanges(old_.entries[k], new_.entries[k], if l.Some? then l.value else JNull, path[1..]);
        } else if Lookup(new_, path).Some? {
          ApplyCarries(if l.Some? then l.value else JNull, new_.entries[k], path[1..]);
        }
      }
    }
  }

  /** The first `i` keys of the path lead through objects. */
  predicate ObjectsTo(d: Json, path: seq<string>, i: nat)
    requires i <= |path|
  {
    Lookup(d, path[..i]).Some? && Lookup(d, path[..i]).value.JMap?
  }

  lemma {:induction false} ObjectsStep(d: Json, path: seq<string>, i: nat)
    requires 0 < i <= |path| && ObjectsTo(d, path, i)
    ensures Get(d, path[0]).Some? && Get(d, path[0]).value.JMap? && ObjectsTo(Get(d, path[0]).value, path[1..], i - 1)
    ensures d.JMap?
  {
    assert path[..i][0] == path[0];
    assert path[..i][1..] == path[1..][..i - 1];
    var v := Get(d, path[0]).value;
    if i > 1 {
      assert Lookup(v, path[1..][..i - 1]).Some? && path[1..][..i - 1] != [];
      assert Get(v, path[1..][..i - 1][0]).Some?;
    }
  }

  /** The patch does not reach the path: it replaces and deletes neither the value there nor anything around it. */
  predicate Spares(patch: Json, path: seq<string>)
    decreases |path|
  {
    path != [] && patch.JMap? && (path[0] in patch.entries ==> Spares(patch.entries[path[0]], path[1..]))
  }

  lemma {:induction false} SparedStays(target: Json, patch: Json, path: seq<string>)
    requires Spares(patch, path)
    ensures Lookup(Apply(target, patch), path) == Lookup(target, path)
    decreases |path|
  {
    var k := path[0];
    var t := Get(target, k);
    ApplyAt(target, patch, k);
    if k in patch.entries {
      SparedStays(if t.Some? then t.value else JNull, patch.entries[k], path[1..]);
    }
  }

  /** A document that shows, at the path, what the patch does there. */
  function Victim(patch: Json, path: seq<string>): Json
    decreases |path|
  {
    if path == [] then if patch.JMap? then JNull else JMap(map[])
    else JMap(map[path[0] := Victim(if Get(patch, path[0]).Some? then patch.entries[path[0]] else JNull, path[1..])])
  }

  lemma {:induction false} VictimHasPath(patch: Json, path: seq<string>)
    ensures Lookup(Victim(patch, path), path).Some?
    decreases |path|
  {
    if path != [] {
      VictimHasPath(if Get(patch, path[0]).Some? then patch.entries[path[0]] else JNull, path[1..]);
    }
  }

  lemma {:induction false} ReachedChanges(patch: Json, path: seq<string>)
    requires path != [] && patch.JMap? && !Spares(patch, path)
    ensures Lookup(Apply(Victim(patch, path), patch), path) != Lookup(Victim(patch, path), path)
    decreases |path|
  {
    var k := path[0];
    var q := patch.entries[k];
    ApplyAt(Victim(patch, path), patch, k);
    VictimHasPath(patch, path);
    if path[1..] != [] && q.JMap? {
      ReachedChanges(q, path[1..]);
    }
  }

  /** A patch leaves the value at a path alone, whatever the document, exactly if it spares the path. */
  lemma {:induction false} KeepsExactlySpared(patch: Json, path: seq<string>)
    requires path != [] && patch.JMap?
    ensures Spares(patch, path) <==> forall target :: Lookup(Apply(target, patch), path) == Lookup(target, path)
  {
    if Spares(patch, path) {
      forall target ensures Lookup(Apply(target, patch), path) == Lookup(target, path) {
        SparedStays(target, patch, path);
      }
    } else {
      ReachedChanges(patch, path);
    }
  }

  /** The diff of two renderings that agree on an attribute spares everything at and below it. */
  lemma {:induction false} AgreementIsSpared(old_: Json, new_: Json, path: seq<string>, i: nat)
    requires i < |path| && ObjectsTo(old_, path, i) && ObjectsTo(new_, path, i)
    requires Lookup(old_, path[..i + 1]) == Lookup(new_, path[..i + 1])
    ensures old_.JMap? && new_.JMap? && Spares(Diff(old_, new_), path)
    decreases i
  {
    var k := path[0];
    if i == 0 {
      assert path[..0] == [] && path[..1] == [k];
    } else {
      ObjectsStep(old_, path, i);
      ObjectsStep(new_, path, i);
      assert path[..i + 1][1..] == path[1..][..i];
      AgreementIsSpared(old_.entries[k], new_.entries[k], path[1..], i - 1);
    }
  }

  /** The merge keeps the live value at and below every attribute on which the two renderings agree. */
  lemma {:induction false} MergeKeepsLive(old_: Json, new_: Json, live: Json, path: seq<string>, i: nat)
    requires i < |path| && ObjectsTo(old_, path, i) && ObjectsTo(new_, path, i)
    requires Lookup(old_, path[..i + 1]) == Lookup(new_, path[..i + 1])
    ensures old_.JMap? && new_.JMap?
    ensures Lookup(Apply(live, Diff(old_, new_)), path) == Lookup(live, path)
  {
    AgreementIsSpared(old_, new_, path, i);
    SparedStays(live, Diff(old_, new_), path);
  }
}
