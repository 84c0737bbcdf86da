/**
 Rendering a template document in place: strings are replaced by what they resolve to, and the loop over an
 object's attributes, in whatever order the map gives them, stops at the first one that resolves to null.
 `leaf` is the rendering of one string.
*/
module Render {
  import opened Json

  type Leaf = string -> Result<Json>

  const FAILED: Result<Json> := Err("rendering failed")

  function OrNull(r: Result<Json>): Json {
    if r.Ok? then r.value else JNull
  }

  /** The documented rendering: every string resolved, every attribute that resolves to null removed. */
  function Rendered(leaf: Leaf, d: Json): Result<Json> {
    match d
    case JString(s) => leaf(s)
    case JList(xs) =>
      if forall i | 0 <= i < |xs| :: Rendered(leaf, xs[i]).Ok?
      then Ok(JList(seq(|xs|, i requires 0 <= i < |xs| => OrNull(Rendered(leaf, xs[i])))))
      else FAILED
    case JMap(m) =>
      if forall k | k in m :: Rendered(leaf, m[k]).Ok?
      then Ok(JMap(map k | k in m && Rendered(leaf, m[k]) != Ok(JNull) :: OrNull(Rendered(leaf, m[k]))))
      else FAILED
    case _ => Ok(d)
  }

  // ---- The documented rendering, place by place ----

  datatype Place = Item(index: nat) | Attribute(key: string)

  /** What is found by following the places from the root. */
  function At(d: Json, path: seq<Place>): Option<Json> {
    if path == [] then Some(d)
    else match (path[0], d)
      case (Item(i), JList(xs)) => if i < |xs| then At(xs[i], path[1..]) else None
      case (Attribute(k), JMap(m)) => if k in m then At(m[k], path[1..]) else None
      case _ => None
  }

  /** No attribute on the path resolves to null. */
  predicate Kept(leaf: Leaf, d: Json, path: seq<Place>) {
    path == [] || match (path[0], d)
      case (Item(i), JList(xs)) => i < |xs| && Kept(leaf, xs[i], path[1..])
      case (Attribute(k), JMap(m)) => k in m && !IsNull(leaf, m[k]) && Kept(leaf, m[k], path[1..])
      case _ => false
  }

  /**
   Wherever nothing on the way is removed, a string stands rendered, a list has its length, an object has all its
   attributes but those that resolve to null, and anything else is what it was.
  */
  lemma {:induction false} RenderedAt(leaf: Leaf, d: Json, path: seq<Place>)
    requires Rendered(leaf, d).Ok? && Kept(leaf, d, path)
    ensures var before, after := At(d, path), At(Rendered(leaf, d).value, path);
            && before.Some? && (before.value.JString? || after.Some?)
            && match before.value
               case JString(s) => leaf(s).Ok? && after == Some(leaf(s).value)
               case JList(xs) => after.value.JList? && |after.value.items| == |xs|
               case JMap(m) =>
                 && after.value.JMap?
                 && forall k :: k in after.value.entries <==> k in m && !IsNull(leaf, m[k])
               case _ => after == before
    decreases |path|
  {
    var r := Rendered(leaf, d).value;
    if path == [] {
      if d.JMap? {
        forall k ensures k in r.entries <==> k in d.entries && !IsNull(leaf, d.entries[k]) {
          if k in d.entries { OnlyNullsRenderToNull(leaf, d.entries[k]); }
        }
      }
    } else {
      match (path[0], d)
      case (Item(i), JList(xs)) =>
        assert r.items[i] == Rendered(leaf, xs[i]).value;
        RenderedAt(leaf, xs[i], path[1..]);
      case (Attribute(k), JMap(m)) =>
        OnlyNullsRenderToNull(leaf, m[k]);
        assert r.entries[k] == Rendered(leaf, m[k]).value;
        RenderedAt(leaf, m[k], path[1..]);
    }
  }

  lemma {:induction false} OnlyNullsRenderToNull(leaf: Leaf, v: Json)
    ensures Rendered(leaf, v) == Ok(JNull) <==> IsNull(leaf, v)
  {
  }

  /** Rendering fails exactly if some string does. */
  ghost predicate SomeStringFails(leaf: Leaf, d: Json) {
    exists path, s :: At(d, path) == Some(JString(s)) && leaf(s).Err?
  }

  lemma {:induction false} FailureIsOfAString(leaf: Leaf, d: Json)
    ensures Rendered(leaf, d).Err? <==> SomeStringFails(leaf, d)
    decreases d
  {
    match d
    case JString(s) =>
      assert At(d, []) == Some(JString(s));
      if path: seq<Place>, t :| At(d, path) == Some(JString(t)) && leaf(t).Err? {
        assert path == [];
      }
    case JList(xs) =>
      forall i | 0 <= i < |xs|
        ensures Rendered(leaf, xs[i]).Err? <==> SomeStringFails(leaf, xs[i])
        ensures SomeStringFails(leaf, xs[i]) ==> SomeStringFails(leaf, d)
      {
        FailureIsOfAString(leaf, xs[i]);
        if path: seq<Place>, s :| At(xs[i], path) == Some(JString(s)) && leaf(s).Err? {
          FoundBelow(d, Item(i), path);
        }
      }
      if path: seq<Place>, s :| At(d, path) == Some(JString(s)) && leaf(s).Err? {
        assert At(xs[path[0].index], path[1..]) == Some(JString(s));
      }
    case JMap(m) =>
      forall k | k in m
        ensures Rendered(leaf, m[k]).Err? <==> SomeStringFails(leaf, m[k])
        ensures SomeStringFails(leaf, m[k]) ==> SomeStringFails(leaf, d)
      {
        FailureIsOfAString(leaf, m[k]);
        if path: seq<Place>, s :| At(m[k], path) == Some(JString(s)) && leaf(s).Err? {
          FoundBelow(d, Attribute(k), path);
        }
      }
      if path: seq<Place>, s :| At(d, path) == Some(JString(s)) && leaf(s).Err? {
        assert At(m[path[0].key], path[1..]) == Some(JString(s));
      }
    case _ =>
      if path: seq<Place>, s :| At(d, path) == Some(JString(s)) && leaf(s).Err? {
        assert false;
      }
  }

  lemma {:induction false} FoundBelow(d: Json, place: Place, path: seq<Place>)
    requires At(d, [place]).Some?
    ensures At(d, [place] + path) == At(At(d, [place]).value, path)
  {
    assert ([place] + path)[1..] == path;
    assert [place][1..] == [];
  }

  // ---- What the walk may do ----

  /** `r` is a possible result of walking `d`, for some iteration orders of the maps in it. */
  ghost predicate Walked(leaf: Leaf, d: Json, r: Result<Json>)
    decreases d, 1
  {
    match d
    case JString(s) => r == leaf(s)
    case JList(xs) =>
      if r.Ok?
      then r.value.JList? && |r.value.items| == |xs|
          && forall i | 0 <= i < |xs| :: Walked(leaf, xs[i], Ok(r.value.items[i]))
      else exists i | 0 <= i < |xs| :: Walked(leaf, xs[i], r)
    case JMap(m) =>
      if r.Ok?
      then r.value.JMap?
          && exists visited: set<string>, stop: Option<string> :: Visits(leaf, d, visited, stop, r.value.entries)
      else exists k | k in m :: Walked(leaf, m[k], r)
    case _ => r == Ok(d)
  }

  /** One walk over an object: the attributes visited before it ends, and the one it stopped at and removed, if any. */
  ghost predicate Visits(leaf: Leaf, d: Json, visited: set<string>, stop: Option<string>, after: map<string, Json>)
    requires d.JMap?
    decreases d, 0
  {
    && (forall k | k in d.entries && k in visited ::
          k in after && !after[k].JNull? && Walked(leaf, d.entries[k], Ok(after[k])))
    && (match stop
        case None => visited == d.entries.Keys == after.Keys
        case Some(null_) =>
          && null_ in d.entries && null_ !in visited && visited <= d.entries.Keys
          && Walked(leaf, d.entries[null_], Ok(JNull))
          && after.Keys == d.entries.Keys - {null_}
          && forall k | k in after && k !in visited :: after[k] == d.entries[k])
  }

  /** The renderer, with the map's iteration order left open. */
  method RecurseRender(leaf: Leaf, d: Json) returns (r: Result<Json>)
    ensures Walked(leaf, d, r)
    decreases d
  {
    match d {
      case JString(s) =>
        return leaf(s);
      case JMap(m) =>
        var t, rest := m, m.Keys;
        ghost var visited: set<string> := {};
        while rest != {}
          invariant rest <= m.Keys && visited == m.Keys - rest
          invariant t.Keys == m.Keys
          invariant forall k | k in rest :: t[k] == m[k]
          invariant forall k | k in visited :: !t[k].JNull? && Walked(leaf, m[k], Ok(t[k]))
          decreases rest
        {
          var k :| k in rest;
          var value := RecurseRender(leaf, m[k]);
          if value.Err? { return value; }
          if value.value.JNull? {
            t := t - {k};
            assert Visits(leaf, d, visited, Some(k), t);
            return Ok(JMap(t));
          }
          t := t[k := value.value];
          rest := rest - {k};
          visited := visited + {k};
        }
        assert Visits(leaf, d, visited, None, t);
        return Ok(JMap(t));
      case JList(xs) =>
        var t := xs;
        for i := 0 to |xs|
          invariant |t| == |xs|
          invariant forall j | 0 <= j < i :: Walked(leaf, xs[j], Ok(t[j]))
        {
          var value := RecurseRender(leaf, xs[i]);
          if value.Err? { return value; }
          t := t[i := value.value];
        }
        return Ok(JList(t));
      case _ =>
        return Ok(d);
    }
  }

  // ---- Nulls ----

  /** A value that resolves to null; objects and lists never do. */
  predicate IsNull(leaf: Leaf, v: Json) {
    v.JNull? || (v.JString? && leaf(v.s) == Ok(JNull))
  }

  lemma {:induction false} OnlyNullsWalkToNull(leaf: Leaf, v: Json)
    ensures Walked(leaf, v, Ok(JNull)) <==> IsNull(leaf, v)
    ensures Rendered(leaf, v) == Ok(JNull) <==> IsNull(leaf, v)
    ensures IsNull(leaf, v) ==> forall r | Walked(leaf, v, r) :: r == Ok(JNull)
  {
  }

  /** Whatever the order, a walk removes at most one attribute of an object, and only one that resolves to null;
      every other attribute is rendered to something else than null, or was not reached and is untouched. */
  lemma {:induction false} WalkShape(leaf: Leaf, d: Json, r: Json)
    requires d.JMap? && Walked(leaf, d, Ok(r))
    ensures r.JMap? && r.entries.Keys <= d.entries.Keys
    ensures |d.entries.Keys - r.entries.Keys| <= 1
    ensures forall k | k in d.entries && k !in r.entries :: IsNull(leaf, d.entries[k])
    ensures forall k | k in r.entries ::
              r.entries[k] == d.entries[k] || (!r.entries[k].JNull? && Walked(leaf, d.entries[k], Ok(r.entries[k])))
    ensures (forall k | k in d.entries :: !IsNull(leaf, d.entries[k])) ==>
              r.entries.Keys == d.entries.Keys
                  && forall k | k in d.entries :: Walked(leaf, d.entries[k], Ok(r.entries[k]))
  {
    var visited, stop :| Visits(leaf, d, visited, stop, r.entries);
    match stop
    case None =>
      assert d.entries.Keys - r.entries.Keys == {};
    case Some(k) =>
      assert d.entries.Keys - r.entries.Keys == {k};
      OnlyNullsWalkToNull(leaf, d.entries[k]);
  }

  /** A walk fails with the error of a string in the document. */
  lemma {:induction false} WalkFailsAtAString(leaf: Leaf, d: Json, error: string) returns (path: seq<Place>, s: string)
    requires Walked(leaf, d, Err(error))
    ensures At(d, path) == Some(JString(s)) && leaf(s) == Err(error)
    decreases d
  {
    match d
    case JString(t) => path, s := [], t;
    case JList(xs) =>
      var i :| 0 <= i < |xs| && Walked(leaf, xs[i], Err(error));
      path, s := WalkFailsAtAString(leaf, xs[i], error);
      FoundBelow(d, Item(i), path);
      path := [Item(i)] + path;
    case JMap(m) =>
      var k :| k in m && Walked(leaf, m[k], Err(error));
      path, s := WalkFailsAtAString(leaf, m[k], error);
      FoundBelow(d, Attribute(k), path);
      path := [Attribute(k)] + path;
  }

  // ---- When the walk is the documented rendering ----

  predicate Same(a: Result<Json>, b: Result<Json>) {
    (a.Err? && b.Err?) || a == b
  }

  /** A document that renders without error cannot fail on any walk. */
  lemma {:induction false} RendersSoWalks(leaf: Leaf, d: Json, r: Result<Json>)
    requires Rendered(leaf, d).Ok? && Walked(leaf, d, r)
    ensures r.Ok?
    decreases d
  {
    if r.Err? {
      match d
      case JList(xs) =>
        var i :| 0 <= i < |xs| && Walked(leaf, xs[i], r);
        RendersSoWalks(leaf, xs[i], r);
      case JMap(m) =>
        var k :| k in m && Walked(leaf, m[k], r);
        RendersSoWalks(leaf, m[k], r);
      case _ =>
    }
  }

  /** A document that renders to itself is left alone by every walk. */
  lemma {:induction false} FixedSoUntouched(leaf: Leaf, d: Json, r: Result<Json>)
    requires Rendered(leaf, d) == Ok(d) && Walked(leaf, d, r)
    ensures r == Ok(d)
    decreases d
  {
    RendersSoWalks(leaf, d, r);
    match d
    case JList(xs) =>
      forall i | 0 <= i < |xs| ensures r.value.items[i] == xs[i] {
        assert Rendered(leaf, d).value.items[i] == xs[i];
        FixedSoUntouched(leaf, xs[i], Ok(r.value.items[i]));
      }
      assert r.value.items == xs;
    case JMap(m) =>
      forall k | k in m ensures Rendered(leaf, m[k]) == Ok(m[k]) && !IsNull(leaf, m[k]) {
        assert k in Rendered(leaf, d).value.entries;
        OnlyNullsWalkToNull(leaf, m[k]);
      }
      WalkShape(leaf, d, r.value);
      forall k | k in m ensures r.value.entries[k] == m[k] {
        FixedSoUntouched(leaf, m[k], Ok(r.value.entries[k]));
      }
      assert r.value.entries == m;
    case _ =>
  }

  predicate HasNull(leaf: Leaf, d: Json)
    requires d.JMap?
  {
    exists k :: k in d.entries && IsNull(leaf, d.entries[k])
  }

  /** `k` is the one attribute that resolves to null, and no other attribute has anything to render. */
  predicate LoneNull(leaf: Leaf, d: Json, k: string)
    requires d.JMap?
  {
    && k in d.entries && IsNull(leaf, d.entries[k])
    && forall j | j in d.entries && j != k :: !IsNull(leaf, d.entries[j])
        && Rendered(leaf, d.entries[j]) == Ok(d.entries[j])
  }

  /**
   The iteration order cannot matter: no object has an attribute that resolves to null, except where it is the
   only attribute with anything to render; or an error is inevitable.
  */
  predicate Settled(leaf: Leaf, d: Json)
    decreases d
  {
    match d
    case JList(xs) =>
      || (Rendered(leaf, d).Ok? && forall i | 0 <= i < |xs| :: Settled(leaf, xs[i]))
      || (exists i | 0 <= i < |xs| :: Rendered(leaf, xs[i]).Err? && Settled(leaf, xs[i]))
    case JMap(m) =>
      if HasNull(leaf, d) then exists k | k in m :: LoneNull(leaf, d, k)
      else
        || (Rendered(leaf, d).Ok? && forall k | k in m :: Settled(leaf, m[k]))
        || (exists k | k in m :: Rendered(leaf, m[k]).Err? && Settled(leaf, m[k]))
    case _ => true
  }

  // ---- Settled documents ----

  lemma {:induction false} NullsAreNotVisited(leaf: Leaf, d: Json, visited: set<string>, stop: Option<string>,
          after: map<string, Json>, k: string)
    requires d.JMap? && Visits(leaf, d, visited, stop, after) && k in d.entries && IsNull(leaf, d.entries[k])
    ensures k !in visited
  {
    assert k in visited ==> Walked(leaf, d.entries[k], Ok(after[k]));
    OnlyNullsWalkToNull(leaf, d.entries[k]);
  }

  lemma {:induction false} LoneNullSettles(leaf: Leaf, d: Json, k: string, r: Result<Json>)
    requires d.JMap? && LoneNull(leaf, d, k) && Walked(leaf, d, r)
    ensures r == Ok(JMap(d.entries - {k})) && Rendered(leaf, d) == r
  {
    var m := d.entries;
    forall j | j in m ensures Rendered(leaf, m[j]) == if j == k then Ok(JNull) else Ok(m[j]) {
      OnlyNullsWalkToNull(leaf, m[j]);
    }
    RendersSoWalks(leaf, d, r);
    var visited, stop :| Visits(leaf, d, visited, stop, r.value.entries);
    NullsAreNotVisited(leaf, d, visited, stop, r.value.entries, k);
    assert stop == Some(k) by {
      match stop
      case Some(j) => OnlyNullsWalkToNull(leaf, m[j]);
      case None =>
    }
    forall j | j in m && j != k ensures r.value.entries[j] == m[j] {
      if j in visited { FixedSoUntouched(leaf, m[j], Ok(r.value.entries[j])); }
    }
    assert r.value.entries == m - {k};
    forall j | j in m ensures (Rendered(leaf, m[j]) != Ok(JNull)) <==> j != k { OnlyNullsWalkToNull(leaf, m[j]); }
    assert Rendered(leaf, d).value.entries == m - {k};
  }

  lemma {:induction false} SettledWalksAgree(leaf: Leaf, d: Json, r: Result<Json>)
    requires Settled(leaf, d) && Walked(leaf, d, r)
    ensures Same(r, Rendered(leaf, d))
    decreases d
  {
    match d
    case JList(xs) =>
      if Rendered(leaf, d).Ok? {
        RendersSoWalks(leaf, d, r);
        forall i | 0 <= i < |xs| ensures r.value.items[i] == Rendered(leaf, d).value.items[i] {
          SettledWalksAgree(leaf, xs[i], Ok(r.value.items[i]));
        }
        assert r.value.items == Rendered(leaf, d).value.items;
      } else if r.Ok? {
        var i :| 0 <= i < |xs| && Rendered(leaf, xs[i]).Err? && Settled(leaf, xs[i]);
        SettledWalksAgree(leaf, xs[i], Ok(r.value.items[i]));
      }
    case JMap(m) =>
      if HasNull(leaf, d) {
        var k :| k in m && LoneNull(leaf, d, k);
        LoneNullSettles(leaf, d, k, r);
      } else {
        SettledObjectsAgree(leaf, d, r);
      }
    case _ =>
  }

  lemma {:induction false} SettledObjectsAgree(leaf: Leaf, d: Json, r: Result<Json>)
    requires d.JMap? && !HasNull(leaf, d) && Settled(leaf, d) && Walked(leaf, d, r)
    ensures Same(r, Rendered(leaf, d))
    decreases d, 0
  {
    var m := d.entries;
    if Rendered(leaf, d).Ok? {
      RendersSoWalks(leaf, d, r);
      WalkShape(leaf, d, r.value);
      forall k | k in m ensures Rendered(leaf, m[k]) == Ok(r.value.entries[k]) {
        SettledWalksAgree(leaf, m[k], Ok(r.value.entries[k]));
      }
      RenderedAs(leaf, d, r.value.entries);
    } else if r.Ok? {
      WalkShape(leaf, d, r.value);
      var k :| k in m && Rendered(leaf, m[k]).Err? && Settled(leaf, m[k]);
      SettledWalksAgree(leaf, m[k], Ok(r.value.entries[k]));
    }
  }

  lemma {:induction false} RenderedAs(leaf: Leaf, d: Json, after: map<string, Json>)
    requires d.JMap? && !HasNull(leaf, d) && after.Keys == d.entries.Keys
    requires forall k | k in d.entries :: Rendered(leaf, d.entries[k]) == Ok(after[k])
    ensures Rendered(leaf, d) == Ok(JMap(after))
  {
    forall k | k in d.entries ensures Rendered(leaf, d.entries[k]) != Ok(JNull) {
      OnlyNullsWalkToNull(leaf, d.entries[k]);
    }
    assert Rendered(leaf, d).value.entries == after;
  }

  // ---- Unsettled documents ----

  /** The least careful walk: it reaches an attribute that resolves to null first, wherever there is one. */
  ghost function Hasty(leaf: Leaf, d: Json): Result<Json> {
    match d
    case JString(s) => leaf(s)
    case JList(xs) =>
      if exists i | 0 <= i < |xs| :: Hasty(leaf, xs[i]).Err?
      then var i :| 0 <= i < |xs| && Hasty(leaf, xs[i]).Err?; Hasty(leaf, xs[i])
      else Ok(JList(seq(|xs|, i requires 0 <= i < |xs| => OrNull(Hasty(leaf, xs[i])))))
    case JMap(m) =>
      if HasNull(leaf, d) then var k :| k in m && IsNull(leaf, m[k]); Ok(JMap(m - {k}))
      else if exists k | k in m :: Hasty(leaf, m[k]).Err?
      then var k :| k in m && Hasty(leaf, m[k]).Err?; Hasty(leaf, m[k])
      else Ok(JMap(map k | k in m :: OrNull(Hasty(leaf, m[k]))))
    case _ => Ok(d)
  }

  lemma {:induction false} HastyWalks(leaf: Leaf, d: Json)
    ensures Walked(leaf, d, Hasty(leaf, d))
    decreases d
  {
    match d
    case JList(xs) =>
      forall i | 0 <= i < |xs| { HastyWalks(leaf, xs[i]); }
    case JMap(m) =>
      forall k | k in m
        ensures Walked(leaf, m[k], Hasty(leaf, m[k]))
        ensures (Hasty(leaf, m[k]) == Ok(JNull) || IsNull(leaf, m[k]) ==> Walked(leaf, m[k], Ok(JNull)))
        ensures Hasty(leaf, m[k]) == Ok(JNull) ==> IsNull(leaf, m[k])
      {
        HastyWalks(leaf, m[k]);
        OnlyNullsWalkToNull(leaf, m[k]);
      }
      if HasNull(leaf, d) {
        var k :| k in m && IsNull(leaf, m[k]) && Hasty(leaf, d) == Ok(JMap(m - {k}));
        assert Visits(leaf, d, {}, Some(k), m - {k});
      } else if forall k | k in m :: Hasty(leaf, m[k]).Ok? {
        var after := map k | k in m :: OrNull(Hasty(leaf, m[k]));
        assert Visits(leaf, d, m.Keys, None, after);
      }
    case _ =>
  }

  lemma {:induction false} UnsettledWalkDiffers(leaf: Leaf, d: Json)
    requires !Settled(leaf, d)
    ensures !Same(Hasty(leaf, d), Rendered(leaf, d))
    decreases d
  {
    match d
    case JList(xs) =>
      forall i | 0 <= i < |xs| && !Settled(leaf, xs[i]) ensures !Same(Hasty(leaf, xs[i]), Rendered(leaf, xs[i])) {
        UnsettledWalkDiffers(leaf, xs[i]);
      }
      forall i | 0 <= i < |xs| && Rendered(leaf, xs[i]).Ok? ensures Hasty(leaf, xs[i]).Ok? {
        HastyWalks(leaf, xs[i]);
        RendersSoWalks(leaf, xs[i], Hasty(leaf, xs[i]));
      }
      if Rendered(leaf, d).Ok? {
        var i :| 0 <= i < |xs| && !Settled(leaf, xs[i]);
        assert Hasty(leaf, d).value.items[i] != Rendered(leaf, d).value.items[i];
      }
    case JMap(m) =>
      if HasNull(leaf, d) {
        var k :| k in m && IsNull(leaf, m[k]) && Hasty(leaf, d) == Ok(JMap(m - {k}));
        assert !LoneNull(leaf, d, k);
        var j :| j in m && j != k && (IsNull(leaf, m[j]) || Rendered(leaf, m[j]) != Ok(m[j]));
        HastyRemovesTooLittle(leaf, d, k, j);
      } else {
        UnsettledObjectDiffers(leaf, d);
      }
    case _ =>
  }

  /** The walk that stops at `k` leaves `j` as it was, though it had to go or to change. */
  lemma {:induction false} HastyRemovesTooLittle(leaf: Leaf, d: Json, k: string, j: string)
    requires d.JMap? && k in d.entries && j in d.entries && j != k
    requires IsNull(leaf, d.entries[j]) || Rendered(leaf, d.entries[j]) != Ok(d.entries[j])
    ensures !Same(Ok(JMap(d.entries - {k})), Rendered(leaf, d))
  {
    var m := d.entries;
    OnlyNullsWalkToNull(leaf, m[j]);
    if Rendered(leaf, d).Ok? {
      var shown := Rendered(leaf, d).value.entries;
      assert j in shown ==> shown[j] != m[j];
      assert (m - {k})[j] == m[j];
    }
  }

  lemma {:induction false} UnsettledObjectDiffers(leaf: Leaf, d: Json)
    requires d.JMap? && !HasNull(leaf, d) && !Settled(leaf, d)
    ensures !Same(Hasty(leaf, d), Rendered(leaf, d))
    decreases d, 0
  {
    var m := d.entries;
    forall k | k in m && !Settled(leaf, m[k]) ensures !Same(Hasty(leaf, m[k]), Rendered(leaf, m[k])) {
      UnsettledWalkDiffers(leaf, m[k]);
    }
    forall k | k in m && Rendered(leaf, m[k]).Ok? ensures Hasty(leaf, m[k]).Ok? && Rendered(leaf, m[k]) != Ok(JNull) {
      HastyWalks(leaf, m[k]);
      RendersSoWalks(leaf, m[k], Hasty(leaf, m[k]));
      OnlyNullsWalkToNull(leaf, m[k]);
    }
    if Rendered(leaf, d).Ok? {
      var k :| k in m && !Settled(leaf, m[k]);
      assert Hasty(leaf, d).value.entries[k] != Rendered(leaf, d).value.entries[k];
    }
  }

  ghost predicate OrderIsHarmless(leaf: Leaf, d: Json) {
    forall r | Walked(leaf, d, r) :: Same(r, Rendered(leaf, d))
  }

  /** The walk gives the documented rendering whatever the iteration orders, exactly on settled documents. */
  lemma {:induction false} OrderIsHarmlessWhenSettled(leaf: Leaf, d: Json)
    ensures OrderIsHarmless(leaf, d) <==> Settled(leaf, d)
  {
    if Settled(leaf, d) {
      forall r | Walked(leaf, d, r) { SettledWalksAgree(leaf, d, r); }
    } else {
      HastyWalks(leaf, d);
      UnsettledWalkDiffers(leaf, d);
    }
  }

  /** No attribute at any depth resolves to null, and everything renders: nulls inside lists are welcome. */
  predicate NeverNull(leaf: Leaf, d: Json)
    decreases d
  {
    match d
    case JString(s) => leaf(s).Ok?
    case JList(xs) => forall i | 0 <= i < |xs| :: NeverNull(leaf, xs[i])
    case JMap(m) => forall k | k in m :: !IsNull(leaf, m[k]) && NeverNull(leaf, m[k])
    case _ => true
  }

  lemma {:induction false} NeverNullSettles(leaf: Leaf, d: Json)
    requires NeverNull(leaf, d)
    ensures Rendered(leaf, d).Ok? && Settled(leaf, d)
    decreases d
  {
    match d
    case JList(xs) => forall i | 0 <= i < |xs| { NeverNullSettles(leaf, xs[i]); }
    case JMap(m) => forall k | k in m { NeverNullSettles(leaf, m[k]); }
    case _ =>
  }

  /** On such documents the in-place renderer is the documented rendering. */
  lemma {:induction false} NullFreeRendersAsDocumented(leaf: Leaf, d: Json, r: Result<Json>)
    requires NeverNull(leaf, d) && Walked(leaf, d, r)
    ensures r == Rendered(leaf, d)
  {
    NeverNullSettles(leaf, d);
    SettledWalksAgree(leaf, d, r);
  }

  /** Two attributes that are null: a walk removes the one it meets first, and keeps the other. */
  lemma {:induction false} TwoNullsLeaveOne(leaf: Leaf)
    ensures var d := JMap(map["a" := JNull, "b" := JNull]);
            && Rendered(leaf, d) == Ok(JMap(map[]))
            && Walked(leaf, d, Ok(JMap(map["a" := JNull]))) && Walked(leaf, d, Ok(JMap(map["b" := JNull])))
            && !Settled(leaf, d)
  {
    var d := JMap(map["a" := JNull, "b" := JNull]);
    assert Visits(leaf, d, {}, Some("b"), map["a" := JNull]);
    assert Visits(leaf, d, {}, Some("a"), map["b" := JNull]);
    assert HasNull(leaf, d) by { assert "a" in d.entries; }
  }
}
