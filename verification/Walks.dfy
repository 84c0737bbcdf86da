/**
 What templates that refer to templates may render to: every document, the referenced ones too, is walked in some
 iteration order of its maps, and each time in another one. A rendering has many possible outcomes; `bottom` are
 those assumed beyond the given depth.
*/
module Walks {
  import opened Json
  import opened Template
  import opened Snippets
  import Config
  import Render

  type Outcomes = o: iset<Result<Json>> | o != iset{} ghost witness iset{Err("")}

  /** The answers of one evaluation's calls; within it the same call always gives the same answer. */
  type Answers = imap<(string, seq<Json>), Result<Json>>

  function Call(answers: Answers): (string, seq<Json>) -> Result<Json> {
    (name: string, args: seq<Json>) => if (name, args) in answers then answers[(name, args)] else Err("no answer")
  }

  // ---- Possible outcomes ----

  ghost predicate MayCall(w: World, depth: nat, bottom: Outcomes, name: string, args: seq<Json>, r: Result<Json>)
    decreases depth, 0, 0
  {
    match name
    case "snippet" =>
      if |args| != 1 || !args[0].JString? then r == Err("bad arguments for snippet")
      else if depth == 0 then r in bottom
      else MayRender(w, depth - 1, bottom, args[0].s, JNull, r)
    case "snippetArray" =>
      if |args| != 2 || !args[0].JString? || !IsArray(args[1]) then r == Err("bad arguments for snippetArray")
      else if Config.GetTemplate(w.templates, args[0].s).None? then r == Err("unable to locate template")
      else if depth == 0 then r in bottom
      else MayElements(w, depth - 1, bottom, args[0].s, ArrayOf(args[1]), r)
    case _ => r == w.call(name, args)
  }

  ghost predicate MayElements(w: World, depth: nat, bottom: Outcomes, name: string, parameters: seq<Json>,
          r: Result<Json>)
    decreases depth, 5, |parameters|
  {
    match r
    case Ok(v) =>
      && v.JList? && |v.items| == |parameters|
      && forall i | 0 <= i < |parameters| :: MayRender(w, depth, bottom, name, parameters[i], Ok(v.items[i]))
    case Err(_) => exists i | 0 <= i < |parameters| :: MayRender(w, depth, bottom, name, parameters[i], r)
  }

  ghost predicate MayRender(w: World, depth: nat, bottom: Outcomes, name: string, dot: Json, r: Result<Json>)
    decreases depth, 4
  {
    match Config.GetTemplate(w.templates, name)
    case None => r == Err("unable to locate template")
    case Some(t) =>
      if t.body.None? then r == Err("template is not defined") else MayWalk(w, depth, bottom, dot, t.body.value, r)
  }

  /** Walking a document, each of its strings resolving to any of its outcomes. */
  ghost predicate MayWalk(w: World, depth: nat, bottom: Outcomes, dot: Json, d: Json, r: Result<Json>)
    decreases depth, 3, d, 1
  {
    match d
    case JString(s) => MayResolve(w, depth, bottom, dot, s, r)
    case JList(xs) =>
      if r.Ok?
      then r.value.JList? && |r.value.items| == |xs|
           && forall i | 0 <= i < |xs| :: MayWalk(w, depth, bottom, dot, xs[i], Ok(r.value.items[i]))
      else exists i | 0 <= i < |xs| :: MayWalk(w, depth, bottom, dot, xs[i], r)
    case JMap(m) =>
      if r.Ok?
      then r.value.JMap?
          && exists visited: set<string>, stop: Option<string> ::
              MayVisit(w, depth, bottom, dot, d, visited, stop, r.value.entries)
      else exists k | k in m :: MayWalk(w, depth, bottom, dot, m[k], r)
    case _ => r == Ok(d)
  }

  ghost predicate MayVisit(w: World, depth: nat, bottom: Outcomes, dot: Json, d: Json, visited: set<string>,
                           stop: Option<string>, after: map<string, Json>)
    requires d.JMap?
    decreases depth, 3, d, 0
  {
    && (forall k | k in d.entries && k in visited ::
          k in after && !after[k].JNull? && MayWalk(w, depth, bottom, dot, d.entries[k], Ok(after[k])))
    && (match stop
        case None => visited == d.entries.Keys == after.Keys
        case Some(null_) =>
          && null_ in d.entries && null_ !in visited && visited <= d.entries.Keys
          && MayWalk(w, depth, bottom, dot, d.entries[null_], Ok(JNull))
          && after.Keys == d.entries.Keys - {null_}
          && forall k | k in after && k !in visited :: after[k] == d.entries[k])
  }

  ghost predicate MayResolve(w: World, depth: nat, bottom: Outcomes, dot: Json, s: string, r: Result<Json>)
    decreases depth, 2
  {
    exists answers: Answers :: MayAnswer(w, depth, bottom, answers) && r == Resolved(w, dot, answers, s)
  }

  function Resolved(w: World, dot: Json, answers: Answers, s: string): Result<Json> {
    RenderString(Env(dot, w.codec, w.show, Call(answers)), w.parse, s)
  }

  ghost predicate MayAnswer(w: World, depth: nat, bottom: Outcomes, answers: Answers)
    decreases depth, 1
  {
    forall name, args :: (name, args) in answers && MayCall(w, depth, bottom, name, args, answers[(name, args)])
  }

  // ---- There is always an outcome ----

  lemma {:induction false} SomeCall(w: World, depth: nat, bottom: Outcomes, name: string, args: seq<Json>)
    returns (r: Result<Json>)
    ensures MayCall(w, depth, bottom, name, args, r)
    decreases depth, 0
  {
    match name
    case "snippet" =>
      if |args| != 1 || !args[0].JString? { r := Err("bad arguments for snippet"); }
      else if depth == 0 { r :| r in bottom; }
      else { r := SomeRendering(w, depth - 1, bottom, args[0].s, JNull); }
    case "snippetArray" =>
      if |args| != 2 || !args[0].JString? || !IsArray(args[1]) { r := Err("bad arguments for snippetArray"); }
      else if Config.GetTemplate(w.templates, args[0].s).None? { r := Err("unable to locate template"); }
      else if depth == 0 { r :| r in bottom; }
      else { r := SomeElements(w, depth - 1, bottom, args[0].s, ArrayOf(args[1])); }
    case _ => r := w.call(name, args);
  }

  lemma {:induction false} SomeElements(w: World, depth: nat, bottom: Outcomes, name: string, parameters: seq<Json>)
    returns (r: Result<Json>)
    ensures MayElements(w, depth, bottom, name, parameters, r)
    decreases depth, 5, |parameters|
  {
    if parameters == [] {
      r := Ok(JList([]));
    } else {
      var n := |parameters| - 1;
      var front := SomeElements(w, depth, bottom, name, parameters[..n]);
      var last := SomeRendering(w, depth, bottom, name, parameters[n]);
      if front.Err? {
        r := front;
        var i :| 0 <= i < n && MayRender(w, depth, bottom, name, parameters[..n][i], r);
        assert MayRender(w, depth, bottom, name, parameters[i], r);
      } else if last.Err? {
        r := last;
      } else {
        r := Ok(JList(front.value.items + [last.value]));
      }
    }
  }

  lemma {:induction false} SomeRendering(w: World, depth: nat, bottom: Outcomes, name: string, dot: Json)
    returns (r: Result<Json>)
    ensures MayRender(w, depth, bottom, name, dot, r)
    decreases depth, 4
  {
    match Config.GetTemplate(w.templates, name)
    case None => r := Err("unable to locate template");
    case Some(t) =>
      if t.body.None? {
        r := Err("template is not defined");
      } else {
        r := SomeWalk(w, depth, bottom, dot, t.body.value);
      }
  }

  lemma {:induction false} SomeWalk(w: World, depth: nat, bottom: Outcomes, dot: Json, d: Json)
    returns (r: Result<Json>)
    ensures MayWalk(w, depth, bottom, dot, d, r)
    decreases depth, 3, d
  {
    match d
    case JString(s) =>
      var answers := SomeAnswers(w, depth, bottom);
      r := Resolved(w, dot, answers, s);
    case JList(xs) =>
      r := Ok(JList([]));
      for i := 0 to |xs|
        invariant r.Ok? && r.value.JList? && |r.value.items| == i
        invariant forall j | 0 <= j < i :: MayWalk(w, depth, bottom, dot, xs[j], Ok(r.value.items[j]))
      {
        var item := SomeWalk(w, depth, bottom, dot, xs[i]);
        if item.Err? { return item; }
        r := Ok(JList(r.value.items + [item.value]));
      }
    case JMap(m) =>
      var t, rest, visited: set<string> := m, m.Keys, {};
      while rest != {}
        invariant rest <= m.Keys && visited == m.Keys - rest && t.Keys == m.Keys
        invariant forall k | k in rest :: t[k] == m[k]
        invariant forall k | k in visited :: !t[k].JNull? && MayWalk(w, depth, bottom, dot, m[k], Ok(t[k]))
        decreases rest
      {
        var k :| k in rest;
        var value := SomeWalk(w, depth, bottom, dot, m[k]);
        if value.Err? { return value; }
        if value.value.JNull? {
          assert MayVisit(w, depth, bottom, dot, d, visited, Some(k), t - {k});
          return Ok(JMap(t - {k}));
        }
        t, rest, visited := t[k := value.value], rest - {k}, visited + {k};
      }
      assert MayVisit(w, depth, bottom, dot, d, visited, None, t);
      r := Ok(JMap(t));
    case _ => r := Ok(d);
  }

  ghost predicate HasAnswer(w: World, depth: nat, bottom: Outcomes, name: string, args: seq<Json>) {
    exists v :: MayCall(w, depth, bottom, name, args, v)
  }

  ghost function Pick(w: World, depth: nat, bottom: Outcomes, name: string, args: seq<Json>): (r: Result<Json>)
    requires HasAnswer(w, depth, bottom, name, args)
    ensures MayCall(w, depth, bottom, name, args, r)
  {
    var v :| MayCall(w, depth, bottom, name, args, v);
    v
  }

  lemma {:induction false} SomeAnswers(w: World, depth: nat, bottom: Outcomes) returns (answers: Answers)
    ensures MayAnswer(w, depth, bottom, answers)
    decreases depth, 1
  {
    forall name, args ensures HasAnswer(w, depth, bottom, name, args) {
      var v := SomeCall(w, depth, bottom, name, args);
    }
    answers := imap k: (string, seq<Json>) | true :: Pick(w, depth, bottom, k.0, k.1);
  }

  // ---- Rendering ends ----

  /** What a call may answer does not depend on the depth, if what it refers to ranks low enough. */
  lemma {:induction false} CallsEnd(w: World, rank: Rank, r: nat, name: string, args: seq<Json>, depth: nat,
          bottom: Outcomes, depth': nat, bottom': Outcomes, v: Result<Json>)
    requires Ranked(w, rank) && depth >= r && depth' >= r && Reachable(rank, r, name, args)
    ensures MayCall(w, depth, bottom, name, args, v) <==> MayCall(w, depth', bottom', name, args, v)
    decreases r, 0
  {
    if name == "snippet" && |args| == 1 {
      RenderingEnds(w, rank, args[0].s, JNull, depth - 1, bottom, depth' - 1, bottom', v);
    } else if name == "snippetArray" && |args| == 2 && IsArray(args[1]) {
      ElementsEnd(w, rank, args[0].s, ArrayOf(args[1]), depth - 1, bottom, depth' - 1, bottom', v);
    }
  }

  lemma {:induction false} ElementsEnd(w: World, rank: Rank, name: string, parameters: seq<Json>, depth: nat,
          bottom: Outcomes, depth': nat, bottom': Outcomes, v: Result<Json>)
    requires Ranked(w, rank) && depth >= rank(name) && depth' >= rank(name)
    ensures MayElements(w, depth, bottom, name, parameters, v) <==> MayElements(w, depth', bottom', name, parameters, v)
    decreases rank(name), 4
  {
    forall i, x | 0 <= i < |parameters|
      ensures MayRender(w, depth, bottom, name, parameters[i], x) <==>
          MayRender(w, depth', bottom', name, parameters[i], x)
    {
      RenderingEnds(w, rank, name, parameters[i], depth, bottom, depth', bottom', x);
    }
  }

  /**
   With acyclic references a template renders without ever needing more templates inside one another than its rank:
   in whatever orders the maps are walked, the outcomes are the same at any greater depth, and whatever lies beyond.
  */
  lemma {:induction false} RenderingEnds(w: World, rank: Rank, name: string, dot: Json, depth: nat, bottom: Outcomes,
                                         depth': nat, bottom': Outcomes, v: Result<Json>)
    requires Ranked(w, rank) && depth >= rank(name) && depth' >= rank(name)
    ensures MayRender(w, depth, bottom, name, dot, v) <==> MayRender(w, depth', bottom', name, dot, v)
    decreases rank(name), 3
  {
    var t := Config.GetTemplate(w.templates, name);
    Config.TemplateFound(w.templates, name);
    if t.Some? && t.value.body.Some? {
      WalksEnd(w, rank, rank(name), dot, t.value.body.value, depth, bottom, depth', bottom', v);
    }
  }

  lemma {:induction false} WalksEnd(w: World, rank: Rank, r: nat, dot: Json, d: Json, depth: nat, bottom: Outcomes,
                                    depth': nat, bottom': Outcomes, v: Result<Json>)
    requires Ranked(w, rank) && depth >= r && depth' >= r && SafeDocument(w, rank, r, d)
    ensures MayWalk(w, depth, bottom, dot, d, v) <==> MayWalk(w, depth', bottom', dot, d, v)
    decreases r, 2, d
  {
    match d
    case JString(s) =>
      if MayResolve(w, depth, bottom, dot, s, v) {
        ResolvesAlike(w, rank, r, dot, s, depth, bottom, depth', bottom', v);
      }
      if MayResolve(w, depth', bottom', dot, s, v) {
        ResolvesAlike(w, rank, r, dot, s, depth', bottom', depth, bottom, v);
      }
    case JList(xs) =>
      forall i, x | 0 <= i < |xs|
        ensures MayWalk(w, depth, bottom, dot, xs[i], x) <==> MayWalk(w, depth', bottom', dot, xs[i], x)
      {
        WalksEnd(w, rank, r, dot, xs[i], depth, bottom, depth', bottom', x);
      }
    case JMap(m) =>
      forall k, x | k in m
        ensures MayWalk(w, depth, bottom, dot, m[k], x) <==> MayWalk(w, depth', bottom', dot, m[k], x)
      {
        WalksEnd(w, rank, r, dot, m[k], depth, bottom, depth', bottom', x);
      }
      if v.Ok? && v.value.JMap? {
        forall visited, stop
          ensures MayVisit(w, depth, bottom, dot, d, visited, stop, v.value.entries) <==>
                  MayVisit(w, depth', bottom', dot, d, visited, stop, v.value.entries)
        {}
      }
    case _ =>
  }

  lemma {:induction false} ResolvesAlike(w: World, rank: Rank, r: nat, dot: Json, s: string, depth: nat,
          bottom: Outcomes, depth': nat, bottom': Outcomes, v: Result<Json>)
    requires Ranked(w, rank) && depth >= r && depth' >= r && SafeString(w, rank, r, s)
    requires MayResolve(w, depth, bottom, dot, s, v)
    ensures MayResolve(w, depth', bottom', dot, s, v)
    decreases r, 1
  {
    var answers: Answers :| MayAnswer(w, depth, bottom, answers) && v == Resolved(w, dot, answers, s);
    var others := SomeAnswers(w, depth', bottom');
    var same: Answers := imap k: (string, seq<Json>) | true ::
      if Reachable(rank, r, k.0, k.1) then answers[k] else others[k];
    forall name, args ensures MayCall(w, depth', bottom', name, args, same[(name, args)]) {
      if Reachable(rank, r, name, args) {
        CallsEnd(w, rank, r, name, args, depth, bottom, depth', bottom', answers[(name, args)]);
      }
    }
    StringAgrees(w, Env(dot, w.codec, w.show, Call(answers)), Env(dot, w.codec, w.show, Call(same)), rank, r, s);
    assert MayAnswer(w, depth', bottom', same);
  }

  // ---- What snippets render to ----

  /** A string that is just a snippet reference resolves to what the call answers. */
  lemma {:induction false} SnippetResolves(w: World, dot: Json, answers: Answers, s: string, name: string)
    requires Lawful(w.codec) && IsSnippetOf(w, s, name)
    ensures Render.Same(Resolved(w, dot, answers, s), Call(answers)("snippet", [JString(name)]))
  {
    var e := Env(dot, w.codec, w.show, Call(answers));
    SnippetExecutes(e, [("$", dot)], name);
    assert CallFunction(e, "snippet", [JString(name)]) == e.call("snippet", [JString(name)]);
    match CallFunction(e, "snippet", [JString(name)])
    case Err(_) => FailureIsReported(e, w.parse, s, SnippetNodes(name));
    case Ok(v) => OneValueRoundTrip(e, w.parse, s, SnippetNodes(name), [("$", dot)], [Displayed(v)]);
  }

  /** It renders to exactly what its template may render to, and can fail exactly if that can. */
  lemma {:induction false} SnippetIsTemplate(w: World, s: string, name: string, depth: nat, bottom: Outcomes,
          dot: Json, v: Json)
    requires Lawful(w.codec) && IsSnippetOf(w, s, name) && depth > 0
    ensures MayResolve(w, depth, bottom, dot, s, Ok(v)) <==> MayRender(w, depth - 1, bottom, name, JNull, Ok(v))
    ensures (exists e :: MayResolve(w, depth, bottom, dot, s, Err(e))) <==>
        (exists e :: MayRender(w, depth - 1, bottom, name, JNull, Err(e)))
  {
    if MayResolve(w, depth, bottom, dot, s, Ok(v)) {
      var _ := ResolvedRenders(w, s, name, depth, bottom, dot, Ok(v));
    }
    if MayRender(w, depth - 1, bottom, name, JNull, Ok(v)) {
      var _ := RenderedResolves(w, s, name, depth, bottom, dot, Ok(v));
    }
    if e :| MayResolve(w, depth, bottom, dot, s, Err(e)) {
      var q := ResolvedRenders(w, s, name, depth, bottom, dot, Err(e));
      assert MayRender(w, depth - 1, bottom, name, JNull, Err(q.error));
    }
    if e :| MayRender(w, depth - 1, bottom, name, JNull, Err(e)) {
      var r := RenderedResolves(w, s, name, depth, bottom, dot, Err(e));
      assert MayResolve(w, depth, bottom, dot, s, Err(r.error));
    }
  }

  lemma {:induction false} ResolvedRenders(w: World, s: string, name: string, depth: nat, bottom: Outcomes, dot: Json,
          r: Result<Json>)
    returns (q: Result<Json>)
    requires Lawful(w.codec) && IsSnippetOf(w, s, name) && depth > 0 && MayResolve(w, depth, bottom, dot, s, r)
    ensures Render.Same(r, q) && MayRender(w, depth - 1, bottom, name, JNull, q)
  {
    var answers: Answers :| MayAnswer(w, depth, bottom, answers) && r == Resolved(w, dot, answers, s);
    SnippetResolves(w, dot, answers, s, name);
    q := answers[("snippet", [JString(name)])];
    assert MayCall(w, depth, bottom, "snippet", [JString(name)], q);
  }

  lemma {:induction false} RenderedResolves(w: World, s: string, name: string, depth: nat, bottom: Outcomes, dot: Json,
          q: Result<Json>)
    returns (r: Result<Json>)
    requires Lawful(w.codec) && IsSnippetOf(w, s, name) && depth > 0 && MayRender(w, depth - 1, bottom, name, JNull, q)
    ensures Render.Same(r, q) && MayResolve(w, depth, bottom, dot, s, r)
  {
    var answers := SomeAnswers(w, depth, bottom);
    assert MayCall(w, depth, bottom, "snippet", [JString(name)], q);
    var chosen: Answers := answers[("snippet", [JString(name)]) := q];
    assert MayAnswer(w, depth, bottom, chosen);
    SnippetResolves(w, dot, chosen, s, name);
    r := Resolved(w, dot, chosen, s);
  }

  /** So with acyclic references it renders as if the template's document stood in its place. */
  lemma {:induction false} SnippetInlines(w: World, rank: Rank, s: string, name: string, depth: nat, bottom: Outcomes,
          v: Json)
    requires Lawful(w.codec) && Ranked(w, rank) && IsSnippetOf(w, s, name) && depth > rank(name)
    requires Config.GetTemplate(w.templates, name).Some? && Config.GetTemplate(w.templates, name).value.body.Some?
    ensures MayResolve(w, depth, bottom, JNull, s, Ok(v)) <==>
            MayWalk(w, depth, bottom, JNull, Config.GetTemplate(w.templates, name).value.body.value, Ok(v))
  {
    SnippetIsTemplate(w, s, name, depth, bottom, JNull, v);
    RenderingEnds(w, rank, name, JNull, depth - 1, bottom, depth, bottom, Ok(v));
  }

  /**
   The array snippet may give a list exactly if its template is defined, even for no parameters, and each element is an
   outcome of the template for its parameter; it can fail exactly if the template is missing or may fail for one.
  */
  lemma {:induction false} ElementPerParameter(w: World, depth: nat, bottom: Outcomes, name: string, given: Json,
          v: Json)
    requires depth > 0 && IsArray(given)
    ensures var parameters := ArrayOf(given);
            MayCall(w, depth, bottom, "snippetArray", [JString(name), given], Ok(v)) <==>
              && Config.GetTemplate(w.templates, name).Some? && v.JList? && |v.items| == |parameters|
              && forall i | 0 <= i < |parameters| ::
                  MayRender(w, depth - 1, bottom, name, parameters[i], Ok(v.items[i]))
    ensures var parameters := ArrayOf(given);
            (exists e :: MayCall(w, depth, bottom, "snippetArray", [JString(name), given], Err(e))) <==>
              || Config.GetTemplate(w.templates, name).None?
              || exists i, e :: 0 <= i < |parameters| && MayRender(w, depth - 1, bottom, name, parameters[i], Err(e))
  {
    var parameters := ArrayOf(given);
    if e :| MayCall(w, depth, bottom, "snippetArray", [JString(name), given], Err(e)) {
      if Config.GetTemplate(w.templates, name).Some? {
        assert MayElements(w, depth - 1, bottom, name, parameters, Err(e));
      }
    }
    if Config.GetTemplate(w.templates, name).None? {
      assert MayCall(w, depth, bottom, "snippetArray", [JString(name), given], Err("unable to locate template"));
    } else if i, e :| 0 <= i < |parameters| && MayRender(w, depth - 1, bottom, name, parameters[i], Err(e)) {
      assert MayElements(w, depth - 1, bottom, name, parameters, Err(e));
      assert MayCall(w, depth, bottom, "snippetArray", [JString(name), given], Err(e));
    }
  }

  /** Templates that are nothing but a reference to the next, and the last one to the first. */
  ghost predicate BareCycle(w: World, names: seq<string>, refs: seq<string>) {
    && |names| == |refs| > 0
    && forall i | 0 <= i < |names| ::
         var t := Config.GetTemplate(w.templates, names[i]);
         && t.Some? && t.value.body == Some(JString(refs[i]))
         && IsSnippetOf(w, refs[i], names[if i + 1 < |names| then i + 1 else 0])
  }

  /**
   Templates on such a cycle, of any length, have no outcome of their own: at every depth they give what lies beyond.
  */
  lemma {:induction false} CycleNeverEnds(w: World, names: seq<string>, refs: seq<string>, i: nat, depth: nat,
          bottom: Outcomes, dot: Json, v: Json)
    requires Lawful(w.codec) && BareCycle(w, names, refs) && i < |names|
    ensures MayRender(w, depth, bottom, names[i], dot, Ok(v)) <==> Ok(v) in bottom
    decreases depth
  {
    var next := if i + 1 < |names| then i + 1 else 0;
    if depth > 0 {
      SnippetIsTemplate(w, refs[i], names[next], depth, bottom, dot, v);
      CycleNeverEnds(w, names, refs, next, depth - 1, bottom, JNull, v);
    } else {
      SnippetAtBottom(w, names[next], refs[i], bottom, dot, v);
    }
  }

  lemma {:induction false} SnippetAtBottom(w: World, name: string, s: string, bottom: Outcomes, dot: Json, v: Json)
    requires Lawful(w.codec) && IsSnippetOf(w, s, name)
    ensures MayResolve(w, 0, bottom, dot, s, Ok(v)) <==> Ok(v) in bottom
  {
    if MayResolve(w, 0, bottom, dot, s, Ok(v)) {
      var answers: Answers :| MayAnswer(w, 0, bottom, answers) && Ok(v) == Resolved(w, dot, answers, s);
      SnippetResolves(w, dot, answers, s, name);
      assert MayCall(w, 0, bottom, "snippet", [JString(name)], answers[("snippet", [JString(name)])]);
    }
    if Ok(v) in bottom {
      var answers := SomeAnswers(w, 0, bottom);
      assert MayCall(w, 0, bottom, "snippet", [JString(name)], Ok(v));
      var chosen: Answers := answers[("snippet", [JString(name)]) := Ok(v)];
      assert MayAnswer(w, 0, bottom, chosen);
      SnippetResolves(w, dot, chosen, s, name);
    }
  }

  /** What the renderer's loops over one document give is an outcome, if each string is given one of its own. */
  lemma {:induction false} WalkedMay(w: World, depth: nat, bottom: Outcomes, dot: Json, leaf: Render.Leaf, d: Json,
          r: Result<Json>)
    requires Render.Walked(leaf, d, r) && forall s :: MayResolve(w, depth, bottom, dot, s, leaf(s))
    ensures MayWalk(w, depth, bottom, dot, d, r)
    decreases d
  {
    match d
    case JList(xs) =>
      forall i, x | 0 <= i < |xs| && Render.Walked(leaf, xs[i], x) ensures MayWalk(w, depth, bottom, dot, xs[i], x) {
        WalkedMay(w, depth, bottom, dot, leaf, xs[i], x);
      }
    case JMap(m) =>
      forall k, x | k in m && Render.Walked(leaf, m[k], x) ensures MayWalk(w, depth, bottom, dot, m[k], x) {
        WalkedMay(w, depth, bottom, dot, leaf, m[k], x);
      }
      if r.Ok? {
        var visited, stop :| Render.Visits(leaf, d, visited, stop, r.value.entries);
        assert MayVisit(w, depth, bottom, dot, d, visited, stop, r.value.entries);
      }
    case _ =>
  }
}
