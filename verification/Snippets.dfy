/**
 Templates that refer to templates: `snippet` and `snippetArray` render another configuration template while
 this one is being rendered.
*/
module Snippets {
  import opened Json
  import opened Template
  import Config
  import Render

  /** The configuration's templates, the parser, and everything else dynamic attributes depend on. */
  datatype World = World(templates: seq<Config.Template>, parse: string -> Parsed, codec: Codec, show: Json -> string,
                         call: (string, seq<Json>) -> Result<Json>)

  /** What can be passed where Go wants a slice: a list, or nothing, which is an empty one. */
  predicate IsArray(v: Json) {
    v.JList? || v.JNull?
  }

  function ArrayOf(v: Json): seq<Json>
    requires IsArray(v)
  {
    if v.JList? then v.items else []
  }

  /**
   Rendering with at most `depth` templates inside one another. `bottom` is the answer given one level deeper:
   what the broker does there cannot matter where no answer depends on it.
  */
  function CallAt(w: World, depth: nat, bottom: Result<Json>, name: string, args: seq<Json>): Result<Json>
    decreases depth, 0, 0
  {
    match name
    case "snippet" =>
      if |args| != 1 || !args[0].JString? then Err("bad arguments for snippet")
      else if depth == 0 then bottom
      else TemplateAt(w, depth - 1, bottom, args[0].s, JNull)
    case "snippetArray" =>
      if |args| != 2 || !args[0].JString? || !IsArray(args[1]) then Err("bad arguments for snippetArray")
      else if Config.GetTemplate(w.templates, args[0].s).None? then Err("unable to locate template")
      else if depth == 0 then bottom
      else ElementsAt(w, depth - 1, bottom, args[0].s, ArrayOf(args[1]))
    case _ => w.call(name, args)
  }

  /** One rendering per parameter, in order, with the parameter as dot; the first failure is the answer. */
  function ElementsAt(w: World, depth: nat, bottom: Result<Json>, name: string, parameters: seq<Json>): Result<Json>
    decreases depth, 3, |parameters|
  {
    if parameters == [] then Ok(JList([]))
    else match ElementsAt(w, depth, bottom, name, parameters[..|parameters| - 1])
      case Err(e) => Err(e)
      case Ok(JList(front)) =>
        (match TemplateAt(w, depth, bottom, name, parameters[|parameters| - 1])
         case Err(e) => Err(e)
         case Ok(v) => Ok(JList(front + [v])))
      case Ok(_) => Err("not a list")
  }

  function TemplateAt(w: World, depth: nat, bottom: Result<Json>, name: string, dot: Json): Result<Json>
    decreases depth, 2
  {
    match Config.GetTemplate(w.templates, name)
    case None => Err("unable to locate template")
    case Some(t) =>
      if t.body.None? then Err("template is not defined")
      else Render.Rendered(LeafAt(w, depth, bottom, dot), t.body.value)
  }

  /** How one string of a document renders. */
  function LeafAt(w: World, depth: nat, bottom: Result<Json>, dot: Json): Render.Leaf
    decreases depth, 1
  {
    (s: string) => RenderString(EnvAt(w, depth, bottom, dot), w.parse, s)
  }

  function EnvAt(w: World, depth: nat, bottom: Result<Json>, dot: Json): Env
    decreases depth, 0, 1
  {
    Env(dot, w.codec, w.show, (name: string, args: seq<Json>) => CallAt(w, depth, bottom, name, args))
  }

  // ---- Acyclic references ----

  /** A rank for every template name. */
  type Rank = string -> nat

  predicate IsSnippet(name: string) {
    name == "snippet" || name == "snippetArray"
  }

  /** Every reference names its template outright, and that template ranks below `r`. */
  predicate SafePipe(rank: Rank, r: nat, p: Pipe)
    decreases p, 0
  {
    forall c | c in p.cmds :: SafeCommand(rank, r, c)
  }

  predicate SafeCommand(rank: Rank, r: nat, c: Command)
    decreases c, 0
  {
    && (forall a | a in c.args && a.Nested? :: SafePipe(rank, r, a.pipe))
    && (forall i | 0 < i < |c.args| && c.args[i].Function? :: !IsSnippet(c.args[i].name))
    && (|c.args| > 0 && c.args[0].Function? && IsSnippet(c.args[0].name) ==>
          |c.args| > 1 && c.args[1].Literal? && c.args[1].value.JString? && rank(c.args[1].value.s) < r)
  }

  predicate SafeNodes(rank: Rank, r: nat, nodes: seq<Node>)
    decreases nodes, 0
  {
    forall n | n in nodes :: SafeNode(rank, r, n)
  }

  predicate SafeNode(rank: Rank, r: nat, n: Node)
    decreases n, 0
  {
    match n
    case Text(_) => true
    case Action(p) => SafePipe(rank, r, p)
    case If(cond, yes, _, no) => SafePipe(rank, r, cond) && SafeNodes(rank, r, yes) && SafeNodes(rank, r, no)
  }

  predicate SafeString(w: World, rank: Rank, r: nat, s: string) {
    IsTemplate(s) && IsClosed(s) && w.parse(s).Parsed? ==> SafeNodes(rank, r, w.parse(s).nodes)
  }

  predicate SafeDocument(w: World, rank: Rank, r: nat, d: Json)
    decreases d
  {
    match d
    case JString(s) => SafeString(w, rank, r, s)
    case JList(xs) => forall i | 0 <= i < |xs| :: SafeDocument(w, rank, r, xs[i])
    case JMap(m) => forall k | k in m :: SafeDocument(w, rank, r, m[k])
    case _ => true
  }

  /** The reference graph descends along the rank, so it has no cycle. */
  predicate Ranked(w: World, rank: Rank) {
    forall t | t in w.templates && t.body.Some? :: SafeDocument(w, rank, rank(t.name), t.body.value)
  }

  // ---- Evaluation depends only on the calls it can make ----

  predicate Reachable(rank: Rank, r: nat, name: string, args: seq<Json>) {
    IsSnippet(name) ==> |args| > 0 && args[0].JString? && rank(args[0].s) < r
  }

  ghost predicate Agree(e: Env, f: Env, rank: Rank, r: nat) {
    && e.dot == f.dot && e.codec == f.codec && e.show == f.show
    && forall name, args | Reachable(rank, r, name, args) :: e.call(name, args) == f.call(name, args)
  }

  lemma {:induction false} CallsAgree(e: Env, f: Env, rank: Rank, r: nat, name: string, args: seq<Json>)
    requires Agree(e, f, rank, r) && Reachable(rank, r, name, args)
    ensures CallFunction(e, name, args) == CallFunction(f, name, args)
  {
    assert e.call(name, args) == f.call(name, args);
  }

  lemma {:induction false} PipeAgrees(e: Env, f: Env, rank: Rank, r: nat, vars: Vars, p: Pipe)
    requires Agree(e, f, rank, r) && SafePipe(rank, r, p)
    ensures EvalPipe(e, vars, p) == EvalPipe(f, vars, p)
    decreases p, 1
  {
    CommandsAgree(e, f, rank, r, vars, p.cmds, None);
  }

  lemma {:induction false} CommandsAgree(e: Env, f: Env, rank: Rank, r: nat, vars: Vars, cmds: seq<Command>,
          final: Option<Json>)
    requires Agree(e, f, rank, r) && forall c | c in cmds :: SafeCommand(rank, r, c)
    ensures EvalCommands(e, vars, cmds, final) == EvalCommands(f, vars, cmds, final)
    decreases cmds, 0
  {
    if cmds != [] {
      assert SafeCommand(rank, r, cmds[0]);
      CommandAgrees(e, f, rank, r, vars, cmds[0], final);
      match EvalCommand(e, vars, cmds[0], final)
      case Err(_) =>
      case Ok((vars', v)) => CommandsAgree(e, f, rank, r, vars', cmds[1..], Some(v));
    }
  }

  lemma {:induction false} CommandAgrees(e: Env, f: Env, rank: Rank, r: nat, vars: Vars, c: Command,
          final: Option<Json>)
    requires Agree(e, f, rank, r) && SafeCommand(rank, r, c)
    ensures EvalCommand(e, vars, c, final) == EvalCommand(f, vars, c, final)
    decreases c, 2
  {
    if c.args != [] {
      match c.args[0]
      case Function(name) =>
        assert forall a | a in c.args[1..] :: a in c.args;
        ArgsAgree(e, f, rank, r, vars, c.args[1..]);
        match EvalArgs(e, vars, c.args[1..]) {
          case Err(_) =>
          case Ok((_, values)) =>
            if IsSnippet(name) {
              assert c.args[1..][0] == c.args[1];
              assert values[0] == c.args[1].value;
            }
            CallsAgree(e, f, rank, r, name, values + if final.Some? then [final.value] else []);
        }
      case Nested(p) => PipeAgrees(e, f, rank, r, vars, p);
      case _ =>
    }
  }

  lemma {:induction false} ArgsAgree(e: Env, f: Env, rank: Rank, r: nat, vars: Vars, args: seq<Arg>)
    requires Agree(e, f, rank, r)
    requires forall a | a in args && a.Nested? :: SafePipe(rank, r, a.pipe)
    requires forall i | 0 <= i < |args| && args[i].Function? :: !IsSnippet(args[i].name)
    ensures EvalArgs(e, vars, args) == EvalArgs(f, vars, args)
    decreases args, 0
  {
    if args != [] {
      ArgAgrees(e, f, rank, r, vars, args[0]);
      match EvalArg(e, vars, args[0])
      case Err(_) =>
      case Ok((vars', _)) => ArgsAgree(e, f, rank, r, vars', args[1..]);
    }
  }

  lemma {:induction false} ArgAgrees(e: Env, f: Env, rank: Rank, r: nat, vars: Vars, a: Arg)
    requires Agree(e, f, rank, r)
    requires a.Nested? ==> SafePipe(rank, r, a.pipe)
    requires a.Function? ==> !IsSnippet(a.name)
    ensures EvalArg(e, vars, a) == EvalArg(f, vars, a)
    decreases a, 0
  {
    match a
    case Function(name) => CallsAgree(e, f, rank, r, name, []);
    case Nested(p) => PipeAgrees(e, f, rank, r, vars, p);
    case _ =>
  }

  lemma {:induction false} ExecAgrees(e: Env, f: Env, rank: Rank, r: nat, vars: Vars, nodes: seq<Node>)
    requires Agree(e, f, rank, r) && SafeNodes(rank, r, nodes)
    ensures Exec(e, vars, nodes) == Exec(f, vars, nodes)
    decreases nodes
  {
    if nodes != [] {
      var n := nodes[0];
      assert SafeNode(rank, r, n);
      match n {
        case Text(_) =>
        case Action(p) => PipeAgrees(e, f, rank, r, vars, p);
        case If(cond, yes, _, no) =>
          PipeAgrees(e, f, rank, r, vars, cond);
          match EvalPipe(e, vars, cond) {
            case Err(_) =>
            case Ok((vars', _)) =>
              ExecAgrees(e, f, rank, r, vars', yes);
              ExecAgrees(e, f, rank, r, vars', no);
          }
      }
      match ExecNode(e, vars, n)
      case Err(_) =>
      case Ok((vars', _)) => ExecAgrees(e, f, rank, r, vars', nodes[1..]);
    }
  }

  /** The rewriting adds no reference. */
  lemma {:induction false} TransformSafe(rank: Rank, r: nat, nodes: seq<Node>)
    requires SafeNodes(rank, r, nodes) && Transform(nodes).Some?
    ensures SafeNodes(rank, r, Transform(nodes).value)
    decreases nodes
  {
    if nodes != [] {
      assert SafeNode(rank, r, nodes[0]);
      TransformSafe(rank, r, nodes[1..]);
      var n, ns := TransformNode(nodes[0]).value, Transform(nodes[1..]).value;
      match nodes[0] {
        case Text(_) =>
        case Action(p) => assert SafeCommand(rank, r, JSONIFY);
        case If(_, yes, _, no) =>
          TransformSafe(rank, r, yes);
          TransformSafe(rank, r, no);
      }
      assert forall m :: m in [n] + ns <==> m == n || m in ns;
    }
  }

  lemma {:induction false} StringAgrees(w: World, e: Env, f: Env, rank: Rank, r: nat, s: string)
    requires Agree(e, f, rank, r) && SafeString(w, rank, r, s)
    ensures RenderString(e, w.parse, s) == RenderString(f, w.parse, s)
  {
    if IsTemplate(s) && IsClosed(s) && w.parse(s).Parsed? && Transform(w.parse(s).nodes).Some? {
      TransformSafe(rank, r, w.parse(s).nodes);
      ExecAgrees(e, f, rank, r, [("$", e.dot)], Transform(w.parse(s).nodes).value);
      match Exec(e, [("$", e.dot)], Transform(w.parse(s).nodes).value)
      case Err(_) =>
      case Ok((_, trace)) => OutputAgrees(e, f, trace);
    }
  }

  lemma {:induction false} OutputAgrees(e: Env, f: Env, trace: seq<Effect>)
    requires e.show == f.show
    ensures Output(e, trace) == Output(f, trace)
  {
    if trace != [] {
      OutputAgrees(e, f, trace[1..]);
    }
  }

  lemma {:induction false} DocumentAgrees(w: World, rank: Rank, r: nat, d: Json, leaf: Render.Leaf, other: Render.Leaf)
    requires SafeDocument(w, rank, r, d)
    requires forall s | SafeString(w, rank, r, s) :: leaf(s) == other(s)
    ensures Render.Rendered(leaf, d) == Render.Rendered(other, d)
    decreases d
  {
    match d
    case JList(xs) =>
      forall i | 0 <= i < |xs| ensures Render.Rendered(leaf, xs[i]) == Render.Rendered(other, xs[i]) {
        DocumentAgrees(w, rank, r, xs[i], leaf, other);
      }
      if Render.Rendered(leaf, d).Ok? {
        assert Render.Rendered(leaf, d).value.items == Render.Rendered(other, d).value.items;
      }
    case JMap(m) =>
      forall k | k in m ensures Render.Rendered(leaf, m[k]) == Render.Rendered(other, m[k]) {
        DocumentAgrees(w, rank, r, m[k], leaf, other);
      }
      if Render.Rendered(leaf, d).Ok? {
        assert Render.Rendered(leaf, d).value.entries == Render.Rendered(other, d).value.entries;
      }
    case _ =>
  }

  // ---- Rendering ends ----

  /**
   With acyclic references a template renders without ever needing more templates inside one another than its
   rank: the answer is the same at any greater depth, and whatever lies beyond.
  */
  lemma {:induction false} RenderingEnds(w: World, rank: Rank, name: string, dot: Json,
                                         depth: nat, bottom: Result<Json>, depth': nat, bottom': Result<Json>)
    requires Ranked(w, rank) && depth >= rank(name) && depth' >= rank(name)
    ensures TemplateAt(w, depth, bottom, name, dot) == TemplateAt(w, depth', bottom', name, dot)
    decreases rank(name), 1
  {
    var t := Config.GetTemplate(w.templates, name);
    Config.TemplateFound(w.templates, name);
    if t.Some? && t.value.body.Some? {
      forall s | SafeString(w, rank, rank(name), s)
        ensures LeafAt(w, depth, bottom, dot)(s) == LeafAt(w, depth', bottom', dot)(s)
      {
        var e, f := EnvAt(w, depth, bottom, dot), EnvAt(w, depth', bottom', dot);
        forall n, args | Reachable(rank, rank(name), n, args) ensures e.call(n, args) == f.call(n, args) {
          CallsEnd(w, rank, rank(name), n, args, depth, bottom, depth', bottom');
        }
        StringAgrees(w, e, f, rank, rank(name), s);
      }
      DocumentAgrees(w, rank, rank(name), t.value.body.value, LeafAt(w, depth, bottom, dot),
          LeafAt(w, depth', bottom', dot));
    }
  }

  lemma {:induction false} CallsEnd(w: World, rank: Rank, r: nat, name: string, args: seq<Json>,
                                    depth: nat, bottom: Result<Json>, depth': nat, bottom': Result<Json>)
    requires Ranked(w, rank) && depth >= r && depth' >= r && Reachable(rank, r, name, args)
    ensures CallAt(w, depth, bottom, name, args) == CallAt(w, depth', bottom', name, args)
    decreases r, 0
  {
    if name == "snippet" && |args| == 1 {
      RenderingEnds(w, rank, args[0].s, JNull, depth - 1, bottom, depth' - 1, bottom');
    } else if name == "snippetArray" && |args| == 2 && IsArray(args[1]) {
      ElementsEnd(w, rank, args[0].s, ArrayOf(args[1]), depth - 1, bottom, depth' - 1, bottom');
    }
  }

  lemma {:induction false} ElementsEnd(w: World, rank: Rank, name: string, parameters: seq<Json>,
                                       depth: nat, bottom: Result<Json>, depth': nat, bottom': Result<Json>)
    requires Ranked(w, rank) && depth >= rank(name) && depth' >= rank(name)
    ensures ElementsAt(w, depth, bottom, name, parameters) == ElementsAt(w, depth', bottom', name, parameters)
    decreases rank(name), 2, |parameters|
  {
    if parameters != [] {
      ElementsEnd(w, rank, name, parameters[..|parameters| - 1], depth, bottom, depth', bottom');
      RenderingEnds(w, rank, name, parameters[|parameters| - 1], depth, bottom, depth', bottom');
    }
  }

  // ---- What snippets render to ----

  /** The parse tree of a string that is just a reference to one template. */
  function SnippetNodes(name: string): seq<Node> {
    [Action(Pipe([], false, [Command([Function("snippet"), Literal(JString(name))])]))]
  }

  predicate IsSnippetOf(w: World, s: string, name: string) {
    IsTemplate(s) && IsClosed(s) && w.parse(s) == Parsed(SnippetNodes(name))
  }

  lemma {:induction false} OneLiteral(e: Env, vars: Vars, v: Json)
    ensures EvalArgs(e, vars, [Literal(v)]) == Ok((vars, [v]))
  {
    assert [Literal(v)][1..] == [];
    assert EvalArgs(e, vars, []) == Ok((vars, []));
    assert [v] + [] == [v];
    assert EvalArg(e, vars, [Literal(v)][0]) == Ok((vars, v));
  }

  lemma {:induction false} SnippetExecutes(e: Env, vars: Vars, name: string)
    ensures Exec(e, vars, SnippetNodes(name)) ==
            var r := CallFunction(e, "snippet", [JString(name)]);
            if r.Err? then Err(r.error) else Ok((vars, [Displayed(r.value)]))
  {
    var c := Command([Function("snippet"), Literal(JString(name))]);
    assert c.args[1..] == [Literal(JString(name))];
    OneLiteral(e, vars, JString(name));
    assert [JString(name)] + [] == [JString(name)];
    assert [c][1..] == [];
    var p := Pipe([], false, [c]);
    var r := EvalCommand(e, vars, c, None);
    if r.Ok? {
      assert EvalCommands(e, r.value.0, [], Some(r.value.1)) == Ok((r.value.0, Some(r.value.1)));
    }
    var nodes := SnippetNodes(name);
    assert nodes[1..] == [];
    var q := CallFunction(e, "snippet", [JString(name)]);
    assert EvalCommand(e, vars, c, None) == match q case Err(x) => Err(x) case Ok(v) => Ok((vars, v));
    if q.Ok? {
      assert EvalPipe(e, vars, p) == Ok((vars, q.value));
      assert ExecNode(e, vars, nodes[0]) == Ok((vars, [Displayed(q.value)]));
      assert Exec(e, vars, nodes[1..]) == Ok((vars, []));
      assert [Displayed(q.value)] + [] == [Displayed(q.value)];
    } else {
      assert EvalCommands(e, vars, p.cmds, None) == Err(q.error);
      assert EvalPipe(e, vars, p) == Err(q.error);
      assert ExecNode(e, vars, nodes[0]) == Err(q.error);
    }
  }

  /** A string that refers to a template renders to that template's rendering, with nothing for dot. */
  lemma {:induction false} SnippetIsTemplate(w: World, s: string, name: string, depth: nat, bottom: Result<Json>,
          dot: Json)
    requires Lawful(w.codec) && IsSnippetOf(w, s, name) && depth > 0
    ensures Render.Same(LeafAt(w, depth, bottom, dot)(s), TemplateAt(w, depth - 1, bottom, name, JNull))
  {
    var e := EnvAt(w, depth, bottom, dot);
    SnippetExecutes(e, [("$", dot)], name);
    assert CallAt(w, depth, bottom, "snippet", [JString(name)]) == TemplateAt(w, depth - 1, bottom, name, JNull);
    assert CallFunction(e, "snippet", [JString(name)]) == e.call("snippet", [JString(name)]);
    match CallFunction(e, "snippet", [JString(name)])
    case Err(_) => FailureIsReported(e, w.parse, s, SnippetNodes(name));
    case Ok(v) => OneValueRoundTrip(e, w.parse, s, SnippetNodes(name), [("$", dot)], [Displayed(v)]);
  }

  /** So it renders as if the template's document stood in its place. */
  lemma {:induction false} SnippetInlines(w: World, rank: Rank, s: string, name: string, depth: nat,
          bottom: Result<Json>)
    requires Lawful(w.codec) && Ranked(w, rank) && IsSnippetOf(w, s, name) && depth > rank(name)
    requires Config.GetTemplate(w.templates, name).Some? && Config.GetTemplate(w.templates, name).value.body.Some?
    ensures Render.Same(LeafAt(w, depth, bottom, JNull)(s),
                        Render.Rendered(LeafAt(w, depth, bottom, JNull),
                            Config.GetTemplate(w.templates, name).value.body.value))
  {
    SnippetIsTemplate(w, s, name, depth, bottom, JNull);
    RenderingEnds(w, rank, name, JNull, depth - 1, bottom, depth, bottom);
  }

  lemma {:induction false} ObjectsRenderSame(leaf: Render.Leaf, x: map<string, Json>, y: map<string, Json>)
    requires x.Keys == y.Keys
    requires forall j | j in x ::
               Render.Rendered(leaf, x[j]).Ok? && Render.Rendered(leaf, x[j]) == Render.Rendered(leaf, y[j])
    ensures Render.Rendered(leaf, JMap(x)) == Render.Rendered(leaf, JMap(y))
  {
    assert Render.Rendered(leaf, JMap(x)).value.entries == Render.Rendered(leaf, JMap(y)).value.entries;
  }

  /** Values that render the same may stand for one another inside an object. */
  lemma {:induction false} RenderedInObject(leaf: Render.Leaf, m: map<string, Json>, k: string, a: Json, b: Json)
    requires Render.Same(Render.Rendered(leaf, a), Render.Rendered(leaf, b))
    ensures Render.Same(Render.Rendered(leaf, JMap(m[k := a])), Render.Rendered(leaf, JMap(m[k := b])))
  {
    var x, y := m[k := a], m[k := b];
    if j :| j in x && Render.Rendered(leaf, x[j]).Err? {
      assert Render.Rendered(leaf, y[j]).Err?;
    } else {
      ObjectsRenderSame(leaf, x, y);
    }
  }

  lemma {:induction false} EachElement(w: World, depth: nat, bottom: Result<Json>, name: string, parameters: seq<Json>)
    ensures var r := ElementsAt(w, depth, bottom, name, parameters);
            && (r.Ok? <==> forall i | 0 <= i < |parameters| :: TemplateAt(w, depth, bottom, name, parameters[i]).Ok?)
            && (r.Ok? ==>
                  && r.value.JList? && |r.value.items| == |parameters|
                  && forall i | 0 <= i < |parameters| ::
                       Ok(r.value.items[i]) == TemplateAt(w, depth, bottom, name, parameters[i]))
    decreases |parameters|
  {
    if parameters != [] {
      var front := parameters[..|parameters| - 1];
      EachElement(w, depth, bottom, name, front);
      assert forall i | 0 <= i < |front| :: front[i] == parameters[i];
    }
  }

  /**
   The array snippet succeeds exactly if its template is defined, even for no parameters, and renders for each of
   them; it then gives one element per parameter, in order, each the template rendered with it as dot.
  */
  lemma {:induction false} ElementPerParameter(w: World, depth: nat, bottom: Result<Json>, name: string, given: Json)
    requires depth > 0 && IsArray(given)
    ensures var r, parameters := CallAt(w, depth, bottom, "snippetArray", [JString(name), given]), ArrayOf(given);
            && (r.Ok? <==>
                  && Config.GetTemplate(w.templates, name).Some?
                  && forall i | 0 <= i < |parameters| :: TemplateAt(w, depth - 1, bottom, name, parameters[i]).Ok?)
            && (r.Ok? ==>
                  && r.value.JList? && |r.value.items| == |parameters|
                  && forall i | 0 <= i < |parameters| ::
                       Ok(r.value.items[i]) == TemplateAt(w, depth - 1, bottom, name, parameters[i]))
  {
    EachElement(w, depth - 1, bottom, name, ArrayOf(given));
  }

  /** The document has the string somewhere in it. */
  predicate Contains(d: Json, s: string) {
    match d
    case JString(t) => t == s
    case JList(xs) => exists i | 0 <= i < |xs| :: Contains(xs[i], s)
    case JMap(m) => exists k | k in m :: Contains(m[k], s)
    case _ => false
  }

  lemma {:induction false} ContainedFailureFails(leaf: Render.Leaf, d: Json, s: string)
    requires Contains(d, s) && leaf(s).Err?
    ensures Render.Rendered(leaf, d).Err?
    decreases d
  {
    match d
    case JList(xs) =>
      var i :| 0 <= i < |xs| && Contains(xs[i], s);
      ContainedFailureFails(leaf, xs[i], s);
    case JMap(m) =>
      var k :| k in m && Contains(m[k], s);
      ContainedFailureFails(leaf, m[k], s);
    case _ =>
  }

  /** Templates each of which refers, somewhere in its document, to the next, and the last one to the first. */
  ghost predicate Cycle(w: World, names: seq<string>, refs: seq<string>) {
    && |names| == |refs| > 0
    && forall i | 0 <= i < |names| ::
         var t := Config.GetTemplate(w.templates, names[i]);
         && t.Some? && t.value.body.Some? && Contains(t.value.body.value, refs[i])
         && IsSnippetOf(w, refs[i], names[if i + 1 < |names| then i + 1 else 0])
  }

  /**
   The documented rendering of a template on a cycle, of any length, never succeeds, at whatever depth it is given
   up.
  */
  lemma {:induction false} CycleNeverEnds(w: World, names: seq<string>, refs: seq<string>, i: nat, depth: nat,
          e: string, dot: Json)
    requires Lawful(w.codec) && Cycle(w, names, refs) && i < |names|
    ensures TemplateAt(w, depth, Err(e), names[i], dot).Err?
    decreases depth
  {
    var next := if i + 1 < |names| then i + 1 else 0;
    if depth > 0 {
      CycleNeverEnds(w, names, refs, next, depth - 1, e, JNull);
      SnippetIsTemplate(w, refs[i], names[next], depth, Err(e), dot);
    } else {
      var env := EnvAt(w, 0, Err(e), dot);
      SnippetExecutes(env, [("$", dot)], names[next]);
      assert CallFunction(env, "snippet", [JString(names[next])]) == Err(e);
      FailureIsReported(env, w.parse, refs[i], SnippetNodes(names[next]));
    }
    var body := Config.GetTemplate(w.templates, names[i]).value.body.value;
    ContainedFailureFails(LeafAt(w, depth, Err(e), dot), body, refs[i]);
  }

  // ---- In place ----

  /** A configuration template as the broker holds it; many requests share it. */
  class ConfigurationTemplate {
    const name: string
    const singleton: bool
    var raw: Option<Json>

    constructor (name: string, singleton: bool, raw: Option<Json>)
      ensures this.name == name && this.singleton == singleton && this.raw == raw
    {
      this.name, this.singleton, this.raw := name, singleton, raw;
    }

    method DeepCopy() returns (c: ConfigurationTemplate)
      ensures fresh(c) && c.name == name && c.singleton == singleton && c.raw == raw
    {
      c := new ConfigurationTemplate(name, singleton, raw);
    }
  }

  /** Renders a clone in place; the shared template is not modified. */
  method RenderTemplate(template: ConfigurationTemplate, leaf: Render.Leaf) returns (t: Option<ConfigurationTemplate>)
    ensures template.raw.None? ==> t.None?
    ensures t.Some? ==>
              && fresh(t.value) && t.value.name == template.name && t.value.singleton == template.singleton
              && template.raw.Some? && t.value.raw.Some?
              && Render.Walked(leaf, template.raw.value, Ok(t.value.raw.value))
    ensures t.None? && template.raw.Some? ==> exists e :: Render.Walked(leaf, template.raw.value, Err(e))
  {
    if template.raw.None? { return None; }
    var clone := template.DeepCopy();
    var rendered := Render.RecurseRender(leaf, clone.raw.value);
    if rendered.Err? { return None; }
    clone.raw := Some(rendered.value);
    return Some(clone);
  }

  /** The array snippet's loop over its parameters. */
  method SnippetArray(template: ConfigurationTemplate, leafOf: Json -> Render.Leaf, parameters: seq<Json>)
    returns (result: Option<seq<Json>>)
    ensures result.Some? ==>
              && (parameters != [] ==> template.raw.Some?)
              && |result.value| == |parameters|
              && forall i | 0 <= i < |parameters| ::
                   Render.Walked(leafOf(parameters[i]), template.raw.value, Ok(result.value[i]))
    ensures result.None? ==>
              || (template.raw.None? && parameters != [])
              || exists i, e :: 0 <= i < |parameters|
                  && Render.Walked(leafOf(parameters[i]), template.raw.value, Err(e))
  {
    var elements: seq<Json> := [];
    for i := 0 to |parameters|
      invariant |elements| == i
      invariant i > 0 ==> template.raw.Some?
      invariant forall j | 0 <= j < i :: Render.Walked(leafOf(parameters[j]), template.raw.value, Ok(elements[j]))
    {
      var rendered := RenderTemplate(template, leafOf(parameters[i]));
      if rendered.None? { return None; }
      elements := elements + [rendered.value.raw.value];
    }
    return Some(elements);
  }
}
