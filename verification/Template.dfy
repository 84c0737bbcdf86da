/**
 Dynamic attributes: a fragment of Go's template language, its evaluation, and the broker's rewriting of the
 parse tree so that values come out as JSON and keep their types.
*/
module Template {
  import opened Json

  // ---- Syntax ----

  datatype Node =
    | Text(text: string)
    | Action(pipe: Pipe)
    | If(cond: Pipe, then_: seq<Node>, hasElse: bool, else_: seq<Node>)

  /** `decl`: the variables the pipeline declares, or assigns. */
  datatype Pipe = Pipe(decl: seq<string>, assigns: bool, cmds: seq<Command>)

  datatype Command = Command(args: seq<Arg>)

  datatype Arg =
    | Function(name: string)
    | Literal(value: Json)
    | Field(names: seq<string>)
    | Variable(name: string)
    | Nested(pipe: Pipe)

  // ---- Evaluation ----

  /** `call`: the functions that look outside the template, or that compute keys and random values. */
  datatype Env = Env(dot: Json, codec: Codec, show: Json -> string, call: (string, seq<Json>) -> Result<Json>)

  type Vars = seq<(string, Json)>

  function CallFunction(env: Env, name: string, args: seq<Json>): Result<Json> {
    match name
    case "json" => if |args| == 1 then Ok(JString(env.codec.encode(args[0]))) else Err("wrong number of args for json")
    case "required" =>
      if |args| != 1 then Err("wrong number of args for required")
      else if args[0] == JNull then Err("required value is nil")
      else Ok(args[0])
    case "default" =>
      if |args| != 2 then Err("wrong number of args for default")
      else Ok(if args[1] == JNull then args[0] else args[1])
    case "list" => Ok(JList(args))
    case _ => env.call(name, args)
  }

  /**
   A chain of fields: nothing, and so null in the end, from the first missing key on; an error on anything but an
   object.
  */
  function FieldIn(v: Json, names: seq<string>): Result<Json>
    decreases |names|
  {
    if names == [] then Ok(v)
    else if !v.JMap? then Err("can't evaluate field")
    else if names[0] !in v.entries then Ok(JNull)
    else FieldIn(v.entries[names[0]], names[1..])
  }

  /** Fields of dot; there may be no dot at all, whose fields are nothing too. */
  function FieldOf(dot: Json, names: seq<string>): Result<Json> {
    if dot.JNull? then Ok(JNull) else FieldIn(dot, names)
  }

  function ReadVar(vars: Vars, name: string): Result<Json>
    decreases |vars|
  {
    if vars == [] then Err("undefined variable")
    else if vars[|vars| - 1].0 == name then Ok(vars[|vars| - 1].1)
    else ReadVar(vars[..|vars| - 1], name)
  }

  function WriteVar(vars: Vars, name: string, v: Json): (r: Result<Vars>)
    ensures r.Ok? ==> |r.value| == |vars|
    decreases |vars|
  {
    if vars == [] then Err("undefined variable")
    else
      var last := |vars| - 1;
      if vars[last].0 == name then Ok(vars[last := (name, v)])
      else match WriteVar(vars[..last], name, v)
        case Err(e) => Err(e)
        case Ok(front) => Ok(front + [vars[last]])
  }

  function Bind(vars: Vars, names: seq<string>, assigns: bool, v: Json): (r: Result<Vars>)
    ensures r.Ok? ==> |r.value| >= |vars|
    decreases |names|
  {
    if names == [] then Ok(vars)
    else if !assigns then Bind(vars + [(names[0], v)], names[1..], assigns, v)
    else match WriteVar(vars, names[0], v)
      case Err(e) => Err(e)
      case Ok(vars') => Bind(vars', names[1..], assigns, v)
  }

  function EvalPipe(env: Env, vars: Vars, p: Pipe): (r: Result<(Vars, Json)>)
    ensures r.Ok? ==> |r.value.0| >= |vars|
    decreases p, 1
  {
    match EvalCommands(env, vars, p.cmds, None)
    case Err(e) => Err(e)
    case Ok((vars', None)) => Err("missing value for command")
    case Ok((vars', Some(v))) =>
      match Bind(vars', p.decl, p.assigns, v)
      case Err(e) => Err(e)
      case Ok(vars'') => Ok((vars'', v))
  }

  /** Each command's value is the last argument of the next. */
  function EvalCommands(env: Env, vars: Vars, cmds: seq<Command>,
          final: Option<Json>): (r: Result<(Vars, Option<Json>)>)
    ensures r.Ok? ==> |r.value.0| >= |vars|
    decreases cmds, 0
  {
    if cmds == [] then Ok((vars, final))
    else match EvalCommand(env, vars, cmds[0], final)
      case Err(e) => Err(e)
      case Ok((vars', v)) => EvalCommands(env, vars', cmds[1..], Some(v))
  }

  function EvalCommand(env: Env, vars: Vars, c: Command, final: Option<Json>): (r: Result<(Vars, Json)>)
    ensures r.Ok? ==> |r.value.0| >= |vars|
    decreases c, 2
  {
    if c.args == [] then Err("empty command")
    else match c.args[0]
      case Function(name) =>
        (match EvalArgs(env, vars, c.args[1..])
         case Err(e) => Err(e)
         case Ok((vars', values)) =>
           match CallFunction(env, name, values + if final.Some? then [final.value] else [])
           case Err(e) => Err(e)
           case Ok(v) => Ok((vars', v)))
      case Nested(p) => EvalPipe(env, vars, p)
      case _ =>
        if |c.args| > 1 || final.Some? then Err("can't give argument to non-function")
        else EvalArg(env, vars, c.args[0])
  }

  function EvalArgs(env: Env, vars: Vars, args: seq<Arg>): (r: Result<(Vars, seq<Json>)>)
    ensures r.Ok? ==> |r.value.0| >= |vars|
    decreases args, 0
  {
    if args == [] then Ok((vars, []))
    else match EvalArg(env, vars, args[0])
      case Err(e) => Err(e)
      case Ok((vars', v)) =>
        match EvalArgs(env, vars', args[1..])
        case Err(e) => Err(e)
        case Ok((vars'', vs)) => Ok((vars'', [v] + vs))
  }

  function EvalArg(env: Env, vars: Vars, a: Arg): (r: Result<(Vars, Json)>)
    ensures r.Ok? ==> |r.value.0| >= |vars|
    decreases a, 0
  {
    match a
    case Function(name) => (match CallFunction(env, name, []) case Err(e) => Err(e) case Ok(v) => Ok((vars, v)))
    case Literal(v) => Ok((vars, v))
    case Field(names) => (match FieldOf(env.dot, names) case Err(e) => Err(e) case Ok(v) => Ok((vars, v)))
    case Variable(name) => (match ReadVar(vars, name) case Err(e) => Err(e) case Ok(v) => Ok((vars, v)))
    case Nested(p) => EvalPipe(env, vars, p)
  }

  // ---- Execution ----

  /** What executing a node does, in order. */
  datatype Effect = Wrote(text: string) | Branched(taken: bool) | Displayed(value: Json)

  function Truth(v: Json): bool {
    match v
    case JNull => false
    case JBool(b) => b
    case JNumber(n) => n != 0
    case JString(s) => s != ""
    case JList(items) => items != []
    case JMap(entries) => entries != map[]
  }

  function Exec(env: Env, vars: Vars, nodes: seq<Node>): (r: Result<(Vars, seq<Effect>)>)
    ensures r.Ok? ==> |r.value.0| >= |vars|
    decreases nodes, 0
  {
    if nodes == [] then Ok((vars, []))
    else match ExecNode(env, vars, nodes[0])
      case Err(e) => Err(e)
      case Ok((vars', trace)) =>
        match Exec(env, vars', nodes[1..])
        case Err(e) => Err(e)
        case Ok((vars'', rest)) => Ok((vars'', trace + rest))
  }

  /** A branch keeps what it assigns and drops what it declares. */
  function ExecNode(env: Env, vars: Vars, node: Node): (r: Result<(Vars, seq<Effect>)>)
    ensures r.Ok? ==> |r.value.0| >= |vars|
    decreases node, 0
  {
    match node
    case Text(t) => Ok((vars, [Wrote(t)]))
    case Action(p) =>
      (match EvalPipe(env, vars, p)
       case Err(e) => Err(e)
       case Ok((vars', v)) => Ok((vars', if p.decl == [] then [Displayed(v)] else [])))
    case If(cond, yes, hasElse, no) =>
      match EvalPipe(env, vars, cond)
      case Err(e) => Err(e)
      case Ok((vars', v)) =>
        var r := if Truth(v) then Exec(env, vars', yes) else if hasElse then Exec(env, vars', no) else Ok((vars', []));
        match r
        case Err(e) => Err(e)
        case Ok((vars'', trace)) => Ok((vars''[..|vars|], [Branched(Truth(v))] + trace))
  }

  /** The text an execution leaves behind: strings print as they are. */
  function Output(env: Env, trace: seq<Effect>): string {
    if trace == [] then ""
    else
      (match trace[0]
       case Wrote(t) => t
       case Branched(_) => ""
       case Displayed(JString(s)) => s
       case Displayed(v) => env.show(v)) + Output(env, trace[1..])
  }

  // ---- The rewriting ----

  const JSONIFY: Command := Command([Function("json")])

  /** Appends the JSON encoder to every action that displays; an `if` with no `else` crashes it. */
  function Transform(nodes: seq<Node>): Option<seq<Node>>
    decreases nodes, 0
  {
    if nodes == [] then Some([])
    else match (TransformNode(nodes[0]), Transform(nodes[1..]))
      case (Some(n), Some(ns)) => Some([n] + ns)
      case _ => None
  }

  function TransformNode(node: Node): Option<Node>
    decreases node, 0
  {
    match node
    case Text(_) => Some(node)
    case Action(p) => Some(if p.decl == [] then Action(p.(cmds := p.cmds + [JSONIFY])) else node)
    case If(cond, yes, hasElse, no) =>
      if !hasElse then None
      else match (Transform(yes), Transform(no))
        case (Some(yes'), Some(no')) => Some(If(cond, yes', true, no'))
        case _ => None
  }

  /** Every `if`, at any depth, has an `else`. */
  predicate ElseEverywhere(nodes: seq<Node>)
    decreases nodes
  {
    forall n | n in nodes && n.If? :: n.hasElse && ElseEverywhere(n.then_) && ElseEverywhere(n.else_)
  }

  lemma {:induction false} TransformsIfElseEverywhere(nodes: seq<Node>)
    ensures Transform(nodes).Some? <==> ElseEverywhere(nodes)
    decreases nodes
  {
    if nodes != [] {
      TransformsIfElseEverywhere(nodes[1..]);
      var n := nodes[0];
      if n.If? {
        TransformsIfElseEverywhere(n.then_);
        TransformsIfElseEverywhere(n.else_);
      }
      assert forall m :: m in nodes <==> m == n || m in nodes[1..];
    }
  }

  // ---- It preserves meaning ----

  function Encoded(codec: Codec, trace: seq<Effect>): (r: seq<Effect>)
    ensures |r| == |trace|
    ensures forall i | 0 <= i < |trace| ::
              r[i] == if trace[i].Displayed? then Displayed(JString(codec.encode(trace[i].value))) else trace[i]
  {
    if trace == [] then []
    else
      var first := if trace[0].Displayed? then Displayed(JString(codec.encode(trace[0].value))) else trace[0];
      [first] + Encoded(codec, trace[1..])
  }

  lemma {:induction false} CommandsAppend(env: Env, vars: Vars, cmds: seq<Command>, final: Option<Json>)
    ensures var r := EvalCommands(env, vars, cmds, final);
            var r' := EvalCommands(env, vars, cmds + [JSONIFY], final);
            match r
            case Err(_) => r'.Err?
            case Ok((vars', None)) => r'.Err?
            case Ok((vars', Some(v))) => r' == Ok((vars', Some(JString(env.codec.encode(v)))))
    decreases |cmds|
  {
    if cmds == [] {
      assert JSONIFY.args[1..] == [];
      assert [JSONIFY][1..] == [];
      assert EvalArgs(env, vars, []) == Ok((vars, []));
      assert EvalCommands(env, vars, [JSONIFY], final) ==
        match EvalCommand(env, vars, JSONIFY, final)
        case Err(e) => Err(e)
        case Ok((vars', v)) => EvalCommands(env, vars', [], Some(v));
    } else {
      assert (cmds + [JSONIFY])[0] == cmds[0] && (cmds + [JSONIFY])[1..] == cmds[1..] + [JSONIFY];
      match EvalCommand(env, vars, cmds[0], final)
      case Err(_) =>
      case Ok((vars', v)) => CommandsAppend(env, vars', cmds[1..], Some(v));
    }
  }

  /** Same failure or success; on success the same variables, branches and text, and each value as its JSON. */
  predicate Faithful(codec: Codec, r: Result<(Vars, seq<Effect>)>, r': Result<(Vars, seq<Effect>)>) {
    match r
    case Err(_) => r'.Err?
    case Ok((vars, trace)) => r' == Ok((vars, Encoded(codec, trace)))
  }

  lemma {:induction false} ActionFaithful(env: Env, vars: Vars, p: Pipe)
    ensures Faithful(env.codec, ExecNode(env, vars, Action(p)), ExecNode(env, vars, TransformNode(Action(p)).value))
  {
    if p.decl == [] {
      CommandsAppend(env, vars, p.cmds, None);
      match EvalPipe(env, vars, p)
      case Err(_) =>
      case Ok((_, v)) => assert Encoded(env.codec, [Displayed(v)]) == [Displayed(JString(env.codec.encode(v)))];
    }
  }

  lemma {:induction false} EncodedAppends(codec: Codec, a: seq<Effect>, b: seq<Effect>)
    ensures Encoded(codec, a + b) == Encoded(codec, a) + Encoded(codec, b)
  {
  }

  /** The rewritten tree means what the original does. */
  lemma {:induction false} TransformFaithful(env: Env, vars: Vars, nodes: seq<Node>)
    requires ElseEverywhere(nodes)
    ensures Transform(nodes).Some?
    ensures Faithful(env.codec, Exec(env, vars, nodes), Exec(env, vars, Transform(nodes).value))
    decreases nodes, 1
  {
    TransformsIfElseEverywhere(nodes);
    if nodes != [] {
      NodeFaithful(env, vars, nodes[0]);
      var n, ns := TransformNode(nodes[0]).value, Transform(nodes[1..]).value;
      assert ([n] + ns)[0] == n && ([n] + ns)[1..] == ns;
      match ExecNode(env, vars, nodes[0])
      case Err(_) =>
      case Ok((vars', trace)) =>
        TransformFaithful(env, vars', nodes[1..]);
        match Exec(env, vars', nodes[1..])
        case Err(_) =>
        case Ok((_, rest)) => EncodedAppends(env.codec, trace, rest);
    }
  }

  lemma {:induction false} NodeFaithful(env: Env, vars: Vars, node: Node)
    requires TransformNode(node).Some?
    ensures Faithful(env.codec, ExecNode(env, vars, node), ExecNode(env, vars, TransformNode(node).value))
    decreases node, 1
  {
    match node
    case Text(t) => assert Encoded(env.codec, [Wrote(t)]) == [Wrote(t)];
    case Action(p) => ActionFaithful(env, vars, p);
    case If(cond, yes, _, no) =>
      TransformsIfElseEverywhere(yes);
      TransformsIfElseEverywhere(no);
      match EvalPipe(env, vars, cond)
      case Err(_) =>
      case Ok((vars', v)) =>
        TransformFaithful(env, vars', if Truth(v) then yes else no);
        match Exec(env, vars', if Truth(v) then yes else no)
        case Err(_) =>
        case Ok((_, trace)) => EncodedAppends(env.codec, [Branched(Truth(v))], trace);
  }

  // ---- Rendering a string ----

  datatype Parsed = Parsed(nodes: seq<Node>) | SyntaxError

  /** Two characters at the front and at the back tell a template from a literal. */
  predicate IsTemplate(s: string) {
    |s| >= 2 && s[..2] == "{{"
  }

  predicate IsClosed(s: string) {
    |s| >= 2 && s[|s| - 2..] == "}}"
  }

  /** A literal is itself; a template is parsed, rewritten and executed, and its output decoded. */
  function RenderString(env: Env, parse: string -> Parsed, s: string): Result<Json> {
    if !IsTemplate(s) then Ok(JString(s))
    else if !IsClosed(s) then Err("dynamic attribute malformed")
    else match parse(s)
      case SyntaxError => Err("syntax error")
      case Parsed(nodes) =>
        match Transform(nodes)
        case None => Err("nil pointer dereference")
        case Some(rewritten) =>
          match Exec(env, [("$", env.dot)], rewritten)
          case Err(e) => Err(e)
          case Ok((_, trace)) =>
            match env.codec.decode(Output(env, trace))
            case None => Err("output is not JSON")
            case Some(v) => Ok(v)
  }

  /** The values an execution displays, and the plain text it writes. */
  function Displays(trace: seq<Effect>): seq<Json> {
    if trace == [] then []
    else (if trace[0].Displayed? then [trace[0].value] else []) + Displays(trace[1..])
  }

  function Texts(trace: seq<Effect>): string {
    if trace == [] then "" else (if trace[0].Wrote? then trace[0].text else "") + Texts(trace[1..])
  }

  lemma {:induction false} OutputOfOne(env: Env, trace: seq<Effect>)
    requires Texts(trace) == "" && |Displays(trace)| <= 1
    ensures Output(env, Encoded(env.codec, trace)) == if Displays(trace) == [] then ""
        else env.codec.encode(Displays(trace)[0])
  {
    if trace != [] {
      var rest := Encoded(env.codec, trace[1..]);
      assert Encoded(env.codec, trace)[1..] == rest;
      OutputOfOne(env, trace[1..]);
      match trace[0]
      case Wrote(t) => assert Output(env, Encoded(env.codec, trace)) == t + Output(env, rest);
      case Branched(_) => assert Output(env, Encoded(env.codec, trace)) == "" + Output(env, rest);
      case Displayed(v) =>
        assert Displays(trace) == [v] + Displays(trace[1..]);
        assert Output(env, Encoded(env.codec, trace)) == env.codec.encode(v) + Output(env, rest);
    }
  }

  /** A template that displays one value and writes nothing else renders to exactly that value, type and all. */
  lemma {:induction false} OneValueRoundTrip(env: Env, parse: string -> Parsed, s: string, nodes: seq<Node>,
          vars: Vars, trace: seq<Effect>)
    requires Lawful(env.codec)
    requires IsTemplate(s) && IsClosed(s) && parse(s) == Parsed(nodes) && ElseEverywhere(nodes)
    requires Exec(env, [("$", env.dot)], nodes) == Ok((vars, trace))
    requires Texts(trace) == "" && |Displays(trace)| == 1
    ensures RenderString(env, parse, s) == Ok(Displays(trace)[0])
  {
    TransformFaithful(env, [("$", env.dot)], nodes);
    OutputOfOne(env, trace);
    var v := Displays(trace)[0];
    assert env.codec.decode(env.codec.encode(v)) == Some(v);
  }

  /** A template whose evaluation fails, or that has an `if` with no `else`, does not render. */
  lemma {:induction false} FailureIsReported(env: Env, parse: string -> Parsed, s: string, nodes: seq<Node>)
    requires IsTemplate(s) && IsClosed(s) && parse(s) == Parsed(nodes)
    requires !ElseEverywhere(nodes) || Exec(env, [("$", env.dot)], nodes).Err?
    ensures RenderString(env, parse, s).Err?
  {
    TransformsIfElseEverywhere(nodes);
    if ElseEverywhere(nodes) {
      TransformFaithful(env, [("$", env.dot)], nodes);
    }
  }
}
