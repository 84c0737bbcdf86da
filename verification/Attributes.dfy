/**
 What users may rely on when they write dynamic attributes: laws that relate the rendering of a template to the
 renderings of its parts, each standing as a template of its own.
*/
module Attributes {
  import opened Json
  import opened Template
  import Render

  // ---- Templates and their parts ----

  /** The string is a template that parses to these nodes, and the rewriting survives them. */
  ghost predicate Writes(parse: string -> Parsed, s: string, nodes: seq<Node>) {
    |s| >= 2 && s[..2] == "{{" && s[|s| - 2..] == "}}" && parse(s) == Parsed(nodes) && ElseEverywhere(nodes)
  }

  /** It shows the value of one pipeline. */
  ghost predicate Shows(parse: string -> Parsed, s: string, p: Pipe) {
    p.decl == [] && Writes(parse, s, [Action(p)])
  }

  function Single(a: Arg): Pipe {
    Pipe([], false, [Command([a])])
  }

  function Call(name: string, args: seq<Arg>): Command {
    Command([Function(name)] + args)
  }

  function Calls(name: string, args: seq<Arg>): Pipe {
    Pipe([], false, [Call(name, args)])
  }

  function Piped(p: Pipe, c: Command): Pipe {
    Pipe([], false, p.cmds + [c])
  }

  /** The pipeline declares and assigns no variables. */
  predicate Quiet(p: Pipe)
    decreases p, 0
  {
    p.decl == [] && forall c | c in p.cmds :: QuietCommand(c)
  }

  predicate QuietCommand(c: Command)
    decreases c, 0
  {
    forall a | a in c.args && a.Nested? :: Quiet(a.pipe)
  }

  predicate QuietArg(a: Arg) {
    a.Nested? ==> Quiet(a.pipe)
  }

  // ---- Quiet pipelines leave the variables alone ----

  lemma {:induction false} QuietPipe(env: Env, vars: Vars, p: Pipe)
    requires Quiet(p)
    ensures EvalPipe(env, vars, p).Ok? ==> EvalPipe(env, vars, p).value.0 == vars
    decreases p, 2
  {
    QuietCommands(env, vars, p.cmds, None);
  }

  lemma {:induction false} QuietCommands(env: Env, vars: Vars, cmds: seq<Command>, final: Option<Json>)
    requires forall c | c in cmds :: QuietCommand(c)
    ensures var r := EvalCommands(env, vars, cmds, final);
            r.Ok? ==> r.value.0 == vars && (cmds != [] ==> r.value.1.Some?)
    decreases cmds, 1
  {
    if cmds != [] {
      CommandKeeps(env, vars, cmds[0], final);
      var r := EvalCommand(env, vars, cmds[0], final);
      if r.Ok? {
        QuietCommands(env, vars, cmds[1..], Some(r.value.1));
      }
    }
  }

  lemma {:induction false} CommandKeeps(env: Env, vars: Vars, c: Command, final: Option<Json>)
    requires QuietCommand(c)
    ensures EvalCommand(env, vars, c, final).Ok? ==> EvalCommand(env, vars, c, final).value.0 == vars
    decreases c, 3
  {
    if c.args != [] {
      match c.args[0]
      case Function(_) => QuietValues(env, vars, c.args[1..]);
      case Nested(p) => QuietPipe(env, vars, p);
      case _ => QuietValue(env, vars, c.args[0]);
    }
  }

  lemma {:induction false} QuietValues(env: Env, vars: Vars, args: seq<Arg>)
    requires forall a | a in args :: QuietArg(a)
    ensures EvalArgs(env, vars, args).Ok? ==> EvalArgs(env, vars, args).value.0 == vars
    decreases args, 1
  {
    if args != [] {
      QuietValue(env, vars, args[0]);
      QuietValues(env, vars, args[1..]);
    }
  }

  lemma {:induction false} QuietValue(env: Env, vars: Vars, a: Arg)
    requires QuietArg(a)
    ensures EvalArg(env, vars, a).Ok? ==> EvalArg(env, vars, a).value.0 == vars
    decreases a, 1
  {
    match a
    case Nested(p) => QuietPipe(env, vars, p);
    case _ =>
  }

  // ---- From executions to renderings ----

  function Root(env: Env): Vars {
    [("$", env.dot)]
  }

  lemma {:induction false} RenderedBy(env: Env, parse: string -> Parsed, s: string, nodes: seq<Node>)
    requires Writes(parse, s, nodes)
    ensures match Exec(env, Root(env), nodes)
            case Err(_) => RenderString(env, parse, s).Err?
            case Ok((_, trace)) =>
              match env.codec.decode(Output(env, Encoded(env.codec, trace)))
              case None => RenderString(env, parse, s) == Err("output is not JSON")
              case Some(v) => RenderString(env, parse, s) == Ok(v)
  {
    TransformFaithful(env, Root(env), nodes);
  }

  lemma {:induction false} ExecOne(env: Env, vars: Vars, node: Node)
    ensures Exec(env, vars, [node]) == ExecNode(env, vars, node)
  {
    assert [node][1..] == [];
    var r := ExecNode(env, vars, node);
    if r.Ok? {
      assert Exec(env, r.value.0, []) == Ok((r.value.0, []));
      assert r.value.1 + [] == r.value.1;
    }
  }

  lemma {:induction false} ExecTwo(env: Env, vars: Vars, node: Node, nodes: seq<Node>)
    ensures Exec(env, vars, [node] + nodes) ==
            match ExecNode(env, vars, node)
            case Err(e) => Err(e)
            case Ok((vars', trace)) =>
              match Exec(env, vars', nodes)
              case Err(e) => Err(e)
              case Ok((vars'', rest)) => Ok((vars'', trace + rest))
  {
    assert ([node] + nodes)[1..] == nodes;
  }

  /** A template that shows one pipeline renders to its value. */
  lemma {:induction false} ShownIsValue(env: Env, parse: string -> Parsed, s: string, p: Pipe)
    requires Lawful(env.codec) && Shows(parse, s, p)
    ensures match EvalPipe(env, Root(env), p)
            case Err(_) => RenderString(env, parse, s).Err?
            case Ok((_, v)) => RenderString(env, parse, s) == Ok(v)
  {
    RenderedBy(env, parse, s, [Action(p)]);
    ExecOne(env, Root(env), Action(p));
    match EvalPipe(env, Root(env), p)
    case Err(_) =>
    case Ok((_, v)) => ShownPrintsJson(env, v);
  }

  lemma {:induction false} OneCommand(env: Env, vars: Vars, c: Command)
    ensures EvalPipe(env, vars, Pipe([], false, [c])) == EvalCommand(env, vars, c, None)
  {
    assert [c][1..] == [];
    var r := EvalCommand(env, vars, c, None);
    if r.Ok? {
      assert EvalCommands(env, r.value.0, [], Some(r.value.1)) == Ok((r.value.0, Some(r.value.1)));
    }
  }

  /** An argument has the value it renders to on its own. */
  lemma {:induction false} ArgIsShown(env: Env, parse: string -> Parsed, s: string, a: Arg)
    requires Lawful(env.codec) && Shows(parse, s, Single(a)) && QuietArg(a)
    ensures match RenderString(env, parse, s)
            case Err(_) => EvalArg(env, Root(env), a).Err?
            case Ok(v) => EvalArg(env, Root(env), a) == Ok((Root(env), v))
  {
    ShownIsValue(env, parse, s, Single(a));
    OneCommand(env, Root(env), Command([a]));
    QuietValue(env, Root(env), a);
    assert [a][1..] == [];
    assert EvalArgs(env, Root(env), []) == Ok((Root(env), []));
    var none: seq<Json> := [];
    assert none + [] == none;
  }

  /** So do several, one after the other. */
  lemma {:induction false} ArgsAreShown(env: Env, parse: string -> Parsed, strings: seq<string>, args: seq<Arg>)
    requires Lawful(env.codec) && |strings| == |args|
    requires forall i | 0 <= i < |args| :: Shows(parse, strings[i], Single(args[i])) && QuietArg(args[i])
    ensures match EvalArgs(env, Root(env), args)
            case Err(_) => exists i | 0 <= i < |args| :: RenderString(env, parse, strings[i]).Err?
            case Ok((vars, values)) =>
              && vars == Root(env) && |values| == |args|
              && forall i | 0 <= i < |args| :: RenderString(env, parse, strings[i]) == Ok(values[i])
    decreases |args|
  {
    if args != [] {
      ArgIsShown(env, parse, strings[0], args[0]);
      assert forall i | 0 <= i < |args| - 1 :: strings[1..][i] == strings[i + 1] && args[1..][i] == args[i + 1];
      ArgsAreShown(env, parse, strings[1..], args[1..]);
      var first, rest := EvalArg(env, Root(env), args[0]), EvalArgs(env, Root(env), args[1..]);
      if first.Err? {
        assert RenderString(env, parse, strings[0]).Err?;
      } else if rest.Err? {
        var i :| 0 <= i < |args| - 1 && RenderString(env, parse, strings[1..][i]).Err?;
        assert RenderString(env, parse, strings[i + 1]).Err?;
      } else {
        forall i | 0 <= i < |args|
          ensures RenderString(env, parse, strings[i]) == Ok(([first.value.1] + rest.value.1)[i])
        {
          if i > 0 {
            assert strings[i] == strings[1..][i - 1];
          }
        }
      }
    }
  }

  lemma {:induction false} CommandsThen(env: Env, vars: Vars, cmds: seq<Command>, final: Option<Json>, c: Command)
    ensures EvalCommands(env, vars, cmds + [c], final) ==
            match EvalCommands(env, vars, cmds, final)
            case Err(e) => Err(e)
            case Ok((vars', last)) =>
              match EvalCommand(env, vars', c, last)
              case Err(e) => Err(e)
              case Ok((vars'', v)) => Ok((vars'', Some(v)))
    decreases |cmds|
  {
    if cmds == [] {
      assert cmds + [c] == [c] && [c][1..] == [];
      var r := EvalCommand(env, vars, c, final);
      if r.Ok? {
        assert EvalCommands(env, r.value.0, [], Some(r.value.1)) == Ok((r.value.0, Some(r.value.1)));
      }
    } else {
      assert (cmds + [c])[0] == cmds[0] && (cmds + [c])[1..] == cmds[1..] + [c];
      var r := EvalCommand(env, vars, cmds[0], final);
      if r.Ok? {
        CommandsThen(env, r.value.0, cmds[1..], Some(r.value.1), c);
      }
    }
  }

  /** What a call of a function on arguments that render on their own comes to. */
  lemma {:induction false} CallIsShown(env: Env, parse: string -> Parsed, s: string, name: string,
          strings: seq<string>, args: seq<Arg>) returns (values: seq<Json>)
    requires Lawful(env.codec) && Shows(parse, s, Calls(name, args)) && |strings| == |args|
    requires forall i | 0 <= i < |args| :: Shows(parse, strings[i], Single(args[i])) && QuietArg(args[i])
    ensures (exists i | 0 <= i < |args| :: RenderString(env, parse, strings[i]).Err?) ==>
              RenderString(env, parse, s).Err?
    ensures (forall i | 0 <= i < |args| :: RenderString(env, parse, strings[i]).Ok?) ==>
              && |values| == |args|
              && (forall i | 0 <= i < |args| :: RenderString(env, parse, strings[i]) == Ok(values[i]))
              && match CallFunction(env, name, values)
                 case Err(_) => RenderString(env, parse, s).Err?
                 case Ok(v) => RenderString(env, parse, s) == Ok(v)
  {
    ShownIsValue(env, parse, s, Calls(name, args));
    OneCommand(env, Root(env), Call(name, args));
    ArgsAreShown(env, parse, strings, args);
    assert Call(name, args).args[1..] == args;
    var r := EvalArgs(env, Root(env), args);
    values := if r.Ok? then r.value.1 else [];
    assert values + [] == values;
  }

  /** The same for a function at the end of a pipeline, whose value is its last argument. */
  lemma {:induction false} PipeIsShown(env: Env, parse: string -> Parsed, s: string, sp: string, p: Pipe, name: string,
          strings: seq<string>, args: seq<Arg>) returns (values: seq<Json>)
    requires Lawful(env.codec) && Shows(parse, sp, p) && Quiet(p) && Shows(parse, s, Piped(p, Call(name, args)))
    requires |strings| == |args| && p.cmds != []
    requires forall i | 0 <= i < |args| :: Shows(parse, strings[i], Single(args[i])) && QuietArg(args[i])
    ensures RenderString(env, parse, sp).Err? ==> RenderString(env, parse, s).Err?
    ensures (exists i | 0 <= i < |args| :: RenderString(env, parse, strings[i]).Err?) ==>
              RenderString(env, parse, s).Err?
    ensures (&& RenderString(env, parse, sp).Ok?
             && forall i | 0 <= i < |args| :: RenderString(env, parse, strings[i]).Ok?) ==>
              && |values| == |args|
              && (forall i | 0 <= i < |args| :: RenderString(env, parse, strings[i]) == Ok(values[i]))
              && match CallFunction(env, name, values + [RenderString(env, parse, sp).value])
                 case Err(_) => RenderString(env, parse, s).Err?
                 case Ok(v) => RenderString(env, parse, s) == Ok(v)
  {
    ShownIsValue(env, parse, s, Piped(p, Call(name, args)));
    ShownIsValue(env, parse, sp, p);
    QuietCommands(env, Root(env), p.cmds, None);
    CommandsThen(env, Root(env), p.cmds, None, Call(name, args));
    ArgsAreShown(env, parse, strings, args);
    assert Call(name, args).args[1..] == args;
    var r := EvalArgs(env, Root(env), args);
    values := if r.Ok? then r.value.1 else [];
  }

  // ---- The laws ----

  /** `default d x` is `x` if that is not null, and `d` otherwise; if either fails, so does the call. */
  lemma {:induction false} DefaultOfArgument(env: Env, parse: string -> Parsed, s: string, sd: string, sx: string,
          d: Arg, x: Arg)
    requires Lawful(env.codec) && QuietArg(d) && QuietArg(x)
    requires Shows(parse, s, Calls("default", [d, x])) && Shows(parse, sd, Single(d)) && Shows(parse, sx, Single(x))
    ensures var default_, value := RenderString(env, parse, sd), RenderString(env, parse, sx);
            if default_.Err? || value.Err? then RenderString(env, parse, s).Err?
            else RenderString(env, parse, s) == if value == Ok(JNull) then default_ else value
  {
    var strings, args := [sd, sx], [d, x];
    var values := CallIsShown(env, parse, s, "default", strings, args);
    assert strings[0] == sd && strings[1] == sx;
  }

  /** So is `x | default d`, where `x` may be any pipeline. */
  lemma {:induction false} DefaultOfPipeline(env: Env, parse: string -> Parsed, s: string, sd: string, sx: string,
          d: Arg, x: Pipe)
    requires Lawful(env.codec) && QuietArg(d) && Quiet(x) && x.cmds != []
    requires Shows(parse, s, Piped(x, Call("default", [d]))) && Shows(parse, sd, Single(d)) && Shows(parse, sx, x)
    ensures var default_, value := RenderString(env, parse, sd), RenderString(env, parse, sx);
            if default_.Err? || value.Err? then RenderString(env, parse, s).Err?
            else RenderString(env, parse, s) == if value == Ok(JNull) then default_ else value
  {
    var strings, args := [sd], [d];
    var values := PipeIsShown(env, parse, s, sx, x, "default", strings, args);
    assert strings[0] == sd;
    if RenderString(env, parse, sd).Ok? && RenderString(env, parse, sx).Ok? {
      assert values == [RenderString(env, parse, sd).value];
    }
  }

  /** `required x` fails exactly if `x` fails or is null, and is `x` otherwise. */
  lemma {:induction false} RequiredArgument(env: Env, parse: string -> Parsed, s: string, sx: string, x: Arg)
    requires Lawful(env.codec) && QuietArg(x)
    requires Shows(parse, s, Calls("required", [x])) && Shows(parse, sx, Single(x))
    ensures var value := RenderString(env, parse, sx);
            if value.Err? || value == Ok(JNull) then RenderString(env, parse, s).Err?
            else RenderString(env, parse, s) == value
  {
    var strings, args := [sx], [x];
    var values := CallIsShown(env, parse, s, "required", strings, args);
    assert strings[0] == sx;
  }

  lemma {:induction false} RequiredPipeline(env: Env, parse: string -> Parsed, s: string, sx: string, x: Pipe)
    requires Lawful(env.codec) && Quiet(x) && x.cmds != []
    requires Shows(parse, s, Piped(x, Call("required", []))) && Shows(parse, sx, x)
    ensures var value := RenderString(env, parse, sx);
            if value.Err? || value == Ok(JNull) then RenderString(env, parse, s).Err?
            else RenderString(env, parse, s) == value
  {
    var values := PipeIsShown(env, parse, s, sx, x, "required", [], []);
    if RenderString(env, parse, sx).Ok? {
      assert values + [RenderString(env, parse, sx).value] == [RenderString(env, parse, sx).value];
    }
  }

  /** `list` makes a list of its arguments, in order, and fails exactly if one of them does. */
  lemma {:induction false} ListOfArguments(env: Env, parse: string -> Parsed, s: string, strings: seq<string>,
          args: seq<Arg>)
    requires Lawful(env.codec) && Shows(parse, s, Calls("list", args)) && |strings| == |args|
    requires forall i | 0 <= i < |args| :: Shows(parse, strings[i], Single(args[i])) && QuietArg(args[i])
    ensures var r := RenderString(env, parse, s);
            && (r.Ok? <==> forall i | 0 <= i < |args| :: RenderString(env, parse, strings[i]).Ok?)
            && (r.Ok? ==>
                  && r.value.JList? && |r.value.items| == |args|
                  && forall i | 0 <= i < |args| :: RenderString(env, parse, strings[i]) == Ok(r.value.items[i]))
  {
    var values := CallIsShown(env, parse, s, "list", strings, args);
  }

  /** `json` makes a string of its argument's JSON. */
  lemma {:induction false} JsonOfArgument(env: Env, parse: string -> Parsed, s: string, sx: string, x: Arg)
    requires Lawful(env.codec) && QuietArg(x)
    requires Shows(parse, s, Calls("json", [x])) && Shows(parse, sx, Single(x))
    ensures match RenderString(env, parse, sx)
            case Err(_) => RenderString(env, parse, s).Err?
            case Ok(v) =>
              exists text :: RenderString(env, parse, s) == Ok(JString(text)) && env.codec.decode(text) == Some(v)
  {
    var strings, args := [sx], [x];
    var values := CallIsShown(env, parse, s, "json", strings, args);
    assert strings[0] == sx;
    if RenderString(env, parse, sx).Ok? {
      assert env.codec.decode(env.codec.encode(values[0])) == Some(values[0]);
    }
  }

  /** Any other function is asked with its arguments in order. */
  lemma {:induction false} OtherFunctions(env: Env, parse: string -> Parsed, s: string, name: string,
          strings: seq<string>, args: seq<Arg>, values: seq<Json>)
    requires Lawful(env.codec) && name !in {"json", "required", "default", "list"}
    requires Shows(parse, s, Calls(name, args)) && |strings| == |args| == |values|
    requires forall i | 0 <= i < |args| :: Shows(parse, strings[i], Single(args[i])) && QuietArg(args[i])
    requires forall i | 0 <= i < |args| :: RenderString(env, parse, strings[i]) == Ok(values[i])
    ensures Render.Same(RenderString(env, parse, s), env.call(name, values))
  {
    var found := CallIsShown(env, parse, s, name, strings, args);
    assert found == values;
  }

  /** A literal is itself, and the outermost variable is dot. */
  lemma {:induction false} LiteralsAndDot(env: Env, parse: string -> Parsed, s: string, a: Arg)
    requires Lawful(env.codec) && Shows(parse, s, Single(a)) && (a.Literal? || a == Variable("$"))
    ensures RenderString(env, parse, s) == Ok(if a.Literal? then a.value else env.dot)
  {
    ArgIsShown(env, parse, s, a);
  }

  /**
   A chain of fields is what following it from dot leads to; null if that is nothing. It fails exactly if it leads
   through something that is no object, unless there is no dot at all.
  */
  lemma {:induction false} FieldsAreFollowed(env: Env, parse: string -> Parsed, s: string, path: seq<string>)
    requires Lawful(env.codec) && Shows(parse, s, Single(Field(path))) && !env.dot.JNull?
    ensures var found := Lookup(env.dot, path);
            if found.Some? then RenderString(env, parse, s) == Ok(found.value)
            else if Blocked(env.dot, path) then RenderString(env, parse, s).Err?
            else RenderString(env, parse, s) == Ok(JNull)
  {
    ArgIsShown(env, parse, s, Field(path));
    FieldsFollowed(env.dot, path);
  }

  lemma {:induction false} NoDotNoFields(env: Env, parse: string -> Parsed, s: string, path: seq<string>)
    requires Lawful(env.codec) && Shows(parse, s, Single(Field(path))) && env.dot.JNull?
    ensures RenderString(env, parse, s) == Ok(JNull)
  {
    ArgIsShown(env, parse, s, Field(path));
  }

  /** The path leads to something that has no attributes, and on. */
  predicate Blocked(d: Json, path: seq<string>) {
    exists i | 0 <= i < |path| :: Lookup(d, path[..i]).Some? && !Lookup(d, path[..i]).value.JMap?
  }

  lemma {:induction false} FieldsFollowed(d: Json, path: seq<string>)
    ensures FieldIn(d, path) == if Lookup(d, path).Some? then Ok(Lookup(d, path).value)
                                else if Blocked(d, path) then Err("can't evaluate field") else Ok(JNull)
    decreases |path|
  {
    if path != [] {
      assert path[..0] == [];
      if !d.JMap? {
        assert Lookup(d, path[..0]).Some?;
      } else if path[0] in d.entries {
        var v := d.entries[path[0]];
        FieldsFollowed(v, path[1..]);
        forall i | 0 < i < |path| ensures Lookup(d, path[..i]) == Lookup(v, path[1..][..i - 1]) {
          assert path[..i][1..] == path[1..][..i - 1];
        }
        if Blocked(v, path[1..]) {
          var i :| 0 <= i < |path| - 1 && Lookup(v, path[1..][..i]).Some? && !Lookup(v, path[1..][..i]).value.JMap?;
          assert Lookup(d, path[..i + 1]) == Lookup(v, path[1..][..i]);
        }
      } else {
        forall i | 0 < i < |path| ensures Lookup(d, path[..i]) == None {
          assert path[..i][0] == path[0];
        }
      }
    }
  }

  /** An `if` renders as its first branch exactly if its condition is not null, false, zero or empty. */
  lemma {:induction false} IfTakesBranch(env: Env, parse: string -> Parsed, s: string, sc: string, sy: string,
          sn: string, cond: Pipe, yes: seq<Node>, no: seq<Node>)
    requires Lawful(env.codec) && Quiet(cond) && Shows(parse, sc, cond)
    requires Writes(parse, s, [If(cond, yes, true, no)]) && Writes(parse, sy, yes) && Writes(parse, sn, no)
    ensures match RenderString(env, parse, sc)
            case Err(_) => RenderString(env, parse, s).Err?
            case Ok(v) =>
              var falsy := v in {JNull, JBool(false), JNumber(0), JString(""), JList([]), JMap(map[])};
              Render.Same(RenderString(env, parse, s), RenderString(env, parse, if falsy then sn else sy))
  {
    ShownIsValue(env, parse, sc, cond);
    IfExecutes(env, cond, yes, no);
    RenderedBy(env, parse, s, [If(cond, yes, true, no)]);
    match EvalPipe(env, Root(env), cond)
    case Err(_) =>
    case Ok((_, v)) =>
      var falsy := v in {JNull, JBool(false), JNumber(0), JString(""), JList([]), JMap(map[])};
      RenderedBy(env, parse, if falsy then sn else sy, if falsy then no else yes);
      match Exec(env, Root(env), if falsy then no else yes)
      case Err(_) =>
      case Ok((_, trace)) => BranchesPrintNothing(env, !falsy, trace);
  }

  lemma {:induction false} IfExecutes(env: Env, cond: Pipe, yes: seq<Node>, no: seq<Node>)
    requires Quiet(cond)
    ensures var r := Exec(env, Root(env), [If(cond, yes, true, no)]);
            match EvalPipe(env, Root(env), cond)
            case Err(_) => r.Err?
            case Ok((_, v)) =>
              var falsy := v in {JNull, JBool(false), JNumber(0), JString(""), JList([]), JMap(map[])};
              match Exec(env, Root(env), if falsy then no else yes)
              case Err(_) => r.Err?
              case Ok((_, trace)) => r.Ok? && r.value.1 == [Branched(!falsy)] + trace
  {
    QuietPipe(env, Root(env), cond);
    ExecOne(env, Root(env), If(cond, yes, true, no));
    match EvalPipe(env, Root(env), cond)
    case Err(_) =>
    case Ok((_, v)) =>
      var falsy := v in {JNull, JBool(false), JNumber(0), JString(""), JList([]), JMap(map[])};
      assert Truth(v) <==> !falsy;
  }

  lemma {:induction false} BranchesPrintNothing(env: Env, taken: bool, trace: seq<Effect>)
    ensures Output(env, Encoded(env.codec, [Branched(taken)] + trace)) == Output(env, Encoded(env.codec, trace))
  {
    EncodedAppends(env.codec, [Branched(taken)], trace);
    assert Encoded(env.codec, [Branched(taken)]) == [Branched(taken)];
    assert ([Branched(taken)] + Encoded(env.codec, trace))[1..] == Encoded(env.codec, trace);
  }

  /** A string that does not start with two braces is itself; one that does and does not end with two is an error. */
  lemma {:induction false} StringsWithoutBraces(env: Env, parse: string -> Parsed, s: string)
    ensures !(|s| >= 2 && s[0] == '{' && s[1] == '{') ==> RenderString(env, parse, s) == Ok(JString(s))
    ensures |s| >= 2 && s[0] == '{' && s[1] == '{' && !(s[|s| - 2] == '}' && s[|s| - 1] == '}') ==>
              RenderString(env, parse, s).Err?
  {
    if |s| >= 2 {
      assert s[..2] == [s[0], s[1]];
      assert s[|s| - 2..] == [s[|s| - 2], s[|s| - 1]];
    }
  }

  // ---- Text around a value ----

  lemma {:induction false} OutputAppends(env: Env, a: seq<Effect>, b: seq<Effect>)
    ensures Output(env, a + b) == Output(env, a) + Output(env, b)
    decreases |a|
  {
    if a == [] {
      assert a + b == b;
    } else {
      assert (a + b)[0] == a[0] && (a + b)[1..] == a[1..] + b;
      OutputAppends(env, a[1..], b);
    }
  }

  lemma {:induction false} OutputOfEffect(env: Env, e: Effect)
    ensures Output(env, [e]) == match e
                                case Wrote(t) => t
                                case Branched(_) => ""
                                case Displayed(JString(s)) => s
                                case Displayed(v) => env.show(v)
  {
    assert [e][1..] == [];
  }

  /**
   Text in a template stands where it is written, around the JSON of what is shown; together they must make one JSON
   text, and that is what the template renders to.
  */
  lemma {:induction false} TextStaysAround(env: Env, parse: string -> Parsed, s: string, sp: string, p: Pipe,
          before: string, after: string)
    requires Lawful(env.codec) && Shows(parse, sp, p)
    requires Writes(parse, s, [Text(before)] + ([Action(p)] + [Text(after)]))
    ensures match RenderString(env, parse, sp)
            case Err(_) => RenderString(env, parse, s).Err?
            case Ok(v) =>
              match env.codec.decode(before + (env.codec.encode(v) + after))
              case None => RenderString(env, parse, s).Err?
              case Some(whole) => RenderString(env, parse, s) == Ok(whole)
  {
    ShownIsValue(env, parse, sp, p);
    var nodes := [Text(before)] + ([Action(p)] + [Text(after)]);
    RenderedBy(env, parse, s, nodes);
    ExecTwo(env, Root(env), Text(before), [Action(p)] + [Text(after)]);
    ExecTwo(env, Root(env), Action(p), [Text(after)]);
    match EvalPipe(env, Root(env), p)
    case Err(_) =>
    case Ok((vars, v)) =>
      ExecOne(env, vars, Text(after));
      var trace := [Wrote(before)] + ([Displayed(v)] + [Wrote(after)]);
      TextOutput(env, v, before, after);
      assert Exec(env, Root(env), nodes) == Ok((vars, trace));
  }

  lemma {:induction false} TextOutput(env: Env, v: Json, before: string, after: string)
    ensures Output(env, Encoded(env.codec, [Wrote(before)] + ([Displayed(v)] + [Wrote(after)]))) ==
              before + (env.codec.encode(v) + after)
  {
    var shown := Displayed(JString(env.codec.encode(v)));
    var trace := [Wrote(before)] + ([shown] + [Wrote(after)]);
    assert Encoded(env.codec, [Wrote(before)] + ([Displayed(v)] + [Wrote(after)])) == trace;
    OutputAppends(env, [Wrote(before)], [shown] + [Wrote(after)]);
    OutputAppends(env, [shown], [Wrote(after)]);
    OutputOfEffect(env, Wrote(before));
    OutputOfEffect(env, shown);
    OutputOfEffect(env, Wrote(after));
  }

  // ---- Variables ----

  /** A pipeline whose value goes to a variable, new or known. */
  function Bound(name: string, assigns: bool, v: Json): Node {
    Action(Pipe([name], assigns, [Command([Literal(v)])]))
  }

  lemma {:induction false} BoundExecutes(env: Env, vars: Vars, name: string, assigns: bool, v: Json)
    ensures ExecNode(env, vars, Bound(name, assigns, v)) ==
            match Bind(vars, [name], assigns, v) case Err(e) => Err(e) case Ok(vars') => Ok((vars', []))
  {
    OneCommand(env, vars, Command([Literal(v)]));
    assert EvalCommand(env, vars, Command([Literal(v)]), None) == Ok((vars, v));
    var none: Option<Json> := None;
    assert EvalCommands(env, vars, [Command([Literal(v)])], none) == Ok((vars, Some(v)));
  }

  /** A variable that is declared, then perhaps bound again in a branch, and then shown. */
  function Rebound(name: string, first: Json, cond: Json, assigns: bool, second: Json): seq<Node> {
    [Bound(name, false, first)]
    + ([If(Single(Literal(cond)), [Bound(name, assigns, second)], true, [])] + [Action(Single(Variable(name)))])
  }

  lemma {:induction false} ReboundExecutes(env: Env, name: string, first: Json, cond: Json, assigns: bool, second: Json)
    ensures var falsy := cond in {JNull, JBool(false), JNumber(0), JString(""), JList([]), JMap(map[])};
            var v := if assigns && !falsy then second else first;
            Exec(env, Root(env), Rebound(name, first, cond, assigns, second)) ==
              Ok((Root(env) + [(name, v)], [Branched(!falsy)] + [Displayed(v)]))
  {
    var falsy := cond in {JNull, JBool(false), JNumber(0), JString(""), JList([]), JMap(map[])};
    var branch := If(Single(Literal(cond)), [Bound(name, assigns, second)], true, []);
    var show := Action(Single(Variable(name)));
    var vars := Root(env) + [(name, first)];
    var v := if assigns && !falsy then second else first;
    ExecTwo(env, Root(env), Bound(name, false, first), [branch] + [show]);
    BoundExecutes(env, Root(env), name, false, first);
    assert [name][1..] == [];
    assert Bind(vars, [], false, first) == Ok(vars);
    BranchBinds(env, name, first, cond, assigns, second);
    ExecTwo(env, vars, branch, [show]);
    LastIsShown(env, Root(env), name, v);
    var trace := [] + ([Branched(!falsy)] + [Displayed(v)]);
    assert trace == [Branched(!falsy)] + [Displayed(v)];
  }

  /**
   A branch keeps what it assigns and drops what it declares: the variable shows the second value exactly if the branch
   is taken and assigns to it.
  */
  lemma {:induction false} BranchesKeepAssignments(env: Env, parse: string -> Parsed, s: string, name: string,
          first: Json, cond: Json, assigns: bool, second: Json)
    requires Lawful(env.codec) && Writes(parse, s, Rebound(name, first, cond, assigns, second))
    ensures var falsy := cond in {JNull, JBool(false), JNumber(0), JString(""), JList([]), JMap(map[])};
            RenderString(env, parse, s) == Ok(if assigns && !falsy then second else first)
  {
    var falsy := cond in {JNull, JBool(false), JNumber(0), JString(""), JList([]), JMap(map[])};
    var v := if assigns && !falsy then second else first;
    ReboundExecutes(env, name, first, cond, assigns, second);
    RenderedBy(env, parse, s, Rebound(name, first, cond, assigns, second));
    BranchesPrintNothing(env, !falsy, [Displayed(v)]);
    ShownPrintsJson(env, v);
  }

  lemma {:induction false} ShownPrintsJson(env: Env, v: Json)
    requires Lawful(env.codec)
    ensures env.codec.decode(Output(env, Encoded(env.codec, [Displayed(v)]))) == Some(v)
  {
    OutputOfOne(env, [Displayed(v)]);
    assert Displays([Displayed(v)]) == [v] + Displays([]);
    assert env.codec.decode(env.codec.encode(v)) == Some(v);
  }

  lemma {:induction false} LastIsShown(env: Env, vars: Vars, name: string, v: Json)
    ensures var after := vars + [(name, v)];
            Exec(env, after, [Action(Single(Variable(name)))]) == Ok((after, [Displayed(v)]))
  {
    var after := vars + [(name, v)];
    ExecOne(env, after, Action(Single(Variable(name))));
    OneCommand(env, after, Command([Variable(name)]));
    assert EvalCommand(env, after, Command([Variable(name)]), None) == Ok((after, v));
  }

  lemma {:induction false} BranchBinds(env: Env, name: string, first: Json, cond: Json, assigns: bool, second: Json)
    ensures var falsy := cond in {JNull, JBool(false), JNumber(0), JString(""), JList([]), JMap(map[])};
            ExecNode(env, Root(env) + [(name, first)],
                     If(Single(Literal(cond)), [Bound(name, assigns, second)], true, [])) ==
            Ok((Root(env) + [(name, if assigns && !falsy then second else first)], [Branched(!falsy)]))
  {
    var falsy := cond in {JNull, JBool(false), JNumber(0), JString(""), JList([]), JMap(map[])};
    var vars := Root(env) + [(name, first)];
    OneCommand(env, vars, Command([Literal(cond)]));
    assert EvalPipe(env, vars, Single(Literal(cond))) == Ok((vars, cond));
    assert Truth(cond) <==> !falsy;
    var nothing: seq<Effect> := [];
    assert [Branched(!falsy)] + nothing == [Branched(!falsy)];
    if falsy {
      assert Exec(env, vars, []) == Ok((vars, nothing));
      assert vars[..2] == vars;
    } else {
      ExecOne(env, vars, Bound(name, assigns, second));
      BoundExecutes(env, vars, name, assigns, second);
      assert [name][1..] == [];
      var bound := if assigns then vars[1 := (name, second)] else vars + [(name, second)];
      assert Bind(vars, [name], assigns, second) == Ok(bound);
      assert bound[..2] == Root(env) + [(name, if assigns then second else first)];
    }
  }
}
