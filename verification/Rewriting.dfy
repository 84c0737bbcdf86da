/**
 The rewriting as the broker performs it: in place, on the tree the parser hands over, whose action nodes are
 objects with a pipeline to append to. It leaves behind the tree that `Template.Transform` describes.
*/
module Rewriting {
  import opened Json
  import opened Template

  class ActionNode {
    const decl: seq<string>
    const assigns: bool
    var cmds: seq<Command>

    constructor (decl: seq<string>, assigns: bool, cmds: seq<Command>)
      ensures this.decl == decl && this.assigns == assigns && this.cmds == cmds
    {
      this.decl, this.assigns, this.cmds := decl, assigns, cmds;
    }
  }

  datatype Tree =
    | TextLeaf(text: string)
    | ActionLeaf(action: ActionNode)
    | Branch(cond: Pipe, then_: seq<Tree>, hasElse: bool, else_: seq<Tree>)

  function Actions(tree: Tree): set<ActionNode>
    decreases tree, 0
  {
    match tree
    case TextLeaf(_) => {}
    case ActionLeaf(a) => {a}
    case Branch(_, yes, _, no) => AllActions(yes) + AllActions(no)
  }

  function AllActions(trees: seq<Tree>): (r: set<ActionNode>)
    ensures forall i | 0 <= i < |trees| :: Actions(trees[i]) <= r
    decreases trees, 1
  {
    if trees == [] then {} else Actions(trees[0]) + AllActions(trees[1..])
  }

  /** A parse tree shares no node. */
  ghost predicate Unshared(tree: Tree)
    decreases tree, 0
  {
    tree.Branch? ==>
      AllUnshared(tree.then_) && AllUnshared(tree.else_) && AllActions(tree.then_) !! AllActions(tree.else_)
  }

  ghost predicate AllUnshared(trees: seq<Tree>)
    decreases trees, 1
  {
    && (forall i | 0 <= i < |trees| :: Unshared(trees[i]))
    && (forall i, j | 0 <= i < j < |trees| :: Actions(trees[i]) !! Actions(trees[j]))
  }

  /** The tree as a value. */
  ghost function View(tree: Tree): Node
    reads Actions(tree)
    decreases tree, 0
  {
    match tree
    case TextLeaf(t) => Text(t)
    case ActionLeaf(a) => Action(Pipe(a.decl, a.assigns, a.cmds))
    case Branch(cond, yes, hasElse, no) => If(cond, ViewAll(yes), hasElse, ViewAll(no))
  }

  ghost function ViewAll(trees: seq<Tree>): (r: seq<Node>)
    reads AllActions(trees)
    ensures |r| == |trees| && forall i | 0 <= i < |trees| :: r[i] == View(trees[i])
    decreases trees, 1
  {
    if trees == [] then [] else [View(trees[0])] + ViewAll(trees[1..])
  }

  /** The pure rewriting of a list, node by node. */
  lemma {:induction false} TransformAt(nodes: seq<Node>)
    ensures Transform(nodes).Some? <==> forall i | 0 <= i < |nodes| :: TransformNode(nodes[i]).Some?
    ensures Transform(nodes).Some? ==>
              && |Transform(nodes).value| == |nodes|
              && forall i | 0 <= i < |nodes| :: Some(Transform(nodes).value[i]) == TransformNode(nodes[i])
    decreases |nodes|
  {
    if nodes != [] {
      TransformAt(nodes[1..]);
      assert forall i | 0 < i < |nodes| :: nodes[i] == nodes[1..][i - 1];
      if forall i | 0 <= i < |nodes| :: TransformNode(nodes[i]).Some? {
        assert forall i | 0 <= i < |nodes| - 1 :: nodes[1..][i] == nodes[i + 1];
      }
    }
  }

  /** Rewrites one node; `false` stands for the crash on an `if` with no `else`. `heap` is where the nodes live. */
  method TransformActions(tree: Tree, ghost heap: set<ActionNode>) returns (ok: bool)
    requires Unshared(tree) && Actions(tree) <= heap
    modifies Actions(tree)
    ensures ok <==> TransformNode(old(View(tree))).Some?
    ensures ok ==> Some(View(tree)) == TransformNode(old(View(tree)))
    decreases tree, 0
  {
    match tree {
      case TextLeaf(_) =>
        return true;
      case ActionLeaf(a) =>
        if a.decl == [] { a.cmds := a.cmds + [JSONIFY]; }
        return true;
      case Branch(_, yes, hasElse, no) =>
        ok := TransformAll(yes, heap);
        assert forall a | a in AllActions(no) :: a in heap && unchanged(a);
        assert ViewAll(no) == old(ViewAll(no));
        if !ok || !hasElse { return false; }
        ghost var rewritten := ViewAll(yes);
        ok := TransformAll(no, heap);
        assert ViewAll(yes) == rewritten;
    }
  }

  method TransformAll(trees: seq<Tree>, ghost heap: set<ActionNode>) returns (ok: bool)
    requires AllUnshared(trees) && AllActions(trees) <= heap
    modifies AllActions(trees)
    ensures ok <==> Transform(old(ViewAll(trees))).Some?
    ensures ok ==> Some(ViewAll(trees)) == Transform(old(ViewAll(trees)))
    decreases trees, 1
  {
    ghost var was := ViewAll(trees);
    TransformAt(was);
    for i := 0 to |trees|
      invariant forall j | 0 <= j < i :: Some(View(trees[j])) == TransformNode(was[j])
      invariant forall j | i <= j < |trees| :: View(trees[j]) == was[j]
    {
      label Before:
      ok := TransformActions(trees[i], heap);
      forall j | 0 <= j < |trees| && j != i ensures View(trees[j]) == old@Before(View(trees[j])) {
        assert Actions(trees[i]) !! Actions(trees[j]);
      }
      if !ok { return; }
    }
    assert ViewAll(trees) == Transform(was).value;
    ok := true;
  }
}
