/** Whole histories of one kd-tree: whatever was attached, detached and rebuilt, queries stay complete. */
module KdTreeHistory {
  import opened Collections
  import opened KdTree
  import opened KdTreeRebuild
  import opened KdTreeCull

  datatype Op =
    | AttachOp(n: Node)
    | DetachOp(n: Node)
    | OptimizeOp
    | RebuildOp(nodes: seq<Node>)
    | QueryOp(rightSkew: bool, target: Box)
    | CullOp(rightSkew: bool, target: Box, culler: Box -> bool)

  /** The nodes stored after one more operation. */
  ghost function AfterOp(before: set<Node>, op: Op): set<Node> {
    match op
    case AttachOp(n) => before + {n}
    case DetachOp(n) => before - {n}
    case RebuildOp(nodes) => Elements(nodes)
    case _ => before
  }

  /** The nodes stored after a history. */
  ghost function Stored(ops: seq<Op>): set<Node> {
    if ops == [] then {} else AfterOp(Stored(ops[..|ops| - 1]), ops[|ops| - 1])
  }

  lemma StoredNext(ops: seq<Op>, k: nat)
    requires k < |ops|
    ensures Stored(ops[..k + 1]) == AfterOp(Stored(ops[..k]), ops[k])
  {
    assert ops[..k + 1][..k] == ops[..k];
  }

  /** The callers' obligations: attach what is not stored, detach what is, rebuild from distinct nodes
      that include the stored ones, query with a proper box. */
  ghost predicate Legal(ops: seq<Op>, universe: set<Node>, d: nat) {
    forall i :: 0 <= i < |ops| ==> LegalOp(ops[i], Stored(ops[..i]), universe, d)
  }

  ghost predicate LegalOp(op: Op, stored: set<Node>, universe: set<Node>, d: nat) {
    match op
    case AttachOp(n) => n in universe - stored
    case DetachOp(n) => n in stored
    case OptimizeOp => true
    case RebuildOp(nodes) => NoDup(nodes) && stored <= Elements(nodes) <= universe
    case QueryOp(_, target) => Dim(target, d)
    case CullOp(_, target, _) => Dim(target, d)
  }

  ghost predicate Loose(ns: set<Node>, d: nat)
    reads ns
  {
    forall n <- ns :: Dim(n.key, d) && n.index < 2 * d && n.Content() == Cell(null, n.index, null, null)
  }

  /** An answer is complete: no node twice, only stored nodes, all stored overlapping boxes. */
  ghost predicate Complete(stored: set<Node>, target: Box, d: nat, answer: seq<Node>)
    requires Dim(target, d)
  {
    NoDup(answer) && Elements(answer) <= stored && AllMet(stored, target, d, answer)
  }

  /** An answer of the culling query: no node twice, only stored nodes that the culler accepts and, if
      the culler is monotone, all of those inside the target. */
  ghost predicate Picked(stored: set<Node>, target: Box, culler: Box -> bool, d: nat, answer: seq<Node>)
    requires Dim(target, d)
  {
    && NoDup(answer) && Elements(answer) <= stored && (forall m <- answer :: culler(m.key))
    && (Monotone(culler, d) ==>
          forall m <- stored :: Dim(m.key, d) && (Within(m.key, target, d) && culler(m.key) ==> m in answer))
  }

  /** What operation `op` answers from the stored nodes. */
  ghost predicate Answers(op: Op, stored: set<Node>, d: nat, answer: seq<Node>) {
    match op
    case QueryOp(_, target) => Dim(target, d) && Complete(stored, target, d, answer)
    case CullOp(_, target, culler) => Dim(target, d) && Picked(stored, target, culler, d, answer)
    case _ => answer == []
  }

  /** Apply a history to the empty tree; `answers[i]` is what query `i` visits. */
  method Replay(ops: seq<Op>, code: Node -> int, d: nat, ghost universe: set<Node>)
    returns (root: Node?, answers: seq<seq<Node>>, ghost t: Tree)
    requires d > 0 && Loose(universe, d) && Legal(ops, universe, d)
    modifies universe
    ensures root == Root(t) && TreeOver(t, Stored(ops), d) && Loose(universe - Stored(ops), d)
    ensures |answers| == |ops|
    ensures forall i :: 0 <= i < |ops| ==> Answers(ops[i], Stored(ops[..i]), d, answers[i])
  {
    hide Distinct, Ordered, Linked, Nodes, NoDup, AllMet, Elements, Answers, Loose, AfterOp, Stored;
    StoredNone();
    assert ops[..0] == [] && universe - {} == universe;
    root, answers, t := null, [], Nil;
    EmptyTree(d);
    for k := 0 to |ops|
      invariant root == Root(t) && TreeOver(t, Stored(ops[..k]), d) && Stored(ops[..k]) <= universe
      invariant Loose(universe - Stored(ops[..k]), d)
      invariant |answers| == k
      invariant forall i :: 0 <= i < k ==> Answers(ops[i], Stored(ops[..i]), d, answers[i])
    {
      StoredNext(ops, k);
      ghost var stored := Stored(ops[..k]);
      assert LegalOp(ops[k], stored, universe, d);
      var answer;
      root, answer, t := Apply(ops[k], root, code, d, universe, t);
      answers := answers + [answer];
    }
    assert ops[..|ops|] == ops;
  }

  method Apply(op: Op, root: Node?, code: Node -> int, d: nat, ghost universe: set<Node>, ghost t: Tree)
    returns (newRoot: Node?, answer: seq<Node>, ghost t': Tree)
    requires d > 0 && root == Root(t) && TreeOver(t, Nodes(t), d) && Nodes(t) <= universe
    requires Loose(universe - Nodes(t), d) && LegalOp(op, Nodes(t), universe, d)
    modifies universe
    ensures newRoot == Root(t')
    ensures var after := AfterOp(Nodes(t), op);
      TreeOver(t', after, d) && after <= universe && Loose(universe - after, d)
    ensures Answers(op, Nodes(t), d, answer)
  {
    hide Distinct, Ordered, Linked, NoDup, AllMet, Elements, Monotone;
    assert allocated(universe);
    newRoot, answer, t' := root, [], t;
    match op {
      case AttachOp(n) =>
        if root == null {
          newRoot, t' := n, Fork(n, n.index, Nil, Nil);
          LeafTree(n, d);
        } else {
          t' := n.Attach(root, d, t);
        }
      case DetachOp(n) =>
        OrderedDims(t, d);
        ghost var s;
        newRoot, s := n.Detach(d, t);
        t' := Replace(t, n, s);
        ReplaceRoot(t, n, s);
        if n != root { newRoot := root; }
      case OptimizeOp =>
        if root != null {
          ghost var sorted;
          newRoot, t', sorted := Optimize(root, code, d, t);
        }
      case RebuildOp(nodes) =>
        DimsWithin(nodes, t, universe, d);
        ghost var sorted;
        newRoot, t', sorted := Rebuild(nodes, code, d);
      case QueryOp(rightSkew, target) =>
        if root != null {
          var ok;
          ok, answer := root.Query(rightSkew, target, n => true, d, t, null);
        } else {
          NothingStored(target, d);
        }
      case CullOp(rightSkew, target, culler) =>
        if root != null {
          var ok, after;
          ok, answer, after := Cull(root, rightSkew, target, n => true, culler, d, t, null);
          PickedAll(t, rightSkew, target, culler, d, ok, answer);
        } else {
          NothingPicked(target, culler, d);
        }
    }
  }

  lemma PickedAll(t: Tree, rightSkew: bool, target: Box, culler: Box -> bool, d: nat, ok: bool, answer: seq<Node>)
    requires Ordered(t, d) && Distinct(t) && Dim(target, d)
    requires Offered(n => true, ok, answer, Culled(t, rightSkew, target, culler, d))
    ensures Picked(Nodes(t), target, culler, d, answer)
  {
    CulledOnce(t, rightSkew, target, culler, d);
    OrderedDims(t, d);
    if Monotone(culler, d) {
      forall m | m in Nodes(t) && Within(m.key, target, d) && culler(m.key) ensures m in answer {
        CulledExactly(t, rightSkew, target, culler, d, m);
      }
    }
  }

  lemma DimsWithin(nodes: seq<Node>, t: Tree, universe: set<Node>, d: nat)
    requires Elements(nodes) <= universe && Ordered(t, d) && Loose(universe - Nodes(t), d)
    ensures AllDims(nodes, d)
  {
    OrderedDims(t, d);
    forall i | 0 <= i < |nodes| ensures Dim(nodes[i].key, d) {
      assert nodes[i] in Elements(nodes);
    }
  }

  lemma StoredNone()
    ensures Stored([]) == {}
  {
  }

  lemma EmptyTree(d: nat)
    ensures TreeOver(Nil, {}, d)
  {
  }

  lemma LeafTree(n: Node, d: nat)
    requires d > 0 && n.Content() == Cell(null, n.index, null, null) && Dim(n.key, d) && n.index < 2 * d
    ensures TreeOver(Fork(n, n.index, Nil, Nil), {n}, d)
  {
    assert Nodes(Nil) == {};
  }

  lemma NothingStored(target: Box, d: nat)
    requires Dim(target, d)
    ensures Complete({}, target, d, [])
  {
  }

  lemma NothingPicked(target: Box, culler: Box -> bool, d: nat)
    requires Dim(target, d)
    ensures Picked({}, target, culler, d, [])
  {
  }
}
