/**
 Rebalancing the kd-tree: `optimize` takes a tree apart breadth first, `rebuild` takes loose nodes,
 and both insert the nodes again, the middle of the sorted sequence first.
 */
module KdTreeRebuild {
  import opened Collections
  import opened KdTree

  ghost predicate Bare(n: Node)
    reads n
  {
    n.parent == null && n.left == null && n.right == null
  }

  ghost predicate AllBare(ns: set<Node>)
    reads ns
  {
    forall n <- ns :: Bare(n)
  }

  predicate AllDims(s: seq<Node>, d: nat) {
    forall i :: 0 <= i < |s| ==> Dim(s[i].key, d)
  }

  /** The heap holds exactly the tree `t` over the nodes `ns`, in kd order. */
  ghost predicate TreeOver(t: Tree, ns: set<Node>, d: nat)
    reads Nodes(t)
  {
    Nodes(t) == ns && Distinct(t) && Linked(t, null) && Ordered(t, d)
  }

  /** Insert the middle of `s` first, then the halves before and after it, one dimension further. */
  ghost function Filled(t: Tree, s: seq<Node>, index: nat, d: nat): Tree
    decreases |s|
  {
    if s == [] || d == 0 then t
    else
      var mid := |s| / 2;
      var t1 := Filled(Insert(t, s[mid], index, d), s[..mid], NextIndex(d, index), d);
      Filled(t1, s[mid + 1..], NextIndex(d, index), d)
  }

  /** The tree rebuilt from nodes in the order `s`: the middle one is the root, on dimension 0. */
  ghost function Balanced(s: seq<Node>, d: nat): Tree {
    if s == [] then Nil
    else
      var mid := |s| / 2;
      Filled(Filled(Fork(s[mid], 0, Nil, Nil), s[..mid], 1, d), s[mid + 1..], 1, d)
  }

  /** `build`: insert the middle node, then the two halves. */
  method Build(root: Node, s: seq<Node>, index: nat, d: nat, ghost t: Tree) returns (ghost t': Tree)
    requires d > 0 && index < 2 * d && NoDup(s) && AllBare(Elements(s)) && AllDims(s, d)
    requires t.Fork? && t.node == root && TreeOver(t, Nodes(t), d) && Nodes(t) !! Elements(s)
    modifies Nodes(t), Elements(s)
    ensures t'.Fork? && t'.node == root && TreeOver(t', Nodes(t) + Elements(s), d) && t' == Filled(t, s, index, d)
    decreases |s|
  {
    hide Nodes, Distinct, Linked, Ordered, NoDup, AllDims, Elements;
    t' := t;
    if 0 == |s| {
      Empty(s);
    } else {
      var mid := |s| / 2;
      Halves(s, mid, d);
      BareParts(s, mid);
      assert allocated(Elements(s[..mid])) && allocated(Elements(s[mid + 1..]));
      s[mid].index := index;
      t' := s[mid].Attach(root, d, t);
      assert AllBare(Elements(s[..mid])) && AllBare(Elements(s[mid + 1..]));
      t' := Build(root, s[..mid], NextIndex(d, index), d, t');
      assert AllBare(Elements(s[mid + 1..]));
      t' := Build(root, s[mid + 1..], NextIndex(d, index), d, t');
    }
  }

  lemma Empty(s: seq<Node>)
    ensures s == [] ==> Elements(s) == {}
  {
  }

  lemma Halves(s: seq<Node>, mid: nat, d: nat)
    requires mid < |s| && NoDup(s) && AllDims(s, d)
    ensures NoDup(s[..mid]) && NoDup(s[mid + 1..]) && AllDims(s[..mid], d) && AllDims(s[mid + 1..], d)
      && Dim(s[mid].key, d)
    ensures Elements(s) == {s[mid]} + Elements(s[..mid]) + Elements(s[mid + 1..])
    ensures s[mid] !in Elements(s[..mid]) + Elements(s[mid + 1..]) && Elements(s[..mid]) !! Elements(s[mid + 1..])
  {
    assert s == s[..mid] + [s[mid]] + s[mid + 1..];
  }

  lemma BareParts(s: seq<Node>, mid: nat)
    requires mid < |s| && AllBare(Elements(s))
    ensures AllBare(Elements(s[..mid])) && AllBare(Elements(s[mid + 1..])) && Bare(s[mid])
  {
  }

  /** The common end of `optimize` and `rebuild`: the middle node becomes the root, dimension 0. */
  method Reconstruct(s: seq<Node>, d: nat) returns (root: Node, ghost t: Tree)
    requires d > 0 && s != [] && NoDup(s) && AllBare(Elements(s)) && AllDims(s, d)
    modifies Elements(s)
    ensures t.Fork? && t.node == root && TreeOver(t, Elements(s), d) && t == Balanced(s, d)
  {
    var mid := |s| / 2;
    Halves(s, mid, d);
    BareParts(s, mid);
    root := s[mid];
    root.index := 0;
    t := Fork(root, 0, Nil, Nil);
    Leaf(root, d);
    t := Build(root, s[..mid], 1, d, t);
    t := Build(root, s[mid + 1..], 1, d, t);
  }

  lemma Leaf(n: Node, d: nat)
    requires d > 0 && n.Content() == Cell(null, 0, null, null) && Dim(n.key, d)
    ensures TreeOver(Fork(n, 0, Nil, Nil), {n}, d)
  {
    assert Nodes(Nil) == {};
  }

  ghost predicate ByCode(s: seq<Node>, code: Node -> int) {
    forall i, j :: 0 <= i < j < |s| ==> code(s[i]) <= code(s[j])
  }

  /** `std::sort` over the nodes' codes. */
  method SortByCode(s: seq<Node>, code: Node -> int) returns (q: seq<Node>)
    ensures multiset(q) == multiset(s) && ByCode(q, code)
  {
    hide ByCode;
    q := [];
    SortedEmpty(code);
    for n := 0 to |s|
      invariant multiset(q) == multiset(s[..n]) && ByCode(q, code)
    {
      var k := |q|;
      while k > 0 && code(s[n]) < code(q[k - 1])
        invariant 0 <= k <= |q| && forall i :: k <= i < |q| ==> code(s[n]) < code(q[i])
      {
        k := k - 1;
      }
      Inserted(q, k, s[n], code);
      OneMore(q, k, s[n]);
      assert s[..n + 1] == s[..n] + [s[n]];
      q := q[..k] + [s[n]] + q[k..];
    }
    assert s[..|s|] == s;
  }

  lemma SortedEmpty(code: Node -> int)
    ensures ByCode([], code)
  {
  }

  lemma OneMore(q: seq<Node>, k: nat, x: Node)
    requires k <= |q|
    ensures multiset(q[..k] + [x] + q[k..]) == multiset(q) + multiset{x}
  {
    assert q == q[..k] + q[k..];
  }

  lemma Inserted(q: seq<Node>, k: nat, x: Node, code: Node -> int)
    requires k <= |q| && ByCode(q, code) && (k > 0 ==> code(q[k - 1]) <= code(x))
    requires forall i :: k <= i < |q| ==> code(x) < code(q[i])
    ensures ByCode(q[..k] + [x] + q[k..], code)
  {
    var r := q[..k] + [x] + q[k..];
    forall i, j | 0 <= i < j < |r| ensures code(r[i]) <= code(r[j]) {
      if j == k {
        assert code(q[i]) <= code(q[k - 1]);
      } else if i != k {
        assert code(q[if i < k then i else i - 1]) <= code(q[if j < k then j else j - 1]);
      }
    }
  }

  lemma Permuted(s: seq<Node>, q: seq<Node>, d: nat)
    requires multiset(q) == multiset(s) && NoDup(s) && AllDims(s, d)
    ensures NoDup(q) && AllDims(q, d) && Elements(q) == Elements(s) && |q| == |s|
  {
    assert |q| == |multiset(q)| == |multiset(s)| == |s|;
    forall x ensures x in q <==> x in s {
      assert x in q <==> x in multiset(q);
    }
    OneEach(s);
    forall i | 0 <= i < |q| ensures Dim(q[i].key, d) {
      assert q[i] in s;
    }
    forall i, j | 0 <= i < j < |q| ensures q[i] != q[j] {
      assert q[i] in s;
      if q[i] == q[j] { Twice(q, i, j); }
    }
  }

  lemma {:induction false} OneEach(s: seq<Node>)
    requires NoDup(s)
    ensures forall x <- s :: multiset(s)[x] == 1
  {
    if s != [] {
      var r := s[..|s| - 1];
      assert s == r + [s[|s| - 1]];
      OneEach(r);
    }
  }

  lemma Twice(q: seq<Node>, i: nat, j: nat)
    requires i < j < |q| && q[i] == q[j]
    ensures multiset(q)[q[i]] >= 2
  {
    assert q == q[..i] + [q[i]] + q[i + 1..j] + [q[j]] + q[j + 1..];
  }

  /** `rebuild`: loose nodes, whatever they were linked to, become one tree. */
  method Rebuild(nodes: seq<Node>, code: Node -> int, d: nat)
    returns (root: Node?, ghost t: Tree, ghost sorted: seq<Node>)
    requires d > 0 && NoDup(nodes) && AllDims(nodes, d)
    modifies Elements(nodes)
    ensures root == Root(t) && TreeOver(t, Elements(nodes), d)
    ensures multiset(sorted) == multiset(nodes) && ByCode(sorted, code) && t == Balanced(sorted, d)
  {
    if nodes == [] { return null, Nil, []; }
    for i := 0 to |nodes|
      invariant AllBare(Elements(nodes[..i]))
    {
      nodes[i].parent, nodes[i].left, nodes[i].right := null, null, null;
      assert nodes[..i + 1] == nodes[..i] + [nodes[i]];
    }
    assert nodes[..|nodes|] == nodes;
    var s := SortByCode(nodes, code);
    Permuted(nodes, s, d);
    assert forall i :: 0 <= i < |s| ==> s[i] in Elements(s);
    root, t := Reconstruct(s, d);
    sorted := s;
  }

  /** `optimize`: take the tree rooted at `root` apart and build it again. */
  method Optimize(root: Node, code: Node -> int, d: nat, ghost t: Tree)
    returns (newRoot: Node, ghost t': Tree, ghost sorted: seq<Node>)
    requires d > 0 && t.Fork? && t.node == root && TreeOver(t, Nodes(t), d)
    modifies Nodes(t)
    ensures t'.Fork? && t'.node == newRoot && TreeOver(t', Nodes(t), d)
    ensures NoDup(sorted) && Elements(sorted) == Nodes(t) && ByCode(sorted, code) && t' == Balanced(sorted, d)
  {
    var all := Collect(root, t);
    DimsOf(all, t, d);
    var s := SortByCode(all, code);
    Permuted(all, s, d);
    assert forall i :: 0 <= i < |s| ==> s[i] in Elements(s);
    newRoot, t' := Reconstruct(s, d);
    sorted := s;
  }

  lemma DimsOf(s: seq<Node>, t: Tree, d: nat)
    requires Elements(s) == Nodes(t) && Ordered(t, d)
    ensures AllDims(s, d)
  {
    OrderedDims(t, d);
    forall i | 0 <= i < |s| ensures Dim(s[i].key, d) {
      assert s[i] in Elements(s);
    }
  }

  /** The walk has listed `all` and unlinked its first `n` nodes: every listed node but the root came
      from an unlinked parent, and every child of an unlinked node is listed. */
  ghost predicate Walked(t: Tree, all: seq<Node>, n: nat) {
    && t.Fork? && n <= |all| && NoDup(all) && Elements(all) <= Nodes(t) && t.node in all
    && (forall x <- all :: x in Nodes(t) && (x == t.node || FromParent(CellOf(t, x, null).parent, all[..n])))
    && (forall x <- all[..n] :: x in Nodes(t) && Listed(CellOf(t, x, null), all))
  }

  ghost predicate FromParent(p: Node?, done: seq<Node>) {
    p != null && p in done
  }

  ghost predicate Listed(c: Cell, all: seq<Node>) {
    (c.left != null ==> c.left in all) && (c.right != null ==> c.right in all)
  }

  /** Fields while the walk is on: untouched nodes as in `t`, the others bare. */
  ghost predicate HalfBare(t: Tree, done: seq<Node>)
    reads Nodes(t)
  {
    forall m <- Nodes(t) :: if m in done then Bare(m) else m.Content() == CellOf(t, m, null)
  }

  /** The first loop of `optimize`: list all nodes breadth first, clearing their links. */
  method Collect(root: Node, ghost t: Tree) returns (all: seq<Node>)
    requires t.Fork? && t.node == root && Distinct(t) && Linked(t, null)
    modifies Nodes(t)
    ensures NoDup(all) && Elements(all) == Nodes(t) && AllBare(Elements(all))
  {
    hide Nodes, Distinct, CellOf, NoDup, Walked, HalfBare;
    all := [root];
    var n := 0;
    WalkStart(t);
    assert allocated(Nodes(t));
    while n < |all|
      invariant n <= |all| && Walked(t, all, n) && HalfBare(t, all[..n])
      decreases |Nodes(t)| - n
    {
      var tree := all[n];
      NotYet(t, all, n);
      NoDupSize(all, Nodes(t));
      StillLinked(t, all[..n], tree);
      ghost var before := all;
      if tree.left != null { all := all + [tree.left]; }
      if tree.right != null { all := all + [tree.right]; }
      WalkOn(t, before, n, all);
      Clear(tree, t, before[..n]);
      n := n + 1;
    }
    WalkEnd(t, all);
  }

  method Clear(tree: Node, ghost t: Tree, ghost done: seq<Node>)
    requires tree in Nodes(t) && HalfBare(t, done)
    modifies tree
    ensures HalfBare(t, done + [tree])
  {
    hide Nodes, CellOf;
    assert allocated(Nodes(t));
    tree.parent, tree.left, tree.right := null, null, null;
  }

  lemma WalkStart(t: Tree)
    requires t.Fork?
    requires Linked(t, null)
    ensures Walked(t, [t.node], 0) && HalfBare(t, [])
  {
  }

  lemma NoDupSize(s: seq<Node>, ns: set<Node>)
    requires NoDup(s) && Elements(s) <= ns
    ensures |s| <= |ns|
  {
    if s != [] {
      var x := s[|s| - 1];
      var r := s[..|s| - 1];
      forall y | y in r ensures y in ns - {x} {
        assert y in Elements(s);
      }
      assert x in Elements(s);
      NoDupSize(r, ns - {x});
    }
  }

  lemma NotYet(t: Tree, all: seq<Node>, n: nat)
    requires Walked(t, all, n) && n < |all|
    ensures all[n] in Nodes(t) && all[n] !in all[..n] && NoDup(all) && Elements(all) <= Nodes(t)
  {
  }

  lemma StillLinked(t: Tree, done: seq<Node>, x: Node)
    requires HalfBare(t, done) && x in Nodes(t) && x !in done
    ensures x.Content() == CellOf(t, x, null)
  {
  }

  /** Listing the children of the next node: none of them was listed before. */
  lemma WalkOn(t: Tree, all: seq<Node>, n: nat, more: seq<Node>)
    requires Distinct(t) && Walked(t, all, n) && n < |all|
    requires all[n] in Nodes(t)
    requires var c := CellOf(t, all[n], null);
      more == all + (if c.left != null then [c.left] else []) + (if c.right != null then [c.right] else [])
    ensures n < |more| && Walked(t, more, n + 1)
    ensures more[..n + 1] == all[..n] + [all[n]]
  {
    hide Nodes, CellOf, Distinct;
    var x := all[n];
    var c := CellOf(t, x, null);
    var added := (if c.left != null then [c.left] else []) + (if c.right != null then [c.right] else []);
    NotYet(t, all, n);
    if c.left != null { NewChild(t, all, n, c.left); }
    if c.right != null { NewChild(t, all, n, c.right); }
    if c.left != null && c.right != null { OnlyChildOf(t, c.left, null, x); }
    assert more == all + added;
    Extended(all, added);
    WalkedOn(t, all, n, added);
  }

  /** New nodes whose parent is the next node keep the walk in order. */
  lemma WalkedOn(t: Tree, all: seq<Node>, n: nat, added: seq<Node>)
    requires Walked(t, all, n) && n < |all| && NoDup(all + added) && all[n] in Nodes(t)
    requires forall y <- added :: y in Nodes(t) && CellOf(t, y, null).parent == all[n]
    requires Listed(CellOf(t, all[n], null), all + added)
    ensures Walked(t, all + added, n + 1) && (all + added)[..n + 1] == all[..n] + [all[n]]
  {
    hide Nodes, CellOf, NoDup;
    var more := all + added;
    assert more[..n + 1] == all[..n] + [all[n]];
    assert forall x :: x in more <==> x in all || x in added;
  }

  lemma Extended(a: seq<Node>, b: seq<Node>)
    requires NoDup(a) && NoDup(b) && forall x <- b :: x !in a
    ensures NoDup(a + b) && forall x :: x in a + b <==> x in a || x in b
  {
    forall i, j | 0 <= i < j < |a + b| ensures (a + b)[i] != (a + b)[j] {
      if i >= |a| {
        assert b[i - |a|] != b[j - |a|];
      } else if j >= |a| {
        assert b[j - |a|] in b;
      }
    }
  }

  lemma NewChild(t: Tree, all: seq<Node>, n: nat, y: Node)
    requires Distinct(t) && Walked(t, all, n) && n < |all| && all[n] in Nodes(t)
    requires CellOf(t, all[n], null).left == y || CellOf(t, all[n], null).right == y
    ensures y in Nodes(t) && y !in all && y != t.node && CellOf(t, y, null).parent == all[n]
  {
    ChildIn(t, all[n], null, y);
    OnlyChildOf(t, y, null, all[n]);
    NotYet(t, all, n);
  }

  lemma {:induction false} ChildIn(t: Tree, m: Node, par: Node?, y: Node)
    requires Distinct(t) && m in Nodes(t) && (CellOf(t, m, par).left == y || CellOf(t, m, par).right == y)
    ensures y in Nodes(t)
  {
    RootIn(t.left);
    RootIn(t.right);
    if m != t.node {
      ChildIn(if m in Nodes(t.left) then t.left else t.right, m, t.node, y);
    }
  }

  /** A set of nodes that holds the root and is closed under children is the whole tree. */
  lemma {:induction false} ClosedIsAll(t: Tree, u: Tree, par: Node?, all: seq<Node>)
    requires u.Fork? && Distinct(u) && u.node in all && Nodes(u) <= Nodes(t)
    requires forall m <- Nodes(u) :: CellOf(t, m, null) == CellOf(u, m, par)
    requires forall x <- all :: x in Nodes(t) && Listed(CellOf(t, x, null), all)
    ensures Nodes(u) <= Elements(all)
    decreases u
  {
    assert CellOf(t, u.node, null) == CellOf(u, u.node, par);
    forall side | side in {u.left, u.right} ensures Nodes(side) <= Elements(all) {
      if side.Fork? {
        forall m | m in Nodes(side) ensures CellOf(t, m, null) == CellOf(side, m, u.node) {
          assert m in Nodes(u);
        }
        ClosedIsAll(t, side, u.node, all);
      }
    }
  }

  lemma WalkEnd(t: Tree, all: seq<Node>)
    requires Distinct(t) && Walked(t, all, |all|) && HalfBare(t, all[..|all|])
    ensures NoDup(all) && Elements(all) == Nodes(t) && AllBare(Elements(all))
  {
    assert all[..|all|] == all;
    ClosedIsAll(t, t, null, all);
    forall i | 0 <= i < |all| ensures Bare(all[i]) {
      assert all[i] in all;
    }
  }
}
