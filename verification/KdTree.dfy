/**
 The kd-tree of boxes (`iris_tree_t`): nodes linked in place, the abstract trees they form, and the
 operations that insert, remove, search and query.
 */
module KdTree {
  import opened Collections

  /** A bounding box: `lo` is the pair's first corner, `hi` its second. */
  datatype Box = Box(lo: seq<real>, hi: seq<real>)

  predicate Dim(b: Box, d: nat) {
    |b.lo| == d && |b.hi| == d
  }

  /** `iris_overlap_t::get`: lower bounds first, then upper bounds. */
  function Get(b: Box, d: nat, i: nat): real
    requires Dim(b, d) && i < 2 * d
  {
    if i < d then b.lo[i] else b.hi[i - d]
  }

  function NextIndex(d: nat, i: nat): (j: nat)
    requires d > 0
    ensures j < 2 * d
  {
    (i + 1) % (2 * d)
  }

  /** The dimensions are taken in turn. */
  lemma NextIndexCycles(d: nat, i: nat)
    requires i < 2 * d
    ensures NextIndex(d, i) == if i + 1 == 2 * d then 0 else i + 1
  {
    if i + 1 == 2 * d { ModUnique(2 * d, i + 1, 1, 0); } else { ModUnique(2 * d, i + 1, 0, i + 1); }
  }

  /** `iris_overlap_t::compare`. */
  predicate Compare(a: Box, b: Box, d: nat, i: nat)
    requires Dim(a, d) && Dim(b, d) && i < 2 * d
  {
    Get(b, d, i) < Get(a, d, i)
  }

  predicate OverlapLeft(key: Box, target: Box, d: nat, i: nat)
    requires Dim(key, d) && Dim(target, d) && i < 2 * d
  {
    i < d || !(Get(key, d, i) < Get(target, d, i - d))
  }

  predicate OverlapRight(key: Box, target: Box, d: nat, i: nat)
    requires Dim(key, d) && Dim(target, d) && i < 2 * d
  {
    i >= d || !(Get(target, d, i + d) < Get(key, d, i))
  }

  /** Two boxes overlap when their intervals meet on every axis. */
  ghost predicate Overlaps(a: Box, b: Box, d: nat)
    requires Dim(a, d) && Dim(b, d)
  {
    forall i :: 0 <= i < d ==> a.lo[i] <= b.hi[i] && b.lo[i] <= a.hi[i]
  }

  class Node {
    const key: Box
    var index: nat
    var parent: Node?
    var left: Node?
    var right: Node?

    constructor (key: Box, index: nat)
      ensures this.key == key && Content() == Cell(null, index, null, null)
    {
      this.key := key;
      this.index := index;
      parent, left, right := null, null, null;
    }

    ghost function Content(): Cell
      reads this
    {
      Cell(parent, index, left, right)
    }

    /** `merge`: insert `n` below this node. */
    method Merge(n: Node, d: nat, ghost t: Tree, ghost par: Node?) returns (ghost t': Tree)
      requires t.Fork? && t.node == this && Distinct(t) && Linked(t, par) && Ordered(t, d)
      requires n !in Nodes(t) && Dim(n.key, d) && n.index < 2 * d && n.Content() == Cell(null, n.index, null, null)
      modifies Nodes(t)`left, Nodes(t)`right, n`parent
      ensures t'.Fork? && t'.node == this && t'.index == t.index && t' == Insert(t, n, n.index, d)
      ensures Nodes(t') == Nodes(t) + {n} && Distinct(t') && Linked(t', par) && Ordered(t', d)
      decreases t
    {
      hide Insert;
      LinkedParts(t, par);
      InsertStep(t, n, n.index, d);
      assert allocated(Nodes(t.left)) && allocated(Nodes(t.right));
      var goLeft := Compare(key, n.key, d, index);
      var child := if goLeft then left else right;
      if child == null {
        if goLeft { left := n; } else { right := n; }
        n.parent := this;
        ghost var leaf := Fork(n, n.index, Nil, Nil);
        t' := if goLeft then t.(left := leaf) else t.(right := leaf);
        Grafted(t, goLeft, leaf, n, d);
      } else if goLeft {
        ghost var l := child.Merge(n, d, t.left, this);
        t' := t.(left := l);
        Grafted(t, true, l, n, d);
      } else {
        ghost var r := child.Merge(n, d, t.right, this);
        t' := t.(right := r);
        Grafted(t, false, r, n, d);
      }
      LinkedJoin(t', par);
    }

    /** `find_minimal`: a node of this subtree with the least value on dimension `i`. */
    method FindMinimal(i: nat, d: nat, ghost t: Tree, ghost par: Node?) returns (p: Node)
      requires t.Fork? && t.node == this && Distinct(t) && Linked(t, par) && Ordered(t, d) && i < 2 * d
      ensures p in Nodes(t) && forall m <- Nodes(t) :: Dim(m.key, d) && Get(p.key, d, i) <= Get(m.key, d, i)
      decreases t
    {
      LinkedParts(t, par);
      assert allocated(Nodes(t.right));
      p := this;
      if left != null {
        var c := left.FindMinimal(i, d, t.left, this);
        if Compare(p.key, c.key, d, i) { p := c; }
      }
      if i != index && right != null {
        var c := right.FindMinimal(i, d, t.right, this);
        if Compare(p.key, c.key, d, i) { p := c; }
      }
    }

    /** `find_maximal`: a node of this subtree with the greatest value on dimension `i`. */
    method FindMaximal(i: nat, d: nat, ghost t: Tree, ghost par: Node?) returns (p: Node)
      requires t.Fork? && t.node == this && Distinct(t) && Linked(t, par) && Ordered(t, d) && i < 2 * d
      ensures p in Nodes(t) && forall m <- Nodes(t) :: Dim(m.key, d) && Get(m.key, d, i) <= Get(p.key, d, i)
      decreases t
    {
      LinkedParts(t, par);
      assert allocated(Nodes(t.right));
      p := this;
      if i != index && left != null {
        var c := left.FindMaximal(i, d, t.left, this);
        if !Compare(p.key, c.key, d, i) { p := c; }
      }
      if right != null {
        var c := right.FindMaximal(i, d, t.right, this);
        if !Compare(p.key, c.key, d, i) { p := c; }
      }
    }

    /** The writes of `light_detach`: the only child, if any, takes this node's place. */
    method SpliceOut() returns (newRoot: Node?)
      requires left == null || right == null
      requires parent != null ==> parent != this && (parent.left == this || parent.right == this)
      requires left != null ==> left !in {this, parent}
      requires right != null ==> right !in {this, parent}
      modifies {this, left, right, parent}
      ensures Content() == Cell(null, old(index), null, null)
      ensures var c := old(if left != null then left else right);
        && (c != null ==> c.Content() == old(c.Content()).(parent := old(parent)))
        && newRoot == (if old(parent) == null then c else null)
        && (old(parent) != null ==> old(parent).Content() == RelinkOne(old(parent.Content()), this, c))
    {
      newRoot := null;
      if left != null {
        left.parent := parent;
        newRoot := left;
        left := null;
      } else if right != null {
        right.parent := parent;
        newRoot := right;
        right := null;
      }
      if parent != null {
        if parent.left == this { parent.left := newRoot; } else { parent.right := newRoot; }
        newRoot := null;
        parent := null;
      }
    }

    /** `light_detach`: unlink a node that has at most one child.  `s` is what takes its place. */
    method LightDetach(ghost t: Tree) returns (done: bool, newRoot: Node?, ghost s: Tree)
      requires this in Nodes(t) && Distinct(t) && Linked(t, null)
      modifies Nodes(t)
      ensures done == (Sub(t, this).left.Nil? || Sub(t, this).right.Nil?)
      ensures !done ==> Linked(t, null)
      ensures done ==> s == (if Sub(t, this).left.Fork? then Sub(t, this).left else Sub(t, this).right)
      ensures done ==> Linked(Replace(t, this, s), null)
      ensures done ==> Content() == Cell(null, CellOf(t, this, null).index, null, null)
      ensures done ==> newRoot == if this == t.node then Root(s) else null
    {
      hide Nodes, Distinct, Sub, Replace, CellOf, Ordered;
      SubFacts(t, this, null, 0);
      RootsApart(t, this);
      assert Content() == CellOf(t, this, null);
      if left != null && right != null {
        return false, null, Nil;
      }
      s := if Sub(t, this).left.Fork? then Sub(t, this).left else Sub(t, this).right;
      if parent != null { ParentLink(t, this); }
      assert allocated(Nodes(t));
      newRoot := SpliceOut();
      done := true;
      RelinkedOnce(t, this, Root(s));
      SplicedOut(t, this, s);
    }

    /** The last writes of `detach`: the unlinked node `p` takes over this node's links and dimension. */
    method HandOver(p: Node) returns (newRoot: Node?)
      requires p != this && p.Content() == Cell(null, p.index, null, null)
      requires parent != null ==> parent != this && parent != p && (parent.left == this || parent.right == this)
      requires left != null ==> left !in {this, parent, p, right}
      requires right != null ==> right !in {this, parent, p}
      modifies {this, p, left, right, parent}
      ensures Content() == Cell(null, old(p.index), null, null) && p.Content() == old(Content())
      ensures old(left) != null ==> old(left).Content() == old(left.Content()).(parent := p)
      ensures old(right) != null ==> old(right).Content() == old(right.Content()).(parent := p)
      ensures newRoot == (if old(parent) == null then p else null)
      ensures old(parent) != null ==> old(parent).Content() == RelinkOne(old(parent.Content()), this, p)
    {
      newRoot := p;
      if parent != null {
        if parent.left == this { parent.left := newRoot; } else { parent.right := newRoot; }
        newRoot := null;
      }
      if left != null { left.parent := p; }
      if right != null { right.parent := p; }
      index, p.index := p.index, index;
      left, p.left := p.left, left;
      right, p.right := p.right, right;
      parent, p.parent := p.parent, parent;
    }

    /** `detach`: remove this node from the tree.  A node with two children is replaced by an extreme
        node of one side, which is detached first; the choice of side is arbitrary. */
    method Detach(d: nat, ghost t: Tree) returns (newRoot: Node?, ghost s: Tree)
      requires this in Nodes(t) && Distinct(t) && Linked(t, null) && Ordered(t, d)
      modifies Nodes(t)
      ensures Distinct(s) && Nodes(s) == Nodes(Sub(t, this)) - {this} && Ordered(s, d)
      ensures var t' := Replace(t, this, s);
        Linked(t', null) && Distinct(t') && Ordered(t', d) && Nodes(t') == Nodes(t) - {this}
      ensures Content() == Cell(null, index, null, null) && index < 2 * d
      ensures newRoot == if this == t.node then Root(s) else null
      decreases |Nodes(Sub(t, this))|
    {
      hide Nodes, Distinct, Sub, Replace, CellOf, Ordered;
      var done;
      done, newRoot, s := LightDetach(t);
      if done {
        LightlyRemoved(t, this, s, d);
        SubFacts(t, this, null, d);
        Removed(t, this, s, d);
        return;
      }
      assert allocated(Nodes(t));
      var p := Replacer(d, t);
      SmallerSub(t, this, p);
      var _, sp := p.Detach(d, t);
      ghost var t1 := Replace(t, p, sp);
      s := Promoted(t, this, p, sp, d);
      assert Content() == CellOf(t1, this, null);
      SubFacts(t1, this, null, d);
      RootsApart(t1, this);
      if parent != null { ParentLink(t1, this); }
      newRoot := HandOver(p);
      RelinkedOnce(t1, this, p);
      HandedOver(t1, this, p);
      Removed(t, this, s, d);
    }

    /** The node that `detach` chooses to replace this one, on the side the selector names. */
    method Replacer(d: nat, ghost t: Tree) returns (p: Node)
      requires this in Nodes(t) && Distinct(t) && Linked(t, null) && Ordered(t, d)
      requires Sub(t, this).left.Fork? && Sub(t, this).right.Fork?
      ensures p != this && p in Nodes(Sub(t, this)) && Replaces(Sub(t, this), p, d)
    {
      SubFacts(t, this, null, d);
      assert Linked(Sub(t, this), parent);
      LinkedParts(Sub(t, this), parent);
      var pickRight: bool := *;
      if pickRight {
        p := right.FindMinimal(index, d, Sub(t, this).right, this);
      } else {
        p := left.FindMaximal(index, d, Sub(t, this).left, this);
      }
    }

    /** `attach`: hang this unlinked node below the tree rooted at `r`. */
    method Attach(r: Node, d: nat, ghost t: Tree) returns (ghost t': Tree)
      requires t.Fork? && t.node == r && Distinct(t) && Linked(t, null) && Ordered(t, d)
      requires this !in Nodes(t) && Dim(key, d) && index < 2 * d && Content() == Cell(null, index, null, null)
      modifies Nodes(t)`left, Nodes(t)`right, this`parent
      ensures t'.Fork? && t'.node == r && Nodes(t') == Nodes(t) + {this} && t' == Insert(t, this, index, d)
      ensures Distinct(t') && Linked(t', null) && Ordered(t', d)
    {
      t' := r.Merge(this, d, t, null);
    }

    /** `query`, in either skew: the nodes handed to the queryer, in order, and whether it ran to the end. */
    method Query(rightSkew: bool, target: Box, queryer: Node -> bool, d: nat, ghost t: Tree, ghost par: Node?)
      returns (ok: bool, visited: seq<Node>)
      requires t.Fork? && t.node == this && Distinct(t) && Linked(t, par) && Ordered(t, d) && Dim(target, d)
      ensures NoDup(visited) && Elements(visited) <= Nodes(t)
      ensures ok ==> Accepted(queryer, visited) && AllMet(Nodes(t), target, d, visited)
      ensures !ok ==> visited != [] && Accepted(queryer, visited[..|visited| - 1]) && !queryer(visited[|visited| - 1])
      decreases t
    {
      hide Elements, NoDup, AllMet, Ordered, Distinct, Linked, CellOf, Nodes, Accepted;
      var p: Node? := this;
      ghost var cur, q := t, par;
      visited := [];
      QueryStart(Nodes(t), target, d, queryer);
      while p != null
        invariant p == Root(cur) && Distinct(cur) && Ordered(cur, d) && Linked(cur, q)
        invariant Progress(Nodes(t), Nodes(cur), target, d, visited) && Accepted(queryer, visited)
        invariant cur == t || cur < t
        decreases cur
      {
        LinkedParts(cur, q);
        OrderedParts(cur, d);
        assert allocated(Nodes(cur.left)) && allocated(Nodes(cur.right));
        ghost var aside, along := if rightSkew then cur.left else cur.right, if rightSkew then cur.right else cur.left;
        VisitOne(p, target, d, queryer);
        Visit(Nodes(t), Nodes(cur), {p}, target, d, visited, [p]);
        visited := visited + [p];
        assert visited[..|visited| - 1] + [p] == visited;
        if !queryer(p) {
          VisitedSoFar(Nodes(t), Nodes(cur) - {p}, target, d, visited);
          return false, visited;
        }
        AcceptedMore(queryer, visited[..|visited| - 1], [p]);
        var branch := if rightSkew then p.left else p.right;
        var enter := if rightSkew then OverlapLeft(p.key, target, d, p.index)
          else OverlapRight(p.key, target, d, p.index);
        if branch != null && enter {
          var more;
          ok, more := branch.Query(rightSkew, target, queryer, d, aside, p);
          if !ok {
            StoppedBelow(Nodes(t), Nodes(cur) - {p}, Nodes(aside), target, d, queryer, visited, more);
            visited := visited + more;
            return;
          }
          Visit(Nodes(t), Nodes(cur) - {p}, Nodes(aside), target, d, visited, more);
          AcceptedMore(queryer, visited, more);
          visited := visited + more;
        } else {
          Pruned(cur, rightSkew, target, d);
          Visit(Nodes(t), Nodes(cur) - {p}, Nodes(aside), target, d, visited, []);
          assert visited + [] == visited;
        }
        var goOn := if rightSkew then OverlapRight(p.key, target, d, p.index)
          else OverlapLeft(p.key, target, d, p.index);
        if !goOn {
          Pruned(cur, !rightSkew, target, d);
          Visit(Nodes(t), Nodes(along), Nodes(along), target, d, visited, []);
          assert visited + [] == visited;
          NoNodes(Nil);
          assert Nodes(along) - Nodes(along) == Nodes(Nil);
          cur := Nil;
          break;
        }
        cur, q := along, p;
        p := if rightSkew then p.right else p.left;
      }
      NoNodes(cur);
      VisitedSoFar(Nodes(t), Nodes(cur), target, d, visited);
      ok := true;
    }
  }

  ghost predicate Accepted(queryer: Node -> bool, visited: seq<Node>) {
    forall v <- visited :: queryer(v)
  }

  ghost function Elements<T>(s: seq<T>): set<T> {
    set x <- s
  }

  /** Every node of `ns` whose box overlaps the target has been visited. */
  ghost predicate AllMet(ns: set<Node>, target: Box, d: nat, visited: seq<Node>)
    requires Dim(target, d)
  {
    forall m <- ns :: Dim(m.key, d) && (Overlaps(m.key, target, d) ==> m in visited)
  }

  /** The query has settled all nodes but `rest`. */
  ghost predicate Progress(all: set<Node>, rest: set<Node>, target: Box, d: nat, visited: seq<Node>) {
    && Dim(target, d) && rest <= all && NoDup(visited) && Elements(visited) <= all - rest
    && AllMet(all - rest, target, d, visited)
  }

  lemma QueryStart(all: set<Node>, target: Box, d: nat, queryer: Node -> bool)
    requires Dim(target, d)
    ensures Progress(all, all, target, d, []) && Accepted(queryer, [])
  {
  }

  lemma NoNodes(t: Tree)
    ensures t.Nil? ==> Nodes(t) == {}
  {
  }

  lemma OrderedParts(t: Tree, d: nat)
    requires t.Fork? && Distinct(t) && Ordered(t, d)
    ensures Distinct(t.left) && Distinct(t.right) && Ordered(t.left, d) && Ordered(t.right, d)
    ensures t.node in Nodes(t) && Dim(t.node.key, d) && t.index < 2 * d
    ensures Nodes(t) - {t.node} - Nodes(t.left) == Nodes(t.right)
      && Nodes(t) - {t.node} - Nodes(t.right) == Nodes(t.left)
    ensures Nodes(t.left) <= Nodes(t) - {t.node} && Nodes(t.right) <= Nodes(t) - {t.node}
  {
  }

  /** The nodes of `part` are settled: `more` of them visited, no other overlapping. */
  lemma Visit(all: set<Node>, rest: set<Node>, part: set<Node>, target: Box, d: nat, visited: seq<Node>,
    more: seq<Node>)
    requires Progress(all, rest, target, d, visited) && part <= rest
    requires Settled(part, target, d, more)
    ensures Progress(all, rest - part, target, d, visited + more)
  {
    VisitMore(all, rest, part, target, d, visited, more);
    forall m | m in all - (rest - part) ensures Dim(m.key, d) && (Overlaps(m.key, target, d) ==> m in visited + more) {
      assert m in all - rest || m in part;
    }
  }

  ghost predicate Settled(part: set<Node>, target: Box, d: nat, more: seq<Node>) {
    Dim(target, d) && NoDup(more) && Elements(more) <= part && AllMet(part, target, d, more)
  }

  lemma VisitMore(all: set<Node>, rest: set<Node>, part: set<Node>, target: Box, d: nat, visited: seq<Node>,
    more: seq<Node>)
    requires Progress(all, rest, target, d, visited) && part <= rest
    requires NoDup(more) && Elements(more) <= part
    ensures NoDup(visited + more) && Elements(visited + more) <= all - (rest - part)
  {
    hide AllMet;
    assert forall i :: 0 <= i < |visited| ==> visited[i] in Elements(visited);
    assert forall i :: 0 <= i < |more| ==> more[i] in Elements(more);
  }

  lemma StoppedBelow(all: set<Node>, rest: set<Node>, part: set<Node>, target: Box, d: nat, queryer: Node -> bool,
    visited: seq<Node>, more: seq<Node>)
    requires Progress(all, rest, target, d, visited) && part <= rest
    requires NoDup(more) && Elements(more) <= part && more != []
    requires Accepted(queryer, visited) && Accepted(queryer, more[..|more| - 1])
    ensures NoDup(visited + more) && Elements(visited + more) <= all
    ensures Accepted(queryer, (visited + more)[..|visited + more| - 1])
  {
    VisitMore(all, rest, part, target, d, visited, more);
    AcceptedMore(queryer, visited, more[..|more| - 1]);
    assert (visited + more)[..|visited + more| - 1] == visited + more[..|more| - 1];
  }

  lemma AcceptedMore(queryer: Node -> bool, visited: seq<Node>, more: seq<Node>)
    requires Accepted(queryer, visited) && Accepted(queryer, more)
    ensures Accepted(queryer, visited + more)
  {
  }

  lemma VisitedSoFar(all: set<Node>, rest: set<Node>, target: Box, d: nat, visited: seq<Node>)
    requires Progress(all, rest, target, d, visited)
    ensures NoDup(visited) && Elements(visited) <= all
    ensures rest == {} ==> AllMet(all, target, d, visited)
  {
    assert all - {} == all;
  }

  lemma VisitOne(p: Node, target: Box, d: nat, queryer: Node -> bool)
    requires Dim(target, d) && Dim(p.key, d)
    ensures Settled({p}, target, d, [p]) && (queryer(p) ==> Accepted(queryer, [p]))
  {
  }

  /** A side that the dimension test skips holds no box that overlaps the target. */
  lemma Pruned(t: Tree, leftSide: bool, target: Box, d: nat)
    requires t.Fork? && Ordered(t, d) && Dim(target, d)
    requires var side := if leftSide then t.left else t.right;
      side.Fork? ==> !(if leftSide then OverlapLeft(t.node.key, target, d, t.index)
        else OverlapRight(t.node.key, target, d, t.index))
    ensures Settled(Nodes(if leftSide then t.left else t.right), target, d, [])
  {
    forall m | m in Nodes(if leftSide then t.left else t.right) ensures Dim(m.key, d) && !Overlaps(m.key, target, d) {
    }
  }

  ghost predicate Dims(t: Tree, d: nat) {
    forall m <- Nodes(t) :: Dim(m.key, d)
  }

  /** `p` may stand at the root of `t` in place of its node. */
  ghost predicate Replaces(t: Tree, p: Node, d: nat) {
    && t.Fork? && t.index < 2 * d && Dims(t, d) && Dim(p.key, d) && p in Nodes(t.left) + Nodes(t.right)
    && (forall m <- Nodes(t.left) :: Get(m.key, d, t.index) <= Get(p.key, d, t.index))
    && (forall m <- Nodes(t.right) :: Get(p.key, d, t.index) <= Get(m.key, d, t.index))
  }

  lemma LightlyRemoved(t: Tree, n: Node, s: Tree, d: nat)
    requires Distinct(t) && n in Nodes(t) && Ordered(t, d)
    ensures var sub := Sub(t, n);
      (sub.left.Nil? && s == sub.right) || (sub.right.Nil? && s == sub.left)
      ==> Distinct(s) && Nodes(s) == Nodes(sub) - {n} && Ordered(s, d) && sub.index < 2 * d
  {
    SubFacts(t, n, null, d);
  }

  /** The order survives when `p`, already removed from below, replaces the root's node. */
  lemma Promoted(t: Tree, n: Node, p: Node, sp: Tree, d: nat) returns (s: Tree)
    requires Distinct(t) && n in Nodes(t) && Ordered(t, d)
    requires p in Nodes(Sub(t, n)) && Replaces(Sub(t, n), p, d)
    requires p in Nodes(t) && Distinct(sp) && Nodes(sp) == Nodes(Sub(t, p)) - {p} && Ordered(sp, d)
    ensures var t1 := Replace(t, p, sp);
      && Distinct(t1) && n in Nodes(t1) && p !in Nodes(t1) && p != n && (n == t.node <==> n == t1.node)
      && s == Fork(p, Sub(t1, n).index, Sub(t1, n).left, Sub(t1, n).right)
      && Nodes(t1) <= Nodes(t)
      && Replace(t1, n, s) == Replace(t, n, s)
    ensures Distinct(s) && Nodes(s) == Nodes(Sub(t, n)) - {n} && Ordered(s, d)
  {
    hide Nodes, Distinct, Sub, Replace, CellOf, Ordered, Replaces;
    var sub := Sub(t, n);
    SubFacts(t, n, null, d);
    SubFacts(t, p, null, d);
    ReplacerBelow(sub, p, d);
    SubInside(t, n, p);
    ReplaceNodes(t, p, sp);
    RootIn(Sub(t, p));
    ReplaceInside(t, n, p, sp, Nil);
    var rest := Replace(sub, p, sp);
    s := Fork(p, rest.index, rest.left, rest.right);
    ReplaceInside(t, n, p, sp, s);
    PromotedOrder(sub, p, sp, d);
  }

  lemma ReplacerBelow(t: Tree, p: Node, d: nat)
    requires Distinct(t) && Replaces(t, p, d)
    ensures p != t.node && p in Nodes(t) && t.Fork?
  {
  }

  lemma PromotedOrder(sub: Tree, p: Node, sp: Tree, d: nat)
    requires Distinct(sub) && Ordered(sub, d) && Replaces(sub, p, d)
    requires Distinct(sp) && Nodes(sp) == Nodes(Sub(sub, p)) - {p} && Ordered(sp, d)
    ensures p in Nodes(sub)
    ensures var rest := Replace(sub, p, sp); var s := Fork(p, rest.index, rest.left, rest.right);
      Distinct(s) && Nodes(s) == Nodes(sub) - {sub.node} && Ordered(s, d)
  {
    hide Ordered, Distinct;
    var l := if p in Nodes(sub.left) then Replace(sub.left, p, sp) else sub.left;
    var r := if p in Nodes(sub.left) then sub.right else Replace(sub.right, p, sp);
    OrderedParts(sub, d);
    Removed(if p in Nodes(sub.left) then sub.left else sub.right, p, sp, d);
    PromotedFork(sub, p, l, r, d);
  }

  lemma PromotedFork(sub: Tree, p: Node, l: Tree, r: Tree, d: nat)
    requires Distinct(sub) && Ordered(sub, d) && Replaces(sub, p, d)
    requires Distinct(l) && Distinct(r) && Ordered(l, d) && Ordered(r, d)
    requires Nodes(l) == Nodes(sub.left) - {p} && Nodes(r) == Nodes(sub.right) - {p}
    ensures var s := Fork(p, sub.index, l, r); Distinct(s) && Nodes(s) == Nodes(sub) - {sub.node} && Ordered(s, d)
  {
    PromotedNodes(sub, p, l, r);
    var s := Fork(p, sub.index, l, r);
    assert Ordered(s, d) by {
      hide Distinct;
      ForkOrdered(p, sub.index, l, r, d);
    }
    hide Ordered, Replaces;
  }

  lemma PromotedNodes(sub: Tree, p: Node, l: Tree, r: Tree)
    requires sub.Fork? && Distinct(sub) && p in Nodes(sub.left) + Nodes(sub.right) && Distinct(l) && Distinct(r)
    requires Nodes(l) == Nodes(sub.left) - {p} && Nodes(r) == Nodes(sub.right) - {p}
    ensures var s := Fork(p, sub.index, l, r); Distinct(s) && Nodes(s) == Nodes(sub) - {sub.node}
  {
  }

  lemma ForkOrdered(p: Node, i: nat, l: Tree, r: Tree, d: nat)
    requires Ordered(l, d) && Ordered(r, d) && Dim(p.key, d) && i < 2 * d
    requires forall m <- Nodes(l) :: Dim(m.key, d) && Get(m.key, d, i) <= Get(p.key, d, i)
    requires forall m <- Nodes(r) :: Dim(m.key, d) && Get(p.key, d, i) <= Get(m.key, d, i)
    ensures Ordered(Fork(p, i, l, r), d)
  {
  }

  /** What `detach` leaves: exactly one node fewer, links without sharing, the order intact. */
  lemma Removed(t: Tree, n: Node, s: Tree, d: nat)
    requires Distinct(t) && n in Nodes(t) && Ordered(t, d)
    requires Distinct(s) && Nodes(s) == Nodes(Sub(t, n)) - {n} && Ordered(s, d)
    ensures var t' := Replace(t, n, s); Distinct(t') && Nodes(t') == Nodes(t) - {n} && Ordered(t', d)
  {
    hide Distinct, Sub, Replace, Ordered;
    SubFacts(t, n, null, d);
    ReplaceNodes(t, n, s);
    ReplaceOrdered(t, n, s, d);
  }

  /** `p` has taken `n`'s place, with its dimension and its subtrees. */
  lemma HandedOver(t: Tree, n: Node, p: Node)
    requires Distinct(t) && n in Nodes(t) && p !in Nodes(t)
    requires p.Content() == CellOf(t, n, null)
    requires forall m <- Nodes(t) :: m != n ==>
      m.Content() == var c := Relink(CellOf(t, m, null), n, p);
                     if m == Root(Sub(t, n).left) || m == Root(Sub(t, n).right) then c.(parent := p) else c
    ensures Linked(Replace(t, n, Fork(p, Sub(t, n).index, Sub(t, n).left, Sub(t, n).right)), null)
  {
    var sub := Sub(t, n);
    var s := Fork(p, sub.index, sub.left, sub.right);
    SubFacts(t, n, null, 0);
    ReplaceNodes(t, n, s);
    forall m | m in Nodes(Replace(t, n, s)) ensures m.Content() == CellOf(Replace(t, n, s), m, null) {
      ReplaceCells(t, n, s, null, m);
      HandedOverCell(t, n, p, m);
    }
  }

  lemma HandedOverCell(t: Tree, n: Node, p: Node, m: Node)
    requires Distinct(t) && n in Nodes(t) && p !in Nodes(t)
    requires m == p || (m in Nodes(t) && m != n)
    ensures var sub := Sub(t, n); var s := Fork(p, sub.index, sub.left, sub.right); var q := CellOf(t, n, null).parent;
      && (m == p ==> m in Nodes(s) && CellOf(s, m, q) == CellOf(t, n, null))
      && (m in Nodes(sub.left) || m in Nodes(sub.right) ==>
            m in Nodes(s) && m in Nodes(t) &&
            CellOf(s, m, q) == var c := Relink(CellOf(t, m, null), n, p);
                               if m == Root(sub.left) || m == Root(sub.right) then c.(parent := p) else c)
      && (m !in Nodes(s) ==> m != Root(sub.left) && m != Root(sub.right))
  {
    var sub := Sub(t, n);
    SubFacts(t, n, null, 0);
    RootIn(sub.left);
    RootIn(sub.right);
    if m in Nodes(sub.left) {
      Rehang(sub.left, m, n, p);
      NotAChild(sub.left, m, n, n);
    } else if m in Nodes(sub.right) {
      Rehang(sub.right, m, n, p);
      NotAChild(sub.right, m, n, n);
    }
  }

  /** The mutable part of a node. */
  datatype Cell = Cell(parent: Node?, index: nat, left: Node?, right: Node?)

  datatype Tree = Nil | Fork(node: Node, index: nat, left: Tree, right: Tree)

  ghost function Root(t: Tree): Node? {
    if t.Nil? then null else t.node
  }

  ghost function Nodes(t: Tree): set<Node> {
    if t.Nil? then {} else {t.node} + Nodes(t.left) + Nodes(t.right)
  }

  ghost predicate Distinct(t: Tree) {
    t.Fork? ==>
      && t.node !in Nodes(t.left) && t.node !in Nodes(t.right) && Nodes(t.left) !! Nodes(t.right)
      && Distinct(t.left) && Distinct(t.right)
  }

  /** What the fields of node `m` of tree `t` are, when the tree hangs below `par`. */
  ghost function CellOf(t: Tree, m: Node, par: Node?): Cell
    requires m in Nodes(t)
  {
    if m == t.node then Cell(par, t.index, Root(t.left), Root(t.right))
    else if m in Nodes(t.left) then CellOf(t.left, m, t.node)
    else CellOf(t.right, m, t.node)
  }

  /** The heap agrees with the abstract tree. */
  ghost predicate Linked(t: Tree, par: Node?)
    reads Nodes(t)
  {
    forall m <- Nodes(t) :: m.Content() == CellOf(t, m, par)
  }

  lemma LinkedParts(t: Tree, par: Node?)
    requires t.Fork? && Distinct(t) && Linked(t, par)
    ensures t.node.Content() == Cell(par, t.index, Root(t.left), Root(t.right))
    ensures Linked(t.left, t.node) && Linked(t.right, t.node)
  {
    forall m | m in Nodes(t.left) ensures m.Content() == CellOf(t.left, m, t.node) {
      assert m in Nodes(t);
    }
    forall m | m in Nodes(t.right) ensures m.Content() == CellOf(t.right, m, t.node) {
      assert m in Nodes(t);
    }
    assert t.node in Nodes(t);
  }

  lemma LinkedJoin(t: Tree, par: Node?)
    requires t.Fork? && Distinct(t)
    requires t.node.Content() == Cell(par, t.index, Root(t.left), Root(t.right))
    requires Linked(t.left, t.node) && Linked(t.right, t.node)
    ensures Linked(t, par)
  {
  }

  /** The weak kd order: on a node's own dimension, left <= key <= right. */
  ghost predicate Ordered(t: Tree, d: nat) {
    t.Fork? ==>
      && Dim(t.node.key, d) && t.index < 2 * d
      && (forall m <- Nodes(t.left) :: Dim(m.key, d) && Get(m.key, d, t.index) <= Get(t.node.key, d, t.index))
      && (forall m <- Nodes(t.right) :: Dim(m.key, d) && Get(t.node.key, d, t.index) <= Get(m.key, d, t.index))
      && Ordered(t.left, d) && Ordered(t.right, d)
  }

  lemma {:induction false} OrderedDims(t: Tree, d: nat)
    requires Ordered(t, d)
    ensures forall m <- Nodes(t) :: Dim(m.key, d)
  {
  }

  /** Insertion on abstract trees: go left of every node whose key compares greater on its dimension. */
  ghost function Insert(t: Tree, n: Node, i: nat, d: nat): Tree {
    if t.Nil? then Fork(n, i, Nil, Nil)
    else if !Dim(t.node.key, d) || !Dim(n.key, d) || t.index >= 2 * d then t
    else if Get(n.key, d, t.index) < Get(t.node.key, d, t.index) then t.(left := Insert(t.left, n, i, d))
    else t.(right := Insert(t.right, n, i, d))
  }

  lemma InsertStep(t: Tree, n: Node, i: nat, d: nat)
    requires t.Fork? && Ordered(t, d) && Dim(n.key, d)
    ensures Insert(Nil, n, i, d) == Fork(n, i, Nil, Nil)
    ensures Insert(t, n, i, d) == if Compare(t.node.key, n.key, d, t.index) then t.(left := Insert(t.left, n, i, d))
                                  else t.(right := Insert(t.right, n, i, d))
  {
  }

  /** One side of `t` has received node `n`, on the side the comparison chose. */
  lemma Grafted(t: Tree, goLeft: bool, u: Tree, n: Node, d: nat)
    requires t.Fork? && Distinct(t) && Ordered(t, d) && n !in Nodes(t) && Dim(n.key, d)
    requires Distinct(u) && Ordered(u, d) && Nodes(u) == Nodes(if goLeft then t.left else t.right) + {n}
    requires goLeft == Compare(t.node.key, n.key, d, t.index)
    ensures var t' := if goLeft then t.(left := u) else t.(right := u);
      Distinct(t') && Ordered(t', d) && Nodes(t') == Nodes(t) + {n}
  {
  }

  // ---- replacing a subtree -------------------------------------------------------------

  ghost function Sub(t: Tree, n: Node): (s: Tree)
    requires n in Nodes(t)
    ensures s.Fork? && s.node == n
  {
    if n == t.node then t else if n in Nodes(t.left) then Sub(t.left, n) else Sub(t.right, n)
  }

  ghost function Replace(t: Tree, n: Node, s: Tree): Tree
    requires n in Nodes(t)
  {
    if n == t.node then s
    else if n in Nodes(t.left) then t.(left := Replace(t.left, n, s))
    else t.(right := Replace(t.right, n, s))
  }

  lemma {:induction false} SubFacts(t: Tree, n: Node, par: Node?, d: nat)
    requires Distinct(t) && n in Nodes(t)
    ensures Sub(t, n).Fork? && Sub(t, n).node == n && Distinct(Sub(t, n)) && Nodes(Sub(t, n)) <= Nodes(t)
    ensures CellOf(t, n, par).index == Sub(t, n).index
    ensures CellOf(t, n, par).left == Root(Sub(t, n).left) && CellOf(t, n, par).right == Root(Sub(t, n).right)
    ensures CellOf(t, n, par).parent == null || CellOf(t, n, par).parent in Nodes(t) - Nodes(Sub(t, n)) || n == t.node
    ensures n == t.node ==> CellOf(t, n, par).parent == par
    ensures n != t.node ==> CellOf(t, n, par).parent != null
    ensures Ordered(t, d) ==> Ordered(Sub(t, n), d)
    ensures forall m <- Nodes(Sub(t, n)) :: CellOf(t, m, par) == CellOf(Sub(t, n), m, CellOf(t, n, par).parent)
  {
    if n != t.node {
      if n in Nodes(t.left) { SubFacts(t.left, n, t.node, d); } else { SubFacts(t.right, n, t.node, d); }
    }
  }

  lemma {:induction false} ReplaceNodes(t: Tree, n: Node, s: Tree)
    requires Distinct(t) && n in Nodes(t) && Distinct(s) && Nodes(s) !! Nodes(t) - Nodes(Sub(t, n))
    ensures Distinct(Replace(t, n, s))
    ensures Nodes(Replace(t, n, s)) == Nodes(t) - Nodes(Sub(t, n)) + Nodes(s)
  {
    if n != t.node {
      var below := if n in Nodes(t.left) then t.left else t.right;
      SubFacts(below, n, null, 0);
      ReplaceNodes(below, n, s);
    }
  }

  /** Replacing a subtree by an ordered one over some of the same nodes keeps the order. */
  lemma {:induction false} ReplaceOrdered(t: Tree, n: Node, s: Tree, d: nat)
    requires Distinct(t) && n in Nodes(t) && Distinct(s) && Nodes(s) <= Nodes(Sub(t, n))
    requires Ordered(t, d) && Ordered(s, d)
    ensures Ordered(Replace(t, n, s), d)
  {
    if n != t.node {
      var below := if n in Nodes(t.left) then t.left else t.right;
      SubFacts(below, n, null, d);
      ReplaceNodes(below, n, s);
      ReplaceOrdered(below, n, s, d);
    }
  }

  /** A cell whose link to `n` now leads to `x`. */
  ghost function Relink(c: Cell, n: Node, x: Node?): Cell {
    c.(left := if c.left == n then x else c.left, right := if c.right == n then x else c.right)
  }

  /** The source's rewriting of a parent's link: the left one if it leads to `n`, else the right one. */
  ghost function RelinkOne(c: Cell, n: Node, x: Node?): Cell {
    if c.left == n then c.(left := x) else c.(right := x)
  }

  lemma RootIn(t: Tree)
    ensures Root(t) != null ==> Root(t) in Nodes(t)
  {
  }

  /** The fields after a replacement: inside `s` as in `s`, elsewhere only the link to `n` changes. */
  lemma {:induction false} ReplaceCells(t: Tree, n: Node, s: Tree, par: Node?, m: Node)
    requires Distinct(t) && n in Nodes(t) && Distinct(s) && Nodes(s) !! Nodes(t) - Nodes(Sub(t, n))
    requires m in Nodes(Replace(t, n, s))
    ensures m in Nodes(s) ==> CellOf(Replace(t, n, s), m, par) == CellOf(s, m, CellOf(t, n, par).parent)
    ensures m !in Nodes(s) ==> m in Nodes(t) && m !in Nodes(Sub(t, n))
    ensures m !in Nodes(s) ==> CellOf(Replace(t, n, s), m, par) == Relink(CellOf(t, m, par), n, Root(s))
  {
    if n != t.node {
      var below := if n in Nodes(t.left) then t.left else t.right;
      var other := if n in Nodes(t.left) then t.right else t.left;
      SubFacts(below, n, null, 0);
      ReplaceNodes(below, n, s);
      RootIn(t.left);
      RootIn(t.right);
      if m == t.node {
        ReplaceRoot(below, n, s);
      } else if m in Nodes(Replace(below, n, s)) {
        ReplaceCells(below, n, s, t.node, m);
      } else {
        NotAChild(other, m, t.node, n);
      }
    }
  }

  lemma ReplaceRoot(t: Tree, n: Node, s: Tree)
    requires n in Nodes(t)
    ensures Root(Replace(t, n, s)) == if n == t.node then Root(s) else Root(t)
  {
  }

  lemma {:induction false} NotAChild(t: Tree, m: Node, par: Node?, n: Node)
    requires m in Nodes(t) && n !in Nodes(t)
    ensures CellOf(t, m, par).left != n && CellOf(t, m, par).right != n
  {
    RootIn(t.left);
    RootIn(t.right);
    if m != t.node {
      if m in Nodes(t.left) { NotAChild(t.left, m, t.node, n); } else { NotAChild(t.right, m, t.node, n); }
    }
  }

  /** A node is a child of its parent only, and on one side only. */
  lemma {:induction false} OnlyChildOf(t: Tree, n: Node, par: Node?, m: Node)
    requires Distinct(t) && n in Nodes(t) && m in Nodes(t)
    ensures CellOf(t, m, par).left == n || CellOf(t, m, par).right == n
      <==> n != t.node && m == CellOf(t, n, par).parent
    ensures !(CellOf(t, m, par).left == n && CellOf(t, m, par).right == n)
  {
    RootIn(t.left);
    RootIn(t.right);
    if n == t.node {
      if m in Nodes(t.left) { NotAChild(t.left, m, t.node, n); }
      else if m in Nodes(t.right) { NotAChild(t.right, m, t.node, n); }
    } else {
      var below := if n in Nodes(t.left) then t.left else t.right;
      var other := if n in Nodes(t.left) then t.right else t.left;
      SubFacts(below, n, t.node, 0);
      if m in Nodes(below) {
        OnlyChildOf(below, n, t.node, m);
      } else if m in Nodes(other) {
        NotAChild(other, m, t.node, n);
      }
    }
  }

  /** Hanging a tree below another parent changes only its root's parent link. */
  lemma Rehang(t: Tree, m: Node, a: Node?, b: Node?)
    requires m in Nodes(t)
    ensures CellOf(t, m, b) == if m == t.node then CellOf(t, m, a).(parent := b) else CellOf(t, m, a)
  {
  }

  /** A node's parent is in the tree and links to it. */
  lemma ParentLink(t: Tree, n: Node)
    requires Distinct(t) && n in Nodes(t) && CellOf(t, n, null).parent != null
    ensures var q := CellOf(t, n, null).parent;
      && q in Nodes(t) && q !in Nodes(Sub(t, n)) && n != t.node
      && (CellOf(t, q, null).left == n || CellOf(t, q, null).right == n)
      && !(CellOf(t, q, null).left == n && CellOf(t, q, null).right == n)
  {
    SubFacts(t, n, null, 0);
    OnlyChildOf(t, n, null, CellOf(t, n, null).parent);
  }

  /** Redirecting the one link to `n`. */
  lemma RelinkedOnce(t: Tree, n: Node, x: Node?)
    requires Distinct(t) && n in Nodes(t)
    ensures forall m <- Nodes(t) :: m != CellOf(t, n, null).parent || n == t.node ==>
              Relink(CellOf(t, m, null), n, x) == CellOf(t, m, null)
  {
    forall m | m in Nodes(t) && (m != CellOf(t, n, null).parent || n == t.node)
      ensures Relink(CellOf(t, m, null), n, x) == CellOf(t, m, null)
    {
      OnlyChildOf(t, n, null, m);
    }
  }

  lemma RootsApart(t: Tree, n: Node)
    requires Distinct(t) && n in Nodes(t)
    ensures var l, r := Root(Sub(t, n).left), Root(Sub(t, n).right);
      && (l != null ==> l in Nodes(t) && l != n && l != r && l != CellOf(t, n, null).parent)
      && (r != null ==> r in Nodes(t) && r != n && r != CellOf(t, n, null).parent)
  {
    SubFacts(t, n, null, 0);
    RootIn(Sub(t, n).left);
    RootIn(Sub(t, n).right);
  }

  lemma SmallerSub(t: Tree, n: Node, p: Node)
    requires Distinct(t) && n in Nodes(t) && p in Nodes(Sub(t, n)) && p != n
    ensures p in Nodes(t) && |Nodes(Sub(t, p))| < |Nodes(Sub(t, n))|
  {
    SubFacts(t, n, null, 0);
    SubFacts(Sub(t, n), p, null, 0);
    ReplaceInside(t, n, p, Nil, Nil);
    SubOfChild(Sub(t, n), p);
    SubsetSize(Nodes(Sub(t, p)), Nodes(Sub(t, n)) - {n});
  }

  lemma SubOfChild(t: Tree, p: Node)
    requires Distinct(t) && p in Nodes(t) && p != t.node
    ensures Nodes(Sub(t, p)) <= Nodes(t) - {t.node}
  {
    if p in Nodes(t.left) { SubFacts(t.left, p, null, 0); } else { SubFacts(t.right, p, null, 0); }
  }

  /** `n` has been taken out of `t`, its only child tree `s` put in its place. */
  lemma SplicedOut(t: Tree, n: Node, s: Tree)
    requires Distinct(t) && n in Nodes(t) && (s == Sub(t, n).left || s == Sub(t, n).right)
    requires forall m <- Nodes(t) :: m != n ==>
      m.Content() == var c := Relink(CellOf(t, m, null), n, Root(s));
                     if m == Root(s) then c.(parent := CellOf(t, n, null).parent) else c
    ensures Linked(Replace(t, n, s), null)
  {
    SubFacts(t, n, null, 0);
    ReplaceNodes(t, n, s);
    forall m | m in Nodes(Replace(t, n, s)) ensures m.Content() == CellOf(Replace(t, n, s), m, null) {
      ReplaceCells(t, n, s, null, m);
      if m in Nodes(s) {
        Rehang(s, m, n, CellOf(t, n, null).parent);
        NotAChild(s, m, n, n);
      } else {
        RootIn(s);
      }
    }
  }

  lemma SubInside(t: Tree, n: Node, p: Node)
    requires Distinct(t) && n in Nodes(t) && p in Nodes(Sub(t, n)) && p != n
    ensures p in Nodes(t) && Sub(t, p) == Sub(Sub(t, n), p) 
  {
    ReplaceInside(t, n, p, Nil, Nil);
  }

  /** Replacing twice: below a replaced node, and at the same node. */
  lemma {:induction false} ReplaceInside(t: Tree, n: Node, p: Node, s: Tree, u: Tree)
    requires Distinct(t) && n in Nodes(t) && p in Nodes(Sub(t, n)) && p != n && Distinct(s)
      && Nodes(s) <= Nodes(Sub(Sub(t, n), p))
    ensures p in Nodes(t) && Sub(t, p) == Sub(Sub(t, n), p)
    ensures Replace(t, p, s) == Replace(t, n, Replace(Sub(t, n), p, s)) && Root(Replace(t, p, s)) == t.node
    ensures n in Nodes(Replace(t, p, s)) && Sub(Replace(t, p, s), n) == Replace(Sub(t, n), p, s)
    ensures Replace(Replace(t, p, s), n, u) == Replace(t, n, u)
  {
    SubFacts(t, n, null, 0);
    SubFacts(Sub(t, n), p, null, 0);
    if n != t.node {
      var below := if n in Nodes(t.left) then t.left else t.right;
      SubFacts(below, n, null, 0);
      assert p in Nodes(below);
      ReplaceInside(below, n, p, s, u);
      ReplaceNodes(below, p, s);
    }
  }
}
