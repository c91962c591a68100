/**
 The culling query of the kd-tree: the target box is narrowed in place on the way down one side and
 restored on the way up, and a culler decides from it whether a subtree can hold anything of interest.
 */
module KdTreeCull {
  import opened Collections
  import opened KdTree

  function Put(b: Box, d: nat, i: nat, v: real): Box
    requires Dim(b, d) && i < 2 * d
  {
    if i < d then b.(lo := b.lo[i := v]) else b.(hi := b.hi[i - d := v])
  }

  /** `split_push`: the box afterwards; what it returns is the old value on dimension `i`. */
  function SplitPush(rightSkew: bool, value: Box, reference: Box, d: nat, i: nat): Box
    requires Dim(value, d) && Dim(reference, d) && i < 2 * d
  {
    if (i < d) != rightSkew then Put(value, d, i, Get(reference, d, i)) else value
  }

  /** Box `a` lies inside box `b`. */
  ghost predicate Within(a: Box, b: Box, d: nat)
    requires Dim(a, d) && Dim(b, d)
  {
    forall i :: 0 <= i < d ==> b.lo[i] <= a.lo[i] && a.hi[i] <= b.hi[i]
  }

  /** A culler that accepts a box accepts every box around it. */
  ghost predicate Monotone(culler: Box -> bool, d: nat) {
    forall a, b :: Dim(a, d) && Dim(b, d) && Within(a, b, d) && culler(a) ==> culler(b)
  }

  ghost function Aside(t: Tree, rightSkew: bool): Tree
    requires t.Fork?
  {
    if rightSkew then t.left else t.right
  }

  ghost function Along(t: Tree, rightSkew: bool): Tree
    requires t.Fork?
  {
    if rightSkew then t.right else t.left
  }

  ghost function Own(n: Node, culler: Box -> bool): seq<Node> {
    if culler(n.key) then [n] else []
  }

  /** The nodes offered to a queryer that never stops, in order. */
  ghost function Culled(t: Tree, rightSkew: bool, target: Box, culler: Box -> bool, d: nat): seq<Node>
    requires Ordered(t, d) && Dim(target, d)
  {
    if t.Nil? || !culler(target) then []
    else
      Own(t.node, culler)
      + (Culled(Aside(t, rightSkew), rightSkew, SplitPush(rightSkew, target, t.node.key, d, t.index), culler, d)
         + Culled(Along(t, rightSkew), rightSkew, target, culler, d))
  }

  /** `split_pop` undoes `split_push`. */
  lemma PopUndoesPush(rightSkew: bool, target: Box, reference: Box, d: nat, i: nat)
    requires Dim(target, d) && Dim(reference, d) && i < 2 * d
    ensures var narrowed := SplitPush(rightSkew, target, reference, d, i);
      Dim(narrowed, d) && Put(narrowed, d, i, Get(target, d, i)) == target
  {
    if i < d {
      assert target.lo[i := Get(reference, d, i)][i := target.lo[i]] == target.lo;
      assert target.lo[i := target.lo[i]] == target.lo;
    } else {
      assert target.hi[i - d := Get(reference, d, i)][i - d := target.hi[i - d]] == target.hi;
      assert target.hi[i - d := target.hi[i - d]] == target.hi;
    }
  }

  /** What lay inside the target and is on the narrowed side lies inside the narrowed target. */
  lemma NarrowedKeeps(t: Tree, rightSkew: bool, target: Box, d: nat, m: Node)
    requires t.Fork? && Ordered(t, d) && Dim(target, d) && m in Nodes(Aside(t, rightSkew)) && Dim(m.key, d)
    requires Within(m.key, target, d)
    ensures var narrowed := SplitPush(rightSkew, target, t.node.key, d, t.index);
      Dim(narrowed, d) && Within(m.key, narrowed, d)
  {
  }

  lemma Parts(t: Tree, rightSkew: bool, d: nat)
    requires t.Fork? && Distinct(t) && Ordered(t, d)
    ensures var aside, along := Aside(t, rightSkew), Along(t, rightSkew);
      && Distinct(aside) && Distinct(along) && Ordered(aside, d) && Ordered(along, d)
      && Nodes(t) == {t.node} + Nodes(aside) + Nodes(along)
      && t.node !in Nodes(aside) && t.node !in Nodes(along) && Nodes(aside) !! Nodes(along)
      && Dim(t.node.key, d) && t.index < 2 * d
  {
  }

  /** Joining sequences over disjoint sets repeats nothing. */
  lemma JoinApart(a: seq<Node>, b: seq<Node>, x: set<Node>, y: set<Node>)
    requires NoDup(a) && NoDup(b) && Elements(a) <= x && Elements(b) <= y && x !! y
    ensures NoDup(a + b) && Elements(a + b) == Elements(a) + Elements(b) && Elements(a + b) <= x + y
  {
    assert forall i :: 0 <= i < |a| ==> a[i] in Elements(a);
    assert forall i :: 0 <= i < |b| ==> b[i] in Elements(b);
    forall v: Node ensures v in a + b <==> v in a || v in b { }
  }

  /** Whatever the culler: no node is offered twice, and only nodes that it accepts. */
  lemma {:induction false} CulledOnce(t: Tree, rightSkew: bool, target: Box, culler: Box -> bool, d: nat)
    requires Ordered(t, d) && Distinct(t) && Dim(target, d)
    ensures var s := Culled(t, rightSkew, target, culler, d);
      NoDup(s) && Elements(s) <= Nodes(t) && forall m <- s :: culler(m.key)
  {
    if t.Fork? && culler(target) {
      Parts(t, rightSkew, d);
      var aside, along := Aside(t, rightSkew), Along(t, rightSkew);
      var narrowed := SplitPush(rightSkew, target, t.node.key, d, t.index);
      PopUndoesPush(rightSkew, target, t.node.key, d, t.index);
      CulledOnce(aside, rightSkew, narrowed, culler, d);
      CulledOnce(along, rightSkew, target, culler, d);
      var own := Own(t.node, culler);
      var below := Culled(aside, rightSkew, narrowed, culler, d);
      var rest := Culled(along, rightSkew, target, culler, d);
      hide Ordered, Distinct, SplitPush, Nodes, Aside, Along, NoDup, Elements;
      OwnOnce(t.node, culler);
      JoinApart(below, rest, Nodes(aside), Nodes(along));
      JoinApart(own, below + rest, {t.node}, Nodes(aside) + Nodes(along));
      forall m: Node | m in own + (below + rest) ensures culler(m.key) { }
    }
  }

  lemma OwnOnce(n: Node, culler: Box -> bool)
    ensures NoDup(Own(n, culler)) && Elements(Own(n, culler)) <= {n} && forall m <- Own(n, culler) :: culler(m.key)
  {
  }

  /** With a monotone culler, a stored box inside the target is offered if and only if the culler
      accepts it: narrowing and culling lose nothing. */
  lemma {:induction false} CulledExactly(t: Tree, rightSkew: bool, target: Box, culler: Box -> bool, d: nat, m: Node)
    requires Ordered(t, d) && Distinct(t) && Dim(target, d) && Monotone(culler, d)
    requires m in Nodes(t) && Dim(m.key, d) && Within(m.key, target, d)
    ensures m in Culled(t, rightSkew, target, culler, d) <==> culler(m.key)
  {
    CulledOnce(t, rightSkew, target, culler, d);
    if culler(m.key) {
      assert culler(target);
      Parts(t, rightSkew, d);
      var aside, along := Aside(t, rightSkew), Along(t, rightSkew);
      if m in Nodes(aside) {
        NarrowedKeeps(t, rightSkew, target, d, m);
        CulledExactly(aside, rightSkew, SplitPush(rightSkew, target, t.node.key, d, t.index), culler, d, m);
      } else if m in Nodes(along) {
        CulledExactly(along, rightSkew, target, culler, d, m);
      }
    }
  }

  /** What a queryer that may stop was offered: all of `s`, or the beginning of it up to the first refusal. */
  ghost predicate Offered(queryer: Node -> bool, ok: bool, visited: seq<Node>, s: seq<Node>) {
    if ok then visited == s && Accepted(queryer, s)
    else
      && visited != [] && visited <= s
      && Accepted(queryer, visited[..|visited| - 1]) && !queryer(visited[|visited| - 1])
  }

  /** The queryer has accepted `visited`, and `later` is still to be offered. */
  ghost predicate Remains(queryer: Node -> bool, visited: seq<Node>, later: seq<Node>, all: seq<Node>) {
    Accepted(queryer, visited) && visited + later == all
  }

  /** The culling `query` in either skew.  `after` is the target box as the call leaves it. */
  method Cull(n: Node, rightSkew: bool, target: Box, queryer: Node -> bool, culler: Box -> bool, d: nat,
              ghost t: Tree, ghost par: Node?)
    returns (ok: bool, visited: seq<Node>, after: Box)
    requires t.Fork? && t.node == n && Distinct(t) && Linked(t, par) && Ordered(t, d) && Dim(target, d)
    ensures Offered(queryer, ok, visited, Culled(t, rightSkew, target, culler, d))
    ensures Dim(after, d) && (ok ==> after == target)
    decreases t
  {
    hide Ordered, Distinct, Linked, Nodes, CellOf, SplitPush, Put, Culled, Offered, Remains, Own;
    var p: Node? := n;
    ghost var cur, q := t, par;
    ghost var all := Culled(t, rightSkew, target, culler, d);
    visited, after := [], target;
    NoneYet(queryer, all);
    while p != null
      invariant p == Root(cur) && Distinct(cur) && Ordered(cur, d) && Linked(cur, q) && after == target
      invariant Remains(queryer, visited, Culled(cur, rightSkew, target, culler, d), all)
      invariant cur == t || cur < t
      decreases cur
    {
      LinkedParts(cur, q);
      Parts(cur, rightSkew, d);
      ghost var aside, along := Aside(cur, rightSkew), Along(cur, rightSkew);
      assert allocated(Nodes(aside)) && allocated(Nodes(along));
      if !culler(after) {
        break;
      }
      PopUndoesPush(rightSkew, target, p.key, d, p.index);
      ghost var narrowed := SplitPush(rightSkew, target, p.key, d, p.index);
      ghost var below := Culled(aside, rightSkew, narrowed, culler, d);
      ghost var rest := Culled(along, rightSkew, target, culler, d);
      CulledParts(cur, rightSkew, target, culler, d);
      OneMore(queryer, culler, visited, p, below + rest, all);
      if culler(p.key) {
        visited := visited + [p];
        if !queryer(p) {
          return false, visited, after;
        }
      }
      var save := Get(after, d, p.index);
      after := SplitPush(rightSkew, after, p.key, d, p.index);
      var branch := if rightSkew then p.left else p.right;
      if branch != null {
        var more;
        ok, more, after := Cull(branch, rightSkew, after, queryer, culler, d, aside, p);
        StepBelow(queryer, ok, visited, more, below, rest, all);
        visited := visited + more;
        if !ok {
          return;
        }
      } else {
        CulledNone(aside, rightSkew, narrowed, culler, d);
        NothingBelow(queryer, visited, rest, all);
      }
      after := Put(after, d, p.index, save);
      cur, q := along, p;
      p := if rightSkew then p.right else p.left;
    }
    CulledNone(cur, rightSkew, target, culler, d);
    AllOffered(queryer, visited, all);
    ok := true;
  }

  lemma CulledParts(t: Tree, rightSkew: bool, target: Box, culler: Box -> bool, d: nat)
    requires t.Fork? && Ordered(t, d) && Dim(target, d) && culler(target)
    ensures Dim(SplitPush(rightSkew, target, t.node.key, d, t.index), d)
    ensures Culled(t, rightSkew, target, culler, d) == Own(t.node, culler)
      + (Culled(Aside(t, rightSkew), rightSkew, SplitPush(rightSkew, target, t.node.key, d, t.index), culler, d)
         + Culled(Along(t, rightSkew), rightSkew, target, culler, d))
  {
  }

  lemma CulledNone(t: Tree, rightSkew: bool, target: Box, culler: Box -> bool, d: nat)
    requires (t.Nil? || !culler(target)) && Ordered(t, d) && Dim(target, d)
    ensures Culled(t, rightSkew, target, culler, d) == []
  {
  }

  lemma NoneYet(queryer: Node -> bool, all: seq<Node>)
    ensures Remains(queryer, [], all, all)
  {
    assert [] + all == all;
  }

  lemma OneMore(queryer: Node -> bool, culler: Box -> bool, visited: seq<Node>, p: Node, later: seq<Node>,
                all: seq<Node>)
    requires Remains(queryer, visited, Own(p, culler) + later, all)
    ensures if !culler(p.key) then Remains(queryer, visited, later, all)
            else if queryer(p) then Remains(queryer, visited + [p], later, all)
            else Offered(queryer, false, visited + [p], all)
  {
    assert [] + later == later;
    assert visited + ([p] + later) == visited + [p] + later;
    assert (visited + [p])[..|visited|] == visited;
  }

  lemma StepBelow(queryer: Node -> bool, ok: bool, visited: seq<Node>, more: seq<Node>, below: seq<Node>,
                  rest: seq<Node>, all: seq<Node>)
    requires Remains(queryer, visited, below + rest, all) && Offered(queryer, ok, more, below)
    ensures if ok then Remains(queryer, visited + more, rest, all) else Offered(queryer, false, visited + more, all)
  {
    assert visited + (below + rest) == visited + below + rest;
    if !ok { assert (visited + more)[..|visited + more| - 1] == visited + more[..|more| - 1]; }
  }

  lemma NothingBelow(queryer: Node -> bool, visited: seq<Node>, rest: seq<Node>, all: seq<Node>)
    requires Remains(queryer, visited, [] + rest, all)
    ensures Remains(queryer, visited, rest, all)
  {
    assert [] + rest == rest;
  }

  lemma AllOffered(queryer: Node -> bool, visited: seq<Node>, all: seq<Node>)
    requires Remains(queryer, visited, [], all)
    ensures Offered(queryer, true, visited, all)
  {
    assert visited + [] == visited;
  }
}
