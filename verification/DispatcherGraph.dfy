/**
 Reachability in the dispatcher's successor graph, and the effect of `order_internal` on it.
 */
module DispatcherGraph {
  import opened Collections
  import opened Dispatcher

  lemma SlotWritten(g: Graph, u: Id, i: nat, x: Option<Id>, v: Id)
    requires u in g && i < |g[u].next|
    ensures InSlots(SetSlot(g, u, i, x), v) == InSlots(g, v) - {(u, i)} + (if x == Some(v) then {(u, i)} else {})
  {
  }

  lemma SlotCount(g: Graph, u: Id, i: nat, x: Option<Id>, v: Id)
    requires u in g && i < |g[u].next|
    ensures InCount(SetSlot(g, u, i, x), v)
         == InCount(g, v) - (if g[u].next[i] == Some(v) then 1 else 0) + (if x == Some(v) then 1 else 0)
  {
    SlotWritten(g, u, i, x, v);
    assert (u, i) in InSlots(g, v) <==> g[u].next[i] == Some(v);
  }

  lemma CountByNext(g: Graph, g': Graph, v: Id)
    requires g.Keys == g'.Keys && forall u <- g :: g[u].next == g'[u].next
    ensures InCount(g, v) == InCount(g', v)
  {
    assert InSlots(g, v) == InSlots(g', v);
  }

  lemma ReachSelf(g: Graph, a: Id)
    ensures Reach(g, a, a)
  {
    assert PathFromTo(g, [a], a, a);
  }

  lemma ReachEdge(g: Graph, a: Id, b: Id)
    requires Edge(g, a, b)
    ensures Reach(g, a, b)
  {
    assert PathFromTo(g, [a, b], a, b);
  }

  lemma ReachJoin(g: Graph, a: Id, b: Id, c: Id)
    requires Reach(g, a, b) && Reach(g, b, c)
    ensures Reach(g, a, c)
  {
    var p :| PathFromTo(g, p, a, b);
    var q :| PathFromTo(g, q, b, c);
    var r := p + q[1..];
    assert forall i :: 0 <= i < |r| - 1 ==> Edge(g, r[i], r[i + 1]) by {
      forall i | 0 <= i < |r| - 1 ensures Edge(g, r[i], r[i + 1]) {
        if i >= |p| - 1 {
          assert r[i] == q[i - |p| + 1] && r[i + 1] == q[i - |p| + 2];
        }
      }
    }
    assert PathFromTo(g, r, a, c);
  }

  lemma ReachFirst(g: Graph, a: Id, b: Id)
    requires Reach(g, a, b)
    ensures a == b || exists m :: Edge(g, a, m) && Reach(g, m, b)
  {
    var p :| PathFromTo(g, p, a, b);
    if |p| > 1 {
      assert Edge(g, p[0], p[1]);
      assert PathFromTo(g, p[1..], p[1], b);
    }
  }

  lemma ReachLast(g: Graph, a: Id, b: Id)
    requires Reach(g, a, b)
    ensures a == b || exists m :: Reach(g, a, m) && Edge(g, m, b)
  {
    var p :| PathFromTo(g, p, a, b);
    if |p| > 1 {
      var q := p[..|p| - 1];
      assert PathFromTo(g, q, a, q[|q| - 1]);
      assert Edge(g, p[|p| - 2], p[|p| - 1]);
    }
  }

  lemma BeforeReach(g: Graph, a: Id, b: Id)
    ensures Before(g, a, b) ==> Reach(g, a, b)
    ensures Reach(g, a, b) && a != b ==> Before(g, a, b)
    ensures Before(g, a, b) ==> exists m :: Edge(g, m, b)
  {
    if Before(g, a, b) {
      var m :| Edge(g, a, m) && Reach(g, m, b);
      ReachEdge(g, a, m);
      ReachJoin(g, a, m, b);
      ReachLast(g, m, b);
      assert Edge(g, a, m);
    }
    if Reach(g, a, b) && a != b {
      ReachFirst(g, a, b);
    }
  }

  /** If every link of `g` is a route of `h`, every route of `g` is one too. */
  lemma {:induction false} RoutesKept(g: Graph, h: Graph, p: seq<Id>, a: Id, b: Id)
    requires PathFromTo(g, p, a, b)
    requires forall u, v :: Edge(g, u, v) && u in p[..|p| - 1] ==> Reach(h, u, v)
    ensures Reach(h, a, b)
    decreases |p|
  {
    if |p| == 1 {
      ReachSelf(h, a);
    } else {
      assert Edge(g, p[0], p[1]);
      assert p[1..][..|p| - 2] == p[..|p| - 1][1..];
      assert p[0] in p[..|p| - 1];
      RoutesKept(g, h, p[1..], p[1], b);
      ReachJoin(h, a, p[1], b);
    }
  }

  /** The links that `order_internal` adds below holder `h`: either the link h -> to, or the
      detour h -> p -> x, p -> to through a fresh junction p in place of one link h -> x. */
  ghost predicate Linked(g: Graph, g': Graph, h: Id, to: Id, p: Id, x: Id) {
    && (forall u, v :: Edge(g', u, v) ==>
          || (Edge(g, u, v) && u != p && v != p)
          || (u == h && (v == to || v == p))
          || (u == p && (v == x || v == to)))
    && (forall u, v :: Edge(g, u, v) ==> Reach(g', u, v))
    && Reach(g', h, to)
    && p !in g && h != p && to != p
    && ((exists u, v :: Edge(g', u, v) && (u == p || v == p)) ==> Edge(g, h, x) && x != p)
  }

  lemma {:induction false} LinkedRoute(g: Graph, g': Graph, h: Id, to: Id, p: Id, x: Id, q: seq<Id>, a: Id, b: Id)
    requires Linked(g, g', h, to, p, x) && PathFromTo(g', q, a, b) && a != p && b != p
    ensures Reach(g, a, b) || (Reach(g, a, h) && Reach(g, to, b))
    decreases |q|
  {
    if |q| == 1 {
      ReachSelf(g, a);
    } else {
      assert Edge(g', q[0], q[1]);
      if q[1] != p {
        LinkedRoute(g, g', h, to, p, x, q[1..], q[1], b);
        if Edge(g, a, q[1]) {
          ReachEdge(g, a, q[1]);
          if Reach(g, q[1], b) { ReachJoin(g, a, q[1], b); } else { ReachJoin(g, a, q[1], h); }
        } else {
          ReachSelf(g, h);
        }
      } else {
        assert Edge(g', q[1], q[2]);
        LinkedRoute(g, g', h, to, p, x, q[2..], q[2], b);
        ReachSelf(g, h);
        if q[2] == x {
          ReachEdge(g, h, x);
          if Reach(g, x, b) { ReachJoin(g, h, x, b); }
        }
      }
    }
  }

  lemma LinkedReach(g: Graph, g': Graph, h: Id, to: Id, p: Id, x: Id, a: Id, b: Id)
    requires Linked(g, g', h, to, p, x) && a != p && b != p
    ensures Reach(g', a, b) <==> Reach(g, a, b) || (Reach(g, a, h) && Reach(g, to, b))
  {
    if Reach(g', a, b) {
      var q :| PathFromTo(g', q, a, b);
      LinkedRoute(g, g', h, to, p, x, q, a, b);
    }
    LinkedKeeps(g, g', h, to, p, x, a, b);
    if Reach(g, a, h) && Reach(g, to, b) {
      LinkedKeeps(g, g', h, to, p, x, a, h);
      LinkedKeeps(g, g', h, to, p, x, to, b);
      ReachJoin(g', a, h, to);
      ReachJoin(g', a, to, b);
    }
  }

  lemma LinkedKeeps(g: Graph, g': Graph, h: Id, to: Id, p: Id, x: Id, a: Id, b: Id)
    requires Linked(g, g', h, to, p, x)
    ensures Reach(g, a, b) ==> Reach(g', a, b)
  {
    if Reach(g, a, b) {
      var q :| PathFromTo(g, q, a, b);
      RoutesKept(g, g', q, a, b);
    }
  }

  lemma LinkedAcyclic(g: Graph, g': Graph, h: Id, to: Id, p: Id, x: Id)
    requires Linked(g, g', h, to, p, x) && Acyclic(g) && !Reach(g, to, h)
    ensures Acyclic(g')
  {
    forall y ensures !Before(g', y, y) {
      if Before(g', y, y) {
        var z := if y == p then h else y;
        if y == p {
          // every route into p ends with the link h -> p
          var m :| Edge(g', p, m) && Reach(g', m, p);
          ReachLast(g', m, p);
          var l :| Reach(g', m, l) && Edge(g', l, p);
          ReachEdge(g', h, p);
          ReachEdge(g', p, m);
          ReachJoin(g', p, m, h);
          assert Before(g', h, h);
        }
        LinkedNoCycle(g, g', h, to, p, x, z);
      }
    }
  }

  lemma LinkedNoCycle(g: Graph, g': Graph, h: Id, to: Id, p: Id, x: Id, y: Id)
    requires Linked(g, g', h, to, p, x) && Acyclic(g) && !Reach(g, to, h) && y != p
    ensures !Before(g', y, y)
  {
    if Before(g', y, y) {
      var m :| Edge(g', y, m) && Reach(g', m, y);
      var n: Id := m;
      if m == p {
        ReachFirst(g', p, y);
        n :| Edge(g', p, n) && Reach(g', n, y);
      }
      assert Reach(g', n, y) && n != p && (Edge(g, y, n) || (y == h && n == to));
      LinkedReach(g, g', h, to, p, x, n, y);
      assert Edge(g, y, n) && Reach(g, n, y) ==> Before(g, y, y);
      if Edge(g, y, n) {
        if !Reach(g, n, y) {
          ReachEdge(g, y, n);
          ReachJoin(g, to, y, n);
          ReachJoin(g, to, n, h);
        }
      }
    }
  }

  // ---- order_internal ------------------------------------------------------------------

  /** A junction is pointed to by one routine only, and a bodiless successor is a junction. */
  ghost predicate SoleParents(s: State) {
    && (forall u, v, w :: Edge(s.live, u, w) && Edge(s.live, v, w) && w !in s.users ==> u == v)
    && (forall u, w :: Edge(s.live, u, w) && w in s.live && !s.live[w].hasBody ==> w !in s.users)
  }

  lemma SlotIsEdge(g: Graph, u: Id, i: nat)
    requires u in g && i < |g[u].next| && g[u].next[i].Some?
    ensures Edge(g, u, g[u].next[i].value)
  {
    assert g[u].next[i] in g[u].next;
  }

  lemma EdgeIsSlot(g: Graph, u: Id, v: Id) returns (i: nat)
    requires Edge(g, u, v)
    ensures i < |g[u].next| && g[u].next[i] == Some(v) && (u, i) in InSlots(g, v)
  {
    i :| 0 <= i < |g[u].next| && g[u].next[i] == Some(v);
  }

  /** Filling a free slot adds one link and removes none. */
  lemma FillLinks(g: Graph, g': Graph, h: Id, i: nat, to: Id, p: Id)
    requires h in g && i < |g[h].next| && g[h].next[i] == None && p !in g && to in g
    requires forall u, v :: Edge(g, u, v) ==> v in g
    requires g'.Keys == g.Keys && g'[h].next == g[h].next[i := Some(to)]
    requires forall u :: u in g && u != h ==> g'[u].next == g[u].next
    ensures Linked(g, g', h, to, p, to)
  {
    forall u, v | Edge(g, u, v) ensures Reach(g', u, v) {
      var k := EdgeIsSlot(g, u, v);
      assert g'[u].next[k] == Some(v);
      ReachEdge(g', u, v);
    }
    assert g'[h].next[i] == Some(to);
    ReachEdge(g', h, to);
    forall u, v | Edge(g', u, v) ensures (Edge(g, u, v) && u != p && v != p) || (u == h && v == to) {
      var k := EdgeIsSlot(g', u, v);
      if !(u == h && k == i) {
        SlotIsEdge(g, u, k);
      }
    }
  }

  /** Inserting a junction reroutes one link and adds the requested one. */
  lemma JunctionLinks(g: Graph, g': Graph, h: Id, to: Id, p: Id, x: Id)
    requires h in g && |g[h].next| > 0 && g[h].next[0] == Some(x) && p !in g && to in g
    requires forall u, v :: Edge(g, u, v) ==> v in g
    requires g'.Keys == g.Keys + {p} && g'[h].next == g[h].next[0 := Some(p)]
    requires g'[p].next == [Some(x), Some(to), None, None]
    requires forall u :: u in g && u != h ==> g'[u].next == g[u].next
    ensures Linked(g, g', h, to, p, x)
  {
    SlotIsEdge(g', h, 0);
    SlotIsEdge(g', p, 0);
    SlotIsEdge(g', p, 1);
    SlotIsEdge(g, h, 0);
    ReachEdge(g', h, p);
    ReachEdge(g', p, x);
    ReachEdge(g', p, to);
    ReachJoin(g', h, p, x);
    ReachJoin(g', h, p, to);
    forall u, v | Edge(g, u, v) ensures Reach(g', u, v) {
      var k := EdgeIsSlot(g, u, v);
      if u != h || k != 0 {
        assert g'[u].next[k] == Some(v);
        ReachEdge(g', u, v);
      }
    }
    forall u, v | Edge(g', u, v)
      ensures (Edge(g, u, v) && u != p && v != p) || (u == h && v == p) || (u == p && (v == x || v == to))
    {
      var k := EdgeIsSlot(g', u, v);
      if u != p && !(u == h && k == 0) {
        SlotIsEdge(g, u, k);
      }
    }
  }

  /** `order_internal` changes the graph below one holder: `from`, or a junction that only
      `from` leads to. */
  lemma {:induction false} OrderLinks(s: State, from: Id, to: Id) returns (h: Id, x: Id)
    requires JunctionsAhead(s) && SoleParents(s) && from in s.live && to in s.live
    ensures h in s.live && Linked(s.live, OrderInternal(s, from, to).live, h, to, s.nextId, x)
    ensures OrderInternal(s, from, to) == OrderInternal(s, h, to)
    ensures HasFreeSlot(s.live[h]) || (FirstLink(s.live, h, x) && x in s.live && s.live[x].hasBody)
    ensures h == from || (h !in s.users && InCount(s.live, h) > 0)
    ensures Reach(s.live, from, h)
    ensures forall a :: (a in s.users || a == from) && Reach(s.live, a, h) ==> Reach(s.live, a, from)
    decreases s.nextId - from
  {
    var r := s.live[from];
    ReachSelf(s.live, from);
    if HasFreeSlot(r) {
      FillLinks(s.live, OrderInternal(s, from, to).live, from, FirstFree(r.next), to, s.nextId);
      return from, to;
    }
    assert r.next[0] in r.next;
    var first := r.next[0].value;
    assert FirstLink(s.live, from, first) && Edge(s.live, from, first);
    if s.live[first].hasBody {
      JunctionLinks(s.live, OrderInternal(s, from, to).live, from, to, s.nextId, first);
      return from, first;
    }
    SlotIsEdge(s.live, from, 0);
    assert (from, 0) in InSlots(s.live, first);
    h, x := OrderLinks(s, first, to);
    ReachEdge(s.live, from, first);
    ReachJoin(s.live, from, first, h);
    forall a | (a in s.users || a == from) && Reach(s.live, a, h) ensures Reach(s.live, a, from) {
      if a != from {
        assert Reach(s.live, a, first);
        ReachLast(s.live, a, first);
        var m :| Reach(s.live, a, m) && Edge(s.live, m, first);
        assert m == from;
      }
    }
  }

  /** `order(from, to)` makes exactly the requested precedence and its consequences hold between
      client routines, whether it fills a slot, descends through junctions or adds one. */
  lemma OrderIsExact(s: State, from: Id, to: Id, a: Id, b: Id)
    requires JunctionsAhead(s) && SoleParents(s) && from in s.live && to in s.live && from in s.users
    requires a in s.users && b < s.nextId && a < s.nextId
    ensures Reach(OrderInternal(s, from, to).live, a, b)
       <==> Reach(s.live, a, b) || (Reach(s.live, a, from) && Reach(s.live, to, b))
  {
    var h, x := OrderLinks(s, from, to);
    LinkedReach(s.live, OrderInternal(s, from, to).live, h, to, s.nextId, x, a, b);
    if Reach(s.live, a, from) {
      ReachJoin(s.live, a, from, h);
    }
  }

  lemma OrderKeepsAcyclic(s: State, from: Id, to: Id)
    requires JunctionsAhead(s) && SoleParents(s) && from in s.live && to in s.live && to in s.users
    requires Acyclic(s.live) && !Reach(s.live, to, from)
    ensures Acyclic(OrderInternal(s, from, to).live)
  {
    var h, x := OrderLinks(s, from, to);
    LinkedAcyclic(s.live, OrderInternal(s, from, to).live, h, to, s.nextId, x);
  }
}
