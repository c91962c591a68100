/**
 What every run of the dispatcher keeps, and the theorems that follow.
 */
module DispatcherProofs {
  import opened Collections
  import opened Dispatcher
  import opened DispatcherGraph

  // ---- the invariant -------------------------------------------------------------------

  /** What holds of one routine, given the handles held on it and the slots pointing at it. */
  ghost predicate RoutineOk(x: Routine, held: nat, into: nat, user: bool) {
    && !x.phase.Clash?
    // conservation: the lock count is the handles still held plus the links still to be released
    && (!x.phase.Releasing? ==> x.lock == held + into)
    && (!x.phase.Waiting? ==> into == 0)
    && (x.phase.Waiting? || x.phase.Parked? ==> x.lock > 0)
    && (x.phase.Queued? || x.phase.Closing? || x.phase.Releasing? ==> held == 0)
    && (user ==> (x.hasBody <==> x.phase.Waiting? || x.phase.Queued?))
    && (!user ==>
          && !x.hasBody && held == 0
          && (x.phase.Waiting? || x.phase.Checking? || x.phase.Closing? || x.phase.Releasing?)
          && (x.phase.Waiting? ==> x.lock == 1))
    && (x.phase.Releasing? ==>
          x.phase.i <= SLOTS && forall k :: 0 <= k < x.phase.i && k < |x.next| ==> x.next[k] == None)
  }

  ghost predicate RoutineInv(s: State, r: Id)
    requires r in s.live
  {
    RoutineOk(s.live[r], s.handles[r], InCount(s.live, r), r in s.users)
  }

  ghost predicate RoutinesInv(s: State) {
    forall r <- s.live :: RoutineInv(s, r)
  }

  ghost predicate ShapeInv(s: State) {
    && JunctionsAhead(s)
    && (forall r <- s.handles :: r in s.live)
    && (forall r <- s.users :: r < s.nextId)
    && (forall r <- s.live :: 0 <= r) && 0 <= s.nextId
    && s.pending == |s.live| + s.retiring
  }

  ghost predicate Completed(s: State, r: Id) {
    r !in s.live || s.live[r].phase.Releasing?
  }

  /** The log tells, of each client routine, whether its body was taken and whether it completed. */
  ghost predicate Logged(s: State, r: Id) {
    && (Start(r) in s.log <==> (r in s.live ==> !s.live[r].hasBody))
    && (Complete(r) in s.log <==> Completed(s, r))
  }

  ghost predicate NoRepeats(log: seq<Event>) {
    forall i, j :: 0 <= i < j < |log| ==> log[i] != log[j]
  }

  /** A routine completes only after its body has started. */
  ghost predicate BegunFirst(log: seq<Event>) {
    forall j :: 0 <= j < |log| && log[j].Complete? ==> Start(log[j].r) in log[..j]
  }

  ghost predicate LogInv(s: State) {
    && NoRepeats(s.log) && BegunFirst(s.log)
    && (forall e <- s.log :: e.r in s.users)
    && (forall r <- s.users :: Logged(s, r))
  }

  /** Until it completes, a routine ordered first still leads to the one ordered after it. */
  ghost predicate OrderInv(s: State) {
    forall a, b :: (a, b) in s.ordered ==> PairInv(s, a, b)
  }

  ghost predicate PairInv(s: State, a: Id, b: Id) {
    && a in s.users && b in s.users
    && (!Completed(s, a) ==> Before(s.live, a, b))
    && PrecededInLog(s.log, a, b)
  }

  /** Wherever the body of `b` starts, `a` has completed earlier. */
  ghost predicate PrecededInLog(log: seq<Event>, a: Id, b: Id) {
    forall j :: 0 <= j < |log| && log[j] == Start(b) ==> Complete(a) in log[..j]
  }

  ghost predicate Inv(s: State) {
    ShapeInv(s) && RoutinesInv(s) && Acyclic(s.live) && LogInv(s) && OrderInv(s)
  }

  // ---- auxiliary facts -----------------------------------------------------------------

  lemma SameLinks(g: Graph, g': Graph)
    requires g.Keys == g'.Keys && forall u <- g :: g[u].next == g'[u].next
    ensures forall v :: InCount(g, v) == InCount(g', v)
    ensures forall u, v :: Edge(g, u, v) <==> Edge(g', u, v)
    ensures forall u, v :: FirstLink(g, u, v) <==> FirstLink(g', u, v)
    ensures forall a, b :: Before(g, a, b) ==> Before(g', a, b)
    ensures Acyclic(g) ==> Acyclic(g')
  {
    FewerLinks(g, g');
    FewerLinks(g', g);
    forall v ensures InCount(g, v) == InCount(g', v) { CountByNext(g, g', v); }
  }

  lemma FewerLinks(g: Graph, g': Graph)
    requires forall u, v :: Edge(g', u, v) ==> Edge(g, u, v)
    ensures forall a, b :: Before(g', a, b) ==> Before(g, a, b)
    ensures Acyclic(g) ==> Acyclic(g')
  {
    forall a, b | Before(g', a, b) ensures Before(g, a, b) {
      var m :| Edge(g', a, m) && Reach(g', m, b);
      var p :| PathFromTo(g', p, m, b);
      assert PathFromTo(g, p, m, b);
      assert Edge(g, a, m) && Reach(g, m, b);
    }
  }

  lemma NoRouteInto(g: Graph, a: Id, b: Id)
    requires InCount(g, b) == 0
    ensures !Before(g, a, b)
  {
    BeforeReach(g, a, b);
    if Before(g, a, b) {
      var m :| Edge(g, m, b);
      var i := EdgeIsSlot(g, m, b);
    }
  }

  lemma InvSoleParents(s: State)
    requires ShapeInv(s) && RoutinesInv(s)
    ensures SoleParents(s)
  {
    forall u, v, w | Edge(s.live, u, w) && Edge(s.live, v, w) && w !in s.users ensures u == v {
      var i := EdgeIsSlot(s.live, u, w);
      var j := EdgeIsSlot(s.live, v, w);
      assert RoutineInv(s, w);
      assert |InSlots(s.live, w)| == 1;
      assert |InSlots(s.live, w) - {(u, i)}| == 0;
      assert (v, j) !in InSlots(s.live, w) - {(u, i)};
    }
    forall u, w | Edge(s.live, u, w) && w in s.live && !s.live[w].hasBody ensures w !in s.users {
      var i := EdgeIsSlot(s.live, u, w);
      assert RoutineInv(s, w);
    }
  }

  /** A step that rewrites one routine without touching its successor slots. */
  ghost predicate Retouched(s: State, s': State, r: Id, x: Routine) {
    && r in s.live && x.next == s.live[r].next && s'.live == s.live[r := x]
    && s'.users == s.users && s'.nextId == s.nextId && s'.ordered == s.ordered
    && s'.pending == s.pending && s'.retiring == s.retiring
    && (forall q :: q in s.live && q != r ==> s'.handles[q] == s.handles[q])
    && (forall q :: q in s'.handles ==> q in s.live)
  }

  lemma RetouchedKeepsShape(s: State, s': State, r: Id, x: Routine)
    requires ShapeInv(s) && Retouched(s, s', r, x)
    requires x.hasBody == s.live[r].hasBody || InCount(s.live, r) == 0
    ensures ShapeInv(s')
  {
    hide Before, Acyclic;
    SameLinks(s.live, s'.live);
    SizeAfterAdd(s.live, r, x);
    forall u, v | FirstLink(s'.live, u, v) && v in s'.live && !s'.live[v].hasBody ensures u < v {
      assert FirstLink(s.live, u, v);
      assert (u, 0) in InSlots(s.live, v);
    }
  }

  lemma RetouchedKeeps(s: State, s': State, r: Id, x: Routine)
    requires ShapeInv(s) && RoutinesInv(s) && Acyclic(s.live) && Retouched(s, s', r, x)
    requires x.hasBody == s.live[r].hasBody || InCount(s.live, r) == 0
    requires RoutineInv(s', r)
    ensures ShapeInv(s') && RoutinesInv(s') && Acyclic(s'.live)
    ensures forall a, b :: Before(s.live, a, b) ==> Before(s'.live, a, b)
  {
    hide Acyclic, Before, RoutineOk, InCount, ShapeInv;
    RetouchedKeepsShape(s, s', r, x);
    SameLinks(s.live, s'.live);
    forall q | q in s'.live ensures RoutineInv(s', q) {
      assert RoutineInv(s, q);
    }
  }

  /** ... and without starting or completing it: the history part of the invariant holds too. */
  lemma UnloggedKeeps(s: State, s': State, r: Id, x: Routine)
    requires LogInv(s) && OrderInv(s) && r in s.live
    requires s'.live == s.live[r := x] && s'.users == s.users && s'.log == s.log && s'.ordered == s.ordered
    requires x.hasBody == s.live[r].hasBody && x.phase.Releasing? == s.live[r].phase.Releasing?
    requires forall a, b :: Before(s.live, a, b) ==> Before(s'.live, a, b)
    ensures LogInv(s') && OrderInv(s')
  {
    forall q | q in s'.users ensures Logged(s', q) {
      assert Logged(s, q);
    }
    forall a, b | (a, b) in s'.ordered ensures PairInv(s', a, b) {
      assert PairInv(s, a, b);
    }
  }

  lemma AppendKeepsPreceded(log: seq<Event>, e: Event, a: Id, b: Id)
    requires PrecededInLog(log, a, b) && (e == Start(b) ==> Complete(a) in log)
    ensures PrecededInLog(log + [e], a, b)
  {
    var log' := log + [e];
    forall j | 0 <= j < |log'| && log'[j] == Start(b) ensures Complete(a) in log'[..j] {
      assert log'[..j] == log[..j];
      if j == |log| { assert log[..j] == log; }
    }
  }

  lemma AppendKeepsBegun(log: seq<Event>, e: Event)
    requires BegunFirst(log) && (e.Complete? ==> Start(e.r) in log)
    ensures BegunFirst(log + [e])
  {
    var log' := log + [e];
    forall j | 0 <= j < |log'| && log'[j].Complete? ensures Start(log'[j].r) in log'[..j] {
      assert log'[..j] == log[..j];
      if j == |log| { assert log[..j] == log; }
    }
  }

  lemma StartKeepsHistory(s: State, s': State, r: Id, x: Routine)
    requires LogInv(s) && OrderInv(s) && r in s.live && r in s.users
    requires s'.live == s.live[r := x] && s'.users == s.users && s'.ordered == s.ordered
    requires s'.log == s.log + [Start(r)]
    requires s.live[r].hasBody && !x.hasBody && x.phase.Releasing? == s.live[r].phase.Releasing?
    requires forall a, b :: Before(s.live, a, b) ==> Before(s'.live, a, b)
    requires forall a :: !Before(s.live, a, r)
    ensures LogInv(s') && OrderInv(s')
  {
    assert Logged(s, r);
    AppendKeepsBegun(s.log, Start(r));
    hide BegunFirst;
    forall q | q in s'.users ensures Logged(s', q) {
      assert Logged(s, q);
    }
    forall a, b | (a, b) in s'.ordered ensures PairInv(s', a, b) {
      assert PairInv(s, a, b) && Logged(s, a);
      AppendKeepsPreceded(s.log, Start(r), a, b);
    }
  }

  lemma CompleteKeepsHistory(s: State, s': State, r: Id, x: Routine)
    requires LogInv(s) && OrderInv(s) && r in s.live
    requires s'.live == s.live[r := x] && s'.users == s.users && s'.ordered == s.ordered
    requires s'.log == LogIf(s, Complete(r))
    requires !s.live[r].phase.Releasing? && x.phase.Releasing? && !x.hasBody && !s.live[r].hasBody
    requires forall a, b :: Before(s.live, a, b) ==> Before(s'.live, a, b)
    ensures LogInv(s') && OrderInv(s')
  {
    CompleteKeepsLog(s, s', r, x);
    hide LogInv, BegunFirst, NoRepeats, Before;
    forall a, b | (a, b) in s'.ordered ensures PairInv(s', a, b) {
      assert PairInv(s, a, b);
      if r in s.users { AppendKeepsPreceded(s.log, Complete(r), a, b); }
    }
  }

  lemma CompleteKeepsLog(s: State, s': State, r: Id, x: Routine)
    requires LogInv(s) && r in s.live
    requires s'.live == s.live[r := x] && s'.users == s.users && s'.log == LogIf(s, Complete(r))
    requires !s.live[r].phase.Releasing? && x.phase.Releasing? && !x.hasBody && !s.live[r].hasBody
    ensures LogInv(s')
  {
    CompleteAppends(s, r);
    hide BegunFirst, NoRepeats;
    forall q | q in s'.users ensures Logged(s', q) {
      assert Logged(s, q);
    }
  }

  lemma CompleteAppends(s: State, r: Id)
    requires LogInv(s) && r in s.live && !s.live[r].phase.Releasing? && !s.live[r].hasBody
    ensures NoRepeats(LogIf(s, Complete(r))) && BegunFirst(LogIf(s, Complete(r)))
  {
    if r in s.users {
      assert Logged(s, r);
      AppendKeepsBegun(s.log, Complete(r));
      hide BegunFirst;
    }
  }

  /** Steps that add, remove or rewire routines without starting or completing any. */
  lemma RewiredKeepsHistory(s: State, s': State)
    requires LogInv(s) && OrderInv(s)
    requires s'.log == s.log && s'.ordered == s.ordered && s.users <= s'.users
    requires forall q <- s.users :: Completed(s', q) == Completed(s, q)
    requires forall q <- s.users :: (q in s'.live ==> !s'.live[q].hasBody) == (q in s.live ==> !s.live[q].hasBody)
    requires forall q <- s'.users - s.users :: q in s'.live && s'.live[q].hasBody && !s'.live[q].phase.Releasing?
    requires forall a, b :: (a, b) in s.ordered && !Completed(s, a) && Before(s.live, a, b) ==> Before(s'.live, a, b)
    ensures LogInv(s') && OrderInv(s')
  {
    forall q | q in s'.users ensures Logged(s', q) {
      if q in s.users { assert Logged(s, q); }
    }
    forall a, b | (a, b) in s'.ordered ensures PairInv(s', a, b) {
      assert PairInv(s, a, b);
    }
  }

  // ---- one lemma per action ------------------------------------------------------------

  lemma AllocateKeeps(s: State)
    requires Inv(s)
    ensures Inv(Step(s, Allocate))
  {
    var s' := Step(s, Allocate);
    AllocateAddsNoLinks(s.live, s.nextId, s'.live[s.nextId]);
    AllocateKeepsShape(s);
    AllocateKeepsRoutines(s);
    RewiredKeepsHistory(s, s');
  }

  lemma AllocateKeepsRoutines(s: State)
    requires ShapeInv(s) && RoutinesInv(s)
    ensures RoutinesInv(Step(s, Allocate))
  {
    var s', n := Step(s, Allocate), s.nextId;
    AllocateAddsNoLinks(s.live, n, s'.live[n]);
    forall q | q in s'.live ensures RoutineInv(s', q) {
      if q != n { assert RoutineInv(s, q); }
    }
  }

  lemma AllocateKeepsShape(s: State)
    requires ShapeInv(s)
    ensures ShapeInv(Step(s, Allocate))
  {
    var s', n := Step(s, Allocate), s.nextId;
    AllocateAddsNoLinks(s.live, n, s'.live[n]);
    SizeAfterAdd(s.live, n, s'.live[n]);
  }

  lemma SizeAfterAdd(g: Graph, n: Id, x: Routine)
    ensures |g[n := x]| == |g| + (if n in g then 0 else 1)
  {
    assert g[n := x].Keys == g.Keys + {n};
    assert |g[n := x]| == |g[n := x].Keys|;
    assert |g| == |g.Keys|;
  }

  lemma AllocateAddsNoLinks(g: Graph, n: Id, x: Routine)
    requires WellFormed(g) && n !in g && x.next == EMPTY_SLOTS
    ensures var g' := g[n := x];
      && (forall v :: InCount(g, v) == InCount(g', v)) && InCount(g', n) == 0
      && (forall u, v :: Edge(g, u, v) <==> Edge(g', u, v))
      && (forall u, v :: FirstLink(g, u, v) <==> FirstLink(g', u, v))
      && (forall a, b :: Before(g, a, b) <==> Before(g', a, b))
      && (Acyclic(g) ==> Acyclic(g'))
  {
    var g' := g[n := x];
    forall u, v ensures Edge(g, u, v) <==> Edge(g', u, v) {
      if Edge(g', u, v) {
        var i := EdgeIsSlot(g', u, v);
      }
    }
    FewerLinks(g, g');
    FewerLinks(g', g);
    forall v ensures InCount(g, v) == InCount(g', v) { assert InSlots(g, v) == InSlots(g', v); }
    assert InSlots(g', n) == {} by {
      if y :| y in InSlots(g', n) {
        SlotIsEdge(g', y.0, y.1);
      }
    }
  }

  lemma DeferKeeps(s: State, r: Id)
    requires Inv(s) && Enabled(s, Defer(r))
    ensures Inv(Step(s, Defer(r)))
  {
    hide InCount, LogInv, OrderInv, Acyclic, Before;
    var s' := Step(s, Defer(r));
    assert RoutineInv(s, r);
    SameLinks(s.live, s'.live);
    RetouchedKeeps(s, s', r, s'.live[r]);
    UnloggedKeeps(s, s', r, s'.live[r]);
  }

  lemma DispatchKeeps(s: State, r: Id)
    requires Inv(s) && Enabled(s, Dispatch(r)) && Disciplined(s, Dispatch(r))
    ensures Inv(Step(s, Dispatch(r)))
  {
    hide InCount, LogInv, OrderInv, Acyclic, Before, WellFormed, Logged;
    var s' := Step(s, Dispatch(r));
    assert RoutineInv(s, r);
    SameLinks(s.live, s'.live);
    RetouchedKeeps(s, s', r, s'.live[r]);
    UnloggedKeeps(s, s', r, s'.live[r]);
  }

  lemma ReturnKeeps(s: State, r: Id)
    requires Inv(s) && Enabled(s, Return(r))
    ensures Inv(Step(s, Return(r)))
  {
    hide InCount, LogInv, OrderInv, Acyclic, Before;
    var s' := Step(s, Return(r));
    assert RoutineInv(s, r);
    SameLinks(s.live, s'.live);
    RetouchedKeeps(s, s', r, s'.live[r]);
    UnloggedKeeps(s, s', r, s'.live[r]);
  }

  lemma CheckKeeps(s: State, r: Id)
    requires Inv(s) && Enabled(s, Check(r))
    ensures Inv(Step(s, Check(r)))
  {
    hide InCount, LogInv, OrderInv, Acyclic, Before;
    var s' := Step(s, Check(r));
    assert RoutineInv(s, r);
    SameLinks(s.live, s'.live);
    RetouchedKeeps(s, s', r, s'.live[r]);
    UnloggedKeeps(s, s', r, s'.live[r]);
  }

  lemma BeginKeeps(s: State, r: Id)
    requires Inv(s) && Enabled(s, Begin(r))
    ensures Inv(Step(s, Begin(r)))
  {
    hide InCount, LogInv, OrderInv, Acyclic, Before;
    var s' := Step(s, Begin(r));
    assert RoutineInv(s, r);
    SameLinks(s.live, s'.live);
    RetouchedKeeps(s, s', r, s'.live[r]);
    forall a ensures !Before(s.live, a, r) { NoRouteInto(s.live, a, r); }
    StartKeepsHistory(s, s', r, s'.live[r]);
  }

  lemma CloseKeeps(s: State, r: Id)
    requires Inv(s) && Enabled(s, Close(r))
    ensures Inv(Step(s, Close(r)))
  {
    hide InCount, LogInv, OrderInv, Acyclic, Before;
    var s' := Step(s, Close(r));
    assert RoutineInv(s, r);
    SameLinks(s.live, s'.live);
    RetouchedKeeps(s, s', r, s'.live[r]);
    CompleteKeepsHistory(s, s', r, s'.live[r]);
  }

  /** A routine nothing points to lies on no route that starts elsewhere. */
  lemma {:induction false} RouteAvoids(g: Graph, g': Graph, r: Id, p: seq<Id>, a: Id, b: Id)
    requires PathFromTo(g, p, a, b) && a != r && InCount(g, r) == 0
    requires forall u, v :: Edge(g, u, v) && u != r ==> Edge(g', u, v)
    ensures Reach(g', a, b)
    decreases |p|
  {
    if |p| == 1 {
      ReachSelf(g', a);
    } else {
      assert Edge(g, p[0], p[1]);
      var i := EdgeIsSlot(g, p[0], p[1]);
      RouteAvoids(g, g', r, p[1..], p[1], b);
      ReachEdge(g', a, p[1]);
      ReachJoin(g', a, p[1], b);
    }
  }

  lemma BeforeAvoids(g: Graph, g': Graph, r: Id, a: Id, b: Id)
    requires Before(g, a, b) && a != r && InCount(g, r) == 0
    requires forall u, v :: Edge(g, u, v) && u != r ==> Edge(g', u, v)
    ensures Before(g', a, b)
  {
    var m :| Edge(g, a, m) && Reach(g, m, b);
    var i := EdgeIsSlot(g, a, m);
    var p :| PathFromTo(g, p, m, b);
    RouteAvoids(g, g', r, p, m, b);
    assert Edge(g', a, m);
  }

  /** Clearing slot `i` of `r` removes that one pointer and nothing else. */
  lemma ClearedSlot(g: Graph, g': Graph, r: Id, i: nat, p: Id)
    requires WellFormed(g) && r in g && i < SLOTS && g[r].next[i] == Some(p) && g'.Keys == g.Keys
    requires g'[r].next == g[r].next[i := None] && forall u :: u in g && u != r ==> g'[u].next == g[u].next
    ensures forall v :: v != p ==> InCount(g', v) == InCount(g, v)
    ensures InCount(g', p) == InCount(g, p) - 1 && WellFormed(g')
    ensures forall u, v :: Edge(g', u, v) ==> Edge(g, u, v)
    ensures forall u, v :: FirstLink(g', u, v) ==> FirstLink(g, u, v)
    ensures forall u, v :: Edge(g, u, v) && u != r ==> Edge(g', u, v)
  {
    forall u, v | Edge(g', u, v) ensures Edge(g, u, v) {
      var k := EdgeIsSlot(g', u, v);
      SlotIsEdge(g, u, k);
    }
    forall v ensures InCount(g', v) == InCount(g, v) - (if v == p then 1 else 0) {
      SlotCount(g, r, i, None, v);
      CountByNext(SetSlot(g, r, i, None), g', v);
    }
  }

  /** Dispatching the successor `p` of `r`: `p` loses one pointer and one lock. */
  ghost predicate Released(s: State, s': State, r: Id, i: nat, p: Id) {
    && r in s.live && r != p && i < SLOTS && |s.live[r].next| == SLOTS
    && s.live[r].phase == Releasing(i) && s.live[r].next[i] == Some(p) && p in s.live && s.live[p].lock > 0
    && s' == s.(live := s.live[r := s.live[r].(next := s.live[r].next[i := None], phase := Releasing(i + 1))]
                              [p := Unlock(s.live[p])])
  }

  lemma ReleaseKeepsRoutines(s: State, s': State, r: Id, i: nat, p: Id)
    requires WellFormed(s.live) && RoutinesInv(s) && Released(s, s', r, i, p)
    ensures RoutinesInv(s')
  {
    hide InCount;
    ClearedSlot(s.live, s'.live, r, i, p);
    assert RoutineInv(s, p) && RoutineInv(s, r);
    forall q | q in s'.live && q != r && q != p ensures RoutineInv(s', q) {
      assert RoutineInv(s, q);
    }
  }

  lemma ReleaseKeepsShape(s: State, s': State, r: Id, i: nat, p: Id)
    requires ShapeInv(s) && Released(s, s', r, i, p)
    ensures ShapeInv(s')
  {
    ClearedSlot(s.live, s'.live, r, i, p);
    SizeAfterAdd(s.live, r, s'.live[r]);
    SizeAfterAdd(s.live[r := s'.live[r]], p, s'.live[p]);
  }

  lemma ReleaseKeepsHistory(s: State, s': State, r: Id, i: nat, p: Id)
    requires WellFormed(s.live) && LogInv(s) && OrderInv(s) && Released(s, s', r, i, p)
    requires InCount(s.live, r) == 0 && s.live[p].phase.Waiting?
    ensures LogInv(s') && OrderInv(s')
  {
    ClearedSlot(s.live, s'.live, r, i, p);
    forall a, b | (a, b) in s.ordered && !Completed(s, a) && Before(s.live, a, b) ensures Before(s'.live, a, b) {
      BeforeAvoids(s.live, s'.live, r, a, b);
    }
    RewiredKeepsHistory(s, s');
  }

  lemma ReleaseSomeKeeps(s: State, r: Id)
    requires Inv(s) && Enabled(s, Release(r)) && s.live[r].next[s.live[r].phase.i].Some?
    ensures Inv(Step(s, Release(r)))
  {
    hide InCount, LogInv, OrderInv, Acyclic, Before;
    var i := s.live[r].phase.i;
    var s', p := Step(s, Release(r)), s.live[r].next[i].value;
    assert RoutineInv(s, r) && RoutineInv(s, p);
    SlotCount(s.live, r, i, None, p);
    ReleaseKeepsShape(s, s', r, i, p);
    ReleaseKeepsRoutines(s, s', r, i, p);
    ReleaseKeepsHistory(s, s', r, i, p);
    ClearedSlot(s.live, s'.live, r, i, p);
    FewerLinks(s.live, s'.live);
  }

  lemma ReleaseNoneKeeps(s: State, r: Id)
    requires Inv(s) && Enabled(s, Release(r)) && s.live[r].next[s.live[r].phase.i] == None
    ensures Inv(Step(s, Release(r)))
  {
    hide InCount, LogInv, OrderInv, Acyclic, Before;
    var s' := Step(s, Release(r));
    assert s'.live[r].next == s.live[r].next;
    assert RoutineInv(s, r);
    SameLinks(s.live, s'.live);
    RetouchedKeeps(s, s', r, s'.live[r]);
    UnloggedKeeps(s, s', r, s'.live[r]);
  }

  lemma DestroyedHadNoLinks(g: Graph, r: Id)
    requires WellFormed(g) && r in g && InCount(g, r) == 0 && forall k :: 0 <= k < SLOTS ==> g[r].next[k] == None
    ensures var g' := g - {r};
      && WellFormed(g')
      && (forall v :: InCount(g', v) == InCount(g, v))
      && (forall u, v :: Edge(g, u, v) <==> Edge(g', u, v))
      && (forall u, v :: FirstLink(g, u, v) <==> FirstLink(g', u, v))
      && (forall a, b :: Before(g, a, b) ==> Before(g', a, b))
      && (Acyclic(g) ==> Acyclic(g'))
  {
    var g' := g - {r};
    forall u, v | Edge(g, u, v) ensures Edge(g', u, v) && v in g' {
      var k := EdgeIsSlot(g, u, v);
    }
    FewerLinks(g, g');
    FewerLinks(g', g);
    forall v ensures InCount(g', v) == InCount(g, v) { assert InSlots(g', v) == InSlots(g, v); }
  }

  lemma DestroyKeepsCounts(s: State, r: Id)
    requires ShapeInv(s) && RoutinesInv(s) && Acyclic(s.live) && Enabled(s, Destroy(r))
    ensures var s' := Step(s, Destroy(r)); ShapeInv(s') && RoutinesInv(s') && Acyclic(s'.live)
  {
    var s' := Step(s, Destroy(r));
    assert RoutineInv(s, r);
    assert RoutinesInv(s') && JunctionsAhead(s') && Acyclic(s'.live) by {
      DestroyedHadNoLinks(s.live, r);
      forall q | q in s'.live ensures RoutineInv(s', q) {
        assert RoutineInv(s, q);
      }
    }
    assert |s'.live| == |s.live| - 1 by {
      assert s'.live.Keys == s.live.Keys - {r};
      assert |s'.live| == |s'.live.Keys| == |s.live.Keys| - 1;
    }
  }

  lemma DestroyKeeps(s: State, r: Id)
    requires Inv(s) && Enabled(s, Destroy(r))
    ensures Inv(Step(s, Destroy(r)))
  {
    assert RoutineInv(s, r);
    DestroyKeepsCounts(s, r);
    DestroyedHadNoLinks(s.live, r);
    RewiredKeepsHistory(s, Step(s, Destroy(r)));
  }

  lemma RetireKeeps(s: State)
    requires Inv(s) && Enabled(s, Retire)
    ensures Inv(Step(s, Retire))
  {
    var s' := Step(s, Retire);
    forall q | q in s'.live ensures RoutineInv(s', q) {
      assert RoutineInv(s, q);
    }
    RewiredKeepsHistory(s, s');
  }

  // ---- order ---------------------------------------------------------------------------

  lemma FillKeepsRoutines(s: State, h: Id, to: Id)
    requires JunctionsAhead(s) && RoutinesInv(s) && h in s.live && to in s.live && h != to
    requires HasFreeSlot(s.live[h]) && !s.live[h].phase.Releasing? && s.live[to].phase.Waiting? && to in s.users
    ensures RoutinesInv(OrderInternal(s, h, to))
  {
    var s', i := OrderInternal(s, h, to), FirstFree(s.live[h].next);
    var g := SetSlot(s.live, h, i, Some(to));
    forall q | q in s'.live ensures RoutineInv(s', q) {
      assert RoutineInv(s, q);
      SlotCount(s.live, h, i, Some(to), q);
      CountByNext(g, s'.live, q);
    }
  }

  lemma FillKeepsShape(s: State, h: Id, to: Id)
    requires ShapeInv(s) && h in s.live && to in s.live && h != to && HasFreeSlot(s.live[h]) && s.live[to].hasBody
    ensures ShapeInv(OrderInternal(s, h, to))
  {
    var s', i := OrderInternal(s, h, to), FirstFree(s.live[h].next);
    forall u, v | Edge(s'.live, u, v) ensures v in s'.live {
      var k := EdgeIsSlot(s'.live, u, v);
      if !(u == h && k == i) { SlotIsEdge(s.live, u, k); }
    }
    forall u, v | FirstLink(s'.live, u, v) && v in s'.live && !s'.live[v].hasBody ensures u < v {
      assert FirstLink(s.live, u, v);
    }
    SizeAfterAdd(s.live, to, s'.live[to]);
    SizeAfterAdd(s.live[to := s'.live[to]], h, s'.live[h]);
  }

  /** How many slots point at `v` once junction `p` stands between `h` and `x`. */
  lemma JunctionCount(g: Graph, g': Graph, h: Id, to: Id, p: Id, x: Id, v: Id)
    requires WellFormed(g) && h in g && g[h].next[0] == Some(x) && p !in g && to in g && h != to && x in g
    requires g'.Keys == g.Keys + {p} && g'[h].next == g[h].next[0 := Some(p)]
    requires g'[p].next == [Some(x), Some(to), None, None]
    requires forall u :: u in g && u != h ==> g'[u].next == g[u].next
    ensures v != p ==> InCount(g', v) == InCount(g, v) + (if v == to then 1 else 0)
    ensures v == p ==> InCount(g', v) == 1
  {
    hide InCount;
    var e := Routine(false, 1, Waiting, EMPTY_SLOTS);
    AllocateAddsNoLinks(g, p, e);
    var g0 := g[p := e];
    var g1 := SetSlot(g0, h, 0, Some(p));
    var g2 := SetSlot(g1, p, 0, Some(x));
    SlotCount(g0, h, 0, Some(p), v);
    SlotCount(g1, p, 0, Some(x), v);
    SlotCount(g2, p, 1, Some(to), v);
    CountByNext(SetSlot(g2, p, 1, Some(to)), g', v);
  }

  lemma JunctionKeepsRoutines(s: State, h: Id, to: Id, x: Id)
    requires ShapeInv(s) && RoutinesInv(s) && h in s.live && to in s.live && h != to
    requires !HasFreeSlot(s.live[h]) && s.live[h].next[0] == Some(x) && x in s.live && s.live[x].hasBody
    requires !s.live[h].phase.Releasing? && s.live[to].phase.Waiting? && to in s.users
    ensures RoutinesInv(OrderInternal(s, h, to))
  {
    hide InCount;
    var s', p := OrderInternal(s, h, to), s.nextId;
    forall q | q in s'.live ensures RoutineInv(s', q) {
      JunctionCount(s.live, s'.live, h, to, p, x, q);
      if q != p { assert RoutineInv(s, q); }
    }
  }

  lemma JunctionKeepsShape(s: State, h: Id, to: Id, x: Id)
    requires ShapeInv(s) && h in s.live && to in s.live && h != to
    requires !HasFreeSlot(s.live[h]) && s.live[h].next[0] == Some(x) && x in s.live && s.live[x].hasBody
    ensures ShapeInv(OrderInternal(s, h, to))
  {
    hide InCount;
    var s', p := OrderInternal(s, h, to), s.nextId;
    forall u, v | Edge(s'.live, u, v) ensures v in s'.live {
      var k := EdgeIsSlot(s'.live, u, v);
      if u != p && !(u == h && k == 0) { SlotIsEdge(s.live, u, k); }
    }
    forall u, v | FirstLink(s'.live, u, v) && v in s'.live && !s'.live[v].hasBody ensures u < v {
      if u != p && u != h { assert FirstLink(s.live, u, v); }
    }
    SizeAfterAdd(s.live, to, s'.live[to]);
    SizeAfterAdd(s.live[to := s'.live[to]], h, s'.live[h]);
    SizeAfterAdd(s.live[to := s'.live[to]][h := s'.live[h]], p, s'.live[p]);
  }

  /** The history part: the new pair is linked, older pairs stay linked. */
  lemma OrderKeepsHistory(s: State, s': State, from: Id, to: Id, h: Id, x: Id)
    requires LogInv(s) && OrderInv(s) && Acyclic(s.live) && from in s.live && to in s.live && from != to
    requires from in s.users && to in s.users && s.live[to].hasBody
    requires Linked(s.live, s'.live, h, to, s.nextId, x) && Reach(s.live, from, h)
    requires s'.log == s.log && s'.users == s.users && s'.ordered == s.ordered + {(from, to)}
    requires forall q <- s.users :: Completed(s', q) == Completed(s, q)
    requires forall q <- s.users :: (q in s'.live ==> !s'.live[q].hasBody) == (q in s.live ==> !s.live[q].hasBody)
    ensures LogInv(s') && OrderInv(s')
  {
    forall a, b | Before(s.live, a, b) ensures Before(s'.live, a, b) {
      BeforeReach(s.live, a, b);
      LinkedKeeps(s.live, s'.live, h, to, s.nextId, x, a, b);
      BeforeReach(s'.live, a, b);
    }
    RewiredKeepsHistory(s, s'.(ordered := s.ordered));
    LinkedKeeps(s.live, s'.live, h, to, s.nextId, x, from, h);
    ReachJoin(s'.live, from, h, to);
    BeforeReach(s'.live, from, to);
    assert Logged(s, to);
    assert PairInv(s', from, to);
    forall a, b | (a, b) in s'.ordered ensures PairInv(s', a, b) {
      if (a, b) != (from, to) { assert PairInv(s'.(ordered := s.ordered), a, b); }
    }
  }

  lemma OrderInternalFrame(s: State, h: Id, to: Id)
    requires JunctionsAhead(s) && h in s.live && to in s.live && h != to
    requires HasFreeSlot(s.live[h]) || s.live[h].next[0].Some?
    requires !HasFreeSlot(s.live[h]) ==> s.live[h].next[0].value in s.live && s.live[s.live[h].next[0].value].hasBody
    ensures var s' := OrderInternal(s, h, to);
      && s'.log == s.log && s'.users == s.users && s'.ordered == s.ordered && s'.handles == s.handles
      && forall q <- s.live :: q in s'.live && s'.live[q].hasBody == s.live[q].hasBody
           && s'.live[q].phase == s.live[q].phase
    ensures var s' := OrderInternal(s, h, to); forall q <- s'.live :: q in s.live || q == s.nextId
  {
  }

  lemma OrderKeepsCounts(s: State, from: Id, to: Id, h: Id, x: Id)
    requires ShapeInv(s) && RoutinesInv(s) && from in s.handles && to in s.handles && from != to
    requires from in s.live && to in s.live && h in s.live && s.live[to].phase.Waiting?
    requires OrderInternal(s, from, to) == OrderInternal(s, h, to)
    requires HasFreeSlot(s.live[h]) || (FirstLink(s.live, h, x) && x in s.live && s.live[x].hasBody)
    requires h == from || (h !in s.users && InCount(s.live, h) > 0)
    ensures h != to && ShapeInv(OrderInternal(s, from, to)) && RoutinesInv(OrderInternal(s, from, to))
  {
    hide InCount, OrderInternal, JunctionsAhead;
    assert RoutineInv(s, from) && RoutineInv(s, to) && RoutineInv(s, h);
    if HasFreeSlot(s.live[h]) {
      FillKeepsRoutines(s, h, to);
      FillKeepsShape(s, h, to);
    } else {
      JunctionKeepsRoutines(s, h, to, x);
      JunctionKeepsShape(s, h, to, x);
    }
  }

  lemma OrderKeeps(s: State, from: Id, to: Id)
    requires Inv(s) && Enabled(s, Order(from, to)) && Disciplined(s, Order(from, to))
    ensures Inv(Step(s, Order(from, to)))
  {
    hide InCount, Acyclic, LogInv, OrderInv, Linked, OrderInternal;
    var s', m := Step(s, Order(from, to)), OrderInternal(s, from, to);
    ReachSelf(s.live, from);
    InvSoleParents(s);
    assert RoutineInv(s, from) && RoutineInv(s, to);
    var h, x := OrderLinks(s, from, to);
    OrderKeepsCounts(s, from, to, h, x);
    forall r | r in s'.live ensures RoutineInv(s', r) { assert RoutineInv(m, r); }
    OrderInternalFrame(s, h, to);
    OrderKeepsAcyclic(s, from, to);
    OrderKeepsHistory(s, s', from, to, h, x);
  }

  // ---- runs ----------------------------------------------------------------------------

  lemma StepKeeps(s: State, a: Action)
    requires Inv(s) && Enabled(s, a) && Disciplined(s, a)
    ensures Inv(Step(s, a))
  {
    hide *;
    match a
    case Allocate => AllocateKeeps(s);
    case Order(from, to) => OrderKeeps(s, from, to);
    case Defer(r) => DeferKeeps(s, r);
    case Dispatch(r) => DispatchKeeps(s, r);
    case Begin(r) => BeginKeeps(s, r);
    case Return(r) => ReturnKeeps(s, r);
    case Check(r) => CheckKeeps(s, r);
    case Close(r) => CloseKeeps(s, r);
    case Release(r) => ReleaseKeeps(s, r);
    case Destroy(r) => DestroyKeeps(s, r);
    case Retire => RetireKeeps(s);
  }

  lemma ReleaseKeeps(s: State, r: Id)
    requires Inv(s) && Enabled(s, Release(r))
    ensures Inv(Step(s, Release(r)))
  {
    hide Inv, Step;
    if s.live[r].next[s.live[r].phase.i] == None { ReleaseNoneKeeps(s, r); } else { ReleaseSomeKeeps(s, r); }
  }

  lemma InitialInv()
    ensures Inv(Initial())
  {
    forall x ensures !Before(Initial().live, x, x) {
    }
  }

  lemma {:induction false} RunInv(states: seq<State>, acts: seq<Action>, k: nat)
    requires DisciplinedRun(states, acts) && k < |states|
    ensures Inv(states[k])
  {
    hide Inv, Enabled, Step, Disciplined;
    if k == 0 {
      InitialInv();
    } else {
      RunInv(states, acts, k - 1);
      assert acts[k - 1] == acts[k - 1];
      StepKeeps(states[k - 1], acts[k - 1]);
    }
  }

  lemma ReachableInv(s: State)
    requires Reachable(s)
    ensures Inv(s)
  {
    var states, acts :| DisciplinedRun(states, acts) && s in states;
    var k :| 0 <= k < |states| && states[k] == s;
    RunInv(states, acts, k);
  }

  /** Safety over whole runs: in the history of any disciplined run, a body starts only after every
      routine ordered before it has completed, a routine completes only after its body started, and
      none starts or completes twice. */
  lemma OrderRespected(s: State)
    requires Reachable(s)
    ensures forall a, b, j :: (a, b) in s.ordered && 0 <= j < |s.log| && s.log[j] == Start(b) ==>
              exists i :: 0 <= i < j && s.log[i] == Complete(a)
    ensures forall r, j :: 0 <= j < |s.log| && s.log[j] == Complete(r) ==>
              exists i :: 0 <= i < j && s.log[i] == Start(r)
    ensures forall i, j :: 0 <= i < j < |s.log| ==> s.log[i] != s.log[j]
  {
    ReachableInv(s);
    hide Reachable, ShapeInv, RoutinesInv, Acyclic;
    forall r, j | 0 <= j < |s.log| && s.log[j] == Complete(r)
      ensures exists i :: 0 <= i < j && s.log[i] == Start(r)
    {
      assert Start(r) in s.log[..j];
      var i :| 0 <= i < j && s.log[..j][i] == Start(r);
    }
    forall a, b, j | (a, b) in s.ordered && 0 <= j < |s.log| && s.log[j] == Start(b)
      ensures exists i :: 0 <= i < j && s.log[i] == Complete(a)
    {
      assert PairInv(s, a, b);
      assert Complete(a) in s.log[..j];
      var i :| 0 <= i < j && s.log[..j][i] == Complete(a);
    }
  }

  /** Conservation: each lock count is the handles held plus the successor slots still pointing at the
      routine, pending_count is the live routines plus those just freed, and no routine is ever
      entered by two threads. */
  lemma CountsConserved(s: State)
    requires Reachable(s)
    ensures forall r <- s.live :: !s.live[r].phase.Releasing? ==> s.live[r].lock == s.handles[r] + InCount(s.live, r)
    ensures forall r <- s.live :: !s.live[r].phase.Clash?
    ensures s.pending == |s.live| + s.retiring
  {
    ReachableInv(s);
    forall r | r in s.live
      ensures !s.live[r].phase.Releasing? ==> s.live[r].lock == s.handles[r] + InCount(s.live, r)
      ensures !s.live[r].phase.Clash?
    {
      assert RoutineInv(s, r);
    }
  }

  /** The source's assertions hold wherever it evaluates them: both ends of `order` are locked and
      the links are well formed, a dispatched handle finds a positive lock count, and a released
      successor is alive, locked and not the releasing routine itself. */
  lemma AssertionsHold(s: State)
    requires Reachable(s)
    ensures forall r <- s.handles :: r in s.live && s.live[r].lock > 0 && Enabled(s, Dispatch(r))
    ensures forall from, to | from in s.handles && to in s.handles :: Enabled(s, Order(from, to))
    ensures forall r <- s.live :: s.live[r].phase.Releasing? ==>
              Enabled(s, if s.live[r].phase.i < SLOTS then Release(r) else Destroy(r))
  {
    ReachableInv(s);
    forall r | r in s.live && s.live[r].phase.Releasing?
      ensures Enabled(s, if s.live[r].phase.i < SLOTS then Release(r) else Destroy(r))
    {
      ReleasingCanStep(s, r);
    }
    forall r | r in s.handles ensures r in s.live && s.live[r].lock > 0 {
      assert RoutineInv(s, r);
    }
  }

  lemma ReleasingCanStep(s: State, r: Id)
    requires Inv(s) && r in s.live && s.live[r].phase.Releasing?
    ensures Enabled(s, if s.live[r].phase.i < SLOTS then Release(r) else Destroy(r))
  {
    var i := s.live[r].phase.i;
    assert RoutineInv(s, r);
    if i < SLOTS && s.live[r].next[i].Some? {
      var p := s.live[r].next[i].value;
      SlotIsEdge(s.live, r, i);
      SlotCount(s.live, r, i, None, p);
      assert RoutineInv(s, p);
    }
  }
}
