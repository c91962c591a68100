/**
 The dispatcher never gets stuck: once every handle has been dispatched, some executing thread can
 move as long as pending_count is positive, and those moves cannot go on for ever.
 */
module DispatcherProgress {
  import opened Collections
  import opened Dispatcher
  import opened DispatcherGraph
  import opened DispatcherProofs

  /** Steps of executing threads, as opposed to client calls. */
  predicate Internal(a: Action) {
    !a.Allocate? && !a.Order? && !a.Defer? && !a.Dispatch?
  }

  // ---- no reachable state is stuck -----------------------------------------------------

  ghost predicate Distinct(p: seq<Id>) {
    forall i, j :: 0 <= i < j < |p| ==> p[i] != p[j]
  }

  lemma {:induction false} DistinctFits(p: seq<Id>, xs: set<Id>)
    requires Distinct(p) && forall i :: 0 <= i < |p| ==> p[i] in xs
    ensures |p| <= |xs|
    decreases |p|
  {
    if p != [] {
      DistinctFits(p[1..], xs - {p[0]});
    }
  }

  ghost predicate HasPredecessor(g: Graph, v: Id) {
    exists u :: Edge(g, u, v)
  }

  ghost predicate AllHavePredecessors(g: Graph) {
    forall v {:trigger HasPredecessor(g, v)} :: v in g ==> HasPredecessor(g, v)
  }

  /** A route of `n` links, if every routine has a predecessor. */
  lemma {:induction false} LongRoute(g: Graph, n: nat, start: Id) returns (p: seq<Id>)
    requires start in g && AllHavePredecessors(g)
    ensures |p| == n + 1 && IsPath(g, p) && forall i :: 0 <= i < |p| ==> p[i] in g
  {
    if n == 0 { return [start]; }
    var q := LongRoute(g, n - 1, start);
    assert HasPredecessor(g, q[0]);
    var u :| Edge(g, u, q[0]);
    p := [u] + q;
  }

  lemma EveryoneHasPredecessor(g: Graph)
    requires AllHavePredecessors(g) && Acyclic(g)
    ensures g == map[]
  {
    if |g.Keys| > 0 {
      var start := Pick(g.Keys);
      var p := LongRoute(g, |g.Keys|, start);
      if Distinct(p) { DistinctFits(p, g.Keys); }
      var i, j :| 0 <= i < j < |p| && p[i] == p[j];
      RouteRepeats(g, p, i, j);
    }
  }

  lemma RouteRepeats(g: Graph, p: seq<Id>, i: nat, j: nat)
    requires IsPath(g, p) && i < j < |p| && p[i] == p[j]
    ensures Before(g, p[i], p[i])
  {
    var q := p[i + 1..j + 1];
    assert PathFromTo(g, q, p[i + 1], p[j]);
    assert Edge(g, p[i], p[i + 1]) && Reach(g, p[i + 1], p[i]);
  }

  ghost predicate Stalled(s: State) {
    forall r <- s.live :: s.live[r].phase.Waiting? || s.live[r].phase.Parked?
  }

  lemma StalledIsDone(s: State)
    requires Inv(s) && s.handles == multiset{} && Stalled(s)
    ensures s.live == map[]
  {
    forall v | v in s.live ensures HasPredecessor(s.live, v) {
      assert RoutineInv(s, v);
      var slot :| slot in InSlots(s.live, v);
      SlotIsEdge(s.live, slot.0, slot.1);
    }
    EveryoneHasPredecessor(s.live);
  }

  /** Progress: with every handle dispatched, a state with pending routines has an enabled step. */
  lemma NeverStuck(s: State) returns (a: Action)
    requires Reachable(s) && s.handles == multiset{} && s.pending > 0
    ensures Internal(a) && Enabled(s, a)
  {
    ReachableInv(s);
    if s.retiring > 0 { return Retire; }
    if Stalled(s) { StalledIsDone(s); }
    var r :| r in s.live && !s.live[r].phase.Waiting? && !s.live[r].phase.Parked?;
    assert RoutineInv(s, r);
    match s.live[r].phase
    case Queued => a := Begin(r);
    case Running => a := Return(r);
    case Checking => a := Check(r);
    case Closing => a := Close(r);
    case Releasing(i) =>
      ReleasingCanStep(s, r);
      a := if i < SLOTS then Release(r) else Destroy(r);
  }

  /** When pending_count is back to zero, every client routine started and completed, each once. */
  lemma DrainedRanEverything(s: State)
    requires Reachable(s) && s.pending == 0
    ensures forall r <- s.users :: Start(r) in s.log && Complete(r) in s.log
    ensures NoRepeats(s.log)
  {
    ReachableInv(s);
    assert |s.live| == 0;
    forall r | r in s.users ensures Start(r) in s.log && Complete(r) in s.log {
      assert Logged(s, r);
    }
  }

  // ---- internal steps run out ----------------------------------------------------------

  function Remaining(ph: Phase): nat {
    match ph
    case Waiting => 12
    case Queued => 11
    case Running => 10
    case Checking => 9
    case Parked => 8
    case Closing => 7
    case Releasing(i) => if i <= SLOTS then 6 - i else 0
    case Clash => 0
  }

  ghost function WorkAt(g: Graph, u: Id): nat {
    if u in g then Remaining(g[u].phase) else 0
  }

  ghost function WorkBelow(g: Graph, n: nat): nat {
    if n == 0 then 0 else WorkBelow(g, n - 1) + WorkAt(g, n - 1)
  }

  /** An upper bound on the internal steps left. */
  ghost function Work(s: State): nat {
    s.retiring + if s.nextId >= 0 then WorkBelow(s.live, s.nextId) else 0
  }

  lemma {:induction false} WorkShrinks(g: Graph, g': Graph, n: nat, r: Id, d: nat)
    requires forall u :: 0 <= u < n ==> WorkAt(g', u) + (if u == r then d else 0) <= WorkAt(g, u)
    ensures WorkBelow(g', n) + (if 0 <= r < n then d else 0) <= WorkBelow(g, n)
  {
    if n > 0 {
      WorkShrinks(g, g', n - 1, r, d);
    }
  }

  lemma {:induction false} WorkAtMost(g: Graph, n: nat, u: Id)
    requires 0 <= u < n
    ensures WorkAt(g, u) <= WorkBelow(g, n)
  {
    if u < n - 1 { WorkAtMost(g, n - 1, u); }
  }

  /** Every internal step lowers the bound, so internal steps alone cannot run for ever. */
  lemma WorkDrops(s: State, a: Action)
    requires Inv(s) && Internal(a) && Enabled(s, a)
    ensures Work(Step(s, a)) < Work(s)
  {
    var s' := Step(s, a);
    if a != Retire {
      assert RoutineInv(s, a.r);
      forall p | p in s.live && Edge(s.live, a.r, p) ensures s.live[p].phase.Waiting? {
        var k := EdgeIsSlot(s.live, a.r, p);
        assert RoutineInv(s, p);
      }
      StepsForward(s.live, s'.live, s, a);
      WorkShrinks(s.live, s'.live, s.nextId, a.r, if a.Destroy? then 2 else 1);
    }
  }

  lemma StepsForward(g: Graph, g': Graph, s: State, a: Action)
    requires Internal(a) && a != Retire && Enabled(s, a) && g == s.live && g' == Step(s, a).live
    requires RoutineInv(s, a.r)
    requires a.Release? ==> forall p <- g :: Edge(g, a.r, p) ==> g[p].phase.Waiting?
    ensures forall u :: WorkAt(g', u) + (if u == a.r then (if a.Destroy? then 2 else 1) else 0) <= WorkAt(g, u)
  {
    hide InCount;
    if a.Release? && g[a.r].next[g[a.r].phase.i].Some? { SlotIsEdge(g, a.r, g[a.r].phase.i); }
  }

  // ---- the dispatch rule is needed -----------------------------------------------------

  /** One client routine in the given phase, and the history so far. */
  ghost function Solo(body: bool, lock: nat, ph: Phase, handles: multiset<Id>, log: seq<Event>): State {
    State(map[0 := Routine(body, lock, ph, EMPTY_SLOTS)], 1, 0, handles, 1, {0}, {}, log)
  }

  /** A handle taken by `defer` and dispatched right after the body returned, but before `execute`
      has re-read lock_count, lets a second thread into the same routine. */
  lemma EarlyDispatchClashes() returns (states: seq<State>, acts: seq<Action>)
    ensures Run(states, acts) && acts == [Allocate, Dispatch(0), Begin(0), Defer(0), Return(0), Dispatch(0)]
    ensures 0 in states[6].live && states[6].live[0].phase.Clash?
  {
    EarlyDispatchSteps();
    hide Next, Initial;
    acts := [Allocate, Dispatch(0), Begin(0), Defer(0), Return(0), Dispatch(0)];
    states := [Initial(),
               Solo(true, 1, Waiting, multiset{0}, []),
               Solo(true, 0, Queued, multiset{}, []),
               Solo(false, 0, Running, multiset{}, [Start(0)]),
               Solo(false, 1, Running, multiset{0}, [Start(0)]),
               Solo(false, 1, Checking, multiset{0}, [Start(0)]),
               Solo(false, 0, Clash, multiset{}, [Start(0)])];
  }

  lemma EarlyDispatchSteps()
    ensures Next(Initial(), Allocate, Solo(true, 1, Waiting, multiset{0}, []))
    ensures Next(Solo(true, 1, Waiting, multiset{0}, []), Dispatch(0), Solo(true, 0, Queued, multiset{}, []))
    ensures Next(Solo(true, 0, Queued, multiset{}, []), Begin(0), Solo(false, 0, Running, multiset{}, [Start(0)]))
    ensures Next(Solo(false, 0, Running, multiset{}, [Start(0)]), Defer(0),
      Solo(false, 1, Running, multiset{0}, [Start(0)]))
    ensures Next(Solo(false, 1, Running, multiset{0}, [Start(0)]), Return(0),
      Solo(false, 1, Checking, multiset{0}, [Start(0)]))
    ensures Next(Solo(false, 1, Checking, multiset{0}, [Start(0)]), Dispatch(0),
      Solo(false, 0, Clash, multiset{}, [Start(0)]))
    ensures Solo(false, 0, Clash, multiset{}, [Start(0)]).live[0].phase.Clash?
  {
  }

  /** A dispatch that releases the last lock of a routine between the start of its body and the
      lock_count check that follows. */
  ghost predicate EarlyLast(s: State, a: Action) {
    a.Dispatch? && a.r in s.live && s.live[a.r].lock == 1 && (s.live[a.r].phase.Running? || s.live[a.r].phase.Checking?)
  }

  ghost predicate Clashed(s: State, r: Id) {
    r in s.live && s.live[r].phase.Clash?
  }

  ghost predicate HasClash(s: State) {
    exists r :: Clashed(s, r)
  }

  /** A run that keeps the rule for `order`, whatever it dispatches when. */
  ghost predicate OrderlyRun(states: seq<State>, acts: seq<Action>) {
    Run(states, acts) && forall i {:trigger acts[i]} :: 0 <= i < |acts| ==> OrderRule(states[i], acts[i])
  }

  ghost predicate EarlyAt(states: seq<State>, acts: seq<Action>, i: int) {
    0 <= i < |acts| && i < |states| && EarlyLast(states[i], acts[i])
  }

  ghost predicate BelowNext(s: State) {
    forall u <- s.live :: u < s.nextId
  }

  /** From an invariant state, a dispatch keeps the rule unless it is early. */
  lemma EarlyOrDisciplined(s: State, a: Action)
    requires Inv(s) && Enabled(s, a) && OrderRule(s, a) && !EarlyLast(s, a)
    ensures Disciplined(s, a)
  {
    if a.Dispatch? { assert RoutineInv(s, a.r); }
  }

  lemma {:induction false} OrderKeepsPhases(s: State, from: Id, to: Id)
    requires JunctionsAhead(s) && from in s.live && to in s.live
    ensures var s' := OrderInternal(s, from, to);
      && BelowNext(s') && forall q <- s.live :: q in s'.live && s'.live[q].phase == s.live[q].phase
    decreases s.nextId - from
  {
    var r := s.live[from];
    if !HasFreeSlot(r) {
      assert r.next[0] in r.next;
      var first := r.next[0].value;
      assert FirstLink(s.live, from, first) && Edge(s.live, from, first);
      if !s.live[first].hasBody { OrderKeepsPhases(s, first, to); }
    }
  }

  /** Once entered twice, a routine stays so. */
  lemma ClashStays(s: State, a: Action, r: Id)
    requires BelowNext(s) && Enabled(s, a) && Clashed(s, r)
    ensures Clashed(Step(s, a), r)
  {
    if a.Order? { OrderKeepsPhases(s, a.from, a.to); }
  }

  lemma StepKeepsBelowNext(s: State, a: Action)
    requires BelowNext(s) && Enabled(s, a)
    ensures BelowNext(Step(s, a))
  {
    if a.Order? { OrderKeepsPhases(s, a.from, a.to); }
  }

  lemma {:induction false} RunBelowNext(states: seq<State>, acts: seq<Action>, k: nat)
    requires Run(states, acts) && k < |states|
    ensures BelowNext(states[k])
  {
    if k > 0 {
      RunBelowNext(states, acts, k - 1);
      assert Next(states[k - 1], acts[k - 1], states[k]);
      StepKeepsBelowNext(states[k - 1], acts[k - 1]);
    }
  }

  lemma {:induction false} ClashLasts(states: seq<State>, acts: seq<Action>, i: nat, k: nat, r: Id)
    requires Run(states, acts) && i <= k < |states| && Clashed(states[i], r)
    ensures Clashed(states[k], r)
  {
    if i < k {
      ClashLasts(states, acts, i, k - 1, r);
      RunBelowNext(states, acts, k - 1);
      assert Next(states[k - 1], acts[k - 1], states[k]);
      ClashStays(states[k - 1], acts[k - 1], r);
    }
  }

  lemma {:induction false} NeverEarlyInv(states: seq<State>, acts: seq<Action>, k: nat)
    requires OrderlyRun(states, acts) && k < |states| && forall i :: 0 <= i < k ==> !EarlyAt(states, acts, i)
    ensures Inv(states[k])
  {
    if k == 0 {
      InitialInv();
    } else {
      NeverEarlyInv(states, acts, k - 1);
      assert Next(states[k - 1], acts[k - 1], states[k]) && !EarlyAt(states, acts, k - 1);
      hide Inv, Enabled, Step;
      EarlyOrDisciplined(states[k - 1], acts[k - 1]);
      StepKeeps(states[k - 1], acts[k - 1]);
    }
  }

  lemma InvHasNoClash(s: State)
    requires Inv(s)
    ensures !HasClash(s)
  {
    forall r ensures !Clashed(s, r) {
      if r in s.live { assert RoutineInv(s, r); }
    }
  }

  /** In every run that keeps the rule for `order`, two threads have entered a routine if and only if
      an earlier dispatch released its last lock while its body ran or before the check after it. */
  lemma ClashExactlyWhenEarly(states: seq<State>, acts: seq<Action>, k: nat)
    requires OrderlyRun(states, acts) && k < |states|
    ensures HasClash(states[k]) <==> exists i :: 0 <= i < k && EarlyAt(states, acts, i)
  {
    if i :| 0 <= i < k && EarlyAt(states, acts, i) {
      assert Next(states[i], acts[i], states[i + 1]);
      ClashLasts(states, acts, i + 1, k, acts[i].r);
    } else {
      NeverEarlyInv(states, acts, k);
      InvHasNoClash(states[k]);
    }
  }
}
