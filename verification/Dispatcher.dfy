/**
 The task-graph dispatcher (`iris_dispatcher_t`): routines with a lock count, at most four
 successor slots each, and "junction" routines that take over when the slots are full.

 Every action below is one atomic step of some thread.  A run is any interleaving of client
 calls (allocate, order, defer, dispatch) with the steps of the threads executing routines.
 */
module Dispatcher {
  import opened Collections

  type Id = int

  /** Where a routine is in `dispatch`/`execute`. */
  datatype Phase =
    | Waiting          // lock count not yet zero, body not started
    | Queued           // handed to the worker or the warp
    | Running          // inside the body
    | Checking         // about to load lock_count after the body (or instead of one)
    | Parked           // deferred by its own body
    | Closing          // lock_count was seen zero, about to store ~0
    | Releasing(i: nat) // dispatching next_tasks[i..]
    | Clash            // a second thread entered `execute` on a routine still being executed

  datatype Routine = Routine(hasBody: bool, lock: nat, phase: Phase, next: seq<Option<Id>>)

  datatype Event = Start(r: Id) | Complete(r: Id)

  type Graph = map<Id, Routine>

  datatype State = State(
    live: Graph,              // allocated and not yet destroyed
    pending: nat,             // pending_count
    retiring: nat,            // threads between deallocate and pending_count.fetch_sub
    handles: multiset<Id>,    // routine_handle_t values held by clients
    nextId: Id,                // every id below this one has been allocated
    users: set<Id>,           // routines allocated by clients, as opposed to junctions
    ordered: set<(Id, Id)>,   // every order() request so far
    log: seq<Event>)          // body starts and completions of client routines, in time order

  datatype Action =
    | Allocate
    | Order(from: Id, to: Id)
    | Defer(r: Id)
    | Dispatch(r: Id)
    | Begin(r: Id)
    | Return(r: Id)
    | Check(r: Id)
    | Close(r: Id)
    | Release(r: Id)
    | Destroy(r: Id)
    | Retire

  const SLOTS := 4
  const CLOSED_LOCK := 0xFFFF_FFFF_FFFF_FFFF

  const EMPTY_SLOTS: seq<Option<Id>> := [None, None, None, None]

  function Initial(): State {
    State(map[], 0, 0, multiset{}, 0, {}, {}, [])
  }

  // ---- the successor graph -------------------------------------------------------------

  ghost predicate WellFormed(g: Graph) {
    && (forall u <- g :: |g[u].next| == SLOTS)
    && (forall u, v :: Edge(g, u, v) ==> v in g)
  }

  ghost predicate Edge(g: Graph, u: Id, v: Id) {
    u in g && Some(v) in g[u].next
  }

  /** `v` is in the first successor slot of `u`. */
  ghost predicate FirstLink(g: Graph, u: Id, v: Id) {
    u in g && |g[u].next| > 0 && g[u].next[0] == Some(v)
  }

  ghost predicate IsPath(g: Graph, p: seq<Id>) {
    forall i, j :: 0 <= i < j < |p| && j == i + 1 ==> Edge(g, p[i], p[j])
  }

  ghost predicate PathFromTo(g: Graph, p: seq<Id>, a: Id, b: Id) {
    |p| >= 1 && p[0] == a && p[|p| - 1] == b && IsPath(g, p)
  }

  /** `b` can be reached from `a` by zero or more successor links. */
  ghost predicate Reach(g: Graph, a: Id, b: Id) {
    exists p :: PathFromTo(g, p, a, b)
  }

  /** `b` can be reached from `a` by one or more successor links. */
  ghost predicate Before(g: Graph, a: Id, b: Id) {
    exists m :: Edge(g, a, m) && Reach(g, m, b)
  }

  ghost predicate Acyclic(g: Graph) {
    forall x :: !Before(g, x, x)
  }

  /** The successor slots that point at `v`. */
  ghost function InSlots(g: Graph, v: Id): set<(Id, int)> {
    set u, i | u in g && 0 <= i < |g[u].next| && g[u].next[i] == Some(v) :: (u, i)
  }

  ghost function InCount(g: Graph, v: Id): nat {
    |InSlots(g, v)|
  }

  // ---- order_internal ------------------------------------------------------------------

  predicate HasFreeSlot(r: Routine) {
    None in r.next
  }

  function FirstFree(next: seq<Option<Id>>): (i: nat)
    requires None in next
    ensures i < |next| && next[i] == None && None !in next[..i]
  {
    if next[0] == None then 0 else 1 + FirstFree(next[1..])
  }

  function SetSlot(g: Graph, u: Id, i: nat, x: Option<Id>): Graph
    requires u in g && i < |g[u].next|
  {
    g[u := g[u].(next := g[u].next[i := x])]
  }

  function AddLock(g: Graph, u: Id): Graph
    requires u in g
  {
    g[u := g[u].(lock := g[u].lock + 1)]
  }

  /** What `order_internal`'s recursion relies on: slots are well formed and a bodiless routine
      in slot 0 is a junction, allocated after the routine that points to it. */
  ghost predicate JunctionsAhead(s: State) {
    && WellFormed(s.live)
    && (forall u <- s.live :: u < s.nextId)
    && (forall u, v :: FirstLink(s.live, u, v) && v in s.live && !s.live[v].hasBody ==> u < v)
  }

  /** `order_internal(from, to)`: the new successor graph, pending count and id counter. */
  function OrderInternal(s: State, from: Id, to: Id): State
    requires JunctionsAhead(s) && from in s.live && to in s.live
    decreases s.nextId - from
  {
    var r := s.live[from];
    if HasFreeSlot(r) then
      s.(live := SetSlot(AddLock(s.live, to), from, FirstFree(r.next), Some(to)))
    else
      assert r.next[0] in r.next;
      var first := r.next[0].value;
      assert FirstLink(s.live, from, first) && Edge(s.live, from, first);
      if !s.live[first].hasBody then
        OrderInternal(s, first, to)
      else
        var p := s.nextId;
        var junction := Routine(false, 1, Waiting, [Some(first), Some(to), None, None]);
        s.(live := SetSlot(AddLock(s.live, to), from, 0, Some(p))[p := junction],
           pending := s.pending + 1,
           nextId := s.nextId + 1)
  }

  // ---- steps ---------------------------------------------------------------------------

  function SetPhase(s: State, r: Id, ph: Phase): State
    requires r in s.live
  {
    s.(live := s.live[r := s.live[r].(phase := ph)])
  }

  function LogIf(s: State, e: Event): seq<Event> {
    if e.r in s.users then s.log + [e] else s.log
  }

  /** The lock_count decrement of `dispatch`, and what its caller does when it reaches zero. */
  function Unlock(r: Routine): Routine
    requires r.lock > 0
  {
    if r.lock > 1 then r.(lock := r.lock - 1)
    else if r.phase.Waiting? && r.hasBody then r.(lock := 0, phase := Queued)
    else if r.phase.Waiting? || r.phase.Parked? then r.(lock := 0, phase := Checking)
    else r.(lock := 0, phase := Clash)
  }

  /** Client calls act through handles the client holds; a body may also defer itself. */
  ghost predicate Enabled(s: State, a: Action) {
    match a
    case Allocate => true
    case Order(from, to) => from in s.handles && to in s.handles && from in s.live && to in s.live && JunctionsAhead(s)
    case Defer(r) => r in s.live && (r in s.handles || s.live[r].phase.Running?)
    case Dispatch(r) => r in s.live && r in s.handles && s.live[r].lock > 0
    case Begin(r) => r in s.live && s.live[r].phase.Queued?
    case Return(r) => r in s.live && s.live[r].phase.Running?
    case Check(r) => r in s.live && s.live[r].phase.Checking?
    case Close(r) => r in s.live && s.live[r].phase.Closing?
    case Release(r) =>
      && r in s.live && s.live[r].phase.Releasing? && s.live[r].phase.i < SLOTS && |s.live[r].next| == SLOTS
      && (s.live[r].next[s.live[r].phase.i].Some? ==>
            var p := s.live[r].next[s.live[r].phase.i].value;
            p != r && p in s.live && s.live[p].lock > 0)
    case Destroy(r) => r in s.live && s.live[r].phase == Releasing(SLOTS) && s.pending > 0
    case Retire => s.retiring > 0 && s.pending > 0
  }

  ghost function Step(s: State, a: Action): State
    requires Enabled(s, a)
  {
    match a
    case Allocate =>
      s.(live := s.live[s.nextId := Routine(true, 1, Waiting, EMPTY_SLOTS)],
         pending := s.pending + 1,
         handles := s.handles + multiset{s.nextId},
         nextId := s.nextId + 1,
         users := s.users + {s.nextId})
    case Order(from, to) =>
      OrderInternal(s, from, to).(ordered := s.ordered + {(from, to)})
    case Defer(r) =>
      s.(live := AddLock(s.live, r), handles := s.handles + multiset{r})
    case Dispatch(r) =>
      s.(live := s.live[r := Unlock(s.live[r])], handles := s.handles - multiset{r})
    case Begin(r) =>
      s.(live := s.live[r := s.live[r].(phase := Running, hasBody := false)], log := LogIf(s, Start(r)))
    case Return(r) => SetPhase(s, r, Checking)
    case Check(r) => SetPhase(s, r, if s.live[r].lock != 0 then Parked else Closing)
    case Close(r) =>
      s.(live := s.live[r := s.live[r].(phase := Releasing(0), lock := CLOSED_LOCK)], log := LogIf(s, Complete(r)))
    case Release(r) =>
      var i := s.live[r].phase.i;
      var me := s.live[r].(next := s.live[r].next[i := None], phase := Releasing(i + 1));
      if s.live[r].next[i] == None then s.(live := s.live[r := me])
      else
        var p := s.live[r].next[i].value;
        s.(live := s.live[r := me][p := Unlock(s.live[p])])
    case Destroy(r) =>
      s.(live := s.live - {r}, retiring := s.retiring + 1)
    case Retire =>
      s.(retiring := s.retiring - 1, pending := s.pending - 1)
  }

  /** `order` never closes a cycle (what `validate` checks) and its target has not started. */
  ghost predicate OrderRule(s: State, a: Action) {
    a.Order? ==>
      && a.from in s.live && a.to in s.live
      && s.live[a.to].phase.Waiting? && !Reach(s.live, a.to, a.from)
  }

  /** The last lock of a routine is not released between the start of its body and the lock_count
      check that follows; other locks may be. */
  ghost predicate DispatchRule(s: State, a: Action) {
    a.Dispatch? ==>
      a.r in s.live && (s.live[a.r].phase.Waiting? || s.live[a.r].phase.Parked? || s.live[a.r].lock > 1)
  }

  /** The rules a client keeps. */
  ghost predicate Disciplined(s: State, a: Action) {
    OrderRule(s, a) && DispatchRule(s, a)
  }

  ghost predicate Next(s: State, a: Action, s': State) {
    Enabled(s, a) && Step(s, a) == s'
  }

  /** `states` is a run from the empty dispatcher, one action between neighbours. */
  ghost predicate Run(states: seq<State>, acts: seq<Action>) {
    && |states| == |acts| + 1 && states[0] == Initial()
    && forall i {:trigger acts[i]} :: 0 <= i < |acts| ==> Next(states[i], acts[i], states[i + 1])
  }

  /** A run in which every client call keeps the rules. */
  ghost predicate DisciplinedRun(states: seq<State>, acts: seq<Action>) {
    Run(states, acts) && forall i {:trigger acts[i]} :: 0 <= i < |acts| ==> Disciplined(states[i], acts[i])
  }

  /** `s` occurs in some run that keeps the rules. */
  ghost predicate Reachable(s: State) {
    exists states, acts :: DisciplinedRun(states, acts) && s in states
  }
}
