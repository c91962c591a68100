/**
 Exclusive and parallel routines of one warp (`iris_warp_t`): the handshake between suspend_count
 and thread_warp.  Every action is one atomic step of one thread running `queue_routine`,
 `queue_routine_parallel`, `queue_routine_parallel_post` or `execute`, or of a worker that runs a
 posted parallel routine; a run is any interleaving of such steps by any number of threads.
 */
module WarpExclusion {
  import opened Collections

  type Tid = nat
  type Pid = nat   // one call of queue_routine_parallel

  /** Who holds the preempt guard. */
  datatype Guard =
    | Queue     // queue_routine, level 0
    | Execute   // execute, first guard, level 0
    | Sweep     // execute, second guard, level ~0

  datatype Pc =
    | Idle
    | Entry                 // execute: first is_suspended()
    | Load(g: Guard)        // preempt_guard_t: load suspend_count
    | Cas(g: Guard)         // preempt: compare_exchange on thread_warp
    | Recheck(g: Guard)     // owner: load suspend_count again
    | Moving(g: Guard)      // owner: execute_parallel
    | DoubleCheck           // owner: is_suspended() before execute_internal
    | Picking               // owner: execute_internal, about to take the next task
    | Exclusive(g: Guard)   // owner: running an exclusive routine
    | Peek                  // owner: is_suspended() after a task
    | Yielding(g: Guard)    // owner: yield
    | Tail                  // execute: has_parallel_task() at the end
    | Enter(p: Pid)         // queue_routine_parallel: suspended, about to load thread_warp
    | Link(p: Pid)          // saw a running warp, about to push onto parallel_task_head
    | Parallel(p: Pid)      // running a parallel routine

  /** Where a parallel routine is. */
  datatype Place =
    | Entering
    | Listed           // on parallel_task_head
    | Taken(t: Tid)    // on the chain that t exchanged out
    | Pooled           // queued to the async worker
    | Running

  datatype State = State(
    owner: Option<Tid>,        // thread_warp
    suspend: nat,              // suspend_count
    pc: map<Tid, Pc>,
    par: map<Pid, Place>)      // parallel routines between suspend() and resume()

  datatype Action =
    | CallQueue(t: Tid)
    | CallExecute(t: Tid)
    | CallParallel(t: Tid, p: Pid)
    | CheckEntry(t: Tid)
    | LoadSuspend(t: Tid)
    | Preempt(t: Tid)
    | RecheckSuspend(t: Tid)
    | TakeList(t: Tid)
    | PostTaken(t: Tid, p: Pid)
    | MoveDone(t: Tid)
    | CheckDouble(t: Tid)
    | PickTask(t: Tid)
    | NoTask(t: Tid)
    | FinishRoutine(t: Tid)
    | PeekSuspend(t: Tid)
    | Yield(t: Tid)
    | CheckTail(t: Tid)
    | LookOwner(t: Tid, selfExecute: bool)
    | PushList(t: Tid)
    | WorkerTakes(t: Tid, p: Pid)
    | Resume(t: Tid)

  ghost predicate Initial(s: State) {
    s.owner == None && s.suspend == 0 && s.par == map[] && forall t <- s.pc :: s.pc[t] == Idle
  }

  function At(s: State, t: Tid, pc: Pc): State {
    s.(pc := s.pc[t := pc])
  }

  /** Where a thread continues when it leaves a guard without, or after, holding the warp. */
  function AfterGuard(g: Guard): Pc {
    if g.Execute? then Tail else Idle
  }

  function Enabled(s: State, a: Action): bool {
    a.t in s.pc &&
    var pc := s.pc[a.t];
    match a
    case CallQueue(t) => pc.Idle?
    case CallExecute(t) => pc.Idle?
    case CallParallel(t, p) => pc.Idle? && p !in s.par
    case CheckEntry(t) => pc.Entry?
    case LoadSuspend(t) => pc.Load?
    case Preempt(t) => pc.Cas?
    case RecheckSuspend(t) => pc.Recheck?
    case TakeList(t) => pc.Moving? && Listed in s.par.Values && Taken(t) !in s.par.Values
    case PostTaken(t, p) => pc.Moving? && p in s.par && s.par[p] == Taken(t)
    case MoveDone(t) => pc.Moving? && Listed !in s.par.Values && Taken(t) !in s.par.Values
    case CheckDouble(t) => pc.DoubleCheck?
    case PickTask(t) => pc.Picking?
    case NoTask(t) => pc.Picking?
    case FinishRoutine(t) => pc.Exclusive?
    case PeekSuspend(t) => pc.Peek?
    case Yield(t) => pc.Yielding?
    case CheckTail(t) => pc.Tail?
    case LookOwner(t, _) => pc.Enter? && pc.p in s.par
    case PushList(t) => pc.Link? && pc.p in s.par
    case WorkerTakes(t, p) => pc.Idle? && p in s.par && s.par[p] == Pooled
    case Resume(t) => pc.Parallel? && pc.p in s.par && s.suspend > 0
  }

  function Step(s: State, a: Action): State
    requires Enabled(s, a)
  {
    match a
    case CallQueue(t) => At(s, t, Load(Queue))
    case CallExecute(t) => At(s, t, Entry)
    case CallParallel(t, p) =>
      At(s, t, Enter(p)).(suspend := s.suspend + 1, par := s.par[p := Entering])
    case CheckEntry(t) => At(s, t, if s.suspend == 0 then Load(Execute) else Tail)
    case LoadSuspend(t) =>
      var g := s.pc[t].g;
      At(s, t, if g.Sweep? || s.suspend == 0 then Cas(g) else AfterGuard(g))
    case Preempt(t) =>
      var g := s.pc[t].g;
      if s.owner == None then At(s, t, Recheck(g)).(owner := Some(t)) else At(s, t, AfterGuard(g))
    case RecheckSuspend(t) =>
      var g := s.pc[t].g;
      At(s, t, if !g.Sweep? && s.suspend != 0 then Yielding(g)
               else if g.Queue? then Exclusive(g) else Moving(g))
    case TakeList(t) => s.(par := map p | p in s.par :: if s.par[p] == Listed then Taken(t) else s.par[p])
    case PostTaken(t, p) => s.(par := s.par[p := Pooled])
    case MoveDone(t) => At(s, t, if s.pc[t].g.Execute? then DoubleCheck else Yielding(s.pc[t].g))
    case CheckDouble(t) => At(s, t, if s.suspend == 0 then Picking else Yielding(Execute))
    case PickTask(t) => At(s, t, Exclusive(Execute))
    case NoTask(t) => At(s, t, Yielding(Execute))
    case FinishRoutine(t) => At(s, t, if s.pc[t].g.Queue? then Yielding(Queue) else Peek)
    case PeekSuspend(t) => At(s, t, if s.suspend == 0 then Picking else Yielding(Execute))
    case Yield(t) => At(s, t, AfterGuard(s.pc[t].g)).(owner := None)
    case CheckTail(t) => At(s, t, if Listed in s.par.Values then Load(Sweep) else Idle)
    case LookOwner(t, selfExecute) =>
      var p := s.pc[t].p;
      if s.owner != None then At(s, t, Link(p))
      else if selfExecute then At(s, t, Parallel(p)).(par := s.par[p := Running])
      else At(s, t, Idle).(par := s.par[p := Pooled])
    case PushList(t) => At(s, t, Idle).(par := s.par[s.pc[t].p := Listed])
    case WorkerTakes(t, p) => At(s, t, Parallel(p)).(par := s.par[p := Running])
    case Resume(t) => At(s, t, Idle).(suspend := s.suspend - 1, par := s.par - {s.pc[t].p})
  }

  // ---- runs ----------------------------------------------------------------------------

  ghost predicate Next(s: State, a: Action, s': State) {
    Enabled(s, a) && Step(s, a) == s'
  }

  ghost predicate Run(states: seq<State>, acts: seq<Action>) {
    && |states| == |acts| + 1 && Initial(states[0])
    && forall i {:trigger acts[i]} :: 0 <= i < |acts| ==> Next(states[i], acts[i], states[i + 1])
  }

  // ---- what every step keeps -----------------------------------------------------------

  /** Program points at which a thread holds the warp. */
  predicate Holds(pc: Pc) {
    pc.Recheck? || pc.Moving? || pc.DoubleCheck? || pc.Picking? || pc.Exclusive? || pc.Peek? || pc.Yielding?
  }

  /** Program points at which exclusive routines may be running or be started without another look
      at suspend_count. */
  predicate Committed(pc: Pc) {
    pc.Picking? || pc.Exclusive? || pc.Peek?
  }

  /** A parallel routine that runs or may start to run at any moment. */
  predicate Let(pl: Place) {
    pl.Pooled? || pl.Running?
  }

  ghost predicate OwnerInv(s: State) {
    forall t <- s.pc :: Holds(s.pc[t]) <==> s.owner == Some(t)
  }

  /** suspend_count counts the parallel routines between suspend() and resume(). */
  ghost predicate CountInv(s: State) {
    s.suspend == |s.par|
  }

  ghost predicate PlaceInv(s: State) {
    CallsInv(s) && TakenInv(s)
  }

  /** A thread in the middle of a parallel call finds its routine where it left it, and no two
      threads are in the same call. */
  ghost predicate CallsInv(s: State) {
    && (forall t <- s.pc :: CallPlaced(s, s.pc[t]))
    && (forall t, u :: t in s.pc && u in s.pc && t != u && CallOf(s.pc[t]) != None
         ==> CallOf(s.pc[t]) != CallOf(s.pc[u]))
  }

  ghost predicate CallPlaced(s: State, pc: Pc) {
    match pc
    case Enter(p) => p in s.par && s.par[p] == Entering
    case Link(p) => p in s.par && s.par[p] == Entering
    case Parallel(p) => p in s.par && s.par[p] == Running
    case _ => true
  }

  ghost predicate TakenInv(s: State) {
    forall p <- s.par :: s.par[p].Taken? ==> s.par[p].t in s.pc && s.pc[s.par[p].t].Moving?
  }

  /** The parallel call a thread is in the middle of. */
  function CallOf(pc: Pc): Option<Pid> {
    match pc
    case Enter(p) => Some(p)
    case Link(p) => Some(p)
    case Parallel(p) => Some(p)
    case _ => None
  }

  /** While a thread is committed to exclusive routines, no parallel routine has been let go. */
  ghost predicate ExclusionInv(s: State) {
    forall t, p :: t in s.pc && p in s.par && Committed(s.pc[t]) ==> !Let(s.par[p])
  }

  ghost predicate Inv(s: State) {
    OwnerInv(s) && CountInv(s) && PlaceInv(s) && ExclusionInv(s)
  }

  lemma StepKeepsOwner(s: State, a: Action)
    requires OwnerInv(s) && Enabled(s, a)
    ensures OwnerInv(Step(s, a))
  {
  }

  lemma MapSize<K, V>(m: map<K, V>, k: K, v: V)
    ensures |m[k := v]| == |m| + (if k in m then 0 else 1)
    ensures k in m ==> |m - {k}| == |m| - 1
  {
    assert m[k := v].Keys == m.Keys + {k};
    assert |m[k := v]| == |m[k := v].Keys|;
    assert |m| == |m.Keys|;
    if k in m {
      assert (m - {k}).Keys == m.Keys - {k};
      assert |m - {k}| == |(m - {k}).Keys|;
    }
  }

  lemma StepKeepsCount(s: State, a: Action)
    requires CountInv(s) && PlaceInv(s) && Enabled(s, a)
    ensures CountInv(Step(s, a))
  {
    var s' := Step(s, a);
    match a
    case CallParallel(t, p) => MapSize(s.par, p, Entering);
    case TakeList(t) =>
      assert s'.par.Keys == s.par.Keys;
      assert |s'.par| == |s'.par.Keys| == |s.par.Keys| == |s.par|;
    case PostTaken(t, p) => MapSize(s.par, p, Pooled);
    case LookOwner(t, _) => MapSize(s.par, s.pc[t].p, Running); MapSize(s.par, s.pc[t].p, Pooled);
    case PushList(t) => MapSize(s.par, s.pc[t].p, Listed);
    case WorkerTakes(t, p) => MapSize(s.par, p, Running);
    case Resume(t) => MapSize(s.par, s.pc[t].p, Running);
    case _ =>
  }

  lemma StepKeepsTaken(s: State, a: Action)
    requires TakenInv(s) && Enabled(s, a)
    ensures TakenInv(Step(s, a))
  {
    var s' := Step(s, a);
    forall p | p in s'.par && s'.par[p].Taken? ensures s'.par[p].t in s'.pc && s'.pc[s'.par[p].t].Moving? {
      if !a.TakeList? { assert p in s.par && s.par[p] == s'.par[p] && s.par[p] in s.par.Values; }
    }
  }

  lemma StepKeepsCalls(s: State, a: Action)
    requires CallsInv(s) && Enabled(s, a)
    ensures CallsInv(Step(s, a))
  {
    var s' := Step(s, a);
    forall u | u in s'.pc ensures CallPlaced(s', s'.pc[u]) {
      if u in s.pc && u != a.t {
        assert CallPlaced(s, s.pc[u]) && s'.pc[u] == s.pc[u];
        assert CallPlaced(s, s.pc[a.t]);
      }
    }
    forall t, u | t in s'.pc && u in s'.pc && t != u && CallOf(s'.pc[t]) != None
      ensures CallOf(s'.pc[t]) != CallOf(s'.pc[u])
    {
      assert CallPlaced(s, s.pc[t]) && CallPlaced(s, s.pc[u]);
    }
  }

  lemma StepKeepsExclusion(s: State, a: Action)
    requires Inv(s) && Enabled(s, a)
    ensures ExclusionInv(Step(s, a))
  {
    hide CallsInv;
  }

  lemma {:induction false} RunInv(states: seq<State>, acts: seq<Action>, k: nat)
    requires Run(states, acts) && k < |states|
    ensures Inv(states[k])
  {
    hide OwnerInv, CountInv, TakenInv, CallsInv, ExclusionInv, Step, Enabled;
    if k == 0 {
      InitialInv(states[0]);
    } else {
      var s, a := states[k - 1], acts[k - 1];
      RunInv(states, acts, k - 1);
      StepKeepsOwner(s, a);
      StepKeepsCount(s, a);
      StepKeepsTaken(s, a);
      StepKeepsCalls(s, a);
      StepKeepsExclusion(s, a);
    }
  }

  lemma InitialInv(s: State)
    requires Initial(s)
    ensures Inv(s)
  {
    assert |s.par| == 0;
  }

  /** In every state of every run: at most one thread runs exclusive routines, and while it does, no
      parallel routine of the warp runs. */
  lemma WarpExcludes(states: seq<State>, acts: seq<Action>, k: nat)
    requires Run(states, acts) && k < |states|
    ensures forall t, u | t in states[k].pc && u in states[k].pc ::
              states[k].pc[t].Exclusive? && states[k].pc[u].Exclusive? ==> t == u
    ensures forall t, u | t in states[k].pc && u in states[k].pc ::
              states[k].pc[t].Exclusive? ==> !states[k].pc[u].Parallel?
  {
    RunInv(states, acts, k);
    var s := states[k];
    forall t, u | t in s.pc && u in s.pc && s.pc[t].Exclusive? && s.pc[u].Exclusive? ensures t == u {
      assert Holds(s.pc[t]) && Holds(s.pc[u]);
    }
    forall t, u | t in s.pc && u in s.pc && s.pc[t].Exclusive? ensures !s.pc[u].Parallel? {
      assert CallPlaced(s, s.pc[u]);
    }
  }

  /** The source's own assertions: a yielding thread owns the warp, the warp is suspended while a
      parallel task is moved, and resume never underflows suspend_count. */
  lemma WarpAssertions(states: seq<State>, acts: seq<Action>, k: nat)
    requires Run(states, acts) && k < |states|
    ensures var s := states[k]; forall t <- s.pc ::
      && (s.pc[t].Yielding? ==> s.owner == Some(t))
      && (Taken(t) in s.par.Values ==> s.suspend > 0)
      && (s.pc[t].Parallel? ==> Enabled(s, Resume(t)))
    ensures states[k].suspend == |states[k].par|
  {
    RunInv(states, acts, k);
    var s := states[k];
    forall t | t in s.pc
      ensures (s.pc[t].Yielding? ==> s.owner == Some(t)) && (Taken(t) in s.par.Values ==> s.suspend > 0)
           && (s.pc[t].Parallel? ==> Enabled(s, Resume(t)))
    {
      assert CallPlaced(s, s.pc[t]);
      if Taken(t) in s.par.Values {
        var p :| p in s.par && s.par[p] == Taken(t);
        SomePresent(s.par, p);
      }
      if s.pc[t].Parallel? { SomePresent(s.par, s.pc[t].p); }
    }
  }

  lemma SomePresent<K, V>(m: map<K, V>, k: K)
    requires k in m
    ensures |m| > 0
  {
    MapSize(m, k, m[k]);
  }
}
