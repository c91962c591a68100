/**
 The quota (`iris_quota_t`) and the queue of coroutines that wait for it (`iris_quota_queue_t`).
 Every change of one quantity, of the waiter list and of the lock is one step; a run interleaves
 any number of activities that acquire, wait, hold and release.
 */
module Quota {
  import opened Collections

  type Amount = seq<int>

  datatype Ctx =
    | Probe          // guard(): before waiting
    | Queued         // acquire_queued(): again, under the lock
    | Serve          // release(): for the first waiter, under the lock

  datatype Pc =
    | Idle
    | Acquire(ctx: Ctx, a: Amount, i: nat)             // about to take quantity i
    | Rollback(ctx: Ctx, a: Amount, k: nat, i: nat)    // quantity i was short, giving back k..i
    | WaitLock(a: Amount)
    | Enqueue(a: Amount)                               // locked, about to push onto handles
    | Release(a: Amount, k: nat)                       // about to give back quantity k
    | ServeLock                                        // release(): about to lock for the next waiter
    | Served(a: Amount)                                // locked, the first waiter's request acquired
    | Dispatch(a: Amount)                              // unlocked, about to resume that waiter
    | Unlock                                           // locked, about to return

  datatype Waiter = Waiter(id: nat, a: Amount)

  datatype State = State(
    quantities: seq<int>,
    lock: Option<nat>,
    handles: seq<Waiter>,
    held: seq<Amount>,            // resources in clients' hands
    pcs: seq<Pc>,
    // history: waiters by arrival, waiters served, whether a rollback ever returned a positive amount
    queued: seq<nat>, popped: seq<nat>, gaveBack: bool)

  datatype Action = Guard(t: nat, a: Amount) | Return(t: nat, h: nat) | Go(t: nat)

  predicate IsAmount(a: Amount, n: nat) {
    |a| == n && forall j :: 0 <= j < n ==> a[j] >= 0
  }

  /** Program points that hold the lock. */
  predicate Locked(pc: Pc) {
    ((pc.Acquire? || pc.Rollback?) && !pc.ctx.Probe?) || pc.Enqueue? || pc.Served? || pc.Unlock?
  }

  predicate Enabled(s: State, a: Action) {
    a.t < |s.pcs| &&
    match a
    case Guard(t, amount) => s.pcs[t].Idle? && IsAmount(amount, |s.quantities|)
    case Return(t, h) => s.pcs[t].Idle? && h < |s.held|
    case Go(t) =>
      && !s.pcs[t].Idle? && (s.pcs[t].WaitLock? || s.pcs[t].ServeLock? ==> s.lock.None?)
      && Shaped(s.pcs[t], |s.quantities|)
      && (s.pcs[t].Served? ==> s.handles != [])
  }

  /** Amounts have one entry for every quantity, and loops stay inside. */
  predicate Shaped(pc: Pc, n: nat) {
    match pc
    case Acquire(_, a, i) => IsAmount(a, n) && i <= n
    case Rollback(_, a, k, i) => IsAmount(a, n) && k <= i < n
    case WaitLock(a) => IsAmount(a, n)
    case Enqueue(a) => IsAmount(a, n)
    case Release(a, k) => IsAmount(a, n) && k <= n
    case Served(a) => IsAmount(a, n)
    case Dispatch(a) => IsAmount(a, n)
    case _ => true
  }

  function SetPc(s: State, t: nat, pc: Pc): State
    requires t < |s.pcs|
  {
    s.(pcs := s.pcs[t := pc])
  }

  function Step(s: State, act: Action): State
    requires Enabled(s, act)
  {
    match act
    case Guard(t, a) => SetPc(s, t, Acquire(Probe, a, 0))
    case Return(t, h) => SetPc(s, t, Release(s.held[h], 0)).(held := s.held[..h] + s.held[h + 1..])
    case Go(t) =>
      var pc := s.pcs[t];
      if pc.Acquire? then AcquireStep(s, t, pc.ctx, pc.a, pc.i)
      else if pc.Rollback? || pc.Release? then GiveBackStep(s, t)
      else WaiterStep(s, t)
  }

  /** Returning one quantity, after a failure or in `release`. */
  function GiveBackStep(s: State, t: nat): State
    requires Enabled(s, Go(t)) && (s.pcs[t].Rollback? || s.pcs[t].Release?)
  {
    match s.pcs[t]
    case Rollback(ctx, a, k, i) =>
      if k < i then SetPc(s, t, Rollback(ctx, a, k + 1, i)).(
        quantities := s.quantities[k := s.quantities[k] + a[k]], gaveBack := s.gaveBack || a[k] > 0)
      else SetPc(s, t, match ctx case Probe => WaitLock(a) case Queued => Enqueue(a) case Serve => Unlock)
    case Release(a, k) =>
      if k < |s.quantities|
      then SetPc(s, t, Release(a, k + 1)).(quantities := s.quantities[k := s.quantities[k] + a[k]])
      else SetPc(s, t, ServeLock)
  }

  /** Steps on the list of waiters and its lock. */
  function WaiterStep(s: State, t: nat): State
    requires Enabled(s, Go(t))
  {
    match s.pcs[t]
    case WaitLock(a) => SetPc(s, t, Acquire(Queued, a, 0)).(lock := Some(t))
    case Enqueue(a) =>
      SetPc(s, t, Unlock).(handles := s.handles + [Waiter(|s.queued|, a)], queued := s.queued + [|s.queued|])
    case ServeLock =>
      SetPc(s, t, if s.handles == [] then Unlock else Acquire(Serve, s.handles[0].a, 0)).(lock := Some(t))
    case Served(a) =>
      SetPc(s, t, Dispatch(a)).(handles := s.handles[1..], lock := None, popped := s.popped + [s.handles[0].id])
    case Dispatch(a) => SetPc(s, t, ServeLock).(held := s.held + [a])
    case Unlock => SetPc(s, t, Idle).(lock := None)
    case _ => s
  }

  /** One turn of the loop in `acquire`. */
  function AcquireStep(s: State, t: nat, ctx: Ctx, a: Amount, i: nat): State
    requires t < |s.pcs| && IsAmount(a, |s.quantities|) && i <= |a|
  {
    if i == |a| then
      match ctx
      case Probe => SetPc(s, t, Idle).(held := s.held + [a])
      case Queued => SetPc(s, t, Unlock).(held := s.held + [a])
      case Serve => SetPc(s, t, Served(a))
    else if s.quantities[i] < a[i] then SetPc(s, t, Rollback(ctx, a, 0, i))
    else SetPc(s, t, Acquire(ctx, a, i + 1)).(quantities := s.quantities[i := s.quantities[i] - a[i]])
  }

  predicate Initial(s: State) {
    && s.lock == None && s.handles == [] && s.held == [] && s.queued == [] && s.popped == [] && !s.gaveBack
    && (forall j :: 0 <= j < |s.quantities| ==> s.quantities[j] >= 0)
    && (forall t :: 0 <= t < |s.pcs| ==> s.pcs[t] == Idle)
  }

  ghost predicate Run(states: seq<State>, acts: seq<Action>) {
    && |states| == |acts| + 1 && Initial(states[0])
    && forall i {:trigger acts[i]} :: 0 <= i < |acts|
         ==> Enabled(states[i], acts[i]) && states[i + 1] == Step(states[i], acts[i])
  }

  // ---- conservation --------------------------------------------------------------------------

  /** What an activity has taken of quantity `j`. */
  function Part(pc: Pc, j: nat): int {
    match pc
    case Acquire(_, a, i) => if j < i && j < |a| then a[j] else 0
    case Rollback(_, a, k, i) => if k <= j < i && j < |a| then a[j] else 0
    case Release(a, k) => if k <= j < |a| then a[j] else 0
    case Served(a) => if j < |a| then a[j] else 0
    case Dispatch(a) => if j < |a| then a[j] else 0
    case _ => 0
  }

  function Parts(pcs: seq<Pc>, j: nat): int {
    if pcs == [] then 0 else Part(pcs[0], j) + Parts(pcs[1..], j)
  }

  function Held(held: seq<Amount>, j: nat): int {
    if held == [] then 0 else (if j < |held[0]| then held[0][j] else 0) + Held(held[1..], j)
  }

  lemma {:induction false} PartsUpdate(pcs: seq<Pc>, t: nat, pc: Pc, j: nat)
    requires t < |pcs|
    ensures Parts(pcs[t := pc], j) == Parts(pcs, j) - Part(pcs[t], j) + Part(pc, j)
  {
    hide Part;
    if t == 0 {
      assert pcs[0 := pc][1..] == pcs[1..];
    } else {
      assert pcs[t := pc][1..] == pcs[1..][t - 1 := pc];
      PartsUpdate(pcs[1..], t - 1, pc, j);
    }
  }

  lemma {:induction false} HeldJoin(a: seq<Amount>, b: seq<Amount>, j: nat)
    ensures Held(a + b, j) == Held(a, j) + Held(b, j)
  {
    if a == [] {
      assert a + b == b;
    } else {
      assert (a + b)[1..] == a[1..] + b;
      HeldJoin(a[1..], b, j);
    }
  }

  lemma HeldAdd(held: seq<Amount>, a: Amount, j: nat)
    requires j < |a|
    ensures Held(held + [a], j) == Held(held, j) + a[j]
  {
    HeldJoin(held, [a], j);
    assert [a][1..] == [];
    assert Held([a], j) == a[j] + Held([], j);
  }

  lemma HeldRemove(held: seq<Amount>, h: nat, j: nat)
    requires h < |held| && j < |held[h]|
    ensures Held(held[..h] + held[h + 1..], j) == Held(held, j) - held[h][j]
  {
    assert held == held[..h] + [held[h]] + held[h + 1..];
    HeldJoin(held[..h] + [held[h]], held[h + 1..], j);
    HeldAdd(held[..h], held[h], j);
    HeldJoin(held[..h], held[h + 1..], j);
  }

  ghost predicate ShapesOk(s: State) {
    && (forall t :: 0 <= t < |s.pcs| ==> Shaped(s.pcs[t], |s.quantities|))
    && (forall h :: 0 <= h < |s.held| ==> IsAmount(s.held[h], |s.quantities|))
    && (forall h :: 0 <= h < |s.handles| ==> IsAmount(s.handles[h].a, |s.quantities|))
    && (forall j :: 0 <= j < |s.quantities| ==> s.quantities[j] >= 0)
  }

  /** Remaining, partly acquired and held amounts of quantity `j`, together. */
  function Sum(s: State, j: nat): int
    requires j < |s.quantities|
  {
    s.quantities[j] + Parts(s.pcs, j) + Held(s.held, j)
  }

  ghost predicate LockOk(s: State) {
    forall t :: 0 <= t < |s.pcs| ==> (Locked(s.pcs[t]) <==> s.lock == Some(t))
  }

  /** The request a release is trying to serve. */
  predicate Serving(pc: Pc) {
    pc.Served? || ((pc.Acquire? || pc.Rollback?) && pc.ctx.Serve?)
  }

  ghost predicate ServeOk(s: State) {
    forall t :: 0 <= t < |s.pcs| && Serving(s.pcs[t]) ==> s.handles != [] && s.handles[0].a == s.pcs[t].a
  }

  ghost predicate OrderOk(s: State) {
    && |s.popped| + |s.handles| == |s.queued|
    && (forall i :: 0 <= i < |s.queued| ==> s.queued[i] == i)
    && (forall i :: 0 <= i < |s.popped| ==> s.popped[i] == i)
    && (forall i :: 0 <= i < |s.handles| ==> s.handles[i].id == |s.popped| + i)
  }

  lemma StepKeepsShapes(s: State, act: Action)
    requires ShapesOk(s) && Enabled(s, act)
    ensures ShapesOk(Step(s, act)) && |Step(s, act).quantities| == |s.quantities|
  {
    StepKeepsQuantities(s, act);
    StepShapes(s, act);
    hide IsAmount, Shaped, Step;
  }

  lemma StepKeepsQuantities(s: State, act: Action)
    requires ShapesOk(s) && Enabled(s, act)
    ensures var s' := Step(s, act);
      |s'.quantities| == |s.quantities| && forall j :: 0 <= j < |s.quantities| ==> s'.quantities[j] >= 0
  {
    hide IsAmount;
    if act.Go? && (s.pcs[act.t].Acquire? || s.pcs[act.t].Rollback? || s.pcs[act.t].Release?) {
      AmountFacts(s.pcs[act.t].a, |s.quantities|);
    }
  }

  lemma StepShapes(s: State, act: Action)
    requires ShapesOk(s) && Enabled(s, act)
    ensures AmountsOk(Step(s, act), |s.quantities|)
  {
    if act.Go? && s.pcs[act.t].Acquire? {
      AcquireShapes(s, act.t);
      hide AcquireStep;
    } else {
      OtherStep(s, act);
      StepShape(s, act);
      hide Step, Enabled, IsAmount, Shaped;
    }
  }

  lemma StepShape(s: State, act: Action)
    requires ShapesOk(s) && Enabled(s, act) && !(act.Go? && s.pcs[act.t].Acquire?)
    ensures var s' := Step(s, act); var n := |s.quantities|;
      && Shaped(s'.pcs[act.t], n)
      && (forall h :: 0 <= h < |s'.held| ==> IsAmount(s'.held[h], n))
      && (forall h :: 0 <= h < |s'.handles| ==> IsAmount(s'.handles[h].a, n))
  {
    hide IsAmount, AcquireStep, GiveBackStep;
    if act.Go? && (s.pcs[act.t].Rollback? || s.pcs[act.t].Release?) {
      hide WaiterStep, Shaped;
      GiveBackOnly(s, act.t);
    }
  }

  ghost predicate AmountsOk(s: State, n: nat) {
    && (forall t :: 0 <= t < |s.pcs| ==> Shaped(s.pcs[t], n))
    && (forall h :: 0 <= h < |s.held| ==> IsAmount(s.held[h], n))
    && (forall h :: 0 <= h < |s.handles| ==> IsAmount(s.handles[h].a, n))
  }

  lemma AcquireShapes(s: State, t: nat)
    requires ShapesOk(s) && Enabled(s, Go(t)) && s.pcs[t].Acquire?
    ensures AmountsOk(AcquireStep(s, t, s.pcs[t].ctx, s.pcs[t].a, s.pcs[t].i), |s.quantities|)
  {
    AmountFacts(s.pcs[t].a, |s.quantities|);
    hide IsAmount;
  }

  lemma AmountFacts(a: Amount, n: nat)
    requires IsAmount(a, n)
    ensures |a| == n && forall j :: 0 <= j < n ==> a[j] >= 0
  {
  }

  lemma StepKeepsLock(s: State, act: Action)
    requires LockOk(s) && Enabled(s, act)
    ensures LockOk(Step(s, act))
  {
    hide IsAmount, Shaped, AcquireStep;
    var s' := Step(s, act);
    if act.Go? && s.pcs[act.t].Acquire? {
      AcquireKeepsLock(s, act.t);
    } else if act.Go? && (s.pcs[act.t].Rollback? || s.pcs[act.t].Release?) {
      hide WaiterStep, Locked;
      GiveBackOnly(s, act.t);
    } else {
      forall u | 0 <= u < |s.pcs| ensures Locked(s'.pcs[u]) <==> s'.lock == Some(u) {
        assert Locked(s.pcs[u]) <==> s.lock == Some(u);
        assert Locked(s.pcs[act.t]) <==> s.lock == Some(act.t);
      }
    }
  }

  lemma AcquireKeepsLock(s: State, t: nat)
    requires LockOk(s) && Enabled(s, Go(t)) && s.pcs[t].Acquire?
    ensures LockOk(AcquireStep(s, t, s.pcs[t].ctx, s.pcs[t].a, s.pcs[t].i))
  {
    hide IsAmount;
  }

  lemma StepKeepsServe(s: State, act: Action)
    requires LockOk(s) && ServeOk(s) && Enabled(s, act)
    ensures ServeOk(Step(s, act))
  {
    if act.Go? && s.pcs[act.t].Acquire? {
      AcquireKeepsServe(s, act.t);
      hide AcquireStep;
    } else {
      OtherStep(s, act);
      hide Step, Enabled;
      var s' := Step(s, act);
      forall u | 0 <= u < |s.pcs| && Serving(s'.pcs[u]) ensures s'.handles != [] && s'.handles[0].a == s'.pcs[u].a {
        assert Locked(s.pcs[act.t]) <==> s.lock == Some(act.t);
        assert Locked(s.pcs[u]) <==> s.lock == Some(u);
      }
    }
  }

  /** What a step outside the acquire loop does to the waiters. */
  lemma OtherStep(s: State, act: Action)
    requires Enabled(s, act) && !(act.Go? && s.pcs[act.t].Acquire?)
    ensures var s' := Step(s, act);
      && s'.pcs == s.pcs[act.t := s'.pcs[act.t]]
      && (s'.handles == s.handles
           || (act.Go? && (s.pcs[act.t].Served? || (s.pcs[act.t].Enqueue? && s.handles <= s'.handles))))
      && (Serving(s'.pcs[act.t]) ==>
            s'.handles == s.handles && (if Serving(s.pcs[act.t]) then s'.pcs[act.t].a == s.pcs[act.t].a
                                        else s.handles != [] && s'.pcs[act.t].a == s.handles[0].a))
  {
    hide IsAmount, Shaped, AcquireStep, GiveBackStep;
    if act.Go? && (s.pcs[act.t].Rollback? || s.pcs[act.t].Release?) {
      hide WaiterStep;
      GiveBackOnly(s, act.t);
    }
  }

  lemma GiveBackOnly(s: State, t: nat)
    requires Enabled(s, Go(t)) && (s.pcs[t].Rollback? || s.pcs[t].Release?)
    ensures var s' := GiveBackStep(s, t);
      && s'.pcs == s.pcs[t := s'.pcs[t]] && s'.handles == s.handles && s'.held == s.held && s'.lock == s.lock
      && s'.queued == s.queued && s'.popped == s.popped
      && (Serving(s'.pcs[t]) ==> Serving(s.pcs[t]) && s'.pcs[t].a == s.pcs[t].a)
      && Shaped(s'.pcs[t], |s.quantities|) && (Locked(s'.pcs[t]) <==> Locked(s.pcs[t]))
  {
    hide IsAmount;
  }

  lemma AcquireKeepsServe(s: State, t: nat)
    requires ServeOk(s) && Enabled(s, Go(t)) && s.pcs[t].Acquire?
    ensures ServeOk(AcquireStep(s, t, s.pcs[t].ctx, s.pcs[t].a, s.pcs[t].i))
  {
    hide IsAmount;
    assert Serving(s.pcs[t]) ==> s.handles != [] && s.handles[0].a == s.pcs[t].a;
  }

  lemma StepKeepsOrder(s: State, act: Action)
    requires OrderOk(s) && Enabled(s, act)
    ensures OrderOk(Step(s, act))
  {
    hide IsAmount, Shaped, AcquireStep, GiveBackStep;
    if act.Go? && s.pcs[act.t].Acquire? {
      hide WaiterStep;
      AcquireKeepsOrder(s, act.t);
    } else if act.Go? && (s.pcs[act.t].Rollback? || s.pcs[act.t].Release?) {
      hide WaiterStep;
      GiveBackOnly(s, act.t);
    }
  }

  lemma AcquireKeepsOrder(s: State, t: nat)
    requires OrderOk(s) && Enabled(s, Go(t)) && s.pcs[t].Acquire?
    ensures OrderOk(AcquireStep(s, t, s.pcs[t].ctx, s.pcs[t].a, s.pcs[t].i))
  {
    hide IsAmount;
  }

  /** No step changes what the parts add up to, in any dimension. */
  lemma StepConserves(s: State, act: Action, j: nat)
    requires ShapesOk(s) && Enabled(s, act) && j < |s.quantities| == |Step(s, act).quantities|
    ensures Sum(Step(s, act), j) == Sum(s, j)
  {
    hide Parts, Held, AcquireStep, GiveBackStep;
    var s' := Step(s, act);
    if act.Go? && s.pcs[act.t].Acquire? {
      hide WaiterStep;
      AcquireConserves(s, act.t, j);
    } else if act.Go? && (s.pcs[act.t].Rollback? || s.pcs[act.t].Release?) {
      hide WaiterStep;
      GiveBackConserves(s, act.t, j);
    } else {
      PartsUpdate(s.pcs, act.t, s'.pcs[act.t], j);
      if act.Return? { HeldRemove(s.held, act.h, j); }
      if act.Go? && s.pcs[act.t].Dispatch? { HeldAdd(s.held, s.pcs[act.t].a, j); }
    }
  }

  lemma GiveBackConserves(s: State, t: nat, j: nat)
    requires Enabled(s, Go(t)) && (s.pcs[t].Rollback? || s.pcs[t].Release?) && j < |s.quantities|
    ensures var s' := GiveBackStep(s, t); j < |s'.quantities| && Sum(s', j) == Sum(s, j)
  {
    hide Parts, Held;
    PartsUpdate(s.pcs, t, GiveBackStep(s, t).pcs[t], j);
  }

  lemma AcquireConserves(s: State, t: nat, j: nat)
    requires Enabled(s, Go(t)) && s.pcs[t].Acquire? && j < |s.quantities|
    ensures var s' := AcquireStep(s, t, s.pcs[t].ctx, s.pcs[t].a, s.pcs[t].i);
      j < |s'.quantities| && Sum(s', j) == Sum(s, j)
  {
    hide Parts, Held;
    var s' := AcquireStep(s, t, s.pcs[t].ctx, s.pcs[t].a, s.pcs[t].i);
    PartsUpdate(s.pcs, t, s'.pcs[t], j);
    HeldAdd(s.held, s.pcs[t].a, j);
  }

  // ---- waking the first waiter -----------------------------------------------------------------

  predicate Fits(q: seq<int>, a: Amount) {
    |a| == |q| && forall j :: 0 <= j < |q| ==> a[j] <= q[j]
  }

  /** A release that will still look at the waiters. */
  predicate Late(pc: Pc) {
    pc.Release? || pc.ServeLock? || pc.Served? || pc.Dispatch? || (pc.Acquire? && pc.ctx.Serve?)
  }

  ghost predicate SomeLate(s: State) {
    exists t :: 0 <= t < |s.pcs| && Late(s.pcs[t])
  }

  /** A waiter that has failed under the lock and is on its way into the list. */
  predicate Joining(pc: Pc) {
    pc.Enqueue? || (pc.Rollback? && pc.ctx.Queued?)
  }

  ghost predicate WakeOk(s: State) {
    s.gaveBack || SomeLate(s) ||
    (&& (s.handles != [] ==> !Fits(s.quantities, s.handles[0].a))
     && (s.handles == [] ==> forall t :: 0 <= t < |s.pcs| && Joining(s.pcs[t]) ==> !Fits(s.quantities, s.pcs[t].a)))
  }

  ghost predicate Inv(s: State) {
    ShapesOk(s) && LockOk(s) && ServeOk(s) && OrderOk(s)
  }

  lemma StepKeepsLate(s: State, act: Action, u: nat)
    requires Inv(s) && Enabled(s, act) && u < |s.pcs| && Late(s.pcs[u]) && u != act.t
    ensures SomeLate(Step(s, act))
  {
    hide IsAmount, Shaped, ShapesOk, OrderOk, LockOk, ServeOk;
    assert Late(Step(s, act).pcs[u]);
  }

  /** The steps by which a release stops looking leave nothing that fits. */
  lemma LastLookWakes(s: State, t: nat)
    requires Inv(s) && Enabled(s, Go(t)) && Late(s.pcs[t]) && !s.gaveBack
    ensures WakeOk(Step(s, Go(t)))
  {
    hide IsAmount, ShapesOk, OrderOk, LockOk, ServeOk;
    var s' := Step(s, Go(t));
    if !Late(s'.pcs[t]) {
      LastLook(s, t);
    }
  }

  /** An acquisition that fails could not have been satisfied as a whole. */
  lemma Short(s: State, t: nat)
    requires Enabled(s, Go(t)) && s.pcs[t].Acquire? && Step(s, Go(t)).pcs[t].Rollback?
    ensures !Fits(s.quantities, s.pcs[t].a)
  {
    var i := s.pcs[t].i;
    assert s.quantities[i] < s.pcs[t].a[i];
  }

  lemma LastLook(s: State, t: nat)
    requires Inv(s) && Enabled(s, Go(t)) && Late(s.pcs[t]) && !Late(Step(s, Go(t)).pcs[t])
    ensures var s' := Step(s, Go(t));
      && (s'.handles != [] ==> !Fits(s'.quantities, s'.handles[0].a))
      && (s'.handles == [] ==> forall u :: 0 <= u < |s.pcs| ==> !Joining(s'.pcs[u]))
  {
    hide IsAmount, ShapesOk, OrderOk, Shaped;
    assert forall u :: 0 <= u < |s.pcs| ==> (Locked(s.pcs[u]) <==> s.lock == Some(u));
    if s.pcs[t].Acquire? {
      assert Serving(s.pcs[t]);
      Short(s, t);
    }
  }

  /** Other steps: what fits afterwards fitted before. */
  lemma QuietStepWakes(s: State, act: Action)
    requires Inv(s) && Enabled(s, act) && WakeOk(s) && !SomeLate(s) && !s.gaveBack && !Step(s, act).gaveBack
    ensures WakeOk(Step(s, act))
  {
    hide IsAmount, ShapesOk, OrderOk, LockOk, ServeOk;
    var s' := Step(s, act);
    var t := act.t;
    assert !Late(s.pcs[t]);
    if !Late(s'.pcs[t]) {
      Shrinks(s, act);
      forall a | Fits(s'.quantities, a) ensures Fits(s.quantities, a) { }
      JoinsUnfit(s, act);
    }
  }

  lemma Shrinks(s: State, act: Action)
    requires Inv(s) && Enabled(s, act) && !Late(s.pcs[act.t]) && !s.gaveBack && !Step(s, act).gaveBack
    ensures |Step(s, act).quantities| == |s.quantities|
    ensures forall j :: 0 <= j < |s.quantities| ==> Step(s, act).quantities[j] <= s.quantities[j]
  {
    hide OrderOk, LockOk, ServeOk, ShapesOk;
  }

  lemma JoinsUnfit(s: State, act: Action)
    requires Inv(s) && Enabled(s, act) && WakeOk(s) && !SomeLate(s) && !s.gaveBack
    requires var s' := Step(s, act); forall a :: Fits(s'.quantities, a) ==> Fits(s.quantities, a)
    ensures var s' := Step(s, act);
      Late(s'.pcs[act.t]) ||
      (&& (s'.handles != [] ==> !Fits(s'.quantities, s'.handles[0].a))
       && (s'.handles == [] ==>
             forall t :: 0 <= t < |s.pcs| && Joining(s'.pcs[t]) ==> !Fits(s'.quantities, s'.pcs[t].a)))
  {
    hide IsAmount, ShapesOk, OrderOk, LockOk, ServeOk, Shaped;
    assert !Late(s.pcs[act.t]);
    if act.Go? && s.pcs[act.t].Acquire? && Step(s, act).pcs[act.t].Rollback? { Short(s, act.t); }
  }

  lemma StepWakes(s: State, act: Action)
    requires Inv(s) && Enabled(s, act) && WakeOk(s)
    ensures WakeOk(Step(s, act))
  {
    hide Inv;
    GaveBackStays(s, act);
    if !Step(s, act).gaveBack {
      if SomeLate(s) {
        var u :| 0 <= u < |s.pcs| && Late(s.pcs[u]);
        if u != act.t { StepKeepsLate(s, act, u); } else { LastLookWakes(s, u); }
      } else {
        QuietStepWakes(s, act);
      }
    }
  }

  lemma GaveBackStays(s: State, act: Action)
    requires Enabled(s, act)
    ensures s.gaveBack ==> Step(s, act).gaveBack
    ensures |s.quantities| <= 1 && Step(s, act).gaveBack ==> s.gaveBack
    ensures |Step(s, act).quantities| == |s.quantities|
  {
  }

  // ---- whole runs ------------------------------------------------------------------------------

  lemma {:induction false} RunInv(states: seq<State>, acts: seq<Action>, k: nat)
    requires Run(states, acts) && k < |states|
    ensures Inv(states[k]) && WakeOk(states[k]) && |states[k].quantities| == |states[0].quantities|
    ensures |states[0].quantities| <= 1 ==> !states[k].gaveBack
  {
    if k == 0 {
      assert forall t :: 0 <= t < |states[0].pcs| ==> states[0].pcs[t] == Idle;
    } else {
      var s, a := states[k - 1], acts[k - 1];
      RunInv(states, acts, k - 1);
      hide Step, Enabled, WakeOk, ShapesOk, LockOk, ServeOk, OrderOk;
      StepKeepsShapes(s, a);
      StepKeepsLock(s, a);
      StepKeepsServe(s, a);
      StepKeepsOrder(s, a);
      StepWakes(s, a);
      GaveBackStays(s, a);
    }
  }

  lemma {:induction false} SumStays(states: seq<State>, acts: seq<Action>, k: nat, j: nat)
    requires Run(states, acts) && k < |states| && j < |states[0].quantities|
    ensures j < |states[k].quantities| && Sum(states[k], j) == states[0].quantities[j]
  {
    hide Step, Enabled, Parts, Sum, LockOk, ServeOk, OrderOk, WakeOk, ShapesOk;
    RunInv(states, acts, k);
    if k == 0 {
      InitialSum(states[0], j);
    } else {
      SumStays(states, acts, k - 1, j);
      RunInv(states, acts, k - 1);
      StepConserves(states[k - 1], acts[k - 1], j);
    }
  }

  /** In every dimension, what remains, what activities have taken so far and what clients hold add up
      to the initial quota, and none of them is negative. */
  lemma QuotaConserved(states: seq<State>, acts: seq<Action>, k: nat, j: nat)
    requires Run(states, acts) && k < |states| && j < |states[0].quantities|
    ensures var s := states[k];
      && j < |s.quantities| && s.quantities[j] + Parts(s.pcs, j) + Held(s.held, j) == states[0].quantities[j]
      && 0 <= s.quantities[j] && 0 <= Parts(s.pcs, j) && 0 <= Held(s.held, j)
  {
    hide Run, LockOk, ServeOk, OrderOk, WakeOk, Shaped, IsAmount;
    RunInv(states, acts, k);
    SumStays(states, acts, k, j);
    PartsNonNegative(states[k].pcs, |states[k].quantities|, j);
    HeldNonNegative(states[k].held, |states[k].quantities|, j);
  }

  lemma InitialSum(s: State, j: nat)
    requires Initial(s) && j < |s.quantities|
    ensures Sum(s, j) == s.quantities[j]
  {
    IdleParts(s.pcs, j);
  }

  lemma {:induction false} IdleParts(pcs: seq<Pc>, j: nat)
    requires forall t :: 0 <= t < |pcs| ==> pcs[t] == Idle
    ensures Parts(pcs, j) == 0
  {
    if pcs != [] { IdleParts(pcs[1..], j); }
  }

  lemma {:induction false} PartsNonNegative(pcs: seq<Pc>, n: nat, j: nat)
    requires forall t :: 0 <= t < |pcs| ==> Shaped(pcs[t], n)
    ensures Parts(pcs, j) >= 0
  {
    if pcs != [] {
      assert Shaped(pcs[0], n);
      PartsNonNegative(pcs[1..], n, j);
    }
  }

  lemma {:induction false} HeldNonNegative(held: seq<Amount>, n: nat, j: nat)
    requires forall h :: 0 <= h < |held| ==> IsAmount(held[h], n)
    ensures Held(held, j) >= 0
  {
    if held != [] {
      assert IsAmount(held[0], n);
      HeldNonNegative(held[1..], n, j);
    }
  }

  /** No lost wakeup in one dimension, nor in any as long as no rollback gave anything back: if the
      first waiter's request fits, a release is still on its way to look at the waiters. */
  lemma FirstWaiterIsSeen(states: seq<State>, acts: seq<Action>, k: nat)
    requires Run(states, acts) && k < |states| && (|states[0].quantities| <= 1 || !states[k].gaveBack)
    requires states[k].handles != [] && Fits(states[k].quantities, states[k].handles[0].a)
    ensures SomeLate(states[k])
  {
    RunInv(states, acts, k);
    hide Inv;
  }

  /** Waiters are served once each, in the order of their arrival. */
  lemma ServedInOrder(states: seq<State>, acts: seq<Action>, k: nat)
    requires Run(states, acts) && k < |states|
    ensures var s := states[k];
      && s.popped <= s.queued && |s.popped| + |s.handles| == |s.queued|
      && forall i :: 0 <= i < |s.handles| ==> s.handles[i].id == s.queued[|s.popped| + i]
  {
    RunInv(states, acts, k);
    hide WakeOk, ShapesOk, LockOk, ServeOk;
  }
}
