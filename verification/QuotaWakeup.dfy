/**
 When a quota queue can lose a wakeup: with two quantities or more a failed attempt that gives back
 what it took may leave a waiter whose request fits with nobody to look at it.  With at most one
 quantity, or when every request names at most one, this cannot happen.
 */
module QuotaWakeup {
  import opened Collections
  import opened Quota

  /** The first waiter's request fits and no release will look at it. */
  ghost predicate Forgotten(s: State) {
    s.handles != [] && Fits(s.quantities, s.handles[0].a) && !SomeLate(s)
  }

  // ---- requests for one quantity at a time ---------------------------------------------------

  /** At most one entry is positive. */
  predicate Single(a: Amount) {
    forall i, j :: 0 <= i < |a| && 0 <= j < |a| && a[i] > 0 && a[j] > 0 ==> i == j
  }

  predicate SinglePc(pc: Pc) {
    match pc
    case Acquire(_, a, _) => Single(a)
    case Rollback(_, a, _, i) => Single(a) && i < |a| && a[i] > 0
    case WaitLock(a) => Single(a)
    case Enqueue(a) => Single(a)
    case _ => true
  }

  ghost predicate SingleOk(s: State) {
    && !s.gaveBack
    && (forall t :: 0 <= t < |s.pcs| ==> SinglePc(s.pcs[t]))
    && (forall h :: 0 <= h < |s.handles| ==> Single(s.handles[h].a))
  }

  lemma StepKeepsSingle(s: State, act: Action)
    requires SingleOk(s) && ShapesOk(s) && Enabled(s, act) && (act.Guard? ==> Single(act.a))
    ensures SingleOk(Step(s, act))
  {
    hide Single, AcquireStep, GiveBackStep, IsAmount;
    if act.Go? && s.pcs[act.t].Acquire? {
      hide WaiterStep;
      AcquireKeepsSingle(s, act.t);
    } else if act.Go? && (s.pcs[act.t].Rollback? || s.pcs[act.t].Release?) {
      hide WaiterStep;
      GiveBackKeepsSingle(s, act.t);
    } else {
      assert SinglePc(s.pcs[act.t]);
      assert SinglePc(Step(s, act).pcs[act.t]);
    }
  }

  /** A failed attempt lacks its one positive entry. */
  lemma AcquireKeepsSingle(s: State, t: nat)
    requires SingleOk(s) && ShapesOk(s) && Enabled(s, Go(t)) && s.pcs[t].Acquire?
    ensures SingleOk(AcquireStep(s, t, s.pcs[t].ctx, s.pcs[t].a, s.pcs[t].i))
  {
    hide Single;
    AmountFacts(s.pcs[t].a, |s.quantities|);
    hide IsAmount;
    var s' := AcquireStep(s, t, s.pcs[t].ctx, s.pcs[t].a, s.pcs[t].i);
    assert SinglePc(s.pcs[t]);
    assert SinglePc(s'.pcs[t]);
  }

  /** What a rollback gives back is nothing. */
  lemma GiveBackKeepsSingle(s: State, t: nat)
    requires SingleOk(s) && Enabled(s, Go(t)) && (s.pcs[t].Rollback? || s.pcs[t].Release?)
    ensures SingleOk(GiveBackStep(s, t))
  {
    var s' := GiveBackStep(s, t);
    assert SinglePc(s.pcs[t]);
    if s.pcs[t].Rollback? && s.pcs[t].k < s.pcs[t].i {
      OneEntry(s.pcs[t].a, s.pcs[t].k, s.pcs[t].i);
    }
    hide Single, IsAmount;
    assert SinglePc(s'.pcs[t]) && !s'.gaveBack;
  }

  lemma OneEntry(a: Amount, k: nat, i: nat)
    requires Single(a) && k < i < |a| && a[i] > 0
    ensures a[k] <= 0
  {
  }

  predicate SingleRequests(acts: seq<Action>) {
    forall i :: 0 <= i < |acts| && acts[i].Guard? ==> Single(acts[i].a)
  }

  lemma {:induction false} SingleNeverGivesBack(states: seq<State>, acts: seq<Action>, k: nat)
    requires Run(states, acts) && k < |states| && SingleRequests(acts)
    ensures SingleOk(states[k])
  {
    hide Step, Enabled, Single;
    if k > 0 {
      SingleNeverGivesBack(states, acts, k - 1);
      RunInv(states, acts, k - 1);
      StepKeepsSingle(states[k - 1], acts[k - 1]);
    }
  }

  /** No wakeup is lost, for any number of quantities, if every request names at most one of them. */
  lemma SingleRequestsAreSeen(states: seq<State>, acts: seq<Action>, k: nat)
    requires Run(states, acts) && k < |states| && SingleRequests(acts)
    ensures !Forgotten(states[k])
  {
    hide Run, Single, Fits;
    SingleNeverGivesBack(states, acts, k);
    if states[k].handles != [] && Fits(states[k].quantities, states[k].handles[0].a) {
      FirstWaiterIsSeen(states, acts, k);
    }
  }

  // ---- two quantities or more -----------------------------------------------------------------

  /** `x` of the first quantity, `y` of the second, nothing of the others. */
  function Pad(x: int, y: int, n: nat): Amount {
    seq(n, i => if i == 0 then x else if i == 1 then y else 0)
  }

  lemma PadFacts(x: int, y: int, n: nat)
    requires n >= 2
    ensures |Pad(x, y, n)| == n && Pad(x, y, n)[0] == x && Pad(x, y, n)[1] == y
    ensures forall j :: 2 <= j < n ==> Pad(x, y, n)[j] == 0
    ensures x >= 0 && y >= 0 ==> IsAmount(Pad(x, y, n), n)
    ensures forall v :: Pad(x, y, n)[0 := v] == Pad(v, y, n)
  {
    forall v ensures Pad(x, y, n)[0 := v] == Pad(v, y, n) { }
  }

  function Last(states: seq<State>): State
    requires states != []
  {
    states[|states| - 1]
  }

  lemma Then(states: seq<State>, acts: seq<Action>, a: Action) returns (states': seq<State>, acts': seq<Action>)
    requires Run(states, acts) && Enabled(Last(states), a)
    ensures states' != [] && Run(states', acts') && states'[0] == states[0] && Last(states') == Step(Last(states), a)
  {
    hide Enabled, Step, Initial;
    acts' := acts + [a];
    states' := states + [Step(Last(states), a)];
  }

  function Two(q: int, p0: Pc, p1: Pc, n: nat): State {
    State(Pad(q, 0, n), None, [], [], [p0, p1], [], [], false)
  }

  /** The same, with activity 0 waiting for two units of the first quantity. */
  function Waits(q: int, p0: Pc, p1: Pc, n: nat): State {
    Two(q, p0, p1, n).(handles := [Waiter(0, Pad(2, 0, n))], queued := [0])
  }

  /** The loop of `acquire` over entries that are zero. */
  lemma {:induction false} AcquireZeros(states: seq<State>, acts: seq<Action>, t: nat, i: nat)
    returns (states': seq<State>, acts': seq<Action>)
    requires states != [] && Run(states, acts) && t < |Last(states).pcs| && Last(states).pcs[t].Acquire?
    requires var s := Last(states); var pc := s.pcs[t];
      && pc.i == i <= |pc.a| && IsAmount(pc.a, |s.quantities|)
      && forall j :: i <= j < |pc.a| ==> pc.a[j] == 0 <= s.quantities[j]
    ensures states' != [] && Run(states', acts') && states'[0] == states[0]
    ensures var s, pc := Last(states), Last(states).pcs[t];
      Last(states') == SetPc(s, t, Acquire(pc.ctx, pc.a, |pc.a|))
    decreases |Last(states).pcs[t].a| - i
  {
    hide Run, IsAmount;
    var s, pc := Last(states), Last(states).pcs[t];
    AmountFacts(pc.a, |s.quantities|);
    states', acts' := states, acts;
    if i < |pc.a| {
      states', acts' := Then(states, acts, Go(t));
      assert s.quantities[i := s.quantities[i] - pc.a[i]] == s.quantities;
      states', acts' := AcquireZeros(states', acts', t, i + 1);
    } else {
      assert s.pcs[t := Acquire(pc.ctx, pc.a, |pc.a|)] == s.pcs;
    }
  }

  /** The loop of `release` over entries that are zero. */
  lemma {:induction false} ReleaseZeros(states: seq<State>, acts: seq<Action>, t: nat, k: nat)
    returns (states': seq<State>, acts': seq<Action>)
    requires states != [] && Run(states, acts) && t < |Last(states).pcs| && Last(states).pcs[t].Release?
    requires var s := Last(states); var pc := s.pcs[t];
      pc.k == k <= |pc.a| && IsAmount(pc.a, |s.quantities|) && forall j :: k <= j < |pc.a| ==> pc.a[j] == 0
    ensures states' != [] && Run(states', acts') && states'[0] == states[0]
    ensures var s, pc := Last(states), Last(states).pcs[t];
      Last(states') == SetPc(s, t, Release(pc.a, |pc.a|))
    decreases |Last(states).pcs[t].a| - k
  {
    hide Run, IsAmount;
    var s, pc := Last(states), Last(states).pcs[t];
    AmountFacts(pc.a, |s.quantities|);
    states', acts' := states, acts;
    if k < |pc.a| {
      states', acts' := Then(states, acts, Go(t));
      assert s.quantities[k := s.quantities[k] + pc.a[k]] == s.quantities;
      states', acts' := ReleaseZeros(states', acts', t, k + 1);
    } else {
      assert s.pcs[t := Release(pc.a, |pc.a|)] == s.pcs;
    }
  }

  lemma Amounts(n: nat)
    requires n >= 2
    ensures forall x, y {:trigger Pad(x, y, n)} :: |Pad(x, y, n)| == n && Pad(x, y, n)[0] == x && Pad(x, y, n)[1] == y
    ensures forall x, y, v {:trigger Pad(x, y, n)[0 := v]} :: Pad(x, y, n)[0 := v] == Pad(v, y, n)
    ensures forall x, y {:trigger Pad(x, y, n)} :: x >= 0 && y >= 0 ==> IsAmount(Pad(x, y, n), n)
  {
    forall x, y ensures |Pad(x, y, n)| == n && Pad(x, y, n)[0] == x && Pad(x, y, n)[1] == y
                     && (forall v {:trigger Pad(x, y, n)[0 := v]} :: Pad(x, y, n)[0 := v] == Pad(v, y, n))
                     && (x >= 0 && y >= 0 ==> IsAmount(Pad(x, y, n), n))
    {
      PadFacts(x, y, n);
    }
  }

  /** The first quantity is taken in part: the others are not asked for. */
  lemma OneIsHeld(n: nat) returns (states: seq<State>, acts: seq<Action>)
    requires n >= 2
    ensures states != [] && Run(states, acts) && |states[0].quantities| == n
    ensures Last(states) == Two(1, Idle, Idle, n).(held := [Pad(1, 0, n)])
  {
    Amounts(n);
    PadFacts(1, 0, n);
    states, acts := [Two(2, Idle, Idle, n)], [];
    assert Run(states, acts);
    hide Run, IsAmount, Pad;
    states, acts := Then(states, acts, Guard(0, Pad(1, 0, n)));
    states, acts := Then(states, acts, Go(0));
    assert Last(states) == Two(1, Acquire(Probe, Pad(1, 0, n), 1), Idle, n);
    states, acts := AcquireZeros(states, acts, 0, 1);
    states, acts := Then(states, acts, Go(0));
  }

  lemma TwoAreAsked(n: nat, states: seq<State>, acts: seq<Action>)
    returns (states': seq<State>, acts': seq<Action>)
    requires n >= 2 && Run(states, acts)
    requires Last(states) == Two(1, Idle, Idle, n).(held := [Pad(1, 0, n)])
    ensures states' != [] && Run(states', acts') && states'[0] == states[0]
    ensures Last(states') == Two(1, Acquire(Queued, Pad(2, 0, n), 0), Idle, n).(held := [Pad(1, 0, n)], lock := Some(0))
  {
    Amounts(n);
    hide Run, IsAmount, Pad;
    states', acts' := states, acts;
    states', acts' := Then(states', acts', Guard(0, Pad(2, 0, n)));
    states', acts' := Then(states', acts', Go(0));
    states', acts' := Then(states', acts', Go(0));
    states', acts' := Then(states', acts', Go(0));
  }

  lemma FirstQueues(n: nat, states: seq<State>, acts: seq<Action>)
    returns (states': seq<State>, acts': seq<Action>)
    requires n >= 2 && Run(states, acts)
    requires Last(states) == Two(1, Acquire(Queued, Pad(2, 0, n), 0), Idle, n).(held := [Pad(1, 0, n)], lock := Some(0))
    ensures states' != [] && Run(states', acts') && states'[0] == states[0]
    ensures Last(states') == Waits(1, Idle, Idle, n).(held := [Pad(1, 0, n)])
  {
    Amounts(n);
    hide Run, IsAmount, Pad;
    states', acts' := states, acts;
    states', acts' := Then(states', acts', Go(0));
    states', acts' := Then(states', acts', Go(0));
    states', acts' := Then(states', acts', Go(0));
    states', acts' := Then(states', acts', Go(0));
  }

  lemma SecondIsRefused(n: nat, states: seq<State>, acts: seq<Action>)
    returns (states': seq<State>, acts': seq<Action>)
    requires n >= 2 && Run(states, acts)
    requires Last(states) == Waits(1, Idle, Idle, n).(held := [Pad(1, 0, n)])
    ensures states' != [] && Run(states', acts') && states'[0] == states[0]
    ensures Last(states') == Waits(0, Release(Pad(1, 0, n), 0), Rollback(Probe, Pad(1, 1, n), 0, 1), n)
  {
    Amounts(n);
    hide Run, IsAmount, Pad;
    states', acts' := states, acts;
    states', acts' := Then(states', acts', Guard(1, Pad(1, 1, n)));
    states', acts' := Then(states', acts', Go(1));
    states', acts' := Then(states', acts', Go(1));
    states', acts' := Then(states', acts', Return(0, 0));
  }

  lemma OneIsGivenBack(n: nat, states: seq<State>, acts: seq<Action>)
    returns (states': seq<State>, acts': seq<Action>)
    requires n >= 2 && Run(states, acts)
    requires Last(states) == Waits(0, Release(Pad(1, 0, n), 0), Rollback(Probe, Pad(1, 1, n), 0, 1), n)
    ensures states' != [] && Run(states', acts') && states'[0] == states[0]
    ensures Last(states') == Waits(1, ServeLock, Rollback(Probe, Pad(1, 1, n), 0, 1), n)
  {
    Amounts(n);
    hide Run, IsAmount, Pad;
    states', acts' := states, acts;
    PadFacts(1, 0, n);
    states', acts' := Then(states', acts', Go(0));
    states', acts' := ReleaseZeros(states', acts', 0, 1);
    states', acts' := Then(states', acts', Go(0));
  }

  lemma ServeFindsNothing(n: nat, states: seq<State>, acts: seq<Action>)
    returns (states': seq<State>, acts': seq<Action>)
    requires n >= 2 && Run(states, acts)
    requires Last(states) == Waits(1, ServeLock, Rollback(Probe, Pad(1, 1, n), 0, 1), n)
    ensures states' != [] && Run(states', acts') && states'[0] == states[0]
    ensures Last(states') == Waits(1, Idle, Rollback(Probe, Pad(1, 1, n), 0, 1), n)
  {
    Amounts(n);
    hide Run, IsAmount, Pad;
    states', acts' := states, acts;
    states', acts' := Then(states', acts', Go(0));
    states', acts' := Then(states', acts', Go(0));
    states', acts' := Then(states', acts', Go(0));
    states', acts' := Then(states', acts', Go(0));
  }

  lemma RollbackGivesBack(n: nat, states: seq<State>, acts: seq<Action>)
    returns (states': seq<State>, acts': seq<Action>)
    requires n >= 2 && Run(states, acts)
    requires Last(states) == Waits(1, Idle, Rollback(Probe, Pad(1, 1, n), 0, 1), n)
    ensures states' != [] && Run(states', acts') && states'[0] == states[0]
    ensures Last(states') == Waits(1, Idle, Acquire(Queued, Pad(1, 1, n), 1), n).(gaveBack := true, lock := Some(1))
  {
    Amounts(n);
    hide Run, IsAmount, Pad;
    states', acts' := states, acts;
    states', acts' := Then(states', acts', Go(1));
    states', acts' := Then(states', acts', Go(1));
    states', acts' := Then(states', acts', Go(1));
    states', acts' := Then(states', acts', Go(1));
  }

  lemma SecondIsRefusedAgain(n: nat, states: seq<State>, acts: seq<Action>)
    returns (states': seq<State>, acts': seq<Action>)
    requires n >= 2 && Run(states, acts)
    requires Last(states) == Waits(1, Idle, Acquire(Queued, Pad(1, 1, n), 1), n).(gaveBack := true, lock := Some(1))
    ensures states' != [] && Run(states', acts') && states'[0] == states[0]
    ensures Last(states') == Waits(2, Idle, Enqueue(Pad(1, 1, n)), n).(gaveBack := true, lock := Some(1))
  {
    Amounts(n);
    hide Run, IsAmount, Pad;
    states', acts' := states, acts;
    states', acts' := Then(states', acts', Go(1));
    states', acts' := Then(states', acts', Go(1));
    states', acts' := Then(states', acts', Go(1));
  }

  lemma SecondQueues(n: nat, states: seq<State>, acts: seq<Action>)
    returns (states': seq<State>, acts': seq<Action>)
    requires n >= 2 && Run(states, acts)
    requires Last(states) == Waits(2, Idle, Enqueue(Pad(1, 1, n)), n).(gaveBack := true, lock := Some(1))
    ensures states' != [] && Run(states', acts') && states'[0] == states[0]
    ensures Last(states') == Two(2, Idle, Idle, n).(
      handles := [Waiter(0, Pad(2, 0, n)), Waiter(1, Pad(1, 1, n))], queued := [0, 1], gaveBack := true)
  {
    Amounts(n);
    hide Run, IsAmount, Pad;
    states', acts' := states, acts;
    states', acts' := Then(states', acts', Go(1));
    states', acts' := Then(states', acts', Go(1));
  }

  /** With two quantities or more, some run ends with all activities idle, nothing held, and a waiter
      whose request fits still in the list. */
  lemma LostWakeup(n: nat) returns (states: seq<State>, acts: seq<Action>)
    requires n >= 2
    ensures states != [] && Run(states, acts) && |states[0].quantities| == n
    ensures var s := Last(states);
      Forgotten(s) && s.held == [] && forall t :: 0 <= t < |s.pcs| ==> s.pcs[t] == Idle
  {
    PadFacts(2, 0, n);
    hide Run, Pad;
    states, acts := OneIsHeld(n);
    states, acts := TwoAreAsked(n, states, acts);
    states, acts := FirstQueues(n, states, acts);
    states, acts := SecondIsRefused(n, states, acts);
    states, acts := OneIsGivenBack(n, states, acts);
    states, acts := ServeFindsNothing(n, states, acts);
    states, acts := RollbackGivesBack(n, states, acts);
    states, acts := SecondIsRefusedAgain(n, states, acts);
    states, acts := SecondQueues(n, states, acts);
  }

  ghost predicate LosesWakeup(states: seq<State>) {
    exists k :: 0 <= k < |states| && Forgotten(states[k])
  }

  /** Wakeups are never lost over `n` quantities if and only if `n` is at most one. */
  lemma NeverLostIffOne(n: nat)
    ensures (forall states: seq<State>, acts: seq<Action> ::
               Run(states, acts) && |states[0].quantities| == n ==> !LosesWakeup(states)) <==> n <= 1
  {
    if n >= 2 {
      var states, acts := LostWakeup(n);
      assert Forgotten(states[|states| - 1]);
      assert LosesWakeup(states);
    } else {
      forall states: seq<State>, acts: seq<Action> | Run(states, acts) && |states[0].quantities| == n
        ensures !LosesWakeup(states)
      {
        forall k | 0 <= k < |states| ensures !Forgotten(states[k]) {
          if states[k].handles != [] && Fits(states[k].quantities, states[k].handles[0].a) {
            FirstWaiterIsSeen(states, acts, k);
          }
        }
      }
    }
  }
}
