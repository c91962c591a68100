/**
 The failures of the ring seen through the chained list: for a capacity that is not safe `empty()`
 answers false on an empty list, and a single push after too many bulk pushes overwrites an element.
 */
module SpscListFailures {
  import opened Collections
  import opened SpscCounters
  import opened SpscList
  import Ring = SpscRing
  import F = SpscFailures

  function Last<V>(states: seq<State<V>>): State<V>
    requires states != []
  {
    states[|states| - 1]
  }

  lemma Then<V>(states: seq<State<V>>, acts: seq<Action<V>>, lag: int, a: Action<V>)
    returns (states': seq<State<V>>, acts': seq<Action<V>>)
    requires states != [] && CarefulRun(states, acts, lag)
    requires Enabled(Last(states), a) && Keeps(Last(states), a, lag)
    ensures states' != [] && CarefulRun(states', acts', lag)
    ensures states'[0] == states[0] && Last(states') == Step(Last(states), a)
  {
    hide Initial, Step, Enabled, Keeps;
    acts' := acts + [a];
    states' := states + [Step(Last(states), a)];
  }

  /** A list of one node, which holds what a ring holds. */
  ghost predicate Single<V>(s: State<V>, r: Ring.State<V>) {
    && s.rings == [r] && s.ec == r.ec && !s.prod.Linked? && !s.prod.Filling? && Ring.Inv(r)
    && Capacity(s.ec) && s.counter < Modulus(s.ec)
  }

  lemma SingleWellformed<V>(s: State<V>, r: Ring.State<V>)
    requires Single(s, r)
    ensures Wellformed(s) && PushHead(s) == 0
  {
    Ring.InvFacts(r);
  }

  // ---- one element in, one element out -----------------------------------------------------------

  /** One producer step of the node, as a step of the list. */
  lemma Produces<V>(states: seq<State<V>>, acts: seq<Action<V>>, lag: int, r: Ring.State<V>)
    returns (states': seq<State<V>>, acts': seq<Action<V>>)
    requires states != [] && CarefulRun(states, acts, lag)
    requires var s := Last(states);
      && Single(s, r) && s.prod.Pushing? && !r.prod.PIdle? && s.prod.many
      && s.prod.before <= |r.input| <= s.prod.before + |s.prod.xs|
    ensures Ring.Wellformed(r) && states' != [] && CarefulRun(states', acts', lag) && states'[0] == states[0]
    ensures var s, s', r' := Last(states), Last(states'), Ring.ProducerStep(r);
      Single(s', r') && s'.prod == s.prod && s'.cons == s.cons && s'.ec == s.ec
  {
    hide CarefulRun, Ring.ProducerStep;
    var s := Last(states);
    SingleWellformed(s, r);
    Ring.ProducerKeeps(r);
    Ring.InvFacts(r);
    OneCapacity(r);
    hide Ring.Inv, Wellformed;
    states', acts' := Then(states, acts, lag, Produce);
  }

  lemma OneCapacity<V>(r: Ring.State<V>)
    requires Ring.Wellformed(r)
    ensures Ring.ProducerStep(r).ec == r.ec
  {
    hide StepCounter, Full, Ring.SlotOf;
  }

  /** A bulk push of one element. */
  lemma AddOne<V>(states: seq<State<V>>, acts: seq<Action<V>>, lag: int, r: Ring.State<V>, x: V)
    returns (states': seq<State<V>>, acts': seq<Action<V>>, r': Ring.State<V>)
    requires states != [] && CarefulRun(states, acts, lag)
    requires var s := Last(states); Single(s, r) && s.prod.PIdle? && r.prod.PIdle? && |r.input| < |r.output| + r.ec
    ensures states' != [] && CarefulRun(states', acts', lag) && states'[0] == states[0]
    ensures var s, s' := Last(states), Last(states');
      Single(s', r') && s'.prod.PIdle? && s'.cons == s.cons && F.Added(r, r', x)
  {
    hide CarefulRun, Ring.Inv, Ring.ProducerStep;
    states', acts', r' := StartsPush(states, acts, lag, r, x);
    F.ToRoom(r');
    Ring.ProducerKeeps(r');
    states', acts' := Produces(states', acts', lag, r');
    r' := Ring.ProducerStep(r');
    Ring.InvFacts(r');
    F.ToWrite(r', x);
    Ring.ProducerKeeps(r');
    states', acts' := Produces(states', acts', lag, r');
    r' := Ring.ProducerStep(r');
    Ring.InvFacts(r');
    F.WritesLast(r', x);
    Ring.ProducerKeeps(r');
    states', acts' := Produces(states', acts', lag, r');
    r' := Ring.ProducerStep(r');
    Ring.InvFacts(r');
    F.Publishes(r', x);
    Ring.ProducerKeeps(r');
    states', acts' := Produces(states', acts', lag, r');
    r' := Ring.ProducerStep(r');
    states', acts' := EndsPush(states', acts', lag, r', x);
  }

  lemma StartsPush<V>(states: seq<State<V>>, acts: seq<Action<V>>, lag: int, r: Ring.State<V>, x: V)
    returns (states': seq<State<V>>, acts': seq<Action<V>>, r': Ring.State<V>)
    requires states != [] && CarefulRun(states, acts, lag)
    requires var s := Last(states); Single(s, r) && s.prod.PIdle? && r.prod.PIdle?
    ensures states' != [] && CarefulRun(states', acts', lag) && states'[0] == states[0]
    ensures var s, s' := Last(states), Last(states');
      && Single(s', r') && s'.prod == Pushing([x], true, |r.input|) && s'.cons == s.cons
      && Ring.Inv(r') && r' == r.(prod := Ring.PFull([x]))
  {
    hide CarefulRun;
    var s := Last(states);
    SingleWellformed(s, r);
    Ring.InvFacts(r);
    Ring.PushManyKeeps(r, [x]);
    hide Ring.Inv, Wellformed;
    r' := r.(prod := Ring.PFull([x]));
    states', acts' := Then(states, acts, lag, Push([x], true));
  }

  lemma EndsPush<V>(states: seq<State<V>>, acts: seq<Action<V>>, lag: int, r: Ring.State<V>, x: V)
    returns (states': seq<State<V>>, acts': seq<Action<V>>)
    requires states != [] && CarefulRun(states, acts, lag)
    requires var s := Last(states);
      Single(s, r) && |r.input| > 0 && s.prod == Pushing([x], true, |r.input| - 1) && r.prod.PIdle?
    ensures states' != [] && CarefulRun(states', acts', lag) && states'[0] == states[0]
    ensures var s, s' := Last(states), Last(states'); Single(s', r) && s'.prod.PIdle? && s'.cons == s.cons
  {
    hide CarefulRun;
    var s := Last(states);
    SingleWellformed(s, r);
    hide Ring.Inv, Wellformed;
    assert [x][1..] == [];
    states', acts' := Then(states, acts, lag, Produce);
  }

  /** `empty()` starts and refreshes the shadow. */
  lemma StartsAsking<V>(states: seq<State<V>>, acts: seq<Action<V>>, lag: int, r: Ring.State<V>)
    returns (states': seq<State<V>>, acts': seq<Action<V>>, r': Ring.State<V>)
    requires states != [] && CarefulRun(states, acts, lag)
    requires var s := Last(states); Single(s, r) && s.cons.CIdle? && r.cons.CIdle? && r.popSeen == |r.output|
    ensures states' != [] && CarefulRun(states', acts', lag) && states'[0] == states[0]
    ensures var s, s' := Last(states), Last(states');
      && Single(s', r') && s'.prod == s.prod && s'.cons == Asking && Ring.Inv(r')
      && r' == r.(popShadow := r.push, popSeen := |r.input|, cons := Ring.CExact(None))
  {
    hide CarefulRun, Ring.ConsumerStep, Flatten;
    var s := Last(states);
    SingleWellformed(s, r);
    Ring.InvFacts(r);
    F.LevelShadow(r);
    Ring.EmptyCheckKeeps(r, None);
    hide Ring.StartEmptyCheck;
    var r1 := r.(cons := Ring.CRefresh(None));
    states', acts' := Then(states, acts, lag, Ask);
    assert Single(Last(states'), r1) && Last(states').cons == Asking;
    Ring.InvFacts(r1);
    SingleWellformed(Last(states'), r1);
    Ring.ConsumerKeeps(r1);
    F.Refreshes(r1);
    hide Ring.Inv, Wellformed;
    r' := r.(popShadow := r.push, popSeen := |r.input|, cons := Ring.CExact(None));
    states', acts' := Then(states', acts', lag, Consume);
  }

  /** `empty()` finds an element. */
  lemma FindsOne<V>(states: seq<State<V>>, acts: seq<Action<V>>, lag: int, r: Ring.State<V>)
    returns (states': seq<State<V>>, acts': seq<Action<V>>, r': Ring.State<V>)
    requires states != [] && CarefulRun(states, acts, lag)
    requires var s := Last(states);
      Single(s, r) && s.cons.Asking? && r.cons == Ring.CExact(None) && |r.output| < |r.input|
    ensures states' != [] && CarefulRun(states', acts', lag) && states'[0] == states[0]
    ensures var s, s' := Last(states), Last(states');
      && Single(s', r') && s'.prod == s.prod && s'.cons == Ready && Ring.Inv(r') && r' == r.(cons := Ring.CReady(None))
  {
    hide CarefulRun, Ring.ConsumerStep, Flatten;
    var s := Last(states);
    SingleWellformed(s, r);
    Ring.InvFacts(r);
    Ring.ConsumerKeeps(r);
    Ring.ConsumerAnswers(r);
    F.Compares(r);
    hide Ring.Inv, Wellformed;
    r' := r.(cons := Ring.CReady(None));
    states', acts' := Then(states, acts, lag, Consume);
  }

  /** `pop()` up to the call of the node's `pop()`. */
  lemma StartsPop<V>(states: seq<State<V>>, acts: seq<Action<V>>, lag: int, r: Ring.State<V>)
    returns (states': seq<State<V>>, acts': seq<Action<V>>)
    requires states != [] && CarefulRun(states, acts, lag)
    requires var s := Last(states);
      && s.rings == [r] && s.ec == r.ec && Ring.Wellformed(r) && s.counter < Modulus(s.ec)
      && !s.prod.Linked? && !s.prod.Filling? && s.cons == Ready && r.cons == Ring.CReady(None)
    ensures states' != [] && CarefulRun(states', acts', lag) && states'[0] == states[0]
    ensures var s, s' := Last(states), Last(states');
      && s'.rings == [Ring.Step(r, Ring.Pop)] && s' == s.(rings := s'.rings, cons := Taking)
  {
    hide CarefulRun, Flatten;
    states', acts' := Then(states, acts, lag, Pop);
    assert Last(states') == Last(states).(cons := Take);
    states', acts' := Then(states', acts', lag, Consume);
  }

  lemma FinishPop<V>(states: seq<State<V>>, acts: seq<Action<V>>, lag: int, r: Ring.State<V>)
    returns (states': seq<State<V>>, acts': seq<Action<V>>, r': Ring.State<V>)
    requires states != [] && CarefulRun(states, acts, lag)
    requires var s := Last(states); Single(s, r) && s.cons == Ready && r.cons == Ring.CReady(None)
    ensures states' != [] && CarefulRun(states', acts', lag) && states'[0] == states[0]
    ensures var s, s' := Last(states), Last(states');
      Single(s', r') && s'.prod == s.prod && s'.cons == CIdle && F.Removed(r, r', r.popSeen)
  {
    hide CarefulRun, Ring.Inv, Ring.ConsumerStep;
    Ring.InvFacts(r);
    states', acts' := StartsPop(states, acts, lag, r);
    Ring.PopKeeps(r);
    r' := Ring.Step(r, Ring.Pop);
    Ring.InvFacts(r');
    F.ReadsOne(r');
    Ring.ConsumerKeeps(r');
    states', acts' := TakesStep(states', acts', lag, r');
    r' := Ring.ConsumerStep(r');
    Ring.InvFacts(r');
    F.Retires(r');
    Ring.ConsumerKeeps(r');
    states', acts' := TakesStep(states', acts', lag, r');
    r' := Ring.ConsumerStep(r');
    states', acts' := EndsPop(states', acts', lag, r');
  }

  lemma TakesStep<V>(states: seq<State<V>>, acts: seq<Action<V>>, lag: int, r: Ring.State<V>)
    returns (states': seq<State<V>>, acts': seq<Action<V>>)
    requires states != [] && CarefulRun(states, acts, lag)
    requires var s := Last(states); Single(s, r) && s.cons == Taking && r.cons.CRead?
    requires Ring.Wellformed(r) && Ring.Inv(Ring.ConsumerStep(r)) && Ring.ConsumerStep(r).ec == r.ec
    ensures states' != [] && CarefulRun(states', acts', lag) && states'[0] == states[0]
    ensures var s, s', r' := Last(states), Last(states'), Ring.ConsumerStep(r);
      Single(s', r') && s'.prod == s.prod && s'.cons == if r'.cons.CIdle? then Done else Taking
  {
    hide CarefulRun, Ring.ConsumerStep, Flatten;
    SingleWellformed(Last(states), r);
    hide Ring.Inv, Wellformed;
    states', acts' := Then(states, acts, lag, Consume);
  }

  lemma EndsPop<V>(states: seq<State<V>>, acts: seq<Action<V>>, lag: int, r: Ring.State<V>)
    returns (states': seq<State<V>>, acts': seq<Action<V>>)
    requires states != [] && CarefulRun(states, acts, lag)
    requires var s := Last(states); Single(s, r) && s.cons == Done && r.cons.CIdle?
    ensures states' != [] && CarefulRun(states', acts', lag) && states'[0] == states[0]
    ensures Last(states') == Last(states).(cons := CIdle)
  {
    hide CarefulRun, Flatten;
    SingleWellformed(Last(states), r);
    Ring.InvFacts(r);
    hide Ring.Inv, Wellformed;
    states', acts' := Then(states, acts, lag, Consume);
  }

  // ---- many elements -----------------------------------------------------------------------------

  lemma {:induction false} Cycles<V>(ec: nat, n: nat, lag: int, x: V)
    returns (states: seq<State<V>>, acts: seq<Action<V>>, r: Ring.State<V>)
    requires Capacity(ec)
    ensures states != [] && CarefulRun(states, acts, lag) && states[0].ec == ec
    ensures var s := Last(states); Single(s, r) && s.prod.PIdle? && s.cons.CIdle? && F.AtRest(r, ec, 0, n)
  {
    if n == 0 {
      states, acts, r := Start(ec, lag);
    } else {
      states, acts, r := Cycles(ec, n - 1, lag, x);
      hide CarefulRun, Ring.Inv, Capacity, Ring.ConsumerStep, Ring.ProducerStep;
      Ring.InvFacts(r);
      states, acts, r := AddOne(states, acts, lag, r, x);
      states, acts, r := StartsAsking(states, acts, lag, r);
      states, acts, r := FindsOne(states, acts, lag, r);
      states, acts, r := FinishPop(states, acts, lag, r);
    }
  }

  lemma Start<V>(ec: nat, lag: int) returns (states: seq<State<V>>, acts: seq<Action<V>>, r: Ring.State<V>)
    requires Capacity(ec)
    ensures states != [] && CarefulRun(states, acts, lag) && states[0].ec == ec
    ensures var s := Last(states); Single(s, r) && s.prod.PIdle? && s.cons.CIdle? && F.AtRest(r, ec, 0, 0)
  {
    Moduli(ec);
    r := NewRing(ec, 0);
    Ring.InitialInv(r);
    CounterStays(ec, 0);
    hide Ring.Inv, StepCounter;
    states, acts := [State(ec, [r], StepCounter(ec, 0, ec), PIdle, CIdle, [], [], [])], [];
  }

  lemma {:induction false} Fills<V>(states: seq<State<V>>, acts: seq<Action<V>>, lag: int, r: Ring.State<V>,
    n: nat, x: V)
    returns (states': seq<State<V>>, acts': seq<Action<V>>, r': Ring.State<V>)
    requires states != [] && CarefulRun(states, acts, lag)
    requires var s := Last(states); Single(s, r) && s.prod.PIdle? && r.prod.PIdle? && |r.input| + n <= |r.output| + r.ec
    ensures states' != [] && CarefulRun(states', acts', lag) && states'[0] == states[0]
    ensures var s, s' := Last(states), Last(states');
      && Single(s', r') && s'.prod.PIdle? && s'.cons == s.cons && Ring.Inv(r') && r'.ec == r.ec && r'.init == r.init
      && r'.prod == Ring.PIdle && r'.cons == r.cons
      && |r'.input| == |r.input| + n && r'.output == r.output && r'.pushSeen == r.pushSeen
    decreases n
  {
    hide CarefulRun, Ring.Inv, Capacity;
    states', acts', r' := states, acts, r;
    if n > 0 {
      states', acts', r' := AddOne(states, acts, lag, r, x);
      states', acts', r' := Fills(states', acts', lag, r', n - 1, x);
    }
  }

  // ---- the two failures --------------------------------------------------------------------------

  /** Every ring of every state is written only where vacant and read only where an element is. */
  ghost predicate Respected<V>(s: State<V>) {
    forall i :: 0 <= i < |s.rings| ==> F.Respected(s.rings[i])
  }

  ghost predicate AllRespected<V>(states: seq<State<V>>) {
    forall k :: 0 <= k < |states| ==> Respected(states[k])
  }

  /** For every capacity that is not safe some careful run, without a single push, has `empty()` answer
      false on an empty list and pops from it. */
  lemma UnsafeCapacityBreaks<V>(ec: nat, lag: int, x: V) returns (states: seq<State<V>>, acts: seq<Action<V>>)
    requires Capacity(ec) && !SafeCapacity(ec)
    ensures states != [] && CarefulRun(states, acts, lag) && states[0].ec == ec
    ensures var s := Last(states); 0 <= PushHead(s) < |s.rings| && Visible(s) == [] && s.cons.Taking? && !Respected(s)
  {
    F.UnsafeIsLarge(ec);
    var r;
    states, acts, r := Cycles(ec, Limit(ec) - 1, lag, x);
    hide CarefulRun, Ring.Inv, Capacity, SafeCapacity, Limit;
    states, acts, r := StartsAsking(states, acts, lag, r);
    states, acts, r := AddOne(states, acts, lag, r, x);
    states, acts, r := FindsOne(states, acts, lag, r);
    states, acts, r := FinishPop(states, acts, lag, r);
    states, acts := PopsNothing(states, acts, lag, r);
  }

  /** The node is empty, the counters have just wrapped: `empty()` answers false. */
  ghost predicate AtMisread<V>(s: State<V>, r: Ring.State<V>) {
    && Single(s, r) && !SafeCapacity(r.ec) && s.prod.PIdle? && s.cons.CIdle? && r.prod.PIdle? && r.cons == Ring.CIdle
    && |r.input| == |r.output| == r.popSeen + 1 && r.init + |r.output| == Limit(r.ec)
  }

  lemma AsksWrongly<V>(states: seq<State<V>>, acts: seq<Action<V>>, lag: int, r: Ring.State<V>)
    returns (states': seq<State<V>>, acts': seq<Action<V>>)
    requires states != [] && CarefulRun(states, acts, lag) && AtMisread(Last(states), r)
    ensures states' != [] && CarefulRun(states', acts', lag) && states'[0] == states[0]
    ensures Last(states') == Last(states).(rings := [r.(cons := Ring.CReady(None))], cons := Ready)
  {
    F.Misread(r);
    SingleWellformed(Last(states), r);
    Ring.InvFacts(r);
    hide CarefulRun, Ring.Inv, SafeCapacity, Limit, DiffCounter, Ring.SlotOf, Ring.StartEmptyCheck, Flatten, Capacity;
    states', acts' := Then(states, acts, lag, Ask);
  }

  lemma ReadsVacant<V>(r: Ring.State<V>)
    requires Ring.Inv(r) && !SafeCapacity(r.ec) && r.prod.PIdle? && r.cons == Ring.CIdle
    requires |r.input| == |r.output| == r.popSeen + 1 && r.init + |r.output| == Limit(r.ec)
    ensures var r' := r.(cons := Ring.CReady(None));
      && Ring.Wellformed(r') && !F.Respected(Ring.Step(r', Ring.Pop))
      && Ring.Step(r', Ring.Pop).input == r.input && Ring.Step(r', Ring.Pop).output == r.output
  {
    F.Misread(r);
    Ring.InvFacts(r);
    hide Ring.Inv, SafeCapacity, Limit, DiffCounter, Ring.SlotOf, Ring.StartEmptyCheck, Capacity;
  }

  lemma NothingVisible<V>(s: State<V>, r: Ring.State<V>)
    requires s.rings == [r] && !s.prod.Linked? && |r.input| == |r.output|
    ensures PushHead(s) == 0 && Visible(s) == []
  {
    assert s.rings[..1] == [r];
    FlattenOne(r);
  }

  lemma PopsNothing<V>(states: seq<State<V>>, acts: seq<Action<V>>, lag: int, r: Ring.State<V>)
    returns (states': seq<State<V>>, acts': seq<Action<V>>)
    requires states != [] && CarefulRun(states, acts, lag) && AtMisread(Last(states), r)
    ensures states' != [] && CarefulRun(states', acts', lag) && states'[0] == states[0]
    ensures var s := Last(states'); 0 <= PushHead(s) < |s.rings| && Visible(s) == [] && s.cons.Taking? && !Respected(s)
  {
    ReadsVacant(r);
    hide CarefulRun, Ring.Inv, Ring.Step, Ring.Wellformed, F.Respected, SafeCapacity, Limit, Capacity, Visible;
    states', acts' := AsksWrongly(states, acts, lag, r);
    states', acts' := StartsPop(states', acts', lag, r.(cons := Ring.CReady(None)));
    var s := Last(states');
    NothingVisible(s, s.rings[0]);
    assert !F.Respected(s.rings[0]);
  }

  /** For every capacity some run, with one single push at a lag of exactly `Horizon` in its node,
      overwrites an unread element; no counter has wrapped. */
  lemma StaleShadowBreaks<V>(ec: nat, x: V) returns (states: seq<State<V>>, acts: seq<Action<V>>)
    requires Capacity(ec)
    ensures states != [] && CarefulRun(states, acts, Horizon(ec) + 1) && states[0].ec == ec
    ensures var s := Last(states); s.ec == ec && !Respected(s)
  {
    DiffAtHorizon(ec);
    hide CarefulRun, Ring.Inv, Capacity, Horizon;
    var r;
    states, acts, r := Cycles(ec, Horizon(ec) - ec, Horizon(ec) + 1, x);
    states, acts, r := Fills(states, acts, Horizon(ec) + 1, r, ec, x);
    states, acts := PushesOver(states, acts, r, x);
  }

  lemma PushesOver<V>(states: seq<State<V>>, acts: seq<Action<V>>, r: Ring.State<V>, x: V)
    returns (states': seq<State<V>>, acts': seq<Action<V>>)
    requires Capacity(r.ec) && states != [] && CarefulRun(states, acts, Horizon(r.ec) + 1)
    requires var s := Last(states); Single(s, r) && s.prod.PIdle? && s.cons.CIdle?
    requires r.init == 0 && r.prod == Ring.PIdle && r.cons == Ring.CIdle && r.pushSeen == 0
    requires |r.input| == Horizon(r.ec) == |r.output| + r.ec
    ensures states' != [] && CarefulRun(states', acts', Horizon(r.ec) + 1) && states'[0] == states[0]
    ensures Last(states').ec == r.ec && !Respected(Last(states'))
  {
    var s := Last(states);
    F.StalePush(r, x);
    SingleWellformed(s, r);
    Ring.InvFacts(r);
    hide CarefulRun, Ring.Inv, Capacity, Horizon, Ring.SlotOf, Ring.Step, Flatten;
    states', acts' := Then(states, acts, Horizon(r.ec) + 1, Push([x], false));
    assert !F.Respected(Last(states').rings[0]);
  }

  // ---- exactly when the list is sound ------------------------------------------------------------

  lemma RunRespected<V>(states: seq<State<V>>, acts: seq<Action<V>>, k: nat)
    requires k < |states| && Capacity(states[0].ec) && CarefulRun(states, acts, Horizon(states[0].ec))
      && SoundUpTo(states, k)
    ensures Respected(states[k])
  {
    hide CarefulRun, Horizon, Capacity, SoundUpTo;
    forall i | 0 <= i < |states[k].rings| ensures F.Respected(states[k].rings[i]) {
      SlotsAreRespected(states, acts, k, i);
    }
  }

  lemma {:induction false} CapacityStays<V>(states: seq<State<V>>, acts: seq<Action<V>>, k: nat)
    requires Run(states, acts) && k < |states|
    ensures states[k].ec == states[0].ec
  {
    hide Step, Enabled, Initial;
    if k > 0 {
      CapacityStays(states, acts, k - 1);
      SameCapacity(states[k - 1], acts[k - 1]);
    }
  }

  lemma Relax<V>(states: seq<State<V>>, acts: seq<Action<V>>, lag: int, lag': int)
    requires CarefulRun(states, acts, lag) && lag <= lag'
    ensures CarefulRun(states, acts, lag')
  {
    hide Initial, Step, Enabled;
    forall i {:trigger acts[i]} | 0 <= i < |acts| ensures Keeps(states[i], acts[i], lag') {
      assert Keeps(states[i], acts[i], lag);
    }
  }

  lemma SafeRuns<V>(states: seq<State<V>>, acts: seq<Action<V>>)
    requires states != [] && Capacity(states[0].ec) && SafeCapacity(states[0].ec)
    requires CarefulRun(states, acts, Horizon(states[0].ec))
    ensures AllRespected(states)
  {
    hide Horizon, Capacity, SafeCapacity, Respected, Keeps, Enabled, Step, Initial;
    forall k | 0 <= k < |states|
      ensures Capacity(states[k].ec) && Sound(states[k])
    {
      CapacityStays(states, acts, k);
    }
    forall k | 0 <= k < |states| ensures Respected(states[k]) { RunRespected(states, acts, k); }
  }

  /** All runs of the list whose single pushes keep to `lag` respect all slots if and only if the
      capacity is safe and `lag` is within the horizon. */
  lemma SoundExactlyWhen<V>(ec: nat, lag: int, x: V)
    requires Capacity(ec)
    ensures (forall states: seq<State<V>>, acts: seq<Action<V>> ::
               states != [] && CarefulRun(states, acts, lag) && states[0].ec == ec
               ==> AllRespected(states)) <==> SafeCapacity(ec) && lag <= Horizon(ec)
  {
    hide Horizon, Capacity, SafeCapacity, Respected, CarefulRun;
    if !SafeCapacity(ec) {
      var states, acts := UnsafeCapacityBreaks(ec, lag, x);
      assert !Respected(states[|states| - 1]);
    } else if lag > Horizon(ec) {
      var states, acts := StaleShadowBreaks(ec, x);
      Relax(states, acts, Horizon(ec) + 1, lag);
      assert !Respected(states[|states| - 1]);
    } else {
      forall states: seq<State<V>>, acts: seq<Action<V>> |
        states != [] && CarefulRun(states, acts, lag) && states[0].ec == ec
        ensures AllRespected(states)
      {
        Relax(states, acts, lag, Horizon(ec));
        SafeRuns(states, acts);
      }
    }
  }
}
