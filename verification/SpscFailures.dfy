/**
 Where the ring fails, and that it fails nowhere else: capacities whose counters are misread at the
 wrap, and single pushes that trust a shadow older than `diff_counter` can see.
 */
module SpscFailures {
  import opened Collections
  import opened SpscCounters
  import opened SpscRing

  function Last<V>(states: seq<State<V>>): State<V>
    requires states != []
  {
    states[|states| - 1]
  }

  lemma Then<V>(states: seq<State<V>>, acts: seq<Action<V>>, lag: int, a: Action<V>)
    returns (states': seq<State<V>>, acts': seq<Action<V>>)
    requires states != [] && CarefulRun(states, acts, lag)
    requires Enabled(Last(states), a) && Keeps(Last(states), a, lag)
    ensures states' != [] && CarefulRun(states', acts', lag)
    ensures states'[0] == states[0] && Last(states') == Step(Last(states), a)
    ensures |states'| == |states| + 1 && states'[..|states|] == states
  {
    hide Initial, Step, Enabled, Keeps;
    acts' := acts + [a];
    states' := states + [Step(Last(states), a)];
  }

  // ---- one element in, one element out ---------------------------------------------------------

  /** All but the producer's side is as before, and one element was published. */
  ghost predicate Added<V>(s: State<V>, s': State<V>, x: V) {
    && Inv(s') && s'.ec == s.ec && s'.init == s.init && s'.prod == PIdle && s'.cons == s.cons
    && s'.input == s.input + [x] && s'.output == s.output && s'.pushSeen == s.pushSeen && s'.popSeen == s.popSeen
  }

  /** A bulk push of one element into a ring that is not full. */
  lemma AddOne<V>(states: seq<State<V>>, acts: seq<Action<V>>, lag: int, x: V)
    returns (states': seq<State<V>>, acts': seq<Action<V>>)
    requires states != [] && CarefulRun(states, acts, lag)
    requires var s := Last(states); Inv(s) && s.prod.PIdle? && |s.input| < |s.output| + s.ec
    ensures states' != [] && CarefulRun(states', acts', lag) && states'[0] == states[0]
    ensures Added(Last(states), Last(states'), x)
  {
    hide CarefulRun, Inv, ProducerStep, ConsumerStep;
    var s := Last(states);
    InvFacts(s);
    states', acts' := Then(states, acts, lag, PushMany([x]));
    PushManyKeeps(s, [x]);
    InvFacts(Last(states'));
    ToRoom(Last(states'));
    ProducerKeeps(Last(states'));
    states', acts' := Then(states', acts', lag, Produce);
    InvFacts(Last(states'));
    ToWrite(Last(states'), x);
    ProducerKeeps(Last(states'));
    states', acts' := Then(states', acts', lag, Produce);
    InvFacts(Last(states'));
    WritesLast(Last(states'), x);
    ProducerKeeps(Last(states'));
    states', acts' := Then(states', acts', lag, Produce);
    InvFacts(Last(states'));
    Publishes(Last(states'), x);
    ProducerKeeps(Last(states'));
    states', acts' := Then(states', acts', lag, Produce);
  }

  /** The producer's step changes only the producer's side. */
  ghost predicate SameBut<V>(s: State<V>, s': State<V>) {
    && s'.ec == s.ec && s'.init == s.init && s'.cons == s.cons && s'.input == s.input && s'.output == s.output
    && s'.pushSeen == s.pushSeen && s'.popSeen == s.popSeen
  }

  lemma ToRoom<V>(s: State<V>)
    requires Inv(s) && s.prod.PFull? && |s.input| < |s.output| + s.ec
    ensures var s' := ProducerStep(s); SameBut(s, s') && s'.prod == PRoom(s.prod.xs)
  {
    ProducerAnswers(s);
    hide Inv, Full;
  }

  lemma ToWrite<V>(s: State<V>, x: V)
    requires Inv(s) && s.prod == PRoom([x])
    ensures var s' := ProducerStep(s); SameBut(s, s') && s'.prod.PWrite? && s'.prod.todo == [x] && s'.prod.written == []
  {
    assert |s.input| < |s.output| + s.ec by { RoomLeft(s); }
    RoomAt(s);
    hide Inv, SlotOf, Span;
    assert [x][..1] == [x];
  }

  lemma RoomLeft<V>(s: State<V>)
    requires Inv(s) && s.prod.PRoom?
    ensures |s.input| < |s.output| + s.ec
  {
  }

  lemma WritesLast<V>(s: State<V>, x: V)
    requires Wellformed(s) && s.prod.PWrite? && s.prod.todo == [x] && s.prod.written == []
    ensures var s' := ProducerStep(s); SameBut(s, s') && s'.prod.PWrite? && s'.prod.todo == [] && s'.prod.written == [x]
  {
    assert [x][1..] == [] && [] + [x] == [x];
  }

  lemma Publishes<V>(s: State<V>, x: V)
    requires Wellformed(s) && s.prod.PWrite? && s.prod.todo == [] && s.prod.written == [x]
    ensures var s' := ProducerStep(s);
      SameBut(s, s'.(input := s.input)) && s'.input == s.input + [x] && s'.prod == PIdle
  {
    hide StepCounter;
  }

  /** One element was consumed, and the shadow was refreshed on the way. */
  ghost predicate Removed<V>(s: State<V>, s': State<V>, seen: nat) {
    && Inv(s') && s'.ec == s.ec && s'.init == s.init && s'.prod == s.prod && s'.cons == CIdle
    && s'.input == s.input && |s'.output| == |s.output| + 1 && s'.pushSeen == s.pushSeen && s'.popSeen == seen
  }

  /** `pop()` after a false answer. */
  lemma FinishPop<V>(states: seq<State<V>>, acts: seq<Action<V>>, lag: int)
    returns (states': seq<State<V>>, acts': seq<Action<V>>)
    requires states != [] && CarefulRun(states, acts, lag)
    requires var s := Last(states); Inv(s) && s.cons == CReady(None)
    ensures states' != [] && CarefulRun(states', acts', lag) && states'[0] == states[0]
    ensures Removed(Last(states), Last(states'), Last(states).popSeen)
  {
    hide CarefulRun, Inv, ProducerStep, ConsumerStep;
    var s := Last(states);
    InvFacts(s);
    PopKeeps(s);
    states', acts' := Then(states, acts, lag, Pop);
    InvFacts(Last(states'));
    ReadsOne(Last(states'));
    ConsumerKeeps(Last(states'));
    states', acts' := Then(states', acts', lag, Consume);
    InvFacts(Last(states'));
    Retires(Last(states'));
    ConsumerKeeps(Last(states'));
    states', acts' := Then(states', acts', lag, Consume);
  }

  ghost predicate SameButTaking<V>(s: State<V>, s': State<V>) {
    && s'.ec == s.ec && s'.init == s.init && s'.prod == s.prod && s'.input == s.input
    && s'.pushSeen == s.pushSeen && s'.popSeen == s.popSeen
  }

  lemma ReadsOne<V>(s: State<V>)
    requires Wellformed(s) && s.cons.CRead? && s.cons.left == 1 && s.cons.got == []
    ensures var s' := ConsumerStep(s);
      SameButTaking(s, s') && s'.output == s.output && s'.cons.CRead? && s'.cons.left == 0 && |s'.cons.got| == 1
  {
  }

  lemma Retires<V>(s: State<V>)
    requires Wellformed(s) && s.cons.CRead? && s.cons.left == 0 && |s.cons.got| == 1
    ensures var s' := ConsumerStep(s);
      SameButTaking(s, s') && |s'.output| == |s.output| + 1 && s'.cons == CIdle
  {
    hide StepCounter;
  }

  /** The first two steps of `empty()` when the shadow is level with the consumer. */
  lemma StartAsking<V>(states: seq<State<V>>, acts: seq<Action<V>>, lag: int)
    returns (states': seq<State<V>>, acts': seq<Action<V>>)
    requires states != [] && CarefulRun(states, acts, lag)
    requires var s := Last(states); Inv(s) && s.cons.CIdle? && s.popSeen == |s.output|
    ensures states' != [] && CarefulRun(states', acts', lag) && states'[0] == states[0]
    ensures var s, s' := Last(states), Last(states');
      Inv(s') && SameButTaking(s.(popSeen := |s.input|), s') && s'.output == s.output && s'.cons == CExact(None)
  {
    hide CarefulRun, Inv, ProducerStep, ConsumerStep;
    var s := Last(states);
    InvFacts(s);
    EmptyCheckKeeps(s, None);
    LevelShadow(s);
    states', acts' := Then(states, acts, lag, Check);
    InvFacts(Last(states'));
    ConsumerKeeps(Last(states'));
    Refreshes(Last(states'));
    states', acts' := Then(states', acts', lag, Consume);
  }

  lemma LevelShadow<V>(s: State<V>)
    requires Inv(s) && s.popSeen == |s.output|
    ensures StartEmptyCheck(s, None) == s.(cons := CRefresh(None))
  {
    DiffBehind(s.ec, s.init + s.popSeen, s.init + |s.output|);
    hide DiffCounter, Counter, SlotOf;
  }

  lemma Refreshes<V>(s: State<V>)
    requires Wellformed(s) && s.cons == CRefresh(None)
    ensures ConsumerStep(s) == s.(popShadow := s.push, popSeen := |s.input|, cons := CExact(None))
  {
  }

  /** The comparison at the end of `empty()` finds an element. */
  lemma FindsOne<V>(states: seq<State<V>>, acts: seq<Action<V>>, lag: int)
    returns (states': seq<State<V>>, acts': seq<Action<V>>)
    requires states != [] && CarefulRun(states, acts, lag)
    requires var s := Last(states); Inv(s) && s.cons == CExact(None) && |s.output| < |s.input|
    ensures states' != [] && CarefulRun(states', acts', lag) && states'[0] == states[0]
    ensures Inv(Last(states')) && Last(states') == Last(states).(cons := CReady(None))
  {
    hide CarefulRun, Inv, ProducerStep, ConsumerStep;
    var s := Last(states);
    InvFacts(s);
    ConsumerKeeps(s);
    ConsumerAnswers(s);
    Compares(s);
    states', acts' := Then(states, acts, lag, Consume);
  }

  lemma Compares<V>(s: State<V>)
    requires Wellformed(s) && s.cons == CExact(None)
    ensures ConsumerStep(s) == s.(cons := if s.pop == s.push then CIdle else CReady(None))
  {
  }

  // ---- many elements ---------------------------------------------------------------------------

  /** Both sides idle, everything consumed, the consumer's shadow level, the producer's from the start. */
  ghost predicate AtRest<V>(s: State<V>, ec: nat, init: nat, n: nat) {
    && Inv(s) && s.ec == ec && s.init == init && s.prod == PIdle && s.cons == CIdle
    && |s.input| == |s.output| == s.popSeen == n && s.pushSeen == 0
  }

  function Fresh<V>(ec: nat, init: nat): State<V> {
    State(ec, init, init, init, init, init, seq(ec, i => None), PIdle, CIdle, [], [], 0, 0)
  }

  /** `n` elements pushed in bulk and popped, one after the other: no single push refreshes the
      producer's shadow. */
  lemma {:induction false} Cycles<V>(ec: nat, init: nat, n: nat, lag: int, x: V)
    returns (states: seq<State<V>>, acts: seq<Action<V>>)
    requires Capacity(ec) && init < Modulus(ec)
    ensures states != [] && CarefulRun(states, acts, lag) && states[0].ec == ec && AtRest(Last(states), ec, init, n)
  {
    if n == 0 {
      states, acts := [Fresh(ec, init)], [];
      InitialInv(states[0]);
      hide Inv, Capacity;
    } else {
      states, acts := Cycles(ec, init, n - 1, lag, x);
      hide CarefulRun, Inv, Capacity;
      InvFacts(Last(states));
      states, acts := AddOne(states, acts, lag, x);
      states, acts := StartAsking(states, acts, lag);
      states, acts := FindsOne(states, acts, lag);
      states, acts := FinishPop(states, acts, lag);
    }
  }

  /** Fill the ring with `n` more elements. */
  lemma {:induction false} Fills<V>(states: seq<State<V>>, acts: seq<Action<V>>, lag: int, n: nat, x: V)
    returns (states': seq<State<V>>, acts': seq<Action<V>>)
    requires states != [] && CarefulRun(states, acts, lag)
    requires var s := Last(states); Inv(s) && s.prod.PIdle? && |s.input| + n <= |s.output| + s.ec
    ensures states' != [] && CarefulRun(states', acts', lag) && states'[0] == states[0]
    ensures var s, s' := Last(states), Last(states');
      && Inv(s') && s'.ec == s.ec && s'.init == s.init && s'.prod == PIdle && s'.cons == s.cons
      && |s'.input| == |s.input| + n && s'.output == s.output && s'.pushSeen == s.pushSeen
    decreases n
  {
    hide CarefulRun, Inv;
    states', acts' := states, acts;
    if n > 0 {
      states', acts' := AddOne(states, acts, lag, x);
      states', acts' := Fills(states', acts', lag, n - 1, x);
    }
  }

  // ---- what the clients expect -----------------------------------------------------------------

  /** The next write meets no live element, and the next read meets one. */
  ghost predicate Respected<V>(s: State<V>) {
    && Wellformed(s)
    && (s.prod.PWrite? && s.prod.todo != [] ==> s.ring[s.prod.w] == None)
    && (s.cons.CRead? && s.cons.left > 0 ==> s.ring[s.cons.r] != None)
  }

  ghost predicate AllRespected<V>(states: seq<State<V>>) {
    forall k :: 0 <= k < |states| ==> Respected(states[k])
  }

  // ---- capacities that are not safe ------------------------------------------------------------

  lemma UnsafeIsLarge(ec: nat)
    requires Capacity(ec) && !SafeCapacity(ec)
    ensures 3 <= ec && 0 < Limit(ec) == Modulus(ec) < Word
  {
    assert IsPow2(1) && IsPow2(2);
    Moduli(ec);
  }

  /** At the last counter before the wrap, an element that arrives between the two looks of `empty()`
      leaves the consumer with a shadow that lags by one across the wrap. */
  lemma ShadowAcrossWrap<V>(ec: nat, init: nat, lag: int, x: V)
    returns (states: seq<State<V>>, acts: seq<Action<V>>)
    requires Capacity(ec) && !SafeCapacity(ec) && init < Modulus(ec)
    ensures states != [] && CarefulRun(states, acts, lag) && states[0].ec == ec
    ensures var s := Last(states);
      && Inv(s) && s.ec == ec && s.prod == PIdle && s.cons == CIdle && |s.input| == |s.output| == s.popSeen + 1
      && s.init + |s.output| == Limit(ec)
  {
    UnsafeIsLarge(ec);
    states, acts := Cycles(ec, init, Limit(ec) - 1 - init, lag, x);
    hide CarefulRun, Inv, Capacity, SafeCapacity, Limit;
    states, acts := StartAsking(states, acts, lag);
    states, acts := AddOne(states, acts, lag, x);
    states, acts := FindsOne(states, acts, lag);
    states, acts := FinishPop(states, acts, lag);
  }

  lemma WrapCounters(ec: nat)
    requires Capacity(ec) && !SafeCapacity(ec)
    ensures 0 < Limit(ec) && Counter(ec, Limit(ec) - 1) == Limit(ec) - 1 && Counter(ec, Limit(ec)) == 0
  {
    UnsafeIsLarge(ec);
    hide Limit;
    ModUnique(Limit(ec), Limit(ec) - 1, 0, Limit(ec) - 1);
    ModUnique(Limit(ec), Limit(ec), 1, 0);
  }

  /** The misread shadow makes `empty()` answer false, and the pop that follows reads a vacant slot. */
  lemma Misread<V>(s: State<V>)
    requires Inv(s) && !SafeCapacity(s.ec) && s.cons == CIdle
    requires |s.input| == |s.output| == s.popSeen + 1 && s.init + |s.output| == Limit(s.ec)
    ensures StartEmptyCheck(s, None) == s.(cons := CReady(None))
    ensures s.prod.PIdle? ==> s.ring[SlotOf(s.ec, s.pop)] == None
  {
    hide SlotOf, DiffCounter, Limit, SafeCapacity, Counter;
    WrapCounters(s.ec);
    DiffMisread(s.ec);
    ProducerSlot(s);
    if s.prod.PIdle? { assert At(s, |s.output|) == None; }
  }

  /** For every capacity that is not safe, and wherever its counters start, some careful run without a
      single push pops from an empty ring. */
  lemma UnsafeCapacityBreaks<V>(ec: nat, init: nat, lag: int, x: V)
    returns (states: seq<State<V>>, acts: seq<Action<V>>)
    requires Capacity(ec) && !SafeCapacity(ec) && init < Modulus(ec)
    ensures states != [] && CarefulRun(states, acts, lag) && states[0].ec == ec
    ensures var s := Last(states); |s.input| == |s.output| && !Respected(s)
  {
    states, acts := ShadowAcrossWrap(ec, init, lag, x);
    var s := Last(states);
    Misread(s);
    InvFacts(s);
    hide CarefulRun, Inv, Capacity, SafeCapacity, Limit, SlotOf, DiffCounter, StartEmptyCheck, Horizon;
    states, acts := Then(states, acts, lag, Check);
    states, acts := Then(states, acts, lag, Pop);
  }

  // ---- shadows that are too old ----------------------------------------------------------------

  /** A full ring whose producer's shadow has lagged by `Horizon` elements since the start. */
  lemma FullAtHorizon<V>(ec: nat, lag: int, x: V) returns (states: seq<State<V>>, acts: seq<Action<V>>)
    requires Capacity(ec)
    ensures states != [] && CarefulRun(states, acts, lag) && states[0].ec == ec
    ensures var s := Last(states);
      && Inv(s) && s.ec == ec && s.init == 0 && s.prod == PIdle && s.cons == CIdle && s.pushSeen == 0
      && |s.input| == Horizon(ec) == |s.output| + ec
  {
    DiffAtHorizon(ec);
    hide CarefulRun, Inv, Capacity, Horizon;
    states, acts := Cycles(ec, 0, Horizon(ec) - ec, lag, x);
    states, acts := Fills(states, acts, lag, ec, x);
  }

  /** A single push then takes the full ring for one with room and aims at an unread element. */
  lemma StalePush<V>(s: State<V>, x: V)
    requires Inv(s) && s.init == 0 && s.prod == PIdle && s.cons == CIdle && s.pushSeen == 0
    requires |s.input| == Horizon(s.ec) == |s.output| + s.ec
    ensures Enabled(s, Push(x)) && Step(s, Push(x)) == s.(prod := PWrite(SlotOf(s.ec, s.push), [x], []))
    ensures s.ring[SlotOf(s.ec, s.push)] != None
  {
    DiffAtHorizon(s.ec);
    ProducerSlot(s);
    WrapSlot(s.ec, |s.output|);
    hide SlotOf, DiffCounter, Counter, Horizon;
    assert At(s, |s.output|) != None;
  }

  /** For every capacity some run, with one single push at a lag of exactly `Horizon`, overwrites an
      unread element; no counter has wrapped. */
  lemma StaleShadowBreaks<V>(ec: nat, x: V) returns (states: seq<State<V>>, acts: seq<Action<V>>)
    requires Capacity(ec)
    ensures states != [] && CarefulRun(states, acts, Horizon(ec) + 1) && states[0].ec == ec
    ensures var s := Last(states); s.ec == ec && Sound(s) && !Respected(s)
  {
    states, acts := FullAtHorizon(ec, Horizon(ec) + 1, x);
    var s := Last(states);
    StalePush(s, x);
    BelowLimit(ec);
    InvFacts(s);
    hide CarefulRun, Inv, Capacity, Horizon, SlotOf, SafeCapacity, Limit, Step, Enabled;
    states, acts := Then(states, acts, Horizon(ec) + 1, Push(x));
  }

  lemma BelowLimit(ec: nat)
    requires Capacity(ec)
    ensures SafeCapacity(ec) || Horizon(ec) < Limit(ec)
  {
    DiffAtHorizon(ec);
  }

  // ---- exactly when the ring is sound ----------------------------------------------------------

  /** Careful runs respect all slots, given a safe capacity or counters that have not wrapped. */
  lemma CarefulIsRespected<V>(states: seq<State<V>>, acts: seq<Action<V>>, lag: int, k: nat)
    requires k < |states| && Capacity(states[k].ec) && CarefulRun(states, acts, lag) && lag <= Horizon(states[k].ec)
    requires Sound(states[k])
    ensures Respected(states[k])
  {
    Relax(states, acts, lag, Horizon(states[k].ec));
    hide CarefulRun, Horizon, Sound, Capacity;
    SlotsAreRespected(states, acts, k);
  }

  lemma Relax<V>(states: seq<State<V>>, acts: seq<Action<V>>, lag: int, lag': int)
    requires CarefulRun(states, acts, lag) && lag <= lag'
    ensures CarefulRun(states, acts, lag')
  {
    hide Initial, Step, Enabled;
    forall i {:trigger acts[i]} | 0 <= i < |acts| ensures Keeps(states[i], acts[i], lag') {
      assert Keeps(states[i], acts[i], lag);
    }
  }

  lemma {:induction false} SoundToTheStart<V>(states: seq<State<V>>, acts: seq<Action<V>>, k: nat, m: nat)
    requires Run(states, acts) && k <= m < |states| && Capacity(states[m].ec) && Sound(states[m])
    ensures states[k].ec == states[m].ec && Sound(states[k])
    decreases m - k
  {
    hide Sound, Step, Enabled, Capacity;
    if k < m {
      SoundToTheStart(states, acts, k + 1, m);
      SoundBefore(states[k], acts[k]);
    }
  }

  /** The bound on the lag is exact: careful runs that have not wrapped into an unsafe capacity respect
      all slots if and only if single pushes stay below the horizon. */
  lemma SoundIffBelowHorizon<V>(ec: nat, lag: int, x: V)
    requires Capacity(ec)
    ensures (forall states: seq<State<V>>, acts: seq<Action<V>> ::
               states != [] && CarefulRun(states, acts, lag) && Last(states).ec == ec && Sound(Last(states))
               ==> AllRespected(states)) <==> lag <= Horizon(ec)
  {
    hide Horizon, Sound, Capacity, Respected, Keeps, Enabled, Step, Initial;
    if lag > Horizon(ec) {
      var states, acts := StaleShadowBreaks(ec, x);
      Relax(states, acts, Horizon(ec) + 1, lag);
      assert !Respected(states[|states| - 1]);
    } else {
      forall states: seq<State<V>>, acts: seq<Action<V>> |
        states != [] && CarefulRun(states, acts, lag) && Last(states).ec == ec && Sound(Last(states))
        ensures AllRespected(states)
      {
        forall k | 0 <= k < |states| ensures Respected(states[k]) {
          SoundToTheStart(states, acts, k, |states| - 1);
          CarefulIsRespected(states, acts, lag, k);
        }
      }
    }
  }

  /** Both conditions together: all runs whose single pushes keep to `lag` respect all slots if and only
      if the capacity is safe and `lag` is within the horizon. */
  lemma SoundExactlyWhen<V>(ec: nat, lag: int, x: V)
    requires Capacity(ec)
    ensures (forall states: seq<State<V>>, acts: seq<Action<V>> ::
               states != [] && CarefulRun(states, acts, lag) && Last(states).ec == ec
               ==> AllRespected(states)) <==> SafeCapacity(ec) && lag <= Horizon(ec)
  {
    SoundIffBelowHorizon(ec, lag, x);
    hide Horizon, Capacity, SafeCapacity, Respected, Keeps, Enabled, Step, Initial;
    if !SafeCapacity(ec) {
      UnsafeIsLarge(ec);
      var states, acts := UnsafeCapacityBreaks(ec, 0, lag, x);
      SameCapacity(states, acts, |states| - 1);
      assert !Respected(states[|states| - 1]);
    }
  }

  lemma {:induction false} SameCapacity<V>(states: seq<State<V>>, acts: seq<Action<V>>, k: nat)
    requires Run(states, acts) && k < |states|
    ensures states[k].ec == states[0].ec
  {
    if k > 0 {
      SameCapacity(states, acts, k - 1);
      OneCapacity(states[k - 1], acts[k - 1]);
      hide Step;
    }
  }

  lemma OneCapacity<V>(s: State<V>, a: Action<V>)
    requires Enabled(s, a)
    ensures Step(s, a).ec == s.ec
  {
    hide DiffCounter, StepCounter, Full, SlotOf;
  }
}
