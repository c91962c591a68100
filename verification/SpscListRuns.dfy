/**
 The list of rings told by the calls of a run: everything that was ever given to `push` has been
 published or is in the hands of the push in progress, in order, and every `pop` has taken one element.
 */
module SpscListRuns {
  import opened Collections
  import opened SpscCounters
  import opened SpscList
  import Ring = SpscRing
  import Calls = SpscCalls

  /** What the push in progress has not yet published. */
  function InFlight<V>(s: State<V>): seq<V>
    requires Wellformed(s)
  {
    match s.prod
    case PIdle => []
    case Pushing(xs, _, before) =>
      var n := |s.rings[PushHead(s)].input|;
      if before <= n then Tail(xs, n - before) else []
    case Filling(_, xs, _) => xs
    case Linked(rest, _) => s.rings[|s.rings| - 1].input + rest
  }

  /** What action `a` gives to the list. */
  function Given<V>(a: Action<V>): seq<V> {
    if a.Push? then a.xs else []
  }

  /** Everything given to the list by the first `k` actions. */
  function AllGiven<V>(acts: seq<Action<V>>, k: nat): seq<V>
    requires k <= |acts|
  {
    if k == 0 then [] else AllGiven(acts, k - 1) + Given(acts[k - 1])
  }

  lemma InvShape<V>(s: State<V>)
    requires Inv(s)
    ensures Wellformed(s)
  {
    NeverBlocked(s);
  }

  // ---- the producer ------------------------------------------------------------------------------

  lemma RemainingSends<V>(s: State<V>, rest: seq<V>, many: bool)
    requires Wellformed(s) && (many || |rest| <= 1) && !s.prod.Linked?
    requires Wellformed(Remaining(s, rest, many))
    ensures Remaining(s, rest, many).input == s.input && InFlight(Remaining(s, rest, many)) == rest
  {
    hide Ring.Step;
  }

  lemma PushSends<V>(s: State<V>, xs: seq<V>, many: bool)
    requires Inv(s) && Enabled(s, Push(xs, many)) && Keeps(s, Push(xs, many), Horizon(s.ec))
    ensures var s' := Step(s, Push(xs, many)); Wellformed(s') && s'.input == s.input && InFlight(s') == xs
  {
    PushKeeps(s, xs, many);
    PushStarts(s.rings[PushHead(s)], xs, many);
    hide Ring.Inv, Ring.Step, BackOk, ConsOk, FifoOk, Progress, Horizon;
    InvShape(Step(s, Push(xs, many)));
  }

  /** The ring at push_head publishes part of what is in flight. */
  lemma PublishSends<V>(s: State<V>)
    requires Inv(s) && Enabled(s, Produce) && s.prod.Pushing? && !s.rings[PushHead(s)].prod.PIdle?
    ensures var s' := ProducerStep(s); Wellformed(s') && s'.input + InFlight(s') == s.input + InFlight(s)
  {
    var r := s.rings[PushHead(s)];
    assert Wellformed(ProducerStep(s)) by {
      PushingKeeps(s);
      InvShape(ProducerStep(s));
    }
    PublishFlight(s);
    hide Inv, Ring.Inv, ProducerStep, Wellformed, Tail;
    Rejoin(s.input, Tail(Ring.ProducerStep(r).input, |r.input|), InFlight(ProducerStep(s)));
  }

  lemma PublishFlight<V>(s: State<V>)
    requires Inv(s) && Enabled(s, Produce) && s.prod.Pushing? && !s.rings[PushHead(s)].prod.PIdle?
    requires Wellformed(ProducerStep(s))
    ensures var r := s.rings[PushHead(s)]; var s' := ProducerStep(s);
      && s'.input == s.input + Tail(Ring.ProducerStep(r).input, |r.input|)
      && InFlight(s) == Tail(Ring.ProducerStep(r).input, |r.input|) + InFlight(s')
  {
    var r := s.rings[PushHead(s)];
    hide Inv, Ring.Inv, ProducerStep, Ring.ProducerStep, Ring.Wellformed, Tail, Progress, InFlight;
    PublishIs(s);
    HeadFacts(s);
    RingPublishes(r, s.prod.xs, s.prod.many, s.prod.before);
    PushingFlight(s, r);
    PushingFlight(ProducerStep(s), Ring.ProducerStep(r));
  }

  lemma PushingFlight<V>(s: State<V>, r: Ring.State<V>)
    requires Wellformed(s) && s.prod.Pushing? && s.rings[PushHead(s)] == r && s.prod.before <= |r.input|
    ensures InFlight(s) == Tail(s.prod.xs, |r.input| - s.prod.before)
  {
    hide Tail;
  }

  lemma PublishIs<V>(s: State<V>)
    requires Enabled(s, Produce) && s.prod.Pushing? && !s.rings[PushHead(s)].prod.PIdle?
    ensures var h := PushHead(s); var r' := Ring.ProducerStep(s.rings[h]);
      ProducerStep(s) == s.(rings := s.rings[h := r'], input := s.input + Tail(r'.input, |s.rings[h].input|))
  {
    hide Ring.ProducerStep, Remaining, Tail;
  }

  lemma HeadFacts<V>(s: State<V>)
    requires Inv(s) && s.prod.Pushing?
    ensures Ring.Inv(s.rings[PushHead(s)]) && Progress(s.rings[PushHead(s)], s.prod.xs, s.prod.many, s.prod.before)
  {
    hide Ring.Inv, Progress, BackOk, ConsOk, FifoOk;
  }

  lemma RingPublishes<V>(r: Ring.State<V>, xs: seq<V>, many: bool, before: nat)
    requires Ring.Inv(r) && !r.prod.PIdle? && Progress(r, xs, many, before)
    ensures var r' := Ring.ProducerStep(r);
      && before <= |r.input| <= |r'.input| <= before + |xs|
      && Tail(xs, |r.input| - before) == Tail(r'.input, |r.input|) + Tail(xs, |r'.input| - before)
  {
    hide Ring.ProducerStep;
    PushSteps(r, xs, many, before);
    hide Ring.Inv;
    Split(xs, r.input, Ring.ProducerStep(r).input, before);
  }

  lemma Rejoin<V>(a: seq<V>, b: seq<V>, c: seq<V>)
    ensures a + b + c == a + (b + c)
  {
  }

  lemma Split<V>(xs: seq<V>, a: seq<V>, b: seq<V>, before: nat)
    requires before <= |a| <= |b| <= before + |xs| && a <= b
    requires a[before..] == xs[..|a| - before] && b[before..] == xs[..|b| - before]
    ensures Tail(b, |a|) + Tail(xs, |b| - before) == Tail(xs, |a| - before)
  {
    assert b[|a|..] == b[before..][|a| - before..];
  }

  lemma FinishSends<V>(s: State<V>)
    requires Inv(s) && Enabled(s, Produce) && s.prod.Pushing? && s.rings[PushHead(s)].prod.PIdle?
    ensures var s' := ProducerStep(s); Wellformed(s') && s'.input + InFlight(s') == s.input + InFlight(s)
  {
    assert Wellformed(ProducerStep(s)) by {
      FinishKeeps(s);
      InvShape(ProducerStep(s));
    }
    hide Inv, ProducerStep, Remaining, InFlight, Ring.Wellformed;
    FinishIs(s);
    RemainingSends(s, InFlight(s), s.prod.many);
  }

  lemma FinishIs<V>(s: State<V>)
    requires Enabled(s, Produce) && s.prod.Pushing? && s.rings[PushHead(s)].prod.PIdle?
    ensures (s.prod.many || |InFlight(s)| <= 1) && ProducerStep(s) == Remaining(s, InFlight(s), s.prod.many)
  {
    hide Remaining, Ring.Wellformed;
  }

  lemma FillSends<V>(s: State<V>)
    requires Inv(s) && Enabled(s, Produce) && s.prod.Filling? && !s.prod.ring.prod.PIdle?
    ensures var s' := ProducerStep(s); Wellformed(s') && s'.input + InFlight(s') == s.input + InFlight(s)
  {
    FillKeeps(s);
    InvShape(ProducerStep(s));
    hide Ring.Inv, BackOk, ConsOk, FifoOk, Ring.ProducerStep;
  }

  /** A new node holds the beginning of what is in flight. */
  lemma LinkSends<V>(s: State<V>)
    requires Inv(s) && Enabled(s, Produce) && s.prod.Filling? && s.prod.ring.prod.PIdle?
    ensures var s' := ProducerStep(s); Wellformed(s') && s'.input + InFlight(s') == s.input + InFlight(s)
  {
    var r := s.prod.ring;
    LinkKeeps(s);
    InvShape(ProducerStep(s));
    assert r.input[0..] == s.prod.xs[..|r.input|] && r.input[0..] == r.input;
    hide Ring.Inv, BackOk, ConsOk, FifoOk;
    assert s.prod.xs[..|r.input|] + s.prod.xs[|r.input|..] == s.prod.xs;
  }

  lemma MoveSends<V>(s: State<V>)
    requires Inv(s) && Enabled(s, Produce) && s.prod.Linked?
    ensures var s' := ProducerStep(s); Wellformed(s') && s'.input + InFlight(s') == s.input + InFlight(s)
  {
    var r := s.rings[|s.rings| - 1];
    assert Wellformed(ProducerStep(s)) by {
      MoveKeeps(s);
      InvShape(ProducerStep(s));
    }
    hide Inv, Ring.Step, Ring.Wellformed;
    Rejoin(s.input, r.input, s.prod.rest);
  }

  lemma ProduceSends<V>(s: State<V>)
    requires Inv(s) && Enabled(s, Produce)
    ensures var s' := ProducerStep(s); Wellformed(s') && s'.input + InFlight(s') == s.input + InFlight(s)
  {
    hide Inv, ProducerStep, InFlight;
    match s.prod
    case PIdle =>
    case Pushing(_, _, _) =>
      if s.rings[PushHead(s)].prod.PIdle? { FinishSends(s); } else { PublishSends(s); }
    case Filling(ring, _, _) => if ring.prod.PIdle? { LinkSends(s); } else { FillSends(s); }
    case Linked(_, _) => MoveSends(s);
  }

  // ---- the consumer ------------------------------------------------------------------------------

  /** The consumer moves on among the nodes without touching what the producer does. */
  ghost predicate Beside<V>(s: State<V>, s': State<V>) {
    && s'.prod == s.prod && s'.input == s.input
    && exists d :: 0 <= d <= |s.rings| && SameInputs(s.rings, s'.rings, d)
  }

  ghost predicate SameInputs<V>(a: seq<Ring.State<V>>, b: seq<Ring.State<V>>, d: nat) {
    |b| + d == |a| && forall i :: 0 <= i < |b| ==> b[i].input == a[i + d].input
  }

  lemma BesideKeeps<V>(s: State<V>, s': State<V>)
    requires Wellformed(s) && Wellformed(s') && Beside(s, s')
    ensures s'.input == s.input && InFlight(s') == InFlight(s)
  {
    var d: nat :| d <= |s.rings| && SameInputs(s.rings, s'.rings, d);
    assert s'.rings[PushHead(s')].input == s.rings[PushHead(s') + d].input;
    assert s'.rings[|s'.rings| - 1].input == s.rings[|s'.rings| - 1 + d].input;
  }

  lemma RingInputs<V>(r: Ring.State<V>, a: Ring.Action<V>)
    requires Ring.Enabled(r, a) && (Calls.StartsPop(a) || a.Consume?)
    ensures Ring.Step(r, a).input == r.input
    ensures a.Consume? ==> Ring.ConsumerStep(r) == Ring.Step(r, a)
  {
    hide Ring.StartEmptyCheck, Ring.ConsumerStep;
    CheckInputs(r);
    ConsumerInputs(r);
  }

  lemma CheckInputs<V>(r: Ring.State<V>)
    requires Ring.Wellformed(r)
    ensures forall n :: Ring.StartEmptyCheck(r, n).input == r.input
  {
    hide DiffCounter;
  }

  lemma ConsumerInputs<V>(r: Ring.State<V>)
    requires Ring.Wellformed(r)
    ensures Ring.ConsumerStep(r).input == r.input
  {
    hide Ring.SlotOf, StepCounter;
  }

  lemma SetRingBeside<V>(s: State<V>, i: nat, r: Ring.State<V>, s': State<V>)
    requires i < |s.rings| && r.input == s.rings[i].input && s'.rings == s.rings[i := r]
    requires s'.prod == s.prod && s'.input == s.input
    ensures Beside(s, s')
  {
    assert SameInputs(s.rings, s'.rings, 0);
  }

  lemma DeleteBeside<V>(s: State<V>, s': State<V>)
    requires |s.rings| > 1 && s'.rings == s.rings[1..] && s'.prod == s.prod && s'.input == s.input
    ensures Beside(s, s')
  {
    assert SameInputs(s.rings, s'.rings, 1);
  }

  lemma AskBeside<V>(s: State<V>, busy: Cons, answered: Cons)
    requires Wellformed(s) && Ring.Resting(s.rings[0].cons)
    ensures Beside(s, AskRing(s, busy, answered))
  {
    hide Ring.Step, Beside;
    RingInputs(s.rings[0], Ring.Check);
    SetRingBeside(s, 0, Ring.Step(s.rings[0], Ring.Check), AskRing(s, busy, answered));
  }

  lemma ConsumeBeside<V>(s: State<V>)
    requires Enabled(s, Consume)
    ensures Beside(s, ConsumerStep(s))
  {
    hide Ring.Step, Ring.ConsumerStep, Beside, Visible, AskRing, Ring.Wellformed;
    var s' := ConsumerStep(s);
    if s.cons.Done? {
      if PushHead(s) == 0 { SetRingBeside(s, 0, s.rings[0], s'); } else { AskBeside(s, Cleaning(true), CIdle); }
    } else if RingCall(s).Some? {
      var i, a := RingCall(s).value.0, RingCall(s).value.1;
      RingInputs(s.rings[i], a);
      if |s'.rings| < |s.rings| { DeleteBeside(s, s'); } else { SetRingBeside(s, i, Ring.Step(s.rings[i], a), s'); }
    } else {
      SetRingBeside(s, 0, s.rings[0], s');
    }
  }

  lemma CallBeside<V>(s: State<V>, a: Action<V>)
    requires Enabled(s, a) && (a.Ask? || a.Pop?)
    ensures Beside(s, Step(s, a))
  {
    hide AskRing, Beside, Ring.Wellformed;
    if a.Ask? { AskBeside(s, Asking, Ready); }
    else if PushHead(s) > 0 { AskBeside(s, Cleaning(false), Take); }
    else { SetRingBeside(s, 0, s.rings[0], Step(s, a)); }
  }

  // ---- whole runs --------------------------------------------------------------------------------

  lemma StepSends<V>(s: State<V>, a: Action<V>, s': State<V>)
    requires Inv(s) && Wellformed(s) && Enabled(s, a) && Keeps(s, a, Horizon(s.ec))
    requires s' == Step(s, a) && Wellformed(s')
    ensures s'.input + InFlight(s') == s.input + InFlight(s) + Given(a)
  {
    hide Inv, ProducerStep, ConsumerStep, AskRing, InFlight, Beside, Horizon, Keeps;
    if a.Push? {
      PushSends(s, a.xs, a.many);
      NothingInFlight(s);
      assert s.input + [] == s.input;
    } else {
      assert s.input + InFlight(s) + [] == s.input + InFlight(s);
      if a.Produce? {
        ProduceSends(s);
      } else {
        if a.Consume? { ConsumeBeside(s); } else { CallBeside(s, a); }
        BesideKeeps(s, s');
      }
    }
  }

  lemma NothingInFlight<V>(s: State<V>)
    requires Wellformed(s) && s.prod.PIdle?
    ensures InFlight(s) == []
  {
  }

  ghost predicate SoundRun<V>(states: seq<State<V>>, acts: seq<Action<V>>, k: nat) {
    && k < |states| && Capacity(states[0].ec) && CarefulRun(states, acts, Horizon(states[0].ec))
    && SoundUpTo(states, k)
  }

  lemma At<V>(states: seq<State<V>>, acts: seq<Action<V>>, k: nat)
    requires SoundRun(states, acts, k)
    ensures k < |states| == |acts| + 1 && Inv(states[k]) && Wellformed(states[k]) && states[k].ec == states[0].ec
    ensures k > 0 ==>
      && SoundRun(states, acts, k - 1) && Enabled(states[k - 1], acts[k - 1])
      && states[k] == Step(states[k - 1], acts[k - 1]) && Keeps(states[k - 1], acts[k - 1], Horizon(states[0].ec))
    ensures k == 0 ==> Initial(states[0])
  {
    hide Inv, Sound, Step, Horizon, Capacity, Enabled, Keeps, Initial, Wellformed;
    RunInv(states, acts, Horizon(states[0].ec), k);
    InvShape(states[k]);
  }

  /** In every run, what was published and what the push in progress still carries is exactly what was
      given to `push`, in order: nothing is dropped when a node is full. */
  lemma {:induction false} NothingDropped<V>(states: seq<State<V>>, acts: seq<Action<V>>, k: nat)
    requires SoundRun(states, acts, k)
    ensures |states| == |acts| + 1 && Wellformed(states[k])
    ensures states[k].input + InFlight(states[k]) == AllGiven(acts, k)
    ensures states[k].prod.PIdle? ==> states[k].input == AllGiven(acts, k)
  {
    hide SoundRun, Inv, Step, Enabled, Keeps, Horizon, Wellformed, InFlight;
    At(states, acts, k);
    if k == 0 {
      assert states[0].prod.PIdle?;
    } else {
      At(states, acts, k - 1);
      NothingDropped(states, acts, k - 1);
      StepSends(states[k - 1], acts[k - 1], states[k]);
    }
    if states[k].prod.PIdle? { NothingInFlight(states[k]); }
  }

  // ---- pops ----------------------------------------------------------------------------------------

  /** The number of `pop()` calls among the first `k` actions. */
  function Pops<V>(acts: seq<Action<V>>, k: nat): nat
    requires k <= |acts|
  {
    if k == 0 then 0 else Pops(acts, k - 1) + if acts[k - 1].Pop? then 1 else 0
  }

  /** A pop has been called and has not taken its element yet. */
  function Popping(c: Cons): nat {
    if c == Cleaning(false) || c.Take? || c.Taking? then 1 else 0
  }

  lemma StepTakes<V>(s: State<V>, a: Action<V>)
    requires Inv(s) && Enabled(s, a)
    ensures var s' := Step(s, a);
      |s'.output| + Popping(s'.cons) == |s.output| + Popping(s.cons) + if a.Pop? then 1 else 0
  {
    hide Inv, ConsumerStep, ProducerStep, Ring.Step;
    if a.Consume? { ConsumeTakes(s); }
    if a.Produce? { ProduceTakes(s); }
  }

  lemma ProduceTakes<V>(s: State<V>)
    requires Enabled(s, Produce)
    ensures ProducerStep(s).output == s.output && ProducerStep(s).cons == s.cons
  {
    hide Ring.ProducerStep, Ring.Step;
  }

  lemma ConsumeTakes<V>(s: State<V>)
    requires Inv(s) && Enabled(s, Consume)
    ensures |ConsumerStep(s).output| + Popping(ConsumerStep(s).cons) == |s.output| + Popping(s.cons)
  {
    if s.cons.Taking? {
      assert s.rings[0].cons.CRead? && Ring.Left(s.rings[0].cons) + |Ring.Got(s.rings[0].cons)| == 1;
      hide Inv, Ring.ConsumerStep, Ring.Wellformed, Tail;
      TakesOne(s.rings[0]);
    } else {
      hide Inv;
      OtherTakes(s);
    }
  }

  lemma OtherTakes<V>(s: State<V>)
    requires Enabled(s, Consume) && !s.cons.Taking?
    ensures ConsumerStep(s).output == s.output && Popping(ConsumerStep(s).cons) == Popping(s.cons)
  {
    hide Visible, Ring.Step, Ring.ConsumerStep, Ring.Wellformed, Tail, AskRing;
    if s.cons.Done? && PushHead(s) != 0 { AskTakes(s, Cleaning(true), CIdle); }
  }

  lemma AskTakes<V>(s: State<V>, busy: Cons, answered: Cons)
    requires Wellformed(s) && Ring.Resting(s.rings[0].cons)
    ensures var s' := AskRing(s, busy, answered); s'.output == s.output && (s'.cons == busy || s'.cons == answered)
  {
    hide Ring.Step;
  }

  lemma TakesOne<V>(r: Ring.State<V>)
    requires Ring.Wellformed(r) && r.cons.CRead? && Ring.Left(r.cons) + |Ring.Got(r.cons)| == 1
    ensures var r' := Ring.ConsumerStep(r);
      r'.cons.CIdle? ==> |Tail(r'.output, |r.output|)| == 1
  {
    hide StepCounter, Ring.SlotOf;
  }

  /** Every `pop()` takes exactly one element. */
  lemma {:induction false} EveryPopTakes<V>(states: seq<State<V>>, acts: seq<Action<V>>, k: nat)
    requires SoundRun(states, acts, k)
    ensures |states| == |acts| + 1 && |states[k].output| + Popping(states[k].cons) == Pops(acts, k)
  {
    hide SoundRun, Inv, Step, Enabled, Keeps, Horizon, Wellformed;
    At(states, acts, k);
    if k > 0 {
      At(states, acts, k - 1);
      EveryPopTakes(states, acts, k - 1);
      StepTakes(states[k - 1], acts[k - 1]);
    }
  }

  /** Between calls the list is one FIFO queue of everything ever pushed: as many elements as pops were
      made have left it, in the order in which they were given. */
  lemma ListIsOneQueue<V>(states: seq<State<V>>, acts: seq<Action<V>>, k: nat)
    requires SoundRun(states, acts, k) && states[k].prod.PIdle? && Popping(states[k].cons) == 0
    ensures |states| == |acts| + 1 && |states[k].output| == Pops(acts, k) <= |AllGiven(acts, k)|
    ensures forall i :: 0 <= i < Pops(acts, k) ==> states[k].output[i] == Some(AllGiven(acts, k)[i])
  {
    NothingDropped(states, acts, k);
    EveryPopTakes(states, acts, k);
    ListIsFifo(states, acts, k);
  }

  // ---- empty() ---------------------------------------------------------------------------------------

  /** `empty()` is in progress. */
  predicate Asked(c: Cons) {
    c.Asking? || c.SawEmpty? || c.SawOther? || c.AskingPush?
  }

  lemma AskOn<V>(s: State<V>, a: Action<V>)
    requires Enabled(s, a)
    ensures var s' := Step(s, a);
      && (a.Ask? ==> s'.answers == s.answers && (Asked(s'.cons) || s'.cons == Ready))
      && (Asked(s.cons) && !a.Ask? ==>
            || (s'.answers == s.answers && (Asked(s'.cons) || s'.cons == Ready))
            || (|s'.answers| == |s.answers| + 1 && s'.cons == CIdle))
  {
    hide Ring.Step, Ring.ConsumerStep, Ring.ProducerStep, Visible, Ring.Wellformed, Tail, ConsumerStep, ProducerStep;
    if a.Consume? && Asked(s.cons) { ConsumeAnswers(s); }
    if a.Produce? { ProduceTakes(s); ProduceAnswers(s); }
  }

  lemma ProduceAnswers<V>(s: State<V>)
    requires Enabled(s, Produce)
    ensures ProducerStep(s).answers == s.answers
  {
    hide Ring.ProducerStep, Ring.Step;
  }

  lemma ConsumeAnswers<V>(s: State<V>)
    requires Enabled(s, Consume) && Asked(s.cons)
    ensures var s' := ConsumerStep(s);
      || (s'.answers == s.answers && (Asked(s'.cons) || s'.cons == Ready))
      || (|s'.answers| == |s.answers| + 1 && s'.cons == CIdle)
  {
    hide Ring.Step, Ring.ConsumerStep, Visible, Ring.Wellformed, Tail, AskRing;
    match s.cons
    case Asking =>
    case SawEmpty(_) =>
    case SawOther =>
    case AskingPush(_) =>
    case _ =>
  }

  /** The call of `empty()` that action `i` starts is in progress before action `k`. */
  ghost predicate AskCall<V>(states: seq<State<V>>, acts: seq<Action<V>>, i: nat, k: nat) {
    i < k < |states| && i < |acts| && acts[i].Ask? && forall m :: i < m < k ==> Asked(states[m].cons)
  }

  /** Every call of `empty()` ends with an answer: false and an element promised, or true and recorded
      (`EmptyIsHonest` says that such answers are true). */
  lemma {:induction false} EveryAskAnswered<V>(states: seq<State<V>>, acts: seq<Action<V>>, i: nat, k: nat)
    requires Run(states, acts) && AskCall(states, acts, i, k)
    ensures || (states[k].answers == states[i].answers && (Asked(states[k].cons) || states[k].cons == Ready))
            || (|states[k].answers| == |states[i].answers| + 1 && states[k].cons == CIdle)
  {
    hide Run, Enabled, Step;
    RunStep(states, acts, k - 1);
    if k > i + 1 { EveryAskAnswered(states, acts, i, k - 1); }
    AskOn(states[k - 1], acts[k - 1]);
    if k > i + 1 && acts[k - 1].Ask? { NoNewAsk(states[k - 1], acts[k - 1]); }
  }

  lemma RunStep<V>(states: seq<State<V>>, acts: seq<Action<V>>, i: nat)
    requires Run(states, acts) && i + 1 < |states|
    ensures i < |acts| && Enabled(states[i], acts[i]) && states[i + 1] == Step(states[i], acts[i])
  {
  }

  lemma NoNewAsk<V>(s: State<V>, a: Action<V>)
    requires Enabled(s, a) && a.Ask?
    ensures !Asked(s.cons)
  {
  }
}
