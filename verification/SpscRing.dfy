/**
 The single-producer single-consumer ring (`iris_queue_t` with shadow counters).  One producer runs
 `push`, one consumer runs `empty` and `pop`, and every access to a counter or slot that the other
 side can see is a step of its own.  `input` and `output` record what was published and consumed.
 */
module SpscRing {
  import opened Collections
  import opened SpscCounters

  datatype Prod<V> =
    | PIdle
    | PRefresh(x: V)                                          // push: the shadow says it might be full
    | PExact(x: V)                                            // push: about to evaluate full()
    | PFull(xs: seq<V>)                                       // bulk push: about to evaluate full()
    | PRoom(xs: seq<V>)                                       // bulk push: about to load pop_count for rindex
    | PWrite(w: nat, todo: seq<V>, written: seq<V>)           // filling slots from w on

  datatype Cons<V> =
    | CIdle
    | CRefresh(many: Option<nat>)                             // empty(): about to refresh the shadow
    | CExact(many: Option<nat>)                               // empty(): about to compare the counters
    | CReady(many: Option<nat>)                               // empty() has answered false; None: pop() may follow
    | CShadow(left: nat)                                      // bulk pop: windex loaded, shadow to be set
    | CRead(r: nat, left: nat, got: seq<Option<V>>)           // taking slots from r on

  datatype State<V> = State(
    ec: nat, init: nat,                                       // element_count, init_count
    push: nat, pop: nat, pushShadow: nat, popShadow: nat,
    ring: seq<Option<V>>,                                     // None: no live element in the slot
    prod: Prod<V>, cons: Cons<V>,
    // history
    input: seq<V>, output: seq<Option<V>>, pushSeen: nat, popSeen: nat)

  datatype Action<V> =
    | Push(x: V) | PushMany(xs: seq<V>)
    | Check                                                   // empty()
    | Pop                                                     // pop(), which asks nothing itself
    | PopMany(n: nat)
    | Produce | Consume                                       // the next step of a call in progress

  predicate Wellformed<V>(s: State<V>) {
    && Capacity(s.ec) && |s.ring| == s.ec
    && (s.prod.PWrite? ==> s.prod.w < s.ec) && (s.cons.CRead? ==> s.cons.r < s.ec)
  }

  /** No call of the consumer is in progress. */
  predicate Resting<V>(c: Cons<V>) {
    c.CIdle? || c == CReady(None)
  }

  /** Calls start when the side is at rest. */
  predicate Enabled<V>(s: State<V>, a: Action<V>) {
    Wellformed(s) &&
    match a
    case Push(_) => s.prod.PIdle?
    case PushMany(_) => s.prod.PIdle?
    case Check => Resting(s.cons)
    case Pop => Resting(s.cons)
    case PopMany(_) => Resting(s.cons)
    case Produce => !s.prod.PIdle?
    case Consume => !Resting(s.cons)
  }

  function Bump(ec: nat, i: nat): nat {
    if i + 1 == ec then 0 else i + 1
  }

  function Min(a: nat, b: nat): nat {
    if a < b then a else b
  }

  /** How many slots the two loops of a bulk operation cover from `from` up to `to`. */
  function Span(ec: nat, from: nat, to: nat): nat
    requires from < ec && to < ec
  {
    if to <= from then ec - from + to else to - from
  }

  function StartEmptyCheck<V>(s: State<V>, many: Option<nat>): State<V>
    requires Wellformed(s)
  {
    if DiffCounter(s.ec, s.popShadow, s.pop) <= 0 then s.(cons := CRefresh(many)) else s.(cons := CReady(many))
  }

  function Step<V>(s: State<V>, a: Action<V>): State<V>
    requires Enabled(s, a)
  {
    match a
    case Push(x) =>
      if DiffCounter(s.ec, s.push, s.pushShadow) >= s.ec then s.(prod := PRefresh(x))
      else s.(prod := PWrite(SlotOf(s.ec, s.push), [x], []))
    case PushMany(xs) => s.(prod := PFull(xs))
    case Check => StartEmptyCheck(s, None)
    case Pop => s.(cons := CRead(SlotOf(s.ec, s.pop), 1, []))
    case PopMany(n) => StartEmptyCheck(s, Some(n))
    case Produce => ProducerStep(s)
    case Consume => ConsumerStep(s)
  }

  function ProducerStep<V>(s: State<V>): State<V>
    requires Wellformed(s)
  {
    match s.prod
    case PIdle => s
    case PRefresh(x) => s.(pushShadow := s.pop, pushSeen := |s.output|, prod := PExact(x))
    case PExact(x) =>
      s.(prod := if Full(s.ec, s.push, s.pop) then PIdle else PWrite(SlotOf(s.ec, s.push), [x], []))
    case PFull(xs) => s.(prod := if Full(s.ec, s.push, s.pop) then PIdle else PRoom(xs))
    case PRoom(xs) =>
      var n := Min(|xs|, Span(s.ec, SlotOf(s.ec, s.push), SlotOf(s.ec, s.pop)));
      s.(prod := PWrite(SlotOf(s.ec, s.push), xs[..n], []))
    case PWrite(w, todo, written) =>
      if todo != [] then s.(ring := s.ring[w := Some(todo[0])],
        prod := PWrite(Bump(s.ec, w), todo[1..], written + [todo[0]]))
      else s.(push := StepCounter(s.ec, s.push, |written|), input := s.input + written, prod := PIdle)
  }

  function ConsumerStep<V>(s: State<V>): State<V>
    requires Wellformed(s)
  {
    match s.cons
    case CIdle => s
    case CRefresh(many) => s.(popShadow := s.push, popSeen := |s.input|, cons := CExact(many))
    case CExact(many) => s.(cons := if s.pop == s.push then CIdle else CReady(many))
    case CReady(None) => s
    case CReady(Some(n)) => s.(cons := CShadow(Min(n, Span(s.ec, SlotOf(s.ec, s.pop), SlotOf(s.ec, s.push)))))
    case CShadow(left) => s.(popShadow := s.push, popSeen := |s.input|, cons := CRead(SlotOf(s.ec, s.pop), left, []))
    case CRead(r, left, got) =>
      if left > 0 then s.(ring := s.ring[r := None], cons := CRead(Bump(s.ec, r), left - 1, got + [s.ring[r]]))
      else s.(pop := StepCounter(s.ec, s.pop, |got|), output := s.output + got, cons := CIdle)
  }

  ghost predicate Initial<V>(s: State<V>) {
    && Capacity(s.ec) && s.init < Modulus(s.ec)
    && s.push == s.pop == s.pushShadow == s.popShadow == s.init
    && s.ring == seq(s.ec, i => None) && s.prod == PIdle && s.cons == CIdle
    && s.input == [] && s.output == [] && s.pushSeen == 0 && s.popSeen == 0
  }

  ghost predicate Run<V>(states: seq<State<V>>, acts: seq<Action<V>>) {
    && |states| == |acts| + 1 && Initial(states[0])
    && forall i {:trigger acts[i]} :: 0 <= i < |acts| ==>
         Enabled(states[i], acts[i]) && states[i + 1] == Step(states[i], acts[i])
  }

  /** What the clients owe: a pop follows a false answer of empty(), and a single push, which trusts
      the producer's shadow, is made while fewer than `lag` elements were pushed since that shadow was
      true (bulk pushes do not refresh it). */
  predicate Keeps<V>(s: State<V>, a: Action<V>, lag: int) {
    && (a.Pop? ==> s.cons == CReady(None))
    && (a.Push? ==> |s.input| < s.pushSeen + lag)
  }

  ghost predicate CarefulRun<V>(states: seq<State<V>>, acts: seq<Action<V>>, lag: int) {
    Run(states, acts) && forall i {:trigger acts[i]} :: 0 <= i < |acts| ==> Keeps(states[i], acts[i], lag)
  }

  // ---- the invariant -----------------------------------------------------------------------

  function Written<V>(p: Prod<V>): seq<V> {
    if p.PWrite? then p.written else []
  }

  function Todo<V>(p: Prod<V>): seq<V> {
    if p.PWrite? then p.todo else []
  }

  function Got<V>(c: Cons<V>): seq<Option<V>> {
    if c.CRead? then c.got else []
  }

  function Left<V>(c: Cons<V>): nat {
    if c.CRead? || c.CShadow? then c.left else 0
  }

  /** Totals: slots filled and slots emptied so far. */
  function Filled<V>(s: State<V>): nat {
    |s.input| + |Written(s.prod)|
  }

  function Emptied<V>(s: State<V>): nat {
    |s.output| + |Got(s.cons)|
  }

  function SlotOf(ec: nat, total: nat): (i: nat)
    requires ec > 0
    ensures i < ec
  {
    total % ec
  }

  function At<V>(s: State<V>, i: nat): Option<V>
    requires Wellformed(s)
  {
    s.ring[SlotOf(s.ec, s.init + i)]
  }

  ghost predicate CountersOk<V>(s: State<V>)
    requires Wellformed(s)
  {
    && s.push == Counter(s.ec, s.init + |s.input|) && s.pop == Counter(s.ec, s.init + |s.output|)
    && s.pushShadow == Counter(s.ec, s.init + s.pushSeen) && s.popShadow == Counter(s.ec, s.init + s.popSeen)
  }

  /** Shadows lag; the consumer's may even lag behind the consumer, by one. */
  ghost predicate OrderOk<V>(s: State<V>) {
    && s.pushSeen <= |s.output| <= |s.input| && s.popSeen <= |s.input| && |s.output| <= s.popSeen + 1
    && Emptied(s) + Left(s.cons) <= |s.input| && Filled(s) + |Todo(s.prod)| <= |s.output| + s.ec
    && (s.prod.PRoom? ==> |s.input| < |s.output| + s.ec)
    && (s.cons.CExact? || s.cons.CReady? ==> |s.output| <= s.popSeen)
    && (s.cons.CReady? ==> |s.output| < |s.input|)
    && (s.cons.CRead? ==> Emptied(s) + Left(s.cons) <= s.popSeen + 1)
  }

  ghost predicate CursorsOk<V>(s: State<V>)
    requires Wellformed(s)
  {
    && (s.prod.PWrite? ==> s.prod.w == SlotOf(s.ec, s.init + Filled(s)))
    && (s.cons.CRead? ==> s.cons.r == SlotOf(s.ec, s.init + Emptied(s)))
  }

  /** Slots between the two totals hold the history, all others are vacant. */
  ghost predicate SlotsOk<V>(s: State<V>)
    requires Wellformed(s)
  {
    && (forall i {:trigger At(s, i)} :: Emptied(s) <= i < Filled(s)
         ==> At(s, i) == Some((s.input + Written(s.prod))[i]))
    && (forall i {:trigger At(s, i)} :: Filled(s) <= i < Emptied(s) + s.ec ==> At(s, i) == None)
  }

  /** What came out is what went in, in order. */
  ghost predicate Fifo<V>(s: State<V>) {
    && Emptied(s) <= |s.input|
    && forall i {:trigger s.input[i]} :: 0 <= i < Emptied(s) ==> (s.output + Got(s.cons))[i] == Some(s.input[i])
  }

  ghost predicate Inv<V>(s: State<V>) {
    Wellformed(s) && CountersOk(s) && OrderOk(s) && CursorsOk(s) && SlotsOk(s) && Fifo(s)
  }

  /** The capacity is safe, or no counter has wrapped yet. */
  predicate Sound<V>(s: State<V>)
    requires Capacity(s.ec)
  {
    SafeCapacity(s.ec) || s.init + |s.input| < Limit(s.ec)
  }

  // ---- what every step keeps ---------------------------------------------------------------

  /** Steps that move no element and no cursor. */
  lemma QuietKeeps<V>(s: State<V>, s': State<V>)
    requires Inv(s) && Wellformed(s') && s'.ec == s.ec && s'.init == s.init && s'.ring == s.ring
    requires s'.input == s.input && s'.output == s.output && Written(s'.prod) == Written(s.prod)
      && Got(s'.cons) == Got(s.cons)
    requires CountersOk(s') && OrderOk(s') && CursorsOk(s')
    ensures Inv(s')
  {
    hide CountersOk, OrderOk, CursorsOk, SlotOf;
    forall i | Emptied(s) <= i < Filled(s) ensures At(s', i) == Some((s.input + Written(s.prod))[i]) {
      assert At(s, i) == Some((s.input + Written(s.prod))[i]);
    }
    forall i | Filled(s) <= i < Emptied(s) + s.ec ensures At(s', i) == None {
      assert At(s, i) == None;
    }
  }

  lemma ProducerSlot<V>(s: State<V>)
    requires Inv(s)
    ensures SlotOf(s.ec, s.push) == SlotOf(s.ec, s.init + |s.input|)
      && SlotOf(s.ec, s.pop) == SlotOf(s.ec, s.init + |s.output|)
  {
    CounterSlot(s.ec, s.init + |s.input|);
    CounterSlot(s.ec, s.init + |s.output|);
  }

  lemma PushKeeps<V>(s: State<V>, x: V)
    requires Inv(s) && Enabled(s, Push(x)) && |s.input| < s.pushSeen + Horizon(s.ec)
    ensures Inv(Step(s, Push(x)))
  {
    hide SlotsOk, Fifo, SlotOf, DiffCounter, Modulus, Counter, Horizon;
    DiffAhead(s.ec, s.init + |s.input|, s.init + s.pushSeen);
    ProducerSlot(s);
    QuietKeeps(s, Step(s, Push(x)));
  }

  /** `empty()` may trust the consumer's shadow. */
  predicate ShadowOk<V>(s: State<V>)
    requires Capacity(s.ec)
  {
    Sound(s) || s.popSeen >= |s.output|
  }

  lemma EmptyCheckKeeps<V>(s: State<V>, many: Option<nat>)
    requires Inv(s) && ShadowOk(s) && Resting(s.cons)
    ensures Inv(StartEmptyCheck(s, many))
  {
    hide SlotsOk, Fifo, SlotOf, DiffCounter, Modulus, Counter, SafeCapacity, Limit;
    if s.popSeen <= |s.output| {
      DiffBehind(s.ec, s.init + s.popSeen, s.init + |s.output|);
    }
    QuietKeeps(s, StartEmptyCheck(s, many));
  }

  /** `pop()` needs an element, and a shadow that does not lag yet. */
  predicate PopOk<V>(s: State<V>) {
    |s.output| < |s.input| && |s.output| <= s.popSeen
  }

  lemma PopKeeps<V>(s: State<V>)
    requires Inv(s) && PopOk(s) && Resting(s.cons)
    ensures Inv(Step(s, Pop))
  {
    hide SlotsOk, Fifo, SlotOf, Counter;
    ProducerSlot(s);
    QuietKeeps(s, Step(s, Pop));
  }

  lemma ProducerKeeps<V>(s: State<V>)
    requires Inv(s)
    ensures Inv(ProducerStep(s))
  {
    hide SlotOf, Modulus, Counter, StepCounter, Full;
    if s.prod.PWrite? {
      if s.prod.todo != [] { WriteKeeps(s); } else { PublishKeeps(s); }
    } else {
      hide SlotsOk, Fifo;
      FullExact(s.ec, s.init + |s.input|, s.init + |s.output|);
      ProducerSlot(s);
      if s.prod.PRoom? { RoomAt(s); }
      QuietKeeps(s, ProducerStep(s));
    }
  }

  lemma RoomAt<V>(s: State<V>)
    requires Inv(s) && |s.input| < |s.output| + s.ec
    ensures Span(s.ec, SlotOf(s.ec, s.push), SlotOf(s.ec, s.pop)) == |s.output| + s.ec - |s.input|
  {
    hide Modulus, Counter;
    ProducerSlot(s);
    RoomExact(s.ec, s.init + |s.input|, s.init + |s.output|);
  }

  lemma AvailableAt<V>(s: State<V>)
    requires Inv(s) && |s.output| < |s.input|
    ensures Span(s.ec, SlotOf(s.ec, s.pop), SlotOf(s.ec, s.push)) == |s.input| - |s.output|
  {
    hide Modulus, Counter;
    ProducerSlot(s);
    AvailableExact(s.ec, s.init + |s.input|, s.init + |s.output|);
  }

  lemma WriteKeeps<V>(s: State<V>)
    requires Inv(s) && s.prod.PWrite? && s.prod.todo != []
    ensures Inv(ProducerStep(s))
  {
    hide SlotOf, Counter;
    var s' := ProducerStep(s);
    WriteSlots(s);
    BumpSlot(s.ec, s.init + Filled(s));
    hide SlotsOk;
    assert CountersOk(s') by { SameCounters(s, s'); }
    assert Fifo(s');
  }

  /** The next slot, wrapping at the end of the ring. */
  lemma BumpSlot(ec: nat, total: nat)
    requires ec > 0
    ensures Bump(ec, SlotOf(ec, total)) == SlotOf(ec, total + 1)
  {
    SlotNext(ec, total);
  }

  lemma WriteSlots<V>(s: State<V>)
    requires Inv(s) && s.prod.PWrite? && s.prod.todo != []
    ensures var s' := ProducerStep(s); Wellformed(s') && SlotsOk(s')
  {
    hide CountersOk, SlotOf, Fifo;
    var s' := ProducerStep(s);
    BumpSlot(s.ec, s.init + Filled(s));
    var n := Filled(s);
    WriteVacant(s);
    assert s'.input + Written(s'.prod) == s.input + Written(s.prod) + [s.prod.todo[0]];
    forall i | Emptied(s) <= i < Emptied(s) + s.ec && i != n ensures At(s', i) == At(s, i) {
      Apart(s.ec, s.init + i, s.init + n);
    }
  }

  lemma SameCounters<V>(s: State<V>, s': State<V>)
    requires Wellformed(s) && Wellformed(s') && CountersOk(s) && s'.ec == s.ec && s'.init == s.init
    requires s'.push == s.push && s'.pop == s.pop && s'.pushShadow == s.pushShadow && s'.popShadow == s.popShadow
    requires |s'.input| == |s.input| && |s'.output| == |s.output| && s'.pushSeen == s.pushSeen
      && s'.popSeen == s.popSeen
    ensures CountersOk(s')
  {
  }

  lemma Apart(ec: nat, a: nat, b: nat)
    requires ec > 0 && a != b && a < b + ec && b < a + ec
    ensures SlotOf(ec, a) != SlotOf(ec, b)
  {
    if a < b { SlotsApart(ec, a, b); } else { SlotsApart(ec, b, a); }
  }

  /** A write never meets a live element. */
  lemma WriteVacant<V>(s: State<V>)
    requires Inv(s) && s.prod.PWrite? && s.prod.todo != []
    ensures s.ring[s.prod.w] == None && At(s, Filled(s)) == None && Filled(s) < Emptied(s) + s.ec
  {
    hide SlotOf, CountersOk;
  }

  lemma PublishKeeps<V>(s: State<V>)
    requires Inv(s) && s.prod.PWrite? && s.prod.todo == []
    ensures Inv(ProducerStep(s))
  {
    hide Modulus, Counter, StepCounter, SlotOf;
    var s' := ProducerStep(s);
    StepExact(s.ec, s.init + |s.input|, |s.prod.written|);
    assert s'.input + Written(s'.prod) == s.input + Written(s.prod);
    forall i | Emptied(s) <= i < Filled(s) ensures At(s', i) == Some((s'.input + Written(s'.prod))[i]) {
      assert At(s, i) == Some((s.input + Written(s.prod))[i]);
    }
    forall i | Filled(s) <= i < Emptied(s) + s.ec ensures At(s', i) == None {
      assert At(s, i) == None;
    }
    assert Fifo(s') by {
      forall i | 0 <= i < Emptied(s) ensures (s.output + Got(s.cons))[i] == Some(s'.input[i]) {
        assert s'.input[i] == s.input[i];
      }
    }
  }

  lemma ConsumerKeeps<V>(s: State<V>)
    requires Inv(s)
    ensures Inv(ConsumerStep(s))
  {
    hide SlotOf, Modulus, Counter, StepCounter;
    if s.cons.CRead? {
      if s.cons.left > 0 { ReadKeeps(s); } else { RetireKeeps(s); }
    } else {
      hide SlotsOk, Fifo;
      SameCounter(s);
      ProducerSlot(s);
      if s.cons.CReady? { AvailableAt(s); }
      QuietKeeps(s, ConsumerStep(s));
    }
  }

  lemma SameCounter<V>(s: State<V>)
    requires Inv(s)
    ensures s.pop == s.push <==> |s.output| == |s.input|
  {
    Moduli(s.ec);
    ModAdd(Modulus(s.ec), s.init + |s.output|, |s.input| - |s.output|);
  }

  /** A read always meets the oldest element. */
  lemma ReadLive<V>(s: State<V>)
    requires Inv(s) && s.cons.CRead? && s.cons.left > 0
    ensures Emptied(s) < |s.input| && s.ring[s.cons.r] == At(s, Emptied(s)) == Some(s.input[Emptied(s)])
  {
    hide SlotOf, CountersOk;
  }

  lemma ReadKeeps<V>(s: State<V>)
    requires Inv(s) && s.cons.CRead? && s.cons.left > 0
    ensures Inv(ConsumerStep(s))
  {
    hide Counter, SlotOf;
    var s' := ConsumerStep(s);
    ReadLive(s);
    ReadSlots(s);
    BumpSlot(s.ec, s.init + Emptied(s));
    hide SlotsOk;
    assert s'.output + Got(s'.cons) == s.output + Got(s.cons) + [Some(s.input[Emptied(s)])];
    assert CountersOk(s') by { SameCounters(s, s'); }
  }

  lemma ReadSlots<V>(s: State<V>)
    requires Inv(s) && s.cons.CRead? && s.cons.left > 0
    ensures var s' := ConsumerStep(s); Wellformed(s') && SlotsOk(s')
  {
    hide CountersOk, SlotOf, Fifo;
    var s' := ConsumerStep(s);
    var n := Emptied(s);
    ReadLive(s);
    BumpSlot(s.ec, s.init + n);
    WrapSlot(s.ec, s.init + n);
    assert At(s', n + s.ec) == None;
    forall i | n < i < n + s.ec ensures At(s', i) == At(s, i) {
      Apart(s.ec, s.init + i, s.init + n);
    }
  }

  lemma WrapSlot(ec: nat, total: nat)
    requires ec > 0
    ensures SlotOf(ec, total + ec) == SlotOf(ec, total)
  {
    SameSlot(ec, total);
  }

  lemma RetireKeeps<V>(s: State<V>)
    requires Inv(s) && s.cons.CRead? && s.cons.left == 0
    ensures Inv(ConsumerStep(s))
  {
    hide Modulus, Counter, StepCounter, SlotOf;
    var s' := ConsumerStep(s);
    StepExact(s.ec, s.init + |s.output|, |s.cons.got|);
    assert s'.output + Got(s'.cons) == s.output + Got(s.cons);
    forall i | Emptied(s) <= i < Filled(s) ensures At(s', i) == Some((s'.input + Written(s'.prod))[i]) {
      assert At(s, i) == Some((s.input + Written(s.prod))[i]);
    }
    forall i | Filled(s) <= i < Emptied(s) + s.ec ensures At(s', i) == None {
      assert At(s, i) == None;
    }
  }

  lemma StepKeeps<V>(s: State<V>, a: Action<V>)
    requires Inv(s) && Sound(s) && Enabled(s, a) && Keeps(s, a, Horizon(s.ec))
    ensures Inv(Step(s, a))
  {
    hide Inv, Sound, ProducerStep, ConsumerStep, StartEmptyCheck;
    match a
    case Push(x) => PushKeeps(s, x);
    case PushMany(xs) => PushManyKeeps(s, xs);
    case Check => EmptyCheckKeeps(s, None);
    case Pop =>
      InvFacts(s);
      PopKeeps(s);
    case PopMany(n) => EmptyCheckKeeps(s, Some(n));
    case Produce => ProducerKeeps(s);
    case Consume => ConsumerKeeps(s);
  }

  lemma PushManyKeeps<V>(s: State<V>, xs: seq<V>)
    requires Inv(s) && Enabled(s, PushMany(xs))
    ensures Inv(Step(s, PushMany(xs)))
  {
    hide SlotsOk, Fifo, Modulus, Counter;
    QuietKeeps(s, Step(s, PushMany(xs)));
  }

  // ---- whole runs ----------------------------------------------------------------------------

  lemma SoundBefore<V>(s: State<V>, a: Action<V>)
    requires Enabled(s, a) && Capacity(Step(s, a).ec) && Sound(Step(s, a))
    ensures s.ec == Step(s, a).ec && Sound(s)
  {
    hide SafeCapacity, Limit, DiffCounter, StepCounter, Full;
  }

  lemma {:induction false} RunInv<V>(states: seq<State<V>>, acts: seq<Action<V>>, k: nat)
    requires k < |states| && Capacity(states[k].ec) && CarefulRun(states, acts, Horizon(states[k].ec))
      && Sound(states[k])
    ensures Inv(states[k])
  {
    hide Sound, Inv, Step, Horizon, Capacity, Keeps, Enabled;
    if k == 0 {
      InitialInv(states[0]);
    } else {
      var a := acts[k - 1];
      SoundBefore(states[k - 1], a);
      RunInv(states, acts, k - 1);
      StepKeeps(states[k - 1], a);
    }
  }

  lemma InitialInv<V>(s: State<V>)
    requires Initial(s)
    ensures Inv(s)
  {
    Moduli(s.ec);
    ModUnique(Modulus(s.ec), s.init, 0, s.init);
  }

  /** The ring refines a bounded FIFO queue: the output is the beginning of the input, in order, and
      never more than the capacity is in between. */
  lemma RingIsFifo<V>(states: seq<State<V>>, acts: seq<Action<V>>, k: nat)
    requires k < |states| && Capacity(states[k].ec) && CarefulRun(states, acts, Horizon(states[k].ec))
      && Sound(states[k])
    ensures var s := states[k];
      && |s.output| <= |s.input| <= |s.output| + s.ec
      && forall i :: 0 <= i < |s.output| ==> s.output[i] == Some(s.input[i])
  {
    var s := states[k];
    RunInv(states, acts, k);
    hide CountersOk, SlotsOk, CursorsOk;
    forall i | 0 <= i < |s.output| ensures s.output[i] == Some(s.input[i]) {
      assert (s.output + Got(s.cons))[i] == Some(s.input[i]);
    }
  }

  /** No slot with an unread element is written, and no slot without an element is read. */
  lemma SlotsAreRespected<V>(states: seq<State<V>>, acts: seq<Action<V>>, k: nat)
    requires k < |states| && Capacity(states[k].ec) && CarefulRun(states, acts, Horizon(states[k].ec))
      && Sound(states[k])
    ensures var s := states[k];
      && Wellformed(s)
      && (s.prod.PWrite? && s.prod.todo != [] ==> s.ring[s.prod.w] == None)
      && (s.cons.CRead? && s.cons.left > 0 ==> Emptied(s) < |s.input| && s.ring[s.cons.r] == Some(s.input[Emptied(s)]))
  {
    var s := states[k];
    RunInv(states, acts, k);
    hide Inv;
    if s.prod.PWrite? && s.prod.todo != [] { WriteVacant(s); }
    if s.cons.CRead? && s.cons.left > 0 { ReadLive(s); }
  }

  /** `push` gives up exactly when the ring is full, and `empty()` answers by what is in the ring. */
  lemma AnswersAreExact<V>(states: seq<State<V>>, acts: seq<Action<V>>, k: nat)
    requires k < |states| && Capacity(states[k].ec) && CarefulRun(states, acts, Horizon(states[k].ec))
      && Sound(states[k])
    ensures var s := states[k];
      && Wellformed(s)
      && (s.prod.PExact? || s.prod.PFull? ==> (ProducerStep(s).prod.PIdle? <==> |s.input| == |s.output| + s.ec))
      && (s.cons.CExact? ==> (ConsumerStep(s).cons.CIdle? <==> |s.input| == |s.output|))
      && (s.cons.CReady? ==> |s.output| < |s.input|)
      && (Resting(s.cons) && StartEmptyCheck(s, None).cons.CReady? ==> |s.output| < |s.input|)
  {
    var s := states[k];
    RunInv(states, acts, k);
    hide Inv, Sound, ProducerStep, ConsumerStep, StartEmptyCheck, CarefulRun;
    assert Wellformed(s) by { InvFacts(s); }
    ProducerAnswers(s);
    ConsumerAnswers(s);
    if Resting(s.cons) {
      EmptyCheckKeeps(s, None);
      InvFacts(StartEmptyCheck(s, None));
      SameHistory(s);
    }
  }

  lemma InvFacts<V>(s: State<V>)
    requires Inv(s)
    ensures Wellformed(s) && (s.cons.CReady? ==> PopOk(s))
  {
  }

  lemma SameHistory<V>(s: State<V>)
    requires Wellformed(s)
    ensures StartEmptyCheck(s, None).input == s.input && StartEmptyCheck(s, None).output == s.output
  {
    hide DiffCounter;
  }

  lemma ProducerAnswers<V>(s: State<V>)
    requires Inv(s)
    ensures s.prod.PExact? || s.prod.PFull? ==> (ProducerStep(s).prod.PIdle? <==> |s.input| == |s.output| + s.ec)
  {
    hide SlotsOk, CursorsOk, Fifo, Full, Counter, SlotOf;
    FullExact(s.ec, s.init + |s.input|, s.init + |s.output|);
  }

  lemma ConsumerAnswers<V>(s: State<V>)
    requires Inv(s)
    ensures s.cons.CExact? ==> (ConsumerStep(s).cons.CIdle? <==> |s.input| == |s.output|)
    ensures s.cons.CReady? ==> |s.output| < |s.input|
  {
    SameCounter(s);
    hide SlotsOk, CursorsOk, Fifo, CountersOk, SlotOf;
  }
}
