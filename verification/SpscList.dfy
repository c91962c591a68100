/**
 The unbounded queue made of chained rings (`iris_queue_list_t`), with one producer and one consumer.
 Every node is a ring whose own steps, stale shadows included, interleave with the reads and writes of
 the list's heads and links.
 */
module SpscList {
  import opened Collections
  import opened SpscCounters
  import Ring = SpscRing

  datatype Prod<V> =
    | PIdle
    | Pushing(xs: seq<V>, many: bool, before: nat)             // push_head->push in progress, `before` elements in it
    | Filling(ring: Ring.State<V>, xs: seq<V>, many: bool)     // a new node, not yet linked, being pushed into
    | Linked(rest: seq<V>, many: bool)                         // push_head->next set, push_head not yet moved

  datatype Cons =
    | CIdle
    | Asking                                 // empty(): pop_head->empty() in progress
    | SawEmpty(wasEmpty: bool)               // empty(): it answered true
    | SawOther                               // empty(): pop_head != push_head
    | AskingPush(j: nat)                     // empty(): push_head->empty() in progress, on node j
    | Ready                                  // empty() has answered false
    | Cleaning(popped: bool)                 // cleanup_empty(): pop_head != push_head, pop_head->empty() in progress
    | Take                                   // pop(): about to call pop_head->pop()
    | Taking                                 // pop(): pop_head->pop() in progress
    | Done                                   // pop(): about to clean up

  datatype State<V> = State(
    ec: nat,
    rings: seq<Ring.State<V>>,               // the nodes from pop_head on
    counter: nat,                            // iterator_counter
    prod: Prod<V>, cons: Cons,
    // history; answers of empty() that were true, with the truth at the time
    input: seq<V>, output: seq<Option<V>>, answers: seq<bool>)

  datatype Action<V> = Push(xs: seq<V>, many: bool) | Produce | Ask | Pop | Consume

  /** The position of push_head: the last node, or the one before while a new one is being linked. */
  function PushHead<V>(s: State<V>): int {
    if s.prod.Linked? then |s.rings| - 2 else |s.rings| - 1
  }

  /** The elements of a node that were published and not yet consumed. */
  function Unread<V>(r: Ring.State<V>): seq<V> {
    if |r.output| <= |r.input| then r.input[|r.output|..] else []
  }

  function Flatten<V>(rings: seq<Ring.State<V>>): seq<V> {
    if rings == [] then [] else Unread(rings[0]) + Flatten(rings[1..])
  }

  /** The elements a consumer can reach. */
  function Visible<V>(s: State<V>): seq<V>
    requires -1 <= PushHead(s) < |s.rings|
  {
    Flatten(s.rings[..PushHead(s) + 1])
  }

  predicate Wellformed<V>(s: State<V>) {
    && Capacity(s.ec) && s.counter < Modulus(s.ec) && 0 <= PushHead(s) < |s.rings|
    && (forall i :: 0 <= i < |s.rings| ==> Ring.Wellformed(s.rings[i]))
    && (s.prod.Filling? ==> Ring.Wellformed(s.prod.ring))
  }

  /** The call on a ring that pushes `xs`. */
  function RingPush<V>(xs: seq<V>, many: bool): Ring.Action<V>
    requires many || |xs| == 1
  {
    if many then Ring.PushMany(xs) else Ring.Push(xs[0])
  }

  /** The node a step of the consumer works on, and what it does there. */
  function RingCall<V>(s: State<V>): Option<(nat, Ring.Action<V>)>
    requires Wellformed(s)
  {
    match s.cons
    case Asking => Some((0, Ring.Consume))
    case SawOther => Some((PushHead(s), Ring.Check))
    case AskingPush(j) => Some((j, Ring.Consume))
    case Cleaning(_) => Some((0, Ring.Consume))
    case Take => Some((0, Ring.Pop))
    case Taking => Some((0, Ring.Consume))
    case Done => Some((0, Ring.Check))
    case _ => None
  }

  predicate Enabled<V>(s: State<V>, a: Action<V>) {
    Wellformed(s) &&
    match a
    case Push(xs, many) => s.prod.PIdle? && (many || |xs| == 1) && s.rings[PushHead(s)].prod.PIdle?
    case Produce =>
      && !s.prod.PIdle?
      && (s.prod.Pushing? ==> s.prod.before <= |s.rings[PushHead(s)].input| <= s.prod.before + |s.prod.xs|)
      && (s.prod.Filling? ==> |s.prod.ring.input| <= |s.prod.xs|)
      && (!s.prod.many ==> (s.prod.Linked? ==> s.prod.rest == []) && (!s.prod.Linked? ==> |s.prod.xs| == 1))
    case Ask => (s.cons.CIdle? || s.cons.Ready?) && Ring.Resting(s.rings[0].cons)
    case Pop => s.cons.Ready? && Ring.Resting(s.rings[0].cons)
    case Consume =>
      && !s.cons.CIdle? && !s.cons.Ready?
      && (RingCall(s).Some? ==>
            RingCall(s).value.0 < |s.rings| && Ring.Enabled(s.rings[RingCall(s).value.0], RingCall(s).value.1))
  }

  function NewRing<V>(ec: nat, counter: nat): Ring.State<V> {
    Ring.State(ec, counter, counter, counter, counter, counter, seq(ec, i => None), Ring.PIdle, Ring.CIdle,
      [], [], 0, 0)
  }

  /** The rest of a push: nothing, or a new node. */
  function Remaining<V>(s: State<V>, rest: seq<V>, many: bool): State<V>
    requires Capacity(s.ec) && (many || |rest| <= 1)
  {
    if rest == [] then s.(prod := PIdle)
    else
      s.(prod := Filling(Ring.Step(NewRing(s.ec, s.counter), RingPush(rest, many)), rest, many),
         counter := StepCounter(s.ec, s.counter, s.ec))
  }

  function SetRing<V>(s: State<V>, i: nat, r: Ring.State<V>): State<V>
    requires i < |s.rings|
  {
    s.(rings := s.rings[i := r])
  }

  function Step<V(==)>(s: State<V>, a: Action<V>): State<V>
    requires Enabled(s, a)
  {
    match a
    case Push(xs, many) =>
      var h := PushHead(s);
      SetRing(s, h, Ring.Step(s.rings[h], RingPush(xs, many))).(prod := Pushing(xs, many, |s.rings[h].input|))
    case Produce => ProducerStep(s)
    case Ask => AskRing(s, Asking, Ready)
    case Pop => if PushHead(s) == 0 then s.(cons := Take) else AskRing(s, Cleaning(false), Take)
    case Consume => ConsumerStep(s)
  }

  /** Call pop_head->empty(): it may answer false at once, by the shadow. */
  function AskRing<V>(s: State<V>, busy: Cons, answered: Cons): State<V>
    requires Wellformed(s) && Ring.Resting(s.rings[0].cons)
  {
    var r := Ring.Step(s.rings[0], Ring.Check);
    SetRing(s, 0, r).(cons := if r.cons.CReady? then answered else busy)
  }

  function ProducerStep<V>(s: State<V>): State<V>
    requires Enabled(s, Produce)
  {
    match s.prod
    case PIdle => s
    case Pushing(xs, many, before) =>
      var h := PushHead(s);
      if s.rings[h].prod.PIdle? then Remaining(s, xs[|s.rings[h].input| - before..], many)
      else
        var r := Ring.ProducerStep(s.rings[h]);
        SetRing(s, h, r).(input := s.input + Tail(r.input, |s.rings[h].input|))
    case Filling(ring, xs, many) =>
      if !ring.prod.PIdle? then s.(prod := Filling(Ring.ProducerStep(ring), xs, many))
      else s.(rings := s.rings + [ring], prod := Linked(xs[|ring.input|..], many))
    case Linked(rest, many) => Remaining(s.(input := s.input + s.rings[|s.rings| - 1].input), rest, many)
  }

  function Tail<T>(s: seq<T>, n: nat): seq<T> {
    if n <= |s| then s[n..] else []
  }

  function ConsumerStep<V(==)>(s: State<V>): State<V>
    requires Enabled(s, Consume)
  {
    match s.cons
    case CIdle => s
    case Ready => s
    case Asking =>
      var r := Ring.ConsumerStep(s.rings[0]);
      SetRing(s, 0, r).(cons :=
        if r.cons.CIdle? then SawEmpty(Visible(s) == []) else if r.cons.CReady? then Ready else Asking)
    case SawEmpty(wasEmpty) =>
      if PushHead(s) == 0 then s.(cons := CIdle, answers := s.answers + [wasEmpty]) else s.(cons := SawOther)
    case SawOther =>
      var j := PushHead(s);
      var r := Ring.Step(s.rings[j], Ring.Check);
      SetRing(s, j, r).(cons := if r.cons.CReady? then Ready else AskingPush(j))
    case AskingPush(j) =>
      var r := Ring.ConsumerStep(s.rings[j]);
      if r.cons.CIdle? then SetRing(s, j, r).(cons := CIdle, answers := s.answers + [false])
      else SetRing(s, j, r).(cons := if r.cons.CReady? then Ready else AskingPush(j))
    case Cleaning(popped) =>
      var r := Ring.ConsumerStep(s.rings[0]);
      var next := if popped then CIdle else Take;
      if r.cons.CIdle? && |s.rings| > 1 then s.(rings := s.rings[1..], cons := next)
      else SetRing(s, 0, r).(cons := if r.cons.CReady? then next else Cleaning(popped))
    case Take => SetRing(s, 0, Ring.Step(s.rings[0], Ring.Pop)).(cons := Taking)
    case Taking =>
      var r := Ring.ConsumerStep(s.rings[0]);
      if r.cons.CIdle? then SetRing(s, 0, r).(cons := Done, output := s.output + Tail(r.output, |s.rings[0].output|))
      else SetRing(s, 0, r)
    case Done => if PushHead(s) == 0 then s.(cons := CIdle) else AskRing(s, Cleaning(true), CIdle)
  }

  ghost predicate Initial<V>(s: State<V>) {
    && Capacity(s.ec) && s.rings == [NewRing(s.ec, 0)] && s.counter == StepCounter(s.ec, 0, s.ec)
    && s.prod == PIdle && s.cons == CIdle && s.input == [] && s.output == [] && s.answers == []
  }

  ghost predicate Run<V>(states: seq<State<V>>, acts: seq<Action<V>>) {
    && |states| == |acts| + 1 && Initial(states[0])
    && forall i {:trigger acts[i]} :: 0 <= i < |acts| ==>
         Enabled(states[i], acts[i]) && states[i + 1] == Step(states[i], acts[i])
  }

  /** A single push trusts the shadow of the ring it goes to. */
  predicate Keeps<V>(s: State<V>, a: Action<V>, lag: int) {
    a.Push? && !a.many && 0 <= PushHead(s) < |s.rings| ==>
      |s.rings[PushHead(s)].input| < s.rings[PushHead(s)].pushSeen + lag
  }

  ghost predicate CarefulRun<V>(states: seq<State<V>>, acts: seq<Action<V>>, lag: int) {
    Run(states, acts) && forall i {:trigger acts[i]} :: 0 <= i < |acts| ==> Keeps(states[i], acts[i], lag)
  }

  // ---- the invariant ---------------------------------------------------------------------------

  ghost predicate RingsOk<V>(s: State<V>) {
    && Capacity(s.ec) && s.counter < Modulus(s.ec) && 0 <= PushHead(s) < |s.rings|
    && forall i :: 0 <= i < |s.rings| ==> Ring.Inv(s.rings[i]) && s.rings[i].ec == s.ec
  }

  /** A node behind the first holds elements and nothing was taken from it; only `empty()` looks at it. */
  ghost predicate Waiting<V>(r: Ring.State<V>, asked: bool) {
    && r.output == [] && r.input != []
    && (Ring.Resting(r.cons) || (asked && (r.cons == Ring.CRefresh(None) || r.cons == Ring.CExact(None))))
  }

  ghost predicate BackOk<V>(s: State<V>) {
    forall i :: 1 <= i < |s.rings| ==> Waiting(s.rings[i], s.cons == AskingPush(i))
  }

  /** How far a push of `xs` has come in a ring that held `before` elements. */
  ghost predicate Progress<V>(r: Ring.State<V>, xs: seq<V>, many: bool, before: nat) {
    && before <= |r.input| <= before + |xs| && r.input[before..] == xs[..|r.input| - before]
    && (!r.prod.PIdle? ==> |r.input| == before)
    && match r.prod
       case PIdle => true
       case PRefresh(x) => xs == [x]
       case PExact(x) => xs == [x]
       case PFull(ys) => many && ys == xs
       case PRoom(ys) => many && ys == xs
       case PWrite(_, todo, written) => written + todo <= xs && (xs != [] ==> written + todo != [])
  }

  /** A node not yet linked: no consumer knows it, and its push cannot fail. */
  ghost predicate NodeOk<V>(r: Ring.State<V>, ec: nat, xs: seq<V>, many: bool) {
    && Ring.Inv(r) && r.ec == ec && r.output == [] && r.cons == Ring.CIdle && xs != []
    && Progress(r, xs, many, 0) && (r.prod.PIdle? ==> r.input != [])
  }

  ghost predicate ProdOk<V>(s: State<V>)
    requires 0 <= PushHead(s) < |s.rings|
  {
    && (forall i :: 0 <= i < |s.rings| && (i != PushHead(s) || !s.prod.Pushing?) ==> s.rings[i].prod.PIdle?)
    && match s.prod
       case PIdle => true
       case Pushing(xs, many, before) => (many || |xs| == 1) && Progress(s.rings[PushHead(s)], xs, many, before)
       case Filling(ring, xs, many) => (many || |xs| == 1) && NodeOk(ring, s.ec, xs, many)
       case Linked(rest, many) => many || rest == []
  }

  ghost predicate ConsOk<V>(s: State<V>)
    requires 0 <= PushHead(s) < |s.rings|
  {
    var r := s.rings[0];
    match s.cons
    case CIdle => Ring.Resting(r.cons)
    case Asking => r.cons == Ring.CRefresh(None) || r.cons == Ring.CExact(None)
    case SawEmpty(wasEmpty) => Ring.Resting(r.cons) && (wasEmpty || PushHead(s) > 0)
    case SawOther => Ring.Resting(r.cons) && PushHead(s) > 0
    case AskingPush(j) =>
      && Ring.Resting(r.cons) && 1 <= j <= PushHead(s)
      && (s.rings[j].cons == Ring.CRefresh(None) || s.rings[j].cons == Ring.CExact(None))
    case Ready => Ring.Resting(r.cons) && (PushHead(s) > 0 || r.cons == Ring.CReady(None))
    case Cleaning(_) => (r.cons == Ring.CRefresh(None) || r.cons == Ring.CExact(None)) && PushHead(s) > 0
    case Take => Ring.Resting(r.cons) && Ring.PopOk(r)
    case Taking => r.cons.CRead? && Ring.Left(r.cons) + |Ring.Got(r.cons)| == 1
    case Done => Ring.Resting(r.cons)
  }

  ghost predicate FifoOk<V>(s: State<V>)
    requires 0 <= PushHead(s) < |s.rings|
  {
    && |s.output| <= |s.input| && s.input[|s.output|..] == Visible(s)
    && (forall i :: 0 <= i < |s.output| ==> s.output[i] == Some(s.input[i]))
  }

  ghost predicate Inv<V>(s: State<V>) {
    && RingsOk(s) && BackOk(s) && ProdOk(s) && ConsOk(s) && FifoOk(s)
    && forall i :: 0 <= i < |s.answers| ==> s.answers[i]
  }

  /** The capacity is safe, or no counter of any node has wrapped yet. */
  ghost predicate Sound<V>(s: State<V>)
    requires Capacity(s.ec)
  {
    SafeCapacity(s.ec) || forall i :: 0 <= i < |s.rings| ==> s.rings[i].init + |s.rings[i].input| < Limit(s.ec)
  }

  // ---- one ring at a time ------------------------------------------------------------------------

  /** What a step of the producer leaves alone. */
  ghost predicate SameConsumer<V>(r: Ring.State<V>, r': Ring.State<V>) {
    && r'.ec == r.ec && r'.init == r.init && r'.output == r.output && r'.cons == r.cons && r'.popSeen == r.popSeen
    && r.input <= r'.input
  }

  /** What a step of the consumer leaves alone. */
  ghost predicate SameProducer<V>(r: Ring.State<V>, r': Ring.State<V>) {
    r'.ec == r.ec && r'.init == r.init && r'.prod == r.prod && r'.input == r.input
  }

  lemma PushStarts<V>(r: Ring.State<V>, xs: seq<V>, many: bool)
    requires Ring.Inv(r) && r.prod.PIdle? && (many || |xs| == 1) && (!many ==> |r.input| < r.pushSeen + Horizon(r.ec))
    ensures var r' := Ring.Step(r, RingPush(xs, many));
      && Ring.Inv(r') && SameConsumer(r, r') && r'.input == r.input && !r'.prod.PIdle?
      && Progress(r', xs, many, |r.input|)
  {
    hide Ring.Inv, Horizon, Ring.Step, Progress;
    Ring.InvFacts(r);
    if many { Ring.PushManyKeeps(r, xs); } else { Ring.PushKeeps(r, xs[0]); }
    StartShape(r, xs, many);
  }

  lemma StartShape<V>(r: Ring.State<V>, xs: seq<V>, many: bool)
    requires Ring.Wellformed(r) && r.prod.PIdle? && (many || |xs| == 1)
    ensures var r' := Ring.Step(r, RingPush(xs, many));
      SameConsumer(r, r') && r'.input == r.input && !r'.prod.PIdle? && Progress(r', xs, many, |r.input|)
  {
    hide Ring.Step, Progress;
    if many {
      StartMany(r, xs);
    } else {
      StartOne(r, xs[0]);
      assert xs == [xs[0]];
    }
  }

  lemma StartMany<V>(r: Ring.State<V>, xs: seq<V>)
    requires Ring.Wellformed(r) && r.prod.PIdle?
    ensures Ring.Step(r, Ring.PushMany(xs)) == r.(prod := Ring.PFull(xs))
    ensures Progress(r.(prod := Ring.PFull(xs)), xs, true, |r.input|)
  {
    assert r.input[|r.input|..] == [] && xs[..0] == [];
  }

  lemma StartOne<V>(r: Ring.State<V>, x: V)
    requires Ring.Wellformed(r) && r.prod.PIdle?
    ensures var r' := Ring.Step(r, Ring.Push(x));
      r' == r.(prod := r'.prod) && !r'.prod.PIdle? && Progress(r', [x], false, |r.input|)
  {
    hide DiffCounter, Ring.SlotOf;
    assert r.input[|r.input|..] == [] && [x][..0] == [];
    assert [] + [x] == [x];
  }

  lemma PushSteps<V>(r: Ring.State<V>, xs: seq<V>, many: bool, before: nat)
    requires Ring.Inv(r) && !r.prod.PIdle? && Progress(r, xs, many, before)
    ensures var r' := Ring.ProducerStep(r);
      && Ring.Inv(r') && SameConsumer(r, r') && Progress(r', xs, many, before)
      && (r'.prod.PIdle? && |r.input| < |r.output| + r.ec && xs != [] ==> |r'.input| > before)
  {
    Ring.ProducerKeeps(r);
    Ring.InvFacts(r);
    if r.prod.PWrite? {
      hide Ring.Inv;
      if r.prod.todo == [] { Publishes(r, xs, many, before); } else { Writes(r, xs, many, before); }
    } else {
      Ring.ProducerAnswers(r);
      if r.prod.PRoom? {
        RoomLeft(r);
        Ring.RoomAt(r);
      }
      hide Ring.Inv, Full, Ring.SlotOf, Ring.Span;
      assert r.input[|r.input|..] == [];
      assert r.prod.PExact? ==> xs == [xs[0]] && [] + [xs[0]] == [xs[0]];
    }
  }

  lemma RoomLeft<V>(r: Ring.State<V>)
    requires Ring.Inv(r) && r.prod.PRoom?
    ensures |r.input| < |r.output| + r.ec
  {
  }

  lemma Writes<V>(r: Ring.State<V>, xs: seq<V>, many: bool, before: nat)
    requires Ring.Wellformed(r) && r.prod.PWrite? && r.prod.todo != [] && Progress(r, xs, many, before)
    ensures var r' := Ring.ProducerStep(r); SameConsumer(r, r') && Progress(r', xs, many, before) && !r'.prod.PIdle?
  {
    var todo, written := r.prod.todo, r.prod.written;
    assert written + [todo[0]] + todo[1..] == written + todo;
  }

  lemma Publishes<V>(r: Ring.State<V>, xs: seq<V>, many: bool, before: nat)
    requires Ring.Wellformed(r) && r.prod.PWrite? && r.prod.todo == [] && Progress(r, xs, many, before)
    ensures var r' := Ring.ProducerStep(r);
      SameConsumer(r, r') && Progress(r', xs, many, before) && (xs != [] ==> |r'.input| > before)
  {
    hide StepCounter;
    var written := r.prod.written;
    assert written + [] == written;
    assert (r.input + written)[before..] == written;
  }

  lemma NodeSteps<V>(r: Ring.State<V>, ec: nat, xs: seq<V>, many: bool)
    requires NodeOk(r, ec, xs, many) && !r.prod.PIdle? && ec > 0
    ensures NodeOk(Ring.ProducerStep(r), ec, xs, many)
  {
    PushSteps(r, xs, many, 0);
    hide Ring.Inv, Progress;
  }

  lemma NewNode<V>(ec: nat, counter: nat, xs: seq<V>, many: bool)
    requires Capacity(ec) && counter < Modulus(ec) && xs != [] && (many || |xs| == 1)
    ensures NodeOk(Ring.Step(NewRing(ec, counter), RingPush(xs, many)), ec, xs, many)
  {
    var r := NewRing<V>(ec, counter);
    Ring.InitialInv(r);
    Moduli(ec);
    PushStarts(r, xs, many);
    hide Ring.Inv, Progress, Ring.Step;
  }

  /** `empty()` on a ring: the call, and the two steps after it. */
  lemma Asks<V>(r: Ring.State<V>)
    requires Ring.Inv(r) && Ring.ShadowOk(r) && Ring.Resting(r.cons)
    ensures var r' := Ring.Step(r, Ring.Check);
      && Ring.Inv(r') && SameProducer(r, r') && r'.output == r.output && r'.popSeen == r.popSeen
      && (r'.cons == Ring.CRefresh(None) || r'.cons == Ring.CReady(None))
  {
    Ring.EmptyCheckKeeps(r, None);
    hide Ring.Inv, DiffCounter;
  }

  lemma AsksOn<V>(r: Ring.State<V>)
    requires Ring.Inv(r) && (r.cons == Ring.CRefresh(None) || r.cons == Ring.CExact(None))
    ensures var r' := Ring.ConsumerStep(r);
      && Ring.Inv(r') && SameProducer(r, r') && r'.output == r.output
      && (r.cons == Ring.CRefresh(None) ==> r'.cons == Ring.CExact(None))
      && (r.cons == Ring.CExact(None) ==> r'.cons == if |r.input| == |r.output| then Ring.CIdle else Ring.CReady(None))
  {
    Ring.ConsumerKeeps(r);
    Ring.ConsumerAnswers(r);
    hide Ring.Inv;
  }

  lemma Pops<V>(r: Ring.State<V>)
    requires Ring.Inv(r) && Ring.Resting(r.cons) && Ring.PopOk(r)
    ensures var r' := Ring.Step(r, Ring.Pop);
      && Ring.Inv(r') && SameProducer(r, r') && r'.output == r.output
      && r'.cons.CRead? && r'.cons.left == 1 && r'.cons.got == []
  {
    Ring.PopKeeps(r);
    hide Ring.Inv, Ring.SlotOf;
  }

  lemma Takes<V>(r: Ring.State<V>)
    requires Ring.Inv(r) && r.cons.CRead? && r.cons.left + |r.cons.got| == 1
    ensures var r' := Ring.ConsumerStep(r);
      && Ring.Inv(r') && SameProducer(r, r')
      && (r.cons.left == 1 ==> r'.output == r.output && r'.cons.CRead? && r'.cons.left + |r'.cons.got| == 1)
      && (r.cons.left == 0 ==>
            && r'.cons == Ring.CIdle && |r.output| < |r.input| && r'.output == r.output + [Some(r.input[|r.output|])])
  {
    Ring.ConsumerKeeps(r);
    if r.cons.left == 0 { TakenIsOldest(r); }
    hide Ring.Inv, StepCounter, Ring.SlotOf;
  }

  lemma TakenIsOldest<V>(r: Ring.State<V>)
    requires Ring.Inv(r) && r.cons.CRead? && r.cons.left == 0 && |r.cons.got| == 1
    ensures |r.output| < |r.input| && r.cons.got == [Some(r.input[|r.output|])]
  {
    hide Ring.CountersOk, Ring.SlotsOk, Ring.CursorsOk;
    assert (r.output + r.cons.got)[|r.output|] == Some(r.input[|r.output|]);
  }

  // ---- what stays when one side moves --------------------------------------------------------------

  lemma {:induction false} FlattenJoin<V>(a: seq<Ring.State<V>>, b: seq<Ring.State<V>>)
    ensures Flatten(a + b) == Flatten(a) + Flatten(b)
  {
    if a == [] {
      assert a + b == b;
    } else {
      assert (a + b)[1..] == a[1..] + b;
      FlattenJoin(a[1..], b);
    }
  }

  lemma FlattenOne<V>(r: Ring.State<V>)
    ensures Flatten([r]) == Unread(r)
  {
    assert [r][1..] == [];
  }

  /** The visible elements, split at node `i`. */
  lemma VisibleAt<V>(s: State<V>, i: nat)
    requires i <= PushHead(s) < |s.rings|
    ensures Visible(s) == Flatten(s.rings[..i]) + Unread(s.rings[i]) + Flatten(s.rings[i + 1..PushHead(s) + 1])
  {
    var all := s.rings[..PushHead(s) + 1];
    assert all == s.rings[..i] + [s.rings[i]] + s.rings[i + 1..PushHead(s) + 1];
    FlattenJoin(s.rings[..i] + [s.rings[i]], s.rings[i + 1..PushHead(s) + 1]);
    FlattenJoin(s.rings[..i], [s.rings[i]]);
    FlattenOne(s.rings[i]);
  }

  /** Exchanging one node for another exchanges its elements. */
  lemma VisibleSet<V>(s: State<V>, i: nat, r: Ring.State<V>, s': State<V>)
    requires i <= PushHead(s) == PushHead(s') < |s.rings| && s'.rings == s.rings[i := r]
    ensures Visible(s') == Flatten(s.rings[..i]) + Unread(r) + Flatten(s.rings[i + 1..PushHead(s) + 1])
  {
    VisibleAt(s', i);
    assert s'.rings[..i] == s.rings[..i];
    assert s'.rings[i + 1..PushHead(s) + 1] == s.rings[i + 1..PushHead(s) + 1];
  }

  /** The consumer's side of the invariant survives what the producer does. */
  lemma ProducerFrame<V>(s: State<V>, s': State<V>)
    requires BackOk(s) && 0 <= PushHead(s) < |s.rings| && ConsOk(s) && s'.cons == s.cons
    requires |s.rings| <= |s'.rings| && PushHead(s) <= PushHead(s') < |s'.rings|
    requires forall i :: 0 <= i < |s.rings| ==> SameConsumer(s.rings[i], s'.rings[i])
    requires forall i :: |s.rings| <= i < |s'.rings| ==> Waiting(s'.rings[i], false)
    ensures BackOk(s') && ConsOk(s')
  {
    assert SameConsumer(s.rings[0], s'.rings[0]);
    if s.cons.AskingPush? { assert SameConsumer(s.rings[s.cons.j], s'.rings[s.cons.j]); }
    forall i | 1 <= i < |s'.rings| ensures Waiting(s'.rings[i], s'.cons == AskingPush(i)) {
      if i < |s.rings| { assert Waiting(s.rings[i], s.cons == AskingPush(i)) && SameConsumer(s.rings[i], s'.rings[i]); }
    }
  }

  /** The producer's side of the invariant survives what the consumer does to node `i`. */
  lemma ConsumerFrame<V>(s: State<V>, i: nat, r: Ring.State<V>, s': State<V>)
    requires RingsOk(s) && ProdOk(s) && i < |s.rings| && SameProducer(s.rings[i], r) && Ring.Inv(r)
    requires s'.rings == s.rings[i := r] && s'.prod == s.prod && s'.ec == s.ec && s'.counter == s.counter
    ensures RingsOk(s') && ProdOk(s')
  {
    hide Ring.Inv, NodeOk;
    forall j | 0 <= j < |s'.rings| ensures Ring.Inv(s'.rings[j]) && s'.rings[j].ec == s'.ec { }
    forall j | 0 <= j < |s'.rings| && (j != PushHead(s') || !s'.prod.Pushing?) ensures s'.rings[j].prod.PIdle? {
      assert s.rings[j].prod.PIdle?;
    }
  }

  // ---- the producer's steps ------------------------------------------------------------------------

  lemma HeadFrame<V>(s: State<V>, s': State<V>, r: Ring.State<V>)
    requires Inv(s) && s'.ec == s.ec && s'.counter == s.counter && s'.cons == s.cons
      && s'.rings == s.rings[PushHead(s) := r]
    requires PushHead(s') == PushHead(s) && Ring.Inv(r) && SameConsumer(s.rings[PushHead(s)], r)
    ensures RingsOk(s') && BackOk(s') && ConsOk(s')
  {
    hide Ring.Inv, FifoOk, ProdOk;
    forall i | 0 <= i < |s.rings| ensures SameConsumer(s.rings[i], s'.rings[i]) { }
    ProducerFrame(s, s');
    hide BackOk, ConsOk;
  }

  lemma PushKeeps<V>(s: State<V>, xs: seq<V>, many: bool)
    requires Inv(s) && Enabled(s, Push(xs, many)) && Keeps(s, Push(xs, many), Horizon(s.ec))
    ensures Inv(Step(s, Push(xs, many)))
  {
    hide Ring.Inv, Ring.Step, Progress, Horizon;
    var h := PushHead(s);
    var r := s.rings[h];
    var r' := Ring.Step(r, RingPush(xs, many));
    var s' := Step(s, Push(xs, many));
    PushStarts(r, xs, many);
    HeadFrame(s, s', r');
    hide BackOk, ConsOk;
    VisibleAt(s, h);
    VisibleSet(s, h, r', s');
    hide Flatten, Visible;
    assert Unread(r') == Unread(r);
  }

  /** A step of the ring at push_head: what it publishes is appended to the visible elements. */
  lemma PushingKeeps<V>(s: State<V>)
    requires Inv(s) && Enabled(s, Produce) && s.prod.Pushing? && !s.rings[PushHead(s)].prod.PIdle?
    ensures Inv(ProducerStep(s))
  {
    hide Ring.Inv, Ring.ProducerStep, Progress;
    var h := PushHead(s);
    var r := s.rings[h];
    var r' := Ring.ProducerStep(r);
    var s' := ProducerStep(s);
    PushSteps(r, s.prod.xs, s.prod.many, s.prod.before);
    HeadFrame(s, s', r');
    hide BackOk, ConsOk;
    PublishFifo(s, s', r');
  }

  lemma PublishFifo<V>(s: State<V>, s': State<V>, r': Ring.State<V>)
    requires 0 <= PushHead(s) == PushHead(s') < |s.rings| && FifoOk(s) && RingsOk(s)
    requires s'.rings == s.rings[PushHead(s) := r'] && SameConsumer(s.rings[PushHead(s)], r')
    requires s'.input == s.input + Tail(r'.input, |s.rings[PushHead(s)].input|) && s'.output == s.output
    ensures FifoOk(s')
  {
    var h := PushHead(s);
    var r := s.rings[h];
    var added := Tail(r'.input, |r.input|);
    Behaved(r);
    UnreadGrows(r, r');
    hide Ring.Inv, RingsOk, Flatten, Visible, Unread, SameConsumer, Tail;
    VisibleLast(s);
    VisibleLast(s');
    assert s'.rings[..h] == s.rings[..h];
    MoreIn(s.input, |s.output|, added);
    MoreBehind(Flatten(s.rings[..h]), Unread(r), added);
  }

  lemma UnreadGrows<V>(r: Ring.State<V>, r': Ring.State<V>)
    requires |r.output| <= |r.input| && SameConsumer(r, r')
    ensures Unread(r') == Unread(r) + Tail(r'.input, |r.input|)
  {
  }

  lemma MoreIn<V>(input: seq<V>, n: nat, added: seq<V>)
    requires n <= |input|
    ensures (input + added)[n..] == input[n..] + added
  {
  }

  lemma MoreBehind<V>(front: seq<V>, last: seq<V>, added: seq<V>)
    ensures front + (last + added) == (front + last) + added
  {
  }

  lemma VisibleLast<V>(s: State<V>)
    requires 0 <= PushHead(s) < |s.rings|
    ensures Visible(s) == Flatten(s.rings[..PushHead(s)]) + Unread(s.rings[PushHead(s)])
  {
    var h := PushHead(s);
    assert s.rings[..h + 1] == s.rings[..h] + [s.rings[h]];
    FlattenJoin(s.rings[..h], [s.rings[h]]);
    FlattenOne(s.rings[h]);
  }

  lemma Behaved<V>(r: Ring.State<V>)
    requires Ring.Inv(r)
    ensures |r.output| <= |r.input| && Ring.Wellformed(r)
  {
  }

  /** The push is over: nothing is left, or a new node takes the rest. */
  lemma RemainingKeeps<V>(s: State<V>, rest: seq<V>, many: bool)
    requires RingsOk(s) && BackOk(s) && ConsOk(s) && FifoOk(s) && !s.prod.Linked? && (many || |rest| <= 1)
    requires forall i :: 0 <= i < |s.rings| ==> s.rings[i].prod.PIdle?
    requires forall i :: 0 <= i < |s.answers| ==> s.answers[i]
    ensures Inv(Remaining(s, rest, many))
  {
    hide Ring.Inv, Ring.Step, NodeOk;
    var s' := Remaining(s, rest, many);
    if rest != [] {
      NewNode(s.ec, s.counter, rest, many);
      CounterStays(s.ec, s.counter);
    }
    forall i | 0 <= i < |s.rings| ensures SameConsumer(s.rings[i], s'.rings[i]) { }
    ProducerFrame(s, s');
  }

  lemma CounterStays(ec: nat, counter: nat)
    requires Capacity(ec) && counter < Modulus(ec)
    ensures StepCounter(ec, counter, ec) < Modulus(ec)
  {
    Moduli(ec);
    ModUnique(Modulus(ec), counter, 0, counter);
    StepExact(ec, counter, ec);
    hide StepCounter;
  }

  lemma LinkKeeps<V>(s: State<V>)
    requires Inv(s) && Enabled(s, Produce) && s.prod.Filling? && s.prod.ring.prod.PIdle?
    ensures Inv(ProducerStep(s))
  {
    hide Ring.Inv, Progress, Flatten;
    var s' := ProducerStep(s);
    var h := PushHead(s);
    forall i | 0 <= i < |s.rings| ensures SameConsumer(s.rings[i], s'.rings[i]) { }
    ProducerFrame(s, s');
    hide BackOk, ConsOk;
    LinkShape(s, s');
    hide RingsOk, ProdOk;
    assert s'.rings[..h + 1] == s.rings[..h + 1];
  }

  lemma LinkShape<V>(s: State<V>, s': State<V>)
    requires RingsOk(s) && ProdOk(s) && s.prod.Filling? && s.prod.ring.prod.PIdle?
    requires |s.prod.ring.input| <= |s.prod.xs|
    requires s' == s.(rings := s.rings + [s.prod.ring], prod := Linked(s.prod.xs[|s.prod.ring.input|..], s.prod.many))
    ensures RingsOk(s') && ProdOk(s')
  {
    hide Ring.Inv, Progress;
    forall i | 0 <= i < |s'.rings| ensures Ring.Inv(s'.rings[i]) && s'.rings[i].ec == s.ec && s'.rings[i].prod.PIdle? {
      if i < |s.rings| { assert s'.rings[i] == s.rings[i]; }
    }
  }

  lemma MoveKeeps<V>(s: State<V>)
    requires Inv(s) && Enabled(s, Produce) && s.prod.Linked?
    ensures Inv(ProducerStep(s))
  {
    hide Ring.Inv, Progress;
    var h := PushHead(s);
    var r := s.rings[h + 1];
    var s1 := s.(input := s.input + r.input, prod := PIdle);
    forall i | 0 <= i < |s.rings| ensures SameConsumer(s.rings[i], s1.rings[i]) { }
    ProducerFrame(s, s1);
    assert Waiting(r, s.cons == AskingPush(h + 1));
    hide Flatten;
    VisibleLast(s1);
    assert Unread(r) == r.input;
    MoreIn(s.input, |s.output|, r.input);
    RemainingKeeps(s1, s.prod.rest, s.prod.many);
    assert Remaining(s1, s.prod.rest, s.prod.many) == ProducerStep(s);
  }

  /** The producer's own progress, as long as push_head stays, concerns nothing else. */
  lemma ProducerAlone<V>(s: State<V>, s': State<V>)
    requires 0 <= PushHead(s) < |s.rings| && RingsOk(s) && BackOk(s) && ConsOk(s) && FifoOk(s)
    requires s' == s.(prod := s'.prod) && PushHead(s') == PushHead(s)
    ensures RingsOk(s') && BackOk(s') && ConsOk(s') && FifoOk(s')
  {
    hide Ring.Inv, Flatten, Waiting, Ring.PopOk;
    assert Visible(s') == Visible(s);
  }

  lemma FinishKeeps<V>(s: State<V>)
    requires Inv(s) && Enabled(s, Produce) && s.prod.Pushing? && s.rings[PushHead(s)].prod.PIdle?
    ensures Inv(ProducerStep(s))
  {
    hide Ring.Inv, Progress;
    var rest := s.prod.xs[|s.rings[PushHead(s)].input| - s.prod.before..];
    var s1 := s.(prod := PIdle);
    ProducerAlone(s, s1);
    hide BackOk, ConsOk, FifoOk, Flatten;
    RemainingKeeps(s1, rest, s.prod.many);
    assert Remaining(s1, rest, s.prod.many) == ProducerStep(s);
  }

  lemma FillKeeps<V>(s: State<V>)
    requires Inv(s) && Enabled(s, Produce) && s.prod.Filling? && !s.prod.ring.prod.PIdle?
    ensures Inv(ProducerStep(s))
  {
    NodeSteps(s.prod.ring, s.ec, s.prod.xs, s.prod.many);
    hide Ring.Inv, NodeOk, Ring.ProducerStep, BackOk, ConsOk, FifoOk;
    ProducerAlone(s, ProducerStep(s));
  }

  lemma ProduceKeeps<V>(s: State<V>)
    requires Inv(s) && Enabled(s, Produce)
    ensures Inv(ProducerStep(s))
  {
    hide Inv, ProducerStep;
    match s.prod
    case PIdle =>
    case Pushing(_, _, _) => if s.rings[PushHead(s)].prod.PIdle? { FinishKeeps(s); } else { PushingKeeps(s); }
    case Filling(ring, _, _) => if ring.prod.PIdle? { LinkKeeps(s); } else { FillKeeps(s); }
    case Linked(_, _) => MoveKeeps(s);
  }

  // ---- the consumer's steps ------------------------------------------------------------------------

  /** A look at node `i` that consumes nothing. */
  lemma LookKeeps<V>(s: State<V>, i: nat, r: Ring.State<V>, s': State<V>)
    requires Inv(s) && i <= PushHead(s) && Ring.Inv(r) && SameProducer(s.rings[i], r) && r.output == s.rings[i].output
    requires s' == SetRing(s, i, r).(cons := s'.cons, answers := s'.answers)
    requires BackOk(s') && ConsOk(s') && forall k :: 0 <= k < |s'.answers| ==> s'.answers[k]
    ensures Inv(s')
  {
    hide Ring.Inv, BackOk, ConsOk, ProdOk;
    ConsumerFrame(s, i, r, s');
    VisibleAt(s, i);
    VisibleSet(s, i, r, s');
    hide Flatten, Visible;
    assert Unread(r) == Unread(s.rings[i]);
  }

  /** Only pop_head's node changed, and nobody was asking another. */
  lemma FirstBack<V>(s: State<V>, s': State<V>)
    requires BackOk(s) && |s'.rings| == |s.rings| && !s.cons.AskingPush?
    requires forall i :: 1 <= i < |s.rings| ==> s'.rings[i] == s.rings[i]
    ensures BackOk(s')
  {
    forall i | 1 <= i < |s.rings| ensures Waiting(s'.rings[i], s'.cons == AskingPush(i)) {
      assert Waiting(s.rings[i], s.cons == AskingPush(i));
    }
  }

  lemma AskKeeps<V>(s: State<V>, busy: Cons, answered: Cons)
    requires Inv(s) && Wellformed(s) && Ring.Resting(s.rings[0].cons) && Ring.ShadowOk(s.rings[0])
      && !s.cons.AskingPush?
    requires (busy == Asking && answered == Ready)
          || (PushHead(s) > 0 && ((busy == Cleaning(false) && answered == Take)
               || (busy == Cleaning(true) && answered == CIdle)))
    ensures Inv(AskRing(s, busy, answered))
  {
    hide Ring.Inv, Ring.Step, FifoOk, ProdOk;
    var r := Ring.Step(s.rings[0], Ring.Check);
    Asks(s.rings[0]);
    Ring.InvFacts(r);
    var s' := AskRing(s, busy, answered);
    FirstBack(s, s');
    hide BackOk;
    LookKeeps(s, 0, r, s');
  }

  lemma AskingKeeps<V>(s: State<V>)
    requires Inv(s) && Enabled(s, Consume) && s.cons.Asking?
    ensures Inv(ConsumerStep(s))
  {
    hide Ring.Inv, Ring.ConsumerStep, ProdOk;
    var r := Ring.ConsumerStep(s.rings[0]);
    AsksOn(s.rings[0]);
    var s' := ConsumerStep(s);
    FirstBack(s, s');
    if PushHead(s) == 0 { VisibleAt(s, 0); }
    hide BackOk, Flatten;
    LookKeeps(s, 0, r, s');
  }

  lemma OtherKeeps<V>(s: State<V>)
    requires Inv(s) && Enabled(s, Consume) && (s.cons.SawOther? || s.cons.AskingPush?)
    ensures Inv(ConsumerStep(s))
  {
    hide Ring.Inv, Ring.ConsumerStep, Ring.Step, ProdOk, FifoOk;
    var j := if s.cons.SawOther? then PushHead(s) else s.cons.j;
    assert Waiting(s.rings[j], s.cons == AskingPush(j));
    var r := if s.cons.SawOther? then Ring.Step(s.rings[j], Ring.Check) else Ring.ConsumerStep(s.rings[j]);
    if s.cons.SawOther? { Asks(s.rings[j]); } else { AsksOn(s.rings[j]); }
    var s' := ConsumerStep(s);
    forall i | 1 <= i < |s.rings| ensures Waiting(s'.rings[i], s'.cons == AskingPush(i)) {
      assert Waiting(s.rings[i], s.cons == AskingPush(i));
    }
    LookKeeps(s, j, r, s');
  }

  lemma CleaningKeeps<V>(s: State<V>)
    requires Inv(s) && Enabled(s, Consume) && s.cons.Cleaning?
    ensures Inv(ConsumerStep(s))
  {
    hide Ring.Inv, Ring.ConsumerStep, ProdOk, FifoOk;
    var r := Ring.ConsumerStep(s.rings[0]);
    AsksOn(s.rings[0]);
    var s' := ConsumerStep(s);
    if r.cons.CIdle? {
      DeleteKeeps(s, s');
    } else {
      FirstBack(s, s');
      Ring.InvFacts(r);
      hide BackOk;
      LookKeeps(s, 0, r, s');
    }
  }

  /** The drained first node goes; the next one has elements. */
  lemma DeleteKeeps<V>(s: State<V>, s': State<V>)
    requires Inv(s) && s.cons.Cleaning? && |s.rings[0].input| == |s.rings[0].output|
    requires s' == s.(rings := s.rings[1..], cons := if s.cons.popped then CIdle else Take)
    ensures Inv(s')
  {
    var h := PushHead(s);
    DeleteShape(s, s');
    hide Ring.Inv, RingsOk, BackOk, ProdOk, ConsOk;
    assert s.rings[..h + 1][1..] == s'.rings[..h];
    assert Visible(s) == Unread(s.rings[0]) + Visible(s');
  }

  lemma DeleteShape<V>(s: State<V>, s': State<V>)
    requires Inv(s) && s.cons.Cleaning?
    requires s' == s.(rings := s.rings[1..], cons := if s.cons.popped then CIdle else Take)
    ensures RingsOk(s') && BackOk(s') && ProdOk(s') && ConsOk(s')
  {
    hide Ring.Inv, NodeOk, FifoOk, Progress;
    assert Waiting(s.rings[1], s.cons == AskingPush(1));
    forall i | 0 <= i < |s'.rings| ensures s'.rings[i] == s.rings[i + 1] { }
    forall i | 1 <= i < |s'.rings| ensures Waiting(s'.rings[i], s'.cons == AskingPush(i)) {
      assert Waiting(s.rings[i + 1], s.cons == AskingPush(i + 1));
    }
  }

  lemma TakeKeeps<V>(s: State<V>)
    requires Inv(s) && Enabled(s, Consume) && s.cons.Take?
    ensures Inv(ConsumerStep(s))
  {
    hide Ring.Inv, Ring.Step, ProdOk, FifoOk;
    var r := Ring.Step(s.rings[0], Ring.Pop);
    Pops(s.rings[0]);
    var s' := ConsumerStep(s);
    FirstBack(s, s');
    hide BackOk;
    LookKeeps(s, 0, r, s');
  }

  lemma TakingKeeps<V>(s: State<V>)
    requires Inv(s) && Enabled(s, Consume) && s.cons.Taking?
    ensures Inv(ConsumerStep(s))
  {
    hide Ring.Inv, Ring.ConsumerStep, ProdOk;
    var r := Ring.ConsumerStep(s.rings[0]);
    Takes(s.rings[0]);
    var s' := ConsumerStep(s);
    FirstBack(s, s');
    hide BackOk;
    if r.cons.CIdle? { OutputFifo(s, r, s'); } else { LookKeeps(s, 0, r, s'); }
  }

  /** One element leaves the first node for the output. */
  lemma OutputFifo<V>(s: State<V>, r: Ring.State<V>, s': State<V>)
    requires Inv(s) && Ring.Inv(r) && SameProducer(s.rings[0], r) && |s.rings[0].output| < |s.rings[0].input|
    requires r.output == s.rings[0].output + [Some(r.input[|s.rings[0].output|])] && r.cons == Ring.CIdle
    requires s' == SetRing(s, 0, r).(cons := Done, output := s.output + Tail(r.output, |s.rings[0].output|))
      && BackOk(s')
    ensures Inv(s')
  {
    ConsumerFrame(s, 0, r, s');
    OutputVisible(s, r, s');
    hide Ring.Inv, BackOk, ProdOk, RingsOk, FifoOk;
  }

  lemma OutputVisible<V>(s: State<V>, r: Ring.State<V>, s': State<V>)
    requires 0 <= PushHead(s) < |s.rings| && FifoOk(s) && SameProducer(s.rings[0], r)
    requires |s.rings[0].output| < |s.rings[0].input|
    requires r.output == s.rings[0].output + [Some(r.input[|s.rings[0].output|])]
    requires s' == SetRing(s, 0, r).(cons := Done, output := s.output + Tail(r.output, |s.rings[0].output|))
    ensures FifoOk(s')
  {
    hide Flatten, Visible;
    var r0, h := s.rings[0], PushHead(s);
    VisibleFirst(s);
    VisibleFirst(s');
    assert s'.rings[1..h + 1] == s.rings[1..h + 1];
    var x := r0.input[|r0.output|];
    assert Unread(r0) == [x] + Unread(r);
    assert Tail(r.output, |r0.output|) == [Some(x)];
    OneOut(s.input, |s.output|, x, Visible(s'));
  }

  lemma VisibleFirst<V>(s: State<V>)
    requires 0 <= PushHead(s) < |s.rings|
    ensures Visible(s) == Unread(s.rings[0]) + Flatten(s.rings[1..PushHead(s) + 1])
  {
    assert s.rings[..PushHead(s) + 1][1..] == s.rings[1..PushHead(s) + 1];
  }

  lemma OneOut<V>(input: seq<V>, n: nat, x: V, rest: seq<V>)
    requires n <= |input| && input[n..] == [x] + rest
    ensures n < |input| && input[n] == x && input[n + 1..] == rest
  {
    assert input[n..][0] == x;
    assert input[n + 1..] == input[n..][1..];
  }

  lemma ConsumeKeeps<V>(s: State<V>)
    requires Inv(s) && Enabled(s, Consume) && Ring.ShadowOk(s.rings[0])
    ensures Inv(ConsumerStep(s))
  {
    match s.cons
    case CIdle =>
    case Ready =>
    case Asking => AskingKeeps(s);
    case SawEmpty(_) => QuietKeeps(s);
    case SawOther => OtherKeeps(s);
    case AskingPush(_) => OtherKeeps(s);
    case Cleaning(_) => CleaningKeeps(s);
    case Take => TakeKeeps(s);
    case Taking => TakingKeeps(s);
    case Done =>
      if PushHead(s) == 0 {
        QuietKeeps(s);
      } else {
        Ring.InvFacts(s.rings[0]);
        AskKeeps(s, Cleaning(true), CIdle);
      }
  }

  lemma QuietKeeps<V>(s: State<V>)
    requires Inv(s) && Enabled(s, Consume) && (s.cons.SawEmpty? || (s.cons.Done? && PushHead(s) == 0))
    ensures Inv(ConsumerStep(s))
  {
    hide Ring.Inv, NodeOk, Progress, Flatten;
    var s' := ConsumerStep(s);
    FirstBack(s, s');
    hide BackOk;
    assert ConsOk(s') && ProdOk(s') && FifoOk(s');
  }

  lemma StepKeeps<V>(s: State<V>, a: Action<V>)
    requires Inv(s) && Capacity(s.ec) && Sound(s) && Enabled(s, a) && Keeps(s, a, Horizon(s.ec))
    ensures Inv(Step(s, a)) && Step(s, a).ec == s.ec
  {
    FirstShadow(s);
    hide Inv, Sound, Horizon, Ring.ShadowOk, ProducerStep, ConsumerStep, AskRing;
    SameCapacity(s, a);
    match a
    case Push(xs, many) => PushKeeps(s, xs, many);
    case Produce => ProduceKeeps(s);
    case Ask => AskFromRest(s);
    case Pop => PopFromReady(s);
    case Consume => ConsumeKeeps(s);
  }

  lemma FirstShadow<V>(s: State<V>)
    requires Inv(s) && Capacity(s.ec) && Sound(s)
    ensures Capacity(s.rings[0].ec) && Ring.ShadowOk(s.rings[0])
  {
    hide SafeCapacity, Limit;
    assert s.rings[0].ec == s.ec;
  }

  lemma SameCapacity<V>(s: State<V>, a: Action<V>)
    requires Enabled(s, a)
    ensures Step(s, a).ec == s.ec
  {
    hide Ring.Step, Ring.ProducerStep, Ring.ConsumerStep, StepCounter;
  }

  lemma AskFromRest<V>(s: State<V>)
    requires Inv(s) && Enabled(s, Ask) && Ring.ShadowOk(s.rings[0])
    ensures Inv(Step(s, Ask))
  {
    hide Inv, AskRing;
    AskKeeps(s, Asking, Ready);
  }

  lemma PopFromReady<V>(s: State<V>)
    requires Inv(s) && Enabled(s, Pop) && Ring.ShadowOk(s.rings[0])
    ensures Inv(Step(s, Pop))
  {
    if PushHead(s) == 0 {
      Ring.InvFacts(s.rings[0]);
      hide Ring.Inv, ProdOk, FifoOk;
      FirstBack(s, Step(s, Pop));
      hide BackOk;
      LookKeeps(s, 0, s.rings[0], Step(s, Pop));
    } else {
      hide Inv, AskRing;
      AskKeeps(s, Cleaning(false), Take);
    }
  }

  // ---- whole runs ----------------------------------------------------------------------------------

  ghost predicate SoundUpTo<V>(states: seq<State<V>>, k: int) {
    forall i {:trigger states[i]} :: 0 <= i <= k && i < |states| ==> Capacity(states[i].ec) && Sound(states[i])
  }

  lemma {:induction false} RunInv<V>(states: seq<State<V>>, acts: seq<Action<V>>, lag: int, k: nat)
    requires CarefulRun(states, acts, lag) && k < |states| && SoundUpTo(states, k)
    requires Capacity(states[0].ec) && lag <= Horizon(states[0].ec)
    ensures Inv(states[k]) && states[k].ec == states[0].ec
  {
    hide Inv, Sound, Step, Horizon, Capacity, Enabled;
    if k == 0 {
      InitialInv(states[0]);
    } else {
      var s, a := states[k - 1], acts[k - 1];
      RunInv(states, acts, lag, k - 1);
      assert Keeps(s, a, lag);
      StepKeeps(s, a);
    }
  }

  lemma InitialInv<V>(s: State<V>)
    requires Initial(s)
    ensures Inv(s)
  {
    Moduli(s.ec);
    Ring.InitialInv(s.rings[0]);
    hide Ring.Inv;
    CounterStays(s.ec, 0);
    FlattenOne(s.rings[0]);
    assert s.rings[..1] == s.rings;
  }

  /** The chained list refines one unbounded FIFO queue, for safe capacities or before a counter wraps:
      nothing is lost, doubled or reordered, and a pop after `empty()` answered false finds an element. */
  lemma ListIsFifo<V>(states: seq<State<V>>, acts: seq<Action<V>>, k: nat)
    requires k < |states| && Capacity(states[0].ec) && CarefulRun(states, acts, Horizon(states[0].ec))
      && SoundUpTo(states, k)
    ensures var s := states[k];
      && 0 <= PushHead(s) < |s.rings| && |s.output| <= |s.input| && s.input[|s.output|..] == Visible(s)
      && (forall i :: 0 <= i < |s.output| ==> s.output[i] == Some(s.input[i]))
      && (s.cons.Take? ==> Unread(s.rings[0]) != [])
  {
    RunInv(states, acts, Horizon(states[0].ec), k);
    hide Ring.Inv, Flatten, ProdOk, BackOk;
  }

  /** No node is written where an element is unread, nor read where none is. */
  lemma SlotsAreRespected<V>(states: seq<State<V>>, acts: seq<Action<V>>, k: nat, i: nat)
    requires k < |states| && Capacity(states[0].ec) && CarefulRun(states, acts, Horizon(states[0].ec))
      && SoundUpTo(states, k)
    requires i < |states[k].rings|
    ensures var r := states[k].rings[i];
      && Ring.Wellformed(r)
      && (r.prod.PWrite? && r.prod.todo != [] ==> r.ring[r.prod.w] == None)
      && (r.cons.CRead? && r.cons.left > 0 ==> r.ring[r.cons.r] != None)
  {
    RunInv(states, acts, Horizon(states[0].ec), k);
    var r := states[k].rings[i];
    assert Ring.Inv(r);
    hide Inv;
    Ring.InvFacts(r);
    hide Ring.Inv;
    if r.prod.PWrite? && r.prod.todo != [] { Ring.WriteVacant(r); }
    if r.cons.CRead? && r.cons.left > 0 { Ring.ReadLive(r); }
  }

  /** `empty()` is honest: when it answered true the queue was empty at the moment it compared the
      counters of pop_head's node, and when it has answered false there is an element. */
  lemma EmptyIsHonest<V>(states: seq<State<V>>, acts: seq<Action<V>>, k: nat)
    requires k < |states| && Capacity(states[0].ec) && CarefulRun(states, acts, Horizon(states[0].ec))
      && SoundUpTo(states, k)
    ensures var s := states[k];
      && 0 <= PushHead(s) < |s.rings|
      && (forall i :: 0 <= i < |s.answers| ==> s.answers[i])
      && (s.cons.Ready? ==> Visible(s) != [])
  {
    RunInv(states, acts, Horizon(states[0].ec), k);
    if states[k].cons.Ready? { ReadyHasElement(states[k]); }
    hide Flatten;
  }

  lemma ReadyHasElement<V>(s: State<V>)
    requires Inv(s) && s.cons.Ready?
    ensures Visible(s) != []
  {
    hide FifoOk, ProdOk;
    var h := PushHead(s);
    if h > 0 {
      assert Waiting(s.rings[h], s.cons == AskingPush(h));
    } else {
      Ring.InvFacts(s.rings[0]);
    }
    hide Ring.Inv;
    VisibleAt(s, h);
  }

  /** A node is deleted only when it is drained, the producer has left it, and the next has elements. */
  lemma DeletesOnlyDrained<V>(states: seq<State<V>>, acts: seq<Action<V>>, k: nat)
    requires k + 1 < |states| && Capacity(states[0].ec) && CarefulRun(states, acts, Horizon(states[0].ec))
      && SoundUpTo(states, k)
    requires |states[k + 1].rings| < |states[k].rings|
    ensures var s := states[k];
      PushHead(s) > 0 && Unread(s.rings[0]) == [] && s.rings[0].prod.PIdle? && Unread(s.rings[1]) != []
  {
    RunInv(states, acts, Horizon(states[0].ec), k);
    var s := states[k];
    hide Inv;
    OnlyCleaningDeletes(s, acts[k]);
    Cleaned(s);
  }

  lemma OnlyCleaningDeletes<V>(s: State<V>, a: Action<V>)
    requires Enabled(s, a) && |Step(s, a).rings| < |s.rings|
    ensures a == Consume && s.cons.Cleaning? && Ring.ConsumerStep(s.rings[0]).cons.CIdle?
  {
    hide Ring.Step, Ring.ProducerStep, Ring.ConsumerStep, StepCounter, Flatten;
    hide ProducerStep, ConsumerStep;
    if a.Consume? { ConsumerDeletes(s); }
    if a.Produce? { ProducerDeletesNothing(s); }
  }

  lemma ConsumerDeletes<V>(s: State<V>)
    requires Enabled(s, Consume)
    ensures |ConsumerStep(s).rings| < |s.rings| ==> s.cons.Cleaning? && Ring.ConsumerStep(s.rings[0]).cons.CIdle?
  {
    hide Ring.Step, Ring.ConsumerStep, Flatten;
  }

  lemma ProducerDeletesNothing<V>(s: State<V>)
    requires Enabled(s, Produce)
    ensures |ProducerStep(s).rings| >= |s.rings|
  {
    hide Ring.Step, Ring.ProducerStep, StepCounter;
  }

  lemma Cleaned<V>(s: State<V>)
    requires Inv(s) && s.cons.Cleaning? && Ring.Wellformed(s.rings[0]) && Ring.ConsumerStep(s.rings[0]).cons.CIdle?
    ensures PushHead(s) > 0 && Unread(s.rings[0]) == [] && s.rings[0].prod.PIdle? && Unread(s.rings[1]) != []
  {
    AsksOn(s.rings[0]);
    hide Ring.Inv, Ring.ConsumerStep, FifoOk;
    assert Waiting(s.rings[1], s.cons == AskingPush(1));
  }

  /** No call ever finds its ring in the middle of something else. */
  lemma NeverBlocked<V>(s: State<V>)
    requires Inv(s)
    ensures Wellformed(s)
    ensures !s.prod.PIdle? ==> Enabled(s, Produce)
    ensures if s.cons.CIdle? || s.cons.Ready? then Enabled(s, Ask) else Enabled(s, Consume)
    ensures s.cons.Ready? ==> Enabled(s, Pop)
  {
    AllWellformed(s);
    hide Ring.Inv, FifoOk, NodeOk, RingsOk, Wellformed, Ring.Wellformed;
    ProducerReady(s);
    ConsumerReady(s);
    hide Enabled;
  }

  lemma AllWellformed<V>(s: State<V>)
    requires Inv(s)
    ensures Wellformed(s)
  {
    forall i | 0 <= i < |s.rings| ensures Ring.Wellformed(s.rings[i]) { Behaved(s.rings[i]); }
    if s.prod.Filling? { Behaved(s.prod.ring); }
  }

  lemma ProducerReady<V>(s: State<V>)
    requires Inv(s) && Wellformed(s)
    ensures !s.prod.PIdle? ==> Enabled(s, Produce)
  {
    hide Ring.Inv, FifoOk, BackOk, ConsOk, Wellformed;
  }

  lemma ConsumerReady<V>(s: State<V>)
    requires Inv(s) && Wellformed(s)
    ensures if s.cons.CIdle? || s.cons.Ready? then Enabled(s, Ask) else Enabled(s, Consume)
    ensures s.cons.Ready? ==> Enabled(s, Pop)
  {
    hide Ring.Inv, FifoOk, ProdOk, Ring.Wellformed;
    assert forall i :: 0 <= i < |s.rings| ==> Ring.Wellformed(s.rings[i]);
    if s.cons.SawOther? { assert Waiting(s.rings[PushHead(s)], s.cons == AskingPush(PushHead(s))); }
    hide BackOk, Wellformed;
  }
}
