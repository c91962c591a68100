/**
 What whole calls on the ring achieve, told by the calls of a run: a push publishes as much of what it
 was given as there was room for at one moment of the call, a pop takes one element, and a bulk pop as
 many as were asked for and there at one moment of the call.
 */
module SpscCalls {
  import opened Collections
  import opened SpscCounters
  import opened SpscRing

  predicate StartsPush<V>(a: Action<V>) {
    a.Push? || a.PushMany?
  }

  predicate StartsPop<V>(a: Action<V>) {
    a.Pop? || a.PopMany? || a.Check?
  }

  /** The elements a push was given. */
  function Given<V>(a: Action<V>): seq<V>
    requires StartsPush(a)
  {
    if a.Push? then [a.x] else a.xs
  }

  /** How much of `xs` fits into a ring in state `s`. */
  function Fitting<V>(s: State<V>, xs: seq<V>): int {
    if |xs| < |s.output| + s.ec - |s.input| then |xs| else |s.output| + s.ec - |s.input|
  }

  function Available<V>(s: State<V>, n: nat): int {
    if n < |s.input| - |s.output| then n else |s.input| - |s.output|
  }

  ghost predicate SoundRun<V>(states: seq<State<V>>, acts: seq<Action<V>>, k: nat) {
    && k < |states| && Capacity(states[k].ec) && CarefulRun(states, acts, Horizon(states[k].ec)) && Sound(states[k])
  }

  lemma Earlier<V>(states: seq<State<V>>, acts: seq<Action<V>>, k: nat)
    requires k > 0 && SoundRun(states, acts, k)
    ensures SoundRun(states, acts, k - 1) && Inv(states[k - 1]) && |states| == |acts| + 1
    ensures Enabled(states[k - 1], acts[k - 1]) && states[k] == Step(states[k - 1], acts[k - 1])
    ensures Keeps(states[k - 1], acts[k - 1], Horizon(states[k - 1].ec)) && states[k].ec == states[k - 1].ec
  {
    hide Sound, Inv, Step, Horizon, Capacity, Keeps, Enabled;
    SoundBefore(states[k - 1], acts[k - 1]);
    RunInv(states, acts, k - 1);
  }

  // ---- pushes ------------------------------------------------------------------------------------

  /** Action `i` starts a push, and no other starts up to `k`. */
  ghost predicate PushCall<V>(acts: seq<Action<V>>, i: nat, k: nat) {
    i < k <= |acts| && StartsPush(acts[i]) && forall m :: i < m < k ==> !StartsPush(acts[m])
  }

  /** How far a push of `a` has come that found `before` published; `n` elements were accepted. */
  ghost predicate PushSoFar<V>(s: State<V>, a: Action<V>, before: seq<V>, n: int)
    requires StartsPush(a)
  {
    match s.prod
    case PIdle => 0 <= n <= |Given(a)| && s.input == before + Given(a)[..n]
    case PRefresh(x) => a == Push(x) && s.input == before
    case PExact(x) => a == Push(x) && s.input == before
    case PFull(xs) => a == PushMany(xs) && s.input == before
    case PRoom(xs) => a == PushMany(xs) && s.input == before
    case PWrite(_, todo, written) => 0 <= n <= |Given(a)| && s.input == before && written + todo == Given(a)[..n]
  }

  /** The number accepted has been fixed. */
  predicate Settled<V>(p: Prod<V>) {
    p.PIdle? || p.PWrite?
  }

  lemma PushBegins<V>(s: State<V>, a: Action<V>) returns (n: int)
    requires Inv(s) && StartsPush(a) && Enabled(s, a) && Keeps(s, a, Horizon(s.ec))
    ensures PushSoFar(Step(s, a), a, s.input, n)
    ensures Settled(Step(s, a).prod) ==> n == Fitting(s, Given(a))
  {
    n := 1;
    hide SlotsOk, Fifo, SlotOf, DiffCounter, Modulus, Counter, Horizon;
    if a.Push? { DiffAhead(s.ec, s.init + |s.input|, s.init + s.pushSeen); }
  }

  lemma PushGoesOn<V>(s: State<V>, a: Action<V>, before: seq<V>, n: int) returns (n': int)
    requires Inv(s) && StartsPush(a) && PushSoFar(s, a, before, n) && !s.prod.PIdle?
    ensures PushSoFar(ProducerStep(s), a, before, n')
    ensures Settled(s.prod) ==> n' == n
    ensures !Settled(s.prod) && Settled(ProducerStep(s).prod) ==> s.input == before && n' == Fitting(s, Given(a))
  {
    ProducerAnswers(s);
    if s.prod.PRoom? { RoomAt(s); }
    hide SlotsOk, Fifo, SlotOf, Full, Counter, CountersOk, CursorsOk;
    n' := if Settled(s.prod) then n else Fitting(s, Given(a));
    if s.prod.PWrite? && s.prod.todo != [] {
      assert s.prod.written + [s.prod.todo[0]] + s.prod.todo[1..] == s.prod.written + s.prod.todo;
    }
    if s.prod.PWrite? && s.prod.todo == [] {
      assert s.prod.written + [] == s.prod.written;
    }
  }

  lemma OtherSide<V>(s: State<V>, a: Action<V>)
    requires Enabled(s, a)
    ensures !StartsPush(a) && !a.Produce? ==> Step(s, a).prod == s.prod && Step(s, a).input == s.input
    ensures !StartsPop(a) && !a.Consume? ==> Step(s, a).cons == s.cons && Step(s, a).output == s.output
  {
    hide DiffCounter, SlotOf, Full, StepCounter;
  }

  /** `m` is the moment of the call at which the number accepted was fixed. */
  lemma {:induction false} PushProgress<V>(states: seq<State<V>>, acts: seq<Action<V>>, i: nat, k: nat)
    returns (m: nat, n: int)
    requires SoundRun(states, acts, k) && PushCall(acts, i, k)
    ensures i <= m < k && PushSoFar(states[k], acts[i], states[i].input, n)
    ensures Settled(states[k].prod) ==> states[m].input == states[i].input && n == Fitting(states[m], Given(acts[i]))
  {
    Earlier(states, acts, k);
    hide SoundRun, Inv, Step, Enabled, Keeps, PushSoFar, Fitting, Horizon;
    var s, a := states[k - 1], acts[k - 1];
    if k == i + 1 {
      m := i;
      n := PushBegins(s, a);
    } else {
      m, n := PushProgress(states, acts, i, k - 1);
      OtherSide(s, a);
      if a.Produce? {
        NotIdle(s, a);
        var n' := PushGoesOn(s, acts[i], states[i].input, n);
        if !Settled(s.prod) { m := k - 1; }
        n := n';
      } else {
        SameSoFar(s, states[k], acts[i], states[i].input, n);
      }
    }
  }

  lemma NotIdle<V>(s: State<V>, a: Action<V>)
    requires Enabled(s, a) && a.Produce?
    ensures !s.prod.PIdle? && Wellformed(s) && Step(s, a) == ProducerStep(s)
  {
  }

  lemma SameSoFar<V>(s: State<V>, s': State<V>, a: Action<V>, before: seq<V>, n: int)
    requires StartsPush(a) && PushSoFar(s, a, before, n) && s'.prod == s.prod && s'.input == s.input
    ensures PushSoFar(s', a, before, n)
  {
  }

  /** A push that is over has published the beginning of what it was given, as much as there was room
      for at some moment of the call. */
  lemma PushPublishes<V>(states: seq<State<V>>, acts: seq<Action<V>>, i: nat, k: nat) returns (m: nat)
    requires SoundRun(states, acts, k) && PushCall(acts, i, k) && states[k].prod.PIdle?
    ensures i <= m < k && states[m].input == states[i].input
    ensures var n := Fitting(states[m], Given(acts[i]));
      0 <= n <= |Given(acts[i])| && states[k].input == states[i].input + Given(acts[i])[..n]
  {
    var n;
    m, n := PushProgress(states, acts, i, k);
  }

  // ---- pops --------------------------------------------------------------------------------------

  ghost predicate PopCall<V>(acts: seq<Action<V>>, i: nat, k: nat) {
    i < k <= |acts| && StartsPop(acts[i]) && forall m :: i < m < k ==> !StartsPop(acts[m])
  }

  function Wanted<V>(a: Action<V>): Option<nat> {
    if a.PopMany? then Some(a.n) else None
  }

  /** How far a call `a` of the consumer has come that found `before` elements consumed; `n` will be taken. */
  ghost predicate PopSoFar<V>(s: State<V>, a: Action<V>, before: nat, n: int) {
    match s.cons
    case CIdle => |s.output| == before + n
    case CRefresh(many) => !a.Pop? && many == Wanted(a) && |s.output| == before
    case CExact(many) => !a.Pop? && many == Wanted(a) && |s.output| == before
    case CReady(many) => !a.Pop? && many == Wanted(a) && |s.output| == before && (many == None ==> n == 0)
    case CShadow(left) => a.PopMany? && left == n && |s.output| == before
    case CRead(_, left, got) => !a.Check? && |got| + left == n && |s.output| == before
  }

  predicate Fixed<V>(c: Cons<V>) {
    c.CIdle? || c.CShadow? || c.CRead?
  }

  /** What a call of the consumer takes from a ring in state `s`. */
  function Taking<V>(s: State<V>, a: Action<V>): int {
    if a.PopMany? then Available(s, a.n) else if a.Pop? then 1 else 0
  }

  lemma PopBegins<V>(s: State<V>, a: Action<V>) returns (n: int)
    requires Inv(s) && StartsPop(a) && Enabled(s, a)
    ensures PopSoFar(Step(s, a), a, |s.output|, n)
    ensures Fixed(Step(s, a).cons) ==> n == Taking(s, a)
  {
    n := if a.Pop? then 1 else 0;
    hide SlotsOk, Fifo, SlotOf, DiffCounter, Counter, CountersOk, CursorsOk;
  }

  lemma PopGoesOn<V>(s: State<V>, a: Action<V>, before: nat, n: int) returns (n': int)
    requires Inv(s) && StartsPop(a) && PopSoFar(s, a, before, n) && !Resting(s.cons)
    ensures PopSoFar(ConsumerStep(s), a, before, n')
    ensures Fixed(s.cons) ==> n' == n
    ensures !Fixed(s.cons) && Fixed(ConsumerStep(s).cons) ==> |s.output| == before && n' == Taking(s, a)
  {
    ConsumerAnswers(s);
    if s.cons.CReady? { AvailableAt(s); }
    hide SlotsOk, Fifo, SlotOf, Counter, CountersOk, CursorsOk;
    n' := if Fixed(s.cons) then n else if Fixed(ConsumerStep(s).cons) then Taking(s, a) else 0;
  }

  lemma {:induction false} PopProgress<V>(states: seq<State<V>>, acts: seq<Action<V>>, i: nat, k: nat)
    returns (m: nat, n: int)
    requires SoundRun(states, acts, k) && PopCall(acts, i, k)
    ensures i <= m < k && PopSoFar(states[k], acts[i], |states[i].output|, n)
    ensures Fixed(states[k].cons) ==> |states[m].output| == |states[i].output| && n == Taking(states[m], acts[i])
  {
    Earlier(states, acts, k);
    hide SoundRun, Inv, Step, Enabled, Keeps, PopSoFar, Taking, Horizon;
    var s, a := states[k - 1], acts[k - 1];
    if k == i + 1 {
      m := i;
      n := PopBegins(s, a);
    } else {
      m, n := PopProgress(states, acts, i, k - 1);
      OtherSide(s, a);
      if a.Consume? {
        NotResting(s, a);
        var n' := PopGoesOn(s, acts[i], |states[i].output|, n);
        if !Fixed(s.cons) { m := k - 1; }
        n := n';
      } else {
        SamePop(s, states[k], acts[i], |states[i].output|, n);
      }
    }
  }

  lemma NotResting<V>(s: State<V>, a: Action<V>)
    requires Enabled(s, a) && a.Consume?
    ensures !Resting(s.cons) && Wellformed(s) && Step(s, a) == ConsumerStep(s)
  {
  }

  lemma SamePop<V>(s: State<V>, s': State<V>, a: Action<V>, before: nat, n: int)
    requires PopSoFar(s, a, before, n) && s'.cons == s.cons && s'.output == s.output
    ensures PopSoFar(s', a, before, n)
  {
  }

  /** A pop that is over has taken one element; a bulk pop as many as it asked for and as were there at
      some moment of the call; `empty()` takes none.  What they take is said by `RingIsFifo`. */
  lemma PopTakes<V>(states: seq<State<V>>, acts: seq<Action<V>>, i: nat, k: nat) returns (m: nat)
    requires SoundRun(states, acts, k) && PopCall(acts, i, k) && Resting(states[k].cons)
    ensures i <= m < k && |states[k].output| == |states[i].output| + Taking(states[m], acts[i])
    ensures |states[m].output| == |states[i].output| || acts[i].Check?
  {
    var n;
    m, n := PopProgress(states, acts, i, k);
  }
}
