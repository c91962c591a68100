/**
 The coroutine pipe (`iris_pipe_t` with a real mutex): producers call `emplace`, consumers
 `co_await` it, and the two sides meet through prepared_count, waiting_count and the list of
 suspended handles.  Every access to shared state is a step; a run is any interleaving of any number
 of calls.
 */
module Pipe {
  import opened Collections

  type Cid = int   // one co_await

  datatype Pc<E> =
    | Idle
    // await_suspend
    | AwaitFast(c: Cid)              // flush_prepared, no lock
    | AwaitLock(c: Cid)
    | AwaitRetry(c: Cid)             // locked: flush_prepared again
    | AwaitPush(c: Cid)              // locked: about to push the handle
    | AwaitCount(c: Cid)             // locked: about to increment waiting_count
    | AwaitWon(c: Cid)               // locked: the retry took a prepared element
    // emplace
    | EmplacePush(e: E)
    | EmplaceFast                    // flush_waiting, no lock
    | ClaimLock                      // a waiter is claimed, about to lock
    | EmplaceLock
    | EmplaceRetry                   // locked: flush_waiting again
    | EmplaceCount                   // locked: about to increment prepared_count
    | HandlePop                      // locked: about to pop the claimed handle
    // both
    | Dispatch(c: Cid)               // unlocked: about to resume c
    | Unlock                         // locked: about to return

  datatype State<E> = State(
    prepared: int, waiting: int,
    handles: seq<Cid>, elements: seq<E>,
    lock: Option<nat>,
    pcs: seq<Pc<E>>,
    runnable: set<Cid>,                        // dispatched, await_resume not yet run
    // history
    awaits: nat, pushed: seq<E>, taken: seq<(Cid, E)>)

  datatype Action<E> = Await(t: nat) | Emplace(t: nat, e: E) | Resume(c: Cid) | Go(t: nat)

  predicate Locked<E>(pc: Pc<E>) {
    pc.AwaitRetry? || pc.AwaitPush? || pc.AwaitCount? || pc.AwaitWon? ||
    pc.EmplaceRetry? || pc.EmplaceCount? || pc.HandlePop? || pc.Unlock?
  }

  predicate WantsLock<E>(pc: Pc<E>) {
    pc.AwaitLock? || pc.ClaimLock? || pc.EmplaceLock?
  }

  /** Popping from an empty list of handles or elements would be an error: that it never happens is
      proved, not assumed (`NeverStarved`). */
  predicate Enabled<E>(s: State<E>, a: Action<E>) {
    match a
    case Await(t) => t < |s.pcs| && s.pcs[t].Idle?
    case Emplace(t, _) => t < |s.pcs| && s.pcs[t].Idle?
    case Resume(c) => c in s.runnable && s.elements != []
    case Go(t) =>
      && t < |s.pcs| && !s.pcs[t].Idle? && (WantsLock(s.pcs[t]) ==> s.lock.None?)
      && (s.pcs[t].HandlePop? ==> s.handles != [])
  }

  function SetPc<E>(s: State<E>, t: nat, pc: Pc<E>): State<E>
    requires t < |s.pcs|
  {
    s.(pcs := s.pcs[t := pc])
  }

  function Step<E>(s: State<E>, a: Action<E>): State<E>
    requires Enabled(s, a)
  {
    match a
    case Await(t) => SetPc(s, t, AwaitFast(s.awaits)).(awaits := s.awaits + 1)
    case Emplace(t, e) => SetPc(s, t, EmplacePush(e))
    case Resume(c) => s.(elements := s.elements[1..], runnable := s.runnable - {c},
      taken := s.taken + [(c, s.elements[0])])
    case Go(t) => if AwaitSide(s.pcs[t]) then AwaitStep(s, t) else EmplaceStep(s, t)
  }

  predicate AwaitSide<E>(pc: Pc<E>) {
    pc.AwaitFast? || pc.AwaitLock? || pc.AwaitRetry? || pc.AwaitPush? || pc.AwaitCount? || pc.AwaitWon? || pc.Dispatch?
  }

  function AwaitStep<E>(s: State<E>, t: nat): State<E>
    requires Enabled(s, Go(t)) && AwaitSide(s.pcs[t])
  {
    match s.pcs[t]
    case AwaitFast(c) =>
      if s.prepared != 0 then SetPc(s, t, Dispatch(c)).(prepared := s.prepared - 1) else SetPc(s, t, AwaitLock(c))
    case AwaitLock(c) => SetPc(s, t, AwaitRetry(c)).(lock := Some(t))
    case AwaitRetry(c) =>
      if s.prepared != 0 then SetPc(s, t, AwaitWon(c)).(prepared := s.prepared - 1) else SetPc(s, t, AwaitPush(c))
    case AwaitPush(c) => SetPc(s, t, AwaitCount(c)).(handles := s.handles + [c])
    case AwaitCount(c) => SetPc(s, t, Unlock).(waiting := s.waiting + 1)
    case AwaitWon(c) => SetPc(s, t, Dispatch(c)).(lock := None)
    case Dispatch(c) => SetPc(s, t, Idle).(runnable := s.runnable + {c})
  }

  function EmplaceStep<E>(s: State<E>, t: nat): State<E>
    requires Enabled(s, Go(t)) && !AwaitSide(s.pcs[t])
  {
    match s.pcs[t]
    case EmplacePush(e) => SetPc(s, t, EmplaceFast).(elements := s.elements + [e], pushed := s.pushed + [e])
    case EmplaceFast =>
      if s.waiting != 0 then SetPc(s, t, ClaimLock).(waiting := s.waiting - 1) else SetPc(s, t, EmplaceLock)
    case ClaimLock => SetPc(s, t, HandlePop).(lock := Some(t))
    case EmplaceLock => SetPc(s, t, EmplaceRetry).(lock := Some(t))
    case EmplaceRetry =>
      if s.waiting != 0 then SetPc(s, t, HandlePop).(waiting := s.waiting - 1) else SetPc(s, t, EmplaceCount)
    case EmplaceCount => SetPc(s, t, Unlock).(prepared := s.prepared + 1)
    case HandlePop => SetPc(s, t, Dispatch(s.handles[0])).(handles := s.handles[1..], lock := None)
    case Unlock => SetPc(s, t, Idle).(lock := None)
    case Idle => s
  }

  ghost predicate Initial<E>(s: State<E>) {
    && s.prepared == 0 && s.waiting == 0 && s.handles == [] && s.elements == [] && s.lock == None && s.runnable == {}
    && s.awaits == 0 && s.pushed == [] && s.taken == []
    && forall t :: 0 <= t < |s.pcs| ==> s.pcs[t] == Idle
  }

  ghost predicate Run<E>(states: seq<State<E>>, acts: seq<Action<E>>) {
    && |states| == |acts| + 1 && Initial(states[0])
    && forall i {:trigger acts[i]} :: 0 <= i < |acts|
         ==> Enabled(states[i], acts[i]) && states[i + 1] == Step(states[i], acts[i])
  }

  // ---- the invariant ---------------------------------------------------------------------------

  /** An activity that owns one element not yet given away: its own, or one it took from prepared_count. */
  predicate HasTicket<E>(pc: Pc<E>) {
    pc.AwaitWon? || pc.Dispatch? || pc.EmplaceFast? || pc.ClaimLock? || pc.EmplaceLock? || pc.EmplaceRetry? ||
    pc.EmplaceCount? || pc.HandlePop?
  }

  /** An activity that accounts for one handle not counted in waiting_count. */
  predicate HasHandle<E>(pc: Pc<E>) {
    pc.AwaitCount? || pc.ClaimLock? || pc.HandlePop?
  }

  function Tickets<E>(pcs: seq<Pc<E>>): set<int> {
    set t | 0 <= t < |pcs| && HasTicket(pcs[t])
  }

  function Handlers<E>(pcs: seq<Pc<E>>): set<int> {
    set t | 0 <= t < |pcs| && HasHandle(pcs[t])
  }

  ghost predicate LockOk<E>(s: State<E>) {
    forall t :: 0 <= t < |s.pcs| ==> (Locked(s.pcs[t]) <==> s.lock == Some(t))
  }

  /** Elements and handles are accounted for. */
  ghost predicate CountsOk<E>(s: State<E>) {
    && s.prepared >= 0 && s.waiting >= 0
    && |s.elements| == s.prepared + |Tickets(s.pcs)| + |s.runnable|
    && |s.handles| == s.waiting + |Handlers(s.pcs)|
  }

  /** The two counters exclude each other, also while one is about to grow. */
  ghost predicate MeetOk<E>(s: State<E>) {
    && (s.prepared == 0 || s.waiting == 0)
    && (forall t :: 0 <= t < |s.pcs| && (s.pcs[t].AwaitPush? || s.pcs[t].AwaitCount?) ==> s.prepared == 0)
    && (forall t :: 0 <= t < |s.pcs| && s.pcs[t].EmplaceCount? ==> s.waiting == 0)
  }

  datatype Place = Calling(t: int) | Listed | Runnable

  function Caller<E>(pc: Pc<E>): Option<Cid> {
    match pc
    case AwaitFast(c) => Some(c)
    case AwaitLock(c) => Some(c)
    case AwaitRetry(c) => Some(c)
    case AwaitPush(c) => Some(c)
    case AwaitWon(c) => Some(c)
    case Dispatch(c) => Some(c)
    case _ => None
  }

  ghost predicate At(home: map<Cid, Place>, c: Cid, p: Place) {
    c in home && home[c] == p
  }

  /** Every await is in one place: with one activity, in the list once, or runnable. */
  ghost predicate PlacesOk<E>(s: State<E>, home: map<Cid, Place>) {
    && (forall c <- home :: c < s.awaits)
    && (forall t :: 0 <= t < |s.pcs| && Caller(s.pcs[t]).Some? ==> At(home, Caller(s.pcs[t]).value, Calling(t)))
    && (forall i :: 0 <= i < |s.handles| ==> At(home, s.handles[i], Listed))
    && (forall i, j :: 0 <= i < j < |s.handles| ==> s.handles[i] != s.handles[j])
    && (forall c <- s.runnable :: At(home, c, Runnable))
    && (forall i :: 0 <= i < |s.taken| ==> s.taken[i].0 !in home && s.taken[i].0 < s.awaits)
    && (forall i, j :: 0 <= i < j < |s.taken| ==> s.taken[i].0 != s.taken[j].0)
  }

  /** Elements leave in the order in which they came. */
  ghost predicate FifoOk<E>(s: State<E>) {
    && |s.taken| + |s.elements| == |s.pushed|
    && (forall i :: 0 <= i < |s.taken| ==> s.taken[i].1 == s.pushed[i])
    && s.elements == s.pushed[|s.taken|..]
  }

  // ---- what every step keeps -------------------------------------------------------------------

  lemma TicketsUpdate<E>(pcs: seq<Pc<E>>, t: nat, pc: Pc<E>)
    requires t < |pcs|
    ensures |Tickets(pcs[t := pc])|
      == |Tickets(pcs)| - (if HasTicket(pcs[t]) then 1 else 0) + (if HasTicket(pc) then 1 else 0)
    ensures HasTicket(pcs[t]) ==> |Tickets(pcs)| >= 1
  {
    hide HasTicket;
    var a := Tickets(pcs) - {t};
    assert Tickets(pcs) == if HasTicket(pcs[t]) then a + {t} else a;
    assert Tickets(pcs[t := pc]) == if HasTicket(pc) then a + {t} else a;
  }

  lemma HandlersUpdate<E>(pcs: seq<Pc<E>>, t: nat, pc: Pc<E>)
    requires t < |pcs|
    ensures |Handlers(pcs[t := pc])|
      == |Handlers(pcs)| - (if HasHandle(pcs[t]) then 1 else 0) + (if HasHandle(pc) then 1 else 0)
    ensures HasHandle(pcs[t]) ==> |Handlers(pcs)| >= 1
  {
    hide HasHandle;
    var a := Handlers(pcs) - {t};
    assert Handlers(pcs) == if HasHandle(pcs[t]) then a + {t} else a;
    assert Handlers(pcs[t := pc]) == if HasHandle(pc) then a + {t} else a;
  }

  lemma StepKeepsLock<E>(s: State<E>, a: Action<E>)
    requires LockOk(s) && Enabled(s, a)
    ensures LockOk(Step(s, a))
  {
    hide AwaitStep, EmplaceStep;
    if a.Go? {
      if AwaitSide(s.pcs[a.t]) { AwaitKeepsLock(s, a.t); } else { EmplaceKeepsLock(s, a.t); }
    }
  }

  lemma AwaitKeepsLock<E>(s: State<E>, t: nat)
    requires LockOk(s) && Enabled(s, Go(t)) && AwaitSide(s.pcs[t])
    ensures LockOk(AwaitStep(s, t))
  {
  }

  lemma EmplaceKeepsLock<E>(s: State<E>, t: nat)
    requires LockOk(s) && Enabled(s, Go(t)) && !AwaitSide(s.pcs[t])
    ensures LockOk(EmplaceStep(s, t))
  {
  }

  lemma StepKeepsMeet<E>(s: State<E>, a: Action<E>)
    requires LockOk(s) && MeetOk(s) && CountsOk(s) && Enabled(s, a)
    ensures MeetOk(Step(s, a))
  {
    hide CountsOk, LockOk, AwaitStep, EmplaceStep;
    if a.Go? {
      if AwaitSide(s.pcs[a.t]) { AwaitKeepsMeet(s, a.t); } else { EmplaceKeepsMeet(s, a.t); }
    }
  }

  /** The consumer's side: prepared_count only falls, and waiting_count grows only where the lock has
      kept prepared_count at zero. */
  lemma AwaitKeepsMeet<E>(s: State<E>, t: nat)
    requires LockOk(s) && MeetOk(s) && CountsOk(s) && Enabled(s, Go(t)) && AwaitSide(s.pcs[t])
    ensures MeetOk(AwaitStep(s, t))
  {
    hide Tickets, Handlers;
    var s' := AwaitStep(s, t);
    OnlyHolder(s, t);
    hide LockOk;
    assert s'.pcs == s.pcs[t := s'.pcs[t]] && s'.prepared <= s.prepared;
    if s'.waiting != s.waiting {
      assert s.pcs[t].AwaitCount? && s'.waiting == s.waiting + 1;
    }
  }

  /** The producer's side, with the two counters exchanged. */
  lemma EmplaceKeepsMeet<E>(s: State<E>, t: nat)
    requires LockOk(s) && MeetOk(s) && CountsOk(s) && Enabled(s, Go(t)) && !AwaitSide(s.pcs[t])
    ensures MeetOk(EmplaceStep(s, t))
  {
    hide Tickets, Handlers;
    var s' := EmplaceStep(s, t);
    OnlyHolder(s, t);
    hide LockOk;
    assert s'.pcs == s.pcs[t := s'.pcs[t]] && s'.waiting <= s.waiting;
    if s'.prepared != s.prepared {
      assert s.pcs[t].EmplaceCount? && s'.prepared == s.prepared + 1;
    }
  }

  lemma OnlyHolder<E>(s: State<E>, t: nat)
    requires LockOk(s) && t < |s.pcs|
    ensures forall u :: 0 <= u < |s.pcs| && u != t && Locked(s.pcs[t]) ==> !Locked(s.pcs[u])
  {
  }

  lemma StepKeepsFifo<E>(s: State<E>, a: Action<E>)
    requires FifoOk(s) && Enabled(s, a)
    ensures FifoOk(Step(s, a))
  {
    if a.Go? && AwaitSide(s.pcs[a.t]) {
      hide EmplaceStep, FifoOk;
      AwaitMovesNothing(s, a.t);
    } else {
      hide AwaitStep;
    }
  }

  lemma AwaitMovesNothing<E>(s: State<E>, t: nat)
    requires FifoOk(s) && Enabled(s, Go(t)) && AwaitSide(s.pcs[t])
    ensures FifoOk(AwaitStep(s, t))
  {
    var s' := AwaitStep(s, t);
    assert s'.elements == s.elements && s'.pushed == s.pushed && s'.taken == s.taken;
    hide AwaitStep;
  }

  lemma StepKeepsCounts<E>(s: State<E>, a: Action<E>)
    requires CountsOk(s) && Enabled(s, a) && (a.Go? && s.pcs[a.t].Dispatch? ==> s.pcs[a.t].c !in s.runnable)
    ensures CountsOk(Step(s, a))
  {
    hide AwaitStep, EmplaceStep;
    if a.Go? {
      if AwaitSide(s.pcs[a.t]) { AwaitKeepsCounts(s, a.t); } else { EmplaceKeepsCounts(s, a.t); }
    } else if !a.Resume? {
      hide Tickets, Handlers;
      TicketsUpdate(s.pcs, a.t, Step(s, a).pcs[a.t]);
      HandlersUpdate(s.pcs, a.t, Step(s, a).pcs[a.t]);
    }
  }

  lemma AwaitKeepsCounts<E>(s: State<E>, t: nat)
    requires CountsOk(s) && Enabled(s, Go(t)) && AwaitSide(s.pcs[t])
      && (s.pcs[t].Dispatch? ==> s.pcs[t].c !in s.runnable)
    ensures CountsOk(AwaitStep(s, t))
  {
    hide Tickets, Handlers;
    TicketsUpdate(s.pcs, t, AwaitStep(s, t).pcs[t]);
    HandlersUpdate(s.pcs, t, AwaitStep(s, t).pcs[t]);
  }

  lemma EmplaceKeepsCounts<E>(s: State<E>, t: nat)
    requires CountsOk(s) && Enabled(s, Go(t)) && !AwaitSide(s.pcs[t])
    ensures CountsOk(EmplaceStep(s, t))
  {
    hide Tickets, Handlers;
    TicketsUpdate(s.pcs, t, EmplaceStep(s, t).pcs[t]);
    HandlersUpdate(s.pcs, t, EmplaceStep(s, t).pcs[t]);
  }

  /** Where the awaits are after a step. */
  ghost function NextHome<E>(s: State<E>, a: Action<E>, home: map<Cid, Place>): map<Cid, Place>
    requires Enabled(s, a)
  {
    match a
    case Await(t) => home[s.awaits := Calling(t)]
    case Emplace(_, _) => home
    case Resume(c) => home - {c}
    case Go(t) =>
      match s.pcs[t]
      case AwaitPush(c) => home[c := Listed]
      case HandlePop => home[s.handles[0] := Calling(t)]
      case Dispatch(c) => home[c := Runnable]
      case _ => home
  }

  lemma StepKeepsPlaces<E>(s: State<E>, a: Action<E>, home: map<Cid, Place>)
    requires PlacesOk(s, home) && Enabled(s, a)
    ensures PlacesOk(Step(s, a), NextHome(s, a, home))
  {
    hide AwaitStep, EmplaceStep;
    if a.Go? {
      if s.pcs[a.t].HandlePop? { PopKeepsPlaces(s, a.t, home); }
      else if s.pcs[a.t].AwaitPush? || s.pcs[a.t].Dispatch? { PassKeepsPlaces(s, a.t, home); }
      else { OtherKeepsPlaces(s, a.t, home); }
    }
  }

  lemma PopKeepsPlaces<E>(s: State<E>, t: nat, home: map<Cid, Place>)
    requires PlacesOk(s, home) && Enabled(s, Go(t)) && s.pcs[t].HandlePop?
    ensures PlacesOk(EmplaceStep(s, t), home[s.handles[0] := Calling(t)])
  {
    assert At(home, s.handles[0], Listed);
  }

  lemma PassKeepsPlaces<E>(s: State<E>, t: nat, home: map<Cid, Place>)
    requires PlacesOk(s, home) && Enabled(s, Go(t)) && (s.pcs[t].AwaitPush? || s.pcs[t].Dispatch?)
    ensures PlacesOk(AwaitStep(s, t), home[s.pcs[t].c := if s.pcs[t].AwaitPush? then Listed else Runnable])
  {
    assert At(home, s.pcs[t].c, Calling(t)) by { assert Caller(s.pcs[t]) == Some(s.pcs[t].c); }
  }

  lemma OtherKeepsPlaces<E>(s: State<E>, t: nat, home: map<Cid, Place>)
    requires PlacesOk(s, home) && Enabled(s, Go(t)) && !s.pcs[t].HandlePop? && !s.pcs[t].AwaitPush?
      && !s.pcs[t].Dispatch?
    ensures PlacesOk(Step(s, Go(t)), home)
  {
    OtherStep(s, t);
    hide Step, Caller;
  }

  lemma OtherStep<E>(s: State<E>, t: nat)
    requires Enabled(s, Go(t)) && !s.pcs[t].HandlePop? && !s.pcs[t].AwaitPush? && !s.pcs[t].Dispatch?
    ensures var s' := Step(s, Go(t));
      && s'.pcs == s.pcs[t := s'.pcs[t]] && (Caller(s'.pcs[t]).Some? ==> Caller(s'.pcs[t]) == Caller(s.pcs[t]))
      && s'.handles == s.handles && s'.runnable == s.runnable && s'.taken == s.taken && s'.awaits == s.awaits
  {
    if AwaitSide(s.pcs[t]) { hide EmplaceStep; } else { hide AwaitStep; }
  }

  // ---- whole runs ------------------------------------------------------------------------------

  ghost predicate Inv<E>(s: State<E>, home: map<Cid, Place>) {
    LockOk(s) && CountsOk(s) && MeetOk(s) && FifoOk(s) && PlacesOk(s, home)
  }

  lemma {:induction false} RunInv<E>(states: seq<State<E>>, acts: seq<Action<E>>, k: nat)
    returns (home: map<Cid, Place>)
    requires Run(states, acts) && k < |states|
    ensures Inv(states[k], home)
  {
    if k == 0 {
      home := map[];
      assert Tickets(states[0].pcs) == {} && Handlers(states[0].pcs) == {};
    } else {
      var s, a := states[k - 1], acts[k - 1];
      home := RunInv(states, acts, k - 1);
      hide Step, LockOk, CountsOk, MeetOk, FifoOk;
      if a.Go? && s.pcs[a.t].Dispatch? { assert Caller(s.pcs[a.t]) == Some(s.pcs[a.t].c); }
      StepKeepsLock(s, a);
      StepKeepsMeet(s, a);
      StepKeepsCounts(s, a);
      StepKeepsFifo(s, a);
      StepKeepsPlaces(s, a, home);
      home := NextHome(s, a, home);
      hide PlacesOk;
    }
  }

  /** Prepared elements and waiting consumers are never there at the same time. */
  lemma NeverBoth<E>(states: seq<State<E>>, acts: seq<Action<E>>, k: nat)
    requires Run(states, acts) && k < |states|
    ensures states[k].prepared == 0 || states[k].waiting == 0
  {
    var home := RunInv(states, acts, k);
    hide PlacesOk, CountsOk;
  }

  /** A claimed handle is in the list when it is popped, and a resumed consumer finds an element. */
  lemma NeverStarved<E>(states: seq<State<E>>, acts: seq<Action<E>>, k: nat)
    requires Run(states, acts) && k < |states|
    ensures var s := states[k];
      && (forall t :: 0 <= t < |s.pcs| && s.pcs[t].HandlePop? ==> s.handles != [])
      && (s.runnable != {} ==> s.elements != []) && |s.runnable| <= |s.elements|
  {
    var s := states[k];
    var home := RunInv(states, acts, k);
    hide PlacesOk, MeetOk, FifoOk;
    forall t | 0 <= t < |s.pcs| && s.pcs[t].HandlePop? ensures s.handles != [] {
      HandlersUpdate(s.pcs, t, s.pcs[t]);
    }
  }

  /** Each element goes to exactly one consumer and each consumer gets exactly one, in order. */
  lemma HandedOutOnce<E>(states: seq<State<E>>, acts: seq<Action<E>>, k: nat)
    requires Run(states, acts) && k < |states|
    ensures var s := states[k];
      && |s.taken| <= |s.pushed| && (forall i :: 0 <= i < |s.taken| ==> s.taken[i].1 == s.pushed[i])
      && (forall i, j :: 0 <= i < j < |s.taken| ==> s.taken[i].0 != s.taken[j].0)
      && s.elements == s.pushed[|s.taken|..]
  {
    var home := RunInv(states, acts, k);
    hide CountsOk, MeetOk, LockOk;
  }

  /** No lost wakeup: when no call is in progress, either nobody waits or every element that is left
      belongs to a consumer already on its way. */
  lemma NobodyForgotten<E>(states: seq<State<E>>, acts: seq<Action<E>>, k: nat)
    requires Run(states, acts) && k < |states|
    requires forall t :: 0 <= t < |states[k].pcs| ==> states[k].pcs[t] == Idle
    ensures states[k].handles == [] || |states[k].elements| == |states[k].runnable|
  {
    var s := states[k];
    var home := RunInv(states, acts, k);
    hide PlacesOk, FifoOk;
    assert Tickets(s.pcs) == {} && Handlers(s.pcs) == {};
  }
}
