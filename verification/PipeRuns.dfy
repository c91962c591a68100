/**
 The pipe told by the calls of a run: every `co_await` is somewhere, in exactly one place, and every
 element that was given to `emplace` is in the pipe or with one consumer.
 */
module PipeRuns {
  import opened Collections
  import opened Pipe

  // ---- where every await is --------------------------------------------------------------------

  ghost predicate InCall<E>(s: State<E>, c: Cid) {
    exists t :: 0 <= t < |s.pcs| && Caller(s.pcs[t]) == Some(c)
  }

  ghost predicate Served<E>(s: State<E>, c: Cid) {
    exists i :: 0 <= i < |s.taken| && s.taken[i].0 == c
  }

  /** The place the map gives to an await is where it is. */
  ghost predicate Found<E>(s: State<E>, c: Cid, p: Place) {
    match p
    case Calling(t) => 0 <= t < |s.pcs| && Caller(s.pcs[t]) == Some(c)
    case Listed => c in s.handles
    case Runnable => c in s.runnable
  }

  /** No await is lost: each has a place, or it has been served. */
  ghost predicate KeptOk<E>(s: State<E>, home: map<Cid, Place>) {
    && (forall c :: 0 <= c < s.awaits ==> c in home || Served(s, c))
    && (forall c <- home :: 0 <= c && Found(s, c, home[c]))
  }

  lemma ServedStays<E>(s: State<E>, s': State<E>)
    requires s.taken <= s'.taken
    ensures forall c :: Served(s, c) ==> Served(s', c)
  {
    forall c | Served(s, c) ensures Served(s', c) {
      var i :| 0 <= i < |s.taken| && s.taken[i].0 == c;
      assert s'.taken[i] == s.taken[i];
    }
  }

  lemma CallKeeps<E>(s: State<E>, a: Action<E>, home: map<Cid, Place>)
    requires PlacesOk(s, home) && KeptOk(s, home) && Enabled(s, a) && !a.Go?
    ensures KeptOk(Step(s, a), NextHome(s, a, home))
  {
    var s', home' := Step(s, a), NextHome(s, a, home);
    ServedStays(s, s');
    hide Served;
    if a.Resume? {
      assert s'.taken[|s.taken|].0 == a.c;
      assert Served(s', a.c) by { ServedLast(s', |s.taken|); }
    }
    forall c | c in home' ensures 0 <= c && Found(s', c, home'[c]) {
      if c in home { assert Found(s, c, home[c]); }
    }
  }

  lemma ServedLast<E>(s: State<E>, i: nat)
    requires i < |s.taken|
    ensures Served(s, s.taken[i].0)
  {
  }

  lemma PopKeeps<E>(s: State<E>, t: nat, home: map<Cid, Place>)
    requires PlacesOk(s, home) && KeptOk(s, home) && Enabled(s, Go(t)) && s.pcs[t].HandlePop?
    ensures KeptOk(EmplaceStep(s, t), home[s.handles[0] := Calling(t)])
  {
    var s', home' := EmplaceStep(s, t), home[s.handles[0] := Calling(t)];
    ServedStays(s, s');
    hide Served;
    forall c | c in home' ensures 0 <= c && Found(s', c, home'[c]) {
      if c in home { assert Found(s, c, home[c]); }
      assert At(home, s.handles[0], Listed);
    }
  }

  lemma PassKeeps<E>(s: State<E>, t: nat, home: map<Cid, Place>)
    requires PlacesOk(s, home) && KeptOk(s, home) && Enabled(s, Go(t)) && (s.pcs[t].AwaitPush? || s.pcs[t].Dispatch?)
    ensures KeptOk(AwaitStep(s, t), home[s.pcs[t].c := if s.pcs[t].AwaitPush? then Listed else Runnable])
  {
    var pc := s.pcs[t];
    var s', home' := AwaitStep(s, t), home[pc.c := if pc.AwaitPush? then Listed else Runnable];
    assert Caller(pc) == Some(pc.c);
    ServedStays(s, s');
    hide Served;
    forall c | c in home' ensures 0 <= c && Found(s', c, home'[c]) {
      if c in home { assert Found(s, c, home[c]); }
    }
  }

  /** Any other step leaves its caller with the activity. */
  lemma OtherCaller<E>(s: State<E>, t: nat)
    requires Enabled(s, Go(t)) && !s.pcs[t].HandlePop? && !s.pcs[t].AwaitPush? && !s.pcs[t].Dispatch?
    ensures Caller(Step(s, Go(t)).pcs[t]) == Caller(s.pcs[t])
  {
    if AwaitSide(s.pcs[t]) { hide EmplaceStep; } else { hide AwaitStep; }
  }

  lemma OtherKeeps<E>(s: State<E>, t: nat, home: map<Cid, Place>)
    requires PlacesOk(s, home) && KeptOk(s, home) && Enabled(s, Go(t))
    requires !s.pcs[t].HandlePop? && !s.pcs[t].AwaitPush? && !s.pcs[t].Dispatch?
    ensures KeptOk(Step(s, Go(t)), home)
  {
    OtherStep(s, t);
    OtherCaller(s, t);
    var s' := Step(s, Go(t));
    ServedStays(s, s');
    hide Step, Caller, Served;
    forall c | c in home ensures Found(s', c, home[c]) {
      assert Found(s, c, home[c]);
    }
  }

  lemma StepKeepsKept<E>(s: State<E>, a: Action<E>, home: map<Cid, Place>)
    requires PlacesOk(s, home) && KeptOk(s, home) && Enabled(s, a)
    ensures KeptOk(Step(s, a), NextHome(s, a, home))
  {
    hide AwaitStep, EmplaceStep, PlacesOk, KeptOk;
    if !a.Go? { CallKeeps(s, a, home); }
    else if s.pcs[a.t].HandlePop? { PopKeeps(s, a.t, home); }
    else if s.pcs[a.t].AwaitPush? || s.pcs[a.t].Dispatch? { PassKeeps(s, a.t, home); }
    else { OtherKeeps(s, a.t, home); }
  }

  lemma {:induction false} RunKept<E>(states: seq<State<E>>, acts: seq<Action<E>>, k: nat)
    returns (home: map<Cid, Place>)
    requires Run(states, acts) && k < |states|
    ensures PlacesOk(states[k], home) && KeptOk(states[k], home)
  {
    if k == 0 {
      home := map[];
    } else {
      home := RunKept(states, acts, k - 1);
      hide Step, PlacesOk, KeptOk;
      StepKeepsPlaces(states[k - 1], acts[k - 1], home);
      StepKeepsKept(states[k - 1], acts[k - 1], home);
      home := NextHome(states[k - 1], acts[k - 1], home);
    }
  }

  /** In every run each `co_await` so far is in exactly one place: in a call in progress, suspended in
      the list, dispatched, or served with an element. */
  lemma AwaitsAreKept<E>(states: seq<State<E>>, acts: seq<Action<E>>, k: nat, c: Cid)
    requires Run(states, acts) && k < |states|
    ensures var s := states[k];
      && (0 <= c < s.awaits <==> InCall(s, c) || c in s.handles || c in s.runnable || Served(s, c))
      && !(InCall(s, c) && c in s.handles) && !(InCall(s, c) && c in s.runnable) && !(InCall(s, c) && Served(s, c))
      && !(c in s.handles && c in s.runnable) && !(c in s.handles && Served(s, c))
      && !(c in s.runnable && Served(s, c))
  {
    var home := RunKept(states, acts, k);
    hide Caller, Run;
    var s := states[k];
    if c in home { assert Found(s, c, home[c]); }
    if InCall(s, c) { assert At(home, c, home[c]); }
    if c in s.handles { assert At(home, c, Listed); }
    if c in s.runnable { assert At(home, c, Runnable); }
    if Served(s, c) {
      var i :| 0 <= i < |s.taken| && s.taken[i].0 == c;
      ServedIsAwait(states, acts, k, i);
    }
  }

  /** Only awaits that were made are served. */
  lemma {:induction false} ServedIsAwait<E>(states: seq<State<E>>, acts: seq<Action<E>>, k: nat, i: nat)
    requires Run(states, acts) && k < |states| && i < |states[k].taken|
    ensures 0 <= states[k].taken[i].0 < states[k].awaits
  {
    var home := RunKept(states, acts, k);
    if k > 0 {
      var before := RunKept(states, acts, k - 1);
      if i < |states[k - 1].taken| {
        ServedIsAwait(states, acts, k - 1, i);
        TakenStays(states[k - 1], acts[k - 1]);
      } else {
        TakenStays(states[k - 1], acts[k - 1]);
        assert At(before, acts[k - 1].c, Runnable);
      }
    }
  }

  lemma TakenStays<E>(s: State<E>, a: Action<E>)
    requires Enabled(s, a)
    ensures Step(s, a).taken == if a.Resume? then s.taken + [(a.c, s.elements[0])] else s.taken
    ensures Step(s, a).awaits == s.awaits + if a.Await? then 1 else 0
    ensures Step(s, a).pushed == if a.Go? && s.pcs[a.t].EmplacePush? then s.pushed + [s.pcs[a.t].e] else s.pushed
  {
    if a.Go? && AwaitSide(s.pcs[a.t]) { hide EmplaceStep; } else { hide AwaitStep; }
  }

  // ---- numbers -----------------------------------------------------------------------------------

  ghost function Numbers(n: nat): set<int> {
    if n == 0 then {} else Numbers(n - 1) + {n - 1}
  }

  lemma {:induction false} NumbersAre(n: nat)
    ensures |Numbers(n)| == n && forall c :: c in Numbers(n) <==> 0 <= c < n
  {
    if n > 0 { NumbersAre(n - 1); }
  }

  ghost function TakenBy<E>(taken: seq<(Cid, E)>): set<Cid> {
    set i | 0 <= i < |taken| :: taken[i].0
  }

  lemma {:induction false} TakenSize<E>(taken: seq<(Cid, E)>)
    requires forall i, j :: 0 <= i < j < |taken| ==> taken[i].0 != taken[j].0
    ensures |TakenBy(taken)| == |taken|
  {
    if taken == [] {
      assert TakenBy(taken) == {};
    } else {
      var n := |taken| - 1;
      TakenSize(taken[..n]);
      assert TakenBy(taken) == TakenBy(taken[..n]) + {taken[n].0};
    }
  }

  ghost function Members(s: seq<Cid>): set<Cid> {
    set c <- s
  }

  lemma {:induction false} MembersSize(s: seq<Cid>)
    requires forall i, j :: 0 <= i < j < |s| ==> s[i] != s[j]
    ensures |Members(s)| == |s|
  {
    if s == [] {
      assert Members(s) == {};
    } else {
      var n := |s| - 1;
      MembersSize(s[..n]);
      assert Members(s) == Members(s[..n]) + {s[n]};
    }
  }

  lemma UnionSize(a: set<int>, b: set<int>, c: set<int>)
    requires a !! b && a !! c && b !! c
    ensures |a + b + c| == |a| + |b| + |c|
  {
    assert (a + b) !! c;
  }

  ghost predicate AtRest<E>(s: State<E>) {
    forall t :: 0 <= t < |s.pcs| ==> s.pcs[t] == Idle
  }

  /** With no call in progress the awaits are the suspended, the dispatched and the served. */
  lemma AwaitsAddUp<E>(states: seq<State<E>>, acts: seq<Action<E>>, k: nat)
    requires Run(states, acts) && k < |states| && AtRest(states[k])
    ensures var s := states[k]; s.awaits == |s.handles| + |s.runnable| + |s.taken|
  {
    var s := states[k];
    NumbersAre(s.awaits);
    forall c ensures c in Numbers(s.awaits) <==> c in Members(s.handles) + s.runnable + TakenBy(s.taken) {
      AwaitsAreKept(states, acts, k, c);
    }
    forall c ensures !(c in s.handles && c in s.runnable) && !(c in s.handles && Served(s, c))
                     && !(c in s.runnable && Served(s, c))
    {
      AwaitsAreKept(states, acts, k, c);
    }
    var home := RunKept(states, acts, k);
    assert Numbers(s.awaits) == Members(s.handles) + s.runnable + TakenBy(s.taken);
    MembersSize(s.handles);
    TakenSize(s.taken);
    UnionSize(Members(s.handles), s.runnable, TakenBy(s.taken));
  }

  // ---- the calls of the run ----------------------------------------------------------------------

  /** The number of `co_await`s among the first `k` actions. */
  ghost function Awaits<E>(acts: seq<Action<E>>, k: nat): nat
    requires k <= |acts|
  {
    if k == 0 then 0 else Awaits(acts, k - 1) + if acts[k - 1].Await? then 1 else 0
  }

  lemma {:induction false} AwaitsAreActions<E>(states: seq<State<E>>, acts: seq<Action<E>>, k: nat)
    requires Run(states, acts) && k < |states|
    ensures states[k].awaits == Awaits(acts, k)
  {
    hide Step, Enabled;
    if k > 0 {
      AwaitsAreActions(states, acts, k - 1);
      TakenStays(states[k - 1], acts[k - 1]);
    }
  }

  /** The elements given to `emplace` among the first `k` actions. */
  ghost function Emplaced<E>(acts: seq<Action<E>>, k: nat): multiset<E>
    requires k <= |acts|
  {
    if k == 0 then multiset{}
    else Emplaced(acts, k - 1) + if acts[k - 1].Emplace? then multiset{acts[k - 1].e} else multiset{}
  }

  /** The elements of calls to `emplace` that have not yet pushed them. */
  ghost function Arriving<E>(pcs: seq<Pc<E>>): multiset<E> {
    if pcs == [] then multiset{} else Arriving(pcs[1..]) + Carried(pcs[0])
  }

  ghost function Carried<E>(pc: Pc<E>): multiset<E> {
    if pc.EmplacePush? then multiset{pc.e} else multiset{}
  }

  lemma {:induction false} ArrivingUpdate<E>(pcs: seq<Pc<E>>, t: nat, pc: Pc<E>)
    requires t < |pcs|
    ensures Arriving(pcs[t := pc]) + Carried(pcs[t]) == Arriving(pcs) + Carried(pc)
  {
    hide Carried;
    if t == 0 {
      assert pcs[0 := pc][1..] == pcs[1..];
    } else {
      assert pcs[t := pc][1..] == pcs[1..][t - 1 := pc];
      ArrivingUpdate(pcs[1..], t - 1, pc);
      AddBoth(Arriving(pcs[1..][t - 1 := pc]), Carried(pcs[t]), Arriving(pcs[1..]), Carried(pc), Carried(pcs[0]));
    }
  }

  lemma AddBoth<E>(a: multiset<E>, b: multiset<E>, c: multiset<E>, d: multiset<E>, x: multiset<E>)
    requires a + b == c + d
    ensures (a + x) + b == (c + x) + d
  {
    assert (a + x) + b == (a + b) + x;
    assert (c + x) + d == (c + d) + x;
  }

  lemma {:induction false} NoneArriving<E>(pcs: seq<Pc<E>>)
    requires forall t :: 0 <= t < |pcs| ==> pcs[t] == Idle
    ensures Arriving(pcs) == multiset{}
  {
    if pcs != [] { NoneArriving(pcs[1..]); }
  }

  lemma PcStep<E>(s: State<E>, a: Action<E>)
    requires Enabled(s, a)
    ensures var s' := Step(s, a);
      if a.Resume? then s'.pcs == s.pcs
      else
        && a.t < |s'.pcs| && s'.pcs == s.pcs[a.t := s'.pcs[a.t]]
        && Carried(s'.pcs[a.t]) == (if a.Emplace? then multiset{a.e} else multiset{})
        && (!a.Go? ==> Carried(s.pcs[a.t]) == multiset{})
  {
    if a.Go? && AwaitSide(s.pcs[a.t]) { hide EmplaceStep; } else { hide AwaitStep; }
  }

  /** A new element arrives, or nothing happens ... */
  lemma Arrives<E>(p: multiset<E>, arriving: multiset<E>, after: multiset<E>, now: multiset<E>)
    requires after + multiset{} == arriving + now
    ensures p + arriving + now == p + after
  {
    assert p + arriving + now == p + (arriving + now);
    assert after + multiset{} == after;
  }

  /** ... or one moves from the calls to what was pushed. */
  lemma Moves<E>(p: seq<E>, arriving: multiset<E>, after: multiset<E>, e: E)
    requires after + multiset{e} == arriving + multiset{}
    ensures multiset(p) + arriving == multiset(p + [e]) + after
  {
    assert multiset(p + [e]) == multiset(p) + multiset{e};
    assert arriving + multiset{} == arriving;
    assert multiset(p) + (after + multiset{e}) == multiset(p) + multiset{e} + after;
  }

  lemma StepKeepsArrivals<E>(s: State<E>, a: Action<E>, given: multiset<E>)
    requires Enabled(s, a) && given == multiset(s.pushed) + Arriving(s.pcs)
    ensures given + (if a.Emplace? then multiset{a.e} else multiset{})
         == multiset(Step(s, a).pushed) + Arriving(Step(s, a).pcs)
  {
    TakenStays(s, a);
    PcStep(s, a);
    hide Step, Arriving, Enabled;
    if !a.Resume? {
      ArrivingUpdate(s.pcs, a.t, Step(s, a).pcs[a.t]);
      var after := Arriving(Step(s, a).pcs);
      if a.Go? && s.pcs[a.t].EmplacePush? {
        Moves(s.pushed, Arriving(s.pcs), after, s.pcs[a.t].e);
      } else {
        Arrives(multiset(s.pushed), Arriving(s.pcs), after, Carried(Step(s, a).pcs[a.t]));
      }
    }
  }

  /** Every element given to `emplace` so far is pushed or about to be. */
  lemma {:induction false} PushedIsEmplaced<E>(states: seq<State<E>>, acts: seq<Action<E>>, k: nat)
    requires Run(states, acts) && k < |states|
    ensures Emplaced(acts, k) == multiset(states[k].pushed) + Arriving(states[k].pcs)
  {
    hide Step, Enabled;
    if k == 0 {
      NoneArriving(states[0].pcs);
    } else {
      PushedIsEmplaced(states, acts, k - 1);
      StepKeepsArrivals(states[k - 1], acts[k - 1], Emplaced(acts, k - 1));
    }
  }

  /** With no call in progress: every `co_await` of the run has been served or is on its way, or every
      element left belongs to a consumer on its way; and the elements served and left are exactly those
      given to `emplace`. */
  lemma NoConsumerSleeps<E>(states: seq<State<E>>, acts: seq<Action<E>>, k: nat)
    requires Run(states, acts) && k < |states| && AtRest(states[k])
    ensures var s := states[k];
      && (Awaits(acts, k) == |s.runnable| + |s.taken| || |s.elements| == |s.runnable|)
      && Emplaced(acts, k) == multiset(s.pushed) && |s.pushed| == |s.taken| + |s.elements|
  {
    AwaitsAreActions(states, acts, k);
    AwaitsAddUp(states, acts, k);
    NobodyForgotten(states, acts, k);
    HandedOutOnce(states, acts, k);
    PushedIsEmplaced(states, acts, k);
    NoneArriving(states[k].pcs);
  }

  // ---- calls end -----------------------------------------------------------------------------------

  /** The steps a call can still take. */
  function Left<E>(pc: Pc<E>): nat {
    match pc
    case Idle => 0
    case AwaitFast(_) => 6
    case AwaitLock(_) => 5
    case AwaitRetry(_) => 4
    case AwaitPush(_) => 3
    case AwaitCount(_) => 2
    case AwaitWon(_) => 2
    case EmplacePush(_) => 6
    case EmplaceFast => 5
    case ClaimLock => 4
    case EmplaceLock => 4
    case EmplaceRetry => 3
    case EmplaceCount => 2
    case HandlePop => 2
    case Dispatch(_) => 1
    case Unlock => 1
  }

  /** No call takes more than six steps of its own, and while calls are in progress one can go on. */
  lemma CallsEnd<E>(states: seq<State<E>>, acts: seq<Action<E>>, k: nat)
    requires Run(states, acts) && k < |states|
    ensures forall t | 0 <= t < |states[k].pcs| && Enabled(states[k], Go(t)) ::
              Left(Step(states[k], Go(t)).pcs[t]) < Left(states[k].pcs[t]) <= 6
    ensures AtRest(states[k]) || exists t :: 0 <= t < |states[k].pcs| && Enabled(states[k], Go(t))
  {
    var s := states[k];
    forall t | 0 <= t < |s.pcs| && Enabled(s, Go(t)) ensures Left(Step(s, Go(t)).pcs[t]) < Left(s.pcs[t]) <= 6 {
      StepLowers(s, t);
    }
    var home := RunInv(states, acts, k);
    NeverStarved(states, acts, k);
    LockIsHeld(states, acts, k);
    hide CountsOk, MeetOk, FifoOk, PlacesOk, Run;
    SomeoneGoes(s);
  }

  lemma StepLowers<E>(s: State<E>, t: nat)
    requires Enabled(s, Go(t))
    ensures Left(Step(s, Go(t)).pcs[t]) < Left(s.pcs[t]) <= 6
  {
    if AwaitSide(s.pcs[t]) { hide EmplaceStep; } else { hide AwaitStep; }
  }

  lemma SomeoneGoes<E>(s: State<E>)
    requires forall t :: 0 <= t < |s.pcs| && s.pcs[t].HandlePop? ==> s.handles != []
    requires LockOk(s) && forall t :: s.lock == Some(t) ==> t < |s.pcs|
    ensures AtRest(s) || exists t :: 0 <= t < |s.pcs| && Enabled(s, Go(t))
  {
    if t :| 0 <= t < |s.pcs| && s.pcs[t] != Idle && s.lock.None? {
      assert Enabled(s, Go(t));
    } else if s.lock.Some? {
      assert Locked(s.pcs[s.lock.value]);
      assert Enabled(s, Go(s.lock.value));
    }
  }

  /** The lock is held by an activity that exists. */
  lemma {:induction false} LockIsHeld<E>(states: seq<State<E>>, acts: seq<Action<E>>, k: nat)
    requires Run(states, acts) && k < |states|
    ensures states[k].lock.Some? ==> states[k].lock.value < |states[k].pcs|
  {
    if k > 0 {
      LockIsHeld(states, acts, k - 1);
      LockStep(states[k - 1], acts[k - 1]);
    }
  }

  lemma LockStep<E>(s: State<E>, a: Action<E>)
    requires Enabled(s, a)
    ensures |Step(s, a).pcs| == |s.pcs|
    ensures Step(s, a).lock == s.lock || Step(s, a).lock == None || (a.Go? && Step(s, a).lock == Some(a.t))
  {
    if a.Go? && AwaitSide(s.pcs[a.t]) { hide EmplaceStep; } else { hide AwaitStep; }
  }
}
