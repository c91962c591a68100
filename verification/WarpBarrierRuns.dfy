/**
 Barriers told by the calls of a run: a routine pushed before a barrier was requested runs before
 anything pushed behind that barrier, and no barrier blocks a warp for ever.
 */
module WarpBarrierRuns {
  import opened Collections
  import opened WarpBarrier

  function One(b: bool): nat {
    if b then 1 else 0
  }

  /** Barriers requested by the first `k` actions. */
  function Requests(acts: seq<Action>, k: nat): nat
    requires k <= |acts|
  {
    if k == 0 then 0 else Requests(acts, k - 1) + One(acts[k - 1].Request?)
  }

  predicate Pushes(a: Action, j: nat) {
    a == Push(j) || a == PostBarrier(j)
  }

  /** Items pushed to buffer `j` by the first `k` actions. */
  function ItemsTo(acts: seq<Action>, k: nat, j: nat): nat
    requires k <= |acts|
  {
    if k == 0 then 0 else ItemsTo(acts, k - 1, j) + One(Pushes(acts[k - 1], j))
  }

  /** Items popped from buffer `j` by the first `k` actions. */
  function Pops(states: seq<State>, acts: seq<Action>, k: nat, j: nat): nat
    requires k <= |acts| && k <= |states|
  {
    if k == 0 then 0
    else Pops(states, acts, k - 1, j) + One(acts[k - 1] == Pop && states[k - 1].ex.At? && states[k - 1].ex.i == j)
  }

  lemma RunStep(states: seq<State>, acts: seq<Action>, i: nat)
    requires Run(states, acts) && i < |acts|
    ensures |states| == |acts| + 1 && Enabled(states[i], acts[i]) && states[i + 1] == Step(states[i], acts[i])
  {
    assert Next(states[i], acts[i], states[i + 1]);
  }

  // ---- histories are actions -------------------------------------------------------------------------

  lemma StepRecords(s: State, a: Action, j: nat)
    requires Enabled(s, a) && j < |s.hist|
    ensures var s' := Step(s, a);
      && |s'.hist| == |s'.head| == |s'.posting| == |s.hist| && s'.requested == s.requested + One(a.Request?)
      && s'.hist[j] == (if a == Push(j) then s.hist[j] + [Routine(s.requested)]
                        else if a == PostBarrier(j) && s.posting[j].Some? then s.hist[j] + [Barrier(s.posting[j].value)]
                        else s.hist[j])
      && s'.posting[j] == (if a == Request(j) then Some(s.requested + 1)
                           else if a == PostBarrier(j) then None else s.posting[j])
      && s'.head[j] == s.head[j] + One(a == Pop && s.ex.At? && s.ex.i == j)
      && (a == PostBarrier(j) ==> s.posting[j].Some?) && (a == Request(j) ==> s.posting[j] == None)
  {
    match a
    case Push(_) =>
    case Request(_) =>
    case PostBarrier(_) =>
    case Begin =>
    case Pop =>
    case Finish(_) =>
    case Advance =>
  }

  ghost predicate Counted(states: seq<State>, acts: seq<Action>, k: nat, j: nat)
    requires k < |states| && k <= |acts|
  {
    var s := states[k];
    && j < |s.hist| == |s.head| == |s.posting| == |states[0].hist|
    && s.requested == Requests(acts, k) && |s.hist[j]| == ItemsTo(acts, k, j) && s.head[j] == Pops(states, acts, k, j)
  }

  lemma StepCounts(s: State, a: Action, j: nat)
    requires Enabled(s, a) && j < |s.hist| && j < |Step(s, a).hist|
    ensures Step(s, a).requested == s.requested + One(a.Request?)
    ensures |Step(s, a).hist[j]| == |s.hist[j]| + One(Pushes(a, j))
  {
    hide Step;
    StepRecords(s, a, j);
  }

  lemma {:induction false} PushesCounted(states: seq<State>, acts: seq<Action>, k: nat, j: nat)
    requires Run(states, acts) && k < |states| && j < |states[0].hist|
    ensures |states| == |acts| + 1 && j < |states[k].hist|
    ensures states[k].requested == Requests(acts, k) && |states[k].hist[j]| == ItemsTo(acts, k, j)
  {
    hide Run, Step, Enabled, Pushes;
    SameSizes(states, acts, k);
    if k == 0 {
      NothingYet(states, acts, j);
    } else {
      PushesCounted(states, acts, k - 1, j);
      RunStep(states, acts, k - 1);
      StepCounts(states[k - 1], acts[k - 1], j);
    }
  }

  lemma NothingYet(states: seq<State>, acts: seq<Action>, j: nat)
    requires Run(states, acts) && j < |states[0].hist|
    ensures |states| == |acts| + 1 && states[0].requested == 0 && states[0].hist[j] == []
  {
  }

  lemma {:induction false} PopsCounted(states: seq<State>, acts: seq<Action>, k: nat, j: nat)
    requires Run(states, acts) && k < |states| && j < |states[0].hist|
    ensures |states| == |acts| + 1 && j < |states[k].head| && states[k].head[j] == Pops(states, acts, k, j)
  {
    SameSizes(states, acts, k);
    if k > 0 {
      SameSizes(states, acts, k - 1);
      PopsCounted(states, acts, k - 1, j);
      RunStep(states, acts, k - 1);
      hide Run, Step, Enabled;
      StepRecords(states[k - 1], acts[k - 1], j);
    }
  }

  /** Requests, pushes and pops are what the actions say. */
  lemma CountsAreActions(states: seq<State>, acts: seq<Action>, k: nat, j: nat)
    requires Run(states, acts) && k < |states| && j < |states[0].hist|
    ensures Counted(states, acts, k, j)
  {
    hide Requests, ItemsTo, Pops;
    SameSizes(states, acts, k);
    PushesCounted(states, acts, k, j);
    PopsCounted(states, acts, k, j);
  }

  /** A push stays where it was put. */
  lemma {:induction false} ItemsStay(states: seq<State>, acts: seq<Action>, i: nat, k: nat, j: nat)
    requires Run(states, acts) && i <= k < |states| && j < |states[0].hist|
    ensures Counted(states, acts, i, j) && Counted(states, acts, k, j) && states[i].hist[j] <= states[k].hist[j]
  {
    CountsAreActions(states, acts, i, j);
    CountsAreActions(states, acts, k, j);
    if i < k {
      ItemsStay(states, acts, i, k - 1, j);
      RunStep(states, acts, k - 1);
      hide Run, Step, Enabled;
      StepRecords(states[k - 1], acts[k - 1], j);
    }
  }

  /** The routine pushed by action `x` carries the number of barriers requested before. */
  lemma RoutineAt(states: seq<State>, acts: seq<Action>, x: nat, k: nat, j: nat)
    requires Run(states, acts) && x < k < |states| && j < |states[0].hist| && acts[x] == Push(j)
    ensures Counted(states, acts, k, j) && ItemsTo(acts, x, j) < |states[k].hist[j]|
    ensures states[k].hist[j][ItemsTo(acts, x, j)] == Routine(Requests(acts, x))
  {
    RunStep(states, acts, x);
    CountsAreActions(states, acts, x, j);
    ItemsStay(states, acts, x + 1, k, j);
    hide Run, Step, Enabled;
    StepRecords(states[x], acts[x], j);
  }

  lemma {:induction false} SameSizes(states: seq<State>, acts: seq<Action>, k: nat)
    requires Run(states, acts) && k < |states|
    ensures Sized(states[k]) && |states[k].hist| == |states[0].hist|
  {
    if k > 0 {
      SameSizes(states, acts, k - 1);
      RunStep(states, acts, k - 1);
      hide Run, Step;
      StepSizes(states[k - 1], acts[k - 1]);
    }
  }

  lemma StepSizes(s: State, a: Action)
    requires Enabled(s, a)
    ensures Sized(Step(s, a)) && |Step(s, a).hist| == |s.hist|
  {
  }

  /** Between the request of a barrier and its push the worker holds its number. */
  lemma {:induction false} RequestHeld(states: seq<State>, acts: seq<Action>, y: nat, z: nat, i: nat)
    requires Run(states, acts) && y < z < |states| && i < |states[0].hist| && acts[y] == Request(i)
    requires forall m :: y < m < z ==> acts[m] != PostBarrier(i)
    ensures |states[z].posting| == |states[0].hist| && states[z].posting[i] == Some(states[y].requested + 1)
  {
    SameSizes(states, acts, z - 1);
    RunStep(states, acts, z - 1);
    if z > y + 1 { RequestHeld(states, acts, y, z - 1, i); }
    hide Run, Step, Enabled;
    StepRecords(states[z - 1], acts[z - 1], i);
  }

  lemma PostRecords(s: State, i: nat, v: nat)
    requires Enabled(s, PostBarrier(i)) && s.posting[i] == Some(v)
    ensures |Step(s, PostBarrier(i)).hist| == |s.hist| && Step(s, PostBarrier(i)).hist[i] == s.hist[i] + [Barrier(v)]
  {
  }

  lemma BarrierAt(states: seq<State>, acts: seq<Action>, y: nat, z: nat, k: nat, i: nat)
    requires Run(states, acts) && y < z < k < |states| && i < |states[0].hist|
    requires acts[y] == Request(i) && acts[z] == PostBarrier(i) && forall m :: y < m < z ==> acts[m] != PostBarrier(i)
    ensures Counted(states, acts, k, i) && ItemsTo(acts, z, i) < |states[k].hist[i]|
    ensures states[k].hist[i][ItemsTo(acts, z, i)] == Barrier(Requests(acts, y) + 1)
  {
    hide Step, Enabled, Requests, ItemsTo, Pops;
    RunStep(states, acts, z);
    CountsAreActions(states, acts, y, i);
    CountsAreActions(states, acts, z, i);
    RequestHeld(states, acts, y, z, i);
    ItemsStay(states, acts, z + 1, k, i);
    hide Run;
    PostRecords(states[z], i, states[y].requested + 1);
    Landed(states[z].hist[i], states[z + 1].hist[i], states[k].hist[i], Barrier(states[y].requested + 1));
  }

  lemma Landed(before: seq<Item>, after: seq<Item>, later: seq<Item>, x: Item)
    requires after == before + [x] && after <= later
    ensures |before| < |later| && later[|before|] == x
  {
  }

  lemma {:induction false} RequestsGrow(acts: seq<Action>, x: nat, y: nat)
    requires x <= y <= |acts|
    ensures Requests(acts, x) <= Requests(acts, y)
  {
    if x < y { RequestsGrow(acts, x, y - 1); }
  }

  lemma {:induction false} PushedGrow(acts: seq<Action>, z: nat, w: nat, i: nat)
    requires z < w <= |acts| && Pushes(acts[z], i)
    ensures ItemsTo(acts, z, i) < ItemsTo(acts, w, i)
  {
    if z + 1 < w { PushedGrow(acts, z, w - 1, i); }
  }

  /** The barrier's promise, by actions alone.  Action `x` pushes a routine to buffer `j`; later worker
      `i` requests a barrier (`y`), posts it (`z`) and pushes something behind it (`w`); action `k` pops
      that.  Then the routine of `x` has been popped before. */
  lemma BarrierSeparates(states: seq<State>, acts: seq<Action>, x: nat, y: nat, z: nat, w: nat, k: nat, i: nat, j: nat)
    requires Run(states, acts) && x < y < z < w < k < |acts| && i < |states[0].hist| && j < |states[0].hist|
    requires acts[x] == Push(j) && acts[y] == Request(i) && acts[z] == PostBarrier(i) && Pushes(acts[w], i)
    requires forall m :: y < m < z ==> acts[m] != PostBarrier(i)
    requires acts[k] == Pop && states[k].ex.At? && states[k].ex.i == i
    requires Pops(states, acts, k, i) == ItemsTo(acts, w, i)
    ensures Pops(states, acts, k, j) > ItemsTo(acts, x, j)
  {
    CountsAreActions(states, acts, k, i);
    CountsAreActions(states, acts, k, j);
    RoutineAt(states, acts, x, k, j);
    BarrierAt(states, acts, y, z, k, i);
    RequestsGrow(acts, x, y);
    PushedGrow(acts, z, w, i);
    BarrierRespected(states, acts, k, ItemsTo(acts, z, i), j, ItemsTo(acts, x, j));
  }

  // ---- the current version moves on --------------------------------------------------------------------

  /** One of the first `n` buffers has executed the barrier after the current version. */
  ghost predicate DueBelow(s: State, n: int) {
    exists j :: 0 <= j < n && j < |s.vers| && s.vers[j] == s.current + 1
  }

  /** The round takes the next version exactly if a buffer already visited has executed its barrier. */
  ghost predicate Noticed(s: State) {
    Sized(s) && (s.ex.Off? || (s.ex.step == s.current + 1 <==> DueBelow(s, s.ex.i)))
  }

  lemma StepNotices(s: State, a: Action)
    requires Inv(s) && Noticed(s) && Enabled(s, a)
    ensures Noticed(Step(s, a))
  {
    hide HistInv, OrderInv, PostingInv, VersionInv, BlockedInv, BacklogInv;
    var s' := Step(s, a);
    match a
    case Push(_) => if !s.ex.Off? { SameDue(s, s'); }
    case Request(_) => if !s.ex.Off? { SameDue(s, s'); }
    case PostBarrier(_) => if !s.ex.Off? { SameDue(s, s'); }
    case Begin =>
    case Pop => SameDue(s, s');
    case Finish(_) => SameDue(s, s');
    case Advance => AdvanceNotices(s);
  }

  lemma SameDue(s: State, s': State)
    requires Sized(s) && Noticed(s) && Sized(s') && s'.current == s.current && !s.ex.Off? && |s'.vers| == |s.vers|
    requires s'.ex.Off? || (s'.ex.i == s.ex.i && s'.ex.step == s.ex.step)
    requires forall j :: 0 <= j < |s.vers| && j < s.ex.i ==> s'.vers[j] == s.vers[j]
    ensures Noticed(s')
  {
    if !s'.ex.Off? {
      if DueBelow(s, s.ex.i) {
        var j :| 0 <= j < s.ex.i && j < |s.vers| && s.vers[j] == s.current + 1;
        assert s'.vers[j] == s'.current + 1;
      }
      if DueBelow(s', s.ex.i) {
        var j :| 0 <= j < s.ex.i && j < |s'.vers| && s'.vers[j] == s'.current + 1;
        assert s.vers[j] == s.current + 1;
      }
    }
  }

  lemma AdvanceNotices(s: State)
    requires Inv(s) && Noticed(s) && Enabled(s, Advance)
    ensures Noticed(Step(s, Advance))
    ensures var s1 := Visit(s); s1.ex.step == s.current + 1 <==> DueBelow(s1, s.ex.i + 1)
    ensures DueBelow(Visit(s), s.ex.i + 1) <==> DueBelow(s, s.ex.i + 1)
  {
    hide HistInv, OrderInv, PostingInv, VersionInv, BlockedInv, BacklogInv;
    var s1 := Visit(s);
    var i := s.ex.i;
    if j :| 0 <= j < i + 1 && j < |s.vers| && s.vers[j] == s.current + 1 {
      assert s1.vers[j] == s1.current + 1;
      if j < i { assert DueBelow(s, i); }
    }
    if j :| 0 <= j < i + 1 && j < |s1.vers| && s1.vers[j] == s1.current + 1 {
      assert s.vers[j] == s.current + 1;
      if j < i { assert DueBelow(s, i); }
    }
    if j :| 0 <= j < i && j < |s.vers| && s.vers[j] == s.current + 1 {
      assert s1.vers[j] == s1.current + 1;
    }
    var s' := Step(s, Advance);
    if i + 1 < |s.hist| { SameDueNext(s1, s'); }
  }

  lemma SameDueNext(s1: State, s': State)
    requires s'.vers == s1.vers && s'.current == s1.current
    ensures forall n :: DueBelow(s', n) <==> DueBelow(s1, n)
  {
  }

  lemma {:induction false} RunNotices(states: seq<State>, acts: seq<Action>, k: nat)
    requires Run(states, acts) && k < |states|
    ensures Noticed(states[k])
  {
    if k > 0 {
      RunNotices(states, acts, k - 1);
      RunInv(states, acts, k - 1);
      RunStep(states, acts, k - 1);
      hide Run, Inv, Noticed, Step, Enabled;
      StepNotices(states[k - 1], acts[k - 1]);
    }
  }

  /** Some buffer has executed the barrier after the current version. */
  ghost predicate Due(s: State) {
    DueBelow(s, |s.vers|)
  }

  /** At the end of a round, and only then, current_version moves, and exactly if the next barrier has
      been executed by some buffer. */
  lemma AdvancesWhenDue(states: seq<State>, acts: seq<Action>, k: nat)
    requires Run(states, acts) && k < |acts|
    ensures states[k].ex.At? && acts[k] == Advance && states[k].ex.i + 1 == |states[k].hist| ==>
      (states[k + 1].current == states[k].current + 1 <==> Due(states[k]))
    ensures !(states[k].ex.At? && acts[k] == Advance && states[k].ex.i + 1 == |states[k].hist|) ==>
      states[k + 1].current == states[k].current
  {
    RunNotices(states, acts, k);
    RunInv(states, acts, k);
    RunStep(states, acts, k);
    hide Run;
    EndAdvances(states[k], acts[k]);
  }

  lemma EndAdvances(s: State, a: Action)
    requires Inv(s) && Noticed(s) && Enabled(s, a)
    ensures s.ex.At? && a == Advance && s.ex.i + 1 == |s.hist| ==> (Step(s, a).current == s.current + 1 <==> Due(s))
    ensures !(s.ex.At? && a == Advance && s.ex.i + 1 == |s.hist|) ==> Step(s, a).current == s.current
  {
    hide HistInv, OrderInv, PostingInv, BlockedInv, BacklogInv, VersionInv;
    if a == Advance && s.ex.i + 1 == |s.hist| { AdvanceNotices(s); }
  }

  // ---- no barrier blocks for ever ------------------------------------------------------------------------

  /** A worker has requested barrier `v` and not yet posted it. */
  ghost predicate Held(s: State, v: nat) {
    exists i :: 0 <= i < |s.posting| && s.posting[i] == Some(v)
  }

  /** Every barrier requested is in a buffer or about to be. */
  ghost predicate PostedInv(s: State) {
    forall v: nat :: 1 <= v <= s.requested ==> v in s.home || Held(s, v)
  }

  lemma StepPosts(s: State, a: Action)
    requires Enabled(s, a) && PostedInv(s)
    ensures PostedInv(Step(s, a))
  {
    var s' := Step(s, a);
    forall v: nat | 1 <= v <= s'.requested ensures v in s'.home || Held(s', v) {
      if a.Request? && v == s'.requested {
        assert s'.posting[a.i] == Some(v);
      } else {
        assert v in s.home || Held(s, v);
        if v !in s'.home {
          var i :| 0 <= i < |s.posting| && s.posting[i] == Some(v);
          assert s'.posting[i] == Some(v);
        }
      }
    }
  }

  /** A buffer that has executed a barrier ahead of the current version has popped nothing since. */
  ghost predicate LastInv(s: State)
    requires Sized(s)
  {
    forall v <- s.home :: s.current < v && Executed(s, v, s.home[v].0) ==> s.home[v].1 + 1 == s.head[s.home[v].0]
  }

  lemma StepKeepsLast(s: State, a: Action)
    requires Inv(s) && LastInv(s) && Enabled(s, a)
    ensures Sized(Step(s, a)) && LastInv(Step(s, a))
  {
    hide OrderInv, BlockedInv, BacklogInv, RoundInv;
    StepSizes(s, a);
    var s' := Step(s, a);
    forall v | v in s'.home && s'.current < v && Executed(s', v, s'.home[v].0)
      ensures s'.home[v].1 + 1 == s'.head[s'.home[v].0]
    {
      LastStays(s, a, v);
    }
  }

  lemma LastStays(s: State, a: Action, v: nat)
    requires Inv(s) && LastInv(s) && Enabled(s, a) && Sized(Step(s, a))
    requires var s' := Step(s, a); v in s'.home && s'.current < v && Executed(s', v, s'.home[v].0)
    ensures var s' := Step(s, a); s'.home[v].1 + 1 == s'.head[s'.home[v].0]
  {
    hide OrderInv, BlockedInv, BacklogInv, RoundInv;
    match a
    case Push(_) =>
    case Request(_) =>
    case PostBarrier(_) =>
    case Begin =>
    case Pop =>
    case Finish(_) =>
    case Advance => StepRaisesByOne(s, a);
  }

  lemma {:induction false} RunLast(states: seq<State>, acts: seq<Action>, k: nat)
    requires Run(states, acts) && k < |states|
    ensures Sized(states[k]) && LastInv(states[k]) && PostedInv(states[k])
  {
    if k > 0 {
      RunLast(states, acts, k - 1);
      RunInv(states, acts, k - 1);
      RunStep(states, acts, k - 1);
      hide Run, Inv, Step, Enabled, LastInv, PostedInv;
      StepKeepsLast(states[k - 1], acts[k - 1]);
      StepPosts(states[k - 1], acts[k - 1]);
    }
  }

  ghost predicate SomeRunnable(s: State)
    requires Sized(s)
  {
    exists j: nat :: j < |s.hist| && Runnable(s, j)
  }

  lemma BlockedByNext(s: State, j: nat, q: nat)
    requires Inv(s) && LastInv(s) && PostedInv(s) && !s.ex.Running? && !SomeRunnable(s)
    requires (forall i :: 0 <= i < |s.posting| ==> s.posting[i] == None) && Unrun(s, j, q)
    ensures Due(s)
  {
    assert !Runnable(s, j);
    var v := s.current + 1;
    assert s.vers[j] > s.current && v <= s.requested;
    assert v in s.home || Held(s, v);
    var b, p := s.home[v].0, s.home[v].1;
    assert Pushed(s, b, p) && s.hist[b][p] == Barrier(v);
    hide BlockedInv, BacklogInv, RoundInv, PostingInv;
    if Executed(s, v, b) {
      NextIsLast(s, v, b);
      assert s.vers[b] == s.current + 1;
    } else {
      assert Unrun(s, b, p) && !Runnable(s, b);
      NextIsOpen(s, v, b, p);
    }
  }

  lemma NextIsLast(s: State, v: nat, b: nat)
    requires Inv(s) && LastInv(s) && v == s.current + 1 && v in s.home && s.home[v].0 == b && b < |s.vers|
    requires Executed(s, v, b)
    ensures s.vers[b] == v
  {
    hide OrderInv, BlockedInv, BacklogInv, RoundInv, PostingInv;
    var u := s.vers[b];
    assert u >= v && Executed(s, u, b);
    assert s.home[u].1 + 1 == s.head[b] == s.home[v].1 + 1;
    assert s.hist[b][s.home[u].1] == Barrier(u) && s.hist[b][s.home[v].1] == Barrier(v);
  }

  /** A buffer that still has the next barrier to run is not blocked by a later one. */
  lemma NextIsOpen(s: State, v: nat, b: nat, p: nat)
    requires Inv(s) && v == s.current + 1 && b < |s.vers| && Unrun(s, b, p) && s.hist[b][p] == Barrier(v)
    ensures s.vers[b] <= s.current
  {
    hide BlockedInv, BacklogInv, RoundInv, PostingInv;
  }

  /** Whenever something is left to run, no requested barrier is still to be posted and no task is being
      executed, some buffer can run, or the current version moves on at the end of the round. */
  lemma SomethingToDo(states: seq<State>, acts: seq<Action>, k: nat, j: nat, q: nat)
    requires Run(states, acts) && k < |states| && Sized(states[k]) && Unrun(states[k], j, q)
    requires !states[k].ex.Running? && forall i :: 0 <= i < |states[k].posting| ==> states[k].posting[i] == None
    ensures SomeRunnable(states[k]) || Due(states[k])
  {
    RunLast(states, acts, k);
    RunInv(states, acts, k);
    hide Run, Inv, LastInv, PostedInv, Due, SomeRunnable;
    if !SomeRunnable(states[k]) { BlockedByNext(states[k], j, q); }
  }

  // ---- rounds go on while something runs -----------------------------------------------------------------

  /** Action `a` ends a round over the buffers. */
  predicate EndsRound(s: State, a: Action) {
    a == Advance && s.ex.At? && s.ex.i + 1 == |s.hist|
  }

  /** Tasks popped since the round began. */
  function RoundPops(states: seq<State>, acts: seq<Action>, k: nat): nat
    requires k <= |acts| && k <= |states|
  {
    if k == 0 || acts[k - 1] == Begin || EndsRound(states[k - 1], acts[k - 1]) then 0
    else RoundPops(states, acts, k - 1) + One(acts[k - 1] == Pop)
  }

  ghost predicate BusyTells(s: State, n: nat) {
    match s.ex
    case Off => true
    case At(_, busy, _) => busy <==> n > 0
    case Running(_, _, _, _) => n > 0
  }

  lemma StepTells(s: State, a: Action, n: nat)
    requires Inv(s) && Enabled(s, a) && BusyTells(s, n)
    ensures BusyTells(Step(s, a), if a == Begin || EndsRound(s, a) then 0 else n + One(a == Pop))
    ensures EndsRound(s, a) ==> (Step(s, a).ex.Off? <==> n == 0)
  {
    hide HistInv, OrderInv, PostingInv, VersionInv, BlockedInv, BacklogInv, RoundInv;
    match a
    case Push(_) =>
    case Request(_) =>
    case PostBarrier(_) =>
    case Begin =>
    case Pop =>
    case Finish(_) =>
    case Advance =>
  }

  lemma {:induction false} RunTells(states: seq<State>, acts: seq<Action>, k: nat)
    requires Run(states, acts) && k < |states|
    ensures |states| == |acts| + 1 && BusyTells(states[k], RoundPops(states, acts, k))
  {
    if k > 0 {
      RunTells(states, acts, k - 1);
      RunInv(states, acts, k - 1);
      RunStep(states, acts, k - 1);
      hide Run, Inv, Step, Enabled, BusyTells;
      StepTells(states[k - 1], acts[k - 1], RoundPops(states, acts, k - 1));
    }
  }

  /** At the end of a round the executor stops if and only if the round has run nothing. */
  lemma StopsWhenQuiet(states: seq<State>, acts: seq<Action>, k: nat)
    requires Run(states, acts) && k < |acts| && EndsRound(states[k], acts[k])
    ensures states[k + 1].ex.Off? <==> RoundPops(states, acts, k) == 0
  {
    RunTells(states, acts, k);
    RunInv(states, acts, k);
    RunStep(states, acts, k);
    hide Run, Inv, Step, Enabled, BusyTells;
    StepTells(states[k], acts[k], RoundPops(states, acts, k));
  }

  // ---- versions keep up ------------------------------------------------------------------------------------

  /** No buffer visited in this round lags behind the current version. */
  ghost predicate KeepsUp(s: State) {
    s.ex.Off? || forall j :: 0 <= j < s.ex.i && j < |s.vers| ==> s.vers[j] >= s.current
  }

  lemma StepKeepsUp(s: State, a: Action)
    requires Inv(s) && KeepsUp(s) && Enabled(s, a)
    ensures KeepsUp(Step(s, a))
    ensures EndsRound(s, a) ==> forall j :: 0 <= j < |s.vers| ==> Step(s, a).vers[j] >= s.current
  {
    hide HistInv, OrderInv, PostingInv, VersionInv, BlockedInv, BacklogInv, RoundInv;
    match a
    case Push(_) =>
    case Request(_) =>
    case PostBarrier(_) =>
    case Begin =>
    case Pop =>
    case Finish(_) =>
    case Advance =>
  }

  lemma {:induction false} RunKeepsUp(states: seq<State>, acts: seq<Action>, k: nat)
    requires Run(states, acts) && k < |states|
    ensures KeepsUp(states[k])
  {
    if k > 0 {
      RunKeepsUp(states, acts, k - 1);
      RunInv(states, acts, k - 1);
      RunStep(states, acts, k - 1);
      hide Run, Inv, Step, Enabled, KeepsUp;
      StepKeepsUp(states[k - 1], acts[k - 1]);
    }
  }

  /** At the end of a round every buffer's version has caught up with the round's version. */
  lemma VersionsCatchUp(states: seq<State>, acts: seq<Action>, k: nat, j: nat)
    requires Run(states, acts) && k < |acts| && EndsRound(states[k], acts[k]) && j < |states[k].vers|
    ensures j < |states[k + 1].vers| && states[k + 1].vers[j] >= states[k].current
  {
    RunKeepsUp(states, acts, k);
    RunInv(states, acts, k);
    RunStep(states, acts, k);
    SameSizes(states, acts, k);
    SameSizes(states, acts, k + 1);
    hide Run, Step, Enabled, KeepsUp;
    StepKeepsUp(states[k], acts[k]);
  }
}
