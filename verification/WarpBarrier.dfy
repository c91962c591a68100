/**
 Barriers of a non-strand warp: one queue buffer per worker thread, a version per buffer, and a
 current version that the executor raises one barrier at a time (`push`, `queue_barrier_internal`
 and `execute_internal<false>`).

 Producers and the executor are interleaved step by step.  Buffers keep their whole push history;
 `head` says how much of it has been popped.
 */
module WarpBarrier {
  import opened Collections

  /** A queued routine carries the number of barriers requested when it was pushed. */
  datatype Item = Routine(stamp: nat) | Barrier(v: nat)

  datatype Executor =
    | Off
    | At(i: nat, busy: bool, step: nat)                  // testing the loop condition of buffer i
    | Running(i: nat, busy: bool, step: nat, item: Item) // executing the task popped from buffer i

  datatype State = State(
    hist: seq<seq<Item>>,       // queue_buffers, with everything ever pushed
    head: seq<nat>,             // how many items of each buffer have been popped
    vers: seq<nat>,             // queue_versions
    current: nat,               // current_version
    next: nat,                  // next_version
    requested: nat,             // barrier_version
    posting: seq<Option<nat>>,  // per worker: a barrier fetched from barrier_version, not yet pushed
    ex: Executor,
    home: map<nat, (int, int)>) // history: buffer and position at which each barrier was pushed

  datatype Action =
    | Push(i: nat)          // worker i pushes a routine to its buffer
    | Request(i: nat)       // worker i: barrier_version.fetch_add
    | PostBarrier(i: nat)   // worker i: pushes the barrier routine
    | Begin                 // execute_internal starts
    | Pop                   // the task on top is popped
    | Finish(stop: bool)    // it returns; `stop` when the warp is found suspended
    | Advance               // the loop of this buffer ends

  ghost predicate Initial(s: State) {
    && |s.hist| == |s.head| == |s.vers| == |s.posting| && |s.hist| > 0
    && s.current == 0 && s.next == 0 && s.requested == 0 && s.ex == Off && s.home == map[]
    && forall i :: 0 <= i < |s.hist| ==> s.hist[i] == [] && s.head[i] == 0 && s.vers[i] == 0 && s.posting[i] == None
  }

  predicate Sized(s: State) {
    |s.hist| == |s.head| == |s.vers| == |s.posting| && |s.hist| > 0
  }

  /** The while condition of the executor at buffer `i`. */
  predicate Runnable(s: State, i: nat)
    requires Sized(s) && i < |s.hist|
  {
    s.vers[i] <= s.current && s.head[i] < |s.hist[i]|
  }

  predicate Enabled(s: State, a: Action) {
    Sized(s) &&
    match a
    case Push(i) => i < |s.hist| && s.posting[i] == None
    case Request(i) => i < |s.hist| && s.posting[i] == None
    case PostBarrier(i) => i < |s.hist| && s.posting[i].Some?
    case Begin => s.ex.Off?
    case Pop => s.ex.At? && s.ex.i < |s.hist| && Runnable(s, s.ex.i)
    case Finish(_) => s.ex.Running? && s.ex.i < |s.hist|
    case Advance => s.ex.At? && s.ex.i < |s.hist| && !Runnable(s, s.ex.i)
  }

  /** Start of a round over the buffers. */
  function Round(s: State): State
    requires Sized(s)
  {
    s.(ex := At(0, false, s.current), next := s.vers[0])
  }

  function Step(s: State, a: Action): State
    requires Enabled(s, a)
  {
    match a
    case Push(i) => s.(hist := s.hist[i := s.hist[i] + [Routine(s.requested)]])
    case Request(i) => s.(requested := s.requested + 1, posting := s.posting[i := Some(s.requested + 1)])
    case PostBarrier(i) =>
      s.(hist := s.hist[i := s.hist[i] + [Barrier(s.posting[i].value)]], posting := s.posting[i := None],
         home := s.home[s.posting[i].value := (i, |s.hist[i]|)])
    case Begin => Round(s)
    case Pop =>
      var i := s.ex.i;
      s.(head := s.head[i := s.head[i] + 1], ex := Running(i, s.ex.busy, s.ex.step, s.hist[i][s.head[i]]))
    case Finish(stop) =>
      var next := if s.ex.item.Barrier? then s.ex.item.v else s.next;
      s.(next := next, vers := s.vers[s.ex.i := next],
         ex := if stop then Off else At(s.ex.i, true, s.ex.step))
    case Advance =>
      var s1 := Visit(s);
      if s1.ex.i < |s.hist| then s1.(next := s1.vers[s1.ex.i]) else EndRound(s1)
  }

  /** What follows the loop of buffer `i`: its barrier may be the next one, its version may lag. */
  function Visit(s: State): State
    requires Sized(s) && s.ex.At? && s.ex.i < |s.hist|
  {
    var i := s.ex.i;
    s.(vers := if s.current > s.vers[i] then s.vers[i := s.current] else s.vers,
       ex := At(i + 1, s.ex.busy, if s.current + 1 == s.vers[i] then s.vers[i] else s.ex.step))
  }

  /** After the last buffer: adopt the step version, and go round again if anything ran. */
  function EndRound(s: State): State
    requires Sized(s) && s.ex.At?
  {
    var s1 := s.(current := s.ex.step);
    if s.ex.busy then Round(s1) else s1.(ex := Off)
  }

  ghost predicate Next(s: State, a: Action, s': State) {
    Enabled(s, a) && Step(s, a) == s'
  }

  ghost predicate Run(states: seq<State>, acts: seq<Action>) {
    && |states| == |acts| + 1 && Initial(states[0])
    && forall i {:trigger acts[i]} :: 0 <= i < |acts| ==> Next(states[i], acts[i], states[i + 1])
  }

  // ---- what every step keeps -----------------------------------------------------------

  /** Position `q` of buffer `j` has been pushed. */
  predicate Pushed(s: State, j: int, q: int) {
    0 <= j < |s.hist| && 0 <= q < |s.hist[j]|
  }

  /** ... and not yet popped. */
  predicate Unrun(s: State, j: int, q: int)
    requires Sized(s)
  {
    Pushed(s, j, q) && s.head[j] <= q
  }

  /** Items behind a barrier were pushed after it was requested. */
  predicate Behind(v: nat, x: Item) {
    if x.Routine? then v <= x.stamp else v < x.v
  }

  function Level(x: Item): nat {
    if x.Routine? then x.stamp else x.v
  }

  ghost predicate HistInv(s: State)
    requires Sized(s)
  {
    && (forall j, q :: Pushed(s, j, q) ==> Level(s.hist[j][q]) <= s.requested)
    && (forall j, q :: Pushed(s, j, q) && s.hist[j][q].Barrier?
         ==> s.hist[j][q].v in s.home && s.home[s.hist[j][q].v] == (j, q))
    && (forall v <- s.home ::
         v <= s.requested && Pushed(s, s.home[v].0, s.home[v].1) && s.hist[s.home[v].0][s.home[v].1] == Barrier(v))
  }

  ghost predicate OrderInv(s: State)
    requires Sized(s)
  {
    forall j, p, q :: Pushed(s, j, p) && Pushed(s, j, q) && p < q && s.hist[j][p].Barrier?
      ==> Behind(s.hist[j][p].v, s.hist[j][q])
  }

  ghost predicate PostingInv(s: State)
    requires Sized(s)
  {
    && (forall i :: 0 <= i < |s.posting| && s.posting[i].Some? ==>
          s.current < s.posting[i].value <= s.requested && s.vers[i] < s.posting[i].value
            && s.posting[i].value !in s.home)
    && (forall i, q :: Pushed(s, i, q) && s.posting[i].Some? && s.hist[i][q].Barrier?
         ==> s.hist[i][q].v < s.posting[i].value)
    && (forall i, j :: 0 <= i < j < |s.posting| && s.posting[i].Some? ==> s.posting[i] != s.posting[j])
  }

  /** The popped item that is still executing, if any. */
  predicate Current(s: State, i: int, p: int)
    requires Sized(s)
  {
    s.ex.Running? && s.ex.i == i && 0 <= i < |s.head| && p + 1 == s.head[i]
  }

  /** Barrier `v` has been executed, in buffer `j`. */
  predicate Executed(s: State, v: nat, j: int)
    requires Sized(s)
  {
    v in s.home && s.home[v].0 == j && 0 <= j < |s.hist| && s.home[v].1 < s.head[j] && !Current(s, j, s.home[v].1)
  }

  ghost predicate VersionInv(s: State)
    requires Sized(s)
  {
    && s.current <= s.requested
    && (forall j :: 0 <= j < |s.hist| ==> s.head[j] <= |s.hist[j]| && s.vers[j] <= s.requested)
    // a version ahead of the current one is an executed barrier of that buffer
    && (forall j :: 0 <= j < |s.hist| && s.vers[j] > s.current ==> Executed(s, s.vers[j], j))
    // executed barriers do not exceed their buffer's version, the others are ahead of the current one
    && (forall v <- s.home :: if Executed(s, v, s.home[v].0) then v <= s.vers[s.home[v].0] else s.current < v)
  }

  ghost predicate ExecutorInv(s: State)
    requires Sized(s)
  {
    s.ex.Off? ||
    (&& s.ex.i < |s.hist| && s.next == s.vers[s.ex.i]
     && (s.ex.Running? ==> 0 < s.head[s.ex.i] <= |s.hist[s.ex.i]| && s.hist[s.ex.i][s.head[s.ex.i] - 1] == s.ex.item)
     && (s.ex.Running? ==> s.vers[s.ex.i] <= s.current))
  }

  /** A blocked buffer holds only items from behind its barrier. */
  ghost predicate BlockedInv(s: State)
    requires Sized(s)
  {
    forall j, q :: Unrun(s, j, q) && s.vers[j] > s.current ==> Behind(s.vers[j], s.hist[j][q])
  }

  predicate OldRoutine(s: State, j: int, q: int, v: nat)
    requires Sized(s)
  {
    Unrun(s, j, q) && s.hist[j][q].Routine? && s.hist[j][q].stamp < v
  }

  /** A routine not yet run is at most one barrier behind, and then lies in a buffer before the one
      that posted that barrier. */
  ghost predicate BacklogInv(s: State)
    requires Sized(s)
  {
    && (forall j, q :: Unrun(s, j, q) ==> !OldRoutine(s, j, q, if s.current > 0 then s.current - 1 else 0))
    && (forall j, q :: Unrun(s, j, q) && s.current in s.home && s.home[s.current].0 <= j
         ==> !OldRoutine(s, j, q, s.current))
  }

  /** Within a round: buffers already visited hold no routine from before the current barrier, and
      once the next barrier `step` has been found, none from before that one from its buffer on. */
  ghost predicate RoundInv(s: State)
    requires Sized(s)
  {
    s.ex.Off? ||
    (&& (forall j, q :: Unrun(s, j, q) && j < s.ex.i ==> !OldRoutine(s, j, q, s.current))
     && (s.ex.step == s.current || Found(s)))
  }

  ghost predicate Found(s: State)
    requires Sized(s)
  {
    && !s.ex.Off? && s.ex.step == s.current + 1 && s.ex.step in s.home && s.home[s.ex.step].0 < s.ex.i
    && Executed(s, s.ex.step, s.home[s.ex.step].0)
    && forall j, q :: Unrun(s, j, q) && s.home[s.ex.step].0 <= j < s.ex.i ==> !OldRoutine(s, j, q, s.ex.step)
  }

  ghost predicate Inv(s: State) {
    && Sized(s) && HistInv(s) && OrderInv(s) && PostingInv(s) && VersionInv(s) && ExecutorInv(s)
    && BlockedInv(s) && BacklogInv(s) && RoundInv(s)
  }

  /** The barrier property at the moment a task is popped: every routine pushed anywhere before a
      barrier that precedes the popped task in its buffer has already run. */
  lemma PopRespectsBarriers(s: State, p: nat, j: nat, q: nat)
    requires Inv(s) && Enabled(s, Pop)
    requires p < s.head[s.ex.i] && Pushed(s, s.ex.i, p) && s.hist[s.ex.i][p].Barrier?
    requires Pushed(s, j, q) && s.hist[j][q].Routine? && s.hist[j][q].stamp < s.hist[s.ex.i][p].v
    ensures q < s.head[j]
  {
    assert Executed(s, s.hist[s.ex.i][p].v, s.ex.i);
    assert Unrun(s, j, q) <==> s.head[j] <= q;
  }

  predicate Produces(a: Action) {
    a.Push? || a.Request? || a.PostBarrier?
  }

  lemma AppendKeepsHist(s: State, a: Action)
    requires Sized(s) && HistInv(s) && PostingInv(s) && Enabled(s, a) && (a.Push? || a.PostBarrier?)
    ensures HistInv(Step(s, a))
  {
    var s' := Step(s, a);
    forall j, q | Pushed(s', j, q)
      ensures Level(s'.hist[j][q]) <= s'.requested
      ensures s'.hist[j][q].Barrier? ==> s'.hist[j][q].v in s'.home && s'.home[s'.hist[j][q].v] == (j, q)
    {
      if j == a.i && q == |s.hist[j]| { } else { assert Pushed(s, j, q) && s'.hist[j][q] == s.hist[j][q]; }
    }
    forall v | v in s'.home
      ensures v <= s'.requested && Pushed(s', s'.home[v].0, s'.home[v].1)
        && s'.hist[s'.home[v].0][s'.home[v].1] == Barrier(v)
    {
      if v in s.home { assert Pushed(s, s.home[v].0, s.home[v].1); }
    }
  }

  lemma OtherKeepsHist(s: State, a: Action)
    requires Sized(s) && HistInv(s) && Enabled(s, a) && !a.Push? && !a.PostBarrier?
    ensures HistInv(Step(s, a))
  {
    var s' := Step(s, a);
    assert s'.hist == s.hist && s'.home == s.home && s.requested <= s'.requested;
    assert forall j, q :: Pushed(s', j, q) <==> Pushed(s, j, q);
  }

  lemma StepKeepsOrder(s: State, a: Action)
    requires Sized(s) && HistInv(s) && OrderInv(s) && PostingInv(s) && Enabled(s, a)
    ensures OrderInv(Step(s, a))
  {
    var s' := Step(s, a);
    forall j, p, q | Pushed(s', j, p) && Pushed(s', j, q) && p < q && s'.hist[j][p].Barrier?
      ensures Behind(s'.hist[j][p].v, s'.hist[j][q])
    {
      assert Pushed(s, j, p);
      assert ((a.Push? || a.PostBarrier?) && j == a.i && q == |s.hist[j]|) || Pushed(s, j, q);
    }
  }

  lemma ProducerKeepsPosting(s: State, a: Action)
    requires Sized(s) && HistInv(s) && PostingInv(s) && VersionInv(s) && Enabled(s, a) && Produces(a)
    ensures PostingInv(Step(s, a))
  {
    var s' := Step(s, a);
    forall i, q | Pushed(s', i, q) && s'.posting[i].Some? && s'.hist[i][q].Barrier?
      ensures s'.hist[i][q].v < s'.posting[i].value
    {
      assert Pushed(s, i, q);
    }
  }

  lemma QuietKeepsPosting(s: State, a: Action)
    requires Sized(s) && PostingInv(s) && ExecutorInv(s) && Enabled(s, a) && (a.Begin? || a.Pop? || a.Finish?)
    ensures PostingInv(Step(s, a))
  {
    var s' := Step(s, a);
    assert forall j, q :: Pushed(s', j, q) <==> Pushed(s, j, q);
    assert a.Finish? ==> Pushed(s, s.ex.i, s.head[s.ex.i] - 1);
  }

  lemma ExecutedByAppend(s: State, a: Action, v: nat, j: int)
    requires Sized(s) && Enabled(s, a) && Produces(a) && v in s.home && (a.PostBarrier? ==> v != s.posting[a.i].value)
    ensures v in Step(s, a).home && Step(s, a).home[v] == s.home[v] && Executed(Step(s, a), v, j) == Executed(s, v, j)
  {
  }

  lemma ProducerKeepsVersion(s: State, a: Action)
    requires Sized(s) && HistInv(s) && VersionInv(s) && PostingInv(s) && Enabled(s, a) && Produces(a)
    ensures VersionInv(Step(s, a))
  {
    var s' := Step(s, a);
    assert a.PostBarrier? ==> s.posting[a.i].value !in s.home;
    hide HistInv;
    forall v | v in s'.home
      ensures if Executed(s', v, s'.home[v].0) then v <= s'.vers[s'.home[v].0] else s'.current < v
    {
      if v in s.home { ExecutedByAppend(s, a, v, s.home[v].0); }
    }
    forall j | 0 <= j < |s'.hist| && s'.vers[j] > s'.current ensures Executed(s', s'.vers[j], j) {
      assert Executed(s, s.vers[j], j);
      ExecutedByAppend(s, a, s.vers[j], j);
    }
  }

  lemma PopKeepsVersion(s: State)
    requires Sized(s) && HistInv(s) && VersionInv(s) && Enabled(s, Pop)
    ensures VersionInv(Step(s, Pop))
  {
    var s' := Step(s, Pop);
    forall v, j | v in s.home ensures Executed(s', v, j) == Executed(s, v, j) {
    }
  }

  /** Finishing the running task makes it executed, and changes nothing else in that respect. */
  lemma ExecutedByFinish(s: State, stop: bool, v: nat, j: int)
    requires Sized(s) && Enabled(s, Finish(stop)) && v in s.home
    ensures Executed(Step(s, Finish(stop)), v, j) ==
      (Executed(s, v, j) || (j == s.ex.i && s.home[v].0 == j && s.home[v].1 + 1 == s.head[j]))
  {
  }

  lemma FinishKeepsVersion(s: State, stop: bool)
    requires Sized(s) && HistInv(s) && OrderInv(s) && VersionInv(s) && ExecutorInv(s) && Enabled(s, Finish(stop))
    ensures VersionInv(Step(s, Finish(stop)))
  {
    var s', i, p := Step(s, Finish(stop)), s.ex.i, s.head[s.ex.i] - 1;
    assert Pushed(s, i, p) && Current(s, i, p);
    forall v | v in s.home
      ensures if Executed(s', v, s'.home[v].0) then v <= s'.vers[s'.home[v].0] else s'.current < v
    {
      ExecutedByFinish(s, stop, v, s.home[v].0);
      assert Pushed(s, s.home[v].0, s.home[v].1);
    }
    forall j | 0 <= j < |s'.hist| && s'.vers[j] > s'.current ensures Executed(s', s'.vers[j], j) {
      ExecutedByFinish(s, stop, s'.vers[j], j);
    }
  }

  lemma StepKeepsExecutor(s: State, a: Action)
    requires Sized(s) && VersionInv(s) && ExecutorInv(s) && Enabled(s, a)
    ensures ExecutorInv(Step(s, a))
  {
  }

  // ---- leaving a buffer and ending a round ---------------------------------------------

  lemma VisitKeepsVersions(s: State)
    requires Sized(s) && PostingInv(s) && VersionInv(s) && s.ex.At? && s.ex.i < |s.hist|
    ensures PostingInv(Visit(s)) && VersionInv(Visit(s))
  {
    var s' := Visit(s);
    assert forall j, q :: Pushed(s', j, q) <==> Pushed(s, j, q);
    forall v, j | v in s.home ensures Executed(s', v, j) == Executed(s, v, j) {
    }
  }

  lemma VisitKeepsBacklog(s: State)
    requires Sized(s) && VersionInv(s) && BlockedInv(s) && BacklogInv(s) && s.ex.At? && s.ex.i < |s.hist|
    ensures BlockedInv(Visit(s)) && BacklogInv(Visit(s))
  {
    var s' := Visit(s);
    assert forall j, q :: Unrun(s', j, q) <==> Unrun(s, j, q);
    assert forall j, q, v: nat :: OldRoutine(s', j, q, v) <==> OldRoutine(s, j, q, v);
  }

  /** The heart of the matter: a buffer is left drained or blocked by a barrier ahead. */
  lemma VisitKeepsRound(s: State)
    requires Sized(s) && VersionInv(s) && BlockedInv(s) && RoundInv(s) && Enabled(s, Advance)
    ensures RoundInv(Visit(s))
  {
    var s', i := Visit(s), s.ex.i;
    assert forall j, q :: Unrun(s', j, q) <==> Unrun(s, j, q);
    assert forall j, q, v: nat :: OldRoutine(s', j, q, v) <==> OldRoutine(s, j, q, v);
    assert forall v, j :: v in s.home ==> Executed(s', v, j) == Executed(s, v, j);
    forall q | Unrun(s, i, q) ensures !OldRoutine(s, i, q, s.current) && !OldRoutine(s, i, q, s.current + 1) {
      assert s.vers[i] > s.current && Behind(s.vers[i], s.hist[i][q]);
    }
  }

  lemma EndKeepsVersions(s: State)
    requires Sized(s) && PostingInv(s) && VersionInv(s) && RoundInv(s) && s.ex.At?
    ensures PostingInv(EndRound(s)) && VersionInv(EndRound(s))
  {
    var s' := EndRound(s);
    assert forall j, q :: Pushed(s', j, q) <==> Pushed(s, j, q);
    assert s.ex.step != s.current ==> Executed(s, s.ex.step, s.home[s.ex.step].0);
    hide Found, RoundInv;
    forall v, j | v in s.home ensures Executed(s', v, j) == Executed(s, v, j) {
    }
  }

  lemma EndKeepsBacklog(s: State)
    requires Sized(s) && BlockedInv(s) && BacklogInv(s) && RoundInv(s) && s.ex.At? && s.ex.i == |s.hist|
    ensures BlockedInv(EndRound(s)) && BacklogInv(EndRound(s)) && RoundInv(EndRound(s))
  {
    var s' := EndRound(s);
    assert forall j, q :: Unrun(s', j, q) <==> Unrun(s, j, q);
    assert forall j, q, v: nat :: OldRoutine(s', j, q, v) <==> OldRoutine(s, j, q, v);
  }

  // ---- the other steps -----------------------------------------------------------------

  lemma StepKeepsBlocked(s: State, a: Action)
    requires Sized(s) && OrderInv(s) && PostingInv(s) && VersionInv(s) && ExecutorInv(s) && BlockedInv(s)
    requires Enabled(s, a) && !a.Advance?
    ensures BlockedInv(Step(s, a))
  {
    var s' := Step(s, a);
    forall j, q | Unrun(s', j, q) && s'.vers[j] > s'.current ensures Behind(s'.vers[j], s'.hist[j][q]) {
      assert a.Finish? && s.ex.i == j ==> Pushed(s, j, s.head[j] - 1);
      assert ((a.Push? || a.PostBarrier?) && j == a.i && q == |s.hist[j]|) || Unrun(s, j, q);
    }
  }

  lemma UnrunBefore(s: State, a: Action, j: int, q: int)
    requires Sized(s) && VersionInv(s) && Enabled(s, a) && !a.Advance? && Unrun(Step(s, a), j, q)
    ensures Unrun(s, j, q) || (j == a.i && q == |s.hist[j]| && (a.Push? || a.PostBarrier?))
    ensures forall v: nat :: v <= s.requested && OldRoutine(Step(s, a), j, q, v) ==> OldRoutine(s, j, q, v)
  {
  }

  lemma StepKeepsBacklog(s: State, a: Action)
    requires Sized(s) && PostingInv(s) && VersionInv(s) && BacklogInv(s) && Enabled(s, a) && !a.Advance?
    ensures BacklogInv(Step(s, a))
  {
    var s' := Step(s, a);
    forall j, q | Unrun(s', j, q)
      ensures !OldRoutine(s', j, q, if s'.current > 0 then s'.current - 1 else 0)
      ensures s'.current in s'.home && s'.home[s'.current].0 <= j ==> !OldRoutine(s', j, q, s'.current)
    {
      UnrunBefore(s, a, j, q);
    }
  }

  lemma StepKeepsRound(s: State, a: Action)
    requires Sized(s) && HistInv(s) && PostingInv(s) && VersionInv(s) && ExecutorInv(s) && RoundInv(s)
    requires Enabled(s, a) && !a.Advance?
    ensures RoundInv(Step(s, a))
  {
    var s' := Step(s, a);
    forall j, q | Unrun(s', j, q)
      ensures forall v: nat :: v <= s.requested && OldRoutine(s', j, q, v) ==> OldRoutine(s, j, q, v)
    {
      UnrunBefore(s, a, j, q);
    }
    if !a.Begin? && !s'.ex.Off? && s.ex.step != s.current {
      assert Executed(s, s.ex.step, s.home[s.ex.step].0);
      assert Executed(s', s.ex.step, s.home[s.ex.step].0);
    }
  }

  lemma BeginKeepsVersion(s: State)
    requires Sized(s) && VersionInv(s) && Enabled(s, Begin)
    ensures VersionInv(Step(s, Begin))
  {
    var s' := Step(s, Begin);
    forall v, j | v in s.home ensures Executed(s', v, j) == Executed(s, v, j) {
    }
  }

  // ---- runs ----------------------------------------------------------------------------

  lemma StepKeepsInv(s: State, a: Action)
    requires Inv(s) && Enabled(s, a)
    ensures Inv(Step(s, a))
  {
    hide HistInv, OrderInv, PostingInv, VersionInv, ExecutorInv, BlockedInv, BacklogInv, RoundInv, Executed, Found;
    if a.Push? || a.PostBarrier? { AppendKeepsHist(s, a); } else { OtherKeepsHist(s, a); }
    StepKeepsOrder(s, a);
    StepKeepsExecutor(s, a);
    if a.Advance? {
      AdvanceKeepsInv(s);
    } else {
      StepKeepsBlocked(s, a);
      StepKeepsBacklog(s, a);
      StepKeepsRound(s, a);
      if Produces(a) { ProducerKeepsPosting(s, a); ProducerKeepsVersion(s, a); } else { QuietKeepsPosting(s, a); }
      if a.Pop? { PopKeepsVersion(s); }
      if a.Finish? { FinishKeepsVersion(s, a.stop); }
      if a.Begin? { BeginKeepsVersion(s); }
    }
  }

  lemma AdvanceKeepsInv(s: State)
    requires Inv(s) && Enabled(s, Advance)
    ensures var s' := Step(s, Advance);
      Sized(s') && PostingInv(s') && VersionInv(s') && BlockedInv(s') && BacklogInv(s') && RoundInv(s')
  {
    hide HistInv, OrderInv, ExecutorInv, Executed;
    VisitKeepsVersions(s);
    VisitKeepsBacklog(s);
    VisitKeepsRound(s);
    var s1 := Visit(s);
    if s1.ex.i < |s.hist| {
      NextIrrelevant(s1, s1.vers[s1.ex.i]);
    } else {
      hide PostingInv, VersionInv, BlockedInv, BacklogInv, RoundInv;
      EndKeepsVersions(s1);
      EndKeepsBacklog(s1);
    }
  }

  lemma NextIrrelevant(s: State, n: nat)
    requires Sized(s) && PostingInv(s) && VersionInv(s) && BlockedInv(s) && BacklogInv(s) && RoundInv(s)
    ensures var s' := s.(next := n);
      PostingInv(s') && VersionInv(s') && BlockedInv(s') && BacklogInv(s') && RoundInv(s')
  {
    var s' := s.(next := n);
    assert forall j, q :: Pushed(s', j, q) <==> Pushed(s, j, q);
    assert forall j, q :: Unrun(s', j, q) <==> Unrun(s, j, q);
    assert forall j, q, v: nat :: OldRoutine(s', j, q, v) <==> OldRoutine(s, j, q, v);
    assert forall v, j :: v in s.home ==> Executed(s', v, j) == Executed(s, v, j);
  }

  lemma InitialInv(s: State)
    requires Initial(s)
    ensures Inv(s)
  {
  }

  lemma {:induction false} RunInv(states: seq<State>, acts: seq<Action>, k: nat)
    requires Run(states, acts) && k < |states|
    ensures Inv(states[k])
  {
    hide Inv, Step, Enabled, Initial;
    if k == 0 {
      InitialInv(states[0]);
    } else {
      RunInv(states, acts, k - 1);
      assert Next(states[k - 1], acts[k - 1], states[k]);
      StepKeepsInv(states[k - 1], acts[k - 1]);
    }
  }

  /** In every run, a task popped from buffer `i` behind barrier `v` of that buffer runs only after
      every routine that was pushed, to any buffer, before `v` was requested. */
  lemma BarrierRespected(states: seq<State>, acts: seq<Action>, k: nat, p: nat, j: nat, q: nat)
    requires Run(states, acts) && k < |acts| && acts[k] == Pop
    requires var s := states[k];
      s.ex.At? && Pushed(s, s.ex.i, p) && s.hist[s.ex.i][p].Barrier? && |s.head| == |s.hist| && p < s.head[s.ex.i]
    requires var s := states[k]; Pushed(s, j, q) && s.hist[j][q].Routine? && s.hist[j][q].stamp < s.hist[s.ex.i][p].v
    ensures q < states[k].head[j]
  {
    RunInv(states, acts, k);
    assert Next(states[k], acts[k], states[k + 1]);
    PopRespectsBarriers(states[k], p, j, q);
  }

  /** current_version moves by one barrier at a time, and never past a barrier that has not run. */
  lemma VersionSteps(states: seq<State>, acts: seq<Action>, k: nat)
    requires Run(states, acts) && k < |acts|
    ensures states[k].current <= states[k + 1].current <= states[k].current + 1
    ensures states[k + 1].current == states[k].current + 1 ==>
      var s := states[k + 1];
      s.current in s.home && 0 <= s.home[s.current].0 < |s.head| && s.home[s.current].1 < s.head[s.home[s.current].0]
  {
    RunInv(states, acts, k);
    RunInv(states, acts, k + 1);
    assert Next(states[k], acts[k], states[k + 1]);
    StepRaisesByOne(states[k], acts[k]);
  }

  lemma StepRaisesByOne(s: State, a: Action)
    requires Inv(s) && Enabled(s, a)
    ensures s.current <= Step(s, a).current <= s.current + 1
    ensures Step(s, a).current == s.current + 1 ==>
      var s' := Step(s, a);
      s'.current in s'.home && 0 <= s'.home[s'.current].0 < |s'.head|
        && s'.home[s'.current].1 < s'.head[s'.home[s'.current].0]
  {
    hide HistInv, OrderInv, PostingInv, BlockedInv, BacklogInv;
    assert s.ex.At? && s.ex.i < |s.hist| && s.vers[s.ex.i] > s.current ==> Executed(s, s.vers[s.ex.i], s.ex.i);
  }
}
