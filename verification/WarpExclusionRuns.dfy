/**
 Parallel routines of a warp told by the calls of a run: each is with one thread, on the list or in the
 worker's queue from its call until the thread that ran it resumes the warp.
 */
module WarpExclusionRuns {
  import opened Collections
  import opened WarpExclusion

  // ---- entering and leaving ------------------------------------------------------------------------

  lemma StepParallel(s: State, a: Action, p: Pid)
    requires Enabled(s, a)
    ensures var s' := Step(s, a);
      p in s'.par <==> (p in s.par && !(a.Resume? && s.pc[a.t] == Parallel(p))) || (a.CallParallel? && a.p == p)
  {
  }

  /** Action `m` is the resume of routine `p` by the thread that ran it. */
  ghost predicate Resumes(states: seq<State>, acts: seq<Action>, m: int, p: Pid) {
    && 0 <= m < |acts| && m < |states| && acts[m].Resume?
    && acts[m].t in states[m].pc && states[m].pc[acts[m].t] == Parallel(p)
  }

  ghost predicate Resumed(states: seq<State>, acts: seq<Action>, i: int, k: int, p: Pid) {
    exists m :: i <= m < k && Resumes(states, acts, m, p)
  }

  ghost predicate Called(acts: seq<Action>, i: int, k: int, p: Pid) {
    exists m :: i <= m < k && 0 <= m < |acts| && acts[m].CallParallel? && acts[m].p == p
  }

  lemma RunStep(states: seq<State>, acts: seq<Action>, i: nat)
    requires Run(states, acts) && i < |acts|
    ensures |states| == |acts| + 1 && Enabled(states[i], acts[i]) && states[i + 1] == Step(states[i], acts[i])
  {
    assert Next(states[i], acts[i], states[i + 1]);
  }

  /** A routine is between suspend() and resume() from its call on, and leaves only by the resume of the
      thread that ran it. */
  lemma {:induction false} LeavesByResume(states: seq<State>, acts: seq<Action>, i: nat, k: nat, p: Pid)
    requires Run(states, acts) && i <= k < |states|
    ensures p in states[i].par && p !in states[k].par ==> Resumed(states, acts, i, k, p)
    ensures p !in states[i].par && p in states[k].par ==> Called(acts, i, k, p)
  {
    if i < k {
      LeavesByResume(states, acts, i, k - 1, p);
      RunStep(states, acts, k - 1);
      hide Run, Step;
      StepParallel(states[k - 1], acts[k - 1], p);
      if acts[k - 1].Resume? && states[k - 1].pc[acts[k - 1].t] == Parallel(p) {
        assert Resumes(states, acts, k - 1, p);
      }
    }
  }

  function One(b: bool): nat {
    if b then 1 else 0
  }

  function Calls(acts: seq<Action>, k: nat): nat
    requires k <= |acts|
  {
    if k == 0 then 0 else Calls(acts, k - 1) + One(acts[k - 1].CallParallel?)
  }

  function Resumptions(acts: seq<Action>, k: nat): nat
    requires k <= |acts|
  {
    if k == 0 then 0 else Resumptions(acts, k - 1) + One(acts[k - 1].Resume?)
  }

  /** suspend_count is the calls made and not yet resumed. */
  lemma {:induction false} SuspendIsActions(states: seq<State>, acts: seq<Action>, k: nat)
    requires Run(states, acts) && k < |states|
    ensures |states| == |acts| + 1 && states[k].suspend == Calls(acts, k) - Resumptions(acts, k)
  {
    if k > 0 {
      SuspendIsActions(states, acts, k - 1);
      RunStep(states, acts, k - 1);
      hide Run;
      StepSuspends(states[k - 1], acts[k - 1]);
    }
  }

  lemma StepSuspends(s: State, a: Action)
    requires Enabled(s, a)
    ensures Step(s, a).suspend == s.suspend + One(a.CallParallel?) - One(a.Resume?)
  {
  }

  // ---- where every routine is ----------------------------------------------------------------------

  ghost predicate Calling(s: State, p: Pid) {
    exists t :: t in s.pc && (s.pc[t] == Enter(p) || s.pc[t] == Link(p))
  }

  ghost predicate RunBy(s: State, p: Pid) {
    exists t :: t in s.pc && s.pc[t] == Parallel(p)
  }

  /** A routine that is neither listed nor posted is with a thread. */
  ghost predicate Kept(s: State, p: Pid)
    requires p in s.par
  {
    match s.par[p]
    case Entering => Calling(s, p)
    case Running => RunBy(s, p)
    case Taken(t) => t in s.pc && s.pc[t].Moving?
    case Listed => true
    case Pooled => true
  }

  ghost predicate KeptInv(s: State) {
    forall p <- s.par :: Kept(s, p)
  }

  /** A step by another thread leaves a routine's thread where it is. */
  lemma OtherKeeps(s: State, a: Action, p: Pid, t: Tid)
    requires Enabled(s, a) && t in s.pc && t != a.t
    ensures var s' := Step(s, a); t in s'.pc && s'.pc[t] == s.pc[t]
  {
  }

  lemma StepKeepsKept(s: State, a: Action, p: Pid)
    requires Inv(s) && KeptInv(s) && Enabled(s, a) && p in Step(s, a).par
    ensures Kept(Step(s, a), p)
  {
    var s' := Step(s, a);
    StepKeepsTaken(s, a);
    if p in s.par {
      assert Kept(s, p) && CallPlaced(s, s.pc[a.t]);
      if s.par[p].Entering? {
        var t :| t in s.pc && (s.pc[t] == Enter(p) || s.pc[t] == Link(p));
        EnteringKept(s, a, p, t);
      } else if s.par[p].Running? {
        var t :| t in s.pc && s.pc[t] == Parallel(p);
        RunningKept(s, a, p, t);
      } else {
        PassiveKept(s, a, p);
      }
    } else {
      assert s'.pc[a.t] == Enter(p);
    }
  }

  lemma EnteringKept(s: State, a: Action, p: Pid, t: Tid)
    requires Inv(s) && Enabled(s, a) && p in s.par && s.par[p].Entering? && p in Step(s, a).par
    requires t in s.pc && (s.pc[t] == Enter(p) || s.pc[t] == Link(p))
    ensures Kept(Step(s, a), p)
  {
    hide ExclusionInv, OwnerInv, CountInv;
    var s' := Step(s, a);
    if a.t != t {
      OtherKeeps(s, a, p, t);
      assert CallPlaced(s, s.pc[a.t]);
      assert CallOf(s.pc[t]) == Some(p) && CallOf(s.pc[a.t]) != Some(p);
      assert s'.par[p] == Entering;
    }
    assert t in s'.pc;
  }

  lemma RunningKept(s: State, a: Action, p: Pid, t: Tid)
    requires Inv(s) && Enabled(s, a) && p in s.par && s.par[p].Running? && p in Step(s, a).par
    requires t in s.pc && s.pc[t] == Parallel(p)
    ensures Kept(Step(s, a), p)
  {
    hide ExclusionInv, OwnerInv, CountInv;
    var s' := Step(s, a);
    assert CallPlaced(s, s.pc[a.t]);
    if a.t != t { OtherKeeps(s, a, p, t); }
    assert t in s'.pc;
  }

  lemma PassiveKept(s: State, a: Action, p: Pid)
    requires Inv(s) && Enabled(s, a) && p in s.par && !s.par[p].Entering? && !s.par[p].Running? && p in Step(s, a).par
    requires TakenInv(Step(s, a))
    ensures Kept(Step(s, a), p)
  {
    hide ExclusionInv, OwnerInv, CountInv;
    var s' := Step(s, a);
    assert CallPlaced(s, s.pc[a.t]);
    assert a.t in s'.pc;
    if s'.par[p].Running? { assert s'.pc[a.t] == Parallel(p); }
  }

  /** In every run a routine between its call and its resume is entering with the thread that called it,
      on the list, in the hands of the thread that sweeps the list, in the worker's queue, or being run
      by a thread. */
  lemma {:induction false} NoRoutineStranded(states: seq<State>, acts: seq<Action>, k: nat)
    requires Run(states, acts) && k < |states|
    ensures forall p <- states[k].par :: Kept(states[k], p)
  {
    if k > 0 {
      NoRoutineStranded(states, acts, k - 1);
      RunInv(states, acts, k - 1);
      RunStep(states, acts, k - 1);
      hide Run, Step, Inv;
      forall p | p in states[k].par ensures Kept(states[k], p) {
        StepKeepsKept(states[k - 1], acts[k - 1], p);
      }
    }
  }

  // ---- the sweep at the end of execute ---------------------------------------------------------------

  predicate Sweeping(pc: Pc) {
    || pc == Load(Sweep) || pc == Cas(Sweep) || pc == Recheck(Sweep) || pc == Moving(Sweep) || pc == Yielding(Sweep)
  }

  /** Thread `t` found another owner at action `m`, or left the list empty. */
  ghost predicate Swept(states: seq<State>, acts: seq<Action>, m: int, t: Tid) {
    && 0 <= m < |acts| && m < |states|
    && (|| (acts[m] == Preempt(t) && states[m].owner != None)
        || (acts[m] == MoveDone(t) && Listed !in states[m].par.Values && Taken(t) !in states[m].par.Values))
  }

  ghost predicate SweptIn(states: seq<State>, acts: seq<Action>, i: int, k: int, t: Tid) {
    exists m :: i < m < k && Swept(states, acts, m, t)
  }

  lemma SweptNow(states: seq<State>, acts: seq<Action>, i: int, k: int, t: Tid)
    requires i < k && Swept(states, acts, k, t)
    ensures SweptIn(states, acts, i, k + 1, t)
  {
  }

  lemma SweptBefore(states: seq<State>, acts: seq<Action>, i: int, k: int, t: Tid)
    ensures SweptIn(states, acts, i, k, t) ==> SweptIn(states, acts, i, k + 1, t)
  {
  }

  lemma SweepOn(s: State, a: Action, t: Tid)
    requires Enabled(s, a) && t in s.pc && Sweeping(s.pc[t])
    ensures var s' := Step(s, a);
      && t in s'.pc
      && (Sweeping(s'.pc[t]) || (a == Preempt(t) && s.owner != None) || (a == Yield(t) && s.pc[t] == Yielding(Sweep)))
      && (s'.pc[t] == Yielding(Sweep) && s.pc[t] != Yielding(Sweep) ==>
            a == MoveDone(t) && Listed !in s.par.Values && Taken(t) !in s.par.Values)
  {
  }

  ghost predicate Busy(states: seq<State>, t: Tid, i: nat, k: nat) {
    forall m :: i < m < k && m < |states| ==> t in states[m].pc && states[m].pc[t] != Idle
  }

  lemma {:induction false} SweepGoesOn(states: seq<State>, acts: seq<Action>, t: Tid, i: nat, k: nat)
    requires Run(states, acts) && i < k < |states| && acts[i] == CheckTail(t) && Busy(states, t, i, k + 1)
    requires Listed in states[i].par.Values
    ensures t in states[k].pc && (Sweeping(states[k].pc[t]) || SweptIn(states, acts, i, k, t))
    ensures states[k].pc[t] == Yielding(Sweep) ==> SweptIn(states, acts, i, k, t)
  {
    assert |states| == |acts| + 1;
    hide Run, Step, SweptIn, Enabled;
    RunStep(states, acts, k - 1);
    if k == i + 1 {
      SweepStarts(states[i], t);
    } else {
      var s, a := states[k - 1], acts[k - 1];
      SweepGoesOn(states, acts, t, i, k - 1);
      SweptBefore(states, acts, i, k - 1, t);
      ThreadsStay(s, a, t);
      if Sweeping(s.pc[t]) {
        SweepOn(s, a, t);
        if Swept(states, acts, k - 1, t) { SweptNow(states, acts, i, k - 1, t); }
      }
    }
  }

  lemma ThreadsStay(s: State, a: Action, t: Tid)
    requires Enabled(s, a) && t in s.pc
    ensures t in Step(s, a).pc
  {
  }

  /** A thread that sees a listed routine at the end of `execute` does not return before the list has
      been emptied by it, or it has met another thread that owns the warp. */
  lemma SweepEmptiesList(states: seq<State>, acts: seq<Action>, t: Tid, i: nat, k: nat)
    requires Run(states, acts) && i < k < |states| && acts[i] == CheckTail(t) && Busy(states, t, i, k)
    requires Listed in states[i].par.Values && t in states[k].pc && states[k].pc[t] == Idle
    ensures SweptIn(states, acts, i, k, t)
  {
    RunStep(states, acts, i);
    RunStep(states, acts, k - 1);
    SweepStarts(states[i], t);
    if k > i + 1 {
      SweepGoesOn(states, acts, t, i, k - 1);
      SweptBefore(states, acts, i, k - 1, t);
      hide Run, Step, SweptIn, Enabled;
      if Sweeping(states[k - 1].pc[t]) {
        SweepOn(states[k - 1], acts[k - 1], t);
        if Swept(states, acts, k - 1, t) { SweptNow(states, acts, i, k - 1, t); }
      }
    }
  }

  lemma SweepStarts(s: State, t: Tid)
    requires Enabled(s, CheckTail(t)) && Listed in s.par.Values
    ensures t in Step(s, CheckTail(t)).pc && Step(s, CheckTail(t)).pc[t] == Load(Sweep)
  {
  }

  // ---- routines run to their end under protection ------------------------------------------------------

  /** No action of thread `t` lies strictly between `i` and `j`. */
  ghost predicate Undisturbed(acts: seq<Action>, t: Tid, i: nat, j: nat) {
    forall m :: i < m < j && m < |acts| ==> acts[m].t != t
  }

  lemma {:induction false} StaysPut(states: seq<State>, acts: seq<Action>, t: Tid, i: nat, j: nat)
    requires Run(states, acts) && i < j < |states| && Undisturbed(acts, t, i, j) && t in states[i + 1].pc
    ensures t in states[j].pc && states[j].pc[t] == states[i + 1].pc[t]
  {
    if i + 1 < j {
      StaysPut(states, acts, t, i, j - 1);
      RunStep(states, acts, j - 1);
      hide Run, Step, Enabled;
      OtherKeeps(states[j - 1], acts[j - 1], 0, t);
    }
  }

  lemma Starts(s: State, a: Action)
    requires Enabled(s, a) && (a.PickTask? || a.WorkerTakes?)
    ensures var s' := Step(s, a);
      a.t in s'.pc && if a.PickTask? then s'.pc[a.t].Exclusive? else s'.pc[a.t] == Parallel(a.p)
  {
  }

  lemma OnlyEnds(s: State, a: Action)
    requires Enabled(s, a)
    ensures s.pc[a.t].Exclusive? ==> a == FinishRoutine(a.t)
    ensures s.pc[a.t].Parallel? ==> a == Resume(a.t)
  {
  }

  /** A task that is picked is run: the thread's next action is its end, and until then the thread runs
      it, alone on the warp. */
  lemma PickedTaskRuns(states: seq<State>, acts: seq<Action>, t: Tid, i: nat, j: nat)
    requires Run(states, acts) && i < j < |acts| && acts[i] == PickTask(t) && acts[j].t == t
    requires Undisturbed(acts, t, i, j)
    ensures acts[j] == FinishRoutine(t)
    ensures forall m, u :: i < m <= j && u in states[m].pc ==>
      !states[m].pc[u].Parallel? && (states[m].pc[u].Exclusive? ==> u == t)
  {
    RunStep(states, acts, i);
    RunStep(states, acts, j);
    Starts(states[i], acts[i]);
    StaysPut(states, acts, t, i, j);
    OnlyEnds(states[j], acts[j]);
    hide Step, Enabled;
    forall m, u | i < m <= j && u in states[m].pc
      ensures !states[m].pc[u].Parallel? && (states[m].pc[u].Exclusive? ==> u == t)
    {
      StaysPut(states, acts, t, i, m);
      WarpExcludes(states, acts, m);
    }
  }

  /** A posted routine that a worker takes is run and then resumed by that worker. */
  lemma PostedRoutineRuns(states: seq<State>, acts: seq<Action>, t: Tid, p: Pid, i: nat, j: nat)
    requires Run(states, acts) && i < j < |acts| && acts[i] == WorkerTakes(t, p) && acts[j].t == t
    requires Undisturbed(acts, t, i, j)
    ensures acts[j] == Resume(t) && Resumes(states, acts, j, p)
  {
    RunStep(states, acts, i);
    RunStep(states, acts, j);
    Starts(states[i], acts[i]);
    StaysPut(states, acts, t, i, j);
    OnlyEnds(states[j], acts[j]);
  }

  /** How far a routine has come. */
  function Stage(pl: Place): nat {
    match pl
    case Entering => 0
    case Listed => 1
    case Taken(_) => 2
    case Pooled => 3
    case Running => 4
  }

  lemma StepAdvances(s: State, a: Action, p: Pid)
    requires Inv(s) && Enabled(s, a) && p in s.par && p in Step(s, a).par
    ensures s.par[p] == Step(s, a).par[p] || Stage(s.par[p]) < Stage(Step(s, a).par[p])
  {
    hide OwnerInv, CountInv, ExclusionInv, TakenInv;
    assert CallPlaced(s, s.pc[a.t]);
    hide CallsInv;
  }

  /** A routine only moves forward: from its call to the list, into a sweep, into the worker's queue and
      into execution. */
  lemma {:induction false} RoutinesMoveForward(states: seq<State>, acts: seq<Action>, i: nat, k: nat, p: Pid)
    requires Run(states, acts) && i <= k < |states| && forall m :: i <= m <= k ==> p in states[m].par
    ensures states[i].par[p] == states[k].par[p] || Stage(states[i].par[p]) < Stage(states[k].par[p])
  {
    if i < k {
      RoutinesMoveForward(states, acts, i, k - 1, p);
      RunInv(states, acts, k - 1);
      RunStep(states, acts, k - 1);
      hide Run, Inv, Step, Enabled, Stage;
      StepAdvances(states[k - 1], acts[k - 1], p);
    }
  }

  lemma Decides(s: State, a: Action)
    requires Enabled(s, a) && (a.CheckDouble? || a.PeekSuspend?)
    ensures a.t in Step(s, a).pc && Step(s, a).pc[a.t] == if s.suspend == 0 then Picking else Yielding(Execute)
  {
  }

  lemma FromPicking(s: State, a: Action)
    requires Enabled(s, a)
    ensures s.pc[a.t].Picking? ==> a == PickTask(a.t) || a == NoTask(a.t)
    ensures s.pc[a.t].Yielding? ==> a == Yield(a.t)
  {
  }

  /** A thread that has looked at suspend_count goes on to the next task if the warp is not suspended, and
      yields the warp if it is. */
  lemma GoesOnUnlessSuspended(states: seq<State>, acts: seq<Action>, t: Tid, i: nat, j: nat)
    requires Run(states, acts) && i < j < |acts| && (acts[i] == CheckDouble(t) || acts[i] == PeekSuspend(t))
    requires acts[j].t == t && Undisturbed(acts, t, i, j)
    ensures if states[i].suspend == 0 then acts[j] == PickTask(t) || acts[j] == NoTask(t) else acts[j] == Yield(t)
  {
    RunStep(states, acts, i);
    RunStep(states, acts, j);
    Decides(states[i], acts[i]);
    StaysPut(states, acts, t, i, j);
    FromPicking(states[j], acts[j]);
  }
}
