/**
 The worker pool told by the calls of a run: what was queued, what was executed, and what a poll does
 with the chain it takes.
 */
module PoolRuns {
  import opened Collections
  import opened Pool

  function One(b: bool): nat {
    if b then 1 else 0
  }

  /** Calls of `queue_task` and executions of tasks among the first `k` actions. */
  function Queues(acts: seq<Action>, k: nat): nat
    requires k <= |acts|
  {
    if k == 0 then 0 else Queues(acts, k - 1) + One(acts[k - 1].Queue?)
  }

  function Executions(acts: seq<Action>, k: nat): nat
    requires k <= |acts|
  {
    if k == 0 then 0 else Executions(acts, k - 1) + One(acts[k - 1].Execute?)
  }

  lemma StepCounts(s: State, a: Action)
    requires Enabled(s, a)
    ensures var s' := Step(s, a);
      && s'.queued == s.queued + One(a.Queue?) && |s'.log| == |s.log| + One(a.Execute?) && s.log <= s'.log
      && (a.Queue? ==> a.p in s'.jobs && s'.jobs[a.p] == s.queued)
  {
  }

  /** Jobs are numbered by the calls of `queue_task`, and every execution logs one. */
  lemma {:induction false} CountsAreActions(states: seq<State>, acts: seq<Action>, k: nat)
    requires Run(states, acts) && k < |states|
    ensures states[k].queued == Queues(acts, k) && |states[k].log| == Executions(acts, k)
  {
    hide Step, Enabled;
    if k > 0 {
      CountsAreActions(states, acts, k - 1);
      StepCounts(states[k - 1], acts[k - 1]);
    }
  }

  lemma {:induction false} LogGrows(states: seq<State>, acts: seq<Action>, i: nat, k: nat)
    requires Run(states, acts) && i <= k < |states|
    ensures states[i].log <= states[k].log
  {
    hide Step, Enabled;
    if i < k {
      LogGrows(states, acts, i, k - 1);
      StepCounts(states[k - 1], acts[k - 1]);
    }
  }

  /** When no call is in progress and all heads are empty, every job ever queued has been executed, and
      there were as many executions as calls of `queue_task`. */
  lemma AllQueuedRan(states: seq<State>, acts: seq<Action>, k: nat)
    requires Run(states, acts) && k < |states|
    requires forall h :: 0 <= h < |states[k].heads| ==> states[k].heads[h] == 0
    requires forall t :: 0 <= t < |states[k].pcs| ==> states[k].pcs[t] == Idle
    ensures |states| == |acts| + 1 && Executions(acts, k) == Queues(acts, k)
    ensures forall i | 0 <= i < k && acts[i].Queue? :: Queues(acts, i) in states[k].log
  {
    NothingLost(states, acts, k);
    NeverTwice(states, acts, k);
    CountsAreActions(states, acts, k);
    SameSize(states[k].log, Queues(acts, k));
    hide Run;
    forall i | 0 <= i < k && acts[i].Queue? ensures Queues(acts, i) in states[k].log {
      QueuesGrow(acts, i, k);
    }
  }

  lemma {:induction false} QueuesGrow(acts: seq<Action>, i: nat, k: nat)
    requires i < k <= |acts| && acts[i].Queue?
    ensures Queues(acts, i) < Queues(acts, k)
  {
    if i + 1 < k { QueuesGrow(acts, i, k - 1); }
  }

  /** A sequence without repetition of exactly the numbers below `n` has length `n`. */
  lemma {:induction false} SameSize(log: seq<Job>, n: nat)
    requires NoDup(log) && (forall j <- log :: 0 <= j < n) && forall j :: 0 <= j < n ==> j in log
    ensures |log| == n
  {
    if n == 0 {
      assert forall i :: 0 <= i < |log| ==> log[i] in log;
    } else {
      assert n - 1 in log;
      var i :| 0 <= i < |log| && log[i] == n - 1;
      var rest := log[..i] + log[i + 1..];
      forall j | j in rest ensures 0 <= j < n - 1 {
        var m :| 0 <= m < |rest| && rest[m] == j;
        var m' := if m < i then m else m + 1;
        assert j == log[m'] && log[m'] in log && m' != i;
      }
      forall j | 0 <= j < n - 1 ensures j in rest {
        assert j in log;
        var m :| 0 <= m < |log| && log[m] == j;
        assert rest[if m < i then m else m - 1] == j;
      }
      SameSize(rest, n - 1);
    }
  }

  // ---- what other activities leave alone -----------------------------------------------------------

  /** A task in the hands of activity `t`. */
  ghost predicate Mine(g: Layout, x: Ptr, t: nat) {
    x in g.home && (g.home[x] == InChain(t) || g.home[x] == Loose(t))
  }

  /** The task whose fields a step writes, or null. */
  function Touched(s: State, a: Action): Ptr
    requires Enabled(s, a)
  {
    var pc := s.pcs[a.t];
    match a
    case Queue(_, p) => p
    case WriteNext(_) => if pc.Linking? then pc.task else pc.org
    case Execute(_) => if pc.Executing? then pc.task else pc.p
    case _ => 0
  }

  lemma StepTouches(s: State, a: Action, x: Ptr)
    requires Enabled(s, a) && x != Touched(s, a)
    ensures var s' := Step(s, a);
      && (x in s.jobs ==> x in s'.jobs && s'.jobs[x] == s.jobs[x])
      && (x in s.next ==> x in s'.next && s'.next[x] == s.next[x])
  {
    match a
    case Queue(_, _) =>
    case TryEmpty(_, _) =>
    case LoadHead(_, _) =>
    case RunAtOnce(_) =>
    case WriteNext(_) =>
    case SwingHead(_, _) =>
    case TakeHead(_, _) =>
    case PutBack(_) =>
    case ReturnOne(_) =>
    case Execute(_) =>
    case Drain(_, _) =>
    case DrainOne(_) =>
  }

  lemma OthersLeave(s: State, a: Action, g: Layout, t: nat, x: Ptr)
    requires Inv(s, g) && Enabled(s, a) && a.t != t && t < |s.pcs| && Mine(g, x, t)
    ensures var s' := Step(s, a);
      && x in s'.jobs && x in s.jobs && s'.jobs[x] == s.jobs[x]
      && x in s.next && x in s'.next && s'.next[x] == s.next[x]
  {
    hide HeadsOk, OwnOk, JobsOk, Located, Step;
    assert forall y <- LooseOf(s.pcs[a.t]) :: y in g.home && g.home[y] == Loose(a.t);
    hide LooseOk;
    StepTouches(s, a, x);
  }

  lemma Stays(s: State, a: Action, t: nat)
    requires Enabled(s, a) && a.t != t && t < |s.pcs|
    ensures t < |Step(s, a).pcs| && Step(s, a).pcs[t] == s.pcs[t]
  {
  }

  // ---- poll_one_internal ---------------------------------------------------------------------------

  /** Activity `t` is at work on the task it took. */
  predicate Polling(pc: Pc, p: Ptr) {
    match pc
    case Took(_, task) => task == p
    case Returning(_, task, _) => task == p
    case ReLinking(_, task, _, _, _) => task == p
    case ReSwinging(_, task, _, _, _) => task == p
    case Executing(task) => task == p
    case _ => false
  }

  lemma PollOn(s: State, a: Action, p: Ptr)
    requires Enabled(s, a) && Polling(s.pcs[a.t], p)
    ensures var s' := Step(s, a);
      if a.Execute? then s'.pcs[a.t] == Idle && s'.log == s.log + [if p in s.jobs then s.jobs[p] else -1]
      else Polling(s'.pcs[a.t], p) && s'.log == s.log && s'.jobs == s.jobs
  {
  }

  lemma PollingIsMine(s: State, g: Layout, t: nat, p: Ptr)
    requires Inv(s, g) && t < |s.pcs| && Polling(s.pcs[t], p)
    ensures Mine(g, p, t) && p in s.jobs
  {
    hide HeadsOk, JobsOk, Located;
    if s.pcs[t].Took? {
      assert ChainAt(s, p, g.own[t], g.home, InChain(t)) && Prepared(s, s.pcs[t]);
      Uncons(s, p, g.own[t], g.home, InChain(t));
    } else {
      assert p in LooseOf(s.pcs[t]);
    }
  }

  lemma OthersPoll(s: State, a: Action, g: Layout, t: nat, p: Ptr)
    requires Inv(s, g) && Enabled(s, a) && a.t != t && t < |s.pcs| && Mine(g, p, t)
    ensures var s' := Step(s, a);
      && t < |s'.pcs| && s'.pcs[t] == s.pcs[t] && p in s'.jobs && p in s.jobs && s'.jobs[p] == s.jobs[p]
  {
    hide Inv, Enabled, Step, Mine;
    OthersLeave(s, a, g, t, p);
    Stays(s, a, t);
  }

  /** The call of activity `t` that took task `p` at action `i` is still in progress before action `k`. */
  ghost predicate InCall(states: seq<State>, t: nat, i: nat, k: nat) {
    forall m :: i < m < k && m < |states| ==> t < |states[m].pcs| && states[m].pcs[t] != Idle
  }

  lemma {:induction false} PollGoesOn(states: seq<State>, acts: seq<Action>, t: nat, h: nat, i: nat, k: nat)
    requires Run(states, acts) && i < k < |states| && acts[i] == TakeHead(t, h) && InCall(states, t, i, k + 1)
    requires h < |states[i].heads| && states[i].heads[h] != 0
    ensures var p := states[i].heads[h];
      && t < |states[k].pcs| && Polling(states[k].pcs[t], p)
      && p in states[i].jobs && p in states[k].jobs && states[k].jobs[p] == states[i].jobs[p]
  {
    var p := states[i].heads[h];
    var s, a := states[k - 1], acts[k - 1];
    var g := RunConserves(states, acts, k - 1);
    if k == i + 1 {
      assert Enabled(s, a) && states[k] == Step(s, a);
      HeadIsLive(s, g, h);
    } else {
      PollGoesOn(states, acts, t, h, i, k - 1);
      hide Inv, Enabled, Step, Run, Polling;
      assert Enabled(s, a) && states[k] == Step(s, a) by { RunStep(states, acts, k - 1); }
      PollingIsMine(s, g, t, p);
      if a.t == t { PollOn(s, a, p); } else { OthersPoll(s, a, g, t, p); }
    }
  }

  lemma RunStep(states: seq<State>, acts: seq<Action>, i: nat)
    requires Run(states, acts) && i < |acts|
    ensures |states| == |acts| + 1 && Enabled(states[i], acts[i]) && states[i + 1] == Step(states[i], acts[i])
  {
  }

  lemma Takes(s: State, t: nat, h: nat)
    requires Enabled(s, TakeHead(t, h)) && s.heads[h] != 0
    ensures Step(s, TakeHead(t, h)).pcs[t] == Took(h, s.heads[h])
  {
  }

  lemma HeadIsLive(s: State, g: Layout, h: nat)
    requires Inv(s, g) && h < |s.heads| && s.heads[h] != 0
    ensures s.heads[h] in s.jobs
  {
    hide OwnOk, LooseOk, JobsOk, Located;
    Uncons(s, s.heads[h], g.heads[h], g.home, InHead(h));
  }

  /** A poll that finds a task at its head ends by executing that very task. */
  lemma PollRunsItsTask(states: seq<State>, acts: seq<Action>, t: nat, h: nat, i: nat, k: nat)
    requires Run(states, acts) && i < k < |states| && acts[i] == TakeHead(t, h) && InCall(states, t, i, k)
    requires h < |states[i].heads| && states[i].heads[h] != 0 && t < |states[k].pcs| && states[k].pcs[t] == Idle
    ensures acts[k - 1] == Execute(t) && states[i].heads[h] in states[i].jobs
    ensures states[k].log == states[k - 1].log + [states[i].jobs[states[i].heads[h]]]
  {
    var p := states[i].heads[h];
    RunStep(states, acts, i);
    RunStep(states, acts, k - 1);
    Takes(states[i], t, h);
    if k > i + 1 {
      PollGoesOn(states, acts, t, h, i, k - 1);
      var g := RunConserves(states, acts, k - 1);
      var s, a := states[k - 1], acts[k - 1];
      hide Inv, Enabled, Step, Run;
      PollingIsMine(s, g, t, p);
      if a.t == t { PollOn(s, a, p); } else { OthersPoll(s, a, g, t, p); }
    }
  }

  // ---- poll ------------------------------------------------------------------------------------------

  lemma {:induction false} LinkedUnique(next: map<Ptr, Ptr>, p: Ptr, c: seq<Ptr>, d: seq<Ptr>)
    requires Linked(next, p, c) && Linked(next, p, d)
    ensures c == d
    decreases c
  {
    if c != [] { LinkedUnique(next, next[p], c[1..], d[1..]); }
  }

  lemma {:induction false} LinkedSame(next: map<Ptr, Ptr>, next': map<Ptr, Ptr>, p: Ptr, c: seq<Ptr>)
    requires Linked(next, p, c) && forall x <- c :: x in next && x in next' && next'[x] == next[x]
    ensures Linked(next', p, c)
    decreases c
  {
    if c != [] { LinkedSame(next, next', next[p], c[1..]); }
  }

  /** Activity `t` drains the tasks `c`, which carry `js`; the first `n` of them have run. */
  ghost predicate Draining(s: State, t: nat, c: seq<Ptr>, js: seq<Job>, n: nat) {
    && t < |s.pcs| && |js| == |c| && n <= |c| && NoDup(c)
    && (forall m :: 0 <= m < n ==> js[m] in s.log)
    && (forall m :: n <= m < |c| ==> c[m] in s.jobs && s.jobs[c[m]] == js[m])
    && match s.pcs[t]
       case Draining(q) => Linked(s.next, q, c[n..])
       case DrainExecuting(p, q) => n < |c| && p == c[n] && Linked(s.next, q, c[n + 1..])
       case _ => false
  }

  /** The tasks still to run are with the activity. */
  lemma DrainingIsMine(s: State, g: Layout, t: nat, c: seq<Ptr>, js: seq<Job>, n: nat)
    requires Inv(s, g) && Draining(s, t, c, js, n)
    ensures forall x <- c[n..] :: Mine(g, x, t)
  {
    hide HeadsOk, JobsOk, HomesOk;
    assert ChainAt(s, ChainOf(s.pcs[t]), g.own[t], g.home, InChain(t));
    if s.pcs[t].Draining? {
      LinkedUnique(s.next, ChainOf(s.pcs[t]), c[n..], g.own[t]);
    } else {
      LinkedUnique(s.next, ChainOf(s.pcs[t]), c[n + 1..], g.own[t]);
      assert s.pcs[t].p in LooseOf(s.pcs[t]);
      assert c[n..] == [c[n]] + c[n + 1..];
    }
  }

  lemma OthersDrain(s: State, a: Action, g: Layout, t: nat, c: seq<Ptr>, js: seq<Job>, n: nat)
    requires Inv(s, g) && Enabled(s, a) && a.t != t && Draining(s, t, c, js, n)
    ensures Draining(Step(s, a), t, c, js, n)
  {
    var s' := Step(s, a);
    DrainingIsMine(s, g, t, c, js, n);
    StepCounts(s, a);
    hide Inv, Enabled, Step;
    forall x | x in c[n..]
      ensures x in s'.jobs && x in s.jobs && s'.jobs[x] == s.jobs[x]
      ensures x in s.next && x in s'.next && s'.next[x] == s.next[x]
    {
      OthersLeave(s, a, g, t, x);
    }
    assert t < |s'.pcs| && s'.pcs[t] == s.pcs[t] by {
      Stays(s, a, t);
    }
    forall m | n <= m < |c| ensures c[m] in s'.jobs && s'.jobs[c[m]] == js[m] {
      assert c[m] in c[n..];
    }
    var rest := if s.pcs[t].Draining? then c[n..] else c[n + 1..];
    forall x | x in rest ensures x in s.next && x in s'.next && s'.next[x] == s.next[x] {
      assert x in c[n..];
    }
    LinkedSame(s.next, s'.next, ChainOf(s.pcs[t]), rest);
  }

  /** A step of the drain itself: it takes the next task, runs it, or finds the chain at its end. */
  lemma OwnDrain(s: State, a: Action, t: nat, c: seq<Ptr>, js: seq<Job>, n: nat) returns (n': nat)
    requires Enabled(s, a) && a.t == t && Draining(s, t, c, js, n)
    ensures if Step(s, a).pcs[t] == Idle then n' == n == |c| && Step(s, a).log == s.log
            else Draining(Step(s, a), t, c, js, n')
  {
    var s' := Step(s, a);
    if s.pcs[t].Draining? {
      n' := n;
      if c[n..] != [] { assert c[n..][0] == c[n] && c[n..][1..] == c[n + 1..]; }
    } else {
      n' := n + 1;
      assert s'.log == s.log + [js[n]] && s'.jobs == s.jobs - {c[n]};
      forall m | n + 1 <= m < |c| ensures c[m] in s'.jobs && s'.jobs[c[m]] == js[m] { }
      forall m | 0 <= m < n + 1 ensures js[m] in s'.log {
        assert m == n ==> s'.log[|s.log|] == js[m];
      }
    }
  }

  lemma {:induction false} DrainGoesOn(states: seq<State>, acts: seq<Action>, t: nat, h: nat, c: seq<Ptr>, js: seq<Job>,
                                      i: nat, k: nat) returns (n: nat)
    requires Run(states, acts) && i < k < |states| && acts[i] == Drain(t, h) && InCall(states, t, i, k + 1)
    requires Carries(states[i], h, c, js)
    ensures Draining(states[k], t, c, js, n)
  {
    var s, a := states[k - 1], acts[k - 1];
    RunStep(states, acts, k - 1);
    if k == i + 1 {
      n := 0;
      assert c[0..] == c;
    } else {
      n := DrainGoesOn(states, acts, t, h, c, js, i, k - 1);
      var g := RunConserves(states, acts, k - 1);
      hide Inv, Enabled, Step, Run, Draining, Carries;
      if a.t == t { n := OwnDrain(s, a, t, c, js, n); } else { OthersDrain(s, a, g, t, c, js, n); }
    }
  }

  /** The chain behind head `h` is `c`, and its tasks carry the jobs `js`. */
  ghost predicate Carries(s: State, h: nat, c: seq<Ptr>, js: seq<Job>) {
    && h < |s.heads| && Linked(s.next, s.heads[h], c) && NoDup(c) && |js| == |c|
    && forall m :: 0 <= m < |c| ==> c[m] in s.jobs && s.jobs[c[m]] == js[m]
  }

  /** `poll` runs every task of the chain it takes: when the call returns, all their jobs are logged. */
  lemma DrainRunsAll(states: seq<State>, acts: seq<Action>, t: nat, h: nat, c: seq<Ptr>, js: seq<Job>, i: nat, k: nat)
    requires Run(states, acts) && i < k < |states| && acts[i] == Drain(t, h) && InCall(states, t, i, k)
    requires Carries(states[i], h, c, js) && t < |states[k].pcs| && states[k].pcs[t] == Idle
    ensures forall j <- js :: j in states[k].log
  {
    RunStep(states, acts, i);
    RunStep(states, acts, k - 1);
    Drains(states[i], t, h);
    if k > i + 1 {
      var n := DrainGoesOn(states, acts, t, h, c, js, i, k - 1);
      var g := RunConserves(states, acts, k - 1);
      var s, a := states[k - 1], acts[k - 1];
      hide Inv, Enabled, Step, Run;
      if a.t == t {
        var n' := OwnDrain(s, a, t, c, js, n);
      } else {
        Stays(s, a, t);
      }
    }
  }

  lemma Drains(s: State, t: nat, h: nat)
    requires Enabled(s, Drain(t, h))
    ensures Step(s, Drain(t, h)).pcs[t] == Pool.Draining(s.heads[h])
  {
  }

  // ---- a pool that is not started --------------------------------------------------------------------------

  /** No action of activity `t` lies strictly between `i` and `j`. */
  ghost predicate Undisturbed(acts: seq<Action>, t: nat, i: nat, j: nat) {
    forall m :: i < m < j && m < |acts| ==> acts[m].t != t
  }

  lemma RunsNow(s: State, a: Action)
    requires Enabled(s, a)
    ensures a.RunAtOnce? ==> Step(s, a).pcs[a.t] == Executing(s.pcs[a.t].task)
    ensures s.pcs[a.t].Executing? ==>
      && a.Execute? && var p := s.pcs[a.t].task;
      Step(s, a).log == s.log + [if p in s.jobs then s.jobs[p] else -1]
  {
  }

  lemma {:induction false} HoldsTask(states: seq<State>, acts: seq<Action>, t: nat, p: Ptr, i: nat, j: nat)
    requires Run(states, acts) && i < j < |states| && Undisturbed(acts, t, i, j)
    requires t < |states[i + 1].pcs| && states[i + 1].pcs[t] == Executing(p)
    ensures t < |states[j].pcs| && states[j].pcs[t] == Executing(p)
    ensures p in states[i + 1].jobs && p in states[j].jobs && states[j].jobs[p] == states[i + 1].jobs[p]
  {
    var g := RunConserves(states, acts, j - 1);
    var g' := RunConserves(states, acts, j);
    RunStep(states, acts, j - 1);
    if i + 1 < j {
      HoldsTask(states, acts, t, p, i, j - 1);
      hide Run, Inv, Step, Enabled;
      PollingIsMine(states[j - 1], g, t, p);
      OthersPoll(states[j - 1], acts[j - 1], g, t, p);
    } else {
      hide Run, Inv, Step, Enabled;
      PollingIsMine(states[j], g', t, p);
    }
  }

  /** A pool that is not started runs a queued task in the call that queues it. */
  lemma RunAtOnceRuns(states: seq<State>, acts: seq<Action>, t: nat, i: nat, j: nat)
    requires Run(states, acts) && i < j < |acts| && acts[i] == RunAtOnce(t) && acts[j].t == t
    requires Undisturbed(acts, t, i, j)
    ensures acts[j] == Execute(t) && states[i].pcs[t].task in states[i + 1].jobs
    ensures states[j + 1].log == states[j].log + [states[i + 1].jobs[states[i].pcs[t].task]]
  {
    RunStep(states, acts, i);
    RunStep(states, acts, j);
    RunsNow(states[i], acts[i]);
    RunsNow(states[j], acts[j]);
    HoldsTask(states, acts, t, states[i].pcs[t].task, i, j);
  }
}
