/**
 The worker pool's task lists (`iris_async_worker_t`) at pointer level: `queue_task`,
 `poll_one_internal` and `poll` work on lock-free chains linked through the tasks themselves.
 Every action is one atomic access to shared memory; a run is any interleaving of such steps.
 A task address may be used again as soon as its task has been executed.
 */
module Pool {
  import opened Collections

  type Ptr = int   // 0 is the null pointer
  type Job = int

  datatype Pc =
    | Idle
    // queue_task
    | Trying(task: Ptr)                                      // probing the heads for an empty one
    | Linking(task: Ptr, h: nat, node: Ptr)                  // head loaded, about to write task->next
    | Swinging(task: Ptr, h: nat, node: Ptr)                 // about to compare_exchange the head
    // poll_one_internal
    | Took(h: nat, task: Ptr)                                // head exchanged for null
    | Returning(h: nat, task: Ptr, org: Ptr)                 // rest put back, org displaced by it
    | ReLinking(h: nat, task: Ptr, org: Ptr, rest: Ptr, node: Ptr)
    | ReSwinging(h: nat, task: Ptr, org: Ptr, rest: Ptr, node: Ptr)
    | Executing(task: Ptr)
    // poll
    | Draining(task: Ptr)
    | DrainExecuting(p: Ptr, rest: Ptr)

  datatype State = State(
    heads: seq<Ptr>,            // task_heads
    next: map<Ptr, Ptr>,        // the next field of every task ever allocated
    jobs: map<Ptr, Job>,        // the live tasks and what they carry
    pcs: seq<Pc>,               // one activity per call in progress
    queued: nat,                // jobs are numbered in the order of their queue_task calls
    log: seq<Job>)              // jobs executed so far

  datatype Action =
    | Queue(t: nat, p: Ptr)
    | TryEmpty(t: nat, h: nat)
    | LoadHead(t: nat, h: nat)
    | RunAtOnce(t: nat)               // the pool is not started
    | WriteNext(t: nat)
    | SwingHead(t: nat, spurious: bool)
    | TakeHead(t: nat, h: nat)
    | PutBack(t: nat)
    | ReturnOne(t: nat)
    | Execute(t: nat)
    | Drain(t: nat, h: nat)
    | DrainOne(t: nat)

  function Next(s: State, p: Ptr): Ptr {
    if p in s.next then s.next[p] else 0
  }

  function SetPc(s: State, t: nat, pc: Pc): State
    requires t < |s.pcs|
  {
    s.(pcs := s.pcs[t := pc])
  }

  function SetHead(s: State, h: nat, p: Ptr): State
    requires h < |s.heads|
  {
    s.(heads := s.heads[h := p])
  }

  predicate Enabled(s: State, a: Action) {
    a.t < |s.pcs| &&
    var pc := s.pcs[a.t];
    match a
    case Queue(_, p) => pc.Idle? && p != 0 && p !in s.jobs
    case TryEmpty(_, h) => pc.Trying? && h < |s.heads|
    case LoadHead(_, h) => pc.Trying? && h < |s.heads|
    case RunAtOnce(_) => pc.Trying?
    case WriteNext(_) => pc.Linking? || pc.ReLinking?
    case SwingHead(_, _) => (pc.Swinging? || pc.ReSwinging?) && pc.h < |s.heads|
    case TakeHead(_, h) => pc.Idle? && h < |s.heads|
    case PutBack(_) => pc.Took? && pc.h < |s.heads|
    case ReturnOne(_) => pc.Returning? && pc.h < |s.heads|
    case Execute(_) => pc.Executing? || pc.DrainExecuting?
    case Drain(_, h) => pc.Idle? && h < |s.heads|
    case DrainOne(_) => pc.Draining?
  }

  /** The task is run: what it carries is logged and its memory is free again. */
  function Finish(s: State, p: Ptr): State {
    s.(log := s.log + [if p in s.jobs then s.jobs[p] else -1], jobs := s.jobs - {p})
  }

  function Step(s: State, a: Action): State
    requires Enabled(s, a)
  {
    var pc := s.pcs[a.t];
    match a
    case Queue(t, p) =>
      SetPc(s, t, Trying(p)).(next := s.next[p := 0], jobs := s.jobs[p := s.queued], queued := s.queued + 1)
    case TryEmpty(t, h) =>
      if s.heads[h] == 0 then SetHead(SetPc(s, t, Idle), h, pc.task) else s
    case LoadHead(t, h) => SetPc(s, t, Linking(pc.task, h, s.heads[h]))
    case RunAtOnce(t) => SetPc(s, t, Executing(pc.task))
    case WriteNext(t) =>
      if pc.Linking? then SetPc(s, t, Swinging(pc.task, pc.h, pc.node)).(next := s.next[pc.task := pc.node])
      else SetPc(s, t, ReSwinging(pc.h, pc.task, pc.org, pc.rest, pc.node)).(next := s.next[pc.org := pc.node])
    case SwingHead(t, spurious) =>
      var won := s.heads[pc.h] == pc.node && !spurious;
      if pc.Swinging? then
        if won then SetHead(SetPc(s, t, Idle), pc.h, pc.task)
        else SetPc(s, t, Linking(pc.task, pc.h, s.heads[pc.h]))
      else
        if won then SetHead(SetPc(s, t, Returning(pc.h, pc.task, pc.rest)), pc.h, pc.org)
        else SetPc(s, t, ReLinking(pc.h, pc.task, pc.org, pc.rest, s.heads[pc.h]))
    case TakeHead(t, h) =>
      if s.heads[h] == 0 then s else SetHead(SetPc(s, t, Took(h, s.heads[h])), h, 0)
    case PutBack(t) =>
      SetHead(SetPc(s, t, Returning(pc.h, pc.task, s.heads[pc.h])), pc.h, Next(s, pc.task))
    case ReturnOne(t) =>
      if pc.org == 0 then SetPc(s, t, Executing(pc.task))
      else SetPc(s, t, ReLinking(pc.h, pc.task, pc.org, Next(s, pc.org), s.heads[pc.h]))
    case Execute(t) =>
      if pc.Executing? then Finish(SetPc(s, t, Idle), pc.task)
      else Finish(SetPc(s, t, Draining(pc.rest)), pc.p)
    case Drain(t, h) => SetHead(SetPc(s, t, Draining(s.heads[h])), h, 0)
    case DrainOne(t) =>
      if pc.task == 0 then SetPc(s, t, Idle) else SetPc(s, t, DrainExecuting(pc.task, Next(s, pc.task)))
  }

  predicate Initial(s: State) {
    && s.jobs == map[] && s.queued == 0 && s.log == []
    && (forall h :: 0 <= h < |s.heads| ==> s.heads[h] == 0)
    && (forall t :: 0 <= t < |s.pcs| ==> s.pcs[t] == Idle)
  }

  ghost predicate Run(states: seq<State>, acts: seq<Action>) {
    && |states| == |acts| + 1 && Initial(states[0])
    && forall i {:trigger acts[i]} :: 0 <= i < |acts|
         ==> Enabled(states[i], acts[i]) && states[i + 1] == Step(states[i], acts[i])
  }

  // ---- where every task is -------------------------------------------------------------

  datatype Place = InHead(h: int) | InChain(t: int) | Loose(t: int)

  /** The chains behind the pointers, and the one place of every live task and pending job. */
  datatype Layout = Layout(heads: seq<seq<Ptr>>, own: seq<seq<Ptr>>, home: map<Ptr, Place>, ptrOf: map<Job, Ptr>)

  /** Following `next` from `p` gives exactly `c` and ends at null. */
  ghost predicate Linked(next: map<Ptr, Ptr>, p: Ptr, c: seq<Ptr>)
    decreases c
  {
    if c == [] then p == 0 else p == c[0] && p != 0 && p in next && Linked(next, next[p], c[1..])
  }

  /** The tasks an activity holds one by one. */
  function LooseOf(pc: Pc): set<Ptr> {
    match pc
    case Idle => {}
    case Trying(task) => {task}
    case Linking(task, _, _) => {task}
    case Swinging(task, _, _) => {task}
    case Took(_, _) => {}
    case Returning(_, task, _) => {task}
    case ReLinking(_, task, org, _, _) => {task, org}
    case ReSwinging(_, task, org, _, _) => {task, org}
    case Executing(task) => {task}
    case Draining(_) => {}
    case DrainExecuting(p, _) => {p}
  }

  /** The start of the chain an activity holds. */
  function ChainOf(pc: Pc): Ptr {
    match pc
    case Took(_, task) => task
    case Returning(_, _, org) => org
    case ReLinking(_, _, _, rest, _) => rest
    case ReSwinging(_, _, _, rest, _) => rest
    case Draining(task) => task
    case DrainExecuting(_, rest) => rest
    case _ => 0
  }

  /** What an activity has written and not yet published. */
  ghost predicate Prepared(s: State, pc: Pc) {
    && (pc.Linking? || pc.Swinging? || pc.Took? || pc.Returning? || pc.ReLinking? || pc.ReSwinging? ==>
          pc.h < |s.heads|)
    && match pc
    case Trying(task) => Next(s, task) == 0
    case Swinging(task, _, node) => Next(s, task) == node
    case ReLinking(_, task, org, _, _) => task != org
    case ReSwinging(_, task, org, _, node) => task != org && Next(s, org) == node
    case Took(_, task) => task != 0
    case _ => true
  }

  ghost predicate ChainAt(s: State, p: Ptr, c: seq<Ptr>, home: map<Ptr, Place>, pl: Place) {
    Linked(s.next, p, c) && NoDup(c) && forall x <- c :: x in home && home[x] == pl
  }

  ghost predicate HeadsOk(s: State, g: Layout) {
    && |g.heads| == |s.heads|
    && forall h :: 0 <= h < |s.heads| ==> ChainAt(s, s.heads[h], g.heads[h], g.home, InHead(h))
  }

  ghost predicate OwnOk(s: State, g: Layout) {
    && |g.own| == |s.pcs|
    && forall t :: 0 <= t < |s.pcs| ==> ChainAt(s, ChainOf(s.pcs[t]), g.own[t], g.home, InChain(t))
  }

  ghost predicate LooseOk(s: State, g: Layout) {
    forall t :: 0 <= t < |s.pcs| ==>
      Prepared(s, s.pcs[t]) && forall x <- LooseOf(s.pcs[t]) :: x in g.home && g.home[x] == Loose(t)
  }

  /** A task is where its home says. */
  ghost predicate Located(s: State, g: Layout, x: Ptr)
    requires x in g.home
  {
    match g.home[x]
    case InHead(h) => 0 <= h < |g.heads| && x in g.heads[h]
    case InChain(t) => 0 <= t < |g.own| && x in g.own[t]
    case Loose(t) => 0 <= t < |s.pcs| && x in LooseOf(s.pcs[t])
  }

  ghost predicate HomesOk(s: State, g: Layout) {
    && g.home.Keys == s.jobs.Keys && 0 !in g.home && g.home.Keys <= s.next.Keys
    && forall x <- g.home :: Located(s, g, x)
  }

  /** Every job ever queued is pending in exactly one task or executed exactly once. */
  ghost predicate JobsOk(s: State, g: Layout) {
    && NoDup(s.log)
    && (forall p <- s.jobs :: s.jobs[p] in g.ptrOf && g.ptrOf[s.jobs[p]] == p)
    && (forall j <- g.ptrOf :: g.ptrOf[j] in s.jobs && s.jobs[g.ptrOf[j]] == j)
    && (forall j :: 0 <= j < s.queued <==> j in g.ptrOf || j in s.log)
    && (forall j <- s.log :: j !in g.ptrOf)
  }

  ghost predicate Inv(s: State, g: Layout) {
    HeadsOk(s, g) && OwnOk(s, g) && LooseOk(s, g) && HomesOk(s, g) && JobsOk(s, g)
  }

  // ---- chains --------------------------------------------------------------------------

  /** Writing the next field of a task that is not in a chain leaves the chain alone. */
  lemma {:induction false} LinkedFrame(next: map<Ptr, Ptr>, p: Ptr, c: seq<Ptr>, x: Ptr, v: Ptr)
    requires Linked(next, p, c) && x !in c
    ensures Linked(next[x := v], p, c)
    decreases c
  {
    if c != [] { LinkedFrame(next, next[p], c[1..], x, v); }
  }

  lemma ChainFrame(s: State, s': State, p: Ptr, c: seq<Ptr>, home: map<Ptr, Place>, home': map<Ptr, Place>,
    pl: Place, x: Ptr, v: Ptr)
    requires ChainAt(s, p, c, home, pl) && x !in c && s'.next == s.next[x := v]
    requires forall y <- c :: y in home' && home'[y] == home[y]
    ensures ChainAt(s', p, c, home', pl)
  {
    LinkedFrame(s.next, p, c, x, v);
  }

  // ---- what every kind of step keeps ---------------------------------------------------

  lemma JobsSame(s: State, s': State, g: Layout, g': Layout)
    requires JobsOk(s, g) && s'.jobs == s.jobs && s'.log == s.log && s'.queued == s.queued && g'.ptrOf == g.ptrOf
    ensures JobsOk(s', g')
  {
  }

  /** The activity only moves on. */
  lemma MoveKeeps(s: State, g: Layout, t: nat, pc': Pc)
    requires Inv(s, g) && t < |s.pcs|
    requires LooseOf(pc') == LooseOf(s.pcs[t]) && ChainOf(pc') == ChainOf(s.pcs[t]) && Prepared(s, pc')
    ensures Inv(SetPc(s, t, pc'), g)
  {
    hide JobsOk;
    JobsSame(s, SetPc(s, t, pc'), g, g);
    assert OwnOk(SetPc(s, t, pc'), g);
  }

  /** `queue_task` starts with a new task. */
  lemma AllocateKeeps(s: State, g: Layout, t: nat, p: Ptr) returns (g': Layout)
    requires Inv(s, g) && Enabled(s, Queue(t, p))
    ensures Inv(Step(s, Queue(t, p)), g')
  {
    hide Linked, NoDup, JobsOk;
    g' := g.(home := g.home[p := Loose(t)], ptrOf := g.ptrOf[s.queued := p]);
    var s' := Step(s, Queue(t, p));
    AllocateJobs(s, g, t, p, g');
    forall h | 0 <= h < |s.heads| ensures ChainAt(s', s'.heads[h], g'.heads[h], g'.home, InHead(h)) {
      ChainFrame(s, s', s.heads[h], g.heads[h], g.home, g'.home, InHead(h), p, 0);
    }
    forall u | 0 <= u < |s.pcs| ensures ChainAt(s', ChainOf(s'.pcs[u]), g'.own[u], g'.home, InChain(u)) {
      ChainFrame(s, s', ChainOf(s.pcs[u]), g.own[u], g.home, g'.home, InChain(u), p, 0);
    }
  }

  lemma AllocateJobs(s: State, g: Layout, t: nat, p: Ptr, g': Layout)
    requires Inv(s, g) && Enabled(s, Queue(t, p)) && g'.ptrOf == g.ptrOf[s.queued := p]
    ensures JobsOk(Step(s, Queue(t, p)), g')
  {
    hide Linked, ChainAt;
  }

  /** An activity writes the next field of a task it holds. */
  lemma WriteKeeps(s: State, g: Layout, t: nat, x: Ptr, v: Ptr, pc': Pc)
    requires Inv(s, g) && t < |s.pcs| && x in LooseOf(s.pcs[t])
    requires LooseOf(pc') == LooseOf(s.pcs[t]) && ChainOf(pc') == ChainOf(s.pcs[t])
    requires Prepared(SetPc(s, t, pc').(next := s.next[x := v]), pc')
    ensures Inv(SetPc(s, t, pc').(next := s.next[x := v]), g)
  {
    hide Linked, NoDup, JobsOk;
    var s' := SetPc(s, t, pc').(next := s.next[x := v]);
    JobsSame(s, s', g, g);
    assert g.home[x] == Loose(t);
    forall h | 0 <= h < |s.heads| ensures ChainAt(s', s'.heads[h], g.heads[h], g.home, InHead(h)) {
      ChainFrame(s, s', s.heads[h], g.heads[h], g.home, g.home, InHead(h), x, v);
    }
    forall u | 0 <= u < |s.pcs| ensures ChainAt(s', ChainOf(s'.pcs[u]), g.own[u], g.home, InChain(u)) {
      ChainFrame(s, s', ChainOf(s.pcs[u]), g.own[u], g.home, g.home, InChain(u), x, v);
    }
    forall u | 0 <= u < |s.pcs| ensures Prepared(s', s'.pcs[u]) {
      assert forall y <- LooseOf(s.pcs[u]) :: g.home[y] == Loose(u);
    }
  }

  /** A held task whose next field equals the head becomes the head. */
  lemma PushKeeps(s: State, g: Layout, t: nat, h: nat, p: Ptr, pc': Pc) returns (g': Layout)
    requires Inv(s, g) && t < |s.pcs| && h < |s.heads| && p in LooseOf(s.pcs[t]) && Next(s, p) == s.heads[h]
    requires LooseOf(pc') == LooseOf(s.pcs[t]) - {p} && ChainOf(pc') == ChainOf(s.pcs[t]) && Prepared(s, pc')
    ensures Inv(SetHead(SetPc(s, t, pc'), h, p), g')
  {
    hide NoDup, JobsOk, Linked;
    var c := [p] + g.heads[h];
    g' := g.(heads := g.heads[h := c], home := g.home[p := InHead(h)]);
    var s' := SetHead(SetPc(s, t, pc'), h, p);
    JobsSame(s, s', g, g');
    assert g.home[p] == Loose(t);
    Pushed(s, s.heads[h], g.heads[h], g.home, InHead(h), p);
    assert HeadsOk(s', g');
    assert OwnOk(s', g');
    assert LooseOk(s', g');
    assert HomesOk(s', g');
  }

  lemma Pushed(s: State, q: Ptr, c: seq<Ptr>, home: map<Ptr, Place>, pl: Place, p: Ptr)
    requires ChainAt(s, q, c, home, pl) && p !in c && p != 0 && p in s.next && s.next[p] == q
    ensures ChainAt(s, p, [p] + c, home[p := pl], pl)
  {
    assert ([p] + c)[1..] == c;
  }

  /** An activity's chain is exchanged with a head's. */
  lemma ExchangeKeeps(s: State, g: Layout, t: nat, h: nat, pc': Pc) returns (g': Layout)
    requires Inv(s, g) && t < |s.pcs| && h < |s.heads|
    requires LooseOf(pc') == LooseOf(s.pcs[t]) && ChainOf(pc') == s.heads[h] && Prepared(s, pc')
    ensures Inv(SetHead(SetPc(s, t, pc'), h, ChainOf(s.pcs[t])), g')
  {
    hide NoDup, JobsOk, Linked;
    g' := Exchanged(g, t, h);
    var s' := SetHead(SetPc(s, t, pc'), h, ChainOf(s.pcs[t]));
    JobsSame(s, s', g, g');
    ExchangeHomes(s, g, t, h, s');
    hide Located;
    assert HeadsOk(s', g');
    assert OwnOk(s', g');
    assert LooseOk(s', g');
  }

  ghost function Exchanged(g: Layout, t: nat, h: nat): Layout
    requires t < |g.own| && h < |g.heads|
  {
    g.(heads := g.heads[h := g.own[t]], own := g.own[t := g.heads[h]],
      home := map x <- g.home ::
        if g.home[x] == InHead(h) then InChain(t) else if g.home[x] == InChain(t) then InHead(h) else g.home[x])
  }

  lemma ExchangeHomes(s: State, g: Layout, t: nat, h: nat, s': State)
    requires HomesOk(s, g) && t < |s.pcs| == |g.own| && h < |g.heads| && s'.jobs == s.jobs && s'.next == s.next
    requires |s'.pcs| == |s.pcs| && forall u :: 0 <= u < |s.pcs| ==> LooseOf(s'.pcs[u]) == LooseOf(s.pcs[u])
    ensures HomesOk(s', Exchanged(g, t, h))
  {
    var g' := Exchanged(g, t, h);
    forall x | x in g'.home ensures Located(s', g', x) {
      assert Located(s, g, x);
    }
  }

  lemma EmptyChain(s: State, c: seq<Ptr>)
    ensures Linked(s.next, 0, c) <==> c == []
    ensures NoDup<Ptr>([])
  {
  }

  lemma Uncons(s: State, p: Ptr, c: seq<Ptr>, home: map<Ptr, Place>, pl: Place)
    requires ChainAt(s, p, c, home, pl) && p != 0
    ensures c != [] && c[0] == p && p in c && p !in c[1..] && ChainAt(s, Next(s, p), c[1..], home, pl)
  {
  }

  /** An activity takes the first task off the chain it holds. */
  lemma PopKeeps(s: State, g: Layout, t: nat, pc': Pc) returns (g': Layout)
    requires Inv(s, g) && t < |s.pcs| && ChainOf(s.pcs[t]) != 0
    requires LooseOf(pc') == LooseOf(s.pcs[t]) + {ChainOf(s.pcs[t])} && ChainOf(pc') == Next(s, ChainOf(s.pcs[t]))
    requires ChainOf(s.pcs[t]) !in LooseOf(s.pcs[t]) ==> Prepared(s, pc')
    ensures Inv(SetPc(s, t, pc'), g')
  {
    hide NoDup, JobsOk, Linked;
    var p := ChainOf(s.pcs[t]);
    Uncons(s, p, g.own[t], g.home, InChain(t));
    g' := g.(own := g.own[t := g.own[t][1..]], home := g.home[p := Loose(t)]);
    var s' := SetPc(s, t, pc');
    JobsSame(s, s', g, g');
    assert g.home[p] == InChain(t);
    assert HeadsOk(s', g');
    assert OwnOk(s', g');
    assert LooseOk(s', g');
    assert HomesOk(s', g');
  }

  /** A held task is executed and its memory released. */
  lemma FinishKeeps(s: State, g: Layout, t: nat, p: Ptr, pc': Pc) returns (g': Layout)
    requires Inv(s, g) && t < |s.pcs| && p in LooseOf(s.pcs[t])
    requires LooseOf(pc') == LooseOf(s.pcs[t]) - {p} && ChainOf(pc') == ChainOf(s.pcs[t]) && Prepared(s, pc')
    ensures p in s.jobs && Inv(Finish(SetPc(s, t, pc'), p), g')
  {
    hide NoDup, Linked;
    assert g.home[p] == Loose(t);
    var j := s.jobs[p];
    g' := g.(home := g.home - {p}, ptrOf := g.ptrOf - {j});
    var s' := Finish(SetPc(s, t, pc'), p);
    FinishJobs(s, g, p, s', g');
    hide JobsOk;
    assert HeadsOk(s', g');
    assert OwnOk(s', g');
    assert LooseOk(s', g');
    assert HomesOk(s', g');
  }

  lemma FinishJobs(s: State, g: Layout, p: Ptr, s': State, g': Layout)
    requires JobsOk(s, g) && p in s.jobs && g'.ptrOf == g.ptrOf - {s.jobs[p]}
    requires s'.jobs == s.jobs - {p} && s'.log == s.log + [s.jobs[p]] && s'.queued == s.queued
    ensures JobsOk(s', g')
  {
  }

  lemma PreparedAt(s: State, g: Layout, t: nat)
    requires Inv(s, g) && t < |s.pcs|
    ensures Prepared(s, s.pcs[t])
  {
  }

  lemma StepKeeps(s: State, a: Action, g: Layout) returns (g': Layout)
    requires Inv(s, g) && Enabled(s, a)
    ensures Inv(Step(s, a), g')
  {
    hide Inv;
    g' := g;
    var pc := s.pcs[a.t];
    PreparedAt(s, g, a.t);
    match a
    case Queue(t, p) => g' := AllocateKeeps(s, g, t, p);
    case TryEmpty(t, h) => if s.heads[h] == 0 { g' := PushKeeps(s, g, t, h, pc.task, Idle); }
    case LoadHead(t, h) => MoveKeeps(s, g, t, Linking(pc.task, h, s.heads[h]));
    case RunAtOnce(t) => MoveKeeps(s, g, t, Executing(pc.task));
    case WriteNext(t) =>
      if pc.Linking? { WriteKeeps(s, g, t, pc.task, pc.node, Swinging(pc.task, pc.h, pc.node)); }
      else { WriteKeeps(s, g, t, pc.org, pc.node, ReSwinging(pc.h, pc.task, pc.org, pc.rest, pc.node)); }
    case SwingHead(t, spurious) =>
      if s.heads[pc.h] == pc.node && !spurious {
        if pc.Swinging? { g' := PushKeeps(s, g, t, pc.h, pc.task, Idle); }
        else { g' := PushKeeps(s, g, t, pc.h, pc.org, Returning(pc.h, pc.task, pc.rest)); }
      } else {
        if pc.Swinging? { MoveKeeps(s, g, t, Linking(pc.task, pc.h, s.heads[pc.h])); }
        else { MoveKeeps(s, g, t, ReLinking(pc.h, pc.task, pc.org, pc.rest, s.heads[pc.h])); }
      }
    case TakeHead(t, h) => if s.heads[h] != 0 { g' := ExchangeKeeps(s, g, t, h, Took(h, s.heads[h])); }
    case PutBack(t) =>
      var popped := Returning(pc.h, pc.task, Next(s, pc.task));
      g' := PopKeeps(s, g, t, popped);
      var s1 := SetPc(s, t, popped);
      g' := ExchangeKeeps(s1, g', t, pc.h, Returning(pc.h, pc.task, s.heads[pc.h]));
      assert s1.pcs[t := Returning(pc.h, pc.task, s.heads[pc.h])] == Step(s, a).pcs;
    case ReturnOne(t) =>
      if pc.org == 0 { MoveKeeps(s, g, t, Executing(pc.task)); }
      else { g' := PopKeeps(s, g, t, ReLinking(pc.h, pc.task, pc.org, Next(s, pc.org), s.heads[pc.h])); }
    case Execute(t) =>
      if pc.Executing? { g' := FinishKeeps(s, g, t, pc.task, Idle); }
      else { g' := FinishKeeps(s, g, t, pc.p, Draining(pc.rest)); }
    case Drain(t, h) => g' := ExchangeKeeps(s, g, t, h, Draining(s.heads[h]));
    case DrainOne(t) =>
      if pc.task == 0 { MoveKeeps(s, g, t, Idle); }
      else { g' := PopKeeps(s, g, t, DrainExecuting(pc.task, Next(s, pc.task))); }
  }

  // ---- whole runs ----------------------------------------------------------------------

  /** In every reachable state all chains are finite, acyclic and disjoint, every live task is in
      exactly one place, and every job queued is pending once or was executed once. */
  lemma {:induction false} RunConserves(states: seq<State>, acts: seq<Action>, k: nat) returns (g: Layout)
    requires Run(states, acts) && k < |states|
    ensures Inv(states[k], g)
  {
    hide Inv, Step, Enabled;
    if k == 0 {
      g := InitialInv(states[0]);
    } else {
      g := RunConserves(states, acts, k - 1);
      g := StepKeeps(states[k - 1], acts[k - 1], g);
    }
  }

  lemma InitialInv(s: State) returns (g: Layout)
    requires Initial(s)
    ensures Inv(s, g)
  {
    g := Layout(seq(|s.heads|, i => []), seq(|s.pcs|, i => []), map[], map[]);
  }

  /** No job is executed twice, and none that was not queued. */
  lemma NeverTwice(states: seq<State>, acts: seq<Action>, k: nat)
    requires Run(states, acts) && k < |states|
    ensures NoDup(states[k].log) && forall j <- states[k].log :: 0 <= j < states[k].queued
  {
    var g := RunConserves(states, acts, k);
    hide HeadsOk, OwnOk, HomesOk, LooseOk;
  }

  /** When no call is in progress and all heads are empty, every job queued was executed. */
  lemma NothingLost(states: seq<State>, acts: seq<Action>, k: nat)
    requires Run(states, acts) && k < |states|
    requires forall h :: 0 <= h < |states[k].heads| ==> states[k].heads[h] == 0
    requires forall t :: 0 <= t < |states[k].pcs| ==> states[k].pcs[t] == Idle
    ensures forall j :: 0 <= j < states[k].queued ==> j in states[k].log
    ensures states[k].jobs == map[]
  {
    var s := states[k];
    var g := RunConserves(states, acts, k);
    forall h | 0 <= h < |s.heads| ensures g.heads[h] == [] {
      EmptyChain(s, g.heads[h]);
    }
    forall t | 0 <= t < |s.pcs| ensures g.own[t] == [] {
      EmptyChain(s, g.own[t]);
    }
    if s.jobs != map[] {
      var x := Pick(g.home.Keys);
    }
  }

  /** An activity dereferences and executes only live tasks that no other place holds. */
  lemma TouchesOnlyItsOwn(states: seq<State>, acts: seq<Action>, k: nat, t: nat, u: nat)
    requires Run(states, acts) && k < |states| && t < |states[k].pcs| && u < |states[k].pcs| && t != u
    ensures var s := states[k]; var mine := LooseOf(s.pcs[t]) + ({ChainOf(s.pcs[t])} - {0});
      && mine <= s.jobs.Keys && mine <= s.next.Keys
      && mine !! LooseOf(s.pcs[u]) + ({ChainOf(s.pcs[u])} - {0})
      && forall h :: 0 <= h < |s.heads| ==> s.heads[h] !in mine
  {
    var s := states[k];
    var g := RunConserves(states, acts, k);
    forall v | v in {t, u} && ChainOf(s.pcs[v]) != 0
      ensures ChainOf(s.pcs[v]) in g.home && g.home[ChainOf(s.pcs[v])] == InChain(v)
    {
      Uncons(s, ChainOf(s.pcs[v]), g.own[v], g.home, InChain(v));
    }
    forall h | 0 <= h < |s.heads| && s.heads[h] != 0 ensures s.heads[h] in g.home && g.home[s.heads[h]] == InHead(h) {
      Uncons(s, s.heads[h], g.heads[h], g.home, InHead(h));
    }
  }
}
