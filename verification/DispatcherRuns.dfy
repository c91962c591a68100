/**
 The dispatcher's guarantees told by the actions of a run alone: which calls were made, which bodies
 began and which routines closed, in what order.  The histories that states carry are shown to be
 exactly these.
 */
module DispatcherRuns {
  import opened Collections
  import opened Dispatcher
  import opened DispatcherGraph
  import opened DispatcherProofs
  import P = DispatcherProgress

  /** Some action `i` with `lo <= i < hi` is `a`. */
  ghost predicate Happened(acts: seq<Action>, lo: int, hi: int, a: Action) {
    exists i :: lo <= i < hi && 0 <= i < |acts| && acts[i] == a
  }

  /** Action `i` allocates routine `r`. */
  ghost predicate Allocates(states: seq<State>, acts: seq<Action>, i: int, r: Id) {
    0 <= i < |acts| && i < |states| && acts[i] == Allocate && states[i].nextId == r
  }

  ghost predicate Allocated(states: seq<State>, acts: seq<Action>, k: int, r: Id) {
    exists i :: 0 <= i < k && Allocates(states, acts, i, r)
  }

  lemma HappenedNext(acts: seq<Action>, k: nat, a: Action)
    requires k < |acts|
    ensures Happened(acts, 0, k + 1, a) <==> Happened(acts, 0, k, a) || acts[k] == a
  {
  }

  lemma AllocatedNext(states: seq<State>, acts: seq<Action>, k: nat, r: Id)
    requires k < |acts| && k < |states|
    ensures Allocated(states, acts, k + 1, r) <==> Allocated(states, acts, k, r) || Allocates(states, acts, k, r)
  {
  }

  /** What every step of a run starts from. */
  lemma At(states: seq<State>, acts: seq<Action>, k: nat)
    requires DisciplinedRun(states, acts) && k < |acts|
    ensures Run(states, acts) && |states| == |acts| + 1 && Inv(states[k])
    ensures Enabled(states[k], acts[k]) && Next(states[k], acts[k], states[k + 1])
  {
    RunInv(states, acts, k);
    hide Inv, Step, Enabled;
  }

  // ---- one step --------------------------------------------------------------------------------

  lemma {:induction false} OrderKeepsHistory(s: State, from: Id, to: Id)
    requires JunctionsAhead(s) && from in s.live && to in s.live
    ensures var s' := OrderInternal(s, from, to);
      && s'.users == s.users && s'.ordered == s.ordered && s'.log == s.log && s'.handles == s.handles
      && s'.nextId >= s.nextId && (forall u <- s.live :: u in s'.live && s'.live[u].phase == s.live[u].phase)
    decreases s.nextId - from
  {
    var r := s.live[from];
    if !HasFreeSlot(r) {
      assert r.next[0] in r.next;
      var first := r.next[0].value;
      assert FirstLink(s.live, from, first) && Edge(s.live, from, first);
      if !s.live[first].hasBody { OrderKeepsHistory(s, first, to); }
    }
  }

  /** What one step adds to the histories. */
  lemma StepAdds(s: State, a: Action, s': State)
    requires Next(s, a, s')
    ensures s'.ordered == if a.Order? then s.ordered + {(a.from, a.to)} else s.ordered
    ensures s'.users == if a.Allocate? then s.users + {s.nextId} else s.users
    ensures s'.log == if a.Begin? then LogIf(s, Start(a.r)) else if a.Close? then LogIf(s, Complete(a.r)) else s.log
    ensures s'.nextId >= s.nextId && (a.Allocate? ==> s'.nextId == s.nextId + 1)
    ensures s'.handles == if a.Allocate? then s.handles + multiset{s.nextId}
                          else if a.Defer? then s.handles + multiset{a.r}
                          else if a.Dispatch? then s.handles - multiset{a.r} else s.handles
  {
    if a.Order? { OrderKeepsHistory(s, a.from, a.to); }
  }

  /** A routine that has not completed completes only by `Close`. */
  lemma StepCompletes(s: State, a: Action, s': State, r: Id)
    requires Next(s, a, s') && !Completed(s, r)
    ensures Completed(s', r) ==> a == Close(r)
  {
    if a.Order? { OrderKeepsHistory(s, a.from, a.to); }
  }

  // ---- the histories are the actions -----------------------------------------------------------

  /** `ordered` holds exactly the requested pairs. */
  lemma {:induction false} OrderedIsActions(states: seq<State>, acts: seq<Action>, k: nat, a: Id, b: Id)
    requires Run(states, acts) && k < |states|
    ensures (a, b) in states[k].ordered <==> Happened(acts, 0, k, Order(a, b))
  {
    hide Next, Happened;
    if k == 0 {
      NothingYet(acts, Order(a, b));
    } else {
      OrderedIsActions(states, acts, k - 1, a, b);
      StepAdds(states[k - 1], acts[k - 1], states[k]);
      HappenedNext(acts, k - 1, Order(a, b));
    }
  }

  lemma NothingYet(acts: seq<Action>, a: Action)
    ensures !Happened(acts, 0, 0, a)
  {
  }

  /** Client routines are exactly those that `allocate` gave out. */
  lemma {:induction false} UsersAreAllocated(states: seq<State>, acts: seq<Action>, k: nat, r: Id)
    requires Run(states, acts) && k < |states|
    ensures r in states[k].users <==> Allocated(states, acts, k, r)
  {
    hide Next, Allocated;
    if k == 0 {
      NoneAllocated(states, acts, r);
    } else {
      UsersAreAllocated(states, acts, k - 1, r);
      StepAdds(states[k - 1], acts[k - 1], states[k]);
      AllocatedNext(states, acts, k - 1, r);
    }
  }

  lemma NoneAllocated(states: seq<State>, acts: seq<Action>, r: Id)
    ensures !Allocated(states, acts, 0, r)
  {
  }

  /** Ids are used in order: an id that an action has met is below nextId. */
  lemma {:induction false} ClosedBelowNext(states: seq<State>, acts: seq<Action>, k: nat, r: Id)
    requires DisciplinedRun(states, acts) && k < |states| && Happened(acts, 0, k, Close(r))
    ensures r < states[k].nextId
  {
    if k == 0 {
      NothingYet(acts, Close(r));
    } else {
      HappenedNext(acts, k - 1, Close(r));
      RunInv(states, acts, k - 1);
      StepAdds(states[k - 1], acts[k - 1], states[k]);
      if acts[k - 1] != Close(r) { ClosedBelowNext(states, acts, k - 1, r); }
    }
  }

  lemma NothingLogged(states: seq<State>, acts: seq<Action>)
    requires Run(states, acts)
    ensures states[0].log == [] && states[0].users == {}
  {
  }

  lemma StartStep(s: State, a: Action, s': State, r: Id)
    requires Inv(s) && Enabled(s, a) && Next(s, a, s')
    ensures Start(r) in s'.log <==> Start(r) in s.log || a == Begin(r)
  {
    hide Inv, Next, Enabled;
    if a.Begin? { BeginsUser(s, a.r); }
    StepAdds(s, a, s');
  }

  /** A body has started, by the log, exactly if `Begin` happened. */
  lemma {:induction false} StartsAreActions(states: seq<State>, acts: seq<Action>, k: nat, r: Id)
    requires DisciplinedRun(states, acts) && k < |states|
    ensures Start(r) in states[k].log <==> Happened(acts, 0, k, Begin(r))
  {
    hide Inv, Enabled, Next, Happened;
    if k == 0 {
      NothingYet(acts, Begin(r));
      NothingLogged(states, acts);
    } else {
      StartsAreActions(states, acts, k - 1, r);
      At(states, acts, k - 1);
      hide DisciplinedRun, Run;
      StartStep(states[k - 1], acts[k - 1], states[k], r);
      HappenedNext(acts, k - 1, Begin(r));
    }
  }

  lemma BeginsUser(s: State, r: Id)
    requires Inv(s) && Enabled(s, Begin(r))
    ensures r in s.users && s.live[r].hasBody && s.handles[r] == 0 && InCount(s.live, r) == 0
  {
    assert RoutineInv(s, r);
  }

  lemma CompleteStep(s: State, a: Action, s': State, r: Id)
    requires Inv(s) && Enabled(s, a) && Next(s, a, s')
    ensures Complete(r) in s'.log <==> Complete(r) in s.log || (a == Close(r) && r in s.users)
    ensures r in s'.users <==> r in s.users || (a == Allocate && r == s.nextId)
    ensures Complete(r) in s.log ==> r in s.users
  {
    StepAdds(s, a, s');
    hide Next, Enabled, ShapeInv, RoutinesInv, Acyclic, OrderInv, Logged;
  }

  /** A client routine has completed, by the log, exactly if `Close` happened. */
  lemma {:induction false} CompletionsAreActions(states: seq<State>, acts: seq<Action>, k: nat, r: Id)
    requires DisciplinedRun(states, acts) && k < |states|
    ensures Complete(r) in states[k].log <==> Happened(acts, 0, k, Close(r)) && r in states[k].users
  {
    hide Inv, Enabled, Next, Happened;
    if k == 0 {
      NothingYet(acts, Close(r));
      NothingLogged(states, acts);
    } else {
      CompletionsAreActions(states, acts, k - 1, r);
      At(states, acts, k - 1);
      hide Run;
      CompleteStep(states[k - 1], acts[k - 1], states[k], r);
      HappenedNext(acts, k - 1, Close(r));
      if Happened(acts, 0, k - 1, Close(r)) { ClosedBelowNext(states, acts, k - 1, r); }
    }
  }

  // ---- safety, by actions alone ------------------------------------------------------------------

  /** Between a state where `r` has not completed and one where it has, it is closed. */
  lemma {:induction false} ClosedBetween(states: seq<State>, acts: seq<Action>, i: nat, j: nat, r: Id)
    requires Run(states, acts) && i <= j < |states| && !Completed(states[i], r) && Completed(states[j], r)
    ensures Happened(acts, i, j, Close(r))
  {
    hide Next, Completed;
    if Completed(states[j - 1], r) {
      ClosedBetween(states, acts, i, j - 1, r);
    } else {
      StepCompletes(states[j - 1], acts[j - 1], states[j], r);
    }
  }

  lemma OrderedIsLive(s: State, a: Id, b: Id)
    requires Inv(s) && Enabled(s, Order(a, b))
    ensures !Completed(s, a)
  {
    assert RoutineInv(s, a);
  }

  /** When a body can begin, everything ordered before it has completed. */
  lemma PredecessorsDone(s: State, a: Id, b: Id)
    requires Inv(s) && (a, b) in s.ordered && Enabled(s, Begin(b))
    ensures Completed(s, a)
  {
    BeginsUser(s, b);
    assert PairInv(s, a, b);
    NoRouteInto(s.live, a, b);
  }

  /** The dispatcher's promise: if `order(a, b)` was called before the body of `b` began, routine `a`
      was closed in between. */
  lemma OrderedRunInOrder(states: seq<State>, acts: seq<Action>, i: nat, j: nat, a: Id, b: Id)
    requires DisciplinedRun(states, acts) && i < j < |acts| && acts[i] == Order(a, b) && acts[j] == Begin(b)
    ensures Happened(acts, i + 1, j, Close(a))
  {
    hide Inv, DisciplinedRun, Run, Next, Enabled, Completed;
    At(states, acts, i);
    At(states, acts, j);
    OrderedIsActions(states, acts, j, a, b);
    OrderedIsLive(states[i], a, b);
    PredecessorsDone(states[j], a, b);
    ClosedBetween(states, acts, i, j, a);
  }

  /** A routine begins at most once and closes at most once; a client routine closes only after its
      body began. */
  lemma RunsOnce(states: seq<State>, acts: seq<Action>, i: nat, j: nat, r: Id)
    requires DisciplinedRun(states, acts) && i < j < |acts|
    ensures !(acts[i] == Begin(r) && acts[j] == Begin(r))
    ensures r in states[j].users ==> !(acts[i] == Close(r) && acts[j] == Close(r))
  {
    RunInv(states, acts, j);
    StartsAreActions(states, acts, j, r);
    CompletionsAreActions(states, acts, j, r);
    assert Next(states[j], acts[j], states[j + 1]);
    if r in states[j].users { assert Logged(states[j], r); }
    if acts[j] == Begin(r) { BeginsUser(states[j], r); }
  }

  lemma ClosesAfterBegin(states: seq<State>, acts: seq<Action>, j: nat, r: Id)
    requires DisciplinedRun(states, acts) && j < |acts| && acts[j] == Close(r) && Allocated(states, acts, j, r)
    ensures Happened(acts, 0, j, Begin(r))
  {
    RunInv(states, acts, j);
    UsersAreAllocated(states, acts, j, r);
    StartsAreActions(states, acts, j, r);
    assert Next(states[j], acts[j], states[j + 1]);
    assert RoutineInv(states[j], r) && Logged(states[j], r);
  }

  // ---- handles -------------------------------------------------------------------------------------

  /** How often `a` happened among the first `k` actions. */
  ghost function Times(acts: seq<Action>, k: nat, a: Action): nat
    requires k <= |acts|
  {
    if k == 0 then 0 else Times(acts, k - 1, a) + if acts[k - 1] == a then 1 else 0
  }

  /** Handles are held on client routines only, and none yet on the next id. */
  lemma HandleStep(s: State, a: Action, s': State, r: Id)
    requires Inv(s) && Enabled(s, a) && Next(s, a, s')
    ensures r in s'.users <==> r in s.users || (a == Allocate && r == s.nextId)
    ensures a == Dispatch(r) || a == Defer(r) ==> r in s.users
    ensures r in s.users ==>
      s'.handles[r] == s.handles[r] + (if a == Defer(r) then 1 else 0) - (if a == Dispatch(r) then 1 else 0)
    ensures r !in s.users && r in s'.users ==> s'.handles[r] == 1
  {
    StepAdds(s, a, s');
    if a == Dispatch(r) || a == Defer(r) { assert RoutineInv(s, r); }
    hide RoutinesInv, Acyclic, OrderInv, LogInv;
  }

  /** The handles held on a routine: one from `allocate`, one more for each `defer`, one less for each
      `dispatch`. */
  lemma {:induction false} HandlesAreActions(states: seq<State>, acts: seq<Action>, k: nat, r: Id)
    requires DisciplinedRun(states, acts) && k < |states|
    ensures r in states[k].users ==>
      states[k].handles[r] + Times(acts, k, Dispatch(r)) == 1 + Times(acts, k, Defer(r))
    ensures r !in states[k].users ==> Times(acts, k, Dispatch(r)) == Times(acts, k, Defer(r)) == 0
  {
    hide Inv, Enabled, Next;
    if k == 0 {
      NothingLogged(states, acts);
    } else {
      HandlesAreActions(states, acts, k - 1, r);
      At(states, acts, k - 1);
      hide DisciplinedRun, Run;
      HandleStep(states[k - 1], acts[k - 1], states[k], r);
    }
  }

  /** A body begins, and a client routine closes, only when every handle given out by `allocate` and
      `defer` has been dispatched. */
  lemma BeginsAndClosesReleased(states: seq<State>, acts: seq<Action>, j: nat, r: Id)
    requires DisciplinedRun(states, acts) && j < |acts| && Allocated(states, acts, j, r)
    requires acts[j] == Begin(r) || acts[j] == Close(r)
    ensures Times(acts, j, Dispatch(r)) == 1 + Times(acts, j, Defer(r))
  {
    RunInv(states, acts, j);
    UsersAreAllocated(states, acts, j, r);
    HandlesAreActions(states, acts, j, r);
    assert Next(states[j], acts[j], states[j + 1]);
    assert RoutineInv(states[j], r);
  }

  /** When pending_count is zero, every routine that `allocate` gave out has begun and closed. */
  lemma DrainedRanAll(states: seq<State>, acts: seq<Action>, k: nat, r: Id)
    requires DisciplinedRun(states, acts) && k < |states| && states[k].pending == 0 && Allocated(states, acts, k, r)
    ensures Happened(acts, 0, k, Begin(r)) && Happened(acts, 0, k, Close(r))
  {
    UsersAreAllocated(states, acts, k, r);
    StartsAreActions(states, acts, k, r);
    CompletionsAreActions(states, acts, k, r);
    hide Happened, Allocated;
    assert Reachable(states[k]);
    P.DrainedRanEverything(states[k]);
  }
}
