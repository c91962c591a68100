/**
 The quota told by the calls of a run: every request ever made is with the call that made it, in the
 list of waiters, held, or returned.
 */
module QuotaRuns {
  import opened Collections
  import opened Quota

  type Amounts = multiset<Amount>

  /** The request a call in progress is made for, while it is neither listed nor held. */
  function Request(pc: Pc): Option<Amount> {
    match pc
    case Acquire(ctx, a, _) => if ctx.Serve? then None else Some(a)
    case Rollback(ctx, a, _, _) => if ctx.Serve? then None else Some(a)
    case WaitLock(a) => Some(a)
    case Enqueue(a) => Some(a)
    case Dispatch(a) => Some(a)
    case _ => None
  }

  function One(o: Option<Amount>): Amounts {
    if o.Some? then multiset{o.value} else multiset{}
  }

  function Requests(pcs: seq<Pc>): Amounts {
    if pcs == [] then multiset{} else Requests(pcs[1..]) + One(Request(pcs[0]))
  }

  function Waiting(handles: seq<Waiter>): Amounts {
    if handles == [] then multiset{} else Waiting(handles[1..]) + multiset{handles[0].a}
  }

  /** Requests in progress, listed and held. */
  function Open(s: State): Amounts {
    Requests(s.pcs) + Waiting(s.handles) + multiset(s.held)
  }

  /** What the first `k` actions asked for ... */
  function Asked(acts: seq<Action>, k: nat): Amounts
    requires k <= |acts|
  {
    if k == 0 then multiset{} else Asked(acts, k - 1) + AskedBy(acts[k - 1])
  }

  function AskedBy(a: Action): Amounts {
    if a.Guard? then multiset{a.a} else multiset{}
  }

  /** ... and what they returned. */
  function Returned(states: seq<State>, acts: seq<Action>, k: nat): Amounts
    requires k <= |acts| && k <= |states|
  {
    if k == 0 then multiset{} else Returned(states, acts, k - 1) + ReturnedBy(states[k - 1], acts[k - 1])
  }

  function ReturnedBy(s: State, a: Action): Amounts {
    if a.Return? && a.h < |s.held| then multiset{s.held[a.h]} else multiset{}
  }

  // ---- sums ----------------------------------------------------------------------------------------

  lemma Exchange(a: Amounts, b: Amounts, c: Amounts, d: Amounts, x: Amounts)
    requires a + b == c + d
    ensures (a + x) + b == (c + x) + d
  {
    assert (a + x) + b == (a + b) + x;
    assert (c + x) + d == (c + d) + x;
  }

  lemma {:induction false} RequestsUpdate(pcs: seq<Pc>, t: nat, pc: Pc)
    requires t < |pcs|
    ensures Requests(pcs[t := pc]) + One(Request(pcs[t])) == Requests(pcs) + One(Request(pc))
  {
    hide Request, One;
    if t == 0 {
      assert pcs[0 := pc][1..] == pcs[1..];
    } else {
      assert pcs[t := pc][1..] == pcs[1..][t - 1 := pc];
      RequestsUpdate(pcs[1..], t - 1, pc);
      Exchange(Requests(pcs[1..][t - 1 := pc]), One(Request(pcs[t])), Requests(pcs[1..]), One(Request(pc)),
               One(Request(pcs[0])));
    }
  }

  lemma {:induction false} WaitingMore(handles: seq<Waiter>, w: Waiter)
    ensures Waiting(handles + [w]) == Waiting(handles) + multiset{w.a}
  {
    if handles == [] {
      assert handles + [w] == [w] && [w][1..] == [];
      assert Waiting([w]) == Waiting([]) + multiset{w.a};
    } else {
      assert (handles + [w])[1..] == handles[1..] + [w];
      WaitingMore(handles[1..], w);
    }
  }

  lemma HeldLess(held: seq<Amount>, h: nat)
    requires h < |held|
    ensures multiset(held) == multiset(held[..h] + held[h + 1..]) + multiset{held[h]}
  {
    assert held == held[..h] + [held[h]] + held[h + 1..];
  }

  lemma {:induction false} NoRequests(pcs: seq<Pc>)
    requires forall t :: 0 <= t < |pcs| ==> pcs[t] == Idle
    ensures Requests(pcs) == multiset{}
  {
    if pcs != [] { NoRequests(pcs[1..]); }
  }

  // ---- one step ------------------------------------------------------------------------------------

  /** What a step does to the request of its call, the list and the resources held. */
  datatype Move =
    | Stays              // nothing
    | Enters             // a new request
    | Leaves             // a resource is given back
    | Lists              // the call's request is listed
    | Unlists            // the first waiter's request goes to the call
    | Grants             // the call's request is held

  function MoveOf(s: State, act: Action): Move
    requires Enabled(s, act)
  {
    if act.Guard? then Enters
    else if act.Return? then Leaves
    else
      match s.pcs[act.t]
      case Acquire(ctx, a, i) => if i == |a| && !ctx.Serve? then Grants else Stays
      case Enqueue(_) => Lists
      case Served(_) => Unlists
      case Dispatch(_) => Grants
      case _ => Stays
  }

  ghost predicate Moved(s: State, s': State, t: nat, m: Move)
    requires t < |s.pcs| && t < |s'.pcs|
  {
    var r, r' := Request(s.pcs[t]), Request(s'.pcs[t]);
    match m
    case Stays => r' == r && s'.handles == s.handles && s'.held == s.held
    case Enters => r == None && s'.handles == s.handles && s'.held == s.held
    case Leaves => r == r' == None && s'.handles == s.handles
    case Lists =>
      && r.Some? && r' == None && s'.held == s.held
      && s'.handles != [] && s'.handles[|s'.handles| - 1].a == r.value
      && s'.handles == s.handles + [s'.handles[|s'.handles| - 1]]
    case Unlists =>
      && r == None && s.handles != [] && r' == Some(s.handles[0].a)
      && s'.handles == s.handles[1..] && s'.held == s.held
    case Grants => r.Some? && r' == None && s'.handles == s.handles && s'.held == s.held + [r.value]
  }

  ghost predicate StepMoved(s: State, act: Action, s': State)
    requires Enabled(s, act)
  {
    && act.t < |s'.pcs| && s'.pcs == s.pcs[act.t := s'.pcs[act.t]] && Moved(s, s', act.t, MoveOf(s, act))
    && (act.Guard? ==> Request(s'.pcs[act.t]) == Some(act.a))
    && (act.Return? ==> s'.held == s.held[..act.h] + s.held[act.h + 1..])
  }

  lemma StepMoves(s: State, act: Action)
    requires Inv(s) && Enabled(s, act)
    ensures StepMoved(s, act, Step(s, act))
  {
    hide Inv, AcquireStep, GiveBackStep, WaiterStep, StepMoved;
    if act.Guard? || act.Return? { CallMoves(s, act); }
    else if s.pcs[act.t].Acquire? { AcquireMoves(s, act.t); }
    else if s.pcs[act.t].Rollback? || s.pcs[act.t].Release? { GiveBackMoves(s, act.t); }
    else { WaiterMoves(s, act.t); }
  }

  lemma CallMoves(s: State, act: Action)
    requires Enabled(s, act) && (act.Guard? || act.Return?)
    ensures StepMoved(s, act, Step(s, act))
  {
    hide IsAmount;
  }

  lemma AcquireMoves(s: State, t: nat)
    requires Enabled(s, Go(t)) && s.pcs[t].Acquire?
    ensures StepMoved(s, Go(t), AcquireStep(s, t, s.pcs[t].ctx, s.pcs[t].a, s.pcs[t].i))
  {
    hide IsAmount;
  }

  lemma GiveBackMoves(s: State, t: nat)
    requires Enabled(s, Go(t)) && (s.pcs[t].Rollback? || s.pcs[t].Release?)
    ensures StepMoved(s, Go(t), GiveBackStep(s, t))
  {
    hide IsAmount;
  }

  lemma WaiterMoves(s: State, t: nat)
    requires Inv(s) && Enabled(s, Go(t)) && !s.pcs[t].Acquire? && !s.pcs[t].Rollback? && !s.pcs[t].Release?
    ensures StepMoved(s, Go(t), WaiterStep(s, t))
  {
    assert Serving(s.pcs[t]) ==> s.handles != [] && s.handles[0].a == s.pcs[t].a;
    hide Inv, IsAmount;
  }

  /** If three sums change by what they lose and gain, so does the whole. */
  lemma Balanced(q: Amounts, q': Amounts, x: Amounts, y: Amounts, w: Amounts, w': Amounts, u: Amounts, v: Amounts,
                 h: Amounts, h': Amounts, f: Amounts, g: Amounts, asked: Amounts, returned: Amounts)
    requires q' + x == q + y && w' + u == w + v && h' + f == h + g && y + v + g + returned == x + u + f + asked
    ensures q' + w' + h' + returned == q + w + h + asked
  {
    forall e: Amount ensures (q' + w' + h' + returned)[e] == (q + w + h + asked)[e] {
      assert (q' + x)[e] == (q + y)[e] && (w' + u)[e] == (w + v)[e] && (h' + f)[e] == (h + g)[e];
      assert (y + v + g + returned)[e] == (x + u + f + asked)[e];
    }
  }

  lemma MovedKeeps(s: State, s': State, t: nat, m: Move, asked: Amounts, returned: Amounts)
    requires t < |s.pcs| && t < |s'.pcs| && s'.pcs == s.pcs[t := s'.pcs[t]] && Moved(s, s', t, m)
    requires asked == (if m.Enters? then One(Request(s'.pcs[t])) else multiset{})
    requires if m.Leaves? then multiset(s.held) == multiset(s'.held) + returned else returned == multiset{}
    ensures Open(s') + returned == Open(s) + asked
  {
    hide Requests, Waiting;
    var r, r' := Request(s.pcs[t]), Request(s'.pcs[t]);
    RequestsUpdate(s.pcs, t, s'.pcs[t]);
    hide Request;
    var none: Amounts := multiset{};
    if m.Lists? { WaitingMore(s.handles, s'.handles[|s'.handles| - 1]); }
    if m.Unlists? { WaitingFirst(s.handles); }
    var u, v := if m.Unlists? then One(r') else none, if m.Lists? then One(r) else none;
    var f, g := if m.Leaves? then returned else none, if m.Grants? then One(r) else none;
    assert multiset(s'.held) + f == multiset(s.held) + g;
    Balanced(Requests(s.pcs), Requests(s'.pcs), One(r), One(r'), Waiting(s.handles), Waiting(s'.handles), u, v,
             multiset(s.held), multiset(s'.held), f, g, asked, returned);
  }

  lemma WaitingFirst(handles: seq<Waiter>)
    requires handles != []
    ensures Waiting(handles) == Waiting(handles[1..]) + multiset{handles[0].a}
  {
  }

  lemma MoveKinds(s: State, act: Action)
    requires Enabled(s, act)
    ensures (act.Guard? <==> MoveOf(s, act).Enters?) && (act.Return? <==> MoveOf(s, act).Leaves?)
  {
    hide IsAmount;
  }

  lemma StepKeepsRequests(s: State, act: Action)
    requires Inv(s) && Enabled(s, act)
    ensures Open(Step(s, act)) + ReturnedBy(s, act) == Open(s) + AskedBy(act)
  {
    StepMoves(s, act);
    if act.Return? { HeldLess(s.held, act.h); }
    hide Inv, Step, Open, Moved, Request, MoveOf;
    assert act.Guard? <==> MoveOf(s, act).Enters? by { MoveKinds(s, act); }
    assert act.Return? <==> MoveOf(s, act).Leaves? by { MoveKinds(s, act); }
    MovedKeeps(s, Step(s, act), act.t, MoveOf(s, act), AskedBy(act), ReturnedBy(s, act));
  }

  // ---- whole runs ----------------------------------------------------------------------------------

  /** No request is lost or made twice: what was asked for is in progress, listed or held, or was
      returned. */
  lemma {:induction false} RequestsAreKept(states: seq<State>, acts: seq<Action>, k: nat)
    requires Run(states, acts) && k < |states|
    ensures Asked(acts, k) == Open(states[k]) + Returned(states, acts, k)
  {
    hide Step, Enabled, Open, Inv, ReturnedBy, AskedBy;
    if k == 0 {
      InitiallyNone(states[0]);
    } else {
      RequestsAreKept(states, acts, k - 1);
      RunInv(states, acts, k - 1);
      StepKeepsRequests(states[k - 1], acts[k - 1]);
      Carry(Asked(acts, k - 1), Open(states[k - 1]), Returned(states, acts, k - 1), Open(states[k]),
            AskedBy(acts[k - 1]), ReturnedBy(states[k - 1], acts[k - 1]));
    }
  }

  lemma InitiallyNone(s: State)
    requires Initial(s)
    ensures Open(s) == multiset{}
  {
    NoRequests(s.pcs);
  }

  lemma Carry(asked: Amounts, open: Amounts, returned: Amounts, open': Amounts, a: Amounts, r: Amounts)
    requires asked == open + returned && open' + r == open + a
    ensures asked + a == open' + (returned + r)
  {
    assert open + returned + a == (open + a) + returned;
    assert open' + (returned + r) == (open' + r) + returned;
  }

  /** With no call in progress every request is held, returned or waiting in the list. */
  lemma AtRest(states: seq<State>, acts: seq<Action>, k: nat)
    requires Run(states, acts) && k < |states| && forall t :: 0 <= t < |states[k].pcs| ==> states[k].pcs[t] == Idle
    ensures Asked(acts, k) == Waiting(states[k].handles) + multiset(states[k].held) + Returned(states, acts, k)
  {
    RequestsAreKept(states, acts, k);
    NoRequests(states[k].pcs);
  }
}
