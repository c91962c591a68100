/**
 The recycle count of the slab allocator: what it counts, and what its limit means.  The comment on
 the template promises that a limit of 0 means no limit; the comparison makes it mean the opposite.
 */
module SlabRecycle {
  import opened Collections
  import opened Slab

  /** The blocks an activity carries that recycle_count still counts. */
  function Weight(pc: Pc): nat {
    |RestOf(pc)| + if pc.Popped? || pc.Repush? || pc.Unlinked? || pc.Pushing? then 1 else 0
  }

  function Weights(pcs: seq<Pc>): nat {
    if pcs == [] then 0 else Weight(pcs[0]) + Weights(pcs[1..])
  }

  lemma {:induction false} WeightsUpdate(pcs: seq<Pc>, t: nat, pc: Pc)
    requires t < |pcs|
    ensures Weights(pcs[t := pc]) == Weights(pcs) - Weight(pcs[t]) + Weight(pc)
  {
    hide Weight;
    if t == 0 {
      assert pcs[0 := pc][1..] == pcs[1..];
    } else {
      assert pcs[t := pc][1..] == pcs[1..][t - 1 := pc];
      WeightsUpdate(pcs[1..], t - 1, pc);
    }
  }

  lemma {:induction false} IdleWeights(pcs: seq<Pc>)
    requires forall t :: 0 <= t < |pcs| ==> pcs[t] == Idle
    ensures Weights(pcs) == 0
  {
    if pcs != [] { IdleWeights(pcs[1..]); }
  }

  /** recycle_count is the length of the recycled list plus the blocks on their way to or from it. */
  ghost predicate CountOk(s: State) {
    s.recycleCount == |s.recycled| + Weights(s.pcs)
  }

  predicate TouchesList(pc: Pc) {
    pc.Scan? || pc.Popped? || pc.Repush? || pc.Unlinked? || pc.Listing? || pc.Pushing?
  }

  lemma StepKeepsCount(s: State, cfg: Config, a: Action)
    requires CountOk(s) && Enabled(s, a)
    ensures CountOk(Step(s, cfg, a))
  {
    if a.Go? && TouchesList(s.pcs[a.t]) { ListStepKeepsCount(s, cfg, a.t, a.addr); }
    else { OtherStepKeepsCount(s, cfg, a); }
  }

  lemma ListStepKeepsCount(s: State, cfg: Config, t: nat, addr: Addr)
    requires CountOk(s) && Enabled(s, Go(t, addr)) && TouchesList(s.pcs[t])
    ensures CountOk(Step(s, cfg, Go(t, addr)))
  {
    hide Weights;
    WeightsUpdate(s.pcs, t, Step(s, cfg, Go(t, addr)).pcs[t]);
  }

  lemma OtherStepKeepsCount(s: State, cfg: Config, a: Action)
    requires CountOk(s) && Enabled(s, a) && (a.Go? ==> !TouchesList(s.pcs[a.t]))
    ensures CountOk(Step(s, cfg, a))
  {
    hide Weights, FirstClear;
    WeightsUpdate(s.pcs, a.t, Step(s, cfg, a).pcs[a.t]);
  }

  /** In every run recycle_count is exact, and so never negative. */
  lemma {:induction false} RecycleCountIsExact(states: seq<State>, cfg: Config, acts: seq<Action>, k: nat)
    requires Run(states, cfg, acts) && k < |states|
    ensures states[k].recycleCount == |states[k].recycled| + Weights(states[k].pcs) >= 0
  {
    hide Step, Enabled, Weights;
    if k == 0 {
      IdleWeights(states[0].pcs);
    } else {
      RecycleCountIsExact(states, cfg, acts, k - 1);
      StepKeepsCount(states[k - 1], cfg, acts[k - 1]);
    }
  }

  // ---- limit 0 -----------------------------------------------------------------------------

  /** Nothing is in the cache or on its way into it. */
  ghost predicate Unlisted(s: State) {
    && s.recycled == [] && (forall n :: 0 <= n < |s.slots| ==> s.slots[n] == None)
    && forall t :: 0 <= t < |s.pcs| ==> !CachePc(s.pcs[t])
  }

  predicate CachePc(pc: Pc) {
    pc.Popped? || pc.Repush? || pc.Unlinked? || pc.Taken? || pc.SetManaged? || pc.Listing? || pc.Pushing?
  }

  lemma StepKeepsUnlisted(s: State, cfg: Config, a: Action)
    requires Unlisted(s) && s.recycleCount >= 0 && cfg.recycleLimit == 0 && Enabled(s, a)
    ensures Unlisted(Step(s, cfg, a))
  {
    hide FirstClear;
    assert !CachePc(s.pcs[a.t]);
    assert !CachePc(Step(s, cfg, a).pcs[a.t]);
  }

  lemma {:induction false} LimitZeroUnlisted(states: seq<State>, cfg: Config, acts: seq<Action>, k: nat)
    requires Run(states, cfg, acts) && k < |states| && cfg.recycleLimit == 0
    ensures Unlisted(states[k])
  {
    hide Step, Enabled, Weights;
    if k > 0 {
      LimitZeroUnlisted(states, cfg, acts, k - 1);
      RecycleCountIsExact(states, cfg, acts, k - 1);
      StepKeepsUnlisted(states[k - 1], cfg, acts[k - 1]);
    }
  }

  ghost predicate EverLists(states: seq<State>) {
    exists k, p :: 0 <= k < |states| && Listed(states[k], p)
  }

  // ---- limits above 0 ----------------------------------------------------------------------

  /** A block of one slot, one cache slot, one thread. */
  function Small(limit: nat): Config {
    Config(1, 1, 0, 1, limit)
  }

  function One(blocks: map<Addr, Block>, slot: Option<Addr>, objs: map<Id, Slot>, id: Id, pc: Pc): State {
    State(blocks, [slot], [], 0, objs, id, [pc])
  }

  function Last(states: seq<State>): State
    requires states != []
  {
    states[|states| - 1]
  }

  lemma Then(states: seq<State>, cfg: Config, acts: seq<Action>, a: Action)
    returns (states': seq<State>, acts': seq<Action>)
    requires Run(states, cfg, acts) && Enabled(Last(states), a)
    ensures Run(states', cfg, acts') && states' != [] && Last(states') == Step(Last(states), cfg, a)
  {
    hide Enabled, Step, Initial;
    acts' := acts + [a];
    states' := states + [Step(Last(states), cfg, a)];
  }

  lemma FirstObject(limit: nat) returns (states: seq<State>, acts: seq<Action>)
    ensures Run(states, Small(limit), acts) && states != []
    ensures Last(states) == One(map[7 := Block(1, false, {0})], None, map[], 0, Claimed(7, 0))
  {
    var cfg := Small(limit);
    states, acts := [One(map[], None, map[], 0, Idle)], [];
    states, acts := Then(states, cfg, acts, Allocate(0));
    states, acts := Then(states, cfg, acts, Go(0, 7));
    states, acts := Then(states, cfg, acts, Go(0, 7));
    states, acts := Then(states, cfg, acts, Go(0, 7));
    assert Last(states) == One(map[7 := Block(1, false, {})], None, map[], 0, Search(7, 0));
    states, acts := Then(states, cfg, acts, Go(0, 7));
    states, acts := Then(states, cfg, acts, Go(0, 7));
    var none: set<nat> := {};
    assert none + {0} == {0};
    assert Last(states).blocks[7] == Block(1, false, none + {0});
    assert Last(states).blocks == map[7 := Block(1, false, {0})];
  }

  /** For every limit above 0 some run lists a block: the first object's block goes into the cache. */
  lemma PositiveLimitLists(limit: nat) returns (states: seq<State>, acts: seq<Action>)
    requires limit > 0
    ensures Run(states, Small(limit), acts) && states != [] && Listed(Last(states), 7)
  {
    var cfg := Small(limit);
    states, acts := FirstObject(limit);
    hide Run;
    states, acts := Then(states, cfg, acts, Go(0, 7));
    states, acts := Then(states, cfg, acts, Go(0, 7));
    states, acts := Then(states, cfg, acts, Go(0, 7));
    states, acts := Then(states, cfg, acts, Go(0, 7));
    states, acts := Then(states, cfg, acts, Go(0, 7));
    assert Last(states).slots[0] == Some(7);
  }

  /** Blocks are recycled at all if and only if the limit is above 0. */
  lemma RecyclesIffPositive(limit: nat)
    ensures (exists states, cfg, acts :: Run(states, cfg, acts) && cfg.recycleLimit == limit && EverLists(states))
       <==> limit > 0
  {
    if limit > 0 {
      var states, acts := PositiveLimitLists(limit);
      assert Listed(states[|states| - 1], 7);
      assert EverLists(states);
    }
    forall states, cfg, acts | Run(states, cfg, acts) && cfg.recycleLimit == limit && limit == 0
      ensures !EverLists(states)
    {
      forall k, p | 0 <= k < |states| ensures !Listed(states[k], p) {
        LimitZeroUnlisted(states, cfg, acts, k);
        NothingListed(states[k], p);
      }
    }
  }

  lemma NothingListed(s: State, p: Addr)
    requires Unlisted(s)
    ensures !Listed(s, p)
  {
    forall t | 0 <= t < |s.pcs| ensures RestOf(s.pcs[t]) == [] {
      assert !CachePc(s.pcs[t]);
    }
  }
}
