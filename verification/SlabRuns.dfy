/**
 The slab allocator told by the calls of a run: every `allocate_safe` yields one object by the time it
 goes on to recycle its block, and an object lives until it is handed to `deallocate_safe`.
 */
module SlabRuns {
  import opened Collections
  import opened Slab

  /** An allocation that has not yet made its object. */
  predicate Seeking(pc: Pc) {
    match pc
    case Scan(_) => true
    case Popped(_, _) => true
    case Repush(_, _) => true
    case Unlinked(_) => true
    case Taken(_) => true
    case New => true
    case Search(_, _) => true
    case Try(_, _, _) => true
    case Claimed(_, _) => true
    case Drop(_, again) => again
    case Release(_, again) => again
    case _ => false
  }

  function One(b: bool): nat {
    if b then 1 else 0
  }

  function Seekers(pcs: seq<Pc>): nat {
    if pcs == [] then 0 else One(Seeking(pcs[0])) + Seekers(pcs[1..])
  }

  lemma {:induction false} SeekersUpdate(pcs: seq<Pc>, t: nat, pc: Pc)
    requires t < |pcs|
    ensures Seekers(pcs[t := pc]) == Seekers(pcs) - One(Seeking(pcs[t])) + One(Seeking(pc))
  {
    hide Seeking;
    if t == 0 {
      assert pcs[0 := pc][1..] == pcs[1..];
    } else {
      assert pcs[t := pc][1..] == pcs[1..][t - 1 := pc];
      SeekersUpdate(pcs[1..], t - 1, pc);
    }
  }

  lemma {:induction false} NoSeekers(pcs: seq<Pc>)
    requires forall t :: 0 <= t < |pcs| ==> pcs[t] == Idle
    ensures Seekers(pcs) == 0
  {
    if pcs != [] { NoSeekers(pcs[1..]); }
  }

  /** Calls of `allocate_safe` among the first `k` actions, and of `deallocate_safe`. */
  function Allocations(acts: seq<Action>, k: nat): nat
    requires k <= |acts|
  {
    if k == 0 then 0 else Allocations(acts, k - 1) + One(acts[k - 1].Allocate?)
  }

  function Frees(acts: seq<Action>, k: nat): nat
    requires k <= |acts|
  {
    if k == 0 then 0 else Frees(acts, k - 1) + One(acts[k - 1].Free?)
  }

  /** Making an object is the step that ends the search; objects leave only through `Free`. */
  lemma StepMakes(s: State, cfg: Config, a: Action)
    requires Enabled(s, a)
    ensures var s' := Step(s, cfg, a);
      && s'.pcs == s.pcs[a.t := s'.pcs[a.t]]
      && s'.nextId == s.nextId + One(a.Go? && s.pcs[a.t].Claimed?)
      && s'.objs == (if a.Free? then s.objs - {a.id}
                     else if a.Go? && s.pcs[a.t].Claimed? then s.objs[s.nextId := Slot(s.pcs[a.t].p, s.pcs[a.t].b)]
                     else s.objs)
      && One(Seeking(s'.pcs[a.t])) == One(Seeking(s.pcs[a.t])) + One(a.Allocate?) - One(a.Go? && s.pcs[a.t].Claimed?)
  {
    hide Step, Seeking;
    StepPcs(s, cfg, a);
    StepObjects(s, cfg, a);
    StepSeeks(s, cfg, a);
  }

  lemma StepPcs(s: State, cfg: Config, a: Action)
    requires Enabled(s, a)
    ensures Step(s, cfg, a).pcs == s.pcs[a.t := Step(s, cfg, a).pcs[a.t]]
  {
    hide FirstClear;
    if a.Go? {
      match s.pcs[a.t]
      case Idle =>
      case Scan(_) =>
      case Popped(_, _) =>
      case Repush(_, _) =>
      case Unlinked(_) =>
      case Taken(_) =>
      case New =>
      case Search(_, _) =>
      case Try(_, _, _) =>
      case Claimed(_, _) =>
      case Clearing(_, _) =>
      case LoadManaged(_) =>
      case LoadCount(_) =>
      case SetManaged(_) =>
      case Listing(_, _) =>
      case Pushing(_) =>
      case Drop(_, _) =>
      case Release(_, _) =>
    }
  }

  lemma StepObjects(s: State, cfg: Config, a: Action)
    requires Enabled(s, a)
    ensures var s' := Step(s, cfg, a);
      && s'.nextId == s.nextId + One(a.Go? && s.pcs[a.t].Claimed?)
      && s'.objs == (if a.Free? then s.objs - {a.id}
                     else if a.Go? && s.pcs[a.t].Claimed? then s.objs[s.nextId := Slot(s.pcs[a.t].p, s.pcs[a.t].b)]
                     else s.objs)
  {
    hide FirstClear;
    if a.Go? {
      match s.pcs[a.t]
      case Idle =>
      case Scan(_) =>
      case Popped(_, _) =>
      case Repush(_, _) =>
      case Unlinked(_) =>
      case Taken(_) =>
      case New =>
      case Search(_, _) =>
      case Try(_, _, _) =>
      case Claimed(_, _) =>
      case Clearing(_, _) =>
      case LoadManaged(_) =>
      case LoadCount(_) =>
      case SetManaged(_) =>
      case Listing(_, _) =>
      case Pushing(_) =>
      case Drop(_, _) =>
      case Release(_, _) =>
    }
  }

  lemma StepSeeks(s: State, cfg: Config, a: Action)
    requires Enabled(s, a)
    ensures One(Seeking(Step(s, cfg, a).pcs[a.t]))
         == One(Seeking(s.pcs[a.t])) + One(a.Allocate?) - One(a.Go? && s.pcs[a.t].Claimed?)
  {
    hide FirstClear;
    if a.Go? {
      match s.pcs[a.t]
      case Idle =>
      case Scan(_) =>
      case Popped(_, _) =>
      case Repush(_, _) =>
      case Unlinked(_) =>
      case Taken(_) =>
      case New =>
      case Search(_, _) =>
      case Try(_, _, _) =>
      case Claimed(_, _) =>
      case Clearing(_, _) =>
      case LoadManaged(_) =>
      case LoadCount(_) =>
      case SetManaged(_) =>
      case Listing(_, _) =>
      case Pushing(_) =>
      case Drop(_, _) =>
      case Release(_, _) =>
    }
  }

  ghost predicate Counted(states: seq<State>, acts: seq<Action>, k: nat)
    requires k < |states| && k <= |acts|
  {
    var s := states[k];
    && Allocations(acts, k) == s.nextId - states[0].nextId + Seekers(s.pcs)
    && |s.objs| + Frees(acts, k) == s.nextId - states[0].nextId
    && forall id <- s.objs :: states[0].nextId <= id < s.nextId
  }

  lemma SizeAfter(m: map<Id, Slot>, id: Id, x: Slot)
    ensures id !in m ==> |m[id := x]| == |m| + 1
    ensures id in m ==> |m - {id}| == |m| - 1
  {
    assert m[id := x].Keys == m.Keys + {id} && |m[id := x]| == |m[id := x].Keys| && |m| == |m.Keys|;
    assert (m - {id}).Keys == m.Keys - {id} && |m - {id}| == |(m - {id}).Keys|;
  }

  /** Every allocation so far has made its object or is still looking for a slot, and the objects alive
      are those made and not freed. */
  lemma {:induction false} ObjectsAreCounted(states: seq<State>, cfg: Config, acts: seq<Action>, k: nat)
    requires Run(states, cfg, acts) && k < |states|
    ensures Counted(states, acts, k)
  {
    hide Step, Enabled, Seekers, Seeking;
    if k == 0 {
      NoSeekers(states[0].pcs);
    } else {
      var s, a := states[k - 1], acts[k - 1];
      ObjectsAreCounted(states, cfg, acts, k - 1);
      StepMakes(s, cfg, a);
      ActionOk(s, a);
      SeekersUpdate(s.pcs, a.t, states[k].pcs[a.t]);
      if a.Free? { SizeAfter(s.objs, a.id, s.objs[a.id]); }
      if a.Go? && s.pcs[a.t].Claimed? { SizeAfter(s.objs, s.nextId, Slot(s.pcs[a.t].p, s.pcs[a.t].b)); }
    }
  }

  lemma ActionOk(s: State, a: Action)
    requires Enabled(s, a)
    ensures a.t < |s.pcs| && (a.Free? ==> a.id in s.objs)
  {
  }

  /** With no call in progress there are as many objects as allocations without a deallocation. */
  lemma EveryCallYields(states: seq<State>, cfg: Config, acts: seq<Action>, k: nat)
    requires Run(states, cfg, acts) && k < |states| && forall t :: 0 <= t < |states[k].pcs| ==> states[k].pcs[t] == Idle
    ensures |states| == |acts| + 1 && |states[k].objs| == Allocations(acts, k) - Frees(acts, k)
  {
    ObjectsAreCounted(states, cfg, acts, k);
    NoSeekers(states[k].pcs);
  }

  /** An object keeps its slot from its making until it is handed to `deallocate_safe`. */
  lemma {:induction false} ObjectsStay(states: seq<State>, cfg: Config, acts: seq<Action>, i: nat, k: nat, id: Id)
    requires Run(states, cfg, acts) && i <= k < |states| && id in states[i].objs
    requires forall m :: i <= m < k ==> !(acts[m].Free? && acts[m].id == id)
    ensures id in states[k].objs && states[k].objs[id] == states[i].objs[id]
  {
    hide Step, Enabled, Allocations, Frees, Seekers, Seeking;
    if i < k {
      ObjectsStay(states, cfg, acts, i, k - 1, id);
      ObjectsAreCounted(states, cfg, acts, k - 1);
      StepObjects(states[k - 1], cfg, acts[k - 1]);
    }
  }

  // ---- the search ----------------------------------------------------------------------------------------

  /** The search of a word stops at its lowest clear bit, and goes on exactly if it has none. */
  lemma SearchFinds(s: State, cfg: Config, t: nat, addr: Addr)
    requires Enabled(s, Go(t, addr)) && s.pcs[t].Search? && s.pcs[t].n < cfg.words
    ensures var p, n := s.pcs[t].p, s.pcs[t].n; var lo := n * cfg.bits; var pc' := Step(s, cfg, Go(t, addr)).pcs[t];
      if forall x :: lo <= x < lo + cfg.bits ==> x in s.blocks[p].bits then pc' == Search(p, n + 1)
      else
        && pc'.Try? && pc'.p == p && pc'.n == n && lo <= pc'.b < lo + cfg.bits
        && pc'.b !in s.blocks[p].bits && forall x :: lo <= x < pc'.b ==> x in s.blocks[p].bits
  {
    hide FirstClear;
  }

  /** An allocation that gets a new block takes its first slot with its next three steps. */
  lemma NewBlockServes(s: State, cfg: Config, t: nat, addr: Addr)
    requires Enabled(s, Go(t, addr)) && s.pcs[t].New? && cfg.words > 0 && cfg.bits > 0 && cfg.offset < cfg.itemCount
    ensures var s1 := Step(s, cfg, Go(t, addr));
      && Enabled(s1, Go(t, addr)) && var s2 := Step(s1, cfg, Go(t, addr));
      && Enabled(s2, Go(t, addr)) && Step(s2, cfg, Go(t, addr)).pcs[t] == Claimed(addr, 0)
  {
    hide FirstClear;
    var s1 := Step(s, cfg, Go(t, addr));
    assert s1.pcs[t] == Search(addr, 0) && s1.blocks[addr] == Block(1, false, {});
    SearchFinds(s1, cfg, t, addr);
    assert 0 !in s1.blocks[addr].bits && 0 * cfg.bits == 0;
    var s2 := Step(s1, cfg, Go(t, addr));
    assert s2.blocks == s1.blocks;
  }
}
