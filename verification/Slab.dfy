/**
 The slab allocator (`iris_allocator_t`): blocks of equal slots, a reference count and a bitmap per
 block, and a cache of blocks with free slots.  Every step is one atomic access made by a call of
 `allocate_safe` or `deallocate_safe`; a run is any interleaving of any number of calls.
 */
module Slab {
  import opened Collections

  type Addr = int   // address of a block
  type Id = int     // one object, from its allocation to its deallocation

  datatype Config = Config(words: nat, bits: nat, offset: nat, itemCount: nat, recycleLimit: nat)

  datatype Slot = Slot(p: Addr, b: nat)

  /** A control block. */
  datatype Block = Block(ref: int, managed: bool, bits: set<nat>)

  datatype Pc =
    | Idle
    // allocate_safe
    | Scan(n: nat)                               // control_blocks[n], then recycled_head
    | Popped(p: Addr, rest: seq<Addr>)           // recycled_head exchanged for null
    | Repush(p: Addr, rest: seq<Addr>)           // returning the other recycled blocks one by one
    | Unlinked(p: Addr)
    | Taken(p: Addr)                             // about to clear managed
    | New
    | Search(p: Addr, n: nat)                    // about to load bitmap word n
    | Try(p: Addr, n: nat, b: nat)               // about to set bit b
    | Claimed(p: Addr, b: nat)                   // bit set, reference not yet counted
    // deallocate_safe
    | Clearing(p: Addr, b: nat)
    // recycle_safe
    | LoadManaged(p: Addr)
    | LoadCount(p: Addr)
    | SetManaged(p: Addr)
    | Listing(p: Addr, n: nat)
    | Pushing(p: Addr)
    // try_free_safe
    | Drop(p: Addr, again: bool)
    | Release(p: Addr, again: bool)              // the last reference is gone

  datatype State = State(
    blocks: map<Addr, Block>,       // blocks obtained from the root allocator
    slots: seq<Option<Addr>>,       // control_blocks
    recycled: seq<Addr>,            // the chain behind recycled_head
    recycleCount: int,
    objs: map<Id, Slot>,            // objects allocated and not yet handed to deallocate_safe
    nextId: Id,
    pcs: seq<Pc>)

  datatype Action =
    | Allocate(t: nat)
    | Free(t: nat, id: Id)
    | Go(t: nat, addr: Addr)       // `addr` is the block the root allocator would return

  /** The lowest clear bit from `b` on, or `end`. */
  function FirstClear(bits: set<nat>, b: nat, end: nat): (r: nat)
    requires b <= end
    ensures b <= r <= end && (r < end ==> r !in bits) && forall x :: b <= x < r ==> x in bits
    decreases end - b
  {
    if b == end || b !in bits then b else FirstClear(bits, b + 1, end)
  }

  function SetPc(s: State, t: nat, pc: Pc): State
    requires t < |s.pcs|
  {
    s.(pcs := s.pcs[t := pc])
  }

  function SetBlock(s: State, p: Addr, b: Block): State {
    s.(blocks := s.blocks[p := b])
  }

  /** The block a program point works on. */
  function Target(pc: Pc): Option<Addr> {
    match pc
    case Idle => None
    case Scan(_) => None
    case New => None
    case Popped(p, _) => Some(p)
    case Repush(p, _) => Some(p)
    case Unlinked(p) => Some(p)
    case Taken(p) => Some(p)
    case Search(p, _) => Some(p)
    case Try(p, _, _) => Some(p)
    case Claimed(p, _) => Some(p)
    case Clearing(p, _) => Some(p)
    case LoadManaged(p) => Some(p)
    case LoadCount(p) => Some(p)
    case SetManaged(p) => Some(p)
    case Listing(p, _) => Some(p)
    case Pushing(p) => Some(p)
    case Drop(p, _) => Some(p)
    case Release(p, _) => Some(p)
  }

  /** A step that touches a block needs the block to be there: a missing one would be a use after free. */
  predicate Enabled(s: State, a: Action) {
    a.t < |s.pcs| &&
    var pc := s.pcs[a.t];
    match a
    case Allocate(_) => pc.Idle?
    case Free(_, id) => pc.Idle? && id in s.objs
    case Go(_, addr) =>
      && !pc.Idle? && (pc.New? ==> addr !in s.blocks)
      && (Target(pc).Some? ==> Target(pc).value in s.blocks)
  }

  function Step(s: State, cfg: Config, a: Action): State
    requires Enabled(s, a)
  {
    match a
    case Allocate(t) => SetPc(s, t, Scan(0))
    case Free(t, id) => SetPc(s, t, Clearing(s.objs[id].p, s.objs[id].b)).(objs := s.objs - {id})
    case Go(t, addr) =>
      match s.pcs[t]
      case Idle => s
      case Scan(n) =>
        if n < |s.slots| then
          if s.slots[n].None? then SetPc(s, t, Scan(n + 1))
          else SetPc(s, t, Taken(s.slots[n].value)).(slots := s.slots[n := None])
        else if s.recycled == [] then SetPc(s, t, New)
        else SetPc(s, t, Popped(s.recycled[0], s.recycled[1..])).(recycled := [])
      case Popped(p, rest) =>
        if s.recycled == [] then SetPc(s, t, Unlinked(p)).(recycled := rest) else SetPc(s, t, Repush(p, rest))
      case Repush(p, rest) =>
        if rest == [] then SetPc(s, t, Unlinked(p))
        else SetPc(s, t, Repush(p, rest[1..])).(recycled := [rest[0]] + s.recycled)
      case Unlinked(p) => SetPc(s, t, Taken(p)).(recycleCount := s.recycleCount - 1)
      case Taken(p) => SetBlock(SetPc(s, t, Search(p, 0)), p, s.blocks[p].(managed := false))
      case New => SetBlock(SetPc(s, t, Search(addr, 0)), addr, Block(1, false, {}))
      case Search(p, n) =>
        if n < cfg.words then
          var b := FirstClear(s.blocks[p].bits, n * cfg.bits, n * cfg.bits + cfg.bits);
          if b < n * cfg.bits + cfg.bits then SetPc(s, t, Try(p, n, b)) else SetPc(s, t, Search(p, n + 1))
        else SetPc(s, t, Drop(p, true))
      case Try(p, n, b) =>
        var s1 := SetBlock(s, p, s.blocks[p].(bits := s.blocks[p].bits + {b}));
        if b !in s.blocks[p].bits && b + cfg.offset < cfg.itemCount then SetPc(s1, t, Claimed(p, b))
        else SetPc(s1, t, Search(p, n + 1))
      case Claimed(p, b) =>
        SetBlock(SetPc(s, t, LoadManaged(p)), p, s.blocks[p].(ref := s.blocks[p].ref + 1))
          .(objs := s.objs[s.nextId := Slot(p, b)], nextId := s.nextId + 1)
      case Clearing(p, b) =>
        SetBlock(SetPc(s, t, LoadManaged(p)), p, s.blocks[p].(bits := s.blocks[p].bits - {b}))
      case LoadManaged(p) => SetPc(s, t, if s.blocks[p].managed then Drop(p, false) else LoadCount(p))
      case LoadCount(p) => SetPc(s, t, if s.recycleCount < cfg.recycleLimit then SetManaged(p) else Drop(p, false))
      case SetManaged(p) =>
        SetBlock(SetPc(s, t, if s.blocks[p].managed then Drop(p, false) else Listing(p, 0)), p,
          s.blocks[p].(managed := true))
      case Listing(p, n) =>
        if n < |s.slots| then
          if s.slots[n].None? then SetPc(s, t, Idle).(slots := s.slots[n := Some(p)])
          else SetPc(s, t, Listing(p, n + 1))
        else SetPc(s, t, Pushing(p)).(recycleCount := s.recycleCount + 1)
      case Pushing(p) => SetPc(s, t, Idle).(recycled := [p] + s.recycled)
      case Drop(p, again) =>
        var pc' := if s.blocks[p].ref == 1 then Release(p, again) else if again then Scan(0) else Idle;
        SetBlock(SetPc(s, t, pc'), p, s.blocks[p].(ref := s.blocks[p].ref - 1))
      case Release(p, again) => SetPc(s, t, if again then Scan(0) else Idle).(blocks := s.blocks - {p})
  }

  predicate Initial(s: State) {
    && s.blocks == map[] && s.recycled == [] && s.recycleCount == 0 && s.objs == map[]
    && (forall n :: 0 <= n < |s.slots| ==> s.slots[n] == None)
    && (forall t :: 0 <= t < |s.pcs| ==> s.pcs[t] == Idle)
  }

  ghost predicate Run(states: seq<State>, cfg: Config, acts: seq<Action>) {
    && |states| == |acts| + 1 && Initial(states[0])
    && forall i {:trigger acts[i]} :: 0 <= i < |acts|
         ==> Enabled(states[i], acts[i]) && states[i + 1] == Step(states[i], cfg, acts[i])
  }

  // ---- the cache: who may list, hold or take a block ------------------------------------

  datatype Where = Lister(t: int) | InSlot(n: int) | Recycled | Chain(t: int) | Taker(t: int)

  datatype Holder = Thread(t: int) | Object(id: Id) | Cache

  datatype Owner = ByObject(id: Id) | ByThread(t: int)

  /** `home`: the one place that accounts for a set managed flag.  `holders`: what keeps a block
      alive.  `owner`: to whom a set bit belongs. */
  datatype Layout = Layout(home: map<Addr, Where>, holders: map<Addr, set<Holder>>, owner: map<Slot, Owner>)

  predicate Cached(w: Where) {
    w.InSlot? || w.Recycled? || w.Chain?
  }

  function TakerOf(pc: Pc): Option<Addr> {
    match pc
    case Popped(p, _) => Some(p)
    case Repush(p, _) => Some(p)
    case Unlinked(p) => Some(p)
    case Taken(p) => Some(p)
    case _ => None
  }

  function ListerOf(pc: Pc): Option<Addr> {
    match pc
    case Listing(p, _) => Some(p)
    case Pushing(p) => Some(p)
    case _ => None
  }

  function RestOf(pc: Pc): seq<Addr> {
    match pc
    case Popped(_, rest) => rest
    case Repush(_, rest) => rest
    case _ => []
  }

  /** The block a thread has a reference to. */
  function Held(pc: Pc): Option<Addr> {
    if pc.Release? then None else Target(pc)
  }

  /** The bit a thread has set and not yet passed on, or is about to clear. */
  function BitOf(pc: Pc): Option<Slot> {
    match pc
    case Claimed(p, b) => Some(Slot(p, b))
    case Clearing(p, b) => Some(Slot(p, b))
    case _ => None
  }

  lemma NoDupEmpty()
    ensures NoDup<Addr>([])
  {
  }

  lemma NoDupTail(s: seq<Addr>)
    requires s != [] && NoDup(s)
    ensures NoDup(s[1..]) && s[0] !in s[1..] && s[0] in s && forall x <- s[1..] :: x in s
  {
  }

  lemma NoDupCons(x: Addr, s: seq<Addr>)
    requires NoDup(s) && x !in s
    ensures NoDup([x] + s) && forall y <- [x] + s :: y == x || y in s
  {
  }

  ghost predicate At(home: map<Addr, Where>, p: Addr, w: Where) {
    p in home && home[p] == w
  }

  ghost predicate Located(s: State, p: Addr, w: Where) {
    match w
    case Lister(t) => 0 <= t < |s.pcs| && ListerOf(s.pcs[t]) == Some(p)
    case InSlot(n) => 0 <= n < |s.slots| && s.slots[n] == Some(p)
    case Recycled => p in s.recycled
    case Chain(t) => 0 <= t < |s.pcs| && p in RestOf(s.pcs[t])
    case Taker(t) => 0 <= t < |s.pcs| && TakerOf(s.pcs[t]) == Some(p)
  }

  ghost predicate ThreadPlaces(s: State, g: Layout, t: nat)
    requires t < |s.pcs|
  {
    var pc := s.pcs[t];
    && (TakerOf(pc).Some? ==> At(g.home, TakerOf(pc).value, Taker(t)))
    && (ListerOf(pc).Some? ==> At(g.home, ListerOf(pc).value, Lister(t)))
    && NoDup(RestOf(pc)) && forall x <- RestOf(pc) :: At(g.home, x, Chain(t))
  }

  /** The managed flag is set exactly for blocks with a place, and every place has its own blocks. */
  ghost predicate PlacesOk(s: State, g: Layout) {
    && g.home.Keys <= s.blocks.Keys
    && (forall p <- s.blocks :: s.blocks[p].managed <==> p in g.home)
    && (forall p <- g.home :: Located(s, p, g.home[p]))
    && (forall n :: 0 <= n < |s.slots| && s.slots[n].Some? ==> At(g.home, s.slots[n].value, InSlot(n)))
    && NoDup(s.recycled) && (forall x <- s.recycled :: At(g.home, x, Recycled))
    && (forall t :: 0 <= t < |s.pcs| ==> ThreadPlaces(s, g, t))
  }

  /** The bits of a block: objects, bits in a thread's hands, or past the end of the block. */
  ghost predicate BitsOk(s: State, cfg: Config, g: Layout) {
    && (forall id <- s.objs :: id < s.nextId && s.objs[id] in g.owner && g.owner[s.objs[id]] == ByObject(id))
    && (forall t :: 0 <= t < |s.pcs| && BitOf(s.pcs[t]).Some? ==>
          BitOf(s.pcs[t]).value in g.owner && g.owner[BitOf(s.pcs[t]).value] == ByThread(t))
    && (forall x <- g.owner ::
          && x.p in s.blocks && x.b in s.blocks[x.p].bits && x.b + cfg.offset < cfg.itemCount
          && match g.owner[x]
             case ByObject(id) => id in s.objs && s.objs[id] == x
             case ByThread(t) => 0 <= t < |s.pcs| && BitOf(s.pcs[t]) == Some(x))
    && (forall p <- s.blocks, b <- s.blocks[p].bits :: b + cfg.offset < cfg.itemCount ==> Slot(p, b) in g.owner)
  }

  ghost predicate HolderOf(s: State, g: Layout, p: Addr, x: Holder) {
    match x
    case Thread(t) => 0 <= t < |s.pcs| && Held(s.pcs[t]) == Some(p)
    case Object(id) => id in s.objs && s.objs[id].p == p
    case Cache => p in g.home && Cached(g.home[p])
  }

  /** The count of a block equals the number of its holders: threads at work on it, objects, the cache. */
  ghost predicate RefsOk(s: State, g: Layout) {
    && g.holders.Keys == s.blocks.Keys
    && (forall p <- s.blocks :: s.blocks[p].ref == |g.holders[p]|)
    && (forall p, x :: Holds(g, p, x) <==> HolderOf(s, g, p, x))
  }

  ghost predicate Holds(g: Layout, p: Addr, x: Holder) {
    p in g.holders && x in g.holders[p]
  }

  /** A block without holders is being released, by one thread. */
  ghost predicate ReleaseOk(s: State, g: Layout) {
    && (forall t :: 0 <= t < |s.pcs| && s.pcs[t].Release? ==> s.pcs[t].p in g.holders && g.holders[s.pcs[t].p] == {})
    && (forall t, u :: 0 <= t < u < |s.pcs| && s.pcs[t].Release? && s.pcs[u].Release? ==> s.pcs[t].p != s.pcs[u].p)
    && (forall p <- g.holders :: g.holders[p] == {} ==> Releasing(s, p))
  }

  ghost predicate Releasing(s: State, p: Addr) {
    exists t :: 0 <= t < |s.pcs| && s.pcs[t].Release? && s.pcs[t].p == p
  }

  ghost predicate Inv(s: State, cfg: Config, g: Layout) {
    PlacesOk(s, g) && BitsOk(s, cfg, g) && RefsOk(s, g) && ReleaseOk(s, g)
  }

  // ---- what does not change --------------------------------------------------------------

  predicate SamePlaces(a: Pc, b: Pc) {
    TakerOf(a) == TakerOf(b) && ListerOf(a) == ListerOf(b) && RestOf(a) == RestOf(b)
  }

  predicate SameRelease(a: Pc, b: Pc) {
    a.Release? == b.Release? && (a.Release? ==> a.p == b.p)
  }

  /** Steps that touch neither the cache nor a managed flag. */
  lemma PlacesFrame(s: State, s': State, g: Layout, g': Layout)
    requires PlacesOk(s, g) && g'.home == g.home && s'.slots == s.slots && s'.recycled == s.recycled
    requires g.home.Keys <= s'.blocks.Keys
    requires forall p <- s'.blocks :: s'.blocks[p].managed == (p in s.blocks && s.blocks[p].managed)
    requires |s'.pcs| == |s.pcs| && forall t :: 0 <= t < |s.pcs| ==> SamePlaces(s.pcs[t], s'.pcs[t])
    ensures PlacesOk(s', g')
  {
    hide NoDup;
    forall t | 0 <= t < |s.pcs| ensures ThreadPlaces(s', g', t) {
      assert ThreadPlaces(s, g, t) && SamePlaces(s.pcs[t], s'.pcs[t]);
    }
    forall p | p in g.home ensures Located(s', p, g.home[p]) {
      assert Located(s, p, g.home[p]);
    }
  }

  /** Steps that touch no bit and no object. */
  lemma BitsFrame(s: State, s': State, cfg: Config, g: Layout, g': Layout)
    requires BitsOk(s, cfg, g) && g'.owner == g.owner && s'.objs == s.objs && s'.nextId == s.nextId
    requires forall x <- g.owner :: x.p in s'.blocks
    requires forall p <- s'.blocks :: s'.blocks[p].bits == if p in s.blocks then s.blocks[p].bits else {}
    requires |s'.pcs| == |s.pcs| && forall t :: 0 <= t < |s.pcs| ==> BitOf(s.pcs[t]) == BitOf(s'.pcs[t])
    ensures BitsOk(s', cfg, g')
  {
    hide BitOf;
  }

  /** Steps that touch no reference. */
  lemma RefsFrame(s: State, s': State, g: Layout, g': Layout)
    requires RefsOk(s, g) && g'.holders == g.holders
    requires s'.blocks.Keys == s.blocks.Keys && forall p <- s.blocks :: s'.blocks[p].ref == s.blocks[p].ref
    requires forall p, x :: HolderOf(s', g', p, x) == HolderOf(s, g, p, x)
    ensures RefsOk(s', g')
  {
    hide HolderOf;
    forall p, x ensures Holds(g', p, x) <==> HolderOf(s', g', p, x) {
      assert Holds(g, p, x) <==> HolderOf(s, g, p, x);
    }
  }

  /** Steps that replace holders `x` of one block by holders `y`. */
  lemma RefsChange(s: State, s': State, g: Layout, g': Layout, p: Addr, x: set<Holder>, y: set<Holder>)
    requires RefsOk(s, g) && p in s.blocks && g'.holders == g.holders[p := g.holders[p] - x + y]
    requires s'.blocks.Keys == s.blocks.Keys && s'.blocks[p].ref == s.blocks[p].ref - |x| + |y|
    requires forall q <- s.blocks :: q != p ==> s'.blocks[q].ref == s.blocks[q].ref
    requires forall q, h :: !(q == p && h in x + y) ==> HolderOf(s', g', q, h) == HolderOf(s, g, q, h)
    requires x !! y
    requires forall h ::
      && (h in x ==> HolderOf(s, g, p, h) && !HolderOf(s', g', p, h))
      && (h in y ==> !HolderOf(s, g, p, h) && HolderOf(s', g', p, h))
    ensures RefsOk(s', g')
  {
    hide HolderOf;
    forall h | h in x ensures h in g.holders[p] {
      assert HolderOf(s, g, p, h);
      assert Holds(g, p, h);
    }
    forall h | h in y ensures h !in g.holders[p] {
      assert !HolderOf(s, g, p, h);
      assert !Holds(g, p, h);
    }
    assert |g.holders[p] - x| == |g.holders[p]| - |x|;
    assert |g.holders[p] - x + y| == |g.holders[p] - x| + |y|;
    forall q, h ensures Holds(g', q, h) <==> HolderOf(s', g', q, h) {
      assert Holds(g, q, h) <==> HolderOf(s, g, q, h);
    }
  }

  ghost predicate InCache(g: Layout, p: Addr) {
    p in g.home && Cached(g.home[p])
  }

  lemma ReleaseFrame(s: State, s': State, g: Layout, g': Layout)
    requires ReleaseOk(s, g) && g'.holders.Keys == g.holders.Keys
    requires forall p <- g.holders :: g.holders[p] == {} <==> g'.holders[p] == {}
    requires |s'.pcs| == |s.pcs| && forall t :: 0 <= t < |s.pcs| ==> SameRelease(s.pcs[t], s'.pcs[t])
    ensures ReleaseOk(s', g')
  {
    forall p | p in g'.holders && g'.holders[p] == {} ensures Releasing(s', p) {
      assert Releasing(s, p);
      var t :| 0 <= t < |s.pcs| && s.pcs[t].Release? && s.pcs[t].p == p;
      assert SameRelease(s.pcs[t], s'.pcs[t]);
    }
  }

  // ---- every step keeps the layout -------------------------------------------------------

  lemma Known(s: State, cfg: Config, g: Layout)
    requires Inv(s, cfg, g)
    ensures g.home.Keys <= s.blocks.Keys && forall x <- g.owner :: x.p in s.blocks
    ensures forall t :: 0 <= t < |s.pcs| && Held(s.pcs[t]).Some? ==> Held(s.pcs[t]).value in s.blocks
  {
    hide PlacesOk, ReleaseOk, Held;
    assert g.home.Keys <= s.blocks.Keys by { PlacesKnown(s, g); }
    forall t | 0 <= t < |s.pcs| && Held(s.pcs[t]).Some? ensures Held(s.pcs[t]).value in s.blocks {
      assert HolderOf(s, g, Held(s.pcs[t]).value, Thread(t));
      assert Holds(g, Held(s.pcs[t]).value, Thread(t));
    }
  }

  lemma PlacesKnown(s: State, g: Layout)
    requires PlacesOk(s, g)
    ensures g.home.Keys <= s.blocks.Keys
  {
  }

  /** Local steps. */
  lemma QuietKeeps(s: State, cfg: Config, g: Layout, t: nat, pc': Pc, s': State)
    requires Inv(s, cfg, g) && t < |s.pcs| && s' == SetPc(s, t, pc').(recycleCount := s'.recycleCount)
    requires SamePlaces(s.pcs[t], pc') && Held(s.pcs[t]) == Held(pc') && BitOf(s.pcs[t]) == BitOf(pc')
    requires SameRelease(s.pcs[t], pc')
    ensures Inv(s', cfg, g)
  {
    hide PlacesOk, BitsOk, RefsOk, ReleaseOk;
    Known(s, cfg, g);
    PlacesFrame(s, s', g, g);
    BitsFrame(s, s', cfg, g, g);
    RefsFrame(s, s', g, g);
    ReleaseFrame(s, s', g, g);
  }

  lemma TakeSlotKeeps(s: State, cfg: Config, g: Layout, t: nat, n: nat) returns (g': Layout)
    requires Inv(s, cfg, g) && t < |s.pcs| && n < |s.slots| && s.slots[n].Some? && s.pcs[t] == Scan(n)
    ensures Inv(SetPc(s, t, Taken(s.slots[n].value)).(slots := s.slots[n := None]), cfg, g')
  {
    hide PlacesOk, BitsOk, RefsOk, ReleaseOk;
    Known(s, cfg, g);
    var p := s.slots[n].value;
    var s' := SetPc(s, t, Taken(p)).(slots := s.slots[n := None]);
    SlotPlaces(s, g, n);
    g' := g.(home := g.home[p := Taker(t)], holders := g.holders[p := g.holders[p] - {Cache} + {Thread(t)}]);
    TakeSlotPlaces(s, s', g, g', t, n);
    BitsFrame(s, s', cfg, g, g');
    RefsChange(s, s', g, g', p, {Cache}, {Thread(t)});
    ReleaseStays(s, s', g, g', p);
  }

  lemma SlotPlaces(s: State, g: Layout, n: nat)
    requires PlacesOk(s, g) && RefsOk(s, g) && n < |s.slots| && s.slots[n].Some?
    ensures At(g.home, s.slots[n].value, InSlot(n)) && s.slots[n].value in g.holders
      && Cache in g.holders[s.slots[n].value]
  {
    assert HolderOf(s, g, s.slots[n].value, Cache);
  }

  lemma TakeSlotPlaces(s: State, s': State, g: Layout, g': Layout, t: nat, n: nat)
    requires PlacesOk(s, g) && t < |s.pcs| && n < |s.slots| && s.slots[n].Some? && s.pcs[t] == Scan(n)
    requires s' == SetPc(s, t, Taken(s.slots[n].value)).(slots := s.slots[n := None])
    requires g'.home == g.home[s.slots[n].value := Taker(t)]
    ensures PlacesOk(s', g')
  {
    hide NoDup;
    NoDupEmpty();
    var p := s.slots[n].value;
    assert At(g.home, p, InSlot(n));
    forall u | 0 <= u < |s.pcs| ensures ThreadPlaces(s', g', u) {
      assert ThreadPlaces(s, g, u);
    }
    forall q | q in g'.home ensures Located(s', q, g'.home[q]) {
      assert q != p ==> Located(s, q, g.home[q]);
    }
  }

  /** A block that had and still has holders is not being released. */
  lemma ReleaseStays(s: State, s': State, g: Layout, g': Layout, p: Addr)
    requires ReleaseOk(s, g) && p in g.holders && g.holders[p] != {} && g'.holders.Keys == g.holders.Keys
      && g'.holders[p] != {}
    requires forall q <- g.holders :: q != p ==> g'.holders[q] == g.holders[q]
    requires |s'.pcs| == |s.pcs| && forall t :: 0 <= t < |s.pcs| ==> SameRelease(s.pcs[t], s'.pcs[t])
    ensures ReleaseOk(s', g')
  {
    ReleaseFrame(s, s', g, g');
  }

  lemma PopAllKeeps(s: State, cfg: Config, g: Layout, t: nat) returns (g': Layout)
    requires Inv(s, cfg, g) && t < |s.pcs| && s.recycled != [] && s.pcs[t].Scan?
    ensures Inv(SetPc(s, t, Popped(s.recycled[0], s.recycled[1..])).(recycled := []), cfg, g')
  {
    hide PlacesOk, BitsOk, RefsOk, ReleaseOk;
    Known(s, cfg, g);
    var p := s.recycled[0];
    var s' := SetPc(s, t, Popped(p, s.recycled[1..])).(recycled := []);
    RecycledPlaces(s, g);
    var home' := map x <- g.home :: if x == p then Taker(t) else if g.home[x] == Recycled then Chain(t) else g.home[x];
    g' := g.(home := home', holders := g.holders[p := g.holders[p] - {Cache} + {Thread(t)}]);
    PopAllPlaces(s, s', g, g', t);
    BitsFrame(s, s', cfg, g, g');
    RefsChange(s, s', g, g', p, {Cache}, {Thread(t)});
    ReleaseStays(s, s', g, g', p);
  }

  lemma RecycledPlaces(s: State, g: Layout)
    requires PlacesOk(s, g) && RefsOk(s, g) && s.recycled != []
    ensures At(g.home, s.recycled[0], Recycled) && s.recycled[0] in g.holders && Cache in g.holders[s.recycled[0]]
  {
    assert s.recycled[0] in s.recycled;
    assert HolderOf(s, g, s.recycled[0], Cache);
  }

  lemma PopAllPlaces(s: State, s': State, g: Layout, g': Layout, t: nat)
    requires PlacesOk(s, g) && t < |s.pcs| && s.recycled != [] && s.pcs[t].Scan?
    requires s' == SetPc(s, t, Popped(s.recycled[0], s.recycled[1..])).(recycled := [])
    requires g'.home == map x <- g.home ::
      if x == s.recycled[0] then Taker(t) else if g.home[x] == Recycled then Chain(t) else g.home[x]
    ensures PlacesOk(s', g')
  {
    var p := s.recycled[0];
    hide NoDup;
    NoDupEmpty();
    NoDupTail(s.recycled);
    assert At(g.home, p, Recycled);
    forall u | 0 <= u < |s.pcs| ensures ThreadPlaces(s', g', u) {
      assert ThreadPlaces(s, g, u);
    }
    forall q | q in g'.home ensures Located(s', q, g'.home[q]) {
      assert q != p ==> Located(s, q, g.home[q]);
    }
  }

  lemma PutRestKeeps(s: State, cfg: Config, g: Layout, t: nat) returns (g': Layout)
    requires Inv(s, cfg, g) && t < |s.pcs| && s.recycled == [] && s.pcs[t].Popped?
    ensures Inv(SetPc(s, t, Unlinked(s.pcs[t].p)).(recycled := s.pcs[t].rest), cfg, g')
  {
    hide PlacesOk, BitsOk, RefsOk, ReleaseOk;
    Known(s, cfg, g);
    var s' := SetPc(s, t, Unlinked(s.pcs[t].p)).(recycled := s.pcs[t].rest);
    g' := g.(home := map x <- g.home :: if g.home[x] == Chain(t) then Recycled else g.home[x]);
    PutRestPlaces(s, s', g, g', t);
    BitsFrame(s, s', cfg, g, g');
    RefsFrame(s, s', g, g');
    ReleaseFrame(s, s', g, g');
  }

  lemma PutRestPlaces(s: State, s': State, g: Layout, g': Layout, t: nat)
    requires PlacesOk(s, g) && t < |s.pcs| && s.recycled == [] && s.pcs[t].Popped?
    requires s' == SetPc(s, t, Unlinked(s.pcs[t].p)).(recycled := s.pcs[t].rest)
    requires g'.home == map x <- g.home :: if g.home[x] == Chain(t) then Recycled else g.home[x]
    ensures PlacesOk(s', g')
  {
    hide NoDup;
    NoDupEmpty();
    assert ThreadPlaces(s, g, t);
    forall u | 0 <= u < |s.pcs| ensures ThreadPlaces(s', g', u) {
      assert ThreadPlaces(s, g, u);
    }
    forall q | q in g'.home ensures Located(s', q, g'.home[q]) {
      assert Located(s, q, g.home[q]);
    }
  }

  lemma RepushKeeps(s: State, cfg: Config, g: Layout, t: nat) returns (g': Layout)
    requires Inv(s, cfg, g) && t < |s.pcs| && s.pcs[t].Repush? && s.pcs[t].rest != []
    ensures var pc' := Repush(s.pcs[t].p, s.pcs[t].rest[1..]);
      Inv(SetPc(s, t, pc').(recycled := [s.pcs[t].rest[0]] + s.recycled), cfg, g')
  {
    hide PlacesOk, BitsOk, RefsOk, ReleaseOk;
    Known(s, cfg, g);
    var x := s.pcs[t].rest[0];
    var s' := SetPc(s, t, Repush(s.pcs[t].p, s.pcs[t].rest[1..])).(recycled := [x] + s.recycled);
    g' := g.(home := g.home[x := Recycled]);
    RepushPlaces(s, s', g, g', t);
    BitsFrame(s, s', cfg, g, g');
    RefsFrame(s, s', g, g');
    ReleaseFrame(s, s', g, g');
  }

  lemma RepushPlaces(s: State, s': State, g: Layout, g': Layout, t: nat)
    requires PlacesOk(s, g) && t < |s.pcs| && s.pcs[t].Repush? && s.pcs[t].rest != []
    requires s' == SetPc(s, t, Repush(s.pcs[t].p, s.pcs[t].rest[1..])).(recycled := [s.pcs[t].rest[0]] + s.recycled)
    requires g'.home == g.home[s.pcs[t].rest[0] := Recycled]
    ensures PlacesOk(s', g') && At(g.home, s.pcs[t].rest[0], Chain(t))
  {
    var x := s.pcs[t].rest[0];
    hide NoDup;
    assert ThreadPlaces(s, g, t);
    NoDupTail(s.pcs[t].rest);
    assert At(g.home, x, Chain(t));
    NoDupCons(x, s.recycled);
    forall u | 0 <= u < |s.pcs| ensures ThreadPlaces(s', g', u) {
      assert ThreadPlaces(s, g, u);
    }
    forall q | q in g'.home ensures Located(s', q, g'.home[q]) {
      assert q != x ==> Located(s, q, g.home[q]);
    }
  }

  lemma UnmanageKeeps(s: State, cfg: Config, g: Layout, t: nat, p: Addr) returns (g': Layout)
    requires Inv(s, cfg, g) && t < |s.pcs| && s.pcs[t] == Taken(p) && p in s.blocks
    ensures Inv(SetBlock(SetPc(s, t, Search(p, 0)), p, s.blocks[p].(managed := false)), cfg, g')
  {
    hide PlacesOk, BitsOk, RefsOk, ReleaseOk;
    Known(s, cfg, g);
    var s' := SetBlock(SetPc(s, t, Search(p, 0)), p, s.blocks[p].(managed := false));
    g' := g.(home := g.home - {p});
    UnmanagePlaces(s, s', g, g', t, p);
    BitsFrame(s, s', cfg, g, g');
    RefsFrame(s, s', g, g');
    ReleaseFrame(s, s', g, g');
  }

  lemma UnmanagePlaces(s: State, s': State, g: Layout, g': Layout, t: nat, p: Addr)
    requires PlacesOk(s, g) && t < |s.pcs| && s.pcs[t] == Taken(p) && p in s.blocks
    requires s' == SetBlock(SetPc(s, t, Search(p, 0)), p, s.blocks[p].(managed := false)) && g'.home == g.home - {p}
    ensures PlacesOk(s', g') && At(g.home, p, Taker(t))
  {
    hide NoDup;
    NoDupEmpty();
    assert ThreadPlaces(s, g, t);
    forall u | 0 <= u < |s.pcs| ensures ThreadPlaces(s', g', u) {
      assert ThreadPlaces(s, g, u);
    }
    forall q | q in g'.home ensures Located(s', q, g'.home[q]) {
      assert Located(s, q, g.home[q]);
    }
  }

  lemma ManageKeeps(s: State, cfg: Config, g: Layout, t: nat, p: Addr) returns (g': Layout)
    requires Inv(s, cfg, g) && t < |s.pcs| && s.pcs[t] == SetManaged(p) && p in s.blocks && !s.blocks[p].managed
    ensures Inv(SetBlock(SetPc(s, t, Listing(p, 0)), p, s.blocks[p].(managed := true)), cfg, g')
  {
    hide PlacesOk, BitsOk, RefsOk, ReleaseOk;
    Known(s, cfg, g);
    var s' := SetBlock(SetPc(s, t, Listing(p, 0)), p, s.blocks[p].(managed := true));
    g' := g.(home := g.home[p := Lister(t)]);
    ManagePlaces(s, s', g, g', t, p);
    BitsFrame(s, s', cfg, g, g');
    RefsFrame(s, s', g, g');
    ReleaseFrame(s, s', g, g');
  }

  lemma ManagePlaces(s: State, s': State, g: Layout, g': Layout, t: nat, p: Addr)
    requires PlacesOk(s, g) && t < |s.pcs| && s.pcs[t] == SetManaged(p) && p in s.blocks && !s.blocks[p].managed
    requires s' == SetBlock(SetPc(s, t, Listing(p, 0)), p, s.blocks[p].(managed := true))
      && g'.home == g.home[p := Lister(t)]
    ensures PlacesOk(s', g') && p !in g.home
  {
    hide NoDup;
    NoDupEmpty();
    assert p !in g.home;
    forall u | 0 <= u < |s.pcs| ensures ThreadPlaces(s', g', u) {
      assert ThreadPlaces(s, g, u);
    }
    forall q | q in g'.home ensures Located(s', q, g'.home[q]) {
      assert q != p ==> Located(s, q, g.home[q]);
    }
  }

  /** The lister puts its block into the cache: into slot `n`, or on the recycled list. */
  lemma ListKeeps(s: State, cfg: Config, g: Layout, t: nat, p: Addr, w: Where, s': State) returns (g': Layout)
    requires Inv(s, cfg, g) && t < |s.pcs| && ListerOf(s.pcs[t]) == Some(p) && p in s.blocks
    requires w == Recycled || (w.InSlot? && 0 <= w.n < |s.slots| && s.slots[w.n] == None)
    requires s' == SetPc(s, t, Idle).(
      slots := if w == Recycled then s.slots else s.slots[w.n := Some(p)],
      recycled := if w == Recycled then [p] + s.recycled else s.recycled)
    ensures Inv(s', cfg, g')
  {
    hide PlacesOk, BitsOk, RefsOk, ReleaseOk;
    Known(s, cfg, g);
    HoldersAt(s, g, t, p);
    g' := g.(home := g.home[p := w], holders := g.holders[p := g.holders[p] - {Thread(t)} + {Cache}]);
    ListPlaces(s, s', g, g', t, p, w);
    BitsFrame(s, s', cfg, g, g');
    RefsChange(s, s', g, g', p, {Thread(t)}, {Cache});
    ReleaseStays(s, s', g, g', p);
  }

  lemma HoldersAt(s: State, g: Layout, t: nat, p: Addr)
    requires RefsOk(s, g) && t < |s.pcs| && Held(s.pcs[t]) == Some(p)
    ensures p in g.holders && Thread(t) in g.holders[p] && p in s.blocks && s.blocks[p].ref >= 1
  {
    assert HolderOf(s, g, p, Thread(t));
    assert Holds(g, p, Thread(t));
  }

  lemma ListPlaces(s: State, s': State, g: Layout, g': Layout, t: nat, p: Addr, w: Where)
    requires PlacesOk(s, g) && t < |s.pcs| && ListerOf(s.pcs[t]) == Some(p) && p in s.blocks
    requires w == Recycled || (w.InSlot? && 0 <= w.n < |s.slots| && s.slots[w.n] == None)
    requires s' == SetPc(s, t, Idle).(
      slots := if w == Recycled then s.slots else s.slots[w.n := Some(p)],
      recycled := if w == Recycled then [p] + s.recycled else s.recycled)
    requires g'.home == g.home[p := w]
    ensures PlacesOk(s', g') && At(g.home, p, Lister(t))
  {
    hide NoDup;
    NoDupEmpty();
    assert ThreadPlaces(s, g, t);
    if w == Recycled { NoDupCons(p, s.recycled); }
    forall u | 0 <= u < |s.pcs| ensures ThreadPlaces(s', g', u) {
      assert ThreadPlaces(s, g, u);
    }
    forall q | q in g'.home ensures Located(s', q, g'.home[q]) {
      assert q != p ==> Located(s, q, g.home[q]);
    }
  }

  lemma NewBlockKeeps(s: State, cfg: Config, g: Layout, t: nat, addr: Addr) returns (g': Layout)
    requires Inv(s, cfg, g) && t < |s.pcs| && s.pcs[t].New? && addr !in s.blocks
    ensures Inv(SetBlock(SetPc(s, t, Search(addr, 0)), addr, Block(1, false, {})), cfg, g')
  {
    hide PlacesOk, BitsOk, RefsOk, ReleaseOk;
    Known(s, cfg, g);
    var s' := SetBlock(SetPc(s, t, Search(addr, 0)), addr, Block(1, false, {}));
    g' := g.(holders := g.holders[addr := {Thread(t)}]);
    PlacesFrame(s, s', g, g');
    BitsFrame(s, s', cfg, g, g');
    NewBlockRefs(s, s', g, g', t, addr);
  }

  lemma NewBlockRefs(s: State, s': State, g: Layout, g': Layout, t: nat, addr: Addr)
    requires RefsOk(s, g) && ReleaseOk(s, g) && t < |s.pcs| && s.pcs[t].New? && addr !in s.blocks && addr !in g.home
    requires s' == SetBlock(SetPc(s, t, Search(addr, 0)), addr, Block(1, false, {}))
    requires g' == g.(holders := g.holders[addr := {Thread(t)}])
    ensures RefsOk(s', g') && ReleaseOk(s', g')
  {
    forall q, x ensures Holds(g', q, x) <==> HolderOf(s', g', q, x) {
      assert Holds(g, q, x) <==> HolderOf(s, g, q, x);
    }
    forall p | p in g'.holders && g'.holders[p] == {} ensures Releasing(s', p) {
      assert Releasing(s, p);
      var u :| 0 <= u < |s.pcs| && s.pcs[u].Release? && s.pcs[u].p == p;
      assert s'.pcs[u] == s.pcs[u];
    }
  }

  /** Setting a bit: it was free, or was taken in between, or lies past the end of the block. */
  lemma SetBitKeeps(s: State, cfg: Config, g: Layout, t: nat, p: Addr, n: nat, b: nat) returns (g': Layout)
    requires Inv(s, cfg, g) && t < |s.pcs| && s.pcs[t] == Try(p, n, b) && p in s.blocks
    ensures Inv(Step(s, cfg, Go(t, 0)), cfg, g')
  {
    hide PlacesOk, BitsOk, RefsOk, ReleaseOk, Step;
    Known(s, cfg, g);
    var claim := b !in s.blocks[p].bits && b + cfg.offset < cfg.itemCount;
    var pc' := if claim then Claimed(p, b) else Search(p, n + 1);
    var s' := SetBlock(SetPc(s, t, pc'), p, s.blocks[p].(bits := s.blocks[p].bits + {b}));
    SetBitStep(s, cfg, t, p, n, b);
    g' := if claim then g.(owner := g.owner[Slot(p, b) := ByThread(t)]) else g;
    PlacesFrame(s, s', g, g');
    if claim { ClaimBits(s, s', cfg, g, g', t, p, b); } else { SpoilBits(s, s', cfg, g, t, p, b); }
    RefsFrame(s, s', g, g');
    ReleaseFrame(s, s', g, g');
  }

  lemma SetBitStep(s: State, cfg: Config, t: nat, p: Addr, n: nat, b: nat)
    requires t < |s.pcs| && s.pcs[t] == Try(p, n, b) && p in s.blocks
    ensures var claim := b !in s.blocks[p].bits && b + cfg.offset < cfg.itemCount;
      Step(s, cfg, Go(t, 0)) ==
      SetBlock(SetPc(s, t, if claim then Claimed(p, b) else Search(p, n + 1)), p,
        s.blocks[p].(bits := s.blocks[p].bits + {b}))
  {
  }

  ghost predicate OneThread(s: State, s': State, t: nat, x: Option<Slot>) {
    && t < |s.pcs| && |s'.pcs| == |s.pcs| && BitOf(s'.pcs[t]) == x
    && forall u :: 0 <= u < |s.pcs| && u != t ==> s'.pcs[u] == s.pcs[u]
  }

  lemma ClaimBits(s: State, s': State, cfg: Config, g: Layout, g': Layout, t: nat, p: Addr, b: nat)
    requires BitsOk(s, cfg, g) && p in s.blocks && OneThread(s, s', t, Some(Slot(p, b))) && BitOf(s.pcs[t]) == None
    requires b !in s.blocks[p].bits && b + cfg.offset < cfg.itemCount && s'.objs == s.objs && s'.nextId == s.nextId
    requires s'.blocks == s.blocks[p := s.blocks[p].(bits := s.blocks[p].bits + {b})]
      && g'.owner == g.owner[Slot(p, b) := ByThread(t)]
    ensures BitsOk(s', cfg, g')
  {
    hide BitOf;
    assert Slot(p, b) !in g.owner;
  }

  lemma SpoilBits(s: State, s': State, cfg: Config, g: Layout, t: nat, p: Addr, b: nat)
    requires BitsOk(s, cfg, g) && p in s.blocks && OneThread(s, s', t, None) && BitOf(s.pcs[t]) == None
    requires (b in s.blocks[p].bits || b + cfg.offset >= cfg.itemCount) && s'.objs == s.objs && s'.nextId == s.nextId
    requires s'.blocks == s.blocks[p := s.blocks[p].(bits := s.blocks[p].bits + {b})]
    ensures BitsOk(s', cfg, g)
  {
    hide BitOf;
  }

  /** The reference of a new object is counted: from now on it may be used and deallocated. */
  lemma CountObjectKeeps(s: State, cfg: Config, g: Layout, t: nat, p: Addr, b: nat) returns (g': Layout)
    requires Inv(s, cfg, g) && t < |s.pcs| && s.pcs[t] == Claimed(p, b) && p in s.blocks
    ensures Inv(Step(s, cfg, Go(t, 0)), cfg, g')
  {
    hide PlacesOk, BitsOk, RefsOk, ReleaseOk, Step;
    Known(s, cfg, g);
    HoldersAt(s, g, t, p);
    CountObjectStep(s, cfg, t, p, b);
    var s' := Counted(s, t, p, b);
    g' := g.(owner := g.owner[Slot(p, b) := ByObject(s.nextId)],
      holders := g.holders[p := g.holders[p] - {} + {Object(s.nextId)}]);
    PlacesFrame(s, s', g, g');
    CountObjectBits(s, s', cfg, g, g', t, p, b);
    RefsChange(s, s', g, g', p, {}, {Object(s.nextId)});
    ReleaseStays(s, s', g, g', p);
  }

  function Counted(s: State, t: nat, p: Addr, b: nat): State
    requires t < |s.pcs| && p in s.blocks
  {
    State(s.blocks[p := s.blocks[p].(ref := s.blocks[p].ref + 1)], s.slots, s.recycled, s.recycleCount,
      s.objs[s.nextId := Slot(p, b)], s.nextId + 1, s.pcs[t := LoadManaged(p)])
  }

  lemma CountObjectStep(s: State, cfg: Config, t: nat, p: Addr, b: nat)
    requires t < |s.pcs| && s.pcs[t] == Claimed(p, b) && p in s.blocks
    ensures Step(s, cfg, Go(t, 0)) == Counted(s, t, p, b)
  {
  }

  lemma CountObjectBits(s: State, s': State, cfg: Config, g: Layout, g': Layout, t: nat, p: Addr, b: nat)
    requires BitsOk(s, cfg, g) && p in s.blocks && OneThread(s, s', t, None) && BitOf(s.pcs[t]) == Some(Slot(p, b))
    requires s'.objs == s.objs[s.nextId := Slot(p, b)] && s'.nextId == s.nextId + 1
    requires s'.blocks == s.blocks[p := s.blocks[p].(ref := s.blocks[p].ref + 1)]
      && g'.owner == g.owner[Slot(p, b) := ByObject(s.nextId)]
    ensures BitsOk(s', cfg, g') && s.nextId !in s.objs
  {
    hide BitOf;
  }

  lemma ClearBitKeeps(s: State, cfg: Config, g: Layout, t: nat, p: Addr, b: nat) returns (g': Layout)
    requires Inv(s, cfg, g) && t < |s.pcs| && s.pcs[t] == Clearing(p, b) && p in s.blocks
    ensures Inv(Step(s, cfg, Go(t, 0)), cfg, g')
  {
    hide PlacesOk, BitsOk, RefsOk, ReleaseOk, Step;
    Known(s, cfg, g);
    ClearBitStep(s, cfg, t, p, b);
    var s' := SetBlock(SetPc(s, t, LoadManaged(p)), p, s.blocks[p].(bits := s.blocks[p].bits - {b}));
    g' := g.(owner := g.owner - {Slot(p, b)});
    PlacesFrame(s, s', g, g');
    ClearBitBits(s, s', cfg, g, g', t, p, b);
    RefsFrame(s, s', g, g');
    ReleaseFrame(s, s', g, g');
  }

  lemma ClearBitStep(s: State, cfg: Config, t: nat, p: Addr, b: nat)
    requires t < |s.pcs| && s.pcs[t] == Clearing(p, b) && p in s.blocks
    ensures Step(s, cfg, Go(t, 0))
      == SetBlock(SetPc(s, t, LoadManaged(p)), p, s.blocks[p].(bits := s.blocks[p].bits - {b}))
  {
  }

  lemma ClearBitBits(s: State, s': State, cfg: Config, g: Layout, g': Layout, t: nat, p: Addr, b: nat)
    requires BitsOk(s, cfg, g) && p in s.blocks && OneThread(s, s', t, None) && BitOf(s.pcs[t]) == Some(Slot(p, b))
    requires s'.objs == s.objs && s'.nextId == s.nextId
    requires s'.blocks == s.blocks[p := s.blocks[p].(bits := s.blocks[p].bits - {b})]
      && g'.owner == g.owner - {Slot(p, b)}
    ensures BitsOk(s', cfg, g')
  {
    hide BitOf;
  }

  /** `deallocate_safe` is called: the object's bit and reference pass to the calling thread. */
  lemma CallFreeKeeps(s: State, cfg: Config, g: Layout, t: nat, id: Id) returns (g': Layout)
    requires Inv(s, cfg, g) && Enabled(s, Free(t, id))
    ensures Inv(Step(s, cfg, Free(t, id)), cfg, g')
  {
    hide PlacesOk, BitsOk, RefsOk, ReleaseOk;
    Known(s, cfg, g);
    var p := s.objs[id].p;
    ObjectHolds(s, g, id);
    var s' := Step(s, cfg, Free(t, id));
    g' := g.(owner := g.owner[s.objs[id] := ByThread(t)],
      holders := g.holders[p := g.holders[p] - {Object(id)} + {Thread(t)}]);
    PlacesFrame(s, s', g, g');
    CallFreeBits(s, s', cfg, g, g', t, id);
    RefsChange(s, s', g, g', p, {Object(id)}, {Thread(t)});
    ReleaseStays(s, s', g, g', p);
  }

  lemma ObjectHolds(s: State, g: Layout, id: Id)
    requires RefsOk(s, g) && id in s.objs
    ensures var p := s.objs[id].p; p in g.holders && p in s.blocks && Object(id) in g.holders[p]
  {
    assert HolderOf(s, g, s.objs[id].p, Object(id));
    assert Holds(g, s.objs[id].p, Object(id));
  }

  lemma CallFreeBits(s: State, s': State, cfg: Config, g: Layout, g': Layout, t: nat, id: Id)
    requires BitsOk(s, cfg, g) && id in s.objs && OneThread(s, s', t, Some(s.objs[id])) && BitOf(s.pcs[t]) == None
    requires s'.blocks == s.blocks && s'.objs == s.objs - {id} && s'.nextId == s.nextId
    requires g'.owner == g.owner[s.objs[id] := ByThread(t)]
    ensures BitsOk(s', cfg, g')
  {
    hide BitOf;
  }

  lemma DropKeeps(s: State, cfg: Config, g: Layout, t: nat, p: Addr, again: bool) returns (g': Layout)
    requires Inv(s, cfg, g) && t < |s.pcs| && s.pcs[t] == Drop(p, again) && p in s.blocks
    ensures Inv(Step(s, cfg, Go(t, 0)), cfg, g')
  {
    var pc' := if s.blocks[p].ref == 1 then Release(p, again) else if again then Scan(0) else Idle;
    var s' := SetBlock(SetPc(s, t, pc'), p, s.blocks[p].(ref := s.blocks[p].ref - 1));
    hide PlacesOk, BitsOk, RefsOk, ReleaseOk, Step;
    DropStep(s, cfg, t, p, again);
    HoldersAt(s, g, t, p);
    g' := g.(holders := g.holders[p := g.holders[p] - {Thread(t)} + {}]);
    assert g.holders[p] - {Thread(t)} + {} == g.holders[p] - {Thread(t)};
    DropQuiet(s, s', cfg, g, g', t, p, pc');
    DropRefs(s, s', g, g', t, p, pc');
    DropRelease(s, s', g, g', t, p, again);
  }

  lemma DropRefs(s: State, s': State, g: Layout, g': Layout, t: nat, p: Addr, pc': Pc)
    requires RefsOk(s, g) && t < |s.pcs| && Held(s.pcs[t]) == Some(p) && Held(pc') == None && p in s.blocks
      && p in g.holders
    requires s' == SetBlock(SetPc(s, t, pc'), p, s.blocks[p].(ref := s.blocks[p].ref - 1))
    requires g'.home == g.home && g'.holders == g.holders[p := g.holders[p] - {Thread(t)} + {}]
    ensures RefsOk(s', g')
  {
    hide RefsOk, Held;
    RefsChange(s, s', g, g', p, {Thread(t)}, {});
  }

  lemma DropStep(s: State, cfg: Config, t: nat, p: Addr, again: bool)
    requires t < |s.pcs| && s.pcs[t] == Drop(p, again) && p in s.blocks
    ensures Step(s, cfg, Go(t, 0)) ==
      SetBlock(SetPc(s, t, if s.blocks[p].ref == 1 then Release(p, again) else if again then Scan(0) else Idle),
               p, s.blocks[p].(ref := s.blocks[p].ref - 1))
  {
  }

  lemma DropQuiet(s: State, s': State, cfg: Config, g: Layout, g': Layout, t: nat, p: Addr, pc': Pc)
    requires Inv(s, cfg, g) && t < |s.pcs| && s.pcs[t].Drop? && p in s.blocks
      && (pc'.Release? || pc'.Scan? || pc'.Idle?)
    requires s' == SetBlock(SetPc(s, t, pc'), p, s.blocks[p].(ref := s.blocks[p].ref - 1))
    requires g'.home == g.home && g'.owner == g.owner
    ensures PlacesOk(s', g') && BitsOk(s', cfg, g')
  {
    hide PlacesOk, BitsOk, RefsOk, ReleaseOk;
    Known(s, cfg, g);
    PlacesFrame(s, s', g, g');
    BitsFrame(s, s', cfg, g, g');
  }

  lemma DropRelease(s: State, s': State, g: Layout, g': Layout, t: nat, p: Addr, again: bool)
    requires RefsOk(s, g) && ReleaseOk(s, g) && t < |s.pcs| && s.pcs[t] == Drop(p, again) && p in s.blocks
    requires p in g.holders && Thread(t) in g.holders[p] && g'.holders == g.holders[p := g.holders[p] - {Thread(t)}]
    requires s'.pcs == s.pcs[t := if s.blocks[p].ref == 1 then Release(p, again) else if again then Scan(0) else Idle]
    ensures ReleaseOk(s', g')
  {
    assert |g.holders[p]| == s.blocks[p].ref;
    assert |g.holders[p] - {Thread(t)}| == |g.holders[p]| - 1;
    assert g'.holders[p] == {} <==> s.blocks[p].ref == 1;
    forall q | q in g'.holders && g'.holders[q] == {} ensures Releasing(s', q) {
      if q == p {
        assert s'.pcs[t].Release? && s'.pcs[t].p == p;
      } else {
        assert Releasing(s, q);
        var u :| 0 <= u < |s.pcs| && s.pcs[u].Release? && s.pcs[u].p == q;
        assert s'.pcs[u] == s.pcs[u];
      }
    }
  }

  lemma ReleaseKeeps(s: State, cfg: Config, g: Layout, t: nat) returns (g': Layout)
    requires Inv(s, cfg, g) && t < |s.pcs| && s.pcs[t].Release? && s.pcs[t].p in s.blocks
    ensures Inv(Step(s, cfg, Go(t, 0)), cfg, g')
  {
    var p := s.pcs[t].p;
    ReleasedIsNowhere(s, cfg, g, t);
    hide PlacesOk, BitsOk, RefsOk, ReleaseOk;
    Known(s, cfg, g);
    var s' := Step(s, cfg, Go(t, 0));
    g' := g.(holders := g.holders - {p});
    PlacesFrame(s, s', g, g');
    BitsFrame(s, s', cfg, g, g');
    ReleaseRefs(s, s', g, g', t);
  }

  lemma ReleaseRefs(s: State, s': State, g: Layout, g': Layout, t: nat)
    requires RefsOk(s, g) && ReleaseOk(s, g) && t < |s.pcs| && s.pcs[t].Release? && s.pcs[t].p in s.blocks
    requires s' == SetPc(s, t, if s.pcs[t].again then Scan(0) else Idle).(blocks := s.blocks - {s.pcs[t].p})
    requires g' == g.(holders := g.holders - {s.pcs[t].p})
    ensures RefsOk(s', g') && ReleaseOk(s', g')
  {
    forall q, x ensures Holds(g', q, x) <==> HolderOf(s', g', q, x) {
      assert Holds(g, q, x) <==> HolderOf(s, g, q, x);
    }
    forall q | q in g'.holders && g'.holders[q] == {} ensures Releasing(s', q) {
      assert Releasing(s, q);
      var u :| 0 <= u < |s.pcs| && s.pcs[u].Release? && s.pcs[u].p == q;
      assert s'.pcs[u] == s.pcs[u];
    }
  }

  /** A block whose last reference is gone has no place, no object and no thread at work on it. */
  lemma ReleasedIsNowhere(s: State, cfg: Config, g: Layout, t: nat)
    requires Inv(s, cfg, g) && t < |s.pcs| && s.pcs[t].Release?
    ensures var p := s.pcs[t].p; p in s.blocks && s.blocks[p].ref == 0 && p !in g.home
    ensures forall u :: 0 <= u < |s.pcs| ==> Held(s.pcs[u]) != Some(s.pcs[t].p)
    ensures forall id <- s.objs :: s.objs[id].p != s.pcs[t].p
    ensures forall x <- g.owner :: x.p != s.pcs[t].p
  {
    hide NoDup;
    var p := s.pcs[t].p;
    forall x ensures !HolderOf(s, g, p, x) {
      assert !Holds(g, p, x);
    }
    assert !HolderOf(s, g, p, Cache);
    forall u | 0 <= u < |s.pcs| ensures Held(s.pcs[u]) != Some(p) {
      assert !HolderOf(s, g, p, Thread(u));
    }
    forall id | id in s.objs ensures s.objs[id].p != p {
      assert !HolderOf(s, g, p, Object(id));
    }
  }

  lemma StepKeeps(s: State, cfg: Config, a: Action, g: Layout) returns (g': Layout)
    requires Inv(s, cfg, g) && Enabled(s, a)
    ensures Inv(Step(s, cfg, a), cfg, g')
  {
    hide Inv;
    match a
    case Allocate(t) =>
      QuietKeeps(s, cfg, g, t, Scan(0), Step(s, cfg, a));
      g' := g;
    case Free(t, id) => g' := CallFreeKeeps(s, cfg, g, t, id);
    case Go(t, addr) =>
      var pc := s.pcs[t];
      if pc.Scan? || pc.Popped? || pc.Repush? || pc.Unlinked? || pc.Taken? || pc.New? {
        g' := CacheStepKeeps(s, cfg, t, addr, g);
      } else if pc.Search? || pc.Try? || pc.Claimed? || pc.Clearing? || pc.Drop? || pc.Release? {
        g' := BlockStepKeeps(s, cfg, t, addr, g);
      } else {
        g' := RecycleStepKeeps(s, cfg, t, addr, g);
      }
  }

  lemma CacheStepKeeps(s: State, cfg: Config, t: nat, addr: Addr, g: Layout) returns (g': Layout)
    requires Inv(s, cfg, g) && Enabled(s, Go(t, addr))
    requires var pc := s.pcs[t]; pc.Scan? || pc.Popped? || pc.Repush? || pc.Unlinked? || pc.Taken? || pc.New?
    ensures Inv(Step(s, cfg, Go(t, addr)), cfg, g')
  {
    hide Inv;
    g' := g;
    var s' := Step(s, cfg, Go(t, addr));
    var pc := s.pcs[t];
    if pc.Scan? {
      if pc.n < |s.slots| {
        if s.slots[pc.n].Some? { g' := TakeSlotKeeps(s, cfg, g, t, pc.n); }
        else { QuietKeeps(s, cfg, g, t, Scan(pc.n + 1), s'); }
      } else if s.recycled == [] {
        QuietKeeps(s, cfg, g, t, New, s');
      } else {
        g' := PopAllKeeps(s, cfg, g, t);
      }
    } else if pc.Popped? {
      if s.recycled == [] { g' := PutRestKeeps(s, cfg, g, t); }
      else { QuietKeeps(s, cfg, g, t, Repush(pc.p, pc.rest), s'); }
    } else if pc.Repush? {
      if pc.rest == [] { QuietKeeps(s, cfg, g, t, Unlinked(pc.p), s'); } else { g' := RepushKeeps(s, cfg, g, t); }
    } else if pc.Unlinked? {
      QuietKeeps(s, cfg, g, t, Taken(pc.p), s');
    } else if pc.Taken? {
      g' := UnmanageKeeps(s, cfg, g, t, pc.p);
    } else {
      g' := NewBlockKeeps(s, cfg, g, t, addr);
    }
  }

  lemma BlockStepKeeps(s: State, cfg: Config, t: nat, addr: Addr, g: Layout) returns (g': Layout)
    requires Inv(s, cfg, g) && Enabled(s, Go(t, addr))
    requires var pc := s.pcs[t]; pc.Search? || pc.Try? || pc.Claimed? || pc.Clearing? || pc.Drop? || pc.Release?
    ensures Inv(Step(s, cfg, Go(t, addr)), cfg, g')
  {
    hide Inv;
    g' := g;
    assert Enabled(s, Go(t, 0));
    assert Step(s, cfg, Go(t, addr)) == Step(s, cfg, Go(t, 0));
    var pc := s.pcs[t];
    if pc.Search? {
      var s' := Step(s, cfg, Go(t, addr));
      QuietKeeps(s, cfg, g, t, s'.pcs[t], s');
    } else {
      hide Step;
      if pc.Try? {
        g' := SetBitKeeps(s, cfg, g, t, pc.p, pc.n, pc.b);
      } else if pc.Claimed? {
        g' := CountObjectKeeps(s, cfg, g, t, pc.p, pc.b);
      } else if pc.Clearing? {
        g' := ClearBitKeeps(s, cfg, g, t, pc.p, pc.b);
      } else if pc.Drop? {
        g' := DropKeeps(s, cfg, g, t, pc.p, pc.again);
      } else {
        g' := ReleaseKeeps(s, cfg, g, t);
      }
    }
  }

  lemma RecycleStepKeeps(s: State, cfg: Config, t: nat, addr: Addr, g: Layout) returns (g': Layout)
    requires Inv(s, cfg, g) && Enabled(s, Go(t, addr))
    requires var pc := s.pcs[t]; pc.LoadManaged? || pc.LoadCount? || pc.SetManaged? || pc.Listing? || pc.Pushing?
    ensures Inv(Step(s, cfg, Go(t, addr)), cfg, g')
  {
    hide Inv;
    g' := g;
    var s' := Step(s, cfg, Go(t, addr));
    var pc := s.pcs[t];
    if pc.SetManaged? {
      if s.blocks[pc.p].managed {
        assert s.blocks[pc.p := s.blocks[pc.p].(managed := true)] == s.blocks;
        QuietKeeps(s, cfg, g, t, Drop(pc.p, false), s');
      } else {
        g' := ManageKeeps(s, cfg, g, t, pc.p);
      }
    } else if pc.Pushing? {
      g' := ListKeeps(s, cfg, g, t, pc.p, Recycled, s');
    } else if pc.Listing? && pc.n < |s.slots| && s.slots[pc.n].None? {
      g' := ListKeeps(s, cfg, g, t, pc.p, InSlot(pc.n), s');
    } else {
      QuietKeeps(s, cfg, g, t, s'.pcs[t], s');
    }
  }

  // ---- whole runs --------------------------------------------------------------------------

  lemma {:induction false} RunInv(states: seq<State>, cfg: Config, acts: seq<Action>, k: nat) returns (g: Layout)
    requires Run(states, cfg, acts) && k < |states|
    ensures Inv(states[k], cfg, g)
  {
    hide Inv, Step, Enabled;
    if k == 0 {
      g := InitialInv(states[0], cfg);
    } else {
      g := RunInv(states, cfg, acts, k - 1);
      g := StepKeeps(states[k - 1], cfg, acts[k - 1], g);
    }
  }

  lemma InitialInv(s: State, cfg: Config) returns (g: Layout)
    requires Initial(s)
    ensures Inv(s, cfg, g)
  {
    g := Layout(map[], map[], map[]);
  }

  ghost function ObjectsOf(s: State, p: Addr): set<Id> {
    set id <- s.objs | s.objs[id].p == p
  }

  ghost function ThreadsOn(s: State, p: Addr): set<int> {
    set t | 0 <= t < |s.pcs| && Held(s.pcs[t]) == Some(p)
  }

  /** In one of the control block slots, on the recycled list, or on its way back to that list. */
  ghost predicate Listed(s: State, p: Addr) {
    || (exists n :: 0 <= n < |s.slots| && s.slots[n] == Some(p))
    || p in s.recycled
    || (exists t :: 0 <= t < |s.pcs| && p in RestOf(s.pcs[t]))
  }

  /** The reference count of every block is the number of its objects, plus the threads that hold it,
      plus one if it is listed. */
  lemma CountIsExact(states: seq<State>, cfg: Config, acts: seq<Action>, k: nat, p: Addr)
    requires Run(states, cfg, acts) && k < |states| && p in states[k].blocks
    ensures var s := states[k];
      s.blocks[p].ref == |ObjectsOf(s, p)| + |ThreadsOn(s, p)| + (if Listed(s, p) then 1 else 0)
  {
    var s := states[k];
    var g := RunInv(states, cfg, acts, k);
    ListedIsCached(s, cfg, g, p);
    HoldersByKind(s, g, p);
  }

  lemma ListedIsCached(s: State, cfg: Config, g: Layout, p: Addr)
    requires Inv(s, cfg, g)
    ensures Listed(s, p) <==> InCache(g, p)
  {
    hide BitsOk, RefsOk, ReleaseOk, NoDup;
    if Listed(s, p) {
      if t :| 0 <= t < |s.pcs| && p in RestOf(s.pcs[t]) { assert ThreadPlaces(s, g, t); }
    }
    if InCache(g, p) { assert Located(s, p, g.home[p]); }
  }

  lemma HoldersByKind(s: State, g: Layout, p: Addr)
    requires RefsOk(s, g) && p in s.blocks
    ensures s.blocks[p].ref == |ObjectsOf(s, p)| + |ThreadsOn(s, p)| + (if InCache(g, p) then 1 else 0)
  {
    ObjectHolders(s, g, p);
    ThreadHolders(s, g, p);
    CacheHolder(s, g, p);
    hide ObjectsOf, ThreadsOn, HolderOf;
    ThreeKinds(g.holders[p]);
  }

  lemma ThreeKinds(h: set<Holder>)
    ensures |h| == |(set x <- h | x.Object?)| + |(set x <- h | x.Thread?)| + |(set x <- h | x.Cache?)|
  {
    var a, b, c := set x <- h | x.Object?, set x <- h | x.Thread?, set x <- h | x.Cache?;
    assert h == a + b + c;
  }

  lemma ObjectHolders(s: State, g: Layout, p: Addr)
    requires RefsOk(s, g) && p in s.blocks
    ensures |(set x <- g.holders[p] | x.Object?)| == |ObjectsOf(s, p)|
  {
    hide Held;
    var a := set x <- g.holders[p] | x.Object?;
    var b := set x <- ObjectsOf(s, p) :: Object(x);
    forall x ensures x in a <==> x in b {
      assert Holds(g, p, x) <==> HolderOf(s, g, p, x);
    }
    assert a == b;
    ObjectsSize(ObjectsOf(s, p));
  }

  lemma ThreadHolders(s: State, g: Layout, p: Addr)
    requires RefsOk(s, g) && p in s.blocks
    ensures |(set x <- g.holders[p] | x.Thread?)| == |ThreadsOn(s, p)|
  {
    hide Held;
    var a := set x <- g.holders[p] | x.Thread?;
    var b := set x <- ThreadsOn(s, p) :: Thread(x);
    forall x ensures x in a <==> x in b {
      assert Holds(g, p, x) <==> HolderOf(s, g, p, x);
    }
    assert a == b;
    ThreadsSize(ThreadsOn(s, p));
  }

  lemma CacheHolder(s: State, g: Layout, p: Addr)
    requires RefsOk(s, g) && p in s.blocks
    ensures |(set x <- g.holders[p] | x.Cache?)| == if InCache(g, p) then 1 else 0
  {
    assert Holds(g, p, Cache) <==> HolderOf(s, g, p, Cache);
    assert (set x <- g.holders[p] | x.Cache?) == if InCache(g, p) then {Cache} else {};
  }

  lemma {:induction false} ObjectsSize(a: set<Id>)
    ensures |set x <- a :: Object(x)| == |a|
  {
    if a != {} {
      var x := Pick(a);
      ObjectsSize(a - {x});
      assert (set y <- a :: Object(y)) == (set y <- a - {x} :: Object(y)) + {Object(x)};
    }
  }

  lemma {:induction false} ThreadsSize(a: set<int>)
    ensures |set x <- a :: Thread(x)| == |a|
  {
    if a != {} {
      var x := Pick(a);
      ThreadsSize(a - {x});
      assert (set y <- a :: Thread(y)) == (set y <- a - {x} :: Thread(y)) + {Thread(x)};
    }
  }

  /** No two live objects share a slot, and every live object lies inside a block in use. */
  lemma SlotsAreExclusive(states: seq<State>, cfg: Config, acts: seq<Action>, k: nat, i: Id, j: Id)
    requires Run(states, cfg, acts) && k < |states| && i in states[k].objs && j in states[k].objs
    ensures var s := states[k];
      && (i != j ==> s.objs[i] != s.objs[j])
      && s.objs[i].p in s.blocks && s.objs[i].b in s.blocks[s.objs[i].p].bits
      && s.objs[i].b + cfg.offset < cfg.itemCount
  {
    var g := RunInv(states, cfg, acts, k);
    hide PlacesOk, RefsOk, ReleaseOk;
  }

  /** A block goes back to the root allocator only when nothing refers to it any more, and then once. */
  lemma ReleasedOnlyWhenUnused(states: seq<State>, cfg: Config, acts: seq<Action>, k: nat, t: nat)
    requires Run(states, cfg, acts) && k < |states| && t < |states[k].pcs| && states[k].pcs[t].Release?
    ensures var s := states[k]; var p := s.pcs[t].p;
      && p in s.blocks && s.blocks[p].ref == 0 && !Listed(s, p)
      && (forall id <- s.objs :: s.objs[id].p != p)
      && forall u :: 0 <= u < |s.pcs| && u != t ==> Target(s.pcs[u]) != Some(p)
  {
    var s := states[k];
    var g := RunInv(states, cfg, acts, k);
    ReleasedIsNowhere(s, cfg, g, t);
    ListedIsCached(s, cfg, g, s.pcs[t].p);
    hide PlacesOk, RefsOk, BitsOk;
    forall u | 0 <= u < |s.pcs| && u != t ensures Target(s.pcs[u]) != Some(s.pcs[t].p) {
      assert Held(s.pcs[u]) != Some(s.pcs[t].p);
    }
  }

  /** No step of a call in progress ever meets a block that has been given back; the flag asserted
      set when a block leaves the recycled list is set. */
  lemma NoUseAfterRelease(states: seq<State>, cfg: Config, acts: seq<Action>, k: nat, t: nat)
    requires Run(states, cfg, acts) && k < |states| && t < |states[k].pcs|
    ensures var s := states[k]; var pc := s.pcs[t];
      && (Target(pc).Some? ==> Target(pc).value in s.blocks)
      && (Held(pc).Some? ==> s.blocks[Held(pc).value].ref >= 1)
      && (TakerOf(pc).Some? ==> s.blocks[TakerOf(pc).value].managed)
  {
    var s := states[k];
    var g := RunInv(states, cfg, acts, k);
    if Held(s.pcs[t]).Some? { HoldersAt(s, g, t, Held(s.pcs[t]).value); }
    if s.pcs[t].Release? { ReleasedIsNowhere(s, cfg, g, t); }
    hide BitsOk, RefsOk, ReleaseOk, NoDup;
    assert ThreadPlaces(s, g, t);
  }

  /** No block is forgotten: one without references is just being given back. */
  lemma NoLeak(states: seq<State>, cfg: Config, acts: seq<Action>, k: nat, p: Addr)
    requires Run(states, cfg, acts) && k < |states| && p in states[k].blocks && states[k].blocks[p].ref == 0
    ensures Releasing(states[k], p)
  {
    var g := RunInv(states, cfg, acts, k);
    hide PlacesOk, BitsOk;
  }
}
