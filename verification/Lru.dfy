/**
 The LRU cache with time to live (`lru_cache_t`): a list of keys, most recently used first, a map of
 entries and a map of list positions, kept in step by `set` and `get`.  Clock readings are arguments.
 */
module Lru {
  import opened Collections

  datatype Entry = Entry(value: string, expire: real)   // expire 0: never

  /** One node of the list; `id` stands for its address. */
  datatype Node = Node(id: nat, key: string)

  /** The cache without its list positions. */
  datatype Model = Model(keys: seq<string>, entries: map<string, Entry>)

  datatype Answer = Answer(hit: bool, value: string, remain: real)

  function Keys(lru: seq<Node>): seq<string> {
    seq(|lru|, i requires 0 <= i < |lru| => lru[i].key)
  }

  /** List and entries describe the same keys, once each, within the capacity. */
  ghost predicate Fit(m: Model, max: nat) {
    NoDup(m.keys) && KeySet(m.keys) == m.entries.Keys && |m.keys| <= max
  }

  function KeySet(s: seq<string>): set<string> {
    set k <- s
  }

  function IndexOf(keys: seq<string>, k: string): (i: nat)
    requires k in keys
    ensures i < |keys| && keys[i] == k
  {
    if keys[0] == k then 0 else 1 + IndexOf(keys[1..], k)
  }

  function Without<T>(s: seq<T>, i: nat): seq<T>
    requires i < |s|
  {
    s[..i] + s[i + 1..]
  }

  function Expiry(ttl: real, now: real): real {
    if ttl > 0.0 then now + ttl else 0.0
  }

  predicate Expired(e: Entry, now: real) {
    e.expire > 0.0 && now >= e.expire
  }

  /** What `set` does. */
  function SetSpec(m: Model, max: nat, k: string, e: Entry): Model
    requires k in m.entries ==> k in m.keys
  {
    if k in m.entries then Model([k] + Without(m.keys, IndexOf(m.keys, k)), m.entries[k := e])
    else if |m.entries| >= max && m.keys != [] then
      Model([k] + m.keys[..|m.keys| - 1], (m.entries - {m.keys[|m.keys| - 1]})[k := e])
    else Model([k] + m.keys, m.entries[k := e])
  }

  /** What `get` does to the cache, and what it answers. */
  function GetSpec(m: Model, k: string, now: real): (Model, Answer)
    requires k in m.entries ==> k in m.keys
  {
    if k !in m.entries then (m, Answer(false, "", 0.0))
    else
      var e := m.entries[k];
      var others := Without(m.keys, IndexOf(m.keys, k));
      if Expired(e, now) then (Model(others, m.entries - {k}), Answer(false, "", 0.0))
      else (Model([k] + others, m.entries), Answer(true, e.value, if e.expire > 0.0 then e.expire - now else 0.0))
  }

  lemma {:induction false} NoDupSize(s: seq<string>)
    requires NoDup(s)
    ensures |KeySet(s)| == |s|
  {
    if s != [] {
      NoDupSize(s[1..]);
      assert KeySet(s) == KeySet(s[1..]) + {s[0]};
    }
  }

  lemma IndexUnique(keys: seq<string>, i: nat)
    requires NoDup(keys) && i < |keys|
    ensures IndexOf(keys, keys[i]) == i
  {
  }

  lemma SetKeepsFit(m: Model, max: nat, k: string, e: Entry)
    requires Fit(m, max) && max >= 1
    ensures |m.entries| == |m.keys| && (k in m.entries ==> k in m.keys)
    ensures Fit(SetSpec(m, max, k, e), max)
  {
    NoDupSize(m.keys);
  }

  lemma GetKeepsFit(m: Model, max: nat, k: string, now: real)
    requires Fit(m, max)
    ensures (k in m.entries ==> k in m.keys) && Fit(GetSpec(m, k, now).0, max)
  {
  }

  /** Every iterator points at its key's node, and no two at the same. */
  ghost predicate Linked(lru: seq<Node>, iters: map<string, nat>, nextId: nat) {
    && NoDup(Keys(lru)) && iters.Keys == KeySet(Keys(lru))
    && (forall n <- lru :: n.id < nextId && n.key in iters && iters[n.key] == n.id)
    && (forall j, k :: j in iters && k in iters && iters[j] == iters[k] ==> j == k)
  }

  lemma NoDupMoved<T>(s: seq<T>, i: nat)
    requires NoDup(s) && i < |s|
    ensures NoDup(Without(s, i)) && s[i] !in Without(s, i) && NoDup([s[i]] + Without(s, i))
  {
  }

  lemma SameElements<T>(s: seq<T>, i: nat)
    requires i < |s|
    ensures forall x :: x in s <==> x == s[i] || x in Without(s, i)
  {
    assert s == s[..i] + [s[i]] + s[i + 1..];
  }

  lemma KeysWithout(lru: seq<Node>, i: nat)
    requires i < |lru|
    ensures |Keys(lru)| == |lru| && Keys(Without(lru, i)) == Without(Keys(lru), i) && Keys(lru)[i] == lru[i].key
    ensures Keys([lru[i]] + Without(lru, i)) == [lru[i].key] + Without(Keys(lru), i)
  {
  }

  /** splice to the front. */
  lemma Spliced(lru: seq<Node>, iters: map<string, nat>, nextId: nat, i: nat)
    requires Linked(lru, iters, nextId) && i < |lru|
    ensures var lru' := [lru[i]] + Without(lru, i);
      Linked(lru', iters, nextId) && Keys(lru') == [lru[i].key] + Without(Keys(lru), i)
  {
    hide Keys, NoDup, Without;
    KeysWithout(lru, i);
    SameElements(lru, i);
    SameElements(Keys(lru), i);
    NoDupMoved(Keys(lru), i);
  }

  lemma Erased(lru: seq<Node>, iters: map<string, nat>, nextId: nat, i: nat)
    requires Linked(lru, iters, nextId) && i < |lru|
    ensures Linked(Without(lru, i), iters - {lru[i].key}, nextId) && Keys(Without(lru, i)) == Without(Keys(lru), i)
  {
    hide NoDup, Without;
    KeysWithout(lru, i);
    SameElements(lru, i);
    SameElements(Keys(lru), i);
    NoDupMoved(Keys(lru), i);
    var rest := Without(lru, i);
    forall n | n in rest ensures n.key != lru[i].key {
      var j :| 0 <= j < |rest| && rest[j] == n;
      assert Keys(rest)[j] == n.key;
    }
  }

  lemma Pushed(lru: seq<Node>, iters: map<string, nat>, nextId: nat, key: string)
    requires Linked(lru, iters, nextId) && key !in iters
    ensures var lru' := [Node(nextId, key)] + lru;
      Linked(lru', iters[key := nextId], nextId + 1) && Keys(lru') == [key] + Keys(lru)
  {
    var lru' := [Node(nextId, key)] + lru;
    assert Keys(lru') == [key] + Keys(lru);
    forall k ensures k in KeySet(Keys(lru')) <==> k == key || k in KeySet(Keys(lru)) {
    }
  }

  /** The node an iterator denotes. */
  lemma Denoted(lru: seq<Node>, iters: map<string, nat>, nextId: nat, key: string) returns (i: nat)
    requires Linked(lru, iters, nextId) && key in iters
    ensures key in Keys(lru) && i == IndexOf(Keys(lru), key) && i < |lru| && lru[i] == Node(iters[key], key)
    ensures forall j :: 0 <= j < |lru| && lru[j].id == iters[key] ==> j == i
  {
    var keys := Keys(lru);
    assert key in KeySet(keys);
    i := IndexOf(keys, key);
    assert lru[i].key == key;
    forall j | 0 <= j < |lru| && lru[j].id == iters[key] ensures j == i {
      assert lru[j].key == key;
      assert keys[j] == keys[i];
    }
  }

  // ---- the class -------------------------------------------------------------------------------

  class Cache {
    const maxEntries: nat
    var hits: nat
    var misses: nat
    var evictions: nat
    var lru: seq<Node>
    var entries: map<string, Entry>
    var iters: map<string, nat>
    var nextId: nat

    /** The three collections describe the same keys, and every iterator points at its key's node. */
    ghost predicate Valid()
      reads this
    {
      maxEntries >= 1 && Fit(Abstract(), maxEntries) && Linked(lru, iters, nextId)
    }

    ghost function Abstract(): Model
      reads this
    {
      Model(Keys(lru), entries)
    }

    constructor (maxEntries: nat)
      requires maxEntries >= 1
      ensures Valid() && Abstract() == Model([], map[]) && this.maxEntries == maxEntries
      ensures hits == 0 && misses == 0 && evictions == 0
    {
      this.maxEntries := maxEntries;
      hits, misses, evictions, nextId := 0, 0, 0, 0;
      lru, entries, iters := [], map[], map[];
    }

    /** Dereference iters[key]. */
    method Find(key: string) returns (i: nat)
      requires Valid() && key in iters
      ensures i < |lru| && key in Keys(lru) && i == IndexOf(Keys(lru), key) && lru[i] == Node(iters[key], key)
    {
      hide Linked, IndexOf;
      ghost var at := Denoted(lru, iters, nextId, key);
      i := 0;
      while lru[i].id != iters[key]
        invariant 0 <= i <= at
        decreases at - i
      {
        i := i + 1;
      }
    }

    /** Remove the least recently used key. */
    method Evict()
      requires Linked(lru, iters, nextId) && lru != []
      modifies this`lru, this`entries, this`iters, this`evictions
      ensures var keys := old(Keys(lru)); var victim := old(lru[|lru| - 1].key);
        && Linked(lru, iters, nextId) && |keys| > 0 && Keys(lru) == Without(keys, |keys| - 1)
        && entries == old(entries) - {victim} && iters == old(iters) - {victim} && evictions == old(evictions) + 1
    {
      hide Linked;
      var victim := lru[|lru| - 1].key;
      Erased(lru, iters, nextId, |lru| - 1);
      lru := Without(lru, |lru| - 1);
      entries := entries - {victim};
      iters := iters - {victim};
      evictions := evictions + 1;
    }

    /** `set`. */
    method Set(key: string, value: string, ttl: real, now: real)
      requires Valid()
      modifies this
      ensures Valid() && hits == old(hits) && misses == old(misses)
      ensures old(key in entries ==> key in Keys(lru))
      ensures Abstract() == SetSpec(old(Abstract()), maxEntries, key, Entry(value, Expiry(ttl, now)))
      ensures evictions == old(evictions) + if old(key !in entries && |entries| >= maxEntries) then 1 else 0
    {
      hide Linked, Fit, Keys, KeySet, IndexOf;
      ghost var m := Abstract();
      var e := Entry(value, Expiry(ttl, now));
      SetKeepsFit(m, maxEntries, key, e);
      SameDomain(m, lru, iters, nextId, maxEntries);
      if key in entries {
        var i := Find(key);
        entries := entries[key := e];
        Spliced(lru, iters, nextId, i);
        lru := [lru[i]] + Without(lru, i);
        return;
      }
      if |entries| >= maxEntries {
        Evict();
      }
      entries := entries[key := e];
      Pushed(lru, iters, nextId, key);
      lru := [Node(nextId, key)] + lru;
      iters := iters[key := nextId];
      nextId := nextId + 1;
    }

    /** `get`. */
    method Get(key: string, now: real) returns (a: Answer)
      requires Valid()
      modifies this
      ensures Valid() && evictions == old(evictions)
      ensures old(key in entries ==> key in Keys(lru))
      ensures (Abstract(), a) == GetSpec(old(Abstract()), key, now)
      ensures hits == old(hits) + (if a.hit then 1 else 0) && misses == old(misses) + if a.hit then 0 else 1
    {
      hide Linked, Fit, Keys, KeySet, IndexOf;
      ghost var m := Abstract();
      GetKeepsFit(m, maxEntries, key, now);
      SameDomain(m, lru, iters, nextId, maxEntries);
      if key !in entries {
        misses := misses + 1;
        return Answer(false, "", 0.0);
      }
      var i := Find(key);
      if Expired(entries[key], now) {
        Erased(lru, iters, nextId, i);
        entries := entries - {key};
        lru := Without(lru, i);
        iters := iters - {key};
        misses := misses + 1;
        return Answer(false, "", 0.0);
      }
      hits := hits + 1;
      Spliced(lru, iters, nextId, i);
      lru := [lru[i]] + Without(lru, i);
      a := Answer(true, entries[key].value, if entries[key].expire > 0.0 then entries[key].expire - now else 0.0);
    }
  }

  lemma SameDomain(m: Model, lru: seq<Node>, iters: map<string, nat>, nextId: nat, max: nat)
    requires Fit(m, max) && m.keys == Keys(lru) && Linked(lru, iters, nextId)
    ensures iters.Keys == m.entries.Keys && |lru| == |m.keys| == |m.entries|
    ensures lru != [] ==> lru[|lru| - 1].key == m.keys[|m.keys| - 1]
    ensures lru != [] ==> Without(m.keys, |m.keys| - 1) == m.keys[..|m.keys| - 1]
  {
    NoDupSize(m.keys);
  }

  // ---- histories -------------------------------------------------------------------------------

  datatype Op = SetOp(k: string, value: string, ttl: real, now: real) | GetOp(k: string, now: real)

  /** The cache after a history, and the answer to its last operation (empty for a set). */
  ghost function Apply(m: Model, max: nat, op: Op): (Model, Answer) {
    match op
    case SetOp(k, v, ttl, now) =>
      (if k in m.entries ==> k in m.keys then SetSpec(m, max, k, Entry(v, Expiry(ttl, now)))
        else m, Answer(false, "", 0.0))
    case GetOp(k, now) =>
      if k in m.entries ==> k in m.keys then GetSpec(m, k, now) else (m, Answer(false, "", 0.0))
  }

  ghost function After(ops: seq<Op>, max: nat): Model {
    if ops == [] then Model([], map[]) else Apply(After(ops[..|ops| - 1], max), max, ops[|ops| - 1]).0
  }

  /** The answer to operation `op` after a history. */
  ghost function Reply(ops: seq<Op>, max: nat, op: Op): Answer {
    Apply(After(ops, max), max, op).1
  }

  /** What a history says about a key: the value last set, its time to live, the time of that set, and
      the other keys set or hit since the key itself was last set or hit. */
  datatype Story = Unknown | Known(value: string, ttl: real, since: real, others: set<string>)

  ghost function StoryOf(ops: seq<Op>, max: nat, k: string): Story {
    if ops == [] then Unknown
    else
      var before := ops[..|ops| - 1];
      var op := ops[|ops| - 1];
      var touched := op.SetOp? || Reply(before, max, op).hit;
      var s := StoryOf(before, max, k);
      if op.SetOp? && op.k == k then Known(op.value, op.ttl, op.now, {})
      else if s.Unknown? || !touched then s
      else if op.k == k then s.(others := {}) else s.(others := s.others + {op.k})
  }

  /** Time does not run backwards. */
  ghost predicate Timely(ops: seq<Op>) {
    && (forall i :: 0 <= i < |ops| ==> ops[i].now >= 0.0)
    && (forall i, j :: 0 <= i < j < |ops| ==> ops[i].now <= ops[j].now)
  }

  /** The keys in front of `k`. */
  ghost function Front(keys: seq<string>, k: string): set<string>
    requires k in keys
  {
    KeySet(keys[..IndexOf(keys, k)])
  }

  /** The entry a history with this story leaves behind. */
  ghost predicate Holds(e: Entry, value: string, ttl: real, since: real) {
    e.value == value && since >= 0.0 && e.expire == if ttl > 0.0 then since + ttl else 0.0
  }

  /** The entry of `k` is the one last set, and everything in front of it was used since. */
  ghost predicate Agrees(m: Model, k: string, s: Story) {
    && s.Known? && k in m.entries && k in m.keys && Holds(m.entries[k], s.value, s.ttl, s.since)
    && Front(m.keys, k) <= s.others && k !in s.others
  }

  lemma {:induction false} AfterFits(ops: seq<Op>, max: nat)
    requires max >= 1
    ensures Fit(After(ops, max), max)
  {
    if ops != [] {
      var m, op := After(ops[..|ops| - 1], max), ops[|ops| - 1];
      AfterFits(ops[..|ops| - 1], max);
      hide Fit;
      match op
      case SetOp(k, v, ttl, now) => SetKeepsFit(m, max, k, Entry(v, Expiry(ttl, now)));
      case GetOp(k, now) => GetKeepsFit(m, max, k, now);
    }
  }

  lemma FrontPushed(keys: seq<string>, j: string, k: string)
    requires k in keys && j != k
    ensures k in [j] + keys && Front([j] + keys, k) == Front(keys, k) + {j}
  {
    assert ([j] + keys)[1..] == keys;
    var i := IndexOf(keys, k);
    assert ([j] + keys)[..i + 1] == [j] + keys[..i];
  }

  lemma FrontFirst(keys: seq<string>, k: string)
    ensures k in [k] + keys && Front([k] + keys, k) == {}
  {
  }

  lemma FrontWithout(keys: seq<string>, i: nat, k: string)
    requires NoDup(keys) && i < |keys| && k in keys && keys[i] != k
    ensures k in Without(keys, i) && Front(Without(keys, i), k) <= Front(keys, k)
  {
    var p := IndexOf(keys, k);
    var rest := Without(keys, i);
    var q := if p < i then p else p - 1;
    assert rest[q] == k;
    NoDupMoved(keys, i);
    IndexUnique(rest, q);
    assert rest[..q] == if p < i then keys[..p] else keys[..i] + keys[i + 1..p];
  }

  /** Everything but the last key is in front of it. */
  lemma FrontOfLast(keys: seq<string>)
    requires NoDup(keys) && keys != []
    ensures Front(keys, keys[|keys| - 1]) == KeySet(keys) - {keys[|keys| - 1]}
      && |Front(keys, keys[|keys| - 1])| == |keys| - 1
  {
    IndexUnique(keys, |keys| - 1);
    NoDupSize(keys[..|keys| - 1]);
  }

  /** What a set of another key does to `k`. */
  lemma SetOther(m: Model, max: nat, j: string, e: Entry, k: string, s: Story)
    requires Fit(m, max) && max >= 1 && j != k && Agrees(m, k, s)
    ensures (j in m.entries ==> j in m.keys) && var m' := SetSpec(m, max, j, e); var s' := s.(others := s.others + {j});
      if k in m'.entries then Agrees(m', k, s') else |s'.others| >= max
  {
    hide Front, Holds;
    SetKeepsFit(m, max, j, e);
    if j in m.entries {
      var i := IndexOf(m.keys, j);
      FrontWithout(m.keys, i, k);
      FrontPushed(Without(m.keys, i), j, k);
    } else if |m.entries| >= max {
      EvictOther(m, max, j, e, k, s);
    } else {
      FrontPushed(m.keys, j, k);
    }
  }

  lemma EvictOther(m: Model, max: nat, j: string, e: Entry, k: string, s: Story)
    requires Fit(m, max) && max >= 1 && j != k && Agrees(m, k, s) && j !in m.entries && |m.keys| == |m.entries| >= max
    ensures var m' := SetSpec(m, max, j, e); var s' := s.(others := s.others + {j});
      if k in m'.entries then Agrees(m', k, s') else |s'.others| >= max
  {
    hide Front, Holds;
    var last := |m.keys| - 1;
    if m.keys[last] == k {
      EvictSelf(m, max, j, k, s);
    } else {
      assert Without(m.keys, last) == m.keys[..last];
      FrontWithout(m.keys, last, k);
      FrontPushed(m.keys[..last], j, k);
    }
  }

  lemma EvictSelf(m: Model, max: nat, j: string, k: string, s: Story)
    requires Fit(m, max) && j != k && Agrees(m, k, s) && j !in m.entries && |m.keys| >= max >= 1
      && m.keys[|m.keys| - 1] == k
    ensures |s.others + {j}| >= max
  {
    FrontOfLast(m.keys);
    hide Front, Holds;
    assert j !in KeySet(m.keys);
    SubsetSize(Front(m.keys, k) + {j}, s.others + {j});
  }

  /** What a get of another key does to `k`. */
  lemma GetOther(m: Model, max: nat, j: string, now: real, k: string, s: Story)
    requires Fit(m, max) && j != k && Agrees(m, k, s)
    ensures (j in m.entries ==> j in m.keys)
    ensures var (m', a) := GetSpec(m, j, now);
      k in m'.entries && Agrees(m', k, if a.hit then s.(others := s.others + {j}) else s)
  {
    hide Front, Holds;
    GetKeepsFit(m, max, j, now);
    if j in m.entries {
      var i := IndexOf(m.keys, j);
      FrontWithout(m.keys, i, k);
      FrontPushed(Without(m.keys, i), j, k);
    }
  }

  /** The time to live of the last set is unlimited or not yet over. */
  predicate InTime(s: Story, now: real)
    requires s.Known?
  {
    s.ttl <= 0.0 || now < s.since + s.ttl
  }

  ghost predicate Live(s: Story, max: nat, now: real) {
    s.Known? && |s.others| < max && InTime(s, now)
  }

  ghost function LastTime(ops: seq<Op>): real {
    if ops == [] then 0.0 else ops[|ops| - 1].now
  }

  /** Cache and history agree about every key: what is stored is what was last set, and what should
      still be there is. */
  lemma {:induction false} CacheTellsHistory(ops: seq<Op>, max: nat, k: string)
    requires max >= 1 && Timely(ops)
    ensures var m, s := After(ops, max), StoryOf(ops, max, k);
      (k in m.entries ==> Agrees(m, k, s)) && (Live(s, max, LastTime(ops)) ==> k in m.entries)
  {
    if ops != [] {
      var before, op := ops[..|ops| - 1], ops[|ops| - 1];
      var m := After(before, max);
      AfterFits(before, max);
      CacheTellsHistory(before, max, k);
      assert 0.0 <= LastTime(before) <= op.now;
      hide Agrees, Fit;
      if op.k == k { OwnOp(before, op, max, k); } else { OtherOp(before, op, max, k); }
      assert ops == before + [op];
    }
  }

  lemma OwnOp(before: seq<Op>, op: Op, max: nat, k: string)
    requires max >= 1 && op.k == k && 0.0 <= LastTime(before) <= op.now && Fit(After(before, max), max)
    requires var m, s := After(before, max), StoryOf(before, max, k);
      (k in m.entries ==> Agrees(m, k, s)) && (Live(s, max, LastTime(before)) ==> k in m.entries)
    ensures var m, s := After(before + [op], max), StoryOf(before + [op], max, k);
      (k in m.entries ==> Agrees(m, k, s)) && (Live(s, max, op.now) ==> k in m.entries)
  {
    var m := After(before, max);
    assert (before + [op])[..|before|] == before;
    if op.SetOp? {
      SetKeepsFit(m, max, k, Entry(op.value, Expiry(op.ttl, op.now)));
      FrontFirst(After(before + [op], max).keys[1..], k);
    } else {
      GetKeepsFit(m, max, k, op.now);
      if k in m.entries { FrontFirst(Without(m.keys, IndexOf(m.keys, k)), k); }
    }
  }

  lemma OtherOp(before: seq<Op>, op: Op, max: nat, k: string)
    requires max >= 1 && op.k != k && LastTime(before) <= op.now && Fit(After(before, max), max)
    requires var m, s := After(before, max), StoryOf(before, max, k);
      (k in m.entries ==> Agrees(m, k, s)) && (Live(s, max, LastTime(before)) ==> k in m.entries)
    ensures var m, s := After(before + [op], max), StoryOf(before + [op], max, k);
      (k in m.entries ==> Agrees(m, k, s)) && (Live(s, max, op.now) ==> k in m.entries)
  {
    var m, s := After(before, max), StoryOf(before, max, k);
    assert (before + [op])[..|before|] == before;
    if op.SetOp? {
      var e := Entry(op.value, Expiry(op.ttl, op.now));
      SetKeepsFit(m, max, op.k, e);
      if k in m.entries { SetOther(m, max, op.k, e, k, s); }
    } else {
      GetKeepsFit(m, max, op.k, op.now);
      if k in m.entries { GetOther(m, max, op.k, op.now, k, s); }
    }
    if s.Known? { SubsetSize(s.others, s.others + {op.k}); }
    hide SetSpec, GetSpec, Front, IndexOf;
  }

  /** If fewer other keys than the cache holds were set or hit since, a get hits exactly while the time
      to live of the last set is unlimited or not over; a hit is always the value last set, in time, with
      the time that remains. */
  lemma GetIsFaithful(ops: seq<Op>, max: nat, k: string, now: real)
    requires max >= 1 && Timely(ops + [GetOp(k, now)])
    ensures var a, s := Reply(ops, max, GetOp(k, now)), StoryOf(ops, max, k);
      && (s.Known? && |s.others| < max ==> (a.hit <==> s.ttl <= 0.0 || now < s.since + s.ttl))
      && (a.hit ==> s.Known? && a.value == s.value && (s.ttl <= 0.0 || now < s.since + s.ttl)
                    && a.remain == if s.ttl > 0.0 then s.since + s.ttl - now else 0.0)
  {
    var all := ops + [GetOp(k, now)];
    assert forall i :: 0 <= i < |ops| ==> ops[i] == all[i];
    assert ops != [] ==> all[|ops| - 1].now <= all[|ops|].now;
    assert now == all[|ops|].now;
    AfterFits(ops, max);
    CacheTellsHistory(ops, max, k);
    GetKeepsFit(After(ops, max), max, k, now);
  }

  /** Drive a cache through a history: the answers are those of the history. */
  method Replay(ops: seq<Op>, maxEntries: nat) returns (cache: Cache, answers: seq<Answer>)
    requires maxEntries >= 1
    ensures cache.Valid() && cache.maxEntries == maxEntries && cache.Abstract() == After(ops, maxEntries)
    ensures |answers| == |ops|
    ensures forall i :: 0 <= i < |ops| ==> answers[i] == Reply(ops[..i], maxEntries, ops[i])
  {
    hide Apply, Fit, Linked, Cache.Valid, Cache.Abstract;
    cache := new Cache(maxEntries);
    answers := [];
    for n := 0 to |ops|
      invariant cache.Valid() && cache.maxEntries == maxEntries && fresh(cache)
      invariant cache.Abstract() == After(ops[..n], maxEntries) && |answers| == n
      invariant forall i :: 0 <= i < n ==> answers[i] == Reply(ops[..i], maxEntries, ops[i])
    {
      assert ops[..n + 1][..n] == ops[..n];
      var a := Perform(cache, ops[n]);
      answers := answers + [a];
    }
    assert ops[..|ops|] == ops;
  }

  /** One operation of a history. */
  method Perform(cache: Cache, op: Op) returns (a: Answer)
    requires cache.Valid()
    modifies cache
    ensures cache.Valid() && (cache.Abstract(), a) == Apply(old(cache.Abstract()), cache.maxEntries, op)
  {
    hide SetSpec, GetSpec, Fit, Linked;
    KeysListed(cache.Abstract(), cache.maxEntries, op.k);
    a := Answer(false, "", 0.0);
    match op {
      case SetOp(k, value, ttl, now) => cache.Set(k, value, ttl, now);
      case GetOp(k, now) => a := cache.Get(k, now);
    }
  }

  lemma KeysListed(m: Model, max: nat, k: string)
    requires Fit(m, max)
    ensures k in m.entries ==> k in m.keys
  {
  }
}
