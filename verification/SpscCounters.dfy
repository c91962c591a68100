/**
 The counters of the single-producer ring (`iris_queue_t::step_counter`, `diff_counter`, `full`):
 64-bit values that wrap at 2^64 when the capacity is a power of two and at `counter_limit`
 otherwise.  The lemmas tie them to unbounded totals.
 */
module SpscCounters {
  import opened Collections

  const Word: int := 0x1_0000_0000_0000_0000
  const Half: int := 0x8000_0000_0000_0000

  function Pow2(n: nat): (p: nat)
    ensures p >= 1
  {
    if n == 0 then 1 else 2 * Pow2(n - 1)
  }

  /** `iris_log2`: the position of the highest set bit. */
  function Log2(n: nat): nat
    requires n > 0
  {
    if n == 1 then 0 else 1 + Log2(n / 2)
  }

  predicate IsPow2(ec: nat)
    requires ec > 0
  {
    Pow2(Log2(ec)) == ec
  }

  /** `counter_limit`. */
  function Limit(ec: nat): nat
    requires 0 < ec < Word && Log2(ec) <= 63
  {
    ec * Pow2(63 - Log2(ec))
  }

  /** Where counters wrap. */
  function Modulus(ec: nat): nat
    requires Capacity(ec)
  {
    if IsPow2(ec) then Word else Limit(ec)
  }

  predicate Capacity(ec: nat) {
    0 < ec < 0x1_0000_0000 && Log2(ec) <= 63
  }

  /** The counter value after `total` elements. */
  function Counter(ec: nat, total: nat): nat
    requires Capacity(ec)
  {
    Moduli(ec);
    total % Modulus(ec)
  }

  function StepCounter(ec: nat, count: nat, delta: nat): nat
    requires Capacity(ec)
  {
    var result := (count + delta) % Word;
    if !IsPow2(ec) && result >= Limit(ec) then result - Limit(ec) else result
  }

  /** Reading 64 bits as a signed number. */
  function Signed(x: int): int {
    if x % Word < Half then x % Word else x % Word - Word
  }

  function DiffCounter(ec: nat, lhs: nat, rhs: nat): int
    requires Capacity(ec)
  {
    if IsPow2(ec) then Signed(lhs - rhs) else DiffLimited(Limit(ec), lhs, rhs)
  }

  function DiffLimited(limit: int, lhs: int, rhs: int): int {
    var diff := (lhs + limit - rhs) % Word;
    Signed(if diff >= limit then diff - limit else diff)
  }

  predicate Full(ec: nat, push: nat, pop: nat)
    requires Capacity(ec)
  {
    StepCounter(ec, pop, ec) == push
  }

  // ---- powers of two -------------------------------------------------------------------

  lemma {:induction false} Log2Bounds(n: nat)
    requires n > 0
    ensures Pow2(Log2(n)) <= n < 2 * Pow2(Log2(n))
  {
    if n > 1 { Log2Bounds(n / 2); }
  }

  lemma {:induction false} Pow2Adds(a: nat, b: nat)
    ensures Pow2(a + b) == Pow2(a) * Pow2(b)
  {
    if a > 0 {
      Pow2Adds(a - 1, b);
      assert Pow2(a + b) == 2 * (Pow2(a - 1) * Pow2(b));
    }
  }

  lemma {:induction false} Pow2Grows(a: nat, b: nat)
    requires a <= b
    ensures Pow2(a) <= Pow2(b)
  {
    if a < b { Pow2Grows(a, b - 1); }
  }

  lemma Pow2Values()
    ensures Pow2(32) == 0x1_0000_0000 && Pow2(63) == Half && Pow2(64) == Word
  {
    assert Pow2(8) == 256;
    assert Pow2(64) == 2 * Pow2(63);
    hide Pow2;
    Pow2Adds(8, 8);
    Pow2Adds(16, 16);
    Pow2Adds(32, 32);
  }

  lemma Log2Small(ec: nat)
    requires 0 < ec < 0x1_0000_0000
    ensures Log2(ec) <= 31
  {
    Log2Bounds(ec);
    Pow2Values();
    if Log2(ec) >= 32 { Pow2Grows(32, Log2(ec)); }
  }

  /** What makes the counters work: the capacity divides the modulus, and for other capacities than
      powers of two the limit leaves room for `ec` below 2^64 and above 2^63. */
  lemma Moduli(ec: nat)
    requires Capacity(ec)
    ensures Modulus(ec) % ec == 0 && Modulus(ec) >= Half && Modulus(ec) <= Word
    ensures !IsPow2(ec) ==> Limit(ec) + ec < Word && Half + ec < Limit(ec)
  {
    hide Pow2, Log2;
    var k := Log2(ec);
    Log2Bounds(ec);
    Log2Small(ec);
    Pow2Values();
    var m := Pow2(63 - k);
    Pow2Adds(k, 63 - k);
    if IsPow2(ec) {
      Twice(ec, m);
    } else {
      Pow2Grows(32, 63 - k);
      Between(ec, Pow2(k), m);
    }
  }

  lemma Twice(ec: nat, m: nat)
    requires ec > 0 && ec * m == Half
    ensures Word % ec == 0
  {
    assert Word == ec * (2 * m);
    Divides(ec, 2 * m);
  }

  lemma Between(ec: nat, low: nat, m: nat)
    requires low * m == Half && low < ec < 2 * low && ec < 0x1_0000_0000 <= m
    ensures (ec * m) % ec == 0 && ec * m + ec < Word && Half + ec < ec * m
  {
    assert ec * m >= (low + 1) * m;
    assert (2 * low - ec) * m >= m;
    Divides(ec, m);
  }

  lemma Divides(ec: nat, m: nat)
    requires ec > 0
    ensures (ec * m) % ec == 0
  {
    ModUnique(ec, ec * m, m, 0);
  }

  // ---- counters and totals ---------------------------------------------------------------

  /** Counters agree with totals on the slot. */
  lemma CounterSlot(ec: nat, total: nat)
    requires Capacity(ec)
    ensures Counter(ec, total) % ec == total % ec
  {
    hide Modulus, Log2;
    Moduli(ec);
    NestedMod(ec, Modulus(ec), total);
  }

  lemma NestedMod(ec: int, mod: int, total: int)
    requires 0 < ec && 0 < mod && mod % ec == 0
    ensures (total % mod) % ec == total % ec
  {
    var q, r, m := total / mod, total % mod, mod / ec;
    assert total == q * mod + r;
    assert mod == m * ec;
    assert q * (m * ec) == (q * m) * ec;
    var e := r / ec;
    assert r == e * ec + r % ec;
    assert total == (q * m + e) * ec + r % ec;
    ModUnique(ec, total, q * m + e, r % ec);
  }

  lemma ModAdd(mod: nat, total: nat, d: nat)
    requires 0 < mod && d < mod
    ensures (total + d) % mod == if total % mod + d < mod then total % mod + d else total % mod + d - mod
  {
    var q, r := total / mod, total % mod;
    assert total == q * mod + r;
    if r + d < mod { ModUnique(mod, total + d, q, r + d); } else { ModUnique(mod, total + d, q + 1, r + d - mod); }
  }

  lemma StepExact(ec: nat, total: nat, d: nat)
    requires Capacity(ec) && d <= ec
    ensures StepCounter(ec, Counter(ec, total), d) == Counter(ec, total + d)
  {
    Moduli(ec);
    hide IsPow2, Limit;
    var mod := Modulus(ec);
    var r := total % mod;
    ModAdd(mod, total, d);
    WordAdd(r, d);
  }

  lemma WordAdd(r: nat, d: nat)
    requires r < Word && d < Word
    ensures (r + d) % Word == if r + d < Word then r + d else r + d - Word
  {
  }

  /** `full()` is exact while the fill lies between 0 and the capacity. */
  lemma FullExact(ec: nat, push: nat, pop: nat)
    requires Capacity(ec) && pop <= push <= pop + ec
    ensures Full(ec, Counter(ec, push), Counter(ec, pop)) <==> push == pop + ec
  {
    Moduli(ec);
    StepExact(ec, pop, ec);
    var d := pop + ec - push;
    ModAdd(Modulus(ec), push, d);
  }

  /** How far ahead a counter may be for `diff_counter` to see it. */
  function Horizon(ec: nat): nat
    requires Capacity(ec)
  {
    Moduli(ec);
    if IsPow2(ec) then Half else Word - Limit(ec)
  }

  /** `diff_counter` is exact for a counter less than `Horizon` ahead. */
  lemma DiffAhead(ec: nat, lhs: nat, rhs: nat)
    requires Capacity(ec) && rhs <= lhs < rhs + Horizon(ec)
    ensures DiffCounter(ec, Counter(ec, lhs), Counter(ec, rhs)) == lhs - rhs
  {
    hide Limit, Log2, Pow2, IsPow2, Signed, DiffLimited;
    Moduli(ec);
    var mod := Modulus(ec);
    ModAdd(mod, rhs, lhs - rhs);
    if IsPow2(ec) {
      SignedAt(lhs % mod - rhs % mod, lhs - rhs);
    } else {
      LimitedAhead(mod, lhs % mod, rhs % mod, lhs - rhs);
    }
  }

  lemma LimitedAhead(limit: int, a: int, b: int, d: int)
    requires Half < limit < Word && 0 <= d < Word - limit && 0 <= b < limit && (a == b + d || a == b + d - limit)
    ensures DiffLimited(limit, a, b) == d
  {
    ModUnique(Word, a + limit - b, 0, a + limit - b);
    SignedAt(d, d);
  }

  /** Capacities for which a consumer's shadow that lags by one is recognised across the wrap. */
  predicate SafeCapacity(ec: nat)
    requires Capacity(ec)
  {
    IsPow2(ec) || 2 * ec > 3 * Pow2(Log2(ec))
  }

  lemma SafeLimit(ec: nat)
    requires Capacity(ec) && !IsPow2(ec)
    ensures SafeCapacity(ec) <==> 2 * Limit(ec) > Word + Half
  {
    hide Pow2, Log2;
    var k := Log2(ec);
    var m := Pow2(63 - k);
    Pow2Adds(k, 63 - k);
    Pow2Values();
    var gap := 2 * ec - 3 * Pow2(k);
    assert 2 * (ec * m) - 3 * (Pow2(k) * m) == gap * m;
    Sign(gap, m);
  }

  lemma Sign(x: int, m: int)
    requires m > 0
    ensures x * m > 0 <==> x > 0
  {
    assert x >= 1 ==> x * m >= m;
    assert x <= -1 ==> x * m <= -m;
  }

  /** A counter that lags by at most one is never seen as ahead, if the capacity is safe or the
      counters have not wrapped yet. */
  lemma DiffBehind(ec: nat, lhs: nat, rhs: nat)
    requires Capacity(ec) && lhs <= rhs <= lhs + 1 && (lhs == rhs || SafeCapacity(ec) || rhs < Limit(ec))
    ensures DiffCounter(ec, Counter(ec, lhs), Counter(ec, rhs)) <= 0
  {
    hide Limit, Log2, Pow2, IsPow2, Signed, DiffLimited, SafeCapacity;
    Moduli(ec);
    var mod := Modulus(ec);
    ModAdd(mod, lhs, rhs - lhs);
    if IsPow2(ec) {
      SignedAt(lhs % mod - rhs % mod, lhs - rhs);
    } else if lhs == rhs {
      LimitedAhead(mod, lhs % mod, rhs % mod, 0);
    } else {
      SafeLimit(ec);
      if rhs < mod {
        ModUnique(mod, rhs, 0, rhs);
        ModUnique(mod, lhs, 0, lhs);
      }
      LimitedBehind(mod, lhs % mod, rhs % mod);
    }
  }

  lemma LimitedBehind(limit: int, a: int, b: int)
    requires Half + 1 < limit < Word && 0 <= a < limit && (b == a + 1 || (b == 0 && a == limit - 1))
    ensures DiffLimited(limit, a, b) <= 0 <==> b == a + 1 || 2 * limit > Word + Half
  {
    if b == a + 1 {
      ModUnique(Word, a + limit - b, 0, limit - 1);
      SignedAt(limit - 1, limit - 1 - Word);
    } else {
      var v := 2 * limit - 1 - Word;
      ModUnique(Word, a + limit - b, 1, v);
      if v < Half { SignedAt(v, v); } else { SignedAt(v, v - Word); }
    }
  }

  /** For the other capacities the one wrap from the last counter to zero is misread as far ahead. */
  lemma DiffMisread(ec: nat)
    requires Capacity(ec) && !SafeCapacity(ec)
    ensures DiffCounter(ec, Limit(ec) - 1, 0) > 0
  {
    hide Limit, Log2, Pow2, Signed, DiffLimited;
    Moduli(ec);
    SafeLimit(ec);
    LimitedBehind(Limit(ec), Limit(ec) - 1, 0);
  }

  /** The lags of at least the capacity that `diff_counter` reports as such from every position. */
  predicate TrustedLag(ec: nat, lag: nat)
    requires Capacity(ec)
  {
    Moduli(ec);
    var r := lag % Modulus(ec);
    ec <= r < Half && (IsPow2(ec) || r < Word - Limit(ec) || r - (Word - Limit(ec)) >= ec)
  }

  /** `maybe_full()` would see a shadow that lags by `lag` from position `total`. */
  ghost predicate SeesLag(ec: nat, total: nat, lag: nat)
    requires Capacity(ec)
  {
    DiffCounter(ec, Counter(ec, total + lag), Counter(ec, total)) >= ec
  }

  /** A shadow that lags by the capacity or more is recognised, wherever the counters stand, if and
      only if the lag is trusted. */
  lemma LagSeenIffTrusted(ec: nat, lag: nat)
    requires Capacity(ec)
    ensures (forall total: nat :: SeesLag(ec, total, lag)) <==> TrustedLag(ec, lag)
  {
    hide Limit, Log2, Pow2, DiffLimited, Signed;
    Moduli(ec);
    var mod := Modulus(ec);
    var r := lag % mod;
    if IsPow2(ec) {
      forall total: nat ensures SeesLag(ec, total, lag) <==> ec <= r < Half { LagPow2(ec, total, lag); }
      assert SeesLag(ec, 0, lag) <==> ec <= r < Half;
    } else {
      forall total: nat ensures SeesLag(ec, total, lag) <==> LimitedLag(mod, total % mod, r) >= ec {
        LagOther(ec, total, lag);
      }
      assert SeesLag(ec, 0, lag) <==> LimitedLag(mod, 0 % mod, r) >= ec;
      ModUnique(mod, 0, 0, 0);
      if r > 0 {
        ModUnique(mod, mod - r, 0, mod - r);
        assert SeesLag(ec, mod - r, lag) <==> LimitedLag(mod, mod - r, r) >= ec;
      }
    }
  }

  lemma LagPow2(ec: nat, total: nat, lag: nat)
    requires Capacity(ec) && IsPow2(ec)
    ensures SeesLag(ec, total, lag) <==> ec <= lag % Word < Half
  {
    hide IsPow2, Limit, Signed;
    var r := lag % Word;
    Reduce(Word, total, lag);
    ModAdd(Word, total, r);
    if r < Half { SignedAt((total + lag) % Word - total % Word, r); }
    else { SignedAt((total + lag) % Word - total % Word, r - Word); }
  }

  lemma Reduce(mod: int, total: nat, lag: nat)
    requires mod > 0
    ensures (total + lag) % mod == (total + lag % mod) % mod
  {
    var q, r := lag / mod, lag % mod;
    var s := total + r;
    assert total + lag == q * mod + s;
    assert s == (s / mod) * mod + s % mod;
    assert q * mod + (s / mod) * mod == (q + s / mod) * mod;
    ModUnique(mod, total + lag, q + s / mod, s % mod);
  }

  /** What `diff_counter` gives for counter `b` and a lag of `r` below the limit. */
  function LimitedLag(limit: int, b: int, r: int): int {
    if b + r >= limit then (if r < Half then r else r - Word)
    else if r < Word - limit then r
    else if r - (Word - limit) < Half then r - (Word - limit) else r - (Word - limit) - Word
  }

  /** The counter `lag` elements later, from the two counters alone. */
  lemma CounterAhead(ec: nat, total: nat, lag: nat)
    requires Capacity(ec)
    ensures var b, r := Counter(ec, total), Counter(ec, lag);
      && 0 <= b < Modulus(ec) && 0 <= r < Modulus(ec)
      && Counter(ec, total + lag) == if b + r < Modulus(ec) then b + r else b + r - Modulus(ec)
  {
    Moduli(ec);
    hide Modulus;
    var mod := Modulus(ec);
    Reduce(mod, total, lag);
    ModAdd(mod, total, lag % mod);
  }

  lemma LagOther(ec: nat, total: nat, lag: nat)
    requires Capacity(ec) && !IsPow2(ec)
    ensures SeesLag(ec, total, lag) <==> LimitedLag(Modulus(ec), Counter(ec, total), Counter(ec, lag)) >= ec
  {
    Moduli(ec);
    hide Capacity, Limit, DiffLimited, IsPow2, Counter, LimitedLag;
    CounterAhead(ec, total, lag);
    DiffLimitedIs(Limit(ec), Counter(ec, total), Counter(ec, lag));
  }

  lemma DiffLimitedIs(limit: int, b: int, r: int)
    requires Half < limit < Word && 0 <= b < limit && 0 <= r < limit
    ensures DiffLimited(limit, if b + r < limit then b + r else b + r - limit, b) == LimitedLag(limit, b, r)
  {
    if b + r >= limit {
      ModUnique(Word, r, 0, r);
      if r < Half { SignedAt(r, r); } else { SignedAt(r, r - Word); }
    } else if r < Word - limit {
      ModUnique(Word, limit + r, 0, limit + r);
      SignedAt(r, r);
    } else {
      var v := r - (Word - limit);
      ModUnique(Word, limit + r, 1, v);
      if v < Half { SignedAt(v, v); } else { SignedAt(v, v - Word); }
    }
  }

  /** At the horizon itself a shadow from the start looks fresh, or even ahead. */
  lemma DiffAtHorizon(ec: nat)
    requires Capacity(ec)
    ensures ec < Horizon(ec) < Modulus(ec) && DiffCounter(ec, Counter(ec, Horizon(ec)), Counter(ec, 0)) <= 0
  {
    hide Limit, Log2, Pow2, IsPow2, Signed, DiffLimited;
    Moduli(ec);
    ModUnique(Modulus(ec), Horizon(ec), 0, Horizon(ec));
    ModUnique(Modulus(ec), 0, 0, 0);
    if IsPow2(ec) { SignedAt(Half, -Half); } else { DiffLimitedIs(Limit(ec), 0, Horizon(ec)); }
  }

  lemma SignedAt(x: int, v: int)
    requires -Half <= v < Half && (x == v || x == v - Word || x == v + Word)
    ensures Signed(x) == v
  {
    if v >= 0 {
      ModUnique(Word, x, if x == v then 0 else if x == v - Word then -1 else 1, v);
    } else {
      ModUnique(Word, x, if x == v then -1 else if x == v - Word then -2 else 0, v + Word);
    }
  }

  lemma SlotNext(ec: nat, total: nat)
    requires ec > 0
    ensures (total + 1) % ec == if total % ec + 1 == ec then 0 else total % ec + 1
  {
    if ec == 1 { ModUnique(1, total + 1, total + 1, 0); } else { ModAdd(ec, total, 1); }
  }

  lemma SlotsApart(ec: nat, a: nat, b: nat)
    requires ec > 0 && a < b < a + ec
    ensures a % ec != b % ec
  {
    ModAdd(ec, a, b - a);
  }

  lemma SameSlot(ec: nat, a: nat)
    requires ec > 0
    ensures (a + ec) % ec == a % ec
  {
    ModUnique(ec, a + ec, a / ec + 1, a % ec);
  }

  /** The slots the two write loops of a bulk push may fill. */
  lemma RoomExact(ec: nat, push: nat, pop: nat)
    requires ec > 0 && pop <= push < pop + ec
    ensures var w, r := push % ec, pop % ec; (if r <= w then ec - w + r else r - w) == pop + ec - push
  {
    ModAdd(ec, pop, push - pop);
  }

  /** The slots the two read loops of a bulk pop may empty. */
  lemma AvailableExact(ec: nat, push: nat, pop: nat)
    requires ec > 0 && pop < push <= pop + ec
    ensures var w, r := push % ec, pop % ec; (if w <= r then ec - r + w else w - r) == push - pop
  {
    if push == pop + ec { SameSlot(ec, pop); } else { ModAdd(ec, pop, push - pop); }
  }
}
