/**
 The prime-counting job's sieve (`run_job`): a base sieve up to a root above the square root of the
 limit, and the marking of one segment with the primes it found.
 */
module Sieve {
  import opened Collections

  predicate Divides(d: int, n: int) {
    d != 0 && n % d == 0
  }

  ghost predicate IsPrime(n: int) {
    n >= 2 && forall d :: 2 <= d < n ==> !Divides(d, n)
  }

  /** `p` crosses out `k`: a multiple from the square of `p` on. */
  predicate Hits(p: int, k: int) {
    p >= 2 && p * p <= k && k % p == 0
  }

  lemma HitIsComposite(p: int, k: int)
    requires Hits(p, k)
    ensures !IsPrime(k)
  {
    assert p < p * p;
    assert Divides(p, k);
  }

  /** The least divisor above one. */
  ghost function LeastDivisor(n: int, d: int): (p: int)
    requires 2 <= d <= n && Divides(n, n) && forall e :: 2 <= e < d ==> !Divides(e, n)
    ensures d <= p <= n && Divides(p, n) && forall e :: 2 <= e < p ==> !Divides(e, n)
    decreases n - d
  {
    if d == n || Divides(d, n) then d else LeastDivisor(n, d + 1)
  }

  lemma Transitive(n: int, p: int, d: int)
    requires p > 0 && d > 0 && Divides(p, n) && Divides(d, p)
    ensures Divides(d, n)
  {
    var a, b := n / p, p / d;
    assert n == p * a && p == d * b;
    assert n == d * (b * a);
    MultipleMod(d, b * a);
  }

  lemma MultipleMod(d: int, q: int)
    requires d > 0
    ensures (d * q) % d == 0
  {
    ModUnique(d, d * q, q, 0);
  }

  /** A composite number is crossed out by a prime. */
  lemma CompositeIsHit(n: int) returns (p: int)
    requires n >= 2 && !IsPrime(n)
    ensures IsPrime(p) && Hits(p, n)
  {
    MultipleMod(n, 1);
    assert Divides(n, n);
    p := LeastDivisor(n, 2);
    forall d | 2 <= d < p ensures !Divides(d, p) {
      if Divides(d, p) { Transitive(n, p, d); }
    }
    var e :| 2 <= e < n && Divides(e, n);
    SquareBelow(n, p);
  }

  lemma SquareBelow(n: int, p: int)
    requires 2 <= p < n && Divides(p, n) && forall e :: 2 <= e < p ==> !Divides(e, n)
    ensures p * p <= n
  {
    var q := n / p;
    assert n == p * q;
    assert q <= 1 ==> p * q <= p;
    MultipleMod(q, p);
    assert n == q * p;
    assert Divides(q, n);
    assert q >= p;
    assert p * q >= p * p;
  }

  lemma NextMultiple(i: int, k: int, m: int)
    requires i > 0 && k % i == 0 && m % i == 0 && k <= m < k + i
    ensures m == k
  {
    var a, b := k / i, m / i;
    assert k == i * a && m == i * b;
    assert b - a >= 1 ==> i * (b - a) >= i;
    assert b - a <= -1 ==> i * (b - a) <= -i;
    assert i * (b - a) == m - k;
  }

  lemma StepMultiple(i: int, k: int)
    requires i > 0 && k % i == 0
    ensures (k + i) % i == 0
  {
    assert k + i == i * (k / i + 1);
    MultipleMod(i, k / i + 1);
  }

  // ---- the base sieve ------------------------------------------------------------------------

  /** Some prime below `i` crosses out `k`. */
  ghost predicate Crossed(k: int, i: int) {
    exists p :: 2 <= p < i && IsPrime(p) && Hits(p, k)
  }

  lemma BelowRoot(p: int, i: int, k: int)
    requires Hits(p, k) && k < i * i && i >= 0
    ensures 2 <= p < i
  {
    assert p >= i ==> p * p >= i * i;
  }

  /** Numbers not yet crossed out by primes below `i` are prime if their square root is below `i`. */
  lemma CrossedOrPrime(k: int, i: int)
    requires 2 <= k < i * i && i >= 0
    ensures Crossed(k, i) <==> !IsPrime(k)
  {
    hide IsPrime, Hits;
    if Crossed(k, i) {
      var p :| 2 <= p < i && IsPrime(p) && Hits(p, k);
      HitIsComposite(p, k);
    }
    if !IsPrime(k) {
      var p := CompositeIsHit(k);
      BelowRoot(p, i, k);
    }
  }

  lemma CrossedSelf(i: int)
    requires i >= 2
    ensures Crossed(i, i) <==> !IsPrime(i)
  {
    assert i < i * i;
    CrossedOrPrime(i, i);
  }

  lemma CrossedNext(k: int, i: int)
    requires i >= 2
    ensures Crossed(k, i + 1) <==> Crossed(k, i) || (IsPrime(i) && Hits(i, k))
  {
  }

  /** The first loops: base[k] is 1 exactly when k is prime. */
  method BaseSieve(root: nat) returns (base: array<int>)
    requires root >= 1
    ensures base.Length == root + 1
    ensures forall k :: 0 <= k <= root ==> base[k] == if IsPrime(k) then 1 else 0
  {
    hide IsPrime, Hits, Crossed;
    base := new int[root + 1](_ => 1);
    base[0], base[1] := 0, 0;
    var i := 2;
    NothingCrossed();
    while i * i <= root
      invariant i >= 2
      invariant base.Length == root + 1
      invariant forall k :: 0 <= k <= root ==> base[k] == if k < 2 || Crossed(k, i) then 0 else 1
      decreases root - i
    {
      CrossedSelf(i);
      assert i <= i * i;
      if base[i] != 0 {
        CrossOut(base, root, i);
      }
      forall k | 0 <= k <= root ensures Crossed(k, i + 1) <==> Crossed(k, i) || (IsPrime(i) && Hits(i, k)) {
        CrossedNext(k, i);
      }
      i := i + 1;
    }
    forall k | 0 <= k <= root ensures base[k] == if IsPrime(k) then 1 else 0 {
      if k >= 2 { CrossedOrPrime(k, i); } else { SmallNotPrime(k); }
    }
  }

  lemma NothingCrossed()
    ensures forall k {:trigger Crossed(k, 2)} :: !Crossed(k, 2)
  {
  }

  lemma SmallNotPrime(k: int)
    requires k < 2
    ensures !IsPrime(k)
  {
  }

  /** The inner loop: strike the multiples of `i` from its square on. */
  method CrossOut(base: array<int>, root: nat, i: int)
    requires base.Length == root + 1 && i >= 2
    modifies base
    ensures forall k :: 0 <= k <= root ==> base[k] == if Hits(i, k) then 0 else old(base[k])
  {
    hide Hits;
    var k := i * i;
    MultipleMod(i, i);
    forall m | m < k ensures !Hits(i, m) { NoHitBelow(i, m); }
    while k <= root
      invariant k % i == 0 && k >= i * i
      invariant forall m :: 0 <= m <= root ==> base[m] == if m < k && Hits(i, m) then 0 else old(base[m])
      decreases root + i - k
    {
      base[k] := 0;
      HitsFrom(i, k);
      StepMultiple(i, k);
      k := k + i;
    }
  }

  lemma NoHitBelow(i: int, m: int)
    requires i >= 2 && m < i * i
    ensures !Hits(i, m)
  {
  }

  /** From one multiple to the next, only the first is hit. */
  lemma HitsFrom(i: int, k: int)
    requires i >= 2 && k % i == 0 && k >= i * i
    ensures Hits(i, k) && forall m {:trigger Hits(i, m)} :: k < m < k + i ==> !Hits(i, m)
  {
    forall m | k < m < k + i ensures !Hits(i, m) {
      if Hits(i, m) { NextMultiple(i, k, m); }
    }
  }

  // ---- one segment ---------------------------------------------------------------------------

  /** The primes up to `root`, in order. */
  ghost predicate PrimesUpTo(primes: seq<int>, root: int) {
    && (forall j :: 0 <= j < |primes| ==> IsPrime(primes[j]))
    && (forall p :: 2 <= p <= root && IsPrime(p) ==> p in primes)
  }

  method Primes(root: nat) returns (primes: seq<int>)
    requires root >= 1
    ensures PrimesUpTo(primes, root)
  {
    hide IsPrime;
    var base := BaseSieve(root);
    primes := [];
    for i := 2 to root + 1
      invariant forall j :: 0 <= j < |primes| ==> IsPrime(primes[j])
      invariant forall p :: 2 <= p < i && IsPrime(p) ==> p in primes
    {
      if base[i] != 0 { primes := primes + [i]; }
    }
  }

  /** One of the first `n` primes crosses out `k`. */
  ghost predicate HitBy(primes: seq<int>, n: int, k: int) {
    exists j :: 0 <= j < n <= |primes| && Hits(primes[j], k)
  }

  /** Below the square of the root, being hit by one of the primes is being composite. */
  lemma HitByOrPrime(primes: seq<int>, root: int, k: int)
    requires PrimesUpTo(primes, root) && 2 <= k < root * root && root >= 0
    ensures HitBy(primes, |primes|, k) <==> !IsPrime(k)
  {
    hide IsPrime, Hits;
    if HitBy(primes, |primes|, k) {
      var j :| 0 <= j < |primes| && Hits(primes[j], k);
      HitIsComposite(primes[j], k);
    }
    if !IsPrime(k) {
      var p := CompositeIsHit(k);
      BelowRoot(p, root, k);
      assert p in primes;
    }
  }

  function Max(a: int, b: int): int {
    if a > b then a else b
  }

  /** The first multiple of `p` that the segment has to strike. */
  function Start(p: int, lo: int): int
    requires p > 0
  {
    Max(p * p, ((lo + p - 1) / p) * p)
  }

  lemma Ceiling(p: int, lo: int)
    requires p > 0
    ensures var c := ((lo + p - 1) / p) * p; c % p == 0 && lo <= c < lo + p
  {
    var q := (lo + p - 1) / p;
    assert lo + p - 1 == p * q + (lo + p - 1) % p;
    MultipleMod(p, q);
    assert p * q == q * p;
  }

  lemma NoMultipleBetween(p: int, c: int, m: int)
    requires p > 0 && c % p == 0 && c - p < m < c
    ensures m % p != 0
  {
    if m % p == 0 { NextMultiple(p, m, c); }
  }

  lemma StartFacts(p: int, lo: int)
    requires p >= 2
    ensures Start(p, lo) % p == 0 && Start(p, lo) >= p * p && Start(p, lo) >= lo
    ensures forall m {:trigger Hits(p, m)} :: lo <= m < Start(p, lo) ==> !Hits(p, m)
  {
    var c := ((lo + p - 1) / p) * p;
    Ceiling(p, lo);
    MultipleMod(p, p);
    forall m | lo <= m < Start(p, lo) ensures !Hits(p, m) {
      if m < p * p { NoHitBelow(p, m); } else { NoMultipleBetween(p, c, m); }
    }
  }

  /** The marking loops of one segment: mark[i] is 1 exactly when lo + i is prime. */
  method Mark(lo: int, hi: int, primes: seq<int>, ghost root: int) returns (mark: array<int>)
    requires 2 <= lo <= hi && PrimesUpTo(primes, root) && root >= 0 && hi <= root * root
    ensures mark.Length == hi - lo
    ensures forall i :: 0 <= i < hi - lo ==> mark[i] == if IsPrime(lo + i) then 1 else 0
  {
    hide IsPrime, Hits, HitBy;
    mark := new int[hi - lo](_ => 1);
    NoneHit(primes);
    for j := 0 to |primes|
      invariant mark.Length == hi - lo
      invariant forall i :: 0 <= i < hi - lo ==> mark[i] == if HitBy(primes, j, lo + i) then 0 else 1
    {
      var p := primes[j];
      PrimeFacts(p);
      Strike(mark, lo, hi, p);
      forall i | 0 <= i < hi - lo ensures mark[i] == if HitBy(primes, j + 1, lo + i) then 0 else 1 {
        HitByNext(primes, j, lo + i);
      }
    }
    forall i | 0 <= i < hi - lo ensures mark[i] == if IsPrime(lo + i) then 1 else 0 {
      HitByOrPrime(primes, root, lo + i);
    }
  }

  lemma NoneHit(primes: seq<int>)
    ensures forall k {:trigger HitBy(primes, 0, k)} :: !HitBy(primes, 0, k)
  {
  }

  lemma PrimeFacts(p: int)
    requires IsPrime(p)
    ensures p >= 2
  {
  }

  lemma HitByNext(primes: seq<int>, j: nat, k: int)
    requires j < |primes|
    ensures HitBy(primes, j + 1, k) <==> HitBy(primes, j, k) || Hits(primes[j], k)
  {
    hide Hits;
    if Hits(primes[j], k) { assert HitBy(primes, j + 1, k); }
  }

  /** Strike the multiples of one prime in the segment. */
  method Strike(mark: array<int>, lo: int, hi: int, p: int)
    requires mark.Length == hi - lo && p >= 2
    modifies mark
    ensures forall i :: 0 <= i < hi - lo ==> mark[i] == if Hits(p, lo + i) then 0 else old(mark[i])
  {
    hide Hits;
    var k := Start(p, lo);
    StartFacts(p, lo);
    hide Start;
    while k < hi
      invariant k % p == 0 && k >= p * p && k >= lo
      invariant forall i :: 0 <= i < hi - lo ==> mark[i] == if lo + i < k && Hits(p, lo + i) then 0 else old(mark[i])
      decreases hi + p - k
    {
      mark[k - lo] := 0;
      HitsFrom(p, k);
      StepMultiple(p, k);
      k := k + p;
    }
  }

  // ---- the job -------------------------------------------------------------------------------

  /** The integer part of the square root. */
  function Root(n: nat): (r: nat)
    ensures r * r <= n < (r + 1) * (r + 1)
  {
    if n == 0 then 0
    else
      var r := Root(n - 1);
      if (r + 1) * (r + 1) <= n then r + 1 else r
  }

  ghost function CountPrimes(lo: int, hi: int): nat
    decreases hi - lo
  {
    if lo >= hi then 0 else CountPrimes(lo, hi - 1) + (if IsPrime(hi - 1) then 1 else 0)
  }

  /** One chunk of the job: how many primes its segment holds, for every limit and chunk number. */
  method CountChunk(limit: nat, c: nat) returns (lo: int, hi: int, count: nat)
    ensures var size := Max(limit / 40, 1);
      lo == Max(c * size, 2) && hi == (if lo + size < limit then lo + size else limit)
    ensures count == CountPrimes(lo, hi)
  {
    hide IsPrime;
    var root := Root(limit) + 1;
    hide Root;
    var primes := Primes(root);
    var size := Max(limit / 40, 1);
    lo := Max(c * size, 2);
    hi := if lo + size < limit then lo + size else limit;
    count := 0;
    if lo >= hi { return; }
    var mark := Mark(lo, hi, primes, root);
    for k := lo to hi
      invariant count == CountPrimes(lo, k)
    {
      assert mark[k - lo] == if IsPrime(lo + (k - lo)) then 1 else 0;
      count := count + mark[k - lo];
    }
  }
}
