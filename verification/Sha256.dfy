/**
 SHA-256: the message schedule, compression and padding of sections 5.1.1 and 6.2 of FIPS 180-4 as
 functions, and the streaming context (`sha256_ctx_t`) that computes them block by block.
 */
module Sha256 {
  import opened Collections

  // ---- section 6.2.2: one block ------------------------------------------------------------

  function RoundConstant(i: nat): bv32
    requires i < 64
  {
    var k: seq<seq<bv32>> := [
      [0x428a2f98, 0x71374491, 0xb5c0fbcf, 0xe9b5dba5, 0x3956c25b, 0x59f111f1, 0x923f82a4, 0xab1c5ed5],
      [0xd807aa98, 0x12835b01, 0x243185be, 0x550c7dc3, 0x72be5d74, 0x80deb1fe, 0x9bdc06a7, 0xc19bf174],
      [0xe49b69c1, 0xefbe4786, 0x0fc19dc6, 0x240ca1cc, 0x2de92c6f, 0x4a7484aa, 0x5cb0a9dc, 0x76f988da],
      [0x983e5152, 0xa831c66d, 0xb00327c8, 0xbf597fc7, 0xc6e00bf3, 0xd5a79147, 0x06ca6351, 0x14292967],
      [0x27b70a85, 0x2e1b2138, 0x4d2c6dfc, 0x53380d13, 0x650a7354, 0x766a0abb, 0x81c2c92e, 0x92722c85],
      [0xa2bfe8a1, 0xa81a664b, 0xc24b8b70, 0xc76c51a3, 0xd192e819, 0xd6990624, 0xf40e3585, 0x106aa070],
      [0x19a4c116, 0x1e376c08, 0x2748774c, 0x34b0bcb5, 0x391c0cb3, 0x4ed8aa4a, 0x5b9cca4f, 0x682e6ff3],
      [0x748f82ee, 0x78a5636f, 0x84c87814, 0x8cc70208, 0x90befffa, 0xa4506ceb, 0xbef9a3f7, 0xc67178f2]];
    k[i / 8][i % 8]
  }

  // rotations (`sha256_rotr`) are written out
  function LittleSigma0(x: bv32): bv32 { ((x >> 7) | (x << 25)) ^ ((x >> 18) | (x << 14)) ^ (x >> 3) }
  function LittleSigma1(x: bv32): bv32 { ((x >> 17) | (x << 15)) ^ ((x >> 19) | (x << 13)) ^ (x >> 10) }
  function BigSigma0(x: bv32): bv32 { ((x >> 2) | (x << 30)) ^ ((x >> 13) | (x << 19)) ^ ((x >> 22) | (x << 10)) }
  function BigSigma1(x: bv32): bv32 { ((x >> 6) | (x << 26)) ^ ((x >> 11) | (x << 21)) ^ ((x >> 25) | (x << 7)) }
  function Ch(x: bv32, y: bv32, z: bv32): bv32 { (x & y) ^ (!x & z) }
  function Maj(x: bv32, y: bv32, z: bv32): bv32 { (x & y) ^ (x & z) ^ (y & z) }

  type Bytes = seq<bv8>

  /** Word `t` of a block, big-endian. */
  function Word(a: bv8, b: bv8, c: bv8, d: bv8): bv32 {
    (a as bv32 << 24) | (b as bv32 << 16) | (c as bv32 << 8) | (d as bv32)
  }

  function Mix(a: bv32, b: bv32, c: bv32, d: bv32): bv32 {
    a + LittleSigma0(b) + c + LittleSigma1(d)
  }

  /** The first `n` words of the message schedule. */
  function Schedule(block: Bytes, n: nat): (w: seq<bv32>)
    requires |block| == 64 && n <= 64
    ensures |w| == n
  {
    if n == 0 then []
    else
      var w, t := Schedule(block, n - 1), n - 1;
      w + [if t < 16 then Word(block[4 * t], block[4 * t + 1], block[4 * t + 2], block[4 * t + 3])
           else Mix(w[t - 16], w[t - 15], w[t - 7], w[t - 2])]
  }

  /** The eight working variables, also used for the eight words of a hash value. */
  datatype Regs = Regs(a: bv32, b: bv32, c: bv32, d: bv32, e: bv32, f: bv32, g: bv32, h: bv32)

  function Add(x: bv32, y: bv32): bv32 { x + y }

  function Temp1(e: bv32, f: bv32, g: bv32, h: bv32, k: bv32, w: bv32): bv32 {
    h + BigSigma1(e) + Ch(e, f, g) + k + w
  }

  function Temp2(a: bv32, b: bv32, c: bv32): bv32 {
    BigSigma0(a) + Maj(a, b, c)
  }

  function Round(r: Regs, k: bv32, w: bv32): Regs {
    var t1, t2 := Temp1(r.e, r.f, r.g, r.h, k, w), Temp2(r.a, r.b, r.c);
    Regs(Add(t1, t2), r.a, r.b, r.c, Add(r.d, t1), r.e, r.f, r.g)
  }

  function Rounds(r: Regs, w: seq<bv32>, n: nat): Regs
    requires |w| == 64 && n <= 64
  {
    if n == 0 then r else Round(Rounds(r, w, n - 1), RoundConstant(n - 1), w[n - 1])
  }

  function Sum(r: Regs, s: Regs): Regs {
    Regs(r.a + s.a, r.b + s.b, r.c + s.c, r.d + s.d, r.e + s.e, r.f + s.f, r.g + s.g, r.h + s.h)
  }

  function Compress(h: Regs, block: Bytes): Regs
    requires |block| == 64
  {
    Sum(h, Rounds(h, Schedule(block, 64), 64))
  }

  function Initial(): Regs {
    Regs(0x6a09e667, 0xbb67ae85, 0x3c6ef372, 0xa54ff53a, 0x510e527f, 0x9b05688c, 0x1f83d9ab, 0x5be0cd19)
  }

  /** `sha256_transform`. */
  method Transform(state: Regs, block: Bytes) returns (state': Regs)
    requires |block| == 64
    ensures state' == Compress(state, block)
  {
    hide Word, Mix, RoundConstant, Sum, Temp1, Temp2, Add;
    var w := new bv32[64];
    assert w[..0] == [];
    for i := 0 to 16
      invariant w[..i] == Schedule(block, i)
    {
      w[i] := Word(block[i * 4], block[i * 4 + 1], block[i * 4 + 2], block[i * 4 + 3]);
      assert w[..i + 1] == w[..i] + [w[i]];
    }
    for i := 16 to 64
      invariant w[..i] == Schedule(block, i)
    {
      ghost var before := w[..i];
      w[i] := Mix(w[i - 16], w[i - 15], w[i - 7], w[i - 2]);
      assert w[..i + 1] == before + [w[i]];
    }
    ghost var words := w[..];
    assert words == w[..64] == Schedule(block, 64);
    hide Schedule;
    var a, b, c, d := state.a, state.b, state.c, state.d;
    var e, f, g, h := state.e, state.f, state.g, state.h;
    for i := 0 to 64
      invariant w[..] == words && Regs(a, b, c, d, e, f, g, h) == Rounds(state, words, i)
    {
      var temp1 := Temp1(e, f, g, h, RoundConstant(i), w[i]);
      var temp2 := Temp2(a, b, c);
      h := g;
      g := f;
      f := e;
      e := Add(d, temp1);
      d := c;
      c := b;
      b := a;
      a := Add(temp1, temp2);
    }
    state' := Sum(state, Regs(a, b, c, d, e, f, g, h));
  }

  // ---- sections 5.1.1 and 6.2: messages ----------------------------------------------------

  /** The hash value after the complete blocks of `m`. */
  function Fold(m: Bytes): Regs
    requires |m| % 64 == 0
  {
    if m == [] then Initial() else Compress(Fold(m[..|m| - 64]), m[|m| - 64..])
  }

  function Zeros(n: nat): (z: Bytes)
    ensures |z| == n && forall i :: 0 <= i < n ==> z[i] == 0
  {
    seq(n, _ => 0)
  }

  /** `n` bytes of `x`, most significant first. */
  function BigEndian(x: nat, n: nat): (b: Bytes)
    ensures |b| == n
  {
    if n == 0 then [] else BigEndian(x / 256, n - 1) + [(x % 256) as bv8]
  }

  /** The least number of zero bytes that leaves eight bytes of the last block for the length. */
  function ZeroCount(len: nat): (k: nat)
    ensures (len + 1 + k) % 64 == 56 && k < 64
  {
    (119 - len % 64) % 64
  }

  const Word64: int := 0x1_0000_0000_0000_0000

  /** A one bit, zeros, and the length in bits. */
  function Padding(len: nat): Bytes {
    [0x80] + Zeros(ZeroCount(len)) + BigEndian(8 * len % Word64, 8)
  }

  lemma PaddingSize(len: nat)
    ensures |Padding(len)| == 9 + ZeroCount(len) && (len + |Padding(len)|) % 64 == 0
  {
    hide BigEndian, Zeros, ZeroCount;
    LastBlock(len + 1 + ZeroCount(len));
  }

  lemma LastBlock(n: nat)
    requires n % 64 == 56
    ensures (n + 8) % 64 == 0
  {
  }

  function Padded(m: Bytes): (p: Bytes)
    ensures |p| % 64 == 0
  {
    PaddingSize(|m|);
    m + Padding(|m|)
  }

  /** SHA-256 of a message. */
  function Hash(m: Bytes): Regs {
    Fold(Padded(m))
  }

  // ---- the streaming context -----------------------------------------------------------------

  /** What a context that has absorbed `m` holds: the hash of the complete blocks, and the rest. */
  ghost predicate Holds(m: Bytes, state: Regs, rest: Bytes) {
    var n := |m| - |rest|;
    n >= 0 && n % 64 == 0 && |rest| < 64 && m[n..] == rest && state == Fold(m[..n])
  }

  lemma Started()
    ensures Holds([], Initial(), [])
  {
  }

  /** More bytes, not yet a full block. */
  lemma Filled(m: Bytes, state: Regs, rest: Bytes, chunk: Bytes)
    requires Holds(m, state, rest) && |rest| + |chunk| < 64
    ensures Holds(m + chunk, state, rest + chunk)
  {
    hide Fold;
    var n := |m| - |rest|;
    assert (m + chunk)[..n] == m[..n];
    assert (m + chunk)[n..] == m[n..] + chunk;
  }

  /** The block is full. */
  lemma Flushed(m: Bytes, state: Regs, rest: Bytes, chunk: Bytes)
    requires Holds(m, state, rest) && |rest| + |chunk| == 64
    ensures Holds(m + chunk, Compress(state, rest + chunk), [])
  {
    hide Compress;
    var n := |m| - |rest|;
    var m' := m + chunk;
    assert |m'| == n + 64;
    assert m'[..n] == m[..n];
    assert m'[n..] == rest + chunk;
    assert m'[..|m'|] == m' && m'[|m'|..] == [];
  }

  class Context {
    var state: Regs
    var bitLen: int
    var buffer: array<bv8>
    var bufferLen: nat
    ghost var message: Bytes   // everything absorbed since init

    ghost predicate Valid()
      reads this, buffer
    {
      && buffer.Length == 64 && bufferLen < 64 && Holds(message, state, buffer[..bufferLen])
    }

    /** `sha256_init`. */
    constructor ()
      ensures Valid() && message == [] && bitLen == 0 && fresh(buffer)
    {
      state := Initial();
      bitLen := 0;
      buffer := new bv8[64](_ => 0);
      bufferLen := 0;
      message := [];
      new;
      Started();
      assert buffer[..0] == [];
    }

    /** The loop of `sha256_update` and of `sha256_final_hex`: feed bytes through the buffer. */
    method Absorb(data: Bytes)
      requires Valid()
      modifies this`state, this`bufferLen, this`message, buffer
      ensures Valid() && message == old(message) + data
    {
      hide Holds;
      var off := 0;
      assert message + data[..0] == message;
      while off < |data|
        invariant 0 <= off <= |data| && Valid() && buffer == old(buffer)
        invariant message == old(message) + data[..off]
      {
        var take := if |data| - off < 64 - bufferLen then |data| - off else 64 - bufferLen;
        Feed(data, off, take);
        assert data[..off] + data[off..off + take] == data[..off + take];
        off := off + take;
      }
      assert data[..|data|] == data;
    }

    /** One turn of that loop. */
    method Feed(data: Bytes, off: nat, take: nat)
      requires Valid() && off + take <= |data| && bufferLen + take <= 64
      modifies this`state, this`bufferLen, this`message, buffer
      ensures Valid() && message == old(message) + data[off..off + take]
    {
      hide Holds, Fold, Compress;
      ghost var m, rest, chunk := message, buffer[..bufferLen], data[off..off + take];
      Fill(data, off, take);
      message := m + chunk;
      if bufferLen == 64 {
        Flushed(m, state, rest, chunk);
        assert buffer[..] == buffer[..bufferLen];
        state := Transform(state, buffer[..]);
        bufferLen := 0;
        assert buffer[..0] == [];
      } else {
        Filled(m, state, rest, chunk);
      }
    }

    /** memcpy into the free part of the buffer. */
    method Fill(data: Bytes, off: nat, take: nat)
      requires buffer.Length == 64 && off + take <= |data| && bufferLen + take <= 64
      modifies this`bufferLen, buffer
      ensures bufferLen == old(bufferLen) + take
      ensures buffer[..bufferLen] == old(buffer[..bufferLen]) + data[off..off + take]
    {
      forall i | 0 <= i < take {
        buffer[bufferLen + i] := data[off + i];
      }
      bufferLen := bufferLen + take;
    }

    /** bit_len counts the message. */
    ghost predicate Counting()
      reads this
    {
      bitLen == 8 * |message| % Word64
    }

    /** `sha256_update`. */
    method Update(data: Bytes)
      requires Valid() && Counting()
      modifies this, buffer
      ensures Valid() && Counting() && buffer == old(buffer) && message == old(message) + data
    {
      hide Holds;
      CountMore(|message|, |data|);
      bitLen := (bitLen + 8 * |data|) % Word64;
      Absorb(data);
    }

    /** `sha256_final_hex`. */
    method FinalHex() returns (out: string)
      requires Valid() && Counting()
      modifies this, buffer
      ensures out == Hex(Words(Hash(old(message))))
    {
      hide Holds, Padding, Hash, Hex;
      ghost var m := message;
      var pad := MakePadding(bufferLen, bitLen, |message|) by { Remainder(message, state, buffer[..bufferLen]); }
      Absorb(pad);
      Complete(m, pad, state, buffer[..bufferLen]);
      out := HexWords(Words(state));
    }
  }

  method HexWords(words: seq<bv32>) returns (out: string)
    ensures out == Hex(words)
  {
    hide Digits;
    out := [];
    for i := 0 to |words|
      invariant out == Hex(words[..i])
    {
      var digits := WordDigits(words[i]);
      HexNext(words, i);
      out := out + digits;
    }
    assert words[..|words|] == words;
  }

  lemma Remainder(m: Bytes, state: Regs, rest: Bytes)
    requires Holds(m, state, rest)
    ensures |rest| == |m| % 64
  {
    hide Fold;
  }

  lemma CountMore(n: nat, k: nat)
    ensures (8 * n % Word64 + 8 * k) % Word64 == 8 * (n + k) % Word64
  {
  }

  lemma Complete(m: Bytes, pad: Bytes, state: Regs, rest: Bytes)
    requires pad == Padding(|m|) && Holds(m + pad, state, rest)
    ensures state == Hash(m)
  {
    hide Padding, Fold;
    PaddingSize(|m|);
    assert (m + pad)[..|m + pad|] == m + pad;
  }

  function Pow256(n: nat): (p: int)
    ensures p > 0
  {
    if n == 0 then 1 else 256 * Pow256(n - 1)
  }

  /** Byte `i` of a number, counted from the least significant. */
  function ByteAt(x: nat, i: nat): bv8 {
    (x / Pow256(i) % 256) as bv8
  }

  lemma DivDiv(x: nat, p: int)
    requires p > 0
    ensures x / 256 / p == x / (256 * p)
  {
    var a, r := x / 256, x % 256;
    var q, t := a / p, a % p;
    assert a == p * q + t;
    assert x == 256 * (p * q + t) + r;
    assert 256 * (p * q) == (256 * p) * q;
    assert x == (256 * p) * q + (256 * t + r);
    assert (256 * p) * q == q * (256 * p);
    ModUnique(256 * p, x, q, 256 * t + r);
  }

  lemma {:induction false} BigEndianAt(x: nat, n: nat, i: nat)
    requires i < n
    ensures BigEndian(x, n)[n - 1 - i] == ByteAt(x, i)
  {
    if i > 0 {
      BigEndianAt(x / 256, n - 1, i - 1);
      DivDiv(x, Pow256(i - 1));
    }
  }

  /** The padding as `sha256_final_hex` lays it out. */
  method MakePadding(bufferLen: nat, bits: nat, ghost len: nat) returns (pad: Bytes)
    requires bufferLen == len % 64 && bits == 8 * len % Word64
    ensures pad == Padding(len)
  {
    hide BigEndian, ByteAt;
    pad := [0x80];
    var zeros := if bufferLen < 56 then 56 - bufferLen - 1 else 120 - bufferLen - 1;
    assert zeros == ZeroCount(len);
    pad := pad + Zeros(zeros);
    ghost var head, tail := pad, BigEndian(bits, 8);
    var i := 7;
    assert tail[..0] == [];
    while i >= 0
      invariant -1 <= i <= 7 && pad == head + tail[..7 - i]
      decreases i
    {
      BigEndianAt(bits, 8, i);
      pad := pad + [ByteAt(bits, i)];
      assert tail[..8 - i] == tail[..7 - i] + [tail[7 - i]];
      i := i - 1;
    }
    assert tail[..8] == tail;
  }

  // ---- hexadecimal ---------------------------------------------------------------------------

  function Words(r: Regs): seq<bv32> {
    [r.a, r.b, r.c, r.d, r.e, r.f, r.g, r.h]
  }

  function Digit(n: bv4): char {
    var i := n as int;
    if i < 10 then '0' + i as char else 'a' + (i - 10) as char
  }

  function Nibble(v: bv32, shift: nat): bv4
    requires shift < 32
  {
    ((v >> shift) & 0xf) as bv4
  }

  /** The eight digits of a word, the first `n` of them. */
  function Digits(v: bv32, n: nat): string
    requires n <= 8
  {
    if n == 0 then [] else Digits(v, n - 1) + [Digit(Nibble(v, 32 - 4 * n))]
  }

  function Hex(words: seq<bv32>): string {
    if words == [] then [] else Hex(words[..|words| - 1]) + Digits(words[|words| - 1], 8)
  }

  lemma HexNext(words: seq<bv32>, i: nat)
    requires i < |words|
    ensures Hex(words[..i + 1]) == Hex(words[..i]) + Digits(words[i], 8)
  {
    hide Digits;
    assert words[..i + 1][..i] == words[..i];
  }

  method WordDigits(v: bv32) returns (out: string)
    ensures out == Digits(v, 8)
  {
    hide Nibble, Digit;
    out := [];
    var shift := 28;
    while shift >= 0
      invariant -4 <= shift <= 28 && shift % 4 == 0 && out == Digits(v, 7 - shift / 4)
    {
      out := out + [Digit(Nibble(v, shift))];
      shift := shift - 4;
    }
  }

  /** `sha256_hex_impl`. */
  method HashHex(data: Bytes) returns (out: string)
    ensures out == Hex(Words(Hash(data)))
  {
    hide Holds, Hash, Hex;
    var ctx := new Context();
    ctx.Update(data);
    assert [] + data == data;
    out := ctx.FinalHex();
  }

  function Concat(parts: seq<Bytes>): Bytes {
    if parts == [] then [] else Concat(parts[..|parts| - 1]) + parts[|parts| - 1]
  }

  /** However a message is split into updates, the result is the hash of the whole. */
  method HashParts(parts: seq<Bytes>) returns (out: string)
    ensures out == Hex(Words(Hash(Concat(parts))))
  {
    hide Holds, Hash, Hex;
    var ctx := new Context();
    for i := 0 to |parts|
      invariant ctx.Valid() && ctx.Counting() && fresh(ctx) && fresh(ctx.buffer) && ctx.message == Concat(parts[..i])
    {
      assert parts[..i + 1][..i] == parts[..i];
      ctx.Update(parts[i]);
    }
    assert parts[..|parts|] == parts;
    out := ctx.FinalHex();
  }
}
