/**
 HMAC-SHA-256 (section 2 of RFC 2104) as `hmac_sha256_raw_impl` computes it: by way of the
 hexadecimal text that the hash function returns, turned back into bytes.
 */
module Hmac {
  import opened Sha256

  /** Big-endian bytes of a word. */
  function WordBytes(v: bv32): Bytes {
    [ByteOf(v, 24), ByteOf(v, 16), ByteOf(v, 8), ByteOf(v, 0)]
  }

  function ByteOf(v: bv32, shift: nat): bv8
    requires shift < 32
  {
    ((v >> shift) & 0xff) as bv8
  }

  function BytesOf(words: seq<bv32>): Bytes {
    if words == [] then [] else BytesOf(words[..|words| - 1]) + WordBytes(words[|words| - 1])
  }

  /** The hash value as a byte string. */
  function H(m: Bytes): Bytes {
    BytesOf(Words(Hash(m)))
  }

  function XorPad(k: Bytes, pad: bv8): Bytes {
    seq(64, i requires 0 <= i => Xor(if i < |k| then k[i] else 0, pad))
  }

  /** Keys longer than a block are hashed first. */
  function BlockKey(key: Bytes): Bytes {
    if |key| > 64 then H(key) else key
  }

  /** H(K xor opad, H(K xor ipad, text)), the key padded with zeros to the block length. */
  function HmacOf(key: Bytes, text: Bytes): Bytes {
    H(XorPad(BlockKey(key), 0x5c) + H(XorPad(BlockKey(key), 0x36) + text))
  }

  // ---- hexadecimal text back to bytes --------------------------------------------------------

  /** `c | 0x20` on a character code below 256. */
  function Lower(c: int): int {
    if c / 32 % 2 == 1 then c else c + 32
  }

  /** The lambda `nib`. */
  function Nib(c: char): bv8 {
    NibCode(c) as bv8
  }

  function NibCode(c: char): (n: int)
    ensures 0 <= n < 256
  {
    if '0' <= c <= '9' then c as int - '0' as int else (Lower(c as int) - 'a' as int + 10) % 256
  }

  function Pair(hi: bv8, lo: bv8): bv8 {
    (hi << 4) | lo
  }

  function Raw(s: string): Bytes {
    if |s| < 2 then [] else [Pair(Nib(s[0]), Nib(s[1]))] + Raw(s[2..])
  }

  method FromHex(s: string) returns (raw: Bytes)
    ensures raw == Raw(s)
  {
    hide Pair, Nib;
    raw := [];
    var i := 0;
    assert s[0..] == s;
    while i + 1 < |s|
      invariant 0 <= i <= |s| && raw + Raw(s[i..]) == Raw(s)
    {
      RawNext(s, i);
      raw := raw + [Pair(Nib(s[i]), Nib(s[i + 1]))];
      i := i + 2;
    }
  }

  lemma RawNext(s: string, i: nat)
    requires i + 1 < |s|
    ensures Raw(s[i..]) == [Pair(Nib(s[i]), Nib(s[i + 1]))] + Raw(s[i + 2..])
  {
    hide Pair, Nib;
    assert s[i..][2..] == s[i + 2..];
  }

  lemma DigitCode(n: bv4)
    ensures NibCode(Digit(n)) == n as int
  {
    var i := n as int;
    assert Digit(n) as int == if i < 10 then 48 + i else 87 + i;
  }

  lemma SameBits(n: bv4)
    ensures (n as int) as bv8 == n as bv8
  {
  }

  lemma NibDigit(n: bv4)
    ensures Nib(Digit(n)) == n as bv8
  {
    hide NibCode, Digit;
    DigitCode(n);
    SameBits(n);
  }

  /** Two neighbouring nibbles of a word make a byte, window by window. */
  lemma NibblePair24(v: bv32)
    ensures Pair(Nibble(v, 28) as bv8, Nibble(v, 24) as bv8) == ByteOf(v, 24)
  {
    var w := (v >> 24) & 0xff;
    assert (v >> 28) & 0xf == (w >> 4) & 0xf && (v >> 24) & 0xf == w & 0xf;
  }

  lemma NibblePair16(v: bv32)
    ensures Pair(Nibble(v, 20) as bv8, Nibble(v, 16) as bv8) == ByteOf(v, 16)
  {
    var w := (v >> 16) & 0xff;
    assert (v >> 20) & 0xf == (w >> 4) & 0xf && (v >> 16) & 0xf == w & 0xf;
  }

  lemma NibblePair8(v: bv32)
    ensures Pair(Nibble(v, 12) as bv8, Nibble(v, 8) as bv8) == ByteOf(v, 8)
  {
    var w := (v >> 8) & 0xff;
    assert (v >> 12) & 0xf == (w >> 4) & 0xf && (v >> 8) & 0xf == w & 0xf;
  }

  lemma NibblePair0(v: bv32)
    ensures Pair(Nibble(v, 4) as bv8, Nibble(v, 0) as bv8) == ByteOf(v, 0)
  {
    var w := v & 0xff;
    assert (v >> 4) & 0xf == (w >> 4) & 0xf && v & 0xf == w & 0xf;
  }

  lemma {:induction false} RawJoin(a: string, b: string)
    requires |a| % 2 == 0
    ensures Raw(a + b) == Raw(a) + Raw(b)
    decreases |a|
  {
    hide Pair, Nib;
    if a == [] {
      assert a + b == b;
    } else {
      assert (a + b)[2..] == a[2..] + b;
      RawJoin(a[2..], b);
    }
  }

  lemma {:induction false} DigitsSize(v: bv32, n: nat)
    requires n <= 8
    ensures |Digits(v, n)| == n
  {
    hide Digit, Nibble;
    if n > 0 { DigitsSize(v, n - 1); }
  }

  lemma RawOf2(hi: bv4, lo: bv4)
    ensures Raw([Digit(hi), Digit(lo)]) == [Pair(hi as bv8, lo as bv8)]
  {
    hide Digit, Nib, Pair;
    NibDigit(hi);
    NibDigit(lo);
    assert [Digit(hi), Digit(lo)][2..] == [];
  }

  lemma NibblePair(v: bv32, n: nat)
    requires n < 4
    ensures Pair(Nibble(v, 28 - 8 * n) as bv8, Nibble(v, 24 - 8 * n) as bv8) == ByteOf(v, 24 - 8 * n)
  {
    hide Pair, Nibble, ByteOf;
    if n == 0 {
      NibblePair24(v);
    } else if n == 1 {
      NibblePair16(v);
    } else if n == 2 {
      NibblePair8(v);
    } else {
      NibblePair0(v);
    }
  }

  /** Two more digits of a word are one more byte. */
  lemma DigitsAddByte(v: bv32, n: nat)
    requires n < 4
    ensures Raw(Digits(v, 2 * n + 2)) == Raw(Digits(v, 2 * n)) + [ByteOf(v, 24 - 8 * n)]
  {
    hide Digit, Nibble, Pair, ByteOf, Raw;
    var hi, lo := Nibble(v, 28 - 8 * n), Nibble(v, 24 - 8 * n);
    DigitsSize(v, 2 * n);
    assert Digits(v, 2 * n + 1) == Digits(v, 2 * n) + [Digit(hi)];
    assert Digits(v, 2 * n + 2) == Digits(v, 2 * n) + [Digit(hi), Digit(lo)];
    RawJoin(Digits(v, 2 * n), [Digit(hi), Digit(lo)]);
    RawOf2(hi, lo);
    NibblePair(v, n);
  }

  lemma FourInARow<T>(s: seq<T>, one: seq<T>, two: seq<T>, three: seq<T>, four: seq<T>, a: T, b: T, c: T, d: T)
    requires s == [] && one == s + [a] && two == one + [b] && three == two + [c] && four == three + [d]
    ensures four == [a, b, c, d]
  {
  }

  lemma RawOfWord(v: bv32)
    ensures Raw(Digits(v, 8)) == WordBytes(v)
  {
    hide Digit, Nibble, Pair, Nib, ByteOf;
    assert Raw(Digits(v, 0)) == [];
    hide Digits, Raw;
    DigitsAddByte(v, 0);
    DigitsAddByte(v, 1);
    DigitsAddByte(v, 2);
    DigitsAddByte(v, 3);
    FourInARow(Raw(Digits(v, 0)), Raw(Digits(v, 2)), Raw(Digits(v, 4)), Raw(Digits(v, 6)), Raw(Digits(v, 8)),
               ByteOf(v, 24), ByteOf(v, 16), ByteOf(v, 8), ByteOf(v, 0));
  }

  /** The hexadecimal text of a hash value gives back its bytes. */
  lemma {:induction false} RawOfHex(words: seq<bv32>)
    ensures Raw(Hex(words)) == BytesOf(words) && |Hex(words)| == 8 * |words|
  {
    hide Digit, Nibble, Pair, Nib, ByteOf, WordBytes;
    if words == [] {
      assert Raw(Hex(words)) == [];
    } else {
      hide Digits, Raw;
      var w := words[|words| - 1];
      RawOfHex(words[..|words| - 1]);
      RawOfWord(w);
      DigitsSize(w, 8);
      RawJoin(Hex(words[..|words| - 1]), Digits(w, 8));
    }
  }

  lemma {:induction false} BytesSize(words: seq<bv32>)
    ensures |BytesOf(words)| == 4 * |words|
  {
    if words != [] { BytesSize(words[..|words| - 1]); }
  }

  // ---- the code --------------------------------------------------------------------------------

  /** Hash two parts one after the other, and turn the text into bytes. */
  method HashRaw(first: Bytes, second: Bytes) returns (raw: Bytes)
    ensures raw == H(first + second)
  {
    hide Holds, Hash, Hex, Raw, BytesOf;
    var ctx := new Context();
    ctx.Update(first);
    ctx.Update(second);
    assert [] + first + second == first + second;
    var hex := ctx.FinalHex();
    raw := FromHex(hex);
    RawOfHex(Words(Hash(first + second)));
  }

  function Xor(x: bv8, y: bv8): bv8 { x ^ y }

  lemma XorFacts(x: bv8, y: bv8)
    ensures Xor(x, y) == Xor(y, x) && Xor(0, x) == x
  {
  }

  /** A pad xored with the key, byte by byte. */
  method KeyPad(k: Bytes, pad: bv8) returns (out: Bytes)
    requires |k| <= 64
    ensures out == XorPad(k, pad)
  {
    hide Xor;
    var a := new bv8[64](_ => pad);
    for i := 0 to |k|
      invariant forall j :: 0 <= j < 64 ==> a[j] == if j < i then Xor(k[j], pad) else pad
    {
      XorFacts(k[i], pad);
      a[i] := Xor(a[i], k[i]);
    }
    out := a[..];
    XorFacts(pad, pad);
  }

  /** `hmac_sha256_raw_impl`, for keys of every length. */
  method HmacRaw(key: Bytes, data: Bytes) returns (out: Bytes)
    ensures out == HmacOf(key, data)
  {
    hide H, XorPad;
    var k := key;
    if |k| > 64 {
      var digest := HashHex(k);
      k := FromHex(digest);
      DigestBytes(key);
    }
    var ipad := KeyPad(k, 0x36);
    var opad := KeyPad(k, 0x5c);
    var inner := HashRaw(ipad, data);
    out := HashRaw(opad, inner);
  }

  lemma DigestBytes(m: Bytes)
    ensures Raw(Hex(Words(Hash(m)))) == H(m) && |H(m)| == 32
  {
    hide Hash, Hex, Raw, BytesOf;
    RawOfHex(Words(Hash(m)));
    BytesSize(Words(Hash(m)));
  }

  function HighNibble(b: bv8): bv4 { (b >> 4) as bv4 }
  function LowNibble(b: bv8): bv4 { (b & 0xf) as bv4 }

  /** Two digits for every byte. */
  function HexBytes(b: Bytes): string {
    if b == [] then [] else HexBytes(b[..|b| - 1]) + [Digit(HighNibble(b[|b| - 1])), Digit(LowNibble(b[|b| - 1]))]
  }

  /** `hmac_sha256_hex_impl`. */
  method HmacHex(key: Bytes, data: Bytes) returns (out: string)
    ensures out == HexBytes(HmacOf(key, data)) && Raw(out) == HmacOf(key, data)
  {
    hide HmacOf, Digit, HighNibble, LowNibble;
    var raw := HmacRaw(key, data);
    out := [];
    for i := 0 to |raw|
      invariant out == HexBytes(raw[..i])
    {
      assert raw[..i + 1][..i] == raw[..i];
      out := out + [Digit(HighNibble(raw[i]))];
      out := out + [Digit(LowNibble(raw[i]))];
    }
    assert raw[..|raw|] == raw;
    HexRoundTrip(raw);
  }

  lemma Nibbles(b: bv8)
    ensures Pair(HighNibble(b) as bv8, LowNibble(b) as bv8) == b
  {
  }

  lemma {:induction false} HexRoundTrip(b: Bytes)
    ensures Raw(HexBytes(b)) == b && |HexBytes(b)| == 2 * |b|
  {
    hide Digit, Nib, Pair, HighNibble, LowNibble;
    if b != [] {
      var x := b[|b| - 1];
      HexRoundTrip(b[..|b| - 1]);
      NibDigit(HighNibble(x));
      NibDigit(LowNibble(x));
      Nibbles(x);
      var tail := [Digit(HighNibble(x)), Digit(LowNibble(x))];
      assert tail[2..] == [] && Raw(tail) == [x];
      RawJoin(HexBytes(b[..|b| - 1]), tail);
    }
  }
}
