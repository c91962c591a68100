/**
 Unpadded base64url (section 5 of RFC 4648), as `base64url_encode_impl` and `base64url_decode_impl`
 compute it: the decoder shifts six bits at a time into a 32-bit accumulator and lets old bits fall
 out at the top.
 */
module Base64Url {
  import opened Collections

  /** The alphabet: A-Z, a-z, 0-9, minus and underscore. */
  function Letter(v: bv6): char {
    var n := v as int;
    if n < 26 then 'A' + n as char
    else if n < 52 then 'a' + (n - 26) as char
    else if n < 62 then '0' + (n - 52) as char
    else if n == 62 then '-' else '_'
  }

  function Code(c: char): Option<int> {
    if 'A' <= c <= 'Z' then Some(c as int - 'A' as int)
    else if 'a' <= c <= 'z' then Some(c as int - 'a' as int + 26)
    else if '0' <= c <= '9' then Some(c as int - '0' as int + 52)
    else if c == '-' then Some(62)
    else if c == '_' then Some(63)
    else None
  }

  /** The decoder's reading of one character. */
  function Value(c: char): Option<bv6> {
    match Code(c)
    case None => None
    case Some(n) => Some(n as bv6)
  }

  /** The ranges of the decoder invert the table of the encoder. */
  lemma LetterValue(v: bv6)
    ensures Value(Letter(v)) == Some(v) && Letter(v) != '='
  {
    LetterCode(v);
    hide Letter, Code;
  }

  lemma LetterCode(v: bv6)
    ensures Code(Letter(v)) == Some(v as int) && Letter(v) != '='
  {
  }

  /** Table 2 of RFC 4648. */
  lemma Alphabet(v: bv6)
    ensures var n := v as int;
      && (n < 13 ==> Letter(v) == "ABCDEFGHIJKLM"[n]) && (13 <= n < 26 ==> Letter(v) == "NOPQRSTUVWXYZ"[n - 13])
      && (26 <= n < 39 ==> Letter(v) == "abcdefghijklm"[n - 26])
      && (39 <= n < 52 ==> Letter(v) == "nopqrstuvwxyz"[n - 39])
      && (52 <= n ==> Letter(v) == "0123456789-_"[n - 52])
  {
  }

  // ---- encoding ----------------------------------------------------------------------------

  function Lead(a: bv8): bv32 { a as bv32 << 16 }
  function AddSecond(v: bv32, b: bv8): bv32 { v | (b as bv32 << 8) }
  function AddThird(v: bv32, c: bv8): bv32 { v | (c as bv32) }

  /** The 24 bits of the first group of `s`, missing bytes as zeros. */
  function Group(s: seq<bv8>): bv32
    requires s != []
  {
    var v := Lead(s[0]);
    var v := if |s| > 1 then AddSecond(v, s[1]) else v;
    if |s| > 2 then AddThird(v, s[2]) else v
  }

  /** The four sextets of a group. */
  function First(v: bv32): bv6 { ((v >> 18) & 0x3f) as bv6 }
  function Second(v: bv32): bv6 { ((v >> 12) & 0x3f) as bv6 }
  function Third(v: bv32): bv6 { ((v >> 6) & 0x3f) as bv6 }
  function Fourth(v: bv32): bv6 { (v & 0x3f) as bv6 }

  /** The characters of the first group of `s`. */
  function EncodeGroup(s: seq<bv8>): string
    requires s != []
  {
    var v := Group(s);
    [Letter(First(v)), Letter(Second(v))]
    + (if |s| > 1 then [Letter(Third(v))] else [])
    + (if |s| > 2 then [Letter(Fourth(v))] else [])
  }

  function Encoded(s: seq<bv8>): string
    decreases |s|
  {
    if s == [] then [] else EncodeGroup(s) + Encoded(if |s| > 3 then s[3..] else [])
  }

  method Encode(s: seq<bv8>) returns (out: string)
    ensures out == Encoded(s)
  {
    hide Letter, Lead, AddSecond, AddThird, First, Second, Third, Fourth, Encoded;
    out := [];
    var i := 0;
    assert s[0..] == s;
    EmptyText(s);
    while i < |s|
      invariant i <= |s| + 2
      invariant out + Encoded(s[if i < |s| then i else |s|..]) == Encoded(s)
    {
      var v := Lead(s[i]);
      if i + 1 < |s| { v := AddSecond(v, s[i + 1]); }
      if i + 2 < |s| { v := AddThird(v, s[i + 2]); }
      ghost var rest := s[i..];
      assert v == Group(rest);
      ghost var before := out;
      out := out + [Letter(First(v))];
      out := out + [Letter(Second(v))];
      if i + 1 < |s| { out := out + [Letter(Third(v))]; }
      if i + 2 < |s| { out := out + [Letter(Fourth(v))]; }
      assert out == before + EncodeGroup(rest);
      hide EncodeGroup, Group;
      NextGroup(s, i);
      i := i + 3;
    }
  }

  /** The sextets are the bits of the bytes in order, from the most significant on. */
  lemma SextetsAre(s: seq<bv8>)
    requires |s| >= 3
    ensures First(Group(s)) == (s[0] >> 2) as bv6 && Fourth(Group(s)) == (s[2] & 0x3f) as bv6
    ensures Second(Group(s)) == (((s[0] & 0x3) << 4) | (s[1] >> 4)) as bv6
    ensures Third(Group(s)) == (((s[1] & 0xf) << 2) | (s[2] >> 6)) as bv6
  {
    SextetBits(s[0], s[1], s[2]);
    hide First, Second, Third, Fourth, Lead, AddSecond, AddThird;
  }

  lemma SextetBits(a: bv8, b: bv8, c: bv8)
    ensures var v := AddThird(AddSecond(Lead(a), b), c);
      && First(v) == (a >> 2) as bv6 && Fourth(v) == (c & 0x3f) as bv6
      && Second(v) == (((a & 0x3) << 4) | (b >> 4)) as bv6 && Third(v) == (((b & 0xf) << 2) | (c >> 6)) as bv6
  {
  }

  lemma EmptyText(s: seq<bv8>)
    ensures Encoded(s[|s|..]) == []
  {
  }

  lemma NextGroup(s: seq<bv8>, i: nat)
    requires i < |s|
    ensures Encoded(s[i..]) == EncodeGroup(s[i..]) + Encoded(s[if i + 3 < |s| then i + 3 else |s|..])
  {
    hide EncodeGroup;
    var rest := s[i..];
    if |rest| > 3 { assert rest[3..] == s[i + 3..]; }
  }

  // ---- decoding ----------------------------------------------------------------------------

  datatype Result = Result(out: seq<bv8>, ok: bool)

  function Shift(buf: bv32, v: bv6): bv32 {
    (buf << 6) | (v as bv32)
  }

  function TopByte(buf: bv32, bits: int): bv8
    requires 0 <= bits < 8
  {
    ((buf >> bits) & 0xff) as bv8
  }

  function Prefixed(out: seq<bv8>, r: Result): Result {
    r.(out := out + r.out)
  }

  /** What the decoder makes of the remaining input, from a state of its accumulator. */
  function Decoded(s: string, buf: bv32, bits: int): Result
    requires 0 <= bits < 8
  {
    if s == [] || s[0] == '=' then Result([], true)
    else match Value(s[0])
      case None => Result([], false)
      case Some(v) =>
        var b := Shift(buf, v);
        if bits + 6 >= 8 then Prefixed([TopByte(b, bits - 2)], Decoded(s[1..], b, bits - 2))
        else Decoded(s[1..], b, bits + 6)
  }

  method Decode(s: string) returns (out: seq<bv8>, ok: bool)
    ensures Result(out, ok) == Decoded(s, 0, 0)
  {
    hide Decoded, Value, Shift, TopByte, Prefixed;
    ok := false;
    out := [];
    var buf: bv32, bits, i := 0, 0, 0;
    ghost var all := Decoded(s, 0, 0);
    assert s[0..] == s;
    PrefixedNone(all);
    while i < |s|
      invariant 0 <= i <= |s| && 0 <= bits < 8
      invariant all == Prefixed(out, Decoded(s[i..], buf, bits))
    {
      DecodeNext(s, i, buf, bits);
      PrefixedEnd(out, false);
      if s[i] == '=' { break; }
      var v := Value(s[i]);
      if v == None { return; }
      buf := Shift(buf, v.value);
      bits := bits + 6;
      if bits >= 8 {
        bits := bits - 8;
        PrefixedJoin(out, [TopByte(buf, bits)], Decoded(s[i + 1..], buf, bits));
        out := out + [TopByte(buf, bits)];
      }
      i := i + 1;
    }
    ok := true;
    if i == |s| {
      assert s[i..] == [];
      NoText(buf, bits);
    }
    PrefixedEnd(out, true);
  }

  lemma PrefixedEnd(out: seq<bv8>, ok: bool)
    ensures Prefixed(out, Result([], ok)) == Result(out, ok)
  {
    var r := Result([], ok);
    assert out + r.out == out;
  }

  lemma PrefixedNone(r: Result)
    ensures Prefixed([], r) == r
  {
    assert [] + r.out == r.out;
  }

  lemma PrefixedJoin(a: seq<bv8>, b: seq<bv8>, r: Result)
    ensures Prefixed(a, Prefixed(b, r)) == Prefixed(a + b, r)
  {
    assert a + (b + r.out) == a + b + r.out;
  }

  lemma NoText(buf: bv32, bits: int)
    requires 0 <= bits < 8
    ensures Decoded([], buf, bits) == Result([], true)
  {
  }

  lemma DecodeNext(s: string, i: nat, buf: bv32, bits: int)
    requires i < |s| && 0 <= bits < 8
    ensures var v := Value(s[i]);
      Decoded(s[i..], buf, bits) ==
      if s[i] == '=' then Result([], true)
      else if v == None then Result([], false)
      else
        var b := Shift(buf, v.value);
        if bits + 6 >= 8 then Prefixed([TopByte(b, bits - 2)], Decoded(s[i + 1..], b, bits - 2))
        else Decoded(s[i + 1..], b, bits + 6)
  {
    hide Shift, TopByte, Value;
    assert s[i..][1..] == s[i + 1..];
  }

  // ---- the round trip ----------------------------------------------------------------------

  /** The bytes of a group reappear as the windows of the accumulator, whatever it held before. */
  lemma Windows(v: bv32, buf: bv32)
    requires v < 0x100_0000
    ensures var b2 := Shift(Shift(buf, First(v)), Second(v));
      var b3 := Shift(b2, Third(v)); var b4 := Shift(b3, Fourth(v));
      TopByte(b2, 4) == High(v) && TopByte(b3, 2) == Middle(v) && TopByte(b4, 0) == Low(v)
  {
  }

  function High(v: bv32): bv8 { ((v >> 16) & 0xff) as bv8 }
  function Middle(v: bv32): bv8 { ((v >> 8) & 0xff) as bv8 }
  function Low(v: bv32): bv8 { (v & 0xff) as bv8 }

  lemma GroupBytes(s: seq<bv8>)
    requires s != []
    ensures var v := Group(s);
      v < 0x100_0000 && High(v) == s[0] && (|s| > 1 ==> Middle(v) == s[1]) && (|s| > 2 ==> Low(v) == s[2])
  {
  }

  lemma ReadLetter(v: bv6, tail: string, buf: bv32, bits: int)
    requires 0 <= bits < 8
    ensures Decoded([Letter(v)] + tail, buf, bits) ==
      var b := Shift(buf, v);
      if bits >= 2 then Prefixed([TopByte(b, bits - 2)], Decoded(tail, b, bits - 2)) else Decoded(tail, b, bits + 6)
  {
    hide Shift, TopByte, Letter, Value;
    LetterValue(v);
    assert ([Letter(v)] + tail)[1..] == tail;
  }

  /** Reading the characters of a group gives its bytes. */
  lemma ReadGroup(s: seq<bv8>, tail: string, buf: bv32) returns (b: bv32, bits: int)
    requires s != []
    ensures 0 <= bits < 8 && (|s| >= 3 ==> bits == 0)
    ensures Decoded(EncodeGroup(s) + tail, buf, 0) == Prefixed(if |s| >= 3 then s[..3] else s, Decoded(tail, b, bits))
  {
    hide Letter, First, Second, Third, Fourth, Shift, TopByte, Decoded, Group, High, Middle, Low, Prefixed;
    var v := Group(s);
    GroupBytes(s);
    Windows(v, buf);
    var x3 := if |s| > 2 then [Letter(Fourth(v))] + tail else tail;
    var x2 := if |s| > 1 then [Letter(Third(v))] + x3 else tail;
    assert EncodeGroup(s) + tail == [Letter(First(v))] + ([Letter(Second(v))] + x2);
    ReadLetter(First(v), [Letter(Second(v))] + x2, buf, 0);
    b := Shift(buf, First(v));
    ReadLetter(Second(v), x2, b, 6);
    b, bits := Shift(b, Second(v)), 4;
    if |s| > 1 {
      ReadLetter(Third(v), x3, b, 4);
      b, bits := Shift(b, Third(v)), 2;
      if |s| > 2 {
        ReadLetter(Fourth(v), tail, b, 2);
        b, bits := Shift(b, Fourth(v)), 0;
        PrefixedJoin([s[1]], [s[2]], Decoded(tail, b, 0));
      }
      PrefixedJoin([s[0]], if |s| > 2 then [s[1], s[2]] else [s[1]], Decoded(tail, b, bits));
      assert |s| > 2 ==> [s[1]] + [s[2]] == [s[1], s[2]] && [s[0]] + [s[1], s[2]] == s[..3];
      assert |s| == 2 ==> [s[0]] + [s[1]] == s;
    } else {
      assert [s[0]] == s;
    }
  }

  /** Decoding an encoding succeeds and gives the bytes back, whatever the accumulator held. */
  lemma {:induction false} RoundTrip(s: seq<bv8>, buf: bv32)
    ensures Decoded(Encoded(s), buf, 0) == Result(s, true)
    decreases |s|
  {
    if s != [] {
      hide EncodeGroup;
      var rest := if |s| > 3 then s[3..] else [];
      var b, bits := ReadGroup(s, Encoded(rest), buf);
      if |s| > 3 { RoundTrip(rest, b); }
      assert |s| <= 3 ==> Encoded(rest) == [];
    }
  }

  /** For every byte string, decoding its encoding succeeds and returns it. */
  method EncodeThenDecode(s: seq<bv8>) returns (out: seq<bv8>, ok: bool)
    ensures ok && out == s
  {
    var text := Encode(s);
    out, ok := Decode(text);
    RoundTrip(s, 0);
  }

  /** The text up to the first padding character is made of letters of the alphabet. */
  predicate Readable(s: string) {
    s == [] || s[0] == '=' || (Value(s[0]).Some? && Readable(s[1..]))
  }

  /** The decoder accepts exactly the readable texts. */
  lemma {:induction false} AcceptsReadable(s: string, buf: bv32, bits: int)
    requires 0 <= bits < 8
    ensures Decoded(s, buf, bits).ok <==> Readable(s)
    decreases s
  {
    hide Shift, Value, TopByte;
    if s != [] && s[0] != '=' && Value(s[0]).Some? {
      var b := Shift(buf, Value(s[0]).value);
      AcceptsReadable(s[1..], b, if bits >= 2 then bits - 2 else bits + 6);
    }
  }
}
