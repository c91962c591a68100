/**
 The binary codec for Lua values (`encode_internal` / `decode_internal`): the format as functions
 on byte sequences, with the back references by which strings and tables are shared.
 */
module Codec {
  import opened Collections

  type Byte = b: int | 0 <= b < 256

  /** A Lua value.  Tables are references into a heap; strings are compared by content, as Lua's
      raw table access does; a float is carried as its 64-bit representation. */
  datatype Value =
    | Nil
    | Bool(b: bool)
    | Int(i: int)
    | Num(bits: nat)
    | Str(s: seq<Byte>)
    | Table(addr: nat)

  /** The tables being encoded, each as the key/value pairs that `lua_next` enumerates. */
  type Heap = map<nat, seq<(Value, Value)>>

  const TAG_NIL: Byte := 0
  const TAG_BOOLEAN: Byte := 1
  const TAG_NUMBER: Byte := 3
  const TAG_STRING: Byte := 4
  const TAG_TABLE: Byte := 5
  const TAG_BACKREF: Byte := 9
  const SPEC: Byte := 0x80

  const TWO63 := 0x8000_0000_0000_0000
  const TWO64 := 0x1_0000_0000_0000_0000

  // ---- 64-bit words in memory order ----------------------------------------------------

  function Le(n: nat, k: nat): (s: seq<Byte>)
    ensures |s| == k
  {
    if k == 0 then [] else [n % 256] + Le(n / 256, k - 1)
  }

  function UnLe(s: seq<Byte>): nat {
    if s == [] then 0 else s[0] + 256 * UnLe(s[1..])
  }

  function Unsigned(i: int): (n: nat)
    requires -TWO63 <= i < TWO63
  {
    if i >= 0 then i else i + TWO64
  }

  function Signed(n: nat): int {
    if n < TWO63 then n else n - TWO64
  }

  // ---- values and heaps ----------------------------------------------------------------

  predicate ValueOk(h: Heap, v: Value) {
    match v
    case Int(i) => -TWO63 <= i < TWO63
    case Num(bits) => bits < TWO64
    case Table(a) => a in h
    case _ => true
  }

  predicate PairsOk(h: Heap, ps: seq<(Value, Value)>) {
    forall i :: 0 <= i < |ps| ==> ValueOk(h, ps[i].0) && ValueOk(h, ps[i].1) && ps[i].0 != Nil && ps[i].1 != Nil
  }

  /** A Lua heap: references resolve, and neither keys nor values are nil. */
  ghost predicate HeapOk(h: Heap) {
    forall a <- h :: PairsOk(h, h[a])
  }

  // ---- encoder -------------------------------------------------------------------------

  /** The stream so far and the encoder's recursion table: where each string or table began. */
  datatype Enc = Enc(bytes: seq<Byte>, seen: map<Value, nat>)

  ghost function Unseen(h: Heap, e: Enc): set<nat> {
    set a | a in h && Table(a) !in e.seen
  }

  lemma UnseenShrinks(h: Heap, e: Enc, e': Enc)
    requires e.seen.Keys <= e'.seen.Keys
    ensures |Unseen(h, e')| <= |Unseen(h, e)|
    ensures forall a <- h :: Table(a) !in e.seen && Table(a) in e'.seen ==> |Unseen(h, e')| < |Unseen(h, e)|
  {
    SubsetSize(Unseen(h, e'), Unseen(h, e));
    forall a | a in h && Table(a) !in e.seen && Table(a) in e'.seen ensures |Unseen(h, e')| < |Unseen(h, e)| {
      SubsetSize(Unseen(h, e'), Unseen(h, e) - {a});
    }
  }

  function BackRef(e: Enc, offset: nat): Enc {
    Enc(e.bytes + ([TAG_BACKREF] + Le(offset, 8)), e.seen)
  }

  ghost predicate Grows(e: Enc, e': Enc) {
    e.bytes <= e'.bytes && e.seen.Keys <= e'.seen.Keys && forall v <- e.seen :: e'.seen[v] == e.seen[v]
  }

  function EncodeVal(h: Heap, v: Value, e: Enc): (r: Enc)
    requires HeapOk(h) && ValueOk(h, v)
    ensures Grows(e, r) && |r.bytes| > |e.bytes|
    decreases |Unseen(h, e)|, 0
  {
    match v
    case Nil => e.(bytes := e.bytes + [TAG_NIL])
    case Bool(b) => e.(bytes := e.bytes + [if b then TAG_BOOLEAN + SPEC else TAG_BOOLEAN])
    case Int(i) => e.(bytes := e.bytes + ([TAG_NUMBER + SPEC] + Le(Unsigned(i), 8)))
    case Num(bits) => e.(bytes := e.bytes + ([TAG_NUMBER] + Le(bits, 8)))
    case Str(s) =>
      if v in e.seen then BackRef(e, e.seen[v])
      else Enc(e.bytes + ([TAG_STRING] + Le(|s|, 8) + s), e.seen[v := |e.bytes|])
    case Table(a) =>
      if v in e.seen then BackRef(e, e.seen[v])
      else
        var e1 := Enc(e.bytes + [TAG_TABLE], e.seen[v := |e.bytes|]);
        UnseenShrinks(h, e, e1);
        var e2 := EncodePairs(h, h[a], e1);
        e2.(bytes := e2.bytes + [TAG_NIL])
  }

  function EncodePairs(h: Heap, ps: seq<(Value, Value)>, e: Enc): (r: Enc)
    requires HeapOk(h) && PairsOk(h, ps)
    ensures Grows(e, r)
    decreases |Unseen(h, e)|, |ps| + 1
  {
    if ps == [] then e
    else
      var e1 := EncodeVal(h, ps[0].0, e);
      UnseenShrinks(h, e, e1);
      var e2 := EncodeVal(h, ps[0].1, e1);
      UnseenShrinks(h, e, e2);
      EncodePairs(h, ps[1..], e2)
  }

  function Encode(h: Heap, v: Value): seq<Byte>
    requires HeapOk(h) && ValueOk(h, v)
  {
    EncodeVal(h, v, Enc([], map[])).bytes
  }

  // ---- decoder -------------------------------------------------------------------------

  type LuaTable = map<Value, Value>

  /** Read position, the tables created so far, and the decoder's recursion table. */
  datatype Dec = Dec(pos: nat, tables: seq<LuaTable>, marks: map<nat, Value>)

  datatype Result<+T> = Ok(value: T, d: Dec) | Fail

  /** `lua_rawset`: assigning nil removes the key. */
  function RawSet(t: LuaTable, k: Value, v: Value): LuaTable {
    if v == Nil then t - {k} else t[k := v]
  }

  predicate CanRead(data: seq<Byte>, d: Dec, n: nat) {
    d.pos + n <= |data|
  }

  /** `decode_variable` for an 8-byte word. */
  function ReadWord(data: seq<Byte>, d: Dec): (r: Result<nat>)
    ensures r.Ok? ==> r.d == d.(pos := d.pos + 8) && CanRead(data, d, 8)
  {
    if CanRead(data, d, 8) then Ok(UnLe(data[d.pos..d.pos + 8]), d.(pos := d.pos + 8)) else Fail
  }

  /** One value together with the tag byte that introduced it. */
  function DecodeVal(data: seq<Byte>, d: Dec): (r: Result<(Value, Byte)>)
    ensures r.Ok? ==> d.pos < r.d.pos <= |data| && |d.tables| <= |r.d.tables|
    decreases |data| - d.pos, 0
  {
    if !CanRead(data, d, 1) then Fail
    else
      var tag, d1 := data[d.pos], d.(pos := d.pos + 1);
      if tag == TAG_NIL then Ok((Nil, tag), d1)
      else if tag == TAG_BOOLEAN || tag == TAG_BOOLEAN + SPEC then Ok((Bool(tag == TAG_BOOLEAN + SPEC), tag), d1)
      else if tag == TAG_NUMBER then
        match ReadWord(data, d1)
        case Fail => Fail
        case Ok(n, d2) => Ok((Num(n), tag), d2)
      else if tag == TAG_NUMBER + SPEC then
        match ReadWord(data, d1)
        case Fail => Fail
        case Ok(n, d2) => Ok((Int(Signed(n)), tag), d2)
      else if tag == TAG_STRING then
        match ReadWord(data, d1)
        case Fail => Fail
        case Ok(n, d2) =>
          var len := Signed(n);
          if len < 0 || len > |data| - d2.pos then Fail
          else
            var s := Str(data[d2.pos..d2.pos + len]);
            Ok((s, tag), d2.(pos := d2.pos + len, marks := d2.marks[d.pos := s]))
      else if tag == TAG_TABLE then
        var t := |d1.tables|;
        var d2 := d1.(tables := d1.tables + [map[]], marks := d1.marks[d.pos := Table(t)]);
        match DecodePairs(data, d2, t)
        case Fail => Fail
        case Ok(_, d3) => Ok((Table(t), tag), d3)
      else if tag == TAG_BACKREF then
        match ReadWord(data, d1)
        case Fail => Fail
        case Ok(n, d2) =>
          if Signed(n) in d2.marks then Ok((d2.marks[Signed(n)], tag), d2) else Fail
      else Fail
  }

  /** The key/value loop of a table, up to the closing nil. */
  function DecodePairs(data: seq<Byte>, d: Dec, t: nat): (r: Result<()>)
    requires t < |d.tables|
    ensures r.Ok? ==> d.pos < r.d.pos <= |data| && |d.tables| <= |r.d.tables|
    decreases |data| - d.pos, 1
  {
    match DecodeVal(data, d)
    case Fail => Fail
    case Ok((k, tag), d1) =>
      if tag == TAG_NIL then Ok((), d1)
      else
        match DecodeVal(data, d1)
        case Fail => Fail
        case Ok((v, _), d2) =>
          DecodePairs(data, d2.(tables := d2.tables[t := RawSet(d2.tables[t], k, v)]), t)
  }

  function Decode(data: seq<Byte>): Result<(Value, Byte)> {
    DecodeVal(data, Dec(0, [], map[]))
  }
}
