/**
 The codec's format itself: the bytes that scalars and new strings get, and what a decoder does with
 a stream that is cut short or followed by other data.
 */
module CodecFormat {
  import opened Collections
  import opened Codec
  import opened CodecRoundTrip

  // ---- bytes -------------------------------------------------------------------------------------

  /** Byte `i` of a word is its `i`-th digit to the base 256, the least first. */
  lemma {:induction false} LeAt(n: nat, k: nat, i: nat)
    requires i < k
    ensures Pow256(i) > 0 && Le(n, k)[i] == n / Pow256(i) % 256
  {
    PowPositive(i);
    if i > 0 {
      LeAt(n / 256, k - 1, i - 1);
      DivDiv(n, Pow256(i - 1));
    }
  }

  lemma {:induction false} PowPositive(i: nat)
    ensures Pow256(i) > 0
  {
    if i > 0 { PowPositive(i - 1); }
  }

  lemma DivDiv(n: nat, p: int)
    requires p > 0
    ensures n / 256 / p == n / (256 * p)
  {
    var a, r := n / 256, n % 256;
    var b, s := a / p, a % p;
    assert n == 256 * a + r && a == p * b + s;
    assert 256 * (p * b + s) + r == (256 * p) * b + (256 * s + r);
    assert 0 <= 256 * s + r < 256 * p;
    Quotient(n, 256 * p, b, 256 * s + r);
  }

  lemma Quotient(n: int, d: int, q: int, r: int)
    requires d > 0 && n == d * q + r && 0 <= r < d
    ensures n / d == q
  {
    assert n == q * d + r;
    ModUnique(d, n, q, r);
  }

  /** The first byte is the Lua type number, with the high bit for true and for integers; words follow
      in eight bytes, the least significant first. */
  lemma Layout(h: Heap, v: Value)
    requires HeapOk(h) && ValueOk(h, v)
    ensures v == Nil ==> Encode(h, v) == [0]
    ensures v == Bool(false) ==> Encode(h, v) == [1]
    ensures v == Bool(true) ==> Encode(h, v) == [0x81]
    ensures v.Int? ==> Encode(h, v) == [0x83] + Le(if v.i >= 0 then v.i else v.i + 0x1_0000_0000_0000_0000, 8)
    ensures v.Num? ==> Encode(h, v) == [3] + Le(v.bits, 8)
    ensures v.Str? ==> Encode(h, v) == [4] + Le(|v.s|, 8) + v.s
    ensures v.Table? ==> |Encode(h, v)| >= 2 && Encode(h, v)[0] == 5 && Encode(h, v)[|Encode(h, v)| - 1] == 0
  {
    hide Le;
    if v.Table? {
      var e := Enc([], map[]);
      var e1 := Enc([5], map[v := 0]);
      assert e.bytes + [TAG_TABLE] == [5] && e.seen[v := |e.bytes|] == e1.seen;
      var e2 := EncodePairs(h, h[v.addr], e1);
      assert Encode(h, v) == e2.bytes + [0] && e1.bytes <= e2.bytes && e2.bytes[0] == e1.bytes[0];
    }
  }

  /** A string or table met again is nine bytes: the tag and where it began. */
  lemma Repeated(h: Heap, v: Value, e: Enc)
    requires HeapOk(h) && ValueOk(h, v) && v in e.seen && (v.Str? || v.Table?)
    ensures EncodeVal(h, v, e) == Enc(e.bytes + ([9] + Le(e.seen[v], 8)), e.seen)
  {
  }

  // ---- longer and shorter streams ------------------------------------------------------------------

  /** What follows the value does not matter. */
  lemma {:induction false} ValueIgnoresRest(data: seq<Byte>, more: seq<Byte>, d: Dec)
    requires DecodeVal(data, d).Ok?
    ensures DecodeVal(data + more, d) == DecodeVal(data, d)
    decreases |data| - d.pos, 0
  {
    var tag, d1 := data[d.pos], d.(pos := d.pos + 1);
    assert (data + more)[d.pos] == tag;
    WordIgnoresRest(data, more, d1);
    if tag == TAG_TABLE {
      var t := |d1.tables|;
      var d2 := d1.(tables := d1.tables + [map[]], marks := d1.marks[d.pos := Table(t)]);
      PairsIgnoreRest(data, more, d2, t);
    } else if tag == TAG_STRING {
      var n, d2 := ReadWord(data, d1).value, ReadWord(data, d1).d;
      assert (data + more)[d2.pos..d2.pos + Signed(n)] == data[d2.pos..d2.pos + Signed(n)];
    }
  }

  lemma WordIgnoresRest(data: seq<Byte>, more: seq<Byte>, d: Dec)
    ensures ReadWord(data, d).Ok? ==> ReadWord(data + more, d) == ReadWord(data, d)
  {
    if CanRead(data, d, 8) { assert (data + more)[d.pos..d.pos + 8] == data[d.pos..d.pos + 8]; }
  }

  lemma {:induction false} PairsIgnoreRest(data: seq<Byte>, more: seq<Byte>, d: Dec, t: nat)
    requires t < |d.tables| && DecodePairs(data, d, t).Ok?
    ensures DecodePairs(data + more, d, t) == DecodePairs(data, d, t)
    decreases |data| - d.pos, 1
  {
    hide DecodeVal;
    ValueIgnoresRest(data, more, d);
    var k, d1 := DecodeVal(data, d).value, DecodeVal(data, d).d;
    if k.1 != TAG_NIL {
      ValueIgnoresRest(data, more, d1);
      var v, d2 := DecodeVal(data, d1).value, DecodeVal(data, d1).d;
      PairsIgnoreRest(data, more, d2.(tables := d2.tables[t := RawSet(d2.tables[t], k.0, v.0)]), t);
    }
  }

  /** A stream that is cut short anywhere does not decode, and one that is followed by other data
      decodes as without it. */
  lemma CutShortFails(h: Heap, v: Value, n: nat, more: seq<Byte>)
    requires HeapOk(h) && ValueOk(h, v) && forall a <- h :: DistinctKeys(h[a])
    requires |Encode(h, v)| < TWO63
    ensures n < |Encode(h, v)| ==> Decode(Encode(h, v)[..n]) == Fail
    ensures Decode(Encode(h, v) + more) == Decode(Encode(h, v))
  {
    var v', tag, d, phi := RoundTrip(h, v);
    hide Encode, Decode, Isomorphic, Inverse;
    WholeOrNothing(Encode(h, v), n, more);
  }

  lemma WholeOrNothing(data: seq<Byte>, n: nat, more: seq<Byte>)
    requires Decode(data).Ok? && Decode(data).d.pos == |data|
    ensures n < |data| ==> Decode(data[..n]) == Fail
    ensures Decode(data + more) == Decode(data)
  {
    hide DecodeVal;
    var start := Dec(0, [], map[]);
    ValueIgnoresRest(data, more, start);
    if n < |data| {
      assert data[..n] + data[n..] == data;
      if Decode(data[..n]) != Fail { ValueIgnoresRest(data[..n], data[n..], start); }
    }
  }

  // ---- decoded tables ----------------------------------------------------------------------------------

  /** No table maps a key to nil. */
  ghost predicate NoNil(tables: seq<LuaTable>) {
    forall t <- tables, k <- t :: t[k] != Nil
  }

  lemma SetKeepsNoNil(tables: seq<LuaTable>, t: nat, k: Value, v: Value)
    requires t < |tables| && NoNil(tables)
    ensures NoNil(tables[t := RawSet(tables[t], k, v)])
  {
    var tables' := tables[t := RawSet(tables[t], k, v)];
    forall m, x | m in tables' && x in m ensures m[x] != Nil {
      var i :| 0 <= i < |tables'| && tables'[i] == m;
      if i != t { assert m == tables[i] && tables[i] in tables; } else { assert tables[t] in tables; }
    }
  }

  lemma NewKeepsNoNil(tables: seq<LuaTable>)
    requires NoNil(tables)
    ensures NoNil(tables + [map[]])
  {
  }

  /** Whatever the bytes, decoding leaves no nil in a table: assigning nil removes the key, as in Lua. */
  lemma {:induction false} DecodedHasNoNil(data: seq<Byte>, d: Dec)
    requires NoNil(d.tables)
    ensures DecodeVal(data, d).Ok? ==> NoNil(DecodeVal(data, d).d.tables)
    decreases |data| - d.pos, 0
  {
    hide NoNil;
    if CanRead(data, d, 1) && data[d.pos] == TAG_TABLE {
      var d1 := d.(pos := d.pos + 1);
      var t := |d1.tables|;
      NewKeepsNoNil(d.tables);
      PairsHaveNoNil(data, d1.(tables := d1.tables + [map[]], marks := d1.marks[d.pos := Table(t)]), t);
    }
  }

  lemma {:induction false} PairsHaveNoNil(data: seq<Byte>, d: Dec, t: nat)
    requires t < |d.tables| && NoNil(d.tables)
    ensures DecodePairs(data, d, t).Ok? ==> NoNil(DecodePairs(data, d, t).d.tables)
    decreases |data| - d.pos, 1
  {
    hide NoNil, DecodeVal;
    DecodedHasNoNil(data, d);
    if DecodeVal(data, d).Ok? {
      var k, d1 := DecodeVal(data, d).value, DecodeVal(data, d).d;
      DecodedHasNoNil(data, d1);
      if k.1 != TAG_NIL && DecodeVal(data, d1).Ok? {
        var v, d2 := DecodeVal(data, d1).value, DecodeVal(data, d1).d;
        SetKeepsNoNil(d2.tables, t, k.0, v.0);
        PairsHaveNoNil(data, d2.(tables := d2.tables[t := RawSet(d2.tables[t], k.0, v.0)]), t);
      }
    }
  }

  /** A value refers to one of the first `n` tables, if to any. */
  predicate Refers(v: Value, n: nat) {
    v.Table? ==> v.addr < n
  }

  ghost predicate TableClosed(t: LuaTable, n: nat) {
    forall k <- t :: Refers(k, n) && Refers(t[k], n)
  }

  /** Nothing the decoder holds refers to a table that does not exist. */
  ghost predicate Closed(d: Dec) {
    && (forall i <- d.marks :: Refers(d.marks[i], |d.tables|))
    && (forall i :: 0 <= i < |d.tables| ==> TableClosed(d.tables[i], |d.tables|))
  }

  lemma MoreTables(d: Dec, pos: nat, at: nat)
    requires Closed(d)
    ensures Closed(d.(pos := pos, tables := d.tables + [map[]], marks := d.marks[at := Table(|d.tables|)]))
  {
    forall i | 0 <= i < |d.tables| ensures TableClosed(d.tables[i], |d.tables| + 1) {
      assert TableClosed(d.tables[i], |d.tables|);
    }
  }

  lemma SetKeepsClosed(d: Dec, t: nat, k: Value, v: Value)
    requires Closed(d) && t < |d.tables| && Refers(k, |d.tables|) && Refers(v, |d.tables|)
    ensures Closed(d.(tables := d.tables[t := RawSet(d.tables[t], k, v)]))
  {
    assert TableClosed(d.tables[t], |d.tables|);
  }

  /** Whatever the bytes, everything decoded refers to tables that exist. */
  lemma {:induction false} DecodedIsClosed(data: seq<Byte>, d: Dec)
    requires Closed(d)
    ensures DecodeVal(data, d).Ok? ==>
      var r := DecodeVal(data, d); Closed(r.d) && Refers(r.value.0, |r.d.tables|) && |d.tables| <= |r.d.tables|
    decreases |data| - d.pos, 0
  {
    if CanRead(data, d, 1) {
      var tag, d1 := data[d.pos], d.(pos := d.pos + 1);
      if tag == TAG_TABLE {
        var t := |d1.tables|;
        var d2 := d1.(tables := d1.tables + [map[]], marks := d1.marks[d.pos := Table(t)]);
        MoreTables(d, d.pos + 1, d.pos);
        hide Closed;
        PairsAreClosed(data, d2, t);
      }
    }
  }

  lemma {:induction false} PairsAreClosed(data: seq<Byte>, d: Dec, t: nat)
    requires t < |d.tables| && Closed(d)
    ensures DecodePairs(data, d, t).Ok? ==>
      Closed(DecodePairs(data, d, t).d) && |d.tables| <= |DecodePairs(data, d, t).d.tables|
    decreases |data| - d.pos, 1
  {
    hide Closed, DecodeVal;
    DecodedIsClosed(data, d);
    if DecodeVal(data, d).Ok? {
      var k, d1 := DecodeVal(data, d).value, DecodeVal(data, d).d;
      DecodedIsClosed(data, d1);
      if k.1 != TAG_NIL && DecodeVal(data, d1).Ok? {
        var v, d2 := DecodeVal(data, d1).value, DecodeVal(data, d1).d;
        SetKeepsClosed(d2, t, k.0, v.0);
        PairsAreClosed(data, d2.(tables := d2.tables[t := RawSet(d2.tables[t], k.0, v.0)]), t);
      }
    }
  }
}
