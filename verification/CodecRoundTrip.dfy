/**
 Decoding what the encoder wrote gives back an isomorphic value graph: shared strings, shared
 tables and cycles included.
 */
module CodecRoundTrip {
  import opened Codec

  // ---- words ---------------------------------------------------------------------------

  function Pow256(k: nat): nat {
    if k == 0 then 1 else 256 * Pow256(k - 1)
  }

  lemma {:induction false} WordRoundTrip(n: nat, k: nat)
    requires n < Pow256(k)
    ensures UnLe(Le(n, k)) == n
  {
    if k > 0 {
      WordRoundTrip(n / 256, k - 1);
      assert Le(n, k)[1..] == Le(n / 256, k - 1);
    }
  }

  lemma Word8(n: nat)
    requires n < TWO64
    ensures UnLe(Le(n, 8)) == n
  {
    assert Pow256(8) == TWO64 by {
      assert Pow256(2) == 0x1_0000;
      assert Pow256(4) == 0x1_0000_0000;
      assert Pow256(6) == 0x1_0000_0000_0000;
    }
    WordRoundTrip(n, 8);
  }

  // ---- correspondence between source and decoded values --------------------------------

  /** Which new table stands for which source table. */
  type Renaming = map<nat, nat>

  function Image(phi: Renaming, v: Value): Value {
    if v.Table? && v.addr in phi then Table(phi[v.addr]) else v
  }

  predicate Known(phi: Renaming, v: Value) {
    v.Table? ==> v.addr in phi
  }

  predicate PairsKnown(phi: Renaming, ps: seq<(Value, Value)>) {
    forall i :: 0 <= i < |ps| ==> Known(phi, ps[i].0) && Known(phi, ps[i].1)
  }

  /** The decoded form of a table with these pairs: the raw sets in enumeration order. */
  function Rebuilt(phi: Renaming, ps: seq<(Value, Value)>): LuaTable {
    if ps == [] then map[]
    else
      var n := |ps| - 1;
      RawSet(Rebuilt(phi, ps[..n]), Image(phi, ps[n].0), Image(phi, ps[n].1))
  }

  ghost predicate Extends(phi: Renaming, phi': Renaming) {
    phi.Keys <= phi'.Keys && forall a <- phi :: phi'[a] == phi[a]
  }

  ghost predicate Injective(phi: Renaming) {
    forall a, b :: a in phi && b in phi && phi[a] == phi[b] ==> a == b
  }

  /** Table `a` has been decoded completely. */
  ghost predicate Finished(h: Heap, phi: Renaming, tables: seq<LuaTable>, a: nat) {
    a in h && a in phi && phi[a] < |tables| && PairsKnown(phi, h[a]) && tables[phi[a]] == Rebuilt(phi, h[a])
  }

  /** Some string or table was first written at offset `o`. */
  ghost predicate Origin(seen: map<Value, nat>, o: nat) {
    exists v :: v in seen && seen[v] == o
  }

  /** The two recursion tables, value to offset and offset to value, invert each other up to renaming. */
  ghost predicate Inverse(seen: map<Value, nat>, marks: map<nat, Value>, phi: Renaming) {
    && (forall v <- seen :: seen[v] in marks && marks[seen[v]] == Image(phi, v))
    && (forall o {:trigger Origin(seen, o)} :: o in marks ==> Origin(seen, o))
  }

  /** Only strings and tables are registered, and all of them lie in the stream so far. */
  ghost predicate Registered(seen: map<Value, nat>, phi: Renaming, size: nat) {
    && (forall v <- seen :: (v.Str? || v.Table?) && Known(phi, v) && seen[v] < size)
    && (forall a <- phi :: Table(a) in seen)
  }

  /** The renaming pairs each registered table with one decoded table of its own. */
  ghost predicate Bijective(phi: Renaming, count: nat) {
    Injective(phi) && count == |phi| && forall a <- phi :: phi[a] < count
  }

  ghost predicate Linked(e: Enc, d: Dec, phi: Renaming) {
    Inverse(e.seen, d.marks, phi) && Registered(e.seen, phi, |e.bytes|) && Bijective(phi, |d.tables|)
  }

  lemma {:induction false} RebuiltStable(phi: Renaming, phi': Renaming, ps: seq<(Value, Value)>)
    requires Extends(phi, phi') && PairsKnown(phi, ps)
    ensures PairsKnown(phi', ps) && Rebuilt(phi', ps) == Rebuilt(phi, ps)
  {
    if ps != [] {
      RebuiltStable(phi, phi', ps[..|ps| - 1]);
    }
  }

  lemma FinishedStable(h: Heap, phi: Renaming, phi': Renaming, tables: seq<LuaTable>, tables': seq<LuaTable>, a: nat)
    requires Finished(h, phi, tables, a) && Extends(phi, phi') && |tables| <= |tables'|
      && tables'[phi[a]] == tables[phi[a]]
    ensures Finished(h, phi', tables', a)
  {
    RebuiltStable(phi, phi', h[a]);
  }

  // ---- reading back what was written ---------------------------------------------------

  lemma Written(b: seq<Byte>, w: seq<Byte>, data: seq<Byte>)
    requires b + w <= data
    ensures data[|b|..|b| + |w|] == w && |b| + |w| <= |data|
  {
    assert (b + w)[|b|..] == w;
    assert data[..|b| + |w|] == b + w;
    assert data[|b|..|b| + |w|] == data[..|b| + |w|][|b|..];
  }

  lemma TaggedWord(b: seq<Byte>, tag: Byte, n: nat, rest: seq<Byte>, data: seq<Byte>, d: Dec)
    requires b + ([tag] + Le(n, 8) + rest) <= data && d.pos == |b| && n < TWO64
    ensures |b| + 9 + |rest| <= |data| && data[|b|] == tag
    ensures ReadWord(data, d.(pos := d.pos + 1)) == Ok(n, d.(pos := d.pos + 9))
    ensures data[|b| + 9..|b| + 9 + |rest|] == rest
  {
    var w := [tag] + Le(n, 8) + rest;
    Written(b, w, data);
    var got := data[|b|..|b| + |w|];
    assert got[0] == tag && got[1..9] == Le(n, 8) && got[9..] == rest;
    assert data[|b| + 1..|b| + 9] == got[1..9];
    assert data[|b| + 9..|b| + 9 + |rest|] == got[9..];
    Word8(n);
  }

  lemma BareWord(b: seq<Byte>, tag: Byte, n: nat, data: seq<Byte>, d: Dec)
    requires b + ([tag] + Le(n, 8)) <= data && d.pos == |b| && n < TWO64
    ensures |b| + 9 <= |data| && data[|b|] == tag
    ensures ReadWord(data, d.(pos := d.pos + 1)) == Ok(n, d.(pos := d.pos + 9))
  {
    assert [tag] + Le(n, 8) == [tag] + Le(n, 8) + [];
    TaggedWord(b, tag, n, [], data, d);
  }

  /** What decoding one encoded value amounts to. */
  ghost predicate Decoded(h: Heap, v: Value, e: Enc, d: Dec, phi: Renaming, e': Enc, d': Dec, phi': Renaming,
                          data: seq<Byte>, tag: Byte) {
    && DecodeVal(data, d) == Ok((Image(phi', v), tag), d')
    && (tag == TAG_NIL <==> v == Nil)
    && Known(phi', v)
    && Moved(h, e, d, phi, e', d', phi', {})
  }

  /** Both sides advance together: `phi` grows, what was finished or old stays, what is new is
      finished, except for the tables in `busy`. */
  ghost predicate Moved(h: Heap, e: Enc, d: Dec, phi: Renaming, e': Enc, d': Dec, phi': Renaming, busy: set<nat>) {
    && d'.pos == |e'.bytes|
    && Linked(e', d', phi')
    && Extends(phi, phi')
    && |d.tables| <= |d'.tables|
    && (forall a <- phi :: phi[a] < |d.tables| && (a !in busy ==> d'.tables[phi[a]] == d.tables[phi[a]]))
    && (forall a <- phi' :: a !in phi ==> Finished(h, phi', d'.tables, a))
  }

  lemma MovedTwice(h: Heap, e0: Enc, d0: Dec, p0: Renaming, e1: Enc, d1: Dec, p1: Renaming,
    e2: Enc, d2: Dec, p2: Renaming,
                   busy: set<nat>)
    requires Moved(h, e0, d0, p0, e1, d1, p1, busy) && Moved(h, e1, d1, p1, e2, d2, p2, busy) && busy <= p0.Keys
    ensures Moved(h, e0, d0, p0, e2, d2, p2, busy)
  {
    forall a | a in p2 && a !in p0 ensures Finished(h, p2, d2.tables, a) {
      if a in p1 {
        FinishedStable(h, p1, p2, d1.tables, d2.tables, a);
      }
    }
  }

  /** Bytes that register nothing leave the correspondence as it is. */
  lemma PlainMove(h: Heap, e: Enc, d: Dec, phi: Renaming, e': Enc, d': Dec)
    requires Linked(e, d, phi) && e'.seen == e.seen && |e.bytes| <= |e'.bytes|
    requires d' == d.(pos := |e'.bytes|)
    ensures Moved(h, e, d, phi, e', d', phi, {})
  {
  }

  lemma SeenIsMarked(e: Enc, d: Dec, phi: Renaming, v: Value)
    requires Linked(e, d, phi) && v in e.seen
    ensures Known(phi, v) && e.seen[v] < |e.bytes| && e.seen[v] in d.marks && d.marks[e.seen[v]] == Image(phi, v)
  {
  }

  lemma ReadsBackRef(data: seq<Byte>, d: Dec, o: nat)
    requires CanRead(data, d, 9) && data[d.pos] == TAG_BACKREF && o < TWO63 && o in d.marks
    requires ReadWord(data, d.(pos := d.pos + 1)) == Ok(o, d.(pos := d.pos + 9))
    ensures DecodeVal(data, d) == Ok((d.marks[o], TAG_BACKREF), d.(pos := d.pos + 9))
  {
    hide ReadWord, DecodePairs, UnLe;
  }

  lemma BackRefDecodes(h: Heap, v: Value, e: Enc, d: Dec, phi: Renaming, data: seq<Byte>)
    returns (d': Dec)
    requires Linked(e, d, phi) && d.pos == |e.bytes| && |data| < TWO63
    requires v in e.seen && BackRef(e, e.seen[v]).bytes <= data
    ensures Decoded(h, v, e, d, phi, BackRef(e, e.seen[v]), d', phi, data, TAG_BACKREF)
  {
    hide Linked, Moved, Le, UnLe, ReadWord, DecodePairs, Image, DecodeVal;
    var o := e.seen[v];
    d' := d.(pos := d.pos + 9);
    PlainMove(h, e, d, phi, BackRef(e, o), d');
    SeenIsMarked(e, d, phi, v);
    BareWord(e.bytes, TAG_BACKREF, o, data, d);
    ReadsBackRef(data, d, o);
    assert v != Nil by { SeenIsShared(e, d, phi, v); }
  }

  lemma SeenIsShared(e: Enc, d: Dec, phi: Renaming, v: Value)
    requires Linked(e, d, phi) && v in e.seen
    ensures v.Str? || v.Table?
  {
  }

  lemma ReadsString(data: seq<Byte>, d: Dec, s: seq<Byte>)
    requires CanRead(data, d, 9 + |s|) && data[d.pos] == TAG_STRING && |s| < TWO63
    requires ReadWord(data, d.(pos := d.pos + 1)) == Ok(|s|, d.(pos := d.pos + 9))
    requires data[d.pos + 9..d.pos + 9 + |s|] == s
    ensures DecodeVal(data, d)
      == Ok((Str(s), TAG_STRING), d.(pos := d.pos + 9 + |s|, marks := d.marks[d.pos := Str(s)]))
  {
    hide ReadWord, DecodePairs, UnLe;
  }

  lemma StringDecodes(h: Heap, s: seq<Byte>, e: Enc, d: Dec, phi: Renaming, data: seq<Byte>)
    returns (d': Dec)
    requires HeapOk(h) && Linked(e, d, phi) && d.pos == |e.bytes| && |data| < TWO63 && Str(s) !in e.seen
    requires EncodeVal(h, Str(s), e).bytes <= data
    ensures Decoded(h, Str(s), e, d, phi, EncodeVal(h, Str(s), e), d', phi, data, TAG_STRING)
  {
    hide Linked, Moved, Le, UnLe, ReadWord, DecodePairs, DecodeVal, HeapOk;
    var e' := EncodeVal(h, Str(s), e);
    d' := d.(pos := d.pos + 9 + |s|, marks := d.marks[d.pos := Str(s)]);
    StringMoves(h, s, e, d, phi, e', d');
    TaggedWord(e.bytes, TAG_STRING, |s|, s, data, d);
    ReadsString(data, d, s);
  }

  lemma StringMoves(h: Heap, s: seq<Byte>, e: Enc, d: Dec, phi: Renaming, e': Enc, d': Dec)
    requires Linked(e, d, phi) && d.pos == |e.bytes| < |e'.bytes| && Str(s) !in e.seen
    requires e'.seen == e.seen[Str(s) := |e.bytes|]
    requires d' == d.(pos := |e'.bytes|, marks := d.marks[d.pos := Str(s)])
    ensures Moved(h, e, d, phi, e', d', phi, {})
  {
    var v := Str(s);
    forall m | m in d'.marks ensures Origin(e'.seen, m) {
      if m == d.pos { assert v in e'.seen && e'.seen[v] == m; } else {
        assert Origin(e.seen, m);
        var w :| w in e.seen && e.seen[w] == m;
        assert w in e'.seen && e'.seen[w] == m;
      }
    }
  }

  lemma ReadsNumber(data: seq<Byte>, d: Dec, n: nat)
    requires CanRead(data, d, 9) && n < TWO64
    requires ReadWord(data, d.(pos := d.pos + 1)) == Ok(n, d.(pos := d.pos + 9))
    ensures data[d.pos] == TAG_NUMBER ==> DecodeVal(data, d) == Ok((Num(n), TAG_NUMBER), d.(pos := d.pos + 9))
    ensures data[d.pos] == TAG_NUMBER + SPEC ==>
              DecodeVal(data, d) == Ok((Int(Signed(n)), TAG_NUMBER + SPEC), d.(pos := d.pos + 9))
  {
    hide ReadWord, DecodePairs, UnLe;
  }

  lemma ReadsSimple(data: seq<Byte>, d: Dec)
    requires CanRead(data, d, 1)
    ensures data[d.pos] == TAG_NIL ==> DecodeVal(data, d) == Ok((Nil, TAG_NIL), d.(pos := d.pos + 1))
    ensures data[d.pos] == TAG_BOOLEAN ==> DecodeVal(data, d) == Ok((Bool(false), TAG_BOOLEAN), d.(pos := d.pos + 1))
    ensures data[d.pos] == TAG_BOOLEAN + SPEC ==>
              DecodeVal(data, d) == Ok((Bool(true), TAG_BOOLEAN + SPEC), d.(pos := d.pos + 1))
  {
    hide ReadWord, DecodePairs;
  }

  lemma ScalarDecodes(h: Heap, v: Value, e: Enc, d: Dec, phi: Renaming, data: seq<Byte>)
    returns (d': Dec, tag: Byte)
    requires HeapOk(h) && ValueOk(h, v) && Linked(e, d, phi) && d.pos == |e.bytes|
    requires v.Nil? || v.Bool? || v.Int? || v.Num?
    requires EncodeVal(h, v, e).bytes <= data
    ensures Decoded(h, v, e, d, phi, EncodeVal(h, v, e), d', phi, data, tag)
  {
    hide Linked, Moved, HeapOk, Le, UnLe, ReadWord, DecodePairs, DecodeVal;
    var e' := EncodeVal(h, v, e);
    d' := d.(pos := |e'.bytes|);
    PlainMove(h, e, d, phi, e', d');
    match v
    case Nil =>
      tag := TAG_NIL;
      OneByte(e.bytes, tag, data);
      ReadsSimple(data, d);
    case Bool(b) =>
      tag := if b then TAG_BOOLEAN + SPEC else TAG_BOOLEAN;
      OneByte(e.bytes, tag, data);
      ReadsSimple(data, d);
    case Int(i) =>
      tag := TAG_NUMBER + SPEC;
      BareWord(e.bytes, tag, Unsigned(i), data, d);
      ReadsNumber(data, d, Unsigned(i));
    case Num(bits) =>
      tag := TAG_NUMBER;
      BareWord(e.bytes, tag, bits, data, d);
      ReadsNumber(data, d, bits);
  }

  lemma OneByte(b: seq<Byte>, tag: Byte, data: seq<Byte>)
    requires b + [tag] <= data
    ensures |b| < |data| && data[|b|] == tag
  {
    assert (b + [tag])[|b|] == tag;
  }

  // ---- tables --------------------------------------------------------------------------

  lemma OpensInverse(a: nat, seen: map<Value, nat>, marks: map<nat, Value>, phi: Renaming, size: nat, t: nat)
    requires Inverse(seen, marks, phi) && Registered(seen, phi, size) && Table(a) !in seen
    ensures a !in phi
    ensures Inverse(seen[Table(a) := size], marks[size := Table(t)], phi[a := t])
    ensures Registered(seen[Table(a) := size], phi[a := t], size + 1)
  {
    var seen', marks' := seen[Table(a) := size], marks[size := Table(t)];
    forall m | m in marks' ensures Origin(seen', m) {
      if m == size { assert Table(a) in seen' && seen'[Table(a)] == m; } else {
        assert Origin(seen, m);
        var w :| w in seen && seen[w] == m;
        assert w in seen' && seen'[w] == m;
      }
    }
  }

  lemma OpensBijective(phi: Renaming, count: nat, a: nat)
    requires Bijective(phi, count) && a !in phi
    ensures Bijective(phi[a := count], count + 1) && Extends(phi, phi[a := count])
  {
    AddedKey(phi, a, count);
  }

  lemma AddedKey(phi: Renaming, a: nat, t: nat)
    requires a !in phi
    ensures |phi[a := t]| == |phi| + 1
  {
    assert phi[a := t].Keys == phi.Keys + {a};
    assert |phi[a := t]| == |phi[a := t].Keys| && |phi| == |phi.Keys|;
  }

  /** The state right after a new table has been registered on both sides. */
  lemma TableOpens(h: Heap, a: nat, e: Enc, d: Dec, phi: Renaming, e1: Enc, d1: Dec, phi1: Renaming)
    requires Linked(e, d, phi) && d.pos == |e.bytes| && Table(a) !in e.seen
    requires e1 == Enc(e.bytes + [TAG_TABLE], e.seen[Table(a) := |e.bytes|])
    requires d1 == Dec(d.pos + 1, d.tables + [map[]], d.marks[d.pos := Table(|d.tables|)])
    requires phi1 == phi[a := |d.tables|]
    ensures Linked(e1, d1, phi1) && Extends(phi, phi1) && a !in phi
  {
    hide Inverse, Registered, Bijective, Extends;
    OpensInverse(a, e.seen, d.marks, phi, |e.bytes|, |d.tables|);
    OpensBijective(phi, |d.tables|, a);
  }

  lemma RebuiltNext(phi: Renaming, phi2: Renaming, ps: seq<(Value, Value)>, i: nat)
    requires Extends(phi, phi2) && i < |ps| && PairsKnown(phi, ps[..i]) && Known(phi2, ps[i].0) && Known(phi2, ps[i].1)
    ensures PairsKnown(phi2, ps[..i + 1])
    ensures Rebuilt(phi2, ps[..i + 1]) == RawSet(Rebuilt(phi, ps[..i]), Image(phi2, ps[i].0), Image(phi2, ps[i].1))
  {
    RebuiltStable(phi, phi2, ps[..i]);
    assert ps[..i + 1][..i] == ps[..i];
    hide Image;
  }

  /** Storing the next pair into the open table `a`. */
  lemma PairStored(h: Heap, a: nat, i: nat, e: Enc, d: Dec, phi: Renaming, e2: Enc, d2: Dec, phi2: Renaming, d3: Dec)
    requires a in h && a in phi && i < |h[a]| && Moved(h, e, d, phi, e2, d2, phi2, {})
    requires PairsKnown(phi, h[a][..i]) && d.tables[phi[a]] == Rebuilt(phi, h[a][..i])
    requires Known(phi2, h[a][i].0) && Known(phi2, h[a][i].1)
    requires phi[a] < |d2.tables|
    requires d3 == d2.(tables := d2.tables[phi[a] :=
      RawSet(d2.tables[phi[a]], Image(phi2, h[a][i].0), Image(phi2, h[a][i].1))])
    ensures Moved(h, e, d, phi, e2, d3, phi2, {a})
    ensures PairsKnown(phi2, h[a][..i + 1]) && d3.tables[phi2[a]] == Rebuilt(phi2, h[a][..i + 1])
  {
    hide Inverse, Registered, PairsKnown, Rebuilt, RawSet, Image;
    RebuiltNext(phi, phi2, h[a], i);
    forall b | b in phi2 && b !in phi ensures Finished(h, phi2, d3.tables, b) {
      assert Finished(h, phi2, d2.tables, b);
    }
  }

  lemma ReadsPair(data: seq<Byte>, d: Dec, t: nat, k: Value, tag: Byte, d1: Dec, v: Value, tag': Byte, d2: Dec)
    requires t < |d.tables| && DecodeVal(data, d) == Ok((k, tag), d1) && tag != TAG_NIL
    requires DecodeVal(data, d1) == Ok((v, tag'), d2)
    ensures t < |d2.tables|
    ensures DecodePairs(data, d, t) == DecodePairs(data, d2.(tables := d2.tables[t := RawSet(d2.tables[t], k, v)]), t)
  {
    hide DecodeVal;
  }

  lemma ReadsEnd(data: seq<Byte>, d: Dec, t: nat)
    requires t < |d.tables| && CanRead(data, d, 1) && data[d.pos] == TAG_NIL
    ensures DecodePairs(data, d, t) == Ok((), d.(pos := d.pos + 1))
  {
    hide DecodeVal;
    ReadsSimple(data, d);
  }

  lemma ReadsTable(data: seq<Byte>, d: Dec, d3: Dec)
    requires CanRead(data, d, 1) && data[d.pos] == TAG_TABLE
    requires DecodePairs(data, Dec(d.pos + 1, d.tables + [map[]], d.marks[d.pos := Table(|d.tables|)]), |d.tables|)
      == Ok((), d3)
    ensures DecodeVal(data, d) == Ok((Table(|d.tables|), TAG_TABLE), d3)
  {
    hide DecodePairs, ReadWord;
  }

  lemma ImageStable(phi: Renaming, phi': Renaming, v: Value)
    requires Known(phi, v) && Extends(phi, phi')
    ensures Image(phi', v) == Image(phi, v) && Known(phi', v)
  {
  }

  /** One turn of the key/value loop. */
  lemma {:induction false} PairDecodes(h: Heap, a: nat, i: nat, e: Enc, d: Dec, phi: Renaming, data: seq<Byte>)
    returns (d': Dec, phi': Renaming)
    requires HeapOk(h) && a in h && i < |h[a]| && Linked(e, d, phi) && d.pos == |e.bytes| && |data| < TWO63
    requires a in phi && phi[a] < |d.tables| && PairsKnown(phi, h[a][..i])
      && d.tables[phi[a]] == Rebuilt(phi, h[a][..i])
    requires ValueOk(h, h[a][i].0) && ValueOk(h, h[a][i].1) && h[a][i].0 != Nil
    requires EncodeVal(h, h[a][i].1, EncodeVal(h, h[a][i].0, e)).bytes <= data
    ensures |d'.tables| > phi[a] && DecodePairs(data, d, phi[a]) == DecodePairs(data, d', phi[a])
    ensures Moved(h, e, d, phi, EncodeVal(h, h[a][i].1, EncodeVal(h, h[a][i].0, e)), d', phi', {a})
    ensures a in phi' && phi'[a] == phi[a]
    ensures PairsKnown(phi', h[a][..i + 1]) && d'.tables[phi[a]] == Rebuilt(phi', h[a][..i + 1])
    decreases |Unseen(h, e)|, |h[a]| - i + 1, 0
  {
    hide Linked, Moved, DecodeVal, DecodePairs, HeapOk, Finished, Rebuilt, PairsKnown, RawSet, Image, Unseen, EncodeVal;
    var t, k, v := phi[a], h[a][i].0, h[a][i].1;
    var e1 := EncodeVal(h, k, e);
    var e2 := EncodeVal(h, v, e1);
    UnseenShrinks(h, e, e1);
    var d1, phi1, tag1 := ValueDecodes(h, k, e, d, phi, data);
    MovedLinked(h, e, d, phi, e1, d1, phi1, {});
    var d2, phi2, tag2 := ValueDecodes(h, v, e1, d1, phi1, data);
    MovedLinked(h, e1, d1, phi1, e2, d2, phi2, {});
    MovedTwice(h, e, d, phi, e1, d1, phi1, e2, d2, phi2, {});
    ImageStable(phi1, phi2, k);
    d' := d2.(tables := d2.tables[t := RawSet(d2.tables[t], Image(phi2, k), Image(phi2, v))]);
    phi' := phi2;
    PairStored(h, a, i, e, d, phi, e2, d2, phi2, d');
    ReadsPair(data, d, t, Image(phi1, k), tag1, d1, Image(phi2, v), tag2, d2);
  }

  lemma {:induction false} PairsDecode(h: Heap, a: nat, i: nat, e: Enc, d: Dec, phi: Renaming, data: seq<Byte>)
    returns (d': Dec, phi': Renaming)
    requires HeapOk(h) && a in h && i <= |h[a]| && Linked(e, d, phi) && d.pos == |e.bytes| && |data| < TWO63
    requires a in phi && PairsKnown(phi, h[a][..i]) && d.tables[phi[a]] == Rebuilt(phi, h[a][..i])
    requires PairsOk(h, h[a][i..]) && EncodePairs(h, h[a][i..], e).bytes + [TAG_NIL] <= data
    ensures var e' := EncodePairs(h, h[a][i..], e);
      && DecodePairs(data, d, phi[a]) == Ok((), d')
      && Moved(h, e, d, phi, e'.(bytes := e'.bytes + [TAG_NIL]), d', phi', {a})
      && Finished(h, phi', d'.tables, a)
    decreases |Unseen(h, e)|, |h[a]| - i + 1, 1
  {
    hide Linked, Moved, DecodeVal, DecodePairs, HeapOk, Finished, Rebuilt, PairsKnown, Unseen, EncodeVal;
    var ps := h[a][i..];
    LinkedInRange(e, d, phi);
    if ps == [] {
      OneByte(e.bytes, TAG_NIL, data);
      ReadsEnd(data, d, phi[a]);
      assert h[a][..i] == h[a];
      d', phi' := d.(pos := d.pos + 1), phi;
      CloseMoves(h, a, e, d, phi, e.(bytes := e.bytes + [TAG_NIL]), d');
    } else {
      assert ps[0] == h[a][i] && ps[1..] == h[a][i + 1..];
      var e2 := EncodeVal(h, ps[0].1, EncodeVal(h, ps[0].0, e));
      var e3 := EncodePairs(h, ps[1..], e2);
      UnseenShrinks(h, e, e2);
      var d1, phi1 := PairDecodes(h, a, i, e, d, phi, data);
      MovedLinked(h, e, d, phi, e2, d1, phi1, {a});
      d', phi' := PairsDecode(h, a, i + 1, e2, d1, phi1, data);
      MovedTwice(h, e, d, phi, e2, d1, phi1, e3.(bytes := e3.bytes + [TAG_NIL]), d', phi', {a});
    }
  }

  lemma MovedLinked(h: Heap, e: Enc, d: Dec, phi: Renaming, e': Enc, d': Dec, phi': Renaming, busy: set<nat>)
    requires Moved(h, e, d, phi, e', d', phi', busy)
    ensures Linked(e', d', phi') && d'.pos == |e'.bytes| && Extends(phi, phi') && |d.tables| <= |d'.tables|
    ensures forall a <- phi :: phi[a] < |d.tables|
    ensures forall a <- phi' :: phi'[a] < |d'.tables|
  {
  }

  lemma CloseMoves(h: Heap, a: nat, e: Enc, d: Dec, phi: Renaming, e': Enc, d': Dec)
    requires Linked(e, d, phi) && a in h && a in phi && PairsKnown(phi, h[a]) && d.tables[phi[a]] == Rebuilt(phi, h[a])
    requires e'.seen == e.seen && |e.bytes| <= |e'.bytes| && d' == d.(pos := |e'.bytes|)
    ensures Moved(h, e, d, phi, e', d', phi, {a}) && Finished(h, phi, d'.tables, a)
  {
    PlainMove(h, e, d, phi, e', d');
  }

  lemma {:induction false} ValueDecodes(h: Heap, v: Value, e: Enc, d: Dec, phi: Renaming, data: seq<Byte>)
    returns (d': Dec, phi': Renaming, tag: Byte)
    requires HeapOk(h) && ValueOk(h, v) && Linked(e, d, phi) && d.pos == |e.bytes| && |data| < TWO63
    requires EncodeVal(h, v, e).bytes <= data
    ensures Decoded(h, v, e, d, phi, EncodeVal(h, v, e), d', phi', data, tag)
    decreases |Unseen(h, e)|, 0, 1
  {
    hide Linked, Moved, DecodeVal, Decoded;
    if v in e.seen && (v.Str? || v.Table?) {
      d' := BackRefDecodes(h, v, e, d, phi, data);
      phi', tag := phi, TAG_BACKREF;
    } else if v.Str? {
      d' := StringDecodes(h, v.s, e, d, phi, data);
      phi', tag := phi, TAG_STRING;
    } else if v.Table? {
      d', phi' := TableDecodes(h, v.addr, e, d, phi, data);
      tag := TAG_TABLE;
    } else {
      d', tag := ScalarDecodes(h, v, e, d, phi, data);
      phi' := phi;
    }
  }

  lemma {:induction false} TableDecodes(h: Heap, a: nat, e: Enc, d: Dec, phi: Renaming, data: seq<Byte>)
    returns (d': Dec, phi': Renaming)
    requires HeapOk(h) && a in h && Table(a) !in e.seen && Linked(e, d, phi) && d.pos == |e.bytes| && |data| < TWO63
    requires EncodeVal(h, Table(a), e).bytes <= data
    ensures Decoded(h, Table(a), e, d, phi, EncodeVal(h, Table(a), e), d', phi', data, TAG_TABLE)
    decreases |Unseen(h, e)|, 0, 0
  {
    hide Linked, Moved, DecodeVal, DecodePairs, Finished;
    var t := |d.tables|;
    var e1 := Enc(e.bytes + [TAG_TABLE], e.seen[Table(a) := |e.bytes|]);
    var d1 := Dec(d.pos + 1, d.tables + [map[]], d.marks[d.pos := Table(t)]);
    var phi1 := phi[a := t];
    TableOpens(h, a, e, d, phi, e1, d1, phi1);
    UnseenShrinks(h, e, e1);
    assert h[a][0..] == h[a] && h[a][..0] == [];
    var e2 := EncodePairs(h, h[a], e1);
    d', phi' := PairsDecode(h, a, 0, e1, d1, phi1, data);
    OneByte(e.bytes, TAG_TABLE, data);
    ReadsTable(data, d, d');
    LinkedInRange(e, d, phi);
    TableCloses(h, a, e, d, phi, e1, d1, phi1, e2.(bytes := e2.bytes + [TAG_NIL]), d', phi');
  }

  lemma LinkedInRange(e: Enc, d: Dec, phi: Renaming)
    requires Linked(e, d, phi)
    ensures forall b <- phi :: phi[b] < |d.tables|
  {
  }

  lemma TableCloses(h: Heap, a: nat, e: Enc, d: Dec, phi: Renaming, e1: Enc, d1: Dec, phi1: Renaming,
                    e': Enc, d': Dec, phi': Renaming)
    requires a !in phi && phi1 == phi[a := |d.tables|] && d1.tables == d.tables + [map[]]
    requires forall b <- phi :: phi[b] < |d.tables|
    requires Moved(h, e1, d1, phi1, e', d', phi', {a}) && Finished(h, phi', d'.tables, a)
    ensures Moved(h, e, d, phi, e', d', phi', {}) && a in phi' && phi'[a] == |d.tables|
  {
    hide Linked, Finished;
    forall b | b in phi
      ensures b in phi' && phi'[b] == phi[b] && phi[b] < |d.tables| && d'.tables[phi[b]] == d.tables[phi[b]]
    {
      assert b in phi1 && phi1[b] == phi[b];
    }
    forall b | b in phi' && b !in phi ensures Finished(h, phi', d'.tables, b) {
      if b != a { assert b !in phi1; }
    }
  }

  // ---- the theorem ---------------------------------------------------------------------

  /** `lua_next` enumerates each key once. */
  ghost predicate DistinctKeys(ps: seq<(Value, Value)>) {
    forall i, j :: 0 <= i < j < |ps| ==> ps[i].0 != ps[j].0
  }

  /** The decoded table maps exactly the renamed keys, each to its renamed value. */
  ghost predicate SameTable(phi: Renaming, ps: seq<(Value, Value)>, t: LuaTable) {
    && (forall i :: 0 <= i < |ps| ==> Image(phi, ps[i].0) in t && t[Image(phi, ps[i].0)] == Image(phi, ps[i].1))
    && (forall k {:trigger IsKey(phi, ps, k)} :: k in t ==> IsKey(phi, ps, k))
  }

  ghost predicate IsKey(phi: Renaming, ps: seq<(Value, Value)>, k: Value) {
    exists i :: 0 <= i < |ps| && Image(phi, ps[i].0) == k
  }

  /** `phi` is a bijection between the source tables it knows and the decoded ones, it knows `v` and
      everything its tables refer to, and corresponding tables have corresponding contents. */
  ghost predicate Isomorphic(h: Heap, v: Value, tables: seq<LuaTable>, v': Value, phi: Renaming) {
    && Bijective(phi, |tables|)
    && Known(phi, v) && v' == Image(phi, v)
    && (forall a <- phi :: a in h && PairsKnown(phi, h[a]) && SameTable(phi, h[a], tables[phi[a]]))
  }

  lemma ImageInjective(phi: Renaming, v: Value, w: Value)
    requires Injective(phi) && Known(phi, v) && Known(phi, w) && Image(phi, v) == Image(phi, w)
    ensures v == w
  {
  }

  lemma SameTableNext(phi: Renaming, ps: seq<(Value, Value)>, n: nat, t0: LuaTable)
    requires Injective(phi) && PairsKnown(phi, ps) && DistinctKeys(ps) && |ps| == n + 1 && SameTable(phi, ps[..n], t0)
    ensures SameTable(phi, ps, t0[Image(phi, ps[n].0) := Image(phi, ps[n].1)])
  {
    hide Image, Injective;
    var t := t0[Image(phi, ps[n].0) := Image(phi, ps[n].1)];
    forall i | 0 <= i < n ensures Image(phi, ps[i].0) in t && t[Image(phi, ps[i].0)] == Image(phi, ps[i].1) {
      assert ps[..n][i] == ps[i];
      if Image(phi, ps[i].0) == Image(phi, ps[n].0) { ImageInjective(phi, ps[i].0, ps[n].0); }
    }
    forall k | k in t ensures IsKey(phi, ps, k) {
      if k in t0 {
        assert IsKey(phi, ps[..n], k);
        var i :| 0 <= i < n && Image(phi, ps[..n][i].0) == k;
        assert ps[..n][i] == ps[i];
      } else {
        assert Image(phi, ps[n].0) == k;
      }
    }
  }

  lemma {:induction false} RebuiltIsSame(phi: Renaming, ps: seq<(Value, Value)>)
    requires Injective(phi) && PairsKnown(phi, ps) && DistinctKeys(ps) && forall i :: 0 <= i < |ps| ==> ps[i].1 != Nil
    ensures SameTable(phi, ps, Rebuilt(phi, ps))
  {
    hide SameTable, Injective;
    if ps == [] {
      NothingRebuilt(phi);
    } else {
      var n := |ps| - 1;
      RebuiltIsSame(phi, ps[..n]);
      SameTableNext(phi, ps, n, Rebuilt(phi, ps[..n]));
    }
  }

  lemma NothingRebuilt(phi: Renaming)
    ensures SameTable(phi, [], map[])
  {
  }

  lemma EmptyLinked()
    ensures Linked(Enc([], map[]), Dec(0, [], map[]), map[])
  {
  }

  /** For every value graph, with whatever sharing and cycles, decoding its encoding succeeds, reads
      exactly the bytes written and yields an isomorphic graph; and the two recursion tables end up
      inverse to each other. */
  lemma RoundTrip(h: Heap, v: Value) returns (v': Value, tag: Byte, d: Dec, phi: Renaming)
    requires HeapOk(h) && ValueOk(h, v) && forall a <- h :: DistinctKeys(h[a])
    requires |Encode(h, v)| < TWO63
    ensures Decode(Encode(h, v)) == Ok((v', tag), d)
    ensures d.pos == |Encode(h, v)|
    ensures Isomorphic(h, v, d.tables, v', phi)
    ensures Inverse(EncodeVal(h, v, Enc([], map[])).seen, d.marks, phi)
  {
    var e0, d0 := Enc([], map[]), Dec(0, [], map[]);
    EmptyLinked();
    d, phi, tag := ValueDecodes(h, v, e0, d0, map[], Encode(h, v));
    v' := Image(phi, v);
    MovedLinked(h, e0, d0, map[], EncodeVal(h, v, e0), d, phi, {});
    hide Rebuilt, DecodeVal, EncodeVal;
    forall a | a in phi ensures a in h && PairsKnown(phi, h[a]) && SameTable(phi, h[a], d.tables[phi[a]]) {
      assert Finished(h, phi, d.tables, a);
      RebuiltIsSame(phi, h[a]);
    }
  }
}
