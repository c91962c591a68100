/**
 The encoder and decoder as the source runs them: an encoder that appends to a byte stream and fills
 its recursion table, a decoder that advances a read position and fills new tables.  Each method is
 proved to do what the format functions say.
 */
module CodecStreams {
  import opened Collections
  import opened Codec
  import opened CodecRoundTrip

  class Encoder {
    var bytes: seq<Byte>
    var seen: map<Value, nat>

    ghost function State(): Enc
      reads this
    {
      Enc(bytes, seen)
    }

    constructor ()
      ensures State() == Enc([], map[])
    {
      bytes, seen := [], map[];
    }

    method Push(bs: seq<Byte>)
      modifies this
      ensures bytes == old(bytes) + bs && seen == old(seen)
    {
      bytes := bytes + bs;
    }

    /** `encode_recursion`: a value met before is written as a reference to its offset, a new one is
        registered at the current offset. */
    method EncodeRecursion(v: Value) returns (known: bool)
      modifies this
      ensures known == (v in old(seen))
      ensures known ==> State() == BackRef(old(State()), old(seen)[v])
      ensures !known ==> bytes == old(bytes) && seen == old(seen)[v := |old(bytes)|]
    {
      if v in seen {
        bytes := bytes + ([TAG_BACKREF] + Le(seen[v], 8));
        return true;
      }
      seen := seen[v := |bytes|];
      return false;
    }

    method EncodeInternal(h: Heap, v: Value)
      requires HeapOk(h) && ValueOk(h, v)
      modifies this
      ensures State() == EncodeVal(h, v, old(State()))
      decreases |Unseen(h, State())|, 0
    {
      match v
      case Nil => Push([TAG_NIL]);
      case Bool(b) => Push([if b then TAG_BOOLEAN + SPEC else TAG_BOOLEAN]);
      case Int(i) => Push([TAG_NUMBER + SPEC] + Le(Unsigned(i), 8));
      case Num(bits) => Push([TAG_NUMBER] + Le(bits, 8));
      case Str(s) =>
        var known := EncodeRecursion(v);
        if !known {
          Push([TAG_STRING] + Le(|s|, 8) + s);
        }
      case Table(a) =>
        var known := EncodeRecursion(v);
        if !known {
          Push([TAG_TABLE]);
          UnseenShrinks(h, old(State()), State());
          EncodeTable(h, h[a]);
          Push([TAG_NIL]);
        }
    }

    /** The `lua_next` loop. */
    method EncodeTable(h: Heap, ps: seq<(Value, Value)>)
      requires HeapOk(h) && PairsOk(h, ps)
      modifies this
      ensures State() == EncodePairs(h, ps, old(State()))
      decreases |Unseen(h, State())|, |ps| + 1
    {
      ghost var e0 := State();
      var i := 0;
      while i < |ps|
        invariant i <= |ps| && Grows(e0, State())
        invariant EncodePairs(h, ps[i..], State()) == EncodePairs(h, ps, e0)
      {
        UnseenShrinks(h, e0, State());
        ghost var e := State();
        assert ps[i..][0] == ps[i] && ps[i..][1..] == ps[i + 1..];
        EncodeInternal(h, ps[i].0);
        ghost var e1 := State();
        UnseenShrinks(h, e0, e1);
        EncodeInternal(h, ps[i].1);
        i := i + 1;
      }
      assert ps[i..] == [];
    }
  }

  class Decoder {
    const data: seq<Byte>
    var from: nat
    var tables: seq<LuaTable>
    var marks: map<nat, Value>

    ghost function State(): Dec
      reads this
    {
      Dec(from, tables, marks)
    }

    constructor (data: seq<Byte>)
      ensures State() == Dec(0, [], map[]) && this.data == data
    {
      this.data := data;
      from, tables, marks := 0, [], map[];
    }

    /** `decode_variable<lua_Integer>`; `None` is the stream error. */
    method ReadInt() returns (r: Option<nat>)
      modifies this`from
      ensures match ReadWord(data, old(State()))
        case Fail => r == None
        case Ok(n, d) => r == Some(n) && State() == d
    {
      if from + 8 > |data| { return None; }
      r := Some(UnLe(data[from..from + 8]));
      from := from + 8;
    }

    /** `decode_internal`: the value and its tag, or `None` on a stream error. */
    method DecodeInternal() returns (r: Option<(Value, Byte)>)
      requires from <= |data|
      modifies this
      ensures match DecodeVal(data, old(State()))
        case Fail => r == None
        case Ok(x, d) => r == Some(x) && State() == d
      decreases |data| - from, 0
    {
      var offset := from;
      if from + 1 > |data| { return None; }
      var tag := data[from];
      from := from + 1;
      if tag == TAG_NIL {
        return Some((Nil, tag));
      } else if tag == TAG_BOOLEAN || tag == TAG_BOOLEAN + SPEC {
        return Some((Bool(tag == TAG_BOOLEAN + SPEC), tag));
      } else if tag == TAG_TABLE {
        var t := |tables|;
        tables := tables + [map[]];
        marks := marks[offset := Table(t)];
        var ok := DecodeTable(t);
        return if ok then Some((Table(t), tag)) else None;
      } else if tag == TAG_NUMBER || tag == TAG_NUMBER + SPEC || tag == TAG_STRING || tag == TAG_BACKREF {
        var w := ReadInt();
        if w == None { return None; }
        if tag == TAG_NUMBER { return Some((Num(w.value), tag)); }
        var i := Signed(w.value);
        if tag == TAG_NUMBER + SPEC { return Some((Int(i), tag)); }
        if tag == TAG_BACKREF {
          return if i in marks then Some((marks[i], tag)) else None;
        }
        if i < 0 || i > |data| - from { return None; }
        var s := Str(data[from..from + i]);
        marks := marks[offset := s];
        from := from + i;
        return Some((s, tag));
      }
      return None;
    }

    /** The key/value loop of a table. */
    method DecodeTable(t: nat) returns (ok: bool)
      requires t < |tables| && from <= |data|
      modifies this
      ensures match DecodePairs(data, old(State()), t)
        case Fail => !ok
        case Ok(_, d) => ok && State() == d
      decreases |data| - from, 1
    {
      ghost var d0 := State();
      while true
        invariant t < |tables| && d0.pos <= from <= |data|
        invariant DecodePairs(data, State(), t) == DecodePairs(data, d0, t)
        decreases |data| - from
      {
        var key := DecodeInternal();
        if key == None { return false; }
        if key.value.1 == TAG_NIL { return true; }
        var val := DecodeInternal();
        if val == None { return false; }
        tables := tables[t := RawSet(tables[t], key.value.0, val.value.0)];
      }
    }
  }

  /** Encode with one object, decode with another: the result is isomorphic to the source. */
  method EncodeThenDecode(h: Heap, v: Value)
    returns (r: Option<(Value, Byte)>, tables: seq<LuaTable>, rest: nat, ghost phi: Renaming)
    requires HeapOk(h) && ValueOk(h, v) && forall a <- h :: DistinctKeys(h[a])
    requires |Encode(h, v)| < TWO63
    ensures r.Some? && Isomorphic(h, v, tables, r.value.0, phi) && rest == 0
  {
    var enc := new Encoder();
    enc.EncodeInternal(h, v);
    var dec := new Decoder(enc.bytes);
    r := dec.DecodeInternal();
    ghost var v', tag, d, p := RoundTrip(h, v);
    phi := p;
    tables, rest := dec.tables, |dec.data| - dec.from;
  }
}
