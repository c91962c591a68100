/**
 An example value of FIPS 180-4: the hash of "abc", one block, word by word of the schedule and round
 by round.
 */
module Sha256Example {
  import opened Sha256

  /** The text "abc". */
  function Abc(): Bytes {
    [0x61, 0x62, 0x63]
  }

  function Block(): (b: Bytes)
    ensures |b| == 64
  {
    assert ZeroCount(3) == 52;
    PaddingSize(3);
    Padded(Abc())
  }

  // ---- the block ---------------------------------------------------------------------------------

  lemma {:induction false} NoBytes(n: nat)
    ensures forall i :: 0 <= i < n ==> BigEndian(0, n)[i] == 0
  {
    if n > 0 { NoBytes(n - 1); }
  }

  lemma SmallBytes(x: nat, n: nat)
    requires x < 256
    ensures BigEndian(x, n + 1) == BigEndian(0, n) + [x as bv8]
  {
    hide BigEndian;
    LastByte(x, n);
    assert x / 256 == 0 && x % 256 == x;
  }

  lemma LastByte(x: nat, n: nat)
    ensures BigEndian(x, n + 1) == BigEndian(x / 256, n) + [(x % 256) as bv8]
  {
  }

  lemma LengthBytes()
    ensures forall i :: 0 <= i < 7 ==> BigEndian(24, 8)[i] == 0
    ensures BigEndian(24, 8)[7] == 24
  {
    hide BigEndian;
    NoBytes(7);
    SmallBytes(24, 7);
  }

  /** Text, a one bit, zeros and the length, in these places. */
  lemma Parts(text: Bytes, zeros: Bytes, length: Bytes, b: Bytes)
    requires |text| == 3 && |zeros| == 52 && |length| == 8 && b == text + ([0x80] + zeros + length)
    ensures |b| == 64 && b[3] == 0x80 && (forall i :: 0 <= i < 3 ==> b[i] == text[i])
    ensures (forall i :: 4 <= i < 56 ==> b[i] == zeros[i - 4]) && forall i :: 56 <= i < 64 ==> b[i] == length[i - 56]
  {
  }

  lemma BlockIsParts()
    ensures Block() == Abc() + ([0x80] + Zeros(52) + BigEndian(24, 8))
  {
    hide BigEndian, Zeros;
    assert ZeroCount(3) == 52 && 8 * 3 % Word64 == 24;
  }

  lemma BlockBytes()
    ensures Block()[0] == 0x61 && Block()[1] == 0x62 && Block()[2] == 0x63 && Block()[3] == 0x80 && Block()[63] == 24
    ensures forall i :: 4 <= i < 63 ==> Block()[i] == 0
  {
    hide BigEndian, Block;
    LengthBytes();
    BlockIsParts();
    Parts(Abc(), Zeros(52), BigEndian(24, 8), Block());
  }

  // ---- the schedule ------------------------------------------------------------------------------

  lemma WordValues()
    ensures Word(0x61, 0x62, 0x63, 0x80) == 0x61626380 && Word(0, 0, 0, 0) == 0 && Word(0, 0, 0, 24) == 0x18
  {
  }

  /** Fewer words are the beginning of more. */
  lemma {:induction false} Prefix(b: Bytes, n: nat, m: nat)
    requires |b| == 64 && n <= m <= 64
    ensures Schedule(b, m)[..n] == Schedule(b, n)
  {
    hide Word, Mix;
    if n < m { Prefix(b, n, m - 1); }
  }

  /** The recurrence, position by position. */
  lemma WordAt(b: Bytes, t: nat, m: nat)
    requires |b| == 64 && t < m <= 64
    ensures var w := Schedule(b, m);
      w[t] == if t < 16 then Word(b[4 * t], b[4 * t + 1], b[4 * t + 2], b[4 * t + 3])
              else Mix(w[t - 16], w[t - 15], w[t - 7], w[t - 2])
  {
    hide Word, Mix;
    Prefix(b, t, m);
    Prefix(b, t + 1, m);
    var w := Schedule(b, m);
    assert w[t] == w[..t + 1][t];
    assert forall i :: 0 <= i < t ==> w[i] == Schedule(b, t)[i];
  }

  lemma FirstWords(b: Bytes, t: nat)
    requires b == Block() && t < 16
    ensures Word(b[4 * t], b[4 * t + 1], b[4 * t + 2], b[4 * t + 3])
         == if t == 0 then 0x61626380 else if t == 15 then 0x18 else 0
  {
    BlockBytes();
    WordValues();
    hide Block, Word;
  }

  predicate ExtendsAt(w: seq<bv32>, t: nat)
    requires 16 <= t < |w|
  {
    w[t] == Mix(w[t - 16], w[t - 15], w[t - 7], w[t - 2])
  }

  /** The schedule of a block that starts like that of "abc". */
  ghost predicate IsSchedule(w: seq<bv32>) {
    && |w| == 64 && (forall t :: 0 <= t < 16 ==> w[t] == if t == 0 then 0x61626380 else if t == 15 then 0x18 else 0)
    && forall t :: 16 <= t < 64 ==> ExtendsAt(w, t)
  }

  lemma FirstAre(b: Bytes, t: nat, m: nat)
    requires b == Block() && t < 16 && m == 64
    ensures Schedule(b, m)[t] == if t == 0 then 0x61626380 else if t == 15 then 0x18 else 0
  {
    hide Block, Mix, Word, Schedule;
    WordAt(b, t, m);
    FirstWords(b, t);
  }

  lemma OthersAre(b: Bytes, t: nat, m: nat)
    requires |b| == 64 && 16 <= t < m == 64
    ensures ExtendsAt(Schedule(b, m), t)
  {
    hide Mix, Word, Schedule;
    WordAt(b, t, m);
  }

  lemma ScheduleOfBlock(b: Bytes, m: nat)
    requires b == Block() && m == 64
    ensures IsSchedule(Schedule(b, m))
  {
    hide Block, Mix, Word, Schedule, ExtendsAt;
    forall t: nat | t < 16 ensures Schedule(b, m)[t] == (if t == 0 then 0x61626380 else if t == 15 then 0x18 else 0) {
      FirstAre(b, t, m);
    }
    forall t: nat | 16 <= t < 64 ensures ExtendsAt(Schedule(b, m), t) {
      OthersAre(b, t, m);
    }
  }

  lemma Extends(w: seq<bv32>, t: nat, a: bv32, b: bv32, c: bv32, d: bv32, v: bv32)
    requires IsSchedule(w) && 16 <= t < 64 && w[t - 16] == a && w[t - 15] == b && w[t - 7] == c && w[t - 2] == d
    requires Mix(a, b, c, d) == v
    ensures w[t] == v
  {
    hide Mix;
    assert ExtendsAt(w, t);
  }

  lemma Mixed1()
    ensures Mix(0x61626380, 0x00000000, 0x00000000, 0x00000000) == 0x61626380
    ensures Mix(0x00000000, 0x00000000, 0x00000000, 0x00000018) == 0x000f0000
    ensures Mix(0x00000000, 0x00000000, 0x00000000, 0x61626380) == 0x7da86405
    ensures Mix(0x00000000, 0x00000000, 0x00000000, 0x000f0000) == 0x600003c6
    ensures Mix(0x00000000, 0x00000000, 0x00000000, 0x7da86405) == 0x3e9d7b78
    ensures Mix(0x00000000, 0x00000000, 0x00000000, 0x600003c6) == 0x0183fc00
    ensures Mix(0x00000000, 0x00000000, 0x00000018, 0x3e9d7b78) == 0x12dcbfdb
    ensures Mix(0x00000000, 0x00000000, 0x61626380, 0x0183fc00) == 0xe2e2c38e
  {
  }

  lemma Words1(w: seq<bv32>)
    requires IsSchedule(w)
    ensures w[16] == 0x61626380 && w[17] == 0x000f0000 && w[18] == 0x7da86405 && w[19] == 0x600003c6
    ensures w[20] == 0x3e9d7b78 && w[21] == 0x0183fc00 && w[22] == 0x12dcbfdb && w[23] == 0xe2e2c38e
  {
    hide Mix;
    Mixed1();
    Extends(w, 16, 0x61626380, 0x00000000, 0x00000000, 0x00000000, 0x61626380);
    Extends(w, 17, 0x00000000, 0x00000000, 0x00000000, 0x00000018, 0x000f0000);
    Extends(w, 18, 0x00000000, 0x00000000, 0x00000000, 0x61626380, 0x7da86405);
    Extends(w, 19, 0x00000000, 0x00000000, 0x00000000, 0x000f0000, 0x600003c6);
    Extends(w, 20, 0x00000000, 0x00000000, 0x00000000, 0x7da86405, 0x3e9d7b78);
    Extends(w, 21, 0x00000000, 0x00000000, 0x00000000, 0x600003c6, 0x0183fc00);
    Extends(w, 22, 0x00000000, 0x00000000, 0x00000018, 0x3e9d7b78, 0x12dcbfdb);
    Extends(w, 23, 0x00000000, 0x00000000, 0x61626380, 0x0183fc00, 0xe2e2c38e);
  }

  lemma Mixed2()
    ensures Mix(0x00000000, 0x00000000, 0x000f0000, 0x12dcbfdb) == 0xc8215c1a
    ensures Mix(0x00000000, 0x00000000, 0x7da86405, 0xe2e2c38e) == 0xb73679a2
    ensures Mix(0x00000000, 0x00000000, 0x600003c6, 0xc8215c1a) == 0xe5bc3909
    ensures Mix(0x00000000, 0x00000000, 0x3e9d7b78, 0xb73679a2) == 0x32663c5b
    ensures Mix(0x00000000, 0x00000000, 0x0183fc00, 0xe5bc3909) == 0x9d209d67
    ensures Mix(0x00000000, 0x00000000, 0x12dcbfdb, 0x32663c5b) == 0xec8726cb
    ensures Mix(0x00000000, 0x00000018, 0xe2e2c38e, 0x9d209d67) == 0x702138a4
    ensures Mix(0x00000018, 0x61626380, 0xc8215c1a, 0xec8726cb) == 0xd3b7973b
  {
  }

  lemma Words2(w: seq<bv32>)
    requires IsSchedule(w)
    ensures w[24] == 0xc8215c1a && w[25] == 0xb73679a2 && w[26] == 0xe5bc3909 && w[27] == 0x32663c5b
    ensures w[28] == 0x9d209d67 && w[29] == 0xec8726cb && w[30] == 0x702138a4 && w[31] == 0xd3b7973b
  {
    hide Mix;
    Mixed2();
    Words1(w);
    Extends(w, 24, 0x00000000, 0x00000000, 0x000f0000, 0x12dcbfdb, 0xc8215c1a);
    Extends(w, 25, 0x00000000, 0x00000000, 0x7da86405, 0xe2e2c38e, 0xb73679a2);
    Extends(w, 26, 0x00000000, 0x00000000, 0x600003c6, 0xc8215c1a, 0xe5bc3909);
    Extends(w, 27, 0x00000000, 0x00000000, 0x3e9d7b78, 0xb73679a2, 0x32663c5b);
    Extends(w, 28, 0x00000000, 0x00000000, 0x0183fc00, 0xe5bc3909, 0x9d209d67);
    Extends(w, 29, 0x00000000, 0x00000000, 0x12dcbfdb, 0x32663c5b, 0xec8726cb);
    Extends(w, 30, 0x00000000, 0x00000018, 0xe2e2c38e, 0x9d209d67, 0x702138a4);
    Extends(w, 31, 0x00000018, 0x61626380, 0xc8215c1a, 0xec8726cb, 0xd3b7973b);
  }

  lemma Mixed3()
    ensures Mix(0x61626380, 0x000f0000, 0xb73679a2, 0x702138a4) == 0x93f5997f
    ensures Mix(0x000f0000, 0x7da86405, 0xe5bc3909, 0xd3b7973b) == 0x3b68ba73
    ensures Mix(0x7da86405, 0x600003c6, 0x32663c5b, 0x93f5997f) == 0xaff4ffc1
    ensures Mix(0x600003c6, 0x3e9d7b78, 0x9d209d67, 0x3b68ba73) == 0xf10a5c62
    ensures Mix(0x3e9d7b78, 0x0183fc00, 0xec8726cb, 0xaff4ffc1) == 0x0a8b3996
    ensures Mix(0x0183fc00, 0x12dcbfdb, 0x702138a4, 0xf10a5c62) == 0x72af830a
    ensures Mix(0x12dcbfdb, 0xe2e2c38e, 0xd3b7973b, 0x0a8b3996) == 0x9409e33e
    ensures Mix(0xe2e2c38e, 0xc8215c1a, 0x93f5997f, 0x72af830a) == 0x24641522
  {
  }

  lemma Words3(w: seq<bv32>)
    requires IsSchedule(w)
    ensures w[32] == 0x93f5997f && w[33] == 0x3b68ba73 && w[34] == 0xaff4ffc1 && w[35] == 0xf10a5c62
    ensures w[36] == 0x0a8b3996 && w[37] == 0x72af830a && w[38] == 0x9409e33e && w[39] == 0x24641522
  {
    hide Mix;
    Mixed3();
    Words1(w);
    Words2(w);
    Extends(w, 32, 0x61626380, 0x000f0000, 0xb73679a2, 0x702138a4, 0x93f5997f);
    Extends(w, 33, 0x000f0000, 0x7da86405, 0xe5bc3909, 0xd3b7973b, 0x3b68ba73);
    Extends(w, 34, 0x7da86405, 0x600003c6, 0x32663c5b, 0x93f5997f, 0xaff4ffc1);
    Extends(w, 35, 0x600003c6, 0x3e9d7b78, 0x9d209d67, 0x3b68ba73, 0xf10a5c62);
    Extends(w, 36, 0x3e9d7b78, 0x0183fc00, 0xec8726cb, 0xaff4ffc1, 0x0a8b3996);
    Extends(w, 37, 0x0183fc00, 0x12dcbfdb, 0x702138a4, 0xf10a5c62, 0x72af830a);
    Extends(w, 38, 0x12dcbfdb, 0xe2e2c38e, 0xd3b7973b, 0x0a8b3996, 0x9409e33e);
    Extends(w, 39, 0xe2e2c38e, 0xc8215c1a, 0x93f5997f, 0x72af830a, 0x24641522);
  }

  lemma Mixed4()
    ensures Mix(0xc8215c1a, 0xb73679a2, 0x3b68ba73, 0x9409e33e) == 0x9f47bf94
    ensures Mix(0xb73679a2, 0xe5bc3909, 0xaff4ffc1, 0x24641522) == 0xf0a64f5a
    ensures Mix(0xe5bc3909, 0x32663c5b, 0xf10a5c62, 0x9f47bf94) == 0x3e246a79
    ensures Mix(0x32663c5b, 0x9d209d67, 0x0a8b3996, 0xf0a64f5a) == 0x27333ba3
    ensures Mix(0x9d209d67, 0xec8726cb, 0x72af830a, 0x3e246a79) == 0x0c4763f2
    ensures Mix(0xec8726cb, 0x702138a4, 0x9409e33e, 0x27333ba3) == 0x840abf27
    ensures Mix(0x702138a4, 0xd3b7973b, 0x24641522, 0x0c4763f2) == 0x7a290d5d
    ensures Mix(0xd3b7973b, 0x93f5997f, 0x9f47bf94, 0x840abf27) == 0x065c43da
  {
  }

  lemma Words4(w: seq<bv32>)
    requires IsSchedule(w)
    ensures w[40] == 0x9f47bf94 && w[41] == 0xf0a64f5a && w[42] == 0x3e246a79 && w[43] == 0x27333ba3
    ensures w[44] == 0x0c4763f2 && w[45] == 0x840abf27 && w[46] == 0x7a290d5d && w[47] == 0x065c43da
  {
    hide Mix;
    Mixed4();
    Words2(w);
    Words3(w);
    Extends(w, 40, 0xc8215c1a, 0xb73679a2, 0x3b68ba73, 0x9409e33e, 0x9f47bf94);
    Extends(w, 41, 0xb73679a2, 0xe5bc3909, 0xaff4ffc1, 0x24641522, 0xf0a64f5a);
    Extends(w, 42, 0xe5bc3909, 0x32663c5b, 0xf10a5c62, 0x9f47bf94, 0x3e246a79);
    Extends(w, 43, 0x32663c5b, 0x9d209d67, 0x0a8b3996, 0xf0a64f5a, 0x27333ba3);
    Extends(w, 44, 0x9d209d67, 0xec8726cb, 0x72af830a, 0x3e246a79, 0x0c4763f2);
    Extends(w, 45, 0xec8726cb, 0x702138a4, 0x9409e33e, 0x27333ba3, 0x840abf27);
    Extends(w, 46, 0x702138a4, 0xd3b7973b, 0x24641522, 0x0c4763f2, 0x7a290d5d);
    Extends(w, 47, 0xd3b7973b, 0x93f5997f, 0x9f47bf94, 0x840abf27, 0x065c43da);
  }

  lemma Mixed5()
    ensures Mix(0x93f5997f, 0x3b68ba73, 0xf0a64f5a, 0x7a290d5d) == 0xfb3e89cb
    ensures Mix(0x3b68ba73, 0xaff4ffc1, 0x3e246a79, 0x065c43da) == 0xcc7617db
    ensures Mix(0xaff4ffc1, 0xf10a5c62, 0x27333ba3, 0xfb3e89cb) == 0xb9e66c34
    ensures Mix(0xf10a5c62, 0x0a8b3996, 0x0c4763f2, 0xcc7617db) == 0xa9993667
    ensures Mix(0x0a8b3996, 0x72af830a, 0x840abf27, 0xb9e66c34) == 0x84badedd
    ensures Mix(0x72af830a, 0x9409e33e, 0x7a290d5d, 0xa9993667) == 0xc21462bc
    ensures Mix(0x9409e33e, 0x24641522, 0x065c43da, 0x84badedd) == 0x1487472c
    ensures Mix(0x24641522, 0x9f47bf94, 0xfb3e89cb, 0xc21462bc) == 0xb20f7a99
  {
  }

  lemma Words5(w: seq<bv32>)
    requires IsSchedule(w)
    ensures w[48] == 0xfb3e89cb && w[49] == 0xcc7617db && w[50] == 0xb9e66c34 && w[51] == 0xa9993667
    ensures w[52] == 0x84badedd && w[53] == 0xc21462bc && w[54] == 0x1487472c && w[55] == 0xb20f7a99
  {
    hide Mix;
    Mixed5();
    Words3(w);
    Words4(w);
    Extends(w, 48, 0x93f5997f, 0x3b68ba73, 0xf0a64f5a, 0x7a290d5d, 0xfb3e89cb);
    Extends(w, 49, 0x3b68ba73, 0xaff4ffc1, 0x3e246a79, 0x065c43da, 0xcc7617db);
    Extends(w, 50, 0xaff4ffc1, 0xf10a5c62, 0x27333ba3, 0xfb3e89cb, 0xb9e66c34);
    Extends(w, 51, 0xf10a5c62, 0x0a8b3996, 0x0c4763f2, 0xcc7617db, 0xa9993667);
    Extends(w, 52, 0x0a8b3996, 0x72af830a, 0x840abf27, 0xb9e66c34, 0x84badedd);
    Extends(w, 53, 0x72af830a, 0x9409e33e, 0x7a290d5d, 0xa9993667, 0xc21462bc);
    Extends(w, 54, 0x9409e33e, 0x24641522, 0x065c43da, 0x84badedd, 0x1487472c);
    Extends(w, 55, 0x24641522, 0x9f47bf94, 0xfb3e89cb, 0xc21462bc, 0xb20f7a99);
  }

  lemma Mixed6()
    ensures Mix(0x9f47bf94, 0xf0a64f5a, 0xcc7617db, 0x1487472c) == 0xef57b9cd
    ensures Mix(0xf0a64f5a, 0x3e246a79, 0xb9e66c34, 0xb20f7a99) == 0xebe6b238
    ensures Mix(0x3e246a79, 0x27333ba3, 0xa9993667, 0xef57b9cd) == 0x9fe3095e
    ensures Mix(0x27333ba3, 0x0c4763f2, 0x84badedd, 0xebe6b238) == 0x78bc8d4b
    ensures Mix(0x0c4763f2, 0x840abf27, 0xc21462bc, 0x9fe3095e) == 0xa43fcf15
    ensures Mix(0x840abf27, 0x7a290d5d, 0x1487472c, 0x78bc8d4b) == 0x668b2ff8
    ensures Mix(0x7a290d5d, 0x065c43da, 0xb20f7a99, 0xa43fcf15) == 0xeeaba2cc
    ensures Mix(0x065c43da, 0xfb3e89cb, 0xef57b9cd, 0x668b2ff8) == 0x12b1edeb
  {
  }

  lemma Words6(w: seq<bv32>)
    requires IsSchedule(w)
    ensures w[56] == 0xef57b9cd && w[57] == 0xebe6b238 && w[58] == 0x9fe3095e && w[59] == 0x78bc8d4b
    ensures w[60] == 0xa43fcf15 && w[61] == 0x668b2ff8 && w[62] == 0xeeaba2cc && w[63] == 0x12b1edeb
  {
    hide Mix;
    Mixed6();
    Words4(w);
    Words5(w);
    Extends(w, 56, 0x9f47bf94, 0xf0a64f5a, 0xcc7617db, 0x1487472c, 0xef57b9cd);
    Extends(w, 57, 0xf0a64f5a, 0x3e246a79, 0xb9e66c34, 0xb20f7a99, 0xebe6b238);
    Extends(w, 58, 0x3e246a79, 0x27333ba3, 0xa9993667, 0xef57b9cd, 0x9fe3095e);
    Extends(w, 59, 0x27333ba3, 0x0c4763f2, 0x84badedd, 0xebe6b238, 0x78bc8d4b);
    Extends(w, 60, 0x0c4763f2, 0x840abf27, 0xc21462bc, 0x9fe3095e, 0xa43fcf15);
    Extends(w, 61, 0x840abf27, 0x7a290d5d, 0x1487472c, 0x78bc8d4b, 0x668b2ff8);
    Extends(w, 62, 0x7a290d5d, 0x065c43da, 0xb20f7a99, 0xa43fcf15, 0xeeaba2cc);
    Extends(w, 63, 0x065c43da, 0xfb3e89cb, 0xef57b9cd, 0x668b2ff8, 0x12b1edeb);
  }

  // ---- the rounds --------------------------------------------------------------------------------

  /** The working variables before each round and after the last. */
  ghost predicate IsRounds(r: seq<Regs>, w: seq<bv32>) {
    |r| == 65 && |w| == 64 && r[0] == Initial() && forall t :: 0 <= t < 64 ==> TurnsAt(r, w, t)
  }

  predicate TurnsAt(r: seq<Regs>, w: seq<bv32>, t: nat)
    requires t + 1 < |r| && t < |w| && t < 64
  {
    r[t + 1] == Round(r[t], RoundConstant(t), w[t])
  }

  lemma RoundsOf(w: seq<bv32>, m: nat) returns (r: seq<Regs>)
    requires |w| == 64 && m == 64
    ensures IsRounds(r, w) && r[m] == Rounds(Initial(), w, m)
  {
    hide Round, RoundConstant, Initial;
    r := seq(m + 1, n requires 0 <= n <= m => Rounds(Initial(), w, n));
    forall t | 0 <= t < 64 ensures TurnsAt(r, w, t) { }
  }

  /** One round; `a` and `e` are the two variables it computes. */
  lemma Turn(r: seq<Regs>, w: seq<bv32>, t: nat, s: Regs, k: bv32, x: bv32, a: bv32, e: bv32) returns (s': Regs)
    requires IsRounds(r, w) && t < 64 && r[t] == s && RoundConstant(t) == k && w[t] == x
    requires Round(s, k, x) == Regs(a, s.a, s.b, s.c, e, s.e, s.f, s.g)
    ensures s' == r[t + 1] == Regs(a, s.a, s.b, s.c, e, s.e, s.f, s.g)
  {
    hide Round, RoundConstant, Initial;
    assert TurnsAt(r, w, t);
    s' := r[t + 1];
  }

  lemma Constants0()
    ensures RoundConstant(0) == 0x428a2f98 && RoundConstant(1) == 0x71374491
    ensures RoundConstant(2) == 0xb5c0fbcf && RoundConstant(3) == 0xe9b5dba5
    ensures RoundConstant(4) == 0x3956c25b && RoundConstant(5) == 0x59f111f1
    ensures RoundConstant(6) == 0x923f82a4 && RoundConstant(7) == 0xab1c5ed5
  {
  }

  function S0(): Regs {
    Regs(0x6a09e667, 0xbb67ae85, 0x3c6ef372, 0xa54ff53a, 0x510e527f, 0x9b05688c, 0x1f83d9ab, 0x5be0cd19)
  }

  lemma Rounds0(r: seq<Regs>, w: seq<bv32>)
    requires IsSchedule(w) && IsRounds(r, w) && r[0] == S0()
    ensures r[8] == S1()
  {
    hide RoundConstant, Mix, Initial;
    Constants0();
    var s := S0();
    s := Turn(r, w, 0, s, 0x428a2f98, 0x61626380, 0x5d6aebcd, 0xfa2a4622);
    s := Turn(r, w, 1, s, 0x71374491, 0x00000000, 0x5a6ad9ad, 0x78ce7989);
    s := Turn(r, w, 2, s, 0xb5c0fbcf, 0x00000000, 0xc8c347a7, 0xf92939eb);
    s := Turn(r, w, 3, s, 0xe9b5dba5, 0x00000000, 0xd550f666, 0x24e00850);
    s := Turn(r, w, 4, s, 0x3956c25b, 0x00000000, 0x04409a6a, 0x43ada245);
    s := Turn(r, w, 5, s, 0x59f111f1, 0x00000000, 0x2b4209f5, 0x714260ad);
    s := Turn(r, w, 6, s, 0x923f82a4, 0x00000000, 0xe5030380, 0x9b27a401);
    s := Turn(r, w, 7, s, 0xab1c5ed5, 0x00000000, 0x85a07b5f, 0x0c657a79);
  }

  lemma Constants1()
    ensures RoundConstant(8) == 0xd807aa98 && RoundConstant(9) == 0x12835b01
    ensures RoundConstant(10) == 0x243185be && RoundConstant(11) == 0x550c7dc3
    ensures RoundConstant(12) == 0x72be5d74 && RoundConstant(13) == 0x80deb1fe
    ensures RoundConstant(14) == 0x9bdc06a7 && RoundConstant(15) == 0xc19bf174
  {
  }

  function S1(): Regs {
    Regs(0x85a07b5f, 0xe5030380, 0x2b4209f5, 0x04409a6a, 0x0c657a79, 0x9b27a401, 0x714260ad, 0x43ada245)
  }

  lemma Rounds1(r: seq<Regs>, w: seq<bv32>)
    requires IsSchedule(w) && IsRounds(r, w) && r[8] == S1()
    ensures r[16] == S2()
  {
    hide RoundConstant, Mix, Initial;
    Constants1();
    var s := S1();
    s := Turn(r, w, 8, s, 0xd807aa98, 0x00000000, 0x8e04ecb9, 0x32ca2d8c);
    s := Turn(r, w, 9, s, 0x12835b01, 0x00000000, 0x8c87346b, 0x1cc92596);
    s := Turn(r, w, 10, s, 0x243185be, 0x00000000, 0x4798a3f4, 0x436b23e8);
    s := Turn(r, w, 11, s, 0x550c7dc3, 0x00000000, 0xf71fc5a9, 0x816fd6e9);
    s := Turn(r, w, 12, s, 0x72be5d74, 0x00000000, 0x87912990, 0x1e578218);
    s := Turn(r, w, 13, s, 0x80deb1fe, 0x00000000, 0xd932eb16, 0x745a48de);
    s := Turn(r, w, 14, s, 0x9bdc06a7, 0x00000000, 0xc0645fde, 0x0b92f20c);
    s := Turn(r, w, 15, s, 0xc19bf174, 0x00000018, 0xb0fa238e, 0x07590dcd);
  }

  lemma Constants2()
    ensures RoundConstant(16) == 0xe49b69c1 && RoundConstant(17) == 0xefbe4786
    ensures RoundConstant(18) == 0x0fc19dc6 && RoundConstant(19) == 0x240ca1cc
    ensures RoundConstant(20) == 0x2de92c6f && RoundConstant(21) == 0x4a7484aa
    ensures RoundConstant(22) == 0x5cb0a9dc && RoundConstant(23) == 0x76f988da
  {
  }

  function S2(): Regs {
    Regs(0xb0fa238e, 0xc0645fde, 0xd932eb16, 0x87912990, 0x07590dcd, 0x0b92f20c, 0x745a48de, 0x1e578218)
  }

  lemma Rounds2(r: seq<Regs>, w: seq<bv32>)
    requires IsSchedule(w) && IsRounds(r, w) && r[16] == S2()
    ensures r[24] == S3()
  {
    hide RoundConstant, Mix, Initial;
    Constants2();
    Words1(w);
    var s := S2();
    s := Turn(r, w, 16, s, 0xe49b69c1, 0x61626380, 0x21da9a9b, 0x8034229c);
    s := Turn(r, w, 17, s, 0xefbe4786, 0x000f0000, 0xc2fbd9d1, 0x846ee454);
    s := Turn(r, w, 18, s, 0x0fc19dc6, 0x7da86405, 0xfe777bbf, 0xcc899961);
    s := Turn(r, w, 19, s, 0x240ca1cc, 0x600003c6, 0xe1f20c33, 0xb0638179);
    s := Turn(r, w, 20, s, 0x2de92c6f, 0x3e9d7b78, 0x9dc68b63, 0x8ada8930);
    s := Turn(r, w, 21, s, 0x4a7484aa, 0x0183fc00, 0xc2606d6d, 0xe1257970);
    s := Turn(r, w, 22, s, 0x5cb0a9dc, 0x12dcbfdb, 0xa7a3623f, 0x49f5114a);
    s := Turn(r, w, 23, s, 0x76f988da, 0xe2e2c38e, 0xc5d53d8d, 0xaa47c347);
  }

  lemma Constants3()
    ensures RoundConstant(24) == 0x983e5152 && RoundConstant(25) == 0xa831c66d
    ensures RoundConstant(26) == 0xb00327c8 && RoundConstant(27) == 0xbf597fc7
    ensures RoundConstant(28) == 0xc6e00bf3 && RoundConstant(29) == 0xd5a79147
    ensures RoundConstant(30) == 0x06ca6351 && RoundConstant(31) == 0x14292967
  {
  }

  function S3(): Regs {
    Regs(0xc5d53d8d, 0xa7a3623f, 0xc2606d6d, 0x9dc68b63, 0xaa47c347, 0x49f5114a, 0xe1257970, 0x8ada8930)
  }

  lemma Rounds3(r: seq<Regs>, w: seq<bv32>)
    requires IsSchedule(w) && IsRounds(r, w) && r[24] == S3()
    ensures r[32] == S4()
  {
    hide RoundConstant, Mix, Initial;
    Constants3();
    Words2(w);
    var s := S3();
    s := Turn(r, w, 24, s, 0x983e5152, 0xc8215c1a, 0x1c2c2838, 0x2823ef91);
    s := Turn(r, w, 25, s, 0xa831c66d, 0xb73679a2, 0xcde8037d, 0x14383d8e);
    s := Turn(r, w, 26, s, 0xb00327c8, 0xe5bc3909, 0xb62ec4bc, 0xc74c6516);
    s := Turn(r, w, 27, s, 0xbf597fc7, 0x32663c5b, 0x77d37528, 0xedffbff8);
    s := Turn(r, w, 28, s, 0xc6e00bf3, 0x9d209d67, 0x363482c9, 0x6112a3b7);
    s := Turn(r, w, 29, s, 0xd5a79147, 0xec8726cb, 0xa0060b30, 0xade79437);
    s := Turn(r, w, 30, s, 0x06ca6351, 0x702138a4, 0xea992a22, 0x0109ab3a);
    s := Turn(r, w, 31, s, 0x14292967, 0xd3b7973b, 0x73b33bf5, 0xba591112);
  }

  lemma Constants4()
    ensures RoundConstant(32) == 0x27b70a85 && RoundConstant(33) == 0x2e1b2138
    ensures RoundConstant(34) == 0x4d2c6dfc && RoundConstant(35) == 0x53380d13
    ensures RoundConstant(36) == 0x650a7354 && RoundConstant(37) == 0x766a0abb
    ensures RoundConstant(38) == 0x81c2c92e && RoundConstant(39) == 0x92722c85
  {
  }

  function S4(): Regs {
    Regs(0x73b33bf5, 0xea992a22, 0xa0060b30, 0x363482c9, 0xba591112, 0x0109ab3a, 0xade79437, 0x6112a3b7)
  }

  lemma Rounds4(r: seq<Regs>, w: seq<bv32>)
    requires IsSchedule(w) && IsRounds(r, w) && r[32] == S4()
    ensures r[40] == S5()
  {
    hide RoundConstant, Mix, Initial;
    Constants4();
    Words3(w);
    var s := S4();
    s := Turn(r, w, 32, s, 0x27b70a85, 0x93f5997f, 0x98e12507, 0x9cd9f5f6);
    s := Turn(r, w, 33, s, 0x2e1b2138, 0x3b68ba73, 0xfe604df5, 0x59249dd3);
    s := Turn(r, w, 34, s, 0x4d2c6dfc, 0xaff4ffc1, 0xa9a7738c, 0x085f3833);
    s := Turn(r, w, 35, s, 0x53380d13, 0xf10a5c62, 0x65a0cfe4, 0xf4b002d6);
    s := Turn(r, w, 36, s, 0x650a7354, 0x0a8b3996, 0x41a65cb1, 0x0772a26b);
    s := Turn(r, w, 37, s, 0x766a0abb, 0x72af830a, 0x34df1604, 0xa507a53d);
    s := Turn(r, w, 38, s, 0x81c2c92e, 0x9409e33e, 0x6dc57a8a, 0xf0781bc8);
    s := Turn(r, w, 39, s, 0x92722c85, 0x24641522, 0x79ea687a, 0x1efbc0a0);
  }

  lemma Constants5()
    ensures RoundConstant(40) == 0xa2bfe8a1 && RoundConstant(41) == 0xa81a664b
    ensures RoundConstant(42) == 0xc24b8b70 && RoundConstant(43) == 0xc76c51a3
    ensures RoundConstant(44) == 0xd192e819 && RoundConstant(45) == 0xd6990624
    ensures RoundConstant(46) == 0xf40e3585 && RoundConstant(47) == 0x106aa070
  {
  }

  function S5(): Regs {
    Regs(0x79ea687a, 0x6dc57a8a, 0x34df1604, 0x41a65cb1, 0x1efbc0a0, 0xf0781bc8, 0xa507a53d, 0x0772a26b)
  }

  lemma Rounds5(r: seq<Regs>, w: seq<bv32>)
    requires IsSchedule(w) && IsRounds(r, w) && r[40] == S5()
    ensures r[48] == S6()
  {
    hide RoundConstant, Mix, Initial;
    Constants5();
    Words4(w);
    var s := S5();
    s := Turn(r, w, 40, s, 0xa2bfe8a1, 0x9f47bf94, 0xd6670766, 0x26352d63);
    s := Turn(r, w, 41, s, 0xa81a664b, 0xf0a64f5a, 0xdf46652f, 0x838b2711);
    s := Turn(r, w, 42, s, 0xc24b8b70, 0x3e246a79, 0x17aa0dfe, 0xdecd4715);
    s := Turn(r, w, 43, s, 0xc76c51a3, 0x27333ba3, 0x9d4baf93, 0xfda24c2e);
    s := Turn(r, w, 44, s, 0xd192e819, 0x0c4763f2, 0x26628815, 0xa80f11f0);
    s := Turn(r, w, 45, s, 0xd6990624, 0x840abf27, 0x72ab4b91, 0xb7755da1);
    s := Turn(r, w, 46, s, 0xf40e3585, 0x7a290d5d, 0xa14c14b0, 0xd57b94a9);
    s := Turn(r, w, 47, s, 0x106aa070, 0x065c43da, 0x4172328d, 0xfecf0bc6);
  }

  lemma Constants6()
    ensures RoundConstant(48) == 0x19a4c116 && RoundConstant(49) == 0x1e376c08
    ensures RoundConstant(50) == 0x2748774c && RoundConstant(51) == 0x34b0bcb5
    ensures RoundConstant(52) == 0x391c0cb3 && RoundConstant(53) == 0x4ed8aa4a
    ensures RoundConstant(54) == 0x5b9cca4f && RoundConstant(55) == 0x682e6ff3
  {
  }

  function S6(): Regs {
    Regs(0x4172328d, 0xa14c14b0, 0x72ab4b91, 0x26628815, 0xfecf0bc6, 0xd57b94a9, 0xb7755da1, 0xa80f11f0)
  }

  lemma Rounds6(r: seq<Regs>, w: seq<bv32>)
    requires IsSchedule(w) && IsRounds(r, w) && r[48] == S6()
    ensures r[56] == S7()
  {
    hide RoundConstant, Mix, Initial;
    Constants6();
    Words5(w);
    var s := S6();
    s := Turn(r, w, 48, s, 0x19a4c116, 0xfb3e89cb, 0x05757ceb, 0xbd714038);
    s := Turn(r, w, 49, s, 0x1e376c08, 0xcc7617db, 0xf11bfaa8, 0x6e5c390c);
    s := Turn(r, w, 50, s, 0x2748774c, 0xb9e66c34, 0x7a0508a1, 0x52f1ccf7);
    s := Turn(r, w, 51, s, 0x34b0bcb5, 0xa9993667, 0x886e7a22, 0x49231c1e);
    s := Turn(r, w, 52, s, 0x391c0cb3, 0x84badedd, 0x101fd28f, 0x529e7d00);
    s := Turn(r, w, 53, s, 0x4ed8aa4a, 0xc21462bc, 0xf5702fdb, 0x9f4787c3);
    s := Turn(r, w, 54, s, 0x5b9cca4f, 0x1487472c, 0x3ec45cdb, 0xe50e1b4f);
    s := Turn(r, w, 55, s, 0x682e6ff3, 0xb20f7a99, 0x38cc9913, 0x54cb266b);
  }

  lemma Constants7()
    ensures RoundConstant(56) == 0x748f82ee && RoundConstant(57) == 0x78a5636f
    ensures RoundConstant(58) == 0x84c87814 && RoundConstant(59) == 0x8cc70208
    ensures RoundConstant(60) == 0x90befffa && RoundConstant(61) == 0xa4506ceb
    ensures RoundConstant(62) == 0xbef9a3f7 && RoundConstant(63) == 0xc67178f2
  {
  }

  function S7(): Regs {
    Regs(0x38cc9913, 0x3ec45cdb, 0xf5702fdb, 0x101fd28f, 0x54cb266b, 0xe50e1b4f, 0x9f4787c3, 0x529e7d00)
  }

  lemma Rounds7(r: seq<Regs>, w: seq<bv32>)
    requires IsSchedule(w) && IsRounds(r, w) && r[56] == S7()
    ensures r[64] == S8()
  {
    hide RoundConstant, Mix, Initial;
    Constants7();
    Words6(w);
    var s := S7();
    s := Turn(r, w, 56, s, 0x748f82ee, 0xef57b9cd, 0xfcd1887b, 0x9b5e906c);
    s := Turn(r, w, 57, s, 0x78a5636f, 0xebe6b238, 0xc062d46f, 0x7e44008e);
    s := Turn(r, w, 58, s, 0x84c87814, 0x9fe3095e, 0xffb70472, 0x6d83bfc6);
    s := Turn(r, w, 59, s, 0x8cc70208, 0x78bc8d4b, 0xb6ae8fff, 0xb21bad3d);
    s := Turn(r, w, 60, s, 0x90befffa, 0xa43fcf15, 0xb85e2ce9, 0x961f4894);
    s := Turn(r, w, 61, s, 0xa4506ceb, 0x668b2ff8, 0x04d24d6c, 0x948d25b6);
    s := Turn(r, w, 62, s, 0xbef9a3f7, 0xeeaba2cc, 0xd39a2165, 0xfb121210);
    s := Turn(r, w, 63, s, 0xc67178f2, 0x12b1edeb, 0x506e3058, 0x5ef50f24);
  }

  function S8(): Regs {
    Regs(0x506e3058, 0xd39a2165, 0x04d24d6c, 0xb85e2ce9, 0x5ef50f24, 0xfb121210, 0x948d25b6, 0x961f4894)
  }

  /** ba7816bf 8f01cfea ..., the digest the standard's examples give. */
  function Digest(): Regs {
    Regs(0xba7816bf, 0x8f01cfea, 0x414140de, 0x5dae2223, 0xb00361a3, 0x96177a9c, 0xb410ff61, 0xf20015ad)
  }

  lemma FinalSum()
    ensures Sum(Initial(), S8()) == Digest() && Initial() == S0()
  {
  }

  lemma FoldsOnce(b: Bytes)
    requires |b| == 64
    ensures Fold(b) == Compress(Initial(), b)
  {
    assert b[..0] == [] && b[0..] == b;
    hide Compress;
  }

  /** What the compression function makes of a schedule like that of "abc", for `m` = 64 rounds. */
  lemma AfterRounds(w: seq<bv32>, m: nat)
    requires IsSchedule(w) && m == 64
    ensures Sum(Initial(), Rounds(Initial(), w, m)) == Digest()
  {
    hide Sum, Initial, Mix, RoundConstant, Round, Digest, Rounds, S8;
    FinalSum();
    var r := RoundsOf(w, m);
    AllRounds(r, w);
  }

  lemma CompressBlock(b: Bytes, m: nat)
    requires b == Block() && m == 64
    ensures Sum(Initial(), Rounds(Initial(), Schedule(b, m), m)) == Digest()
  {
    hide Sum, Block, Initial, Mix, Word, RoundConstant, Round, Digest, Schedule, Rounds;
    ScheduleOfBlock(b, m);
    AfterRounds(Schedule(b, m), m);
  }

  /** The digits of the text, for any word of the digest. */
  lemma DigitValues()
    ensures forall n: bv4 :: Digit(n) == "0123456789abcdef"[n as int]
  {
  }

  lemma CompressIs(h: Regs, b: Bytes, m: nat)
    requires |b| == 64 && m == 64
    ensures Compress(h, b) == Sum(h, Rounds(h, Schedule(b, m), m))
  {
    hide Sum, Rounds, Schedule;
  }

  /** The hash of "abc". */
  lemma HashOfAbc(text: Bytes)
    requires text == Abc()
    ensures Hash(text) == Digest()
  {
    hide Compress, Initial, Digest, Padded, Fold;
    var b := Block();
    assert Padded(text) == b by { BlockIs(); }
    FoldsOnce(b);
    hide Block, Sum, Rounds, Schedule;
    CompressIs(Initial(), b, 64);
    CompressBlock(b, 64);
  }

  lemma BlockIs()
    ensures Block() == Padded(Abc())
  {
  }

  lemma AllRounds(r: seq<Regs>, w: seq<bv32>)
    requires IsSchedule(w) && IsRounds(r, w)
    ensures r[64] == S8()
  {
    FinalSum();
    hide Initial, Mix, RoundConstant, Round, S0, S1, S2, S3, S4, S5, S6, S7, S8;
    Rounds0(r, w);
    Rounds1(r, w);
    Rounds2(r, w);
    Rounds3(r, w);
    Rounds4(r, w);
    Rounds5(r, w);
    Rounds6(r, w);
    Rounds7(r, w);
  }
}
