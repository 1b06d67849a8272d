/** CRC-16/Kermit of sbd_acars.c: the CCITT polynomial with every word read the other way round. */
module Kermit {

  import opened BitWords
  import opened Crc
  import opened Gf2

  const REFLECTED: Word := {3, 10, 15}       // 0x8408

  function ShiftRight(c: Word): Word {
    if 0 in c then Xor(Shr(c, 1), REFLECTED) else Shr(c, 1)
  }

  function ShiftsRight(c: Word, n: nat): Word
    decreases n
  {
    if n == 0 then c else ShiftsRight(ShiftRight(c), n - 1)
  }

  /** One message bit, low bits first. */
  function FeedRight(c: Word, b: bool): Word {
    ShiftRight(if b then Xor(c, {0}) else c)
  }

  function RunRight(c: Word, bits: seq<bool>): Word
    decreases |bits|
  {
    if bits == [] then c else RunRight(FeedRight(c, bits[0]), bits[1..])
  }

  // ---- The mirror image ----

  predicate MirrorBit(c: Word, x: nat) {
    x < 16 && 15 - x in c
  }

  function Mirror(c: Word): Word {
    set x: nat | x < 16 && MirrorBit(c, x)
  }

  lemma MirrorTwice(c: Word)
    requires Below(c, 16)
    ensures Mirror(Mirror(c)) == c && Below(Mirror(c), 16)
  {
    assert forall x: nat | x < 16 :: MirrorBit(Mirror(c), x) == (x in c);
  }

  lemma MirrorXor(a: Word, b: Word)
    ensures Mirror(Xor(a, b)) == Xor(Mirror(a), Mirror(b))
  {
    assert forall x: nat | x < 16 :: MirrorBit(Xor(a, b), x) == (MirrorBit(a, x) != MirrorBit(b, x));
  }

  lemma MirrorPoly()
    ensures Mirror(POLY) == REFLECTED
  {
    assert forall x: nat | x < 16 :: MirrorBit(POLY, x) == (x in REFLECTED);
  }

  lemma MirrorPlain(c: Word)
    requires Below(c, 16)
    ensures Mirror(Shl(c, 1) - {16}) == Shr(Mirror(c), 1)
  {
    hide Shr, Shl;
    var s := Shl(c, 1) - {16};
    forall x: nat ensures x in Mirror(s) <==> x in Shr(Mirror(c), 1) {
      ShrIn(Mirror(c), 1, x);
      if x < 16 {
        assert MirrorBit(s, x) == (15 - x in s);
      }
      if x + 1 < 16 {
        assert MirrorBit(c, x + 1) == (15 - (x + 1) in c);
      }
    }
  }

  lemma MirrorShift(c: Word)
    requires Below(c, 16)
    ensures Mirror(Shift(c)) == ShiftRight(Mirror(c))
  {
    MirrorPlain(c);
    MirrorXor(Shl(c, 1) - {16}, POLY);
    MirrorPoly();
    assert MirrorBit(c, 0) == (15 in c);
    hide Shl, Shr, Xor;
  }

  lemma MirrorFeed(c: Word, b: bool)
    requires Below(c, 16)
    ensures Mirror(Feed(c, b)) == FeedRight(Mirror(c), b) && Below(Feed(c, b), 16)
  {
    hide Shift, ShiftRight;
    MirrorXor(c, {15});
    assert Mirror({15}) == {0} by {
      assert forall x: nat | x < 16 :: MirrorBit({15}, x) == (x == 0);
    }
    var d := if b then Xor(c, {15}) else c;
    assert Below(d, 16);
    MirrorShift(d);
    ShiftBelow(d);
  }

  /** The two checks are mirror images, bit for bit. */
  lemma {:induction false} MirrorRun(c: Word, bits: seq<bool>)
    requires Below(c, 16)
    ensures Mirror(Run(c, bits)) == RunRight(Mirror(c), bits)
    decreases |bits|
  {
    hide Feed, FeedRight, Mirror;
    if bits != [] {
      MirrorFeed(c, bits[0]);
      MirrorRun(Feed(c, bits[0]), bits[1..]);
    }
  }

  /** So, mirrored, it is the remainder by the same generator. */
  lemma RunRightRemains(c: Word, message: seq<bool>)
    requires Below(c, 16)
    ensures Remains(Mirror(c), message, Mirror(RunRight(c, message)))
  {
    hide Run, RunRight, Mirror, Remains;
    MirrorTwice(c);
    MirrorRun(Mirror(c), message);
    RunBelow(Mirror(c), message);
    MirrorTwice(Run(Mirror(c), message));
    RunRemains(Mirror(c), message);
  }

  /** So the check also notices every error burst of at most 16 bits. */
  lemma BurstNoticed(c: Word, message: seq<bool>, errors: seq<bool>, from: nat, to: nat)
    requires Below(c, 16) && |message| == |errors| && Burst(errors, from, to)
    ensures RunRight(c, Received(message, errors)) != RunRight(c, message)
  {
    hide Run, RunRight, Mirror, Burst, Received;
    var d := Mirror(c);
    MirrorTwice(c);
    MirrorRun(d, message);
    MirrorRun(d, Received(message, errors));
    BurstDetected(d, message, errors, from, to);
    RunBelow(d, message);
    RunBelow(d, Received(message, errors));
    MirrorTwice(Run(d, message));
    MirrorTwice(Run(d, Received(message, errors)));
  }

  // ---- The table ----

  const LOW8: Word := {0, 1, 2, 3, 4, 5, 6, 7}

  lemma ShrXor(a: Word, b: Word, k: nat)
    ensures Shr(Xor(a, b), k) == Xor(Shr(a, k), Shr(b, k))
  {
    hide Shr;
    forall x: nat ensures x in Shr(Xor(a, b), k) <==> x in Xor(Shr(a, k), Shr(b, k)) {
      ShrIn(Xor(a, b), k, x);
      ShrIn(a, k, x);
      ShrIn(b, k, x);
    }
  }

  lemma ShiftRightLinear(a: Word, b: Word)
    ensures ShiftRight(Xor(a, b)) == Xor(ShiftRight(a), ShiftRight(b))
  {
    hide Shr;
    ShrXor(a, b, 1);
  }

  lemma {:induction false} ShiftsRightLinear(a: Word, b: Word, n: nat)
    ensures ShiftsRight(Xor(a, b), n) == Xor(ShiftsRight(a, n), ShiftsRight(b, n))
    decreases n
  {
    hide ShiftRight;
    if n > 0 {
      ShiftRightLinear(a, b);
      ShiftsRightLinear(ShiftRight(a), ShiftRight(b), n - 1);
    }
  }

  /** A word whose low n bits are zero is only shifted. */
  lemma {:induction false} ShiftsRightPlain(h: Word, n: nat)
    requires forall x :: x in h ==> x >= n
    ensures ShiftsRight(h, n) == Shr(h, n)
    decreases n
  {
    hide Shr;
    if n == 0 {
      forall x: nat ensures x in Shr(h, 0) <==> x in h { ShrIn(h, 0, x); }
    } else {
      var s := Shr(h, 1);
      forall x | x in s ensures x >= n - 1 { ShrIn(h, 1, x); }
      ShiftsRightPlain(s, n - 1);
      forall x: nat ensures x in Shr(s, n - 1) <==> x in Shr(h, n) {
        ShrIn(s, n - 1, x);
        ShrIn(h, 1, x + n - 1);
        ShrIn(h, n, x);
      }
    }
  }

  /** crc16_init: the table holds every byte shifted out. */
  method Init() returns (table: map<Word, Word>)
    ensures forall w: Word :: Below(w, 8) ==> w in table && table[w] == ShiftsRight(w, 8)
  {
    hide ShiftRight, NumberWord;
    table := map[];
    for i := 0 to 256
      invariant forall j: nat :: j < i ==> NumberWord(j, 8) in table
      invariant forall w :: w in table ==> table[w] == ShiftsRight(w, 8)
    {
      var crc := NumberWord(i, 8);
      for j := 0 to 8
        invariant ShiftsRight(crc, 8 - j) == ShiftsRight(NumberWord(i, 8), 8)
      {
        crc := ShiftRight(crc);
      }
      table := table[NumberWord(i, 8) := crc];
    }
    forall w: Word | Below(w, 8) ensures w in table {
      var i := NumberFor(w, 8);
      assert Pow2(8) == 256 by { assert Pow2(4) == 16; }
    }
  }

  /** The bits of a byte, low bit first. */
  function LowFirst(byte: Word): seq<bool> {
    seq(8, i requires 0 <= i < 8 => i in byte)
  }

  function AllLowFirst(data: seq<Word>): seq<bool> {
    if data == [] then [] else AllLowFirst(data[..|data| - 1]) + LowFirst(data[|data| - 1])
  }

  /** One byte through the table. */
  function TableStep(table: map<Word, Word>, c: Word, byte: Word): Word
    requires forall w: Word :: Below(w, 8) ==> w in table
  {
    assert Below(Xor(c, byte) * LOW8, 8);
    Xor(table[Xor(c, byte) * LOW8], Shr(c, 8))
  }

  lemma SplitByte(c: Word, byte: Word)
    requires Below(byte, 8)
    ensures Xor(ShiftsRight(Xor(c, byte) * LOW8, 8), Shr(c, 8)) == ShiftsRight(Xor(c, byte), 8)
  {
    hide Shr, ShiftsRight;
    var v := Xor(c, byte);
    var low, high := v * LOW8, v - LOW8;
    assert v == Xor(low, high);
    ShiftsRightLinear(low, high, 8);
    ShiftsRightPlain(high, 8);
    forall x: nat ensures x in Shr(high, 8) <==> x in Shr(c, 8) {
      ShrIn(high, 8, x);
      ShrIn(c, 8, x);
    }
  }

  // ---- The bit-serial form ----

  function LowWord(bits: seq<bool>): Word {
    set i: nat | i < |bits| && bits[i]
  }

  lemma LowSplit(bits: seq<bool>)
    requires bits != []
    ensures LowWord(bits) == Xor(if bits[0] then {0} else {}, Shl(LowWord(bits[1..]), 1))
  {
    hide Shl;
    forall x: nat ensures x in LowWord(bits) <==> x in Xor(if bits[0] then {0} else {}, Shl(LowWord(bits[1..]), 1)) {
      if 1 <= x < |bits| {
        assert bits[x] == bits[1..][x - 1];
      }
    }
  }

  lemma ShiftRightBack(w: Word)
    ensures ShiftRight(Shl(w, 1)) == w
  {
    hide Shl, Shr;
    forall x: nat ensures x in Shr(Shl(w, 1), 1) <==> x in w { ShrIn(Shl(w, 1), 1, x); }
  }

  lemma {:induction false} RunRightShifts(c: Word, bits: seq<bool>)
    ensures RunRight(c, bits) == ShiftsRight(Xor(c, LowWord(bits)), |bits|)
    decreases |bits|
  {
    if bits == [] {
      assert Xor(c, LowWord(bits)) == c;
    } else {
      var bit: Word, rest := if bits[0] then {0} else {}, LowWord(bits[1..]);
      LowSplit(bits);
      hide ShiftRight, Shl, LowWord;
      assert Xor(c, Xor(bit, Shl(rest, 1))) == Xor(Xor(c, bit), Shl(rest, 1));
      assert !bits[0] ==> Xor(c, bit) == c;
      ShiftRightLinear(Xor(c, bit), Shl(rest, 1));
      ShiftRightBack(rest);
      RunRightShifts(FeedRight(c, bits[0]), bits[1..]);
    }
  }

  /** A byte through the table is its eight bits fed one by one. */
  lemma TableStepRuns(table: map<Word, Word>, c: Word, byte: Word)
    requires forall w: Word :: Below(w, 8) ==> w in table && table[w] == ShiftsRight(w, 8)
    requires Below(byte, 8)
    ensures TableStep(table, c, byte) == RunRight(c, LowFirst(byte))
  {
    hide ShiftsRight, RunRight, Shr;
    SplitByte(c, byte);
    RunRightShifts(c, LowFirst(byte));
    assert LowWord(LowFirst(byte)) == byte;
    assert Below(Xor(c, byte) * LOW8, 8);
  }

  lemma {:induction false} RunRightAppend(c: Word, a: seq<bool>, b: seq<bool>)
    ensures RunRight(c, a + b) == RunRight(RunRight(c, a), b)
    decreases |a|
  {
    if a == [] {
      assert a + b == b;
    } else {
      assert (a + b)[1..] == a[1..] + b;
      RunRightAppend(FeedRight(c, a[0]), a[1..], b);
    }
  }

  /** crc16_kermit, with the table that Init fills. */
  method Crc16(table: map<Word, Word>, data: seq<Word>) returns (crc: Word)
    requires forall w: Word :: Below(w, 8) ==> w in table && table[w] == ShiftsRight(w, 8)
    requires Bytes(data)
    ensures crc == RunRight({}, AllLowFirst(data))
    ensures Below(crc, 16) && Remains({}, AllLowFirst(data), Mirror(crc))
  {
    hide ShiftsRight, TableStep, LowFirst, FeedRight, Remains;
    crc := {};
    for i := 0 to |data|
      invariant crc == RunRight({}, AllLowFirst(data[..i]))
    {
      TableStepRuns(table, crc, data[i]);
      RunRightAppend({}, AllLowFirst(data[..i]), LowFirst(data[i]));
      crc := TableStep(table, crc, data[i]);
      assert data[..i + 1][..i] == data[..i];
    }
    assert data[..|data|] == data;
    RunRightBelow({}, AllLowFirst(data));
    RunRightRemains({}, AllLowFirst(data));
    assert Mirror({}) == {};
  }

  lemma ShiftRightBelow(c: Word)
    requires Below(c, 16)
    ensures Below(ShiftRight(c), 16) && (ShiftRight(c) == {} ==> c == {})
  {
    hide Shr;
    forall x | x in Shr(c, 1) ensures x < 15 { ShrIn(c, 1, x); }
    assert 0 in c ==> 15 in ShiftRight(c);
    forall x | x in c && x > 0 ensures x - 1 in Shr(c, 1) { ShrIn(c, 1, x - 1); }
  }

  lemma {:induction false} ShiftsRightInjective(c: Word, n: nat)
    requires Below(c, 16)
    ensures ShiftsRight(c, n) == {} ==> c == {}
    decreases n
  {
    if n > 0 {
      ShiftRightBelow(c);
      ShiftsRightInjective(ShiftRight(c), n - 1);
    }
  }

  lemma {:induction false} RunRightBelow(c: Word, bits: seq<bool>)
    requires Below(c, 16)
    ensures Below(RunRight(c, bits), 16)
    decreases |bits|
  {
    if bits != [] {
      assert Below(Xor(c, {0}), 16);
      ShiftRightBelow(if bits[0] then Xor(c, {0}) else c);
      RunRightBelow(FeedRight(c, bits[0]), bits[1..]);
    }
  }

  lemma {:induction false} ShiftsRightZero(n: nat)
    ensures ShiftsRight({}, n) == {}
  {
    if n > 0 {
      assert ShiftRight({}) == {};
      ShiftsRightZero(n - 1);
    }
  }

  lemma TwoBytes(low: Word, high: Word)
    requires Below(low, 8) && Below(high, 8)
    ensures LowWord(LowFirst(low) + LowFirst(high)) == low + Shl(high, 8)
  {
    hide Shl;
    var bits := LowFirst(low) + LowFirst(high);
    forall x: nat ensures x in LowWord(bits) <==> x in low + Shl(high, 8) {
      if 8 <= x < 16 {
        assert bits[x] == LowFirst(high)[x - 8];
      }
    }
  }

  /** Two bytes after a message bring the check to zero exactly when they are the message's CRC, low byte first. */
  lemma AppendedLowHigh(message: seq<bool>, low: Word, high: Word)
    requires Below(low, 8) && Below(high, 8)
    ensures RunRight({}, message + (LowFirst(low) + LowFirst(high))) == {} <==>
            RunRight({}, message) == low + Shl(high, 8)
  {
    var check := LowFirst(low) + LowFirst(high);
    var r, w := RunRight({}, message), LowWord(check);
    RunRightBelow({}, message);
    RunRightAppend({}, message, check);
    RunRightShifts(r, check);
    TwoBytes(low, high);
    assert Below(w, 16);
    hide RunRight, LowWord, ShiftsRight, LowFirst, Shl;
    SameWord(r, w);
    ShiftsRightInjective(Xor(r, w), 16);
    ShiftsRightZero(16);
  }
}
