/** The two cyclic redundancy checks: CRC-CCITT-FALSE of data frames (ida_decode.c) and CRC-16/Kermit of short
    bursts (sbd_acars.c). Registers and bytes are words; a message is also its bits in the order they are fed. */
module Crc {

  import opened BitWords
  import opened Gf2

  const POLY: Word := {0, 5, 12}       // 0x1021
  const ONES: Word := {0, 1, 2, 3, 4, 5, 6, 7, 8, 9, 10, 11, 12, 13, 14, 15}

  // ---- CRC-CCITT ----

  /** One pass of the inner loop on a 16-bit register. */
  function Shift(c: Word): Word {
    var s := Shl(c, 1) - {16};
    if 15 in c then Xor(s, POLY) else s
  }

  function Shifts(c: Word, n: nat): Word
    decreases n
  {
    if n == 0 then c else Shifts(Shift(c), n - 1)
  }

  /** One message bit, the bit-serial form. */
  function Feed(c: Word, b: bool): Word {
    Shift(if b then Xor(c, {15}) else c)
  }

  function Run(c: Word, bits: seq<bool>): Word
    decreases |bits|
  {
    if bits == [] then c else Run(Feed(c, bits[0]), bits[1..])
  }

  lemma ShiftBelow(c: Word)
    requires Below(c, 16)
    ensures Below(Shift(c), 16)
  {
  }

  lemma ShiftLinear(a: Word, b: Word)
    ensures Shift(Xor(a, b)) == Xor(Shift(a), Shift(b))
  {
    hide Shl;
  }

  lemma ShiftInjective(c: Word)
    requires Below(c, 16) && Shift(c) == {}
    ensures c == {}
  {
    hide Shl;
    var s := Shl(c, 1) - {16};
    assert 0 !in s && 0 in Xor(s, POLY);
    assert forall x | x in c && x < 15 :: x + 1 in s;
  }

  /** No register but zero is shifted to zero. */
  lemma {:induction false} ShiftsInjective(c: Word, n: nat)
    requires Below(c, 16) && Shifts(c, n) == {}
    ensures c == {}
    decreases n
  {
    if n > 0 {
      ShiftBelow(c);
      ShiftsInjective(Shift(c), n - 1);
      ShiftInjective(c);
    }
  }

  lemma ShiftPlain(b: Word, k: nat)
    requires Below(Shl(b, k), 15)
    ensures Shift(Shl(b, k)) == Shl(b, k + 1)
  {
    hide Shl;
  }

  lemma WordSplit(bits: seq<bool>)
    requires bits != []
    ensures WordOf(bits) == Xor(if bits[0] then {|bits| - 1} else {}, WordOf(bits[1..]))
    ensures Below(WordOf(bits[1..]), |bits| - 1)
  {
    forall x: nat ensures x in WordOf(bits) <==> x in Xor(if bits[0] then {|bits| - 1} else {}, WordOf(bits[1..])) {
      if x < |bits| - 1 {
        assert Digit(bits, x) == Digit(bits[1..], x);
      }
    }
  }

  /** Feeding up to 16 bits is adding them to the top of the register and shifting. */
  lemma {:induction false} RunShifts(c: Word, bits: seq<bool>)
    requires |bits| <= 16
    ensures Run(c, bits) == Shifts(Xor(c, Shl(WordOf(bits), 16 - |bits|)), |bits|)
    decreases |bits|
  {
    hide Shift, Feed, Shl, WordOf, Xor;
    if bits == [] {
      NothingFed(c);
    } else {
      RunShifts(Feed(c, bits[0]), bits[1..]);
      RunShiftsStep(c, bits);
    }
  }

  lemma NothingFed(c: Word)
    ensures Xor(c, Shl(WordOf([]), 16)) == c
  {
  }

  lemma RunShiftsStep(c: Word, bits: seq<bool>)
    requires 1 <= |bits| <= 16
    ensures Shift(Xor(c, Shl(WordOf(bits), 16 - |bits|))) == Xor(Feed(c, bits[0]), Shl(WordOf(bits[1..]), 17 - |bits|))
  {
    var k, low := 16 - |bits|, WordOf(bits[1..]);
    var top: Word := if bits[0] then {15} else {};
    WordSplit(bits);
    hide Shift, WordOf;
    assert Shl(WordOf(bits), k) == Xor(top, Shl(low, k)) by { hide Shl; }
    assert Xor(c, Xor(top, Shl(low, k))) == Xor(Xor(c, top), Shl(low, k));
    ShiftLinear(Xor(c, top), Shl(low, k));
    ShiftPlain(low, k);
    assert !bits[0] ==> Xor(c, top) == c;
  }

  lemma {:induction false} RunBelow(c: Word, bits: seq<bool>)
    requires Below(c, 16)
    ensures Below(Run(c, bits), 16)
    decreases |bits|
  {
    if bits != [] {
      assert Below(Xor(c, {15}), 16);
      ShiftBelow(if bits[0] then Xor(c, {15}) else c);
      RunBelow(Feed(c, bits[0]), bits[1..]);
    }
  }

  lemma {:induction false} RunAppend(c: Word, a: seq<bool>, b: seq<bool>)
    ensures Run(c, a + b) == Run(Run(c, a), b)
    decreases |a|
  {
    if a == [] {
      assert a + b == b;
    } else {
      assert (a + b)[1..] == a[1..] + b;
      RunAppend(Feed(c, a[0]), a[1..], b);
    }
  }

  /** Sixteen bits after a message bring the register to zero exactly when they are the message's CRC, high bit
      first. */
  lemma AppendedCrc(c: Word, message: seq<bool>, check: seq<bool>)
    requires Below(c, 16) && |check| == 16
    ensures Run(c, message + check) == {} <==> WordOf(check) == Run(c, message)
  {
    var r, w := Run(c, message), WordOf(check);
    RunBelow(c, message);
    RunAppend(c, message, check);
    RunShifts(r, check);
    assert Shl(w, 0) == w;
    BitsWord(check);
    hide Run, WordOf, Shifts;
    if Xor(r, w) == {} {
      SameWord(r, w);
      ShiftsZero(16);
    } else if Shifts(Xor(r, w), 16) == {} {
      ShiftsInjective(Xor(r, w), 16);
    }
  }

  lemma SameWord(a: Word, b: Word)
    ensures Xor(a, b) == {} <==> a == b
  {
    if Xor(a, b) == {} {
      assert forall x :: (x in a) == (x in b) by {
        assert forall x :: x !in Xor(a, b);
      }
    }
  }

  lemma {:induction false} ShiftsZero(n: nat)
    ensures Shifts({}, n) == {}
  {
    if n > 0 {
      assert Shift({}) == {};
      ShiftsZero(n - 1);
    }
  }

  // ---- Which check it is ----

  /** The register r is what is left of the start register c, moved up by the message, and of the message, moved up by
      sixteen, after division by x^16 + x^12 + x^5 + 1. */
  ghost predicate Remains(c: Word, message: seq<bool>, r: Word) {
    Below(r, 16) && exists q: Word ::
      Times({0, 5, 12, 16}, q, |message|) == Xor(Xor(Shl(c, |message|), Shl(WordOf(message), 16)), r)
  }

  /** One shift subtracts the generator when the top bit is set. */
  lemma ShiftSubtracts(c: Word)
    requires Below(c, 16)
    ensures Shift(c) == if 15 in c then Xor(Shl(c, 1), {0, 5, 12, 16}) else Shl(c, 1)
  {
    hide Shl;
    assert 16 in Shl(c, 1) <==> 15 in c;
  }

  /** What a message bit contributes: it is added above the register and above the rest of the message. */
  lemma BitOnTop(c: Word, message: seq<bool>)
    requires message != []
    ensures var n, d := |message|, if message[0] then Xor(c, {15}) else c;
            Xor(Shl(c, n), Shl(WordOf(message), 16)) == Xor(Shl(d, n), Shl(WordOf(message[1..]), 16))
  {
    WordSplit(message);
    hide WordOf, Shl;
  }

  lemma ShlPlus(w: Word, n: nat)
    ensures Shl(Shl(w, 1), n) == Shl(w, n + 1)
  {
    hide Shl;
  }

  lemma ShlXor(a: Word, b: Word, n: nat)
    ensures Shl(Xor(a, b), n) == Xor(Shl(a, n), Shl(b, n))
  {
    hide Shl;
  }

  /** Run divides: the quotient has one bit for every message bit. */
  lemma {:induction false} RunDivides(c: Word, message: seq<bool>) returns (q: Word)
    requires Below(c, 16)
    ensures Below(q, |message|)
    ensures Times({0, 5, 12, 16}, q, |message|) ==
            Xor(Xor(Shl(c, |message|), Shl(WordOf(message), 16)), Run(c, message))
    decreases |message|
  {
    hide Shift, Shl, WordOf, Times, Xor;
    if message == [] {
      q := {};
      NothingDivided(c);
    } else {
      var n, d := |message| - 1, if message[0] then Xor(c, {15}) else c;
      var r, low := Run(c, message), Shl(WordOf(message[1..]), 16);
      TopAdded(c);
      ShiftBelow(d);
      var q' := RunDivides(Feed(c, message[0]), message[1..]);
      ShiftSubtracts(d);
      BitOnTop(c, message);
      ShlPlus(d, n);
      if 15 in d {
        q := q' + {n};
        ShlXor(Shl(d, 1), {0, 5, 12, 16}, n);
        OneMore({0, 5, 12, 16}, q', n);
        XorBack(Shl(d, n + 1), Shl({0, 5, 12, 16}, n), low, r);
      } else {
        q := q';
        NoMore({0, 5, 12, 16}, q, n);
      }
    }
  }

  lemma TopAdded(c: Word)
    requires Below(c, 16)
    ensures Below(Xor(c, {15}), 16)
  {
  }

  lemma NothingDivided(c: Word)
    ensures Times({0, 5, 12, 16}, {}, 0) == Xor(Xor(Shl(c, 0), Shl(WordOf([]), 16)), c)
  {
    assert Shl(c, 0) == c;
  }

  lemma OneMore(p: Word, q: Word, n: nat)
    ensures Times(p, q + {n}, n + 1) == Xor(Times(p, q, n), Shl(p, n))
  {
    TimesSame(p, q + {n}, q, n);
  }

  lemma NoMore(p: Word, q: Word, n: nat)
    requires Below(q, n)
    ensures Times(p, q, n + 1) == Times(p, q, n)
  {
  }

  lemma XorBack(a: Word, g: Word, b: Word, c: Word)
    ensures Xor(Xor(Xor(Xor(a, g), b), c), g) == Xor(Xor(a, b), c)
  {
  }

  /** The register after a message is the remainder by the generator, for every start and every message. */
  lemma RunRemains(c: Word, message: seq<bool>)
    requires Below(c, 16)
    ensures Remains(c, message, Run(c, message))
  {
    hide Run, Times, Shl, WordOf;
    RunBelow(c, message);
    var q := RunDivides(c, message);
  }

  /** And there is only one such register. */
  lemma RemainsUnique(c: Word, message: seq<bool>, r: Word, s: Word)
    requires Remains(c, message, r) && Remains(c, message, s)
    ensures r == s
  {
    hide WordOf, Shl, Times, RemFrom, Xor;
    var n, g := |message|, {0, 5, 12, 16};
    var x := Xor(Shl(c, n), Shl(WordOf(message), 16));
    var q: Word :| Times(g, q, n) == Xor(x, r);
    var p: Word :| Times(g, p, n) == Xor(x, s);
    assert HasTop(g, 16);
    RemMultiple(g, 16, q, n, n + 16);
    RemMultiple(g, 16, p, n, n + 16);
    RemLinear(g, 16, Times(g, q, n), Times(g, p, n), n + 16);
    Difference(x, r, s);
    RemSmall(g, 16, Xor(r, s), n + 16);
    SameWord({}, {});
    SameWord(r, s);
  }

  lemma Difference(x: Word, r: Word, s: Word)
    ensures Xor(Xor(x, r), Xor(x, s)) == Xor(r, s) && (Below(r, 16) && Below(s, 16) ==> Below(Xor(r, s), 16))
  {
  }

  // ---- Errors ----

  lemma FeedLinear(c: Word, d: Word, a: bool, b: bool)
    ensures Feed(Xor(c, d), a != b) == Xor(Feed(c, a), Feed(d, b))
  {
    hide Shift;
    var u, v := if a then Xor(c, {15}) else c, if b then Xor(d, {15}) else d;
    assert (if a != b then Xor(Xor(c, d), {15}) else Xor(c, d)) == Xor(u, v);
    ShiftLinear(u, v);
  }

  lemma {:induction false} RunLinear(c: Word, d: Word, message: seq<bool>, errors: seq<bool>)
    requires |message| == |errors|
    ensures Run(Xor(c, d), Received(message, errors)) == Xor(Run(c, message), Run(d, errors))
    decreases |message|
  {
    hide Feed;
    if message == [] {
    } else {
      FeedLinear(c, d, message[0], errors[0]);
      assert Received(message, errors)[1..] == Received(message[1..], errors[1..]);
      RunLinear(Feed(c, message[0]), Feed(d, errors[0]), message[1..], errors[1..]);
    }
  }

  /** The errors lie within 16 consecutive bits, and there is at least one. */
  predicate Burst(errors: seq<bool>, from: nat, to: nat) {
    && from < to <= |errors| && to - from <= 16
    && (forall i :: 0 <= i < |errors| && (i < from || i >= to) ==> !errors[i])
    && (exists i :: from <= i < to && errors[i])
  }

  lemma {:induction false} RunSilent(c: Word, bits: seq<bool>)
    requires forall i :: 0 <= i < |bits| ==> !bits[i]
    ensures Run(c, bits) == Shifts(c, |bits|)
    decreases |bits|
  {
    if bits != [] {
      RunSilent(Shift(c), bits[1..]);
    }
  }

  /** A burst is not lost when its bits are shifted to the top of a word. */
  lemma BurstWord(burst: seq<bool>)
    requires |burst| <= 16 && exists i :: 0 <= i < |burst| && burst[i]
    ensures Shl(WordOf(burst), 16 - |burst|) != {} && Below(Shl(WordOf(burst), 16 - |burst|), 16)
  {
    var n, w := |burst|, WordOf(burst);
    BitsWord(burst);
    var i :| 0 <= i < n && burst[i];
    assert Digit(burst, n - 1 - i);
    assert n - 1 - i in w && n - 1 - i + (16 - n) in Shl(w, 16 - n);
  }

  lemma BurstRuns(burst: seq<bool>)
    requires |burst| <= 16 && exists i :: 0 <= i < |burst| && burst[i]
    ensures Run({}, burst) != {} && Below(Run({}, burst), 16)
  {
    hide Shl, WordOf, Run, Shift;
    RunBelow({}, burst);
    RunShifts({}, burst);
    BurstWord(burst);
    var n, s := |burst|, Shl(WordOf(burst), 16 - |burst|);
    assert Xor({}, s) == s;
    if Shifts(s, n) == {} {
      ShiftsInjective(s, n);
    }
  }

  /** A silent start, a burst, and a silent end. */
  lemma BurstParts(errors: seq<bool>, from: nat, to: nat)
    requires Burst(errors, from, to)
    ensures from <= to <= |errors|
    ensures var a, b, d := errors[..from], errors[from..to], errors[to..];
            && errors == (a + b) + d && |b| <= 16 && (exists i :: 0 <= i < |b| && b[i])
            && (forall i :: 0 <= i < |a| ==> !a[i]) && (forall i :: 0 <= i < |d| ==> !d[i])
  {
    hide Run, Shift, Shifts;
    var i :| from <= i < to && errors[i];
    assert errors[from..to][i - from];
  }

  /** The register, started at zero, is not zero after a burst. */
  lemma BurstStays(errors: seq<bool>, from: nat, to: nat)
    requires Burst(errors, from, to)
    ensures Run({}, errors) != {}
  {
    hide Run, Shift, Shifts, Burst;
    BurstParts(errors, from, to);
    var a, b, d := errors[..from], errors[from..to], errors[to..];
    RunAppend({}, a + b, d);
    RunAppend({}, a, b);
    RunSilent({}, a);
    ShiftsZero(|a|);
    BurstRuns(b);
    RunSilent(Run({}, b), d);
    if Shifts(Run({}, b), |d|) == {} {
      ShiftsInjective(Run({}, b), |d|);
    }
  }

  /** Every error burst of at most 16 bits changes the CRC. */
  lemma BurstDetected(c: Word, message: seq<bool>, errors: seq<bool>, from: nat, to: nat)
    requires |message| == |errors| && Burst(errors, from, to)
    ensures Run(c, Received(message, errors)) != Run(c, message)
  {
    hide Run, Shift, Burst, Received;
    BurstStays(errors, from, to);
    RunLinear(c, {}, message, errors);
    assert Xor(c, {}) == c;
    if Run(c, Received(message, errors)) == Run(c, message) {
      SameAgain(Run(c, message), Run({}, errors));
    }
  }

  lemma SameAgain(a: Word, b: Word)
    requires Xor(a, b) == a
    ensures b == {}
  {
    assert forall x | x in b :: (x in Xor(a, b)) != (x in a);
  }

  // ---- Bytes ----

  predicate Bytes(data: seq<Word>) {
    forall i :: 0 <= i < |data| ==> Below(data[i], 8)
  }

  /** The bits of a byte string, each byte high bit first. */
  function HighFirst(data: seq<Word>): seq<bool> {
    if data == [] then [] else HighFirst(data[..|data| - 1]) + BitsOf(data[|data| - 1], 8)
  }

  lemma ByteRuns(c: Word, byte: Word)
    requires Below(byte, 8)
    ensures Shifts(Xor(c, Shl(byte, 8)), 8) == Run(c, BitsOf(byte, 8))
  {
    WordBits(byte, 8);
    RunShifts(c, BitsOf(byte, 8));
  }

  /** crc_ccitt. */
  method CrcCcitt(data: seq<Word>) returns (crc: Word)
    requires Bytes(data)
    ensures crc == Run(ONES, HighFirst(data))
    ensures Remains({0, 1, 2, 3, 4, 5, 6, 7, 8, 9, 10, 11, 12, 13, 14, 15}, HighFirst(data), crc)
  {
    hide Shift, Run, Shl, BitsOf, Remains;
    crc := ONES;
    assert Run(ONES, []) == ONES by { RunNothing(ONES); }
    for i := 0 to |data|
      invariant crc == Run(ONES, HighFirst(data[..i]))
    {
      ghost var before := crc;
      crc := Xor(crc, Shl(data[i], 8));
      ghost var start := crc;
      for j := 0 to 8
        invariant Shifts(crc, 8 - j) == Shifts(start, 8)
      {
        crc := Shift(crc);
      }
      ByteRuns(before, data[i]);
      RunAppend(ONES, HighFirst(data[..i]), BitsOf(data[i], 8));
      assert data[..i + 1][..i] == data[..i];
    }
    assert data[..|data|] == data;
    RunRemains(ONES, HighFirst(data));
  }

  lemma RunNothing(c: Word)
    ensures Run(c, []) == c
  {
  }
}
