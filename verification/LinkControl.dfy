/** The link control word (decode_lcw in ida_decode.c): 46 bits that are permuted and then split into three short
    code words. */
module LinkControl {

  import opened Bch
  import opened BitWords
  import opened Gf2
  import opened SyndromeTable
  import opened Wrappers

  // ---- The permutation ----

  const ROW0: seq<nat> := [40, 39, 36, 35, 32, 31, 28, 27, 24, 23]
  const ROW1: seq<nat> := [20, 19, 16, 15, 12, 11, 8, 7, 4, 3]
  const ROW2: seq<nat> := [41, 38, 37, 34, 33, 30, 29, 26, 25, 22]
  const ROW3: seq<nat> := [21, 18, 17, 14, 13, 10, 9, 6, 5, 2]
  const ROW4: seq<nat> := [1, 46, 45, 44, 43, 42]

  /** Entry i of the permutation table. */
  function Table(i: nat): nat
    requires i < 46
  {
    if i < 10 then ROW0[i] else if i < 20 then ROW1[i - 10] else if i < 30 then ROW2[i - 20]
    else if i < 40 then ROW3[i - 30] else ROW4[i - 40]
  }

  /** The table in closed form. */
  function Perm(i: nat): int {
    if i < 20 then 40 - 4 * (i / 2) - i % 2
    else if i == 20 then 41
    else if i < 40 then 38 - 4 * ((i - 21) / 2) - (i - 21) % 2
    else if i == 40 then 1
    else 46 - (i - 41)
  }

  /** Where the table has the number p. */
  function PermBack(p: int): int {
    if p >= 42 then 87 - p
    else if p == 41 then 20
    else if p == 1 then 40
    else if p % 4 == 0 then 2 * ((40 - p) / 4)
    else if p % 4 == 3 then 2 * ((39 - p) / 4) + 1
    else if p % 4 == 2 then 21 + 2 * ((38 - p) / 4)
    else 22 + 2 * ((37 - p) / 4)
  }

  lemma Row0(i: nat)
    requires i < 10
    ensures ROW0[i] == Perm(0 + i)
  {
    assert ROW0[0] == Perm(0) && ROW0[1] == Perm(1) && ROW0[2] == Perm(2) && ROW0[3] == Perm(3) && ROW0[4] == Perm(4);
    assert ROW0[5] == Perm(5) && ROW0[6] == Perm(6) && ROW0[7] == Perm(7) && ROW0[8] == Perm(8) && ROW0[9] == Perm(9);
  }

  lemma Row1(i: nat)
    requires i < 10
    ensures ROW1[i] == Perm(10 + i)
  {
    assert ROW1[0] == Perm(10) && ROW1[1] == Perm(11) && ROW1[2] == Perm(12) && ROW1[3] == Perm(13) &&
      ROW1[4] == Perm(14);
    assert ROW1[5] == Perm(15) && ROW1[6] == Perm(16) && ROW1[7] == Perm(17) && ROW1[8] == Perm(18) &&
      ROW1[9] == Perm(19);
  }

  lemma Row2(i: nat)
    requires i < 10
    ensures ROW2[i] == Perm(20 + i)
  {
    assert ROW2[0] == Perm(20) && ROW2[1] == Perm(21) && ROW2[2] == Perm(22) && ROW2[3] == Perm(23) &&
      ROW2[4] == Perm(24);
    assert ROW2[5] == Perm(25) && ROW2[6] == Perm(26) && ROW2[7] == Perm(27) && ROW2[8] == Perm(28) &&
      ROW2[9] == Perm(29);
  }

  lemma Row3(i: nat)
    requires i < 10
    ensures ROW3[i] == Perm(30 + i)
  {
    assert ROW3[0] == Perm(30) && ROW3[1] == Perm(31) && ROW3[2] == Perm(32) && ROW3[3] == Perm(33) &&
      ROW3[4] == Perm(34);
    assert ROW3[5] == Perm(35) && ROW3[6] == Perm(36) && ROW3[7] == Perm(37) && ROW3[8] == Perm(38) &&
      ROW3[9] == Perm(39);
  }

  lemma Row4(i: nat)
    requires i < 6
    ensures ROW4[i] == Perm(40 + i)
  {
    assert ROW4[0] == Perm(40) && ROW4[1] == Perm(41) && ROW4[2] == Perm(42);
    assert ROW4[3] == Perm(43) && ROW4[4] == Perm(44) && ROW4[5] == Perm(45);
  }

  lemma PermTable(i: nat)
    requires i < 46
    ensures Table(i) == Perm(i)
  {
    if i < 10 { Row0(i); } else if i < 20 { Row1(i - 10); } else if i < 30 { Row2(i - 20); }
    else if i < 40 { Row3(i - 30); } else { Row4(i - 40); }
  }

  lemma PermLow(i: nat)
    requires i < 20
    ensures 1 <= Perm(i) <= 46 && PermBack(Perm(i)) == i
  {
    var q, r := i / 2, i % 2;
    assert Perm(i) == 4 * (10 - q) - r;
    if r == 0 { assert Perm(i) % 4 == 0; } else { assert Perm(i) % 4 == 3; }
  }

  lemma PermHigh(i: nat)
    requires 21 <= i < 40
    ensures 1 <= Perm(i) <= 46 && PermBack(Perm(i)) == i
  {
    var q, r := (i - 21) / 2, (i - 21) % 2;
    assert Perm(i) == 4 * (9 - q) + 2 - r;
    if r == 0 { assert Perm(i) % 4 == 2; } else { assert Perm(i) % 4 == 1; }
  }

  /** The table is a permutation of 1 to 46, and this is its inverse. */
  lemma PermForth(i: nat)
    requires i < 46
    ensures 1 <= Perm(i) <= 46 && PermBack(Perm(i)) == i
  {
    if i < 20 { PermLow(i); } else if 21 <= i < 40 { PermHigh(i); }
  }

  lemma PermAgain(p: nat)
    requires 1 <= p <= 46
    ensures 0 <= PermBack(p) < 46 && Perm(PermBack(p)) == p
  {
    if 2 <= p <= 40 {
      var q := p / 4;
      if p % 4 == 0 {
        assert PermBack(p) == 2 * (10 - q);
      } else if p % 4 == 3 {
        assert p == 4 * q + 3 && (39 - p) / 4 == 9 - q;
      } else if p % 4 == 2 {
        assert p == 4 * q + 2 && (38 - p) / 4 == 9 - q;
      } else {
        assert p == 4 * q + 1 && (37 - p) / 4 == 9 - q;
      }
    }
  }

  /** The input bit that becomes bit i of the link control word, after the swap within symbols. */
  function Source(i: nat): int {
    var j := Perm(i) - 1;
    if j % 2 == 0 then j + 1 else j - 1
  }

  lemma SourceRange(i: nat)
    requires i < 46
    ensures 0 <= Source(i) < 46
  {
    PermForth(i);
  }

  function LcwBits(data: seq<bool>): (r: seq<bool>)
    requires |data| >= 46
    ensures |r| == 46
  {
    seq(46, i requires 0 <= i < 46 => SourceRange(i); data[Source(i)])
  }

  /** Neighbouring bits are swapped, and then the table says, counting from one, where each bit comes from. */
  lemma LcwPlaces(data: seq<bool>, i: nat)
    requires |data| >= 46 && i < 46
    ensures 1 <= Table(i) <= 46
    ensures LcwBits(data)[i] == data[if Table(i) % 2 == 1 then Table(i) else Table(i) - 2]
  {
    hide Perm, Table, PermBack;
    PermTable(i);
    PermForth(i);
    SourceRange(i);
  }

  /** Every one of the first 46 input bits is used exactly once. */
  lemma EveryBitOnce(j: nat)
    requires j < 46
    ensures exists i :: 0 <= i < 46 && Source(i) == j
    ensures forall i, i' :: 0 <= i < 46 && 0 <= i' < 46 && Source(i) == j && Source(i') == j ==> i == i'
  {
    hide Perm, PermBack;
    var s := if j % 2 == 0 then j + 1 else j - 1;
    PermAgain(s + 1);
    assert Source(PermBack(s + 1)) == j;
    forall i, i' | 0 <= i < 46 && 0 <= i' < 46 && Source(i) == j && Source(i') == j ensures i == i' {
      PermForth(i);
      PermForth(i');
    }
  }

  /** Where the sender puts bit number Place(j) of the link control word: at j. */
  function Place(j: nat): int {
    PermBack(if j % 2 == 0 then j + 2 else j)
  }

  lemma PlaceSource(i: nat)
    requires i < 46
    ensures 0 <= Source(i) < 46 && Place(Source(i)) == i
  {
    hide Perm, PermBack;
    PermForth(i);
  }

  lemma PlaceRange(j: nat)
    requires j < 46
    ensures 0 <= Place(j) < 46
  {
    hide Perm, PermBack;
    PermAgain(if j % 2 == 0 then j + 2 else j);
  }

  /** The sender's permutation of the 46 bits. */
  function Spread(bits: seq<bool>): (r: seq<bool>)
    requires |bits| == 46
    ensures |r| == 46
  {
    seq(46, j requires 0 <= j < 46 => PlaceRange(j); bits[Place(j)])
  }

  /** The receiver undoes it, and finds the channel's errors at the same places. */
  lemma Gathered(bits: seq<bool>, errors: seq<bool>, rest: seq<bool>)
    requires |bits| == 46 && |errors| == 46
    ensures LcwBits(Received(Spread(bits), errors) + rest) == Received(bits, LcwBits(errors))
  {
    hide Place, Source;
    forall i | 0 <= i < 46
      ensures LcwBits(Received(Spread(bits), errors) + rest)[i] == Received(bits, LcwBits(errors))[i]
    {
      PlaceSource(i);
    }
  }

  /** The place whose neighbour is there after swapping. */
  function Swapped(j: nat): nat {
    if j % 2 == 0 then j + 1 else j - 1
  }

  lemma ReadBit(data: seq<bool>, k: nat)
    requires |data| >= 46 && k < 46
    ensures 1 <= Table(k) <= 46 && Swapped(Table(k) - 1) < 46 && LcwBits(data)[k] == data[Swapped(Table(k) - 1)]
  {
    hide Perm, Table, PermBack;
    PermTable(k);
    PermForth(k);
    SourceRange(k);
  }

  /** The swap and the table look-up of decode_lcw. */
  method ReadBits(data: seq<bool>) returns (bits: seq<bool>)
    requires |data| >= 46
    ensures bits == LcwBits(data)
  {
    hide Table, LcwBits;
    var swapped := new bool[46];
    var i := 0;
    while i < 46
      invariant 0 <= i <= 46 && i % 2 == 0
      invariant forall j :: 0 <= j < i ==> Swapped(j) < 46 && swapped[j] == data[Swapped(j)]
    {
      swapped[i] := data[i + 1];
      swapped[i + 1] := data[i];
      i := i + 2;
    }
    bits := [];
    for k := 0 to 46
      invariant forall j :: 0 <= j < 46 ==> Swapped(j) < 46 && swapped[j] == data[Swapped(j)]
      invariant |bits| == k && forall j :: 0 <= j < k ==> bits[j] == LcwBits(data)[j]
    {
      ReadBit(data, k);
      bits := bits + [swapped[Table(k) - 1]];
    }
  }

  // ---- The three components ----

  /** The fields of a link control word, as words. */
  datatype Lcw = Lcw(ft: Word, lcwFt: Word, code: Word, lcw3: Word, corrections: nat)

  function First(bits: seq<bool>): Word
    requires |bits| == 46
  {
    WordOf(bits[..7])
  }

  /** The second component, with its missing last bit taken as 0. */
  function Second(bits: seq<bool>): Word
    requires |bits| == 46
  {
    Shl(WordOf(bits[7..20]), 1)
  }

  function Third(bits: seq<bool>): Word
    requires |bits| == 46
  {
    WordOf(bits[20..])
  }

  /** The fields carried by three code words. */
  function Fields(c1: Word, c2: Word, c3: Word, corrections: nat): Lcw {
    var d := Shr(c2, 8) * {0, 1, 2, 3, 4, 5};
    Lcw(Shr(c1, 4) * {0, 1, 2}, Shr(d, 4) * {0, 1}, d * {0, 1, 2, 3}, Shr(c3, 5), corrections)
  }

  /** Where the bits of the three components and of the fields are: high bit first, with the last bit of the second
      component missing. */
  lemma LcwFields(bits: seq<bool>, c1: Word, c2: Word, c3: Word, n: nat, x: nat)
    requires |bits| == 46
    ensures x in First(bits) <==> x < 7 && bits[6 - x]
    ensures x in Second(bits) <==> 1 <= x < 14 && bits[20 - x]
    ensures x in Third(bits) <==> x < 26 && bits[45 - x]
    ensures var f := Fields(c1, c2, c3, n);
            && (x in f.ft <==> x < 3 && x + 4 in c1) && (x in f.lcwFt <==> x < 2 && x + 12 in c2)
            && (x in f.code <==> x < 4 && x + 8 in c2) && (x in f.lcw3 <==> x + 5 in c3) && f.corrections == n
  {
    ShrIn(c1, 4, x);
    ShrIn(c2, 8, x);
    ShrIn(c2, 8, x + 4);
    ShrIn(c3, 5, x);
    ShrIn(Shr(c2, 8) * {0, 1, 2, 3, 4, 5}, 4, x);
  }

  function One(b: bool): nat {
    if b then 1 else 0
  }

  /** What three received components decode to: nothing as soon as one is not corrected. */
  function Decode(m1: Slots, m2: Slots, m3: Slots, v1: Word, v2: Word, v3: Word): Option<Lcw> {
    var s1, s2, s3 := Remainder(LCW1, v1), Remainder(LCW2, v2), Remainder(LCW3, v3);
    var l1, l2, l3 := Lookup(m1, 4, s1), Lookup(m2, 8, s2), Lookup(m3, 5, s3);
    if l1.None? || l2.None? || l3.None? then None
    else Some(Fields(Xor(v1, l1.value.locator), Xor(v2, l2.value.locator), Xor(v3, l3.value.locator),
                     One(s1 != {}) + One(s2 != {}) + One(s3 != {})))
  }

  method Correct(m: Slots, k: nat, p: Word, v: Word) returns (ok: bool, c: Word, fixed: nat)
    ensures ok <==> Lookup(m, k, Remainder(p, v)).Some?
    ensures ok ==> c == Xor(v, Lookup(m, k, Remainder(p, v)).value.locator) && fixed == One(Remainder(p, v) != {})
  {
    var s := Gf2Remainder(p, v);
    ok, c, fixed := true, v, 0;
    assert Xor(v, {}) == v;
    if s != {} {
      if !Below(s, k) || s !in m {
        return false, v, 0;
      }
      c, fixed := Xor(v, m[s].locator), 1;
    }
  }

  /** decode_lcw. */
  method DecodeLcw(m1: Slots, m2: Slots, m3: Slots, data: seq<bool>) returns (r: Option<Lcw>)
    ensures |data| < 46 ==> r == None
    ensures |data| >= 46 ==> var b := LcwBits(data); r == Decode(m1, m2, m3, First(b), Second(b), Third(b))
  {
    hide Remainder, Lookup, LcwBits;
    if |data| < 46 {
      return None;
    }
    var bits := ReadBits(data);
    var v1 := BitsToUint(bits[..7]);
    var ok, c1, f1 := Correct(m1, 4, LCW1, v1);
    if !ok {
      return None;
    }
    var v2 := BitsToUint(bits[7..20]);
    v2 := Shl(v2, 1);
    var c2, f2;
    ok, c2, f2 := Correct(m2, 8, LCW2, v2);
    if !ok {
      return None;
    }
    var v3 := BitsToUint(bits[20..]);
    var c3, f3;
    ok, c3, f3 := Correct(m3, 5, LCW3, v3);
    if !ok {
      return None;
    }
    r := Some(Fields(c1, c2, c3, f1 + f2 + f3));
  }

  // ---- What the word tolerates ----

  /** The bits sent for three code words: the last bit of the second is not sent. */
  function Sent(c1: Word, c2: Word, c3: Word): (r: seq<bool>)
    ensures |r| == 46
  {
    BitsOf(c1, 7) + BitsOf(Shr(c2, 1), 13) + BitsOf(c3, 26)
  }

  /** The code words that carry given fields. */
  function Code1(ft: Word): Word {
    Systematic(LCW1, 4, ft)
  }

  function Code2(lcwFt: Word, code: Word): Word {
    Systematic(LCW2, 8, code + Shl(lcwFt, 4))
  }

  function Code3(lcw3: Word): Word {
    Systematic(LCW3, 5, lcw3)
  }

  predicate FieldsOk(ft: Word, lcwFt: Word, code: Word, lcw3: Word) {
    Below(ft, 3) && Below(lcwFt, 2) && Below(code, 4) && Below(lcw3, 21)
  }

  /** They are code words, and these are their fields. */
  lemma FieldsBack(ft: Word, lcwFt: Word, code: Word, lcw3: Word, corrections: nat)
    requires FieldsOk(ft, lcwFt, code, lcw3)
    ensures IsCodeword(LCW1, 7, Code1(ft)) && IsCodeword(LCW2, 14, Code2(lcwFt, code))
    ensures IsCodeword(LCW3, 26, Code3(lcw3))
    ensures Fields(Code1(ft), Code2(lcwFt, code), Code3(lcw3), corrections) == Lcw(ft, lcwFt, code, lcw3, corrections)
  {
    hide Systematic, Shr, IsCodeword, HasTop, Top;
    TopLcw1();
    TopLcw2();
    TopLcw3();
    SystematicCode(LCW1, 4, 7, ft);
    SystematicCode(LCW2, 8, 14, code + Shl(lcwFt, 4));
    SystematicCode(LCW3, 5, 26, lcw3);
    var d := code + Shl(lcwFt, 4);
    forall x: nat ensures x in Shr(d, 4) <==> x in lcwFt {
      ShrIn(d, 4, x);
    }
    assert ft * {0, 1, 2} == ft && d * {0, 1, 2, 3, 4, 5} == d && lcwFt * {0, 1} == lcwFt && d * {0, 1, 2, 3} == code;
  }

  /** The errors the receiver sees in the second component: those of the channel, and bit 0 if it was a one. */
  function SecondErrors(c2: Word, errors: seq<bool>): Word
    requires |errors| == 46
  {
    Shl(WordOf(errors[7..20]), 1) + (c2 * {0})
  }

  lemma Split(sent: seq<bool>, errors: seq<bool>, a: nat, b: nat)
    requires |sent| == |errors| && a <= b <= |sent|
    ensures WordOf(Received(sent, errors)[a..b]) == Xor(WordOf(sent[a..b]), WordOf(errors[a..b]))
  {
    assert Received(sent, errors)[a..b] == Received(sent[a..b], errors[a..b]);
    WordReceived(sent[a..b], errors[a..b]);
  }

  lemma SentParts(c1: Word, c2: Word, c3: Word)
    ensures var sent := Sent(c1, c2, c3);
            |sent| == 46 && sent[..7] == BitsOf(c1, 7) && sent[7..20] == BitsOf(Shr(c2, 1), 13) &&
            sent[20..] == BitsOf(c3, 26)
  {
    hide BitsOf, Shr;
  }

  lemma Components(c1: Word, c2: Word, c3: Word, errors: seq<bool>)
    requires |errors| == 46 && Below(c1, 7) && Below(c2, 14) && Below(c3, 26)
    ensures var b := Received(Sent(c1, c2, c3), errors);
            First(b) == Xor(c1, WordOf(errors[..7])) && Second(b) == Xor(c2, SecondErrors(c2, errors)) &&
            Third(b) == Xor(c3, WordOf(errors[20..]))
  {
    hide WordOf, BitsOf, Shr, Sent, Received;
    var sent := Sent(c1, c2, c3);
    SentParts(c1, c2, c3);
    var b := Received(sent, errors);
    assert b[0..7] == b[..7] && b[20..46] == b[20..] && sent[0..7] == sent[..7] && sent[20..46] == sent[20..];
    assert errors[0..7] == errors[..7] && errors[20..46] == errors[20..];
    Split(sent, errors, 0, 7);
    Split(sent, errors, 7, 20);
    Split(sent, errors, 20, 46);
    WordBits(c1, 7);
    WordBits(c3, 26);
    forall x | x in Shr(c2, 1) ensures x < 13 { ShrIn(c2, 1, x); }
    WordBits(Shr(c2, 1), 13);
    SecondWord(c2, WordOf(errors[7..20]));
  }

  lemma SecondWord(c2: Word, e: Word)
    ensures Shl(Xor(Shr(c2, 1), e), 1) == Xor(c2, Shl(e, 1) + (c2 * {0}))
  {
    hide Shr, Shl;
    forall x: nat ensures x in Shl(Xor(Shr(c2, 1), e), 1) <==> x in Xor(c2, Shl(e, 1) + (c2 * {0})) {
      if x > 0 {
        ShrIn(c2, 1, x - 1);
      }
    }
  }

  ghost predicate Tables(m1: Slots, m2: Slots, m3: Slots) {
    Filled(m1, LCW1, 7, 1, 4) && Filled(m2, LCW2, 14, 1, 8) && Filled(m3, LCW3, 26, 2, 5)
  }

  /** One error in a component is corrected, whichever of the three. */
  lemma CorrectsOne(m: Slots, p: Word, d: nat, n: nat, max: int, c: Word, e: Word)
    requires Filled(m, p, n, max, d) && max >= 1 && Distance(p, n, 3) && HasTop(p, d) && Top(p) == d <= 31 && n <= 31
    requires IsCodeword(p, n, c) && Below(e, n) && |e| <= 1
    ensures Lookup(m, d, Remainder(p, Xor(c, e))) == Some(Entry(|e|, e)) && Xor(Xor(c, e), e) == c
    ensures Remainder(p, Xor(c, e)) != {} <==> e != {}
  {
    hide Filled, Remainder, Lookup, HasTop, Top, Distance, Xor;
    SyndromeBelow(p, d, e);
    Corrects(m, p, n, max, d, 1, c, e);
    CleanExactly(p, n, 3, c, e);
    XorBack(c, e);
  }

  /** A link control word with at most one error in each component, counting an unsent one bit of the second as an
      error, gives back the fields that were sent. */
  lemma LcwRoundTrip(m1: Slots, m2: Slots, m3: Slots, c1: Word, c2: Word, c3: Word, errors: seq<bool>, data: seq<bool>)
    requires Tables(m1, m2, m3) && IsCodeword(LCW1, 7, c1) && IsCodeword(LCW2, 14, c2) && IsCodeword(LCW3, 26, c3)
    requires |errors| == 46 && |data| >= 46 && LcwBits(data) == Received(Sent(c1, c2, c3), errors)
    requires |WordOf(errors[..7])| <= 1 && |SecondErrors(c2, errors)| <= 1 && |WordOf(errors[20..])| <= 1
    ensures var b := LcwBits(data);
            Decode(m1, m2, m3, First(b), Second(b), Third(b)) == Some(Fields(c1, c2, c3,
              |WordOf(errors[..7])| + |SecondErrors(c2, errors)| + |WordOf(errors[20..])|))
  {
    hide Filled, Remainder, Lookup, WordOf, SecondErrors, Distance, LcwBits, Fields, First, Second, Third, Xor, HasTop,
         Top;
    var e1, e2, e3 := WordOf(errors[..7]), SecondErrors(c2, errors), WordOf(errors[20..]);
    ErrorsBelow(c2, errors);
    Components(c1, c2, c3, errors);
    DistanceLcw1();
    DistanceLcw2();
    DistanceLcw3();
    Nearer(LCW1, 7, 4, 3);
    Nearer(LCW2, 14, 4, 3);
    TopLcw1();
    TopLcw2();
    TopLcw3();
    CorrectsOne(m1, LCW1, 4, 7, 1, c1, e1);
    CorrectsOne(m2, LCW2, 8, 14, 1, c2, e2);
    CorrectsOne(m3, LCW3, 5, 26, 2, c3, e3);
    SmallCount(e1);
    SmallCount(e2);
    SmallCount(e3);
  }

  lemma SmallCount(e: Word)
    requires |e| <= 1
    ensures |e| == One(e != {})
  {
  }

  lemma ErrorsBelow(c2: Word, errors: seq<bool>)
    requires |errors| == 46
    ensures Below(WordOf(errors[..7]), 7) && Below(SecondErrors(c2, errors), 14) && Below(WordOf(errors[20..]), 26)
  {
    BitsWord(errors[..7]);
    BitsWord(errors[7..20]);
    BitsWord(errors[20..]);
  }

  /** Two errors in the first or the second component, counted the same way, are always noticed. */
  lemma LcwDetects(m1: Slots, m2: Slots, m3: Slots, c1: Word, c2: Word, c3: Word, errors: seq<bool>, data: seq<bool>)
    requires Tables(m1, m2, m3) && IsCodeword(LCW1, 7, c1) && IsCodeword(LCW2, 14, c2) && IsCodeword(LCW3, 26, c3)
    requires |errors| == 46 && |data| >= 46 && LcwBits(data) == Received(Sent(c1, c2, c3), errors)
    requires |WordOf(errors[..7])| == 2 || |SecondErrors(c2, errors)| == 2
    ensures var b := LcwBits(data); Decode(m1, m2, m3, First(b), Second(b), Third(b)) == None
  {
    var e1, e2 := WordOf(errors[..7]), SecondErrors(c2, errors);
    ErrorsBelow(c2, errors);
    Components(c1, c2, c3, errors);
    hide Filled, Remainder, Lookup, WordOf, SecondErrors, Distance, LcwBits, Fields, First, Second, Third, Xor;
    if |e1| == 2 {
      DistanceLcw1();
      Detects(m1, LCW1, 7, 1, 4, 4, c1, e1);
    } else {
      DistanceLcw2();
      Detects(m2, LCW2, 14, 1, 8, 4, c2, e2);
    }
  }

  // ---- The unsent bit ----

  /** With one channel error in the second component, and at most one in each of the others, the word is read
      correctly exactly when the unsent bit is a zero, and otherwise refused. */
  lemma UnsentBitExactly(m1: Slots, m2: Slots, m3: Slots, c1: Word, c2: Word, c3: Word, errors: seq<bool>,
                         data: seq<bool>)
    requires Tables(m1, m2, m3) && IsCodeword(LCW1, 7, c1) && IsCodeword(LCW2, 14, c2) && IsCodeword(LCW3, 26, c3)
    requires |errors| == 46 && |data| >= 46 && LcwBits(data) == Received(Sent(c1, c2, c3), errors)
    requires |WordOf(errors[..7])| <= 1 && |WordOf(errors[7..20])| == 1 && |WordOf(errors[20..])| <= 1
    ensures var b := LcwBits(data);
            var r := Decode(m1, m2, m3, First(b), Second(b), Third(b));
            var n := |WordOf(errors[..7])| + 1 + |WordOf(errors[20..])|;
            (r == Some(Fields(c1, c2, c3, n)) <==> 0 !in c2) && (0 in c2 ==> r == None)
  {
    hide Decode, LcwBits, First, Second, Third, Sent, Received, Fields, Tables, IsCodeword, WordOf;
    OneMore(c2, WordOf(errors[7..20]));
    if 0 in c2 {
      LcwDetects(m1, m2, m3, c1, c2, c3, errors, data);
    } else {
      LcwRoundTrip(m1, m2, m3, c1, c2, c3, errors, data);
    }
  }

  lemma OneMore(c2: Word, e: Word)
    ensures |Shl(e, 1) + (c2 * {0})| == |e| + One(0 in c2)
  {
    ShlSize(e, 1);
    assert c2 * {0} == if 0 in c2 then {0} else {};
    assert 0 !in Shl(e, 1);
  }

  /** Such a word exists: 465 itself, sent between two zero words, with its first bit changed by the channel. */
  lemma UnsentBitRefused(m1: Slots, m2: Slots, m3: Slots)
    requires Tables(m1, m2, m3)
    ensures var errors := Spread(seq(46, i => i == 7));
            var b := LcwBits(Received(Spread(Sent({}, LCW2, {})), errors));
            Decode(m1, m2, m3, First(b), Second(b), Third(b)) == None
  {
    hide Decode, First, Second, Third, Sent, Fields, Tables, Spread, LcwBits;
    var flip := seq(46, i => i == 7);
    var data := Received(Spread(Sent({}, LCW2, {})), Spread(flip));
    Gathered(Sent({}, LCW2, {}), Spread(flip), []);
    assert data + [] == data;
    NoErrors(flip);
    ZeroWords();
    FlipWords(flip);
    UnsentBitExactly(m1, m2, m3, {}, LCW2, {}, flip, data);
  }

  lemma NoErrors(flip: seq<bool>)
    requires |flip| == 46
    ensures LcwBits(Spread(flip)) == flip
  {
    var none := seq(46, i => false);
    Gathered(flip, none, []);
    assert Received(Spread(flip), none) + [] == Spread(flip);
    forall i | 0 <= i < 46 ensures !LcwBits(none)[i] {
      SourceRange(i);
    }
    assert Received(flip, LcwBits(none)) == flip;
  }

  lemma ZeroWords()
    ensures IsCodeword(LCW1, 7, {}) && IsCodeword(LCW2, 14, LCW2) && IsCodeword(LCW3, 26, {})
  {
    TopLcw2();
    RemZero(LCW1, Top(LCW1), 31);
    RemZero(LCW3, Top(LCW3), 31);
    assert Shl(LCW2, 0) == LCW2;
    RemShifted(LCW2, 8, 0, 31);
  }

  lemma FlipWords(flip: seq<bool>)
    requires flip == seq(46, i => i == 7)
    ensures WordOf(flip[..7]) == {} && WordOf(flip[7..20]) == {12} && WordOf(flip[20..]) == {}
  {
    forall x: nat ensures x in WordOf(flip[7..20]) <==> x == 12 {
      assert x < 13 ==> (Digit(flip[7..20], x) <==> flip[19 - x]);
    }
  }
}
