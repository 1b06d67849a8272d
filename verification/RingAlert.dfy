/** The 32-bit blocks of ring alert and broadcast frames (frame_decode.c): a 31-bit code word and a parity bit. */
module RingAlert {

  import opened Bch
  import opened BitWords
  import opened Gf2
  import opened SyndromeTable
  import opened Wrappers

  const SYN := 10
  const DATA := 21

  /** A corrected block: the number of errors, the data bits and the check bits. */
  datatype Block = Block(errs: nat, data: seq<bool>, check: seq<bool>)

  function BlockOf(errs: nat, c: Word): Block {
    Block(errs, BitsOf(Shr(c, SYN), DATA), BitsOf(c, SYN))
  }

  /** What a received word is corrected to. */
  function Corrected(m: Slots, v: Word): Option<Block> {
    var f := Lookup(m, SYN, Remainder(RA, v));
    if f.None? then None else Some(BlockOf(f.value.errs, Xor(v, f.value.locator)))
  }

  /** chase_bch_decode_p. */
  method BchDecode(m: Slots, block: seq<bool>) returns (r: Option<Block>)
    requires |block| == 32
    ensures r == Corrected(m, WordOf(block[..31]))
  {
    hide Remainder;
    var val := BitsToUint(block[..31]);
    var s := Gf2Remainder(RA, val);
    var errs := 0;
    assert Xor(val, {}) == val;
    if s != {} {
      if !Below(s, SYN) || s !in m {
        return None;
      }
      val, errs := Xor(val, m[s].locator), m[s].errs;
    }
    var data := UintToBits(Shr(val, SYN), DATA);
    var check := UintToBits(val, SYN);
    r := Some(Block(errs, data, check));
  }

  /** bch_31_21_correct: the locator and the number of errors for a syndrome. */
  method BchCorrect(m: Slots, syndrome: Word) returns (r: Option<Entry>)
    ensures r == Lookup(m, SYN, syndrome)
  {
    if syndrome == {} {
      return Some(Entry(0, {}));
    }
    if Below(syndrome, SYN) && syndrome in m {
      return Some(m[syndrome]);
    }
    return None;
  }

  function Ones(bits: seq<bool>): nat {
    if bits == [] then 0 else (if bits[0] then 1 else 0) + Ones(bits[1..])
  }

  lemma {:induction false} OnesAppend(a: seq<bool>, b: seq<bool>)
    ensures Ones(a + b) == Ones(a) + Ones(b)
  {
    if a == [] {
      assert a + b == b;
    } else {
      assert (a + b)[1..] == a[1..] + b;
      OnesAppend(a[1..], b);
    }
  }

  method CountOnes(bits: seq<bool>) returns (n: nat)
    ensures n == Ones(bits)
  {
    n := 0;
    for i := 0 to |bits|
      invariant n == Ones(bits[..i])
    {
      assert bits[..i + 1] == bits[..i] + [bits[i]];
      OnesAppend(bits[..i], [bits[i]]);
      n := n + if bits[i] then 1 else 0;
    }
    assert bits[..|bits|] == bits;
  }

  /** check_parity32. */
  method CheckParity(block: seq<bool>, b: Block) returns (ok: bool)
    requires |block| == 32
    ensures ok <==> Even(b, block[31])
  {
    var d := CountOnes(b.data);
    var c := CountOnes(b.check);
    ok := (d + c + if block[31] then 1 else 0) % 2 == 0;
  }

  predicate Even(b: Block, parity: bool) {
    (Ones(b.data) + Ones(b.check) + if parity then 1 else 0) % 2 == 0
  }

  // ---- Counting ones ----

  function Low(w: Word, n: nat): Word {
    set x | x in w && x < n
  }

  lemma {:induction false} OnesOfWord(w: Word, n: nat)
    ensures Ones(BitsOf(w, n)) == |Low(w, n)|
  {
    if n == 0 {
      assert Low(w, 0) == {};
    } else {
      OnesOfWord(w, n - 1);
      assert BitsOf(w, n)[1..] == BitsOf(w, n - 1);
      assert Low(w, n) == Low(w, n - 1) + if n - 1 in w then {n - 1} else {};
    }
  }

  /** The data are the first 21 bits of the code word, and the check bits the other ten. */
  lemma BlockParts(errs: nat, c: Word)
    ensures var b, bits := BlockOf(errs, c), BitsOf(c, 31);
            b.errs == errs && b.data == bits[..21] && b.check == bits[21..]
  {
    var b := BlockOf(errs, c);
    forall i | 0 <= i < 21 ensures b.data[i] == BitsOf(c, 31)[i] {
      ShrIn(c, SYN, DATA - 1 - i);
    }
  }

  lemma BlockOnes(errs: nat, c: Word)
    requires Below(c, 31)
    ensures Ones(BlockOf(errs, c).data) + Ones(BlockOf(errs, c).check) == |c|
  {
    hide BlockOf;
    var b := BlockOf(errs, c);
    BlockParts(errs, c);
    assert b.data + b.check == BitsOf(c, 31);
    OnesAppend(b.data, b.check);
    OnesOfWord(c, 31);
    assert Low(c, 31) == c;
  }

  lemma XorParity(a: Word, b: Word)
    ensures |Xor(a, b)| + 2 * |a * b| == |a| + |b|
  {
    assert |(a - b) + (b - a)| == |a - b| + |b - a|;
    assert a == (a - b) + (a * b) && b == (b - a) + (a * b);
  }

  // ---- What a block tolerates ----

  /** The parity bit sent with a code word. */
  function Parity(c: Word): bool {
    |c| % 2 == 1
  }

  /** The block is corrected and its parity bit agrees. */
  predicate Accepted(m: Slots, v: Word, parity: bool) {
    Corrected(m, v).Some? && Even(Corrected(m, v).value, parity)
  }

  lemma AcceptsFew(m: Slots, c: Word, e: Word, flipped: bool)
    requires Filled(m, RA, 31, 2, SYN) && IsCodeword(RA, 31, c) && Below(e, 31) && |e| <= 2
    ensures Corrected(m, Xor(c, e)) == Some(BlockOf(|e|, c)) &&
            (Accepted(m, Xor(c, e), Parity(c) != flipped) <==> !flipped)
  {
    hide Filled, Remainder, Distance, BlockOf, Xor;
    DistanceRa();
    TopRa();
    SyndromeBelow(RA, 10, e);
    Corrects(m, RA, 31, 2, SYN, 2, c, e);
    XorBack(c, e);
    BlockOnes(|e|, c);
  }

  lemma RejectsThree(m: Slots, c: Word, e: Word)
    requires Filled(m, RA, 31, 2, SYN) && IsCodeword(RA, 31, c) && Below(e, 31) && |e| == 3
    ensures !Accepted(m, Xor(c, e), Parity(c))
  {
    hide Filled, Remainder, BlockOf, Xor, Lookup;
    var v := Xor(c, e);
    XorBelow(c, e, 31);
    if Corrected(m, v).Some? {
      Sound(m, RA, 31, 2, SYN, v);
      var f := Lookup(m, SYN, Remainder(RA, v)).value;
      ThreeAway(c, e, f.locator);
      BlockOnes(f.errs, Xor(v, f.locator));
    }
  }

  lemma XorBelow(a: Word, b: Word, n: nat)
    requires Below(a, n) && Below(b, n)
    ensures Below(Xor(a, b), n)
  {
  }

  lemma XorAround(c: Word, e: Word, l: Word)
    ensures Xor(c, Xor(Xor(c, e), l)) == Xor(e, l) && Xor(Xor(c, e), l) == Xor(c, Xor(e, l)) && Xor(c, c) == {}
  {
  }

  lemma FarApart(d: Word)
    requires Distance(RA, 31, 5) && Below(d, 31) && Remainder(RA, d) == {} && d != {}
    ensures |d| >= 5
  {
  }

  /** A code word that is at most two bits from a word with three errors differs from the one sent in five places. */
  lemma ThreeAway(c: Word, e: Word, l: Word)
    requires IsCodeword(RA, 31, c) && IsCodeword(RA, 31, Xor(Xor(c, e), l)) && Below(e, 31) && Below(l, 31) &&
             |e| == 3 && |l| <= 2
    ensures |Xor(Xor(c, e), l)| % 2 != |c| % 2
  {
    hide Remainder, Xor, Distance;
    var d := Xor(e, l);
    XorAround(c, e, l);
    XorAround({}, {}, {});
    RemXor(RA, c, Xor(Xor(c, e), l));
    XorParity(e, l);
    assert |e * l| <= |l|;
    DistanceRa();
    XorBelow(e, l, 31);
    FarApart(d);
    XorParity(c, d);
  }

  /** With at most three errors in the 32 bits, a block is accepted exactly when its parity bit is right and at most
      two others are wrong; and then its data are those sent. */
  lemma BlockTolerance(m: Slots, c: Word, e: Word, flipped: bool)
    requires Filled(m, RA, 31, 2, SYN) && IsCodeword(RA, 31, c) && Below(e, 31) && |e| + (if flipped then 1 else 0) <= 3
    ensures Accepted(m, Xor(c, e), (|c| % 2 == 1) != flipped) <==> |e| <= 2 && !flipped
    ensures Accepted(m, Xor(c, e), (|c| % 2 == 1) != flipped) ==>
              Corrected(m, Xor(c, e)) == Some(Block(|e|, BitsOf(c, 31)[..21], BitsOf(c, 31)[21..]))
  {
    BlockParts(|e|, c);
    hide Filled, Corrected, Even, BlockOf, Xor, IsCodeword;
    if |e| <= 2 {
      AcceptsFew(m, c, e, flipped);
    } else {
      RejectsThree(m, c, e);
    }
  }
}
