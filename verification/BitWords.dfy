/** Bits in an array, first bit first, and the same bits in a word (frame_decode.c). */
module BitWords {

  import opened Gf2

  /** The bit of value 2^x when the bits are written most significant first. */
  predicate Digit(bits: seq<bool>, x: nat) {
    x < |bits| && bits[|bits| - 1 - x]
  }

  function WordOf(bits: seq<bool>): Word {
    set x: nat | x < |bits| && Digit(bits, x)
  }

  /** The low n bits of a word, most significant first. */
  function BitsOf(w: Word, n: nat): (r: seq<bool>)
    ensures |r| == n
  {
    seq(n, i requires 0 <= i < n => (n - 1 - i) in w)
  }

  method BitsToUint(bits: seq<bool>) returns (val: Word)
    ensures val == WordOf(bits)
  {
    val := {};
    for i := 0 to |bits|
      invariant val == WordOf(bits[..i])
    {
      val := Shl(val, 1) + (if bits[i] then {0} else {});
    }
    assert bits[..|bits|] == bits;
  }

  method UintToBits(w: Word, n: nat) returns (bits: seq<bool>)
    ensures bits == BitsOf(w, n)
  {
    hide Shr;
    var val, i := w, n;
    bits := [];
    forall x: nat ensures x in Shr(w, 0) <==> x in w { ShrIn(w, 0, x); }
    while i > 0
      invariant 0 <= i <= n
      invariant val == Shr(w, n - i)
      invariant bits == BitsOf(w, n - i)
    {
      ShrIn(w, n - i, 0);
      ShrShr(w, n - i);
      i := i - 1;
      bits := [0 in val] + bits;
      val := Shr(val, 1);
    }
  }

  lemma ShrShr(w: Word, k: nat)
    ensures Shr(Shr(w, k), 1) == Shr(w, k + 1)
  {
    hide Shr;
    forall x: nat ensures x in Shr(Shr(w, k), 1) <==> x in Shr(w, k + 1) {
      ShrIn(Shr(w, k), 1, x);
      ShrIn(w, k, x + 1);
      ShrIn(w, k + 1, x);
    }
  }

  lemma WordBits(w: Word, n: nat)
    requires Below(w, n)
    ensures WordOf(BitsOf(w, n)) == w
  {
  }

  lemma BitsWord(bits: seq<bool>)
    ensures BitsOf(WordOf(bits), |bits|) == bits && Below(WordOf(bits), |bits|)
  {
  }

  // ---- Numbers ----

  predicate MaskBit(mask: nat, b: nat) {
    if b == 0 then mask % 2 == 1 else MaskBit(mask / 2, b - 1)
  }

  function Pow2(k: nat): nat {
    if k == 0 then 1 else 2 * Pow2(k - 1)
  }

  lemma {:induction false} HighBit(mask: nat, k: nat, b: nat)
    requires mask < Pow2(k) && b <= k
    ensures MaskBit(mask + Pow2(k), b) == (b == k || MaskBit(mask, b))
    decreases k
  {
    if b > 0 {
      assert (mask + Pow2(k)) / 2 == mask / 2 + Pow2(k - 1);
      HighBit(mask / 2, k - 1, b - 1);
    }
  }

  lemma {:induction false} NoHighBit(mask: nat, k: nat)
    requires mask < Pow2(k)
    ensures !MaskBit(mask, k)
  {
    if k > 0 {
      NoHighBit(mask / 2, k - 1);
    }
  }

  lemma {:induction false} ZeroBit(b: nat)
    ensures !MaskBit(0, b)
  {
    if b > 0 {
      ZeroBit(b - 1);
    }
  }

  lemma {:induction false} Pow2Positive(k: nat)
    ensures Pow2(k) >= 1
  {
    if k > 0 {
      Pow2Positive(k - 1);
    }
  }

  /** The larger of two numbers has a bit that the smaller has not, and above it they agree. */
  lemma {:induction false} HighestDifference(a: nat, b: nat, k: nat) returns (i: nat)
    requires a < b < Pow2(k)
    ensures i < k && MaskBit(b, i) && !MaskBit(a, i)
    ensures forall j: nat :: i < j < k ==> MaskBit(a, j) == MaskBit(b, j)
    decreases k
  {
    if a / 2 == b / 2 {
      i := 0;
    } else {
      i := HighestDifference(a / 2, b / 2, k - 1);
      i := i + 1;
    }
  }

  /** The low k bits of a number. */
  function NumberWord(i: nat, k: nat): Word {
    set b: nat | b < k && MaskBit(i, b)
  }

  /** Every word of k bits is a number below 2^k. */
  lemma {:induction false} NumberFor(w: Word, k: nat) returns (i: nat)
    requires Below(w, k)
    ensures i < Pow2(k) && NumberWord(i, k) == w
  {
    if k == 0 {
      i := 0;
    } else {
      var j := NumberFor(w - {k - 1}, k - 1);
      if k - 1 in w {
        i := j + Pow2(k - 1);
        forall b: nat | b < k ensures MaskBit(i, b) == (b == k - 1 || MaskBit(j, b)) {
          HighBit(j, k - 1, b);
        }
        assert forall b: nat | b < k - 1 :: MaskBit(j, b) == (b in NumberWord(j, k - 1));
      } else {
        i := j;
        NoHighBit(j, k - 1);
        assert forall b: nat | b < k - 1 :: MaskBit(j, b) == (b in NumberWord(j, k - 1));
      }
    }
  }

  // ---- Bits changed on the way ----

  /** The bits received: those sent, changed where the channel erred. */
  function Received(sent: seq<bool>, errors: seq<bool>): (r: seq<bool>)
    requires |sent| == |errors|
    ensures |r| == |sent|
  {
    seq(|sent|, i requires 0 <= i < |sent| => sent[i] != errors[i])
  }

  lemma WordReceived(sent: seq<bool>, errors: seq<bool>)
    requires |sent| == |errors|
    ensures WordOf(Received(sent, errors)) == Xor(WordOf(sent), WordOf(errors))
  {
    forall x: nat ensures x in WordOf(Received(sent, errors)) <==> x in Xor(WordOf(sent), WordOf(errors)) {
      assert x < |sent| ==> Digit(Received(sent, errors), x) == (Digit(sent, x) != Digit(errors, x));
    }
  }
}
