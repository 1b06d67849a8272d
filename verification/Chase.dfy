/** Soft-decision decoding of a 31-bit data block (chase_bch_da in ida_decode.c). */
module Chase {

  import opened Bch
  import opened BitWords
  import opened Gf2
  import opened SyndromeTable
  import opened Wrappers

  // ---- The least reliable positions ----

  predicate Arrangement(pos: seq<nat>, n: nat) {
    && |pos| == n
    && (forall i :: 0 <= i < n ==> pos[i] < n)
    && (forall i, j :: 0 <= i < j < n ==> pos[i] != pos[j])
  }

  /** The first k are in order, and no later one is less reliable. */
  ghost predicate Selected(pos: seq<nat>, llr: seq<real>, k: nat)
    requires Arrangement(pos, |llr|)
  {
    forall i, j :: 0 <= i < k && i < j < |llr| ==> llr[pos[i]] <= llr[pos[j]]
  }

  /** The selection loops of chase_bch_da, in place on pos. */
  method SelectWeakest(pos: array<nat>, llr: seq<real>, k: nat)
    requires pos.Length == |llr| && k <= |llr|
    modifies pos
    ensures Arrangement(pos[..], |llr|) && Selected(pos[..], llr, k)
  {
    hide Selected;
    for i := 0 to pos.Length
      invariant forall j :: 0 <= j < i ==> pos[j] == j
    {
      pos[i] := i;
    }
    NoneSelected(pos[..], llr);
    for i := 0 to k
      invariant Arrangement(pos[..], |llr|) && Selected(pos[..], llr, i)
    {
      var min := LeastReliableFrom(pos, llr, i);
      ghost var p := pos[..];
      Swapped(p, llr, i, min);
      pos[i], pos[min] := pos[min], pos[i];
      assert pos[..] == p[i := p[min]][min := p[i]];
    }
  }

  method LeastReliableFrom(pos: array<nat>, llr: seq<real>, i: nat) returns (min: nat)
    requires Arrangement(pos[..], |llr|) && i < |llr|
    ensures i <= min < |llr| && forall m :: i <= m < |llr| ==> llr[pos[min]] <= llr[pos[m]]
  {
    min := i;
    for j := i + 1 to |llr|
      invariant i <= min < |llr|
      invariant forall m :: i <= m < j ==> llr[pos[min]] <= llr[pos[m]]
    {
      if llr[pos[j]] < llr[pos[min]] {
        min := j;
      }
    }
  }

  lemma NoneSelected(p: seq<nat>, llr: seq<real>)
    requires Arrangement(p, |llr|)
    ensures Selected(p, llr, 0)
  {
  }

  lemma Swapped(p: seq<nat>, llr: seq<real>, i: nat, m: nat)
    requires Arrangement(p, |llr|) && Selected(p, llr, i) && i <= m < |llr|
    requires forall j :: i <= j < |llr| ==> llr[p[m]] <= llr[p[j]]
    ensures var q := p[i := p[m]][m := p[i]];
            Arrangement(q, |llr|) && Selected(q, llr, i + 1)
  {
    var q := p[i := p[m]][m := p[i]];
    assert Arrangement(q, |llr|);
    forall a, b | 0 <= a < i + 1 && a < b < |llr| ensures llr[q[a]] <= llr[q[b]] {
    }
  }

  /** The positions selected, as bits of the word. */
  function Weak(pos: seq<nat>, k: nat): Word
    requires k <= |pos| && forall i :: 0 <= i < |pos| ==> pos[i] < 31
  {
    if k == 0 then {} else Weak(pos, k - 1) + {30 - pos[k - 1]}
  }

  // ---- Masks ----

  /** The bits that a mask over the first k positions flips. */
  function Flips(pos: seq<nat>, mask: nat, k: nat): Word
    requires k <= |pos| && forall i :: 0 <= i < |pos| ==> pos[i] < 31
  {
    if k == 0 then {}
    else if MaskBit(mask, k - 1) then Xor(Flips(pos, mask, k - 1), {30 - pos[k - 1]})
    else Flips(pos, mask, k - 1)
  }

  lemma {:induction false} FlipsWeak(pos: seq<nat>, mask: nat, k: nat)
    requires Arrangement(pos, 31) && k <= 31
    ensures Flips(pos, mask, k) <= Weak(pos, k) && Below(Weak(pos, k), 31)
    ensures forall i :: k <= i < 31 ==> 30 - pos[i] !in Weak(pos, k)
  {
    if k > 0 {
      FlipsWeak(pos, mask, k - 1);
    }
  }

  lemma {:induction false} FlipsSame(pos: seq<nat>, a: nat, b: nat, k: nat)
    requires k <= |pos| && forall i :: 0 <= i < |pos| ==> pos[i] < 31
    requires forall i :: 0 <= i < k ==> MaskBit(a, i) == MaskBit(b, i)
    ensures Flips(pos, a, k) == Flips(pos, b, k)
  {
    if k > 0 {
      FlipsSame(pos, a, b, k - 1);
    }
  }

  /** Every subset of the selected positions has a mask. */
  lemma {:induction false} MaskFor(pos: seq<nat>, k: nat, f: Word) returns (mask: nat)
    requires Arrangement(pos, 31) && k <= 31 && f <= Weak(pos, k)
    ensures mask < Pow2(k) && Flips(pos, mask, k) == f
  {
    if k == 0 {
      mask := 0;
    } else {
      var top := 30 - pos[k - 1];
      var m := MaskFor(pos, k - 1, f - {top});
      FlipsWeak(pos, m, k - 1);
      if top in f {
        mask := m + Pow2(k - 1);
        forall i | 0 <= i < k ensures MaskBit(mask, i) == (i == k - 1 || MaskBit(m, i)) {
          HighBit(m, k - 1, i);
        }
        FlipsSame(pos, mask, m, k - 1);
      } else {
        mask := m;
        NoHighBit(m, k - 1);
      }
    }
  }

  lemma {:induction false} NoFlips(pos: seq<nat>, k: nat)
    requires k <= |pos| && forall i :: 0 <= i < |pos| ==> pos[i] < 31
    ensures Flips(pos, 0, k) == {}
  {
    if k > 0 {
      NoFlips(pos, k - 1);
      ZeroBit(k - 1);
    }
  }

  // ---- Decoding ----

  const SYN := 11
  const DATA := 20

  /** What a block decodes to: its data bits, 1 if anything was changed, and the number of errors looked up. */
  datatype Decoded = Decoded(data: seq<bool>, fixed: nat, errs: nat)

  function DataOf(w: Word): seq<bool> {
    BitsOf(Shr(w, SYN), DATA)
  }

  function Attempt(m: Slots, v: Word): Option<Entry> {
    Lookup(m, SYN, Remainder(DA, v))
  }

  function Outcome(v: Word, e: Entry, clean: bool): Decoded {
    Decoded(DataOf(Xor(v, e.locator)), if clean then 0 else 1, e.errs)
  }

  /** The mask is the first whose flipped word decodes, and that is what is returned. */
  ghost predicate FirstHit(m: Slots, v: Word, pos: seq<nat>, k: nat, mask: nat, r: Decoded)
    requires k <= |pos| && forall i :: 0 <= i < |pos| ==> pos[i] < 31
  {
    var f := Xor(v, Flips(pos, mask, k));
    && Attempt(m, f).Some?
    && r == Outcome(f, Attempt(m, f).value, mask == 0 && Remainder(DA, v) == {})
    && NoneBefore(m, v, pos, k, mask)
  }

  ghost predicate NoneBefore(m: Slots, v: Word, pos: seq<nat>, k: nat, mask: nat)
    requires k <= |pos| && forall i :: 0 <= i < |pos| ==> pos[i] < 31
  {
    forall b: nat :: b < mask ==> Attempt(m, Xor(v, Flips(pos, b, k))) == None
  }

  /** r is what the search may return for a block: the first hit, or nothing if there is none. */
  ghost predicate DecodesBy(m: Slots, v: Word, llr: Option<seq<real>>, k: nat, order: seq<nat>, mask: nat,
                            r: Option<Decoded>)
    requires k <= 7 && (llr.Some? ==> |llr.value| == 31)
  {
    && Arrangement(order, 31)
    && (llr.Some? && (r.None? || mask > 0) ==> Selected(order, llr.value, k))
    && (r.Some? ==> mask < Masks(llr, k) && FirstHit(m, v, order, k, mask, r.value))
    && (r.None? ==> NoneBefore(m, v, order, k, Masks(llr, k)))
  }

  ghost predicate Decodes(m: Slots, block: seq<bool>, llr: Option<seq<real>>, k: nat, r: Option<Decoded>)
    requires k <= 7 && (llr.Some? ==> |llr.value| == 31)
  {
    exists order: seq<nat>, mask: nat :: DecodesBy(m, WordOf(block), llr, k, order, mask, r)
  }

  /** How many masks are tried: only the empty one without soft values. */
  function Masks(llr: Option<seq<real>>, k: nat): nat {
    if llr.Some? then Pow2(k) else 1
  }

  method Emit(w: Word, fixed: nat, errs: nat) returns (r: Decoded)
    ensures r == Decoded(DataOf(w), fixed, errs)
  {
    var data := UintToBits(Shr(w, SYN), DATA);
    r := Decoded(data, fixed, errs);
  }

  method FlipBits(base: Word, pos: array<nat>, mask: nat, k: nat) returns (flipped: Word)
    requires k <= pos.Length && forall i :: 0 <= i < pos.Length ==> pos[i] < 31
    ensures flipped == Xor(base, Flips(pos[..], mask, k))
  {
    flipped := base;
    for b := 0 to k
      invariant flipped == Xor(base, Flips(pos[..], mask, b))
    {
      if MaskBit(mask, b) {
        flipped := Xor(flipped, {30 - pos[b]});
      }
    }
  }

  /** chase_bch_da: try the block as it is, then with subsets of its k least reliable bits flipped. */
  method ChaseBchDa(m: Slots, block: seq<bool>, llr: Option<seq<real>>, k: nat)
    returns (r: Option<Decoded>)
    requires |block| == 31 && k <= 7 && (llr.Some? ==> |llr.value| == 31)
    ensures Decodes(m, block, llr, k, r)
  {
    hide Remainder, Flips, Outcome, DataOf, MaskBit;
    var val := BitsToUint(block);
    ghost var order: seq<nat> := seq(31, i => i);
    NoFlips(order, k);
    assert Xor(val, {}) == val;
    r := HardDecode(m, val);
    if r.Some? || llr.None? {
      assert Masks(llr, k) >= 1 by { Pow2Positive(k); }
      assert DecodesBy(m, val, llr, k, order, 0, r);
      return;
    }
    var pos := new nat[31];
    SelectWeakest(pos, llr.value, k);
    order := pos[..];
    NoFlips(order, k);
    var limit := Power(k);
    var t := 1;
    while t < limit
      invariant 1 <= t <= limit && pos[..] == order && NoneBefore(m, val, order, k, t)
    {
      var flipped := FlipBits(val, pos, t, k);
      r := SoftDecode(m, flipped);
      if r.Some? {
        assert DecodesBy(m, val, llr, k, order, t, r);
        return;
      }
      t := t + 1;
    }
    r := None;
    assert DecodesBy(m, val, llr, k, order, 0, r);
  }

  method HardDecode(m: Slots, val: Word) returns (r: Option<Decoded>)
    ensures r.Some? <==> Attempt(m, val).Some?
    ensures r.Some? ==> r.value == Outcome(val, Attempt(m, val).value, Remainder(DA, val) == {})
  {
    var s := Gf2Remainder(DA, val);
    if s == {} {
      assert Xor(val, {}) == val;
      var d := Emit(val, 0, 0);
      return Some(d);
    }
    if Below(s, SYN) && s in m {
      var d := Emit(Xor(val, m[s].locator), 1, m[s].errs);
      return Some(d);
    }
    return None;
  }

  method SoftDecode(m: Slots, flipped: Word) returns (r: Option<Decoded>)
    ensures r.Some? <==> Attempt(m, flipped).Some?
    ensures r.Some? ==> r.value == Outcome(flipped, Attempt(m, flipped).value, false)
  {
    var s := Gf2Remainder(DA, flipped);
    if s == {} {
      assert Xor(flipped, {}) == flipped;
      var d := Emit(flipped, 1, 0);
      return Some(d);
    }
    if Below(s, SYN) && s in m {
      var d := Emit(Xor(flipped, m[s].locator), 1, m[s].errs);
      return Some(d);
    }
    return None;
  }

  method Power(k: nat) returns (p: nat)
    ensures p == Pow2(k) && p >= 1
  {
    p := 1;
    for i := 0 to k
      invariant p == Pow2(i) && p >= 1
    {
      p := 2 * p;
    }
  }

  // ---- What the search means ----

  /** The word a sender transmits for 20 data bits. */
  function Encode(data: seq<bool>): Word {
    Systematic(DA, SYN, WordOf(data))
  }

  lemma EncodeCodeword(data: seq<bool>)
    requires |data| == DATA
    ensures IsCodeword(DA, 31, Encode(data)) && DataOf(Encode(data)) == data
  {
    hide Remainder, WordOf, BitsOf, Shr, Systematic;
    TopDa();
    BitsWord(data);
    SystematicCode(DA, SYN, 31, WordOf(data));
  }

  /** The data bits determine the code word. */
  lemma CodewordEncodes(c: Word)
    requires IsCodeword(DA, 31, c)
    ensures Encode(DataOf(c)) == c
  {
    hide Remainder, Shr, BitsOf, WordOf;
    var h := Shr(c, SYN);
    forall x | x in h ensures x < DATA { ShrIn(c, SYN, x); }
    WordBits(h, DATA);
    var d := Shl(h, SYN);
    var low := Xor(c, d);
    forall x | x in low ensures x < 11 {
      if x >= 11 { ShrIn(c, SYN, x - 11); }
    }
    LowPart(c, d, low);
  }

  lemma LowPart(c: Word, d: Word, low: Word)
    requires Remainder(DA, c) == {} && low == Xor(c, d) && Below(low, 11)
    ensures Xor(d, Remainder(DA, d)) == c
  {
    TopDa();
    RemSmall(DA, 11, low, 31);
    RemXor(DA, c, d);
    assert Xor({}, Remainder(DA, d)) == Remainder(DA, d);
  }

  lemma BlockSyndrome(e: Word)
    requires Below(e, 31)
    ensures Below(Remainder(DA, e), SYN)
  {
    TopDa();
    SyndromeBelow(DA, 11, e);
  }

  /** A block with at most two errors decodes to what was sent, with its exact error count. */
  lemma ChaseCorrects(m: Slots, data: seq<bool>, e: Word)
    requires Filled(m, DA, 31, 2, SYN) && |data| == DATA && Below(e, 31) && |e| <= 2
    ensures var v := Xor(Encode(data), e);
            Attempt(m, v).Some? && Outcome(v, Attempt(m, v).value, Remainder(DA, v) == {}) ==
              Decoded(data, if e == {} then 0 else 1, |e|)
  {
    hide Filled, Encode, DataOf, Remainder, Distance, Lookup, Xor;
    EncodeCodeword(data);
    DistanceDa();
    BlockSyndrome(e);
    var c := Encode(data);
    Nearer(DA, 31, 6, 5);
    Corrects(m, DA, 31, 2, SYN, 2, c, e);
    XorBack(c, e);
    CleanExactly(DA, 31, 5, c, e);
  }

  /** Whatever search order is used, a block with at most two errors gives back the data sent. */
  lemma DecodesSent(m: Slots, data: seq<bool>, e: Word, block: seq<bool>, llr: Option<seq<real>>, k: nat,
                    r: Option<Decoded>)
    requires Filled(m, DA, 31, 2, SYN) && |data| == DATA && Below(e, 31) && |e| <= 2
    requires k <= 7 && (llr.Some? ==> |llr.value| == 31)
    requires WordOf(block) == Xor(Encode(data), e) && Decodes(m, block, llr, k, r)
    ensures r == Some(Decoded(data, if e == {} then 0 else 1, |e|))
  {
    hide Filled, Encode, DataOf, Remainder, Lookup, WordOf, Outcome, Attempt, Flips, Selected, Pow2;
    ChaseCorrects(m, data, e);
    var v := WordOf(block);
    var order: seq<nat>, mask: nat :| DecodesBy(m, v, llr, k, order, mask, r);
    NoFlips(order, k);
    Pow2Positive(k);
    XorNothing(v);
    assert Attempt(m, Xor(v, Flips(order, 0, k))).Some?;
  }

  lemma XorNothing(v: Word)
    ensures Xor(v, {}) == v
  {
  }

  /** Three errors are noticed before any soft information is used. */
  lemma ChaseDetects(m: Slots, data: seq<bool>, e: Word)
    requires Filled(m, DA, 31, 2, SYN) && |data| == DATA && Below(e, 31) && |e| == 3
    ensures Attempt(m, Xor(Encode(data), e)) == None
  {
    EncodeCodeword(data);
    DistanceDa();
    hide Filled, Remainder, Encode;
    Detects(m, DA, 31, 2, SYN, 6, Encode(data), e);
  }

  /** What is returned is the data of a code word that differs from the block in some of the selected bits and at
      most two others. */
  lemma ChaseSound(m: Slots, v: Word, pos: seq<nat>, k: nat, mask: nat, r: Decoded) returns (f: Word, e: Word)
    requires Filled(m, DA, 31, 2, SYN) && Below(v, 31) && Arrangement(pos, 31) && k <= 31
    requires FirstHit(m, v, pos, k, mask, r)
    ensures f <= Weak(pos, k) && Below(e, 31) && |e| == r.errs <= 2
    ensures IsCodeword(DA, 31, Xor(Xor(v, f), e)) && r.data == DataOf(Xor(Xor(v, f), e)) &&
            Encode(r.data) == Xor(Xor(v, f), e)
    ensures f == Flips(pos, mask, k)
  {
    hide Filled, Remainder, Encode, DataOf;
    f := Flips(pos, mask, k);
    FlipsWeak(pos, mask, k);
    Sound(m, DA, 31, 2, SYN, Xor(v, f));
    e := Attempt(m, Xor(v, f)).value.locator;
    CodewordEncodes(Xor(Xor(v, f), e));
  }

  /** Nothing is returned exactly when no subset of the selected bits comes within two bits of a code word. */
  lemma ChaseComplete(m: Slots, v: Word, pos: seq<nat>, k: nat)
    requires Filled(m, DA, 31, 2, SYN) && Below(v, 31) && Arrangement(pos, 31) && k <= 31
    ensures NoneBefore(m, v, pos, k, Pow2(k)) <==>
            forall f: Word, e: Word :: f <= Weak(pos, k) && Below(e, 31) && |e| <= 2 ==>
              Remainder(DA, Xor(Xor(v, f), e)) != {}
  {
    hide Filled, Remainder;
    if NoneBefore(m, v, pos, k, Pow2(k)) {
      forall f: Word, e: Word | f <= Weak(pos, k) && Below(e, 31) && |e| <= 2
        ensures Remainder(DA, Xor(Xor(v, f), e)) != {} {
        var mask := MaskFor(pos, k, f);
        BlockSyndrome(e);
        NotReached(m, DA, 31, 2, SYN, Xor(v, f), e);
      }
    } else {
      var b: nat :| b < Pow2(k) && Attempt(m, Xor(v, Flips(pos, b, k))).Some?;
      var f := Flips(pos, b, k);
      FlipsWeak(pos, b, k);
      Sound(m, DA, 31, 2, SYN, Xor(v, f));
      var e := Attempt(m, Xor(v, f)).value.locator;
      assert Remainder(DA, Xor(Xor(v, f), e)) == {};
    }
  }

  // ---- The selected bits are the least reliable ones ----

  lemma {:induction false} Values(pos: seq<nat>, n: nat, k: nat) returns (s: set<nat>)
    requires Arrangement(pos, n) && k <= n == |pos|
    ensures |s| == k && (forall x :: x in s <==> x in pos[..k]) && forall x :: x in s ==> x < n
  {
    hide *;
    if k == 0 {
      s := {};
    } else {
      s := Values(pos, n, k - 1);
      NewValue(pos, n, k - 1);
      forall x: nat ensures x in pos[..k] <==> x in pos[..k - 1] || x == pos[k - 1] {
        OneLonger(pos, k - 1, x);
      }
      s := s + {pos[k - 1]};
    }
  }

  lemma OneLonger(pos: seq<nat>, k: nat, x: nat)
    requires k < |pos|
    ensures x in pos[..k + 1] <==> x in pos[..k] || x == pos[k]
  {
    hide *;
    assert pos[..k + 1] == pos[..k] + [pos[k]];
  }

  lemma NewValue(pos: seq<nat>, n: nat, k: nat)
    requires Arrangement(pos, n) && k < n
    ensures k < |pos| && pos[k] < n && pos[k] !in pos[..k]
  {
  }

  lemma {:induction false} FullSet(s: set<nat>, n: nat)
    requires |s| == n && forall x :: x in s ==> x < n
    ensures forall x: nat :: x < n ==> x in s
  {
    if n > 0 {
      if n - 1 in s {
        FullSet(s - {n - 1}, n - 1);
      } else {
        TooMany(s, n - 1);
      }
    }
  }

  lemma {:induction false} TooMany(s: set<nat>, n: nat)
    requires forall x :: x in s ==> x < n
    ensures |s| <= n
  {
    if n > 0 {
      TooMany(s - {n - 1}, n - 1);
    } else {
      assert s == {};
    }
  }

  lemma {:induction false} WeakIn(pos: seq<nat>, k: nat, p: nat)
    requires Arrangement(pos, 31) && k <= 31 && p < 31
    ensures 30 - p in Weak(pos, k) <==> exists i :: 0 <= i < k && pos[i] == p
  {
    if k > 0 {
      WeakIn(pos, k - 1, p);
    }
  }

  /** k positions are selected, and no other position is less reliable than one of them. */
  lemma WeakLeast(pos: seq<nat>, llr: seq<real>, k: nat)
    requires |llr| == 31 && Arrangement(pos, 31) && k <= 31 && Selected(pos, llr, k)
    ensures |Weak(pos, k)| == k
    ensures forall p: nat, q: nat :: p < 31 && q < 31 && 30 - p in Weak(pos, k) && 30 - q !in Weak(pos, k) ==>
            llr[p] <= llr[q]
  {
    WeakSize(pos, k);
    var all := Values(pos, 31, 31);
    FullSet(all, 31);
    assert pos[..31] == pos;
    forall p: nat, q: nat | p < 31 && q < 31 && 30 - p in Weak(pos, k) && 30 - q !in Weak(pos, k)
      ensures llr[p] <= llr[q] {
      WeakIn(pos, k, p);
      WeakIn(pos, k, q);
      assert q in all;
      var i :| 0 <= i < k && pos[i] == p;
      var j :| 0 <= j < 31 && pos[j] == q;
    }
  }

  /** k bits of the block, none more reliable than any other bit. */
  ghost predicate LeastReliable(weak: Word, llr: seq<real>, k: nat)
    requires |llr| == 31
  {
    && Below(weak, 31)
    && |weak| == k
    && forall p: nat, q: nat :: p < 31 && q < 31 && 30 - p in weak && 30 - q !in weak ==> llr[p] <= llr[q]
  }

  /** With soft values, the search fails exactly when no code word is the block with some of k least reliable bits
      and at most two others changed; otherwise it returns the data of such a code word. */
  lemma ChaseMeaning(m: Slots, block: seq<bool>, llr: seq<real>, k: nat, r: Option<Decoded>)
    returns (weak: Word, f: Word, e: Word)
    requires Filled(m, DA, 31, 2, SYN) && |block| == 31 && |llr| == 31 && k <= 7 && Decodes(m, block, Some(llr), k, r)
    ensures r.None? ==>
              && LeastReliable(weak, llr, k)
              && forall f: Word, e: Word :: f <= weak && Below(e, 31) && |e| <= 2 ==>
                   Remainder(DA, Xor(Xor(WordOf(block), f), e)) != {}
    ensures r.Some? ==>
              f <= weak && (f == {} || LeastReliable(weak, llr, k)) && Below(e, 31) && |e| == r.value.errs <= 2
    ensures r.Some? ==> |r.value.data| == DATA && Encode(r.value.data) == Xor(Xor(WordOf(block), f), e)
    ensures r.Some? ==> IsCodeword(DA, 31, Encode(r.value.data))
  {
    var v := WordOf(block);
    BitsWord(block);
    hide Filled, Remainder, WordOf, Encode, DataOf, Attempt;
    var order: seq<nat>, mask: nat :| DecodesBy(m, v, Some(llr), k, order, mask, r);
    weak, f, e := Weak(order, k), {}, {};
    FlipsWeak(order, 0, k);
    if r.None? {
      WeakLeast(order, llr, k);
      ChaseComplete(m, v, order, k);
    } else {
      f, e := ChaseSound(m, v, order, k, mask, r.value);
      DataLength(Xor(Xor(v, f), e));
      if mask > 0 {
        WeakLeast(order, llr, k);
      } else {
        NoFlips(order, k);
      }
    }
  }

  // ---- Which code word is taken ----

  lemma {:induction false} FlipsIn(pos: seq<nat>, mask: nat, k: nat, i: nat)
    requires Arrangement(pos, 31) && k <= 31 && i < 31
    ensures 30 - pos[i] in Flips(pos, mask, k) <==> i < k && MaskBit(mask, i)
  {
    hide MaskBit;
    if k > 0 {
      FlipsIn(pos, mask, k - 1, i);
      FlipsWeak(pos, mask, k - 1);
    }
  }

  /** Of the bits in which f and g differ, a most reliable one is in g. */
  ghost predicate Spares(f: Word, g: Word, llr: seq<real>)
    requires |llr| == 31
  {
    exists p: nat :: p < 31 && 30 - p in g && 30 - p !in f &&
      forall q: nat :: q < 31 && (30 - q in f) != (30 - q in g) ==> llr[q] <= llr[p]
  }

  lemma MaskSpares(pos: seq<nat>, llr: seq<real>, k: nat, a: nat, b: nat)
    requires |llr| == 31 && Arrangement(pos, 31) && k <= 31 && Selected(pos, llr, k) && a < b < Pow2(k)
    ensures Spares(Flips(pos, a, k), Flips(pos, b, k), llr)
  {
    hide Flips, Pow2;
    var i := HighestDifference(a, b, k);
    var f, g, p := Flips(pos, a, k), Flips(pos, b, k), pos[i];
    FlipsIn(pos, a, k, i);
    FlipsIn(pos, b, k, i);
    FlipsWeak(pos, a, k);
    FlipsWeak(pos, b, k);
    forall q: nat | q < 31 && (30 - q in f) != (30 - q in g) ensures llr[q] <= llr[p] {
      WeakIn(pos, k, q);
      var j :| 0 <= j < k && pos[j] == q;
      FlipsIn(pos, a, k, j);
      FlipsIn(pos, b, k, j);
    }
  }

  /** With the bits g of weak changed, v is a code word but for at most two bits e. */
  predicate Reaches(v: Word, weak: Word, g: Word, e: Word) {
    g <= weak && Below(e, 31) && |e| <= 2 && Remainder(DA, Xor(Xor(v, g), e)) == {}
  }

  /** A subset of the selected bits that comes within two bits of a code word has a mask that was not tried before. */
  lemma LaterMask(m: Slots, v: Word, pos: seq<nat>, k: nat, mask: nat, g: Word, e: Word) returns (later: nat)
    requires Filled(m, DA, 31, 2, SYN) && Below(v, 31) && Arrangement(pos, 31) && k <= 31
    requires NoneBefore(m, v, pos, k, mask) && Reaches(v, Weak(pos, k), g, e)
    ensures mask <= later < Pow2(k) && Flips(pos, later, k) == g
  {
    hide Filled, Remainder, Weak;
    later := MaskFor(pos, k, g);
    if later < mask {
      FlipsWeak(pos, later, k);
      BlockSyndrome(e);
      NotReached(m, DA, 31, 2, SYN, Xor(v, g), e);
    }
  }

  /** With soft values, what is returned is the code word within two bits of the block with a subset f of k least
      reliable bits changed. If f is not empty, it spares reliable bits: where another such subset differs from it, a
      most reliable bit is changed by the other. */
  lemma ChasePrefers(m: Slots, block: seq<bool>, llr: seq<real>, k: nat, r: Decoded)
    returns (weak: Word, f: Word, e: Word)
    requires Filled(m, DA, 31, 2, SYN) && |block| == 31 && |llr| == 31 && k <= 7
    requires Decodes(m, block, Some(llr), k, Some(r))
    ensures f <= weak && Below(e, 31) && |e| == r.errs <= 2 && Encode(r.data) == Xor(Xor(WordOf(block), f), e)
    ensures f != {} ==> LeastReliable(weak, llr, k)
    ensures f != {} ==>
              forall g: Word, e': Word :: Reaches(WordOf(block), weak, g, e') && g != f ==> Spares(f, g, llr)
  {
    var v := WordOf(block);
    BitsWord(block);
    hide Filled, Remainder, WordOf, Encode, DataOf, Attempt, Flips, Spares, Weak, Pow2;
    var order: seq<nat>, mask: nat :| DecodesBy(m, v, Some(llr), k, order, mask, Some(r));
    weak := Weak(order, k);
    FlipsWeak(order, mask, k);
    NoFlips(order, k);
    f, e := ChaseSound(m, v, order, k, mask, r);
    if f != {} {
      WeakLeast(order, llr, k);
      forall g: Word, e': Word | Reaches(v, weak, g, e') && g != f ensures Spares(f, g, llr) {
        var later := LaterMask(m, v, order, k, mask, g, e');
        MaskSpares(order, llr, k, mask, later);
      }
    }
  }

  lemma DataLength(w: Word)
    ensures |DataOf(w)| == DATA
  {
  }

  lemma {:induction false} WeakSize(pos: seq<nat>, k: nat)
    requires Arrangement(pos, 31) && k <= 31
    ensures |Weak(pos, k)| == k
  {
    if k > 0 {
      WeakSize(pos, k - 1);
      FlipsWeak(pos, 0, k - 1);
    }
  }
}
