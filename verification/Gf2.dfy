/** Polynomials over GF(2) in machine words, and their remainders (frame_decode.c).
    A word is the set of its one bits; the bit of value 2^i is the number i. */
module Gf2 {

  type Word = set<nat>

  function Xor(a: Word, b: Word): (r: Word)
    ensures forall x :: x in r <==> (x in a) != (x in b)
  {
    (a - b) + (b - a)
  }

  function Shl(w: Word, k: nat): (r: Word)
    ensures forall x :: x in r <==> x >= k && x - k in w
  {
    set x | x in w :: x + k
  }

  function Shr(w: Word, k: nat): Word {
    set x | x in w && x >= k :: x - k
  }

  lemma ShrIn(w: Word, k: nat, x: nat)
    ensures x in Shr(w, k) <==> x + k in w
  {
    if x + k in w {
      var y := x + k;
      assert y in w && y >= k && x == y - k;
    }
  }

  /** Less than 2^n. */
  predicate Below(w: Word, n: nat) {
    forall x :: x in w ==> x < n
  }

  /** The highest one bit at or below i, or 0. */
  function TopFrom(w: Word, i: nat): (t: nat)
    ensures t <= i
  {
    if i in w || i == 0 then i else TopFrom(w, i - 1)
  }

  function Top(w: Word): nat {
    TopFrom(w, 31)
  }

  predicate HasTop(p: Word, d: nat) {
    d in p && forall x :: x in p ==> x <= d
  }

  // ---- The remainder loop ----

  function Step(p: Word, d: nat, v: Word, i: nat): Word
    requires d <= i
  {
    if i in v then Xor(v, Shl(p, i - d)) else v
  }

  /** The loop's passes for i, i - 1, ..., d. */
  function RemFrom(p: Word, d: nat, v: Word, i: int): Word
    decreases i
  {
    if i < d then v else RemFrom(p, d, Step(p, d, v, i), i - 1)
  }

  function Remainder(p: Word, v: Word): Word {
    RemFrom(p, Top(p), v, 31)
  }

  lemma {:induction false} TopIsTop(p: Word, i: nat)
    requires p != {} && Below(p, i + 1)
    ensures HasTop(p, TopFrom(p, i))
  {
    if i !in p && i > 0 {
      TopIsTop(p, i - 1);
    }
  }

  /** The loop of gf2_remainder computes the remainder; the early exit for 0 changes nothing. */
  method Gf2Remainder(poly: Word, val: Word) returns (r: Word)
    ensures r == Remainder(poly, val)
  {
    if val == {} {
      RemZero(poly, Top(poly), 31);
      return {};
    }
    var bits := Top(poly) + 1;
    r := val;
    var i := 31;
    while i >= bits - 1
      invariant -1 <= i <= 31 && bits - 2 <= i
      invariant RemFrom(poly, bits - 1, r, i) == Remainder(poly, val)
    {
      if i in r {
        r := Xor(r, Shl(poly, i - bits + 1));
      }
      i := i - 1;
    }
  }

  lemma {:induction false} RemZero(p: Word, d: nat, i: int)
    ensures RemFrom(p, d, {}, i) == {}
    decreases i
  {
    if i >= d {
      RemZero(p, d, i - 1);
    }
  }

  /** Taking remainders is linear. */
  lemma {:induction false} RemLinear(p: Word, d: nat, a: Word, b: Word, i: int)
    ensures RemFrom(p, d, Xor(a, b), i) == Xor(RemFrom(p, d, a, i), RemFrom(p, d, b, i))
    decreases i
  {
    if i >= d {
      assert Step(p, d, Xor(a, b), i) == Xor(Step(p, d, a, i), Step(p, d, b, i));
      RemLinear(p, d, Step(p, d, a, i), Step(p, d, b, i), i - 1);
    }
  }

  /** The remainder has a lower degree than the divisor. */
  lemma {:induction false} RemBelow(p: Word, d: nat, v: Word, i: int)
    requires HasTop(p, d) && i >= d - 1 && Below(v, i + 1)
    ensures Below(RemFrom(p, d, v, i), d)
    decreases i
  {
    if i >= d {
      RemBelow(p, d, Step(p, d, v, i), i - 1);
    }
  }

  lemma {:induction false} RemSmall(p: Word, d: nat, v: Word, i: int)
    requires Below(v, d)
    ensures RemFrom(p, d, v, i) == v
    decreases i
  {
    if i >= d {
      RemSmall(p, d, v, i - 1);
    }
  }

  // ---- The remainder is the one of polynomial division ----

  /** The product of p and the terms of q below n. */
  function Times(p: Word, q: Word, n: nat): Word {
    if n == 0 then {}
    else if n - 1 in q then Xor(Times(p, q, n - 1), Shl(p, n - 1))
    else Times(p, q, n - 1)
  }

  lemma {:induction false} RemShifted(p: Word, d: nat, k: nat, i: int)
    requires HasTop(p, d) && i >= k + d
    ensures RemFrom(p, d, Shl(p, k), i) == {}
    decreases i
  {
    if i == k + d {
      assert Step(p, d, Shl(p, k), i) == {};
      RemZero(p, d, i - 1);
    } else {
      RemShifted(p, d, k, i - 1);
    }
  }

  lemma {:induction false} RemMultiple(p: Word, d: nat, q: Word, n: nat, i: int)
    requires HasTop(p, d) && n + d <= i + 1
    ensures RemFrom(p, d, Times(p, q, n), i) == {}
  {
    if n == 0 {
      RemZero(p, d, i);
    } else {
      RemMultiple(p, d, q, n - 1, i);
      if n - 1 in q {
        RemLinear(p, d, Times(p, q, n - 1), Shl(p, n - 1), i);
        RemShifted(p, d, n - 1, i);
      }
    }
  }

  /** Uniqueness: whatever is written as a multiple of the divisor plus something of lower degree has that
      something as its remainder. */
  lemma RemainderUnique(p: Word, q: Word, n: nat, r: Word)
    requires p != {} && Below(p, 32) && n + Top(p) <= 32 && Below(r, Top(p))
    ensures Remainder(p, Xor(Times(p, q, n), r)) == r
  {
    TopIsTop(p, 31);
    RemLinear(p, Top(p), Times(p, q, n), r, 31);
    RemMultiple(p, Top(p), q, n, 31);
    RemSmall(p, Top(p), r, 31);
  }

  /** Existence: every word is a multiple of the divisor plus its remainder. */
  lemma {:induction false} Division(p: Word, d: nat, v: Word, i: int, n: nat) returns (q: Word)
    requires d <= i + 1 && n == i + 1 - d
    ensures Below(q, n) && v == Xor(Times(p, q, n), RemFrom(p, d, v, i))
    decreases i
  {
    if i < d {
      q := {};
    } else {
      var v' := Step(p, d, v, i);
      var q' := Division(p, d, v', i - 1, n - 1);
      if i in v {
        q := q' + {n - 1};
        TimesSame(p, q, q', n - 1);
        assert v == Xor(v', Shl(p, n - 1));
      } else {
        q := q';
      }
    }
  }

  lemma {:induction false} TimesSame(p: Word, q: Word, q': Word, n: nat)
    requires forall x :: x < n ==> (x in q <==> x in q')
    ensures Times(p, q, n) == Times(p, q', n)
  {
    if n > 0 {
      TimesSame(p, q, q', n - 1);
    }
  }

  // ---- Shifting ----

  lemma {:induction false} TimesShl(p: Word, q: Word, n: nat)
    ensures Shl(Times(p, q, n), 1) == Times(p, Shl(q, 1), n + 1)
  {
    if n == 0 {
    } else {
      TimesShl(p, q, n - 1);
      assert Shl(Shl(p, n - 1), 1) == Shl(p, n);
      if n - 1 in q {
        assert Shl(Xor(Times(p, q, n - 1), Shl(p, n - 1)), 1) == Xor(Shl(Times(p, q, n - 1), 1), Shl(p, n));
      }
    }
  }

  /** The remainder of a shifted word is that of the shifted remainder. */
  lemma RemShl(p: Word, d: nat, v: Word)
    requires HasTop(p, d) && d <= 31 && Below(v, 31)
    ensures RemFrom(p, d, Shl(v, 1), 31) == RemFrom(p, d, Shl(RemFrom(p, d, v, 31), 1), 31)
  {
    var r := RemFrom(p, d, v, 30);
    RemSkip(p, d, v, 30, 31);
    var q := Division(p, d, v, 30, 31 - d);
    var t := Times(p, q, 31 - d);
    assert Shl(v, 1) == Xor(Shl(t, 1), Shl(r, 1));
    TimesShl(p, q, 31 - d);
    RemLinear(p, d, Shl(t, 1), Shl(r, 1), 31);
    RemMultiple(p, d, Shl(q, 1), 32 - d, 31);
  }

  lemma {:induction false} RemSkip(p: Word, d: nat, v: Word, i: nat, j: nat)
    requires Below(v, i + 1) && i <= j && d <= i + 1
    ensures RemFrom(p, d, v, j) == RemFrom(p, d, v, i)
  {
    if i < j {
      RemSkip(p, d, v, i, j - 1);
    }
  }

  lemma RemAtTop(p: Word, d: nat, v: Word)
    requires HasTop(p, d) && d <= 31 && Below(v, d + 1)
    ensures RemFrom(p, d, v, 31) == if d in v then Xor(v, p) else v
  {
    RemSkip(p, d, v, d, 31);
    assert Shl(p, 0) == p;
    assert RemFrom(p, d, v, d) == RemFrom(p, d, Step(p, d, v, d), d - 1);
  }

  /** A shifted word is a multiple only if the word is, when the divisor has a constant term. */
  lemma MultipleShl(p: Word, d: nat, v: Word)
    requires HasTop(p, d) && d <= 31 && 0 in p && Below(v, 31)
    requires RemFrom(p, d, Shl(v, 1), 31) == {}
    ensures RemFrom(p, d, v, 31) == {}
  {
    var r := RemFrom(p, d, v, 31);
    RemBelow(p, d, v, 31);
    RemShl(p, d, v);
    RemAtTop(p, d, Shl(r, 1));
    assert 0 in Xor(Shl(r, 1), p);
    assert forall x | x in r :: x + 1 in Shl(r, 1);
  }

  lemma {:induction false} ShlSize(w: Word, k: nat)
    ensures |Shl(w, k)| == |w|
    decreases |w|
  {
    if w != {} {
      var x :| x in w;
      ShlSize(w - {x}, k);
      assert Shl(w, k) == Shl(w - {x}, k) + {x + k};
    }
  }

  lemma ShlShr(w: Word)
    requires 0 !in w
    ensures w == Shl(Shr(w, 1), 1)
  {
    hide Shl, Shr;
    forall y | y in w ensures y in Shl(Shr(w, 1), 1) {
      ShrIn(w, 1, y - 1);
    }
    forall y | y in Shl(Shr(w, 1), 1) ensures y in w {
      ShrIn(w, 1, y - 1);
    }
  }

  lemma Halved(w: Word, n: nat) returns (u: Word)
    requires 0 !in w && w != {} && Below(w, n)
    ensures w == Shl(u, 1) && |u| == |w| && u != {} && n >= 1 && Below(u, n - 1)
  {
    hide Shl, Shr;
    u := Shr(w, 1);
    ShlShr(w);
    ShlSize(u, 1);
    var x :| x in w;
    forall y | y in u ensures y < n - 1 {
      ShrIn(w, 1, y);
    }
  }

  /** A code word can be moved down until its lowest bit is bit 0. */
  lemma {:induction false} Lowered(p: Word, d: nat, w: Word, n: nat) returns (v: Word)
    requires HasTop(p, d) && d <= 31 && 0 in p && n <= 31
    requires w != {} && Below(w, n) && RemFrom(p, d, w, 31) == {}
    ensures 0 in v && Below(v, n) && |v| == |w| && RemFrom(p, d, v, 31) == {}
    decreases n
  {
    hide RemFrom, HasTop, Shl;
    if 0 in w {
      v := w;
    } else {
      var u := Halved(w, n);
      MultipleShl(p, d, u);
      v := Lowered(p, d, u, n - 1);
    }
  }
}
