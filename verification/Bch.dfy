/** How far apart the code words of the block codes of frame_decode.c and ida_decode.c are. */
module Bch {

  import opened Gf2
  import opened GaloisField

  const RA: Word := {0, 1, 2, 4, 5, 7, 10}          // 1207, ring alert and broadcast blocks
  const DA: Word := {0, 3, 4, 6, 7, 8, 10, 11}      // 3545, data blocks
  const LCW1: Word := {0, 2, 3, 4}                  // 29
  const LCW2: Word := {0, 4, 6, 7, 8}               // 465
  const LCW3: Word := {0, 3, 5}                     // 41

  /** The number whose bits from k to n are those of a word. */
  function Value(w: Word, k: nat, n: nat): nat
    requires k <= n
    decreases n - k
  {
    if k == n then 0 else (if k in w then 1 else 0) + 2 * Value(w, k + 1, n)
  }

  /** The generators are the numbers given for them. */
  lemma Generators()
    ensures Below(RA, 11) && Value(RA, 0, 11) == 1207 && Below(DA, 12) && Value(DA, 0, 12) == 3545
    ensures Below(LCW1, 5) && Value(LCW1, 0, 5) == 29 && Below(LCW2, 9) && Value(LCW2, 0, 9) == 465
    ensures Below(LCW3, 6) && Value(LCW3, 0, 6) == 41
  {
    hide Value;
    ValueRa();
    ValueDa();
    ValueLcw();
  }

  lemma ValueRa()
    ensures Value(RA, 0, 11) == 1207
  {
    assert Value(RA, 8, 11) == 4;
    assert Value(RA, 4, 11) == 75;
  }

  lemma ValueDa()
    ensures Value(DA, 0, 12) == 3545
  {
    assert Value(DA, 8, 12) == 13;
    assert Value(DA, 4, 12) == 221;
  }

  lemma ValueLcw()
    ensures Value(LCW1, 0, 5) == 29 && Value(LCW2, 0, 9) == 465 && Value(LCW3, 0, 6) == 41
  {
    assert Value(LCW1, 3, 5) == 3;
    assert Value(LCW2, 6, 9) == 7;
    assert Value(LCW2, 3, 9) == 58;
    assert Value(LCW3, 3, 6) == 5;
  }

  /** No word of n bits with fewer than d ones, other than 0, is a code word. */
  ghost predicate Distance(p: Word, n: nat, d: nat) {
    forall w: Word :: w != {} && Below(w, n) && |w| < d ==> Remainder(p, w) != {}
  }

  // ---- Evaluating a word at x^s ----

  function Eval(w: Word, n: nat, s: nat): E {
    if n == 0 then ZERO
    else if n - 1 in w then Add(Eval(w, n - 1, s), Pow(ONE, s, n - 1))
    else Eval(w, n - 1, s)
  }

  lemma EvalStep(w: Word, n: nat, s: nat)
    requires n > 0
    ensures Eval(w, n, s) == if n - 1 in w then Add(Eval(w, n - 1, s), Pow(ONE, s, n - 1)) else Eval(w, n - 1, s)
  {
    hide Add, Pow;
  }

  lemma Gather(a: E, b: E, x: E, p: bool, q: bool)
    ensures Add(if p then Add(a, x) else a, if q then Add(b, x) else b) ==
            if p != q then Add(Add(a, b), x) else Add(a, b)
  {
  }

  lemma {:induction false} EvalAdds(v: Word, w: Word, n: nat, s: nat)
    ensures Eval(Xor(v, w), n, s) == Add(Eval(v, n, s), Eval(w, n, s))
    decreases n, 1
  {
    if n == 0 {
      assert Add(ZERO, ZERO) == ZERO;
    } else {
      EvalAddsStep(v, w, n, s);
    }
  }

  lemma EvalAddsStep(v: Word, w: Word, n: nat, s: nat)
    requires n > 0
    ensures Eval(Xor(v, w), n, s) == Add(Eval(v, n, s), Eval(w, n, s))
    decreases n, 0
  {
    hide Add, Pow, Eval;
    EvalAdds(v, w, n - 1, s);
    EvalStep(v, n, s);
    EvalStep(w, n, s);
    EvalStep(Xor(v, w), n, s);
    Gather(Eval(v, n - 1, s), Eval(w, n - 1, s), Pow(ONE, s, n - 1), n - 1 in v, n - 1 in w);
  }

  lemma {:induction false} EvalBelow(w: Word, m: nat, n: nat, s: nat)
    requires Below(w, m) && m <= n
    ensures Eval(w, n, s) == Eval(w, m, s)
  {
    if m < n {
      EvalBelow(w, m, n - 1, s);
    }
  }

  lemma {:induction false} EvalAbove(w: Word, k: nat, n: nat, s: nat)
    requires n <= k
    ensures Eval(Shl(w, k), n, s) == ZERO
  {
    if n > 0 {
      EvalAbove(w, k, n - 1, s);
    }
  }

  lemma {:induction false} EvalShifted(w: Word, k: nat, n: nat, s: nat)
    ensures Eval(Shl(w, k), n + k, s) == Pow(Eval(w, n, s), s, k)
  {
    hide Add;
    if n == 0 {
      EvalAbove(w, k, k, s);
      PowAdds(ZERO, ZERO, s, k);
    } else {
      EvalShifted(w, k, n - 1, s);
      PowAdds(Eval(w, n - 1, s), Pow(ONE, s, n - 1), s, k);
      PowPow(ONE, s, n - 1, k);
    }
  }

  /** Dividing by a polynomial with the root x^s does not change the value there. */
  lemma {:induction false} EvalRem(p: Word, d: nat, v: Word, i: int, s: nat)
    requires HasTop(p, d) && Eval(p, d + 1, s) == ZERO && i < 32
    ensures Eval(RemFrom(p, d, v, i), 32, s) == Eval(v, 32, s)
    decreases i
  {
    if i >= d {
      EvalRem(p, d, Step(p, d, v, i), i - 1, s);
      if i in v {
        EvalShifted(p, i - d, d + 1, s);
        EvalBelow(Shl(p, i - d), i + 1, 32, s);
        PowAdds(ZERO, ZERO, s, i - d);
        EvalAdds(v, Shl(p, i - d), 32, s);
      }
    }
  }

  // ---- The roots of the code polynomials ----

  lemma CubesTo5()
    ensures Pow(ONE, 3, 1) == E(false, false, false, true, false) &&
            Pow(ONE, 3, 2) == E(false, true, false, false, true)
    ensures Pow(ONE, 3, 4) == E(false, true, true, true, true) && Pow(ONE, 3, 5) == E(false, true, true, false, false)
  {
    PowNext(ONE, 0);
    PowNext(ONE, 1);
    PowNext(ONE, 2);
    PowNext(ONE, 3);
    PowNext(ONE, 4);
  }

  lemma CubesTo10()
    ensures Pow(ONE, 3, 7) == E(true, true, true, false, true) && Pow(ONE, 3, 10) == E(false, false, true, false, true)
  {
    CubesTo5();
    PowNext(ONE, 5);
    PowNext(ONE, 6);
    PowNext(ONE, 7);
    PowNext(ONE, 8);
    PowNext(ONE, 9);
  }

  lemma EvalRa(s: nat)
    ensures Eval(RA, 6, s) ==
            Add(Add(Add(Add(Add(ZERO, ONE), Pow(ONE, s, 1)), Pow(ONE, s, 2)), Pow(ONE, s, 4)), Pow(ONE, s, 5))
    ensures Eval(RA, 11, s) == Add(Add(Eval(RA, 6, s), Pow(ONE, s, 7)), Pow(ONE, s, 10))
  {
    hide Add;
    assert Eval(RA, 1, s) == Add(ZERO, ONE);
    assert Eval(RA, 3, s) == Add(Add(Eval(RA, 1, s), Pow(ONE, s, 1)), Pow(ONE, s, 2));
    assert Eval(RA, 4, s) == Eval(RA, 3, s);
    assert Eval(RA, 6, s) == Add(Add(Eval(RA, 4, s), Pow(ONE, s, 4)), Pow(ONE, s, 5));
    assert Eval(RA, 8, s) == Add(Eval(RA, 6, s), Pow(ONE, s, 7));
    assert Eval(RA, 10, s) == Eval(RA, 8, s);
  }

  /** 1207 has the roots x and x^3. */
  lemma RootsRa()
    ensures Eval(RA, 11, 1) == ZERO && Eval(RA, 11, 3) == ZERO
  {
    hide Eval, Pow;
    EvalRa(1);
    EvalRa(3);
    PowersTo10();
    CubesTo5();
    CubesTo10();
  }

  lemma DaFactors()
    ensures DA == Xor(RA, Shl(RA, 1)) && Below(RA, 11)
  {
    var t: Word := {1, 2, 3, 5, 6, 8, 11};
    assert Shl(RA, 1) == t;
    assert forall x | x in DA :: (x in RA) != (x in t);
  }

  /** 3545 is x + 1 times 1207: it has a root wherever 1207 has one, and at 1. */
  lemma RootsDa(s: nat)
    requires s == 0 || Eval(RA, 11, s) == ZERO
    ensures Eval(DA, 12, s) == ZERO
  {
    DaFactors();
    EvalAdds(RA, Shl(RA, 1), 12, s);
    EvalBelow(RA, 11, 12, s);
    EvalShifted(RA, 1, 11, s);
    hide Eval, Add, Pow;
    PowAdds(ZERO, ZERO, s, 1);
    if s == 0 {
      PowNext(Eval(RA, 11, 0), 0);
    }
    Cancel(Eval(RA, 11, s), Eval(RA, 11, s));
  }

  /** 41 has the root x. */
  lemma RootsLcw3()
    ensures Eval(LCW3, 6, 1) == ZERO
  {
    PowersTo10();
    assert Eval(LCW3, 1, 1) == ONE;
    assert Eval(LCW3, 3, 1) == Eval(LCW3, 1, 1);
    assert Eval(LCW3, 5, 1) == Add(Eval(LCW3, 3, 1), Pow(ONE, 1, 3));
  }

  // ---- Code words as sums of powers ----

  lemma {:induction false} EvalSingle(i: nat, n: nat, s: nat)
    ensures Eval({i}, n, s) == if i < n then Pow(ONE, s, i) else ZERO
  {
    if n > 0 {
      EvalSingle(i, n - 1, s);
      Cancel(Pow(ONE, s, n - 1), ZERO);
    }
  }

  lemma EvalPick(w: Word, i: nat, s: nat)
    requires i in w && i < 32
    ensures Eval(w, 32, s) == Add(Pow(ONE, s, i), Eval(w - {i}, 32, s))
  {
    assert w == Xor({i}, w - {i});
    EvalAdds({i}, w - {i}, 32, s);
    EvalSingle(i, 32, s);
  }

  lemma EvalNone(s: nat)
    ensures Eval({}, 32, s) == ZERO
  {
    EvalBelow({}, 0, 32, s);
  }

  /** Taking one bit out of a word, seen at x and at x^3. */
  lemma Pick(w: Word, i: nat)
    requires i in w && i < 32
    ensures Eval(w, 32, 1) == Add(Pow(ONE, 1, i), Eval(w - {i}, 32, 1))
    ensures Eval(w, 32, 3) == Add(Cube(Pow(ONE, 1, i)), Eval(w - {i}, 32, 3))
  {
    EvalPick(w, i, 1);
    EvalPick(w, i, 3);
    CubeOfPower(i);
  }

  /** At most one bit is left: the rest is an element and its cube. */
  lemma Last(w: Word) returns (t: E)
    requires Below(w, 31) && |w| <= 1
    ensures Eval(w, 32, 1) == t && Eval(w, 32, 3) == Cube(t)
    ensures t == ZERO <==> w == {}
    ensures forall i :: i < 31 && i !in w ==> Pow(ONE, 1, i) != t
  {
    if w == {} {
      t := ZERO;
      EvalNone(1);
      EvalNone(3);
      CubeOfOne();
      forall i | i < 31 ensures Pow(ONE, 1, i) != t { PowersNotZero(i); }
    } else {
      var i :| i in w;
      t := Pow(ONE, 1, i);
      assert w == {i} by { assert |w - {i}| == 0; }
      EvalSingle(i, 32, 1);
      EvalSingle(i, 32, 3);
      CubeOfPower(i);
      PowersNotZero(i);
      forall j | j < 31 && j != i ensures Pow(ONE, 1, j) != t {
        if i < j { PowersDiffer(i, j); } else { PowersDiffer(j, i); }
      }
    }
  }

  lemma Regroup4(x: E, y: E, z: E, t: E)
    ensures Add(x, Add(y, Add(z, t))) == Add(Add(x, y), Add(z, t))
  {
  }

  lemma Differ(i: nat, j: nat)
    requires i < 31 && j < 31 && i != j
    ensures Pow(ONE, 1, i) != Pow(ONE, 1, j)
  {
    if i < j { PowersDiffer(i, j); } else { PowersDiffer(j, i); }
  }

  /** A word of 31 bits with one to four ones is not zero both at x and at x^3. */
  lemma FewOnes(w: Word)
    requires w != {} && Below(w, 31) && |w| <= 4
    ensures Eval(w, 32, 1) != ZERO || Eval(w, 32, 3) != ZERO
  {
    hide Eval, Pow, Add, Cube;
    if |w| == 1 {
      var t := Last(w);
    } else {
      var i :| i in w;
      var u := w - {i};
      Pick(w, i);
      if |u| == 1 {
        var t := Last(u);
        Cancel(Pow(ONE, 1, i), t);
      } else {
        var j :| j in u;
        Pick(u, j);
        Three(w, i, j);
      }
    }
  }

  lemma Three(w: Word, i: nat, j: nat)
    requires Below(w, 31) && 3 <= |w| <= 4 && i in w && j in w && i != j
    ensures Add(Pow(ONE, 1, i), Add(Pow(ONE, 1, j), Eval(w - {i} - {j}, 32, 1))) != ZERO
      || Add(Cube(Pow(ONE, 1, i)), Add(Cube(Pow(ONE, 1, j)), Eval(w - {i} - {j}, 32, 3))) != ZERO
  {
    hide Eval, Pow, Add, Cube;
    var v := w - {i} - {j};
    assert |v| == |w| - 2;
    var k :| k in v;
    Pick(v, k);
    var t := Last(v - {k});
    var x, y, z := Pow(ONE, 1, i), Pow(ONE, 1, j), Pow(ONE, 1, k);
    Regroup4(x, y, z, t);
    Regroup4(Cube(x), Cube(y), Cube(z), Cube(t));
    Differ(i, j);
    Differ(i, k);
    Differ(j, k);
    if Add(Add(x, y), Add(z, t)) == ZERO {
      FourElements(x, y, z, t);
    }
  }

  /** A multiple of a polynomial vanishes where that does. */
  lemma Vanishes(p: Word, d: nat, w: Word, s: nat)
    requires HasTop(p, d) && Top(p) == d && Eval(p, d + 1, s) == ZERO && Remainder(p, w) == {}
    ensures Eval(w, 32, s) == ZERO
  {
    hide Eval, HasTop, Top;
    EvalRem(p, d, w, 31, s);
    EvalNone(s);
  }

  /** 1207 corrects two errors in 31 bits: its code words differ in at least five places. */
  lemma DistanceRa()
    ensures Distance(RA, 31, 5)
  {
    hide Eval, Remainder, HasTop, Top;
    RootsRa();
    TopRa();
    forall w: Word | w != {} && Below(w, 31) && |w| < 5 ensures Remainder(RA, w) != {} {
      FewOnes(w);
      if Remainder(RA, w) == {} {
        Vanishes(RA, 10, w, 1);
        Vanishes(RA, 10, w, 3);
      }
    }
  }

  lemma TopRa()
    ensures HasTop(RA, 10) && Top(RA) == 10 && Below(RA, 32)
  {
    TopIsTop(RA, 31);
  }

  // ---- The even-weight code 3545 ----

  lemma {:induction false} EvalAtOne(w: Word)
    requires Below(w, 32)
    ensures Eval(w, 32, 0) == if |w| % 2 == 1 then ONE else ZERO
    decreases |w|
  {
    if w == {} {
      EvalNone(0);
    } else {
      var i :| i in w;
      EvalPick(w, i, 0);
      EvalAtOne(w - {i});
      PowZero(ONE, i);
      hide Eval, Pow;
    }
  }

  lemma {:induction false} PowZero(a: E, k: nat)
    ensures Pow(a, 0, k) == a
  {
    if k > 0 {
      PowZero(a, k - 1);
    }
  }

  /** Every code word of 3545 has an even number of ones, so its code words differ in at least six places. */
  lemma DistanceDa()
    ensures Distance(DA, 31, 6)
  {
    hide Eval, Remainder, HasTop, Top;
    RootsRa();
    RootsDa(0);
    RootsDa(1);
    RootsDa(3);
    TopDa();
    forall w: Word | w != {} && Below(w, 31) && |w| < 6 ensures Remainder(DA, w) != {} {
      if Remainder(DA, w) == {} {
        Vanishes(DA, 11, w, 0);
        Vanishes(DA, 11, w, 1);
        Vanishes(DA, 11, w, 3);
        EvalAtOne(w);
        if |w| < 5 {
          FewOnes(w);
        }
      }
    }
  }

  lemma TopDa()
    ensures HasTop(DA, 11) && Top(DA) == 11 && Below(DA, 32)
  {
    TopIsTop(DA, 31);
  }

  // ---- The code of the third link control component ----

  lemma TopLcw3()
    ensures HasTop(LCW3, 5) && Top(LCW3) == 5 && Below(LCW3, 32)
  {
    TopIsTop(LCW3, 31);
  }

  /** 41 corrects one error in 26 bits. */
  lemma DistanceLcw3()
    ensures Distance(LCW3, 26, 3)
  {
    RootsLcw3();
    TopLcw3();
    forall w: Word | w != {} && Below(w, 26) && |w| < 3 ensures Remainder(LCW3, w) != {} {
      EvalRem(LCW3, 5, w, 31, 1);
      EvalNone(1);
      var i :| i in w;
      Pick(w, i);
      hide Eval, Pow, Add;
      var t := Last(w - {i});
      Cancel(Pow(ONE, 1, i), t);
    }
  }

  // ---- The codes of the first two link control components ----

  lemma TopLcw1()
    ensures HasTop(LCW1, 4) && Top(LCW1) == 4 && Below(LCW1, 32)
  {
    TopIsTop(LCW1, 31);
  }

  lemma TopLcw2()
    ensures HasTop(LCW2, 8) && Top(LCW2) == 8 && Below(LCW2, 32)
  {
    TopIsTop(LCW2, 31);
  }

  lemma SingleNext(p: Word, d: nat, k: nat)
    requires HasTop(p, d) && Top(p) == d <= 31 && k < 31
    ensures Remainder(p, {k + 1}) == RemFrom(p, d, Shl(Remainder(p, {k}), 1), 31)
  {
    assert Shl({k}, 1) == {k + 1};
    RemShl(p, d, {k});
  }

  /** One step of the table of single-bit remainders. */
  lemma SingleStep(p: Word, d: nat, k: nat)
    requires HasTop(p, d) && Top(p) == d <= 31 && k < 31
    ensures var s := Shl(Remainder(p, {k}), 1);
            Remainder(p, {k + 1}) == if d in s then Xor(s, p) else s
  {
    SingleNext(p, d, k);
    RemBelow(p, d, {k}, 31);
    RemAtTop(p, d, Shl(Remainder(p, {k}), 1));
  }

  lemma SmallSingle(p: Word, d: nat, k: nat)
    requires Top(p) == d && k < d
    ensures Remainder(p, {k}) == {k}
  {
    RemSmall(p, d, {k}, 31);
  }

  lemma Advance(p: Word, d: nat, k: nat, r: Word, r': Word)
    requires HasTop(p, d) && Top(p) == d && 1 <= d <= 31 && k < 31
    requires Remainder(p, {k}) == r
    requires forall x :: x in r' <==> (x >= 1 && x - 1 in r) != (d - 1 in r && x in p)
    ensures Remainder(p, {k + 1}) == r'
  {
    SingleStep(p, d, k);
  }

  lemma SinglesLcw1()
    ensures Remainder(LCW1, {4}) == {0, 2, 3}
    ensures Remainder(LCW1, {5}) == {0, 1, 2}
    ensures Remainder(LCW1, {6}) == {1, 2, 3}
  {
    hide Remainder, HasTop;
    TopLcw1();
    SmallSingle(LCW1, 4, 3);
    Advance(LCW1, 4, 3, {3}, {0, 2, 3});
    Advance(LCW1, 4, 4, {0, 2, 3}, {0, 1, 2});
    Advance(LCW1, 4, 5, {0, 1, 2}, {1, 2, 3});
  }

  lemma SinglesLcw2()
    ensures Remainder(LCW2, {8}) == {0, 4, 6, 7}
    ensures Remainder(LCW2, {9}) == {0, 1, 4, 5, 6}
    ensures Remainder(LCW2, {10}) == {1, 2, 5, 6, 7}
  {
    hide Remainder, HasTop;
    TopLcw2();
    SmallSingle(LCW2, 8, 7);
    Advance(LCW2, 8, 7, {7}, {0, 4, 6, 7});
    Advance(LCW2, 8, 8, {0, 4, 6, 7}, {0, 1, 4, 5, 6});
    Advance(LCW2, 8, 9, {0, 1, 4, 5, 6}, {1, 2, 5, 6, 7});
  }

  lemma MoreSinglesLcw2()
    ensures Remainder(LCW2, {11}) == {0, 2, 3, 4}
    ensures Remainder(LCW2, {12}) == {1, 3, 4, 5}
    ensures Remainder(LCW2, {13}) == {2, 4, 5, 6}
  {
    hide Remainder, HasTop;
    TopLcw2();
    SinglesLcw2();
    Advance(LCW2, 8, 10, {1, 2, 5, 6, 7}, {0, 2, 3, 4});
    Advance(LCW2, 8, 11, {0, 2, 3, 4}, {1, 3, 4, 5});
    Advance(LCW2, 8, 12, {1, 3, 4, 5}, {2, 4, 5, 6});
  }

  lemma LowestBit(p: Word, d: nat, w: Word, n: nat) returns (t: Word)
    requires HasTop(p, d) && Top(p) == d && 1 <= d <= 31 && 0 in p && n <= 31
    requires w != {} && Below(w, n) && |w| < 4 && Remainder(p, w) == {}
    ensures Below(t, n) && 0 !in t && |t| <= 2 && Remainder(p, t) == {0}
  {
    hide HasTop, RemFrom;
    var v := Lowered(p, d, w, n);
    t := v - {0};
    assert v == Xor({0}, t);
    RemLinear(p, d, {0}, t, 31);
    SmallSingle(p, d, 0);
  }

  /** A code polynomial with a constant term has distance four if no one or two bits above bit 0 leave the
      remainder 1. */
  lemma DistanceFour(p: Word, d: nat, n: nat)
    requires HasTop(p, d) && Top(p) == d && 1 <= d <= 31 && 0 in p && n <= 31
    requires forall t: Word :: Below(t, n) && 0 !in t && |t| <= 2 ==> Remainder(p, t) != {0}
    ensures Distance(p, n, 4)
  {
    hide Remainder, HasTop, Top;
    forall w: Word | w != {} && Below(w, n) && |w| < 4 ensures Remainder(p, w) != {} {
      if Remainder(p, w) == {} {
        var t := LowestBit(p, d, w, n);
      }
    }
  }

  lemma TwoBits(p: Word, d: nat, j: nat, k: nat)
    requires Top(p) == d && j != k
    ensures Remainder(p, {j, k}) == Xor(Remainder(p, {j}), Remainder(p, {k}))
  {
    assert {j, k} == Xor({j}, {k});
    RemLinear(p, d, {j}, {k}, 31);
  }

  lemma OneLcw1(j: nat)
    requires 1 <= j < 7
    ensures exists x :: x >= 1 && x in Remainder(LCW1, {j})
  {
    TopLcw1();
    SinglesLcw1();
    hide Remainder, HasTop;
    if j < 4 {
      SmallSingle(LCW1, 4, j);
      assert j in Remainder(LCW1, {j});
    } else {
      assert 2 in Remainder(LCW1, {j});
    }
  }

  lemma PairLcw1(j: nat, k: nat)
    requires 1 <= j < k < 7
    ensures exists x :: x >= 1 && x in Remainder(LCW1, {j, k})
  {
    TopLcw1();
    TwoBits(LCW1, 4, j, k);
    SinglesLcw1();
    hide Remainder, HasTop;
    var r := Remainder(LCW1, {j, k});
    if j < 4 {
      SmallSingle(LCW1, 4, j);
      if k < 4 {
        SmallSingle(LCW1, 4, k);
        assert j in r;
      } else {
        assert 1 in r || 2 in r || 3 in r;
      }
    } else {
      assert 1 in r || 2 in r || 3 in r;
    }
  }

  lemma TwoElements(t: Word) returns (j: nat, k: nat)
    requires |t| == 2
    ensures j < k && t == {j, k}
  {
    j :| j in t;
    var u := t - {j};
    assert |u| == 1;
    k :| k in u;
    assert |u - {k}| == 0;
    if k < j {
      j, k := k, j;
    }
  }

  lemma OneElement(t: Word) returns (j: nat)
    requires |t| == 1
    ensures t == {j}
  {
    j :| j in t;
    assert |t - {j}| == 0;
  }

  /** 29 corrects one error in seven bits and notices two. */
  lemma DistanceLcw1()
    ensures Distance(LCW1, 7, 4)
  {
    TopLcw1();
    hide Remainder, HasTop, Top;
    forall t: Word | Below(t, 7) && 0 !in t && |t| <= 2 ensures Remainder(LCW1, t) != {0} {
      if |t| == 1 {
        var j := OneElement(t);
        OneLcw1(j);
      } else if |t| == 2 {
        var j, k := TwoElements(t);
        PairLcw1(j, k);
      } else {
        RemEmpty(LCW1);
      }
    }
    DistanceFour(LCW1, 4, 7);
  }

  lemma RemEmpty(p: Word)
    ensures Remainder(p, {}) == {}
  {
    RemZero(p, Top(p), 31);
  }

  lemma OneLcw2(j: nat)
    requires 1 <= j < 14
    ensures exists x :: x >= 1 && x in Remainder(LCW2, {j})
  {
    TopLcw2();
    SinglesLcw2();
    MoreSinglesLcw2();
    hide Remainder, HasTop;
    if j < 8 {
      SmallSingle(LCW2, 8, j);
      assert j in Remainder(LCW2, {j});
    } else {
      assert 4 in Remainder(LCW2, {j}) || 5 in Remainder(LCW2, {j});
    }
  }

  lemma LowHighLcw2(j: nat, k: nat)
    requires 1 <= j < 8 <= k < 14
    ensures exists x :: x >= 1 && x in Remainder(LCW2, {j, k})
  {
    TopLcw2();
    TwoBits(LCW2, 8, j, k);
    SinglesLcw2();
    MoreSinglesLcw2();
    SmallSingle(LCW2, 8, j);
    hide Remainder, HasTop;
    var r := Remainder(LCW2, {j, k});
    if k == 8 || k == 11 || k == 9 {
      assert 4 in r || 6 in r || 2 in r;
    } else {
      assert 5 in r || 6 in r || 4 in r;
    }
  }

  lemma HighLcw2(j: nat, k: nat)
    requires 8 <= j < k < 14
    ensures exists x :: x >= 1 && x in Remainder(LCW2, {j, k})
  {
    TopLcw2();
    TwoBits(LCW2, 8, j, k);
    SinglesLcw2();
    MoreSinglesLcw2();
    hide Remainder, HasTop;
    var r := Remainder(LCW2, {j, k});
    assert 1 in r || 2 in r || 3 in r || 4 in r || 5 in r || 6 in r || 7 in r;
  }

  lemma LowLcw2(j: nat, k: nat)
    requires 1 <= j < k < 8
    ensures exists x :: x >= 1 && x in Remainder(LCW2, {j, k})
  {
    TopLcw2();
    TwoBits(LCW2, 8, j, k);
    SmallSingle(LCW2, 8, j);
    SmallSingle(LCW2, 8, k);
    assert j in Remainder(LCW2, {j, k});
  }

  /** 465 corrects one error in fourteen bits and notices two. */
  lemma DistanceLcw2()
    ensures Distance(LCW2, 14, 4)
  {
    TopLcw2();
    hide Remainder, HasTop, Top;
    forall t: Word | Below(t, 14) && 0 !in t && |t| <= 2 ensures Remainder(LCW2, t) != {0} {
      if |t| == 1 {
        var j := OneElement(t);
        OneLcw2(j);
      } else if |t| == 2 {
        var j, k := TwoElements(t);
        if k < 8 { LowLcw2(j, k); } else if j < 8 { LowHighLcw2(j, k); } else { HighLcw2(j, k); }
      } else {
        RemEmpty(LCW2);
      }
    }
    DistanceFour(LCW2, 8, 14);
  }
}
