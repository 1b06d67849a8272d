/** The field of 32 elements, as polynomials of degree under five modulo x^5 + x^3 + 1, and the two facts about
    it that make a double-error-correcting code of length 31. */
module GaloisField {

  datatype E = E(e0: bool, e1: bool, e2: bool, e3: bool, e4: bool)

  const ZERO := E(false, false, false, false, false)
  const ONE := E(true, false, false, false, false)

  function Add(a: E, b: E): E {
    E(a.e0 != b.e0, a.e1 != b.e1, a.e2 != b.e2, a.e3 != b.e3, a.e4 != b.e4)
  }

  /** Multiplication by x. */
  function X(a: E): E {
    E(a.e4, a.e0, a.e1, a.e2 != a.e4, a.e3)
  }

  function Horner(a: E, t: bool, u: E): E {
    Add(if t then a else ZERO, X(u))
  }

  function Mul(a: E, b: E): E {
    Horner(a, b.e0, Horner(a, b.e1, Horner(a, b.e2, Horner(a, b.e3, Horner(a, b.e4, ZERO)))))
  }

  function Cube(a: E): E {
    Mul(a, Mul(a, a))
  }

  /** x^s times a. */
  function Turn(a: E, s: nat): E {
    if s == 0 then a else X(Turn(a, s - 1))
  }

  /** x^(s k) times a. */
  function Pow(a: E, s: nat, k: nat): E {
    if k == 0 then a else Turn(Pow(a, s, k - 1), s)
  }

  // ---- Sums ----

  lemma Swap(a: E, b: E, c: E, d: E)
    ensures Add(Add(a, b), Add(c, d)) == Add(Add(a, c), Add(b, d))
  {
  }

  lemma Cancel(a: E, b: E)
    ensures Add(a, b) == ZERO <==> a == b
    ensures Add(a, ZERO) == a && Add(ZERO, a) == a
  {
  }

  lemma XAdds(a: E, b: E)
    ensures X(Add(a, b)) == Add(X(a), X(b))
  {
  }

  // ---- Multiplication is bilinear, associative and commutative ----

  lemma HornerRight(a: E, s: bool, t: bool, u: E, v: E)
    ensures Horner(a, s != t, Add(u, v)) == Add(Horner(a, s, u), Horner(a, t, v))
  {
    hide X, Add;
    XAdds(u, v);
    Swap(if s then a else ZERO, X(u), if t then a else ZERO, X(v));
    Cancel(a, a);
    Cancel(ZERO, ZERO);
  }

  lemma HornerLeft(a: E, b: E, t: bool, u: E, v: E)
    ensures Horner(Add(a, b), t, Add(u, v)) == Add(Horner(a, t, u), Horner(b, t, v))
  {
    hide X, Add;
    XAdds(u, v);
    Swap(if t then a else ZERO, X(u), if t then b else ZERO, X(v));
    Cancel(ZERO, ZERO);
  }

  lemma HornerX(a: E, t: bool, u: E)
    ensures Horner(X(a), t, X(u)) == X(Horner(a, t, u))
  {
  }

  lemma MulRight(a: E, b: E, c: E)
    ensures Mul(a, Add(b, c)) == Add(Mul(a, b), Mul(a, c))
  {
    hide Horner;
    var u4, v4 := Horner(a, b.e4, ZERO), Horner(a, c.e4, ZERO);
    var u3, v3 := Horner(a, b.e3, u4), Horner(a, c.e3, v4);
    var u2, v2 := Horner(a, b.e2, u3), Horner(a, c.e2, v3);
    var u1, v1 := Horner(a, b.e1, u2), Horner(a, c.e1, v2);
    Cancel(ZERO, ZERO);
    HornerRight(a, b.e4, c.e4, ZERO, ZERO);
    HornerRight(a, b.e3, c.e3, u4, v4);
    HornerRight(a, b.e2, c.e2, u3, v3);
    HornerRight(a, b.e1, c.e1, u2, v2);
    HornerRight(a, b.e0, c.e0, u1, v1);
  }

  lemma MulLeft(a: E, b: E, c: E)
    ensures Mul(Add(a, b), c) == Add(Mul(a, c), Mul(b, c))
  {
    hide Horner, Add;
    var u4, v4 := Horner(a, c.e4, ZERO), Horner(b, c.e4, ZERO);
    var u3, v3 := Horner(a, c.e3, u4), Horner(b, c.e3, v4);
    var u2, v2 := Horner(a, c.e2, u3), Horner(b, c.e2, v3);
    var u1, v1 := Horner(a, c.e1, u2), Horner(b, c.e1, v2);
    Cancel(ZERO, ZERO);
    HornerLeft(a, b, c.e4, ZERO, ZERO);
    HornerLeft(a, b, c.e3, u4, v4);
    HornerLeft(a, b, c.e2, u3, v3);
    HornerLeft(a, b, c.e1, u2, v2);
    HornerLeft(a, b, c.e0, u1, v1);
  }

  lemma MulXLeft(a: E, b: E)
    ensures Mul(X(a), b) == X(Mul(a, b))
  {
    var u4 := Horner(a, b.e4, ZERO);
    var u3 := Horner(a, b.e3, u4);
    var u2 := Horner(a, b.e2, u3);
    var u1 := Horner(a, b.e1, u2);
    assert X(ZERO) == ZERO;
    hide Horner, X;
    HornerX(a, b.e4, ZERO);
    HornerX(a, b.e3, u4);
    HornerX(a, b.e2, u3);
    HornerX(a, b.e1, u2);
    HornerX(a, b.e0, u1);
  }

  lemma MulTop(a: E)
    ensures Mul(a, X(E(false, false, false, false, true))) == X(Mul(a, E(false, false, false, false, true)))
  {
  }

  lemma MulLow(a: E, b: E)
    requires !b.e4
    ensures Mul(a, X(b)) == X(Mul(a, b))
  {
    hide Add;
    Cancel(ZERO, ZERO);
    Cancel(X(ZERO), ZERO);
    Cancel(X(Mul(a, b)), ZERO);
  }

  lemma MulXRight(a: E, b: E)
    ensures Mul(a, X(b)) == X(Mul(a, b))
  {
    var low, top := b.(e4 := false), E(false, false, false, false, true);
    MulLow(a, low);
    if b.e4 {
      assert b == Add(low, top) && X(b) == Add(X(low), X(top));
      MulTop(a);
      MulRight(a, low, top);
      MulRight(a, X(low), X(top));
      XAdds(Mul(a, low), Mul(a, top));
    } else {
      assert b == low;
    }
  }

  lemma MulHorner(a: E, b: E, t: bool, u: E)
    ensures Mul(a, Horner(b, t, u)) == Horner(Mul(a, b), t, Mul(a, u))
  {
    MulRight(a, if t then b else ZERO, X(u));
    MulXRight(a, u);
    MulZero(a);
    hide X, Add, Mul;
  }

  lemma HornerMul(t: bool, u: E, b: E)
    ensures Mul(Horner(ONE, t, u), b) == Horner(b, t, Mul(u, b))
  {
    MulLeft(if t then ONE else ZERO, X(u), b);
    MulXLeft(u, b);
    MulOne(b);
    hide X, Add, Mul;
  }

  lemma MulZero(a: E)
    ensures Mul(a, ZERO) == ZERO
  {
  }

  lemma MulOne(a: E)
    ensures Mul(ONE, a) == a && Mul(ZERO, a) == ZERO
  {
  }

  lemma Associative(a: E, b: E, c: E)
    ensures Mul(a, Mul(b, c)) == Mul(Mul(a, b), c)
  {
    hide Horner;
    var u4 := Horner(b, c.e4, ZERO);
    var u3 := Horner(b, c.e3, u4);
    var u2 := Horner(b, c.e2, u3);
    var u1 := Horner(b, c.e1, u2);
    MulZero(a);
    MulHorner(a, b, c.e4, ZERO);
    MulHorner(a, b, c.e3, u4);
    MulHorner(a, b, c.e2, u3);
    MulHorner(a, b, c.e1, u2);
    MulHorner(a, b, c.e0, u1);
  }

  lemma Commutative(a: E, b: E)
    ensures Mul(a, b) == Mul(b, a)
  {
    hide Horner;
    var u4 := Horner(ONE, a.e4, ZERO);
    var u3 := Horner(ONE, a.e3, u4);
    var u2 := Horner(ONE, a.e2, u3);
    var u1 := Horner(ONE, a.e1, u2);
    MulOne(a);
    MulOne(b);
    HornerMul(a.e4, ZERO, b);
    HornerMul(a.e3, u4, b);
    HornerMul(a.e2, u3, b);
    HornerMul(a.e1, u2, b);
    HornerMul(a.e0, u1, b);
  }

  lemma NoZeroDivisor(a: E, b: E)
    requires Mul(a, b) == ZERO
    ensures a == ZERO || b == ZERO
  {
  }

  // ---- Cubes ----

  /** Squaring is additive, since twice anything is zero. */
  lemma SquareAdds(a: E, b: E)
    ensures Mul(Add(a, b), Add(a, b)) == Add(Mul(a, a), Mul(b, b))
  {
    MulLeft(a, b, Add(a, b));
    MulRight(a, a, b);
    MulRight(b, a, b);
    Commutative(a, b);
    hide Mul;
  }

  /** The cross terms of a cubed sum. */
  function Cross(a: E, b: E): E {
    Add(Mul(a, Mul(b, b)), Mul(b, Mul(a, a)))
  }

  lemma CubeAdds(x: E, a: E)
    ensures Add(Cube(x), Cube(Add(x, a))) == Add(Cube(a), Cross(x, a))
  {
    var xx, aa := Mul(x, x), Mul(a, a);
    SquareAdds(x, a);
    MulLeft(x, a, Add(xx, aa));
    MulRight(x, xx, aa);
    MulRight(a, xx, aa);
    hide Mul;
    hide Add;
    CubeSum(Mul(x, xx), Mul(x, aa), Mul(a, xx), Mul(a, aa));
  }

  lemma CubeSum(p: E, q: E, r: E, s: E)
    ensures Add(p, Add(Add(p, q), Add(r, s))) == Add(s, Add(q, r))
  {
  }

  lemma CrossAdds(a: E, b: E, x: E)
    ensures Cross(Add(a, b), x) == Add(Cross(a, x), Cross(b, x))
  {
    SquareAdds(a, b);
    MulLeft(a, b, Mul(x, x));
    MulRight(x, Mul(a, a), Mul(b, b));
    hide Mul;
    Swap(Mul(a, Mul(x, x)), Mul(b, Mul(x, x)), Mul(x, Mul(a, a)), Mul(x, Mul(b, b)));
  }

  lemma CrossZero(a: E, b: E)
    requires Cross(a, b) == ZERO
    ensures a == ZERO || b == ZERO || a == b
  {
    var p := Mul(a, b);
    Associative(a, b, b);
    Associative(b, a, a);
    Commutative(a, b);
    MulRight(p, b, a);
    hide Mul;
    NoZeroDivisor(p, Add(b, a));
    Cancel(b, a);
    if p == ZERO {
      NoZeroDivisor(a, b);
    }
  }

  /** Four different elements never have both their sum and the sum of their cubes zero. */
  lemma FourElements(x: E, y: E, z: E, w: E)
    requires x != y && x != z && y != z
    requires Add(Add(x, y), Add(z, w)) == ZERO
    ensures Add(Add(Cube(x), Cube(y)), Add(Cube(z), Cube(w))) != ZERO
  {
    var a := Add(x, y);
    FourSum(x, y, z, w);
    hide Add, Mul;
    CubeAdds(x, a);
    CubeAdds(z, a);
    CrossAdds(x, z, a);
    Swap(Cube(a), Cross(x, a), Cube(a), Cross(z, a));
    Cancel(Cube(a), Cube(a));
    Cancel(Cross(Add(x, z), a), ZERO);
    Cancel(x, y);
    Cancel(x, z);
    if Cross(Add(x, z), a) == ZERO {
      CrossZero(Add(x, z), a);
    }
  }

  lemma FourSum(x: E, y: E, z: E, w: E)
    requires Add(Add(x, y), Add(z, w)) == ZERO
    ensures y == Add(x, Add(x, y)) && w == Add(z, Add(x, y)) && (Add(x, z) == Add(x, y) ==> y == z)
  {
  }

  lemma SquareX(a: E)
    ensures Mul(X(a), X(a)) == X(X(Mul(a, a)))
  {
    MulXLeft(a, X(a));
    MulXRight(a, a);
  }

  lemma CubeX(a: E)
    ensures Cube(X(a)) == Turn(Cube(a), 3)
  {
    hide Mul, X;
    SquareX(a);
    MulXLeft(a, X(X(Mul(a, a))));
    MulXRight(a, X(Mul(a, a)));
    MulXRight(a, Mul(a, a));
    assert Turn(Cube(a), 1) == X(Cube(a));
  }

  lemma {:induction false} CubeOfPower(k: nat)
    ensures Cube(Pow(ONE, 1, k)) == Pow(ONE, 3, k)
  {
    hide Mul, Cube, X;
    if k == 0 {
      CubeOfOne();
    } else {
      CubeOfPower(k - 1);
      CubeX(Pow(ONE, 1, k - 1));
      assert Pow(ONE, 1, k) == X(Turn(Pow(ONE, 1, k - 1), 0));
    }
  }

  lemma CubeOfOne()
    ensures Cube(ONE) == ONE && Cube(ZERO) == ZERO
  {
    MulOne(ONE);
    MulOne(ZERO);
    hide Mul;
  }

  // ---- The powers of x ----

  lemma {:induction false} TurnAdds(a: E, b: E, s: nat)
    ensures Turn(Add(a, b), s) == Add(Turn(a, s), Turn(b, s)) && Turn(ZERO, s) == ZERO
  {
    if s > 0 {
      TurnAdds(a, b, s - 1);
      XAdds(Turn(a, s - 1), Turn(b, s - 1));
    }
  }

  lemma {:induction false} PowAdds(a: E, b: E, s: nat, k: nat)
    ensures Pow(Add(a, b), s, k) == Add(Pow(a, s, k), Pow(b, s, k)) && Pow(ZERO, s, k) == ZERO
  {
    if k > 0 {
      PowAdds(a, b, s, k - 1);
      TurnAdds(Pow(a, s, k - 1), Pow(b, s, k - 1), s);
    }
  }

  lemma {:induction false} PowPow(a: E, s: nat, k: nat, n: nat)
    ensures Pow(a, s, k + n) == Pow(Pow(a, s, k), s, n)
  {
    if n > 0 {
      PowPow(a, s, k, n - 1);
    }
  }

  lemma {:induction false} PowInjective(a: E, b: E, k: nat)
    requires Pow(a, 1, k) == Pow(b, 1, k)
    ensures a == b
  {
    if k > 0 {
      var u, v := Pow(a, 1, k - 1), Pow(b, 1, k - 1);
      assert X(Turn(u, 0)) == X(Turn(v, 0));
      PowInjective(a, b, k - 1);
    }
  }

  lemma PowNext(a: E, k: nat)
    ensures Pow(a, 1, k + 1) == X(Pow(a, 1, k)) && Pow(a, 3, k + 1) == X(X(X(Pow(a, 3, k)))) &&
            Pow(a, 0, k + 1) == Pow(a, 0, k)
  {
    assert Turn(Pow(a, 1, k), 1) == X(Turn(Pow(a, 1, k), 0));
    assert Turn(Pow(a, 3, k), 2) == X(Turn(Pow(a, 3, k), 1));
  }

  lemma PowersTo10()
    ensures Pow(ONE, 1, 1) == E(false, true, false, false, false) &&
            Pow(ONE, 1, 2) == E(false, false, true, false, false)
    ensures Pow(ONE, 1, 3) == E(false, false, false, true, false) &&
            Pow(ONE, 1, 4) == E(false, false, false, false, true)
    ensures Pow(ONE, 1, 5) == E(true, false, false, true, false) && Pow(ONE, 1, 6) == E(false, true, false, false, true)
    ensures Pow(ONE, 1, 7) == E(true, false, true, true, false) && Pow(ONE, 1, 8) == E(false, true, false, true, true)
    ensures Pow(ONE, 1, 9) == E(true, false, true, true, true) && Pow(ONE, 1, 10) == E(true, true, false, false, true)
  {
    PowNext(ONE, 0);
    PowNext(ONE, 1);
    PowNext(ONE, 2);
    PowNext(ONE, 3);
    PowNext(ONE, 4);
    PowNext(ONE, 5);
    PowNext(ONE, 6);
    PowNext(ONE, 7);
    PowNext(ONE, 8);
    PowNext(ONE, 9);
  }

  lemma PowersTo20()
    ensures Pow(ONE, 1, 11) == E(true, true, true, true, false) && Pow(ONE, 1, 12) == E(false, true, true, true, true)
    ensures Pow(ONE, 1, 13) == E(true, false, true, false, true) &&
            Pow(ONE, 1, 14) == E(true, true, false, false, false)
    ensures Pow(ONE, 1, 15) == E(false, true, true, false, false) &&
            Pow(ONE, 1, 16) == E(false, false, true, true, false)
    ensures Pow(ONE, 1, 17) == E(false, false, false, true, true) &&
            Pow(ONE, 1, 18) == E(true, false, false, true, true)
    ensures Pow(ONE, 1, 19) == E(true, true, false, true, true) && Pow(ONE, 1, 20) == E(true, true, true, true, true)
  {
    PowersTo10();
    PowNext(ONE, 10);
    PowNext(ONE, 11);
    PowNext(ONE, 12);
    PowNext(ONE, 13);
    PowNext(ONE, 14);
    PowNext(ONE, 15);
    PowNext(ONE, 16);
    PowNext(ONE, 17);
    PowNext(ONE, 18);
    PowNext(ONE, 19);
  }

  lemma PowersTo30()
    ensures Pow(ONE, 1, 21) == E(true, true, true, false, true) && Pow(ONE, 1, 22) == E(true, true, true, false, false)
    ensures Pow(ONE, 1, 23) == E(false, true, true, true, false) && Pow(ONE, 1, 24) == E(false, false, true, true, true)
    ensures Pow(ONE, 1, 25) == E(true, false, false, false, true) &&
            Pow(ONE, 1, 26) == E(true, true, false, true, false)
    ensures Pow(ONE, 1, 27) == E(false, true, true, false, true) &&
            Pow(ONE, 1, 28) == E(true, false, true, false, false)
    ensures Pow(ONE, 1, 29) == E(false, true, false, true, false) &&
            Pow(ONE, 1, 30) == E(false, false, true, false, true)
  {
    PowersTo20();
    PowNext(ONE, 20);
    PowNext(ONE, 21);
    PowNext(ONE, 22);
    PowNext(ONE, 23);
    PowNext(ONE, 24);
    PowNext(ONE, 25);
    PowNext(ONE, 26);
    PowNext(ONE, 27);
    PowNext(ONE, 28);
    PowNext(ONE, 29);
  }

  /** x has order 31. */
  lemma Order(k: nat)
    requires 1 <= k <= 30
    ensures Pow(ONE, 1, k) != ONE
  {
    PowersTo10();
    PowersTo20();
    PowersTo30();
    hide Pow;
  }

  lemma PowersDiffer(i: nat, j: nat)
    requires i < j < 31
    ensures Pow(ONE, 1, i) != Pow(ONE, 1, j)
  {
    if Pow(ONE, 1, i) == Pow(ONE, 1, j) {
      PowPow(ONE, 1, j - i, i);
      PowInjective(Pow(ONE, 1, j - i), ONE, i);
      Order(j - i);
    }
  }

  lemma PowersNotZero(i: nat)
    ensures Pow(ONE, 1, i) != ZERO
  {
    if Pow(ONE, 1, i) == ZERO {
      PowAdds(ZERO, ZERO, 1, i);
      PowInjective(ONE, ZERO, i);
    }
  }
}
