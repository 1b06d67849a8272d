/** Facts about remainders that the circular buffers need. */
module Modulo {

  lemma MulAtLeast(d: int, c: nat)
    requires d >= 1
    ensures d * c >= c
  {
    assert (d - 1) * c >= 0;
  }

  lemma MulSmall(d: int, c: nat)
    requires 0 - c < d * c < c
    ensures d == 0
  {
    if d >= 1 {
      MulAtLeast(d, c);
    } else if d <= -1 {
      MulAtLeast(-d, c);
    }
  }

  /** Quotient and remainder are unique. */
  lemma ModUnique(x: nat, c: nat, q: nat, r: nat)
    requires c > 0 && x == q * c + r && r < c
    ensures x % c == r
  {
    var d := x / c - q;
    assert x == (x / c) * c + x % c;
    assert d * c == (x / c) * c - q * c;
    MulSmall(d, c);
  }

  lemma ModShift(x: nat, c: nat)
    requires c > 0
    ensures (x + c) % c == x % c
  {
    assert (x / c + 1) * c == (x / c) * c + c;
    ModUnique(x + c, c, x / c + 1, x % c);
  }

  lemma ModAddOne(x: nat, c: nat)
    requires c > 0
    ensures (x % c + 1) % c == (x + 1) % c
  {
    ModAdd(x, 1, c);
  }

  lemma ModAdd(x: nat, y: nat, c: nat)
    requires c > 0
    ensures (x % c + y) % c == (x + y) % c
  {
    var z := x % c + y;
    assert z == (z / c) * c + z % c && x == (x / c) * c + x % c;
    assert (x / c + z / c) * c == (x / c) * c + (z / c) * c;
    ModUnique(x + y, c, x / c + z / c, z % c);
  }

  lemma SameSlot(a: nat, b: nat, size: nat)
    requires size > 0 && a <= b < a + size && a % size == b % size
    ensures a == b
  {
    assert a == (a / size) * size + a % size && b == (b / size) * size + b % size;
    var d := b / size - a / size;
    assert d * size == (b / size) * size - (a / size) * size;
    MulSmall(d, size);
  }
}
