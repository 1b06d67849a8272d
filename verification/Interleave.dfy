/** De-interleaving: which input bit each output bit is (de_interleave, de_interleave3 and their soft twins in
    frame_decode.c, de_interleave_n and de_interleave_llr_n in ida_decode.c). */
module Interleave {

  /** Bit j of stream r, when n two-bit symbols are dealt backwards into q streams. */
  function Source(n: nat, q: nat, r: nat, j: nat): int
    requires q > 0
  {
    2 * (n - 1 - r - q * (j / 2)) + j % 2
  }

  predicate Shape(n: nat, q: nat, r: nat) {
    (q == 2 || q == 3) && n % q == 0 && r < q
  }

  /** The number of bits in each stream. */
  function Length(n: nat, q: nat): nat
    requires q > 0
  {
    2 * (n / q)
  }

  lemma SourceInRange(n: nat, q: nat, r: nat, j: nat)
    requires Shape(n, q, r) && j < Length(n, q)
    ensures 0 <= Source(n, q, r, j) < 2 * n
  {
  }

  /** Stream r of the de-interleaved input. */
  function Stream<T>(input: seq<T>, n: nat, q: nat, r: nat): (s: seq<T>)
    requires Shape(n, q, r) && |input| >= 2 * n
    ensures |s| == Length(n, q)
  {
    seq(Length(n, q), j requires 0 <= j < Length(n, q) => SourceInRange(n, q, r, j); input[Source(n, q, r, j)])
  }

  lemma StreamAt<T>(input: seq<T>, n: nat, q: nat, r: nat, j: nat)
    requires Shape(n, q, r) && |input| >= 2 * n && j < Length(n, q)
    ensures 0 <= Source(n, q, r, j) < 2 * n && Stream(input, n, q, r)[j] == input[Source(n, q, r, j)]
  {
    hide Source, Length;
    SourceInRange(n, q, r, j);
  }

  lemma SourcePair(n: nat, q: nat, r: nat, t: nat)
    requires q > 0
    ensures Source(n, q, r, 2 * t) == 2 * (n - 1 - r - q * t) &&
            Source(n, q, r, 2 * t + 1) == 2 * (n - 1 - r - q * t) + 1
  {
    Halves(t, 0);
    Halves(t, 1);
  }

  lemma PairFits(n: nat, q: nat, r: nat, t: nat)
    requires Shape(n, q, r) && n - 1 - r - q * t >= q - 1 - r
    ensures 2 * t + 1 < Length(n, q)
  {
    Parts(n, q);
  }

  /** The t-th symbol of a stream. */
  lemma StreamPair<T>(input: seq<T>, n: nat, q: nat, r: nat, t: nat)
    requires Shape(n, q, r) && |input| >= 2 * n && n - 1 - r - q * t >= q - 1 - r
    ensures 2 * t + 1 < Length(n, q)
    ensures var s := n - 1 - r - q * t;
            s >= 0 && Stream(input, n, q, r)[2 * t] == input[2 * s] &&
              Stream(input, n, q, r)[2 * t + 1] == input[2 * s + 1]
  {
    hide Source, Length, Stream;
    PairFits(n, q, r, t);
    StreamAt(input, n, q, r, 2 * t);
    StreamAt(input, n, q, r, 2 * t + 1);
    SourcePair(n, q, r, t);
  }

  lemma StreamEnds<T>(input: seq<T>, n: nat, q: nat, r: nat, t: nat)
    requires Shape(n, q, r) && |input| >= 2 * n && n - 1 - r - q * t < q - 1 - r && 2 * t <= Length(n, q)
    ensures 2 * t == Length(n, q) == |Stream(input, n, q, r)|
  {
    Parts(n, q);
  }

  /** One of the de-interleaving loops: symbols from the end, every q-th, two bits each. */
  method Deal<T>(input: seq<T>, n: nat, q: nat, r: nat, out: array<T>)
    requires Shape(n, q, r) && |input| >= 2 * n && out.Length >= Length(n, q)
    modifies out
    ensures out[..Length(n, q)] == Stream(input, n, q, r)
    ensures forall j :: Length(n, q) <= j < out.Length ==> out[j] == old(out[j])
  {
    hide Stream, Source;
    var s, p := n - 1 - r, 0;
    ghost var t := 0;
    while s >= q - 1 - r
      invariant 0 <= p <= Length(n, q) && p == 2 * t && s == n - 1 - r - q * t
      invariant forall j :: 0 <= j < p ==> out[j] == Stream(input, n, q, r)[j]
      invariant forall j :: Length(n, q) <= j < out.Length ==> out[j] == old(out[j])
    {
      StreamPair(input, n, q, r, t);
      out[p] := input[2 * s];
      out[p + 1] := input[2 * s + 1];
      p, s, t := p + 2, s - q, t + 1;
    }
    StreamEnds(input, n, q, r, t);
  }

  /** The two-way de-interleaver. */
  method DeInterleave<T>(input: seq<T>, n: nat, out1: array<T>, out2: array<T>)
    requires n % 2 == 0 && |input| >= 2 * n && out1.Length >= n && out2.Length >= n && out1 != out2
    modifies out1, out2
    ensures out1[..n] == Stream(input, n, 2, 0) && out2[..n] == Stream(input, n, 2, 1)
  {
    Deal(input, n, 2, 0, out1);
    Deal(input, n, 2, 1, out2);
  }

  /** The three-way de-interleaver for 48 symbols. */
  method DeInterleave3<T>(input: seq<T>, out1: array<T>, out2: array<T>, out3: array<T>)
    requires |input| >= 96 && out1.Length >= 32 && out2.Length >= 32 && out3.Length >= 32
    requires out1 != out2 && out1 != out3 && out2 != out3
    modifies out1, out2, out3
    ensures out1[..32] == Stream(input, 48, 3, 0) && out2[..32] == Stream(input, 48, 3, 1) &&
            out3[..32] == Stream(input, 48, 3, 2)
  {
    Deal(input, 48, 3, 0, out1);
    Deal(input, 48, 3, 1, out2);
    Deal(input, 48, 3, 2, out3);
  }

  // ---- Every input bit goes to exactly one place ----

  /** Where input bit i goes: its stream and its place there. */
  function StreamOf(n: nat, q: nat, i: nat): nat
    requires q > 0 && i < 2 * n
  {
    (n - 1 - i / 2) % q
  }

  function PlaceOf(n: nat, q: nat, i: nat): nat
    requires q > 0 && i < 2 * n
  {
    2 * ((n - 1 - i / 2) / q) + i % 2
  }

  lemma Halves(t: nat, b: nat)
    requires b < 2
    ensures (2 * t + b) / 2 == t && (2 * t + b) % 2 == b
  {
  }

  lemma Parts(x: nat, q: nat)
    requires q == 2 || q == 3
    ensures x == q * (x / q) + x % q && x % q < q
  {
  }

  lemma Fewer(n: nat, q: nat, u: nat)
    requires (q == 2 || q == 3) && n % q == 0 && u < n
    ensures u / q < n / q
  {
    Parts(n, q);
    Parts(u, q);
  }

  lemma Everywhere(n: nat, q: nat, i: nat)
    requires Shape(n, q, 0) && i < 2 * n
    ensures StreamOf(n, q, i) < q && PlaceOf(n, q, i) < Length(n, q)
    ensures Source(n, q, StreamOf(n, q, i), PlaceOf(n, q, i)) == i
  {
    hide Source;
    var u := n - 1 - i / 2;
    Parts(i, 2);
    Parts(u, q);
    Fewer(n, q, u);
    SourcePair(n, q, u % q, u / q);
  }

  lemma Backwards(r: nat, q: nat, t: nat)
    requires (q == 2 || q == 3) && r < q
    ensures (r + q * t) / q == t && (r + q * t) % q == r
  {
  }

  lemma OnlyOnce(n: nat, q: nat, r: nat, j: nat)
    requires Shape(n, q, r) && j < Length(n, q)
    ensures 0 <= Source(n, q, r, j) < 2 * n
    ensures StreamOf(n, q, Source(n, q, r, j)) == r && PlaceOf(n, q, Source(n, q, r, j)) == j
  {
    var t, b := j / 2, j % 2;
    SourceInRange(n, q, r, j);
    Parts(j, 2);
    Halves(n - 1 - r - q * t, b);
    Backwards(r, q, t);
  }

  /** The sender's two-way interleaver. */
  function Mix<T>(first: seq<T>, second: seq<T>, n: nat): seq<T>
    requires n % 2 == 0 && |first| == n && |second| == n
  {
    seq(2 * n, i requires 0 <= i < 2 * n =>
      Everywhere(n, 2, i);
      if StreamOf(n, 2, i) == 0 then first[PlaceOf(n, 2, i)] else second[PlaceOf(n, 2, i)])
  }

  lemma Unmix<T>(first: seq<T>, second: seq<T>, n: nat)
    requires n % 2 == 0 && |first| == n && |second| == n
    ensures Stream(Mix(first, second, n), n, 2, 0) == first && Stream(Mix(first, second, n), n, 2, 1) == second
  {
    forall j | 0 <= j < n ensures Stream(Mix(first, second, n), n, 2, 0)[j] == first[j] {
      OnlyOnce(n, 2, 0, j);
    }
    forall j | 0 <= j < n ensures Stream(Mix(first, second, n), n, 2, 1)[j] == second[j] {
      OnlyOnce(n, 2, 1, j);
    }
  }

  lemma Remix<T>(input: seq<T>, n: nat)
    requires n % 2 == 0 && |input| == 2 * n
    ensures Mix(Stream(input, n, 2, 0), Stream(input, n, 2, 1), n) == input
  {
    forall i | 0 <= i < 2 * n ensures Mix(Stream(input, n, 2, 0), Stream(input, n, 2, 1), n)[i] == input[i] {
      Everywhere(n, 2, i);
    }
  }
}
