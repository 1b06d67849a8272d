/** The integer stages of the demodulator (qpsk_demod.c): differential decoding in place, symbols to bits, and the
    check of the unique word. */
module Dqpsk {

  predicate Symbols(s: seq<nat>) {
    forall i :: 0 <= i < |s| ==> s[i] < 4
  }

  /** The transition table. */
  function Map(d: nat): nat
    requires d < 4
  {
    [0, 2, 3, 1][d]
  }

  function Unmap(m: nat): nat
    requires m < 4
  {
    [0, 3, 1, 2][m]
  }

  lemma MapBack(d: nat)
    requires d < 4
    ensures Map(d) < 4 && Unmap(Map(d)) == d && Unmap(d) < 4 && Map(Unmap(d)) == d
  {
    assert d == 0 || d == 1 || d == 2 || d == 3;
  }

  /** The phase step from one symbol to the next. */
  function Step(now: nat, last: nat): (d: nat)
    requires now < 4 && last < 4
    ensures d < 4
  {
    (now - last + 4) % 4
  }

  function Before(s: seq<nat>, last: nat, i: nat): (r: nat)
    requires Symbols(s) && last < 4 && i < |s|
    ensures r < 4
  {
    if i == 0 then last else s[i - 1]
  }

  /** The symbols decoded from s when the symbol before it was last. */
  function Decoded(s: seq<nat>, last: nat): (r: seq<nat>)
    requires Symbols(s) && last < 4
    ensures |r| == |s|
  {
    seq(|s|, i requires 0 <= i < |s| => Map(Step(s[i], Before(s, last, i))))
  }

  /** decode_dqpsk. */
  method DecodeDqpsk(symbols: array<nat>)
    requires Symbols(symbols[..])
    modifies symbols
    ensures symbols[..] == Decoded(old(symbols[..]), 0)
  {
    hide Map, Step, Decoded;
    ghost var s := symbols[..];
    ghost var d := Decoded(s, 0);
    var last := 0;
    for i := 0 to symbols.Length
      invariant last < 4 && (i > 0 ==> last == s[i - 1]) && (i == 0 ==> last == 0)
      invariant forall j :: i <= j < symbols.Length ==> symbols[j] == s[j]
      invariant forall j :: 0 <= j < i ==> symbols[j] == d[j]
    {
      DecodedAt(s, 0, i);
      assert symbols[i] == s[i] < 4;
      var now := symbols[i];
      var diff := Step(now, last);
      last := now;
      symbols[i] := Map(diff);
    }
  }

  lemma DecodedFirst(s: seq<nat>, last: nat)
    requires Symbols(s) && last < 4 && s != []
    ensures Decoded(s, last) == [Map(Step(s[0], last))] + Decoded(s[1..], s[0])
  {
    hide Map, Step;
    var d, rest := Decoded(s, last), Decoded(s[1..], s[0]);
    forall i | 0 <= i < |s| ensures d[i] == ([Map(Step(s[0], last))] + rest)[i] {
      if i > 0 {
        assert s[1..][i - 1] == s[i] && Before(s[1..], s[0], i - 1) == s[i - 1];
      }
    }
  }

  /** The sender's differential encoder. */
  function Encoded(d: seq<nat>, last: nat): (r: seq<nat>)
    requires Symbols(d) && last < 4
    ensures |r| == |d| && Symbols(r)
  {
    if d == [] then []
    else
      MapBack(d[0]);
      var s := (last + Unmap(d[0])) % 4;
      [s] + Encoded(d[1..], s)
  }

  lemma StepBack(x: nat, last: nat)
    requires x < 4 && last < 4
    ensures Step((last + x) % 4, last) == x && (last + Step(x, last)) % 4 == x
  {
  }

  lemma EncodedFirst(d: seq<nat>, last: nat)
    requires Symbols(d) && last < 4 && d != []
    ensures d[0] < 4 && Unmap(d[0]) < 4
    ensures var s := (last + Unmap(d[0])) % 4; Encoded(d, last) == [s] + Encoded(d[1..], s)
  {
    MapBack(d[0]);
  }

  /** Decoding undoes differential encoding, for every sequence. */
  lemma {:induction false} RoundTrip(d: seq<nat>, last: nat)
    requires Symbols(d) && last < 4
    ensures Decoded(Encoded(d, last), last) == d
  {
    if d != [] {
      hide Map, Unmap, Step, Decoded, Encoded;
      MapBack(d[0]);
      EncodedFirst(d, last);
      var s := (last + Unmap(d[0])) % 4;
      StepBack(Unmap(d[0]), last);
      RoundTrip(d[1..], s);
      DecodedFirst(Encoded(d, last), last);
      assert Encoded(d, last)[1..] == Encoded(d[1..], s);
      assert [d[0]] + d[1..] == d;
    }
  }

  lemma {:induction false} DecodedSymbols(s: seq<nat>, last: nat)
    requires Symbols(s) && last < 4
    ensures Symbols(Decoded(s, last))
  {
    hide Map, Step;
    forall i | 0 <= i < |s| ensures Decoded(s, last)[i] < 4 {
      MapBack(Step(s[i], Before(s, last, i)));
    }
  }

  /** And the other way round. */
  lemma {:induction false} RoundTripBack(s: seq<nat>, last: nat)
    requires Symbols(s) && last < 4
    ensures Symbols(Decoded(s, last)) && Encoded(Decoded(s, last), last) == s
  {
    hide Map, Unmap, Step, Decoded, Encoded;
    DecodedSymbols(s, last);
    if s == [] {
      NothingBack(last);
    } else {
      RoundTripBack(s[1..], s[0]);
      FirstBack(s, last);
    }
  }

  lemma NothingBack(last: nat)
    requires last < 4
    ensures Decoded([], last) == [] && Encoded([], last) == []
  {
  }

  lemma FirstBack(s: seq<nat>, last: nat)
    requires Symbols(s) && last < 4 && s != []
    requires Symbols(Decoded(s[1..], s[0])) && Encoded(Decoded(s[1..], s[0]), s[0]) == s[1..]
    requires Symbols(Decoded(s, last))
    ensures Encoded(Decoded(s, last), last) == s
  {
    hide Map, Unmap, Step, Decoded, Encoded;
    MapBack(Step(s[0], last));
    StepBack(s[0], last);
    DecodedFirst(s, last);
    assert Decoded(s, last)[1..] == Decoded(s[1..], s[0]);
    EncodedFirst(Decoded(s, last), last);
    assert [s[0]] + s[1..] == s;
  }

  function Rotated(s: seq<nat>, turn: nat): (r: seq<nat>)
    requires turn < 4
    ensures |r| == |s| && Symbols(r)
  {
    seq(|s|, i requires 0 <= i < |s| => (s[i] + turn) % 4)
  }

  lemma StepRotated(a: nat, b: nat, turn: nat)
    requires a < 4 && b < 4 && turn < 4
    ensures Step((a + turn) % 4, (b + turn) % 4) == Step(a, b)
  {
  }

  /** A constant phase rotation changes at most the first decoded symbol. */
  lemma Rotation(s: seq<nat>, turn: nat)
    requires Symbols(s) && s != [] && turn < 4
    ensures Decoded(Rotated(s, turn), 0)[1..] == Decoded(s, 0)[1..]
  {
    hide Decoded, Rotated;
    forall i | 1 <= i < |s| ensures Decoded(Rotated(s, turn), 0)[i] == Decoded(s, 0)[i] {
      RotatedAt(s, turn, i);
    }
  }

  lemma RotatedAt(s: seq<nat>, turn: nat, i: nat)
    requires Symbols(s) && turn < 4 && 1 <= i < |s|
    ensures Decoded(Rotated(s, turn), 0)[i] == Decoded(s, 0)[i]
  {
    hide Step, Map, Decoded;
    StepRotated(s[i], s[i - 1], turn);
    DecodedAt(s, 0, i);
    DecodedAt(Rotated(s, turn), 0, i);
  }

  lemma DecodedAt(s: seq<nat>, last: nat, i: nat)
    requires Symbols(s) && last < 4 && i < |s|
    ensures Decoded(s, last)[i] == Map(Step(s[i], Before(s, last, i)))
  {
    hide Step, Map;
  }

  /** A step of none, one, two or three quarter turns from the symbol before becomes 0, 2, 3 or 1. */
  lemma DecodedSteps(s: seq<nat>, i: nat)
    requires Symbols(s) && i < |s|
    ensures var turn := (s[i] + 4 - if i == 0 then 0 else s[i - 1]) % 4;
            Decoded(s, 0)[i] == if turn == 0 then 0 else if turn == 1 then 2 else if turn == 2 then 3 else 1
  {
    hide Map, Decoded;
    DecodedAt(s, 0, i);
    MapValues();
  }

  lemma MapValues()
    ensures Map(0) == 0 && Map(1) == 2 && Map(2) == 3 && Map(3) == 1
  {
  }

  // ---- Bits ----

  function Bits(s: seq<nat>): (r: seq<bool>)
    ensures |r| == 2 * |s|
  {
    seq(2 * |s|, i requires 0 <= i < 2 * |s| => if i % 2 == 0 then s[i / 2] / 2 % 2 == 1 else s[i / 2] % 2 == 1)
  }

  /** The high bit of a symbol comes first. */
  lemma BitsAt(s: seq<nat>, i: nat)
    requires Symbols(s) && i < |s|
    ensures 2 * i + 1 < |Bits(s)| && (Bits(s)[2 * i] <==> s[i] >= 2) && (Bits(s)[2 * i + 1] <==> s[i] == 1 || s[i] == 3)
  {
    assert 2 * i / 2 == i && (2 * i + 1) / 2 == i;
  }

  /** map_symbols_to_bits. */
  method MapSymbolsToBits(symbols: array<nat>, bits: array<bool>)
    requires bits.Length >= 2 * symbols.Length
    modifies bits
    ensures bits[..2 * symbols.Length] == Bits(symbols[..])
    ensures forall j :: 2 * symbols.Length <= j < bits.Length ==> bits[j] == old(bits[j])
  {
    for i := 0 to symbols.Length
      invariant forall j :: 0 <= j < 2 * i ==> bits[j] == Bits(symbols[..])[j]
      invariant forall j :: 2 * symbols.Length <= j < bits.Length ==> bits[j] == old(bits[j])
    {
      bits[2 * i] := symbols[i] / 2 % 2 == 1;
      bits[2 * i + 1] := symbols[i] % 2 == 1;
    }
  }

  /** The bits determine the symbols. */
  lemma BitsInjective(s: seq<nat>, t: seq<nat>)
    requires Symbols(s) && Symbols(t) && |s| == |t| && Bits(s) == Bits(t)
    ensures s == t
  {
    forall i | 0 <= i < |s| ensures s[i] == t[i] {
      assert Bits(s)[2 * i] == Bits(t)[2 * i] && Bits(s)[2 * i + 1] == Bits(t)[2 * i + 1];
    }
  }

  // ---- Unique words ----

  const UW_DL: seq<nat> := [0, 2, 2, 2, 2, 0, 0, 0, 2, 0, 0, 2]
  const UW_UL: seq<nat> := [2, 2, 0, 0, 0, 2, 0, 0, 2, 0, 2, 2]
  const MAX_ERRORS := 2

  /** The distance of two symbols around the circle of four: the shorter way round. */
  function Gap(a: nat, b: nat): (r: nat)
    ensures a < 4 && b < 4 ==> var up, down := (b - a) % 4, (a - b) % 4; r == if up < down then up else down
  {
    var d := if a < b then b - a else a - b;
    if d == 3 then 1 else d
  }

  function Gaps(s: seq<nat>, w: seq<nat>, n: nat): nat
    requires n <= |s| && n <= |w|
  {
    if n == 0 then 0 else Gaps(s, w, n - 1) + Gap(s[n - 1], w[n - 1])
  }

  /** check_sync_word. */
  method CheckSyncWord(symbols: seq<nat>, uw: seq<nat>) returns (ok: bool)
    requires |uw| == 12
    ensures ok <==> |symbols| >= 12 && Gaps(symbols, uw, 12) <= 2
  {
    if |symbols| < 12 {
      return false;
    }
    var diffs := 0;
    for i := 0 to 12
      invariant diffs == Gaps(symbols, uw, i)
    {
      var diff := if symbols[i] < uw[i] then uw[i] - symbols[i] else symbols[i] - uw[i];
      if diff == 3 {
        diff := 1;
      }
      diffs := diffs + diff;
    }
    ok := diffs <= MAX_ERRORS;
  }

  lemma {:induction false} Triangle(s: seq<nat>, v: seq<nat>, w: seq<nat>, n: nat)
    requires n <= |s| && n <= |v| && n <= |w| && Symbols(s) && Symbols(v) && Symbols(w)
    ensures Gaps(v, w, n) <= Gaps(s, v, n) + Gaps(s, w, n)
  {
    if n > 0 {
      Triangle(s, v, w, n - 1);
    }
  }

  lemma WordsApart()
    ensures Gaps(UW_DL, UW_UL, 12) == 12
  {
    assert Gaps(UW_DL, UW_UL, 3) == 4;
    assert Gaps(UW_DL, UW_UL, 6) == 10;
    assert Gaps(UW_DL, UW_UL, 9) == 10;
  }

  lemma WordsAreSymbols()
    ensures Symbols(UW_DL) && |UW_DL| == 12 && Symbols(UW_UL) && |UW_UL| == 12
  {
    assert UW_DL[0] == 0 && UW_DL[1] == 2;
    assert forall i :: 0 <= i < 12 ==> UW_DL[i] == 0 || UW_DL[i] == 2;
    assert forall i :: 0 <= i < 12 ==> UW_UL[i] == 0 || UW_UL[i] == 2;
  }

  /** No symbols pass for both directions. */
  lemma OneDirection(s: seq<nat>)
    requires |s| >= 12 && Symbols(s)
    ensures !(Gaps(s, UW_DL, 12) <= 2 && Gaps(s, UW_UL, 12) <= 2)
  {
    hide Gaps;
    WordsAreSymbols();
    Triangle(s, UW_DL, UW_UL, 12);
    WordsApart();
  }

  const ACCESS_DL := [false, false, true, true, false, false, false, false, false, false, true, true,
                      false, false, false, false, true, true, true, true, false, false, true, true]
  const ACCESS_UL := [true, true, false, false, true, true, false, false, false, false, true, true,
                      true, true, false, false, true, true, true, true, true, true, false, false]

  lemma DecodedDl()
    ensures Decoded(UW_DL, 0) == [0, 3, 0, 0, 0, 3, 0, 0, 3, 3, 0, 3]
  {
  }

  lemma BitsDl()
    ensures Bits([0, 3, 0, 0, 0, 3, 0, 0, 3, 3, 0, 3]) == ACCESS_DL
  {
  }

  lemma DecodedUl()
    ensures Decoded(UW_UL, 0) == [3, 0, 3, 0, 0, 3, 3, 0, 3, 3, 3, 0]
  {
  }

  lemma BitsUl()
    ensures Bits([3, 0, 3, 0, 0, 3, 3, 0, 3, 3, 3, 0]) == ACCESS_UL
  {
  }

  /** Twelve symbols decode to the downlink access code exactly when they are the downlink unique word, and likewise
      for the uplink. */
  lemma AccessCodes(s: seq<nat>)
    requires Symbols(s) && |s| == 12
    ensures Bits(Decoded(s, 0)) == ACCESS_DL <==> s == UW_DL
    ensures Bits(Decoded(s, 0)) == ACCESS_UL <==> s == UW_UL
  {
    hide Decoded, Bits;
    DecodedDl();
    BitsDl();
    DecodedUl();
    BitsUl();
    RoundTripBack(s, 0);
    RoundTripBack(UW_DL, 0);
    RoundTripBack(UW_UL, 0);
    if Bits(Decoded(s, 0)) == ACCESS_DL {
      BitsInjective(Decoded(s, 0), Decoded(UW_DL, 0));
    }
    if Bits(Decoded(s, 0)) == ACCESS_UL {
      BitsInjective(Decoded(s, 0), Decoded(UW_UL, 0));
    }
  }
}
