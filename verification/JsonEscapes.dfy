/** What the two passes over a JSON string literal in cJSON.c make of UTF-16 escapes: properly written ones become the
    UTF-8 form of their code points; others are accepted as zero, and can bring the passes out of step. */
module JsonEscapes {

  import opened JsonStrings
  import opened Wrappers

  const LETTER_U: Byte := 117

  predicate Digits(s: seq<Byte>) {
    |s| == 4 && Digit(s[0]).Some? && Digit(s[1]).Some? && Digit(s[2]).Some? && Digit(s[3]).Some?
  }

  // ---- Properly written escapes ----

  predicate Surrogate(p: nat) {
    0xD800 <= p < 0xE000
  }

  /** One part of an escape: backslash, u and four digits with the value h. */
  predicate Half(s: seq<Byte>, h: nat) {
    |s| == 6 && s[0] == BACKSLASH && s[1] == LETTER_U && Digits(s[2..6]) && Hex4(s[2..6]) == h
  }

  /** A code point and the way it is written: one escape, or two for a surrogate pair. */
  datatype Part = Part(point: nat, text: seq<Byte>)

  predicate Proper(x: Part) {
    && x.point <= 0x10FFFF && !Surrogate(x.point)
    && if x.point < 0x10000 then Half(x.text, x.point)
       else
         var q := x.point - 0x10000;
         |x.text| == 12 && Half(x.text[..6], 0xD800 + q / 1024) && Half(x.text[6..], 0xDC00 + q % 1024)
  }

  /** A properly written code point is read as its UTF-8 form, whatever follows. */
  lemma ProperReads(x: Part, rest: seq<Byte>)
    requires Proper(x)
    ensures |x.text| >= 6 && x.text[0] == BACKSLASH && CodePoint(Utf8(x.point)) == Some(x.point)
    ensures Unescape(x.text + rest) == Some(Escape(Utf8(x.point), |x.text|))
  {
    hide Hex4, Utf8, CodePoint, Digits;
    var s := x.text + rest;
    Utf8IsUtf8(x.point);
    if x.point < 0x10000 {
      assert s[2..6] == x.text[2..6];
    } else {
      var q := x.point - 0x10000;
      assert s[2..6] == x.text[..6][2..6] && s[8..12] == x.text[6..][2..6];
      assert s[6] == x.text[6..][0] && s[7] == x.text[6..][1];
      PairExactly(x.point, 0xD800 + q / 1024, 0xDC00 + q % 1024);
    }
  }

  lemma SubSlice(c: seq<Byte>, i: nat, j: nat, a: nat, b: nat)
    requires i <= j <= |c| && a <= b <= j - i
    ensures c[i..j][a..b] == c[i + a..i + b]
  {
    var t := c[i..j];
    assert forall k :: 0 <= k < |t| ==> t[k] == c[i + k];
    assert forall k :: 0 <= k < b - a ==> t[a..b][k] == c[i + a..i + b][k];
  }

  // ---- Escapes without digits ----

  /** Digits that are none are accepted: this literal is read as one zero byte. */
  lemma NoDigitsAccepted()
    ensures StringAt([QUOTE, BACKSLASH, LETTER_U, 122, 122, 122, 122, QUOTE], 0) == Some(([0], 8))
  {
    var c: seq<Byte> := [QUOTE, BACKSLASH, LETTER_U, 122, 122, 122, 122, QUOTE];
    assert ClosingQuote(c, 7) == Some(7);
    assert ClosingQuote(c, 5) == ClosingQuote(c, 6) == Some(7);
    assert ClosingQuote(c, 3) == ClosingQuote(c, 4) == Some(7);
    assert ClosingQuote(c, 1) == Some(7);
    ZeroEscape(c, 1, 7);
    UnescapedOnce(c, 7, 7);
    assert [0] + [] == [0];
  }

  /** An escape whose digits are none stands for zero. */
  lemma ZeroEscape(c: seq<Byte>, i: nat, end: nat)
    requires i + 6 <= end < |c| && c[i] == BACKSLASH && c[i + 1] == LETTER_U && !Digits(c[i + 2..i + 6])
    ensures Unescape(c[i..end]) == Some(Escape([0], 6))
    ensures Unescaped(c, i, end) ==
            if Unescaped(c, i + 6, end).None? then None else Some([0] + Unescaped(c, i + 6, end).value)
  {
    SubSlice(c, i, end, 2, 6);
    assert Hex4(c[i + 2..i + 6]) == 0;
    hide Unescaped;
    UnescapedOnce(c, i, end);
  }

  // ---- When the passes stay in step ----

  /** The first pass, from i on, starts a character or an escape at q. */
  predicate Starts(c: seq<Byte>, i: nat, q: nat)
    decreases q - i
  {
    q == i || (i < q && i < |c| && c[i] != QUOTE && Starts(c, if c[i] == BACKSLASH then i + 2 else i + 1, q))
  }

  /** The bytes end with an odd number of backslashes. */
  predicate OddRun(s: seq<Byte>) {
    s != [] && s[|s| - 1] == BACKSLASH && !OddRun(s[..|s| - 1])
  }

  lemma ShortRun(a: seq<Byte>)
    requires (|a| == 1 && a[0] != BACKSLASH) || (|a| == 2 && a[0] == BACKSLASH)
    ensures !OddRun(a) && !OddRun([])
  {
    if |a| == 2 {
      assert a[..1] == [BACKSLASH] && [BACKSLASH][..0] == [];
      assert OddRun(a[..1]);
    }
  }

  /** A character or an escape in front does not change that. */
  lemma {:induction false} OddRunFront(a: seq<Byte>, s: seq<Byte>)
    requires (|a| == 1 && a[0] != BACKSLASH) || (|a| == 2 && a[0] == BACKSLASH)
    ensures OddRun(a + s) == OddRun(s)
    decreases |s|
  {
    if s == [] {
      assert a + s == a;
      ShortRun(a);
    } else {
      OddRunFront(a, s[..|s| - 1]);
      FrontTail(a, s);
    }
  }

  lemma FrontTail(a: seq<Byte>, s: seq<Byte>)
    requires s != []
    ensures (a + s)[..|a + s| - 1] == a + s[..|s| - 1] && (a + s)[|a + s| - 1] == s[|s| - 1]
  {
  }

  lemma SplitSlice(c: seq<Byte>, i: nat, k: nat, j: nat)
    requires i <= k <= j <= |c|
    ensures c[i..j] == c[i..k] + c[k..j]
  {
    hide *;
  }

  /** Of n bytes from a place where the first pass starts something, the end is such a place again exactly when they do
      not end with an odd number of backslashes. */
  lemma {:induction false} StartsExactly(c: seq<Byte>, i: nat, end: nat, n: nat)
    requires i + n <= end < |c| && ClosingQuote(c, i) == Some(end)
    ensures Starts(c, i, i + n) <==> !OddRun(c[i..i + n])
    ensures Starts(c, i, i + n) ==> ClosingQuote(c, i + n) == Some(end)
    decreases n
  {
    if n > 0 {
      var k := if c[i] == BACKSLASH then 2 else 1;
      if n == 1 && k == 2 {
        assert c[i..i + 1] == [BACKSLASH] && [BACKSLASH][..0] == [];
      } else {
        StartsExactly(c, i + k, end, n - k);
        OddRunFront(c[i..i + k], c[i + k..i + n]);
        SplitSlice(c, i, i + k, i + n);
      }
    }
  }

  lemma {:induction false} StartsFurther(c: seq<Byte>, i: nat, q: nat, r: nat)
    requires Starts(c, i, q) && q <= r
    ensures Starts(c, i, r) <==> Starts(c, q, r)
    decreases q - i
  {
    if i < q {
      StartsFurther(c, if c[i] == BACKSLASH then i + 2 else i + 1, q, r);
    }
  }

  lemma {:induction false} StartsQuote(c: seq<Byte>, i: nat, q: nat, end: nat)
    requires Starts(c, i, q) && i <= q <= end < |c| && ClosingQuote(c, i) == Some(end)
    ensures ClosingQuote(c, q) == Some(end)
    decreases q - i
  {
    if i < q {
      StartsQuote(c, if c[i] == BACKSLASH then i + 2 else i + 1, q, end);
    }
  }

  /** Wherever the second pass goes on from p, the first pass starts a character or an escape. */
  ghost predicate Together(c: seq<Byte>, i: nat, p: nat, end: nat)
    requires i <= p <= end < |c|
    decreases end - p
  {
    Starts(c, i, p) &&
    if p == end then true
    else if c[p] != BACKSLASH then Together(c, i, p + 1, end)
    else
      p + 1 < end && var e := Unescape(c[p..end]); e.None? || Together(c, i, p + e.value.length, end)
  }

  /** No escape the second pass takes from p on ends with an odd number of backslashes after its first two bytes. */
  ghost predicate NoStray(c: seq<Byte>, p: nat, end: nat)
    requires p <= end < |c|
    decreases end - p
  {
    if p == end then true
    else if c[p] != BACKSLASH then NoStray(c, p + 1, end)
    else
      p + 1 < end &&
      var e := Unescape(c[p..end]);
      e.None? || (!OddRun(c[p + 2..p + e.value.length]) && NoStray(c, p + e.value.length, end))
  }

  lemma EscapeStarts(c: seq<Byte>, i: nat, p: nat, end: nat, n: nat)
    requires i <= p && p + n <= end < |c| && ClosingQuote(c, i) == Some(end) && Starts(c, i, p) && n >= 2 &&
             c[p] == BACKSLASH
    ensures Starts(c, i, p + n) <==> !OddRun(c[p + 2..p + n])
  {
    hide ClosingQuote, OddRun;
    StartsQuote(c, i, p, end);
    StartsExactly(c, p, end, n);
    StartsFurther(c, i, p, p + n);
    SplitSlice(c, p, p + 2, p + n);
    OddRunFront(c[p..p + 2], c[p + 2..p + n]);
  }

  lemma CharStarts(c: seq<Byte>, i: nat, p: nat, end: nat)
    requires i <= p < end < |c| && ClosingQuote(c, i) == Some(end) && Starts(c, i, p)
    ensures c[p] != BACKSLASH ==> Starts(c, i, p + 1)
    ensures c[p] == BACKSLASH ==> p + 1 < end
  {
    StartsQuote(c, i, p, end);
    StartsFurther(c, i, p, p + 1);
    if c[p] != BACKSLASH {
      assert Starts(c, p + 1, p + 1);
    }
  }

  /** The passes stay together exactly when the second pass meets no such escape. */
  lemma {:induction false} TogetherExactly(c: seq<Byte>, i: nat, p: nat, end: nat)
    requires i <= p <= end < |c| && ClosingQuote(c, i) == Some(end) && Starts(c, i, p)
    ensures Together(c, i, p, end) <==> NoStray(c, p, end)
    decreases end - p
  {
    hide ClosingQuote, Starts, OddRun, Unescape;
    if p < end {
      CharStarts(c, i, p, end);
      if c[p] != BACKSLASH {
        TogetherExactly(c, i, p + 1, end);
      } else {
        var e := Unescape(c[p..end]);
        if e.Some? {
          EscapeStarts(c, i, p, end, e.value.length);
          if Starts(c, i, p + e.value.length) {
            TogetherExactly(c, i, p + e.value.length, end);
          } else {
            NotTogether(c, i, p + e.value.length, end);
          }
        }
      }
    }
  }

  lemma NotTogether(c: seq<Byte>, i: nat, p: nat, end: nat)
    requires i <= p <= end < |c| && !Starts(c, i, p)
    ensures !Together(c, i, p, end)
  {
  }

  /** Every escape with a u that the first pass finds is followed by four digits. */
  ghost predicate AllDigits(c: seq<Byte>, i: nat, end: nat)
    requires end < |c|
  {
    forall q: nat :: i <= q && q + 1 < end && Starts(c, i, q) && c[q] == BACKSLASH && c[q + 1] == LETTER_U ==>
      q + 6 <= end && Digits(c[q + 2..q + 6])
  }

  lemma NoRun()
    ensures !OddRun([])
  {
  }

  lemma DigitLast(s: seq<Byte>)
    requires s != [] && Digit(s[|s| - 1]).Some?
    ensures !OddRun(s)
  {
  }

  /** The last byte of an escape where all digits are such. */
  lemma EscapeEnds(c: seq<Byte>, i: nat, p: nat, end: nat)
    requires i <= p && p + 1 < end < |c| && ClosingQuote(c, i) == Some(end) && Starts(c, i, p) && c[p] == BACKSLASH
    requires AllDigits(c, i, end) && Unescape(c[p..end]).Some?
    ensures !OddRun(c[p + 2..p + Unescape(c[p..end]).value.length])
  {
    hide ClosingQuote, Starts, OddRun, Hex4, Utf8;
    var s := c[p..end];
    var n := Unescape(s).value.length;
    if n == 2 {
      NoRun();
      assert c[p + 2..p + n] == [];
    } else {
      assert s[1] == c[p + 1];
      DigitLast(c[p + 2..p + 6]);
      if n == 12 {
        EscapeStarts(c, i, p, end, 6);
        assert s[6] == c[p + 6] && s[7] == c[p + 7];
        assert c[p + 8..p + 12][3] == c[p + 11] && c[p + 2..p + 12][9] == c[p + 11];
        DigitLast(c[p + 2..p + 12]);
      }
    }
  }

  lemma {:induction false} DigitsNoStray(c: seq<Byte>, i: nat, p: nat, end: nat)
    requires i <= p <= end < |c| && ClosingQuote(c, i) == Some(end) && Starts(c, i, p) && AllDigits(c, i, end)
    ensures NoStray(c, p, end)
    decreases end - p
  {
    hide ClosingQuote, Starts, OddRun, Unescape, AllDigits;
    if p < end {
      CharStarts(c, i, p, end);
      if c[p] != BACKSLASH {
        DigitsNoStray(c, i, p + 1, end);
      } else if Unescape(c[p..end]).Some? {
        EscapeEnds(c, i, p, end);
        EscapeStarts(c, i, p, end, Unescape(c[p..end]).value.length);
        DigitsNoStray(c, i, p + Unescape(c[p..end]).value.length, end);
      }
    }
  }

  /** With four digits after every u the passes stay together. */
  lemma DigitsTogether(c: seq<Byte>, i: nat, end: nat)
    requires i <= end < |c| && ClosingQuote(c, i) == Some(end) && AllDigits(c, i, end)
    ensures Together(c, i, i, end)
  {
    hide ClosingQuote, AllDigits, Together, NoStray;
    DigitsNoStray(c, i, i, end);
    TogetherExactly(c, i, i, end);
  }

  /** Here the last digit place is a backslash that escapes another one: the second pass goes on between the two, apart
      from the first, and takes the closing quote into the string. */
  lemma FallsOutOfStep()
    ensures var c := [QUOTE, BACKSLASH, LETTER_U, 48, 48, 48, BACKSLASH, BACKSLASH, QUOTE];
            && ClosingQuote(c, 1) == Some(8) && StringAt(c, 0) == Some(([0, QUOTE], 9)) && !Together(c, 1, 1, 8)
  {
    var c: seq<Byte> := [QUOTE, BACKSLASH, LETTER_U, 48, 48, 48, BACKSLASH, BACKSLASH, QUOTE];
    assert ClosingQuote(c, 8) == Some(8);
    assert ClosingQuote(c, 6) == Some(8);
    assert ClosingQuote(c, 5) == Some(8);
    assert ClosingQuote(c, 3) == ClosingQuote(c, 4) == Some(8);
    assert ClosingQuote(c, 1) == Some(8);
    BackslashNoDigits(c[3..7]);
    ZeroEscape(c, 1, 8);
    UnescapedOnce(c, 7, 8);
    assert [0] + [QUOTE] == [0, QUOTE];
    hide Unescaped, Unescape, ClosingQuote;
    StrayEnd(c[3..7]);
    TogetherExactly(c, 1, 1, 8);
  }

  lemma BackslashNoDigits(s: seq<Byte>)
    requires |s| == 4 && s[3] == BACKSLASH
    ensures !Digits(s)
  {
  }

  lemma StrayEnd(s: seq<Byte>)
    requires |s| == 4 && s[2] != BACKSLASH && s[3] == BACKSLASH
    ensures OddRun(s)
  {
    assert s[..3][2] == s[2];
  }
}
