/** The language that the parser of cJSON.c accepts, as a grammar: RFC 8259 without numbers, with any byte up to 32 as a
    blank and any byte but the backslash as a character, and with what becomes of escapes whose digits are none. A
    document is a text together with its parts; it says what it means. */
module JsonGrammar {

  import opened JsonStrings
  import opened JsonTrees
  import E = JsonEscapes
  import opened Wrappers

  // ---- Characters of a string ----

  /** A plain byte, one of the eight short escapes, or a code point in one or two escapes with the bytes it stands for.
      Then what RFC 8259 does not have: an escape whose four digits are none, and a backslash before the closing
      quote. */
  datatype Char =
    | Plain(b: Byte)
    | Short(letter: Byte)
    | Point(point: nat, text: seq<Byte>, bytes: seq<Byte>)
    | Blind(digits: seq<Byte>)
    | Stray

  /** The digit b has the value v, in either case. */
  predicate Reads(b: Byte, v: nat) {
    v < 16 && if v < 10 then b == 48 + v else b == 87 + v || b == 55 + v
  }

  /** Backslash, u and the four digits of h. */
  predicate Written(s: seq<Byte>, h: nat) {
    && |s| == 6 && s[0] == 92 && s[1] == 117 && h < 65536
    && Reads(s[2], h / 4096) && Reads(s[3], h / 256 % 16) && Reads(s[4], h / 16 % 16) && Reads(s[5], h % 16)
  }

  predicate Digital(b: Byte) {
    48 <= b <= 57 || 65 <= b <= 70 || 97 <= b <= 102
  }

  predicate CharOk(x: Char) {
    match x
    case Plain(b) => b != 92
    case Short(l) => l in {34, 92, 47, 98, 102, 110, 114, 116}
    case Point(p, t, bytes) =>
      && CodePoint(bytes) == Some(p)
      && (if p < 0x10000 then Written(t, p)
          else
            |t| == 12 && Written(t[..6], 0xD800 + (p - 0x10000) / 1024) &&
            Written(t[6..], 0xDC00 + (p - 0x10000) % 1024))
    case Blind(ds) => |ds| == 4 && exists k :: 0 <= k < 4 && !Digital(ds[k])
    case Stray => true
  }

  function CharText(x: Char): seq<Byte> {
    match x
    case Plain(b) => [b]
    case Short(l) => [92, l]
    case Point(_, t, _) => t
    case Blind(ds) => [92, 117] + ds
    case Stray => [92]
  }

  function CharBytes(x: Char): seq<Byte> {
    match x
    case Plain(b) => [b]
    case Short(l) =>
      if l == 98 then [8] else if l == 102 then [12] else if l == 110 then [10] else if l == 114 then [13]
      else if l == 116 then [9] else [l]
    case Point(_, _, bytes) => bytes
    case Blind(_) => [0]
    case Stray => [34]
  }

  /** A stray backslash can only be last. */
  predicate CharsOk(chars: seq<Char>) {
    && (forall k :: 0 <= k < |chars| ==> CharOk(chars[k]))
    && (forall k :: 0 <= k < |chars| - 1 ==> !chars[k].Stray?)
  }

  function CharsText(chars: seq<Char>): seq<Byte> {
    if chars == [] then [] else CharText(chars[0]) + CharsText(chars[1..])
  }

  function CharsBytes(chars: seq<Char>): seq<Byte> {
    if chars == [] then [] else CharBytes(chars[0]) + CharsBytes(chars[1..])
  }

  /** No quote in it ends the string: each follows a backslash that is not itself escaped. */
  predicate Closed(s: seq<Byte>) {
    s == [] ||
    if s[0] == 92 then |s| >= 2 && Closed(s[2..]) else s[0] != 34 && Closed(s[1..])
  }

  predicate LiteralOk(chars: seq<Char>) {
    CharsOk(chars) && Closed(CharsText(chars))
  }

  function LiteralText(chars: seq<Char>): (t: seq<Byte>)
    ensures |t| >= 2 && t[0] == 34
  {
    [34] + CharsText(chars) + [34]
  }

  // ---- Hexadecimal digits ----

  lemma DigitReads(b: Byte, v: nat)
    ensures Reads(b, v) <==> Digit(b) == Some(v)
    ensures Digital(b) <==> Digit(b).Some?
  {
  }

  lemma FourDigits(a: nat, b: nat, c: nat, d: nat)
    requires a < 16 && b < 16 && c < 16 && d < 16
    ensures var h := ((a * 16 + b) * 16 + c) * 16 + d;
            h < 65536 && h / 4096 == a && h / 256 % 16 == b && h / 16 % 16 == c && h % 16 == d
  {
    var h := ((a * 16 + b) * 16 + c) * 16 + d;
    assert h / 16 == (a * 16 + b) * 16 + c;
    assert h / 256 == a * 16 + b;
  }

  lemma Nibbles(h: nat)
    requires h < 65536
    ensures var a, b, c, d := h / 4096, h / 256 % 16, h / 16 % 16, h % 16;
            a < 16 && b < 16 && c < 16 && d < 16 && h == ((a * 16 + b) * 16 + c) * 16 + d
  {
    assert h / 256 / 16 == h / 4096 && h / 16 / 16 == h / 256;
    assert h / 256 == 16 * (h / 4096) + h / 256 % 16 && h / 16 == 16 * (h / 256) + h / 16 % 16;
  }

  /** The digits written are those the parser reads. */
  lemma WrittenExactly(s: seq<Byte>, h: nat)
    ensures Written(s, h) <==> E.Half(s, h)
  {
    if |s| == 6 {
      DigitReads(s[2], h / 4096);
      DigitReads(s[3], h / 256 % 16);
      DigitReads(s[4], h / 16 % 16);
      DigitReads(s[5], h % 16);
      if Written(s, h) {
        Nibbles(h);
      }
      if E.Half(s, h) {
        FourDigits(Digit(s[2]).value, Digit(s[3]).value, Digit(s[4]).value, Digit(s[5]).value);
      }
    }
  }

  // ---- Escapes ----

  lemma SixBits(x: nat, y: nat)
    requires y < 64
    ensures (64 * x + y) / 64 == x && (64 * x + y) % 64 == y
  {
  }

  lemma TwoBack(x: nat, y: nat)
    requires 2 <= x < 32 && y < 64
    ensures Utf8(64 * x + y) == [0xC0 + x, 0x80 + y]
  {
    SixBits(x, y);
  }

  lemma ThreeBack(x: nat, y: nat, z: nat)
    requires x < 16 && y < 64 && z < 64 && 4096 * x + 64 * y + z >= 0x800
    ensures Utf8(4096 * x + 64 * y + z) == [0xE0 + x, 0x80 + y, 0x80 + z]
  {
    var p := 4096 * x + 64 * y + z;
    SixBits(64 * x + y, z);
    SixBits(x, y);
    assert p / 4096 == p / 64 / 64;
  }

  lemma FourBack(w: nat, x: nat, y: nat, z: nat)
    requires w < 5 && x < 64 && y < 64 && z < 64 && 0x10000 <= 262144 * w + 4096 * x + 64 * y + z <= 0x10FFFF
    ensures Utf8(262144 * w + 4096 * x + 64 * y + z) == [0xF0 + w, 0x80 + x, 0x80 + y, 0x80 + z]
  {
    var p := 262144 * w + 4096 * x + 64 * y + z;
    SixBits(4096 * w + 64 * x + y, z);
    SixBits(64 * w + x, y);
    SixBits(w, x);
    assert p / 4096 == p / 64 / 64 && p / 262144 == p / 4096 / 64;
  }

  /** A code point has one UTF-8 form only. */
  lemma CodePointUnique(s: seq<Byte>, p: nat)
    requires CodePoint(s) == Some(p)
    ensures p <= 0x10FFFF && !E.Surrogate(p) && Utf8(p) == s
  {
    if |s| == 2 {
      TwoBack(s[0] - 0xC0, s[1] - 0x80);
    } else if |s| == 3 {
      ThreeBack(s[0] - 0xE0, s[1] - 0x80, s[2] - 0x80);
    } else if |s| == 4 {
      FourBack(s[0] - 0xF0, s[1] - 0x80, s[2] - 0x80, s[3] - 0x80);
    }
  }

  lemma PointProper(p: nat, t: seq<Byte>, bytes: seq<Byte>)
    ensures CharOk(Point(p, t, bytes)) <==> E.Proper(E.Part(p, t)) && bytes == Utf8(p)
  {
    hide Written, E.Half, Utf8, CodePoint;
    if CodePoint(bytes) == Some(p) {
      CodePointUnique(bytes, p);
    }
    if p <= 0x10FFFF && !E.Surrogate(p) {
      Utf8IsUtf8(p);
    }
    if p < 0x10000 {
      WrittenExactly(t, p);
    } else if |t| == 12 {
      WrittenExactly(t[..6], 0xD800 + (p - 0x10000) / 1024);
      WrittenExactly(t[6..], 0xDC00 + (p - 0x10000) % 1024);
    }
  }

  lemma BlindExactly(ds: seq<Byte>)
    requires |ds| == 4
    ensures CharOk(Blind(ds)) <==> !E.Digits(ds)
  {
    DigitReads(ds[0], 0);
    DigitReads(ds[1], 0);
    DigitReads(ds[2], 0);
    DigitReads(ds[3], 0);
  }

  /** An escape of the grammar is read as what it means, whatever follows. */
  lemma EscapeReads(x: Char, rest: seq<Byte>)
    requires CharOk(x) && !x.Plain? && !x.Stray?
    ensures |CharText(x)| >= 2 && CharText(x)[0] == 92
    ensures Unescape(CharText(x) + rest) == Some(Escape(CharBytes(x), |CharText(x)|))
  {
    match x
    case Short(l) =>
    case Point(p, t, bytes) =>
      PointProper(p, t, bytes);
      E.ProperReads(E.Part(p, t), rest);
    case Blind(ds) =>
      var s := CharText(x) + rest;
      BlindExactly(ds);
      assert s[2..6] == ds;
      assert Hex4(s[2..6]) == 0;
  }

  /** Whatever is accepted as an escape is one of the grammar. */
  lemma EscapeFound(s: seq<Byte>) returns (x: Char)
    requires |s| >= 2 && s[0] == 92 && Unescape(s).Some?
    ensures CharOk(x) && !x.Plain? && !x.Stray?
    ensures CharText(x) == s[..Unescape(s).value.length] && CharBytes(x) == Unescape(s).value.bytes
  {
    if s[1] == 117 {
      x := Utf16Found(s);
    } else {
      x := Short(s[1]);
    }
  }

  lemma Utf16Found(s: seq<Byte>) returns (x: Char)
    requires |s| >= 2 && s[0] == 92 && s[1] == 117 && Utf16(s).Some?
    ensures CharOk(x) && !x.Plain? && !x.Stray?
    ensures CharText(x) == s[..Utf16(s).value.length] && CharBytes(x) == Utf16(s).value.bytes
  {
    hide Utf8, Hex4, CodePoint, Written, E.Digits;
    var h := Hex4(s[2..6]);
    if High(h) {
      var g := Hex4(s[8..12]);
      var p := Pair(h, g);
      SurrogatesDigits(s[2..6]);
      SurrogatesDigits(s[8..12]);
      PairPoint(h, g);
      assert s[..12][..6][2..6] == s[2..6] && s[..12][6..][2..6] == s[8..12];
      PointProper(p, s[..12], Utf8(p));
      x := Point(p, s[..12], Utf8(p));
    } else if E.Digits(s[2..6]) {
      assert s[..6][2..6] == s[2..6];
      PointProper(h, s[..6], Utf8(h));
      x := Point(h, s[..6], Utf8(h));
    } else {
      BlindExactly(s[2..6]);
      NoDigits(s[2..6]);
      x := Blind(s[2..6]);
      assert [92, 117] + s[2..6] == s[..6];
    }
  }

  lemma NoDigits(ds: seq<Byte>)
    requires |ds| == 4 && !E.Digits(ds)
    ensures Hex4(ds) == 0 && Utf8(0) == [0]
  {
  }

  lemma SurrogatesDigits(ds: seq<Byte>)
    requires |ds| == 4 && (High(Hex4(ds)) || Low(Hex4(ds)))
    ensures E.Digits(ds)
  {
  }

  lemma PairPoint(high: nat, low: nat)
    requires High(high) && Low(low)
    ensures var p := Pair(high, low);
            && 0x10000 <= p <= 0x10FFFF
            && high == 0xD800 + (p - 0x10000) / 1024 && low == 0xDC00 + (p - 0x10000) % 1024
  {
    assert high % 1024 == high - 0xD800 && low % 1024 == low - 0xDC00;
    PairExactly(Pair(high, low), high, low);
  }

  // ---- String literals ----

  lemma CharsFirst(x: Char, rest: seq<Char>)
    ensures CharsText([x] + rest) == CharText(x) + CharsText(rest)
    ensures CharsBytes([x] + rest) == CharBytes(x) + CharsBytes(rest)
  {
    assert ([x] + rest)[1..] == rest;
  }

  lemma CharsOkFirst(x: Char, rest: seq<Char>)
    requires CharOk(x) && !x.Stray? && CharsOk(rest)
    ensures CharsOk([x] + rest)
  {
  }

  /** What the second pass accepts is a sequence of characters of the grammar, and gives what they mean. */
  lemma {:induction false} CharsFound(c: seq<Byte>, i: nat, end: nat) returns (chars: seq<Char>)
    requires i <= end < |c| && Unescaped(c, i, end).Some?
    ensures CharsOk(chars) && CharsText(chars) == c[i..end] && CharsBytes(chars) == Unescaped(c, i, end).value
    decreases end - i
  {
    hide CharOk, CharText, CharBytes, CharsText, CharsBytes, Unescape, CharsOk;
    if i == end {
      chars := [];
      NoChars();
    } else if c[i] == 92 && i + 1 == end {
      chars := [Stray];
      OneStray();
      assert c[i..end] == [92];
    } else {
      var x, n := Plain(c[i]), 1;
      if c[i] == 92 {
        var s := c[i..end];
        n := Unescape(s).value.length;
        x := EscapeFound(s);
        assert s[..n] == c[i..i + n];
      } else {
        PlainChar(c[i]);
        assert c[i..i + 1] == [c[i]];
      }
      var rest := CharsFound(c, i + n, end);
      chars := [x] + rest;
      CharsFirst(x, rest);
      CharsOkFirst(x, rest);
      E.SplitSlice(c, i, i + n, end);
    }
  }

  lemma NoChars()
    ensures CharsOk([]) && CharsText([]) == [] && CharsBytes([]) == []
  {
  }

  lemma OneStray()
    ensures CharsOk([Stray]) && CharsText([Stray]) == [92] && CharsBytes([Stray]) == [34]
  {
    CharsFirst(Stray, []);
    assert [Stray] + [] == [Stray];
  }

  lemma PlainChar(b: Byte)
    ensures CharText(Plain(b)) == [b] && CharBytes(Plain(b)) == [b] && (b != 92 ==> CharOk(Plain(b)))
  {
  }

  lemma StrayRead(c: seq<Byte>, i: nat, end: nat)
    requires i <= end < |c| && c[i..end] == [92]
    ensures Unescaped(c, i, end) == Some([34])
  {
    assert |c[i..end]| == end - i && c[i] == c[i..end][0];
  }

  lemma CharRead(c: seq<Byte>, i: nat, end: nat, x: Char, rest: seq<Byte>)
    requires i <= end < |c| && CharOk(x) && !x.Stray? && c[i..end] == CharText(x) + rest
    ensures CharText(x) != [] && i + |CharText(x)| <= end && c[i + |CharText(x)|..end] == rest
    ensures Unescaped(c, i, end) == Joined(CharBytes(x), Unescaped(c, i + |CharText(x)|, end))
  {
    hide Unescape;
    var n, s := |CharText(x)|, c[i..end];
    assert |s| == end - i;
    if x.Plain? {
      assert c[i] == s[0];
    } else {
      hide CharText, CharBytes;
      EscapeReads(x, rest);
      assert c[i] == s[0];
    }
    assert c[i + n..end] == s[n..];
  }

  /** And the other way round: such a sequence is accepted, and read as what it means. */
  lemma {:induction false} CharsRead(c: seq<Byte>, i: nat, end: nat, chars: seq<Char>)
    requires i <= end < |c| && CharsOk(chars) && CharsText(chars) == c[i..end]
    ensures Unescaped(c, i, end) == Some(CharsBytes(chars))
    decreases |chars|
  {
    hide CharOk, CharText, CharBytes, Unescape, Unescaped;
    if chars == [] {
      assert |c[i..end]| == end - i;
      NothingRead(c, i);
    } else {
      var x, rest := chars[0], chars[1..];
      assert chars == [x] + rest;
      if x.Stray? {
        assert rest == [];
        OneStray();
        StrayRead(c, i, end);
      } else {
        CharRead(c, i, end, x, CharsText(rest));
        CharsRead(c, i + |CharText(x)|, end, rest);
      }
    }
  }

  lemma NothingRead(c: seq<Byte>, i: nat)
    requires i < |c|
    ensures Unescaped(c, i, i) == Some([])
  {
  }

  /** The first pass finds the first quote that is not escaped. */
  lemma {:induction false} ClosedExactly(c: seq<Byte>, i: nat, end: nat)
    requires i <= end < |c|
    ensures ClosingQuote(c, i) == Some(end) <==> c[end] == 34 && Closed(c[i..end])
    decreases end - i
  {
    var s := c[i..end];
    if i < end {
      assert s[0] == c[i] && s[1..] == c[i + 1..end];
      if c[i] != 92 {
        ClosedExactly(c, i + 1, end);
      } else if i + 2 <= end {
        assert s[2..] == c[i + 2..end];
        ClosedExactly(c, i + 2, end);
      }
    }
  }

  lemma LiteralSlice(c: seq<Byte>, i: nat, end: nat)
    requires i < end < |c| && c[i] == 34 && c[end] == 34
    ensures c[i..end + 1] == [34] + c[i + 1..end] + [34]
  {
  }

  /** A string literal is accepted exactly if it is one of the grammar, and read as what it means. */
  lemma LiteralFound(c: seq<Byte>, i: nat) returns (chars: seq<Char>)
    requires i < |c| && StringAt(c, i).Some?
    ensures LiteralOk(chars) && At(c, i, LiteralText(chars))
    ensures StringAt(c, i) == Some((CharsBytes(chars), i + |LiteralText(chars)|))
  {
    hide ClosingQuote, Unescaped, CharsOk, CharsText, CharsBytes, Closed;
    var end := ClosingQuote(c, i + 1).value;
    chars := CharsFound(c, i + 1, end);
    ClosedExactly(c, i + 1, end);
    LiteralSlice(c, i, end);
  }

  lemma LiteralRead(c: seq<Byte>, i: nat, chars: seq<Char>)
    requires LiteralOk(chars) && At(c, i, LiteralText(chars))
    ensures i < |c| && StringAt(c, i) == Some((CharsBytes(chars), i + |LiteralText(chars)|))
  {
    hide ClosingQuote, Unescaped, CharsOk, CharsText, CharsBytes, Closed, At;
    var t := CharsText(chars);
    var end := i + 1 + |t|;
    Regroup([34], t, [34]);
    AtParts(c, i, [34], t + [34]);
    AtParts(c, i + 1, t, [34]);
    AtSlice(c, i, [34]);
    AtSlice(c, i + 1, t);
    AtSlice(c, end, [34]);
    ClosedExactly(c, i + 1, end);
    CharsRead(c, i + 1, end, chars);
  }

  lemma AtSlice(c: seq<Byte>, i: nat, t: seq<Byte>)
    requires At(c, i, t)
    ensures i + |t| <= |c| && c[i..i + |t|] == t && (t != [] ==> c[i] == t[0])
  {
    if t != [] {
      assert c[i..i + |t|][0] == c[i];
    }
  }

  /** Without the two oddities, a literal is closed exactly if no plain character is a quote. */
  predicate Strict(chars: seq<Char>) {
    forall k :: 0 <= k < |chars| ==> !chars[k].Blind? && !chars[k].Stray?
  }

  lemma WrittenClosed(t: seq<Byte>, h: nat, rest: seq<Byte>)
    requires Written(t, h)
    ensures Closed(t + rest) <==> Closed(rest)
  {
    var s := t + rest;
    assert s[2] != 34 && s[2] != 92 && s[3] != 34 && s[3] != 92;
    assert s[4] != 34 && s[4] != 92 && s[5] != 34 && s[5] != 92;
    hide Written;
    assert Closed(s) <==> Closed(s[2..]);
    assert Closed(s[2..]) <==> Closed(s[3..]) by { assert s[2..][1..] == s[3..]; }
    assert Closed(s[3..]) <==> Closed(s[4..]) by { assert s[3..][1..] == s[4..]; }
    assert Closed(s[4..]) <==> Closed(s[5..]) by { assert s[4..][1..] == s[5..]; }
    assert Closed(s[5..]) <==> Closed(s[6..]) by { assert s[5..][1..] == s[6..]; }
    assert s[6..] == rest;
  }

  lemma CharClosed(x: Char, rest: seq<Byte>)
    requires CharOk(x) && !x.Blind? && !x.Stray?
    ensures Closed(CharText(x) + rest) <==> x != Plain(34) && Closed(rest)
  {
    hide CodePoint, Written;
    var s := CharText(x) + rest;
    match x
    case Plain(b) => assert s[1..] == rest;
    case Short(l) => assert s[2..] == rest;
    case Point(p, t, _) =>
      if p < 0x10000 {
        WrittenClosed(t, p, rest);
      } else {
        assert s == t[..6] + (t[6..] + rest);
        WrittenClosed(t[..6], 0xD800 + (p - 0x10000) / 1024, t[6..] + rest);
        WrittenClosed(t[6..], 0xDC00 + (p - 0x10000) % 1024, rest);
      }
  }

  lemma {:induction false} StrictClosed(chars: seq<Char>)
    requires CharsOk(chars) && Strict(chars)
    ensures Closed(CharsText(chars)) <==> Plain(34) !in chars
  {
    hide CharOk, CharText, Closed;
    if chars == [] {
      EmptyClosed();
    } else {
      StrictClosed(chars[1..]);
      CharClosed(chars[0], CharsText(chars[1..]));
      assert chars == [chars[0]] + chars[1..];
    }
  }

  lemma EmptyClosed()
    ensures Closed([])
  {
  }
}
