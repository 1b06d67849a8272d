/** JSON strings in cJSON.c: escaping, unescaping, and UTF-16 escapes turned into UTF-8. Bytes are numbers; a C string
    is the bytes before its terminating zero. */
module JsonStrings {

  import opened Wrappers

  type Byte = x: nat | x < 256

  const QUOTE: Byte := 34
  const BACKSLASH: Byte := 92
  const SLASH: Byte := 47

  // ---- Code points ----

  /** The bytes written for a code point. */
  function Utf8(p: nat): (r: seq<Byte>)
    requires p <= 0x10FFFF
    ensures 1 <= |r| <= 4
  {
    if p < 0x80 then [p]
    else if p < 0x800 then [0xC0 + p / 64, 0x80 + p % 64]
    else if p < 0x10000 then [0xE0 + p / 4096, 0x80 + p / 64 % 64, 0x80 + p % 64]
    else [0xF0 + p / 262144, 0x80 + p / 4096 % 64, 0x80 + p / 64 % 64, 0x80 + p % 64]
  }

  predicate Tail(b: Byte) {
    0x80 <= b < 0xC0
  }

  /** The code point of a sequence of one to four bytes, by section 3 of RFC 3629: the shortest form only, and no
      surrogates. */
  function CodePoint(s: seq<Byte>): Option<nat> {
    if |s| == 1 && s[0] < 0x80 then Some(s[0])
    else if |s| == 2 && 0xC2 <= s[0] < 0xE0 && Tail(s[1]) then Some(64 * (s[0] as int - 0xC0) + (s[1] as int - 0x80))
    else if |s| == 3 && 0xE0 <= s[0] < 0xF0 && Tail(s[1]) && Tail(s[2]) then
      var p := 4096 * (s[0] as int - 0xE0) + 64 * (s[1] as int - 0x80) + (s[2] as int - 0x80);
      if p < 0x800 || 0xD800 <= p < 0xE000 then None else Some(p)
    else if |s| == 4 && 0xF0 <= s[0] < 0xF5 && Tail(s[1]) && Tail(s[2]) && Tail(s[3]) then
      var p := 262144 * (s[0] as int - 0xF0) + 4096 * (s[1] as int - 0x80) + 64 * (s[2] as int - 0x80) +
        (s[3] as int - 0x80);
      if p < 0x10000 || p > 0x10FFFF then None else Some(p)
    else None
  }

  /** A number in groups of six bits. */
  lemma Groups(p: nat)
    ensures p == 64 * (p / 64) + p % 64 && p / 64 == 64 * (p / 4096) + p / 64 % 64
    ensures p / 4096 == 64 * (p / 262144) + p / 4096 % 64
  {
    assert p / 64 / 64 == p / 4096;
    assert p / 4096 / 64 == p / 262144;
  }

  lemma Utf8Three(x: nat, y: nat, z: nat)
    requires x < 16 && y < 64 && z < 64
    requires var p := 4096 * x + 64 * y + z; 0x800 <= p < 0x10000 && !(0xD800 <= p < 0xE000)
    ensures CodePoint([0xE0 + x, 0x80 + y, 0x80 + z]) == Some(4096 * x + 64 * y + z)
  {
  }

  lemma Utf8Four(w: nat, x: nat, y: nat, z: nat)
    requires w < 5 && x < 64 && y < 64 && z < 64 && 0x10000 <= 262144 * w + 4096 * x + 64 * y + z <= 0x10FFFF
    ensures CodePoint([0xF0 + w, 0x80 + x, 0x80 + y, 0x80 + z]) == Some(262144 * w + 4096 * x + 64 * y + z)
  {
  }

  /** What is written for a code point that is not a surrogate is its UTF-8 form. */
  lemma Utf8IsUtf8(p: nat)
    requires p <= 0x10FFFF && !(0xD800 <= p < 0xE000)
    ensures CodePoint(Utf8(p)) == Some(p)
  {
    if 0x800 <= p < 0x10000 {
      hide CodePoint;
      Groups(p);
      Utf8Three(p / 4096, p / 64 % 64, p % 64);
    } else if p >= 0x10000 {
      hide CodePoint;
      Groups(p);
      Utf8Four(p / 262144, p / 4096 % 64, p / 64 % 64, p % 64);
    }
  }

  // ---- Hexadecimal digits ----

  function Digit(b: Byte): Option<nat> {
    if 48 <= b <= 57 then Some(b - 48)
    else if 65 <= b <= 70 then Some(b - 55)
    else if 97 <= b <= 102 then Some(b - 87)
    else None
  }

  /** parse_hex4: 0 also stands for digits that are not. */
  function Hex4(s: seq<Byte>): (h: nat)
    requires |s| == 4
    ensures h < 0x10000
  {
    if Digit(s[0]).Some? && Digit(s[1]).Some? && Digit(s[2]).Some? && Digit(s[3]).Some? then
      ((Digit(s[0]).value * 16 + Digit(s[1]).value) * 16 + Digit(s[2]).value) * 16 + Digit(s[3]).value
    else 0
  }

  method ParseHex4(s: seq<Byte>) returns (h: nat)
    requires |s| == 4
    ensures h == Hex4(s)
  {
    h := 0;
    for i := 0 to 4
      invariant forall j :: 0 <= j < i ==> Digit(s[j]).Some?
      invariant i == 0 ==> h == 0
      invariant i == 1 ==> h == 16 * Digit(s[0]).value
      invariant i == 2 ==> h == 16 * (16 * Digit(s[0]).value + Digit(s[1]).value)
      invariant i == 3 ==> h == 16 * (16 * (16 * Digit(s[0]).value + Digit(s[1]).value) + Digit(s[2]).value)
      invariant i == 4 ==>
                  h == 16 * (16 * (16 * Digit(s[0]).value + Digit(s[1]).value) + Digit(s[2]).value) + Digit(s[3]).value
    {
      var b := s[i];
      if 48 <= b <= 57 {
        h := h + (b - 48);
      } else if 65 <= b <= 70 {
        h := h + (10 + b - 65);
      } else if 97 <= b <= 102 {
        h := h + (10 + b - 97);
      } else {
        return 0;
      }
      if i < 3 {
        h := h * 16;
      }
    }
  }

  // ---- Escapes ----

  /** What an escape stands for, and how many bytes it takes. */
  datatype Escape = Escape(bytes: seq<Byte>, length: nat)

  predicate High(h: nat) { 0xD800 <= h < 0xDC00 }
  predicate Low(h: nat) { 0xDC00 <= h < 0xE000 }

  /** The code point of a surrogate pair, by section 2.2 of RFC 2781. */
  function Pair(high: nat, low: nat): nat {
    0x10000 + high % 1024 * 1024 + low % 1024
  }

  /** Every code point beyond the first plane is that of exactly the pair that encodes it. */
  lemma PairExactly(p: nat, high: nat, low: nat)
    requires 0x10000 <= p <= 0x10FFFF && High(high) && Low(low)
    ensures Pair(high, low) == p <==> high == 0xD800 + (p - 0x10000) / 1024 && low == 0xDC00 + (p - 0x10000) % 1024
  {
    assert high % 1024 == high - 0xD800 && low % 1024 == low - 0xDC00;
  }

  /** utf16_literal_to_utf8, for the bytes of a literal from its backslash to the end of the string. */
  function Utf16(s: seq<Byte>): (r: Option<Escape>)
    ensures r.Some? ==> 6 <= r.value.length <= |s| && 1 <= |r.value.bytes| <= 4
    ensures r.Some? ==> (r.value.length == 6 && |r.value.bytes| <= 3) || r.value.length == 12
  {
    if |s| < 6 then None
    else
      var first := Hex4(s[2..6]);
      if Low(first) then None
      else if High(first) then
        if |s| < 12 || s[6] != BACKSLASH || s[7] != 117 then None
        else
          var second := Hex4(s[8..12]);
          if !Low(second) then None else Some(Escape(Utf8(Pair(first, second)), 12))
      else Some(Escape(Utf8(first), 6))
  }

  /** The escape at the start of s, whose first byte is a backslash. */
  function Unescape(s: seq<Byte>): (r: Option<Escape>)
    requires |s| >= 2
    ensures r.Some? ==> 2 <= r.value.length <= |s| && 1 <= |r.value.bytes| <= 4
  {
    var b := s[1];
    if b == 98 then Some(Escape([8], 2))
    else if b == 102 then Some(Escape([12], 2))
    else if b == 110 then Some(Escape([10], 2))
    else if b == 114 then Some(Escape([13], 2))
    else if b == 116 then Some(Escape([9], 2))
    else if b == QUOTE || b == BACKSLASH || b == SLASH then Some(Escape([b], 2))
    else if b == 117 then Utf16(s)
    else None
  }

  // ---- The two passes of parse_string ----

  /** The first pass: the position of the closing quote at or after i, if escapes are skipped. */
  function ClosingQuote(c: seq<Byte>, i: nat): (r: Option<nat>)
    requires i <= |c|
    ensures r.Some? ==> i <= r.value < |c| && c[r.value] == QUOTE
    decreases |c| - i
  {
    if i == |c| then None
    else if c[i] == QUOTE then Some(i)
    else if c[i] == BACKSLASH then if i + 1 >= |c| then None else ClosingQuote(c, i + 2)
    else ClosingQuote(c, i + 1)
  }

  /** The number of characters and escapes the first pass finds between i and the closing quote: an escape counts once,
      its second byte is what the source calls skipped. */
  function Tokens(c: seq<Byte>, i: nat): nat
    requires i <= |c|
    decreases |c| - i
  {
    if i == |c| || c[i] == QUOTE then 0
    else if c[i] == BACKSLASH then if i + 1 >= |c| then 0 else 1 + Tokens(c, i + 2)
    else 1 + Tokens(c, i + 1)
  }

  /** The second pass: the bytes between i and the closing quote at end, unescaped. It may come out of step with the
      first pass after a literal whose digits are none, and then takes the closing quote for an escaped one. */
  function Unescaped(c: seq<Byte>, i: nat, end: nat): Option<seq<Byte>>
    requires i <= end < |c|
    decreases end - i
  {
    if i == end then Some([])
    else if c[i] != BACKSLASH then
      var rest := Unescaped(c, i + 1, end);
      if rest.None? then None else Some([c[i]] + rest.value)
    else if i + 1 == end then Some([QUOTE])
    else
      var e := Unescape(c[i..end]);
      if e.None? then None
      else
        var rest := Unescaped(c, i + e.value.length, end);
        if rest.None? then None else Some(e.value.bytes + rest.value)
  }

  /** Position i is where the first pass starts a character or escape. */
  ghost predicate InStep(c: seq<Byte>, i: nat, end: nat)
    requires i <= |c|
  {
    ClosingQuote(c, i) == Some(end)
  }

  /** Position i is the second byte of an escape of the first pass. */
  ghost predicate OutOfStep(c: seq<Byte>, i: nat, end: nat)
    requires i <= |c|
  {
    0 < i < |c| && c[i - 1] == BACKSLASH && ClosingQuote(c, i + 1) == Some(end)
  }

  /** The first pass's count of what is left at i. */
  function Left(c: seq<Byte>, i: nat, inStep: bool): nat
    requires if inStep then i <= |c| else i < |c|
  {
    if inStep then Tokens(c, i) else 1 + Tokens(c, i + 1)
  }

  /** Moving n bytes on, the first pass is in step or out of step again, and what it had counted was not less than
      half of the bytes. */
  lemma {:induction false} Advance(c: seq<Byte>, i: nat, end: nat, inStep: bool, n: nat) returns (inStep': bool)
    requires i + n <= end < |c| && (if inStep then InStep(c, i, end) else OutOfStep(c, i, end))
    ensures if inStep' then InStep(c, i + n, end) else OutOfStep(c, i + n, end)
    ensures 2 * Left(c, i, inStep) + (if inStep' then 0 else 1) >= 2 * Left(c, i + n, inStep') + n +
            (if inStep then 0 else 1)
    decreases n
  {
    if n == 0 {
      inStep' := inStep;
    } else if !inStep {
      inStep' := Advance(c, i + 1, end, true, n - 1);
    } else if c[i] == BACKSLASH {
      inStep' := Advance(c, i + 1, end, false, n - 1);
    } else {
      inStep' := Advance(c, i + 1, end, true, n - 1);
    }
  }

  lemma {:induction false} PassesBound(c: seq<Byte>, i: nat, end: nat, inStep: bool)
    requires i <= end < |c| && (if inStep then InStep(c, i, end) else OutOfStep(c, i, end))
    ensures Unescaped(c, i, end).Some? ==> |Unescaped(c, i, end).value| <= Left(c, i, inStep)
    decreases end - i
  {
    hide Utf16;
    if i == end {
    } else if c[i] != BACKSLASH {
      PassesBound(c, i + 1, end, true);
    } else if i + 1 < end {
      var e := Unescape(c[i..end]);
      if e.Some? {
        var n := e.value.length;
        EscapeYield(c[i..end]);
        var s := Advance(c, i, end, inStep, n);
        PassesBound(c, i + n, end, s);
      }
    }
  }

  /** An escape yields at most half its bytes. */
  lemma EscapeYield(s: seq<Byte>)
    requires |s| >= 2 && Unescape(s).Some?
    ensures 2 * |Unescape(s).value.bytes| <= Unescape(s).value.length
  {
  }

  /** The number of escapes the first pass skips over. */
  function Skipped(c: seq<Byte>, i: nat): nat
    requires i <= |c|
    decreases |c| - i
  {
    if i == |c| || c[i] == QUOTE then 0
    else if c[i] == BACKSLASH then if i + 1 >= |c| then 0 else 1 + Skipped(c, i + 2)
    else Skipped(c, i + 1)
  }

  lemma {:induction false} SkippedAndTokens(c: seq<Byte>, i: nat)
    requires i <= |c| && ClosingQuote(c, i).Some?
    ensures Tokens(c, i) + Skipped(c, i) == ClosingQuote(c, i).value - i
    decreases |c| - i
  {
    if c[i] != QUOTE {
      SkippedAndTokens(c, if c[i] == BACKSLASH then i + 2 else i + 1);
    }
  }

  /** For every literal that is accepted, what the second pass writes fits what the first pass had allocated, the
      terminating zero included. */
  lemma AllocationSuffices(c: seq<Byte>, i: nat)
    requires i < |c| && ClosingQuote(c, i + 1).Some? && Unescaped(c, i + 1, ClosingQuote(c, i + 1).value).Some?
    ensures var end := ClosingQuote(c, i + 1).value;
            |Unescaped(c, i + 1, end).value| + 1 <= (end - i - Skipped(c, i + 1)) + 1
  {
    PassesBound(c, i + 1, ClosingQuote(c, i + 1).value, true);
    SkippedAndTokens(c, i + 1);
  }

  // ---- Printing ----

  function HexDigit(d: nat): Byte
    requires d < 16
  {
    if d < 10 then 48 + d else 87 + d
  }

  /** What is printed for a byte. */
  function Escaped1(b: Byte): seq<Byte> {
    if b == QUOTE || b == BACKSLASH then [BACKSLASH, b]
    else if b == 8 then [BACKSLASH, 98]
    else if b == 12 then [BACKSLASH, 102]
    else if b == 10 then [BACKSLASH, 110]
    else if b == 13 then [BACKSLASH, 114]
    else if b == 9 then [BACKSLASH, 116]
    else if b < 32 then [BACKSLASH, 117, 48, 48, HexDigit(b / 16), HexDigit(b % 16)]
    else [b]
  }

  function Escaped(s: seq<Byte>): seq<Byte> {
    if s == [] then [] else Escaped1(s[0]) + Escaped(s[1..])
  }

  function Quoted(s: seq<Byte>): (r: seq<Byte>)
    ensures |r| >= 2 && r[0] == QUOTE
  {
    [QUOTE] + Escaped(s) + [QUOTE]
  }

  /** The text t stands in c at position i. */
  predicate At(c: seq<Byte>, i: nat, t: seq<Byte>) {
    i + |t| <= |c| && c[i..i + |t|] == t
  }

  lemma AtParts(c: seq<Byte>, i: nat, a: seq<Byte>, b: seq<Byte>)
    requires At(c, i, a + b)
    ensures At(c, i, a) && At(c, i + |a|, b)
  {
    assert c[i..i + |a + b|][..|a|] == a && c[i..i + |a + b|][|a|..] == b;
  }

  predicate ZeroFree(s: seq<Byte>) {
    forall i :: 0 <= i < |s| ==> s[i] != 0
  }

  lemma Regroup(a: seq<Byte>, b: seq<Byte>, c: seq<Byte>)
    ensures (a + b) + c == a + (b + c)
  {
  }

  /** A string and what follows it, read from position i: parse_string. */
  function StringAt(c: seq<Byte>, i: nat): (r: Option<(seq<Byte>, nat)>)
    requires i < |c|
    ensures r.Some? ==> i < r.value.1 <= |c|
  {
    if c[i] != QUOTE then None
    else
      var end := ClosingQuote(c, i + 1);
      if end.None? then None
      else
        var s := Unescaped(c, i + 1, end.value);
        if s.None? then None else Some((s.value, end.value + 1))
  }

  // ---- The methods ----

  /** p shifted right by 6 bits k times. */
  function Shifted(p: nat, k: nat): nat {
    if k == 0 then p else if k == 1 then p / 64 else if k == 2 then p / 4096 else p / 262144
  }

  lemma ShiftedMore(p: nat, k: nat)
    requires k < 3
    ensures Shifted(p, k) / 64 == Shifted(p, k + 1)
  {
  }

  function Mark(length: nat): nat {
    if length <= 1 then 0 else if length == 2 then 0xC0 else if length == 3 then 0xE0 else 0xF0
  }

  lemma Utf8At(p: nat)
    requires p <= 0x10FFFF
    ensures var n := |Utf8(p)|;
            && n == (if p < 0x80 then 1 else if p < 0x800 then 2 else if p < 0x10000 then 3 else 4)
            && Utf8(p)[0] == Mark(n) + Shifted(p, n - 1)
            && forall k :: 0 < k < n ==> Utf8(p)[k] == 0x80 + Shifted(p, n - 1 - k) % 64
  {
  }

  /** The bytes of a code point, last byte first. */
  method EncodeUtf8(p: nat) returns (bytes: seq<Byte>)
    requires p <= 0x10FFFF
    ensures bytes == Utf8(p)
  {
    hide Utf8, Shifted;
    Utf8At(p);
    var length, mark := 1, 0;
    if p < 0x80 {
    } else if p < 0x800 {
      length, mark := 2, 0xC0;
    } else if p < 0x10000 {
      length, mark := 3, 0xE0;
    } else {
      length, mark := 4, 0xF0;
    }
    NotShifted(p);
    var rest, pos := p, length - 1;
    bytes := [];
    while pos > 0
      invariant 0 <= pos <= length - 1 && |bytes| == length - 1 - pos && rest == Shifted(p, length - 1 - pos)
      invariant forall k :: pos < k < length ==> bytes[k - pos - 1] == Utf8(p)[k]
    {
      ShiftedMore(p, length - 1 - pos);
      bytes := [0x80 + rest % 64] + bytes;
      rest, pos := rest / 64, pos - 1;
    }
    bytes := [mark + rest] + bytes;
  }

  lemma NotShifted(p: nat)
    ensures Shifted(p, 0) == p
  {
  }

  /** utf16_literal_to_utf8. */
  method Utf16Literal(s: seq<Byte>) returns (r: Option<Escape>)
    ensures r == Utf16(s)
  {
    hide Utf8, Hex4;
    if |s| < 6 {
      return None;
    }
    var first := ParseHex4(s[2..6]);
    if 0xDC00 <= first <= 0xDFFF {
      return None;
    }
    var code, length := first, 6;
    if 0xD800 <= first <= 0xDBFF {
      length := 12;
      if |s| - 6 < 6 || s[6] != BACKSLASH || s[7] != 117 {
        return None;
      }
      var second := ParseHex4(s[8..12]);
      if second < 0xDC00 || second > 0xDFFF {
        return None;
      }
      code := 0x10000 + (first % 1024 * 1024 + second % 1024);
    }
    var bytes := EncodeUtf8(code);
    return Some(Escape(bytes, length));
  }

  /** The switch over the byte after a backslash. */
  method UnescapeOne(s: seq<Byte>) returns (r: Option<Escape>)
    requires |s| >= 2
    ensures r == Unescape(s)
  {
    hide Utf16;
    match s[1]
    case 98 => r := Some(Escape([8], 2));
    case 102 => r := Some(Escape([12], 2));
    case 110 => r := Some(Escape([10], 2));
    case 114 => r := Some(Escape([13], 2));
    case 116 => r := Some(Escape([9], 2));
    case 117 => r := Utf16Literal(s);
    case _ =>
      if s[1] == QUOTE || s[1] == BACKSLASH || s[1] == SLASH {
        r := Some(Escape([s[1]], 2));
      } else {
        r := None;
      }
  }

  /** The first pass of parse_string. */
  method FindEnd(c: seq<Byte>, i: nat) returns (end: Option<nat>, skipped: nat)
    requires i < |c|
    ensures end == ClosingQuote(c, i + 1) && (end.Some? ==> skipped == Skipped(c, i + 1))
  {
    skipped := 0;
    var e := i + 1;
    while e < |c| && c[e] != QUOTE
      invariant i + 1 <= e <= |c| && ClosingQuote(c, i + 1) == ClosingQuote(c, e) &&
                Skipped(c, i + 1) == skipped + Skipped(c, e)
    {
      if c[e] == BACKSLASH {
        if e + 1 >= |c| {
          return None, skipped;
        }
        skipped := skipped + 1;
        e := e + 1;
      }
      e := e + 1;
    }
    if e >= |c| {
      return None, skipped;
    }
    return Some(e), skipped;
  }

  /** The second pass of parse_string, into the array allocated after the first: no write leaves it, also when the
      string turns out to be malformed. */
  method Convert(c: seq<Byte>, i: nat, end: nat, output: array<Byte>) returns (ok: bool, n: nat)
    requires i < end < |c| && ClosingQuote(c, i + 1) == Some(end) && output.Length >= end - i - Skipped(c, i + 1) + 1
    modifies output
    ensures ok <==> Unescaped(c, i + 1, end).Some?
    ensures ok ==> n < output.Length && output[..n] == Unescaped(c, i + 1, end).value && output[n] == 0
  {
    hide Unescaped, Unescape, ClosingQuote, Tokens, Skipped, InStep, OutOfStep, Left;
    ConvertStart(c, i, end);
    ghost var total := Unescaped(c, i + 1, end);
    ghost var inStep := true;
    n := 0;
    var p := i + 1;
    while p < end
      invariant p <= end + 1 && n <= output.Length
      invariant p <= end ==>
                  (if inStep then InStep(c, p, end) else OutOfStep(c, p, end)) && n + Left(c, p, inStep) < output.Length
      invariant p <= end ==> total == Joined(output[..n], Unescaped(c, p, end))
      invariant p > end ==> n < output.Length && total == Some(output[..n])
    {
      ghost var before := output[..n];
      UnescapedOnce(c, p, end);
      if c[p] != BACKSLASH {
        CharStep(c, p, end, inStep);
        JoinedMore(before, [c[p]], Unescaped(c, p + 1, end));
        Append(output, n, [c[p]]);
        n, p, inStep := n + 1, p + 1, true;
      } else if p + 1 == end {
        LastStep(c, p, end, inStep);
        Append(output, n, [QUOTE]);
        n, p := n + 1, p + 2;
      } else {
        var e := UnescapeOne(c[p..end]);
        if e.None? {
          return false, n;
        }
        EscapeYield(c[p..end]);
        ghost var s := Advance(c, p, end, inStep, e.value.length);
        JoinedMore(before, e.value.bytes, Unescaped(c, p + e.value.length, end));
        Append(output, n, e.value.bytes);
        n, p, inStep := n + |e.value.bytes|, p + e.value.length, s;
      }
    }
    if p == end {
      UnescapedOnce(c, p, end);
      assert output[..n] + [] == output[..n];
    }
    ghost var done := output[..n];
    output[n] := 0;
    assert output[..n] == done;
    return true, n;
  }

  lemma ConvertStart(c: seq<Byte>, i: nat, end: nat)
    requires i < end < |c| && ClosingQuote(c, i + 1) == Some(end)
    ensures InStep(c, i + 1, end) && Left(c, i + 1, true) == end - i - 1 - Skipped(c, i + 1)
    ensures Joined([], Unescaped(c, i + 1, end)) == Unescaped(c, i + 1, end)
  {
    SkippedAndTokens(c, i + 1);
    if Unescaped(c, i + 1, end).Some? {
      assert [] + Unescaped(c, i + 1, end).value == Unescaped(c, i + 1, end).value;
    }
  }

  lemma UnescapedOnce(c: seq<Byte>, i: nat, end: nat)
    requires i <= end < |c|
    ensures i == end ==> Unescaped(c, i, end) == Some([])
    ensures i < end && c[i] != BACKSLASH ==>
              Unescaped(c, i, end) ==
                if Unescaped(c, i + 1, end).None? then None else Some([c[i]] + Unescaped(c, i + 1, end).value)
    ensures i < end && c[i] == BACKSLASH && i + 1 == end ==> Unescaped(c, i, end) == Some([QUOTE])
    ensures i + 1 < end && c[i] == BACKSLASH ==>
              var e := Unescape(c[i..end]);
              Unescaped(c, i, end) ==
                if e.None? || Unescaped(c, i + e.value.length, end).None? then None
                else Some(e.value.bytes + Unescaped(c, i + e.value.length, end).value)
  {
    hide Unescape;
  }

  lemma CharStep(c: seq<Byte>, p: nat, end: nat, inStep: bool)
    requires p < end < |c| && c[p] != BACKSLASH && (if inStep then InStep(c, p, end) else OutOfStep(c, p, end))
    ensures InStep(c, p + 1, end) && Left(c, p, inStep) == 1 + Left(c, p + 1, true)
  {
  }

  lemma LastStep(c: seq<Byte>, p: nat, end: nat, inStep: bool)
    requires p + 1 == end < |c| && c[p] == BACKSLASH && (if inStep then InStep(c, p, end) else OutOfStep(c, p, end))
    ensures Left(c, p, inStep) >= 1
  {
  }

  /** The bytes before and what follows, if it is there. */
  function Joined(a: seq<Byte>, b: Option<seq<Byte>>): Option<seq<Byte>> {
    if b.None? then None else Some(a + b.value)
  }

  lemma JoinedMore(a: seq<Byte>, b: seq<Byte>, rest: Option<seq<Byte>>)
    ensures Joined(a, if rest.None? then None else Some(b + rest.value)) == Joined(a + b, rest)
  {
    if rest.Some? {
      assert a + (b + rest.value) == (a + b) + rest.value;
    }
  }

  method Append(output: array<Byte>, n: nat, bytes: seq<Byte>)
    requires n + |bytes| <= output.Length
    modifies output
    ensures output[..n + |bytes|] == old(output[..n]) + bytes
    ensures forall i :: n + |bytes| <= i < output.Length ==> output[i] == old(output[i])
  {
    for k := 0 to |bytes|
      invariant output[..n + k] == old(output[..n]) + bytes[..k]
      invariant forall i :: n + k <= i < output.Length ==> output[i] == old(output[i])
    {
      output[n + k] := bytes[k];
    }
    assert bytes[..|bytes|] == bytes;
  }

  /** parse_string: the string at position i and the position after it. */
  method ParseString(c: seq<Byte>, i: nat) returns (r: Option<(seq<Byte>, nat)>)
    requires i < |c|
    ensures r == StringAt(c, i)
  {
    hide Unescaped, ClosingQuote, Skipped;
    if c[i] != QUOTE {
      return None;
    }
    var end, skipped := FindEnd(c, i);
    if end.None? {
      return None;
    }
    SkippedFits(c, i);
    var output := new Byte[end.value - i - skipped + 1];
    var ok, n := Convert(c, i, end.value, output);
    if !ok {
      return None;
    }
    return Some((output[..n], end.value + 1));
  }

  lemma SkippedFits(c: seq<Byte>, i: nat)
    requires i < |c| && ClosingQuote(c, i + 1).Some?
    ensures Skipped(c, i + 1) <= ClosingQuote(c, i + 1).value - i
  {
    SkippedAndTokens(c, i + 1);
  }

  /** The first pass of print_string_ptr: how many bytes escaping adds. */
  function Extra(s: seq<Byte>): nat {
    if s == [] then 0 else |Escaped1(s[0])| - 1 + Extra(s[1..])
  }

  lemma {:induction false} ExtraIsExact(s: seq<Byte>)
    ensures |Escaped(s)| == |s| + Extra(s)
  {
    if s != [] {
      ExtraIsExact(s[1..]);
    }
  }

  lemma {:induction false} ExtraMore(s: seq<Byte>, b: Byte)
    ensures Extra(s + [b]) == Extra(s) + |Escaped1(b)| - 1 && Escaped(s + [b]) == Escaped(s) + Escaped1(b)
  {
    hide Escaped1;
    if s == [] {
      assert s + [b] == [b];
    } else {
      assert (s + [b])[1..] == s[1..] + [b];
      ExtraMore(s[1..], b);
    }
  }

  method CountExtra(s: seq<Byte>) returns (extra: nat)
    ensures extra == Extra(s)
  {
    extra := 0;
    for i := 0 to |s|
      invariant extra == Extra(s[..i])
    {
      ExtraMore(s[..i], s[i]);
      assert s[..i + 1] == s[..i] + [s[i]];
      if s[i] in {QUOTE, BACKSLASH, 8, 12, 10, 13, 9} {
        extra := extra + 1;
      } else if s[i] < 32 {
        extra := extra + 5;
      }
    }
    assert s[..|s|] == s;
  }

  /** The bytes the second pass writes for one byte of the string; for a control character there is a terminator after
      the n bytes that count. */
  method EscapeByte(b: Byte) returns (e: seq<Byte>, n: nat)
    ensures n <= |e| <= n + 1 && e[..n] == Escaped1(b)
  {
    if b > 31 && b != QUOTE && b != BACKSLASH {
      return [b], 1;
    }
    n := 2;
    match b
    case 92 => e := [BACKSLASH, 92];
    case 34 => e := [BACKSLASH, 34];
    case 8 => e := [BACKSLASH, 98];
    case 12 => e := [BACKSLASH, 102];
    case 10 => e := [BACKSLASH, 110];
    case 13 => e := [BACKSLASH, 114];
    case 9 => e := [BACKSLASH, 116];
    case _ => e, n := [BACKSLASH, 117, 48, 48, HexDigit(b / 16), HexDigit(b % 16), 0], 6;
  }

  /** The loop of the second pass, when there is something to escape: it writes after the opening quote at the end of
      the first n bytes, and not more than the closing quote and the terminator will take besides. */
  method FillEscaped(output: array<Byte>, n: nat, s: seq<Byte>)
    requires n + |Escaped(s)| + 2 <= output.Length
    modifies output
    ensures output[..n + |Escaped(s)|] == old(output[..n]) + Escaped(s)
    ensures forall i :: n + |Escaped(s)| + 2 <= i < output.Length ==> output[i] == old(output[i])
  {
    hide Escaped1, Escaped;
    ghost var length := |Escaped(s)|;
    var m := n;
    EscapedNone(s);
    assert output[..n] == old(output[..n]) + [];
    for i := 0 to |s|
      invariant n <= m <= n + length && m + |Escaped(s[i..])| == n + length
      invariant output[..m] == old(output[..n]) + Escaped(s[..i])
      invariant forall k :: n + length + 2 <= k < output.Length ==> output[k] == old(output[k])
    {
      EscapedSplit(s, i);
      var e, k := EscapeByte(s[i]);
      ghost var before := Escaped(s[..i]);
      Append(output, m, e);
      CutAppended(output[..m + |e|], old(output[..n]) + before, e, k);
      m := m + k;
      Regroup(old(output[..n]), before, e[..k]);
    }
    assert s[..|s|] == s;
  }

  lemma CutAppended(c: seq<Byte>, a: seq<Byte>, e: seq<Byte>, k: nat)
    requires c == a + e && k <= |e|
    ensures c[..|a| + k] == a + e[..k]
  {
  }

  lemma EscapedNone(s: seq<Byte>)
    ensures Escaped(s[..0]) == [] == Escaped(s[|s|..]) && s[0..] == s
  {
  }

  /** The second pass of print_string_ptr: with the number of extra bytes of the first it stays within the bytes it was
      granted, which are those of the literal and its terminator, and fills them. */
  method WriteString(output: array<Byte>, n: nat, s: seq<Byte>, extra: nat)
    requires extra == Extra(s) && n + (|s| + extra + 3) <= output.Length
    modifies output
    ensures |Quoted(s)| == |s| + extra + 2
    ensures output[..n + |Quoted(s)|] == old(output[..n]) + Quoted(s) && output[n + |Quoted(s)|] == 0
    ensures forall i :: n + (|s| + extra + 3) <= i < output.Length ==> output[i] == old(output[i])
  {
    hide Escaped1, Escaped, Extra;
    var length := |s| + extra;
    ExtraIsExact(s);
    ghost var before := output[..n];
    output[n] := QUOTE;
    assert output[..n + 1] == before + [QUOTE];
    if extra == 0 {
      NothingToEscape(s);
      Append(output, n + 1, s);
    } else {
      FillEscaped(output, n + 1, s);
    }
    ghost var done := output[..n + 1 + length];
    output[n + length + 1] := QUOTE;
    output[n + length + 2] := 0;
    assert output[..n + length + 2] == done + [QUOTE];
    QuotedAfter(before, s);
  }

  lemma QuotedAfter(before: seq<Byte>, s: seq<Byte>)
    ensures before + [QUOTE] + Escaped(s) + [QUOTE] == before + Quoted(s)
  {
    hide Escaped;
    assert before + [QUOTE] + Escaped(s) + [QUOTE] == before + ([QUOTE] + Escaped(s) + [QUOTE]);
  }

  lemma {:induction false} NothingToEscape(s: seq<Byte>)
    requires Extra(s) == 0
    ensures Escaped(s) == s
  {
    if s != [] {
      NothingToEscape(s[1..]);
      assert [s[0]] + s[1..] == s;
    }
  }

  lemma EscapedSplit(s: seq<Byte>, i: nat)
    requires i < |s|
    ensures Escaped(s[..i + 1]) == Escaped(s[..i]) + Escaped1(s[i]) &&
            |Escaped(s[i..])| == |Escaped1(s[i])| + |Escaped(s[i + 1..])|
  {
    hide Escaped1;
    ExtraMore(s[..i], s[i]);
    assert s[..i + 1] == s[..i] + [s[i]];
    assert s[i..][1..] == s[i + 1..];
  }
}
