/** What the printer of cJSON.c writes is a document that means the printed tree, so the parser reads it back. */
module JsonRoundTrip {

  import opened JsonGrammar
  import opened JsonDocuments
  import opened JsonStrings
  import opened JsonTrees
  import opened Wrappers

  // ---- Strings ----

  /** The way a byte is printed. */
  function CharOf(b: Byte): Char {
    if b == 34 || b == 92 then Short(b)
    else if b == 8 then Short(98)
    else if b == 12 then Short(102)
    else if b == 10 then Short(110)
    else if b == 13 then Short(114)
    else if b == 9 then Short(116)
    else if b < 32 then Point(b, [92, 117, 48, 48, HexDigit(b / 16), HexDigit(b % 16)], [b])
    else Plain(b)
  }

  function CharsOf(s: seq<Byte>): (chars: seq<Char>)
    ensures |chars| == |s|
  {
    seq(|s|, i requires 0 <= i < |s| => CharOf(s[i]))
  }

  lemma CharPrinted(b: Byte)
    ensures var x := CharOf(b);
            CharOk(x) && !x.Stray? && !x.Blind? && x != Plain(34) && CharText(x) == Escaped1(b) && CharBytes(x) == [b]
  {
  }

  lemma {:induction false} CharsPrinted(s: seq<Byte>)
    ensures CharsText(CharsOf(s)) == Escaped(s) && CharsBytes(CharsOf(s)) == s
  {
    hide CharOf, CharText, CharBytes, Escaped1;
    if s != [] {
      CharPrinted(s[0]);
      CharsPrinted(s[1..]);
      assert CharsOf(s)[1..] == CharsOf(s[1..]);
      assert [s[0]] + s[1..] == s;
    }
  }

  /** A printed string is a literal of the grammar. */
  lemma LiteralPrinted(s: seq<Byte>)
    ensures LiteralOk(CharsOf(s)) && LiteralText(CharsOf(s)) == Quoted(s) && CharsBytes(CharsOf(s)) == s
  {
    hide CharOf, CharOk, CharsText, CharsBytes, Escaped, Closed;
    forall k | 0 <= k < |s|
      ensures var x := CharsOf(s)[k]; CharOk(x) && !x.Stray? && !x.Blind? && x != Plain(34)
    {
      CharPrinted(s[k]);
    }
    CharsPrinted(s);
    StrictClosed(CharsOf(s));
  }

  /** Reading a printed string gives the string back, whatever surrounds it. */
  lemma StringRoundTrip(c: seq<Byte>, i: nat, s: seq<Byte>)
    requires At(c, i, Quoted(s))
    ensures i < |c| && StringAt(c, i) == Some((s, i + |Quoted(s)|))
  {
    LiteralPrinted(s);
    LiteralRead(c, i, CharsOf(s));
  }

  // ---- Trees ----

  /** The document that is printed for a tree. */
  function DocOf(j: Json, depth: nat, format: bool): Doc
    decreases j, 1, 0
  {
    match j
    case Null => NullDoc
    case False => FalseDoc
    case True => TrueDoc
    case Text(s) => TextDoc(CharsOf(s))
    case Array(_) => ArrayDoc([], ItemsOf(j, 0, depth + 1, format))
    case Object(_) => ObjectDoc(NewLine(format) + Indent(depth, format), EntriesOf(j, 0, depth + 1, format))
  }

  /** The items from the k-th on; in formatted text a blank follows each comma. */
  function ItemsOf(j: Json, k: nat, depth: nat, format: bool): (r: seq<Item>)
    requires j.Array? && k <= |j.items|
    ensures |r| == |j.items| - k
    decreases j, 0, |j.items| - k
  {
    if k == |j.items| then []
    else
      [Item(if k > 0 && format then [32] else [], DocOf(j.items[k], depth, format), [])] +
      ItemsOf(j, k + 1, depth, format)
  }

  function EntriesOf(j: Json, k: nat, depth: nat, format: bool): (r: seq<Entry>)
    requires j.Object? && k <= |j.members| && depth > 0
    ensures |r| == |j.members| - k
    decreases j, 0, |j.members| - k
  {
    if k == |j.members| then [] else [EntryOf(j, k, depth, format)] + EntriesOf(j, k + 1, depth, format)
  }

  /** In formatted text a member begins on a new line, and so does what closes the object. */
  function EntryOf(j: Json, k: nat, depth: nat, format: bool): Entry
    requires j.Object? && k < |j.members| && depth > 0
    decreases j, 0, 0
  {
    Entry(NewLine(format) + Indent(depth, format), CharsOf(j.members[k].name), [], if format then [9] else [],
          DocOf(j.members[k].value, depth, format),
          if k + 1 == |j.members| then NewLine(format) + Indent(depth - 1, format) else [])
  }

  /** It means the tree. */
  lemma {:induction false} DocMeans(j: Json, depth: nat, format: bool)
    ensures Meaning(DocOf(j, depth, format)) == j
    decreases j, 1, 0
  {
    match j
    case Null =>
    case False =>
    case True =>
    case Text(s) => LiteralPrinted(s);
    case Array(_) => ItemsMean(j, 0, depth + 1, format);
    case Object(_) => EntriesMean(j, 0, depth + 1, format);
  }

  lemma {:induction false} ItemsMean(j: Json, k: nat, depth: nat, format: bool)
    requires j.Array? && k <= |j.items|
    ensures ItemsMeaning(ItemsOf(j, k, depth, format)) == j.items[k..]
    decreases j, 0, |j.items| - k
  {
    hide DocOf, Meaning;
    if k < |j.items| {
      DocMeans(j.items[k], depth, format);
      ItemsMean(j, k + 1, depth, format);
      assert j.items[k..] == [j.items[k]] + j.items[k + 1..];
    }
  }

  lemma {:induction false} EntriesMean(j: Json, k: nat, depth: nat, format: bool)
    requires j.Object? && k <= |j.members| && depth > 0
    ensures EntriesMeaning(EntriesOf(j, k, depth, format)) == j.members[k..]
    decreases j, 0, |j.members| - k
  {
    hide DocOf, Meaning, CharsOf, CharsBytes;
    if k < |j.members| {
      var m := j.members[k];
      LiteralPrinted(m.name);
      DocMeans(m.value, depth, format);
      EntriesMean(j, k + 1, depth, format);
      assert j.members[k..] == [m] + j.members[k + 1..];
      assert m == Member(m.name, m.value);
    }
  }

  lemma Blanks(depth: nat, format: bool)
    ensures Blank([]) && Blank([32]) && Blank([9]) && Blank(NewLine(format) + Indent(depth, format))
  {
  }

  /** It is legal when the tree is within the nesting limit. */
  lemma {:induction false} DocFits(j: Json, depth: nat, format: bool, d: nat)
    requires Fits(j, d)
    ensures DocOk(DocOf(j, depth, format), d)
    decreases j, 1, 0
  {
    hide Blank, LiteralOk;
    Blanks(depth, format);
    match j
    case Null =>
    case False =>
    case True =>
    case Text(s) => LiteralPrinted(s);
    case Array(_) => ItemsFit(j, 0, depth + 1, format, d + 1);
    case Object(_) => EntriesFit(j, 0, depth + 1, format, d + 1);
  }

  lemma {:induction false} ItemsFit(j: Json, k: nat, depth: nat, format: bool, d: nat)
    requires j.Array? && k <= |j.items| && forall m :: 0 <= m < |j.items| ==> Fits(j.items[m], d)
    ensures ItemsOk(ItemsOf(j, k, depth, format), d)
    decreases j, 0, |j.items| - k
  {
    hide DocOf, DocOk, Fits, Blank;
    Blanks(depth, format);
    if k < |j.items| {
      DocFits(j.items[k], depth, format, d);
      ItemsFit(j, k + 1, depth, format, d);
    }
  }

  lemma {:induction false} EntriesFit(j: Json, k: nat, depth: nat, format: bool, d: nat)
    requires j.Object? && k <= |j.members| && depth > 0
    requires forall m :: 0 <= m < |j.members| ==> Fits(j.members[m].value, d)
    ensures EntriesOk(EntriesOf(j, k, depth, format), d)
    decreases j, 0, |j.members| - k
  {
    hide DocOf, DocOk, Fits, Blank, CharsOf, LiteralOk, NewLine, Indent;
    Blanks(depth, format);
    Blanks(depth - 1, format);
    if k < |j.members| {
      LiteralPrinted(j.members[k].name);
      DocFits(j.members[k].value, depth, format, d);
      EntriesFit(j, k + 1, depth, format, d);
    }
  }

  /** Its text is what is printed. */
  lemma {:induction false} DocPrinted(j: Json, depth: nat, format: bool)
    ensures DocText(DocOf(j, depth, format)) == Print(j, depth, format)
    decreases j, 1, 0
  {
    hide Quoted, LiteralText, CharsOf, ItemsText, Items, ItemsOf, Members, EntriesOf, EntriesText, Tabs;
    match j
    case Null =>
    case False =>
    case True =>
    case Text(s) => LiteralPrinted(s);
    case Array(_) => ArrayPrinted(j, depth, format);
    case Object(_) => ObjectPrinted(j, depth, format);
  }

  lemma {:induction false} ArrayPrinted(j: Json, depth: nat, format: bool)
    requires j.Array?
    ensures DocText(DocOf(j, depth, format)) == Print(j, depth, format)
    decreases j, 0, |j.items| + 1
  {
    hide Items, ItemsOf, ItemsText;
    ItemsPrinted(j, 0, depth + 1, format);
    NoItemsPrinted(j, depth + 1, format);
    assert [] + Items(j, 0, depth + 1, format) == Items(j, 0, depth + 1, format);
  }

  lemma NoItemsPrinted(j: Json, depth: nat, format: bool)
    requires j.Array?
    ensures j.items == [] ==> Items(j, 0, depth, format) == [] && ItemsOf(j, 0, depth, format) == []
  {
  }

  lemma {:induction false} ItemsPrinted(j: Json, k: nat, depth: nat, format: bool)
    requires j.Array? && k <= |j.items|
    ensures k < |j.items| ==>
              ItemsText(ItemsOf(j, k, depth, format)) ==
                (if k > 0 && format then [32] else []) + Items(j, k, depth, format)
    decreases j, 0, |j.items| - k
  {
    hide DocOf, DocText, Print;
    if k < |j.items| {
      var lead := if k > 0 && format then [32] else [];
      var v := Print(j.items[k], depth, format);
      var rest := ItemsOf(j, k + 1, depth, format);
      DocPrinted(j.items[k], depth, format);
      ItemsPrinted(j, k + 1, depth, format);
      assert ItemsOf(j, k, depth, format)[1..] == rest;
      if k + 1 < |j.items| {
        ItemJoined(lead, v, format, Items(j, k + 1, depth, format));
      } else {
        assert lead + v + [] + [] == lead + (v + [] + []);
      }
    }
  }

  lemma ItemJoined(lead: seq<Byte>, v: seq<Byte>, format: bool, rest: seq<Byte>)
    ensures lead + v + [] + ([44] + ((if format then [32] else []) + rest)) ==
            lead + (v + (if format then [44, 32] else [44]) + rest)
  {
    hide *;
  }

  lemma {:induction false} ObjectPrinted(j: Json, depth: nat, format: bool)
    requires j.Object?
    ensures DocText(DocOf(j, depth, format)) == Print(j, depth, format)
    decreases j, 0, |j.members| + 1
  {
    hide Members, EntriesOf, EntriesText, Tabs;
    EntriesPrinted(j, 0, depth + 1, format);
    NoMembersPrinted(j, depth + 1, format);
    var all, open := Members(j, 0, depth + 1, format), NewLine(format);
    ObjectJoined(open, all, Indent(depth, format));
    if j.members == [] {
      assert open + [] + Indent(depth, format) == open + Indent(depth, format);
    }
  }

  lemma NoMembersPrinted(j: Json, depth: nat, format: bool)
    requires j.Object? && depth > 0
    ensures j.members == [] ==> Members(j, 0, depth, format) == [] && EntriesOf(j, 0, depth, format) == []
  {
  }

  lemma ObjectJoined(open: seq<Byte>, all: seq<Byte>, close: seq<Byte>)
    ensures [123] + (open + all + close) + [125] == [123] + open + all + close + [125]
  {
    hide *;
  }

  lemma {:induction false} EntriesPrinted(j: Json, k: nat, depth: nat, format: bool)
    requires j.Object? && k <= |j.members| && depth > 0
    ensures k < |j.members| ==>
              EntriesText(EntriesOf(j, k, depth, format)) ==
                NewLine(format) + Members(j, k, depth, format) + Indent(depth - 1, format)
    decreases j, 0, |j.members| - k
  {
    hide EntriesText, MemberText, EntryOf, EntryHead, NewLine, Indent, DocText;
    if k < |j.members| {
      var x, rest := EntryOf(j, k, depth, format), EntriesOf(j, k + 1, depth, format);
      DocPrinted(j.members[k].value, depth, format);
      EntriesPrinted(j, k + 1, depth, format);
      EntryPrinted(j, k, depth, format, Members(j, k + 1, depth, format));
      if k + 1 < |j.members| {
        EntriesMore(x, rest);
      } else {
        assert [x] + [] == [x];
        EntriesLast(x);
      }
    }
  }

  /** One member, and what follows it. */
  lemma EntryPrinted(j: Json, k: nat, depth: nat, format: bool, rest: seq<Byte>)
    requires j.Object? && k < |j.members| && depth > 0 && (k + 1 == |j.members| ==> rest == [])
    requires DocText(DocOf(j.members[k].value, depth, format)) == Print(j.members[k].value, depth, format)
    ensures var x, line, close := EntryOf(j, k, depth, format), NewLine(format), Indent(depth - 1, format);
            EntryHead(x) + DocText(x.doc) + x.after +
              (if k + 1 == |j.members| then [] else [44] + (line + rest + close)) ==
            line + (MemberText(j, k, depth, format) + rest) + close
  {
    hide DocOf, DocText, Print, Tabs, CharsOf, LiteralText, Quoted, NewLine;
    LiteralPrinted(j.members[k].name);
    var gap := if format then [9] else [];
    assert (if format then [COLON, 9] else [COLON]) == [58] + gap;
    assert NewLine(format) == if format then [10] else [] by { LineIs(format); }
    EntryJoined(NewLine(format), Indent(depth, format), Quoted(j.members[k].name), gap,
                Print(j.members[k].value, depth, format), Indent(depth - 1, format), rest);
  }

  lemma LineIs(format: bool)
    ensures NewLine(format) == if format then [10] else []
  {
  }

  lemma EntryJoined(line: seq<Byte>, indent: seq<Byte>, name: seq<Byte>, gap: seq<Byte>, value: seq<Byte>,
                    close: seq<Byte>, rest: seq<Byte>)
    ensures ((line + indent) + name + [] + [58] + gap) + value + [] + ([44] + (line + rest + close)) ==
            line + ((indent + name + ([58] + gap) + value + [44] + line) + rest) + close
    ensures ((line + indent) + name + [] + [58] + gap) + value + (line + close) + [] ==
            line + ((indent + name + ([58] + gap) + value + [] + line) + []) + close
  {
    hide *;
  }

  /** The layout of an array: in formatted text a blank follows each comma. */
  lemma ArrayLayout(format: bool, depth: nat)
    ensures Print(Array([Null, True]), depth, format) ==
            if format then [91, 110, 117, 108, 108, 44, 32, 116, 114, 117, 101, 93]
            else [91, 110, 117, 108, 108, 44, 116, 114, 117, 101, 93]
  {
    var j := Array([Null, True]);
    assert Items(j, 2, depth + 1, format) == [];
    assert Items(j, 1, depth + 1, format) == TRUE;
    assert Items(j, 0, depth + 1, format) == NULL + (if format then [44, 32] else [44]) + TRUE;
  }

  /** And of an object inside another one: in formatted text its members stand on lines of their own, indented by tabs,
      with a tab after the colon. */
  lemma ObjectLayout(format: bool)
    ensures Print(Object([Member([97], Null), Member([98], True)]), 1, format) ==
            if format then
              [123, 10] + ([9, 9, 34, 97, 34, 58, 9, 110, 117, 108, 108, 44, 10] +
                           [9, 9, 34, 98, 34, 58, 9, 116, 114, 117, 101, 10]) + [9, 125]
            else [123] + ([34, 97, 34, 58, 110, 117, 108, 108, 44] + [34, 98, 34, 58, 116, 114, 117, 101]) + [125]
  {
    hide Print, Members, MemberText;
    var j := Object([Member([97], Null), Member([98], True)]);
    FirstMemberLayout(j, format);
    LastMemberLayout(j, format);
    TwoMembers(j, format);
  }

  lemma TwoMembers(j: Json, format: bool)
    requires j.Object? && |j.members| == 2
    ensures Print(j, 1, format) ==
            (if format then [123, 10] else [123]) + (MemberText(j, 0, 2, format) + MemberText(j, 1, 2, format)) +
              (if format then [9, 125] else [125])
  {
    hide MemberText, Tabs;
    var a, b := MemberText(j, 0, 2, format), MemberText(j, 1, 2, format);
    NoMoreMembers(j, 2, format);
    assert Members(j, 1, 2, format) == b + [];
    assert Members(j, 0, 2, format) == a + b;
    assert Tabs(1) == [9];
  }

  lemma FirstMemberLayout(j: Json, format: bool)
    requires j.Object? && |j.members| == 2 && j.members[0] == Member([97], Null)
    ensures MemberText(j, 0, 2, format) ==
            if format then [9, 9, 34, 97, 34, 58, 9, 110, 117, 108, 108, 44, 10]
            else [34, 97, 34, 58, 110, 117, 108, 108, 44]
  {
    NameLayout(97);
    hide Quoted;
    assert Tabs(2) == [9, 9];
  }

  lemma LastMemberLayout(j: Json, format: bool)
    requires j.Object? && |j.members| == 2 && j.members[1] == Member([98], True)
    ensures MemberText(j, 1, 2, format) ==
            if format then [9, 9, 34, 98, 34, 58, 9, 116, 114, 117, 101, 10]
            else [34, 98, 34, 58, 116, 114, 117, 101]
  {
    NameLayout(98);
    hide Quoted;
    assert Tabs(2) == [9, 9];
  }

  lemma NameLayout(b: Byte)
    requires 97 <= b < 100
    ensures Quoted([b]) == [34, b, 34]
  {
    assert [b][1..] == [];
    assert Escaped([]) == [];
    assert Escaped([b]) == [b];
  }

  /** Parsing a printed tree gives it back wherever it stands, at any indentation. */
  lemma ValueBack(c: seq<Byte>, i: nat, j: Json, depth: nat, format: bool, d: nat)
    requires Fits(j, d) && At(c, i, Print(j, depth, format))
    ensures ValueAt(c, i, d) == Some((j, i + |Print(j, depth, format)|))
  {
    hide ValueAt, Print, DocText, DocOk, Meaning, Fits, At;
    DocPrinted(j, depth, format);
    DocFits(j, depth, format, d);
    DocMeans(j, depth, format);
    ValueRead(c, i, DocOf(j, depth, format), d);
  }

  /** For every number-free tree within the nesting limit, parsing its text gives the tree back, formatted or not. */
  lemma TreeRoundTrip(j: Json, format: bool)
    requires Fits(j, 0)
    ensures Parse(Print(j, 0, format)) == Some(j)
  {
    hide Parse, Print, DocText, DocOk, Meaning, Fits;
    var doc := DocOf(j, 0, format);
    DocPrinted(j, 0, format);
    DocFits(j, 0, format, 0);
    DocMeans(j, 0, format);
    assert [] + DocText(doc) == DocText(doc);
    NoLead(DocText(doc));
    assert Begins(DocText(doc), j);
    ParseExactly(DocText(doc), j);
  }

  lemma NoLead(text: seq<Byte>)
    requires text != [] && text[0] < 128
    ensures Lead(text, [])
  {
    assert |text| >= 3 ==> text[..3][0] == text[0];
  }
}
