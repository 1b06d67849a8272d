/** Documents of the grammar and the parser of cJSON.c: a text is accepted exactly if it begins with a document, and it
    is read as what the document means. */
module JsonDocuments {

  import opened JsonGrammar
  import opened JsonStrings
  import opened JsonTrees
  import E = JsonEscapes
  import opened Wrappers

  // ---- Documents ----

  datatype Item = Item(before: seq<Byte>, doc: Doc, after: seq<Byte>)

  /** A member: blanks, its name, blanks, a colon, blanks, its value, blanks. */
  datatype Entry = Entry(before: seq<Byte>, name: seq<Char>, middle: seq<Byte>, gap: seq<Byte>, doc: Doc,
                         after: seq<Byte>)

  /** In an empty array or object there may be blanks. */
  datatype Doc =
    | NullDoc | FalseDoc | TrueDoc
    | TextDoc(chars: seq<Char>)
    | ArrayDoc(blank: seq<Byte>, items: seq<Item>)
    | ObjectDoc(blank: seq<Byte>, entries: seq<Entry>)

  predicate Blank(s: seq<Byte>) {
    forall k :: 0 <= k < |s| ==> s[k] <= 32
  }

  /** Every part is legal, and inside depth arrays and objects no more than a thousand enclose each other. */
  predicate DocOk(d: Doc, depth: nat)
    decreases d
  {
    match d
    case TextDoc(chars) => LiteralOk(chars)
    case ArrayDoc(blank, items) => depth < 1000 && Blank(blank) && ItemsOk(items, depth + 1)
    case ObjectDoc(blank, entries) => depth < 1000 && Blank(blank) && EntriesOk(entries, depth + 1)
    case _ => true
  }

  predicate ItemsOk(items: seq<Item>, depth: nat)
    decreases items
  {
    items != [] ==>
      Blank(items[0].before) && DocOk(items[0].doc, depth) && Blank(items[0].after) && ItemsOk(items[1..], depth)
  }

  predicate HeadOk(e: Entry) {
    Blank(e.before) && LiteralOk(e.name) && Blank(e.middle) && Blank(e.gap)
  }

  predicate EntriesOk(entries: seq<Entry>, depth: nat)
    decreases entries
  {
    entries != [] ==>
      HeadOk(entries[0]) && DocOk(entries[0].doc, depth) && Blank(entries[0].after) && EntriesOk(entries[1..], depth)
  }

  /** The text, byte by byte. */
  function DocText(d: Doc): (t: seq<Byte>)
    ensures t != [] && t[0] in {110, 102, 116, 34, 91, 123} && t[|t| - 1] in {108, 101, 34, 93, 125}
    decreases d
  {
    match d
    case NullDoc => [110, 117, 108, 108]
    case FalseDoc => [102, 97, 108, 115, 101]
    case TrueDoc => [116, 114, 117, 101]
    case TextDoc(chars) => LiteralText(chars)
    case ArrayDoc(blank, items) => [91] + (if items == [] then blank else ItemsText(items)) + [93]
    case ObjectDoc(blank, entries) => [123] + (if entries == [] then blank else EntriesText(entries)) + [125]
  }

  /** Items with commas between them. */
  function ItemsText(items: seq<Item>): seq<Byte>
    decreases items
  {
    if items == [] then []
    else
      items[0].before + DocText(items[0].doc) + items[0].after +
      if |items| == 1 then [] else [44] + ItemsText(items[1..])
  }

  function EntryHead(e: Entry): seq<Byte> {
    e.before + LiteralText(e.name) + e.middle + [58] + e.gap
  }

  function EntriesText(entries: seq<Entry>): seq<Byte>
    decreases entries
  {
    if entries == [] then []
    else
      EntryHead(entries[0]) + DocText(entries[0].doc) + entries[0].after +
      if |entries| == 1 then [] else [44] + EntriesText(entries[1..])
  }

  /** The tree it means. */
  function Meaning(d: Doc): Json
    decreases d
  {
    match d
    case NullDoc => Null
    case FalseDoc => False
    case TrueDoc => True
    case TextDoc(chars) => Text(CharsBytes(chars))
    case ArrayDoc(_, items) => Array(ItemsMeaning(items))
    case ObjectDoc(_, entries) => Object(EntriesMeaning(entries))
  }

  function ItemsMeaning(items: seq<Item>): seq<Json>
    decreases items
  {
    if items == [] then [] else [Meaning(items[0].doc)] + ItemsMeaning(items[1..])
  }

  function EntriesMeaning(entries: seq<Entry>): seq<Member>
    decreases entries
  {
    if entries == [] then []
    else [Member(CharsBytes(entries[0].name), Meaning(entries[0].doc))] + EntriesMeaning(entries[1..])
  }

  // ---- Texts in a buffer ----

  lemma AtJoin(c: seq<Byte>, i: nat, a: seq<Byte>, b: seq<Byte>)
    requires At(c, i, a) && At(c, i + |a|, b)
    ensures At(c, i, a + b)
  {
    E.SplitSlice(c, i, i + |a|, i + |a| + |b|);
  }

  lemma AtByte(c: seq<Byte>, i: nat, b: Byte)
    ensures At(c, i, [b]) <==> i < |c| && c[i] == b
  {
    if i < |c| {
      assert c[i..i + 1] == [c[i]];
    }
  }

  /** What Skip passes over are blanks. */
  lemma {:induction false} SkipFound(c: seq<Byte>, i: nat)
    requires i < |c|
    ensures i <= Skip(c, i) < |c| && Blank(c[i..Skip(c, i)]) && At(c, i, c[i..Skip(c, i)])
    decreases |c| - i
  {
    if c[i] <= 32 && i + 1 < |c| {
      SkipFound(c, i + 1);
      var k := Skip(c, i + 1);
      assert c[i..k] == [c[i]] + c[i + 1..k];
    }
  }

  /** And it passes over all blanks before something else. */
  lemma SkipRead(c: seq<Byte>, i: nat, t: seq<Byte>)
    requires At(c, i, t) && Blank(t) && i + |t| < |c| && c[i + |t|] > 32
    ensures Skip(c, i) == i + |t|
  {
    SkipBlank(c, i, t);
    SkipNone(c, i + |t|);
  }

  // ---- Everything accepted is a document ----

  lemma ItemsMore(x: Item, rest: seq<Item>)
    requires rest != []
    ensures ItemsText([x] + rest) == x.before + DocText(x.doc) + x.after + ([44] + ItemsText(rest))
  {
    assert ([x] + rest)[1..] == rest;
  }

  lemma ItemsLast(x: Item)
    ensures ItemsText([x]) == x.before + DocText(x.doc) + x.after + []
  {
  }

  lemma ItemsOkMore(x: Item, rest: seq<Item>, depth: nat)
    requires Blank(x.before) && DocOk(x.doc, depth) && Blank(x.after) && ItemsOk(rest, depth)
    ensures ItemsOk([x] + rest, depth) && ItemsMeaning([x] + rest) == [Meaning(x.doc)] + ItemsMeaning(rest)
  {
    assert ([x] + rest)[1..] == rest;
  }

  /** The text of a list from position i on, and the closing bracket. */
  lemma ListJoin(c: seq<Byte>, i: nat, a: seq<Byte>, b: seq<Byte>, d: seq<Byte>, rest: seq<Byte>, close: seq<Byte>)
    requires At(c, i, a) && At(c, i + |a|, b) && At(c, i + |a| + |b|, d) && At(c, i + |a| + |b| + |d|, rest + close)
    ensures At(c, i, (a + b + d + rest) + close)
  {
    hide At;
    AtJoin(c, i, a, b);
    AtJoin(c, i, a + b, d);
    AtJoin(c, i, a + b + d, rest + close);
    Regroup(a + b + d, rest, close);
  }

  lemma {:induction false} ItemsFound(c: seq<Byte>, i: nat, d: nat) returns (items: seq<Item>)
    requires ItemsAt(c, i, d).Some?
    ensures items != [] && ItemsOk(items, d) && At(c, i, ItemsText(items) + [93])
    ensures ItemsAt(c, i, d) == Some((ItemsMeaning(items), i + |ItemsText(items)| + 1))
    decreases |c| - i, 3
  {
    hide ValueAt, Skip, DocOk, DocText, Meaning, ItemsOk, ItemsMeaning, ItemsText, At;
    var p := Skip(c, i);
    SkipFound(c, i);
    var doc := ValueFound(c, p, d);
    var q := ValueAt(c, p, d).value.1;
    var k := Skip(c, q);
    SkipFound(c, q);
    var x := Item(c[i..p], doc, c[q..k]);
    NoItems();
    if c[k] == 44 {
      var rest := ItemsFound(c, k + 1, d);
      items := [x] + rest;
      ItemsOkMore(x, rest, d);
      ItemsMore(x, rest);
      AtByte(c, k, 44);
      AtJoin(c, k, [44], ItemsText(rest) + [93]);
      Regroup([44], ItemsText(rest), [93]);
      ListJoin(c, i, x.before, DocText(doc), x.after, [44] + ItemsText(rest), [93]);
    } else {
      items := [x];
      assert [x] == [x] + [];
      ItemsOkMore(x, [], d);
      ItemsLast(x);
      assert [Meaning(doc)] + [] == [Meaning(doc)];
      AtByte(c, k, 93);
      assert [] + [93] == [93];
      ListJoin(c, i, x.before, DocText(doc), x.after, [], [93]);
    }
  }

  lemma NoItems()
    ensures forall d: nat :: ItemsOk([], d) && EntriesOk([], d)
    ensures ItemsMeaning([]) == [] && EntriesMeaning([]) == []
  {
  }

  lemma EntriesMore(x: Entry, rest: seq<Entry>)
    requires rest != []
    ensures EntriesText([x] + rest) == EntryHead(x) + DocText(x.doc) + x.after + ([44] + EntriesText(rest))
  {
    assert ([x] + rest)[1..] == rest;
  }

  lemma EntriesLast(x: Entry)
    ensures EntriesText([x]) == EntryHead(x) + DocText(x.doc) + x.after + []
  {
  }

  lemma EntriesOkMore(x: Entry, rest: seq<Entry>, depth: nat)
    requires HeadOk(x) && DocOk(x.doc, depth) && Blank(x.after) && EntriesOk(rest, depth)
    ensures EntriesOk([x] + rest, depth)
    ensures EntriesMeaning([x] + rest) == [Member(CharsBytes(x.name), Meaning(x.doc))] + EntriesMeaning(rest)
  {
    assert ([x] + rest)[1..] == rest;
  }

  /** The name, the colon and the value of a member. */
  lemma {:induction false} MemberFound(c: seq<Byte>, i: nat, d: nat) returns (x: Entry)
    requires MemberAt(c, i, d).Some?
    ensures HeadOk(x) && DocOk(x.doc, d) && x.after == []
    ensures At(c, i, EntryHead(x)) && At(c, i + |EntryHead(x)|, DocText(x.doc))
    ensures MemberAt(c, i, d) ==
            Some((Member(CharsBytes(x.name), Meaning(x.doc)), i + |EntryHead(x)| + |DocText(x.doc)|))
    decreases |c| - i, 3
  {
    hide ValueAt, Skip, StringAt, DocOk, DocText, Meaning, At, LiteralOk, LiteralText, CharsBytes;
    var p := Skip(c, i);
    SkipFound(c, i);
    var name := LiteralFound(c, p);
    var q := StringAt(c, p).value.1;
    var k := Skip(c, q);
    SkipFound(c, q);
    var m := Skip(c, k + 1);
    SkipFound(c, k + 1);
    var doc := ValueFound(c, m, d);
    x := Entry(c[i..p], name, c[q..k], c[k + 1..m], doc, []);
    AtJoin(c, i, x.before, LiteralText(name));
    AtJoin(c, i, x.before + LiteralText(name), x.middle);
    AtByte(c, k, 58);
    AtJoin(c, i, x.before + LiteralText(name) + x.middle, [58]);
    AtJoin(c, i, x.before + LiteralText(name) + x.middle + [58], x.gap);
  }

  lemma {:induction false} EntriesFound(c: seq<Byte>, i: nat, d: nat) returns (entries: seq<Entry>)
    requires MembersAt(c, i, d).Some?
    ensures entries != [] && EntriesOk(entries, d) && At(c, i, EntriesText(entries) + [125])
    ensures MembersAt(c, i, d) == Some((EntriesMeaning(entries), i + |EntriesText(entries)| + 1))
    decreases |c| - i, 4
  {
    hide MemberAt, Skip, DocOk, DocText, Meaning, EntriesOk, EntriesMeaning, EntriesText, At, EntryHead, HeadOk;
    var y := MemberFound(c, i, d);
    var q := MemberAt(c, i, d).value.1;
    var k := Skip(c, q);
    SkipFound(c, q);
    var x := y.(after := c[q..k]);
    SameHead(x, y);
    NoItems();
    if c[k] == 44 {
      var rest := EntriesFound(c, k + 1, d);
      entries := [x] + rest;
      EntriesOkMore(x, rest, d);
      EntriesMore(x, rest);
      AtByte(c, k, 44);
      AtJoin(c, k, [44], EntriesText(rest) + [125]);
      Regroup([44], EntriesText(rest), [125]);
      ListJoin(c, i, EntryHead(x), DocText(x.doc), x.after, [44] + EntriesText(rest), [125]);
    } else {
      entries := [x];
      assert [x] == [x] + [];
      EntriesOkMore(x, [], d);
      EntriesLast(x);
      assert MemberAt(c, i, d).value.0 == Member(CharsBytes(x.name), Meaning(x.doc));
      assert [MemberAt(c, i, d).value.0] + [] == [MemberAt(c, i, d).value.0];
      AtByte(c, k, 125);
      assert [] + [125] == [125];
      ListJoin(c, i, EntryHead(x), DocText(x.doc), x.after, [], [125]);
    }
  }

  lemma SameHead(x: Entry, y: Entry)
    requires x == y.(after := x.after)
    ensures EntryHead(x) == EntryHead(y) && HeadOk(x) == HeadOk(y)
  {
  }

  // The first blanks of a list belong to its first element.

  lemma ItemsLead(lead: seq<Byte>, items: seq<Item>, d: nat) returns (items': seq<Item>)
    requires Blank(lead) && items != [] && ItemsOk(items, d)
    ensures items' != [] && ItemsOk(items', d) && ItemsMeaning(items') == ItemsMeaning(items)
    ensures ItemsText(items') == lead + ItemsText(items)
  {
    hide DocOk, DocText, Meaning;
    var x := items[0].(before := lead + items[0].before);
    items' := [x] + items[1..];
    assert items'[1..] == items[1..];
    var tail := if |items| == 1 then [] else [44] + ItemsText(items[1..]);
    LeadParts(lead, items[0].before, DocText(x.doc), x.after, tail);
  }

  lemma LeadParts(lead: seq<Byte>, a: seq<Byte>, b: seq<Byte>, c: seq<Byte>, d: seq<Byte>)
    ensures (lead + a) + b + c + d == lead + (a + b + c + d)
  {
    hide *;
  }

  lemma EntriesLead(lead: seq<Byte>, entries: seq<Entry>, d: nat) returns (entries': seq<Entry>)
    requires Blank(lead) && entries != [] && EntriesOk(entries, d)
    ensures entries' != [] && EntriesOk(entries', d) && EntriesMeaning(entries') == EntriesMeaning(entries)
    ensures EntriesText(entries') == lead + EntriesText(entries)
  {
    hide DocOk, DocText, Meaning, LiteralOk, LiteralText, CharsBytes;
    var x := entries[0].(before := lead + entries[0].before);
    entries' := [x] + entries[1..];
    assert entries'[1..] == entries[1..];
    var tail := if |entries| == 1 then [] else [44] + EntriesText(entries[1..]);
    HeadLead(lead, entries[0], x);
    LeadParts(lead, EntryHead(entries[0]), DocText(x.doc), x.after, tail);
  }

  lemma HeadLead(lead: seq<Byte>, y: Entry, x: Entry)
    requires x == y.(before := lead + y.before)
    ensures EntryHead(x) == lead + EntryHead(y)
    ensures Blank(lead) && HeadOk(y) ==> HeadOk(x)
  {
    hide LiteralText, LiteralOk;
    LeadParts(lead, y.before, LiteralText(y.name), y.middle, [58]);
    Regroup(lead, y.before + LiteralText(y.name) + y.middle + [58], y.gap);
  }

  lemma {:induction false} ArrayFound(c: seq<Byte>, i: nat, d: nat) returns (doc: Doc)
    requires i < |c| && c[i] == 91 && ValueAt(c, i, d).Some?
    ensures DocOk(doc, d) && At(c, i, DocText(doc))
    ensures ValueAt(c, i, d) == Some((Meaning(doc), i + |DocText(doc)|))
    decreases |c| - i, 1
  {
    hide ItemsAt, Skip, ItemsOk, ItemsMeaning, ItemsText, At;
    NotLiteral(c, i);
    SkipFound(c, i + 1);
    NoItems();
    AtByte(c, i, 91);
    var k := Skip(c, i + 1);
    var lead := c[i + 1..k];
    if c[k] == 93 {
      doc := ArrayDoc(lead, []);
      AtByte(c, k, 93);
      AtJoin(c, i, [91], lead);
      AtJoin(c, i, [91] + lead, [93]);
    } else {
      var items := ItemsFound(c, k, d + 1);
      var all := ItemsLead(lead, items, d + 1);
      doc := ArrayDoc([], all);
      AtJoin(c, i, [91], lead);
      AtJoin(c, i, [91] + lead, ItemsText(items) + [93]);
      FrontBack([91], lead, ItemsText(items), [93]);
    }
  }

  lemma FrontBack(open: seq<Byte>, lead: seq<Byte>, t: seq<Byte>, close: seq<Byte>)
    ensures open + lead + (t + close) == open + (lead + t) + close
  {
    hide *;
  }

  lemma {:induction false} ObjectFound(c: seq<Byte>, i: nat, d: nat) returns (doc: Doc)
    requires i < |c| && c[i] == 123 && ValueAt(c, i, d).Some?
    ensures DocOk(doc, d) && At(c, i, DocText(doc))
    ensures ValueAt(c, i, d) == Some((Meaning(doc), i + |DocText(doc)|))
    decreases |c| - i, 1
  {
    hide MembersAt, Skip, EntriesOk, EntriesMeaning, EntriesText, At;
    NotLiteral(c, i);
    SkipFound(c, i + 1);
    NoItems();
    AtByte(c, i, 123);
    var k := Skip(c, i + 1);
    var lead := c[i + 1..k];
    if c[k] == 125 {
      doc := ObjectDoc(lead, []);
      AtByte(c, k, 125);
      AtJoin(c, i, [123], lead);
      AtJoin(c, i, [123] + lead, [125]);
    } else {
      var entries := EntriesFound(c, k, d + 1);
      var all := EntriesLead(lead, entries, d + 1);
      doc := ObjectDoc([], all);
      AtJoin(c, i, [123], lead);
      AtJoin(c, i, [123] + lead, EntriesText(entries) + [125]);
      FrontBack([123], lead, EntriesText(entries), [125]);
    }
  }

  lemma WordFound(c: seq<Byte>, i: nat, d: nat) returns (doc: Doc)
    requires At(c, i, NULL) || At(c, i, FALSE) || At(c, i, TRUE)
    ensures DocOk(doc, d) && At(c, i, DocText(doc))
    ensures ValueAt(c, i, d) == Some((Meaning(doc), i + |DocText(doc)|))
  {
    hide At, ItemsAt, MembersAt, Skip, StringAt;
    doc := if At(c, i, NULL) then NullDoc else if At(c, i, FALSE) then FalseDoc else TrueDoc;
  }

  lemma TextFound(c: seq<Byte>, i: nat, d: nat) returns (doc: Doc)
    requires i < |c| && c[i] == 34 && ValueAt(c, i, d).Some?
    ensures DocOk(doc, d) && At(c, i, DocText(doc))
    ensures ValueAt(c, i, d) == Some((Meaning(doc), i + |DocText(doc)|))
  {
    hide At, ItemsAt, MembersAt, Skip, StringAt, CharsBytes, LiteralOk, LiteralText;
    NotLiteral(c, i);
    var chars := LiteralFound(c, i);
    doc := TextDoc(chars);
  }

  lemma OtherKinds(c: seq<Byte>, i: nat, d: nat)
    requires ValueAt(c, i, d).Some? && !At(c, i, NULL) && !At(c, i, FALSE) && !At(c, i, TRUE)
    ensures i < |c| && c[i] in {34, 91, 123}
  {
    hide At, ItemsAt, MembersAt, Skip, StringAt;
  }

  /** Whatever is accepted as a value is the text of a document, and read as what it means. */
  lemma {:induction false} ValueFound(c: seq<Byte>, i: nat, d: nat) returns (doc: Doc)
    requires ValueAt(c, i, d).Some?
    ensures DocOk(doc, d) && At(c, i, DocText(doc))
    ensures ValueAt(c, i, d) == Some((Meaning(doc), i + |DocText(doc)|))
    decreases |c| - i, 2
  {
    hide ValueAt, At, DocOk, DocText, Meaning;
    if At(c, i, NULL) || At(c, i, FALSE) || At(c, i, TRUE) {
      doc := WordFound(c, i, d);
    } else {
      OtherKinds(c, i, d);
      if c[i] == 34 {
        doc := TextFound(c, i, d);
      } else if c[i] == 91 {
        doc := ArrayFound(c, i, d);
      } else {
        doc := ObjectFound(c, i, d);
      }
    }
  }

  // ---- Every document is accepted ----

  lemma ListParts(c: seq<Byte>, i: nat, a: seq<Byte>, b: seq<Byte>, d: seq<Byte>, rest: seq<Byte>, close: seq<Byte>)
    requires At(c, i, (a + b + d + rest) + close)
    ensures At(c, i, a) && At(c, i + |a|, b) && At(c, i + |a| + |b|, d) && At(c, i + |a| + |b| + |d|, rest + close)
  {
    hide At;
    Regroup(a + b + d, rest, close);
    AtParts(c, i, a + b + d, rest + close);
    AtParts(c, i, a + b, d);
    AtParts(c, i, a, b);
  }

  /** Blanks, and then a text that begins with something else. */
  lemma SkipTo(c: seq<Byte>, i: nat, blank: seq<Byte>, t: seq<Byte>)
    requires At(c, i, blank) && Blank(blank) && At(c, i + |blank|, t) && t != [] && t[0] > 32
    ensures Skip(c, i) == i + |blank| < |c| && c[i + |blank|] == t[0]
  {
    AtSlice(c, i + |blank|, t);
    SkipRead(c, i, blank);
  }

  lemma ItemsSplit(items: seq<Item>)
    requires items != []
    ensures ItemsText(items) == items[0].before + DocText(items[0].doc) + items[0].after +
            if |items| == 1 then [] else [44] + ItemsText(items[1..])
  {
  }

  lemma {:induction false} ItemsRead(c: seq<Byte>, i: nat, items: seq<Item>, d: nat)
    requires items != [] && ItemsOk(items, d) && At(c, i, ItemsText(items) + [93])
    ensures ItemsAt(c, i, d) == Some((ItemsMeaning(items), i + |ItemsText(items)| + 1))
    decreases items, 0
  {
    hide ValueAt, Skip, DocOk, DocText, Meaning, ItemsText, At;
    var x := items[0];
    var t := DocText(x.doc);
    var tail := if |items| == 1 then [] else [44] + ItemsText(items[1..]);
    ItemsSplit(items);
    ListParts(c, i, x.before, t, x.after, tail, [93]);
    SkipTo(c, i, x.before, t);
    var p := i + |x.before|;
    ValueRead(c, p, x.doc, d);
    var q := p + |t|;
    SkipTo(c, q, x.after, tail + [93]);
    if |items| > 1 {
      Regroup([44], ItemsText(items[1..]), [93]);
      AtParts(c, q + |x.after|, [44], ItemsText(items[1..]) + [93]);
      ItemsRead(c, q + |x.after| + 1, items[1..], d);
    } else {
      assert items[1..] == [] && [Meaning(x.doc)] + [] == [Meaning(x.doc)];
    }
  }

  lemma HeadParts(c: seq<Byte>, i: nat, x: Entry)
    requires At(c, i, EntryHead(x))
    ensures At(c, i, x.before) && At(c, i + |x.before|, LiteralText(x.name))
    ensures var q := i + |x.before| + |LiteralText(x.name)|;
            At(c, q, x.middle) && At(c, q + |x.middle|, [58]) && At(c, q + |x.middle| + 1, x.gap)
  {
    hide At, LiteralText;
    var l := LiteralText(x.name);
    AtParts(c, i, x.before + l + x.middle + [58], x.gap);
    AtParts(c, i, x.before + l + x.middle, [58]);
    AtParts(c, i, x.before + l, x.middle);
    AtParts(c, i, x.before, l);
  }

  lemma {:induction false} MemberRead(c: seq<Byte>, i: nat, x: Entry, d: nat)
    requires HeadOk(x) && DocOk(x.doc, d) && At(c, i, EntryHead(x)) && At(c, i + |EntryHead(x)|, DocText(x.doc))
    ensures MemberAt(c, i, d) ==
            Some((Member(CharsBytes(x.name), Meaning(x.doc)), i + |EntryHead(x)| + |DocText(x.doc)|))
    decreases x
  {
    hide ValueAt, Skip, StringAt, DocOk, DocText, Meaning, At, LiteralOk, LiteralText, CharsBytes;
    var l := LiteralText(x.name);
    HeadParts(c, i, x);
    SkipTo(c, i, x.before, l);
    var p := i + |x.before|;
    LiteralRead(c, p, x.name);
    var q := p + |l|;
    SkipTo(c, q, x.middle, [58]);
    var k := q + |x.middle|;
    SkipTo(c, k + 1, x.gap, DocText(x.doc));
    ValueRead(c, k + 1 + |x.gap|, x.doc, d);
  }

  lemma EntriesSplit(entries: seq<Entry>)
    requires entries != []
    ensures EntriesText(entries) == EntryHead(entries[0]) + DocText(entries[0].doc) + entries[0].after +
            if |entries| == 1 then [] else [44] + EntriesText(entries[1..])
  {
  }

  lemma {:induction false} EntriesRead(c: seq<Byte>, i: nat, entries: seq<Entry>, d: nat)
    requires entries != [] && EntriesOk(entries, d) && At(c, i, EntriesText(entries) + [125])
    ensures MembersAt(c, i, d) == Some((EntriesMeaning(entries), i + |EntriesText(entries)| + 1))
    decreases entries, 0
  {
    hide MemberAt, Skip, DocOk, DocText, Meaning, EntriesText, At, EntryHead, HeadOk, CharsBytes;
    var x := entries[0];
    var t := DocText(x.doc);
    var tail := if |entries| == 1 then [] else [44] + EntriesText(entries[1..]);
    EntriesSplit(entries);
    ListParts(c, i, EntryHead(x), t, x.after, tail, [125]);
    MemberRead(c, i, x, d);
    var q := i + |EntryHead(x)| + |t|;
    SkipTo(c, q, x.after, tail + [125]);
    if |entries| > 1 {
      Regroup([44], EntriesText(entries[1..]), [125]);
      AtParts(c, q + |x.after|, [44], EntriesText(entries[1..]) + [125]);
      EntriesRead(c, q + |x.after| + 1, entries[1..], d);
    } else {
      var m := Member(CharsBytes(x.name), Meaning(x.doc));
      assert entries[1..] == [] && [m] + [] == [m];
    }
  }

  lemma ItemsLater(c: seq<Byte>, i: nat, d: nat)
    ensures ItemsAt(c, Skip(c, i), d) == ItemsAt(c, i, d)
  {
    hide ValueAt, Skip;
    SkipTwice(c, i);
  }

  lemma MembersLater(c: seq<Byte>, i: nat, d: nat)
    requires i < |c|
    ensures MembersAt(c, Skip(c, i), d) == MembersAt(c, i, d)
  {
    hide ValueAt, Skip, StringAt;
    SkipTwice(c, i);
  }

  lemma ArrayOnce(c: seq<Byte>, i: nat, d: nat)
    requires i < |c| && c[i] == 91 && d < 1000
    ensures var k := Skip(c, i + 1);
            ValueAt(c, i, d) ==
              if k < |c| && c[k] == 93 then Some((Array([]), k + 1))
              else if k >= |c| || ItemsAt(c, k, d + 1).None? then None
              else Some((Array(ItemsAt(c, k, d + 1).value.0), ItemsAt(c, k, d + 1).value.1))
  {
    hide Skip, ItemsAt, MembersAt, At;
    NotLiteral(c, i);
  }

  lemma ObjectOnce(c: seq<Byte>, i: nat, d: nat)
    requires i < |c| && c[i] == 123 && d < 1000
    ensures var k := Skip(c, i + 1);
            ValueAt(c, i, d) ==
              if k < |c| && c[k] == 125 then Some((Object([]), k + 1))
              else if k >= |c| || MembersAt(c, k, d + 1).None? then None
              else Some((Object(MembersAt(c, k, d + 1).value.0), MembersAt(c, k, d + 1).value.1))
  {
    hide Skip, ItemsAt, MembersAt, At;
    NotLiteral(c, i);
  }

  lemma EmptyRead(c: seq<Byte>, i: nat, open: Byte, blank: seq<Byte>, close: Byte)
    requires close > 32 && Blank(blank) && At(c, i, [open] + blank + [close])
    ensures i < |c| && c[i] == open
    ensures var k := Skip(c, i + 1); k == i + 1 + |blank| < |c| && c[k] == close
  {
    hide At, Skip;
    Regroup([open], blank, [close]);
    AtParts(c, i, [open], blank + [close]);
    AtParts(c, i + 1, blank, [close]);
    AtByte(c, i, open);
    SkipTo(c, i + 1, blank, [close]);
  }

  lemma {:induction false} ArrayRead(c: seq<Byte>, i: nat, items: seq<Item>, d: nat)
    requires items != [] && ItemsOk(items, d + 1) && d < 1000 && At(c, i, [91] + ItemsText(items) + [93])
    ensures ValueAt(c, i, d) == Some((Array(ItemsMeaning(items)), i + |ItemsText(items)| + 2))
    decreases items, 1
  {
    hide ItemsAt, ValueAt, Skip, ItemsText, At, DocText, ItemsMeaning, Meaning, DocOk;
    Regroup([91], ItemsText(items), [93]);
    AtParts(c, i, [91], ItemsText(items) + [93]);
    AtByte(c, i, 91);
    ArrayOnce(c, i, d);
    var x := items[0];
    var tail := if |items| == 1 then [] else [44] + ItemsText(items[1..]);
    ItemsSplit(items);
    ListParts(c, i + 1, x.before, DocText(x.doc), x.after, tail, [93]);
    SkipTo(c, i + 1, x.before, DocText(x.doc));
    ItemsRead(c, i + 1, items, d + 1);
    ItemsLater(c, i + 1, d + 1);
  }

  lemma {:induction false} ObjectRead(c: seq<Byte>, i: nat, entries: seq<Entry>, d: nat)
    requires entries != [] && EntriesOk(entries, d + 1) && d < 1000 && At(c, i, [123] + EntriesText(entries) + [125])
    ensures ValueAt(c, i, d) == Some((Object(EntriesMeaning(entries)), i + |EntriesText(entries)| + 2))
    decreases entries, 1
  {
    hide MembersAt, ValueAt, Skip, EntriesText, At, DocText, EntriesMeaning, EntryHead, LiteralText, LiteralOk, DocOk;
    Regroup([123], EntriesText(entries), [125]);
    AtParts(c, i, [123], EntriesText(entries) + [125]);
    AtByte(c, i, 123);
    ObjectOnce(c, i, d);
    var x := entries[0];
    var tail := if |entries| == 1 then [] else [44] + EntriesText(entries[1..]);
    EntriesSplit(entries);
    ListParts(c, i + 1, EntryHead(x), DocText(x.doc), x.after, tail, [125]);
    HeadParts(c, i + 1, x);
    SkipTo(c, i + 1, x.before, LiteralText(x.name));
    EntriesRead(c, i + 1, entries, d + 1);
    MembersLater(c, i + 1, d + 1);
  }

  lemma TextRead(c: seq<Byte>, i: nat, chars: seq<Char>, d: nat)
    requires LiteralOk(chars) && At(c, i, LiteralText(chars))
    ensures ValueAt(c, i, d) == Some((Text(CharsBytes(chars)), i + |LiteralText(chars)|))
  {
    hide At, StringAt, CharsBytes, LiteralOk, LiteralText, ItemsAt, MembersAt, Skip;
    AtSlice(c, i, LiteralText(chars));
    NotLiteral(c, i);
    LiteralRead(c, i, chars);
  }

  lemma WordRead(c: seq<Byte>, i: nat, doc: Doc, d: nat)
    requires (doc.NullDoc? || doc.FalseDoc? || doc.TrueDoc?) && At(c, i, DocText(doc))
    ensures ValueAt(c, i, d) == Some((Meaning(doc), i + |DocText(doc)|))
  {
    hide ValueAt, At;
    LiteralBack(c, i, Meaning(doc), d);
  }

  /** The text of every document within the nesting limit is accepted wherever it stands, and read as what it means. */
  lemma {:induction false} ValueRead(c: seq<Byte>, i: nat, doc: Doc, d: nat)
    requires DocOk(doc, d) && At(c, i, DocText(doc))
    ensures ValueAt(c, i, d) == Some((Meaning(doc), i + |DocText(doc)|))
    decreases doc
  {
    hide ValueAt, At, LiteralOk, LiteralText, CharsBytes, Skip, ItemsText, EntriesText, ItemsOk, EntriesOk;
    NoItems();
    match doc
    case NullDoc => WordRead(c, i, doc, d);
    case FalseDoc => WordRead(c, i, doc, d);
    case TrueDoc => WordRead(c, i, doc, d);
    case TextDoc(chars) => TextRead(c, i, chars, d);
    case ArrayDoc(blank, items) =>
      if items == [] {
        EmptyRead(c, i, 91, blank, 93);
        ArrayOnce(c, i, d);
      } else {
        ArrayRead(c, i, items, d);
      }
    case ObjectDoc(blank, entries) =>
      if entries == [] {
        EmptyRead(c, i, 123, blank, 125);
        ObjectOnce(c, i, d);
      } else {
        ObjectRead(c, i, entries, d);
      }
  }

  // ---- Whole texts ----

  /** What precedes the document: a byte order mark in a text of at least four bytes, and blanks. */
  predicate Lead(text: seq<Byte>, lead: seq<Byte>) {
    if 4 <= |text| && text[..3] == [0xEF, 0xBB, 0xBF] then
      |lead| >= 3 && lead[..3] == [0xEF, 0xBB, 0xBF] && Blank(lead[3..])
    else Blank(lead)
  }

  /** The text begins with blanks and a document that means j. */
  ghost predicate Begins(text: seq<Byte>, j: Json) {
    exists lead: seq<Byte>, doc: Doc ::
      Lead(text, lead) && DocOk(doc, 0) && Meaning(doc) == j && lead + DocText(doc) <= text
  }

  lemma LeadRead(text: seq<Byte>, lead: seq<Byte>, t: seq<Byte>)
    requires Lead(text, lead) && lead + t <= text && t != [] && t[0] > 32
    ensures var c := text + [0]; Skip(c, AfterMark(c)) == |lead| && At(c, |lead|, t)
  {
    hide Skip, Blank;
    var c := text + [0];
    assert c[..|lead|] == lead && c[|lead|..|lead| + |t|] == t;
    if 4 <= |text| && text[..3] == [0xEF, 0xBB, 0xBF] {
      assert c[0..3] == text[..3];
      assert c[3..|lead|] == lead[3..];
      SkipTo(c, 3, lead[3..], t);
    } else {
      assert |text| >= 4 ==> c[0..3] == text[..3];
      SkipTo(c, 0, lead, t);
    }
  }

  lemma LeadFound(text: seq<Byte>, p: nat)
    requires var c := text + [0]; p == Skip(c, AfterMark(c)) <= |text|
    ensures Lead(text, text[..p])
  {
    hide Skip;
    var c := text + [0];
    var a := AfterMark(c);
    SkipFound(c, a);
    assert |text| >= 4 ==> c[0..3] == text[..3];
    assert c[a..p] == text[..p][a..];
    assert a == 3 ==> text[..p][..3] == text[..3];
  }

  lemma Inside(text: seq<Byte>, p: nat, t: seq<Byte>)
    requires At(text + [0], p, t) && t != [] && t[|t| - 1] != 0
    ensures p + |t| <= |text| && text[..p] + t <= text
  {
    var c := text + [0];
    assert c[p..p + |t|][|t| - 1] == c[p + |t| - 1];
    assert text[p..p + |t|] == c[p..p + |t|];
  }

  /** For every text and every tree: the parser reads the text as the tree if and only if the text begins with a
      document that means it. */
  lemma ParseExactly(text: seq<Byte>, j: Json)
    ensures Parse(text) == Some(j) <==> Begins(text, j)
  {
    hide ValueAt, Skip, DocOk, DocText, Meaning, At, Lead, AfterMark;
    var c := text + [0];
    var p := Skip(c, AfterMark(c));
    if Parse(text) == Some(j) {
      var doc := ValueFound(c, p, 0);
      Inside(text, p, DocText(doc));
      LeadFound(text, p);
      assert Lead(text, text[..p]) && DocOk(doc, 0) && Meaning(doc) == j && text[..p] + DocText(doc) <= text;
    }
    if Begins(text, j) {
      var lead: seq<Byte>, doc: Doc :|
        Lead(text, lead) && DocOk(doc, 0) && Meaning(doc) == j && lead + DocText(doc) <= text;
      LeadRead(text, lead, DocText(doc));
      ValueRead(c, p, doc, 0);
    }
  }
}
