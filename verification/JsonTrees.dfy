/** Printing and parsing of number-free JSON trees (cJSON.c). */
module JsonTrees {

  import opened JsonStrings
  import opened Wrappers

  const LIMIT := 1000       // nesting limit

  datatype Member = Member(name: seq<Byte>, value: Json)

  datatype Json = Null | False | True | Text(s: seq<Byte>) | Array(items: seq<Json>) | Object(members: seq<Member>)

  const NULL: seq<Byte> := [110, 117, 108, 108]
  const FALSE: seq<Byte> := [102, 97, 108, 115, 101]
  const TRUE: seq<Byte> := [116, 114, 117, 101]
  const COMMA: Byte := 44
  const COLON: Byte := 58

  // ---- Printing ----

  function Tabs(n: nat): (r: seq<Byte>)
    ensures |r| == n && forall i :: 0 <= i < n ==> r[i] == 9
  {
    seq(n, i => 9)
  }

  /** The text of a tree, inside depth arrays and objects. */
  function Print(j: Json, depth: nat, format: bool): (r: seq<Byte>)
    ensures r != [] && r[0] in {110, 102, 116, QUOTE, 91, 123}
    decreases j, 1, 0
  {
    match j
    case Null => NULL
    case False => FALSE
    case True => TRUE
    case Text(s) => Quoted(s)
    case Array(items) => [91] + Items(j, 0, depth + 1, format) + [93]
    case Object(members) =>
      [123] + (if format then [10] else []) + Members(j, 0, depth + 1, format) + (if format then Tabs(depth) else []) +
        [125]
  }

  /** The items from the k-th on, with what separates them. */
  function Items(j: Json, k: nat, depth: nat, format: bool): seq<Byte>
    requires j.Array? && k <= |j.items|
    decreases j, 0, |j.items| - k
  {
    if k == |j.items| then []
    else
      Print(j.items[k], depth, format) +
      (if k + 1 < |j.items| then (if format then [COMMA, 32] else [COMMA]) else []) +
      Items(j, k + 1, depth, format)
  }

  /** The members from the k-th on, each on a line of its own in formatted text. */
  function Members(j: Json, k: nat, depth: nat, format: bool): seq<Byte>
    requires j.Object? && k <= |j.members|
    decreases j, 0, |j.members| - k
  {
    if k == |j.members| then [] else MemberText(j, k, depth, format) + Members(j, k + 1, depth, format)
  }

  /** One member: indentation, name, colon, value, and what separates it from the next. */
  function MemberText(j: Json, k: nat, depth: nat, format: bool): seq<Byte>
    requires j.Object? && k < |j.members|
    decreases j, 0, 0
  {
    (if format then Tabs(depth) else []) + Quoted(j.members[k].name) + (if format then [COLON, 9] else [COLON]) +
    Print(j.members[k].value, depth, format) + (if k + 1 < |j.members| then [COMMA] else []) +
      (if format then [10] else [])
  }

  // ---- Parsing ----

  /** buffer_skip_whitespace. At the end of the buffer it stays on the last byte. */
  function Skip(c: seq<Byte>, i: nat): (r: nat)
    ensures r >= i && (i < |c| ==> r < |c|)
    decreases |c| - i
  {
    if i >= |c| then i
    else if c[i] > 32 then i
    else if i + 1 == |c| then i
    else Skip(c, i + 1)
  }

  type Parsed = Option<(Json, nat)>

  /** A value at position i inside d arrays and objects, and the position after it: parse_value. Numbers are not
      modelled; where one would be read there is no result. */
  function ValueAt(c: seq<Byte>, i: nat, d: nat): (r: Parsed)
    ensures r.Some? ==> i < r.value.1 <= |c|
    decreases |c| - i, 2
  {
    if At(c, i, NULL) then Some((Null, i + 4))
    else if At(c, i, FALSE) then Some((False, i + 5))
    else if At(c, i, TRUE) then Some((True, i + 4))
    else if i >= |c| then None
    else if c[i] == QUOTE then
      var s := StringAt(c, i);
      if s.None? then None else Some((Text(s.value.0), s.value.1))
    else if c[i] == 91 && d < LIMIT then
      var k := Skip(c, i + 1);
      if k < |c| && c[k] == 93 then Some((Array([]), k + 1))
      else if k >= |c| then None
      else
        var items := ItemsAt(c, k, d + 1);
        if items.None? then None else Some((Array(items.value.0), items.value.1))
    else if c[i] == 123 && d < LIMIT then
      var k := Skip(c, i + 1);
      if k < |c| && c[k] == 125 then Some((Object([]), k + 1))
      else if k >= |c| then None
      else
        var members := MembersAt(c, k, d + 1);
        if members.None? then None else Some((Object(members.value.0), members.value.1))
    else None
  }

  /** The items of an array from position i on, and the position after its closing bracket. */
  function ItemsAt(c: seq<Byte>, i: nat, d: nat): (r: Option<(seq<Json>, nat)>)
    ensures r.Some? ==> i < r.value.1 <= |c|
    decreases |c| - i, 3
  {
    var v := ValueAt(c, Skip(c, i), d);
    if v.None? then None
    else
      var k := Skip(c, v.value.1);
      if k >= |c| then None
      else if c[k] == COMMA then
        var rest := ItemsAt(c, k + 1, d);
        if rest.None? then None else Some(([v.value.0] + rest.value.0, rest.value.1))
      else if c[k] == 93 then Some(([v.value.0], k + 1))
      else None
  }

  /** One member of an object from position i on. */
  function MemberAt(c: seq<Byte>, i: nat, d: nat): (r: Option<(Member, nat)>)
    ensures r.Some? ==> i < r.value.1 <= |c|
    decreases |c| - i, 3
  {
    if i >= |c| then None
    else
      var name := StringAt(c, Skip(c, i));
      if name.None? then None
      else
        var k := Skip(c, name.value.1);
        if k >= |c| || c[k] != COLON then None
        else
          var v := ValueAt(c, Skip(c, k + 1), d);
          if v.None? then None else Some((Member(name.value.0, v.value.0), v.value.1))
  }

  /** The members of an object from position i on, and the position after its closing brace. */
  function MembersAt(c: seq<Byte>, i: nat, d: nat): (r: Option<(seq<Member>, nat)>)
    ensures r.Some? ==> i < r.value.1 <= |c|
    decreases |c| - i, 4
  {
    var m := MemberAt(c, i, d);
    if m.None? then None
    else
      var e := Skip(c, m.value.1);
      if e >= |c| then None
      else if c[e] == COMMA then
        var rest := MembersAt(c, e + 1, d);
        if rest.None? then None else Some(([m.value.0] + rest.value.0, rest.value.1))
      else if c[e] == 125 then Some(([m.value.0], e + 1))
      else None
  }

  // ---- Nesting and positions ----

  /** Inside d arrays and objects, the tree stays within the nesting limit. */
  predicate Fits(j: Json, d: nat) {
    match j
    case Array(items) => d < LIMIT && forall k :: 0 <= k < |items| ==> Fits(items[k], d + 1)
    case Object(members) => d < LIMIT && forall k :: 0 <= k < |members| ==> Fits(members[k].value, d + 1)
    case _ => true
  }

  lemma FirstByte(c: seq<Byte>, i: nat, t: seq<Byte>)
    requires At(c, i, t) && t != []
    ensures i < |c| && c[i] == t[0] && i + |t| <= |c|
  {
    assert c[i..i + |t|][0] == c[i];
  }

  lemma NotLiteral(c: seq<Byte>, i: nat)
    requires i < |c| && c[i] !in {110, 102, 116}
    ensures !At(c, i, NULL) && !At(c, i, FALSE) && !At(c, i, TRUE)
  {
    if At(c, i, NULL) { FirstByte(c, i, NULL); }
    if At(c, i, FALSE) { FirstByte(c, i, FALSE); }
    if At(c, i, TRUE) { FirstByte(c, i, TRUE); }
  }

  lemma SkipNone(c: seq<Byte>, i: nat)
    requires i < |c| && c[i] > 32
    ensures Skip(c, i) == i
  {
  }

  lemma {:induction false} SkipBlank(c: seq<Byte>, i: nat, t: seq<Byte>)
    requires At(c, i, t) && (forall k :: 0 <= k < |t| ==> t[k] <= 32) && i + |t| < |c|
    ensures Skip(c, i) == Skip(c, i + |t|)
    decreases |t|
  {
    if t != [] {
      FirstByte(c, i, t);
      assert t == [t[0]] + t[1..];
      AtParts(c, i, [t[0]], t[1..]);
      SkipBlank(c, i + 1, t[1..]);
    }
  }

  lemma LiteralBack(c: seq<Byte>, i: nat, j: Json, d: nat)
    requires j.Null? || j.False? || j.True?
    requires At(c, i, Print(j, 0, false))
    ensures ValueAt(c, i, d) == Some((j, i + |Print(j, 0, false)|))
  {
    FirstByte(c, i, Print(j, 0, false));
    if j.False? || j.True? {
      if At(c, i, NULL) { FirstByte(c, i, NULL); }
    }
    if j.True? {
      if At(c, i, FALSE) { FirstByte(c, i, FALSE); }
    }
  }

  /** What closes an object. */
  function Closing(depth: nat, format: bool): (r: seq<Byte>)
    requires depth > 0
    ensures r != []
  {
    (if format then Tabs(depth - 1) else []) + [125]
  }

  lemma {:induction false} SkipTwice(c: seq<Byte>, i: nat)
    ensures Skip(c, Skip(c, i)) == Skip(c, i)
    decreases |c| - i
  {
    if i < |c| && c[i] <= 32 && i + 1 < |c| {
      SkipTwice(c, i + 1);
    }
  }

  function Indent(depth: nat, format: bool): (r: seq<Byte>)
    ensures forall k :: 0 <= k < |r| ==> r[k] <= 32
  {
    if format then Tabs(depth) else []
  }

  function Colon(format: bool): (r: seq<Byte>)
    ensures r != [] && r[0] == COLON
  {
    if format then [COLON, 9] else [COLON]
  }

  function NewLine(format: bool): (r: seq<Byte>)
    ensures forall k :: 0 <= k < |r| ==> r[k] <= 32
  {
    if format then [10] else []
  }

  lemma NoMoreMembers(j: Json, depth: nat, format: bool)
    requires j.Object?
    ensures Members(j, |j.members|, depth, format) == []
  {
  }

  // ---- Whole texts ----

  /** skip_utf8_bom. */
  function AfterMark(c: seq<Byte>): nat {
    if 4 < |c| && At(c, 0, [0xEF, 0xBB, 0xBF]) then 3 else 0
  }

  /** cJSON_Parse: the text with its terminating zero, from the first byte that is not blank. */
  function Parse(text: seq<Byte>): Option<Json> {
    var c := text + [0];
    var r := ValueAt(c, Skip(c, AfterMark(c)), 0);
    if r.None? then None else Some(r.value.0)
  }
}
