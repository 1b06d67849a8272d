/** The parser as the source has it: a buffer with an offset and a depth that the recursive functions move (cJSON.c). */
module JsonBuffers {

  import opened JsonDocuments
  import opened JsonStrings
  import opened JsonTrees
  import opened Wrappers

  function Tree(r: Parsed): Option<Json> {
    if r.None? then None else Some(r.value.0)
  }

  class ParseBuffer {
    const content: seq<Byte>
    var offset: nat
    var depth: nat

    constructor (content: seq<Byte>)
      ensures this.content == content && offset == 0 && depth == 0
    {
      this.content := content;
      offset, depth := 0, 0;
    }

    /** The bytes still to be read. */
    function Rest(): nat
      reads this
    {
      if offset < |content| then |content| - offset else 0
    }

    /** buffer_skip_whitespace. */
    method SkipWhitespace()
      modifies this`offset
      ensures offset == Skip(content, old(offset))
    {
      if offset >= |content| {
        return;
      }
      while offset < |content| && content[offset] <= 32
        invariant offset <= |content|
        invariant offset < |content| ==> Skip(content, old(offset)) == Skip(content, offset)
        invariant offset == |content| ==> Skip(content, old(offset)) == |content| - 1
      {
        offset := offset + 1;
      }
      if offset == |content| {
        offset := offset - 1;
      }
    }

    method Literal(t: seq<Byte>) returns (found: bool)
      requires t != []
      modifies this`offset
      ensures found == At(content, old(offset), t)
      ensures offset == old(offset) + if found then |t| else 0
    {
      found := offset + |t| <= |content| && content[offset..offset + |t|] == t;
      if found {
        offset := offset + |t|;
      }
    }

    /** parse_value. */
    method ParseValue() returns (r: Option<Json>)
      modifies this
      ensures r == Tree(ValueAt(content, old(offset), old(depth)))
      ensures r.Some? ==> offset == ValueAt(content, old(offset), old(depth)).value.1 && depth == old(depth)
      decreases Rest(), 2
    {
      var found := Literal(NULL);
      if found {
        return Some(Null);
      }
      found := Literal(FALSE);
      if found {
        return Some(False);
      }
      found := Literal(TRUE);
      if found {
        return Some(True);
      }
      if offset >= |content| {
        return None;
      }
      if content[offset] == QUOTE {
        var s := ParseString(content, offset);
        if s.None? {
          return None;
        }
        offset := s.value.1;
        return Some(Text(s.value.0));
      }
      if content[offset] == 91 {
        r := ParseArray();
        return;
      }
      if content[offset] == 123 {
        r := ParseObject();
        return;
      }
      return None;
    }

    /** parse_array. */
    method ParseArray() returns (r: Option<Json>)
      requires offset < |content| && content[offset] == 91
      modifies this
      ensures r == Tree(ValueAt(content, old(offset), old(depth)))
      ensures r.Some? ==> offset == ValueAt(content, old(offset), old(depth)).value.1 && depth == old(depth)
      decreases Rest(), 1
    {
      NotLiteral(content, offset);
      hide At, ItemsAt;
      if depth >= LIMIT {
        return None;
      }
      depth := depth + 1;
      offset := offset + 1;
      SkipWhitespace();
      if offset < |content| && content[offset] == 93 {
        depth := depth - 1;
        offset := offset + 1;
        return Some(Array([]));
      }
      if offset >= |content| {
        return None;
      }
      var items := ParseItems();
      if items.None? {
        return None;
      }
      depth := depth - 1;
      return Some(Array(items.value));
    }

    /** The loop over the items of an array. */
    method ParseItems() returns (r: Option<seq<Json>>)
      modifies this
      ensures r == Elements(ItemsAt(content, old(offset), old(depth)))
      ensures r.Some? ==> offset == ItemsAt(content, old(offset), old(depth)).value.1 && depth == old(depth)
      decreases Rest(), 3
    {
      hide At, ValueAt, Skip;
      ghost var total := ItemsAt(content, offset, depth);
      Prefix([], total);
      var items := [];
      while true
        invariant offset >= old(offset) && depth == old(depth)
        invariant total == Prefixed(items, ItemsAt(content, offset, depth))
        decreases |content| - offset
      {
        ghost var start := offset;
        SkipWhitespace();
        var v := ParseValue();
        if v.None? {
          return None;
        }
        SkipWhitespace();
        if offset >= |content| {
          return None;
        }
        if content[offset] != COMMA {
          if content[offset] != 93 {
            return None;
          }
          offset := offset + 1;
          return Some(items + [v.value]);
        }
        PrefixMore(items, v.value, ItemsAt(content, offset + 1, depth));
        items := items + [v.value];
        offset := offset + 1;
      }
    }

    /** parse_object. */
    method ParseObject() returns (r: Option<Json>)
      requires offset < |content| && content[offset] == 123
      modifies this
      ensures r == Tree(ValueAt(content, old(offset), old(depth)))
      ensures r.Some? ==> offset == ValueAt(content, old(offset), old(depth)).value.1 && depth == old(depth)
      decreases Rest(), 1
    {
      NotLiteral(content, offset);
      hide At, MembersAt;
      if depth >= LIMIT {
        return None;
      }
      depth := depth + 1;
      offset := offset + 1;
      SkipWhitespace();
      if offset < |content| && content[offset] == 125 {
        depth := depth - 1;
        offset := offset + 1;
        return Some(Object([]));
      }
      if offset >= |content| {
        return None;
      }
      var members := ParseMembers();
      if members.None? {
        return None;
      }
      depth := depth - 1;
      return Some(Object(members.value));
    }

    /** The loop over the members of an object. */
    method ParseMembers() returns (r: Option<seq<Member>>)
      modifies this
      ensures r == Elements(MembersAt(content, old(offset), old(depth)))
      ensures r.Some? ==> offset == MembersAt(content, old(offset), old(depth)).value.1 && depth == old(depth)
      decreases Rest(), 4
    {
      hide At, MemberAt, Skip;
      ghost var total := MembersAt(content, offset, depth);
      Prefix([], total);
      var members := [];
      while true
        invariant offset >= old(offset) && depth == old(depth)
        invariant total == Prefixed(members, MembersAt(content, offset, depth))
        decreases |content| - offset
      {
        var m := ParseMember();
        if m.None? {
          return None;
        }
        SkipWhitespace();
        if offset >= |content| {
          return None;
        }
        if content[offset] != COMMA {
          if content[offset] != 125 {
            return None;
          }
          offset := offset + 1;
          return Some(members + [m.value]);
        }
        PrefixMore(members, m.value, MembersAt(content, offset + 1, depth));
        members := members + [m.value];
        offset := offset + 1;
      }
    }

    /** The name, the colon and the value of one member. */
    method ParseMember() returns (r: Option<Member>)
      modifies this
      ensures r.Some? <==> MemberAt(content, old(offset), old(depth)).Some?
      ensures r.Some? ==> MemberAt(content, old(offset), old(depth)) == Some((r.value, offset)) && depth == old(depth)
      decreases Rest(), 3
    {
      hide At, ValueAt, Skip, StringAt;
      if offset >= |content| {
        return None;
      }
      SkipWhitespace();
      var name := ParseString(content, offset);
      if name.None? {
        return None;
      }
      offset := name.value.1;
      SkipWhitespace();
      if offset >= |content| || content[offset] != COLON {
        return None;
      }
      offset := offset + 1;
      SkipWhitespace();
      var v := ParseValue();
      if v.None? {
        return None;
      }
      return Some(Member(name.value.0, v.value));
    }
  }

  /** cJSON_Parse: the tree that the document means with which the text begins, or nothing if there is none. */
  method ParseText(text: seq<Byte>) returns (r: Option<Json>)
    ensures r == Parse(text)
    ensures forall j :: r == Some(j) <==> Begins(text, j)
  {
    hide Begins, ValueAt, Skip;
    var buffer := new ParseBuffer(text + [0]);
    if 4 < |buffer.content| && buffer.content[..3] == [0xEF, 0xBB, 0xBF] {
      buffer.offset := 3;
    }
    buffer.SkipWhitespace();
    r := buffer.ParseValue();
    forall j ensures r == Some(j) <==> Begins(text, j) {
      ParseExactly(text, j);
    }
  }

  function Elements<T>(r: Option<(seq<T>, nat)>): Option<seq<T>> {
    if r.None? then None else Some(r.value.0)
  }

  function Prefixed<T>(a: seq<T>, r: Option<(seq<T>, nat)>): Option<(seq<T>, nat)> {
    if r.None? then None else Some((a + r.value.0, r.value.1))
  }

  lemma Prefix<T>(a: seq<T>, r: Option<(seq<T>, nat)>)
    requires a == []
    ensures Prefixed(a, r) == r
  {
    if r.Some? {
      assert [] + r.value.0 == r.value.0;
    }
  }

  lemma PrefixMore<T>(a: seq<T>, x: T, r: Option<(seq<T>, nat)>)
    ensures Prefixed(a, if r.None? then None else Some(([x] + r.value.0, r.value.1))) == Prefixed(a + [x], r)
  {
    if r.Some? {
      assert a + ([x] + r.value.0) == (a + [x]) + r.value.0;
    }
  }
}
