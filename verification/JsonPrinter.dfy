/** The printer as the source has it: an array with an offset and a depth, that is made larger when a request does not
    fit (cJSON.c). Every write stays within what was asked for. */
module JsonPrinter {

  import opened JsonStrings
  import opened JsonTrees
  import opened Wrappers

  const INT_MAX := 2147483647

  class PrintBuffer {
    const format: bool
    const noalloc: bool
    const grants: nat -> bool       // whether the allocator grants its n-th call
    var buffer: array?<Byte>
    var offset: nat
    var depth: nat
    var calls: nat

    ghost predicate Valid()
      reads this`buffer, this`offset, buffer
    {
      buffer != null && buffer.Length <= INT_MAX && (offset < buffer.Length || offset == buffer.Length == 0)
    }

    /** The bytes written so far. */
    ghost function Written(): (s: seq<Byte>)
      requires Valid()
      reads this`buffer, this`offset, buffer
      ensures |s| == offset
    {
      buffer[..offset]
    }

    /** The most that can ever be asked for, if the allocator grants it. */
    function Most(): nat
      reads this`buffer
    {
      if !noalloc then INT_MAX else if buffer == null then 0 else buffer.Length
    }

    /** The allocator has refused a call since. */
    predicate Refused(since: nat)
      reads this`calls
    {
      since < calls && !grants(calls - 1)
    }

    /** It is still the same array, or a new one where that is allowed. */
    twostate predicate Continued()
      reads this`buffer, this`calls
    {
      && calls >= old(calls) && buffer != null && old(buffer) != null
      && (buffer == old(buffer) || (!noalloc && fresh(buffer))) && Most() == old(Most())
    }

    /** The buffer holds this text and its terminator. */
    ghost predicate Shows(text: seq<Byte>)
      reads this`buffer, buffer
    {
      buffer != null && |text| < buffer.Length && buffer[..|text|] == text && buffer[|text|] == 0
    }

    /** A text stands after what was written before, and the offset is not behind it. */
    ghost predicate Printed(before: seq<Byte>, text: seq<Byte>)
      reads this`buffer, this`offset, buffer
    {
      && Valid() && Shows(before + text) && |before| <= offset <= |before + text|
      && |before + text| + 2 <= Most()
    }

    constructor (buffer: array<Byte>, format: bool, noalloc: bool, grants: nat -> bool)
      requires buffer.Length <= INT_MAX
      ensures this.buffer == buffer && this.format == format && this.noalloc == noalloc && this.grants == grants
      ensures Valid() && offset == 0 && depth == 0 && calls == 0
    {
      this.buffer, this.format, this.noalloc, this.grants := buffer, format, noalloc, grants;
      offset, depth, calls := 0, 0, 0;
    }

    /** A text in three parts, of which the last was printed after the others. */
    lemma Merge(before: seq<Byte>, open: seq<Byte>, all: seq<Byte>, close: seq<Byte>)
      requires Printed(before + open + all, close)
      ensures Printed(before, open + all + close)
    {
      Bracketed(before, open, all, close);
    }

    /** A text that stands at the beginning, with its terminator. */
    lemma Alone(text: seq<Byte>)
      requires Printed([], text)
      ensures |text| + 2 <= Most() && |text| < buffer.Length && buffer[..|text| + 1] == text + [0]
    {
      assert [] + text == text;
    }

    /** ensure: room for that many bytes and one more from the offset on, in the same array or in a larger one that
        holds the same. */
    method Ensure(needed: nat) returns (ok: bool)
      requires buffer != null ==> buffer.Length <= INT_MAX
      modifies this`buffer, this`calls
      ensures calls >= old(calls)
      ensures ok ==> Valid() && offset + needed + 1 <= buffer.Length
      ensures ok ==> buffer == old(buffer) || (!noalloc && fresh(buffer))
      ensures ok && old(Valid()) ==> Written() == old(Written()) && Most() == old(Most())
      ensures ok && old(Valid()) ==>
                if offset + needed + 1 <= old(buffer.Length) then buffer == old(buffer) && calls == old(calls)
                else
                  var total := offset + needed + 1;
                  buffer.Length == (if total > 1073741823 then 2147483647 else 2 * total) && calls == old(calls) + 1
      ensures !ok && old(Valid()) ==> Refused(old(calls)) || offset + needed + 1 > old(Most())
    {
      if buffer == null {
        return false;
      }
      if buffer.Length > 0 && offset >= buffer.Length {
        return false;
      }
      if needed > INT_MAX {
        return false;
      }
      var total := needed + offset + 1;
      if total <= buffer.Length {
        return true;
      }
      if noalloc {
        return false;
      }
      var size;
      if total > INT_MAX / 2 {
        if total > INT_MAX {
          return false;
        }
        size := INT_MAX;
      } else {
        size := total * 2;
      }
      calls := calls + 1;
      if !grants(calls - 1) {
        buffer := null;
        return false;
      }
      var larger := new Byte[size];
      forall i | 0 <= i < buffer.Length {
        larger[i] := buffer[i];
      }
      buffer := larger;
      return true;
    }

    /** Some bytes after a request for at least as many; the others of the array stay as they are. */
    method Write(needed: nat, bytes: seq<Byte>) returns (ok: bool)
      requires Valid() && |bytes| <= needed
      modifies this`buffer, this`calls, buffer
      ensures calls >= old(calls)
      ensures ok ==> Valid() && Continued() && offset + needed + 1 <= buffer.Length
      ensures ok ==> buffer[..offset + |bytes|] == old(Written()) + bytes
      ensures ok && buffer == old(buffer) ==>
                forall i :: offset + |bytes| <= i < buffer.Length ==> buffer[i] == old(buffer[i])
      ensures !ok ==> Refused(old(calls)) || offset + needed + 1 > old(Most())
    {
      ok := Ensure(needed);
      if ok {
        Append(buffer, offset, bytes);
      }
    }

    /** Text that is part of a larger one: the offset moves behind it. */
    method Emit(needed: nat, text: seq<Byte>, terminator: seq<Byte>) returns (ok: bool)
      requires Valid() && |text| + |terminator| <= needed
      modifies this`buffer, this`calls, this`offset, buffer
      ensures calls >= old(calls)
      ensures ok ==> Valid() && Continued() && Written() == old(Written()) + text
      ensures !ok ==> Refused(old(calls)) || old(offset) + needed + 1 > old(Most())
    {
      ok := Write(needed, text + terminator);
      if ok {
        CutAppended(buffer[..offset + |text + terminator|], old(Written()), text + terminator, |text|);
        offset := offset + |text|;
        assert (text + terminator)[..|text|] == text;
      }
    }

    /** update_offset: behind the text that stands at the offset. */
    method UpdateOffset(ghost before: seq<Byte>, ghost text: seq<Byte>)
      requires Printed(before, text) && ZeroFree(text)
      modifies this`offset
      ensures Valid() && Written() == before + text
    {
      forall k | |before| <= k < |before + text| ensures buffer[k] != 0 {
        assert buffer[..|before + text|][k] == text[k - |before|];
      }
      while buffer[offset] != 0
        invariant Printed(before, text)
        decreases |before + text| - offset
      {
        offset := offset + 1;
      }
    }

    /** print_string_ptr. */
    method PrintString(s: seq<Byte>) returns (ok: bool)
      requires Valid()
      modifies this`buffer, this`calls, buffer
      ensures calls >= old(calls)
      ensures ok ==> Printed(old(Written()), Quoted(s)) && Continued()
      ensures ok && buffer == old(buffer) ==>
                forall i :: offset + |Quoted(s)| < i < buffer.Length ==> buffer[i] == old(buffer[i])
      ensures !ok ==> Refused(old(calls)) || offset + |Quoted(s)| + 2 > old(Most())
    {
      hide Quoted, Extra;
      var extra := CountExtra(s);
      QuotedLength(s);
      ok := Ensure(|s| + extra + 3);
      if ok {
        WriteString(buffer, offset, s, extra);
      }
    }

    // ---- Trees ----

    /** The last bytes of a value: the offset stays. */
    method Close(needed: nat, t: seq<Byte>) returns (ok: bool)
      requires Valid() && needed == |t| + 1
      modifies this`buffer, this`calls, buffer
      ensures calls >= old(calls)
      ensures ok ==> Printed(old(Written()), t) && Continued()
      ensures !ok ==> Refused(old(calls)) || offset + |t| + 2 > old(Most())
    {
      ok := Write(needed, t + [0]);
      if ok {
        Terminated(buffer[..], old(Written()), t);
      }
    }

    /** print_value fails exactly when the tree is nested too deeply, its text with two bytes more does not fit, or the
        allocator refuses. */
    method PrintValue(j: Json) returns (ok: bool)
      requires Valid()
      modifies this, buffer
      ensures calls >= old(calls)
      ensures ok ==> Printed(old(Written()), Print(j, old(depth), format)) && Continued()
      ensures ok ==> Fits(j, old(depth)) && depth == old(depth)
      ensures !ok ==> Refused(old(calls)) || !Fits(j, old(depth)) ||
                      old(offset) + |Print(j, old(depth), format)| + 2 > old(Most())
      decreases j, 1, 0
    {
      match j
      case Null => ok := Close(5, NULL);
      case False => ok := Close(6, FALSE);
      case True => ok := Close(5, TRUE);
      case Text(s) => ok := PrintString(s);
      case Array(_) => ok := PrintArray(j);
      case Object(_) => ok := PrintObject(j);
    }

    /** One item of an array, and what separates it from the next. */
    method PrintItem(j: Json, k: nat) returns (ok: bool)
      requires Valid() && j.Array? && k < |j.items|
      modifies this, buffer
      ensures calls >= old(calls)
      ensures ok ==> Valid() && Continued() && Written() == old(Written()) + ItemText(j, k, old(depth), format)
      ensures ok ==> Fits(j.items[k], old(depth)) && depth == old(depth)
      ensures !ok ==> Refused(old(calls)) || !Fits(j.items[k], old(depth)) ||
                      old(offset) + |ItemText(j, k, old(depth), format)| + 2 > old(Most())
      decreases j, 0, 0
    {
      hide Print, Fits, ZeroFree, Printed, Valid, Written;
      ghost var p := Print(j.items[k], depth, format);
      ok := PrintValue(j.items[k]);
      if !ok {
        return;
      }
      PrintZeroFree(j.items[k], depth, format);
      UpdateOffset(old(Written()), p);
      if k + 1 < |j.items| {
        var length := if format then 2 else 1;
        ok := Emit(length + 1, if format then [COMMA, 32] else [COMMA], [0]);
      } else {
        assert Written() + [] == Written();
      }
    }

    /** The loop over the items of an array. */
    method PrintItems(j: Json) returns (ok: bool)
      requires Valid() && j.Array?
      modifies this, buffer
      ensures calls >= old(calls)
      ensures ok ==> Valid() && Continued() && Written() == old(Written()) + Items(j, 0, old(depth), format)
      ensures ok ==> depth == old(depth) && forall m :: 0 <= m < |j.items| ==> Fits(j.items[m], old(depth))
      ensures !ok ==> Refused(old(calls)) || (exists m :: 0 <= m < |j.items| && !Fits(j.items[m], old(depth))) ||
                      old(offset) + |Items(j, 0, old(depth), format)| + 2 > old(Most())
      decreases j, 0, 1
    {
      hide Print, Fits, Items, ItemText;
      ghost var all := Written() + Items(j, 0, depth, format);
      for k := 0 to |j.items|
        invariant Valid() && Continued() && depth == old(depth)
        invariant forall m :: 0 <= m < k ==> Fits(j.items[m], depth)
        invariant Written() + Items(j, k, depth, format) == all
      {
        ItemsOnce(j, k, depth, format, Written());
        ok := PrintItem(j, k);
        if !ok {
          return;
        }
      }
      NoMoreItems(j, depth, format);
      return true;
    }

    /** print_array. */
    method PrintArray(j: Json) returns (ok: bool)
      requires Valid() && j.Array?
      modifies this, buffer
      ensures calls >= old(calls)
      ensures ok ==> Printed(old(Written()), Print(j, old(depth), format)) && Continued()
      ensures ok ==> Fits(j, old(depth)) && depth == old(depth)
      ensures !ok ==> Refused(old(calls)) || !Fits(j, old(depth)) ||
                      old(offset) + |Print(j, old(depth), format)| + 2 > old(Most())
      decreases j, 0, 2
    {
      hide Print, Fits, Items, Printed, Valid, Written;
      FitsInside(j, depth);
      ArrayText(j, depth, format);
      if depth >= LIMIT {
        return false;
      }
      ok := Emit(1, [91], []);
      if !ok {
        return;
      }
      depth := depth + 1;
      ghost var all := Items(j, 0, depth, format);
      ok := PrintItems(j);
      if !ok {
        return;
      }
      ok := Close(2, [93]);
      if ok {
        Merge(old(Written()), [91], all, [93]);
      }
      depth := depth - 1;
    }

    /** One member: indentation, name, colon, value, and what separates it from the next. */
    method PrintMember(j: Json, k: nat) returns (ok: bool)
      requires Valid() && j.Object? && k < |j.members|
      modifies this, buffer
      ensures calls >= old(calls)
      ensures ok ==> Valid() && Continued() && Written() == old(Written()) + MemberText(j, k, old(depth), format)
      ensures ok ==> Fits(j.members[k].value, old(depth)) && depth == old(depth)
      ensures !ok ==> Refused(old(calls)) || !Fits(j.members[k].value, old(depth)) ||
                      old(offset) + |MemberText(j, k, old(depth), format)| + 2 > old(Most())
      decreases j, 0, 0
    {
      hide Print, Fits, ZeroFree, MemberText, Quoted, Printed, Valid, Written;
      ghost var name, p := Quoted(j.members[k].name), Print(j.members[k].value, depth, format);
      ghost var before := Written();
      MemberLength(j, k, depth, format);
      ok := PrintName(j.members[k].name);
      if !ok {
        return;
      }
      var length := if format then 2 else 1;
      ok := Emit(length, Colon(format), []);
      if !ok {
        return;
      }
      ghost var half := Written();
      ok := PrintValue(j.members[k].value);
      if !ok {
        return;
      }
      PrintZeroFree(j.members[k].value, depth, format);
      UpdateOffset(half, p);
      length := (if format then 1 else 0) + (if k + 1 < |j.members| then 1 else 0);
      ok := Emit(length + 1, AfterMember(j, k, format), [0]);
      MemberJoined(before, j, k, depth, format);
    }

    /** The indentation and the name of a member. */
    method PrintName(name: seq<Byte>) returns (ok: bool)
      requires Valid()
      modifies this`buffer, this`calls, this`offset, buffer
      ensures calls >= old(calls)
      ensures ok ==> Valid() && Continued() && Written() == old(Written()) + (Indent(depth, format) + Quoted(name))
      ensures !ok ==> Refused(old(calls)) || old(offset) + |Indent(depth, format)| + |Quoted(name)| + 2 > old(Most())
    {
      hide Quoted, ZeroFree, Printed, Valid, Written;
      ok := true;
      ghost var before := Written();
      if format {
        ok := Emit(depth, Tabs(depth), []);
        if !ok {
          return;
        }
      } else {
        assert before + [] == before;
      }
      ghost var indented := Written();
      ok := PrintString(name);
      if !ok {
        return;
      }
      QuotedZeroFree(name);
      UpdateOffset(indented, Quoted(name));
      Regroup(before, Indent(depth, format), Quoted(name));
    }

    /** The loop over the members of an object. */
    method PrintMembers(j: Json) returns (ok: bool)
      requires Valid() && j.Object?
      modifies this, buffer
      ensures calls >= old(calls)
      ensures ok ==> Valid() && Continued() && Written() == old(Written()) + Members(j, 0, old(depth), format)
      ensures ok ==> depth == old(depth) && forall m :: 0 <= m < |j.members| ==> Fits(j.members[m].value, old(depth))
      ensures !ok ==> Refused(old(calls)) || (exists m :: 0 <= m < |j.members| && !Fits(j.members[m].value, old(depth)))
                      || old(offset) + |Members(j, 0, old(depth), format)| + 2 > old(Most())
      decreases j, 0, 1
    {
      hide Print, Fits, Members, MemberText;
      ghost var all := Written() + Members(j, 0, depth, format);
      for k := 0 to |j.members|
        invariant Valid() && Continued() && depth == old(depth)
        invariant forall m :: 0 <= m < k ==> Fits(j.members[m].value, depth)
        invariant Written() + Members(j, k, depth, format) == all
      {
        MembersOnce(j, k, depth, format, Written());
        ok := PrintMember(j, k);
        if !ok {
          return;
        }
      }
      NoMoreMembers(j, depth, format);
      return true;
    }

    /** print_object. */
    method PrintObject(j: Json) returns (ok: bool)
      requires Valid() && j.Object?
      modifies this, buffer
      ensures calls >= old(calls)
      ensures ok ==> Printed(old(Written()), Print(j, old(depth), format)) && Continued()
      ensures ok ==> Fits(j, old(depth)) && depth == old(depth)
      ensures !ok ==> Refused(old(calls)) || !Fits(j, old(depth)) ||
                      old(offset) + |Print(j, old(depth), format)| + 2 > old(Most())
      decreases j, 0, 2
    {
      hide Print, Fits, Members, Closing, Tabs, Printed, Valid, Written;
      FitsInside(j, depth);
      ObjectText(j, depth, format);
      if depth >= LIMIT {
        return false;
      }
      var length := if format then 2 else 1;
      ghost var lead := Lead(format);
      ok := Emit(length + 1, Lead(format), []);
      if !ok {
        return;
      }
      depth := depth + 1;
      ghost var all := Members(j, 0, depth, format);
      ok := PrintMembers(j);
      if !ok {
        return;
      }
      ok := Close(if format then depth + 1 else 2, Closing(depth, format));
      if ok {
        Merge(old(Written()), lead, all, Closing(depth, format));
      }
      depth := depth - 1;
    }
  }

  /** cJSON_PrintPreallocated: into the caller's array, exactly when there is room for the text, its terminator and one
      byte more. */
  method PrintPreallocated(j: Json, output: array<Byte>, format: bool) returns (ok: bool)
    requires output.Length <= INT_MAX
    modifies output
    ensures ok <==> Fits(j, 0) && |Print(j, 0, format)| + 2 <= output.Length
    ensures ok ==> var t := Print(j, 0, format); output[..|t| + 1] == t + [0]
  {
    hide Print, Fits;
    var p := new PrintBuffer(output, format, true, n => true);
    ok := p.PrintValue(j);
    if ok {
      p.Alone(Print(j, 0, format));
    }
  }

  /** print: the text and its terminator in memory of their size; nothing exactly when the tree is nested too deeply,
      the text is too long or an allocation fails. */
  method PrintTree(j: Json, format: bool, grants: nat -> bool) returns (r: Option<seq<Byte>>)
    ensures r.Some? ==> Fits(j, 0) && r.value == Print(j, 0, format) + [0] && |r.value| < INT_MAX
    ensures r.None? ==> !Fits(j, 0) || |Print(j, 0, format)| + 2 > INT_MAX || exists n: nat :: !grants(n)
  {
    hide Print, Fits, ZeroFree;
    if !grants(0) {
      return None;
    }
    var buffer := new Byte[256];
    var p := new PrintBuffer(buffer, format, false, grants);
    p.calls := 1;
    var ok := p.PrintValue(j);
    if !ok {
      return None;
    }
    p.Alone(Print(j, 0, format));
    PrintZeroFree(j, 0, format);
    p.UpdateOffset([], Print(j, 0, format));
    p.calls := p.calls + 1;
    if !grants(p.calls - 1) {
      return None;
    }
    r := Some(p.buffer[..p.offset + 1]);
  }

  /** An item and what separates it from the next. */
  function ItemText(j: Json, k: nat, depth: nat, format: bool): seq<Byte>
    requires j.Array? && k < |j.items|
  {
    Print(j.items[k], depth, format) +
    if k + 1 < |j.items| then (if format then [COMMA, 32] else [COMMA]) else []
  }

  lemma QuotedLength(s: seq<Byte>)
    ensures |Quoted(s)| == |s| + Extra(s) + 2
  {
    ExtraIsExact(s);
  }

  lemma Terminated(c: seq<Byte>, before: seq<Byte>, t: seq<Byte>)
    requires |before| + |t| < |c| && c[..|before| + |t + [0]|] == before + (t + [0])
    ensures c[..|before + t|] == before + t && c[|before + t|] == 0
  {
    var d := before + (t + [0]);
    assert c[..|before + t|] == d[..|before + t|];
    assert c[|before + t|] == d[|before + t|];
  }

  lemma Bracketed(t: seq<Byte>, open: seq<Byte>, all: seq<Byte>, close: seq<Byte>)
    ensures ((t + open) + all) + close == t + (open + all + close)
  {
    hide *;
  }

  /** A tree fits if and only if what is inside fits one level deeper. */
  lemma FitsInside(j: Json, d: nat)
    requires j.Array? || j.Object?
    ensures j.Array? ==> (Fits(j, d) <==> d < LIMIT && forall m :: 0 <= m < |j.items| ==> Fits(j.items[m], d + 1))
    ensures j.Object? ==>
              (Fits(j, d) <==> d < LIMIT && forall m :: 0 <= m < |j.members| ==> Fits(j.members[m].value, d + 1))
  {
  }

  /** What stands before the members of an object. */
  function Lead(format: bool): (r: seq<Byte>)
    ensures |r| == if format then 2 else 1
  {
    [123] + if format then [10] else []
  }

  /** What stands after the value of a member. */
  function AfterMember(j: Json, k: nat, format: bool): (r: seq<Byte>)
    requires j.Object? && k < |j.members|
    ensures |r| == (if format then 1 else 0) + (if k + 1 < |j.members| then 1 else 0)
  {
    (if k + 1 < |j.members| then [COMMA] else []) + NewLine(format)
  }

  lemma ObjectText(j: Json, d: nat, format: bool)
    requires j.Object?
    ensures Print(j, d, format) == Lead(format) + Members(j, 0, d + 1, format) + Closing(d + 1, format)
    ensures |Closing(d + 1, format)| == if format then d + 1 else 1
  {
    hide Members, Tabs;
    LastParts([123], if format then [10] else [], Members(j, 0, d + 1, format), if format then Tabs(d) else [], [125]);
  }

  lemma LastParts(a: seq<Byte>, b: seq<Byte>, c: seq<Byte>, d: seq<Byte>, e: seq<Byte>)
    ensures a + b + c + d + e == (a + b) + c + (d + e)
  {
    hide *;
  }

  /** A member's text, part by part. */
  lemma MemberParts(j: Json, k: nat, depth: nat, format: bool)
    requires j.Object? && k < |j.members|
    ensures MemberText(j, k, depth, format) ==
            Indent(depth, format) + Quoted(j.members[k].name) + Colon(format) +
              Print(j.members[k].value, depth, format) + AfterMember(j, k, format)
  {
    hide Print, Quoted, Tabs;
  }

  lemma MemberLength(j: Json, k: nat, depth: nat, format: bool)
    requires j.Object? && k < |j.members|
    ensures |MemberText(j, k, depth, format)| ==
            |Indent(depth, format)| + |Quoted(j.members[k].name)| + |Colon(format)| +
              |Print(j.members[k].value, depth, format)| + |AfterMember(j, k, format)|
  {
    hide MemberText, Print, Quoted;
    MemberParts(j, k, depth, format);
  }

  lemma MemberJoined(before: seq<Byte>, j: Json, k: nat, depth: nat, format: bool)
    requires j.Object? && k < |j.members|
    ensures before + (Indent(depth, format) + Quoted(j.members[k].name)) + Colon(format) +
              Print(j.members[k].value, depth, format) + AfterMember(j, k, format)
            == before + MemberText(j, k, depth, format)
  {
    hide MemberText, Print, Quoted, Colon, Indent, AfterMember;
    MemberParts(j, k, depth, format);
    FourParts(before, Indent(depth, format) + Quoted(j.members[k].name), Colon(format),
              Print(j.members[k].value, depth, format), AfterMember(j, k, format));
  }

  lemma FourParts(t: seq<Byte>, a: seq<Byte>, b: seq<Byte>, c: seq<Byte>, d: seq<Byte>)
    ensures t + a + b + c + d == t + (a + b + c + d)
  {
    hide *;
    assert t + a + b == t + (a + b);
    assert t + (a + b) + c == t + (a + b + c);
  }

  lemma MembersOnce(j: Json, k: nat, depth: nat, format: bool, before: seq<Byte>)
    requires j.Object? && k < |j.members|
    ensures before + Members(j, k, depth, format) ==
            before + MemberText(j, k, depth, format) + Members(j, k + 1, depth, format)
  {
    hide MemberText;
    Regroup(before, MemberText(j, k, depth, format), Members(j, k + 1, depth, format));
  }

  lemma ArrayText(j: Json, d: nat, format: bool)
    requires j.Array?
    ensures Print(j, d, format) == [91] + Items(j, 0, d + 1, format) + [93]
  {
  }

  lemma NoMoreItems(j: Json, depth: nat, format: bool)
    requires j.Array?
    ensures Items(j, |j.items|, depth, format) == []
  {
  }

  lemma ItemsOnce(j: Json, k: nat, depth: nat, format: bool, before: seq<Byte>)
    requires j.Array? && k < |j.items|
    ensures before + Items(j, k, depth, format) ==
            before + ItemText(j, k, depth, format) + Items(j, k + 1, depth, format)
  {
    hide Print;
    Regroup(before, ItemText(j, k, depth, format), Items(j, k + 1, depth, format));
  }

  // ---- No zero byte is printed ----

  lemma {:induction false} EscapedZeroFree(s: seq<Byte>)
    ensures ZeroFree(Escaped(s))
  {
    if s != [] {
      EscapedZeroFree(s[1..]);
    }
  }

  lemma QuotedZeroFree(s: seq<Byte>)
    ensures ZeroFree(Quoted(s))
  {
    EscapedZeroFree(s);
  }

  lemma {:induction false} PrintZeroFree(j: Json, depth: nat, format: bool)
    ensures ZeroFree(Print(j, depth, format))
    decreases j, 1, 0
  {
    hide Quoted, Items, Members, Tabs;
    match j
    case Null =>
    case False =>
    case True =>
    case Text(s) => QuotedZeroFree(s);
    case Array(items) => ItemsZeroFree(j, 0, depth + 1, format);
    case Object(members) => MembersZeroFree(j, 0, depth + 1, format);
  }

  lemma {:induction false} ItemsZeroFree(j: Json, k: nat, depth: nat, format: bool)
    requires j.Array? && k <= |j.items|
    ensures ZeroFree(Items(j, k, depth, format))
    decreases j, 0, |j.items| - k
  {
    hide Print;
    if k < |j.items| {
      PrintZeroFree(j.items[k], depth, format);
      ItemsZeroFree(j, k + 1, depth, format);
    }
  }

  lemma {:induction false} MembersZeroFree(j: Json, k: nat, depth: nat, format: bool)
    requires j.Object? && k <= |j.members|
    ensures ZeroFree(Members(j, k, depth, format))
    decreases j, 0, |j.members| - k
  {
    hide MemberText, ZeroFree;
    if k == |j.members| {
      NoneZero();
    } else {
      MemberZeroFree(j, k, depth, format);
      MembersZeroFree(j, k + 1, depth, format);
      BothZeroFree(MemberText(j, k, depth, format), Members(j, k + 1, depth, format));
    }
  }

  lemma {:induction false} MemberZeroFree(j: Json, k: nat, depth: nat, format: bool)
    requires j.Object? && k < |j.members|
    ensures ZeroFree(MemberText(j, k, depth, format))
    decreases j, 0, 0
  {
    hide MemberText, Print, Quoted, ZeroFree, Indent, Colon, AfterMember;
    var name, value := Quoted(j.members[k].name), Print(j.members[k].value, depth, format);
    var indent, colon, end := Indent(depth, format), Colon(format), AfterMember(j, k, format);
    FixedZeroFree(j, k, depth, format);
    QuotedZeroFree(j.members[k].name);
    PrintZeroFree(j.members[k].value, depth, format);
    BothZeroFree(indent, name);
    BothZeroFree(indent + name, colon);
    BothZeroFree(indent + name + colon, value);
    BothZeroFree(indent + name + colon + value, end);
    MemberParts(j, k, depth, format);
  }

  lemma FixedZeroFree(j: Json, k: nat, depth: nat, format: bool)
    requires j.Object? && k < |j.members|
    ensures ZeroFree(Indent(depth, format)) && ZeroFree(Colon(format)) && ZeroFree(AfterMember(j, k, format))
  {
  }

  lemma NoneZero()
    ensures ZeroFree([])
  {
  }

  lemma BothZeroFree(a: seq<Byte>, b: seq<Byte>)
    requires ZeroFree(a) && ZeroFree(b)
    ensures ZeroFree(a + b)
  {
  }
}
