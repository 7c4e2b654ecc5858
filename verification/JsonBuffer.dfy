/**
  Printing into a growing buffer. Every write is inside the space that `ensure`
  provides, and the text is the one that the allocating printers give.
*/
module JsonBuffer {
  import opened Basics
  import opened Json
  import opened JsonRoundTrip
  import opened JsonPow2

  // --------------------------------------------------------------------- the buffer

  /** The buffer holds `t` and a terminator at `start`. */
  ghost predicate Holds(b: seq<int>, start: nat, t: Text) {
    start + |t| < |b| && b[start..start + |t|] == t && b[start + |t|] == 0
  }

  method Write(b: array<int>, at: nat, t: Text)
    requires at + |t| <= b.Length
    modifies b
    ensures b[..at] == old(b[..at]) && b[at..at + |t|] == t
    ensures forall i :: at + |t| <= i < b.Length ==> b[i] == old(b[i])
  {
    for i := 0 to |t|
      invariant b[..at] == old(b[..at]) && b[at..at + i] == t[..i]
      invariant forall k :: at + i <= k < b.Length ==> b[k] == old(b[k])
    {
      b[at + i] := t[i];
    }
  }

  /** Write `e` behind what has been written since `from`. */
  method WriteAfter(b: array<int>, from: nat, ghost done: Text, k: nat, e: Text)
    requires from + k + |e| <= b.Length && k == |done| && b[from..from + k] == done
    modifies b
    ensures b[..from] == old(b[..from]) && b[from..from + k + |e|] == done + e
  {
    ghost var was := b[..];
    Write(b, from + k, e);
    assert b[..from] == b[..from + k][..from] && was[..from + k][..from] == was[..from];
    assert b[from..from + k] == b[..from + k][from..] && was[..from + k][from..] == was[from..from + k];
    assert b[from..from + k + |e|] == b[from..from + k] + b[from + k..from + k + |e|];
  }

  class PrintBuffer {
    var buffer: array<int>
    var offset: nat

    ghost predicate Valid()
      reads this
    {
      offset <= buffer.Length
    }

    /** What has been printed. */
    ghost function Done(): seq<int>
      requires Valid()
      reads this, buffer
    {
      buffer[..offset]
    }

    constructor (prebuffer: nat)
      ensures Valid() && fresh(buffer) && offset == 0 && buffer.Length == prebuffer
    {
      buffer := new int[prebuffer];
      offset := 0;
    }

    /**
      `ensure`: room for `needed` more characters, in a buffer whose size is the next power of two if it is too small.
    */
    method Ensure(needed: nat)
      requires Valid()
      modifies this
      ensures Valid() && offset == old(offset) && offset + needed <= buffer.Length
      ensures if offset + needed <= old(buffer.Length) then buffer == old(buffer)
              else fresh(buffer) && buffer.Length == RoundUp(offset + needed, 1)
      ensures Done() == old(Done())
    {
      if offset + needed <= buffer.Length {
        return;
      }
      var bigger := new int[RoundUp(offset + needed, 1)];
      for i := 0 to buffer.Length
        invariant bigger[..i] == buffer[..i]
        modifies bigger
      {
        bigger[i] := buffer[i];
      }
      ghost var was := buffer[..offset];
      assert bigger[..offset] == bigger[..buffer.Length][..offset];
      buffer := bigger;
    }

    /** Print `t` in `room` characters and move past it. */
    method Append(t: Text, room: nat)
      requires Valid() && |t| <= room
      modifies this, buffer
      ensures Valid() && (buffer == old(buffer) || fresh(buffer))
      ensures Done() == old(Done()) + t
    {
      Ensure(room);
      Write(buffer, offset, t);
      if |t| < room {
        buffer[offset + |t|] := 0;
      }
      assert buffer[..offset + |t|] == buffer[..offset] + buffer[offset..offset + |t|];
      offset := offset + |t|;
    }

    /** Print `t` and a terminator in `room` characters, and stay before it. */
    method Finish(t: Text, room: nat)
      requires Valid() && |t| < room
      modifies this, buffer
      ensures Valid() && (buffer == old(buffer) || fresh(buffer)) && offset == old(offset)
      ensures Done() == old(Done()) && Holds(buffer[..], offset, t)
    {
      Ensure(room);
      Write(buffer, offset, t);
      buffer[offset + |t|] := 0;
      assert buffer[..][offset..offset + |t|] == buffer[offset..offset + |t|];
    }

    /** `update`: move to the terminator. */
    method Update(ghost t: Text)
      requires Valid() && Holds(buffer[..], offset, t)
      modifies this
      ensures Valid() && buffer == old(buffer) && Done() == old(Done()) + t
    {
      var n := 0;
      ghost var seen := buffer[..][offset..offset + |t|];
      assert forall k :: 0 <= k < |t| ==> seen[k] == buffer[offset + k];
      while buffer[offset + n] != 0
        invariant n <= |t|
        decreases |t| - n
      {
        n := n + 1;
      }
      assert buffer[..offset + n] == buffer[..offset] + buffer[..][offset..offset + |t|];
      offset := offset + n;
    }

    /** `print_string_ptr`: as it is when nothing needs escaping, else measured first and then escaped. */
    method PutString(s: Text)
      requires Valid()
      modifies this, buffer
      ensures Valid() && (buffer == old(buffer) || fresh(buffer)) && offset == old(offset)
      ensures Done() == old(Done()) && Holds(buffer[..], offset, PrintString(s))
    {
      hide EscapedAll, Escaped;
      var flag, len := Measure(s);
      if !flag {
        PlainEscapes(s);
        Finish([QUOTE] + s + [QUOTE], |s| + 3);
        return;
      }
      Ensure(len + 3);
      PutEscaped(s, len);
    }

    method PutEscaped(s: Text, len: nat)
      requires Valid() && len == |EscapedAll(s)| && offset + len + 3 <= buffer.Length
      modifies buffer
      ensures Done() == old(Done()) && Holds(buffer[..], offset, PrintString(s))
    {
      hide Escaped, EscapedAll;
      var open: Text := [QUOTE];
      ghost var none: Text := [];
      WriteAfter(buffer, offset, none, 0, open);
      var k := 1;
      NothingEscaped(s);
      for i := 0 to |s|
        invariant k == 1 + |EscapedAll(s[..i])| && EscapedAll(s) == EscapedAll(s[..i]) + EscapedAll(s[i..])
        invariant Done() == old(Done()) && buffer[offset..offset + k] == open + EscapedAll(s[..i])
      {
        EscapedNext(s, i);
        assert open + EscapedAll(s[..i + 1]) == (open + EscapedAll(s[..i])) + Escaped(s[i]);
        WriteAfter(buffer, offset, open + EscapedAll(s[..i]), k, Escaped(s[i]));
        k := k + |Escaped(s[i])|;
      }
      assert s[..|s|] == s;
      assert k == 1 + len;
      WriteAfter(buffer, offset, open + EscapedAll(s), k, open);
      buffer[offset + k + 1] := 0;
      assert buffer[..][offset..offset + k + 1] == buffer[offset..offset + k + 1];
    }
  }

  // ------------------------------------------------------------------------- the values

  /** `t` has been printed at `start`, and `offset` is somewhere in it. */
  ghost predicate Printed(b: seq<int>, before: seq<int>, offset: nat, t: Text) {
    && |before| <= offset <= |before| + |t| && Holds(b, |before|, t) && b[..|before|] == before
  }

  lemma PrintedTail(b: seq<int>, before: seq<int>, offset: nat, t: Text)
    requires Printed(b, before, offset, t)
    ensures var k := offset - |before|;
      offset <= |b| && Holds(b, offset, t[k..]) && b[..offset] + t[k..] == before + t
  {
    var k := offset - |before|;
    var n := |before|;
    assert b[offset..offset + |t| - k] == b[n..n + |t|][k..];
    assert b[..offset] == b[..n] + b[n..n + |t|][..k];
  }

  /** A last piece after what has been printed since `before`. */
  lemma PrintedAll(b: seq<int>, before: seq<int>, offset: nat, body: Text, end: Text)
    requires offset <= |b| && b[..offset] == before + body && Holds(b, offset, end)
    ensures Printed(b, before, offset, body + end)
  {
    var n := |before|;
    assert b[..n] == b[..offset][..n];
    assert b[n..offset] == b[..offset][n..];
    assert b[n..n + |body + end|] == b[n..offset] + b[offset..offset + |end|];
  }

  lemma PrintedHere(b: seq<int>, offset: nat, t: Text)
    requires offset <= |b| && Holds(b, offset, t)
    ensures Printed(b, b[..offset], offset, t)
  {
  }

  /** `print_value` with a buffer. */
  method PrintValue(p: PrintBuffer, v: Value, depth: nat, fmt: bool)
    requires p.Valid() && Printable(v)
    modifies p, p.buffer
    ensures p.Valid() && (p.buffer == old(p.buffer) || fresh(p.buffer))
    ensures Printed(p.buffer[..], old(p.Done()), p.offset, Print(v, depth, fmt))
    decreases v, 2
  {
    hide Printed, PrintString, PrintInt;
    match v
    case Null => p.Finish(NULL_TEXT, 5); PrintedHere(p.buffer[..], p.offset, NULL_TEXT);
    case False => p.Finish(FALSE_TEXT, 6); PrintedHere(p.buffer[..], p.offset, FALSE_TEXT);
    case True => p.Finish(TRUE_TEXT, 5); PrintedHere(p.buffer[..], p.offset, TRUE_TEXT);
    case Number(n) =>
      IntSize(n.Floor);
      p.Finish(PrintInt(n.Floor), if n == 0.0 then 2 else 21);
      PrintedHere(p.buffer[..], p.offset, PrintInt(n.Floor));
    case String(s) => p.PutString(s); PrintedHere(p.buffer[..], p.offset, PrintString(s));
    case Array(items) => PrintArray(p, items, depth, fmt);
    case Object(members) => PrintObject(p, members, depth, fmt);
  }

  /** `print_array` with a buffer. */
  method PrintArray(p: PrintBuffer, items: seq<Value>, depth: nat, fmt: bool)
    requires p.Valid() && Printable(Array(items))
    modifies p, p.buffer
    ensures p.Valid() && (p.buffer == old(p.buffer) || fresh(p.buffer))
    ensures Printed(p.buffer[..], old(p.Done()), p.offset, Print(Array(items), depth, fmt))
    decreases items, 1
  {
    hide Printed, PrintItems;
    ghost var before := p.Done();
    if items == [] {
      EmptyItems(depth + 1, fmt);
      p.Finish([OPEN_ARRAY, CLOSE_ARRAY], 3);
      PrintedHere(p.buffer[..], p.offset, [OPEN_ARRAY, CLOSE_ARRAY]);
      assert [OPEN_ARRAY] + [] + [CLOSE_ARRAY] == [OPEN_ARRAY, CLOSE_ARRAY];
      return;
    }
    p.Append([OPEN_ARRAY], 1);
    PutItems(p, items, depth + 1, fmt);
    assert p.Done() == before + ([OPEN_ARRAY] + PrintItems(items, depth + 1, fmt));
    p.Finish([CLOSE_ARRAY], 2);
    PrintedAll(p.buffer[..], before, p.offset, [OPEN_ARRAY] + PrintItems(items, depth + 1, fmt), [CLOSE_ARRAY]);
  }

  lemma ItemsLayout(items: seq<Value>, depth: nat, fmt: bool)
    requires items != [] && Printable(Array(items))
    ensures Printable(items[0]) && Printable(Array(items[1..]))
    ensures PrintItems(items, depth, fmt) ==
      Print(items[0], depth, fmt) + ((if |items| == 1 then [] else Comma(fmt)) + PrintItems(items[1..], depth, fmt))
  {
    hide Print;
    if |items| == 1 {
      EmptyItems(depth, fmt);
      assert items[1..] == [];
    }
  }

  method PutItems(p: PrintBuffer, items: seq<Value>, depth: nat, fmt: bool)
    requires p.Valid() && Printable(Array(items))
    modifies p, p.buffer
    ensures p.Valid() && (p.buffer == old(p.buffer) || fresh(p.buffer))
    ensures p.Done() == old(p.Done()) + PrintItems(items, depth, fmt)
    decreases items, 0
  {
    hide Print, PrintItems;
    ghost var all := p.Done() + PrintItems(items, depth, fmt);
    assert items[0..] == items;
    for i := 0 to |items|
      invariant p.Valid() && (p.buffer == old(p.buffer) || fresh(p.buffer))
      invariant Printable(Array(items[i..]))
      invariant p.Done() + PrintItems(items[i..], depth, fmt) == all
    {
      ghost var before := p.Done();
      ItemsLayout(items[i..], depth, fmt);
      assert items[i..][1..] == items[i + 1..];
      PrintOne(p, items[i], depth, fmt);
      ghost var more := PrintItems(items[i + 1..], depth, fmt);
      if i + 1 < |items| {
        p.Append(Comma(fmt), |Comma(fmt)| + 1);
        Regroup(before, Print(items[i], depth, fmt), Comma(fmt), more);
      } else {
        Regroup(before, Print(items[i], depth, fmt), [], more);
        assert p.Done() + [] == p.Done();
      }
    }
    EmptyItems(depth, fmt);
    assert p.Done() + [] == p.Done();
  }

  lemma Regroup(a: seq<int>, b: seq<int>, c: seq<int>, d: seq<int>)
    ensures a + (b + (c + d)) == a + b + c + d
  {
  }

  /** `print_object` with a buffer. */
  method PrintObject(p: PrintBuffer, members: seq<Member>, depth: nat, fmt: bool)
    requires p.Valid() && Printable(Object(members))
    modifies p, p.buffer
    ensures p.Valid() && (p.buffer == old(p.buffer) || fresh(p.buffer))
    ensures Printed(p.buffer[..], old(p.Done()), p.offset, Print(Object(members), depth, fmt))
    decreases members, 1
  {
    hide Printed, PrintMembers, Tabs, Print, Printable;
    ghost var before := p.Done();
    if members == [] {
      var t := [OPEN_OBJECT] + (if fmt then [NEWLINE] + Tabs(depth - 1) else []) + [CLOSE_OBJECT];
      p.Finish(t, if fmt then depth + 4 else 3);
      PrintedHere(p.buffer[..], p.offset, t);
      EmptyObjectText(depth, fmt);
      return;
    }
    ObjectText(members, depth, fmt);
    var open: Text := if fmt then [OPEN_OBJECT, NEWLINE] else [OPEN_OBJECT];
    var close: Text := (if fmt then Tabs(depth) else []) + [CLOSE_OBJECT];
    p.Append(open, |open| + 1);
    PutMembers(p, members, depth + 1, fmt);
    ghost var body := open + PrintMembers(members, depth + 1, fmt);
    assert p.Done() == before + body;
    p.Finish(close, if fmt then depth + 2 else 2);
    PrintedAll(p.buffer[..], before, p.offset, body, close);
  }

  lemma EmptyObjectText(depth: nat, fmt: bool)
    ensures Print(Object([]), depth, fmt) ==
      [OPEN_OBJECT] + (if fmt then [NEWLINE] + Tabs(depth - 1) else []) + [CLOSE_OBJECT]
  {
  }

  lemma ObjectText(members: seq<Member>, depth: nat, fmt: bool)
    requires members != [] && Printable(Object(members))
    ensures var open: Text, close: Text := (if fmt then [OPEN_OBJECT,
      NEWLINE] else [OPEN_OBJECT]), (if fmt then Tabs(depth) else []) + [CLOSE_OBJECT];
      && (forall i :: 0 <= i < |members| ==> Printable(members[i].value))
      && Print(Object(members), depth, fmt) == (open + PrintMembers(members, depth + 1, fmt)) + close
  {
    hide PrintMembers, Tabs;
  }

  method PutMembers(p: PrintBuffer, members: seq<Member>, depth: nat, fmt: bool)
    requires p.Valid() && Printable(Object(members))
    modifies p, p.buffer
    ensures p.Valid() && (p.buffer == old(p.buffer) || fresh(p.buffer))
    ensures p.Done() == old(p.Done()) + PrintMembers(members, depth, fmt)
    decreases members, 0
  {
    hide PrintMember, PrintMembers;
    ghost var all := p.Done() + PrintMembers(members, depth, fmt);
    assert members[0..] == members;
    for i := 0 to |members|
      invariant p.Valid() && (p.buffer == old(p.buffer) || fresh(p.buffer))
      invariant Printable(Object(members[i..]))
      invariant p.Done() + PrintMembers(members[i..], depth, fmt) == all
    {
      ghost var before, more := p.Done(), PrintMembers(members[i + 1..], depth, fmt);
      MembersTail(members, i);
      MembersPieces(members[i..], depth, fmt);
      PutMember(p, members[i], depth, fmt);
      var end: Text := (if i + 1 < |members| then [COMMA] else []) + (if fmt then [NEWLINE] else []);
      p.Append(end, |end| + 1);
      Regroup(before, PrintMember(members[i], depth, fmt), end, more);
    }
    NoMoreMembers(depth, fmt);
    assert p.Done() + [] == p.Done();
  }

  lemma MembersTail(members: seq<Member>, i: nat)
    requires i < |members| && Printable(Object(members[i..]))
    ensures members[i..][0] == members[i] && members[i..][1..] == members[i + 1..] && Printable(members[i].value)
    ensures Printable(Object(members[i + 1..]))
  {
    var a := members[i..];
    assert a[1..] == members[i + 1..] && a[0] == members[i];
    assert forall k :: 0 <= k < |a[1..]| ==> Printable(a[1..][k].value);
  }

  lemma MembersPieces(members: seq<Member>, depth: nat, fmt: bool)
    requires members != [] && Printable(Object(members))
    ensures Printable(members[0].value) && Printable(Object(members[1..]))
    ensures var end := (if |members| == 1 then [] else [COMMA]) + (if fmt then [NEWLINE] else []);
      PrintMembers(members, depth, fmt) ==
        PrintMember(members[0], depth, fmt) + (end + PrintMembers(members[1..], depth, fmt))
  {
    hide PrintMember;
  }

  /** Indentation, name, colon and value of one member. */
  method PutMember(p: PrintBuffer, m: Member, depth: nat, fmt: bool)
    requires p.Valid() && Printable(m.value)
    modifies p, p.buffer
    ensures p.Valid() && (p.buffer == old(p.buffer) || fresh(p.buffer))
    ensures p.Done() == old(p.Done()) + PrintMember(m, depth, fmt)
    decreases m, 0
  {
    hide Print, PrintString, Tabs;
    ghost var before := p.Done();
    var indent: Text := if fmt then Tabs(depth) else [];
    var colon: Text := if fmt then [COLON, TAB] else [COLON];
    if fmt {
      p.Append(indent, depth);
    }
    assert p.Done() == before + indent;
    p.PutString(m.name);
    p.Update(PrintString(m.name));
    p.Append(colon, |colon|);
    PrintOne(p, m.value, depth, fmt);
    Flatten(before, indent, PrintString(m.name), colon, Print(m.value, depth, fmt));
  }

  lemma Flatten(a: seq<int>, b: seq<int>, c: seq<int>, d: seq<int>, e: seq<int>)
    ensures a + b + c + d + e == a + (b + c + d + e)
  {
  }

  /** `cJSON_PrintBuffered`: the buffer holds the same text that printing without one gives. */
  method PrintBuffered(v: Value, prebuffer: nat, fmt: bool) returns (out: array<int>)
    requires Printable(v)
    ensures Holds(out[..], 0, Print(v, 0, fmt))
  {
    var p := new PrintBuffer(prebuffer);
    PrintValue(p, v, 0, fmt);
    out := p.buffer;
  }

  /** A value, and the move past it. */
  method PrintOne(p: PrintBuffer, v: Value, depth: nat, fmt: bool)
    requires p.Valid() && Printable(v)
    modifies p, p.buffer
    ensures p.Valid() && (p.buffer == old(p.buffer) || fresh(p.buffer))
    ensures p.Done() == old(p.Done()) + Print(v, depth, fmt)
    decreases v, 3
  {
    hide Print, Printed;
    ghost var before, t := p.Done(), Print(v, depth, fmt);
    PrintValue(p, v, depth, fmt);
    PrintedWithin(p.buffer[..], before, p.offset, t);
    PrintedTail(p.buffer[..], before, p.offset, t);
    assert p.Done() == p.buffer[..][..p.offset];
    p.Update(t[p.offset - |before|..]);
  }

  lemma PrintedWithin(b: seq<int>, before: seq<int>, offset: nat, t: Text)
    requires Printed(b, before, offset, t)
    ensures |before| <= offset <= |before| + |t|
  {
  }

  /** An `int` has at most ten digits and a sign. */
  lemma IntSize(n: int)
    requires INT_MIN <= n <= INT_MAX
    ensures |PrintInt(n)| <= 20 && (n == 0 ==> |PrintInt(n)| == 1)
  {
    DecimalSize(if n < 0 then -n else n, 10, 10_000_000_000);
  }

  lemma {:induction false} DecimalSize(n: nat, k: nat, bound: nat)
    requires k > 0 && n < bound && bound == Power(k)
    ensures |Decimal(n)| <= k
  {
    if n >= 10 {
      assert k > 1;
      DecimalSize(n / 10, k - 1, Power(k - 1));
    }
  }

  function Power(k: nat): nat { if k == 0 then 1 else 10 * Power(k - 1) }

  lemma NothingEscaped(s: Text)
    ensures EscapedAll(s[..0]) == [] && EscapedAll(s) == EscapedAll(s[..0]) + EscapedAll(s[0..])
  {
    assert s[0..] == s;
  }

  /** Whether a character needs escaping, and the length of the escaped text. */
  method Measure(s: Text) returns (flag: bool, len: nat)
    ensures flag <==> exists i :: 0 <= i < |s| && Escaped(s[i]) != [s[i]]
    ensures len == |EscapedAll(s)|
  {
    flag, len := false, 0;
    assert s[0..] == s;
    for i := 0 to |s|
      invariant flag <==> exists k :: 0 <= k < i && Escaped(s[k]) != [s[k]]
      invariant len + |EscapedAll(s[i..])| == |EscapedAll(s)|
    {
      assert s[i..][1..] == s[i + 1..];
      if s[i] < 32 || s[i] == QUOTE || s[i] == BACKSLASH {
        flag := true;
      }
      len := len + 1;
      if Short(s[i]).Some? {
        len := len + 1;
      } else if s[i] < 32 {
        len := len + 5;
      }
    }
  }

  lemma {:induction false} PlainEscapes(s: Text)
    requires forall i :: 0 <= i < |s| ==> Escaped(s[i]) == [s[i]]
    ensures EscapedAll(s) == s
  {
    if s != [] {
      PlainEscapes(s[1..]);
      assert s == [s[0]] + s[1..];
    }
  }

  lemma {:induction false} EscapedConcat(a: Text, b: Text)
    ensures EscapedAll(a + b) == EscapedAll(a) + EscapedAll(b)
    decreases |a|
  {
    if a == [] {
      assert a + b == b;
    } else {
      assert (a + b)[1..] == a[1..] + b;
      EscapedConcat(a[1..], b);
    }
  }

  lemma EscapedNext(s: Text, i: nat)
    requires i < |s|
    ensures EscapedAll(s[..i + 1]) == EscapedAll(s[..i]) + Escaped(s[i])
    ensures EscapedAll(s) == EscapedAll(s[..i + 1]) + EscapedAll(s[i + 1..])
  {
    hide Escaped, EscapedAll;
    TakeNext(s, i);
    EscapedConcat(s[..i], [s[i]]);
    EscapedOne(s[i]);
    EscapedConcat(s[..i + 1], s[i + 1..]);
  }

  lemma TakeNext(s: Text, i: nat)
    requires i < |s|
    ensures s[..i] + [s[i]] == s[..i + 1] && s[..i + 1] + s[i + 1..] == s
  {
  }

  lemma EscapedOne(c: char8)
    ensures EscapedAll([c]) == Escaped(c)
  {
    hide Escaped;
    assert [c][1..] == [];
  }
}
