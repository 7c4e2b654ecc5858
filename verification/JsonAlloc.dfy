/**
  The allocating printers: each level measures its pieces, allocates once, and
  never writes past the length it computed.
*/
module JsonAlloc {
  import opened Json
  import opened JsonBuffer

  /** The text of a C string. */
  method ReadText(a: array<int>, ghost t: Text) returns (s: Text)
    requires Holds(a[..], 0, t)
    ensures s == t
  {
    s := [];
    ghost var seen := a[..][0..|t|];
    assert forall k :: 0 <= k < |t| ==> seen[k] == a[k];
    while a[|s|] != 0
      invariant |s| <= |t| && s == t[..|s|]
      decreases |t| - |s|
    {
      s := s + [a[|s|]];
    }
  }

  method AllocText(t: Text, size: nat) returns (out: array<int>)
    requires |t| < size
    ensures fresh(out) && Holds(out[..], 0, t)
  {
    out := new int[size];
    Write(out, 0, t);
    out[|t|] := 0;
    assert out[..][0..|t|] == out[0..|t|];
  }

  // ------------------------------------------------------------------------- the arrays

  /** The pieces with commas between them. */
  function Joined(entries: seq<Text>, fmt: bool): Text {
    if entries == [] then [] else entries[0] + ((if |entries| == 1 then [] else Comma(fmt)) + Joined(entries[1..], fmt))
  }

  /** Bytes that the array printer counts for its pieces. */
  function ArrayLength(entries: seq<Text>, fmt: bool): nat {
    if entries == [] then 0 else |entries[0]| + 2 + (if fmt then 1 else 0) + ArrayLength(entries[1..], fmt)
  }

  lemma {:induction false} JoinedFits(entries: seq<Text>, fmt: bool)
    ensures |Joined(entries, fmt)| <= ArrayLength(entries, fmt)
  {
    if entries != [] {
      JoinedFits(entries[1..], fmt);
    }
  }

  method Measure(entries: seq<Text>, fmt: bool) returns (len: nat)
    ensures len == 5 + ArrayLength(entries, fmt)
  {
    len := 5;
    assert entries[0..] == entries;
    for i := 0 to |entries|
      invariant len + ArrayLength(entries[i..], fmt) == 5 + ArrayLength(entries, fmt)
    {
      assert entries[i..][1..] == entries[i + 1..];
      len := len + |entries[i]| + 2 + if fmt then 1 else 0;
    }
  }

  /** The composing part of `print_array`. */
  method ComposeArray(entries: seq<Text>, fmt: bool) returns (out: array<int>)
    ensures fresh(out) && Holds(out[..], 0, [OPEN_ARRAY] + Joined(entries, fmt) + [CLOSE_ARRAY])
  {
    var len := Measure(entries, fmt);
    JoinedFits(entries, fmt);
    out := new int[len];
    ghost var none: Text := [];
    WriteAfter(out, 0, none, 0, [OPEN_ARRAY]);
    var k := 1;
    ghost var done: Text := [OPEN_ARRAY];
    assert entries[0..] == entries;
    for i := 0 to |entries|
      invariant k == |done| && k <= out.Length && out[0..0 + k] == done
      invariant done + Joined(entries[i..], fmt) == [OPEN_ARRAY] + Joined(entries, fmt)
    {
      ghost var was, more := done, Joined(entries[i + 1..], fmt);
      assert entries[i..][1..] == entries[i + 1..];
      var sep: Text := if i != |entries| - 1 then Comma(fmt) else [];
      assert |was| + |entries[i]| + |sep| + |more| == 1 + |Joined(entries, fmt)|;
      WriteAfter(out, 0, done, k, entries[i]);
      k, done := k + |entries[i]|, done + entries[i];
      WriteAfter(out, 0, done, k, sep);
      k, done := k + |sep|, done + sep;
      Regroup(was, entries[i], sep, more);
    }
    assert done + [] == done;
    WriteAfter(out, 0, done, k, [CLOSE_ARRAY]);
    out[k + 1] := 0;
    assert out[..][0..k + 1] == out[0..0 + k + 1];
  }

  // ------------------------------------------------------------------------ the objects

  /** One printed member. */
  function Line(name: Text, entry: Text, depth: nat, fmt: bool): Text {
    (if fmt then Tabs(depth) else []) + name + (if fmt then [COLON, TAB] else [COLON]) + entry
  }

  function Lines(names: seq<Text>, entries: seq<Text>, depth: nat, fmt: bool): Text
    requires |names| == |entries|
  {
    if names == [] then []
    else
      var comma, line := if |names| == 1 then [] else [COMMA], if fmt then [NEWLINE] else [];
      Line(names[0], entries[0], depth, fmt) + (comma + line + Lines(names[1..], entries[1..], depth, fmt))
  }

  function ObjectLength(names: seq<Text>, entries: seq<Text>, depth: nat, fmt: bool): nat
    requires |names| == |entries|
  {
    if names == [] then 0
    else |entries[0]| + |names[0]| + 2 + (if fmt then 2 + depth else 0) + ObjectLength(names[1..], entries[1..], depth,
      fmt)
  }

  lemma {:induction false} LinesFit(names: seq<Text>, entries: seq<Text>, depth: nat, fmt: bool)
    requires |names| == |entries|
    ensures |Lines(names, entries, depth, fmt)| <= ObjectLength(names, entries, depth, fmt)
  {
    if names != [] {
      LinesFit(names[1..], entries[1..], depth, fmt);
    }
  }

  method MeasureObject(names: seq<Text>, entries: seq<Text>, depth: nat, fmt: bool) returns (len: nat)
    requires |names| == |entries|
    ensures len == 7 + (if fmt then depth else 0) + ObjectLength(names, entries, depth, fmt)
  {
    len := 7 + if fmt then depth else 0;
    assert names[0..] == names && entries[0..] == entries;
    for i := 0 to |names|
      invariant len + ObjectLength(names[i..], entries[i..], depth, fmt) ==
        7 + (if fmt then depth else 0) + ObjectLength(names, entries, depth, fmt)
    {
      assert names[i..][1..] == names[i + 1..] && entries[i..][1..] == entries[i + 1..];
      len := len + |entries[i]| + |names[i]| + 2 + if fmt then 2 + depth else 0;
    }
  }

  /** The composing part of `print_object`; `depth` is that of the members. */
  method ComposeObject(names: seq<Text>, entries: seq<Text>, depth: nat, fmt: bool) returns (out: array<int>)
    requires |names| == |entries| && depth > 0
    ensures fresh(out)
    ensures Holds(out[..], 0, Opening(fmt) + Lines(names, entries, depth, fmt) + Closing(depth, fmt))
  {
    hide Lines, Line, Tabs, ObjectLength;
    var len := MeasureObject(names, entries, depth, fmt);
    LinesFit(names, entries, depth, fmt);
    out := new int[len];
    ghost var none: Text := [];
    WriteAfter(out, 0, none, 0, Opening(fmt));
    var k := |Opening(fmt)|;
    ghost var done, all := Opening(fmt), Opening(fmt) + Lines(names, entries, depth, fmt);
    assert names[0..] == names && entries[0..] == entries;
    for i := 0 to |names|
      invariant k == |done| && k <= out.Length && out[0..0 + k] == done
      invariant done + Lines(names[i..], entries[i..], depth, fmt) == all
    {
      ghost var was, more := done, Lines(names[i + 1..], entries[i + 1..], depth, fmt);
      var line := Line(names[i], entries[i], depth, fmt);
      var end: Text := (if i != |names| - 1 then [COMMA] else []) + (if fmt then [NEWLINE] else []);
      LinesNext(names, entries, i, depth, fmt);
      Regroup(was, line, end, more);
      WriteAfter(out, 0, done, k, line);
      k, done := k + |line|, done + line;
      WriteAfter(out, 0, done, k, end);
      k, done := k + |end|, done + end;
    }
    NoLines(depth, fmt);
    assert done + [] == done;
    var close := Closing(depth, fmt);
    WriteAfter(out, 0, done, k, close);
    out[k + |close|] := 0;
    assert out[..][0..k + |close|] == out[0..0 + k + |close|];
  }

  lemma LinesNext(names: seq<Text>, entries: seq<Text>, i: nat, depth: nat, fmt: bool)
    requires |names| == |entries| && i < |names|
    ensures var end: Text := (if i != |names| - 1 then [COMMA] else []) + (if fmt then [NEWLINE] else []);
      Lines(names[i..], entries[i..], depth, fmt) ==
        Line(names[i], entries[i], depth, fmt) + (end + Lines(names[i + 1..], entries[i + 1..], depth, fmt))
  {
    hide Line;
    assert names[i..][1..] == names[i + 1..] && entries[i..][1..] == entries[i + 1..];
  }

  lemma NoLines(depth: nat, fmt: bool)
    ensures Lines([], [], depth, fmt) == []
  {
  }

  function Opening(fmt: bool): Text { if fmt then [OPEN_OBJECT, NEWLINE] else [OPEN_OBJECT] }

  function Closing(depth: nat, fmt: bool): Text { (if fmt then Tabs(depth - 1) else []) + [CLOSE_OBJECT] }

  // ------------------------------------------------------------------------- the values

  /** The printed pieces of an array. */
  ghost predicate Pieces(entries: seq<Text>, items: seq<Value>, depth: nat, fmt: bool) {
    |entries| <= |items| && forall i :: 0 <= i < |entries| ==>
      Printable(items[i]) && entries[i] == Print(items[i], depth, fmt)
  }

  lemma {:induction false} JoinedIsItems(entries: seq<Text>, items: seq<Value>, depth: nat, fmt: bool)
    requires |entries| == |items| && Pieces(entries, items, depth, fmt)
    ensures Printable(Array(items)) && Joined(entries, fmt) == PrintItems(items, depth, fmt)
  {
    hide Print;
    if items != [] {
      JoinedIsItems(entries[1..], items[1..], depth, fmt);
      ItemsLayout(items, depth, fmt);
    }
  }

  ghost predicate MemberPieces(names: seq<Text>, entries: seq<Text>, members: seq<Member>, depth: nat, fmt: bool) {
    && |names| == |entries| <= |members|
    && forall i :: 0 <= i < |entries| ==>
         Printable(members[i].value) && names[i] == PrintString(members[i].name) &&
           entries[i] == Print(members[i].value, depth, fmt)
  }

  lemma {:induction false} LinesAreMembers(names: seq<Text>, entries: seq<Text>, members: seq<Member>, depth: nat,
      fmt: bool)
    requires |entries| == |members| && MemberPieces(names, entries, members, depth, fmt)
    ensures Printable(Object(members)) && Lines(names, entries, depth, fmt) == PrintMembers(members, depth, fmt)
  {
    hide Print, PrintString;
    if members != [] {
      LinesAreMembers(names[1..], entries[1..], members[1..], depth, fmt);
      AllPrintable(names, entries, members, depth, fmt);
      MembersPieces(members, depth, fmt);
    }
  }

  lemma AllPrintable(names: seq<Text>, entries: seq<Text>, members: seq<Member>, depth: nat, fmt: bool)
    requires |entries| == |members| && MemberPieces(names, entries, members, depth, fmt)
    ensures Printable(Object(members))
  {
  }

  /** `print_value` without a buffer. */
  method PrintAlloc(v: Value, depth: nat, fmt: bool) returns (out: array<int>)
    requires Printable(v)
    ensures fresh(out) && Holds(out[..], 0, Print(v, depth, fmt))
    decreases v, 1
  {
    hide PrintString, PrintInt, PrintItems, PrintMembers, Holds, Tabs;
    match v
    case Null => out := AllocText(NULL_TEXT, 5);
    case False => out := AllocText(FALSE_TEXT, 6);
    case True => out := AllocText(TRUE_TEXT, 5);
    case Number(n) =>
      IntSize(n.Floor);
      out := AllocText(PrintInt(n.Floor), if n == 0.0 then 2 else 21);
    case String(s) => out := AllocString(s);
    case Array(items) =>
      var entries := PrintAll(items, depth + 1, fmt);
      out := ComposeArray(entries, fmt);
      JoinedIsItems(entries, items, depth + 1, fmt);
    case Object(members) =>
      if members == [] {
        var t := [OPEN_OBJECT] + (if fmt then [NEWLINE] + Tabs(depth - 1) else []) + [CLOSE_OBJECT];
        out := AllocText(t, if fmt then depth + 4 else 3);
      } else {
        var names, entries := PrintAllMembers(members, depth + 1, fmt);
        out := ComposeObject(names, entries, depth + 1, fmt);
        LinesAreMembers(names, entries, members, depth + 1, fmt);
        SameObject(members, depth, fmt);
      }
  }

  lemma SameObject(members: seq<Member>, depth: nat, fmt: bool)
    requires members != [] && Printable(Object(members))
    ensures Print(Object(members), depth, fmt) ==
      Opening(fmt) + PrintMembers(members, depth + 1, fmt) + Closing(depth + 1, fmt)
  {
    hide PrintMembers;
  }

  /** `print_string_ptr` without a buffer. */
  method AllocString(s: Text) returns (out: array<int>)
    ensures fresh(out) && Holds(out[..], 0, PrintString(s))
  {
    hide Escaped, EscapedAll;
    var flag, len := JsonBuffer.Measure(s);
    if !flag {
      PlainEscapes(s);
      out := AllocText([QUOTE] + s + [QUOTE], |s| + 3);
    } else {
      var p := new PrintBuffer(len + 3);
      p.PutEscaped(s, len);
      out := p.buffer;
    }
  }

  method PrintAll(items: seq<Value>, depth: nat, fmt: bool) returns (entries: seq<Text>)
    requires Printable(Array(items))
    ensures |entries| == |items| && Pieces(entries, items, depth, fmt)
    decreases items, 0
  {
    hide Print, Holds;
    entries := [];
    for i := 0 to |items|
      invariant |entries| == i && Pieces(entries, items, depth, fmt)
    {
      var a := PrintAlloc(items[i], depth, fmt);
      var t := ReadText(a, Print(items[i], depth, fmt));
      entries := entries + [t];
    }
  }

  method PrintAllMembers(members: seq<Member>, depth: nat, fmt: bool) returns (names: seq<Text>, entries: seq<Text>)
    requires Printable(Object(members))
    ensures |entries| == |members| && MemberPieces(names, entries, members, depth, fmt)
    decreases members, 0
  {
    hide Print, PrintString, Holds;
    names, entries := [], [];
    for i := 0 to |members|
      invariant |entries| == i && MemberPieces(names, entries, members, depth, fmt)
    {
      var a := AllocString(members[i].name);
      var name := ReadText(a, PrintString(members[i].name));
      var b := PrintAlloc(members[i].value, depth, fmt);
      var entry := ReadText(b, Print(members[i].value, depth, fmt));
      names, entries := names + [name], entries + [entry];
    }
  }
}
