/**
  What printed text looks like, character by character: where blanks stand outside strings, and which.
  The layout is described for any text, without the printers.
*/
module JsonLayout {
  import opened Basics
  import opened Json
  import opened JsonRoundTrip
  import opened JsonMinify

  datatype Bracket = InArray | InObject

  predicate Inner(around: seq<Bracket>, b: Bracket) { around != [] && around[|around| - 1] == b }

  /** A line break and tabs. */
  function NewLine(tabs: int): Text { ['\n' as int] + seq(if tabs < 0 then 0 else tabs, _ => '\t' as int) }

  /**
    The blanks between two characters outside strings, within the given brackets. Compact text has none. Formatted text
    has a space after the comma of an array and a tab after a colon. Each member of an object stands on a line of its
    own, with a tab for every bracket around it; the closing bracket does too, with one tab less, or two if there are
    no members.
  */
  function Gap(prev: int, around: seq<Bracket>, next: int, fmt: bool): Text {
    var n := |around|;
    if !fmt then []
    else if prev == ',' as int then if Inner(around, InArray) then [' ' as int] else NewLine(n)
    else if prev == ':' as int then ['\t' as int]
    else if prev == '{' as int then NewLine(if next == '}' as int then n - 2 else n)
    else if next == '}' as int then NewLine(n - 1)
    else []
  }

  /** `s` follows the character `prev` and is laid out. */
  predicate After(s: Text, prev: int, around: seq<Bracket>, fmt: bool)
    decreases |s|, 1
  {
    var rest := Skip(s);
    SkipEnds(s);
    s[..|s| - |rest|] == Gap(prev, around, At(rest, 0), fmt) && From(rest, around, fmt)
  }

  /** `s` is laid out and does not begin with a blank; brackets are closed in turn, and at the end all are. */
  predicate From(s: Text, around: seq<Bracket>, fmt: bool)
    requires s != [] ==> s[0] > 32
    decreases |s|, 0
  {
    if s == [] then around == []
    else if s[0] == '"' as int then
      LiteralClosed(s[1..]) && After(Literal(s[1..]).1[1..], '"' as int, around, fmt)
    else if s[0] == '[' as int then After(s[1..], '[' as int, around + [InArray], fmt)
    else if s[0] == '{' as int then After(s[1..], '{' as int, around + [InObject], fmt)
    else if s[0] == ']' as int then
      Inner(around, InArray) && After(s[1..], ']' as int, around[..|around| - 1], fmt)
    else if s[0] == '}' as int then
      Inner(around, InObject) && After(s[1..], '}' as int, around[..|around| - 1], fmt)
    else After(s[1..], s[0], around, fmt)
  }

  lemma {:induction false} SkipEnds(s: Text)
    ensures Skip(s) == [] || Skip(s)[0] > 32
  {
    if s != [] && s[0] <= 32 {
      SkipEnds(s[1..]);
    }
  }

  /** The whole text. */
  predicate LaidOut(s: Text, fmt: bool) { (s != [] ==> s[0] > 32) && From(s, [], fmt) }

  // ----------------------------------------------------------------- one piece after another

  ghost predicate Visible(s: Text) { s != [] ==> s[0] > 32 }

  /** A gap and what stands behind it. */
  lemma GapThen(gap: Text, s: Text, prev: int, around: seq<Bracket>, fmt: bool)
    requires IsSpace(gap) && Visible(s) && gap == Gap(prev, around, At(s, 0), fmt) && From(s, around, fmt)
    ensures After(gap + s, prev, around, fmt)
  {
    hide From;
    SkipSpace(gap, s);
    assert (gap + s)[..|gap|] == gap;
  }

  lemma NoGap(s: Text, prev: int, around: seq<Bracket>, fmt: bool)
    requires Visible(s) && Gap(prev, around, At(s, 0), fmt) == [] && From(s, around, fmt)
    ensures After(s, prev, around, fmt)
  {
    hide From;
    GapThen([], s, prev, around, fmt);
    assert [] + s == s;
  }

  /** Characters after which the gap depends on the next one only. */
  predicate Quiet(c: int) { c != ',' as int && c != ':' as int && c != '{' as int }

  lemma QuietGap(s: Text, a: int, b: int, around: seq<Bracket>, fmt: bool)
    requires Quiet(a) && Quiet(b) && After(s, a, around, fmt)
    ensures After(s, b, around, fmt)
  {
    hide From;
  }

  /** Characters of numbers and words. */
  predicate InWord(c: int) { 48 <= c <= 57 || 97 <= c <= 122 || c == '-' as int }

  lemma {:induction false} WordLaid(a: Text, rest: Text, around: seq<Bracket>, fmt: bool)
    requires a != [] && (forall i :: 0 <= i < |a| ==> InWord(a[i])) && After(rest, '"' as int, around, fmt)
    ensures Visible(a + rest) && From(a + rest, around, fmt)
    decreases |a|
  {
    hide After;
    var s := a + rest;
    assert s[0] == a[0] && s[1..] == a[1..] + rest && InWord(a[0]);
    if |a| == 1 {
      assert s[1..] == rest;
      QuietGap(rest, '"' as int, a[0], around, fmt);
    } else {
      WordLaid(a[1..], rest, around, fmt);
      assert InWord(a[1]) && At(s[1..], 0) == a[1];
      NoGap(s[1..], a[0], around, fmt);
    }
  }

  lemma StringLaid(t: Text, rest: Text, around: seq<Bracket>, fmt: bool)
    requires After(rest, '"' as int, around, fmt)
    ensures Visible(PrintString(t) + rest) && From(PrintString(t) + rest, around, fmt)
  {
    hide After, Literal, LiteralClosed, EscapedAll;
    var close: Text := [QUOTE] + rest;
    StringLayout(t, rest);
    var s := PrintString(t) + rest;
    assert s[0] == QUOTE && s[1..] == EscapedAll(t) + close && close[1..] == rest;
    LiteralKept(t, close);
  }

  // ---------------------------------------------------------------------------------- trees

  lemma IntInWord(n: int)
    ensures PrintInt(n) != [] && forall i :: 0 <= i < |PrintInt(n)| ==> InWord(PrintInt(n)[i])
  {
    if n < 0 {
      DecimalIsDigits(-n);
    } else {
      DecimalIsDigits(n);
    }
  }

  /** The text of a value at depth `|around|`, whatever follows it. */
  lemma ValueLaid(v: Value, fmt: bool, around: seq<Bracket>, rest: Text)
    requires Printable(v) && After(rest, '"' as int, around, fmt)
    ensures var s := Print(v, |around|, fmt) + rest; Visible(s) && From(s, around, fmt)
    decreases v, 1
  {
    hide After, From, PrintString, PrintInt, PrintItems, PrintMembers;
    match v
    case Null => WordLaid(NULL_TEXT, rest, around, fmt);
    case False => WordLaid(FALSE_TEXT, rest, around, fmt);
    case True => WordLaid(TRUE_TEXT, rest, around, fmt);
    case Number(n) =>
      IntInWord(n.Floor);
      WordLaid(PrintInt(n.Floor), rest, around, fmt);
    case String(t) => StringLaid(t, rest, around, fmt);
    case Array(items) => ArrayLaid(items, fmt, around, rest);
    case Object(members) => ObjectLaid(members, fmt, around, rest);
  }

  lemma CloseLaid(c: char8, b: Bracket, rest: Text, around: seq<Bracket>, fmt: bool)
    requires c == if b == InArray then ']' as int else '}' as int
    requires After(rest, '"' as int, around, fmt)
    ensures From([c] + rest, around + [b], fmt)
  {
    hide After;
    assert (around + [b])[..|around|] == around && ([c] + rest)[1..] == rest;
    QuietGap(rest, '"' as int, c, around, fmt);
  }

  lemma OpenLaid(c: char8, b: Bracket, rest: Text, around: seq<Bracket>, fmt: bool)
    requires c == if b == InArray then '[' as int else '{' as int
    requires After(rest, c, around + [b], fmt)
    ensures From([c] + rest, around, fmt)
  {
    hide After;
    assert ([c] + rest)[1..] == rest;
  }

  lemma ArrayLaid(items: seq<Value>, fmt: bool, around: seq<Bracket>, rest: Text)
    requires Printable(Array(items)) && After(rest, '"' as int, around, fmt)
    ensures var s := Print(Array(items), |around|, fmt) + rest; Visible(s) && From(s, around, fmt)
    decreases items, 1
  {
    hide After, From, PrintItems;
    var inner := around + [InArray];
    var body, close := PrintItems(items, |inner|, fmt), [CLOSE_ARRAY] + rest;
    Enclosed([OPEN_ARRAY], body, [CLOSE_ARRAY], rest);
    CloseLaid(CLOSE_ARRAY, InArray, rest, around, fmt);
    if items == [] {
      EmptyItems(|inner|, fmt);
      assert body + close == close;
    } else {
      ItemsLaid(items, fmt, inner, close);
      ItemsStart(items, |inner|, fmt, close);
    }
    NoGap(body + close, OPEN_ARRAY, inner, fmt);
    OpenLaid(OPEN_ARRAY, InArray, body + close, around, fmt);
  }

  lemma ItemsLaid(items: seq<Value>, fmt: bool, around: seq<Bracket>, close: Text)
    requires items != [] && Printable(Array(items)) && Inner(around, InArray)
    requires At(close, 0) == CLOSE_ARRAY && From(close, around, fmt)
    ensures var s := PrintItems(items, |around|, fmt) + close; Visible(s) && From(s, around, fmt)
    decreases items, 0
  {
    hide After, From, Print;
    var d := |around|;
    if |items| == 1 {
      assert PrintItems(items, d, fmt) == Print(items[0], d, fmt);
      NoGap(close, '"' as int, around, fmt);
      ValueLaid(items[0], fmt, around, close);
    } else {
      var more := PrintItems(items[1..], d, fmt) + close;
      var gap: Text := if fmt then [SPACE] else [];
      ItemsLaid(items[1..], fmt, around, close);
      ItemsStart(items[1..], d, fmt, close);
      GapThen(gap, more, COMMA, around, fmt);
      var tail := [COMMA] + (gap + more);
      CommaLaid(gap + more, around, fmt);
      assert PrintItems(items, d, fmt) + close == Print(items[0], d, fmt) + tail;
      ValueLaid(items[0], fmt, around, tail);
    }
  }

  /** A comma or a colon stands right behind what it follows. */
  lemma MarkLaid(c: char8, s: Text, around: seq<Bracket>, fmt: bool)
    requires (c == ',' as int || c == ':' as int) && After(s, c, around, fmt)
    ensures After([c] + s, '"' as int, around, fmt)
  {
    hide After;
    assert ([c] + s)[1..] == s;
    NoGap([c] + s, '"' as int, around, fmt);
  }

  lemma CommaLaid(s: Text, around: seq<Bracket>, fmt: bool)
    requires After(s, ',' as int, around, fmt)
    ensures After([COMMA] + s, '"' as int, around, fmt)
  {
    hide After;
    MarkLaid(COMMA, s, around, fmt);
  }

  lemma LineIs(tabs: int)
    ensures [NEWLINE] + Tabs(tabs) == NewLine(tabs) && IsSpace(NewLine(tabs))
  {
  }

  lemma ObjectLaid(members: seq<Member>, fmt: bool, around: seq<Bracket>, rest: Text)
    requires Printable(Object(members)) && After(rest, '"' as int, around, fmt)
    ensures var s := Print(Object(members), |around|, fmt) + rest; Visible(s) && From(s, around, fmt)
    decreases members, 3
  {
    hide After, From, PrintMembers, Tabs;
    var inner, d := around + [InObject], |around|;
    CloseLaid(CLOSE_OBJECT, InObject, rest, around, fmt);
    var close := [CLOSE_OBJECT] + rest;
    if members == [] {
      var gap: Text := if fmt then [NEWLINE] + Tabs(d - 1) else [];
      LineIs(d - 1);
      GapThen(gap, close, OPEN_OBJECT, inner, fmt);
      OpenLaid(OPEN_OBJECT, InObject, gap + close, around, fmt);
      Enclosed([OPEN_OBJECT], gap, [CLOSE_OBJECT], rest);
    } else {
      var line: Text, indent: Text := (if fmt then [NEWLINE] else []), (if fmt then Tabs(d) else []);
      ObjectLayout(members, d, fmt, rest);
      MembersLaid(members, fmt, inner, close, OPEN_OBJECT);
      OpenLaid(OPEN_OBJECT, InObject, line + (PrintMembers(members, d + 1, fmt) + (indent + close)), around, fmt);
    }
  }

  lemma MembersLaid(members: seq<Member>, fmt: bool, around: seq<Bracket>, close: Text, prev: char8)
    requires members != [] && Printable(Object(members)) && Inner(around, InObject)
    requires At(close, 0) == CLOSE_OBJECT && From(close, around, fmt) && (prev == '{' as int || prev == ',' as int)
    ensures var line: Text, indent: Text := (if fmt then [NEWLINE] else []), (if fmt then Tabs(|around| - 1) else []);
      After(line + (PrintMembers(members, |around|, fmt) + (indent + close)), prev, around, fmt)
    decreases members, 2
  {
    hide After, From, PrintMembers, PrintMember, Tabs;
    var d := |around|;
    var line: Text, indent: Text := (if fmt then [NEWLINE] else []), (if fmt then Tabs(d - 1) else []);
    MembersLayout(members, d, fmt, indent + close);
    if |members| == 1 {
      NoMoreMembers(d, fmt);
      assert members[1..] == [];
      var tail := line + (indent + close);
      LineIs(d - 1);
      GapThen(line + indent, close, '"' as int, around, fmt);
      assert (line + indent) + close == tail;
      assert [] + (line + ([] + (indent + close))) == tail;
      MemberLaid(members[0], fmt, around, tail, prev);
    } else {
      var more := PrintMembers(members[1..], d, fmt) + (indent + close);
      MembersLaid(members[1..], fmt, around, close, COMMA);
      CommaLaid(line + more, around, fmt);
      MemberLaid(members[0], fmt, around, [COMMA] + (line + more), prev);
    }
  }

  /** A colon, a gap and a value. */
  lemma ColonLaid(v: Value, fmt: bool, around: seq<Bracket>, tail: Text)
    requires Printable(v) && After(tail, '"' as int, around, fmt)
    ensures var gap: Text := if fmt then [TAB] else [];
      After([COLON] + (gap + (Print(v, |around|, fmt) + tail)), '"' as int, around, fmt)
    decreases v, 2
  {
    hide After, From, Print;
    var value := Print(v, |around|, fmt) + tail;
    ValueLaid(v, fmt, around, tail);
    PrintStarts(v, |around|, fmt);
    StartOf(Print(v, |around|, fmt), tail);
    var gap: Text := if fmt then [TAB] else [];
    GapThen(gap, value, COLON, around, fmt);
    MarkLaid(COLON, gap + value, around, fmt);
  }

  /** A line of its own for a name. */
  lemma NameLaid(name: Text, fmt: bool, around: seq<Bracket>, after: Text, prev: char8)
    requires Inner(around, InObject) && After(after, '"' as int, around, fmt)
    requires prev == '{' as int || prev == ',' as int
    ensures var line: Text, indent: Text := (if fmt then [NEWLINE] else []), (if fmt then Tabs(|around|) else []);
      After((line + indent) + (PrintString(name) + after), prev, around, fmt)
  {
    hide After, From, PrintString, Tabs;
    StringLaid(name, after, around, fmt);
    QuoteFirst(name, after);
    LineIs(|around|);
    var line: Text, indent: Text := (if fmt then [NEWLINE] else []), (if fmt then Tabs(|around|) else []);
    GapThen(line + indent, PrintString(name) + after, prev, around, fmt);
  }

  lemma MemberParts(m: Member, depth: nat, fmt: bool, tail: Text)
    requires Printable(m.value)
    ensures var line: Text, indent: Text := (if fmt then [NEWLINE] else []), (if fmt then Tabs(depth) else []);
      var gap: Text, value := (if fmt then [TAB] else []), Print(m.value, depth, fmt) + tail;
      line + (PrintMember(m, depth, fmt) + tail) == (line + indent) + (PrintString(m.name) + ([COLON] + (gap + value)))
  {
    hide Print, PrintString, Tabs;
  }

  lemma MemberLaid(m: Member, fmt: bool, around: seq<Bracket>, tail: Text, prev: char8)
    requires Printable(m.value) && Inner(around, InObject) && After(tail, '"' as int, around, fmt)
    requires prev == '{' as int || prev == ',' as int
    ensures After((if fmt then [NEWLINE] else []) + (PrintMember(m, |around|, fmt) + tail), prev, around, fmt)
    decreases m, 0
  {
    hide After, From, Print, PrintString, PrintMember, Tabs;
    var gap: Text := if fmt then [TAB] else [];
    ColonLaid(m.value, fmt, around, tail);
    NameLaid(m.name, fmt, around, [COLON] + (gap + (Print(m.value, |around|, fmt) + tail)), prev);
    MemberParts(m, |around|, fmt, tail);
  }

  /** Printed text is laid out, formatted or compact. */
  lemma PrintLaidOut(v: Value, fmt: bool)
    requires Printable(v)
    ensures LaidOut(Print(v, 0, fmt), fmt)
  {
    hide From, Print;
    NothingFollows(fmt);
    ValueLaid(v, fmt, [], []);
    assert Print(v, 0, fmt) + [] == Print(v, 0, fmt);
  }

  lemma NothingFollows(fmt: bool)
    ensures After([], '"' as int, [], fmt)
  {
  }

  // -------------------------------------------------------------------------------- strings

  /** The characters with an escape of two characters, and its letter. */
  const SHORTS: seq<(int, char)> :=
    [(34, '"'), (92, '\\'), (8, 'b'), (12, 'f'), (10, 'n'), (13, 'r'), (9, 't')]

  /** How each character of a string is printed: by itself, with a letter, or with two hexadecimal digits. */
  lemma EscapesAre(c: char8)
    ensures c >= 32 && c != '"' as int && c != '\\' as int ==> Escaped(c) == [c]
    ensures forall i :: 0 <= i < |SHORTS| && c == SHORTS[i].0 ==> Escaped(c) == ['\\' as int, SHORTS[i].1 as int]
    ensures c < 32 && (forall i :: 0 <= i < |SHORTS| ==> c != SHORTS[i].0) ==>
      Escaped(c) == ['\\' as int, 'u' as int, '0' as int, '0' as int, Letter(c / 16, false), Letter(c % 16, false)]
  {
    AlphabetIs();
    assert SHORTS[2].0 == 8 && SHORTS[3].0 == 12 && SHORTS[4].0 == 10 && SHORTS[5].0 == 13 && SHORTS[6].0 == 9;
  }
}
