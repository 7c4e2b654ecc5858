/**
  Parsing the printed text of a tree gives the tree back, formatted or compact, and
  stays within the text and its buffers.
*/
module JsonRoundTrip {
  import opened Basics
  import opened Json
  import opened JsonSafe

  // ----------------------------------------------------------------------------- numbers

  ghost predicate AllDigits(s: Text) { forall i :: 0 <= i < |s| ==> IsDigit(s[i]) }

  /** Reading digits is reading them one block after the other. */
  lemma {:induction false} DigitsConcat(acc: nat, a: Text, b: Text)
    requires AllDigits(a)
    ensures Digits(acc, a + b) == Digits(Digits(acc, a).0, b)
    decreases |a|
  {
    if a == [] {
      assert a + b == b;
    } else {
      assert (a + b)[1..] == a[1..] + b;
      DigitsConcat(acc * 10 + (a[0] - ZERO), a[1..], b);
    }
  }

  lemma {:induction false} DecimalIsDigits(n: nat)
    ensures AllDigits(Decimal(n)) && (n > 0 ==> Decimal(n)[0] > ZERO)
  {
    if n >= 10 {
      DecimalIsDigits(n / 10);
    }
  }

  lemma {:induction false} DecimalValue(n: nat)
    ensures Digits(0, Decimal(n)) == (n, [])
  {
    if n < 10 {
      assert [ZERO + n][1..] == [];
    } else {
      DecimalValue(n / 10);
      DecimalIsDigits(n / 10);
      var d: Text := [ZERO + n % 10];
      DigitsConcat(0, Decimal(n / 10), d);
      assert d[1..] == [];
    }
  }

  /** What may follow a number. */
  predicate EndsNumber(rest: Text) {
    !IsDigit(At(rest, 0)) && At(rest, 0) != DOT && At(rest, 0) != 101 && At(rest, 0) != 69
  }

  lemma DecimalParses(n: nat, rest: Text)
    requires n > 0 && EndsNumber(rest)
    ensures Digits(0, Decimal(n) + rest) == (n, rest)
    ensures IsDigit(At(Decimal(n) + rest, 0)) && At(Decimal(n) + rest, 0) > ZERO
  {
    DecimalIsDigits(n);
    DecimalValue(n);
    DigitsConcat(0, Decimal(n), rest);
  }

  lemma NumberRoundTrip(n: real, rest: Text)
    requires IsInt(n) && EndsNumber(rest)
    ensures var s := PrintInt(n.Floor) + rest;
      && s != [] && (s[0] == MINUS || IsDigit(s[0]))
      && ParseNumber(s) == (Number(n), rest)
  {
    var k := n.Floor;
    var s := PrintInt(k) + rest;
    if k == 0 {
      assert s == [ZERO] + rest;
      assert s[1..] == rest;
    } else if k > 0 {
      DecimalParses(k, rest);
    } else {
      DecimalParses(-k, rest);
      assert s == [MINUS] + (Decimal(-k) + rest);
      assert s[1..] == Decimal(-k) + rest;
    }
  }

  // ----------------------------------------------------------------------------- strings

  lemma HexRoundTrip(d: nat)
    requires d < 16
    ensures HexDigit(HexChar(d)) == d
  {
  }

  /** An escaped character reads back as itself. */
  lemma EscapeRoundTrip(c: char8, rest: Text)
    requires Escaped(c)[0] == BACKSLASH
    ensures var s := Escaped(c)[1..] + rest;
      Escape(s) == ([c], |Escaped(c)| - 1)
  {
    var s := Escaped(c)[1..] + rest;
    if Short(c).None? {
      HexRoundTrip(c / 16);
      HexRoundTrip(c % 16);
      assert Tail(s, 1)[0] == ZERO && Tail(s, 1)[1] == ZERO && Tail(s, 1)[2] == HexChar(c / 16) &&
        Tail(s, 1)[3] == HexChar(c % 16);
      assert Hex4(Tail(s, 1)) == c;
    }
  }

  /** One printed character of a string. */
  lemma CharRoundTrip(c: char8, more: Text)
    ensures ParseChars(Escaped(c) + more) == ([c] + ParseChars(more).0, ParseChars(more).1)
  {
    hide Escape;
    var e := Escaped(c);
    var s := e + more;
    if e[0] == BACKSLASH {
      EscapeRoundTrip(c, more);
      assert s[1..] == e[1..] + more;
      assert Tail(s, |e|) == more;
    } else {
      assert s[1..] == more;
    }
  }

  lemma QuoteEnds(rest: Text)
    requires rest != [] && rest[0] == QUOTE
    ensures ParseChars(rest) == ([], rest)
  {
  }

  lemma {:induction false} CharsRoundTrip(t: Text, rest: Text)
    requires rest != [] && rest[0] == QUOTE
    ensures ParseChars(EscapedAll(t) + rest) == (t, rest)
  {
    hide ParseChars, Escaped;
    if t == [] {
      QuoteEnds(rest);
      assert EscapedAll(t) + rest == rest;
    } else {
      CharsRoundTrip(t[1..], rest);
      CharRoundTrip(t[0], EscapedAll(t[1..]) + rest);
      assert EscapedAll(t) + rest == Escaped(t[0]) + (EscapedAll(t[1..]) + rest);
      assert [t[0]] + t[1..] == t;
    }
  }

  /** Both passes over a printed character stay in it. */
  lemma CharStays(c: char8, more: Text, len: nat)
    requires Content(more, len) && Stays(more)
    ensures Stays(Escaped(c) + more) && exists k :: Content(Escaped(c) + more, k)
  {
    hide Escape;
    var e := Escaped(c);
    var s := e + more;
    if e[0] == BACKSLASH {
      EscapeRoundTrip(c, more);
      assert s[1..] == e[1..] + more && s[|e|..] == more;
      if |e| == 2 {
        assert Content(s, len + 1);
      } else {
        FourPlain(s[2..], len);
        assert Content(s, len + 5);
      }
    } else {
      assert s[1..] == more;
      assert Content(s, len + 1);
    }
  }

  lemma FourPlain(s: Text, len: nat)
    requires |s| >= 4 && Content(s[4..], len) && forall i :: 0 <= i < 4 ==> s[i] != QUOTE && s[i] != BACKSLASH
    ensures Content(s, len + 4)
  {
    assert s[1..][1..] == s[2..] && s[2..][1..] == s[3..] && s[3..][1..] == s[4..];
    assert Content(s[3..], len + 1) && Content(s[2..], len + 2);
  }

  lemma {:induction false} CharsStay(t: Text) returns (len: nat)
    ensures Content(EscapedAll(t), len) && Stays(EscapedAll(t))
  {
    if t == [] {
      len := 0;
    } else {
      hide Stays, Measured, Escaped;
      var k := CharsStay(t[1..]);
      CharStays(t[0], EscapedAll(t[1..]), k);
      len :| Content(Escaped(t[0]) + EscapedAll(t[1..]), len);
    }
  }

  lemma Nested(q: Text, e: Text, rest: Text)
    ensures (q + e + q) + rest == q + (e + (q + rest))
  {
  }

  /** The text of a string, taken apart. */
  lemma StringLayout(t: Text, rest: Text)
    ensures PrintString(t) + rest == [QUOTE] + (EscapedAll(t) + ([QUOTE] + rest))
  {
    hide EscapedAll;
    Nested([QUOTE], EscapedAll(t), rest);
  }

  lemma StringRoundTrip(t: Text, rest: Text)
    ensures ParseString(PrintString(t) + rest) == Some((t, rest)) && SafeString(PrintString(t) + rest)
  {
    hide EscapedAll, ParseChars, PrintString, StringSafe, Stays, Measured;
    var close: Text := [QUOTE] + rest;
    CharsRoundTrip(t, close);
    StringLayout(t, rest);
    Behind(QUOTE, EscapedAll(t) + close);
    var len := CharsStay(t);
    SafeIff(EscapedAll(t), len);
    assert EscapedAll(t) + close == EscapedAll(t) + [QUOTE] + rest;
    Behind(QUOTE, rest);
  }

  lemma Behind(c: char8, s: Text)
    ensures ([c] + s)[1..] == s && ([c] + s)[0] == c
  {
  }

  // -------------------------------------------------------------------------- white space

  ghost predicate IsSpace(s: Text) { forall i :: 0 <= i < |s| ==> s[i] <= 32 }

  lemma {:induction false} SkipSpace(a: Text, b: Text)
    requires IsSpace(a)
    ensures Skip(a + b) == Skip(b)
  {
    if a == [] {
      assert a + b == b;
    } else {
      assert (a + b)[1..] == a[1..] + b;
      SkipSpace(a[1..], b);
    }
  }

  /** A printed value starts with a visible character that is not a closing bracket. */
  lemma PrintStarts(v: Value, depth: nat, fmt: bool)
    requires Printable(v)
    ensures var s := Print(v, depth, fmt);
      s != [] && s[0] > 32 && s[0] != CLOSE_ARRAY && s[0] != CLOSE_OBJECT && s[0] != COMMA
  {
    if v.Number? && v.n.Floor >= 0 {
      DecimalIsDigits(v.n.Floor);
    }
  }

  lemma StartOf(a: Text, b: Text)
    requires a != []
    ensures At(a + b, 0) == a[0]
  {
  }

  // -------------------------------------------------------------------------------- trees

  /** What may follow a printed value. */
  predicate Follows(v: Value, rest: Text) { v.Number? ==> EndsNumber(rest) }

  /** The leading word of a literal. */
  lemma WordStarts(word: Text, rest: Text)
    ensures StartsWith(word + rest, word) && (word + rest)[|word|..] == rest
  {
  }

  lemma NotAWord(s: Text)
    requires At(s, 0) != NULL_TEXT[0] && At(s, 0) != FALSE_TEXT[0] && At(s, 0) != TRUE_TEXT[0]
    ensures !StartsWith(s, NULL_TEXT) && !StartsWith(s, FALSE_TEXT) && !StartsWith(s, TRUE_TEXT)
  {
    assert |s| >= 4 ==> s[..4][0] == s[0];
    assert |s| >= 5 ==> s[..5][0] == s[0];
  }

  lemma OtherWord(a: Text, b: Text, rest: Text)
    requires a != [] && b != [] && a[0] != b[0]
    ensures !StartsWith(a + rest, b)
  {
    var s := a + rest;
    assert |b| <= |s| ==> s[..|b|][0] == s[0] == a[0];
  }

  lemma LeafRoundTrip(v: Value, depth: nat, fmt: bool, rest: Text)
    requires Printable(v) && !v.Array? && !v.Object? && Follows(v, rest)
    ensures ParseValue(Print(v, depth, fmt) + rest) == Some((v, rest)) && SafeValue(Print(v, depth, fmt) + rest)
  {
    hide ParseNumber, ParseString, PrintString, PrintInt, StringSafe, SafeArray, SafeObject;
    var s := Print(v, depth, fmt) + rest;
    match v
    case Null => WordStarts(NULL_TEXT, rest);
    case False =>
      WordStarts(FALSE_TEXT, rest);
      OtherWord(FALSE_TEXT, NULL_TEXT, rest);
    case True =>
      WordStarts(TRUE_TEXT, rest);
      OtherWord(TRUE_TEXT, NULL_TEXT, rest);
      OtherWord(TRUE_TEXT, FALSE_TEXT, rest);
    case Number(n) =>
      NumberRoundTrip(n, rest);
      NotAWord(s);
    case String(t) =>
      StringRoundTrip(t, rest);
      QuoteFirst(t, rest);
      NotAWord(s);
  }

  lemma QuoteFirst(t: Text, rest: Text)
    ensures At(PrintString(t) + rest, 0) == QUOTE
  {
  }

  lemma ValueRoundTrip(v: Value, depth: nat, fmt: bool, rest: Text)
    requires Printable(v) && Follows(v, rest)
    ensures ParseValue(Print(v, depth, fmt) + rest) == Some((v, rest)) && SafeValue(Print(v, depth, fmt) + rest)
    decreases v, 1
  {
    hide ParseValue, SafeValue, Print;
    match v
    case Array(items) => ArrayRoundTrip(items, depth, fmt, rest);
    case Object(members) => ObjectRoundTrip(members, depth, fmt, rest);
    case _ => LeafRoundTrip(v, depth, fmt, rest);
  }

  lemma ArrayRoundTrip(items: seq<Value>, depth: nat, fmt: bool, rest: Text)
    requires Printable(Array(items))
    ensures ParseValue(Print(Array(items), depth, fmt) + rest) == Some((Array(items), rest))
    ensures SafeValue(Print(Array(items), depth, fmt) + rest)
    decreases items, 1
  {
    hide ParseNumber, ParseString, ParseItems, PrintItems, StringSafe, SafeItems;
    var body, close := PrintItems(items, depth + 1, fmt), [CLOSE_ARRAY] + rest;
    var s := Print(Array(items), depth, fmt) + rest;
    assert s == [OPEN_ARRAY] + (body + close);
    assert s[1..] == body + close && close[1..] == rest;
    NotAWord(s);
    if items == [] {
      EmptyItems(depth + 1, fmt);
      assert body + close == close;
    } else {
      ItemsStart(items, depth + 1, fmt, close);
      ItemsRoundTrip(items, depth + 1, fmt, close);
    }
  }

  lemma EmptyItems(depth: nat, fmt: bool)
    ensures PrintItems([], depth, fmt) == []
  {
  }

  lemma ItemsStart(items: seq<Value>, depth: nat, fmt: bool, rest: Text)
    requires items != [] && Printable(Array(items))
    ensures var s := PrintItems(items, depth, fmt) + rest;
      At(s, 0) > 32 && At(s, 0) != CLOSE_ARRAY && At(s, 0) != CLOSE_OBJECT
  {
    PrintStarts(items[0], depth, fmt);
  }

  lemma ItemsRoundTrip(items: seq<Value>, depth: nat, fmt: bool, close: Text)
    requires items != [] && Printable(Array(items)) && At(close, 0) == CLOSE_ARRAY
    ensures ParseItems(PrintItems(items, depth, fmt) + close) == Some((items, close))
    ensures SafeItems(PrintItems(items, depth, fmt) + close)
    decreases items, 0
  {
    hide ParseValue, ParseItems, Print, SafeValue, SafeItems;
    var first := Print(items[0], depth, fmt);
    PrintStarts(items[0], depth, fmt);
    if |items| == 1 {
      assert PrintItems(items, depth, fmt) == first;
      ValueRoundTrip(items[0], depth, fmt, close);
      OneItem(first, items[0], close);
      assert items == [items[0]];
    } else {
      var more := PrintItems(items[1..], depth, fmt) + close;
      var tail := Comma(fmt) + more;
      assert PrintItems(items, depth, fmt) + close == first + tail;
      assert tail[0] == COMMA;
      ValueRoundTrip(items[0], depth, fmt, tail);
      ItemsRoundTrip(items[1..], depth, fmt, close);
      ItemsStart(items[1..], depth, fmt, close);
      if fmt {
        assert tail[1..] == [SPACE] + more;
        SpaceBeforeItems([SPACE], more);
      } else {
        assert tail[1..] == more;
      }
      MoreItems(first, items[0], tail, items[1..], close);
      assert items == [items[0]] + items[1..];
    }
  }

  lemma OneItem(first: Text, item: Value, close: Text)
    requires first != [] && first[0] > 32 && At(close, 0) == CLOSE_ARRAY
    requires ParseValue(first + close) == Some((item, close)) && SafeValue(first + close)
    ensures ParseItems(first + close) == Some(([item], close)) && SafeItems(first + close)
  {
    hide ParseValue, SafeValue;
    StartOf(first, close);
  }

  lemma MoreItems(first: Text, item: Value, tail: Text, items: seq<Value>, close: Text)
    requires first != [] && first[0] > 32 && tail != [] && tail[0] == COMMA
    requires ParseValue(first + tail) == Some((item, tail)) && SafeValue(first + tail)
    requires ParseItems(tail[1..]) == Some((items, close)) && SafeItems(tail[1..])
    ensures ParseItems(first + tail) == Some(([item] + items, close)) && SafeItems(first + tail)
  {
    hide ParseValue, SafeValue;
    StartOf(first, tail);
  }

  lemma SpaceBeforeItems(space: Text, s: Text)
    requires IsSpace(space)
    ensures ParseItems(space + s) == ParseItems(s) && SafeItems(space + s) == SafeItems(s)
  {
    hide ParseValue, SafeValue;
    SkipSpace(space, s);
  }

  // ------------------------------------------------------------------------------ objects

  lemma ObjectRoundTrip(members: seq<Member>, depth: nat, fmt: bool, rest: Text)
    requires Printable(Object(members))
    ensures ParseValue(Print(Object(members), depth, fmt) + rest) == Some((Object(members), rest))
    ensures SafeValue(Print(Object(members), depth, fmt) + rest)
    decreases members, 3
  {
    hide ParseObject, Print, StringSafe, SafeObject;
    var s := Print(Object(members), depth, fmt) + rest;
    ObjectStarts(members, depth, fmt, rest);
    NotAWord(s);
    if members == [] {
      EmptyObject(depth, fmt, rest);
    } else {
      FullObject(members, depth, fmt, rest);
    }
  }

  lemma ObjectStarts(members: seq<Member>, depth: nat, fmt: bool, rest: Text)
    requires Printable(Object(members))
    ensures At(Print(Object(members), depth, fmt) + rest, 0) == OPEN_OBJECT
  {
    hide PrintMembers;
  }

  lemma EmptyObject(depth: nat, fmt: bool, rest: Text)
    ensures At(Print(Object([]), depth, fmt) + rest, 0) == OPEN_OBJECT
    ensures ParseObject(Print(Object([]), depth, fmt) + rest) == Some((Object([]), rest))
    ensures SafeObject(Print(Object([]), depth, fmt) + rest)
  {
    hide ParseMembers, SafeMembers;
    var close: Text := [CLOSE_OBJECT] + rest;
    var gap: Text := if fmt then [NEWLINE] + Tabs(depth - 1) else [];
    var s := Print(Object([]), depth, fmt) + rest;
    assert s == [OPEN_OBJECT] + (gap + close);
    assert s[1..] == gap + close && close[1..] == rest;
    SkipSpace(gap, close);
  }

  lemma FullObject(members: seq<Member>, depth: nat, fmt: bool, rest: Text)
    requires members != [] && Printable(Object(members))
    ensures At(Print(Object(members), depth, fmt) + rest, 0) == OPEN_OBJECT
    ensures ParseObject(Print(Object(members), depth, fmt) + rest) == Some((Object(members), rest))
    ensures SafeObject(Print(Object(members), depth, fmt) + rest)
    decreases members, 3, 0
  {
    hide ParseMembers, PrintMembers, Printable, SafeMembers;
    var close: Text := [CLOSE_OBJECT] + rest;
    var line: Text := if fmt then [NEWLINE] else [];
    var indent: Text := if fmt then Tabs(depth) else [];
    ObjectLayout(members, depth, fmt, rest);
    var s := Print(Object(members), depth, fmt) + rest;
    var body := PrintMembers(members, depth + 1, fmt) + (indent + close);
    assert s[1..] == line + body && close[1..] == rest;
    SkipSpace(line, body);
    MembersStart(members, depth + 1, fmt, indent + close);
    MembersRoundTrip(members, depth + 1, fmt, indent, close);
    SkippedMembers(body);
  }

  lemma ObjectLayout(members: seq<Member>, depth: nat, fmt: bool, rest: Text)
    requires members != [] && Printable(Object(members))
    ensures var line: Text, indent: Text, close: Text :=
        (if fmt then [NEWLINE] else []), (if fmt then Tabs(depth) else []), [CLOSE_OBJECT] + rest;
      && (forall i :: 0 <= i < |members| ==> Printable(members[i].value))
      && Print(Object(members), depth, fmt) + rest ==
         [OPEN_OBJECT] + (line + (PrintMembers(members, depth + 1, fmt) + (indent + close)))
  {
    hide PrintMembers;
  }

  lemma SkippedMembers(s: Text)
    ensures ParseMembers(Skip(s)) == ParseMembers(s) && SafeMembers(Skip(s)) == SafeMembers(s)
  {
    hide ParseString, ParseValue, SafeString, SafeValue;
    SkipTwice(s);
  }

  lemma {:induction false} SkipTwice(s: Text)
    ensures Skip(Skip(s)) == Skip(s)
  {
    if s != [] && s[0] <= 32 {
      SkipTwice(s[1..]);
    }
  }

  /** After white space the members start with a quote. */
  lemma MembersStart(members: seq<Member>, depth: nat, fmt: bool, rest: Text)
    requires members != [] && Printable(Object(members))
    ensures At(Skip(PrintMembers(members, depth, fmt) + rest), 0) == QUOTE
  {
    hide PrintMember;
    var m := members[0];
    var comma, line := if |members| == 1 then [] else [COMMA], if fmt then [NEWLINE] else [];
    var tail := comma + line + PrintMembers(members[1..], depth, fmt) + rest;
    assert PrintMembers(members, depth, fmt) + rest == PrintMember(m, depth, fmt) + tail;
    MemberStarts(m, depth, fmt, tail);
  }

  lemma MemberStarts(m: Member, depth: nat, fmt: bool, rest: Text)
    requires Printable(m.value)
    ensures At(Skip(PrintMember(m, depth, fmt) + rest), 0) == QUOTE
  {
    hide Print, PrintString;
    var indent: Text := if fmt then Tabs(depth) else [];
    var more := (if fmt then [COLON, TAB] else [COLON]) + Print(m.value, depth, fmt) + rest;
    assert PrintMember(m, depth, fmt) + rest == indent + (PrintString(m.name) + more);
    SkipSpace(indent, PrintString(m.name) + more);
    QuoteFirst(m.name, more);
  }

  /** `name`, colon and value, and the white space after them. */
  lemma MemberRoundTrip(m: Member, depth: nat, fmt: bool, rest: Text)
    requires Printable(m.value) && Follows(m.value, rest)
    ensures ParseMember(PrintMember(m, depth, fmt) + rest) == Some((m, Skip(rest)))
    ensures SafeMember(PrintMember(m, depth, fmt) + rest)
    decreases m, 0
  {
    hide ParseValue, Print, ParseString, PrintString, SafeString, SafeValue;
    var indent: Text := if fmt then Tabs(depth) else [];
    var gap: Text := if fmt then [TAB] else [];
    var value := Print(m.value, depth, fmt) + rest;
    var after := [COLON] + (gap + value);
    var name := PrintString(m.name) + after;
    var s := PrintMember(m, depth, fmt) + rest;
    assert s == indent + name;
    SkipSpace(indent, name);
    QuoteFirst(m.name, after);
    StringRoundTrip(m.name, after);
    assert after[1..] == gap + value;
    PrintStarts(m.value, depth, fmt);
    StartOf(Print(m.value, depth, fmt), rest);
    SkipSpace(gap, value);
    ValueRoundTrip(m.value, depth, fmt, rest);
  }

  /** The text of the members, taken apart. */
  lemma MembersLayout(members: seq<Member>, depth: nat, fmt: bool, rest: Text)
    requires members != [] && Printable(Object(members))
    ensures var comma: Text, line: Text := (if |members| == 1 then [] else [COMMA]), (if fmt then [NEWLINE] else []);
      && Printable(members[0].value) && Printable(Object(members[1..]))
      && PrintMembers(members, depth, fmt) + rest ==
         PrintMember(members[0], depth, fmt) + (comma + (line + (PrintMembers(members[1..], depth, fmt) + rest)))
  {
    hide PrintMember;
    var comma: Text, line: Text := (if |members| == 1 then [] else [COMMA]), (if fmt then [NEWLINE] else []);
    FourAndRest(PrintMember(members[0], depth, fmt), comma, line, PrintMembers(members[1..], depth, fmt), rest);
  }

  lemma FourAndRest(a: Text, b: Text, c: Text, d: Text, rest: Text)
    ensures a + b + c + d + rest == a + (b + (c + (d + rest)))
  {
  }

  lemma MembersRoundTrip(members: seq<Member>, depth: nat, fmt: bool, indent: Text, close: Text)
    requires members != [] && Printable(Object(members)) && IsSpace(indent) && At(close, 0) == CLOSE_OBJECT
    ensures ParseMembers(PrintMembers(members, depth, fmt) + (indent + close)) == Some((members, close))
    ensures SafeMembers(PrintMembers(members, depth, fmt) + (indent + close))
    decreases members, 2
  {
    hide ParseMember, PrintMember, PrintMembers, SafeMember;
    var m := members[0];
    var line: Text := if fmt then [NEWLINE] else [];
    var s := PrintMembers(members, depth, fmt) + (indent + close);
    MembersLayout(members, depth, fmt, indent + close);
    if |members| == 1 {
      NoMoreMembers(depth, fmt);
      var tail := line + (indent + close);
      assert members[1..] == [];
      assert [] + (line + ([] + (indent + close))) == tail;
      SkipSpace(line, indent + close);
      SkipSpace(indent, close);
      FollowedBy(line, indent, close);
      MemberRoundTrip(m, depth, fmt, tail);
      assert members == [m];
    } else {
      var more := PrintMembers(members[1..], depth, fmt) + (indent + close);
      var tail := [COMMA] + (line + more);
      MemberRoundTrip(m, depth, fmt, tail);
      assert tail[1..] == line + more;
      SpaceBeforeMembers(line, more);
      MembersRoundTrip(members[1..], depth, fmt, indent, close);
      assert members == [m] + members[1..];
    }
  }

  lemma NoMoreMembers(depth: nat, fmt: bool)
    ensures PrintMembers([], depth, fmt) == []
  {
  }

  /** White space or a closing bracket may follow a number. */
  lemma FollowedBy(line: Text, indent: Text, close: Text)
    requires IsSpace(line) && IsSpace(indent) && At(close, 0) == CLOSE_OBJECT
    ensures EndsNumber(line + (indent + close))
  {
    var s := line + (indent + close);
    assert s[0] == if line != [] then line[0] else if indent != [] then indent[0] else close[0];
  }

  lemma SpaceBeforeMembers(space: Text, s: Text)
    requires IsSpace(space)
    ensures ParseMembers(space + s) == ParseMembers(s) && SafeMembers(space + s) == SafeMembers(s)
  {
    hide ParseString, ParseValue, SafeString, SafeValue;
    SkipSpace(space, s);
  }

  // -------------------------------------------------------------------------- the theorem

  /**
    `cJSON_Parse` of `cJSON_Print` or `cJSON_PrintUnformatted` is the identity; the whole text is consumed, and
    the parser stays within it.
  */
  lemma RoundTrip(v: Value, fmt: bool, requireEnd: bool)
    requires Printable(v)
    ensures Parse(Print(v, 0, fmt), requireEnd) == Some((v, [])) && SafeText(Print(v, 0, fmt))
  {
    var s := Print(v, 0, fmt);
    PrintStarts(v, 0, fmt);
    ValueRoundTrip(v, 0, fmt, []);
    assert s + [] == s;
  }
}
