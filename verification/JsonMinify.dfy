/**
  `cJSON_Minify`: removes white space and comments outside strings, in place.
  On formatted output it gives exactly the compact output.
*/
module JsonMinify {
  import opened Json
  import opened JsonRoundTrip

  const CR: char8 := 13
  const STAR: char8 := 42

  predicate Blank(c: int) { c == SPACE || c == TAB || c == CR || c == NEWLINE }

  /** The end of the line. */
  function ToLineEnd(s: Text): (r: Text)
    ensures |r| <= |s|
  {
    if s == [] || s[0] == NEWLINE then s else ToLineEnd(s[1..])
  }

  /** The end of the comment; nothing is left if it has none. */
  function ToCommentEnd(s: Text): (r: Text)
    ensures |r| <= |s|
    ensures r != [] ==> |r| >= 2 && r[0] == STAR && r[1] == SLASH
  {
    if s == [] || (s[0] == STAR && At(s, 1) == SLASH) then s else ToCommentEnd(s[1..])
  }

  /** What is copied at once: a character, or a backslash and the character after it. */
  function StepSize(s: Text): nat
    requires s != []
  {
    if s[0] == BACKSLASH then 2 else 1
  }

  /** A string literal, from behind its opening quote, has a closing one, and no backslash at the end of the text. */
  predicate LiteralClosed(s: Text)
    decreases |s|
  {
    s != [] && (s[0] == QUOTE || (StepSize(s) <= |s| && LiteralClosed(s[StepSize(s)..])))
  }

  /** The rest of a string literal, and the text from its closing quote on. */
  function Literal(s: Text): (r: (Text, Text))
    requires LiteralClosed(s)
    ensures |r.1| <= |s| && r.1 != [] && r.1[0] == QUOTE
    decreases |s|
  {
    if s[0] == QUOTE then ([], s)
    else
      var (out, rest) := Literal(s[StepSize(s)..]);
      (s[..StepSize(s)] + out, rest)
  }

  /** Every string literal and every block comment of the text is closed. */
  predicate Closed(s: Text)
    decreases |s|
  {
    if s == [] then true
    else if s[0] == SLASH && At(s, 1) == SLASH then Closed(ToLineEnd(s[1..]))
    else if s[0] == SLASH && At(s, 1) == STAR then ToCommentEnd(s) != [] && Closed(ToCommentEnd(s)[2..])
    else if s[0] == QUOTE then LiteralClosed(s[1..]) && Closed(Literal(s[1..]).1[1..])
    else Closed(s[1..])
  }

  function Minified(s: Text): Text
    requires Closed(s)
    decreases |s|
  {
    if s == [] then []
    else if Blank(s[0]) then Minified(s[1..])
    else if s[0] == SLASH && At(s, 1) == SLASH then Minified(ToLineEnd(s[1..]))
    else if s[0] == SLASH && At(s, 1) == STAR then Minified(ToCommentEnd(s)[2..])
    else if s[0] == QUOTE then
      var (out, rest) := Literal(s[1..]);
      [QUOTE] + out + [QUOTE] + Minified(rest[1..])
    else [s[0]] + Minified(s[1..])
  }

  /** Texts that are not closed: a quote, with a backslash or an escaped quote behind it, or the start of a comment. */
  lemma NotClosed()
    ensures !Closed([QUOTE]) && !Closed([QUOTE, BACKSLASH]) && !Closed([QUOTE, BACKSLASH, QUOTE])
    ensures !Closed([SLASH, STAR])
  {
    var q: Text := [BACKSLASH, QUOTE];
    assert [SLASH, STAR][1..] == [STAR] && [STAR][1..] == [];
    assert !LiteralClosed(q[2..]);
    assert [QUOTE, BACKSLASH, QUOTE][1..] == q;
  }

  // -------------------------------------------------------------------- what is dropped

  const BLANKS: string := " \t\r\n"

  lemma BlankIs(c: int)
    ensures Blank(c) <==> exists i :: 0 <= i < |BLANKS| && c == BLANKS[i] as int
  {
    assert BLANKS[0] == ' ' && BLANKS[1] == '\t' && BLANKS[2] == '\r' && BLANKS[3] == '\n';
  }

  /** Two slashes and the rest of the line are dropped, and the line end with them. */
  lemma LineCommentDropped(c: Text, rest: Text)
    requires '\n' as int !in c && Closed(rest)
    ensures var s := ['/' as int, '/' as int] + c + ['\n' as int] + rest; Closed(s) && Minified(s) == Minified(rest)
  {
    var s, end := ['/' as int, '/' as int] + c + ['\n' as int] + rest, ['\n' as int] + rest;
    assert s[1..] == (['/' as int] + c) + end;
    LineSkipped(['/' as int] + c, end);
    assert end[1..] == rest;
  }

  lemma {:induction false} LineSkipped(c: Text, end: Text)
    requires '\n' as int !in c && end != [] && end[0] == '\n' as int
    ensures ToLineEnd(c + end) == end
    decreases |c|
  {
    if c == [] {
      assert c + end == end;
    } else {
      assert (c + end)[1..] == c[1..] + end && c[0] in c;
      LineSkipped(c[1..], end);
    }
  }

  /** A comment is dropped up to the first star with a slash behind it. */
  lemma BlockCommentDropped(c: Text, rest: Text)
    requires forall i :: 0 <= i < |c| ==> !(c[i] == '*' as int && At(c, i + 1) == '/' as int)
    requires c == [] || c[0] != '/' as int
    requires Closed(rest)
    ensures var s := ['/' as int, '*' as int] + c + ['*' as int, '/' as int] + rest;
      Closed(s) && Minified(s) == Minified(rest)
  {
    var s, end := ['/' as int, '*' as int] + c + ['*' as int, '/' as int] + rest, ['*' as int, '/' as int] + rest;
    assert s == (['/' as int, '*' as int] + c) + end;
    var open := ['/' as int, '*' as int] + c;
    forall i | 0 <= i < |open| ensures !(open[i] == '*' as int && At(open, i + 1) == '/' as int) {
      if i >= 2 {
        assert open[i] == c[i - 2] && At(open, i + 1) == At(c, i - 1);
      }
    }
    BlockSkipped(open, end);
    CommentDropped(s, end);
    assert end[2..] == rest;
  }

  lemma CommentDropped(s: Text, end: Text)
    requires |s| >= 2 && s[0] == SLASH && s[1] == STAR && ToCommentEnd(s) == end && end != [] && Closed(end[2..])
    ensures Closed(s) && Minified(s) == Minified(end[2..])
  {
  }

  /** That may be the star it begins with. */
  lemma ShortestComment(rest: Text)
    requires Closed(rest)
    ensures var s := ['/' as int, '*' as int, '/' as int] + rest; Closed(s) && Minified(s) == Minified(rest)
  {
    var s, end := ['/' as int, '*' as int, '/' as int] + rest, ['*' as int, '/' as int] + rest;
    assert s == ['/' as int] + end;
    BlockSkipped(['/' as int], end);
    CommentDropped(s, end);
    assert end[2..] == rest;
  }

  lemma {:induction false} BlockSkipped(c: Text, end: Text)
    requires forall i :: 0 <= i < |c| ==> !(c[i] == '*' as int && At(c, i + 1) == '/' as int)
    requires |end| >= 2 && end[0] == '*' as int && end[1] == '/' as int
    ensures ToCommentEnd(c + end) == end
    decreases |c|
  {
    if c == [] {
      assert c + end == end;
    } else {
      assert (c + end)[1..] == c[1..] + end;
      assert At(c + end, 1) == if |c| > 1 then c[1] else end[0];
      forall i | 0 <= i < |c| - 1 ensures !(c[1..][i] == '*' as int && At(c[1..], i + 1) == '/' as int) {
        assert At(c[1..], i + 1) == At(c, i + 2);
      }
      BlockSkipped(c[1..], end);
    }
  }

  // ------------------------------------------------------------------------- the theorem

  ghost predicate Plain(s: Text) { forall i :: 0 <= i < |s| ==> !Blank(s[i]) && s[i] != SLASH && s[i] != QUOTE }

  lemma {:induction false} PlainKept(a: Text, b: Text)
    requires Plain(a) && Closed(b)
    ensures Closed(a + b) && Minified(a + b) == a + Minified(b)
    decreases |a|
  {
    if a == [] {
      assert a + b == b;
    } else {
      hide Minified, Closed;
      assert (a + b)[1..] == a[1..] + b;
      PlainKept(a[1..], b);
      OneKept(a + b);
      assert [a[0]] + (a[1..] + Minified(b)) == a + Minified(b);
    }
  }

  lemma OneKept(s: Text)
    requires s != [] && !Blank(s[0]) && s[0] != SLASH && s[0] != QUOTE && Closed(s[1..])
    ensures Closed(s) && Minified(s) == [s[0]] + Minified(s[1..])
  {
  }

  ghost predicate AllBlank(s: Text) { forall i :: 0 <= i < |s| ==> Blank(s[i]) }

  lemma {:induction false} BlankDropped(a: Text, b: Text)
    requires AllBlank(a) && Closed(b)
    ensures Closed(a + b) && Minified(a + b) == Minified(b)
    decreases |a|
  {
    if a == [] {
      assert a + b == b;
    } else {
      assert (a + b)[1..] == a[1..] + b;
      BlankDropped(a[1..], b);
    }
  }

  /** Characters without quotes and backslashes are copied. */
  lemma {:induction false} LiteralPlain(a: Text, b: Text)
    requires LiteralClosed(b) && forall i :: 0 <= i < |a| ==> a[i] != QUOTE && a[i] != BACKSLASH
    ensures LiteralClosed(a + b) && Literal(a + b) == (a + Literal(b).0, Literal(b).1)
    decreases |a|
  {
    if a == [] {
      assert a + b == b && [] + Literal(b).0 == Literal(b).0;
    } else {
      assert (a + b)[1..] == a[1..] + b && (a + b)[..1] == [a[0]];
      LiteralPlain(a[1..], b);
      assert [a[0]] + (a[1..] + Literal(b).0) == a + Literal(b).0;
    }
  }

  lemma LiteralPair(s: Text)
    requires |s| >= 2 && s[0] == BACKSLASH && LiteralClosed(s[2..])
    ensures LiteralClosed(s) && Literal(s) == (s[..2] + Literal(s[2..]).0, Literal(s[2..]).1)
  {
  }

  lemma LiteralChar(c: char8, rest: Text)
    requires LiteralClosed(rest)
    ensures LiteralClosed(Escaped(c) + rest) &&
      Literal(Escaped(c) + rest) == (Escaped(c) + Literal(rest).0, Literal(rest).1)
  {
    hide LiteralClosed, Literal;
    var e := Escaped(c);
    if e[0] == BACKSLASH {
      var s := e + rest;
      assert s[2..] == e[2..] + rest && s[..2] == e[..2];
      LiteralPlain(e[2..], rest);
      LiteralPair(s);
      assert e[..2] + (e[2..] + Literal(rest).0) == e + Literal(rest).0;
    } else {
      LiteralPlain(e, rest);
    }
  }

  lemma {:induction false} LiteralKept(t: Text, rest: Text)
    requires rest != [] && rest[0] == QUOTE
    ensures LiteralClosed(EscapedAll(t) + rest) && Literal(EscapedAll(t) + rest) == (EscapedAll(t), rest)
  {
    hide LiteralClosed, Literal, Escaped;
    if t == [] {
      LiteralEnds(rest);
      assert EscapedAll(t) + rest == rest;
    } else {
      LiteralKept(t[1..], rest);
      LiteralChar(t[0], EscapedAll(t[1..]) + rest);
      assert EscapedAll(t) + rest == Escaped(t[0]) + (EscapedAll(t[1..]) + rest);
    }
  }

  lemma LiteralEnds(rest: Text)
    requires rest != [] && rest[0] == QUOTE
    ensures LiteralClosed(rest) && Literal(rest) == ([], rest)
  {
  }

  lemma StringKept(t: Text, rest: Text)
    requires Closed(rest)
    ensures Closed(PrintString(t) + rest) && Minified(PrintString(t) + rest) == PrintString(t) + Minified(rest)
  {
    hide LiteralClosed, Literal;
    var close: Text := [QUOTE] + rest;
    var s := PrintString(t) + rest;
    assert s == [QUOTE] + (EscapedAll(t) + close);
    assert s[1..] == EscapedAll(t) + close && close[1..] == rest;
    LiteralKept(t, close);
  }

  lemma PlainInt(n: int)
    ensures Plain(PrintInt(n))
  {
    if n < 0 {
      DecimalIsDigits(-n);
    } else {
      DecimalIsDigits(n);
    }
  }

  /** Minifying the formatted text of a tree, whatever follows it. */
  lemma ValueMinified(v: Value, depth: nat, rest: Text)
    requires Printable(v) && Closed(rest)
    ensures Closed(Print(v, depth, true) + rest)
    ensures Minified(Print(v, depth, true) + rest) == Print(v, depth, false) + Minified(rest)
    decreases v, 1
  {
    hide Minified, Closed, PrintString, PrintInt, PrintItems, PrintMembers;
    match v
    case Null => PlainKept(NULL_TEXT, rest);
    case False => PlainKept(FALSE_TEXT, rest);
    case True => PlainKept(TRUE_TEXT, rest);
    case Number(n) =>
      PlainInt(n.Floor);
      PlainKept(PrintInt(n.Floor), rest);
    case String(t) => StringKept(t, rest);
    case Array(items) => ArrayMinified(items, depth, rest);
    case Object(members) => ObjectMinified(members, depth, rest);
  }

  lemma ArrayMinified(items: seq<Value>, depth: nat, rest: Text)
    requires Printable(Array(items)) && Closed(rest)
    ensures Closed(Print(Array(items), depth, true) + rest)
    ensures Minified(Print(Array(items), depth, true) + rest) == Print(Array(items), depth, false) + Minified(rest)
    decreases items, 1
  {
    hide Minified, Closed, PrintItems;
    var body, close: Text := PrintItems(items, depth + 1, true), [CLOSE_ARRAY];
    Enclosed([OPEN_ARRAY], body, close, rest);
    PlainKept(close, rest);
    ItemsMinified(items, depth + 1, close + rest);
    PlainKept([OPEN_ARRAY], body + (close + rest));
    Enclosed([OPEN_ARRAY], PrintItems(items, depth + 1, false), close, Minified(rest));
  }

  lemma ItemsMinified(items: seq<Value>, depth: nat, rest: Text)
    requires Printable(Array(items)) && Closed(rest)
    ensures Closed(PrintItems(items, depth, true) + rest)
    ensures Minified(PrintItems(items, depth, true) + rest) == PrintItems(items, depth, false) + Minified(rest)
    decreases items, 0
  {
    hide Minified, Closed, Print;
    if items == [] {
      assert PrintItems(items, depth, true) + rest == rest;
    } else if |items| == 1 {
      ValueMinified(items[0], depth, rest);
      assert PrintItems(items, depth, true) == Print(items[0], depth, true);
    } else {
      var first, more := Print(items[0], depth, true), PrintItems(items[1..], depth, true) + rest;
      assert PrintItems(items, depth, true) + rest == first + ([COMMA] + ([SPACE] + more));
      ItemsMinified(items[1..], depth, rest);
      BlankDropped([SPACE], more);
      PlainKept([COMMA], [SPACE] + more);
      ValueMinified(items[0], depth, [COMMA] + ([SPACE] + more));
    }
  }

  lemma TabsBlank(n: int)
    ensures AllBlank(Tabs(n))
  {
  }

  lemma ObjectMinified(members: seq<Member>, depth: nat, rest: Text)
    requires Printable(Object(members)) && Closed(rest)
    ensures Closed(Print(Object(members), depth, true) + rest)
    ensures Minified(Print(Object(members), depth, true) + rest) ==
      Print(Object(members), depth, false) + Minified(rest)
    decreases members, 3
  {
    if members == [] {
      EmptyMinified(depth, rest);
    } else {
      FullMinified(members, depth, rest);
    }
  }

  lemma EmptyMinified(depth: nat, rest: Text)
    requires Closed(rest)
    ensures Closed(Print(Object([]), depth, true) + rest)
    ensures Minified(Print(Object([]), depth, true) + rest) == Print(Object([]), depth, false) + Minified(rest)
  {
    hide Minified, Closed, Tabs;
    var gap: Text, end: Text := [NEWLINE] + Tabs(depth - 1), [CLOSE_OBJECT] + rest;
    TabsBlank(depth - 1);
    Enclosed([OPEN_OBJECT], gap, [CLOSE_OBJECT], rest);
    PlainKept([CLOSE_OBJECT], rest);
    BlankDropped(gap, end);
    PlainKept([OPEN_OBJECT], gap + end);
    Enclosed([OPEN_OBJECT], [], [CLOSE_OBJECT], Minified(rest));
    assert [] + ([CLOSE_OBJECT] + Minified(rest)) == [CLOSE_OBJECT] + Minified(rest);
  }

  lemma Enclosed(a: Text, b: Text, c: Text, rest: Text)
    ensures a + b + c + rest == a + (b + (c + rest))
  {
  }

  lemma FullMinified(members: seq<Member>, depth: nat, rest: Text)
    requires members != [] && Printable(Object(members)) && Closed(rest)
    ensures Closed(Print(Object(members), depth, true) + rest)
    ensures Minified(Print(Object(members), depth, true) + rest) ==
      Print(Object(members), depth, false) + Minified(rest)
    decreases members, 3, 0
  {
    hide Minified, Closed, PrintMembers, Tabs, Print, Printable;
    var indent, end := Tabs(depth), [CLOSE_OBJECT] + rest;
    var m := Minified(rest);
    TabsBlank(depth);
    ObjectLayout(members, depth, true, rest);
    ObjectLayout(members, depth, false, m);
    var body := PrintMembers(members, depth + 1, true) + (indent + end);
    PlainKept([CLOSE_OBJECT], rest);
    BlankDropped(indent, end);
    MembersMinified(members, depth + 1, indent + end);
    BlankDropped([NEWLINE], body);
    PlainKept([OPEN_OBJECT], [NEWLINE] + body);
    assert [] + (PrintMembers(members, depth + 1, false) + ([] + ([CLOSE_OBJECT] + m))) ==
      PrintMembers(members, depth + 1, false) + ([CLOSE_OBJECT] + m);
  }

  lemma MemberMinified(m: Member, depth: nat, rest: Text)
    requires Printable(m.value) && Closed(rest)
    ensures Closed(PrintMember(m, depth, true) + rest)
    ensures Minified(PrintMember(m, depth, true) + rest) == PrintMember(m, depth, false) + Minified(rest)
    decreases m, 0
  {
    hide Minified, Closed, Print, PrintString, Tabs;
    var value := Print(m.value, depth, true) + rest;
    var after := [COLON] + ([TAB] + value);
    TabsBlank(depth);
    assert PrintMember(m, depth, true) + rest == Tabs(depth) + (PrintString(m.name) + after);
    ValueMinified(m.value, depth, rest);
    BlankDropped([TAB], value);
    PlainKept([COLON], [TAB] + value);
    StringKept(m.name, after);
    BlankDropped(Tabs(depth), PrintString(m.name) + after);
  }

  lemma MembersMinified(members: seq<Member>, depth: nat, rest: Text)
    requires Printable(Object(members)) && Closed(rest)
    ensures Closed(PrintMembers(members, depth, true) + rest)
    ensures Minified(PrintMembers(members, depth, true) + rest) == PrintMembers(members, depth, false) + Minified(rest)
    decreases members, 2
  {
    hide Minified, Closed, PrintMember, PrintMembers;
    if members == [] {
      NoMoreMembers(depth, true);
      NoMoreMembers(depth, false);
      assert [] + rest == rest;
    } else {
      var comma: Text := if |members| == 1 then [] else [COMMA];
      var more := PrintMembers(members[1..], depth, true) + rest;
      MembersLayout(members, depth, true, rest);
      MembersLayout(members, depth, false, Minified(rest));
      MembersMinified(members[1..], depth, rest);
      BlankDropped([NEWLINE], more);
      PlainKept(comma, [NEWLINE] + more);
      MemberMinified(members[0], depth, comma + ([NEWLINE] + more));
      assert [] + Minified(more) == Minified(more);
    }
  }

  /** Minified formatted output is the compact output. */
  lemma MinifyFormatted(v: Value)
    requires Printable(v)
    ensures Closed(Print(v, 0, true)) && Minified(Print(v, 0, true)) == Print(v, 0, false)
  {
    ValueMinified(v, 0, []);
    assert Print(v, 0, true) + [] == Print(v, 0, true);
  }

  // ------------------------------------------------------------------------ in place

  /** What is left to read and what is written already, on the way from one to the other. */
  ghost predicate Goes(out: Text, s: Text, out2: Text, s2: Text) {
    && (Closed(s) <==> Closed(s2))
    && (Closed(s) ==> out + Minified(s) == out2 + Minified(s2))
  }

  lemma GoesOn(a: Text, s: Text, b: Text, s2: Text, c: Text, s3: Text)
    requires Goes(a, s, b, s2) && Goes(b, s2, c, s3)
    ensures Goes(a, s, c, s3)
  {
  }

  /** `a` holds the unread part of `t`, and `out` has been written. */
  ghost predicate Progress(a: seq<int>, t: Text, out: Text, json: nat) {
    && |a| == |t| + 1 && |out| <= json <= |t|
    && a[..|out|] == out && forall i :: json <= i < |t| ==> a[i] == t[i]
  }

  /**
    `cJSON_Minify`: `json` reads, `into` writes behind it; the result ends at the new terminator. It stays in the
    text exactly when every literal and block comment is closed.
  */
  method Minify(a: array<int>, ghost t: Text) returns (inside: bool, into: nat)
    requires a.Length == |t| + 1 && a[..|t|] == t && a[|t|] == 0
    modifies a
    ensures inside <==> Closed(t)
    ensures inside ==> into <= |t| && a[..into] == Minified(t) && a[into] == 0
  {
    hide Minified, Closed, Progress, Goes;
    var n := a.Length - 1;
    var json := 0;
    into := 0;
    ghost var out: Text := [];
    Begin(a[..], t);
    while json < n
      invariant json <= n == |t| && into == |out| && Progress(a[..], t, out, json)
      invariant Goes([], t, out, t[json..])
      decreases n - json
    {
      Unread(a[..], t, out, json);
      if json + 1 < n {
        Peek(a[..], t, out, json);
      }
      MinifyStep(t, json, out);
      ghost var s, was := t[json..], out;
      if Blank(a[json]) {
        SkipTo(a[..], t, out, json, json + 1);
        json := json + 1;
      } else if a[json] == SLASH && json + 1 < n && a[json + 1] == SLASH {
        var end := SkipLine(a, t, out, json);
        SkipTo(a[..], t, out, json, end);
        json := end;
      } else if a[json] == SLASH && json + 1 < n && a[json + 1] == STAR {
        var end: nat;
        inside, end := SkipComment(a, t, out, json);
        if !inside {
          NeverClosed(t, out, s);
          return;
        }
        SkipTo(a[..], t, out, json, end);
        json := end;
      } else if a[json] == QUOTE {
        inside, json, into, out := CopyLiteral(a, t, out, json, into);
        if !inside {
          NeverClosed(t, was, s);
          return;
        }
        InText(a[..], t, out, json);
      } else {
        CopyOne(a, t, out, json, into);
        json, into, out := json + 1, into + 1, out + [t[json]];
      }
      GoesOn([], t, was, s, out, t[json..]);
    }
    Written(a[..], t, out, json);
    a[into] := 0;
    Finished(t, out);
    inside := true;
  }

  lemma Begin(a: seq<int>, t: Text)
    requires |a| == |t| + 1 && a[..|t|] == t
    ensures Progress(a, t, [], 0) && Goes([], t, [], t[0..])
  {
    assert t[0..] == t;
  }

  lemma NeverClosed(t: Text, out: Text, s: Text)
    requires Goes([], t, out, s) && !Closed(s)
    ensures !Closed(t)
  {
  }

  lemma Peek(a: seq<int>, t: Text, out: Text, json: nat)
    requires Progress(a, t, out, json) && json + 1 < |t|
    ensures a[json + 1] == t[json + 1] == At(t[json..], 1)
  {
  }

  lemma SkipTo(a: seq<int>, t: Text, out: Text, json: nat, end: nat)
    requires Progress(a, t, out, json) && json <= end <= |t|
    ensures Progress(a, t, out, end)
  {
  }

  lemma Written(a: seq<int>, t: Text, out: Text, json: nat)
    requires Progress(a, t, out, json)
    ensures |out| <= |t| < |a| && a[..|out|] == out
  {
  }

  lemma Finished(t: Text, out: Text)
    requires Goes([], t, out, t[|t|..])
    ensures Closed(t) && Minified(t) == out
  {
    assert [] + Minified(t) == Minified(t) && out + [] == out;
  }

  /** What the next character does to the text that is left and to what is written. */
  lemma MinifyStep(t: Text, json: nat, out: Text)
    requires json < |t|
    ensures var s, next := t[json..], t[json + 1..];
      && (Blank(t[json]) ==> Goes(out, s, out, next))
      && (t[json] == SLASH && At(s, 1) == SLASH ==> Goes(out, s, out, ToLineEnd(next)))
      && (t[json] == SLASH && At(s, 1) == STAR ==>
           if ToCommentEnd(s) == [] then !Closed(s) else Goes(out, s, out, ToCommentEnd(s)[2..]))
      && (!Blank(t[json]) && t[json] != QUOTE && (t[json] != SLASH || (At(s, 1) != SLASH && At(s, 1) != STAR)) ==>
            Goes(out, s, out + [t[json]], next))
  {
    var s := t[json..];
    assert s[1..] == t[json + 1..] && s[0] == t[json];
    if Closed(t[json + 1..]) {
      var rest := Minified(t[json + 1..]);
      assert out + ([t[json]] + rest) == (out + [t[json]]) + rest;
    }
  }

  method SkipLine(a: array<int>, ghost t: Text, ghost out: Text, json: nat) returns (end: nat)
    requires Progress(a[..], t, out, json) && json < |t| && t[json] == SLASH
    ensures json < end <= |t| && t[end..] == ToLineEnd(t[json + 1..])
  {
    end := json + 1;
    while end < a.Length - 1 && a[end] != NEWLINE
      invariant json < end <= |t| && ToLineEnd(t[end..]) == ToLineEnd(t[json + 1..])
    {
      assert t[end..][1..] == t[end + 1..];
      end := end + 1;
    }
  }

  /** A comment that does not end takes the cursor past the end of the text. */
  method SkipComment(a: array<int>, ghost t: Text, ghost out: Text, json: nat) returns (inside: bool, end: nat)
    requires Progress(a[..], t, out, json) && json < |t| && t[json] == SLASH
    ensures inside <==> ToCommentEnd(t[json..]) != []
    ensures inside ==> json < end <= |t| && t[end..] == ToCommentEnd(t[json..])[2..]
  {
    end := json;
    var n := a.Length - 1;
    while end < n && !(a[end] == STAR && end + 1 < n && a[end + 1] == SLASH)
      invariant json <= end <= |t| && ToCommentEnd(t[end..]) == ToCommentEnd(t[json..])
    {
      assert t[end..][1..] == t[end + 1..];
      end := end + 1;
    }
    assert end + 2 <= n ==> t[end..][2..] == t[end + 2..];
    end := end + 2;
    inside := end <= n;
  }

  /** Copy one character. */
  method CopyOne(a: array<int>, ghost t: Text, ghost out: Text, json: nat, into: nat)
    requires Progress(a[..], t, out, json) && json < |t| && into == |out|
    modifies a
    ensures a.Length == |t| + 1 && Progress(a[..], t, out + [t[json]], json + 1)
  {
    a[into] := a[json];
  }

  /** Of the literal `s`, `s2` is left, and `more` is written where `out` was. */
  ghost predicate Copies(out: Text, s: Text, more: Text, s2: Text) {
    && (LiteralClosed(s) <==> LiteralClosed(s2))
    && (LiteralClosed(s) ==> out + Literal(s).0 == more + Literal(s2).0 && Literal(s).1 == Literal(s2).1)
  }

  /**
    A string literal is copied, with a character after a backslash taken along. One that is not closed
    takes the cursor past the end of the text.
  */
  method CopyLiteral(a: array<int>, ghost t: Text, ghost out: Text, start: nat, at: nat)
    returns (inside: bool, json: nat, into: nat, ghost more: Text)
    requires Progress(a[..], t, out, start) && start < |t| && t[start] == QUOTE && at == |out|
    modifies a
    ensures if inside then start < json && Progress(a[..], t, more, json) && into == |more| && Goes(out, t[start..],
      more, t[json..])
            else !Closed(t[start..])
  {
    hide Literal, LiteralClosed, Progress, Minified, Closed, Copies, Goes;
    CopyOne(a, t, out, start, at);
    json, into, more := start + 1, at + 1, out + [QUOTE];
    InText(a[..], t, more, json);
    ghost var begin, lit := more, t[json..];
    Copied(begin, lit);
    var n := a.Length - 1;
    while json < n && a[json] != QUOTE
      invariant start < json <= |t| == n && Progress(a[..], t, more, json) && into == |more|
      invariant Copies(begin, lit, more, t[json..])
      decreases n - json
    {
      ghost var s, was := t[json..], more;
      Unread(a[..], t, more, json);
      CopiesStep(begin, lit, was, s);
      inside, json, into, more := CopyStep(a, t, more, json, into);
      if !inside {
        NotClosedLiteral(t, start, begin, was, s);
        return;
      }
    }
    inside := json < n;
    if !inside {
      LiteralEndless(t[json..]);
      NotClosedLiteral(t, start, begin, more, t[json..]);
      return;
    }
    Unread(a[..], t, more, json);
    LiteralDone(t, out, start, more, json);
    CopyOne(a, t, more, json, into);
    json, into, more := json + 1, into + 1, more + [QUOTE];
  }

  lemma InText(a: seq<int>, t: Text, out: Text, json: nat)
    requires Progress(a, t, out, json)
    ensures |a| == |t| + 1 && json <= |t|
  {
  }

  lemma Unread(a: seq<int>, t: Text, out: Text, json: nat)
    requires Progress(a, t, out, json) && json < |t|
    ensures a[json] == t[json] == t[json..][0]
  {
  }

  lemma Copied(out: Text, s: Text)
    ensures Copies(out, s, out, s)
  {
  }

  lemma LiteralEndless(s: Text)
    requires s == []
    ensures !LiteralClosed(s)
  {
  }

  lemma NotClosedLiteral(t: Text, start: nat, begin: Text, more: Text, s: Text)
    requires start < |t| && t[start] == QUOTE && Copies(begin, t[start + 1..], more, s) && !LiteralClosed(s)
    ensures !Closed(t[start..])
  {
    hide LiteralClosed, Literal;
    assert t[start..][1..] == t[start + 1..];
  }

  /** One character, or a backslash and the one after it, which may be missing. */
  method CopyStep(a: array<int>, ghost t: Text, ghost out: Text, start: nat, at: nat)
    returns (inside: bool, json: nat, into: nat, ghost more: Text)
    requires Progress(a[..], t, out, start) && start < |t| && at == |out|
    modifies a
    ensures inside <==> StepSize(t[start..]) <= |t[start..]|
    ensures inside ==> var s := t[start..]; var n := StepSize(s);
      json == start + n <= |t| && more == out + s[..n] && t[json..] == s[n..] && Progress(a[..], t, more, json) &&
        into == |more|
  {
    json, into, more := start, at, out;
    if a[json] == BACKSLASH {
      CopyOne(a, t, more, json, into);
      json, into, more := json + 1, into + 1, more + [t[json]];
      if json == a.Length - 1 {
        return false, json, into, more;
      }
    }
    CopyOne(a, t, more, json, into);
    json, into, more := json + 1, into + 1, more + [t[json]];
    inside := true;
  }

  lemma CopiesStep(begin: Text, lit: Text, was: Text, s: Text)
    requires s != [] && s[0] != QUOTE && Copies(begin, lit, was, s)
    ensures var n := StepSize(s); if n <= |s| then Copies(begin, lit, was + s[..n], s[n..]) else !LiteralClosed(s)
  {
    var n := StepSize(s);
    LiteralNext(s);
    hide LiteralClosed, Literal;
    if LiteralClosed(s) {
      CharsJoin(was, s[..n], Literal(s[n..]).0);
    }
  }

  lemma LiteralNext(s: Text)
    requires s != [] && s[0] != QUOTE
    ensures var n := StepSize(s); LiteralClosed(s) <==> n <= |s| && LiteralClosed(s[n..])
    ensures LiteralClosed(s) ==>
      var n := StepSize(s); Literal(s) == (s[..n] + Literal(s[n..]).0, Literal(s[n..]).1)
  {
  }

  lemma CharsJoin(a: Text, b: Text, c: Text)
    ensures (a + b) + c == a + (b + c)
  {
  }

  lemma LiteralDone(t: Text, out: Text, start: nat, more: Text, json: nat)
    requires start < json < |t| && t[start] == QUOTE && t[json] == QUOTE
    requires Copies(out + [QUOTE], t[start + 1..], more, t[json..])
    ensures Goes(out, t[start..], more + [QUOTE], t[json + 1..])
  {
    hide LiteralClosed, Literal, Minified, Closed;
    var s := t[start..];
    assert s[1..] == t[start + 1..] && t[json..][1..] == t[json + 1..];
    LiteralEnds(t[json..]);
    LiteralMinified(s);
    assert more + [] == more;
    if Closed(s) {
      var o, m := Literal(s[1..]).0, Minified(t[json + 1..]);
      assert out + ([QUOTE] + o + [QUOTE] + m) == (out + [QUOTE] + o) + [QUOTE] + m;
    }
  }

  lemma LiteralMinified(s: Text)
    requires s != [] && s[0] == QUOTE && LiteralClosed(s[1..])
    ensures var (o, rest) := Literal(s[1..]);
      && (Closed(s) <==> Closed(rest[1..]))
      && (Closed(s) ==> Minified(s) == [QUOTE] + o + [QUOTE] + Minified(rest[1..]))
  {
    hide Literal, LiteralClosed;
  }
}
