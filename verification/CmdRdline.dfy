/**
  The line editor: text left and right of the caret, a kill buffer, and a
  history of zero-terminated lines in one bounded queue.

  The three circular buffers are the queues that `CmdCirbuf` shows them to be.
*/
module CmdRdline {
  const BUF_SIZE: nat := 512

  type Line = seq<int>

  predicate Blank(c: int) { c == 32 || c == 9 }

  // --------------------------------------------------------------------- words

  /** Where the blanks at the end of `s` start. */
  function SkipBack(s: Line, blank: bool): (n: nat)
    ensures n <= |s| && (forall i :: n <= i < |s| ==> Blank(s[i]) == blank) && (n > 0 ==> Blank(s[n - 1]) != blank)
  {
    if s == [] || Blank(s[|s| - 1]) != blank then |s| else SkipBack(s[..|s| - 1], blank)
  }

  /** Where the last word of `s` starts, with the blanks after it. */
  function WordStart(s: Line): (n: nat)
    ensures n <= |s|
  {
    SkipBack(s[..SkipBack(s, true)], false)
  }

  function SkipAhead(s: Line, blank: bool): (n: nat)
    ensures n <= |s| && (forall i :: 0 <= i < n ==> Blank(s[i]) == blank) && (n < |s| ==> Blank(s[n]) != blank)
  {
    if s == [] || Blank(s[0]) != blank then 0 else 1 + SkipAhead(s[1..], blank)
  }

  /** Where the first word of `s` ends, with the blanks before it. */
  function WordEnd(s: Line): (n: nat)
    ensures n <= |s|
  {
    var k := SkipAhead(s, true);
    k + SkipAhead(s[k..], false)
  }

  predicate AllBlank(s: Line) { forall i :: 0 <= i < |s| ==> s[i] == ' ' as int || s[i] == '\t' as int }

  /** Characters without a space or a tab. */
  predicate IsWord(s: Line) { s != [] && ' ' as int !in s && '\t' as int !in s }

  /** The place reached to the left is the start of the last word, with blanks after it or none. */
  lemma WordStartIs(before: Line, word: Line, gap: Line)
    requires IsWord(word) && AllBlank(gap) && (before == [] || AllBlank(before[|before| - 1..]))
    ensures WordStart(before + word + gap) == |before|
    ensures WordStart(gap) == 0
  {
    var s, t := before + word + gap, before + word;
    assert s[|t|..] == gap && s[|t| - 1] == word[|word| - 1];
    SkipBackIs(s, true, |t|);
    assert s[..|t|] == t;
    if before != [] {
      assert before[|before| - 1..][0] == t[|before| - 1];
    }
    SkipBackIs(t, false, |before|);
    SkipBackIs(gap, true, 0);
  }

  lemma SkipBackIs(s: Line, blank: bool, n: nat)
    requires n <= |s| && (forall i :: n <= i < |s| ==> Blank(s[i]) == blank) && (n > 0 ==> Blank(s[n - 1]) != blank)
    ensures SkipBack(s, blank) == n
  {
    if n > 0 {
      assert SkipBack(s, blank) > n - 1;
    }
  }

  /** The place reached to the right is the end of the first word, with blanks before it or none. */
  lemma WordEndIs(gap: Line, word: Line, after: Line)
    requires AllBlank(gap) && IsWord(word) && (after == [] || AllBlank(after[..1]))
    ensures WordEnd(gap + word + after) == |gap| + |word|
    ensures WordEnd(gap) == |gap|
  {
    var s, t := gap + word + after, word + after;
    assert s[..|gap|] == gap && s[|gap|] == word[0] && s[|gap|..] == t;
    SkipAheadIs(s, true, |gap|);
    if after != [] {
      assert after[..1][0] == t[|word|];
    }
    SkipAheadIs(t, false, |word|);
    SkipAheadIs(gap, true, |gap|);
  }

  lemma SkipAheadIs(s: Line, blank: bool, n: nat)
    requires n <= |s| && (forall i :: 0 <= i < n ==> Blank(s[i]) == blank) && (n < |s| ==> Blank(s[n]) != blank)
    ensures SkipAhead(s, blank) == n
  {
    if n < |s| {
      assert SkipAhead(s, blank) <= n;
    }
  }

  // ---------------------------------------------------------------- lines in a queue

  /** A line of the history has no terminator in it and fits the editor. */
  ghost predicate LineOk(l: Line) { 0 !in l && |l| <= BUF_SIZE }

  ghost predicate LinesOk(lines: seq<Line>) { forall i :: 0 <= i < |lines| ==> LineOk(lines[i]) }

  /** Lines with their terminators. */
  ghost function Flat(lines: seq<Line>): seq<int> {
    if lines == [] then [] else Flat(lines[..|lines| - 1]) + lines[|lines| - 1] + [0]
  }

  lemma {:induction false} FlatConcat(a: seq<Line>, b: seq<Line>)
    ensures Flat(a + b) == Flat(a) + Flat(b)
  {
    if b == [] {
      assert a + b == a;
    } else {
      var n := |b| - 1;
      assert (a + b)[..|a + b| - 1] == a + b[..n];
      FlatConcat(a, b[..n]);
    }
  }

  lemma FlatFirst(lines: seq<Line>)
    requires lines != []
    ensures Flat(lines) == lines[0] + [0] + Flat(lines[1..])
  {
    assert lines == [lines[0]] + lines[1..];
    FlatConcat([lines[0]], lines[1..]);
    assert [lines[0]][..0] == [];
  }

  ghost function Zeros(s: seq<int>): nat {
    if s == [] then 0 else Zeros(s[..|s| - 1]) + if s[|s| - 1] == 0 then 1 else 0
  }

  lemma {:induction false} ZerosConcat(a: seq<int>, b: seq<int>)
    ensures Zeros(a + b) == Zeros(a) + Zeros(b)
  {
    if b == [] {
      assert a + b == a;
    } else {
      assert (a + b)[..|a + b| - 1] == a + b[..|b| - 1];
      ZerosConcat(a, b[..|b| - 1]);
    }
  }

  lemma {:induction false} NoZeros(s: seq<int>)
    requires 0 !in s
    ensures Zeros(s) == 0
  {
    if s != [] {
      NoZeros(s[..|s| - 1]);
    }
  }

  lemma {:induction false} FlatZeros(lines: seq<Line>)
    requires LinesOk(lines)
    ensures Zeros(Flat(lines)) == |lines|
  {
    if lines != [] {
      var n := |lines| - 1;
      FlatZeros(lines[..n]);
      NoZeros(lines[n]);
      ZerosConcat(Flat(lines[..n]), lines[n]);
      var s := Flat(lines[..n]) + lines[n];
      assert (s + [0])[..|s|] == s;
    }
  }

  // ------------------------------------------------------------------------ the editor

  datatype Key =
    | LeftKey | RightKey | WordLeftKey | WordRightKey | HomeKey | EndKey
    | BackspaceKey | DeleteKey | DeleteWordLeftKey | DeleteWordRightKey | KillKey | YankKey
    | UpKey | DownKey | ReturnKey | AbortKey | CharKey(c: int) | CompleteKey(text: Line)

  /** What the terminal and the completion callback deliver: no terminators. */
  predicate KeyOk(k: Key) { (k.CharKey? ==> k.c != 0) && (k.CompleteKey? ==> 0 !in k.text) }

  predicate MovesCaret(k: Key) {
    k.LeftKey? || k.RightKey? || k.WordLeftKey? || k.WordRightKey? || k.HomeKey? || k.EndKey?
  }

  predicate Browses(k: Key) { k.UpKey? || k.DownKey? || k.ReturnKey? }

  /** As much of `text` as fits between `l` and `r`. */
  function Fitting(text: Line, l: Line, r: Line): (t: Line)
    ensures t <= text
  {
    if |l| + |r| + |text| <= BUF_SIZE then text
    else if |l| + |r| <= BUF_SIZE then text[..BUF_SIZE - |l| - |r|]
    else []
  }

  /** What a key that does not browse does to the text around the caret. */
  predicate Edits(k: Key, l: Line, r: Line, kill: Line, l': Line, r': Line) {
    && (MovesCaret(k) ==> l' + r' == l + r)
    && match k
       case LeftKey => |l'| == if l == [] then 0 else |l| - 1
       case RightKey => |r'| == if r == [] then 0 else |r| - 1
       case WordLeftKey => |l'| == WordStart(l)
       case WordRightKey => |r'| == |r| - WordEnd(r)
       case HomeKey => l' == []
       case EndKey => r' == []
       case BackspaceKey => r' == r && l' == l[..if l == [] then 0 else |l| - 1]
       case DeleteKey => l' == l && r' == r[if r == [] then 0 else 1..]
       case DeleteWordLeftKey => r' == r && l' == l[..WordStart(l)]
       case DeleteWordRightKey => l' == l && r' == r[WordEnd(r)..]
       case KillKey => l' == l && r' == []
       case YankKey => r' == r && l' == l + Fitting(kill, l, r)
       case CharKey(c) => r' == r && l' == l + Fitting([c], l, r)
       case CompleteKey(text) => r' == r && l' == l + Fitting(text, l, r)
       case AbortKey => l' == [] && r' == []
       case _ => true
  }

  /** Up shows the next older line of `lines`, if there is one. */
  predicate Older(lines: seq<Line>, cur: int, l: Line, r: Line, cur': int, l': Line, r': Line) {
    var k := (if cur > 0 then cur else 0) + 1;
    if k < |lines| then cur' == k && l' == lines[|lines| - 1 - k] && r' == [] else cur' == k - 1 && l' == l && r' == r
  }

  /** Down shows the next newer line, if there is one. */
  predicate Newer(lines: seq<Line>, cur: int, l: Line, r: Line, cur': int, l': Line, r': Line) {
    if cur < 1 then cur' == cur && l' == l && r' == r
    else cur' == cur - 1 && cur <= |lines| && l' == lines[|lines| - cur] && r' == []
  }

  lemma AbortEdits(l: Line, r: Line, kill: Line)
    ensures Edits(AbortKey, l, r, kill, [], [])
  {
  }

  class Rdline {
    const historySize: nat
    var left: Line
    var right: Line
    var kill: Line
    var history: seq<int>
    var cur: int
    var running: bool
    ghost var lines: seq<Line>

    ghost predicate Valid()
      reads this
    {
      && historySize > BUF_SIZE
      && |left| + |right| <= BUF_SIZE && 0 !in left && 0 !in right
      && |kill| <= BUF_SIZE && 0 !in kill
      && HistoryOk() && -1 <= cur && (running && cur >= 0 ==> cur < |lines|)
    }

    ghost predicate HistoryOk()
      reads this
    {
      LinesOk(lines) && history == Flat(lines) && |history| <= historySize
    }

    /** The history without the line that is being edited while browsing. */
    ghost function Past(): seq<Line>
      reads this
    {
      if cur >= 0 && lines != [] then lines[..|lines| - 1] else lines
    }

    /** `rdline_init`. */
    constructor (historySize: nat)
      requires historySize > BUF_SIZE
      ensures Valid() && !running && lines == [] && this.historySize == historySize
    {
      this.historySize := historySize;
      left, right, kill, history := [], [], [], [];
      cur, running, lines := 0, false, [];
    }

    /** `rdline_newline`. */
    method Newline()
      requires Valid()
      modifies this
      ensures Valid() && running && cur == -1 && left == [] && right == [] && lines == old(lines) && kill == old(kill)
    {
      left, right, cur, running := [], [], -1, true;
    }

    // ------------------------------------------------------------------ moving the caret

    method CharLeft()
      requires Valid()
      modifies this`left, this`right
      ensures Valid() && left + right == old(left + right) &&
        left == if old(left) == [] then [] else old(left)[..|old(left)| - 1]
    {
      if left == [] {
        return;
      }
      var tmp := left[|left| - 1];
      left := left[..|left| - 1];
      right := [tmp] + right;
    }

    method CharRight()
      requires Valid()
      modifies this`left, this`right
      ensures Valid() && left + right == old(left + right) && right == if old(right) == [] then [] else old(right)[1..]
    {
      if right == [] {
        return;
      }
      var tmp := right[0];
      right := right[1..];
      left := left + [tmp];
    }

    /** Move over blanks, or over a word, to the left. */
    method SweepLeft(blank: bool)
      requires Valid()
      modifies this`left, this`right
      ensures Valid() && left + right == old(left + right) && left == old(left)[..SkipBack(old(left), blank)]
    {
      while left != [] && Blank(left[|left| - 1]) == blank
        invariant Valid() && left + right == old(left + right)
        invariant |left| <= |old(left)| && left == old(left)[..|left|] &&
          SkipBack(left, blank) == SkipBack(old(left), blank)
        decreases |left|
      {
        CharLeft();
        assert left == old(left)[..|left|];
      }
    }

    /** Alt-B. */
    method WordLeft()
      requires Valid()
      modifies this`left, this`right
      ensures Valid() && left + right == old(left + right) && left == old(left)[..WordStart(old(left))]
    {
      SweepLeft(true);
      SweepLeft(false);
    }

    method SweepRight(blank: bool)
      requires Valid()
      modifies this`left, this`right
      ensures Valid() && left + right == old(left + right) && right == old(right)[SkipAhead(old(right), blank)..]
    {
      var n := 0;
      while right != [] && Blank(right[0]) == blank
        invariant Valid() && left + right == old(left + right)
        invariant n <= |old(right)| && right == old(right)[n..] &&
          n + SkipAhead(right, blank) == SkipAhead(old(right), blank)
        decreases |right|
      {
        CharRight();
        n := n + 1;
        assert right == old(right)[n..];
      }
    }

    /** Alt-F. */
    method WordRight()
      requires Valid()
      modifies this`left, this`right
      ensures Valid() && left + right == old(left + right) && right == old(right)[WordEnd(old(right))..]
    {
      SweepRight(true);
      SweepRight(false);
    }

    /** Ctrl-A. */
    method Home()
      requires Valid()
      modifies this`left, this`right
      ensures Valid() && left == [] && right == old(left + right)
    {
      while left != []
        invariant Valid() && left + right == old(left + right)
        decreases |left|
      {
        CharLeft();
      }
    }

    /** Ctrl-E. */
    method End()
      requires Valid()
      modifies this`left, this`right
      ensures Valid() && right == [] && left == old(left + right)
    {
      while right != []
        invariant Valid() && left + right == old(left + right)
        decreases |right|
      {
        CharRight();
      }
      assert left + [] == left;
    }

    // --------------------------------------------------------------- changing the text

    /** A printable character, unless the line is full. */
    method Insert(c: int)
      requires Valid() && c != 0
      modifies this`left
      ensures Valid() && left == if |old(left)| + |right| < BUF_SIZE then old(left) + [c] else old(left)
    {
      if |left| + |right| >= BUF_SIZE {
        return;
      }
      left := left + [c];
    }

    method Backspace()
      requires Valid()
      modifies this`left
      ensures Valid() && left == if old(left) == [] then [] else old(left)[..|old(left)| - 1]
    {
      if left != [] {
        left := left[..|left| - 1];
      }
    }

    method Delete()
      requires Valid()
      modifies this`right
      ensures Valid() && right == if old(right) == [] then [] else old(right)[1..]
    {
      if right != [] {
        right := right[1..];
      }
    }

    method EraseLeft(blank: bool)
      requires Valid()
      modifies this`left
      ensures Valid() && left == old(left)[..SkipBack(old(left), blank)]
    {
      while left != [] && Blank(left[|left| - 1]) == blank
        invariant Valid() && |left| <= |old(left)| && left == old(left)[..|left|] &&
          SkipBack(left, blank) == SkipBack(old(left), blank)
        decreases |left|
      {
        Backspace();
      }
    }

    /** Ctrl-W. */
    method DeleteWordLeft()
      requires Valid()
      modifies this`left
      ensures Valid() && left == old(left)[..WordStart(old(left))]
    {
      EraseLeft(true);
      EraseLeft(false);
    }

    method EraseRight(blank: bool)
      requires Valid()
      modifies this`right
      ensures Valid() && right == old(right)[SkipAhead(old(right), blank)..]
    {
      var n := 0;
      while right != [] && Blank(right[0]) == blank
        invariant Valid() && n <= |old(right)| && right == old(right)[n..] &&
          n + SkipAhead(right, blank) == SkipAhead(old(right), blank)
        decreases |right|
      {
        Delete();
        n := n + 1;
        assert right == old(right)[n..];
      }
    }

    /** Alt-D. */
    method DeleteWordRight()
      requires Valid()
      modifies this`right
      ensures Valid() && right == old(right)[WordEnd(old(right))..]
    {
      EraseRight(true);
      EraseRight(false);
    }

    /** Ctrl-K. */
    method Kill()
      requires Valid()
      modifies this`right, this`kill
      ensures Valid() && kill == old(right) && right == []
    {
      kill := right;
      right := [];
    }

    /** Add characters while there is room: Ctrl-Y with the kill buffer, completion with its text. */
    method Paste(text: Line)
      requires Valid() && 0 !in text
      modifies this`left
      ensures Valid()
      ensures var room := BUF_SIZE - |old(left)| - |right|;
        left == old(left) + text[..if |text| < room then |text| else room]
    {
      var i := 0;
      while |right| + |left| < BUF_SIZE && i < |text|
        invariant Valid() && i <= |text| && left == old(left) + text[..i]
      {
        left := left + [text[i]];
        i := i + 1;
      }
    }

    /** Ctrl-K then Ctrl-Y gives the text back. */
    method KillThenYank()
      requires Valid()
      modifies this
      ensures Valid() && left + right == old(left + right)
    {
      Kill();
      Paste(kill);
      assert left + [] == left;
    }

    // ----------------------------------------------------------------------- the keys

    /** The keys that move the caret. */
    method MoveCaret(k: Key)
      requires Valid() && MovesCaret(k)
      modifies this`left, this`right
      ensures Valid() && Edits(k, old(left), old(right), kill, left, right)
    {
      hide Flat, LinesOk, WordStart, WordEnd;
      match k
      case LeftKey => CharLeft();
      case RightKey => CharRight();
      case WordLeftKey => WordLeft();
      case WordRightKey => WordRight();
      case HomeKey => Home();
      case EndKey => End();
    }

    /** The keys that change the text. */
    method EditText(k: Key)
      requires Valid() && KeyOk(k) && !MovesCaret(k) && !Browses(k) && !k.AbortKey?
      modifies this`left, this`right, this`kill
      ensures Valid() && Edits(k, old(left), old(right), old(kill), left, right)
      ensures kill == if k.KillKey? then old(right) else old(kill)
    {
      hide Flat, LinesOk, WordStart, WordEnd;
      match k
      case BackspaceKey => Backspace();
      case DeleteKey => Delete();
      case DeleteWordLeftKey => DeleteWordLeft();
      case DeleteWordRightKey => DeleteWordRight();
      case KillKey => Kill();
      case YankKey => Paste(kill);
      case CharKey(c) => Insert(c);
      case CompleteKey(text) => Paste(text);
    }

    /** `rdline_char_in` for one key. */
    method Press(k: Key)
      requires Valid() && KeyOk(k)
      modifies this
      ensures Valid()
      ensures !old(running) ==>
        left == old(left) && right == old(right) && lines == old(lines) && running == old(running)
      ensures old(running) && !Browses(k) ==>
        Edits(k, old(left), old(right), old(kill), left, right) && lines == old(lines) && running
      ensures kill == if old(running) && k.KillKey? then old(right) else old(kill)
      ensures old(running) && k.ReturnKey? ==> !running && lines == old(Past())
      ensures old(running) && k.UpKey? ==> running && Older(lines, old(cur), old(left), old(right), cur, left, right)
      ensures old(running) && k.UpKey? ==>
        lines == if old(cur) > 0 then old(lines)
          else Kept(old(Past()), old(left + right), historySize) + [FirstLine(old(left + right))]
      ensures old(running) && k.DownKey? ==>
        running && lines == old(lines) && Newer(lines, old(cur), old(left), old(right), cur, left, right)
    {
      hide Flat, LinesOk, Edits, Evicted, FirstLine, Kept, Older, Newer;
      if !running {
        return;
      }
      AbortEdits(left, right, kill);
      if k.UpKey? {
        Up();
      } else if k.DownKey? {
        Down();
      } else if k.ReturnKey? {
        var text, len := Return();
      } else if k.AbortKey? {
        Newline();
      } else if MovesCaret(k) {
        MoveCaret(k);
      } else {
        EditText(k);
      }
    }

    /** Over every sequence of keys the text stays within the buffer and the history is a list of whole lines. */
    method PressAll(keys: seq<Key>)
      requires Valid() && forall i :: 0 <= i < |keys| ==> KeyOk(keys[i])
      modifies this
      ensures Valid()
      ensures (forall i :: 0 <= i < |keys| ==> MovesCaret(keys[i])) ==>
        left + right == old(left + right) && lines == old(lines) && kill == old(kill) && running == old(running)
    {
      for i := 0 to |keys|
        invariant Valid()
        invariant (forall j :: 0 <= j < |keys| ==> MovesCaret(keys[j])) ==>
          left + right == old(left + right) && lines == old(lines) && kill == old(kill) && running == old(running)
      {
        Press(keys[i]);
      }
    }

    // ----------------------------------------------------------------------- the history

    /** `rdline_remove_old_history_item`: the oldest line goes. */
    method RemoveOld()
      requires HistoryOk() && lines != []
      modifies this`history, this`lines
      ensures HistoryOk() && lines == old(lines)[1..]
    {
      ghost var first := lines[0];
      FlatFirst(lines);
      ghost var rest := Flat(lines[1..]);
      var n := 0;
      while history != []
        modifies this`history
        invariant n <= |first| && history == (first + [0] + rest)[n..]
        decreases |history|
      {
        var tmp := history[0];
        history := history[1..];
        OldestChar(first, rest, n);
        n := n + 1;
        if tmp == 0 {
          break;
        }
      }
      lines := lines[1..];
    }

    /** `rdline_remove_first_history_item`: the newest line goes. */
    method RemoveNewest()
      requires HistoryOk()
      modifies this`history, this`lines
      ensures HistoryOk() && lines == if old(lines) == [] then [] else old(lines)[..|old(lines)| - 1]
    {
      if history == [] {
        NothingFlat(lines);
        return;
      }
      ghost var n := |lines| - 1;
      ghost var rest, last := Flat(lines[..n]), lines[n];
      history := history[..|history| - 1];
      assert history == rest + last;
      ghost var k: nat := |last|;
      while history != [] && history[|history| - 1] != 0
        modifies this`history
        invariant k <= |last| && history == rest + last[..k]
        decreases |history|
      {
        EndsWithZero(lines[..n], last[..k]);
        history := history[..|history| - 1];
        k := k - 1;
      }
      LastRemoved(rest, last, k);
      assert rest + [] == rest;
      lines := lines[..n];
    }

    /** `rdline_get_history_size`. */
    method Size() returns (n: nat)
      requires HistoryOk()
      ensures n == |lines|
    {
      n := 0;
      for i := 0 to |history|
        invariant n == Zeros(history[..i])
      {
        assert history[..i + 1][..i] == history[..i];
        if history[i] == 0 {
          n := n + 1;
        }
      }
      assert history[..|history|] == history;
      FlatZeros(lines);
    }

    /** `rdline_get_history_item`: where the line that is `idx` lines old starts. */
    method GetItem(idx: nat) returns (found: bool, pos: nat)
      requires HistoryOk()
      ensures found <==> idx < |lines|
      ensures found ==> var l := lines[|lines| - 1 - idx];
        pos + |l| < |history| && history[pos..pos + |l|] == l && history[pos + |l|] == 0
    {
      hide Flat, LinesOk;
      var len := Size();
      if idx >= len {
        return false, 0;
      }
      ghost var k, at := 0, 0;
      LineAt(lines, 0);
      NoLines(lines);
      var i := 0;
      while i < |history| && idx != len - 1
        invariant 0 <= k < |lines| && len == |lines| - k && idx <= len - 1
        invariant at == |Flat(lines[..k])| && at <= i <= at + |lines[k]| && i < |history|
        invariant i > at ==> idx < len - 1
        decreases |history| - i
      {
        LineAt(lines, k);
        InLine(lines, k, i);
        if history[i] == 0 {
          len := len - 1;
          k := k + 1;
          at := i + 1;
          LineAt(lines, k);
        }
        i := i + 1;
      }
      LineAt(lines, k);
      return true, i;
    }

    /** `rdline_add_history`: the oldest lines make room for the new one, and no more of them than needed. */
    method AddHistory(text: Line) returns (ok: bool)
      requires HistoryOk() && 0 !in text
      modifies this`history, this`lines
      ensures HistoryOk() && (ok <==> |FirstLine(text)| < historySize)
      ensures lines == if ok then old(lines)[Evicted(old(lines), historySize - |FirstLine(text)|)..] + [FirstLine(text)]
        else old(lines)
    {
      hide FirstLine, Flat, LinesOk, Evicted;
      var line := CutLine(text);
      FirstLineFits(text);
      if |line| >= historySize {
        return false;
      }
      MakeRoom(|line|);
      PushLine(line);
      return true;
    }

    /** The oldest lines go until a line of `n` characters fits. */
    method MakeRoom(n: nat)
      requires HistoryOk() && n < historySize
      modifies this`history, this`lines
      ensures HistoryOk() && n < historySize - |history|
      ensures lines == old(lines)[Evicted(old(lines), historySize - n)..]
    {
      ghost var room, gone := historySize - n, 0;
      while n >= historySize - |history|
        modifies this`history, this`lines
        invariant HistoryOk() && gone <= |old(lines)| && lines == old(lines)[gone..]
        invariant gone + Evicted(lines, room) == Evicted(old(lines), room)
        decreases |lines|
      {
        RemoveOld();
        gone := gone + 1;
      }
    }

    method PushLine(line: Line)
      requires HistoryOk() && LineOk(line) && |line| < historySize - |history|
      modifies this`history, this`lines
      ensures HistoryOk() && lines == old(lines) + [line]
    {
      history := history + line;
      history := history + [0];
      lines := lines + [line];
      assert lines[..|lines| - 1] == old(lines);
    }

    method ReadLine(pos: nat, ghost l: Line) returns (text: Line)
      requires pos + |l| < |history| && history[pos..pos + |l|] == l && history[pos + |l|] == 0 && LineOk(l)
      ensures text == l
    {
      text := [];
      ghost var seen := history[pos..pos + |l|];
      assert forall i :: 0 <= i < |l| ==> seen[i] == history[pos + i];
      assert forall i :: 0 <= i < |l| ==> l[i] in l;
      while |text| < BUF_SIZE && history[pos + |text|] != 0
        invariant |text| <= |l| && text == l[..|text|]
        decreases |l| - |text|
      {
        text := text + [history[pos + |text|]];
      }
    }

    // ------------------------------------------------------------------------- browsing

    /** The line that is `idx` lines old becomes the text, if there is one. */
    method Recall(idx: nat) returns (found: bool)
      requires Valid()
      modifies this`left, this`right
      ensures Valid() && (found <==> idx < |lines|)
      ensures found ==> left == lines[|lines| - 1 - idx] && right == []
      ensures !found ==> left == old(left) && right == old(right)
    {
      var pos: nat;
      found, pos := GetItem(idx);
      if found {
        assert LineOk(lines[|lines| - 1 - idx]);
        left := ReadLine(pos, lines[|lines| - 1 - idx]);
        right := [];
      }
    }

    /** The text becomes the newest line, in place of the one saved before. */
    method SaveText()
      requires Valid() && running && cur <= 0
      modifies this`cur, this`history, this`lines
      ensures Valid() && cur == 0
      ensures lines == Kept(old(Past()), left + right, historySize) + [FirstLine(left + right)]
    {
      hide Flat, LinesOk, Evicted, FirstLine;
      if cur == 0 {
        RemoveNewest();
      }
      FirstLineFits(left + right);
      var ok := AddHistory(left + right);
      cur := 0;
    }

    /** Up: the text is saved as the newest line when browsing starts; older lines are then shown. */
    method Up()
      requires Valid() && running
      modifies this
      ensures Valid() && running && cur >= 0 && kill == old(kill)
      ensures lines == if old(cur) > 0 then old(lines)
        else Kept(old(Past()), old(left + right), historySize) + [FirstLine(old(left + right))]
      ensures Older(lines, old(cur), old(left), old(right), cur, left, right)
    {
      hide Flat, LinesOk, Evicted, FirstLine;
      if cur <= 0 {
        SaveText();
      }
      var found := Recall(cur + 1);
      if found {
        cur := cur + 1;
      }
    }

    /** Down: newer lines, down to the saved text. */
    method Down()
      requires Valid() && running
      modifies this
      ensures Valid() && running && kill == old(kill) && lines == old(lines)
      ensures Newer(lines, old(cur), old(left), old(right), cur, left, right)
    {
      if cur - 1 < 0 {
        return;
      }
      cur := cur - 1;
      var found := Recall(cur);
    }

    /**
      Return: the text is complete, and the line saved for browsing goes. The callback is given `len` for the length of
      text and terminator, which it is if and only if the caret is at the end.
    */
    method Return() returns (text: Line, len: nat)
      requires Valid() && running
      modifies this
      ensures len == |old(left)| + 2 && (len == |text| + 1 <==> old(right) == [])
      ensures Valid() && !running && text == old(left + right) + [10] && lines == old(Past()) && kill == old(kill)
    {
      text, len := left + right + [10], |left| + 2;
      running := false;
      if cur != -1 {
        RemoveNewest();
      }
    }

    /**
      While browsing from text `t0` with history `h`: `h` without the lines that had to make room, and the saved text.
    */
    ghost predicate Browsing(h: seq<Line>, t0: Line)
      reads this
    {
      historySize > BUF_SIZE &&
      if cur == -1 then lines == h && left + right == t0
      else
        && lines == Kept(h, t0, historySize) + [FirstLine(t0)]
        && (cur == 0 ==> FirstLine(left + right) == FirstLine(t0))
    }

    method StepUp(ghost h: seq<Line>, ghost t0: Line)
      requires Valid() && running && Browsing(h, t0)
      modifies this
      ensures Valid() && running && Browsing(h, t0) && cur >= 0 && kill == old(kill)
    {
      hide Flat, FirstLine, LinesOk, Evicted;
      KeptFits(h, t0, historySize);
      if cur <= 0 {
        PastBrowsing(h, t0);
      }
      Up();
    }

    /** What is saved again when browsing comes back to the text. */
    lemma PastBrowsing(h: seq<Line>, t0: Line)
      requires Valid() && running && Browsing(h, t0) && cur <= 0
      ensures Past() == if cur == -1 then h else Kept(h, t0, historySize)
      ensures FirstLine(left + right) == FirstLine(t0)
    {
      if cur == 0 {
        assert (Kept(h, t0, historySize) + [FirstLine(t0)])[..|lines| - 1] == Kept(h, t0, historySize);
      }
    }

    method StepDown(ghost h: seq<Line>, ghost t0: Line)
      requires Valid() && running && Browsing(h, t0)
      modifies this
      ensures Valid() && running && Browsing(h, t0) && (cur >= 0 <==> old(cur) >= 0) && kill == old(kill)
    {
      hide Flat, FirstLine, LinesOk, Evicted, Kept;
      FirstLineAgain(t0);
      Down();
      assert right == [] ==> left + right == left;
    }

    /**
      Any browsing up and down followed by return. Going up even once makes room for the text, so that the
      history is as it was if and only if browsing never went up or the text fits beside it.
    */
    method Browse(ups: seq<bool>)
      requires Valid() && running && cur == -1
      modifies this
      ensures Valid() && !running && kill == old(kill)
      ensures lines == if true in ups then Kept(old(lines), old(left + right), historySize) else old(lines)
      ensures lines == old(lines) <==> true !in ups || |Flat(old(lines))| + |FirstLine(old(left + right))| < historySize
    {
      hide Flat, Evicted, FirstLine, LinesOk, Kept;
      ghost var h, t0 := lines, left + right;
      for i := 0 to |ups|
        invariant Valid() && running && kill == old(kill) && Browsing(h, t0) && (cur >= 0 <==> true in ups[..i])
      {
        assert ups[..i + 1] == ups[..i] + [ups[i]];
        if ups[i] {
          StepUp(h, t0);
        } else {
          StepDown(h, t0);
        }
      }
      assert ups[..|ups|] == ups;
      assert cur >= 0 ==> lines[..|lines| - 1] == Kept(h, t0, historySize);
      var text, len := Return();
      KeptAll(h, t0, historySize);
    }
  }

  /** The newest lines of `h` that fit beside the saved text. */
  ghost function Kept(h: seq<Line>, text: Line, size: nat): seq<Line>
    requires size > BUF_SIZE
  {
    h[Evicted(h, size - |FirstLine(text)|)..]
  }

  /** All lines are kept if and only if they fit. */
  lemma KeptAll(h: seq<Line>, text: Line, size: nat)
    requires size > BUF_SIZE
    ensures Kept(h, text, size) == h <==> |Flat(h)| + |FirstLine(text)| < size
  {
    var k := Evicted(h, size - |FirstLine(text)|);
    if k == 0 {
      assert h[0..] == h;
    } else {
      assert |h[k..]| < |h|;
      assert h[0..] == h;
    }
  }

  /** What was kept fits, so that saving the same text again evicts nothing. */
  lemma KeptFits(h: seq<Line>, text: Line, size: nat)
    requires size > BUF_SIZE
    ensures var k := Kept(h, text, size); k[Evicted(k, size - |FirstLine(text)|)..] == k
  {
    var k := Kept(h, text, size);
    NoEviction(k, size - |FirstLine(text)|);
  }

  lemma FirstLineAgain(text: Line)
    ensures FirstLine(FirstLine(text)) == FirstLine(text)
  {
    var t := FirstLine(text);
    BeforeTwice(if |text| < BUF_SIZE then text else text[..BUF_SIZE]);
    assert |t| == BUF_SIZE ==> t[..BUF_SIZE] == t;
  }

  lemma {:induction false} BeforeTwice(t: Line)
    ensures BeforeNewline(BeforeNewline(t)) == BeforeNewline(t)
  {
    if t != [] && t[0] != 10 {
      BeforeTwice(t[1..]);
      assert BeforeNewline(t)[1..] == BeforeNewline(t[1..]);
    }
  }

  /** The text up to the end of the line, as far as the editor goes. */
  function FirstLine(text: Line): (r: Line)
    ensures r <= text && |r| <= BUF_SIZE && (0 !in text ==> LineOk(r))
  {
    BeforeNewline(if |text| < BUF_SIZE then text else text[..BUF_SIZE])
  }

  function BeforeNewline(text: Line): (r: Line)
    ensures r <= text && '\n' as int !in r && (|r| < |text| ==> text[|r|] == '\n' as int)
  {
    if text == [] || text[0] == 10 then [] else [text[0]] + BeforeNewline(text[1..])
  }

  lemma FirstLineFits(text: Line)
    ensures |FirstLine(text)| <= BUF_SIZE
  {
  }

  /** The loop that finds the length of the line. */
  method CutLine(text: Line) returns (line: Line)
    ensures line == FirstLine(text)
  {
    line := CutAtNewline(if |text| < BUF_SIZE then text else text[..BUF_SIZE]);
  }

  method CutAtNewline(t: Line) returns (line: Line)
    ensures line == BeforeNewline(t)
  {
    hide BeforeNewline;
    var i := 0;
    while i < |t| && t[i] != 10
      invariant i <= |t| && forall k :: 0 <= k < i ==> t[k] != 10
    {
      i := i + 1;
    }
    NewlineAt(t, i);
    line := t[..i];
  }

  lemma {:induction false} NewlineAt(t: Line, i: nat)
    requires i <= |t| && (forall k :: 0 <= k < i ==> t[k] != 10) && (i < |t| ==> t[i] == 10)
    ensures BeforeNewline(t) == t[..i]
    decreases i
  {
    if i > 0 {
      NewlineAt(t[1..], i - 1);
      assert t[..i] == [t[0]] + t[1..][..i - 1];
    }
  }

  /** How many of the oldest lines must go so that the rest is shorter than `room`. */
  ghost function Evicted(lines: seq<Line>, room: nat): (k: nat)
    ensures k <= |lines|
    ensures room > 0 ==> |Flat(lines[k..])| < room
    ensures forall i :: 0 <= i < k ==> |Flat(lines[i..])| >= room
    decreases |lines|
  {
    assert lines[0..] == lines;
    if |Flat(lines)| < room || lines == [] then 0
    else
      var k := Evicted(lines[1..], room);
      assert lines[1..][k..] == lines[1 + k..];
      assert forall i {:trigger lines[i..]} :: 1 <= i < 1 + k ==> lines[i..] == lines[1..][i - 1..];
      1 + k
  }

  lemma NoEviction(lines: seq<Line>, room: nat)
    requires |Flat(lines)| < room
    ensures Evicted(lines, room) == 0 && lines[0..] == lines
  {
  }

  /** Inside the oldest line there is no terminator; after it comes one, and then the rest. */
  lemma OldestChar(first: Line, rest: seq<int>, n: nat)
    requires 0 !in first && n <= |first|
    ensures var h := first + [0] + rest;
      && (h[n] == 0 <==> n == |first|) && h[n..][1..] == h[n + 1..] && h[|first| + 1..] == rest
  {
    assert n < |first| ==> first[n] in first;
  }

  lemma NoLines(lines: seq<Line>)
    ensures |Flat(lines[..0])| == 0
  {
  }

  lemma NothingFlat(lines: seq<Line>)
    requires Flat(lines) == []
    ensures lines == []
  {
  }

  /** Without a last line the queue ends with a terminator. */
  lemma EndsWithZero(lines: seq<Line>, last: Line)
    requires Flat(lines) + last != []
    ensures last == [] ==> (Flat(lines) + last)[|Flat(lines) + last| - 1] == 0
  {
    assert last == [] ==> Flat(lines) + last == Flat(lines);
  }

  lemma LastRemoved(rest: seq<int>, last: Line, k: nat)
    requires 0 !in last && k <= |last|
    ensures k > 0 ==> (rest + last[..k])[|rest| + k - 1] != 0
  {
    assert k > 0 ==> (rest + last[..k])[|rest| + k - 1] == last[k - 1] && last[k - 1] in last;
  }

  /** The text of line `k` in the queue. */
  lemma LineAt(lines: seq<Line>, k: nat)
    requires k < |lines|
    ensures var at := |Flat(lines[..k])|; var l := lines[k];
      && at + |l| < |Flat(lines)| && Flat(lines)[at..at + |l|] == l && Flat(lines)[at + |l|] == 0
      && |Flat(lines[..k + 1])| == at + |l| + 1
      && (k + 1 == |lines| ==> at + |l| + 1 == |Flat(lines)|)
  {
    var at, l := |Flat(lines[..k])|, lines[k];
    assert lines[..k + 1][..k] == lines[..k];
    assert lines == lines[..k + 1] + lines[k + 1..];
    FlatConcat(lines[..k + 1], lines[k + 1..]);
    assert Flat(lines) == Flat(lines[..k]) + l + [0] + Flat(lines[k + 1..]);
    assert k + 1 == |lines| ==> lines[k + 1..] == [];
  }

  lemma InLine(lines: seq<Line>, k: nat, i: nat)
    requires LinesOk(lines) && k < |lines| && |Flat(lines[..k])| <= i <= |Flat(lines[..k])| + |lines[k]| &&
      i < |Flat(lines)|
    ensures Flat(lines)[i] == 0 <==> i == |Flat(lines[..k])| + |lines[k]|
  {
    LineAt(lines, k);
    var at, l := |Flat(lines[..k])|, lines[k];
    if i < at + |l| {
      assert Flat(lines)[at..at + |l|][i - at] == l[i - at];
      assert l[i - at] in l;
    }
  }
}
