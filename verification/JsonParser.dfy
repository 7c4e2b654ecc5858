/**
  The parser as it runs: a cursor moves over the text, and loops collect the
  digits, characters, elements and members.
*/
module JsonParser {
  import opened Basics
  import opened Json
  import opened JsonSafe

  lemma TailTail(t: Text, i: nat, k: nat)
    ensures Tail(Tail(t, i), k) == Tail(t, i + k)
    ensures At(Tail(t, i), k) == At(t, i + k)
  {
  }

  lemma TailStep(t: Text, i: nat)
    requires i < |t|
    ensures Tail(t, i) != [] && Tail(t, i)[0] == t[i] && Tail(t, i)[1..] == Tail(t, i + 1)
  {
  }

  method SkipAt(t: Text, i: nat) returns (j: nat)
    ensures i <= j && Tail(t, j) == Skip(Tail(t, i))
  {
    j := i;
    while j < |t| && t[j] <= 32
      invariant i <= j && Skip(Tail(t, j)) == Skip(Tail(t, i))
    {
      TailStep(t, j);
      j := j + 1;
    }
  }

  method DigitsAt(t: Text, i: nat, acc: nat) returns (n: nat, j: nat)
    ensures i <= j && Digits(acc, Tail(t, i)) == (n, Tail(t, j))
  {
    n, j := acc, i;
    while j < |t| && IsDigit(t[j])
      invariant i <= j && Digits(n, Tail(t, j)) == Digits(acc, Tail(t, i))
    {
      TailStep(t, j);
      n := n * 10 + (t[j] - ZERO);
      j := j + 1;
    }
  }

  method ExponentAt(t: Text, i: nat) returns (e: int, j: nat)
    ensures ParseExponent(Tail(t, i)) == (e, Tail(t, j))
  {
    e, j := 0, i;
    TailTail(t, i, 0);
    TailTail(t, i, 1);
    TailTail(t, i, 2);
    if At(t, i) == 101 || At(t, i) == 69 {
      TailStep(t, i);
      j := i + 1;
      var neg := At(t, j) == MINUS;
      if At(t, j) == 43 || neg {
        j := j + 1;
      }
      var n: nat;
      n, j := DigitsAt(t, j, 0);
      e := Signed(neg, n);
    }
  }

  method IntegerAt(t: Text, i: nat) returns (n: nat, j: nat)
    ensures IntegerPart(Tail(t, i)) == (n, Tail(t, j))
  {
    n, j := 0, i;
    TailTail(t, i, 0);
    if At(t, i) == ZERO {
      TailStep(t, i);
      j := i + 1;
    }
    TailTail(t, j, 0);
    if ZERO < At(t, j) && IsDigit(At(t, j)) {
      n, j := DigitsAt(t, j, 0);
    }
  }

  method FractionAt(t: Text, i: nat, n: nat) returns (m: nat, scale: int, j: nat)
    ensures FractionPart(n, Tail(t, i)) == (m, scale, Tail(t, j))
  {
    m, scale, j := n, 0, i;
    TailTail(t, i, 0);
    TailTail(t, i, 1);
    if At(t, i) == DOT && IsDigit(At(t, i + 1)) {
      TailStep(t, i);
      m, j := DigitsAt(t, i + 1, n);
      scale := |Tail(t, j)| - |Tail(t, i)| + 1;
    }
  }

  /** `parse_number`. */
  method NumberAt(t: Text, i: nat) returns (v: Value, j: nat)
    requires i < |t| && (t[i] == MINUS || IsDigit(t[i]))
    ensures (v, Tail(t, j)) == ParseNumber(Tail(t, i))
  {
    hide IntegerPart, FractionPart, ParseExponent, Scaled;
    TailStep(t, i);
    var neg := t[i] == MINUS;
    var start := if neg then i + 1 else i;
    assert Tail(t, start) == if neg then Tail(t, i)[1..] else Tail(t, i);
    var n, a := IntegerAt(t, start);
    var m, scale, b := FractionAt(t, a, n);
    var e, c := ExponentAt(t, b);
    return Number(Scaled(Signed(neg, m), scale + e)), c;
  }

  lemma MeasureStep(t: Text, j: nat)
    requires j < |t| && t[j] != QUOTE
    ensures var s, n := Tail(t, j), if t[j] == BACKSLASH then 2 else 1;
      if j + n > |t| then Measured(s) == None
      else
        && Measured(s).Some? == Measured(Tail(t, j + n)).Some?
        && (Measured(s).Some? ==> Measured(s).value.0 == 1 + Measured(Tail(t, j + n)).value.0)
  {
    assert j + 2 <= |t| ==> Tail(t, j)[2..] == Tail(t, j + 2);
    TailStep(t, j);
  }

  lemma MeasureEnd(t: Text, j: nat)
    requires j == |t| || (j < |t| && t[j] == QUOTE)
    ensures Measured(Tail(t, j)).Some? && Measured(Tail(t, j)).value.0 == 0
  {
  }

  /** The first loop of `parse_string`, after the opening quote. */
  method MeasureAt(t: Text, i: nat) returns (inside: bool, len: nat)
    requires i <= |t|
    ensures inside <==> Measured(Tail(t, i)).Some?
    ensures inside ==> Measured(Tail(t, i)).value.0 == len
  {
    hide Measured, Tail;
    var j := i;
    len := 0;
    while j < |t| && t[j] != QUOTE
      invariant i <= j <= |t| && (Measured(Tail(t, i)).Some? <==> Measured(Tail(t, j)).Some?)
      invariant Measured(Tail(t, i)).Some? ==> Measured(Tail(t, i)).value.0 == len + Measured(Tail(t, j)).value.0
    {
      MeasureStep(t, j);
      len := len + 1;
      j := if t[j] == BACKSLASH then j + 2 else j + 1;
      if j > |t| {
        return false, len;
      }
    }
    MeasureEnd(t, j);
    return true, len;
  }

  /** The second loop of `parse_string`, which writes to a buffer for `room` bytes. */
  method CharsAt(t: Text, i: nat, room: nat) returns (inside: bool, out: Text, j: nat)
    requires i <= |t|
    ensures inside <==> Stays(Tail(t, i)) && |ParseChars(Tail(t, i)).0| <= room
    ensures inside ==> ParseChars(Tail(t, i)) == (out, Tail(t, j))
  {
    hide Escape, ParseChars, Stays, Tail;
    out, j := [], i;
    assert [] + ParseChars(Tail(t, i)).0 == ParseChars(Tail(t, i)).0;
    while j < |t| && t[j] != QUOTE
      invariant i <= j <= |t| && out + ParseChars(Tail(t, j)).0 == ParseChars(Tail(t, i)).0 && |out| <= room
      invariant ParseChars(Tail(t, j)).1 == ParseChars(Tail(t, i)).1
      invariant Stays(Tail(t, j)) <==> Stays(Tail(t, i))
      decreases |t| - j
    {
      TailStep(t, j);
      var bytes, n := [t[j]], 1;
      if t[j] == BACKSLASH {
        var e := Escape(Tail(t, j + 1));
        bytes, n := e.0, e.1 + 1;
      }
      TailTail(t, j, n);
      CharsUnfold(Tail(t, j), bytes, n);
      CharsStep(out, bytes, ParseChars(Tail(t, j + n)).0);
      StaysStep(t, j, n);
      out, j := out + bytes, j + n;
      if j > |t| || |out| > room {
        return false, out, j;
      }
    }
    TailTail(t, j, 0);
    CharsEnd(Tail(t, j));
    StaysEnd(Tail(t, j));
    assert out + [] == out;
    return true, out, j;
  }

  lemma StaysStep(t: Text, j: nat, n: nat)
    requires j < |t| && t[j] != QUOTE && n == StepLength(Tail(t, j))
    ensures Stays(Tail(t, j)) <==> j + n <= |t| && Stays(Tail(t, j + n))
  {
    hide Escape;
    assert j + n <= |t| ==> Tail(t, j)[n..] == Tail(t, j + n);
  }

  lemma StaysEnd(s: Text)
    requires At(s, 0) == 0 || At(s, 0) == QUOTE
    ensures Stays(s)
  {
  }

  lemma CharsUnfold(s: Text, bytes: Text, n: nat)
    requires s != [] && s[0] != QUOTE
    requires (bytes, n) == if s[0] == BACKSLASH then var (b, k) := Escape(s[1..]); (b, k + 1) else ([s[0]], 1)
    ensures ParseChars(s) == (bytes + ParseChars(Tail(s, n)).0, ParseChars(Tail(s, n)).1)
  {
    hide Escape;
  }

  lemma CharsEnd(s: Text)
    requires At(s, 0) == 0 || At(s, 0) == QUOTE
    ensures ParseChars(s) == ([], s)
  {
  }

  lemma CharsStep(a: Text, b: Text, c: Text)
    ensures a + (b + c) == (a + b) + c
  {
  }

  /** `parse_string`. */
  method StringAt(t: Text, i: nat) returns (inside: bool, ok: bool, s: Text, j: nat)
    ensures inside <==> SafeString(Tail(t, i))
    ensures inside ==> (ok <==> ParseString(Tail(t, i)).Some?)
    ensures ok ==> inside && ParseString(Tail(t, i)) == Some((s, Tail(t, j)))
  {
    hide Measured, Stays, Tail, ParseChars;
    TailTail(t, i, 0);
    ok, s, j := false, [], i;
    if At(t, i) != QUOTE {
      return true, ok, s, j;
    }
    TailStep(t, i);
    var len: nat;
    inside, len := MeasureAt(t, i + 1);
    if !inside {
      return;
    }
    inside, s, j := CharsAt(t, i + 1, len);
    TailTail(t, j, 1);
    return inside, inside, s, j + 1;
  }

  predicate WordAt(t: Text, i: nat, word: Text) { i + |word| <= |t| && t[i..i + |word|] == word }

  lemma WordStarts(t: Text, i: nat, word: Text)
    requires word != []
    ensures WordAt(t, i, word) <==> StartsWith(Tail(t, i), word)
  {
    assert i + |word| <= |t| ==> Tail(t, i)[..|word|] == t[i..i + |word|];
  }

  /** A word: what it stands for and its length. */
  function WordOf(t: Text, i: nat): Option<(Value, nat)> {
    if WordAt(t, i, NULL_TEXT) then Some((Null, 4))
    else if WordAt(t, i, FALSE_TEXT) then Some((False, 5))
    else if WordAt(t, i, TRUE_TEXT) then Some((True, 4))
    else None
  }

  lemma WordCase(t: Text, i: nat, v: Value, n: nat)
    requires WordOf(t, i) == Some((v, n))
    ensures ParseValue(Tail(t, i)) == Some((v, Tail(t, i + n))) && SafeValue(Tail(t, i))
  {
    hide WordAt, StringSafe, SafeArray, SafeObject, ParseNumber, ParseString, ParseArray, ParseObject;
    WordStarts(t, i, NULL_TEXT);
    WordStarts(t, i, FALSE_TEXT);
    WordStarts(t, i, TRUE_TEXT);
    TailTail(t, i, n);
    WordBegins(t, i, n);
  }

  lemma WordBegins(t: Text, i: nat, n: nat)
    requires WordOf(t, i).Some? && WordOf(t, i).value.1 == n
    ensures i + n <= |t| && Tail(t, i)[n..] == Tail(t, i + n)
    ensures At(Tail(t, i), 0) == 110 || At(Tail(t, i), 0) == 102 || At(Tail(t, i), 0) == 116
  {
    assert t[i..i + n][0] == t[i];
  }

  lemma OtherCase(t: Text, i: nat)
    requires WordOf(t, i) == None
    ensures var s, c := Tail(t, i), At(Tail(t, i), 0);
      && c == At(t, i)
      && (c == QUOTE ==>
           && ParseString(s).Some? && (SafeValue(s) <==> SafeString(s))
           && ParseValue(s) == Some((String(ParseString(s).value.0), ParseString(s).value.1)))
      && (c == MINUS || IsDigit(c) ==> ParseValue(s) == Some(ParseNumber(s)) && SafeValue(s))
      && (c == OPEN_ARRAY ==> ParseValue(s) == ParseArray(s) && (SafeValue(s) <==> SafeArray(s)))
      && (c == OPEN_OBJECT ==> ParseValue(s) == ParseObject(s) && (SafeValue(s) <==> SafeObject(s)))
      && (c != QUOTE && c != MINUS && !IsDigit(c) && c != OPEN_ARRAY && c != OPEN_OBJECT ==>
           ParseValue(s) == None && SafeValue(s))
  {
    hide WordAt, StartsWith, StringSafe, SafeArray, SafeObject, ParseNumber, ParseString, ParseArray, ParseObject;
    WordStarts(t, i, NULL_TEXT);
    WordStarts(t, i, FALSE_TEXT);
    WordStarts(t, i, TRUE_TEXT);
    TailTail(t, i, 0);
    if At(t, i) == QUOTE {
      QuotedParses(Tail(t, i));
    }
  }

  /** `parse_value`. */
  method ValueAt(t: Text, i: nat) returns (inside: bool, ok: bool, v: Value, j: nat)
    ensures inside <==> SafeValue(Tail(t, i))
    ensures inside ==> (ok <==> ParseValue(Tail(t, i)).Some?)
    ensures ok ==> inside && ParseValue(Tail(t, i)) == Some((v, Tail(t, j)))
    decreases |Tail(t, i)|, 1
  {
    hide ParseValue, SafeValue, WordOf, SafeString, ParseNumber, ParseString, ParseArray, ParseObject;
    match WordOf(t, i)
    case Some((word, n)) =>
      WordCase(t, i, word, n);
      return true, true, word, i + n;
    case None =>
      OtherCase(t, i);
      if At(t, i) == QUOTE {
        var s: Text;
        inside, ok, s, j := StringAt(t, i);
        return inside, ok, String(s), j;
      }
      if At(t, i) == MINUS || IsDigit(At(t, i)) {
        v, j := NumberAt(t, i);
        return true, true, v, j;
      }
      if At(t, i) == OPEN_ARRAY {
        inside, ok, v, j := ArrayAt(t, i);
        return;
      }
      if At(t, i) == OPEN_OBJECT {
        inside, ok, v, j := ObjectAt(t, i);
        return;
      }
      return true, false, Null, i;
  }

  lemma QuotedParses(s: Text)
    requires At(s, 0) == QUOTE
    ensures ParseString(s).Some?
  {
  }

  /** `parse_array`. */
  method ArrayAt(t: Text, i: nat) returns (inside: bool, ok: bool, v: Value, j: nat)
    requires At(t, i) == OPEN_ARRAY
    ensures At(Tail(t, i), 0) == OPEN_ARRAY
    ensures inside <==> SafeArray(Tail(t, i))
    ensures inside ==> (ok <==> ParseArray(Tail(t, i)).Some?)
    ensures ok ==> inside && ParseArray(Tail(t, i)) == Some((v, Tail(t, j)))
    decreases |Tail(t, i)|, 0
  {
    hide ParseItems, Skip, Tail, SafeItems;
    TailTail(t, i, 0);
    TailStep(t, i);
    var k := SkipAt(t, i + 1);
    TailTail(t, k, 0);
    v, j := Null, k + 1;
    if At(t, k) == CLOSE_ARRAY {
      TailStep(t, k);
      return true, true, Array([]), k + 1;
    }
    var items: seq<Value>;
    inside, ok, items, k := ItemsAt(t, k);
    if !ok {
      return;
    }
    TailTail(t, k, 0);
    ok := At(t, k) == CLOSE_ARRAY;
    if ok {
      TailStep(t, k);
    }
    return true, ok, Array(items), k + 1;
  }

  ghost function Prepend<T>(a: seq<T>, r: Option<(seq<T>, Text)>): Option<(seq<T>, Text)> {
    match r
    case None => None
    case Some((b, rest)) => Some((a + b, rest))
  }

  lemma PrependNone<T>(r: Option<(seq<T>, Text)>)
    ensures Prepend([], r) == r
  {
    match r
    case None =>
    case Some((b, rest)) => assert [] + b == b;
  }

  lemma PrependMore<T>(a: seq<T>, x: T, r: Option<(seq<T>, Text)>)
    ensures Prepend(a + [x], r) == Prepend(a, Prepend([x], r))
  {
    match r
    case None =>
    case Some((b, rest)) => assert (a + [x]) + b == a + ([x] + b);
  }

  /** An element and the space around it. */
  method ItemAt(t: Text, i: nat) returns (inside: bool, ok: bool, v: Value, j: nat)
    ensures inside <==> SafeValue(Skip(Tail(t, i)))
    ensures inside ==> (ok <==> ParseValue(Skip(Tail(t, i))).Some?)
    ensures ok ==> inside && ParseValue(Skip(Tail(t, i))).Some?
    ensures ok ==> ParseValue(Skip(Tail(t, i))).value.0 == v && Tail(t, j) == Skip(ParseValue(Skip(Tail(t, i))).value.1)
    ensures ok ==> |Tail(t, j)| < |Tail(t, i)|
    decreases |Tail(t, i)|, 2
  {
    hide ParseValue, SafeValue;
    var k := SkipAt(t, i);
    inside, ok, v, k := ValueAt(t, k);
    j := k;
    if ok {
      j := SkipAt(t, k);
    }
  }

  /** The loop over the elements of an array. */
  method ItemsAt(t: Text, i: nat) returns (inside: bool, ok: bool, items: seq<Value>, j: nat)
    ensures inside <==> SafeItems(Tail(t, i))
    ensures inside ==> (ok <==> ParseItems(Tail(t, i)).Some?)
    ensures ok ==> inside && ParseItems(Tail(t, i)) == Some((items, Tail(t, j)))
    decreases |Tail(t, i)|, 3
  {
    hide ParseValue, Skip, SafeValue;
    items, j := [], i;
    PrependNone(ParseItems(Tail(t, i)));
    while true
      invariant |Tail(t, j)| <= |Tail(t, i)| && Prepend(items, ParseItems(Tail(t, j))) == ParseItems(Tail(t, i))
      invariant SafeItems(Tail(t, j)) <==> SafeItems(Tail(t, i))
      decreases |Tail(t, j)|
    {
      ghost var s := Tail(t, j);
      var v: Value;
      var k: nat;
      inside, ok, v, k := ItemAt(t, j);
      if !ok {
        return;
      }
      TailTail(t, k, 0);
      if At(t, k) != COMMA {
        return true, true, items + [v], k;
      }
      TailStep(t, k);
      assert ParseItems(s) == Prepend([v], ParseItems(Tail(t, k + 1)));
      PrependMore(items, v, ParseItems(Tail(t, k + 1)));
      items, j := items + [v], k + 1;
    }
  }

  /** `parse_object`. */
  method ObjectAt(t: Text, i: nat) returns (inside: bool, ok: bool, v: Value, j: nat)
    requires At(t, i) == OPEN_OBJECT
    ensures At(Tail(t, i), 0) == OPEN_OBJECT
    ensures inside <==> SafeObject(Tail(t, i))
    ensures inside ==> (ok <==> ParseObject(Tail(t, i)).Some?)
    ensures ok ==> inside && ParseObject(Tail(t, i)) == Some((v, Tail(t, j)))
    decreases |Tail(t, i)|, 0
  {
    hide ParseMembers, Skip, Tail, SafeMembers;
    TailTail(t, i, 0);
    TailStep(t, i);
    var k := SkipAt(t, i + 1);
    TailTail(t, k, 0);
    v, j := Null, k + 1;
    if At(t, k) == CLOSE_OBJECT {
      TailStep(t, k);
      return true, true, Object([]), k + 1;
    }
    var members: seq<Member>;
    inside, ok, members, k := MembersAt(t, k);
    if !ok {
      return;
    }
    TailTail(t, k, 0);
    ok := At(t, k) == CLOSE_OBJECT;
    if ok {
      TailStep(t, k);
    }
    return true, ok, Object(members), k + 1;
  }

  method MemberAt(t: Text, i: nat) returns (inside: bool, ok: bool, m: Member, j: nat)
    ensures inside <==> SafeMember(Tail(t, i))
    ensures inside ==> (ok <==> ParseMember(Tail(t, i)).Some?)
    ensures ok ==> inside && ParseMember(Tail(t, i)) == Some((m, Tail(t, j)))
    decreases |Tail(t, i)|, 2
  {
    hide ParseValue, ParseString, Skip, Tail, SafeString, SafeValue;
    m, j := Member([], Null), i;
    var name: Text;
    var k := SkipAt(t, i);
    inside, ok, name, k := StringAt(t, k);
    if !ok {
      return;
    }
    k := SkipAt(t, k);
    TailTail(t, k, 0);
    if At(t, k) != COLON {
      return true, false, m, j;
    }
    TailStep(t, k);
    var v: Value;
    k := SkipAt(t, k + 1);
    inside, ok, v, k := ValueAt(t, k);
    if !ok {
      return;
    }
    k := SkipAt(t, k);
    return true, true, Member(name, v), k;
  }

  /** The loop over the members of an object. */
  method MembersAt(t: Text, i: nat) returns (inside: bool, ok: bool, members: seq<Member>, j: nat)
    ensures inside <==> SafeMembers(Tail(t, i))
    ensures inside ==> (ok <==> ParseMembers(Tail(t, i)).Some?)
    ensures ok ==> inside && ParseMembers(Tail(t, i)) == Some((members, Tail(t, j)))
    decreases |Tail(t, i)|, 3
  {
    hide ParseMember, SafeMember;
    members, j := [], i;
    PrependNone(ParseMembers(Tail(t, i)));
    while true
      invariant i <= j && Prepend(members, ParseMembers(Tail(t, j))) == ParseMembers(Tail(t, i))
      invariant SafeMembers(Tail(t, j)) <==> SafeMembers(Tail(t, i))
      decreases |Tail(t, j)|
    {
      ghost var s := Tail(t, j);
      var m: Member;
      var k: nat;
      inside, ok, m, k := MemberAt(t, j);
      if !ok {
        return;
      }
      TailTail(t, k, 0);
      if At(t, k) != COMMA {
        return true, true, members + [m], k;
      }
      TailStep(t, k);
      assert ParseMembers(s) == Prepend([m], ParseMembers(Tail(t, k + 1)));
      PrependMore(members, m, ParseMembers(Tail(t, k + 1)));
      members, j := members + [m], k + 1;
    }
  }

  /** `cJSON_ParseWithOpts`. */
  method ParseText(t: Text, requireEnd: bool) returns (inside: bool, ok: bool, v: Value, end: nat)
    ensures inside <==> SafeText(t)
    ensures inside ==> (ok <==> Parse(t, requireEnd).Some?)
    ensures ok ==> inside && Parse(t, requireEnd) == Some((v, Tail(t, end)))
  {
    hide ParseValue, SafeValue;
    assert Tail(t, 0) == t;
    var k := SkipAt(t, 0);
    inside, ok, v, end := ValueAt(t, k);
    if ok && requireEnd {
      end := SkipAt(t, end);
      ok := end >= |t|;
    }
  }
}
