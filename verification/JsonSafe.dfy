/**
  Where `parse_string` stays within the text and within the buffer it allocates.

  It goes over a string twice. The first pass finds the closing quote and counts, taking a backslash and
  the character after it for one; the second decodes, and takes six characters for a `\u` escape. The
  passes can disagree on where the string ends.
*/
module JsonSafe {
  import opened Basics
  import opened Json

  /**
    The first pass: how much it counts up to a quote or the end of the text, and what is left; nothing if it leaves the
    text.
  */
  function Measured(s: Text): (r: Option<(nat, Text)>)
    ensures r.Some? ==> |r.value.1| <= |s|
    decreases |s|
  {
    if s == [] || s[0] == QUOTE then Some((0, s))
    else if s[0] == BACKSLASH && |s| == 1 then None
    else
      match Measured(s[if s[0] == BACKSLASH then 2 else 1..])
      case None => None
      case Some((len, rest)) => Some((len + 1, rest))
  }

  /** The characters of the next step of the second pass. */
  function StepLength(s: Text): (n: nat)
    requires s != []
    ensures n > 0
  {
    if s[0] == BACKSLASH then 1 + Escape(s[1..]).1 else 1
  }

  /** The second pass stays within the text: every escape it meets is there with all its characters. */
  predicate Stays(s: Text)
    decreases |s|
  {
    s == [] || s[0] == QUOTE || (StepLength(s) <= |s| && Stays(s[StepLength(s)..]))
  }

  /**
    Both passes over a string, from the character after the opening quote, stay within the text, and the second one
    within the buffer.
  */
  predicate StringSafe(s: Text) {
    Measured(s).Some? && Stays(s) && |ParseChars(s).0| <= Measured(s).value.0
  }

  // ------------------------------------------------------ every string the parser comes to

  predicate SafeString(s: Text) { At(s, 0) == QUOTE ==> StringSafe(s[1..]) }

  predicate SafeValue(s: Text)
    decreases |s|, 1
  {
    SafeString(s) && (At(s, 0) == OPEN_ARRAY ==> SafeArray(s)) && (At(s, 0) == OPEN_OBJECT ==> SafeObject(s))
  }

  predicate SafeArray(s: Text)
    requires At(s, 0) == OPEN_ARRAY
    decreases |s|, 0
  {
    var v := Skip(s[1..]);
    At(v, 0) == CLOSE_ARRAY || SafeItems(v)
  }

  predicate SafeItems(s: Text)
    decreases |s|, 2
  {
    SafeValue(Skip(s))
    && match ParseValue(Skip(s))
       case None => true
       case Some((item, after)) => At(Skip(after), 0) == COMMA ==> SafeItems(Skip(after)[1..])
  }

  predicate SafeObject(s: Text)
    requires At(s, 0) == OPEN_OBJECT
    decreases |s|, 0
  {
    var v := Skip(s[1..]);
    At(v, 0) == CLOSE_OBJECT || SafeMembers(v)
  }

  predicate SafeMember(s: Text)
    decreases |s|, 2
  {
    SafeString(Skip(s))
    && match ParseString(Skip(s))
       case None => true
       case Some((name, afterName)) => At(Skip(afterName), 0) == COLON ==> SafeValue(Skip(Skip(afterName)[1..]))
  }

  predicate SafeMembers(s: Text)
    decreases |s|, 3
  {
    SafeMember(s)
    && match ParseMember(s)
       case None => true
       case Some((m, rest)) => At(rest, 0) == COMMA ==> SafeMembers(rest[1..])
  }

  /** `cJSON_ParseWithOpts` on `s` keeps to the text and to the buffers it allocates. */
  predicate SafeText(s: Text) { SafeValue(Skip(s)) }

  // -------------------------------------------------------------------- inputs that are not

  /** A string that ends in a single backslash leaves the text. */
  lemma BareBackslash()
    ensures Measured([BACKSLASH]) == None && !Stays([BACKSLASH])
  {
  }

  /** `\u` before the closing quote, and another string of eight characters: they are written to a buffer for one. */
  const CUT_OFF: Text := [BACKSLASH, 117, QUOTE, COMMA, QUOTE, 65, 65, 65, 65, 65, 65, 65, 65, QUOTE]

  lemma CutOffOverflows()
    ensures Measured(CUT_OFF) == Some((1, CUT_OFF[2..])) && Stays(CUT_OFF) && |ParseChars(CUT_OFF).0| == 7
  {
    var s := CUT_OFF;
    assert Measured(s[2..]) == Some((0, s[2..]));
    assert Escape(s[1..]) == ([], 5);
    assert s[6..] == [65, 65, 65, 65, 65, 65, 65, QUOTE];
    PlainRun(s[6..], 7);
    assert Tail(s, 6) == s[6..];
  }

  lemma {:induction false} PlainRun(s: Text, n: nat)
    requires n < |s| && s[n] == QUOTE && forall i :: 0 <= i < n ==> s[i] != QUOTE && s[i] != BACKSLASH
    ensures ParseChars(s) == (s[..n], s[n..]) && Stays(s)
    decreases n
  {
    if n > 0 {
      PlainRun(s[1..], n - 1);
      assert s[..n] == [s[0]] + s[1..][..n - 1] && s[1..][n - 1..] == s[n..];
    }
  }

  // ------------------------------------------- what stands between the quotes, by itself

  /** `x` is what stands before a closing quote, for the first pass; `len` is what it counts. */
  ghost predicate Content(x: Text, len: nat) { Measured(x) == Some((len, [])) }

  lemma ContentStep(s: Text, len: nat)
    requires Content(s, len) && s != []
    ensures s[0] != QUOTE && len > 0
    ensures if s[0] == BACKSLASH then |s| >= 2 && Content(s[2..], len - 1) else Content(s[1..], len - 1)
  {
  }

  /**
    After `k` more characters the first pass is there, or one character further, behind a backslash and what it goes
    with.
  */
  lemma {:induction false} Lands(s: Text, len: nat, k: nat) returns (there: bool, more: nat)
    requires Content(s, len) && k <= |s|
    ensures there ==> Content(s[k..], more) && more <= len
    ensures !there ==> k < |s| && Content(s[k + 1..], more) && more < len
    decreases k
  {
    hide Measured;
    if k == 0 {
      assert s[0..] == s;
      return true, len;
    }
    ContentStep(s, len);
    if s[0] != BACKSLASH {
      there, more := Lands(s[1..], len - 1, k - 1);
      assert s[1..][k - 1..] == s[k..] && (!there ==> s[1..][k..] == s[k + 1..]);
    } else if k == 1 {
      return false, len - 1;
    } else {
      there, more := Lands(s[2..], len - 1, k - 2);
      assert s[2..][k - 2..] == s[k..] && (!there ==> s[2..][k - 1..] == s[k + 1..]);
    }
  }

  predicate IsHex(c: int) { HexDigit(c) >= 0 }

  predicate IsHex4(s: Text) { |s| >= 4 && IsHex(s[0]) && IsHex(s[1]) && IsHex(s[2]) && IsHex(s[3]) }

  /** Four hexadecimal digits count for four. */
  lemma HexCounts(s: Text, len: nat)
    requires Content(s, len) && IsHex4(s)
    ensures len >= 4 && Content(s[4..], len - 4)
  {
    assert s[1..][1..] == s[2..] && s[2..][1..] == s[3..] && s[3..][1..] == s[4..];
    assert Measured(s[3..]) != None && Measured(s[2..]) != None && Measured(s[1..]) != None;
  }

  /** The decoded text is no longer than what the first pass counts. */
  lemma {:induction false} Fits(s: Text, len: nat)
    requires Content(s, len) && Stays(s)
    ensures |ParseChars(s).0| <= len
    decreases |s|, 1
  {
    hide Escape, Unicode;
    if s != [] {
      if s[0] != BACKSLASH {
        Fits(s[1..], len - 1);
      } else if s[1] == 117 {
        UnicodeFits(s, len - 1);
      } else {
        EscapeOne(s);
        Fits(s[2..], len - 1);
      }
    }
  }

  /** The same, when the first pass takes the first character together with the backslash before it. */
  lemma {:induction false} FitsBehind(s: Text, len: nat)
    requires s != [] && Content(s[1..], len) && Stays(s)
    ensures |ParseChars(s).0| <= len + 1
    decreases |s|, 1
  {
    hide Escape, Unicode;
    if s[0] == QUOTE {
    } else if s[0] != BACKSLASH {
      Fits(s[1..], len);
    } else if s[1] == 117 {
      assert s[1..][1..] == s[2..];
      UnicodeFits(s, len - 1);
    } else {
      EscapeOne(s);
      assert s[1..][1..] == s[2..];
      if s[1] == BACKSLASH {
        assert s[1..][2..] == s[2..][1..];
        FitsBehind(s[2..], len - 1);
      } else {
        Fits(s[2..], len - 1);
      }
    }
  }

  lemma EscapeOne(s: Text)
    requires |s| >= 2 && s[0] == BACKSLASH && s[1] != 117
    ensures StepLength(s) == 2 && |ParseChars(s).0| <= 1 + |ParseChars(s[2..]).0| && (Stays(s) ==> Stays(s[2..]))
  {
    assert Tail(s, 2) == s[2..];
  }

  /**
    A `\u` escape takes six characters or twelve, and what it writes comes from four hexadecimal digits or from eight.
  */
  lemma UnicodeShape(u: Text)
    requires u != [] && u[0] == 117
    ensures Escape(u).1 == 5 || Escape(u).1 == 11
    ensures Escape(u).0 != [] ==> IsHex4(u[1..])
    ensures Escape(u).1 == 11 ==> |u| >= 7 && u[5] == BACKSLASH && u[6] == 117
    ensures Escape(u).0 != [] && Escape(u).1 == 11 ==> IsHex4(u[7..])
    ensures |Escape(u).0| <= 4
  {
    HexFound(Tail(u, 1));
    HexFound(Tail(u, 7));
  }

  lemma HexFound(s: Text)
    ensures Hex4(s) != 0 ==> IsHex4(s)
  {
  }

  lemma UnicodeStep(s: Text, len: nat)
    requires |s| >= 2 && s[0] == BACKSLASH && s[1] == 117 && Content(s[2..], len) && Stays(s)
    ensures var n := StepLength(s); (n == 6 || n == 12) && n <= |s| && Stays(s[n..])
    ensures var n := StepLength(s); |ParseChars(s).0| == |Escape(s[1..]).0| + |ParseChars(s[n..]).0|
  {
    hide Escape, Unicode;
    UnicodeShape(s[1..]);
    assert Tail(s, StepLength(s)) == s[StepLength(s)..];
  }

  /** The first pass counts the digits of an escape one by one. */
  lemma UnicodeCounts(s: Text, len: nat)
    requires |s| >= 2 && s[0] == BACKSLASH && s[1] == 117 && Content(s[2..], len)
    requires Escape(s[1..]).0 != [] && StepLength(s) <= |s|
    ensures var n, used := StepLength(s), if StepLength(s) == 6 then 4 else 9;
      len >= used && Content(s[n..], len - used)
  {
    hide Escape, Unicode, Measured;
    var u := s[1..];
    UnicodeShape(u);
    assert u[1..] == s[2..] && s[2..][4..] == s[6..];
    HexCounts(s[2..], len);
    if StepLength(s) == 12 {
      assert s[6..][2..] == s[8..] && u[7..] == s[8..] && s[8..][4..] == s[12..] && s[6] == u[5];
      ContentStep(s[6..], len - 4);
      HexCounts(s[8..], len - 5);
    }
  }

  lemma {:induction false} UnicodeFits(s: Text, len: nat)
    requires |s| >= 2 && s[0] == BACKSLASH && s[1] == 117 && Content(s[2..], len) && Stays(s)
    ensures |ParseChars(s).0| <= len
    decreases |s|, 0
  {
    hide Escape, ParseChars, Stays, Measured;
    UnicodeStep(s, len);
    var n := StepLength(s);
    if Escape(s[1..]).0 != [] {
      UnicodeCounts(s, len);
      Fits(s[n..], len - if n == 6 then 4 else 9);
      UnicodeShape(s[1..]);
    } else {
      assert s[2..][n - 2..] == s[n..];
      var there, more := Lands(s[2..], len, n - 2);
      if there {
        Fits(s[n..], more);
      } else {
        assert s[2..][n - 1..] == s[n..][1..];
        FitsBehind(s[n..], more);
      }
    }
  }

  // --------------------------------------------------------------- with more text behind it

  lemma Hex4Same(s: Text, rest: Text)
    ensures Hex4(s + [QUOTE] + rest) == Hex4(s)
  {
  }

  lemma TailSame(s: Text, more: Text, n: nat)
    requires n <= |s|
    ensures Tail(s + more, n) == Tail(s, n) + more
  {
  }

  predicate LowHalf(s: Text) { At(s, 5) == BACKSLASH && At(s, 6) == 117 }

  lemma UnicodeByParts(a: Text, b: Text)
    requires Hex4(Tail(a, 1)) == Hex4(Tail(b, 1))
    requires Hex4(Tail(a, 1)) != 0 ==>
      (LowHalf(a) <==> LowHalf(b)) && (LowHalf(a) ==> Hex4(Tail(a, 7)) == Hex4(Tail(b, 7)))
    ensures Unicode(a) == Unicode(b)
  {
    hide Hex4, Utf8, At;
  }

  lemma UnicodeSame(u: Text, rest: Text)
    requires u != []
    ensures Unicode(u + [QUOTE] + rest) == Unicode(u)
  {
    hide Unicode, Hex4;
    var v, more := u + [QUOTE] + rest, [QUOTE] + rest;
    assert v == u + more;
    TailSame(u, more, 1);
    assert Tail(u, 1) + more == Tail(u, 1) + [QUOTE] + rest;
    Hex4Same(Tail(u, 1), rest);
    HexFound(Tail(u, 1));
    if |u| >= 7 {
      TailSame(u, more, 7);
      assert Tail(u, 7) + more == Tail(u, 7) + [QUOTE] + rest;
      Hex4Same(Tail(u, 7), rest);
    }
    UnicodeByParts(v, u);
  }

  /** No escape that begins before the closing quote takes more or fewer characters for what stands behind the quote. */
  lemma EscapeSame(u: Text, rest: Text)
    ensures Escape(u + [QUOTE] + rest).1 == Escape(u).1
    ensures u != [] ==> Escape(u + [QUOTE] + rest) == Escape(u)
  {
    hide Unicode;
    if u != [] {
      UnicodeSame(u, rest);
    }
  }

  lemma StepSame(x: Text, rest: Text)
    requires x != []
    ensures StepLength(x + [QUOTE] + rest) == StepLength(x)
  {
    hide Escape;
    if x[0] == BACKSLASH {
      assert (x + [QUOTE] + rest)[1..] == x[1..] + [QUOTE] + rest;
      EscapeSame(x[1..], rest);
    }
  }

  /** The first pass ends at the quote. */
  lemma {:induction false} MeasuredThere(x: Text, len: nat, rest: Text)
    requires Content(x, len)
    ensures Measured(x + [QUOTE] + rest) == Some((len, [QUOTE] + rest))
    decreases |x|
  {
    var s := x + [QUOTE] + rest;
    if x == [] {
      assert s == [QUOTE] + rest;
    } else {
      var n := if x[0] == BACKSLASH then 2 else 1;
      assert s[n..] == x[n..] + [QUOTE] + rest;
      MeasuredThere(x[n..], len - 1, rest);
    }
  }

  /**
    The second pass, when it stays in `x`, does there what it does without the rest of the text, and ends at the quote
    or before.
  */
  lemma {:induction false} StaysThere(x: Text, rest: Text)
    requires Stays(x)
    ensures var s := x + [QUOTE] + rest;
      Stays(s) && ParseChars(s) == (ParseChars(x).0, ParseChars(x).1 + [QUOTE] + rest)
    decreases |x|
  {
    hide Escape;
    var s := x + [QUOTE] + rest;
    if x == [] {
      assert s == [QUOTE] + rest;
    } else if x[0] != QUOTE {
      StepSame(x, rest);
      var n := StepLength(x);
      assert s[n..] == x[n..] + [QUOTE] + rest && Tail(s, n) == s[n..] && Tail(x, n) == x[n..];
      StaysThere(x[n..], rest);
      if x[0] == BACKSLASH {
        assert s[1..] == x[1..] + [QUOTE] + rest;
        EscapeSame(x[1..], rest);
      }
    }
  }

  function Filled(n: nat): (s: Text)
    ensures |s| == n && forall i :: 0 <= i < n ==> s[i] == 120
  {
    seq(n, _ => 120)
  }

  lemma {:induction false} FilledRun(s: Text)
    requires forall i :: 0 <= i < |s| ==> s[i] == 120
    ensures |ParseChars(s).0| == |s|
    decreases |s|
  {
    if s != [] {
      FilledRun(s[1..]);
    }
  }

  lemma StepAtMost(s: Text)
    requires s != []
    ensures StepLength(s) <= 12
  {
  }

  /** The second pass, when it does not stay in `x`, steps over the quote and writes what stands behind it. */
  lemma {:induction false} Crosses(x: Text, n: nat)
    requires !Stays(x)
    ensures |ParseChars(x + [QUOTE] + Filled(n)).0| >= n - 10
    decreases |x|
  {
    hide Escape;
    var s, k := x + [QUOTE] + Filled(n), StepLength(x);
    StepSame(x, Filled(n));
    StepAtMost(x);
    assert |ParseChars(s).0| >= |ParseChars(Tail(s, k)).0| by {
      assert Tail(s, 1) == s[1..];
    }
    if k <= |x| {
      assert Tail(s, k) == x[k..] + [QUOTE] + Filled(n);
      Crosses(x[k..], n);
    } else {
      FilledRun(Tail(s, k));
    }
  }

  /**
    The text between the opening quote and the closing one, and whatever may stand behind: `parse_string` keeps
    within the text and its buffer for all of it exactly when the second pass, on that text alone, stays in it.
  */
  lemma SafeIff(x: Text, len: nat)
    requires Content(x, len)
    ensures Stays(x) <==> forall rest :: StringSafe(x + [QUOTE] + rest)
    ensures Stays(x) <==> StringSafe(x)
  {
    hide Measured, Stays, ParseChars;
    if Stays(x) {
      Fits(x, len);
      forall rest ensures StringSafe(x + [QUOTE] + rest) {
        MeasuredThere(x, len, rest);
        StaysThere(x, rest);
      }
    } else {
      var rest := Filled(len + 11);
      MeasuredThere(x, len, rest);
      Crosses(x, len + 11);
      assert !StringSafe(x + [QUOTE] + rest);
    }
  }
}
