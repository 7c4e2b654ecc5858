/**
  `\u` escapes: what the parser writes for them is UTF-8, by the definition of section 3 of RFC 3629.
*/
module JsonUnicode {
  import opened Basics
  import opened Json
  import opened JsonSafe
  import opened JsonRoundTrip

  // ---------------------------------------------------------------------- a UTF-8 decoder

  /** The bytes of a character, from the first one; none for a byte that starts no character. */
  function LengthOf(lead: char8): nat {
    if lead < 0x80 then 1
    else if lead < 0xC0 then 0
    else if lead < 0xE0 then 2
    else if lead < 0xF0 then 3
    else if lead < 0xF8 then 4
    else 0
  }

  predicate Continues(c: char8) { 0x80 <= c < 0xC0 }

  /** The six bits of a byte that continues a character. */
  function SixBits(c: int): nat
    requires 0x80 <= c < 0xC0
  {
    c - 0x80
  }

  function MoreBits(v: nat, s: Text): nat
    requires forall i :: 0 <= i < |s| ==> Continues(s[i])
    decreases |s|
  {
    if s == [] then v else assert Continues(s[0]); MoreBits(v * 64 + SixBits(s[0]), s[1..])
  }

  /** The bits of the first byte. */
  function LeadBits(lead: nat, n: nat): nat {
    if n == 1 then lead else if n == 2 then lead % 32 else if n == 3 then lead % 16 else lead % 8
  }

  /** The first character and its length. */
  function DecodeOne(s: Text): (r: Option<(nat, nat)>)
    ensures r.Some? ==> 0 < r.value.1 <= |s|
  {
    if s == [] then None
    else
      var n := LengthOf(s[0]);
      if n == 0 || |s| < n || !(forall i :: 1 <= i < n ==> Continues(s[i])) then None
      else Some((MoreBits(LeadBits(s[0], n), s[1..n]), n))
  }

  function DecodeAll(s: Text): Option<seq<nat>>
    decreases |s|
  {
    if s == [] then Some([])
    else
      match DecodeOne(s)
      case None => None
      case Some((uc, n)) =>
        match DecodeAll(s[n..])
        case None => None
        case Some(more) => Some([uc] + more)
  }

  // ------------------------------------------------------------------ what the parser writes

  predicate IsSurrogate(uc: nat) { 0xD800 <= uc < 0xE000 }

  /** What can be written. */
  predicate IsCharacter(uc: nat) { 0 < uc < 0x110000 && !IsSurrogate(uc) }

  lemma OneByte(v: nat, a: char8)
    requires Continues(a)
    ensures MoreBits(v, [a]) == v * 64 + SixBits(a)
  {
    assert [a][1..] == [];
  }

  lemma TwoBytes(v: nat, a: char8, b: char8)
    requires Continues(a) && Continues(b)
    ensures MoreBits(v, [a, b]) == (v * 64 + SixBits(a)) * 64 + SixBits(b)
  {
    assert [a, b][1..] == [b];
    OneByte(v * 64 + SixBits(a), b);
  }

  lemma ThreeBytes(v: nat, a: char8, b: char8, c: char8)
    requires Continues(a) && Continues(b) && Continues(c)
    ensures MoreBits(v, [a, b, c]) == ((v * 64 + SixBits(a)) * 64 + SixBits(b)) * 64 + SixBits(c)
  {
    assert [a, b, c][1..] == [b, c];
    TwoBytes(v * 64 + SixBits(a), b, c);
  }

  lemma DecodeLong(uc: nat, rest: Text)
    requires 0x10000 <= uc < 0x110000
    ensures |Utf8(uc)| == 4 && DecodeOne(Utf8(uc) + rest) == Some((uc, 4))
  {
    hide MoreBits;
    var u := Utf8(uc);
    var s := u + rest;
    assert s[1..4] == [u[1], u[2], u[3]];
    ThreeBytes(LeadBits(u[0], 4), u[1], u[2], u[3]);
    Sixes(uc);
  }

  lemma DecodeShort(uc: nat, rest: Text)
    requires 0 < uc < 0x10000
    ensures |Utf8(uc)| == (if uc < 0x80 then 1 else if uc < 0x800 then 2 else 3)
    ensures DecodeOne(Utf8(uc) + rest) == Some((uc, |Utf8(uc)|))
  {
    hide MoreBits;
    var u := Utf8(uc);
    var s := u + rest;
    if uc < 0x80 {
      assert s[1..1] == [];
      NoBits(uc);
    } else if uc < 0x800 {
      assert s[1..2] == [u[1]];
      OneByte(LeadBits(u[0], 2), u[1]);
    } else {
      assert s[1..3] == [u[1], u[2]];
      TwoBytes(LeadBits(u[0], 3), u[1], u[2]);
      Sixes(uc);
    }
  }

  /** Decoding gives the code point back; the shortest form is used. */
  lemma Utf8Decodes(uc: nat, rest: Text)
    requires 0 < uc < 0x110000
    ensures |Utf8(uc)| == if uc < 0x80 then 1 else if uc < 0x800 then 2 else if uc < 0x10000 then 3 else 4
    ensures DecodeOne(Utf8(uc) + rest) == Some((uc, |Utf8(uc)|))
  {
    if uc < 0x10000 {
      DecodeShort(uc, rest);
    } else {
      DecodeLong(uc, rest);
    }
  }

  function Utf8All(ucs: seq<nat>): Text
    requires forall i :: 0 <= i < |ucs| ==> IsCharacter(ucs[i])
  {
    if ucs == [] then [] else assert IsCharacter(ucs[0]); Utf8(ucs[0]) + Utf8All(ucs[1..])
  }

  lemma {:induction false} AllDecode(ucs: seq<nat>)
    requires forall i :: 0 <= i < |ucs| ==> IsCharacter(ucs[i])
    ensures DecodeAll(Utf8All(ucs)) == Some(ucs)
  {
    if ucs != [] {
      hide Utf8, DecodeOne;
      assert IsCharacter(ucs[0]);
      var u, more := Utf8(ucs[0]), Utf8All(ucs[1..]);
      Utf8Decodes(ucs[0], more);
      AllDecode(ucs[1..]);
      assert (u + more)[|u|..] == more && [ucs[0]] + ucs[1..] == ucs;
    }
  }

  lemma NoBits(v: nat)
    ensures MoreBits(v, []) == v
  {
  }

  /** A number in groups of six bits. */
  lemma Sixes(v: nat)
    ensures v == (v / 4096 * 64 + v / 64 % 64) * 64 + v % 64
    ensures v / 4096 == v / 0x40000 * 64 + v / 4096 % 64
  {
  }

  // ------------------------------------------------------------------------- escapes

  predicate IsLetter(c: char8, d: nat)
    requires d < 16
  {
    c == Letter(d, false) || c == Letter(d, true)
  }

  /** Four hexadecimal digits, each in either case. */
  predicate Spells(s: Text, h: nat) {
    && |s| == 4 && h < 0x10000
    && IsLetter(s[0], h / 4096) && IsLetter(s[1], h / 256 % 16) && IsLetter(s[2], h / 16 % 16) && IsLetter(s[3], h % 16)
  }

  /** `\u` and four digits. */
  predicate IsUnit(e: Text, h: nat) { |e| == 6 && e[0] == BACKSLASH && e[1] == 117 && Spells(e[2..], h) }

  /** The escape of a character: one unit, or from 0x10000 up the two that UTF-16 has for it. */
  predicate IsEscape(e: Text, uc: nat) {
    if uc < 0x10000 then IsUnit(e, uc)
    else
      var v := uc - 0x10000;
      |e| == 12 && IsUnit(e[..6], 0xD800 + v / 1024) && IsUnit(e[6..], 0xDC00 + v % 1024)
  }

  lemma LetterReads(c: char8, d: nat)
    requires d < 16 && IsLetter(c, d)
    ensures HexDigit(c) == d
  {
    AlphabetIs();
  }

  lemma SpelledReads(s: Text, h: nat, rest: Text)
    requires Spells(s, h)
    ensures Hex4(s + rest) == h
  {
    hide IsLetter, HexDigit;
    LetterReads(s[0], h / 4096);
    LetterReads(s[1], h / 256 % 16);
    LetterReads(s[2], h / 16 % 16);
    LetterReads(s[3], h % 16);
    Nibbles(h);
  }

  lemma Nibbles(h: nat)
    requires h < 0x10000
    ensures ((h / 4096 * 16 + h / 256 % 16) * 16 + h / 16 % 16) * 16 + h % 16 == h
  {
  }

  /** What the parser makes of the units of an escape. */
  lemma UnitReads(e: Text, h: nat, rest: Text)
    requires IsUnit(e, h)
    ensures Hex4(Tail(e[1..] + rest, 1)) == h && At(e[1..] + rest, 0) == 117
    ensures At(e[1..] + rest, 5) == At(rest, 0) && At(e[1..] + rest, 6) == At(rest, 1)
    ensures Tail(e[1..] + rest, 7) == Tail(rest, 2)
  {
    hide Hex4, Spells;
    assert Tail(e[1..] + rest, 1) == e[2..] + rest;
    SpelledReads(e[2..], h, rest);
  }

  lemma EscapeReads(e: Text, uc: nat, rest: Text)
    requires IsEscape(e, uc) && IsCharacter(uc)
    ensures Escape(e[1..] + rest) == (Utf8(uc), |e| - 1) && e[0] == BACKSLASH
  {
    hide Hex4, Spells, Utf8;
    if uc < 0x10000 {
      UnitReads(e, uc, rest);
    } else {
      var high, low, v := e[..6], e[6..], uc - 0x10000;
      assert e[1..] + rest == high[1..] + (low + rest);
      UnitReads(high, 0xD800 + v / 1024, low + rest);
      assert Tail(low + rest, 2) == low[2..] + rest;
      SpelledReads(low[2..], 0xDC00 + v % 1024, rest);
    }
  }

  /** Escapes of characters, one after the other. */
  ghost predicate AreEscapes(es: seq<Text>, ucs: seq<nat>) {
    |es| == |ucs| && forall i :: 0 <= i < |es| ==> IsEscape(es[i], ucs[i]) && IsCharacter(ucs[i])
  }

  function Joined(es: seq<Text>): Text { if es == [] then [] else es[0] + Joined(es[1..]) }

  lemma OneRead(e: Text, uc: nat, more: Text)
    requires IsEscape(e, uc) && IsCharacter(uc)
    ensures ParseChars(e + more) == (Utf8(uc) + ParseChars(more).0, ParseChars(more).1)
  {
    hide Escape, Utf8, Spells;
    EscapeReads(e, uc, more);
    var s := e + more;
    assert s[1..] == e[1..] + more && Tail(s, |e|) == more;
  }

  lemma {:induction false} AllRead(es: seq<Text>, ucs: seq<nat>, rest: Text)
    requires AreEscapes(es, ucs) && rest != [] && rest[0] == QUOTE
    ensures ParseChars(Joined(es) + rest) == (Utf8All(ucs), rest)
  {
    hide ParseChars, Utf8, IsEscape, IsCharacter;
    if es == [] {
      assert Joined(es) + rest == rest;
      QuoteEnds(rest);
    } else {
      assert IsEscape(es[0], ucs[0]);
      AllRead(es[1..], ucs[1..], rest);
      OneRead(es[0], ucs[0], Joined(es[1..]) + rest);
      assert Joined(es) + rest == es[0] + (Joined(es[1..]) + rest);
    }
  }

  /** The first pass takes a unit for five. */
  lemma UnitCounts(e: Text, h: nat, more: Text, len: nat)
    requires IsUnit(e, h) && Content(more, len)
    ensures Content(e + more, len + 5)
  {
    hide HexDigit;
    var s := e + more;
    assert forall i :: 2 <= i < 6 ==> s[i] == e[2..][i - 2];
    AlphabetIs();
    assert s[2..][4..] == more;
    FourPlain(s[2..], len);
  }

  lemma EscapeStays(e: Text, uc: nat, more: Text, len: nat)
    requires IsEscape(e, uc) && IsCharacter(uc) && Content(more, len) && Stays(more)
    ensures Stays(e + more) && exists k :: Content(e + more, k)
  {
    hide Escape, Spells, Measured;
    EscapeReads(e, uc, more);
    assert (e + more)[1..] == e[1..] + more && (e + more)[|e|..] == more;
    if uc < 0x10000 {
      UnitCounts(e, uc, more, len);
    } else {
      var v := uc - 0x10000;
      UnitCounts(e[6..], 0xDC00 + v % 1024, more, len);
      UnitCounts(e[..6], 0xD800 + v / 1024, e[6..] + more, len + 5);
      assert e[..6] + (e[6..] + more) == e + more;
    }
  }

  lemma {:induction false} EscapesStay(es: seq<Text>, ucs: seq<nat>) returns (len: nat)
    requires AreEscapes(es, ucs)
    ensures Content(Joined(es), len) && Stays(Joined(es))
  {
    if es == [] {
      len := 0;
    } else {
      hide Stays, Measured, IsEscape, IsCharacter;
      assert IsEscape(es[0], ucs[0]);
      var k := EscapesStay(es[1..], ucs[1..]);
      EscapeStays(es[0], ucs[0], Joined(es[1..]), k);
      len :| Content(es[0] + Joined(es[1..]), len);
    }
  }

  /** A string of escapes reads as the characters they stand for, in UTF-8. */
  lemma UnicodeString(es: seq<Text>, ucs: seq<nat>, rest: Text)
    requires AreEscapes(es, ucs)
    ensures var s := [QUOTE] + Joined(es) + [QUOTE] + rest;
      && ParseString(s).Some? && ParseString(s).value.1 == rest && SafeString(s)
      && DecodeAll(ParseString(s).value.0) == Some(ucs)
  {
    hide ParseChars, DecodeAll, IsEscape, IsCharacter, Stays, Measured, StringSafe;
    var s, close := [QUOTE] + Joined(es) + [QUOTE] + rest, [QUOTE] + rest;
    assert s[1..] == Joined(es) + close && Tail(close, 1) == rest;
    AllRead(es, ucs, close);
    AllDecode(ucs);
    var len := EscapesStay(es, ucs);
    SafeIff(Joined(es), len);
    assert s[1..] == Joined(es) + [QUOTE] + rest;
  }

  /** Zero, a low surrogate, and a high one without a low one behind it are read and write nothing. */
  lemma NothingWritten(e: Text, h: nat, rest: Text)
    requires IsUnit(e, h) && (h == 0 || 0xDC00 <= h < 0xE000 || (0xD800 <= h < 0xDC00 && !LowHalf(e[1..] + rest)))
    ensures Escape(e[1..] + rest) == ([], 5)
  {
    hide Hex4, Spells, Utf8;
    UnitReads(e, h, rest);
  }
}
