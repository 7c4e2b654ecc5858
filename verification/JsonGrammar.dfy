/**
  The texts of RFC 8259, sections 2 to 7, with any white space, escapes and number forms: the parser
  reads each of them as the value that the grammar gives it.
*/
module JsonGrammar {
  import opened Basics
  import opened Json
  import opened JsonSafe
  import opened JsonRoundTrip
  import opened JsonUnicode

  // -------------------------------------------------------------------------------- numbers

  /** The parts of a number: sign, digits, digits after the point, and exponent. */
  datatype Numeral = Numeral(neg: bool, whole: Text, fraction: Option<Text>, exponent: Option<Exponent>)
  datatype Exponent = Exponent(letter: char8, sign: Option<char8>, digits: Text)

  predicate SomeDigits(s: Text) { s != [] && forall i :: 0 <= i < |s| ==> '0' as int <= s[i] <= '9' as int }

  predicate NumeralOk(n: Numeral) {
    && SomeDigits(n.whole) && (n.whole[0] == '0' as int ==> |n.whole| == 1)
    && (n.fraction.Some? ==> SomeDigits(n.fraction.value))
    && (n.exponent.Some? ==>
          var e := n.exponent.value;
          && SomeDigits(e.digits) && (e.letter == 'e' as int || e.letter == 'E' as int)
          && (e.sign.Some? ==> e.sign.value == '+' as int || e.sign.value == '-' as int))
  }

  function FractionText(n: Numeral): Text { if n.fraction.Some? then ['.' as int] + n.fraction.value else [] }

  function ExponentText(n: Numeral): Text {
    if n.exponent.None? then []
    else
      var e := n.exponent.value;
      [e.letter] + (if e.sign.Some? then [e.sign.value] else []) + e.digits
  }

  function NumeralText(n: Numeral): Text {
    (if n.neg then ['-' as int] else []) + n.whole + FractionText(n) + ExponentText(n)
  }

  function Ten(n: nat): nat { if n == 0 then 1 else 10 * Ten(n - 1) }

  /** Digits by their places. */
  function PlaceValue(s: Text): nat
    requires forall i :: 0 <= i < |s| ==> '0' as int <= s[i] <= '9' as int
  {
    if s == [] then 0 else DigitOf(s[0]) * Ten(|s| - 1) + PlaceValue(s[1..])
  }

  function DigitOf(c: int): nat
    requires '0' as int <= c <= '9' as int
  {
    c - '0' as int
  }

  function ExponentValue(n: Numeral): int
    requires NumeralOk(n)
  {
    if n.exponent.None? then 0
    else
      var e := n.exponent.value;
      if e.sign == Some('-' as int) then 0 - PlaceValue(e.digits) else PlaceValue(e.digits)
  }

  /** Before the sign and the exponent. */
  function Magnitude(w: nat, f: nat, j: nat): real {
    TenPositive(j);
    w as real + f as real / Ten(j) as real
  }

  function PowerOfTen(x: int): real {
    TenPositive(if x < 0 then 0 - x else x);
    if x < 0 then 1.0 / Ten(0 - x) as real else Ten(x) as real
  }

  /** What a number denotes. */
  function NumeralValue(n: Numeral): real
    requires NumeralOk(n)
  {
    var f := if n.fraction.Some? then n.fraction.value else [];
    var m := Magnitude(PlaceValue(n.whole), PlaceValue(f), |f|);
    (if n.neg then -m else m) * PowerOfTen(ExponentValue(n))
  }

  lemma {:induction false} TenPositive(n: nat)
    ensures Ten(n) > 0
  {
    if n > 0 {
      TenPositive(n - 1);
    }
  }

  /** Reading digits into an accumulator shifts it by as many places. */
  lemma {:induction false} DigitsRead(acc: nat, s: Text, rest: Text)
    requires (forall i :: 0 <= i < |s| ==> '0' as int <= s[i] <= '9' as int) && !IsDigit(At(rest, 0))
    ensures Digits(acc, s + rest) == (acc * Ten(|s|) + PlaceValue(s), rest)
    decreases |s|
  {
    if s == [] {
      assert s + rest == rest;
    } else {
      assert (s + rest)[1..] == s[1..] + rest && (s + rest)[0] == s[0];
      DigitsRead(acc * 10 + DigitOf(s[0]), s[1..], rest);
      Shifted(acc, DigitOf(s[0]), Ten(|s| - 1));
    }
  }

  lemma Shifted(acc: nat, d: nat, t: nat)
    ensures (acc * 10 + d) * t == acc * (10 * t) + d * t
  {
  }

  lemma {:induction false} Pow10Is(e: int)
    ensures Pow10(e) == PowerOfTen(e)
    decreases if e < 0 then 0 - e else e
  {
    TenPositive(if e < 0 then 0 - e else e);
    if e > 0 {
      Pow10Is(e - 1);
    } else if e < 0 {
      Pow10Is(e + 1);
      if e < -1 {
        Inverse(Ten(-1 - e) as real);
      }
    }
  }

  lemma Inverse(a: real)
    requires a > 0.0
    ensures 1.0 / a / 10.0 == 1.0 / (10.0 * a)
  {
  }

  lemma Pow10Step(e: int)
    ensures Pow10(e - 1) == Pow10(e) / 10.0
  {
    if e > 0 {
      assert Pow10(e) == 10.0 * Pow10(e - 1);
    }
  }

  lemma {:induction false} Pow10Less(e: int, j: nat)
    ensures Ten(j) > 0 && Pow10(e - j) == Pow10(e) / Ten(j) as real
  {
    TenPositive(j);
    if j > 0 {
      Pow10Less(e, j - 1);
      Pow10Step(e - (j - 1));
      Divided(Pow10(e), Ten(j - 1) as real);
    }
  }

  lemma Divided(p: real, t: real)
    requires t > 0.0
    ensures p / t / 10.0 == p / (10.0 * t)
  {
  }

  /** The point and the exponent, taken together at the end. */
  lemma ScaledValue(neg: bool, w: nat, f: nat, j: nat, x: int)
    ensures Scaled(Signed(neg, w * Ten(j) + f), 0 - j + x) ==
      (if neg then -Magnitude(w, f, j) else Magnitude(w, f, j)) * Pow10(x)
  {
    hide Scaled, Pow10, Ten, Signed;
    Pow10Less(x, j);
    ScaledTo(neg, w, f, Ten(j), Pow10(x), x, j);
  }

  lemma ScaledTo(neg: bool, w: nat, f: nat, t: nat, p: real, x: int, j: nat)
    requires t > 0 && Pow10(x - j) == p / t as real
    ensures var m := w as real + f as real / t as real;
      Scaled(Signed(neg, w * t + f), 0 - j + x) == (if neg then -m else m) * p
  {
    hide Pow10;
    var k := w * t + f;
    RealOf(w, t, f);
    ScaledReal(neg, w as real, f as real, t as real, p, k as real);
    SignedReal(neg, k);
    assert 0 - j + x == x - j;
  }

  lemma SignedReal(neg: bool, k: nat)
    ensures Signed(neg, k) as real == if neg then -(k as real) else k as real
  {
  }

  lemma RealOf(w: nat, t: nat, f: nat)
    ensures (w * t + f) as real == w as real * t as real + f as real
  {
  }

  lemma ScaledReal(neg: bool, w: real, f: real, t: real, p: real, k: real)
    requires t > 0.0 && k == w * t + f
    ensures (if neg then -k else k) * (p / t) == (if neg then -(w + f / t) else w + f / t) * p
  {
    Quotient(w, f, t, p);
    if neg {
      Negated(k, p / t);
      Negated(w + f / t, p);
    }
  }

  lemma Quotient(w: real, f: real, t: real, p: real)
    requires t > 0.0
    ensures (w * t + f) * (p / t) == (w + f / t) * p
  {
    assert (w + f / t) * t == w * t + f;
    assert p / t * t == p;
    var q := p / t;
    assert (w * t + f) * q == ((w + f / t) * t) * q;
    assert ((w + f / t) * t) * q == (w + f / t) * (q * t);
  }

  lemma Negated(a: real, b: real)
    ensures (-a) * b == -(a * b)
  {
  }

  lemma WholeReads(n: Numeral, more: Text)
    requires NumeralOk(n) && !IsDigit(At(more, 0))
    ensures IntegerPart(n.whole + more) == (PlaceValue(n.whole), more)
  {
    var s := n.whole + more;
    assert s[0] == n.whole[0];
    if n.whole[0] == '0' as int {
      assert s[1..] == more && n.whole[1..] == [];
    } else {
      DigitsRead(0, n.whole, more);
    }
  }

  lemma FractionReads(n: Numeral, m: nat, more: Text)
    requires NumeralOk(n) && !IsDigit(At(more, 0)) && At(more, 0) != '.' as int
    ensures var f := if n.fraction.Some? then n.fraction.value else [];
      FractionPart(m, FractionText(n) + more) == (m * Ten(|f|) + PlaceValue(f), 0 - |f|, more)
  {
    var s := FractionText(n) + more;
    if n.fraction.Some? {
      var f := n.fraction.value;
      assert s[1..] == f + more && s[1] == f[0];
      DigitsRead(m, f, more);
    } else {
      assert s == more;
    }
  }

  lemma ExponentLayout(e: Exponent, rest: Text, s: Text)
    requires e.digits != [] && s == [e.letter] + (if e.sign.Some? then [e.sign.value] else []) + e.digits + rest
    ensures s[0] == e.letter && if e.sign.Some? then s[1] == e.sign.value && Tail(s, 2) == e.digits + rest
      else s[1] == e.digits[0] && s[1..] == e.digits + rest
  {
  }

  lemma ExponentReads(n: Numeral, rest: Text)
    requires NumeralOk(n) && EndsNumber(rest)
    ensures ParseExponent(ExponentText(n) + rest) == (ExponentValue(n), rest)
  {
    hide Digits, PlaceValue, Ten;
    var s := ExponentText(n) + rest;
    if n.exponent.Some? {
      var e := n.exponent.value;
      DigitsRead(0, e.digits, rest);
      ExponentLayout(e, rest, s);
    } else {
      assert s == rest;
    }
  }

  lemma NumeralStarts(n: Numeral, rest: Text)
    requires NumeralOk(n)
    ensures var s := NumeralText(n) + rest; s != [] && (s[0] == MINUS || IsDigit(s[0]))
    ensures var s, e := NumeralText(n) + rest, ExponentText(n) + rest;
      (if n.neg then s[1..] else s) == n.whole + (FractionText(n) + e)
    ensures EndsNumber(rest) ==>
      var e := ExponentText(n) + rest;
      !IsDigit(At(e, 0)) && At(e, 0) != '.' as int && !IsDigit(At(FractionText(n) + e, 0))
  {
    hide ExponentText;
    ExponentStarts(n, rest);
  }

  lemma ExponentStarts(n: Numeral, rest: Text)
    requires NumeralOk(n)
    ensures At(ExponentText(n) + rest, 0) == if n.exponent.Some? then n.exponent.value.letter else At(rest, 0)
  {
    if n.exponent.None? {
      assert ExponentText(n) + rest == rest;
    }
  }

  lemma NumeralReads(n: Numeral, rest: Text)
    requires NumeralOk(n) && EndsNumber(rest)
    ensures var s := NumeralText(n) + rest;
      s != [] && (s[0] == MINUS || IsDigit(s[0])) && ParseNumber(s) == (Number(NumeralValue(n)), rest)
  {
    hide IntegerPart, FractionPart, ParseExponent, FractionText, ExponentText, NumeralText, Scaled, NumeralValue;
    hide PlaceValue, ExponentValue, Ten;
    NumeralStarts(n, rest);
    var s, e := NumeralText(n) + rest, ExponentText(n) + rest;
    var f := if n.fraction.Some? then n.fraction.value else [];
    NumeralSign(n, rest);
    WholeReads(n, FractionText(n) + e);
    FractionReads(n, PlaceValue(n.whole), e);
    ExponentReads(n, rest);
    ValueScaled(n);
  }

  lemma ValueScaled(n: Numeral)
    requires NumeralOk(n)
    ensures var f := if n.fraction.Some? then n.fraction.value else [];
      Scaled(Signed(n.neg, PlaceValue(n.whole) * Ten(|f|) + PlaceValue(f)), 0 - |f| + ExponentValue(n)) ==
      NumeralValue(n)
  {
    hide Scaled, Magnitude, Pow10, PowerOfTen, PlaceValue, ExponentValue;
    var f := if n.fraction.Some? then n.fraction.value else [];
    ScaledValue(n.neg, PlaceValue(n.whole), PlaceValue(f), |f|, ExponentValue(n));
    Pow10Is(ExponentValue(n));
  }

  lemma NumeralSign(n: Numeral, rest: Text)
    requires NumeralOk(n)
    ensures At(NumeralText(n) + rest, 0) == MINUS <==> n.neg
  {
    if !n.neg {
      assert (NumeralText(n) + rest)[0] == n.whole[0];
    }
  }

  // -------------------------------------------------------------------------------- strings

  /** A character by itself, an escape of two characters, or a `\u` escape. */
  datatype Piece = Raw(c: char8) | Short_(letter: char) | Escape_(e: Text, uc: nat)

  /** What the letters stand for. */
  const LETTERS: map<char, char8> :=
    map['"' := 34, '\\' := 92, '/' := 47, 'b' := 8, 'f' := 12, 'n' := 10, 'r' := 13, 't' := 9]

  predicate PieceOk(p: Piece) {
    match p
    case Raw(c) => c != '"' as int && c != '\\' as int
    case Short_(l) => l in LETTERS
    case Escape_(e, uc) => IsEscape(e, uc) && IsCharacter(uc)
  }

  function PieceText(p: Piece): Text
    requires PieceOk(p)
  {
    match p
    case Raw(c) => [c]
    case Short_(l) => ['\\' as int, l as int]
    case Escape_(e, _) => e
  }

  function PieceBytes(p: Piece): Text
    requires PieceOk(p)
  {
    match p
    case Raw(c) => [c]
    case Short_(l) => [LETTERS[l]]
    case Escape_(_, uc) => Utf8(uc)
  }

  predicate PiecesOk(ps: seq<Piece>) { forall i :: 0 <= i < |ps| ==> PieceOk(ps[i]) }

  function PiecesText(ps: seq<Piece>): Text
    requires PiecesOk(ps)
  {
    if ps == [] then [] else PieceText(ps[0]) + PiecesText(ps[1..])
  }

  function PiecesBytes(ps: seq<Piece>): Text
    requires PiecesOk(ps)
  {
    if ps == [] then [] else PieceBytes(ps[0]) + PiecesBytes(ps[1..])
  }

  lemma LettersAre(l: char)
    requires l in LETTERS
    ensures l as int > 32 && l as int < 256 && l as int != 117
    ensures forall s: Text :: s != [] && s[0] == l as int ==> Escape(s) == ([LETTERS[l]], 1)
  {
  }

  lemma PieceReads(p: Piece, more: Text)
    requires PieceOk(p)
    ensures ParseChars(PieceText(p) + more) == (PieceBytes(p) + ParseChars(more).0, ParseChars(more).1)
  {
    hide Escape, Utf8, IsEscape;
    var s := PieceText(p) + more;
    match p
    case Raw(c) => assert s[1..] == more;
    case Short_(l) =>
      LettersAre(l);
      assert s[1..][0] == l as int && Tail(s, 2) == more;
    case Escape_(e, uc) => OneRead(e, uc, more);
  }

  lemma {:induction false} PiecesRead(ps: seq<Piece>, rest: Text)
    requires PiecesOk(ps) && rest != [] && rest[0] == QUOTE
    ensures ParseChars(PiecesText(ps) + rest) == (PiecesBytes(ps), rest)
  {
    hide ParseChars, PieceOk, PieceText, PieceBytes;
    if ps == [] {
      assert PiecesText(ps) + rest == rest;
      QuoteEnds(rest);
    } else {
      assert PieceOk(ps[0]);
      PiecesRead(ps[1..], rest);
      PieceReads(ps[0], PiecesText(ps[1..]) + rest);
      assert PiecesText(ps) + rest == PieceText(ps[0]) + (PiecesText(ps[1..]) + rest);
    }
  }

  lemma PieceStays(p: Piece, more: Text, len: nat)
    requires PieceOk(p) && Content(more, len) && Stays(more)
    ensures Stays(PieceText(p) + more) && exists k :: Content(PieceText(p) + more, k)
  {
    hide Escape, IsEscape;
    var s := PieceText(p) + more;
    match p
    case Raw(c) =>
      assert s[1..] == more;
      assert Content(s, len + 1);
    case Short_(l) =>
      LettersAre(l);
      assert s[1..][0] == l as int && s[2..] == more;
      assert Content(s, len + 1);
    case Escape_(e, uc) => EscapeStays(e, uc, more, len);
  }

  lemma {:induction false} PiecesStay(ps: seq<Piece>) returns (len: nat)
    requires PiecesOk(ps)
    ensures Content(PiecesText(ps), len) && Stays(PiecesText(ps))
  {
    if ps == [] {
      len := 0;
    } else {
      hide Stays, Measured, PieceOk, PieceText;
      assert PieceOk(ps[0]);
      var k := PiecesStay(ps[1..]);
      PieceStays(ps[0], PiecesText(ps[1..]), k);
      len :| Content(PieceText(ps[0]) + PiecesText(ps[1..]), len);
    }
  }

  function StringText(ps: seq<Piece>): Text
    requires PiecesOk(ps)
  {
    ['"' as int] + PiecesText(ps) + ['"' as int]
  }

  lemma StringReads(ps: seq<Piece>, rest: Text)
    requires PiecesOk(ps)
    ensures ParseString(StringText(ps) + rest) == Some((PiecesBytes(ps), rest))
    ensures At(StringText(ps) + rest, 0) == QUOTE && SafeString(StringText(ps) + rest)
  {
    hide PiecesText, PiecesBytes, ParseChars, StringSafe, Stays, Measured;
    var x, close := PiecesText(ps), [QUOTE] + rest;
    Nested([QUOTE], x, rest);
    var s := StringText(ps) + rest;
    assert s == [QUOTE] + (x + close);
    Behind(QUOTE, x + close);
    Behind(QUOTE, rest);
    PiecesRead(ps, close);
    var len := PiecesStay(ps);
    SafeIff(x, len);
    assert x + close == x + [QUOTE] + rest;
  }
}
