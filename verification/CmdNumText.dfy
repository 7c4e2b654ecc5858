/**
  Numbers as they are written: every value of every type, in every base, is a token that the
  automaton accepts for that value.
*/
module CmdNumText {
  import opened Basics
  import opened CmdNum

  /** How a number may be written. */
  datatype Form = Decimal | Octal | Hexadecimal(upper: bool) | Binary

  function BaseOf(form: Form): (base: nat)
    ensures 2 <= base <= 16
  {
    match form
    case Decimal => 10 case Octal => 8 case Hexadecimal(_) => 16 case Binary => 2
  }

  function DigitsOf(n: nat, base: nat, upper: bool): (s: seq<int>)
    requires 2 <= base <= 16
    ensures s != []
  {
    if n < base then [Letter(n, upper)]
    else DigitsOf(n / base, base, upper) + [Letter(n % base, upper)]
  }

  /** A sign or a prefix, and the digits. */
  function Written(n: int, form: Form): seq<int>
    requires n < 0 ==> form.Decimal?
  {
    match form
    case Decimal => if n < 0 then [MINUS] + DigitsOf(-n, 10, false) else DigitsOf(n, 10, false)
    case Octal => [48] + DigitsOf(n, 8, false)
    case Hexadecimal(upper) => [48, 120] + DigitsOf(n, 16, upper)
    case Binary => [48, 98] + DigitsOf(n, 2, false)
  }

  lemma LetterIs(d: nat, upper: bool)
    requires d < 16
    ensures Digit(Letter(d, upper)) == d && (d == 0 <==> Letter(d, upper) == 48)
    ensures d < 8 ==> Letter(d, upper) != 120 && Letter(d, upper) != 98
    ensures !EndsToken(Letter(d, upper)) && Letter(d, upper) != MINUS
  {
    AlphabetIs();
  }

  /** The last digit and the others. */
  lemma DigitsStep(n: nat, base: nat, upper: bool) returns (q: nat, r: nat)
    requires 2 <= base <= 16
    ensures r < base && n == q * base + r && (n < base <==> q == 0) && (q > 0 ==> q < n)
    ensures DigitsOf(n, base, upper) == (if q == 0 then [] else DigitsOf(q, base, upper)) + [Letter(r, upper)]
  {
    q, r := n / base, n % base;
    Parts(n, base, q, r);
  }

  lemma Parts(n: nat, base: nat, q: nat, r: nat)
    requires base >= 2 && q == n / base && r == n % base
    ensures n == q * base + r && (n < base <==> q == 0) && (n < base ==> r == n) && (q > 0 ==> q < n) && q <= n / 2
  {
    assert n == q * base + r;
    Times(2, base, q);
  }

  lemma {:induction false} DigitsOfValue(n: nat, base: nat, upper: bool)
    requires 2 <= base <= 16
    ensures AllDigits(DigitsOf(n, base, upper), base) && ValueOf(DigitsOf(n, base, upper), base) == n
    decreases n
  {
    hide Letter, Digit, DigitsOf;
    var s := DigitsOf(n, base, upper);
    var q, r := DigitsStep(n, base, upper);
    LetterIs(r, upper);
    if n < base {
      assert s[..0] == [];
    } else {
      DigitsOfValue(q, base, upper);
      assert s[..|s| - 1] == DigitsOf(q, base, upper);
    }
  }

  /** Written digits end no token, and the first is a zero for zero only. */
  lemma {:induction false} DigitsOfShape(n: nat, base: nat, upper: bool)
    requires 2 <= base <= 16
    ensures var s := DigitsOf(n, base, upper);
      && (forall i :: 0 <= i < |s| ==> !EndsToken(s[i]))
      && s[0] != MINUS && (n > 0 ==> s[0] != 48)
      && (base <= 8 ==> s[0] != 120 && s[0] != 98)
    decreases n
  {
    hide Letter, EndsToken, DigitsOf;
    var q, r := DigitsStep(n, base, upper);
    LetterIs(r, upper);
    if n >= base {
      DigitsOfShape(q, base, upper);
    }
  }

  /** A number of `k` bits has at most `k` digits in any base. */
  lemma {:induction false} FewDigits(n: nat, base: nat, upper: bool, k: nat)
    requires 2 <= base <= 16 && n < Pow2(k) && k > 0
    ensures |DigitsOf(n, base, upper)| <= k
    decreases k
  {
    if n >= base {
      Parts(n, base, n / base, n % base);
      FewDigits(n / base, base, upper, k - 1);
    }
  }

  /** What is written denotes the number. */
  lemma WrittenDenotes(n: int, form: Form)
    requires n < 0 ==> form.Decimal?
    ensures Denotes(Written(n, form)) == Some(Num(n < 0, if n < 0 then -n else n))
  {
    var t, base := Written(n, form), BaseOf(form);
    var m, upper := if n < 0 then -n else n, form == Hexadecimal(true);
    var d := DigitsOf(m, base, upper);
    DigitsOfValue(m, base, upper);
    DigitsOfShape(m, base, upper);
    if n == 0 && form.Decimal? {
      LetterIs(0, false);
    } else if n >= 0 && form.Decimal? {
      assert t == d;
    } else if form.Decimal? || form.Octal? {
      assert t[1..] == d;
    } else {
      assert t[2..] == d;
    }
  }

  /**
    Every value of a type, written in any base and followed by the end of the text or an ending character, is a
    token of that type and denotes the value.
  */
  lemma WrittenIsAccepted(v: int, form: Form, ty: NumType, rest: seq<int>)
    requires InType(v, ty) && (v < 0 ==> form.Decimal?) && (rest == [] || CharIn(rest[0], ENDING))
    ensures Token(Written(v, form) + rest) == Written(v, form) && Accepted(Written(v, form), ty)
    ensures IntOf(Denotes(Written(v, form)).value) == v
  {
    hide Denotes, Fits, InType, Written;
    var n := if v < 0 then -v else v;
    WrittenDenotes(v, form);
    ValueFits(v, n, ty);
    WrittenShape(v, form);
    if rest != [] {
      EndsTokenIs(rest[0]);
    }
    TokenIs(Written(v, form), rest);
  }

  lemma ValueFits(v: int, n: nat, ty: NumType)
    requires InType(v, ty) && n == if v < 0 then -v else v
    ensures Fits(Num(v < 0, n), ty) && n < Pow2(64)
  {
    FitsIff(Num(v < 0, n), ty);
    Powers();
  }

  lemma WrittenShape(v: int, form: Form)
    requires (v < 0 ==> form.Decimal?) && 0 - Pow2(64) < v < Pow2(64)
    ensures |Written(v, form)| <= MAX_TOKEN
    ensures forall i :: 0 <= i < |Written(v, form)| ==> !EndsToken(Written(v, form)[i])
  {
    hide Pow2, DigitsOf;
    var n, upper := if v < 0 then -v else v, form == Hexadecimal(true);
    FewDigits(n, BaseOf(form), upper, 64);
    DigitsOfShape(n, BaseOf(form), upper);
  }

  lemma {:induction false} TokenIs(t: seq<int>, rest: seq<int>)
    requires (forall i :: 0 <= i < |t| ==> !EndsToken(t[i])) && (rest == [] || EndsToken(rest[0]))
    ensures Token(t + rest) == t
  {
    if t == [] {
      assert t + rest == rest;
    } else {
      assert (t + rest)[1..] == t[1..] + rest;
      TokenIs(t[1..], rest);
    }
  }

  /** Whatever is accepted is a value of the type. */
  lemma AcceptedInType(t: seq<int>, ty: NumType)
    requires Accepted(t, ty)
    ensures InType(IntOf(Denotes(t).value), ty) && (t[0] == MINUS ==> IsSigned(ty))
  {
    assert t[0] == MINUS ==> Denotes(t).value.neg;
  }
}
