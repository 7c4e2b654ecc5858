/**
  `cmdline_parse_num`: a one-pass automaton for numbers, against the grammar it
  accepts. Characters are bytes and the text ends with a zero that is not shown.
*/
module CmdNum {
  import opened Basics

  const UINT64_MAX: nat := 0xffff_ffff_ffff_ffff
  const MINUS: int := 45
  const MAX_TOKEN: nat := 127

  datatype NumType = UINT8 | UINT16 | UINT32 | UINT64 | INT8 | INT16 | INT32 | INT64

  /** `cmdline_isendoftoken`: the end of the text, a comment, a blank or the end of a line. */
  predicate EndsToken(c: int) { c == 0 || c == 35 || c == 32 || c == 9 || c == 10 || c == 13 }

  const ENDING: string := "# \t\n\r"

  predicate CharIn(c: int, s: string) { exists i :: 0 <= i < |s| && c == s[i] as int }

  lemma EndsTokenIs(c: int)
    ensures EndsToken(c) <==> c == 0 || CharIn(c, ENDING)
  {
    assert ENDING[0] == '#' && ENDING[1] == ' ' && ENDING[2] == '\t' && ENDING[3] == '\n' && ENDING[4] == '\r';
  }

  function Token(s: seq<int>): (t: seq<int>)
    ensures t <= s && (forall i :: 0 <= i < |t| ==> !EndsToken(t[i])) && (|t| < |s| ==> EndsToken(s[|t|]))
  {
    if s == [] || EndsToken(s[0]) then [] else [s[0]] + Token(s[1..])
  }

  // ------------------------------------------------------------------------- the grammar

  /** Value of a digit; negative for anything else. */
  function Digit(c: int): int {
    if 48 <= c <= 57 then c - 48 else if 97 <= c <= 102 then c - 87 else if 65 <= c <= 70 then c - 55 else -1
  }

  /** The digits are the characters of two alphabets. */
  lemma DigitIs(c: int, d: nat)
    ensures Digit(c) == d <==> d < 16 && (c == LOWER[d] as int || c == UPPER[d] as int)
    ensures Digit(c) >= 0 <==> CharIn(c, LOWER) || CharIn(c, UPPER)
  {
    AlphabetIs();
    if 0 <= Digit(c) {
      assert Digit(c) < 16 && (c == LOWER[Digit(c)] as int || c == UPPER[Digit(c)] as int);
    }
  }

  predicate IsDigit(c: int, base: nat) { 0 <= Digit(c) < base }

  predicate AllDigits(s: seq<int>, base: nat) { forall i :: 0 <= i < |s| ==> IsDigit(s[i], base) }

  function ValueOf(s: seq<int>, base: nat): nat
    requires AllDigits(s, base)
  {
    if s == [] then 0 else ValueOf(s[..|s| - 1], base) * base + Digit(s[|s| - 1])
  }

  /** A sign and a magnitude. */
  datatype Num = Num(neg: bool, mag: nat)

  function Digits(neg: bool, s: seq<int>, base: nat): Option<Num> {
    if s != [] && AllDigits(s, base) then Some(Num(neg, ValueOf(s, base))) else None
  }

  /** What a token denotes: decimal, negative decimal, zero, hexadecimal, binary or octal. */
  function Denotes(t: seq<int>): Option<Num> {
    if t == [] then None
    else if t[0] == MINUS then Digits(true, t[1..], 10)
    else if t[0] != 48 then Digits(false, t, 10)
    else if |t| == 1 then Some(Num(false, 0))
    else if t[1] == 120 then Digits(false, t[2..], 16)
    else if t[1] == 98 then Digits(false, t[2..], 2)
    else Digits(false, t[1..], 8)
  }

  predicate IsSigned(ty: NumType) { ty.INT8? || ty.INT16? || ty.INT32? || ty.INT64? }

  /** The bits of a type. */
  function Width(ty: NumType): (w: nat)
    ensures w > 0
  {
    match ty
    case UINT8 => 8 case INT8 => 8
    case UINT16 => 16 case INT16 => 16
    case UINT32 => 32 case INT32 => 32
    case UINT64 => 64 case INT64 => 64
  }

  /** The values of a type. */
  predicate InType(v: int, ty: NumType) {
    if IsSigned(ty) then 0 - Pow2(Width(ty) - 1) <= v < Pow2(Width(ty) - 1) else 0 <= v < Pow2(Width(ty))
  }

  function IntOf(n: Num): int { if n.neg then 0 - n.mag else n.mag }

  /** The type can hold the number; unsigned types take no sign at all. */
  predicate Fits(n: Num, ty: NumType) { InType(IntOf(n), ty) && (n.neg ==> IsSigned(ty)) }

  /** The limits of the code. */
  function MaxOf(ty: NumType): nat {
    match ty
    case UINT8 => 0xff case UINT16 => 0xffff case UINT32 => 0xffff_ffff case UINT64 => UINT64_MAX
    case INT8 => 0x7f case INT16 => 0x7fff case INT32 => 0x7fff_ffff case INT64 => 0x7fff_ffff_ffff_ffff
  }

  lemma FitsIff(n: Num, ty: NumType)
    ensures Fits(n, ty) <==> if n.neg then IsSigned(ty) && n.mag <= MaxOf(ty) + 1 else n.mag <= MaxOf(ty)
    ensures Fits(n, ty) ==> n.mag <= UINT64_MAX
  {
    hide Pow2;
    Powers();
  }

  lemma Powers()
    ensures Pow2(7) == 0x80 && Pow2(8) == 0x100 && Pow2(15) == 0x8000 && Pow2(16) == 0x1_0000
    ensures Pow2(31) == 0x8000_0000 && Pow2(32) == 0x1_0000_0000
    ensures Pow2(63) == 0x8000_0000_0000_0000 && Pow2(64) == UINT64_MAX + 1
  {
    assert Pow2(8) == 0x100;
    Pow2Add(8, 8);
    Pow2Add(16, 16);
    Pow2Add(32, 32);
  }

  /** The token is a number of the type, in at most 127 characters. */
  ghost predicate Accepted(t: seq<int>, ty: NumType) {
    |t| <= MAX_TOKEN && Denotes(t).Some? && Fits(Denotes(t).value, ty)
  }

  // ----------------------------------------------------------------------- the automaton

  datatype St = Start | DecNeg | Bin | Hex | Error | ZeroOk | HexOk | OctalOk | BinOk | DecNegOk | DecPosOk

  /** `add_to_res`: rejects exactly the results that do not fit 64 bits. */
  method AddToRes(c: nat, res: nat, base: nat) returns (ok: bool, r: nat)
    requires c < base <= 16 && res <= UINT64_MAX
    ensures ok <==> res * base + c <= UINT64_MAX
    ensures r == if ok then res * base + c else res
  {
    OverflowTest(c, res, base);
    if (UINT64_MAX - c) / base < res {
      return false, res;
    }
    return true, res * base + c;
  }

  lemma OverflowTest(c: nat, res: nat, base: nat)
    requires c < base <= 16
    ensures (UINT64_MAX - c) / base < res <==> res * base + c > UINT64_MAX
  {
    var q, r := (UINT64_MAX - c) / base, (UINT64_MAX - c) % base;
    assert UINT64_MAX - c == q * base + r;
    if q < res {
      Times(q + 1, res, base);
    } else {
      Times(res, q, base);
    }
  }

  lemma Times(a: nat, b: nat, k: nat)
    requires a <= b
    ensures a * k <= b * k
  {
  }

  /** The part of the token whose digits count, and their base, in each state. */
  function Body(st: St): (nat, nat) {
    match st
    case HexOk => (2, 16) case BinOk => (2, 2) case OctalOk => (1, 8) case DecNegOk => (1, 10) case _ => (0, 10)
  }

  predicate Counting(st: St) { st.HexOk? || st.BinOk? || st.OctalOk? || st.DecNegOk? || st.DecPosOk? }

  /** The text that leads to a state before any digit counts. */
  function Lead(st: St): seq<int> {
    match st
    case DecNeg => [MINUS] case DecNegOk => [MINUS]
    case ZeroOk => [48] case OctalOk => [48]
    case Hex => [48, 120] case HexOk => [48, 120]
    case Bin => [48, 98] case BinOk => [48, 98]
    case _ => []
  }

  /** What the automaton knows after reading `p`. */
  ghost predicate Knows(p: seq<int>, st: St, res: nat) {
    if Counting(st) then
      var (k, base) := Body(st);
      && |p| > k && p[..k] == Lead(st) && AllDigits(p[k..], base) && res == ValueOf(p[k..], base) <= UINT64_MAX
      && (st.DecPosOk? ==> p[0] != 48) && (st.OctalOk? ==> p[1] != 120 && p[1] != 98)
    else p == Lead(st) && res == 0
  }

  /** No token that starts with `p` is a number of 64 bits. */
  ghost predicate Hopeless(p: seq<int>) {
    forall t: seq<int> :: p <= t && Denotes(t).Some? ==> Denotes(t).value.mag > UINT64_MAX
  }

  lemma {:induction false} MoreDigits(a: seq<int>, t: seq<int>, base: nat)
    requires a <= t && AllDigits(t, base) && base >= 2
    ensures AllDigits(a, base) && ValueOf(a, base) <= ValueOf(t, base)
    decreases |t|
  {
    if a == t {
    } else {
      var u := t[..|t| - 1];
      assert a <= u;
      MoreDigits(a, u, base);
      Times(1, base, ValueOf(u, base));
    }
  }

  /** Once digits count, the form of the token is settled. */
  lemma FormIs(p: seq<int>, st: St, res: nat, t: seq<int>)
    requires Counting(st) && Knows(p, st, res) && p <= t
    ensures var (k, base) := Body(st); k <= |t| && Denotes(t) == Digits(st.DecNegOk?, t[k..], base)
  {
    var (k, base) := Body(st);
    assert t[..k] == p[..k] == Lead(st);
    assert k > 0 ==> t[0] == t[..k][0] == Lead(st)[0];
    assert k > 1 ==> t[1] == t[..k][1] == Lead(st)[1];
    assert t[0] == p[0] && (|p| > 1 ==> t[1] == p[1]);
    assert st.DecPosOk? ==> p[k..][0] == p[0] && IsDigit(p[0], 10) && t[0..] == t;
  }

  lemma NoDigit(p: seq<int>, st: St, res: nat, c: int)
    requires Counting(st) && Knows(p, st, res) && !IsDigit(c, Body(st).1)
    ensures Hopeless(p + [c])
  {
    var (k, base) := Body(st);
    forall t: seq<int> | p + [c] <= t ensures Denotes(t).None? {
      FormIs(p, st, res, t);
      assert t[|p|] == c && t[k..][|p| - k] == c;
    }
  }

  lemma OneMore(p: seq<int>, k: nat, base: nat, c: int)
    requires k <= |p| && AllDigits(p[k..], base) && IsDigit(c, base)
    ensures var q := p + [c];
      AllDigits(q[k..], base) && ValueOf(q[k..], base) == ValueOf(p[k..], base) * base + Digit(c)
  {
    var q := p + [c];
    assert q[k..] == p[k..] + [c];
    assert q[k..][..|q[k..]| - 1] == p[k..];
  }

  lemma CountDigit(p: seq<int>, st: St, res: nat, c: int)
    requires Counting(st) && Knows(p, st, res) && IsDigit(c, Body(st).1)
    ensures var r := res * Body(st).1 + Digit(c);
      if r <= UINT64_MAX then Knows(p + [c], st, r) else Hopeless(p + [c])
  {
    var (k, base) := Body(st);
    var q := p + [c];
    OneMore(p, k, base, c);
    assert q[..k] == p[..k];
    if res * base + Digit(c) > UINT64_MAX {
      forall t: seq<int> | q <= t && Denotes(t).Some? ensures Denotes(t).value.mag > UINT64_MAX {
        FormIs(p, st, res, t);
        assert t[..|q|] == q && t[k..][..|q| - k] == t[..|q|][k..];
        MoreDigits(q[k..], t[k..], base);
      }
    }
  }

  /** The first digit that counts. */
  lemma FirstDigit(p: seq<int>, st: St, c: int)
    requires Counting(st) && p == Lead(st) && IsDigit(c, Body(st).1)
    requires (st.DecPosOk? ==> c != 48) && (st.OctalOk? ==> c != 120 && c != 98)
    ensures Knows(p + [c], st, Digit(c))
  {
    var (k, base) := Body(st);
    var q := p + [c];
    assert k == |p| && p[k..] == [];
    OneMore(p, k, base, c);
    assert q[..k] == p;
  }

  /** A state that waits for a first digit and does not get one. */
  lemma NoFirstDigit(st: St, c: int)
    requires st.Start? || st.DecNeg? || st.Hex? || st.Bin? || st.ZeroOk?
    requires match st
      case Start => c != MINUS && !IsDigit(c, 10)
      case DecNeg => !IsDigit(c, 10)
      case Hex => !IsDigit(c, 16)
      case Bin => !IsDigit(c, 2)
      case _ => c != 120 && c != 98 && !IsDigit(c, 8)
    ensures Hopeless(Lead(st) + [c])
  {
    var p := Lead(st) + [c];
    forall t: seq<int> | p <= t ensures Denotes(t).None? {
      assert t[|Lead(st)|] == c && t[0] == p[0] && (|p| > 1 ==> t[1] == p[1]);
      assert |p| == 2 ==> t[1..][0] == c;
      assert |p| == 3 ==> t[2..][0] == c;
    }
  }

  /** One turn of the loop. */
  method Next(st: St, res: nat, c: int, ghost p: seq<int>) returns (st': St, res': nat)
    requires !st.Error? && Knows(p, st, res) && res <= UINT64_MAX
    ensures if st'.Error? then Hopeless(p + [c]) else Knows(p + [c], st', res')
    ensures res' <= UINT64_MAX
  {
    hide Hopeless, Knows;
    st', res' := st, res;
    if Counting(st) {
      st', res' := Count(st, res, c, p);
      return;
    }
    StartKnows(p, st, res);
    match st
    case Start =>
      if c == MINUS { st' := DecNeg; LeadKnows(p, c, DecNeg); }
      else if c == 48 { st' := ZeroOk; LeadKnows(p, c, ZeroOk); }
      else if IsDigit(c, 10) { st', res' := First(DecPosOk, c, p); }
      else { st' := Error; NoFirstDigit(st, c); }
    case ZeroOk =>
      if c == 120 { st' := Hex; LeadKnows(p, c, Hex); }
      else if c == 98 { st' := Bin; LeadKnows(p, c, Bin); }
      else if IsDigit(c, 8) { st', res' := First(OctalOk, c, p); }
      else { st' := Error; NoFirstDigit(st, c); }
    case DecNeg =>
      if IsDigit(c, 10) { st', res' := First(DecNegOk, c, p); } else { st' := Error; NoFirstDigit(st, c); }
    case Hex =>
      if IsDigit(c, 16) { st', res' := First(HexOk, c, p); } else { st' := Error; NoFirstDigit(st, c); }
    case Bin =>
      if IsDigit(c, 2) { st', res' := First(BinOk, c, p); } else { st' := Error; NoFirstDigit(st, c); }
  }

  lemma StartKnows(p: seq<int>, st: St, res: nat)
    requires !Counting(st) && Knows(p, st, res)
    ensures p == Lead(st) && res == 0
  {
  }

  lemma LeadKnows(p: seq<int>, c: int, st: St)
    requires !Counting(st) && p + [c] == Lead(st)
    ensures Knows(p + [c], st, 0)
  {
  }

  /** The first digit, added to nothing. */
  method First(st: St, c: int, ghost p: seq<int>) returns (st': St, res: nat)
    requires Counting(st) && p == Lead(st) && IsDigit(c, Body(st).1)
    requires (st.DecPosOk? ==> c != 48) && (st.OctalOk? ==> c != 120 && c != 98)
    ensures st' == st && res <= UINT64_MAX && Knows(p + [c], st', res)
  {
    var ok: bool;
    var base := if st.OctalOk? then 10 else Body(st).1;
    ok, res := AddToRes(Digit(c), 0, base);
    FirstDigit(p, st, c);
    st' := st;
  }

  method Count(st: St, res: nat, c: int, ghost p: seq<int>) returns (st': St, res': nat)
    requires Counting(st) && Knows(p, st, res) && res <= UINT64_MAX
    ensures if st'.Error? then Hopeless(p + [c]) else Knows(p + [c], st', res')
    ensures res' <= UINT64_MAX
  {
    hide Hopeless, Knows;
    st', res' := st, res;
    var base := Body(st).1;
    if IsDigit(c, base) {
      var ok: bool;
      CountDigit(p, st, res, c);
      ok, res' := AddToRes(Digit(c), res, base);
      if !ok {
        st' := Error;
      }
    } else {
      NoDigit(p, st, res, c);
      st' := Error;
    }
  }

  /** What a final state says about the token. */
  lemma AtEnd(t: seq<int>, st: St, res: nat)
    requires Knows(t, st, res) && !st.Error?
    ensures Counting(st) ==> Denotes(t) == Some(Num(st.DecNegOk?, res))
    ensures st.ZeroOk? ==> Denotes(t) == Some(Num(false, res))
    ensures !Counting(st) && !st.ZeroOk? ==> Denotes(t).None?
  {
    if Counting(st) {
      FormIs(t, st, res, t);
    } else {
      assert st.DecNeg? ==> t[1..] == [];
      assert st.Hex? || st.Bin? ==> t[2..] == [];
    }
  }

  /**
    `cmdline_parse_num`: accepts exactly the numbers of the type, and gives the value and the
    length of the token.
  */
  method ParseNum(s: seq<int>, ty: NumType) returns (len: int, value: int)
    ensures len >= 0 <==> Accepted(Token(s), ty)
    ensures len >= 0 ==> len == |Token(s)| && value == IntOf(Denotes(Token(s)).value)
  {
    hide Hopeless, Knows, Denotes, Fits;
    ghost var t := Token(s);
    var st: St, res: nat, i: nat := Start, 0, 0;
    NothingRead();
    while !st.Error? && i < |s| && !EndsToken(s[i])
      invariant i <= |t| && i <= MAX_TOKEN && res <= UINT64_MAX
      invariant if st.Error? then Hopeless(t[..i]) else Knows(t[..i], st, res)
    {
      assert i < |t| && t[i] == s[i] && t[..i + 1] == t[..i] + [s[i]];
      st, res := Next(st, res, s[i], t[..i]);
      i := i + 1;
      if i > MAX_TOKEN {
        return -1, 0;
      }
    }
    if st.Error? {
      HopelessToken(t, i, ty);
      return -1, 0;
    }
    assert t[..i] == t;
    AtEnd(t, st, res);
    FitsIff(Num(st.DecNegOk?, res), ty);
    if st.DecNegOk? {
      if IsSigned(ty) && res <= MaxOf(ty) + 1 {
        return i, 0 - res;
      }
      return -1, 0;
    }
    if (Counting(st) || st.ZeroOk?) && res <= MaxOf(ty) {
      return i, res;
    }
    return -1, 0;
  }

  lemma NothingRead()
    ensures Knows([], Start, 0)
  {
  }

  lemma HopelessToken(t: seq<int>, i: nat, ty: NumType)
    requires i <= |t| && Hopeless(t[..i])
    ensures !Accepted(t, ty)
  {
    assert t[..i] <= t;
    if Denotes(t).Some? && Fits(Denotes(t).value, ty) {
      FitsIff(Denotes(t).value, ty);
    }
  }
}
