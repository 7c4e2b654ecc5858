/**
  cJSON: values, the printed form and the parser.

  A C string is a sequence of non-zero bytes; a pointer into one is the rest of
  the text, and the terminator reads as zero.
*/
module Json {
  import opened Basics

  type char8 = x: int | 0 < x < 256 witness 32
  type Text = seq<char8>

  datatype Value =
    | Null | False | True | Number(n: real) | String(s: Text)
    | Array(items: seq<Value>) | Object(members: seq<Member>)
  datatype Member = Member(name: Text, value: Value)

  const QUOTE: char8 := 34
  const COMMA: char8 := 44
  const MINUS: char8 := 45
  const DOT: char8 := 46
  const SLASH: char8 := 47
  const ZERO: char8 := 48
  const COLON: char8 := 58
  const BACKSLASH: char8 := 92
  const TAB: char8 := 9
  const NEWLINE: char8 := 10
  const SPACE: char8 := 32
  const OPEN_ARRAY: char8 := 91
  const CLOSE_ARRAY: char8 := 93
  const OPEN_OBJECT: char8 := 123
  const CLOSE_OBJECT: char8 := 125

  const NULL_TEXT: Text := [110, 117, 108, 108]
  const FALSE_TEXT: Text := [102, 97, 108, 115, 101]
  const TRUE_TEXT: Text := [116, 114, 117, 101]

  const INT_MAX: int := 0x7fff_ffff
  const INT_MIN: int := -0x8000_0000

  /** The character `k` places on; zero at the terminator. */
  function At(s: Text, k: nat): int { if k < |s| then s[k] else 0 }

  /** The pointer moved on by `k`. */
  function Tail(s: Text, k: nat): (r: Text)
    ensures |r| <= |s| && (k > 0 && s != [] ==> |r| < |s|)
  {
    if k <= |s| then s[k..] else []
  }

  predicate IsDigit(c: int) { ZERO <= c <= ZERO + 9 }

  // --------------------------------------------------------------------------- printing

  /** The letter after the backslash for a character with a short escape. */
  function Short(c: char8): Option<char8> {
    if c == QUOTE then Some(QUOTE) else if c == BACKSLASH then Some(BACKSLASH)
    else if c == 8 then Some(98) else if c == 12 then Some(102) else if c == 10 then Some(110)
    else if c == 13 then Some(114) else if c == 9 then Some(116) else None
  }

  function HexChar(d: nat): char8
    requires d < 16
  {
    if d < 10 then ZERO + d else 87 + d
  }

  /** A character as it is printed in a string. */
  function Escaped(c: char8): (r: Text)
    ensures r != []
  {
    if Short(c).Some? then [BACKSLASH, Short(c).value]
    else if c < 32 then [BACKSLASH, 117, ZERO, ZERO, HexChar(c / 16), HexChar(c % 16)]
    else [c]
  }

  function EscapedAll(s: Text): Text {
    if s == [] then [] else Escaped(s[0]) + EscapedAll(s[1..])
  }

  /** `print_string_ptr`. */
  function PrintString(s: Text): Text { [QUOTE] + EscapedAll(s) + [QUOTE] }

  /** Decimal digits, most significant first. */
  function Decimal(n: nat): (r: Text)
    ensures r != []
  {
    if n < 10 then [ZERO + n] else Decimal(n / 10) + [ZERO + n % 10]
  }

  /** `%d`. */
  function PrintInt(n: int): Text { if n < 0 then [MINUS] + Decimal(-n) else Decimal(n) }

  predicate IsInt(r: real) { r == r.Floor as real && INT_MIN <= r.Floor <= INT_MAX }

  /** Repeated tabs; none for a negative number. */
  function Tabs(n: int): (r: Text)
    ensures |r| == if n < 0 then 0 else n
    ensures forall i :: 0 <= i < |r| ==> r[i] == TAB
  {
    if n <= 0 then [] else [TAB] + Tabs(n - 1)
  }

  /** Trees that print without fractions or exponents. */
  predicate Printable(v: Value) {
    match v
    case Number(n) => IsInt(n)
    case Array(items) => forall i :: 0 <= i < |items| ==> Printable(items[i])
    case Object(members) => forall i :: 0 <= i < |members| ==> Printable(members[i].value)
    case _ => true
  }

  /** `print_value`. */
  function Print(v: Value, depth: nat, fmt: bool): (r: Text)
    requires Printable(v)
    decreases v, 1
  {
    match v
    case Null => NULL_TEXT
    case False => FALSE_TEXT
    case True => TRUE_TEXT
    case Number(n) => PrintInt(n.Floor)
    case String(s) => PrintString(s)
    case Array(items) => [OPEN_ARRAY] + PrintItems(items, depth + 1, fmt) + [CLOSE_ARRAY]
    case Object(members) =>
      if members == [] then [OPEN_OBJECT] + (if fmt then [NEWLINE] + Tabs(depth - 1) else []) + [CLOSE_OBJECT]
      else [OPEN_OBJECT] + (if fmt then [NEWLINE] else []) + PrintMembers(members, depth + 1,
        fmt) + (if fmt then Tabs(depth) else []) + [CLOSE_OBJECT]
  }

  /** The elements of an array with the commas between them. */
  function PrintItems(items: seq<Value>, depth: nat, fmt: bool): Text
    requires forall i :: 0 <= i < |items| ==> Printable(items[i])
    decreases items, 0
  {
    if items == [] then []
    else Print(items[0], depth, fmt) + if |items| == 1 then [] else Comma(fmt) + PrintItems(items[1..], depth, fmt)
  }

  function Comma(fmt: bool): Text { if fmt then [COMMA, SPACE] else [COMMA] }

  /** The members of an object, each on its own line when formatted. */
  function PrintMembers(members: seq<Member>, depth: nat, fmt: bool): Text
    requires forall i :: 0 <= i < |members| ==> Printable(members[i].value)
    decreases members, 0
  {
    if members == [] then []
    else PrintMember(members[0], depth, fmt) + (if |members| ==
      1 then [] else [COMMA]) + (if fmt then [NEWLINE] else []) + PrintMembers(members[1..], depth, fmt)
  }

  function PrintMember(m: Member, depth: nat, fmt: bool): Text
    requires Printable(m.value)
    decreases m, 2
  {
    (if fmt then Tabs(depth) else []) + PrintString(m.name) + (if fmt then [COLON, TAB] else [COLON]) +
    Print(m.value, depth, fmt)
  }

  // ---------------------------------------------------------------------------- parsing

  /** `skip`. */
  function Skip(s: Text): (r: Text)
    ensures |r| <= |s|
  {
    if s != [] && s[0] <= 32 then Skip(s[1..]) else s
  }

  /** Read digits into an accumulator. */
  function Digits(acc: nat, s: Text): (r: (nat, Text))
    ensures |r.1| <= |s|
    decreases |s|
  {
    if s != [] && IsDigit(s[0]) then Digits(acc * 10 + (s[0] - ZERO), s[1..]) else (acc, s)
  }

  function Pow10(e: int): real
    decreases if e < 0 then -e else e
  {
    if e == 0 then 1.0 else if e > 0 then 10.0 * Pow10(e - 1) else Pow10(e + 1) / 10.0
  }

  function Scaled(k: int, e: int): real { k as real * Pow10(e) }

  function Signed(neg: bool, n: nat): int { if neg then 0 - n else n }

  /** A leading zero and the digits before the point. */
  function IntegerPart(s: Text): (r: (nat, Text))
    ensures |r.1| <= |s| && (IsDigit(At(s, 0)) ==> |r.1| < |s|)
  {
    var s2 := if At(s, 0) == ZERO then s[1..] else s;
    if ZERO < At(s2, 0) && IsDigit(At(s2, 0)) then Digits(0, s2) else (0, s2)
  }

  /** A point and the digits after it, read on into `n`, with the power of ten they take away. */
  function FractionPart(n: nat, s: Text): (r: (nat, int, Text))
    ensures |r.2| <= |s|
  {
    if At(s, 0) == DOT && IsDigit(At(s, 1)) then
      var (m, rest) := Digits(n, s[1..]);
      (m, |rest| - |s| + 1, rest)
    else (n, 0, s)
  }

  /** `parse_number`, over exact numbers. */
  function ParseNumber(s: Text): (r: (Value, Text))
    requires s != [] && (s[0] == MINUS || IsDigit(s[0]))
    ensures |r.1| < |s|
  {
    var neg := s[0] == MINUS;
    var (n, s1) := IntegerPart(if neg then s[1..] else s);
    var (m, scale, s2) := FractionPart(n, s1);
    var (e, s3) := ParseExponent(s2);
    (Number(Scaled(Signed(neg, m), scale + e)), s3)
  }

  /** The exponent part, zero if there is none. */
  function ParseExponent(s: Text): (r: (int, Text))
    ensures |r.1| <= |s|
  {
    if At(s, 0) == 101 || At(s, 0) == 69 then
      var neg := At(s, 1) == MINUS;
      var (e, rest) := Digits(0, if neg || At(s, 1) == 43 then Tail(s, 2) else s[1..]);
      (Signed(neg, e), rest)
    else (0, s)
  }

  function HexDigit(c: int): int {
    if IsDigit(c) then c - ZERO else if 65 <= c <= 70 then c - 55 else if 97 <= c <= 102 then c - 87 else -1
  }

  /** `parse_hex4`: zero when one of the four is not a digit. */
  function Hex4(s: Text): (h: nat)
    ensures h < 0x10000
  {
    var a, b, c, d := HexDigit(At(s, 0)), HexDigit(At(s, 1)), HexDigit(At(s, 2)), HexDigit(At(s, 3));
    if a < 0 || b < 0 || c < 0 || d < 0 then 0 else ((a * 16 + b) * 16 + c) * 16 + d
  }

  /** A code point in UTF-8. */
  function Utf8(uc: nat): Text
    requires 0 < uc < 0x110000
  {
    if uc < 0x80 then [uc]
    else if uc < 0x800 then [0xC0 + uc / 64, 0x80 + uc % 64]
    else if uc < 0x10000 then [0xE0 + uc / 4096, 0x80 + uc / 64 % 64, 0x80 + uc % 64]
    else [0xF0 + uc / 0x40000, 0x80 + uc / 4096 % 64, 0x80 + uc / 64 % 64, 0x80 + uc % 64]
  }

  /** What follows `\\u`: the bytes it stands for and how far to move on from the `u`. */
  function Unicode(s: Text): (r: (Text, nat))
    ensures r.1 > 0
  {
    var uc := Hex4(Tail(s, 1));
    if uc == 0 || 0xDC00 <= uc <= 0xDFFF then ([], 5)
    else if 0xD800 <= uc <= 0xDBFF then
      if At(s, 5) != BACKSLASH || At(s, 6) != 117 then ([], 5)
      else
        var uc2 := Hex4(Tail(s, 7));
        if uc2 < 0xDC00 || uc2 > 0xDFFF then ([], 11)
        else (Utf8(0x10000 + (uc - 0xD800) * 1024 + (uc2 - 0xDC00)), 11)
    else (Utf8(uc), 5)
  }

  /** An escape, from the character after the backslash: the bytes it stands for and its length. */
  function Escape(s: Text): (r: (Text, nat))
    ensures r.1 > 0
  {
    var c := At(s, 0);
    if c == 98 then ([8], 1) else if c == 102 then ([12], 1) else if c == 110 then ([10], 1)
    else if c == 114 then ([13], 1) else if c == 116 then ([9], 1)
    else if c == 117 then Unicode(s)
    else if c == 0 then ([], 1) else ([c], 1)
  }

  /** The characters of a string up to the closing quote or the end of the text. */
  function ParseChars(s: Text): (r: (Text, Text))
    ensures |r.1| <= |s|
    decreases |s|
  {
    if s == [] || s[0] == QUOTE then ([], s)
    else if s[0] != BACKSLASH then
      var (out, rest) := ParseChars(s[1..]);
      ([s[0]] + out, rest)
    else
      var (bytes, n) := Escape(s[1..]);
      var (out, rest) := ParseChars(Tail(s, 1 + n));
      (bytes + out, rest)
  }

  /** `parse_string`. */
  function ParseString(s: Text): (r: Option<(Text, Text)>)
    ensures r.Some? ==> |r.value.1| < |s|
  {
    if At(s, 0) != QUOTE then None
    else
      var (out, rest) := ParseChars(s[1..]);
      Some((out, Tail(rest, 1)))
  }

  predicate StartsWith(s: Text, word: Text) { |word| <= |s| && s[..|word|] == word }

  /** `parse_value`. */
  function ParseValue(s: Text): (r: Option<(Value, Text)>)
    ensures r.Some? ==> |r.value.1| < |s|
    decreases |s|, 1
  {
    if StartsWith(s, NULL_TEXT) then Some((Null, s[4..]))
    else if StartsWith(s, FALSE_TEXT) then Some((False, s[5..]))
    else if StartsWith(s, TRUE_TEXT) then Some((True, s[4..]))
    else if At(s, 0) == QUOTE then
      var r := ParseString(s);
      Some((String(r.value.0), r.value.1))
    else if At(s, 0) == MINUS || IsDigit(At(s, 0)) then Some(ParseNumber(s))
    else if At(s, 0) == OPEN_ARRAY then ParseArray(s)
    else if At(s, 0) == OPEN_OBJECT then ParseObject(s)
    else None
  }

  /** `parse_array`. */
  function ParseArray(s: Text): (r: Option<(Value, Text)>)
    requires At(s, 0) == OPEN_ARRAY
    ensures r.Some? ==> |r.value.1| < |s|
    decreases |s|, 0
  {
    var v := Skip(s[1..]);
    if At(v, 0) == CLOSE_ARRAY then Some((Array([]), v[1..]))
    else match ParseItems(v)
      case None => None
      case Some((items, rest)) => if At(rest, 0) == CLOSE_ARRAY then Some((Array(items), rest[1..])) else None
  }

  /** Values separated by commas, up to the first that is not followed by one. */
  function ParseItems(s: Text): (r: Option<(seq<Value>, Text)>)
    ensures r.Some? ==> |r.value.1| < |s|
    decreases |s|, 2
  {
    match ParseValue(Skip(s))
    case None => None
    case Some((item, after)) =>
      var rest := Skip(after);
      if At(rest, 0) != COMMA then Some(([item], rest))
      else match ParseItems(rest[1..])
        case None => None
        case Some((items, end)) => Some(([item] + items, end))
  }

  /** `parse_object`. */
  function ParseObject(s: Text): (r: Option<(Value, Text)>)
    requires At(s, 0) == OPEN_OBJECT
    ensures r.Some? ==> |r.value.1| < |s|
    decreases |s|, 0
  {
    var v := Skip(s[1..]);
    if At(v, 0) == CLOSE_OBJECT then Some((Object([]), v[1..]))
    else match ParseMembers(v)
      case None => None
      case Some((members, rest)) => if At(rest, 0) == CLOSE_OBJECT then Some((Object(members), rest[1..])) else None
  }

  /** One member: a string, a colon and a value, with the space after it skipped. */
  function ParseMember(s: Text): (r: Option<(Member, Text)>)
    ensures r.Some? ==> |r.value.1| < |s|
    decreases |s|, 2
  {
    match ParseString(Skip(s))
    case None => None
    case Some((name, afterName)) =>
      var colon := Skip(afterName);
      if At(colon, 0) != COLON then None
      else match ParseValue(Skip(colon[1..]))
        case None => None
        case Some((value, after)) => Some((Member(name, value), Skip(after)))
  }

  function ParseMembers(s: Text): (r: Option<(seq<Member>, Text)>)
    ensures r.Some? ==> |r.value.1| < |s|
    decreases |s|, 3
  {
    match ParseMember(s)
    case None => None
    case Some((m, rest)) =>
      if At(rest, 0) != COMMA then Some(([m], rest))
      else match ParseMembers(rest[1..])
        case None => None
        case Some((members, end)) => Some(([m] + members, end))
  }

  /** `cJSON_ParseWithOpts`: the value and the text after it. */
  function Parse(s: Text, requireEnd: bool): Option<(Value, Text)> {
    match ParseValue(Skip(s))
    case None => None
    case Some((v, rest)) =>
      if !requireEnd then Some((v, rest))
      else if Skip(rest) == [] then Some((v, [])) else None
  }
}
