/**
  The 64-bit transition word and `scalar_transition`.

  The word is kept as its two 32-bit halves: `hi` holds the node-type-specific
  bits, `lo` is `type * 2^29 + address`.
*/
module AclWord {
  import opened AclTrie

  const TYPE: nat := 0x2000_0000
  const DFA: nat := 0
  const SINGLE: nat := 1
  const QRANGE: nat := 3
  const MATCH: nat := 4
  const DFA_SIZE: nat := 256
  const GROUP_SIZE: nat := 64
  const QUAD_MAX: nat := 5

  datatype Word = Word(hi: bv32, lo: nat) {
    function Type(): nat { lo / TYPE }
    function Addr(): nat { lo % TYPE }
  }

  /** The transition that stands for "no rule matches". */
  const NoMatch: Word := Word(0, MATCH * TYPE)
  /** A single node at the end of the first area that leads to itself on zero bytes. */
  const Idle: Word := Word(0, SINGLE * TYPE + DFA_SIZE)
  const QuadSingle: bv32 := 0x7f7f7f7f

  // ------------------------------------------------------ bytes as numbers and as bits

  function Bit(b: bv8, m: bv8, v: nat): nat { if b & m != 0 then v else 0 }

  function ToNat(b: bv8): (n: nat)
    ensures n < 256
  {
    Bit(b, 1, 1) + Bit(b, 2, 2) + Bit(b, 4, 4) + Bit(b, 8, 8) + Bit(b, 16, 16) + Bit(b, 32, 32) + Bit(b, 64,
      64) + Bit(b, 128, 128)
  }

  function ToBits(n: nat): bv8
    requires n < 256
  {
    if n == 0 then 0 else ToBits(n - 1) + 1
  }

  lemma Successor(b: bv8)
    requires b != 255
    ensures ToNat(b + 1) == ToNat(b) + 1
  {
  }

  lemma {:induction false} ToBitsValue(n: nat)
    requires n < 256
    ensures ToNat(ToBits(n)) == n
  {
    if n > 0 {
      ToBitsValue(n - 1);
      assert ToNat(255) == 255;
      Successor(ToBits(n - 1));
    }
  }

  lemma Monotone(x: bv8, y: bv8)
    ensures x <= y <==> ToNat(x) <= ToNat(y)
  {
  }

  /** Position of a byte in the order of signed values. */
  function Pos(x: byte): (p: byte) {
    (x + 128) % 256
  }

  lemma FlipSign(x: bv8)
    ensures ToNat(x ^ 0x80) == Pos(ToNat(x))
  {
  }

  // -------------------------------------------------------------- the range comparison

  /** Byte `i` of a 32-bit word. */
  function ByteAt(w: bv32, i: nat): bv8
    requires i < 4
  {
    if i == 0 then (w & 0xff) as bv8
    else if i == 1 then ((w >> 8) & 0xff) as bv8
    else if i == 2 then ((w >> 16) & 0xff) as bv8
    else ((w >> 24) & 0xff) as bv8
  }

  function Pack(r0: bv8, r1: bv8, r2: bv8, r3: bv8): bv32 {
    (r0 as bv32) | ((r1 as bv32) << 8) | ((r2 as bv32) << 16) | ((r3 as bv32) << 24)
  }

  /** Four signed comparisons of `input` with the bytes of `ranges`, in one word. */
  function Compare(ranges: bv32, input: bv8): bv32 {
    var c := (input as bv32) * 0x01010101;
    var a := (ranges | 0x80808080) - (c & 0x7f7f7f7f);
    var b := c & 0x80808080;
    var a' := a & 0x80808080;
    a' ^ ((ranges ^ b) & (a' ^ b))
  }

  predicate SignedLe(x: bv8, y: bv8) {
    x ^ 0x80 <= y ^ 0x80
  }

  lemma Compare0(r0: bv8, r1: bv8, r2: bv8, r3: bv8, input: bv8)
    ensures Compare(Pack(r0, r1, r2, r3), input) & 0x80 != 0 <==> SignedLe(input, r0)
  {
  }

  lemma Compare1(r0: bv8, r1: bv8, r2: bv8, r3: bv8, input: bv8)
    ensures Compare(Pack(r0, r1, r2, r3), input) & 0x8000 != 0 <==> SignedLe(input, r1)
  {
  }

  lemma Compare2(r0: bv8, r1: bv8, r2: bv8, r3: bv8, input: bv8)
    ensures Compare(Pack(r0, r1, r2, r3), input) & 0x800000 != 0 <==> SignedLe(input, r2)
  {
  }

  lemma Compare3(r0: bv8, r1: bv8, r2: bv8, r3: bv8, input: bv8)
    ensures Compare(Pack(r0, r1, r2, r3), input) & 0x80000000 != 0 <==> SignedLe(input, r3)
  {
  }

  lemma CompareMask(ranges: bv32, input: bv8)
    ensures Compare(ranges, input) & 0x7f7f7f7f == 0
  {
  }

  /** Index of the lowest bit that is set, by halving. */
  function Bsf(a: bv32): nat
    requires a != 0
  {
    if a & 0xffff != 0 then Bsf16(a) else 16 + Bsf16(a >> 16)
  }

  function Bsf16(a: bv32): nat { if a & 0xff != 0 then Bsf8(a) else 8 + Bsf8(a >> 8) }

  function Bsf8(a: bv32): nat { if a & 0xf != 0 then Bsf4(a) else 4 + Bsf4(a >> 4) }

  function Bsf4(a: bv32): nat { if a & 3 != 0 then Bsf2(a) else 2 + Bsf2(a >> 2) }

  function Bsf2(a: bv32): nat { if a & 1 != 0 then 0 else 1 }

  function ScanForward(a: bv32, max: nat): nat {
    if a == 0 then max else Bsf(a)
  }

  /** The column that `scalar_transition` selects in a range node. */
  function Column(ranges: bv32, input: bv8): nat {
    ScanForward(Compare(ranges, input), 32) / 8
  }

  lemma ScanBytes(a: bv32)
    requires a & 0x7f7f7f7f == 0
    ensures ScanForward(a, 32) / 8 ==
      if a & 0x80 != 0 then 0 else if a & 0x8000 != 0 then 1 else if a & 0x800000 != 0 then 2
      else if a & 0x80000000 != 0 then 3 else 4
  {
  }

  /** The column is the number of the first boundary that is not below the input, in signed order. */
  lemma ColumnIs(r0: bv8, r1: bv8, r2: bv8, r3: bv8, input: bv8)
    ensures Column(Pack(r0, r1, r2, r3), input) ==
      if SignedLe(input, r0) then 0 else if SignedLe(input, r1) then 1
      else if SignedLe(input, r2) then 2 else if SignedLe(input, r3) then 3 else 4
  {
    CompareMask(Pack(r0, r1, r2, r3), input);
    ScanBytes(Compare(Pack(r0, r1, r2, r3), input));
    Compare0(r0, r1, r2, r3, input);
    Compare1(r0, r1, r2, r3, input);
    Compare2(r0, r1, r2, r3, input);
    Compare3(r0, r1, r2, r3, input);
  }

  lemma SignedOrderBits(a: bv8, b: bv8)
    ensures SignedLe(a, b) <==> Pos(ToNat(a)) <= Pos(ToNat(b))
  {
    FlipSign(a);
    FlipSign(b);
    Monotone(a ^ 0x80, b ^ 0x80);
  }

  lemma SignedOrder(x: byte, y: byte)
    ensures SignedLe(ToBits(x), ToBits(y)) <==> Pos(x) <= Pos(y)
  {
    ToBitsValue(x);
    ToBitsValue(y);
    SignedOrderBits(ToBits(x), ToBits(y));
  }

  /** The boundaries of a range node, packed. */
  function QuadBits(bounds: seq<byte>): bv32
    requires |bounds| == 4
  {
    Pack(ToBits(bounds[0]), ToBits(bounds[1]), ToBits(bounds[2]), ToBits(bounds[3]))
  }

  lemma FirstNotBelow(bounds: seq<byte>, x: byte, c: nat)
    requires |bounds| == 4
    requires c ==
      if SignedLe(ToBits(x), ToBits(bounds[0])) then 0 else if SignedLe(ToBits(x), ToBits(bounds[1])) then 1
      else if SignedLe(ToBits(x), ToBits(bounds[2])) then 2 else if SignedLe(ToBits(x), ToBits(bounds[3])) then 3 else 4
    ensures c <= 4
    ensures c < 4 ==> Pos(x) <= Pos(bounds[c])
    ensures forall j :: 0 <= j < c ==> Pos(bounds[j]) < Pos(x)
  {
    SignedOrder(x, bounds[0]);
    SignedOrder(x, bounds[1]);
    SignedOrder(x, bounds[2]);
    SignedOrder(x, bounds[3]);
  }

  lemma QuadColumn(bounds: seq<byte>, x: byte)
    requires |bounds| == 4
    ensures var c := Column(QuadBits(bounds), ToBits(x));
      && c <= 4
      && (c < 4 ==> Pos(x) <= Pos(bounds[c]))
      && (forall j :: 0 <= j < c ==> Pos(bounds[j]) < Pos(x))
  {
    ColumnIs(ToBits(bounds[0]), ToBits(bounds[1]), ToBits(bounds[2]), ToBits(bounds[3]), ToBits(x));
    FirstNotBelow(bounds, x, Column(QuadBits(bounds), ToBits(x)));
  }

  lemma ConstantColumns(input: bv8)
    ensures Column(QuadSingle, input) == 0
    ensures Column(0, 0) == 0
    ensures Column(0, input) <= 4
  {
    assert QuadSingle == Pack(0x7f, 0x7f, 0x7f, 0x7f) && 0 == Pack(0, 0, 0, 0);
    ColumnIs(0x7f, 0x7f, 0x7f, 0x7f, input);
    ColumnIs(0, 0, 0, 0, input);
    ColumnIs(0, 0, 0, 0, 0);
  }

  // ------------------------------------------------------------------- group offsets

  function Small(n: nat): bv32
    requires n < 4
  {
    if n == 0 then 0 else if n == 1 then 1 else if n == 2 then 2 else 3
  }

  /** Each group of 64 transitions has a storage group not after itself. */
  predicate GroupsOk(gr: seq<nat>) {
    |gr| == 4 && forall i :: 0 <= i < 4 ==> gr[i] <= i
  }

  /** `acl_dfa_gen_idx`: for every group the distance to where it is stored. */
  function GroupBits(gr: seq<nat>): bv32
    requires GroupsOk(gr)
  {
    (Small(0 - gr[0]) << 6) | (Small(1 - gr[1]) << 14) | (Small(2 - gr[2]) << 22) | (Small(3 - gr[3]) << 30)
  }

  lemma SmallShift(a: bv32, b: bv32, c: bv32, d: bv32)
    requires a < 4 && b < 4 && c < 4 && d < 4
    ensures var w := (a << 6) | (b << 14) | (c << 22) | (d << 30);
      && ByteAt(w, 0) as bv32 == a << 6
      && ByteAt(w, 1) as bv32 == b << 6
      && ByteAt(w, 2) as bv32 == c << 6
      && ByteAt(w, 3) as bv32 == d << 6
  {
  }

  lemma SmallValue(n: nat, b: bv8)
    requires n < 4 && b as bv32 == Small(n) << 6
    ensures ToNat(b) == 64 * n
  {
  }

  lemma GroupOffset(gr: seq<nat>, i: nat)
    requires GroupsOk(gr) && i < 4
    ensures ToNat(ByteAt(GroupBits(gr), i)) == 64 * (i - gr[i])
  {
    SmallShift(Small(0 - gr[0]), Small(1 - gr[1]), Small(2 - gr[2]), Small(3 - gr[3]));
    SmallValue(i - gr[i], ByteAt(GroupBits(gr), i));
  }

  // ------------------------------------------------------------------ scalar transition

  /** The entry of the table that `scalar_transition` reads. */
  function Target(w: Word, input: byte): int {
    if w.Type() != DFA then w.Addr() + Column(w.hi, ToBits(input))
    else w.Addr() + input - ToNat(ByteAt(w.hi, input / GROUP_SIZE))
  }

  /** `scalar_transition`. */
  function Step(tab: seq<Word>, w: Word, input: byte): Word
    requires 0 <= Target(w, input) < |tab|
  {
    tab[Target(w, input)]
  }

  lemma WordParts(hi: bv32, t: nat, addr: nat)
    requires addr < TYPE
    ensures Word(hi, t * TYPE + addr).Type() == t && Word(hi, t * TYPE + addr).Addr() == addr
  {
  }

  lemma DfaTarget(gr: seq<nat>, addr: nat, x: byte)
    requires GroupsOk(gr) && addr < TYPE
    ensures Target(Word(GroupBits(gr), DFA * TYPE + addr), x) == addr + 64 * gr[x / 64] + x % 64
  {
    WordParts(GroupBits(gr), DFA, addr);
    GroupOffset(gr, x / 64);
  }

  lemma SingleTarget(addr: nat, x: byte)
    requires addr < TYPE
    ensures Target(Word(QuadSingle, SINGLE * TYPE + addr), x) == addr
  {
    WordParts(QuadSingle, SINGLE, addr);
    ConstantColumns(ToBits(x));
  }

  /** No match stays within the first area, whatever the input. */
  lemma NoMatchTarget(x: byte)
    ensures 0 <= Target(NoMatch, x) <= 4
  {
    WordParts(0, MATCH, 0);
    ConstantColumns(ToBits(x));
  }

  lemma IdleTarget()
    ensures Target(Idle, 0) == DFA_SIZE
  {
    WordParts(0, SINGLE, DFA_SIZE);
    ConstantColumns(ToBits(0));
  }
}
