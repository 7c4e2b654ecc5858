/**
  What the fields of a rule mean, and the byte-wise tests that the mini-tries of
  acl_bld.c perform for them.

  Field values of a rule are stored least significant byte first (`b[n]` is byte
  `n` of the value, as on the little-endian host); packet bytes `s` come most
  significant byte first.
*/
module AclField {
  import opened Basics
  import opened AclTrie

  /** Value of packet bytes, most significant first. */
  function BigEndian(s: seq<byte>): (v: nat)
    ensures v < Pow2(8 * |s|)
  {
    if s == [] then 0
    else
      Pow2Add(8, 8 * |s[1..]|);
      assert Pow2(8) == 256;
      Bound(s[0], BigEndian(s[1..]), Pow2(8 * |s[1..]|), 256);
      s[0] * Pow2(8 * |s[1..]|) + BigEndian(s[1..])
  }

  /** Value of stored bytes, least significant first. */
  function LittleEndian(b: seq<byte>): (v: nat)
    ensures v < Pow2(8 * |b|)
  {
    if b == [] then 0
    else
      var n := |b| - 1;
      Pow2Add(8, 8 * n);
      assert Pow2(8) == 256;
      Bound(b[n], LittleEndian(b[..n]), Pow2(8 * n), 256);
      b[n] * Pow2(8 * n) + LittleEndian(b[..n])
  }

  lemma Bound(q: nat, r: nat, m: nat, k: nat)
    requires q < k && r < m
    ensures q * m + r < k * m
  {
    assert (q + 1) * m <= k * m;
  }

  /** The first `size` bytes of a stored number. */
  function Bytes(v: nat, size: nat): (b: seq<byte>)
    ensures |b| == size
  {
    if size == 0 then [] else [v % 256] + Bytes(v / 256, size - 1)
  }

  // --------------------------------------------------------------------- bitwise and

  function BitAnd(x: nat, y: nat): (r: nat)
    ensures r <= x && r <= y
  {
    if x == 0 || y == 0 then 0 else 2 * BitAnd(x / 2, y / 2) + (if x % 2 == 1 && y % 2 == 1 then 1 else 0)
  }

  function Shl(a: nat, k: nat): nat {
    if k == 0 then a else 2 * Shl(a, k - 1)
  }

  lemma {:induction false} ShlIsMul(a: nat, k: nat)
    ensures Shl(a, k) == a * Pow2(k)
  {
    if k > 0 {
      ShlIsMul(a, k - 1);
      assert a * (2 * Pow2(k - 1)) == 2 * (a * Pow2(k - 1));
    }
  }

  lemma {:induction false} BitAndShl(a: nat, b: nat, c: nat, d: nat, k: nat)
    requires b < Pow2(k) && d < Pow2(k)
    ensures BitAnd(Shl(a, k) + b, Shl(c, k) + d) == Shl(BitAnd(a, c), k) + BitAnd(b, d)
  {
    if k > 0 {
      hide BitAnd;
      var x, y, w := Shl(a, k - 1), Shl(c, k - 1), Shl(BitAnd(a, c), k - 1);
      assert BitAnd(x + b / 2, y + d / 2) == w + BitAnd(b / 2, d / 2) by {
        BitAndShl(a, b / 2, c, d / 2, k - 1);
      }
      assert BitAnd(2 * x + b, 2 * y + d) == 2 * w + BitAnd(b, d) by {
        HalfStep(x, b, y, d);
      }
      assert Shl(a, k) == 2 * x && Shl(c, k) == 2 * y && Shl(BitAnd(a, c), k) == 2 * w;
    } else {
      assert BitAnd(b, d) == 0;
    }
  }

  /** Bitwise and works on high and low parts separately. */
  lemma BitAndSplit(a: nat, b: nat, c: nat, d: nat, k: nat)
    requires b < Pow2(k) && d < Pow2(k)
    ensures BitAnd(a * Pow2(k) + b, c * Pow2(k) + d) == BitAnd(a, c) * Pow2(k) + BitAnd(b, d)
  {
    BitAndShl(a, b, c, d, k);
    ShlIsMul(a, k);
    ShlIsMul(c, k);
    ShlIsMul(BitAnd(a, c), k);
  }

  lemma HalfStep(u: nat, b: nat, v: nat, d: nat)
    ensures BitAnd(2 * u + b, 2 * v + d) ==
      2 * BitAnd(u + b / 2, v + d / 2) + (if b % 2 == 1 && d % 2 == 1 then 1 else 0)
    ensures BitAnd(b, d) == 2 * BitAnd(b / 2, d / 2) + (if b % 2 == 1 && d % 2 == 1 then 1 else 0)
  {
    assert (2 * u + b) / 2 == u + b / 2 && (2 * u + b) % 2 == b % 2;
    assert (2 * v + d) / 2 == v + d / 2 && (2 * v + d) % 2 == d % 2;
    BitAndHalf(2 * u + b, 2 * v + d);
    BitAndHalf(b, d);
  }

  lemma BitAndHalf(x: nat, y: nat)
    ensures BitAnd(x, y) == 2 * BitAnd(x / 2, y / 2) + (if x % 2 == 1 && y % 2 == 1 then 1 else 0)
  {
  }

  lemma UniqueParts(q: nat, r: nat, q': nat, r': nat, m: nat)
    requires r < m && r' < m
    ensures q * m + r == q' * m + r' <==> q == q' && r == r'
    ensures q * m + r <= q' * m + r' <==> q < q' || (q == q' && r <= r')
  {
    if q < q' { assert (q + 1) * m <= q' * m; }
    if q' < q { assert (q' + 1) * m <= q * m; }
  }

  // ------------------------------------------------------------------- mask fields

  /** The test of a mask mini-trie: byte by byte, from the most significant. */
  predicate MaskBytesMatch(s: seq<byte>, val: seq<byte>, msk: seq<byte>)
    requires |s| == |val| == |msk|
  {
    s == [] ||
    (var n := |s| - 1;
     BitAnd(s[0], msk[n]) == BitAnd(val[n], msk[n]) && MaskBytesMatch(s[1..], val[..n], msk[..n]))
  }

  /** Byte-wise masked equality is masked equality of the whole value. */
  lemma {:induction false} MaskBytesExact(s: seq<byte>, val: seq<byte>, msk: seq<byte>)
    requires |s| == |val| == |msk|
    ensures MaskBytesMatch(s, val, msk) <==>
      BitAnd(BigEndian(s), LittleEndian(msk)) == BitAnd(LittleEndian(val), LittleEndian(msk))
  {
    hide BitAnd, Pow2;
    if s != [] {
      var n := |s| - 1;
      var m := Pow2(8 * n);
      MaskBytesExact(s[1..], val[..n], msk[..n]);
      BitAndSplit(s[0], BigEndian(s[1..]), msk[n], LittleEndian(msk[..n]), 8 * n);
      BitAndSplit(val[n], LittleEndian(val[..n]), msk[n], LittleEndian(msk[..n]), 8 * n);
      UniqueParts(BitAnd(s[0], msk[n]), BitAnd(BigEndian(s[1..]), LittleEndian(msk[..n])),
                  BitAnd(val[n], msk[n]), BitAnd(LittleEndian(val[..n]), LittleEndian(msk[..n])), m);
    }
  }

  // --------------------------------------------------- prefix lengths and their masks

  /** `RTE_ACL_MASKLEN_TO_BITMASK`: shift a 64-bit all-ones word, keep 32 bits. */
  function MaskLenToBitmask(len: nat, size: nat): nat
    requires len <= 8 * size
  {
    if len == 0 then 0 else Truncated(64, 32, 8 * size - len)
  }

  /** A word of `j` bits with ones from bit `k` up, cut to `w` bits. */
  function Truncated(j: nat, w: nat, k: nat): (r: nat)
    ensures r < Pow2(w)
  {
    (Pow2(j) - Pow2(k)) % Pow2(w)
  }

  /** The mask that selects the `len` most significant bits. */
  function PrefixMask(len: nat, size: nat): int
    requires len <= 8 * size
  {
    Pow2(8 * size) - Pow2(8 * size - len)
  }

  lemma SmallMod(x: nat, q: nat, r: nat, m: nat)
    requires r < m && x == q * m + r
    ensures x % m == r && x / m == q
  {
    UniqueParts(q, r, x / m, x % m, m);
  }

  lemma SubMod(x: nat, q: nat, m: nat, p: nat)
    requires q > 0 && 0 < p <= m && x == q * m
    ensures x >= p && (x - p) % m == m - p
  {
    assert (q - 1) * m == q * m - m;
    assert x - p == (q - 1) * m + (m - p);
    SmallMod(x - p, q - 1, m - p, m);
  }

  /** `2^j - 2^k` modulo a power of two between them. */
  lemma MaskMod(j: nat, w: nat, k: nat)
    requires k <= w <= j
    ensures Pow2(j) >= Pow2(k) && (Pow2(j) - Pow2(k)) % Pow2(w) == Pow2(w) - Pow2(k)
  {
    hide Pow2;
    Pow2Add(j - w, w);
    Pow2Mono(k, w);
    SubMod(Pow2(j), Pow2(j - w), Pow2(w), Pow2(k));
  }

  lemma {:induction false} LittleEndianCons(h: byte, t: seq<byte>)
    ensures LittleEndian([h] + t) == h + 256 * LittleEndian(t)
  {
    hide LittleEndian, Pow2;
    var b := [h] + t;
    LittleEndianLast(b);
    if t == [] {
      Pow2Eight();
      LittleEndianNone();
      assert b[..0] == [];
    } else {
      var n := |t| - 1;
      LittleEndianLast(t);
      LittleEndianCons(h, t[..n]);
      assert b[..n + 1] == [h] + t[..n];
      Pow2Add(8, 8 * n);
      Pow2Eight();
      assert t[n] * (256 * Pow2(8 * n)) == 256 * (t[n] * Pow2(8 * n));
    }
  }

  lemma LittleEndianNone()
    ensures LittleEndian([]) == 0
  {
  }

  lemma LittleEndianLast(b: seq<byte>)
    requires b != []
    ensures LittleEndian(b) == b[|b| - 1] * Pow2(8 * (|b| - 1)) + LittleEndian(b[..|b| - 1])
  {
  }

  lemma Pow2Eight()
    ensures Pow2(8) == 256 && Pow2(0) == 1
  {
  }

  lemma {:induction false} BytesValue(v: nat, size: nat)
    ensures LittleEndian(Bytes(v, size)) == v % Pow2(8 * size)
  {
    if size > 0 {
      BytesValue(v / 256, size - 1);
      LittleEndianCons(v % 256, Bytes(v / 256, size - 1));
      var m := Pow2(8 * (size - 1));
      Pow2Add(8, 8 * (size - 1));
      assert Pow2(8) == 256;
      ModSplit(v, m);
    }
  }

  lemma ModSplit(v: nat, m: nat)
    requires m > 0
    ensures v % (256 * m) == v % 256 + 256 * (v / 256 % m)
  {
    var q, r := v / 256 / m, v / 256 % m;
    assert v == 256 * (q * m + r) + v % 256;
    assert v == q * (256 * m) + (256 * r + v % 256);
    SmallMod(v, q, 256 * r + v % 256, 256 * m);
  }

  /** The macro gives the prefix mask, except for non-empty prefixes of 8-byte fields. */
  lemma MaskLenExact(len: nat, size: nat)
    requires (size <= 4 || size == 8) && len <= 8 * size
    ensures LittleEndian(Bytes(MaskLenToBitmask(len, size), size)) == PrefixMask(len, size) <==> size <= 4 || len == 0
  {
    var m := MaskLenToBitmask(len, size);
    BytesValue(m, size);
    if len > 0 {
      MaskLenMod(len, size);
    } else {
      ModSmall(0, Pow2(8 * size));
    }
  }

  lemma MaskLenMod(len: nat, size: nat)
    requires (size <= 4 || size == 8) && 0 < len <= 8 * size
    ensures MaskLenToBitmask(len, size) % Pow2(8 * size) == PrefixMask(len, size) <==> size <= 4
  {
    hide Truncated, Pow2;
    if size <= 4 {
      TruncatedKeeps(64, 32, 8 * size, 8 * size - len);
    } else {
      TruncatedLoses(64, 32, 8 * size - len);
    }
  }

  lemma TruncatedKeeps(j: nat, w: nat, u: nat, k: nat)
    requires k <= u <= w <= j
    ensures Truncated(j, w, k) % Pow2(u) == Pow2(u) - Pow2(k)
  {
    MaskMod(j, w, k);
    MaskMod(w, u, k);
  }

  lemma TruncatedLoses(j: nat, w: nat, k: nat)
    requires w + 2 <= j && k < j
    ensures Truncated(j, w, k) % Pow2(j) != Pow2(j) - Pow2(k)
  {
    hide Truncated;
    Pow2Mono(w, j - 2);
    Pow2Mono(k, j - 1);
    var t := Truncated(j, w, k);
    assert t < Pow2(j - 2) && Pow2(j) == 2 * Pow2(j - 1) && Pow2(j - 1) == 2 * Pow2(j - 2);
    ModSmall(t, Pow2(j));
  }

  lemma ModSmall(t: nat, m: nat)
    requires t < m
    ensures t % m == t
  {
    SmallMod(t, 0, t, m);
  }

  lemma {:induction false} AndOnes(a: nat, len: nat)
    requires a < Pow2(len)
    ensures BitAnd(a, Pow2(len) - 1) == a
  {
    if len > 0 {
      AndOnes(a / 2, len - 1);
      BitAndHalf(a, Pow2(len) - 1);
    }
  }

  /** Equality under a prefix mask is equality of the leading bits. */
  lemma PrefixExact(x: nat, v: nat, len: nat, size: nat)
    requires len <= 8 * size && x < Pow2(8 * size) && v < Pow2(8 * size)
    ensures PrefixMask(len, size) >= 0
    ensures BitAnd(x, PrefixMask(len, size)) == BitAnd(v, PrefixMask(len, size)) <==>
      x / Pow2(8 * size - len) == v / Pow2(8 * size - len)
  {
    hide BitAnd, Pow2;
    var k := 8 * size - len;
    Pow2Add(len, k);
    PrefixSide(x, PrefixMask(len, size), Pow2(8 * size), len, k);
    PrefixSide(v, PrefixMask(len, size), Pow2(8 * size), len, k);
    EqualProducts(x / Pow2(k), v / Pow2(k), Pow2(k));
  }

  lemma EqualProducts(a: nat, b: nat, m: nat)
    requires m > 0
    ensures a * m == b * m <==> a == b
  {
    UniqueParts(a, 0, b, 0, m);
  }

  lemma PrefixSide(x: nat, mask: int, all: nat, len: nat, k: nat)
    requires all == Pow2(len) * Pow2(k) && mask == all - Pow2(k) && x < all
    ensures mask >= 0 && BitAnd(x, mask) == x / Pow2(k) * Pow2(k)
  {
    var m, n := Pow2(k), Pow2(len);
    HighMask(mask, all, n, m);
    QuotientBound(x, n, m, all);
    AndHigh(x, x / m, x % m, n - 1, mask, len, k);
  }

  lemma HighMask(mask: int, all: nat, n: nat, m: nat)
    requires all == n * m && mask == all - m && n > 0
    ensures mask == (n - 1) * m && mask >= 0
  {
  }

  lemma QuotientBound(x: nat, n: nat, m: nat, nm: nat)
    requires m > 0 && nm == n * m && x < nm
    ensures x / m < n && x == x / m * m + x % m
  {
    UniqueParts(x / m, x % m, n, 0, m);
  }

  lemma AndHigh(x: nat, a: nat, b: nat, ones: nat, mask: nat, len: nat, k: nat)
    requires x == a * Pow2(k) + b && b < Pow2(k) && a < Pow2(len) && ones == Pow2(len) - 1 && mask == ones * Pow2(k)
    ensures BitAnd(x, mask) == a * Pow2(k)
  {
    hide BitAnd, Pow2;
    BitAndSplit(a, b, ones, 0, k);
    AndOnes(a, len);
    AndZero(b);
  }

  lemma {:induction false} AndZero(a: nat)
    ensures BitAnd(a, 0) == 0
  {
    if a > 0 { AndZero(a / 2); }
  }

  // ------------------------------------------------------------------ range fields

  /** The test of one chain of a range mini-trie: every byte within its own bounds. */
  predicate InBox(s: seq<byte>, lo: seq<byte>, hi: seq<byte>)
    requires |s| == |lo| == |hi|
  {
    s == [] ||
    (var n := |s| - 1;
     lo[n] <= s[0] <= hi[n] && InBox(s[1..], lo[..n], hi[..n]))
  }

  predicate AllBytes(b: seq<byte>, x: byte) {
    forall n :: 0 <= n < |b| ==> b[n] == x
  }

  function Fill(x: byte, size: nat): (b: seq<byte>)
    ensures |b| == size && AllBytes(b, x)
  {
    seq(size, _ => x)
  }

  /** `limit_lo` or `limit_hi` of the source: `x` everywhere, `top` in the last place. */
  function Limit(x: byte, top: byte, size: nat): (b: seq<byte>)
    requires size > 0
    ensures |b| == size && b[size - 1] == top && b[..size - 1] == Fill(x, size - 1)
  {
    Fill(x, size - 1) + [top]
  }

  function After(x: byte): byte { if x == 255 then 0 else x + 1 }

  function Before(x: byte): byte { if x == 0 then 255 else x - 1 }

  /**
    The test of a range mini-trie: up to three boxes, told apart by the first byte. The bounds of the last one may wrap
    around.
  */
  predicate RangeBytesMatch(s: seq<byte>, lo: seq<byte>, hi: seq<byte>)
    requires |s| == |lo| == |hi| > 0
  {
    var n := |s| - 1;
    if lo[n] == hi[n] then InBox(s, lo, hi)
    else
      var hiFF, lo00 := AllBytes(hi[..n], 255), AllBytes(lo[..n], 0);
      || (!hiFF && InBox(s, Limit(0, hi[n], n + 1), hi))
      || (!lo00 && InBox(s, lo, Limit(255, lo[n], n + 1)))
      || ((hi[n] as int - lo[n] as int > 1 || lo00 || hiFF) &&
          InBox(s, Limit(0, if lo00 then lo[n] else After(lo[n]), n + 1),
            Limit(255, if hiFF then hi[n] else Before(hi[n]), n + 1)))
  }

  /** The box between `lo` and `hi` is the interval between them. */
  predicate BoxIsInterval(lo: seq<byte>, hi: seq<byte>)
    requires |lo| == |hi|
  {
    lo == [] ||
    (var n := |lo| - 1;
     if lo[n] == hi[n] then BoxIsInterval(lo[..n], hi[..n]) else AllBytes(lo[..n], 0) && AllBytes(hi[..n], 255))
  }

  /** The ranges for which a mini-trie is exact, if they are not inverted; all of one and two bytes are. */
  predicate Boxable(lo: seq<byte>, hi: seq<byte>)
    requires |lo| == |hi| > 0
  {
    var n := |lo| - 1;
    if lo[n] == hi[n] then BoxIsInterval(lo[..n], hi[..n])
    else BoxIsInterval(Fill(0, n), hi[..n]) && BoxIsInterval(lo[..n], Fill(255, n))
  }

  /**
    The same for all ranges: an inverted one must be so in the lower bytes only, or have the lowest and the highest of
    those.
  */
  predicate RangeIsExact(lo: seq<byte>, hi: seq<byte>)
    requires |lo| == |hi| > 0
  {
    var n := |lo| - 1;
    if LittleEndian(lo) <= LittleEndian(hi) then Boxable(lo, hi)
    else lo[n] == hi[n] || (AllBytes(lo[..n], 0) && AllBytes(hi[..n], 255))
  }

  predicate Between(lo: nat, v: nat, hi: nat) {
    lo <= v <= hi
  }

  lemma {:induction false} LittleEndianFill(b: seq<byte>)
    ensures AllBytes(b, 0) <==> LittleEndian(b) == 0
    ensures AllBytes(b, 255) <==> LittleEndian(b) == Pow2(8 * |b|) - 1
  {
    if b != [] {
      var n := |b| - 1;
      var m := Pow2(8 * n);
      LittleEndianFill(b[..n]);
      Pow2Add(8, 8 * n);
      assert Pow2(8) == 256;
      UniqueParts(b[n], LittleEndian(b[..n]), 0, 0, m);
      UniqueParts(b[n], LittleEndian(b[..n]), 255, m - 1, m);
      assert 255 * m + (m - 1) == 256 * m - 1;
      assert AllBytes(b, 0) <==> b[n] == 0 && AllBytes(b[..n], 0);
      assert AllBytes(b, 255) <==> b[n] == 255 && AllBytes(b[..n], 255);
    }
  }

  lemma {:induction false} BoxFull(s: seq<byte>, lo: seq<byte>, hi: seq<byte>)
    requires |s| == |lo| == |hi| && AllBytes(lo, 0) && AllBytes(hi, 255)
    ensures InBox(s, lo, hi)
  {
    if s != [] { BoxFull(s[1..], lo[..|s| - 1], hi[..|s| - 1]); }
  }

  lemma {:induction false} BoxExact(s: seq<byte>, lo: seq<byte>, hi: seq<byte>)
    requires |s| == |lo| == |hi| && BoxIsInterval(lo, hi)
    ensures InBox(s, lo, hi) <==> Between(LittleEndian(lo), BigEndian(s), LittleEndian(hi))
  {
    if s != [] {
      var n := |s| - 1;
      var m := Pow2(8 * n);
      UniqueParts(lo[n], LittleEndian(lo[..n]), s[0], BigEndian(s[1..]), m);
      UniqueParts(s[0], BigEndian(s[1..]), hi[n], LittleEndian(hi[..n]), m);
      if lo[n] == hi[n] {
        BoxExact(s[1..], lo[..n], hi[..n]);
      } else {
        BoxFull(s[1..], lo[..n], hi[..n]);
        LittleEndianFill(lo[..n]);
        LittleEndianFill(hi[..n]);
      }
    }
  }

  lemma BetweenParts(s: seq<byte>, lo: seq<byte>, hi: seq<byte>)
    requires |s| == |lo| == |hi| > 0
    ensures var n := |s| - 1;
      Between(LittleEndian(lo), BigEndian(s), LittleEndian(hi)) <==>
        && (lo[n] < s[0] || (lo[n] == s[0] && LittleEndian(lo[..n]) <= BigEndian(s[1..])))
        && (s[0] < hi[n] || (s[0] == hi[n] && BigEndian(s[1..]) <= LittleEndian(hi[..n])))
  {
    var n := |s| - 1;
    UniqueParts(lo[n], LittleEndian(lo[..n]), s[0], BigEndian(s[1..]), Pow2(8 * n));
    UniqueParts(s[0], BigEndian(s[1..]), hi[n], LittleEndian(hi[..n]), Pow2(8 * n));
  }

  /** The three boxes in terms of the first byte and the rest. */
  lemma RangeBoxes(s: seq<byte>, lo: seq<byte>, hi: seq<byte>)
    requires |s| == |lo| == |hi| > 0 && lo[|s| - 1] < hi[|s| - 1]
    ensures var n := |s| - 1;
      RangeBytesMatch(s, lo, hi) <==>
        || (s[0] == hi[n] && InBox(s[1..], Fill(0, n), hi[..n]))
        || (s[0] == lo[n] && InBox(s[1..], lo[..n], Fill(255, n)))
        || lo[n] < s[0] < hi[n]
  {
    var n := |s| - 1;
    BoxFull(s[1..], Fill(0, n), Fill(255, n));
    assert AllBytes(hi[..n], 255) ==> hi[..n] == Fill(255, n);
    assert AllBytes(lo[..n], 0) ==> lo[..n] == Fill(0, n);
  }

  /** A range mini-trie tests exactly `lo <= v <= hi`, for boxable bounds. */
  lemma RangeExact(s: seq<byte>, lo: seq<byte>, hi: seq<byte>)
    requires |s| == |lo| == |hi| > 0 && lo[|s| - 1] <= hi[|s| - 1] && Boxable(lo, hi)
    ensures RangeBytesMatch(s, lo, hi) <==> Between(LittleEndian(lo), BigEndian(s), LittleEndian(hi))
  {
    var n := |s| - 1;
    BetweenParts(s, lo, hi);
    if lo[n] == hi[n] {
      BoxExact(s[1..], lo[..n], hi[..n]);
    } else {
      RangeBoxes(s, lo, hi);
      BoxExact(s[1..], Fill(0, n), hi[..n]);
      BoxExact(s[1..], lo[..n], Fill(255, n));
      LittleEndianFill(Fill(0, n));
      LittleEndianFill(Fill(255, n));
    }
  }

  lemma SmallRangesBoxable(lo: seq<byte>, hi: seq<byte>)
    requires 0 < |lo| == |hi| <= 2
    ensures Boxable(lo, hi)
  {
  }

  lemma {:induction false} BoxWithin(s: seq<byte>, lo: seq<byte>, hi: seq<byte>)
    requires |s| == |lo| == |hi| && InBox(s, lo, hi)
    ensures Between(LittleEndian(lo), BigEndian(s), LittleEndian(hi))
  {
    if s != [] {
      BoxWithin(s[1..], lo[..|s| - 1], hi[..|s| - 1]);
      BetweenParts(s, lo, hi);
    }
  }

  lemma {:induction false} BoxCorner(x: byte, lo: seq<byte>, hi: seq<byte>)
    requires |lo| == |hi| && (if x == 0 then AllBytes(lo, 0) else x == 255 && AllBytes(hi, 255))
    ensures InBox(Fill(x, |lo|), lo, hi)
  {
    if lo != [] {
      var n := |lo| - 1;
      BoxCorner(x, lo[..n], hi[..n]);
      assert Fill(x, n + 1)[1..] == Fill(x, n);
    }
  }

  /** An inverted range matches nothing, as it should, or the values of an edge box. */
  lemma InvertedRange(s: seq<byte>, lo: seq<byte>, hi: seq<byte>)
    requires |s| == |lo| == |hi| > 0 && LittleEndian(lo) > LittleEndian(hi) && RangeIsExact(lo, hi)
    ensures !RangeBytesMatch(s, lo, hi)
  {
    var n := |s| - 1;
    UniqueParts(lo[n], LittleEndian(lo[..n]), hi[n], LittleEndian(hi[..n]), Pow2(8 * n));
    if lo[n] == hi[n] && InBox(s, lo, hi) {
      BoxWithin(s, lo, hi);
    }
  }

  lemma InvertedEdge(lo: seq<byte>, hi: seq<byte>) returns (s: seq<byte>)
    requires |lo| == |hi| > 0 && LittleEndian(lo) > LittleEndian(hi) && !RangeIsExact(lo, hi)
    ensures |s| == |lo| && RangeBytesMatch(s, lo, hi)
  {
    var n := |lo| - 1;
    if !AllBytes(hi[..n], 255) {
      s := [hi[n]] + Fill(0, n);
      assert s[1..] == Fill(0, n);
      BoxCorner(0, Fill(0, n), hi[..n]);
    } else {
      s := [lo[n]] + Fill(255, n);
      assert s[1..] == Fill(255, n);
      BoxCorner(255, lo[..n], Fill(255, n));
    }
  }

  lemma {:induction false} BigEndianFill(x: byte, n: nat)
    ensures BigEndian(Fill(x, n)) == LittleEndian(Fill(x, n))
  {
    if n > 0 {
      BigEndianFill(x, n - 1);
      assert Fill(x, n)[1..] == Fill(x, n - 1) == Fill(x, n)[..n - 1];
    }
  }

  lemma {:induction false} NotInBox(s: seq<byte>, lo: seq<byte>, hi: seq<byte>, x: byte)
    requires |s| == |lo| == |hi| && AllBytes(s, x)
    requires exists n :: 0 <= n < |lo| && !(lo[n] <= x <= hi[n])
    ensures !InBox(s, lo, hi)
  {
    var k := |s| - 1;
    if lo[k] <= x <= hi[k] {
      var n :| 0 <= n < |lo| && !(lo[n] <= x <= hi[n]);
      assert !(lo[..k][n] <= x <= hi[..k][n]);
      NotInBox(s[1..], lo[..k], hi[..k], x);
    }
  }

  /** A value of the interval outside the box, when they differ. */
  lemma {:induction false} BoxGap(lo: seq<byte>, hi: seq<byte>) returns (s: seq<byte>)
    requires |lo| == |hi| && LittleEndian(lo) <= LittleEndian(hi) && !BoxIsInterval(lo, hi)
    ensures |s| == |lo| && !InBox(s, lo, hi) && Between(LittleEndian(lo), BigEndian(s), LittleEndian(hi))
  {
    var n := |lo| - 1;
    var m := Pow2(8 * n);
    UniqueParts(lo[n], LittleEndian(lo[..n]), hi[n], LittleEndian(hi[..n]), m);
    var t: seq<byte>;
    if lo[n] == hi[n] {
      t := BoxGap(lo[..n], hi[..n]);
      s := [lo[n]] + t;
    } else {
      var low := !AllBytes(lo[..n], 0);
      var x: byte := if low then 0 else 255;
      t := Fill(x, n);
      s := [if low then hi[n] else lo[n]] + t;
      NotInBox(t, lo[..n], hi[..n], x);
      BigEndianFill(x, n);
      LittleEndianFill(t);
    }
    assert s[1..] == t;
    BetweenParts(s, lo, hi);
  }

  /** For other bounds some value of the range is missed. */
  lemma RangeGap(lo: seq<byte>, hi: seq<byte>) returns (s: seq<byte>)
    requires |lo| == |hi| > 0 && LittleEndian(lo) <= LittleEndian(hi) && !Boxable(lo, hi)
    ensures lo[|lo| - 1] <= hi[|lo| - 1] && |s| == |lo|
    ensures !RangeBytesMatch(s, lo, hi) && Between(LittleEndian(lo), BigEndian(s), LittleEndian(hi))
  {
    var n := |lo| - 1;
    var m := Pow2(8 * n);
    UniqueParts(lo[n], LittleEndian(lo[..n]), hi[n], LittleEndian(hi[..n]), m);
    if lo[n] == hi[n] {
      s := BoxGap(lo, hi);
    } else {
      s := RangeGapAtEdge(lo, hi);
    }
  }

  lemma RangeGapAtEdge(lo: seq<byte>, hi: seq<byte>) returns (s: seq<byte>)
    requires |lo| == |hi| > 0 && lo[|lo| - 1] < hi[|lo| - 1] && !Boxable(lo, hi)
    ensures |s| == |lo| && !RangeBytesMatch(s, lo, hi) && Between(LittleEndian(lo), BigEndian(s), LittleEndian(hi))
  {
    var n := |lo| - 1;
    LittleEndianFill(Fill(0, n));
    LittleEndianFill(Fill(255, n));
    var t: seq<byte>;
    if !BoxIsInterval(Fill(0, n), hi[..n]) {
      t := BoxGap(Fill(0, n), hi[..n]);
      s := [hi[n]] + t;
    } else {
      t := BoxGap(lo[..n], Fill(255, n));
      s := [lo[n]] + t;
    }
    assert s[1..] == t;
    BetweenParts(s, lo, hi);
    RangeBoxes(s, lo, hi);
  }

  /** When a range mini-trie is exact, for all bounds. */
  lemma RangeExactIff(lo: seq<byte>, hi: seq<byte>)
    requires |lo| == |hi| > 0
    ensures RangeIsExact(lo, hi) <==> forall s: seq<byte> :: |s| == |lo| ==>
      (RangeBytesMatch(s, lo, hi) <==> Between(LittleEndian(lo), BigEndian(s), LittleEndian(hi)))
  {
    var n := |lo| - 1;
    UniqueParts(lo[n], LittleEndian(lo[..n]), hi[n], LittleEndian(hi[..n]), Pow2(8 * n));
    if RangeIsExact(lo, hi) {
      forall s: seq<byte> | |s| == |lo|
        ensures RangeBytesMatch(s, lo, hi) <==> Between(LittleEndian(lo), BigEndian(s), LittleEndian(hi))
      {
        if LittleEndian(lo) <= LittleEndian(hi) {
          RangeExact(s, lo, hi);
        } else {
          InvertedRange(s, lo, hi);
        }
      }
    } else if LittleEndian(lo) <= LittleEndian(hi) {
      var s := RangeGap(lo, hi);
    } else {
      var s := InvertedEdge(lo, hi);
    }
  }
}
