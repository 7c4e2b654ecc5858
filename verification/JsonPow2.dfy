/** The size of the next buffer: `pow2gt` gives the smallest power of two that is not below its argument. */
module JsonPow2 {
  import opened Basics
  import opened Json

  /** Bitwise or. */
  function Or(a: nat, b: nat): nat {
    if a == 0 && b == 0 then 0 else 2 * Or(a / 2, b / 2) + if a % 2 == 1 || b % 2 == 1 then 1 else 0
  }

  function Shr(x: nat, k: nat): nat { if k == 0 then x else Shr(x / 2, k - 1) }

  function Smear(x: nat, k: nat): nat { Or(x, Shr(x, k)) }

  /** `pow2gt`. */
  function Pow2Gt(x: nat): nat
    requires x > 0
  {
    Smear(Smear(Smear(Smear(Smear(x - 1, 1), 2), 4), 8), 16) + 1
  }

  /** The smallest of `p`, `2 * p`, `4 * p` and so on that is not below `x`. */
  function RoundUp(x: nat, p: nat): (r: nat)
    requires p > 0
    ensures r >= x && r >= p
    decreases x - p
  {
    if x <= p then p else RoundUp(x, 2 * p)
  }

  lemma {:induction false} ShrAdd(x: nat, j: nat, k: nat)
    ensures Shr(Shr(x, j), k) == Shr(x, j + k)
    decreases j
  {
    if j > 0 {
      ShrAdd(x / 2, j - 1, k);
    }
  }

  lemma {:induction false} ShrOr(a: nat, b: nat, k: nat)
    ensures Shr(Or(a, b), k) == Or(Shr(a, k), Shr(b, k))
    decreases k
  {
    if k > 0 {
      ShrOr(a / 2, b / 2, k - 1);
    }
  }

  lemma OnesHalf(m: nat)
    requires m > 0
    ensures (Pow2(m) - 1) / 2 == Pow2(m - 1) - 1 && (Pow2(m) - 1) % 2 == 1
  {
  }

  lemma Pow2Zero()
    ensures Pow2(0) == 1
  {
  }

  lemma OrStep(a: nat, b: nat)
    ensures Or(a, b) == 2 * Or(a / 2, b / 2) + if a % 2 == 1 || b % 2 == 1 then 1 else 0
  {
  }

  /** Ones, and fewer ones from the bottom up to where they begin: no gap. */
  lemma {:induction false} OnesUnder(x: nat, n: nat, m: nat, k: nat)
    requires k <= n <= m && Shr(x, k) == Pow2(m) - 1
    ensures Or(x, Pow2(n) - 1) == Pow2(m + k) - 1
    decreases k
  {
    if k == 0 {
      FewerOnes(n, m);
    } else {
      hide Or;
      OnesUnder(x / 2, n - 1, m, k - 1);
      OnesHalf(n);
      OrStep(x, Pow2(n) - 1);
    }
  }

  lemma {:induction false} FewerOnes(n: nat, m: nat)
    requires n <= m
    ensures Or(Pow2(m) - 1, Pow2(n) - 1) == Pow2(m) - 1
    decreases m
  {
    if m > 0 {
      hide Or, Pow2;
      OnesHalf(m);
      OrStep(Pow2(m) - 1, Pow2(n) - 1);
      if n > 0 {
        OnesHalf(n);
        FewerOnes(n - 1, m - 1);
      } else {
        Pow2Zero();
        FewerOnes(0, m - 1);
      }
    }
  }

  lemma {:induction false} ShrOnes(m: nat, d: nat)
    ensures Shr(Pow2(m) - 1, d) == Pow2(if d <= m then m - d else 0) - 1
    decreases d
  {
    if d > 0 && m > 0 {
      assert (Pow2(m) - 1) / 2 == Pow2(m - 1) - 1;
      ShrOnes(m - 1, d - 1);
    } else if d > 0 {
      ShrOnes(0, d - 1);
    }
  }

  /** Of the `len` bits of `x`, the highest `m` are ones. */
  predicate TopOnes(x: nat, len: nat, m: nat) { m <= len && Shr(x, len - m) == Pow2(m) - 1 }

  lemma SmearGrows(x: nat, len: nat, m: nat, k: nat)
    requires TopOnes(x, len, m) && (k <= m || m == len)
    ensures TopOnes(Smear(x, k), len, if m + k <= len then m + k else len)
  {
    hide Shr, Or, Pow2;
    if m + k <= len {
      var j := len - m - k;
      ShrOr(x, Shr(x, k), j);
      ShrAdd(x, k, j);
      ShrAdd(x, j, k);
      OnesUnder(Shr(x, j), m, m, k);
    } else {
      ShrAdd(x, len - m, k - (len - m));
      ShrOnes(m, k - (len - m));
      OnesUnder(x, if k <= len then len - k else 0, m, len - m);
      ShrZero(Smear(x, k));
    }
  }

  lemma ShrZero(x: nat)
    ensures Shr(x, 0) == x
  {
  }

  function BitLength(x: nat): nat { if x == 0 then 0 else 1 + BitLength(x / 2) }

  lemma {:induction false} HighestBit(x: nat)
    requires x > 0
    ensures TopOnes(x, BitLength(x), 1)
  {
    if x > 1 {
      HighestBit(x / 2);
    }
  }

  lemma {:induction false} BitLengthIs(x: nat, len: nat)
    ensures BitLength(x) <= len <==> x < Pow2(len)
    decreases len
  {
    if len > 0 {
      BitLengthIs(x / 2, len - 1);
    }
  }

  lemma {:induction false} RoundUpIs(x: nat, j: nat, len: nat)
    requires j <= len && x <= Pow2(len) && (len > 0 ==> Pow2(len - 1) < x)
    ensures RoundUp(x, Pow2(j)) == Pow2(len)
    decreases len - j
  {
    if j < len {
      RoundUpIs(x, j + 1, len);
      Pow2Mono(j, len - 1);
    } else {
    }
  }

  lemma SmearedOnes(x: nat)
    requires 0 < x < Pow2(32)
    ensures Smear(Smear(Smear(Smear(Smear(x, 1), 2), 4), 8), 16) == Pow2(BitLength(x)) - 1
  {
    hide Smear, Shr, Pow2;
    var len := BitLength(x);
    BitLengthIs(x, 32);
    HighestBit(x);
    var a := Smear(x, 1);
    SmearGrows(x, len, 1, 1);
    var b := Smear(a, 2);
    SmearGrows(a, len, if 2 <= len then 2 else len, 2);
    var c := Smear(b, 4);
    SmearGrows(b, len, if 4 <= len then 4 else len, 4);
    var d := Smear(c, 8);
    SmearGrows(c, len, if 8 <= len then 8 else len, 8);
    var e := Smear(d, 16);
    SmearGrows(d, len, if 16 <= len then 16 else len, 16);
    ShrZero(e);
  }

  /**
    For every positive `int` the smallest power of two that is not below it; it is an `int` itself exactly up to 2^30.
  */
  lemma Pow2GtIs(x: nat)
    requires 0 < x <= INT_MAX
    ensures Pow2Gt(x) == RoundUp(x, 1)
    ensures Pow2Gt(x) <= INT_MAX <==> x <= 0x4000_0000
  {
    hide Smear;
    var y, len := x - 1, BitLength(x - 1);
    Pow2Values();
    if y > 0 {
      SmearedOnes(y);
      BitLengthIs(y, len - 1);
    } else {
      SmearedZero();
    }
    BitLengthIs(y, len);
    RoundUpIs(x, 0, len);
    BitLengthIs(y, 30);
    if len <= 30 {
      Pow2Mono(len, 30);
    } else {
      Pow2Mono(31, len);
    }
  }

  lemma Pow2Values()
    ensures Pow2(0) == 1 && Pow2(30) == 0x4000_0000 && Pow2(31) == 0x8000_0000 && Pow2(32) == 0x1_0000_0000
  {
    assert Pow2(8) == 0x100;
    assert Pow2(16) == 0x1_0000;
    assert Pow2(24) == 0x100_0000;
  }

  lemma SmearedZero()
    ensures Smear(Smear(Smear(Smear(Smear(0, 1), 2), 4), 8), 16) == 0
  {
    FewerOnes(0, 0);
    ShrOnes(0, 1);
    ShrOnes(0, 2);
    ShrOnes(0, 4);
    ShrOnes(0, 8);
    ShrOnes(0, 16);
  }
}
