/** Options, powers of two, and the letters of digits. */
module Basics {
  datatype Option<+T> = None | Some(value: T)

  function Pow2(k: nat): (r: nat)
    ensures r > 0
  {
    if k == 0 then 1 else 2 * Pow2(k - 1)
  }

  lemma {:induction false} Pow2Add(j: nat, k: nat)
    ensures Pow2(j + k) == Pow2(j) * Pow2(k)
  {
    if j > 0 {
      Pow2Add(j - 1, k);
    }
  }

  lemma {:induction false} Pow2Mono(j: nat, k: nat)
    requires j <= k
    ensures Pow2(j) <= Pow2(k)
  {
    if j < k {
      Pow2Mono(j, k - 1);
    }
  }

  const LOWER: string := "0123456789abcdef"
  const UPPER: string := "0123456789ABCDEF"

  /** Where the characters of the alphabets lie. */
  lemma AlphabetIs()
    ensures forall d :: 0 <= d < 10 ==> LOWER[d] as int == UPPER[d] as int == 48 + d
    ensures forall d :: 10 <= d < 16 ==> LOWER[d] as int == 87 + d && UPPER[d] as int == 55 + d
  {
    assert LOWER[0] == '0' && LOWER[9] == '9' && LOWER[10] == 'a' && LOWER[15] == 'f';
  }

  /** The character for a digit. */
  function Letter(d: nat, upper: bool): int
    requires d < 16
  {
    (if upper then UPPER[d] else LOWER[d]) as int
  }
}
