/** Powers of two, for doubling intervals and for levels of verbosity. */
module Powers {
  function Pow2(n: nat): nat {
    if n == 0 then 1 else 2 * Pow2(n - 1)
  }

  lemma {:induction false} Pow2Positive(n: nat)
    ensures 1 <= Pow2(n)
  {
    if n != 0 { Pow2Positive(n - 1); }
  }

  lemma {:induction false} Pow2Grows(m: nat, n: nat)
    requires m <= n
    ensures Pow2(m) <= Pow2(n)
    decreases n - m
  {
    if m < n {
      Pow2Positive(n - 1);
      Pow2Grows(m, n - 1);
    }
  }

  /** The whole part of the logarithm to base 2. */
  function FloorLog2(n: nat): (k: nat)
    requires 1 <= n
    ensures Pow2(k) <= n < Pow2(k + 1)
  {
    if n == 1 then 0
    else
      var half := FloorLog2(n / 2);
      assert Pow2(half + 1) == 2 * Pow2(half) && Pow2(half + 2) == 2 * Pow2(half + 1);
      half + 1
  }
}
