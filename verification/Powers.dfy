/** Powers of two, for shifts and bit widths. */
module Powers {
  function Pow2(k: nat): (p: nat)
    ensures p >= 1
  {
    if k == 0 then 1 else 2 * Pow2(k - 1)
  }

  lemma {:induction false} Pow2Monotone(m: nat, n: nat)
    requires m <= n
    ensures Pow2(m) <= Pow2(n)
  {
    if m < n {
      Pow2Monotone(m, n - 1);
    }
  }
}
