/** The integer conversions the source performs on doubles: the C++ cast
    `(int) x`, which truncates toward zero, and the truncated square and cube
    roots of a vertex count. */
module Numerics {

  /** `(int) x` for a double x: rounds toward zero. */
  function Trunc(x: real): (r: int)
    ensures 0.0 <= x ==> 0 <= r && r as real <= x < r as real + 1.0
    ensures x < 0.0 ==> r <= 0 && r as real - 1.0 < x <= r as real
  {
    if x >= 0.0 then x.Floor else -((-x).Floor)
  }

  function Pow(b: nat, k: nat): nat
  {
    if k == 0 then 1 else b * Pow(b, k - 1)
  }

  lemma {:induction false} BaseBelowPow(b: nat, k: nat)
    requires k >= 1
    ensures b <= Pow(b, k)
  {
    if k > 1 {
      BaseBelowPow(b, k - 1);
      if b > 0 {
        assert b * Pow(b, k - 1) >= Pow(b, k - 1);
      }
    }
  }

  /** The largest s >= r whose k-th power does not exceed n, searching upward
      from a root candidate r. */
  function RootFrom(n: nat, k: nat, r: nat): (s: nat)
    requires k >= 1 && Pow(r, k) <= n
    ensures r <= s
    ensures Pow(s, k) <= n < Pow(s + 1, k)
    decreases n - r
  {
    BaseBelowPow(r + 1, k);
    if Pow(r + 1, k) <= n then RootFrom(n, k, r + 1) else r
  }

  /** The truncated k-th root of n: trunc(sqrt(n)) for k = 2, trunc(cbrt(n))
      for k = 3. */
  function IntRoot(n: nat, k: nat): (r: nat)
    requires k >= 1
    ensures Pow(r, k) <= n < Pow(r + 1, k)
  {
    RootFrom(n, k, 0)
  }
}
