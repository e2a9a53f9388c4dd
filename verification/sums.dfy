/** Finite sums over an index range. Every loop of the source that
    accumulates with `+=` is a left-to-right sum of this shape. */
module Sums {

  /** f(0) + f(1) + ... + f(n - 1), accumulated left to right. */
  function Sum(n: nat, f: int -> real): real
  {
    if n == 0 then 0.0 else Sum(n - 1, f) + f(n - 1)
  }

  lemma {:induction false} SumExt(n: nat, f: int -> real, g: int -> real)
    requires forall i :: 0 <= i < n ==> f(i) == g(i)
    ensures Sum(n, f) == Sum(n, g)
  {
    if n > 0 {
      SumExt(n - 1, f, g);
    }
  }

  lemma {:induction false} SumZero(n: nat, f: int -> real)
    requires forall i :: 0 <= i < n ==> f(i) == 0.0
    ensures Sum(n, f) == 0.0
  {
    if n > 0 {
      SumZero(n - 1, f);
    }
  }

  lemma {:induction false} SumAdd(n: nat, f: int -> real, g: int -> real, h: int -> real)
    requires forall i :: 0 <= i < n ==> h(i) == f(i) + g(i)
    ensures Sum(n, h) == Sum(n, f) + Sum(n, g)
  {
    if n > 0 {
      SumAdd(n - 1, f, g, h);
    }
  }

  lemma {:induction false} SumScale(n: nat, c: real, f: int -> real, h: int -> real)
    requires forall i :: 0 <= i < n ==> h(i) == c * f(i)
    ensures Sum(n, h) == c * Sum(n, f)
  {
    if n > 0 {
      SumScale(n - 1, c, f, h);
    }
  }

  /** n equal terms c sum to n c. */
  lemma {:induction false} SumConst(n: nat, c: real, f: int -> real)
    requires forall i :: 0 <= i < n ==> f(i) == c
    ensures Sum(n, f) == n as real * c
  {
    if n > 0 {
      SumConst(n - 1, c, f);
    }
  }

  /** A sum whose terms vanish everywhere but at k is its k-th term. */
  lemma {:induction false} SumSingle(n: nat, f: int -> real, k: int)
    requires 0 <= k < n
    requires forall i :: 0 <= i < n && i != k ==> f(i) == 0.0
    ensures Sum(n, f) == f(k)
  {
    if n - 1 == k {
      SumZero(n - 1, f);
    } else {
      SumSingle(n - 1, f, k);
    }
  }

  /** The order of a double sum may be exchanged. */
  lemma {:induction false} SumSwap(n: nat, m: nat, f: (int, int) -> real)
    ensures Sum(n, i => Sum(m, j => f(i, j))) == Sum(m, j => Sum(n, i => f(i, j)))
  {
    if n > 0 {
      SumSwap(n - 1, m, f);
      SumAdd(m, j => Sum(n - 1, i => f(i, j)), j => f(n - 1, j), j => Sum(n, i => f(i, j)));
    } else {
      SumZero(m, j => Sum(n, i => f(i, j)));
    }
  }
}
