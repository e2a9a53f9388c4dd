/** Dense vectors and square matrices of reals, as the source stores them in
    `std::vector<double>` and `std::vector<std::vector<double>>`. */
module LinAlg {
  import opened Sums

  type Vec = seq<real>
  type Mat = seq<seq<real>>

  function Zeros(n: nat): (v: Vec)
    ensures |v| == n && forall i :: 0 <= i < n ==> v[i] == 0.0
  {
    seq(n, _ => 0.0)
  }

  function Add(u: Vec, v: Vec): Vec
    requires |u| == |v|
  {
    seq(|u|, i requires 0 <= i < |u| => u[i] + v[i])
  }

  function Scale(c: real, v: Vec): Vec
  {
    seq(|v|, i requires 0 <= i < |v| => c * v[i])
  }

  /** Entry i of v, or 0 outside the vector. */
  function At(v: Vec, i: int): real
  {
    if 0 <= i < |v| then v[i] else 0.0
  }

  /** Entry (i, j) of m, or 0 outside the matrix. */
  function Entry(m: Mat, i: int, j: int): real
  {
    if 0 <= i < |m| && 0 <= j < |m[i]| then m[i][j] else 0.0
  }

  predicate IsMatrix(m: Mat, rows: nat, cols: nat)
  {
    |m| == rows && forall i :: 0 <= i < rows ==> |m[i]| == cols
  }

  function ZeroMatrix(n: nat): (m: Mat)
    ensures IsMatrix(m, n, n)
    ensures forall i, j :: 0 <= i < n && 0 <= j < n ==> m[i][j] == 0.0
  {
    seq(n, _ => Zeros(n))
  }

  predicate Symmetric(m: Mat, n: nat)
  {
    forall i, j :: 0 <= i < n && 0 <= j < n ==> Entry(m, i, j) == Entry(m, j, i)
  }

  /** The sum of the first n diagonal entries. */
  function Trace(m: Mat, n: nat): real
  {
    Sum(n, i => Entry(m, i, i))
  }

  /** The row vector times matrix product vec^T m: entry c is
      the sum over r of vec[r] * m[r][c], for c and r below |vec|. */
  function VecMat(vec: Vec, m: Mat): (r: Vec)
    ensures |r| == |vec|
  {
    seq(|vec|, c => Sum(|vec|, k => At(vec, k) * Entry(m, k, c)))
  }
}
