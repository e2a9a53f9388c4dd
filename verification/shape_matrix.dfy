/** The sparse particle x node shape matrix (an `mfem::SparseMatrix` in the
    source). Row p holds, for every node near particle p, the value of that
    node's shape function at the particle. */
module ShapeMatrix {
  import opened Sums

  /** One row: the stored columns (node ids) with their values. A column is
      stored once `Add` has touched it, even with the value 0. */
  type ShapeRow = map<int, real>

  /** The value at column x; 0 where the row stores nothing. */
  function Val(row: ShapeRow, x: int): real
  {
    if x in row then row[x] else 0.0
  }

  /** `SparseMatrix::Add(p, col, v)`: adds v into the entry, creating it if
      needed. */
  function AddEntry(row: ShapeRow, col: int, v: real): ShapeRow
  {
    row[col := Val(row, col) + v]
  }

  /** What shape j contributes to column x. */
  function Contribution(ids: seq<int>, shapes: seq<real>, x: int, j: int): real
  {
    if 0 <= j < |shapes| && j < |ids| && ids[j] == x then shapes[j] else 0.0
  }

  /** The row after `Add(p, ids[j], shapes[j])` for j = 0 .. n-1. */
  function BuildRowPrefix(ids: seq<int>, shapes: seq<real>, n: nat): (row: ShapeRow)
    requires n <= |shapes| <= |ids|
    ensures row.Keys == set j | 0 <= j < n :: ids[j]
  {
    if n == 0 then map[]
    else
      var prev := BuildRowPrefix(ids, shapes, n - 1);
      assert (set j | 0 <= j < n :: ids[j]) == (set j | 0 <= j < n - 1 :: ids[j]) + {ids[n - 1]};
      AddEntry(prev, ids[n - 1], shapes[n - 1])
  }

  /** Each stored value is the sum of the shape values given for its node. */
  lemma {:induction false} BuildRowPrefixValue(ids: seq<int>, shapes: seq<real>, n: nat, x: int)
    requires n <= |shapes| <= |ids|
    ensures Val(BuildRowPrefix(ids, shapes, n), x) == Sum(n, j => Contribution(ids, shapes, x, j))
  {
    if n > 0 {
      BuildRowPrefixValue(ids, shapes, n - 1, x);
    }
  }

  /** The row of one particle: one entry per surrounding node, holding the
      sum of the shape values given for that node. */
  function BuildRow(ids: seq<int>, shapes: seq<real>): (row: ShapeRow)
    requires |shapes| <= |ids|
    ensures row.Keys == set j | 0 <= j < |shapes| :: ids[j]
    ensures forall x :: Val(row, x) == Sum(|shapes|, j => Contribution(ids, shapes, x, j))
  {
    var row := BuildRowPrefix(ids, shapes, |shapes|);
    assert forall x :: Val(row, x) == Sum(|shapes|, j => Contribution(ids, shapes, x, j)) by {
      forall x {
        BuildRowPrefixValue(ids, shapes, |shapes|, x);
      }
    }
    row
  }

  /** With distinct ids, each stored value is exactly the one shape value
      given for that node. */
  lemma {:induction false} BuildRowDistinct(ids: seq<int>, shapes: seq<real>, j: int)
    requires |shapes| <= |ids| && 0 <= j < |shapes|
    requires forall a, b :: 0 <= a < b < |shapes| ==> ids[a] != ids[b]
    ensures Val(BuildRow(ids, shapes), ids[j]) == shapes[j]
  {
    SumSingle(|shapes|, k => Contribution(ids, shapes, ids[j], k), j);
  }
}
