/** The consistent and lumped mass matrices of the grid. The class that
    should hold them is an empty shell in the source; `Grid` only calls
    `assemble(shapeMatrix, nodeSet)` and `lump()`. They are specified here as
    M(i, j) = sum over particles p of S(p, i) * S(p, j), and
    lump()[k] = sum over the massive nodes j of M(set[k], j), in ascending
    node-id order, where S is the shape matrix. */
module Mass {
  import opened Sums
  import opened ShapeMatrix
  import opened NodeSet
  import LinAlg

  /** `Missing` is the null pointer of a grid that was never assembled;
      `Constructed` is the state right after `make_unique<MassMatrix>` in
      `Grid::assemble`; `Assembled` remembers the shape rows and the massive
      node set it was assembled from. */
  datatype MassMatrix = Missing | Constructed | Assembled(rows: seq<ShapeRow>, nodes: seq<int>)

  /** Row p of the shape matrix, or an empty row past the last particle. */
  function RowAt(rows: seq<ShapeRow>, p: int): ShapeRow
  {
    if 0 <= p < |rows| then rows[p] else map[]
  }

  /** S(p, x). */
  function RowVal(rows: seq<ShapeRow>, p: int, x: int): real
  {
    Val(RowAt(rows, p), x)
  }

  /** The k-th massive node id, guarded so that it can sit in a lambda. */
  function IdAt(nodes: seq<int>, k: int): int
  {
    if 0 <= k < |nodes| then nodes[k] else -1
  }

  /** The consistent mass matrix entry M(i, j). */
  function MassEntry(rows: seq<ShapeRow>, i: int, j: int): real
  {
    Sum(|rows|, p => RowVal(rows, p, i) * RowVal(rows, p, j))
  }

  /** The total shape weight particle row `row` puts on the massive nodes. */
  function RowTotal(row: ShapeRow, nodes: seq<int>): real
  {
    Sum(|nodes|, j => Val(row, IdAt(nodes, j)))
  }

  /** The k-th lumped mass: row k of the consistent matrix, summed. */
  function LumpedMass(rows: seq<ShapeRow>, nodes: seq<int>, k: int): real
  {
    Sum(|nodes|, j => MassEntry(rows, IdAt(nodes, k), IdAt(nodes, j)))
  }

  /** The row loop of `lump()` after its first n rows. */
  function LumpPrefix(rows: seq<ShapeRow>, nodes: seq<int>, n: nat): (l: seq<real>)
    requires n <= |nodes|
    ensures |l| == n
  {
    if n == 0 then [] else LumpPrefix(rows, nodes, n - 1) + [LumpedMass(rows, nodes, n - 1)]
  }

  /** `MassMatrix::assemble(shapeMatrix, nodeSet)` followed by `lump()`:
      one diagonal value per massive node, in set order. */
  function Lump(rows: seq<ShapeRow>, nodes: seq<int>): (l: seq<real>)
    ensures |l| == |nodes|
  {
    LumpPrefix(rows, nodes, |nodes|)
  }

  /** Each row the loop has passed holds that row's lumped mass. */
  lemma {:induction false} LumpPrefixAt(rows: seq<ShapeRow>, nodes: seq<int>, n: nat, k: int)
    requires 0 <= k < n <= |nodes|
    ensures LumpPrefix(rows, nodes, n)[k] == LumpedMass(rows, nodes, k)
  {
    if k < n - 1 {
      LumpPrefixAt(rows, nodes, n - 1, k);
    }
  }

  lemma {:induction false} LumpAt(rows: seq<ShapeRow>, nodes: seq<int>, k: int)
    requires 0 <= k < |nodes|
    ensures Lump(rows, nodes)[k] == LumpedMass(rows, nodes, k)
  {
    LumpPrefixAt(rows, nodes, |nodes|, k);
  }

  /** The lumped diagonal of a stored mass matrix. A matrix that was never
      assembled has no nodes, so its lumped form is empty. */
  function Lumped(m: MassMatrix): (l: seq<real>)
    requires !m.Missing?
    ensures m.Constructed? ==> l == []
    ensures m.Assembled? ==> |l| == |m.nodes|
  {
    if m.Assembled? then Lump(m.rows, m.nodes) else []
  }

  /** The consistent mass matrix is symmetric. */
  lemma {:induction false} EntrySymmetric(rows: seq<ShapeRow>, i: int, j: int)
    ensures MassEntry(rows, i, j) == MassEntry(rows, j, i)
  {
    SumExt(|rows|, p => RowVal(rows, p, i) * RowVal(rows, p, j),
                   p => RowVal(rows, p, j) * RowVal(rows, p, i));
  }

  /** A node that no particle row stores has a zero row in M. */
  lemma {:induction false} EntryUnsupported(rows: seq<ShapeRow>, i: int, j: int)
    requires forall p :: 0 <= p < |rows| ==> i !in rows[p]
    ensures MassEntry(rows, i, j) == 0.0
  {
    SumZero(|rows|, p => RowVal(rows, p, i) * RowVal(rows, p, j));
  }

  /** Lumping redistributes each particle's weight: the k-th lumped mass is
      the sum over particles of S(p, set[k]) times that particle's total
      weight on the massive nodes. */
  lemma {:induction false} LumpByParticle(rows: seq<ShapeRow>, nodes: seq<int>, k: int)
    requires 0 <= k < |nodes|
    ensures Lump(rows, nodes)[k]
         == Sum(|rows|, p => RowVal(rows, p, nodes[k]) * RowTotal(RowAt(rows, p), nodes))
  {
    var x := nodes[k];
    var f := (j: int, p: int) => RowVal(rows, p, x) * RowVal(rows, p, IdAt(nodes, j));
    calc {
      Lump(rows, nodes)[k];
      { LumpAt(rows, nodes, k); }
      LumpedMass(rows, nodes, k);
      Sum(|nodes|, j => MassEntry(rows, x, IdAt(nodes, j)));
      { forall j | 0 <= j < |nodes|
          ensures MassEntry(rows, x, IdAt(nodes, j)) == Sum(|rows|, p => f(j, p))
        {
          SumExt(|rows|, p => RowVal(rows, p, x) * RowVal(rows, p, IdAt(nodes, j)), p => f(j, p));
        }
        SumExt(|nodes|, j => MassEntry(rows, x, IdAt(nodes, j)), j => Sum(|rows|, p => f(j, p)));
      }
      Sum(|nodes|, j => Sum(|rows|, p => f(j, p)));
      { SumSwap(|nodes|, |rows|, f); }
      Sum(|rows|, p => Sum(|nodes|, j => f(j, p)));
      { forall p | 0 <= p < |rows|
          ensures Sum(|nodes|, j => f(j, p)) == RowVal(rows, p, x) * RowTotal(RowAt(rows, p), nodes)
        {
          SumScale(|nodes|, RowVal(rows, p, x), j => Val(RowAt(rows, p), IdAt(nodes, j)), j => f(j, p));
        }
        SumExt(|rows|, p => Sum(|nodes|, j => f(j, p)),
                       p => RowVal(rows, p, x) * RowTotal(RowAt(rows, p), nodes));
      }
      Sum(|rows|, p => RowVal(rows, p, x) * RowTotal(RowAt(rows, p), nodes));
    }
  }

  /** The share of lumped mass k that particle p contributes. */
  function LumpShare(rows: seq<ShapeRow>, nodes: seq<int>, k: int, p: int): real
  {
    RowVal(rows, p, IdAt(nodes, k)) * RowTotal(RowAt(rows, p), nodes)
  }

  /** All shares of lumped mass k. */
  function ShareRow(rows: seq<ShapeRow>, nodes: seq<int>, k: int): real
  {
    Sum(|rows|, p => LumpShare(rows, nodes, k, p))
  }

  /** All shares particle p contributes. */
  function ShareCol(rows: seq<ShapeRow>, nodes: seq<int>, p: int): real
  {
    Sum(|nodes|, k => LumpShare(rows, nodes, k, p))
  }

  lemma {:induction false} LumpIsShareRow(rows: seq<ShapeRow>, nodes: seq<int>, k: int)
    requires 0 <= k < |nodes|
    ensures LinAlg.At(Lump(rows, nodes), k) == ShareRow(rows, nodes, k)
  {
    LumpByParticle(rows, nodes, k);
    assert IdAt(nodes, k) == nodes[k];
    SumExt(|rows|, p => RowVal(rows, p, nodes[k]) * RowTotal(RowAt(rows, p), nodes),
                   p => LumpShare(rows, nodes, k, p));
  }

  lemma {:induction false} LumpAsShares(rows: seq<ShapeRow>, nodes: seq<int>)
    ensures Sum(|nodes|, k => LinAlg.At(Lump(rows, nodes), k))
         == Sum(|nodes|, k => ShareRow(rows, nodes, k))
  {
    forall k | 0 <= k < |nodes|
      ensures LinAlg.At(Lump(rows, nodes), k) == ShareRow(rows, nodes, k)
    {
      LumpIsShareRow(rows, nodes, k);
    }
    SumExt(|nodes|, k => LinAlg.At(Lump(rows, nodes), k), k => ShareRow(rows, nodes, k));
  }

  lemma {:induction false} SharesPerParticle(rows: seq<ShapeRow>, nodes: seq<int>)
    ensures Sum(|rows|, p => ShareCol(rows, nodes, p))
         == Sum(|rows|, p => RowTotal(RowAt(rows, p), nodes) * RowTotal(RowAt(rows, p), nodes))
  {
    forall p | 0 <= p < |rows|
      ensures ShareCol(rows, nodes, p)
           == RowTotal(RowAt(rows, p), nodes) * RowTotal(RowAt(rows, p), nodes)
    {
      SumScale(|nodes|, RowTotal(RowAt(rows, p), nodes), k => Val(RowAt(rows, p), IdAt(nodes, k)),
               k => LumpShare(rows, nodes, k, p));
    }
    SumExt(|rows|, p => ShareCol(rows, nodes, p),
                   p => RowTotal(RowAt(rows, p), nodes) * RowTotal(RowAt(rows, p), nodes));
  }

  /** The lumped masses add up to the sum over particles of the square of
      each particle's total weight on the massive nodes. */
  lemma {:induction false} LumpTotal(rows: seq<ShapeRow>, nodes: seq<int>)
    ensures Sum(|nodes|, k => LinAlg.At(Lump(rows, nodes), k))
         == Sum(|rows|, p => RowTotal(RowAt(rows, p), nodes) * RowTotal(RowAt(rows, p), nodes))
  {
    LumpAsShares(rows, nodes);
    var f := (k: int, p: int) => LumpShare(rows, nodes, k, p);
    SumSwap(|nodes|, |rows|, f);
    forall i | 0 <= i < |nodes|
      ensures ShareRow(rows, nodes, i) == Sum(|rows|, j => f(i, j))
    {
      SumExt(|rows|, p => LumpShare(rows, nodes, i, p), j => f(i, j));
    }
    SumExt(|nodes|, k => ShareRow(rows, nodes, k), i => Sum(|rows|, j => f(i, j)));
    forall j | 0 <= j < |rows|
      ensures ShareCol(rows, nodes, j) == Sum(|nodes|, i => f(i, j))
    {
      SumExt(|nodes|, k => LumpShare(rows, nodes, k, j), i => f(i, j));
    }
    SumExt(|rows|, p => ShareCol(rows, nodes, p), j => Sum(|nodes|, i => f(i, j)));
    SharesPerParticle(rows, nodes);
  }

  /** A row built from a particle's (ids, shapes) lists, all of whose ids are
      massive, puts total weight equal to the sum of its shape values on the
      massive nodes. */
  lemma {:induction false} RowTotalOfBuiltRow(ids: seq<int>, shapes: seq<real>, nodes: seq<int>)
    requires |shapes| <= |ids|
    requires StrictlySorted(nodes)
    requires forall t :: 0 <= t < |shapes| ==> ids[t] in Elems(nodes)
    ensures RowTotal(BuildRow(ids, shapes), nodes) == Sum(|shapes|, t => LinAlg.At(shapes, t))
  {
    var row := BuildRow(ids, shapes);
    var f := (j: int, t: int) => Contribution(ids, shapes, IdAt(nodes, j), t);
    forall j | 0 <= j < |nodes|
      ensures Val(row, IdAt(nodes, j)) == Sum(|shapes|, t => f(j, t))
    {
      SumExt(|shapes|, t => Contribution(ids, shapes, IdAt(nodes, j), t), t => f(j, t));
    }
    SumExt(|nodes|, j => Val(row, IdAt(nodes, j)), j => Sum(|shapes|, t => f(j, t)));
    SumSwap(|nodes|, |shapes|, f);
    forall t | 0 <= t < |shapes|
      ensures Sum(|nodes|, j => f(j, t)) == LinAlg.At(shapes, t)
    {
      var j0 :| 0 <= j0 < |nodes| && nodes[j0] == ids[t];
      SumSingle(|nodes|, j => f(j, t), j0);
    }
    SumExt(|shapes|, t => Sum(|nodes|, j => f(j, t)), t => LinAlg.At(shapes, t));
  }

  /** When every particle's weights on the massive nodes add up to one (a
      partition of unity), the k-th lumped mass is the column sum of the
      shape matrix at set[k], and the lumped masses add up to the number of
      particles. */
  lemma {:induction false} PartitionOfUnityLump(rows: seq<ShapeRow>, nodes: seq<int>)
    requires forall p :: 0 <= p < |rows| ==> RowTotal(rows[p], nodes) == 1.0
    ensures forall k :: 0 <= k < |nodes| ==>
      Lump(rows, nodes)[k] == Sum(|rows|, p => RowVal(rows, p, nodes[k]))
    ensures Sum(|nodes|, k => LinAlg.At(Lump(rows, nodes), k)) == |rows| as real
  {
    forall k | 0 <= k < |nodes|
      ensures Lump(rows, nodes)[k] == Sum(|rows|, p => RowVal(rows, p, nodes[k]))
    {
      LumpByParticle(rows, nodes, k);
      SumExt(|rows|, p => RowVal(rows, p, nodes[k]) * RowTotal(RowAt(rows, p), nodes),
                     p => RowVal(rows, p, nodes[k]));
    }
    LumpTotal(rows, nodes);
    SumExt(|rows|, p => RowTotal(RowAt(rows, p), nodes) * RowTotal(RowAt(rows, p), nodes), p => 1.0);
    SumOnes(|rows|);
  }

  lemma {:induction false} SumOnes(n: nat)
    ensures Sum(n, p => 1.0) == n as real
  {
    if n > 0 {
      SumOnes(n - 1);
    }
  }
}
