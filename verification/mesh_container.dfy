/** The mesh container's particle-to-mesh queries (src/MeshContainer.cpp):
    the element holding a point, the element's vertex ids, and the shape
    values and gradients of its nodes at the point. The finite-element
    evaluation itself (locating points, transforming back to the reference
    element, evaluating shape functions) belongs to MFEM and is an oracle
    here. */
module MeshContainer {
  import opened LinAlg
  import opened Numerics
  import opened KelvinBaseTypes

  /** The background mesh: vertex coordinates and, per element, its vertex
      ids in element order. */
  datatype Mesh = Mesh(dim: nat, vertices: seq<Vec>, elements: seq<seq<int>>)

  /** What MFEM computes. `locate` returns -1 for a point outside the mesh;
      `shapes(x, e)` and `dshapes(x, e)` are the shape values (one per dof)
      and the gradient matrix (one row per dof) of element e at x. */
  datatype FiniteElements = FiniteElements(
    locate: Vec -> int,
    shapes: (Vec, int) -> Vec,
    dshapes: (Vec, int) -> Mat)

  datatype Container = Container(mesh: Mesh, fe: FiniteElements)

  /** A lowest-order mesh: every vertex has at least `dim` coordinates,
      elements refer to existing vertices, MFEM answers -1 or an existing
      element for every point, and every element has one dof per vertex. */
  ghost predicate WellFormed(mc: Container)
  {
    && (forall v :: 0 <= v < |mc.mesh.vertices| ==> |mc.mesh.vertices[v]| >= mc.mesh.dim)
    && (forall e, k :: 0 <= e < |mc.mesh.elements| && 0 <= k < |mc.mesh.elements[e]| ==>
          0 <= mc.mesh.elements[e][k] < |mc.mesh.vertices|)
    && (forall x :: -1 <= mc.fe.locate(x) < |mc.mesh.elements|)
    && (forall x, e :: 0 <= e < |mc.mesh.elements| ==> |mc.fe.shapes(x, e)| == |mc.mesh.elements[e]|)
    && (forall x, e :: 0 <= e < |mc.mesh.elements| ==> |mc.fe.dshapes(x, e)| == |mc.mesh.elements[e]|)
  }

  /** `convertPointToMatrix`: the point as a column (dim x 1 matrix). */
  function ConvertPointToMatrix(point: Vec): (m: Mat)
    ensures IsMatrix(m, |point|, 1)
    ensures forall i :: 0 <= i < |point| ==> m[i][0] == point[i]
  {
    seq(|point|, i requires 0 <= i < |point| => [point[i]])
  }

  /** Reads a column matrix back as a point. */
  function ColumnToPoint(m: Mat): (point: Vec)
    requires IsMatrix(m, |m|, 1)
    ensures |point| == |m|
  {
    seq(|m|, i requires 0 <= i < |m| => m[i][0])
  }

  /** The column form loses nothing: reading it back gives the point. */
  lemma {:induction false} ConvertPointRoundTrip(point: Vec)
    ensures ColumnToPoint(ConvertPointToMatrix(point)) == point
  {
  }

  /** `getSurroundingNodeIds(point, elemId)`: the element's vertex ids, or
      nothing when the element id is -1 or below. */
  function SurroundingNodeIdsIn(mc: Container, point: Vec, elemId: int): (ids: seq<int>)
    requires elemId < |mc.mesh.elements|
    ensures elemId <= -1 ==> ids == []
    ensures elemId > -1 ==> ids == mc.mesh.elements[elemId]
  {
    if elemId > -1 then mc.mesh.elements[elemId] else []
  }

  /** `getNodalShapes(point, elemId)`: one shape value per dof of the
      element, or nothing when the element id is -1 or below. */
  function NodalShapesIn(mc: Container, point: Vec, elemId: int): (shapes: Vec)
    ensures elemId <= -1 ==> shapes == []
    ensures elemId > -1 ==> shapes == mc.fe.shapes(point, elemId)
  {
    if elemId > -1 then mc.fe.shapes(point, elemId) else []
  }

  /** `getNodalGradients(point, elemId)`: one `Gradient` per dof, tagged with
      the matching vertex id and holding that row of the gradient matrix,
      or nothing when the element id is -1 or below. */
  function NodalGradientsIn(mc: Container, point: Vec, elemId: int): (grads: seq<Gradient>)
    requires elemId < |mc.mesh.elements|
    requires elemId > -1 ==> |mc.fe.dshapes(point, elemId)| <= |mc.mesh.elements[elemId]|
    ensures elemId <= -1 ==> grads == []
    ensures elemId > -1 ==> |grads| == |mc.fe.dshapes(point, elemId)|
    ensures forall i :: 0 <= i < |grads| ==>
      && grads[i].Valid() && grads[i].Dimension() == mc.mesh.dim
      && grads[i].nodeId == mc.mesh.elements[elemId][i]
      && forall j :: 0 <= j < mc.mesh.dim ==>
           grads[i].values[j] == Entry(mc.fe.dshapes(point, elemId), i, j)
  {
    if elemId > -1 then
      var d := mc.fe.dshapes(point, elemId);
      var verts := mc.mesh.elements[elemId];
      seq(|d|, i requires 0 <= i < |d| =>
        NodalValueVector(mc.mesh.dim, verts[i], seq(mc.mesh.dim, j => Entry(d, i, j))))
    else []
  }

  /** `getElementId`: where MFEM locates the point. */
  function ElementId(mc: Container, point: Vec): (e: int)
    requires WellFormed(mc)
    ensures -1 <= e < |mc.mesh.elements|
  {
    mc.fe.locate(point)
  }

  /** The one-argument `getSurroundingNodeIds(point)`. */
  function SurroundingNodeIds(mc: Container, point: Vec): (ids: seq<int>)
    requires WellFormed(mc)
    ensures ids == SurroundingNodeIdsIn(mc, point, mc.fe.locate(point))
  {
    SurroundingNodeIdsIn(mc, point, ElementId(mc, point))
  }

  /** The one-argument `getNodalShapes(point)`. */
  function NodalShapes(mc: Container, point: Vec): (shapes: Vec)
    requires WellFormed(mc)
    ensures shapes == NodalShapesIn(mc, point, mc.fe.locate(point))
  {
    NodalShapesIn(mc, point, ElementId(mc, point))
  }

  /** The one-argument `getNodalGradients(point)`. */
  function NodalGradients(mc: Container, point: Vec): (grads: seq<Gradient>)
    requires WellFormed(mc)
    ensures grads == NodalGradientsIn(mc, point, mc.fe.locate(point))
  {
    NodalGradientsIn(mc, point, ElementId(mc, point))
  }

  /** A particle outside the mesh yields no ids, no shapes and no
      gradients; a located particle yields one of each per vertex of its
      element, with the i-th gradient tagged by the i-th id. */
  lemma {:induction false} ParticleLists(mc: Container, point: Vec)
    requires WellFormed(mc)
    ensures mc.fe.locate(point) <= -1 ==>
      SurroundingNodeIds(mc, point) == [] && NodalShapes(mc, point) == [] && NodalGradients(mc, point) == []
    ensures var e := mc.fe.locate(point);
      e > -1 ==>
        && |NodalShapes(mc, point)| == |SurroundingNodeIds(mc, point)| == |NodalGradients(mc, point)|
        && forall i :: 0 <= i < |NodalGradients(mc, point)| ==>
             NodalGradients(mc, point)[i].nodeId == SurroundingNodeIds(mc, point)[i]
  {
  }

  /** The element index of a point on a regular grid of square (cube) cells
      of side h with n cells per side, numbered x fastest:
      trunc(x/h) + n trunc(y/h) [+ n^2 trunc(z/h)], or -1 unless the
      dimension is 2 or 3. */
  function RegularGridIndex(dim: nat, n: int, h: real, point: Vec): (id: int)
    requires h != 0.0
    requires dim == 2 || dim == 3 ==> |point| >= dim
    ensures dim != 2 && dim != 3 ==> id == -1
  {
    if dim == 2 then
      Trunc(point[0] / h) + n * Trunc(point[1] / h)
    else if dim == 3 then
      Trunc(point[0] / h) + n * Trunc(point[1] / h) + n * n * Trunc(point[2] / h)
    else -1
  }

  /** Nodes per side of a square (cube) mesh with NV vertices, as
      `sqrt(NV) - 1` (`cbrt(NV) - 1` in 3D) truncated to an int. */
  function NodesPerSide(dim: nat, numVertices: nat): (n: int)
    ensures var k := if dim == 2 then 2 else 3;
      n >= -1 && Pow(n + 1, k) <= numVertices < Pow(n + 2, k)
  {
    IntRoot(numVertices, if dim == 2 then 2 else 3) - 1
  }

  /** `getElementIdFromHexMesh`: the regular-grid index with the cell side
      taken as |x1 - x0| of the first two vertices. */
  function ElementIdFromHexMesh(mc: Container, point: Vec): (id: int)
    requires |mc.mesh.vertices| >= 2 && |mc.mesh.vertices[0]| >= 1 && |mc.mesh.vertices[1]| >= 1
    requires mc.mesh.vertices[1][0] != mc.mesh.vertices[0][0]
    requires mc.mesh.dim == 2 || mc.mesh.dim == 3 ==> |point| >= mc.mesh.dim
    ensures mc.mesh.dim != 2 && mc.mesh.dim != 3 ==> id == -1
  {
    var diff := mc.mesh.vertices[1][0] - mc.mesh.vertices[0][0];
    var h := if diff < 0.0 then -diff else diff;
    RegularGridIndex(mc.mesh.dim, NodesPerSide(mc.mesh.dim, |mc.mesh.vertices|), h, point)
  }

  /** x lies in cell i of side h: [i h, (i + 1) h). */
  predicate InCell(x: real, h: real, i: int)
  {
    i as real * h <= x < (i as real + 1.0) * h
  }

  /** Truncation finds the cell: for a non-negative coordinate and a
      positive side, trunc(x/h) counts the whole cells to the left of x. */
  lemma {:induction false} CellOfCoordinate(x: real, h: real)
    requires 0.0 <= x && 0.0 < h
    ensures 0 <= Trunc(x / h) && InCell(x, h, Trunc(x / h))
  {
    var i := Trunc(x / h);
    var r := x / h;
    assert r * h == x;
    if r < 0.0 {
      MulStrict(r, 0.0, h);
      assert false;
    }
    MulMono(i as real, r, h);
    assert r < i as real + 1.0;
    MulStrict(r, i as real + 1.0, h);
    calc {
      x;
    ==
      r * h;
    <
      (i as real + 1.0) * h;
    }
  }

  /** A coordinate inside [0, n h) lies in one of the first n cells. */
  lemma {:induction false} CellBelow(x: real, h: real, n: nat)
    requires 0.0 <= x < n as real * h && 0.0 < h
    ensures 0 <= Trunc(x / h) < n
  {
    var i := Trunc(x / h);
    CellOfCoordinate(x, h);
    if i >= n {
      MulMono(n as real, i as real, h);
      assert false;
    }
  }

  lemma {:induction false} CellIndexBound(i: int, j: int, n: int)
    requires 0 <= i < n && 0 <= j < n
    ensures 0 <= i + n * j < n * n
  {
    assert n * j <= n * (n - 1);
  }

  lemma {:induction false} MulMono(a: real, b: real, c: real)
    requires a <= b && 0.0 < c
    ensures a * c <= b * c
  {
  }

  lemma {:induction false} MulStrict(a: real, b: real, c: real)
    requires a < b && 0.0 < c
    ensures a * c < b * c
  {
  }

  /** On a 2D grid of n x n cells of side h > 0, a point inside the grid
      gets the index i + n j of the cell (i, j) that contains it, which lies
      in [0, n^2). */
  lemma {:induction false} RegularGridIndex2D(n: nat, h: real, point: Vec)
    requires 0.0 < h && |point| >= 2
    requires 0.0 <= point[0] < n as real * h && 0.0 <= point[1] < n as real * h
    ensures var i, j := Trunc(point[0] / h), Trunc(point[1] / h);
      && RegularGridIndex(2, n, h, point) == i + n * j
      && 0 <= i < n && 0 <= j < n
      && InCell(point[0], h, i) && InCell(point[1], h, j)
      && 0 <= RegularGridIndex(2, n, h, point) < n * n
  {
    var i, j := Trunc(point[0] / h), Trunc(point[1] / h);
    CellOfCoordinate(point[0], h);
    CellOfCoordinate(point[1], h);
    CellBelow(point[0], h, n);
    CellBelow(point[1], h, n);
    CellIndexBound(i, j, n);
  }

  lemma {:induction false} CellIndexBound3D(i: int, j: int, k: int, n: int)
    requires 0 <= i < n && 0 <= j < n && 0 <= k < n
    ensures 0 <= i + n * j + n * n * k < n * n * n
  {
    CellIndexBound(i, j, n);
    var m := n * n;
    IntMulMono(m, 0, k);
    IntMulMono(m, k + 1, n);
    assert m * (k + 1) == m * k + m;
  }

  lemma {:induction false} IntMulMono(m: int, a: int, b: int)
    requires 0 <= m && a <= b
    ensures m * a <= m * b
  {
    assert m * b - m * a == m * (b - a);
  }

  /** On a 3D grid of n x n x n cells of side h > 0, a point inside the grid
      gets the index i + n j + n^2 k of the cell (i, j, k) that contains it,
      which lies in [0, n^3). */
  lemma {:induction false} RegularGridIndex3D(n: nat, h: real, point: Vec)
    requires 0.0 < h && |point| >= 3
    requires 0.0 <= point[0] < n as real * h && 0.0 <= point[1] < n as real * h
    requires 0.0 <= point[2] < n as real * h
    ensures var i, j, k := Trunc(point[0] / h), Trunc(point[1] / h), Trunc(point[2] / h);
      && RegularGridIndex(3, n, h, point) == i + n * j + n * n * k
      && 0 <= i < n && 0 <= j < n && 0 <= k < n
      && InCell(point[0], h, i) && InCell(point[1], h, j) && InCell(point[2], h, k)
      && 0 <= RegularGridIndex(3, n, h, point) < n * n * n
  {
    var i, j, k := Trunc(point[0] / h), Trunc(point[1] / h), Trunc(point[2] / h);
    CellOfCoordinate(point[0], h);
    CellOfCoordinate(point[1], h);
    CellOfCoordinate(point[2], h);
    CellBelow(point[0], h, n);
    CellBelow(point[1], h, n);
    CellBelow(point[2], h, n);
    CellIndexBound3D(i, j, k, n);
  }

  /** The two-square mesh of the container tests: vertices (0,0), (1,0),
      (2,0), (0,1), (1,1), (2,1), has one node per side by the square-root
      rule, so (1.1, 0.1) falls in element 1 and (0.98, 0.34) in element 0,
      the elements MFEM reports for these points. */
  lemma {:induction false} HexMeshFixture()
    ensures var m := Mesh(2, [[0.0, 0.0], [1.0, 0.0], [2.0, 0.0], [0.0, 1.0], [1.0, 1.0], [2.0, 1.0]],
                             [[0, 1, 4, 3], [1, 2, 5, 4]]);
      var mc := Container(m, FiniteElements(x => -1, (x, e) => [], (x, e) => []));
      && NodesPerSide(2, 6) == 1
      && ElementIdFromHexMesh(mc, [1.1, 0.1]) == 1
      && ElementIdFromHexMesh(mc, [0.98, 0.34]) == 0
  {
    assert Pow(1, 2) == 1 && Pow(2, 2) == 4 && Pow(3, 2) == 9;
    assert RootFrom(6, 2, 2) == 2;
    assert RootFrom(6, 2, 1) == 2;
    assert IntRoot(6, 2) == 2;
    assert Trunc(1.1) == 1 && Trunc(0.1) == 0 && Trunc(0.98) == 0 && Trunc(0.34) == 0;
  }

  /** The vertex ids the container test expects for the particle at
      (1.5, 0.5), which MFEM places in element 1. */
  lemma {:induction false} SurroundingIdsFixture(fe: FiniteElements)
    requires fe.locate([1.5, 0.5]) == 1
    ensures var m := Mesh(2, [[0.0, 0.0], [1.0, 0.0], [2.0, 0.0], [0.0, 1.0], [1.0, 1.0], [2.0, 1.0]],
                             [[0, 1, 4, 3], [1, 2, 5, 4]]);
      SurroundingNodeIdsIn(Container(m, fe), [1.5, 0.5], fe.locate([1.5, 0.5])) == [1, 2, 5, 4]
  {
  }
}
