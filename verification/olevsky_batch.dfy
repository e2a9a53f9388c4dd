/** The list-at-a-time Olevsky relationship (Kelvin/src/MFEMOlevskyLVCR.cpp).
    It shares the constructor and the per-point algebra of the relationship
    in module Olevsky, but its stress loop assigns the diagonal instead of
    adding to it, so the deviatoric part of the diagonal is lost. Both the
    loop as written and the evidently intended one are modelled; the rest
    of the model uses the intended one. */
module OlevskyBatch {
  import opened LinAlg
  import opened Points
  import opened GridMapper
  import opened Olevsky

  /** MFEM's `FindPoints` followed by `GetVectorGradient`: the gradient of
      a flat nodal velocity field at the reference point that locates a
      physical position. */
  type LocatedGradient = (Vec, Vec) -> Mat

  /** Every point's stress is a dim x dim matrix. */
  predicate StressShaped(points: seq<MaterialPoint>, dim: nat)
  {
    forall i :: 0 <= i < |points| ==> IsMatrix(points[i].stress, dim, dim)
  }

  /** The body of the loop of `updateStrainRate(grid, matPoints)`: the
      point's strain becomes the symmetric part of the velocity gradient
      where the point lies, and nothing else of it changes. */
  function LocatedStrainRate(grad: LocatedGradient, dim: nat, nodes: seq<Point>, mp: MaterialPoint): (r: MaterialPoint)
    requires Wide(Velocities(nodes), dim)
    ensures r.kin == mp.kin && r.stress == mp.stress && r.mass == mp.mass
    ensures r.bodyForce == mp.bodyForce && r.materialId == mp.materialId
    ensures IsMatrix(r.strain, dim, dim) && Symmetric(r.strain, dim)
    ensures var l := grad(Flatten(Velocities(nodes), dim), mp.kin.pos);
      forall j, k :: 0 <= j < dim && 0 <= k < dim ==> r.strain[j][k] == (Entry(l, j, k) + Entry(l, k, j)) / 2.0
  {
    mp.(strain := Symmetrize(grad(Flatten(Velocities(nodes), dim), mp.kin.pos), dim))
  }

  /** `updateStrainRate(grid, matPoints)`: the loop body applied to every
      point, each independently of the others. */
  function UpdateStrainRates(grad: LocatedGradient, dim: nat, nodes: seq<Point>, points: seq<MaterialPoint>)
    : (r: seq<MaterialPoint>)
    requires Wide(Velocities(nodes), dim)
    ensures |r| == |points|
    ensures forall i :: 0 <= i < |points| ==> r[i] == LocatedStrainRate(grad, dim, nodes, points[i])
  {
    seq(|points|, i requires 0 <= i < |points| => LocatedStrainRate(grad, dim, nodes, points[i]))
  }

  /** The stress the batch loop writes, as written: off the diagonal the
      scaled strain rate, on the diagonal only the mean stress. */
  function AsWrittenStress(m: Material, strain: Mat, dim: nat): (s: Mat)
    requires m.porosity != 0.0 && m.density != 0.0
    ensures IsMatrix(s, dim, dim)
  {
    var dev := Deviator(strain, dim);
    var mean := MeanStress(m, strain, dim);
    seq(dim, i requires 0 <= i < dim =>
      seq(dim, j requires 0 <= j < dim => if i == j then mean else ViscousModulus(m) * dev[i][j]))
  }

  /** `updateStress(grid, matPoints)` as written. */
  function UpdateStressesAsWritten(m: Material, dim: nat, points: seq<MaterialPoint>): (r: seq<MaterialPoint>)
    requires m.porosity != 0.0 && m.density != 0.0
    requires StressShaped(points, dim)
    ensures |r| == |points|
    ensures forall i :: 0 <= i < |points| ==>
      r[i] == points[i].(stress := AsWrittenStress(m, points[i].strain, dim))
  {
    seq(|points|, i requires 0 <= i < |points| => points[i].(stress := AsWrittenStress(m, points[i].strain, dim)))
  }

  /** The as-written loop agrees with the per-point law off the diagonal,
      and on the diagonal exactly when the scaled deviatoric strain rate
      there is zero. */
  lemma {:induction false} AsWrittenAgreesIff(m: Material, strain: Mat, dim: nat, i: int, j: int)
    requires m.porosity != 0.0 && m.density != 0.0
    requires 0 <= i < dim && 0 <= j < dim
    ensures i != j ==> AsWrittenStress(m, strain, dim)[i][j] == StressTensor(m, strain, dim)[i][j]
    ensures i == j ==>
      ((AsWrittenStress(m, strain, dim)[i][i] == StressTensor(m, strain, dim)[i][i])
       <==> ViscousModulus(m) * Deviator(strain, dim)[i][i] == 0.0)
  {
    var dev := Deviator(strain, dim);
    if i == j {
      assert dev[i][i] == Entry(strain, i, i) - Hydrostatic(strain, dim);
    }
  }

  /** As written, the stress's diagonal carries no deviatoric part at all:
      every diagonal entry is the mean stress. */
  lemma {:induction false} AsWrittenDiagonalIsMean(m: Material, strain: Mat, dim: nat)
    requires m.porosity != 0.0 && m.density != 0.0
    ensures forall i :: 0 <= i < dim ==> AsWrittenStress(m, strain, dim)[i][i] == MeanStress(m, strain, dim)
  {
  }

  /** The input that shows it: porosity 1/2, shear modulus 1, density 1 and
      the trace-free strain rate diag(1, -1). The intended stress is
      diag(3/4, -1/4); the loop as written gives diag(1/4, 1/4). */
  lemma {:induction false} DiagonalDropsDeviator()
    ensures var m := NewMaterial(0.5, 1.0, 1.0);
      var strain := [[1.0, 0.0], [0.0, -1.0]];
      && AsWrittenStress(m, strain, 2) == [[0.25, 0.0], [0.0, 0.25]]
      && StressTensor(m, strain, 2) == [[0.75, 0.0], [0.0, -0.25]]
  {
    var m := NewMaterial(0.5, 1.0, 1.0);
    var strain := [[1.0, 0.0], [0.0, -1.0]];
    assert m.phi == 0.25 && m.psi * 1.5 == 0.25;
    assert Trace(strain, 2) == 0.0;
    assert SinteringStress(m) == 0.25;
    assert MeanStress(m, strain, 2) == 0.25;
    assert ViscousModulus(m) == 0.5;
    assert Hydrostatic(strain, 2) == 0.0;
    var a := AsWrittenStress(m, strain, 2);
    assert a[0] == [0.25, 0.0] && a[1] == [0.0, 0.25];
    var s := StressTensor(m, strain, 2);
    assert s[0][0] == 0.75 && s[0][1] == 0.0;
    assert s[1][0] == 0.0 && s[1][1] == -0.25;
    assert s[0] == [0.75, 0.0] && s[1] == [0.0, -0.25];
  }

  /** `updateStress(grid, matPoints)` as evidently intended: the per-point
      law applied to every point independently, so each point's stress
      depends on its own strain rate only. */
  function UpdateStresses(m: Material, dim: nat, points: seq<MaterialPoint>): (r: seq<MaterialPoint>)
    requires m.porosity != 0.0 && m.density != 0.0
    requires StressShaped(points, dim)
    ensures |r| == |points|
    ensures forall i :: 0 <= i < |points| ==> r[i] == Olevsky.UpdateStress(m, dim, points[i])
  {
    seq(|points|, i requires 0 <= i < |points| => Olevsky.UpdateStress(m, dim, points[i]))
  }

  /** With the intended loop every point's stress deviator is the viscous
      modulus times its strain-rate deviator, and its hydrostatic part is
      the mean stress. */
  lemma {:induction false} UpdateStressesSplit(m: Material, dim: nat, points: seq<MaterialPoint>, i: int)
    requires m.porosity != 0.0 && m.density != 0.0
    requires StressShaped(points, dim) && 0 <= i < |points|
    ensures var s := UpdateStresses(m, dim, points)[i].stress;
      && Trace(s, dim) == dim as real * MeanStress(m, points[i].strain, dim)
      && forall j, k :: 0 <= j < dim && 0 <= k < dim ==>
           Deviator(s, dim)[j][k] == ViscousModulus(m) * Deviator(points[i].strain, dim)[j][k]
  {
    StressTrace(m, points[i].strain, dim);
    StressDeviator(m, points[i].strain, dim);
  }
}
