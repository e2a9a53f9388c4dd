/** The Olevsky linear-viscous constitutive relationship of a sintering
    porous body (src/MFEMOlevskyLVCR.cpp), one material point at a time:
    the strain rate is the symmetric part of the velocity gradient at the
    point, and the stress is a scaled deviator of the strain rate plus a
    hydrostatic term on the diagonal. */
module Olevsky {
  import opened Sums
  import opened LinAlg
  import opened Points
  import opened MeshContainer
  import opened GridMapper

  /** The material constants read from the "material" property block, and
      the two derived moduli. */
  datatype Material = Material(porosity: real, shearModulus: real, density: real, phi: real, psi: real)

  /** The constructor: phi = (1 - p)^2 and psi = (2/3) phi (1 - p) / p. The
      porosity divides, so it must not be zero. */
  function NewMaterial(porosity: real, shearModulus: real, density: real): (m: Material)
    requires porosity != 0.0
    ensures m.porosity == porosity && m.shearModulus == shearModulus && m.density == density
    ensures m.phi == (1.0 - porosity) * (1.0 - porosity)
    ensures 3.0 * porosity * m.psi == 2.0 * m.phi * (1.0 - porosity)
  {
    var phi := (1.0 - porosity) * (1.0 - porosity);
    Material(porosity, shearModulus, density, phi, (2.0 / 3.0) * phi * (1.0 - porosity) / porosity)
  }

  /** The sintering stress, the same on every axis:
      phi (2 (1 - p) - (1 - p)) / p. */
  function SinteringStress(m: Material): real
    requires m.porosity != 0.0
  {
    m.phi * (2.0 * (1.0 - m.porosity) - (1.0 - m.porosity)) / m.porosity
  }

  /** For a constructed material the sintering stress is three halves of
      psi, and both moduli vanish exactly when the body is all pores
      (p = 1). */
  lemma {:induction false} SinteringIsThreeHalvesPsi(porosity: real, shearModulus: real, density: real)
    requires porosity != 0.0
    ensures var m := NewMaterial(porosity, shearModulus, density);
      && SinteringStress(m) == 1.5 * m.psi
      && (m.phi == 0.0 <==> porosity == 1.0)
      && (m.psi == 0.0 <==> porosity == 1.0)
  {
    var m := NewMaterial(porosity, shearModulus, density);
    var q := 1.0 - porosity;
    assert SinteringStress(m) == m.phi * q / porosity;
    assert m.psi == (2.0 / 3.0) * (m.phi * q / porosity);
    ProductZero(q, q);
    ProductZero(m.phi, q);
    QuotientZero(m.phi * q, porosity);
  }

  lemma {:induction false} ProductZero(a: real, b: real)
    ensures a * b == 0.0 <==> a == 0.0 || b == 0.0
  {
    if a != 0.0 && b != 0.0 {
      if a > 0.0 && b > 0.0 {
        assert a * b > 0.0;
      } else if a > 0.0 {
        assert a * b < 0.0;
      } else if b > 0.0 {
        assert a * b < 0.0;
      } else {
        assert a * b > 0.0;
      }
    }
  }

  lemma {:induction false} QuotientZero(a: real, b: real)
    requires b != 0.0
    ensures a / b == 0.0 <==> a == 0.0
  {
    assert a == (a / b) * b;
  }

  /** The hydrostatic strain rate trace / dim. The source divides by dim
      only to use the quotient inside loops over dim, so for dim = 0 the
      value is never used and 0 stands for it. */
  function Hydrostatic(strain: Mat, dim: nat): real
  {
    if dim == 0 then 0.0 else Trace(strain, dim) / dim as real
  }

  /** The deviatoric strain rate: the strain rate minus its hydrostatic
      part on the diagonal. */
  function Deviator(strain: Mat, dim: nat): (dev: Mat)
    ensures IsMatrix(dev, dim, dim)
    ensures forall i, j :: 0 <= i < dim && 0 <= j < dim && i != j ==> dev[i][j] == Entry(strain, i, j)
    ensures forall i :: 0 <= i < dim ==> dev[i][i] + Hydrostatic(strain, dim) == Entry(strain, i, i)
  {
    var h := Hydrostatic(strain, dim);
    seq(dim, i requires 0 <= i < dim =>
      seq(dim, j requires 0 <= j < dim => if i == j then Entry(strain, i, j) - h else Entry(strain, i, j)))
  }

  /** The deviator carries no trace. */
  lemma {:induction false} DeviatorTraceFree(strain: Mat, dim: nat)
    ensures Trace(Deviator(strain, dim), dim) == 0.0
  {
    if dim > 0 {
      var dev := Deviator(strain, dim);
      var h := Hydrostatic(strain, dim);
      var minusH := (i: int) => -h;
      SumAdd(dim, i => Entry(strain, i, i), minusH, i => Entry(dev, i, i));
      SumConst(dim, -h, minusH);
    }
  }

  /** Removing the hydrostatic part twice removes nothing more. */
  lemma {:induction false} DeviatorIdempotent(strain: Mat, dim: nat)
    ensures forall i, j :: 0 <= i < dim && 0 <= j < dim ==>
      Deviator(Deviator(strain, dim), dim)[i][j] == Deviator(strain, dim)[i][j]
  {
    DeviatorTraceFree(strain, dim);
  }

  /** The stress the update writes: 2 G phi / density times the deviatoric
      strain rate everywhere, plus the mean stress (2 G psi trace +
      sintering stress) / density on the diagonal. */
  function ViscousModulus(m: Material): real
    requires m.density != 0.0
  {
    2.0 * m.shearModulus * m.phi / m.density
  }

  function MeanStress(m: Material, strain: Mat, dim: nat): real
    requires m.porosity != 0.0 && m.density != 0.0
  {
    (2.0 * m.shearModulus * m.psi * Trace(strain, dim) + SinteringStress(m)) / m.density
  }

  function StressTensor(m: Material, strain: Mat, dim: nat): (s: Mat)
    requires m.porosity != 0.0 && m.density != 0.0
    ensures IsMatrix(s, dim, dim)
    ensures forall i, j :: 0 <= i < dim && 0 <= j < dim && i != j ==>
      s[i][j] == ViscousModulus(m) * Entry(strain, i, j)
    ensures forall i :: 0 <= i < dim ==>
      s[i][i] == ViscousModulus(m) * (Entry(strain, i, i) - Hydrostatic(strain, dim)) + MeanStress(m, strain, dim)
  {
    var dev := Deviator(strain, dim);
    var c := ViscousModulus(m);
    var mean := MeanStress(m, strain, dim);
    seq(dim, i requires 0 <= i < dim =>
      seq(dim, j requires 0 <= j < dim => if i == j then c * dev[i][j] + mean else c * dev[i][j]))
  }

  /** A symmetric strain rate gives a symmetric stress. */
  lemma {:induction false} StressSymmetric(m: Material, strain: Mat, dim: nat)
    requires m.porosity != 0.0 && m.density != 0.0
    requires Symmetric(strain, dim)
    ensures Symmetric(StressTensor(m, strain, dim), dim)
  {
    var s := StressTensor(m, strain, dim);
    forall i, j | 0 <= i < dim && 0 <= j < dim
      ensures Entry(s, i, j) == Entry(s, j, i)
    {
      if i != j {
        assert Entry(strain, i, j) == Entry(strain, j, i);
      }
    }
  }

  /** The stress splits into the law's two parts: its trace is dim times
      the mean stress, so its hydrostatic part is the mean stress, and its
      deviator is 2 G phi / density times the strain-rate deviator. */
  lemma {:induction false} StressTrace(m: Material, strain: Mat, dim: nat)
    requires m.porosity != 0.0 && m.density != 0.0
    ensures Trace(StressTensor(m, strain, dim), dim) == dim as real * MeanStress(m, strain, dim)
  {
    var s := StressTensor(m, strain, dim);
    var dev := Deviator(strain, dim);
    var c, b := ViscousModulus(m), MeanStress(m, strain, dim);
    StressDiagonal(m, strain, dim, c, b);
    DeviatorTraceFree(strain, dim);
    TraceAffine(dim, c, b, dev, s);
  }

  /** A matrix whose diagonal is c times a trace-free diagonal plus b has
      trace n b. */
  lemma {:induction false} TraceAffine(n: nat, c: real, b: real, a: Mat, s: Mat)
    requires Trace(a, n) == 0.0
    requires forall i :: 0 <= i < n ==> Entry(s, i, i) == c * Entry(a, i, i) + b
    ensures Trace(s, n) == n as real * b
  {
    SumAffine(n, c, b, i => Entry(a, i, i), i => Entry(s, i, i));
  }

  /** Each diagonal entry of the stress is the scaled diagonal entry of the
      strain-rate deviator plus the mean stress. */
  lemma {:induction false} StressDiagonal(m: Material, strain: Mat, dim: nat, c: real, b: real)
    requires m.porosity != 0.0 && m.density != 0.0
    requires c == ViscousModulus(m) && b == MeanStress(m, strain, dim)
    ensures forall i :: 0 <= i < dim ==>
      Entry(StressTensor(m, strain, dim), i, i) == c * Entry(Deviator(strain, dim), i, i) + b
  {
    var dev := Deviator(strain, dim);
    forall i | 0 <= i < dim
      ensures Entry(StressTensor(m, strain, dim), i, i) == c * Entry(dev, i, i) + b
    {
      assert dev[i][i] == Entry(strain, i, i) - Hydrostatic(strain, dim);
    }
  }

  /** Terms c f(i) + b over terms f(i) that sum to zero sum to n b. */
  lemma {:induction false} SumAffine(n: nat, c: real, b: real, f: int -> real, g: int -> real)
    requires Sum(n, f) == 0.0
    requires forall i :: 0 <= i < n ==> g(i) == c * f(i) + b
    ensures Sum(n, g) == n as real * b
  {
    var scaled := (i: int) => c * f(i);
    var constant := (i: int) => b;
    SumAdd(n, scaled, constant, g);
    SumScale(n, c, f, scaled);
    SumConst(n, b, constant);
  }

  lemma {:induction false} StressDeviator(m: Material, strain: Mat, dim: nat)
    requires m.porosity != 0.0 && m.density != 0.0
    ensures forall i, j :: 0 <= i < dim && 0 <= j < dim ==>
      Deviator(StressTensor(m, strain, dim), dim)[i][j]
        == ViscousModulus(m) * Deviator(strain, dim)[i][j]
  {
    StressTrace(m, strain, dim);
    if dim > 0 {
      var s := StressTensor(m, strain, dim);
      var n := dim as real;
      var mean := MeanStress(m, strain, dim);
      assert (n * mean) / n == mean;
    }
  }

  /** `updateStress(grid, matPoint)`: the point's dim x dim stress is
      replaced by the stress of its strain rate; the previous stress plays
      no part and nothing else of the point changes. The density divides. */
  function UpdateStress(m: Material, dim: nat, mp: MaterialPoint): (r: MaterialPoint)
    requires m.porosity != 0.0 && m.density != 0.0
    requires IsMatrix(mp.stress, dim, dim)
    ensures r.kin == mp.kin && r.strain == mp.strain && r.mass == mp.mass
    ensures r.bodyForce == mp.bodyForce && r.materialId == mp.materialId
    ensures r.stress == StressTensor(m, mp.strain, dim)
  {
    mp.(stress := StressTensor(m, mp.strain, dim))
  }

  /** DenseMatrix::Symmetrize: the symmetric part (L + L^T) / 2. */
  function Symmetrize(l: Mat, dim: nat): (s: Mat)
    ensures IsMatrix(s, dim, dim) && Symmetric(s, dim)
    ensures forall i, j :: 0 <= i < dim && 0 <= j < dim ==> s[i][j] + s[j][i] == Entry(l, i, j) + Entry(l, j, i)
  {
    seq(dim, i requires 0 <= i < dim =>
      seq(dim, j requires 0 <= j < dim => (Entry(l, i, j) + Entry(l, j, i)) / 2.0))
  }

  /** A symmetric matrix is its own symmetric part, so symmetrising twice
      is symmetrising once; and what symmetrising removes is antisymmetric. */
  lemma {:induction false} SymmetrizeFixes(l: Mat, dim: nat)
    ensures Symmetric(l, dim) <==> forall i, j :: 0 <= i < dim && 0 <= j < dim ==> Symmetrize(l, dim)[i][j] == Entry(l, i, j)
    ensures forall i, j :: 0 <= i < dim && 0 <= j < dim ==>
      Symmetrize(Symmetrize(l, dim), dim)[i][j] == Symmetrize(l, dim)[i][j]
    ensures forall i, j :: 0 <= i < dim && 0 <= j < dim ==>
      Entry(l, i, j) - Symmetrize(l, dim)[i][j] == -(Entry(l, j, i) - Symmetrize(l, dim)[j][i])
  {
    var s := Symmetrize(l, dim);
    if forall i, j :: 0 <= i < dim && 0 <= j < dim ==> s[i][j] == Entry(l, i, j) {
      forall i, j | 0 <= i < dim && 0 <= j < dim
        ensures Entry(l, i, j) == Entry(l, j, i)
      {
        assert s[i][j] == s[j][i];
      }
    }
  }

  /** The velocity gradient [[1, 3], [1, 3]] symmetrises to [[1, 2], [2, 3]]. */
  lemma {:induction false} SymmetrizeFixture()
    ensures Symmetrize([[1.0, 3.0], [1.0, 3.0]], 2) == [[1.0, 2.0], [2.0, 3.0]]
  {
    var s := Symmetrize([[1.0, 3.0], [1.0, 3.0]], 2);
    assert s[0] == [1.0, 2.0];
    assert s[1] == [2.0, 3.0];
  }

  /** MFEM's `TransformBack` followed by `GetVectorGradient`: the gradient
      of a flat nodal velocity field in element elemId at a physical
      position. */
  type GradientOracle = (Vec, int, Vec) -> Mat

  /** `updateStrainRate(grid, matPoint)`: the grid velocities are laid out
      flat, the point's element is found with the mapper's regular-grid
      formula, and the point's dim x dim strain becomes the symmetric part
      of the velocity gradient there; nothing else of the point changes. */
  function UpdateStrainRate(mesh: Mesh, grad: GradientOracle, nodes: seq<Point>, mp: MaterialPoint): (r: MaterialPoint)
    requires MeshReady(mesh) && Wide(Velocities(nodes), mesh.dim) && |mp.kin.pos| >= mesh.dim
    ensures r.kin == mp.kin && r.stress == mp.stress && r.mass == mp.mass
    ensures r.bodyForce == mp.bodyForce && r.materialId == mp.materialId
    ensures IsMatrix(r.strain, mesh.dim, mesh.dim) && Symmetric(r.strain, mesh.dim)
    ensures var l := grad(Flatten(Velocities(nodes), mesh.dim), MapperElementId(mesh, mp.kin.pos), mp.kin.pos);
      forall i, j :: 0 <= i < mesh.dim && 0 <= j < mesh.dim ==>
        r.strain[i][j] == (Entry(l, i, j) + Entry(l, j, i)) / 2.0
  {
    var field := Flatten(Velocities(nodes), mesh.dim);
    mp.(strain := Symmetrize(grad(field, MapperElementId(mesh, mp.kin.pos), mp.kin.pos), mesh.dim))
  }

  /** One constitutive update of a point, strain rate and then stress, gives
      a symmetric stress whatever the velocity gradient. */
  lemma {:induction false} UpdateGivesSymmetricStress(m: Material, mesh: Mesh, grad: GradientOracle, nodes: seq<Point>, mp: MaterialPoint)
    requires m.porosity != 0.0 && m.density != 0.0
    requires MeshReady(mesh) && Wide(Velocities(nodes), mesh.dim) && |mp.kin.pos| >= mesh.dim
    requires IsMatrix(mp.stress, mesh.dim, mesh.dim)
    ensures Symmetric(UpdateStress(m, mesh.dim, UpdateStrainRate(mesh, grad, nodes, mp)).stress, mesh.dim)
  {
    var p := UpdateStrainRate(mesh, grad, nodes, mp);
    StressSymmetric(m, p.strain, mesh.dim);
  }
}
