/** Kinematic points and material points (Kelvin/src/Point.h,
    Kelvin/src/MaterialPoint.h). */
module Points {
  import opened LinAlg
  import opened KelvinBaseTypes

  /** A point of fixed dimension with position, velocity and acceleration. */
  datatype Point = Point(nDim: nat, pos: Vec, vel: Vec, acc: Vec) {

    /** The class invariant: every kinematic vector has one entry per
        dimension. */
    predicate Valid() {
      |pos| == nDim && |vel| == nDim && |acc| == nDim
    }

    function Dimension(): nat {
      nDim
    }
  }

  /** The constructor `Point(dim = 3)`: storage for every vector is allocated
      and zeroed. */
  function NewPoint(dim: nat := DefaultDimension): (p: Point)
    ensures p.Valid() && p.Dimension() == dim
    ensures forall i :: 0 <= i < dim ==> p.pos[i] == 0.0 && p.vel[i] == 0.0 && p.acc[i] == 0.0
  {
    Point(dim, Zeros(dim), Zeros(dim), Zeros(dim))
  }

  /** The copy constructor. */
  function CopyPoint(other: Point): (p: Point)
    ensures p.Dimension() == other.Dimension()
    ensures p.pos == other.pos && p.vel == other.vel && p.acc == other.acc
    ensures other.Valid() ==> p.Valid()
  {
    Point(other.nDim, other.pos, other.vel, other.acc)
  }

  /** A point extended with the material state carried by a particle: a
      dim x dim stress and strain (rate), a body force, a mass and the id of
      the material's constitutive relationship. */
  datatype MaterialPoint = MaterialPoint(kin: Point, stress: Mat, strain: Mat, mass: real,
                                         bodyForce: Vec, materialId: int) {

    /** The class invariant: the point's invariant, square tensors and a body
        force of the point's dimension. */
    predicate Valid() {
      && kin.Valid()
      && IsMatrix(stress, kin.nDim, kin.nDim)
      && IsMatrix(strain, kin.nDim, kin.nDim)
      && |bodyForce| == kin.nDim
    }

    function Dimension(): nat {
      kin.nDim
    }
  }

  /** The constructor `MaterialPoint(dim = 3)`. */
  function NewMaterialPoint(dim: nat := DefaultDimension): (mp: MaterialPoint)
    ensures mp.Valid() && mp.Dimension() == dim
    ensures mp.mass == 0.0 && mp.materialId == 0
    ensures forall i, j :: 0 <= i < dim && 0 <= j < dim ==> mp.stress[i][j] == 0.0 && mp.strain[i][j] == 0.0
  {
    MaterialPoint(NewPoint(dim), ZeroMatrix(dim), ZeroMatrix(dim), 0.0, Zeros(dim), 0)
  }

  /** Construction from a plain point: the kinematics are copied and the
      material state starts at zero. */
  function MaterialPointFromPoint(p: Point): (mp: MaterialPoint)
    ensures mp.kin.pos == p.pos && mp.kin.vel == p.vel && mp.kin.acc == p.acc
    ensures mp.Dimension() == p.Dimension()
    ensures p.Valid() ==> mp.Valid()
    ensures mp.mass == 0.0 && mp.materialId == 0
    ensures IsMatrix(mp.stress, p.nDim, p.nDim) && IsMatrix(mp.strain, p.nDim, p.nDim) && |mp.bodyForce| == p.nDim
    ensures forall i, j :: 0 <= i < p.nDim && 0 <= j < p.nDim ==> mp.stress[i][j] == 0.0 && mp.strain[i][j] == 0.0
    ensures forall i :: 0 <= i < p.nDim ==> mp.bodyForce[i] == 0.0
  {
    MaterialPoint(CopyPoint(p), ZeroMatrix(p.nDim), ZeroMatrix(p.nDim), 0.0, Zeros(p.nDim), 0)
  }

  /** The copy constructor. */
  function CopyMaterialPoint(other: MaterialPoint): (mp: MaterialPoint)
    ensures mp.Dimension() == other.Dimension()
    ensures mp.kin.pos == other.kin.pos && mp.kin.vel == other.kin.vel && mp.kin.acc == other.kin.acc
    ensures mp.stress == other.stress && mp.strain == other.strain && mp.bodyForce == other.bodyForce
    ensures mp.mass == other.mass && mp.materialId == other.materialId
    ensures other.Valid() ==> mp.Valid()
  {
    MaterialPoint(CopyPoint(other.kin), other.stress, other.strain, other.mass, other.bodyForce, other.materialId)
  }

  /** A material point satisfies the point invariant: pos, vel and acc have
      the dimension's length, whatever the material state. */
  lemma {:induction false} MaterialPointIsPoint(mp: MaterialPoint)
    requires mp.Valid()
    ensures mp.kin.Valid()
    ensures |mp.kin.pos| == mp.Dimension() && |mp.kin.vel| == mp.Dimension() && |mp.kin.acc| == mp.Dimension()
  {
  }

  /** The material point with its velocity or its acceleration replaced. */
  function WithVel(mp: MaterialPoint, vel: Vec): MaterialPoint { mp.(kin := mp.kin.(vel := vel)) }
  function WithAcc(mp: MaterialPoint, acc: Vec): MaterialPoint { mp.(kin := mp.kin.(acc := acc)) }

  /** The construction test: the default material point, its copy and a
      material point built from a point. */
  lemma {:induction false} ConstructionFixture()
    ensures NewMaterialPoint().Dimension() == 3
    ensures |NewMaterialPoint().kin.pos| == 3 && |NewMaterialPoint().bodyForce| == 3
    ensures |NewMaterialPoint().stress| == 3 && |NewMaterialPoint().stress[2]| == 3
    ensures NewMaterialPoint().mass == 0.0
    ensures var p := NewPoint().(pos := [1.0, 0.0, 0.0]);
            MaterialPointFromPoint(p).kin.pos[0] == 1.0 && MaterialPointFromPoint(p).mass == 0.0
  {
  }
}
