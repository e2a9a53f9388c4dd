/** The two-element grid of Kelvin/src/tests/GridTest.cpp, replayed on the
    model: a 2 x 1 mesh of unit quadrilaterals with nodes 0..5 at
    (0,0), (1,0), (2,0), (0,1), (1,1), (2,1) and one particle at the centre
    of each element. The state below is the grid right after `assemble`;
    the lemmas follow the calls the test makes and state the values it
    expects. */
module GridFixture {
  import opened Sums
  import opened LinAlg
  import opened KelvinBaseTypes
  import opened Points
  import opened NodeSet
  import opened ShapeMatrix
  import opened Mass
  import opened Grid
  import opened GridForces
  import opened ForceLaws
  import opened GridKinematics

  /** The massive node set: every node carries weight. */
  const NodeIds: seq<int> := [0, 1, 2, 3, 4, 5]

  /** The shape matrix: each centre particle weighs 1/4 on the four nodes of
      its element. */
  const Rows: seq<ShapeRow> := [
    map[0 := 0.25, 1 := 0.25, 4 := 0.25, 3 := 0.25],
    map[1 := 0.25, 2 := 0.25, 5 := 0.25, 4 := 0.25]]

  function Grad(x: int, gx: real, gy: real): Gradient
  {
    NodalValueVector(2, x, [gx, gy])
  }

  /** The bilinear shape gradients at the element centres, in the element's
      node order. */
  const Gradients: map<int, seq<Gradient>> := map[
    0 := [Grad(0, -0.5, -0.5), Grad(1, 0.5, -0.5), Grad(4, 0.5, 0.5), Grad(3, -0.5, 0.5)],
    1 := [Grad(1, -0.5, -0.5), Grad(2, 0.5, -0.5), Grad(5, 0.5, 0.5), Grad(4, -0.5, 0.5)]]

  /** A particle as the test sets it up: unit stress in every entry, unit
      mass, unit body force and velocity vel. */
  function Particle(x: real, vel: Vec): MaterialPoint
  {
    MaterialPoint(Point(2, [x, 0.5], vel, [0.0, 0.0]), [[1.0, 1.0], [1.0, 1.0]], [[0.0, 0.0], [0.0, 0.0]],
                  1.0, [1.0, 1.0], 0)
  }

  /** The particles before and after the test gives them unit velocity. */
  const Particles: seq<MaterialPoint> := [Particle(0.5, [0.0, 0.0]), Particle(1.5, [0.0, 0.0])]
  const Moving: seq<MaterialPoint> := [Particle(0.5, [1.0, 1.0]), Particle(1.5, [1.0, 1.0])]

  function Node(x: real, y: real): Point
  {
    Point(2, [x, y], [0.0, 0.0], [0.0, 0.0])
  }

  function Slot(x: int): ForceVector
  {
    NodalValueVector(2, x, [0.0, 0.0])
  }

  const Slots: seq<ForceVector> := [Slot(0), Slot(1), Slot(2), Slot(3), Slot(4), Slot(5)]

  /** The grid after `assemble` and `massMatrix(particles)`. */
  const AssembledGrid: Grid := Grid(2,
    [Node(0.0, 0.0), Node(1.0, 0.0), Node(2.0, 0.0), Node(0.0, 1.0), Node(1.0, 1.0), Node(2.0, 1.0)],
    NodeIds, Rows, Gradients, Mass.Assembled(Rows, NodeIds), Slots, Slots)

  /** The stored state is a valid grid whose shape rows are a partition of
      unity on the node set. */
  lemma {:induction false} AssembledIsValid()
    ensures Valid(AssembledGrid)
    ensures forall p :: 0 <= p < |Rows| ==> RowTotal(Rows[p], NodeIds) == 1.0
  {
    FixtureValid();
    RowZeroTotal();
    RowOneTotal();
  }

  lemma {:induction false} FixtureValid()
    ensures Valid(AssembledGrid)
  {
    var g := AssembledGrid;
    assert NodesValid(g);
    assert StrictlySorted(g.nodeSet);
    assert ForcesMatch(g, Slots);
  }

  lemma {:induction false} RowZeroTotal()
    ensures RowTotal(Rows[0], NodeIds) == 1.0
  {
    SumSix(j => Val(Rows[0], IdAt(NodeIds, j)));
  }

  lemma {:induction false} RowOneTotal()
    ensures RowTotal(Rows[1], NodeIds) == 1.0
  {
    SumSix(j => Val(Rows[1], IdAt(NodeIds, j)));
  }

  /** A sum over the six nodes, written out. */
  lemma {:induction false} SumSix(f: int -> real)
    ensures Sum(6, f) == f(0) + f(1) + f(2) + f(3) + f(4) + f(5)
  {
    assert Sum(1, f) == f(0);
    assert Sum(2, f) == f(0) + f(1);
    assert Sum(3, f) == f(0) + f(1) + f(2);
    assert Sum(4, f) == f(0) + f(1) + f(2) + f(3);
    assert Sum(5, f) == f(0) + f(1) + f(2) + f(3) + f(4);
  }

  /** A sum over the two particles, written out. */
  lemma {:induction false} SumTwo(f: int -> real)
    ensures Sum(2, f) == f(0) + f(1)
  {
    assert Sum(1, f) == f(0);
  }

  /** The consistent mass matrix of the test, row by row. */
  const RefMasses: seq<real> := [
    0.0625, 0.0625, 0.0, 0.0625, 0.0625, 0.0,
    0.0625, 0.125, 0.0625, 0.0625, 0.125, 0.0625,
    0.0, 0.0625, 0.0625, 0.0, 0.0625, 0.0625,
    0.0625, 0.0625, 0.0, 0.0625, 0.0625, 0.0,
    0.0625, 0.125, 0.0625, 0.0625, 0.125, 0.0625,
    0.0, 0.0625, 0.0625, 0.0, 0.0625, 0.0625]

  /** The assembled mass matrix has the test's 36 entries. */
  lemma {:induction false} MassMatrixEntries()
    ensures forall i, j :: 0 <= i < 6 && 0 <= j < 6 ==> MassEntry(Rows, i, j) == RefMasses[6 * i + j]
  {
    forall i, j | 0 <= i < 6 && 0 <= j < 6
      ensures MassEntry(Rows, i, j) == RefMasses[6 * i + j]
    {
      MassEntryAt(i, j);
    }
  }

  lemma {:induction false} MassEntryAt(i: int, j: int)
    requires 0 <= i < 6 && 0 <= j < 6
    ensures MassEntry(Rows, i, j) == RefMasses[6 * i + j]
  {
    RowWeights();
    TwoRowEntry(Rows, i, j);
    var a, b, c, d := Left[i], Left[j], Right[i], Right[j];
    assert MassEntry(Rows, i, j) == a * b + c * d;
    MassEntryOf(i, j, a, b, c, d);
  }

  /** A mass-matrix entry of a two-particle shape matrix, written out. */
  lemma {:induction false} TwoRowEntry(rows: seq<ShapeRow>, i: int, j: int)
    requires |rows| == 2
    ensures MassEntry(rows, i, j) == RowVal(rows, 0, i) * RowVal(rows, 0, j) + RowVal(rows, 1, i) * RowVal(rows, 1, j)
  {
    SumTwo(p => RowVal(rows, p, i) * RowVal(rows, p, j));
  }

  /** The weights of the two shape rows on nodes 0..5. */
  const Left: seq<real> := [0.25, 0.25, 0.0, 0.25, 0.25, 0.0]
  const Right: seq<real> := [0.0, 0.25, 0.25, 0.0, 0.25, 0.25]

  lemma {:induction false} RowWeights()
    ensures forall x :: 0 <= x < 6 ==> RowVal(Rows, 0, x) == Left[x] && RowVal(Rows, 1, x) == Right[x]
  {
  }

  lemma {:induction false} MassEntryOf(i: int, j: int, a: real, b: real, c: real, d: real)
    requires 0 <= i < 6 && 0 <= j < 6
    requires a == Left[i] && b == Left[j] && c == Right[i] && d == Right[j]
    ensures a * b + c * d == RefMasses[6 * i + j]
  {
    if i == 0 {
    } else if i == 1 {
    } else if i == 2 {
    } else if i == 3 {
    } else if i == 4 {
    } else {
    }
  }

  /** The update a particle makes with gradient g if it is tagged x. */
  function PushIf(x: int, mp: MaterialPoint, g: Gradient): seq<Push>
  {
    if g.nodeId == x then [Push(mp.mass, VecMat(g.values, mp.stress))] else []
  }

  lemma {:induction false} FourGradients(x: int, mp: MaterialPoint, grads: seq<Gradient>)
    requires |grads| == 4
    ensures GradientPushes(x, mp, grads)
         == PushIf(x, mp, grads[0]) + PushIf(x, mp, grads[1]) + PushIf(x, mp, grads[2]) + PushIf(x, mp, grads[3])
  {
    assert grads[..3][..2] == grads[..2];
    assert grads[..2][..1] == grads[..1];
    assert grads[..1][..0] == [];
    assert GradientPushes(x, mp, grads[..1]) == PushIf(x, mp, grads[0]);
    assert GradientPushes(x, mp, grads[..2]) == PushIf(x, mp, grads[0]) + PushIf(x, mp, grads[1]);
    assert GradientPushes(x, mp, grads[..3])
        == PushIf(x, mp, grads[0]) + PushIf(x, mp, grads[1]) + PushIf(x, mp, grads[2]);
  }

  /** With unit stress, g^T sigma has both components equal to gx + gy. */
  lemma {:induction false} UnitStressProduct(gx: real, gy: real)
    ensures VecMat([gx, gy], [[1.0, 1.0], [1.0, 1.0]]) == [gx + gy, gx + gy]
  {
    var v := VecMat([gx, gy], [[1.0, 1.0], [1.0, 1.0]]);
    SumTwo(k => At([gx, gy], k) * Entry([[1.0, 1.0], [1.0, 1.0]], k, 0));
    SumTwo(k => At([gx, gy], k) * Entry([[1.0, 1.0], [1.0, 1.0]], k, 1));
  }

  /** The updates at node x: those of particle 0, then those of particle 1. */
  lemma {:induction false} FixturePushes(x: int)
    ensures Pushes(x, Particles, Gradients, 2)
         == GradientPushes(x, Particles[0], Gradients[0]) + GradientPushes(x, Particles[1], Gradients[1])
  {
    TwoParticles(x, Particles, Gradients);
    assert GradsOf(Gradients, 0) == Gradients[0] && GradsOf(Gradients, 1) == Gradients[1];
  }

  lemma {:induction false} TwoParticles(x: int, ps: seq<MaterialPoint>, gm: map<int, seq<Gradient>>)
    requires |ps| == 2
    ensures Pushes(x, ps, gm, 2) == GradientPushes(x, ps[0], GradsOf(gm, 0)) + GradientPushes(x, ps[1], GradsOf(gm, 1))
  {
    assert Pushes(x, ps, gm, 0) == [];
    assert Pushes(x, ps, gm, 1) == [] + GradientPushes(x, ps[0], GradsOf(gm, 0));
  }

  /** A unit-mass update whose product has both components equal to s. */
  function UnitPush(s: real): Push
  {
    Push(1.0, [s, s])
  }

  /** The matching (particle, gradient) updates at each node: node 1 and
      node 4 are shared by both elements and see two. */
  function FixturePushList(x: int): seq<Push>
  {
    if x == 0 then [UnitPush(-1.0)]
    else if x == 1 then [UnitPush(0.0), UnitPush(-1.0)]
    else if x == 2 then [UnitPush(0.0)]
    else if x == 3 then [UnitPush(0.0)]
    else if x == 4 then [UnitPush(1.0), UnitPush(0.0)]
    else if x == 5 then [UnitPush(1.0)]
    else []
  }

  /** The unit-mass update of a gradient tagged n, if n is x. */
  function Hit(n: int, x: int, s: real): seq<Push>
  {
    if n == x then [UnitPush(s)] else []
  }

  /** With unit mass and unit stress, a gradient (gx, gy) tagged n makes
      the update (gx + gy, gx + gy) at node n. */
  lemma {:induction false} UnitPushIf(x: int, mp: MaterialPoint, n: int, gx: real, gy: real)
    requires mp.mass == 1.0 && mp.stress == [[1.0, 1.0], [1.0, 1.0]]
    ensures PushIf(x, mp, Grad(n, gx, gy)) == Hit(n, x, gx + gy)
  {
    UnitStressProduct(gx, gy);
  }

  /** The updates of the left element's particle. */
  lemma {:induction false} LeftPushes(x: int)
    ensures GradientPushes(x, Particles[0], Gradients[0])
         == Hit(0, x, -1.0) + Hit(1, x, 0.0) + Hit(4, x, 1.0) + Hit(3, x, 0.0)
  {
    var mp := Particles[0];
    FourGradients(x, mp, Gradients[0]);
    UnitPushIf(x, mp, 0, -0.5, -0.5);
    UnitPushIf(x, mp, 1, 0.5, -0.5);
    UnitPushIf(x, mp, 4, 0.5, 0.5);
    UnitPushIf(x, mp, 3, -0.5, 0.5);
  }

  /** The updates of the right element's particle. */
  lemma {:induction false} RightPushes(x: int)
    ensures GradientPushes(x, Particles[1], Gradients[1])
         == Hit(1, x, -1.0) + Hit(2, x, 0.0) + Hit(5, x, 1.0) + Hit(4, x, 0.0)
  {
    var mp := Particles[1];
    FourGradients(x, mp, Gradients[1]);
    UnitPushIf(x, mp, 1, -0.5, -0.5);
    UnitPushIf(x, mp, 2, 0.5, -0.5);
    UnitPushIf(x, mp, 5, 0.5, 0.5);
    UnitPushIf(x, mp, 4, -0.5, 0.5);
  }

  lemma {:induction false} NodePushes(x: int)
    ensures Pushes(x, Particles, Gradients, 2) == FixturePushList(x)
  {
    FixturePushes(x);
    LeftPushes(x);
    RightPushes(x);
  }

  /** One unit-mass update from rest negates its product. */
  lemma {:induction false} OneUnitPush(s: real)
    ensures Recur(Zeros(2), [UnitPush(s)]) == [-s, -s]
  {
    assert [UnitPush(s)][..0] == [];
    assert Zeros(2) == [0.0, 0.0];
  }

  /** Two unit-mass updates from rest: the second negates the sum of the
      first's result and its own product, giving s - t. */
  lemma {:induction false} TwoUnitPushes(s: real, t: real)
    ensures Recur(Zeros(2), [UnitPush(s), UnitPush(t)]) == [s - t, s - t]
  {
    assert [UnitPush(s), UnitPush(t)][..1] == [UnitPush(s)];
    OneUnitPush(s);
  }

  /** The value both components of the internal force take at each node, as
      the test expects them. */
  function ExpectedInternal(x: int): real
  {
    if x == 0 || x == 1 || x == 4 then 1.0 else if x == 5 then -1.0 else 0.0
  }

  /** `internalForces(particles)` on the fixture: the as-written recurrence
      gives the test's values, including +1 at node 4, whose two updates
      are (1, 1) and then (0, 0). */
  lemma {:induction false} InternalForceValues(x: int)
    requires 0 <= x < 6
    ensures InternalForceAt(2, x, Particles, Gradients) == [ExpectedInternal(x), ExpectedInternal(x)]
  {
    NodePushes(x);
    FixtureRecur(x);
  }

  /** The recurrence over each node's list of updates. */
  lemma {:induction false} FixtureRecur(x: int)
    requires 0 <= x < 6
    ensures Recur(Zeros(2), FixturePushList(x)) == [ExpectedInternal(x), ExpectedInternal(x)]
  {
    if x == 0 {
      OneUnitPush(-1.0);
    } else if x == 1 {
      TwoUnitPushes(0.0, -1.0);
    } else if x == 4 {
      TwoUnitPushes(1.0, 0.0);
    } else if x == 5 {
      OneUnitPush(1.0);
    } else {
      OneUnitPush(0.0);
    }
  }

  /** The reference sum -sum m g^T sigma disagrees at node 4, where it gives
      -1: the fixture's expectation holds only for the recurrence. */
  lemma {:induction false} ReferenceDisagreesAtNodeFour()
    ensures InternalForceAt(2, 4, Particles, Gradients) == [1.0, 1.0]
    ensures ReferenceForce(2, Pushes(4, Particles, Gradients, 2)) == [-1.0, -1.0]
  {
    InternalForceValues(4);
    NodePushes(4);
    ReferenceOnNodeFour();
  }

  /** The reference sum over node 4's updates (1, 1) and (0, 0). */
  lemma {:induction false} ReferenceOnNodeFour()
    ensures ReferenceForce(2, [UnitPush(1.0), UnitPush(0.0)]) == [-1.0, -1.0]
  {
    var pushes := [UnitPush(1.0), UnitPush(0.0)];
    SumTwo(t => ReferenceTerm(pushes, t, 0));
    SumTwo(t => ReferenceTerm(pushes, t, 1));
  }

  /** The share of the particles' unit weight each node receives: nodes 1
      and 4 sit in both elements. */
  function Share(x: int): real
  {
    if x == 1 || x == 4 then 0.5 else 0.25
  }

  /** `externalForces(particles)` on the fixture: S(p, x) m b summed over
      the particles, which with unit mass and body force is the share of
      each node. */
  lemma {:induction false} ExternalForceValues(x: int)
    requires 0 <= x < 6
    ensures ExternalForceAt(2, x, Rows, Particles) == [Share(x), Share(x)]
  {
    SumTwo(p => ExternalTerm(Rows, Particles, x, p, 0));
    SumTwo(p => ExternalTerm(Rows, Particles, x, p, 1));
  }

  /** The lumped masses the test prints: each node's share. */
  lemma {:induction false} LumpValues()
    ensures forall k :: 0 <= k < 6 ==> Lump(Rows, NodeIds)[k] == Share(k)
  {
    AssembledIsValid();
    PartitionOfUnityLump(Rows, NodeIds);
    forall k | 0 <= k < 6
      ensures Lump(Rows, NodeIds)[k] == Share(k)
    {
      SumTwo(p => RowVal(Rows, p, NodeIds[k]));
    }
  }

  /** The grid after `updateNodalAccelerations(1.0, particles)` on the
      test's grid g and particles ps. (The state is passed in rather than
      named so that the verifier does not evaluate the whole call.) */
  function AfterAccelerations(g: Grid, ps: seq<MaterialPoint>): (r: Grid)
    requires g == AssembledGrid && ps == Particles
    ensures r.dim == 2 && r.nodeSet == NodeIds && r.shapeRows == Rows && |r.nodes| == 6
    ensures r.massMatrix == Mass.Assembled(Rows, NodeIds)
  {
    AssembledIsValid();
    LumpValues();
    AccelerationsObeyNewton(g, 1.0, ps);
    UpdateNodalAccelerations(g, 1.0, ps).value
  }

  /** Newton's law on every node of the fixture. */
  lemma {:induction false} NewtonOnFixture(g: Grid, ps: seq<MaterialPoint>)
    requires g == AssembledGrid && ps == Particles
    ensures forall k :: 0 <= k < 6 ==>
      Newton(Lump(g.shapeRows, g.nodeSet)[k], AfterAccelerations(g, ps).nodes[k].acc,
             InternalForcesOf(g.internalForces, ps, g.gradientMap)[k].values,
             ExternalForcesOf(g.externalForces, g.shapeRows, ps)[k].values, 2)
  {
    FixtureReady(g);
    AccelerationsObeyNewton(g, 1.0, ps);
  }

  /** The fixture meets what `updateNodalAccelerations` needs: a valid grid
      whose node set is 0..5, each node with nonzero lumped mass. */
  lemma {:induction false} FixtureReady(g: Grid)
    requires g == AssembledGrid
    ensures Valid(g) && !g.massMatrix.Missing? && |g.shapeRows| == 2
    ensures |g.nodeSet| == 6 && forall i :: 0 <= i < 6 ==> g.nodeSet[i] == i
    ensures forall k :: 0 <= k < |g.nodeSet| ==> Lump(g.shapeRows, g.nodeSet)[k] != 0.0
  {
    AssembledIsValid();
    LumpValues();
    NodeIdsAreIndices();
  }

  /** The accelerations the test expects: (f_int + f_ext) / m. */
  function ExpectedAcc(x: int): real
  {
    (ExpectedInternal(x) + Share(x)) / Share(x)
  }

  lemma {:induction false} ExpectedAccValues()
    ensures [ExpectedAcc(0), ExpectedAcc(1), ExpectedAcc(2), ExpectedAcc(3), ExpectedAcc(4), ExpectedAcc(5)]
         == [5.0, 3.0, 1.0, 1.0, 3.0, -3.0]
  {
  }

  /** `updateNodalAccelerations` gives 5, 3, 1, 1, 3, -3 in both components. */
  lemma {:induction false} AccelerationValues(g: Grid, ps: seq<MaterialPoint>, k: int)
    requires g == AssembledGrid && ps == Particles
    requires 0 <= k < 6
    ensures var a := AfterAccelerations(g, ps).nodes[k].acc;
      |a| >= 2 && a[0] == ExpectedAcc(k) && a[1] == ExpectedAcc(k)
  {
    LumpValues();
    NewtonOnFixture(g, ps);
    InternalSlot(g, ps, k);
    ExternalSlot(g, ps, k);
    var a := AfterAccelerations(g, ps).nodes[k].acc;
    assert g.shapeRows == Rows && g.nodeSet == NodeIds;
    assert Lump(g.shapeRows, g.nodeSet)[k] == Share(k);
    assert Newton(Share(k), a, [ExpectedInternal(k), ExpectedInternal(k)], [Share(k), Share(k)], 2);
    NewtonSolved(Share(k), a, ExpectedInternal(k), Share(k));
  }

  lemma {:induction false} InternalSlot(g: Grid, ps: seq<MaterialPoint>, k: int)
    requires g == AssembledGrid && ps == Particles
    requires 0 <= k < 6
    ensures InternalForcesOf(g.internalForces, ps, g.gradientMap)[k].values == [ExpectedInternal(k), ExpectedInternal(k)]
  {
    InternalForceValues(k);
  }

  lemma {:induction false} ExternalSlot(g: Grid, ps: seq<MaterialPoint>, k: int)
    requires g == AssembledGrid && ps == Particles
    requires 0 <= k < 6
    ensures ExternalForcesOf(g.externalForces, g.shapeRows, ps)[k].values == [Share(k), Share(k)]
  {
    ExternalForceValues(k);
  }

  /** Newton's law on a two-dimensional node with equal force components. */
  lemma {:induction false} NewtonSolved(m: real, a: Vec, fi: real, fe: real)
    requires m != 0.0 && Newton(m, a, [fi, fi], [fe, fe], 2)
    ensures |a| >= 2 && a[0] == (fi + fe) / m && a[1] == (fi + fe) / m
  {
    SolveFor(m, a[0], fi + fe);
    SolveFor(m, a[1], fi + fe);
  }

  lemma {:induction false} SolveFor(m: real, a: real, f: real)
    requires m != 0.0 && m * a == f
    ensures a == f / m
  {
  }

  lemma {:induction false} NodeIdsAreIndices()
    ensures forall i :: 0 <= i < 6 ==> NodeIds[i] == i
  {
  }

  /** What `updateNodalAccelerations` leaves behind on the fixture, stated
      without naming the fixture's data: six nodes of dimension 2, the
      identity node set, two shape rows forming a partition of unity, the
      matrix assembled from them with lumped masses 1/4 and 1/2, and the
      expected accelerations. */
  ghost predicate AcceleratedShape(g1: Grid)
  {
    && g1.dim == 2 && |g1.nodes| == 6 && |g1.shapeRows| == 2
    && g1.massMatrix == Mass.Assembled(g1.shapeRows, g1.nodeSet)
    && StrictlySorted(g1.nodeSet) && |g1.nodeSet| == 6
    && (forall i :: 0 <= i < 6 ==> g1.nodeSet[i] == i)
    && (forall p :: 0 <= p < 2 ==> RowTotal(g1.shapeRows[p], g1.nodeSet) == 1.0)
    && (forall i :: 0 <= i < 6 ==> Lump(g1.shapeRows, g1.nodeSet)[i] == Share(i))
    && (forall i :: 0 <= i < 6 ==>
          |g1.nodes[i].acc| >= 2 && g1.nodes[i].acc[0] == ExpectedAcc(i) && g1.nodes[i].acc[1] == ExpectedAcc(i))
  }

  lemma {:induction false} AfterAccelerationsShape(g: Grid, ps: seq<MaterialPoint>)
    requires g == AssembledGrid && ps == Particles
    ensures AcceleratedShape(AfterAccelerations(g, ps))
  {
    AssembledIsValid();
    LumpValues();
    forall i | 0 <= i < 6
      ensures var a := AfterAccelerations(g, ps).nodes[i].acc;
        |a| >= 2 && a[0] == ExpectedAcc(i) && a[1] == ExpectedAcc(i)
    {
      AccelerationValues(g, ps, i);
    }
    var g1 := AfterAccelerations(g, ps);
    assert g1.dim == 2 && |g1.nodes| == 6 && |g1.shapeRows| == 2;
    assert g1.massMatrix == Mass.Assembled(g1.shapeRows, g1.nodeSet);
    assert StrictlySorted(g1.nodeSet) && |g1.nodeSet| == 6;
    NodeIdsAreIndices();
    assert forall p :: 0 <= p < 2 ==> RowTotal(g1.shapeRows[p], g1.nodeSet) == 1.0;
    assert forall i :: 0 <= i < 6 ==> Lump(g1.shapeRows, g1.nodeSet)[i] == Share(i);
  }

  /** The rest of the test on such a grid: particles moving at (1, 1) give
      every node velocity (1, 1) through `updateNodalVelocitiesFromMomenta`,
      and a unit `updateNodalVelocities` step leaves it at (1, 1) plus its
      acceleration: 6, 4, 2, 2, 4, -2. */
  lemma {:induction false} VelocityValues(g1: Grid, moving: seq<MaterialPoint>, k: int)
    requires AcceleratedShape(g1) && moving == Moving
    requires 0 <= k < 6
    ensures UpdateNodalVelocitiesFromMomenta(g1, moving).nodes[k].vel == [1.0, 1.0]
    ensures var g2 := UpdateNodalVelocitiesFromMomenta(g1, moving);
      UpdateNodalVelocities(g2, 1.0, moving).nodes[k].vel == [1.0 + ExpectedAcc(k), 1.0 + ExpectedAcc(k)]
  {
    MomentaVelocities(g1, moving);
    var g2 := UpdateNodalVelocitiesFromMomenta(g1, moving);
    assert g2.nodeSet[k] == k;
    SortedIsDistinct(g2.nodeSet);
    EulerAtNode(g2, moving, k);
  }

  /** The particles moving at (1, 1) have unit mass and that velocity. */
  lemma {:induction false} MovingIsUniform(moving: seq<MaterialPoint>)
    requires moving == Moving
    ensures |moving| == 2
    ensures forall p :: 0 <= p < 2 ==> moving[p].mass == 1.0
    ensures forall p, j :: 0 <= p < 2 && 0 <= j < 2 ==> At(moving[p].kin.vel, j) == [1.0, 1.0][j]
  {
  }

  /** `updateNodalVelocitiesFromMomenta` on such a grid: every node of the
      set gets velocity (1, 1) and keeps its acceleration. */
  lemma {:induction false} MomentaVelocities(g1: Grid, moving: seq<MaterialPoint>)
    requires AcceleratedShape(g1) && moving == Moving
    ensures var g2 := UpdateNodalVelocitiesFromMomenta(g1, moving);
      && g2.nodeSet == g1.nodeSet && g2.dim == 2 && |g2.nodes| == 6 && StrictlySorted(g2.nodeSet)
      && (forall i :: 0 <= i < 6 ==> g2.nodeSet[i] == i)
      && (forall k :: 0 <= k < 6 ==> g2.nodes[k].vel == [1.0, 1.0] && g2.nodes[k].acc == g1.nodes[k].acc)
  {
    MovingIsUniform(moving);
    UniformVelocityReproduced(g1, moving, [1.0, 1.0]);
    MomentumBalance(g1, moving);
  }

  /** One unit step from velocity (1, 1) gives 6, 4, 2, 2, 4, -2. */
  lemma {:induction false} ExpectedEulerValues()
    ensures [1.0 + ExpectedAcc(0), 1.0 + ExpectedAcc(1), 1.0 + ExpectedAcc(2),
             1.0 + ExpectedAcc(3), 1.0 + ExpectedAcc(4), 1.0 + ExpectedAcc(5)]
         == [6.0, 4.0, 2.0, 2.0, 4.0, -2.0]
  {
  }

  /** A node of the set whose velocity is (1, 1) gains its acceleration. */
  lemma {:induction false} EulerAtNode(g2: Grid, moving: seq<MaterialPoint>, k: int)
    requires Distinct(g2.nodeSet) && g2.dim == 2
    requires forall i :: 0 <= i < |g2.nodeSet| ==> 0 <= g2.nodeSet[i] < |g2.nodes|
    requires 0 <= k < |g2.nodeSet|
    requires g2.nodes[g2.nodeSet[k]].vel == [1.0, 1.0] && |g2.nodes[g2.nodeSet[k]].acc| >= 2
    ensures var acc := g2.nodes[g2.nodeSet[k]].acc;
      UpdateNodalVelocities(g2, 1.0, moving).nodes[g2.nodeSet[k]].vel == [1.0 + acc[0], 1.0 + acc[1]]
  {
    OverwriteHit(g2.nodes, g2.nodeSet, AddAcceleration(1.0, 2), |g2.nodeSet|, k);
  }
}
