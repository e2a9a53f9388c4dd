/** The nodal kinematics of the grid (Kelvin/src/Grid.cpp):
    `updateNodalAccelerations` (a = (f_int + f_ext) / m on every massive
    node), `updateNodalVelocitiesFromMomenta` (v = sum_p S m_p v_p / m) and
    `updateNodalVelocities` (the explicit Euler step v += dt a).

    All three write the nodes named by a list of tags, one slot at a time;
    `Overwrite` is that write, defined once, with the two facts every
    property below rests on: a tagged node receives its slot's update, an
    untagged node is left alone. */
module GridKinematics {
  import opened Sums
  import opened LinAlg
  import opened KelvinBaseTypes
  import opened Points
  import opened NodeSet
  import opened ShapeMatrix
  import opened Mass
  import opened Grid
  import opened GridForces
  import opened Results

  /** The exception `updateNodalAccelerations` throws when the lumped
      masses and the two force lists do not have one entry per node. */
  datatype GridError = SizeMismatch

  predicate Distinct(tags: seq<int>)
  {
    forall i, j :: 0 <= i < j < |tags| ==> tags[i] != tags[j]
  }

  lemma {:induction false} SortedIsDistinct(s: seq<int>)
    requires StrictlySorted(s)
    ensures Distinct(s)
  {
  }

  /** What a slot writes into the node it is tagged with: the accelerations
      of `updateNodalAccelerations`, the velocities of
      `updateNodalVelocitiesFromMomenta`, or the Euler kick of
      `updateNodalVelocities`. */
  datatype NodeUpdate =
    | SetAcceleration(ints: seq<ForceVector>, exts: seq<ForceVector>, lumped: seq<real>, dim: nat)
    | SetVelocity(rows: seq<ShapeRow>, particles: seq<MaterialPoint>, tags: seq<int>, lumped: seq<real>, dim: nat)
    | AddAcceleration(dt: real, dim: nat)

  /** Slot k of the update reads only entries that exist and divides by a
      nonzero lumped mass. */
  predicate Applicable(u: NodeUpdate, k: int)
  {
    match u
    case SetAcceleration(ints, exts, lumped, _) => 0 <= k < |ints| && k < |exts| && k < |lumped| && lumped[k] != 0.0
    case SetVelocity(_, _, tags, lumped, _) => 0 <= k < |tags| && k < |lumped| && lumped[k] != 0.0
    case AddAcceleration(_, _) => true
  }

  /** Slot k's new value for a node. Positions are never written. */
  function Apply(u: NodeUpdate, pt: Point, k: int): (r: Point)
    requires Applicable(u, k)
    ensures r.pos == pt.pos && r.nDim == pt.nDim && |r.acc| == |pt.acc|
    ensures u.SetAcceleration? ==> r.vel == pt.vel
    ensures !u.SetAcceleration? ==> r.acc == pt.acc
  {
    match u
    case SetAcceleration(ints, exts, lumped, dim) =>
      pt.(acc := NewAcc(pt.acc, ints[k].values, exts[k].values, lumped[k], dim))
    case SetVelocity(rows, particles, tags, lumped, dim) =>
      pt.(vel := NodalVelocity(rows, particles, tags[k], lumped[k], dim))
    case AddAcceleration(dt, dim) =>
      pt.(vel := Kick(pt.vel, pt.acc, dt, dim))
  }

  /** The nodes after slots 0 .. n - 1 have written, in order, the node
      each one is tagged with. */
  function Overwrite(nodes: seq<Point>, tags: seq<int>, u: NodeUpdate, n: nat): (r: seq<Point>)
    requires n <= |tags|
    requires forall k :: 0 <= k < |tags| ==> 0 <= tags[k] < |nodes| && Applicable(u, k)
    ensures |r| == |nodes|
  {
    if n == 0 then nodes
    else
      var prev := Overwrite(nodes, tags, u, n - 1);
      var x := tags[n - 1];
      prev[x := Apply(u, prev[x], n - 1)]
  }

  /** A node that none of the first n slots is tagged with keeps its value. */
  lemma {:induction false} OverwriteMiss(nodes: seq<Point>, tags: seq<int>, u: NodeUpdate, n: nat, x: int)
    requires n <= |tags|
    requires forall k :: 0 <= k < |tags| ==> 0 <= tags[k] < |nodes| && Applicable(u, k)
    requires 0 <= x < |nodes|
    requires forall k :: 0 <= k < n ==> tags[k] != x
    ensures Overwrite(nodes, tags, u, n)[x] == nodes[x]
  {
    if n > 0 {
      OverwriteMiss(nodes, tags, u, n - 1, x);
    }
  }

  /** With distinct tags, the node of slot k < n holds slot k's update of
      its original value. */
  lemma {:induction false} OverwriteHit(nodes: seq<Point>, tags: seq<int>, u: NodeUpdate, n: nat, k: int)
    requires n <= |tags| && Distinct(tags)
    requires forall i :: 0 <= i < |tags| ==> 0 <= tags[i] < |nodes| && Applicable(u, i)
    requires 0 <= k < n
    ensures Overwrite(nodes, tags, u, n)[tags[k]] == Apply(u, nodes[tags[k]], k)
  {
    if k == n - 1 {
      OverwriteMiss(nodes, tags, u, n - 1, tags[k]);
    } else {
      OverwriteHit(nodes, tags, u, n - 1, k);
    }
  }

  /** Slots whose update leaves every node unchanged leave the nodes
      unchanged. */
  lemma {:induction false} OverwriteIdentity(nodes: seq<Point>, tags: seq<int>, u: NodeUpdate, n: nat)
    requires n <= |tags|
    requires forall k :: 0 <= k < |tags| ==> 0 <= tags[k] < |nodes| && Applicable(u, k)
    requires forall p: Point, k :: 0 <= k < |tags| ==> Apply(u, p, k) == p
    ensures Overwrite(nodes, tags, u, n) == nodes
  {
    if n > 0 {
      OverwriteIdentity(nodes, tags, u, n - 1);
    }
  }

  /** With distinct tags, a node outside the tags keeps its value and
      every node keeps its position; an acceleration update keeps its
      velocity and the other updates keep its acceleration. */
  lemma {:induction false} OverwriteAt(nodes: seq<Point>, tags: seq<int>, u: NodeUpdate, x: int)
    requires Distinct(tags)
    requires forall k :: 0 <= k < |tags| ==> 0 <= tags[k] < |nodes| && Applicable(u, k)
    requires 0 <= x < |nodes|
    ensures var r := Overwrite(nodes, tags, u, |tags|)[x];
      && (x !in tags ==> r == nodes[x])
      && r.pos == nodes[x].pos && |r.acc| == |nodes[x].acc|
      && (u.SetAcceleration? ==> r.vel == nodes[x].vel)
      && (!u.SetAcceleration? ==> r.acc == nodes[x].acc)
  {
    if k :| 0 <= k < |tags| && tags[k] == x {
      OverwriteHit(nodes, tags, u, |tags|, k);
    } else {
      OverwriteMiss(nodes, tags, u, |tags|, x);
    }
  }

  lemma {:induction false} OverwriteFrame(nodes: seq<Point>, tags: seq<int>, u: NodeUpdate)
    requires Distinct(tags)
    requires forall k :: 0 <= k < |tags| ==> 0 <= tags[k] < |nodes| && Applicable(u, k)
    ensures var r := Overwrite(nodes, tags, u, |tags|);
      forall x :: 0 <= x < |nodes| && x !in tags ==> r[x] == nodes[x]
    ensures var r := Overwrite(nodes, tags, u, |tags|);
      forall x :: 0 <= x < |nodes| ==>
        && r[x].pos == nodes[x].pos && |r[x].acc| == |nodes[x].acc|
        && (u.SetAcceleration? ==> r[x].vel == nodes[x].vel)
        && (!u.SetAcceleration? ==> r[x].acc == nodes[x].acc)
  {
    forall x | 0 <= x < |nodes| {
      OverwriteAt(nodes, tags, u, x);
    }
  }

  /** The node id of each force slot. */
  function Tags(forces: seq<ForceVector>): (t: seq<int>)
    ensures |t| == |forces| && forall i :: 0 <= i < |forces| ==> t[i] == forces[i].nodeId
  {
    seq(|forces|, i requires 0 <= i < |forces| => forces[i].nodeId)
  }

  /** `massMatrix(particles)`: the stored mass matrix is assembled from the
      current shape matrix and node set, so its lumped form is theirs. */
  function AssembleMass(g: Grid): (r: Grid)
    requires !g.massMatrix.Missing?
    ensures !r.massMatrix.Missing? && Lumped(r.massMatrix) == Lump(g.shapeRows, g.nodeSet)
    ensures r.(massMatrix := g.massMatrix) == g
  {
    g.(massMatrix := Assembled(g.shapeRows, g.nodeSet))
  }

  /** The grid after `internalForces(particles)` and then
      `externalForces(particles)`. */
  function WithForces(g: Grid, particles: seq<MaterialPoint>): (r: Grid)
    ensures |r.internalForces| == |g.internalForces| && |r.externalForces| == |g.externalForces|
    ensures Tags(r.internalForces) == Tags(g.internalForces)
    ensures r.(internalForces := g.internalForces, externalForces := g.externalForces, gradientMap := g.gradientMap) == g
  {
    g.(internalForces := InternalForcesOf(g.internalForces, particles, g.gradientMap),
       gradientMap := if |g.internalForces| == 0 then g.gradientMap else TouchGradients(g.gradientMap, |particles|),
       externalForces := ExternalForcesOf(g.externalForces, g.shapeRows, particles))
  }

  /** Component j of a node's acceleration from a force slot: below dim it
      becomes (f_int + f_ext) / m, above it keeps its value. */
  function AccComponent(acc: Vec, fInt: Vec, fExt: Vec, m: real, dim: nat, j: int): real
    requires m != 0.0
  {
    if j < dim then (At(fInt, j) + At(fExt, j)) / m else At(acc, j)
  }

  /** The component loop of `updateNodalAccelerations` after its first n
      components. */
  function NewAccPrefix(acc: Vec, fInt: Vec, fExt: Vec, m: real, dim: nat, n: nat): (a: Vec)
    requires m != 0.0
    ensures |a| == n
  {
    if n == 0 then [] else NewAccPrefix(acc, fInt, fExt, m, dim, n - 1) + [AccComponent(acc, fInt, fExt, m, dim, n - 1)]
  }

  /** A node's new acceleration from a force slot. */
  function NewAcc(acc: Vec, fInt: Vec, fExt: Vec, m: real, dim: nat): (a: Vec)
    requires m != 0.0
    ensures |a| == |acc|
  {
    NewAccPrefix(acc, fInt, fExt, m, dim, |acc|)
  }

  lemma {:induction false} NewAccPrefixAt(acc: Vec, fInt: Vec, fExt: Vec, m: real, dim: nat, n: nat, j: int)
    requires m != 0.0 && 0 <= j < n
    ensures NewAccPrefix(acc, fInt, fExt, m, dim, n)[j] == AccComponent(acc, fInt, fExt, m, dim, j)
  {
    if j < n - 1 {
      NewAccPrefixAt(acc, fInt, fExt, m, dim, n - 1, j);
    }
  }

  predicate SizesMatch(g: Grid)
  {
    |g.internalForces| == |g.externalForces| == |g.nodeSet|
  }

  /** `updateNodalAccelerations(timeStep, particles)`. The mass matrix is
      assembled and lumped and both force lists are recomputed; if the
      lumped masses and the force lists differ in length the call fails,
      otherwise the node tagged by force slot i gets acceleration
      (f_int_i + f_ext_i) / m_i. The time step is not used. */
  function UpdateNodalAccelerations(g: Grid, timeStep: real, particles: seq<MaterialPoint>)
    : (r: Result<Grid, GridError>)
    requires !g.massMatrix.Missing?
    requires |particles| <= |g.shapeRows|
    requires SizesMatch(g) ==> forall i :: 0 <= i < |g.internalForces| ==> 0 <= g.internalForces[i].nodeId < |g.nodes|
    requires SizesMatch(g) ==> forall k :: 0 <= k < |g.nodeSet| ==> Lump(g.shapeRows, g.nodeSet)[k] != 0.0
    ensures r.Failure? <==> !SizesMatch(g)
    ensures r.Success? ==> r.value.massMatrix == Assembled(g.shapeRows, g.nodeSet) && |r.value.nodes| == |g.nodes|
    ensures r.Success? ==> r.value.dim == g.dim && r.value.nodeSet == g.nodeSet && r.value.shapeRows == g.shapeRows
    ensures r.Success? ==>
      && Tags(r.value.internalForces) == Tags(g.internalForces)
      && |r.value.externalForces| == |g.externalForces|
  {
    var lumped := Lump(g.shapeRows, g.nodeSet);
    var f := WithForces(AssembleMass(g), particles);
    if !(|f.internalForces| == |f.externalForces| && |lumped| == |f.internalForces|) then
      Failure(SizeMismatch)
    else
      var u := SetAcceleration(f.internalForces, f.externalForces, lumped, g.dim);
      Success(f.(nodes := Overwrite(f.nodes, Tags(f.internalForces), u, |lumped|)))
  }

  /** The update `updateNodalAccelerations` applies to a grid. */
  function AccelerationsOf(g: Grid, particles: seq<MaterialPoint>): NodeUpdate
  {
    SetAcceleration(InternalForcesOf(g.internalForces, particles, g.gradientMap),
                    ExternalForcesOf(g.externalForces, g.shapeRows, particles),
                    Lump(g.shapeRows, g.nodeSet), g.dim)
  }

  /** Newton's second law on one node: mass m times each of the first dim
      components of acceleration a is the total force on that component. */
  predicate Newton(m: real, a: Vec, fInt: Vec, fExt: Vec, dim: nat)
  {
    |a| >= dim && forall j :: 0 <= j < dim ==> m * a[j] == At(fInt, j) + At(fExt, j)
  }

  /** On a valid grid the call never fails, and on every massive node the
      lumped mass times the new acceleration is the total force on it
      (Newton's second law); every other node, and every node's position
      and velocity, is unchanged. */
  lemma {:induction false} AccelerationsObeyNewton(g: Grid, timeStep: real, particles: seq<MaterialPoint>)
    requires Valid(g) && !g.massMatrix.Missing?
    requires |particles| <= |g.shapeRows|
    requires forall k :: 0 <= k < |g.nodeSet| ==> Lump(g.shapeRows, g.nodeSet)[k] != 0.0
    ensures UpdateNodalAccelerations(g, timeStep, particles).Success?
    ensures var r := UpdateNodalAccelerations(g, timeStep, particles).value;
      forall k :: 0 <= k < |g.nodeSet| ==>
        Newton(Lump(g.shapeRows, g.nodeSet)[k], r.nodes[g.nodeSet[k]].acc,
               InternalForcesOf(g.internalForces, particles, g.gradientMap)[k].values,
               ExternalForcesOf(g.externalForces, g.shapeRows, particles)[k].values, g.dim)
    ensures var r := UpdateNodalAccelerations(g, timeStep, particles).value;
      forall x :: 0 <= x < |g.nodes| && x !in g.nodeSet ==> r.nodes[x] == g.nodes[x]
    ensures var r := UpdateNodalAccelerations(g, timeStep, particles).value;
      forall x :: 0 <= x < |g.nodes| ==> r.nodes[x].pos == g.nodes[x].pos && r.nodes[x].vel == g.nodes[x].vel
  {
    AccelerationsWritten(g, timeStep, particles);
    var u := AccelerationsOf(g, particles);
    SortedIsDistinct(g.nodeSet);
    OverwriteFrame(g.nodes, g.nodeSet, u);
    var r := UpdateNodalAccelerations(g, timeStep, particles).value;
    forall k | 0 <= k < |g.nodeSet|
      ensures Newton(u.lumped[k], r.nodes[g.nodeSet[k]].acc, u.ints[k].values, u.exts[k].values, g.dim)
    {
      OverwriteNewton(g.nodes, g.nodeSet, u, r.nodes, k);
    }
  }

  /** Slot k of an acceleration update leaves Newton's law on its node of
      the overwritten nodes r. */
  lemma {:induction false} OverwriteNewton(nodes: seq<Point>, tags: seq<int>, u: NodeUpdate, r: seq<Point>, k: int)
    requires u.SetAcceleration? && Distinct(tags)
    requires forall k :: 0 <= k < |tags| ==> 0 <= tags[k] < |nodes| && Applicable(u, k)
    requires r == Overwrite(nodes, tags, u, |tags|)
    requires 0 <= k < |tags| && |nodes[tags[k]].acc| >= u.dim
    ensures Newton(u.lumped[k], r[tags[k]].acc, u.ints[k].values, u.exts[k].values, u.dim)
  {
    OverwriteHit(nodes, tags, u, |tags|, k);
    NewtonSlot(u, nodes[tags[k]], k);
  }

  /** On a valid grid the call succeeds and writes, slot by slot, the nodes
      of the node set. */
  lemma {:induction false} AccelerationsWritten(g: Grid, timeStep: real, particles: seq<MaterialPoint>)
    requires Valid(g) && !g.massMatrix.Missing?
    requires |particles| <= |g.shapeRows|
    requires forall k :: 0 <= k < |g.nodeSet| ==> Lump(g.shapeRows, g.nodeSet)[k] != 0.0
    ensures forall k :: 0 <= k < |g.nodeSet| ==> 0 <= g.nodeSet[k] < |g.nodes| && Applicable(AccelerationsOf(g, particles), k)
    ensures forall x :: 0 <= x < |g.nodes| ==> |g.nodes[x].acc| == g.dim
    ensures UpdateNodalAccelerations(g, timeStep, particles).Success?
    ensures UpdateNodalAccelerations(g, timeStep, particles).value.nodes
         == Overwrite(g.nodes, g.nodeSet, AccelerationsOf(g, particles), |g.nodeSet|)
  {
    var f := WithForces(AssembleMass(g), particles);
    assert Tags(f.internalForces) == g.nodeSet;
  }

  /** The acceleration an acceleration slot writes obeys Newton's law. */
  lemma {:induction false} NewtonSlot(u: NodeUpdate, pt: Point, k: int)
    requires u.SetAcceleration? && Applicable(u, k)
    requires |pt.acc| >= u.dim
    ensures Newton(u.lumped[k], Apply(u, pt, k).acc, u.ints[k].values, u.exts[k].values, u.dim)
  {
    var a := Apply(u, pt, k).acc;
    forall j | 0 <= j < u.dim
      ensures u.lumped[k] * a[j] == At(u.ints[k].values, j) + At(u.exts[k].values, j)
    {
      NewAccPrefixAt(pt.acc, u.ints[k].values, u.exts[k].values, u.lumped[k], u.dim, |pt.acc|, j);
      MulDiv(u.lumped[k], At(u.ints[k].values, j) + At(u.exts[k].values, j));
    }
  }

  lemma {:induction false} MulDiv(m: real, f: real)
    requires m != 0.0
    ensures m * (f / m) == f
  {
  }

  /** Particle p's momentum share S(p, x) m_p v_p[j] at node x. */
  function Momentum(rows: seq<ShapeRow>, particles: seq<MaterialPoint>, x: int, p: int, j: int): real
  {
    if 0 <= p < |particles| then RowVal(rows, p, x) * particles[p].mass * At(particles[p].kin.vel, j) else 0.0
  }

  /** The accumulation of the source: the shares of particles 0 .. n - 1,
      each divided by the node's lumped mass m before it is added. */
  function MomentumSum(rows: seq<ShapeRow>, particles: seq<MaterialPoint>, x: int, j: int, m: real, n: nat): real
    requires m != 0.0
  {
    if n == 0 then 0.0 else MomentumSum(rows, particles, x, j, m, n - 1) + Momentum(rows, particles, x, n - 1, j) / m
  }

  /** The component loop of `updateNodalVelocitiesFromMomenta` after its
      first n components. */
  function NodalVelocityPrefix(rows: seq<ShapeRow>, particles: seq<MaterialPoint>, x: int, m: real, n: nat): (v: Vec)
    requires m != 0.0
    ensures |v| == n
  {
    if n == 0 then []
    else NodalVelocityPrefix(rows, particles, x, m, n - 1) + [MomentumSum(rows, particles, x, n - 1, m, |particles|)]
  }

  /** The velocity written to node x with lumped mass m. */
  function NodalVelocity(rows: seq<ShapeRow>, particles: seq<MaterialPoint>, x: int, m: real, dim: nat): (v: Vec)
    requires m != 0.0
    ensures |v| == dim
  {
    NodalVelocityPrefix(rows, particles, x, m, dim)
  }

  lemma {:induction false} NodalVelocityAt(rows: seq<ShapeRow>, particles: seq<MaterialPoint>, x: int, m: real, n: nat, j: int)
    requires m != 0.0 && 0 <= j < n
    ensures NodalVelocityPrefix(rows, particles, x, m, n)[j] == MomentumSum(rows, particles, x, j, m, |particles|)
  {
    if j < n - 1 {
      NodalVelocityAt(rows, particles, x, m, n - 1, j);
    }
  }

  /** The momentum particles 0 .. n - 1 put on node x, component j. */
  function MomentumTotal(rows: seq<ShapeRow>, particles: seq<MaterialPoint>, x: int, j: int, n: nat): real
  {
    if n == 0 then 0.0 else MomentumTotal(rows, particles, x, j, n - 1) + Momentum(rows, particles, x, n - 1, j)
  }

  /** The shape weight particles 0 .. n - 1 put on node x. */
  function WeightTotal(rows: seq<ShapeRow>, x: int, n: nat): real
  {
    if n == 0 then 0.0 else WeightTotal(rows, x, n - 1) + RowVal(rows, n - 1, x)
  }

  lemma {:induction false} WeightTotalIsSum(rows: seq<ShapeRow>, x: int, n: nat)
    ensures WeightTotal(rows, x, n) == Sum(n, p => RowVal(rows, p, x))
  {
    if n > 0 {
      WeightTotalIsSum(rows, x, n - 1);
    }
  }

  /** Momentum balance on one node: mass m times each of the dim components
      of velocity v is the momentum the particles put on node x. */
  predicate MomentumBalanced(m: real, v: Vec, rows: seq<ShapeRow>, particles: seq<MaterialPoint>, x: int, dim: nat)
  {
    |v| == dim && forall j :: 0 <= j < dim ==> m * v[j] == MomentumTotal(rows, particles, x, j, |particles|)
  }

  /** The update `updateNodalVelocitiesFromMomenta` applies to a grid. */
  function MomentaOf(g: Grid, particles: seq<MaterialPoint>): NodeUpdate
    requires !g.massMatrix.Missing?
  {
    SetVelocity(g.shapeRows, particles, g.nodeSet, Lumped(g.massMatrix), g.dim)
  }

  /** `updateNodalVelocitiesFromMomenta(particles)`: the k-th massive node's
      velocity becomes the sum over particles of S m v divided by the k-th
      entry of the stored matrix's lumped form. The source clears the
      velocity vector before adding into it; the intended result, a vector
      of `dim` sums, is modelled. */
  function UpdateNodalVelocitiesFromMomenta(g: Grid, particles: seq<MaterialPoint>): (r: Grid)
    requires !g.massMatrix.Missing?
    requires |particles| <= |g.shapeRows|
    requires forall k :: 0 <= k < |g.nodeSet| ==> 0 <= g.nodeSet[k] < |g.nodes|
    requires |Lumped(g.massMatrix)| >= |g.nodeSet|
    requires forall k :: 0 <= k < |g.nodeSet| ==> Lumped(g.massMatrix)[k] != 0.0
    ensures |r.nodes| == |g.nodes| && r.(nodes := g.nodes) == g
  {
    g.(nodes := Overwrite(g.nodes, g.nodeSet, MomentaOf(g, particles), |g.nodeSet|))
  }

  /** Dividing every term by m is dividing the sum by m. */
  lemma {:induction false} SumOfQuotients(rows: seq<ShapeRow>, particles: seq<MaterialPoint>, x: int, j: int, m: real, n: nat)
    requires m != 0.0
    ensures m * MomentumSum(rows, particles, x, j, m, n) == MomentumTotal(rows, particles, x, j, n)
  {
    if n > 0 {
      SumOfQuotients(rows, particles, x, j, m, n - 1);
      AddQuotient(m, MomentumSum(rows, particles, x, j, m, n - 1), Momentum(rows, particles, x, n - 1, j));
    }
  }

  lemma {:induction false} AddQuotient(m: real, a: real, b: real)
    requires m != 0.0
    ensures m * (a + b / m) == m * a + b
  {
  }

  /** The velocity a velocity slot writes balances the node's momentum. */
  lemma {:induction false} VelocitySlot(u: NodeUpdate, pt: Point, k: int)
    requires u.SetVelocity? && Applicable(u, k)
    ensures MomentumBalanced(u.lumped[k], Apply(u, pt, k).vel, u.rows, u.particles, u.tags[k], u.dim)
  {
    var v := Apply(u, pt, k).vel;
    forall j | 0 <= j < u.dim
      ensures u.lumped[k] * v[j] == MomentumTotal(u.rows, u.particles, u.tags[k], j, |u.particles|)
    {
      VelocityComponent(u, pt, k, j);
    }
  }

  lemma {:induction false} VelocityComponent(u: NodeUpdate, pt: Point, k: int, j: int)
    requires u.SetVelocity? && Applicable(u, k) && 0 <= j < u.dim
    ensures u.lumped[k] * Apply(u, pt, k).vel[j] == MomentumTotal(u.rows, u.particles, u.tags[k], j, |u.particles|)
  {
    NodalVelocityAt(u.rows, u.particles, u.tags[k], u.lumped[k], u.dim, j);
    SumOfQuotients(u.rows, u.particles, u.tags[k], j, u.lumped[k], |u.particles|);
  }

  /** Slot k of a velocity update balances momentum on its node of the
      overwritten nodes r. */
  lemma {:induction false} OverwriteMomentum(nodes: seq<Point>, tags: seq<int>, u: NodeUpdate, r: seq<Point>, k: int)
    requires u.SetVelocity? && u.tags == tags && Distinct(tags)
    requires forall k :: 0 <= k < |tags| ==> 0 <= tags[k] < |nodes| && Applicable(u, k)
    requires r == Overwrite(nodes, tags, u, |tags|)
    requires 0 <= k < |tags|
    ensures MomentumBalanced(u.lumped[k], r[tags[k]].vel, u.rows, u.particles, tags[k], u.dim)
  {
    OverwriteHit(nodes, tags, u, |tags|, k);
    VelocitySlot(u, nodes[tags[k]], k);
  }

  /** The momentum balance the update is meant to achieve: on the k-th
      massive node, lumped mass times velocity is the particles' momentum
      interpolated to the node; nodes outside the set, and every node's
      position and acceleration, are unchanged. */
  lemma {:induction false} MomentumBalance(g: Grid, particles: seq<MaterialPoint>)
    requires !g.massMatrix.Missing?
    requires |particles| <= |g.shapeRows|
    requires StrictlySorted(g.nodeSet)
    requires forall k :: 0 <= k < |g.nodeSet| ==> 0 <= g.nodeSet[k] < |g.nodes|
    requires |Lumped(g.massMatrix)| >= |g.nodeSet|
    requires forall k :: 0 <= k < |g.nodeSet| ==> Lumped(g.massMatrix)[k] != 0.0
    ensures var r := UpdateNodalVelocitiesFromMomenta(g, particles);
      forall k :: 0 <= k < |g.nodeSet| ==>
        MomentumBalanced(Lumped(g.massMatrix)[k], r.nodes[g.nodeSet[k]].vel, g.shapeRows, particles, g.nodeSet[k], g.dim)
    ensures var r := UpdateNodalVelocitiesFromMomenta(g, particles);
      forall x :: 0 <= x < |g.nodes| && x !in g.nodeSet ==> r.nodes[x] == g.nodes[x]
    ensures var r := UpdateNodalVelocitiesFromMomenta(g, particles);
      forall x :: 0 <= x < |g.nodes| ==> r.nodes[x].pos == g.nodes[x].pos && r.nodes[x].acc == g.nodes[x].acc
  {
    var u := MomentaOf(g, particles);
    SortedIsDistinct(g.nodeSet);
    OverwriteFrame(g.nodes, g.nodeSet, u);
    var r := UpdateNodalVelocitiesFromMomenta(g, particles);
    forall k | 0 <= k < |g.nodeSet|
      ensures MomentumBalanced(u.lumped[k], r.nodes[g.nodeSet[k]].vel, g.shapeRows, particles, g.nodeSet[k], g.dim)
    {
      OverwriteMomentum(g.nodes, g.nodeSet, u, r.nodes, k);
    }
  }

  /** A uniform particle velocity is reproduced on the grid: with unit
      particle masses, every particle moving at v, a mass matrix assembled
      from the grid's own shape rows and node set, and shape rows that form a
      partition of unity on the massive nodes, every massive node gets
      velocity v. */
  lemma {:induction false} UniformVelocityReproduced(g: Grid, particles: seq<MaterialPoint>, v: Vec)
    requires g.massMatrix == Assembled(g.shapeRows, g.nodeSet)
    requires |particles| == |g.shapeRows|
    requires StrictlySorted(g.nodeSet)
    requires forall k :: 0 <= k < |g.nodeSet| ==> 0 <= g.nodeSet[k] < |g.nodes|
    requires forall p :: 0 <= p < |g.shapeRows| ==> RowTotal(g.shapeRows[p], g.nodeSet) == 1.0
    requires forall k :: 0 <= k < |g.nodeSet| ==> Lump(g.shapeRows, g.nodeSet)[k] != 0.0
    requires |v| == g.dim
    requires forall p :: 0 <= p < |particles| ==> particles[p].mass == 1.0
    requires forall p, j :: 0 <= p < |particles| && 0 <= j < g.dim ==> At(particles[p].kin.vel, j) == v[j]
    ensures var r := UpdateNodalVelocitiesFromMomenta(g, particles);
      forall k :: 0 <= k < |g.nodeSet| ==> r.nodes[g.nodeSet[k]].vel == v
  {
    var rows, nodes := g.shapeRows, g.nodeSet;
    MomentumBalance(g, particles);
    PartitionOfUnityLump(rows, nodes);
    var r := UpdateNodalVelocitiesFromMomenta(g, particles);
    forall k | 0 <= k < |nodes|
      ensures r.nodes[nodes[k]].vel == v
    {
      WeightTotalIsSum(rows, nodes[k], |rows|);
      assert Lump(rows, nodes)[k] == Sum(|rows|, p => RowVal(rows, p, nodes[k]));
      assert WeightTotal(rows, nodes[k], |rows|) == Sum(|rows|, p => RowVal(rows, p, nodes[k]));
      assert Lump(rows, nodes)[k] == WeightTotal(rows, nodes[k], |particles|);
      UniformAtNode(Lump(rows, nodes)[k], r.nodes[nodes[k]].vel, v, rows, particles, nodes[k], g.dim);
    }
  }

  /** On one node: a balanced velocity under uniform unit-mass particles,
      with the node's mass equal to its total shape weight, is v. */
  lemma {:induction false} UniformAtNode(m: real, vel: Vec, v: Vec, rows: seq<ShapeRow>, particles: seq<MaterialPoint>, x: int, dim: nat)
    requires MomentumBalanced(m, vel, rows, particles, x, dim)
    requires m != 0.0 && m == WeightTotal(rows, x, |particles|)
    requires |v| == dim
    requires forall p :: 0 <= p < |particles| ==> particles[p].mass == 1.0
    requires forall p, j :: 0 <= p < |particles| && 0 <= j < dim ==> At(particles[p].kin.vel, j) == v[j]
    ensures vel == v
  {
    forall j | 0 <= j < dim
      ensures vel[j] == v[j]
    {
      UniformMomentum(rows, particles, x, j, v[j], |particles|);
      CancelMass(m, vel[j], v[j], MomentumTotal(rows, particles, x, j, |particles|));
    }
  }

  lemma {:induction false} UniformMomentum(rows: seq<ShapeRow>, particles: seq<MaterialPoint>, x: int, j: int, vj: real, n: nat)
    requires n <= |particles|
    requires forall p :: 0 <= p < |particles| ==> particles[p].mass == 1.0 && At(particles[p].kin.vel, j) == vj
    ensures MomentumTotal(rows, particles, x, j, n) == vj * WeightTotal(rows, x, n)
  {
    if n > 0 {
      UniformMomentum(rows, particles, x, j, vj, n - 1);
      UnitMassMomentum(RowVal(rows, n - 1, x), particles[n - 1].mass, At(particles[n - 1].kin.vel, j), vj,
                       WeightTotal(rows, x, n - 1));
    }
  }

  lemma {:induction false} UnitMassMomentum(s: real, m: real, v: real, vj: real, before: real)
    requires m == 1.0 && v == vj
    ensures vj * before + s * m * v == vj * (before + s)
  {
  }

  lemma {:induction false} CancelMass(m: real, a: real, b: real, t: real)
    requires m != 0.0 && m * a == t && t == b * m
    ensures a == b
  {
    assert m * (a - b) == 0.0;
  }

  /** The new velocity of a node after the Euler step: components below
      dim gain dt times the acceleration. */
  function Kick(vel: Vec, acc: Vec, dt: real, dim: nat): (v: Vec)
    ensures |v| == |vel|
  {
    seq(|vel|, j requires 0 <= j < |vel| => if j < dim then vel[j] + dt * At(acc, j) else vel[j])
  }

  /** `updateNodalVelocities(timeStep, particles)`: every massive node's
      velocity gains timeStep times its acceleration. The particles are not
      used. */
  function UpdateNodalVelocities(g: Grid, timeStep: real, particles: seq<MaterialPoint>): (r: Grid)
    requires forall k :: 0 <= k < |g.nodeSet| ==> 0 <= g.nodeSet[k] < |g.nodes|
    ensures |r.nodes| == |g.nodes| && r.(nodes := g.nodes) == g
  {
    g.(nodes := Overwrite(g.nodes, g.nodeSet, AddAcceleration(timeStep, g.dim), |g.nodeSet|))
  }

  /** The loops of `updateNodalVelocities`, over the node set and then the
      components. */
  method EulerStep(g: Grid, timeStep: real, particles: seq<MaterialPoint>) returns (r: Grid)
    requires forall k :: 0 <= k < |g.nodeSet| ==> 0 <= g.nodeSet[k] < |g.nodes|
    requires forall k :: 0 <= k < |g.nodeSet| ==>
      |g.nodes[g.nodeSet[k]].vel| >= g.dim && |g.nodes[g.nodeSet[k]].acc| >= g.dim
    ensures r == UpdateNodalVelocities(g, timeStep, particles)
  {
    var nodes := g.nodes;
    var u := AddAcceleration(timeStep, g.dim);
    var k := 0;
    while k < |g.nodeSet|
      invariant 0 <= k <= |g.nodeSet|
      invariant nodes == Overwrite(g.nodes, g.nodeSet, u, k)
      invariant forall q :: 0 <= q < |nodes| ==> |nodes[q].vel| == |g.nodes[q].vel| && nodes[q].acc == g.nodes[q].acc
    {
      var x := g.nodeSet[k];
      var vel := nodes[x].vel;
      var acc := nodes[x].acc;
      var j := 0;
      while j < g.dim
        invariant 0 <= j <= g.dim <= |vel| == |nodes[x].vel|
        invariant forall i :: 0 <= i < |vel| ==>
          vel[i] == if i < j then nodes[x].vel[i] + timeStep * At(acc, i) else nodes[x].vel[i]
      {
        vel := vel[j := vel[j] + timeStep * acc[j]];
        j := j + 1;
      }
      ghost var kicked := Kick(nodes[x].vel, nodes[x].acc, timeStep, g.dim);
      assert |vel| == |kicked|;
      forall i | 0 <= i < |vel|
        ensures vel[i] == kicked[i]
      {
      }
      assert vel == kicked;
      nodes := nodes[x := nodes[x].(vel := vel)];
      k := k + 1;
    }
    r := g.(nodes := nodes);
  }

  /** The explicit Euler step on the grid: each massive node's first dim
      velocity components gain timeStep times its acceleration, its other
      components, position and acceleration stay; every other node is
      unchanged. */
  lemma {:induction false} EulerKicksMassiveNodes(g: Grid, timeStep: real, particles: seq<MaterialPoint>, x: int)
    requires StrictlySorted(g.nodeSet)
    requires forall k :: 0 <= k < |g.nodeSet| ==> 0 <= g.nodeSet[k] < |g.nodes|
    requires 0 <= x < |g.nodes| && |g.nodes[x].acc| >= g.dim
    ensures var before := g.nodes[x];
      var after := UpdateNodalVelocities(g, timeStep, particles).nodes[x];
      && after.pos == before.pos && after.acc == before.acc && |after.vel| == |before.vel|
      && (x !in g.nodeSet ==> after == before)
      && (x in g.nodeSet ==> forall j :: 0 <= j < |before.vel| ==>
            after.vel[j] == if j < g.dim then before.vel[j] + timeStep * before.acc[j] else before.vel[j])
  {
    var u := AddAcceleration(timeStep, g.dim);
    var n := |g.nodeSet|;
    SortedIsDistinct(g.nodeSet);
    if k :| 0 <= k < n && g.nodeSet[k] == x {
      OverwriteHit(g.nodes, g.nodeSet, u, n, k);
    } else {
      OverwriteMiss(g.nodes, g.nodeSet, u, n, x);
    }
  }

  /** A zero time step changes nothing. */
  lemma {:induction false} EulerZeroStep(g: Grid, particles: seq<MaterialPoint>)
    requires forall k :: 0 <= k < |g.nodeSet| ==> 0 <= g.nodeSet[k] < |g.nodes|
    ensures UpdateNodalVelocities(g, 0.0, particles) == g
  {
    var u := AddAcceleration(0.0, g.dim);
    forall p: Point, k | 0 <= k < |g.nodeSet|
      ensures Apply(u, p, k) == p
    {
      assert Kick(p.vel, p.acc, 0.0, g.dim) == p.vel;
    }
    OverwriteIdentity(g.nodes, g.nodeSet, u, |g.nodeSet|);
  }

  /** Two Euler steps with the same accelerations are one step with the
      summed time step. */
  lemma {:induction false} EulerStepsCompose(g: Grid, dt1: real, dt2: real, particles: seq<MaterialPoint>)
    requires StrictlySorted(g.nodeSet)
    requires forall k :: 0 <= k < |g.nodeSet| ==> 0 <= g.nodeSet[k] < |g.nodes|
    ensures UpdateNodalVelocities(UpdateNodalVelocities(g, dt1, particles), dt2, particles)
         == UpdateNodalVelocities(g, dt1 + dt2, particles)
  {
    var g1 := UpdateNodalVelocities(g, dt1, particles);
    var a := UpdateNodalVelocities(g1, dt2, particles);
    var b := UpdateNodalVelocities(g, dt1 + dt2, particles);
    SortedIsDistinct(g.nodeSet);
    forall x | 0 <= x < |g.nodes|
      ensures a.nodes[x] == b.nodes[x]
    {
      NodeStepsCompose(g, dt1, dt2, particles, x);
    }
    assert a.nodes == b.nodes;
  }

  /** Two Euler steps compose on each node. */
  lemma {:induction false} NodeStepsCompose(g: Grid, dt1: real, dt2: real, particles: seq<MaterialPoint>, x: int)
    requires Distinct(g.nodeSet)
    requires forall k :: 0 <= k < |g.nodeSet| ==> 0 <= g.nodeSet[k] < |g.nodes|
    requires 0 <= x < |g.nodes|
    ensures UpdateNodalVelocities(UpdateNodalVelocities(g, dt1, particles), dt2, particles).nodes[x]
         == UpdateNodalVelocities(g, dt1 + dt2, particles).nodes[x]
  {
    var g1 := UpdateNodalVelocities(g, dt1, particles);
    var n := |g.nodeSet|;
    if k :| 0 <= k < n && g.nodeSet[k] == x {
      OverwriteHit(g.nodes, g.nodeSet, AddAcceleration(dt1, g.dim), n, k);
      OverwriteHit(g1.nodes, g.nodeSet, AddAcceleration(dt2, g.dim), n, k);
      OverwriteHit(g.nodes, g.nodeSet, AddAcceleration(dt1 + dt2, g.dim), n, k);
      KickTwice(g.nodes[x].vel, g.nodes[x].acc, dt1, dt2, g.dim);
    } else {
      OverwriteMiss(g.nodes, g.nodeSet, AddAcceleration(dt1, g.dim), n, x);
      OverwriteMiss(g1.nodes, g.nodeSet, AddAcceleration(dt2, g.dim), n, x);
      OverwriteMiss(g.nodes, g.nodeSet, AddAcceleration(dt1 + dt2, g.dim), n, x);
    }
  }

  lemma {:induction false} KickTwice(vel: Vec, acc: Vec, dt1: real, dt2: real, dim: nat)
    ensures Kick(Kick(vel, acc, dt1, dim), acc, dt2, dim) == Kick(vel, acc, dt1 + dt2, dim)
  {
    var lhs, rhs := Kick(Kick(vel, acc, dt1, dim), acc, dt2, dim), Kick(vel, acc, dt1 + dt2, dim);
    forall j | 0 <= j < |vel|
      ensures lhs[j] == rhs[j]
    {
    }
  }
}
