/** The solver driver (src/MFEMMPMSolver.cpp). It assembles the grid once.
    Then, on every time step, it advances the grid from the particles, maps
    the grid's accelerations and velocities back to the particles, and
    applies each particle's constitutive relationship. Finally it moves
    every particle by an explicit Euler step. The final time and the time
    step are parameters; the progress printing is not modelled. */
module Solver {
  import opened Results
  import opened Numerics
  import opened LinAlg
  import opened Points
  import opened NodeSet
  import opened Mass
  import opened MeshContainer
  import opened Grid
  import opened GridKinematics
  import opened GridMapper
  import opened Olevsky
  import opened Registry

  /** `(int) tFinal/dt`. The cast binds to tFinal, so the final time is
      truncated before the division, and the quotient is truncated again
      when it is stored in an int. */
  function NumTimeSteps(tFinal: real, dt: real): int
    requires dt != 0.0
  {
    Trunc(Trunc(tFinal) as real / dt)
  }

  /** The number of passes of the loop `ts < numTimeSteps + 1`. */
  function StepCount(tFinal: real, dt: real): (n: nat)
    requires dt != 0.0
    ensures n == 0 <==> NumTimeSteps(tFinal, dt) < 0
    ensures n > 0 ==> n == NumTimeSteps(tFinal, dt) + 1
  {
    var steps := NumTimeSteps(tFinal, dt);
    if steps < 0 then 0 else steps + 1
  }

  /** The loop takes one step too many. With a positive step and a
      non-negative final time, the steps before the last stay within the
      (truncated) final time and the last one passes it. */
  lemma {:induction false} StepsOvershoot(tFinal: real, dt: real)
    requires dt > 0.0 && tFinal >= 0.0
    ensures StepCount(tFinal, dt) >= 1
    ensures (StepCount(tFinal, dt) - 1) as real * dt <= Trunc(tFinal) as real
    ensures StepCount(tFinal, dt) as real * dt > Trunc(tFinal) as real
  {
    var t := Trunc(tFinal) as real;
    var n := Trunc(t / dt);
    OvershootBounds(t, dt, n);
    assert StepCount(tFinal, dt) == n + 1;
    assert (n + 1 - 1) as real == n as real;
  }

  /** n = floor(t / dt) steps of length dt stay within t, one more passes it. */
  lemma {:induction false} OvershootBounds(t: real, dt: real, n: int)
    requires dt > 0.0 && t >= 0.0
    requires n as real <= t / dt < n as real + 1.0
    ensures n >= 0 && n as real * dt <= t && (n + 1) as real * dt > t
  {
    var q := t / dt;
    assert q * dt == t;
    MulMonotone(n as real, q, dt);
    var next := (n + 1) as real;
    assert q < next;
    MulStrict(q, next, dt);
    assert next * dt > t;
    QuotientNonNegative(t, dt);
  }

  lemma {:induction false} QuotientNonNegative(t: real, dt: real)
    requires dt > 0.0 && t >= 0.0
    ensures t / dt >= 0.0
  {
    MulMonotone(0.0, t / dt * dt, 1.0 / dt);
  }

  lemma {:induction false} MulMonotone(a: real, b: real, c: real)
    requires a <= b && c > 0.0
    ensures a * c <= b * c
  {
  }

  lemma {:induction false} MulStrict(a: real, b: real, c: real)
    requires a < b && c > 0.0
    ensures a * c < b * c
  {
  }

  /** The source's run, in real arithmetic: final time 10 and step 1e-5
      give 1000000 steps and 1000001 passes. Because the cast binds to the final time, a final
      time of 0.5 with step 0.1 gives no steps at all, where truncating the
      quotient would give 5. */
  lemma {:induction false} SourceRunLength()
    ensures NumTimeSteps(10.0, 0.00001) == 1000000
    ensures StepCount(10.0, 0.00001) == 1000001
    ensures NumTimeSteps(0.5, 0.1) == 0 && Trunc(0.5 / 0.1) == 5
  {
    assert Trunc(10.0) == 10;
    assert 10.0 / 0.00001 == 1000000.0;
    assert Trunc(1000000.0) == 1000000;
    assert Trunc(0.5) == 0;
    assert 0.0 / 0.1 == 0.0;
    assert 0.5 / 0.1 == 5.0;
    assert Trunc(5.0) == 5;
  }

  /** What the driver works with besides the grid and the particles: the
      mapper (the mesh and MFEM's interpolation), MFEM's velocity gradient,
      and the registered constitutive relationships. */
  datatype Setup = Setup(mapper: Mapper, grad: GradientOracle, materials: Registry<Material>)

  /** The state carried from one time step to the next: the grid, the
      particles and the `velUpdate` buffer. */
  datatype State = State(grid: Grid, particles: seq<MaterialPoint>, velUpdate: Vec)

  /** Every registered relationship can be evaluated: the stress law
      divides by its porosity and its density. */
  ghost predicate MaterialsReady(reg: Registry<Material>)
  {
    forall id :: id in reg.entries ==> reg.entries[id].porosity != 0.0 && reg.entries[id].density != 0.0
  }

  /** Every massive node has a nonzero lumped mass; the grid divides by it. */
  ghost predicate MassesNonzero(g: Grid)
  {
    forall k :: 0 <= k < |g.nodeSet| ==> Lump(g.shapeRows, g.nodeSet)[k] != 0.0
  }

  /** What the grid updates read. The grid is assembled with a shape row per
      particle, and its ordered node set names existing nodes. Both force
      lists have a slot per massive node, and the internal one is tagged
      with that node. */
  ghost predicate GridReady(g: Grid, count: nat)
  {
    && !g.massMatrix.Missing?
    && count <= |g.shapeRows|
    && StrictlySorted(g.nodeSet)
    && (forall k :: 0 <= k < |g.nodeSet| ==> 0 <= g.nodeSet[k] < |g.nodes|)
    && Tags(g.internalForces) == g.nodeSet
    && |g.externalForces| == |g.nodeSet|
    && MassesNonzero(g)
  }

  /** A particle has dim position, velocity and acceleration components and
      a dim x dim stress. */
  ghost predicate Fits(mp: MaterialPoint, dim: nat)
  {
    |mp.kin.pos| >= dim && |mp.kin.vel| >= dim && |mp.kin.acc| >= dim && IsMatrix(mp.stress, dim, dim)
  }

  ghost predicate ParticlesFit(ps: seq<MaterialPoint>, dim: nat)
  {
    forall i :: 0 <= i < |ps| ==> Fits(ps[i], dim)
  }

  /** The invariant of the time loop: what every step reads, and keeps. */
  ghost predicate Ready(s: Setup, st: State)
  {
    && MeshReady(s.mapper.mesh)
    && MaterialsReady(s.materials)
    && st.grid.dim == s.mapper.mesh.dim
    && GridReady(st.grid, |st.particles|)
    && NodesReady(s.mapper, st.grid.nodes)
    && ParticlesFit(st.particles, st.grid.dim)
    && |st.velUpdate| == |st.particles| * st.grid.dim
  }

  /** A grid update keeps every node's velocity and acceleration at least
      dim long. */
  lemma {:induction false} OverwriteKeepsWide(nodes: seq<Point>, tags: seq<int>, u: NodeUpdate, n: nat, dim: nat)
    requires n <= |tags|
    requires forall k :: 0 <= k < |tags| ==> 0 <= tags[k] < |nodes| && Applicable(u, k)
    requires u.SetVelocity? ==> u.dim >= dim
    requires Wide(Accelerations(nodes), dim) && Wide(Velocities(nodes), dim)
    ensures Wide(Accelerations(Overwrite(nodes, tags, u, n)), dim)
    ensures Wide(Velocities(Overwrite(nodes, tags, u, n)), dim)
  {
    if n > 0 {
      OverwriteKeepsWide(nodes, tags, u, n - 1, dim);
      var prev := Overwrite(nodes, tags, u, n - 1);
      assert |prev[tags[n - 1]].acc| >= dim && |prev[tags[n - 1]].vel| >= dim by {
        assert Accelerations(prev)[tags[n - 1]] == prev[tags[n - 1]].acc;
        assert Velocities(prev)[tags[n - 1]] == prev[tags[n - 1]].vel;
      }
    }
  }

  /** The acceleration update keeps the nodes wide enough for the mapper. */
  lemma {:induction false} AccelerationsKeepWide(g: Grid, dt: real, ps: seq<MaterialPoint>, dim: nat)
    requires GridReady(g, |ps|)
    requires Wide(Accelerations(g.nodes), dim) && Wide(Velocities(g.nodes), dim)
    ensures UpdateNodalAccelerations(g, dt, ps).Success?
    ensures Wide(Accelerations(UpdateNodalAccelerations(g, dt, ps).value.nodes), dim)
    ensures Wide(Velocities(UpdateNodalAccelerations(g, dt, ps).value.nodes), dim)
  {
    var lumped := Lump(g.shapeRows, g.nodeSet);
    var f := WithForces(AssembleMass(g), ps);
    assert f.nodes == g.nodes;
    OverwriteKeepsWide(f.nodes, Tags(f.internalForces),
      SetAcceleration(f.internalForces, f.externalForces, lumped, g.dim), |lumped|, dim);
  }

  /** The three grid updates of a time step, in order: accelerations from
      the forces, velocities from the particles' momenta, then the explicit
      Euler velocity update. The node set, the shape matrix and the number
      of nodes never change, so the grid stays ready for the next step and
      the mapper. */
  function GridPhase(g: Grid, dt: real, ps: seq<MaterialPoint>, m: Mapper): (r: Grid)
    requires GridReady(g, |ps|) && g.dim == m.mesh.dim && NodesReady(m, g.nodes)
    ensures GridReady(r, |ps|) && NodesReady(m, r.nodes)
    ensures r.dim == g.dim && r.nodeSet == g.nodeSet && r.shapeRows == g.shapeRows
  {
    AccelerationsKeepWide(g, dt, ps, g.dim);
    var a := UpdateNodalAccelerations(g, dt, ps).value;
    OverwriteKeepsWide(a.nodes, a.nodeSet, MomentaOf(a, ps), |a.nodeSet|, g.dim);
    var v := UpdateNodalVelocitiesFromMomenta(a, ps);
    OverwriteKeepsWide(v.nodes, v.nodeSet, AddAcceleration(dt, v.dim), |v.nodeSet|, g.dim);
    UpdateNodalVelocities(v, dt, ps)
  }

  /** The buffer read particle by particle: slot k holds entries
      k dim .. k dim + dim - 1. */
  function Slots(buf: Vec, dim: nat, n: nat): (vs: seq<Vec>)
    requires n * dim <= |buf|
    ensures |vs| == n && Wide(vs, dim)
  {
    if n == 0 then []
    else
      MulSucc(n - 1, dim);
      Slots(buf, dim, n - 1) + [buf[(n - 1) * dim .. (n - 1) * dim + dim]]
  }

  /** Entry j of slot k is entry k dim + j of the buffer, the index the
      source reads. */
  lemma {:induction false} SlotAt(buf: Vec, dim: nat, n: nat, k: int, j: int)
    requires n * dim <= |buf| && 0 <= k < n && 0 <= j < dim
    ensures k * dim + j < |buf|
    ensures Slots(buf, dim, n)[k][j] == buf[k * dim + j]
  {
    MulSucc(n - 1, dim);
    if k < n - 1 {
      SlotAt(buf, dim, n - 1, k, j);
    }
  }

  /** The explicit Euler update of one particle: each of the first dim
      position components gains dt times the particle's mapped velocity,
      and each of the first dim velocity components gains dt times its
      acceleration. */
  function Advance(mp: MaterialPoint, v: Vec, dim: nat, dt: real): (r: MaterialPoint)
    requires Fits(mp, dim) && |v| >= dim
    ensures Fits(r, dim)
    ensures r.kin.nDim == mp.kin.nDim && r.kin.acc == mp.kin.acc
    ensures r.stress == mp.stress && r.strain == mp.strain && r.mass == mp.mass
    ensures r.bodyForce == mp.bodyForce && r.materialId == mp.materialId
    ensures |r.kin.pos| == |mp.kin.pos| && |r.kin.vel| == |mp.kin.vel|
    ensures forall j :: 0 <= j < dim ==>
      r.kin.pos[j] == mp.kin.pos[j] + dt * v[j] && r.kin.vel[j] == mp.kin.vel[j] + dt * mp.kin.acc[j]
    ensures forall j :: dim <= j < |mp.kin.pos| ==> r.kin.pos[j] == mp.kin.pos[j]
    ensures forall j :: dim <= j < |mp.kin.vel| ==> r.kin.vel[j] == mp.kin.vel[j]
  {
    mp.(kin := mp.kin.(pos := Kick(mp.kin.pos, v, dt, dim), vel := Kick(mp.kin.vel, mp.kin.acc, dt, dim)))
  }

  /** The body of the particle loop for a particle whose mapped velocity is
      v. The relationship registered under the particle's material id
      updates its strain rate from the grid velocities and then its
      stress. The particle is then advanced. A missing id is the service's
      `runtime_error`. */
  function UpdateParticle(s: Setup, nodes: seq<Point>, v: Vec, dt: real, mp: MaterialPoint)
    : (r: Result<MaterialPoint, RegistryError>)
    requires MeshReady(s.mapper.mesh) && MaterialsReady(s.materials)
    requires Wide(Velocities(nodes), s.mapper.mesh.dim)
    requires Fits(mp, s.mapper.mesh.dim) && |v| >= s.mapper.mesh.dim
    ensures r.Failure? <==> mp.materialId !in s.materials.entries
    ensures r.Failure? ==> r.error == NotFound(mp.materialId)
    ensures r.Success? ==>
      && Fits(r.value, s.mapper.mesh.dim)
      && r.value.mass == mp.mass && r.value.bodyForce == mp.bodyForce && r.value.materialId == mp.materialId
    ensures r.Success? ==>
      var dim := s.mapper.mesh.dim;
      var l := s.grad(Flatten(Velocities(nodes), dim), MapperElementId(s.mapper.mesh, mp.kin.pos), mp.kin.pos);
      && IsMatrix(r.value.strain, dim, dim) && Symmetric(r.value.strain, dim)
      && (forall i, j :: 0 <= i < dim && 0 <= j < dim ==> r.value.strain[i][j] == (Entry(l, i, j) + Entry(l, j, i)) / 2.0)
      && r.value.stress == StressTensor(s.materials.entries[mp.materialId], r.value.strain, dim)
    ensures r.Success? ==>
      && r.value.kin.acc == mp.kin.acc
      && (forall j :: 0 <= j < s.mapper.mesh.dim ==>
            && r.value.kin.pos[j] == mp.kin.pos[j] + dt * v[j]
            && r.value.kin.vel[j] == mp.kin.vel[j] + dt * mp.kin.acc[j])
  {
    var dim := s.mapper.mesh.dim;
    match Lookup(s.materials, mp.materialId)
    case Failure(e) => Failure(e)
    case Success(mat) =>
      var rated := UpdateStrainRate(s.mapper.mesh, s.grad, nodes, mp);
      Success(Advance(UpdateStress(mat, dim, rated), v, dim, dt))
  }

  /** The particle loop over the first n particles, in order. Every
      particle is updated when all their material ids are registered;
      otherwise the first particle with an unregistered id stops the run
      with that id. */
  function UpdateParticles(s: Setup, nodes: seq<Point>, vels: seq<Vec>, dt: real, ps: seq<MaterialPoint>, n: nat)
    : (r: Result<seq<MaterialPoint>, RegistryError>)
    requires n <= |ps| <= |vels|
    requires MeshReady(s.mapper.mesh) && MaterialsReady(s.materials)
    requires Wide(Velocities(nodes), s.mapper.mesh.dim) && Wide(vels, s.mapper.mesh.dim)
    requires ParticlesFit(ps, s.mapper.mesh.dim)
    ensures r.Success? <==> forall k :: 0 <= k < n ==> ps[k].materialId in s.materials.entries
    ensures r.Failure? ==>
      exists k :: 0 <= k < n && ps[k].materialId !in s.materials.entries && r.error == NotFound(ps[k].materialId)
        && forall q :: 0 <= q < k ==> ps[q].materialId in s.materials.entries
    ensures r.Success? ==>
      && |r.value| == n
      && forall k :: 0 <= k < n ==> UpdateParticle(s, nodes, vels[k], dt, ps[k]) == Success(r.value[k])
  {
    if n == 0 then Success([])
    else
      match UpdateParticles(s, nodes, vels, dt, ps, n - 1)
      case Failure(e) => Failure(e)
      case Success(done) =>
        match UpdateParticle(s, nodes, vels[n - 1], dt, ps[n - 1])
        case Failure(e) => Failure(e)
        case Success(p) => Success(done + [p])
  }

  /** Every particle the loop returns fits the grid again and keeps its
      material id. */
  lemma {:induction false} UpdatedParticlesFit(s: Setup, nodes: seq<Point>, vels: seq<Vec>, dt: real, ps: seq<MaterialPoint>)
    requires |ps| <= |vels|
    requires MeshReady(s.mapper.mesh) && MaterialsReady(s.materials)
    requires Wide(Velocities(nodes), s.mapper.mesh.dim) && Wide(vels, s.mapper.mesh.dim)
    requires ParticlesFit(ps, s.mapper.mesh.dim)
    requires UpdateParticles(s, nodes, vels, dt, ps, |ps|).Success?
    ensures var r := UpdateParticles(s, nodes, vels, dt, ps, |ps|).value;
      && ParticlesFit(r, s.mapper.mesh.dim)
      && forall k :: 0 <= k < |ps| ==> r[k].materialId == ps[k].materialId
  {
    var r := UpdateParticles(s, nodes, vels, dt, ps, |ps|).value;
    forall k | 0 <= k < |ps|
      ensures Fits(r[k], s.mapper.mesh.dim) && r[k].materialId == ps[k].materialId
    {
      assert UpdateParticle(s, nodes, vels[k], dt, ps[k]) == Success(r[k]);
    }
  }

  /** The grid phase of a step, and the particles after the mapper has
      written their accelerations. */
  function Mapped(s: Setup, dt: real, st: State): (r: (Grid, seq<MaterialPoint>))
    requires Ready(s, st)
    ensures GridReady(r.0, |st.particles|) && NodesReady(s.mapper, r.0.nodes)
    ensures r.0.dim == st.grid.dim
    ensures |r.1| == |st.particles| && ParticlesFit(r.1, st.grid.dim)
  {
    var g := GridPhase(st.grid, dt, st.particles, s.mapper);
    (g, UpdateParticleAccelerations(s.mapper, g.nodes, st.particles))
  }

  /** The velocity buffer after the mapper has written it. */
  function MappedBuffer(s: Setup, dt: real, st: State): (buf: Vec)
    requires Ready(s, st)
    ensures |buf| == |st.velUpdate|
  {
    var (g, accelerated) := Mapped(s, dt, st);
    BufferVelocities(s.mapper, g.nodes, accelerated, st.velUpdate)
  }

  /** One pass of the time loop: the grid phase, the mapper writing the
      particles' accelerations and the velocity buffer, then the particle
      loop. It fails exactly when some particle's material id is not
      registered. Otherwise it keeps the loop's invariant, the node set, the
      shape matrix and every particle's material id. */
  function TimeStep(s: Setup, dt: real, st: State): (r: Result<State, RegistryError>)
    requires Ready(s, st)
    ensures r.Failure? <==> exists k :: 0 <= k < |st.particles| && st.particles[k].materialId !in s.materials.entries
    ensures r.Success? ==> Ready(s, r.value)
    ensures r.Success? ==>
      && |r.value.particles| == |st.particles|
      && r.value.grid.nodeSet == st.grid.nodeSet && r.value.grid.shapeRows == st.grid.shapeRows
      && forall k :: 0 <= k < |st.particles| ==> r.value.particles[k].materialId == st.particles[k].materialId
  {
    var dim := s.mapper.mesh.dim;
    var (g, accelerated) := Mapped(s, dt, st);
    var buf := MappedBuffer(s, dt, st);
    var vels := Slots(buf, dim, |accelerated|);
    match UpdateParticles(s, g.nodes, vels, dt, accelerated, |accelerated|)
    case Failure(e) => Failure(e)
    case Success(ps) =>
      UpdatedParticlesFit(s, g.nodes, vels, dt, accelerated);
      Success(State(g, ps, buf))
  }

  /** Particle i after a step is the loop body applied to it. */
  lemma {:induction false} StepParticle(s: Setup, dt: real, st: State, i: int)
    requires Ready(s, st) && TimeStep(s, dt, st).Success? && 0 <= i < |st.particles|
    ensures var m := Mapped(s, dt, st);
      var vels := Slots(MappedBuffer(s, dt, st), s.mapper.mesh.dim, |m.1|);
      UpdateParticle(s, m.0.nodes, vels[i], dt, m.1[i]) == Success(TimeStep(s, dt, st).value.particles[i])
  {
  }

  /** After a step every particle's material id is registered. */
  lemma {:induction false} StepKeepsRegistered(s: Setup, dt: real, st: State)
    requires Ready(s, st) && TimeStep(s, dt, st).Success?
    ensures var next := TimeStep(s, dt, st).value;
      forall k :: 0 <= k < |next.particles| ==> next.particles[k].materialId in s.materials.entries
  {
    var next := TimeStep(s, dt, st).value;
    forall k | 0 <= k < |next.particles|
      ensures next.particles[k].materialId in s.materials.entries
    {
      assert next.particles[k].materialId == st.particles[k].materialId;
    }
  }

  /** Particles that carry the material ids of `ps`, in order. */
  ghost predicate SameIds(ps: seq<MaterialPoint>, qs: seq<MaterialPoint>)
  {
    |qs| == |ps| && forall k :: 0 <= k < |ps| ==> qs[k].materialId == ps[k].materialId
  }

  /** Some particle's material id is not registered. */
  ghost predicate SomeUnregistered(reg: Registry<Material>, ps: seq<MaterialPoint>)
  {
    exists k :: 0 <= k < |ps| && ps[k].materialId !in reg.entries
  }

  /** A step from particles with the ids of `ps` fails exactly when one of
      those ids is unregistered, and otherwise keeps the ids. */
  lemma {:induction false} StepOutcome(s: Setup, dt: real, ps: seq<MaterialPoint>, st: State)
    requires Ready(s, st) && SameIds(ps, st.particles)
    ensures TimeStep(s, dt, st).Failure? <==> SomeUnregistered(s.materials, ps)
    ensures TimeStep(s, dt, st).Success? ==>
      && SameIds(ps, TimeStep(s, dt, st).value.particles)
      && TimeStep(s, dt, st).value.grid.nodeSet == st.grid.nodeSet
      && TimeStep(s, dt, st).value.grid.shapeRows == st.grid.shapeRows
  {
    if SomeUnregistered(s.materials, ps) {
      var k :| 0 <= k < |ps| && ps[k].materialId !in s.materials.entries;
      assert st.particles[k].materialId !in s.materials.entries;
    } else {
      forall k | 0 <= k < |st.particles|
        ensures st.particles[k].materialId in s.materials.entries
      {
        assert st.particles[k].materialId == ps[k].materialId;
      }
    }
  }

  /** A particle the loop body returns has moved by an explicit Euler step. */
  lemma {:induction false} ParticleEuler(s: Setup, nodes: seq<Point>, v: Vec, dt: real, mp: MaterialPoint, q: MaterialPoint, j: int)
    requires MeshReady(s.mapper.mesh) && MaterialsReady(s.materials)
    requires Wide(Velocities(nodes), s.mapper.mesh.dim)
    requires Fits(mp, s.mapper.mesh.dim) && |v| >= s.mapper.mesh.dim
    requires UpdateParticle(s, nodes, v, dt, mp) == Success(q)
    requires 0 <= j < s.mapper.mesh.dim
    ensures q.kin.pos[j] == mp.kin.pos[j] + dt * v[j]
    ensures q.kin.vel[j] == mp.kin.vel[j] + dt * mp.kin.acc[j]
  {
  }

  /** The particle loop reads the buffer the mapper wrote: the velocity
      slot particle i is advanced with holds, component by component, the
      velocity the in-place mapper gives particle i. With ParticleEuler,
      each of its first dim position components gains dt times that
      velocity. */
  lemma {:induction false} SlotIsMapped(m: Mapper, nodes: seq<Point>, ps: seq<MaterialPoint>, velUpdate: Vec, i: int, j: int)
    requires MeshReady(m.mesh) && NodesReady(m, nodes) && ParticlesFit(ps, m.mesh.dim)
    requires |ps| * m.mesh.dim <= |velUpdate|
    requires 0 <= i < |ps| && 0 <= j < m.mesh.dim
    ensures Slots(BufferVelocities(m, nodes, ps, velUpdate), m.mesh.dim, |ps|)[i][j]
         == UpdateParticleVelocities(m, nodes, ps)[i].kin.vel[j]
  {
    var buf := BufferVelocities(m, nodes, ps, velUpdate);
    assert Fits(ps[i], m.mesh.dim);
    SlotAt(buf, m.mesh.dim, |ps|, i, j);
    BufferMatchesInPlace(m, nodes, ps, velUpdate, i, j);
  }

  /** The in-place velocity mapping of a particle reads only its position:
      two particle lists that agree on particle i's position give it the
      same velocity. */
  lemma {:induction false} InPlaceReadsPositions(m: Mapper, nodes: seq<Point>, a: seq<MaterialPoint>, b: seq<MaterialPoint>, i: int, j: int)
    requires MeshReady(m.mesh) && NodesReady(m, nodes) && ParticlesReady(m, a) && ParticlesReady(m, b)
    requires 0 <= i < |a| && i < |b| && a[i].kin.pos == b[i].kin.pos
    requires 0 <= j < m.mesh.dim && j < |a[i].kin.vel| && j < |b[i].kin.vel|
    ensures UpdateParticleVelocities(m, nodes, a)[i].kin.vel[j] == UpdateParticleVelocities(m, nodes, b)[i].kin.vel[j]
  {
  }

  /** After a step every particle's strain rate and stress are symmetric,
      and its stress is the one its registered relationship gives for its
      new strain rate. */
  lemma {:induction false} StepAppliesMaterialLaw(s: Setup, dt: real, st: State, i: int)
    requires Ready(s, st) && TimeStep(s, dt, st).Success?
    requires 0 <= i < |st.particles|
    ensures var q := TimeStep(s, dt, st).value.particles[i];
      var dim := s.mapper.mesh.dim;
      && q.materialId in s.materials.entries
      && Symmetric(q.strain, dim)
      && q.stress == StressTensor(s.materials.entries[q.materialId], q.strain, dim)
      && Symmetric(q.stress, dim)
  {
    var dim := s.mapper.mesh.dim;
    StepParticle(s, dt, st, i);
    var q := TimeStep(s, dt, st).value.particles[i];
    StressSymmetric(s.materials.entries[q.materialId], q.strain, dim);
  }

  /** The `velUpdate` buffer carries nothing from one step to the next:
      the mapper overwrites all of it, so the step does not depend on what
      it held. */
  lemma {:induction false} StepForgetsBuffer(s: Setup, dt: real, st: State, other: Vec)
    requires Ready(s, st) && |other| == |st.velUpdate|
    ensures Ready(s, st.(velUpdate := other))
    ensures TimeStep(s, dt, st) == TimeStep(s, dt, st.(velUpdate := other))
  {
    var st2 := st.(velUpdate := other);
    var m := Mapped(s, dt, st);
    assert Mapped(s, dt, st2) == m;
    var n := |m.1| * s.mapper.mesh.dim;
    assert st.velUpdate[n..] == [] == other[n..];
    assert MappedBuffer(s, dt, st2) == MappedBuffer(s, dt, st);
  }

  /** The state `solve` starts from: the container's fresh grid assembled
      for the particles, and a zeroed buffer of |particles| dim entries. */
  function Start(mc: Container, ps: seq<MaterialPoint>): (st: State)
    requires WellFormed(mc)
    ensures st.grid == Assemble(NewGrid(mc), mc, ps) && st.particles == ps
    ensures |st.velUpdate| == |ps| * mc.mesh.dim
    ensures forall k :: 0 <= k < |st.velUpdate| ==> st.velUpdate[k] == 0.0
  {
    NatProduct(|ps|, mc.mesh.dim);
    State(Assemble(NewGrid(mc), mc, ps), ps, Zeros(|ps| * mc.mesh.dim))
  }

  lemma {:induction false} NatProduct(a: nat, b: nat)
    ensures a * b >= 0
  {
  }

  /** Assembling a fresh grid makes it ready for the grid updates, given
      nonzero lumped masses. */
  lemma {:induction false} AssembledGridReady(mc: Container, ps: seq<MaterialPoint>)
    requires WellFormed(mc)
    requires MassesNonzero(Assemble(NewGrid(mc), mc, ps))
    ensures GridReady(Assemble(NewGrid(mc), mc, ps), |ps|)
  {
    var g := Assemble(NewGrid(mc), mc, ps);
    AssembledSetInRange(NewGrid(mc), mc, ps);
    assert Tags(g.internalForces) == g.nodeSet;
  }

  /** A fresh grid's nodes after assembly are the mesh's vertices, at rest. */
  lemma {:induction false} AssembledNodesReady(m: Mapper, mc: Container, ps: seq<MaterialPoint>)
    requires WellFormed(mc) && m.mesh == mc.mesh
    ensures NodesReady(m, Assemble(NewGrid(mc), mc, ps).nodes)
  {
    var nodes := AppendVertexNodes([], mc);
    assert Assemble(NewGrid(mc), mc, ps).nodes == nodes;
    forall x | 0 <= x < |nodes|
      ensures |Accelerations(nodes)[x]| >= mc.mesh.dim && |Velocities(nodes)[x]| >= mc.mesh.dim
    {
      assert nodes[0 + x].acc == Zeros(mc.mesh.dim) && nodes[0 + x].vel == Zeros(mc.mesh.dim);
    }
  }

  /** Assembling a fresh grid establishes the loop's invariant, given
      nonzero lumped masses and particles that fit the mesh. */
  lemma {:induction false} StartReady(s: Setup, mc: Container, ps: seq<MaterialPoint>)
    requires WellFormed(mc) && s.mapper.mesh == mc.mesh && MeshReady(mc.mesh)
    requires MaterialsReady(s.materials) && ParticlesFit(ps, mc.mesh.dim)
    requires MassesNonzero(Assemble(NewGrid(mc), mc, ps))
    ensures Ready(s, Start(mc, ps))
  {
    AssembledGridReady(mc, ps);
    AssembledNodesReady(s.mapper, mc, ps);
    var st := Start(mc, ps);
    assert st.grid.dim == mc.mesh.dim;
  }

  /** The passes left after one: named, so that the pass count of a run and
      of its tail are related by a term rather than by arithmetic. */
  function OneLess(n: nat): nat
    requires n > 0
  {
    n - 1
  }

  /** `n` time steps in a row from a ready state, stopping at the first
      step that fails: the reference definition of the time loop. */
  function Run(s: Setup, dt: real, st: State, n: nat): (r: Result<State, RegistryError>)
    requires Ready(s, st)
    ensures r.Failure? <==> n > 0 && SomeUnregistered(s.materials, st.particles)
    ensures r.Success? ==>
      && Ready(s, r.value) && SameIds(st.particles, r.value.particles)
      && r.value.grid.nodeSet == st.grid.nodeSet && r.value.grid.shapeRows == st.grid.shapeRows
    ensures n == 0 ==> r == Success(st)
    ensures n == 1 ==> r == TimeStep(s, dt, st)
    decreases n
  {
    StepOutcome(s, dt, st.particles, st);
    if n == 0 then Success(st)
    else
      var next := TimeStep(s, dt, st);
      if next.Failure? then next
      else
        var rest := Run(s, dt, next.value, OneLess(n));
        SameIdsRegistered(s.materials, st.particles, next.value.particles);
        if rest.Success? then SameIdsChain(st.particles, next.value.particles, rest.value.particles); rest
        else rest
  }

  /** The time loop of `solve`: `steps` passes from a ready state. Its
      outcome is that of `steps` time steps in a row, stopping at the first
      that fails. It fails, at the first pass, exactly when there is a pass
      and some particle's material id is unregistered. Otherwise it ends
      ready for another pass, with the particles' ids, the node set and the
      shape matrix it started with. */
  method RunLoop(s: Setup, dt: real, st0: State, steps: nat) returns (r: Result<State, RegistryError>)
    requires Ready(s, st0)
    ensures r.Failure? <==> steps > 0 && SomeUnregistered(s.materials, st0.particles)
    ensures r.Success? ==>
      && Ready(s, r.value) && SameIds(st0.particles, r.value.particles)
      && r.value.grid.nodeSet == st0.grid.nodeSet && r.value.grid.shapeRows == st0.grid.shapeRows
    ensures steps == 0 ==> r == Success(st0)
    ensures steps == 1 ==> r == TimeStep(s, dt, st0)
    ensures r == Run(s, dt, st0, steps)
    decreases steps
  {
    if steps == 0 {
      return Success(st0);
    }
    RunUnfolds(s, dt, st0, steps);
    var next := TimeStep(s, dt, st0);
    if next.Failure? {
      return Failure(next.error);
    }
    r := RunLoop(s, dt, next.value, OneLess(steps));
  }

  /** One time step, taken from the front of a run. */
  lemma {:induction false} RunUnfolds(s: Setup, dt: real, st: State, n: nat)
    requires Ready(s, st) && n > 0
    ensures TimeStep(s, dt, st).Failure? ==> Run(s, dt, st, n) == TimeStep(s, dt, st)
    ensures TimeStep(s, dt, st).Success? ==> Run(s, dt, st, n) == Run(s, dt, TimeStep(s, dt, st).value, OneLess(n))
  {
  }

  /** Particles with the same ids are registered alike. */
  lemma {:induction false} SameIdsRegistered(m: Registry<Material>, ps: seq<MaterialPoint>, qs: seq<MaterialPoint>)
    requires SameIds(ps, qs)
    ensures SomeUnregistered(m, ps) <==> SomeUnregistered(m, qs)
  {
    if SomeUnregistered(m, ps) {
      var k :| 0 <= k < |ps| && ps[k].materialId !in m.entries;
      assert qs[k].materialId !in m.entries;
    }
    if SomeUnregistered(m, qs) {
      var k :| 0 <= k < |qs| && qs[k].materialId !in m.entries;
      assert ps[k].materialId !in m.entries;
    }
  }

  /** Keeping the ids twice keeps them. */
  lemma {:induction false} SameIdsChain(ps: seq<MaterialPoint>, qs: seq<MaterialPoint>, us: seq<MaterialPoint>)
    requires SameIds(ps, qs) && SameIds(qs, us)
    ensures SameIds(ps, us)
  {
    forall k | 0 <= k < |ps|
      ensures us[k].materialId == ps[k].materialId
    {
      assert us[k].materialId == qs[k].materialId;
    }
  }

  /** `solve`: assemble once, then run the time loop for the number of
      passes the final time and step give. The source fixes the final time
      at 10 and the step at 1e-5. */
  method Solve(s: Setup, mc: Container, ps: seq<MaterialPoint>, tFinal: real, dt: real)
    returns (r: Result<State, RegistryError>)
    requires WellFormed(mc) && s.mapper.mesh == mc.mesh && MeshReady(mc.mesh)
    requires MaterialsReady(s.materials) && ParticlesFit(ps, mc.mesh.dim)
    requires MassesNonzero(Assemble(NewGrid(mc), mc, ps))
    requires dt != 0.0
    ensures r.Failure? <==> StepCount(tFinal, dt) > 0 && SomeUnregistered(s.materials, ps)
    ensures r.Success? ==> Ready(s, r.value) && SameIds(ps, r.value.particles)
    ensures r.Success? ==> r.value.grid.nodeSet == Start(mc, ps).grid.nodeSet
    ensures Ready(s, Start(mc, ps)) && r == Run(s, dt, Start(mc, ps), StepCount(tFinal, dt))
  {
    StartReady(s, mc, ps);
    r := RunLoop(s, dt, Start(mc, ps), StepCount(tFinal, dt));
  }
}
