/** The grid-to-particle mapper (src/BasicMFEMGridMapper.cpp): it lays a
    nodal field of the grid out flat, finds each particle's element with the
    regular-grid formula and writes the field's value there back to the
    particle, or into a caller's buffer. Evaluating the field inside an
    element is MFEM's `GetVectorValue` and is an oracle here. */
module GridMapper {
  import opened LinAlg
  import opened Numerics
  import opened Points
  import opened MeshContainer

  /** `GridFunction::GetVectorValue(elemId, point, out)`: the value of a
      flat nodal field in element elemId at the (reference-space) point. */
  type Interpolator = (Vec, int, Vec) -> Vec

  /** The mapper: the background mesh it was built on and MFEM's field
      evaluation. */
  datatype Mapper = Mapper(mesh: Mesh, interp: Interpolator)

  /** What the mapper's arithmetic reads from the mesh: the x coordinates of
      its first two vertices, whose difference is the cell side, which must
      not be zero when the dimension is 2 or 3 (the side divides). */
  predicate MeshReady(mesh: Mesh)
  {
    && |mesh.vertices| >= 2 && |mesh.vertices[0]| >= 1 && |mesh.vertices[1]| >= 1
    && ((mesh.dim == 2 || mesh.dim == 3) ==> mesh.vertices[1][0] != mesh.vertices[0][0])
  }

  /** The cell side `node2[0] - node1[0]`. Unlike the mesh container, the
      mapper takes no absolute value. */
  function SideLength(mesh: Mesh): real
    requires MeshReady(mesh)
  {
    mesh.vertices[1][0] - mesh.vertices[0][0]
  }

  /** The element the mapper evaluates a particle in. For a dimension other
      than 2 or 3 the loop never assigns `id`, which keeps its initial 0. */
  function MapperElementId(mesh: Mesh, pos: Vec): (id: int)
    requires MeshReady(mesh)
    requires mesh.dim == 2 || mesh.dim == 3 ==> |pos| >= mesh.dim
    ensures mesh.dim == 2 || mesh.dim == 3 ==>
      id == RegularGridIndex(mesh.dim, NodesPerSide(mesh.dim, |mesh.vertices|), SideLength(mesh), pos)
    ensures mesh.dim != 2 && mesh.dim != 3 ==> id == 0
  {
    if mesh.dim == 2 || mesh.dim == 3 then
      RegularGridIndex(mesh.dim, NodesPerSide(mesh.dim, |mesh.vertices|), SideLength(mesh), pos)
    else 0
  }

  /** A mesh whose vertex 1 lies to the left of vertex 0: the mapper's
      signed side sends the particle at (1.5, 0.5) to element -1, while the
      container's `getElementIdFromHexMesh`, which takes |x1 - x0|, sends it
      to element 1. */
  lemma {:induction false} SignedSideDiffers()
    ensures var m := Mesh(2, [[1.0, 0.0], [0.0, 0.0], [2.0, 0.0], [0.0, 1.0], [1.0, 1.0], [2.0, 1.0]], []);
      var mc := Container(m, FiniteElements(x => -1, (x, e) => [], (x, e) => []));
      && MapperElementId(m, [1.5, 0.5]) == -1
      && ElementIdFromHexMesh(mc, [1.5, 0.5]) == 1
  {
    assert Pow(1, 2) == 1 && Pow(2, 2) == 4 && Pow(3, 2) == 9;
    assert RootFrom(6, 2, 2) == 2;
    assert RootFrom(6, 2, 1) == 2;
    assert IntRoot(6, 2) == 2;
    assert Trunc(-1.5) == -1 && Trunc(-0.5) == 0 && Trunc(1.5) == 1 && Trunc(0.5) == 0;
  }

  /** Every vector has at least dim entries. */
  predicate Wide(vs: seq<Vec>, dim: nat)
  {
    forall i :: 0 <= i < |vs| ==> |vs[i]| >= dim
  }

  /** The flat layout of a nodal field: node i's first dim components at
      positions i dim .. i dim + dim - 1. */
  function Flatten(vs: seq<Vec>, dim: nat): (field: Vec)
    requires Wide(vs, dim)
    ensures |field| == |vs| * dim
  {
    if |vs| == 0 then []
    else Flatten(vs[..|vs| - 1], dim) + vs[|vs| - 1][..dim]
  }

  /** Entry i dim + j of the flat field is component j of node i. */
  lemma {:induction false} FlatIndex(vs: seq<Vec>, dim: nat, i: int, j: int)
    requires Wide(vs, dim)
    requires 0 <= i < |vs| && 0 <= j < dim
    ensures 0 <= i * dim + j < |vs| * dim
    ensures Flatten(vs, dim)[i * dim + j] == vs[i][j]
  {
    var n := |vs|;
    assert i * dim + j < (i + 1) * dim <= n * dim by {
      MulLeft(i + 1, n, dim);
    }
    if i < n - 1 {
      FlatIndex(vs[..n - 1], dim, i, j);
      assert i * dim + j < (n - 1) * dim by {
        MulLeft(i + 1, n - 1, dim);
      }
    } else {
      assert |Flatten(vs[..n - 1], dim)| == (n - 1) * dim;
    }
  }

  lemma {:induction false} MulLeft(a: int, b: int, d: nat)
    requires a <= b
    ensures a * d <= b * d
  {
  }

  /** Reads node i back from a flat field. */
  function Node(field: Vec, dim: nat, i: nat): (v: Vec)
    requires (i + 1) * dim <= |field|
    ensures |v| == dim
  {
    field[i * dim .. i * dim + dim]
  }

  /** The layout loses nothing: reading node i back gives its first dim
      components. */
  lemma {:induction false} FlatRoundTrip(vs: seq<Vec>, dim: nat, i: nat)
    requires Wide(vs, dim) && i < |vs|
    ensures (i + 1) * dim <= |Flatten(vs, dim)|
    ensures Node(Flatten(vs, dim), dim, i) == vs[i][..dim]
  {
    MulLeft(i + 1, |vs|, dim);
    forall j | 0 <= j < dim
      ensures Node(Flatten(vs, dim), dim, i)[j] == vs[i][j]
    {
      FlatIndex(vs, dim, i, j);
    }
  }

  /** The nodes' accelerations and velocities as nodal fields. */
  function Accelerations(nodes: seq<Point>): (vs: seq<Vec>)
    ensures |vs| == |nodes| && forall i :: 0 <= i < |nodes| ==> vs[i] == nodes[i].acc
  {
    seq(|nodes|, i requires 0 <= i < |nodes| => nodes[i].acc)
  }

  function Velocities(nodes: seq<Point>): (vs: seq<Vec>)
    ensures |vs| == |nodes| && forall i :: 0 <= i < |nodes| ==> vs[i] == nodes[i].vel
  {
    seq(|nodes|, i requires 0 <= i < |nodes| => nodes[i].vel)
  }

  /** What the mapper needs of the grid's nodes: each holds at least dim
      acceleration and velocity components, and there is one node per mesh
      vertex, so the flat field fills the vertex-sized grid function. */
  predicate NodesReady(m: Mapper, nodes: seq<Point>)
  {
    && |nodes| == |m.mesh.vertices|
    && Wide(Accelerations(nodes), m.mesh.dim) && Wide(Velocities(nodes), m.mesh.dim)
  }

  /** Every particle's position has the mesh's dimension. */
  predicate ParticlesReady(m: Mapper, particles: seq<MaterialPoint>)
  {
    forall i :: 0 <= i < |particles| ==> |particles[i].kin.pos| >= m.mesh.dim
  }

  /** The field's value at a particle: evaluated in the particle's element
      at its raw physical position, which the source passes as the
      reference-space point. */
  function Sample(m: Mapper, field: Vec, pos: Vec): Vec
    requires MeshReady(m.mesh) && |pos| >= m.mesh.dim
  {
    m.interp(field, MapperElementId(m.mesh, pos), pos)
  }

  /** Component j of the written-back vector: below dim the sampled value,
      above it the old one. */
  function WriteBack(prev: Vec, v: Vec, dim: nat): (r: Vec)
    ensures |r| == |prev|
    ensures forall j :: 0 <= j < |prev| ==> r[j] == (if j < dim then At(v, j) else prev[j])
  {
    seq(|prev|, j requires 0 <= j < |prev| => if j < dim then At(v, j) else prev[j])
  }

  /** `updateParticleAccelerations(grid, particles)`: each particle's first
      dim acceleration components become the grid acceleration field's
      value at the particle; nothing else of the particle changes. */
  function UpdateParticleAccelerations(m: Mapper, nodes: seq<Point>, particles: seq<MaterialPoint>)
    : (r: seq<MaterialPoint>)
    requires MeshReady(m.mesh) && NodesReady(m, nodes) && ParticlesReady(m, particles)
    ensures |r| == |particles|
    ensures forall i :: 0 <= i < |particles| ==>
      && r[i].kin.pos == particles[i].kin.pos && r[i].kin.vel == particles[i].kin.vel
      && r[i].kin.nDim == particles[i].kin.nDim
      && r[i].stress == particles[i].stress && r[i].strain == particles[i].strain
      && r[i].mass == particles[i].mass && r[i].bodyForce == particles[i].bodyForce
      && r[i].materialId == particles[i].materialId
      && |r[i].kin.acc| == |particles[i].kin.acc|
    ensures forall i, j :: 0 <= i < |particles| && m.mesh.dim <= j < |particles[i].kin.acc| ==>
      r[i].kin.acc[j] == particles[i].kin.acc[j]
    ensures forall i, j :: 0 <= i < |particles| && 0 <= j < m.mesh.dim && j < |particles[i].kin.acc| ==>
      r[i].kin.acc[j] == At(m.interp(Flatten(Accelerations(nodes), m.mesh.dim),
                                     MapperElementId(m.mesh, particles[i].kin.pos), particles[i].kin.pos), j)
  {
    var field := Flatten(Accelerations(nodes), m.mesh.dim);
    seq(|particles|, i requires 0 <= i < |particles| =>
      var p := particles[i];
      WithAcc(p, WriteBack(p.kin.acc, Sample(m, field, p.kin.pos), m.mesh.dim)))
  }

  /** The in-place `updateParticleVelocities(grid, particles)`: the same
      with the velocity field, written into each particle's velocity. */
  function UpdateParticleVelocities(m: Mapper, nodes: seq<Point>, particles: seq<MaterialPoint>)
    : (r: seq<MaterialPoint>)
    requires MeshReady(m.mesh) && NodesReady(m, nodes) && ParticlesReady(m, particles)
    ensures |r| == |particles|
    ensures forall i :: 0 <= i < |particles| ==>
      && r[i].kin.pos == particles[i].kin.pos && r[i].kin.acc == particles[i].kin.acc
      && r[i].kin.nDim == particles[i].kin.nDim
      && r[i].stress == particles[i].stress && r[i].strain == particles[i].strain
      && r[i].mass == particles[i].mass && r[i].bodyForce == particles[i].bodyForce
      && r[i].materialId == particles[i].materialId
      && |r[i].kin.vel| == |particles[i].kin.vel|
    ensures forall i, j :: 0 <= i < |particles| && m.mesh.dim <= j < |particles[i].kin.vel| ==>
      r[i].kin.vel[j] == particles[i].kin.vel[j]
    ensures forall i, j :: 0 <= i < |particles| && 0 <= j < m.mesh.dim && j < |particles[i].kin.vel| ==>
      r[i].kin.vel[j] == At(m.interp(Flatten(Velocities(nodes), m.mesh.dim),
                                     MapperElementId(m.mesh, particles[i].kin.pos), particles[i].kin.pos), j)
  {
    var field := Flatten(Velocities(nodes), m.mesh.dim);
    seq(|particles|, i requires 0 <= i < |particles| =>
      var p := particles[i];
      WithVel(p, WriteBack(p.kin.vel, Sample(m, field, p.kin.pos), m.mesh.dim)))
  }

  /** The dim components a particle receives: the field's value at the
      particle, read with zeros past its end. */
  function SampleVec(m: Mapper, field: Vec, pos: Vec): (v: Vec)
    requires MeshReady(m.mesh) && |pos| >= m.mesh.dim
    ensures |v| == m.mesh.dim
    ensures forall j :: 0 <= j < m.mesh.dim ==> v[j] == At(Sample(m, field, pos), j)
  {
    Pad(Sample(m, field, pos), m.mesh.dim)
  }

  /** The first n components of v, read with zeros past its end. */
  function Pad(v: Vec, n: nat): (r: Vec)
    ensures |r| == n && forall j :: 0 <= j < n ==> r[j] == At(v, j)
  {
    if |v| >= n then v[..n] else v + Zeros(n - |v|)
  }

  /** The sampled vectors of all particles, in order. */
  function Samples(m: Mapper, field: Vec, particles: seq<MaterialPoint>): (vs: seq<Vec>)
    requires MeshReady(m.mesh) && ParticlesReady(m, particles)
    ensures |vs| == |particles| && Wide(vs, m.mesh.dim)
  {
    seq(|particles|, i requires 0 <= i < |particles| => SampleVec(m, field, particles[i].kin.pos))
  }

  /** The buffer overload `updateParticleVelocities(grid, particles,
      velocities)`: the particles are left alone (the parameter is const),
      the first |particles| dim entries of the buffer receive the sampled
      velocities laid out particle by particle, and the rest of the buffer
      keeps its contents. The buffer must hold |particles| dim values. */
  function BufferVelocities(m: Mapper, nodes: seq<Point>, particles: seq<MaterialPoint>, buf: Vec): (r: Vec)
    requires MeshReady(m.mesh) && NodesReady(m, nodes) && ParticlesReady(m, particles)
    requires |particles| * m.mesh.dim <= |buf|
    ensures |r| == |buf|
  {
    Flatten(Samples(m, Flatten(Velocities(nodes), m.mesh.dim), particles), m.mesh.dim)
      + buf[|particles| * m.mesh.dim..]
  }

  /** Flattening one more vector appends its first dim components. */
  lemma {:induction false} FlattenSnoc(vs: seq<Vec>, v: Vec, dim: nat)
    requires Wide(vs, dim) && |v| >= dim
    ensures Wide(vs + [v], dim)
    ensures Flatten(vs + [v], dim) == Flatten(vs, dim) + v[..dim]
  {
    assert (vs + [v])[..|vs|] == vs;
  }

  lemma {:induction false} MulSucc(i: int, d: int)
    ensures (i + 1) * d == i * d + d
  {
  }

  /** The inner loop of the buffer overload: components 0 .. dim - 1 of vel
      go to positions base .. base + dim - 1 of the buffer. */
  method WriteComponents(buf: Vec, base: nat, vel: Vec, dim: nat) returns (r: Vec)
    requires base + dim <= |buf|
    ensures r == buf[..base] + seq(dim, j requires 0 <= j < dim => At(vel, j)) + buf[base + dim..]
  {
    ghost var v := seq(dim, j requires 0 <= j < dim => At(vel, j));
    r := buf;
    var j := 0;
    while j < dim
      invariant 0 <= j <= dim
      invariant r == buf[..base] + v[..j] + buf[base + j..]
    {
      r := r[base + j := At(vel, j)];
      assert r == buf[..base] + v[..j + 1] + buf[base + j + 1..];
      j := j + 1;
    }
    assert v[..dim] == v;
  }

  /** The sampled vectors of one more particle flatten to those of the
      particles before it followed by its own. */
  lemma {:induction false} SamplesStep(m: Mapper, field: Vec, particles: seq<MaterialPoint>, i: nat)
    requires MeshReady(m.mesh) && ParticlesReady(m, particles) && i < |particles|
    ensures Flatten(Samples(m, field, particles[..i + 1]), m.mesh.dim)
         == Flatten(Samples(m, field, particles[..i]), m.mesh.dim) + SampleVec(m, field, particles[i].kin.pos)
  {
    var v := SampleVec(m, field, particles[i].kin.pos);
    assert Samples(m, field, particles[..i + 1]) == Samples(m, field, particles[..i]) + [v];
    FlattenSnoc(Samples(m, field, particles[..i]), v, m.mesh.dim);
    assert v[..m.mesh.dim] == v;
  }

  /** The loops of the buffer overload, over particles and then components;
      k is the flat index i dim of particle i's first component. */
  method BufferLoop(m: Mapper, nodes: seq<Point>, particles: seq<MaterialPoint>, buf: Vec) returns (r: Vec)
    requires MeshReady(m.mesh) && NodesReady(m, nodes) && ParticlesReady(m, particles)
    requires |particles| * m.mesh.dim <= |buf|
    ensures r == BufferVelocities(m, nodes, particles, buf)
  {
    var dim := m.mesh.dim;
    var field := Flatten(Velocities(nodes), dim);
    r := buf;
    var i, k := 0, 0;
    while i < |particles|
      invariant 0 <= i <= |particles| && k == i * dim <= |buf|
      invariant r == Flatten(Samples(m, field, particles[..i]), dim) + buf[k..]
    {
      MulLeft(i + 1, |particles|, dim);
      MulSucc(i, dim);
      var vel := Sample(m, field, particles[i].kin.pos);
      ghost var prev := r;
      r := WriteComponents(r, k, vel, dim);
      assert r == prev[..k] + SampleVec(m, field, particles[i].kin.pos) + buf[k + dim..];
      SamplesStep(m, field, particles, i);
      i, k := i + 1, k + dim;
    }
    assert particles[..i] == particles;
  }

  /** Entry i dim + j of the buffer is component j of particle i's sampled
      velocity, and past the particles the buffer is unchanged. */
  lemma {:induction false} BufferIndex(m: Mapper, nodes: seq<Point>, particles: seq<MaterialPoint>, buf: Vec, i: int, j: int)
    requires MeshReady(m.mesh) && NodesReady(m, nodes) && ParticlesReady(m, particles)
    requires |particles| * m.mesh.dim <= |buf|
    requires 0 <= i < |particles| && 0 <= j < m.mesh.dim
    ensures i * m.mesh.dim + j < |buf|
    ensures BufferVelocities(m, nodes, particles, buf)[i * m.mesh.dim + j]
         == At(Sample(m, Flatten(Velocities(nodes), m.mesh.dim), particles[i].kin.pos), j)
  {
    var dim := m.mesh.dim;
    var vs := Samples(m, Flatten(Velocities(nodes), dim), particles);
    FlatIndex(vs, dim, i, j);
  }

  /** Past the particles' entries the buffer keeps what it held. */
  lemma {:induction false} BufferTail(m: Mapper, nodes: seq<Point>, particles: seq<MaterialPoint>, buf: Vec, k: int)
    requires MeshReady(m.mesh) && NodesReady(m, nodes) && ParticlesReady(m, particles)
    requires |particles| * m.mesh.dim <= k < |buf|
    ensures BufferVelocities(m, nodes, particles, buf)[k] == buf[k]
  {
  }

  /** The two velocity overloads agree: the buffer holds, at i dim + j,
      exactly what the in-place overload writes into component j of
      particle i's velocity. */
  lemma {:induction false} BufferMatchesInPlace(m: Mapper, nodes: seq<Point>, particles: seq<MaterialPoint>, buf: Vec, i: int, j: int)
    requires MeshReady(m.mesh) && NodesReady(m, nodes) && ParticlesReady(m, particles)
    requires |particles| * m.mesh.dim <= |buf|
    requires 0 <= i < |particles| && 0 <= j < m.mesh.dim && j < |particles[i].kin.vel|
    ensures i * m.mesh.dim + j < |buf|
    ensures BufferVelocities(m, nodes, particles, buf)[i * m.mesh.dim + j]
         == UpdateParticleVelocities(m, nodes, particles)[i].kin.vel[j]
  {
    BufferIndex(m, nodes, particles, buf, i, j);
  }

  /** Mapping is idempotent: the sampled value depends on the particle's
      position only, which mapping does not change. */
  lemma {:induction false} MapAccelerationsTwice(m: Mapper, nodes: seq<Point>, particles: seq<MaterialPoint>)
    requires MeshReady(m.mesh) && NodesReady(m, nodes) && ParticlesReady(m, particles)
    ensures var once := UpdateParticleAccelerations(m, nodes, particles);
      ParticlesReady(m, once) && UpdateParticleAccelerations(m, nodes, once) == once
  {
    var once := UpdateParticleAccelerations(m, nodes, particles);
    var twice := UpdateParticleAccelerations(m, nodes, once);
    forall i | 0 <= i < |once|
      ensures twice[i] == once[i]
    {
      assert twice[i].kin.acc == once[i].kin.acc;
      assert twice[i].kin == once[i].kin;
    }
  }

  /** The flat field of n nodes that all hold the components c. */
  function Repeat(c: Vec, n: nat): (field: Vec)
    ensures |field| == n * |c|
  {
    if n == 0 then [] else Repeat(c, n - 1) + c
  }

  /** Nodes that all carry acceleration c in their first |c| components lay
      out as c repeated once per node. */
  lemma {:induction false} UniformNodesFlatten(nodes: seq<Point>, c: Vec)
    requires Wide(Accelerations(nodes), |c|)
    requires forall i :: 0 <= i < |nodes| ==> nodes[i].acc[..|c|] == c
    ensures Flatten(Accelerations(nodes), |c|) == Repeat(c, |nodes|)
  {
    if |nodes| > 0 {
      var n := |nodes|;
      assert Accelerations(nodes)[..n - 1] == Accelerations(nodes[..n - 1]);
      UniformNodesFlatten(nodes[..n - 1], c);
    }
  }

  /** When the interpolator reproduces uniform fields (as shape functions
      forming a partition of unity do) and every node carries acceleration
      c in its first dim components, every particle's first dim
      components become c, wherever it lies. */
  lemma {:induction false} UniformAccelerationReproduced(m: Mapper, nodes: seq<Point>, particles: seq<MaterialPoint>, c: Vec)
    requires MeshReady(m.mesh) && NodesReady(m, nodes) && ParticlesReady(m, particles)
    requires |c| == m.mesh.dim
    requires forall i :: 0 <= i < |nodes| ==> nodes[i].acc[..m.mesh.dim] == c
    requires forall n: nat, e, x :: m.interp(Repeat(c, n), e, x) == c
    ensures forall i, j :: 0 <= i < |particles| && 0 <= j < m.mesh.dim && j < |particles[i].kin.acc| ==>
      UpdateParticleAccelerations(m, nodes, particles)[i].kin.acc[j] == c[j]
  {
    UniformNodesFlatten(nodes, c);
  }
}
