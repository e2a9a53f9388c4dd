/** The MPM background grid (Kelvin/src/Grid.h, Kelvin/src/Grid.cpp): its
    state and `assemble`, which builds the nodes, the particle x node shape
    matrix, the ordered set of massive nodes, the per-particle gradient
    lists and one force slot per massive node. */
module Grid {
  import opened LinAlg
  import opened KelvinBaseTypes
  import opened Points
  import opened NodeSet
  import opened ShapeMatrix
  import opened Mass
  import opened MeshContainer

  /** The grid's state. `shapeRows[p]` is row p of the shape matrix;
      `nodeSet` is the ordered massive node set; `massMatrix` is `Missing`
      until the first `assemble`. */
  datatype Grid = Grid(
    dim: nat,
    nodes: seq<Point>,
    nodeSet: seq<int>,
    shapeRows: seq<ShapeRow>,
    gradientMap: map<int, seq<Gradient>>,
    massMatrix: MassMatrix,
    internalForces: seq<ForceVector>,
    externalForces: seq<ForceVector>)

  /** The constructor `Grid(meshContainer)`: nothing is built yet. */
  function NewGrid(mc: Container): (g: Grid)
    ensures g.dim == mc.mesh.dim && g.nodes == [] && g.nodeSet == [] && g.shapeRows == []
    ensures g.gradientMap == map[] && g.massMatrix.Missing?
    ensures g.internalForces == [] && g.externalForces == []
  {
    Grid(mc.mesh.dim, [], [], [], map[], Missing, [], [])
  }

  /** Every node is a valid point of the grid's dimension. */
  ghost predicate NodesValid(g: Grid)
  {
    forall n :: 0 <= n < |g.nodes| ==> g.nodes[n].Valid() && g.nodes[n].nDim == g.dim
  }

  /** A force list with one valid slot of the grid's dimension per massive
      node, tagged with that node's id. */
  ghost predicate ForcesMatch(g: Grid, forces: seq<ForceVector>)
  {
    && |forces| == |g.nodeSet|
    && forall k :: 0 <= k < |forces| ==>
         forces[k].Valid() && forces[k].nDim == g.dim && forces[k].nodeId == g.nodeSet[k]
  }

  /** What `assemble` establishes and every other operation keeps: the node
      set is ordered and names existing nodes, and both force lists match
      it. */
  ghost predicate Valid(g: Grid)
  {
    && NodesValid(g)
    && StrictlySorted(g.nodeSet)
    && (forall k :: 0 <= k < |g.nodeSet| ==> 0 <= g.nodeSet[k] < |g.nodes|)
    && ForcesMatch(g, g.internalForces)
    && ForcesMatch(g, g.externalForces)
  }

  /** The node made for mesh vertex v: its position is the vertex and it is
      otherwise at rest. */
  function VertexNode(mesh: Mesh, v: int): (p: Point)
    requires 0 <= v < |mesh.vertices| && |mesh.vertices[v]| >= mesh.dim
    ensures p.Valid() && p.nDim == mesh.dim
    ensures forall j :: 0 <= j < mesh.dim ==> p.pos[j] == mesh.vertices[v][j]
    ensures forall j :: 0 <= j < mesh.dim ==> p.vel[j] == 0.0 && p.acc[j] == 0.0
  {
    NewPoint(mesh.dim).(pos := mesh.vertices[v][..mesh.dim])
  }

  /** The surrounding node ids `assemble` uses for a particle: one per shape
      value. */
  function ParticleIds(mc: Container, mp: MaterialPoint): (ids: seq<int>)
    requires WellFormed(mc)
    ensures |ids| == |NodalShapes(mc, mp.kin.pos)|
    ensures forall j :: 0 <= j < |ids| ==> 0 <= ids[j] < |mc.mesh.vertices|
    ensures mc.fe.locate(mp.kin.pos) <= -1 ==> ids == []
  {
    var ids := SurroundingNodeIds(mc, mp.kin.pos);
    var shapes := NodalShapes(mc, mp.kin.pos);
    ids[..|shapes|]
  }

  /** Row p of the shape matrix: `Add(p, ids[j], shapes[j])` for every shape
      j of the particle. */
  function ParticleRow(mc: Container, mp: MaterialPoint): (row: ShapeRow)
    requires WellFormed(mc)
    ensures row.Keys == Elems(ParticleIds(mc, mp))
  {
    var ids := ParticleIds(mc, mp);
    var row := BuildRow(ids, NodalShapes(mc, mp.kin.pos));
    assert row.Keys == Elems(ids) by {
      forall x | x in Elems(ids) ensures x in row.Keys {
        var j :| 0 <= j < |ids| && ids[j] == x;
      }
    }
    row
  }

  /** The node set after the first n particles' ids were inserted into s. */
  function NodeSetAfter(s: seq<int>, mc: Container, particles: seq<MaterialPoint>, n: nat): (r: seq<int>)
    requires WellFormed(mc) && StrictlySorted(s) && n <= |particles|
    ensures StrictlySorted(r)
    ensures forall x :: x in Elems(r) <==>
      x in Elems(s) || exists p :: 0 <= p < n && x in Elems(ParticleIds(mc, particles[p]))
  {
    if n == 0 then s
    else
      var prev := NodeSetAfter(s, mc, particles, n - 1);
      var r := InsertAll(prev, ParticleIds(mc, particles[n - 1]));
      NodeSetStep(s, mc, particles, n, Elems(prev), Elems(r));
      r
  }

  lemma {:induction false} NodeSetStep(s: seq<int>, mc: Container, particles: seq<MaterialPoint>, n: nat,
                                       prev: set<int>, r: set<int>)
    requires WellFormed(mc) && 0 < n <= |particles|
    requires forall x :: x in prev <==>
      x in Elems(s) || exists p :: 0 <= p < n - 1 && x in Elems(ParticleIds(mc, particles[p]))
    requires r == prev + Elems(ParticleIds(mc, particles[n - 1]))
    ensures forall x :: x in r <==>
      x in Elems(s) || exists p :: 0 <= p < n && x in Elems(ParticleIds(mc, particles[p]))
  {
    var last := Elems(ParticleIds(mc, particles[n - 1]));
    forall x
      ensures x in r <==> x in Elems(s) || exists p :: 0 <= p < n && x in Elems(ParticleIds(mc, particles[p]))
    {
      if x in last {
        assert 0 <= n - 1 < n && x in Elems(ParticleIds(mc, particles[n - 1]));
      } else if exists p :: 0 <= p < n && x in Elems(ParticleIds(mc, particles[p])) {
        var p :| 0 <= p < n && x in Elems(ParticleIds(mc, particles[p]));
        assert p < n - 1;
      }
    }
  }

  /** `std::vector::resize(n, template)` followed by tagging entry k with
      the k-th massive node: surviving entries keep their values, new
      entries are zero vectors of dimension dim. */
  function ResizeAndTag(forces: seq<ForceVector>, nodeSet: seq<int>, dim: nat): (r: seq<ForceVector>)
    ensures |r| == |nodeSet|
    ensures forall k :: 0 <= k < |r| ==> r[k].nodeId == nodeSet[k]
    ensures forall k :: 0 <= k < |r| && k < |forces| ==>
      r[k].values == forces[k].values && r[k].nDim == forces[k].nDim
    ensures forall k :: |forces| <= k < |r| ==> r[k] == NewNodalValueVector(dim).(nodeId := nodeSet[k])
  {
    seq(|nodeSet|, k requires 0 <= k < |nodeSet| =>
      (if k < |forces| then forces[k] else NewNodalValueVector(dim)).(nodeId := nodeSet[k]))
  }

  /** The grid nodes after appending one node per mesh vertex. */
  function AppendVertexNodes(nodes: seq<Point>, mc: Container): (r: seq<Point>)
    requires WellFormed(mc)
    ensures |r| == |nodes| + |mc.mesh.vertices| && r[..|nodes|] == nodes
    ensures forall v :: 0 <= v < |mc.mesh.vertices| ==>
      && r[|nodes| + v].Valid() && r[|nodes| + v].nDim == mc.mesh.dim
      && r[|nodes| + v].pos == mc.mesh.vertices[v][..mc.mesh.dim]
      && r[|nodes| + v].vel == Zeros(mc.mesh.dim) && r[|nodes| + v].acc == Zeros(mc.mesh.dim)
  {
    var added := seq(|mc.mesh.vertices|, v requires 0 <= v < |mc.mesh.vertices| => VertexNode(mc.mesh, v));
    assert (nodes + added)[..|nodes|] == nodes;
    nodes + added
  }

  /** The rows of a freshly built shape matrix, one per particle. */
  function ShapeRows(mc: Container, particles: seq<MaterialPoint>): (rows: seq<ShapeRow>)
    requires WellFormed(mc)
    ensures |rows| == |particles|
    ensures forall p :: 0 <= p < |particles| ==> rows[p].Keys == Elems(ParticleIds(mc, particles[p]))
  {
    seq(|particles|, p requires 0 <= p < |particles| => ParticleRow(mc, particles[p]))
  }

  /** `_gradientMap[i] = gradients` for every particle i: the entries of the
      particles are replaced, other entries stay. */
  function StoreGradients(gm: map<int, seq<Gradient>>, mc: Container, particles: seq<MaterialPoint>)
    : (r: map<int, seq<Gradient>>)
    requires WellFormed(mc)
    ensures forall q :: q in r <==> q in gm || 0 <= q < |particles|
    ensures forall p :: 0 <= p < |particles| ==> r[p] == NodalGradients(mc, particles[p].kin.pos)
    ensures forall q :: q in gm && !(0 <= q < |particles|) ==> r[q] == gm[q]
  {
    gm + map p | 0 <= p < |particles| :: NodalGradients(mc, particles[p].kin.pos)
  }

  /** `Grid::assemble(particles)`. It appends one node per mesh vertex
      without removing the earlier ones. It rebuilds the shape matrix and
      unites the node set with every particle's ids (never clearing it). It
      stores each particle's gradients under its index, replaces the mass
      matrix with a fresh unassembled one, and resizes and retags both
      force lists. */
  function Assemble(g: Grid, mc: Container, particles: seq<MaterialPoint>): (r: Grid)
    requires WellFormed(mc) && g.dim == mc.mesh.dim && StrictlySorted(g.nodeSet)
    ensures r.dim == g.dim
    ensures r.nodes == AppendVertexNodes(g.nodes, mc)
    ensures StrictlySorted(r.nodeSet)
    ensures forall x :: x in Elems(r.nodeSet) <==>
      x in Elems(g.nodeSet) || exists p :: 0 <= p < |particles| && x in Elems(ParticleIds(mc, particles[p]))
    ensures r.shapeRows == ShapeRows(mc, particles)
    ensures r.gradientMap == StoreGradients(g.gradientMap, mc, particles)
    ensures r.massMatrix == Constructed
    ensures |r.internalForces| == |r.nodeSet| == |r.externalForces|
    ensures forall k :: 0 <= k < |r.nodeSet| ==>
      r.internalForces[k].nodeId == r.nodeSet[k] && r.externalForces[k].nodeId == r.nodeSet[k]
  {
    var nodeSet := NodeSetAfter(g.nodeSet, mc, particles, |particles|);
    Grid(
      g.dim,
      AppendVertexNodes(g.nodes, mc),
      nodeSet,
      ShapeRows(mc, particles),
      StoreGradients(g.gradientMap, mc, particles),
      Constructed,
      ResizeAndTag(g.internalForces, nodeSet, g.dim),
      ResizeAndTag(g.externalForces, nodeSet, g.dim))
  }

  /** Appending vertex nodes keeps every node a valid point of dimension
      dim. */
  lemma {:induction false} AppendKeepsNodesValid(nodes: seq<Point>, mc: Container)
    requires WellFormed(mc)
    requires forall n :: 0 <= n < |nodes| ==> nodes[n].Valid() && nodes[n].nDim == mc.mesh.dim
    ensures var r := AppendVertexNodes(nodes, mc);
      forall n :: 0 <= n < |r| ==> r[n].Valid() && r[n].nDim == mc.mesh.dim
  {
    var r := AppendVertexNodes(nodes, mc);
    forall n | 0 <= n < |r|
      ensures r[n].Valid() && r[n].nDim == mc.mesh.dim
    {
      if n < |nodes| {
        assert r[n] == r[..|nodes|][n];
      } else {
        assert r[|nodes| + (n - |nodes|)].Valid();
      }
    }
  }

  /** Every massive node after `assemble` names an existing node. */
  lemma {:induction false} AssembledSetInRange(g: Grid, mc: Container, particles: seq<MaterialPoint>)
    requires WellFormed(mc) && g.dim == mc.mesh.dim && StrictlySorted(g.nodeSet)
    requires forall k :: 0 <= k < |g.nodeSet| ==> 0 <= g.nodeSet[k] < |g.nodes|
    ensures var r := Assemble(g, mc, particles);
      forall k :: 0 <= k < |r.nodeSet| ==> 0 <= r.nodeSet[k] < |r.nodes|
  {
    var r := Assemble(g, mc, particles);
    forall k | 0 <= k < |r.nodeSet|
      ensures 0 <= r.nodeSet[k] < |r.nodes|
    {
      var x := r.nodeSet[k];
      assert x in Elems(r.nodeSet);
      if x in Elems(g.nodeSet) {
        var i :| 0 <= i < |g.nodeSet| && g.nodeSet[i] == x;
      } else {
        var p :| 0 <= p < |particles| && x in Elems(ParticleIds(mc, particles[p]));
        var ids := ParticleIds(mc, particles[p]);
        var j :| 0 <= j < |ids| && ids[j] == x;
      }
    }
  }

  /** `assemble` keeps the grid's invariant, and leaves the massive node set
      a superset of the old one. */
  lemma {:induction false} AssembleKeepsValid(g: Grid, mc: Container, particles: seq<MaterialPoint>)
    requires WellFormed(mc) && g.dim == mc.mesh.dim && Valid(g)
    ensures Valid(Assemble(g, mc, particles))
    ensures Elems(g.nodeSet) <= Elems(Assemble(g, mc, particles).nodeSet)
  {
    AppendKeepsNodesValid(g.nodes, mc);
    AssembledSetInRange(g, mc, particles);
  }

  /** Storing the same particles' gradients twice is storing them once. */
  lemma {:induction false} StoreGradientsTwice(gm: map<int, seq<Gradient>>, mc: Container, particles: seq<MaterialPoint>)
    requires WellFormed(mc)
    ensures StoreGradients(StoreGradients(gm, mc, particles), mc, particles) == StoreGradients(gm, mc, particles)
  {
  }

  /** Assembling the same particles twice leaves the node set, the shape
      matrix, the gradient lists and the force tags as one assembly made
      them, but holds every mesh vertex twice among the nodes. */
  lemma {:induction false} ReassembleSameParticles(g: Grid, mc: Container, particles: seq<MaterialPoint>)
    requires WellFormed(mc) && g.dim == mc.mesh.dim && StrictlySorted(g.nodeSet)
    ensures var once := Assemble(g, mc, particles);
      var twice := Assemble(once, mc, particles);
      && twice.nodeSet == once.nodeSet
      && twice.shapeRows == once.shapeRows
      && twice.gradientMap == once.gradientMap
      && |twice.nodes| == |g.nodes| + 2 * |mc.mesh.vertices|
  {
    var once := Assemble(g, mc, particles);
    var twice := Assemble(once, mc, particles);
    forall x | x in Elems(twice.nodeSet) ensures x in Elems(once.nodeSet) {
    }
    assert Elems(twice.nodeSet) == Elems(once.nodeSet);
    SortedUnique(twice.nodeSet, once.nodeSet);
    StoreGradientsTwice(g.gradientMap, mc, particles);
  }
}
