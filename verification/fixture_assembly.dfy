/** The grid of Kelvin/src/tests/GridTest.cpp built by the model's own
    `assemble`: the test's 2 x 1 mesh of unit squares, with MFEM's answers
    for the two element centres as the finite-element oracle, yields
    exactly the state `GridFixture.AssembledGrid` that the other fixture
    lemmas start from. */
module FixtureAssembly {
  import opened LinAlg
  import opened KelvinBaseTypes
  import opened Points
  import opened NodeSet
  import opened ShapeMatrix
  import opened Mass
  import opened MeshContainer
  import opened Grid
  import opened GridKinematics
  import opened GridFixture

  /** The test mesh: vertices 0..5 at (0,0), (1,0), (2,0), (0,1), (1,1),
      (2,1) and two quadrilaterals in MFEM's counter-clockwise order. */
  const TestMesh: Mesh := Mesh(2, [[0.0, 0.0], [1.0, 0.0], [2.0, 0.0], [0.0, 1.0], [1.0, 1.0], [2.0, 1.0]],
                               [[0, 1, 4, 3], [1, 2, 5, 4]])

  /** MFEM's point location at the two particles: the centre of each
      square lies in that square. `assemble` asks about no other point. */
  function CentreElement(x: Vec): int
  {
    if x == [0.5, 0.5] then 0 else if x == [1.5, 0.5] then 1 else -1
  }

  /** The bilinear shape values at a square's centre, one per vertex. */
  const CentreShapes: Vec := [0.25, 0.25, 0.25, 0.25]

  /** The bilinear shape gradients at a unit square's centre, one row per
      vertex in element order. */
  const CentreDShapes: Mat := [[-0.5, -0.5], [0.5, -0.5], [0.5, 0.5], [-0.5, 0.5]]

  const TestContainer: Container :=
    Container(TestMesh, FiniteElements(CentreElement, (x, e) => CentreShapes, (x, e) => CentreDShapes))

  /** The test mesh with the centre oracle is a lowest-order mesh. */
  lemma {:induction false} TestContainerWellFormed()
    ensures WellFormed(TestContainer)
  {
  }

  /** Each particle's ids are the vertices of its square. */
  lemma {:induction false} CentreIds()
    ensures WellFormed(TestContainer)
    ensures ParticleIds(TestContainer, Particles[0]) == [0, 1, 4, 3]
    ensures ParticleIds(TestContainer, Particles[1]) == [1, 2, 5, 4]
  {
    TestContainerWellFormed();
    assert Particles[0].kin.pos == [0.5, 0.5];
    assert Particles[1].kin.pos == [1.5, 0.5];
  }

  /** Appending the mesh's vertices to an empty grid gives the six nodes at
      rest at the vertices. */
  lemma {:induction false} AssembledNodes()
    ensures WellFormed(TestContainer)
    ensures AppendVertexNodes([], TestContainer) == AssembledGrid.nodes
  {
    TestContainerWellFormed();
    var r := AppendVertexNodes([], TestContainer);
    assert Zeros(2) == [0.0, 0.0];
    forall v | 0 <= v < 6
      ensures r[v] == AssembledGrid.nodes[v]
    {
      assert r[0 + v].pos == TestMesh.vertices[v][..2];
    }
  }

  /** The elements of a four-entry sequence. */
  lemma {:induction false} ElemsOfFour(s: seq<int>)
    requires |s| == 4
    ensures Elems(s) == {s[0], s[1], s[2], s[3]}
  {
    forall x
      ensures x in Elems(s) <==> x in {s[0], s[1], s[2], s[3]}
    {
      if x in Elems(s) {
        var i :| 0 <= i < 4 && s[i] == x;
      }
    }
  }

  /** The elements of two four-entry sequences inserted in turn into the
      empty set. */
  lemma {:induction false} InsertedElems(a: seq<int>, b: seq<int>)
    requires |a| == 4 && |b| == 4
    ensures Elems(InsertAll(InsertAll([], a), b)) == {a[0], a[1], a[2], a[3]} + {b[0], b[1], b[2], b[3]}
  {
    ElemsOfFour(a);
    ElemsOfFour(b);
    assert Elems([]) == {};
  }

  /** The two squares' vertex ids, inserted in turn into the empty set,
      give nodes 0..5. */
  lemma {:induction false} InsertBothSquares(a: seq<int>, b: seq<int>)
    requires a == [0, 1, 4, 3] && b == [1, 2, 5, 4]
    ensures InsertAll(InsertAll([], a), b) == NodeIds
  {
    var r := InsertAll(InsertAll([], a), b);
    InsertedElems(a, b);
    assert a[0] == 0 && a[1] == 1 && a[2] == 4 && a[3] == 3;
    assert b[0] == 1 && b[1] == 2 && b[2] == 5 && b[3] == 4;
    UnionOfSquares(Elems(r), {a[0], a[1], a[2], a[3]}, {b[0], b[1], b[2], b[3]});
    SixIds(NodeIds);
    SortedUnique(r, NodeIds);
  }

  lemma {:induction false} UnionOfSquares(r: set<int>, a: set<int>, b: set<int>)
    requires a == {0, 1, 4, 3} && b == {1, 2, 5, 4} && r == a + b
    ensures r == {0, 1, 2, 3, 4, 5}
  {
    forall x
      ensures x in r <==> x in {0, 1, 2, 3, 4, 5}
    {
    }
  }

  lemma {:induction false} SixIds(ids: seq<int>)
    requires ids == NodeIds
    ensures Elems(ids) == {0, 1, 2, 3, 4, 5} && StrictlySorted(ids)
  {
    forall x
      ensures x in Elems(ids) <==> x in {0, 1, 2, 3, 4, 5}
    {
      if x in {0, 1, 2, 3, 4, 5} {
        assert ids[x] == x;
      }
    }
  }

  /** Two particles' ids inserted in turn. */
  lemma {:induction false} NodeSetOfTwo(mc: Container, ps: seq<MaterialPoint>)
    requires WellFormed(mc) && |ps| == 2
    ensures NodeSetAfter([], mc, ps, 2) == InsertAll(InsertAll([], ParticleIds(mc, ps[0])), ParticleIds(mc, ps[1]))
  {
    assert NodeSetAfter([], mc, ps, 0) == [];
    assert NodeSetAfter([], mc, ps, 1) == InsertAll([], ParticleIds(mc, ps[0]));
  }

  /** Inserting both particles' ids into the empty set gives nodes 0..5. */
  lemma {:induction false} AssembledNodeSet()
    ensures WellFormed(TestContainer)
    ensures NodeSetAfter([], TestContainer, Particles, 2) == NodeIds
  {
    CentreIds();
    NodeSetOfTwo(TestContainer, Particles);
    InsertBothSquares(ParticleIds(TestContainer, Particles[0]), ParticleIds(TestContainer, Particles[1]));
  }

  /** A row built from four distinct ids, each with shape 1/4. */
  lemma {:induction false} QuarterRow(ids: seq<int>, row: ShapeRow)
    requires |ids| == 4 && forall a, b :: 0 <= a < b < 4 ==> ids[a] != ids[b]
    requires row.Keys == Elems(ids) && forall j :: 0 <= j < 4 ==> row[ids[j]] == 0.25
    ensures BuildRow(ids, CentreShapes) == row
  {
    var built := BuildRow(ids, CentreShapes);
    assert built.Keys == row.Keys by {
      forall x
        ensures x in built.Keys <==> x in row.Keys
      {
        if x in row.Keys {
          var j :| 0 <= j < 4 && ids[j] == x;
        }
      }
    }
    forall x | x in row.Keys
      ensures built[x] == row[x]
    {
      var j :| 0 <= j < 4 && ids[j] == x;
      BuildRowDistinct(ids, CentreShapes, j);
    }
  }

  /** The test's rows are the rows built from each square's vertices with
      the centre shape values. */
  lemma {:induction false} QuarterRows(a: seq<int>, b: seq<int>)
    requires a == [0, 1, 4, 3] && b == [1, 2, 5, 4]
    ensures BuildRow(a, CentreShapes) == Rows[0]
    ensures BuildRow(b, CentreShapes) == Rows[1]
  {
    ElemsOfFour(a);
    QuarterRow(a, Rows[0]);
    ElemsOfFour(b);
    QuarterRow(b, Rows[1]);
  }

  /** Row p of the shape matrix `assemble` builds is the test's: 1/4 on
      each vertex of the particle's square. */
  lemma {:induction false} AssembledRow(p: int)
    requires 0 <= p < 2
    ensures WellFormed(TestContainer)
    ensures ShapeRows(TestContainer, Particles)[p] == Rows[p]
  {
    CentreIds();
    QuarterRows(ParticleIds(TestContainer, Particles[0]), ParticleIds(TestContainer, Particles[1]));
    assert NodalShapes(TestContainer, Particles[p].kin.pos) == CentreShapes;
  }

  /** The shape matrix `assemble` builds is the test's. */
  lemma {:induction false} AssembledRows()
    ensures WellFormed(TestContainer)
    ensures ShapeRows(TestContainer, Particles) == Rows
  {
    AssembledRow(0);
    AssembledRow(1);
  }

  /** The gradients of a square at its centre, tagged with its vertices. */
  lemma {:induction false} CentreGradients(p: int, verts: seq<int>)
    requires WellFormed(TestContainer) && 0 <= p < 2 && verts == TestMesh.elements[p]
    ensures NodalGradients(TestContainer, Particles[p].kin.pos) ==
      [Grad(verts[0], -0.5, -0.5), Grad(verts[1], 0.5, -0.5), Grad(verts[2], 0.5, 0.5), Grad(verts[3], -0.5, 0.5)]
  {
    assert Particles[p].kin.pos == (if p == 0 then [0.5, 0.5] else [1.5, 0.5]);
    var grads := NodalGradients(TestContainer, Particles[p].kin.pos);
    var want := [Grad(verts[0], -0.5, -0.5), Grad(verts[1], 0.5, -0.5), Grad(verts[2], 0.5, 0.5), Grad(verts[3], -0.5, 0.5)];
    assert |grads| == 4;
    forall i | 0 <= i < 4
      ensures grads[i] == want[i]
    {
      assert grads[i].values == CentreDShapes[i];
    }
  }

  /** Particle p's stored gradients are the test's. */
  lemma {:induction false} StoredGradients(p: int)
    requires 0 <= p < 2
    ensures WellFormed(TestContainer)
    ensures p in StoreGradients(map[], TestContainer, Particles)
    ensures StoreGradients(map[], TestContainer, Particles)[p] == Gradients[p]
  {
    TestContainerWellFormed();
    CentreGradients(p, TestMesh.elements[p]);
  }

  /** The gradient map `assemble` stores is the test's. */
  lemma {:induction false} AssembledGradients()
    ensures WellFormed(TestContainer)
    ensures StoreGradients(map[], TestContainer, Particles) == Gradients
  {
    TestContainerWellFormed();
    var gm := StoreGradients(map[], TestContainer, Particles);
    assert gm.Keys == {0, 1};
    StoredGradients(0);
    StoredGradients(1);
    SameTwoEntries(gm, Gradients);
  }

  /** Two maps on keys 0 and 1 that agree there are equal. */
  lemma {:induction false} SameTwoEntries(a: map<int, seq<Gradient>>, b: map<int, seq<Gradient>>)
    requires a.Keys == {0, 1} && b.Keys == {0, 1}
    requires a[0] == b[0] && a[1] == b[1]
    ensures a == b
  {
  }

  /** Both force lists of the new grid are zero slots tagged 0..5. */
  lemma {:induction false} AssembledForces()
    ensures ResizeAndTag([], NodeIds, 2) == Slots
  {
    var r := ResizeAndTag([], NodeIds, 2);
    assert Zeros(2) == [0.0, 0.0];
    forall k | 0 <= k < 6
      ensures r[k] == Slots[k]
    {
    }
  }

  /** `assemble` on a new grid over the test mesh builds the fixture's
      state with a fresh mass matrix, and `massMatrix(particles)` then
      assembles the stored matrix. */
  lemma {:induction false} AssembleBuildsFixture()
    ensures WellFormed(TestContainer)
    ensures Assemble(NewGrid(TestContainer), TestContainer, Particles) == AssembledGrid.(massMatrix := Constructed)
    ensures AssembleMass(Assemble(NewGrid(TestContainer), TestContainer, Particles)) == AssembledGrid
    ensures Valid(Assemble(NewGrid(TestContainer), TestContainer, Particles))
  {
    AssembledIsValid();
    TestContainerWellFormed();
    AssembledNodes();
    AssembledNodeSet();
    AssembledRows();
    AssembledGradients();
    AssembledForces();
  }
}
