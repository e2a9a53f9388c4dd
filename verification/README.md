# Kelvin's grid–particle transfer, modelled in Dafny

Kelvin is a material point method (MPM) code. Particles carry mass,
velocity, stress and a material id. A background grid, built on an MFEM
mesh, gathers the particles' momentum and forces. It then solves for nodal
accelerations and velocities and hands them back to the particles. The
particles finally update their strain rate and stress through a
constitutive relationship.

This project models the core of that loop as pure Dafny functions and
methods over immutable datatypes:

- `Kelvin::Grid`. Module `Grid` covers the state and `assemble`. Modules
  `GridForces` and `ForceLaws` cover the internal and external nodal
  forces, `Mass` and `ShapeMatrix` the mass matrix and the sparse shape
  matrix, and `GridKinematics` the nodal accelerations, velocities and the
  Euler step. The ordered set of massive nodes is in `NodeSet`.
- The value types `NodalValueVector`, `Point` and `MaterialPoint`
  (`KelvinBaseTypes`, `Points`).
- The mesh container's particle queries, and the regular-grid element
  index (`MeshContainer`).
- The grid-to-particle mapper (`GridMapper`).
- The Olevsky linear-viscous constitutive relationship, both per point
  (`Olevsky`) and for a list of points (`OlevskyBatch`).
- The constitutive-relationship registry (`Registry`).
- The Dirichlet boundary condition's attribute mask (`Dirichlet`).
- The solver's time loop (`Solver`).
- The particle generator's bounding-box squaring and particle shift
  (`PMGen`).

MFEM's finite-element evaluation is passed in as function-valued
parameters. This covers locating a point, shape values and gradients,
field interpolation and velocity gradients. Each of these is a plain
oracle whose results the model takes as given.

`GridFixture` replays the grid test of the repository on the model. It
uses the two-element mesh and the two centre particles. `FixtureAssembly`
shows that the model's own `assemble`, given MFEM's answers at the two
element centres, builds exactly the fixture's state. `GridFixture` proves
the mass matrix, internal force, external force, acceleration, momentum
velocity and Euler values the test expects.

Three properties of the code differ from what its comments and headers
promise. For each, the model states the code as written and proves the
discrepancy, and it also defines the intended behaviour, which the rest
of the model uses: `PMGen.Generate` uses the intended dimension guard,
and the solver uses the documented registry lookup. The solver calls the
per-point stress update of src/MFEMOlevskyLVCR.cpp, which the batch
stress finding does not affect; `OlevskyBatch.UpdateStresses` is the
corrected batch update. See "## Findings". One more, the internal-force accumulation, differs from
the formula in its own comment. The test's expected values follow the
code, so the model keeps the code's recurrence as the behaviour. It
proves when the recurrence agrees with the commented sum and when it
does not (`ForceLaws.AtMostOneUpdateAgrees`, `ForceLaws.TwoUpdatesDiffer`,
`GridFixture.ReferenceDisagreesAtNodeFour`).

Floating-point values are modelled as reals, and C++ `(int)` casts as
truncation toward zero (`Numerics.Trunc`).

## Model

| member | source | states |
|---|---|---|
| KelvinBaseTypes.NewNodalValueVector | Kelvin/src/KelvinBaseTypes.h:63-78 | a new vector of dimension d (3 by default) satisfies the class invariant: d values, all zero, and node id -1 |
| KelvinBaseTypes.CopyNodalValueVector | Kelvin/src/KelvinBaseTypes.h:80-83 | a copy has the original's dimension, node id and values |
| KelvinBaseTypes.ClearKeepsInvariant | Kelvin/src/KelvinBaseTypes.h:97-101 | clear() keeps the class invariant, is idempotent, and clearing a copy gives the same vector as clearing the original |
| KelvinBaseTypes.ConstructionFixture | Kelvin/src/tests/NodalValueVectorTest.cpp:46-76 | the default vector has 3 entries and the 2-D one 2, both with node id -1, as the test checks |
| Points.NewPoint | Kelvin/src/Point.h:75-78 | a new point of dimension d holds d-long, zeroed position, velocity and acceleration |
| Points.CopyPoint | Kelvin/src/Point.h:80-83 | a copy holds the original's dimension and vectors and is valid when the original is |
| Points.NewMaterialPoint | Kelvin/src/MaterialPoint.h:63-71 | a new material point is valid, of dimension d, with zero mass, material id 0 and zero d x d stress and strain |
| Points.MaterialPointFromPoint | Kelvin/src/tests/MaterialPointTest.cpp:94-111 | a material point built from a point keeps its kinematics and starts with zero mass, stress, strain and body force of the point's dimension |
| Points.CopyMaterialPoint | Kelvin/src/tests/MaterialPointTest.cpp:78-92 | a copied material point carries every kinematic and material field of the original |
| Points.MaterialPointIsPoint | Kelvin/src/MaterialPoint.h:43 | every material point satisfies the point invariant: its position, velocity and acceleration have its dimension's length |
| Points.ConstructionFixture | Kelvin/src/tests/MaterialPointTest.cpp:44-111 | the defaults of the material point test: dimension 3, 3 x 3 stress, zero mass, and a position copied from a point |
| Numerics.Trunc | src/MeshContainer.cpp:257-262 | the C++ cast `(int) x` lands within one of x, toward zero, for both signs |
| Numerics.IntRoot | src/MeshContainer.cpp:250 | the truncated square or cube root r of n satisfies r^k <= n < (r+1)^k |
| NodeSet.Insert | Kelvin/src/Grid.cpp:76 | inserting into the ordered set keeps it strictly increasing, and its elements become the old ones plus the new id |
| NodeSet.InsertAll | Kelvin/src/Grid.cpp:74-77 | inserting a particle's ids yields the ordered union of the set and the ids |
| NodeSet.SortedUnique | Kelvin/src/Grid.cpp:74-77 | an ordered set is determined by its elements, so the same elements give the same iteration order |
| NodeSet.SortedCardinality | Kelvin/src/Grid.cpp:89-93 | a strictly increasing sequence has as many elements as entries, so the force lists get one slot per massive node |
| NodeSet.RankOfEntry | Kelvin/src/Grid.cpp:95-101 | force slot k is tagged with the k-th smallest massive node: exactly k massive nodes lie below it |
| ShapeMatrix.BuildRowPrefix | Kelvin/src/Grid.cpp:74-75 | after the first n `Add` calls the row stores exactly the columns of the first n ids |
| ShapeMatrix.BuildRowPrefixValue | Kelvin/src/Grid.cpp:74-75 | each stored value is the sum of the shape values added to that column so far |
| ShapeMatrix.BuildRow | Kelvin/src/Grid.cpp:70-77 | a particle's row stores one column per surrounding node, holding the sum of the shape values given for it |
| ShapeMatrix.BuildRowDistinct | Kelvin/src/Grid.cpp:74-75 | with distinct ids each column holds exactly its node's shape value |
| Grid.NewGrid | Kelvin/src/Grid.cpp:40-43 | a new grid has the mesh's dimension, no nodes, an empty node set, no shape rows, no gradients, no forces and no mass matrix |
| Grid.VertexNode | Kelvin/src/Grid.cpp:56-64 | the node made for a vertex is a valid point of the mesh's dimension at the vertex, at rest |
| Grid.ParticleIds | Kelvin/src/Grid.cpp:72 | a particle's surrounding ids name mesh vertices, one per shape value, and there are none for a particle outside the mesh |
| Grid.ParticleRow | Kelvin/src/Grid.cpp:72-77 | a particle's shape row stores exactly its surrounding node ids |
| Grid.NodeSetAfter | Kelvin/src/Grid.cpp:70-81 | after n particles the node set is ordered, and an id is in it iff it was already there or is a surrounding id of one of those particles |
| Grid.ResizeAndTag | Kelvin/src/Grid.cpp:89-101 | the resized force list has one slot per massive node, tagged in set order; old slots keep their values and new ones are zero vectors |
| Grid.AppendVertexNodes | Kelvin/src/Grid.cpp:56-64 | the old nodes stay first, followed by one valid node per mesh vertex, at that vertex and at rest |
| Grid.ShapeRows | Kelvin/src/Grid.cpp:70-81 | one row per particle, each storing that particle's surrounding node ids |
| Grid.StoreGradients | Kelvin/src/Grid.cpp:79-80 | every particle index maps to its nodal gradients, and entries for other indices are kept |
| Grid.Assemble | Kelvin/src/Grid.cpp:49-104 | assemble appends one node per vertex and rebuilds the shape rows. It unites the node set with every particle's ids, never clearing it, stores the gradients, makes a fresh mass matrix, and tags one force slot per massive node in set order |
| Grid.AppendKeepsNodesValid | Kelvin/src/Grid.cpp:56-64 | appending vertex nodes keeps every node a valid point of the grid's dimension |
| Grid.AssembledSetInRange | Kelvin/src/Grid.cpp:70-93 | every massive node after assemble names an existing node |
| Grid.AssembleKeepsValid | Kelvin/src/Grid.cpp:49-104 | assemble preserves the grid invariant (valid nodes, ordered in-range node set, matching force lists) and only grows the node set |
| Grid.StoreGradientsTwice | Kelvin/src/Grid.cpp:79-80 | storing the same particles' gradients again changes nothing |
| Grid.ReassembleSameParticles | Kelvin/src/Grid.cpp:49-104 | a second assemble with the same particles leaves the node set, the shape matrix and the gradients as they were, but duplicates every vertex node |
| Mass.Lumped | Kelvin/src/Grid.cpp:251-259 | a mass matrix that was constructed but never assembled lumps to nothing; an assembled one lumps to one value per massive node |
| Mass.LumpAt | Kelvin/src/MassMatrix.cpp:45-59 | the k-th lumped mass is row set[k] of the consistent mass matrix, summed over the massive nodes |
| Mass.EntrySymmetric | Kelvin/src/MassMatrix.cpp:45-59 | the consistent mass matrix is symmetric |
| Mass.EntryUnsupported | Kelvin/src/MassMatrix.cpp:45-59 | a node that no particle's shape row stores has a zero row in the mass matrix |
| Mass.LumpByParticle | Kelvin/src/MassMatrix.cpp:45-59 | the k-th lumped mass is the sum over particles of S(p, set[k]) times the particle's total shape weight on the massive nodes |
| Mass.LumpTotal | Kelvin/src/MassMatrix.cpp:45-59 | the lumped masses add up to the sum over particles of the square of each particle's total weight on the massive nodes |
| Mass.RowTotalOfBuiltRow | Kelvin/src/Grid.cpp:70-77 | a shape row built from a particle's ids, all of them massive, puts total weight equal to the sum of its shape values on the massive nodes |
| Mass.PartitionOfUnityLump | Kelvin/src/MassMatrix.cpp:45-59 | under a partition of unity each lumped mass is the shape matrix's column sum, and the lumped masses add up to the particle count |
| GridForces.AddVecMat | Kelvin/src/Grid.cpp:126-158 | the helper adds the row-vector product vec^T M into the first \|vec\| entries of the result and leaves the others |
| GridForces.AddVecMatIdentity | Kelvin/src/Grid.cpp:126-158 | with the identity matrix the helper adds the vector itself, so the product is a row-vector product |
| GridForces.RecurAppend | Kelvin/src/Grid.cpp:181-203 | the accumulation over two lists of updates is the accumulation over the first, continued over the second |
| GridForces.InternalForcesOf | Kelvin/src/Grid.cpp:170-204 | every force slot keeps its node tag, dimension and length when its values are recomputed |
| GridForces.TouchGradients | Kelvin/src/Grid.cpp:183 | reading `_gradientMap[j]` creates an empty entry for every missing particle index and changes no existing list |
| GridForces.StepIsProductThenScale | Kelvin/src/Grid.cpp:195-200 | the loop body's product followed by the scaling by -m is exactly one update f := -m (f + g^T sigma) |
| GridForces.GradientLoop | Kelvin/src/Grid.cpp:186-202 | the gradient loop continues the accumulation over the particle's gradients tagged with the node, in order |
| GridForces.ParticleLoop | Kelvin/src/Grid.cpp:181-203 | the particle loop runs the accumulation over every matching (particle, gradient) pair in order and touches the gradient map |
| GridForces.ParticleStep | Kelvin/src/Grid.cpp:181-203 | one particle's pass extends the accumulation of the particles before it by that particle's matching gradients |
| GridForces.ForceSlot | Kelvin/src/Grid.cpp:173-204 | one slot is cleared and recomputed from the gradient lists; the reads only create missing entries |
| GridForces.TouchAgain | Kelvin/src/Grid.cpp:183 | touching the gradient map again, or touching a map with the same lists, gives the same map |
| GridForces.PushesSameGrads | Kelvin/src/Grid.cpp:181-190 | the updates to a node depend only on the gradient lists read, not on which entries exist |
| GridForces.InternalForces | Kelvin/src/Grid.cpp:160-207 | internalForces replaces each slot with the accumulation over its node's matching pairs. Besides the forces it changes only the gradient map, which gains empty entries for missing particles |
| GridForces.ExternalParticleLoop | Kelvin/src/Grid.cpp:232-245 | the particle loop sums S(p, x) m_p b_p over the particles whose shape row stores the node |
| GridForces.ExternalForces | Kelvin/src/Grid.cpp:209-249 | externalForces replaces every external slot with its node's load and changes nothing else of the grid |
| ForceLaws.RecurClosedForm | Kelvin/src/Grid.cpp:190-200 | the accumulation has a closed form: each product is weighted by the -m of its own update and of every later one |
| ForceLaws.AtMostOneUpdateAgrees | Kelvin/src/Grid.cpp:163-200 | with at most one matching pair the accumulation equals the commented formula f = -sum m g^T sigma |
| ForceLaws.TwoUpdatesDiffer | Kelvin/src/Grid.cpp:163-200 | two unit-mass updates a, b give a - b where the commented formula gives -(a + b) |
| ForceLaws.NoMatchNoPush | Kelvin/src/Grid.cpp:186-190 | a particle with no gradient tagged with the node makes no update to its force |
| ForceLaws.UntaggedNodeHasZeroForce | Kelvin/src/Grid.cpp:173-204 | a node no stored gradient is tagged with keeps a zero internal force |
| ForceLaws.ExternalForceTotal | Kelvin/src/Grid.cpp:232-245 | conservation: summed over the massive nodes, the external forces equal each particle's m b times its total shape weight on them |
| ForceLaws.PartitionOfUnityExternal | Kelvin/src/Grid.cpp:209-249 | under a partition of unity the nodal external forces add up to the total body force sum m_p b_p |
| ForceLaws.NodeLoadIsStoredForce | Kelvin/src/Grid.cpp:225-245 | the stored external force of slot k is the load of the node it is tagged with |
| GridKinematics.Apply | Kelvin/src/Grid.cpp:294-361 | none of the three nodal updates moves a node; an acceleration update keeps its velocity and the other two keep its acceleration |
| GridKinematics.OverwriteMiss | Kelvin/src/Grid.cpp:288-298 | a node that no slot is tagged with keeps its value |
| GridKinematics.OverwriteHit | Kelvin/src/Grid.cpp:288-298 | with distinct tags the node of slot k holds slot k's update of its original value |
| GridKinematics.OverwriteFrame | Kelvin/src/Grid.cpp:288-298 | nodes outside the tags are unchanged, and no node's position changes |
| GridKinematics.AssembleMass | Kelvin/src/Grid.cpp:251-255 | massMatrix(particles) stores a matrix lumped from the current shape matrix and node set, and changes nothing else |
| GridKinematics.WithForces | Kelvin/src/Grid.cpp:274-275 | recomputing both force lists keeps their lengths and tags, and changes only the forces and the gradient map |
| GridKinematics.UpdateNodalAccelerations | Kelvin/src/Grid.cpp:265-305 | it throws iff the lumped masses and the two force lists do not have one entry per node; otherwise it assembles the mass matrix and keeps the node set, shape matrix and tags |
| GridKinematics.AccelerationsObeyNewton | Kelvin/src/Grid.cpp:265-305 | on a valid grid it never throws, and every massive node obeys m a = f_int + f_ext. Other nodes, and every position and velocity, are unchanged |
| GridKinematics.AccelerationsWritten | Kelvin/src/Grid.cpp:284-299 | on a valid grid the call succeeds and writes the massive nodes slot by slot |
| GridKinematics.NewtonSlot | Kelvin/src/Grid.cpp:294-297 | the acceleration a slot writes satisfies m a = f_int + f_ext on its first dim components |
| GridKinematics.UpdateNodalVelocitiesFromMomenta | Kelvin/src/Grid.cpp:307-344 | only the nodes change, and their number is kept |
| GridKinematics.SumOfQuotients | Kelvin/src/Grid.cpp:326-339 | dividing each particle's momentum share by the lumped mass before adding equals dividing their sum |
| GridKinematics.VelocitySlot | Kelvin/src/Grid.cpp:321-339 | the velocity a slot writes balances momentum: m v = sum_p S m_p v_p on its node |
| GridKinematics.MomentumBalance | Kelvin/src/Grid.cpp:307-344 | every massive node satisfies lumped mass times velocity = the particles' interpolated momentum. Other nodes, and every position and acceleration, are unchanged |
| GridKinematics.UniformVelocityReproduced | Kelvin/src/Grid.cpp:307-344 | unit-mass particles all moving at v, under a partition of unity, give every massive node velocity v |
| GridKinematics.UpdateNodalVelocities | Kelvin/src/Grid.cpp:346-364 | the Euler step changes only the nodes and keeps their number |
| GridKinematics.EulerStep | Kelvin/src/Grid.cpp:346-364 | the nested node and component loops compute the functional Euler step |
| GridKinematics.EulerKicksMassiveNodes | Kelvin/src/Grid.h:217-227 | each massive node's first dim velocity components gain dt times its acceleration; positions, accelerations and non-massive nodes stay |
| GridKinematics.EulerZeroStep | Kelvin/src/Grid.cpp:355-361 | a zero time step changes nothing |
| GridKinematics.EulerStepsCompose | Kelvin/src/Grid.cpp:355-361 | two Euler steps with the same accelerations equal one step with the summed time step |
| GridKinematics.KickTwice | Kelvin/src/Grid.cpp:358-360 | two velocity kicks with the same acceleration compose additively in the time step |
| FixtureAssembly.AssembleBuildsFixture | Kelvin/src/tests/GridTest.cpp:64-128 | assemble on a new grid over the test mesh, with the two centre particles, builds the fixture state with a fresh mass matrix; that state is valid, and assembling its mass matrix gives the stored one |
| FixtureAssembly.AssembledNodes | Kelvin/src/tests/GridTest.cpp:84-112 | assemble appends six nodes at rest at (0,0), (1,0), (2,0), (0,1), (1,1), (2,1) |
| FixtureAssembly.AssembledNodeSet | Kelvin/src/Grid.cpp:69-77 | inserting the two particles' vertex ids into the empty node set gives nodes 0..5 |
| FixtureAssembly.AssembledRows | Kelvin/src/Grid.cpp:69-77 | the shape matrix assemble builds weighs each centre particle 1/4 on each vertex of its square |
| FixtureAssembly.AssembledGradients | Kelvin/src/tests/GridTest.cpp:114-128 | the stored gradient lists of particles 0 and 1 are tagged 0, 1, 4, 3 and 1, 2, 5, 4 and hold the bilinear centre gradients |
| GridFixture.AssembledIsValid | Kelvin/src/tests/GridTest.cpp:85-128 | the test's assembled grid satisfies the grid invariant, and each particle's shape weights on nodes 0..5 add up to one |
| GridFixture.MassMatrixEntries | Kelvin/src/tests/GridTest.cpp:149-162 | the consistent mass matrix has the 36 reference entries the test lists |
| GridFixture.InternalForceValues | Kelvin/src/tests/GridTest.cpp:189-213 | the internal forces are the test's expected values, including +1 at node 4 |
| GridFixture.ReferenceDisagreesAtNodeFour | Kelvin/src/tests/GridTest.cpp:189-213 | the commented formula would give -1 at node 4, so the test's expectation holds only for the code's accumulation |
| GridFixture.ExternalForceValues | Kelvin/src/tests/GridTest.cpp:218-241 | the external forces are the test's values: 1/4 on single-element nodes and 1/2 on the shared nodes 1 and 4 |
| GridFixture.LumpValues | Kelvin/src/tests/GridTest.cpp:244-275 | the lumped masses are 1/4 on single-element nodes and 1/2 on shared ones |
| GridFixture.NewtonOnFixture | Kelvin/src/tests/GridTest.cpp:244-275 | after updateNodalAccelerations every fixture node obeys m a = f_int + f_ext |
| GridFixture.AccelerationValues | Kelvin/src/tests/GridTest.cpp:244-275 | the nodal accelerations are the test's 5, 3, 1, 1, 3, -3 in both components |
| GridFixture.MomentaVelocities | Kelvin/src/tests/GridTest.cpp:278-310 | particles moving at (1, 1) give every node velocity (1, 1), and the accelerations stay |
| GridFixture.VelocityValues | Kelvin/src/tests/GridTest.cpp:313-340 | after the momenta and one unit Euler step the velocities are the test's 6, 4, 2, 2, 4, -2 |
| GridFixture.FixtureReady | Kelvin/src/tests/GridTest.cpp:343-347 | the fixture's massive node set is 0..5, and every lumped mass is nonzero |
| MeshContainer.ConvertPointToMatrix | src/MeshContainer.cpp:101-110 | the column matrix of a point is \|point\| x 1 with entry (i, 0) equal to coordinate i |
| MeshContainer.ConvertPointRoundTrip | src/MeshContainer.cpp:101-110 | reading the column back gives the point: the conversion loses nothing |
| MeshContainer.SurroundingNodeIdsIn | src/MeshContainer.cpp:112-129 | an element id of -1 or below gives no ids; otherwise the ids are the element's vertex ids |
| MeshContainer.NodalShapesIn | src/MeshContainer.cpp:143-176 | an element id of -1 or below gives no shapes; otherwise there is one shape value per dof |
| MeshContainer.NodalGradientsIn | src/MeshContainer.cpp:178-225 | an element id of -1 or below gives no gradients. Otherwise each dof's gradient is tagged with its vertex id and holds that row of the gradient matrix |
| MeshContainer.ElementId | src/MeshContainer.cpp:232-241 | the element MFEM locates is -1 or an existing element |
| MeshContainer.SurroundingNodeIds | src/MeshContainer.cpp:131-135 | the one-argument form uses the located element |
| MeshContainer.NodalShapes | src/MeshContainer.cpp:137-141 | the one-argument form uses the located element |
| MeshContainer.NodalGradients | src/MeshContainer.cpp:227-230 | the one-argument form uses the located element |
| MeshContainer.ParticleLists | src/MeshContainer.cpp:112-230 | a point outside the mesh yields no ids, shapes or gradients. A located point yields one of each per vertex, with the i-th gradient tagged by the i-th id |
| MeshContainer.RegularGridIndex | src/MeshContainer.cpp:243-266 | a dimension other than 2 or 3 gives element -1 |
| MeshContainer.NodesPerSide | src/MeshContainer.cpp:249-250 | the cells per side n is the truncated square (cube) root of the vertex count minus one: (n+1)^k <= NV < (n+2)^k |
| MeshContainer.ElementIdFromHexMesh | src/MeshContainer.cpp:243-266 | a dimension other than 2 or 3 gives element -1 |
| MeshContainer.CellOfCoordinate | src/MeshContainer.cpp:257-258 | for x >= 0 and h > 0, trunc(x / h) is the cell [i h, (i+1) h) that contains x |
| MeshContainer.CellBelow | src/MeshContainer.cpp:257-258 | a coordinate inside [0, n h) falls in one of the first n cells |
| MeshContainer.RegularGridIndex2D | src/MeshContainer.cpp:256-263 | a point inside an n x n grid gets the index i + n j of the cell (i, j) containing it, which lies in [0, n^2) |
| MeshContainer.RegularGridIndex3D | src/MeshContainer.cpp:256-263 | a point inside an n x n x n grid gets the index i + n j + n^2 k of the cell (i, j, k) containing it, which lies in [0, n^3) |
| MeshContainer.HexMeshFixture | src/tests/MeshContainerTest.cpp:446-473 | on the test's two-square mesh the formula puts (1.1, 0.1) in element 1 and (0.98, 0.34) in element 0, as MFEM does |
| MeshContainer.SurroundingIdsFixture | src/tests/MeshContainerTest.cpp:169-178 | the particle at (1.5, 0.5), located in element 1, gets the vertex ids the test expects |
| GridMapper.MapperElementId | src/BasicMFEMGridMapper.cpp:70-93 | in 2 and 3 dimensions the mapper uses the regular-grid index with the signed cell side; otherwise its id keeps the initial 0 |
| GridMapper.SignedSideDiffers | src/BasicMFEMGridMapper.cpp:70-93 | with vertex 1 left of vertex 0, the mapper sends (1.5, 0.5) to element -1 where the container's absolute side gives 1 |
| GridMapper.FlatIndex | src/BasicMFEMGridMapper.cpp:60-68 | entry i dim + j of the flat field is component j of node i |
| GridMapper.FlatRoundTrip | src/BasicMFEMGridMapper.cpp:60-68 | reading node i back from the flat field gives its first dim components: the layout loses nothing |
| GridMapper.Accelerations | src/BasicMFEMGridMapper.cpp:60-64 | the acceleration field holds every node's acceleration, in node order |
| GridMapper.Velocities | src/BasicMFEMGridMapper.cpp:115-121 | the velocity field holds every node's velocity, in node order |
| GridMapper.WriteBack | src/BasicMFEMGridMapper.cpp:98-100 | components below dim receive the sampled value and the others keep theirs |
| GridMapper.UpdateParticleAccelerations | src/BasicMFEMGridMapper.cpp:51-104 | each particle's first dim acceleration components become the grid field's value in the particle's element; nothing else of any particle changes |
| GridMapper.UpdateParticleVelocities | src/BasicMFEMGridMapper.cpp:106-158 | each particle's first dim velocity components become the grid velocity field's value at it; nothing else changes |
| GridMapper.SampleVec | src/BasicMFEMGridMapper.cpp:146-153 | a particle receives dim components of the sampled value, zero past its end |
| GridMapper.WriteComponents | src/BasicMFEMGridMapper.cpp:206-208 | the inner loop writes the dim components into positions base .. base + dim - 1 of the buffer and keeps the rest |
| GridMapper.BufferLoop | src/BasicMFEMGridMapper.cpp:160-213 | the nested loops of the buffer overload compute the functional buffer update |
| GridMapper.BufferIndex | src/BasicMFEMGridMapper.cpp:178-208 | entry i dim + j of the buffer is component j of particle i's sampled velocity |
| GridMapper.BufferTail | src/BasicMFEMGridMapper.cpp:160-213 | past the particles' entries the buffer keeps what it held |
| GridMapper.BufferMatchesInPlace | src/BasicMFEMGridMapper.cpp:106-213 | the buffer overload and the in-place overload agree: buffer entry i dim + j is the velocity component j the in-place form gives particle i |
| GridMapper.MapAccelerationsTwice | src/BasicMFEMGridMapper.cpp:51-104 | mapping accelerations twice is mapping once, since the value depends only on the particle's position |
| GridMapper.UniformAccelerationReproduced | src/BasicMFEMGridMapper.cpp:51-104 | if the interpolator reproduces uniform fields and every node carries acceleration c, every particle receives c |
| Olevsky.NewMaterial | src/MFEMOlevskyLVCR.cpp:43-59 | the constructor keeps porosity, shear modulus and density, with phi = (1-p)^2 and 3 p psi = 2 phi (1-p) |
| Olevsky.SinteringIsThreeHalvesPsi | src/MFEMOlevskyLVCR.cpp:141-143 | the sintering stress is 3/2 psi, and both moduli vanish iff the porosity is 1 |
| Olevsky.Deviator | src/MFEMOlevskyLVCR.cpp:153-161 | the deviator keeps off-diagonal entries, and on the diagonal it plus the hydrostatic part gives back the strain rate |
| Olevsky.DeviatorTraceFree | src/MFEMOlevskyLVCR.cpp:153-161 | the deviator carries no trace |
| Olevsky.DeviatorIdempotent | src/MFEMOlevskyLVCR.cpp:159-161 | taking the deviator of a deviator changes nothing |
| Olevsky.StressTensor | src/MFEMOlevskyLVCR.cpp:163-172 | off the diagonal the stress is the viscous modulus times the strain rate; on it, that times the deviatoric part plus the mean stress |
| Olevsky.StressSymmetric | src/MFEMOlevskyLVCR.cpp:163-172 | a symmetric strain rate gives a symmetric stress |
| Olevsky.StressTrace | src/MFEMOlevskyLVCR.cpp:163-172 | the stress's trace is dim times the mean stress, so its hydrostatic part is the mean stress |
| Olevsky.StressDeviator | src/MFEMOlevskyLVCR.cpp:163-172 | the stress deviator is 2 G phi / density times the strain-rate deviator |
| Olevsky.UpdateStress | src/MFEMOlevskyLVCR.cpp:132-174 | updateStress replaces the stress by the law's stress for the current strain rate; the old stress plays no part and nothing else changes |
| Olevsky.Symmetrize | src/MFEMOlevskyLVCR.cpp:122 | the symmetric part of L is symmetric and agrees with L in every sum L(i,j) + L(j,i) |
| Olevsky.SymmetrizeFixes | src/MFEMOlevskyLVCR.cpp:122 | L is symmetric iff symmetrising leaves it unchanged; symmetrising is idempotent, and what it removes is antisymmetric |
| Olevsky.SymmetrizeFixture | src/tests/MeshContainerTest.cpp:536-545 | the gradient [[1, 3], [1, 3]] symmetrises to [[1, 2], [2, 3]] |
| Olevsky.UpdateStrainRate | src/MFEMOlevskyLVCR.cpp:65-130 | the strain rate becomes the symmetric part of the velocity gradient in the mapper's element of the point; nothing else changes |
| Olevsky.UpdateGivesSymmetricStress | src/MFEMOlevskyLVCR.cpp:65-174 | a strain-rate update followed by a stress update always leaves a symmetric stress |
| OlevskyBatch.LocatedStrainRate | Kelvin/src/MFEMOlevskyLVCR.cpp:86-109 | each point's strain rate becomes the symmetric part of the velocity gradient where it lies; nothing else changes |
| OlevskyBatch.UpdateStrainRates | Kelvin/src/MFEMOlevskyLVCR.cpp:64-111 | every point is updated independently of the others |
| OlevskyBatch.UpdateStressesAsWritten | Kelvin/src/MFEMOlevskyLVCR.cpp:113-164 | the batch stress loop as written writes the as-written stress of each point's own strain rate |
| OlevskyBatch.AsWrittenAgreesIff | Kelvin/src/MFEMOlevskyLVCR.cpp:147-156 | as written, off-diagonal entries agree with the per-point law, and a diagonal entry agrees iff its scaled deviatoric strain rate is zero |
| OlevskyBatch.AsWrittenDiagonalIsMean | Kelvin/src/MFEMOlevskyLVCR.cpp:153-156 | as written, every diagonal entry is the mean stress alone |
| OlevskyBatch.DiagonalDropsDeviator | Kelvin/src/MFEMOlevskyLVCR.cpp:147-156 | porosity 1/2, G 1, density 1 and strain diag(1, -1) give diag(1/4, 1/4) as written, where the law gives diag(3/4, -1/4) |
| OlevskyBatch.UpdateStresses | Kelvin/src/MFEMOlevskyLVCR.cpp:126-157 | the intended batch loop applies the per-point law to every point independently |
| OlevskyBatch.UpdateStressesSplit | Kelvin/src/MFEMOlevskyLVCR.cpp:126-157 | with the intended loop each point's stress has hydrostatic part equal to the mean stress and deviator equal to the viscous modulus times the strain-rate deviator |
| Registry.EmptyRegistry | Kelvin/src/ConstitutiveRelationshipService.cpp:40-42 | the fresh service holds no relationship |
| Registry.Add | Kelvin/src/ConstitutiveRelationshipService.cpp:48-61 | add throws iff the id is taken; otherwise it stores the relationship under the id and keeps every other entry |
| Registry.DistinctIdsCoexist | Kelvin/src/ConstitutiveRelationshipService.cpp:48-61 | relationships under distinct ids coexist whatever the order of adding, and adding either again fails |
| Registry.GetAsWritten | Kelvin/src/ConstitutiveRelationshipService.cpp:63-66 | get as written returns entry 0, whatever id it is asked for |
| Registry.Lookup | Kelvin/src/ConstitutiveRelationshipService.h:61-77 | get as documented succeeds iff the id is registered, returning its relationship, and otherwise fails with that id |
| Registry.LookupAfterAdd | Kelvin/src/ConstitutiveRelationshipService.cpp:48-66 | what was added is found under its id, and lookups of other ids are unaffected |
| Registry.GetIgnoresId | Kelvin/src/ConstitutiveRelationshipService.cpp:63-66 | with ids 0 and 1 registered, asking for 1 gets entry 0 as written but entry 1 as documented; with only id 1 there is no entry 0 to return |
| Dirichlet.NewCondition | Kelvin/src/DirichletBoundaryCondition.cpp:38-70 | the mask has one entry per boundary attribute; side 0 marks them all and side s marks attribute s alone |
| Dirichlet.MarkedCount | Kelvin/src/DirichletBoundaryCondition.cpp:57-67 | a condition on side 0 constrains every boundary attribute, and one on side s exactly one |
| Dirichlet.Copy | Kelvin/src/DirichletBoundaryCondition.cpp:72-77 | the copy constructor copies the space, side id and value but not the mask, which starts empty |
| Dirichlet.CopyLosesMask | Kelvin/src/DirichletBoundaryCondition.cpp:72-77 | a copy names the same side but marks no attribute, where the original marks at least one |
| PMGen.SideLengths | src/pmgen/PMGen.cpp:105-106 | the i-th length is max(i) - min(i) for each of the first dim axes |
| PMGen.MaxScan | src/pmgen/PMGen.cpp:105-111 | the search finds the first strictly largest positive length, which bounds every length, or index 0 when none is positive |
| PMGen.SquareBox | src/pmgen/PMGen.cpp:113-120 | every axis of the squared box has the longest side's length; the longest axis and the axes past dim are untouched |
| PMGen.CheckBoundingBox | src/pmgen/PMGen.cpp:98-126 | the search loop and the squaring loop compute the squared box |
| PMGen.SquaredSidesEqualLongest | src/pmgen/PMGen.cpp:113-120 | when some side is positive, the squared box is a square (cube) whose side is at least every original side |
| PMGen.SquareBoxIdempotent | src/pmgen/PMGen.cpp:98-126 | squaring an already squared box changes nothing |
| PMGen.ReferenceSides | src/pmgen/PMGen.cpp:178-182 | the reference mesh's side on each axis is twice the squared box's side |
| PMGen.ShiftCentresBox | src/pmgen/PMGen.cpp:201-217 | a box that starts at the origin, or is centred on it, is shifted so that its corners add up to the reference side, i.e. it is centred in the reference mesh |
| PMGen.ShiftParticles | src/pmgen/PMGen.cpp:212-217 | every particle's first dim coordinates move by the shift, and nothing else changes |
| PMGen.ShiftKeepsSpacing | src/pmgen/PMGen.cpp:212-217 | shifting is a translation: the distance between any two particles along any axis is kept |
| PMGen.CreateReferenceMesh | src/pmgen/PMGen.cpp:145-220 | the reference sides and shifted particles are those of the squared bounding box |
| PMGen.DimensionGuard | src/pmgen/PMGen.cpp:319-325 | the intended check continues iff the dimension is 2 or 3, and otherwise exits with EXIT_FAILURE |
| PMGen.GuardLetsOneDimensionThrough | src/pmgen/PMGen.cpp:319-325 | a one-dimensional mesh passes the check as written but is stopped by the intended one |
| PMGen.Generate | src/pmgen/PMGen.cpp:315-333 | with the intended guard, generation fails with EXIT_FAILURE iff the dimension is not 2 or 3, and otherwise returns the reference mesh and shifted particles |
| Solver.StepCount | src/MFEMMPMSolver.cpp:67-76 | the loop runs no pass iff `(int) tFinal / dt` is negative, and otherwise one pass more than it |
| Solver.StepsOvershoot | src/MFEMMPMSolver.cpp:67-76 | with a positive step the passes before the last stay within the truncated final time, and the last pass goes beyond it |
| Solver.SourceRunLength | src/MFEMMPMSolver.cpp:67-68 | in real arithmetic, the source's 10 / 1e-5 gives 1000000 steps and 1000001 passes, and 0.5 / 0.1 would give none because the cast binds to tFinal |
| Solver.GridPhase | src/MFEMMPMSolver.cpp:78-83 | the three grid updates keep the grid ready for the next step and the mapper, with the same node set and shape matrix |
| Solver.SlotAt | src/MFEMMPMSolver.cpp:104-107 | entry j of particle k's velocity slot is buffer entry k dim + j, the index the loop reads |
| Solver.Advance | src/MFEMMPMSolver.cpp:104-107 | explicit Euler on a particle: position += dt v_mapped and velocity += dt a on the first dim components; the rest is kept |
| Solver.UpdateParticle | src/MFEMMPMSolver.cpp:94-108 | the loop body fails iff the particle's material id is unregistered. Otherwise it applies that material's strain-rate and stress updates, then the Euler move |
| Solver.UpdateParticles | src/MFEMMPMSolver.cpp:94-108 | the particle loop succeeds iff every id is registered, each particle then getting its own update; otherwise the first unregistered id stops it |
| Solver.UpdatedParticlesFit | src/MFEMMPMSolver.cpp:94-108 | the updated particles fit the grid's dimension again and keep their material ids |
| Solver.Mapped | src/MFEMMPMSolver.cpp:78-88 | after the grid phase and the acceleration mapping the grid is ready and the particles fit it |
| Solver.TimeStep | src/MFEMMPMSolver.cpp:76-108 | a step fails iff some particle's material id is unregistered. Otherwise it keeps the loop invariant, the node set, the shape matrix and every id |
| Solver.StepParticle | src/MFEMMPMSolver.cpp:94-108 | each particle after a step is the loop body applied to it with its mapped velocity slot |
| Solver.StepKeepsRegistered | src/MFEMMPMSolver.cpp:96-98 | after a step every particle's material id is registered |
| Solver.StepOutcome | src/MFEMMPMSolver.cpp:76-108 | a step from particles with given ids fails iff one of those ids is unregistered, and otherwise keeps the ids |
| Solver.ParticleEuler | src/MFEMMPMSolver.cpp:104-107 | a particle the loop body returns has moved by one explicit Euler step |
| Solver.SlotIsMapped | src/MFEMMPMSolver.cpp:88-105 | the velocity slot a particle is advanced with holds exactly the velocity the in-place mapper gives it |
| Solver.InPlaceReadsPositions | src/BasicMFEMGridMapper.cpp:123-153 | the mapped velocity of a particle depends only on its position |
| Solver.StepAppliesMaterialLaw | src/MFEMMPMSolver.cpp:94-102 | after a step every particle's strain rate and stress are symmetric, and its stress is its registered law's stress |
| Solver.StepForgetsBuffer | src/MFEMMPMSolver.cpp:62-88 | the velocity buffer carries nothing between steps: the step's outcome does not depend on its contents |
| Solver.Start | src/MFEMMPMSolver.cpp:55-64 | the start state is the fresh grid assembled for the particles, with a zeroed buffer of \|particles\| dim entries |
| Solver.AssembledGridReady | src/MFEMMPMSolver.cpp:55-58 | assembling a fresh grid readies it for the grid updates |
| Solver.AssembledNodesReady | src/MFEMMPMSolver.cpp:55-58 | a fresh assembled grid has one node per mesh vertex, as the mapper needs |
| Solver.StartReady | src/MFEMMPMSolver.cpp:55-64 | the start state satisfies the time loop's invariant |
| Solver.Run | src/MFEMMPMSolver.cpp:76-116 | n time steps in a row, stopping at the first failure, fail iff n > 0 and some id is unregistered; otherwise they end ready, with the ids, node set and shape matrix they started with |
| Solver.RunLoop | src/MFEMMPMSolver.cpp:76-116 | the loop's outcome is exactly n time steps in a row, stopping at the first failure; it fails iff there is a pass and some id is unregistered, and otherwise ends ready with the ids, node set and shape matrix it started with |
| Solver.Solve | src/MFEMMPMSolver.cpp:53-121 | solve's outcome is the run of StepCount(tFinal, dt) time steps from the assembled state; it fails iff the loop runs and some particle's id is unregistered, and otherwise ends ready, with the particles' ids and the assembled node set |

## Left out

- MFEM's finite-element evaluation is a set of function parameters: point location, TransformBack, shape values and gradients, GetVectorValue and GetVectorGradient. The model takes their results as given.
- `MeshContainer.ElementId`: `getElementId` delegates to MFEM's FindPoints, so the model states only that the element is -1 or an existing one.
- `DirichletBoundaryCondition::getElements` and `getCoefficient` return MFEM objects and are not modelled.
- The mapper test's expected values ((3, 3) and (4, 4)) depend on MFEM's interpolation of the test mesh and are not reproduced. The mapper's formulas are proved for every interpolator instead.
- The hex-mesh element-id calls in the container test are made without checking their results; `MeshContainer.HexMeshFixture` states what the formula gives for those points.
- `Grid::update`, `updateShapeMatrix` and `updateMassMatrix` have empty bodies and have no counterpart. The getters `gradients`, `massMatrix()`, `nodes` and `massiveNodeSet` are the `Grid` datatype's fields.
- `Mass.Lumped`: the `MassMatrix` class is an empty shell in the source; the matrix it is meant to hold is specified from its header comment and Grid's use of it.
- `GridKinematics.UpdateNodalVelocitiesFromMomenta`: the source calls `clear()` on the velocity vector and then adds into indices the cleared vector no longer has. The model keeps the intended result, a vector of dim sums.
- `GridKinematics.UpdateNodalAccelerations`, `GridKinematics.MomentumBalance`, `OlevskyBatch.UpdateStresses`, `Olevsky.UpdateStress`: nonzero lumped masses, porosity and density are preconditions, because the source divides by them without a check. Floating-point infinities and NaN are not modelled.
- `Dirichlet.NewCondition`: requires the side id to be 0 or an existing attribute. The source writes the mask entry without a bound check.
- `GridMapper.UpdateParticleAccelerations`: the solver-level readiness (`NodesReady`) requires one grid node per mesh vertex. MFEM's grid function would otherwise read past the nodal field.
- `Registry`: the stored relationships are generic values; the solver stores Olevsky `Material`s. The solver uses the documented lookup (`Registry.Lookup`) rather than the as-written `get`; see Findings.
- `PMGen`: reading and writing mesh files, building the MFEM reference mesh (its `pow`-based element count) and the `numBoxes` argument are I/O or MFEM construction and are not modelled.
- Floating-point arithmetic is modelled with reals. The `(int)` casts are modelled as truncation toward zero without the 32-bit range limit.
- Progress printing in `solve` and the thermal solver are not part of this model.
- `Solver.Solve`: stated as a run of time steps (`Solver.Run`). Each particle's per-step behaviour follows from `Solver.StepParticle`, `Solver.SlotIsMapped` and `Solver.ParticleEuler`.
- `Solver.RunLoop`: the source's `for` loop over time steps is modelled by recursion on the number of passes left.
- `Solver.NumTimeSteps`, `Solver.StepCount`: the quotient is taken in real arithmetic. In doubles the step 1e-5 is stored slightly above one hundred-thousandth, so the quotient 10 / 1e-5 falls just below 1000000; a double quotient just below a whole number truncates one lower, which gives 999999 steps and 1000000 passes for the source's values.
- `MeshContainer.RegularGridIndex`, `MeshContainer.ElementIdFromHexMesh`, and through `GridMapper.MeshReady` also `GridMapper.MapperElementId`, `GridMapper.UpdateParticleAccelerations`, `GridMapper.UpdateParticleVelocities`, `GridMapper.BufferVelocities`, `Olevsky.UpdateStrainRate`, `Solver.UpdateParticle`, `Solver.UpdateParticles`, `Solver.Mapped`, `Solver.TimeStep`, `Solver.Run`, `Solver.RunLoop` and `Solver.Solve` (whose invariant `Solver.Ready` includes it): require a nonzero cell side (distinct x coordinates of the first two vertices) when the dimension is 2 or 3. The source divides by the side without a check; a zero side gives a floating-point infinity or NaN, which the model does not represent.
- `MeshContainer.WellFormed`: assumes one dof per element vertex (lowest order). The source reads the order from the input (src/MeshContainer.cpp:47) and relies on one dof per vertex when it pairs shape values with vertex ids (src/MeshContainer.cpp:213).
- `PMGen.Generate`: uses the intended dimension guard. As written, the generator goes on for a dimension other than 2 or 3 (see Findings).
- `GridKinematics.UpdateNodalAccelerations`: its ensures states the failure case and what stays. The acceleration of each massive node, m a = f_int + f_ext, is stated by `GridKinematics.AccelerationsObeyNewton` for a valid grid.
- `GridKinematics.UpdateNodalVelocitiesFromMomenta`: its ensures states only that the nodes alone change. The momentum balance on each massive node is stated by `GridKinematics.MomentumBalance` for an ordered node set.
- `GridKinematics.UpdateNodalVelocities`: its ensures states only what changes. The Euler kick on each node is stated by `GridKinematics.EulerKicksMassiveNodes`.

## Findings

| source | as written | input that shows it | evidently intended | confidence | as-written member | corrected member |
|---|---|---|---|---|---|---|
| Kelvin/src/MFEMOlevskyLVCR.cpp:147-156 | the batch stress loop assigns the mean stress to each diagonal entry, overwriting the deviatoric term instead of adding to it | porosity 0.5, shear modulus 1, density 1, strain rate diag(1, -1): diag(1/4, 1/4) instead of diag(3/4, -1/4) | the per-point law: deviatoric term plus mean stress on the diagonal | not executed | OlevskyBatch.UpdateStressesAsWritten, OlevskyBatch.DiagonalDropsDeviator | OlevskyBatch.UpdateStresses |
| src/pmgen/PMGen.cpp:319-325 | for a dimension other than 2 or 3, `EXIT_FAILURE;` is evaluated as a statement and `main` goes on | a one-dimensional mesh continues into createReferenceMesh | `return EXIT_FAILURE` | not executed | PMGen.GuardLetsOneDimensionThrough | PMGen.DimensionGuard |
| Kelvin/src/ConstitutiveRelationshipService.cpp:63-66 | `get(id)` returns the relationship under id 0 whatever id is asked | ids 0 and 1 registered, asking for 1 returns id 0's relationship | the relationship registered under id, or an error | not executed | Registry.GetAsWritten, Registry.GetIgnoresId | Registry.Lookup |
