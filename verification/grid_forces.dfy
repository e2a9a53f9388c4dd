/** The nodal forces of the grid (`Grid::internalForces`,
    `Grid::externalForces` and `computeVectorMatrixProduct` in
    Kelvin/src/Grid.cpp).

    The internal force is NOT the sum the source's comment announces
    (f = - sum_p m_p G^T sigma_p). For each (particle, gradient) pair whose
    gradient is tagged with the force's node, the code adds g^T sigma into
    the accumulator and then multiplies the whole accumulator by -m_p. So
    the force is the recurrence f := -m (f + g^T sigma) over the matching
    pairs, in particle order and, within a particle, gradient order. */
module GridForces {
  import opened Sums
  import opened LinAlg
  import opened KelvinBaseTypes
  import opened Points
  import opened NodeSet
  import opened ShapeMatrix
  import opened Mass
  import opened Grid

  /** `computeVectorMatrixProduct(vec, matrix, result)`: adds vec^T matrix
      into the first |vec| entries of the result. */
  function AddVecMat(result: Vec, vec: Vec, m: Mat): (r: Vec)
    ensures |r| == |result|
    ensures forall c :: 0 <= c < |result| ==>
      r[c] == result[c] + (if c < |vec| then Sum(|vec|, k => At(vec, k) * Entry(m, k, c)) else 0.0)
  {
    var prod := VecMat(vec, m);
    seq(|result|, c requires 0 <= c < |result| => result[c] + At(prod, c))
  }

  /** The identity matrix of size n. */
  function Identity(n: nat): (m: Mat)
    ensures IsMatrix(m, n, n)
  {
    seq(n, i => seq(n, j => if i == j then 1.0 else 0.0))
  }

  /** The product is the row-vector product: with the identity matrix it
      adds the vector itself. */
  lemma {:induction false} AddVecMatIdentity(result: Vec, vec: Vec)
    requires |vec| == |result|
    ensures AddVecMat(result, vec, Identity(|vec|)) == seq(|result|, c requires 0 <= c < |result| => result[c] + vec[c])
  {
    var n := |vec|;
    forall c | 0 <= c < n
      ensures Sum(n, k => At(vec, k) * Entry(Identity(n), k, c)) == vec[c]
    {
      SumSingle(n, k => At(vec, k) * Entry(Identity(n), k, c), c);
    }
  }

  /** One update of an internal-force accumulator: the mass of the particle
      and the product g^T sigma of its matching gradient. */
  datatype Push = Push(mass: real, product: Vec)

  /** The gradients stored for particle p; `_gradientMap[p]` reads an empty
      list for a particle that has none. */
  function GradsOf(gm: map<int, seq<Gradient>>, p: int): seq<Gradient>
  {
    if p in gm then gm[p] else []
  }

  /** The updates particle mp makes to the force at node x: one per gradient
      tagged x, in gradient order. */
  function GradientPushes(x: int, mp: MaterialPoint, grads: seq<Gradient>): (r: seq<Push>)
    ensures |r| <= |grads|
  {
    if |grads| == 0 then []
    else
      var last := grads[|grads| - 1];
      GradientPushes(x, mp, grads[..|grads| - 1])
        + (if last.nodeId == x then [Push(mp.mass, VecMat(last.values, mp.stress))] else [])
  }

  /** The updates the first n particles make to the force at node x. */
  function Pushes(x: int, particles: seq<MaterialPoint>, gm: map<int, seq<Gradient>>, n: nat): seq<Push>
    requires n <= |particles|
  {
    if n == 0 then []
    else Pushes(x, particles, gm, n - 1) + GradientPushes(x, particles[n - 1], GradsOf(gm, n - 1))
  }

  /** The as-written update: add the product into the accumulator, then
      scale the whole accumulator by -m. */
  function Step(f: Vec, push: Push): (r: Vec)
    ensures |r| == |f|
  {
    var added := seq(|f|, c requires 0 <= c < |f| => f[c] + At(push.product, c));
    Scale(-push.mass, added)
  }

  /** The accumulator after applying the updates in order. */
  function Recur(f: Vec, pushes: seq<Push>): (r: Vec)
    ensures |r| == |f|
  {
    if |pushes| == 0 then f else Step(Recur(f, pushes[..|pushes| - 1]), pushes[|pushes| - 1])
  }

  lemma {:induction false} RecurAppend(f: Vec, a: seq<Push>, b: seq<Push>)
    ensures Recur(f, a + b) == Recur(Recur(f, a), b)
  {
    if |b| == 0 {
      assert a + b == a;
    } else {
      assert (a + b)[..|a + b| - 1] == a + b[..|b| - 1];
      RecurAppend(f, a, b[..|b| - 1]);
    }
  }

  /** The internal force at node x: starting from a cleared vector of
      length len, the recurrence over every matching (particle, gradient)
      pair. */
  function InternalForceAt(len: nat, x: int, particles: seq<MaterialPoint>, gm: map<int, seq<Gradient>>): (f: Vec)
    ensures |f| == len
  {
    Recur(Zeros(len), Pushes(x, particles, gm, |particles|))
  }

  /** Every force slot recomputed: tags and dimensions stay, values are
      replaced. */
  function InternalForcesOf(forces: seq<ForceVector>, particles: seq<MaterialPoint>, gm: map<int, seq<Gradient>>)
    : (r: seq<ForceVector>)
    ensures |r| == |forces|
    ensures forall k :: 0 <= k < |r| ==>
      r[k].nodeId == forces[k].nodeId && r[k].nDim == forces[k].nDim && |r[k].values| == |forces[k].values|
  {
    seq(|forces|, k requires 0 <= k < |forces| =>
      forces[k].(values := InternalForceAt(|forces[k].values|, forces[k].nodeId, particles, gm)))
  }

  /** The gradient map after `_gradientMap[j]` was read for j < n: every
      such key now exists, with an empty list if it was missing. */
  function TouchGradients(gm: map<int, seq<Gradient>>, n: nat): (r: map<int, seq<Gradient>>)
    ensures forall q :: q in r <==> q in gm || 0 <= q < n
    ensures forall q :: q in gm ==> r[q] == gm[q]
    ensures forall q :: GradsOf(r, q) == GradsOf(gm, q)
  {
    gm + map q | 0 <= q < n && q !in gm :: []
  }

  /** The loop body's two statements perform one step of the recurrence. */
  lemma {:induction false} StepIsProductThenScale(f: Vec, vec: Vec, mp: MaterialPoint)
    ensures Scale(-mp.mass, AddVecMat(f, vec, mp.stress)) == Step(f, Push(mp.mass, VecMat(vec, mp.stress)))
  {
  }

  lemma {:induction false} TouchNext(gm: map<int, seq<Gradient>>, j: nat)
    ensures var t := TouchGradients(gm, j);
      var u := if j in t then t else t[j := []];
      u == TouchGradients(gm, j + 1) && j in u && u[j] == GradsOf(gm, j)
  {
  }

  /** The particle loop's step: particle j's gradient loop continues the
      recurrence where the first j particles left it. */
  lemma {:induction false} PushesNext(f0: Vec, x: int, particles: seq<MaterialPoint>, gm: map<int, seq<Gradient>>,
                                      j: nat, f: Vec)
    requires j < |particles| && f == Recur(f0, Pushes(x, particles, gm, j))
    ensures Recur(f0, Pushes(x, particles, gm, j + 1)) == Recur(f, GradientPushes(x, particles[j], GradsOf(gm, j)))
  {
    RecurAppend(f0, Pushes(x, particles, gm, j), GradientPushes(x, particles[j], GradsOf(gm, j)));
  }

  /** The gradient loop of `internalForces` for one particle and the force
      at node x. */
  method GradientLoop(f0: Vec, x: int, mp: MaterialPoint, grads: seq<Gradient>) returns (f: Vec)
    ensures f == Recur(f0, GradientPushes(x, mp, grads))
  {
    f := f0;
    var k := 0;
    while k < |grads|
      invariant 0 <= k <= |grads|
      invariant f == Recur(f0, GradientPushes(x, mp, grads[..k]))
    {
      assert grads[..k + 1][..k] == grads[..k];
      if grads[k].nodeId == x {
        var push := Push(mp.mass, VecMat(grads[k].values, mp.stress));
        assert GradientPushes(x, mp, grads[..k + 1]) == GradientPushes(x, mp, grads[..k]) + [push];
        RecurAppend(f0, GradientPushes(x, mp, grads[..k]), [push]);
        assert Recur(f, [push]) == Step(f, push) by {
          assert [push][..0] == [];
        }
        StepIsProductThenScale(f, grads[k].values, mp);
        f := AddVecMat(f, grads[k].values, mp.stress);
        f := Scale(-mp.mass, f);
      } else {
        assert GradientPushes(x, mp, grads[..k + 1]) == GradientPushes(x, mp, grads[..k]) + [];
        assert GradientPushes(x, mp, grads[..k]) + [] == GradientPushes(x, mp, grads[..k]);
      }
      k := k + 1;
    }
    assert grads[..|grads|] == grads;
  }

  /** The particle loop of `internalForces` for the force at node x, with
      the side effect of touching the gradient map. */
  method ParticleLoop(f0: Vec, x: int, particles: seq<MaterialPoint>, gm0: map<int, seq<Gradient>>)
    returns (f: Vec, gm: map<int, seq<Gradient>>)
    ensures f == Recur(f0, Pushes(x, particles, gm0, |particles|))
    ensures gm == TouchGradients(gm0, |particles|)
  {
    f := f0;
    gm := gm0;
    var j := 0;
    while j < |particles|
      invariant 0 <= j <= |particles|
      invariant f == Recur(f0, Pushes(x, particles, gm0, j))
      invariant gm == TouchGradients(gm0, j)
    {
      f, gm := ParticleStep(f0, x, particles, gm0, j, f, gm);
      j := j + 1;
    }
  }

  /** One iteration of the particle loop: read (creating if missing)
      particle j's gradient list, then run its gradient loop. */
  method ParticleStep(f0: Vec, x: int, particles: seq<MaterialPoint>, gm0: map<int, seq<Gradient>>, j: nat,
                      f: Vec, gm: map<int, seq<Gradient>>)
    returns (f': Vec, gm': map<int, seq<Gradient>>)
    requires j < |particles|
    requires f == Recur(f0, Pushes(x, particles, gm0, j)) && gm == TouchGradients(gm0, j)
    ensures f' == Recur(f0, Pushes(x, particles, gm0, j + 1)) && gm' == TouchGradients(gm0, j + 1)
  {
    TouchNext(gm0, j);
    gm' := gm;
    if j !in gm' {
      gm' := gm'[j := []];
    }
    var grads := gm'[j];
    PushesNext(f0, x, particles, gm0, j, f);
    f' := GradientLoop(f, x, particles[j], grads);
  }

  /** `Grid::internalForces(particles)`: every internal force slot is
      cleared and recomputed; nothing else but the gradient map (whose
      missing particle entries are created empty) changes. */
  method InternalForces(g: Grid, particles: seq<MaterialPoint>) returns (r: Grid)
    ensures r.internalForces == InternalForcesOf(g.internalForces, particles, g.gradientMap)
    ensures r.gradientMap == if |g.internalForces| == 0 then g.gradientMap else TouchGradients(g.gradientMap, |particles|)
    ensures r == g.(internalForces := r.internalForces, gradientMap := r.gradientMap)
  {
    var forces := g.internalForces;
    var gm := g.gradientMap;
    var i := 0;
    while i < |forces|
      invariant 0 <= i <= |forces| == |g.internalForces|
      invariant forall k :: 0 <= k < i ==> forces[k] == InternalForcesOf(g.internalForces, particles, g.gradientMap)[k]
      invariant forall k :: i <= k < |forces| ==> forces[k] == g.internalForces[k]
      invariant gm == if i == 0 then g.gradientMap else TouchGradients(g.gradientMap, |particles|)
      invariant forall q :: GradsOf(gm, q) == GradsOf(g.gradientMap, q)
    {
      TouchAgain(g.gradientMap, gm, |particles|);
      var slot;
      slot, gm := ForceSlot(forces[i], particles, g.gradientMap, gm);
      forces := forces[i := slot];
      i := i + 1;
    }
    r := g.(internalForces := forces, gradientMap := gm);
  }

  /** One slot of `internalForces`: the slot is cleared and recomputed from
      the gradient lists, whose reads only create missing entries. */
  method ForceSlot(slot: ForceVector, particles: seq<MaterialPoint>, gm0: map<int, seq<Gradient>>,
                   gm: map<int, seq<Gradient>>)
    returns (r: ForceVector, gm': map<int, seq<Gradient>>)
    requires forall q :: GradsOf(gm, q) == GradsOf(gm0, q)
    ensures r == slot.(values := InternalForceAt(|slot.values|, slot.nodeId, particles, gm0))
    ensures gm' == TouchGradients(gm, |particles|)
  {
    var cleared := slot.Clear();
    assert cleared.values == Zeros(|slot.values|);
    var f;
    f, gm' := ParticleLoop(cleared.values, cleared.nodeId, particles, gm);
    PushesSameGrads(cleared.nodeId, particles, gm, gm0, |particles|);
    r := cleared.(values := f);
  }

  /** Touching an already touched map, or one with the same lists, gives
      the same map and keeps every list. */
  lemma {:induction false} TouchAgain(gm0: map<int, seq<Gradient>>, gm: map<int, seq<Gradient>>, n: nat)
    requires gm == gm0 || gm == TouchGradients(gm0, n)
    ensures TouchGradients(gm, n) == TouchGradients(gm0, n)
    ensures forall q :: GradsOf(TouchGradients(gm, n), q) == GradsOf(gm0, q)
  {
  }

  /** Pushes depend only on the gradient lists read. */
  lemma {:induction false} PushesSameGrads(x: int, particles: seq<MaterialPoint>, a: map<int, seq<Gradient>>,
                                           b: map<int, seq<Gradient>>, n: nat)
    requires n <= |particles|
    requires forall q :: GradsOf(a, q) == GradsOf(b, q)
    ensures Pushes(x, particles, a, n) == Pushes(x, particles, b, n)
  {
    if n > 0 {
      PushesSameGrads(x, particles, a, b, n - 1);
      assert GradsOf(a, n - 1) == GradsOf(b, n - 1);
    }
  }

  /** The external force at node x: for every particle whose shape row
      stores x, S(p, x) m_p b_p. */
  function ExternalForceAt(len: nat, x: int, rows: seq<ShapeRow>, particles: seq<MaterialPoint>): (f: Vec)
    ensures |f| == len
  {
    seq(len, l => Sum(|particles|, p => ExternalTerm(rows, particles, x, p, l)))
  }

  /** Particle p's share of component l of the external force at x, which
      is zero when its row does not store x. */
  function ExternalTerm(rows: seq<ShapeRow>, particles: seq<MaterialPoint>, x: int, p: int, l: int): real
  {
    if 0 <= p < |particles| then
      RowVal(rows, p, x) * particles[p].mass * At(particles[p].bodyForce, l)
    else 0.0
  }

  function ExternalForcesOf(forces: seq<ForceVector>, rows: seq<ShapeRow>, particles: seq<MaterialPoint>)
    : (r: seq<ForceVector>)
    ensures |r| == |forces|
    ensures forall k :: 0 <= k < |r| ==>
      r[k].nodeId == forces[k].nodeId && r[k].nDim == forces[k].nDim && |r[k].values| == |forces[k].values|
  {
    seq(|forces|, k requires 0 <= k < |forces| =>
      forces[k].(values := ExternalForceAt(|forces[k].values|, forces[k].nodeId, rows, particles)))
  }

  /** The particle loop of `externalForces` for the force at node x. */
  method ExternalParticleLoop(len: nat, x: int, rows: seq<ShapeRow>, particles: seq<MaterialPoint>)
    returns (f: Vec)
    requires |particles| <= |rows|
    ensures f == ExternalForceAt(len, x, rows, particles)
  {
    f := Zeros(len);
    var j := 0;
    while j < |particles|
      invariant 0 <= j <= |particles|
      invariant |f| == len
      invariant forall l :: 0 <= l < len ==> f[l] == Sum(j, p => ExternalTerm(rows, particles, x, p, l))
    {
      var mp := particles[j];
      if x in rows[j] {
        var l := 0;
        var before := f;
        while l < len
          invariant 0 <= l <= len && |f| == len
          invariant forall c :: 0 <= c < l ==> f[c] == before[c] + ExternalTerm(rows, particles, x, j, c)
          invariant forall c :: l <= c < len ==> f[c] == before[c]
        {
          f := f[l := f[l] + rows[j][x] * mp.mass * At(mp.bodyForce, l)];
          l := l + 1;
        }
      }
      j := j + 1;
    }
  }

  /** `Grid::externalForces(particles)`: every external force slot is
      cleared and recomputed; nothing else changes. */
  method ExternalForces(g: Grid, particles: seq<MaterialPoint>) returns (r: Grid)
    requires |particles| <= |g.shapeRows|
    ensures r == g.(externalForces := ExternalForcesOf(g.externalForces, g.shapeRows, particles))
  {
    var forces := g.externalForces;
    var i := 0;
    while i < |forces|
      invariant 0 <= i <= |forces| == |g.externalForces|
      invariant forall k :: 0 <= k < i ==> forces[k] == ExternalForcesOf(g.externalForces, g.shapeRows, particles)[k]
      invariant forall k :: i <= k < |forces| ==> forces[k] == g.externalForces[k]
    {
      var f := ExternalParticleLoop(|forces[i].values|, forces[i].nodeId, g.shapeRows, particles);
      forces := forces[i := forces[i].(values := f)];
      i := i + 1;
    }
    r := g.(externalForces := forces);
    assert r.externalForces == ExternalForcesOf(g.externalForces, g.shapeRows, particles);
  }
}
