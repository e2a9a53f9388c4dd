/** Laws of the nodal forces computed in `GridForces`.

    The internal-force recurrence f := -m (f + g^T sigma) has a closed form:
    each product is weighted by the product of -m over its own update and
    every later one. The sum the source's comment announces,
    f = - sum m g^T sigma, is the reference it agrees with when at most one
    (particle, gradient) pair matches the node, and differs from otherwise.

    The external force is conserved: over the massive nodes, the forces add
    up to each particle's m b scaled by the total weight its shape row puts on
    those nodes, so to sum m b when the shape functions form a partition of
    unity. */
module ForceLaws {
  import opened Sums
  import opened LinAlg
  import opened KelvinBaseTypes
  import opened Points
  import opened ShapeMatrix
  import opened Mass
  import opened GridForces

  /** The factor that multiplies the t-th product in the final accumulator:
      the product of -m over updates t, t + 1, ... to the last. */
  function Weight(pushes: seq<Push>, t: nat): real
    decreases |pushes| - t
  {
    if t >= |pushes| then 1.0 else -pushes[t].mass * Weight(pushes, t + 1)
  }

  /** Component c of the t-th update's contribution to the final accumulator. */
  function PushTerm(pushes: seq<Push>, t: int, c: int): real
  {
    if 0 <= t < |pushes| then Weight(pushes, t) * At(pushes[t].product, c) else 0.0
  }

  /** The contributions of the first n updates. */
  function TermSum(pushes: seq<Push>, n: nat, c: int): real
  {
    if n == 0 then 0.0 else TermSum(pushes, n - 1, c) + PushTerm(pushes, n - 1, c)
  }

  /** The force the source's comment announces: minus the sum of m g^T sigma
      over the matching pairs. */
  function ReferenceForce(len: nat, pushes: seq<Push>): (f: Vec)
    ensures |f| == len
  {
    seq(len, c => -Sum(|pushes|, t => ReferenceTerm(pushes, t, c)))
  }

  function ReferenceTerm(pushes: seq<Push>, t: int, c: int): real
  {
    if 0 <= t < |pushes| then pushes[t].mass * At(pushes[t].product, c) else 0.0
  }

  /** Appending an update multiplies every earlier weight by its -m. */
  lemma {:induction false} WeightAppend(pushes: seq<Push>, q: Push, t: nat)
    requires t <= |pushes|
    ensures Weight(pushes + [q], t) == Weight(pushes, t) * -q.mass
    decreases |pushes| - t
  {
    var p := pushes + [q];
    if t == |pushes| {
      assert Weight(p, t + 1) == 1.0;
    } else {
      WeightAppend(pushes, q, t + 1);
      assert p[t] == pushes[t];
      calc {
        Weight(p, t);
        -pushes[t].mass * Weight(p, t + 1);
        -pushes[t].mass * (Weight(pushes, t + 1) * -q.mass);
        (-pushes[t].mass * Weight(pushes, t + 1)) * -q.mass;
      }
    }
  }

  /** The closed form of the recurrence: the starting accumulator weighted
      by every -m, plus each product weighted by the -m of its own and all
      later updates. */
  lemma {:induction false} RecurClosedForm(f: Vec, pushes: seq<Push>, c: int)
    requires 0 <= c < |f|
    ensures Recur(f, pushes)[c] == Weight(pushes, 0) * f[c] + TermSum(pushes, |pushes|, c)
  {
    if |pushes| > 0 {
      RecurClosedForm(f, pushes[..|pushes| - 1], c);
      ClosedFormSnoc(f, pushes, c);
    }
  }

  /** The inductive step of the closed form: if it holds for all but the
      last update, it holds for all of them. */
  lemma {:induction false} ClosedFormSnoc(f: Vec, pushes: seq<Push>, c: int)
    requires 0 <= c < |f| && |pushes| > 0
    requires var init := pushes[..|pushes| - 1];
      Recur(f, init)[c] == Weight(init, 0) * f[c] + TermSum(init, |init|, c)
    ensures Recur(f, pushes)[c] == Weight(pushes, 0) * f[c] + TermSum(pushes, |pushes|, c)
  {
    var init := pushes[..|pushes| - 1];
    var m, a := pushes[|pushes| - 1].mass, At(pushes[|pushes| - 1].product, c);
    var before, w, sum := Recur(f, init)[c], Weight(init, 0), TermSum(init, |init|, c);
    RecurLast(f, pushes, c, before, m, a);
    ClosedFormParts(pushes, c, w, m, sum, a);
    ClosedFormStep(m, a, before, w, f[c], sum, Weight(pushes, 0), TermSum(pushes, |pushes|, c));
  }

  /** The last update of the recurrence, read at component c: with before
      the accumulator's component after the earlier updates, and m and a the
      last update's mass and product component. */
  lemma {:induction false} RecurLast(f: Vec, pushes: seq<Push>, c: int, before: real, m: real, a: real)
    requires 0 <= c < |f| && |pushes| > 0
    requires before == Recur(f, pushes[..|pushes| - 1])[c]
    requires m == pushes[|pushes| - 1].mass && a == At(pushes[|pushes| - 1].product, c)
    ensures Recur(f, pushes)[c] == -m * (before + a)
  {
    var n := |pushes| - 1;
    var r, q := Recur(f, pushes[..n]), pushes[n];
    assert Recur(f, pushes) == Step(r, q);
    StepAt(r, q, c);
  }

  /** One step of the recurrence, read at component c. */
  lemma {:induction false} StepAt(f: Vec, push: Push, c: int)
    requires 0 <= c < |f|
    ensures Step(f, push)[c] == -push.mass * (f[c] + At(push.product, c))
  {
  }

  /** The weight and the contributions of a list of updates, in terms of
      the weight w and the contributions sum of all but its last update,
      whose mass is m and product component a. */
  lemma {:induction false} ClosedFormParts(pushes: seq<Push>, c: int, w: real, m: real, sum: real, a: real)
    requires |pushes| > 0
    requires w == Weight(pushes[..|pushes| - 1], 0) && sum == TermSum(pushes[..|pushes| - 1], |pushes| - 1, c)
    requires m == pushes[|pushes| - 1].mass && a == At(pushes[|pushes| - 1].product, c)
    ensures Weight(pushes, 0) == w * -m
    ensures TermSum(pushes, |pushes|, c) == -m * sum + -m * a
  {
    var n := |pushes| - 1;
    var init, q := pushes[..n], pushes[n];
    assert pushes == init + [q];
    WeightAppend(init, q, 0);
    EarlierTermsScale(init, q, c, n);
    LastTerm(pushes, c);
  }

  lemma {:induction false} ClosedFormStep(m: real, a: real, before: real, w: real, f: real, sum: real, weight: real, terms: real)
    requires before == w * f + sum
    requires weight == w * -m && terms == -m * sum + -m * a
    ensures -m * (before + a) == weight * f + terms
  {
  }

  /** Appending an update scales the contributions of the earlier ones by
      its -m. */
  lemma {:induction false} EarlierTermsScale(init: seq<Push>, q: Push, c: int, n: nat)
    requires n <= |init|
    ensures TermSum(init + [q], n, c) == -q.mass * TermSum(init, n, c)
  {
    if n > 0 {
      EarlierTermsScale(init, q, c, n - 1);
      PushTermAppend(init, q, n - 1, c);
      Distribute(-q.mass, TermSum(init, n - 1, c), PushTerm(init, n - 1, c));
    }
  }

  lemma {:induction false} Distribute(m: real, a: real, b: real)
    ensures m * a + m * b == m * (a + b)
  {
  }

  lemma {:induction false} LastTerm(pushes: seq<Push>, c: int)
    requires |pushes| > 0
    ensures PushTerm(pushes, |pushes| - 1, c) == -pushes[|pushes| - 1].mass * At(pushes[|pushes| - 1].product, c)
  {
    assert Weight(pushes, |pushes|) == 1.0;
  }

  lemma {:induction false} PushTermAppend(init: seq<Push>, q: Push, t: int, c: int)
    requires 0 <= t < |init|
    ensures PushTerm(init + [q], t, c) == -q.mass * PushTerm(init, t, c)
  {
    WeightAppend(init, q, t);
    assert (init + [q])[t] == init[t];
  }


  /** With no update the force stays cleared; with exactly one update the
      recurrence and the announced sum agree. */
  lemma {:induction false} AtMostOneUpdateAgrees(len: nat, pushes: seq<Push>)
    requires |pushes| <= 1
    ensures Recur(Zeros(len), pushes) == ReferenceForce(len, pushes)
  {
    forall c | 0 <= c < len
      ensures Recur(Zeros(len), pushes)[c] == ReferenceForce(len, pushes)[c]
    {
      OneUpdateAgreesAt(len, pushes, c);
    }
  }

  lemma {:induction false} OneUpdateAgreesAt(len: nat, pushes: seq<Push>, c: int)
    requires |pushes| <= 1 && 0 <= c < len
    ensures Recur(Zeros(len), pushes)[c] == -Sum(|pushes|, t => ReferenceTerm(pushes, t, c))
  {
    if |pushes| == 1 {
      RecurClosedForm(Zeros(len), pushes, c);
      var m, a := pushes[0].mass, At(pushes[0].product, c);
      assert Weight(pushes, 0) == -m;
      assert TermSum(pushes, 1, c) == -m * a;
      assert Sum(1, t => ReferenceTerm(pushes, t, c)) == m * a;
    }
  }

  /** Two unit-mass updates with products a and b leave a - b in the
      accumulator where the announced sum is -(a + b): they differ whenever
      the first product is not zero. */
  lemma {:induction false} TwoUpdatesDiffer(a: real, b: real)
    ensures Recur(Zeros(1), [Push(1.0, [a]), Push(1.0, [b])]) == [a - b]
    ensures ReferenceForce(1, [Push(1.0, [a]), Push(1.0, [b])]) == [-(a + b)]
  {
    var pushes := [Push(1.0, [a]), Push(1.0, [b])];
    assert pushes[..1] == [Push(1.0, [a])];
    assert pushes[..1][..0] == [];
    assert Recur(Zeros(1), pushes[..1]) == [-a];
    assert Sum(2, t => ReferenceTerm(pushes, t, 0)) == a + b;
  }

  /** A particle without a gradient tagged x makes no update to the force
      at x. */
  lemma {:induction false} NoMatchNoPush(x: int, mp: MaterialPoint, grads: seq<Gradient>)
    requires forall t :: 0 <= t < |grads| ==> grads[t].nodeId != x
    ensures GradientPushes(x, mp, grads) == []
  {
    if |grads| > 0 {
      NoMatchNoPush(x, mp, grads[..|grads| - 1]);
    }
  }

  /** A node that no stored gradient is tagged with gets a zero internal
      force. */
  lemma {:induction false} UntaggedNodeHasZeroForce(len: nat, x: int, particles: seq<MaterialPoint>,
                                                    gm: map<int, seq<Gradient>>, n: nat)
    requires n <= |particles|
    requires forall p, t :: 0 <= p < n && 0 <= t < |GradsOf(gm, p)| ==> GradsOf(gm, p)[t].nodeId != x
    ensures Pushes(x, particles, gm, n) == []
    ensures n == |particles| ==> InternalForceAt(len, x, particles, gm) == Zeros(len)
  {
    if n > 0 {
      UntaggedNodeHasZeroForce(len, x, particles, gm, n - 1);
      NoMatchNoPush(x, particles[n - 1], GradsOf(gm, n - 1));
    }
  }

  /** Particle p's contribution to component l summed over the massive
      nodes. */
  function ParticleLoad(rows: seq<ShapeRow>, particles: seq<MaterialPoint>, nodes: seq<int>, p: int, l: int): real
  {
    if 0 <= p < |particles| then
      particles[p].mass * At(particles[p].bodyForce, l) * RowTotal(RowAt(rows, p), nodes)
    else 0.0
  }

  function NodeLoad(rows: seq<ShapeRow>, particles: seq<MaterialPoint>, nodes: seq<int>, k: int, l: int): real
  {
    Sum(|particles|, p => ExternalTerm(rows, particles, IdAt(nodes, k), p, l))
  }

  lemma {:induction false} ParticleLoadIsColumn(rows: seq<ShapeRow>, particles: seq<MaterialPoint>, nodes: seq<int>, p: int, l: int)
    requires 0 <= p < |particles|
    ensures Sum(|nodes|, k => ExternalTerm(rows, particles, IdAt(nodes, k), p, l)) == ParticleLoad(rows, particles, nodes, p, l)
  {
    var c := particles[p].mass * At(particles[p].bodyForce, l);
    forall k | 0 <= k < |nodes|
      ensures ExternalTerm(rows, particles, IdAt(nodes, k), p, l) == c * Val(RowAt(rows, p), IdAt(nodes, k))
    {
    }
    SumScale(|nodes|, c, k => Val(RowAt(rows, p), IdAt(nodes, k)), k => ExternalTerm(rows, particles, IdAt(nodes, k), p, l));
  }

  /** Conservation of the external force: summed over the massive nodes,
      component l of the nodal external forces is the sum over particles of
      m b_l times the particle's total shape weight on those nodes. */
  lemma {:induction false} ExternalForceTotal(rows: seq<ShapeRow>, particles: seq<MaterialPoint>, nodes: seq<int>, l: int)
    ensures Sum(|nodes|, k => NodeLoad(rows, particles, nodes, k, l))
         == Sum(|particles|, p => ParticleLoad(rows, particles, nodes, p, l))
  {
    var f := (k: int, p: int) => ExternalTerm(rows, particles, IdAt(nodes, k), p, l);
    SumSwap(|nodes|, |particles|, f);
    forall k | 0 <= k < |nodes|
      ensures NodeLoad(rows, particles, nodes, k, l) == Sum(|particles|, p => f(k, p))
    {
      SumExt(|particles|, p => ExternalTerm(rows, particles, IdAt(nodes, k), p, l), p => f(k, p));
    }
    SumExt(|nodes|, k => NodeLoad(rows, particles, nodes, k, l), k => Sum(|particles|, p => f(k, p)));
    forall p | 0 <= p < |particles|
      ensures ParticleLoad(rows, particles, nodes, p, l) == Sum(|nodes|, k => f(k, p))
    {
      ParticleLoadIsColumn(rows, particles, nodes, p, l);
      SumExt(|nodes|, k => ExternalTerm(rows, particles, IdAt(nodes, k), p, l), k => f(k, p));
    }
    SumExt(|particles|, p => ParticleLoad(rows, particles, nodes, p, l), p => Sum(|nodes|, k => f(k, p)));
  }

  /** Under a partition of unity the external forces on the massive nodes
      add up to the total body force sum m b. */
  lemma {:induction false} PartitionOfUnityExternal(rows: seq<ShapeRow>, particles: seq<MaterialPoint>, nodes: seq<int>, l: int)
    requires |particles| <= |rows|
    requires forall p :: 0 <= p < |rows| ==> RowTotal(rows[p], nodes) == 1.0
    ensures Sum(|nodes|, k => NodeLoad(rows, particles, nodes, k, l))
         == Sum(|particles|, p => BodyLoad(particles, p, l))
  {
    ExternalForceTotal(rows, particles, nodes, l);
    forall p | 0 <= p < |particles|
      ensures ParticleLoad(rows, particles, nodes, p, l) == BodyLoad(particles, p, l)
    {
      assert RowTotal(RowAt(rows, p), nodes) == 1.0;
    }
    SumExt(|particles|, p => ParticleLoad(rows, particles, nodes, p, l), p => BodyLoad(particles, p, l));
  }

  function BodyLoad(particles: seq<MaterialPoint>, p: int, l: int): real
  {
    if 0 <= p < |particles| then particles[p].mass * At(particles[p].bodyForce, l) else 0.0
  }

  /** The node loads are the external forces the grid stores: slot k of
      `ExternalForcesOf` is the node load of its tag. */
  lemma {:induction false} NodeLoadIsStoredForce(forces: seq<ForceVector>, rows: seq<ShapeRow>, particles: seq<MaterialPoint>,
                              nodes: seq<int>, k: int, l: int)
    requires 0 <= k < |forces| == |nodes|
    requires forces[k].nodeId == nodes[k]
    requires 0 <= l < |forces[k].values|
    ensures ExternalForcesOf(forces, rows, particles)[k].values[l] == NodeLoad(rows, particles, nodes, k, l)
  {
  }
}
