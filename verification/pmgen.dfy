/** The particle generator (src/pmgen/PMGen.cpp): it squares the bounding
    box of a sample mesh, sizes a background mesh twice as large, and shifts
    the sample's particles so that they sit inside the background mesh.
    Reading the mesh, building the background mesh and writing files are
    not modelled; the particles and the bounding box are inputs. */
module PMGen {
  import opened Results
  import opened LinAlg
  import opened Points

  /** The side lengths max(i) - min(i) of the first dim axes. */
  function SideLengths(dim: nat, min: Vec, max: Vec): (len: Vec)
    requires |min| >= dim && |max| >= dim
    ensures |len| == dim && forall i :: 0 <= i < dim ==> len[i] == max[i] - min[i]
  {
    seq(dim, i requires 0 <= i < dim => max[i] - min[i])
  }

  /** The linear search of `checkBoundingBox` over the first n lengths: the
      index of the first strictly largest positive length, with that
      length; index 0 and length 0 when no length is positive. */
  function MaxScan(len: Vec, n: nat): (r: (nat, real))
    requires n <= |len|
    ensures r.1 >= 0.0
    ensures forall j :: 0 <= j < n ==> len[j] <= r.1
    ensures r.1 == 0.0 ==> r.0 == 0
    ensures r.1 > 0.0 ==> r.0 < n && len[r.0] == r.1 && forall j :: 0 <= j < r.0 ==> len[j] < r.1
  {
    if n == 0 then (0, 0.0)
    else
      var prev := MaxScan(len, n - 1);
      if len[n - 1] > prev.1 then (n - 1, len[n - 1]) else prev
  }

  /** `maxIndex`: the first axis with the strictly largest positive side. */
  function MaxIndex(len: Vec): (k: nat)
    ensures k == 0 || k < |len|
  {
    MaxScan(len, |len|).0
  }

  /** The maximum corner after `checkBoundingBox`: every axis but the
      longest gets the longest side's length; axes past dim are untouched. */
  function SquareBox(dim: nat, min: Vec, max: Vec): (sq: Vec)
    requires |min| >= dim && |max| >= dim
    ensures |sq| == |max|
    ensures forall i :: 0 <= i < dim ==> sq[i] - min[i] == SideLengths(dim, min, max)[MaxIndex(SideLengths(dim, min, max))]
    ensures dim > 0 ==> sq[MaxIndex(SideLengths(dim, min, max))] == max[MaxIndex(SideLengths(dim, min, max))]
    ensures forall i :: dim <= i < |max| ==> sq[i] == max[i]
  {
    var len := SideLengths(dim, min, max);
    var k := MaxIndex(len);
    seq(|max|, i requires 0 <= i < |max| => if i < dim && i != k then max[i] + (len[k] - len[i]) else max[i])
  }

  /** The two loops of `checkBoundingBox`: the search, then the squaring.
      The minimum corner is read and never written. */
  method CheckBoundingBox(dim: nat, min: Vec, max: Vec) returns (sq: Vec)
    requires |min| >= dim && |max| >= dim
    ensures sq == SquareBox(dim, min, max)
  {
    var length := SideLengths(dim, min, max);
    var maxIndex, maxLength := 0, 0.0;
    var i := 0;
    while i < dim
      invariant 0 <= i <= dim
      invariant (maxIndex, maxLength) == MaxScan(length, i)
    {
      if length[i] > maxLength {
        maxLength := length[i];
        maxIndex := i;
      }
      i := i + 1;
    }
    sq := max;
    i := 0;
    while i < dim
      invariant 0 <= i <= dim
      invariant |sq| == |max|
      invariant forall q :: 0 <= q < |max| ==>
        sq[q] == if q < i && q != maxIndex then max[q] + (length[maxIndex] - length[q]) else max[q]
    {
      if i != maxIndex {
        sq := sq[i := sq[i] + (length[maxIndex] - length[i])];
      }
      i := i + 1;
    }
  }

  /** The squared box is a square (cube): when some side is positive, every
      side has the length of the longest original side. */
  lemma {:induction false} SquaredSidesEqualLongest(dim: nat, min: Vec, max: Vec)
    requires |min| >= dim && |max| >= dim
    requires exists i :: 0 <= i < dim && max[i] - min[i] > 0.0
    ensures var sq := SquareBox(dim, min, max);
      forall i, j :: 0 <= i < dim && 0 <= j < dim ==>
        sq[i] - min[i] >= max[j] - min[j] && sq[i] - min[i] == sq[j] - min[j]
  {
    var len := SideLengths(dim, min, max);
    var i0 :| 0 <= i0 < dim && max[i0] - min[i0] > 0.0;
    assert len[i0] > 0.0;
  }

  /** Squaring an already squared box changes nothing. */
  lemma {:induction false} SquareBoxIdempotent(dim: nat, min: Vec, max: Vec)
    requires |min| >= dim && |max| >= dim
    ensures SquareBox(dim, min, SquareBox(dim, min, max)) == SquareBox(dim, min, max)
  {
    var sq := SquareBox(dim, min, max);
    var len := SideLengths(dim, min, sq);
    var k := MaxIndex(len);
    if dim > 0 {
      assert forall i :: 0 <= i < dim ==> len[i] == len[0];
      assert len[k] == len[0];
    }
  }

  /** The reference (background) mesh: its side on each axis is twice the
      squared box's side, so the box's side is the reference centre. */
  function ReferenceSides(dim: nat, min: Vec, sq: Vec): (sides: Vec)
    requires |min| >= dim && |sq| >= dim
    ensures |sides| == dim && forall i :: 0 <= i < dim ==> sides[i] == 2.0 * (sq[i] - min[i])
  {
    seq(dim, i requires 0 <= i < dim => 2.0 * (sq[i] - min[i]))
  }

  /** The particle shift: the reference centre, halved on the axes where
      the box starts at or right of the origin. */
  function Shift(dim: nat, min: Vec, sq: Vec): (shift: Vec)
    requires |min| >= dim && |sq| >= dim
    ensures |shift| == dim
  {
    seq(dim, i requires 0 <= i < dim => if min[i] >= 0.0 then (sq[i] - min[i]) / 2.0 else sq[i] - min[i])
  }

  /** A box that starts at the origin, or is centred on it, is moved so
      that its centre is the reference mesh's centre: the shifted corners
      add up to the reference side. */
  lemma {:induction false} ShiftCentresBox(dim: nat, min: Vec, sq: Vec, i: int)
    requires |min| >= dim && |sq| >= dim && 0 <= i < dim
    requires min[i] <= sq[i]
    requires min[i] == 0.0 || min[i] + sq[i] == 0.0
    ensures (min[i] + Shift(dim, min, sq)[i]) + (sq[i] + Shift(dim, min, sq)[i]) == ReferenceSides(dim, min, sq)[i]
  {
  }

  /** The shift loop: every particle's first dim coordinates move by the
      shift; nothing else changes. */
  function ShiftParticles(points: seq<Point>, shift: Vec, dim: nat): (r: seq<Point>)
    requires |shift| >= dim
    requires forall p :: 0 <= p < |points| ==> |points[p].pos| >= dim
    ensures |r| == |points|
    ensures forall p :: 0 <= p < |points| ==>
      && r[p].nDim == points[p].nDim && r[p].vel == points[p].vel && r[p].acc == points[p].acc
      && |r[p].pos| == |points[p].pos|
    ensures forall p, j :: 0 <= p < |points| && 0 <= j < |points[p].pos| ==>
      r[p].pos[j] - points[p].pos[j] == (if j < dim then shift[j] else 0.0)
  {
    seq(|points|, p requires 0 <= p < |points| =>
      points[p].(pos := seq(|points[p].pos|, j requires 0 <= j < |points[p].pos| =>
        if j < dim then points[p].pos[j] + shift[j] else points[p].pos[j])))
  }

  /** Shifting is a translation: the distance between any two particles
      along any axis is kept. */
  lemma {:induction false} ShiftKeepsSpacing(points: seq<Point>, shift: Vec, dim: nat, a: int, b: int, j: int)
    requires |shift| >= dim
    requires forall p :: 0 <= p < |points| ==> |points[p].pos| >= dim
    requires 0 <= a < |points| && 0 <= b < |points| && 0 <= j < dim
    ensures var r := ShiftParticles(points, shift, dim);
      r[a].pos[j] - r[b].pos[j] == points[a].pos[j] - points[b].pos[j]
  {
  }

  /** What `createReferenceMesh` computes that the model keeps: the
      reference mesh's sides and the shifted particles. */
  datatype Reference = Reference(sides: Vec, particles: seq<Point>)

  function CreateReferenceMesh(dim: nat, min: Vec, max: Vec, points: seq<Point>): (r: Reference)
    requires |min| >= dim && |max| >= dim
    requires forall p :: 0 <= p < |points| ==> |points[p].pos| >= dim
    ensures var sq := SquareBox(dim, min, max);
      && r.sides == ReferenceSides(dim, min, sq)
      && r.particles == ShiftParticles(points, Shift(dim, min, sq), dim)
  {
    var sq := SquareBox(dim, min, max);
    Reference(ReferenceSides(dim, min, sq), ShiftParticles(points, Shift(dim, min, sq), dim))
  }

  /** The outcome of `main`'s dimension check. */
  datatype Guard = Continue | Exit(code: int)

  const ExitFailure := 1

  /** The check as written: for a dimension other than 2 or 3 it prints a
      message and evaluates `EXIT_FAILURE;` as a statement, which does not
      leave `main`, so generation always goes on. */
  function DimensionGuardAsWritten(dim: int): Guard
  {
    Continue
  }

  /** The check as evidently intended: `return EXIT_FAILURE` for a
      dimension other than 2 or 3. */
  function DimensionGuard(dim: int): (g: Guard)
    ensures g == Continue <==> dim == 2 || dim == 3
    ensures g.Exit? ==> g.code == ExitFailure
  {
    if dim != 2 && dim != 3 then Exit(ExitFailure) else Continue
  }

  /** The input that shows it: a one-dimensional mesh goes on to
      `createReferenceMesh`, which for a dimension other than 2 or 3 leaves
      the reference mesh pointer unassigned and then dereferences it. */
  lemma {:induction false} GuardLetsOneDimensionThrough()
    ensures DimensionGuardAsWritten(1) == Continue
    ensures DimensionGuard(1) == Exit(ExitFailure)
  {
  }

  /** `main` after the mesh is read, with the intended check: a mesh of
      dimension 2 or 3 gets its reference mesh and shifted particles, any
      other dimension stops with EXIT_FAILURE. */
  function Generate(dim: nat, min: Vec, max: Vec, points: seq<Point>): (r: Result<Reference, int>)
    requires |min| >= dim && |max| >= dim
    requires forall p :: 0 <= p < |points| ==> |points[p].pos| >= dim
    ensures r.Failure? <==> dim != 2 && dim != 3
    ensures r.Failure? ==> r.error == ExitFailure
    ensures r.Success? ==> r.value == CreateReferenceMesh(dim, min, max, points)
  {
    match DimensionGuard(dim)
    case Exit(code) => Failure(code)
    case Continue => Success(CreateReferenceMesh(dim, min, max, points))
  }
}
