/** The Dirichlet (essential) boundary condition
    (Kelvin/src/DirichletBoundaryCondition.cpp): a side id, a constant value
    and the boundary-attribute mask MFEM uses to select the constrained
    boundary. Only what the mask needs of the mesh, its largest boundary
    attribute, is kept; the finite element space is named by an id. */
module Dirichlet {

  datatype Condition = Condition(maxAttribute: nat, space: int, sideId: int, value: real, attributes: seq<int>)

  /** The constructor. The mask has one entry per boundary attribute
      1 .. maxAttribute; side 0 marks them all, side s > 0 marks attribute s
      alone (entry s - 1). The source writes entry s - 1 without checking
      it, so the side id must be 0 or an attribute of the mesh. */
  function NewCondition(maxAttribute: nat, space: int, sideId: int, value: real): (c: Condition)
    requires sideId == 0 || 1 <= sideId <= maxAttribute
    ensures c.maxAttribute == maxAttribute && c.space == space && c.sideId == sideId && c.value == value
    ensures |BoundaryAttributes(c)| == maxAttribute
    ensures forall k :: 0 <= k < maxAttribute ==>
      BoundaryAttributes(c)[k] == (if sideId == 0 || k == sideId - 1 then 1 else 0)
  {
    var mask := seq(maxAttribute, k requires 0 <= k < maxAttribute => if sideId == 0 then 1 else 0);
    var marked := if sideId == 0 then mask else mask[sideId - 1 := 1];
    Condition(maxAttribute, space, sideId, value, marked)
  }

  /** `getBoundaryAttributes()`: the stored mask. */
  function BoundaryAttributes(c: Condition): seq<int>
  {
    c.attributes
  }

  /** The number of marked attributes. */
  function Marked(mask: seq<int>): nat
  {
    if |mask| == 0 then 0 else Marked(mask[..|mask| - 1]) + (if mask[|mask| - 1] == 1 then 1 else 0)
  }

  /** A condition on one side constrains exactly one boundary attribute; a
      condition on side 0 constrains all of them. */
  lemma {:induction false} MarkedCount(maxAttribute: nat, space: int, sideId: int, value: real)
    requires sideId == 0 || 1 <= sideId <= maxAttribute
    ensures Marked(BoundaryAttributes(NewCondition(maxAttribute, space, sideId, value)))
         == if sideId == 0 then maxAttribute else 1
  {
    var mask := BoundaryAttributes(NewCondition(maxAttribute, space, sideId, value));
    MarkedUpTo(mask, maxAttribute, sideId);
    assert mask[..maxAttribute] == mask;
  }

  lemma {:induction false} MarkedUpTo(mask: seq<int>, n: nat, sideId: int)
    requires n <= |mask|
    requires forall k :: 0 <= k < |mask| ==> mask[k] == (if sideId == 0 || k == sideId - 1 then 1 else 0)
    ensures Marked(mask[..n]) == if sideId == 0 then n else if 1 <= sideId <= n then 1 else 0
  {
    if n > 0 {
      assert mask[..n][..n - 1] == mask[..n - 1];
      MarkedUpTo(mask, n - 1, sideId);
    }
  }

  /** The copy constructor copies the mesh, space, side id and value but
      not the mask, which starts empty. */
  function Copy(c: Condition): (r: Condition)
    ensures r.maxAttribute == c.maxAttribute && r.space == c.space
    ensures r.sideId == c.sideId && r.value == c.value
    ensures BoundaryAttributes(r) == []
  {
    c.(attributes := [])
  }

  /** A copy of a condition on a mesh with boundary attributes has lost its
      mask: it marks no attribute, although it names the same side. */
  lemma {:induction false} CopyLosesMask(maxAttribute: nat, space: int, sideId: int, value: real)
    requires sideId == 0 || 1 <= sideId <= maxAttribute
    requires maxAttribute > 0
    ensures var c := NewCondition(maxAttribute, space, sideId, value);
      && Copy(c).sideId == c.sideId
      && Marked(BoundaryAttributes(Copy(c))) == 0 < Marked(BoundaryAttributes(c))
  {
    MarkedCount(maxAttribute, space, sideId, value);
  }
}
