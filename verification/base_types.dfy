/** The tagged vector type shared by gradients and force vectors
    (Kelvin/src/KelvinBaseTypes.h). */
module KelvinBaseTypes {
  import opened LinAlg

  /** The node id of a vector not yet associated with a node. */
  const UnassignedNode: int := -1

  /** The dimension used when none is given. */
  const DefaultDimension: nat := 3

  /** A vector of `nDim` values tagged with the id of the node it belongs to. */
  datatype NodalValueVector = NodalValueVector(nDim: nat, nodeId: int, values: Vec) {

    /** The class invariant: the vector holds one value per dimension. */
    predicate Valid() {
      |values| == nDim
    }

    function Dimension(): nat {
      nDim
    }

    /** `clear()`: zeroes every value and keeps the node id. */
    function Clear(): (r: NodalValueVector)
      ensures r.Dimension() == Dimension() && r.nodeId == nodeId
      ensures |r.values| == |values|
      ensures forall i :: 0 <= i < |values| ==> r.values[i] == 0.0
    {
      NodalValueVector(nDim, nodeId, Zeros(|values|))
    }
  }

  /** The shape-function gradient of one node at one particle. */
  type Gradient = NodalValueVector

  /** The force at one grid node. */
  type ForceVector = NodalValueVector

  /** The constructor `NodalValueVector(dim = 3)`. */
  function NewNodalValueVector(dim: nat := DefaultDimension): (v: NodalValueVector)
    ensures v.Valid() && v.Dimension() == dim
    ensures v.nodeId == UnassignedNode
    ensures forall i :: 0 <= i < dim ==> v.values[i] == 0.0
  {
    NodalValueVector(dim, UnassignedNode, Zeros(dim))
  }

  /** The copy constructor. */
  function CopyNodalValueVector(other: NodalValueVector): (v: NodalValueVector)
    ensures v.Dimension() == other.Dimension() && v.nodeId == other.nodeId
    ensures v.values == other.values
  {
    NodalValueVector(other.nDim, other.nodeId, other.values)
  }

  /** Clearing keeps the class invariant and is idempotent; clearing a copy
      gives the same vector as clearing the original. */
  lemma {:induction false} ClearKeepsInvariant(v: NodalValueVector)
    ensures v.Valid() ==> v.Clear().Valid()
    ensures v.Clear().Clear() == v.Clear()
    ensures CopyNodalValueVector(v).Clear() == v.Clear()
  {
  }

  /** The default and two-dimensional vectors of the construction test. */
  lemma {:induction false} ConstructionFixture()
    ensures NewNodalValueVector().Dimension() == 3 && |NewNodalValueVector().values| == 3
    ensures NewNodalValueVector().nodeId == -1
    ensures NewNodalValueVector(2).Dimension() == 2 && |NewNodalValueVector(2).values| == 2
    ensures NewNodalValueVector(2).nodeId == -1
  {
  }
}
