/**
  The parameters of a regular bipartite graph: how many variables and
  constraints it has and the degree every node on each side must reach.
 */
module Samplers {

  /**
    A sampler as the builder produces it, with the node counts stored
    explicitly. Only a balanced sampler describes a graph that can exist:
    both sides must offer the same number of edge endpoints (stubs).
   */
  datatype Sampler = Sampler(
    variableDegree: nat,
    constraintDegree: nat,
    numberOfVariables: nat,
    numberOfConstraints: nat)
  {
    /** Both sides offer the same number of stubs. */
    predicate Balanced()
    {
      numberOfVariables * variableDegree == numberOfConstraints * constraintDegree
    }

    /**
      No node asks for more neighbours than the other side has nodes: a
      variable's degree is at most the number of constraints, and a
      constraint's degree at most the number of variables, whenever there is
      such a node. Without this, no graph without repeated edges meets the
      degrees.
     */
    predicate FitsSimpleGraph()
    {
      && (numberOfVariables == 0 || variableDegree <= numberOfConstraints)
      && (numberOfConstraints == 0 || constraintDegree <= numberOfVariables)
    }

    /** The number of edges of every graph drawn from this sampler. */
    function NumberOfEdges(): (n: nat)
      ensures Balanced() ==> n == numberOfConstraints * constraintDegree
    {
      numberOfVariables * variableDegree
    }
  }

  /**
    The sampling engine's form of a sampler: a scaling factor ties both node
    counts to the two degrees, so the stub counts agree by construction.
   */
  function ScaledSampler(variableDegree: nat, constraintDegree: nat, scalingFactor: nat): (s: Sampler)
    ensures s.variableDegree == variableDegree && s.constraintDegree == constraintDegree
    ensures s.numberOfVariables == constraintDegree * scalingFactor
    ensures s.numberOfConstraints == variableDegree * scalingFactor
    ensures s.Balanced() && s.FitsSimpleGraph()
    ensures s.NumberOfEdges() == variableDegree * constraintDegree * scalingFactor
  {
    var s := Sampler(variableDegree, constraintDegree, constraintDegree * scalingFactor, variableDegree * scalingFactor);
    assert s.numberOfVariables * variableDegree == variableDegree * constraintDegree * scalingFactor;
    assert s.numberOfConstraints * constraintDegree == variableDegree * constraintDegree * scalingFactor;
    assert scalingFactor > 0 ==> variableDegree <= variableDegree * scalingFactor && constraintDegree <= constraintDegree * scalingFactor;
    s
  }
}
