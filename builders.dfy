/**
  Validation of the sampler parameters: a builder accumulates the four values
  through chainable setters, and `Build` accepts them only when the stub
  counts of the two sides agree.
 */
module Builders {
  import opened Wrappers
  import opened Samplers
  import opened Graphs

  /** The four parameters of a rejected build, unchanged. */
  datatype InvalidParameters = InvalidParameters(
    numberOfVariables: nat,
    numberOfConstraints: nat,
    variableDegree: nat,
    constraintDegree: nat)

  class Builder {
    var variableDegree: nat
    var constraintDegree: nat
    var numberOfVariables: nat
    var numberOfConstraints: nat

    /** The default builder: every parameter is 0. */
    constructor ()
      ensures variableDegree == 0 && constraintDegree == 0
      ensures numberOfVariables == 0 && numberOfConstraints == 0
    {
      variableDegree, constraintDegree := 0, 0;
      numberOfVariables, numberOfConstraints := 0, 0;
    }

    method VariableDegree(degree: nat) returns (self: Builder)
      modifies this
      ensures self == this
      ensures variableDegree == degree
      ensures constraintDegree == old(constraintDegree)
      ensures numberOfVariables == old(numberOfVariables)
      ensures numberOfConstraints == old(numberOfConstraints)
    {
      variableDegree := degree;
      self := this;
    }

    method ConstraintDegree(degree: nat) returns (self: Builder)
      modifies this
      ensures self == this
      ensures constraintDegree == degree
      ensures variableDegree == old(variableDegree)
      ensures numberOfVariables == old(numberOfVariables)
      ensures numberOfConstraints == old(numberOfConstraints)
    {
      constraintDegree := degree;
      self := this;
    }

    method NumberOfVariables(n: nat) returns (self: Builder)
      modifies this
      ensures self == this
      ensures numberOfVariables == n
      ensures variableDegree == old(variableDegree)
      ensures constraintDegree == old(constraintDegree)
      ensures numberOfConstraints == old(numberOfConstraints)
    {
      numberOfVariables := n;
      self := this;
    }

    method NumberOfConstraints(n: nat) returns (self: Builder)
      modifies this
      ensures self == this
      ensures numberOfConstraints == n
      ensures variableDegree == old(variableDegree)
      ensures constraintDegree == old(constraintDegree)
      ensures numberOfVariables == old(numberOfVariables)
    {
      numberOfConstraints := n;
      self := this;
    }

    /**
      A sampler carrying the four parameters, or the error that carries them,
      depending on whether the two sides offer equally many stubs. Reading the
      builder only, it gives the same answer however often it is asked.
     */
    function Build(): (r: Result<Sampler, InvalidParameters>)
      reads this
      ensures r.Err? <==> numberOfVariables * variableDegree != numberOfConstraints * constraintDegree
      ensures r.Err? ==> r.error == InvalidParameters(numberOfVariables, numberOfConstraints, variableDegree, constraintDegree)
      ensures r.Ok? ==> r.value.Balanced()
      ensures r.Ok? ==> r.value == Sampler(variableDegree, constraintDegree, numberOfVariables, numberOfConstraints)
    {
      if numberOfVariables * variableDegree != numberOfConstraints * constraintDegree then
        Err(InvalidParameters(numberOfVariables, numberOfConstraints, variableDegree, constraintDegree))
      else
        Ok(Sampler(variableDegree, constraintDegree, numberOfVariables, numberOfConstraints))
    }

    /**
      `Build` with the check it lacks: besides unequal stub counts, a degree
      larger than the number of nodes on the other side is rejected, since no
      graph without repeated edges meets it. It agrees with `Build` on every
      parameter set it accepts.
     */
    function BuildChecked(): (r: Result<Sampler, InvalidParameters>)
      reads this
      ensures r.Err? <==>
        || numberOfVariables * variableDegree != numberOfConstraints * constraintDegree
        || !Sampler(variableDegree, constraintDegree, numberOfVariables, numberOfConstraints).FitsSimpleGraph()
      ensures r.Err? ==> r.error == InvalidParameters(numberOfVariables, numberOfConstraints, variableDegree, constraintDegree)
      ensures r.Ok? ==> r == Build() && r.value.Balanced() && r.value.FitsSimpleGraph()
    {
      match Build()
      case Ok(sampler) =>
        if sampler.FitsSimpleGraph() then Ok(sampler)
        else Err(InvalidParameters(numberOfVariables, numberOfConstraints, variableDegree, constraintDegree))
      case Err(error) => Err(error)
    }
  }

  /**
    The checked build rejects no parameters a graph can have: the degrees
    and node counts of any regular graph pass it.
   */
  lemma BuildCheckedAcceptsRegular(
    builder: Builder, variableNeighbors: seq<set<nat>>, constraintNeighbors: seq<set<nat>>, edges: seq<Edge>)
    requires Consistent(variableNeighbors, constraintNeighbors, edges)
    requires |variableNeighbors| == builder.numberOfVariables && |constraintNeighbors| == builder.numberOfConstraints
    requires forall v :: 0 <= v < |variableNeighbors| ==> |variableNeighbors[v]| == builder.variableDegree
    requires forall c :: 0 <= c < |constraintNeighbors| ==> |constraintNeighbors[c]| == builder.constraintDegree
    ensures builder.BuildChecked().Ok?
  {
    RegularGraphFits(
      Sampler(builder.variableDegree, builder.constraintDegree, builder.numberOfVariables, builder.numberOfConstraints),
      variableNeighbors, constraintNeighbors, edges);
  }

  /**
    A single variable and a single constraint, each of degree 2: the stub
    counts agree, so `Build` accepts, but the only graph without repeated
    edges has one edge, and the checked build rejects.
   */
  method UnfitParameters() returns (built: Result<Sampler, InvalidParameters>, checked: Result<Sampler, InvalidParameters>)
    ensures built == Ok(Sampler(2, 2, 1, 1)) && built.value.Balanced() && !built.value.FitsSimpleGraph()
    ensures checked == Err(InvalidParameters(1, 1, 2, 2))
  {
    var builder := Configured(1, 1, 2, 2);
    built := builder.Build();
    checked := builder.BuildChecked();
  }

  /** A builder with the four parameters set through the chained setters, in the order the tests use. */
  method Configured(numberOfVariables: nat, numberOfConstraints: nat, variableDegree: nat, constraintDegree: nat)
    returns (builder: Builder)
    ensures builder.numberOfVariables == numberOfVariables && builder.numberOfConstraints == numberOfConstraints
    ensures builder.variableDegree == variableDegree && builder.constraintDegree == constraintDegree
  {
    builder := new Builder();
    builder := builder.NumberOfVariables(numberOfVariables);
    builder := builder.NumberOfConstraints(numberOfConstraints);
    builder := builder.VariableDegree(variableDegree);
    builder := builder.ConstraintDegree(constraintDegree);
  }

  /**
    The three parameter sets of the test suite: one is rejected, two are
    accepted, and the checked build gives the same answers.
   */
  method TestParameters() returns (
    doNotFit: Result<Sampler, InvalidParameters>,
    tenByEight: Result<Sampler, InvalidParameters>,
    nineByFifteen: Result<Sampler, InvalidParameters>)
    ensures doNotFit == Err(InvalidParameters(10, 10, 3, 2))
    ensures tenByEight == Ok(Sampler(4, 5, 10, 8)) && tenByEight.value.NumberOfEdges() == 40
    ensures nineByFifteen == Ok(Sampler(5, 3, 9, 15)) && nineByFifteen.value.NumberOfEdges() == 45
    ensures tenByEight.value.FitsSimpleGraph() && nineByFifteen.value.FitsSimpleGraph()
  {
    var builder := Configured(10, 10, 3, 2);
    doNotFit := builder.Build();
    assert builder.BuildChecked() == doNotFit;
    builder := Configured(10, 8, 4, 5);
    tenByEight := builder.Build();
    assert builder.BuildChecked() == tenByEight;
    builder := Configured(9, 15, 5, 3);
    nineByFifteen := builder.Build();
    assert builder.BuildChecked() == nineByFifteen;
  }
}
