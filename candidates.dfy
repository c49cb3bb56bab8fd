/**
  The initial pairing of the configuration model: every node is repeated once
  per unit of degree (its stubs), each side's stub list is shuffled, and the
  two lists are zipped into the queue of candidate edges.
 */
module Candidates {
  import opened Sequences
  import opened Samplers
  import opened Graphs

  /** `id` repeated `count` times. */
  function Repeat(id: nat, count: nat): (r: seq<nat>)
    ensures |r| == count
    ensures forall x :: multiset(r)[x] == if x == id then count else 0
    ensures forall i :: 0 <= i < |r| ==> r[i] == id
  {
    if count == 0 then [] else Repeat(id, count - 1) + [id]
  }

  /**
    The stub list of one side: labels 0 to n - 1 in increasing order, each
    repeated `degree` times.
   */
  function Stubs(n: nat, degree: nat): (r: seq<nat>)
    ensures |r| == n * degree
    ensures forall x: nat :: multiset(r)[x] == if x < n then degree else 0
    ensures forall i, j :: 0 <= i <= j < |r| ==> r[i] <= r[j]
  {
    if n == 0 then
      []
    else
      var init, last := Stubs(n - 1, degree), Repeat(n - 1, degree);
      assert (n - 1) * degree + degree == n * degree;
      assert forall i :: 0 <= i < |init| ==> init[i] < n - 1 by {
        forall i | 0 <= i < |init| ensures init[i] < n - 1 {
          assert init[i] in multiset(init);
        }
      }
      init + last
  }

  /**
    The random draws a shuffle of `n` elements consumes: for every position
    `i`, a position at or before `i`. The shuffle reads the draws of the
    positions from the last down to the second; the draw for position 0 can
    only be 0.
   */
  predicate ValidDraws(draws: seq<nat>, n: nat)
  {
    |draws| == n && forall i :: 0 <= i < n ==> draws[i] <= i
  }

  /**
    The Fisher-Yates shuffle driven by `draws`: the last element is exchanged
    with the one at `draws[|s| - 1]` and stays in place, and the rest is
    shuffled likewise.
   */
  function Shuffle(s: seq<nat>, draws: seq<nat>): (r: seq<nat>)
    requires ValidDraws(draws, |s|)
    ensures |r| == |s|
    ensures multiset(r) == multiset(s)
    decreases |s|
  {
    if |s| <= 1 then s
    else
      var i := |s| - 1;
      var j := draws[i];
      var swapped := s[i := s[j]][j := s[i]];
      assert multiset(swapped) == multiset(s);
      assert swapped == swapped[..i] + [swapped[i]];
      Shuffle(swapped[..i], draws[..i]) + [swapped[i]]
  }

  /** The shuffled variable stubs: every variable exactly `variableDegree` times, in some order. */
  function CandidateVariables(sampler: Sampler, draws: seq<nat>): (r: seq<nat>)
    requires ValidDraws(draws, sampler.NumberOfEdges())
    ensures |r| == sampler.NumberOfEdges()
    ensures multiset(r) == multiset(Stubs(sampler.numberOfVariables, sampler.variableDegree))
  {
    Shuffle(Stubs(sampler.numberOfVariables, sampler.variableDegree), draws)
  }

  /** The shuffled constraint stubs: every constraint exactly `constraintDegree` times, in some order. */
  function CandidateConstraints(sampler: Sampler, draws: seq<nat>): (r: seq<nat>)
    requires sampler.Balanced()
    requires ValidDraws(draws, sampler.NumberOfEdges())
    ensures |r| == sampler.NumberOfEdges()
    ensures multiset(r) == multiset(Stubs(sampler.numberOfConstraints, sampler.constraintDegree))
  {
    Shuffle(Stubs(sampler.numberOfConstraints, sampler.constraintDegree), draws)
  }

  function Min(a: nat, b: nat): nat
  {
    if a < b then a else b
  }

  /**
    Position-wise pairs of the two lists, as long as the shorter one; taking
    the two ends of the pairs apart gives back those lists.
   */
  function Zip(variables: seq<nat>, constraints: seq<nat>): (r: seq<Edge>)
    ensures |r| == Min(|variables|, |constraints|)
    ensures VariablesOf(r) == variables[..|r|]
    ensures ConstraintsOf(r) == constraints[..|r|]
  {
    seq(Min(|variables|, |constraints|), i requires 0 <= i < Min(|variables|, |constraints|) => Edge(variables[i], constraints[i]))
  }

  /**
    The candidate queue: as many edges as the sampler asks for, whose variable
    ends are exactly the variable stubs and whose constraint ends are exactly
    the constraint stubs.
   */
  function CandidateEdges(sampler: Sampler, variableDraws: seq<nat>, constraintDraws: seq<nat>): (q: seq<Edge>)
    requires sampler.Balanced()
    requires ValidDraws(variableDraws, sampler.NumberOfEdges())
    requires ValidDraws(constraintDraws, sampler.NumberOfEdges())
    ensures |q| == sampler.NumberOfEdges()
    ensures multiset(VariablesOf(q)) == multiset(Stubs(sampler.numberOfVariables, sampler.variableDegree))
    ensures multiset(ConstraintsOf(q)) == multiset(Stubs(sampler.numberOfConstraints, sampler.constraintDegree))
  {
    var variables := CandidateVariables(sampler, variableDraws);
    var constraints := CandidateConstraints(sampler, constraintDraws);
    assert variables[..|variables|] == variables && constraints[..|constraints|] == constraints;
    Zip(variables, constraints)
  }
}
