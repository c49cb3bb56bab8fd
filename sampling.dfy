/**
  The sampling engine: the candidate queue is drained into a graph that
  starts with the sampler's node counts and no edges. A candidate that is not
  yet an edge is inserted; a duplicate is repaired by a double edge swap with
  the first edge that allows one, or goes back to the end of the queue.
 */
module Sampling {
  import opened Wrappers
  import opened Sequences
  import opened Samplers
  import opened Builders
  import opened Graphs
  import opened Candidates

  /**
    The pair of edges obtained by exchanging the constraint ends of two edges:
    each edge keeps its variable, and the two constraints change hands, so
    the pair changes exactly when the constraints differ.
   */
  function Swap(first: Edge, second: Edge): (r: (Edge, Edge))
    ensures r.0.variable == first.variable && r.1.variable == second.variable
    ensures r == (first, second) <==> first.constraint == second.constraint
  {
    (Edge(first.variable, second.constraint), Edge(second.variable, first.constraint))
  }

  /**
    A swap keeps the labels of each side: the two variables and the two
    constraints are the same before and after, and each edge keeps its own
    variable; swapping again gives back the original pair.
   */
  lemma SwapKeepsLabels(first: Edge, second: Edge)
    ensures Swap(first, second).0.variable == first.variable && Swap(first, second).1.variable == second.variable
    ensures multiset{Swap(first, second).0.variable, Swap(first, second).1.variable} == multiset{first.variable, second.variable}
    ensures multiset{Swap(first, second).0.constraint, Swap(first, second).1.constraint} == multiset{first.constraint, second.constraint}
    ensures Swap(Swap(first, second).0, Swap(first, second).1) == (first, second)
  {
  }

  /** `e` may be swapped with `target`: neither of the two edges the swap creates exists yet. */
  predicate Qualifies(edges: seq<Edge>, e: Edge, target: Edge)
  {
    var (first, second) := Swap(e, target);
    first !in edges && second !in edges
  }

  /** No edge at a position in `from` to `to` (exclusive) qualifies as a swap partner of `target`. */
  predicate NoneQualify(edges: seq<Edge>, target: Edge, from: nat, to: nat)
    requires to <= |edges|
  {
    forall j :: from <= j < to ==> !Qualifies(edges, edges[j], target)
  }

  /** The first edge at or after position `from` that qualifies as a swap partner of `target`. */
  function FindFrom(edges: seq<Edge>, target: Edge, from: nat): Option<Edge>
    decreases |edges| - from
  {
    if from >= |edges| then None
    else if Qualifies(edges, edges[from], target) then Some(edges[from])
    else FindFrom(edges, target, from + 1)
  }

  /** The search from `from` finds the first qualifying position, and finds nothing only when none qualifies. */
  lemma {:induction false} FindFromFinds(edges: seq<Edge>, target: Edge, from: nat)
    ensures FindFrom(edges, target, from).Some? ==>
      exists k :: from <= k < |edges| && edges[k] == FindFrom(edges, target, from).value && Qualifies(edges, edges[k], target) && NoneQualify(edges, target, from, k)
    ensures FindFrom(edges, target, from).None? <==> from >= |edges| || NoneQualify(edges, target, from, |edges|)
    decreases |edges| - from
  {
    if from < |edges| && !Qualifies(edges, edges[from], target) {
      FindFromFinds(edges, target, from + 1);
    }
  }

  /**
    The swap partner of `target` among `edges`: the first edge, in the edge
    order, for which neither swapped edge is present, and none when no edge
    qualifies.
   */
  function FindEdgeToSwap(edges: seq<Edge>, target: Edge): Option<Edge>
  {
    FindFrom(edges, target, 0)
  }

  /**
    A found partner is an edge that qualifies and no earlier edge does; no
    partner is found exactly when no edge qualifies.
   */
  lemma FindEdgeToSwapFinds(edges: seq<Edge>, target: Edge)
    ensures FindEdgeToSwap(edges, target).Some? ==>
      FindEdgeToSwap(edges, target).value in edges && Qualifies(edges, FindEdgeToSwap(edges, target).value, target)
    ensures FindEdgeToSwap(edges, target).Some? ==>
      exists k :: 0 <= k < |edges| && edges[k] == FindEdgeToSwap(edges, target).value && NoneQualify(edges, target, 0, k)
    ensures FindEdgeToSwap(edges, target).None? <==> forall e :: e in edges ==> !Qualifies(edges, e, target)
  {
    FindFromFinds(edges, target, 0);
    if FindEdgeToSwap(edges, target).None? {
      forall e | e in edges ensures !Qualifies(edges, e, target) {
        var j :| 0 <= j < |edges| && edges[j] == e;
      }
    }
  }

  /**
    The edges after the repair of a duplicate `candidate` with `partner`: the
    partner is removed, then the two swapped edges are inserted in order.
   */
  function SwappedIn(edges: seq<Edge>, candidate: Edge, partner: Edge): seq<Edge>
  {
    var (first, second) := Swap(candidate, partner);
    Inserted(Inserted(Removed(edges, partner), first), second)
  }

  /** The engine's state between two iterations: the graph's edges and the queue of candidates. */
  datatype Placement = Placement(edges: seq<Edge>, queue: seq<Edge>)

  /**
    The repair of a duplicate adds one edge: the partner leaves and the two
    edges the swap creates are new and distinct.
   */
  lemma SwappedInGrows(edges: seq<Edge>, candidate: Edge, partner: Edge)
    requires candidate in edges
    requires FindEdgeToSwap(edges, candidate) == Some(partner)
    ensures |SwappedIn(edges, candidate, partner)| == |edges| + 1
  {
    PartnerDiffers(edges, candidate, partner);
    var (first, second) := Swap(candidate, partner);
    var removed := Removed(edges, partner);
    RemovedMembers(edges, partner);
    InsertedMembers(removed, first);
    InsertedMembers(Inserted(removed, first), second);
  }

  /**
    One iteration: the front candidate is inserted, swapped in, or sent to the
    back.
   */
  function Step(p: Placement): Placement
    requires p.queue != []
  {
    var candidate, rest := p.queue[0], p.queue[1..];
    if candidate !in p.edges then Placement(Inserted(p.edges, candidate), rest)
    else match FindEdgeToSwap(p.edges, candidate)
      case Some(partner) => Placement(SwappedIn(p.edges, candidate, partner), rest)
      case None => Placement(p.edges, rest + [candidate])
  }

  /** The candidate leaves the queue exactly when the graph gains an edge. */
  lemma StepConservesSize(p: Placement)
    requires p.queue != []
    ensures |Step(p).edges| + |Step(p).queue| == |p.edges| + |p.queue|
  {
    var candidate := p.queue[0];
    if candidate in p.edges {
      match FindEdgeToSwap(p.edges, candidate)
      case Some(partner) => SwappedInGrows(p.edges, candidate, partner);
      case None =>
    }
  }

  /** At most `fuel` iterations, stopping early once the queue is empty. */
  function Run(p: Placement, fuel: nat): Placement
    decreases fuel
  {
    if fuel == 0 || p.queue == [] then p else Run(Step(p), fuel - 1)
  }

  /** Over any number of iterations, the edges and the queued candidates together keep their number. */
  lemma {:induction false} RunConservesSize(p: Placement, fuel: nat)
    ensures |Run(p, fuel).edges| + |Run(p, fuel).queue| == |p.edges| + |p.queue|
    decreases fuel
  {
    if fuel > 0 && p.queue != [] {
      StepConservesSize(p);
      RunConservesSize(Step(p), fuel - 1);
    }
  }

  /** One more iteration extends a run whose queue is not yet empty by one step. */
  lemma {:induction false} RunExtend(p: Placement, fuel: nat)
    requires Run(p, fuel).queue != []
    ensures Run(p, fuel + 1) == Step(Run(p, fuel))
    decreases fuel
  {
    if fuel > 0 {
      assert p.queue != [];
      var next := Step(p);
      assert Run(p, fuel) == Run(next, fuel - 1) && Run(p, fuel + 1) == Run(next, fuel);
      RunExtend(next, fuel - 1);
    }
  }

  /** Once the queue is empty, further fuel changes nothing. */
  lemma {:induction false} RunStopped(p: Placement, fuel: nat, more: nat)
    requires fuel <= more && Run(p, fuel).queue == []
    ensures Run(p, more) == Run(p, fuel)
    decreases fuel
  {
    if fuel > 0 && p.queue != [] {
      var next := Step(p);
      assert Run(p, fuel) == Run(next, fuel - 1) && Run(p, more) == Run(next, more - 1);
      RunStopped(next, fuel - 1, more - 1);
    }
  }

  /**
    The degree accounting of the engine: the edges are distinct, and for every
    node its occurrences among the edges plus those still in the queue are
    exactly its stubs.
   */
  ghost predicate Accounted(p: Placement, variableStubs: multiset<nat>, constraintStubs: multiset<nat>)
  {
    && NoDup(p.edges)
    && multiset(VariablesOf(p.edges)) + multiset(VariablesOf(p.queue)) == variableStubs
    && multiset(ConstraintsOf(p.edges)) + multiset(ConstraintsOf(p.queue)) == constraintStubs
  }

  /** The stubs of the sampler's variables and of its constraints. */
  ghost function VariableStubs(sampler: Sampler): multiset<nat>
  {
    multiset(Stubs(sampler.numberOfVariables, sampler.variableDegree))
  }

  ghost function ConstraintStubs(sampler: Sampler): multiset<nat>
  {
    multiset(Stubs(sampler.numberOfConstraints, sampler.constraintDegree))
  }

  lemma InsertedLabels(edges: seq<Edge>, e: Edge)
    requires e !in edges
    ensures VariablesOf(Inserted(edges, e)) == VariablesOf(edges) + [e.variable]
    ensures ConstraintsOf(Inserted(edges, e)) == ConstraintsOf(edges) + [e.constraint]
  {
    MapConcat(edges, [e], VariableOf);
    MapConcat(edges, [e], ConstraintOf);
  }

  lemma RemovedLabels(edges: seq<Edge>, e: Edge)
    requires e in edges
    ensures multiset(VariablesOf(Removed(edges, e))) + multiset{e.variable} == multiset(VariablesOf(edges))
    ensures multiset(ConstraintsOf(Removed(edges, e))) + multiset{e.constraint} == multiset(ConstraintsOf(edges))
  {
    var i := IndexOf(edges, e);
    assert Removed(edges, e) == SwapRemove(edges, i);
    MapSwapRemove(edges, i, VariableOf);
    MapSwapRemove(edges, i, ConstraintOf);
    assert VariablesOf(edges)[i] == e.variable;
    assert ConstraintsOf(edges)[i] == e.constraint;
  }

  /**
    A swap partner of a present candidate differs from it in both labels, and
    the two edges the swap creates are new and distinct.
   */
  lemma PartnerDiffers(edges: seq<Edge>, candidate: Edge, partner: Edge)
    requires candidate in edges
    requires FindEdgeToSwap(edges, candidate) == Some(partner)
    ensures partner in edges
    ensures partner.variable != candidate.variable && partner.constraint != candidate.constraint
    ensures Swap(candidate, partner).0 !in edges && Swap(candidate, partner).1 !in edges
    ensures Swap(candidate, partner).0 != Swap(candidate, partner).1
  {
    FindEdgeToSwapFinds(edges, candidate);
    assert Qualifies(edges, partner, candidate);
    var (first, second) := Swap(candidate, partner);
    assert Swap(partner, candidate) == (second, first);
  }

  /**
    A repair places the candidate: the edges stay distinct, their count grows
    by one and the labels gain exactly the candidate's variable and
    constraint, as if the candidate itself had been inserted.
   */
  lemma SwapPlacesCandidate(edges: seq<Edge>, candidate: Edge, partner: Edge)
    requires NoDup(edges) && candidate in edges
    requires FindEdgeToSwap(edges, candidate) == Some(partner)
    ensures NoDup(SwappedIn(edges, candidate, partner))
    ensures |SwappedIn(edges, candidate, partner)| == |edges| + 1
    ensures multiset(VariablesOf(SwappedIn(edges, candidate, partner)))
         == multiset(VariablesOf(edges)) + multiset{candidate.variable}
    ensures multiset(ConstraintsOf(SwappedIn(edges, candidate, partner)))
         == multiset(ConstraintsOf(edges)) + multiset{candidate.constraint}
  {
    PartnerDiffers(edges, candidate, partner);
    var first, second := Swap(candidate, partner).0, Swap(candidate, partner).1;
    var removed := Removed(edges, partner);
    RemovedLabels(edges, partner);
    RemovedMembers(edges, partner);
    assert first !in removed && second !in removed;
    var once := Inserted(removed, first);
    InsertedLabels(removed, first);
    InsertedMembers(removed, first);
    assert second !in once;
    InsertedLabels(once, second);
    InsertedMembers(once, second);
    assert SwappedIn(edges, candidate, partner) == Inserted(once, second);
    assert VariablesOf(Inserted(once, second)) == VariablesOf(removed) + [first.variable] + [second.variable];
    assert ConstraintsOf(Inserted(once, second)) == ConstraintsOf(removed) + [first.constraint] + [second.constraint];
  }

  /** Taking the front candidate off the queue moves its labels from the queue's side of the count. */
  lemma PopLabels(queue: seq<Edge>)
    requires queue != []
    ensures multiset(VariablesOf(queue)) == multiset(VariablesOf(queue[1..])) + multiset{queue[0].variable}
    ensures multiset(ConstraintsOf(queue)) == multiset(ConstraintsOf(queue[1..])) + multiset{queue[0].constraint}
  {
    var front, rest := [queue[0]], queue[1..];
    assert queue == front + rest;
    MapConcat(front, rest, VariableOf);
    MapConcat(front, rest, ConstraintOf);
    assert VariablesOf(queue) == VariablesOf(front) + VariablesOf(rest);
    assert VariablesOf(front) == [queue[0].variable];
    assert ConstraintsOf(queue) == ConstraintsOf(front) + ConstraintsOf(rest);
    assert ConstraintsOf(front) == [queue[0].constraint];
  }

  /** Sending a candidate to the back of the queue keeps the queue's labels. */
  lemma RequeueLabels(queue: seq<Edge>)
    requires queue != []
    ensures multiset(VariablesOf(queue[1..] + [queue[0]])) == multiset(VariablesOf(queue))
    ensures multiset(ConstraintsOf(queue[1..] + [queue[0]])) == multiset(ConstraintsOf(queue))
  {
    PopLabels(queue);
    MapConcat(queue[1..], [queue[0]], VariableOf);
    MapConcat(queue[1..], [queue[0]], ConstraintOf);
  }

  /** Every iteration keeps the degree accounting. */
  lemma StepKeepsAccounted(p: Placement, variableStubs: multiset<nat>, constraintStubs: multiset<nat>)
    requires Accounted(p, variableStubs, constraintStubs) && p.queue != []
    ensures Accounted(Step(p), variableStubs, constraintStubs)
  {
    var candidate := p.queue[0];
    var next := Step(p);
    if candidate !in p.edges {
      PopLabels(p.queue);
      InsertedLabels(p.edges, candidate);
      assert next.edges == Inserted(p.edges, candidate) && next.queue == p.queue[1..];
    } else {
      match FindEdgeToSwap(p.edges, candidate)
      case Some(partner) =>
        PopLabels(p.queue);
        SwapPlacesCandidate(p.edges, candidate, partner);
        assert next.edges == SwappedIn(p.edges, candidate, partner) && next.queue == p.queue[1..];
      case None =>
        RequeueLabels(p.queue);
        assert next.edges == p.edges && next.queue == p.queue[1..] + [candidate];
    }
  }

  lemma {:induction false} RunKeepsAccounted(p: Placement, fuel: nat, variableStubs: multiset<nat>, constraintStubs: multiset<nat>)
    requires Accounted(p, variableStubs, constraintStubs)
    ensures Accounted(Run(p, fuel), variableStubs, constraintStubs)
    decreases fuel
  {
    if fuel > 0 && p.queue != [] {
      StepKeepsAccounted(p, variableStubs, constraintStubs);
      RunKeepsAccounted(Step(p), fuel - 1, variableStubs, constraintStubs);
    }
  }

  /** Every label the engine handles is a node of the sampler's graph. */
  lemma AccountedLabelsInRange(sampler: Sampler, p: Placement)
    requires Accounted(p, VariableStubs(sampler), ConstraintStubs(sampler))
    ensures forall e :: e in p.edges ==> e.variable < sampler.numberOfVariables && e.constraint < sampler.numberOfConstraints
    ensures forall e :: e in p.queue ==> e.variable < sampler.numberOfVariables && e.constraint < sampler.numberOfConstraints
  {
    var variables := Stubs(sampler.numberOfVariables, sampler.variableDegree);
    var constraints := Stubs(sampler.numberOfConstraints, sampler.constraintDegree);
    forall e | e in p.edges
      ensures e.variable < sampler.numberOfVariables && e.constraint < sampler.numberOfConstraints
    {
      var k :| 0 <= k < |p.edges| && p.edges[k] == e;
      assert VariablesOf(p.edges)[k] == e.variable && ConstraintsOf(p.edges)[k] == e.constraint;
      assert e.variable in multiset(variables) && e.constraint in multiset(constraints);
    }
    forall e | e in p.queue
      ensures e.variable < sampler.numberOfVariables && e.constraint < sampler.numberOfConstraints
    {
      var k :| 0 <= k < |p.queue| && p.queue[k] == e;
      assert VariablesOf(p.queue)[k] == e.variable && ConstraintsOf(p.queue)[k] == e.constraint;
      assert e.variable in multiset(variables) && e.constraint in multiset(constraints);
    }
  }

  /**
    Once the queue is empty, every variable occurs `variableDegree` times and
    every constraint `constraintDegree` times among the edges, and there are
    as many edges as the sampler asks for.
   */
  lemma DrainedIsRegular(sampler: Sampler, p: Placement)
    requires Accounted(p, VariableStubs(sampler), ConstraintStubs(sampler)) && p.queue == []
    ensures forall v: nat :: v < sampler.numberOfVariables ==> multiset(VariablesOf(p.edges))[v] == sampler.variableDegree
    ensures forall c: nat :: c < sampler.numberOfConstraints ==> multiset(ConstraintsOf(p.edges))[c] == sampler.constraintDegree
    ensures |p.edges| == sampler.NumberOfEdges()
  {
    var variables, constraints := VariablesOf(p.edges), ConstraintsOf(p.edges);
    var variableStubs := Stubs(sampler.numberOfVariables, sampler.variableDegree);
    var constraintStubs := Stubs(sampler.numberOfConstraints, sampler.constraintDegree);
    assert |VariablesOf(p.queue)| == 0 && |ConstraintsOf(p.queue)| == 0;
    assert multiset(variables) == multiset(variableStubs);
    assert multiset(constraints) == multiset(constraintStubs);
    assert |variables| == |multiset(variables)| == |multiset(variableStubs)| == |variableStubs|;
  }

  /**
    A graph whose edges account for all the stubs, with the sampler's node
    counts, is regular: every variable has degree `variableDegree`, every
    constraint `constraintDegree`, and there are `NumberOfEdges()` edges.
   */
  lemma DrainedGraphIsRegular(
    sampler: Sampler, variableNeighbors: seq<set<nat>>, constraintNeighbors: seq<set<nat>>, edges: seq<Edge>)
    requires Consistent(variableNeighbors, constraintNeighbors, edges)
    requires |variableNeighbors| == sampler.numberOfVariables && |constraintNeighbors| == sampler.numberOfConstraints
    requires Accounted(Placement(edges, []), VariableStubs(sampler), ConstraintStubs(sampler))
    ensures forall v :: 0 <= v < |variableNeighbors| ==> |variableNeighbors[v]| == sampler.variableDegree
    ensures forall c :: 0 <= c < |constraintNeighbors| ==> |constraintNeighbors[c]| == sampler.constraintDegree
    ensures |edges| == sampler.NumberOfEdges()
  {
    DrainedIsRegular(sampler, Placement(edges, []));
    forall v | 0 <= v < |variableNeighbors|
      ensures |variableNeighbors[v]| == sampler.variableDegree
    {
      VariableDegree(variableNeighbors, constraintNeighbors, edges, v);
    }
    forall c | 0 <= c < |constraintNeighbors|
      ensures |constraintNeighbors[c]| == sampler.constraintDegree
    {
      ConstraintDegree(variableNeighbors, constraintNeighbors, edges, c);
    }
  }

  /** The front candidate of any run from an accounted state is a node pair of the sampler. */
  lemma FrontInRange(sampler: Sampler, start: Placement, steps: nat)
    requires Accounted(start, VariableStubs(sampler), ConstraintStubs(sampler))
    requires Run(start, steps).queue != []
    ensures Run(start, steps).queue[0].variable < sampler.numberOfVariables
    ensures Run(start, steps).queue[0].constraint < sampler.numberOfConstraints
  {
    RunKeepsAccounted(start, steps, VariableStubs(sampler), ConstraintStubs(sampler));
    AccountedLabelsInRange(sampler, Run(start, steps));
    assert Run(start, steps).queue[0] in Run(start, steps).queue;
  }

  /** A sample in progress: the sampler it draws from and the queue of candidate edges. */
  class Sample {
    const sampler: Sampler
    var candidateEdges: seq<Edge>

    /** The state `generate` starts from: a balanced sampler and a queue holding exactly the stubs. */
    ghost predicate Ready()
      reads this
    {
      sampler.Balanced() && Accounted(Placement([], candidateEdges), VariableStubs(sampler), ConstraintStubs(sampler))
    }

    /** The sample whose queue is the candidate edges drawn with the given shuffles. */
    constructor FromSamplerAndDraws(sampler: Sampler, variableDraws: seq<nat>, constraintDraws: seq<nat>)
      requires sampler.Balanced()
      requires ValidDraws(variableDraws, sampler.NumberOfEdges())
      requires ValidDraws(constraintDraws, sampler.NumberOfEdges())
      ensures this.sampler == sampler
      ensures candidateEdges == CandidateEdges(sampler, variableDraws, constraintDraws)
      ensures Ready()
    {
      this.sampler := sampler;
      candidateEdges := CandidateEdges(sampler, variableDraws, constraintDraws);
      new;
      assert VariablesOf([]) == [] && ConstraintsOf([]) == [];
    }

    /**
      Drains the queue into a graph with the sampler's node counts, for at
      most `fuel` candidates. The outcome is the one `Run` computes from the
      queue; once the queue is drained, every variable has degree
      `variableDegree`, every constraint `constraintDegree`, and the graph has
      `NumberOfEdges()` edges.
     */
    method Generate(fuel: nat) returns (graph: Graph, drained: bool)
      requires Ready()
      modifies this
      ensures fresh(graph) && graph.Valid()
      ensures |graph.variableNeighbors| == sampler.numberOfVariables
      ensures |graph.constraintNeighbors| == sampler.numberOfConstraints
      ensures Placement(graph.edges, candidateEdges) == Run(Placement([], old(candidateEdges)), fuel)
      ensures drained <==> candidateEdges == []
      ensures drained ==> forall v :: 0 <= v < |graph.variableNeighbors| ==> |graph.variableNeighbors[v]| == sampler.variableDegree
      ensures drained ==> forall c :: 0 <= c < |graph.constraintNeighbors| ==> |graph.constraintNeighbors[c]| == sampler.constraintDegree
      ensures drained ==> |graph.edges| == sampler.NumberOfEdges()
    {
      graph := new Graph.FromSampler(sampler);
      ghost var start := Placement([], candidateEdges);
      Drain(graph, fuel);
      drained := candidateEdges == [];
      if drained {
        RunKeepsAccounted(start, fuel, VariableStubs(sampler), ConstraintStubs(sampler));
        DrainedGraphIsRegular(sampler, graph.variableNeighbors, graph.constraintNeighbors, graph.edges);
      }
    }

    /**
      The loop of `Generate`: at most `fuel` candidates are taken off the
      queue, stopping early once it is empty, and the graph and the queue end
      where `Run` says.
     */
    method Drain(graph: Graph, fuel: nat)
      requires graph.Valid()
      requires |graph.variableNeighbors| == sampler.numberOfVariables
      requires |graph.constraintNeighbors| == sampler.numberOfConstraints
      requires Accounted(Placement(graph.edges, candidateEdges), VariableStubs(sampler), ConstraintStubs(sampler))
      modifies this, graph
      ensures graph.Valid()
      ensures |graph.variableNeighbors| == sampler.numberOfVariables
      ensures |graph.constraintNeighbors| == sampler.numberOfConstraints
      ensures Placement(graph.edges, candidateEdges) == Run(old(Placement(graph.edges, candidateEdges)), fuel)
    {
      ghost var start := Placement(graph.edges, candidateEdges);
      var remaining: nat := fuel;
      ghost var steps: nat := 0;
      while candidateEdges != [] && remaining > 0
        invariant graph.Valid()
        invariant |graph.variableNeighbors| == sampler.numberOfVariables
        invariant |graph.constraintNeighbors| == sampler.numberOfConstraints
        invariant steps + remaining == fuel
        invariant Placement(graph.edges, candidateEdges) == Run(start, steps)
        decreases remaining
      {
        FrontInRange(sampler, start, steps);
        RunExtend(start, steps);
        PlaceFront(graph);
        remaining := remaining - 1;
        steps := steps + 1;
      }
      if remaining > 0 {
        RunStopped(start, steps, fuel);
      }
    }

    /**
      One iteration of `Generate`: the front candidate leaves the queue and is
      inserted when it is new, or repaired when it is a duplicate.
     */
    method PlaceFront(graph: Graph)
      requires graph.Valid() && candidateEdges != []
      requires candidateEdges[0].variable < |graph.variableNeighbors|
      requires candidateEdges[0].constraint < |graph.constraintNeighbors|
      modifies this, graph
      ensures graph.Valid()
      ensures |graph.variableNeighbors| == old(|graph.variableNeighbors|)
      ensures |graph.constraintNeighbors| == old(|graph.constraintNeighbors|)
      ensures Placement(graph.edges, candidateEdges) == Step(old(Placement(graph.edges, candidateEdges)))
    {
      ghost var before := Placement(graph.edges, candidateEdges);
      var edge := candidateEdges[0];
      candidateEdges := candidateEdges[1..];
      if graph.ContainsEdge(edge) {
        assert edge in before.edges;
        TryToSwapEdgeAndInsert(graph, edge);
      } else {
        assert edge !in before.edges;
        var inserted := graph.InsertEdge(edge);
      }
    }

    /**
      Repairs the duplicate `edge`: with a swap partner, the partner is
      removed and the two swapped edges are inserted; without one, the graph
      is untouched and `edge` goes to the back of the queue.
     */
    method TryToSwapEdgeAndInsert(graph: Graph, edge: Edge)
      requires graph.Valid()
      modifies this, graph
      ensures graph.Valid()
      ensures FindEdgeToSwap(old(graph.edges), edge).Some? ==>
        && graph.edges == SwappedIn(old(graph.edges), edge, FindEdgeToSwap(old(graph.edges), edge).value)
        && |graph.variableNeighbors| == Max(old(|graph.variableNeighbors|), edge.variable + 1)
        && |graph.constraintNeighbors| == Max(old(|graph.constraintNeighbors|), edge.constraint + 1)
        && candidateEdges == old(candidateEdges)
      ensures FindEdgeToSwap(old(graph.edges), edge).None? ==>
        && graph.edges == old(graph.edges)
        && graph.variableNeighbors == old(graph.variableNeighbors)
        && graph.constraintNeighbors == old(graph.constraintNeighbors)
        && candidateEdges == old(candidateEdges) + [edge]
    {
      FindEdgeToSwapFinds(graph.edges, edge);
      match FindEdgeToSwap(graph.edges, edge)
      case Some(partner) =>
        SwapIn(graph, edge, partner);
      case None =>
        candidateEdges := candidateEdges + [edge];
    }

    /** The repair itself: `partner` leaves the graph and the two swapped edges enter it, in order. */
    method SwapIn(graph: Graph, edge: Edge, partner: Edge)
      requires graph.Valid() && partner in graph.edges
      modifies graph
      ensures graph.Valid()
      ensures graph.edges == SwappedIn(old(graph.edges), edge, partner)
      ensures |graph.variableNeighbors| == Max(old(|graph.variableNeighbors|), edge.variable + 1)
      ensures |graph.constraintNeighbors| == Max(old(|graph.constraintNeighbors|), edge.constraint + 1)
    {
      assert partner.variable < |graph.variableNeighbors| && partner.constraint < |graph.constraintNeighbors|;
      var removed := graph.RemoveEdge(partner);
      var (first, second) := Swap(edge, partner);
      var firstInserted := graph.InsertEdge(first);
      var secondInserted := graph.InsertEdge(second);
    }
  }

  /**
    Samples a graph: the candidate queue drawn with the given shuffles is
    drained by `Generate`.
   */
  method SampleWith(sampler: Sampler, variableDraws: seq<nat>, constraintDraws: seq<nat>, fuel: nat)
    returns (graph: Graph, drained: bool)
    requires sampler.Balanced()
    requires ValidDraws(variableDraws, sampler.NumberOfEdges())
    requires ValidDraws(constraintDraws, sampler.NumberOfEdges())
    ensures fresh(graph) && graph.Valid()
    ensures graph.edges == Run(Placement([], CandidateEdges(sampler, variableDraws, constraintDraws)), fuel).edges
    ensures drained <==> Run(Placement([], CandidateEdges(sampler, variableDraws, constraintDraws)), fuel).queue == []
    ensures |graph.variableNeighbors| == sampler.numberOfVariables
    ensures |graph.constraintNeighbors| == sampler.numberOfConstraints
    ensures drained ==> forall v :: 0 <= v < |graph.variableNeighbors| ==> |graph.variableNeighbors[v]| == sampler.variableDegree
    ensures drained ==> forall c :: 0 <= c < |graph.constraintNeighbors| ==> |graph.constraintNeighbors[c]| == sampler.constraintDegree
    ensures drained ==> |graph.edges| == sampler.NumberOfEdges()
  {
    var sample := new Sample.FromSamplerAndDraws(sampler, variableDraws, constraintDraws);
    graph, drained := sample.Generate(fuel);
  }

  /** The same sampler with the same draws gives the same graph. */
  method Reproducible(sampler: Sampler, variableDraws: seq<nat>, constraintDraws: seq<nat>, fuel: nat)
    returns (graph: Graph, other: Graph)
    requires sampler.Balanced()
    requires ValidDraws(variableDraws, sampler.NumberOfEdges())
    requires ValidDraws(constraintDraws, sampler.NumberOfEdges())
    ensures graph != other
    ensures graph.edges == other.edges
    ensures graph.variableNeighbors == other.variableNeighbors
    ensures graph.constraintNeighbors == other.constraintNeighbors
  {
    var drained, otherDrained;
    graph, drained := SampleWith(sampler, variableDraws, constraintDraws, fuel);
    other, otherDrained := SampleWith(sampler, variableDraws, constraintDraws, fuel);
    ConsistentDetermined(
      graph.variableNeighbors, graph.constraintNeighbors, graph.edges,
      other.variableNeighbors, other.constraintNeighbors, other.edges);
  }

  /**
    The parameters of the test suite's regular graphs: ten variables of
    degree 4 and eight constraints of degree 5 pass validation, and a drained
    sample has every variable of degree 4, every constraint of degree 5 and
    40 edges.
   */
  method GraphsHaveTheRightParameters(variableDraws: seq<nat>, constraintDraws: seq<nat>, fuel: nat)
    returns (graph: Graph, drained: bool)
    requires ValidDraws(variableDraws, 40) && ValidDraws(constraintDraws, 40)
    ensures graph.Valid()
    ensures |graph.variableNeighbors| == 10 && |graph.constraintNeighbors| == 8
    ensures drained ==> forall v :: 0 <= v < 10 ==> |graph.variableNeighbors[v]| == 4
    ensures drained ==> forall c :: 0 <= c < 8 ==> |graph.constraintNeighbors[c]| == 5
    ensures drained ==> |graph.edges| == 40
  {
    var builder := Configured(10, 8, 4, 5);
    var built := builder.Build();
    var sampler := built.value;
    graph, drained := SampleWith(sampler, variableDraws, constraintDraws, fuel);
  }

  /**
    With the edge (0, 0) placed and a second copy of it queued, the copy has
    no swap partner: the only edge is (0, 0) itself, and swapping it with the
    copy gives (0, 0) back. Every iteration sends the copy to the back again.
   */
  lemma {:induction false} RequeuedForever(fuel: nat)
    ensures Run(Placement([Edge(0, 0)], [Edge(0, 0)]), fuel) == Placement([Edge(0, 0)], [Edge(0, 0)])
    decreases fuel
  {
    var stuck := Placement([Edge(0, 0)], [Edge(0, 0)]);
    if fuel > 0 {
      assert !Qualifies(stuck.edges, Edge(0, 0), Edge(0, 0));
      assert FindFrom(stuck.edges, Edge(0, 0), 1) == None;
      assert Step(stuck) == stuck;
      RequeuedForever(fuel - 1);
    }
  }

  /** The stubs of a single node of degree 2 are (0, 0), and shuffling keeps them so. */
  lemma SingleNodeShuffle(draws: seq<nat>)
    requires ValidDraws(draws, 2)
    ensures Shuffle(Stubs(1, 2), draws) == [0, 0]
  {
    var shuffled := Shuffle(Stubs(1, 2), draws);
    assert shuffled[0] in multiset(shuffled) && shuffled[1] in multiset(shuffled);
  }

  /** One variable and one constraint of degree 2: every shuffle gives the queue (0, 0), (0, 0). */
  lemma UnfitCandidates(variableDraws: seq<nat>, constraintDraws: seq<nat>)
    requires ValidDraws(variableDraws, 2) && ValidDraws(constraintDraws, 2)
    ensures CandidateEdges(Sampler(2, 2, 1, 1), variableDraws, constraintDraws) == [Edge(0, 0), Edge(0, 0)]
  {
    SingleNodeShuffle(variableDraws);
    SingleNodeShuffle(constraintDraws);
    var sampler := Sampler(2, 2, 1, 1);
    assert CandidateVariables(sampler, variableDraws) == [0, 0];
    assert CandidateConstraints(sampler, constraintDraws) == [0, 0];
    assert Zip([0, 0], [0, 0]) == [Edge(0, 0), Edge(0, 0)];
  }

  /** The first copy of (0, 0) goes into the empty graph; the second stays queued. */
  lemma UnfitFirstStep()
    ensures Step(Placement([], [Edge(0, 0), Edge(0, 0)])) == Placement([Edge(0, 0)], [Edge(0, 0)])
  {
    assert Inserted([], Edge(0, 0)) == [Edge(0, 0)];
    assert [Edge(0, 0), Edge(0, 0)][1..] == [Edge(0, 0)];
  }

  /** Drained into an empty graph, the queue (0, 0), (0, 0) never empties, whatever the number of iterations. */
  lemma TwinQueueNeverDrains(fuel: nat)
    ensures Run(Placement([], [Edge(0, 0), Edge(0, 0)]), fuel).queue != []
  {
    if fuel > 0 {
      UnfitFirstStep();
      RequeuedForever(fuel - 1);
    }
  }

  /** So the queue of one variable and one constraint of degree 2 never drains. */
  lemma UnfitQueueNeverDrains(variableDraws: seq<nat>, constraintDraws: seq<nat>, fuel: nat)
    requires ValidDraws(variableDraws, 2) && ValidDraws(constraintDraws, 2)
    ensures Run(Placement([], CandidateEdges(Sampler(2, 2, 1, 1), variableDraws, constraintDraws)), fuel).queue != []
  {
    UnfitCandidates(variableDraws, constraintDraws);
    TwinQueueNeverDrains(fuel);
  }

  /**
    The parameters `Build` accepts although no graph without repeated edges
    meets them: sampling never drains the queue, whatever the draws and the
    number of iterations.
   */
  method UnfitParametersNeverDrain(variableDraws: seq<nat>, constraintDraws: seq<nat>, fuel: nat)
    returns (built: Result<Sampler, InvalidParameters>, drained: bool)
    requires ValidDraws(variableDraws, 2) && ValidDraws(constraintDraws, 2)
    ensures built.Ok? && built.value == Sampler(2, 2, 1, 1)
    ensures !drained
  {
    var builder := Configured(1, 1, 2, 2);
    built := builder.Build();
    var graph;
    graph, drained := SampleWith(built.value, variableDraws, constraintDraws, fuel);
    UnfitQueueNeverDrains(variableDraws, constraintDraws, fuel);
  }
}
