/**
  Bipartite graphs over labelled variables and constraints. A graph keeps the
  same edges three times: as an insertion-ordered edge set, as the neighbour
  set of every variable and as the neighbour set of every constraint.
 */
module Graphs {
  import opened Sequences
  import opened Samplers

  /** A (variable, constraint) pair; the same label may name a node on each side. */
  datatype Edge = Edge(variable: nat, constraint: nat)

  /** A node as enumerated by the graph: its label `id` and the labels of its neighbours. */
  datatype Node = Node(id: nat, neighbors: set<nat>)
  {
    /** The number of neighbours: zero exactly for a node without neighbours. */
    function Degree(): (r: nat)
      ensures r == 0 <==> neighbors == {}
    {
      |neighbors|
    }

    /** Whether `other` is a neighbour; a node with a neighbour has a positive degree. */
    predicate HasNeighbor(other: nat): (r: bool)
      ensures r ==> Degree() > 0
    {
      other in neighbors
    }
  }

  function VariableOf(e: Edge): nat { e.variable }

  function ConstraintOf(e: Edge): nat { e.constraint }

  /** The same edge seen from the other side. */
  function Flip(e: Edge): Edge { Edge(e.constraint, e.variable) }

  /** The variable end of every edge, in edge order. */
  function VariablesOf(edges: seq<Edge>): seq<nat>
  {
    Map(edges, VariableOf)
  }

  /** The constraint end of every edge, in edge order. */
  function ConstraintsOf(edges: seq<Edge>): seq<nat>
  {
    Map(edges, ConstraintOf)
  }

  function Max(a: nat, b: nat): nat
  {
    if a < b then b else a
  }

  /**
    The agreement of the three views of a graph: the edge set holds no
    duplicate, every label is below the node count of its side, and an edge is
    in the edge set exactly when each end lists the other as a neighbour.
   */
  ghost predicate Consistent(variableNeighbors: seq<set<nat>>, constraintNeighbors: seq<set<nat>>, edges: seq<Edge>)
  {
    && NoDup(edges)
    && (forall e :: e in edges ==> e.variable < |variableNeighbors| && e.constraint < |constraintNeighbors|)
    && (forall v, c :: 0 <= v < |variableNeighbors| ==> (c in variableNeighbors[v] <==> Edge(v, c) in edges))
    && (forall v, c :: 0 <= c < |constraintNeighbors| ==> (v in constraintNeighbors[c] <==> Edge(v, c) in edges))
  }

  /** The neighbour lists extended with empty sets until `at` is a valid index. */
  function Grow(neighbors: seq<set<nat>>, at: nat): (r: seq<set<nat>>)
    ensures |r| == Max(|neighbors|, at + 1)
    ensures forall k :: 0 <= k < |neighbors| ==> r[k] == neighbors[k]
    ensures forall k :: |neighbors| <= k < |r| ==> r[k] == {}
  {
    if at < |neighbors| then neighbors
    else neighbors + seq(at - |neighbors| + 1, _ => {})
  }

  /** The neighbour lists after node `at` gains the neighbour `other`, grown on demand. */
  function Attach(neighbors: seq<set<nat>>, at: nat, other: nat): (r: seq<set<nat>>)
    ensures |r| == Max(|neighbors|, at + 1)
    ensures r[at] == (if at < |neighbors| then neighbors[at] else {}) + {other}
    ensures forall k :: 0 <= k < |r| && k != at ==> r[k] == if k < |neighbors| then neighbors[k] else {}
  {
    var grown := Grow(neighbors, at);
    grown[at := grown[at] + {other}]
  }

  /**
    The edge sequence after inserting `e`: a new edge goes to the back, and
    an edge already present leaves the sequence as it is. Its properties are
    stated by `InsertedMembers`.
   */
  function Inserted(edges: seq<Edge>, e: Edge): seq<Edge>
  {
    if e in edges then edges else edges + [e]
  }

  /** Insertion adds `e` and nothing else, once: a duplicate-free sequence stays so. */
  lemma InsertedMembers(edges: seq<Edge>, e: Edge)
    ensures forall x :: x in Inserted(edges, e) <==> x in edges || x == e
    ensures |Inserted(edges, e)| == if e in edges then |edges| else |edges| + 1
    ensures NoDup(edges) ==> NoDup(Inserted(edges, e))
  {
  }

  /**
    The edge sequence after removing `e`: the last edge takes its place. Its
    properties are stated by `RemovedMembers`.
   */
  function Removed(edges: seq<Edge>, e: Edge): seq<Edge>
  {
    if e in edges then SwapRemove(edges, IndexOf(edges, e)) else edges
  }

  /** Removal takes `e` out and keeps every other edge: a duplicate-free sequence stays so. */
  lemma RemovedMembers(edges: seq<Edge>, e: Edge)
    ensures forall x :: x in Removed(edges, e) ==> x in edges
    ensures forall x :: x in edges && x != e ==> x in Removed(edges, e)
    ensures |Removed(edges, e)| == if e in edges then |edges| - 1 else |edges|
    ensures NoDup(edges) ==> NoDup(Removed(edges, e)) && e !in Removed(edges, e)
  {
    if e in edges {
      SwapRemoveMembers(edges, IndexOf(edges, e));
    }
  }

  class Graph {
    var variableNeighbors: seq<set<nat>>
    var constraintNeighbors: seq<set<nat>>
    var edges: seq<Edge>

    ghost predicate Valid()
      reads this
    {
      Consistent(variableNeighbors, constraintNeighbors, edges)
    }

    /** The empty graph: no node and no edge. */
    constructor ()
      ensures Valid()
      ensures variableNeighbors == [] && constraintNeighbors == [] && edges == []
    {
      variableNeighbors, constraintNeighbors, edges := [], [], [];
    }

    /** The graph a sampler fills in: all of its nodes, none of its edges. */
    constructor FromSampler(sampler: Sampler)
      ensures Valid()
      ensures |variableNeighbors| == sampler.numberOfVariables
      ensures |constraintNeighbors| == sampler.numberOfConstraints
      ensures forall v :: 0 <= v < |variableNeighbors| ==> variableNeighbors[v] == {}
      ensures forall c :: 0 <= c < |constraintNeighbors| ==> constraintNeighbors[c] == {}
      ensures edges == []
    {
      variableNeighbors := seq(sampler.numberOfVariables, _ => {});
      constraintNeighbors := seq(sampler.numberOfConstraints, _ => {});
      edges := [];
    }

    /** Membership in the edge set, which agrees with both neighbour lists. */
    function ContainsEdge(e: Edge): (b: bool)
      reads this
      requires Valid()
      ensures b <==> e.variable < |variableNeighbors| && e.constraint in variableNeighbors[e.variable]
      ensures b <==> e.constraint < |constraintNeighbors| && e.variable in constraintNeighbors[e.constraint]
    {
      e in edges
    }

    /**
      Adds `e` unless it is present, and tells whether it was absent. A new
      edge goes to the back of the edge set and into both neighbour lists,
      which grow with empty sets to reach its labels; a present edge changes
      nothing.
     */
    method InsertEdge(e: Edge) returns (inserted: bool)
      requires Valid()
      modifies this
      ensures Valid()
      ensures inserted <==> e !in old(edges)
      ensures edges == Inserted(old(edges), e)
      ensures e in edges && |edges| == if inserted then old(|edges|) + 1 else old(|edges|)
      ensures inserted ==> variableNeighbors == Attach(old(variableNeighbors), e.variable, e.constraint)
      ensures inserted ==> constraintNeighbors == Attach(old(constraintNeighbors), e.constraint, e.variable)
      ensures !inserted ==> variableNeighbors == old(variableNeighbors) && constraintNeighbors == old(constraintNeighbors)
    {
      InsertedMembers(edges, e);
      inserted := e !in edges;
      edges := Inserted(edges, e);
      if inserted {
        InsertVariable(e);
        InsertConstraint(e);
        AttachKeepsConsistent(old(variableNeighbors), old(constraintNeighbors), old(edges), e);
      }
    }

    method InsertVariable(e: Edge)
      modifies this`variableNeighbors
      ensures variableNeighbors == Attach(old(variableNeighbors), e.variable, e.constraint)
    {
      if e.variable >= NumberOfVariables() {
        variableNeighbors := variableNeighbors + seq(e.variable - NumberOfVariables() + 1, _ => {});
      }
      variableNeighbors := variableNeighbors[e.variable := variableNeighbors[e.variable] + {e.constraint}];
    }

    method InsertConstraint(e: Edge)
      modifies this`constraintNeighbors
      ensures constraintNeighbors == Attach(old(constraintNeighbors), e.constraint, e.variable)
    {
      if e.constraint >= NumberOfConstraints() {
        constraintNeighbors := constraintNeighbors + seq(e.constraint - NumberOfConstraints() + 1, _ => {});
      }
      constraintNeighbors := constraintNeighbors[e.constraint := constraintNeighbors[e.constraint] + {e.variable}];
    }

    /**
      Removes `e` if present, and tells whether it was. The node counts never
      shrink; the neighbour sets of the two ends lose each other.
     */
    method RemoveEdge(e: Edge) returns (removed: bool)
      requires Valid()
      modifies this
      ensures Valid()
      ensures removed <==> e in old(edges)
      ensures edges == Removed(old(edges), e)
      ensures e !in edges && |edges| == if removed then old(|edges|) - 1 else old(|edges|)
      ensures |variableNeighbors| == old(|variableNeighbors|) && |constraintNeighbors| == old(|constraintNeighbors|)
      ensures removed ==> variableNeighbors == old(variableNeighbors[e.variable := variableNeighbors[e.variable] - {e.constraint}])
      ensures removed ==> constraintNeighbors == old(constraintNeighbors[e.constraint := constraintNeighbors[e.constraint] - {e.variable}])
      ensures !removed ==> variableNeighbors == old(variableNeighbors) && constraintNeighbors == old(constraintNeighbors)
    {
      RemovedMembers(edges, e);
      removed := e in edges;
      edges := Removed(edges, e);
      if removed {
        variableNeighbors := variableNeighbors[e.variable := variableNeighbors[e.variable] - {e.constraint}];
        constraintNeighbors := constraintNeighbors[e.constraint := constraintNeighbors[e.constraint] - {e.variable}];
      }
    }

    /** Every edge once, in the edge set's order. */
    function Edges(): (r: seq<Edge>)
      reads this
      requires Valid()
      ensures NoDup(r)
      ensures forall e :: e in r <==> ContainsEdge(e)
    {
      edges
    }

    /** One more than the largest variable label the graph can hold. */
    function NumberOfVariables(): (n: nat)
      reads this
      ensures Valid() ==> forall e :: e in edges ==> e.variable < n
    {
      |variableNeighbors|
    }

    /** One more than the largest constraint label the graph can hold. */
    function NumberOfConstraints(): (n: nat)
      reads this
      ensures Valid() ==> forall e :: e in edges ==> e.constraint < n
    {
      |constraintNeighbors|
    }

    /** The number of distinct edges. */
    function NumberOfEdges(): (n: nat)
      reads this
      requires Valid()
      ensures n == |Elements(edges)|
    {
      NoDupCardinality(edges);
      |edges|
    }

    /** The variables in increasing label order, one per label below the node count. */
    function Variables(): (nodes: seq<Node>)
      reads this
      ensures |nodes| == |variableNeighbors|
      ensures forall v :: 0 <= v < |nodes| ==> nodes[v].id == v && nodes[v].neighbors == variableNeighbors[v]
    {
      seq(|variableNeighbors|, v requires 0 <= v < |variableNeighbors| reads this => Node(v, variableNeighbors[v]))
    }

    /** The constraints in increasing label order, one per label below the node count. */
    function Constraints(): (nodes: seq<Node>)
      reads this
      ensures |nodes| == |constraintNeighbors|
      ensures forall c :: 0 <= c < |nodes| ==> nodes[c].id == c && nodes[c].neighbors == constraintNeighbors[c]
    {
      seq(|constraintNeighbors|, c requires 0 <= c < |constraintNeighbors| reads this => Node(c, constraintNeighbors[c]))
    }
  }

  /** Inserting a new edge into all three views keeps them in agreement. */
  lemma AttachKeepsConsistent(variableNeighbors: seq<set<nat>>, constraintNeighbors: seq<set<nat>>, edges: seq<Edge>, e: Edge)
    requires Consistent(variableNeighbors, constraintNeighbors, edges)
    requires e !in edges
    ensures Consistent(
      Attach(variableNeighbors, e.variable, e.constraint),
      Attach(constraintNeighbors, e.constraint, e.variable),
      edges + [e])
  {
    var vn, cn := Attach(variableNeighbors, e.variable, e.constraint), Attach(constraintNeighbors, e.constraint, e.variable);
    var es := edges + [e];
    forall v, c | 0 <= v < |vn| ensures c in vn[v] <==> Edge(v, c) in es {
      if v >= |variableNeighbors| && v != e.variable {
        assert Edge(v, c) !in edges;
      }
    }
    forall v, c | 0 <= c < |cn| ensures v in cn[c] <==> Edge(v, c) in es {
      if c >= |constraintNeighbors| && c != e.constraint {
        assert Edge(v, c) !in edges;
      }
    }
  }

  /** The constraints that `edges` join to variable `v`. */
  function AdjacentConstraints(edges: seq<Edge>, v: nat): set<nat>
  {
    if edges == [] then {}
    else (if edges[0].variable == v then {edges[0].constraint} else {}) + AdjacentConstraints(edges[1..], v)
  }

  lemma {:induction false} AdjacentConstraintsMembers(edges: seq<Edge>, v: nat)
    ensures forall c :: c in AdjacentConstraints(edges, v) <==> Edge(v, c) in edges
  {
    if edges != [] {
      AdjacentConstraintsMembers(edges[1..], v);
      assert edges == [edges[0]] + edges[1..];
    }
  }

  /** Without duplicate edges, `v` has as many neighbours as edges with `v` at their variable end. */
  lemma {:induction false} AdjacentConstraintsCount(edges: seq<Edge>, v: nat)
    requires NoDup(edges)
    ensures |AdjacentConstraints(edges, v)| == multiset(VariablesOf(edges))[v]
  {
    if edges != [] {
      var t := edges[1..];
      NoDupTail(edges);
      AdjacentConstraintsCount(t, v);
      VariablesOfCons(edges);
      if edges[0].variable == v {
        AdjacentConstraintsMembers(t, v);
        assert edges[0].constraint !in AdjacentConstraints(t, v);
      }
    }
  }

  lemma VariablesOfCons(edges: seq<Edge>)
    requires edges != []
    ensures multiset(VariablesOf(edges)) == multiset{edges[0].variable} + multiset(VariablesOf(edges[1..]))
  {
    MapCons(edges, VariableOf);
  }

  /** The graph with the roles of variables and constraints exchanged. */
  function Transposed(edges: seq<Edge>): seq<Edge>
  {
    Map(edges, Flip)
  }

  lemma TransposedMembers(edges: seq<Edge>)
    ensures forall e :: e in Transposed(edges) <==> Flip(e) in edges
  {
    var t := Transposed(edges);
    forall e ensures e in t <==> Flip(e) in edges {
      if e in t {
        var i :| 0 <= i < |t| && t[i] == e;
        assert edges[i] == Flip(e);
      }
      if Flip(e) in edges {
        var i :| 0 <= i < |edges| && edges[i] == Flip(e);
        assert t[i] == e;
      }
    }
  }

  /** Agreement of the three views does not depend on which side is called the variables. */
  lemma TransposeConsistent(variableNeighbors: seq<set<nat>>, constraintNeighbors: seq<set<nat>>, edges: seq<Edge>)
    requires Consistent(variableNeighbors, constraintNeighbors, edges)
    ensures Consistent(constraintNeighbors, variableNeighbors, Transposed(edges))
    ensures VariablesOf(Transposed(edges)) == ConstraintsOf(edges)
  {
    var t := Transposed(edges);
    TransposedMembers(edges);
    assert NoDup(t) by {
      forall i, j | 0 <= i < j < |t| ensures t[i] != t[j] {
        assert edges[i] != edges[j];
      }
    }
    forall e | e in t ensures e.variable < |constraintNeighbors| && e.constraint < |variableNeighbors| {
      assert Flip(e) in edges;
    }
    forall c, v | 0 <= c < |constraintNeighbors| ensures v in constraintNeighbors[c] <==> Edge(c, v) in t {
      assert Flip(Edge(c, v)) == Edge(v, c);
    }
    forall c, v | 0 <= v < |variableNeighbors| ensures c in variableNeighbors[v] <==> Edge(c, v) in t {
      assert Flip(Edge(c, v)) == Edge(v, c);
    }
  }

  /** The degree of a variable is the number of edges that have it at their variable end. */
  lemma VariableDegree(variableNeighbors: seq<set<nat>>, constraintNeighbors: seq<set<nat>>, edges: seq<Edge>, v: nat)
    requires Consistent(variableNeighbors, constraintNeighbors, edges)
    requires v < |variableNeighbors|
    ensures |variableNeighbors[v]| == multiset(VariablesOf(edges))[v]
  {
    AdjacentConstraintsMembers(edges, v);
    assert variableNeighbors[v] == AdjacentConstraints(edges, v);
    AdjacentConstraintsCount(edges, v);
  }

  /** The degree of a constraint is the number of edges that have it at their constraint end. */
  lemma ConstraintDegree(variableNeighbors: seq<set<nat>>, constraintNeighbors: seq<set<nat>>, edges: seq<Edge>, c: nat)
    requires Consistent(variableNeighbors, constraintNeighbors, edges)
    requires c < |constraintNeighbors|
    ensures |constraintNeighbors[c]| == multiset(ConstraintsOf(edges))[c]
  {
    TransposeConsistent(variableNeighbors, constraintNeighbors, edges);
    VariableDegree(constraintNeighbors, variableNeighbors, Transposed(edges), c);
  }

  /**
    A node enumerated from a consistent graph has a neighbour exactly when the
    edge between the two is in the edge set, seen from either side.
   */
  lemma HasNeighborIsEdge(variableNeighbors: seq<set<nat>>, constraintNeighbors: seq<set<nat>>, edges: seq<Edge>, v: nat, c: nat)
    requires Consistent(variableNeighbors, constraintNeighbors, edges)
    ensures v < |variableNeighbors| ==> (Node(v, variableNeighbors[v]).HasNeighbor(c) <==> Edge(v, c) in edges)
    ensures c < |constraintNeighbors| ==> (Node(c, constraintNeighbors[c]).HasNeighbor(v) <==> Edge(v, c) in edges)
  {
  }

  /** The sum of the sizes of the neighbour sets. */
  function SumOfDegrees(neighbors: seq<set<nat>>): nat
  {
    if neighbors == [] then 0 else SumOfDegrees(neighbors[..|neighbors| - 1]) + |neighbors[|neighbors| - 1]|
  }

  /** How many elements of `m` are below `n`. */
  function CountBelow(m: multiset<nat>, n: nat): nat
  {
    if n == 0 then 0 else CountBelow(m, n - 1) + m[n - 1]
  }

  lemma {:induction false} CountBelowAdd(m: multiset<nat>, x: nat, n: nat)
    ensures CountBelow(m + multiset{x}, n) == CountBelow(m, n) + if x < n then 1 else 0
  {
    if n > 0 {
      CountBelowAdd(m, x, n - 1);
    }
  }

  lemma {:induction false} CountBelowEmpty(n: nat)
    ensures CountBelow(multiset{}, n) == 0
  {
    if n > 0 {
      CountBelowEmpty(n - 1);
    }
  }

  /** A sequence whose elements are all below `n` has all of its elements counted. */
  lemma {:induction false} CountBelowAll(s: seq<nat>, n: nat)
    requires forall i :: 0 <= i < |s| ==> s[i] < n
    ensures CountBelow(multiset(s), n) == |s|
  {
    if s == [] {
      CountBelowEmpty(n);
    } else {
      var init := s[..|s| - 1];
      assert s == init + [s[|s| - 1]];
      assert multiset(s) == multiset(init) + multiset{s[|s| - 1]};
      assert forall i :: 0 <= i < |init| ==> init[i] == s[i];
      CountBelowAll(init, n);
      CountBelowAdd(multiset(init), s[|s| - 1], n);
    }
  }

  lemma {:induction false} DegreePrefixSum(variableNeighbors: seq<set<nat>>, constraintNeighbors: seq<set<nat>>, edges: seq<Edge>, k: nat)
    requires Consistent(variableNeighbors, constraintNeighbors, edges)
    requires k <= |variableNeighbors|
    ensures SumOfDegrees(variableNeighbors[..k]) == CountBelow(multiset(VariablesOf(edges)), k)
  {
    if k > 0 {
      assert variableNeighbors[..k][..k - 1] == variableNeighbors[..k - 1];
      DegreePrefixSum(variableNeighbors, constraintNeighbors, edges, k - 1);
      VariableDegree(variableNeighbors, constraintNeighbors, edges, k - 1);
    }
  }

  lemma VariableDegreeSum(variableNeighbors: seq<set<nat>>, constraintNeighbors: seq<set<nat>>, edges: seq<Edge>)
    requires Consistent(variableNeighbors, constraintNeighbors, edges)
    ensures SumOfDegrees(variableNeighbors) == |edges|
  {
    DegreePrefixSum(variableNeighbors, constraintNeighbors, edges, |variableNeighbors|);
    assert variableNeighbors[..|variableNeighbors|] == variableNeighbors;
    var vs := VariablesOf(edges);
    forall i | 0 <= i < |vs| ensures vs[i] < |variableNeighbors| {
      assert edges[i] in edges;
    }
    CountBelowAll(vs, |variableNeighbors|);
  }

  /** Every edge has one end on each side: both sides' degrees add up to the number of edges. */
  lemma DegreeSum(variableNeighbors: seq<set<nat>>, constraintNeighbors: seq<set<nat>>, edges: seq<Edge>)
    requires Consistent(variableNeighbors, constraintNeighbors, edges)
    ensures SumOfDegrees(variableNeighbors) == |edges|
    ensures SumOfDegrees(constraintNeighbors) == |edges|
  {
    VariableDegreeSum(variableNeighbors, constraintNeighbors, edges);
    TransposeConsistent(variableNeighbors, constraintNeighbors, edges);
    VariableDegreeSum(constraintNeighbors, variableNeighbors, Transposed(edges));
  }

  /** Neighbour sets all of size `degree` add up to `degree` per node. */
  lemma {:induction false} SumOfEqualDegrees(neighbors: seq<set<nat>>, degree: nat)
    requires forall k :: 0 <= k < |neighbors| ==> |neighbors[k]| == degree
    ensures SumOfDegrees(neighbors) == |neighbors| * degree
    decreases |neighbors|
  {
    if neighbors != [] {
      var init := neighbors[..|neighbors| - 1];
      SumOfEqualDegrees(init, degree);
      assert |init| * degree + degree == |neighbors| * degree;
    }
  }

  /** A set of labels all below `n` has at most `n` elements. */
  lemma {:induction false} LabelsBelowBound(labels: set<nat>, n: nat)
    requires forall x :: x in labels ==> x < n
    ensures |labels| <= n
    decreases n
  {
    if n > 0 {
      LabelsBelowBound(labels - {n - 1}, n - 1);
    } else {
      assert labels == {};
    }
  }

  /**
    The parameters of a regular graph: when every variable has degree
    `variableDegree` and every constraint `constraintDegree`, both sides offer
    as many stubs as there are edges, and no degree exceeds the number of
    nodes on the other side.
   */
  lemma RegularGraphFits(
    sampler: Sampler, variableNeighbors: seq<set<nat>>, constraintNeighbors: seq<set<nat>>, edges: seq<Edge>)
    requires Consistent(variableNeighbors, constraintNeighbors, edges)
    requires |variableNeighbors| == sampler.numberOfVariables && |constraintNeighbors| == sampler.numberOfConstraints
    requires forall v :: 0 <= v < |variableNeighbors| ==> |variableNeighbors[v]| == sampler.variableDegree
    requires forall c :: 0 <= c < |constraintNeighbors| ==> |constraintNeighbors[c]| == sampler.constraintDegree
    ensures sampler.Balanced() && sampler.FitsSimpleGraph()
  {
    DegreeSum(variableNeighbors, constraintNeighbors, edges);
    SumOfEqualDegrees(variableNeighbors, sampler.variableDegree);
    SumOfEqualDegrees(constraintNeighbors, sampler.constraintDegree);
    if variableNeighbors != [] {
      LabelsBelowBound(variableNeighbors[0], |constraintNeighbors|);
    }
    if constraintNeighbors != [] {
      LabelsBelowBound(constraintNeighbors[0], |variableNeighbors|);
    }
  }

  /**
    The edge set and the node counts determine the whole graph: two consistent
    graphs with the same edges and node counts have the same neighbour sets.
   */
  lemma ConsistentDetermined(
    variableNeighbors: seq<set<nat>>, constraintNeighbors: seq<set<nat>>, edges: seq<Edge>,
    otherVariableNeighbors: seq<set<nat>>, otherConstraintNeighbors: seq<set<nat>>, otherEdges: seq<Edge>)
    requires Consistent(variableNeighbors, constraintNeighbors, edges)
    requires Consistent(otherVariableNeighbors, otherConstraintNeighbors, otherEdges)
    requires |variableNeighbors| == |otherVariableNeighbors| && |constraintNeighbors| == |otherConstraintNeighbors|
    requires Elements(edges) == Elements(otherEdges)
    ensures variableNeighbors == otherVariableNeighbors
    ensures constraintNeighbors == otherConstraintNeighbors
  {
    forall v | 0 <= v < |variableNeighbors| ensures variableNeighbors[v] == otherVariableNeighbors[v] {
      forall c ensures c in variableNeighbors[v] <==> c in otherVariableNeighbors[v] {
        assert Edge(v, c) in edges <==> Edge(v, c) in Elements(edges);
        assert Edge(v, c) in otherEdges <==> Edge(v, c) in Elements(otherEdges);
      }
    }
    forall c | 0 <= c < |constraintNeighbors| ensures constraintNeighbors[c] == otherConstraintNeighbors[c] {
      forall v ensures v in constraintNeighbors[c] <==> v in otherConstraintNeighbors[c] {
        assert Edge(v, c) in edges <==> Edge(v, c) in Elements(edges);
        assert Edge(v, c) in otherEdges <==> Edge(v, c) in Elements(otherEdges);
      }
    }
  }

  /** The documentation of `insert_edge`: node counts follow the largest labels, a duplicate is refused. */
  method InsertionExample() returns (
    initially: (nat, nat, nat), afterFirst: (nat, nat, nat), afterSecond: (nat, nat, nat), reinserted: bool)
    ensures initially == (0, 0, 0)
    ensures afterFirst == (1, 1, 1)
    ensures afterSecond == (6, 7, 2)
    ensures !reinserted
  {
    var graph := new Graph();
    initially := (graph.NumberOfVariables(), graph.NumberOfConstraints(), graph.NumberOfEdges());
    var _ := graph.InsertEdge(Edge(0, 0));
    afterFirst := (graph.NumberOfVariables(), graph.NumberOfConstraints(), graph.NumberOfEdges());
    reinserted := InsertFarEdge(graph);
    afterSecond := (graph.NumberOfVariables(), graph.NumberOfConstraints(), graph.NumberOfEdges());
  }

  /** The second half of the `insert_edge` documentation, on the graph holding only edge (0, 0). */
  method InsertFarEdge(graph: Graph) returns (reinserted: bool)
    requires graph.Valid() && graph.edges == [Edge(0, 0)]
    requires |graph.variableNeighbors| == 1 && |graph.constraintNeighbors| == 1
    modifies graph
    ensures graph.Valid() && |graph.edges| == 2
    ensures |graph.variableNeighbors| == 6 && |graph.constraintNeighbors| == 7
    ensures !reinserted
  {
    var _ := graph.InsertEdge(Edge(5, 6));
    assert graph.edges == [Edge(0, 0), Edge(5, 6)];
    reinserted := graph.InsertEdge(Edge(0, 0));
  }

  /** The documentation of `remove_edge`: the edge goes, the node counts stay. */
  method RemovalExample() returns (afterInsertion: (nat, nat, nat), removed: bool, afterRemoval: (nat, nat, nat))
    ensures afterInsertion == (1, 1, 1)
    ensures removed
    ensures afterRemoval == (1, 1, 0)
  {
    var graph := new Graph();
    var _ := graph.InsertEdge(Edge(0, 0));
    assert graph.edges == [Edge(0, 0)];
    afterInsertion := (graph.NumberOfVariables(), graph.NumberOfConstraints(), graph.NumberOfEdges());
    removed := graph.RemoveEdge(Edge(0, 0));
    afterRemoval := (graph.NumberOfVariables(), graph.NumberOfConstraints(), graph.NumberOfEdges());
  }

  /** A large label allocates every node up to it. */
  method LargeLabelExample() returns (variables: nat, constraints: nat)
    ensures variables == 1 && constraints == 43
  {
    var graph := new Graph();
    var _ := graph.InsertEdge(Edge(0, 42));
    variables, constraints := graph.NumberOfVariables(), graph.NumberOfConstraints();
  }

  /** The first half of the documentation's graph: variable 0 meets constraints 0 and 1. */
  method FirstVariableGraph() returns (graph: Graph)
    ensures fresh(graph) && graph.Valid()
    ensures graph.edges == [Edge(0, 0), Edge(0, 1)]
    ensures graph.variableNeighbors == [{0, 1}]
    ensures graph.constraintNeighbors == [{0}, {0}]
  {
    graph := new Graph();
    var first := graph.InsertEdge(Edge(0, 0));
    assert first;
    assert |graph.variableNeighbors| == 1 && graph.variableNeighbors[0] == {0};
    assert |graph.constraintNeighbors| == 1 && graph.constraintNeighbors[0] == {0};
    var second := graph.InsertEdge(Edge(0, 1));
    assert second;
    assert |graph.variableNeighbors| == 1 && graph.variableNeighbors[0] == {0, 1};
    assert |graph.constraintNeighbors| == 2 && graph.constraintNeighbors[0] == {0} && graph.constraintNeighbors[1] == {0};
  }

  /** The documentation's graph after its third edge: variable 1 gains constraint 2. */
  method ThirdEdgeGraph() returns (graph: Graph)
    ensures fresh(graph) && graph.Valid()
    ensures graph.edges == [Edge(0, 0), Edge(0, 1), Edge(1, 2)]
    ensures graph.variableNeighbors == [{0, 1}, {2}]
    ensures graph.constraintNeighbors == [{0}, {0}, {1}]
  {
    graph := FirstVariableGraph();
    var third := graph.InsertEdge(Edge(1, 2));
    assert third;
    assert |graph.variableNeighbors| == 2 && graph.variableNeighbors[0] == {0, 1} && graph.variableNeighbors[1] == {2};
    assert |graph.constraintNeighbors| == 3 && graph.constraintNeighbors[..2] == [{0}, {0}] && graph.constraintNeighbors[2] == {1};
  }

  /** The four-edge graph of the documentation: variable 1 adds constraints 2 and 3. */
  method DocumentedGraph() returns (graph: Graph)
    ensures graph.Valid()
    ensures graph.edges == [Edge(0, 0), Edge(0, 1), Edge(1, 2), Edge(1, 3)]
    ensures graph.variableNeighbors == [{0, 1}, {2, 3}]
    ensures graph.constraintNeighbors == [{0}, {0}, {1}, {1}]
  {
    graph := ThirdEdgeGraph();
    var fourth := graph.InsertEdge(Edge(1, 3));
    assert fourth by {
      assert Edge(1, 3) !in [Edge(0, 0), Edge(0, 1), Edge(1, 2)];
    }
    assert graph.edges == [Edge(0, 0), Edge(0, 1), Edge(1, 2)] + [Edge(1, 3)];
    assert |graph.variableNeighbors| == 2 && graph.variableNeighbors[0] == {0, 1} && graph.variableNeighbors[1] == {2, 3};
    assert |graph.constraintNeighbors| == 4 && graph.constraintNeighbors[..3] == [{0}, {0}, {1}] && graph.constraintNeighbors[3] == {1};
  }

  /** The same graph enumerated node by node, in increasing label order. */
  method NodeEnumeration() returns (variables: seq<Node>, constraints: seq<Node>)
    ensures variables == [Node(0, {0, 1}), Node(1, {2, 3})]
    ensures constraints == [Node(0, {0}), Node(1, {0}), Node(2, {1}), Node(3, {1})]
    ensures forall v :: v in variables ==> v.Degree() == 2
    ensures forall c :: c in constraints ==> c.Degree() == 1
  {
    var graph := DocumentedGraph();
    variables := graph.Variables();
    constraints := graph.Constraints();
  }
}
