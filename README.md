# Regular bipartite graph sampler — a Dafny model

This project models the core of `bigs`, a sampler of random regular bipartite
graphs. A graph has *variables* on one side and *constraints* on the other.
A sampler fixes four numbers: how many variables and constraints there are,
and the degree every variable (`variableDegree`) and every constraint
(`constraintDegree`) must reach.

The model has three parts.

- **The graph store** (`graphs.dfy`, class `Graphs.Graph`). The graph keeps
  its edges in three views:
  - an insertion-ordered edge set, modelled as a duplicate-free `seq<Edge>`;
  - a vector of neighbour sets, one per variable;
  - a vector of neighbour sets, one per constraint.

  Inserting an edge grows the two vectors with empty slots when a label is
  new. Removing an edge never shrinks them. The invariant `Valid()` says the
  three views agree: an edge is in the set exactly when each end lists the
  other as a neighbour, and every label is below its side's node count. That
  invariant is what keeps the indexing in `remove_edge` in bounds. Lemmas
  prove three further facts:
  - a node's degree is the number of edges at it;
  - the degrees on each side add up to the number of edges;
  - the edge set and the node counts determine the whole graph.
- **The sampling engine** (`candidates.dfy`, `sampling.dfy`). This is a
  configuration model:
  - every node is repeated once per unit of degree (its *stubs*);
  - each side's stub list is shuffled, and the two lists are zipped into a
    queue of candidate edges;
  - the queue is drained into a graph. A new candidate is inserted. A
    duplicate is repaired by a double edge swap with the first edge that
    allows one, or goes to the back of the queue.

  The engine is specified on values: `Step` is one iteration and `Run` is a
  bounded number of them. `Sample.Generate` is the imperative loop over a
  `Graph` object, proved to end where `Run` says. The central invariant
  (`Accounted`) holds at every step: for every node, its occurrences among
  the placed edges plus its occurrences still in the queue equal its stubs,
  and no edge is placed twice. Once the queue is empty, this yields exact
  regularity: every variable has degree `variableDegree`, every constraint
  has degree `constraintDegree`, and there are `NumberOfEdges()` edges.
- **Parameter validation** (`builders.dfy`). A builder class has four
  chainable setters. `Build` returns a `Sampler` when
  `numberOfVariables × variableDegree = numberOfConstraints × constraintDegree`.
  Otherwise it returns the `InvalidParameters` record carrying all four
  values. `BuildChecked` adds the check `Build` lacks (see Findings): no
  degree may exceed the number of nodes on the other side.

The engine's sampler (`src/sampler.rs`) stores a scaling factor. The
library's sampler (`bigs/src/builder.rs`) stores the two node counts. The
model works over the second form, and `Samplers.ScaledSampler` shows the
first is the special case `numberOfVariables = constraintDegree × scalingFactor`,
`numberOfConstraints = variableDegree × scalingFactor`.

**Edge count.** The engine computes the number of edges as
`variable_degree × constraint_degree × scaling_factor`
(`src/sampler.rs:31-33`). `Samplers.Sampler.NumberOfEdges` is
`numberOfVariables × variableDegree`, the number of stubs on either side, and
`Samplers.ScaledSampler` proves the two equal.

**Graph calls.** The engine calls the graph operations as `contains`,
`insert` and `remove`. They are modelled as the graph's `contains_edge`,
`insert_edge` and `remove_edge` (`ContainsEdge`, `InsertEdge`, `RemoveEdge`).

**Randomness.** The random shuffles are parameters. A shuffle is a
Fisher–Yates pass driven by a sequence of draws, `draws[i] <= i`. Only the
permutation property is proved.

## Model

| member | source | states |
|---|---|---|
| Samplers.Sampler.NumberOfEdges | src/sampler.rs:31-33 | the edge count is the number of variable stubs, and for a balanced sampler it is also the number of constraint stubs |
| Samplers.ScaledSampler | src/sampler.rs:23-33 | the scaling-factor form has `cd·sf` variables and `vd·sf` constraints, is always balanced, never asks a node for more neighbours than the other side has, and has `vd·cd·sf` edges |
| Builders.Builder.constructor | bigs/src/builder.rs:9-15 | a default builder has all four parameters equal to 0 |
| Builders.Builder.VariableDegree | bigs/src/builder.rs:18-22 | sets the variable degree only, leaves the other three parameters unchanged, and returns the same builder |
| Builders.Builder.ConstraintDegree | bigs/src/builder.rs:24-28 | sets the constraint degree only, leaves the other three unchanged, and returns the same builder |
| Builders.Builder.NumberOfVariables | bigs/src/builder.rs:30-34 | sets the number of variables only, leaves the other three unchanged, and returns the same builder |
| Builders.Builder.NumberOfConstraints | bigs/src/builder.rs:36-40 | sets the number of constraints only, leaves the other three unchanged, and returns the same builder |
| Builders.Builder.Build | bigs/src/builder.rs:42-62 | fails exactly when the stub counts differ, and the error carries the four values unchanged; on success the sampler carries the four values unchanged and is balanced; it only reads the builder, so every call gives the same answer |
| Builders.Builder.BuildChecked | bigs/src/builder.rs:42-62 | the corrected build: fails exactly when the stub counts differ or a degree exceeds the number of nodes on the other side, with the four values in the error; whatever it accepts, `Build` accepts with the same sampler |
| Builders.BuildCheckedAcceptsRegular | bigs/src/builder.rs:42-62 | the corrected build accepts the node counts and degrees of every regular graph, so its extra check rejects only parameters no graph meets |
| Builders.UnfitParameters | bigs/src/builder.rs:42-62 | one variable and one constraint of degree 2 are balanced, so `Build` accepts them, but they do not fit a simple graph and the corrected build rejects them |
| Builders.Configured | bigs/tests/main.rs:9-15 | the chained setters, in the tests' order, yield a builder holding exactly the given values |
| Builders.TestParameters | bigs/tests/main.rs:55-63 | (10 variables, 10 constraints, degrees 3 and 2) is rejected with its parameters; (10, 8, 4, 5) and (9, 15, 5, 3) are accepted, with 40 and 45 edges |
| Graphs.Grow | bigs/src/graph.rs:143-149 | the neighbour vector is extended with empty sets to `max(old length, label + 1)` slots, and old slots are kept |
| Graphs.Attach | bigs/src/graph.rs:143-151 | after growing, the slot of the label gains the neighbour; every other slot is as before, or empty if new |
| Graphs.InsertedMembers | bigs/src/graph.rs:133-134 | `Inserted`, the edge set's `insert`: inserting into the edge set adds exactly the edge; the length grows by one exactly when it was absent; the set stays duplicate-free |
| Graphs.RemovedMembers | bigs/src/graph.rs:189-190 | `Removed`, the edge set's `remove`: removing from the edge set takes exactly the edge out and keeps every other edge; the length drops by one exactly when it was present; the set stays duplicate-free |
| Graphs.Graph.constructor | bigs/src/graph.rs:90-97 | the new graph has no variable, no constraint and no edge, and is consistent |
| Graphs.Graph.FromSampler | bigs/src/graph.rs:297-309 | the graph has exactly the sampler's node counts, every neighbour set is empty, and there are no edges |
| Graphs.Graph.ContainsEdge | bigs/src/graph.rs:99-102 | an edge is contained exactly when its variable lists its constraint, and exactly when its constraint lists its variable |
| Graphs.Graph.InsertEdge | bigs/src/graph.rs:104-141 | returns true exactly when the edge was absent, and afterwards the edge is contained; the edge count rises by one exactly on true; node counts become `max(old, label + 1)` with new slots empty; a duplicate changes nothing; consistency is kept |
| Graphs.Graph.InsertVariable | bigs/src/graph.rs:143-151 | the variable vector grows to reach the edge's variable, and that slot gains the edge's constraint |
| Graphs.Graph.InsertConstraint | bigs/src/graph.rs:153-162 | the constraint vector grows to reach the edge's constraint, and that slot gains the edge's variable |
| Graphs.Graph.RemoveEdge | bigs/src/graph.rs:164-197 | returns true exactly when the edge was present, and afterwards it is absent; the edge count drops by one exactly on true; both node counts are unchanged; the two ends lose each other as neighbours; an absent edge changes nothing; consistency is kept |
| Graphs.Graph.Edges | bigs/src/graph.rs:199-202 | lists every edge of the graph once, and nothing else |
| Graphs.Graph.NumberOfVariables | bigs/src/graph.rs:204-209 | in a consistent graph every edge's variable is below it |
| Graphs.Graph.NumberOfConstraints | bigs/src/graph.rs:211-216 | in a consistent graph every edge's constraint is below it |
| Graphs.Graph.NumberOfEdges | bigs/src/graph.rs:218-221 | it is the number of distinct edges |
| Graphs.Graph.Variables | bigs/src/graph.rs:223-257 | one node per variable slot, labelled 0 to n − 1 in increasing order, each with that slot's neighbours |
| Graphs.Graph.Constraints | bigs/src/graph.rs:259-295 | one node per constraint slot, labelled 0 to n − 1 in increasing order, each with that slot's neighbours |
| Graphs.AttachKeepsConsistent | bigs/src/graph.rs:133-162 | adding a new edge to all three views keeps them in agreement |
| Graphs.AdjacentConstraintsCount | bigs/src/graph.rs:353-357 | without duplicate edges, the constraints joined to a variable are as many as the edges at that variable |
| Graphs.TransposeConsistent | bigs/src/graph.rs:84-86 | consistency is symmetric in the two sides |
| Graphs.VariableDegree | bigs/src/graph.rs:353-357 | a variable's degree is the number of edges at it |
| Graphs.ConstraintDegree | bigs/src/graph.rs:353-357 | a constraint's degree is the number of edges at it |
| Graphs.DegreeSum | bigs/src/graph.rs:218-221 | the variable degrees and the constraint degrees each add up to the number of edges |
| Graphs.Node.Degree | bigs/src/graph.rs:353-357 | a node's degree is zero exactly when it has no neighbour |
| Graphs.Node.HasNeighbor | bigs/src/graph.rs:359-362 | a node with a neighbour has a positive degree |
| Graphs.HasNeighborIsEdge | bigs/src/graph.rs:359-362 | a node enumerated from the graph has a neighbour exactly when the edge between them is in the edge set, from either side |
| Graphs.RegularGraphFits | bigs/src/builder.rs:42-62 | the node counts and degrees of any regular graph are balanced and no degree exceeds the number of nodes on the other side |
| Graphs.ConsistentDetermined | bigs/src/graph.rs:82-87 | two consistent graphs with the same edges and node counts have the same neighbour sets, so they are equal as values |
| Graphs.InsertionExample | bigs/src/graph.rs:113-131 | counts go (0, 0, 0), then (1, 1, 1) after (0, 0), then (6, 7, 2) after (5, 6); re-inserting (0, 0) returns false |
| Graphs.InsertFarEdge | bigs/src/graph.rs:126-131 | from the graph holding (0, 0), inserting (5, 6) gives 6 variables, 7 constraints and 2 edges, and (0, 0) is refused |
| Graphs.RemovalExample | bigs/src/graph.rs:171-188 | removing the only edge returns true and leaves the counts at (1, 1, 0) |
| Graphs.LargeLabelExample | bigs/src/graph.rs:73-81 | inserting (0, 42) into an empty graph gives 1 variable and 43 constraints |
| Graphs.FirstVariableGraph | bigs/src/graph.rs:44-47 | edges (0, 0) and (0, 1) give variable 0 the neighbours {0, 1} and constraints 0 and 1 the neighbour {0} |
| Graphs.ThirdEdgeGraph | bigs/src/graph.rs:44-48 | after the third documented edge, the edges are (0, 0), (0, 1), (1, 2), variable 1 has the neighbour {2}, and constraint 2 has the neighbour {1} |
| Graphs.DocumentedGraph | bigs/src/graph.rs:41-53 | the four documented edges are the edge set, in insertion order, giving 2 variables with neighbours {0, 1} and {2, 3}, 4 constraints with one neighbour each, and 4 edges |
| Graphs.NodeEnumeration | bigs/src/graph.rs:227-289 | the enumerations list (0, {0, 1}), (1, {2, 3}) and (0, {0}), (1, {0}), (2, {1}), (3, {1}); every variable has degree 2 and every constraint degree 1 |
| Candidates.Repeat | src/sampler.rs:73 | a label repeated `count` times and nothing else |
| Candidates.Stubs | src/sampler.rs:72-74 | every label below n occurs exactly `degree` times and no other label occurs; the length is n × degree; labels are in increasing order |
| Candidates.Shuffle | src/sampler.rs:75 | the shuffle is a permutation: same length, same multiset |
| Candidates.CandidateVariables | src/sampler.rs:71-77 | `number_of_edges` labels, forming exactly the multiset of variable stubs |
| Candidates.CandidateConstraints | src/sampler.rs:79-88 | `number_of_edges` labels, forming exactly the multiset of constraint stubs |
| Candidates.Zip | src/sampler.rs:62-68 | as many pairs as the shorter list; the variable ends and the constraint ends give back the two lists, truncated to that length |
| Candidates.CandidateEdges | src/sampler.rs:61-69 | `number_of_edges` candidates; their variable ends are exactly the variable stubs and their constraint ends exactly the constraint stubs |
| Sampling.SwapKeepsLabels | src/sampler.rs:120-131 | a swap keeps the variable multiset and the constraint multiset of the two edges, and swapping back restores them |
| Sampling.Swap | src/sampler.rs:120-131 | each swapped edge keeps its own variable, and the pair changes exactly when the two constraints differ |
| Sampling.FindFromFinds | src/sampler.rs:113-118 | the search from a position yields the first qualifying edge at or after it, and nothing only when none qualifies |
| Sampling.FindEdgeToSwapFinds | src/sampler.rs:113-118 | `FindEdgeToSwap` (with `FindFrom` and `Qualifies`): a found partner is a graph edge whose two swapped edges are both absent, and no earlier edge qualifies; nothing is found exactly when no edge qualifies |
| Sampling.RunExtend | src/sampler.rs:92-98 | `Run`, the `while let` loop: while the queue is not empty, one more iteration is one more `Step` |
| Sampling.RunStopped | src/sampler.rs:92 | once the queue is empty, further iterations change nothing |
| Sampling.StepConservesSize | src/sampler.rs:92-98 | in every iteration the candidate leaves the queue exactly when the graph gains an edge: edges plus queued candidates keep their number |
| Sampling.RunConservesSize | src/sampler.rs:92-98 | over any number of iterations, edges plus queued candidates keep their number |
| Sampling.InsertedLabels | src/sampler.rs:96 | inserting a new candidate appends its variable and its constraint to the label lists |
| Sampling.RemovedLabels | src/sampler.rs:104 | removing the partner takes exactly its variable and its constraint out of the label multisets |
| Sampling.PartnerDiffers | src/sampler.rs:103-107 | a partner of a duplicate differs from it in both labels, and the two swapped edges are absent and distinct |
| Sampling.SwapPlacesCandidate | src/sampler.rs:102-107 | a repair adds exactly one edge, keeps the edges distinct, and changes the label counts exactly as inserting the candidate would |
| Sampling.PopLabels | src/sampler.rs:92 | taking the front candidate off moves exactly its labels out of the queue |
| Sampling.RequeueLabels | src/sampler.rs:108-110 | sending a candidate to the back keeps the queue's label multisets |
| Sampling.StepKeepsAccounted | src/sampler.rs:92-98 | `Step`, the loop body: every iteration keeps, for each node, placed occurrences plus queued occurrences equal to its stubs, and keeps the edges distinct |
| Sampling.RunKeepsAccounted | src/sampler.rs:90-99 | the accounting holds after any number of iterations |
| Sampling.AccountedLabelsInRange | src/sampler.rs:90-99 | every label placed or queued is a node of the sampler, so the graph never grows past its node counts |
| Sampling.DrainedIsRegular | src/sampler.rs:90-99 | with the queue empty, each variable occurs `variableDegree` times and each constraint `constraintDegree` times among the edges, and there are `number_of_edges` edges |
| Sampling.DrainedGraphIsRegular | src/sampler.rs:90-99 | a consistent graph whose edges account for all stubs has every variable of degree `variableDegree`, every constraint of degree `constraintDegree`, and `number_of_edges` edges |
| Sampling.Sample.FromSamplerAndDraws | src/sampler.rs:54-59 | the sample's queue is the candidate edges drawn with the given shuffles, and it accounts for all stubs |
| Sampling.Sample.Generate | src/sampler.rs:90-99 | the graph has the sampler's node counts and ends where `Run` says; once the queue is drained, every variable has degree `variableDegree`, every constraint has degree `constraintDegree`, and the edge count is `number_of_edges` |
| Sampling.Sample.Drain | src/sampler.rs:92-98 | the loop leaves the graph and the queue where `Run` says, keeps the graph consistent, and keeps the node counts |
| Sampling.Sample.PlaceFront | src/sampler.rs:92-97 | one iteration leaves the graph and the queue in the state `Step` computes |
| Sampling.Sample.TryToSwapEdgeAndInsert | src/sampler.rs:102-111 | with a partner, the graph becomes the swapped-in edge sequence and the queue is unchanged; without one, the graph is unchanged and the candidate is appended to the queue |
| Sampling.Sample.SwapIn | src/sampler.rs:103-107 | the partner leaves, the two swapped edges enter in order, and consistency is kept |
| Sampling.SampleWith | src/sampler.rs:19-21 | a sample is the drained candidate queue: its edges are those `Run` computes, it is drained exactly when `Run` empties the queue, it has the sampler's node counts, and it is regular once drained |
| Sampling.Reproducible | bigs/tests/main.rs:33-51 | the same sampler with the same draws gives two distinct graph objects with the same edges and the same neighbour sets |
| Sampling.GraphsHaveTheRightParameters | bigs/tests/main.rs:7-31 | the sampler for 10 variables of degree 4 and 8 constraints of degree 5 gives 10 and 8 nodes; once drained, every variable has degree 4, every constraint degree 5, and there are 40 edges |
| Sampling.RequeuedForever | src/sampler.rs:92-118 | with (0, 0) placed and a copy of it queued, every iteration finds no partner and sends the copy back, so the state never changes |
| Sampling.UnfitCandidates | src/sampler.rs:61-88 | for one variable and one constraint of degree 2, every shuffle yields the queue (0, 0), (0, 0) |
| Sampling.TwinQueueNeverDrains | src/sampler.rs:90-99 | the queue (0, 0), (0, 0) drained into an empty graph is never empty, whatever the number of iterations |
| Sampling.UnfitQueueNeverDrains | src/sampler.rs:90-99 | for one variable and one constraint of degree 2, no number of iterations drains the candidate queue |
| Sampling.UnfitParametersNeverDrain | bigs/src/builder.rs:42-62 | `Build` accepts one variable and one constraint of degree 2, and sampling from them never drains, whatever the draws and the number of iterations |

## Findings

| source | as written | input that shows it | evidently intended | confidence | as-written member | corrected member |
|---|---|---|---|---|---|---|
| bigs/src/builder.rs:42-62 | `build` accepts every balanced parameter set, including ones where a node's degree exceeds the number of nodes on the other side; no graph without repeated edges meets those degrees, and `generate` (src/sampler.rs:90-99) then never empties its queue | 1 variable, 1 constraint, both degrees 2: every shuffle gives the queue (0, 0), (0, 0); the second copy has no swap partner and is requeued forever | reject a parameter set with a variable degree above the number of constraints or a constraint degree above the number of variables | high; not executed | Sampling.UnfitParametersNeverDrain | Builders.Builder.BuildChecked |

## Left out

- Sampling.Sample.Generate: the loop has a `fuel` bound on its iterations, and only partial correctness is proved (regular once the queue is drained). The code loops until the queue is empty, and nothing in it bounds the number of requeues: for some parameters `Build` accepts, the loop never ends (see Findings).
- Builders.Builder.BuildChecked: only one direction of the intended check is proved (it accepts every parameter set a regular graph has); that every accepted set is met by some graph, and that sampling then always drains, is not proved.
- Sampling.SampleWith: the random number generator is replaced by two sequences of draws, and uniformity of the sample is not modelled.
- Candidates.Shuffle: the library shuffle is modelled as a Fisher–Yates pass over the draws, on values rather than in place; only the permutation property is proved.
- Builders.Builder.Build: integers are unbounded, so overflow of `usize` in the two products is not modelled.
- Samplers.Sampler.NumberOfEdges: integers are unbounded, so overflow of `usize` in the product is not modelled.
- The order of the neighbour sets is not modelled; they are sets. The edge order is modelled as insertion order with swap-removal, which is what the edge set's `remove` does.
- `Graph::edges`, `variables` and `constraints` return sequences rather than iterators. A `Node` holds a copy of its neighbour set rather than a reference.
- `NodeKind`, `Node::is_variable` and `Node::is_constraint` are left out: they are tags with no effect on the graph.
- Capacity hints (`with_capacity`) are left out: they affect performance only.
- Serialisation derives and the `Display` text of `InvalidParameters` are left out: they are formatting only.
- The command-line tool (`cli/src/main.rs`) is left out: it does argument parsing, seeding, JSON output and file writes, all of which are I/O.
- `src/builder.rs` is not part of this model: it is an earlier, non-validating builder.
- `bigs/src/lib.rs` is not part of this model: it only re-exports modules.
- `Sampler::builder` and the three degree and factor getters of the engine's sampler are left out: they are field reads, given by the datatype's fields.
