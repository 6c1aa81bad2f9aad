# semantic-graph-js, modelled in Dafny

The library is a small reactive value-propagation engine. A *graph* keeps *nodes* by
name. A node is a mutable cell with:

- a value;
- a *merge*, which combines an incoming value with the stored one;
- a *constraint*, which decides whether the stored value propagates;
- the list of *edges* that read it.

An edge reads a non-empty list of input nodes and writes to zero or more output nodes.
When an input node propagates, each of its edges:

1. reads the current values of its inputs, in input order;
2. asks its *guard* whether to go on (only a result of exactly `false` stops it);
3. runs its *transform* once;
4. updates every output with that one result, in order, each update finishing before the next starts.

The graph can do the following:

- bind new nodes;
- `define` a node by *projections*, which produce edges whose output is that node;
- add output-less *effect* edges;
- `update` or `force` a node by name.

A *from-projection* turns a list of input names and a list of rules into one edge per rule.

The model has four layers:

- **`values.dfy`** (module `Values`): the values, the errors and the shapes of user functions.
  - Guards and transforms are `seq<Value> -> Result<Value>`.
  - Constraints are `Value -> Result<Value>`.
  - Merges are `(incoming, stored) -> Result<Value>`.
  - A user function that throws returns `Err(Thrown(..))`.
  - `Arg<T>` stands for an argument the code tests with `Array.isArray`.
- **`engine.dfy`** (module `Engine`): `Node` and `Edge` as classes that point at each other, as in the original.
  - Their methods update fields in place (`value`, `edges`, `inputNodes`, `outputNodes`).
  - Propagation is specified by total ghost functions over a snapshot of the values and of the wiring: `UpdateSpec`, `PropagateSpec`, `EdgesSpec`, `EdgeSpec` and `OutputsSpec`. Each method is proved to leave exactly the values its specification function computes.
  - Each method returns a ghost trace of what it did: `Stored`, `Blocked` and `Ran` events, in order.
  - Every `await` is one sequential step.
  - A sweep that keeps going round a cycle (every constraint and guard on it passing) never finishes in the original: each step awaits the next, so the update's promise never settles and no error reaches the caller. A cycle that some guard or constraint eventually blocks finishes like any other sweep (`PropagationLemmas.BlockedCycleFinishes`). The model bounds how deep a sweep may nest by a budget `fuel`, and cuts off a deeper sweep with `OutOfFuel`. That outcome is the model's own and has no counterpart in the original. A sweep that is not cut off gives the same result with any larger budget (`PropagationLemmas.UpdateFuel`).
- **`graph.dfy`** (module `Graph`): the `SemanticGraph` class, the from-projection, and value-level plans of what `define` and `applyTo` make.
  - The graph keeps ghost records of its nodes and of every edge made on it.
  - `Valid()` says that these form a closed wiring in which no recorded edge is without inputs.
  - The from-projection lives in the same module as the graph because each refers to the other.
- **Properties**:
  - `propagation_lemmas.dfy` (module `PropagationLemmas`): lemmas about the propagation specification.
  - `graph_lemmas.dfy` (module `GraphLemmas`): lemmas about lookups and definitions.
  - `form_scenario.dfy` (module `FormScenario`): the sign-up form of `examples/basic-form.js`, end to end.

The default transform, `async (value, edge) => value`, returns the whole input vector whatever its length, so `Values.InputVector` is `List(vs)` even for one input.

## Model

| member | source | states |
|---|---|---|
| Engine.Node.constructor | src/SemanticGraphNode/index.js:11-35 | name and value are stored. A missing edge list is empty, a missing constraint always passes, a missing merge keeps the incoming value. debug is true only for exactly `true` |
| Engine.Node.AddEdge | src/SemanticGraphNode/index.js:58-62 | exactly one edge is appended after the earlier ones, which are untouched |
| Engine.Node.Update | src/SemanticGraphNode/index.js:46-54 | the new values and the trace are those of `UpdateSpec`: merge first, store the merged value, then propagate. A failing merge stores nothing |
| Engine.Node.Force | src/SemanticGraphNode/index.js:67-72 | forcing is propagation from the stored value (`PropagateSpec`), with no merge |
| Engine.Node.Propagate | src/SemanticGraphNode/index.js:76-110 | edges are visited only when the constraint on the stored value yields exactly true; otherwise nothing changes |
| Engine.Node.VisitEdges | src/SemanticGraphNode/index.js:94-97 | edges are visited in attachment order, each finishing before the next, and the first failure ends the loop (`EdgesSpec`) |
| Engine.Edge.constructor | src/SemanticGraphEdge/index.js:17-47 | inputs and outputs are kept in the given order. Each input has the edge appended once per occurrence. A missing guard passes, a missing transform yields the input vector |
| Engine.Edge.PropagateFromAll | src/SemanticGraphEdge/index.js:25-27 | the inputs are appended in order, and each input node gains this edge once per occurrence, at the end of its list |
| Engine.Edge.PropagateToAll | src/SemanticGraphEdge/index.js:30-32 | the outputs are appended in order |
| Engine.Edge.New | src/SemanticGraphEdge/index.js:17-22 | an input argument that is not a non-empty list fails with NoInputNodes, before any node is touched. Otherwise it yields a fresh edge as the constructor describes, and missing outputs are none |
| Engine.Edge.PropagateTo | src/SemanticGraphEdge/index.js:109-113 | one output is appended after the earlier ones |
| Engine.Edge.PropagateFrom | src/SemanticGraphEdge/index.js:116-121 | the node registers this edge at the end of its edge list, and the node becomes the last input |
| Engine.Edge.GetInputNodes | src/SemanticGraphEdge/index.js:125-127 | the input nodes, with their current values in input order |
| Engine.Edge.GetOutputNodes | src/SemanticGraphEdge/index.js:131-135 | the output nodes. With none, the names hold only the no-output marker and there are no values |
| Engine.Edge.GetNodes | src/SemanticGraphEdge/index.js:160-168 | three parallel lists (nodes, names, values) of the argument's length and in its order |
| Engine.Edge.Propagate | src/SemanticGraphEdge/index.js:57-105 | the new values and the trace are those of `EdgeSpec`: read the inputs, block only on exactly false, run the transform once, then broadcast |
| Engine.Edge.Broadcast | src/SemanticGraphEdge/index.js:92-101 | every output is updated with the same value, in output order, and the first failure stops the loop (`OutputsSpec`) |
| Graph.Resolve | src/SemanticGraphProjection/src/SemanticGraphFromProjection/index.js:37 | on success, one node per name, each the one bound to that name, in name order |
| Graph.NewFromProjection | src/SemanticGraphProjection/src/SemanticGraphFromProjection/index.js:9-26 | succeeds iff both arguments are lists. Non-list rules fail with RulesNotArray even when the inputs are not a list either. Otherwise non-list inputs fail with InputsNotArray |
| Graph.FromProjection.ApplyTo | src/SemanticGraphProjection/src/SemanticGraphFromProjection/index.js:36-40 | it fails iff an input name is unbound, or there are rules but no inputs, and then makes nothing and no node's edges change. Otherwise it yields one fresh edge per rule, in rule order, each over the resolved inputs with no outputs, with the rule's guard and transform and the graph's debug flag. Every node's edge list is then its old list followed by each new edge in rule order, repeated once per occurrence of the node among the inputs (`Grown`) |
| Graph.SemanticGraph.constructor | src/index.js:10-13 | an empty graph with the given debug flag |
| Graph.SemanticGraph.Binding | src/index.js:23-37 | a bound name fails with DuplicateNode and changes nothing. A fresh name gets exactly one new node with the value, no edges, and the defaults, with debug taken from the graph when not given. Other entries are unchanged |
| Graph.SemanticGraph.GetNode | src/index.js:41-47 | the bound node iff the name is bound, otherwise NodeNotFound with that name |
| Graph.SemanticGraph.Update | src/index.js:67-71 | an unknown name fails with NodeNotFound and changes nothing. Otherwise it does what `UpdateSpec` says for that node over the graph's wiring |
| Graph.SemanticGraph.Force | src/index.js:75-79 | an unknown name fails with NodeNotFound and changes nothing. Otherwise it does what `PropagateSpec` says for that node |
| Graph.SemanticGraph.Effect | src/index.js:83-91 | an unknown name fails with its NodeNotFound, and an empty list with NoInputNodes, both before any edge registers. Otherwise it makes one fresh edge over the named nodes, with no outputs, guard `when` and transform `run`, registered on each input once per occurrence |
| Graph.SemanticGraph.Define | src/index.js:52-63 | the outcome and the edges made are those of `DefinePlan`. An unknown target fails first and changes no node's edges. A single projection is a list of one. Each edge gets the target as its one output, in projection order, and edges already made stay when a later item fails. Every node's edge list is its old list followed by each new edge once per occurrence of the node among that edge's planned inputs, in the order made (`Attached`) |
| Graph.SemanticGraph.DefineAll | src/index.js:54-61 | the projections are applied in order up to the first failure, with outcome, edges and edge-list growth as `Planned` describes them |
| Graph.SemanticGraph.DefineStep | src/index.js:56-60 | one projection extends what the earlier ones made. On success the built edges and every node's growth cover the new edges too. On failure both stay as they were |
| Graph.SemanticGraph.DefineOne | src/index.js:56-60 | an item without `applyTo` fails with MissingApplyTo, and the abstract projection with AbstractApplyTo. On failure no node's edges change. A from-projection's edges all get the target as output, and every node gains exactly what `Attached` says for them |
| Graph.SemanticGraph.DefineFrom | src/index.js:58-59 | a from-projection's edges are made as `applyTo` makes them and each gets the target as its one output. Every node gains the new edges once per occurrence among the inputs |
| Graph.SemanticGraph.Connect | src/index.js:59 | each edge gets the target appended as its last output |
| Graph.SemanticGraph.MakeEdges | src/SemanticGraphProjection/src/SemanticGraphFromProjection/index.js:39 | one fresh, distinct edge per rule, in rule order, all over the same inputs and recorded in the graph. Every node's edge list is its old list followed by each new edge, in rule order, once per occurrence of the node among the inputs |
| Graph.SemanticGraph.MakeEdge | src/SemanticGraphProjection/src/SemanticGraphFromProjection/index.js:39 | one fresh edge following the rule. Each input node gains it once per occurrence at the end of its edge list, and the graph stays closed |
| Graph.SemanticGraph.LookupByName | src/index.js:108-116 | the result is never longer than the names |
| Graph.SemanticGraph.From | src/index.js:120-123 | `from` fails iff the input names are not a list, and then with InputsNotArray. Otherwise the projection keeps the names, and a single rule becomes the list holding it |
| Graph.PlannedStops | src/index.js:56-60 | once a projection has failed, the remaining ones change neither the outcome nor the edges |
| GraphLemmas.LookupAppend | src/index.js:108-116 | lookups keep name order: looking up `a + b` is looking up `a`, then `b` |
| GraphLemmas.LookupOne | src/index.js:108-116 | a single name yields its entry when bound and nothing otherwise |
| GraphLemmas.LookupAllBound | src/index.js:108-116 | the result is as long as the names iff every name is bound, so missing names are skipped |
| GraphLemmas.ResolveOk | src/SemanticGraphProjection/src/SemanticGraphFromProjection/index.js:37 | resolving names succeeds iff every name is bound |
| GraphLemmas.ResolveFirstMissing | src/index.js:85 | resolution fails with the first unbound name, in name order |
| GraphLemmas.ResolveIsLookup | src/index.js:108-116 | where every name is bound, `getNode`-based resolution and `lookupByName` agree |
| GraphLemmas.PlannedPrefix | src/index.js:56-60 | what the first projections made is a prefix of what the whole definition makes |
| GraphLemmas.PlannedFailsAt | src/index.js:57 | the first item that cannot be applied ends the definition with its error, and keeps the earlier edges |
| GraphLemmas.PlannedAllApply | src/index.js:56-60 | when every item can be applied, the definition completes with one edge per rule of every projection |
| GraphLemmas.AppliesFrom | src/SemanticGraphProjection/src/SemanticGraphFromProjection/index.js:39 | a from-projection plans one edge per rule, each over the same resolved inputs |
| GraphLemmas.InputsFail | src/SemanticGraphProjection/src/SemanticGraphFromProjection/index.js:37-39 | applying fails iff an input name is unbound, or there are no inputs and at least one rule |
| PropagationLemmas.GuardFalseBlocks | src/SemanticGraphEdge/index.js:64-73 | a guard of exactly false: no transform, no value changes, one Blocked event |
| PropagationLemmas.GuardOtherwiseProceeds | src/SemanticGraphEdge/index.js:64-77 | any other guard result runs the transform once and broadcasts its result, or fails with the transform's error and changes nothing |
| PropagationLemmas.EdgeSeesInputs | src/SemanticGraphEdge/index.js:60 | the guard and the transform see the inputs' current values, in input order |
| PropagationLemmas.NoOutputsStillRuns | src/SemanticGraphEdge/index.js:77-89 | with no outputs, the transform still runs and no value changes |
| PropagationLemmas.UpdateStoresFirst | src/SemanticGraphNode/index.js:46-54 | the merged value is stored first, and it stays stored when the constraint then does not pass |
| PropagationLemmas.MergeFailureKeeps | src/SemanticGraphNode/index.js:49 | a failing merge changes no value and propagates nothing |
| PropagationLemmas.ConstraintGates | src/SemanticGraphNode/index.js:85 | anything observable happens only when the constraint yields exactly true; otherwise no value changes, and a constraint yielding anything but true ends the sweep with `Done`, not an error |
| PropagationLemmas.SilentEdgeKeeps | src/SemanticGraphEdge/index.js:57-105 | an edge that records nothing changed nothing and failed. Otherwise its first event is its guard's verdict |
| PropagationLemmas.ForceStartsAtEdges | src/SemanticGraphNode/index.js:67-72 | forcing merges nothing: with no event no value changes, and the first event, if any, is the guard verdict of the node's first edge |
| PropagationLemmas.EdgesAppend | src/SemanticGraphNode/index.js:94-97 | visiting `a + b` is visiting `a`, then, unless that failed, `b` from where `a` left the values |
| PropagationLemmas.FailedEdgeStops | src/SemanticGraphNode/index.js:94-97 | a failing edge ends the visit, and the later edges are not visited |
| PropagationLemmas.FanOut | src/SemanticGraphEdge/index.js:92-101 | outputs that keep what they receive all end up holding the same value, with one store each in output order, and no other node changes |
| PropagationLemmas.EffectKeepsValues | src/SemanticGraphEdge/index.js:80-89 | an edge without outputs changes no value |
| PropagationLemmas.EffectsKeepValues | src/SemanticGraphNode/index.js:94-97 | a run of edges without outputs changes no value |
| PropagationLemmas.ForceEffectsTwice | src/SemanticGraphNode/index.js:67-72 | forcing a node whose edges are all effects changes no value, so forcing it again repeats the first run exactly |
| PropagationLemmas.UpdateFuel | src/SemanticGraphNode/index.js:46-54 | an update that is not cut off for depth has the same values, trace and outcome with any larger budget |
| PropagationLemmas.PropagateFuel | src/SemanticGraphNode/index.js:76-110 | the same for propagation from a node |
| PropagationLemmas.EdgesFuel | src/SemanticGraphNode/index.js:94-97 | the same for a visit of a run of edges |
| PropagationLemmas.EdgeFuel | src/SemanticGraphEdge/index.js:57-105 | the same for one edge |
| PropagationLemmas.OutputsFuel | src/SemanticGraphEdge/index.js:92-101 | the same for a broadcast to the outputs |
| PropagationLemmas.CounterTurn | src/SemanticGraphNode/index.js:46-54 | on a node whose only edge feeds it back into itself, an update below the guard's bound stores the value, runs the edge once and updates the node again with the edge's result |
| PropagationLemmas.BlockedCycleFinishes | src/SemanticGraphEdge/index.js:57-105 | a cycle that its guard eventually blocks settles: the counter stores 0, 1 and 2, runs twice, is blocked on 2 and ends with `Done` |
| FormScenario.FieldUpdate | examples/basic-form.js:9-14 | updating a form field stores it, then submits once over both fields or is blocked, and nothing else changes |
| FormScenario.FormRun | examples/basic-form.js:21-25 | from empty fields, the email alone is blocked, and the completing password submits exactly once |

## Left out

- `console.log` diagnostics, the debug flags' effect on output, the `NO_OUTPUT_NODE` and `FORCED` symbols, and the value Node.propagate receives only to print it. The flags are stored, and `GetOutputNodes` reports the no-output marker, but nothing is printed.
- Promises and overlapping external calls: every `await` is a sequential step.
- Re-entrant `graph.update` from inside a user function: user functions are pure Dafny functions with no access to the graph.
- The `check` methods of nodes and edges (`instanceof` tests): typed references make a non-node or non-edge argument impossible.
- The static `init` factories of the graph, the node and the edge: they only destructure their argument and call the constructor.
- The node map a graph can be constructed with: a graph here starts empty, because a pre-built map brings nodes and edges the graph has no record of.
- Merge and constraint do not receive the node, and guard and transform do not receive the edge: they receive only the values.
- The order in which the engine reads a node's edge list: propagation iterates a snapshot of the edge list and of the output list. The model's user functions cannot change the wiring, so a snapshot and the live list agree.
- Sweeps that never finish: a sweep that keeps going round a cycle (every constraint and guard on it passing) awaits forever in the original, its promise never settles and its memory grows. The model cuts such a sweep off at the depth `fuel` with `OutOfFuel`, an outcome the original never reports. A sweep that finishes within some budget is the same for every larger one (`PropagationLemmas.UpdateFuel`).
- A from-projection whose `rules` list holds something other than a rule object (such as `undefined`): rules here are always `{as, when}` records with optional fields.
- The abstract projection base: it is the `Base` case of `Graph.Projection`, and applying it fails with AbstractApplyTo.
- A heap-level run of a whole example program: the basic form is proved end to end on the propagation specification (`FormScenario`). The `SemanticGraph` methods are proved against that specification separately.
