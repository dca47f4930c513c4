# Verified model of didagle

didagle builds a DAG of operators from a declaration and runs it concurrently: every vertex counts the
dependencies that have not reported, the graph counts the vertices that have not joined, and edges carry a
mask of expected results (OK, ERR, SKIP).  This project models the graph compilers and executors of the C++
and the Go version, the data contexts, the context pools, task groups and parameter chains, and proves what
they promise.  `dafny verify dfyconfig.toml` checks everything.

## How it is organised

- **The run.** `Protocol` is a transition system over one built graph, one step per atomic action of a worker:
  enter a queued vertex, record its outcome, subtract from the join counter, tell one successor, hand over a
  ready vertex, close or restart the round.  The environment decides whether a vertex may run, what its inputs
  held and what its processor returned; those choices are parameters of the steps, so the theorems hold for
  every processor that returns.  `RunInvariant` is what every step keeps, `RunTheorems` what every interleaving
  guarantees, `Determinism` equality with a sequential evaluator, `WhileLoop` the refinement of the generated
  while graph to a loop, `Branches` who runs behind a condition, `Outcomes` what a declared vertex makes of a return code.
- **The executors.** `Contexts` (C++) and `GoContexts` (Go) are the classes with their counters, slots and
  loops; each method is proved to take exactly the protocol's steps.  The Go executor differs in two ways: it
  starts a ready vertex at once (`eager`), and it reports a skip as an error.
- **The C++ compiler.** `GraphDecl` is the declaration and what each loop of `Graph::Build` computes,
  `Links` the dependency maps, `CycleSearch` the cycle test, `GraphBuild` the class with the loops.
  `GraphEdges`, `GraphListing`, `CompiledGraph`, `Expectations`, `Completion`, `Resolution` and `Acceptance` say what a
  build means in terms of the declaration, and exactly when it goes through.  `WhileGeneration` and `Tasks` are the two generators of declarations.
- **From compiler to run.** `SetupGraph` turns links into the graph that runs, which has the vertices that the id table
  lists, and `RuntimeGraph` says exactly for which accepted declarations the run theorems hold.  `Counterexamples`
  (with `SmallBuilds`) holds declarations on which the compiler or the executor does not do what one would expect.
- **The Go compiler.** `GoResults` (codes), `GoSearch` (cycle test with a visited set), `GoDepend` (explicit over implicit, in any
  build order), `GoGraph` (the build loops), `GoEdges` (what they mean in terms of the declared vertices), `GoRuntime` (from accepted Go graphs to the run), `GoCounterexamples`.
- **Data and contexts.** `DataStore` and `DataContext` (slots, index against hash table, the search over linked
  contexts), `ProcessorInputs` and `ProcessorOutputs` (reading and publishing fields, with `Variables`), `ContextPool` (acquire, release closures, recursive
  release), `ParamsChain` (parents of parameter objects).

Vertices, contexts and slots are named by their position instead of a pointer; Go vertices by their id.

## What the proofs found

- `Depend` in C++ keeps the first expectation of an edge.  The repository's guide says that explicit
  declarations override what data flow implies (`didagle/README.md`, line 266).  The model follows the code:
  `NamedBeatsDataIff` gives the exact exception, a reader declared before the vertex that names it, and
  `DataBeatsNamed` a declaration that meets it.
- For the same reason a task's `Consequent`/`Alternative` loses its condition when the condition task was added
  after the branch (`BranchExpectation`, and `BranchLosesCondition` for a group of two tasks).
- In Go the guide's sentence holds for every build order when the explicit declarations of an edge agree; when its
  two ends disagree the map's iteration order decides (`ExpectationIgnoresOrderIff`; `OrderDecidesExpectation` is such a
  graph of two vertices, accepted in both orders).
- The C++ reachability search has no visited set.  `SearchReturnsIff` and `TestCircleReturnsIff` say exactly when it
  and the cycle test return in every iteration order of the hash tables; `CycleMayGoUnreported` is a declaration of
  three vertices that is rejected in some orders and on which the build does not return in others.
- A declared vertex whose id equals the id generated for the condition of a later vertex loses its place in the id
  table (`ListedIff`).  The cycle test and the executor only see listed vertices.  `AcceptedCompletesIff` says
  exactly when an accepted declaration still runs to the end, and `ClashIsAcceptedAndNeverDone` gives one that is
  accepted and whose set-up aborts, and one whose runs never call done.
- A datum that `Set` created before it was registered is looked up by index in another datum's slot
  (`RegisteredIndexIff`, `CreatedBeforeRegistered`), and a reset does not empty it (`ResetEmptiesIff`).  A move of a
  datum to itself loses it (`MoveTransfers`, `MovedIs`).
- A variable name among the inputs of an aggregate has no say in whether the aggregate is filled
  (`AggregateIgnoresVariables`): with the datum that it names present, the injection still fails
  (`AggregateMissesDatum`).
- An input "$x" that has an index does not read what x names, unless that is its own name or the graph's own table holds
  neither (`IndexDefeatsVariable`): a datum that another vertex of the graph published under x's value is not found
  (`IndexedVariableMissesDatum`).
- An output "$x" is published exactly if something registered the name that x stands for (`CollectedIff`); otherwise it is
  dropped (`UnregisteredNameIsDropped`), although the build links the readers of "$x" to it.
  An output that is not set empties the slot of its name, which may be one that an earlier output filled
  (`NullEmptiesSlot`).
- `Params::SetParent` closes a loop exactly if the new parent's chain leads back to the end of the receiver's
  (`SetParentIsSafeIff`).

## Model

| member | source | states |
|---|---|---|
| `RunInvariant.StepInv` | didagle/store/graph_context.cpp:164-195 | Every step of every worker keeps the global invariant: a waiting counter is the number of empty slots, a slot is filled exactly when its source has passed that successor, the join counter is the number of unjoined vertices, at most one vertex closes the round. |
| `RunInvariant.ScheduleInv` | didagle/store/graph_context.cpp:164-201 | The invariant holds after every interleaving. |
| `RunInvariant.NotifyFindsEmptySlot` | didagle/store/vertex_context.h:68-76 | A notification always finds its slot empty and the counter above zero, so the branch that only loads the counter is never taken and each edge is told once a round. |
| `RunInvariant.BeginRecords` | didagle/store/vertex_context.cpp:368-431 | A vertex that is entered starts exactly if its target and condition hold, every slot has a result in its mask, no early-exit code is recorded and its inputs were injected; it ends ERR if only the injection failed, and is skipped, or ERR where skips are errors, in any other case. |
| `RunInvariant.FinishRecords` | didagle/store/vertex_context.cpp:155-178 | A processor returned rc: the vertex ends OK with code 0 and publishes exactly if rc is 0 or, with no early-exit flag, its errors are ignored and it is no condition; else it ends ERR with code rc and publishes nothing. The first failure under an early-exit flag is recorded. |
| `RunTheorems.CountersNeverWrap` | didagle/store/vertex_context.h:68-76 | Neither unsigned counter is ever decremented at zero. |
| `RunTheorems.Quiescence` | didagle/store/graph_context.cpp:164-177 | The vertex that takes the join counter to zero has no successors; at that point every slot is filled, nothing waits, is queued, runs or notifies, and the only step left is its own. |
| `RunTheorems.AllTold` | didagle/store/graph_context.cpp:178-194 | With every vertex joined, each vertex has told each of its successors. |
| `RunTheorems.Progress` | didagle/store/graph_context.cpp:117-201 | No deadlock: with the join counter above zero, every reachable state of an acyclic graph has an enabled step. |
| `RunTheorems.StepConsumes` | didagle/store/graph_context.cpp:164-195 | Every step that is not a while restart strictly lowers a measure of phases and untold edges. |
| `RunTheorems.Termination` | didagle/store/graph_context.cpp:164-201 | A run with n restarts is shorter than the budget of n + 1 rounds. |
| `RunTheorems.BoundedRun` | didagle/store/graph_context.cpp:164-201 | Without a while vertex every run is bounded by the size of the graph. |
| `RunTheorems.CompleteRunIsDone` | didagle/store/graph_context.cpp:166-177 | Every maximal run ends quiescent, having called done exactly once, with the recorded early-exit code. |
| `RunTheorems.NothingAfterDone` | didagle/store/graph_context.cpp:166-177 | After done has been called no step is possible. |
| `RunTheorems.DoneAtMostOnce` | didagle/store/graph_context.cpp:172-176 | Done is called at most once in any run, and only when the run is complete. |
| `RunTheorems.DoneNeedsSenders` | didagle/store/graph_context.cpp:164-195 | Done is called only if every dependency slot has a vertex that fills it. |
| `RunTheorems.OrphanWaits` | didagle/store/vertex_context.h:68-76 | A vertex with a slot that nobody fills waits in every state of every run, and done is never called. |
| `RunTheorems.FinishesIff` | didagle/store/graph_context.cpp:117-201 | What `Setup` puts together from an acyclic graph ends every maximal run with one done call exactly if every slot has a vertex that fills it. |
| `RunTheorems.ExactlyOnce` | didagle/store/graph_context.cpp:164-195 | In a complete run every vertex was entered exactly once in the last round and told each successor exactly once; in any run at most once. |
| `RunTheorems.EarlyCodeIsFirstFailure` | didagle/store/graph_context.h:65-69 | A recorded early-exit code is the code of the first flagged vertex that failed. |
| `RunTheorems.TableIsLastOutput` | didagle/store/vertex_context.cpp:155-178 | In every state a datum holds exactly what the last successful processor call of the run had for it; failed calls publish nothing and restarts keep the data. |
| `RunTheorems.FirstFailureUnique` | didagle/store/graph_context.h:65-69 | There is only one first failure. |
| `RunTheorems.EarlyExitSkips` | didagle/store/vertex_context.cpp:411-422 | Once a code is recorded every vertex entered afterwards is skipped without running. |
| `RunTheorems.DoneReceivesFirstFailure` | didagle/store/graph_context.cpp:172-174 | A complete run reports the first flagged failure, and reports 0 exactly if no flagged vertex failed. |
| `Determinism.ProducersFinishedBeforeReaders` | didagle/graph/vertex.cpp:255-287 | When a vertex stops waiting, every producer of its inputs has finished and published. |
| `Determinism.ScheduleAgrees` | didagle/store/vertex_context.cpp:368-431 | After any interleaving, every recorded result, code and published datum is that of the recursive evaluator, and a running vertex read what the evaluator reads. |
| `Determinism.ScheduleIndependence` | didagle/store/vertex_context.cpp:155-178 | Every complete interleaving ends with the evaluator's results, codes and data table and reports 0. |
| `Determinism.RunsAgree` | didagle/store/graph_context.cpp:164-195 | Two complete runs over the same outside data end with the same results, codes, slots and data. |
| `Determinism.FixedCodesDetermineResults` | didagle/store/vertex_context.cpp:368-431 | With each vertex's gate, injection and return code fixed, whatever the vertices move or publish, every complete run gives the evaluator's results. |
| `WhileLoop.WhileRefinesLoop` | didagle/store/graph_context.cpp:166-177 | A condition that succeeds k times and then fails makes every complete run execute (condition, body) k times, then the failing condition with the body skipped, with k restarts and one done call. |
| `WhileLoop.WhileTerminates` | didagle/store/graph_context.cpp:166-177 | Such a loop's runs, complete or not, fit the budget of k + 1 rounds, whatever the body returns. |
| `WhileLoop.CompleteWhile` | didagle/store/graph_context.cpp:166-177 | In any complete run of a while graph all calls of the condition but the last succeeded. |
| `Branches.BranchesExclude` | didagle/store/vertex_context.cpp:378-384 | No run executes both an OK branch and an ERR branch of the same vertex. |
| `Branches.ReturnIsRecorded` | didagle/store/vertex_context.cpp:155-178 | In every state of every run a vertex that ran carries the result and code that its return code and flags determine. |
| `Branches.IgnoredFailureCounts` | didagle/store/vertex_context.cpp:155-178 | Where failures are ignored, whatever was returned, the vertex that runs on success runs and the one that runs on failure does not. |
| `Outcomes.DeclaredOutcome` | didagle/store/vertex_context.cpp:155-178 | For a set-up declaration: a vertex that ran ends OK exactly if it returned 0, or it ignores errors, neither it nor the graph exits early, and it has no condition, `if` or `else`. |
| `Branches.RunsIffExpected` | didagle/store/vertex_context.cpp:368-431 | In a complete run a vertex with one dependency runs exactly if that dependency's result meets the expectation. |
| `Branches.AnyResultRuns` | didagle/store/vertex_context.cpp:368-431 | Where the expectation is any result, the vertex runs in every complete run. |
| `Branches.ExactlyOneBranch` | didagle/store/vertex_context.cpp:368-431 | When the condition ran and is the only dependency of both, exactly one branch runs: the OK branch if the recorded code is 0. |
| `Contexts.NotifyAllIsARun` | didagle/store/graph_context.cpp:178-194 | The whole notification loop is a run of single notification steps. |
| `Contexts.ReleaseAllIsARun` | didagle/store/graph_context.cpp:117-163 | Handing over a ready list is a run of release steps, one a vertex. |
| `Contexts.VertexContext.ResetState` | didagle/store/vertex_context.cpp:106-116 | The vertex is back in the state of a fresh one: no result, all slots empty, the counter at the number of dependencies. |
| `Contexts.VertexContext.SetDependencyResult` | didagle/store/vertex_context.h:68-76 | Fills the slot, counts down if it was empty, and returns the counter before. |
| `Contexts.VertexContext.MatchDependencies` | didagle/store/vertex_context.cpp:378-384 | True exactly if every slot holds a result that its edge expects. |
| `Contexts.GraphContext.constructor` | didagle/store/graph_context.cpp:15-92 | Setup establishes the protocol's initial state, also for a graph with slots that no vertex fills. |
| `Contexts.GraphContext.ResetState` | didagle/store/graph_context.cpp:101-107 | The restart of a round: the protocol's restart state, early-exit code and published data kept. |
| `Contexts.GraphContext.Reset` | didagle/store/graph_context.cpp:108-116 | From any state back to the initial state, so every theorem about runs holds for the next run on a pooled context; that the data context is empty again is `DataStore.RunThenReset`. |
| `Contexts.GraphContext.Execute` | didagle/store/graph_context.cpp:197-201 | On a context that was set up or reset it hands over exactly the vertices without dependencies, each once, and changes nothing but the completion callback. |
| `Contexts.GraphContext.Begin` | didagle/store/vertex_context.cpp:368-431 | Entering a vertex is the protocol's begin step: skip, fail on injection, or start. |
| `Contexts.GraphContext.FinishVertexProcess` | didagle/store/vertex_context.cpp:155-178 | Recording an outcome is the protocol's finish step; code, result, data and early-exit code are also stated on the flags themselves. |
| `Contexts.GraphContext.Join` | didagle/store/graph_context.cpp:166-166 | The decrement that makes one vertex the last. |
| `Contexts.GraphContext.Close` | didagle/store/graph_context.cpp:166-177 | Restart or done, as the protocol's close step; a restart hands over exactly the vertices without dependencies again, each once, and the end nobody. |
| `Contexts.GraphContext.NotifyNext` | didagle/store/graph_context.cpp:180-193 | One turn of the loop is one notification step. |
| `Contexts.GraphContext.NotifySuccessors` | didagle/store/graph_context.cpp:178-193 | The loop tells every successor and collects exactly those it made ready, each once. |
| `Contexts.GraphContext.OnVertexDone` | didagle/store/graph_context.cpp:164-195 | The whole method is a join followed by the close step, or by all notifications and the hand-over of exactly the vertices that they made ready, each once. |
| `Contexts.GraphContext.SelectLocal` | didagle/store/graph_context.cpp:126-144 | The worker keeps the first vertex without an IO processor, or else the first. |
| `Contexts.GraphContext.ExecuteReadyVertexs` | didagle/store/graph_context.cpp:117-163 | Every ready vertex is handed over exactly once, an empty list being nothing; the one that the worker runs itself has an IO processor only if all have. |
| `GoContexts.GraphExecuteContext.CollectReady` | go/context.go:725-739 | The start vertices are collected before any is started, exactly those without dependencies. |
| `GoContexts.GraphExecuteContext.MatchDeps` | go/context.go:446-466 | The switch over expectation codes skips exactly when the mask test of the protocol fails. |
| `GoContexts.GraphExecuteContext.SetDependencyResult` | go/context.go:188-192 | Stores the result and counts down. |
| `GoContexts.GraphExecuteContext.TellNext` | go/context.go:633-643 | One successor is told, and started exactly when nothing is left to wait for. |
| `GoContexts.GraphExecuteContext.VertexDone` | go/context.go:622-646 | The whole method is a join followed by completion or by telling every successor; a skip counts as an error. |
| `GoContexts.TellAllIsARun` | go/context.go:622-646 | Telling all successors, starting the ready ones at once, is a run of the protocol. |
| `Digraph.RankClimbs` | didagle/graph/graph.cpp:187-189 | Acyclicity gives every edge a climbing rank, on which progress rests. |
| `Digraph.ClimbingIsAcyclic` | didagle/graph/graph.cpp:187-189 | A climbing measure proves acyclicity. |
| `Links.DependConsistent` | didagle/graph/vertex.cpp:187-195 | One dependency call keeps successor sets the exact inverse of dependency maps and slots a bijection onto 0..n-1. |
| `Links.EdgeIffRequested` | didagle/graph/vertex.cpp:187-195 | After any calls an edge exists exactly if it was requested, with the expectation of the first request. |
| `GraphEdges.DeclareAllKeeps` | didagle/graph/graph.cpp:64-157 | After the declaration loop names and data lead to the vertices that carry them, every datum has one producer, and a vertex's lists only gained its if/else successors and its condition vertex. |
| `GraphEdges.AllRequestsAre` | didagle/graph/graph.cpp:162-173 | The calls that the link loops make for a pair, exactly. |
| `GraphListing.DeclareAllConds` | didagle/graph/graph.cpp:93-107 | There is one condition vertex per `expect` text, with the dependencies of the first vertex that declares the text, or its `expect_deps`. |
| `GraphListing.ListedIffNoClash` | didagle/graph/graph.cpp:24-35 | The id table lists every vertex under its own id exactly if no vertex has the id that is generated for the condition of a later one; the ids and numbers are computed from the declaration. |
| `CompiledGraph.ListedIff` | didagle/graph/graph.cpp:24-35 | A build lists every vertex but those whose id a later vertex generates for its condition. |
| `CompiledGraph.DenotesIff` | didagle/graph/graph.cpp:43-50 | What an id denotes: the generated condition vertex of that id if there is one, or else the declared vertex. |
| `CompiledGraph.EdgeIffDeclared` | didagle/graph/graph.cpp:61-195 | After a build u → v is an edge exactly if v names u, u names v as a successor, if or else, u is the condition of v's `expect`, u produces what v reads (its own in-out excepted), or v is a condition whose first declarer names u; successor sets mirror dependency maps. |
| `CompiledGraph.SlotsAreDense` | didagle/graph/vertex.cpp:291-297 | Every successor has a slot for its source and slots are numbered 0..n-1, so the index is never -1. |
| `Expectations.EdgeExpectsFirstAsked` | didagle/graph/vertex.cpp:187-290 | An edge expects what was asked first: by the end declared first; within a vertex plain before OK before ERR, dependencies before successors before data. |
| `Expectations.NamedBeatsDataIff` | didagle/graph/vertex.cpp:187-195 | A named expectation overrides the one implied by data exactly unless the reader is declared earlier, does not name the other end, and its data asks otherwise. |
| `Resolution.DataEdgeExpects` | didagle/graph/vertex.cpp:255-287 | An edge that only data ask for expects success if the first input of the reader for a datum of the producer is declared as required, and any result otherwise. |
| `Resolution.CompiledIsCompleted` | didagle/graph/graph.cpp:64-160 | Processor, cluster, flags, inputs and outputs of every compiled vertex, field by field: defaults, ids from field names, the processor's fields added; a vertex alone in its graph starts it. |
| `Resolution.GeneratedEvaluates` | didagle/graph/graph.cpp:24-35 | A generated vertex runs the default expression processor on its condition and nothing else. |
| `Completion.DeclaredIff` | didagle/graph/graph.cpp:64-157 | The declaration loop goes through exactly if each vertex has admissible settings, a known processor in strict mode, named fields, an id that is neither used nor generated before, and data that nobody published before. |
| `Resolution.BuildsIff` | didagle/graph/graph.cpp:61-186 | The stages before the cycle test succeed exactly if that holds, every name, config setting and datum referred to exists (extern data excepted), every vertex has something to run, and start vertices name no dependency while all others are linked. |
| `CycleSearch.SearchIsExact` | didagle/graph/vertex.cpp:17-30 | When the search answers, it answers whether the vertex is reached by a nonempty path. |
| `CycleSearch.SearchReturns` | didagle/graph/vertex.cpp:17-30 | The search for v returns when no path that avoids the direct predecessors of v runs into a cycle. |
| `CycleSearch.SearchReturnsIff` | didagle/graph/vertex.cpp:17-30 | The search for v below p returns in whatever order the successor sets are iterated exactly if no path from p that avoids the direct predecessors of v runs into a cycle. |
| `CycleSearch.FailsIff` | didagle/graph/vertex.cpp:17-30 | In any order, the search finds nothing exactly if p does not reach v and no path from p runs into a cycle. |
| `CycleSearch.TestCircleIsExact` | didagle/graph/graph.cpp:51-60 | When the cycle test answers, it is right for every listed vertex, whatever the order of the id table. |
| `CycleSearch.TestCircleReturnsIff` | didagle/graph/graph.cpp:51-60 | The cycle test returns in whatever order the id table and the successor sets are iterated exactly if no path from a listed vertex that avoids its own direct predecessors runs into a cycle. |
| `Acceptance.AcceptedIff` | didagle/graph/graph.cpp:61-195 | The build accepts exactly the nonempty declarations whose links can be made and verified and in which no path from a listed vertex runs into a cycle. |
| `Acceptance.BuildAnswers` | didagle/graph/graph.cpp:187-194 | A build that answers returns -1 or 0 by whether it is empty or a listed vertex lies on a cycle; it answers in every iteration order exactly under the condition of the cycle test. |
| `Acceptance.AcceptedHasNoCycle` | didagle/graph/graph.cpp:187-194 | An accepted graph is nonempty and no listed vertex lies on a cycle. |
| `Acceptance.AcceptedIffAcyclic` | didagle/graph/graph.cpp:61-195 | When no generated id replaces a declared one, the accepted declarations are those without a cycle. |
| `GraphBuild.Graph.Depend` | didagle/graph/vertex.cpp:187-195 | Adds the successor, and a slot with the expectation only when the pair is new; an existing slot keeps its expectation. |
| `GraphBuild.Graph.FillInputs` | didagle/graph/vertex.cpp:40-66 | The nested loops over the processor's input fields compute the completed inputs, in-out marks included. |
| `GraphDecl.FillInputsCompletes` | didagle/graph/vertex.cpp:40-66 | Completion keeps every declared input in place, gives every field of the processor an input, and adds nothing but the processor's fields. |
| `Completion.FillInputsMarks` | didagle/graph/vertex.cpp:40-66 | In-out and extern flags after completion: a declared input gains those of an in-out field of its name if it is the first for it, an added one has those of its field, and no field is added twice. |
| `GraphBuild.Graph.FillOutputs` | didagle/graph/vertex.cpp:67-84 | The nested loops compute the completion that `FillOutputsCompletes` describes. |
| `GraphDecl.FillOutputsCompletes` | didagle/graph/vertex.cpp:67-84 | Completion leaves the declared outputs alone, gives every output field of the processor an output, and adds nothing but those fields, each once. |
| `GraphBuild.Graph.EnterOutputs` | didagle/graph/graph.cpp:122-138 | Names outputs and enters them in the data table; fails exactly on a nameless field or a second producer. |
| `GraphBuild.Graph.EnterCond` | didagle/graph/graph.cpp:93-107 | Makes or shares the condition vertex of an `expect`. |
| `GraphBuild.Graph.Declare` | didagle/graph/graph.cpp:64-157 | One turn of the declaration loop, with its error cases. |
| `GraphBuild.Graph.DeclareVertices` | didagle/graph/graph.cpp:64-157 | The loop as a fold of its turns; it fails exactly if a turn fails. |
| `GraphBuild.Graph.BuildDeps` | didagle/graph/vertex.cpp:207-217 | Makes one call a name, in order; fails exactly on an unknown name. |
| `GraphBuild.Graph.BuildSuccessors` | didagle/graph/vertex.cpp:196-206 | The same towards successors. |
| `GraphBuild.Graph.BuildInputs` | didagle/graph/vertex.cpp:255-287 | Makes the calls for data and aggregates, or fails; which edges and expectations that means is `EdgeIffDeclared` and `DataEdgeExpects`, and when it fails `BuildsIff`. |
| `GraphBuild.Graph.BuildVertex` | didagle/graph/vertex.cpp:223-290 | All calls of one vertex in order, or failure. |
| `GraphBuild.Graph.LinkVertices` | didagle/graph/graph.cpp:162-173 | Links declared, then generated vertices. |
| `GraphBuild.Graph.VerifyVertices` | didagle/graph/graph.cpp:175-186 | True exactly if every vertex is a start without dependencies or is linked. |
| `GraphBuild.Graph.FindVertexInSuccessors` | didagle/graph/vertex.cpp:17-30 | The recursive search over direct and indirect successors, whose answers `SearchIsExact` proves right. |
| `GraphBuild.Graph.TestCircle` | didagle/graph/graph.cpp:51-60 | Searches from the listed vertices, in the given order, until one finds itself. |
| `GraphBuild.Graph.Build` | didagle/graph/graph.cpp:61-195 | The whole build: result code, symbols and links. |
| `GraphBuild.BuildStages` | didagle/graph/graph.cpp:61-195 | What the stages of a successful build have established. |
| `WhileGeneration.GraphCluster.ExpandGraph` | didagle/graph/graph.cpp:261-289 | Each vertex with a while condition calls a graph of its own, numbered in order: "0" is the while processor, or the default expression processor with the condition, "1" has the vertex's processor, cluster and graph and runs when "0" succeeds; the others are untouched. |
| `WhileGeneration.GraphCluster.GenerateWhileGraphs` | didagle/graph/graph.cpp:255-292 | The generated graphs follow the graphs present at entry, in order. |
| `WhileGeneration.GeneratedNamesDiffer` | didagle/graph/graph.cpp:266-267 | No two vertices of a graph share a generated graph. |
| `WhileGeneration.GeneratedGraphIsLoop` | didagle/store/graph_context.cpp:80-89 | Every generated graph that compiles, whatever fields its processors add, is set up as the loop of WhileLoop: the condition is the only start vertex, so it is the one that repeats the graph, and the flags are those the generator set. |
| `SetupGraph.SetupSuccessors` | didagle/store/vertex_context.cpp:141-153 | Aborts exactly at a successor that the id table does not list; otherwise every successor's slot is found and none is -1. |
| `SetupGraph.RunGraphIsWellFormed` | didagle/store/graph_context.cpp:15-92 | Every slot of the run-time graph has a vertex that fills it exactly if every dependency of a vertex with a context has a context. |
| `SetupGraph.RunGraphIsAssembled` | didagle/store/graph_context.cpp:15-92 | `Setup` over the listed vertices puts together a graph whose successor entries lead to the right slots. |
| `SetupGraph.RunGraphEdges` | didagle/store/graph_context.cpp:15-92 | The edges of the run are the compiled links between vertices with a context. |
| `RuntimeGraph.AcceptedIsRunnable` | didagle/graph/graph.cpp:61-195 | An accepted declaration that can be set up runs as an acyclic graph, well formed exactly if no link joins a listed and an unlisted vertex. |
| `RuntimeGraph.AcceptedCompletesIff` | didagle/store/graph_context.cpp:15-92 | An accepted declaration can be set up and ends every maximal run with one done call exactly if no link joins a listed vertex and an unlisted one. |
| `RuntimeGraph.ApartIff` | didagle/graph/graph.cpp:24-35 | That condition in terms of the declaration: no edge that it asks for joins a vertex that stays and one whose id a later condition takes over. |
| `RuntimeGraph.NoClashRunsWhole` | didagle/store/graph_context.cpp:15-92 | Without such an id every vertex gets a context, and the condition holds. |
| `RuntimeGraph.ClashNeverDone` | didagle/store/vertex_context.cpp:141-153 | A listed vertex that depends on an unlisted one waits forever in every run, and done is never called. |
| `RuntimeGraph.AcceptedGraphCompletes` | didagle/store/graph_context.cpp:117-201 | When no link joins a listed and an unlisted vertex, a run is complete exactly when done was called; then every listed vertex was entered once and told each successor once. |
| `RuntimeGraph.AcceptedGraphFits` | didagle/graph/vertex.cpp:255-287 | Among the listed vertices of an accepted declaration there is one producer per datum and a dependency of every reader on it. |
| `RuntimeGraph.AcceptedGraphIsDeterministic` | didagle/processor/processor_di.cpp:54-170 | When no link joins a listed and an unlisted vertex, all complete runs of an accepted declaration over the same outside data end with the evaluator's data, results and codes. |
| `Counterexamples.ClashIsAcceptedAndNeverDone` | didagle/graph/graph.cpp:24-35 | The vertices "g_0" and "b", linked, where "b" expects a condition, in graph "g": accepted, but the set-up aborts or no run ever calls done, depending on the direction of the link. |
| `Counterexamples.CycleMayGoUnreported` | didagle/graph/graph.cpp:51-60 | The build of a → b, b → c, c → b returns for no depth of recursion when the test starts at a, and rejects the graph when it starts at b or c. |
| `Counterexamples.DataBeatsNamed` | didagle/graph/vertex.cpp:187-195 | A reader declared before its producer, which names it as a successor on success: the edge accepts any result. |
| `Counterexamples.BranchLosesCondition` | didagle/store/graph_store.cpp:120-141 | A branch added to its task group before its condition: the group is accepted, and the branch runs in every complete run that does not hinder it otherwise, whatever the condition's result. |
| `Tasks.Task.Precede` | didagle/store/graph_task.cpp:51-54 | Records the link at both ends and keeps every link of the group recorded at both ends. |
| `Tasks.Task.Succeed` | didagle/store/graph_task.cpp:55-55 | The same from the other end. |
| `Tasks.Task.Consequent` | didagle/store/graph_task.cpp:56-59 | Records the if branch, and a plain dependency at the branch. |
| `Tasks.Task.Alternative` | didagle/store/graph_task.cpp:60-63 | Records the else branch, and a plain dependency at the branch. |
| `Tasks.TaskGroup.BuildGraph` | didagle/store/graph_store.cpp:120-141 | One vertex a task, in order: id, processor and each kind of link are the task's own, cluster and graph are set exactly when there is no processor. |
| `Tasks.BranchExpectation` | didagle/store/graph_store.cpp:120-141 | A branch keeps its OK or ERR expectation exactly if the condition task was added before it; otherwise it accepts any result. |
| `Tasks.TaskBranchesExclude` | didagle/store/graph_task.cpp:56-63 | No run of an accepted task group executes both the `Consequent` and the `Alternative` of a task added before them. |
| `Tasks.TaskBranchesDecide` | didagle/store/graph_task.cpp:56-63 | When that task ran and is the only dependency of both, every complete run executes the `Consequent` if its recorded code is 0 and the `Alternative` otherwise. |
| `GoSearch.FindVertexInSuccessors` | go/dag.go:162-178 | The search visits no vertex twice; success means a path, failure leaves a region closed under successors that does not touch the target. |
| `GoSearch.Search` | go/dag.go:162-178 | With nothing visited the search is exact. |
| `GoSearch.TestCircle` | go/dag.go:531-540 | The cycle test is total and true exactly if some vertex reaches itself. |
| `GoSearch.SearchesAgree` | didagle/graph/vertex.cpp:17-30 | The C++ search gives no other answer than the Go search, and gives one on acyclic graphs. |
| `GoDepend.PairFinal` | go/dag.go:285-307 | After any calls an edge exists at both ends or at neither and expects the last explicit, or else the first implicit expectation. |
| `GoDepend.BuiltDense` | go/dag.go:285-307 | Slots are numbered without clash. |
| `GoDepend.FinalInOrder` | go/dag.go:636-641 | What an edge expects for a given build order: of two explicit ends, the one built last. |
| `GoDepend.ExplicitWins` | go/dag.go:285-307 | Explicit beats implicit in every build order when the explicit declarations agree. |
| `GoDepend.EdgesIgnoreOrder` | go/dag.go:636-641 | The edge set does not depend on the order. |
| `GoDepend.ExpectationIgnoresOrderIff` | go/dag.go:636-641 | An expectation is the same in all orders exactly if the two ends' last explicit declarations agree or one end declares nothing. |
| `GoCounterexamples.OrderDecidesExpectation` | go/dag.go:636-641 | u names v as a successor and v depends on u on error: both build orders are accepted, and the edge expects an error in one and any result in the other. |
| `GoGraph.Graph.Depend` | go/dag.go:285-307 | An explicit call overwrites the expectation of an existing edge, an implicit one leaves it; a new edge is entered at both ends. |
| `GoGraph.Graph.BuildNamed` | go/dag.go:309-329 | One explicit call a name, in order; fails exactly on an unknown name. |
| `GoGraph.Graph.BuildInputs` | go/dag.go:338-384 | Implicit calls for data, or failure; which edges that means is `GoEdges.EdgeIffDeclared`, and when it fails `GoEdges.ResolvesIff`. |
| `GoGraph.Graph.BuildVertex` | go/dag.go:331-394 | Data, then dependencies, then successors. |
| `GoGraph.Graph.BuildAll` | go/dag.go:636-641 | The loop over the vertex map, in any order, succeeds exactly if all names resolve; the links are those of that order. |
| `GoGraph.Graph.Build` | go/dag.go:636-654 | Accepts exactly the nonempty graphs whose names resolve, whose vertices are linked as their start flags say, and which have no cycle. |
| `GoGraph.AsksAreOwn` | go/dag.go:331-421 | A vertex makes calls only about itself, so the order theorems apply. |
| `GoEdges.EdgeIffDeclared` | go/dag.go:331-421 | After a build in any order u → v is an edge exactly if one end names the other or an input of v, by its own id or as member of an aggregate or map input, reads a datum of u, a vertex's own plain in-out data excepted. |
| `GoEdges.DataEdgeExpects` | go/dag.go:338-384 | An edge that only data ask for expects success if the first input that reads a datum of u is required, and any result otherwise, in every build order. |
| `GoEdges.ResolvesIff` | go/dag.go:309-394 | All names and data resolve exactly if select arguments and names are known and every datum that is not extern has a producer. |
| `GoEdges.AcceptedIff` | go/dag.go:636-654 | In every build order the cycle test sees exactly the declared edges, and verification succeeds exactly if start vertices have no declared dependency and all others but conditions have a declared edge. |
| `GoRuntime.BuildIsSound` | go/dag.go:636-641 | After a build in any order slots are dense, both ends of every edge know it, and every expectation is a known code. |
| `GoRuntime.AcceptedGoGraphRuns` | go/dag.go:636-654 | An accepted Go graph, built in any order and numbered in any way, runs as a well-formed acyclic graph of the protocol, so every theorem about runs holds for the Go executor. |
| `GoGraph.ExplicitBeatsData` | go/dag.go:331-421 | For a build in any order: when the ends' declarations of an edge agree, it is linked at both ends and expects that, whatever the data ask. |
| `DataStore.BackedForever` | didagle/processor/api.h:133-156 | A registered datum keeps its slot and index, and both look-ups agree, after any operations. |
| `DataStore.RegisteredIndexIff` | didagle/processor/processor.cpp:153-167 | Right after registration the index leads to the datum's slot exactly unless an earlier `Set` created it beside a nonempty array. |
| `DataStore.IndexAgreesWithTable` | didagle/processor/processor.cpp:153-167 | As long as registrations precede creating `Set`s, index and hash lead to the same slot after any sequence of registrations, sets, moves and resets. |
| `DataStore.CreatedBeforeRegistered` | didagle/processor/processor.cpp:153-167 | The concrete case in which they do not. |
| `DataStore.ResetEmptiesIff` | didagle/processor/processor.cpp:52-64 | A reset empties a datum exactly if its slot is in the array or was empty; it keeps all slots and allows creation again. |
| `DataStore.RunThenReset` | didagle/store/cluster_context.cpp:107-111 | With creation disabled a run creates no slot, whatever it does; after the reset only data are left that a `Set` created before the run, and none when it created none. |
| `DataStore.MoveTransfers` | didagle/processor/processor.cpp:127-140 | A move hands the value over and changes nothing else; to itself it loses the value. |
| `DataStore.SetStores` | didagle/processor/api.h:351-393 | A set, of null too, writes the slot that the index leads to, whoever owns it, or else the slot of the key, and no other; it fails exactly if there is no slot and creation is disabled. |
| `DataStore.SetUpdatesContents` | didagle/processor/api.h:351-393 | By the key or its own index, a set changes what can be read at that key and nowhere else; a null empties it. |
| `DataContext.GraphDataContext.RegisterData` | didagle/processor/processor.cpp:153-167 | A new key gets an empty slot at the end of the array; a known one returns the index its slot carries. |
| `DataContext.GraphDataContext.Set` | didagle/processor/api.h:351-393 | Writes the slot found by index or key, creates one outside the array when there is none, or fails when creation is disabled. |
| `DataContext.Move` | didagle/processor/processor.cpp:85-140 | -1 exactly if no context within reach has a slot for one of the keys; otherwise the value goes from one slot to the other, wherever they are, and nothing else changes. |
| `DataContext.MovedIs` | didagle/processor/processor.cpp:127-140 | Slot by slot: the target holds what the source held, the source is empty, every other slot of every context is as before. |
| `DataContext.GetValue` | didagle/processor/processor.cpp:85-125 | Finds the context's own slot of the key, or one of another context within reach, the nearest ancestor's first, and nothing exactly if none has one. |
| `DataContext.GraphDataContext.Reset` | didagle/processor/processor.cpp:52-68 | Clears the array's slots, unlinks parent and children, allows creation again. |
| `DataContext.GetFrom` | didagle/processor/api.h:215-294 | The recursive look-up: every context is entered at most once, an unsuccessful one leaves only empty contexts whose links stay inside the visited set. |
| `DataContext.Get` | didagle/processor/api.h:215-294 | What the slot holds to which the index or the key leads comes first, then what the nearest ancestor holds; without a parent the container comes before the children, and the first child before the others. Otherwise the value is one that another context within reach or the container holds, and null exactly when none of them holds anything. It terminates on any links, cyclic ones included. |
| `DataContext.OwnIsHeld` | didagle/processor/api.h:133-156 | By the key, or by the index that its registration returned, the slot looked at first is the key's own. |
| `ProcessorInputs.InjectInputs` | didagle/processor/processor_di.cpp:54-137 | Makes the injections of all fields in order, variables, aggregates and moves included, and fails exactly at the first required one that finds nothing; what it moved until then is gone. |
| `ProcessorInputs.PlainInjectionReads` | didagle/processor/processor_di.cpp:54-137 | Whatever the parameters, fields that name no variable and move nothing read, by index or by name, what the behaviours of module Determinism read, and leave the data alone. |
| `ProcessorInputs.PlainInjectionFailsIff` | didagle/processor/processor_di.cpp:54-137 | Such an injection fails exactly if a required field has an id that is not found. |
| `ProcessorInputs.VariableFailsIff` | didagle/processor/processor_di.cpp:97-134 | An input named by a variable fails exactly if it is required and the variable is unset or leads to nothing. |
| `ProcessorInputs.MoveTakes` | didagle/processor/api.h:295-350 | A field that moves its datum takes it away from where it was found, and nothing else. |
| `ProcessorInputs.IndexDefeatsVariable` | didagle/processor/processor_di.cpp:97-117 | An input named by a variable reads the datum of the variable's value, whatever the data are, exactly if it has no index, the value is its own name, or the graph's own table holds neither name. |
| `ProcessorInputs.IndexedVariableMissesDatum` | didagle/store/graph_context.cpp:68-70 | A required input "$x" that its declaration calls extern and its processor does not, with x set to a datum that the same graph published: it reads nothing and the injection fails. |
| `ProcessorInputs.AggregateIgnoresVariables` | didagle/processor/processor_di.cpp:67-91 | The value of a variable in an aggregate never decides: the aggregate is filled exactly if the data named like the variables themselves are found. |
| `ProcessorInputs.AggregateMissesDatum` | didagle/processor/processor_di.cpp:67-91 | A required aggregate of "$x" fails although the datum that x is set to is there. |
| `ProcessorOutputs.CollectOutputs` | didagle/processor/processor_di.cpp:138-170 | One set for each output, in order, by its index and the name that a variable stands for, none for an unset variable; all of them are operations that `DataStore.RunThenReset` allows in a run. |
| `ProcessorOutputs.CollectedContents` | didagle/processor/processor_di.cpp:138-170 | In a run collecting creates no slot and changes what can be read by the writes that reach an existing slot, as the protocol's finish step does. |
| `ProcessorOutputs.CollectedIff` | didagle/processor/api.h:621-655 | A datum has a value afterwards exactly if the last output that resolves to its existing slot carries it, or no output does and it had it before. |
| `ProcessorOutputs.UnregisteredNameIsDropped` | didagle/store/graph_context.cpp:73-77 | An output "$x" and a reader of "$x", both with x set to a name that nothing registered: the output is dropped. |
| `ProcessorOutputs.NullEmptiesSlot` | didagle/processor/api.h:355-370 | An output "d" that is set and an output "$x" that is not, with x set to "d": the slot of "d" ends empty. |
| `ContextPool.GraphStore.GetContext` | didagle/store/cluster_context.cpp:129-137 | Takes the context that has been in the cluster's pool for longest, or a new one exactly if the pool is empty. |
| `ContextPool.FirstInFirstOut` | didagle/store/cluster_context.cpp:129-141 | A pool is a queue: a returned context waits behind those already there, taking and returning commute unless the pool is empty, and only then the returned context is the next one taken. |
| `ContextPool.GraphStore.Execute` | didagle/store/graph_store.cpp:176-247 | Without an executor, a data context or the cluster nothing changes; otherwise it acquires a context in use by no one and arms its release, and a closure armed on the data context before fires. |
| `ContextPool.GraphStore.Fire` | didagle/processor/processor.cpp:70-83 | A release closure fires at most once and posts its context. |
| `ContextPool.GraphStore.Destroy` | didagle/processor/processor.cpp:76-83 | Destroying a data context fires its closure if one is armed. |
| `ContextPool.GraphStore.AcquireSubgraph` | didagle/store/vertex_context.cpp:370-373 | A subgraph vertex acquires a context once and keeps it. |
| `ContextPool.GraphStore.ResetContext` | didagle/store/vertex_context.cpp:118-129 | Everything held below the context, however deep, goes back to its pool; nothing else moves. |
| `ContextPool.GraphStore.ReleaseContext` | didagle/store/cluster_context.cpp:138-141 | Resets the context and enqueues it in the pool of its cluster. |
| `ContextPool.GraphStore.RunPosted` | didagle/store/graph_store.cpp:202-216 | One posted release returns the context and all it holds and counts one graph down. |
| `ContextPool.GraphStore.Drained` | didagle/store/graph_store.cpp:302-306 | When all data contexts are gone and nothing is posted, every context is back in its pool, every acquisition was released exactly once, and no graph counts as running. |
| `ParamsChain.SetParent` | didagle/graph/params.cpp:37-53 | Attaches the parent to the end of the receiver's chain, or does nothing if it is already on it, even when the chain is cyclic. |
| `ParamsChain.Get` | didagle/graph/params.cpp:151-161 | The value of the nearest object on the way that has the name, and nothing exactly if none has it; the chain behind it may be cyclic. |
| `ParamsChain.Contains` | didagle/graph/params.cpp:221-229 | True exactly if the look-up finds something. |
| `ParamsChain.UnansweredGoesOn` | didagle/graph/params.cpp:151-161 | A look-up that no such walk answers meets no object with the name and goes on past any length. |
| `ParamsChain.SetParentIsSafeIff` | didagle/graph/params.cpp:37-53 | Look-ups stay finite exactly if the parent is already on the chain or its own chain does not lead back to the chain's end. |
| `ParamsChain.OtherChainsStayFinite` | didagle/graph/params.cpp:37-53 | A safe call keeps every other chain finite. |
| `ParamsChain.SetParentInherits` | didagle/graph/params.cpp:37-53 | After a safe call a name means what it meant before, or else what it means to the parent; a second call changes nothing. |
| `ParamsChain.MutualParentsLoop` | didagle/graph/params.cpp:37-53 | Two objects made each other's parent: a look-up of a missing name never ends. |

## Left out

- TOML and JSON loading, logging, tracing events, DOT output, flags, arenas, thread pools, latches, futures and coroutines: a started processor is assumed to return once.
- Expressions, select arguments, expect-config, deadlines and the presence of a target: one oracle, the `gate` of a step.
- Subgraph vertices are processors to the graph that holds them; their contexts are modelled in ContextPool only.
- GoContexts: unknown clusters, on which the Go executor returns without reporting, and panics outside operators are assumed away.
- GoGraph: the declaration loop before the link loop (default ids, field completion, the data table) is a given; only its outcome is modelled.
- Contexts.GraphContext.Begin: reading the inputs is one step with entering the vertex, and the early-exit check-and-set and the slot write with its decrement are one step each.
- Contexts.GraphContext.OnVertexDone: proved without interference; interleavings of its parts are the protocol's, whose steps the same methods take one by one.
- Determinism.ScheduleIndependence: no early exit and no while restart; the data part covers no moved, in-out or variable names.
- ProcessorInputs.InjectInputs: data are held by pointer; data moved when a vertex is skipped, and moves of types that are not pointers, are not modelled.
- RuntimeGraph.AcceptedCompletesIff: `Setup` is taken to find every processor and every field that it asks for; only its abort at a missing successor is modelled.
- GraphDecl: id sets are lists in iteration order and the condition id is appended instead of sorted in; only slot numbers depend on it. Successor sets keep insertion order.
- CycleSearch.SearchReturns: the recursion carries a fuel; a search that would not return is one that has no answer for any fuel.
- GraphBuild.Graph.Build: iterates the id table by position, one of the orders that the hash table may have; `TestCircleReturnsIff` and `BuildAnswers` are about all of them.
- Counterexamples: the declarations name processors that the factory does not know, in a cluster without strict mode, so that no fields are added.
- WhileGeneration.GraphCluster.GenerateWhileGraphs: iterates over the graphs present at entry, while the source appends to the list it iterates.
- ContextPool.GraphStore.Execute: concurrent calls are atomic operations in some order, and the running counter is unbounded.
- ParamsChain: typed values, arrays and dotted variable names.
- Graph priorities, cluster look-up, the Python DSL, and the Go version's reflection and unsafe-pointer injection.
