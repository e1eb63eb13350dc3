# Verified model of the pipeline engine

The repository plans, compiles and schedules data pipelines.  This project models its
deterministic cores and proves what they are for.  `dafny verify dfyconfig.toml` checks all of it.

* **Graphs** (`Digraph`, `PipelineGraph`, `GraphUtils`): Kahn's sort, validation, the search for
  inactive branches, over an explicit theory of paths and cycles.
* **Scheduling** (`LoopBody`, `LoopHelpers`, `ExecutionBudget`, `Host`, `NodeResults`, `RunGraph`,
  `RunTrace`, `TraceSteps`, `LoopCourse`, `Walk`, `RunEnd`, `Scheduler`, `RunFacts`): the scheduler as
  a class that mutates node states, decided edges and the budget.  Each execution state keeps a ghost
  trace of its dispatches: what each found, what it left, and, for a loop, its iterations with traces
  of their own.  `RunTrace` says when a trace is sound, `RunFacts` what that means.  Node definitions,
  the query executor, expression evaluation, timeouts and the clock are the `World`: arbitrary
  answers, by the number of the consultation and, for definitions, the inputs.
* **Compilation** (`CycleDetection`, `PipelineCompiler`, `CompiledGraphs`, `EdgeNames`,
  `CompiledRuns`): intents to graphs, with real edge ids and Map overriding, and the theorem
  that says exactly when what compiles is schedulable.
* **Expressions** (`DataValues`, `ExprEvaluator`, `TypeSoundness`, `PredicateToSql`, `Pushdown`,
  `ExprSanitizer`): evaluation, inference, pushdown to SQL with numbered placeholders, and the
  stripping of references to fields that do not exist.
* **Queries across sources** (`CrossDbDecomposer`, `QueryExecutor`, `JoinRuns`, `CrossDbMeaning`,
  `CrossDbLimits`, `ExecutionOrder`): decomposition, value references, and exactly when together
  they mean the join.
* **Others**: `SessionCursor`, `ForeignKeys`, `SemanticMatching`, `FieldRegistry`,
  `SemanticCache`, `CachedPlans`, `PlanSerializer`.

## What the proofs found

* Edge ids are not injective over ids with underscores, and a later put overrides an earlier edge:
  a valid intent with steps a, a_b, b_c, c compiles to a graph that validation refuses
  (`EdgeNames.ValidIntentCanBeRefused`).  Ids without underscores are safe.
* The repository's README says of the budget that a run never silently truncates
  (README.md:659).  Loops do: they stop at the smaller of their own cap and the budget's with no
  error (src/scheduler/scheduler.ts:1025-1028, 1064-1067).  The model follows the code.
* `iterationsUsed` can pass `maxIterations`, by less than the nesting depth of the loops: a loop
  inside a loop, one item each, counts two iterations under a cap of one
  (`RunFacts.NestedLoopsPassTheCap`).  When loops do not nest it cannot.
* A step that depends on a loop counts as part of the loop's body, even if other steps feed it too
  (`CompiledRuns.StepsAfterALoopAreItsBody`); when the loop returns it is marked completed without
  an output.
* Iterations walk only what the first target of the loop leads to, with no readiness check: in a
  loop over a and b that both feed c, c is dispatched before b (`RunFacts.TwoTargetsAreNotReady`).
  Readiness inside an iteration holds exactly for self-fed nodes (`RunFacts.ReadyJustWhenSelfFed`).
* The decomposer takes the link column from the left operand of an ON and the lookup column from the
  right one, whatever tables they name.  A reversed ON loses rows, or finds wrong ones, unless the
  columns have one name (`CrossDbLimits.ReversedOnLosesRows`, `CrossDbLimits.ReversedNeedsOneName`),
  and so does an ON whose near side is another table that the local joins do not tie to the primary
  one.  `CrossDbLimits.PreservedExactlyWhenEquivalent` is the exact condition.
* An empty intent is valid and compiles to a graph that validation refuses.
* The evaluator and SQL differ on nullable columns: `x != 5` keeps a null row in memory only.
* The sanitizer rewrites nested array literals.
* The cursor of an empty result cannot be turned into a clause: an empty id list falls through
  and the builder throws.  Besides the case of no known operator, a list operator without an array
  and a BETWEEN over null throw.  A list operator over an empty list gives `IN ()` or `NOT IN ()`,
  which the database rejects; exactly such filters do (`SessionCursor.RebuiltWhereMeansCursor`).
* A value reference whose table name has a dot is looked up under a wrong name and stays
  unresolved.  A filter on an unjoined table of another source is dropped.
* `heuristicScore` can pass 1 (`SemanticMatching.RepeatedTokensOvershoot`): the token overlap does
  exactly if the target repeats shared tokens more often than there are tokens not shared.
* An auto-injected field is displaced by a field of the same name under another canonical name,
  unless that is outranked under its own key (`FieldRegistry.AutoInjectedSurvivesJustWhen`).
* A plan node called `__proto__` is lost when the plan is stored, and a stored plan without an
  `edges` property cannot be read back.
* A cyclic query plan gets an order in which some node comes before what it reads.

## Reading the statements

* Numbers are reals and integers are unbounded; the places where this differs from the code are
  listed below.  Arrays and objects are compared by content.
* A field or table name that is absent is the empty string, which the code treats alike.
* `Supported` graphs have no parallel node and no fallback policy; the code does not keep the run
  invariants there.
* A node is self-fed in a loop if its data comes only from the loop and from what an iteration runs.
* A dispatch is *ready* if each of its data predecessors is completed or skipped, *permitted* if its
  control edges do not cut it off and no conditional evaluated before has left it on a branch not
  taken.  A settled node is *explained* by its own dispatch, by a loop that returned, or by not being
  permitted.
* In `Pushdown` the fragment is: numeric and boolean literals, non-text columns, + - *,
  comparisons, AND, OR, NOT, negation, CASE, BETWEEN, IN over literals; nullable columns under null
  tests only.
* In `JoinRuns` a query is nested loops over inner joins; an unprefixed column belongs to the
  primary table in a filter and on the left of ON, and to the joined table on the right.
* Equalities *force* another if a chain of them leads from one side of it to the other.

## Model

| member | source | states |
|---|---|---|
| `GraphUtils.TopologicalSort` | src/scheduler/graph-utils.ts:28-82 | With valid endpoints: either a repeat-free order of exactly the nodes with every data edge going forward, or the error, whose nodes are exactly those on or downstream of a cycle; it fails if and only if there is a cycle |
| `GraphUtils.InitialDegrees` | src/scheduler/graph-utils.ts:33-48 | In-degrees as counted edge by edge are the numbers of data edges into each node; dangling targets get a count too |
| `GraphUtils.Release` | src/scheduler/graph-utils.ts:61-71 | Finishing a node takes exactly its own edges off the counts and queues exactly the nodes whose count reaches zero |
| `GraphUtils.SortNodes` | src/scheduler/graph-utils.ts:51-72 | The queue loop keeps the count of unfinished predecessors of every node |
| `GraphUtils.LeftOverIsBehindCycles` | src/scheduler/graph-utils.ts:74-79 | What the sort never reaches lies on or downstream of a cycle |
| `GraphUtils.IsControlPathActive` | src/scheduler/graph-utils.ts:128-151 | A node is inactive exactly if it has incoming control edges and every one of them is deactivated; an undecided edge keeps it active |
| `GraphUtils.NodesOnInactiveBranches` | src/scheduler/graph-utils.ts:181-224 | Exactly the non-merge nodes reachable from the deactivated targets of this conditional along merge-free paths, each once |
| `GraphUtils.ValidateGraph` | src/scheduler/graph-utils.ts:350-462 | No error if and only if the graph is structurally sound; each error reported if and only if the defect it names is present; a cycle error names exactly the nodes on or behind cycles |
| `PipelineGraph.TopologicalOrderMeansAcyclic` | src/scheduler/graph-utils.ts:28-82 | A graph that has a topological order has no cycle |
| `LoopBody.ReachableNodes` | src/scheduler/scheduler.ts:835-856 | Exactly the nodes reachable over data edges, the start included |
| `LoopBody.BodyNodeIds` | src/scheduler/scheduler.ts:858-892 | The least set that holds the targets of the loop and is closed under "all other predecessors are in it", itself closed, although each test looks at what is visited or queued by then |
| `LoopBody.BodyComesLater` | src/scheduler/scheduler.ts:858-892 | A loop body lies entirely after the loop in every topological order |
| `Scheduler.Scheduler.CheckBudget` | src/scheduler/scheduler.ts:195-264 | Passing means that no counter has reached its cap and time is left; each refusal names a limit that is really reached |
| `Scheduler.Scheduler.ExecuteWithRetry` | src/scheduler/scheduler.ts:156-189 | The first answer that returns among the first maxRetries + 1, or the failure of all of them; the retry count it leaves |
| `Scheduler.Scheduler.HandleNodeError` | src/scheduler/scheduler.ts:1241-1335 | A skip policy absorbs the error, skips the node and lets it pass its inputs on; every other policy in scope fails it and passes the error on; nothing else changes |
| `Scheduler.Scheduler.ExecuteStandard` | src/scheduler/scheduler.ts:612-747 | Succeeds exactly if the definition, given the outputs of the predecessors, returns within its retries and in time; then the node holds the first value returned and an LLM call is counted once; otherwise the policy decides between a skip and a failure, and no call is counted |
| `Scheduler.Scheduler.ExecuteQuery` | src/scheduler/scheduler.ts:575-610 | The executor is run twice and the output is that of the second run; any failure of either run or a timeout throws past the error policy |
| `Scheduler.Scheduler.ExecuteMerge` | src/scheduler/scheduler.ts:1159-1239 | Fails exactly if it waits for all and a source is unsettled, if no completed source has an output, or if the merge definition throws; a single output passes through |
| `Scheduler.Scheduler.DecideEdges` | src/scheduler/scheduler.ts:937-952 | Exactly the outgoing control edges of the conditional are decided, each as the result demands; no other edge changes |
| `Scheduler.Scheduler.ExecuteConditional` | src/scheduler/scheduler.ts:894-977 | Fails exactly if the predicate throws or is no boolean; otherwise the edges are decided by its value, the input passes through, and exactly the pending nodes on the inactive branches are skipped |
| `Scheduler.Scheduler.ExecuteSubgraph` | src/scheduler/scheduler.ts:786-833 | One iteration walks what its first target leads to, in order: when it returns, every node it runs is settled and accounted for by its trace; when it throws, the budget has run out or its last dispatch threw |
| `Scheduler.Scheduler.RunIteration` | src/scheduler/scheduler.ts:1030-1042 | An iteration runs in a forked state of its own, the loop holding the item; having run, all it runs is settled; every dispatch in it is sound, and the budget grows by what it counts |
| `Scheduler.Scheduler.FoldTurn` | src/scheduler/scheduler.ts:1044-1051 | The output of the body is folded into the accumulator, the reducer being asked if there is one, and the iteration is counted |
| `Scheduler.Scheduler.IterateItems` | src/scheduler/scheduler.ts:1014-1057 | A forEach loop that returns has made min(items, cap) iterations, over the items in order, each of which ran the body; its result accumulates exactly theirs |
| `Scheduler.Scheduler.IterateWhile` | src/scheduler/scheduler.ts:1058-1104 | Before each iteration the condition was true, and each ran the body over the same input; the loop stopped because the condition was false or the cap was reached; it binds only its own names |
| `Scheduler.Scheduler.ExecuteLoop` | src/scheduler/scheduler.ts:979-1126 | The above for the loop node: its output, its body marked completed and nothing else changed, its scope changes, its count of iterations, and why it throws |
| `Scheduler.Scheduler.MarkBody` | src/scheduler/scheduler.ts:1106-1117 | The body is marked completed without output, in and outside the state; every other node keeps its state |
| `Scheduler.Scheduler.ExecuteKind` | src/scheduler/scheduler.ts:555-747 | By the kind of the node: what the dispatch leaves is the outcome the kind calls for, the execution state changes as that demands and not otherwise, and it throws for the reason the kind has |
| `Scheduler.Scheduler.ExecuteNode` | src/scheduler/scheduler.ts:533-747 | One dispatch is refused by the budget check, or adds to the trace one event that is sound, with all it found and all it made of it; and changes the execution state as that event says |
| `Scheduler.Scheduler.IsReadyToExecute` | src/scheduler/scheduler.ts:505-531 | Ready exactly if pending, with all data predecessors completed or skipped and the control path active |
| `Scheduler.Scheduler.Run` | src/scheduler/scheduler.ts:319-503 | Refused if and only if validation fails; otherwise, whether it returns or throws, every dispatch in its trace and inside its loops is sound and the counters keep their bounds; if it returns, every node is completed or skipped for a reason its trace gives; if it throws, the budget has run out or the last dispatch threw |
| `Scheduler.Scheduler.RunOrder` | src/scheduler/scheduler.ts:349-485 | The same of the main loop; the "dependencies not met" branch cannot be reached |
| `NodeResults.ThrowsJustWithoutOutcome` | src/scheduler/scheduler.ts:575-747 | A node that is no conditional and no loop throws exactly if there is nothing its kind lets it come to |
| `TraceSteps.DispatchKeeps` | src/scheduler/scheduler.ts:349-387 | A dispatch keeps what holds of an execution state between dispatches: results stay, edges stand as the verdicts demand, and each settled node has its reason |
| `TraceSteps.PassingKeeps` | src/scheduler/scheduler.ts:362-372 | So does skipping a node whose control edges cut it off |
| `Walk.WalkRuns` | src/scheduler/scheduler.ts:806-832 | The invariant of a walk, of a run and of an iteration alike, over one dispatch |
| `Walk.AdmittedInTurn` | src/scheduler/scheduler.ts:353-387 | At its turn a node has all its data predecessors settled, inside an iteration if it is self-fed |
| `Walk.WalkEnds` | src/scheduler/scheduler.ts:349-485 | At the end of the order everything that was due is settled |
| `LoopCourse.TurnGoesOn` | src/scheduler/scheduler.ts:1023-1052 | A turn that was due on top of the earlier ones keeps the course of a loop and its count |
| `LoopCourse.TurnAccumulates` | src/scheduler/scheduler.ts:1044-1048 | The accumulator after one more turn |
| `RunEnd.ForkIsForked` | src/scheduler/loop-helpers.ts:77-124 | A forked state holds the body pending, the loop completed with the item, and no decided edge |
| `RunEnd.AttemptsDecide` | src/scheduler/scheduler.ts:156-189 | The attempts made decide whether the definition succeeds |
| `RunGraph.SpentTrans` | src/scheduler/scheduler.ts:266-272 | Counters compose: LLM calls within their cap, iterations over theirs by less than the nesting depth |
| `RunGraph.NestingDepthBounds` | src/scheduler/scheduler.ts:979-1126 | The nesting depth of the graph bounds that of each loop |
| `RunFacts.EdgeStandsAsDecided` | src/scheduler/scheduler.ts:937-952 | At any moment a control edge of a conditional is decided exactly if the conditional was dispatched in that state, and as its verdict demands |
| `RunFacts.UntakenBranchNeverRuns` | src/scheduler/graph-utils.ts:181-224 | After a conditional, nothing that its edges which did not fire lead to without a merge is dispatched in that state |
| `RunFacts.TakenBranchIsNotInactive` | src/scheduler/graph-utils.ts:181-224 | Where the branches meet only behind merges, no node of the taken branch counts as inactive |
| `RunFacts.BodyNeverRunsAgain` | src/scheduler/scheduler.ts:1106-1117 | No body node is dispatched in the state its loop ran in, once the loop has returned |
| `RunFacts.OnlyRunBodySettles` | src/scheduler/scheduler.ts:806-832 | Inside an iteration nothing but the loop and what the iteration runs is ever settled |
| `RunFacts.ReadyJustWhenSelfFed` | src/scheduler/scheduler.ts:806-832 | Where inner loops keep to the body, a dispatch in an iteration finds its data predecessors settled if and only if all of them are the loop or what the iteration runs |
| `RunFacts.TwoTargetsAreNotReady` | src/scheduler/scheduler.ts:1002-1007 | In a loop over a and b that both feed c, every dispatch of c finds b untouched |
| `RunFacts.DispatchedNodeEnds` | src/scheduler/scheduler.ts:349-503 | A dispatched node of a run that returns ends as its dispatch left it, with the outcome its kind calls for |
| `RunFacts.UndispatchedNodeEnds` | src/scheduler/scheduler.ts:349-503 | A node not dispatched is in the body of a loop that was, or is cut off by its control edges or on a branch not taken |
| `RunFacts.SkippedMeans` | src/scheduler/scheduler.ts:349-503 | A skipped node failed under the policy to skip, or was never tried and is off the open path |
| `RunFacts.NestedLoopsPassTheCap` | src/scheduler/scheduler.ts:266-272 | A loop inside a loop, one item each: every run that returns has counted two iterations under a cap of one |
| `LoopBody.TargetIsInBody` | src/scheduler/scheduler.ts:864-867 | Every direct data target of a loop is in its body, whatever else feeds it |
| `LoopHelpers.CollectKeepsAll` | src/scheduler/loop-helpers.ts:211-226 | Collecting keeps every result in order |
| `LoopHelpers.MergeKeepsLast` | src/scheduler/loop-helpers.ts:228-240 | Merging keeps for each field the value of the last result that has it |
| `LoopHelpers.MergeInventsNothing` | src/scheduler/loop-helpers.ts:228-240 | Merging adds no field that no result has |
| `LoopHelpers.ReduceKeepsLast` | src/scheduler/loop-helpers.ts:163-176 | A reducer starts from its initial value and ends with what its expression gave last |
| `CycleDetection.DetectCycles` | src/compiler/pipeline/pipeline-compiler.ts:235-275 | Terminates with any dependencies, dangling ones included, and reports an error if and only if they contain a cycle |
| `CycleDetection.CycleDetector.Visit` | src/compiler/pipeline/pipeline-compiler.ts:240-268 | The depth-first search: finished steps are listed predecessors first, the recursion stack is a path, an error means a cycle |
| `PipelineCompiler.Validate` | src/compiler/pipeline/pipeline-compiler.ts:56-233 | No error if and only if ids are distinct, every reference names a step, the kinds have what they need and the dependencies are acyclic |
| `PipelineCompiler.BuildEdges` | src/compiler/pipeline/pipeline-compiler.ts:435-612 | The edge Map after all puts, one id overriding another as Map.set does |
| `PipelineCompiler.Compile` | src/compiler/pipeline/pipeline-compiler.ts:36-54 | No errors if and only if the intent is valid, and then the compiled graph |
| `PipelineCompiler.PutsOfHas` | src/compiler/pipeline/pipeline-compiler.ts:446-590 | The edges made are exactly those of the steps |
| `CompiledGraphs.DataFlowExact` | src/compiler/pipeline/pipeline-compiler.ts:435-612 | The data flow of the compiled graph is exactly: input to entry steps, what steps depend on, merge from, branch to and loop into, and exit steps to output |
| `CompiledGraphs.CompiledIsStructural` | src/compiler/pipeline/pipeline-compiler.ts:676-704 | Under distinct edge names and unreserved ids a valid intent compiles to a graph that validation accepts if and only if its steps' relations are acyclic and every step is fed |
| `CompiledGraphs.AcyclicJustAsSteps` | src/compiler/pipeline/pipeline-compiler.ts:435-612 | The compiled graph has a cycle exactly if the union of the steps' relations has |
| `CompiledGraphs.NoOrphanJustWhenFed` | src/compiler/pipeline/pipeline-compiler.ts:435-612 | Every node has an incoming edge exactly if every step is an entry or fed by some step |
| `CompiledGraphs.CompiledIsSupported` | src/compiler/pipeline/pipeline-compiler.ts:312-433 | Without parallel steps the compiled graph meets what the run theorems ask: distinct ids, no parallel node, no fallback policy |
| `CompiledGraphs.ControlEdgesHaveTwins` | src/compiler/pipeline/pipeline-compiler.ts:506-544 | Every control edge of a compiled graph has a data edge beside it |
| `CompiledGraphs.ControlComesFromConditionals` | src/compiler/pipeline/pipeline-compiler.ts:506-544 | Every control edge of a compiled graph comes from a conditional |
| `CompiledGraphs.PlainIntentIsStructural` | src/compiler/pipeline/pipeline-compiler.ts:56-233 | A valid, non-empty intent of query, transform, LLM, http and write steps without stray body lists, colliding edge names or reserved ids has a graph that validation accepts |
| `CompiledGraphs.PlainIntentFlowsThrough` | src/compiler/pipeline/pipeline-compiler.ts:614-704 | In their graphs every step lies on a path from input to output, and output is the only exit node |
| `CompiledGraphs.EmptyIntentIsRefused` | src/compiler/pipeline/pipeline-compiler.ts:676-704 | An intent without steps is valid but compiles to a graph that validation refuses |
| `EdgeNames.UnbrokenIdsDoNotCollide` | src/compiler/pipeline/pipeline-compiler.ts:446-590 | Step ids without underscores never collide |
| `EdgeNames.EdgesKeptJustWithoutCollision` | src/compiler/pipeline/pipeline-compiler.ts:494-500 | Every edge made is kept if and only if no two edges of different shape share an id |
| `EdgeNames.CollidingPairsOrphan` | src/compiler/pipeline/pipeline-compiler.ts:494-500 | Two dependencies with one edge id orphan the first dependent, and the graph is refused |
| `EdgeNames.ValidIntentCanBeRefused` | src/compiler/pipeline/pipeline-compiler.ts:494-500 | A concrete valid intent (a, a_b, b_c, c) whose graph validation refuses |
| `CompiledRuns.UndecidedMeansNotEvaluated` | src/scheduler/graph-utils.ts:128-151 | When a node of a compiled graph is dispatched, a control edge into it that is undecided comes from a conditional not dispatched in that state: one marked in a loop body, or cut off itself |
| `CompiledRuns.CompiledReadyJustWhenSelfFed` | src/scheduler/scheduler.ts:806-832 | In compiled graphs, where inner loops keep to the body, readiness inside iterations is exactly being self-fed |
| `CompiledRuns.StepsAfterALoopAreItsBody` | src/scheduler/scheduler.ts:858-892 | A step that depends on a loop is part of its body: once the loop has returned it is marked completed without output and never dispatched there |
| `CompiledRuns.CompileAndRun` | src/compiler/pipeline/pipeline-compiler.ts:36-54 | From intent to run: refused exactly when the relations are cyclic or a step is unfed, for orderly intents; safe whenever not refused; and each node of a run that returns is settled for a reason the trace gives |
| `ExprEvaluator.ScopeResolve` | src/executors/expr-evaluator.ts:449-458 | The innermost binding of a name, or the error that it has none |
| `TypeSoundness.EvaluationFitsInference` | src/executors/expr-evaluator.ts:40-226 | Any value evaluate returns is null or has the kind inferType gives, under annotated literals, agreeing scopes, honest functions and equal branch types |
| `TypeSoundness.ResolutionAgrees` | src/executors/expr-evaluator.ts:449-470 | Agreeing scope chains resolve the same names, to fitting values |
| `TypeSoundness.CastFits` | src/executors/expr-evaluator.ts:378-408 | A cast that succeeds gives null or a value of the target kind |
| `PredicateToSql.Parameters.PredicateToSQL` | src/storage/postgres-backend.ts:343-514 | Only appends to the shared list; clause and appended values are those specified for any list it starts from |
| `PredicateToSql.PlaceholdersInOrder` | src/storage/postgres-backend.ts:348-351 | The placeholders of any translatable predicate read left to right are exactly the new positions of the list, each once |
| `Pushdown.PushdownPreserves` | src/storage/postgres-backend.ts:343-514 | On the stated fragment the clause under the parameters, read in three-valued logic, has the value of in-memory evaluation, whatever the list held before |
| `Pushdown.PushedClauseMeansEvaluation` | src/storage/postgres-backend.ts:343-514 | The same of the translator's own result, under its final list and every extension of it |
| `Pushdown.ChainIsMembership` | src/storage/postgres-backend.ts:459-486 | IN over literals is membership |
| `Pushdown.NullIsUnequalInMemoryOnly` | src/executors/expr-evaluator.ts:281-291 | Why nullable columns are outside: null != n is true in memory and null in SQL |
| `ExprSanitizer.WalkSanitizes` | src/compiler/pipeline/expr-sanitizer.ts:42-66 | The grammar-blind walk over JSON does to the JSON of any expression what sanitizing does to the expression |
| `ExprSanitizer.SanitizingReadsMissingAsNull` | src/compiler/pipeline/expr-sanitizer.ts:11-33 | The sanitized expression has on every row the value or failure the original has with each missing field bound to null |
| `ExprSanitizer.FixKeepsExactlyTheClean` | src/compiler/pipeline/expr-sanitizer.ts:42-66 | The walk changes nothing if and only if there is no unavailable reference and no array directly inside an array |
| `ExprSanitizer.FixCleans` | src/compiler/pipeline/expr-sanitizer.ts:42-66 | Only available references remain, whatever JSON is given |
| `ExprSanitizer.FixIsIdempotent` | src/compiler/pipeline/expr-sanitizer.ts:42-66 | Sanitizing twice is sanitizing once, for every JSON value and field list |
| `ExprSanitizer.NestedArrayLiteralsChange` | src/compiler/pipeline/expr-sanitizer.ts:57-64 | A literal [[1]] is changed by the walk, and its value with it |
| `CrossDbDecomposer.DecomposeCrossDbQuery` | src/compiler/query/cross-db-decomposer.ts:48-151 | Cross-source exactly if some join is routed elsewhere; the lookup steps in join order, then the primary step with its links |
| `CrossDbDecomposer.BuildLookups` | src/compiler/query/cross-db-decomposer.ts:76-120 | One lookup per foreign join, and the tag written onto the join |
| `CrossDbDecomposer.PushLinkFilters` | src/compiler/query/cross-db-decomposer.ts:129-137 | One IN filter per foreign join, built from its tag |
| `CrossDbDecomposer.EachFilterGoesToOneStep` | src/compiler/query/cross-db-decomposer.ts:94-126 | Each filter goes to exactly one step, or to none exactly if it names a table of another source that is not joined |
| `CrossDbDecomposer.RefRoundTrips` | src/executors/query-executor.ts:254-258 | A reference reads back as written if and only if the lookup id has no dot and the column is not empty |
| `QueryExecutor.ResolveValueRefs` | src/executors/query-executor.ts:251-292 | Filters are rewritten in place one by one; the first that finds no value or several throws, with those before it rewritten and those after it untouched |
| `JoinRuns.BindingsAreLeaves` | src/executors/query-executor.ts:117-143 | Nested loops over inner joins give exactly the ways to take a row of each table that pass every ON and every filter, in order |
| `CrossDbMeaning.LinkResolves` | src/executors/query-executor.ts:254-290 | A link filter resolves if and only if its lookup found exactly one non-null value, and then to IN over that value |
| `CrossDbMeaning.ResolvesJustWhenLookupsAreUnique` | src/executors/query-executor.ts:267-283 | The executor accepts the primary step if and only if every lookup found exactly one value, and what its filters then are |
| `CrossDbMeaning.LeavesMatch` | src/compiler/query/cross-db-decomposer.ts:76-120 | Where each lookup counts one row, the ways to take just those rows are the ways to take rows of the local tables |
| `CrossDbMeaning.LeafPasses` | src/compiler/query/cross-db-decomposer.ts:48-151 | A way to take a row of each table passes the query exactly if its local part passes the primary step and its other rows are those found |
| `CrossDbMeaning.DecompositionPreservesMeaning` | src/compiler/query/cross-db-decomposer.ts:48-151 | Where the equalities the steps impose and those the query states force each other, lookups, resolution and the primary step return the rows of the query, in order and with repeats, less the tables of other sources |
| `CrossDbLimits.PreservedExactlyWhenEquivalent` | src/compiler/query/cross-db-decomposer.ts:76-137 | For a query without filters: over all data on which each lookup finds one value the steps return its rows, if and only if those equalities force each other and joins within the source keep to it |
| `CrossDbLimits.OrientedIsEquivalent` | src/compiler/query/cross-db-decomposer.ts:83-91 | ON written with the primary table on the left and the joined one on the right always decomposes faithfully |
| `CrossDbLimits.ReversedNeedsOneName` | src/compiler/query/cross-db-decomposer.ts:83-91 | Written the other way round it does if and only if the two columns have one name |
| `CrossDbLimits.ReversedOnLosesRows` | src/compiler/query/cross-db-decomposer.ts:129-137 | A concrete reversed ON: the lookup finds one value, the query gives a row, the steps give none |
| `ExecutionOrder.GetExecutionOrder` | src/executors/query-executor.ts:513-544 | For any plan: exactly the nodes the root reads from, once each; every node comes after what it reads if and only if what is below the root has no cycle |
| `ExecutionOrder.Walker.Traverse` | src/executors/query-executor.ts:520-540 | The post-order walk and its invariant, cycles included: what a node reads is listed before it or leads back to it |
| `SessionCursor.RebuildFilters` | src/session/SessionCursor.ts:114-189 | Clauses, parameters and the running placeholder number over the filter list |
| `SessionCursor.BuildWhereFromCursor` | src/session/SessionCursor.ts:84-209 | A clause exactly if there are ids or usable filters, with which error otherwise; its placeholders run from startIndex, one per parameter; bound into any statement it means what the cursor asks; bulk unless one id |
| `SessionCursor.PlaceholdersAreSequential` | src/session/SessionCursor.ts:114-203 | The placeholders read left to right are startIndex, startIndex + 1, ..., one per parameter |
| `SessionCursor.BuildsExactlyWhen` | src/session/SessionCursor.ts:88-208 | A clause is built if and only if there are ids, or a filter with a known operator and no list or range operator without its value |
| `SessionCursor.AcceptedJustWithoutEmptyLists` | src/session/SessionCursor.ts:132-148 | A rebuilt clause has a list without placeholders exactly if a filter has an empty list |
| `SessionCursor.RebuiltWhereMeansCursor` | src/session/SessionCursor.ts:84-203 | Bound into any statement, the clause is true of a row exactly if it has one of the ids, or satisfies every filter with a known operator; the database rejects it exactly if one of those lists is empty |
| `SessionCursor.SmallResultsAreFoundAgain` | src/session/SessionCursor.ts:44-103 | The cursor of 1 to 50 rows points back at each of them; that of an empty result can only throw |
| `ForeignKeys.BuildFkGraph` | src/schema/DDLParser.ts:211-234 | Both indexes hold every declared key under the right table, in declaration order |
| `ForeignKeys.ReferencesMirror` | src/schema/DDLParser.ts:236-246 | s refers to t exactly if t is referred to by s |
| `ForeignKeys.IsReachable` | src/schema/DDLParser.ts:247-266 | Terminates, and true if and only if there is a path of at most max(maxHops, 0) keys, although tables are marked only on dequeue |
| `ForeignKeys.NothingLeftToExplore` | src/schema/DDLParser.ts:252-265 | When the queue is empty the goal is out of reach |
| `ForeignKeys.VisitsEntry` | src/schema/DDLParser.ts:253-263 | Visiting a table keeps the queue at two hop counts in order and loses no path |
| `SemanticMatching.LongestCommonSubstring` | src/nodes/semantic-layer-builder-node.ts:80-94 | Exactly the length of the longest common contiguous substring |
| `SemanticMatching.CommonSuffixIsLongest` | src/nodes/semantic-layer-builder-node.ts:85-92 | Each table entry is the longest common suffix of the two prefixes |
| `SemanticMatching.HeuristicScore` | src/nodes/semantic-layer-builder-node.ts:125-140 | The score: never negative, and at most 1 where the target repeats shared tokens no more often than the two names have tokens that are not shared |
| `SemanticMatching.OverlapWithinOneJustWhen` | src/nodes/semantic-layer-builder-node.ts:96-105 | The token overlap is at most 1 if and only if that holds |
| `SemanticMatching.RepeatedTokensOvershoot` | src/nodes/semantic-layer-builder-node.ts:96-105 | Column x scores more than 1 against column x_x_x of table x |
| `FieldRegistry.Registry.AddFieldWithPriority` | src/pipeline-engine.ts:186-209 | The whole new state of both maps, and their bijection kept |
| `FieldRegistry.RegistryHoldsWinners` | src/pipeline-engine.ts:186-221 | After any offers the maps are in bijection and each case-folded name holds the first-offered field of highest priority |
| `FieldRegistry.AutoInjectedStays` | src/pipeline-engine.ts:199-204 | An auto-injected field is never displaced by fields whose name is their canonical name |
| `FieldRegistry.AutoInjectedSurvivesJustWhen` | src/pipeline-engine.ts:186-209 | Whatever the names, an auto-injected field survives an offer if and only if the offer has another name, is the field itself, or is outranked under its own key |
| `FieldRegistry.AutoInjectedSurvivesAll` | src/pipeline-engine.ts:186-209 | And a sequence of offers, if each of the same name is outranked when its turn comes |
| `FieldRegistry.AliasDisplacesAutoInjected` | src/pipeline-engine.ts:139-142 | A concrete offer of the same name under another canonical name that displaces it |
| `SemanticCache.CloneIsIdentityExactlyOnClean` | src/cache/SemanticCache.ts:31-43 | The tagged clone is the identity if and only if the value holds no undefined and no plain object with the Maps' tag |
| `SemanticCache.CloningPrunes` | src/cache/SemanticCache.ts:31-43 | What the clone makes of any untagged value: undefined dropped from objects and null in arrays, Maps kept |
| `SemanticCache.MapRevives` | src/cache/SemanticCache.ts:31-43 | A Map with distinct string keys comes back entry by entry |
| `CachedPlans.StripExecutionValues` | src/cache/SemanticCache.ts:45-73 | The nodes of the clone edited one after the other |
| `CachedPlans.StrippingIsIdempotent` | src/cache/SemanticCache.ts:28-74 | Stripping twice is stripping once, though the clone in between drops what stripping left undefined |
| `PlanSerializer.SerializePlan` | src/cache/PlanSerializer.ts:3-50 | The stored plan |
| `PlanSerializer.DeserializePlan` | src/cache/PlanSerializer.ts:52-119 | Throws exactly if the stored graph has no edges property or holds a null edge; otherwise the plan read back, null edges counting as none |
| `PlanSerializer.PlanRoundTrips` | src/cache/PlanSerializer.ts:3-119 | A complete plan with Map edges comes back identical if and only if no node is called __proto__; header and edges always do |
| `PlanSerializer.EdgeListComesBackById` | src/cache/PlanSerializer.ts:74-88 | The older list format comes back as a Map by id |

## Left out

- Scheduler.Scheduler.Run: readiness inside loop iterations is part of soundness for self-fed nodes only, because an iteration runs what the loop's first target leads to without checking it; the other nodes are not ready, as the lemma on self-fed nodes says.
- What a condition, predicate or reducer expression reads: evaluation is an arbitrary answer for each consultation.
- Parallel nodes, real concurrency and the fallback policy: `executeSubgraph` with an input marks its start node completed without running it and checks no readiness, so the run invariants do not hold there.
- The `outputs` collection of a run, session cursors kept by a run, events, traces, logging, and the cutting of outputs by output key: none of them feeds back into scheduling.
- Fan-in shaping of node inputs before a definition is called (src/scheduler/scheduler.ts:640-735): the definition is given its inputs by key, and making one argument of them is part of its answer.
- Retries that go on in the background after a node's timeout: the race is one answer of the `World`.
- Schema values and column schemas (`mergeSchemas`): only rows are modelled.
- Identity of arrays and objects: `===` and `includes` are equality of content, so two equal arrays count as one value.
- Floating point: rounding, NaN and infinities; division by zero and remainders are host functions.
- String comparison, LIKE, dates and text conversion: host functions of the evaluator and of the database.
- SQL as text: clauses are trees, so quoting, and the rendering of a nested negation, are not modelled; neither are text columns (compared without case on purpose) and null logic outside the fragment.
- Functions in pushed predicates: translated and numbered, but outside the fragment whose meaning is preserved.
- Aliases, self joins, outer joins, grouping, ordering and limits of decomposed queries: meaning is about inner joins to tables of their own, each ON naming tables joined by then; the decomposer itself is modelled for all join kinds.
- The columns a decomposed query selects: the primary step keeps those of tables it no longer joins; meaning is about the joined rows.
- CrossDbLimits.PreservedExactlyWhenEquivalent: the necessity half is about queries without filters, since filters that no row passes make any two queries agree.
- CrossDbMeaning.DecompositionPreservesMeaning: requires filters that carry no value reference of their own, because what such a reference reads is another step's output.
- Decomposition of writes (`detectCrossDBFK`, `decomposeCrossDBWrite`): it would add only easy members.
- `mergeField`, `clear` and the listing functions of the field registry: `mergeField` may rename or re-source a field at will.
- Key order of JSON objects and of Maps rebuilt from objects: integer-like node ids come back first; nodes are compared as maps.
- Dates, functions and class instances in cached values; JSON text itself.
- Expiry of cursors (clock), bulk confirmation, and the statement a clause is put into.
- DDL parsing, traits, check constraints, and the LLM part of semantic matching; `isReferenceLike` and the thresholds around the score.
- Grants, audit, sessions, HTTP routes, the query planner and the physical operators: services, or not part of this model.
