# RuleMind decision path, verified

A Dafny model of the parts of RuleMind whose promises range over every input and every run: the policy executor,
the durable delivery of decisions, the variable compiler, the decision-table optimiser, collaborative editing, the
audit hash chain, and several loops with exact answers. `dafny verify dfyconfig.toml` checks the whole project.

## What is modelled

- **Policy executor** (`PolicyModel`, `OutcomeLattice`, `Interpreter`, `RunSafety`, `Decisions`, `ConnectorReach`,
  `ParallelLoop`, `ParallelTraces`, `PolicyExecutor`). Policies are trees of steps over a finite store that may be
  cyclic. `Interpreter` is the reference semantics: total functions from a state to a state, whose termination is the
  measure unvisited policies, step tree, position. Rules, models, review gates and providers are oracles that answer or
  raise. `PolicyExecutor` is the code as written, a mutable context and a visited set, and every method is proved to
  leave exactly the reference state. The theorems are about the reference semantics.
- **Write-ahead log** (`DecisionWal`, `DecisionWalFile`). A state machine of processes, inodes, paths, advisory locks,
  the database, the dead-letter file and its replay, with kills at every point. Opening a log and taking its lock are
  two steps, as they are two system calls.
- **Outbox, broker, consumer** (`DecisionDelivery`, `DeliveryWorkers`). Rows, relay passes whose reports may be lost,
  a partitioned log, several consumers whose offsets may move back.
- **Variable compiler** (`VariableCompiler`, `Decimal`). Python expressions and register code with a meaning each, over
  shared uninterpreted operations that may raise.
- **Decision tables** (`DecisionTables`), **audit chain** (`AuditChain`), **last-writer-wins documents and the hub**
  (`Crdt`, `CollabHub`), **scanners** (`JsonPath`, `JsonExtract`), **working days** (`WorkingDays`), **traffic split**
  (`Experiments`), **circuit breaker** (`CircuitBreaker`).

## Where the code is weaker than its prose

Each of these is a lemma with a concrete run or input, or one side of an if-and-only-if.

- The precedence merge is order-independent only for outcomes its table names; two unnamed ones (an outcome step
  configured with "fail", say) do not commute.
- A loop, branch, action or transform that raises does not escalate, even with gates inside it; only rules,
  scorecards, tables, models and sub-workflows do. A condition that cannot be evaluated escapes the whole step list.
- A sub-workflow inside a loop runs in the first iteration only: the visited set is never popped.
- A parallel loop's trace differs from the sequential one where an outcome step or a nested loop quotes a running
  outcome that the outcome the iteration began with would have changed.
- The connector collector follows `ref_id` and misses a child named only by alias, unless another step led it there.
- The write-ahead log loses an acknowledged decision in three races: a recoverer removing a file between its owner's
  open and lock (the lock's answer is ignored); two recoverers of one path, the second removing the file the owner has
  since re-created; and a dead-letter replay that overwrites what was dead-lettered while it ran.
- Recovery asks once which rows exist. A write that lands after that and before the try makes the try fail, and the
  entry is kept or dead-lettered although its decision is in the database.
- A consumer crash between claim and handler, or a failed dead-letter write, loses an event for good.
- The optimiser sorts the bounds of `between`, the evaluator does not; and it takes JSON booleans and infinities for
  numbers where the evaluator refuses them.
- A parameter named like a register (`r1`) is overwritten by the compiled code.
- The genesis check of the audit chain is skipped when any legacy row precedes the chain.
- An inner deletion in the audit chain goes unnoticed when the row before the gap has a sequence number that is not an
  integer and the row after it names that row's hash.
- In a three-way merge an edit stamped at or below zero can lose to the base document.
- With a day count of -1 that lands on the previous day, counting back over that single day gives 1, not -1.
- `extract_json` takes a fence inside a string of the document for the end of the block; exactly then a fenced document
  is not found.
- A `.get` call with no or more than two arguments, which Python refuses, is compiled and runs.
- A late success from a call admitted before the trip closes an open circuit breaker in the middle of its cooldown.

## Model

| member | source | states |
|---|---|---|
| OutcomeLattice.MergeAssociates | apps/python-executor/app/executor.py:68-86 | grouping of verdicts never matters, for every string, known outcome or not |
| OutcomeLattice.MergeCommutesIff | apps/python-executor/app/executor.py:68-86 | two verdicts merge in either order to the same outcome exactly unless they are different outcomes of one rank, which only happens to outcomes the precedence table does not name |
| OutcomeLattice.MergeAbsorbsStart | apps/python-executor/app/executor.py:68-86 | a verdict merged into an earlier outcome and then into a later one of at least its rank is the verdict merged into the later one, so children may all start from the outcome a loop was entered with |
| Interpreter.RunFrom | apps/python-executor/app/executor.py:807-888 | running a step list terminates over any finite, possibly cyclic store, never forgets a visited policy, and lets exactly one kind of error escape, a condition that cannot be evaluated |
| RunSafety.RunFromIsSafe | apps/python-executor/app/executor.py:807-888 | running any step list over any finite, possibly cyclic policy store (the interpreter it speaks of is a terminating function) never lowers the outcome rank, only appends to the trace, cannot clear recorded input failures, keeps every gate failure escalated to review or reject, and never enters a sub-workflow twice |
| RunSafety.LoopBodyIsSafe | apps/python-executor/app/executor.py:985-1053 | a loop, sequential or parallel, keeps the same promises as a step list |
| RunSafety.WorkflowBodyIsSafe | apps/python-executor/app/executor.py:1172-1208 | entering a sub-workflow keeps the same promises, whether it is refused, missing or run |
| RunSafety.MergeChildrenIsSafe | apps/python-executor/app/executor.py:1094-1125 | merging the contexts of a parallel loop's children keeps the same promises |
| Decisions.DecidedOutcomeIsExact | apps/python-executor/app/executor.py:704-742 | a decision whose declared inputs failed (a failed non-continue source, or an uncomputed variable without the fail-open flag) is exactly review; any other decision is exactly what the run came to |
| Decisions.DecisionFailsClosed | apps/python-executor/app/executor.py:855-888 | if any rule, scorecard, table, model or sub-workflow step on the decision's trace raised, the logged outcome is review or reject; without a missing input the outcome never ranks below what the run started from |
| Decisions.ApprovalHasNoFailureBehindIt | apps/python-executor/app/executor.py:1447-1489 | a logged approval has no missing input and no raised gate behind it |
| Decisions.ThrownStepEscalatesIff | apps/python-executor/app/executor.py:855-888 | which raised steps escalate: gates and sub-workflows do, every other step leaves the outcome as it was, and the error is the last trace entry either way |
| Decisions.SubWorkflowsAreEnteredOnce | apps/python-executor/app/executor.py:1172-1208 | over any store, cyclic ones included, no sub-workflow is entered twice in one run, the running policy is not re-entered, and at most one entry per stored policy happens |
| Decisions.RepeatedSubWorkflowForcesReview | apps/python-executor/app/executor.py:1172-1182 | a sub-workflow step naming a policy already visited raises and escalates to review |
| ConnectorReach.SourceCollector.Collect | apps/python-executor/app/executor.py:594-640 | the in-place walk fills its two sets with exactly what the specification walk gives |
| ConnectorReach.CollectCovers | apps/python-executor/app/executor.py:594-640 | after a walk whose own way of reading a sub-workflow step no alias diverts, every connector step below the given steps, and below every sub-workflow marked seen, is in the set of sources |
| ConnectorReach.RunReachesOnlyResolvedSources | apps/python-executor/app/executor.py:594-640 | with no premise: for every store and alias registry, all conditions, answers, collections, races and completion orders, a connector step a run executes is found by the walk that asks the registry at each sub-workflow step |
| ConnectorReach.RunReachesOnlyCollectedSources | apps/python-executor/app/executor.py:594-640 | for every store and registry in which the source's walk has itself seen each stored policy that a walked step resolves to, every connector step a run executes was collected |
| ConnectorReach.DirectStoresAreCollected | apps/python-executor/app/executor.py:594-640 | that condition always holds when no alias diverts a sub-workflow step from the id it names |
| ConnectorReach.CollectedSourcesSufficeIff | apps/python-executor/app/executor.py:594-640 | over policies without loops and branches, at most as many as the nesting limit, a run whose conditions hold and whose answers come reaches exactly what the registry walk finds, and so stays within the collected sources if and only if following the aliases would have found nothing more |
| ConnectorReach.CollectedIsMentioned | apps/python-executor/app/executor.py:594-640 | the walk reports nothing that no connector step names |
| ConnectorReach.AliasedChildIsMissed | apps/python-executor/app/executor.py:594-640 | in any such store, a step that resolves to a policy with a connector the walk did not collect lets a run reach it |
| ConnectorReach.OneAliasIsEnough | apps/python-executor/app/executor.py:594-640 | a step naming a stored policy only by alias makes the source collect nothing whatever connectors that policy has |
| ParallelLoop.RunMirrors | apps/python-executor/app/executor.py:1055-1071 | one body run on the live context and on an isolated child of the same item: the live record is what it held before plus the child's, traces included, the running outcomes quoted in the child's entries being merged into the outcome already held |
| ParallelLoop.ChildrenDecideTheLoop | apps/python-executor/app/executor.py:1073-1125 | a parallel loop ends in the state after its last child and raises exactly when one of its children did |
| ParallelLoop.ParallelRefinesSequential | apps/python-executor/app/executor.py:1015-1125 | for a body that depends only on the item and on inputs it does not write, in every completion order, if the sequential loop runs through, the parallel loop does and leaves the same outcome, rule, action, scorecard, table and transform records and before/after outcomes; each sequential report holds the parallel one's steps requoted from the outcome the iteration began with, and both traces are those steps in order |
| ParallelTraces.ModesLeaveTheSameTraceIff | apps/python-executor/app/executor.py:1015-1125 | reports and traces of the two modes are identical if and only if every iteration of the parallel report quotes what it would quote from the outcome it began with |
| ParallelTraces.SilentLoopsHaveSameTrace | apps/python-executor/app/executor.py:1015-1125 | for bodies without outcome steps and nested loops the two traces and reports are identical |
| ParallelTraces.ReportedOutcomesDiffer | apps/python-executor/app/executor.py:1073-1125 | a concrete two-item loop whose modes agree on the outcome and differ in the trace, because an outcome step quotes the running outcome |
| PolicyExecutor.PolicyExecutor.RunSteps | apps/python-executor/app/executor.py:807-888 | the imperative step loop leaves exactly the context, visited set and error the reference semantics gives |
| PolicyExecutor.PolicyExecutor.ExecuteBranch | apps/python-executor/app/executor.py:1127-1142 | the branch method does what the reference semantics does |
| PolicyExecutor.PolicyExecutor.ExecuteSubworkflow | apps/python-executor/app/executor.py:1172-1208 | likewise for sub-workflows, with the visited set updated in place |
| PolicyExecutor.PolicyExecutor.RunLoopSequential | apps/python-executor/app/executor.py:1027-1053 | likewise for the sequential loop on the live context |
| PolicyExecutor.PolicyExecutor.RunLoopParallel | apps/python-executor/app/executor.py:1073-1125 | likewise for the parallel loop: children run on clones in completion order and are merged in item order |
| PolicyExecutor.PolicyExecutor.MergeResults | apps/python-executor/app/executor.py:1094-1125 | the in-place merge of children into the parent equals the specification merge |
| PolicyExecutor.PolicyExecutor.Execute | apps/python-executor/app/executor.py:1348-1362 | the step run of a decision and the guards after it leave the context the reference decision gives |
| PolicyExecutor.ExecutionContext.FailClosedOnFetchErrors | apps/python-executor/app/executor.py:704-742 | the guard forces review exactly when a non-continue source failed, and records what it replaced |
| PolicyExecutor.ExecutionContext.FailClosedOnVariableErrors | apps/python-executor/app/executor.py:1447-1489 | the guard forces review exactly when a variable failed and fail-open is off, and records what it replaced |
| DecisionWal.LosesNothingIff | apps/python-executor/app/decision_wal.py:223-306 | over all runs of any number of processes with kills anywhere, torn lines, failing inserts, compaction, recovery and replay: every acknowledged decision stays in the database, a named log file or the dead letter, if and only if three races are excluded (lock after open, recovery of a renamed path, dead-lettering during a replay) |
| DecisionWal.AppendedDecisionsSurvive | apps/python-executor/app/decision_log.py:163-185 | with the three races excluded no run loses an acknowledged decision |
| DecisionWal.StepKeepsInv | apps/python-executor/app/decision_wal.py:354-477 | every single step of writer, recoverer, replayer or killer keeps the durability invariant |
| DecisionWal.RowsAreNeverReplaced | apps/python-executor/app/decision_wal.py:383-384 | whatever the races, a row the database holds is never changed: the primary key refuses a second insert, so this holds of every step and not only of recovery |
| DecisionWal.RecoveryTriesOnlyMissing | apps/python-executor/app/decision_wal.py:379-384 | in every run from the moment a recoverer holds the lock, an entry it still has to try has a row if and only if a step other than its own tries has inserted it since: its one present-check keeps all older rows from being tried |
| DecisionWal.RecoveryMeetsRowIff | apps/python-executor/app/decision_wal.py:371-384 | the same from any point of a recovery: recovery meets a row exactly when it was there or someone else has inserted it since, and its own inserts never get in its way |
| DecisionWal.InsertersAre | apps/python-executor/app/decision_log.py:174-183 | those others are landing inserts of a scheduled write, of another recovery or of a replay |
| DecisionWal.MetRowIsKept | apps/python-executor/app/decision_wal.py:385-404 | a try that meets a row leaves it alone, counts as failed and keeps or dead-letters the entry although its decision is in the database |
| DecisionWal.PendingWriteMeetsRecovery | apps/python-executor/app/decision_wal.py:354-412 | a run with such a meeting: a process recovers its own log while a write is scheduled, and the decision ends up both in the database and dead-lettered |
| DecisionWal.OpenRaceLoses | apps/python-executor/app/decision_wal.py:223-234 | a run in which a recoverer removes a log between its owner's open and lock, and the owner's next decision is lost |
| DecisionWal.RecoveryRaceLoses | apps/python-executor/app/decision_wal.py:357-417 | a run in which a second recoverer, holding the old file's lock, removes the owner's new file |
| DecisionWal.ReplayRaceLoses | apps/python-executor/app/decision_wal.py:133-169 | a run in which a decision dead-lettered during an operator's replay is overwritten |
| DecisionWalFile.Log.Append | apps/python-executor/app/decision_wal.py:237-254 | the line is added last, a record without an id is not logged, the in-memory set is what is on disk and compaction never runs late |
| DecisionWalFile.Log.MarkCommitted | apps/python-executor/app/decision_wal.py:257-261 | the mark is kept until the threshold, at which the file is rewritten without the committed ids and the marks are cleared, so they stay bounded |
| DecisionWalFile.Log.MaybeCompact | apps/python-executor/app/decision_wal.py:264-306 | the rewriting loop keeps exactly the parsing lines that are not committed, in order |
| DecisionWalFile.RecoverOne | apps/python-executor/app/decision_wal.py:354-423 | the replay loop inserts, keeps and dead-letters exactly what the specification does, last line per id winning and present ids skipped |
| DecisionWalFile.TriesReplayAll | apps/python-executor/app/decision_wal.py:379-404 | the recovery loop is what the state machine's recovery steps add up to |
| DecisionWalFile.ReplayAccountsForEveryEntry | apps/python-executor/app/decision_wal.py:379-412 | every entry tried ends in the database, kept or dead-lettered, and only entries tried are inserted |
| DecisionWalFile.ReplaySortsByAttempts | apps/python-executor/app/decision_wal.py:391-404 | entries kept for another boot failed fewer than the limit, dead-lettered ones at least that often |
| DecisionWalFile.RecoveryIsIdempotent | apps/python-executor/app/decision_wal.py:425-477 | once every insert of a recovery returned, recovering the same lines again at any later time tries nothing and changes nothing |
| DecisionDelivery.DeliveryIsSafe | apps/python-executor/app/decision_consumer.py:76-182 | in every run of relays and consumers with crashes, lost reports and redelivery: a handler starts at most once per tenant and event, a row marked sent is in the broker log, and nothing is handled or parked that no row announced |
| DecisionDelivery.DeliversAllIff | apps/python-executor/app/decision_consumer.py:121-182 | in every quiet state (nothing unsent, offsets at the end, no consumer busy) the handled or parked events are exactly the outbox rows, if and only if no consumer crashes between its claim and the end of handling and the dead-letter write works |
| DecisionDelivery.StepKeepsSent | apps/python-executor/app/decision_outbox.py:214-267 | no step marks a row sent whose message is not in the log |
| DecisionDelivery.StepSkipsNothing | apps/python-executor/app/decision_consumer.py:165-179 | no step moves an offset past a message that is not claimed or parked |
| DecisionDelivery.CrashInWindowLoses | apps/python-executor/app/decision_consumer.py:121-134 | a run whose crash after the claim makes the redelivered event look like a duplicate |
| DecisionDelivery.FailedParkingLoses | apps/python-executor/app/decision_consumer.py:212-228 | a run in which the handler fails, the dead-letter write fails, and the offset is committed all the same |
| DeliveryWorkers.Relay.RelayOnce | apps/python-executor/app/decision_outbox.py:214-267 | a pass takes the oldest unsent rows, stamps exactly those acknowledged, counts an attempt on the others, and changes nothing when delivery is off |
| DeliveryWorkers.PassIsMachineRun | apps/python-executor/app/decision_outbox.py:230-267 | an uninterrupted pass is one run of the delivery machine's steps |
| DeliveryWorkers.Worker.HandleMessage | apps/python-executor/app/decision_consumer.py:100-134 | processed, duplicate or dead letter by claim and handler, with the claims, the handler runs and the completed events updated accordingly |
| DeliveryWorkers.Worker.ConsumeOnce | apps/python-executor/app/decision_consumer.py:137-182 | a pass handles every message up to its limit, runs the handler on first occurrences only, parks exactly the unclaimable messages and those whose handler failed, as far as the dead-letter write works, and its counters are the numbers of each outcome |
| DeliveryWorkers.ConsumeOnceIsMachineRun | apps/python-executor/app/decision_consumer.py:137-182 | an uninterrupted pass, from subscribing at the committed offset to closing, is one run of the delivery machine, whatever the handlers and the dead-letter topic do |
| DeliveryWorkers.ConsumedParks | apps/python-executor/app/decision_consumer.py:165-179 | the messages a pass parks are exactly those that cannot be claimed or are the first of their key with a failing handler, and whose dead-letter write works |
| DeliveryWorkers.NewKeysAre | apps/python-executor/app/decision_consumer.py:121-128 | the handler runs of a pass are, each once, exactly the claimable keys nobody had claimed |
| DeliveryWorkers.RedeliveryClaimsNothing | apps/python-executor/app/decision_consumer.py:121-124 | redelivering any of the messages in any order claims nothing new |
| VariableCompiler.CompilationPreservesMeaning | apps/python-executor/app/compiler.py:159-284 | for every operation semantics and every accepted function whose code writes none of its parameters, running the instructions returns or raises what the Python body does, read as the compiler reads it: -x as x * -1, a subscript as a keyed get, .get with a missing key as the empty text and a missing default as 0 |
| VariableCompiler.NamesAreSafeIff | apps/python-executor/app/compiler.py:154-156 | on any machine that tells one value from one constant, every accepted function with these parameters is translated soundly if and only if no parameter is spelled like a register |
| VariableCompiler.TranslationIsSoundIff | apps/python-executor/app/compiler.py:168-188 | the code does what Python itself does on every accepted function whose .get calls Python accepts exactly when the machine cannot tell -x from x * -1, a subscript from a keyed get, nor an omitted default from 0 |
| VariableCompiler.AgreesWithPythonIff | apps/python-executor/app/compiler.py:180-188 | function by function, where the machine agrees with Python and nothing raises: an accepted function that keeps clear of its parameters runs as in Python, from any arguments, if and only if every .get call up to its first return has one or two arguments |
| VariableCompiler.EmptyGetIsLookedUp | apps/python-executor/app/compiler.py:180-188 | its smallest instance: a .get call without arguments, which Python refuses, is accepted, looks up the empty key and so runs otherwise than in Python |
| VariableCompiler.CodeIsSingleAssignment | apps/python-executor/app/compiler.py:154-156 | accepted code writes registers 1, 2 and so on once each, in order, reads only parameters and registers written before, and ends by returning |
| VariableCompiler.CompileIsCorrect | apps/python-executor/app/compiler.py:159-217 | expression by expression: the value is in the named register, older registers are untouched, and the first failure escapes |
| VariableCompiler.ParameterSpelledLikeARegister | apps/python-executor/app/compiler.py:259-264 | for every register m a function with a parameter of that name is accepted and, after m assignments, returns what it wrote instead of the argument |
| VariableCompiler.Compilation.CompileExpr | apps/python-executor/app/compiler.py:159-217 | the method that appends to the shared list and bumps the shared counter does what the specification says, refusals included |
| VariableCompiler.Compilation.CompileVariable | apps/python-executor/app/compiler.py:255-284 | the statement loop gives exactly the specified instruction list or refusal |
| DecisionTables.RegionIsExactIff | apps/python-executor/app/decision_tables.py:174-211 | a numeric cell matches exactly the values of its region if and only if its bounds are finite, not JSON booleans and in order for between, or it is an ordered comparison that no number satisfies |
| DecisionTables.FillsIff | apps/python-executor/app/decision_tables.py:174-211 | a cell matches every value of its region exactly when it is a wildcard, a category, a plain numeric condition or one whose region is empty |
| DecisionTables.ConfinedIff | apps/python-executor/app/decision_tables.py:174-211 | a cell matches nothing outside its region exactly unless it is an equality with a JSON boolean or a non-finite number |
| DecisionTables.RowCoversIff | apps/python-executor/app/decision_tables.py:214-249 | on plain interval-or-wildcard rows over different variables covering is exactly containment of what the rows match, null only in a wildcard |
| DecisionTables.CleaningChangesNothing | apps/python-executor/app/decision_tables.py:330-338 | under the first and unique policies deleting all reported rows at once changes neither the winning row nor the outputs, the default row included, for any input, when in each covering pair the earlier row fills its regions and the later one stays in its own; all other rows may be anything |
| DecisionTables.PlainTableIsSound | apps/python-executor/app/decision_tables.py:174-249 | tables whose numeric conditions are finite, not JSON booleans and in order for between meet that premise |
| DecisionTables.ShadowedNeverWins | apps/python-executor/app/decision_tables.py:330-338 | under priority a row covered by a sound earlier one of at least its priority never wins |
| DecisionTables.ShadowedNeverWinsIff | apps/python-executor/app/decision_tables.py:330-338 | in a table of two rows that priority condition is exact |
| DecisionTables.UnorderedBetweenHidesALiveRow | apps/python-executor/app/decision_tables.py:191-194 | for every pair of finite bounds in the wrong order, a between makes the optimiser report the following row that asks for the lower bound; that row wins on it, and deleting it leaves no winner |
| DecisionTables.WinnerIff | apps/python-executor/app/decision_tables.py:117-141 | the winner is the unique match that beats every other by priority, and by position among equals |
| DecisionTables.EvaluateRow | apps/python-executor/app/decision_tables.py:60-89 | the loop reports a match exactly when every cell matches, with the verdict of each cell |
| DecisionTables.Evaluate | apps/python-executor/app/decision_tables.py:92-163 | the report names every matching row, the winner or the default row, gives the winner's outputs or under collect one list per output column, the outcome of the first outcome column, and the ambiguity flag |
| DecisionTables.CollectDecidesLikeFirst | apps/python-executor/app/decision_tables.py:127-153 | the outcome read off collected columns is the one the first matching row alone would give, unless that row's own value is a list |
| DecisionTables.Unreachable | apps/python-executor/app/decision_tables.py:330-338 | a row is reported exactly when an earlier one covers it, with the first such row |
| AuditChain.Verify | apps/python-executor/app/audit_chain.py:75-180 | the report lists exactly the breaks of each row in order, counts verified and legacy rows, and returns the last stored hash |
| AuditChain.AcceptedIff | apps/python-executor/app/audit_chain.py:94-170 | a log is accepted if and only if it is legacy rows followed by an unbroken chain of rows with their own hashes, starting at genesis when no legacy row precedes |
| AuditChain.AcceptedCounts | apps/python-executor/app/audit_chain.py:86-180 | acceptance implies that verified plus legacy rows are all rows |
| AuditChain.HeadCommits | apps/python-executor/app/audit_chain.py:66-72 | two accepted, fully chained logs with one head agree on every chained field of every row and have one length, or exhibit a hash collision or a row hashing to the genesis value |
| AuditChain.FrontDeletionAcceptedIff | apps/python-executor/app/audit_chain.py:109-118 | cutting the front of the chain goes unnoticed exactly when a legacy row precedes it or the new first row carries the genesis value |
| AuditChain.InnerDeletionAcceptedIff | apps/python-executor/app/audit_chain.py:119-137 | deleting a run inside the chain escapes if and only if the row before it has no integer sequence number and the row after it names that row's hash |
| AuditChain.EditDetected | apps/python-executor/app/audit_chain.py:153-160 | changing chained fields under the stored hash is detected unless it is a collision |
| Crdt.MergeIsAssociative | apps/python-executor/app/crdt.py:64-70 | merging is associative with no condition |
| Crdt.MergeCommutesIff | apps/python-executor/app/crdt.py:30-36 | merging commutes exactly when equal stamps carry equal values |
| Crdt.ReplicasConverge | apps/python-executor/app/crdt.py:64-70 | replicas that absorbed the same documents in any order, grouping and repetition hold the same state |
| Crdt.ReplicasConvergeIff | apps/python-executor/app/crdt.py:64-70 | that convergence holds for a set of documents exactly when stamps determine values in it |
| Crdt.ApplyEditLoop | apps/python-executor/app/crdt.py:53-61 | the edit loop equals a merge with the stamped changes |
| Crdt.MergeLoop | apps/python-executor/app/crdt.py:64-70 | the merge loop equals the field-wise merge |
| Crdt.ThreeWayKeepsEdits | apps/python-executor/app/crdt.py:73-93 | with stamps above the base's, lone edits survive, double edits go to the higher stamp, the rest is the base's, and exactly the double edits are reported |
| Crdt.LoneEditSurvivesIff | apps/python-executor/app/crdt.py:87-93 | an edit by one author is lost exactly when the base has the field and the stamp does not beat the base's |
| Crdt.ThreeWayIsSymmetricIff | apps/python-executor/app/crdt.py:73-93 | the authors can be swapped exactly unless they share a stamp and disagree |
| Crdt.DocAsOf | apps/python-executor/app/crdt.py:99-107 | sorting and walking gives the greatest version not above the one asked for, the last of equals |
| Crdt.AsOfIsStable | apps/python-executor/app/crdt.py:99-107 | what a version reads never changes as later versions are added |
| CollabHub.NextStampIsHigherIff | apps/python-executor/app/collab_hub.py:35-38 | an edit's stamp exceeds the one before exactly while the clock goes back by less than the blend's scale |
| CollabHub.Document.Edit | apps/python-executor/app/collab_hub.py:94-107 | every edit wins over all earlier stamps, its version is the fold of all change sets so far, and history is only appended to |
| CollabHub.Document.Seed | apps/python-executor/app/collab_hub.py:55-61 | only a document without history is seeded |
| CollabHub.Document.Restore | apps/python-executor/app/collab_hub.py:109-115 | restoring yields the past fields on top of the present document in a new version, or nothing for a version before the first |
| CollabHub.VersionsReadBack | apps/python-executor/app/collab_hub.py:75-76 | reading an existing version gives that version's document however long the history is |
| CollabHub.LastMentionDecides | apps/python-executor/app/collab_hub.py:94-107 | in a folded document a field holds what the last change set to mention it said |
| CollabHub.Hub.Edit | apps/python-executor/app/collab_hub.py:94-107 | editing changes the document of that tenant and id as the specification of one document says and no other, and gives it the next version number |
| CollabHub.Hub.Seed | apps/python-executor/app/collab_hub.py:55-61 | likewise for seeding, which a document with a history ignores |
| CollabHub.Hub.Restore | apps/python-executor/app/collab_hub.py:109-115 | likewise for restoring, which does nothing for a version before the first |
| CollabHub.Hub.ReadAsOf | apps/python-executor/app/collab_hub.py:75-76 | reading changes no document and gives the version asked for |
| CollabHub.DocumentsAreIsolated | apps/python-executor/app/collab_hub.py:41-53 | in every run of the hub a document is what its own calls alone would have made it, and exists exactly when some call named it |
| CollabHub.VersionsNeverChange | apps/python-executor/app/collab_hub.py:72-76 | in every run, whatever calls follow and whatever the clock does, reading a version that exists gives the same document for ever |
| CollabHub.RestoreBringsBack | apps/python-executor/app/collab_hub.py:109-115 | after any run, restoring a version makes each of its fields read as it did, keeps the fields it did not have, appends to the history and touches no other document |
| JsonPath.ResolveJsonpath | apps/python-executor/app/jsonpath.py:14-63 | the character loop computes the scanner specification |
| JsonPath.ScannerRefinesLookup | apps/python-executor/app/jsonpath.py:14-63 | resolving a printed path of plain keys and integer indices, negative ones included, equals folding the lookups over any JSON value |
| JsonPath.UnterminatedIndexIsNull | apps/python-executor/app/jsonpath.py:53-60 | a bracket that is never closed makes the path null whatever surrounds it |
| Decimal.ReadOfPrint | apps/python-executor/app/jsonpath.py:38-41 | reading a printed integer gives it back |
| JsonExtract.FindsTheDocument | apps/python-executor/app/ai.py:379-419 | without a fenced block, for any JSON object or array (sections 2 and 7 of RFC 8259) after text without opening brackets and before anything, the span found is exactly the document |
| JsonExtract.FencedDocumentIsFoundIff | apps/python-executor/app/ai.py:383-419 | in a response whose first fence opens a block, tagged json or not, starting with a JSON object or array: the document is found exactly when its own text holds no fence, whatever follows it, fences included, and is reported cut off otherwise |
| JsonExtract.FindsTheFencedDocument | apps/python-executor/app/ai.py:383-384 | the positive half: a document without a fence in its text is found whatever surrounds it, and the block is everything up to the next fence |
| JsonExtract.FenceInAStringCutsTheDocument | apps/python-executor/app/ai.py:383-384 | the negative half for every string that holds a fence: the list of that string is reported cut off |
| JsonExtract.BackticksAreCut | apps/python-executor/app/ai.py:383-384 | a concrete response: the list of the string of three backticks, in a fenced block, is cut off |
| JsonExtract.ValueIsBalanced | apps/python-executor/app/ai.py:388-406 | no JSON value stops the scan or changes its depth, whatever its strings hold |
| JsonExtract.ExtractJson | apps/python-executor/app/ai.py:379-419 | the fence search picks the candidate text, and the loop over depth and string state finds the specified span in it, or says the text is empty, has no bracket or is cut off |
| WorkingDays.WorkdayThenNet | apps/python-executor/app/excel_functions.py:1371-1381 | from the day after (or before) the start to the day WORKDAY reaches there are exactly n working days; the sign agrees except for one day back |
| WorkingDays.NetThenWorkday | apps/python-executor/app/excel_functions.py:1420-1429 | stepping as many working days as NETWORKDAYS counts to a working day gets there, forwards and backwards |
| WorkingDays.WorkdayLoop | apps/python-executor/app/excel_functions.py:1420-1429 | the loop terminates for every day count and finite holiday list and computes the specified day |
| WorkingDays.NetWorkdaysLoop | apps/python-executor/app/excel_functions.py:1371-1381 | the loop counts the set of working days between the dates, negated when counting back |
| Experiments.SharesAreExactIff | apps/python-executor/app/experiments.py:66-95 | with a ramp in effect and challenger weights not negative, every variant gets exactly its weight of the 100 residues and the champion the rest, if and only if the challengers do not total more than 100 |
| Experiments.SharesAreExact | apps/python-executor/app/experiments.py:98-116 | the exact share of each variant when they do not |
| Experiments.ChallengerIsSticky | apps/python-executor/app/experiments.py:66-116 | with one challenger on a rising ramp a user once on the challenger stays there |
| Experiments.RampWeightRises | apps/python-executor/app/champion_challenger.py:40-53 | time only raises a rising ramp's weight, the days before its first step included |
| Experiments.AssignVariant | apps/python-executor/app/experiments.py:98-116 | the cumulative loop finds the first variant whose cumulative weight exceeds the residue, else the last |
| Experiments.WeightsForLoop | apps/python-executor/app/experiments.py:66-95 | the champion's entry is overwritten with what the others leave, not below zero, only when a ramp is in effect |
| CircuitBreaker.ClosedMeansFewFailures | apps/python-executor/app/circuit_breaker.py:112-133 | after every sequence of calls, reads and results the breaker is closed exactly when fewer failures than the threshold were recorded since the last success, and its counter is then that number |
| CircuitBreaker.TripShutsOut | apps/python-executor/app/circuit_breaker.py:88-133 | no call is admitted within the recovery period after a trip unless a success was recorded in between |
| CircuitBreaker.AdmitsInCooldownIff | apps/python-executor/app/circuit_breaker.py:88-133 | during the recovery period after a trip a call is admitted if and only if fewer failures than the threshold have been recorded since the last success |
| CircuitBreaker.LateSuccessCloses | apps/python-executor/app/circuit_breaker.py:112-117 | a run of two admitted calls whose first trips the breaker and whose second succeeds late, after which a call is admitted inside the cooldown |
| CircuitBreaker.HalfOpenPeriodIsBounded | apps/python-executor/app/circuit_breaker.py:104-109 | a half-open period admits at most the probe budget |
| CircuitBreaker.ProbesAreBounded | apps/python-executor/app/circuit_breaker.py:95-133 | until a success any stretch shorter than the recovery period admits at most the probe budget, through failed probes and late failures |
| CircuitBreaker.Breaker.Allow | apps/python-executor/app/circuit_breaker.py:95-110 | admission, short-circuit count and the seconds to wait |
| CircuitBreaker.Breaker.RecordFailure | apps/python-executor/app/circuit_breaker.py:119-133 | the new state, and a trip counted exactly when a probe failed or the threshold is reached |

## Left out

- Time budgets, latency, alerts, error events, tracing and audit records of the executor; exception texts, of which
  only the message of an unevaluable condition is kept.
- Pause and resume round trips of an execution context, and the debug loop; a pause ends the run.
- Interleavings between parallel iterations: children run whole, in any completion order, with an oracle saying which
  sub-workflow another child entered first; the payload they share is threaded in that order. A run in which the gather
  has raised while siblings still go on is therefore not modelled either.
- RunSafety.LoopBodyIsSafe: of a parallel loop it speaks of whole iterations in some order, as above.
- ParallelLoop.ChildrenDecideTheLoop: the loop raises after its last child, where the source raises at the first.
- PolicyExecutor.PolicyExecutor.RunLoopParallel: one child at a time in completion order, without the semaphore.
- PolicyExecutor.PolicyExecutor.Execute: the step run and the guards; input validation, experiments, fetching, variable
  computation, persistence and logging around them are not modelled.
- ParallelLoop.ParallelRefinesSequential: variables are not compared, because the parallel path does not merge them, and
  the loop's collection, conditions and answers may not depend on what the body writes.
- ConnectorReach.CollectedSourcesSufficeIff: loops and branches are outside the exact half, since which of their steps an
  environment can reach depends on how conditions repeat; for them the inclusion in what the registry walk finds stands.
- PolicyExecutor: rule, table, model, action and connector bodies are oracles; the alias registry is a given map.
- DecisionWal.LosesNothingIff: compaction, rewriting and dead-lettering are one step each and reach the disk; files of
  one process instance are never reused by another; records without an id are not logged by the source either.
- The queue bound and shutdown flush of `decision_log.submit`; a scheduled write simply happens at some time, or never.
- DecisionDelivery.DeliveryIsSafe: no ordering between events is claimed, since a partly failed pass can reorder them.
- Topics other than the one relayed, and a decision whose outbox row could not be inserted.
- VariableCompiler.CompilationPreservesMeaning: a parameter that the code overwrites is outside it, also where the code
  never reads it afterwards; NamesAreSafeIff is exact in the parameter names, not function by function.
- Keyword arguments, which the compiler ignores, the banned-node scan and parsing, and the devices that run the code
  beyond the meaning of its instructions.
- The overlap and gap half of the table optimiser, and date and boolean columns; texts are compared by their canonical
  form, and the difference between 5 and 5.0 as category names is not kept.
- Cryptography: the digest is any function of the chained fields, and collisions are exhibited rather than excluded.
- Presence, cursors and broadcasting of the hub, and its lock; calls are one at a time.
- CollabHub.Document.Edit: the wall clock reads between zero and 10^12 seconds. A restore reads the past version and
  edits in one call; the source lets other edits in between, which change no version that exists.
- JsonPath.ResolveJsonpath: an index is read with the digits 0 to 9, where `int()` also knows those of other scripts.
- Attributes of Python objects in `jsonpath.py`, which its fallback would read from strings, numbers and lists, and
  `evaluate_math_expr`.
- The JSON parser that receives the span of `extract_json`, and so its error for a malformed one.
- The date range of Python, at whose end WORKDAY raises; conversion of arguments to dates.
- Hashing of the user id (a residue is given), authored weights and ramp entries that are not numbers.
- CircuitBreaker: the registry of breakers and its environment settings; threshold, probes and cooldown are positive.
- HTTP, Kafka, SQL, files and clocks themselves; only their visible effects are kept.
