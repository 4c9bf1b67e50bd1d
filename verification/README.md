# Verified models of the runtime's accounting, plan guards and resumable sweeps

This project models, in Dafny, the parts of the runtime and of its Gaia2 harness whose guarantees hold
over every run, and proves those guarantees. Each module follows one component:

| module | component |
|---|---|
| `Clock`, `Environment`, `EnvironmentLaws` | the charged clock and the environment that freezes it for judges and model calls |
| `Intervals`, `Concurrency`, `Calls`, `Client`, `ReactEngine` | call windows, their offline union and overlap sweep, the protocol that stamps them, one call of the clocked client with all its exits, and the ReAct engine's brackets |
| `Ledger` | the property-value ledger behind "unchanged" markers |
| `Values`, `References`, `PlanGuard` | runtime values, reference resolution, and the guard that condemns a plan reading data that is not there |
| `Predicates`, `PredicateResolution` | the three-valued predicate evaluator and the rewriting of predicates to literals |
| `Checkpoints`, `Scheduler` | the crash-resumable capability run and the job scheduler |
| `Replan`, `Meter` | what a dropped plan leaves behind, and the meter of model calls |
| `Options`, `Sequences`, `Sorting` | shared helpers |

Components whose source updates fields in place are classes (`ChargedTimeManager`, `ChargedEnvironment`,
`ClockedClient`, `MeteredEngine`, `PropertyStream`, `Store`, `Activity`, `LLMMeter`); their methods are proved against
specification functions or predicates, and the laws are lemmas over whole runs of those. Loops over local
state are methods with invariants. Everything else is functions and lemmas.

How the world outside is represented:

- Time and charges are exact integer ticks, so the measure of a set of instants is its cardinality.
  The wall clock is an arbitrary non-decreasing input.
- A method that holds a lock is one atomic step. Interleavings are arbitrary sequences of such steps.
- The catch-up tick of a resume is an arbitrary sequence of calls back into the environment, nested to
  any depth.
- A sink's callback is an arbitrary tree of nested property updates; a sink that reports failure has
  not committed the row.
- Files are values; a durable write either happened or did not; a digest is the content it covers. A
  process is killed after an arbitrary number of writes. Scenario results, pause requests and call
  logs are arbitrary.
- What a wait of the scheduler brings is an arbitrary list of finished tasks and pause requests.

What the proofs turned up, where the code and what is said about it part ways:

- `ChargedTimeManager.pause` reads the wall clock twice. If the readings differ, ending that pause moves
  scenario time back by exactly the difference (`Clock.StepLaw`), so readings of a run never decrease if
  and only if no such pause ends in it (`Clock.NeverRewindsIff`). The offline union still equals the
  summed frontier advances in every run, such pauses included, as long as no busy period starts inside
  a freeze of that kind (`Calls.UnionIsFrontierAdvance`); one that does can always go on so that the
  union falls short (`Calls.OpeningAgreesIff`).
- `resolve_references` is documented never to raise on a bad path. It does exactly when a `$from` or
  `$bind` reference with a present source spells its path as something other than text
  (`References.RaisesIffUnsplittable`).
- The plan guard takes operation names to contain no dot. A condemned operation read is dead in every
  execution if and only if no earlier step invokes a dotted operation it could also mean, or the history
  already answers to its exact name, or its path is not text (`PlanGuard.CondemnationIsExact`).
- The leak guard reads a call's parameters as one mapping, so a parameter whose own name spells a
  reference makes it object although everything resolved; over plain sources that is the only way it
  differs from the list of unresolved keys (`References.CallIffLeak`).
- `finish_attempt` is commented to make a resume refuse after a crash between the two attestation
  writes. The code skips such an attempt and runs the scenario again
  (`Checkpoints.HalfAttestedIsPassedOver`); the model follows the code.
- A run killed inside the very first write of its marker leaves a directory every later run refuses;
  a run cut short anywhere else can be started again (`Checkpoints.Store.RunCheckpointed`).

## Model

| member | source | states |
|---|---|---|
| Clock.ChargedTimeManager.Reading | examples/gaia2/simulated_clock.py:62-69 | a frozen clock shows the moment of the freeze plus the charges since, a running one wall time plus offsets, including a freeze begun at time zero |
| Clock.ChargedTimeManager.Pause | examples/gaia2/simulated_clock.py:71-78 | only the outermost pause captures time, from two separate wall readings |
| Clock.ChargedTimeManager.Resume | examples/gaia2/simulated_clock.py:80-94 | only the last of the nested resumes restarts time, takes the frozen span out and the charges in |
| Clock.ChargedTimeManager.AddOffset | examples/gaia2/simulated_clock.py:96-104 | a negative offset counts as zero; a frozen clock holds the charge until it is read or resumed |
| Clock.ClockLaw | examples/gaia2/simulated_clock.py:57-104 | for every run, scenario time is unfrozen wall time plus all non-negative charges, plus the gap between the two readings of the pause in force |
| Clock.FrozenMovesOnlyByCharges | examples/gaia2/simulated_clock.py:62-69 | for as long as a freeze lasts, through any nested pauses and resumes, scenario time moves by exactly the charges |
| Clock.StepLaw | examples/gaia2/simulated_clock.py:71-104 | an operation moves scenario time by its charge and nothing else, except that ending a pause takes its two readings' gap back |
| Clock.NeverRewindsIff | examples/gaia2/simulated_clock.py:71-94 | no reading of a run shows less than an earlier one, at whatever wall times they are taken, if and only if every pause that ends read one wall time twice |
| Clock.TornPauseRewinds | examples/gaia2/simulated_clock.py:73-75 | a concrete pause with two readings that moves scenario time back by two |
| EnvironmentLaws.TickFlattens | examples/gaia2/simulated_clock.py:141-167 | calls re-entering through catch-up ticks, at any nesting, have the outcome of the same calls made one after another |
| EnvironmentLaws.GenerationAdmitted | examples/gaia2/simulated_clock.py:193-212 | running or already frozen by whomever, the world takes one more token and one more freeze for a model call; in any other phase nothing happens |
| EnvironmentLaws.JudgeAdmitted | examples/gaia2/simulated_clock.py:169-176 | the same for a judge, who adds a judge depth and no token |
| EnvironmentLaws.AnyNumberTogether | examples/gaia2/simulated_clock.py:193-212 | from any admitting state a run reaches any number more calls outstanding together |
| EnvironmentLaws.StopDrains | examples/gaia2/simulated_clock.py:238-255 | a stop leaves no depth, no token and no pause event, and is final exactly when its state admits no pauses |
| EnvironmentLaws.StopIsFinal | examples/gaia2/simulated_clock.py:169-255 | after a stop no later sequence of calls, however nested, freezes the environment or issues a token, unless a stop names a running state |
| EnvironmentLaws.SpentForever | examples/gaia2/simulated_clock.py:193-236 | a token once settled or drained is never outstanding again |
| EnvironmentLaws.ChargedOnce | examples/gaia2/simulated_clock.py:214-228 | completing a token a second time, whatever happened in between, changes nothing |
| EnvironmentLaws.ClockProjects | examples/gaia2/simulated_clock.py:136-255 | in every run, however its calls nest, the environment's clock is the bare clock run on the pauses, charges and resumes the environment let through, in order |
| EnvironmentLaws.ScenarioTime | examples/gaia2/simulated_clock.py:136-255 | scenario time of the environment obeys the clock law for all its callers together, catch-up ticks included |
| Environment.ChargedEnvironment.Pause | examples/gaia2/simulated_clock.py:169-176 | a judge pause keeps clock depth equal to judge depth plus outstanding tokens and the pause event set exactly when that is positive; it is ignored unless running or paused |
| Environment.ChargedEnvironment.ResumeWithOffset | examples/gaia2/simulated_clock.py:178-191 | a judge resume charges, releases one depth, and runs the catch-up tick exactly when the world restarts |
| Environment.ChargedEnvironment.StartGeneration | examples/gaia2/simulated_clock.py:193-212 | running or paused, a generation gets the next token, stamped with the frontier, which restarts at scenario time when nothing is outstanding; in any other phase token zero |
| Environment.ChargedEnvironment.FinishGeneration | examples/gaia2/simulated_clock.py:214-228 | completing a token charges once and moves the frontier to the end of its charge; unknown tokens change nothing |
| Environment.ChargedEnvironment.GenerationChargeTime | examples/gaia2/simulated_clock.py:230-236 | an outstanding token reads its stamped start, any other reads the clock |
| Environment.ChargedEnvironment.Halt | examples/gaia2/simulated_clock.py:238-255 | the drain loop ends every freeze and forgets every token |
| Intervals.IntervalUnion | examples/gaia2/llm_calls.py:114-126 | sort-and-merge returns the exact measure of the union for any list in any order |
| Intervals.UnionVersusSum | examples/gaia2/llm_calls.py:114-126 | the union is at most the sum of lengths and equals it if and only if the interiors are pairwise disjoint |
| Intervals.UnionVersusLongest | examples/gaia2/llm_calls.py:114-126 | the union is at least the longest interval |
| Intervals.UnionIgnoresOrder | examples/gaia2/llm_calls.py:114-126 | lists with the same intervals have the same union |
| Intervals.ChargedTimeUnion | examples/gaia2/llm_calls.py:134-165 | no answer exactly when coordinated and uncoordinated windows are mixed; otherwise the exact measure of the charged axis |
| Intervals.AxisVersusSerialized | examples/gaia2/llm_calls.py:134-165 | the charged union never exceeds the serialized charge, with equality exactly when the charged intervals are disjoint |
| Concurrency.RoundTripConcurrency | examples/gaia2/llm_calls.py:177-202 | the sweep's maximum is attained and is the maximum over all instants of positive-length windows in flight; the overlap count is the number of windows sharing positive length with another |
| Client.ClockedClient.Complete | examples/gaia2/llm_calls.py:621-657 | begin, probe, model and recorder may each raise while others act in between: on every exit after the freeze the token is spent, the charge is zero if the recorder raised, the window recorded carries the coordinate probed, and the last failure is what the caller sees |
| Client.ExitSpendsToken | examples/gaia2/llm_calls.py:621-657 | whatever raised and whatever others did before, during or after, no later sequence of calls makes the token outstanding again |
| Client.LastExitRestarts | examples/gaia2/llm_calls.py:641-657 | a call that holds the last freeze restarts the world on its way out, whichever way it leaves |
| Client.CompleteFollowsProtocol | examples/gaia2/llm_calls.py:621-657 | on every exit path the call's effect on environment, log and its own record is a run of the token protocol: admission, others' steps, the probe unless it failed, the wait, the settlement |
| Calls.EveryExitReleases | examples/gaia2/llm_calls.py:621-657 | in any interleaving, once every call has settled no token is outstanding and only judges hold the clock |
| Calls.ProperRun | examples/gaia2/simulated_clock.py:193-236 | in every reachable state, pauses that read two wall times included, the busy periods so far tile the log and the open one ends at the current frontier, no later than the scenario time a resume would show |
| Calls.UnionIsFrontierAdvance | examples/gaia2/llm_calls.py:134-165 | in every interleaving in which no busy period starts inside a freeze with two different readings, the recorded windows tile the busy periods without gap or overlap, so the offline union equals the summed frontier advances, is at most the serialized charge, and equals it when calls were never outstanding together |
| Calls.LateCallHasNoCoordinate | examples/gaia2/llm_calls.py:505-543 | a call admitted after a stop freezes nothing and its window has no coordinate, so it makes the union of a coordinated log unanswerable |
| Calls.OpeningAgreesIff | examples/gaia2/simulated_clock.py:71-78 | from a busy period's start on, union and summed advances agree in every continuation if and only if the freeze in force read one wall time twice |
| Calls.TornOpeningDisagrees | examples/gaia2/simulated_clock.py:71-78 | from any reachable state in which a busy period starts inside the other kind of freeze, a continuation whose union is strictly below the summed advances is constructed |
| ReactEngine.MeteredEngine.BeginBracket | examples/gaia2/react_engine.py:282-292 | a bracket starts empty at its token's coordinate |
| ReactEngine.MeteredEngine.ChatCompletion | examples/gaia2/react_engine.py:313-364 | every crossing is priced, stamped after the earlier trips of its bracket and kept, also when it raises; a returning trip of a wired bracket reports the cumulative bracket charge |
| ReactEngine.MeteredEngine.Price | examples/gaia2/react_engine.py:454-463 | nothing when generation is free, the elapsed time without a charge model, else the model's price, with an unreported cache figure counting as no cached input |
| ReactEngine.BracketTiles | examples/gaia2/react_engine.py:391-440 | the windows of a bracket lie end to end from its coordinate: each trip starts where the charges before it end, for any list of trips, raising or not |
| ReactEngine.BracketCovers | examples/gaia2/react_engine.py:466-468 | together they cover exactly the stretch from the bracket's start to its start plus its cumulative charge, and the engine total grows by that |
| ReactEngine.ReactAccountsAgree | examples/gaia2/react_driver.py:147-190 | over a whole wired run in which no bracket opens inside a freeze with two different readings, the engine total, the sum of window charges, the charged union and the clock's frontier advance are one number |
| ReactEngine.UncoordinatedBracketOverlaps | examples/gaia2/react_engine.py:412-419 | a bracket without a coordinate stamps from the engine's own cursor and can lie on top of a coordinated one, so union and total differ |
| Ledger.PropertyStream.StreamedValue | src/sora/diagnostics.py:393-413 | the carried value, and nothing at all inside another update's emission |
| Ledger.PropertyStream.RecordStreamedValue | src/sora/diagnostics.py:416-440 | a value is kept unless a nested update decided the key since, in which case the key is left unset |
| Ledger.PropertyStream.Snapshot | src/sora/_strategies/observe.py:889-919 | one compare-emit-record sequence, with everything its emission re-enters |
| Ledger.UpdateKeeps | src/sora/diagnostics.py:73-108 | one update with any tree of updates nested in it keeps every settled ledger entry equal to the last full row of its key |
| Ledger.ReaderRecoversEveryObservation | src/sora/diagnostics.py:369-440 | for any sequence of update trees and collection contexts, a reader carrying the last full value over markers recovers at every row the value observed |
| Ledger.ContextsShareTheLedger | src/sora/diagnostics.py:259-290 | as long as one collection context stays open, contexts opened and closed meanwhile make no difference to the ledger |
| Ledger.LastContextForgets | src/sora/diagnostics.py:259-290 | once the last context has closed nothing is recorded, and the next one starts with nothing known while the log goes on |
| Ledger.UnchangedIsElided | src/sora/_strategies/observe.py:900-909 | an unchanged value is elided whenever neither its emission nor later updates touched the key |
| Ledger.OnlyKnownIsElided | src/sora/_strategies/observe.py:900-909 | a marker is sent exactly for a comparable value that the ledger carries and no other update is emitting; any other value is sent in full |
| Ledger.MarkerRecordsNothing | src/sora/_strategies/observe.py:900-909 | an update that sent a marker leaves its key as it was |
| Ledger.RecordedIffUndisturbed | src/sora/diagnostics.py:416-440 | a value sent in full is in the ledger afterwards if and only if nothing re-entered by its emission, at any depth, delivered the same key |
| Values.SegmentsJoined | src/sora/references.py:150-183 | the segments of a folded route joined to a path are those of the two in turn, also when either is empty or holds empty segments |
| Values.SegmentsOfWritten | src/sora/types.py:22-29 | a path written from names is walked by exactly those names |
| Values.NumbersIndex | src/sora/types.py:22-29 | a number reads that place of a list or a text, counting from zero, and nothing of anything else |
| Values.JoinedPathWalks | src/sora/types.py:22-29 | following the joined path is following its two halves in turn, including where either fails |
| References.ResolveReferences | src/sora/references.py:258-283 | every parameter is resolved on its own and in place, the unresolved keys are exactly those that could not be, and one raising reference fails the whole call |
| References.PropertyRefIsLongestUnique | src/sora/references.py:106-147 | a property token means its longest head naming any observed property; two matches at that head make it ambiguous, none at any head absent |
| References.PropertyRefMeans | src/sora/references.py:106-147 | over all ways to split the token at a dot: absent when no head names anything, found when the longest that does names one property, ambiguous when it names more |
| References.CandidatesMean | src/sora/references.py:137-141 | a head means the properties of that full name, or if there are none those of that bare name |
| References.LatestResultMeans | src/sora/references.py:74-103 | an operation name means its most recent exact match whatever else ran, then the most recent `tool.operation`, and only for a dotted name without either its tail |
| References.ReferenceReads | src/sora/references.py:150-225 | `$decide` is left in place whatever else the reference names; then `$from`, `$bind` and `$prop` are read in that order of precedence |
| References.FoldedRouteFirst | src/sora/references.py:166-180 | the route folded into a property token is walked before the path of the reference |
| References.SplitReadsTheSame | src/sora/references.py:166-180 | a folded token with a path reads what the reference reads that is split where the property's name ends |
| References.UnresolvedMentions | src/sora/references.py:185-225 | a value reported unresolved still contains a reference |
| References.UnresolvedIffLeak | src/sora/references.py:228-283 | over sources without reference-shaped data, a value is reported unresolved if and only if the leak guard still finds a reference in it, at any depth |
| References.CallIffLeak | src/sora/_strategies/act.py:63-76 | over such sources the guard, reading the whole parameter mapping, is silent if and only if nothing was reported unresolved and the parameter names spell no reference |
| References.ReferenceNamedParameterLeaks | src/sora/_strategies/act.py:63-76 | the smallest such mapping: one parameter named like a reference resolves fully and the guard objects at the root |
| References.NoPathsIffNoMention | src/sora/references.py:228-245 | the leak guard finds nothing exactly when no reference occurs anywhere |
| References.PathsAreReferences | src/sora/references.py:228-245 | the leak guard reports exactly the places of the references, at any depth and not inside one another, by the keys and indices that lead there |
| References.ResolutionIsLocal | src/sora/references.py:185-225 | everything outside reference nodes is unchanged by resolution |
| References.ReferenceShapedDataLeaks | src/sora/references.py:185-245 | with reference-shaped data in a binding, a value resolves and the leak guard still objects |
| References.RaisesIffUnsplittable | src/sora/references.py:150-183 | resolution raises if and only if some reference with a present source has a path that is not text |
| References.NumericPathRaises | src/sora/references.py:150-183 | the input that shows it: a bound list read with path zero |
| PlanGuard.UnsatisfiableReference | src/sora/references.py:571-613 | the answer is the first step in resume order with something dead, and none exactly when no remaining step has |
| PlanGuard.StackRunsRemaining | src/sora/references.py:585-587 | the scanned steps are exactly those the frame stack goes on to run, one step at a time, an exhausted frame resuming its parent after the step that pushed it |
| PlanGuard.GuardIsExact | src/sora/references.py:571-613 | a plan passes if and only if every read of every remaining step may still find something; otherwise the first step with one that cannot is named |
| PlanGuard.StepReads | src/sora/references.py:322-366 | a step reads the bindings and operations referred to at any depth of its parameters, except in collection positions and except its loop element |
| PlanGuard.TrackedIffAlwaysEmpty | src/sora/references.py:571-613 | the scan counts a binding as empty exactly when no execution of the steps before can fill it |
| PlanGuard.LatestSurvives | src/sora/references.py:74-103 | if no step before may answer to the operation's name, its latest result is what it was, whatever those steps return |
| PlanGuard.CondemnationIsSound | src/sora/references.py:571-613 | every execution of the remaining invoke and data-op steps reaches the condemned step with the named bindings still empty, so that no reference to them yields anything at any path, or the named operation still yielding nothing at the path |
| PlanGuard.StackMeetsTheVerdict | src/sora/references.py:571-613 | run the stack for as many steps as the verdict counts, to whatever effect: the next step it comes to is the condemned one, its dead reads still dead |
| PlanGuard.HiddenOperationRevives | src/sora/references.py:564-613 | if an earlier step invokes a dotted operation the reference may mean, and nothing in the history answers to its exact name, some execution gives the condemned reference a value |
| PlanGuard.CondemnationIsExact | src/sora/references.py:571-613 | a condemned operation read yields nothing in every execution of the steps before if and only if no such operation is invoked, the exact name is already answered, or its path is not text |
| Predicates.ThreeValuedIsExact | src/sora/data_ops.py:51-153 | against a separate reading of every operator, boundary and composition: true or false exactly when every way of settling the values without an order agrees, undecidable exactly when two ways disagree |
| Predicates.OrderedMeans | src/sora/data_ops.py:57-72 | an ordered comparison is false with a side missing, has no answer exactly for values without an order, and otherwise means before, before or the same, and those with the sides exchanged |
| Predicates.CompareMeans | src/sora/data_ops.py:57-72 | numbers compare by figure, texts and lists at the first place they differ, a shorter one first; anything else, or a first difference of other kinds, has no order |
| Predicates.SidesExchange | src/sora/data_ops.py:57-72 | greater is less with the sides exchanged, and at least is at most so, undecided cases included |
| Predicates.SameTransitive | src/sora/data_ops.py:127-134 | equality of values, where truth values are figures and mappings compare whatever their order, is transitive |
| Predicates.SameSymmetric | src/sora/data_ops.py:127-134 | and symmetric |
| Predicates.OrderedPredicateDefect | src/sora/data_ops.py:161-169 | the defect is the first undecidable element, and there is none exactly when every element is decidable |
| Predicates.PassingMeansCertain | src/sora/data_ops.py:156-169 | a collection that passes is split by the filter the same way under every settlement |
| PredicateResolution.ResolutionPreservesMeaning | src/sora/data_ops.py:862-987 | resolving a predicate of any depth and evaluating the literals gives the three-valued answer of evaluating the original against the world member by member, with no operand put together beforehand |
| PredicateResolution.CollectionMeans | src/sora/data_ops.py:205-283 | a collection is a list, a mapping around one, the one list of a page beside nothing but page vocabulary, or the records of a mapping of records; a single record or a mapping of scalars is not |
| PredicateResolution.ResolvesIff | src/sora/data_ops.py:862-987 | a predicate of any depth resolves if and only if nothing in it is soft, unreadable, not a collection where one is needed, or misshapen for its operator |
| PredicateResolution.LiteralLeafOkIff | src/sora/data_ops.py:663-704 | a literal comparison resolves if and only if its value is one ordered value, or for between a list of two bounds that are there |
| PredicateResolution.ClausesOkIff | src/sora/data_ops.py:862-987 | a composition resolves exactly when each clause does |
| PredicateResolution.DefectsReachTheTop | src/sora/data_ops.py:862-987 | a defect in any clause at any depth is a defect of the whole |
| PredicateResolution.ResolvedIsComparable | src/sora/data_ops.py:663-704 | in a resolved predicate every ordered operand, at any depth, is neither null nor a list nor a mapping, and every between has two bounds |
| PredicateResolution.ResolvingTwiceIff | src/sora/data_ops.py:741-987 | over sources without reference-shaped data, resolving a resolved predicate again changes nothing if and only if no overlaps clause in it, at any depth, had an interval to compare with |
| PredicateResolution.OverlapsResolvesTwiceDifferently | src/sora/data_ops.py:741-809 | the smallest predicate that resolves to something else again: one literal interval |
| Checkpoints.Store.Completed | examples/gaia2/checkpoints.py:124-151 | a resume accepts exactly the usable attested attempts, and refuses exactly when one does not check out or two claim the same scenario run |
| Checkpoints.JudgeMeans | examples/gaia2/checkpoints.py:124-151 | an attempt without attestation is passed over; with one it is usable or not exactly when checksums and attestation cover its files, which hold one whole row and the matching record of whether that row is free of every infrastructure failure, and otherwise it is refused |
| Checkpoints.RecognisedMeans | examples/gaia2/checkpoints.py:90-113 | a capability directory is accepted when it is empty or carries this marker and nothing unknown, unless contaminated |
| Checkpoints.Store.NextAttempt | examples/gaia2/checkpoints.py:153-170 | a new attempt takes the first free directory of its slot; killed after one write it is an empty directory, after two one with its note |
| Checkpoints.Store.Execute | examples/gaia2/checkpoints.py:270-281 | a process killed after any number of writes leaves the calls logged up to there, then a result file that is empty, torn or whole; only after all of them is the run finished |
| Checkpoints.Store.FinishAttempt | examples/gaia2/checkpoints.py:172-197 | the attempt counts only from its very last write on, and as usable exactly when the row is free of every infrastructure failure; killed after one write it holds the record, after two the checksums too |
| Checkpoints.HalfAttestedIsPassedOver | examples/gaia2/checkpoints.py:183-196 | an attempt cut off between its two attestation writes is passed over, the capability can be started again and the scenario run is not done |
| Checkpoints.Store.Publish | examples/gaia2/checkpoints.py:199-230 | published rows and calls are those of the accepted attempts in manifest order; killed after one file or two it leaves exactly those beside the older ones, and no attempt is touched |
| Checkpoints.RowsComplete | examples/gaia2/checkpoints.py:199-211 | the published rows hold exactly one usable row for every manifest key, in order, if and only if every key has an accepted attempt |
| Checkpoints.OrderIsRepeatMajor | examples/gaia2/checkpoints.py:246-250 | the order runs through all cases of a repeat before the next repeat |
| Checkpoints.AttestSafe | examples/gaia2/checkpoints.py:191-196 | attesting an attempt for a run without one keeps at most one usable attempt per run and leaves everything earlier in place |
| Checkpoints.Store.RunCheckpointed | examples/gaia2/checkpoints.py:233-297 | however a run ends: earlier attempts are untouched and soundness is kept, it refuses exactly when the capability does not check out, it pays for the first of the due cases in order, for none once the pause file is up and for all when it returns, a run cut short can be started again unless the marker write was cut, and a normal return publishes and attests rows that are complete exactly when every case was done before or swept |
| Checkpoints.Store.RunOne | examples/gaia2/checkpoints.py:260-289 | a raised pause file stops the run before the case touches the disk; otherwise exactly that case is paid for |
| Checkpoints.DueHas | examples/gaia2/checkpoints.py:256-262 | the due cases are the swept ones without a usable attempt |
| Checkpoints.EvidenceIsForever | examples/gaia2/checkpoints.py:124-230 | over any sequence of killed runs no attempt is rewritten or removed and no scenario run has two usable ones |
| Checkpoints.NeverPaidAgain | examples/gaia2/checkpoints.py:260-296 | once a scenario run has a usable attempt, that attempt stays the accepted one and no later run pays for it again |
| Checkpoints.ManifestSwept | examples/gaia2/checkpoints.py:246-262 | sweeping the manifest in every repeat visits exactly the cases of the order |
| Scheduler.Launch | examples/gaia2/concurrent.py:328-334 | the loop that stops early starts the same jobs as considering every pending one in order: the satisfied ones, while workers are free and nothing stopped |
| Scheduler.LaunchKeeps | examples/gaia2/concurrent.py:328-334 | launching keeps the trace legal, loses no job, and leaves a job pending only if it is blocked, the workers are busy or the scheduler has stopped |
| Scheduler.Reap | examples/gaia2/concurrent.py:337-342 | the loop over the finished tasks takes exactly the specified step for each, in order, and raises exactly when its trace holds a crash |
| Scheduler.ReapKeeps | examples/gaia2/concurrent.py:337-342 | every reaped job holds the very status its task returned, all finished active jobs are reaped unless a task raised, and only a task that raised ends the loop |
| Scheduler.Schedule | examples/gaia2/concurrent.py:314-348 | the loop takes exactly the specified steps for every list of waits, for any jobs, workers and earlier results |
| Scheduler.LoopKeeps | examples/gaia2/concurrent.py:314-348 | those steps keep the state that of a legal trace; the loop is over only with nothing active and every pending job blocked or stopped, and the waits that brought something are bounded by the jobs |
| Scheduler.EventsAreBrought | examples/gaia2/concurrent.py:326-342 | every pause, result and crash of a run was brought by one of its waits |
| Scheduler.AtMostWorkers | examples/gaia2/concurrent.py:328-334 | at no point of a run are more than the given workers active |
| Scheduler.StartsOnce | examples/gaia2/concurrent.py:322-334 | no job starts twice |
| Scheduler.DependencyFirst | examples/gaia2/concurrent.py:331-332 | a job starts only after its dependency completed, in this run or before |
| Scheduler.NothingStartsOnceStopped | examples/gaia2/concurrent.py:327-341 | nothing starts after a pause request or a job that did not complete |
| Scheduler.NothingIsLost | examples/gaia2/concurrent.py:322-341 | every job is in exactly one place: results, pending, active, or raised |
| Scheduler.EveryJobCompletes | examples/gaia2/concurrent.py:314-348 | with acyclic dependencies, a scheduler that is over without pause, failure or crash has completed every job |
| Scheduler.CleanSweepCompletes | examples/gaia2/concurrent.py:314-348 | from the inputs: acyclic dependencies, a worker, waits that ask for no pause and bring only completed tasks, and more of them that bring something than jobs, end the loop with every job completed |
| Replan.Activity.FramesHeldByConditions | src/sora/activity.py:404-436 | the loop finds the deepest maintenance frame some live condition was declared by |
| Replan.KeptIsLongestHeld | src/sora/activity.py:473-489 | the kept frames are the longest prefix of the stack that ends in a frame pushed by a maintenance step whose whole chain some live condition names |
| Replan.HeldAgain | src/sora/activity.py:404-436 | recomputing over the kept prefix keeps all of it |
| Replan.DiscardKeepsWhatReasonHolds | src/sora/_strategies/conditions.py:453-457 | a discard never drops a frame Reason would refuse to pop, and keeps nothing beyond such a frame |
| Replan.RefusesWhenAwaited | src/sora/_strategies/conditions.py:453-457 | Reason refuses to pop exactly when the innermost frame was pushed by a maintenance step and a live condition names the whole chain to it |
| Replan.Activity.ProgressedSinceReplan | src/sora/activity.py:364-394 | progress means exactly that the set of distinct successful calls has grown since the last replan |
| Replan.Activity.ResetForReplan | src/sora/activity.py:438-540 | after any reset the stack is its held prefix, no pursued goal is deeper than it, only runtime-seeded bindings survive, and the trail is forgiven exactly on progress |
| Replan.FiredIdsSurvive | src/sora/activity.py:42 | of the bindings only the added, removed and updated ids of a fired condition survive |
| Replan.ForgivenAreNovel | src/sora/activity.py:525-537 | the replans that forgave the trail are at most the distinct calls that had succeeded by the last replan |
| Replan.TrailMustGrow | src/sora/activity.py:525-537 | with K distinct successful calls, and C clears and R replans among the events, the trail at some point reached R / (K + C + 1) |
| Replan.LongestReached | src/sora/activity.py:525-537 | the recorded maximum is a length the trail really had, and it never had a greater one |
| Meter.TouchRows | src/sora/llm.py:713-754 | re-keying a row under better labels leaves its owner exactly one row with the same figures, and every other row as it was |
| Meter.TouchTwice | src/sora/llm.py:713-762 | looking a record's row up again finds it where the first lookup left it |
| Meter.RowsTally | src/sora/llm.py:713-762 | after any stream every identity seen has exactly one row, holding exactly the sum of its own records, its first outcome and whether it was discarded |
| Meter.RowsAreWarranted | src/sora/llm.py:764-987 | there is a row for an owner exactly when some record did its work, discarded or settled its named inference, or repaired its reply |
| Meter.RowsRemember | src/sora/llm.py:942-964 | a row keeps the first of the three outcomes reported for its owner against every later one, and is discarded once any record says so |
| Meter.OneRowPerCall | src/sora/llm.py:713-754 | all records of one call are in its one row, whatever inferences they name |
| Meter.ThinkingMeans | src/sora/llm.py:240-251 | the provider's figure counts whenever it gives one; otherwise thinking and the estimated answer make up the output, and thinking is never negative |
| Meter.TotalsAreConserved | src/sora/llm.py:764-952 | run totals equal the sums over rows plus what no row can own |
| Meter.OnlyRepairsAreUnattributed | src/sora/llm.py:966-987 | calls, latency and tokens always have a row; only parser repairs can lack one |
| Meter.InputIsCovered | src/sora/llm.py:830-836 | total input is cache-observed plus cache-unknown input, in total and for every owner |
| Meter.WastedAfter | src/sora/llm.py:942-952 | a discard moves exactly what is still open for its inference into the buckets |
| Meter.WasteIsPartOfTotal | src/sora/llm.py:942-952 | wasted and kept split the totals, so waste never exceeds them and no partial counts twice |
| Meter.LLMMeter.Emit | src/sora/llm.py:764-987 | after each record the totals, rows, wasted buckets and partials are exactly those of the stream read |

## Left out

- Floating-point rounding: ticks are exact integers.
- Real threads below the granularity of a lock, ARE's base environment and time manager, and what a tick dispatches.
- `ClockedSoraLLMClient` beyond `complete`, and the token aggregation of `SoraCallRecorder`.
- What others do between a call's record and its resume; those two are one step.
- The start of the world by ARE's base class, beyond the state it leaves.
- Message texts of defects and of the plan guard, including the attribution to a root empty producer.
- Tuples, floats, Unicode digits and the rendering of a reference token that is a list or an object.
- Key paths in predicates that are not text: the source raises, the model reads nothing.
- Collecting sources, flattening and the other data operations around the filter.
- A task that records a property value with no update open, which the caller never does.
- PlanGuard.CondemnationIsSound: ranges over remaining steps that are invokes or data-ops, because a sub-goal step can write bindings the scan does not see.
- Temporary siblings of atomically replaced files, except the marker's, and files a scenario writes beside its row and call log.
- The row a scenario returns carries the key it was run under, as examples/gaia2/batch.py:571-610 writes it.
- The concurrent writers of other workers: they only raise the pause file.
- The scheduler's status callback and the cancellation of the tasks still active when a task raised.
- Scheduler.LoopKeeps: job keys are distinct, as the launch plan makes them; `Schedule` itself takes any jobs.
- The judgement flags `fail_condition_evaluation` sets on conditions, and runtime events.
- Prompt hashes, finish reasons, observed models and the answer-character total of the meter.
- Meter.RowsTally: the labels a row ends up with are not stated, only whose row it is and what it holds.
