# A model of cwl-go

These Dafny modules model the parts of cwl-go, a CWL v1.2 engine, whose behaviour is hardest to see from
the code, and prove what they promise. Check everything with `dafny verify dfyconfig.toml`.

**Running a workflow.** `Workflow` builds a plan: steps, the sources that feed them, and the dependency edges
these give; `Graph` is its cycle check. `Meaning` says what a run means without any scheduling: each step is
judged from the judgements of the steps it depends on. `RunLoop` is the scheduler, one object whose methods
start ready steps, launch invocations up to the parallelism cap, fold in completions in an arbitrary order,
stop on a failure, suspend, and resume from a snapshot. Its invariants tie every record to the meaning, so every
schedule ends in the same state. `Outcomes` and `Dataflow` say what those records are made of, step by step and
source by source, without the functions the scheduler is proved against, and `Passing` follows a value through a
whole run. `Runner` joins planning to running. `Dispatch` drives the same state from outside. `RunState`, `Stability`,
`Injecting`, `Answering`, `Reporting`, `Schedules` and `Resuming` hold the facts these share and the theorems about whole
runs, `Tuning`, `Stalling` and `Stopping` what a caller-driven run can do that one would not expect.

**Scatter and gather.** `Grid` is the odometer and the row-major offset, `Nesting` the nested arrays, `Scatter`
the expansion of a step into sub-jobs and the gathering of their outputs. `Arith` holds the multiplication facts.

**Schema Salad.** `Subtype` is the coinductive subtype check over cyclic types, `SubtypeOrder` how far it is an
order, `SubtypeValues` what it means for values. `FieldLists` and `Flatten` apply `extends`, and `Inheriting` says
what a record then holds. `Decimals` holds exact decimal numbers. `Strings` has the text helpers these use.

**Expressions and text.** `Scanner` and `Interpolate` find and replace `$(...)` and `${...}`. `Shell` renders a command
line, `Json` a value; each is read back by an independent reader, one for section 2.2 of the POSIX.1-2017
Shell Command Language and one for sections 4 to 7 of RFC 8259.

**Requirements and types.** `Requirements` is the scope of requirements and hints and its collapse for a nested run,
`SchemaDef` the expansion of named types.

Some results say where the code falls short of what a reader would expect:

- The caller-driven loop makes one start pass for each batch. It reaches the final state when the plan is in
  topological order (`Dispatch.DispatchLoop.RunToEnd`), and for any other plan it can end early (`Stalling.StallsOutOfOrder`).
- `Dispatch.DispatchLoop.Pending` reads the stop flag only for its start pass. A stopped loop still hands out
  invocations exactly when there is capacity and a pending one that can be called. `Stopping.HandsOutStopped`
  reaches such a state: of every plan in dependency order with two steps that depend on nothing it takes the
  version whose steps all run and fail, with a cap of one and stopping on errors.
- `Scatter.Gather` on a hand-built plan without dimensions but with jobs indexes out of range
  (`Scatter.UnshapedJobPanics`), which the Go program turns into a panic; the model has this as an error of its
  own. No plan of `ExpandScatter` is like that.
- The 64-bit guard against huge exponents wraps. `Decimals.ParsesExactly` says which literals are accepted,
  `Decimals.ParsedIs` which of those are within the bound, and `Decimals.GuardWraps` gives one literal of each
  of the three kinds that slip past.
- `Decimals.ReparsePrints`: a zero with a positive exponent prints padding that its own text, parsed again,
  does not (`Decimals.PaddedZero`).
- `SubtypeOrder.TransitiveExactly`: subtyping is not transitive where a record without an optional field lies
  between one that has the field at another type and one that wants it (`SubtypeOrder.OptionalFieldLost`).
- `SubtypeValues.SubtypeSound`: a subtype's values are its supertype's unless a record omits an optional field of a
  wider one; then they need not be (`SubtypeValues.OmittedIsUnsound`).
- `Interpolate.EscapedContent`: evaluating an escaped text gives the text back exactly when it has an opening or no
  backslash, because text without an opening is returned untouched.

## Model

| member | source | states |
|---|---|---|
| RunLoop.Run | pkg/cwlexec/scheduler.go:129-131 | every schedule of a run that is not cancelled and need not stop ends with each step recorded, and the result reported, as the dependency graph alone determines. In every case each started step's record is what the step comes to on inputs read from the records of the steps its sources name, a success's outputs are what the output sources read, and a suspension lists the suspended invocations in plan order; a recorded failure is reported as the worst one, else a suspension, else the outputs or the error of the first output without a value; no invocation is launched twice |
| Runner.RunWorkflow | pkg/cwlexec/scheduler.go:84-131 | a workflow is planned and run exactly when its step ids differ, its sources are known and no step reads itself through others; the run is then that of a ranked plan, and ends as its meaning unless cancelled or stopped by a failure, which it reports |
| Runner.RunProcess | pkg/cwlexec/scheduler.go:84-131 | a lone process can always be planned and runs as its one-step plan means |
| RunLoop.Resume | pkg/cwlexec/scheduler.go:134-152 | a batch is accepted exactly when the version fits, every outcome is acceptable in the snapshot and no two answer one invocation. After an accepted one the record at each outcome's address has the outcome's status and, of a success, the value supplied for each declared port and no other port; every other suspended invocation stays suspended, every record follows from the others with exactly these outcomes added, and the run ends and reports as one that has them. A refused batch gives the error of its first refused outcome, and the returned state is right for the outcomes before it; a state mismatch is never reported |
| RunLoop.Drive | pkg/cwlexec/loop.go:53-68 | executing keeps every finished record; a run that is not cut short reports its final state, a recorded failure is reported as the worst one, else a suspended invocation, else the outputs the records give or the error of the first output that has none |
| RunLoop.Loop.Execute | pkg/cwlexec/loop.go:71-87 | whichever completion arrives next, the loop ends; when it ends unstopped every step's record matches its verdict, and it stops only if the meaning of the run has a failure |
| RunLoop.Loop.Dispatch | pkg/cwlexec/loop.go:90-99 | repeats to a fixpoint: no unstarted step is ready and, with capacity left, nothing is pending; it ends because unstarted steps, then pending invocations, shrink |
| RunLoop.Loop.StartReadySteps | pkg/cwlexec/loop.go:102-121 | a pass entered while stopped starts nothing and changes nothing; each step it starts is as starting leaves it; in topological order one pass leaves no step ready; a step listed before an unstarted dependency stays unstarted; nothing recorded changes |
| RunLoop.Loop.StartStep | pkg/cwlexec/loop.go:140-167 | the step is started once: failed for good exactly if its inputs do not resolve, expand or pass the gate, else with one invocation a seed, skipped where `when` declines, and open exactly if some invocation is admitted; the stop flag rises exactly on a failure that is not continued over |
| RunLoop.GateJobs | pkg/cwlexec/loop.go:181-210 | each pending invocation ends admitted with its gated inputs or recorded as skipped, recorded ones are untouched, and it fails exactly when some gate refuses |
| RunLoop.Loop.LaunchPending | pkg/cwlexec/loop.go:213-232 | a pass entered while stopped launches nothing; with capacity left and nothing launched, nothing is pending |
| RunLoop.Loop.LaunchStep | pkg/cwlexec/loop.go:235-253 | launches a step's pending invocations up to the cap and reports whether to go on |
| RunLoop.Loop.Launch | pkg/cwlexec/loop.go:261-290 | one pending invocation is launched and never pending again: it goes out, one not in flight before, exactly when its call can be built |
| RunLoop.Loop.Record | pkg/cwlexec/loop.go:293-313 | folding one outcome in changes that step's record only, overwrites no recorded outcome, keeps every record right, and raises the stop flag exactly when the step thereby fails and failures are not continued over |
| RunLoop.Loop.Finish | pkg/cwlexec/loop.go:78-85 | an arbitrary in-flight invocation reports: `running` falls by one, only its step's record changes, its outcome is recorded, nothing new is pending, and the loop stops exactly when the step thereby fails and failures are not continued over |
| RunLoop.Loop.FinishIfComplete | pkg/cwlexec/loop.go:316-339 | a step with all invocations final is finished with its verdict, any other is untouched; a failure stops the run exactly when errors are not to be continued over |
| RunLoop.Loop.JobsOutcome | pkg/cwlexec/loop.go:342-367 | a permanent failure outranks a temporary one, and an unscattered skipped step is skipped |
| RunLoop.Loop.StepInputObject | pkg/cwlexec/loop.go:397-407 | each input is what its sink settles its readings to, a reading being the port of a step that has produced or the run's own input, in the order of the sources; the last sink of a name counts; a reading that is missing or the first sink that fails is the error; an implicit step has the run's inputs with null ones defaulted |
| RunLoop.Loop.GatherStep | pkg/cwlexec/loop.go:453-478 | gathering a finished step never fails, and each port is its invocations' values nested by the scatter shape |
| RunLoop.Loop.Outcome | pkg/cwlexec/result.go:21-62 | an error with the worst failing status once a step has failed, else suspended with the suspended invocations listed, else a success with what the output sources read or the error of the first output without a value; in a final state this is what the verdicts say |
| RunLoop.Loop.FailureStatus | pkg/cwlexec/result.go:43-62 | the worst status among failed steps, and none when no step failed |
| RunLoop.Loop.Suspensions | pkg/cwlexec/result.go:75-90 | the suspensions of all waiting invocations, in plan order |
| RunLoop.Loop.ReadOutputs | pkg/cwlexec/result.go:93-113 | each output is what its sink settles its readings to, null without sources, the last sink of a name counting; or the error of the first sink that gives one |
| RunLoop.Loop.Inject | pkg/cwlexec/result.go:117-126 | the error is that of the first outcome refused and exactly the outcomes before it are recorded, each as supplied; there is none exactly when every outcome is acceptable in the snapshot and no two answer one invocation |
| RunLoop.Loop.InjectOne | pkg/cwlexec/result.go:129-155 | accepted exactly when a suspended invocation is addressed, the status is usable and a success's outputs fit, and each error exactly when its condition holds first; an accepted outcome is recorded at its address and nowhere else with its own status and the values supplied for the declared ports, a refused one changes nothing |
| RunLoop.Loop.FindSuspended | pkg/cwlexec/result.go:158-175 | finds the suspended invocation at the given coordinates, or shows there is none |
| RunLoop.Loop.RehydrateSteps | pkg/cwlexec/result.go:178-194 | from a right snapshot all in-memory invariants hold again, without changing a finished record |
| RunLoop.Loop.Restart | pkg/cwlexec/result.go:197-220 | re-expansion against the same plan always matches the recorded shape and no gate refuses again |
| RunLoop.Loop.InEveryState | pkg/cwlexec/loop.go:90-339 | in every state of either driver the invocations out are exactly those dispatched and not yet recorded, `running` counts them within the cap, none is launched twice, a started step stands on produced dependencies, and its record follows from theirs |
| Dataflow.SnapFollows | pkg/cwlexec/loop.go:397-478 | in every right snapshot a started step's record is what the step comes to, or so far leaves, on inputs that follow from the other records |
| Dataflow.StepInputsFollow | pkg/cwlexec/loop.go:397-426 | a step's inputs are bound from readings: of the run's inputs, or of the named port of the step a source names once it has produced |
| Dataflow.RunOutputsFollow | pkg/cwlexec/result.go:93-113 | each run output is what its sink's readings settle to, null without sources |
| Dataflow.StepsListed | pkg/cwlexec/result.go:75-90 | one suspension for each suspended invocation and no other, by plan order and then by invocation |
| Outcomes.JudgeComes | pkg/cwlexec/loop.go:140-367 | a step comes to a failure if its inputs, expansion or gates fail, and else to what its invocations leave combined: waiting, the worst failure, or each port collected by coordinates |
| Outcomes.SettledLeaves | pkg/cwlexec/loop.go:181-313 | an invocation sees what `valueFrom` makes of its seed, is skipped with null ports if `when` declines, fails if its call cannot be built, and else leaves its handler's reply on the declared inputs, read by the reply rules, or the outcome accepted for it |
| Passing.RunPasses | pkg/cwlexec/scheduler.go:129-131 | a run of steps that hand on what they are given succeeds, whatever the cap and order, and each output is the run input that any chain of sources leading to it begins with |
| Passing.ChainReads | pkg/cwlexec/loop.go:397-426 | along such a chain every source reads the value entered at its beginning |
| RunLoop.IterationShrinks | pkg/cwlexec/loop.go:90-99 | one round of starting and launching lowers (unstarted steps, pending invocations) |
| Dispatch.DispatchLoop.Pending | pkg/cwlexec/dispatch.go:35-49 | one start pass, then every pending invocation up to the cap, in document order and under fresh ids; in topological order nothing is left ready; a loop stopped on entry hands something out exactly when there was capacity and a pending invocation whose call can be built |
| Dispatch.DispatchLoop.CollectStep | pkg/cwlexec/dispatch.go:87-118 | a step's pending invocations are handed out in order under consecutive ids, whatever the stop flag says; some exactly when there is capacity and one of them can be called; with capacity left none stays pending |
| Dispatch.DispatchLoop.CollectAll | pkg/cwlexec/dispatch.go:35-49 | the pass over the plan: something is handed out exactly when there is capacity and some pending invocation can be called, and the stop flag plays no part |
| Dispatch.DispatchLoop.Hand | pkg/cwlexec/dispatch.go:87-118 | an invocation whose call can be built goes out, one that was not in flight before; any other is recorded as failed, and every other invocation stays callable |
| Dispatch.DispatchLoop.Complete | pkg/cwlexec/dispatch.go:53-55 | folds in the reply of any handed-out invocation, exactly as the loop's own completion does, and stops the loop exactly when the step fails and failures are not continued over |
| Dispatch.DispatchLoop.RunToEnd | pkg/cwlexec/dispatch.go:35-55 | driven to the end from outside, a plan in topological order that is not stopped ends with every step recorded as its verdict |
| Stalling.StallsOutOfOrder | pkg/cwlexec/dispatch.go:35-49 | for every plan that lists a step before one it depends on, some behaviour of its steps makes the caller-driven loop end at once with a step unstarted that should have run |
| Stopping.HandsOutStopped | pkg/cwlexec/dispatch.go:35-49 | of every plan in dependency order with two steps that depend on nothing, a version with the same ids and edges, run with a cap of one, stops on the first step's failure and, asked again, hands out more work |
| Stopping.StopsWithWorkLeft | pkg/cwlexec/dispatch.go:35-55 | asking once and completing what was handed out leaves that loop stopped, with capacity and an invocation that can be called |
| Schedules.SchedulesAgree | pkg/cwlexec/loop.go:71-367 | any two final states of a plan, whatever order and parallelism produced them, agree on start, status and outputs of every step |
| Schedules.RankIrrelevant | pkg/cwlexec/plan.go:293-333 | the meaning of a step does not depend on which acyclicity witness is used |
| Schedules.ReportsAgree | pkg/cwlexec/result.go:21-40 | two reports of one plan agree on status, error, the outputs of a success and the list of suspensions in plan order |
| Schedules.ResumedAgrees | pkg/cwlexec/result.go:115-220 | a run resumed with suspended invocations' outcomes ends with the records of any run whose handlers answer with them at once, port by port |
| Schedules.ResumedReports | pkg/cwlexec/result.go:21-40 | and it reports the same status, the same outputs and the same list of suspensions |
| Resuming.AnyBatchesAgree | pkg/cwlexec/scheduler.go:129-152 | a run that suspends, resumed with one batch, resumed with the same outcomes reordered and split over several calls, and run anew with handlers that, where they would suspend, return the supplied status and outputs themselves: if the one batch is acceptable so are the several, and all three end with the same steps and report, under any completion order and caps |
| Resuming.ResumeInTurn | pkg/cwlexec/scheduler.go:134-152 | resuming batch after batch on the state each call returned accepts whatever the joined batch would, and ends as the meaning of the run with all outcomes added |
| Schedules.NoLostWork | pkg/cwlexec/loop.go:71-132 | in a final state each step has its outcome, or waits with all invocations done or suspended and at least one suspended, or never started because an ancestor failed or waits |
| Schedules.AllWorkDone | pkg/cwlexec/result.go:93-113 | without failure or suspension every step has produced and every output's sources are available |
| RunState.QuietIsFinal | pkg/cwlexec/loop.go:90-132 | a right snapshot with nothing ready and nothing outstanding is the final state, so no order of work can lose any |
| RunState.TerminalDecides | pkg/cwlexec/loop.go:316-339 | once its invocations are final, a record determines its verdict |
| RunState.GroundedInputs | pkg/cwlexec/loop.go:397-426 | inputs read from the records of finished dependencies are the inputs the step is judged on |
| Stability.VerdictStable | pkg/cwlexec/result.go:129-155 | accepting more outcomes never changes a verdict already reached, nor the inputs of a step that has some |
| Stability.BlockedHasCause | pkg/cwlexec/loop.go:124-137 | a blocked step has a walk along dependencies to one that failed or waits |
| Stability.AllProduce | pkg/cwlexec/loop.go:124-137 | with no failure and nothing waiting, every step produces |
| Stability.SourcesAvailable | pkg/cwlexec/result.go:93-113 | once every step has produced, no sink meets an unfinished source |
| Injecting.InjectKeepsSnap | pkg/cwlexec/result.go:129-155 | recording an accepted outcome keeps every record right for the outcomes accepted so far and it, and its address was new |
| Injecting.AnsweredIsNotSuspended | pkg/cwlexec/result.go:158-175 | an address already answered names no suspended invocation, so a second outcome for it is refused |
| Injecting.OrderIrrelevant | pkg/cwlexec/result.go:117-126 | a permuted batch is accepted exactly when the batch is, and records the same outcomes |
| Injecting.PartsAccepted | pkg/cwlexec/result.go:117-126 | a joined batch that is accepted is accepted in two parts, the second on any later snapshot that kept its invocations suspended |
| Injecting.FirstRefusedIs | pkg/cwlexec/result.go:117-126 | a batch has no refused outcome exactly when each is acceptable and no two share an address; otherwise the one found is refused and all before it are not |
| Injecting.AcceptedIsRecorded | pkg/cwlexec/result.go:129-155 | what is recorded has the status supplied, of a success exactly the declared ports with the values supplied or null, of a skip null on each, and no suspension |
| Injecting.RefusalHasCause | pkg/cwlexec/result.go:129-175 | each refusal exactly for its cause: nothing suspended there, a status that is not final, or a success with an undeclared name or a value its port does not accept |
| Injecting.HoldsLater | pkg/cwlexec/result.go:115-220 | whatever a run records later, an accepted outcome stays recorded |
| Answering.AnsweredDirectly | pkg/cwlexec/result.go:115-220 | each step's verdict with accepted outcomes is its verdict in any plan whose handlers answer with them at once |
| Reporting.FinalWaiting | pkg/cwlexec/result.go:75-90 | in a final state a suspension is reported exactly when some step waits |
| Reporting.FinalSuspensions | pkg/cwlexec/result.go:75-90 | the suspensions read from a final state are those the meaning of the run gives, in plan order |
| Reporting.FinalOutputs | pkg/cwlexec/result.go:93-113 | with no failure and nothing waiting, outputs never meet an unfinished step |
| Reporting.FinalProduced | pkg/cwlexec/result.go:93-113 | the produced outputs of a final state are those the verdicts give |
| Workflow.NewPlan | pkg/cwlexec/plan.go:80-119 | succeeds with a well-formed, ranked plan that reads each identifier as the port declaring it last, of the run or of a step, or fails with each error exactly when its condition holds: repeated ids, an unknown source, or a cycle of reads |
| Workflow.SourceTableIs | pkg/cwlexec/plan.go:191-214 | the source table has every declared identifier and reads each as the step and port that declare it last |
| Workflow.BarePlan | pkg/cwlexec/plan.go:122-178 | a lone process gives a well-formed one-step plan whose outputs are wired to its ports |
| Workflow.Planner.AddSteps | pkg/cwlexec/plan.go:191-214 | fails exactly on a repeated step id, and otherwise holds the steps in order |
| Workflow.Planner.ResolveEdges | pkg/cwlexec/plan.go:246-265 | fails exactly on a source no one provides |
| Workflow.Planner.StepDeps | pkg/cwlexec/plan.go:268-290 | a step's dependencies are exactly the steps its sources name, each once |
| Graph.CheckAcyclic | pkg/cwlexec/plan.go:293-333 | true exactly when some rank falls along every dependency; it yields such a rank, or a real cycle |
| Graph.Visitor.Visit | pkg/cwlexec/plan.go:293-333 | a visit marks the node done and keeps the marks of others, or ends on a real cycle |
| Graph.CycleHasNoRanking | pkg/cwlexec/plan.go:293-333 | a graph with a cycle has no rank |
| Scatter.ExpandScatter | pkg/cwlexec/scatter.go:79-116 | job k of a dot product sees element k of every scattered array, and of a cross product the elements at coordinate k of the grid of lengths; all other inputs are unchanged and none is added; an empty array gives no job and the shape cut at it. Each refusal has its cause: the method, the first bad key, then unequal lengths |
| Scatter.ExpansionSucceeds | pkg/cwlexec/scatter.go:79-116 | succeeds exactly for a known method, at least one key, distinct keys bound to arrays and, for a dot product, equal lengths or one empty array |
| Scatter.ExpansionIsRowMajor | pkg/cwlexec/scatter.go:118-125 | every plan, empty ones too, has one job per place of its shape, at its row-major coordinates, zero only innermost |
| Scatter.RowMajorIndexesDiffer | pkg/cwlexec/scatter.go:257-281 | no two jobs share coordinates |
| Scatter.RowMajorGathers | pkg/cwlexec/scatter.go:128-203 | every plan of ExpandScatter passes all of Gather's checks, and each leaf is written once with its own job's value |
| Scatter.GatherReachesJob | pkg/cwlexec/scatter.go:153-162 | following job i's coordinates through the gathered value reaches job i's port value |
| Scatter.UnshapedJobPanics | pkg/cwlexec/scatter.go:153-162 | a plan of one job without dimensions passes every check and then indexes out of range |
| Scatter.NestedFlattensToFlat | pkg/cwlexec/scatter.go:257-281 | without empty arrays the nested product runs the flat product's jobs in order, and its gathered value flattened is the flat one's |
| Scatter.JobInputsSelect | pkg/cwlexec/scatter.go:314-323 | a scattered key holds the element its coordinate selects |
| Scatter.JobInputsPassThrough | pkg/cwlexec/scatter.go:314-323 | every other input passes through |
| Scatter.ExpansionGivesElements | pkg/cwlexec/scatter.go:79-116 | every plan gives its jobs the elements the scatter method says, key by key, and passes all else through |
| Scatter.ExpansionRefuses | pkg/cwlexec/scatter.go:79-116 | every refusal is for the first cause there is, in the order method, keys, lengths |
| Scatter.DotproductRoundTrip | pkg/cwlexec/scatter.go:128-255 | sub-jobs that return their inputs, gathered again, give each scattered array back |
| Scatter.LastJobStands | pkg/cwlexec/scatter.go:153-162 | a slot that several jobs of a hand-built plan address holds the last one's value, and one that none addresses null |
| Scatter.Gather | pkg/cwlexec/scatter.go:128-150 | fails on the first failing check; otherwise each declared port, and no other, is lists of the shape's lengths holding at each coordinate what the last job there reported, or null |
| Scatter.GatherRefusesFor | pkg/cwlexec/scatter.go:128-203 | each refusal exactly for its cause, in this order: outputs of a job that is not there, a negative or outer zero length, a job with too few or too many coordinates or one out of bounds |
| Scatter.GatheredIs | pkg/cwlexec/scatter.go:153-162 | the gathered value of a port, coordinate by coordinate, for any plan that passes the checks |
| Scatter.GatherPort | pkg/cwlexec/scatter.go:153-162 | the port's values in row-major slots, folded by the shape |
| Scatter.ValidateShape | pkg/cwlexec/scatter.go:165-174 | accepts exactly non-negative lengths with zero only innermost |
| Scatter.ValidateCoordinates | pkg/cwlexec/scatter.go:188-203 | accepts exactly jobs whose coordinates are in bounds |
| Scatter.ScatterArrays | pkg/cwlexec/scatter.go:285-310 | the arrays of the keys, or the first key's problem |
| Scatter.PairUp | pkg/cwlexec/scatter.go:234-255 | job k has element k of every array, and arrays of different lengths are refused |
| Scatter.Cross | pkg/cwlexec/scatter.go:257-281 | one job per grid place with the inputs its coordinates select |
| Grid.Coordinates | pkg/cwlexec/scatter.go:338-353 | the odometer lists the whole grid in rank order |
| Grid.Advance | pkg/cwlexec/scatter.go:357-367 | in place, the odometer moves to its successor |
| Grid.BumpRank | pkg/cwlexec/scatter.go:357-367 | the successor is in bounds and one rank further, or wraps to all zeros at the end |
| Grid.GridIsInverse | pkg/cwlexec/scatter.go:338-393 | grid[i] is the unique in-bounds coordinate of offset i, and the grid has as many places as the product of its dimensions |
| Grid.LinearOffset | pkg/cwlexec/scatter.go:386-393 | the loop computes the row-major rank |
| Grid.OffsetInjective | pkg/cwlexec/scatter.go:386-393 | different in-bounds coordinates have different ranks |
| Nesting.Nest | pkg/cwlexec/scatter.go:401-420 | folding from the innermost level gives the nested value, for any depth and an empty innermost dimension |
| Nesting.FollowReachesLeaf | pkg/cwlexec/scatter.go:401-420 | following in-bounds coordinates through a nested value reaches the slot of their rank |
| Nesting.FlattenUndoesNesting | pkg/cwlexec/scatter.go:401-420 | flattening a nested value gives the slots back, each once |
| Nesting.NestedFromInside | pkg/cwlexec/scatter.go:401-420 | grouping the innermost dimension first gives the same nesting as splitting the outermost |
| Subtype.IsSubtype | pkg/salad/subtype.go:16-20 | true exactly when the pair is in the greatest fixed point of the one-step rule, cyclic types included |
| Subtype.Checker.Check | pkg/salad/subtype.go:23-41 | true exactly when the pair is assumed or derivable from the pairs on the stack; the stack is left as it was; pairs off the stack shrink |
| Subtype.Checker.Compare | pkg/salad/subtype.go:44-58 | one step of the rule over the pairs the stack allows |
| Subtype.Checker.CompareKinds | pkg/salad/subtype.go:61-78 | two concrete types compared by kind over the pairs the stack allows |
| Subtype.Checker.CompareDeclared | pkg/salad/subtype.go:81-98 | two named types compared as enums or as records |
| Subtype.Checker.EnumNarrows | pkg/salad/subtype.go:125-137 | same name, or every symbol present by name or short name |
| Subtype.Checker.RecordNarrows | pkg/salad/subtype.go:140-150 | same name, an extends chain, or field by field |
| Subtype.Checker.FieldsNarrow | pkg/salad/subtype.go:153-170 | true exactly when each wanted field is supplied at a narrowing type, or is absent and may be null |
| Subtype.Checker.ExtendsTransitively | pkg/salad/subtype.go:173-201 | true exactly when a chain of declared bases leads to the name; the walk ends on cyclic extends |
| Subtype.Accumulate | pkg/salad/subtype.go:32-40 | assuming a pair while deriving it proves nothing more and nothing less, for any assumptions |
| Subtype.FieldNamedIs | pkg/salad/types.go:265-284 | the first field of exactly that name, or failing any such the first of its short name; none only if neither occurs |
| Subtype.IsGreatestFixedPoint | pkg/salad/subtype.go:44-58 | the relation is a fixed point of the rule and contains every consistent set |
| SubtypeOrder.ReflexiveExactly | pkg/salad/subtype.go:23-30 | a reference is a subtype of itself exactly if it leads somewhere |
| SubtypeOrder.TransitiveExactly | pkg/salad/subtype.go:44-170 | in a plain graph subtyping is transitive exactly if, wherever a record lies between two others, what it lacks of the wider one's fields the narrower one lacks too or has at a narrower type |
| SubtypeOrder.OptionalFieldLost | pkg/salad/subtype.go:153-170 | a plain graph of three records where it is not: an integer x is under no field at all, which is under x optional text, but not under that itself |
| SubtypeOrder.LoopingUnion | pkg/salad/subtype.go:44-58 | a union whose one option is itself is below everything and above everything that is no union |
| Subtype.ExtendsExactly | pkg/salad/subtype.go:173-201 | the names a record extends are the least set with its bases and whatever any of them declares |
| SubtypeValues.SubtypeSound | pkg/salad/subtype.go:44-170 | above a type that admits a value is only what admits it, records and cyclic types included, where no subtype of a record omits one of its fields |
| SubtypeValues.OmittedIsUnsound | pkg/salad/subtype.go:153-170 | where one does, a value of the narrower record need not be one of the wider |
| SubtypeValues.WithoutRecords | pkg/salad/subtype.go:44-98 | in a graph without records nothing can be omitted |
| SubtypeValues.ArraysCompare | pkg/salad/subtype.go:61-78 | arrays and maps compare exactly as their items and values do |
| SubtypeValues.UnionsCompare | pkg/salad/subtype.go:44-58 | a union is below exactly what all its options are below, and anything else is below a union exactly through one of its options |
| SubtypeValues.AnyCompares | pkg/salad/subtype.go:217-230 | Any is above exactly what is neither null, nor a union with null in it, nor a union of nothing |
| SubtypeValues.EnumsCompare | pkg/salad/subtype.go:125-137 | enums compare exactly by name or by the short names of all symbols |
| SubtypeValues.RecordsCompare | pkg/salad/subtype.go:140-170 | records compare exactly by name, by an extends chain, or field by field, where a missing field must be one that may be null |
| SubtypeValues.KindsApart | pkg/salad/subtype.go:61-98 | concrete types of different kinds are unrelated |
| SubtypeValues.PrimitivesCompare | pkg/salad/subtype.go:61-78 | primitives other than Any compare exactly by kind |
| SubtypeValues.NullIsMissing | pkg/salad/validate_record.go:74-83 | null is a value of exactly the null type and the unions that have it |
| Strings.ShortNameIs | pkg/salad/types.go:360-380 | a short name is the last segment of what follows the first hash, or of what precedes it if nothing follows, or of the whole without one |
| Scanner.ScanFragment | pkg/cwlcore/expression_scan.go:55-68 | the automaton's answer is the one the grammar means, and it always ends, on (characters left, a dollar on top) |
| Scanner.ScanMeaning | pkg/cwlcore/expression_scan.go:55-203 | the leftmost escape or fragment is found; a fragment is well formed, runs to its matching close with delimiters counted only outside quotes, and no other well-formed fragment starts there; an error exactly when the leftmost opening never closes |
| Scanner.ThroughItems | pkg/cwlcore/expression_scan.go:152-189 | a well-formed body is read over at any depth without closing it |
| Scanner.ReadIsItems | pkg/cwlcore/expression_scan.go:152-189 | whatever is read until the depth falls is a well-formed body and a closing delimiter |
| Scanner.QuoteIsBody | pkg/cwlcore/expression_scan.go:176-189 | whatever is read until a quote closes is a quoted literal's body |
| Scanner.OnlyOutcome | pkg/cwlcore/expression_scan.go:55-203 | no other answer has the meaning of the scan |
| Scanner.QuotesHide | pkg/cwlcore/expression_scan.go:176-189 | between two quotes of one kind no delimiter closes a fragment |
| Scanner.BackslashHides | pkg/cwlcore/expression_scan.go:113-126 | within quotes a backslash hides whatever follows it, the quote too |
| Scanner.GroupsNest | pkg/cwlcore/expression_scan.go:152-173 | groups of the fragment's own kind nest, and any other character is passed over |
| Scanner.ExprScanner.Step | pkg/cwlcore/expression_scan.go:71-92 | a step either reports what lies ahead or leaves it unchanged, keeping the stack in one of its fixed shapes |
| Scanner.ExprScanner.StepGroup | pkg/cwlcore/expression_scan.go:152-173 | reports exactly when the matching close returns to the dollar |
| Interpolate.Run | pkg/cwlcore/expression.go:274-313 | the value of the one fragment a text is; else the text with each escape undone and each fragment replaced by its value, cut where the grammar cuts it, or the first fragment's failure, or a syntax error if an opening never closes |
| Interpolate.Lossless | pkg/cwlcore/expression.go:274-313 | literals, escapes and fragments concatenate back to the source |
| Interpolate.PiecesAreGood | pkg/cwlcore/expression.go:274-313 | each fragment piece is a well-formed fragment, each escape piece one escape, and no literal, nor the tail, holds an escape or a fragment |
| Interpolate.MeaningGives | pkg/cwlcore/expression.go:274-313 | what a text means is given by its pieces, each become what it becomes |
| Interpolate.OnlyCuts | pkg/cwlcore/expression.go:274-313 | a text is cut into pieces in one way only |
| Interpolate.TypedOnlyWhenWhole | pkg/cwlcore/expression.go:348-350 | a value that is not text is returned only when one fragment is the whole string, and is that fragment's value |
| Interpolate.EscapedRoundTrip | pkg/cwlcore/expression.go:353-364 | interpolating a text whose backslashes and openings were escaped gives the text back, whatever the evaluator does |
| Interpolate.EscapedContent | pkg/cwlcore/expression.go:196-211 | evaluation undoes escaping exactly when the text needs parsing or has no backslash |
| Interpolate.EscapedNeedsParsing | pkg/cwlcore/expression.go:125-127 | escaping neither makes nor hides an opening |
| Shell.ShellCommand | pkg/cwlexec/clt_cmdline.go:51-65 | with every argument quoted, a shell reads the string back as exactly the argument vector; an unquoted argument goes in verbatim |
| Shell.Argv | pkg/cwlexec/clt_cmdline.go:41-48 | the argument values in order |
| Shell.ShellReadsArgv | pkg/cwlexec/clt_cmdline.go:51-65 | with every argument quoted, the words a shell reads in the command string are exactly the argument vector, empty arguments and embedded quotes included |
| Shell.ReadsEachArg | pkg/cwlexec/clt_cmdline.go:51-65 | with unquoted arguments that are words of their own, a shell reads each argument as it would alone, so none changes another |
| Shell.QuoteReads | pkg/cwlexec/clt_cmdline.go:124-134 | a quoted text reads as exactly that one word |
| Shell.BareExactly | pkg/cwlexec/clt_cmdline.go:124-140 | a text is left unquoted exactly if it is not empty and has letters, digits and ten harmless marks only |
| Shell.ShellTextDetermines | pkg/cwlexec/clt_cmdline.go:51-65 | two fully quoted commands with one text have the same arguments |
| Json.EncodeJSON | pkg/cwlcore/expression_json.go:38-40 | reading the text gives the value back, and the text does not depend on the order in which an object's map is walked |
| Json.AppendObject | pkg/cwlcore/expression_json.go:142-163 | an object's members in key order, appended to what was there |
| Json.ReadsBack | pkg/cwlcore/expression_json.go:38-204 | a reader for sections 4 to 7 of RFC 8259 gives the value back and leaves any safe trailing text untouched |
| Json.EncodeIsInjective | pkg/cwlcore/expression_json.go:38-204 | different values have different texts, also before safe trailing text |
| Json.RunesBack | pkg/cwlcore/expression_json.go:166-204 | a reader undoes every escape of a string literal |
| Json.VerbatimExactly | pkg/cwlcore/expression_json.go:166-204 | a string goes in verbatim exactly if it has no quote, no backslash and no control character |
| Json.IntBack | pkg/cwlcore/expression_json.go:80-93 | a reader undoes an integer's decimal text |
| Decimals.ParsedIs | pkg/salad/decimal.go:37-69 | an accepted literal is worth its digits scaled by its exponent and canonical, and is within the size bound exactly when its significant digits and the distance of its exponent from its fraction's length add up to less than 2 to the power 63 |
| Decimals.ParsesExactly | pkg/salad/decimal.go:37-69 | a literal of the right form is accepted exactly when its digits are digits and its expansion is within the bound, or so long that the guard's 64-bit arithmetic comes out negative |
| Decimals.LiteralSpells | pkg/salad/decimal.go:37-130 | a literal written by the grammar, sign, digits, point, digits, exponent mark, sign and digits, is read as exactly these parts, and is of float form exactly if it has a point or an exponent |
| Decimals.GuardWraps | pkg/salad/decimal.go:64-66 | three literals far beyond the bound that are accepted: with the least exponent, with the greatest, and with one whose scaled exponent falls below the least and comes out huge |
| Decimals.ReparseKeepsValue | pkg/salad/decimal.go:153-182 | a printed number within the bound parses again to the same signed value |
| Decimals.ReparsePrints | pkg/salad/decimal.go:153-182 | and prints identically exactly when it is not a zero with a positive exponent |
| Decimals.PaddedZero | pkg/salad/decimal.go:37-182 | the literal 0e5 prints six zeros, and that text parsed again prints one |
| Decimals.PrintedIs | pkg/salad/decimal.go:153-182 | a number prints as its sign, digits and, exactly if its exponent is negative, a point and as many more digits, which together spell it; only a padded zero has a leading zero too many |
| Decimals.PrintedIsShort | pkg/salad/decimal.go:153-160 | the text is at most the bound and its padding |
| Decimals.BigIntExact | pkg/salad/decimal.go:216-234 | BigInt gives v exactly when the number is the integer v |
| Decimals.Int64Exact | pkg/salad/decimal.go:237-244 | Int64 gives v exactly when the number is the integer v and v fits 64 bits |
| Decimals.IntegralDigitsExact | pkg/salad/decimal.go:266-283 | the integral digits spell m exactly when the denominator divides into m |
| Requirements.CollapseKeepsLookups | pkg/cwlexec/handler_workflow.go:148-172 | collapsing a scope to one frame keeps entry, presence and origin of every lookup after any further frames, also when a CommandLineTool among them filters what it inherits |
| Requirements.ToolCollapseExactly | pkg/cwlcore/requirements_inherit.go:52-99 | a scope that ends in a CommandLineTool collapses without loss exactly when every class the tool's filter hides in an outer list is declared again inside |
| Requirements.ToolScopesCollapseLossy | pkg/cwlcore/requirements_inherit.go:60-75 | one scope and class where it does lose something |
| Requirements.GetRequirement | pkg/cwlcore/requirements.go:69-83 | the inner-most requirement of the class that no CommandLineTool filter hides, the last in its frame; failing any, the inner-most such hint, counted as a requirement; else none |
| Requirements.InEffectIs | pkg/cwlcore/requirements.go:69-83 | a lookup's answer is the declaration that takes effect among the frames, by position and filter |
| Requirements.DedupedKeeps | pkg/cwlcore/requirements.go:132-150 | the positions deduplication keeps, for every list |
| Requirements.EffectiveRequirements | pkg/cwlcore/requirements.go:86-93 | the requirements in view, the last entry of each class in order, no class twice |
| Requirements.EffectiveHints | pkg/cwlcore/requirements.go:96-103 | all hints in view, outer to inner |
| Requirements.DedupKeepLast | pkg/cwlcore/requirements.go:132-150 | kept, in order, are exactly the entries no later one has the class of |
| Requirements.LastOfDeduped | pkg/cwlcore/requirements.go:132-150 | deduplication changes no class's last entry |
| Requirements.FilterFrames | pkg/cwlcore/requirements_inherit.go:60-75 | only frames outside a CommandLineTool target are filtered |
| Requirements.LastOfValid | pkg/cwlcore/requirements_inherit.go:52-99 | filtering hides a class wholly or not at all |
| Requirements.InheritRequirements | pkg/cwlexec/handler_workflow.go:148-172 | a nested workflow's declarations become everything in effect around it |
| SchemaDef.ResolveSchemaDef | pkg/cwlcore/decode_schemadef.go:13-22 | a declared name is expanded, an undeclared one reported |
| SchemaDef.ResolveTypeRef | pkg/cwlcore/decode_schemadef.go:25-34 | every name in a type is expanded, and the type admits the same values as before; without declarations it is returned as it is |
| SchemaDef.Resolver.ByName | pkg/cwlcore/decode_schemadef.go:63-80 | expands a declaration and leaves the record of open expansions as it was; (keys not open, type size) shrinks |
| SchemaDef.Resolver.Find | pkg/cwlcore/decode_schemadef.go:83-99 | the first declaration a name selects |
| SchemaDef.Resolver.Substitute | pkg/cwlcore/decode_schemadef.go:102-116 | the expansion of any type, open expansions restored |
| SchemaDef.Resolver.SubstituteRecord | pkg/cwlcore/decode_schemadef.go:154-171 | every field type is expanded, names and bindings kept |
| SchemaDef.OnlyRecursionIsLeft | pkg/cwlcore/decode_schemadef.go:63-171 | every declared name left lies inside an expansion of that same name |
| SchemaDef.ExpansionKeepsMeaning | pkg/cwlcore/decode_schemadef.go:102-171 | a type admits the same values before and after expansion, recursive declarations included |
| SchemaDef.DeclarationIsFirst | pkg/cwlcore/decode_schemadef.go:83-99 | the declaration a name selects is the first of that name |
| SchemaDef.TypeNameKeyIs | pkg/cwlcore/decode_schemadef.go:174-186 | names are matched by the last segment of what follows the hash, or of the whole without one, one of four namespaces taken off first |
| SchemaDef.ExpansionKeepsForm | pkg/cwlcore/decode_schemadef.go:102-171 | expanding a type changes nothing but its names: arrays, unions, records, fields and bindings stay |
| Flatten.Flattener.Resolve | pkg/salad/flatten.go:64-89 | the memo never changes an outcome: the result is that of flattening without one, names being visited restored |
| Flatten.Flattener.Definitions | pkg/salad/flatten.go:48-61 | every definition flattened in declaration order, or the first failure; with well-formed fields it succeeds exactly when every name is sound |
| Flatten.FlattensExactly | pkg/salad/flatten.go:64-106 | with well-formed fields a name flattens exactly when all it leads to is defined and nothing it leads to loops |
| Flatten.FailureHasCause | pkg/salad/flatten.go:69-76 | each error comes with a real undefined name or a real loop |
| Flatten.FlatAnywhere | pkg/salad/flatten.go:64-67 | a name that flattens somewhere flattens the same wherever nothing it leads to is being visited |
| Flatten.OrderDoesNotMatter | pkg/salad/flatten.go:48-61 | two listings of the same definitions agree on success and on what each name flattens to |
| Flatten.ProvenanceIsRight | pkg/salad/flatten.go:263-269 | inherited_from names the definition that last declared the field, and an own field carries none |
| Flatten.EnumIsMerged | pkg/salad/flatten.go:193-210 | an enum that extends others has symbols of different short names, exactly those its flattened bases or itself declare; the bases' symbols come first and stand, its own follow |
| Inheriting.RecordIsMerged | pkg/salad/flatten.go:109-178 | a record that extends others has each short name its flattened bases or itself mention, once: in the order of first mentions, bases first in base order, and with the field mentioned last, the record's own over any base's; a base's field is specialized and marked with the base unless marked before |
| Inheriting.OthersStay | pkg/salad/flatten.go:92-106 | a definition without bases, or neither record nor enum, is left as it is |
| Inheriting.RestStays | pkg/salad/flatten.go:109-210 | of a record only the fields change, of an enum only the symbols |
| Inheriting.OverridesAreThese | pkg/salad/flatten.go:145-190 | an override is recorded exactly for an inherited and an own field of one short name, with the base the inherited one is marked with |
| Inheriting.LastDefinitionCounts | pkg/salad/flatten.go:25-45 | of several definitions of a name the last counts |
| Inheriting.ListedOnce | pkg/salad/flatten.go:25-45 | names are listed once each, as they first appear |
| Flatten.Flattener.ExpandRecord | pkg/salad/flatten.go:109-132 | the outcome is that of merging without a memo, which `Inheriting.RecordIsMerged` says field by field; overrides are exactly those of its merge |
| Flatten.Flattener.Merge | pkg/salad/flatten.go:145-178 | own fields take inherited places, each recorded as an override, and new ones follow |
| Flatten.Flattener.ExpandEnum | pkg/salad/flatten.go:193-210 | base symbols then own ones, by short name once |
| Flatten.Flattener.AddSymbols | pkg/salad/flatten.go:272-290 | what was there stays in place, and each missing short name is added once, so different short names stay different |
| FieldLists.MergedIs | pkg/salad/flatten.go:145-178 | one field a short name: the record's own if it declares one, otherwise the inherited one; inherited names keep their places |
| FieldLists.PutAllHoldsLast | pkg/salad/flatten.go:304-315 | a field list holds, for each short name, the last field put |
| FieldLists.PutKeepsPositions | pkg/salad/flatten.go:304-315 | a field is replaced where it stands and a new one comes last |
| FieldLists.FieldList.Add | pkg/salad/flatten.go:304-315 | a field replaces one of its short name where it stands or comes last, and the index stays right for every name |

## Left out

- Goroutines, channels and context cancellation: completions arrive in an arbitrary order, and `patience` is how many arrive before a cancellation.
- Handlers, expressions, `valueFrom`, `when`, resource selection, output type checks and default filling: uninterpreted pure functions, so a run of the model never mutates what they share.
- JSON serialization of a snapshot and the copying a clone does: snapshots are values, so aliasing between a snapshot and the running state is not modelled. Step and job records are values in map fields for the same reason.
- `RunState.step` inserts a fresh record on access; in the model an absent record reads as fresh.
- Error message text, log output and the `Error` field of failed invocations: errors are compared by kind.
- Answering.AnsweredDirectly: outputs are compared port by port, because a resumed skip stores null ports where a handler's skip stores none.
- RunLoop.Run: job-order inputs are taken as they are given; loading and defaulting them is not modelled.
- RunLoop.Loop.Restart: the mismatch branch is shown unreachable for the plan the snapshot came from; resuming against a different plan is not modelled.
- Workflow.NewPlan: feature checks and the reading of process documents are not part of this model; a plan is built from steps already described.
- Grid.LinearOffset: products and offsets are unbounded integers, without 64-bit overflow.
- Subtype.IsSubtype: a nil pointer inside a non-nil type is not modelled, and the graph must be closed under its references as Go's memory is.
- SubtypeOrder.TransitiveExactly: stated for graphs whose unions have options that are no unions, where a name belongs to one node, a record's short field names differ and a record supplies the fields of those it extends; outside these, as `SubtypeOrder.LoopingUnion` shows, other things break transitivity.
- SubtypeValues.SubtypeSound: stated for the graphs of `SubtypeOrder.TransitiveExactly` in which no subtype of a record omits one of its fields; which values the primitive kinds other than null and Any admit is a parameter, and objects are keyed by short names.
- Runner.RunWorkflow: every step has a handler; the error for a class without one is not modelled.
- Scanner.ScanFragment: positions count characters instead of UTF-8 bytes; an invalid byte counts as one character.
- Interpolate.EvalContent: trimming white space, which `Eval` does first, and the choice between parameter references and JavaScript are not modelled.
- Shell.ShellReadsArgv: only words and quote removal are modelled; reserved words, assignments and aliases, which a shell recognizes in a first word left unquoted, are not.
- Shell.ShellCommand: collecting and sorting the bindings of a command line is easier than quoting and is not modelled.
- Json.ReadsBack: floats are left out because their rounding is, and a decimal prints as `Decimals.ToString` says; strings are sequences of Unicode characters, so invalid UTF-8 is not modelled.
- Decimals.BigIntExact, Decimals.Int64Exact, Decimals.IntegralDigitsExact: exponents are unbounded integers; at the literals that slip past the size guard the Go program slices or repeats out of range and panics.
- Decimals.ParsedIs: literals shorter than 2 to the power 62; Float64 is not modelled.
- Requirements.CollapseKeepsLookups: scopes are values, so that a push leaves its receiver unchanged holds by construction; sharing of slices is not modelled.
- SchemaDef.Resolver.Find: a declaration carries the type it decodes to; the decoder itself is not part of this model.
- Flatten.Flattener.Resolve: nodes are reduced to a field's name, provenance and an opaque body that `specialize` rewrites, locations are dropped, and a field list that is not a list of mappings is one error; the narrowing check over the recorded overrides is not modelled.
- Filesystem staging, globbing, Docker, processes, HTTP and caching: input and output, with nothing to prove over values.
- linkMerge, pickValue, format checks, exit codes and command-line sort keys: sound, but easier than what is here.
