# DakRoSa maintenance platform: a verified model

The platform runs maintenance work through versioned workflows. This project models the part of it that decides things,
and proves what that part promises:

- **The workflow engine.** An instance is a set of tokens on a versioned graph. Tokens move through start, service,
  condition, split, join, human and end nodes by a recursion with a depth guard; human steps open tasks, and acting on a
  task moves its token on. `TokenEngine.dfy` and `InstanceActions.dfy` give the meaning of one transaction as a function,
  `WorkflowInstance.dfy` is the class whose methods change fields step by step and are proved equal to that function. On
  top of it: where tokens come to rest and which token owns which task (`EngineSafety.dfy`, `InstanceSafety.dfy`), what the
  depth guard measures (`EngineDepth.dfy`), how tokens add up over whole runs (`EngineHistory.dfy`), an abstract play on how
  many tokens stand where, which the engine follows on every graph (`EngineMarking.dfy`), where tokens land and when one ends up
  without a task (`EngineLandings.dfy`, `EngineCoverage.dfy`, `StrandedToken.dfy`), and which instance a start answers with
  (`InstanceRegistry.dfy`).
- **The graph compiler.** The condition language (`Conditions.dfy`), stable action keys (`ActionKeys.dfy`), the validator
  (`GraphValidator.dfy`), saving, loading and copying graphs (`GraphStore.dfy`, `GraphRoundTrip.dfy`), and the life cycle
  of versions, once for workflows and once for job plans (`VersionHistory.dfy`). Versions keep their graphs and steps in shared
  tables; that the tables say what the history says, through every operation, is proved in `VersionTables.dfy` and
  `StepTables.dfy`, for the classes that perform them in `WorkflowDefinitions.dfy` (with `WorkflowDrawings.dfy`) and
  `JobPlans.dfy`.
- **Around it.** The organization forest, its chart and the manager walk (`Organization.dfy`, `OrganizationTree.dfy`,
  `ManagerWalk.dfy`), the Redis lease lock (`LeaseLock.dfy`), stock and work order materials (`Stock.dfy`), maintenance
  occurrences, events and meters (`Occurrences.dfy`, `MaintenancePlanner.dfy`, `Meters.dfy`), reminders (`Reminders.dfy`)
  and the coupling of a work order to its instance (`WorkOrders.dfy`).

Where the code changes state, the model has a class with the same fields, and each method's contract equates the new state
with a function of the old one, or says exactly what was added to it. Transactions run one after another, and a failing one
leaves the state as it was, except where the code has no transaction; those places say so. Whatever comes from outside
(the clock, generated identifiers, who is assigned where) is a parameter.

What each operation does is said twice. Its contract equates it with a function, and the `…Laws.dfy` files say what that function
yields without the functions it is built from: by a step's configuration, the user, the request and the rows of the tables, case
by case and error by error. Joins, splits and human steps are in `EngineLaws.dfy`, actions and offers in `ActionLaws.dfy`,
conditions in `ConditionLaws.dfy`, the validator's verdict in `ValidatorLaws.dfy`, keys, stored graphs and versions in
`KeyLaws.dfy`, `StoreLaws.dfy` and `VersionLaws.dfy`, the rest in `OrganizationLaws.dfy`, `StockLaws.dfy`, `OccurrenceLaws.dfy`,
`PlannerLaws.dfy`, `MeterLaws.dfy`, `ReminderLaws.dfy` and `WorkOrderLaws.dfy`; `TextLaws.dfy` does the same for trimming, letter
case and numbers in texts.

Results worth knowing, where the code does less than one might expect:

- Two branches that meet on one human step strand a token: the second arrival gets no task. On any graph a token without a
  task of its own stays where it is through any run, and the instance never completes (`StrandedToken.StrandedForGood`). The
  validator accepts graphs that do this (`StrandedToken.TwinAccepted`, `StrandedToken.TwinStrands`). An arrival gets its task
  exactly when the step has no open one (`EngineCoverage.ArrivalCoveredIff`); a whole start or action leaves every token with
  its task exactly when the human steps on which its play lands are distinct and unoccupied (`EngineCoverage.StartCoveredIff`,
  `EngineCoverage.PerformCoveredIff`).
- `not` complements a condition exactly when that condition is an object, and of several connectives in one object only the
  first counts (`Conditions.NegationExactIff`, `Conditions.EarlierConnectiveWins`). The shape check refuses a `not` of anything
  but an object (`Conditions.ShapeValidNegation`), but accepts a null `all` beside an `any`: it reads the `any`, the evaluator
  says no. They part exactly there, and only while the clauses hold (`Conditions.ShapeCheckReadsAlikeIff`).
- The lease lock excludes exactly when every lease in use outlasts two of its refresh periods and twice the lateness of timers;
  with punctual timers, above two seconds (`LeaseLock.ExclusiveIffOutlasts`, `LeaseLock.ExclusiveLeases`).
- A reminder is certain to be sent exactly for leads of at least five minutes (`Reminders.CaughtIffLongEnough`).
- Sending a meter reading again is harmless exactly when its external identifier is not blank, and is answered with the
  saved reading exactly when it has no white space around it (`Meters.ResendIff`). An external identifier of more than 63
  characters does not fit the dedupe key, although 180 are accepted (`Occurrences.KeyFitsIff`); a meter reading that hits a
  trigger under such an identifier is saved, its firing is not, and no second sending brings it back (`Meters.LostForGood`,
  `Meters.LossHappens`).
- A managed work order is completed only if its instance is, exactly unless it was created completed; the first successful
  action puts that right for good. Acted on through the order, the two complete together exactly unless one of them is complete
  from the start, which the play of the start tells beforehand
  (`WorkOrders.CoupledIffNotCreatedCompleted`, `WorkOrders.CoupledFromFirstAction`, `WorkOrders.InStepIff`).
- The manager walk misses a manager twenty or more levels up (`ManagerWalk.ManagerOutOfReach`).

## Model

| member | source | states |
|---|---|---|
| Conditions.DualIsComplement | src/workflow/workflow.service.ts:2215-2298 | on conditions with one connective per object, exchanging `all` and `any` and complementing the tests complements the value (De Morgan), whatever the context |
| Conditions.NegationExactIff | src/workflow/workflow.service.ts:2215-2240 | `not` yields the opposite value exactly when what it negates is an object |
| Conditions.EarlierConnectiveWins | src/workflow/workflow.service.ts:2215-2240 | an object with several connectives is read by `all`, else by `any`, else by `not`; the others have no effect |
| Conditions.ShapeCheckReadsAlikeIff | src/workflow/workflow.service.ts:2174-2240 | on a condition with `all` or `any` that passes the shape check, the evaluator gives the value of the clauses the check read, exactly unless `all` is present but null and those clauses hold |
| Conditions.ShapeValidNegation | src/workflow/workflow.service.ts:2188-2195 | `not` of anything but an object is refused, so a `not` that passes the check and counts is exact |
| Conditions.ShapeCheckAcceptsDeadCondition | src/workflow/workflow.service.ts:2174-2213 | such a condition exists for every clause that holds: accepted, and never true |
| Conditions.TestsAgreeIff | src/maintenance/maintenance-scheduling.service.ts:857-909 | on one test with an undotted fact the two evaluators differ exactly where a test known to the workflow one only succeeds |
| Conditions.EvaluatorsAgree | src/maintenance/maintenance-scheduling.service.ts:857-909 | on the fragment they share, nested to any depth, the workflow and the scheduling evaluator give the same value |
| ConditionLaws.ComparesNumbers | src/workflow/workflow.service.ts:2265-2288 | a clause with `gt`, `gte`, `lt` or `lte` holds exactly if fact and value are numbers and the fact is above, not below, below or not above the value |
| ConditionLaws.OneOfThree | src/workflow/workflow.service.ts:2257-2288 | on two numbers exactly one of `lt`, `eq` and `gt` holds, `lte` is the opposite of `gt` and `gte` of `lt` |
| ConditionLaws.ComparesValues | src/workflow/workflow.service.ts:2257-2260 | `eq` holds exactly for identical plain values, and `neq` is its opposite |
| ConditionLaws.ComparesLists | src/workflow/workflow.service.ts:2261-2264 | `in` holds exactly if the value is a list with the plain fact as an element, `notIn` if it is a list without it |
| ConditionLaws.AsksPresence | src/workflow/workflow.service.ts:2289-2290 | `exists` asks whether the fact is there, and with false whether it is missing |
| ConditionLaws.AsksContents | src/workflow/workflow.service.ts:2291-2296 | `contains` asks for an element of a list or a part of a text |
| ConditionLaws.KnowsNoOther | src/workflow/workflow.service.ts:2297-2298 | a clause with any other operator never holds |
| ConditionLaws.KnowsTheTen | src/workflow/workflow.service.ts:2174-2213 | a clause passes the shape check exactly with one of the ten operators |
| ConditionLaws.AsksForFact | src/workflow/workflow.service.ts:2196-2213 | and only with a fact that is a text |
| ConditionLaws.ConnectivesMean | src/workflow/workflow.service.ts:2219-2250 | `all` holds if every clause is an object that holds, `any` if some is, `not` if its clause is an object that does not |
| ConditionLaws.ConnectivesFit | src/workflow/workflow.service.ts:2174-2195 | they pass the shape check over clauses that do, `all` and `any` over at least one |
| ConditionLaws.DotStepsIn | src/workflow/workflow.service.ts:2302-2315 | a dot in a fact steps into the object read so far |
| ConditionLaws.DotFindsNothing | src/workflow/workflow.service.ts:2302-2315 | and finds nothing where that is no object |
| ConditionLaws.DotIndexes | src/workflow/workflow.service.ts:2302-2315 | and takes an element of a list by its number |
| ConditionLaws.DotMissesList | src/workflow/workflow.service.ts:2302-2315 | any other name but `length` finds nothing in a list |
| ConditionLaws.SchedulingReads | src/maintenance/maintenance-scheduling.service.ts:857-909 | the scheduling evaluator, clause by clause, in the same terms |
| ConditionLaws.SchedulingConnectives | src/maintenance/maintenance-scheduling.service.ts:857-909 | and its `all` and `any` |
| ActionKeys.KeyFromLabel | src/workflow/workflow.service.ts:1079-1088 | a key made from a label is well formed, at most 80 characters, of letters, digits and underscores only |
| ActionKeys.CandidateInjective | src/workflow/workflow.service.ts:1067-1072 | different suffix numbers give different candidates, however much of the base is cut off |
| ActionKeys.SuffixBounded | src/workflow/workflow.service.ts:1067-1072 | pigeonhole: the suffix number never exceeds the number of keys in use by more than two |
| ActionKeys.FreeKey | src/workflow/workflow.service.ts:1067-1072 | the suffix loop ends, with the base if it is free and otherwise with the first free candidate |
| ActionKeys.PrepareTransitions | src/workflow/workflow.service.ts:1055-1077 | each transition keeps everything but its key, and gets the key that its source's earlier transitions leave free |
| ActionKeys.PreparedUnique | src/workflow/workflow.service.ts:1055-1077 | that description determines the result |
| ActionKeys.PreparedKeys | src/workflow/workflow.service.ts:1055-1077 | prepared keys are well formed and pairwise distinct at each source |
| ActionKeys.PreparedLengths | src/workflow/workflow.service.ts:1055-1088 | within the limits of a request no prepared key is longer than 80 characters |
| ActionKeys.PreparedIdentity | src/workflow/workflow.service.ts:1055-1077 | a pass over well-formed distinct keys changes nothing |
| ActionKeys.PreparedStable | src/workflow/workflow.service.ts:1055-1077 | prepared transitions, read back in any order and under any label folding, keep their keys |
| KeyLaws.LabelLaw | src/workflow/workflow.service.ts:1079-1088 | the key of a label is its words with underscores between them, cut at 80 characters, and `action` if it has none |
| KeyLaws.CandidateLaw | src/workflow/workflow.service.ts:1067-1072 | the k-th candidate is the wanted key, shortened as far as 80 characters ask for, with an underscore and k |
| KeyLaws.PassLaw | src/workflow/workflow.service.ts:1055-1077 | a transition gets the well-formed key it asks for, or else its label's, unless an earlier one of its step has it; then the first free candidate numbered from two |
| GraphValidator.ReachableFrom | src/workflow/workflow.service.ts:1282-1302 | the `changed` loop computes exactly the nodes to which a path of transitions leads from the start |
| GraphValidator.CheckForm | src/workflow/workflow.service.ts:1190-1245 | no error about a form exactly when all its fields are well formed and their keys distinct |
| GraphValidator.CheckNodes | src/workflow/workflow.service.ts:1129-1246 | no error about nodes exactly when keys are unique and every node's rules, permissions and form are well formed |
| GraphValidator.CheckTransitions | src/workflow/workflow.service.ts:1254-1281 | no error about transitions exactly when ends exist, conditions are well shaped, and source and action identify a transition |
| GraphValidator.EdgeKeysDistinct | src/workflow/workflow.service.ts:1266-1272 | comparing `source:action` texts is comparing pairs, because node keys hold no colon |
| GraphValidator.CheckDegrees | src/workflow/workflow.service.ts:1303-1346 | no error about a node's transitions exactly when their number and conditions suit its type |
| GraphValidator.ValidateGraphInput | src/workflow/workflow.service.ts:1122-1348 | the validator is sound and complete: no error exactly when the graph is well formed, said without loops |
| ValidatorLaws.RuleLaw | src/workflow/workflow.service.ts:1141-1170 | which assignment rules are accepted, by their kind and the texts they carry |
| ValidatorLaws.PermissionsLaw | src/workflow/workflow.service.ts:1171-1189 | which permission settings are accepted: at most twenty texts of the pattern, or one in the older setting |
| ValidatorLaws.FieldLaw | src/workflow/workflow.service.ts:1196-1243 | which form fields are accepted: an object with a key of the pattern, one of the six types and, for a choice, textual options |
| ValidatorLaws.DegreesLaw | src/workflow/workflow.service.ts:1303-1346 | how many transitions enter and leave a node of each type, by counting them |
| ValidatorLaws.GraphLaw | src/workflow/workflow.service.ts:1122-1348 | the whole verdict in these terms, with walks for reachability and one start by count |
| GraphStore.Store.SaveNodes | src/workflow/workflow.service.ts:996-1032 | the version's old nodes and their rules go, the submitted ones are there under new identifiers, and the node map leads from each key to its row |
| GraphStore.Store.SaveTransitions | src/workflow/workflow.service.ts:1033-1048 | the version's old transitions go and the prepared ones are there, between the rows their keys name; the map look-ups never miss |
| GraphStore.Store.ReplaceGraph | src/workflow/workflow.service.ts:990-1049 | the tables after replacing a version's graph, row by row |
| GraphStore.Store.LoadGraph | src/workflow/workflow.service.ts:912-944 | reading a version gives its nodes with their rules, and its transitions, each row once |
| GraphRoundTrip.ReplacedHolds | src/workflow/workflow.service.ts:990-1049 | the replaced version holds exactly the submitted nodes, rules and transitions |
| GraphRoundTrip.ReplacedLeavesOthers | src/workflow/workflow.service.ts:990-1049 | every other version keeps its nodes, rules and transitions to the letter |
| GraphRoundTrip.ReplacedDistinctIds | src/workflow/workflow.service.ts:990-1049 | row identifiers stay unique |
| GraphRoundTrip.RoundTrip | src/workflow/workflow.service.ts:912-944 | a saved graph read back in any order is the submitted one with texts trimmed and defaults filled in |
| GraphRoundTrip.SameGraphSameVerdict | src/workflow/workflow.service.ts:1122-1348 | the validator's verdict does not depend on the order of nodes, rules and transitions |
| GraphRoundTrip.SavedIsAccepted | src/workflow/workflow.service.ts:1350-1374 | a graph accepted when it was saved is accepted when it is read back for publication |
| GraphRoundTrip.CopyIsFaithful | src/workflow/workflow.service.ts:974-987 | reading a saved graph, saving that as another version and reading it again gives the same graph with the same keys |
| StoreLaws.RuleStored | src/workflow/workflow.service.ts:1016-1031 | what a rule reads back as, field by field, with executors, any of them and no settings as defaults |
| StoreLaws.NodeStored | src/workflow/workflow.service.ts:1004-1015 | what a node reads back as |
| StoreLaws.TransitionStored | src/workflow/workflow.service.ts:1033-1048 | what a transition reads back as |
| GraphRoundTrip.WellFormedJoined | src/workflow/workflow.service.ts:1033-1048 | an accepted graph's transitions name nodes it has, as saving relies on |
| GraphRoundTrip.AcceptedGraphRuns | src/workflow/workflow.service.ts:649-657 | an accepted graph gives the engine closed edges and at most one edge per source and action, so the look-up of a transition has one answer |
| GraphRoundTrip.AcceptedGraphStarts | src/workflow/workflow.service.ts:523-532 | and exactly one start node |
| GraphRoundTrip.StartIsFound | src/workflow/workflow.service.ts:523-532 | so that a start on it is never refused for want of one: it succeeds or trips the depth guard |
| VersionHistory.NumberingAgrees | src/maintenance/maintenance-job-plan.service.ts:209-222 | numbering a new draft after the current version and after the highest number come to the same, the number of versions plus one |
| VersionHistory.RunSound | src/workflow/workflow.service.ts:322-472 | over every run of save, publish, archive and restore: versions are numbered 1 to n, only the newest can be a draft, exactly the current one is published, all contents were accepted |
| VersionHistory.RunExtends | src/workflow/workflow.service.ts:946-988 | published and retired versions never change again, and published ones are at most retired |
| VersionTables.HoldsCopied | src/workflow/workflow.service.ts:974-987 | a version's rows, read in any order and saved under another version, hold the same graph there |
| VersionTables.SaveCoupled | src/workflow/workflow.service.ts:322-348 | a save writes the graph to the draft's rows, first copying the current version's where the draft is new, and touches no other version's rows |
| VersionTables.StepCoupled | src/workflow/workflow.service.ts:322-472 | every operation keeps the tables saying what the history says, and the rows of every version that is not a draft |
| VersionTables.RunFreezesRows | src/workflow/workflow.service.ts:990-1049 | over any run, in whatever order rows are read, the node, rule and transition rows of every published and retired version stay as they are |
| VersionTables.OthersUntouched | src/workflow/workflow.service.ts:990-1049 | and no row of any other definition's versions is touched |
| VersionTables.PinnedRows | src/workflow/workflow.service.ts:544-556 | whatever is read of the version an instance was started on, after any run, could have been read at its start |
| VersionTables.CurrentGraphRuns | src/workflow/workflow.service.ts:518-532 | the current version's rows, however read, are an accepted graph with closed edges, one edge per source and action, and one start |
| VersionHistory.PinnedContent | src/workflow/workflow.service.ts:544-556 | the version an instance was started on has the same content after any run |
| VersionHistory.PublishesIffDraft | src/workflow/workflow.service.ts:374-411 | validation never fails at publication: it succeeds exactly when there is a draft |
| VersionHistory.SavedIsPublished | src/workflow/workflow.service.ts:322-411 | after a save and a publication the saved content is current, its predecessor retired, and the next draft an exact copy |
| VersionHistory.RestoreUndoesArchive | src/workflow/workflow.service.ts:456-472 | restoring an archived definition gives back what was archived |
| VersionLaws.DraftLaw | src/workflow/workflow.service.ts:952-956 | the draft taken up is the one with the highest number |
| VersionLaws.DraftingLaw | src/workflow/workflow.service.ts:946-988 | a new draft holds what the current version reads back as, under the next identifier and number |
| VersionLaws.FirstDraftLaw | src/workflow/workflow.service.ts:957-972 | without a current version it is empty and follows the highest number |
| VersionLaws.SavingLaw | src/workflow/workflow.service.ts:322-348 | an accepted save replaces the content of the draft and nothing else |
| VersionLaws.SavingDrafts | src/workflow/workflow.service.ts:333-334 | a save first makes sure of a draft |
| VersionLaws.NothingPublished | src/workflow/workflow.service.ts:350-396 | which error a publication without a draft ends with |
| VersionLaws.PublishingLaw | src/workflow/workflow.service.ts:382-410 | a publication makes the draft published and current, retires the published predecessor, and changes no other version |
| VersionLaws.ArchivingLaw | src/workflow/workflow.service.ts:456-472 | archiving always succeeds, restoring only from the archive, to in force exactly with a current version |
| WorkflowDrawings.WorkflowRulesLawful | src/workflow/workflow.service.ts:1376-1414 | for workflow graphs, reading back keeps acceptance and is idempotent, as the version life cycle requires |
| WorkflowDrawings.DefaultAcceptable | src/workflow/workflow.service.ts:1416-1490 | the graph of a new definition passes the validator |
| WorkflowDefinitions.Definition.constructor | src/workflow/workflow.service.ts:283-320 | a new definition is a draft of version 1 whose rows hold the default graph |
| WorkflowDefinitions.Definition.EnsureDraft | src/workflow/workflow.service.ts:946-988 | the draft there is, or a new one, into whose rows the current version's graph is read and saved |
| WorkflowDefinitions.Definition.SaveDraft | src/workflow/workflow.service.ts:322-348 | a well-formed graph replaces the draft's rows; any other leaves versions and tables as they were, the draft just made included |
| WorkflowDefinitions.Definition.PublishDefinition | src/workflow/workflow.service.ts:350-411 | the rows judged are read back and pass; the draft becomes current and its predecessor is retired; without a draft, an error and no change |
| WorkflowDefinitions.Definition.Archive | src/workflow/workflow.service.ts:456-461 | archives, also repeatedly |
| WorkflowDefinitions.Definition.Restore | src/workflow/workflow.service.ts:463-472 | restores archived definitions only |
| WorkflowDefinitions.CurrentIsWellFormed | src/workflow/workflow.service.ts:518-532 | after any run a definition in force has a current version, which is published and well formed |
| WorkflowDefinitions.CurrentAlwaysRuns | src/workflow/workflow.service.ts:518-532 | from the creation of a definition on, over any run, the rows of its current version are a graph the engine can run |
| StepTables.JobPlanRulesLawful | src/maintenance/maintenance-job-plan.service.ts:251-272 | the same for the steps of job plans |
| StepTables.AssertUniqueStepKeys | src/maintenance/maintenance-job-plan.service.ts:274-282 | accepts exactly steps with pairwise distinct keys |
| StepTables.StepTable.Replace | src/maintenance/maintenance-job-plan.service.ts:251-272 | the version's old steps go and the new ones are there, numbered by their places |
| StepTables.ReplacedReads | src/maintenance/maintenance-job-plan.service.ts:251-272 | read back, the version's steps are the submitted ones with texts trimmed and defaults filled in |
| StepTables.ReadInOneWay | src/maintenance/maintenance-job-plan.service.ts:230-235 | ordered by sort order, a version's steps come back in one way, whatever order the table has |
| StoreLaws.StepStored | src/maintenance/maintenance-job-plan.service.ts:251-272 | what a step reads back as; one that does not say so is required |
| StoreLaws.StepsTaken | src/maintenance/maintenance-job-plan.service.ts:80-83 | a plan takes steps exactly if there is one and there are as many keys as steps |
| StepTables.StepCoupledSteps | src/maintenance/maintenance-job-plan.service.ts:119-172 | every operation keeps the step table saying what the history says, and the rows of every version that is not a draft |
| StepTables.RunFreezesSteps | src/maintenance/maintenance-job-plan.service.ts:251-272 | over any run the step rows of every published and retired version stay as they are |
| JobPlans.JobPlan.Create | src/maintenance/maintenance-job-plan.service.ts:75-117 | a plan is created exactly with at least one step and no repeated key, as a draft of version 1 with its rows in the step table |
| JobPlans.JobPlan.SaveDraft | src/maintenance/maintenance-job-plan.service.ts:119-138 | acceptable steps replace the draft's rows; others change neither versions nor rows |
| JobPlans.JobPlan.Publish | src/maintenance/maintenance-job-plan.service.ts:140-172 | as for workflow definitions |
| JobPlans.JobPlan.EnsureDraft | src/maintenance/maintenance-job-plan.service.ts:198-249 | the draft there is, or a new one numbered after the highest number, into whose rows the current version's steps are copied |
| JobPlans.CurrentHasSteps | src/maintenance/maintenance-job-plan.service.ts:140-172 | the version a plan executes always has steps, with distinct keys |
| WorkflowInstances.WorkflowInstance.Start | src/workflow/workflow.service.ts:544-577 | starting an instance step by step does what the reference semantics says, and keeps nothing of a refused start |
| InstanceRegistry.InstanceTable.StartFor | src/workflow/workflow.service.ts:511-580 | the whole start: the definition must be in force, an unfinished instance of the resource is answered with, else one is started on the current version; an error changes nothing |
| InstanceRegistry.RunKeeps | src/workflow/workflow.service.ts:534-556 | over any interleaving of starts and actions: at most one unfinished instance per resource, each on the version it was started on, all at rest |
| InstanceRegistry.StartedOnce | src/workflow/workflow.service.ts:534-542 | another start for the resource, whatever happened in between, answers with the same instance while it is unfinished, and starts a new one only after it has finished |
| InstanceRegistry.RunGranted | src/workflow/workflow.service.ts:518-522 | over any interleaving of starts and actions, every instance added was started on the current version of a definition of its tenant that was in force then |
| InstanceRegistry.OutOfForce | src/workflow/workflow.service.ts:513-522 | a definition of the tenant that is not in force, or has no current version, starts nothing, also where an instance is unfinished |
| WorkflowInstances.WorkflowInstance.ActivateToken | src/workflow/workflow.service.ts:1497-1587 | visiting a node, by type, with everything that follows from it |
| WorkflowInstances.WorkflowInstance.OpenEach | src/workflow/workflow.service.ts:1537-1556 | a split opens its enabled branches one after another, each to the end |
| WorkflowInstances.WorkflowInstance.MoveToken | src/workflow/workflow.service.ts:1589-1607 | the token is consumed and a new one activated on the target |
| WorkflowInstances.WorkflowInstance.TryJoin | src/workflow/workflow.service.ts:1609-1666 | below its threshold a join waits; else it eats all tokens waiting on it and sends one on along its first enabled exit |
| WorkflowInstances.WorkflowInstance.CreateHumanTask | src/workflow/workflow.service.ts:1668-1736 | one open task per step: a second arrival opens none; without executors task and instance are blocked |
| EngineLaws.IncomingCounts | src/workflow/workflow.service.ts:1617-1619 | the number of transitions that lead to a join, by counting them |
| EngineLaws.JoinFiresIff | src/workflow/workflow.service.ts:1620-1637 | with w tokens waiting and e transitions leading to it, a join for any fires always, one for a quorum of q exactly if w is at least 1 and q (e if q is no number), any other exactly if w is at least e |
| EngineLaws.JoinFiring | src/workflow/workflow.service.ts:1638-1665 | firing consumes exactly the tokens that wait there and puts one on the target of the first open way, with the branch of the last to arrive; without a way the instance is blocked |
| EngineLaws.JoinWaits | src/workflow/workflow.service.ts:1637 | not firing leaves every token where it is |
| EngineLaws.BranchesMeet | src/workflow/workflow.service.ts:1609-1666 | branches that lead straight to a join for all of them: all but the last wait, and one token goes on |
| EngineLaws.AnyPasses | src/workflow/workflow.service.ts:1609-1666 | a branch that leads to a join for any of them goes on by itself |
| EngineLaws.TakesFirst | src/workflow/workflow.service.ts:1558-1562 | the way taken is the first, in order, whose condition holds |
| EngineLaws.AutomaticStep | src/workflow/workflow.service.ts:1558-1587 | an automatic node moves the token along that way and logs it; without one the instance is blocked |
| EngineLaws.SplitStep | src/workflow/workflow.service.ts:1537-1557 | a split consumes the token and opens all ways that are open, in order, each with its key as branch |
| EngineLaws.EndStep | src/workflow/workflow.service.ts:1519-1525 | an end consumes the token, and completes the instance exactly if it was the last one |
| EngineLaws.HumanStep | src/workflow/workflow.service.ts:1668-1736 | a human step opens one task for the token unless one is open there: a lone executor is assigned, several are candidates, other observers watch; without executors task and instance are blocked |
| WorkflowInstances.WorkflowInstance.RefreshInstanceStatus | src/workflow/workflow.service.ts:1964-1995 | the stored status is recomputed from what tokens and tasks remain |
| WorkflowInstances.WorkflowInstance.CheckAction | src/workflow/workflow.service.ts:604-691 | the checks before anything is written, in their order |
| WorkflowInstances.WorkflowInstance.PerformAction | src/workflow/workflow.service.ts:582-744 | one action step by step does what the reference semantics says; a failure rolls everything back |
| ActionLaws.DemandedIsRequired | src/workflow/workflow.service.ts:1104-1120 | which permissions a step asks for: those of the pattern in its list, or in the older setting where there is no list |
| ActionLaws.ForbiddenIsBarred | src/workflow/workflow.service.ts:663-675 | a user is kept out exactly if the step asks for some permission, the user holds none of them and is no administrator |
| ActionLaws.RefusedForTask | src/workflow/workflow.service.ts:588-647 | in this order: a repeated request changes nothing; a finished instance, no open task that is meant and no such task of the user refuse the action |
| ActionLaws.RefusedForKey | src/workflow/workflow.service.ts:649-662 | then an action without a transition from the step |
| ActionLaws.RefusedForStep | src/workflow/workflow.service.ts:663-691 | then a missing permission, the form, and the condition in the context with the payload laid over it; whoever passes these is let in, on that task and transition |
| ActionLaws.FieldLaw | src/workflow/workflow.service.ts:2119-2172 | what a form field takes, by type, options and whether it is required |
| ActionLaws.EntryWrites | src/workflow/workflow.service.ts:693-733 | an action completes the task in the user's name, consumes its token, puts one with the same branch on the target and logs it |
| ActionLaws.EntryRefuses | src/workflow/workflow.service.ts:702-720 | a task without an active token of its own refuses the action |
| ActionLaws.PerformWrites | src/workflow/workflow.service.ts:693-742 | and when the token has stopped all of this is still there, other tasks are as they were, and the log only grew |
| ActionLaws.RefreshLaw | src/workflow/workflow.service.ts:1964-1995 | the stored status and node by tokens and tasks: completed without active tokens, else blocked while a task is, else running |
| ActionLaws.StartWrites | src/workflow/workflow.service.ts:544-576 | a start puts one token on the start node and logs who started |
| ActionLaws.StartRefused | src/workflow/workflow.service.ts:523-532 | only a start node can be started on |
| EngineSafety.VisitSafe | src/workflow/workflow.service.ts:1497-1587 | one visit leaves every other token at rest and every open task with its own token |
| EngineSafety.ActivateSafe | src/workflow/workflow.service.ts:1497-1666 | when the recursion ends every token is at rest, on any graph, cyclic or not; it can only fail on the depth guard |
| InstanceSafety.StartSettled | src/workflow/workflow.service.ts:511-580 | a start on a start node ends at rest or fails on the depth guard |
| InstanceSafety.RefreshAgrees | src/workflow/workflow.service.ts:1964-1995 | after the refresh the status is a function of tokens and tasks |
| InstanceSafety.PerformSettled | src/workflow/workflow.service.ts:582-744 | an action keeps everything at rest and its status agrees; "token is no longer active" cannot happen |
| InstanceSafety.ReachableAtRest | src/workflow/workflow.service.ts:1497-1666 | in every reachable state: active tokens rest on human steps, on joins below their threshold or on automatic nodes without an enabled exit; open tasks own distinct active tokens, one task per step; a completed instance has neither |
| InstanceSafety.CompletedIsFinal | src/workflow/workflow.service.ts:604-606 | a completed instance never changes again |
| InstanceActions.TestsAgree | src/workflow/workflow.service.ts:663-674 | the assignment and permission tests of an action and of the offer, written differently, agree |
| InstanceSafety.OfferedIffEligible | src/workflow/workflow.service.ts:1997-2056 | an action is offered exactly when the user may act on an open task and the transition's condition holds |
| ActionLaws.OffersLaw | src/workflow/workflow.service.ts:1997-2056 | an action is offered exactly to whom may act on an open task and is not kept out by its step's permissions, while the condition holds in the instance's own context |
| ActionLaws.ForbiddenSeesNothing | src/workflow/workflow.service.ts:1997-2056 | who is kept out by a step's permissions is offered none of its actions |
| InstanceSafety.OfferedIffAdmitted | src/workflow/workflow.service.ts:1997-2056 | with an empty payload, an action passes all checks exactly when it is offered and the form accepts an empty payload |
| InstanceSafety.OfferedOnlyFailsOnDepth | src/workflow/workflow.service.ts:617-691 | an offered action whose form asks for nothing can fail on the depth guard only |
| EngineDepth.FitsIffPathsFit | src/workflow/workflow.service.ts:1503-1507 | the recursive budget is exactly a bound on the weight of automatic paths |
| EngineDepth.CycleNeverFits | src/workflow/workflow.service.ts:1503-1507 | an automatic cycle fits no budget |
| EngineDepth.FittingNeverFails | src/workflow/workflow.service.ts:1503-1507 | if every automatic path fits the levels left, the guard does not fire |
| EngineMarking.ActivatePlays | src/workflow/workflow.service.ts:1497-1666 | on every graph, waiting joins included: the engine trips the guard exactly if the play of the token on the marking runs out of levels, else it leaves on every node as many tokens as the play |
| EngineMarking.StartPlays | src/workflow/workflow.service.ts:544-577 | a start succeeds exactly if its play does not run out of levels, and completes the instance exactly if the play leaves nothing behind and stops at an end |
| EngineMarking.PerformPlays | src/workflow/workflow.service.ts:728-742 | an admitted action in any reachable state succeeds exactly if its play does not run out of levels, and leaves the marking of the play |
| EngineDepth.GuardIsExact | src/workflow/workflow.service.ts:1503-1507 | where no join holds a token back, a condition on the graph alone: the guard fires exactly when some automatic path does not fit |
| EngineDepth.PerformGuard | src/workflow/workflow.service.ts:734-740 | an admitted action succeeds if all automatic paths from its target weigh at most 63, and exactly then where no join holds a token back |
| EngineDepth.StartGuard | src/workflow/workflow.service.ts:577 | a start succeeds if all automatic paths from the start weigh at most 64, and exactly then where no join holds a token back |
| EngineLaws.StartReaches | src/workflow/workflow.service.ts:1503-1507 | a row of automatic nodes shows the limit: a start gets past 32 of them, or 63 joins, and no further |
| EngineLaws.ActionReaches | src/workflow/workflow.service.ts:734-740 | an action gets past 31 of them, or 63 joins, and no further |
| EngineHistory.VisitLater | src/workflow/workflow.service.ts:1519-1666 | one visit only consumes and appends, and accounts for every token it makes or eats |
| EngineHistory.JoinTakesAllOrNothing | src/workflow/workflow.service.ts:1617-1656 | below its threshold a join leaves every token alone; firing, it consumes every token waiting on it, no other, and adds one at most |
| EngineHistory.ActivateLater | src/workflow/workflow.service.ts:1497-1666 | the same for the whole recursion |
| EngineHistory.ReachableAudited | src/workflow/workflow.service.ts:1519-1665 | over every run: active tokens = 1 + split branches − 1 each − eaten + emitted by joins − arrivals at ends; joins ate at least their threshold; consumption times are set exactly on consumed tokens |
| EngineHistory.RetryIsNoop | src/workflow/workflow.service.ts:588-593 | an action sent again with its idempotency key changes nothing, whatever happened in between |
| EngineLandings.ActivateLands | src/workflow/workflow.service.ts:1497-1666 | on every graph the recursion adds to each human step exactly as many tokens as it occurs among the landings of the play |
| EngineLandings.PlaysWithin | src/workflow/workflow.service.ts:1497-1666 | a play lands on no more than the human steps that lie ahead, and on all of those where no join holds a token back |
| EngineCoverage.ArrivalCoveredIff | src/workflow/workflow.service.ts:1675-1682 | a token arriving on a human step gets a task of its own exactly when the step has no open one |
| EngineCoverage.StartCoveredIff | src/workflow/workflow.service.ts:1675-1682 | on every graph: after a start every token on a human step has its own task exactly if the landings of its play are distinct; it suffices that the steps ahead are |
| EngineCoverage.PerformCoveredIff | src/workflow/workflow.service.ts:1675-1682 | on every graph: an action keeps that exactly if the landings of its play are distinct and none has another open task; it suffices that this is so of the steps ahead |
| StrandedToken.StrandedForGood | src/workflow/workflow.service.ts:1675-1682 | on any graph, a token on a human step that no open task names stays there, unnamed, through any run, and the instance never completes |
| StrandedToken.NoOpenTaskIsFinal | src/workflow/workflow.service.ts:608-622 | without an open task no action changes an instance any more |
| StrandedToken.TwinStrands | src/workflow/workflow.service.ts:1675-1682 | a concrete run that leaves a token on a human step without a task, and the instance running, for ever |
| StrandedToken.TwinAccepted | src/workflow/workflow.service.ts:1122-1348 | the validator accepts that graph |
| StrandedToken.TwinDrawn | src/workflow/workflow.service.ts:1033-1048 | and saved and read back that graph is the one the engine runs |
| Organization.ForestIffAcyclic | src/tenancy/tenancy.service.ts:1175-1182 | every walk up ends exactly when no unit is above itself |
| Organization.MoveKeepsForest | src/tenancy/tenancy.service.ts:1163-1183 | hanging a unit where the check lets it hang keeps the forest and the tenant |
| Organization.RemoveKeepsForest | src/tenancy/tenancy.service.ts:525-543 | removing a unit without children keeps the forest |
| Organization.RunKeeps | src/tenancy/tenancy.service.ts:503-543 | no run of creations, reactivations, moves and removals makes a cycle, crosses tenants or doubles a code |
| Organization.UnitTable.AssertOrganizationParent | src/tenancy/tenancy.service.ts:1163-1183 | the walk ends, and refuses exactly a missing or foreign parent, the unit itself and whatever is below it |
| Organization.UnitTable.CreateUnit | src/tenancy/tenancy.service.ts:1103-1132 | a new unit, or the inactive one of that code brought back under the new parent; otherwise the error and no change |
| Organization.UnitTable.UpdateUnit | src/tenancy/tenancy.service.ts:503-523 | the fields sent are set, under a checked parent and a free code |
| Organization.UnitTable.RemoveUnit | src/tenancy/tenancy.service.ts:525-543 | removes exactly a unit of the tenant without children, positions and memberships |
| OrganizationLaws.ParentLaw | src/tenancy/tenancy.service.ts:1163-1183 | a unit may hang under any unit of its tenant from which no way up leads to itself, and what is wrong otherwise |
| OrganizationLaws.CreationLaw | src/tenancy/tenancy.service.ts:1103-1132 | a free code makes a new active unit, field by field |
| OrganizationLaws.ReactivationLaw | src/tenancy/tenancy.service.ts:1108-1118 | the code of an inactive unit makes that unit active again, where and what the request says; that of an active one is taken |
| OrganizationLaws.ChangeRefused | src/tenancy/tenancy.service.ts:503-523 | when a change is refused: a foreign unit, a parent it may not have, a code somebody else has |
| OrganizationLaws.ChangeLaw | src/tenancy/tenancy.service.ts:503-523 | what is sent is written and what is not stays |
| OrganizationLaws.RemovalLaw | src/tenancy/tenancy.service.ts:525-543 | a unit goes exactly if nothing hangs under it and nobody is in it |
| OrganizationTree.OrganizationTree | src/tenancy/tenancy.service.ts:237-252 | each active unit is pushed once, onto its active parent's children or onto the roots, in the order of the list |
| OrganizationTree.CutForest | src/tenancy/tenancy.service.ts:173-174 | whatever is deactivated, what remains is a forest |
| OrganizationTree.ShownExactlyOnce | src/tenancy/tenancy.service.ts:237-252 | in the nested chart every active unit occurs exactly once, and nothing else occurs |
| OrganizationTree.PlantNameForUnit | src/tenancy/tenancy.service.ts:175-182 | the walk ends, with the nearest active plant above the unit if there is one |
| ManagerWalk.ResolveRequesterManager | src/workflow/workflow.service.ts:2058-2117 | finds the nearest manager exactly when there is one fewer than twenty levels up |
| ManagerWalk.NearestUnique | src/workflow/workflow.service.ts:2058-2117 | the nearest manager is one person on one level |
| OrganizationLaws.ManagerLaw | src/workflow/workflow.service.ts:2058-2117 | who manages one unit: the active user its metadata names, else the first who holds the position there |
| ManagerWalk.ShallowNeedsNoBound | src/workflow/workflow.service.ts:2082 | in an organization of at most twenty levels the bound makes no difference |
| ManagerWalk.ManagerOutOfReach | src/workflow/workflow.service.ts:2082 | a manager twenty levels up whom the walk does not find |
| LeaseLock.Redis.Set | src/redis/redis-lock.service.ts:22-24 | acquires exactly when no live entry is there |
| LeaseLock.Redis.EvalExtend | src/redis/redis-lock.service.ts:40-56 | prolongs exactly one's own live entry |
| LeaseLock.Redis.EvalRelease | src/redis/redis-lock.service.ts:58-72 | deletes exactly one's own live entry |
| LeaseLock.OthersUntouched | src/redis/redis-lock.service.ts:40-72 | whatever the timing, no process extends, shortens or deletes a live lock of another |
| LeaseLock.OwnerGivesUp | src/redis/redis-lock.service.ts:58-72 | a live lock changes hands only by its owner's release |
| LeaseLock.StepSafe | src/redis/redis-lock.service.ts:17-38 | every event keeps each worker's lease reaching past its next refresh |
| LeaseLock.MayHappen | src/redis/redis-lock.service.ts:17-38 | what is never ruled out: asking under a fresh token, a timer that is due, leaving and crashing |
| LeaseLock.OvertakingRuns | src/redis/redis-lock.service.ts:26-29 | the run that lets two processes in when a lease is too short |
| LeaseLock.ExclusiveIffOutlasts | src/redis/redis-lock.service.ts:17-38 | over all interleavings, leases of different lengths mixed and timers late each time they fire, at most one process per key works, exactly when every lease outlasts two of its refresh periods and two such delays |
| LeaseLock.ExclusiveLeases | src/redis/redis-lock.service.ts:26 | with punctual timers those are the leases above two seconds; from three seconds on, timers may be late by almost a sixth of the shortest |
| Stock.Store.ExecuteTransaction | src/inventory/inventory.service.ts:58-139 | stock and ledger after an import or export, or the error and no change |
| Stock.Store.AddMaterial | src/work-order/work-order.service.ts:516-567 | stock, ledger and holding after taking material out for a work order, or the error and no change |
| Stock.Store.RemoveMaterial | src/work-order/work-order.service.ts:569-606 | stock, ledger and holdings after bringing it all back, or the error and no change |
| StockLaws.ExportLaw | src/inventory/inventory.service.ts:64-129 | whatever is on the shelf can be taken out, down to nothing, and no more |
| StockLaws.ImportLaw | src/inventory/inventory.service.ts:64-129 | an import adds to the shelf, as far as its column holds the sum |
| StockLaws.MovementRefused | src/inventory/inventory.service.ts:68-76 | neither happens for a foreign warehouse or material, or for a part of a piece |
| StockLaws.TakingLaw | src/work-order/work-order.service.ts:516-567 | a work order takes a positive number of pieces that are there; shelf, ledger and holding change by it |
| StockLaws.TakingRefused | src/work-order/work-order.service.ts:524-539 | what is wrong is found in this order: the quantity, the work order, the stock |
| StockLaws.BringingBackLaw | src/work-order/work-order.service.ts:569-606 | bringing back gives the shelf all that the work order has of it |
| Stock.HeldShelfExists | src/work-order/work-order.service.ts:588-591 | the missing inventory row that `removeMaterial` tolerates is never missing |
| Stock.RunConserves | src/work-order/work-order.service.ts:516-606 | over any interleaving, stock plus holdings of a shelf change by exactly what imports and exports report |
| Stock.ReachableStock | src/inventory/inventory.service.ts:78-129 | stock is never negative and always the ledger's imports less its exports |
| Stock.RemoveUndoesAdd | src/work-order/work-order.service.ts:569-606 | taking out and bringing back leaves stock and holdings as they were |
| Occurrences.SignedRenders | src/maintenance/maintenance-scheduling.service.ts:479 | what is assumed of the rendering of dates can be met |
| Occurrences.KeyInjective | src/maintenance/maintenance-scheduling.service.ts:479 | two rows share a dedupe key only for the same schedule, trigger, equipment and cause, across dates, events and readings |
| Occurrences.KeyFitsIff | src/database/entities/maintenance-occurrence.entity.ts:64-65 | which causes fit the key's column of 180 characters |
| Occurrences.Insert | src/maintenance/maintenance-scheduling.service.ts:480-500 | insert-or-ignore adds the row if its key is free, counts that, and changes no other row |
| Occurrences.FilledThen | src/maintenance/maintenance-scheduling.service.ts:446-513 | filling in steps is filling at once |
| Occurrences.FilledUnique | src/maintenance/maintenance-scheduling.service.ts:446-513 | what is filled in is determined by the rows wanted |
| Occurrences.FilledAgain | src/maintenance/maintenance-scheduling.service.ts:446-513 | filling in again changes nothing, whatever happened to the rows in between |
| Occurrences.NeverRevived | src/maintenance/maintenance-scheduling.service.ts:371-408 | over any interleaving of fillings, skips, cancellations and work orders: the rows are those there were and those asked for, and a row that has left `planned` is never planned again |
| Occurrences.OutOfPlan | src/maintenance/maintenance-scheduling.service.ts:371-408 | so a skipped row, and every row of an archived schedule, is out of the plan for good |
| OccurrenceLaws.SkipLaw | src/maintenance/maintenance-scheduling.service.ts:383-408 | a row can be skipped exactly while it is planned and has no work order |
| OccurrenceLaws.CancelLaw | src/maintenance/maintenance-scheduling.service.ts:371-381 | archiving cancels exactly the planned rows of the schedule |
| OccurrenceLaws.KeyLaw | src/maintenance/maintenance-scheduling.service.ts:479 | what a key is made of |
| OccurrenceLaws.InsertLaw | src/maintenance/maintenance-scheduling.service.ts:480-500 | a row is inserted only where its key is free, and replaces none |
| MaintenancePlanner.TargetsAgreeIff | src/maintenance/maintenance-scheduling.service.ts:790-843 | of the tenant's equipment, what the targets expand to is contained in them; what is contained is expanded exactly when it is a target itself or in a targeted group of the tenant |
| MaintenancePlanner.OwnedTargetsAgree | src/maintenance/maintenance-scheduling.service.ts:790-843 | for groups of the tenant they agree on the tenant's equipment |
| MaintenancePlanner.Planner.ExpandTargets | src/maintenance/maintenance-scheduling.service.ts:790-813 | lists exactly the equipment the targets reach, each once |
| MaintenancePlanner.SmallPlan | src/maintenance/maintenance-scheduling.service.ts:446-513 | what the planner relies on can be met, with a row to fill in |
| MaintenancePlanner.Planner.MaterializeTenant | src/maintenance/maintenance-scheduling.service.ts:446-513 | a window adds exactly the rows it asks for that are not there, and counts exactly the new ones |
| PlannerLaws.WindowFills | src/maintenance/maintenance-scheduling.service.ts:446-513 | each new row belongs to an active schedule, the one asked for if one is, and an active rule of it with that date in the window, on a machine its targets reach, due the estimate later or not at all; every such combination has a row |
| PlannerLaws.InactiveFillsNothing | src/maintenance/maintenance-scheduling.service.ts:452-455 | a window asked for a paused or archived schedule fills in nothing |
| MaintenancePlanner.WindowsCompose | src/maintenance/maintenance-scheduling.service.ts:446-513 | overlapping or touching windows ask for exactly what the whole asks for |
| MaintenancePlanner.OnlyCoverageMatters | src/maintenance/maintenance-scheduling.service.ts:446-513 | order, repetition and overlap of windows do not matter: what they cover together decides the table |
| MaintenancePlanner.Planner.IngestEvent | src/maintenance/maintenance-scheduling.service.ts:515-584 | an event adds exactly the rows of the triggers that hear it, once; too long an identifier fails with nothing inserted |
| PlannerLaws.EventLaw | src/maintenance/maintenance-scheduling.service.ts:515-584 | which rows an event asks for: of active event triggers of active schedules with its key, whose condition, if there is one, is an object that holds of the payload, on the machine named or on every one the targets reach |
| Meters.LaterFirings | src/maintenance/maintenance-scheduling.service.ts:605-620 | once fired, each further firing is an interval above the one before |
| Meters.KthFiring | src/maintenance/maintenance-scheduling.service.ts:605-648 | the k-th firing, counted from nought, is at least k intervals above the threshold |
| Meters.FiringBound | src/maintenance/maintenance-scheduling.service.ts:605-648 | readings up to V fire at most ⌊(V − threshold) / interval⌋ + 1 times |
| Meters.FiringBoundReached | src/maintenance/maintenance-scheduling.service.ts:605-648 | and that bound is reached |
| Meters.CoveredTriggerFires | src/maintenance/maintenance-scheduling.service.ts:605-648 | a running trigger on covered equipment takes exactly those steps |
| Meters.MeterService.CreateMeterOccurrence | src/maintenance/maintenance-scheduling.service.ts:586-650 | a reading fires exactly the triggers it hits; each remembers the value, even if its row was there |
| Meters.MeterService.AddReading | src/maintenance/equipment-meter.service.ts:71-108 | a reading is saved at most once per external identifier; saved, it fires exactly the triggers it hits and adds exactly their rows, unless it hits one under an identifier too long for the key: then it stays saved and nothing fires |
| MeterLaws.CallRefused | src/maintenance/equipment-meter.service.ts:77-86 | which calls change nothing: an unknown or inactive meter, an identifier that is taken |
| MeterLaws.CallKept | src/maintenance/equipment-meter.service.ts:87-107 | any other is kept; exactly the active triggers of active schedules on the machine whose threshold and interval the value reaches remember it, unless the identifier is too long |
| MeterLaws.CallStalls | src/maintenance/equipment-meter.service.ts:99-106 | and too long is more than 63 characters, with a trigger struck |
| MeterLaws.RowsLaw | src/maintenance/maintenance-scheduling.service.ts:586-650 | the rows of a reading: one for each trigger it strikes, planned when it was read |
| Meters.RunFires | src/maintenance/maintenance-scheduling.service.ts:605-648 | over any run of calls a trigger that watches the meter's equipment fires exactly at the values that the firing rule picks from those heard, and no other trigger fires |
| Meters.RunFiringBound | src/maintenance/maintenance-scheduling.service.ts:605-648 | hence at most ⌊(V − threshold) / interval⌋ + 1 times for values up to V, the k-th time at least k intervals above the threshold |
| Meters.LostForGood | src/maintenance/equipment-meter.service.ts:81-107 | a firing lost to a too long identifier stays lost: whatever is called in between, sending it again changes nothing |
| Meters.LossHappens | src/maintenance/equipment-meter.service.ts:81-107 | and it does happen: a reading that fires under an identifier of 63 characters is lost under one of 64 |
| Meters.ResendIff | src/maintenance/equipment-meter.service.ts:81-99 | when a second sending is harmless, and when it is answered with the saved reading |
| Reminders.KeysApart | src/maintenance/maintenance-reminder.scheduler.ts:166 | reminders of different occurrences or leads, and overdue notices, never share a key |
| Reminders.InsertNotifications | src/maintenance/maintenance-reminder.scheduler.ts:142-173 | one notice per recipient is added where it is not there, and counted |
| Reminders.ProcessReminders | src/maintenance/maintenance-reminder.scheduler.ts:52-140 | one execution adds exactly the wanted notices that are not there |
| ReminderLaws.FetchLaw | src/maintenance/maintenance-reminder.scheduler.ts:52-70 | a row is seen exactly if it is open, of an active schedule, planned for the last 30 or the next 366 days, and fewer than 5000 such rows come before it |
| ReminderLaws.WantedLaw | src/maintenance/maintenance-reminder.scheduler.ts:112-140 | a notice is asked for exactly to a recipient of a row that is seen, while a lead is reached and the start is not, or once the due date has passed |
| Reminders.LookAheadCoversIff | src/maintenance/maintenance-reminder.scheduler.ts:54-69 | the look-ahead covers a reminder's whole window exactly up to 366 days, hence every permitted lead |
| Reminders.DeliveredIffCaught | src/maintenance/maintenance-reminder.scheduler.ts:112-127 | a reminder is delivered exactly when some execution falls into its window, and then exactly once |
| Reminders.CaughtIffLongEnough | src/maintenance/maintenance-reminder.scheduler.ts:29 | every run with executions at most five minutes apart catches the window exactly for leads of at least five minutes |
| Reminders.ExactlyOnce | src/maintenance/maintenance-reminder.scheduler.ts:29-69 | such a lead, up to the largest permitted, reaches each recipient exactly once |
| WorkOrders.WorkOrder.Create | src/work-order/work-order.service.ts:88-216 | an order with its instance, or without one if none could be started; an occurrence must be the tenant's and not another order's, and counts as generated |
| WorkOrders.WorkOrder.UpdateFields | src/work-order/work-order.service.ts:259-327 | a managed order refuses another status and a taken occurrence; otherwise status, times and link change, and the tenant's occurrence follows |
| WorkOrders.WorkOrder.PerformWorkflowAction | src/work-order/work-order.service.ts:329-370 | the order takes over completion, assignment or progress from its instance; a failing action changes neither |
| WorkOrders.WorkOrder.AddUpdate | src/work-order/work-order.service.ts:372-402 | progress on an assigned order starts it |
| WorkOrderLaws.CreationRefused | src/work-order/work-order.service.ts:88-120 | an order is created exactly for no occurrence or for one of the tenant that no other order has |
| WorkOrderLaws.CreationLaw | src/work-order/work-order.service.ts:122-216 | what an order starts as, field by field; no occurrence but its own changes |
| WorkOrderLaws.UpdateRefused | src/work-order/work-order.service.ts:265-274 | when an update is refused |
| WorkOrderLaws.UpdateLaw | src/work-order/work-order.service.ts:279-298 | what an update sets: the first progress starts the order, the first completion or closing ends it, with the whole minutes between as downtime |
| WorkOrderLaws.UpdateSettles | src/work-order/work-order.service.ts:299-316 | the order's occurrence is cancelled with a cancelled order and completed with a completed or closed one, and no other changes |
| WorkOrderLaws.ActionRefused | src/work-order/work-order.service.ts:335-344 | an action needs an instance, and fails or succeeds as it does there |
| WorkOrderLaws.ActionLaw | src/work-order/work-order.service.ts:335-361 | what an action leaves: completed with the instance, assigned by `assign`, else in progress; times that are known stay |
| WorkOrderLaws.ReportLaw | src/work-order/work-order.service.ts:391-400 | what a report sets |
| WorkOrders.RunCoupled | src/work-order/work-order.service.ts:329-370 | over any run a managed order not created completed is completed only if its instance is, has ended then, and stays completed |
| WorkOrders.CoupledIffNotCreatedCompleted | src/work-order/work-order.service.ts:130-132 | and that condition on its creation is exact |
| WorkOrders.ActionUndoesCompletion | src/work-order/work-order.service.ts:345-361 | after a successful action the order is completed exactly if its instance is; else it is assigned or in progress |
| WorkOrders.CoupledFromFirstAction | src/work-order/work-order.service.ts:329-370 | whatever was wrong before, from the first successful action on the coupling holds for good |
| WorkOrders.InStepIff | src/work-order/work-order.service.ts:345-352 | acted on through the order only, the two complete together exactly if the play of the start completes the instance just when the order is created completed |

## Left out

- The web layer, dependency injection, the object-relational mapping and SQL: tables are maps and sequences, a transaction is an atomic step with rollback.
- Races between unlocked transactions (the check before the insert in `startInstance`, `removeMaterial` without a row lock): transactions are taken one after another.
- Rule expansion and time zones: a time trigger has an ascending list of dates, and `between` filters it; `toISOString` is a function assumed, on the instants a `Date` can hold, to tell dates apart, to yield at most 27 characters and to start with a digit or a sign.
- Diacritics and capitals in labels: the folding before `actionKeyFromLabel` collapses a label is a parameter; case changes elsewhere are on ASCII letters, white space is the ASCII one and the no-break space.
- Membership, role and position look-ups of `resolveAssignees`: who executes and who observes a step is given per transaction; the manager walk is modelled on its own.
- Task due dates, notes on actions, notifications about tasks and their texts, audit logs: plain data nothing modelled reads.
- The clock within a transaction: one value per transaction.
- Permanent deletion and cloning of definitions: easy members beside saving, copying and publishing.
- Task states `claimed` and `cancelled` are known to the model, and no modelled operation sets them, as in the code.
- Reuse of transition identifiers on save, validator warnings, and the exact texts of errors: an error is a case of a datatype.
- Order in which queries without an order return rows: any order is allowed where it matters (loading graphs), the order of insertion where it does not.
- Reading properties that JavaScript objects inherit, and numbers that are not finite: objects have their own fields, numbers are reals.
- Object identity in comparisons of facts: separately parsed objects are never identical.
- Job plan versions' estimate, skills and custom fields: copied beside the steps, checked by nothing.
- Trigger fields `nextDueAt` and `lastFiredAt`, and occurrence snapshots: shown to users, read by nothing modelled.
- A schedule's activation, pausing and editing, previews and calendars: easy members.
- EngineDepth.GuardIsExact: a condition on paths is exact only where no join needs more than one token, because a waiting join may keep a path from being taken; there the exact condition also depends on the tokens that wait, and is EngineMarking.PerformPlays.
- WorkflowDefinitions.Definition.EnsureDraft: the branch for a definition without a current version is in VersionHistory.EnsureDraft only, because a sound history with no draft always has a current version.
- WorkOrders.RunCoupled: an occurrence of another tenant, which the update lets an order refer to, is not completed with the order, as in the code; the claim is about occurrences of the tenant.
- MaintenancePlanner.OnlyCoverageMatters: schedules, triggers, targets and job plan estimates stay as they are between the windows.
- Reminders.ExactlyOnce: the occurrence and its recipients are as given throughout, and at most 5000 occurrences are eligible at a time, because the code fetches no more.
- Organization charts: people, tags and positions shown beside the units are left out.
- Authentication, users, roles, electronic signatures, file storage, equipment, legacy maintenance plans and personnel: checks around libraries or plain tables.
