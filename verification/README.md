# A verified model of the chain executor and its neighbours

Chikory runs a plan, a graph of nodes with dependencies, as a durable chain of child runs. This project models that chain
executor, the plan-graph algorithms around it, agent-pair selection, the repair loop of the plan gate, and the benchmark
scoring, and proves what they promise for every plan, every behaviour of the children and every run. `dafny verify
dfyconfig.toml` checks all of it.

**The chain.** `ChainTypes`, `Reducer`, `Replan`, `PlanSurgery` and `Lineage` hold the values and the pure decisions; node
ids are real strings, and a retry of `A` is called `A-r1`. `Journal` is the journal class with its fold, `Activities` the
durable activities over it. `ChainLoop` gives the workflow as a state machine (`Start`, `Turn`, `Finish`); what a child run
seals is an arbitrary function of the execution number, so every statement quantifies over all children. `ChainExecutor`
holds the workflow in its imperative form, proved against that machine. `ChainInvariant` and `ChainTurn` carry the
invariant: record and journal agree outside a re-entered node, every active node is the latest incarnation of its lineage
with all earlier ones FAILED on record, and - what a re-entry can break - at most one active node is in trouble. From it
follow termination (`ChainTermination`), deadlock freedom (`ChainTheorems`), dispatch safety, replay, budgets and seals
(`ChainGuarantees`). `ChainResume` is one resume, `ChainLaunches` any number of launches of one chain, `ChainCycles`
deadlock and cycles over them, `ChainBudgets` what their replan decisions count, `ChainGrant` and `ChainAttempts` what a
resume buys a lineage and whether it is taken up. `ChainReentry` says exactly when a journal replays after a re-entry,
`ChainSeals` exactly when the seal of a resumed chain can be relied on, and `StrandedChain` exhibits chains in which these
fail. `ChainReports` says whose report each seal carries and what a failure becomes, `ChainWork` that every active node does
the work planned for its lineage, `ChainRows` what the chain row and the chain's own seals say. `RecoverySummary` proves the
second, positional lineage computation equal to the suffix one over all launches.

**Around the chain.** `Graph` defines reachability, cycles and acyclicity once. `Validation` is the queue-based cycle check,
`WritePaths` the normalising of declared write paths, `WriteSet` the write-conflict serialization with its worklist search,
`PathLaws` what both mean segment by segment, `TaskCycle` the three-colour search of the benchmark loader, `Grade` the
memoised dependency search, specified as a least fixed point. `AgentSelect` is pair selection with cooldowns, `GateRepair`
and `RepairBrief` the bounded repair loop and its character-budgeted brief, `GateOutcome` and `BriefContents` how a pass
ends and what the planner is told. `Wilson`, `Leaderboard`, `Summary` and `SummaryAccount` are the scoring: the square root
is any real `s` with `s >= 0` and `s * s == x`.

**Where code and comments disagree, the model follows the code.**

- A resume that re-enters a resumable child drops its FAILED seal from the live record, and the comment at chain-loop.ts:96-100
  expects the new seal to win. The seal is written once per node, so the new one is lost. The journal rebuilds the live record
  if and only if the child is sealed just as the first time (`ReplayMeansSealedAlike`; `SecondSealIsIgnored` for the one
  entry, `ReentryIsForgotten` for the one fold), and for every behaviour of the children if and only if the resume re-entered
  none (`ReplayIsExact`).
- In consequence "a FAILED seal is resumable exactly when an active node is FAILED" can fail for a chain with two FAILED active
  nodes on record. `SealsAreExact` gives the condition on the record a resume reads, `ResumeHealsExactly` when the resumed
  chain has anything to dispatch, and `ReentryStrandsTheChain` two chains of three launches that end FAILED for good.
- A plan whose author used an id such as `A-r1` collides with the retry of `A`: `RetryKeepsIdsUnique` is exact,
  `CollisionSticks` shows the chain stopping. Plans at launch are therefore required to have no id ending in `-r` and digits.
- "Budget isolation, at every replan decision" holds of the first launch, of one that read a record with one FAILED node at
  most or that has no node to start, and of no other (`ChainDecidesAlone`, exact): all decisions of a launch count the FAILED
  nodes on record against the chain-wide ceiling (`LaunchDecision`), and a ceiling that is neither zero nor ample then refuses
  retries of a lineage with budget left (`CeilingRefusesRetry`). The default ceiling of a plan never decides
  (`AmpleCeilingNeverDecides`).
- "A resume grant gives exactly one further attempt", whatever the children do, holds if and only if on the record the resume
  reads the healed node is the first in plan order that may start and no replan is left for it (`GrantIsOneAttempt`). It may be
  none: in the dependent chain of `GrantWithoutAttempt` the healed node never starts. It may be more, if the budget per node
  was raised or the ceiling alone had halted the node. Budgets that are never raised and ample ceilings leave at most one
  (`EveryGrantIsAtMostOneAttempt`), then exactly one if and only if the healed node is first (`EveryGrantIsOneAttempt`), as it
  always is while re-entered nodes are sealed as before, or none is re-entered (`AlikeGrantIsOneAttempt`).
- "No run reaches the `chain stuck` branch" holds, on an acyclic plan, of the first launch, of one that read no FAILED node,
  and of one that has a node to start, and of no other (`ChainNeverSticks`, exact); the dependent chain of
  `ReentryStrandsTheChain` has none.
- Of the recording activities, only the child re-entry record is not idempotent (`ReentryRecordIsNotIdempotent`).
- The queue-based cycle check reports a cycle for a dependency that is written twice (`HasDependencyCycle`, exact), and
  nothing in the launch path calls it: what a cyclic plan does is `CyclicChainNeverSucceeds`.
- A retry keeps the failed node's own dependency list unrewired (`SpliceKeepsClosed`, exact).
- A park for cooldowns may end with no legal pair yet (`RetryMayFindNothingYet`); the retry time is a lower bound.
- A directory written with a trailing separator keeps it through normalising and then conflicts with nothing inside it
  (`TrailingSeparatorHidesConflict`, exact); `./` is accepted although `.` is refused (`AcceptedMeansInside`, exact).
- A defect that comes back after attempts in which the check that lists it never ran - an unreachable judge, a lost planner
  reply, a floor that kept the plan from the judge - is reported as put right and returned. `OutageReadsAsOscillation` and
  `StoppedOscillation` tell the two cases apart by the kinds in the attempt trail, exactly; `OutageExample` is one instance.
- An excluded result with the suite's only guard changes how the others are counted, which shows when a definition was edited
  after grading (`UnverifiedWeighNothing`, exact; `EditedDefinitionExample`).

## Model

| member | source | states |
|---|---|---|
| Text.DecimalWidthMonotone | packages/sdk-ts/src/heal/gate-repair.ts:243-255 | a smaller count never renders wider than a larger one, so reserving room for the largest overflow line is enough |
| Text.DecimalReadsBack | packages/sdk-ts/src/chain/replan-plan.ts:58 | a rendered number reads back as itself, so two retry numbers or two counts never render alike |
| Text.OneLineIsItsWords | packages/sdk-ts/src/chain/replan-plan.ts:31 | text put on one line is exactly its words in order, one blank between any two, and empty only if it has none |
| Lineage.StripIsReplace | packages/sdk-ts/src/chain/replan.ts:50-57 | the suffix stripper is the regular-expression replacement: it cuts at the offset where `-r` and digits run to the end, and changes nothing where no such offset exists |
| Lineage.NodeLineageRoot | packages/sdk-ts/src/chain/replan.ts:50-57 | the stripping loop ends, and its result is the lineage root, from which nothing more can be stripped |
| Lineage.RetryStrips | packages/sdk-ts/src/chain/replan-plan.ts:58 | a retry id strips back to exactly the id it retries, whatever the retry number, so it keeps the lineage root |
| Lineage.IncarnationsShorter | packages/sdk-ts/src/chain/replan.ts:95-108 | the incarnations of a root are pairwise different: the first k are k ids, all shorter than the next |
| Reducer.DispatchableMeaning | packages/sdk-ts/src/chain/sequencing.ts:3-8 | a node may be dispatched exactly when it is in the plan, unsealed, and all its dependencies sealed SUCCESS |
| Reducer.StatusIsExact | packages/sdk-ts/src/chain/advance.ts:6-29 | each of the four statuses holds in exactly one case, read off the nodes of the plan: an escalation, else a failure, else all sealed, else something unsealed |
| Replan.ResumeGrantIsAccepted | packages/sdk-ts/src/chain/replan.ts:65-75 | the bounds built for an operator's resume always grant one replan, however much the lineage has already spent |
| Replan.ResumeGrantIsLeast | packages/sdk-ts/src/chain/replan.ts:59-75 | they are the least that do: other bounds grant a replan if and only if each is at least as large |
| Replan.ReplanIsExact | packages/sdk-ts/src/chain/replan.ts:88-151 | a replan is granted if and only if the seal is FAILED and both counts are within their budgets; either way exactly the active unsealed ids remain, and a refusal gives the count that decided, its bound and, per node, the lineage |
| PlanSurgery.BuildReplanBrief | packages/sdk-ts/src/chain/replan-plan.ts:18-40 | the brief handed to a retry never exceeds its character limit |
| PlanSurgery.BriefGivesReason | packages/sdk-ts/src/chain/replan-plan.ts:30-40 | a brief that fits its limit names the failed node and gives the whole failure reason on one line, or says it is unknown; it fits unless these two are long |
| PlanSurgery.Splice | packages/sdk-ts/src/chain/replan-plan.ts:62-65 | the failed position is taken by the node handed in, and every other node keeps everything but the renamed dependency; what node that is says the next row |
| PlanSurgery.RetryKeepsWork | packages/sdk-ts/src/chain/replan-plan.ts:48-67 | the retry in the failed position keeps dependencies, acceptance criteria, write set and budget, its goal is the old goal with the brief appended, and its id and the plan id strip back to the old ones |
| ChainWork.ActiveNodesDoThePlannedWork | packages/sdk-ts/src/chain/replan-plan.ts:42-67 | over all launches, whatever is replaced: every active node has the criteria, write set and budget of the planned node of its lineage, depends on the same lineages, and its goal begins with the planned goal |
| PlanSurgery.RetryKeepsIdsUnique | packages/sdk-ts/src/chain/replan-plan.ts:48-67 | a splice leaves all ids unique if and only if the minted retry id is not already in the plan |
| PlanSurgery.RetryCollisionExample | packages/sdk-ts/src/chain/replan-plan.ts:58 | a plan with ids `A` and `A-r1` loses unique ids at the first failure of `A` |
| PlanSurgery.SpliceKeepsClosed | packages/sdk-ts/src/chain/replan-plan.ts:48-67 | dependencies stay inside the plan if and only if the failed node did not depend on itself: its own list is not rewired |
| PlanSurgery.SpliceKeepsShape | packages/sdk-ts/src/chain/replan-plan.ts:48-67 | with a fresh retry id a splice keeps length, unique ids and acyclicity of the plan |
| Journal.ChainJournal.Append | packages/sdk-ts/src/chain/store.ts:218-234 | one entry is added at the end with the next index; indexes stay contiguous from 0 |
| Journal.ChainJournal.FindByKey | packages/sdk-ts/src/chain/store.ts:252-261 | an entry is found exactly when one of that kind carries that key |
| Journal.ChainJournal.AppendOnce | packages/sdk-ts/src/chain/store.ts:242-250 | a second append under a key writes nothing and returns the entry already there |
| Journal.ChainRecordFrom | packages/sdk-ts/src/chain/store.ts:285-329 | the imperative fold over the journal yields exactly the record of the specification fold |
| Journal.FoldedOutcome | packages/sdk-ts/src/chain/store.ts:285-329 | an id has a rebuilt outcome exactly when some entry sealed it |
| Journal.LastSealDecides | packages/sdk-ts/src/chain/store.ts:285-329 | the newest seal of an id decides its outcome, with the split-out marker merged back |
| Journal.LastSpliceDecides | packages/sdk-ts/src/chain/store.ts:285-329 | the rebuilt plan is that of the newest splice entry, whatever the chain row holds |
| Activities.InitChain | packages/sdk-ts/src/chain/activities.ts:147-179 | the plan entry is written only into a journal that has none, an existing row keeps its plan, and the chain is RUNNING |
| Activities.RestoreChain | packages/sdk-ts/src/chain/activities.ts:180-213 | returns the record the journal held before, reports a resume exactly when a terminal entry exists, and reopens at most once per seal |
| Activities.FirstFailedIsFirst | packages/sdk-ts/src/chain/activities.ts:197-199 | the failed node looked up is the first FAILED one in plan order |
| ChainRows.ReopenNamesFirstFailure | packages/sdk-ts/src/chain/activities.ts:193-206 | a reopen sets the row RUNNING, and its entry names the first FAILED active node of the record it reopens, and none exactly when there is none |
| Activities.RecordNodeSealed | packages/sdk-ts/src/chain/activities.ts:291-320 | the inconclusive marker is split out of the stored outcome, and an existing seal is left alone |
| Activities.SealChain | packages/sdk-ts/src/chain/activities.ts:506-534 | a terminal entry is added only when none is newer than the last reopen |
| ChainRows.RowTellsTheTruth | packages/sdk-ts/src/chain/activities.ts:147-534 | in every launch the chain row says RUNNING and holds the live plan while the chain runs, and once sealed the plan and status it was sealed with |
| ChainRows.SealGivesReason | packages/sdk-ts/src/chain/chain-loop.ts:416-470 | a seal gives the reason the loop ended with; an answered escalation without one gets a reason that names every FAILED active node |
| ChainRows.StuckIsDead | packages/sdk-ts/src/chain/chain-loop.ts:222-231 | a chain with nothing to dispatch is sealed FAILED with that reason, not resumable, its record as it was |
| Activities.ReexecutionIsIdempotent | packages/sdk-ts/src/chain/activities.ts:147-365 | executing an init, start, seal or replan activity a second time leaves the store as the first execution did |
| Activities.ResealIsIdempotent | packages/sdk-ts/src/chain/activities.ts:506-534 | sealing twice is sealing once |
| Activities.ReopenIsIdempotent | packages/sdk-ts/src/chain/activities.ts:180-213 | reopening twice is reopening once |
| Activities.ReentryRecordIsNotIdempotent | packages/sdk-ts/src/chain/activities.ts:270-290 | the child re-entry record is the exception: it is written every time, yet the rebuilt record never depends on it |
| Activities.SealsAndReopensAlternate | packages/sdk-ts/src/chain/activities.ts:180-534 | under any interleaving of seals, restores and records, boundaries alternate terminal, reopen, terminal, ... and indexes stay contiguous |
| Activities.StepKeepsAlternation | packages/sdk-ts/src/chain/activities.ts:180-534 | after each seal the newest boundary is a terminal entry, after each restore of a sealed chain it is a reopen |
| ChainInvariant.OneActivePerLineage | packages/sdk-ts/src/chain/replan.ts:95-108 | two active nodes of one lineage are the same node |
| ChainInvariant.SealKeepsRecord | packages/sdk-ts/src/chain/advance.ts:34-51 | sealing a dispatchable node keeps the record's invariant and what every lineage has spent |
| ChainInvariant.LineageFailureCount | packages/sdk-ts/src/chain/replan.ts:88-108 | a lineage's failure count is its spliced-out incarnations plus the failed active one |
| ChainInvariant.RetryIsFresh | packages/sdk-ts/src/chain/replan-plan.ts:58 | the minted retry id is the next incarnation of the lineage and is neither in the plan nor on record |
| ChainInvariant.SpliceKeepsRecord | packages/sdk-ts/src/chain/replan-plan.ts:48-67 | replacing a failed node keeps the record's invariant |
| ChainInvariant.AttendKeeps | packages/sdk-ts/src/chain/chain-loop.ts:300-328 | the re-entry loop adds nothing but re-entry entries, and no more than the resume budget |
| ChainTurn.SealView | packages/sdk-ts/src/chain/activities.ts:291-320 | the first seal of a node is rebuilt in full, with the marker handed in or else the outcome's own; a second one changes nothing |
| ChainTurn.FoldKeepsStore | packages/sdk-ts/src/chain/chain-loop.ts:344-366 | after a fold the journal rebuilds the live plan, runs, outcomes and handoffs |
| ChainTurn.SpliceKeepsInv | packages/sdk-ts/src/chain/chain-loop.ts:186-211 | a splice, granted by the loop or by an operator, keeps record and journal in step and returns the chain to RUNNING |
| ChainTurn.TurnKeepsInv | packages/sdk-ts/src/chain/chain-loop.ts:215-405 | every turn, whichever branch it takes, keeps record, status and journal invariants, and acyclicity of the plan |
| ChainTurn.RunKeepsJournal | packages/sdk-ts/src/chain/chain-loop.ts:215-405 | whatever trouble a launch starts with, record and journal stay in step outside the re-entered ids through any number of turns |
| ChainTurn.RunKeepsInv | packages/sdk-ts/src/chain/chain-loop.ts:215-405 | from a start with at most one active node in trouble that, too, is kept by runs of any length and any behaviour of the children |
| ChainTermination.DispatchDropsBound | packages/sdk-ts/src/chain/chain-loop.ts:233-403 | each dispatch uses up at least one of the dispatches the budgets still allow, also when its failure is replaced by a retry |
| ChainTermination.DispatchesAreBounded | packages/sdk-ts/src/chain/chain-loop.ts:215-405 | dispatches made plus dispatches still allowed never exceed the initial bound; a running chain has dispatched once per turn |
| ChainTermination.EveryRunEnds | packages/sdk-ts/src/chain/chain-loop.ts:215-405 | every incarnation leaves RUNNING one turn after its last possible dispatch at the latest |
| ChainTermination.ChildExecutions | packages/sdk-ts/src/chain/chain-loop.ts:286-328 | a dispatch executes its child once plus at most the resume budget, and a child left resumable has used all of it |
| ChainTermination.ExecutionsAreBounded | packages/sdk-ts/src/chain/chain-loop.ts:286-328 | over a run, child executions lie between the dispatches and (1 + resumes) times the dispatches |
| ChainReports.ChildIsLastExecution | packages/sdk-ts/src/chain/chain-loop.ts:286-328 | a dispatch hands on the report of its last execution: every earlier one had failed and was resumable, it ends at the first that is not or when the one re-entry of a healing chain is used, and each re-entry is on record with its number and the reason before it |
| ChainReports.TurnSealsReport | packages/sdk-ts/src/chain/node-spec.ts:341-352 | a turn changes the record in the dispatched node alone: SUCCESS exactly when the report says so, its verdict or the default of its status, its marker, its handoff, its own child run |
| ChainReports.EverySealIsReported | packages/sdk-ts/src/chain/chain-loop.ts:286-366 | over any run, whatever it has sealed was dispatched in one of its turns and carries status, verdict, marker and handoff of the last execution of that dispatch |
| ChainReports.LaunchSealsAreReported | packages/sdk-ts/src/chain/chain-loop.ts:215-405 | so it does in every launch of a chain, in the live record and, but for a node the launch re-entered, in the journal |
| ChainReports.FailureIsHandled | packages/sdk-ts/src/chain/chain-loop.ts:367-402 | a failed dispatch is replaced by a retry whose goal, and whose journal entry, give the failure reason of its last execution, or it ends the loop resumable with the refusal as its reason, if the chain heals at all |
| ChainReports.ResumeTellsWhy | packages/sdk-ts/src/chain/chain-loop.ts:151-211 | the retry an operator gets carries in goal and journal entry what the run of the first failed node last gave as its reason |
| ChainReports.ResumeRecordsReentry | packages/sdk-ts/src/chain/chain-loop.ts:161-176 | the re-entry an operator gets is recorded as attempt one of that run, with the reason it last gave |
| ChainReports.ChildRunsDiffer | packages/sdk-ts/src/chain/node-spec.ts:216-226 | different nodes of a chain have different child runs, and a run id has a colon only if the chain id or the node id has one |
| ChainReports.RunsAreDistinct | packages/sdk-ts/src/chain/chain-loop.ts:355-366 | at every moment of every launch no two nodes on record share a child run |
| ChainTermination.FreshStart | packages/sdk-ts/src/chain/chain-loop.ts:119-140 | a launchable plan on an empty journal starts with an empty record, one plan entry and every invariant in place |
| ChainTermination.FreshChainBound | packages/sdk-ts/src/chain/chain-loop.ts:215-405 | a fresh chain over n nodes with per-node budget P makes at most n * (P + 1) dispatches and (1 + resumes) times as many child executions, and then has ended |
| ChainTheorems.StuckMeansCyclic | packages/sdk-ts/src/chain/chain-loop.ts:222-230 | a RUNNING chain with nothing to dispatch has a dependency cycle among its unsealed nodes |
| ChainTheorems.NeverStuck | packages/sdk-ts/src/chain/chain-loop.ts:215-230 | on an acyclic plan, whatever nodes are FAILED, no run reaches the `chain stuck` branch, replan splices included, if and only if it does not start in it |
| ChainSeals.ResumeNeverSticks | packages/sdk-ts/src/chain/chain-loop.ts:119-230 | so a resumed launch over an acyclic plan never reaches it, whatever its children do, if and only if no node was FAILED, or the healed or an unsealed node has all dependencies sealed SUCCESS |
| ChainCycles.ChainNeverSticks | packages/sdk-ts/src/chain/chain-loop.ts:109-230 | over any launches of a chain whose first plan is acyclic: always in the first launch and wherever one FAILED node at most is on record, otherwise exactly when the record it reads has a node to start |
| ChainTheorems.SpliceKeepsCycles | packages/sdk-ts/src/chain/replan-plan.ts:48-67 | a splice keeps a cyclic plan cyclic and every node on a cycle unsealed |
| ChainCycles.CyclicChainNeverSucceeds | packages/sdk-ts/src/chain/chain-loop.ts:109-230 | the other direction: a chain over a cyclic plan never ends in SUCCESS, in any of its launches, whatever its children do and whatever is re-entered or replaced |
| ChainTheorems.CollisionSticks | packages/sdk-ts/src/chain/replan-plan.ts:58 | when the retry of `A` collides with a planned `A-r1` that already succeeded, nothing is left to dispatch |
| ChainGuarantees.OutcomesAreKept | packages/sdk-ts/src/chain/advance.ts:34-51 | what a node sealed is never changed by a later turn |
| ChainGuarantees.DispatchIsSafe | packages/sdk-ts/src/chain/chain-loop.ts:215-238 | a node is dispatched only when all its dependencies sealed SUCCESS, and no id is dispatched twice in an incarnation |
| ChainGuarantees.RunKeepsOrder | packages/sdk-ts/src/chain/chain-loop.ts:215-405 | over any run, re-planned nodes included, whatever is sealed was sealed after everything it depends on |
| ChainGuarantees.RunReplays | packages/sdk-ts/src/chain/store.ts:285-329 | in a launch that re-entered no child the journal alone rebuilds the live record after every turn |
| ChainGuarantees.FoldReplays | packages/sdk-ts/src/chain/chain-loop.ts:344-366 | so it does between the fold of a failure and the splice that heals it |
| ChainGuarantees.SecondSealIsIgnored | packages/sdk-ts/src/chain/activities.ts:305-320 | the journal follows the live fold, outcomes and handoffs, if and only if the id was unsealed, or the new outcome is the recorded one and any new handoff is recorded too |
| ChainGuarantees.ReplanDecisionIsExact | packages/sdk-ts/src/chain/replan.ts:88-151 | at every replan decision of every launch the lineage count is that lineage's failed incarnations, the ceiling counts the nodes FAILED before and this one, and the retry is granted if and only if neither exceeds its budget |
| ChainGuarantees.GrantByOptions | packages/sdk-ts/src/chain/chain-loop.ts:113-117 | in the chain's own options: granted if and only if replans are allowed per node and the lineage has failed less often before, and fewer nodes were FAILED than the ceiling, by default the number of planned nodes |
| ChainBudgets.LaunchDecision | packages/sdk-ts/src/chain/replan.ts:106-142 | every decision of a resumed launch counts the same number against the ceiling, the FAILED nodes of the record it read, and grants exactly when the lineage has budget left and that number is within the ceiling |
| ChainBudgets.DecisionsAreIsolated | packages/sdk-ts/src/chain/replan.ts:106-142 | every decision of a resumed launch counts the failing node alone, for every behaviour of its children, if and only if the record it read has one FAILED node at most or there is nothing to start |
| ChainBudgets.ChainDecidesAlone | packages/sdk-ts/src/chain/replan.ts:106-142 | over all launches of a chain: always in the first one, and in a later one under exactly that condition |
| ChainBudgets.CeilingRefuses | packages/sdk-ts/src/chain/replan.ts:134-142 | with more FAILED nodes on record than the ceiling, a first child that fails gets no retry, whatever its lineage's budget |
| ChainBudgets.AmpleCeilingNeverDecides | packages/sdk-ts/src/chain/chain-loop.ts:113-116 | a ceiling no smaller than the plan first launched, as the default is, never decides in any launch: the plan keeps its size |
| ChainBudgets.FailedHasSpentItsBudget | packages/sdk-ts/src/chain/replan.ts:88-151 | over launches whose per-node budget is never raised and whose ceilings are ample, every node that is FAILED or was re-entered has spent its lineage's budget |
| ChainGuarantees.OtherLineagesAreNotCharged | packages/sdk-ts/src/chain/replan.ts:95-108 | sealing a node leaves every other lineage's failure count as it was |
| ChainGuarantees.SealStands | packages/sdk-ts/src/chain/chain-loop.ts:416-470 | the seal of every launch is one terminal entry, SUCCESS exactly when all active nodes succeeded without ESCALATE and else FAILED, and a resumable mark is never wrong |
| ChainGuarantees.FinishSeals | packages/sdk-ts/src/chain/chain-loop.ts:416-470 | with at most one active node in trouble the seal is resumable exactly when an active node is FAILED |
| ChainGuarantees.RunEndsSealed | packages/sdk-ts/src/chain/chain-loop.ts:416-470 | every incarnation that leaves the loop writes exactly one such seal |
| ChainResume.RestoredStart | packages/sdk-ts/src/chain/chain-loop.ts:119-151 | a re-entered chain starts from exactly the record it had, unsealed, its status derived afresh |
| ChainResume.ResumeKeepsJournal | packages/sdk-ts/src/chain/chain-loop.ts:151-213 | healing the first failed node keeps record and journal in step but for a re-entered node, whatever other nodes have failed, and touches no other node |
| ChainResume.RestartKeepsJournal | packages/sdk-ts/src/chain/chain-loop.ts:119-213 | so does starting on any sealed journal: the chain is unsealed again, RUNNING if a node had failed, and still acyclic if it was |
| ChainResume.ResumeKeepsInv | packages/sdk-ts/src/chain/chain-loop.ts:151-213 | with at most one active node in trouble the resume leaves none |
| ChainResume.ResumeHeals | packages/sdk-ts/src/chain/chain-loop.ts:151-213 | resuming a sealed chain whose one troubled node is FAILED always leaves it RUNNING, and on an acyclic plan with a node to dispatch |
| ChainGrant.GrantIsAtMostOneAttempt | packages/sdk-ts/src/chain/replan.ts:65-75 | the turn in which the healed node, if dispatched, fails halts the chain, resumable, if and only if no replan was left on the record the resume read - budget spent, counting a replacement, or ceiling exceeded - and else goes on with a further retry; where none was left nothing of the lineage is dispatched but the healed node, at most once |
| ChainGrant.EveryGrantIsAtMostOneAttempt | packages/sdk-ts/src/chain/replan.ts:65-75 | in every later launch of a chain with budgets never raised and ample ceilings none is left, so each grant is one attempt at most |
| ChainAttempts.RetryGoesFirst | packages/sdk-ts/src/chain/chain-loop.ts:215-403 | while the chain goes on after a failure, the very next node it dispatches is the retry |
| ChainAttempts.GrantIsOneAttempt | packages/sdk-ts/src/chain/chain-loop.ts:151-213 | the healed lineage is dispatched, for every behaviour of the children, if and only if the healed node is the first in plan order that may start on the record the resume read; and exactly once if and only if, besides, no replan is left for it there |
| ChainAttempts.EveryGrantIsOneAttempt | packages/sdk-ts/src/chain/chain-loop.ts:151-213 | with budgets never raised and ample ceilings a launch's grant is exactly one attempt if and only if the healed node is the first that may start |
| ChainAttempts.AlikeGrantIsOneAttempt | packages/sdk-ts/src/chain/chain-loop.ts:151-213 | so it always is in a chain whose re-entered nodes were sealed as before, or that re-entered none: the healed node is the first that may start |
| ChainLaunches.EveryLaunch | packages/sdk-ts/src/chain/chain-loop.ts:109-472 | over any number of launches, whatever each re-enters or replaces, each starts and ends in step with its journal but for the re-entered node, ends sealed, and leaves a journal the next launch can heal |
| ChainLaunches.EveryIncarnation | packages/sdk-ts/src/chain/chain-loop.ts:109-472 | as long as re-entered nodes are sealed as before, each launch starts from a journal that rebuilds the record exactly, seals nothing before its dependencies, ends with an exact mark, and runs again if a node had failed |
| ChainReentry.ReplayMeansSealedAlike | packages/sdk-ts/src/chain/store.ts:285-329 | at every moment of every launch the journal rebuilds plan, runs, outcomes and handoffs if and only if each re-entered node has been sealed again with the outcome and handoff on record |
| ChainReentry.ReentryIsForgotten | packages/sdk-ts/src/chain/chain-loop.ts:344-366 | when a re-entered child is sealed the journal keeps the old seal, and rebuilds the live record if and only if the new outcome is the recorded one and any new handoff is recorded too |
| ChainReentry.RunPends | packages/sdk-ts/src/chain/chain-loop.ts:151-213 | from the re-entry until that seal, through any turns, the journal is ahead by exactly the dropped outcome |
| ChainReentry.ReplayIsExact | packages/sdk-ts/src/chain/chain-loop.ts:96-107 | a resumed launch replays at its end for every behaviour of its children if and only if it re-entered none |
| ChainSeals.SecondFailureStrands | packages/sdk-ts/src/chain/chain-loop.ts:151-213 | with a second FAILED active node and no escalation, one success or nothing to dispatch ends the chain FAILED and not resumable although an active node is FAILED |
| ChainSeals.SealsAreExact | packages/sdk-ts/src/chain/chain-loop.ts:416-470 | the seal of a resumed launch is marked resumable exactly when an active node is FAILED, for every behaviour of its children, if and only if the record it read has at most one FAILED active node, or an escalation besides the healed node's and a node it can start |
| ChainSeals.ResumeHealsExactly | packages/sdk-ts/src/chain/chain-loop.ts:151-230 | a resume with a FAILED node always leaves the chain RUNNING; it has a node to dispatch if and only if the healed or an unsealed node has all dependencies sealed SUCCESS, as on an acyclic plan with one FAILED node |
| StrandedChain.ReentryStrandsTheChain | packages/sdk-ts/src/chain/chain-loop.ts:109-472 | three launches of an ordinary two-node chain: A fails resumable, is re-entered and succeeds, B fails, and the next resume ends FAILED and not resumable - stuck at once where B waits for A |
| StrandedChain.GrantWithoutAttempt | packages/sdk-ts/src/chain/chain-loop.ts:151-230 | in the last of those launches, with B waiting for A, budgets are steady and no replan is left for the healed B, yet nothing is ever dispatched |
| StrandedChain.CeilingRefusesRetry | packages/sdk-ts/src/chain/replan.ts:134-142 | the same two launches, then one with five retries per node and a ceiling of one: the retry A-r1 fails and is refused its own because B is FAILED |
| ChainExecutor.ExecuteNode | packages/sdk-ts/src/chain/chain-loop.ts:286-328 | the execute-and-re-enter loop around one child returns the report of its last execution, all earlier ones being failed and resumable, and leaves the specified journal |
| ChainExecutor.StartChain | packages/sdk-ts/src/chain/chain-loop.ts:119-213 | the imperative start and resume block yields the specified start state and journal |
| ChainExecutor.RunTurn | packages/sdk-ts/src/chain/chain-loop.ts:233-403 | one pass of the loop body yields the specified next state and journal |
| ChainExecutor.RunChainLoop | packages/sdk-ts/src/chain/chain-loop.ts:109-472 | the whole imperative workflow, fresh or resumed, ends sealed in a reachable end state of the state machine and within its dispatch bound |
| ChainExecutor.RunFreshChain | packages/sdk-ts/src/chain/chain-loop.ts:109-472 | a fresh chain ends sealed within n * (P + 1) dispatches, its journal rebuilds the final record, and on an acyclic plan every turn dispatched |
| ChainExecutor.ResumeChain | packages/sdk-ts/src/chain/chain-loop.ts:109-472 | a resume of any sealed journal ends sealed within its dispatch bound, leaves a journal the next resume can take up, and marks its seal exactly if at most one active node was FAILED |
| RecoverySummary.RevisedRoots | packages/sdk-ts/src/chain/chain-recovery-summary.ts:12-59 | mapping the root by replaced position gives every id of the revised plan its suffix root |
| RecoverySummary.RecoveryFactsByNode | packages/sdk-ts/src/chain/chain-recovery-summary.ts:12-59 | on every splice history the positional fold reports, for each node, what the journal holds for its suffix lineage |
| RecoverySummary.RunKeepsHistory | packages/sdk-ts/src/chain/chain-recovery-summary.ts:12-59 | a run keeps the journal such a history from the plan first launched, each lineage replanned once per spliced-out incarnation |
| RecoverySummary.LaunchesKeepHistory | packages/sdk-ts/src/chain/chain-recovery-summary.ts:12-59 | so is every journal of every launch of a chain, whatever each resume re-enters or replaces |
| RecoverySummary.AttemptsAreIncarnations | packages/sdk-ts/src/chain/chain-recovery-summary.ts:12-59 | at every moment of every launch the attempts the journal holds for an active node are the incarnations of its suffix lineage |
| RecoverySummary.RecoveryFactsOfChain | packages/sdk-ts/src/chain/chain-recovery-summary.ts:12-59 | and they are what the positional fold reports for that chain: one entry per active node, attempts counting exactly its incarnations |
| Graph.StuckSetHasCycle | packages/sdk-ts/src/chain/validation.ts:3-26 | a vertex set in which everything has a successor inside the set contains a cycle |
| Validation.HasDependencyCycle | packages/sdk-ts/src/chain/validation.ts:3-26 | for unique ids the queue-based check answers yes if and only if the plan is cyclic or some node lists one plan node twice; ids leave the queue at most once each, after their dependencies, and all of them exactly when it answers no |
| Validation.RepeatedDependencyExample | packages/sdk-ts/src/chain/validation.ts:7-18 | an acyclic plan the check rejects: a dependency written twice is counted twice and released once |
| WriteSet.FindPath | packages/sdk-ts/src/chain/write-set.ts:24-35 | the worklist search answers yes exactly when a path exists, on any graph |
| WritePaths.AcceptedMeansInside | packages/sdk-ts/src/chain/write-set.ts:11-23 | a write path is accepted if and only if it is relative and resolves to something inside the root, or to the root written with a trailing separator |
| PathLaws.ResolveCancels | packages/sdk-ts/src/chain/write-set.ts:11-23 | wherever they stand, an empty segment and `.` change nothing and a name followed by `..` is taken back |
| PathLaws.ResolvedStands | packages/sdk-ts/src/chain/write-set.ts:11-23 | a relative path that climbs first and then only names is resolved as it stands, which with the cancellations decides every relative path |
| PathLaws.NormalFormNames | packages/sdk-ts/src/chain/write-set.ts:11-23 | the normal form of an accepted path has exactly its resolved segments and ends in a separator exactly when the path does |
| WritePaths.NormalFormIsFixed | packages/sdk-ts/src/chain/write-set.ts:11-23 | normalising an accepted path again changes nothing |
| WritePaths.NormalSetIsFixed | packages/sdk-ts/src/chain/write-set.ts:56 | a normalised write set holds exactly the normal forms of the declared paths, each once, ascending, and is its own normal form |
| PathLaws.BeforeMeans | packages/sdk-ts/src/chain/write-set.ts:56 | a path sorts before another if and only if it begins it or has the smaller character where they first differ |
| WritePaths.ConflictMeansNested | packages/sdk-ts/src/chain/write-set.ts:37-41 | two normal forms conflict if and only if, letter case aside, they are equal or the segments of one, written without trailing separator, begin the other's |
| PathLaws.LowerByLetter | packages/sdk-ts/src/chain/write-set.ts:37-41 | letter case is put aside letter by letter, and nothing else is |
| WritePaths.TrailingSeparatorHidesConflict | packages/sdk-ts/src/chain/write-set.ts:37-41 | a directory and a path inside it conflict if and only if the directory has no trailing separator |
| WriteSet.SerializeWriteConflicts | packages/sdk-ts/src/chain/write-set.ts:48-77 | the plan is accepted exactly when every node declares paths, if it must, and all can be normalised, else the first such node is reported; write sets are normalised; every two conflicting writers end up ordered; existing dependencies stay as a prefix; an edge is added only from a later to an earlier conflicting node that the plan left unordered; acyclicity and duplicate-freeness are kept |
| PathLaws.WritableMeans | packages/sdk-ts/src/chain/write-set.ts:12-20 | a node is accepted if and only if it declares paths, if it must, and every one of them stays inside the root |
| PathLaws.RefusalTells | packages/sdk-ts/src/chain/write-set.ts:53-56 | the error names the node that declares nothing or gives its first path that cannot be used |
| PathLaws.NestedWritersAreOrdered | packages/sdk-ts/src/chain/write-set.ts:37-75 | in a serialized plan two nodes that declare the same path, or one inside the other, letter case aside, are ordered by their dependencies |
| PathLaws.AddedForConflict | packages/sdk-ts/src/chain/write-set.ts:60-75 | every dependency added comes from two conflicting paths of an earlier and a later node that the plan had left unordered |
| WriteSet.SerializeTwice | packages/sdk-ts/src/chain/write-set.ts:48-77 | serialising an accepted plan again changes nothing, neither its write sets nor its edges |
| Grade.SatisfactionIsFixpoint | benchmarks/harness/src/grade.ts:103-119 | the specified set is a fixed point of `passed, and every prerequisite in the set` |
| Grade.SatisfactionIsLeast | benchmarks/harness/src/grade.ts:103-119 | and it is contained in every set closed under that rule |
| Grade.NothingOnACycle | benchmarks/harness/src/grade.ts:103-119 | nothing that depends on itself is in it |
| Grade.DependencyMemo.Ok | benchmarks/harness/src/grade.ts:103-117 | the memoised search with its `false` guard answers membership in the least fixed point, whatever was asked before and however the graph is tangled |
| Grade.DependencySatisfiedIds | benchmarks/harness/src/grade.ts:103-119 | the returned set is the least fixed point restricted to the requirement ids |
| Grade.GradeTask | benchmarks/harness/src/grade.ts:121-146 | one grade per requirement in order, and dependency-satisfied <= satisfied <= total |
| Grade.CountSatisfiedIs | benchmarks/harness/src/grade.ts:138-142 | the satisfied count is the number of satisfied grades |
| Grade.LastGradeStands | benchmarks/harness/src/grade.ts:136 | of grades with one id the last one counts as its result |
| TaskCycle.CycleFinder.Visit | benchmarks/harness/src/task.ts:138-152 | one call of the three-colour search: a hit lies on a cycle, no hit leaves the id finished and ranked above its prerequisites |
| TaskCycle.FindCycle | benchmarks/harness/src/task.ts:138-157 | no answer if and only if the prerequisites are acyclic; an answer lies on a cycle |
| AgentSelect.ActiveCooldownMap | packages/sdk-ts/src/agents/select.ts:77-91 | holds exactly the members cooling now, each with its latest expiry |
| AgentSelect.BlockedKeyIsExact | packages/sdk-ts/src/agents/select.ts:63-75 | the textual key `member:reason` never confuses two members or two reasons |
| AgentSelect.BlockedSet.Add | packages/sdk-ts/src/agents/select.ts:63-75 | only the first entry under a key is kept, in insertion order |
| AgentSelect.WaitingEndsCooldowns | packages/sdk-ts/src/agents/select.ts:147-153 | waiting never adds running cooldowns, and past an expiry strictly fewer run |
| AgentSelect.SelectAgentPair | packages/sdk-ts/src/agents/select.ts:93-154 | selects the first legal pair in declared order; parks exactly when there is none, and then none is legal at any instant before the retry time, or ever without one; at the retry time a cooling member is free and fewer cooldowns run; the blocked list is true, complete and free of repetition |
| AgentSelect.RetryMayFindNothingYet | packages/sdk-ts/src/agents/select.ts:147-153 | the retry time is a lower bound only: a park can end with no legal pair yet |
| GateRepair.ReturnedGaps | packages/sdk-ts/src/heal/gate-repair.ts:95-106 | the set-based loop returns, in order, the defects some earlier attempt had and the last one had not |
| GateRepair.OscillationIsExact | packages/sdk-ts/src/heal/gate-repair.ts:95-106 | the oscillation stop fires if and only if one more attempt would break some defect's unbroken stretch of attempts |
| GateRepair.RepairIsExact | packages/sdk-ts/src/heal/gate-repair.ts:133-167 | a repair is granted if and only if the rejection is repairable, attempts are left, no defect comes back that an earlier attempt listed and the last did not, and the cap is off or not reached; over an unbroken history that is: the new defects break no stretch. A stop gives the first of these that fails and, for an oscillation, exactly the defects that came back |
| GateRepair.PlanGatePass | packages/sdk-ts/src/cli/chain.ts:172-264 | which of the rejections a pass ends in, in the order they are looked for, an invalid write path among them; it passes only a plan the judge answered PROCEED on, with all paths declared and in normal form, conflicting writers ordered and the node floor met |
| GateOutcome.PassEndsExactly | packages/sdk-ts/src/cli/chain.ts:172-264 | the replies decide how a pass ends and what it costs: no reply, unusable paths, too few nodes, a judge of the planner's family, PROCEED, an unreachable judge, REVISE or ESCALATE, each if and only if |
| GateOutcome.FloorFailuresTell | packages/sdk-ts/src/planner/plan-repair.ts:79-110 | a refused write set is reported with its message, too few nodes with both numbers |
| GateRepair.PlanAndGateChain | packages/sdk-ts/src/cli/chain.ts:266-348 | at most maxRepairAttempts + 1 passes, each planned against the brief on the rejection before it; spend before every granted pass is below the cap; granted attempts have unbroken defects and repairable causes; the gate opens only on the plan the judge answered PROCEED on in the last pass; it stops exactly for an unrepairable rejection, all passes used, a broken stretch of a defect, or the cap reached, and says which |
| GateOutcome.TrailTells | packages/sdk-ts/src/cli/chain.ts:279-307 | the trail has one line a pass, numbered from one, with its cost and, if rejected, its kind and machine gaps; the lines cost what the passes cost |
| GateOutcome.PlannerIsTold | packages/sdk-ts/src/cli/chain.ts:338-345 | the pass after a rejection is planned against a brief that says which attempt of how many it is and lists the rejection's machine gaps word for word, the first always, and the number of those left out |
| GateOutcome.PlannerKeepsEvidence | packages/sdk-ts/src/planner/plan-repair.ts:246-260 | that brief gives the rejection's instruction, and where the sections fit its rationale, its contract and a line for every node of the rejected plan |
| GateOutcome.OutlineTells | packages/sdk-ts/src/planner/plan-repair.ts:237-243 | an outline entry begins with the node id and holds its goal and the nodes it comes after |
| GateRepair.OutageReadsAsOscillation | packages/sdk-ts/src/heal/gate-repair.ts:95-106 | whatever was rejected in between, a defect that comes back ends the loop as oscillating; no pass in between showed it put right if and only if no attempt since it was last listed was rejected by a check that would have listed it |
| GateRepair.StoppedOscillation | packages/sdk-ts/src/cli/chain.ts:309-345 | so for every defect returned by every loop that stops for oscillation, the trail of attempts tells which it was |
| GateRepair.OutageExample | packages/sdk-ts/src/planner/plan-repair.ts:65-77 | a judge's objection, one lost planner reply, and the same objection again, which is then called returned |
| RepairBrief.SectionKeepsBudget | packages/sdk-ts/src/heal/gate-repair.ts:235-256 | a list section with room for its first item and its overflow line stays within its budget |
| RepairBrief.SectionIsGreedy | packages/sdk-ts/src/heal/gate-repair.ts:235-256 | the section shows as much as fits: one more item would overrun the spend, and from the second on no shown item does |
| RepairBrief.RenderList | packages/sdk-ts/src/heal/gate-repair.ts:235-256 | the loop renders exactly the specified section |
| RepairBrief.RenderOutline | packages/sdk-ts/src/heal/gate-repair.ts:263-284 | the same with every entry clamped to its share before any is dropped |
| RepairBrief.OutlineKeepsEveryEntry | packages/sdk-ts/src/heal/gate-repair.ts:258-284 | while an equal share leaves each entry its minimum, no entry is dropped and each keeps a start long enough for its node id |
| BriefContents.BriefKeepsOutline | packages/sdk-ts/src/heal/gate-repair.ts:263-284 | while equal shares of half of what is left suffice, the start of every entry is in the brief, and the whole of every entry that fits its share |
| RepairBrief.RationaleKeepsBudget | packages/sdk-ts/src/heal/gate-repair.ts:286-292 | the rationale section exceeds its budget by at most the one newline that is never written |
| BriefContents.RationaleIsShown | packages/sdk-ts/src/heal/gate-repair.ts:286-292 | there is a rationale section if and only if it has words and room; it holds the whole rationale on one line if that fits, else as much of its start as does |
| BriefContents.BriefKeepsRationale | packages/sdk-ts/src/heal/gate-repair.ts:306-337 | a rationale that fits what the lists leave is in the brief, word for word |
| RepairBrief.BuildGateRepairBrief | packages/sdk-ts/src/heal/gate-repair.ts:306-337 | the composed brief is the one the lemmas below are about |
| RepairBrief.BriefKeepsHeaderAndInstruction | packages/sdk-ts/src/heal/gate-repair.ts:306-337 | every brief opens with the whole header and closes with the whole instruction |
| BriefContents.BriefTellsTheAttempt | packages/sdk-ts/src/heal/gate-repair.ts:307-310 | every brief names the gate and says which attempt of how many it is |
| RepairBrief.BriefAccountsForEveryGap | packages/sdk-ts/src/heal/gate-repair.ts:306-337 | every machine gap is in the brief, verbatim or counted: shown plus counted equals total |
| BriefContents.BriefListsGaps | packages/sdk-ts/src/heal/gate-repair.ts:306-337 | in the text of every brief: as many gaps word for word as fit beside header and instruction, the first always, and the number of the others; one more would overrun |
| BriefContents.BriefListsContract | packages/sdk-ts/src/heal/gate-repair.ts:306-337 | where the sections fit, the same of the standing contract in what the gaps leave |
| RepairBrief.BriefIsBounded | packages/sdk-ts/src/heal/gate-repair.ts:294-337 | the brief has at most 4000 characters whenever header, instruction, gap heading, first gap and overflow line fit |
| RepairBrief.NothingDroppedWhenElasticFits | packages/sdk-ts/src/heal/gate-repair.ts:294-337 | if contract and outline also have room for their first entries no section is dropped |
| Wilson.IntervalHoldsRate | benchmarks/harness/src/results.ts:459-470 | for 0 <= k <= n the interval contains k/n, lies in [0, 1], and neither clamp ever binds |
| Wilson.RateIsShare | benchmarks/harness/src/results.ts:374-375 | the rate times the trials is the successes, and zero without trials |
| Wilson.IntervalInvertsScoreTest | benchmarks/harness/src/results.ts:455-470 | the interval is exactly the set of rates x with (x - p)^2 <= z^2 x (1 - x) / n |
| Wilson.MoreSuccessesRankNoLower | benchmarks/harness/src/results.ts:459-470 | with as many trials, more successes move neither bound down |
| Leaderboard.SortedIsStable | benchmarks/harness/src/leaderboard.ts:62-63 | the order is descending in the lower bound, a permutation, and keeps ties in order |
| Leaderboard.SeparatedMeansDisjoint | benchmarks/harness/src/leaderboard.ts:71-72 | two intervals are separated if and only if no rate lies in both, and then every rate of the better-placed one is higher |
| Leaderboard.EveryRecordIsExact | benchmarks/harness/src/leaderboard.ts:62-95 | of every leaderboard with proper intervals: a record names a winner, the better-placed arm, if and only if no rate lies in both intervals; every two arms have one record and there is no other |
| Leaderboard.BuildLeaderboard | benchmarks/harness/src/leaderboard.ts:62-95 | the nested loops produce the specified comparisons of the sorted entries, n * (n - 1) / 2 of them, each separated with the better-placed arm as winner if and only if no rate lies in both intervals |
| Leaderboard.EveryPairIsCompared | benchmarks/harness/src/leaderboard.ts:65-95 | the comparisons are exactly those of every two positions, better-placed arm first |
| Leaderboard.WinnerHasHigherRate | benchmarks/harness/src/leaderboard.ts:71-79 | a declared winner has a strictly higher observed rate than the loser |
| Leaderboard.SeparationIsTransitive | benchmarks/harness/src/leaderboard.ts:71-72 | in leaderboard order separation is transitive |
| Leaderboard.LeaderboardIsHonest | benchmarks/harness/src/leaderboard.ts:62-95 | every record of every leaderboard that names a winner names an arm observed strictly better |
| Summary.DiscriminationIsExact | benchmarks/harness/src/results.ts:165-235 | against a ledger a result is proven if and only if it was probed at the scored ref, scores something, and all it scores is discriminating |
| Summary.FirstEntryIsFound | benchmarks/harness/src/results.ts:110-120 | the ledger entry consulted is the first one with the result's task id, and there is none exactly when no entry has it |
| SummaryAccount.ReasonHolds | benchmarks/harness/src/results.ts:165-330 | a result is left out for a reason that is true of it, all that is asked before being in order: base ref, probed at all, scored ref, fresh proof, something scored, the first unproven requirement or the task verdict |
| SummaryAccount.KindsAreFilled | benchmarks/harness/src/results.ts:269-281 | a recorded kind stands, a missing one is that of the first requirement of that id in the definition at hand, and nothing else of a grade changes |
| Summary.SplitIsExact | benchmarks/harness/src/results.ts:290-330 | counted plus listed is all of the results, and each listed one carries its own reason |
| SummaryAccount.SplitDistributes | benchmarks/harness/src/results.ts:268-330 | lists are split result by result and in order |
| Summary.ScoredIsReportedWithoutGuards | benchmarks/harness/src/results.ts:287-316 | for results graded against the definition at hand, kinds recorded or not, and without guards the recomputed weight equals the reported one |
| Summary.FailedGuardVoids | benchmarks/harness/src/results.ts:287-316 | if some grade is an unsatisfied guard the result is worth nothing but its total; if none is, exactly its satisfied grades that are no guards, and of them those whose prerequisites hold |
| SummaryAccount.VoidedAddsToTotalOnly | benchmarks/harness/src/results.ts:287-358 | in every summary a verified result with a failed guard adds its scored requirements to the total and changes neither numerator |
| SummaryAccount.ScoredByField | benchmarks/harness/src/results.ts:318-324 | the scored counts are field by field the sums over the results |
| Summary.FinalCountsAreOrdered | benchmarks/harness/src/results.ts:344-358 | dependency-satisfied <= satisfied <= total in whichever branch the counts are taken from, also for reports without kinds and definitions edited since |
| Summary.UnverifiedWeighNothing | benchmarks/harness/src/results.ts:318-358 | dropping every unverified result changes none of the published counts if and only if there is a ledger, a verified result has a guard or no result has one, or both ways of counting agree on the verified ones - as they do when those were graded against the definitions at hand |
| Summary.EditedDefinitionExample | benchmarks/harness/src/results.ts:318-358 | one edited definition and one excluded result with a guard: dropping the latter changes the count |
| Summary.Weigh | benchmarks/harness/src/results.ts:287-316 | one result's scored weight, dependency search included, is the specified one: its total the grades that are no guards, satisfied none of them if a guard failed, else the satisfied ones |
| Summary.Summarize | benchmarks/harness/src/results.ts:242-383 | the loop's summary splits, counts, rates and intervals are those of the specification |
| SummaryAccount.LinesAgree | benchmarks/harness/src/results.ts:331-341 | each task's line repeats its report, and says verified on both counts exactly when the result is counted |
| Summary.ArmRepeatsSummary | benchmarks/harness/src/results.ts:563-611 | the published arm repeats the summary's two rates and intervals exactly; 0 <= D-SR <= I-SR <= 1, both inside their intervals |
| SummaryAccount.OldArmCountsEverything | benchmarks/harness/src/results.ts:574-578 | the arm of a summary without verified counts publishes the sums over all results |

## Left out

- ChainLaunches.EveryIncarnation: asks that re-entered nodes be sealed as before, which is exactly when their launch replays (`ReplayMeansSealedAlike`); all other chains of launches are covered by `EveryLaunch` and, seal by seal, by `SealsAreExact`.
- ChainTermination.FreshChainBound: requires planned ids without a `-r<digits>` suffix, unique ids and closed dependencies; the last two are what plan assembly checks.
- ChainExecutor.RunChainLoop: asks that the start be in step with its journal; `RunFreshChain` and `ResumeChain` establish it for a fresh chain and for every later launch.
- ChainExecutor.RunTurn: the child's spec, handoff notes and parent ids are not modelled; the child is an oracle for what it seals.
- RecoverySummary.RecoveryFactsByNode: requires a splice history, which `LaunchesKeepHistory` proves of every journal the workflow writes; hand-edited journals are not covered, and the rendering of the summary is left out.
- Journal.ChainJournal.Append: the two SQLite tables are sequences; transactions, timestamps, the chain template and the per-chain database file are not part of this model.
- Journal.ChainRecordFrom: the `plan_verdict` entries, the plan attempt trail and the completion review entries, which it does not fold into the fields modelled here, are left out.
- WriteSet.SerializeWriteConflicts: lower-casing covers ASCII letters only, and paths are ordered by characters, not UTF-16 units.
- TaskCycle.FindCycle: requires that no requirement id is empty, which the authored format (`R<n>`) guarantees; with an empty id the source would mistake a hit for none.
- Summary.FinalCountsAreOrdered: requires reports whose satisfied count is that of their grades and whose grade ids are distinct; a repeated grade id can be satisfied twice by one prerequisite search.
- Wilson.IntervalHoldsRate: over the reals; floating-point rounding is left out.
- Leaderboard.SortedIsStable: the library sort is modelled as a stable insertion; reading bundles and the reason texts are left out.
- AgentSelect.SelectAgentPair: adapters, models and transports of the members are left out, and instants are integers.
- GateRepair.PlanAndGateChain: planner and judge are oracles for each pass, the deterministic floors are what a verdict reports, the rendered stop message and the attempt callback are left out.
- RepairBrief.BuildGateRepairBrief: lengths count characters, not UTF-16 units, and whitespace is the ASCII blanks.
- Temporal itself: a crash inside an incarnation is covered only through the idempotence of the activities.
- Injected replanners and their HALT result, the seeded-failure and park seams, and the completion review, which changes no status.
- Replan budgets are integers; fractional and infinite values, which the source floors or zeroes, are not modelled.
- The orphan-repair write path, git workspaces, the CLI, rendering, tracing, schema validation and the Python port.
- Path-boundary checks on a node's actual output (`undeclaredWritePaths`), which are per-path filters.
