/** The chain workflow itself: the journaled dispatch loop, proved against the state machine of `ChainLoop`. */
module ChainExecutor {
  import opened Lineage
  import opened ChainTypes
  import opened Reducer
  import opened Replan
  import opened PlanSurgery
  import opened Journal
  import opened Activities
  import opened ChainLoop
  import opened ChainInvariant
  import opened ChainTurn
  import opened ChainTermination
  import opened ChainTheorems
  import opened ChainGuarantees
  import opened ChainResume
  import opened ChainReentry
  import opened ChainLaunches
  import opened ChainSeals
  import opened ChainReports

  /** The re-entry loop around one child: execute, and execute again while its seal can be resumed. */
  method ExecuteNode(journal: ChainJournal, input: ChainInput, oracle: Oracle, nodeId: string, executionsBefore: nat)
    returns (result: ChildReport, executions: nat)
    requires journal.Valid()
    modifies journal
    ensures journal.Valid()
    ensures var runId := ChildRunId(input.chainId, nodeId);
            Attended(result, journal.Contents(), executions)
            == Attend(oracle, nodeId, runId,
                      Attended(oracle(executionsBefore), Started(old(journal.Contents()), nodeId, runId), executionsBefore + 1),
                      0, MaxResumes(input))
    ensures LastOf(oracle, executionsBefore, result, executions,
                   if input.maxReplans.Some? && input.maxReplans.value > 0 then 1 else 0)
  {
    var runId := ChildRunId(input.chainId, nodeId);
    RecordNodeStarted(journal, nodeId, runId);
    result, executions := oracle(executionsBefore), executionsBefore + 1;
    var childResumes := 0;
    AttendEndsWithLast(oracle, executionsBefore, nodeId, runId, Attended(result, journal.Contents(), executions), 0,
                       MaxResumes(input));
    hide LastOf;
    ghost var all := Attend(oracle, nodeId, runId, Attended(result, journal.Contents(), executions), 0, MaxResumes(input));
    while true
      invariant journal.Valid()
      invariant all == Attend(oracle, nodeId, runId, Attended(result, journal.Contents(), executions),
                              childResumes, MaxResumes(input))
      decreases MaxResumes(input) - childResumes
    {
      var heal := DecideNodeHeal(DeriveNodeOutcome(result).status, result.resumable, childResumes, MaxResumes(input));
      if heal.ReplanNode? { break; }
      childResumes := heal.attempt;
      RecordNodeResumed(journal, nodeId, runId, heal.attempt, OrElse(result.reason, heal.reason));
      result, executions := oracle(executions), executions + 1;
    }
  }

  /** The default replanner, and the journal entry of the splice. */
  method SpliceInRetry(journal: ChainJournal, record: ChainRecord, failedNodeId: string, decision: ReplanDecision,
                    failureReason: Option<string>, ghost s: LoopState)
    returns (replanned: ChainRecord)
    requires journal.Valid() && decision.GrantReplan?
    requires s.record == record && s.store == journal.Contents()
    modifies journal
    ensures journal.Valid()
    ensures SpliceRetry(s, failedNodeId, decision, failureReason) == s.(record := replanned, store := journal.Contents())
  {
    var why := OrElse(failureReason, "unknown");
    var brief := BuildReplanBrief(failedNodeId, why);
    var retryPlan := BuildRetryPlan(record.plan, failedNodeId, why, decision.replansUsed);
    if retryPlan.None? { return record; }
    RecordNodeReplanned(journal, failedNodeId, decision.reason, retryPlan.value, brief);
    replanned := record.(planId := retryPlan.value.id, plan := retryPlan.value, status := Running);
  }

  /** Restore the record, and let an operator's resume heal the first failed node. */
  method StartChain(journal: ChainJournal, input: ChainInput, lastReport: ChildReport)
    returns (record: ChainRecord, ghost first: LoopState)
    requires journal.Valid()
    modifies journal
    ensures journal.Valid()
    ensures first == Start(input, old(journal.Contents()), lastReport)
    ensures first == LoopState(record, journal.Contents(), None, false, 0)
  {
    hide SpliceRetry, DecideReplan, DeriveChainStatus, FirstFailed, Fold, Initialized, Reopened, ResumeGrantBounds;
    first := Start(input, journal.Contents(), lastReport);
    InitChain(journal, input.plan);
    var restored, resumed := RestoreChain(journal);
    record := if restored.Some? then restored.value else EmptyRecord(input.plan);
    record := record.(status := DeriveChainStatus(record));
    if resumed {
      var failedNode := FirstFailed(record, record.plan.nodes);
      if failedNode.Some? {
        var id := failedNode.value;
        var hasRun := id in record.nodeRuns;
        var heal := DecideNodeHeal(Failed, hasRun && lastReport.resumable, 0, MAX_CHILD_RESUMES_PER_NODE);
        var decision := DecideReplan(record, id, ResumeGrantBounds(record, id));
        if heal.ResumeChild? && hasRun {
          RecordNodeResumed(journal, id, record.nodeRuns[id], heal.attempt, OrElse(lastReport.reason, heal.reason));
          record := record.(nodeOutcomes := record.nodeOutcomes - {id}, status := Running);
        } else if decision.GrantReplan? {
          ghost var s := LoopState(record, journal.Contents(), None, false, 0);
          record := SpliceInRetry(journal, record, id, decision, if hasRun then lastReport.reason else None, s);
        }
      }
    }
  }

  /** One incarnation of the chain: start, dispatch until no longer RUNNING, resolve the park, seal. */
  method RunChainLoop(journal: ChainJournal, input: ChainInput, oracle: Oracle, lastReport: ChildReport,
                   ghost reopened: set<string>)
    returns (status: ChainStatus, ghost first: LoopState, ghost turns: nat)
    requires journal.Valid()
    requires Journaled(input, Start(input, journal.Contents(), lastReport), reopened)
    requires Standing(Start(input, journal.Contents(), lastReport))
    requires Unsealed(Start(input, journal.Contents(), lastReport).store.entries)
    modifies journal
    ensures journal.Valid()
    ensures first == Start(input, old(journal.Contents()), lastReport)
    // the run of the state machine, to its end
    ensures var last := StateAt(input, oracle, first, turns);
            && last.record.status != Running
            && Journaled(input, last, reopened) && Standing(last)
            && (Inv(input, first, reopened) ==> Inv(input, last, reopened))
            && journal.Contents() == Finish(last).store && status == Finish(last).record.status
            && (status == ChainSuccess <==> AllSucceeded(last.record) && !AnyEscalated(last.record))
            && (status != ChainSuccess ==> status == ChainFailed)
    // in no more dispatches than the budgets allow
    ensures DispatchCount(input, oracle, first, turns) <= DispatchBound(input, first.record)
    ensures turns <= DispatchBound(input, first.record) + 1
    ensures turns > 0 ==> StateAt(input, oracle, first, turns - 1).record.status == Running
  {
    hide Inv, Journaled, Standing, StateAt, DispatchBound, DispatchCount, Dispatch, Start, Finish, AllSucceeded;
    hide AnyEscalated, Unsealed, Dispatchable;
    var record;
    record, first := StartChain(journal, input, lastReport);
    var plan := record.plan;
    var reason: Option<string> := None;
    var resumableSeal := false;
    var executions := 0;
    turns := 0;
    FirstTurn(input, oracle, first);
    while record.status == Running
      invariant journal.Valid()
      invariant plan == record.plan
      invariant LoopState(record, journal.Contents(), reason, resumableSeal, executions) == StateAt(input, oracle, first, turns)
      invariant turns <= DispatchBound(input, first.record) + 1
      invariant turns > 0 ==> StateAt(input, oracle, first, turns - 1).record.status == Running
      decreases DispatchBound(input, first.record) + 1 - turns
    {
      ghost var s := StateAt(input, oracle, first, turns);
      OneMoreTurn(input, oracle, first, turns, reopened);
      turns := turns + 1;
      var ready := Dispatchable(record);
      if |ready| == 0 {
        record := record.(status := ChainFailed);
        reason := Some(STUCK_REASON);
        break;
      }
      var node := ready[0];
      record, reason, resumableSeal, executions := RunTurn(journal, input, oracle, record, reason, executions, node.id, s);
      plan := record.plan;
    }
    RunEnded(input, oracle, first, turns, reopened);
    status := FinishChain(journal, record, reason, resumableSeal, StateAt(input, oracle, first, turns));
  }

  lemma FirstTurn(input: ChainInput, oracle: Oracle, s: LoopState)
    ensures StateAt(input, oracle, s, 0) == s
  {
  }

  /** While the chain is RUNNING there is a turn to take, and the bound is not yet used up. */
  lemma OneMoreTurn(input: ChainInput, oracle: Oracle, first: LoopState, turns: nat, reopened: set<string>)
    requires Journaled(input, first, reopened) && Standing(first)
    requires StateAt(input, oracle, first, turns).record.status == Running
    ensures var s := StateAt(input, oracle, first, turns);
            && turns <= DispatchBound(input, first.record)
            && !s.resumableSeal
            && StateAt(input, oracle, first, turns + 1) == Turn(input, oracle, s)
  {
    hide RecordInv, StoreInv, DispatchBound, Turn;
    RunKeepsStanding(input, oracle, first, turns, reopened);
    DispatchesAreBounded(input, oracle, first, turns, reopened);
  }

  lemma RunEnded(input: ChainInput, oracle: Oracle, first: LoopState, turns: nat, reopened: set<string>)
    requires Journaled(input, first, reopened) && Standing(first) && Unsealed(first.store.entries)
    requires StateAt(input, oracle, first, turns).record.status != Running
    ensures var last := StateAt(input, oracle, first, turns); var e := Finish(last);
            && Journaled(input, last, reopened) && Standing(last)
            && (Inv(input, first, reopened) ==> Inv(input, last, reopened))
            && (e.record.status == ChainSuccess || e.record.status == ChainFailed)
            && (e.record.status == ChainSuccess <==> AllSucceeded(last.record) && !AnyEscalated(last.record))
            && DispatchCount(input, oracle, first, turns) <= DispatchBound(input, first.record)
  {
    hide Inv, Journaled, Standing, StateAt, DispatchBound, DispatchCount, Finish, AllSucceeded, AnyEscalated, Unsealed;
    RunKeepsJournal(input, oracle, first, turns, reopened);
    RunKeepsStanding(input, oracle, first, turns, reopened);
    DispatchesAreBounded(input, oracle, first, turns, reopened);
    StillUnsealed(input, oracle, first, turns, reopened);
    SealStands(StateAt(input, oracle, first, turns));
    if Inv(input, first, reopened) { RunKeepsInv(input, oracle, first, turns, reopened); }
  }

  /** Dispatch one node, fold what its child sealed, and heal a failure. */
  method RunTurn(journal: ChainJournal, input: ChainInput, oracle: Oracle, record0: ChainRecord, reason0: Option<string>,
                 executions0: nat, nodeId: string, ghost s: LoopState)
    returns (record: ChainRecord, reason: Option<string>, resumableSeal: bool, executions: nat)
    requires journal.Valid()
    requires s == LoopState(record0, journal.Contents(), reason0, false, executions0)
    modifies journal
    ensures journal.Valid()
    ensures LoopState(record, journal.Contents(), reason, resumableSeal, executions) == Dispatch(input, oracle, s, nodeId)
  {
    hide Attend, SpliceRetry, DecideReplan, DeriveChainStatus, LoopBounds;
    record, reason, resumableSeal := record0, reason0, false;
    var runId := ChildRunId(input.chainId, nodeId);
    var result;
    result, executions := ExecuteNode(journal, input, oracle, nodeId, executions0);
    var outcome := DeriveNodeOutcome(result);
    RecordNodeSealed(journal, nodeId, outcome, result.handoff, result.inconclusiveCheck);
    record := AdvanceChain(
      record.(nodeRuns := record.nodeRuns[nodeId := runId],
              nodeHandoffs := if result.handoff.Some? then record.nodeHandoffs[nodeId := result.handoff.value]
                              else record.nodeHandoffs),
      nodeId, outcome);
    if outcome.status == Failed {
      var decision := DecideReplan(record, nodeId, LoopBounds(input));
      if decision.GrantReplan? {
        ghost var folded := LoopState(record, journal.Contents(), reason, false, executions);
        record := SpliceInRetry(journal, record, nodeId, decision, result.reason, folded);
      } else {
        reason := if MaxReplans(input) > 0 then Some(decision.reason) else None;
        resumableSeal := true;
      }
    }
  }

  /** Turn an answered escalation park into a seal, then write the terminal entry. */
  method FinishChain(journal: ChainJournal, record: ChainRecord, reason0: Option<string>, resumable0: bool, ghost last: LoopState)
    returns (status: ChainStatus)
    requires journal.Valid()
    requires last.record == record && last.store == journal.Contents() && last.reason == reason0 && last.resumableSeal == resumable0
    modifies journal
    ensures journal.Valid()
    ensures journal.Contents() == Finish(last).store && status == Finish(last).record.status
  {
    var reason, resumableSeal := reason0, resumable0;
    status := record.status;
    if status == AwaitingPlanApproval {
      var failed := FailedActive(record, record.plan.nodes);
      status := ChainFailed;
      if reason.None? { reason := Some(ParkReason(failed)); }
      resumableSeal := resumableSeal || |failed| > 0;
    }
    if status == ChainSuccess {
      SealChain(journal, Success, reason, false);
    } else if status == ChainFailed {
      SealChain(journal, Failed, reason, resumableSeal);
    }
  }

  /** A fresh chain over any launchable plan, whatever its children do: it ends sealed within n * (P + 1) dispatches,
      the journal alone rebuilds the record it ended with, and on an acyclic plan every turn dispatched a node. */
  method RunFreshChain(input: ChainInput, oracle: Oracle, lastReport: ChildReport)
    returns (journal: ChainJournal, status: ChainStatus, ghost first: LoopState, ghost turns: nat)
    requires LaunchablePlan(input.plan)
    ensures fresh(journal) && journal.Valid()
    ensures first == Start(input, Store([], None), lastReport)
    ensures var last := StateAt(input, oracle, first, turns);
            && last.record.status != Running && journal.Contents() == Finish(last).store
            && (status == ChainSuccess <==> AllSucceeded(last.record) && !AnyEscalated(last.record))
            && (status != ChainSuccess ==> status == ChainFailed)
            && last.executions <= |input.plan.nodes| * (Bounded(MaxReplans(input)) + 1) * (1 + MaxResumes(input))
            && last.store.row.Some?
            && ChainRecordOf(last.store) == Some(last.record.(status := last.store.row.value.status))
    ensures DispatchCount(input, oracle, first, turns) <= |input.plan.nodes| * (Bounded(MaxReplans(input)) + 1)
    ensures AcyclicPlan(input.plan) ==> DispatchCount(input, oracle, first, turns) == turns
  {
    hide Start, StateAt, Inv, Journaled, Standing, Finish, LaunchablePlan, Unsealed, AcyclicPlan, ChainRecordOf;
    hide DispatchCount;
    journal := new ChainJournal();
    FreshStart(input, lastReport);
    FreshUnsealed(input, lastReport);
    InvStands(input, Start(input, Store([], None), lastReport), {});
    status, first, turns := RunChainLoop(journal, input, oracle, lastReport, {});
    FreshChainBound(input, oracle, lastReport, turns);
    RunReplays(input, oracle, first, turns);
    if AcyclicPlan(input.plan) && turns > 0 {
      EveryTurnDispatches(input, oracle, first, turns);
    }
    assert turns == 0 ==> DispatchCount(input, oracle, first, turns) == 0 by { NoTurns(input, oracle, first); }
  }

  /** A resume of any journal that was sealed: it ends sealed in its turn, leaves a journal the next resume can take up, and
      if the record it read had at most one FAILED active node its resumable mark is exact. */
  method ResumeChain(journal: ChainJournal, input: ChainInput, oracle: Oracle, lastReport: ChildReport)
    returns (status: ChainStatus, ghost first: LoopState, ghost turns: nat)
    requires journal.Valid() && Restorable(input.chainId, journal.Contents())
    modifies journal
    ensures journal.Valid() && Restorable(input.chainId, journal.Contents())
    ensures first == Start(input, old(journal.Contents()), lastReport)
    ensures var last := EndFrom(input, oracle, first);
            && last.record.status != Running && journal.Contents() == Finish(last).store && status == Finish(last).record.status
            && (|LiveFailures(JournalRecord(old(journal.Contents())))| <= 1 ==> SealIsExact(last))
    ensures DispatchCount(input, oracle, first, turns) <= DispatchBound(input, first.record)
  {
    ghost var store := journal.Contents();
    ghost var reopened := ReenteredIds(JournalRecord(store), lastReport);
    hide Start, StateAt, EndFrom, Restorable, Inv, Journaled, Standing, Stale, Unsealed, Finish, JournalRecord, LiveFailures;
    hide SealIsExact, DispatchCount, DispatchBound, ReenteredIds, ChainRecordOf, AnyFailed;
    LaterLaunch(input, store, lastReport);
    status, first, turns := RunChainLoop(journal, input, oracle, lastReport, reopened);
    EndIsUnderway(input, oracle, first, reopened);
    EndIsWhereItEnded(input, oracle, first, turns);
    if |LiveFailures(JournalRecord(store))| <= 1 { LightLaunch(input, oracle, store, lastReport); }
  }

  lemma EndIsWhereItEnded(input: ChainInput, oracle: Oracle, s: LoopState, turns: nat)
    requires turns <= DispatchBound(input, s.record) + 1 && StateAt(input, oracle, s, turns).record.status != Running
    ensures EndFrom(input, oracle, s) == StateAt(input, oracle, s, turns)
  {
    hide StateAt, DispatchBound;
    EndedForGood(input, oracle, s, turns, DispatchBound(input, s.record) + 1);
  }

  lemma NoTurns(input: ChainInput, oracle: Oracle, s: LoopState)
    ensures DispatchCount(input, oracle, s, 0) == 0
  {
  }

  lemma EveryTurnDispatches(input: ChainInput, oracle: Oracle, s: LoopState, k: nat)
    requires Inv(input, s, {}) && AcyclicPlan(s.record.plan)
    requires k > 0 && StateAt(input, oracle, s, k - 1).record.status == Running
    ensures DispatchCount(input, oracle, s, k) == k
  {
    hide Inv, Journaled, AcyclicPlan, StateAt;
    InvStands(input, s, {});
    InvIsGoing(input, s, {});
    RunKeepsGoing(input, oracle, s, k - 1, {});
    DispatchesAreBounded(input, oracle, s, k - 1, {});
  }
}
