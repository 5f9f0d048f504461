/** One incarnation of the chain executor as a state machine: start, turn, finish. */
module ChainLoop {
  import opened Text
  import opened Lineage
  import opened ChainTypes
  import opened Reducer
  import opened Replan
  import opened PlanSurgery
  import opened Journal
  import opened Activities

  const STUCK_REASON := "chain stuck: no runnable node (unsatisfiable dependency)"
  const ANSWERED_ESCALATION_REASON := "chain halted on an answered node escalation"

  datatype ChainInput = ChainInput(
    chainId: string,
    plan: Plan,
    maxReplans: Option<int>,
    maxChainReplans: Option<int>)

  /** What one execution of a child workflow leaves in the child's own journal. */
  datatype ChildReport = ChildReport(
    status: RunStatus,
    verdict: Option<VerdictKind>,
    inconclusiveCheck: Option<string>,
    handoff: Option<string>,
    reason: Option<string>,
    resumable: bool)

  /** The n-th child execution of the incarnation reports `oracle(n)`: any behaviour of the children is such a function. */
  type Oracle = nat -> ChildReport

  function MaxReplans(input: ChainInput): int {
    if input.maxReplans.Some? then input.maxReplans.value else 0
  }

  function LoopBounds(input: ChainInput): ReplanBounds {
    ReplanBounds(MaxReplans(input),
                 if input.maxChainReplans.Some? then input.maxChainReplans.value else |input.plan.nodes|)
  }

  function MaxResumes(input: ChainInput): nat {
    if MaxReplans(input) > 0 then MAX_CHILD_RESUMES_PER_NODE else 0
  }

  function ChildRunId(chainId: string, nodeId: string): string {
    chainId + "-node-" + nodeId
  }

  function DeriveNodeOutcome(report: ChildReport): NodeOutcome {
    var terminal := if report.status == RunSuccess then Success else Failed;
    NodeOutcome(terminal,
                if report.verdict.Some? then report.verdict.value else if terminal == Success then Proceed else Halt,
                report.inconclusiveCheck)
  }

  function OrElse(text: Option<string>, default: string): string {
    if text.Some? then text.value else default
  }

  /** `executions` counts the child executions this incarnation has made. */
  datatype LoopState = LoopState(
    record: ChainRecord,
    store: Store,
    reason: Option<string>,
    resumableSeal: bool,
    executions: nat)

  // ---- Starting, and the operator's resume ----

  function EmptyRecord(plan: Plan): ChainRecord {
    ChainRecord(plan.id, plan, map[], map[], map[], Running)
  }

  function Start(input: ChainInput, store: Store, lastReport: ChildReport): LoopState {
    var initialized := Initialized(store, input.plan);
    var restored := ChainRecordOf(initialized);
    var record := if restored.Some? then restored.value else EmptyRecord(input.plan);
    var s := LoopState(record.(status := DeriveChainStatus(record)), Reopened(initialized), None, false, 0);
    if WasSealed(initialized.entries) then ResumeFailed(input, s, lastReport) else s
  }

  /** One fresh heal for the first failed node: re-enter its child if that run says it can continue, else replace it. */
  function ResumeFailed(input: ChainInput, s: LoopState, lastReport: ChildReport): LoopState {
    match FirstFailed(s.record, s.record.plan.nodes)
    case None => s
    case Some(failed) =>
      var hasRun := failed in s.record.nodeRuns;
      var heal := DecideNodeHeal(Failed, hasRun && lastReport.resumable, 0, MAX_CHILD_RESUMES_PER_NODE);
      var decision := DecideReplan(s.record, failed, ResumeGrantBounds(s.record, failed));
      if heal.ResumeChild? && hasRun then
        s.(store := Resumed(s.store, failed, s.record.nodeRuns[failed], heal.attempt, OrElse(lastReport.reason, heal.reason)),
           record := s.record.(nodeOutcomes := s.record.nodeOutcomes - {failed}, status := Running))
      else if decision.GrantReplan? then
        SpliceRetry(s, failed, decision, if hasRun then lastReport.reason else None)
      else s
  }

  /** Replace the failed node by its retry and go on running. */
  function SpliceRetry(s: LoopState, failedNodeId: string, decision: ReplanDecision, failureReason: Option<string>): LoopState
    requires decision.GrantReplan?
  {
    var why := OrElse(failureReason, "unknown");
    match BuildRetryPlan(s.record.plan, failedNodeId, why, decision.replansUsed)
    case None => s
    case Some(revised) =>
      s.(store := Replanned(s.store, failedNodeId, decision.reason, revised, BuildReplanBrief(failedNodeId, why)),
         record := s.record.(planId := revised.id, plan := revised, status := Running))
  }

  // ---- One turn of the loop ----

  datatype Attended = Attended(report: ChildReport, store: Store, executions: nat)

  /** Re-enter the child while its seal allows it and its resume budget lasts. */
  function Attend(oracle: Oracle, nodeId: string, runId: string, a: Attended, used: nat, max: nat): Attended
    decreases max - used
  {
    match DecideNodeHeal(DeriveNodeOutcome(a.report).status, a.report.resumable, used, max)
    case ReplanNode(_) => a
    case ResumeChild(attempt, why) =>
      Attend(oracle, nodeId, runId,
             Attended(oracle(a.executions),
                      Resumed(a.store, nodeId, runId, attempt, OrElse(a.report.reason, why)),
                      a.executions + 1),
             attempt, max)
  }

  function RunChild(input: ChainInput, oracle: Oracle, s: LoopState, nodeId: string): Attended {
    var runId := ChildRunId(input.chainId, nodeId);
    Attend(oracle, nodeId, runId,
           Attended(oracle(s.executions), Started(s.store, nodeId, runId), s.executions + 1),
           0, MaxResumes(input))
  }

  /** Seal the node in the journal and fold its outcome into the record. */
  function FoldNode(input: ChainInput, s: LoopState, nodeId: string, child: Attended): LoopState {
    var outcome := DeriveNodeOutcome(child.report);
    var r := s.record;
    var linked := r.(nodeRuns := r.nodeRuns[nodeId := ChildRunId(input.chainId, nodeId)],
                     nodeHandoffs := if child.report.handoff.Some? then r.nodeHandoffs[nodeId := child.report.handoff.value]
                                     else r.nodeHandoffs);
    s.(record := AdvanceChain(linked, nodeId, outcome),
       store := Sealed(child.store, nodeId, outcome, child.report.handoff, child.report.inconclusiveCheck),
       executions := child.executions)
  }

  function AfterFailure(input: ChainInput, s: LoopState, nodeId: string, failureReason: Option<string>): LoopState {
    var decision := DecideReplan(s.record, nodeId, LoopBounds(input));
    if decision.GrantReplan? then SpliceRetry(s, nodeId, decision, failureReason)
    else s.(reason := if MaxReplans(input) > 0 then Some(decision.reason) else None, resumableSeal := true)
  }

  function Dispatch(input: ChainInput, oracle: Oracle, s: LoopState, nodeId: string): LoopState {
    var child := RunChild(input, oracle, s, nodeId);
    var folded := FoldNode(input, s, nodeId, child);
    if DeriveNodeOutcome(child.report).status == Failed then AfterFailure(input, folded, nodeId, child.report.reason)
    else folded
  }

  /** A chain that is no longer RUNNING stays as it is. */
  function Turn(input: ChainInput, oracle: Oracle, s: LoopState): LoopState {
    if s.record.status != Running then s
    else
      var ready := Dispatchable(s.record);
      if ready == [] then s.(record := s.record.(status := ChainFailed), reason := Some(STUCK_REASON))
      else Dispatch(input, oracle, s, ready[0].id)
  }

  /** The state after `k` turns. */
  function StateAt(input: ChainInput, oracle: Oracle, s: LoopState, k: nat): LoopState {
    if k == 0 then s else Turn(input, oracle, StateAt(input, oracle, s, k - 1))
  }

  // ---- Finishing ----

  function FailedActive(record: ChainRecord, nodes: seq<PlanNode>): seq<string> {
    if nodes == [] then []
    else (if SealedWith(record, nodes[0].id, Failed) then [nodes[0].id] else []) + FailedActive(record, nodes[1..])
  }

  function ParkReason(failed: seq<string>): string {
    if failed != [] then ANSWERED_ESCALATION_REASON + ": " + Join(failed, ", ") else ANSWERED_ESCALATION_REASON
  }

  /** An escalation that is already sealed has been answered: the park becomes a FAILED seal. */
  function Parked(s: LoopState): LoopState {
    if s.record.status != AwaitingPlanApproval then s
    else
      var failed := FailedActive(s.record, s.record.plan.nodes);
      s.(record := s.record.(status := ChainFailed),
         reason := if s.reason.Some? then s.reason else Some(ParkReason(failed)),
         resumableSeal := s.resumableSeal || failed != [])
  }

  function Finish(s: LoopState): LoopState {
    var p := Parked(s);
    if p.record.status == ChainSuccess then p.(store := ChainSealed(p.store, Success, p.reason, false))
    else if p.record.status == ChainFailed then p.(store := ChainSealed(p.store, Failed, p.reason, p.resumableSeal))
    else p
  }
}
