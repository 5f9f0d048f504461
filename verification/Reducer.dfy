/** The pure status reducer and the ready-node filter. */
module Reducer {
  import opened ChainTypes

  predicate SealedWith(record: ChainRecord, id: string, status: TerminalStatus) {
    id in record.nodeOutcomes && record.nodeOutcomes[id].status == status
  }

  predicate Escalated(record: ChainRecord, id: string) {
    id in record.nodeOutcomes && record.nodeOutcomes[id].verdict == Escalate
  }

  predicate AnyEscalated(record: ChainRecord) {
    exists id :: id in NodeIds(record.plan) && Escalated(record, id)
  }

  predicate AnyFailed(record: ChainRecord) {
    exists id :: id in NodeIds(record.plan) && SealedWith(record, id, Failed)
  }

  predicate AllSucceeded(record: ChainRecord) {
    forall id :: id in NodeIds(record.plan) ==> SealedWith(record, id, Success)
  }

  function DeriveChainStatus(record: ChainRecord): ChainStatus {
    if AnyEscalated(record) then AwaitingPlanApproval
    else if AnyFailed(record) then ChainFailed
    else if AllSucceeded(record) then ChainSuccess
    else Running
  }

  /** Some node of the plan is sealed with that verdict, or in that way. */
  predicate SomeVerdict(record: ChainRecord, verdict: VerdictKind) {
    exists n :: n in record.plan.nodes && n.id in record.nodeOutcomes && record.nodeOutcomes[n.id].verdict == verdict
  }

  predicate SomeStatus(record: ChainRecord, status: TerminalStatus) {
    exists n :: n in record.plan.nodes && n.id in record.nodeOutcomes && record.nodeOutcomes[n.id].status == status
  }

  predicate AllSealed(record: ChainRecord) {
    forall n :: n in record.plan.nodes ==> n.id in record.nodeOutcomes
  }

  /** The status is read off the nodes of the plan alone, an escalation before a failure: each status holds in one case exactly. */
  lemma StatusIsExact(record: ChainRecord)
    ensures DeriveChainStatus(record) == AwaitingPlanApproval <==> SomeVerdict(record, Escalate)
    ensures DeriveChainStatus(record) == ChainFailed <==> !SomeVerdict(record, Escalate) && SomeStatus(record, Failed)
    ensures DeriveChainStatus(record) == ChainSuccess <==>
            !SomeVerdict(record, Escalate) && !SomeStatus(record, Failed) && AllSealed(record)
    ensures DeriveChainStatus(record) == Running <==>
            !SomeVerdict(record, Escalate) && !SomeStatus(record, Failed) && !AllSealed(record)
  {
    forall n | n in record.plan.nodes
      ensures n.id in NodeIds(record.plan)
    {
    }
    assert AnyEscalated(record) <==> SomeVerdict(record, Escalate);
    assert AnyFailed(record) <==> SomeStatus(record, Failed);
    assert !AnyFailed(record) ==> (AllSucceeded(record) <==> AllSealed(record));
  }

  function AdvanceChain(record: ChainRecord, nodeId: string, outcome: NodeOutcome): ChainRecord {
    var next := record.(nodeOutcomes := record.nodeOutcomes[nodeId := outcome]);
    next.(status := DeriveChainStatus(next))
  }

  function Filter(nodes: seq<PlanNode>, keep: PlanNode -> bool): (kept: seq<PlanNode>)
    ensures forall n :: n in kept <==> n in nodes && keep(n)
  {
    if nodes == [] then []
    else (if keep(nodes[0]) then [nodes[0]] else []) + Filter(nodes[1..], keep)
  }

  function ReadyNodes(plan: Plan, done: set<string>): seq<PlanNode> {
    Filter(plan.nodes, (n: PlanNode) => n.id !in done && forall d :: d in n.dependsOn ==> d in done)
  }

  function SucceededIds(record: ChainRecord): set<string> {
    set id | id in record.nodeOutcomes && record.nodeOutcomes[id].status == Success
  }

  /** The nodes the dispatch loop may start: ready, and not sealed in any way. */
  function Dispatchable(record: ChainRecord): seq<PlanNode> {
    Filter(ReadyNodes(record.plan, SucceededIds(record)), (n: PlanNode) => n.id !in record.nodeOutcomes)
  }

  lemma DispatchableMeaning(record: ChainRecord, n: PlanNode)
    ensures n in Dispatchable(record) <==>
            && n in record.plan.nodes
            && n.id !in record.nodeOutcomes
            && forall d :: d in n.dependsOn ==> SealedWith(record, d, Success)
  {
    assert forall d :: d in SucceededIds(record) <==> SealedWith(record, d, Success);
  }
}
