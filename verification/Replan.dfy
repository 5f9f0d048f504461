/** The two heal budgets: re-entering a child, and replacing a failed node. */
module Replan {
  import opened Text
  import opened Lineage
  import opened ChainTypes
  import opened Reducer

  const MAX_CHILD_RESUMES_PER_NODE: nat := 1

  datatype NodeHeal = ResumeChild(attempt: nat, reason: string) | ReplanNode(reason: string)

  function DecideNodeHeal(childStatus: TerminalStatus, childResumable: bool, resumesUsed: nat, maxResumes: nat): NodeHeal {
    if childStatus != Failed then ReplanNode("node did not fail")
    else if !childResumable then ReplanNode("child sealed a dead FAILED — nothing to re-enter")
    else if resumesUsed >= maxResumes then
      ReplanNode("child resume budget spent (" + Decimal(resumesUsed) + "/" + Decimal(maxResumes) + ")")
    else
      ResumeChild(resumesUsed + 1,
                  "re-entering the resumable child run (attempt " + Decimal(resumesUsed + 1) + "/" + Decimal(maxResumes)
                  + ") — its checkpoint and failure evidence are preserved")
  }

  datatype ReplanBounds = ReplanBounds(maxPerNode: int, maxChain: int)

  datatype ReplanDecision =
    | GrantReplan(reason: string, failedNodeId: string, remainingNodeIds: seq<string>, replansUsed: nat, maxReplans: nat)
    | HaltChain(reason: string, failed: Option<string>, remainingNodeIds: seq<string>, replansUsed: nat, maxReplans: nat)

  function Bounded(value: int): nat {
    if value > 0 then value else 0
  }

  function FailedIds(record: ChainRecord): set<string> {
    set id | id in record.nodeOutcomes && record.nodeOutcomes[id].status == Failed
  }

  /** Failed attempts a lineage has on record, spliced-out incarnations included. */
  function LineageFailures(record: ChainRecord, root: string): set<string> {
    set id | id in FailedIds(record) && LineageRoot(id) == root
  }

  /** Failed nodes the current plan still contains. */
  function LiveFailures(record: ChainRecord): set<string> {
    FailedIds(record) * NodeIds(record.plan)
  }

  function RemainingIds(nodes: seq<PlanNode>, sealed: set<string>): seq<string> {
    if nodes == [] then []
    else (if nodes[0].id in sealed then [] else [nodes[0].id]) + RemainingIds(nodes[1..], sealed)
  }

  /** Bounds sized to what is already spent, for one operator-granted attempt. */
  function ResumeGrantBounds(record: ChainRecord, failedNodeId: string): ReplanBounds {
    ReplanBounds(|LineageFailures(record, LineageRoot(failedNodeId))|, |LiveFailures(record)|)
  }

  function DecideReplan(record: ChainRecord, failedNodeId: string, bounds: ReplanBounds): ReplanDecision {
    var maxPerNode := Bounded(bounds.maxPerNode);
    var maxChain := Bounded(bounds.maxChain);
    var remaining := RemainingIds(record.plan.nodes, record.nodeOutcomes.Keys);
    var lineage := LineageRoot(failedNodeId);
    var lineageFailures := |LineageFailures(record, lineage)|;
    var liveChainFailures := |LiveFailures(record)|;
    if !SealedWith(record, failedNodeId, Failed) then
      HaltChain("no failed node outcome is sealed for the requested node", None, remaining, liveChainFailures, maxChain)
    else if lineageFailures > maxPerNode then
      HaltChain("replan budget exhausted for node " + lineage + ": " + Decimal(lineageFailures)
                + " failed attempt(s) exceeds max " + Decimal(maxPerNode) + " per node",
                Some(failedNodeId), remaining, lineageFailures, maxPerNode)
    else if liveChainFailures > maxChain then
      HaltChain("replan budget exhausted: " + Decimal(liveChainFailures) + " failed node(s) exceeds max " + Decimal(maxChain),
                Some(failedNodeId), remaining, liveChainFailures, maxChain)
    else
      GrantReplan("failed node " + failedNodeId + " is within replan budget " + Decimal(lineageFailures) + "/" + Decimal(maxPerNode),
                  failedNodeId, remaining, lineageFailures, maxPerNode)
  }

  /** The operator's grant is always accepted, whatever has been spent before. */
  lemma ResumeGrantIsAccepted(record: ChainRecord, failedNodeId: string)
    requires SealedWith(record, failedNodeId, Failed)
    ensures DecideReplan(record, failedNodeId, ResumeGrantBounds(record, failedNodeId)).GrantReplan?
  {
  }

  /** No smaller bounds would do: whatever grants the attempt is at least what has been spent, per node and in all. */
  lemma ResumeGrantIsLeast(record: ChainRecord, failedNodeId: string, bounds: ReplanBounds)
    requires SealedWith(record, failedNodeId, Failed)
    ensures var grant := ResumeGrantBounds(record, failedNodeId);
            DecideReplan(record, failedNodeId, bounds).GrantReplan? <==>
              Bounded(bounds.maxPerNode) >= grant.maxPerNode && Bounded(bounds.maxChain) >= grant.maxChain
  {
    hide Decimal, LineageFailures, LiveFailures, LineageRoot, RemainingIds;
  }

  lemma {:induction false} RemainingMeans(nodes: seq<PlanNode>, sealed: set<string>, id: string)
    ensures id in RemainingIds(nodes, sealed) <==> id !in sealed && exists n :: n in nodes && n.id == id
  {
    if nodes != [] {
      RemainingMeans(nodes[1..], sealed, id);
      assert nodes == [nodes[0]] + nodes[1..];
    }
  }

  /** Unsealed ids are listed node by node, in plan order. */
  lemma {:induction false} RemainingInOrder(nodes: seq<PlanNode>, last: PlanNode, sealed: set<string>)
    ensures RemainingIds(nodes + [last], sealed) == RemainingIds(nodes, sealed) + if last.id in sealed then [] else [last.id]
  {
    if nodes == [] {
      assert nodes + [last] == [last];
    } else {
      RemainingInOrder(nodes[1..], last, sealed);
      assert (nodes + [last])[1..] == nodes[1..] + [last];
    }
  }

  /** A replan is granted exactly when the node's seal is FAILED, its lineage has failed no more often than the budget per node,
      and no more active nodes are FAILED than the budget of the chain. Either way it lists the active nodes still unsealed; a
      refusal gives the count that decided and its bound, and says which lineage it was if the node's budget was. */
  lemma ReplanIsExact(record: ChainRecord, failedNodeId: string, bounds: ReplanBounds, id: string)
    ensures var decision := DecideReplan(record, failedNodeId, bounds);
            var perNode, chain := Bounded(bounds.maxPerNode), Bounded(bounds.maxChain);
            var root := LineageRoot(failedNodeId);
            var spent, live := |LineageFailures(record, root)|, |LiveFailures(record)|;
            && (id in decision.remainingNodeIds <==> id in NodeIds(record.plan) && id !in record.nodeOutcomes)
            && (decision.GrantReplan? <==> SealedWith(record, failedNodeId, Failed) && spent <= perNode && live <= chain)
            && (decision.GrantReplan? ==>
                  && decision.failedNodeId == failedNodeId
                  && (decision.replansUsed, decision.maxReplans) == (spent, perNode))
            && (decision.HaltChain? ==>
                  && (decision.failed == if SealedWith(record, failedNodeId, Failed) then Some(failedNodeId) else None)
                  && (decision.replansUsed, decision.maxReplans) ==
                     (if SealedWith(record, failedNodeId, Failed) && spent > perNode then (spent, perNode) else (live, chain))
                  && (SealedWith(record, failedNodeId, Failed) && spent > perNode ==> Occurs(root, decision.reason)))
  {
    hide Decimal, LineageFailures, LiveFailures, LineageRoot, Occurs;
    RemainingMeans(record.plan.nodes, record.nodeOutcomes.Keys, id);
    var root := LineageRoot(failedNodeId);
    var decision := DecideReplan(record, failedNodeId, bounds);
    if SealedWith(record, failedNodeId, Failed) && |LineageFailures(record, root)| > Bounded(bounds.maxPerNode) {
      var after := ": " + Decimal(|LineageFailures(record, root)|) + " failed attempt(s) exceeds max "
                   + Decimal(Bounded(bounds.maxPerNode)) + " per node";
      OccursWithin("replan budget exhausted for node ", root, after);
      assert decision.reason == "replan budget exhausted for node " + root + after;
    }
  }
}
