/** The values a chain is made of: its plan, what its nodes sealed, and its record. */
module ChainTypes {
  import opened Graph

  datatype Option<+T> = None | Some(value: T)

  datatype VerdictKind = Proceed | Rollback | Halt | Escalate | Branch

  datatype TerminalStatus = Success | Failed

  datatype RunStatus =
    RunRunning | RunAwaitingApproval | RunSuspended | RunSuccess | RunFailed | RunCancelled

  datatype ChainStatus =
    Planning | AwaitingPlanApproval | Running | Suspended | ChainSuccess | ChainFailed | ChainCancelled

  datatype PlanNode = PlanNode(
    id: string,
    goal: string,
    acceptanceCriteria: seq<string>,
    dependsOn: seq<string>,
    writeSet: Option<seq<string>>,
    budgetUsd: real)

  datatype Plan = Plan(id: string, goal: string, nodes: seq<PlanNode>)

  datatype NodeOutcome = NodeOutcome(
    status: TerminalStatus,
    verdict: VerdictKind,
    inconclusiveCheck: Option<string>)

  datatype ChainRecord = ChainRecord(
    planId: string,
    plan: Plan,
    nodeRuns: map<string, string>,
    nodeOutcomes: map<string, NodeOutcome>,
    nodeHandoffs: map<string, string>,
    status: ChainStatus)

  function NodeIds(plan: Plan): set<string> {
    set n | n in plan.nodes :: n.id
  }

  predicate UniqueIds(plan: Plan) {
    forall i, j :: 0 <= i < j < |plan.nodes| ==> plan.nodes[i].id != plan.nodes[j].id
  }

  /** What the planner's assembly step demands of every `dependsOn` entry. */
  predicate ClosedDependencies(plan: Plan) {
    forall i :: 0 <= i < |plan.nodes| ==>
      forall d :: d in plan.nodes[i].dependsOn ==> d in NodeIds(plan)
  }

  /** The plan read as a graph; where an id is repeated its last node counts. */
  function DependencyGraph(nodes: seq<PlanNode>): Deps {
    if nodes == [] then map[]
    else
      var last := nodes[|nodes| - 1];
      DependencyGraph(nodes[..|nodes| - 1])[last.id := last.dependsOn]
  }

  lemma {:induction false} GraphKeys(nodes: seq<PlanNode>)
    ensures DependencyGraph(nodes).Keys == set n | n in nodes :: n.id
  {
    if nodes != [] {
      var front := nodes[..|nodes| - 1];
      GraphKeys(front);
      assert nodes == front + [nodes[|nodes| - 1]];
    }
  }

  lemma {:induction false} GraphLookup(nodes: seq<PlanNode>, i: nat)
    requires i < |nodes|
    requires forall j :: i < j < |nodes| ==> nodes[j].id != nodes[i].id
    ensures nodes[i].id in DependencyGraph(nodes)
    ensures DependencyGraph(nodes)[nodes[i].id] == nodes[i].dependsOn
  {
    if i < |nodes| - 1 {
      GraphLookup(nodes[..|nodes| - 1], i);
    }
  }

  /** In a plan without repeated ids, edges are exactly the declared dependencies. */
  lemma EdgeMeaning(plan: Plan, a: string, b: string)
    requires UniqueIds(plan)
    ensures Edge(DependencyGraph(plan.nodes), a, b) <==>
            exists i :: 0 <= i < |plan.nodes| && plan.nodes[i].id == a && b in plan.nodes[i].dependsOn
  {
    GraphKeys(plan.nodes);
    forall i | 0 <= i < |plan.nodes|
      ensures DependencyGraph(plan.nodes).Keys >= {plan.nodes[i].id}
      ensures DependencyGraph(plan.nodes)[plan.nodes[i].id] == plan.nodes[i].dependsOn
    {
      GraphLookup(plan.nodes, i);
    }
  }

  ghost predicate AcyclicPlan(plan: Plan) {
    Acyclic(DependencyGraph(plan.nodes))
  }
}
