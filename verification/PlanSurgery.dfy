/** Replacing a failed node, in place, by a retry node that carries the failure evidence. */
module PlanSurgery {
  import opened Graph
  import opened Text
  import opened Lineage
  import opened ChainTypes

  const MAX_REPLAN_BRIEF_CHARS: nat := 2000

  function FailureLine(failureReason: string): (reason: string)
    ensures reason != ""
  {
    if OneLine(failureReason) == "" then "unknown" else OneLine(failureReason)
  }

  function BriefText(failedNodeId: string, reason: string): string {
    Join([
      "REPLAN BRIEF — node " + failedNodeId + " failed; one bounded retry is granted with its failure evidence.",
      "previous failure: " + reason,
      "the retry must satisfy every acceptance criterion the failed attempt left unmet, "
      + "without regressing the sealed predecessor nodes."], "\n")
  }

  function BuildReplanBrief(failedNodeId: string, failureReason: string): (brief: string)
    ensures |brief| <= MAX_REPLAN_BRIEF_CHARS
  {
    Clamp(BriefText(failedNodeId, FailureLine(failureReason)), MAX_REPLAN_BRIEF_CHARS)
  }

  lemma TextTells(failedNodeId: string, reason: string)
    ensures Occurs(failedNodeId, BriefText(failedNodeId, reason))
    ensures Occurs("previous failure: " + reason, BriefText(failedNodeId, reason))
    ensures |BriefText(failedNodeId, reason)| <= |failedNodeId| + |reason| + 300
  {
    var first := "REPLAN BRIEF — node " + failedNodeId + " failed; one bounded retry is granted with its failure evidence.";
    var second := "previous failure: " + reason;
    var third := "the retry must satisfy every acceptance criterion the failed attempt left unmet, "
                 + "without regressing the sealed predecessor nodes.";
    PartOccurs([first, second, third], 0, "\n", "REPLAN BRIEF — node ", failedNodeId,
               " failed; one bounded retry is granted with its failure evidence.");
    PartsOccur([first, second, third], 1, "\n");
    assert Join([second, third], "\n") == second + "\n" + third;
  }

  /** Whenever the brief fits its limit it names the failed node and gives the failure reason whole, its words on one line, or
      says that it is unknown; and it fits unless node id or reason are long. */
  lemma BriefGivesReason(failedNodeId: string, failureReason: string)
    ensures var brief := BuildReplanBrief(failedNodeId, failureReason);
            |brief| < MAX_REPLAN_BRIEF_CHARS ==>
              && Occurs(failedNodeId, brief)
              && Occurs("previous failure: " + (if Words(failureReason) == [] then "unknown" else Join(Words(failureReason), " ")),
                        brief)
    ensures |failedNodeId| + |Join(Words(failureReason), " ")| <= 1690 ==>
              |BuildReplanBrief(failedNodeId, failureReason)| < MAX_REPLAN_BRIEF_CHARS
  {
    OneLineIsItsWords(failureReason);
    TextTells(failedNodeId, FailureLine(failureReason));
    hide BriefText, Occurs, Words, OneLine, Join;
  }

  function FindNode(nodes: seq<PlanNode>, id: string): (found: Option<PlanNode>)
    ensures found.None? <==> forall n :: n in nodes ==> n.id != id
    ensures found.Some? ==> found.value in nodes && found.value.id == id
  {
    if nodes == [] then None
    else if nodes[0].id == id then Some(nodes[0])
    else FindNode(nodes[1..], id)
  }

  function Rewire(dependsOn: seq<string>, failedNodeId: string, retryId: string): (r: seq<string>)
    ensures |r| == |dependsOn|
    ensures forall i :: 0 <= i < |r| ==> r[i] == if dependsOn[i] == failedNodeId then retryId else dependsOn[i]
  {
    seq(|dependsOn|, i requires 0 <= i < |dependsOn| => if dependsOn[i] == failedNodeId then retryId else dependsOn[i])
  }

  function RetryNode(failed: PlanNode, retryId: string, brief: string): PlanNode {
    failed.(id := retryId, goal := failed.goal + "\n\n" + brief)
  }

  /** The failed node's place is taken by the retry; every other node only has its dependencies rewired. */
  function Splice(nodes: seq<PlanNode>, failedNodeId: string, retry: PlanNode): (r: seq<PlanNode>)
    ensures |r| == |nodes|
    ensures forall i :: 0 <= i < |r| ==> r[i].id == After(failedNodeId, retry.id, nodes[i].id)
    ensures forall i :: 0 <= i < |r| && nodes[i].id == failedNodeId ==> r[i] == retry
    ensures forall i :: 0 <= i < |r| && nodes[i].id != failedNodeId ==>
            r[i] == nodes[i].(dependsOn := Rewire(nodes[i].dependsOn, failedNodeId, retry.id))
  {
    if nodes == [] then []
    else
      var n := nodes[0];
      [if n.id == failedNodeId then retry else n.(dependsOn := Rewire(n.dependsOn, failedNodeId, retry.id))]
      + Splice(nodes[1..], failedNodeId, retry)
  }

  lemma {:induction false} FoundAt(nodes: seq<PlanNode>, f: nat)
    requires f < |nodes| && forall j :: 0 <= j < f ==> nodes[j].id != nodes[f].id
    ensures FindNode(nodes, nodes[f].id) == Some(nodes[f])
  {
    if f > 0 { FoundAt(nodes[1..], f - 1); }
  }

  /** `None` is the error the source throws when the failed node is not in the plan. */
  function BuildRetryPlan(plan: Plan, failedNodeId: string, failureReason: string, replanIndex: nat): Option<Plan> {
    match FindNode(plan.nodes, failedNodeId)
    case None => None
    case Some(failed) =>
      var retry := RetryNode(failed, RetryId(failedNodeId, replanIndex), BuildReplanBrief(failedNodeId, failureReason));
      Some(Plan(plan.id + "-r" + Decimal(replanIndex), plan.goal, Splice(plan.nodes, failedNodeId, retry)))
  }

  /** The name a vertex of the revised plan had before the splice. */
  function Before(failedNodeId: string, retryId: string, id: string): string {
    if id == retryId then failedNodeId else id
  }

  /** The name a vertex of the old plan has after the splice. */
  function After(failedNodeId: string, retryId: string, id: string): string {
    if id == failedNodeId then retryId else id
  }

  /** The same work: criteria, paths and budget as they were, the goal kept and perhaps added to. */
  predicate SameWork(a: PlanNode, b: PlanNode) {
    && b.acceptanceCriteria == a.acceptanceCriteria && b.writeSet == a.writeSet && b.budgetUsd == a.budgetUsd
    && a.goal <= b.goal
  }

  ghost predicate KeepsWork(plan: Plan, revised: Plan) {
    && revised.goal == plan.goal
    && |revised.nodes| == |plan.nodes|
    && forall i :: 0 <= i < |plan.nodes| ==> SameWork(plan.nodes[i], revised.nodes[i])
  }

  /** `revised` is `plan` with the node at `f` renamed and every other node rewired onto the new name. */
  ghost predicate Spliced(plan: Plan, revised: Plan, f: nat, retryId: string)
    requires f < |plan.nodes|
  {
    && |revised.nodes| == |plan.nodes|
    && KeepsWork(plan, revised)
    && revised.nodes[f].dependsOn == plan.nodes[f].dependsOn
    && (forall i :: 0 <= i < |plan.nodes| ==>
          revised.nodes[i].id == After(plan.nodes[f].id, retryId, plan.nodes[i].id))
    && (forall i :: 0 <= i < |plan.nodes| && i != f ==>
          revised.nodes[i].dependsOn == Rewire(plan.nodes[i].dependsOn, plan.nodes[f].id, retryId))
  }

  /** What a splice at position `f` does to every position of the plan. */
  lemma SplicePositions(plan: Plan, f: nat, reason: string, n: nat)
    requires UniqueIds(plan) && f < |plan.nodes|
    ensures BuildRetryPlan(plan, plan.nodes[f].id, reason, n).Some?
    ensures Spliced(plan, BuildRetryPlan(plan, plan.nodes[f].id, reason, n).value, f, RetryId(plan.nodes[f].id, n))
  {
    hide BuildReplanBrief;
    assert plan.nodes[f] in plan.nodes;
  }

  /** `retry` is the failed node under a new id: same dependencies, criteria, paths and budget, the brief appended to its goal. */
  predicate Retries(failed: PlanNode, retry: PlanNode, brief: string) {
    && StripRetry(retry.id) == failed.id
    && retry.dependsOn == failed.dependsOn && retry.acceptanceCriteria == failed.acceptanceCriteria
    && retry.writeSet == failed.writeSet && retry.budgetUsd == failed.budgetUsd
    && retry.goal == failed.goal + "\n\n" + brief
  }

  /** `revised` has the retry in the failed node's place, and every other node with all but the renamed dependency. */
  ghost predicate RetriedAt(plan: Plan, revised: Plan, f: nat, brief: string)
    requires f < |plan.nodes|
  {
    var id := plan.nodes[f].id;
    && revised.goal == plan.goal && StripRetry(revised.id) == plan.id && |revised.nodes| == |plan.nodes|
    && Retries(plan.nodes[f], revised.nodes[f], brief)
    && forall i :: 0 <= i < |plan.nodes| && plan.nodes[i].id != id ==>
         revised.nodes[i] == plan.nodes[i].(dependsOn := Rewire(plan.nodes[i].dependsOn, id, revised.nodes[f].id))
  }

  /** The failed node is retried in its place, whatever its reason. */
  lemma RetryKeepsWork(plan: Plan, f: nat, reason: string, n: nat)
    requires f < |plan.nodes| && forall j :: 0 <= j < f ==> plan.nodes[j].id != plan.nodes[f].id
    ensures BuildRetryPlan(plan, plan.nodes[f].id, reason, n).Some?
    ensures RetriedAt(plan, BuildRetryPlan(plan, plan.nodes[f].id, reason, n).value, f,
                      BuildReplanBrief(plan.nodes[f].id, reason))
  {
    hide BuildReplanBrief, StripRetry, Decimal;
    FoundAt(plan.nodes, f);
    RetryStrips(plan.nodes[f].id, n);
    RetryStrips(plan.id, n);
    assert plan.id + "-r" + Decimal(n) == RetryId(plan.id, n);
  }

  lemma RenamingKeepsUnique(plan: Plan, revised: Plan, f: nat, retryId: string)
    requires UniqueIds(plan) && f < |plan.nodes| && Spliced(plan, revised, f, retryId) && retryId != plan.nodes[f].id
    ensures UniqueIds(revised) <==> retryId !in NodeIds(plan)
  {
    assert revised.nodes[f].id == retryId;
    if retryId in NodeIds(plan) {
      var i :| 0 <= i < |plan.nodes| && plan.nodes[i].id == retryId;
      assert revised.nodes[i].id == retryId;
    } else {
      forall i, j | 0 <= i < j < |revised.nodes|
        ensures revised.nodes[i].id != revised.nodes[j].id
      {
        assert plan.nodes[i] in plan.nodes && plan.nodes[j] in plan.nodes;
      }
    }
  }

  /** A splice leaves every id unique exactly when the retry id it mints is not already taken. */
  lemma RetryKeepsIdsUnique(plan: Plan, f: nat, reason: string, n: nat)
    requires UniqueIds(plan) && f < |plan.nodes|
    ensures BuildRetryPlan(plan, plan.nodes[f].id, reason, n).Some?
    ensures UniqueIds(BuildRetryPlan(plan, plan.nodes[f].id, reason, n).value) <==>
            RetryId(plan.nodes[f].id, n) !in NodeIds(plan)
  {
    SplicePositions(plan, f, reason, n);
    RetryStrips(plan.nodes[f].id, n);
    RenamingKeepsUnique(plan, BuildRetryPlan(plan, plan.nodes[f].id, reason, n).value, f, RetryId(plan.nodes[f].id, n));
  }

  /** A plan whose author already used a retry-shaped id is broken by the first failure. */
  lemma RetryCollisionExample(a: PlanNode, b: PlanNode)
    requires a.id == "A" && b.id == "A-r1"
    ensures UniqueIds(Plan("p", "g", [a, b]))
    ensures !UniqueIds(BuildRetryPlan(Plan("p", "g", [a, b]), "A", "", 1).value)
  {
    var plan := Plan("p", "g", [a, b]);
    assert plan.nodes[0].id in NodeIds(plan) && plan.nodes[1].id in NodeIds(plan);
    assert RetryId("A", 1) == "A-r1";
    RetryKeepsIdsUnique(plan, 0, "", 1);
  }

  lemma IdIsAt(plan: Plan, id: string) returns (i: nat)
    requires id in NodeIds(plan)
    ensures i < |plan.nodes| && plan.nodes[i].id == id
  {
    var n :| n in plan.nodes && n.id == id;
    i :| 0 <= i < |plan.nodes| && plan.nodes[i] == n;
  }

  lemma IdAtIsIn(plan: Plan, i: nat)
    requires i < |plan.nodes|
    ensures plan.nodes[i].id in NodeIds(plan)
  {
    assert plan.nodes[i] in plan.nodes;
  }

  /** The new ids are the old ones with the failed id renamed. */
  lemma SplicedIds(plan: Plan, revised: Plan, f: nat, retryId: string)
    requires UniqueIds(plan) && f < |plan.nodes| && Spliced(plan, revised, f, retryId)
    ensures NodeIds(revised) == NodeIds(plan) - {plan.nodes[f].id} + {retryId}
  {
    forall id | id in NodeIds(revised)
      ensures id in NodeIds(plan) - {plan.nodes[f].id} + {retryId}
    {
      var i := IdIsAt(revised, id);
      IdAtIsIn(plan, i);
    }
    forall id | id in NodeIds(plan) - {plan.nodes[f].id}
      ensures id in NodeIds(revised)
    {
      var i := IdIsAt(plan, id);
      IdAtIsIn(revised, i);
    }
    IdAtIsIn(revised, f);
  }

  /** Dependencies stay inside the plan unless the failed node depended on itself: its own list is not rewired. */
  lemma SpliceKeepsClosed(plan: Plan, f: nat, reason: string, n: nat)
    requires UniqueIds(plan) && ClosedDependencies(plan) && f < |plan.nodes|
    ensures BuildRetryPlan(plan, plan.nodes[f].id, reason, n).Some?
    ensures ClosedDependencies(BuildRetryPlan(plan, plan.nodes[f].id, reason, n).value) <==>
            plan.nodes[f].id !in plan.nodes[f].dependsOn
  {
    hide BuildReplanBrief, RetryNode, KeepsWork;
    SplicePositions(plan, f, reason, n);
    var failedNodeId := plan.nodes[f].id;
    RetryStrips(failedNodeId, n);
    var revised := BuildRetryPlan(plan, failedNodeId, reason, n).value;
    SplicedIds(plan, revised, f, RetryId(failedNodeId, n));
    assert failedNodeId !in NodeIds(revised);
    if failedNodeId !in plan.nodes[f].dependsOn {
      forall i, d | 0 <= i < |revised.nodes| && d in revised.nodes[i].dependsOn
        ensures d in NodeIds(revised)
      {
        if i != f {
          var k :| 0 <= k < |revised.nodes[i].dependsOn| && revised.nodes[i].dependsOn[k] == d;
          assert plan.nodes[i].dependsOn[k] in NodeIds(plan);
        }
      }
    }
  }

  /** Every dependency of the revised plan renames to a dependency of the old one. */
  lemma SpliceEdges(plan: Plan, revised: Plan, f: nat, retryId: string, a: string, b: string)
    requires UniqueIds(plan) && ClosedDependencies(plan) && f < |plan.nodes|
    requires Spliced(plan, revised, f, retryId) && retryId !in NodeIds(plan) && UniqueIds(revised)
    requires Edge(DependencyGraph(revised.nodes), a, b)
    ensures Edge(DependencyGraph(plan.nodes), Before(plan.nodes[f].id, retryId, a), Before(plan.nodes[f].id, retryId, b))
  {
    hide DependencyGraph, Edge;
    EdgeMeaning(revised, a, b);
    var i :| 0 <= i < |revised.nodes| && revised.nodes[i].id == a && b in revised.nodes[i].dependsOn;
    var k :| 0 <= k < |revised.nodes[i].dependsOn| && revised.nodes[i].dependsOn[k] == b;
    assert plan.nodes[i] in plan.nodes && plan.nodes[f] in plan.nodes;
    var d := plan.nodes[i].dependsOn[k];
    assert d in plan.nodes[i].dependsOn && d in NodeIds(plan);
    EdgeMeaning(plan, plan.nodes[i].id, d);
  }

  /** With a fresh retry id, a splice keeps length and unique ids, and acyclicity of an acyclic plan. */
  lemma SpliceKeepsShape(plan: Plan, f: nat, reason: string, n: nat)
    requires UniqueIds(plan) && ClosedDependencies(plan) && f < |plan.nodes|
    requires RetryId(plan.nodes[f].id, n) !in NodeIds(plan)
    ensures BuildRetryPlan(plan, plan.nodes[f].id, reason, n).Some?
    ensures var revised := BuildRetryPlan(plan, plan.nodes[f].id, reason, n).value;
            && |revised.nodes| == |plan.nodes|
            && UniqueIds(revised)
            && (AcyclicPlan(plan) ==> AcyclicPlan(revised))
  {
    var failedNodeId := plan.nodes[f].id;
    var retryId := RetryId(failedNodeId, n);
    assert plan.nodes[f] in plan.nodes;
    RetryKeepsIdsUnique(plan, f, reason, n);
    SplicePositions(plan, f, reason, n);
    var revised := BuildRetryPlan(plan, failedNodeId, reason, n).value;
    var g, h := DependencyGraph(plan.nodes), DependencyGraph(revised.nodes);
    var rename := (id: string) => Before(failedNodeId, retryId, id);
    forall x, y | Edge(h, x, y)
      ensures Edge(g, rename(x), rename(y))
    {
      SpliceEdges(plan, revised, f, retryId, x, y);
    }
    forall a | OnCycle(h, a)
      ensures OnCycle(g, rename(a))
    {
      ImageOfCycle(h, g, rename, a);
    }
  }
}
