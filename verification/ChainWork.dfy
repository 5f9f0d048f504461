/** The work of a chain over all its launches: every active node does the work of the planned node of its lineage. */
module ChainWork {
  import opened Lineage
  import opened ChainTypes
  import opened Reducer
  import opened Replan
  import opened PlanSurgery
  import opened Journal
  import opened Activities
  import opened ChainLoop
  import opened ChainInvariant
  import opened ChainTurn
  import opened ChainTermination
  import opened ChainGuarantees
  import opened ChainResume
  import opened ChainReentry
  import opened ChainLaunches

  /** The same dependencies, each by whatever incarnation. */
  predicate DependsAlike(a: seq<string>, b: seq<string>) {
    |a| == |b| && forall k :: 0 <= k < |a| ==> LineageRoot(b[k]) == LineageRoot(a[k])
  }

  predicate SameLineage(a: PlanNode, b: PlanNode) {
    LineageRoot(b.id) == LineageRoot(a.id) && DependsAlike(a.dependsOn, b.dependsOn)
  }

  /** Position by position the same work of the same lineage, after nodes of the same lineages. */
  ghost predicate DoesWorkOf(planned: Plan, plan: Plan) {
    && KeepsWork(planned, plan)
    && forall i :: 0 <= i < |planned.nodes| ==> SameLineage(planned.nodes[i], plan.nodes[i])
  }

  lemma WorkIsItsOwn(plan: Plan)
    ensures DoesWorkOf(plan, plan)
  {
    hide LineageRoot;
  }

  lemma WorkOn(a: Plan, b: Plan, c: Plan)
    requires DoesWorkOf(a, b) && DoesWorkOf(b, c)
    ensures DoesWorkOf(a, c)
  {
    hide LineageRoot;
    forall i | 0 <= i < |a.nodes|
      ensures SameWork(a.nodes[i], c.nodes[i]) && SameLineage(a.nodes[i], c.nodes[i])
    {
      assert SameWork(a.nodes[i], b.nodes[i]) && SameWork(b.nodes[i], c.nodes[i]);
      assert SameLineage(a.nodes[i], b.nodes[i]) && SameLineage(b.nodes[i], c.nodes[i]);
      assert a.nodes[i].goal <= b.nodes[i].goal <= c.nodes[i].goal;
    }
  }

  lemma SplicedDoesWork(plan: Plan, revised: Plan, f: nat, retryId: string)
    requires f < |plan.nodes| && Spliced(plan, revised, f, retryId)
    requires LineageRoot(retryId) == LineageRoot(plan.nodes[f].id)
    ensures DoesWorkOf(plan, revised)
  {
    hide LineageRoot, KeepsWork;
    forall i | 0 <= i < |plan.nodes|
      ensures SameLineage(plan.nodes[i], revised.nodes[i])
    {
      if i != f { assert revised.nodes[i].dependsOn == Rewire(plan.nodes[i].dependsOn, plan.nodes[f].id, retryId); }
    }
  }

  lemma SpliceDoesWork(r: ChainRecord, h: ChainRecord, f: nat)
    requires f < |r.plan.nodes| && SplicedRecord(r, h, f, NextRetry(r, r.plan.nodes[f].id))
    ensures DoesWorkOf(r.plan, h.plan)
  {
    RetryStrips(r.plan.nodes[f].id, |LineageFailures(r, LineageRoot(r.plan.nodes[f].id))|);
    hide Spliced, LineageRoot, LineageFailures, RetryId;
    SplicedDoesWork(r.plan, h.plan, f, NextRetry(r, r.plan.nodes[f].id));
  }

  lemma FailureDoesWork(input: ChainInput, s: LoopState, n: PlanNode, reason: Option<string>)
    requires RecordInv(input.chainId, s.record) && n in s.record.plan.nodes && SealedWith(s.record, n.id, Failed)
    ensures DoesWorkOf(s.record.plan, AfterFailure(input, s, n.id, reason).record.plan)
  {
    hide RecordInv, SpliceRetry, LineageFailures, NextRetry, LiveFailures, BuildRetryPlan, BuildReplanBrief, DoesWorkOf;
    hide SplicedRecord;
    WorkIsItsOwn(s.record.plan);
    var decision := DecideReplan(s.record, n.id, LoopBounds(input));
    if decision.GrantReplan? {
      var f :| 0 <= f < |s.record.plan.nodes| && s.record.plan.nodes[f] == n;
      SpliceEffect(input, s, f, decision, reason);
      SpliceDoesWork(s.record, SpliceRetry(s, n.id, decision, reason).record, f);
    }
  }

  lemma TurnDoesWork(input: ChainInput, oracle: Oracle, s: LoopState, reopened: set<string>)
    requires Journaled(input, s, reopened)
    ensures DoesWorkOf(s.record.plan, Turn(input, oracle, s).record.plan)
  {
    hide RecordInv, StoreInv, FoldNode, RunChild, AfterFailure, Dispatchable, DoesWorkOf;
    WorkIsItsOwn(s.record.plan);
    if Dispatching(s) {
      var n := Dispatched(s);
      var child := RunChild(input, oracle, s, n.id);
      FoldKeepsJournal(input, oracle, s, n, reopened);
      if DeriveNodeOutcome(child.report).status == Failed {
        FailureDoesWork(input, FoldNode(input, s, n.id, child), n, child.report.reason);
      }
    }
  }

  lemma {:induction false} RunDoesWork(input: ChainInput, oracle: Oracle, s: LoopState, k: nat, reopened: set<string>)
    requires Journaled(input, s, reopened)
    ensures DoesWorkOf(s.record.plan, StateAt(input, oracle, s, k).record.plan)
  {
    hide Turn, Journaled, DoesWorkOf;
    if k == 0 {
      WorkIsItsOwn(s.record.plan);
    } else {
      var before := StateAt(input, oracle, s, k - 1);
      RunDoesWork(input, oracle, s, k - 1, reopened);
      RunKeepsJournal(input, oracle, s, k - 1, reopened);
      TurnDoesWork(input, oracle, before, reopened);
      WorkOn(s.record.plan, before.record.plan, Turn(input, oracle, before).record.plan);
    }
  }

  lemma HealDoesWork(r: ChainRecord, h: ChainRecord, lastReport: ChildReport)
    requires HealedTo(r, h, lastReport)
    ensures DoesWorkOf(r.plan, h.plan)
  {
    hide NextRetry, DeriveChainStatus, FirstFailed, DoesWorkOf, SplicedRecord;
    WorkIsItsOwn(r.plan);
    var failed := FirstFailed(r, r.plan.nodes);
    if failed.Some? && !Reenters(r, failed.value, lastReport) {
      var f: nat :| f < |r.plan.nodes| && r.plan.nodes[f].id == failed.value && SplicedRecord(r, h, f, NextRetry(r, failed.value));
      SpliceDoesWork(r, h, f);
    }
  }

  lemma RecordedPlan(live: ChainRecord, r: ChainRecord, reopened: set<string>)
    requires RecordedAs(live, r, reopened)
    ensures r.plan == live.plan
  {
  }

  lemma {:induction false} WorkIsHandedOver(ls: seq<Launch>)
    requires OneChain(ls) && |ls| > 1
    ensures DoesWorkOf(EndOf(ls[..|ls| - 1]).record.plan, StartOf(ls).record.plan)
  {
    var front, l := ls[..|ls| - 1], ls[|ls| - 1];
    hide StartOf, EndOf, Restorable, HealedTo, RecordedAs, RecordInv, StoreBefore, ReenteredAt, OneChain, ChainRecordOf;
    hide StoreInv, ReenteredIds, DoesWorkOf;
    Handover(ls);
    RecordedPlan(EndOf(front).record, JournalRecord(StoreBefore(ls)), ReenteredAt(front));
    HealDoesWork(JournalRecord(StoreBefore(ls)), StartOf(ls).record, l.lastReport);
  }

  lemma {:induction false} FirstDoesWork(ls: seq<Launch>)
    requires OneChain(ls) && |ls| == 1
    ensures DoesWorkOf(ls[0].input.plan, StartOf(ls).record.plan)
  {
    hide StartOf, ReenteredAt, OneChain, DoesWorkOf;
    FirstParts(ls);
    WorkIsItsOwn(ls[0].input.plan);
  }

  lemma {:induction false} LaunchesDoWork(ls: seq<Launch>, k: nat)
    requires OneChain(ls)
    ensures DoesWorkOf(ls[0].input.plan, ChainAt(ls, k).record.plan)
    decreases |ls|
  {
    var l, planned, started := ls[|ls| - 1], ls[0].input.plan, StartOf(ls).record.plan;
    assert ChainAt(ls, k) == StateAt(l.input, l.oracle, StartOf(ls), k);
    hide *;
    if |ls| == 1 {
      FirstDoesWork(ls);
    } else {
      var front := ls[..|ls| - 1];
      LaterParts(ls);
      LaunchesDoWork(front, DispatchBound(front[|front| - 1].input, StartOf(front).record) + 1);
      EndIsState(front);
      WorkIsHandedOver(ls);
      WorkOn(planned, EndOf(front).record.plan, started);
    }
    StartsInStep(ls);
    RunDoesWork(l.input, l.oracle, StartOf(ls), k, ReenteredAt(ls));
    WorkOn(planned, started, ChainAt(ls, k).record.plan);
  }

  /** However often a chain is launched and whatever is replaced: every active node has the acceptance criteria, the write set
      and the budget of the planned node of its lineage, depends on the same lineages, and its goal begins with the planned
      one; no planned node is ever without its active one. */
  lemma {:induction false} ActiveNodesDoThePlannedWork(ls: seq<Launch>, k: nat, i: nat)
    requires OneChain(ls) && i < |ls[0].input.plan.nodes|
    ensures var plan, planned := ChainAt(ls, k).record.plan, ls[0].input.plan.nodes[i];
            && plan.goal == ls[0].input.plan.goal && |plan.nodes| == |ls[0].input.plan.nodes|
            && var n := plan.nodes[i];
            && LineageRoot(n.id) == planned.id
            && n.acceptanceCriteria == planned.acceptanceCriteria && n.writeSet == planned.writeSet
            && n.budgetUsd == planned.budgetUsd && planned.goal <= n.goal
            && |n.dependsOn| == |planned.dependsOn|
            && forall d :: 0 <= d < |n.dependsOn| ==> LineageRoot(n.dependsOn[d]) == planned.dependsOn[d]
  {
    hide StartOf, ChainAt, LineageRoot;
    LaunchesDoWork(ls, k);
    var planned := ls[0].input.plan.nodes[i];
    assert SameWork(planned, ChainAt(ls, k).record.plan.nodes[i]) && SameLineage(planned, ChainAt(ls, k).record.plan.nodes[i]);
    PlannedAreRoots(ls[0].input.plan, i);
  }

  lemma PlannedAreRoots(plan: Plan, i: nat)
    requires LaunchablePlan(plan) && i < |plan.nodes|
    ensures LineageRoot(plan.nodes[i].id) == plan.nodes[i].id
    ensures forall d :: 0 <= d < |plan.nodes[i].dependsOn| ==> LineageRoot(plan.nodes[i].dependsOn[d]) == plan.nodes[i].dependsOn[d]
  {
    assert plan.nodes[i] in plan.nodes;
    forall d | 0 <= d < |plan.nodes[i].dependsOn|
      ensures LineageRoot(plan.nodes[i].dependsOn[d]) == plan.nodes[i].dependsOn[d]
    {
      assert plan.nodes[i].dependsOn[d] in NodeIds(plan);
    }
  }
}
