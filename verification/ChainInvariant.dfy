/** What every turn of the chain keeps: the shape of the plan, the lineages, the status, and the journal. */
module ChainInvariant {
  import opened Graph
  import opened Text
  import opened Lineage
  import opened ChainTypes
  import opened Reducer
  import opened Replan
  import opened PlanSurgery
  import opened Journal
  import opened Activities
  import opened ChainLoop

  // ---- The record ----

  predicate RootsDistinct(plan: Plan) {
    forall i, j :: 0 <= i < j < |plan.nodes| ==> LineageRoot(plan.nodes[i].id) != LineageRoot(plan.nodes[j].id)
  }

  /** The other sealed ids of a node's lineage. */
  function Spent(record: ChainRecord, id: string): set<string> {
    set x | x in record.nodeOutcomes && LineageRoot(x) == LineageRoot(id) && x != id
  }

  /** The plan holds the latest incarnation of the lineage, and every earlier one is on record as FAILED. */
  ghost predicate Incarnated(record: ChainRecord, id: string) {
    var root, spent := LineageRoot(id), Spent(record, id);
    && StripRetry(root) == root
    && spent == Incarnations(root, |spent|)
    && id == Incarnation(root, |spent|)
    && forall x :: x in spent ==> SealedWith(record, x, Failed)
  }

  predicate DependenciesSucceeded(record: ChainRecord, n: PlanNode) {
    forall d :: d in n.dependsOn ==> SealedWith(record, d, Success)
  }

  /** Whatever is sealed was sealed after everything it depends on. */
  ghost predicate SealedInOrder(record: ChainRecord) {
    forall n :: n in record.plan.nodes && n.id in record.nodeOutcomes ==> DependenciesSucceeded(record, n)
  }

  /** What holds of every record, live or rebuilt, of every launch. */
  ghost predicate RecordInv(chainId: string, record: ChainRecord) {
    && record.planId == record.plan.id
    && RootsDistinct(record.plan)
    && ClosedDependencies(record.plan)
    && (forall id :: id in NodeIds(record.plan) ==> Incarnated(record, id))
    && (forall n :: n in record.plan.nodes && n.id in record.nodeOutcomes ==> n.id !in n.dependsOn)
    && (forall id :: id in record.nodeRuns ==> record.nodeRuns[id] == ChildRunId(chainId, id))
  }

  lemma OneActivePerLineage(plan: Plan, a: string, b: string)
    requires RootsDistinct(plan) && a in NodeIds(plan) && b in NodeIds(plan)
    ensures UniqueIds(plan)
    ensures LineageRoot(a) == LineageRoot(b) ==> a == b
  {
    var i := IdIsAt(plan, a);
    var j := IdIsAt(plan, b);
  }

  /** `r'` is `r` with the outcome of the active, so far unsealed node `id` added. */
  ghost predicate SealedOne(chainId: string, r: ChainRecord, r': ChainRecord, id: string) {
    && r'.plan == r.plan && r'.planId == r.planId
    && id in NodeIds(r.plan) && id !in r.nodeOutcomes
    && r'.nodeOutcomes.Keys == r.nodeOutcomes.Keys + {id}
    && (forall x :: x in r.nodeOutcomes ==> r'.nodeOutcomes[x] == r.nodeOutcomes[x])
    && r'.nodeRuns == r.nodeRuns[id := ChildRunId(chainId, id)]
  }

  lemma SealKeepsIncarnated(chainId: string, r: ChainRecord, r': ChainRecord, id: string, x: string)
    requires SealedOne(chainId, r, r', id)
    requires RootsDistinct(r.plan) && x in NodeIds(r.plan) && Incarnated(r, x)
    ensures Spent(r', x) == Spent(r, x) && Incarnated(r', x)
  {
    OneActivePerLineage(r.plan, x, id);
    assert Spent(r', x) == Spent(r, x);
  }

  lemma SealKeepsOrder(chainId: string, r: ChainRecord, r': ChainRecord, n: PlanNode)
    requires SealedOne(chainId, r, r', n.id) && RootsDistinct(r.plan)
    requires n in r.plan.nodes && DependenciesSucceeded(r, n) && SealedInOrder(r)
    ensures SealedInOrder(r')
  {
    forall m | m in r'.plan.nodes && m.id in r'.nodeOutcomes
      ensures DependenciesSucceeded(r', m)
    {
      if m.id == n.id {
        SameNode(r.plan, m, n);
      }
    }
  }

  /** Sealing one more active node keeps the record's invariant. */
  lemma SealKeepsRecord(chainId: string, r: ChainRecord, r': ChainRecord, n: PlanNode)
    requires RecordInv(chainId, r) && n in r.plan.nodes && DependenciesSucceeded(r, n)
    requires SealedOne(chainId, r, r', n.id)
    ensures RecordInv(chainId, r')
    ensures forall x :: x in NodeIds(r.plan) ==> Spent(r', x) == Spent(r, x)
  {
    forall x | x in NodeIds(r.plan)
      ensures Spent(r', x) == Spent(r, x) && Incarnated(r', x)
    {
      SealKeepsIncarnated(chainId, r, r', n.id, x);
    }
    forall m | m in r'.plan.nodes && m.id in r'.nodeOutcomes
      ensures m.id !in m.dependsOn
    {
      if m.id == n.id {
        SameNode(r.plan, m, n);
      }
    }
  }

  lemma FoldSealsOne(input: ChainInput, s: LoopState, n: PlanNode, child: Attended)
    requires n in Dispatchable(s.record)
    ensures SealedOne(input.chainId, s.record, FoldNode(input, s, n.id, child).record, n.id)
    ensures n in s.record.plan.nodes && DependenciesSucceeded(s.record, n)
  {
    DispatchableMeaning(s.record, n);
  }

  /** Neither the record's nor the journal's invariant looks at the status. */
  lemma StatusIsSeparate(chainId: string, store: Store, r: ChainRecord, status: ChainStatus, reopened: set<string>)
    requires RecordInv(chainId, r) && StoreInv(store, r, reopened)
    ensures RecordInv(chainId, r.(status := status)) && StoreInv(store, r.(status := status), reopened)
  {
    hide Fold, ReplannedIds;
    var t := r.(status := status);
    assert forall x :: x in NodeIds(r.plan) && Incarnated(r, x) ==> Incarnated(t, x);
  }

  lemma SameNode(plan: Plan, a: PlanNode, b: PlanNode)
    requires RootsDistinct(plan) && a in plan.nodes && b in plan.nodes && a.id == b.id
    ensures a == b
  {
    var i :| 0 <= i < |plan.nodes| && plan.nodes[i] == a;
    var j :| 0 <= j < |plan.nodes| && plan.nodes[j] == b;
  }

  /** A lineage's failure count is its spliced-out incarnations plus the failed active one. */
  lemma LineageFailureCount(chainId: string, record: ChainRecord, id: string)
    requires RecordInv(chainId, record) && id in NodeIds(record.plan) && SealedWith(record, id, Failed)
    ensures LineageFailures(record, LineageRoot(id)) == Spent(record, id) + {id}
    ensures |LineageFailures(record, LineageRoot(id))| == |Spent(record, id)| + 1
  {
    assert Incarnated(record, id);
  }

  /** The retry id is the next incarnation, and nothing in the plan or on record has it yet. */
  lemma RetryIsFresh(chainId: string, record: ChainRecord, id: string)
    requires RecordInv(chainId, record) && id in NodeIds(record.plan) && SealedWith(record, id, Failed)
    ensures var n := |LineageFailures(record, LineageRoot(id))|;
            && RetryId(id, n) == Incarnation(LineageRoot(id), n)
            && RetryId(id, n) !in NodeIds(record.plan)
            && RetryId(id, n) !in record.nodeOutcomes
            && Incarnations(LineageRoot(id), n) == LineageFailures(record, LineageRoot(id))
  {
    LineageFailureCount(chainId, record, id);
    var root, k := LineageRoot(id), |Spent(record, id)|;
    assert Incarnated(record, id);
    RetryStrips(id, k + 1);
    IncarnationsShorter(root, k);
    var retryId := RetryId(id, k + 1);
    if retryId in NodeIds(record.plan) {
      OneActivePerLineage(record.plan, retryId, id);
    }
    assert retryId !in Spent(record, id);
  }

  /** `r'` is `r` after the failed node at `f` was replaced under the retry id. */
  ghost predicate SplicedRecord(r: ChainRecord, r': ChainRecord, f: nat, retryId: string) {
    && f < |r.plan.nodes|
    && Spliced(r.plan, r'.plan, f, retryId)
    && r'.planId == r'.plan.id
    && r'.nodeOutcomes == r.nodeOutcomes && r'.nodeRuns == r.nodeRuns
  }

  lemma SpliceKeepsIncarnated(chainId: string, r: ChainRecord, r': ChainRecord, f: nat)
    requires RecordInv(chainId, r) && f < |r.plan.nodes| && SealedWith(r, r.plan.nodes[f].id, Failed)
    requires SplicedRecord(r, r', f, NextRetry(r, r.plan.nodes[f].id))
    ensures var id := r.plan.nodes[f].id; var retryId := NextRetry(r, id);
            && NodeIds(r'.plan) == NodeIds(r.plan) - {id} + {retryId}
            && Spent(r', retryId) == Spent(r, id) + {id}
            && Incarnated(r', retryId)
            && forall x :: x in NodeIds(r.plan) && x != id ==> Spent(r', x) == Spent(r, x) && Incarnated(r', x)
  {
    hide Splice, DependencyGraph, Incarnation;
    var id := r.plan.nodes[f].id;
    var retryId := NextRetry(r, id);
    IdAtIsIn(r.plan, f);
    OneActivePerLineage(r.plan, id, id);
    RetryIsFresh(chainId, r, id);
    LineageFailureCount(chainId, r, id);
    RetryStrips(id, |LineageFailures(r, LineageRoot(id))|);
    SplicedIds(r.plan, r'.plan, f, retryId);
    assert Incarnated(r, id);
    assert Spent(r', retryId) == Spent(r, id) + {id};
    forall x | x in NodeIds(r.plan) && x != id
      ensures Spent(r', x) == Spent(r, x) && Incarnated(r', x)
    {
      assert Incarnated(r, x);
      assert Spent(r', x) == Spent(r, x);
    }
  }

  /** The id a replan mints for a failed node. */
  function NextRetry(r: ChainRecord, id: string): string {
    RetryId(id, |LineageFailures(r, LineageRoot(id))|)
  }

  /** Splicing a retry in for a failed node keeps the record's invariant. */
  lemma SpliceKeepsRecord(chainId: string, r: ChainRecord, r': ChainRecord, f: nat)
    requires RecordInv(chainId, r) && f < |r.plan.nodes| && SealedWith(r, r.plan.nodes[f].id, Failed)
    requires SplicedRecord(r, r', f, NextRetry(r, r.plan.nodes[f].id))
    requires ClosedDependencies(r'.plan)
    ensures RecordInv(chainId, r')
  {
    var id := r.plan.nodes[f].id;
    assert RootsDistinct(r'.plan) by {
      IdAtIsIn(r.plan, f);
      OneActivePerLineage(r.plan, id, id);
      RetryStrips(id, |LineageFailures(r, LineageRoot(id))|);
      SpliceKeepsRoots(r.plan, r'.plan, f, NextRetry(r, id));
    }
    assert forall n :: n in r'.plan.nodes && n.id in r'.nodeOutcomes ==> n.id !in n.dependsOn by {
      IdAtIsIn(r.plan, f);
      OneActivePerLineage(r.plan, id, id);
      RetryIsFresh(chainId, r, id);
      SpliceAddsNoSelfDependency(r.plan, r'.plan, f, NextRetry(r, id), r.nodeOutcomes.Keys);
    }
    forall x | x in NodeIds(r'.plan)
      ensures Incarnated(r', x)
    {
      SpliceKeepsIncarnated(chainId, r, r', f);
    }
  }

  lemma SpliceKeepsPlanShape(chainId: string, r: ChainRecord, r': ChainRecord, f: nat, why: string)
    requires RecordInv(chainId, r) && f < |r.plan.nodes| && SealedWith(r, r.plan.nodes[f].id, Failed)
    requires var n := |LineageFailures(r, LineageRoot(r.plan.nodes[f].id))|;
             BuildRetryPlan(r.plan, r.plan.nodes[f].id, why, n) == Some(r'.plan)
    ensures ClosedDependencies(r'.plan)
    ensures AcyclicPlan(r.plan) ==> AcyclicPlan(r'.plan)
  {
    var id := r.plan.nodes[f].id;
    var n := |LineageFailures(r, LineageRoot(id))|;
    IdAtIsIn(r.plan, f);
    OneActivePerLineage(r.plan, id, id);
    RetryIsFresh(chainId, r, id);
    assert r.plan.nodes[f] in r.plan.nodes;
    SpliceKeepsClosed(r.plan, f, why, n);
    SpliceKeepsShape(r.plan, f, why, n);
  }

  lemma SpliceKeepsRoots(plan: Plan, revised: Plan, f: nat, retryId: string)
    requires RootsDistinct(plan) && UniqueIds(plan) && f < |plan.nodes| && Spliced(plan, revised, f, retryId)
    requires LineageRoot(retryId) == LineageRoot(plan.nodes[f].id)
    ensures RootsDistinct(revised)
  {
    forall i | 0 <= i < |plan.nodes|
      ensures LineageRoot(revised.nodes[i].id) == LineageRoot(plan.nodes[i].id)
    {
    }
  }

  lemma SpliceAddsNoSelfDependency(plan: Plan, revised: Plan, f: nat, retryId: string, ids: set<string>)
    requires f < |plan.nodes| && Spliced(plan, revised, f, retryId) && UniqueIds(plan) && retryId !in ids
    requires forall n :: n in plan.nodes && n.id in ids ==> n.id !in n.dependsOn
    ensures forall n :: n in revised.nodes && n.id in ids ==> n.id !in n.dependsOn
  {
    forall n | n in revised.nodes && n.id in ids
      ensures n.id !in n.dependsOn
    {
      var i :| 0 <= i < |revised.nodes| && revised.nodes[i] == n;
      var m := plan.nodes[i];
      assert i != f && m in plan.nodes && m.id == n.id;
      forall k | 0 <= k < |n.dependsOn|
        ensures n.dependsOn[k] != n.id
      {
        assert m.dependsOn[k] in m.dependsOn;
      }
    }
  }

  lemma SpliceKeepsOrder(record: ChainRecord, record': ChainRecord, f: nat, retryId: string)
    requires f < |record.plan.nodes| && Spliced(record.plan, record'.plan, f, retryId)
    requires UniqueIds(record.plan)
    requires record'.nodeOutcomes == record.nodeOutcomes && retryId !in record.nodeOutcomes
    requires SealedWith(record, record.plan.nodes[f].id, Failed)
    requires SealedInOrder(record)
    ensures SealedInOrder(record')
  {
    forall n | n in record'.plan.nodes && n.id in record'.nodeOutcomes
      ensures DependenciesSucceeded(record', n)
    {
      var i :| 0 <= i < |record'.plan.nodes| && record'.plan.nodes[i] == n;
      var m := record.plan.nodes[i];
      assert i != f && m in record.plan.nodes && m.id == n.id;
      assert DependenciesSucceeded(record, m);
      forall d | d in n.dependsOn
        ensures SealedWith(record', d, Success)
      {
        var k :| 0 <= k < |n.dependsOn| && n.dependsOn[k] == d;
        assert m.dependsOn[k] in m.dependsOn;
      }
    }
  }

  // ---- The status ----

  /** An active node whose sealed outcome takes the chain out of RUNNING. */
  predicate Troubled(record: ChainRecord, id: string) {
    id in NodeIds(record.plan) && (SealedWith(record, id, Failed) || Escalated(record, id))
  }

  ghost predicate AtMostOneTroubled(record: ChainRecord) {
    forall a, b :: Troubled(record, a) && Troubled(record, b) ==> a == b
  }

  ghost predicate StatusInv(s: LoopState) {
    var r := s.record;
    && AtMostOneTroubled(r)
    && (r.status == Running ==> DeriveChainStatus(r) == Running && !s.resumableSeal)
    && (r.status != Running ==>
          && (s.resumableSeal <==> AnyFailed(r))
          && (r.status == DeriveChainStatus(r)
              || (r.status == ChainFailed && DeriveChainStatus(r) == Running && Dispatchable(r) == [])))
  }

  lemma CalmWhileRunning(record: ChainRecord)
    requires DeriveChainStatus(record) == Running
    ensures forall id :: !Troubled(record, id)
  {
  }

  // ---- The journal ----

  function ReplannedIds(es: seq<Entry>): set<string> {
    set e | e in es && e.payload.NodeReplanned? :: e.payload.failedNodeId
  }

  function View(store: Store): Folded
    requires store.row.Some?
  {
    Fold(store.row.value.plan, store.entries)
  }

  /** The journal rebuilds the live record; outcomes and handoffs may differ only at the ids in `reopened`. */
  ghost predicate StoreInv(store: Store, record: ChainRecord, reopened: set<string>) {
    && Contiguous(store.entries)
    && store.row.Some?
    && View(store).plan == record.plan
    && View(store).runs == record.nodeRuns
    && View(store).outcomes - reopened == record.nodeOutcomes - reopened
    && View(store).handoffs - reopened == record.nodeHandoffs - reopened
    && ReplannedIds(store.entries) !! NodeIds(record.plan)
    && ReplannedIds(store.entries) <= record.nodeOutcomes.Keys
  }

  lemma AppendView(es: seq<Entry>, plan: Plan, p: Payload)
    ensures Fold(plan, Appended(es, p)) == FoldEntry(Fold(plan, es), p)
    ensures ReplannedIds(Appended(es, p)) == ReplannedIds(es) + (if p.NodeReplanned? then {p.failedNodeId} else {})
  {
    FoldAppend(plan, es, p);
    var all := Appended(es, p);
    assert all[|es|].payload == p;
    forall e | e in es
      ensures e in all
    {
      var i :| 0 <= i < |es| && es[i] == e;
      assert all[i] == e;
    }
  }

  lemma {:induction false} FoldedRun(plan: Plan, es: seq<Entry>, id: string)
    ensures id in Fold(plan, es).runs <==>
            exists i :: 0 <= i < |es| && es[i].payload.NodeStarted? && es[i].payload.nodeId == id
  {
    if es != [] {
      var front := es[..|es| - 1];
      FoldedRun(plan, front, id);
      assert es == front + [es[|es| - 1]];
    }
  }

  /** Re-entering the child only adds re-entry records, at most one for each resume the budget still holds. */
  lemma {:induction false} AttendKeeps(oracle: Oracle, nodeId: string, runId: string, a: Attended, used: nat, max: nat)
    requires used <= max && a.store.row.Some? && Contiguous(a.store.entries)
    ensures var b := Attend(oracle, nodeId, runId, a, used, max);
            && b.store.row == a.store.row
            && Contiguous(b.store.entries)
            && View(b.store) == View(a.store)
            && ReplannedIds(b.store.entries) == ReplannedIds(a.store.entries)
            && a.executions <= b.executions <= a.executions + (max - used)
            && |b.store.entries| == |a.store.entries| + (b.executions - a.executions)
            && (DeriveNodeOutcome(b.report).status == Failed && b.report.resumable ==> b.executions == a.executions + (max - used))
    decreases max - used
  {
    hide Fold, ReplannedIds, DeriveNodeOutcome, Decimal;
    match DecideNodeHeal(DeriveNodeOutcome(a.report).status, a.report.resumable, used, max)
    case ReplanNode(_) =>
    case ResumeChild(attempt, why) =>
      var p := NodeResumed(nodeId, runId, attempt, OrElse(a.report.reason, why));
      AppendView(a.store.entries, a.store.row.value.plan, p);
      AttendKeeps(oracle, nodeId, runId,
                  Attended(oracle(a.executions), a.store.(entries := Appended(a.store.entries, p)), a.executions + 1),
                  attempt, max);
  }
}
