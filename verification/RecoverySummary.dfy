/** The operator's recovery facts: lineages tracked by plan position, which must agree with the id suffixes. */
module RecoverySummary {
  import opened Lineage
  import opened ChainTypes
  import opened Reducer
  import opened Replan
  import opened PlanSurgery
  import opened Journal
  import opened Activities
  import opened ChainLoop
  import opened ChainInvariant
  import opened ChainTurn
  import opened ChainTermination
  import opened ChainGuarantees
  import opened ChainResume
  import opened ChainReentry
  import opened ChainLaunches

  const NO_FAILURE_RECORDED := "none recorded"

  datatype RecoveryFacts = RecoveryFacts(attempts: nat, lastFailureReason: string)

  // ---- What the journal says about a lineage ----

  predicate SplicesLineage(p: Payload, root: string) {
    p.NodeReplanned? && LineageRoot(p.failedNodeId) == root
  }

  /** How often the lineage has been replanned. */
  function ReplanCount(es: seq<Entry>, root: string): nat {
    if es == [] then 0
    else ReplanCount(es[..|es| - 1], root) + (if SplicesLineage(es[|es| - 1].payload, root) then 1 else 0)
  }

  function LastReason(es: seq<Entry>, root: string): string {
    if es == [] then NO_FAILURE_RECORDED
    else if SplicesLineage(es[|es| - 1].payload, root) then es[|es| - 1].payload.reason
    else LastReason(es[..|es| - 1], root)
  }

  function FactsOf(es: seq<Entry>, root: string): RecoveryFacts {
    RecoveryFacts(ReplanCount(es, root) + 1, LastReason(es, root))
  }

  /** `revised` is `plan` with the node called `failedNodeId` replaced by a node of the same lineage. */
  ghost predicate SpliceOf(plan: Plan, failedNodeId: string, revised: Plan) {
    exists f: nat, retryId: string ::
      f < |plan.nodes| && Spliced(plan, revised, f, retryId)
      && plan.nodes[f].id == failedNodeId && LineageRoot(retryId) == LineageRoot(failedNodeId)
  }

  /** Every recorded splice applies to the plan that was active when it was recorded. */
  ghost predicate SpliceHistory(first: Plan, es: seq<Entry>) {
    es != [] ==>
      var front, p := es[..|es| - 1], es[|es| - 1].payload;
      && SpliceHistory(first, front)
      && (p.NodeReplanned? ==> SpliceOf(Fold(first, front).plan, p.failedNodeId, p.revisedPlan))
  }

  lemma {:induction false} HistoryPrefix(first: Plan, es: seq<Entry>, i: nat)
    requires SpliceHistory(first, es) && i <= |es|
    ensures SpliceHistory(first, es[..i])
    decreases |es|
  {
    if i < |es| {
      assert es[..|es| - 1][..i] == es[..i];
      HistoryPrefix(first, es[..|es| - 1], i);
    } else {
      assert es[..i] == es;
    }
  }

  lemma {:induction false} HistoryKeepsRoots(first: Plan, es: seq<Entry>)
    requires RootsDistinct(first) && SpliceHistory(first, es)
    ensures RootsDistinct(Fold(first, es).plan)
  {
    if es != [] {
      var front, p := es[..|es| - 1], es[|es| - 1].payload;
      HistoryKeepsRoots(first, front);
      hide RootsDistinct, SpliceOf;
      if p.NodeReplanned? {
        SpliceOfKeepsRoots(Fold(first, front).plan, p.failedNodeId, p.revisedPlan);
      }
    }
  }

  lemma SpliceOfKeepsRoots(plan: Plan, failedNodeId: string, revised: Plan)
    requires RootsDistinct(plan) && SpliceOf(plan, failedNodeId, revised)
    ensures RootsDistinct(revised)
  {
    var f: nat, retryId :| f < |plan.nodes| && Spliced(plan, revised, f, retryId)
                           && plan.nodes[f].id == failedNodeId && LineageRoot(retryId) == LineageRoot(failedNodeId);
    UniqueFromRoots(plan);
    SpliceKeepsRoots(plan, revised, f, retryId);
  }

  lemma UniqueFromRoots(plan: Plan)
    requires RootsDistinct(plan)
    ensures UniqueIds(plan)
  {
  }

  // ---- The positional fold ----

  function IndexOf(nodes: seq<PlanNode>, id: string): (r: Option<nat>)
    ensures r.Some? ==> r.value < |nodes| && nodes[r.value].id == id
    ensures r.None? ==> forall n :: n in nodes ==> n.id != id
  {
    if nodes == [] then None
    else if nodes[0].id == id then Some(0)
    else
      var rest := IndexOf(nodes[1..], id);
      if rest.Some? then Some(rest.value + 1) else None
  }

  /** The root recorded for an id, or the id itself where none is. */
  function RootOf(roots: map<string, string>, id: string): string {
    if id in roots then roots[id] else id
  }

  ghost predicate RootsBySuffix(roots: map<string, string>, plan: Plan) {
    roots.Keys == NodeIds(plan) && forall id :: id in roots ==> roots[id] == LineageRoot(id)
  }

  /** A splice keeps every position's id but the failed one's, whose root it keeps. */
  lemma SplicePosition(active: Plan, failedNodeId: string, revised: Plan) returns (f: nat)
    requires RootsDistinct(active) && SpliceOf(active, failedNodeId, revised)
    ensures f < |active.nodes| == |revised.nodes| && IndexOf(active.nodes, failedNodeId) == Some(f)
    ensures LineageRoot(revised.nodes[f].id) == LineageRoot(failedNodeId)
    ensures forall i :: 0 <= i < |active.nodes| && i != f ==> revised.nodes[i].id == active.nodes[i].id
    ensures failedNodeId in NodeIds(active)
  {
    hide LineageRoot;
    var retryId;
    f, retryId :| f < |active.nodes| && Spliced(active, revised, f, retryId)
                  && active.nodes[f].id == failedNodeId && LineageRoot(retryId) == LineageRoot(failedNodeId);
    UniqueFromRoots(active);
    IdAtIsIn(active, f);
    assert active.nodes[f] in active.nodes;
  }

  /** The roots of a revised plan: known ids keep theirs, and the node in the failed position inherits its root. */
  method RevisedRoots(active: Plan, roots: map<string, string>, failedNodeId: string, revised: Plan)
    returns (revisedRoots: map<string, string>)
    requires RootsDistinct(active) && RootsBySuffix(roots, active) && SpliceOf(active, failedNodeId, revised)
    ensures RootsBySuffix(revisedRoots, revised)
  {
    hide LineageRoot, NodeIds, RootsDistinct, SpliceOf, IndexOf;
    ghost var f := SplicePosition(active, failedNodeId, revised);
    var failedIndex := IndexOf(active.nodes, failedNodeId);
    var root := RootOf(roots, failedNodeId);
    revisedRoots := map[];
    for j := 0 to |revised.nodes|
      invariant forall id :: id in revisedRoots ==> id in NodeIds(revised) && revisedRoots[id] == LineageRoot(id)
      invariant forall i :: 0 <= i < j && i != f ==> revised.nodes[i].id in revisedRoots
    {
      var id := revised.nodes[j].id;
      IdAtIsIn(revised, j);
      IdAtIsIn(active, j);
      if id in roots { revisedRoots := revisedRoots[id := roots[id]]; }
    }
    if failedIndex.Some? && failedIndex.value < |revised.nodes| {
      IdAtIsIn(revised, failedIndex.value);
      revisedRoots := revisedRoots[revised.nodes[failedIndex.value].id := root];
    }
    forall id | id in NodeIds(revised)
      ensures id in revisedRoots
    {
      var i := IdIsAt(revised, id);
    }
  }

  /** The plan of the first plan entry, or the given one when the journal has none. */
  function FirstPlan(plan: Plan, entries: seq<Entry>): Plan {
    if entries == [] then plan
    else if entries[0].payload.PlanEntry? then entries[0].payload.plan
    else FirstPlan(plan, entries[1..])
  }

  lemma OriginalRoots(plan: Plan)
    requires LaunchablePlan(plan)
    ensures RootsDistinct(plan) && forall id :: id in NodeIds(plan) ==> LineageRoot(id) == id
  {
    forall i, j | 0 <= i < j < |plan.nodes|
      ensures LineageRoot(plan.nodes[i].id) != LineageRoot(plan.nodes[j].id)
    {
      assert plan.nodes[i] in plan.nodes && plan.nodes[j] in plan.nodes;
    }
  }

  lemma {:induction false} NoReplanNoReason(es: seq<Entry>, root: string)
    ensures ReplanCount(es, root) == 0 ==> LastReason(es, root) == NO_FAILURE_RECORDED
  {
    if es != [] {
      NoReplanNoReason(es[..|es| - 1], root);
    }
  }

  /** The facts gathered so far are those the journal prefix holds, root by root. */
  ghost predicate FactsUpTo(facts: map<string, RecoveryFacts>, es: seq<Entry>) {
    && (forall root :: root in facts <==> ReplanCount(es, root) > 0)
    && forall root :: root in facts ==> facts[root] == FactsOf(es, root)
  }

  lemma FactsGrow(facts: map<string, RecoveryFacts>, es: seq<Entry>, e: Entry)
    requires FactsUpTo(facts, es)
    ensures !e.payload.NodeReplanned? ==> FactsUpTo(facts, es + [e])
    ensures e.payload.NodeReplanned? ==>
              var root := LineageRoot(e.payload.failedNodeId);
              var previous := if root in facts then facts[root].attempts else 1;
              FactsUpTo(facts[root := RecoveryFacts(previous + 1, e.payload.reason)], es + [e])
  {
    hide LineageRoot;
    assert (es + [e])[..|es|] == es;
  }

  lemma HistoryStep(first: Plan, es: seq<Entry>, i: nat)
    requires LaunchablePlan(first) && SpliceHistory(first, es) && i < |es|
    ensures var p := es[i].payload; var before, after := Fold(first, es[..i]).plan, Fold(first, es[..i + 1]).plan;
            && RootsDistinct(before) && RootsDistinct(after)
            && (p.NodeReplanned? ==> SpliceOf(before, p.failedNodeId, p.revisedPlan) && after == p.revisedPlan)
            && (!p.NodeReplanned? ==> after == before)
  {
    hide RootsDistinct, SpliceOf, LaunchablePlan;
    assert es[..i + 1][..i] == es[..i];
    OriginalRoots(first);
    HistoryPrefix(first, es, i);
    HistoryPrefix(first, es, i + 1);
    HistoryKeepsRoots(first, es[..i]);
    HistoryKeepsRoots(first, es[..i + 1]);
  }

  lemma ActiveRoot(plan: Plan, failedNodeId: string, revised: Plan)
    requires RootsDistinct(plan) && SpliceOf(plan, failedNodeId, revised)
    ensures failedNodeId in NodeIds(plan)
  {
    var f := SplicePosition(plan, failedNodeId, revised);
  }

  /** On every splice history the positional roots are the suffix roots, and the reported facts are the journal's:
      attempts is one more than the number of times the lineage was replanned. */
  method RecoveryFactsByNode(plan: Plan, entries: seq<Entry>) returns (facts: map<string, RecoveryFacts>)
    requires LaunchablePlan(FirstPlan(plan, entries)) && SpliceHistory(FirstPlan(plan, entries), entries)
    requires plan == Fold(FirstPlan(plan, entries), entries).plan
    ensures facts.Keys == NodeIds(plan)
    ensures forall id :: id in facts ==> facts[id] == FactsOf(entries, LineageRoot(id))
  {
    hide Fold, SpliceHistory, RootsDistinct, LaunchablePlan, LineageRoot, ReplanCount, LastReason, FirstPlan, NodeIds;
    ghost var first := FirstPlan(plan, entries);
    OriginalRoots(first);
    FoldOfNothing(first, entries);
    var activePlan := FirstPlan(plan, entries);
    var rootByNode := map id | id in NodeIds(activePlan) :: id;
    var factsByRoot: map<string, RecoveryFacts> := map[];
    for i := 0 to |entries|
      invariant activePlan == Fold(first, entries[..i]).plan
      invariant RootsBySuffix(rootByNode, activePlan)
      invariant FactsUpTo(factsByRoot, entries[..i])
    {
      assert entries[..i + 1] == entries[..i] + [entries[i]];
      HistoryStep(first, entries, i);
      FactsGrow(factsByRoot, entries[..i], entries[i]);
      var payload := entries[i].payload;
      if !payload.NodeReplanned? { continue; }
      ActiveRoot(activePlan, payload.failedNodeId, payload.revisedPlan);
      var root := RootOf(rootByNode, payload.failedNodeId);
      var previous := if root in factsByRoot then factsByRoot[root].attempts else 1;
      factsByRoot := factsByRoot[root := RecoveryFacts(previous + 1, payload.reason)];
      rootByNode := RevisedRoots(activePlan, rootByNode, payload.failedNodeId, payload.revisedPlan);
      activePlan := payload.revisedPlan;
    }
    assert entries[..|entries|] == entries;
    facts := map id | id in NodeIds(plan) ::
      var root := RootOf(rootByNode, id);
      if root in factsByRoot then factsByRoot[root] else RecoveryFacts(1, NO_FAILURE_RECORDED);
    forall id | id in facts
      ensures facts[id] == FactsOf(entries, LineageRoot(id))
    {
      NoReplanNoReason(entries, LineageRoot(id));
    }
  }

  lemma FoldOfNothing(first: Plan, es: seq<Entry>)
    ensures Fold(first, es[..0]).plan == first && FactsUpTo(map[], es[..0])
  {
  }

  // ---- Every journal the loop writes is such a history ----

  /** The journal starts from `first`, its splices follow one another, and each lineage was replanned once for each of
      its spliced-out incarnations. */
  ghost predicate HistoryOf(first: Plan, es: seq<Entry>, record: ChainRecord) {
    && StartsFrom(first, es)
    && SpliceHistory(first, es)
    && Fold(first, es).plan == record.plan
    && forall id :: id in NodeIds(record.plan) ==> ReplanCount(es, LineageRoot(id)) == |Spent(record, id)|
  }

  ghost predicate HistoryInv(first: Plan, s: LoopState) {
    HistoryOf(first, s.store.entries, s.record)
  }

  ghost predicate StartsFrom(first: Plan, es: seq<Entry>) {
    es != [] && es[0].payload == PlanEntry(first)
  }

  lemma HistoryAppend(first: Plan, es: seq<Entry>, p: Payload)
    requires SpliceHistory(first, es)
    requires p.NodeReplanned? ==> SpliceOf(Fold(first, es).plan, p.failedNodeId, p.revisedPlan)
    ensures SpliceHistory(first, Appended(es, p))
    ensures StartsFrom(first, es) ==> StartsFrom(first, Appended(es, p))
    ensures Fold(first, Appended(es, p)).plan == if p.NodeReplanned? then p.revisedPlan else Fold(first, es).plan
    ensures forall root :: ReplanCount(Appended(es, p), root)
                           == ReplanCount(es, root) + (if SplicesLineage(p, root) then 1 else 0)
  {
    assert Appended(es, p)[..|es|] == es;
  }

  /** Entries that are not splices leave the history alone. */
  ghost predicate SameHistory(first: Plan, es: seq<Entry>, es': seq<Entry>) {
    && (StartsFrom(first, es) ==> StartsFrom(first, es'))
    && (SpliceHistory(first, es) ==> SpliceHistory(first, es'))
    && Fold(first, es').plan == Fold(first, es).plan
    && forall root :: ReplanCount(es', root) == ReplanCount(es, root)
  }

  lemma {:induction false} AttendKeepsHistory(first: Plan, oracle: Oracle, nodeId: string, runId: string, a: Attended,
                                              used: nat, max: nat)
    requires SpliceHistory(first, a.store.entries)
    ensures SameHistory(first, a.store.entries, Attend(oracle, nodeId, runId, a, used, max).store.entries)
    decreases max - used
  {
    hide Fold, ReplanCount, SpliceHistory;
    match DecideNodeHeal(DeriveNodeOutcome(a.report).status, a.report.resumable, used, max)
    case ReplanNode(_) =>
    case ResumeChild(attempt, why) =>
      var p := NodeResumed(nodeId, runId, attempt, OrElse(a.report.reason, why));
      HistoryAppend(first, a.store.entries, p);
      AttendKeepsHistory(first, oracle, nodeId, runId,
                         Attended(oracle(a.executions), a.store.(entries := Appended(a.store.entries, p)), a.executions + 1),
                         attempt, max);
  }

  lemma FoldKeepsHistory(first: Plan, input: ChainInput, oracle: Oracle, s: LoopState, id: string)
    requires SpliceHistory(first, s.store.entries)
    ensures SameHistory(first, s.store.entries, FoldNode(input, s, id, RunChild(input, oracle, s, id)).store.entries)
  {
    hide Fold, ReplanCount, SpliceHistory, Attend, HasKey;
    var run := ChildRunId(input.chainId, id);
    var child := RunChild(input, oracle, s, id);
    var a := Attended(oracle(s.executions), Started(s.store, id, run), s.executions + 1);
    HistoryAppend(first, s.store.entries, NodeStarted(id, run));
    AttendKeepsHistory(first, oracle, id, run, a, 0, MaxResumes(input));
    var p := SealedPayload(id, DeriveNodeOutcome(child.report), child.report.handoff, child.report.inconclusiveCheck);
    HistoryAppend(first, child.store.entries, p);
  }

  lemma SpliceExtendsHistory(first: Plan, input: ChainInput, s: LoopState, t: LoopState, f: nat, reason: string, brief: string)
    requires RecordInv(input.chainId, s.record) && HistoryInv(first, s) && f < |s.record.plan.nodes|
    requires SealedWith(s.record, s.record.plan.nodes[f].id, Failed)
    requires s.record.plan.nodes[f].id !in ReplannedIds(s.store.entries)
    requires SplicedRecord(s.record, t.record, f, NextRetry(s.record, s.record.plan.nodes[f].id))
    requires t.store == Replanned(s.store, s.record.plan.nodes[f].id, reason, t.record.plan, brief)
    ensures HistoryInv(first, t)
  {
    var id := s.record.plan.nodes[f].id;
    SplicedIsSplice(input.chainId, s.record, t.record, f);
    SpentAfterSplice(input.chainId, s.record, t.record, f);
    hide Fold, ReplanCount, SpliceHistory, Incarnated, SpliceOf, SplicedRecord;
    hide LineageFailures, RecordInv, ReplannedIds, LineageRoot, NodeIds, Spent;
    var p := NodeReplanned(id, reason, t.record.plan, brief);
    ReplannedKey(s.store.entries, p);
    HistoryAppend(first, s.store.entries, p);
  }

  lemma SplicedIsSplice(chainId: string, r: ChainRecord, r': ChainRecord, f: nat)
    requires RecordInv(chainId, r) && f < |r.plan.nodes| && SealedWith(r, r.plan.nodes[f].id, Failed)
    requires SplicedRecord(r, r', f, NextRetry(r, r.plan.nodes[f].id))
    ensures SpliceOf(r.plan, r.plan.nodes[f].id, r'.plan)
  {
    RetryStrips(r.plan.nodes[f].id, |LineageFailures(r, LineageRoot(r.plan.nodes[f].id))|);
  }

  lemma SpentAfterSplice(chainId: string, r: ChainRecord, r': ChainRecord, f: nat)
    requires RecordInv(chainId, r) && f < |r.plan.nodes| && SealedWith(r, r.plan.nodes[f].id, Failed)
    requires SplicedRecord(r, r', f, NextRetry(r, r.plan.nodes[f].id))
    ensures var id := r.plan.nodes[f].id; var retryId := NextRetry(r, id);
            && LineageRoot(retryId) == LineageRoot(id) && |Spent(r', retryId)| == |Spent(r, id)| + 1
            && id in NodeIds(r.plan)
            && forall x :: x in NodeIds(r'.plan) && x != retryId ==>
                 x in NodeIds(r.plan) && |Spent(r', x)| == |Spent(r, x)| && LineageRoot(x) != LineageRoot(id)
  {
    hide SplicedRecord, RecordInv, Incarnated, LineageFailures, Spent, NodeIds, LineageRoot, NextRetry;
    var id := r.plan.nodes[f].id;
    SealedIdUnspent(chainId, r, id);
    NextRetryRoot(r, id);
    SpliceKeepsIncarnated(chainId, r, r', f);
    IdAtIsIn(r.plan, f);
    OtherLineagesOf(chainId, r, id);
  }

  lemma NextRetryRoot(r: ChainRecord, id: string)
    ensures LineageRoot(NextRetry(r, id)) == LineageRoot(id)
  {
    hide LineageRoot;
    RetryStrips(id, |LineageFailures(r, LineageRoot(id))|);
  }

  lemma SealedIdUnspent(chainId: string, r: ChainRecord, id: string)
    requires RecordInv(chainId, r)
    ensures id in NodeIds(r.plan) ==> id !in Spent(r, id)
  {
  }

  lemma OtherLineagesOf(chainId: string, r: ChainRecord, id: string)
    requires RecordInv(chainId, r) && id in NodeIds(r.plan)
    ensures forall x :: x in NodeIds(r.plan) && x != id ==> LineageRoot(x) != LineageRoot(id)
  {
    hide LineageRoot;
    OtherLineages(r.plan, id);
  }

  lemma OtherLineages(plan: Plan, id: string)
    requires RootsDistinct(plan) && id in NodeIds(plan)
    ensures forall x :: x in NodeIds(plan) && x != id ==> LineageRoot(x) != LineageRoot(id)
  {
    forall x | x in NodeIds(plan) && x != id
      ensures LineageRoot(x) != LineageRoot(id)
    {
      OneActivePerLineage(plan, x, id);
    }
  }

  lemma TurnKeepsHistory(first: Plan, input: ChainInput, oracle: Oracle, s: LoopState, reopened: set<string>)
    requires Journaled(input, s, reopened) && HistoryInv(first, s)
    ensures HistoryInv(first, Turn(input, oracle, s))
  {
    hide Fold, ReplanCount, SpliceHistory, RecordInv, Spent, NodeIds, RunChild, AfterFailure;
    if Dispatching(s) {
      var n := Dispatched(s);
      var child := RunChild(input, oracle, s, n.id);
      var folded := FoldNode(input, s, n.id, child);
      FoldKeepsHistory(first, input, oracle, s, n.id);
      FoldKeepsRecord(input, s, n, child);
      assert HistoryInv(first, folded);
      if DeriveNodeOutcome(child.report).status == Failed {
        DispatchableMeaning(s.record, n);
        RunChildStore(input, oracle, s, n.id, reopened);
        FoldKeepsStore(input, s, n.id, child, reopened);
        FailureKeepsHistory(first, input, folded, n, child.report.reason, reopened);
      }
    } else if s.record.status == Running {
      HistoryIsOfStore(first, s, Turn(input, oracle, s));
    }
  }

  lemma FailureKeepsHistory(first: Plan, input: ChainInput, s: LoopState, n: PlanNode, reason: Option<string>,
                            reopened: set<string>)
    requires RecordInv(input.chainId, s.record) && StoreInv(s.store, s.record, reopened) && HistoryInv(first, s)
    requires n in s.record.plan.nodes && SealedWith(s.record, n.id, Failed)
    ensures HistoryInv(first, AfterFailure(input, s, n.id, reason))
  {
    hide HistoryInv, RecordInv, BuildRetryPlan, BuildReplanBrief, LineageFailures, LiveFailures, SplicedRecord, Fold;
    hide SpliceRetry;
    var decision := DecideReplan(s.record, n.id, LoopBounds(input));
    if decision.GrantReplan? {
      var f :| 0 <= f < |s.record.plan.nodes| && s.record.plan.nodes[f] == n;
      IdAtIsIn(s.record.plan, f);
      SpliceEffect(input, s, f, decision, reason);
      SpliceExtendsHistory(first, input, s, SpliceRetry(s, n.id, decision, reason), f, decision.reason,
                           BuildReplanBrief(n.id, OrElse(reason, "unknown")));
    } else {
      HistoryIsOfStore(first, s, AfterFailure(input, s, n.id, reason));
    }
  }

  lemma HistoryIsOfStore(first: Plan, s: LoopState, t: LoopState)
    requires HistoryInv(first, s) && t.store == s.store && t.record == s.record.(status := t.record.status)
    ensures HistoryInv(first, t)
  {
    assert forall id :: Spent(t.record, id) == Spent(s.record, id);
  }

  lemma {:induction false} RunKeepsHistory(first: Plan, input: ChainInput, oracle: Oracle, s: LoopState, k: nat,
                                           reopened: set<string>)
    requires Journaled(input, s, reopened) && HistoryInv(first, s)
    ensures HistoryInv(first, StateAt(input, oracle, s, k))
  {
    hide Turn, Journaled, HistoryInv;
    if k > 0 {
      RunKeepsHistory(first, input, oracle, s, k - 1, reopened);
      RunKeepsJournal(input, oracle, s, k - 1, reopened);
      TurnKeepsHistory(first, input, oracle, StateAt(input, oracle, s, k - 1), reopened);
    }
  }

  lemma FreshHistory(input: ChainInput, s: LoopState)
    requires s.record == EmptyRecord(input.plan).(status := s.record.status)
    requires s.store.entries == [Entry(0, PlanEntry(input.plan))]
    ensures HistoryInv(input.plan, s)
  {
    var es := s.store.entries;
    assert es[..0] == [];
    forall id | id in NodeIds(s.record.plan)
      ensures ReplanCount(es, LineageRoot(id)) == |Spent(s.record, id)|
    {
      assert Spent(s.record, id) == {};
    }
  }

  // ---- From launch to launch ----

  lemma NeutralHistory(first: Plan, es: seq<Entry>, record: ChainRecord, p: Payload)
    requires HistoryOf(first, es, record) && !p.NodeReplanned?
    ensures HistoryOf(first, Appended(es, p), record)
  {
    hide Fold, ReplanCount, SpliceHistory, Spent;
    HistoryAppend(first, es, p);
  }

  lemma SameSpentHistory(first: Plan, es: seq<Entry>, r: ChainRecord, t: ChainRecord)
    requires HistoryOf(first, es, r) && t.plan == r.plan && forall id :: id in NodeIds(r.plan) ==> Spent(t, id) == Spent(r, id)
    ensures HistoryOf(first, es, t)
  {
    hide Fold, ReplanCount, SpliceHistory, Spent, StartsFrom;
  }

  /** The seal leaves a history of the record the journal rebuilds, re-entered or not. */
  lemma FinishedHistory(first: Plan, input: ChainInput, s: LoopState, reopened: set<string>)
    requires Underway(input, s, reopened) && s.record.status != Running && HistoryInv(first, s)
    ensures Finish(s).store.row.Some? && HistoryOf(first, Finish(s).store.entries, JournalRecord(Finish(s).store))
  {
    FinishIsRestorable(input, s, reopened);
    JournalRecordInShape(input, s, reopened);
    SealStands(s);
    hide Fold, ReplanCount, SpliceHistory, Finish, Parked, Journaled, Stale, Standing, Unsealed, ChainRecordOf, RecordInv;
    hide StoreInv, Restorable;
    hide AnyFailed, AllSucceeded, AnyEscalated;
    var e := Finish(s);
    var r := JournalRecord(e.store);
    forall id | id in NodeIds(r.plan)
      ensures Spent(r, id) == Spent(s.record, id)
    {
      assert Spent(r, id) == Spent(JournalRecord(s.store), id);
    }
    NeutralHistory(first, s.store.entries, s.record, e.store.entries[|s.store.entries|].payload);
    SameSpentHistory(first, e.store.entries, s.record, r);
  }

  lemma ReopenedHistory(first: Plan, store: Store, plan: Plan, r: ChainRecord)
    requires HistoryOf(first, store.entries, r)
    ensures HistoryOf(first, Reopened(Initialized(store, plan)).entries, r)
  {
    hide HistoryOf, NeedsReopen, FirstFailed, EntriesOf, ChainRecordOf;
    var i := Initialized(store, plan);
    if i.entries != store.entries { NeutralHistory(first, store.entries, r, PlanEntry(plan)); }
    if NeedsReopen(i.entries) {
      NeutralHistory(first, i.entries, r, Reopened(i).entries[|i.entries|].payload);
    }
  }

  lemma ResumeKeepsHistory(first: Plan, input: ChainInput, s: LoopState, lastReport: ChildReport)
    requires Journaled(input, s, {}) && !s.resumableSeal && HistoryInv(first, s)
    ensures HistoryInv(first, ResumeFailed(input, s, lastReport))
  {
    var failed := FirstFailed(s.record, s.record.plan.nodes);
    if failed.Some? {
      var n :| n in s.record.plan.nodes && n.id == failed.value;
      var f :| 0 <= f < |s.record.plan.nodes| && s.record.plan.nodes[f] == n;
      IdAtIsIn(s.record.plan, f);
      if Reenters(s.record, failed.value, lastReport) {
        ReentryKeepsHistory(first, input, s, lastReport, f);
      } else {
        hide HistoryInv, RecordInv, Fold, SplicedRecord, ResumeFailed, FirstFailed, Stale, Standing;
        var why, brief := ResumeReplaces(input, s, lastReport, f);
        SpliceExtendsHistory(first, input, s, ResumeFailed(input, s, lastReport), f, why, brief);
      }
    }
  }

  lemma ReentryKeepsHistory(first: Plan, input: ChainInput, s: LoopState, lastReport: ChildReport, f: nat)
    requires Journaled(input, s, {}) && !s.resumableSeal && HistoryInv(first, s) && f < |s.record.plan.nodes|
    requires FirstFailed(s.record, s.record.plan.nodes) == Some(s.record.plan.nodes[f].id)
    requires Reenters(s.record, s.record.plan.nodes[f].id, lastReport)
    ensures HistoryInv(first, ResumeFailed(input, s, lastReport))
  {
    hide Fold, ReplanCount, SpliceHistory, Spent, RecordInv, StoreInv, SpliceRetry, LineageFailures, LiveFailures;
    hide DecideReplan;
    var id := s.record.plan.nodes[f].id;
    IdAtIsIn(s.record.plan, f);
    var heal := DecideNodeHeal(Failed, true, 0, MAX_CHILD_RESUMES_PER_NODE);
    NeutralHistory(first, s.store.entries, s.record,
                   NodeResumed(id, s.record.nodeRuns[id], heal.attempt, OrElse(lastReport.reason, heal.reason)));
    ReentryKeepsRecord(input.chainId, s.record, id);
    var t := ResumeFailed(input, s, lastReport);
    SameSpentHistory(first, t.store.entries, s.record, t.record);
  }

  lemma RestartKeepsHistory(first: Plan, input: ChainInput, store: Store, lastReport: ChildReport)
    requires Restorable(input.chainId, store) && HistoryOf(first, store.entries, JournalRecord(store))
    ensures HistoryInv(first, Start(input, store, lastReport))
  {
    var r := JournalRecord(store);
    hide Start, RecordInv, StoreInv, ResumeFailed, WasSealed, HistoryOf, Unsealed, JournalRecord, DeriveChainStatus;
    RestoredStart(input, store, r, lastReport);
    ReopenedHistory(first, store, input.plan, r);
    var derived := r.(status := DeriveChainStatus(r));
    var s := LoopState(derived, Reopened(Initialized(store, input.plan)), None, false, 0);
    SpentIgnoresItsStatus(first, s.store.entries, r, derived);
    ResumeKeepsHistory(first, input, s, lastReport);
  }

  lemma SpentIgnoresItsStatus(first: Plan, es: seq<Entry>, r: ChainRecord, t: ChainRecord)
    requires HistoryOf(first, es, r) && t == r.(status := t.status)
    ensures HistoryOf(first, es, t)
  {
    assert forall id :: Spent(t, id) == Spent(r, id);
    SameSpentHistory(first, es, r, t);
  }

  /** Every journal the loop writes, over any number of launches and whatever each re-enters or replaces, is such a history
      of the plan first launched. */
  lemma {:induction false} LaunchesKeepHistory(ls: seq<Launch>, k: nat)
    requires OneChain(ls)
    ensures var l := ls[|ls| - 1]; HistoryInv(ls[0].input.plan, StateAt(l.input, l.oracle, StartOf(ls), k))
    decreases |ls|
  {
    hide Start, StateAt, EndFrom, Finish, Journaled, Stale, Standing, Unsealed, HistoryInv, LaunchablePlan, Restorable;
    hide JournalRecord, HistoryOf;
    var l, first := ls[|ls| - 1], ls[0].input.plan;
    assert l in ls;
    EveryLaunch(ls);
    if |ls| == 1 {
      FreshStart(l.input, l.lastReport);
      FreshHistory(l.input, Start(l.input, Store([], None), l.lastReport));
    } else {
      var front := ls[..|ls| - 1];
      var before := front[|front| - 1];
      assert before in ls && front[0] == ls[0];
      assert forall m :: m in front ==> m in ls;
      EveryLaunch(front);
      LaunchesKeepHistory(front, DispatchBound(before.input, StartOf(front).record) + 1);
      EndIsState(front);
      FinishedHistory(first, before.input, EndOf(front), ReenteredAt(front));
      RestartKeepsHistory(first, l.input, StoreBefore(ls), l.lastReport);
    }
    RunKeepsHistory(first, l.input, l.oracle, StartOf(ls), k, ReenteredAt(ls));
  }

  /** In every run of every launch the two lineage computations agree: the attempts the journal holds for an active node
      count the incarnations of its suffix lineage, itself included. */
  lemma {:induction false} AttemptsAreIncarnations(ls: seq<Launch>, k: nat, id: string)
    requires OneChain(ls) && id in NodeIds(ChainAt(ls, k).record.plan)
    ensures var t := ChainAt(ls, k);
            && FactsOf(t.store.entries, LineageRoot(id)).attempts == |Spent(t.record, id) + {id}|
            && Spent(t.record, id) + {id} == Incarnations(LineageRoot(id), |Spent(t.record, id) + {id}|)
  {
    hide StateAt, StartOf, Fold, SpliceHistory, LaunchablePlan, Stale, Standing, Unsealed, StoreInv;
    var l := ls[|ls| - 1];
    LaunchesKeepHistory(ls, k);
    EveryLaunch(ls);
    RunKeepsJournal(l.input, l.oracle, StartOf(ls), k, ReenteredAt(ls));
    AllIncarnations(l.input.chainId, ChainAt(ls, k).record, id);
  }

  lemma AllIncarnations(chainId: string, record: ChainRecord, id: string)
    requires RecordInv(chainId, record) && id in NodeIds(record.plan)
    ensures Spent(record, id) + {id} == Incarnations(LineageRoot(id), |Spent(record, id)| + 1)
    ensures |Spent(record, id) + {id}| == |Spent(record, id)| + 1
  {
    assert Incarnated(record, id);
  }

  lemma {:induction false} ReportableHistory(ls: seq<Launch>, k: nat)
    requires OneChain(ls)
    ensures var t := ChainAt(ls, k); var first := FirstPlan(t.record.plan, t.store.entries);
            && LaunchablePlan(first) && SpliceHistory(first, t.store.entries) && t.record.plan == Fold(first, t.store.entries).plan
  {
    hide StateAt, StartOf, Fold, SpliceHistory, LaunchablePlan, ReplanCount;
    LaunchesKeepHistory(ls, k);
  }

  /** The report on any chain at any moment: what the positional fold returns for an active node are the incarnations of
      its suffix lineage. */
  method RecoveryFactsOfChain(plan: Plan, entries: seq<Entry>, ghost ls: seq<Launch>, ghost k: nat)
    returns (facts: map<string, RecoveryFacts>)
    requires OneChain(ls)
    requires plan == ChainAt(ls, k).record.plan && entries == ChainAt(ls, k).store.entries
    ensures facts.Keys == NodeIds(plan)
    ensures forall id :: id in facts ==>
              var spent := Spent(ChainAt(ls, k).record, id);
              && facts[id].attempts == |spent + {id}|
              && spent + {id} == Incarnations(LineageRoot(id), facts[id].attempts)
  {
    hide ChainAt, Fold, SpliceHistory, LaunchablePlan, FirstPlan, LineageRoot, NodeIds, Spent;
    ReportableHistory(ls, k);
    facts := RecoveryFactsByNode(plan, entries);
    forall id | id in facts
      ensures var spent := Spent(ChainAt(ls, k).record, id);
              facts[id].attempts == |spent + {id}| && spent + {id} == Incarnations(LineageRoot(id), facts[id].attempts)
    {
      AttemptsAreIncarnations(ls, k, id);
    }
  }
}
