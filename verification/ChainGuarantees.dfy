/** Dispatch order, replay, budgets and seals, over every run. */
module ChainGuarantees {
  import opened Lineage
  import opened ChainTypes
  import opened Reducer
  import opened Replan
  import opened PlanSurgery
  import opened Journal
  import opened Activities
  import opened ChainLoop
  import opened ChainInvariant
  import opened ChainTurn
  import opened ChainTermination

  // ---- Dispatch order ----

  /** The node a dispatching state starts. */
  function Dispatched(s: LoopState): PlanNode
    requires Dispatching(s)
  {
    Dispatchable(s.record)[0]
  }

  lemma TurnKeepsOutcomes(input: ChainInput, oracle: Oracle, s: LoopState, reopened: set<string>)
    requires Journaled(input, s, reopened)
    ensures var t := Turn(input, oracle, s);
            && s.record.nodeOutcomes.Keys <= t.record.nodeOutcomes.Keys
            && (forall id :: id in s.record.nodeOutcomes ==> t.record.nodeOutcomes[id] == s.record.nodeOutcomes[id])
            && (Dispatching(s) ==> Dispatched(s).id in t.record.nodeOutcomes)
  {
    hide RecordInv, StatusInv, StoreInv, RunChild, BuildRetryPlan;
    if Dispatching(s) {
      DispatchableMeaning(s.record, Dispatched(s));
    }
  }

  /** What a node sealed is never changed by a later turn. */
  lemma {:induction false} OutcomesAreKept(input: ChainInput, oracle: Oracle, s: LoopState, j: nat, k: nat,
                                           reopened: set<string>)
    requires Journaled(input, s, reopened) && j <= k
    ensures var a, b := StateAt(input, oracle, s, j).record.nodeOutcomes, StateAt(input, oracle, s, k).record.nodeOutcomes;
            a.Keys <= b.Keys && forall id :: id in a ==> b[id] == a[id]
  {
    hide Turn, Journaled;
    if j < k {
      OutcomesAreKept(input, oracle, s, j, k - 1, reopened);
      RunKeepsJournal(input, oracle, s, k - 1, reopened);
      TurnKeepsOutcomes(input, oracle, StateAt(input, oracle, s, k - 1), reopened);
    }
  }

  /** A node is started only after everything it depends on has sealed SUCCESS, and no id is started twice. */
  lemma DispatchIsSafe(input: ChainInput, oracle: Oracle, s: LoopState, j: nat, k: nat, reopened: set<string>)
    requires Journaled(input, s, reopened) && j < k
    requires Dispatching(StateAt(input, oracle, s, j)) && Dispatching(StateAt(input, oracle, s, k))
    ensures var a, b := StateAt(input, oracle, s, j), StateAt(input, oracle, s, k);
            && Dispatched(a).id != Dispatched(b).id
            && Dispatched(b) in b.record.plan.nodes
            && forall d :: d in Dispatched(b).dependsOn ==> SealedWith(b.record, d, Success)
  {
    hide Turn, Journaled;
    var b := StateAt(input, oracle, s, k);
    RunKeepsJournal(input, oracle, s, j, reopened);
    TurnKeepsOutcomes(input, oracle, StateAt(input, oracle, s, j), reopened);
    OutcomesAreKept(input, oracle, s, j + 1, k, reopened);
    DispatchableMeaning(b.record, Dispatched(b));
  }

  /** Replacing a failed node keeps whatever is sealed sealed after its dependencies. */
  lemma ReplacedInOrder(chainId: string, r: ChainRecord, r': ChainRecord, f: nat)
    requires RecordInv(chainId, r) && SealedInOrder(r) && f < |r.plan.nodes|
    requires SealedWith(r, r.plan.nodes[f].id, Failed) && SplicedRecord(r, r', f, NextRetry(r, r.plan.nodes[f].id))
    ensures SealedInOrder(r')
  {
    RetryIsFresh(chainId, r, r.plan.nodes[f].id);
    SpliceKeepsOrder(r, r', f, NextRetry(r, r.plan.nodes[f].id));
  }

  lemma FailureKeepsOrder(input: ChainInput, s: LoopState, n: PlanNode, reason: Option<string>)
    requires RecordInv(input.chainId, s.record) && SealedInOrder(s.record)
    requires n in s.record.plan.nodes && SealedWith(s.record, n.id, Failed)
    ensures SealedInOrder(AfterFailure(input, s, n.id, reason).record)
  {
    hide RecordInv, SpliceRetry, LineageFailures, LiveFailures, SplicedRecord, NextRetry, BuildRetryPlan, BuildReplanBrief;
    var decision := DecideReplan(s.record, n.id, LoopBounds(input));
    if decision.GrantReplan? {
      var f :| 0 <= f < |s.record.plan.nodes| && s.record.plan.nodes[f] == n;
      SpliceEffect(input, s, f, decision, reason);
      ReplacedInOrder(input.chainId, s.record, SpliceRetry(s, n.id, decision, reason).record, f);
    }
  }

  /** Over any run, whatever is sealed was sealed after everything it depends on. */
  lemma {:induction false} RunKeepsOrder(input: ChainInput, oracle: Oracle, s: LoopState, k: nat, reopened: set<string>)
    requires Journaled(input, s, reopened) && SealedInOrder(s.record)
    ensures SealedInOrder(StateAt(input, oracle, s, k).record)
  {
    hide Turn, Journaled, SealedInOrder;
    if k > 0 {
      RunKeepsOrder(input, oracle, s, k - 1, reopened);
      RunKeepsJournal(input, oracle, s, k - 1, reopened);
      TurnKeepsOrder(input, oracle, StateAt(input, oracle, s, k - 1), reopened);
    }
  }

  lemma TurnKeepsOrder(input: ChainInput, oracle: Oracle, s: LoopState, reopened: set<string>)
    requires Journaled(input, s, reopened) && SealedInOrder(s.record)
    ensures SealedInOrder(Turn(input, oracle, s).record)
  {
    hide RecordInv, StoreInv, RunChild, AfterFailure, Dispatchable;
    if Dispatching(s) {
      hide SealedInOrder;
      var n := Dispatched(s);
      var child := RunChild(input, oracle, s, n.id);
      FoldKeepsJournal(input, oracle, s, n, reopened);
      FoldKeepsOrder(input, s, n, child);
      if DeriveNodeOutcome(child.report).status == Failed {
        FailureKeepsOrder(input, FoldNode(input, s, n.id, child), n, child.report.reason);
      }
    }
  }

  lemma FoldKeepsOrder(input: ChainInput, s: LoopState, n: PlanNode, child: Attended)
    requires RecordInv(input.chainId, s.record) && n in Dispatchable(s.record) && SealedInOrder(s.record)
    ensures SealedInOrder(FoldNode(input, s, n.id, child).record)
  {
    DispatchableMeaning(s.record, n);
    FoldSealsOne(input, s, n, child);
    hide SealedOne, SealedInOrder;
    SealKeepsOrder(input.chainId, s.record, FoldNode(input, s, n.id, child).record, n);
  }

  // ---- Replay ----

  lemma ReplayIsLive(chainId: string, store: Store, record: ChainRecord)
    requires RecordInv(chainId, record) && StoreInv(store, record, {})
    ensures ChainRecordOf(store) == Some(record.(status := store.row.value.status))
  {
    hide Fold, ReplannedIds, Incarnated;
    var v := View(store);
    assert v.outcomes - {} == v.outcomes && v.handoffs - {} == v.handoffs;
    assert record.nodeOutcomes - {} == record.nodeOutcomes && record.nodeHandoffs - {} == record.nodeHandoffs;
  }

  /** After every turn the journal alone rebuilds the live record, whose status is then re-derived. */
  lemma RunReplays(input: ChainInput, oracle: Oracle, s: LoopState, k: nat)
    requires Journaled(input, s, {})
    ensures var t := StateAt(input, oracle, s, k);
            && t.store.row.Some?
            && ChainRecordOf(t.store) == Some(t.record.(status := t.store.row.value.status))
  {
    hide StateAt, RecordInv;
    RunKeepsJournal(input, oracle, s, k, {});
    ReplayIsLive(input.chainId, StateAt(input, oracle, s, k).store, StateAt(input, oracle, s, k).record);
  }

  /** ...and so it does between the fold of a failure and the splice that heals it. */
  lemma FoldReplays(input: ChainInput, oracle: Oracle, s: LoopState)
    requires Journaled(input, s, {}) && Dispatching(s)
    ensures var t := FoldNode(input, s, Dispatched(s).id, RunChild(input, oracle, s, Dispatched(s).id));
            && t.store.row.Some?
            && ChainRecordOf(t.store) == Some(t.record.(status := t.store.row.value.status))
  {
    hide RecordInv, RunChild;
    var n := Dispatched(s);
    var child := RunChild(input, oracle, s, n.id);
    DispatchableMeaning(s.record, n);
    RunChildStore(input, oracle, s, n.id, {});
    FoldKeepsRecord(input, s, n, child);
    FoldKeepsStore(input, s, n.id, child, {});
    var t := FoldNode(input, s, n.id, child);
    ReplayIsLive(input.chainId, t.store, t.record);
  }

  /** When a node is sealed again, the journal follows the live fold exactly if the new outcome is the one on record and
      a new handoff, if there is one, is on record too. */
  lemma SecondSealIsIgnored(store: Store, id: string, outcome: NodeOutcome, handoff: Option<string>)
    requires store.row.Some? && Contiguous(store.entries)
    ensures var t, v := Sealed(store, id, outcome, handoff, outcome.inconclusiveCheck), View(store);
            View(t) == v.(outcomes := v.outcomes[id := outcome],
                          handoffs := if handoff.Some? then v.handoffs[id := handoff.value] else v.handoffs) <==>
            (id in v.outcomes ==>
               v.outcomes[id] == outcome && (handoff.Some? ==> id in v.handoffs && v.handoffs[id] == handoff.value))
  {
    hide Fold;
    SealView(store, id, outcome, handoff, outcome.inconclusiveCheck);
    UpdateIsNothing(View(store).outcomes, id, outcome);
    if handoff.Some? { UpdateIsNothing(View(store).handoffs, id, handoff.value); }
  }

  lemma UpdateIsNothing<T>(m: map<string, T>, x: string, y: T)
    ensures m == m[x := y] <==> x in m && m[x] == y
  {
    assert m[x := y][x] == y;
  }

  // ---- Budgets ----

  /** The dispatched child fails: a replan decision is taken. */
  ghost predicate Decides(input: ChainInput, oracle: Oracle, s: LoopState) {
    Dispatching(s) && DeriveNodeOutcome(RunChild(input, oracle, s, Dispatched(s).id).report).status == Failed
  }

  /** The record the decision is taken on. */
  function DecidedOn(input: ChainInput, oracle: Oracle, s: LoopState): ChainRecord
    requires Dispatching(s)
  {
    FoldNode(input, s, Dispatched(s).id, RunChild(input, oracle, s, Dispatched(s).id)).record
  }

  /** At every replan decision of every launch: the lineage count is the number of that lineage's failed incarnations, the
      ceiling's count the nodes that were FAILED before and this one, and the retry is granted exactly when neither exceeds
      its budget. */
  lemma ReplanDecisionIsExact(input: ChainInput, oracle: Oracle, s: LoopState, reopened: set<string>)
    requires Journaled(input, s, reopened) && Decides(input, oracle, s)
    ensures var id := Dispatched(s).id; var root := LineageRoot(id);
            var r := DecidedOn(input, oracle, s);
            var attempt := |Spent(s.record, id)| + 1;
            var decision := DecideReplan(r, id, LoopBounds(input));
            && LiveFailures(r) == LiveFailures(s.record) + {id} && |LiveFailures(r)| == |LiveFailures(s.record)| + 1
            && id == Incarnation(root, attempt - 1)
            && LineageFailures(r, root) == Incarnations(root, attempt) && |LineageFailures(r, root)| == attempt
            && (decision.GrantReplan? <==>
                  attempt <= Bounded(MaxReplans(input)) && |LiveFailures(r)| <= Bounded(LoopBounds(input).maxChain))
            && (decision.GrantReplan? ==> NextRetry(r, id) == Incarnation(root, attempt))
  {
    hide RunChild, StoreInv, RecordInv, Spent, Incarnation, Incarnations, LiveFailures, LineageFailures;
    var n := Dispatched(s);
    var child := RunChild(input, oracle, s, n.id);
    DispatchableMeaning(s.record, n);
    FoldKeepsRecord(input, s, n, child);
    FoldAddsFailure(input, s, n, child);
    FoldKeepsJournal(input, oracle, s, n, reopened);
    hide Dispatchable, FoldNode, NextRetry;
    ExactDecision(input, s.record, DecidedOn(input, oracle, s), n);
  }

  /** In the chain's own options: a retry is granted exactly when replans are allowed per node and this lineage has failed less
      often before, and fewer nodes were FAILED than the chain allows in all, which by default is the number of nodes planned. */
  lemma GrantByOptions(input: ChainInput, oracle: Oracle, s: LoopState, reopened: set<string>)
    requires Journaled(input, s, reopened) && Decides(input, oracle, s)
    ensures DecideReplan(DecidedOn(input, oracle, s), Dispatched(s).id, LoopBounds(input)).GrantReplan? <==>
            && input.maxReplans.Some? && |Spent(s.record, Dispatched(s).id)| < input.maxReplans.value
            && |LiveFailures(s.record)| < if input.maxChainReplans.Some? then input.maxChainReplans.value else |input.plan.nodes|
  {
    hide Journaled, RunChild, FoldNode, Spent, LiveFailures, LineageFailures, Incarnation, Incarnations, DecideReplan;
    hide Dispatchable, NextRetry;
    ReplanDecisionIsExact(input, oracle, s, reopened);
  }

  lemma LiveFailureMeaning(r: ChainRecord, y: string)
    ensures y in LiveFailures(r) <==> y in NodeIds(r.plan) && SealedWith(r, y, Failed)
  {
    hide NodeIds;
  }

  lemma FoldAddsFailure(input: ChainInput, s: LoopState, n: PlanNode, child: Attended)
    requires n in Dispatchable(s.record)
    ensures var r := FoldNode(input, s, n.id, child).record;
            && n.id in NodeIds(s.record.plan) && n.id !in s.record.nodeOutcomes && r.plan == s.record.plan
            && LiveFailures(r) == LiveFailures(s.record)
                                  + (if DeriveNodeOutcome(child.report).status == Failed then {n.id} else {})
            && (DeriveNodeOutcome(child.report).status == Failed ==> |LiveFailures(r)| == |LiveFailures(s.record)| + 1)
  {
    hide NodeIds, LiveFailures, Dispatchable, FoldNode;
    UnsealedActive(s.record, n);
    FoldedOutcomes(input, s, n.id, child);
    var r := FoldNode(input, s, n.id, child).record;
    var added := if DeriveNodeOutcome(child.report).status == Failed then {n.id} else {};
    forall x
      ensures x in LiveFailures(r) <==> x in LiveFailures(s.record) || x in added
    {
      LiveFailureMeaning(r, x);
      LiveFailureMeaning(s.record, x);
    }
    LiveFailureMeaning(s.record, n.id);
    AddedSize(LiveFailures(s.record), n.id);
    assert LiveFailures(r) == LiveFailures(s.record) + added;
  }

  lemma UnsealedActive(r: ChainRecord, n: PlanNode)
    requires n in Dispatchable(r)
    ensures n.id in NodeIds(r.plan) && n.id !in r.nodeOutcomes
  {
    DispatchableMeaning(r, n);
  }

  lemma FoldedOutcomes(input: ChainInput, s: LoopState, id: string, child: Attended)
    ensures var r := FoldNode(input, s, id, child).record;
            r.plan == s.record.plan && r.nodeOutcomes == s.record.nodeOutcomes[id := DeriveNodeOutcome(child.report)]
  {
    hide DeriveChainStatus;
  }

  lemma AddedSize(xs: set<string>, x: string)
    ensures x !in xs ==> |xs + {x}| == |xs| + 1
  {
  }

  lemma ExactDecision(input: ChainInput, r0: ChainRecord, r: ChainRecord, n: PlanNode)
    requires RecordInv(input.chainId, r0) && RecordInv(input.chainId, r) && r.plan == r0.plan
    requires n in r.plan.nodes && SealedWith(r, n.id, Failed) && Spent(r, n.id) == Spent(r0, n.id)
    ensures var root := LineageRoot(n.id);
            var attempt := |Spent(r0, n.id)| + 1;
            var decision := DecideReplan(r, n.id, LoopBounds(input));
            && n.id == Incarnation(root, attempt - 1)
            && LineageFailures(r, root) == Incarnations(root, attempt) && |LineageFailures(r, root)| == attempt
            && (decision.GrantReplan? <==>
                  attempt <= Bounded(MaxReplans(input)) && |LiveFailures(r)| <= Bounded(LoopBounds(input).maxChain))
            && (decision.GrantReplan? ==> NextRetry(r, n.id) == Incarnation(root, attempt))
  {
    hide Incarnation, Incarnations, LiveFailures;
    assert n.id in NodeIds(r.plan);
    assert Incarnated(r0, n.id) && Incarnated(r, n.id);
    LineageFailureCount(input.chainId, r, n.id);
    RetryIsFresh(input.chainId, r, n.id);
  }

  /** A ceiling that is no smaller than the plan, as the default is, never decides. */
  lemma LargeCeilingNeverBinds(record: ChainRecord, bounds: ReplanBounds)
    requires |record.plan.nodes| <= Bounded(bounds.maxChain)
    ensures |LiveFailures(record)| <= Bounded(bounds.maxChain)
  {
    NoMoreIdsThanNodes(record.plan.nodes);
    assert NodeIds(record.plan) == set n | n in record.plan.nodes :: n.id;
    SubsetSize(LiveFailures(record), NodeIds(record.plan));
  }

  lemma {:induction false} NoMoreIdsThanNodes(nodes: seq<PlanNode>)
    ensures |set n | n in nodes :: n.id| <= |nodes|
  {
    var ids := set n | n in nodes :: n.id;
    if nodes == [] {
      assert ids == {};
    } else {
      var front, last := nodes[..|nodes| - 1], nodes[|nodes| - 1];
      NoMoreIdsThanNodes(front);
      assert nodes == front + [last];
      assert ids == (set n | n in front :: n.id) + {last.id};
    }
  }

  lemma SubsetSize(a: set<string>, b: set<string>)
    requires a <= b
    ensures |a| <= |b|
  {
    assert b == a + (b - a);
  }

  /** A seal charges the lineage of the sealed node and no other. */
  lemma OtherLineagesAreNotCharged(input: ChainInput, s: LoopState, n: PlanNode, child: Attended, root: string)
    requires n in Dispatchable(s.record) && root != LineageRoot(n.id)
    ensures LineageFailures(FoldNode(input, s, n.id, child).record, root) == LineageFailures(s.record, root)
  {
  }

  // ---- Seals ----

  lemma {:induction false} AttendKeepsBoundaries(oracle: Oracle, nodeId: string, runId: string, a: Attended, used: nat,
                                                 max: nat)
    ensures Boundaries(Attend(oracle, nodeId, runId, a, used, max).store.entries) == Boundaries(a.store.entries)
    decreases max - used
  {
    match DecideNodeHeal(DeriveNodeOutcome(a.report).status, a.report.resumable, used, max)
    case ReplanNode(_) =>
    case ResumeChild(attempt, why) =>
      var p := NodeResumed(nodeId, runId, attempt, OrElse(a.report.reason, why));
      BoundariesAppend(a.store.entries, p);
      AttendKeepsBoundaries(oracle, nodeId, runId,
                            Attended(oracle(a.executions), a.store.(entries := Appended(a.store.entries, p)), a.executions + 1),
                            attempt, max);
  }

  lemma FoldKeepsBoundaries(input: ChainInput, oracle: Oracle, s: LoopState, id: string)
    ensures Boundaries(FoldNode(input, s, id, RunChild(input, oracle, s, id)).store.entries) == Boundaries(s.store.entries)
  {
    hide Attend, Boundaries, HasKey;
    var run := ChildRunId(input.chainId, id);
    var child := RunChild(input, oracle, s, id);
    BoundariesAppend(s.store.entries, NodeStarted(id, run));
    AttendKeepsBoundaries(oracle, id, run, Attended(oracle(s.executions), Started(s.store, id, run), s.executions + 1),
                          0, MaxResumes(input));
    BoundariesAppend(child.store.entries,
                     SealedPayload(id, DeriveNodeOutcome(child.report), child.report.handoff, child.report.inconclusiveCheck));
  }

  /** Turns write no terminal and no reopen entries. */
  lemma TurnKeepsBoundaries(input: ChainInput, oracle: Oracle, s: LoopState)
    ensures Boundaries(Turn(input, oracle, s).store.entries) == Boundaries(s.store.entries)
  {
    hide Boundaries, FoldNode, RunChild, AfterFailure;
    if Dispatching(s) {
      var id := Dispatched(s).id;
      var child := RunChild(input, oracle, s, id);
      FoldKeepsBoundaries(input, oracle, s, id);
      FailureKeepsBoundaries(input, FoldNode(input, s, id, child), id, child.report.reason);
    }
  }

  lemma SpliceKeepsBoundaries(s: LoopState, id: string, decision: ReplanDecision, reason: Option<string>)
    requires decision.GrantReplan?
    ensures Boundaries(SpliceRetry(s, id, decision, reason).store.entries) == Boundaries(s.store.entries)
  {
    hide BuildReplanBrief, Boundaries, HasKey, BuildRetryPlan;
    var why := OrElse(reason, "unknown");
    match BuildRetryPlan(s.record.plan, id, why, decision.replansUsed)
    case None =>
    case Some(revised) =>
      BoundariesAppend(s.store.entries, NodeReplanned(id, decision.reason, revised, BuildReplanBrief(id, why)));
  }

  lemma FailureKeepsBoundaries(input: ChainInput, s: LoopState, id: string, reason: Option<string>)
    ensures Boundaries(AfterFailure(input, s, id, reason).store.entries) == Boundaries(s.store.entries)
  {
    hide SpliceRetry, DecideReplan, Boundaries;
    var decision := DecideReplan(s.record, id, LoopBounds(input));
    if decision.GrantReplan? { SpliceKeepsBoundaries(s, id, decision, reason); }
  }

  lemma {:induction false} RunKeepsBoundaries(input: ChainInput, oracle: Oracle, s: LoopState, k: nat)
    ensures Boundaries(StateAt(input, oracle, s, k).store.entries) == Boundaries(s.store.entries)
  {
    hide Turn;
    if k > 0 {
      RunKeepsBoundaries(input, oracle, s, k - 1);
      TurnKeepsBoundaries(input, oracle, StateAt(input, oracle, s, k - 1));
    }
  }

  lemma {:induction false} FailedActiveMeaning(record: ChainRecord, nodes: seq<PlanNode>)
    ensures FailedActive(record, nodes) != [] <==> exists n :: n in nodes && SealedWith(record, n.id, Failed)
  {
    if nodes != [] {
      FailedActiveMeaning(record, nodes[1..]);
    }
  }

  /** The journal has no terminal entry newer than its last reopen. */
  predicate Unsealed(es: seq<Entry>) {
    !SealedSinceReopen(es)
  }

  /** Of every launch: the seal is SUCCESS exactly when every active node succeeded and none escalated, else FAILED; a
      resumable mark is never wrong, though after a re-entry it may be missing. */
  lemma SealStands(s: LoopState)
    requires Standing(s) && s.record.status != Running && Unsealed(s.store.entries)
    ensures var e, mark := Finish(s), Parked(s).resumableSeal;
            && e.record == s.record.(status := e.record.status)
            && (e.record.status == ChainSuccess || e.record.status == ChainFailed)
            && (e.record.status == ChainSuccess <==> AllSucceeded(s.record) && !AnyEscalated(s.record))
            && e.store.row == WithStatus(s.store.row, e.record.status)
            && e.store.entries == Appended(s.store.entries,
                 Terminal(if e.record.status == ChainSuccess then Success else Failed, Parked(s).reason,
                          e.record.status == ChainFailed && mark))
            && (mark ==> AnyFailed(s.record))
  {
    hide SealedSinceReopen, Dispatchable;
    FailedActiveMeaning(s.record, s.record.plan.nodes);
    FailedNodeIsActive(s.record);
    if AllSucceeded(s.record) { SuccessIsNotFailure(s.record); }
  }

  lemma SuccessIsNotFailure(r: ChainRecord)
    requires AllSucceeded(r)
    ensures !AnyFailed(r)
  {
  }

  /** A state the loop has left is sealed SUCCESS exactly when every active node succeeded and none escalated;
      otherwise FAILED, marked resumable exactly when an active node is FAILED. */
  lemma FinishSeals(input: ChainInput, s: LoopState, reopened: set<string>)
    requires Inv(input, s, reopened) && s.record.status != Running && Unsealed(s.store.entries)
    ensures var e := Finish(s);
            && e.record == s.record.(status := e.record.status)
            && (e.record.status == ChainSuccess || e.record.status == ChainFailed)
            && (e.record.status == ChainSuccess <==> AllSucceeded(s.record) && !AnyEscalated(s.record))
            && e.store.row == WithStatus(s.store.row, e.record.status)
            && e.store.entries == Appended(s.store.entries,
                 Terminal(if e.record.status == ChainSuccess then Success else Failed, Parked(s).reason,
                          e.record.status == ChainFailed && AnyFailed(s.record)))
  {
    hide RecordInv, StoreInv, SealedSinceReopen, Dispatchable;
    FailedActiveMeaning(s.record, s.record.plan.nodes);
    var r := s.record;
    assert (exists n :: n in r.plan.nodes && SealedWith(r, n.id, Failed)) <==> AnyFailed(r) by {
      FailedNodeIsActive(r);
    }
  }

  lemma FailedNodeIsActive(r: ChainRecord)
    ensures (exists n :: n in r.plan.nodes && SealedWith(r, n.id, Failed)) <==> AnyFailed(r)
  {
    if AnyFailed(r) {
      var id :| id in NodeIds(r.plan) && SealedWith(r, id, Failed);
      var n :| n in r.plan.nodes && n.id == id;
    }
    if n :| n in r.plan.nodes && SealedWith(r, n.id, Failed) {
      assert n.id in NodeIds(r.plan);
    }
  }

  /** Every incarnation, once it has left the loop, writes exactly one seal. */
  lemma RunEndsSealed(input: ChainInput, oracle: Oracle, s: LoopState, k: nat, reopened: set<string>)
    requires Inv(input, s, reopened) && Unsealed(s.store.entries)
    requires StateAt(input, oracle, s, k).record.status != Running
    ensures var t := StateAt(input, oracle, s, k); var e := Finish(t);
            && (e.record.status == ChainSuccess || e.record.status == ChainFailed)
            && (e.record.status == ChainSuccess <==> AllSucceeded(t.record) && !AnyEscalated(t.record))
            && e.store.entries == Appended(t.store.entries,
                 Terminal(if e.record.status == ChainSuccess then Success else Failed, Parked(t).reason,
                          e.record.status == ChainFailed && AnyFailed(t.record)))
  {
    var t := StateAt(input, oracle, s, k);
    StillUnsealed(input, oracle, s, k, reopened);
    RunKeepsInv(input, oracle, s, k, reopened);
    hide StateAt, Finish, Inv, AllSucceeded, AnyEscalated, AnyFailed;
    FinishSeals(input, t, reopened);
  }

  lemma StillUnsealed(input: ChainInput, oracle: Oracle, s: LoopState, k: nat, reopened: set<string>)
    requires Journaled(input, s, reopened) && Unsealed(s.store.entries)
    ensures Unsealed(StateAt(input, oracle, s, k).store.entries)
  {
    hide StateAt, RecordInv, StatusInv, Boundaries, LastIdx, SealedSinceReopen;
    var t := StateAt(input, oracle, s, k);
    RunKeepsJournal(input, oracle, s, k, reopened);
    RunKeepsBoundaries(input, oracle, s, k);
    SealedMeansTerminalNewest(s.store.entries);
    SealedMeansTerminalNewest(t.store.entries);
  }

  lemma SealedMeansTerminalNewest(es: seq<Entry>)
    requires Contiguous(es)
    ensures SealedSinceReopen(es) <==> Boundaries(es) != [] && Boundaries(es)[|Boundaries(es)| - 1].Terminal?
  {
    SealedSinceMeansTerminalLast(es);
    LastBoundary(es);
    LastIdxBound(es, TerminalKind);
    LastIdxBound(es, ControlKind);
  }
}
