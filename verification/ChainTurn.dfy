/** One turn of the chain loop keeps the whole invariant. */
module ChainTurn {
  import opened Graph
  import opened Lineage
  import opened ChainTypes
  import opened Reducer
  import opened Replan
  import opened PlanSurgery
  import opened Journal
  import opened Activities
  import opened ChainLoop
  import opened ChainInvariant

  /** What every launch keeps: the record is in shape, and the journal rebuilds it but for the `reopened` ids. */
  ghost predicate Journaled(input: ChainInput, s: LoopState, reopened: set<string>) {
    RecordInv(input.chainId, s.record) && StoreInv(s.store, s.record, reopened)
  }

  /** ...and what holds besides while at most one active node is in trouble. */
  ghost predicate Inv(input: ChainInput, s: LoopState, reopened: set<string>) {
    Journaled(input, s, reopened) && StatusInv(s)
  }

  // ---- Journal steps ----

  lemma {:induction false} FoldStartPlan(p: Plan, q: Plan, es: seq<Entry>)
    ensures var a, b := Fold(p, es), Fold(q, es);
            a.runs == b.runs && a.outcomes == b.outcomes && a.handoffs == b.handoffs
  {
    if es != [] {
      FoldStartPlan(p, q, es[..|es| - 1]);
    }
  }

  lemma ReplannedKey(es: seq<Entry>, p: Payload)
    requires p.NodeReplanned?
    ensures HasKey(es, p) <==> p.failedNodeId in ReplannedIds(es)
  {
    if p.failedNodeId in ReplannedIds(es) {
      var e :| e in es && e.payload.NodeReplanned? && e.payload.failedNodeId == p.failedNodeId;
      var i :| 0 <= i < |es| && es[i] == e;
      assert SameKey(es[i].payload, p);
    }
  }

  /** Starting a node records its run, whether or not it had been started before under the same run id. */
  lemma StartView(store: Store, id: string, run: string)
    requires store.row.Some? && Contiguous(store.entries)
    requires id in View(store).runs ==> View(store).runs[id] == run
    ensures var t := Started(store, id, run);
            && t.row == store.row && Contiguous(t.entries)
            && View(t) == View(store).(runs := View(store).runs[id := run])
            && ReplannedIds(t.entries) == ReplannedIds(store.entries)
  {
    var p := NodeStarted(id, run);
    AppendView(store.entries, store.row.value.plan, p);
    FoldedRun(store.row.value.plan, store.entries, id);
    if HasKey(store.entries, p) {
      assert id in View(store).runs;
      assert View(store).runs[id := run] == View(store).runs;
    }
  }

  /** The first seal of a node is kept in full, with the marker given or else the outcome's own; a second seal changes nothing. */
  lemma SealView(store: Store, id: string, outcome: NodeOutcome, handoff: Option<string>, check: Option<string>)
    requires store.row.Some? && Contiguous(store.entries)
    ensures var t := Sealed(store, id, outcome, handoff, check);
            var whole := outcome.(inconclusiveCheck := if check.Some? then check else outcome.inconclusiveCheck);
            && t.row == store.row && Contiguous(t.entries)
            && ReplannedIds(t.entries) == ReplannedIds(store.entries)
            && View(t) == if id in View(store).outcomes then View(store)
                          else View(store).(outcomes := View(store).outcomes[id := whole],
                                            handoffs := if handoff.Some? then View(store).handoffs[id := handoff.value]
                                                        else View(store).handoffs)
  {
    var p := SealedPayload(id, outcome, handoff, check);
    AppendView(store.entries, store.row.value.plan, p);
    FoldedOutcome(store.row.value.plan, store.entries, id);
    assert Merged(p.outcome, p.inconclusiveCheck)
        == outcome.(inconclusiveCheck := if check.Some? then check else outcome.inconclusiveCheck);
    SealedKey(store.entries, p);
  }

  lemma SealedKey(es: seq<Entry>, p: Payload)
    requires p.NodeSealed?
    ensures HasKey(es, p) <==> exists i: nat :: SealsAt(es, i, p.nodeId)
  {
    forall i: nat | i < |es|
      ensures SameKey(es[i].payload, p) <==> SealsAt(es, i, p.nodeId)
    {
    }
  }

  lemma UpdateAgrees<T>(a: map<string, T>, b: map<string, T>, k: string, v: T, except: set<string>)
    requires a - except == b - except
    ensures a[k := v] - except == b[k := v] - except
    ensures k in except ==> a - except == b[k := v] - except
  {
    assert forall x :: x in a && x !in except ==> x in a - except;
    assert forall x :: x in b && x !in except ==> x in b - except;
    assert forall x :: x in a - except ==> a[x] == (a - except)[x];
    assert forall x :: x in b - except ==> b[x] == (b - except)[x];
  }

  lemma SealedElsewhere<T>(a: map<string, T>, b: map<string, T>, id: string, except: set<string>)
    requires a - except == b - except && id in a && id !in b
    ensures id in except
  {
    assert forall x :: x in a && x !in except ==> x in a - except;
  }

  /** The store of an attended child: the node is started, and nothing else the fold reads has changed. */
  ghost predicate AttendedStore(chainId: string, before: Store, after: Store, id: string)
    requires before.row.Some?
  {
    && after.row == before.row && Contiguous(after.entries)
    && View(after) == View(before).(runs := View(before).runs[id := ChildRunId(chainId, id)])
    && ReplannedIds(after.entries) == ReplannedIds(before.entries)
  }

  lemma RunChildStore(input: ChainInput, oracle: Oracle, s: LoopState, id: string, reopened: set<string>)
    requires RecordInv(input.chainId, s.record) && StoreInv(s.store, s.record, reopened)
    ensures AttendedStore(input.chainId, s.store, RunChild(input, oracle, s, id).store, id)
  {
    hide Attend, Fold, ReplannedIds, Started, Incarnated, RootsDistinct;
    var run := ChildRunId(input.chainId, id);
    StartView(s.store, id, run);
    AttendKeeps(oracle, id, run, Attended(oracle(s.executions), Started(s.store, id, run), s.executions + 1),
                0, MaxResumes(input));
  }

  lemma SealedOutcomesAgree(a: Folded, r: ChainRecord, id: string, outcome: NodeOutcome, handoff: Option<string>,
                            reopened: set<string>)
    requires a.outcomes - reopened == r.nodeOutcomes - reopened
    requires a.handoffs - reopened == r.nodeHandoffs - reopened
    requires id !in r.nodeOutcomes
    ensures var o := if id in a.outcomes then a.outcomes else a.outcomes[id := outcome];
            o - reopened == r.nodeOutcomes[id := outcome] - reopened
    ensures var h := if handoff.Some? && id !in a.outcomes then a.handoffs[id := handoff.value] else a.handoffs;
            h - reopened == (if handoff.Some? then r.nodeHandoffs[id := handoff.value] else r.nodeHandoffs) - reopened
  {
    UpdateAgrees(a.outcomes, r.nodeOutcomes, id, outcome, reopened);
    if handoff.Some? {
      UpdateAgrees(a.handoffs, r.nodeHandoffs, id, handoff.value, reopened);
    }
    if id in a.outcomes {
      SealedElsewhere(a.outcomes, r.nodeOutcomes, id, reopened);
    }
  }

  /** The journal after dispatching and sealing a node rebuilds the folded record. */
  lemma FoldKeepsStore(input: ChainInput, s: LoopState, id: string, child: Attended, reopened: set<string>)
    requires StoreInv(s.store, s.record, reopened) && id !in s.record.nodeOutcomes
    requires AttendedStore(input.chainId, s.store, child.store, id)
    ensures StoreInv(FoldNode(input, s, id, child).store, FoldNode(input, s, id, child).record, reopened)
  {
    hide ReplannedIds, Fold;
    var outcome := DeriveNodeOutcome(child.report);
    SealView(child.store, id, outcome, child.report.handoff, child.report.inconclusiveCheck);
    SealedOutcomesAgree(View(s.store), s.record, id, outcome, child.report.handoff, reopened);
  }

  /** The spliced record, and the journal that records the splice. */
  lemma SpliceEffect(input: ChainInput, s: LoopState, f: nat, decision: ReplanDecision, failureReason: Option<string>)
    requires RecordInv(input.chainId, s.record) && f < |s.record.plan.nodes|
    requires SealedWith(s.record, s.record.plan.nodes[f].id, Failed)
    requires decision.GrantReplan?
    requires decision.replansUsed == |LineageFailures(s.record, LineageRoot(s.record.plan.nodes[f].id))|
    ensures var id := s.record.plan.nodes[f].id; var t := SpliceRetry(s, id, decision, failureReason);
            && BuildRetryPlan(s.record.plan, id, OrElse(failureReason, "unknown"), decision.replansUsed) == Some(t.record.plan)
            && SplicedRecord(s.record, t.record, f, NextRetry(s.record, id))
            && t.record.status == Running && t.record.nodeHandoffs == s.record.nodeHandoffs
            && t.resumableSeal == s.resumableSeal && t.executions == s.executions
            && t.store == Replanned(s.store, id, decision.reason, t.record.plan,
                                    BuildReplanBrief(id, OrElse(failureReason, "unknown")))
  {
    hide BuildReplanBrief, Incarnated, Splice;
    var id := s.record.plan.nodes[f].id;
    IdAtIsIn(s.record.plan, f);
    OneActivePerLineage(s.record.plan, id, id);
    SplicePositions(s.record.plan, f, OrElse(failureReason, "unknown"), decision.replansUsed);
  }

  /** A granted splice keeps the record's invariant and the shape of the plan. */
  lemma GrantedSplice(input: ChainInput, s: LoopState, f: nat, decision: ReplanDecision, failureReason: Option<string>)
    requires RecordInv(input.chainId, s.record) && f < |s.record.plan.nodes|
    requires SealedWith(s.record, s.record.plan.nodes[f].id, Failed)
    requires decision.GrantReplan?
    requires decision.replansUsed == |LineageFailures(s.record, LineageRoot(s.record.plan.nodes[f].id))|
    ensures var r' := SpliceRetry(s, s.record.plan.nodes[f].id, decision, failureReason).record;
            && SplicedRecord(s.record, r', f, NextRetry(s.record, s.record.plan.nodes[f].id))
            && RecordInv(input.chainId, r')
            && (AcyclicPlan(s.record.plan) ==> AcyclicPlan(r'.plan))
  {
    hide RecordInv, SpliceRetry, BuildRetryPlan, LineageFailures, SplicedRecord, AcyclicPlan, NextRetry;
    SpliceEffect(input, s, f, decision, failureReason);
    var r' := SpliceRetry(s, s.record.plan.nodes[f].id, decision, failureReason).record;
    SpliceKeepsPlanShape(input.chainId, s.record, r', f, OrElse(failureReason, "unknown"));
    SpliceKeepsRecord(input.chainId, s.record, r', f);
  }

  lemma ReplanView(store: Store, id: string, reason: string, revised: Plan, brief: string)
    requires store.row.Some? && Contiguous(store.entries) && id !in ReplannedIds(store.entries)
    ensures var t := Replanned(store, id, reason, revised, brief);
            && t.row.Some? && Contiguous(t.entries)
            && View(t) == View(store).(plan := revised)
            && ReplannedIds(t.entries) == ReplannedIds(store.entries) + {id}
  {
    hide Fold, ReplannedIds, HasKey;
    var p := NodeReplanned(id, reason, revised, brief);
    ReplannedKey(store.entries, p);
    AppendView(store.entries, revised, p);
    FoldStartPlan(store.row.value.plan, revised, store.entries);
  }

  lemma SpliceKeepsStore(input: ChainInput, s: LoopState, t: LoopState, f: nat, reason: string, brief: string,
                         reopened: set<string>)
    requires RecordInv(input.chainId, s.record) && StoreInv(s.store, s.record, reopened) && f < |s.record.plan.nodes|
    requires SealedWith(s.record, s.record.plan.nodes[f].id, Failed)
    requires SplicedRecord(s.record, t.record, f, NextRetry(s.record, s.record.plan.nodes[f].id))
    requires t.record.nodeHandoffs == s.record.nodeHandoffs
    requires t.store == Replanned(s.store, s.record.plan.nodes[f].id, reason, t.record.plan, brief)
    ensures StoreInv(t.store, t.record, reopened)
  {
    var id := s.record.plan.nodes[f].id;
    SplicedActive(input.chainId, s.record, t.record, f);
    ReplannedStore(s, t, id, NextRetry(s.record, id), reason, brief, reopened);
  }

  lemma ReplannedStore(s: LoopState, t: LoopState, id: string, retryId: string, reason: string, brief: string,
                       reopened: set<string>)
    requires StoreInv(s.store, s.record, reopened) && id in NodeIds(s.record.plan) && id in s.record.nodeOutcomes
    requires NodeIds(t.record.plan) == NodeIds(s.record.plan) - {id} + {retryId}
    requires retryId != id && retryId !in s.record.nodeOutcomes
    requires t.record.nodeOutcomes == s.record.nodeOutcomes && t.record.nodeRuns == s.record.nodeRuns
    requires t.record.nodeHandoffs == s.record.nodeHandoffs
    requires t.store == Replanned(s.store, id, reason, t.record.plan, brief)
    ensures StoreInv(t.store, t.record, reopened)
  {
    hide ReplannedIds, Fold, NodeIds, Replanned;
    ReplanView(s.store, id, reason, t.record.plan, brief);
  }

  /** The active ids trade the failed id for one that is new to the record. */
  lemma SplicedActive(chainId: string, r: ChainRecord, r': ChainRecord, f: nat)
    requires RecordInv(chainId, r) && f < |r.plan.nodes| && SealedWith(r, r.plan.nodes[f].id, Failed)
    requires SplicedRecord(r, r', f, NextRetry(r, r.plan.nodes[f].id))
    ensures var id := r.plan.nodes[f].id; var retryId := NextRetry(r, id);
            && NodeIds(r'.plan) == NodeIds(r.plan) - {id} + {retryId}
            && id in NodeIds(r.plan) && id != retryId
            && id in r.nodeOutcomes && retryId !in r.nodeOutcomes
            && r'.planId == r'.plan.id && r'.nodeOutcomes == r.nodeOutcomes && r'.nodeRuns == r.nodeRuns
  {
    var id := r.plan.nodes[f].id;
    IdAtIsIn(r.plan, f);
    RetryIsFresh(chainId, r, id);
    SpliceKeepsIncarnated(chainId, r, r', f);
  }

  // ---- The turn ----

  /** Before a node is sealed nothing active is in trouble, so afterwards it alone can be. */
  lemma OnlyTheSealedNodeCanBeTroubled(input: ChainInput, s: LoopState, n: PlanNode, child: Attended)
    requires DeriveChainStatus(s.record) == Running && n in Dispatchable(s.record)
    ensures forall x :: Troubled(FoldNode(input, s, n.id, child).record, x) ==> x == n.id
  {
    CalmWhileRunning(s.record);
    var r' := FoldNode(input, s, n.id, child).record;
    assert forall x :: x != n.id && Troubled(r', x) ==> Troubled(s.record, x);
  }

  lemma FoldKeepsStatus(input: ChainInput, s: LoopState, n: PlanNode, child: Attended)
    requires StatusInv(s) && s.record.status == Running && n in Dispatchable(s.record)
    ensures var t := FoldNode(input, s, n.id, child);
            && t.record.status == DeriveChainStatus(t.record)
            && AtMostOneTroubled(t.record)
            && !t.resumableSeal
            && (AnyFailed(t.record) <==> DeriveNodeOutcome(child.report).status == Failed)
  {
    DispatchableMeaning(s.record, n);
    OnlyTheSealedNodeCanBeTroubled(input, s, n, child);
    var t := FoldNode(input, s, n.id, child);
    assert n.id in NodeIds(t.record.plan);
    assert forall x :: x in NodeIds(t.record.plan) && SealedWith(t.record, x, Failed) ==> Troubled(t.record, x);
  }

  lemma SpliceRestoresRunning(input: ChainInput, r: ChainRecord, r': ChainRecord, f: nat)
    requires RecordInv(input.chainId, r) && f < |r.plan.nodes| && SealedWith(r, r.plan.nodes[f].id, Failed)
    requires forall x :: Troubled(r, x) ==> x == r.plan.nodes[f].id
    requires SplicedRecord(r, r', f, NextRetry(r, r.plan.nodes[f].id))
    ensures DeriveChainStatus(r') == Running && AtMostOneTroubled(r')
  {
    SplicedActive(input.chainId, r, r', f);
    CalmAfterSwap(r, r', r.plan.nodes[f].id, NextRetry(r, r.plan.nodes[f].id));
  }

  lemma CalmAfterSwap(r: ChainRecord, r': ChainRecord, id: string, retryId: string)
    requires NodeIds(r'.plan) == NodeIds(r.plan) - {id} + {retryId}
    requires retryId !in r.nodeOutcomes && r'.nodeOutcomes == r.nodeOutcomes
    requires forall x :: Troubled(r, x) ==> x == id
    requires retryId != id
    ensures DeriveChainStatus(r') == Running && AtMostOneTroubled(r')
  {
    hide NodeIds;
    assert retryId in NodeIds(r'.plan);
    assert forall x :: Troubled(r', x) ==> Troubled(r, x) && x != id;
    forall x | x in NodeIds(r'.plan)
      ensures !SealedWith(r', x, Failed) && !Escalated(r', x)
    {
      assert !Troubled(r', x);
    }
    assert !SealedWith(r', retryId, Success);
  }

  lemma SpliceKeepsJournal(input: ChainInput, s: LoopState, f: nat, decision: ReplanDecision, failureReason: Option<string>,
                           reopened: set<string>)
    requires Journaled(input, s, reopened)
    requires f < |s.record.plan.nodes| && SealedWith(s.record, s.record.plan.nodes[f].id, Failed)
    requires decision.GrantReplan?
    requires decision.replansUsed == |LineageFailures(s.record, LineageRoot(s.record.plan.nodes[f].id))|
    ensures var t := SpliceRetry(s, s.record.plan.nodes[f].id, decision, failureReason);
            && Journaled(input, t, reopened)
            && t.record.status == Running && t.resumableSeal == s.resumableSeal
            && SplicedRecord(s.record, t.record, f, NextRetry(s.record, s.record.plan.nodes[f].id))
            && (AcyclicPlan(s.record.plan) ==> AcyclicPlan(t.record.plan))
  {
    hide RecordInv, StoreInv, BuildReplanBrief, BuildRetryPlan;
    var id := s.record.plan.nodes[f].id;
    var t := SpliceRetry(s, id, decision, failureReason);
    SpliceEffect(input, s, f, decision, failureReason);
    GrantedSplice(input, s, f, decision, failureReason);
    SpliceKeepsStore(input, s, t, f, decision.reason, BuildReplanBrief(id, OrElse(failureReason, "unknown")), reopened);
  }

  /** A splice, granted in the loop or by the operator, keeps the invariant. */
  lemma SpliceKeepsInv(input: ChainInput, s: LoopState, f: nat, decision: ReplanDecision, failureReason: Option<string>,
                       reopened: set<string>)
    requires Journaled(input, s, reopened) && !s.resumableSeal
    requires f < |s.record.plan.nodes| && SealedWith(s.record, s.record.plan.nodes[f].id, Failed)
    requires forall x :: Troubled(s.record, x) ==> x == s.record.plan.nodes[f].id
    requires decision.GrantReplan?
    requires decision.replansUsed == |LineageFailures(s.record, LineageRoot(s.record.plan.nodes[f].id))|
    ensures var t := SpliceRetry(s, s.record.plan.nodes[f].id, decision, failureReason);
            && Inv(input, t, reopened)
            && t.record.status == Running
            && SplicedRecord(s.record, t.record, f, NextRetry(s.record, s.record.plan.nodes[f].id))
            && (AcyclicPlan(s.record.plan) ==> AcyclicPlan(t.record.plan))
  {
    hide RecordInv, StoreInv, SpliceRetry, SplicedRecord;
    SpliceKeepsJournal(input, s, f, decision, failureReason, reopened);
    SpliceRestoresRunning(input, s.record, SpliceRetry(s, s.record.plan.nodes[f].id, decision, failureReason).record, f);
  }

  lemma FoldKeepsRecord(input: ChainInput, s: LoopState, n: PlanNode, child: Attended)
    requires RecordInv(input.chainId, s.record) && n in Dispatchable(s.record)
    ensures RecordInv(input.chainId, FoldNode(input, s, n.id, child).record)
    ensures forall x :: x in NodeIds(s.record.plan) ==>
              Spent(FoldNode(input, s, n.id, child).record, x) == Spent(s.record, x)
  {
    FoldSealsOne(input, s, n, child);
    SealKeepsRecord(input.chainId, s.record, FoldNode(input, s, n.id, child).record, n);
  }

  lemma DispatchKeepsJournal(input: ChainInput, oracle: Oracle, s: LoopState, n: PlanNode, reopened: set<string>)
    requires Journaled(input, s, reopened) && n in Dispatchable(s.record)
    ensures Journaled(input, Dispatch(input, oracle, s, n.id), reopened)
    ensures AcyclicPlan(s.record.plan) ==> AcyclicPlan(Dispatch(input, oracle, s, n.id).record.plan)
  {
    FoldKeepsJournal(input, oracle, s, n, reopened);
    hide RecordInv, StoreInv, FoldNode, RunChild, AfterFailure, AcyclicPlan;
    var child := RunChild(input, oracle, s, n.id);
    if DeriveNodeOutcome(child.report).status == Failed {
      FailureKeepsJournal(input, FoldNode(input, s, n.id, child), n, child.report.reason, reopened);
    }
  }

  lemma FoldKeepsJournal(input: ChainInput, oracle: Oracle, s: LoopState, n: PlanNode, reopened: set<string>)
    requires Journaled(input, s, reopened) && n in Dispatchable(s.record)
    ensures var child := RunChild(input, oracle, s, n.id); var t := FoldNode(input, s, n.id, child);
            && Journaled(input, t, reopened) && t.record.plan == s.record.plan && n in t.record.plan.nodes
            && SealedWith(t.record, n.id, DeriveNodeOutcome(child.report).status)
  {
    var child := RunChild(input, oracle, s, n.id);
    DispatchableMeaning(s.record, n);
    hide RecordInv, StoreInv, RunChild;
    RunChildStore(input, oracle, s, n.id, reopened);
    FoldKeepsRecord(input, s, n, child);
    FoldKeepsStore(input, s, n.id, child, reopened);
  }

  lemma FailureKeepsJournal(input: ChainInput, s: LoopState, n: PlanNode, reason: Option<string>, reopened: set<string>)
    requires Journaled(input, s, reopened)
    requires n in s.record.plan.nodes && SealedWith(s.record, n.id, Failed)
    ensures Journaled(input, AfterFailure(input, s, n.id, reason), reopened)
    ensures AcyclicPlan(s.record.plan) ==> AcyclicPlan(AfterFailure(input, s, n.id, reason).record.plan)
  {
    hide RecordInv, StoreInv, SpliceRetry;
    var decision := DecideReplan(s.record, n.id, LoopBounds(input));
    var f :| 0 <= f < |s.record.plan.nodes| && s.record.plan.nodes[f] == n;
    if decision.GrantReplan? {
      SpliceKeepsJournal(input, s, f, decision, reason, reopened);
    }
  }

  lemma TurnKeepsJournal(input: ChainInput, oracle: Oracle, s: LoopState, reopened: set<string>)
    requires Journaled(input, s, reopened)
    ensures Journaled(input, Turn(input, oracle, s), reopened)
    ensures AcyclicPlan(s.record.plan) ==> AcyclicPlan(Turn(input, oracle, s).record.plan)
  {
    hide RecordInv, StoreInv, Dispatch, AcyclicPlan;
    if s.record.status == Running {
      if Dispatchable(s.record) != [] {
        DispatchKeepsJournal(input, oracle, s, Dispatchable(s.record)[0], reopened);
      } else {
        StatusIsSeparate(input.chainId, s.store, s.record, ChainFailed, reopened);
      }
    }
  }

  /** Whatever trouble a launch starts with, record and journal stay in step through every turn. */
  lemma {:induction false} RunKeepsJournal(input: ChainInput, oracle: Oracle, s: LoopState, k: nat, reopened: set<string>)
    requires Journaled(input, s, reopened)
    ensures Journaled(input, StateAt(input, oracle, s, k), reopened)
    ensures AcyclicPlan(s.record.plan) ==> AcyclicPlan(StateAt(input, oracle, s, k).record.plan)
  {
    hide Turn, Journaled, AcyclicPlan;
    if k > 0 {
      RunKeepsJournal(input, oracle, s, k - 1, reopened);
      TurnKeepsJournal(input, oracle, StateAt(input, oracle, s, k - 1), reopened);
    }
  }

  lemma DispatchKeepsStatus(input: ChainInput, oracle: Oracle, s: LoopState, n: PlanNode, reopened: set<string>)
    requires Inv(input, s, reopened) && s.record.status == Running && n in Dispatchable(s.record)
    ensures StatusInv(Dispatch(input, oracle, s, n.id))
  {
    hide RecordInv, StoreInv, RunChild, AfterFailure;
    var child := RunChild(input, oracle, s, n.id);
    FoldKeepsJournal(input, oracle, s, n, reopened);
    FoldKeepsStatus(input, s, n, child);
    OnlyTheSealedNodeCanBeTroubled(input, s, n, child);
    if DeriveNodeOutcome(child.report).status == Failed {
      FailureKeepsStatus(input, FoldNode(input, s, n.id, child), n, child.report.reason, reopened);
    }
  }

  lemma FailureKeepsStatus(input: ChainInput, s: LoopState, n: PlanNode, reason: Option<string>, reopened: set<string>)
    requires Journaled(input, s, reopened) && !s.resumableSeal
    requires n in s.record.plan.nodes && SealedWith(s.record, n.id, Failed)
    requires s.record.status == DeriveChainStatus(s.record)
    requires forall x :: Troubled(s.record, x) ==> x == n.id
    ensures StatusInv(AfterFailure(input, s, n.id, reason))
  {
    hide RecordInv, StoreInv, SpliceRetry;
    var decision := DecideReplan(s.record, n.id, LoopBounds(input));
    var f :| 0 <= f < |s.record.plan.nodes| && s.record.plan.nodes[f] == n;
    IdAtIsIn(s.record.plan, f);
    if decision.GrantReplan? {
      SpliceKeepsInv(input, s, f, decision, reason, reopened);
    } else {
      assert Troubled(s.record, n.id);
    }
  }

  lemma TurnKeepsInv(input: ChainInput, oracle: Oracle, s: LoopState, reopened: set<string>)
    requires Inv(input, s, reopened)
    ensures Inv(input, Turn(input, oracle, s), reopened)
    ensures AcyclicPlan(s.record.plan) ==> AcyclicPlan(Turn(input, oracle, s).record.plan)
  {
    hide RecordInv, StoreInv, Dispatch, AcyclicPlan;
    TurnKeepsJournal(input, oracle, s, reopened);
    if s.record.status == Running {
      if Dispatchable(s.record) != [] {
        DispatchKeepsStatus(input, oracle, s, Dispatchable(s.record)[0], reopened);
      } else {
        StuckKeepsStatus(input, oracle, s);
      }
    }
  }

  lemma StuckKeepsStatus(input: ChainInput, oracle: Oracle, s: LoopState)
    requires StatusInv(s) && s.record.status == Running && Dispatchable(s.record) == []
    ensures StatusInv(Turn(input, oracle, s))
  {
    CalmWhileRunning(s.record);
    var t := Turn(input, oracle, s);
    assert forall x :: Troubled(t.record, x) ==> Troubled(s.record, x);
  }

  lemma {:induction false} RunKeepsInv(input: ChainInput, oracle: Oracle, s: LoopState, k: nat, reopened: set<string>)
    requires Inv(input, s, reopened)
    ensures Inv(input, StateAt(input, oracle, s, k), reopened)
    ensures AcyclicPlan(s.record.plan) ==> AcyclicPlan(StateAt(input, oracle, s, k).record.plan)
  {
    hide Turn, Inv;
    if k > 0 {
      RunKeepsInv(input, oracle, s, k - 1, reopened);
      TurnKeepsInv(input, oracle, StateAt(input, oracle, s, k - 1), reopened);
    }
  }

  // ---- The status of every launch, whatever trouble it starts with ----

  /** RUNNING has something left to do and no seal decided; any other status is the reducer's, or the stuck branch's. */
  ghost predicate Standing(s: LoopState) {
    var r := s.record;
    && (r.status == Running ==> !s.resumableSeal && !AllSucceeded(r))
    && (r.status != Running ==> r.status == DeriveChainStatus(r) || (r.status == ChainFailed && !AllSucceeded(r)))
    && (s.resumableSeal ==> AnyFailed(r))
  }

  lemma InvStands(input: ChainInput, s: LoopState, reopened: set<string>)
    requires Inv(input, s, reopened)
    ensures Journaled(input, s, reopened) && Standing(s)
  {
    hide Journaled;
  }

  lemma FailureKeepsStanding(input: ChainInput, s: LoopState, n: PlanNode, reason: Option<string>, reopened: set<string>)
    requires Journaled(input, s, reopened) && !s.resumableSeal
    requires n in s.record.plan.nodes && SealedWith(s.record, n.id, Failed)
    requires s.record.status == DeriveChainStatus(s.record)
    ensures Standing(AfterFailure(input, s, n.id, reason))
  {
    hide RecordInv, StoreInv, SpliceRetry, LineageFailures;
    var decision := DecideReplan(s.record, n.id, LoopBounds(input));
    var f :| 0 <= f < |s.record.plan.nodes| && s.record.plan.nodes[f] == n;
    IdAtIsIn(s.record.plan, f);
    if decision.GrantReplan? {
      SpliceKeepsJournal(input, s, f, decision, reason, reopened);
      RetryIsUnsealed(input, s.record, SpliceRetry(s, n.id, decision, reason).record, f);
    }
  }

  lemma RetryIsUnsealed(input: ChainInput, r: ChainRecord, r': ChainRecord, f: nat)
    requires RecordInv(input.chainId, r) && f < |r.plan.nodes| && SealedWith(r, r.plan.nodes[f].id, Failed)
    requires SplicedRecord(r, r', f, NextRetry(r, r.plan.nodes[f].id))
    ensures !AllSucceeded(r')
  {
    SplicedActive(input.chainId, r, r', f);
    var retryId := NextRetry(r, r.plan.nodes[f].id);
    assert retryId in NodeIds(r'.plan) && !SealedWith(r', retryId, Success);
  }

  lemma TurnKeepsStanding(input: ChainInput, oracle: Oracle, s: LoopState, reopened: set<string>)
    requires Journaled(input, s, reopened) && Standing(s)
    ensures Standing(Turn(input, oracle, s))
  {
    hide RecordInv, StoreInv, RunChild, AfterFailure;
    if s.record.status == Running && Dispatchable(s.record) != [] {
      var n := Dispatchable(s.record)[0];
      var child := RunChild(input, oracle, s, n.id);
      FoldKeepsJournal(input, oracle, s, n, reopened);
      if DeriveNodeOutcome(child.report).status == Failed {
        FailureKeepsStanding(input, FoldNode(input, s, n.id, child), n, child.report.reason, reopened);
      }
    }
  }

  lemma {:induction false} RunKeepsStanding(input: ChainInput, oracle: Oracle, s: LoopState, k: nat, reopened: set<string>)
    requires Journaled(input, s, reopened) && Standing(s)
    ensures Standing(StateAt(input, oracle, s, k))
  {
    hide Turn, Journaled, Standing;
    if k > 0 {
      RunKeepsStanding(input, oracle, s, k - 1, reopened);
      RunKeepsJournal(input, oracle, s, k - 1, reopened);
      TurnKeepsStanding(input, oracle, StateAt(input, oracle, s, k - 1), reopened);
    }
  }
}
