/** Reopening a sealed chain: what a resume restores, what it heals, and what it loses. */
module ChainResume {
  import opened Lineage
  import opened ChainTypes
  import opened Reducer
  import opened Replan
  import opened PlanSurgery
  import opened Journal
  import opened Activities
  import opened ChainLoop
  import opened ChainInvariant
  import opened ChainTurn
  import opened ChainTermination
  import opened ChainTheorems
  import opened ChainGuarantees

  lemma NeutralEntryKeepsStore(store: Store, record: ChainRecord, p: Payload, row: Option<ChainRow>)
    requires StoreInv(store, record, {})
    requires p.PlanEntry? || p.ControlEvent? || p.Terminal?
    requires row.Some? && row.value.plan == store.row.value.plan
    ensures StoreInv(Store(Appended(store.entries, p), row), record, {})
    ensures StoreInv(Store(store.entries, row), record, {})
  {
    AppendView(store.entries, store.row.value.plan, p);
  }

  /** A re-entered chain starts from the record it had, its status derived afresh. */
  lemma RestoredStart(input: ChainInput, store: Store, record: ChainRecord, lastReport: ChildReport)
    requires RecordInv(input.chainId, record) && StoreInv(store, record, {})
    ensures var i := Initialized(store, input.plan);
            var s := LoopState(record.(status := DeriveChainStatus(record)), Reopened(i), None, false, 0);
            && StoreInv(s.store, s.record, {}) && RecordInv(input.chainId, s.record)
            && Unsealed(s.store.entries)
            && Start(input, store, lastReport) == if WasSealed(store.entries) then ResumeFailed(input, s, lastReport) else s
  {
    hide Fold, ReplannedIds, RecordInv, DeriveChainStatus, FirstFailed, ResumeFailed;
    var i := Initialized(store, input.plan);
    NeutralEntryKeepsStore(store, record, PlanEntry(input.plan), i.row);
    EntriesOfAppend(store.entries, PlanEntry(input.plan), TerminalKind);
    assert StoreInv(i, record, {});
    RestoredRecord(input.chainId, i, record);
    ReopenedStore(i, record);
    StatusIsSeparate(input.chainId, Reopened(i), record, DeriveChainStatus(record), {});
    DeriveIgnoresStatus(record, Running);
  }

  lemma DeriveIgnoresStatus(r: ChainRecord, status: ChainStatus)
    ensures DeriveChainStatus(r.(status := status)) == DeriveChainStatus(r)
  {
    var t := r.(status := status);
    assert forall x, st :: SealedWith(t, x, st) == SealedWith(r, x, st);
    assert forall x :: Escalated(t, x) == Escalated(r, x);
  }

  lemma RestoredRecord(chainId: string, store: Store, record: ChainRecord)
    requires RecordInv(chainId, record) && StoreInv(store, record, {})
    ensures ChainRecordOf(store) == Some(record.(status := store.row.value.status))
  {
    ReplayIsLive(chainId, store, record);
  }

  lemma ReopenedStore(store: Store, record: ChainRecord)
    requires StoreInv(store, record, {})
    ensures StoreInv(Reopened(store), record, {}) && Unsealed(Reopened(store).entries)
  {
    hide Fold, ReplannedIds, FirstFailed, LastIdx, EntriesOf;
    SealedSinceMeansTerminalLast(store.entries);
    if NeedsReopen(store.entries) {
      var p := Reopened(store).entries[|store.entries|].payload;
      NeutralEntryKeepsStore(store, record, p, Reopened(store).row);
      LastIdxAppend(store.entries, p, ControlKind);
      LastIdxAppend(store.entries, p, TerminalKind);
      LastIdxBound(store.entries, TerminalKind);
      SealedSinceMeansTerminalLast(Reopened(store).entries);
    }
  }

  /** The ids whose sealed outcome the resume drops from the live record: the re-entered child, if there is one. */
  function ReenteredIds(record: ChainRecord, lastReport: ChildReport): set<string> {
    match FirstFailed(record, record.plan.nodes)
    case None => {}
    case Some(id) => if id in record.nodeRuns && lastReport.resumable then {id} else {}
  }

  /** The record with one node's seal dropped, so that its child is executed again. */
  function WithoutNode(r: ChainRecord, id: string): ChainRecord {
    r.(nodeOutcomes := r.nodeOutcomes - {id}, status := Running)
  }

  lemma ReentryKeepsRecord(chainId: string, r: ChainRecord, id: string)
    requires RecordInv(chainId, r) && id in NodeIds(r.plan) && SealedWith(r, id, Failed)
    ensures RecordInv(chainId, WithoutNode(r, id)) && !AllSucceeded(WithoutNode(r, id))
    ensures forall x :: x in NodeIds(r.plan) ==> Spent(WithoutNode(r, id), x) == Spent(r, x)
  {
    hide Incarnation, Incarnations;
    var r' := WithoutNode(r, id);
    forall x | x in NodeIds(r.plan)
      ensures Spent(r', x) == Spent(r, x) && Incarnated(r', x)
    {
      OneActivePerLineage(r.plan, x, id);
      assert Incarnated(r, x);
      assert Spent(r', x) == Spent(r, x);
    }
    assert !SealedWith(r', id, Success);
  }

  lemma ReentryRestoresRunning(r: ChainRecord, id: string)
    requires id in NodeIds(r.plan) && SealedWith(r, id, Failed)
    requires forall x :: Troubled(r, x) ==> x == id
    ensures DeriveChainStatus(WithoutNode(r, id)) == Running && AtMostOneTroubled(WithoutNode(r, id))
  {
    var r' := WithoutNode(r, id);
    assert !SealedWith(r', id, Success);
    forall x | x in NodeIds(r'.plan)
      ensures !SealedWith(r', x, Failed) && !Escalated(r', x)
    {
      if x != id { assert !Troubled(r, x); }
    }
    assert forall x :: Troubled(r', x) ==> x in NodeIds(r'.plan);
  }

  lemma ReentryKeepsStore(store: Store, r: ChainRecord, id: string, p: Payload)
    requires StoreInv(store, r, {}) && SealedWith(r, id, Failed) && id in NodeIds(r.plan) && p.NodeResumed?
    ensures StoreInv(store.(entries := Appended(store.entries, p)), WithoutNode(r, id), {id})
    ensures View(store.(entries := Appended(store.entries, p))) == View(store)
  {
    hide Fold, ReplannedIds;
    AppendView(store.entries, store.row.value.plan, p);
    var v := View(store);
    assert v.outcomes - {} == v.outcomes && v.handoffs - {} == v.handoffs;
    assert r.nodeOutcomes - {} == r.nodeOutcomes && r.nodeHandoffs - {} == r.nodeHandoffs;
    assert r.nodeOutcomes - {id} - {id} == r.nodeOutcomes - {id};
  }

  // ---- What a resume makes of any record ----

  predicate Reenters(r: ChainRecord, id: string, lastReport: ChildReport) {
    id in r.nodeRuns && lastReport.resumable
  }

  /** The first failed node is to be executed again, or its retry stands in its place; nothing else has changed. */
  ghost predicate HealedTo(r: ChainRecord, h: ChainRecord, lastReport: ChildReport) {
    match FirstFailed(r, r.plan.nodes)
    case None => h == r.(status := DeriveChainStatus(r))
    case Some(id) =>
      if Reenters(r, id, lastReport) then h == WithoutNode(r, id)
      else h.status == Running && exists f: nat :: f < |r.plan.nodes| && r.plan.nodes[f].id == id && SplicedRecord(r, h, f, NextRetry(r, id))
  }

  /** The re-entered ids are sealed FAILED in the journal, and active unless they have failed and been replaced again. */
  ghost predicate Stale(s: LoopState, reopened: set<string>) {
    && s.store.row.Some?
    && (forall x :: x in reopened ==>
          && x in View(s.store).outcomes && View(s.store).outcomes[x].status == Failed
          && (x in NodeIds(s.record.plan) || SealedWith(s.record, x, Failed)))
    && forall n :: n in s.record.plan.nodes && n.id in reopened ==> n.id !in n.dependsOn
  }

  /** Whatever trouble the record is in, a resume keeps record and journal in step and leaves a chain that can go on. */
  lemma ResumeKeepsJournal(input: ChainInput, s: LoopState, lastReport: ChildReport)
    requires Journaled(input, s, {}) && !s.resumableSeal && s.record.status == DeriveChainStatus(s.record)
    ensures var t := ResumeFailed(input, s, lastReport); var reopened := ReenteredIds(s.record, lastReport);
            && Journaled(input, t, reopened) && Standing(t) && Stale(t, reopened) && !t.resumableSeal
            && t.executions == s.executions
            && HealedTo(s.record, t.record, lastReport)
            && (AnyFailed(s.record) ==> t.record.status == Running)
            && (AcyclicPlan(s.record.plan) ==> AcyclicPlan(t.record.plan))
  {
    hide RecordInv, StoreInv, SpliceRetry, LineageFailures, LiveFailures, Stale, AcyclicPlan, HealedTo, Standing;
    FailedNodeIsActive(s.record);
    var first := FirstFailed(s.record, s.record.plan.nodes);
    if first.Some? {
      var n :| n in s.record.plan.nodes && n.id == first.value;
      var f :| 0 <= f < |s.record.plan.nodes| && s.record.plan.nodes[f] == n;
      if Reenters(s.record, first.value, lastReport) {
        ResumeReenters(input, s, lastReport, f);
      } else {
        var _, _ := ResumeReplaces(input, s, lastReport, f);
      }
    } else {
      NothingToHeal(input, s, lastReport);
    }
  }

  lemma NothingToHeal(input: ChainInput, s: LoopState, lastReport: ChildReport)
    requires Journaled(input, s, {}) && !s.resumableSeal && s.record.status == DeriveChainStatus(s.record)
    requires FirstFailed(s.record, s.record.plan.nodes).None?
    ensures Standing(s) && Stale(s, {}) && HealedTo(s.record, s.record, lastReport)
    ensures ResumeFailed(input, s, lastReport) == s && ReenteredIds(s.record, lastReport) == {}
  {
  }

  lemma ResumeReenters(input: ChainInput, s: LoopState, lastReport: ChildReport, f: nat)
    requires Journaled(input, s, {}) && !s.resumableSeal && f < |s.record.plan.nodes|
    requires FirstFailed(s.record, s.record.plan.nodes) == Some(s.record.plan.nodes[f].id)
    requires Reenters(s.record, s.record.plan.nodes[f].id, lastReport)
    ensures var id := s.record.plan.nodes[f].id; var t := ResumeFailed(input, s, lastReport);
            && ReenteredIds(s.record, lastReport) == {id} && t.record == WithoutNode(s.record, id)
            && Journaled(input, t, {id}) && Standing(t) && Stale(t, {id}) && !t.resumableSeal && t.executions == s.executions
            && HealedTo(s.record, t.record, lastReport)
            && s.store.row.Some? && t.store.row.Some? && View(t.store) == View(s.store)
  {
    hide SpliceRetry, LineageFailures, LiveFailures, Fold, ReplannedIds, RecordInv, StoreInv, Stale;
    var id := s.record.plan.nodes[f].id;
    IdAtIsIn(s.record.plan, f);
    StoredRow(s.store, s.record, {});
    var heal := DecideNodeHeal(Failed, true, 0, MAX_CHILD_RESUMES_PER_NODE);
    var p := NodeResumed(id, s.record.nodeRuns[id], heal.attempt, OrElse(lastReport.reason, heal.reason));
    ReentryKeepsRecord(input.chainId, s.record, id);
    ReentryKeepsStore(s.store, s.record, id, p);
    ReentryIsStale(input, s, ResumeFailed(input, s, lastReport), id);
  }

  lemma ReentryIsStale(input: ChainInput, s: LoopState, t: LoopState, id: string)
    requires Journaled(input, s, {}) && id in NodeIds(s.record.plan) && SealedWith(s.record, id, Failed)
    requires t.record == WithoutNode(s.record, id) && t.store.row.Some? && View(t.store) == View(s.store)
    ensures Stale(t, {id})
  {
    hide Fold, ReplannedIds, Incarnated, RootsDistinct;
    var v := View(s.store);
    assert v.outcomes - {} == v.outcomes && s.record.nodeOutcomes - {} == s.record.nodeOutcomes;
  }

  lemma ResumeReplaces(input: ChainInput, s: LoopState, lastReport: ChildReport, f: nat) returns (why: string, brief: string)
    requires Journaled(input, s, {}) && !s.resumableSeal && f < |s.record.plan.nodes|
    requires FirstFailed(s.record, s.record.plan.nodes) == Some(s.record.plan.nodes[f].id)
    requires !Reenters(s.record, s.record.plan.nodes[f].id, lastReport)
    ensures var id := s.record.plan.nodes[f].id; var t := ResumeFailed(input, s, lastReport);
            && ReenteredIds(s.record, lastReport) == {} && SplicedRecord(s.record, t.record, f, NextRetry(s.record, id))
            && Journaled(input, t, {}) && Standing(t) && Stale(t, {}) && !t.resumableSeal && t.executions == s.executions
            && t.record.status == Running && HealedTo(s.record, t.record, lastReport)
            && (AcyclicPlan(s.record.plan) ==> AcyclicPlan(t.record.plan))
            && t.store == Replanned(s.store, id, why, t.record.plan, brief)
  {
    hide RecordInv, StoreInv, SpliceRetry, LineageFailures, LiveFailures, SplicedRecord, AcyclicPlan, BuildReplanBrief;
    hide BuildRetryPlan, Replanned, NextRetry, AllSucceeded, AnyFailed;
    var id := s.record.plan.nodes[f].id;
    var decision := DecideReplan(s.record, id, ResumeGrantBounds(s.record, id));
    ResumeGrantIsAccepted(s.record, id);
    var reason := if id in s.record.nodeRuns then lastReport.reason else None;
    SpliceKeepsJournal(input, s, f, decision, reason, {});
    SpliceEffect(input, s, f, decision, reason);
    why, brief := decision.reason, BuildReplanBrief(id, OrElse(reason, "unknown"));
    var t := ResumeFailed(input, s, lastReport);
    RetryIsUnsealed(input, s.record, t.record, f);
    StoredRow(t.store, t.record, {});
  }

  lemma StoredRow(store: Store, record: ChainRecord, reopened: set<string>)
    requires StoreInv(store, record, reopened)
    ensures store.row.Some? && Contiguous(store.entries)
  {
  }

  /** One failed node, and nothing else in trouble: the resume restores the whole invariant. */
  lemma ResumeKeepsInv(input: ChainInput, s: LoopState, lastReport: ChildReport)
    requires Journaled(input, s, {}) && !s.resumableSeal
    requires s.record.status == DeriveChainStatus(s.record) && AtMostOneTroubled(s.record)
    ensures Inv(input, ResumeFailed(input, s, lastReport), ReenteredIds(s.record, lastReport))
    ensures AnyFailed(s.record) ==> ResumeFailed(input, s, lastReport).record.status == Running
    ensures AcyclicPlan(s.record.plan) ==> AcyclicPlan(ResumeFailed(input, s, lastReport).record.plan)
  {
    hide RecordInv, StoreInv, Stale, Standing, AcyclicPlan, SplicedRecord, ResumeFailed;
    ResumeKeepsJournal(input, s, lastReport);
    FailedNodeIsActive(s.record);
    var first := FirstFailed(s.record, s.record.plan.nodes);
    var t := ResumeFailed(input, s, lastReport);
    if first.Some? {
      var id := first.value;
      assert id in NodeIds(s.record.plan) && Troubled(s.record, id);
      if Reenters(s.record, id, lastReport) {
        ReentryRestoresRunning(s.record, id);
      } else {
        var f: nat :| f < |s.record.plan.nodes| && s.record.plan.nodes[f].id == id && SplicedRecord(s.record, t.record, f, NextRetry(s.record, id));
        SpliceRestoresRunning(input, s.record, t.record, f);
      }
    } else {
      NothingToHeal(input, s, lastReport);
    }
  }

  /** A sealed journal whose rebuilt record is in shape. */
  ghost predicate Restorable(chainId: string, store: Store) {
    && store.row.Some? && WasSealed(store.entries)
    && RecordInv(chainId, JournalRecord(store)) && StoreInv(store, JournalRecord(store), {})
  }

  /** The record the journal alone rebuilds. */
  function JournalRecord(store: Store): ChainRecord
    requires store.row.Some?
  {
    ChainRecordOf(store).value
  }

  lemma SplicedIgnoresStatus(r: ChainRecord, d: ChainRecord, h: ChainRecord, f: nat, id: string)
    requires d == r.(status := d.status) && SplicedRecord(d, h, f, NextRetry(d, id))
    ensures SplicedRecord(r, h, f, NextRetry(r, id))
  {
    assert LineageFailures(d, LineageRoot(id)) == LineageFailures(r, LineageRoot(id));
  }

  lemma HealedIgnoresStatus(r: ChainRecord, d: ChainRecord, h: ChainRecord, lastReport: ChildReport)
    requires d == r.(status := d.status) && HealedTo(d, h, lastReport)
    ensures HealedTo(r, h, lastReport)
  {
    hide SplicedRecord, NextRetry, FirstFailed, DeriveChainStatus, AnyFailed, AllSucceeded, AnyEscalated, NodeIds;
    FirstFailedIgnoresStatus(r, d, r.plan.nodes);
    DeriveIgnoresStatus(r, d.status);
    var failed := FirstFailed(r, r.plan.nodes);
    if failed.Some? && !Reenters(r, failed.value, lastReport) {
      var f: nat :| f < |d.plan.nodes| && d.plan.nodes[f].id == failed.value
                    && SplicedRecord(d, h, f, NextRetry(d, failed.value));
      SplicedIgnoresStatus(r, d, h, f, failed.value);
    }
  }

  /** Every start on a sealed journal: in step but for the re-entered node, its first failed node healed. */
  lemma RestartKeepsJournal(input: ChainInput, store: Store, lastReport: ChildReport)
    requires Restorable(input.chainId, store)
    ensures var r, s := JournalRecord(store), Start(input, store, lastReport); var reopened := ReenteredIds(r, lastReport);
            && Journaled(input, s, reopened) && Standing(s) && Stale(s, reopened) && !s.resumableSeal && s.executions == 0
            && Unsealed(s.store.entries)
            && HealedTo(r, s.record, lastReport)
            && (AnyFailed(r) ==> s.record.status == Running)
            && (AcyclicPlan(r.plan) ==> AcyclicPlan(s.record.plan))
  {
    hide Start, RecordInv, StoreInv, ResumeFailed, AcyclicPlan, WasSealed, HealedTo, Stale, Standing, Unsealed, ChainRecordOf;
    var r := JournalRecord(store);
    RestoredStart(input, store, r, lastReport);
    var derived := r.(status := DeriveChainStatus(r));
    var s := LoopState(derived, Reopened(Initialized(store, input.plan)), None, false, 0);
    DeriveIgnoresStatus(r, derived.status);
    SameTrouble(r, derived);
    FirstFailedIgnoresStatus(r, derived, r.plan.nodes);
    ResumeKeepsJournal(input, s, lastReport);
    HealedIgnoresStatus(r, derived, Start(input, store, lastReport).record, lastReport);
    StoredRow(Start(input, store, lastReport).store, Start(input, store, lastReport).record, ReenteredIds(r, lastReport));
    ResumedUnsealed(input, store, r, lastReport);
  }

  /** Resuming a chain that was sealed resumable always leaves it RUNNING, and on an acyclic plan with a node to dispatch. */
  lemma ResumeHeals(input: ChainInput, store: Store, record: ChainRecord, lastReport: ChildReport)
    requires RecordInv(input.chainId, record) && StoreInv(store, record, {})
    requires AtMostOneTroubled(record) && AnyFailed(record) && WasSealed(store.entries)
    ensures var s := Start(input, store, lastReport);
            && Inv(input, s, ReenteredIds(record, lastReport))
            && s.record.status == Running
            && (AcyclicPlan(record.plan) ==> Dispatching(s))
  {
    var s := Start(input, store, lastReport);
    ResumedStart(input, store, record, lastReport);
    if AcyclicPlan(record.plan) {
      hide Start, RecordInv, StoreInv, ReenteredIds;
      InvIsGoing(input, s, ReenteredIds(record, lastReport));
    }
  }

  lemma ResumedStart(input: ChainInput, store: Store, record: ChainRecord, lastReport: ChildReport)
    requires RecordInv(input.chainId, record) && StoreInv(store, record, {})
    requires AtMostOneTroubled(record) && WasSealed(store.entries)
    ensures var s := Start(input, store, lastReport);
            && Inv(input, s, ReenteredIds(record, lastReport))
            && (AnyFailed(record) ==> s.record.status == Running)
            && (AcyclicPlan(record.plan) ==> AcyclicPlan(s.record.plan))
  {
    hide Start, RecordInv, StoreInv, ResumeFailed, AcyclicPlan, WasSealed;
    RestoredStart(input, store, record, lastReport);
    var derived := record.(status := DeriveChainStatus(record));
    var s := LoopState(derived, Reopened(Initialized(store, input.plan)), None, false, 0);
    DeriveIgnoresStatus(record, derived.status);
    SameTrouble(record, derived);
    FirstFailedIgnoresStatus(record, derived, record.plan.nodes);
    ResumeKeepsInv(input, s, lastReport);
  }

  lemma SameTrouble(r: ChainRecord, t: ChainRecord)
    requires t == r.(status := t.status)
    ensures AtMostOneTroubled(r) ==> AtMostOneTroubled(t)
    ensures AnyFailed(r) <==> AnyFailed(t)
  {
    assert forall x :: Troubled(t, x) == Troubled(r, x);
    assert forall x, st :: SealedWith(t, x, st) == SealedWith(r, x, st);
  }

  lemma {:induction false} FirstFailedIgnoresStatus(r: ChainRecord, t: ChainRecord, nodes: seq<PlanNode>)
    requires t == r.(status := t.status)
    ensures FirstFailed(t, nodes) == FirstFailed(r, nodes)
  {
    if nodes != [] {
      FirstFailedIgnoresStatus(r, t, nodes[1..]);
    }
  }

  lemma ResumedUnsealed(input: ChainInput, store: Store, record: ChainRecord, lastReport: ChildReport)
    requires RecordInv(input.chainId, record) && StoreInv(store, record, {})
    requires Contiguous(Start(input, store, lastReport).store.entries)
    ensures Unsealed(Start(input, store, lastReport).store.entries)
  {
    hide Start, RecordInv, StoreInv, WasSealed, ResumeFailed, SealedSinceReopen, Boundaries, Reopened, Initialized;
    RestoredStart(input, store, record, lastReport);
    var derived := record.(status := DeriveChainStatus(record));
    var s := LoopState(derived, Reopened(Initialized(store, input.plan)), None, false, 0);
    ResumeKeepsBoundaries(input, s, lastReport);
    ContiguousStore(s.store, s.record);
    SealedMeansTerminalNewest(s.store.entries);
    SealedMeansTerminalNewest(Start(input, store, lastReport).store.entries);
  }

  lemma ContiguousStore(store: Store, record: ChainRecord)
    requires StoreInv(store, record, {})
    ensures Contiguous(store.entries)
  {
  }

  lemma ResumeKeepsBoundaries(input: ChainInput, s: LoopState, lastReport: ChildReport)
    ensures Boundaries(ResumeFailed(input, s, lastReport).store.entries) == Boundaries(s.store.entries)
  {
    hide SpliceRetry, DecideReplan, ResumeGrantBounds, Boundaries, FirstFailed;
    match FirstFailed(s.record, s.record.plan.nodes)
    case None =>
    case Some(id) =>
      var heal := DecideNodeHeal(Failed, Reenters(s.record, id, lastReport), 0, MAX_CHILD_RESUMES_PER_NODE);
      var decision := DecideReplan(s.record, id, ResumeGrantBounds(s.record, id));
      if heal.ResumeChild? {
        BoundariesAppend(s.store.entries, NodeResumed(id, s.record.nodeRuns[id], heal.attempt, OrElse(lastReport.reason, heal.reason)));
      } else if decision.GrantReplan? {
        SpliceKeepsBoundaries(s, id, decision, if id in s.record.nodeRuns then lastReport.reason else None);
      }
  }
}
