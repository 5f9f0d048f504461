/** The chain row and the chain's own seals: what `chain status` reads without folding the journal. */
module ChainRows {
  import opened Text
  import opened Lineage
  import opened ChainTypes
  import opened Reducer
  import opened Replan
  import opened PlanSurgery
  import opened Journal
  import opened Activities
  import opened ChainLoop
  import opened ChainInvariant
  import opened ChainTurn
  import opened ChainTermination
  import opened ChainGuarantees
  import opened ChainResume
  import opened ChainReentry
  import opened ChainLaunches
  import opened ChainWork

  // ---- The row ----

  /** The row says RUNNING and holds the live plan. */
  ghost predicate RowRuns(s: LoopState) {
    s.store.row == Some(ChainRow(s.record.plan, Running))
  }

  lemma FailureKeepsRow(input: ChainInput, s: LoopState, n: PlanNode, reason: Option<string>)
    requires RecordInv(input.chainId, s.record) && n in s.record.plan.nodes && SealedWith(s.record, n.id, Failed)
    requires RowRuns(s)
    ensures RowRuns(AfterFailure(input, s, n.id, reason))
  {
    hide RecordInv, SpliceRetry, LineageFailures, NextRetry, LiveFailures, BuildRetryPlan, BuildReplanBrief, SplicedRecord;
    var decision := DecideReplan(s.record, n.id, LoopBounds(input));
    if decision.GrantReplan? {
      var f :| 0 <= f < |s.record.plan.nodes| && s.record.plan.nodes[f] == n;
      SpliceEffect(input, s, f, decision, reason);
    }
  }

  lemma FoldKeepsRow(input: ChainInput, oracle: Oracle, s: LoopState, n: PlanNode, reopened: set<string>)
    requires Journaled(input, s, reopened) && n in Dispatchable(s.record) && RowRuns(s)
    ensures RowRuns(FoldNode(input, s, n.id, RunChild(input, oracle, s, n.id)))
  {
    RunChildStore(input, oracle, s, n.id, reopened);
    hide RunChild, RecordInv, StoreInv, View, ReplannedIds, HasKey, DeriveChainStatus;
  }

  lemma TurnKeepsRow(input: ChainInput, oracle: Oracle, s: LoopState, reopened: set<string>)
    requires Journaled(input, s, reopened) && RowRuns(s)
    ensures RowRuns(Turn(input, oracle, s))
  {
    hide RecordInv, StoreInv, FoldNode, RunChild, AfterFailure, Dispatchable;
    if Dispatching(s) {
      var n := Dispatched(s);
      var child := RunChild(input, oracle, s, n.id);
      FoldKeepsJournal(input, oracle, s, n, reopened);
      FoldKeepsRow(input, oracle, s, n, reopened);
      if DeriveNodeOutcome(child.report).status == Failed {
        FailureKeepsRow(input, FoldNode(input, s, n.id, child), n, child.report.reason);
      }
    }
  }

  lemma {:induction false} RunKeepsRow(input: ChainInput, oracle: Oracle, s: LoopState, k: nat, reopened: set<string>)
    requires Journaled(input, s, reopened) && RowRuns(s)
    ensures RowRuns(StateAt(input, oracle, s, k))
  {
    hide Turn, Journaled, RowRuns;
    if k > 0 {
      RunKeepsRow(input, oracle, s, k - 1, reopened);
      RunKeepsJournal(input, oracle, s, k - 1, reopened);
      TurnKeepsRow(input, oracle, StateAt(input, oracle, s, k - 1), reopened);
    }
  }

  lemma ResumeKeepsRow(input: ChainInput, s: LoopState, lastReport: ChildReport)
    requires UniqueIds(s.record.plan) && RowRuns(s)
    ensures RowRuns(ResumeFailed(input, s, lastReport))
  {
    hide DecideReplan, ResumeGrantBounds, FirstFailed, BuildRetryPlan, BuildReplanBrief, HasKey, Decimal;
  }

  lemma RestartRunsRow(input: ChainInput, store: Store, lastReport: ChildReport)
    requires Restorable(input.chainId, store) && store.row.value.plan == JournalRecord(store).plan
    ensures RowRuns(Start(input, store, lastReport))
  {
    var r := JournalRecord(store);
    RestoredStart(input, store, r, lastReport);
    var s := LoopState(r.(status := DeriveChainStatus(r)), Reopened(Initialized(store, input.plan)), None, false, 0);
    RootsGiveUnique(input.chainId, r);
    hide Start, ResumeFailed, RecordInv, StoreInv, ChainRecordOf, DeriveChainStatus, NeedsReopen, FirstFailed, EntriesOf;
    assert RowRuns(s);
    ResumeKeepsRow(input, s, lastReport);
  }

  lemma RootsGiveUnique(chainId: string, r: ChainRecord)
    requires RecordInv(chainId, r)
    ensures UniqueIds(r.plan)
  {
  }

  lemma FinishKeepsPlan(s: LoopState)
    requires RowRuns(s)
    ensures Finish(s).store.row.Some? && Finish(s).store.row.value.plan == s.record.plan && Finish(s).record.plan == s.record.plan
    ensures Finish(s).record.status == ChainSuccess || Finish(s).record.status == ChainFailed ==>
              Finish(s).store.row.value.status == Finish(s).record.status
  {
    hide FailedActive, SealedSinceReopen, ParkReason;
  }

  lemma {:induction false} FirstRowRuns(ls: seq<Launch>)
    requires OneChain(ls) && |ls| == 1
    ensures RowRuns(StartOf(ls))
  {
    FirstParts(ls);
    FreshStart(ls[0].input, ls[0].lastReport);
    hide Start, StartOf, Inv, LaunchablePlan;
  }

  lemma {:induction false} RowIsHandedOver(ls: seq<Launch>)
    requires OneChain(ls) && |ls| > 1 && RowRuns(EndOf(ls[..|ls| - 1]))
    ensures RowRuns(StartOf(ls))
  {
    var front, l := ls[..|ls| - 1], ls[|ls| - 1];
    LaterParts(ls);
    hide Start, EndOf, Restorable, HealedTo, RecordedAs, RecordInv, StoreBefore, ReenteredAt, OneChain, ChainRecordOf, StartOf;
    hide StoreInv, ReenteredIds, RowRuns, Finish;
    Handover(ls);
    RecordedPlan(EndOf(front).record, JournalRecord(StoreBefore(ls)), ReenteredAt(front));
    FinishKeepsPlan(EndOf(front));
    RestartRunsRow(l.input, StoreBefore(ls), l.lastReport);
  }

  lemma {:induction false} RowRunsAt(ls: seq<Launch>, k: nat)
    requires OneChain(ls)
    ensures RowRuns(ChainAt(ls, k))
    decreases |ls|
  {
    var l := ls[|ls| - 1];
    assert ChainAt(ls, k) == StateAt(l.input, l.oracle, StartOf(ls), k);
    hide *;
    if |ls| == 1 {
      FirstRowRuns(ls);
    } else {
      var front := ls[..|ls| - 1];
      LaterParts(ls);
      RowRunsAt(front, DispatchBound(front[|front| - 1].input, StartOf(front).record) + 1);
      EndIsState(front);
      RowIsHandedOver(ls);
    }
    StartsInStep(ls);
    RunKeepsRow(l.input, l.oracle, StartOf(ls), k, ReenteredAt(ls));
  }

  /** Of every launch: while it runs the chain row says RUNNING and holds the live plan; once sealed it holds the plan and the
      status the chain was sealed with. */
  lemma {:induction false} RowTellsTheTruth(ls: seq<Launch>, k: nat)
    requires OneChain(ls)
    ensures ChainAt(ls, k).store.row == Some(ChainRow(ChainAt(ls, k).record.plan, Running))
    ensures var e := Finish(EndOf(ls)); e.store.row == Some(ChainRow(e.record.plan, e.record.status))
  {
    RowRunsAt(ls, k);
    var l := ls[|ls| - 1];
    assert l in ls;
    hide StartOf, ChainAt, DispatchBound, EndOf, Finish, OneChain, Underway, Restorable, JournalRecord, RowRuns;
    EndIsState(ls);
    RowRunsAt(ls, DispatchBound(l.input, StartOf(ls).record) + 1);
    EndIsLeft(ls);
    FinishKeepsPlan(EndOf(ls));
    EndIsSealed(l.input, EndOf(ls), ReenteredAt(ls));
    RowIs(ChainAt(ls, k));
  }

  lemma RowIs(s: LoopState)
    requires RowRuns(s)
    ensures s.store.row == Some(ChainRow(s.record.plan, Running))
  {
  }

  lemma EndIsSealed(input: ChainInput, s: LoopState, reopened: set<string>)
    requires Underway(input, s, reopened) && s.record.status != Running
    ensures Finish(s).record.status == ChainSuccess || Finish(s).record.status == ChainFailed
  {
    SealStands(s);
    hide Finish, Journaled, Stale;
  }

  // ---- Boundaries ----

  /** A reopen sets the row RUNNING and names the first FAILED active node of the record it reopens, if there is one. */
  lemma ReopenNamesFirstFailure(store: Store) returns (f: nat)
    requires store.row.Some? && NeedsReopen(store.entries)
    ensures var r, t := JournalRecord(store), Reopened(store);
            && t.row == Some(ChainRow(store.row.value.plan, Running))
            && |t.entries| == |store.entries| + 1 && t.entries[|store.entries|].payload.ControlEvent?
            && match t.entries[|store.entries|].payload.failed
               case None => !AnyFailed(r)
               case Some(id) =>
                 && f < |r.plan.nodes| && r.plan.nodes[f].id == id && SealedWith(r, id, Failed)
                 && forall j :: 0 <= j < f ==> !SealedWith(r, r.plan.nodes[j].id, Failed)
  {
    var r := JournalRecord(store);
    FailedNodeIsActive(r);
    hide NeedsReopen, FirstFailed, ChainRecordOf, AnyFailed;
    f := 0;
    if FirstFailed(r, r.plan.nodes).Some? { f := FirstFailedIsFirst(r, r.plan.nodes); }
  }

  lemma {:induction false} FailedActiveNames(record: ChainRecord, nodes: seq<PlanNode>, id: string)
    ensures id in FailedActive(record, nodes) <==> SealedWith(record, id, Failed) && exists n :: n in nodes && n.id == id
  {
    if nodes != [] {
      FailedActiveNames(record, nodes[1..], id);
      assert nodes == [nodes[0]] + nodes[1..];
    }
  }

  lemma ParkReasonNames(failed: seq<string>, id: string)
    requires id in failed
    ensures Occurs(id, ParkReason(failed))
  {
    var i :| 0 <= i < |failed| && failed[i] == id;
    PartsOccur(failed, i, ", ");
    var joined := Join(failed, ", ");
    hide Join, Occurs, ANSWERED_ESCALATION_REASON;
    OccursWithin(ANSWERED_ESCALATION_REASON + ": ", joined, "");
    assert ANSWERED_ESCALATION_REASON + ": " + joined + "" == ParkReason(failed);
    OccursIn(id, joined, ParkReason(failed));
  }

  /** The reason a chain is sealed with: that of the refused replan or of the stuck branch, if there was one; else none, but for
      an answered escalation, whose reason names every FAILED active node. */
  lemma SealGivesReason(s: LoopState, id: string)
    requires s.record.status != Running && Unsealed(s.store.entries)
    requires Finish(s).store != s.store
    ensures var es := Finish(s).store.entries;
            && |es| == |s.store.entries| + 1 && es[|s.store.entries|].payload.Terminal?
            && var reason := es[|s.store.entries|].payload.sealReason;
            && (s.reason.Some? || s.record.status != AwaitingPlanApproval ==> reason == s.reason)
            && (s.reason.None? && s.record.status == AwaitingPlanApproval ==>
                  && reason.Some?
                  && (id in NodeIds(s.record.plan) && SealedWith(s.record, id, Failed) ==> Occurs(id, reason.value)))
  {
    FailedActiveNames(s.record, s.record.plan.nodes, id);
    var failed := FailedActive(s.record, s.record.plan.nodes);
    if id in failed { ParkReasonNames(failed, id); }
    hide FailedActive, ParkReason, Occurs, SealedSinceReopen;
  }

  /** With nothing to dispatch the chain is sealed FAILED for good: its record as it was, its reason given, not resumable. */
  lemma StuckIsDead(input: ChainInput, oracle: Oracle, s: LoopState, reopened: set<string>)
    requires Underway(input, s, reopened) && s.record.status == Running && !Dispatching(s)
    ensures var e := Finish(Turn(input, oracle, s));
            && e.record == s.record.(status := ChainFailed)
            && e.store.entries == Appended(s.store.entries, Terminal(Failed, Some(STUCK_REASON), false))
  {
    hide Journaled, Stale, Dispatchable, Dispatch, FailedActive, STUCK_REASON, SealedSinceReopen;
  }
}
