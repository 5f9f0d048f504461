/** A chain over all its launches, whatever each of them heals, and when its seals can be relied on. */
module ChainLaunches {
  import opened Graph
  import opened Lineage
  import opened ChainTypes
  import opened Reducer
  import opened Replan
  import opened PlanSurgery
  import opened Journal
  import opened Activities
  import opened ChainLoop
  import opened ChainInvariant
  import opened ChainTurn
  import opened ChainTermination
  import opened ChainTheorems
  import opened ChainGuarantees
  import opened ChainResume
  import opened ChainReentry

  /** One start of the chain workflow; `lastReport` is what the failed node's child run last sealed. */
  datatype Launch = Launch(input: ChainInput, oracle: Oracle, lastReport: ChildReport)

  function StoreBefore(ls: seq<Launch>): Store
    requires ls != []
    decreases |ls|, 0
  {
    if |ls| == 1 then Store([], None) else Finish(EndOf(ls[..|ls| - 1])).store
  }

  function StartOf(ls: seq<Launch>): LoopState
    requires ls != []
    decreases |ls|, 1
  {
    var l := ls[|ls| - 1];
    Start(l.input, StoreBefore(ls), l.lastReport)
  }

  /** Where the last of the launches has left its loop. */
  function EndOf(ls: seq<Launch>): LoopState
    requires ls != []
    decreases |ls|, 2
  {
    var l := ls[|ls| - 1];
    EndFrom(l.input, l.oracle, StartOf(ls))
  }

  /** Where the `k`-th turn of the last launch leaves the chain. */
  ghost function ChainAt(ls: seq<Launch>, k: nat): LoopState
    requires ls != []
  {
    var l := ls[|ls| - 1];
    StateAt(l.input, l.oracle, StartOf(ls), k)
  }

  /** The node the last launch re-entered, if it did. */
  function ReenteredAt(ls: seq<Launch>): set<string>
    requires ls != []
  {
    match ChainRecordOf(StoreBefore(ls))
    case None => {}
    case Some(r) => ReenteredIds(r, ls[|ls| - 1].lastReport)
  }

  /** One chain id and a launchable plan: any children, any heals. */
  ghost predicate OneChain(ls: seq<Launch>) {
    && ls != []
    && LaunchablePlan(ls[0].input.plan)
    && forall l :: l in ls ==> l.input.chainId == ls[0].input.chainId
  }

  // ---- From one launch to the next ----

  lemma FinishIsRestorable(input: ChainInput, s: LoopState, reopened: set<string>)
    requires Journaled(input, s, reopened) && Stale(s, reopened) && Standing(s)
    requires s.record.status != Running && Unsealed(s.store.entries)
    ensures var e := Finish(s);
            && e.store.row.Some? && s.store.row.Some?
            && JournalRecord(e.store) == JournalRecord(s.store).(status := e.record.status)
            && Restorable(input.chainId, e.store)
  {
    StoredRow(s.store, s.record, reopened);
    JournalRecordInShape(input, s, reopened);
    SealStands(s);
    hide RecordInv, Journaled, Stale, Standing, StoreInv, Finish, Parked, ChainRecordOf, Restorable, Unsealed;
    hide AnyFailed, AnyEscalated, AllSucceeded;
    var e := Finish(s);
    SealedStoreRestores(input.chainId, s.store, JournalRecord(s.store), e.store.entries[|s.store.entries|].payload, e.store.row);
  }

  lemma SealedStoreRestores(chainId: string, store: Store, r: ChainRecord, p: Payload, row: Option<ChainRow>)
    requires RecordInv(chainId, r) && StoreInv(store, r, {}) && store.row.Some? && p.Terminal?
    requires row.Some? && row == WithStatus(store.row, row.value.status)
    ensures var sealed := Store(Appended(store.entries, p), row);
            Restorable(chainId, sealed) && JournalRecord(sealed) == r.(status := row.value.status)
  {
    hide RecordInv, StoreInv, EntriesOf;
    var sealed := Store(Appended(store.entries, p), row);
    NeutralEntryKeepsStore(store, r, p, row);
    EntriesOfAppend(store.entries, p, TerminalKind);
    RestoredRecord(chainId, sealed, r);
    StatusIsSeparate(chainId, sealed, r, row.value.status, {});
  }

  /** The state of every launch: in step but for the node it re-entered, and not yet sealed. */
  ghost predicate Underway(input: ChainInput, s: LoopState, reopened: set<string>) {
    Journaled(input, s, reopened) && Stale(s, reopened) && Standing(s) && Unsealed(s.store.entries)
  }

  lemma RunStaysUnderway(input: ChainInput, oracle: Oracle, s: LoopState, k: nat, reopened: set<string>)
    requires Underway(input, s, reopened)
    ensures Underway(input, StateAt(input, oracle, s, k), reopened)
  {
    hide StateAt, Journaled, Stale, Standing, Unsealed;
    RunKeepsJournal(input, oracle, s, k, reopened);
    RunKeepsStale(input, oracle, s, k, reopened);
    RunKeepsStanding(input, oracle, s, k, reopened);
    StillUnsealed(input, oracle, s, k, reopened);
  }

  lemma EndIsUnderway(input: ChainInput, oracle: Oracle, s: LoopState, reopened: set<string>)
    requires Underway(input, s, reopened)
    ensures var t := EndFrom(input, oracle, s);
            && Underway(input, t, reopened) && t.record.status != Running
            && Restorable(input.chainId, Finish(t).store)
            && t.store.row.Some? && Finish(t).store.row.Some?
            && JournalRecord(Finish(t).store) == JournalRecord(t.store).(status := Finish(t).record.status)
  {
    hide StateAt, DispatchBound, Journaled, Stale, Standing, Unsealed, Restorable, Finish, JournalRecord;
    RunStaysUnderway(input, oracle, s, DispatchBound(input, s.record) + 1, reopened);
    EveryRunEnds(input, oracle, s, reopened);
    FinishIsRestorable(input, EndFrom(input, oracle, s), reopened);
  }

  /** However often a chain is launched and whatever each launch re-enters or replaces: it starts in step with its journal
      but for the re-entered node, ends sealed, and leaves a journal whose rebuilt record the next launch can heal. */
  lemma {:induction false} EveryLaunch(ls: seq<Launch>)
    requires OneChain(ls)
    ensures var l := ls[|ls| - 1];
            && Underway(l.input, StartOf(ls), ReenteredAt(ls)) && Underway(l.input, EndOf(ls), ReenteredAt(ls))
            && EndOf(ls).record.status != Running
            && Restorable(l.input.chainId, Finish(EndOf(ls)).store)
    ensures |ls| > 1 ==>
              && Restorable(ls[0].input.chainId, StoreBefore(ls))
              && (AnyFailed(JournalRecord(StoreBefore(ls))) ==> StartOf(ls).record.status == Running)
    decreases |ls|
  {
    hide Start, EndFrom, Finish, Journaled, Stale, Standing, Unsealed, LaunchablePlan, Restorable, AnyFailed, HealedTo;
    hide AcyclicPlan;
    var l := ls[|ls| - 1];
    assert l in ls;
    if |ls| == 1 {
      FreshLaunch(l.input, l.lastReport);
    } else {
      var front := ls[..|ls| - 1];
      assert front[|front| - 1] in ls && front[0] == ls[0];
      assert forall m :: m in front ==> m in ls;
      EveryLaunch(front);
      LaterLaunch(l.input, StoreBefore(ls), l.lastReport);
    }
    EndIsUnderway(l.input, l.oracle, StartOf(ls), ReenteredAt(ls));
  }

  lemma FreshLaunch(input: ChainInput, lastReport: ChildReport)
    requires LaunchablePlan(input.plan)
    ensures Underway(input, Start(input, Store([], None), lastReport), {})
  {
    hide LaunchablePlan, Journaled, Standing, Unsealed, Start;
    FreshStart(input, lastReport);
    InvStands(input, Start(input, Store([], None), lastReport), {});
    FreshUnsealed(input, lastReport);
  }

  lemma FreshUnsealed(input: ChainInput, lastReport: ChildReport)
    requires LaunchablePlan(input.plan)
    ensures Unsealed(Start(input, Store([], None), lastReport).store.entries)
  {
    FreshStart(input, lastReport);
    hide Start;
    EntriesOfAppend([], PlanEntry(input.plan), TerminalKind);
    assert Appended([], PlanEntry(input.plan)) == [Entry(0, PlanEntry(input.plan))];
  }

  lemma LaterLaunch(input: ChainInput, store: Store, lastReport: ChildReport)
    requires Restorable(input.chainId, store)
    ensures ChainRecordOf(store).Some?
    ensures Underway(input, Start(input, store, lastReport), ReenteredIds(JournalRecord(store), lastReport))
    ensures AnyFailed(JournalRecord(store)) ==> Start(input, store, lastReport).record.status == Running
  {
    RestartKeepsJournal(input, store, lastReport);
  }

  /** What the journal's record keeps of the live one: the plan, each lineage's spent incarnations, and the outcomes, but
      that a re-entered node is FAILED in it. */
  ghost predicate RecordedAs(live: ChainRecord, r: ChainRecord, reopened: set<string>) {
    && r.plan == live.plan
    && (forall id :: id in NodeIds(r.plan) ==> Spent(r, id) == Spent(live, id))
    && r.nodeOutcomes.Keys == live.nodeOutcomes.Keys + reopened
    && forall y :: SealedWith(r, y, Failed) ==> SealedWith(live, y, Failed) || y in reopened
  }

  lemma EndIsRecorded(input: ChainInput, s: LoopState, reopened: set<string>)
    requires Journaled(input, s, reopened) && Stale(s, reopened)
    ensures RecordedAs(s.record, JournalRecord(s.store), reopened)
  {
    hide Fold, RecordInv, Spent, ReplannedIds;
    JournalRecordInShape(input, s, reopened);
    var r := JournalRecord(s.store);
    assert r.nodeOutcomes == View(s.store).outcomes;
    SameElsewhere(r.nodeOutcomes, s.record.nodeOutcomes, reopened);
  }

  lemma {:induction false} LaterParts(ls: seq<Launch>)
    requires OneChain(ls) && |ls| > 1
    ensures var front, l := ls[..|ls| - 1], ls[|ls| - 1];
            && OneChain(front) && front[0] == ls[0] && front[|front| - 1].input.chainId == l.input.chainId
            && StoreBefore(ls) == Finish(EndOf(front)).store && StartOf(ls) == Start(l.input, StoreBefore(ls), l.lastReport)
            && (StoreBefore(ls).row.Some? ==> ReenteredAt(ls) == ReenteredIds(JournalRecord(StoreBefore(ls)), l.lastReport))
  {
    var front, l := ls[..|ls| - 1], ls[|ls| - 1];
    assert l in ls && front[|front| - 1] in ls && front[0] == ls[0];
    assert forall m :: m in front ==> m in ls;
    hide Start, EndOf, Finish, LaunchablePlan, ReenteredIds;
  }

  lemma {:induction false} EndIsLeft(ls: seq<Launch>)
    requires OneChain(ls)
    ensures var l := ls[|ls| - 1]; var e := EndOf(ls);
            && Underway(l.input, e, ReenteredAt(ls)) && e.record.status != Running && Restorable(l.input.chainId, Finish(e).store)
            && e.store.row.Some? && Finish(e).store.row.Some?
            && JournalRecord(Finish(e).store) == JournalRecord(e.store).(status := Finish(e).record.status)
  {
    var l := ls[|ls| - 1];
    hide Start, EndFrom, Finish, Underway, OneChain, Restorable, JournalRecord, ReenteredAt, AnyFailed, StoreBefore;
    EveryLaunch(ls);
    EndIsUnderway(l.input, l.oracle, StartOf(ls), ReenteredAt(ls));
  }

  lemma {:induction false} FirstParts(ls: seq<Launch>)
    requires OneChain(ls) && |ls| == 1
    ensures StartOf(ls) == Start(ls[0].input, Store([], None), ls[0].lastReport) && ReenteredAt(ls) == {}
    ensures StartOf(ls).record == EmptyRecord(ls[0].input.plan).(status := StartOf(ls).record.status)
  {
    assert StoreBefore(ls) == Store([], None) && ChainRecordOf(StoreBefore(ls)).None?;
    FreshStart(ls[0].input, ls[0].lastReport);
    hide Start, LaunchablePlan;
  }

  lemma {:induction false} StartsInStep(ls: seq<Launch>)
    requires OneChain(ls)
    ensures Journaled(ls[|ls| - 1].input, StartOf(ls), ReenteredAt(ls)) && Stale(StartOf(ls), ReenteredAt(ls))
  {
    EveryLaunch(ls);
    hide Journaled, Stale, Standing, Unsealed, StartOf, ReenteredAt, Restorable, StoreBefore, EndOf, AnyFailed;
  }

  /** From one launch to the next: the record the last one leaves in the journal, healed. */
  lemma {:induction false} Handover(ls: seq<Launch>)
    requires OneChain(ls) && |ls| > 1
    ensures var front, l := ls[..|ls| - 1], ls[|ls| - 1];
            && OneChain(front) && front[0] == ls[0] && Restorable(l.input.chainId, StoreBefore(ls))
            && var r := JournalRecord(StoreBefore(ls));
            && RecordedAs(EndOf(front).record, r, ReenteredAt(front))
            && RecordInv(l.input.chainId, r)
            && HealedTo(r, StartOf(ls).record, l.lastReport) && ReenteredAt(ls) == ReenteredIds(r, l.lastReport)
  {
    var front, l := ls[..|ls| - 1], ls[|ls| - 1];
    LaterParts(ls);
    hide Start, EndOf, Finish, Journaled, Stale, Standing, Unsealed, OneChain, AnyFailed, HealedTo, AcyclicPlan, RecordInv;
    hide StoreInv, ReenteredIds, RecordedAs, StoreBefore, StartOf, ReenteredAt, ChainRecordOf, WasSealed;
    EndIsLeft(front);
    var e := EndOf(front);
    EndIsRecorded(front[|front| - 1].input, e, ReenteredAt(front));
    RecordedWithStatus(e.record, JournalRecord(e.store), Finish(e).record.status, ReenteredAt(front));
    RestartKeepsJournal(l.input, StoreBefore(ls), l.lastReport);
  }

  lemma RecordedWithStatus(live: ChainRecord, r: ChainRecord, status: ChainStatus, reopened: set<string>)
    requires RecordedAs(live, r, reopened)
    ensures RecordedAs(live, r.(status := status), reopened)
  {
    assert forall id :: Spent(r.(status := status), id) == Spent(r, id);
  }

  /** The end of a launch is one of its states. */
  lemma {:induction false} EndIsState(ls: seq<Launch>)
    requires ls != []
    ensures EndOf(ls) == ChainAt(ls, DispatchBound(ls[|ls| - 1].input, StartOf(ls).record) + 1)
  {
    hide StartOf, StateAt, DispatchBound;
  }

  // ---- Launches whose re-entered nodes are sealed as before ----

  /** The terminal entry says resumable exactly when an active node is FAILED. */
  ghost predicate SealIsExact(s: LoopState) {
    Finish(s).record.status == ChainFailed ==> (Parked(s).resumableSeal <==> AnyFailed(s.record))
  }

  lemma InvSealsExactly(input: ChainInput, s: LoopState, reopened: set<string>)
    requires Inv(input, s, reopened) && s.record.status != Running
    ensures SealIsExact(s)
  {
    hide RecordInv, StoreInv, Dispatchable;
    FailedActiveMeaning(s.record, s.record.plan.nodes);
    FailedNodeIsActive(s.record);
  }

  lemma AlikeReplays(input: ChainInput, s: LoopState, reopened: set<string>)
    requires Underway(input, s, reopened) && Inv(input, s, reopened) && SealedAlike(s, reopened) && s.record.status != Running
    ensures var store := Finish(s).store;
            && store.row.Some? && JournalRecord(store) == s.record.(status := Finish(s).record.status)
            && AtMostOneTroubled(JournalRecord(store))
            && (AnyFailed(s.record) <==> AnyFailed(JournalRecord(store)))
  {
    ReplayMeansSealedAlike(input, s, reopened);
    ReplayIsLive(input.chainId, s.store, s.record);
    FinishIsRestorable(input, s, reopened);
    hide Finish, RecordInv, StoreInv, Stale, SealedAlike, Unsealed, AnyFailed, AtMostOneTroubled, ChainRecordOf;
    SameTrouble(s.record, JournalRecord(Finish(s).store));
  }

  /** However often a chain is resumed, as long as re-entered nodes were sealed as before: every incarnation starts from a
      journal that rebuilds the record exactly, seals nothing before its dependencies, ends sealed with an exact mark, and -
      if it was sealed resumable - the next one runs again. */
  lemma {:induction false} EveryIncarnation(ls: seq<Launch>)
    requires OneChain(ls)
    requires forall i :: 1 <= i < |ls| ==> SealedAlike(EndOf(ls[..i]), ReenteredAt(ls[..i]))
    ensures var l := ls[|ls| - 1];
            && Inv(l.input, StartOf(ls), ReenteredAt(ls)) && Unsealed(StartOf(ls).store.entries)
            && Inv(l.input, EndOf(ls), ReenteredAt(ls)) && Unsealed(EndOf(ls).store.entries)
            && EndOf(ls).record.status != Running && SealIsExact(EndOf(ls))
    ensures SealedInOrder(StartOf(ls).record) && SealedInOrder(EndOf(ls).record)
    ensures |ls| > 1 ==>
              var before := EndOf(ls[..|ls| - 1]);
              && ChainRecordOf(StoreBefore(ls)) == Some(before.record.(status := Finish(before).record.status))
              && (AnyFailed(before.record) ==> StartOf(ls).record.status == Running)
    decreases |ls|
  {
    hide Start, EndFrom, Finish, Inv, Journaled, Stale, Standing, Unsealed, LaunchablePlan, Restorable, AnyFailed;
    hide AcyclicPlan;
    hide SealedAlike, SealIsExact, ReenteredIds, AtMostOneTroubled, RecordInv, StoreInv, SealedInOrder;
    var l := ls[|ls| - 1];
    assert l in ls;
    EveryLaunch(ls);
    if |ls| == 1 {
      FreshStart(l.input, l.lastReport);
      FreshOrder(l.input, l.lastReport);
    } else {
      var front := ls[..|ls| - 1];
      assert forall m :: m in front ==> m in ls;
      assert front[|front| - 1] in ls && front[0] == ls[0];
      forall i | 1 <= i < |front|
        ensures SealedAlike(EndOf(front[..i]), ReenteredAt(front[..i]))
      {
        assert front[..i] == ls[..i];
      }
      EveryIncarnation(front);
      EveryLaunch(front);
      AlikeReplays(front[|front| - 1].input, EndOf(front), ReenteredAt(front));
      OrderIgnoresStatus(EndOf(front).record, Finish(EndOf(front)).record.status);
      NextIncarnation(l.input, StoreBefore(ls), l.lastReport);
    }
    IncarnationEnds(l.input, l.oracle, StartOf(ls), ReenteredAt(ls));
  }

  /** The heal of a resume undoes no order: a failed node has no sealed dependents. */
  lemma HealKeepsOrder(chainId: string, r: ChainRecord, h: ChainRecord, lastReport: ChildReport)
    requires RecordInv(chainId, r) && SealedInOrder(r) && HealedTo(r, h, lastReport)
    ensures SealedInOrder(h)
  {
    hide RecordInv, SplicedRecord, NextRetry, DeriveChainStatus;
    var failed := FirstFailed(r, r.plan.nodes);
    if failed.Some? && !Reenters(r, failed.value, lastReport) {
      hide SealedInOrder;
      var f: nat :| f < |r.plan.nodes| && r.plan.nodes[f].id == failed.value && SplicedRecord(r, h, f, NextRetry(r, failed.value));
      ReplacedInOrder(chainId, r, h, f);
    } else {
      forall n | n in h.plan.nodes && n.id in h.nodeOutcomes
        ensures DependenciesSucceeded(h, n)
      {
        assert n in r.plan.nodes && DependenciesSucceeded(r, n);
      }
    }
  }

  lemma NextIncarnation(input: ChainInput, store: Store, lastReport: ChildReport)
    requires Restorable(input.chainId, store) && AtMostOneTroubled(JournalRecord(store))
    ensures SealedInOrder(JournalRecord(store)) ==> SealedInOrder(Start(input, store, lastReport).record)
    ensures Inv(input, Start(input, store, lastReport), ReenteredIds(JournalRecord(store), lastReport))
  {
    ResumedStart(input, store, JournalRecord(store), lastReport);
    hide Start, Inv, RecordInv, StoreInv, HealedTo, SealedInOrder, Journaled, Standing, Stale, Unsealed, AtMostOneTroubled;
    if SealedInOrder(JournalRecord(store)) {
      RestartKeepsJournal(input, store, lastReport);
      HealKeepsOrder(input.chainId, JournalRecord(store), Start(input, store, lastReport).record, lastReport);
    }
  }

  lemma OrderIgnoresStatus(r: ChainRecord, status: ChainStatus)
    requires SealedInOrder(r)
    ensures SealedInOrder(r.(status := status))
  {
    forall n | n in r.plan.nodes && n.id in r.nodeOutcomes
      ensures DependenciesSucceeded(r.(status := status), n)
    {
      assert DependenciesSucceeded(r, n);
    }
  }

  lemma FreshOrder(input: ChainInput, lastReport: ChildReport)
    requires LaunchablePlan(input.plan)
    ensures SealedInOrder(Start(input, Store([], None), lastReport).record)
  {
    FreshStart(input, lastReport);
    hide Start, Inv, LaunchablePlan;
  }

  lemma IncarnationEnds(input: ChainInput, oracle: Oracle, s: LoopState, reopened: set<string>)
    requires Underway(input, s, reopened) && Inv(input, s, reopened) && SealedInOrder(s.record)
    ensures var t := EndFrom(input, oracle, s); Inv(input, t, reopened) && SealIsExact(t) && SealedInOrder(t.record)
  {
    EndIsUnderway(input, oracle, s, reopened);
    hide StateAt, DispatchBound, Inv, SealIsExact, Finish, SealedInOrder, Stale, Standing, Unsealed, Journaled;
    RunKeepsOrder(input, oracle, s, DispatchBound(input, s.record) + 1, reopened);
    RunKeepsInv(input, oracle, s, DispatchBound(input, s.record) + 1, reopened);
    InvSealsExactly(input, EndFrom(input, oracle, s), reopened);
  }
}
