/** Dependency cycles and deadlock over all launches of a chain. */
module ChainCycles {
  import opened Graph
  import opened Lineage
  import opened ChainTypes
  import opened Reducer
  import opened Replan
  import opened PlanSurgery
  import opened Journal
  import opened Activities
  import opened ChainLoop
  import opened ChainInvariant
  import opened ChainTurn
  import opened ChainTermination
  import opened ChainTheorems
  import opened ChainGuarantees
  import opened ChainResume
  import opened ChainReentry
  import opened ChainLaunches
  import opened ChainWork
  import opened ChainSeals
  import opened ChainBudgets

  // ---- Cyclic plans ----

  /** The plan has a cycle, and nothing on one is sealed, in the live record or, as a re-entered node, in the journal. */
  ghost predicate Blocked(r: ChainRecord, reopened: set<string>) {
    && !AcyclicPlan(r.plan) && CyclesUnsealed(r)
    && forall c :: OnCycle(DependencyGraph(r.plan.nodes), c) ==> c !in reopened
  }

  lemma RunStaysBlocked(input: ChainInput, oracle: Oracle, s: LoopState, k: nat, reopened: set<string>)
    requires Journaled(input, s, reopened) && Blocked(s.record, reopened)
    ensures Blocked(StateAt(input, oracle, s, k).record, reopened)
  {
    hide StateAt, Journaled, AcyclicPlan, CyclesUnsealed, OnCycle, DependencyGraph;
    RunKeepsCycles(input, oracle, s, k, reopened);
  }

  lemma RecordedIsBlocked(live: ChainRecord, r: ChainRecord, reopened: set<string>)
    requires RecordedAs(live, r, reopened) && Blocked(live, reopened)
    ensures Blocked(r, {})
  {
    hide AcyclicPlan, OnCycle, DependencyGraph;
  }

  lemma HealStaysBlocked(chainId: string, r: ChainRecord, h: ChainRecord, lastReport: ChildReport)
    requires RecordInv(chainId, r) && RecordInv(chainId, h) && HealedTo(r, h, lastReport) && Blocked(r, {})
    ensures Blocked(h, ReenteredIds(r, lastReport))
  {
    hide AcyclicPlan, OnCycle, DependencyGraph, RecordInv, SplicedRecord, NextRetry, DeriveChainStatus;
    var failed := FirstFailed(r, r.plan.nodes);
    if failed.Some? && !Reenters(r, failed.value, lastReport) {
      var f: nat :| f < |r.plan.nodes| && r.plan.nodes[f].id == failed.value && SplicedRecord(r, h, f, NextRetry(r, failed.value));
      InvHasUniqueIds(chainId, h);
      SpliceKeepsCycles(chainId, r, h, f);
    }
  }

  lemma InvHasUniqueIds(chainId: string, r: ChainRecord)
    requires RecordInv(chainId, r)
    ensures UniqueIds(r.plan)
  {
    RootsGiveUniqueIds(r.plan);
  }

  lemma {:induction false} FirstIsBlocked(ls: seq<Launch>)
    requires OneChain(ls) && |ls| == 1 && !AcyclicPlan(ls[0].input.plan)
    ensures Blocked(StartOf(ls).record, ReenteredAt(ls))
  {
    hide StartOf, ReenteredAt, OneChain, AcyclicPlan, OnCycle, DependencyGraph;
    FirstParts(ls);
  }

  lemma {:induction false} BlockedIsHandedOver(ls: seq<Launch>)
    requires OneChain(ls) && |ls| > 1 && Blocked(EndOf(ls[..|ls| - 1]).record, ReenteredAt(ls[..|ls| - 1]))
    ensures Blocked(StartOf(ls).record, ReenteredAt(ls))
  {
    var front, l := ls[..|ls| - 1], ls[|ls| - 1];
    hide StartOf, EndOf, Restorable, HealedTo, RecordedAs, RecordInv, StoreBefore, ReenteredAt, OneChain, ChainRecordOf;
    hide StoreInv;
    hide Blocked, ReenteredIds;
    Handover(ls);
    StoredRecord(l.input.chainId, StoreBefore(ls));
    StartsInStep(ls);
    RecordedIsBlocked(EndOf(front).record, JournalRecord(StoreBefore(ls)), ReenteredAt(front));
    HealStaysBlocked(l.input.chainId, JournalRecord(StoreBefore(ls)), StartOf(ls).record, l.lastReport);
  }

  lemma {:induction false} LaunchesStayBlocked(ls: seq<Launch>, k: nat)
    requires OneChain(ls) && !AcyclicPlan(ls[0].input.plan)
    ensures Blocked(ChainAt(ls, k).record, ReenteredAt(ls))
    decreases |ls|
  {
    assert ls != [];
    hide *;
    if |ls| == 1 {
      FirstIsBlocked(ls);
    } else {
      var front := ls[..|ls| - 1];
      LaterParts(ls);
      LaunchesStayBlocked(front, DispatchBound(front[|front| - 1].input, StartOf(front).record) + 1);
      EndIsState(front);
      BlockedIsHandedOver(ls);
    }
    StartsInStep(ls);
    RunStaysBlocked(ls[|ls| - 1].input, ls[|ls| - 1].oracle, StartOf(ls), k, ReenteredAt(ls));
    AtIsStateAt(ls, k);
  }

  lemma {:induction false} AtIsStateAt(ls: seq<Launch>, k: nat)
    requires ls != []
    ensures ChainAt(ls, k) == StateAt(ls[|ls| - 1].input, ls[|ls| - 1].oracle, StartOf(ls), k)
  {
    hide StateAt, StartOf;
  }

  /** However often it is launched, whatever its children do and whatever each launch re-enters or replaces: a chain over a
      cyclic plan never has status SUCCESS. */
  lemma {:induction false} CyclicChainNeverSucceeds(ls: seq<Launch>, k: nat)
    requires OneChain(ls) && !AcyclicPlan(ls[0].input.plan)
    ensures ChainAt(ls, k).record.status != ChainSuccess
  {
    assert ls != [];
    hide *;
    LaunchesStayBlocked(ls, k);
    StandsAt(ls, k);
    BlockedIsNoSuccess(ChainAt(ls, k), ReenteredAt(ls));
  }

  lemma {:induction false} StandsAt(ls: seq<Launch>, k: nat)
    requires OneChain(ls)
    ensures Standing(ChainAt(ls, k))
  {
    var l := ls[|ls| - 1];
    EveryLaunch(ls);
    hide StateAt, StartOf, Journaled, Stale, Unsealed, ReenteredAt, Restorable, StoreBefore, EndOf, AnyFailed, OneChain;
    hide Standing;
    RunKeepsStanding(l.input, l.oracle, StartOf(ls), k, ReenteredAt(ls));
  }

  lemma BlockedIsNoSuccess(t: LoopState, reopened: set<string>)
    requires Blocked(t.record, reopened) && Standing(t)
    ensures t.record.status != ChainSuccess
  {
    hide AcyclicPlan, CyclesUnsealed, DeriveChainStatus, OnCycle, DependencyGraph;
    CycleBlocksSuccess(t.record);
  }

  // ---- Acyclic plans ----

  lemma {:induction false} HealKeepsAcyclic(ls: seq<Launch>)
    requires OneChain(ls) && |ls| > 1 && AcyclicPlan(EndOf(ls[..|ls| - 1]).record.plan)
    ensures StoreBefore(ls).row.Some? && AcyclicPlan(JournalRecord(StoreBefore(ls)).plan) && AcyclicPlan(StartOf(ls).record.plan)
  {
    var front, l := ls[..|ls| - 1], ls[|ls| - 1];
    hide Start, EndOf, HealedTo, RecordedAs, RecordInv, StoreBefore, ReenteredAt, OneChain, ChainRecordOf, StoreInv;
    hide Journaled, Stale, Standing, Unsealed, AnyFailed, AcyclicPlan, WasSealed;
    LaterParts(ls);
    Handover(ls);
    RecordedPlan(EndOf(front).record, JournalRecord(StoreBefore(ls)), ReenteredAt(front));
    RestartKeepsJournal(l.input, StoreBefore(ls), l.lastReport);
  }

  /** An acyclic plan stays acyclic, in every launch and in the record every launch reads. */
  lemma {:induction false} LaunchesKeepAcyclic(ls: seq<Launch>, k: nat)
    requires OneChain(ls) && AcyclicPlan(ls[0].input.plan)
    ensures AcyclicPlan(ChainAt(ls, k).record.plan) && AcyclicPlan(StartOf(ls).record.plan)
    ensures |ls| > 1 ==> StoreBefore(ls).row.Some? && AcyclicPlan(JournalRecord(StoreBefore(ls)).plan)
    decreases |ls|
  {
    assert ls != [];
    hide *;
    if |ls| == 1 {
      FirstPlanIs(ls);
    } else {
      var front := ls[..|ls| - 1];
      LaterParts(ls);
      LaunchesKeepAcyclic(front, DispatchBound(front[|front| - 1].input, StartOf(front).record) + 1);
      EndIsState(front);
      HealKeepsAcyclic(ls);
    }
    StartsInStep(ls);
    RunKeepsJournal(ls[|ls| - 1].input, ls[|ls| - 1].oracle, StartOf(ls), k, ReenteredAt(ls));
    AtIsStateAt(ls, k);
  }

  lemma {:induction false} FirstPlanIs(ls: seq<Launch>)
    requires OneChain(ls) && |ls| == 1
    ensures StartOf(ls).record.plan == ls[0].input.plan
  {
    hide StartOf, ReenteredAt, OneChain;
    FirstParts(ls);
  }

  /** Deadlock freedom of every launch of a chain over an acyclic plan: whatever its children do it never reaches the stuck
      branch, if and only if it is the first, or the record it reads has no FAILED node, or the healed or an unsealed node
      waits for nothing - as always when at most one node is FAILED there. */
  lemma {:induction false} ChainNeverSticks(ls: seq<Launch>)
    requires OneChain(ls) && AcyclicPlan(ls[0].input.plan)
    ensures |ls| > 1 ==> StoreBefore(ls).row.Some?
    ensures NeverSticks(ls[|ls| - 1].input, StartOf(ls)) <==>
            || |ls| == 1
            || !AnyFailed(JournalRecord(StoreBefore(ls))) || Startable(JournalRecord(StoreBefore(ls)))
    ensures |ls| > 1 && |LiveFailures(JournalRecord(StoreBefore(ls)))| <= 1 && AnyFailed(JournalRecord(StoreBefore(ls))) ==>
              Startable(JournalRecord(StoreBefore(ls)))
  {
    var l := ls[|ls| - 1];
    LaunchesKeepAcyclic(ls, 0);
    if |ls| == 1 {
      hide *;
      FirstNeverSticks(ls);
    } else {
      hide *;
      LaterParts(ls);
      Handover(ls);
      ResumeNeverSticks(l.input, StoreBefore(ls), l.lastReport);
      if AnyFailed(JournalRecord(StoreBefore(ls))) { ResumeHealsExactly(l.input, StoreBefore(ls), l.lastReport); }
    }
  }

  lemma {:induction false} FirstNeverSticks(ls: seq<Launch>)
    requires OneChain(ls) && |ls| == 1 && AcyclicPlan(StartOf(ls).record.plan)
    ensures NeverSticks(ls[0].input, StartOf(ls))
  {
    var l := ls[0];
    FirstParts(ls);
    FreshStart(l.input, l.lastReport);
    hide Start, StartOf, Inv, StateAt, AcyclicPlan, ReenteredAt, LaunchablePlan, Going;
    InvIsGoing(l.input, StartOf(ls), {});
    StartsInStep(ls);
    NeverStuck(l.input, StartOf(ls), {});
  }
}
