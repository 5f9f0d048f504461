/** The replan budgets over a launch, and over all launches of a chain: what a decision counts, and what is left. */
module ChainBudgets {
  import opened Lineage
  import opened ChainTypes
  import opened Reducer
  import opened Replan
  import opened PlanSurgery
  import opened Journal
  import opened Activities
  import opened ChainLoop
  import opened ChainInvariant
  import opened ChainTurn
  import opened ChainTermination
  import opened ChainTheorems
  import opened ChainGuarantees
  import opened ChainResume
  import opened ChainReentry
  import opened ChainLaunches
  import opened ChainWork
  import opened ChainSeals

  // ---- While a chain runs, the FAILED nodes it started with stay ----

  lemma SpliceKeepsLiveFailures(chainId: string, r: ChainRecord, h: ChainRecord, f: nat)
    requires RecordInv(chainId, r) && f < |r.plan.nodes| && SealedWith(r, r.plan.nodes[f].id, Failed)
    requires SplicedRecord(r, h, f, NextRetry(r, r.plan.nodes[f].id))
    ensures LiveFailures(h) == LiveFailures(r) - {r.plan.nodes[f].id}
  {
    hide RecordInv, NextRetry, SplicedRecord, NodeIds;
    SplicedActive(chainId, r, h, f);
    forall y
      ensures y in LiveFailures(h) <==> y in LiveFailures(r) - {r.plan.nodes[f].id}
    {
      LiveFailureMeaning(r, y);
      LiveFailureMeaning(h, y);
    }
  }

  lemma FailureKeepsLiveFailures(input: ChainInput, s: LoopState, n: PlanNode, reason: Option<string>)
    requires RecordInv(input.chainId, s.record) && n in s.record.plan.nodes && SealedWith(s.record, n.id, Failed)
    requires s.record.status == DeriveChainStatus(s.record) && AfterFailure(input, s, n.id, reason).record.status == Running
    ensures LiveFailures(AfterFailure(input, s, n.id, reason).record) == LiveFailures(s.record) - {n.id}
  {
    hide RecordInv, SpliceRetry, LineageFailures, SplicedRecord, NextRetry, LiveFailures, BuildRetryPlan, BuildReplanBrief;
    var decision := DecideReplan(s.record, n.id, LoopBounds(input));
    var f :| 0 <= f < |s.record.plan.nodes| && s.record.plan.nodes[f] == n;
    IdAtIsIn(s.record.plan, f);
    if decision.GrantReplan? {
      SpliceEffect(input, s, f, decision, reason);
      SpliceKeepsLiveFailures(input.chainId, s.record, SpliceRetry(s, n.id, decision, reason).record, f);
    }
  }

  lemma TurnKeepsLiveFailures(input: ChainInput, oracle: Oracle, s: LoopState, reopened: set<string>)
    requires Journaled(input, s, reopened) && Turn(input, oracle, s).record.status == Running
    ensures s.record.status == Running && LiveFailures(Turn(input, oracle, s).record) == LiveFailures(s.record)
  {
    hide RecordInv, StoreInv, FoldNode, RunChild, AfterFailure, LiveFailures, Dispatchable, DependenciesSucceeded, NodeIds;
    hide DeriveChainStatus;
    if Dispatching(s) {
      var n := Dispatched(s);
      var child := RunChild(input, oracle, s, n.id);
      FoldAddsFailure(input, s, n, child);
      FoldKeepsJournal(input, oracle, s, n, reopened);
      FoldIsReady(input, oracle, s, n);
      LiveFailureMeaning(s.record, n.id);
      var folded := FoldNode(input, s, n.id, child);
      if DeriveNodeOutcome(child.report).status == Failed {
        FailureKeepsLiveFailures(input, folded, n, child.report.reason);
        assert LiveFailures(s.record) + {n.id} - {n.id} == LiveFailures(s.record);
      } else {
        assert LiveFailures(s.record) + {} == LiveFailures(s.record);
      }
    }
  }

  lemma {:induction false} RunKeepsLiveFailures(input: ChainInput, oracle: Oracle, s: LoopState, k: nat, reopened: set<string>)
    requires Journaled(input, s, reopened) && StateAt(input, oracle, s, k).record.status == Running
    ensures LiveFailures(StateAt(input, oracle, s, k).record) == LiveFailures(s.record)
  {
    hide Turn, Journaled, LiveFailures;
    if k > 0 {
      RunKeepsJournal(input, oracle, s, k - 1, reopened);
      TurnKeepsLiveFailures(input, oracle, StateAt(input, oracle, s, k - 1), reopened);
      RunKeepsLiveFailures(input, oracle, s, k - 1, reopened);
    }
  }

  // ---- The decisions of one launch ----

  /** What every decision of a launch counts against the ceiling: the nodes FAILED on record, or the failing one alone. */
  function Burden(r: ChainRecord): (n: nat)
    ensures n > 0 && |LiveFailures(r)| <= n <= |LiveFailures(r)| + 1
  {
    if LiveFailures(r) == {} then 1 else |LiveFailures(r)|
  }

  lemma StartedFailures(input: ChainInput, store: Store, lastReport: ChildReport)
    requires Restorable(input.chainId, store)
    ensures |LiveFailures(Start(input, store, lastReport).record)| + 1 == Burden(JournalRecord(store))
  {
    var r, s := JournalRecord(store), Start(input, store, lastReport);
    RestartKeepsJournal(input, store, lastReport);
    hide Start, Journaled, Stale, Unsealed, Standing, JournalRecord, SplicedRecord, LiveFailures, RecordInv, StoreInv;
    hide DeriveChainStatus, AnyFailed;
    NoFailureNoHeal(r);
    if FirstFailed(r, r.plan.nodes).Some? {
      var z, w := HealedRecord(input.chainId, r, s.record, lastReport);
      HealedLiveFailures(r, s.record, z, w);
    } else {
      LiveFailuresIgnoreStatus(r, s.record);
    }
  }

  lemma LiveFailuresIgnoreStatus(r: ChainRecord, h: ChainRecord)
    requires h == r.(status := h.status)
    ensures LiveFailures(h) == LiveFailures(r)
  {
    assert FailedIds(h) == FailedIds(r);
  }

  lemma HealedIsFailed(r: ChainRecord, h: ChainRecord, z: string, w: string)
    requires HealedFrom(r, h, z, w)
    ensures z in NodeIds(r.plan) && SealedWith(r, z, Failed)
  {
  }

  lemma HealedLiveFailures(r: ChainRecord, h: ChainRecord, z: string, w: string)
    requires HealedFrom(r, h, z, w)
    ensures z in LiveFailures(r) && LiveFailures(h) == LiveFailures(r) - {z}
    ensures |LiveFailures(h)| + 1 == |LiveFailures(r)|
  {
    hide HealedFrom, LiveFailures, NodeIds;
    HealedIsFailed(r, h, z, w);
    LiveFailureMeaning(r, z);
    forall y
      ensures y in LiveFailures(h) <==> y in LiveFailures(r) && y != z
    {
      LiveFailureMeaning(r, y);
      LiveFailureMeaning(h, y);
      OthersUnchanged(r, h, z, w, y);
    }
    assert LiveFailures(r) == LiveFailures(h) + {z};
  }

  /** Every decision of a run counts the nodes FAILED at its start and the failing one. */
  lemma RunDecision(input: ChainInput, oracle: Oracle, s: LoopState, k: nat, reopened: set<string>)
    requires Journaled(input, s, reopened) && Decides(input, oracle, StateAt(input, oracle, s, k))
    ensures var a := StateAt(input, oracle, s, k); var id, r := Dispatched(a).id, DecidedOn(input, oracle, a);
            && LiveFailures(r) == LiveFailures(s.record) + {id} && |LiveFailures(r)| == |LiveFailures(s.record)| + 1
            && (DecideReplan(r, id, LoopBounds(input)).GrantReplan? <==>
                  && |Spent(a.record, id)| < Bounded(MaxReplans(input))
                  && |LiveFailures(s.record)| + 1 <= Bounded(LoopBounds(input).maxChain))
  {
    hide Journaled, StateAt, RunChild, DecidedOn, Spent, LiveFailures, Dispatchable, LineageFailures, Incarnations, Incarnation;
    hide NextRetry, LineageRoot, DecideReplan;
    RunKeepsJournal(input, oracle, s, k, reopened);
    RunKeepsLiveFailures(input, oracle, s, k, reopened);
    ReplanDecisionIsExact(input, oracle, StateAt(input, oracle, s, k), reopened);
  }

  /** Every decision of a resumed launch counts the same number of FAILED nodes against the ceiling, known from the record it
      read: a retry is granted exactly when the lineage has budget left and that number is within the ceiling. */
  lemma LaunchDecision(input: ChainInput, oracle: Oracle, store: Store, lastReport: ChildReport, k: nat)
    requires Restorable(input.chainId, store)
    requires Decides(input, oracle, StateAt(input, oracle, Start(input, store, lastReport), k))
    ensures var s, a := Start(input, store, lastReport), StateAt(input, oracle, Start(input, store, lastReport), k);
            var id, r := Dispatched(a).id, DecidedOn(input, oracle, a);
            && LiveFailures(r) == LiveFailures(s.record) + {id} && |LiveFailures(r)| == Burden(JournalRecord(store))
            && (DecideReplan(r, id, LoopBounds(input)).GrantReplan? <==>
                  && |Spent(a.record, id)| < Bounded(MaxReplans(input))
                  && Burden(JournalRecord(store)) <= Bounded(LoopBounds(input).maxChain))
  {
    var s, reopened := Start(input, store, lastReport), ReenteredIds(JournalRecord(store), lastReport);
    LaterLaunch(input, store, lastReport);
    hide Start, Restorable, Journaled, Stale, Standing, Unsealed, JournalRecord, StateAt, RunChild, DecidedOn, Spent;
    hide LiveFailures, Dispatchable, Burden, ReenteredIds, AnyFailed, DecideReplan;
    StartedFailures(input, store, lastReport);
    RunDecision(input, oracle, s, k, reopened);
  }

  /** The decision counts the failing node alone. */
  ghost predicate DecidesAlone(input: ChainInput, oracle: Oracle, s: LoopState) {
    Decides(input, oracle, s) ==> LiveFailures(DecidedOn(input, oracle, s)) == {Dispatched(s).id}
  }

  /** ...and so does every decision of every run from here. */
  ghost predicate AlwaysAlone(input: ChainInput, s: LoopState) {
    forall oracle: Oracle, k: nat :: DecidesAlone(input, oracle, StateAt(input, oracle, s, k))
  }

  const DEAD := ChildReport(RunFailed, None, None, None, None, false)

  /** Children that all fail for good. */
  function AllDie(): Oracle {
    (k: nat) => DEAD
  }

  lemma DeathDecides(input: ChainInput, s: LoopState)
    requires Dispatching(s)
    ensures Decides(input, AllDie(), s)
  {
    hide Dispatchable;
  }

  /** In a resumed launch every decision, whatever the children do, counts the failing node alone if and only if the record it
      read has one FAILED node at most, or the launch decides nothing because it has no node to start. */
  lemma DecisionsAreIsolated(input: ChainInput, store: Store, lastReport: ChildReport)
    requires Restorable(input.chainId, store)
    ensures var r := JournalRecord(store);
            AlwaysAlone(input, Start(input, store, lastReport)) <==> |LiveFailures(r)| <= 1 || !Startable(r)
  {
    var r, s := JournalRecord(store), Start(input, store, lastReport);
    hide Start, Restorable, JournalRecord, LiveFailures, Startable, AllDie, StateAt, Dispatchable, DecidedOn, RunChild;
    if |LiveFailures(r)| <= 1 || !Startable(r) {
      forall oracle: Oracle, k: nat
        ensures DecidesAlone(input, oracle, StateAt(input, oracle, s, k))
      {
        DecidesAloneAt(input, oracle, store, lastReport, k);
      }
    } else {
      DecidesInCompany(input, store, lastReport);
      assert !DecidesAlone(input, AllDie(), StateAt(input, AllDie(), s, 0));
    }
  }

  /** Over all launches of a chain: every decision counts the failing node alone in the first launch, and in a later one if and
      only if the record it reads has one FAILED node at most, or there is nothing to start. */
  lemma {:induction false} ChainDecidesAlone(ls: seq<Launch>)
    requires OneChain(ls)
    ensures |ls| > 1 ==> StoreBefore(ls).row.Some?
    ensures AlwaysAlone(ls[|ls| - 1].input, StartOf(ls)) <==>
            || |ls| == 1
            || |LiveFailures(JournalRecord(StoreBefore(ls)))| <= 1 || !Startable(JournalRecord(StoreBefore(ls)))
  {
    var l := ls[|ls| - 1];
    if |ls| == 1 {
      hide *;
      FirstParts(ls);
      StartsInStep(ls);
      NothingFailed(StartOf(ls).record, ls[0].input.plan);
      UnburdenedDecidesAlone(ls[0].input, StartOf(ls), ReenteredAt(ls));
    } else {
      hide *;
      LaterParts(ls);
      Handover(ls);
      StoredRecord(l.input.chainId, StoreBefore(ls));
      DecisionsAreIsolated(l.input, StoreBefore(ls), l.lastReport);
    }
  }

  lemma NothingFailed(r: ChainRecord, plan: Plan)
    requires r == EmptyRecord(plan).(status := r.status)
    ensures LiveFailures(r) == {}
  {
  }

  lemma UnburdenedDecidesAlone(input: ChainInput, s: LoopState, reopened: set<string>)
    requires Journaled(input, s, reopened) && LiveFailures(s.record) == {}
    ensures AlwaysAlone(input, s)
  {
    hide Journaled, StateAt, LiveFailures, DecidedOn, Decides, Dispatchable, DecideReplan, Spent;
    forall oracle: Oracle, k: nat
      ensures DecidesAlone(input, oracle, StateAt(input, oracle, s, k))
    {
      if Decides(input, oracle, StateAt(input, oracle, s, k)) {
        RunDecision(input, oracle, s, k, reopened);
      }
    }
  }

  lemma DecidesAloneAt(input: ChainInput, oracle: Oracle, store: Store, lastReport: ChildReport, k: nat)
    requires Restorable(input.chainId, store)
    requires var r := JournalRecord(store); |LiveFailures(r)| <= 1 || !Startable(r)
    ensures DecidesAlone(input, oracle, StateAt(input, oracle, Start(input, store, lastReport), k))
  {
    var r, s := JournalRecord(store), Start(input, store, lastReport);
    var a := StateAt(input, oracle, s, k);
    hide Start, Restorable, JournalRecord, LiveFailures, Startable, StateAt, Dispatchable, DecidedOn, RunChild, Spent;
    hide DecideReplan;
    if Decides(input, oracle, a) {
      if |LiveFailures(r)| <= 1 {
        LaunchDecision(input, oracle, store, lastReport, k);
        StartedFailures(input, store, lastReport);
        NothingBut(LiveFailures(s.record), Dispatched(a).id);
      } else {
        NothingStarts(input, oracle, store, lastReport, k);
      }
    }
  }

  lemma NothingBut(others: set<string>, id: string)
    ensures |others| == 0 ==> others + {id} == {id}
  {
  }

  lemma NothingStarts(input: ChainInput, oracle: Oracle, store: Store, lastReport: ChildReport, k: nat)
    requires Restorable(input.chainId, store)
    requires var r := JournalRecord(store); |LiveFailures(r)| > 1 && !Startable(r)
    ensures !Dispatching(StateAt(input, oracle, Start(input, store, lastReport), k))
  {
    var r, s := JournalRecord(store), Start(input, store, lastReport);
    hide Start, Restorable, JournalRecord, LiveFailures, Startable, Dispatchable, Turn, AnyFailed;
    NoFailureNoHeal(r);
    ResumeHealsExactly(input, store, lastReport);
    if k > 0 {
      TurnWithoutWork(input, oracle, s);
      NextState(input, oracle, s, 0);
      NoTurnYet(input, oracle, s);
      EndedForGood(input, oracle, s, 1, k);
    }
  }

  lemma TurnWithoutWork(input: ChainInput, oracle: Oracle, s: LoopState)
    requires !Dispatching(s)
    ensures Turn(input, oracle, s).record.status != Running
  {
  }

  lemma NextState(input: ChainInput, oracle: Oracle, s: LoopState, j: nat)
    ensures StateAt(input, oracle, s, j + 1) == Turn(input, oracle, StateAt(input, oracle, s, j))
  {
  }

  lemma DecidesInCompany(input: ChainInput, store: Store, lastReport: ChildReport)
    requires Restorable(input.chainId, store)
    requires var r := JournalRecord(store); |LiveFailures(r)| > 1 && Startable(r)
    ensures !DecidesAlone(input, AllDie(), StateAt(input, AllDie(), Start(input, store, lastReport), 0))
  {
    var r, s := JournalRecord(store), Start(input, store, lastReport);
    hide *;
    NoFailureNoHeal(r);
    ResumeHealsExactly(input, store, lastReport);
    NoTurnYet(input, AllDie(), s);
    DeathDecides(input, s);
    LaunchDecision(input, AllDie(), store, lastReport, 0);
    InCompany(input, AllDie(), s);
  }

  lemma InCompany(input: ChainInput, oracle: Oracle, s: LoopState)
    requires Decides(input, oracle, s) && |LiveFailures(DecidedOn(input, oracle, s))| > 1
    ensures !DecidesAlone(input, oracle, s)
  {
    var id := Dispatched(s).id;
    hide Decides, DecidedOn, LiveFailures;
    assert |{id}| == 1;
  }

  /** `id` fails and is refused its retry, with these nodes FAILED. */
  ghost predicate Refuses(input: ChainInput, oracle: Oracle, s: LoopState, id: string, failed: set<string>) {
    && Decides(input, oracle, s) && Dispatched(s).id == id
    && LiveFailures(DecidedOn(input, oracle, s)) == failed
    && !DecideReplan(DecidedOn(input, oracle, s), id, LoopBounds(input)).GrantReplan?
  }

  /** With more FAILED nodes on record than the ceiling allows, a first child that fails is refused its retry, whatever its
      lineage's budget. */
  lemma CeilingRefuses(input: ChainInput, store: Store, lastReport: ChildReport)
    requires Restorable(input.chainId, store) && Dispatching(Start(input, store, lastReport))
    requires |LiveFailures(JournalRecord(store))| > Bounded(LoopBounds(input).maxChain)
    ensures var s := Start(input, store, lastReport);
            Refuses(input, AllDie(), s, Dispatched(s).id, LiveFailures(s.record) + {Dispatched(s).id})
  {
    var s := Start(input, store, lastReport);
    hide Start, Restorable, Dispatchable, LiveFailures, JournalRecord, AllDie, DecidedOn, StateAt, DecideReplan, RunChild;
    hide LoopBounds, Burden, Spent;
    NoTurnYet(input, AllDie(), s);
    DeathDecides(input, s);
    LaunchDecision(input, AllDie(), store, lastReport, 0);
  }

  // ---- All launches: the plan keeps its size ----

  lemma RunKeepsSize(input: ChainInput, oracle: Oracle, s: LoopState, k: nat, reopened: set<string>)
    requires Journaled(input, s, reopened)
    ensures |StateAt(input, oracle, s, k).record.plan.nodes| == |s.record.plan.nodes|
  {
    hide StateAt, Journaled;
    RunDoesWork(input, oracle, s, k, reopened);
  }

  lemma {:induction false} LaunchesKeepSize(ls: seq<Launch>, k: nat)
    requires OneChain(ls)
    ensures |ChainAt(ls, k).record.plan.nodes| == |ls[0].input.plan.nodes|
  {
    hide ChainAt, LaunchablePlan;
    LaunchesDoWork(ls, k);
  }

  /** In every launch whose ceiling is no smaller than the plan first launched, as the default is for a plan of that size, the
      ceiling never decides: a retry is granted exactly when its lineage has budget left. */
  lemma {:induction false} AmpleCeilingNeverDecides(ls: seq<Launch>, k: nat)
    requires OneChain(ls)
    requires |ls[0].input.plan.nodes| <= Bounded(LoopBounds(ls[|ls| - 1].input).maxChain)
    requires Decides(ls[|ls| - 1].input, ls[|ls| - 1].oracle, ChainAt(ls, k))
    ensures var l, a := ls[|ls| - 1], ChainAt(ls, k);
            DecideReplan(DecidedOn(l.input, l.oracle, a), Dispatched(a).id, LoopBounds(l.input)).GrantReplan? <==>
              |Spent(a.record, Dispatched(a).id)| < Bounded(MaxReplans(l.input))
  {
    var l, a := ls[|ls| - 1], ChainAt(ls, k);
    LaunchesKeepSize(ls, k);
    EveryLaunch(ls);
    hide StateAt, StartOf, Stale, Standing, Unsealed, Restorable, ReenteredAt, RecordInv, StoreInv, Spent, LiveFailures;
    hide DecideReplan, LoopBounds, RunChild, LineageFailures, Incarnations, Incarnation, LineageRoot, NextRetry;
    RunKeepsJournal(l.input, l.oracle, StartOf(ls), k, ReenteredAt(ls));
    ReplanDecisionIsExact(l.input, l.oracle, a, ReenteredAt(ls));
    FoldKeepsJournal(l.input, l.oracle, a, Dispatched(a), ReenteredAt(ls));
    LargeCeilingNeverBinds(DecidedOn(l.input, l.oracle, a), LoopBounds(l.input));
  }

  // ---- All launches: what is FAILED has spent its budget ----

  /** Every active node that is FAILED or was re-entered has no replan of its lineage left. */
  ghost predicate SpentOut(r: ChainRecord, budget: nat, reopened: set<string>) {
    forall y :: y in NodeIds(r.plan) && (SealedWith(r, y, Failed) || y in reopened) ==> |Spent(r, y)| >= budget
  }

  ghost predicate SpentOutBut(r: ChainRecord, budget: nat, reopened: set<string>, id: string) {
    forall y :: y in NodeIds(r.plan) && y != id && (SealedWith(r, y, Failed) || y in reopened) ==> |Spent(r, y)| >= budget
  }

  lemma FoldKeepsSpentOut(input: ChainInput, s: LoopState, n: PlanNode, child: Attended, budget: nat, reopened: set<string>)
    requires RecordInv(input.chainId, s.record) && n in Dispatchable(s.record) && SpentOut(s.record, budget, reopened)
    ensures var t := FoldNode(input, s, n.id, child).record;
            && SpentOutBut(t, budget, reopened, n.id)
            && (DeriveNodeOutcome(child.report).status == Success || |Spent(s.record, n.id)| >= budget ==>
                  SpentOut(t, budget, reopened))
  {
    hide RecordInv, Dispatchable, Spent;
    FoldKeepsRecord(input, s, n, child);
    UnsealedActive(s.record, n);
    var t := FoldNode(input, s, n.id, child).record;
    assert n.id in NodeIds(t.plan) && t.plan == s.record.plan;
    assert forall y :: y != n.id ==> SealedWith(t, y, Failed) == SealedWith(s.record, y, Failed);
    assert SealedWith(t, n.id, DeriveNodeOutcome(child.report).status);
  }

  lemma SpliceKeepsSpentOut(chainId: string, r: ChainRecord, h: ChainRecord, f: nat, budget: nat, reopened: set<string>)
    requires RecordInv(chainId, r) && f < |r.plan.nodes| && SealedWith(r, r.plan.nodes[f].id, Failed)
    requires SplicedRecord(r, h, f, NextRetry(r, r.plan.nodes[f].id)) && NextRetry(r, r.plan.nodes[f].id) !in reopened
    requires SpentOutBut(r, budget, reopened, r.plan.nodes[f].id)
    ensures SpentOut(h, budget, reopened)
  {
    hide RecordInv, SplicedRecord, NextRetry, Spent, Incarnated, NodeIds;
    SplicedActive(chainId, r, h, f);
    SpliceKeepsIncarnated(chainId, r, h, f);
  }

  lemma FailureKeepsSpentOut(input: ChainInput, s: LoopState, n: PlanNode, reason: Option<string>, budget: nat,
                             reopened: set<string>)
    requires RecordInv(input.chainId, s.record) && n in s.record.plan.nodes && SealedWith(s.record, n.id, Failed)
    requires DecideReplan(s.record, n.id, LoopBounds(input)).GrantReplan? || |Spent(s.record, n.id)| >= budget
    requires SpentOutBut(s.record, budget, reopened, n.id) && NextRetry(s.record, n.id) !in reopened
    ensures SpentOut(AfterFailure(input, s, n.id, reason).record, budget, reopened)
  {
    hide RecordInv, SpliceRetry, NextRetry, LiveFailures, BuildRetryPlan, BuildReplanBrief, SplicedRecord, SpentOutBut, Spent;
    var decision := DecideReplan(s.record, n.id, LoopBounds(input));
    var f :| 0 <= f < |s.record.plan.nodes| && s.record.plan.nodes[f] == n;
    if decision.GrantReplan? {
      SpliceEffect(input, s, f, decision, reason);
      hide SpentOut, LineageFailures;
      SpliceKeepsSpentOut(input.chainId, s.record, SpliceRetry(s, n.id, decision, reason).record, f, budget, reopened);
    } else {
      AllSpentOut(s.record, budget, reopened, n.id);
    }
  }

  lemma AllSpentOut(r: ChainRecord, budget: nat, reopened: set<string>, id: string)
    requires SpentOutBut(r, budget, reopened, id) && |Spent(r, id)| >= budget
    ensures SpentOut(r, budget, reopened)
  {
    hide Spent;
  }

  lemma TurnKeepsSpentOut(input: ChainInput, oracle: Oracle, s: LoopState, reopened: set<string>)
    requires Journaled(input, s, reopened) && Stale(s, reopened)
    requires SpentOut(s.record, Bounded(MaxReplans(input)), reopened)
    requires |s.record.plan.nodes| <= Bounded(LoopBounds(input).maxChain)
    ensures SpentOut(Turn(input, oracle, s).record, Bounded(MaxReplans(input)), reopened)
  {
    hide RecordInv, StoreInv, FoldNode, RunChild, AfterFailure, Dispatchable, Stale, Spent, SpentOut, SpentOutBut;
    hide LiveFailures;
    hide DecideReplan, LineageFailures, Incarnations, Incarnation, LineageRoot, NextRetry, LoopBounds, MaxReplans;
    var budget := Bounded(MaxReplans(input));
    if Dispatching(s) {
      var n := Dispatched(s);
      var child := RunChild(input, oracle, s, n.id);
      var folded := FoldNode(input, s, n.id, child);
      FoldKeepsJournal(input, oracle, s, n, reopened);
      FoldKeepsRecord(input, s, n, child);
      FoldKeepsSpentOut(input, s, n, child, budget, reopened);
      FoldKeepsStale(input, oracle, s, n, reopened);
      if DeriveNodeOutcome(child.report).status == Failed {
        ReplanDecisionIsExact(input, oracle, s, reopened);
        LargeCeilingNeverBinds(folded.record, LoopBounds(input));
        UnsealedActive(s.record, n);
        RetryNotReopened(input, folded, n.id, reopened);
        FailureKeepsSpentOut(input, folded, n, child.report.reason, budget, reopened);
      }
    } else {
      SpentOutIgnoresStatus(s.record, Turn(input, oracle, s).record.status, budget, reopened);
    }
  }

  lemma SpentOutIgnoresStatus(r: ChainRecord, status: ChainStatus, budget: nat, reopened: set<string>)
    requires SpentOut(r, budget, reopened)
    ensures SpentOut(r.(status := status), budget, reopened)
  {
    assert forall y :: Spent(r.(status := status), y) == Spent(r, y);
    assert forall y :: SealedWith(r.(status := status), y, Failed) == SealedWith(r, y, Failed);
  }

  lemma {:induction false} RunKeepsSpentOut(input: ChainInput, oracle: Oracle, s: LoopState, k: nat, reopened: set<string>)
    requires Journaled(input, s, reopened) && Stale(s, reopened)
    requires SpentOut(s.record, Bounded(MaxReplans(input)), reopened)
    requires |s.record.plan.nodes| <= Bounded(LoopBounds(input).maxChain)
    ensures SpentOut(StateAt(input, oracle, s, k).record, Bounded(MaxReplans(input)), reopened)
  {
    hide Turn, Journaled, Stale, SpentOut;
    if k > 0 {
      RunKeepsSpentOut(input, oracle, s, k - 1, reopened);
      RunKeepsJournal(input, oracle, s, k - 1, reopened);
      RunKeepsStale(input, oracle, s, k - 1, reopened);
      RunKeepsSize(input, oracle, s, k - 1, reopened);
      TurnKeepsSpentOut(input, oracle, StateAt(input, oracle, s, k - 1), reopened);
    }
  }

  lemma HealKeepsSpentOut(chainId: string, r: ChainRecord, h: ChainRecord, lastReport: ChildReport, budget: nat)
    requires RecordInv(chainId, r) && HealedTo(r, h, lastReport) && SpentOut(r, budget, {})
    ensures SpentOut(h, budget, ReenteredIds(r, lastReport))
  {
    hide RecordInv, Spent, SplicedRecord, NextRetry, NodeIds, DeriveChainStatus;
    var failed := FirstFailed(r, r.plan.nodes);
    if failed.None? {
      SpentOutIgnoresStatus(r, h.status, budget, {});
    } else if Reenters(r, failed.value, lastReport) {
      FirstFailedIsActive(r);
      ReentryKeepsRecord(chainId, r, failed.value);
    } else {
      hide SpentOut;
      var f: nat :| f < |r.plan.nodes| && r.plan.nodes[f].id == failed.value && SplicedRecord(r, h, f, NextRetry(r, failed.value));
      SpentOutWithout(r, budget, failed.value);
      SpliceKeepsSpentOut(chainId, r, h, f, budget, {});
    }
  }

  lemma SpentOutWithout(r: ChainRecord, budget: nat, id: string)
    requires SpentOut(r, budget, {})
    ensures SpentOutBut(r, budget, {}, id)
  {
  }

  lemma FirstFailedIsActive(r: ChainRecord)
    ensures var failed := FirstFailed(r, r.plan.nodes); failed.Some? ==> failed.value in NodeIds(r.plan)
  {
  }

  /** The budget per node is never raised from one launch to the next, and no ceiling is smaller than the plan. */
  ghost predicate SteadyBudgets(ls: seq<Launch>)
    requires ls != []
  {
    && (forall i, j :: 0 <= i <= j < |ls| ==> Bounded(MaxReplans(ls[j].input)) <= Bounded(MaxReplans(ls[i].input)))
    && forall l :: l in ls ==> |ls[0].input.plan.nodes| <= Bounded(LoopBounds(l.input).maxChain)
  }

  lemma {:induction false} SteadyBefore(ls: seq<Launch>)
    requires |ls| > 1 && SteadyBudgets(ls)
    ensures SteadyBudgets(ls[..|ls| - 1])
    ensures Bounded(MaxReplans(ls[|ls| - 1].input)) <= Bounded(MaxReplans(ls[|ls| - 2].input))
  {
    hide MaxReplans, LoopBounds;
    var front := ls[..|ls| - 1];
    assert forall l :: l in front ==> l in ls;
  }

  lemma RecordedSpentOut(live: ChainRecord, r: ChainRecord, reopened: set<string>, budget: nat, less: nat)
    requires RecordedAs(live, r, reopened) && SpentOut(live, budget, reopened) && less <= budget
    ensures SpentOut(r, less, {})
  {
    hide Spent, NodeIds;
  }

  lemma {:induction false} SpentOutIsHandedOver(ls: seq<Launch>, budget: nat, less: nat)
    requires OneChain(ls) && |ls| > 1 && less <= budget
    requires SpentOut(EndOf(ls[..|ls| - 1]).record, budget, ReenteredAt(ls[..|ls| - 1]))
    ensures StoreBefore(ls).row.Some? && SpentOut(JournalRecord(StoreBefore(ls)), less, {})
    ensures SpentOut(StartOf(ls).record, less, ReenteredAt(ls))
  {
    var front, l := ls[..|ls| - 1], ls[|ls| - 1];
    hide StartOf, EndOf, LaunchablePlan, Restorable, HealedTo, RecordedAs, RecordInv;
    hide StoreBefore, ReenteredAt, OneChain, ChainRecordOf, StoreInv, SpentOut, ReenteredIds;
    Handover(ls);
    StoredRecord(l.input.chainId, StoreBefore(ls));
    RecordedSpentOut(EndOf(front).record, JournalRecord(StoreBefore(ls)), ReenteredAt(front), budget, less);
    HealKeepsSpentOut(l.input.chainId, JournalRecord(StoreBefore(ls)), StartOf(ls).record, l.lastReport, less);
  }

  lemma {:induction false} SpentOutFrom(ls: seq<Launch>, k: nat)
    requires OneChain(ls) && SteadyBudgets(ls)
    requires SpentOut(StartOf(ls).record, Bounded(MaxReplans(ls[|ls| - 1].input)), ReenteredAt(ls))
    ensures SpentOut(ChainAt(ls, k).record, Bounded(MaxReplans(ls[|ls| - 1].input)), ReenteredAt(ls))
  {
    var l := ls[|ls| - 1];
    hide StartOf, StateAt, Journaled, Stale, ReenteredAt, OneChain, SpentOut, SteadyBudgets, MaxReplans, LoopBounds;
    StartsInStep(ls);
    AmpleAtLast(ls);
    LaunchesKeepSize(ls, 0);
    NoTurnYet(l.input, l.oracle, StartOf(ls));
    RunKeepsSpentOut(l.input, l.oracle, StartOf(ls), k, ReenteredAt(ls));
  }

  lemma {:induction false} FirstSpentOut(ls: seq<Launch>, budget: nat)
    requires OneChain(ls) && |ls| == 1
    ensures SpentOut(StartOf(ls).record, budget, ReenteredAt(ls))
  {
    hide StartOf, ReenteredAt, OneChain, SpentOut;
    FirstParts(ls);
    NothingSpent(StartOf(ls).record, budget);
  }

  /** With such budgets every FAILED active node of every record a resume reads, and every re-entered node, has spent its
      lineage's budget. */
  lemma {:induction false} FailedHasSpentItsBudget(ls: seq<Launch>, k: nat)
    requires OneChain(ls) && SteadyBudgets(ls)
    ensures SpentOut(ChainAt(ls, k).record, Bounded(MaxReplans(ls[|ls| - 1].input)), ReenteredAt(ls))
    ensures |ls| > 1 ==>
              && StoreBefore(ls).row.Some?
              && SpentOut(JournalRecord(StoreBefore(ls)), Bounded(MaxReplans(ls[|ls| - 1].input)), {})
    decreases |ls|
  {
    assert ls != [];
    hide *;
    if |ls| == 1 {
      FirstSpentOut(ls, Bounded(MaxReplans(ls[|ls| - 1].input)));
    } else {
      var front := ls[..|ls| - 1];
      LaterParts(ls);
      SteadyBefore(ls);
      FailedHasSpentItsBudget(front, DispatchBound(front[|front| - 1].input, StartOf(front).record) + 1);
      EndIsState(front);
      SpentOutIsHandedOver(ls, Bounded(MaxReplans(front[|front| - 1].input)), Bounded(MaxReplans(ls[|ls| - 1].input)));
    }
    SpentOutFrom(ls, k);
  }

  lemma {:induction false} AmpleAtLast(ls: seq<Launch>)
    requires ls != [] && SteadyBudgets(ls)
    ensures |ls[0].input.plan.nodes| <= Bounded(LoopBounds(ls[|ls| - 1].input).maxChain)
  {
    assert ls[|ls| - 1] in ls;
  }

  lemma StoredRecord(chainId: string, store: Store)
    requires Restorable(chainId, store)
    ensures store.row.Some? && RecordInv(chainId, JournalRecord(store))
  {
  }

  lemma NothingSpent(r: ChainRecord, budget: nat)
    requires r.nodeOutcomes == map[]
    ensures SpentOut(r, budget, {})
  {
  }
}
