/** Chains of three launches each, from an ordinary plan: two that end FAILED with no way to resume, and one whose ceiling
    refuses a lineage the retries it has budget for. */
module StrandedChain {
  import opened Graph
  import opened Text
  import opened Lineage
  import opened ChainTypes
  import opened Reducer
  import opened Replan
  import opened PlanSurgery
  import opened Journal
  import opened Activities
  import opened ChainLoop
  import opened ChainInvariant
  import opened ChainTurn
  import opened ChainTermination
  import opened ChainTheorems
  import opened ChainGuarantees
  import opened ChainResume
  import opened ChainReentry
  import opened ChainLaunches
  import opened ChainSeals
  import opened ChainBudgets
  import opened ChainGrant
  import opened ChainAttempts
  import opened ChainCycles

  /** A child that stopped and can be continued, and one that cannot. */
  const STOPPED := ChildReport(RunFailed, None, None, None, None, true)
  const FAILURE := NodeOutcome(Failed, Halt, None)

  const A := PlanNode("A", "", [], [], None, 0.0)

  function B(dependent: bool): PlanNode {
    PlanNode("B", "", [], if dependent then ["A"] else [], None, 0.0)
  }

  /** Two independent nodes, or the second waiting for the first but listed before it. */
  function Nodes(dependent: bool): seq<PlanNode> {
    if dependent then [B(true), A] else [A, B(false)]
  }

  function Input(dependent: bool): ChainInput {
    ChainInput("c", Plan("p", "", Nodes(dependent)), None, None)
  }

  lemma TwoNodes(plan: Plan, dependent: bool)
    requires plan.nodes == Nodes(dependent)
    ensures NodeIds(plan) == {"A", "B"} && |plan.nodes| == 2
    ensures A in plan.nodes && B(dependent) in plan.nodes && forall n :: n in plan.nodes ==> n == A || n == B(dependent)
  {
    var i := if dependent then 1 else 0;
    assert plan.nodes[i] == A && plan.nodes[1 - i] == B(dependent);
  }

  lemma PlanIsLaunchable(dependent: bool)
    ensures LaunchablePlan(Input(dependent).plan) && AcyclicPlan(Input(dependent).plan)
  {
    var plan := Input(dependent).plan;
    TwoNodes(plan, dependent);
    assert StripRetry("A") == "A" && StripRetry("B") == "B" by { NoSuffix("A"); NoSuffix("B"); }
    var rank := (x: string) => if x == "B" then 1 else 0;
    forall x, y | Edge(DependencyGraph(plan.nodes), x, y)
      ensures rank(y) < rank(x)
    {
      EdgeMeaning(plan, x, y);
    }
    RankRulesOutCycles(DependencyGraph(plan.nodes), rank);
  }

  lemma NoSuffix(s: string)
    requires |s| == 1 && !IsDigit(s[0])
    ensures StripRetry(s) == s
  {
  }

  lemma NextNode(r: ChainRecord, dependent: bool)
    requires r.plan.nodes == Nodes(dependent) && "B" !in r.nodeOutcomes
    ensures "A" !in r.nodeOutcomes ==> Dispatchable(r) != [] && Dispatchable(r)[0] == A
    ensures SealedWith(r, "A", Success) ==> Dispatchable(r) != [] && Dispatchable(r)[0] == B(dependent)
  {
    TwoNodes(r.plan, dependent);
    DispatchableMeaning(r, A);
    DispatchableMeaning(r, B(dependent));
    if "A" !in r.nodeOutcomes {
      AFirst(r, dependent);
    } else if SealedWith(r, "A", Success) {
      forall n | n in Dispatchable(r) ensures n == B(dependent) { DispatchableMeaning(r, n); }
      assert Dispatchable(r)[0] in Dispatchable(r);
    }
  }

  lemma AFirst(r: ChainRecord, dependent: bool)
    requires r.plan.nodes == Nodes(dependent) && "A" !in r.nodeOutcomes && "B" !in r.nodeOutcomes
    ensures Dispatchable(r) != [] && Dispatchable(r)[0] == A
  {
    DispatchableMeaning(r, A);
    assert A in r.plan.nodes by { TwoNodes(r.plan, dependent); }
    if dependent {
      forall n | n in Dispatchable(r) ensures n == A {
        DispatchableMeaning(r, n);
        TwoNodes(r.plan, dependent);
        assert n.id == "B" ==> "A" in n.dependsOn;
      }
      assert Dispatchable(r)[0] in Dispatchable(r);
    } else {
      assert r.plan.nodes[0] == A;
      var ready := ReadyNodes(r.plan, SucceededIds(r));
      assert ready[0] == A;
    }
  }

  lemma PlainFold(input: ChainInput, oracle: Oracle, s: LoopState, n: PlanNode, reopened: set<string>)
    requires Journaled(input, s, reopened) && input.maxReplans.None?
    ensures var t, outcome := FoldNode(input, s, n.id, RunChild(input, oracle, s, n.id)), DeriveNodeOutcome(oracle(s.executions));
            && t.record.plan == s.record.plan && t.executions == s.executions + 1
            && t.record.nodeOutcomes == s.record.nodeOutcomes[n.id := outcome] && n.id in t.record.nodeRuns
            && t.record.status == DeriveChainStatus(t.record)
            && s.store.row.Some? && t.store.row.Some?
            && View(t.store).outcomes == if n.id in View(s.store).outcomes then View(s.store).outcomes
                                         else View(s.store).outcomes[n.id := outcome]
  {
    hide RecordInv, Fold, ReplannedIds;
    PlainChild(input, oracle, s, n.id);
    RunChildStore(input, oracle, s, n.id, reopened);
    hide RunChild;
    var child := RunChild(input, oracle, s, n.id);
    SealView(child.store, n.id, DeriveNodeOutcome(child.report), child.report.handoff, child.report.inconclusiveCheck);
  }

  /** A turn without a replan budget: one execution, one seal. */
  lemma PlainTurn(input: ChainInput, oracle: Oracle, s: LoopState, reopened: set<string>)
    requires Journaled(input, s, reopened) && input.maxReplans.None? && Dispatching(s)
    ensures var t, n, outcome := Turn(input, oracle, s), Dispatched(s), DeriveNodeOutcome(oracle(s.executions));
            && t.record.plan == s.record.plan && t.executions == s.executions + 1
            && t.record.nodeOutcomes == s.record.nodeOutcomes[n.id := outcome] && n.id in t.record.nodeRuns
            && t.record.status == DeriveChainStatus(t.record)
            && s.store.row.Some? && t.store.row.Some?
            && View(t.store).outcomes == if n.id in View(s.store).outcomes then View(s.store).outcomes
                                         else View(s.store).outcomes[n.id := outcome]
  {
    var n := Dispatched(s);
    PlainFold(input, oracle, s, n, reopened);
    PlainChild(input, oracle, s, n.id);
    var child := RunChild(input, oracle, s, n.id);
    hide View, RunChild, AfterFailure, FoldNode, Journaled, DeriveChainStatus, Dispatchable, DeriveNodeOutcome;
    if DeriveNodeOutcome(child.report).status == Failed {
      NoBudget(input, FoldNode(input, s, n.id, child), n.id, child.report.reason);
    }
  }

  lemma PlainChild(input: ChainInput, oracle: Oracle, s: LoopState, id: string)
    requires input.maxReplans.None?
    ensures RunChild(input, oracle, s, id).report == oracle(s.executions)
    ensures RunChild(input, oracle, s, id).executions == s.executions + 1
  {
  }

  lemma NoBudget(input: ChainInput, s: LoopState, id: string, reason: Option<string>)
    requires input.maxReplans.None? && SealedWith(s.record, id, Failed)
    ensures AfterFailure(input, s, id, reason) == s.(reason := None, resumableSeal := true)
  {
    hide LineageRoot, LiveFailures, SealedWith, SpliceRetry, RemainingIds, NodeIds;
    FailureIsCounted(s.record, id);
    hide LineageFailures;
  }

  lemma FailureIsCounted(r: ChainRecord, id: string)
    requires SealedWith(r, id, Failed)
    ensures |LineageFailures(r, LineageRoot(id))| > 0
  {
    hide LineageRoot;
    assert id in LineageFailures(r, LineageRoot(id));
  }

  lemma EndsAt(input: ChainInput, oracle: Oracle, s: LoopState, j: nat, reopened: set<string>)
    requires Journaled(input, s, reopened) && StateAt(input, oracle, s, j).record.status != Running
    requires j > 0 ==> StateAt(input, oracle, s, j - 1).record.status == Running
    ensures EndFrom(input, oracle, s) == StateAt(input, oracle, s, j)
  {
    hide StateAt, DispatchBound, Journaled;
    var k := DispatchBound(input, s.record) + 1;
    EveryRunEnds(input, oracle, s, reopened);
    if j <= k {
      EndedForGood(input, oracle, s, j, k);
    } else {
      EndedForGood(input, oracle, s, k, j - 1);
    }
  }

  // ---- The three launches ----

  lemma Unfinished(r: ChainRecord, x: string)
    requires x in NodeIds(r.plan) && x !in r.nodeOutcomes
    requires forall y :: y in r.nodeOutcomes ==> r.nodeOutcomes[y] == NodeOutcome(Success, Proceed, None)
    ensures DeriveChainStatus(r) == Running
  {
    assert !SealedWith(r, x, Success);
  }

  lemma HasFailed(r: ChainRecord, x: string)
    requires x in NodeIds(r.plan) && SealedWith(r, x, Failed)
    ensures DeriveChainStatus(r) != Running
  {
  }

  lemma TurnIsState(input: ChainInput, oracle: Oracle, s: LoopState)
    ensures StateAt(input, oracle, s, 0) == s
    ensures StateAt(input, oracle, s, 1) == Turn(input, oracle, s)
    ensures StateAt(input, oracle, s, 2) == Turn(input, oracle, Turn(input, oracle, s))
  {
    hide Turn;
    assert StateAt(input, oracle, s, 1) == Turn(input, oracle, s);
  }

  /** The first child stops: A is sealed FAILED, and nothing else. */
  lemma FirstRun(input: ChainInput, oracle: Oracle, s: LoopState, dependent: bool)
    requires Journaled(input, s, {}) && input.maxReplans.None? && s.record.plan.nodes == Nodes(dependent)
    requires s.record.status == Running && s.record.nodeOutcomes == map[]
    requires DeriveNodeOutcome(oracle(s.executions)) == FAILURE
    ensures var t := EndFrom(input, oracle, s);
            && t.record.plan == s.record.plan && "A" in t.record.nodeRuns && t.record.nodeOutcomes == map["A" := FAILURE]
            && t.store.row.Some?
  {
    hide Journaled, Dispatchable, Turn, EndFrom, View, DeriveNodeOutcome, StateAt;
    TwoNodes(s.record.plan, dependent);
    NextNode(s.record, dependent);
    PlainTurn(input, oracle, s, {});
    HasFailed(Turn(input, oracle, s).record, "A");
    TurnIsState(input, oracle, s);
    EndsAt(input, oracle, s, 1, {});
  }

  /** The re-entered A succeeds and B fails: the journal has both FAILED. */
  lemma SecondRun(input: ChainInput, oracle: Oracle, s: LoopState, dependent: bool)
    requires Journaled(input, s, {"A"}) && input.maxReplans.None? && s.record.plan.nodes == Nodes(dependent)
    requires s.record.status == Running && s.record.nodeOutcomes == map[]
    requires s.store.row.Some? && View(s.store).outcomes == map["A" := FAILURE]
    requires DeriveNodeOutcome(oracle(s.executions)) == NodeOutcome(Success, Proceed, None)
    requires DeriveNodeOutcome(oracle(s.executions + 1)) == FAILURE
    ensures var t := EndFrom(input, oracle, s);
            && t.record.plan == s.record.plan
            && t.record.nodeOutcomes == map["A" := NodeOutcome(Success, Proceed, None), "B" := FAILURE]
            && t.store.row.Some? && View(t.store).outcomes == map["A" := FAILURE, "B" := FAILURE]
  {
    hide Journaled, Dispatchable, Turn, EndFrom, View, DeriveNodeOutcome, StateAt;
    TwoNodes(s.record.plan, dependent);
    NextNode(s.record, dependent);
    PlainTurn(input, oracle, s, {"A"});
    var m := Turn(input, oracle, s);
    Unfinished(m.record, "B");
    NextNode(m.record, dependent);
    TurnKeepsJournal(input, oracle, s, {"A"});
    PlainTurn(input, oracle, m, {"A"});
    HasFailed(Turn(input, oracle, m).record, "B");
    TurnIsState(input, oracle, s);
    EndsAt(input, oracle, s, 2, {"A"});
  }

  ghost predicate AfterFirst(input: ChainInput, t: LoopState, dependent: bool) {
    && Underway(input, t, {}) && t.record.status != Running && t.record.plan.nodes == Nodes(dependent)
    && "A" in t.record.nodeRuns && t.record.nodeOutcomes == map["A" := FAILURE]
  }

  ghost predicate AfterSecond(input: ChainInput, t: LoopState, dependent: bool) {
    && Underway(input, t, {"A"}) && t.record.status != Running && t.record.plan.nodes == Nodes(dependent)
    && t.record.nodeOutcomes == map["A" := NodeOutcome(Success, Proceed, None), "B" := FAILURE]
    && t.store.row.Some? && View(t.store).outcomes == map["A" := FAILURE, "B" := FAILURE]
  }

  lemma FirstLaunch(input: ChainInput, oracle: Oracle, lastReport: ChildReport, dependent: bool)
    requires input == Input(dependent) && DeriveNodeOutcome(oracle(0)) == FAILURE
    ensures AfterFirst(input, EndFrom(input, oracle, Start(input, Store([], None), lastReport)), dependent)
  {
    var s := Start(input, Store([], None), lastReport);
    PlanIsLaunchable(dependent);
    hide LaunchablePlan, AcyclicPlan, Start, EndFrom, Journaled, Stale, Standing, Unsealed, DeriveNodeOutcome, Inv;
    FreshStart(input, lastReport);
    FreshLaunch(input, lastReport);
    TwoNodes(input.plan, dependent);
    DeriveIgnoresStatus(EmptyRecord(input.plan), s.record.status);
    Unfinished(EmptyRecord(input.plan), "A");
    hide DeriveChainStatus;
    FirstRun(input, oracle, s, dependent);
    EndIsUnderway(input, oracle, s, {});
  }

  lemma AFailsFirst(r: ChainRecord, dependent: bool)
    requires r.plan.nodes == Nodes(dependent) && r.nodeOutcomes == map["A" := FAILURE]
    ensures FirstFailed(r, r.plan.nodes) == Some("A")
  {
    NoFailureNoHeal(r);
    TwoNodes(r.plan, dependent);
    assert SealedWith(r, A.id, Failed);
  }

  /** The resume executes A's child again, with A unsealed in the live record alone. */
  lemma SecondStart(input: ChainInput, store: Store, lastReport: ChildReport, dependent: bool)
    requires Restorable(input.chainId, store) && lastReport.resumable
    requires var r := JournalRecord(store);
             r.plan.nodes == Nodes(dependent) && "A" in r.nodeRuns && r.nodeOutcomes == map["A" := FAILURE]
    ensures var s := Start(input, store, lastReport);
            && ReenteredIds(JournalRecord(store), lastReport) == {"A"}
            && Underway(input, s, {"A"}) && s.record.status == Running && s.executions == 0
            && s.record.plan == JournalRecord(store).plan && s.record.nodeOutcomes == map[]
            && s.store.row.Some? && View(s.store).outcomes == map["A" := FAILURE]
  {
    var r, s := JournalRecord(store), Start(input, store, lastReport);
    RestartKeepsJournal(input, store, lastReport);
    hide Start, Journaled, JournalRecord, HealedTo, ReenteredIds, DeriveChainStatus, Stale, Standing, Unsealed, Restorable;
    hide View, AnyFailed;
    AIsActive(r, dependent);
    AIsReentered(r, s.record, lastReport, dependent);
    RestartPends(input, store, lastReport, "A");
  }

  lemma AIsReentered(r: ChainRecord, h: ChainRecord, lastReport: ChildReport, dependent: bool)
    requires r.plan.nodes == Nodes(dependent) && "A" in r.nodeRuns && r.nodeOutcomes == map["A" := FAILURE]
    requires HealedTo(r, h, lastReport) && lastReport.resumable
    ensures ReenteredIds(r, lastReport) == {"A"} && h.plan == r.plan && h.nodeOutcomes == map[]
  {
    hide SplicedRecord, FirstFailed;
    AFailsFirst(r, dependent);
    assert r.nodeOutcomes - {"A"} == map[];
  }

  lemma AIsActive(r: ChainRecord, dependent: bool)
    requires r.plan.nodes == Nodes(dependent) && SealedWith(r, "A", Failed)
    ensures AnyFailed(r)
  {
    TwoNodes(r.plan, dependent);
  }

  /** After the first launch the journal rebuilds its record. */
  ghost predicate FirstJournal(input: ChainInput, store: Store, dependent: bool) {
    && Restorable(input.chainId, store)
    && var r := JournalRecord(store);
       r.plan.nodes == Nodes(dependent) && "A" in r.nodeRuns && r.nodeOutcomes == map["A" := FAILURE]
  }

  lemma FirstIsJournaled(input: ChainInput, t: LoopState, dependent: bool)
    requires AfterFirst(input, t, dependent)
    ensures FirstJournal(input, Finish(t).store, dependent)
  {
    FinishIsRestorable(input, t, {});
    ReplayIsLive(input.chainId, t.store, t.record);
    hide Finish, RecordInv, StoreInv, Stale, Standing, Unsealed, ChainRecordOf, Restorable;
  }

  lemma SecondLaunch(input: ChainInput, oracle: Oracle, store: Store, lastReport: ChildReport, dependent: bool)
    requires input.maxReplans.None? && FirstJournal(input, store, dependent)
    requires lastReport.resumable && DeriveNodeOutcome(oracle(0)) == NodeOutcome(Success, Proceed, None)
    requires DeriveNodeOutcome(oracle(1)) == FAILURE
    ensures AfterSecond(input, EndFrom(input, oracle, Start(input, store, lastReport)), dependent)
    ensures ChainRecordOf(store).Some? && ReenteredIds(ChainRecordOf(store).value, lastReport) == {"A"}
  {
    hide *;
    var s := SecondIsStarted(input, store, lastReport, dependent);
    SecondRun(input, oracle, s, dependent);
    EndIsUnderway(input, oracle, s, {"A"});
    SecondIsOver(input, EndFrom(input, oracle, s), dependent);
  }

  lemma SecondIsStarted(input: ChainInput, store: Store, lastReport: ChildReport, dependent: bool) returns (s: LoopState)
    requires FirstJournal(input, store, dependent) && lastReport.resumable
    ensures s == Start(input, store, lastReport) && Journaled(input, s, {"A"}) && Underway(input, s, {"A"})
    ensures s.record.plan.nodes == Nodes(dependent) && s.record.status == Running && s.record.nodeOutcomes == map[] && s.executions == 0
    ensures s.store.row.Some? && View(s.store).outcomes == map["A" := FAILURE]
    ensures ChainRecordOf(store).Some? && ReenteredIds(ChainRecordOf(store).value, lastReport) == {"A"}
  {
    s := Start(input, store, lastReport);
    assert ChainRecordOf(store).Some? && JournalRecord(store) == ChainRecordOf(store).value;
    hide Start, Restorable, Journaled, Stale, Standing, Unsealed, View, ReenteredIds, JournalRecord, ChainRecordOf;
    SecondStart(input, store, lastReport, dependent);
  }

  lemma SecondIsOver(input: ChainInput, t: LoopState, dependent: bool)
    requires Underway(input, t, {"A"}) && t.record.status != Running && t.record.plan.nodes == Nodes(dependent)
    requires t.record.nodeOutcomes == map["A" := NodeOutcome(Success, Proceed, None), "B" := FAILURE]
    requires t.store.row.Some? && View(t.store).outcomes == map["A" := FAILURE, "B" := FAILURE]
    ensures AfterSecond(input, t, dependent)
  {
    hide Underway, View;
  }

  /** Two FAILED nodes, no escalation: the third launch ends FAILED and cannot be resumed. */
  lemma ThirdLaunch(input: ChainInput, before: LoopState, lastReport: ChildReport, dependent: bool)
    requires AfterSecond(input, before, dependent)
    ensures var t := EndFrom(input, AllSucceed(), Start(input, Finish(before).store, lastReport));
            && t.record.status == ChainFailed && AnyFailed(t.record) && !Parked(t).resumableSeal
            && (dependent ==> t.reason == Some(STUCK_REASON))
  {
    FinishIsRestorable(input, before, {"A"});
    var store := Finish(before).store;
    var r := JournalRecord(store);
    assert r.plan == before.record.plan && r.nodeOutcomes == View(before.store).outcomes;
    hide Finish, Start, JournalRecord, Journaled, Stale, Standing, Unsealed, Restorable, EndFrom, AllSucceed, Parked;
    hide AnyFailed;
    TwoFailures(r, dependent);
    StrandedStart(input, store, lastReport);
  }

  lemma TwoFailures(r: ChainRecord, dependent: bool)
    requires r.plan.nodes == Nodes(dependent) && r.nodeOutcomes == map["A" := FAILURE, "B" := FAILURE]
    ensures |LiveFailures(r)| > 1 && !OtherEscalated(r) && (dependent ==> !Startable(r))
  {
    TwoNodes(r.plan, dependent);
    assert LiveFailures(r) == {"A", "B"};
    if dependent {
      assert r.plan.nodes[0] == B(true);
      assert FirstFailed(r, r.plan.nodes) == Some("B");
      assert "A" in B(true).dependsOn && !SealedWith(r, "A", Success);
      forall n | n in r.plan.nodes ensures !MayStart(r, n) { }
    }
  }

  // ---- The chains ----

  /** First A fails, resumable; its child is executed again and succeeds, but B fails; then the chain is resumed once more. */
  ghost predicate Scenario(ls: seq<Launch>, dependent: bool) {
    && |ls| == 3 && (forall l :: l in ls ==> l.input == Input(dependent))
    && DeriveNodeOutcome(ls[0].oracle(0)) == FAILURE
    && ls[1].lastReport.resumable
    && DeriveNodeOutcome(ls[1].oracle(0)) == NodeOutcome(Success, Proceed, None) && DeriveNodeOutcome(ls[1].oracle(1)) == FAILURE
    && ls[2].oracle == AllSucceed()
  }

  /** Such launches, each told what the failed node's child last sealed. */
  lemma {:induction false} SuchLaunches(dependent: bool) returns (ls: seq<Launch>)
    ensures Scenario(ls, dependent)
  {
    var input := Input(dependent);
    ls := [Launch(input, (k: nat) => STOPPED, STOPPED),
           Launch(input, (k: nat) => if k == 0 then SUCCEEDED else DEAD, STOPPED),
           Launch(input, AllSucceed(), if dependent then DEAD else SUCCEEDED)];
  }

  lemma FirstEnd(l: Launch)
    ensures EndOf([l]) == EndFrom(l.input, l.oracle, Start(l.input, Store([], None), l.lastReport))
  {
    hide EndFrom, Start;
    assert StoreBefore([l]) == Store([], None);
    assert StartOf([l]) == Start(l.input, Store([], None), l.lastReport);
  }

  lemma {:induction false} NextEnd(ls: seq<Launch>, i: nat)
    requires 0 < i < |ls|
    ensures StoreBefore(ls[..i + 1]) == Finish(EndOf(ls[..i])).store
    ensures EndOf(ls[..i + 1]) == EndFrom(ls[i].input, ls[i].oracle, Start(ls[i].input, StoreBefore(ls[..i + 1]), ls[i].lastReport))
  {
    hide EndFrom, Start, Finish;
    assert ls[..i + 1][..i] == ls[..i];
  }

  /** The journal has lost a success: A is SUCCESS live and FAILED on record. */
  ghost predicate LostASuccess(input: ChainInput, s: LoopState) {
    && SealedWith(s.record, "A", Success) && SealedWith(s.record, "B", Failed)
    && s.store.row.Some? && "A" in View(s.store).outcomes && View(s.store).outcomes["A"] == FAILURE
    && !Journaled(input, s, {})
  }

  lemma SecondLosesASuccess(input: ChainInput, t: LoopState, dependent: bool)
    requires AfterSecond(input, t, dependent)
    ensures LostASuccess(input, t)
  {
    hide View, Journaled, Stale, Standing, Unsealed;
    ReplayMeansSealedAlike(input, t, {"A"});
    assert "A" in {"A"};
  }

  lemma {:induction false} ReenteredByRecord(ls: seq<Launch>)
    requires ls != []
    ensures ChainRecordOf(StoreBefore(ls)).Some? ==>
              ReenteredAt(ls) == ReenteredIds(ChainRecordOf(StoreBefore(ls)).value, ls[|ls| - 1].lastReport)
  {
    hide StoreBefore, ChainRecordOf, ReenteredIds;
  }

  lemma {:induction false} ScenarioParts(ls: seq<Launch>, dependent: bool)
    requires Scenario(ls, dependent)
    ensures |ls| == 3 && ls[0].input == ls[1].input == ls[2].input == Input(dependent) && Input(dependent).maxReplans.None?
    ensures ls[..1] == [ls[0]] && ls[..2][1] == ls[1] && ls[..3] == ls && ls[2].oracle == AllSucceed()
    ensures DeriveNodeOutcome(ls[0].oracle(0)) == FAILURE && ls[1].lastReport.resumable
    ensures DeriveNodeOutcome(ls[1].oracle(0)) == NodeOutcome(Success, Proceed, None) && DeriveNodeOutcome(ls[1].oracle(1)) == FAILURE
  {
    hide DeriveNodeOutcome, AllSucceed;
    assert ls[0] in ls && ls[1] in ls && ls[2] in ls;
  }

  lemma {:induction false} TwoLaunches(ls: seq<Launch>, dependent: bool)
    requires Scenario(ls, dependent)
    ensures AfterSecond(Input(dependent), EndOf(ls[..2]), dependent) && ReenteredAt(ls[..2]) == {"A"}
  {
    hide *;
    var input := Input(dependent);
    ScenarioParts(ls, dependent);
    ReenteredByRecord(ls[..2]);
    FirstEnd(ls[0]);
    FirstLaunch(input, ls[0].oracle, ls[0].lastReport, dependent);
    FirstIsJournaled(input, EndOf(ls[..1]), dependent);
    NextEnd(ls, 1);
    SecondLaunch(input, ls[1].oracle, StoreBefore(ls[..2]), ls[1].lastReport, dependent);
  }

  /** A real chain whose journal stops replaying and whose second failure cannot be resumed. In the first launch A fails,
      resumable; the second executes it again: A succeeds, which the journal does not learn, and B fails. The third heals
      one of the two nodes the journal calls FAILED; it ends FAILED - at once, with nothing to dispatch, where B waits for
      A - and is sealed as not resumable although an active node is FAILED. */
  lemma {:induction false} ReentryStrandsTheChain(ls: seq<Launch>, dependent: bool)
    requires Scenario(ls, dependent)
    ensures OneChain(ls) && AcyclicPlan(Input(dependent).plan)
    ensures ReenteredAt(ls[..2]) == {"A"} && LostASuccess(Input(dependent), EndOf(ls[..2]))
    ensures var t := EndOf(ls);
            && t.record.status == ChainFailed && AnyFailed(t.record) && !Parked(t).resumableSeal
            && (dependent ==> t.reason == Some(STUCK_REASON))
  {
    hide *;
    ScenarioParts(ls, dependent);
    IsOneChain(ls, dependent);
    TwoLaunches(ls, dependent);
    SecondLosesASuccess(Input(dependent), EndOf(ls[..2]), dependent);
    NextEnd(ls, 2);
    ThirdLaunch(Input(dependent), EndOf(ls[..2]), ls[2].lastReport, dependent);
  }

  lemma {:induction false} IsOneChain(ls: seq<Launch>, dependent: bool)
    requires Scenario(ls, dependent)
    ensures OneChain(ls) && AcyclicPlan(Input(dependent).plan)
  {
    PlanIsLaunchable(dependent);
    hide LaunchablePlan, AcyclicPlan, Input, DeriveNodeOutcome, AllSucceed;
    assert ls[0] in ls;
  }

  // ---- A grant that is never taken up ----

  lemma {:induction false} NoBudgetsAreSteady(ls: seq<Launch>, dependent: bool)
    requires Scenario(ls, dependent)
    ensures SteadyBudgets(ls)
  {
    hide DeriveNodeOutcome, AllSucceed;
    assert ls[0] in ls;
    assert forall i :: 0 <= i < |ls| ==> ls[i] in ls;
  }

  lemma BWaitsForA(r: ChainRecord)
    requires r.plan.nodes == Nodes(true) && r.nodeOutcomes == map["A" := FAILURE, "B" := FAILURE]
    ensures FirstFailed(r, r.plan.nodes) == Some("B") && LiveFailures(r) != {} && |LiveFailures(r)| > 1 && !Startable(r)
    ensures !FirstUp(r, "B")
  {
    TwoNodes(r.plan, true);
    TwoFailures(r, true);
    assert r.plan.nodes[0] == B(true) && FirstFailed(r, r.plan.nodes) == Some("B");
    NothingUp(r, "B");
  }

  lemma NothingUp(r: ChainRecord, z: string)
    requires !Startable(r)
    ensures !FirstUp(r, z)
  {
    hide MayStart;
    assert forall i :: 0 <= i < |r.plan.nodes| ==> r.plan.nodes[i] in r.plan.nodes;
  }

  lemma NothingEverStarts(input: ChainInput, oracle: Oracle, store: Store, lastReport: ChildReport)
    requires Restorable(input.chainId, store)
    requires var r := JournalRecord(store); |LiveFailures(r)| > 1 && !Startable(r)
    ensures forall k: nat :: !Dispatching(StateAt(input, oracle, Start(input, store, lastReport), k))
  {
    hide *;
    forall k: nat
      ensures !Dispatching(StateAt(input, oracle, Start(input, store, lastReport), k))
    {
      NothingStarts(input, oracle, store, lastReport, k);
    }
  }

  lemma {:induction false} DependentRecord(ls: seq<Launch>)
    requires Scenario(ls, true)
    ensures OneChain(ls) && StoreBefore(ls).row.Some? && Restorable("c", StoreBefore(ls))
    ensures var r := JournalRecord(StoreBefore(ls));
            r.plan.nodes == Nodes(true) && r.nodeOutcomes == map["A" := FAILURE, "B" := FAILURE]
    ensures StartOf(ls) == Start(ls[2].input, StoreBefore(ls), ls[2].lastReport) && ls[2].input.chainId == "c"
  {
    assert |ls| == 3 && ls[..|ls| - 1] == ls[..2] && ls[2] in ls;
    IsInput(ls);
    hide *;
    IsOneChain(ls, true);
    TwoLaunches(ls, true);
    LaterParts(ls);
    TwoFailuresLeft(EndOf(ls[..2]), true);
    StoredRecord("c", StoreBefore(ls));
  }

  lemma {:induction false} IsInput(ls: seq<Launch>)
    requires Scenario(ls, true)
    ensures ls[2].input.chainId == "c"
  {
    hide DeriveNodeOutcome, AllSucceed, Nodes;
    assert ls[2] in ls;
  }

  /** Steady budgets, a FAILED node to heal and no replan left for it, and yet no attempt: in the third launch of the dependent
      nodes B is healed first, but waits for A, which the journal calls FAILED, and nothing is ever dispatched. */
  lemma {:induction false} GrantWithoutAttempt(ls: seq<Launch>)
    requires Scenario(ls, true)
    ensures OneChain(ls) && SteadyBudgets(ls) && StoreBefore(ls).row.Some?
    ensures var r := JournalRecord(StoreBefore(ls));
            && FirstFailed(r, r.plan.nodes) == Some("B") && NoReplanLeft(ls[2].input, r, "B", ls[2].lastReport)
            && !FirstUp(r, "B")
    ensures forall k: nat :: !Dispatching(ChainAt(ls, k))
  {
    assert |ls| == 3;
    DependentRecord(ls);
    NoBudgetsAreSteady(ls, true);
    var store := StoreBefore(ls);
    hide *;
    BWaitsForA(JournalRecord(store));
    StoredRecord("c", store);
    FailedHasSpentItsBudget(ls, 0);
    NothingLeft(ls[2].input, JournalRecord(store), "B", ls[2].lastReport);
    NothingEverStarts(ls[2].input, ls[2].oracle, store, ls[2].lastReport);
    forall k: nat
      ensures !Dispatching(ChainAt(ls, k))
    {
      AtIsStateAt(ls, k);
    }
  }

  // ---- A third launch under a ceiling of one ----

  /** The independent nodes again, resumed with budget for five retries of each but a ceiling of one. */
  function Capped(): ChainInput {
    ChainInput("c", Plan("p", "", Nodes(false)), Some(5), Some(1))
  }

  function FirstTwo(ls: seq<Launch>): seq<Launch>
    requires |ls| >= 2
  {
    ls[..2] + [Launch(Input(false), AllSucceed(), DEAD)]
  }

  ghost predicate CappedScenario(ls: seq<Launch>) {
    |ls| == 3 && Scenario(FirstTwo(ls), false) && ls[2] == Launch(Capped(), AllDie(), DEAD)
  }

  lemma {:induction false} SuchCappedLaunches() returns (ls: seq<Launch>)
    ensures CappedScenario(ls)
  {
    var three := SuchLaunches(false);
    ls := three[..2] + [Launch(Capped(), AllDie(), DEAD)];
    hide DeriveNodeOutcome, Input, Capped, AllSucceed, AllDie;
    assert three[0] in three && three[1] in three;
    assert ls[0] == three[0] && ls[1] == three[1];
    var again := FirstTwo(ls);
    assert again[0] == three[0] && again[1] == three[1];
  }

  lemma RootsOfTwo()
    ensures LineageRoot("A") == "A" && LineageRoot("B") == "B" && RetryId("A", 1) == "A-r1"
  {
    NoSuffix("A");
    NoSuffix("B");
  }

  /** The record the third launch reads has two FAILED nodes; the first one's next retry is A-r1. */
  lemma TwoFailuresByRoot(r: ChainRecord)
    requires r.plan.nodes == Nodes(false) && r.nodeOutcomes == map["A" := FAILURE, "B" := FAILURE]
    ensures FirstFailed(r, r.plan.nodes) == Some("A") && LiveFailures(r) == {"A", "B"} && |LiveFailures(r)| == 2
    ensures |LineageFailures(r, LineageRoot("A"))| == 1 && NextRetry(r, "A") == "A-r1"
  {
    hide LineageRoot, RetryId, NodeIds;
    RootsOfTwo();
    TwoNodes(r.plan, false);
    assert r.plan.nodes[0] == A && SealedWith(r, "A", Failed);
    assert FailedIds(r) == {"A", "B"};
    assert LineageFailures(r, "A") == {"A"};
  }

  lemma RetryIsDispatched(r: ChainRecord, h: ChainRecord, f: nat)
    requires r.plan.nodes == Nodes(false) && r.nodeOutcomes == map["A" := FAILURE, "B" := FAILURE]
    requires f < 2 && r.plan.nodes[f].id == "A" && SplicedRecord(r, h, f, "A-r1")
    ensures Dispatchable(h) != [] && Dispatchable(h)[0].id == "A-r1"
    ensures NodeIds(h.plan) == {"A-r1", "B"}
  {
    assert f == 0 && h.plan.nodes[0].id == "A-r1" && h.plan.nodes[1].id == "B";
    DispatchableMeaning(h, h.plan.nodes[0]);
    forall n | n in Dispatchable(h) ensures n.id == "A-r1" {
      DispatchableMeaning(h, n);
      var i :| 0 <= i < |h.plan.nodes| && h.plan.nodes[i] == n;
    }
    hide Dispatchable;
    assert Dispatchable(h)[0] in Dispatchable(h);
    assert NodeIds(h.plan) == {h.plan.nodes[0].id, h.plan.nodes[1].id};
  }

  lemma CappedSplice(r: ChainRecord, h: ChainRecord) returns (f: nat)
    requires FirstFailed(r, r.plan.nodes) == Some("A") && NextRetry(r, "A") == "A-r1" && HealedTo(r, h, DEAD)
    ensures f < |r.plan.nodes| && r.plan.nodes[f].id == "A" && SplicedRecord(r, h, f, "A-r1")
    ensures !Reenters(r, "A", DEAD) && Attempted(r, "A", DEAD) == "A-r1"
  {
    hide FirstFailed, NextRetry, SplicedRecord;
    f :| f < |r.plan.nodes| && r.plan.nodes[f].id == "A" && SplicedRecord(r, h, f, "A-r1");
  }

  /** The record the resume reads, healed: A is replaced. */
  lemma CappedHeal(r: ChainRecord, h: ChainRecord)
    requires RecordInv("c", r) && HealedTo(r, h, DEAD)
    requires r.plan.nodes == Nodes(false) && r.nodeOutcomes == map["A" := FAILURE, "B" := FAILURE]
    ensures Dispatchable(h) != [] && Dispatchable(h)[0].id == "A-r1"
    ensures |Spent(h, "A-r1")| == 1 && LiveFailures(h) == {"B"}
  {
    hide *;
    TwoFailuresByRoot(r);
    var f := CappedSplice(r, h);
    HealedSpent("c", r, h, DEAD, "A");
    TwoNodes(r.plan, false);
    RetryIsDispatched(r, h, f);
    var z, w := HealedRecord("c", r, h, DEAD);
    HealedLiveFailures(r, h, z, w);
    assert {"A", "B"} - {"A"} == {"B"};
  }

  lemma CappedStart(store: Store)
    requires Restorable("c", store)
    requires var r := JournalRecord(store);
             r.plan.nodes == Nodes(false) && r.nodeOutcomes == map["A" := FAILURE, "B" := FAILURE]
    ensures var s := Start(Capped(), store, DEAD);
            && Dispatching(s) && Dispatched(s).id == "A-r1" && |Spent(s.record, "A-r1")| == 1
            && LiveFailures(s.record) == {"B"}
  {
    var r, s := JournalRecord(store), Start(Capped(), store, DEAD);
    AIsActive(r, false);
    StoredRecord("c", store);
    hide Start, Journaled, JournalRecord, ReenteredIds, HealedTo, Stale, Standing, Unsealed, Restorable, RecordInv, AnyFailed;
    hide Spent, LiveFailures, Dispatchable, Nodes, AcyclicPlan;
    RestartKeepsJournal(Capped(), store, DEAD);
    CappedHeal(r, s.record);
  }

  lemma CappedBounds()
    ensures Capped().chainId == "c" && Bounded(MaxReplans(Capped())) == 5 && Bounded(LoopBounds(Capped()).maxChain) == 1
  {
    hide Nodes;
  }

  /** A chain in which the chain-wide ceiling decides although it is not zero: the retry of A has budget left for four more
      retries when it fails, and is refused one because B is FAILED. */
  lemma {:induction false} CeilingRefusesRetry(ls: seq<Launch>)
    requires CappedScenario(ls)
    ensures OneChain(ls) && Refuses(Capped(), AllDie(), StartOf(ls), "A-r1", {"B"} + {"A-r1"})
    ensures |Spent(StartOf(ls).record, "A-r1")| + 1 == 2 <= Bounded(MaxReplans(Capped()))
  {
    CappedParts(ls);
    var store := StoreBefore(ls);
    hide *;
    TwoFailuresLeft(EndOf(ls[..2]), false);
    RefusedOn(store, Start(Capped(), store, DEAD));
  }

  lemma OverTheCeiling(store: Store)
    requires Restorable("c", store)
    requires var r := JournalRecord(store);
             r.plan.nodes == Nodes(false) && r.nodeOutcomes == map["A" := FAILURE, "B" := FAILURE]
    ensures |LiveFailures(JournalRecord(store))| > Bounded(LoopBounds(Capped()).maxChain)
  {
    var r := JournalRecord(store);
    hide *;
    TwoFailuresByRoot(r);
    CappedBounds();
  }

  lemma RefusedOn(store: Store, s: LoopState)
    requires Restorable("c", store) && s == Start(Capped(), store, DEAD)
    requires var r := JournalRecord(store);
             r.plan.nodes == Nodes(false) && r.nodeOutcomes == map["A" := FAILURE, "B" := FAILURE]
    ensures Refuses(Capped(), AllDie(), s, "A-r1", {"B"} + {"A-r1"})
    ensures |Spent(s.record, "A-r1")| + 1 == 2 <= Bounded(MaxReplans(Capped()))
  {
    CappedBounds();
    hide *;
    OverTheCeiling(store);
    CappedStart(store);
    CeilingRefuses(Capped(), store, DEAD);
  }

  lemma TwoFailuresLeft(before: LoopState, dependent: bool)
    requires AfterSecond(Input(dependent), before, dependent)
    ensures Restorable("c", Finish(before).store)
    ensures var r := JournalRecord(Finish(before).store);
            r.plan.nodes == Nodes(dependent) && r.nodeOutcomes == map["A" := FAILURE, "B" := FAILURE]
  {
    FinishIsRestorable(Input(dependent), before, {"A"});
    var r := JournalRecord(Finish(before).store);
    assert r.plan == before.record.plan && r.nodeOutcomes == View(before.store).outcomes;
  }

  lemma {:induction false} CappedIsOneChain(ls: seq<Launch>)
    requires CappedScenario(ls)
    ensures OneChain(ls) && Scenario(FirstTwo(ls), false) && FirstTwo(ls)[..2] == ls[..2]
    ensures ls[..|ls| - 1] == ls[..2] && ls[|ls| - 1] == Launch(Capped(), AllDie(), DEAD)
  {
    var three := FirstTwo(ls);
    IsOneChain(three, false);
    hide DeriveNodeOutcome, AllSucceed, AllDie, LaunchablePlan;
    assert three[0] == ls[0] && three[1] == ls[1] && three[0] in three && three[1] in three;
    assert ls[0].input.chainId == ls[1].input.chainId == ls[2].input.chainId;
  }

  lemma {:induction false} CappedParts(ls: seq<Launch>)
    requires CappedScenario(ls)
    ensures OneChain(ls) && AfterSecond(Input(false), EndOf(ls[..2]), false)
    ensures StoreBefore(ls) == Finish(EndOf(ls[..2])).store && StartOf(ls) == Start(Capped(), StoreBefore(ls), DEAD)
  {
    assert |ls| == 3;
    hide *;
    CappedIsOneChain(ls);
    TwoLaunches(FirstTwo(ls), false);
    LaterParts(ls);
  }
}
