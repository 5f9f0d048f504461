/** What holds in every run: progress, dispatch order, replay, budgets, and how the chain is sealed. */
module ChainTheorems {
  import opened Graph
  import opened Lineage
  import opened ChainTypes
  import opened Reducer
  import opened Replan
  import opened PlanSurgery
  import opened Journal
  import opened Activities
  import opened ChainLoop
  import opened ChainInvariant
  import opened ChainTurn
  import opened ChainTermination

  // ---- Progress ----

  function UnsealedIds(record: ChainRecord): set<string> {
    NodeIds(record.plan) - record.nodeOutcomes.Keys
  }

  /** A chain with something left to do, nothing active FAILED and nothing to dispatch has a dependency cycle among its
      unsealed nodes; RUNNING as the reducer says it is such a chain. */
  lemma StuckMeansCyclic(record: ChainRecord) returns (c: string)
    requires UniqueIds(record.plan) && ClosedDependencies(record.plan)
    requires DeriveChainStatus(record) == Running || (!AnyFailed(record) && !AllSucceeded(record))
    requires Dispatchable(record) == []
    ensures c in NodeIds(record.plan) && c !in record.nodeOutcomes
    ensures OnCycle(DependencyGraph(record.plan.nodes), c)
  {
    var u := UnsealedIds(record);
    var first :| first in NodeIds(record.plan) && !SealedWith(record, first, Success);
    assert !SealedWith(record, first, Failed);
    assert first in u;
    forall a | a in u
      ensures HasSuccessorIn(DependencyGraph(record.plan.nodes), u, a)
    {
      UnsealedDependency(record, a);
    }
    c := StuckSetHasCycle(DependencyGraph(record.plan.nodes), u);
  }

  lemma UnsealedDependency(record: ChainRecord, a: string)
    requires UniqueIds(record.plan) && ClosedDependencies(record.plan) && !AnyFailed(record)
    requires Dispatchable(record) == [] && a in NodeIds(record.plan) && a !in record.nodeOutcomes
    ensures HasSuccessorIn(DependencyGraph(record.plan.nodes), UnsealedIds(record), a)
  {
    var i := IdIsAt(record.plan, a);
    var n := record.plan.nodes[i];
    DispatchableMeaning(record, n);
    var d :| d in n.dependsOn && !SealedWith(record, d, Success);
    assert d in NodeIds(record.plan) && !SealedWith(record, d, Failed);
    EdgeMeaning(record.plan, a, d);
  }

  lemma UnfinishedIsCyclic(chainId: string, r: ChainRecord)
    requires RecordInv(chainId, r) && !AnyFailed(r) && !AllSucceeded(r) && Dispatchable(r) == []
    ensures !AcyclicPlan(r.plan)
  {
    hide Dispatchable, AnyFailed, AllSucceeded, DependencyGraph;
    RootsGiveUniqueIds(r.plan);
    var c := StuckMeansCyclic(r);
  }

  /** The next turn does not end in the stuck branch. */
  predicate Going(s: LoopState) {
    s.record.status == Running ==> Dispatching(s)
  }

  lemma DerivedIsGoing(chainId: string, s: LoopState)
    requires RecordInv(chainId, s.record) && AcyclicPlan(s.record.plan) && s.record.status == DeriveChainStatus(s.record)
    ensures Going(s)
  {
    hide Dispatchable, AnyFailed, AllSucceeded, AnyEscalated, RecordInv, AcyclicPlan;
    if s.record.status == Running && Dispatchable(s.record) == [] {
      UnfinishedIsCyclic(chainId, s.record);
    }
  }

  /** The retry of a node that was ready is ready itself. */
  lemma RetryIsReady(r: ChainRecord, h: ChainRecord, f: nat, w: string)
    requires f < |r.plan.nodes| && SplicedRecord(r, h, f, w) && w !in r.nodeOutcomes && DependenciesSucceeded(r, r.plan.nodes[f])
    ensures Dispatchable(h) != []
  {
    DispatchableMeaning(h, h.plan.nodes[f]);
  }

  lemma FailureKeepsGoing(input: ChainInput, s: LoopState, n: PlanNode, reason: Option<string>)
    requires RecordInv(input.chainId, s.record) && n in s.record.plan.nodes && SealedWith(s.record, n.id, Failed)
    requires DependenciesSucceeded(s.record, n) && s.record.status == DeriveChainStatus(s.record)
    ensures Going(AfterFailure(input, s, n.id, reason))
  {
    hide RecordInv, SpliceRetry, LineageFailures, LiveFailures, SplicedRecord, NextRetry, Dispatchable, DependenciesSucceeded;
    hide BuildRetryPlan, BuildReplanBrief;
    var decision := DecideReplan(s.record, n.id, LoopBounds(input));
    var f :| 0 <= f < |s.record.plan.nodes| && s.record.plan.nodes[f] == n;
    IdAtIsIn(s.record.plan, f);
    if decision.GrantReplan? {
      var h := SpliceRetry(s, n.id, decision, reason).record;
      SpliceEffect(input, s, f, decision, reason);
      SplicedActive(input.chainId, s.record, h, f);
      RetryIsReady(s.record, h, f, NextRetry(s.record, n.id));
    }
  }

  lemma FoldIsReady(input: ChainInput, oracle: Oracle, s: LoopState, n: PlanNode)
    requires n in Dispatchable(s.record)
    ensures var t := FoldNode(input, s, n.id, RunChild(input, oracle, s, n.id));
            t.record.status == DeriveChainStatus(t.record) && DependenciesSucceeded(t.record, n)
  {
    hide RunChild;
    DispatchableMeaning(s.record, n);
  }

  lemma TurnKeepsGoing(input: ChainInput, oracle: Oracle, s: LoopState, reopened: set<string>)
    requires Journaled(input, s, reopened) && AcyclicPlan(s.record.plan) && Going(s)
    ensures Going(Turn(input, oracle, s))
  {
    hide RecordInv, StoreInv, RunChild, FoldNode, AfterFailure, Dispatchable, AcyclicPlan, DependenciesSucceeded;
    hide DeriveChainStatus;
    if s.record.status == Running {
      var n := Dispatchable(s.record)[0];
      var child := RunChild(input, oracle, s, n.id);
      var folded := FoldNode(input, s, n.id, child);
      FoldKeepsJournal(input, oracle, s, n, reopened);
      FoldIsReady(input, oracle, s, n);
      if DeriveNodeOutcome(child.report).status == Failed {
        FailureKeepsGoing(input, folded, n, child.report.reason);
      } else {
        DerivedIsGoing(input.chainId, folded);
      }
    }
  }

  lemma {:induction false} RunKeepsGoing(input: ChainInput, oracle: Oracle, s: LoopState, k: nat, reopened: set<string>)
    requires Journaled(input, s, reopened) && AcyclicPlan(s.record.plan) && Going(s)
    ensures Going(StateAt(input, oracle, s, k))
  {
    hide Turn, Journaled, AcyclicPlan, Going;
    if k > 0 {
      RunKeepsGoing(input, oracle, s, k - 1, reopened);
      RunKeepsJournal(input, oracle, s, k - 1, reopened);
      TurnKeepsGoing(input, oracle, StateAt(input, oracle, s, k - 1), reopened);
    }
  }

  /** No run, whatever the children do, reaches the stuck branch. */
  ghost predicate NeverSticks(input: ChainInput, s: LoopState) {
    forall oracle: Oracle, k: nat :: Going(StateAt(input, oracle, s, k))
  }

  /** Deadlock freedom: on an acyclic plan no run ever reaches the stuck branch, whatever nodes are FAILED at its start, if
      and only if it does not start in it. */
  lemma NeverStuck(input: ChainInput, s: LoopState, reopened: set<string>)
    requires Journaled(input, s, reopened) && AcyclicPlan(s.record.plan)
    ensures NeverSticks(input, s) <==> Going(s)
  {
    hide StateAt, Journaled, AcyclicPlan, Going;
    forall oracle: Oracle, k: nat | Going(s)
      ensures Going(StateAt(input, oracle, s, k))
    {
      RunKeepsGoing(input, oracle, s, k, reopened);
    }
    var report := ChildReport(RunSuccess, None, None, None, None, false);
    var oracle: Oracle := (k: nat) => report;
    NoTurnYet(input, oracle, s);
    assert Going(StateAt(input, oracle, s, 0)) == Going(s);
  }

  lemma NoTurnYet(input: ChainInput, oracle: Oracle, s: LoopState)
    ensures StateAt(input, oracle, s, 0) == s
  {
  }

  /** A start with at most one active node in trouble is never in it: of a fresh chain, and of every resume of a chain with
      one FAILED node. */
  lemma InvIsGoing(input: ChainInput, s: LoopState, reopened: set<string>)
    requires Inv(input, s, reopened) && AcyclicPlan(s.record.plan)
    ensures Going(s)
  {
    hide RecordInv, StoreInv, AcyclicPlan, Dispatchable;
    if s.record.status == Running { DerivedIsGoing(input.chainId, s); }
  }

  lemma RootsGiveUniqueIds(plan: Plan)
    requires RootsDistinct(plan)
    ensures UniqueIds(plan)
  {
  }

  /** No node on a dependency cycle is sealed. */
  ghost predicate CyclesUnsealed(record: ChainRecord) {
    forall c :: OnCycle(DependencyGraph(record.plan.nodes), c) ==> c !in record.nodeOutcomes
  }

  /** No id is on a dependency cycle of `after` that was not on one of `before`. */
  ghost predicate NoNewCycles(before: Plan, after: Plan) {
    forall c :: OnCycle(DependencyGraph(after.nodes), c) ==> OnCycle(DependencyGraph(before.nodes), c)
  }

  /** A node on a cycle depends on another node of the cycle. */
  lemma CycleContinues(g: Deps, c: string) returns (b: string)
    requires OnCycle(g, c)
    ensures Edge(g, c, b) && OnCycle(g, b)
  {
    b :| Edge(g, c, b) && Reaches(g, b, c);
    ReachesAppend(g, b, c, b);
    ReachesSelf(g, b);
    if b != c {
      var d := ReachesUnfold(g, b, c);
      ReachesAppend(g, d, c, b);
    }
  }

  lemma SealKeepsCyclesUnsealed(chainId: string, r: ChainRecord, r': ChainRecord, n: PlanNode)
    requires RecordInv(chainId, r) && CyclesUnsealed(r) && SealedOne(chainId, r, r', n.id)
    requires n in r.plan.nodes && DependenciesSucceeded(r, n)
    ensures CyclesUnsealed(r')
  {
    if OnCycle(DependencyGraph(r.plan.nodes), n.id) {
      var b := CycleContinues(DependencyGraph(r.plan.nodes), n.id);
      RootsGiveUniqueIds(r.plan);
      EdgeMeaning(r.plan, n.id, b);
      var i :| 0 <= i < |r.plan.nodes| && r.plan.nodes[i].id == n.id && b in r.plan.nodes[i].dependsOn;
      SameNode(r.plan, r.plan.nodes[i], n);
    }
  }

  /** A splice renames cycles to cycles, both ways; the spliced-in node is on none. */
  lemma SpliceKeepsCycles(chainId: string, r: ChainRecord, r': ChainRecord, f: nat)
    requires RecordInv(chainId, r) && f < |r.plan.nodes| && SealedWith(r, r.plan.nodes[f].id, Failed)
    requires SplicedRecord(r, r', f, NextRetry(r, r.plan.nodes[f].id)) && UniqueIds(r'.plan)
    requires CyclesUnsealed(r)
    ensures CyclesUnsealed(r') && NoNewCycles(r.plan, r'.plan)
    ensures !AcyclicPlan(r.plan) ==> !AcyclicPlan(r'.plan)
  {
    var id, retryId := r.plan.nodes[f].id, NextRetry(r, r.plan.nodes[f].id);
    var g, h := DependencyGraph(r.plan.nodes), DependencyGraph(r'.plan.nodes);
    SplicedActive(chainId, r, r', f);
    RetryIsFresh(chainId, r, id);
    RootsGiveUniqueIds(r.plan);
    var back := (x: string) => Before(id, retryId, x);
    var forth := (x: string) => After(id, retryId, x);
    forall x, y | Edge(h, x, y)
      ensures Edge(g, back(x), back(y))
    {
      SpliceEdges(r.plan, r'.plan, f, retryId, x, y);
    }
    forall c | OnCycle(h, c)
      ensures c !in r'.nodeOutcomes && OnCycle(g, c)
    {
      ImageOfCycle(h, g, back, c);
    }
    forall x, y | Edge(g, x, y)
      ensures Edge(h, forth(x), forth(y))
    {
      SpliceEdgesForth(chainId, r, r', f, x, y);
    }
    forall c | OnCycle(g, c)
      ensures OnCycle(h, forth(c))
    {
      ImageOfCycle(g, h, forth, c);
    }
  }

  lemma NoOwnDependency(chainId: string, r: ChainRecord, n: PlanNode)
    requires RecordInv(chainId, r) && n in r.plan.nodes && n.id in r.nodeOutcomes
    ensures n.id !in n.dependsOn
  {
  }

  lemma SpliceEdgesForth(chainId: string, r: ChainRecord, r': ChainRecord, f: nat, x: string, y: string)
    requires RecordInv(chainId, r) && f < |r.plan.nodes| && SealedWith(r, r.plan.nodes[f].id, Failed)
    requires SplicedRecord(r, r', f, NextRetry(r, r.plan.nodes[f].id)) && UniqueIds(r.plan) && UniqueIds(r'.plan)
    requires Edge(DependencyGraph(r.plan.nodes), x, y)
    ensures var id, retryId := r.plan.nodes[f].id, NextRetry(r, r.plan.nodes[f].id);
            Edge(DependencyGraph(r'.plan.nodes), After(id, retryId, x), After(id, retryId, y))
  {
    hide DependencyGraph, Edge, NextRetry, RecordInv, LineageFailures;
    var id, retryId := r.plan.nodes[f].id, NextRetry(r, r.plan.nodes[f].id);
    EdgeMeaning(r.plan, x, y);
    var i :| 0 <= i < |r.plan.nodes| && r.plan.nodes[i].id == x && y in r.plan.nodes[i].dependsOn;
    var k :| 0 <= k < |r.plan.nodes[i].dependsOn| && r.plan.nodes[i].dependsOn[k] == y;
    NoOwnDependency(chainId, r, r.plan.nodes[f]);
    if i != f {
      assert r'.plan.nodes[i].dependsOn[k] == After(id, retryId, y);
    }
    EdgeMeaning(r'.plan, After(id, retryId, x), After(id, retryId, y));
  }

  lemma TurnKeepsCycles(input: ChainInput, oracle: Oracle, s: LoopState, reopened: set<string>)
    requires Journaled(input, s, reopened) && CyclesUnsealed(s.record) && !AcyclicPlan(s.record.plan)
    ensures CyclesUnsealed(Turn(input, oracle, s).record) && !AcyclicPlan(Turn(input, oracle, s).record.plan)
    ensures NoNewCycles(s.record.plan, Turn(input, oracle, s).record.plan)
  {
    hide StoreInv, RecordInv, DependencyGraph, RunChild;
    if Dispatching(s) {
      var n := Dispatchable(s.record)[0];
      var child := RunChild(input, oracle, s, n.id);
      var folded := FoldNode(input, s, n.id, child);
      FoldSealsOne(input, s, n, child);
      FoldKeepsRecord(input, s, n, child);
      SealKeepsCyclesUnsealed(input.chainId, s.record, folded.record, n);
      if DeriveNodeOutcome(child.report).status == Failed {
        FailureKeepsCycles(input, folded, n, child.report.reason);
      }
    }
  }

  lemma FailureKeepsCycles(input: ChainInput, s: LoopState, n: PlanNode, reason: Option<string>)
    requires RecordInv(input.chainId, s.record) && CyclesUnsealed(s.record) && !AcyclicPlan(s.record.plan)
    requires n in s.record.plan.nodes && SealedWith(s.record, n.id, Failed)
    ensures CyclesUnsealed(AfterFailure(input, s, n.id, reason).record)
    ensures !AcyclicPlan(AfterFailure(input, s, n.id, reason).record.plan)
    ensures NoNewCycles(s.record.plan, AfterFailure(input, s, n.id, reason).record.plan)
  {
    hide DependencyGraph, SpliceRetry, LineageFailures, Incarnated, BuildRetryPlan, LineageRoot, CyclesUnsealed, AcyclicPlan;
    var decision := DecideReplan(s.record, n.id, LoopBounds(input));
    var f :| 0 <= f < |s.record.plan.nodes| && s.record.plan.nodes[f] == n;
    if decision.GrantReplan? {
      GrantedSplice(input, s, f, decision, reason);
      var t := SpliceRetry(s, n.id, decision, reason);
      RootsGiveUniqueIds(t.record.plan);
      SpliceKeepsCycles(input.chainId, s.record, t.record, f);
    }
  }

  lemma {:induction false} RunKeepsCycles(input: ChainInput, oracle: Oracle, s: LoopState, k: nat, reopened: set<string>)
    requires Journaled(input, s, reopened) && CyclesUnsealed(s.record) && !AcyclicPlan(s.record.plan)
    ensures CyclesUnsealed(StateAt(input, oracle, s, k).record) && !AcyclicPlan(StateAt(input, oracle, s, k).record.plan)
    ensures NoNewCycles(s.record.plan, StateAt(input, oracle, s, k).record.plan)
  {
    hide Turn, Journaled, CyclesUnsealed, AcyclicPlan, OnCycle, DependencyGraph;
    if k > 0 {
      RunKeepsCycles(input, oracle, s, k - 1, reopened);
      RunKeepsJournal(input, oracle, s, k - 1, reopened);
      TurnKeepsCycles(input, oracle, StateAt(input, oracle, s, k - 1), reopened);
    }
  }

  lemma CycleBlocksSuccess(r: ChainRecord)
    requires CyclesUnsealed(r) && !AcyclicPlan(r.plan)
    ensures DeriveChainStatus(r) != ChainSuccess
  {
    var c :| OnCycle(DependencyGraph(r.plan.nodes), c);
    GraphKeys(r.plan.nodes);
    assert c in NodeIds(r.plan) && !SealedWith(r, c, Success);
  }

  /** Why retry-shaped ids must not be planned: the retry of "A" takes the id of a node that has already succeeded,
      so nothing is left to dispatch and the failed work is never retried. */
  lemma CollisionSticks(record: ChainRecord, a: PlanNode, b: PlanNode, why: string)
    requires a.id == "A" && b.id == "A-r1" && record.plan.nodes == [a, b]
    requires SealedWith(record, "A", Failed) && SealedWith(record, "A-r1", Success)
    ensures BuildRetryPlan(record.plan, "A", why, 1).Some?
    ensures Dispatchable(record.(plan := BuildRetryPlan(record.plan, "A", why, 1).value, status := Running)) == []
  {
    hide BuildReplanBrief;
    assert record.plan.nodes[0] in record.plan.nodes && record.plan.nodes[0].id != record.plan.nodes[1].id;
    SplicePositions(record.plan, 0, why, 1);
    var t := record.(plan := BuildRetryPlan(record.plan, "A", why, 1).value, status := Running);
    assert RetryId("A", 1) == "A-r1";
    if Dispatchable(t) != [] {
      var n := Dispatchable(t)[0];
      DispatchableMeaning(t, n);
    }
  }
}
