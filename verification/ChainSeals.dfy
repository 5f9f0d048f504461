/** Which resumes lead to a seal whose mark can be relied on, and which leave a chain that can go on. */
module ChainSeals {
  import opened Graph
  import opened Lineage
  import opened ChainTypes
  import opened Reducer
  import opened Replan
  import opened PlanSurgery
  import opened Journal
  import opened Activities
  import opened ChainLoop
  import opened ChainInvariant
  import opened ChainTurn
  import opened ChainTermination
  import opened ChainTheorems
  import opened ChainGuarantees
  import opened ChainResume
  import opened ChainReentry
  import opened ChainLaunches

  // ---- The healed record ----

  /** The node the resume heals, or one that was never sealed, waits for nothing. */
  ghost predicate Startable(r: ChainRecord) {
    exists n :: n in r.plan.nodes && MayStart(r, n)
  }

  ghost predicate MayStart(r: ChainRecord, n: PlanNode) {
    && (n.id !in r.nodeOutcomes || FirstFailed(r, r.plan.nodes) == Some(n.id))
    && DependenciesSucceeded(r, n)
  }

  /** An escalation is on record besides the healed node's. */
  ghost predicate OtherEscalated(r: ChainRecord) {
    exists e :: e in NodeIds(r.plan) && Escalated(r, e) && FirstFailed(r, r.plan.nodes) != Some(e)
  }

  /** What the healed record keeps: all but the healed node, whose place is taken by an unsealed one. */
  ghost predicate HealedFrom(r: ChainRecord, h: ChainRecord, z: string, w: string) {
    && z in NodeIds(r.plan) && SealedWith(r, z, Failed)
    && NodeIds(h.plan) == NodeIds(r.plan) - {z} + {w} && w !in h.nodeOutcomes && (w == z || w !in NodeIds(r.plan))
    && h.nodeOutcomes - {z} == r.nodeOutcomes - {z}
  }

  lemma HealedRecord(chainId: string, r: ChainRecord, h: ChainRecord, lastReport: ChildReport) returns (z: string, w: string)
    requires RecordInv(chainId, r) && HealedTo(r, h, lastReport) && FirstFailed(r, r.plan.nodes).Some?
    ensures FirstFailed(r, r.plan.nodes) == Some(z) && HealedFrom(r, h, z, w)
    ensures w == if Reenters(r, z, lastReport) then z else NextRetry(r, z)
  {
    hide RecordInv, NextRetry, SplicedRecord, Spliced;
    z := FirstFailed(r, r.plan.nodes).value;
    var n :| n in r.plan.nodes && n.id == z;
    if Reenters(r, z, lastReport) {
      w := z;
      assert NodeIds(r.plan) == NodeIds(r.plan) - {z} + {w};
    } else {
      w := NextRetry(r, z);
      var f: nat :| f < |r.plan.nodes| && r.plan.nodes[f].id == z && SplicedRecord(r, h, f, w);
      SplicedActive(chainId, r, h, f);
      RetryIsFresh(chainId, r, z);
      RetryIsNextId(r, z);
    }
  }

  lemma RetryIsNextId(r: ChainRecord, z: string)
    ensures NextRetry(r, z) == RetryId(z, |LineageFailures(r, LineageRoot(z))|)
  {
  }

  lemma OthersUnchanged(r: ChainRecord, h: ChainRecord, z: string, w: string, y: string)
    requires HealedFrom(r, h, z, w)
    ensures y in NodeIds(h.plan) && y in h.nodeOutcomes <==> y in NodeIds(r.plan) && y != z && y in r.nodeOutcomes
    ensures y in NodeIds(h.plan) && y in h.nodeOutcomes ==> h.nodeOutcomes[y] == r.nodeOutcomes[y]
  {
    hide NodeIds;
    SameElsewhere(h.nodeOutcomes, r.nodeOutcomes, {z});
  }

  /** Healing the only failed node leaves none, and leaves the chain unfinished. */
  lemma HealedFailures(r: ChainRecord, h: ChainRecord, z: string, w: string)
    requires HealedFrom(r, h, z, w)
    ensures AnyFailed(h) <==> |LiveFailures(r)| > 1
    ensures !AllSucceeded(h)
  {
    assert z in LiveFailures(r);
    assert w in NodeIds(h.plan) && !SealedWith(h, w, Success);
    if AnyFailed(h) {
      var y :| y in NodeIds(h.plan) && SealedWith(h, y, Failed);
      OthersUnchanged(r, h, z, w, y);
      assert y in LiveFailures(r);
      assert {y, z} <= LiveFailures(r);
      SubsetSize({y, z}, LiveFailures(r));
    }
    if |LiveFailures(r)| > 1 {
      var rest := LiveFailures(r) - {z};
      assert LiveFailures(r) == rest + {z};
      var y :| y in rest;
      OthersUnchanged(r, h, z, w, y);
    }
  }

  lemma HealedEscalations(r: ChainRecord, h: ChainRecord, z: string, w: string)
    requires HealedFrom(r, h, z, w) && FirstFailed(r, r.plan.nodes) == Some(z)
    ensures AnyEscalated(h) <==> OtherEscalated(r)
  {
    if AnyEscalated(h) {
      var y :| y in NodeIds(h.plan) && Escalated(h, y);
      OthersUnchanged(r, h, z, w, y);
    }
    if OtherEscalated(r) {
      var y :| y in NodeIds(r.plan) && Escalated(r, y) && y != z;
      OthersUnchanged(r, h, z, w, y);
    }
  }

  /** What the journal's record says before the resume decides whether the healed chain has a node to dispatch. */
  lemma HealedStart(chainId: string, r: ChainRecord, h: ChainRecord, lastReport: ChildReport)
    requires RecordInv(chainId, r) && HealedTo(r, h, lastReport) && FirstFailed(r, r.plan.nodes).Some?
    ensures Dispatchable(h) != [] <==> Startable(r)
  {
    var z, w := HealedRecord(chainId, r, h, lastReport);
    if Reenters(r, z, lastReport) {
      ReenteredStart(r, h, z);
    } else {
      var f: nat :| f < |r.plan.nodes| && r.plan.nodes[f].id == z && SplicedRecord(r, h, f, NextRetry(r, z));
      IdAtIsIn(r.plan, f);
      OneActivePerLineage(r.plan, z, z);
      RetryIsFresh(chainId, r, z);
      hide RecordInv, NextRetry, HealedTo;
      ReplacedStart(r, h, f, w);
    }
  }

  lemma ReenteredStart(r: ChainRecord, h: ChainRecord, z: string)
    requires h == WithoutNode(r, z) && SealedWith(r, z, Failed) && FirstFailed(r, r.plan.nodes) == Some(z)
    ensures Dispatchable(h) != [] <==> Startable(r)
  {
    hide Dispatchable, MayStart, FirstFailed, DependenciesSucceeded;
    forall n
      ensures n in Dispatchable(h) <==> n in r.plan.nodes && MayStart(r, n)
    {
      ReenteredNode(r, h, z, n);
    }
    if Dispatchable(h) != [] { assert Dispatchable(h)[0] in Dispatchable(h); }
  }

  lemma ReenteredNode(r: ChainRecord, h: ChainRecord, z: string, n: PlanNode)
    requires h == WithoutNode(r, z) && SealedWith(r, z, Failed) && FirstFailed(r, r.plan.nodes) == Some(z)
    ensures n in Dispatchable(h) <==> n in r.plan.nodes && MayStart(r, n)
  {
    DispatchableMeaning(h, n);
    hide Dispatchable, FirstFailed;
  }

  lemma ReplacedStart(r: ChainRecord, h: ChainRecord, f: nat, w: string)
    requires f < |r.plan.nodes| && UniqueIds(r.plan) && SplicedRecord(r, h, f, w) && w !in r.nodeOutcomes
    requires var z := r.plan.nodes[f].id; SealedWith(r, z, Failed) && FirstFailed(r, r.plan.nodes) == Some(z)
    ensures Dispatchable(h) != [] <==> Startable(r)
  {
    hide MayStart, FirstFailed, UniqueIds, Dispatchable, Startable;
    forall i | 0 <= i < |r.plan.nodes|
      ensures h.plan.nodes[i] in Dispatchable(h) <==> MayStart(r, r.plan.nodes[i])
    {
      ReplacedNode(r, h, f, w, i);
    }
    SomeMayStart(r, h);
  }

  lemma SomeMayStart(r: ChainRecord, h: ChainRecord)
    requires |h.plan.nodes| == |r.plan.nodes|
    requires forall i :: 0 <= i < |r.plan.nodes| ==> (h.plan.nodes[i] in Dispatchable(h) <==> MayStart(r, r.plan.nodes[i]))
    ensures Dispatchable(h) != [] <==> Startable(r)
  {
    hide MayStart, Dispatchable;
    if Dispatchable(h) != [] {
      var n := Dispatchable(h)[0];
      DispatchableMeaning(h, n);
      var i :| 0 <= i < |h.plan.nodes| && h.plan.nodes[i] == n;
      assert MayStart(r, r.plan.nodes[i]);
    }
    if Startable(r) {
      var n :| n in r.plan.nodes && MayStart(r, n);
      var i :| 0 <= i < |r.plan.nodes| && r.plan.nodes[i] == n;
    }
  }

  lemma ReplacedNode(r: ChainRecord, h: ChainRecord, f: nat, w: string, i: nat)
    requires f < |r.plan.nodes| && i < |r.plan.nodes| && UniqueIds(r.plan) && SplicedRecord(r, h, f, w) && w !in r.nodeOutcomes
    requires var z := r.plan.nodes[f].id; SealedWith(r, z, Failed) && FirstFailed(r, r.plan.nodes) == Some(z)
    ensures h.plan.nodes[i] in Dispatchable(h) <==> MayStart(r, r.plan.nodes[i])
  {
    var m, n := r.plan.nodes[i], h.plan.nodes[i];
    DispatchableMeaning(h, n);
    hide Dispatchable, FirstFailed, Rewire, DependenciesSucceeded;
    if i == f {
      RetryReadiness(r, h, m, n);
    } else {
      OtherReadiness(r, h, m, n, r.plan.nodes[f].id, w);
    }
  }

  lemma RetryReadiness(r: ChainRecord, h: ChainRecord, m: PlanNode, n: PlanNode)
    requires n.dependsOn == m.dependsOn && h.nodeOutcomes == r.nodeOutcomes
    ensures DependenciesSucceeded(h, n) <==> DependenciesSucceeded(r, m)
  {
  }

  lemma OtherReadiness(r: ChainRecord, h: ChainRecord, m: PlanNode, n: PlanNode, z: string, w: string)
    requires n.dependsOn == Rewire(m.dependsOn, z, w) && h.nodeOutcomes == r.nodeOutcomes
    requires SealedWith(r, z, Failed) && w !in r.nodeOutcomes
    ensures DependenciesSucceeded(h, n) <==> DependenciesSucceeded(r, m)
  {
    SameReadiness(h, r, n, m);
  }

  lemma SameReadiness(h: ChainRecord, r: ChainRecord, n: PlanNode, m: PlanNode)
    requires |n.dependsOn| == |m.dependsOn|
    requires forall k :: 0 <= k < |m.dependsOn| ==>
               (SealedWith(h, n.dependsOn[k], Success) <==> SealedWith(r, m.dependsOn[k], Success))
    ensures DependenciesSucceeded(h, n) <==> DependenciesSucceeded(r, m)
  {
    hide SealedWith;
  }

  // ---- One failed node at most: every seal is exact ----

  ghost predicate Light(s: LoopState) {
    var r := s.record;
    && (r.status == Running ==> !AnyFailed(r))
    && (r.status != Running && AnyFailed(r) ==> s.resumableSeal || r.status == AwaitingPlanApproval)
  }

  lemma LightSealsExactly(s: LoopState)
    requires Standing(s) && Light(s) && s.record.status != Running
    ensures SealIsExact(s)
  {
    FailedActiveMeaning(s.record, s.record.plan.nodes);
    FailedNodeIsActive(s.record);
  }

  lemma FoldIsLight(input: ChainInput, oracle: Oracle, s: LoopState, n: PlanNode)
    requires !AnyFailed(s.record) && n in Dispatchable(s.record)
    ensures var child := RunChild(input, oracle, s, n.id); var t := FoldNode(input, s, n.id, child);
            && (forall y :: y in NodeIds(t.record.plan) && SealedWith(t.record, y, Failed) ==> y == n.id)
            && (DeriveNodeOutcome(child.report).status == Success ==> !AnyFailed(t.record))
            && t.record.status == DeriveChainStatus(t.record)
  {
    hide RunChild;
    DispatchableMeaning(s.record, n);
    var t := FoldNode(input, s, n.id, RunChild(input, oracle, s, n.id));
    forall y | y in NodeIds(t.record.plan) && SealedWith(t.record, y, Failed)
      ensures y == n.id
    {
      assert y != n.id ==> SealedWith(s.record, y, Failed);
    }
  }

  lemma FailureIsLight(input: ChainInput, s: LoopState, n: PlanNode, reason: Option<string>, reopened: set<string>)
    requires Journaled(input, s, reopened) && n in s.record.plan.nodes && SealedWith(s.record, n.id, Failed)
    requires forall y :: y in NodeIds(s.record.plan) && SealedWith(s.record, y, Failed) ==> y == n.id
    requires s.record.status == DeriveChainStatus(s.record)
    ensures Light(AfterFailure(input, s, n.id, reason))
  {
    hide RecordInv, StoreInv, SpliceRetry, LineageFailures, LiveFailures, SplicedRecord, NextRetry;
    var decision := DecideReplan(s.record, n.id, LoopBounds(input));
    if decision.GrantReplan? {
      var f :| 0 <= f < |s.record.plan.nodes| && s.record.plan.nodes[f] == n;
      SpliceKeepsJournal(input, s, f, decision, reason, reopened);
      SplicedActive(input.chainId, s.record, SpliceRetry(s, n.id, decision, reason).record, f);
    }
  }

  lemma TurnKeepsLight(input: ChainInput, oracle: Oracle, s: LoopState, reopened: set<string>)
    requires Journaled(input, s, reopened) && Light(s)
    ensures Light(Turn(input, oracle, s))
  {
    if Dispatching(s) {
      var n := Dispatched(s);
      var child := RunChild(input, oracle, s, n.id);
      FoldIsLight(input, oracle, s, n);
      FoldKeepsJournal(input, oracle, s, n, reopened);
      hide RecordInv, StoreInv, FoldNode, RunChild, AfterFailure, NodeIds;
      if DeriveNodeOutcome(child.report).status == Failed {
        FailureIsLight(input, FoldNode(input, s, n.id, child), n, child.report.reason, reopened);
      }
    }
  }

  lemma {:induction false} RunKeepsLight(input: ChainInput, oracle: Oracle, s: LoopState, k: nat, reopened: set<string>)
    requires Journaled(input, s, reopened) && Light(s)
    ensures Light(StateAt(input, oracle, s, k))
  {
    hide Turn, Journaled, Light;
    if k > 0 {
      RunKeepsLight(input, oracle, s, k - 1, reopened);
      RunKeepsJournal(input, oracle, s, k - 1, reopened);
      TurnKeepsLight(input, oracle, StateAt(input, oracle, s, k - 1), reopened);
    }
  }

  // ---- More failed nodes: an escalation besides saves the seal, if there is a node to dispatch ----

  ghost predicate Burdened(s: LoopState, y: string, e: string) {
    var r := s.record;
    && y in NodeIds(r.plan) && SealedWith(r, y, Failed)
    && e in NodeIds(r.plan) && Escalated(r, e)
    && (if r.status == Running then Dispatchable(r) != [] else r.status == AwaitingPlanApproval)
  }

  lemma BurdenedSealsExactly(s: LoopState, y: string, e: string)
    requires Burdened(s, y, e) && s.record.status != Running
    ensures SealIsExact(s)
  {
    FailedActiveMeaning(s.record, s.record.plan.nodes);
    FailedNodeIsActive(s.record);
    assert AnyFailed(s.record);
  }

  lemma FailureKeepsBurden(input: ChainInput, s: LoopState, n: PlanNode, reason: Option<string>, reopened: set<string>,
                           y: string, e: string)
    requires Journaled(input, s, reopened) && n in s.record.plan.nodes && SealedWith(s.record, n.id, Failed)
    requires DependenciesSucceeded(s.record, n) && y != n.id && e != n.id
    requires Burdened(s, y, e) && s.record.status == AwaitingPlanApproval
    ensures Burdened(AfterFailure(input, s, n.id, reason), y, e)
  {
    hide RecordInv, StoreInv, SpliceRetry, LineageFailures, LiveFailures, NextRetry, Dispatchable, AcyclicPlan, KeepsWork;
    var decision := DecideReplan(s.record, n.id, LoopBounds(input));
    if decision.GrantReplan? {
      var f :| 0 <= f < |s.record.plan.nodes| && s.record.plan.nodes[f] == n;
      SpliceKeepsJournal(input, s, f, decision, reason, reopened);
      var h := SpliceRetry(s, n.id, decision, reason).record;
      SplicedActive(input.chainId, s.record, h, f);
      RetryIsReady(s.record, h, f, NextRetry(s.record, n.id));
    }
  }

  lemma TurnKeepsBurden(input: ChainInput, oracle: Oracle, s: LoopState, reopened: set<string>, y: string, e: string)
    requires Journaled(input, s, reopened) && Burdened(s, y, e)
    ensures Burdened(Turn(input, oracle, s), y, e)
  {
    if Dispatching(s) {
      var n := Dispatched(s);
      var child := RunChild(input, oracle, s, n.id);
      DispatchableMeaning(s.record, n);
      FoldKeepsJournal(input, oracle, s, n, reopened);
      FoldKeepsBurden(input, oracle, s, n, y, e);
      hide RecordInv, StoreInv, FoldNode, RunChild, AfterFailure, Dispatchable;
      if DeriveNodeOutcome(child.report).status == Failed {
        FailureKeepsBurden(input, FoldNode(input, s, n.id, child), n, child.report.reason, reopened, y, e);
      }
    }
  }

  lemma FoldKeepsBurden(input: ChainInput, oracle: Oracle, s: LoopState, n: PlanNode, y: string, e: string)
    requires Burdened(s, y, e) && n in Dispatchable(s.record)
    ensures var t := FoldNode(input, s, n.id, RunChild(input, oracle, s, n.id));
            && Burdened(t, y, e) && t.record.status == AwaitingPlanApproval && DependenciesSucceeded(t.record, n)
            && y != n.id && e != n.id
  {
    hide RunChild;
    DispatchableMeaning(s.record, n);
    var t := FoldNode(input, s, n.id, RunChild(input, oracle, s, n.id));
    assert Escalated(t.record, e);
  }

  lemma {:induction false} RunKeepsBurden(input: ChainInput, oracle: Oracle, s: LoopState, k: nat, reopened: set<string>,
                                          y: string, e: string)
    requires Journaled(input, s, reopened) && Burdened(s, y, e)
    ensures Burdened(StateAt(input, oracle, s, k), y, e)
  {
    hide Turn, Journaled, Burdened;
    if k > 0 {
      RunKeepsBurden(input, oracle, s, k - 1, reopened, y, e);
      RunKeepsJournal(input, oracle, s, k - 1, reopened);
      TurnKeepsBurden(input, oracle, StateAt(input, oracle, s, k - 1), reopened, y, e);
    }
  }

  // ---- Otherwise the mark is missed as soon as a child succeeds, or at once ----

  lemma {:induction false} EndedForGood(input: ChainInput, oracle: Oracle, s: LoopState, j: nat, k: nat)
    requires j <= k && StateAt(input, oracle, s, j).record.status != Running
    ensures StateAt(input, oracle, s, k) == StateAt(input, oracle, s, j)
  {
    hide Dispatch, Dispatchable;
    if j < k { EndedForGood(input, oracle, s, j, k - 1); }
  }

  /** With a FAILED node left and no escalation, one success or nothing to dispatch ends the chain FAILED with no replan
      decision taken: it is sealed as not resumable although an active node is FAILED. */
  lemma SecondFailureStrands(input: ChainInput, s: LoopState, y: string)
    requires s.record.status == Running && !s.resumableSeal
    requires y in NodeIds(s.record.plan) && SealedWith(s.record, y, Failed)
    requires !AnyEscalated(s.record) || Dispatchable(s.record) == []
    ensures var t := EndFrom(input, AllSucceed(), s);
            && t.record.status == ChainFailed && AnyFailed(t.record) && !Parked(t).resumableSeal && !SealIsExact(t)
            && (Dispatchable(s.record) == [] ==> t.reason == Some(STUCK_REASON))
  {
    hide Turn, EndFrom, Dispatchable, FailedActive, AllSucceed;
    StrandedAfterOneTurn(input, s, y);
    OneTurnEnds(input, AllSucceed(), s);
  }

  lemma OneTurnEnds(input: ChainInput, oracle: Oracle, s: LoopState)
    requires Turn(input, oracle, s).record.status != Running
    ensures EndFrom(input, oracle, s) == Turn(input, oracle, s)
  {
    hide Turn, DispatchBound;
    assert StateAt(input, oracle, s, 0) == s;
    assert StateAt(input, oracle, s, 1) == Turn(input, oracle, s);
    EndedForGood(input, oracle, s, 1, DispatchBound(input, s.record) + 1);
  }

  lemma StrandedAfterOneTurn(input: ChainInput, s: LoopState, y: string)
    requires s.record.status == Running && !s.resumableSeal
    requires y in NodeIds(s.record.plan) && SealedWith(s.record, y, Failed)
    requires !AnyEscalated(s.record) || Dispatchable(s.record) == []
    ensures var t := Turn(input, AllSucceed(), s);
            && t.record.status == ChainFailed && AnyFailed(t.record) && !t.resumableSeal
            && (Dispatchable(s.record) == [] ==> t.reason == Some(STUCK_REASON))
  {
    var t := Turn(input, AllSucceed(), s);
    if Dispatching(s) {
      var id := Dispatched(s).id;
      SuccessTurn(input, s);
      DispatchableMeaning(s.record, Dispatched(s));
      hide Turn, Dispatchable, AllSucceed;
      assert SealedWith(t.record, y, Failed);
      forall x | x in NodeIds(t.record.plan)
        ensures !Escalated(t.record, x)
      {
        assert x != id ==> Escalated(t.record, x) == Escalated(s.record, x);
      }
    } else {
      hide Dispatch, RunChild, FoldNode;
      assert SealedWith(t.record, y, Failed);
    }
  }

  // ---- The exact condition, on the record the journal holds before the resume ----

  lemma LightLaunch(input: ChainInput, oracle: Oracle, store: Store, lastReport: ChildReport)
    requires Restorable(input.chainId, store) && |LiveFailures(JournalRecord(store))| <= 1
    ensures SealIsExact(EndFrom(input, oracle, Start(input, store, lastReport)))
  {
    var s, reopened := Start(input, store, lastReport), ReenteredIds(JournalRecord(store), lastReport);
    LaterLaunch(input, store, lastReport);
    hide Start, Restorable, Journaled, Stale, Unsealed, StateAt, DispatchBound, JournalRecord, SealIsExact, Standing, Light;
    hide LiveFailures;
    EndIsUnderway(input, oracle, s, reopened);
    LightStart(input, store, lastReport);
    RunKeepsLight(input, oracle, s, DispatchBound(input, s.record) + 1, reopened);
    LightSealsExactly(EndFrom(input, oracle, s));
  }

  lemma BurdenedLaunch(input: ChainInput, oracle: Oracle, store: Store, lastReport: ChildReport)
    requires Restorable(input.chainId, store)
    requires var r := JournalRecord(store); |LiveFailures(r)| > 1 && OtherEscalated(r) && Startable(r)
    ensures SealIsExact(EndFrom(input, oracle, Start(input, store, lastReport)))
  {
    var s, reopened := Start(input, store, lastReport), ReenteredIds(JournalRecord(store), lastReport);
    LaterLaunch(input, store, lastReport);
    var y, e := BurdenedStart(input, store, lastReport);
    hide Start, Restorable, Journaled, Stale, Unsealed, StateAt, DispatchBound, JournalRecord, SealIsExact, Standing;
    hide Burdened, LiveFailures;
    hide OtherEscalated, Startable;
    EndIsUnderway(input, oracle, s, reopened);
    RunKeepsBurden(input, oracle, s, DispatchBound(input, s.record) + 1, reopened, y, e);
    BurdenedSealsExactly(EndFrom(input, oracle, s), y, e);
  }

  lemma NoFailureNoHeal(r: ChainRecord)
    ensures FirstFailed(r, r.plan.nodes).Some? <==> LiveFailures(r) != {}
    ensures FirstFailed(r, r.plan.nodes).Some? <==> AnyFailed(r)
  {
    forall y | y in LiveFailures(r)
      ensures exists n :: n in r.plan.nodes && SealedWith(r, n.id, Failed)
    {
      var n :| n in r.plan.nodes && n.id == y;
    }
    if FirstFailed(r, r.plan.nodes).Some? {
      var n :| n in r.plan.nodes && SealedWith(r, n.id, Failed);
      assert n.id in LiveFailures(r) && n.id in NodeIds(r.plan);
    }
  }

  lemma LightStart(input: ChainInput, store: Store, lastReport: ChildReport)
    requires Restorable(input.chainId, store) && |LiveFailures(JournalRecord(store))| <= 1
    ensures Light(Start(input, store, lastReport))
  {
    var r, s := JournalRecord(store), Start(input, store, lastReport);
    RestartKeepsJournal(input, store, lastReport);
    hide Start, Journaled, Stale, Unsealed, JournalRecord, SplicedRecord, LiveFailures, RecordInv, StoreInv;
    hide DeriveChainStatus;
    NoFailureNoHeal(r);
    if FirstFailed(r, r.plan.nodes).Some? {
      var z, w := HealedRecord(input.chainId, r, s.record, lastReport);
      HealedFailures(r, s.record, z, w);
    } else {
      FailuresIgnoreStatus(r, s.record);
    }
  }

  lemma FailuresIgnoreStatus(r: ChainRecord, h: ChainRecord)
    requires h == r.(status := h.status)
    ensures AnyFailed(h) <==> AnyFailed(r)
  {
    assert forall x, st :: SealedWith(h, x, st) == SealedWith(r, x, st);
  }

  lemma BurdenedStart(input: ChainInput, store: Store, lastReport: ChildReport) returns (y: string, e: string)
    requires Restorable(input.chainId, store)
    requires var r := JournalRecord(store); |LiveFailures(r)| > 1 && OtherEscalated(r) && Startable(r)
    ensures Burdened(Start(input, store, lastReport), y, e)
  {
    var r, s := JournalRecord(store), Start(input, store, lastReport);
    RestartKeepsJournal(input, store, lastReport);
    hide Start, Journaled, Stale, Unsealed, JournalRecord, SplicedRecord, LiveFailures, RecordInv, StoreInv, Dispatchable;
    hide Startable;
    NoFailureNoHeal(r);
    var z, w := HealedRecord(input.chainId, r, s.record, lastReport);
    HealedFailures(r, s.record, z, w);
    HealedEscalations(r, s.record, z, w);
    HealedStart(input.chainId, r, s.record, lastReport);
    y :| y in NodeIds(s.record.plan) && SealedWith(s.record, y, Failed);
    e :| e in NodeIds(s.record.plan) && Escalated(s.record, e);
  }

  lemma StrandedStart(input: ChainInput, store: Store, lastReport: ChildReport)
    requires Restorable(input.chainId, store)
    requires var r := JournalRecord(store); |LiveFailures(r)| > 1 && !(OtherEscalated(r) && Startable(r))
    ensures var t := EndFrom(input, AllSucceed(), Start(input, store, lastReport));
            && t.record.status == ChainFailed && AnyFailed(t.record) && !Parked(t).resumableSeal && !SealIsExact(t)
            && (!Startable(JournalRecord(store)) ==> t.reason == Some(STUCK_REASON))
  {
    var r, s := JournalRecord(store), Start(input, store, lastReport);
    RestartKeepsJournal(input, store, lastReport);
    hide Start, Journaled, Stale, Unsealed, JournalRecord, SplicedRecord, LiveFailures, RecordInv, StoreInv, Dispatchable;
    hide Startable;
    hide EndFrom, AllSucceed, OtherEscalated, SealIsExact, Parked;
    NoFailureNoHeal(r);
    var z, w := HealedRecord(input.chainId, r, s.record, lastReport);
    HealedFailures(r, s.record, z, w);
    HealedEscalations(r, s.record, z, w);
    HealedStart(input.chainId, r, s.record, lastReport);
    var y :| y in NodeIds(s.record.plan) && SealedWith(s.record, y, Failed);
    SecondFailureStrands(input, s, y);
  }

  /** A launch's seal is marked resumable exactly when an active node is FAILED, for whatever its children do, if and only
      if the journal's record has one active FAILED node at most, or an escalation besides the healed node's and a node
      the healed chain can start. */
  lemma SealsAreExact(input: ChainInput, store: Store, lastReport: ChildReport)
    requires Restorable(input.chainId, store)
    ensures (forall oracle: Oracle :: SealIsExact(EndFrom(input, oracle, Start(input, store, lastReport)))) <==>
            var r := JournalRecord(store); |LiveFailures(r)| <= 1 || (OtherEscalated(r) && Startable(r))
  {
    var r, s := JournalRecord(store), Start(input, store, lastReport);
    hide Start, Restorable, JournalRecord, LiveFailures, OtherEscalated, Startable, EndFrom, AllSucceed, SealIsExact;
    if |LiveFailures(r)| <= 1 || (OtherEscalated(r) && Startable(r)) {
      forall oracle: Oracle
        ensures SealIsExact(EndFrom(input, oracle, s))
      {
        if |LiveFailures(r)| <= 1 { LightLaunch(input, oracle, store, lastReport); } else { BurdenedLaunch(input, oracle, store, lastReport); }
      }
    } else {
      StrandedStart(input, store, lastReport);
      assert !SealIsExact(EndFrom(input, AllSucceed(), s));
    }
  }

  /** A resume with a FAILED node to heal always leaves the chain RUNNING; it has a node to dispatch if and only if the
      healed node or an unsealed one waits for nothing, as is always so on an acyclic plan with one FAILED node. */
  lemma ResumeHealsExactly(input: ChainInput, store: Store, lastReport: ChildReport)
    requires Restorable(input.chainId, store) && AnyFailed(JournalRecord(store))
    ensures var r, s := JournalRecord(store), Start(input, store, lastReport);
            && s.record.status == Running
            && (Dispatching(s) <==> Startable(r))
            && (|LiveFailures(r)| <= 1 && AcyclicPlan(r.plan) ==> Startable(r))
  {
    var r, s := JournalRecord(store), Start(input, store, lastReport);
    RestartKeepsJournal(input, store, lastReport);
    hide Start, Stale, Unsealed, JournalRecord, SplicedRecord, LiveFailures, StoreInv, Dispatchable, Startable, HealedTo;
    hide RecordInv;
    hide ReenteredIds, AcyclicPlan;
    NoFailureNoHeal(r);
    HealedStart(input.chainId, r, s.record, lastReport);
    if |LiveFailures(r)| <= 1 && AcyclicPlan(r.plan) && Dispatchable(s.record) == [] {
      var z, w := HealedRecord(input.chainId, r, s.record, lastReport);
      HealedFailures(r, s.record, z, w);
      UnfinishedIsCyclic(input.chainId, s.record);
    }
  }

  /** On an acyclic plan a resumed launch never reaches the stuck branch, whatever its children do, if and only if no node was
      FAILED, or the healed or an unsealed node waits for nothing. */
  lemma ResumeNeverSticks(input: ChainInput, store: Store, lastReport: ChildReport)
    requires Restorable(input.chainId, store) && AcyclicPlan(JournalRecord(store).plan)
    ensures var r := JournalRecord(store);
            NeverSticks(input, Start(input, store, lastReport)) <==> !AnyFailed(r) || Startable(r)
  {
    var r, s := JournalRecord(store), Start(input, store, lastReport);
    RestartKeepsJournal(input, store, lastReport);
    if AnyFailed(r) {
      ResumeHealsExactly(input, store, lastReport);
    } else {
      UnhealedIsGoing(input, store, lastReport);
    }
    hide Start, StateAt, Journaled, Stale, Standing, Unsealed, AcyclicPlan, HealedTo, Restorable, JournalRecord, Startable;
    hide AnyFailed, Dispatchable, ReenteredIds;
    NeverStuck(input, s, ReenteredIds(r, lastReport));
  }

  lemma UnhealedIsGoing(input: ChainInput, store: Store, lastReport: ChildReport)
    requires Restorable(input.chainId, store) && AcyclicPlan(JournalRecord(store).plan) && !AnyFailed(JournalRecord(store))
    ensures Going(Start(input, store, lastReport))
  {
    var r, s := JournalRecord(store), Start(input, store, lastReport);
    RestartKeepsJournal(input, store, lastReport);
    hide Start, Stale, Standing, Unsealed, AcyclicPlan, Restorable, JournalRecord, Dispatchable, RecordInv, StoreInv;
    hide ReenteredIds;
    NoFailureNoHeal(r);
    DeriveIgnoresStatus(r, s.record.status);
    hide DeriveChainStatus;
    DerivedIsGoing(input.chainId, s);
  }
}
