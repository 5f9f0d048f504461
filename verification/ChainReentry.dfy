/** Executing a sealed child again: what the journal keeps of it, and when it still rebuilds the live record. */
module ChainReentry {
  import opened Lineage
  import opened ChainTypes
  import opened Reducer
  import opened Replan
  import opened PlanSurgery
  import opened Journal
  import opened Activities
  import opened ChainLoop
  import opened ChainInvariant
  import opened ChainTurn
  import opened ChainTermination
  import opened ChainGuarantees
  import opened ChainResume

  // ---- What the journal says of a sealed node it goes on saying ----

  ghost predicate Sticky(a: Folded, b: Folded) {
    forall x :: x in a.outcomes ==>
      && x in b.outcomes && b.outcomes[x] == a.outcomes[x]
      && (x in a.handoffs <==> x in b.handoffs)
      && (x in a.handoffs ==> b.handoffs[x] == a.handoffs[x])
  }

  ghost predicate StickyStore(a: Store, b: Store) {
    a.row.Some? && b.row.Some? && Sticky(View(a), View(b))
  }

  lemma StickyOn(a: Store, b: Store, c: Store)
    requires StickyStore(a, b) && StickyStore(b, c)
    ensures StickyStore(a, c)
  {
    hide View;
  }

  lemma FoldSticks(input: ChainInput, oracle: Oracle, s: LoopState, n: PlanNode, reopened: set<string>)
    requires Journaled(input, s, reopened) && n in Dispatchable(s.record)
    ensures StickyStore(s.store, FoldNode(input, s, n.id, RunChild(input, oracle, s, n.id)).store)
  {
    hide RecordInv, RunChild, Fold, ReplannedIds;
    var child := RunChild(input, oracle, s, n.id);
    RunChildStore(input, oracle, s, n.id, reopened);
    SealView(child.store, n.id, DeriveNodeOutcome(child.report), child.report.handoff, child.report.inconclusiveCheck);
  }

  lemma SpliceSticks(input: ChainInput, s: LoopState, f: nat, decision: ReplanDecision, reason: Option<string>,
                     reopened: set<string>)
    requires Journaled(input, s, reopened) && f < |s.record.plan.nodes|
    requires SealedWith(s.record, s.record.plan.nodes[f].id, Failed) && decision.GrantReplan?
    requires decision.replansUsed == |LineageFailures(s.record, LineageRoot(s.record.plan.nodes[f].id))|
    ensures StickyStore(s.store, SpliceRetry(s, s.record.plan.nodes[f].id, decision, reason).store)
  {
    hide RecordInv, SpliceRetry, SplicedRecord, BuildReplanBrief, BuildRetryPlan, LineageFailures, Fold, ReplannedIds;
    hide Replanned;
    var id := s.record.plan.nodes[f].id;
    IdAtIsIn(s.record.plan, f);
    SpliceEffect(input, s, f, decision, reason);
    var t := SpliceRetry(s, id, decision, reason);
    ReplanView(s.store, id, decision.reason, t.record.plan, BuildReplanBrief(id, OrElse(reason, "unknown")));
  }

  lemma FailureSticks(input: ChainInput, s: LoopState, n: PlanNode, reason: Option<string>, reopened: set<string>)
    requires Journaled(input, s, reopened) && n in s.record.plan.nodes && SealedWith(s.record, n.id, Failed)
    ensures StickyStore(s.store, AfterFailure(input, s, n.id, reason).store)
  {
    StoredRow(s.store, s.record, reopened);
    hide RecordInv, StoreInv, SpliceRetry, LineageFailures, LiveFailures, View;
    var decision := DecideReplan(s.record, n.id, LoopBounds(input));
    if decision.GrantReplan? {
      var f :| 0 <= f < |s.record.plan.nodes| && s.record.plan.nodes[f] == n;
      SpliceSticks(input, s, f, decision, reason, reopened);
    }
  }

  lemma TurnSticks(input: ChainInput, oracle: Oracle, s: LoopState, reopened: set<string>)
    requires Journaled(input, s, reopened)
    ensures StickyStore(s.store, Turn(input, oracle, s).store)
  {
    StoredRow(s.store, s.record, reopened);
    if Dispatching(s) {
      var n := Dispatched(s);
      var child := RunChild(input, oracle, s, n.id);
      FoldSticks(input, oracle, s, n, reopened);
      FoldKeepsJournal(input, oracle, s, n, reopened);
      if DeriveNodeOutcome(child.report).status == Failed {
        var folded := FoldNode(input, s, n.id, child);
        hide RecordInv, StoreInv, View, FoldNode, RunChild, AfterFailure, StickyStore;
        FailureSticks(input, folded, n, child.report.reason, reopened);
        StickyOn(s.store, folded.store, AfterFailure(input, folded, n.id, child.report.reason).store);
      }
    }
  }

  lemma {:induction false} RunSticks(input: ChainInput, oracle: Oracle, s: LoopState, k: nat, reopened: set<string>)
    requires Journaled(input, s, reopened)
    ensures StickyStore(s.store, StateAt(input, oracle, s, k).store)
  {
    StoredRow(s.store, s.record, reopened);
    if k > 0 {
      hide Turn, Journaled, StickyStore;
      RunSticks(input, oracle, s, k - 1, reopened);
      RunKeepsJournal(input, oracle, s, k - 1, reopened);
      TurnSticks(input, oracle, StateAt(input, oracle, s, k - 1), reopened);
      StickyOn(s.store, StateAt(input, oracle, s, k - 1).store, StateAt(input, oracle, s, k).store);
    }
  }

  // ---- The re-entered node through the run ----

  lemma SpliceKeepsStale(input: ChainInput, s: LoopState, f: nat, decision: ReplanDecision, reason: Option<string>,
                         reopened: set<string>)
    requires Journaled(input, s, reopened) && Stale(s, reopened) && f < |s.record.plan.nodes|
    requires SealedWith(s.record, s.record.plan.nodes[f].id, Failed) && decision.GrantReplan?
    requires decision.replansUsed == |LineageFailures(s.record, LineageRoot(s.record.plan.nodes[f].id))|
    ensures Stale(SpliceRetry(s, s.record.plan.nodes[f].id, decision, reason), reopened)
  {
    hide SpliceRetry, BuildReplanBrief, BuildRetryPlan, LineageFailures, Fold, ReplannedIds, Replanned, Incarnated, NextRetry;
    hide StoreInv;
    var r, id := s.record, s.record.plan.nodes[f].id;
    var t := SpliceRetry(s, id, decision, reason);
    SpliceSticks(input, s, f, decision, reason, reopened);
    SpliceKeepsJournal(input, s, f, decision, reason, reopened);
    SplicedActive(input.chainId, r, t.record, f);
    OneActivePerLineage(r.plan, id, id);
    RetryNotReopened(input, s, id, reopened);
    SpliceAddsNoSelfDependency(r.plan, t.record.plan, f, NextRetry(r, id), reopened);
  }

  lemma RetryNotReopened(input: ChainInput, s: LoopState, id: string, reopened: set<string>)
    requires Journaled(input, s, reopened) && Stale(s, reopened)
    requires id in NodeIds(s.record.plan) && SealedWith(s.record, id, Failed)
    ensures NextRetry(s.record, id) !in reopened
  {
    RetryIsFresh(input.chainId, s.record, id);
  }

  lemma FailureKeepsStale(input: ChainInput, s: LoopState, n: PlanNode, reason: Option<string>, reopened: set<string>)
    requires Journaled(input, s, reopened) && Stale(s, reopened)
    requires n in s.record.plan.nodes && SealedWith(s.record, n.id, Failed)
    ensures Stale(AfterFailure(input, s, n.id, reason), reopened)
  {
    hide RecordInv, StoreInv, SpliceRetry, LineageFailures, LiveFailures, View;
    var decision := DecideReplan(s.record, n.id, LoopBounds(input));
    if decision.GrantReplan? {
      var f :| 0 <= f < |s.record.plan.nodes| && s.record.plan.nodes[f] == n;
      hide Stale;
      SpliceKeepsStale(input, s, f, decision, reason, reopened);
    }
  }

  lemma FoldKeepsStale(input: ChainInput, oracle: Oracle, s: LoopState, n: PlanNode, reopened: set<string>)
    requires Journaled(input, s, reopened) && Stale(s, reopened) && n in Dispatchable(s.record)
    ensures Stale(FoldNode(input, s, n.id, RunChild(input, oracle, s, n.id)), reopened)
  {
    hide RecordInv, StoreInv, RunChild, View;
    DispatchableMeaning(s.record, n);
    FoldSticks(input, oracle, s, n, reopened);
  }

  lemma TurnKeepsStale(input: ChainInput, oracle: Oracle, s: LoopState, reopened: set<string>)
    requires Journaled(input, s, reopened) && Stale(s, reopened)
    ensures Stale(Turn(input, oracle, s), reopened)
  {
    if Dispatching(s) {
      var n := Dispatched(s);
      var child := RunChild(input, oracle, s, n.id);
      FoldKeepsStale(input, oracle, s, n, reopened);
      FoldKeepsJournal(input, oracle, s, n, reopened);
      if DeriveNodeOutcome(child.report).status == Failed {
        hide RecordInv, StoreInv, FoldNode, RunChild, AfterFailure, Stale;
        FailureKeepsStale(input, FoldNode(input, s, n.id, child), n, child.report.reason, reopened);
      }
    }
  }

  lemma {:induction false} RunKeepsStale(input: ChainInput, oracle: Oracle, s: LoopState, k: nat, reopened: set<string>)
    requires Journaled(input, s, reopened) && Stale(s, reopened)
    ensures Stale(StateAt(input, oracle, s, k), reopened)
  {
    hide Turn, Journaled, Stale;
    if k > 0 {
      RunKeepsStale(input, oracle, s, k - 1, reopened);
      RunKeepsJournal(input, oracle, s, k - 1, reopened);
      TurnKeepsStale(input, oracle, StateAt(input, oracle, s, k - 1), reopened);
    }
  }

  /** The record the journal rebuilds is in shape too, with the plan and the spent incarnations of the live one. */
  lemma JournalRecordInShape(input: ChainInput, s: LoopState, reopened: set<string>)
    requires Journaled(input, s, reopened) && Stale(s, reopened)
    ensures var r := JournalRecord(s.store);
            && RecordInv(input.chainId, r) && StoreInv(s.store, r, {})
            && r.plan == s.record.plan
            && forall id :: id in NodeIds(r.plan) ==> Spent(r, id) == Spent(s.record, id)
  {
    hide Fold, Incarnation, Incarnations, LineageRoot;
    var r, v := JournalRecord(s.store), View(s.store);
    SameElsewhere(v.outcomes, s.record.nodeOutcomes, reopened);
    forall id | id in NodeIds(r.plan)
      ensures Spent(r, id) == Spent(s.record, id) && Incarnated(r, id)
    {
      assert Incarnated(s.record, id);
      forall y | y in reopened && LineageRoot(y) == LineageRoot(id) && y != id
        ensures y in s.record.nodeOutcomes
      {
        if y in NodeIds(s.record.plan) { OneActivePerLineage(s.record.plan, y, id); }
      }
      assert Spent(r, id) == Spent(s.record, id);
    }
  }

  lemma SameElsewhere<T>(a: map<string, T>, b: map<string, T>, except: set<string>)
    requires a - except == b - except
    ensures forall x :: x !in except ==> (x in a <==> x in b)
    ensures forall x :: x !in except && x in a ==> a[x] == b[x]
  {
    assert forall x :: x in a && x !in except ==> x in a - except;
    assert forall x :: x in b && x !in except ==> x in b - except;
    assert forall x :: x in a - except ==> a[x] == (a - except)[x];
    assert forall x :: x in b - except ==> b[x] == (b - except)[x];
  }

  // ---- When the journal still rebuilds the live record ----

  /** The re-entered nodes are sealed live, and exactly as the journal has them. */
  ghost predicate SealedAlike(s: LoopState, reopened: set<string>) {
    s.store.row.Some? &&
    var v := View(s.store);
    forall x :: x in reopened ==>
      && x in s.record.nodeOutcomes && x in v.outcomes && s.record.nodeOutcomes[x] == v.outcomes[x]
      && (x in s.record.nodeHandoffs <==> x in v.handoffs)
      && (x in v.handoffs ==> s.record.nodeHandoffs[x] == v.handoffs[x])
  }

  /** At every moment of every run: plan, runs, outcomes and handoffs are rebuilt if and only if each re-entered node has
      been sealed again just as the first time. */
  lemma ReplayMeansSealedAlike(input: ChainInput, s: LoopState, reopened: set<string>)
    requires Journaled(input, s, reopened) && Stale(s, reopened)
    ensures Journaled(input, s, {}) <==> SealedAlike(s, reopened)
  {
    hide Fold, ReplannedIds, RecordInv;
    var v, r := View(s.store), s.record;
    SameElsewhere(v.outcomes, r.nodeOutcomes, reopened);
    SameElsewhere(v.handoffs, r.nodeHandoffs, reopened);
    NothingExcepted(v.outcomes);
    NothingExcepted(r.nodeOutcomes);
    NothingExcepted(v.handoffs);
    NothingExcepted(r.nodeHandoffs);
    if SealedAlike(s, reopened) {
      assert v.outcomes == r.nodeOutcomes;
      assert v.handoffs == r.nodeHandoffs;
    }
  }

  lemma NothingExcepted<T>(m: map<string, T>)
    ensures m - {} == m
  {
  }

  /** A child that was re-entered but not yet sealed again: its first seal is missing from the live record alone. */
  ghost predicate Pending(s: LoopState, x: string) {
    && s.store.row.Some?
    && x in View(s.store).outcomes && x !in s.record.nodeOutcomes
    && View(s.store).outcomes - {x} == s.record.nodeOutcomes
    && View(s.store).handoffs == s.record.nodeHandoffs
  }

  /** The fold of a re-entered child: the journal rebuilds the live record again if and only if the outcome is the one on
      record and a handoff, if there is a new one, is on record too. */
  lemma ReentryIsForgotten(input: ChainInput, oracle: Oracle, s: LoopState, x: string)
    requires Journaled(input, s, {x}) && Pending(s, x)
    requires Dispatching(s) && Dispatched(s).id == x
    ensures var child := RunChild(input, oracle, s, x);
            var t, v := FoldNode(input, s, x, child), View(s.store);
            && t.store.row.Some? && View(t.store).outcomes == v.outcomes && View(t.store).handoffs == v.handoffs
            && (Journaled(input, t, {}) <==>
                && DeriveNodeOutcome(child.report) == v.outcomes[x]
                && (child.report.handoff.Some? ==> x in v.handoffs && v.handoffs[x] == child.report.handoff.value))
  {
    hide Fold, ReplannedIds, RunChild;
    var child := RunChild(input, oracle, s, x);
    var outcome, handoff, v := DeriveNodeOutcome(child.report), child.report.handoff, View(s.store);
    FoldKeepsJournal(input, oracle, s, Dispatched(s), {x});
    hide RecordInv;
    RunChildStore(input, oracle, s, x, {x});
    SealView(child.store, x, outcome, handoff, child.report.inconclusiveCheck);
    NothingExcepted(v.outcomes);
    NothingExcepted(v.handoffs);
    NothingExcepted(s.record.nodeOutcomes[x := outcome]);
    NothingExcepted(FoldNode(input, s, x, child).record.nodeHandoffs);
    Readded(v.outcomes, s.record.nodeOutcomes, x, outcome);
    if handoff.Some? { UpdateIsNothing(v.handoffs, x, handoff.value); }
  }

  lemma Readded<T>(all: map<string, T>, rest: map<string, T>, x: string, y: T)
    requires x in all && all - {x} == rest
    ensures all == rest[x := y] <==> all[x] == y
  {
    if all[x] == y {
      assert forall k :: k in all && k != x ==> k in rest && rest[k] == all[k];
      assert all == rest[x := y];
    } else {
      assert rest[x := y][x] == y;
    }
  }

  /** A resume that re-enters a child starts in that state... */
  lemma RestartPends(input: ChainInput, store: Store, lastReport: ChildReport, x: string)
    requires Restorable(input.chainId, store) && ReenteredIds(JournalRecord(store), lastReport) == {x}
    ensures Pending(Start(input, store, lastReport), x)
    ensures View(Start(input, store, lastReport).store).outcomes == JournalRecord(store).nodeOutcomes
  {
    hide Start, RecordInv, StoreInv, ResumeFailed, WasSealed, HealedTo, Standing, Unsealed, ChainRecordOf, Stale;
    hide LineageFailures;
    var r := JournalRecord(store);
    RestoredStart(input, store, r, lastReport);
    var derived := r.(status := DeriveChainStatus(r));
    var s := LoopState(derived, Reopened(Initialized(store, input.plan)), None, false, 0);
    DeriveIgnoresStatus(r, derived.status);
    FirstFailedIgnoresStatus(r, derived, r.plan.nodes);
    assert x in {x};
    assert FirstFailed(r, r.plan.nodes) == Some(x);
    var n :| n in derived.plan.nodes && n.id == x;
    var f :| 0 <= f < |derived.plan.nodes| && derived.plan.nodes[f] == n;
    ResumeReenters(input, s, lastReport, f);
    WithoutNodePends(s, ResumeFailed(input, s, lastReport), x);
  }

  lemma WithoutNodePends(s: LoopState, t: LoopState, x: string)
    requires StoreInv(s.store, s.record, {}) && x in s.record.nodeOutcomes && t.record == WithoutNode(s.record, x)
    requires t.store.row.Some? && View(t.store) == View(s.store)
    ensures Pending(t, x) && View(t.store).outcomes == s.record.nodeOutcomes
  {
    hide Fold, ReplannedIds;
    NothingExcepted(View(s.store).outcomes);
    NothingExcepted(s.record.nodeOutcomes);
    NothingExcepted(View(s.store).handoffs);
    NothingExcepted(s.record.nodeHandoffs);
  }

  lemma FoldKeepsPending(input: ChainInput, oracle: Oracle, s: LoopState, n: PlanNode, x: string)
    requires Journaled(input, s, {x}) && Pending(s, x) && n in Dispatchable(s.record) && n.id != x
    ensures Pending(FoldNode(input, s, n.id, RunChild(input, oracle, s, n.id)), x)
  {
    hide RecordInv, RunChild, Fold, ReplannedIds;
    var child := RunChild(input, oracle, s, n.id);
    var v := View(s.store);
    DispatchableMeaning(s.record, n);
    RunChildStore(input, oracle, s, n.id, {x});
    SealView(child.store, n.id, DeriveNodeOutcome(child.report), child.report.handoff, child.report.inconclusiveCheck);
    assert forall k :: k in v.outcomes && k != x ==> k in v.outcomes - {x};
    assert v.outcomes[n.id := DeriveNodeOutcome(child.report)] - {x} == (v.outcomes - {x})[n.id := DeriveNodeOutcome(child.report)];
  }

  lemma FailureKeepsPending(input: ChainInput, s: LoopState, n: PlanNode, reason: Option<string>, x: string)
    requires Journaled(input, s, {x}) && Pending(s, x) && n in s.record.plan.nodes && SealedWith(s.record, n.id, Failed)
    ensures Pending(AfterFailure(input, s, n.id, reason), x)
  {
    hide RecordInv, SpliceRetry, SplicedRecord, BuildReplanBrief, BuildRetryPlan, LineageFailures, LiveFailures, Fold;
    hide ReplannedIds, Replanned;
    var decision := DecideReplan(s.record, n.id, LoopBounds(input));
    if decision.GrantReplan? {
      var f :| 0 <= f < |s.record.plan.nodes| && s.record.plan.nodes[f] == n;
      IdAtIsIn(s.record.plan, f);
      SpliceEffect(input, s, f, decision, reason);
      var t := SpliceRetry(s, n.id, decision, reason);
      ReplanView(s.store, n.id, decision.reason, t.record.plan, BuildReplanBrief(n.id, OrElse(reason, "unknown")));
      SplicedOutcomes(s.record, t.record, f);
    }
  }

  lemma SplicedOutcomes(r: ChainRecord, r': ChainRecord, f: nat)
    requires f < |r.plan.nodes| && SplicedRecord(r, r', f, NextRetry(r, r.plan.nodes[f].id))
    ensures r'.nodeOutcomes == r.nodeOutcomes && r'.nodeRuns == r.nodeRuns
  {
  }

  /** ...and stays in it until the child is sealed again. */
  lemma {:induction false} RunPends(input: ChainInput, oracle: Oracle, s: LoopState, k: nat, x: string)
    requires Journaled(input, s, {x}) && Pending(s, x)
    ensures var t := StateAt(input, oracle, s, k); Pending(t, x) || x in t.record.nodeOutcomes
  {
    hide Turn, Journaled, Pending;
    if k > 0 {
      RunPends(input, oracle, s, k - 1, x);
      RunKeepsJournal(input, oracle, s, k - 1, {x});
      var m := StateAt(input, oracle, s, k - 1);
      if Pending(m, x) { TurnPends(input, oracle, m, x); } else { TurnKeepsOutcomes(input, oracle, m, {x}); }
    }
  }

  lemma TurnPends(input: ChainInput, oracle: Oracle, s: LoopState, x: string)
    requires Journaled(input, s, {x}) && Pending(s, x)
    ensures var t := Turn(input, oracle, s); Pending(t, x) || x in t.record.nodeOutcomes
  {
    if Dispatching(s) {
      if Dispatched(s).id == x {
        TurnKeepsOutcomes(input, oracle, s, {x});
      } else {
        var n := Dispatched(s);
        FoldKeepsPending(input, oracle, s, n, x);
        FoldKeepsJournal(input, oracle, s, n, {x});
        var child := RunChild(input, oracle, s, n.id);
        if DeriveNodeOutcome(child.report).status == Failed {
          hide RecordInv, StoreInv, FoldNode, RunChild, AfterFailure, Pending;
          FailureKeepsPending(input, FoldNode(input, s, n.id, child), n, child.report.reason, x);
        }
      }
    }
  }

  // ---- Whether every run replays ----

  /** Where an incarnation has left its loop. */
  function EndFrom(input: ChainInput, oracle: Oracle, s: LoopState): LoopState {
    StateAt(input, oracle, s, DispatchBound(input, s.record) + 1)
  }

  const SUCCEEDED := ChildReport(RunSuccess, None, None, None, None, false)

  /** Children that all succeed. */
  function AllSucceed(): Oracle {
    (k: nat) => SUCCEEDED
  }

  lemma SuccessTurn(input: ChainInput, s: LoopState)
    requires Dispatching(s)
    ensures var t, id := Turn(input, AllSucceed(), s), Dispatched(s).id;
            && t.record.plan == s.record.plan && t.resumableSeal == s.resumableSeal
            && t.record.nodeOutcomes == s.record.nodeOutcomes[id := NodeOutcome(Success, Proceed, None)]
            && t.record.status == DeriveChainStatus(t.record)
  {
  }

  lemma SuccessTurnSealsSuccess(input: ChainInput, s: LoopState, x: string)
    requires x in s.record.nodeOutcomes ==> SealedWith(s.record, x, Success)
    ensures var t := Turn(input, AllSucceed(), s); x in t.record.nodeOutcomes ==> SealedWith(t.record, x, Success)
  {
    if Dispatching(s) {
      SuccessTurn(input, s);
      hide Turn;
    }
  }

  lemma {:induction false} SuccessesOnly(input: ChainInput, s: LoopState, k: nat, x: string)
    requires x !in s.record.nodeOutcomes
    ensures var t := StateAt(input, AllSucceed(), s, k); x in t.record.nodeOutcomes ==> SealedWith(t.record, x, Success)
  {
    hide Turn, AllSucceed;
    if k > 0 {
      SuccessesOnly(input, s, k - 1, x);
      SuccessTurnSealsSuccess(input, StateAt(input, AllSucceed(), s, k - 1), x);
    }
  }

  /** The journal rebuilds the record of every run, whatever the children do, if and only if the resume re-entered none. */
  lemma ReplayIsExact(input: ChainInput, store: Store, lastReport: ChildReport)
    requires Restorable(input.chainId, store)
    ensures (forall oracle: Oracle :: Journaled(input, EndFrom(input, oracle, Start(input, store, lastReport)), {})) <==>
            ReenteredIds(JournalRecord(store), lastReport) == {}
  {
    var s, reopened := Start(input, store, lastReport), ReenteredIds(JournalRecord(store), lastReport);
    hide Start, Restorable, Journaled, Stale, DispatchBound, StateAt, Standing, Unsealed, HealedTo, JournalRecord;
    hide ReenteredIds;
    hide AllSucceed, AcyclicPlan, AnyFailed;
    RestartKeepsJournal(input, store, lastReport);
    forall oracle: Oracle | reopened == {}
      ensures Journaled(input, EndFrom(input, oracle, s), {})
    {
      RunKeepsJournal(input, oracle, s, DispatchBound(input, s.record) + 1, {});
    }
    if reopened != {} {
      var x := OneReentered(JournalRecord(store), lastReport);
      SuccessIsNotReplayed(input, store, lastReport, x);
      assert !Journaled(input, EndFrom(input, AllSucceed(), s), {});
    }
  }

  lemma OneReentered(r: ChainRecord, lastReport: ChildReport) returns (x: string)
    requires ReenteredIds(r, lastReport) != {}
    ensures ReenteredIds(r, lastReport) == {x}
  {
    x :| x in ReenteredIds(r, lastReport);
  }

  lemma SuccessIsNotReplayed(input: ChainInput, store: Store, lastReport: ChildReport, x: string)
    requires Restorable(input.chainId, store) && ReenteredIds(JournalRecord(store), lastReport) == {x}
    ensures !Journaled(input, EndFrom(input, AllSucceed(), Start(input, store, lastReport)), {})
  {
    hide Start, Restorable, DispatchBound, StateAt, Standing, Unsealed, HealedTo, RecordInv, StoreInv, View;
    var s := Start(input, store, lastReport);
    var k := DispatchBound(input, s.record) + 1;
    RestartKeepsJournal(input, store, lastReport);
    RestartPends(input, store, lastReport, x);
    RunKeepsJournal(input, AllSucceed(), s, k, {x});
    RunKeepsStale(input, AllSucceed(), s, k, {x});
    SuccessesOnly(input, s, k, x);
    ReplayMeansSealedAlike(input, StateAt(input, AllSucceed(), s, k), {x});
    assert x in {x};
  }
}
