/** When a resume's grant is taken up: which node the healed chain starts, and how often. */
module ChainAttempts {
  import opened Lineage
  import opened ChainTypes
  import opened Reducer
  import opened Replan
  import opened PlanSurgery
  import opened Journal
  import opened Activities
  import opened ChainLoop
  import opened ChainInvariant
  import opened ChainTurn
  import opened ChainTermination
  import opened ChainTheorems
  import opened ChainGuarantees
  import opened ChainResume
  import opened ChainReentry
  import opened ChainLaunches
  import opened ChainSeals
  import opened ChainBudgets
  import opened ChainGrant

  // ---- The node that is dispatched ----

  predicate MayRun(r: ChainRecord, n: PlanNode) {
    n.id !in r.nodeOutcomes && DependenciesSucceeded(r, n)
  }

  /** No node before position `f` may be dispatched. */
  predicate NoneBefore(r: ChainRecord, f: nat) {
    f <= |r.plan.nodes| && forall i :: 0 <= i < f ==> !MayRun(r, r.plan.nodes[i])
  }

  lemma {:induction false} FirstOfBoth(nodes: seq<PlanNode>, p: PlanNode -> bool, q: PlanNode -> bool, f: nat)
    requires f < |nodes| && p(nodes[f]) && q(nodes[f]) && forall i :: 0 <= i < f ==> !(p(nodes[i]) && q(nodes[i]))
    ensures Filter(Filter(nodes, p), q) != [] && Filter(Filter(nodes, p), q)[0] == nodes[f]
  {
    var rest := Filter(nodes[1..], p);
    if f == 0 {
      assert Filter(nodes, p) == [nodes[0]] + rest;
    } else {
      FirstOfBoth(nodes[1..], p, q, f - 1);
      if p(nodes[0]) {
        assert Filter(nodes, p) == [nodes[0]] + rest && ([nodes[0]] + rest)[1..] == rest;
      } else {
        assert Filter(nodes, p) == rest;
      }
    }
  }

  /** The first node that may be dispatched is. */
  lemma FrontIsDispatched(r: ChainRecord, f: nat)
    requires f < |r.plan.nodes| && MayRun(r, r.plan.nodes[f]) && NoneBefore(r, f)
    ensures Dispatchable(r) != [] && Dispatchable(r)[0] == r.plan.nodes[f]
  {
    var done := SucceededIds(r);
    assert forall d :: d in done <==> SealedWith(r, d, Success);
    var p := (n: PlanNode) => n.id !in done && forall d :: d in n.dependsOn ==> d in done;
    var q := (n: PlanNode) => n.id !in r.nodeOutcomes;
    forall i | 0 <= i < |r.plan.nodes|
      ensures p(r.plan.nodes[i]) && q(r.plan.nodes[i]) <==> MayRun(r, r.plan.nodes[i])
    {
    }
    FirstOfBoth(r.plan.nodes, p, q, f);
    assert Dispatchable(r) == Filter(Filter(r.plan.nodes, p), q);
  }

  lemma DispatchedIsFront(r: ChainRecord) returns (f: nat)
    requires Dispatchable(r) != []
    ensures f < |r.plan.nodes| && MayRun(r, r.plan.nodes[f]) && NoneBefore(r, f) && Dispatchable(r)[0] == r.plan.nodes[f]
  {
    var n := Dispatchable(r)[0];
    DispatchableMeaning(r, n);
    var k :| 0 <= k < |r.plan.nodes| && r.plan.nodes[k] == n;
    hide Dispatchable;
    f := FirstThatMayRun(r, k);
    FrontIsDispatched(r, f);
  }

  lemma {:induction false} FirstThatMayRun(r: ChainRecord, k: nat) returns (f: nat)
    requires k < |r.plan.nodes| && MayRun(r, r.plan.nodes[k])
    ensures f < |r.plan.nodes| && MayRun(r, r.plan.nodes[f]) && NoneBefore(r, f)
    decreases k
  {
    hide MayRun;
    if i :| 0 <= i < k && MayRun(r, r.plan.nodes[i]) {
      f := FirstThatMayRun(r, i);
    } else {
      f := k;
    }
  }

  // ---- A retry goes first ----

  /** A failure leaves the node ready but for its seal, and nothing before it. */
  lemma FoldedFront(input: ChainInput, oracle: Oracle, s: LoopState, f: nat)
    requires f < |s.record.plan.nodes| && UniqueIds(s.record.plan)
    requires MayRun(s.record, s.record.plan.nodes[f]) && NoneBefore(s.record, f)
    requires DeriveNodeOutcome(RunChild(input, oracle, s, s.record.plan.nodes[f].id).report).status == Failed
    ensures var n := s.record.plan.nodes[f]; var r := FoldNode(input, s, n.id, RunChild(input, oracle, s, n.id)).record;
            r.plan == s.record.plan && SealedWith(r, n.id, Failed) && DependenciesSucceeded(r, n) && NoneBefore(r, f)
  {
    hide FoldNode, RunChild, UniqueIds;
    var n := s.record.plan.nodes[f];
    var child := RunChild(input, oracle, s, n.id);
    FoldedOutcomes(input, s, n.id, child);
    var r := FoldNode(input, s, n.id, child).record;
    assert forall d :: SealedWith(r, d, Success) == SealedWith(s.record, d, Success);
    SameSuccesses(s.record, r);
    forall i | 0 <= i < f
      ensures !MayRun(r, r.plan.nodes[i])
    {
      assert !MayRun(s.record, s.record.plan.nodes[i]);
    }
  }

  lemma SameSuccesses(r: ChainRecord, t: ChainRecord)
    requires forall d :: SealedWith(t, d, Success) == SealedWith(r, d, Success)
    ensures forall n :: DependenciesSucceeded(t, n) == DependenciesSucceeded(r, n)
  {
    hide SealedWith;
  }

  /** The spliced-in node stands in the failed one's position, ready and first. */
  lemma SplicedFront(r: ChainRecord, h: ChainRecord, f: nat, w: string)
    requires f < |r.plan.nodes| && SplicedRecord(r, h, f, w) && w !in r.nodeOutcomes && UniqueIds(r.plan)
    requires SealedWith(r, r.plan.nodes[f].id, Failed) && DependenciesSucceeded(r, r.plan.nodes[f]) && NoneBefore(r, f)
    ensures MayRun(h, h.plan.nodes[f]) && NoneBefore(h, f) && h.plan.nodes[f].id == w
  {
    hide DependenciesSucceeded, Rewire;
    RetryReadiness(r, h, r.plan.nodes[f], h.plan.nodes[f]);
    forall i | 0 <= i < f
      ensures !MayRun(h, h.plan.nodes[i])
    {
      OtherReadiness(r, h, r.plan.nodes[i], h.plan.nodes[i], r.plan.nodes[f].id, w);
      assert !MayRun(r, r.plan.nodes[i]);
    }
  }

  lemma AfterFailureFront(input: ChainInput, s: LoopState, f: nat, reason: Option<string>)
    requires RecordInv(input.chainId, s.record) && f < |s.record.plan.nodes|
    requires SealedWith(s.record, s.record.plan.nodes[f].id, Failed) && s.record.status == DeriveChainStatus(s.record)
    requires DependenciesSucceeded(s.record, s.record.plan.nodes[f]) && NoneBefore(s.record, f)
    ensures var id := s.record.plan.nodes[f].id; var t := AfterFailure(input, s, id, reason);
            t.record.status == Running ==>
              && Dispatching(t) && Dispatched(t).id == NextRetry(s.record, id)
              && LineageRoot(NextRetry(s.record, id)) == LineageRoot(id)
  {
    hide RecordInv, LiveFailures, SpliceRetry, SplicedRecord, LineageFailures, LineageRoot, BuildRetryPlan, BuildReplanBrief;
    hide Dispatchable, DependenciesSucceeded, NoneBefore, MayRun;
    var id := s.record.plan.nodes[f].id;
    var decision := DecideReplan(s.record, id, LoopBounds(input));
    IdAtIsIn(s.record.plan, f);
    NextRetryRoot(s.record, id);
    if decision.GrantReplan? {
      var h := SpliceRetry(s, id, decision, reason).record;
      SpliceEffect(input, s, f, decision, reason);
      SplicedActive(input.chainId, s.record, h, f);
      HasUniqueIds(input.chainId, s.record);
      SplicedFront(s.record, h, f, NextRetry(s.record, id));
      SameSize(s.record, h, f);
      FrontIsDispatched(h, f);
    }
  }

  lemma HasUniqueIds(chainId: string, r: ChainRecord)
    requires RecordInv(chainId, r)
    ensures UniqueIds(r.plan)
  {
    RootsGiveUniqueIds(r.plan);
  }

  lemma NextRetryRoot(r: ChainRecord, id: string)
    ensures LineageRoot(NextRetry(r, id)) == LineageRoot(id)
  {
    hide LineageRoot;
    RetryStrips(id, |LineageFailures(r, LineageRoot(id))|);
  }

  lemma SameSize(r: ChainRecord, h: ChainRecord, f: nat)
    requires f < |r.plan.nodes| && SplicedRecord(r, h, f, NextRetry(r, r.plan.nodes[f].id))
    ensures |h.plan.nodes| == |r.plan.nodes|
  {
  }

  /** While the chain goes on after a failure, the very next node it dispatches is the retry. */
  lemma RetryGoesFirst(input: ChainInput, oracle: Oracle, s: LoopState, reopened: set<string>)
    requires Journaled(input, s, reopened) && Decides(input, oracle, s) && Turn(input, oracle, s).record.status == Running
    ensures var t := Turn(input, oracle, s);
            && Dispatching(t) && Dispatched(t).id == NextRetry(DecidedOn(input, oracle, s), Dispatched(s).id)
            && LineageRoot(Dispatched(t).id) == LineageRoot(Dispatched(s).id)
  {
    var f := DispatchedIsFront(s.record);
    var n := Dispatched(s);
    var child := RunChild(input, oracle, s, n.id);
    HasUniqueIds(input.chainId, s.record);
    FoldedFront(input, oracle, s, f);
    FoldKeepsJournal(input, oracle, s, n, reopened);
    FoldIsReady(input, oracle, s, n);
    hide RecordInv, StoreInv, FoldNode, RunChild, AfterFailure, Dispatchable, MayRun, NoneBefore, DependenciesSucceeded;
    hide DeriveChainStatus, LineageRoot, NextRetry, UniqueIds;
    AfterFailureFront(input, FoldNode(input, s, n.id, child), f, child.report.reason);
  }

  // ---- Whether a lineage is attempted, and how often ----

  /** Turn `k` dispatches a node of the lineage. */
  ghost predicate Attempts(input: ChainInput, oracle: Oracle, s: LoopState, root: string, k: nat) {
    Dispatching(StateAt(input, oracle, s, k)) && LineageRoot(Dispatched(StateAt(input, oracle, s, k)).id) == root
  }

  ghost predicate AttemptedOnce(input: ChainInput, oracle: Oracle, s: LoopState, root: string) {
    exists j: nat ::
      && Attempts(input, oracle, s, root, j)
      && forall k: nat :: Attempts(input, oracle, s, root, k) ==> k == j
  }

  ghost predicate EverAttempted(input: ChainInput, oracle: Oracle, s: LoopState, root: string) {
    exists j: nat :: Attempts(input, oracle, s, root, j)
  }

  /** Whatever the children do, the lineage is dispatched. */
  ghost predicate AlwaysAttempted(input: ChainInput, s: LoopState, root: string) {
    forall oracle: Oracle :: EverAttempted(input, oracle, s, root)
  }

  /** Whatever the children do, the lineage is dispatched exactly once. */
  ghost predicate AlwaysAttemptedOnce(input: ChainInput, s: LoopState, root: string) {
    forall oracle: Oracle :: AttemptedOnce(input, oracle, s, root)
  }

  /** If every child dies the run never leaves the lineage it starts with. */
  lemma {:induction false} DeathStaysInLineage(input: ChainInput, s: LoopState, k: nat, reopened: set<string>)
    requires Journaled(input, s, reopened) && Dispatching(StateAt(input, AllDie(), s, k))
    ensures Dispatching(s)
    ensures LineageRoot(Dispatched(StateAt(input, AllDie(), s, k)).id) == LineageRoot(Dispatched(s).id)
  {
    hide Turn, Journaled, Dispatchable, AllDie, LineageRoot, NextRetry, DecidedOn;
    if k > 0 {
      var a := StateAt(input, AllDie(), s, k - 1);
      RunKeepsJournal(input, AllDie(), s, k - 1, reopened);
      if !Dispatching(a) {
        TurnWithoutWork(input, AllDie(), a);
        assert false;
      }
      DeathDecides(input, a);
      RetryGoesFirst(input, AllDie(), a, reopened);
      DeathStaysInLineage(input, s, k - 1, reopened);
    }
  }

  /** An active unsealed node's lineage is always attempted if and only if that node is dispatched first. */
  lemma AttemptedMeansFirst(input: ChainInput, s: LoopState, w: string, reopened: set<string>)
    requires Journaled(input, s, reopened) && w in NodeIds(s.record.plan)
    ensures AlwaysAttempted(input, s, LineageRoot(w)) <==> Dispatching(s) && Dispatched(s).id == w
  {
    hide StateAt, Dispatchable, AllDie, LineageRoot, StoreInv, NodeIds;
    if AlwaysAttempted(input, s, LineageRoot(w)) {
      assert EverAttempted(input, AllDie(), s, LineageRoot(w));
      var j: nat :| Attempts(input, AllDie(), s, LineageRoot(w), j);
      DeathStaysInLineage(input, s, j, reopened);
      UnsealedWhenDispatched(s);
      OneActivePerLineage(s.record.plan, Dispatched(s).id, w);
    }
    if Dispatching(s) && Dispatched(s).id == w {
      forall oracle: Oracle
        ensures EverAttempted(input, oracle, s, LineageRoot(w))
      {
        NoTurnYet(input, oracle, s);
        assert Attempts(input, oracle, s, LineageRoot(w), 0);
      }
    }
  }

  lemma OnceIsOften(input: ChainInput, s: LoopState, root: string)
    ensures AlwaysAttemptedOnce(input, s, root) ==> AlwaysAttempted(input, s, root)
  {
    hide Attempts;
    if AlwaysAttemptedOnce(input, s, root) {
      forall oracle: Oracle
        ensures EverAttempted(input, oracle, s, root)
      {
        assert AttemptedOnce(input, oracle, s, root);
      }
    }
  }

  /** ...and always exactly once if and only if, besides, no replan is left for it. */
  lemma OnceMeansLast(input: ChainInput, s: LoopState, w: string, reopened: set<string>)
    requires Journaled(input, s, reopened) && s.record.status == Running
    requires w in NodeIds(s.record.plan) && w !in s.record.nodeOutcomes
    ensures AlwaysAttemptedOnce(input, s, LineageRoot(w)) <==>
            Dispatching(s) && Dispatched(s).id == w && NoReplan(input, s.record, w)
  {
    var root := LineageRoot(w);
    hide StateAt, Dispatchable, AllDie, LineageRoot, Journaled, NodeIds, NoReplan, AlwaysAttempted, AlwaysAttemptedOnce;
    hide AttemptedOnce, Attempts;
    OnceIsOften(input, s, root);
    AttemptedMeansFirst(input, s, w, reopened);
    if Dispatching(s) && Dispatched(s).id == w {
      if NoReplan(input, s.record, w) {
        FirstAndLast(input, s, w, reopened);
      } else {
        FirstNotLast(input, s, w, reopened);
      }
    }
  }

  lemma FirstAndLast(input: ChainInput, s: LoopState, w: string, reopened: set<string>)
    requires Journaled(input, s, reopened) && Dispatching(s) && Dispatched(s).id == w
    requires w in NodeIds(s.record.plan) && w !in s.record.nodeOutcomes && NoReplan(input, s.record, w)
    ensures AlwaysAttemptedOnce(input, s, LineageRoot(w))
  {
    hide StateAt, Dispatchable, LineageRoot, Journaled, NodeIds, NoReplan;
    forall oracle: Oracle
      ensures AttemptedOnce(input, oracle, s, LineageRoot(w))
    {
      NoTurnYet(input, oracle, s);
      assert Attempts(input, oracle, s, LineageRoot(w), 0);
      forall k: nat | Attempts(input, oracle, s, LineageRoot(w), k)
        ensures k == 0
      {
        DispatchedOnce(input, oracle, s, w, 0, k, reopened);
      }
    }
  }

  lemma FirstNotLast(input: ChainInput, s: LoopState, w: string, reopened: set<string>)
    requires Journaled(input, s, reopened) && Dispatching(s) && Dispatched(s).id == w && !NoReplan(input, s.record, w)
    ensures !AlwaysAttemptedOnce(input, s, LineageRoot(w))
  {
    var root := LineageRoot(w);
    hide Turn, Dispatchable, LineageRoot, Journaled, NoReplan, AllDie, NextRetry, DecidedOn, StateAt;
    NoTurnYet(input, AllDie(), s);
    NextState(input, AllDie(), s, 0);
    DeathDecides(input, s);
    FailureTurn(input, AllDie(), s, reopened);
    RetryGoesFirst(input, AllDie(), s, reopened);
    assert Attempts(input, AllDie(), s, root, 0) && Attempts(input, AllDie(), s, root, 1);
    assert !AttemptedOnce(input, AllDie(), s, root);
  }

  // ---- Read off the record before the resume ----

  /** The healed node is the first in plan order that may start. */
  ghost predicate FirstUp(r: ChainRecord, z: string) {
    exists f :: 0 <= f < |r.plan.nodes| && r.plan.nodes[f].id == z && StartsFirst(r, f)
  }

  ghost predicate StartsFirst(r: ChainRecord, f: nat)
    requires f < |r.plan.nodes|
  {
    MayStart(r, r.plan.nodes[f]) && forall i :: 0 <= i < f ==> !MayStart(r, r.plan.nodes[i])
  }

  /** Position by position, what may start before the resume may run after it, and the healed node keeps its place. */
  ghost predicate HealedInPlace(r: ChainRecord, h: ChainRecord, z: string, w: string) {
    && |h.plan.nodes| == |r.plan.nodes|
    && forall i :: 0 <= i < |r.plan.nodes| ==>
         && (MayRun(h, h.plan.nodes[i]) <==> MayStart(r, r.plan.nodes[i]))
         && (h.plan.nodes[i].id == w <==> r.plan.nodes[i].id == z)
  }

  lemma InPlaceMeansFirstUp(r: ChainRecord, h: ChainRecord, z: string, w: string)
    requires HealedInPlace(r, h, z, w)
    ensures Dispatchable(h) != [] && Dispatchable(h)[0].id == w <==> FirstUp(r, z)
  {
    hide Dispatchable, MayRun, MayStart;
    if Dispatchable(h) != [] && Dispatchable(h)[0].id == w {
      var f := DispatchedIsFront(h);
      assert StartsFirst(r, f);
    }
    if FirstUp(r, z) {
      var f :| 0 <= f < |r.plan.nodes| && r.plan.nodes[f].id == z && StartsFirst(r, f);
      FrontIsDispatched(h, f);
    }
  }

  lemma MayRunMeansDispatchable(h: ChainRecord, i: nat)
    requires i < |h.plan.nodes|
    ensures MayRun(h, h.plan.nodes[i]) <==> h.plan.nodes[i] in Dispatchable(h)
  {
    DispatchableMeaning(h, h.plan.nodes[i]);
  }

  lemma ReenteredInPlace(r: ChainRecord, z: string)
    requires SealedWith(r, z, Failed) && FirstFailed(r, r.plan.nodes) == Some(z)
    ensures HealedInPlace(r, WithoutNode(r, z), z, z)
  {
    var h := WithoutNode(r, z);
    hide Dispatchable, MayRun, MayStart, FirstFailed;
    forall i | 0 <= i < |r.plan.nodes|
      ensures MayRun(h, h.plan.nodes[i]) <==> MayStart(r, r.plan.nodes[i])
    {
      MayRunMeansDispatchable(h, i);
      ReenteredNode(r, h, z, r.plan.nodes[i]);
    }
  }

  lemma ReplacedInPlace(r: ChainRecord, h: ChainRecord, f: nat, w: string)
    requires f < |r.plan.nodes| && UniqueIds(r.plan) && SplicedRecord(r, h, f, w) && w !in r.nodeOutcomes
    requires w !in NodeIds(r.plan)
    requires var z := r.plan.nodes[f].id; SealedWith(r, z, Failed) && FirstFailed(r, r.plan.nodes) == Some(z)
    ensures HealedInPlace(r, h, r.plan.nodes[f].id, w)
  {
    hide Dispatchable, MayRun, MayStart, FirstFailed, Rewire, NodeIds;
    forall i | 0 <= i < |r.plan.nodes|
      ensures MayRun(h, h.plan.nodes[i]) <==> MayStart(r, r.plan.nodes[i])
      ensures h.plan.nodes[i].id == w <==> r.plan.nodes[i].id == r.plan.nodes[f].id
    {
      MayRunMeansDispatchable(h, i);
      ReplacedNode(r, h, f, w, i);
      IdAtIsIn(r.plan, i);
    }
  }

  lemma HealedFirst(chainId: string, r: ChainRecord, h: ChainRecord, lastReport: ChildReport, z: string)
    requires RecordInv(chainId, r) && HealedTo(r, h, lastReport) && FirstFailed(r, r.plan.nodes) == Some(z)
    ensures Dispatchable(h) != [] && Dispatchable(h)[0].id == Attempted(r, z, lastReport) <==> FirstUp(r, z)
  {
    hide RecordInv, SplicedRecord, NextRetry, Dispatchable, FirstUp, HealedInPlace, FirstFailed, NodeIds;
    var w := Attempted(r, z, lastReport);
    if Reenters(r, z, lastReport) {
      ReenteredInPlace(r, z);
    } else {
      var f: nat :| f < |r.plan.nodes| && r.plan.nodes[f].id == z && SplicedRecord(r, h, f, NextRetry(r, z));
      IdAtIsIn(r.plan, f);
      HasUniqueIds(chainId, r);
      SplicedActive(chainId, r, h, f);
      RetryIsFresh(chainId, r, z);
      RetryIsNextId(r, z);
      ReplacedInPlace(r, h, f, w);
    }
    InPlaceMeansFirstUp(r, h, z, w);
  }

  /** A resume's grant to the lineage of the healed node, exactly. The lineage is dispatched, whatever the children do, if and
      only if the healed node is the first that may start on the record the resume read; and it is dispatched exactly once if
      and only if, besides, no replan is left for it there. */
  lemma GrantIsOneAttempt(input: ChainInput, store: Store, lastReport: ChildReport, z: string)
    requires Restorable(input.chainId, store) && FirstFailed(JournalRecord(store), JournalRecord(store).plan.nodes) == Some(z)
    ensures var r, s := JournalRecord(store), Start(input, store, lastReport);
            && (AlwaysAttempted(input, s, LineageRoot(z)) <==> FirstUp(r, z))
            && (AlwaysAttemptedOnce(input, s, LineageRoot(z)) <==> FirstUp(r, z) && NoReplanLeft(input, r, z, lastReport))
  {
    var r, s := JournalRecord(store), Start(input, store, lastReport);
    var w, reopened := Attempted(r, z, lastReport), ReenteredIds(r, lastReport);
    StoredRecord(input.chainId, store);
    RestartKeepsJournal(input, store, lastReport);
    hide Start, Restorable, Journaled, Stale, Standing, Unsealed, JournalRecord, Attempted, ReenteredIds, HealedTo, RecordInv;
    hide NoReplan, NoReplanLeft, FirstFailed, NodeIds, Dispatchable, LineageRoot, AlwaysAttempted, AlwaysAttemptedOnce, FirstUp;
    hide AnyFailed;
    GrantStarts(input, store, lastReport, z);
    HealedFirst(input.chainId, r, s.record, lastReport, z);
    AttemptedMeansFirst(input, s, w, reopened);
    OnceMeansLast(input, s, w, reopened);
  }

  // ---- All launches ----

  /** While the budget per node is never raised and the ceilings are ample: a launch's grant is exactly one attempt, whatever
      the children do, if and only if the healed node is the first that may start. */
  lemma {:induction false} EveryGrantIsOneAttempt(ls: seq<Launch>, z: string)
    requires OneChain(ls) && SteadyBudgets(ls) && |ls| > 1 && StoreBefore(ls).row.Some?
    requires FirstFailed(JournalRecord(StoreBefore(ls)), JournalRecord(StoreBefore(ls)).plan.nodes) == Some(z)
    ensures AlwaysAttemptedOnce(ls[|ls| - 1].input, StartOf(ls), LineageRoot(z)) <==> FirstUp(JournalRecord(StoreBefore(ls)), z)
  {
    var l := ls[|ls| - 1];
    hide *;
    LaterParts(ls);
    Handover(ls);
    StoredRecord(l.input.chainId, StoreBefore(ls));
    FailedHasSpentItsBudget(ls, 0);
    NothingLeft(l.input, JournalRecord(StoreBefore(ls)), z, l.lastReport);
    GrantIsOneAttempt(l.input, StoreBefore(ls), l.lastReport, z);
  }

  /** A run that has ended with a FAILED node ended right when that node, then the first that could be dispatched, failed. */
  ghost predicate HaltedFirst(s: LoopState) {
    s.record.status != Running && AnyFailed(s.record) ==>
      exists z :: FirstFailed(s.record, s.record.plan.nodes) == Some(z) && FirstUp(s.record, z)
  }

  lemma OnlyFailure(r: ChainRecord, z: string)
    requires LiveFailures(r) == {z}
    ensures FirstFailed(r, r.plan.nodes) == Some(z)
  {
    NoFailureNoHeal(r);
    FirstFailedIsActive(r);
    LiveFailureMeaning(r, FirstFailed(r, r.plan.nodes).value);
  }

  lemma FailedWasFirst(r: ChainRecord, f: nat)
    requires f < |r.plan.nodes| && UniqueIds(r.plan) && LiveFailures(r) == {r.plan.nodes[f].id}
    requires DependenciesSucceeded(r, r.plan.nodes[f]) && NoneBefore(r, f)
    ensures FirstFailed(r, r.plan.nodes) == Some(r.plan.nodes[f].id) && FirstUp(r, r.plan.nodes[f].id)
  {
    hide DependenciesSucceeded, LiveFailures, FirstFailed;
    OnlyFailure(r, r.plan.nodes[f].id);
    forall i | 0 <= i < f
      ensures !MayStart(r, r.plan.nodes[i])
    {
      assert !MayRun(r, r.plan.nodes[i]);
    }
    assert StartsFirst(r, f);
  }

  lemma TurnHaltsFirst(input: ChainInput, oracle: Oracle, s: LoopState, reopened: set<string>)
    requires Inv(input, s, reopened) && HaltedFirst(s)
    ensures HaltedFirst(Turn(input, oracle, s))
  {
    var t := Turn(input, oracle, s);
    if s.record.status == Running {
      InvIsCalm(input, s, reopened);
      hide StatusInv, HaltedFirst, Dispatchable, AnyFailed, LiveFailures;
      if Decides(input, oracle, s) {
        FailureHaltsFirst(input, oracle, s, reopened);
      } else {
        CalmTurn(input, oracle, s);
        CalmIsHalted(t);
      }
    }
  }

  lemma InvIsCalm(input: ChainInput, s: LoopState, reopened: set<string>)
    requires Inv(input, s, reopened) && s.record.status == Running
    ensures LiveFailures(s.record) == {}
  {
    CalmWhileRunning(s.record);
    forall y
      ensures y !in LiveFailures(s.record)
    {
      assert !Troubled(s.record, y);
    }
  }

  lemma CalmIsHalted(s: LoopState)
    requires LiveFailures(s.record) == {}
    ensures HaltedFirst(s)
  {
    NoFailureNoHeal(s.record);
  }

  lemma CalmTurn(input: ChainInput, oracle: Oracle, s: LoopState)
    requires LiveFailures(s.record) == {} && !Decides(input, oracle, s)
    ensures LiveFailures(Turn(input, oracle, s).record) == {}
  {
    hide RunChild, LiveFailures, Dispatchable, FoldNode;
    if Dispatching(s) {
      FoldAddsFailure(input, s, Dispatched(s), RunChild(input, oracle, s, Dispatched(s).id));
    } else {
      LiveFailuresIgnoreStatus(s.record, Turn(input, oracle, s).record);
    }
  }

  /** What a failure leaves to be decided, where nothing else is FAILED. */
  ghost predicate FailedAt(chainId: string, r: ChainRecord, f: nat) {
    && RecordInv(chainId, r) && f < |r.plan.nodes| && SealedWith(r, r.plan.nodes[f].id, Failed)
    && LiveFailures(r) == {r.plan.nodes[f].id} && r.status == DeriveChainStatus(r)
    && DependenciesSucceeded(r, r.plan.nodes[f]) && NoneBefore(r, f)
  }

  lemma FailureIsAt(input: ChainInput, oracle: Oracle, s: LoopState, reopened: set<string>) returns (f: nat)
    requires Journaled(input, s, reopened) && Decides(input, oracle, s) && LiveFailures(s.record) == {}
    ensures var r := DecidedOn(input, oracle, s); FailedAt(input.chainId, r, f) && r.plan.nodes[f] == Dispatched(s)
  {
    hide RecordInv, StoreInv, FoldNode, RunChild, Dispatchable, MayRun, NoneBefore, DependenciesSucceeded, NodeIds;
    hide DeriveChainStatus, UniqueIds, LiveFailures, DeriveNodeOutcome;
    var n := Dispatched(s);
    f := DispatchedIsFront(s.record);
    HasUniqueIds(input.chainId, s.record);
    FoldedFront(input, oracle, s, f);
    FoldKeepsJournal(input, oracle, s, n, reopened);
    FoldIsReady(input, oracle, s, n);
    FoldAddsFailure(input, s, n, RunChild(input, oracle, s, n.id));
    assert {} + {n.id} == {n.id};
  }

  lemma HaltIsFirst(input: ChainInput, s: LoopState, n: PlanNode, f: nat, reason: Option<string>)
    requires FailedAt(input.chainId, s.record, f) && n == s.record.plan.nodes[f]
    ensures HaltedFirst(AfterFailure(input, s, n.id, reason))
  {
    hide RecordInv, DependenciesSucceeded, NoneBefore, DeriveChainStatus, NextRetry, LiveFailures, AfterFailure, DecideReplan;
    hide FirstUp, FirstFailed, AnyFailed, NodeIds, LineageRoot;
    HasUniqueIds(input.chainId, s.record);
    FailedWasFirst(s.record, f);
    AfterFailureOutcome(input, s, n, reason);
  }

  lemma FailureHaltsFirst(input: ChainInput, oracle: Oracle, s: LoopState, reopened: set<string>)
    requires Journaled(input, s, reopened) && Decides(input, oracle, s) && LiveFailures(s.record) == {}
    ensures HaltedFirst(Turn(input, oracle, s))
  {
    var f := FailureIsAt(input, oracle, s, reopened);
    var n := Dispatched(s);
    var child := RunChild(input, oracle, s, n.id);
    hide FailedAt, FoldNode, RunChild, AfterFailure, Dispatchable, HaltedFirst, LiveFailures, Journaled;
    HaltIsFirst(input, FoldNode(input, s, n.id, child), n, f, child.report.reason);
  }

  lemma {:induction false} RunHaltsFirst(input: ChainInput, oracle: Oracle, s: LoopState, k: nat, reopened: set<string>)
    requires Inv(input, s, reopened) && HaltedFirst(s)
    ensures HaltedFirst(StateAt(input, oracle, s, k))
  {
    hide Turn, Inv, HaltedFirst;
    if k > 0 {
      RunHaltsFirst(input, oracle, s, k - 1, reopened);
      RunKeepsInv(input, oracle, s, k - 1, reopened);
      TurnHaltsFirst(input, oracle, StateAt(input, oracle, s, k - 1), reopened);
    }
  }
  lemma StartHaltsFirst(input: ChainInput, store: Store, lastReport: ChildReport)
    requires Restorable(input.chainId, store)
    ensures HaltedFirst(Start(input, store, lastReport))
  {
    var r, s := JournalRecord(store), Start(input, store, lastReport);
    RestartKeepsJournal(input, store, lastReport);
    hide Start, Journaled, Stale, Standing, Unsealed, Restorable, JournalRecord, AcyclicPlan, RecordInv, DeriveChainStatus;
    hide SplicedRecord, NextRetry, ReenteredIds, FirstUp;
    if !AnyFailed(r) {
      NoFailureNoHeal(r);
      FailuresIgnoreStatus(r, s.record);
    }
  }

  lemma {:induction false} EveryStartHaltsFirst(ls: seq<Launch>)
    requires OneChain(ls)
    ensures HaltedFirst(StartOf(ls))
  {
    if |ls| == 1 {
      hide *;
      FirstParts(ls);
      NothingFailed(StartOf(ls).record, ls[0].input.plan);
      CalmIsHalted(StartOf(ls));
    } else {
      var l := ls[|ls| - 1];
      hide *;
      LaterParts(ls);
      Handover(ls);
      StartHaltsFirst(l.input, StoreBefore(ls), l.lastReport);
    }
  }

  /** The re-entered nodes of all launches before the last were sealed as before; so it is where nothing was re-entered. */
  ghost predicate AlikeBefore(ls: seq<Launch>) {
    forall i :: 1 <= i < |ls| ==> SealedAlike(EndOf(ls[..i]), ReenteredAt(ls[..i]))
  }

  lemma {:induction false} AlikeFront(ls: seq<Launch>)
    requires |ls| > 1 && AlikeBefore(ls)
    ensures AlikeBefore(ls[..|ls| - 1])
  {
    hide SealedAlike, EndOf, ReenteredAt;
    var front := ls[..|ls| - 1];
    forall i | 1 <= i < |front|
      ensures SealedAlike(EndOf(front[..i]), ReenteredAt(front[..i]))
    {
      assert front[..i] == ls[..i];
    }
  }

  lemma {:induction false} AlikeEndHaltsFirst(ls: seq<Launch>)
    requires OneChain(ls) && AlikeBefore(ls)
    ensures HaltedFirst(EndOf(ls))
  {
    var l := ls[|ls| - 1];
    hide HaltedFirst, Inv, StartOf, EndOf, OneChain, SealedAlike, ReenteredAt, StateAt, DispatchBound, Unsealed, SealIsExact;
    hide SealedInOrder, StoreBefore, Finish, ChainRecordOf, AnyFailed;
    EveryIncarnation(ls);
    EveryStartHaltsFirst(ls);
    EndIsState(ls);
    RunHaltsFirst(l.input, l.oracle, StartOf(ls), DispatchBound(l.input, StartOf(ls).record) + 1, ReenteredAt(ls));
  }

  lemma FirstUpIgnoresStatus(r: ChainRecord, t: ChainRecord, z: string)
    requires t == r.(status := t.status) && FirstUp(r, z)
    ensures FirstUp(t, z)
  {
    FirstFailedIgnoresStatus(r, t, r.plan.nodes);
    hide FirstFailed;
    assert forall d :: SealedWith(t, d, Success) == SealedWith(r, d, Success);
    SameSuccesses(r, t);
    hide DependenciesSucceeded;
    var f :| 0 <= f < |r.plan.nodes| && r.plan.nodes[f].id == z && StartsFirst(r, f);
    forall i | 0 <= i < |r.plan.nodes|
      ensures MayStart(t, t.plan.nodes[i]) == MayStart(r, r.plan.nodes[i])
    {
    }
    hide MayStart;
    assert StartsFirst(t, f);
  }

  lemma RecordHaltsFirst(s: LoopState, r: ChainRecord, z: string)
    requires HaltedFirst(s) && s.record.status != Running && r == s.record.(status := r.status)
    requires FirstFailed(r, r.plan.nodes) == Some(z)
    ensures FirstUp(r, z)
  {
    FirstFailedIgnoresStatus(s.record, r, r.plan.nodes);
    NoFailureNoHeal(s.record);
    hide FirstFailed, FirstUp, AnyFailed, LiveFailures;
    FirstUpIgnoresStatus(s.record, r, z);
  }

  /** In a chain whose re-entered nodes were all sealed as before, or that re-entered none, the node a launch heals is always
      the first that may start; with steady budgets its grant is exactly one attempt, whatever the children do. */
  lemma {:induction false} AlikeGrantIsOneAttempt(ls: seq<Launch>, z: string)
    requires OneChain(ls) && AlikeBefore(ls) && |ls| > 1 && StoreBefore(ls).row.Some?
    requires FirstFailed(JournalRecord(StoreBefore(ls)), JournalRecord(StoreBefore(ls)).plan.nodes) == Some(z)
    ensures FirstUp(JournalRecord(StoreBefore(ls)), z)
    ensures AlwaysAttempted(ls[|ls| - 1].input, StartOf(ls), LineageRoot(z))
    ensures SteadyBudgets(ls) ==> AlwaysAttemptedOnce(ls[|ls| - 1].input, StartOf(ls), LineageRoot(z))
  {
    var l, front, r := ls[|ls| - 1], ls[..|ls| - 1], JournalRecord(StoreBefore(ls));
    AlikeRecord(ls);
    hide *;
    LaterParts(ls);
    Handover(ls);
    AlikeFront(ls);
    AlikeEndHaltsFirst(front);
    EndIsLeft(front);
    RecordHaltsFirst(EndOf(front), r, z);
    GrantIsOneAttempt(l.input, StoreBefore(ls), l.lastReport, z);
    if SteadyBudgets(ls) { EveryGrantIsOneAttempt(ls, z); }
  }

  lemma {:induction false} AlikeRecord(ls: seq<Launch>)
    requires OneChain(ls) && AlikeBefore(ls) && |ls| > 1 && StoreBefore(ls).row.Some?
    ensures var r, live := JournalRecord(StoreBefore(ls)), EndOf(ls[..|ls| - 1]).record; r == live.(status := r.status)
  {
    hide Inv, StartOf, EndOf, OneChain, SealedAlike, ReenteredAt, Unsealed, SealIsExact, SealedInOrder, StoreBefore, Finish;
    hide ChainRecordOf, AnyFailed;
    EveryIncarnation(ls);
  }
}
