/** What an operator's resume buys a lineage: one attempt, or as many as its budget has left. */
module ChainGrant {
  import opened Lineage
  import opened ChainTypes
  import opened Reducer
  import opened Replan
  import opened PlanSurgery
  import opened Journal
  import opened Activities
  import opened ChainLoop
  import opened ChainInvariant
  import opened ChainTurn
  import opened ChainTermination
  import opened ChainTheorems
  import opened ChainGuarantees
  import opened ChainResume
  import opened ChainReentry
  import opened ChainLaunches
  import opened ChainSeals
  import opened ChainBudgets

  // ---- What a failure of one node would find ----

  /** A failure of the active node `w` gets no retry: its lineage's budget is spent, or the nodes that are FAILED already fill
      the chain-wide ceiling. */
  predicate NoReplan(input: ChainInput, r: ChainRecord, w: string) {
    || |Spent(r, w)| >= Bounded(MaxReplans(input))
    || |LiveFailures(r)| >= Bounded(LoopBounds(input).maxChain)
  }

  /** The failure of a dispatched node ends the run, resumable, if there is no replan for it; else its retry is the next
      incarnation, active and unsealed. */
  lemma FailureTurn(input: ChainInput, oracle: Oracle, s: LoopState, reopened: set<string>)
    requires Journaled(input, s, reopened) && Decides(input, oracle, s)
    ensures var t, w := Turn(input, oracle, s), Dispatched(s).id; var retry := NextRetry(DecidedOn(input, oracle, s), w);
            if NoReplan(input, s.record, w) then
              t.record.status != Running && t.resumableSeal && SealedWith(t.record, w, Failed) && t.record.plan == s.record.plan
            else
              && t.record.status == Running && retry in NodeIds(t.record.plan) && retry !in t.record.nodeOutcomes
              && LineageRoot(retry) == LineageRoot(w)
  {
    hide RecordInv, StoreInv, Dispatchable, Spent, FoldNode, AfterFailure, RunChild, DeriveChainStatus, NodeIds, LiveFailures;
    hide LineageFailures, Incarnation, Incarnations, LineageRoot, NextRetry, DecideReplan, LoopBounds, MaxReplans;
    var n := Dispatched(s);
    var child := RunChild(input, oracle, s, n.id);
    ReplanDecisionIsExact(input, oracle, s, reopened);
    FoldKeepsJournal(input, oracle, s, n, reopened);
    FoldIsReady(input, oracle, s, n);
    AfterFailureOutcome(input, FoldNode(input, s, n.id, child), n, child.report.reason);
  }

  lemma AfterFailureOutcome(input: ChainInput, s: LoopState, n: PlanNode, reason: Option<string>)
    requires RecordInv(input.chainId, s.record) && n in s.record.plan.nodes && SealedWith(s.record, n.id, Failed)
    requires s.record.status == DeriveChainStatus(s.record)
    ensures var t := AfterFailure(input, s, n.id, reason); var retry := NextRetry(s.record, n.id);
            if DecideReplan(s.record, n.id, LoopBounds(input)).GrantReplan? then
              && t.record.status == Running && retry in NodeIds(t.record.plan) && retry !in t.record.nodeOutcomes
              && LineageRoot(retry) == LineageRoot(n.id)
            else
              t.record == s.record && t.resumableSeal && t.record.status != Running
  {
    hide RecordInv, LiveFailures, SpliceRetry, SplicedRecord, LineageFailures, LineageRoot, BuildRetryPlan, BuildReplanBrief;
    var decision := DecideReplan(s.record, n.id, LoopBounds(input));
    var f :| 0 <= f < |s.record.plan.nodes| && s.record.plan.nodes[f] == n;
    IdAtIsIn(s.record.plan, f);
    RetryStrips(n.id, |LineageFailures(s.record, LineageRoot(n.id))|);
    if decision.GrantReplan? {
      SpliceEffect(input, s, f, decision, reason);
      SplicedActive(input.chainId, s.record, SpliceRetry(s, n.id, decision, reason).record, f);
    }
  }

  /** A turn that dispatches another node leaves `w` as it is. */
  lemma OtherTurn(input: ChainInput, oracle: Oracle, s: LoopState, w: string, reopened: set<string>)
    requires Journaled(input, s, reopened) && w in NodeIds(s.record.plan) && !(Dispatching(s) && Dispatched(s).id == w)
    ensures var t := Turn(input, oracle, s);
            && w in NodeIds(t.record.plan) && Spent(t.record, w) == Spent(s.record, w)
            && (w in t.record.nodeOutcomes <==> w in s.record.nodeOutcomes)
            && (w in s.record.nodeOutcomes ==> t.record.nodeOutcomes[w] == s.record.nodeOutcomes[w])
  {
    hide RecordInv, StoreInv, Dispatchable, Spent, FoldNode, AfterFailure, RunChild, NodeIds;
    if Dispatching(s) {
      var n := Dispatched(s);
      var child := RunChild(input, oracle, s, n.id);
      FoldKeepsRecord(input, s, n, child);
      FoldKeepsJournal(input, oracle, s, n, reopened);
      FoldElsewhere(input, s, n.id, child, w);
      if DeriveNodeOutcome(child.report).status == Failed {
        FailureElsewhere(input, FoldNode(input, s, n.id, child), n, child.report.reason, w);
      }
    } else {
      SpentIgnoresStatus(s.record, Turn(input, oracle, s).record.status, w);
    }
  }

  lemma FoldElsewhere(input: ChainInput, s: LoopState, id: string, child: Attended, w: string)
    requires w != id
    ensures var r := FoldNode(input, s, id, child).record;
            && (w in r.nodeOutcomes <==> w in s.record.nodeOutcomes)
            && (w in s.record.nodeOutcomes ==> r.nodeOutcomes[w] == s.record.nodeOutcomes[w])
  {
  }

  lemma FailureElsewhere(input: ChainInput, s: LoopState, n: PlanNode, reason: Option<string>, w: string)
    requires RecordInv(input.chainId, s.record) && n in s.record.plan.nodes && SealedWith(s.record, n.id, Failed)
    requires w in NodeIds(s.record.plan) && w != n.id
    ensures var r := AfterFailure(input, s, n.id, reason).record;
            w in NodeIds(r.plan) && Spent(r, w) == Spent(s.record, w) && r.nodeOutcomes == s.record.nodeOutcomes
  {
    hide RecordInv, LineageFailures, LiveFailures, Spent, SpliceRetry, NextRetry, SplicedRecord, Incarnated, NodeIds;
    hide BuildRetryPlan, BuildReplanBrief;
    var decision := DecideReplan(s.record, n.id, LoopBounds(input));
    if decision.GrantReplan? {
      var f :| 0 <= f < |s.record.plan.nodes| && s.record.plan.nodes[f] == n;
      var h := SpliceRetry(s, n.id, decision, reason).record;
      SpliceEffect(input, s, f, decision, reason);
      SplicedActive(input.chainId, s.record, h, f);
      SpliceKeepsIncarnated(input.chainId, s.record, h, f);
    }
  }

  lemma SpentIgnoresStatus(r: ChainRecord, status: ChainStatus, w: string)
    ensures Spent(r.(status := status), w) == Spent(r, w)
  {
  }

  /** Until it is sealed an active node stays active, with as many spent incarnations. */
  lemma {:induction false} UntilSealed(input: ChainInput, oracle: Oracle, s: LoopState, k: nat, w: string,
                                       reopened: set<string>)
    requires Journaled(input, s, reopened) && w in NodeIds(s.record.plan)
    ensures var t := StateAt(input, oracle, s, k);
            w !in t.record.nodeOutcomes ==> w in NodeIds(t.record.plan) && Spent(t.record, w) == Spent(s.record, w)
  {
    hide Turn, Journaled, Spent, NodeIds, Dispatchable;
    if k > 0 {
      var a := StateAt(input, oracle, s, k - 1);
      UntilSealed(input, oracle, s, k - 1, w, reopened);
      RunKeepsJournal(input, oracle, s, k - 1, reopened);
      TurnKeepsOutcomes(input, oracle, a, reopened);
      if w !in a.record.nodeOutcomes {
        if Dispatching(a) && Dispatched(a).id == w {
        } else {
          OtherTurn(input, oracle, a, w, reopened);
        }
      }
    }
  }

  // ---- The last attempt of a lineage ----

  /** While the chain runs, `w` is unsealed and would get no replan, or has succeeded. */
  ghost predicate LastAttempt(input: ChainInput, s: LoopState, w: string) {
    && w in NodeIds(s.record.plan)
    && (s.record.status == Running ==>
          if w in s.record.nodeOutcomes then SealedWith(s.record, w, Success) else NoReplan(input, s.record, w))
  }

  lemma TurnKeepsLastAttempt(input: ChainInput, oracle: Oracle, s: LoopState, w: string, reopened: set<string>)
    requires Journaled(input, s, reopened) && LastAttempt(input, s, w)
    ensures LastAttempt(input, Turn(input, oracle, s), w)
  {
    hide Turn, RunChild, Spent, LiveFailures, RecordInv, StoreInv, NodeIds, Dispatchable, MaxReplans, LoopBounds;
    var t := Turn(input, oracle, s);
    if Dispatching(s) && Dispatched(s).id == w {
      UnsealedWhenDispatched(s);
      if Decides(input, oracle, s) { FailureTurn(input, oracle, s, reopened); } else { SuccessSeals(input, oracle, s); }
    } else {
      OtherTurn(input, oracle, s, w, reopened);
      if t.record.status == Running { TurnKeepsLiveFailures(input, oracle, s, reopened); }
    }
  }

  lemma UnsealedWhenDispatched(s: LoopState)
    requires Dispatching(s)
    ensures Dispatched(s).id !in s.record.nodeOutcomes && Dispatched(s).id in NodeIds(s.record.plan)
  {
    UnsealedActive(s.record, Dispatched(s));
  }

  lemma SuccessSeals(input: ChainInput, oracle: Oracle, s: LoopState)
    requires Dispatching(s) && !Decides(input, oracle, s)
    ensures var t := Turn(input, oracle, s); SealedWith(t.record, Dispatched(s).id, Success) && t.record.plan == s.record.plan
  {
    hide RunChild, Dispatchable;
  }

  lemma {:induction false} RunKeepsLastAttempt(input: ChainInput, oracle: Oracle, s: LoopState, k: nat, w: string,
                                               reopened: set<string>)
    requires Journaled(input, s, reopened) && LastAttempt(input, s, w)
    ensures LastAttempt(input, StateAt(input, oracle, s, k), w)
  {
    hide Turn, Journaled, LastAttempt;
    if k > 0 {
      RunKeepsLastAttempt(input, oracle, s, k - 1, w, reopened);
      RunKeepsJournal(input, oracle, s, k - 1, reopened);
      TurnKeepsLastAttempt(input, oracle, StateAt(input, oracle, s, k - 1), w, reopened);
    }
  }

  lemma LineageDispatch(input: ChainInput, oracle: Oracle, s: LoopState, j: nat, w: string, reopened: set<string>)
    requires Journaled(input, s, reopened) && LastAttempt(input, s, w)
    ensures var a := StateAt(input, oracle, s, j);
            Dispatching(a) && LineageRoot(Dispatched(a).id) == LineageRoot(w) ==> Dispatched(a).id == w
  {
    hide StateAt, StoreInv, NoReplan;
    var a := StateAt(input, oracle, s, j);
    RunKeepsJournal(input, oracle, s, j, reopened);
    RunKeepsLastAttempt(input, oracle, s, j, w, reopened);
    if Dispatching(a) && LineageRoot(Dispatched(a).id) == LineageRoot(w) {
      UnsealedWhenDispatched(a);
      OneActivePerLineage(a.record.plan, Dispatched(a).id, w);
    }
  }

  // ---- The grant ----

  /** The node that stands for the healed lineage: the failed one, if its child is executed again, else its retry. */
  function Attempted(r: ChainRecord, z: string, lastReport: ChildReport): string {
    if Reenters(r, z, lastReport) then z else NextRetry(r, z)
  }

  /** Read off the record before the resume: the heal of `z` uses up the lineage's budget - a replacement adds an incarnation,
      a re-entry does not - or there are more FAILED nodes than the ceiling allows. */
  predicate NoReplanLeft(input: ChainInput, r: ChainRecord, z: string, lastReport: ChildReport) {
    var failures := |LineageFailures(r, LineageRoot(z))|;
    || (if Reenters(r, z, lastReport) then failures > Bounded(MaxReplans(input)) else failures >= Bounded(MaxReplans(input)))
    || |LiveFailures(r)| > Bounded(LoopBounds(input).maxChain)
  }

  lemma HealedSpent(chainId: string, r: ChainRecord, h: ChainRecord, lastReport: ChildReport, z: string)
    requires RecordInv(chainId, r) && HealedTo(r, h, lastReport) && FirstFailed(r, r.plan.nodes) == Some(z)
    ensures var failures := |LineageFailures(r, LineageRoot(z))|; var w := Attempted(r, z, lastReport);
            && LineageRoot(w) == LineageRoot(z)
            && |Spent(h, w)| == if Reenters(r, z, lastReport) then failures - 1 else failures
  {
    hide RecordInv, SplicedRecord, LineageFailures, Spent, Incarnated;
    FirstFailedIsActive(r);
    LineageFailureCount(chainId, r, z);
    if Reenters(r, z, lastReport) {
      ReentryKeepsRecord(chainId, r, z);
    } else {
      var f: nat :| f < |r.plan.nodes| && r.plan.nodes[f].id == z && SplicedRecord(r, h, f, NextRetry(r, z));
      SpliceKeepsIncarnated(chainId, r, h, f);
      RetryStrips(z, |LineageFailures(r, LineageRoot(z))|);
      NotSpentTwice(r, z);
    }
  }

  lemma NotSpentTwice(r: ChainRecord, z: string)
    ensures |Spent(r, z) + {z}| == |Spent(r, z)| + 1
  {
    assert z !in Spent(r, z);
  }

  lemma GrantStarts(input: ChainInput, store: Store, lastReport: ChildReport, z: string)
    requires Restorable(input.chainId, store) && FirstFailed(JournalRecord(store), JournalRecord(store).plan.nodes) == Some(z)
    ensures var r, s := JournalRecord(store), Start(input, store, lastReport); var w := Attempted(r, z, lastReport);
            && s.record.status == Running && w in NodeIds(s.record.plan) && w !in s.record.nodeOutcomes
            && LineageRoot(w) == LineageRoot(z)
            && (NoReplan(input, s.record, w) <==> NoReplanLeft(input, r, z, lastReport))
  {
    var r, s := JournalRecord(store), Start(input, store, lastReport);
    hide *;
    StoredRecord(input.chainId, store);
    RestartKeepsJournal(input, store, lastReport);
    NoFailureNoHeal(r);
    HealedMayRun(input, r, s.record, lastReport, z);
  }

  lemma HealedMayRun(input: ChainInput, r: ChainRecord, h: ChainRecord, lastReport: ChildReport, z: string)
    requires RecordInv(input.chainId, r) && HealedTo(r, h, lastReport) && FirstFailed(r, r.plan.nodes) == Some(z)
    ensures var w := Attempted(r, z, lastReport);
            && w in NodeIds(h.plan) && w !in h.nodeOutcomes
            && LineageRoot(w) == LineageRoot(z)
            && (NoReplan(input, h, w) <==> NoReplanLeft(input, r, z, lastReport))
  {
    hide RecordInv, HealedTo, LineageFailures, Spent, LiveFailures, NextRetry, LineageRoot, HealedFrom, FirstFailed, MaxReplans;
    hide LoopBounds, NodeIds, Bounded;
    var z', w := HealedRecord(input.chainId, r, h, lastReport);
    HealedIsActive(r, h, z, w);
    HealedSpent(input.chainId, r, h, lastReport, z);
    HealedLiveFailures(r, h, z, w);
  }

  lemma HealedIsActive(r: ChainRecord, h: ChainRecord, z: string, w: string)
    requires HealedFrom(r, h, z, w)
    ensures w in NodeIds(h.plan) && w !in h.nodeOutcomes
  {
  }

  /** Of two turns `j` and `k`: nothing of the lineage of `w` is dispatched but `w`, and that at most once. */
  ghost predicate OneDispatch(input: ChainInput, oracle: Oracle, s: LoopState, w: string, j: nat, k: nat) {
    var a, b := StateAt(input, oracle, s, j), StateAt(input, oracle, s, k);
    && (Dispatching(a) && LineageRoot(Dispatched(a).id) == LineageRoot(w) ==> Dispatched(a).id == w)
    && (j < k && Dispatching(a) && Dispatching(b) && LineageRoot(Dispatched(a).id) == LineageRoot(w) ==>
          LineageRoot(Dispatched(b).id) != LineageRoot(w))
  }

  /** Turn `j` leaves RUNNING with a resumable seal to come, `w` FAILED. */
  ghost predicate HaltsAt(input: ChainInput, oracle: Oracle, s: LoopState, w: string, j: nat) {
    var t := StateAt(input, oracle, s, j + 1);
    t.record.status != Running && t.resumableSeal && SealedWith(t.record, w, Failed)
  }

  /** Turn `j` goes on with a further retry of the lineage of `w`, active and unsealed. */
  ghost predicate RetriesAt(input: ChainInput, oracle: Oracle, s: LoopState, w: string, j: nat)
    requires Dispatching(StateAt(input, oracle, s, j))
  {
    var t, retry := StateAt(input, oracle, s, j + 1), NextRetry(DecidedOn(input, oracle, StateAt(input, oracle, s, j)), w);
    && t.record.status == Running && retry in NodeIds(t.record.plan) && retry !in t.record.nodeOutcomes
    && LineageRoot(retry) == LineageRoot(w)
  }

  /** What the resume grants a lineage, if its healed node is dispatched. The turn in which that node fails halts the chain,
      resumable, exactly when no replan was left on the record the resume read, and goes on with a further retry otherwise -
      whether the child is executed again or the node replaced. Where none was left the grant is one attempt at most: over the
      whole launch nothing of the lineage is dispatched but the healed node, and that at most once. */
  lemma GrantIsAtMostOneAttempt(input: ChainInput, oracle: Oracle, store: Store, lastReport: ChildReport, z: string, j: nat, k: nat)
    requires Restorable(input.chainId, store) && FirstFailed(JournalRecord(store), JournalRecord(store).plan.nodes) == Some(z)
    ensures var r, s := JournalRecord(store), Start(input, store, lastReport);
            var w, a := Attempted(r, z, lastReport), StateAt(input, oracle, s, j);
            && s.record.status == Running && w in NodeIds(s.record.plan) && w !in s.record.nodeOutcomes
            && LineageRoot(w) == LineageRoot(z)
            && (Decides(input, oracle, a) && Dispatched(a).id == w ==>
                  if NoReplanLeft(input, r, z, lastReport) then HaltsAt(input, oracle, s, w, j)
                  else RetriesAt(input, oracle, s, w, j))
            && (NoReplanLeft(input, r, z, lastReport) ==> OneDispatch(input, oracle, s, w, j, k))
  {
    var r, s := JournalRecord(store), Start(input, store, lastReport);
    var w, reopened := Attempted(r, z, lastReport), ReenteredIds(r, lastReport);
    LaterLaunch(input, store, lastReport);
    GrantStarts(input, store, lastReport, z);
    hide Start, Restorable, Journaled, Stale, Standing, Unsealed, JournalRecord, Attempted, ReenteredIds, StateAt, RunChild;
    hide NoReplan, NoReplanLeft, Turn, FirstFailed, NodeIds, Dispatchable, HaltsAt, RetriesAt, OneDispatch, Decides;
    hide LineageRoot;
    HealedNodeFails(input, oracle, s, w, j, reopened);
    if NoReplan(input, s.record, w) {
      DispatchedOnce(input, oracle, s, w, j, k, reopened);
    }
  }

  lemma HealedNodeFails(input: ChainInput, oracle: Oracle, s: LoopState, w: string, j: nat, reopened: set<string>)
    requires Journaled(input, s, reopened) && s.record.status == Running
    requires w in NodeIds(s.record.plan) && w !in s.record.nodeOutcomes
    ensures var a := StateAt(input, oracle, s, j);
            Decides(input, oracle, a) && Dispatched(a).id == w ==>
              if NoReplan(input, s.record, w) then HaltsAt(input, oracle, s, w, j) else RetriesAt(input, oracle, s, w, j)
  {
    hide Journaled, Turn, RunChild, StateAt, NodeIds, Dispatchable, Spent, LiveFailures, LineageRoot, NextRetry, DecidedOn;
    hide MaxReplans, LoopBounds;
    var a := StateAt(input, oracle, s, j);
    if Decides(input, oracle, a) && Dispatched(a).id == w {
      RunKeepsJournal(input, oracle, s, j, reopened);
      RunKeepsLiveFailures(input, oracle, s, j, reopened);
      UnsealedWhenDispatched(a);
      UntilSealed(input, oracle, s, j, w, reopened);
      NextState(input, oracle, s, j);
      FailureTurn(input, oracle, a, reopened);
    }
  }

  lemma DispatchedOnce(input: ChainInput, oracle: Oracle, s: LoopState, w: string, j: nat, k: nat, reopened: set<string>)
    requires Journaled(input, s, reopened) && s.record.status == Running
    requires w in NodeIds(s.record.plan) && w !in s.record.nodeOutcomes && NoReplan(input, s.record, w)
    ensures OneDispatch(input, oracle, s, w, j, k)
  {
    hide Journaled, StateAt, NodeIds, Dispatchable, NoReplan, LineageRoot;
    var a, b := StateAt(input, oracle, s, j), StateAt(input, oracle, s, k);
    LineageDispatch(input, oracle, s, j, w, reopened);
    LineageDispatch(input, oracle, s, k, w, reopened);
    if j < k && Dispatching(a) && Dispatching(b) {
      DispatchIsSafe(input, oracle, s, j, k, reopened);
    }
  }

  /** While the budget per node is never raised and the ceilings are ample, no replan is ever left to a resume: every grant
      of every launch of a chain is one attempt at most. */
  lemma {:induction false} EveryGrantIsAtMostOneAttempt(ls: seq<Launch>, z: string, j: nat, k: nat)
    requires OneChain(ls) && SteadyBudgets(ls) && |ls| > 1 && StoreBefore(ls).row.Some?
    requires FirstFailed(JournalRecord(StoreBefore(ls)), JournalRecord(StoreBefore(ls)).plan.nodes) == Some(z)
    ensures var l, r := ls[|ls| - 1], JournalRecord(StoreBefore(ls)); var w, a := Attempted(r, z, l.lastReport), ChainAt(ls, j);
            && NoReplanLeft(l.input, r, z, l.lastReport)
            && OneDispatch(l.input, l.oracle, StartOf(ls), w, j, k)
            && (Decides(l.input, l.oracle, a) && Dispatched(a).id == w ==> HaltsAt(l.input, l.oracle, StartOf(ls), w, j))
  {
    var l := ls[|ls| - 1];
    var r := JournalRecord(StoreBefore(ls));
    hide StoreBefore, EndOf, Start, JournalRecord, OneChain, SteadyBudgets, SpentOut, RecordedAs, HealedTo, ReenteredAt;
    hide StateAt;
    hide NoReplanLeft, OneDispatch, HaltsAt, RetriesAt, Decides, FirstFailed, Attempted, RecordInv, StoreInv, ChainRecordOf;
    LaterParts(ls);
    Handover(ls);
    StoredRecord(l.input.chainId, StoreBefore(ls));
    FailedHasSpentItsBudget(ls, 0);
    NothingLeft(l.input, r, z, l.lastReport);
    GrantIsAtMostOneAttempt(l.input, l.oracle, StoreBefore(ls), l.lastReport, z, j, k);
  }

  lemma NothingLeft(input: ChainInput, r: ChainRecord, z: string, lastReport: ChildReport)
    requires RecordInv(input.chainId, r) && SpentOut(r, Bounded(MaxReplans(input)), {})
    requires FirstFailed(r, r.plan.nodes) == Some(z)
    ensures NoReplanLeft(input, r, z, lastReport)
  {
    hide RecordInv, Spent, LineageFailures, LiveFailures;
    FirstFailedIsActive(r);
    LineageFailureCount(input.chainId, r, z);
  }
}
