/** Every incarnation ends, within a bound that depends only on the plan and the per-node budget. */
module ChainTermination {
  import opened Lineage
  import opened ChainTypes
  import opened Reducer
  import opened Replan
  import opened PlanSurgery
  import opened Journal
  import opened Activities
  import opened ChainLoop
  import opened ChainInvariant
  import opened ChainTurn

  function Sum(xs: seq<nat>): nat {
    if xs == [] then 0 else xs[0] + Sum(xs[1..])
  }

  lemma {:induction false} SumDrops(xs: seq<nat>, ys: seq<nat>, f: nat)
    requires |xs| == |ys| && f < |xs|
    requires forall i :: 0 <= i < |xs| ==> ys[i] <= xs[i]
    requires ys[f] < xs[f]
    ensures Sum(ys) < Sum(xs)
  {
    if f == 0 {
      SumMonotone(xs[1..], ys[1..]);
    } else {
      SumDrops(xs[1..], ys[1..], f - 1);
    }
  }

  lemma {:induction false} SumMonotone(xs: seq<nat>, ys: seq<nat>)
    requires |xs| == |ys|
    requires forall i :: 0 <= i < |xs| ==> ys[i] <= xs[i]
    ensures Sum(ys) <= Sum(xs)
  {
    if xs != [] {
      SumMonotone(xs[1..], ys[1..]);
    }
  }

  lemma {:induction false} SumOfEqual(xs: seq<nat>, c: nat)
    requires forall i :: 0 <= i < |xs| ==> xs[i] == c
    ensures Sum(xs) == |xs| * c
  {
    if xs != [] {
      SumOfEqual(xs[1..], c);
    }
  }

  /** Dispatches a node's lineage may still take: none once it is sealed, else one, plus the replans its budget still holds. */
  function Allowance(record: ChainRecord, perNode: nat, id: string): nat {
    if id in record.nodeOutcomes then 0
    else if |Spent(record, id)| <= perNode then perNode - |Spent(record, id)| + 1
    else 1
  }

  function Allowances(record: ChainRecord, perNode: nat): seq<nat> {
    seq(|record.plan.nodes|, i requires 0 <= i < |record.plan.nodes| => Allowance(record, perNode, record.plan.nodes[i].id))
  }

  /** An upper bound on the dispatches still to come. */
  function DispatchBound(input: ChainInput, record: ChainRecord): nat {
    Sum(Allowances(record, Bounded(MaxReplans(input))))
  }

  lemma BoundDrops(input: ChainInput, r: ChainRecord, r': ChainRecord, f: nat)
    requires |r'.plan.nodes| == |r.plan.nodes| && f < |r.plan.nodes|
    requires forall i :: 0 <= i < |r.plan.nodes| && i != f ==>
               Allowance(r', Bounded(MaxReplans(input)), r'.plan.nodes[i].id)
               == Allowance(r, Bounded(MaxReplans(input)), r.plan.nodes[i].id)
    requires Allowance(r', Bounded(MaxReplans(input)), r'.plan.nodes[f].id)
             < Allowance(r, Bounded(MaxReplans(input)), r.plan.nodes[f].id)
    ensures DispatchBound(input, r') < DispatchBound(input, r)
  {
    hide Allowance;
    SumDrops(Allowances(r, Bounded(MaxReplans(input))), Allowances(r', Bounded(MaxReplans(input))), f);
  }

  lemma AllowancesAfterSeal(r: ChainRecord, r': ChainRecord, id: string, perNode: nat)
    requires id in NodeIds(r.plan) && id !in r.nodeOutcomes
    requires r'.nodeOutcomes.Keys == r.nodeOutcomes.Keys + {id}
    requires forall x :: x in NodeIds(r.plan) ==> Spent(r', x) == Spent(r, x)
    ensures forall x :: x in NodeIds(r.plan) && x != id ==> Allowance(r', perNode, x) == Allowance(r, perNode, x)
    ensures Allowance(r', perNode, id) == 0 < Allowance(r, perNode, id)
    ensures |Spent(r, id)| <= perNode ==> Allowance(r, perNode, id) == perNode - |Spent(r, id)| + 1
  {
    hide Spent, NodeIds;
  }

  /** A granted splice reopens its lineage, with one dispatch less than the failed node had before it was sealed. */
  lemma AllowancesAfterSplice(r: ChainRecord, r': ChainRecord, id: string, retryId: string, perNode: nat)
    requires r'.nodeOutcomes == r.nodeOutcomes && retryId !in r.nodeOutcomes && id !in Spent(r, id)
    requires Spent(r', retryId) == Spent(r, id) + {id}
    requires forall x :: x in NodeIds(r.plan) && x != id ==> Spent(r', x) == Spent(r, x)
    requires |Spent(r, id)| + 1 <= perNode
    ensures forall x :: x in NodeIds(r.plan) && x != id ==> Allowance(r', perNode, x) == Allowance(r, perNode, x)
    ensures Allowance(r', perNode, retryId) == perNode - |Spent(r, id)|
  {
    assert |Spent(r', retryId)| == |Spent(r, id)| + 1;
    hide Spent, NodeIds;
  }

  /** A dispatch with no splice: the sealed node's lineage has nothing left, the others what they had. */
  lemma SealDropsBound(input: ChainInput, r: ChainRecord, r': ChainRecord, f: nat)
    requires RecordInv(input.chainId, r) && f < |r.plan.nodes| && SealedOne(input.chainId, r, r', r.plan.nodes[f].id)
    requires forall x :: x in NodeIds(r.plan) ==> Spent(r', x) == Spent(r, x)
    ensures DispatchBound(input, r') < DispatchBound(input, r)
  {
    AllowancesAfterSeal(r, r', r.plan.nodes[f].id, Bounded(MaxReplans(input)));
    OtherActive(input.chainId, r, f);
    hide RecordInv, Spent, NodeIds, Allowance, DispatchBound;
    BoundDrops(input, r, r', f);
  }

  lemma OtherActive(chainId: string, record: ChainRecord, f: nat)
    requires RecordInv(chainId, record) && f < |record.plan.nodes|
    ensures forall i :: 0 <= i < |record.plan.nodes| ==> record.plan.nodes[i].id in NodeIds(record.plan)
    ensures forall i :: 0 <= i < |record.plan.nodes| && i != f ==> record.plan.nodes[i].id != record.plan.nodes[f].id
  {
    IdAtIsIn(record.plan, f);
    OneActivePerLineage(record.plan, record.plan.nodes[f].id, record.plan.nodes[f].id);
    forall i | 0 <= i < |record.plan.nodes|
      ensures record.plan.nodes[i].id in NodeIds(record.plan)
    {
      IdAtIsIn(record.plan, i);
    }
  }

  /** A dispatch followed by a granted splice, from `r` through the sealed `m` to the spliced `r'`. */
  lemma SpliceDropsBound(input: ChainInput, r: ChainRecord, m: ChainRecord, r': ChainRecord, f: nat)
    requires RecordInv(input.chainId, r) && f < |r.plan.nodes| && SealedOne(input.chainId, r, m, r.plan.nodes[f].id)
    requires forall x :: x in NodeIds(r.plan) ==> Spent(m, x) == Spent(r, x)
    requires RecordInv(input.chainId, m) && SealedWith(m, r.plan.nodes[f].id, Failed)
    requires SplicedRecord(m, r', f, NextRetry(m, r.plan.nodes[f].id))
    requires |LineageFailures(m, LineageRoot(r.plan.nodes[f].id))| <= Bounded(MaxReplans(input))
    ensures DispatchBound(input, r') < DispatchBound(input, r)
  {
    var id, p := r.plan.nodes[f].id, Bounded(MaxReplans(input));
    AllowancesAfterSeal(r, m, id, p);
    OtherActive(input.chainId, r, f);
    LineageFailureCount(input.chainId, m, id);
    SplicedActive(input.chainId, m, r', f);
    SpliceKeepsIncarnated(input.chainId, m, r', f);
    AllowancesAfterSplice(m, r', id, NextRetry(m, id), p);
    SplicedNames(m, r', f, NextRetry(m, id));
    hide RecordInv, Spent, NodeIds, Allowance, DispatchBound, NextRetry, LineageFailures, SplicedRecord;
    BoundDrops(input, r, r', f);
  }

  lemma SplicedNames(r: ChainRecord, r': ChainRecord, f: nat, retryId: string)
    requires SplicedRecord(r, r', f, retryId)
    requires forall i :: 0 <= i < |r.plan.nodes| && i != f ==> r.plan.nodes[i].id != r.plan.nodes[f].id
    ensures |r'.plan.nodes| == |r.plan.nodes| && r'.plan.nodes[f].id == retryId
    ensures forall i :: 0 <= i < |r.plan.nodes| && i != f ==> r'.plan.nodes[i].id == r.plan.nodes[i].id
  {
  }

  /** Each dispatch uses up at least one of the dispatches still allowed. */
  lemma DispatchDropsBound(input: ChainInput, oracle: Oracle, s: LoopState, n: PlanNode)
    requires RecordInv(input.chainId, s.record) && n in Dispatchable(s.record)
    ensures DispatchBound(input, Dispatch(input, oracle, s, n.id).record) < DispatchBound(input, s.record)
  {
    var child := RunChild(input, oracle, s, n.id);
    var folded := FoldNode(input, s, n.id, child);
    FoldSealsOne(input, s, n, child);
    FoldKeepsRecord(input, s, n, child);
    var f :| 0 <= f < |s.record.plan.nodes| && s.record.plan.nodes[f] == n;
    AfterSealDropsBound(input, s.record, folded, f, child);
  }

  lemma GrantIsCounted(input: ChainInput, r: ChainRecord, id: string)
    ensures var decision := DecideReplan(r, id, LoopBounds(input));
            decision.GrantReplan? ==>
              && decision.replansUsed == |LineageFailures(r, LineageRoot(id))|
              && decision.replansUsed <= Bounded(MaxReplans(input))
  {
    hide LineageFailures, LineageRoot, LiveFailures;
  }

  lemma AfterSealDropsBound(input: ChainInput, r: ChainRecord, folded: LoopState, f: nat, child: Attended)
    requires RecordInv(input.chainId, r) && f < |r.plan.nodes|
    requires SealedOne(input.chainId, r, folded.record, r.plan.nodes[f].id)
    requires forall x :: x in NodeIds(r.plan) ==> Spent(folded.record, x) == Spent(r, x)
    requires RecordInv(input.chainId, folded.record)
    requires SealedWith(folded.record, r.plan.nodes[f].id, DeriveNodeOutcome(child.report).status)
    ensures DeriveNodeOutcome(child.report).status == Failed ==>
              DispatchBound(input, AfterFailure(input, folded, r.plan.nodes[f].id, child.report.reason).record)
              < DispatchBound(input, r)
    ensures DispatchBound(input, folded.record) < DispatchBound(input, r)
  {
    hide RecordInv, DispatchBound, LineageFailures, NodeIds, Spent, DecideReplan, SpliceRetry, SplicedRecord, NextRetry;
    hide DeriveNodeOutcome, BuildReplanBrief, LiveFailures, BuildRetryPlan, Replanned;
    var id := r.plan.nodes[f].id;
    SealDropsBound(input, r, folded.record, f);
    GrantIsCounted(input, folded.record, id);
    var decision := DecideReplan(folded.record, id, LoopBounds(input));
    if DeriveNodeOutcome(child.report).status == Failed && decision.GrantReplan? {
      SpliceEffect(input, folded, f, decision, child.report.reason);
      SpliceDropsBound(input, r, folded.record, SpliceRetry(folded, id, decision, child.report.reason).record, f);
    }
  }

  // ---- Whole runs ----

  predicate Dispatching(s: LoopState) {
    s.record.status == Running && Dispatchable(s.record) != []
  }

  /** How many of the first `k` turns dispatched a node. */
  function DispatchCount(input: ChainInput, oracle: Oracle, s: LoopState, k: nat): nat {
    if k == 0 then 0
    else DispatchCount(input, oracle, s, k - 1) + (if Dispatching(StateAt(input, oracle, s, k - 1)) then 1 else 0)
  }

  lemma TurnDropsBound(input: ChainInput, oracle: Oracle, s: LoopState)
    requires RecordInv(input.chainId, s.record)
    ensures Dispatching(s) ==> DispatchBound(input, Turn(input, oracle, s).record) < DispatchBound(input, s.record)
    ensures !Dispatching(s) ==> DispatchBound(input, Turn(input, oracle, s).record) == DispatchBound(input, s.record)
    ensures s.record.status == Running && !Dispatching(s) ==> Turn(input, oracle, s).record.status != Running
  {
    hide RecordInv, Dispatch, DispatchBound, Dispatchable;
    if Dispatching(s) {
      DispatchDropsBound(input, oracle, s, Dispatchable(s.record)[0]);
    } else if s.record.status == Running {
      StatusKeepsBound(input, s.record, Turn(input, oracle, s).record.status);
    }
  }

  lemma StatusKeepsBound(input: ChainInput, r: ChainRecord, status: ChainStatus)
    ensures DispatchBound(input, r.(status := status)) == DispatchBound(input, r)
  {
    assert Allowances(r.(status := status), Bounded(MaxReplans(input))) == Allowances(r, Bounded(MaxReplans(input)));
  }

  /** For any behaviour of the children, dispatches made plus dispatches still allowed never exceed the initial bound. */
  lemma {:induction false} DispatchesAreBounded(input: ChainInput, oracle: Oracle, s: LoopState, k: nat, reopened: set<string>)
    requires Journaled(input, s, reopened)
    ensures DispatchCount(input, oracle, s, k) + DispatchBound(input, StateAt(input, oracle, s, k).record)
            <= DispatchBound(input, s.record)
    ensures StateAt(input, oracle, s, k).record.status == Running ==> DispatchCount(input, oracle, s, k) == k
  {
    hide Turn, DispatchBound, RecordInv;
    if k > 0 {
      DispatchesAreBounded(input, oracle, s, k - 1, reopened);
      RunKeepsJournal(input, oracle, s, k - 1, reopened);
      TurnDropsBound(input, oracle, StateAt(input, oracle, s, k - 1));
      EndedStaysEnded(input, oracle, StateAt(input, oracle, s, k - 1));
    }
  }

  lemma EndedStaysEnded(input: ChainInput, oracle: Oracle, s: LoopState)
    ensures s.record.status != Running ==> Turn(input, oracle, s) == s
  {
  }

  /** Every incarnation leaves RUNNING, one turn after its last possible dispatch at the latest. */
  lemma EveryRunEnds(input: ChainInput, oracle: Oracle, s: LoopState, reopened: set<string>)
    requires Journaled(input, s, reopened)
    ensures StateAt(input, oracle, s, DispatchBound(input, s.record) + 1).record.status != Running
  {
    hide Turn, DispatchBound, StateAt;
    DispatchesAreBounded(input, oracle, s, DispatchBound(input, s.record) + 1, reopened);
  }

  lemma OneMoreDispatch(d: nat, perDispatch: nat)
    ensures (d + 1) * perDispatch == d * perDispatch + perDispatch
  {
  }

  /** A dispatch executes its child at least once, and at most once more for every child resume. */
  lemma {:induction false} ExecutionsAreBounded(input: ChainInput, oracle: Oracle, s: LoopState, k: nat, reopened: set<string>)
    requires Journaled(input, s, reopened)
    ensures var d := DispatchCount(input, oracle, s, k);
            s.executions + d <= StateAt(input, oracle, s, k).executions <= s.executions + d * (1 + MaxResumes(input))
  {
    hide Turn, RecordInv, StoreInv, Dispatching, MaxResumes;
    if k > 0 {
      OneMoreDispatch(DispatchCount(input, oracle, s, k - 1), 1 + MaxResumes(input));
      ExecutionsAreBounded(input, oracle, s, k - 1, reopened);
      RunKeepsJournal(input, oracle, s, k - 1, reopened);
      TurnExecutions(input, oracle, StateAt(input, oracle, s, k - 1), reopened);
    }
  }

  lemma TurnExecutions(input: ChainInput, oracle: Oracle, s: LoopState, reopened: set<string>)
    requires Journaled(input, s, reopened)
    ensures var t := Turn(input, oracle, s);
            if Dispatching(s) then s.executions + 1 <= t.executions <= s.executions + 1 + MaxResumes(input)
            else t.executions == s.executions
  {
    hide RecordInv, StatusInv, Attend, Spliced;
    if Dispatching(s) {
      ChildExecutions(input, oracle, s, Dispatchable(s.record)[0].id, reopened);
    }
  }

  /** The child of one dispatch; a run that seals FAILED but resumable has had every resume it may have. */
  lemma ChildExecutions(input: ChainInput, oracle: Oracle, s: LoopState, id: string, reopened: set<string>)
    requires RecordInv(input.chainId, s.record) && StoreInv(s.store, s.record, reopened)
    ensures var child := RunChild(input, oracle, s, id);
            && s.executions + 1 <= child.executions <= s.executions + 1 + MaxResumes(input)
            && (DeriveNodeOutcome(child.report).status == Failed && child.report.resumable ==>
                  child.executions == s.executions + 1 + MaxResumes(input))
  {
    hide Attend;
    var run := ChildRunId(input.chainId, id);
    StartView(s.store, id, run);
    AttendKeeps(oracle, id, run, Attended(oracle(s.executions), Started(s.store, id, run), s.executions + 1),
                0, MaxResumes(input));
  }

  // ---- A fresh chain ----

  /** What the planner's assembly checks, and that no author used a retry-shaped id. */
  predicate LaunchablePlan(plan: Plan) {
    && UniqueIds(plan)
    && ClosedDependencies(plan)
    && forall n :: n in plan.nodes ==> StripRetry(n.id) == n.id
  }

  lemma FreshStart(input: ChainInput, lastReport: ChildReport)
    requires LaunchablePlan(input.plan)
    ensures var s := Start(input, Store([], None), lastReport);
            && s.record == EmptyRecord(input.plan).(status := DeriveChainStatus(EmptyRecord(input.plan)))
            && s.store == Store([Entry(0, PlanEntry(input.plan))], Some(ChainRow(input.plan, Running)))
            && s.executions == 0
            && Inv(input, s, {})
  {
    var s := Start(input, Store([], None), lastReport);
    var es := [Entry(0, PlanEntry(input.plan))];
    assert Initialized(Store([], None), input.plan) == Store(es, Some(ChainRow(input.plan, Running)));
    EntriesOfAppend([], PlanEntry(input.plan), TerminalKind);
    AppendView([], input.plan, PlanEntry(input.plan));
    assert Appended([], PlanEntry(input.plan)) == es;
    FreshRecordInv(input, s.record);
  }

  lemma FreshRecordInv(input: ChainInput, r: ChainRecord)
    requires LaunchablePlan(input.plan) && r == EmptyRecord(input.plan).(status := r.status)
    ensures RecordInv(input.chainId, r)
  {
    forall id | id in NodeIds(r.plan)
      ensures Incarnated(r, id) && LineageRoot(id) == id
    {
      assert Spent(r, id) == {};
    }
    forall i, j | 0 <= i < j < |r.plan.nodes|
      ensures LineageRoot(r.plan.nodes[i].id) != LineageRoot(r.plan.nodes[j].id)
    {
      IdAtIsIn(r.plan, i);
      IdAtIsIn(r.plan, j);
    }
  }

  lemma FreshAllowance(input: ChainInput, r: ChainRecord)
    requires r.plan == input.plan && r.nodeOutcomes == map[]
    ensures DispatchBound(input, r) == |input.plan.nodes| * (Bounded(MaxReplans(input)) + 1)
  {
    var p := Bounded(MaxReplans(input));
    forall i | 0 <= i < |input.plan.nodes|
      ensures Allowances(r, p)[i] == p + 1
    {
      assert Spent(r, input.plan.nodes[i].id) == {};
    }
    SumOfEqual(Allowances(r, p), p + 1);
  }

  /** A fresh chain over n nodes with per-node budget P makes at most n * (P + 1) dispatches, for any children. */
  lemma FreshChainBound(input: ChainInput, oracle: Oracle, lastReport: ChildReport, k: nat)
    requires LaunchablePlan(input.plan)
    ensures var s := Start(input, Store([], None), lastReport);
            var bound := |input.plan.nodes| * (Bounded(MaxReplans(input)) + 1);
            && DispatchCount(input, oracle, s, k) <= bound
            && StateAt(input, oracle, s, k).executions <= bound * (1 + MaxResumes(input))
            && StateAt(input, oracle, s, bound + 1).record.status != Running
  {
    hide Start, Inv, DispatchBound, StateAt, DispatchCount, LaunchablePlan;
    var s := Start(input, Store([], None), lastReport);
    FreshStart(input, lastReport);
    FreshAllowance(input, s.record);
    BoundedRun(input, oracle, s, k, {});
  }

  lemma BoundedRun(input: ChainInput, oracle: Oracle, s: LoopState, k: nat, reopened: set<string>)
    requires Journaled(input, s, reopened)
    ensures DispatchCount(input, oracle, s, k) <= DispatchBound(input, s.record)
    ensures StateAt(input, oracle, s, k).executions
            <= s.executions + DispatchBound(input, s.record) * (1 + MaxResumes(input))
    ensures StateAt(input, oracle, s, DispatchBound(input, s.record) + 1).record.status != Running
  {
    hide Inv, DispatchBound, StateAt, DispatchCount;
    DispatchesAreBounded(input, oracle, s, k, reopened);
    ExecutionsAreBounded(input, oracle, s, k, reopened);
    EveryRunEnds(input, oracle, s, reopened);
    MulMonotone(DispatchCount(input, oracle, s, k), DispatchBound(input, s.record), 1 + MaxResumes(input));
  }

  lemma MulMonotone(a: nat, b: nat, c: nat)
    requires a <= b
    ensures a * c <= b * c
  {
  }
}
