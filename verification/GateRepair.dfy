/** The bounded repair loop above the plan gate: plan, judge, and re-plan against the gate's evidence. */
module GateRepair {
  import opened ChainTypes
  import opened Graph
  import opened RepairBrief
  import Text
  import Validation
  import WritePaths
  import WriteSet

  // ---- Deciding whether a rejected attempt is repaired ----

  /** `gap` was among the defects of an earlier attempt but not of the last one. */
  predicate WasSatisfied(history: seq<seq<string>>, gap: string) {
    && history != []
    && (exists h :: h in history && gap in h)
    && gap !in history[|history| - 1]
  }

  /** The current defects that an earlier attempt had already put right, in order. */
  function Returned(history: seq<seq<string>>, current: seq<string>): seq<string> {
    if current == [] then []
    else
      var front, last := current[..|current| - 1], current[|current| - 1];
      Returned(history, front) + (if WasSatisfied(history, last) then [last] else [])
  }

  lemma {:induction false} NothingReturned(history: seq<seq<string>>, current: seq<string>)
    ensures Returned(history, current) == [] <==> forall gap :: gap in current ==> !WasSatisfied(history, gap)
  {
    if current != [] {
      var front, last := current[..|current| - 1], current[|current| - 1];
      NothingReturned(history, front);
      assert current == front + [last];
    }
  }

  lemma {:induction false} ReturnedMeans(history: seq<seq<string>>, current: seq<string>, gap: string)
    ensures gap in Returned(history, current) <==> gap in current && WasSatisfied(history, gap)
  {
    hide WasSatisfied;
    if current != [] {
      var front, last := current[..|current| - 1], current[|current| - 1];
      ReturnedMeans(history, front, gap);
      assert current == front + [last];
    }
  }

  method ReturnedGaps(history: seq<seq<string>>, current: seq<string>) returns (returned: seq<string>)
    ensures returned == Returned(history, current)
  {
    if |history| == 0 {
      NothingReturned(history, current);
      return [];
    }
    var satisfied: set<string> := {};
    for i := 0 to |history|
      invariant forall gap :: gap in satisfied <==> exists k :: 0 <= k < i && gap in history[k]
    {
      satisfied := satisfied + set gap | gap in history[i];
    }
    var previous := history[|history| - 1];
    ghost var all := satisfied;
    for i := 0 to |previous|
      invariant forall gap :: gap in satisfied <==> gap in all && gap !in previous[..i]
    {
      satisfied := satisfied - {previous[i]};
    }
    assert previous[..|previous|] == previous;
    assert forall gap :: gap in satisfied <==> WasSatisfied(history, gap);
    returned := [];
    for i := 0 to |current|
      invariant returned == Returned(history, current[..i])
    {
      assert current[..i + 1][..i] == current[..i];
      if current[i] in satisfied { returned := returned + [current[i]]; }
    }
    assert current[..|current|] == current;
  }

  datatype GateRepairState = GateRepairState(
    attemptsUsed: int, costUsdSpent: real, repairable: bool, gapHistory: seq<seq<string>>, machineGaps: seq<string>)

  /** `costCapUsd` 0 disables the cost stop. */
  datatype GateRepairBounds = GateRepairBounds(maxAttempts: int, costCapUsd: real)

  datatype StopReason =
    | NotRepairable
    | RepairDisabled
    | BudgetExhausted(maxAttempts: int)
    | Oscillating(returned: seq<string>)
    | CostCapReached(spent: real, allowed: real)

  datatype GateRepairDecision = Repair(attempt: int) | Stop(reason: StopReason)

  function DecideGateRepair(state: GateRepairState, bounds: GateRepairBounds): GateRepairDecision {
    if !state.repairable then Stop(NotRepairable)
    else if bounds.maxAttempts <= 0 then Stop(RepairDisabled)
    else if state.attemptsUsed >= bounds.maxAttempts then Stop(BudgetExhausted(bounds.maxAttempts))
    else
      var returned := Returned(state.gapHistory, state.machineGaps);
      if returned != [] then Stop(Oscillating(returned))
      else if bounds.costCapUsd > 0.0 && state.costUsdSpent >= bounds.costCapUsd then
        Stop(CostCapReached(state.costUsdSpent, bounds.costCapUsd))
      else Repair(state.attemptsUsed + 1)
  }

  // ---- Whether the defects converge ----

  /** A defect that was put right never comes back: its attempts form one unbroken stretch. */
  ghost predicate Unbroken(trail: seq<seq<string>>) {
    forall d, a, b, c :: 0 <= a < b < c < |trail| && d in trail[a] && d in trail[c] ==> d in trail[b]
  }

  /** The oscillation stop is exact: it fires just when one more attempt would break a stretch. */
  lemma OscillationIsExact(trail: seq<seq<string>>, current: seq<string>)
    requires Unbroken(trail)
    ensures Returned(trail, current) == [] <==> Unbroken(trail + [current])
  {
    var longer := trail + [current];
    NothingReturned(trail, current);
    if Returned(trail, current) == [] {
      forall d, a, b, c | 0 <= a < b < c < |longer| && d in longer[a] && d in longer[c]
        ensures d in longer[b]
      {
        if c == |trail| {
          assert trail[a] in trail && !WasSatisfied(trail, d);
        }
      }
    } else {
      var gap :| gap in current && WasSatisfied(trail, gap);
      var h :| h in trail && gap in h;
      var a :| 0 <= a < |trail| && trail[a] == h;
      assert gap in longer[a] && gap in longer[|trail|] && gap !in longer[|trail| - 1];
    }
  }

  /** Some attempt listed the defect, and the last one did not. */
  ghost predicate PutRightBefore(history: seq<seq<string>>, gap: string) {
    && (exists i :: 0 <= i < |history| && gap in history[i])
    && gap !in history[|history| - 1]
  }

  ghost predicate NoneReturns(state: GateRepairState) {
    forall gap :: gap in state.machineGaps ==> !PutRightBefore(state.gapHistory, gap)
  }

  /** What stands against one more attempt, in the order it is looked at. */
  ghost predicate StopsFor(state: GateRepairState, bounds: GateRepairBounds, reason: StopReason) {
    var left := bounds.maxAttempts > 0 && state.attemptsUsed < bounds.maxAttempts;
    match reason
    case NotRepairable => !state.repairable
    case RepairDisabled => state.repairable && bounds.maxAttempts <= 0
    case BudgetExhausted(max) => state.repairable && max == bounds.maxAttempts && 0 < max <= state.attemptsUsed
    case Oscillating(returned) =>
      && state.repairable && left && !NoneReturns(state)
      && forall gap :: gap in returned <==> gap in state.machineGaps && PutRightBefore(state.gapHistory, gap)
    case CostCapReached(spent, allowed) =>
      && state.repairable && left && NoneReturns(state)
      && spent == state.costUsdSpent && allowed == bounds.costCapUsd && 0.0 < allowed <= spent
  }

  /** A repair is granted if and only if the rejection can be repaired, attempts are left, no defect comes back - in a history
      whose stretches are unbroken: the new defects break none - and the cap is off or not reached; otherwise the loop stops for
      the first of these that fails. */
  lemma RepairIsExact(state: GateRepairState, bounds: GateRepairBounds)
    ensures DecideGateRepair(state, bounds) == Repair(state.attemptsUsed + 1) <==>
            && state.repairable
            && 0 < bounds.maxAttempts && state.attemptsUsed < bounds.maxAttempts
            && NoneReturns(state)
            && (bounds.costCapUsd <= 0.0 || state.costUsdSpent < bounds.costCapUsd)
    ensures var decision := DecideGateRepair(state, bounds);
            if decision.Repair? then decision.attempt == state.attemptsUsed + 1 else StopsFor(state, bounds, decision.reason)
    ensures Unbroken(state.gapHistory) ==> (NoneReturns(state) <==> Unbroken(state.gapHistory + [state.machineGaps]))
  {
    if Unbroken(state.gapHistory) { OscillationIsExact(state.gapHistory, state.machineGaps); }
    forall gap
      ensures gap in Returned(state.gapHistory, state.machineGaps)
              <==> gap in state.machineGaps && PutRightBefore(state.gapHistory, gap)
    {
      ReturnedMeans(state.gapHistory, state.machineGaps, gap);
      ByPosition(state.gapHistory, gap);
    }
    hide Unbroken, PutRightBefore;
    assert Returned(state.gapHistory, state.machineGaps) == [] <==> NoneReturns(state) by {
      NothingIn(Returned(state.gapHistory, state.machineGaps));
    }
    hide Returned;
  }

  lemma NothingIn(xs: seq<string>)
    ensures xs == [] <==> forall x :: x !in xs
  {
    if xs != [] { assert xs[0] in xs; }
  }

  lemma ByPosition(history: seq<seq<string>>, gap: string)
    ensures WasSatisfied(history, gap) <==> PutRightBefore(history, gap)
  {
    assert forall i :: 0 <= i < |history| ==> history[i] in history;
  }

  // ---- Why a plan is rejected ----

  datatype FailureKind =
    PlannerTransport | WriteSetTopology | MinNodes | GateInfra | GateRevise | GateEscalate | FamilyDiversity

  datatype PlanVerdictKind = PlanProceed | PlanRevise | PlanEscalate

  /** A plan verdict with what the deterministic floors found in that plan. */
  datatype PlanVerdict = PlanVerdict(
    kind: PlanVerdictKind, rationale: string, infra: bool, machineGaps: seq<string>, contract: seq<string>)

  datatype PlanPhaseFailure = PlanPhaseFailure(
    kind: FailureKind, machineGaps: seq<string>, contract: seq<string>, instruction: string,
    verdict: Option<PlanVerdict>)

  const TRANSPORT_INSTRUCTION := "The previous decomposition call did not return a usable reply. Emit the plan again."
  const WRITE_SET_INSTRUCTION :=
    "Give every node a `writeSet` of exact repo-relative POSIX paths, and make sure nodes that write the same path "
    + "are ordered by `dependsOn` rather than left concurrent."
  const INFRA_INSTRUCTION := "The gate could not be reached. Emit the plan again."
  const REVISE_INSTRUCTION :=
    "Fix every machine-checked defect above and address the gate's rationale. Keep the parts of your plan it did not "
    + "object to \U{2014} node ids, dependency order, and write sets that were accepted should survive unchanged."

  datatype PlannerReply = PlannerFailed(reason: string, costUsd: real) | Planned(plan: Plan, costUsd: real)

  datatype JudgeReply = SameFamily(message: string) | Judged(verdict: PlanVerdict, costUsd: real)

  predicate Repairable(kind: FailureKind) {
    kind != GateEscalate && kind != FamilyDiversity
  }

  function WriteSetFailure(message: string): PlanPhaseFailure {
    PlanPhaseFailure(WriteSetTopology, ["write-set topology rejected: " + message], [], WRITE_SET_INSTRUCTION, None)
  }

  function MinNodesFailure(actual: nat, required: nat): PlanPhaseFailure {
    PlanPhaseFailure(MinNodes,
      ["the plan has " + Text.Decimal(actual) + " node(s); at least " + Text.Decimal(required) + " are required"], [],
      "Emit at least " + Text.Decimal(required) + " nodes. Split each independently-shippable deliverable in the goal "
      + "into its own node instead of collapsing them into one omnibus node.", None)
  }

  function GateFailure(v: PlanVerdict): PlanPhaseFailure {
    if v.infra then
      PlanPhaseFailure(GateInfra, [], [], INFRA_INSTRUCTION, Some(v))
    else if v.kind == PlanRevise then
      PlanPhaseFailure(GateRevise, v.machineGaps, v.contract, REVISE_INSTRUCTION, Some(v))
    else
      PlanPhaseFailure(GateEscalate, v.machineGaps, [], "", Some(v))
  }

  // ---- One pass ----

  datatype PassResult =
    | Passed(plan: Plan, verdict: PlanVerdict, costUsd: real)
    | Rejected(failure: PlanPhaseFailure, prior: Option<Plan>, costUsd: real)

  /** A plan fit to launch: every node declares its paths and all can be normalised, conflicting writers are ordered, the floor is met. */
  ghost predicate Launchable(plan: Plan, minNodes: Option<nat>) {
    && WriteSet.AllWritable(plan.nodes, true)
    && WriteSet.ConflictsOrdered(plan.nodes)
    && (minNodes.Some? ==> |plan.nodes| >= minNodes.value)
  }

  function TransportFailure(): PlanPhaseFailure {
    PlanPhaseFailure(PlannerTransport, [], [], TRANSPORT_INSTRUCTION, None)
  }

  function FamilyFailure(): PlanPhaseFailure {
    PlanPhaseFailure(FamilyDiversity, [], [], "", None)
  }

  /** `serialized` is `plan` with its write sets normalised and its conflicting writers put in order. */
  ghost predicate SerializedFrom(plan: Plan, serialized: Plan) {
    && serialized == plan.(nodes := serialized.nodes)
    && WriteSet.AllWritable(plan.nodes, false)
    && WriteSet.Extends(WriteSet.NormalNodes(plan.nodes), serialized.nodes)
    && WriteSet.ConflictsOrdered(serialized.nodes)
    && (AcyclicPlan(plan) ==> AcyclicPlan(serialized))
  }

  /** What the node floor and the judge make of a serialized plan. */
  function Gate(plan: Plan, plannerCost: real, judge: Plan -> JudgeReply, minNodes: Option<nat>): PassResult {
    if minNodes.Some? && |plan.nodes| < minNodes.value then
      Rejected(MinNodesFailure(|plan.nodes|, minNodes.value), Some(plan), plannerCost)
    else match judge(plan)
      case SameFamily(_) => Rejected(FamilyFailure(), Some(plan), plannerCost)
      case Judged(verdict, cost) =>
        if verdict.kind != PlanProceed then Rejected(GateFailure(verdict), Some(plan), plannerCost + cost)
        else Passed(plan, verdict, plannerCost + cost)
  }

  /** The rejections in the order they are looked for: no plan, no paths declared or an invalid one, too few nodes, the
      judge. */
  ghost predicate PassOutcome(planned: PlannerReply, judge: Plan -> JudgeReply, minNodes: Option<nat>, pass: PassResult) {
    match planned
    case PlannerFailed(_, cost) => pass == Rejected(TransportFailure(), None, cost)
    case Planned(plan, cost) =>
      if !WriteSet.AllWritable(plan.nodes, true) then
        exists message ::
          WriteSet.RefusedWith(plan.nodes, true, message) && pass == Rejected(WriteSetFailure(message), Some(plan), cost)
      else
        exists serialized :: SerializedFrom(plan, serialized) && pass == Gate(serialized, cost, judge, minNodes)
  }

  predicate GatedAs(reply: JudgeReply, verdict: PlanVerdict) {
    reply.Judged? && reply.verdict == verdict && verdict.kind == PlanProceed
  }

  method PlanGatePass(planned: PlannerReply, judge: Plan -> JudgeReply, minNodes: Option<nat>) returns (pass: PassResult)
    requires planned.Planned? ==> UniqueIds(planned.plan)
    ensures pass.Passed? ==> planned.Planned? && Launchable(pass.plan, minNodes) && GatedAs(judge(pass.plan), pass.verdict)
    ensures pass.Passed? && AcyclicPlan(planned.plan) ==> AcyclicPlan(pass.plan)
    ensures PassOutcome(planned, judge, minNodes, pass)
  {
    hide WriteSetFailure, MinNodesFailure, GateFailure, TransportFailure, FamilyFailure, Reaches, AcyclicPlan;
    hide WriteSet.ConflictsOrdered, WriteSet.Extends, Validation.NoRepeats, WriteSet.AllWritable, WriteSet.NormalNodes;
    hide WriteSet.RefusedWith;
    if planned.PlannerFailed? {
      return Rejected(TransportFailure(), None, planned.costUsd);
    }
    var serialized := WriteSet.SerializeWriteConflicts(planned.plan, true);
    if serialized.Refused? {
      return Rejected(WriteSetFailure(serialized.message), Some(planned.plan), planned.costUsd);
    }
    var plan := serialized.plan;
    WriteSet.SerializedIsWritable(planned.plan.nodes, plan.nodes);
    assert SerializedFrom(planned.plan, plan);
    if minNodes.Some? && |plan.nodes| < minNodes.value {
      return Rejected(MinNodesFailure(|plan.nodes|, minNodes.value), Some(plan), planned.costUsd);
    }
    var gated := judge(plan);
    if gated.SameFamily? {
      return Rejected(FamilyFailure(), Some(plan), planned.costUsd);
    }
    var costUsd := planned.costUsd + gated.costUsd;
    if gated.verdict.kind != PlanProceed {
      return Rejected(GateFailure(gated.verdict), Some(plan), costUsd);
    }
    return Passed(plan, gated.verdict, costUsd);
  }

  // ---- The loop ----

  /** One line of the trail; `kind` is None for the pass that proceeded. */
  datatype PlanRepairAttempt = PlanRepairAttempt(
    attempt: nat, kind: Option<FailureKind>, machineGaps: seq<string>, costUsd: real)

  datatype PlanGateResult =
    | GateOpen(plan: Plan, verdict: PlanVerdict, costUsd: real, attempts: seq<PlanRepairAttempt>)
    | GateStopped(failure: PlanPhaseFailure, reason: StopReason, costUsd: real, attempts: seq<PlanRepairAttempt>)

  function Spent(attempts: seq<PlanRepairAttempt>): real {
    if attempts == [] then 0.0 else Spent(attempts[..|attempts| - 1]) + attempts[|attempts| - 1].costUsd
  }

  function Trail(attempts: seq<PlanRepairAttempt>): seq<seq<string>> {
    seq(|attempts|, i requires 0 <= i < |attempts| => attempts[i].machineGaps)
  }

  ghost predicate NumberedRejections(attempts: seq<PlanRepairAttempt>) {
    forall i :: 0 <= i < |attempts| ==>
      attempts[i].attempt == i + 1 && attempts[i].kind.Some? && Repairable(attempts[i].kind.value)
  }

  ghost predicate BelowCap(attempts: seq<PlanRepairAttempt>, costCapUsd: real) {
    costCapUsd > 0.0 ==> forall i :: 0 < i <= |attempts| ==> Spent(attempts[..i]) < costCapUsd
  }

  /** What was granted a repair: rejected for a repairable reason, below the cap, its defects unbroken. */
  ghost predicate Granted(attempts: seq<PlanRepairAttempt>, costCapUsd: real) {
    NumberedRejections(attempts) && BelowCap(attempts, costCapUsd) && Unbroken(Trail(attempts))
  }

  lemma BelowCapExtends(attempts: seq<PlanRepairAttempt>, record: PlanRepairAttempt, costCapUsd: real)
    requires BelowCap(attempts, costCapUsd) && (costCapUsd > 0.0 ==> Spent(attempts) + record.costUsd < costCapUsd)
    ensures BelowCap(attempts + [record], costCapUsd)
  {
    var longer := attempts + [record];
    assert longer[..|attempts|] == attempts && longer[..|longer|] == longer;
    forall i | 0 < i <= |longer| && costCapUsd > 0.0
      ensures Spent(longer[..i]) < costCapUsd
    {
      if i < |longer| { assert longer[..i] == attempts[..i]; }
    }
  }

  lemma GrantExtends(attempts: seq<PlanRepairAttempt>, record: PlanRepairAttempt, costCapUsd: real, failure: PlanPhaseFailure,
                     costUsd: real, maxAttempts: int)
    requires Granted(attempts, costCapUsd) && costUsd == Spent(attempts) + record.costUsd
    requires record == PlanRepairAttempt(|attempts| + 1, Some(failure.kind), failure.machineGaps, record.costUsd)
    requires DecideGateRepair(GateRepairState(|attempts|, costUsd, Repairable(failure.kind), Trail(attempts), failure.machineGaps),
                              GateRepairBounds(maxAttempts, costCapUsd)).Repair?
    ensures Granted(attempts + [record], costCapUsd) && |attempts| < maxAttempts
    ensures DecideGateRepair(GateRepairState(|attempts|, costUsd, Repairable(failure.kind), Trail(attempts), failure.machineGaps),
                             GateRepairBounds(maxAttempts, costCapUsd)).attempt == |attempts| + 1
  {
    hide Unbroken, BelowCap, Spent, Returned;
    OscillationIsExact(Trail(attempts), failure.machineGaps);
    assert Trail(attempts + [record]) == Trail(attempts) + [failure.machineGaps];
    BelowCapExtends(attempts, record, costCapUsd);
  }

  const PLAN_GATE_NAME := "plan meta-judge gate"

  function PlanOutline(plan: Plan): seq<string> {
    seq(|plan.nodes|, i requires 0 <= i < |plan.nodes| =>
      var n := plan.nodes[i];
      n.id + (if |n.dependsOn| > 0 then " (after " + Text.Join(n.dependsOn, ", ") + ")" else "") + ": " + n.goal)
  }

  function RepairBriefInput(failure: PlanPhaseFailure, plan: Option<Plan>, attempt: nat, maxAttempts: nat): BriefInput {
    BriefInput(PLAN_GATE_NAME, attempt, maxAttempts, failure.machineGaps, failure.contract,
               if failure.verdict.Some? then failure.verdict.value.rationale else "", failure.instruction,
               if plan.Some? then PlanOutline(plan.value) else [])
  }

  function RecordOf(passes: seq<PassResult>, k: nat): PlanRepairAttempt
    requires k < |passes|
  {
    match passes[k]
    case Passed(_, _, costUsd) => PlanRepairAttempt(k + 1, None, [], costUsd)
    case Rejected(failure, _, costUsd) => PlanRepairAttempt(k + 1, Some(failure.kind), failure.machineGaps, costUsd)
  }

  /** What the planner is told at pass `k`: nothing first, then the brief on the rejection just before. */
  function BriefBefore(passes: seq<PassResult>, k: nat, maxRepairAttempts: int): Option<string>
    requires k <= |passes|
  {
    if k == 0 || passes[k - 1].Passed? || maxRepairAttempts < 0 then None
    else Some(Brief(RepairBriefInput(passes[k - 1].failure, passes[k - 1].prior, k, maxRepairAttempts)))
  }

  ghost predicate PlayedAt(passes: seq<PassResult>, k: nat, planner: (nat, Option<string>) -> PlannerReply,
                           judge: (nat, Plan) -> JudgeReply, minNodes: Option<nat>, maxRepairAttempts: int)
    requires k < |passes|
  {
    PassOutcome(planner(k, BriefBefore(passes, k, maxRepairAttempts)), p => judge(k, p), minNodes, passes[k])
  }

  /** Every pass planned against the brief on the pass before it. */
  ghost predicate Played(passes: seq<PassResult>, planner: (nat, Option<string>) -> PlannerReply,
                         judge: (nat, Plan) -> JudgeReply, minNodes: Option<nat>, maxRepairAttempts: int) {
    forall k :: 0 <= k < |passes| ==> PlayedAt(passes, k, planner, judge, minNodes, maxRepairAttempts)
  }

  ghost predicate Recorded(attempts: seq<PlanRepairAttempt>, passes: seq<PassResult>) {
    |attempts| == |passes| && forall k :: 0 <= k < |passes| ==> attempts[k] == RecordOf(passes, k)
  }

  lemma OneMorePass(passes: seq<PassResult>, pass: PassResult, attempts: seq<PlanRepairAttempt>,
                    planner: (nat, Option<string>) -> PlannerReply, judge: (nat, Plan) -> JudgeReply,
                    minNodes: Option<nat>, maxRepairAttempts: int)
    requires Played(passes, planner, judge, minNodes, maxRepairAttempts) && Recorded(attempts, passes)
    requires PassOutcome(planner(|passes|, BriefBefore(passes, |passes|, maxRepairAttempts)), p => judge(|passes|, p), minNodes, pass)
    ensures Played(passes + [pass], planner, judge, minNodes, maxRepairAttempts)
    ensures Recorded(attempts + [RecordOf(passes + [pass], |passes|)], passes + [pass])
    ensures Spent(attempts + [RecordOf(passes + [pass], |passes|)]) == Spent(attempts) + pass.costUsd
    ensures (attempts + [RecordOf(passes + [pass], |passes|)])[..|attempts|] == attempts
  {
    hide PassOutcome, Brief, RepairBriefInput;
    var longer := passes + [pass];
    assert (attempts + [RecordOf(longer, |passes|)])[..|attempts|] == attempts;
    forall k | 0 <= k < |longer|
      ensures PlayedAt(longer, k, planner, judge, minNodes, maxRepairAttempts)
    {
      assert BriefBefore(longer, k, maxRepairAttempts) == BriefBefore(passes, k, maxRepairAttempts);
      if k < |passes| { assert PlayedAt(passes, k, planner, judge, minNodes, maxRepairAttempts); }
    }
    forall k | 0 <= k < |passes|
      ensures RecordOf(longer, k) == RecordOf(passes, k)
    {
    }
  }

  /** Passes are bounded, every pass but the last was granted on the evidence, and the last one decides. */
  ghost predicate Accounted(r: PlanGateResult, passes: seq<PassResult>, judge: (nat, Plan) -> JudgeReply,
                            minNodes: Option<nat>, maxRepairAttempts: int, costCapUsd: real) {
    && 1 <= |passes| <= (if maxRepairAttempts > 0 then maxRepairAttempts else 0) + 1
    && Recorded(r.attempts, passes) && r.costUsd == Spent(r.attempts)
    && var granted, last := r.attempts[..|passes| - 1], passes[|passes| - 1];
    && Granted(granted, costCapUsd)
    && match r
       case GateOpen(plan, verdict, _, _) =>
         && last == Passed(plan, verdict, last.costUsd)
         && Launchable(plan, minNodes) && GatedAs(judge(|passes| - 1, plan), verdict)
       case GateStopped(failure, reason, costUsd, _) =>
         && last.Rejected? && last.failure == failure
         && DecideGateRepair(
              GateRepairState(|granted|, costUsd, Repairable(failure.kind), Trail(granted), failure.machineGaps),
              GateRepairBounds(maxRepairAttempts, costCapUsd)) == Stop(reason)
  }

  /** A gate that does not open stopped for a rejection that cannot be repaired, for want of attempts, for a defect that came
      back, or for the spend: which one, and for no other. */
  ghost predicate StoppedExactly(r: PlanGateResult, passes: seq<PassResult>, maxRepairAttempts: int, costCapUsd: real) {
    r.GateStopped? ==>
      var repairable := r.failure.kind != GateEscalate && r.failure.kind != FamilyDiversity;
      var left := |passes| < (if maxRepairAttempts > 0 then maxRepairAttempts else 0) + 1;
      match r.reason
      case NotRepairable => !repairable
      case RepairDisabled => repairable && !left && maxRepairAttempts <= 0
      case BudgetExhausted(max) => repairable && !left && max == maxRepairAttempts > 0
      case Oscillating(_) => repairable && left && !Unbroken(Trail(r.attempts))
      case CostCapReached(spent, allowed) =>
        repairable && left && Unbroken(Trail(r.attempts)) && spent == r.costUsd && 0.0 < allowed == costCapUsd <= spent
  }

  lemma StopIsExact(r: PlanGateResult, passes: seq<PassResult>, judge: (nat, Plan) -> JudgeReply,
                    minNodes: Option<nat>, maxRepairAttempts: int, costCapUsd: real)
    requires Accounted(r, passes, judge, minNodes, maxRepairAttempts, costCapUsd)
    ensures StoppedExactly(r, passes, maxRepairAttempts, costCapUsd)
  {
    hide Launchable, GatedAs, Unbroken, Spent, DecideGateRepair, BelowCap;
    if r.GateStopped? {
      var granted := r.attempts[..|passes| - 1];
      var gaps := r.failure.machineGaps;
      RepairIsExact(GateRepairState(|granted|, r.costUsd, Repairable(r.failure.kind), Trail(granted), gaps),
                    GateRepairBounds(maxRepairAttempts, costCapUsd));
      assert r.attempts[|passes| - 1] == RecordOf(passes, |passes| - 1);
      assert Trail(r.attempts) == Trail(granted) + [gaps];
    }
  }

  method PlanAndGateChain(planner: (nat, Option<string>) -> PlannerReply, judge: (nat, Plan) -> JudgeReply,
                          minNodes: Option<nat>, maxRepairAttempts: int, costCapUsd: real)
    returns (r: PlanGateResult, ghost passes: seq<PassResult>)
    requires forall k, brief :: planner(k, brief).Planned? ==> UniqueIds(planner(k, brief).plan)
    ensures Played(passes, planner, judge, minNodes, maxRepairAttempts)
    ensures Accounted(r, passes, judge, minNodes, maxRepairAttempts, costCapUsd)
    ensures StoppedExactly(r, passes, maxRepairAttempts, costCapUsd)
  {
    hide Launchable, Granted, GatedAs, Brief, RepairBriefInput, DecideGateRepair, Spent, Trail, UniqueIds, Repairable;
    hide PassOutcome, Played, Recorded, AcyclicPlan, StoppedExactly;
    var attempts: seq<PlanRepairAttempt> := [];
    var costUsd := 0.0;
    var repairBrief: Option<string> := None;
    passes := [];
    NothingGranted(planner, judge, minNodes, maxRepairAttempts, costCapUsd);
    while true
      invariant |attempts| == 0 || |attempts| <= maxRepairAttempts
      invariant |attempts| == |passes| && repairBrief == BriefBefore(passes, |passes|, maxRepairAttempts)
      invariant costUsd == Spent(attempts) && Granted(attempts, costCapUsd)
      invariant Played(passes, planner, judge, minNodes, maxRepairAttempts) && Recorded(attempts, passes)
      decreases maxRepairAttempts - |attempts|
    {
      var k := |attempts|;
      var pass := PlanGatePass(planner(k, repairBrief), p => judge(k, p), minNodes);
      costUsd := costUsd + pass.costUsd;
      OneMorePass(passes, pass, attempts, planner, judge, minNodes, maxRepairAttempts);
      passes := passes + [pass];
      if pass.Passed? {
        r := GateOpen(pass.plan, pass.verdict, costUsd, attempts + [PlanRepairAttempt(k + 1, None, [], pass.costUsd)]);
        StopIsExact(r, passes, judge, minNodes, maxRepairAttempts, costCapUsd);
        return;
      }
      var failure := pass.failure;
      var record := PlanRepairAttempt(k + 1, Some(failure.kind), failure.machineGaps, pass.costUsd);
      var decision := DecideGateRepair(
        GateRepairState(k, costUsd, Repairable(failure.kind), Trail(attempts), failure.machineGaps),
        GateRepairBounds(maxRepairAttempts, costCapUsd));
      if decision.Stop? {
        r := GateStopped(failure, decision.reason, costUsd, attempts + [record]);
        StopIsExact(r, passes, judge, minNodes, maxRepairAttempts, costCapUsd);
        return;
      }
      GrantExtends(attempts, record, costCapUsd, failure, costUsd, maxRepairAttempts);
      attempts := attempts + [record];
      var brief := BuildGateRepairBrief(RepairBriefInput(failure, pass.prior, decision.attempt, maxRepairAttempts));
      repairBrief := Some(brief);
    }
  }

  lemma NothingGranted(planner: (nat, Option<string>) -> PlannerReply, judge: (nat, Plan) -> JudgeReply,
                       minNodes: Option<nat>, maxRepairAttempts: int, costCapUsd: real)
    ensures Granted([], costCapUsd) && Spent([]) == 0.0
    ensures Played([], planner, judge, minNodes, maxRepairAttempts) && Recorded([], [])
  {
  }

  // ---- Oscillations that are none ----

  /** The check that lists defects of this kind ran to its end in an attempt rejected as `kind`. */
  predicate Answers(kind: FailureKind, listedBy: FailureKind) {
    match listedBy
    case WriteSetTopology => kind != PlannerTransport && kind != WriteSetTopology
    case MinNodes => kind != PlannerTransport && kind != WriteSetTopology
    case _ => kind == GateRevise || kind == GateEscalate
  }

  ghost predicate Declared(prior: Option<Plan>) {
    prior.Some? && WriteSet.AllWritable(prior.value.nodes, true)
  }

  function FloorFindings(plan: Plan, minNodes: Option<nat>): seq<string> {
    if minNodes.Some? && |plan.nodes| < minNodes.value then MinNodesFailure(|plan.nodes|, minNodes.value).machineGaps else []
  }

  /** The rejected pass showed a plan without the defect: the check that lists it was made on that plan, and found it gone. */
  ghost predicate PutRight(pass: PassResult, listedBy: FailureKind, defect: string, minNodes: Option<nat>) {
    && pass.Rejected?
    && match listedBy
       case WriteSetTopology => Declared(pass.prior)
       case MinNodes => Declared(pass.prior) && defect !in FloorFindings(pass.prior.value, minNodes)
       case _ =>
         var verdict := pass.failure.verdict;
         verdict.Some? && !verdict.value.infra && defect !in verdict.value.machineGaps
  }

  lemma FloorShape(actual: nat, required: nat)
    ensures MinNodesFailure(actual, required).kind == MinNodes && MinNodesFailure(actual, required).verdict == None
  {
    hide Text.Decimal;
  }

  lemma GateShape(v: PlanVerdict)
    ensures GateFailure(v).verdict == Some(v)
    ensures GateFailure(v).kind == (if v.infra then GateInfra else if v.kind == PlanRevise then GateRevise else GateEscalate)
    ensures GateFailure(v).machineGaps == if v.infra then [] else v.machineGaps
    ensures GateFailure(v).contract == if !v.infra && v.kind == PlanRevise then v.contract else []
  {
    hide REVISE_INSTRUCTION, INFRA_INSTRUCTION;
  }

  /** By the stage at which the pass ended, for a plan whose nodes all declare their paths. */
  lemma FloorPutsRight(plan: Plan, cost: real, required: nat, listedBy: FailureKind, defect: string)
    requires Declared(Some(plan)) && |plan.nodes| < required && defect !in MinNodesFailure(|plan.nodes|, required).machineGaps
    ensures PutRight(Rejected(MinNodesFailure(|plan.nodes|, required), Some(plan), cost), listedBy, defect, Some(required))
            <==> Answers(MinNodes, listedBy)
  {
    hide Declared;
    FloorShape(|plan.nodes|, required);
    hide MinNodesFailure;
  }

  lemma JudgePutsRight(plan: Plan, cost: real, v: PlanVerdict, minNodes: Option<nat>, listedBy: FailureKind, defect: string)
    requires Declared(Some(plan)) && FloorFindings(plan, minNodes) == [] && defect !in GateFailure(v).machineGaps
    ensures PutRight(Rejected(GateFailure(v), Some(plan), cost), listedBy, defect, minNodes)
            <==> Answers(GateFailure(v).kind, listedBy)
  {
    GateShape(v);
    hide Declared, FloorFindings, GateFailure;
  }

  lemma FamilyPutsRight(plan: Plan, cost: real, minNodes: Option<nat>, listedBy: FailureKind, defect: string)
    requires Declared(Some(plan)) && FloorFindings(plan, minNodes) == []
    ensures PutRight(Rejected(FamilyFailure(), Some(plan), cost), listedBy, defect, minNodes)
            <==> Answers(FamilyDiversity, listedBy)
  {
    hide Declared, FloorFindings;
  }

  lemma GatePutsRight(plan: Plan, cost: real, judge: Plan -> JudgeReply, minNodes: Option<nat>, pass: PassResult,
                      listedBy: FailureKind, defect: string)
    requires pass == Gate(plan, cost, judge, minNodes) && pass.Rejected? && defect !in pass.failure.machineGaps
    requires Declared(Some(plan))
    ensures PutRight(pass, listedBy, defect, minNodes) <==> Answers(pass.failure.kind, listedBy)
  {
    hide Declared, MinNodesFailure, GateFailure, PutRight, Answers;
    if minNodes.Some? && |plan.nodes| < minNodes.value {
      FloorShape(|plan.nodes|, minNodes.value);
      FloorPutsRight(plan, cost, minNodes.value, listedBy, defect);
    } else {
      if judge(plan).Judged? {
        JudgePutsRight(plan, pass.costUsd, judge(plan).verdict, minNodes, listedBy, defect);
      } else {
        FamilyPutsRight(plan, pass.costUsd, minNodes, listedBy, defect);
      }
    }
  }

  lemma UndeclaredPutsNothingRight(plan: Plan, message: string, cost: real, listedBy: FailureKind, defect: string,
                                   minNodes: Option<nat>)
    requires !Declared(Some(plan))
    ensures !PutRight(Rejected(WriteSetFailure(message), Some(plan), cost), listedBy, defect, minNodes)
    ensures !Answers(WriteSetFailure(message).kind, listedBy)
  {
    hide Declared;
  }

  /** A rejection that does not list the defect puts it right exactly when it was made by a check that would have. */
  lemma RejectionPutsRight(planned: PlannerReply, judge: Plan -> JudgeReply, minNodes: Option<nat>, pass: PassResult,
                           listedBy: FailureKind, defect: string)
    requires PassOutcome(planned, judge, minNodes, pass) && pass.Rejected? && defect !in pass.failure.machineGaps
    ensures PutRight(pass, listedBy, defect, minNodes) <==> Answers(pass.failure.kind, listedBy)
  {
    hide WriteSet.AllWritable, WriteSet.Extends, WriteSet.ConflictsOrdered, WriteSet.NormalNodes, WriteSet.RefusedWith;
    hide AcyclicPlan;
    hide Text.Decimal, Gate, WriteSetFailure, PutRight, Answers;
    if planned.PlannerFailed? {
      LostReplyPutsNothingRight(planned.costUsd, listedBy, defect, minNodes);
    } else if !WriteSet.AllWritable(planned.plan.nodes, true) {
      var message :| WriteSet.RefusedWith(planned.plan.nodes, true, message)
                     && pass == Rejected(WriteSetFailure(message), Some(planned.plan), planned.costUsd);
      UndeclaredPutsNothingRight(planned.plan, message, planned.costUsd, listedBy, defect, minNodes);
    } else {
      var serialized :| SerializedFrom(planned.plan, serialized) && pass == Gate(serialized, planned.costUsd, judge, minNodes);
      WriteSet.SerializedIsWritable(planned.plan.nodes, serialized.nodes);
      GatePutsRight(serialized, planned.costUsd, judge, minNodes, pass, listedBy, defect);
    }
  }

  lemma LostReplyPutsNothingRight(cost: real, listedBy: FailureKind, defect: string, minNodes: Option<nat>)
    ensures !PutRight(Rejected(TransportFailure(), None, cost), listedBy, defect, minNodes)
    ensures !Answers(PlannerTransport, listedBy)
  {
  }

  /** The last attempt so far to list the defect. */
  ghost predicate LastListing(attempts: seq<PlanRepairAttempt>, a: nat, defect: string) {
    && a < |attempts| && defect in attempts[a].machineGaps
    && forall i :: a < i < |attempts| ==> defect !in attempts[i].machineGaps
  }

  ghost predicate NeverPutRight(passes: seq<PassResult>, a: nat, listedBy: FailureKind, defect: string, minNodes: Option<nat>) {
    forall i :: a < i < |passes| ==> !PutRight(passes[i], listedBy, defect, minNodes)
  }

  ghost predicate NeverAnswered(attempts: seq<PlanRepairAttempt>, a: nat, listedBy: FailureKind) {
    forall i :: a < i < |attempts| && attempts[i].kind.Some? ==> !Answers(attempts[i].kind.value, listedBy)
  }

  const ONE_NODE := Plan("", "", [PlanNode("A", "", [], [], Some(["a"]), 0.0)])

  function Objection(gap: string): PlanVerdict {
    PlanVerdict(PlanRevise, "", false, [gap], [])
  }

  lemma PutRightIsAnswered(passes: seq<PassResult>, attempts: seq<PlanRepairAttempt>, a: nat, defect: string,
                           planner: (nat, Option<string>) -> PlannerReply, judge: (nat, Plan) -> JudgeReply,
                           minNodes: Option<nat>, maxRepairAttempts: int)
    requires Played(passes, planner, judge, minNodes, maxRepairAttempts) && Recorded(attempts, passes)
    requires NumberedRejections(attempts) && LastListing(attempts, a, defect)
    ensures var listedBy := attempts[a].kind.value;
            NeverPutRight(passes, a, listedBy, defect, minNodes) <==> NeverAnswered(attempts, a, listedBy)
  {
    hide PassOutcome, Answers, PutRight, Repairable;
    var listedBy := attempts[a].kind.value;
    forall i | a < i < |passes|
      ensures PutRight(passes[i], listedBy, defect, minNodes) <==> Answers(attempts[i].kind.value, listedBy)
    {
      assert PlayedAt(passes, i, planner, judge, minNodes, maxRepairAttempts) && attempts[i] == RecordOf(passes, i);
      RejectionPutsRight(planner(i, BriefBefore(passes, i, maxRepairAttempts)), p => judge(i, p), minNodes, passes[i],
                         listedBy, defect);
    }
  }

  /** A defect that comes back ends the loop as oscillating however the attempts in between were rejected. It was never put
      right exactly when no attempt since the last to list it was rejected by a check that would have listed it - so an
      unreachable judge, a lost planner reply, or a floor that never let the judge see the plan reads as an oscillation. */
  lemma OutageReadsAsOscillation(passes: seq<PassResult>, attempts: seq<PlanRepairAttempt>, failure: PlanPhaseFailure,
                                 costUsd: real, a: nat, defect: string, planner: (nat, Option<string>) -> PlannerReply,
                                 judge: (nat, Plan) -> JudgeReply, minNodes: Option<nat>, bounds: GateRepairBounds)
    requires Played(passes, planner, judge, minNodes, bounds.maxAttempts) && Recorded(attempts, passes)
    requires NumberedRejections(attempts) && LastListing(attempts, a, defect) && a + 1 < |attempts| < bounds.maxAttempts
    requires Repairable(failure.kind) && defect in failure.machineGaps
    ensures var decision := DecideGateRepair(
                              GateRepairState(|attempts|, costUsd, true, Trail(attempts), failure.machineGaps), bounds);
            decision.Stop? && decision.reason.Oscillating? && defect in decision.reason.returned
    ensures var listedBy := attempts[a].kind.value;
            NeverPutRight(passes, a, listedBy, defect, minNodes) <==> NeverAnswered(attempts, a, listedBy)
  {
    hide NeverPutRight, NeverAnswered, Played, Recorded, Repairable;
    var trail := Trail(attempts);
    assert trail[a] in trail && defect in trail[a] && defect !in trail[|trail| - 1];
    ReturnedMeans(trail, failure.machineGaps, defect);
    PutRightIsAnswered(passes, attempts, a, defect, planner, judge, minNodes, bounds.maxAttempts);
  }

  lemma {:induction false} FindLastListing(attempts: seq<PlanRepairAttempt>, k: nat, defect: string) returns (a: nat)
    requires k < |attempts| && defect in attempts[k].machineGaps
    ensures k <= a && LastListing(attempts, a, defect)
    decreases |attempts| - k
  {
    if i :| k < i < |attempts| && defect in attempts[i].machineGaps {
      a := FindLastListing(attempts, i, defect);
    } else {
      a := k;
    }
  }

  lemma PlayedBefore(passes: seq<PassResult>, attempts: seq<PlanRepairAttempt>, n: nat,
                     planner: (nat, Option<string>) -> PlannerReply, judge: (nat, Plan) -> JudgeReply,
                     minNodes: Option<nat>, maxRepairAttempts: int)
    requires Played(passes, planner, judge, minNodes, maxRepairAttempts) && Recorded(attempts, passes) && n <= |passes|
    ensures Played(passes[..n], planner, judge, minNodes, maxRepairAttempts) && Recorded(attempts[..n], passes[..n])
  {
    hide PassOutcome, Brief, RepairBriefInput;
    forall i | 0 <= i < n
      ensures PlayedAt(passes[..n], i, planner, judge, minNodes, maxRepairAttempts)
    {
      assert PlayedAt(passes, i, planner, judge, minNodes, maxRepairAttempts);
    }
  }

  /** Every oscillation the loop stops for: whether each returned defect had really been put right shows in the trail of
      attempts it returns. */
  lemma StoppedOscillation(r: PlanGateResult, passes: seq<PassResult>, defect: string,
                           planner: (nat, Option<string>) -> PlannerReply, judge: (nat, Plan) -> JudgeReply,
                           minNodes: Option<nat>, maxRepairAttempts: int, costCapUsd: real) returns (a: nat)
    requires Played(passes, planner, judge, minNodes, maxRepairAttempts)
    requires Accounted(r, passes, judge, minNodes, maxRepairAttempts, costCapUsd)
    requires r.GateStopped? && r.reason.Oscillating? && defect in r.reason.returned
    ensures var before := r.attempts[..|passes| - 1];
            && LastListing(before, a, defect) && a + 1 < |before| && before[a].kind.Some?
            && (NeverPutRight(passes[..|passes| - 1], a, before[a].kind.value, defect, minNodes)
                <==> NeverAnswered(before, a, before[a].kind.value))
  {
    hide PassOutcome, Brief, RepairBriefInput, NeverPutRight, NeverAnswered, Repairable, Unbroken, BelowCap, Spent;
    hide Launchable, GatedAs, BriefBefore, Played, RecordOf;
    var before, front := r.attempts[..|passes| - 1], passes[..|passes| - 1];
    ReturnedMeans(Trail(before), r.failure.machineGaps, defect);
    var gaps :| gaps in Trail(before) && defect in gaps;
    var k :| 0 <= k < |before| && Trail(before)[k] == gaps;
    a := FindLastListing(before, k, defect);
    PlayedBefore(passes, r.attempts, |front|, planner, judge, minNodes, maxRepairAttempts);
    PutRightIsAnswered(front, before, a, defect, planner, judge, minNodes, maxRepairAttempts);
  }

  function LostReply(k: nat, brief: Option<string>): PlannerReply {
    if k == 1 then PlannerFailed("", 0.0) else Planned(ONE_NODE, 0.0)
  }

  function Objecting(gap: string): (nat, Plan) -> JudgeReply {
    (k, p) => Judged(Objection(gap), 0.0)
  }

  lemma OnePathIsNormal()
    ensures WritePaths.AllAccepted(["a"]) && WritePaths.NormalSet(["a"]) == ["a"]
  {
    WritePaths.PlainIsFixed(["a"], false);
    assert Text.Join(["a"], "/") + "" == "a";
    hide WritePaths.NormalizeWritePath, WritePaths.Before;
    assert WritePaths.NormalPaths(["a"]) == ["a"];
    WritePaths.SortedIsItsSet(["a"]);
  }

  lemma OneNodeIsFit()
    ensures WriteSet.AllWritable(ONE_NODE.nodes, true) && SerializedFrom(ONE_NODE, ONE_NODE)
  {
    OnePathIsNormal();
    hide WritePaths.AllAccepted, WritePaths.NormalSet, AcyclicPlan, Reaches;
    WriteSet.WritableEitherWay(ONE_NODE.nodes);
    assert WriteSet.NormalNodes(ONE_NODE.nodes) == ONE_NODE.nodes;
    assert WriteSet.ExtendsNode(ONE_NODE.nodes, 0, ONE_NODE.nodes[0]);
  }

  lemma LostPassesGo(gap: string, judge: Plan -> JudgeReply)
    requires judge(ONE_NODE) == Judged(Objection(gap), 0.0)
    ensures PassOutcome(LostReply(0, None), judge, None, Rejected(GateFailure(Objection(gap)), Some(ONE_NODE), 0.0))
    ensures forall brief :: PassOutcome(LostReply(1, brief), judge, None, Rejected(TransportFailure(), None, 0.0))
  {
    OneNodeIsFit();
    hide GateFailure, WriteSet.AllWritable, SerializedFrom, TRANSPORT_INSTRUCTION, ONE_NODE;
  }

  function LostPasses(gap: string): seq<PassResult> {
    [Rejected(GateFailure(Objection(gap)), Some(ONE_NODE), 0.0), Rejected(TransportFailure(), None, 0.0)]
  }

  function LostAttempts(gap: string): seq<PlanRepairAttempt> {
    [PlanRepairAttempt(1, Some(GateRevise), [gap], 0.0), PlanRepairAttempt(2, Some(PlannerTransport), [], 0.0)]
  }

  lemma LostPassesArePlayed(gap: string)
    ensures Played(LostPasses(gap), LostReply, Objecting(gap), None, 3)
    ensures Recorded(LostAttempts(gap), LostPasses(gap))
  {
    GateShape(Objection(gap));
    hide GateFailure, TRANSPORT_INSTRUCTION, PassOutcome, ONE_NODE, LostReply;
    var passes := LostPasses(gap);
    assert LostAttempts(gap)[0] == RecordOf(passes, 0) && LostAttempts(gap)[1] == RecordOf(passes, 1);
    var judge := Objecting(gap);
    assert judge(0, ONE_NODE) == judge(1, ONE_NODE) == Judged(Objection(gap), 0.0);
    hide Objecting, Objection;
    LostPassesGo(gap, p => judge(0, p));
    LostPassesGo(gap, p => judge(1, p));
    assert PlayedAt(passes, 0, LostReply, judge, None, 3);
    assert PlayedAt(passes, 1, LostReply, judge, None, 3);
  }

  /** The judge revises, the next planner reply is lost, and the judge's one objection, never addressed, is called returned. */
  lemma OutageExample(gap: string)
    ensures var passes, attempts := LostPasses(gap), LostAttempts(gap);
            && Played(passes, LostReply, Objecting(gap), None, 3)
            && Recorded(attempts, passes) && LastListing(attempts, 0, gap) && NeverPutRight(passes, 0, GateRevise, gap, None)
            && DecideGateRepair(GateRepairState(2, 0.0, true, Trail(attempts), [gap]), GateRepairBounds(3, 0.0))
               == Stop(Oscillating([gap]))
  {
    LostPassesArePlayed(gap);
    hide GateFailure, TRANSPORT_INSTRUCTION, Played, Recorded, Objection;
    var trail := Trail(LostAttempts(gap));
    assert trail == [[gap], []] && gap in trail[0];
    assert [gap][..0] == [] && Returned(trail, []) == [] && Returned(trail, [gap]) == [gap];
  }
}
