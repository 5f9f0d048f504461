/** How a planning pass ends, by what the planner and the judge replied, and what the planner is told next. */
module GateOutcome {
  import opened ChainTypes
  import opened Graph
  import opened RepairBrief
  import opened BriefContents
  import opened GateRepair
  import Text
  import WriteSet

  /** The planner's plan, if it sent one in which every node declares paths that can be normalised. */
  ghost predicate Fit(planned: PlannerReply) {
    planned.Planned? && WriteSet.AllWritable(planned.plan.nodes, true)
  }

  ghost predicate TooFew(planned: PlannerReply, minNodes: Option<nat>) {
    planned.Planned? && minNodes.Some? && |planned.plan.nodes| < minNodes.value
  }

  /** The verdict that decided the pass on the plan shown to the judge. */
  ghost predicate JudgedAs(pass: PassResult, judge: Plan -> JudgeReply, verdict: PlanVerdict) {
    var shown := if pass.Passed? then Some(pass.plan) else pass.prior;
    shown.Some? && judge(shown.value).Judged? && judge(shown.value).verdict == verdict
  }

  ghost predicate ShownTo(pass: PassResult, judge: Plan -> JudgeReply) {
    var shown := if pass.Passed? then Some(pass.plan) else pass.prior;
    shown.Some? && judge(shown.value).Judged?
  }

  /** Every pass ends in exactly one way, and the replies tell which: no reply, paths that cannot be used, too few nodes, a judge
      of the planner's family, and then by the verdict. It costs what planner and judge charged. */
  lemma PassEndsExactly(planned: PlannerReply, judge: Plan -> JudgeReply, minNodes: Option<nat>, pass: PassResult)
    requires PassOutcome(planned, judge, minNodes, pass)
    ensures EndedAs(pass, PlannerTransport) <==> planned.PlannerFailed?
    ensures EndedAs(pass, WriteSetTopology) <==> planned.Planned? && !Fit(planned)
    ensures EndedAs(pass, MinNodes) <==> Fit(planned) && TooFew(planned, minNodes)
    ensures Reached(planned, minNodes) ==> ByVerdict(pass, judge)
    ensures ShownTo(pass, judge) && Reached(planned, minNodes) ==>
              pass.costUsd == planned.costUsd + judge(if pass.Passed? then pass.plan else pass.prior.value).costUsd
    ensures !Reached(planned, minNodes) || EndedAs(pass, FamilyDiversity) ==> pass.costUsd == planned.costUsd
  {
    hide WriteSet.AllWritable, WriteSet.ConflictsOrdered, WriteSet.NormalNodes, AcyclicPlan, WriteSet.RefusedWith;
    hide Gate, ByVerdict, WriteSetFailure;
    if planned.PlannerFailed? {
    } else if !Fit(planned) {
      var message :| WriteSet.RefusedWith(planned.plan.nodes, true, message)
                     && pass == Rejected(WriteSetFailure(message), Some(planned.plan), planned.costUsd);
      RefusalShape(message);
    } else {
      var serialized :| SerializedFrom(planned.plan, serialized) && pass == Gate(serialized, planned.costUsd, judge, minNodes);
      assert |serialized.nodes| == |planned.plan.nodes|;
      GateEndsExactly(serialized, planned.costUsd, judge, minNodes, pass);
    }
  }

  lemma RefusalShape(message: string)
    ensures WriteSetFailure(message).kind == WriteSetTopology
  {
    hide WRITE_SET_INSTRUCTION;
  }

  /** The plan got past the floors, to the judge. */
  ghost predicate Reached(planned: PlannerReply, minNodes: Option<nat>) {
    Fit(planned) && !TooFew(planned, minNodes)
  }

  predicate EndedAs(pass: PassResult, kind: FailureKind) {
    pass.Rejected? && pass.failure.kind == kind
  }

  /** At the judge: a judge of the planner's family ends the pass; PROCEED passes; a verdict that could not be reached, a REVISE
      and an ESCALATE are told apart. */
  ghost predicate ByVerdict(pass: PassResult, judge: Plan -> JudgeReply) {
    && (EndedAs(pass, FamilyDiversity) <==> !ShownTo(pass, judge))
    && (pass.Passed? <==> exists v :: JudgedAs(pass, judge, v) && v.kind == PlanProceed)
    && (EndedAs(pass, GateInfra) <==> exists v :: JudgedAs(pass, judge, v) && v.kind != PlanProceed && v.infra)
    && (EndedAs(pass, GateRevise) <==> exists v :: JudgedAs(pass, judge, v) && v.kind == PlanRevise && !v.infra)
    && (EndedAs(pass, GateEscalate) <==> exists v :: JudgedAs(pass, judge, v) && v.kind == PlanEscalate && !v.infra)
  }

  lemma GateEndsExactly(plan: Plan, cost: real, judge: Plan -> JudgeReply, minNodes: Option<nat>, pass: PassResult)
    requires pass == Gate(plan, cost, judge, minNodes)
    ensures !EndedAs(pass, PlannerTransport) && !EndedAs(pass, WriteSetTopology)
    ensures EndedAs(pass, MinNodes) <==> minNodes.Some? && |plan.nodes| < minNodes.value
    ensures !EndedAs(pass, MinNodes) ==> ByVerdict(pass, judge) && (pass.Passed? ==> pass.plan == plan)
    ensures pass.Rejected? ==> pass.prior == Some(plan)
    ensures EndedAs(pass, MinNodes) || EndedAs(pass, FamilyDiversity) ==> pass.costUsd == cost
    ensures !EndedAs(pass, MinNodes) && ShownTo(pass, judge) ==> pass.costUsd == cost + judge(plan).costUsd
  {
    hide MinNodesFailure, GateFailure;
    if minNodes.Some? && |plan.nodes| < minNodes.value {
      FloorShape(|plan.nodes|, minNodes.value);
    } else if judge(plan).Judged? {
      var v := judge(plan).verdict;
      GateShape(v);
      assert JudgedAs(pass, judge, v);
      assert forall w :: JudgedAs(pass, judge, w) ==> w == v;
    }
  }

  // ---- The trail ----

  function Costs(passes: seq<PassResult>): real {
    if passes == [] then 0.0 else passes[0].costUsd + Costs(passes[1..])
  }

  lemma {:induction false} CostsAppend(passes: seq<PassResult>, last: PassResult)
    ensures Costs(passes + [last]) == Costs(passes) + last.costUsd
  {
    if passes == [] {
      assert passes + [last] == [last];
    } else {
      CostsAppend(passes[1..], last);
      assert (passes + [last])[1..] == passes[1..] + [last];
    }
  }

  /** The trail has one line for each pass, numbered from one, with its cost and, if it was rejected, the kind and the machine
      gaps; together the lines cost what the passes cost. */
  lemma {:induction false} TrailTells(attempts: seq<PlanRepairAttempt>, passes: seq<PassResult>, k: nat)
    requires Recorded(attempts, passes) && k < |passes|
    ensures (attempts[k].attempt, attempts[k].costUsd) == (k + 1, passes[k].costUsd)
    ensures passes[k].Rejected? ==>
              (attempts[k].kind, attempts[k].machineGaps) == (Some(passes[k].failure.kind), passes[k].failure.machineGaps)
    ensures passes[k].Passed? ==> attempts[k].kind.None? && attempts[k].machineGaps == []
    ensures Spent(attempts) == Costs(passes)
  {
    assert attempts[k] == RecordOf(passes, k);
    TrailCosts(attempts, passes);
  }

  lemma {:induction false} TrailCosts(attempts: seq<PlanRepairAttempt>, passes: seq<PassResult>)
    requires |attempts| == |passes| && forall k :: 0 <= k < |passes| ==> attempts[k] == RecordOf(passes, k)
    ensures Spent(attempts) == Costs(passes)
  {
    if passes != [] {
      var n := |passes| - 1;
      forall k | 0 <= k < n
        ensures attempts[..n][k] == RecordOf(passes[..n], k)
      {
        assert attempts[k] == RecordOf(passes, k);
      }
      TrailCosts(attempts[..n], passes[..n]);
      CostsAppend(passes[..n], passes[n]);
      assert passes == passes[..n] + [passes[n]] && attempts[n] == RecordOf(passes, n);
    }
  }

  // ---- What the rejection says ----

  /** A refused write set is reported with the message it was refused with, too few nodes with both numbers. */
  lemma FloorFailuresTell(message: string, actual: nat, required: nat)
    ensures var gaps := WriteSetFailure(message).machineGaps; |gaps| == 1 && Text.Occurs(message, gaps[0])
    ensures var gaps := MinNodesFailure(actual, required).machineGaps;
            |gaps| == 1 && Text.Occurs(Text.Decimal(actual), gaps[0]) && Text.Occurs(Text.Decimal(required), gaps[0])
  {
    Refused(message);
    TooFewTold(actual, required);
  }

  lemma Refused(message: string)
    ensures var gaps := WriteSetFailure(message).machineGaps; |gaps| == 1 && Text.Occurs(message, gaps[0])
  {
    hide WRITE_SET_INSTRUCTION;
    Text.OccursWithin("write-set topology rejected: ", message, "");
    assert "write-set topology rejected: " + message + "" == "write-set topology rejected: " + message;
  }

  lemma TooFewTold(actual: nat, required: nat)
    ensures var gaps := MinNodesFailure(actual, required).machineGaps;
            |gaps| == 1 && Text.Occurs(Text.Decimal(actual), gaps[0]) && Text.Occurs(Text.Decimal(required), gaps[0])
  {
    hide Text.Decimal, Text.Occurs;
    var a, r := Text.Decimal(actual), Text.Decimal(required);
    var first, middle, last := "the plan has ", " node(s); at least ", " are required";
    Text.OccursWithin(first, a, middle + r + last);
    Text.OccursWithin(first + a + middle, r, last);
    assert first + a + (middle + r + last) == first + a + middle + r + last;
  }

  // ---- What the planner is told next ----

  /** An outline entry opens with the node's id and holds its goal and the nodes it comes after. */
  lemma OutlineTells(plan: Plan, i: nat)
    requires i < |plan.nodes|
    ensures |PlanOutline(plan)| == |plan.nodes|
    ensures plan.nodes[i].id <= PlanOutline(plan)[i]
    ensures Text.Occurs(plan.nodes[i].goal, PlanOutline(plan)[i])
    ensures plan.nodes[i].dependsOn != [] ==> Text.Occurs(Text.Join(plan.nodes[i].dependsOn, ", "), PlanOutline(plan)[i])
  {
    hide Text.Join, Text.Occurs;
    var n, entry := plan.nodes[i], PlanOutline(plan)[i];
    if n.dependsOn == [] {
      assert entry == n.id + "" + ": " + n.goal;
      Text.OccursWithin(n.id + ": ", n.goal, "");
      assert n.id + ": " + n.goal + "" == entry;
    } else {
      var after := Text.Join(n.dependsOn, ", ");
      assert entry == n.id + (" (after " + after + ")") + ": " + n.goal;
      Text.OccursWithin(n.id + " (after ", after, "): " + n.goal);
      assert n.id + " (after " + after + ("): " + n.goal) == entry;
      Text.OccursWithin(n.id + " (after " + after + "): ", n.goal, "");
      assert n.id + " (after " + after + "): " + n.goal + "" == entry;
    }
  }

  /** After a repairable rejection the next pass is planned against a brief that says which attempt of how many it is and lists
      the machine gaps of that rejection: the first word for word, then as many as fit, then how many more. */
  lemma PlannerIsTold(passes: seq<PassResult>, k: nat, maxRepairAttempts: int) returns (brief: string, shown: nat)
    requires k < |passes| && passes[k].Rejected? && maxRepairAttempts >= 0
    ensures BriefBefore(passes, k + 1, maxRepairAttempts) == Some(brief)
    ensures Text.Occurs("attempt " + Text.Decimal(k + 1) + " of " + Text.Decimal(maxRepairAttempts), brief)
    ensures var gaps := passes[k].failure.machineGaps; gaps != [] ==> 1 <= shown && Lists(brief, gaps, shown)
  {
    hide Brief, Text.Decimal, Text.Occurs, Lists, PlanOutline, MandatoryFits, PLAN_GATE_NAME, OneMoreOverruns;
    var input := RepairBriefInput(passes[k].failure, passes[k].prior, k + 1, maxRepairAttempts);
    brief, shown := Brief(input), 0;
    BriefTellsTheAttempt(input);
    if input.machineGaps != [] { shown := BriefListsGaps(input); }
  }

  /** ...closes with that rejection's instruction, and, where there is room for every section, holds the judge's rationale and
      a line for every node of the rejected plan. */
  lemma PlannerKeepsEvidence(passes: seq<PassResult>, k: nat, maxRepairAttempts: int) returns (input: BriefInput)
    requires k < |passes| && passes[k].Rejected? && maxRepairAttempts >= 0
    ensures BriefBefore(passes, k + 1, maxRepairAttempts) == Some(Brief(input))
    ensures var f := passes[k].failure; Text.Occurs(f.instruction, Brief(input))
    ensures ElasticFits(input) && passes[k].failure.verdict.Some? ==>
              var rationale := passes[k].failure.verdict.value.rationale;
              0 < |Text.OneLine(rationale)| <= RationaleRoom(input) ==>
                Text.Occurs(Text.Join(Text.Words(rationale), " "), Brief(input))
    ensures ElasticFits(input) && passes[k].failure.contract != [] ==>
              exists shown :: 1 <= shown <= |passes[k].failure.contract| && Lists(Brief(input), passes[k].failure.contract, shown)
    ensures ElasticFits(input) && passes[k].prior.Some? && SharesSuffice(input) ==>
              forall i :: 0 <= i < |passes[k].prior.value.nodes| ==>
                Text.Occurs(Start(PlanOutline(passes[k].prior.value)[i]), Brief(input))
  {
    hide Brief, Text.Occurs, Lists, MandatoryFits, PLAN_GATE_NAME, Text.Join, Text.Words, Text.OneLine, ElasticFits, Elastic;
    hide RationaleRoom, SharesSuffice, OutlineShare, Left, Start;
    var f, prior := passes[k].failure, passes[k].prior;
    input := RepairBriefInput(f, prior, k + 1, maxRepairAttempts);
    InstructionOccurs(input);
    if ElasticFits(input) {
      if f.verdict.Some? && 0 < |Text.OneLine(f.verdict.value.rationale)| <= RationaleRoom(input) { BriefKeepsRationale(input); }
      if f.contract != [] {
        var shown := BriefListsContract(input);
        ListsNoMore(Brief(input), f.contract, shown);
      }
      if prior.Some? {
        forall i | 0 <= i < |prior.value.nodes| && SharesSuffice(input)
          ensures Text.Occurs(Start(PlanOutline(prior.value)[i]), Brief(input))
        {
          BriefKeepsOutline(input, i);
        }
      }
    }
  }

  lemma ListsNoMore(text: string, items: seq<string>, k: nat)
    requires Lists(text, items, k)
    ensures k <= |items|
  {
  }

  lemma InstructionOccurs(input: BriefInput)
    ensures Text.Occurs(input.instruction, Brief(input))
  {
    BriefKeepsHeaderAndInstruction(input);
    hide Brief, Text.Occurs;
    var brief, before := Brief(input), "\n" + INSTRUCTION_HEADING + "\n";
    var n := |brief| - |before + input.instruction|;
    Text.OccursWithin(brief[..n] + before, input.instruction, "");
    assert brief == brief[..n] + (before + input.instruction);
    assert brief[..n] + before + input.instruction + "" == brief;
  }
}
