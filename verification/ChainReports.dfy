/** Whose report a seal carries: the last execution of its dispatch, and what becomes of it over a run and over all launches. */
module ChainReports {
  import opened Text
  import opened Lineage
  import opened ChainTypes
  import opened Reducer
  import opened Replan
  import opened PlanSurgery
  import opened Journal
  import opened Activities
  import opened ChainLoop
  import opened ChainInvariant
  import opened ChainTurn
  import opened ChainTermination
  import opened ChainGuarantees
  import opened ChainResume
  import opened ChainReentry
  import opened ChainLaunches

  // ---- One dispatch ----

  /** The child failed, by whatever terminal but SUCCESS, and its seal can be resumed. */
  predicate Retryable(report: ChildReport) {
    report.status != RunSuccess && report.resumable
  }

  /** Executed from `first` on, and again as long as the execution before was retryable and a re-entry was left: the report is
      that of the last execution. */
  ghost predicate LastOf(oracle: Oracle, first: nat, report: ChildReport, executions: nat, reentries: nat) {
    && first < executions <= first + 1 + reentries
    && report == oracle(executions - 1)
    && (forall e: nat :: first <= e < executions - 1 ==> Retryable(oracle(e)))
    && (Retryable(report) ==> executions == first + 1 + reentries)
  }

  /** The journal entry of the `i`-th re-entry gives its number and the reason of the execution it follows. */
  predicate RecordsReentry(oracle: Oracle, first: nat, nodeId: string, runId: string, p: Payload, i: nat) {
    && p.NodeResumed? && p.nodeId == nodeId && p.childRunId == runId && p.attempt == i + 1
    && (oracle(first + i).reason.Some? ==> p.reason == oracle(first + i).reason.value)
  }

  /** The journal has grown by `n` re-entry entries, the first of them number `used` + 1. */
  ghost predicate RecordsReentries(oracle: Oracle, first: nat, nodeId: string, runId: string, before: seq<Entry>,
                                   after: seq<Entry>, used: nat, n: nat) {
    && before <= after && |after| == |before| + n
    && forall k :: |before| <= k < |after| ==> RecordsReentry(oracle, first, nodeId, runId, after[k].payload, used + k - |before|)
  }

  lemma OneMoreReentry(oracle: Oracle, first: nat, nodeId: string, runId: string, before: seq<Entry>, p: Payload,
                       after: seq<Entry>, used: nat, n: nat)
    requires RecordsReentry(oracle, first, nodeId, runId, p, used)
    requires RecordsReentries(oracle, first, nodeId, runId, Appended(before, p), after, used + 1, n)
    ensures RecordsReentries(oracle, first, nodeId, runId, before, after, used, n + 1)
  {
    assert after[|before|] == Appended(before, p)[|before|];
  }

  lemma RetryableHeals(report: ChildReport, used: nat, max: nat)
    ensures var heal := DecideNodeHeal(DeriveNodeOutcome(report).status, report.resumable, used, max);
            && (heal.ResumeChild? <==> Retryable(report) && used < max)
            && (heal.ResumeChild? ==> heal.attempt == used + 1)
  {
    hide Decimal;
  }

  lemma {:induction false} AttendEndsWithLast(oracle: Oracle, first: nat, nodeId: string, runId: string, a: Attended, used: nat,
                                              max: nat)
    requires used <= max && a.executions == first + used + 1 && a.report == oracle(first + used)
    requires forall e: nat :: first <= e < first + used ==> Retryable(oracle(e))
    ensures var b := Attend(oracle, nodeId, runId, a, used, max);
            && LastOf(oracle, first, b.report, b.executions, max) && b.executions >= a.executions
            && RecordsReentries(oracle, first, nodeId, runId, a.store.entries, b.store.entries, used, b.executions - a.executions)
    decreases max - used
  {
    RetryableHeals(a.report, used, max);
    hide Decimal, DeriveNodeOutcome;
    match DecideNodeHeal(DeriveNodeOutcome(a.report).status, a.report.resumable, used, max)
    case ReplanNode(_) =>
    case ResumeChild(attempt, why) =>
      var p := NodeResumed(nodeId, runId, attempt, OrElse(a.report.reason, why));
      var next := Attended(oracle(a.executions), a.store.(entries := Appended(a.store.entries, p)), a.executions + 1);
      AttendEndsWithLast(oracle, first, nodeId, runId, next, attempt, max);
      var b := Attend(oracle, nodeId, runId, next, attempt, max);
      OneMoreReentry(oracle, first, nodeId, runId, a.store.entries, p, b.store.entries, used, b.executions - next.executions);
  }

  /** Whatever its children do, a dispatch seals the report of its last execution: every earlier one had failed and could be
      resumed, and it stops at the first that did not, or could not, or when the one re-entry of a healing chain is used. Each
      re-entry is on record with its number and the reason of the execution before. */
  lemma ChildIsLastExecution(input: ChainInput, oracle: Oracle, s: LoopState, id: string)
    ensures var child := RunChild(input, oracle, s, id); var runId := ChildRunId(input.chainId, id);
            && LastOf(oracle, s.executions, child.report, child.executions,
                      if input.maxReplans.Some? && input.maxReplans.value > 0 then 1 else 0)
            && RecordsReentries(oracle, s.executions, id, runId, Started(s.store, id, runId).entries, child.store.entries, 0,
                                child.executions - s.executions - 1)
  {
    hide Attend, HasKey, LastOf, RecordsReentries, ChildRunId;
    var runId := ChildRunId(input.chainId, id);
    AttendEndsWithLast(oracle, s.executions, id, runId,
                       Attended(oracle(s.executions), Started(s.store, id, runId), s.executions + 1), 0, MaxResumes(input));
  }

  /** What the report of an execution makes of the node: SUCCESS exactly when the run says so, its verdict or the default of its
      status, and its marker. */
  predicate Reports(outcome: NodeOutcome, report: ChildReport) {
    && (outcome.status == Success <==> report.status == RunSuccess)
    && outcome.inconclusiveCheck == report.inconclusiveCheck
    && match report.verdict
       case Some(v) => outcome.verdict == v
       case None => outcome.verdict == if report.status == RunSuccess then Proceed else Halt
  }

  /** One turn changes the record in the dispatched node alone. */
  lemma TurnSealsReport(input: ChainInput, oracle: Oracle, s: LoopState)
    requires Dispatching(s)
    ensures var id, t := Dispatched(s).id, Turn(input, oracle, s); var report := RunChild(input, oracle, s, id).report;
            && t.executions == RunChild(input, oracle, s, id).executions
            && id in t.record.nodeOutcomes && Reports(t.record.nodeOutcomes[id], report)
            && t.record.nodeOutcomes == s.record.nodeOutcomes[id := t.record.nodeOutcomes[id]]
            && t.record.nodeRuns == s.record.nodeRuns[id := ChildRunId(input.chainId, id)]
            && t.record.nodeHandoffs == (if report.handoff.Some? then s.record.nodeHandoffs[id := report.handoff.value]
                                         else s.record.nodeHandoffs)
  {
    hide RunChild, DeriveChainStatus, BuildRetryPlan, DecideReplan, Dispatchable, ChildRunId, LoopBounds, BuildReplanBrief;
  }

  /** Different nodes of a chain have different child runs. */
  lemma ChildRunsDiffer(chainId: string, a: string, b: string)
    ensures ChildRunId(chainId, a) == ChildRunId(chainId, b) ==> a == b
    ensures chainId <= ChildRunId(chainId, a)
    ensures ':' in ChildRunId(chainId, a) <==> ':' in chainId || ':' in a
  {
    var prefix := chainId + "-node-";
    assert ChildRunId(chainId, a)[|prefix|..] == a && ChildRunId(chainId, b)[|prefix|..] == b;
  }

  // ---- What a failure becomes ----

  /** The brief names the failed node and gives the failure reason on one line, whenever it fits its limit. */
  predicate TellsWhy(brief: string, failedNodeId: string, failureReason: Option<string>) {
    && |brief| <= MAX_REPLAN_BRIEF_CHARS
    && (|brief| < MAX_REPLAN_BRIEF_CHARS ==>
          && Occurs(failedNodeId, brief)
          && Occurs("previous failure: " + (if failureReason.None? || Words(failureReason.value) == [] then "unknown"
                                            else Join(Words(failureReason.value), " ")), brief))
  }

  lemma {:induction false} OneWord(s: string)
    requires s != "" && forall c :: c in s ==> !IsSpace(c)
    ensures Words(s) == [s]
  {
    assert s[0] in s && s == [s[0]] + s[1..];
    if |s| > 1 {
      assert s[1] in s && forall c :: c in s[1..] ==> c in s;
      OneWord(s[1..]);
      WordThenRest(s);
    } else {
      WordThenRest(s);
      assert s[1..] == "" && Words("") == [];
    }
  }

  lemma UnknownIsOneWord()
    ensures Words("unknown") != [] && Join(Words("unknown"), " ") == "unknown"
  {
    OneWord("unknown");
  }

  lemma BriefTellsWhy(failedNodeId: string, failureReason: Option<string>)
    ensures TellsWhy(BuildReplanBrief(failedNodeId, OrElse(failureReason, "unknown")), failedNodeId, failureReason)
  {
    UnknownIsOneWord();
    BriefGivesReason(failedNodeId, OrElse(failureReason, "unknown"));
    hide BuildReplanBrief, Occurs, Words, Join;
  }

  /** A splice puts the reason into the retry's goal and into the journal, with the plan it made. */
  lemma SpliceTellsWhy(s: LoopState, f: nat, decision: ReplanDecision, failureReason: Option<string>) returns (brief: string)
    requires UniqueIds(s.record.plan) && f < |s.record.plan.nodes| && decision.GrantReplan?
    requires s.record.plan.nodes[f].id !in ReplannedIds(s.store.entries)
    ensures var id, t := s.record.plan.nodes[f].id, SpliceRetry(s, s.record.plan.nodes[f].id, decision, failureReason);
            && f < |t.record.plan.nodes|
            && t.record.plan.nodes[f].goal == s.record.plan.nodes[f].goal + "\n\n" + brief
            && TellsWhy(brief, id, failureReason)
            && t.store.entries == Appended(s.store.entries, NodeReplanned(id, decision.reason, t.record.plan, brief))
            && t.store.row == WithStatus(WithPlan(s.store.row, t.record.plan), Running)
  {
    hide BuildReplanBrief, BuildRetryPlan, ReplannedIds, TellsWhy, HasKey;
    var id, why := s.record.plan.nodes[f].id, OrElse(failureReason, "unknown");
    brief := BuildReplanBrief(id, why);
    BriefTellsWhy(id, failureReason);
    RetryKeepsWork(s.record.plan, f, why, decision.replansUsed);
    hide StripRetry;
    var revised := BuildRetryPlan(s.record.plan, id, why, decision.replansUsed).value;
    ReplannedKey(s.store.entries, NodeReplanned(id, decision.reason, revised, brief));
  }

  lemma ActiveIsNotReplanned(input: ChainInput, s: LoopState, n: PlanNode, reopened: set<string>)
    requires Journaled(input, s, reopened) && n in s.record.plan.nodes
    ensures UniqueIds(s.record.plan) && n.id !in ReplannedIds(s.store.entries)
  {
    hide ReplannedIds, Incarnated, Fold;
    assert n.id in NodeIds(s.record.plan);
    OneActivePerLineage(s.record.plan, n.id, n.id);
  }

  /** A failed dispatch is replaced by a retry that has the failure reason of its last execution in its goal, or it ends the loop
      with the record as sealed, resumable, and the refusal as its reason, if the chain heals at all. */
  lemma FailureIsHandled(input: ChainInput, oracle: Oracle, s: LoopState, reopened: set<string>) returns (f: nat, brief: string)
    requires Journaled(input, s, reopened) && Decides(input, oracle, s)
    ensures var n, t, r := Dispatched(s), Turn(input, oracle, s), DecidedOn(input, oracle, s);
            var decision := DecideReplan(r, n.id, LoopBounds(input));
            && (decision.GrantReplan? ==>
                  && f < |s.record.plan.nodes| && s.record.plan.nodes[f] == n && f < |t.record.plan.nodes|
                  && t.record.plan.nodes[f].goal == n.goal + "\n\n" + brief
                  && TellsWhy(brief, n.id, RunChild(input, oracle, s, n.id).report.reason)
                  && t.store.entries != []
                  && t.store.entries[|t.store.entries| - 1].payload == NodeReplanned(n.id, decision.reason, t.record.plan, brief))
            && (decision.HaltChain? ==>
                  && t.record == r && t.resumableSeal
                  && t.reason == if input.maxReplans.Some? && input.maxReplans.value > 0 then Some(decision.reason) else None)
  {
    var n := Dispatched(s);
    var child := RunChild(input, oracle, s, n.id);
    var folded := FoldNode(input, s, n.id, child);
    FoldKeepsJournal(input, oracle, s, n, reopened);
    ActiveIsNotReplanned(input, folded, n, reopened);
    var decision := DecideReplan(folded.record, n.id, LoopBounds(input));
    f, brief := 0, "";
    hide Journaled, FoldNode, RunChild, TellsWhy, SpliceRetry, ReplannedIds, DecideReplan, Dispatchable;
    if decision.GrantReplan? {
      f :| 0 <= f < |folded.record.plan.nodes| && folded.record.plan.nodes[f] == n;
      brief := SpliceTellsWhy(folded, f, decision, child.report.reason);
    }
  }

  /** So does the retry of an operator's resume, with what the failed node's run last sealed. */
  lemma ResumeTellsWhy(input: ChainInput, s: LoopState, lastReport: ChildReport) returns (f: nat, brief: string)
    requires Journaled(input, s, {}) && FirstFailed(s.record, s.record.plan.nodes).Some?
    requires !Reenters(s.record, FirstFailed(s.record, s.record.plan.nodes).value, lastReport)
    ensures var id, t := FirstFailed(s.record, s.record.plan.nodes).value, ResumeFailed(input, s, lastReport);
            && f < |s.record.plan.nodes| && s.record.plan.nodes[f].id == id && f < |t.record.plan.nodes|
            && t.record.plan.nodes[f].goal == s.record.plan.nodes[f].goal + "\n\n" + brief
            && TellsWhy(brief, id, if id in s.record.nodeRuns then lastReport.reason else None)
            && t.store.entries != [] && t.store.entries[|t.store.entries| - 1].payload.NodeReplanned?
            && t.store.entries[|t.store.entries| - 1].payload.brief == brief
            && t.store.entries[|t.store.entries| - 1].payload.failedNodeId == id
  {
    hide *;
    var id := FirstFailed(s.record, s.record.plan.nodes).value;
    f := FirstFailedIsFirst(s.record, s.record.plan.nodes);
    ActiveIsNotReplanned(input, s, s.record.plan.nodes[f], {});
    var decision := ResumeSplices(input, s, lastReport);
    brief := SpliceTellsWhy(s, f, decision, if id in s.record.nodeRuns then lastReport.reason else None);
    LastAppended(s.store.entries, ResumeFailed(input, s, lastReport).store.entries);
  }

  lemma LastAppended(es: seq<Entry>, longer: seq<Entry>)
    ensures forall p :: longer == Appended(es, p) ==> longer != [] && longer[|longer| - 1].payload == p
  {
  }

  lemma ResumeSplices(input: ChainInput, s: LoopState, lastReport: ChildReport) returns (decision: ReplanDecision)
    requires FirstFailed(s.record, s.record.plan.nodes).Some?
    requires !Reenters(s.record, FirstFailed(s.record, s.record.plan.nodes).value, lastReport)
    ensures var id := FirstFailed(s.record, s.record.plan.nodes).value;
            && decision.GrantReplan?
            && ResumeFailed(input, s, lastReport)
               == SpliceRetry(s, id, decision, if id in s.record.nodeRuns then lastReport.reason else None)
  {
    var id := FirstFailed(s.record, s.record.plan.nodes).value;
    ResumeGrantIsAccepted(s.record, id);
    hide SpliceRetry, DecideReplan, FirstFailed, ResumeGrantBounds, Decimal;
    decision := DecideReplan(s.record, id, ResumeGrantBounds(s.record, id));
  }

  /** The re-entry of an operator's resume is on record as the first attempt, with what that run last sealed. */
  lemma ResumeRecordsReentry(input: ChainInput, s: LoopState, lastReport: ChildReport)
    requires FirstFailed(s.record, s.record.plan.nodes).Some?
    requires Reenters(s.record, FirstFailed(s.record, s.record.plan.nodes).value, lastReport)
    ensures var id, t := FirstFailed(s.record, s.record.plan.nodes).value, ResumeFailed(input, s, lastReport);
            && |t.store.entries| == |s.store.entries| + 1 && s.store.entries <= t.store.entries
            && var p := t.store.entries[|s.store.entries|].payload;
            && p.NodeResumed? && p.nodeId == id && p.childRunId == s.record.nodeRuns[id] && p.attempt == 1
            && (lastReport.reason.Some? ==> p.reason == lastReport.reason.value)
  {
    hide FirstFailed, DecideReplan, SpliceRetry, Decimal, ResumeGrantBounds;
  }

  // ---- Runs ----

  /** The node stands as the report sealed it; without a handoff of its own it keeps what `before` had. */
  predicate SealedBy(before: ChainRecord, r: ChainRecord, id: string, report: ChildReport) {
    && id in r.nodeOutcomes && Reports(r.nodeOutcomes[id], report)
    && match report.handoff
       case Some(h) => id in r.nodeHandoffs && r.nodeHandoffs[id] == h
       case None => SameAt(before.nodeHandoffs, r.nodeHandoffs, id)
  }

  predicate SameAt(a: map<string, string>, b: map<string, string>, id: string) {
    (id in a <==> id in b) && (id in a ==> a[id] == b[id])
  }

  lemma TurnLeavesOthers(input: ChainInput, oracle: Oracle, s: LoopState, id: string)
    requires Dispatching(s) ==> Dispatched(s).id != id
    ensures var t := Turn(input, oracle, s);
            && SameAt(s.record.nodeHandoffs, t.record.nodeHandoffs, id)
            && (id in t.record.nodeOutcomes <==> id in s.record.nodeOutcomes)
            && (id in s.record.nodeOutcomes ==> t.record.nodeOutcomes[id] == s.record.nodeOutcomes[id])
  {
    hide Dispatch, Dispatchable;
    if Dispatching(s) { TurnSealsReport(input, oracle, s); }
  }

  /** What is unsealed after `k` turns has not been written to. */
  lemma {:induction false} UnsealedIsUntouched(input: ChainInput, oracle: Oracle, s: LoopState, k: nat, id: string,
                                               reopened: set<string>)
    requires Journaled(input, s, reopened) && id !in StateAt(input, oracle, s, k).record.nodeOutcomes
    ensures SameAt(s.record.nodeHandoffs, StateAt(input, oracle, s, k).record.nodeHandoffs, id)
  {
    hide Turn, Journaled, Dispatchable;
    if k > 0 {
      var before := StateAt(input, oracle, s, k - 1);
      RunKeepsJournal(input, oracle, s, k - 1, reopened);
      TurnKeepsOutcomes(input, oracle, before, reopened);
      UnsealedIsUntouched(input, oracle, s, k - 1, id, reopened);
      TurnLeavesOthers(input, oracle, before, id);
    }
  }

  /** Turn `j` dispatched the node, `last` was its last execution, and all before that in the turn were retryable. */
  ghost predicate SealedInTurn(input: ChainInput, oracle: Oracle, s: LoopState, j: nat, id: string, last: nat) {
    var a := StateAt(input, oracle, s, j);
    && Dispatching(a) && Dispatched(a).id == id
    && a.executions <= last && StateAt(input, oracle, s, j + 1).executions == last + 1
    && LastOf(oracle, a.executions, oracle(last), last + 1,
              if input.maxReplans.Some? && input.maxReplans.value > 0 then 1 else 0)
  }

  lemma DispatchEnds(input: ChainInput, oracle: Oracle, a: LoopState) returns (last: nat)
    requires Dispatching(a)
    ensures var t := Turn(input, oracle, a);
            && a.executions <= last && t.executions == last + 1
            && LastOf(oracle, a.executions, oracle(last), last + 1,
                      if input.maxReplans.Some? && input.maxReplans.value > 0 then 1 else 0)
            && SealedBy(a.record, t.record, Dispatched(a).id, oracle(last))
  {
    hide *;
    var id, t := Dispatched(a).id, Turn(input, oracle, a);
    var child := RunChild(input, oracle, a, id);
    ChildIsLastExecution(input, oracle, a, id);
    TurnSealsReport(input, oracle, a);
    last := LastIndex(oracle, a.executions, child.report, child.executions,
                      if input.maxReplans.Some? && input.maxReplans.value > 0 then 1 else 0);
    SealedNow(a.record, t.record, id, child.report);
  }

  lemma LastIndex(oracle: Oracle, first: nat, report: ChildReport, executions: nat, reentries: nat) returns (last: nat)
    requires LastOf(oracle, first, report, executions, reentries)
    ensures first <= last && executions == last + 1 && report == oracle(last)
  {
    last := executions - 1;
  }

  lemma SealedNow(before: ChainRecord, r: ChainRecord, id: string, report: ChildReport)
    requires id in r.nodeOutcomes && Reports(r.nodeOutcomes[id], report)
    requires r.nodeHandoffs == (if report.handoff.Some? then before.nodeHandoffs[id := report.handoff.value]
                                else before.nodeHandoffs)
    ensures SealedBy(before, r, id, report)
  {
    hide Reports;
  }

  lemma TurnSealsLast(input: ChainInput, oracle: Oracle, s: LoopState, j: nat) returns (last: nat)
    requires Dispatching(StateAt(input, oracle, s, j))
    ensures var a, b := StateAt(input, oracle, s, j), StateAt(input, oracle, s, j + 1);
            && SealedInTurn(input, oracle, s, j, Dispatched(a).id, last)
            && SealedBy(a.record, b.record, Dispatched(a).id, oracle(last))
  {
    assert StateAt(input, oracle, s, j + 1) == Turn(input, oracle, StateAt(input, oracle, s, j));
    hide Dispatching, Turn, StateAt, LastOf, SealedBy, Dispatchable;
    last := DispatchEnds(input, oracle, StateAt(input, oracle, s, j));
  }

  lemma AsBefore(a: ChainRecord, b: ChainRecord, r: ChainRecord, id: string, report: ChildReport)
    requires SealedBy(b, r, id, report) && SameAt(a.nodeHandoffs, b.nodeHandoffs, id)
    ensures SealedBy(a, r, id, report)
  {
  }

  lemma KeptBy(before: ChainRecord, r: ChainRecord, t: ChainRecord, id: string, report: ChildReport)
    requires SealedBy(before, r, id, report) && SameAt(r.nodeHandoffs, t.nodeHandoffs, id)
    requires id in t.nodeOutcomes && t.nodeOutcomes[id] == r.nodeOutcomes[id]
    ensures SealedBy(before, t, id, report)
  {
  }

  /** Over any run: whatever it has sealed was dispatched in one of its turns, and carries the status, verdict, marker and handoff
      of the last execution of that dispatch; the journal says the same, but of a node the resume re-entered. */
  lemma {:induction false} EverySealIsReported(input: ChainInput, oracle: Oracle, s: LoopState, k: nat, id: string,
                                               reopened: set<string>) returns (j: nat, last: nat)
    requires Journaled(input, s, reopened)
    requires id in StateAt(input, oracle, s, k).record.nodeOutcomes && id !in s.record.nodeOutcomes
    ensures j < k && SealedInTurn(input, oracle, s, j, id, last)
    ensures SealedBy(s.record, StateAt(input, oracle, s, k).record, id, oracle(last))
  {
    hide Turn, Journaled, Dispatchable, SealedBy, SealedInTurn, SameAt;
    var before, after := StateAt(input, oracle, s, k - 1), StateAt(input, oracle, s, k);
    RunKeepsJournal(input, oracle, s, k - 1, reopened);
    if id in before.record.nodeOutcomes {
      j, last := EverySealIsReported(input, oracle, s, k - 1, id, reopened);
      UndispatchedWhenSealed(before, id);
      TurnLeavesOthers(input, oracle, before, id);
      KeptBy(s.record, before.record, after.record, id, oracle(last));
    } else {
      if !Dispatching(before) || Dispatched(before).id != id { TurnLeavesOthers(input, oracle, before, id); }
      j := k - 1;
      last := TurnSealsLast(input, oracle, s, j);
      UnsealedIsUntouched(input, oracle, s, j, id, reopened);
      AsBefore(s.record, before.record, after.record, id, oracle(last));
    }
  }

  lemma UndispatchedWhenSealed(s: LoopState, id: string)
    requires id in s.record.nodeOutcomes
    ensures Dispatching(s) ==> Dispatched(s).id != id
  {
    if Dispatching(s) { DispatchableMeaning(s.record, Dispatched(s)); }
  }

  /** What the journal rebuilds of a node that was not re-entered. */
  lemma JournalAgrees(input: ChainInput, s: LoopState, id: string, reopened: set<string>)
    requires Journaled(input, s, reopened) && id in s.record.nodeOutcomes && id !in reopened
    ensures s.store.row.Some?
    ensures var v := View(s.store);
            && id in v.outcomes && v.outcomes[id] == s.record.nodeOutcomes[id] && SameAt(v.handoffs, s.record.nodeHandoffs, id)
            && v.runs == s.record.nodeRuns
  {
    hide RecordInv, Fold, ReplannedIds;
    SameElsewhere(View(s.store).outcomes, s.record.nodeOutcomes, reopened);
    SameElsewhere(View(s.store).handoffs, s.record.nodeHandoffs, reopened);
  }

  // ---- All launches ----

  /** However often a chain is launched: what a launch seals carries the report of the last execution of its own dispatch, in the
      record and, unless the launch re-entered that node, in the journal. */
  lemma {:induction false} LaunchSealsAreReported(ls: seq<Launch>, k: nat, id: string) returns (j: nat, last: nat)
    requires OneChain(ls) && id in ChainAt(ls, k).record.nodeOutcomes && id !in StartOf(ls).record.nodeOutcomes
    ensures var l, t := ls[|ls| - 1], ChainAt(ls, k);
            && j < k && SealedInTurn(l.input, l.oracle, StartOf(ls), j, id, last)
            && SealedBy(StartOf(ls).record, t.record, id, l.oracle(last))
            && t.store.row.Some?
            && (id !in ReenteredAt(ls) ==>
                  && id in View(t.store).outcomes && Reports(View(t.store).outcomes[id], l.oracle(last))
                  && SameAt(View(t.store).handoffs, t.record.nodeHandoffs, id))
  {
    var l, t := ls[|ls| - 1], ChainAt(ls, k);
    assert t == StateAt(l.input, l.oracle, StartOf(ls), k);
    hide StartOf, StateAt, Journaled, ReenteredAt, OneChain, SealedInTurn, Stale, View, Reports, SameAt, ChainAt;
    StartsInStep(ls);
    RunKeepsJournal(l.input, l.oracle, StartOf(ls), k, ReenteredAt(ls));
    j, last := EverySealIsReported(l.input, l.oracle, StartOf(ls), k, id, ReenteredAt(ls));
    InStepHasRow(l.input, t, ReenteredAt(ls));
    if id !in ReenteredAt(ls) { JournalAgrees(l.input, t, id, ReenteredAt(ls)); }
  }

  lemma InStepHasRow(input: ChainInput, s: LoopState, reopened: set<string>)
    requires Journaled(input, s, reopened)
    ensures s.store.row.Some?
  {
  }

  /** At every moment of every launch different nodes have different child runs. */
  lemma {:induction false} RunsAreDistinct(ls: seq<Launch>, k: nat, a: string, b: string)
    requires OneChain(ls) && a in ChainAt(ls, k).record.nodeRuns && b in ChainAt(ls, k).record.nodeRuns && a != b
    ensures ChainAt(ls, k).record.nodeRuns[a] != ChainAt(ls, k).record.nodeRuns[b]
  {
    var l, t := ls[|ls| - 1], ChainAt(ls, k);
    assert t == StateAt(l.input, l.oracle, StartOf(ls), k);
    hide StartOf, StateAt, StoreInv, ReenteredAt, OneChain, Stale, ChainAt, Incarnated, ChildRunId;
    StartsInStep(ls);
    RunKeepsJournal(l.input, l.oracle, StartOf(ls), k, ReenteredAt(ls));
    ChildRunsDiffer(l.input.chainId, a, b);
  }
}
