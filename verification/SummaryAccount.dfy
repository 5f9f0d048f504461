/** What a suite summary owes to each of its results: where it is listed, why, and what it adds. */
module SummaryAccount {
  import opened ChainTypes
  import opened Grade
  import opened Wilson
  import opened Summary

  // ---- Which results count, and why the others do not ----

  /** Every list of results is split result by result, in order. */
  lemma {:induction false} SplitDistributes(c: Context, a: seq<TaskResult>, b: seq<TaskResult>)
    ensures VerifiedOf(c, a + b) == VerifiedOf(c, a) + VerifiedOf(c, b)
    ensures UnverifiedOf(c, a + b) == UnverifiedOf(c, a) + UnverifiedOf(c, b)
  {
    hide StandingOf, VerifiedOf, UnverifiedOf;
    if b == [] {
      NothingSummed(c);
      assert a + b == a;
    } else {
      var front, last := b[..|b| - 1], b[|b| - 1];
      SplitDistributes(c, a, front);
      VerifiedAppend(c, a + front, last);
      VerifiedAppend(c, front, last);
      assert a + b == (a + front) + [last] && b == front + [last];
    }
  }

  lemma OneResult(c: Context, r: TaskResult)
    ensures VerifiedOf(c, [r]) == if StandingOf(c, r).Verified? then [r] else []
    ensures UnverifiedOf(c, [r]) == if StandingOf(c, r).Verified? then [] else [(r.taskId, StandingOf(c, r).reason)]
    ensures SumScored(c, [r]) == ScoredCounts(r, TaskOf(c, r)) && SumReported([r]) == ReportedCounts(r)
  {
    hide StandingOf, ScoredCounts;
    NothingSummed(c);
    VerifiedAppend(c, [], r);
    SumsAppend(c, [], r);
    assert [] + [r] == [r];
  }

  /** The scored ids that come before the `k`-th are all vouched for. */
  predicate ProvenBefore(ids: seq<string>, k: nat, probed: seq<ProbedRequirement>) {
    k < |ids| && forall j :: 0 <= j < k ==> IsProven(probed, ids[j])
  }

  lemma InRange(ids: seq<string>, k: nat, probed: seq<ProbedRequirement>)
    requires ProvenBefore(ids, k, probed)
    ensures k < |ids|
  {
  }

  lemma {:induction false} UnprovenIsFirst(ids: seq<string>, probed: seq<ProbedRequirement>) returns (k: nat)
    requires FirstUnproven(ids, probed).Unverified?
    ensures ProvenBefore(ids, k, probed) && !IsProven(probed, ids[k])
    ensures FirstUnproven(ids, probed).reason == match FindProbed(probed, ids[k])
              case None => RequirementNotProbed(ids[k])
              case Some(p) => RequirementNotDiscriminating(ids[k], p.classification)
  {
    hide FindProbed;
    if IsProven(probed, ids[0]) {
      k := UnprovenIsFirst(ids[1..], probed);
      assert forall j :: 0 < j < k + 1 ==> ids[j] == ids[1..][j - 1];
      k := k + 1;
    } else {
      k := 0;
    }
  }

  /** The base ref is asked first, then what the ledger says of the task. */
  predicate Asked(c: Context, r: TaskResult, entry: LedgerEntry) {
    && (r.baseVerification.Some? ==> r.baseVerification.value.green)
    && c.ledger.Some? && FindEntry(c.ledger.value, r.taskId) == Some(entry)
  }

  /** ...and the ref it was probed at is the one that was scored. */
  predicate Fresh(c: Context, r: TaskResult, entry: LedgerEntry) {
    Asked(c, r, entry) && r.repoRef == Some(entry.baseRef)
  }

  /** What each reason says of the result: all that is asked before it was in order, and this was not. */
  ghost predicate Holds(c: Context, r: TaskResult, reason: Reason) {
    var reqs := Declared(r, TaskOf(c, r));
    match reason
    case BaseNotGreen(why) => r.baseVerification == Some(BaseVerification(false, why))
    case NeverProbed =>
      && (r.baseVerification.Some? ==> r.baseVerification.value.green)
      && c.ledger.Some? && forall e :: e in c.ledger.value ==> e.taskId != r.taskId
    case NoScoredRef => r.repoRef.None? && exists e :: Asked(c, r, e)
    case StaleProof(probed, scored) =>
      probed != scored && r.repoRef == Some(scored) && exists e :: Asked(c, r, e) && e.baseRef == probed
    case EveryRequirementIsGuard => reqs != [] && (forall q :: q in reqs ==> q.kind == Guard) && exists e :: Fresh(c, r, e)
    case NoRequirements => reqs == [] && exists e :: Fresh(c, r, e)
    case RequirementNotProbed(id) =>
      exists e, k: nat ::
        && Fresh(c, r, e) && ProvenBefore(ScoredIds(reqs), k, e.requirements) && ScoredIds(reqs)[k] == id
        && forall p :: p in e.requirements ==> p.id != id
    case RequirementNotDiscriminating(id, classification) =>
      exists e, k: nat ::
        && Fresh(c, r, e) && ProvenBefore(ScoredIds(reqs), k, e.requirements) && ScoredIds(reqs)[k] == id
        && classification != Discriminating && FindProbed(e.requirements, id) == Some(ProbedRequirement(id, classification))
    case TaskNotDiscriminating(verdict) =>
      verdict != LedgerDiscriminating && exists e :: Fresh(c, r, e) && e.requirements == [] && e.verdict == verdict
  }

  lemma NeverListed(ledger: seq<LedgerEntry>, taskId: string)
    ensures FindEntry(ledger, taskId).None? <==> forall e :: e in ledger ==> e.taskId != taskId
  {
    FirstEntryIsFound(ledger, taskId);
    forall e | e in ledger
      ensures e.taskId in TaskIds(ledger)
    {
      var i :| 0 <= i < |ledger| && ledger[i] == e;
      assert TaskIds(ledger)[i] == e.taskId;
    }
    if taskId in TaskIds(ledger) {
      var i :| 0 <= i < |ledger| && TaskIds(ledger)[i] == taskId;
      assert ledger[i] in ledger;
    }
  }

  lemma {:induction false} FoundProbe(probed: seq<ProbedRequirement>, id: string)
    ensures FindProbed(probed, id).None? <==> forall p :: p in probed ==> p.id != id
    ensures FindProbed(probed, id).Some? ==> FindProbed(probed, id).value in probed && FindProbed(probed, id).value.id == id
  {
    if probed != [] {
      FoundProbe(probed[1..], id);
      assert probed == [probed[0]] + probed[1..];
    }
  }

  lemma {:induction false} AllGuards(reqs: seq<Kinded>)
    ensures ScoredIds(reqs) == [] <==> forall q :: q in reqs ==> q.kind == Guard
  {
    if reqs != [] {
      AllGuards(reqs[1..]);
      assert reqs == [reqs[0]] + reqs[1..];
    }
  }

  /** A result is left out for a reason that holds of it, and for the first one in the order they are asked. */
  lemma ReasonHolds(c: Context, r: TaskResult)
    requires StandingOf(c, r).Unverified?
    ensures Holds(c, r, StandingOf(c, r).reason)
  {
    hide FindEntry, FindProbed, FirstUnproven, ScoredIds, Declared, TaskOf, ProvenBefore;
    if IsTaskVerified(r) {
      NeverListed(c.ledger.value, r.taskId);
      var entry := FindEntry(c.ledger.value, r.taskId);
      if entry.Some? {
        assert Asked(c, r, entry.value);
        var reqs := Declared(r, TaskOf(c, r));
        AllGuards(reqs);
        if r.repoRef == Some(entry.value.baseRef) && ScoredIds(reqs) != [] && entry.value.requirements != [] {
          var k := UnprovenIsFirst(ScoredIds(reqs), entry.value.requirements);
          assert k < |ScoredIds(reqs)| by { InRange(ScoredIds(reqs), k, entry.value.requirements); }
          FoundProbe(entry.value.requirements, ScoredIds(reqs)[k]);
          assert Fresh(c, r, entry.value);
        } else {
          assert r.repoRef == Some(entry.value.baseRef) ==> Fresh(c, r, entry.value);
        }
      }
    }
  }

  /** The requirements asked about are the definition's, if it is at hand, else the graded ones; without a kind they are scored. */
  lemma DeclaredAre(r: TaskResult, task: Option<seq<Requirement>>, i: nat)
    ensures task.Some? ==>
              && |Declared(r, task)| == |task.value|
              && (i < |task.value| ==>
                    && Declared(r, task)[i].id == task.value[i].id
                    && (Declared(r, task)[i].kind == Guard <==> task.value[i].kind == Some(Guard)))
    ensures task.None? ==>
              && |Declared(r, task)| == |r.grading.grades|
              && (i < |r.grading.grades| ==>
                    && Declared(r, task)[i].id == r.grading.grades[i].requirementId
                    && (Declared(r, task)[i].kind == Guard <==> r.grading.grades[i].kind == Some(Guard)))
  {
  }

  /** A recorded kind stands; a missing one is that of the first requirement of that id in the definition at hand. */
  lemma KindsAreFilled(r: TaskResult, task: Option<seq<Requirement>>, i: nat)
    requires i < |r.grading.grades|
    ensures var g, k := r.grading.grades[i], KindedGrades(r, task)[i];
            && (k.requirementId, k.satisfied) == (g.requirementId, g.satisfied)
            && (g.kind.Some? ==> k.kind == g.kind)
            && (g.kind.None? && (task.None? || g.requirementId !in RequirementIds(task.value)) ==> k.kind == None)
            && (g.kind.None? && task.Some? ==>
                  forall j: nat :: FirstAt(RequirementIds(task.value), j, g.requirementId) ==>
                    k.kind == if task.value[j].kind.Some? then task.value[j].kind else Some(Discriminator))
  {
    hide FindKind, FirstAt, RequirementIds;
    if task.Some? { FirstKindIsFound(task.value, r.grading.grades[i].requirementId); }
  }

  // ---- What each result adds ----

  function Total(xs: seq<nat>): nat {
    if xs == [] then 0 else xs[0] + Total(xs[1..])
  }

  lemma {:induction false} TotalAppend(xs: seq<nat>, x: nat)
    ensures Total(xs + [x]) == Total(xs) + x
  {
    if xs == [] {
      assert xs + [x] == [x];
    } else {
      TotalAppend(xs[1..], x);
      assert (xs + [x])[1..] == xs[1..] + [x];
    }
  }

  /** One field of the results' weights. */
  ghost function Weights(c: Context, results: seq<TaskResult>, field: Counts -> nat): (xs: seq<nat>)
    ensures |xs| == |results| && forall i :: 0 <= i < |xs| ==> xs[i] == field(ScoredCounts(results[i], TaskOf(c, results[i])))
  {
    seq<nat>(|results|, i requires 0 <= i < |results| => field(ScoredCounts(results[i], TaskOf(c, results[i]))))
  }

  function Reports(results: seq<TaskResult>, field: TaskGradeReport -> nat): (xs: seq<nat>)
    ensures |xs| == |results| && forall i :: 0 <= i < |xs| ==> xs[i] == field(results[i].grading)
  {
    seq<nat>(|results|, i requires 0 <= i < |results| => field(results[i].grading))
  }

  lemma {:induction false} ScoredByField(c: Context, results: seq<TaskResult>)
    ensures SumScored(c, results) == Counts(Total(Weights(c, results, (n: Counts) => n.total)),
                                            Total(Weights(c, results, (n: Counts) => n.satisfied)),
                                            Total(Weights(c, results, (n: Counts) => n.dependencySatisfied)))
  {
    hide ScoredCounts;
    if results != [] {
      var front, last := results[..|results| - 1], results[|results| - 1];
      ScoredByField(c, front);
      var w := ScoredCounts(last, TaskOf(c, last));
      TotalAppend(Weights(c, front, (n: Counts) => n.total), w.total);
      TotalAppend(Weights(c, front, (n: Counts) => n.satisfied), w.satisfied);
      TotalAppend(Weights(c, front, (n: Counts) => n.dependencySatisfied), w.dependencySatisfied);
      assert Weights(c, results, (n: Counts) => n.total) == Weights(c, front, (n: Counts) => n.total) + [w.total];
      assert Weights(c, results, (n: Counts) => n.satisfied) == Weights(c, front, (n: Counts) => n.satisfied) + [w.satisfied];
      assert Weights(c, results, (n: Counts) => n.dependencySatisfied)
          == Weights(c, front, (n: Counts) => n.dependencySatisfied) + [w.dependencySatisfied];
    }
  }

  lemma {:induction false} ReportedByField(results: seq<TaskResult>)
    ensures SumReported(results) == Counts(Total(Reports(results, (g: TaskGradeReport) => g.total)),
                                           Total(Reports(results, (g: TaskGradeReport) => g.satisfied)),
                                           Total(Reports(results, (g: TaskGradeReport) => g.dependencySatisfied)))
  {
    if results != [] {
      var front, g := results[..|results| - 1], results[|results| - 1].grading;
      ReportedByField(front);
      TotalAppend(Reports(front, (g: TaskGradeReport) => g.total), g.total);
      TotalAppend(Reports(front, (g: TaskGradeReport) => g.satisfied), g.satisfied);
      TotalAppend(Reports(front, (g: TaskGradeReport) => g.dependencySatisfied), g.dependencySatisfied);
      assert Reports(results, (g: TaskGradeReport) => g.total) == Reports(front, (g: TaskGradeReport) => g.total) + [g.total];
      assert Reports(results, (g: TaskGradeReport) => g.satisfied)
          == Reports(front, (g: TaskGradeReport) => g.satisfied) + [g.satisfied];
      assert Reports(results, (g: TaskGradeReport) => g.dependencySatisfied)
          == Reports(front, (g: TaskGradeReport) => g.dependencySatisfied) + [g.dependencySatisfied];
    }
  }

  lemma {:induction false} SumsDistribute(c: Context, a: seq<TaskResult>, b: seq<TaskResult>)
    ensures SumScored(c, a + b) == Plus(SumScored(c, a), SumScored(c, b))
  {
    hide ScoredCounts, SumScored;
    if b == [] {
      NothingSummed(c);
      assert a + b == a;
    } else {
      var front, last := b[..|b| - 1], b[|b| - 1];
      SumsDistribute(c, a, front);
      SumsAppend(c, a + front, last);
      SumsAppend(c, front, last);
      assert a + b == (a + front) + [last] && b == front + [last];
    }
  }

  /** The results without the `i`-th. */
  function Without(results: seq<TaskResult>, i: nat): seq<TaskResult>
    requires i < |results|
  {
    results[..i] + results[i + 1..]
  }

  lemma VerifiedWithout(c: Context, results: seq<TaskResult>, i: nat)
    requires i < |results| && StandingOf(c, results[i]).Verified?
    ensures SumScored(c, VerifiedOf(c, results)) ==
            Plus(SumScored(c, VerifiedOf(c, Without(results, i))), ScoredCounts(results[i], TaskOf(c, results[i])))
  {
    hide ScoredCounts, StandingOf;
    var a, r, b := results[..i], results[i], results[i + 1..];
    assert results == (a + [r]) + b;
    SplitDistributes(c, a + [r], b);
    SplitDistributes(c, a, [r]);
    SplitDistributes(c, a, b);
    OneResult(c, r);
    hide VerifiedOf, UnverifiedOf, SumScored;
    SumsDistribute(c, VerifiedOf(c, a) + [r], VerifiedOf(c, b));
    SumsDistribute(c, VerifiedOf(c, a), [r]);
    SumsDistribute(c, VerifiedOf(c, a), VerifiedOf(c, b));
  }

  lemma VoidedWeight(c: Context, results: seq<TaskResult>, i: nat)
    requires i < |results| && StandingOf(c, results[i]).Verified?
    requires GuardFails(KindedGrades(results[i], TaskOf(c, results[i])))
    ensures var n := SumScored(c, VerifiedOf(c, Without(results, i)));
            FinalCounts(c, results) == n.(total := n.total + |ScoredAt(KindedGrades(results[i], TaskOf(c, results[i])))|)
  {
    var r := results[i];
    hide ScoredCounts, StandingOf, SumScored, SumReported, VerifiedOf, UnverifiedOf, KindedGrades, TaskOf, Without;
    hide ScoredAt, SatisfiedAt, NamedAt, SatisfiedIds, GradeById;
    FailedGuardVoids(r, TaskOf(c, r));
    VerifiedWithout(c, results, i);
    GuardsByPosition(KindedGrades(r, TaskOf(c, r)));
    hide HasGuard;
    assert r in results && HasKinds(c, results);
  }

  /** Of every summary: a verified result with a failed guard adds its scored requirements to the total and nothing else. */
  lemma VoidedAddsToTotalOnly(s: SuiteSummary, c: Context, results: seq<TaskResult>, i: nat, sqrt: real -> real)
    requires Summarizes(s, c, results, sqrt) && i < |results| && StandingOf(c, results[i]).Verified?
    requires GuardFails(KindedGrades(results[i], TaskOf(c, results[i])))
    ensures var n := SumScored(c, VerifiedOf(c, Without(results, i)));
            && s.verified == Some(n.(total := n.total + |ScoredAt(KindedGrades(results[i], TaskOf(c, results[i])))|))
            && s.iSr == Rate(n.satisfied, s.verified.value.total) && s.dSr == Rate(n.dependencySatisfied, s.verified.value.total)
  {
    hide FinalCounts, StandingOf, SumScored, SumReported, VerifiedOf, UnverifiedOf, PerTaskOf, Interval95, Rate, KindedGrades;
    hide ScoredAt, GuardFails, Without, TaskOf;
    VoidedWeight(c, results, i);
  }

  // ---- Single tasks, and summaries written before the counts were kept ----

  /** A task's line says it is verified on both counts exactly when the result is counted. */
  lemma LinesAgree(s: SuiteSummary, c: Context, results: seq<TaskResult>, i: nat, sqrt: real -> real)
    requires Summarizes(s, c, results, sqrt) && i < |results|
    ensures |s.perTask| == |results|
    ensures var line := s.perTask[i];
            && (line.baseVerified && line.discriminationVerified <==> results[i] in VerifiedOf(c, results))
            && (line.baseVerified <==> results[i].baseVerification != Some(BaseVerification(false, BaseReason(results[i]))))
            && (line.taskId, line.total, line.satisfied, line.dependencySatisfied) ==
               (results[i].taskId, results[i].grading.total, results[i].grading.satisfied, results[i].grading.dependencySatisfied)
  {
    hide FinalCounts, SumReported, VerifiedOf, UnverifiedOf, Interval95, Rate, IsDiscriminationVerified;
    VerifiedAreResults(c, results, results[i]);
  }

  function BaseReason(r: TaskResult): Option<string> {
    if r.baseVerification.Some? then r.baseVerification.value.reason else None
  }

  lemma {:induction false} LinesTotal(c: Context, results: seq<TaskResult>, lines: seq<PerTask>)
    requires |lines| == |results| && forall i :: 0 <= i < |results| ==> lines[i] == PerTaskOf(c, results[i])
    ensures SumPerTask(lines) == SumReported(results).dependencySatisfied
  {
    hide IsDiscriminationVerified;
    if results != [] {
      LinesTotal(c, results[..|results| - 1], lines[..|lines| - 1]);
    }
  }

  /** The arm of a summary without verified counts publishes the unfiltered totals of all its results. */
  lemma OldArmCountsEverything(s: SuiteSummary, c: Context, results: seq<TaskResult>, sqrt: real -> real)
    requires Summarizes(s, c, results, sqrt)
    ensures BuildArmDetail(s.(verified := None), sqrt).counts == SumReported(results)
  {
    hide FinalCounts, VerifiedOf, UnverifiedOf, Interval95, Rate, PerTaskOf, SumPerTask, SumReported;
    LinesTotal(c, results, s.perTask);
  }
}
