/** Suite summaries: which tasks count, what they weigh, and the rates published from them. */
module Summary {
  import opened ChainTypes
  import opened Grade
  import opened Wilson
  import Leaderboard

  datatype Classification = Discriminating | NonDiscriminating | Unsatisfiable | Unclear

  datatype ProbedRequirement = ProbedRequirement(id: string, classification: Classification)

  datatype LedgerVerdict = LedgerDiscriminating | LedgerNotDiscriminating | LedgerInconclusive

  datatype LedgerEntry = LedgerEntry(taskId: string, baseRef: string, verdict: LedgerVerdict, requirements: seq<ProbedRequirement>)

  datatype BaseVerification = BaseVerification(green: bool, reason: Option<string>)

  datatype TaskResult = TaskResult(
    taskId: string, repoRef: Option<string>, baseVerification: Option<BaseVerification>, grading: TaskGradeReport)

  /** What a summary is made against: the discrimination ledger, if any, and the benchmark definitions at hand. */
  datatype Context = Context(ledger: Option<seq<LedgerEntry>>, tasks: map<string, seq<Requirement>>)

  // ---- Which results count ----

  datatype Reason =
    | BaseNotGreen(reason: Option<string>)
    | NeverProbed
    | NoScoredRef
    | StaleProof(probed: string, scored: string)
    | EveryRequirementIsGuard
    | NoRequirements
    | RequirementNotProbed(id: string)
    | RequirementNotDiscriminating(id: string, classification: Classification)
    | TaskNotDiscriminating(verdict: LedgerVerdict)

  datatype Standing = Verified | Unverified(reason: Reason)

  predicate IsTaskVerified(r: TaskResult) {
    r.baseVerification.None? || r.baseVerification.value.green
  }

  /** `i` is the first position whose id is the one looked for. */
  predicate FirstAt(ids: seq<string>, i: nat, id: string) {
    i < |ids| && ids[i] == id && id !in ids[..i]
  }

  function FindEntry(ledger: seq<LedgerEntry>, taskId: string): Option<LedgerEntry> {
    if ledger == [] then None
    else if ledger[0].taskId == taskId then Some(ledger[0])
    else FindEntry(ledger[1..], taskId)
  }

  function FindProbed(probed: seq<ProbedRequirement>, id: string): Option<ProbedRequirement> {
    if probed == [] then None else if probed[0].id == id then Some(probed[0]) else FindProbed(probed[1..], id)
  }

  function TaskIds(ledger: seq<LedgerEntry>): (ids: seq<string>)
    ensures |ids| == |ledger| && forall i :: 0 <= i < |ids| ==> ids[i] == ledger[i].taskId
  {
    seq(|ledger|, i requires 0 <= i < |ledger| => ledger[i].taskId)
  }

  function ProbedIds(probed: seq<ProbedRequirement>): (ids: seq<string>)
    ensures |ids| == |probed| && forall i :: 0 <= i < |ids| ==> ids[i] == probed[i].id
  {
    seq(|probed|, i requires 0 <= i < |probed| => probed[i].id)
  }

  /** The entry consulted is the first one with the result's task id. */
  lemma {:induction false} FirstEntryIsFound(ledger: seq<LedgerEntry>, taskId: string)
    ensures FindEntry(ledger, taskId).None? <==> taskId !in TaskIds(ledger)
    ensures forall i: nat :: FirstAt(TaskIds(ledger), i, taskId) ==> FindEntry(ledger, taskId) == Some(ledger[i])
  {
    if ledger != [] {
      FirstEntryIsFound(ledger[1..], taskId);
      assert TaskIds(ledger)[1..] == TaskIds(ledger[1..]);
      forall i: nat | 0 < i && FirstAt(TaskIds(ledger), i, taskId)
        ensures FindEntry(ledger, taskId) == Some(ledger[i])
      {
        assert TaskIds(ledger)[0] in TaskIds(ledger)[..i];
        assert TaskIds(ledger)[..i][1..] == TaskIds(ledger[1..])[..i - 1];
        assert FirstAt(TaskIds(ledger[1..]), i - 1, taskId);
      }
    }
  }

  /** So is the probe of a requirement. */
  lemma {:induction false} FirstProbeIsFound(probed: seq<ProbedRequirement>, id: string)
    ensures FindProbed(probed, id).None? <==> id !in ProbedIds(probed)
    ensures forall i: nat :: FirstAt(ProbedIds(probed), i, id) ==> FindProbed(probed, id) == Some(probed[i])
  {
    if probed != [] {
      FirstProbeIsFound(probed[1..], id);
      assert ProbedIds(probed)[1..] == ProbedIds(probed[1..]);
      forall i: nat | 0 < i && FirstAt(ProbedIds(probed), i, id)
        ensures FindProbed(probed, id) == Some(probed[i])
      {
        assert ProbedIds(probed)[0] in ProbedIds(probed)[..i];
        assert ProbedIds(probed)[..i][1..] == ProbedIds(probed[1..])[..i - 1];
        assert FirstAt(ProbedIds(probed[1..]), i - 1, id);
      }
    }
  }

  /** The first scored requirement that the ledger does not vouch for. */
  function FirstUnproven(ids: seq<string>, probed: seq<ProbedRequirement>): Standing {
    if ids == [] then Verified
    else
      var found := FindProbed(probed, ids[0]);
      if found.None? then Unverified(RequirementNotProbed(ids[0]))
      else if found.value.classification != Discriminating then
        Unverified(RequirementNotDiscriminating(ids[0], found.value.classification))
      else FirstUnproven(ids[1..], probed)
  }

  datatype Kinded = Kinded(id: string, kind: RequirementKind)

  function Declared(r: TaskResult, task: Option<seq<Requirement>>): seq<Kinded> {
    if task.Some? then
      seq(|task.value|, i requires 0 <= i < |task.value| => Kinded(task.value[i].id, KindOf(task.value[i])))
    else
      seq(|r.grading.grades|, i requires 0 <= i < |r.grading.grades| =>
        var g := r.grading.grades[i]; Kinded(g.requirementId, if g.kind.Some? then g.kind.value else Discriminator))
  }

  function ScoredIds(reqs: seq<Kinded>): seq<string> {
    if reqs == [] then []
    else (if reqs[0].kind != Guard then [reqs[0].id] else []) + ScoredIds(reqs[1..])
  }

  function IsDiscriminationVerified(r: TaskResult, ledger: Option<seq<LedgerEntry>>, task: Option<seq<Requirement>>): Standing {
    if ledger.None? then Verified
    else
      var entry := FindEntry(ledger.value, r.taskId);
      if entry.None? then Unverified(NeverProbed)
      else if r.repoRef.None? then Unverified(NoScoredRef)
      else if entry.value.baseRef != r.repoRef.value then Unverified(StaleProof(entry.value.baseRef, r.repoRef.value))
      else
        var reqs := Declared(r, task);
        var scored := ScoredIds(reqs);
        if reqs != [] && scored == [] then Unverified(EveryRequirementIsGuard)
        else if scored == [] then Unverified(NoRequirements)
        else if entry.value.requirements != [] then FirstUnproven(scored, entry.value.requirements)
        else if entry.value.verdict != LedgerDiscriminating then Unverified(TaskNotDiscriminating(entry.value.verdict))
        else Verified
  }

  predicate IsProven(probed: seq<ProbedRequirement>, id: string) {
    FindProbed(probed, id).Some? && FindProbed(probed, id).value.classification == Discriminating
  }

  lemma {:induction false} ProvenMeansAll(ids: seq<string>, probed: seq<ProbedRequirement>)
    ensures FirstUnproven(ids, probed).Verified? <==>
            forall id :: id in ids ==> IsProven(probed, id)
  {
    if ids != [] {
      var first, rest := ids[0], ids[1..];
      ProvenMeansAll(rest, probed);
      assert FirstUnproven(ids, probed).Verified? <==> IsProven(probed, first) && FirstUnproven(rest, probed).Verified?;
      forall id | id in ids && id !in rest ensures id == first { }
      forall id | id in rest ensures id in ids { }
    }
  }

  lemma {:induction false} ScoredMeansNotGuard(reqs: seq<Kinded>, id: string)
    ensures id in ScoredIds(reqs) <==> exists q :: q in reqs && q.id == id && q.kind != Guard
  {
    if reqs != [] {
      ScoredMeansNotGuard(reqs[1..], id);
      assert reqs == [reqs[0]] + reqs[1..];
    }
  }

  /** Against a ledger a result is proven exactly when its task was probed at the scored ref, scores something, and every
      scored requirement, or without a breakdown its probe verdict, is discriminating. */
  lemma DiscriminationIsExact(r: TaskResult, ledger: seq<LedgerEntry>, task: Option<seq<Requirement>>)
    ensures IsDiscriminationVerified(r, Some(ledger), task).Verified? <==>
            && FindEntry(ledger, r.taskId).Some?
            && var entry := FindEntry(ledger, r.taskId).value;
            && r.repoRef == Some(entry.baseRef)
            && (exists q :: q in Declared(r, task) && q.kind != Guard)
            && if entry.requirements == [] then entry.verdict == LedgerDiscriminating
               else forall q :: q in Declared(r, task) && q.kind != Guard ==> IsProven(entry.requirements, q.id)
  {
    hide FindEntry, IsProven, FirstUnproven, ScoredIds, Declared;
    var entry, reqs := FindEntry(ledger, r.taskId), Declared(r, task);
    forall id ensures id in ScoredIds(reqs) <==> exists q :: q in reqs && q.id == id && q.kind != Guard {
      ScoredMeansNotGuard(reqs, id);
    }
    if entry.Some? { ProvenMeansAll(ScoredIds(reqs), entry.value.requirements); }
    assert ScoredIds(reqs) != [] ==> ScoredIds(reqs)[0] in ScoredIds(reqs);
    forall q | q in reqs && q.kind != Guard ensures q.id in ScoredIds(reqs) { }
  }

  function TaskOf(c: Context, r: TaskResult): Option<seq<Requirement>> {
    if r.taskId in c.tasks then Some(c.tasks[r.taskId]) else None
  }

  /** Both verifications; the base ref is asked first. */
  function StandingOf(c: Context, r: TaskResult): Standing {
    if !IsTaskVerified(r) then Unverified(BaseNotGreen(r.baseVerification.value.reason))
    else IsDiscriminationVerified(r, c.ledger, TaskOf(c, r))
  }

  // ---- What a result weighs ----

  datatype Counts = Counts(total: nat, satisfied: nat, dependencySatisfied: nat)

  function Plus(a: Counts, b: Counts): Counts {
    Counts(a.total + b.total, a.satisfied + b.satisfied, a.dependencySatisfied + b.dependencySatisfied)
  }

  predicate Ordered(n: Counts) {
    n.dependencySatisfied <= n.satisfied <= n.total
  }

  function FindKind(reqs: seq<Requirement>, id: string): Option<RequirementKind> {
    if reqs == [] then None else if reqs[0].id == id then Some(KindOf(reqs[0])) else FindKind(reqs[1..], id)
  }

  function RequirementIds(reqs: seq<Requirement>): (ids: seq<string>)
    ensures |ids| == |reqs| && forall i :: 0 <= i < |ids| ==> ids[i] == reqs[i].id
  {
    seq(|reqs|, i requires 0 <= i < |reqs| => reqs[i].id)
  }

  /** The kind is that of the first requirement with the id, a discriminator where none is written. */
  lemma {:induction false} FirstKindIsFound(reqs: seq<Requirement>, id: string)
    ensures FindKind(reqs, id).None? <==> id !in RequirementIds(reqs)
    ensures forall i: nat :: FirstAt(RequirementIds(reqs), i, id) ==>
              FindKind(reqs, id) == if reqs[i].kind.Some? then reqs[i].kind else Some(Discriminator)
  {
    if reqs != [] {
      FirstKindIsFound(reqs[1..], id);
      assert RequirementIds(reqs)[1..] == RequirementIds(reqs[1..]);
      forall i: nat | 0 < i && FirstAt(RequirementIds(reqs), i, id)
        ensures FindKind(reqs, id) == if reqs[i].kind.Some? then reqs[i].kind else Some(Discriminator)
      {
        assert RequirementIds(reqs)[0] in RequirementIds(reqs)[..i];
        assert RequirementIds(reqs)[..i][1..] == RequirementIds(reqs[1..])[..i - 1];
        assert FirstAt(RequirementIds(reqs[1..]), i - 1, id);
      }
    }
  }

  /** A grade recorded without a kind takes its definition's. */
  function WithKind(g: RequirementGrade, task: Option<seq<Requirement>>): RequirementGrade {
    if g.kind.None? && task.Some? then g.(kind := FindKind(task.value, g.requirementId)) else g
  }

  function KindedGrades(r: TaskResult, task: Option<seq<Requirement>>): (grades: seq<RequirementGrade>)
    ensures |grades| == |r.grading.grades|
    ensures forall i :: 0 <= i < |grades| ==> grades[i] == WithKind(r.grading.grades[i], task)
  {
    seq(|r.grading.grades|, i requires 0 <= i < |r.grading.grades| => WithKind(r.grading.grades[i], task))
  }

  predicate IsGuard(g: RequirementGrade) {
    g.kind == Some(Guard)
  }

  function Scored(grades: seq<RequirementGrade>): seq<RequirementGrade> {
    if grades == [] then []
    else Scored(grades[..|grades| - 1]) + (if IsGuard(grades[|grades| - 1]) then [] else [grades[|grades| - 1]])
  }

  predicate HasGuard(grades: seq<RequirementGrade>) {
    exists g :: g in grades && IsGuard(g)
  }

  predicate GuardsPassed(grades: seq<RequirementGrade>) {
    forall g :: g in grades && IsGuard(g) ==> g.satisfied
  }

  function CountIn(grades: seq<RequirementGrade>, ids: set<string>): nat {
    if grades == [] then 0
    else CountIn(grades[..|grades| - 1], ids) + (if grades[|grades| - 1].requirementId in ids then 1 else 0)
  }

  /** The scored weight: guards are conditions, not scores, and one failed guard voids the result. */
  ghost function ScoredCounts(r: TaskResult, task: Option<seq<Requirement>>): Counts {
    var grades := KindedGrades(r, task);
    var scored := Scored(grades);
    if !GuardsPassed(grades) then Counts(|scored|, 0, 0)
    else
      var dep :=
        if task.Some? then CountIn(scored, SatisfiedIds(task.value, GradeById(grades)))
        else if !HasGuard(grades) then
          if r.grading.dependencySatisfied < |scored| then r.grading.dependencySatisfied else |scored|
        else CountSatisfied(scored);
      Counts(|scored|, CountSatisfied(scored), dep)
  }

  // ---- The weight, read off the grades ----

  /** Some guard, by recorded kind or by definition, was not satisfied. */
  predicate GuardFails(grades: seq<RequirementGrade>) {
    exists i :: 0 <= i < |grades| && grades[i].kind == Some(Guard) && !grades[i].satisfied
  }

  /** The positions of the grades that are no guards. */
  function ScoredAt(grades: seq<RequirementGrade>): set<nat> {
    set i: nat | i < |grades| && grades[i].kind != Some(Guard)
  }

  function SatisfiedAt(grades: seq<RequirementGrade>): set<nat> {
    set i: nat | i < |grades| && grades[i].kind != Some(Guard) && grades[i].satisfied
  }

  function NamedAt(grades: seq<RequirementGrade>, ids: set<string>): set<nat> {
    set i: nat | i < |grades| && grades[i].kind != Some(Guard) && grades[i].requirementId in ids
  }

  /** One more position at the end of a list. */
  lemma OnePosition(front: set<nat>, all: set<nat>, n: nat, added: bool)
    requires forall i: nat :: i in front ==> i < n
    requires forall i: nat :: i in all <==> i in front || (added && i == n)
    ensures |all| == |front| + if added then 1 else 0
  {
    assert all == front + if added then {n} else {};
  }

  lemma ScoredCountsAppend(front: seq<RequirementGrade>, last: RequirementGrade, ids: set<string>)
    ensures CountSatisfied(front + [last]) == CountSatisfied(front) + if last.satisfied then 1 else 0
    ensures CountIn(front + [last], ids) == CountIn(front, ids) + if last.requirementId in ids then 1 else 0
  {
    assert (front + [last])[..|front|] == front;
  }

  /** What the filtered lists count is what stands at those positions. */
  lemma {:induction false} CountsArePositions(grades: seq<RequirementGrade>, ids: set<string>)
    ensures |Scored(grades)| == |ScoredAt(grades)|
    ensures CountSatisfied(Scored(grades)) == |SatisfiedAt(grades)|
    ensures CountIn(Scored(grades), ids) == |NamedAt(grades, ids)|
  {
    if grades == [] {
      assert ScoredAt(grades) == SatisfiedAt(grades) == NamedAt(grades, ids) == {};
    } else {
      var front, last := grades[..|grades| - 1], grades[|grades| - 1];
      CountsArePositions(front, ids);
      OnePosition(ScoredAt(front), ScoredAt(grades), |front|, !IsGuard(last));
      OnePosition(SatisfiedAt(front), SatisfiedAt(grades), |front|, !IsGuard(last) && last.satisfied);
      OnePosition(NamedAt(front, ids), NamedAt(grades, ids), |front|, !IsGuard(last) && last.requirementId in ids);
      hide ScoredAt, SatisfiedAt, NamedAt;
      ScoredCountsAppend(Scored(front), last, ids);
      assert Scored(grades) == if IsGuard(last) then Scored(front) else Scored(front) + [last];
    }
  }

  /** One failed guard voids a result: it adds to the total and to nothing else. With none, it is worth exactly its satisfied
      grades that are no guards, and those of them whose prerequisites hold. */
  lemma FailedGuardVoids(r: TaskResult, task: Option<seq<Requirement>>)
    ensures var n, grades := ScoredCounts(r, task), KindedGrades(r, task);
            && n.total == |ScoredAt(grades)|
            && (GuardFails(grades) ==> n.satisfied == n.dependencySatisfied == 0)
            && (!GuardFails(grades) ==>
                  && n.satisfied == |SatisfiedAt(grades)|
                  && n.dependencySatisfied ==
                     if task.Some? then |NamedAt(grades, SatisfiedIds(task.value, GradeById(grades)))|
                     else if exists i :: 0 <= i < |grades| && grades[i].kind == Some(Guard) then |SatisfiedAt(grades)|
                     else if r.grading.dependencySatisfied < n.total then r.grading.dependencySatisfied else n.total)
  {
    var grades := KindedGrades(r, task);
    hide KindedGrades, SatisfiedIds, GradeById, WithKind, ScoredAt, SatisfiedAt, NamedAt, CountIn, CountSatisfied;
    CountsArePositions(grades, if task.Some? then SatisfiedIds(task.value, GradeById(grades)) else {});
    GuardsByPosition(grades);
    hide GuardsPassed, HasGuard, GuardFails, Scored;
  }

  lemma GuardsByPosition(grades: seq<RequirementGrade>)
    ensures GuardsPassed(grades) <==> !GuardFails(grades)
    ensures HasGuard(grades) <==> exists i :: 0 <= i < |grades| && grades[i].kind == Some(Guard)
  {
    assert forall i :: 0 <= i < |grades| ==> grades[i] in grades;
  }

  function ReportedCounts(r: TaskResult): Counts {
    Counts(r.grading.total, r.grading.satisfied, r.grading.dependencySatisfied)
  }

  function VerifiedOf(c: Context, results: seq<TaskResult>): seq<TaskResult> {
    if results == [] then []
    else
      var last := results[|results| - 1];
      VerifiedOf(c, results[..|results| - 1]) + (if StandingOf(c, last).Verified? then [last] else [])
  }

  function UnverifiedOf(c: Context, results: seq<TaskResult>): seq<(string, Reason)> {
    if results == [] then []
    else
      var last := results[|results| - 1];
      UnverifiedOf(c, results[..|results| - 1])
      + (if StandingOf(c, last).Verified? then [] else [(last.taskId, StandingOf(c, last).reason)])
  }

  ghost function SumScored(c: Context, results: seq<TaskResult>): Counts {
    if results == [] then Counts(0, 0, 0)
    else
      var last := results[|results| - 1];
      Plus(SumScored(c, results[..|results| - 1]), ScoredCounts(last, TaskOf(c, last)))
  }

  function SumReported(results: seq<TaskResult>): Counts {
    if results == [] then Counts(0, 0, 0)
    else Plus(SumReported(results[..|results| - 1]), ReportedCounts(results[|results| - 1]))
  }

  predicate HasKinds(c: Context, results: seq<TaskResult>) {
    exists r :: r in results && HasGuard(KindedGrades(r, TaskOf(c, r)))
  }

  /** The k and n behind the published rates. */
  ghost function FinalCounts(c: Context, results: seq<TaskResult>): Counts {
    var verified := VerifiedOf(c, results);
    if HasKinds(c, results) || c.ledger.Some? then SumScored(c, verified) else SumReported(verified)
  }

  // ---- The weights are ordered, and unverified results have none ----

  /** The report counts its own grades and repeats no id. It may be older than kinds, or than the definition at hand. */
  predicate Counted(r: TaskResult) {
    && DistinctGrades(r.grading.grades)
    && r.grading.satisfied == CountSatisfied(r.grading.grades)
    && Ordered(ReportedCounts(r))
  }

  /** The report was counted for the definition at hand, if there is one, with no id repeated; kinds may be missing. */
  ghost predicate Graded(r: TaskResult, task: Option<seq<Requirement>>) {
    exists reqs :: CountedFrom(r.grading, reqs) && DistinctRequirements(reqs) && (task.Some? ==> task.value == reqs)
  }

  predicate DistinctRequirements(reqs: seq<Requirement>) {
    forall i, j :: 0 <= i < j < |reqs| ==> reqs[i].id != reqs[j].id
  }

  predicate DistinctGrades(grades: seq<RequirementGrade>) {
    forall i, j :: 0 <= i < j < |grades| ==> grades[i].requirementId != grades[j].requirementId
  }

  lemma {:induction false} GradeLookup(grades: seq<RequirementGrade>, i: nat)
    requires DistinctGrades(grades) && i < |grades|
    ensures grades[i].requirementId in GradeById(grades)
    ensures GradeById(grades)[grades[i].requirementId] == grades[i].satisfied
  {
    if i < |grades| - 1 { GradeLookup(grades[..|grades| - 1], i); }
  }

  lemma {:induction false} CountInBelow(grades: seq<RequirementGrade>, ids: set<string>)
    requires forall g :: g in grades && g.requirementId in ids ==> g.satisfied
    ensures CountIn(grades, ids) <= CountSatisfied(grades) <= |grades|
  {
    if grades != [] {
      var front := grades[..|grades| - 1];
      assert forall g :: g in front ==> g in grades;
      CountInBelow(front, ids);
    }
  }

  lemma {:induction false} CountInExact(grades: seq<RequirementGrade>, ids: set<string>)
    requires DistinctGrades(grades)
    requires forall id :: id in ids ==> exists g :: g in grades && g.requirementId == id
    ensures CountIn(grades, ids) == |ids|
  {
    if grades == [] {
      assert ids == {};
    } else {
      var front, last := grades[..|grades| - 1], grades[|grades| - 1];
      var rest := ids - {last.requirementId};
      forall id | id in rest
        ensures exists g :: g in front && g.requirementId == id
      {
        var g :| g in grades && g.requirementId == id;
        assert grades == front + [last];
      }
      CountInExact(front, rest);
      OthersUncounted(front, ids, last.requirementId);
      hide DistinctGrades;
      assert ids == if last.requirementId in ids then rest + {last.requirementId} else rest;
    }
  }

  lemma {:induction false} OthersUncounted(grades: seq<RequirementGrade>, ids: set<string>, id: string)
    requires forall g :: g in grades ==> g.requirementId != id
    ensures CountIn(grades, ids) == CountIn(grades, ids - {id})
  {
    if grades != [] {
      var front := grades[..|grades| - 1];
      assert forall g :: g in front ==> g in grades;
      assert grades[|grades| - 1] in grades;
      OthersUncounted(front, ids, id);
    }
  }

  lemma {:induction false} ScoredAreGrades(grades: seq<RequirementGrade>)
    ensures forall g :: g in Scored(grades) <==> g in grades && !IsGuard(g)
    ensures !HasGuard(grades) ==> Scored(grades) == grades
    ensures |Scored(grades)| <= |grades|
  {
    if grades != [] {
      var front, last := grades[..|grades| - 1], grades[|grades| - 1];
      ScoredAreGrades(front);
      assert grades == front + [last];
      if !HasGuard(grades) {
        assert last in grades && !IsGuard(last);
        assert forall g :: g in front ==> g in grades;
      }
    }
  }

  /** Filling in kinds changes no id and no grade. */
  lemma {:induction false} KindsAreNotCounted(grades: seq<RequirementGrade>, kinded: seq<RequirementGrade>)
    requires |grades| == |kinded|
    requires forall i :: 0 <= i < |grades| ==>
               kinded[i].requirementId == grades[i].requirementId && kinded[i].satisfied == grades[i].satisfied
    ensures GradeById(kinded) == GradeById(grades) && CountSatisfied(kinded) == CountSatisfied(grades)
    ensures DistinctGrades(kinded) == DistinctGrades(grades)
  {
    if grades != [] {
      KindsAreNotCounted(grades[..|grades| - 1], kinded[..|grades| - 1]);
    }
  }

  lemma KindedReport(r: TaskResult, task: Option<seq<Requirement>>)
    ensures var grades := KindedGrades(r, task);
            && GradeById(grades) == GradeById(r.grading.grades) && CountSatisfied(grades) == CountSatisfied(r.grading.grades)
            && DistinctGrades(grades) == DistinctGrades(r.grading.grades)
  {
    hide FindKind;
    KindsAreNotCounted(r.grading.grades, KindedGrades(r, task));
  }

  /** What grading counted, with or without its kinds, is counted in order. */
  lemma GradedReport(r: TaskResult, task: Option<seq<Requirement>>) returns (reqs: seq<Requirement>)
    requires Graded(r, task)
    ensures CountedFrom(r.grading, reqs) && DistinctRequirements(reqs) && (task.Some? ==> task.value == reqs)
    ensures Counted(r)
  {
    reqs :| CountedFrom(r.grading, reqs) && DistinctRequirements(reqs) && (task.Some? ==> task.value == reqs);
    var grades := r.grading.grades;
    assert forall i :: 0 <= i < |grades| ==> grades[i].requirementId == reqs[i].id;
    hide SatisfiedIds, GradeById;
    SatisfiedIdsPassed(reqs, GradeById(grades));
    CountBounds(grades, SatisfiedIds(reqs, GradeById(grades)));
  }

  lemma PassedAreSatisfied(grades: seq<RequirementGrade>, ids: set<string>)
    requires DistinctGrades(grades) && forall id :: id in ids ==> id in GradeById(grades) && GradeById(grades)[id]
    ensures forall g :: g in grades && g.requirementId in ids ==> g.satisfied
  {
    forall g | g in grades && g.requirementId in ids
      ensures g.satisfied
    {
      var i :| 0 <= i < |grades| && grades[i] == g;
      GradeLookup(grades, i);
    }
  }

  lemma ScoredCountsAreOrdered(r: TaskResult, task: Option<seq<Requirement>>)
    requires Counted(r)
    ensures Ordered(ScoredCounts(r, task))
  {
    hide SatisfiedIds, GradeById, KindedGrades, WithKind, CountIn, DistinctGrades;
    KindedReport(r, task);
    var grades := KindedGrades(r, task);
    var scored := Scored(grades);
    ScoredAreGrades(grades);
    CountInBelow(scored, {});
    if task.Some? {
      SatisfiedIdsPassed(task.value, GradeById(grades));
      PassedAreSatisfied(grades, SatisfiedIds(task.value, GradeById(grades)));
      CountInBelow(scored, SatisfiedIds(task.value, GradeById(grades)));
    }
  }

  /** Without guards the scored weight is the reported one. */
  lemma ScoredIsReportedWithoutGuards(r: TaskResult, task: Option<seq<Requirement>>)
    requires Graded(r, task) && !HasGuard(KindedGrades(r, task))
    ensures ScoredCounts(r, task) == ReportedCounts(r)
  {
    hide KindedGrades, FindKind, DistinctGrades, CountIn, Graded, CountSatisfied, GradeById, SatisfiedIds;
    hide HasGuard, GuardsPassed, Scored;
    var reqs := GradedReport(r, task);
    KindedReport(r, task);
    NoGuardFails(KindedGrades(r, task));
    var grades := KindedGrades(r, task);
    ScoredAreGrades(grades);
    var ids := SatisfiedIds(reqs, GradeById(grades));
    GradesOfRequirements(reqs, grades);
    CountInExact(grades, ids);
  }

  lemma NoGuardFails(grades: seq<RequirementGrade>)
    ensures !HasGuard(grades) ==> GuardsPassed(grades)
  {
  }

  lemma {:induction false} GradesOfRequirements(reqs: seq<Requirement>, grades: seq<RequirementGrade>)
    requires |grades| == |reqs| && forall i :: 0 <= i < |reqs| ==> grades[i].requirementId == reqs[i].id
    ensures forall id :: id in SatisfiedIds(reqs, GradeById(grades)) ==> exists g :: g in grades && g.requirementId == id
  {
    forall id | id in SatisfiedIds(reqs, GradeById(grades))
      ensures exists g :: g in grades && g.requirementId == id
    {
      ByIdKeys(reqs);
      var q :| q in reqs && q.id == id;
      var i :| 0 <= i < |reqs| && reqs[i] == q;
      assert grades[i] in grades && grades[i].requirementId == id;
    }
  }

  ghost predicate AllGraded(c: Context, results: seq<TaskResult>) {
    forall r :: r in results ==> Graded(r, TaskOf(c, r))
  }

  predicate AllCounted(results: seq<TaskResult>) {
    forall r :: r in results ==> Counted(r)
  }

  lemma {:induction false} SumsAreOrdered(c: Context, results: seq<TaskResult>)
    requires AllCounted(results)
    ensures Ordered(SumScored(c, results)) && Ordered(SumReported(results))
  {
    hide ScoredCounts;
    if results != [] {
      var front, last := results[..|results| - 1], results[|results| - 1];
      assert results == front + [last];
      SumsAreOrdered(c, front);
      ScoredCountsAreOrdered(last, TaskOf(c, last));
    }
  }

  lemma {:induction false} SumsAgreeWithoutGuards(c: Context, results: seq<TaskResult>)
    requires AllGraded(c, results) && !HasKinds(c, results)
    ensures SumScored(c, results) == SumReported(results)
  {
    hide ScoredCounts, Graded, HasGuard;
    if results != [] {
      var front, last := results[..|results| - 1], results[|results| - 1];
      assert results == front + [last] && last in results;
      SumsAgreeWithoutGuards(c, front);
      ScoredIsReportedWithoutGuards(last, TaskOf(c, last));
    }
  }

  lemma {:induction false} VerifiedAreResults(c: Context, results: seq<TaskResult>, r: TaskResult)
    ensures r in VerifiedOf(c, results) <==> r in results && StandingOf(c, r).Verified?
  {
    hide StandingOf;
    if results != [] {
      var front, last := results[..|results| - 1], results[|results| - 1];
      assert results == front + [last];
      VerifiedAreResults(c, front, r);
    }
  }

  lemma VerifiedAppend(c: Context, front: seq<TaskResult>, last: TaskResult)
    ensures VerifiedOf(c, front + [last]) == VerifiedOf(c, front) + (if StandingOf(c, last).Verified? then [last] else [])
    ensures UnverifiedOf(c, front + [last]) ==
            UnverifiedOf(c, front) + (if StandingOf(c, last).Verified? then [] else [(last.taskId, StandingOf(c, last).reason)])
  {
    assert (front + [last])[..|front|] == front;
  }

  ghost predicate Excluded(c: Context, results: seq<TaskResult>, u: (string, Reason)) {
    exists r :: r in results && StandingOf(c, r) == Unverified(u.1) && r.taskId == u.0
  }

  /** Every result is either counted or listed with its reason, never both. */
  lemma {:induction false} SplitIsExact(c: Context, results: seq<TaskResult>)
    ensures |VerifiedOf(c, results)| + |UnverifiedOf(c, results)| == |results|
    ensures VerifiedOf(c, VerifiedOf(c, results)) == VerifiedOf(c, results)
    ensures forall u :: u in UnverifiedOf(c, results) ==> Excluded(c, results, u)
  {
    if results != [] {
      var front, last := results[..|results| - 1], results[|results| - 1];
      assert results == front + [last];
      SplitIsExact(c, front);
      SplitStep(c, front, last);
    }
  }

  lemma SplitStep(c: Context, front: seq<TaskResult>, last: TaskResult)
    requires |VerifiedOf(c, front)| + |UnverifiedOf(c, front)| == |front|
    requires VerifiedOf(c, VerifiedOf(c, front)) == VerifiedOf(c, front)
    requires forall u :: u in UnverifiedOf(c, front) ==> Excluded(c, front, u)
    ensures var results := front + [last];
            && |VerifiedOf(c, results)| + |UnverifiedOf(c, results)| == |results|
            && VerifiedOf(c, VerifiedOf(c, results)) == VerifiedOf(c, results)
            && forall u :: u in UnverifiedOf(c, results) ==> Excluded(c, results, u)
  {
    hide StandingOf, VerifiedOf, UnverifiedOf;
    VerifiedAppend(c, front, last);
    VerifiedAppend(c, VerifiedOf(c, front), last);
    assert VerifiedOf(c, front) + [] == VerifiedOf(c, front);
    forall u | u in UnverifiedOf(c, front + [last])
      ensures Excluded(c, front + [last], u)
    {
      if u in UnverifiedOf(c, front) {
        var r :| r in front && StandingOf(c, r) == Unverified(u.1) && r.taskId == u.0;
        assert r in front + [last];
      } else {
        assert last in front + [last];
      }
    }
  }

  /** Dependency-satisfied <= satisfied <= total, whichever way the suite is counted. */
  lemma FinalCountsAreOrdered(c: Context, results: seq<TaskResult>)
    requires AllCounted(results)
    ensures Ordered(FinalCounts(c, results))
  {
    hide StandingOf, Counted, Ordered, SumScored, SumReported;
    forall r | r in VerifiedOf(c, results) ensures Counted(r) {
      VerifiedAreResults(c, results, r);
    }
    SumsAreOrdered(c, VerifiedOf(c, results));
  }

  /** Dropping every unverified result leaves the published counts alone, unless one of those results has the suite's only
      guard, there is no ledger, and the two ways of counting disagree on the verified ones. They never disagree on
      reports counted for the definitions at hand. */
  lemma UnverifiedWeighNothing(c: Context, results: seq<TaskResult>)
    ensures var verified := VerifiedOf(c, results);
            FinalCounts(c, verified) == FinalCounts(c, results) <==>
            || c.ledger.Some? || HasKinds(c, verified) || !HasKinds(c, results)
            || SumScored(c, verified) == SumReported(verified)
    ensures AllGraded(c, VerifiedOf(c, results)) ==> FinalCounts(c, VerifiedOf(c, results)) == FinalCounts(c, results)
  {
    hide HasGuard, StandingOf, Graded;
    var verified := VerifiedOf(c, results);
    SplitIsExact(c, results);
    if HasKinds(c, verified) {
      var r :| r in verified && HasGuard(KindedGrades(r, TaskOf(c, r)));
      VerifiedAreResults(c, results, r);
      assert HasKinds(c, results);
    } else if AllGraded(c, verified) {
      SumsAgreeWithoutGuards(c, verified);
    }
  }

  const EDITED := TaskResult("a", None, None, TaskGradeReport([RequirementGrade("q", true, None)], 1, 1, 1))

  const REJECTED_GUARD :=
    TaskResult("b", None, Some(BaseVerification(false, None)), TaskGradeReport([RequirementGrade("g", true, Some(Guard))], 1, 1, 1))

  lemma EditedIsUnsatisfied(task: seq<Requirement>)
    requires task == [Requirement("q", ["p"], None)]
    ensures SatisfiedIds(task, GradeById(EDITED.grading.grades)) == {}
  {
    assert ById(task) == map["q" := task[0]] by { assert task[..0] == []; }
    SatisfactionIsFixpoint(ById(task), GradeById(EDITED.grading.grades), "q");
    SatisfactionIsFixpoint(ById(task), GradeById(EDITED.grading.grades), "p");
    assert "p" in task[0].prerequisites;
  }

  lemma EditedWeighs(task: seq<Requirement>)
    requires task == [Requirement("q", ["p"], None)]
    ensures ScoredCounts(EDITED, Some(task)) == Counts(1, 1, 0)
    ensures !HasGuard(KindedGrades(EDITED, Some(task))) && HasGuard(KindedGrades(REJECTED_GUARD, None))
  {
    EditedIsUnsatisfied(task);
    KindedReport(EDITED, Some(task));
    hide SatisfiedIds, GradeById;
    var grades := KindedGrades(EDITED, Some(task));
    assert grades == [RequirementGrade("q", true, Some(Discriminator))];
    assert grades[..0] == [] && Scored(grades[..0]) == [];
    assert Scored(grades) == grades;
    assert CountIn(grades, {}) == 0 && CountSatisfied(grades) == 1;
    assert KindedGrades(REJECTED_GUARD, None)[0] in KindedGrades(REJECTED_GUARD, None);
  }

  /** A counted result without guards beside an excluded one with a guard. */
  lemma ExcludedGuardDecides(c: Context, a: TaskResult, b: TaskResult)
    requires c.ledger.None? && StandingOf(c, a).Verified? && StandingOf(c, b).Unverified?
    requires !HasGuard(KindedGrades(a, TaskOf(c, a))) && HasGuard(KindedGrades(b, TaskOf(c, b)))
    ensures VerifiedOf(c, [a, b]) == [a] && FinalCounts(c, [a]) == ReportedCounts(a)
    ensures FinalCounts(c, [a, b]) == ScoredCounts(a, TaskOf(c, a))
  {
    hide HasGuard, KindedGrades, ScoredCounts, StandingOf, VerifiedOf, UnverifiedOf, TaskOf, SumScored, SumReported;
    NothingSummed(c);
    VerifiedAppend(c, [], a);
    VerifiedAppend(c, [a], b);
    SumsAppend(c, [], a);
    assert [] + [a] == [a] && [a] + [b] == [a, b];
    assert b in [a, b] && HasKinds(c, [a, b]);
  }

  lemma EditedIsCounted()
    ensures AllCounted([EDITED, REJECTED_GUARD])
    ensures ReportedCounts(EDITED) == Counts(1, 1, 1)
  {
    assert EDITED.grading.grades[..0] == [] && REJECTED_GUARD.grading.grades[..0] == [];
  }

  /** A prerequisite added to a definition after its task was graded shows only while an excluded guard is in the suite. */
  lemma EditedDefinitionExample()
    ensures var c := Context(None, map["a" := [Requirement("q", ["p"], None)]]);
            && AllCounted([EDITED, REJECTED_GUARD]) && VerifiedOf(c, [EDITED, REJECTED_GUARD]) == [EDITED]
            && FinalCounts(c, [EDITED]) == Counts(1, 1, 1) && FinalCounts(c, [EDITED, REJECTED_GUARD]) == Counts(1, 1, 0)
  {
    var task := [Requirement("q", ["p"], None)];
    var c := Context(None, map["a" := task]);
    assert TaskOf(c, EDITED) == Some(task) && TaskOf(c, REJECTED_GUARD) == None;
    assert StandingOf(c, EDITED).Verified? && StandingOf(c, REJECTED_GUARD).Unverified?;
    EditedWeighs(task);
    EditedIsCounted();
    hide EDITED, REJECTED_GUARD, HasGuard, KindedGrades, ScoredCounts, StandingOf, VerifiedOf, TaskOf, AllCounted;
    hide FinalCounts;
    ExcludedGuardDecides(c, EDITED, REJECTED_GUARD);
  }

  // ---- The summary ----

  const Z95 := 1.959963984540054

  lemma RadicandNotNegative(k: nat, n: nat)
    requires n > 0 && k <= n
    ensures Radicand(k, n, Z95) >= 0.0
  {
    RateInRange(k, n);
    SquareShare(Z95, 4.0 * n as real * n as real);
    var q := Rate(k, n) * (1.0 - Rate(k, n));
    Product(Rate(k, n), 1.0 - Rate(k, n));
    Quotient(q, n as real);
    Cancel(0.0, q / n as real, n as real);
  }

  /** `sqrt` need only be right on what is not negative. */
  ghost predicate TakesRoots(sqrt: real -> real) {
    forall x :: x >= 0.0 ==> IsRoot(sqrt(x), x)
  }

  function Interval95(k: nat, n: nat, sqrt: real -> real): Interval {
    if n == 0 then Interval(0.0, 0.0) else ScoreInterval(k, n, Z95, sqrt(Radicand(k, n, Z95)))
  }

  datatype PerTask = PerTask(taskId: string, satisfied: nat, dependencySatisfied: nat, total: nat,
                             baseVerified: bool, discriminationVerified: bool)

  /** The three verified counts are absent from summaries written before they existed. */
  datatype SuiteSummary = SuiteSummary(
    tasks: nat, tasksVerified: nat, unverifiedTasks: seq<(string, Reason)>,
    requirementsTotal: nat, requirementsSatisfied: nat, verified: Option<Counts>,
    iSr: real, dSr: real, iSrRange: Interval, dSrRange: Interval, perTask: seq<PerTask>)

  function PerTaskOf(c: Context, r: TaskResult): PerTask {
    PerTask(r.taskId, r.grading.satisfied, r.grading.dependencySatisfied, r.grading.total,
            IsTaskVerified(r), IsDiscriminationVerified(r, c.ledger, TaskOf(c, r)).Verified?)
  }

  /** What a summary must say of its results. */
  ghost predicate Summarizes(s: SuiteSummary, c: Context, results: seq<TaskResult>, sqrt: real -> real) {
    var n := FinalCounts(c, results);
    && s.tasks == |results| && s.tasksVerified == |VerifiedOf(c, results)| && s.unverifiedTasks == UnverifiedOf(c, results)
    && s.requirementsTotal == SumReported(results).total && s.requirementsSatisfied == SumReported(results).satisfied
    && s.verified == Some(n)
    && s.iSr == Rate(n.satisfied, n.total) && s.dSr == Rate(n.dependencySatisfied, n.total)
    && s.iSrRange == Interval95(n.satisfied, n.total, sqrt) && s.dSrRange == Interval95(n.dependencySatisfied, n.total, sqrt)
    && s.perTask == seq(|results|, i requires 0 <= i < |results| => PerTaskOf(c, results[i]))
  }

  /** One result's scored weight, as the loop computes it. */
  method Weigh(r: TaskResult, task: Option<seq<Requirement>>) returns (n: Counts)
    ensures n == ScoredCounts(r, task)
    ensures n.total == |ScoredAt(KindedGrades(r, task))|
    ensures n.satisfied == if GuardFails(KindedGrades(r, task)) then 0 else |SatisfiedAt(KindedGrades(r, task))|
    ensures GuardFails(KindedGrades(r, task)) ==> n.dependencySatisfied == 0
  {
    FailedGuardVoids(r, task);
    hide GuardFails, ScoredAt, SatisfiedAt, NamedAt;
    var grades := KindedGrades(r, task);
    var scored := Scored(grades);
    if !GuardsPassed(grades) { return Counts(|scored|, 0, 0); }
    var satisfied := CountSatisfied(scored);
    var dependencySatisfied;
    if task.Some? {
      var depOk := DependencySatisfiedIds(task.value, GradeById(grades));
      dependencySatisfied := CountIn(scored, depOk);
    } else if !HasGuard(grades) {
      dependencySatisfied := if r.grading.dependencySatisfied < |scored| then r.grading.dependencySatisfied else |scored|;
    } else {
      dependencySatisfied := satisfied;
    }
    return Counts(|scored|, satisfied, dependencySatisfied);
  }

  lemma SumsAppend(c: Context, front: seq<TaskResult>, last: TaskResult)
    ensures SumScored(c, front + [last]) == Plus(SumScored(c, front), ScoredCounts(last, TaskOf(c, last)))
    ensures SumReported(front + [last]) == Plus(SumReported(front), ReportedCounts(last))
  {
    assert (front + [last])[..|front|] == front;
  }

  method Summarize(c: Context, results: seq<TaskResult>, sqrt: real -> real) returns (s: SuiteSummary)
    ensures Summarizes(s, c, results, sqrt)
  {
    hide ScoredCounts, StandingOf, SumScored, SumReported, VerifiedOf, UnverifiedOf, PerTaskOf, HasKinds, Interval95, Rate;
    var requirements, unverifiedTasks, verifiedResults, perTask := Counts(0, 0, 0), [], [], [];
    var verifiedScored, verifiedReported := Counts(0, 0, 0), Counts(0, 0, 0);
    NothingSummed(c);
    assert results[..0] == [];
    for i := 0 to |results|
      invariant verifiedResults == VerifiedOf(c, results[..i]) && unverifiedTasks == UnverifiedOf(c, results[..i])
      invariant requirements == SumReported(results[..i])
      invariant verifiedScored == SumScored(c, verifiedResults) && verifiedReported == SumReported(verifiedResults)
      invariant |perTask| == i && forall k :: 0 <= k < i ==> perTask[k] == PerTaskOf(c, results[k])
    {
      var r := results[i];
      assert results[..i + 1] == results[..i] + [r];
      VerifiedAppend(c, results[..i], r);
      SumsAppend(c, results[..i], r);
      SumsAppend(c, verifiedResults, r);
      var weight := Weigh(r, TaskOf(c, r));
      var standing := StandingOf(c, r);
      if standing.Verified? {
        verifiedResults := verifiedResults + [r];
        verifiedScored := Plus(verifiedScored, weight);
        verifiedReported := Plus(verifiedReported, ReportedCounts(r));
      } else {
        unverifiedTasks := unverifiedTasks + [(r.taskId, standing.reason)];
      }
      requirements := Plus(requirements, ReportedCounts(r));
      perTask := perTask + [PerTaskOf(c, r)];
    }
    assert results[..|results|] == results;
    var n := if HasKinds(c, results) || c.ledger.Some? then verifiedScored else verifiedReported;
    return SuiteSummary(|results|, |verifiedResults|, unverifiedTasks, requirements.total, requirements.satisfied, Some(n),
                        Rate(n.satisfied, n.total), Rate(n.dependencySatisfied, n.total),
                        Interval95(n.satisfied, n.total, sqrt), Interval95(n.dependencySatisfied, n.total, sqrt), perTask);
  }

  lemma NothingSummed(c: Context)
    ensures VerifiedOf(c, []) == [] && UnverifiedOf(c, []) == []
    ensures SumReported([]) == SumScored(c, []) == Counts(0, 0, 0)
  {
  }

  // ---- The arm published from a summary ----

  datatype ArmDetail = ArmDetail(counts: Counts, iSr: real, dSr: real, iSrRange: Interval, dSrRange: Interval)

  function SumPerTask(perTask: seq<PerTask>): nat {
    if perTask == [] then 0 else SumPerTask(perTask[..|perTask| - 1]) + perTask[|perTask| - 1].dependencySatisfied
  }

  /** The unfiltered totals stand in only for summaries without verified counts. */
  function BuildArmDetail(s: SuiteSummary, sqrt: real -> real): ArmDetail {
    var n := if s.verified.Some? then s.verified.value
             else Counts(s.requirementsTotal, s.requirementsSatisfied, SumPerTask(s.perTask));
    ArmDetail(n, Rate(n.satisfied, n.total), Rate(n.dependencySatisfied, n.total),
              Interval95(n.satisfied, n.total, sqrt), Interval95(n.dependencySatisfied, n.total, sqrt))
  }

  lemma IntervalIsPublished(name: string, k: nat, n: nat, sqrt: real -> real) returns (arm: Leaderboard.Arm)
    requires k <= n && TakesRoots(sqrt)
    ensures arm == Leaderboard.Arm(name, k, n, Interval95(k, n, sqrt).lower, Interval95(k, n, sqrt).upper)
    ensures Leaderboard.Published(arm, Z95)
  {
    var i := Interval95(k, n, sqrt);
    arm := Leaderboard.Arm(name, k, n, i.lower, i.upper);
    if n == 0 {
      assert ScoreInterval(k, n, Z95, 0.0) == i;
    } else {
      RadicandNotNegative(k, n);
      assert IsRoot(sqrt(Radicand(k, n, Z95)), Radicand(k, n, Z95));
    }
  }

  /** The published arm repeats the summary's two rates exactly; both lie in their intervals and in order. */
  lemma ArmRepeatsSummary(name: string, s: SuiteSummary, c: Context, results: seq<TaskResult>, sqrt: real -> real)
    returns (arm: Leaderboard.Arm)
    requires Summarizes(s, c, results, sqrt) && AllCounted(results) && TakesRoots(sqrt)
    ensures var d := BuildArmDetail(s, sqrt);
            && (d.iSr, d.dSr, d.iSrRange, d.dSrRange) == (s.iSr, s.dSr, s.iSrRange, s.dSrRange)
            && 0.0 <= s.dSr <= s.iSr <= 1.0
            && s.iSrRange.lower <= s.iSr <= s.iSrRange.upper && s.dSrRange.lower <= s.dSr <= s.dSrRange.upper
            && arm == Leaderboard.Arm(name, d.counts.satisfied, d.counts.total, d.iSrRange.lower, d.iSrRange.upper)
            && Leaderboard.Published(arm, Z95)
  {
    hide Rate, Interval95, FinalCounts, Leaderboard.Published;
    var n := FinalCounts(c, results);
    FinalCountsAreOrdered(c, results);
    arm := IntervalIsPublished(name, n.satisfied, n.total, sqrt);
    Leaderboard.PublishedHoldsRate(arm, Z95);
    var dep := IntervalIsPublished(name, n.dependencySatisfied, n.total, sqrt);
    Leaderboard.PublishedHoldsRate(dep, Z95);
    RatesKeepOrder(n.dependencySatisfied, n.satisfied, n.total);
  }

  lemma RatesKeepOrder(k: nat, k': nat, n: nat)
    requires k <= k' <= n
    ensures Rate(k, n) <= Rate(k', n)
  {
    if n > 0 { RatesOrder(k, k', n); }
  }
}
