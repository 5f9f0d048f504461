/** Requirement grading: the dependency-adjusted satisfaction of a benchmark task. */
module Grade {
  import opened Graph
  import opened ChainTypes

  datatype RequirementKind = Guard | Discriminator | Scored

  datatype Requirement = Requirement(id: string, prerequisites: seq<string>, kind: Option<RequirementKind>)

  /** The requirements looked up by id; the last of two with one id stands. */
  function ById(reqs: seq<Requirement>): map<string, Requirement> {
    if reqs == [] then map[] else ById(reqs[..|reqs| - 1])[reqs[|reqs| - 1].id := reqs[|reqs| - 1]]
  }

  lemma {:induction false} ByIdKeys(reqs: seq<Requirement>)
    ensures forall id :: id in ById(reqs) <==> exists r :: r in reqs && r.id == id
  {
    if reqs != [] {
      var front, last := reqs[..|reqs| - 1], reqs[|reqs| - 1];
      ByIdKeys(front);
      assert reqs == front + [last];
    }
  }

  function Prerequisites(byId: map<string, Requirement>): Deps {
    map id | id in byId :: byId[id].prerequisites
  }

  // ---- The specification: a least fixed point ----

  /** The requirement's own check passed. */
  predicate Passed(byId: map<string, Requirement>, grades: map<string, bool>, id: string) {
    id in byId && id in grades && grades[id]
  }

  /** Satisfied with all transitive prerequisites satisfied, by a derivation of depth below `n`. */
  predicate SatisfiedWithin(byId: map<string, Requirement>, grades: map<string, bool>, n: nat, id: string) {
    && n > 0
    && Passed(byId, grades, id)
    && forall d :: d in byId[id].prerequisites ==> SatisfiedWithin(byId, grades, n - 1, d)
  }

  ghost predicate DependencySatisfied(byId: map<string, Requirement>, grades: map<string, bool>, id: string) {
    exists n: nat :: SatisfiedWithin(byId, grades, n, id)
  }

  lemma {:induction false} DeeperIsFine(byId: map<string, Requirement>, grades: map<string, bool>, m: nat, n: nat, id: string)
    requires m <= n && SatisfiedWithin(byId, grades, m, id)
    ensures SatisfiedWithin(byId, grades, n, id)
  {
    forall d | d in byId[id].prerequisites
      ensures SatisfiedWithin(byId, grades, n - 1, d)
    {
      DeeperIsFine(byId, grades, m - 1, n - 1, d);
    }
  }

  lemma {:induction false} CommonDepth(byId: map<string, Requirement>, grades: map<string, bool>,
                                       ds: seq<string>) returns (n: nat)
    requires forall d :: d in ds ==> DependencySatisfied(byId, grades, d)
    ensures forall d :: d in ds ==> SatisfiedWithin(byId, grades, n, d)
  {
    if ds == [] {
      n := 0;
    } else {
      var k := CommonDepth(byId, grades, ds[1..]);
      assert ds[0] in ds;
      var m: nat :| SatisfiedWithin(byId, grades, m, ds[0]);
      n := if m > k then m else k;
      forall d | d in ds
        ensures SatisfiedWithin(byId, grades, n, d)
      {
        if d == ds[0] {
          DeeperIsFine(byId, grades, m, n, d);
        } else {
          assert d in ds[1..];
          DeeperIsFine(byId, grades, k, n, d);
        }
      }
    }
  }

  /** It is a fixed point of "passed, and every prerequisite in the set"... */
  lemma SatisfactionIsFixpoint(byId: map<string, Requirement>, grades: map<string, bool>, id: string)
    ensures DependencySatisfied(byId, grades, id) <==>
            Passed(byId, grades, id) && forall d :: d in byId[id].prerequisites ==> DependencySatisfied(byId, grades, d)
  {
    if Passed(byId, grades, id) && forall d :: d in byId[id].prerequisites ==> DependencySatisfied(byId, grades, d) {
      var n := CommonDepth(byId, grades, byId[id].prerequisites);
      assert SatisfiedWithin(byId, grades, n + 1, id);
    }
    if DependencySatisfied(byId, grades, id) {
      var n: nat :| SatisfiedWithin(byId, grades, n, id);
      assert forall d :: d in byId[id].prerequisites ==> SatisfiedWithin(byId, grades, n - 1, d);
    }
  }

  /** ...and the least one: it is contained in every set closed under that rule. */
  lemma {:induction false} SatisfactionIsLeast(byId: map<string, Requirement>, grades: map<string, bool>, closed: set<string>,
                                               n: nat, id: string)
    requires forall x :: Passed(byId, grades, x) && (forall d :: d in byId[x].prerequisites ==> d in closed) ==> x in closed
    requires SatisfiedWithin(byId, grades, n, id)
    ensures id in closed
  {
    forall d | d in byId[id].prerequisites
      ensures d in closed
    {
      SatisfactionIsLeast(byId, grades, closed, n - 1, d);
    }
  }

  lemma {:induction false} DepthFallsAlong(byId: map<string, Requirement>, grades: map<string, bool>, n: nat, p: seq<string>)
    requires IsPath(Prerequisites(byId), p) && SatisfiedWithin(byId, grades, n, p[0])
    ensures |p| <= n && SatisfiedWithin(byId, grades, n - (|p| - 1), p[|p| - 1])
  {
    if |p| > 1 {
      assert Edge(Prerequisites(byId), p[0], p[1]);
      DepthFallsAlong(byId, grades, n - 1, p[1..]);
    }
  }

  /** Nothing that depends on itself is satisfied. */
  lemma {:induction false} NothingOnACycle(byId: map<string, Requirement>, grades: map<string, bool>, n: nat, id: string)
    requires OnCycle(Prerequisites(byId), id)
    ensures !SatisfiedWithin(byId, grades, n, id)
    decreases n
  {
    if SatisfiedWithin(byId, grades, n, id) {
      var b :| Edge(Prerequisites(byId), id, b) && Reaches(Prerequisites(byId), b, id);
      var p :| PathBetween(Prerequisites(byId), p, b, id);
      DepthFallsAlong(byId, grades, n - 1, p);
      NothingOnACycle(byId, grades, n - 1 - (|p| - 1), id);
    }
  }

  // ---- The memoised search ----

  class DependencyMemo {
    const byId: map<string, Requirement>
    const grades: map<string, bool>
    var memo: map<string, bool>

    constructor (byId: map<string, Requirement>, grades: map<string, bool>)
      ensures this.byId == byId && this.grades == grades && memo == map[]
    {
      this.byId, this.grades, memo := byId, grades, map[];
    }

    /** Settled ids hold their answer; the ids still being searched hold the guard. */
    ghost predicate Valid(open: set<string>)
      reads this
    {
      && open <= memo.Keys
      && (forall x :: x in memo && x in open ==> !memo[x])
      && (forall x :: x in memo && x !in open ==> (memo[x] <==> DependencySatisfied(byId, grades, x)))
    }

    /** Whatever order ids are asked in, and however the graph is tangled, the answer is the least fixed point. */
    method Ok(id: string, ghost open: set<string>) returns (result: bool)
      requires Valid(open)
      requires AllLeadTo(Prerequisites(byId), open, id)
      modifies this`memo
      ensures Valid(open)
      ensures result <==> DependencySatisfied(byId, grades, id)
      ensures old(memo.Keys) <= memo.Keys
      decreases byId.Keys - memo.Keys, if id in memo.Keys then 0 else 1
    {
      hide DependencySatisfied, AllLeadTo;
      if id in memo {
        if id in open { OpenIsUnsatisfied(byId, grades, open, id); }
        return memo[id];
      }
      memo := memo[id := false];
      result := false;
      if id in byId && id in grades && grades[id] {
        result := true;
        var prerequisites := byId[id].prerequisites;
        for i := 0 to |prerequisites|
          invariant result && Valid(open + {id}) && id in memo
          invariant old(memo.Keys) <= memo.Keys
          invariant forall k :: 0 <= k < i ==> DependencySatisfied(byId, grades, prerequisites[k])
        {
          OpenLeadOn(Prerequisites(byId), open, id, prerequisites[i]);
          result := Ok(prerequisites[i], open + {id});
          if !result { break; }
        }
      }
      SatisfactionIsFixpoint(byId, grades, id);
      memo := memo[id := result];
    }
  }

  lemma OpenIsUnsatisfied(byId: map<string, Requirement>, grades: map<string, bool>, open: set<string>, id: string)
    requires AllLeadTo(Prerequisites(byId), open, id) && id in open
    ensures !DependencySatisfied(byId, grades, id)
  {
    assert LeadsTo(Prerequisites(byId), id, id);
    assert OnCycle(Prerequisites(byId), id);
    forall n: nat
      ensures !SatisfiedWithin(byId, grades, n, id)
    {
      NothingOnACycle(byId, grades, n, id);
    }
  }

  /** The benchmark ids whose requirement and all transitive prerequisites are satisfied. */
  ghost function SatisfiedIds(reqs: seq<Requirement>, gradeById: map<string, bool>): set<string> {
    set id | id in ById(reqs) && DependencySatisfied(ById(reqs), gradeById, id)
  }

  method DependencySatisfiedIds(reqs: seq<Requirement>, gradeById: map<string, bool>) returns (ids: set<string>)
    ensures ids == SatisfiedIds(reqs, gradeById)
  {
    hide DependencySatisfied;
    ByIdKeys(reqs);
    var memo := new DependencyMemo(ById(reqs), gradeById);
    ids := {};
    for i := 0 to |reqs|
      invariant memo.Valid({}) && memo.byId == ById(reqs) && memo.grades == gradeById
      invariant forall id :: id in ids <==>
                  exists k :: 0 <= k < i && reqs[k].id == id && DependencySatisfied(ById(reqs), gradeById, id)
    {
      var ok := memo.Ok(reqs[i].id, {});
      if ok { ids := ids + {reqs[i].id}; }
    }
  }

  lemma SatisfiedIdsPassed(reqs: seq<Requirement>, gradeById: map<string, bool>)
    ensures forall id :: id in SatisfiedIds(reqs, gradeById) ==> id in gradeById && gradeById[id]
  {
    forall id | id in SatisfiedIds(reqs, gradeById)
      ensures id in gradeById && gradeById[id]
    {
      SatisfactionIsFixpoint(ById(reqs), gradeById, id);
    }
  }

  // ---- Grading a task ----

  datatype RequirementGrade = RequirementGrade(requirementId: string, satisfied: bool, kind: Option<RequirementKind>)

  datatype TaskGradeReport = TaskGradeReport(
    grades: seq<RequirementGrade>, total: nat, satisfied: nat, dependencySatisfied: nat)

  function GradeById(grades: seq<RequirementGrade>): map<string, bool> {
    if grades == [] then map[]
    else GradeById(grades[..|grades| - 1])[grades[|grades| - 1].requirementId := grades[|grades| - 1].satisfied]
  }

  function CountSatisfied(grades: seq<RequirementGrade>): nat {
    if grades == [] then 0
    else CountSatisfied(grades[..|grades| - 1]) + (if grades[|grades| - 1].satisfied then 1 else 0)
  }

  /** As many as there are satisfied grades. */
  lemma {:induction false} CountSatisfiedIs(grades: seq<RequirementGrade>)
    ensures CountSatisfied(grades) == |set i: nat | i < |grades| && grades[i].satisfied|
  {
    var at := set i: nat | i < |grades| && grades[i].satisfied;
    if grades == [] {
      assert at == {};
    } else {
      var front, n := grades[..|grades| - 1], |grades| - 1;
      CountSatisfiedIs(front);
      var before := set i: nat | i < |front| && front[i].satisfied;
      assert at == before + if grades[n].satisfied then {n} else {};
    }
  }

  /** The last of two grades with one id stands, and so does the last of two requirements. */
  lemma {:induction false} LastGradeStands(grades: seq<RequirementGrade>, i: nat)
    requires i < |grades| && forall j :: i < j < |grades| ==> grades[j].requirementId != grades[i].requirementId
    ensures grades[i].requirementId in GradeById(grades)
    ensures GradeById(grades)[grades[i].requirementId] == grades[i].satisfied
  {
    if i < |grades| - 1 { LastGradeStands(grades[..|grades| - 1], i); }
  }

  lemma {:induction false} LastRequirementStands(reqs: seq<Requirement>, i: nat)
    requires i < |reqs| && forall j :: i < j < |reqs| ==> reqs[j].id != reqs[i].id
    ensures reqs[i].id in ById(reqs) && ById(reqs)[reqs[i].id] == reqs[i]
  {
    if i < |reqs| - 1 { LastRequirementStands(reqs[..|reqs| - 1], i); }
  }

  lemma {:induction false} CountBounds(grades: seq<RequirementGrade>, ids: set<string>)
    requires forall id :: id in ids ==> id in GradeById(grades) && GradeById(grades)[id]
    ensures |ids| <= CountSatisfied(grades) <= |grades|
  {
    if grades == [] {
      assert ids == {};
    } else {
      var last := grades[|grades| - 1];
      var rest := ids - {last.requirementId};
      CountBounds(grades[..|grades| - 1], rest);
      if last.requirementId in ids {
        assert ids == rest + {last.requirementId};
      } else {
        assert ids == rest;
      }
    }
  }

  /** One grade for each requirement, in order, and the three counts of those grades; kinds may be missing. */
  ghost predicate CountedFrom(report: TaskGradeReport, reqs: seq<Requirement>) {
    && |report.grades| == |reqs| == report.total
    && (forall i :: 0 <= i < |reqs| ==> report.grades[i].requirementId == reqs[i].id)
    && report.satisfied == CountSatisfied(report.grades)
    && report.dependencySatisfied == |SatisfiedIds(reqs, GradeById(report.grades))|
  }

  /** A report as grading writes it, each grade with its requirement's kind. */
  ghost predicate GradedFrom(report: TaskGradeReport, reqs: seq<Requirement>) {
    && CountedFrom(report, reqs)
    && forall i :: 0 <= i < |reqs| ==> report.grades[i].kind == Some(KindOf(reqs[i]))
  }

  /** Grading keeps dependency-satisfied <= satisfied <= total; `passed` is what the checks and judges answered. */
  method GradeTask(reqs: seq<Requirement>, passed: seq<bool>) returns (report: TaskGradeReport)
    requires |passed| == |reqs|
    ensures report.dependencySatisfied <= report.satisfied <= report.total == |reqs|
    ensures GradedFrom(report, reqs) && forall i :: 0 <= i < |reqs| ==> report.grades[i].satisfied == passed[i]
    ensures report.satisfied == |set i: nat | i < |passed| && passed[i]|
    ensures forall i :: 0 <= i < |reqs| && reqs[i].kind.None? ==> report.grades[i].kind == Some(Discriminator)
  {
    var grades: seq<RequirementGrade> := [];
    for i := 0 to |reqs|
      invariant |grades| == i
      invariant forall k :: 0 <= k < i ==> grades[k] == RequirementGrade(reqs[k].id, passed[k], Some(KindOf(reqs[k])))
    {
      grades := grades + [RequirementGrade(reqs[i].id, passed[i], Some(KindOf(reqs[i])))];
    }
    var gradeById := GradeById(grades);
    var depOk := DependencySatisfiedIds(reqs, gradeById);
    SatisfiedIdsPassed(reqs, gradeById);
    CountBounds(grades, depOk);
    CountSatisfiedIs(grades);
    assert (set i: nat | i < |grades| && grades[i].satisfied) == set i: nat | i < |passed| && passed[i];
    report := TaskGradeReport(grades, |grades|, CountSatisfied(grades), |depOk|);
  }

  function KindOf(r: Requirement): RequirementKind {
    if r.kind.Some? then r.kind.value else Discriminator
  }
}
