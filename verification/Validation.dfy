/** Kahn's cycle check over a plan. */
module Validation {
  import opened Graph
  import opened ChainTypes
  import opened PlanSurgery

  /** The dependencies that name a node of the plan, repetitions included. */
  function InPlan(dependsOn: seq<string>, ids: set<string>): seq<string> {
    if dependsOn == [] then []
    else (if dependsOn[0] in ids then [dependsOn[0]] else []) + InPlan(dependsOn[1..], ids)
  }

  function Distinct(xs: seq<string>): set<string> {
    set x | x in xs
  }

  predicate NoRepeats(xs: seq<string>) {
    forall i, j :: 0 <= i < j < |xs| ==> xs[i] != xs[j]
  }

  lemma {:induction false} InPlanMeaning(dependsOn: seq<string>, ids: set<string>)
    ensures forall d :: d in InPlan(dependsOn, ids) <==> d in dependsOn && d in ids
  {
    if dependsOn != [] {
      InPlanMeaning(dependsOn[1..], ids);
    }
  }

  lemma {:induction false} DistinctCount(xs: seq<string>)
    ensures |Distinct(xs)| <= |xs|
    ensures |Distinct(xs)| == |xs| <==> NoRepeats(xs)
  {
    if xs != [] {
      var front, last := xs[..|xs| - 1], xs[|xs| - 1];
      DistinctCount(front);
      assert Distinct(xs) == Distinct(front) + {last};
      if last in front {
        assert Distinct(xs) == Distinct(front);
        assert !NoRepeats(xs);
      } else {
        assert NoRepeats(front) ==> NoRepeats(xs);
      }
      assert NoRepeats(xs) ==> NoRepeats(front);
    }
  }

  /** What a node's counter holds once the ids in `processed` have been taken from the queue. */
  function Waiting(n: PlanNode, ids: set<string>, processed: set<string>): int {
    |InPlan(n.dependsOn, ids)| - |Distinct(InPlan(n.dependsOn, ids)) * processed|
  }

  /** The counter reaches zero exactly when every dependency is processed and none is listed twice. */
  lemma WaitingForNothing(n: PlanNode, ids: set<string>, processed: set<string>)
    ensures Waiting(n, ids, processed) >= 0
    ensures Waiting(n, ids, processed) == 0 <==>
            NoRepeats(InPlan(n.dependsOn, ids)) && forall d :: d in n.dependsOn && d in ids ==> d in processed
  {
    var ds := InPlan(n.dependsOn, ids);
    InPlanMeaning(n.dependsOn, ids);
    DistinctCount(ds);
    var done := Distinct(ds) * processed;
    SubsetCount(done, Distinct(ds));
    if forall d :: d in n.dependsOn && d in ids ==> d in processed {
      assert done == Distinct(ds);
    }
    if done == Distinct(ds) {
      assert forall d :: d in ds ==> d in Distinct(ds);
    }
  }

  lemma SubsetCount(a: set<string>, b: set<string>)
    requires a <= b
    ensures |a| <= |b|
    ensures |a| == |b| <==> a == b
  {
    assert b == a + (b - a);
  }

  lemma WaitingStep(n: PlanNode, ids: set<string>, processed: set<string>, id: string)
    requires id in ids && id !in processed
    ensures Waiting(n, ids, processed + {id}) == Waiting(n, ids, processed) - (if id in n.dependsOn then 1 else 0)
  {
    var ds := Distinct(InPlan(n.dependsOn, ids));
    InPlanMeaning(n.dependsOn, ids);
    if id in n.dependsOn {
      assert ds * (processed + {id}) == ds * processed + {id};
    } else {
      assert ds * (processed + {id}) == ds * processed;
    }
  }

  predicate RepeatsDependency(plan: Plan) {
    exists i :: 0 <= i < |plan.nodes| && !NoRepeats(InPlan(plan.nodes[i].dependsOn, NodeIds(plan)))
  }

  ghost predicate Counted(plan: Plan, indegree: map<string, int>, i: nat, processed: set<string>)
    requires i < |plan.nodes|
  {
    plan.nodes[i].id in indegree && indegree[plan.nodes[i].id] == Waiting(plan.nodes[i], NodeIds(plan), processed)
  }

  /** Taken ids come after everything in the plan they depend on. */
  ghost predicate Ordered(plan: Plan, rank: map<string, nat>) {
    forall i, d :: 0 <= i < |plan.nodes| && plan.nodes[i].id in rank && d in plan.nodes[i].dependsOn && d in NodeIds(plan) ==>
      d in rank && rank[d] < rank[plan.nodes[i].id]
  }

  /** The ids waiting in the queue are exactly the unprocessed ones whose counter is zero, each once. */
  ghost predicate Queued(plan: Plan, indegree: map<string, int>, ready: seq<string>, processed: set<string>) {
    && NoRepeats(ready)
    && (forall id :: id in ready <==> id in NodeIds(plan) && id !in processed && id in indegree && indegree[id] == 0)
    && (forall id :: id in processed ==> id in indegree && indegree[id] == 0)
  }

  /** Every dependency of a taken id that names a node of the plan was taken before it. */
  ghost predicate TakenInOrder(plan: Plan, taken: seq<string>) {
    forall i, k :: 0 <= i < |plan.nodes| && 0 <= k < |taken| && plan.nodes[i].id == taken[k] ==>
      forall d :: d in plan.nodes[i].dependsOn && d in NodeIds(plan) ==> d in taken[..k]
  }

  ghost predicate RankedAs(rank: map<string, nat>, taken: seq<string>) {
    && (forall k :: 0 <= k < |taken| ==> taken[k] in rank && rank[taken[k]] == k)
    && forall id :: id in rank ==> rank[id] < |taken| && taken[rank[id]] == id
  }

  lemma RankExtends(rank: map<string, nat>, taken: seq<string>, id: string)
    requires RankedAs(rank, taken) && id !in rank
    ensures RankedAs(rank[id := |taken|], taken + [id])
  {
  }

  lemma TakenAreRanked(rank: map<string, nat>, taken: seq<string>)
    requires RankedAs(rank, taken)
    ensures forall id :: id in taken ==> id in rank
    ensures forall id :: id in rank ==> rank[id] < |taken|
  {
  }

  lemma RankedInOrder(plan: Plan, rank: map<string, nat>, taken: seq<string>)
    requires Ordered(plan, rank) && RankedAs(rank, taken)
    ensures NoRepeats(taken) && TakenInOrder(plan, taken)
  {
    forall i, k, d | 0 <= i < |plan.nodes| && 0 <= k < |taken| && plan.nodes[i].id == taken[k]
                     && d in plan.nodes[i].dependsOn && d in NodeIds(plan)
      ensures d in taken[..k]
    {
      assert d in rank && rank[d] < k && taken[..k][rank[d]] == d;
    }
  }

  /** The check answers yes exactly when the plan has a cycle or a node lists one plan node twice. `taken` are the ids in the
      order they left the queue: each at most once, after its dependencies, and all of them exactly when the answer is no. */
  method HasDependencyCycle(plan: Plan) returns (cyclic: bool, ghost taken: seq<string>)
    requires UniqueIds(plan)
    ensures cyclic <==> !AcyclicPlan(plan) || RepeatsDependency(plan)
    ensures NoRepeats(taken) && (forall id :: id in taken ==> id in NodeIds(plan)) && TakenInOrder(plan, taken)
    ensures cyclic <==> |taken| < |plan.nodes|
  {
    hide Waiting, NodeIds, InPlan, Ordered, AcyclicPlan, RepeatsDependency, TakenInOrder, RankedAs;
    var ids := NodeIds(plan);
    var indegree := CountDependencies(plan);
    var ready := InitialReady(plan, indegree);
    var processed := 0;
    ghost var done: set<string> := {};
    ghost var rank: map<string, nat> := map[];
    taken := [];
    NothingTaken(plan);
    while |ready| > 0
      invariant forall i :: 0 <= i < |plan.nodes| ==> Counted(plan, indegree, i, done)
      invariant Queued(plan, indegree, ready, done)
      invariant done <= ids && processed == |done| && rank.Keys == done
      invariant |taken| == processed && RankedAs(rank, taken)
      invariant Ordered(plan, rank)
      decreases |ids| - |done|
    {
      var id := ready[0];
      ghost var before := done;
      assert id in ready;
      TakenAreRanked(rank, taken);
      TakenIsSettled(plan, indegree, done, rank, id, processed);
      done := done + {id};
      RankExtends(rank, taken, id);
      rank := rank[id := processed];
      taken := taken + [id];
      SubsetCount(done, ids);
      processed := processed + 1;
      indegree, ready := Release(plan, indegree, ready, id, before);
    }
    IdCount(plan);
    SubsetCount(done, ids);
    cyclic := processed < |plan.nodes|;
    RankedInOrder(plan, rank, taken);
    TakenAreRanked(rank, taken);
    assert ready == [];
    if cyclic {
      LeftOverMeansCycle(plan, indegree, done);
    } else {
      AllTakenMeansAcyclic(plan, rank);
      AllTakenMeansNoRepeats(plan, indegree);
    }
  }

  lemma NothingTaken(plan: Plan)
    ensures Ordered(plan, map[]) && RankedAs(map[], [])
  {
  }

  lemma AllTakenMeansNoRepeats(plan: Plan, indegree: map<string, int>)
    requires forall i :: 0 <= i < |plan.nodes| ==> Counted(plan, indegree, i, NodeIds(plan))
    requires forall id :: id in NodeIds(plan) ==> id in indegree && indegree[id] == 0
    ensures !RepeatsDependency(plan)
  {
    forall i | 0 <= i < |plan.nodes|
      ensures NoRepeats(InPlan(plan.nodes[i].dependsOn, NodeIds(plan)))
    {
      IdAtIsIn(plan, i);
      assert Counted(plan, indegree, i, NodeIds(plan));
      WaitingForNothing(plan.nodes[i], NodeIds(plan), NodeIds(plan));
    }
  }

  method CountDependencies(plan: Plan) returns (indegree: map<string, int>)
    requires UniqueIds(plan)
    ensures indegree.Keys == NodeIds(plan)
    ensures forall i :: 0 <= i < |plan.nodes| ==> Counted(plan, indegree, i, {})
  {
    indegree := map[];
    for i := 0 to |plan.nodes|
      invariant indegree.Keys <= NodeIds(plan)
      invariant forall j :: 0 <= j < i ==> Counted(plan, indegree, j, {})
    {
      IdAtIsIn(plan, i);
      assert Distinct(InPlan(plan.nodes[i].dependsOn, NodeIds(plan))) * {} == {};
      ghost var before := indegree;
      indegree := indegree[plan.nodes[i].id := |InPlan(plan.nodes[i].dependsOn, NodeIds(plan))|];
      CountersMove(plan, before, indegree, i, {});
    }
    forall id | id in NodeIds(plan)
      ensures id in indegree
    {
      var i := IdIsAt(plan, id);
      assert Counted(plan, indegree, i, {});
    }
  }

  method InitialReady(plan: Plan, indegree: map<string, int>) returns (ready: seq<string>)
    requires UniqueIds(plan) && indegree.Keys == NodeIds(plan)
    ensures Queued(plan, indegree, ready, {})
  {
    ready := [];
    for i := 0 to |plan.nodes|
      invariant NoRepeats(ready)
      invariant forall id :: id in ready <==> exists j :: 0 <= j < i && plan.nodes[j].id == id && indegree[id] == 0
    {
      IdAtIsIn(plan, i);
      if indegree[plan.nodes[i].id] == 0 { ready := ready + [plan.nodes[i].id]; }
    }
    forall id | id in NodeIds(plan) && indegree[id] == 0
      ensures id in ready
    {
      var i := IdIsAt(plan, id);
    }
    forall id | id in ready
      ensures id in NodeIds(plan)
    {
      var j :| 0 <= j < |plan.nodes| && plan.nodes[j].id == id;
      IdAtIsIn(plan, j);
    }
  }

  /** Taking the head of the queue: its dependents' counters drop, and those that reach zero are queued. */
  method Release(plan: Plan, indegree0: map<string, int>, ready0: seq<string>, id: string, ghost done: set<string>)
    returns (indegree: map<string, int>, ready: seq<string>)
    requires UniqueIds(plan) && |ready0| > 0 && ready0[0] == id
    requires forall i :: 0 <= i < |plan.nodes| ==> Counted(plan, indegree0, i, done)
    requires Queued(plan, indegree0, ready0, done) && done <= NodeIds(plan)
    ensures forall i :: 0 <= i < |plan.nodes| ==> Counted(plan, indegree, i, done + {id})
    ensures Queued(plan, indegree, ready, done + {id})
  {
    hide Waiting, NodeIds, InPlan;
    HeadTaken(ready0);
    indegree, ready := indegree0, ready0[1..];
    for j := 0 to |plan.nodes|
      invariant forall i :: 0 <= i < j ==> Counted(plan, indegree, i, done + {id})
      invariant forall i :: j <= i < |plan.nodes| ==> Counted(plan, indegree, i, done)
      invariant Queued(plan, indegree, ready, done + {id})
    {
      var node := plan.nodes[j];
      IdAtIsIn(plan, j);
      assert Counted(plan, indegree, j, done);
      ReleaseStep(node, NodeIds(plan), done, id);
      ghost var indegree1, ready1 := indegree, ready;
      if id in node.dependsOn {
        var next := indegree[node.id] - 1;
        indegree := indegree[node.id := next];
        if next == 0 { ready := ready + [node.id]; }
        CountersMove(plan, indegree1, indegree, j, done + {id});
      }
    }
  }

  /** Setting one node's counter leaves the others'. */
  lemma CountersMove(plan: Plan, before: map<string, int>, after: map<string, int>, j: nat, s: set<string>)
    requires UniqueIds(plan) && j < |plan.nodes|
    requires after == before[plan.nodes[j].id := Waiting(plan.nodes[j], NodeIds(plan), s)]
    ensures Counted(plan, after, j, s)
    ensures forall i, t :: 0 <= i < |plan.nodes| && i != j && Counted(plan, before, i, t) ==> Counted(plan, after, i, t)
  {
    hide Waiting, NodeIds;
  }

  lemma HeadTaken(ready: seq<string>)
    requires |ready| > 0 && NoRepeats(ready)
    ensures NoRepeats(ready[1..]) && forall x :: x in ready[1..] <==> x in ready && x != ready[0]
  {
    forall x | x in ready && x != ready[0]
      ensures x in ready[1..]
    {
      var i :| 0 <= i < |ready| && ready[i] == x;
      assert ready[1..][i - 1] == x;
    }
  }

  lemma ReleaseStep(n: PlanNode, ids: set<string>, done: set<string>, id: string)
    requires id in ids && id !in done
    ensures var w, w' := Waiting(n, ids, done), Waiting(n, ids, done + {id});
            && (id in n.dependsOn ==> w' == w - 1 && w > 0)
            && (id !in n.dependsOn ==> w' == w)
  {
    WaitingStep(n, ids, done, id);
    WaitingForNothing(n, ids, done + {id});
  }

  lemma IdCount(plan: Plan)
    requires UniqueIds(plan)
    ensures |NodeIds(plan)| == |plan.nodes|
  {
    var names := seq(|plan.nodes|, i requires 0 <= i < |plan.nodes| => plan.nodes[i].id);
    DistinctCount(names);
    assert Distinct(names) == NodeIds(plan) by {
      forall id | id in NodeIds(plan)
        ensures id in names
      {
        var i := IdIsAt(plan, id);
        assert names[i] == id;
      }
      forall id | id in names
        ensures id in NodeIds(plan)
      {
        var i :| 0 <= i < |names| && names[i] == id;
        IdAtIsIn(plan, i);
      }
    }
  }

  /** Whatever stands in the queue depends on processed nodes only, so it may be numbered next. */
  lemma TakenIsSettled(plan: Plan, indegree: map<string, int>, done: set<string>, rank: map<string, nat>, id: string, next: nat)
    requires UniqueIds(plan) && id in NodeIds(plan) && id in indegree && indegree[id] == 0
    requires forall i :: 0 <= i < |plan.nodes| ==> Counted(plan, indegree, i, done)
    requires rank.Keys == done && id !in done && Ordered(plan, rank)
    requires forall x :: x in rank ==> rank[x] < next
    ensures Ordered(plan, rank[id := next])
  {
    var j := IdIsAt(plan, id);
    assert Counted(plan, indegree, j, done);
    WaitingForNothing(plan.nodes[j], NodeIds(plan), done);
    hide Waiting, InPlan, NodeIds;
    forall i, d | 0 <= i < |plan.nodes| && plan.nodes[i].id in rank[id := next]
                  && d in plan.nodes[i].dependsOn && d in NodeIds(plan)
      ensures d in rank[id := next] && rank[id := next][d] < rank[id := next][plan.nodes[i].id]
    {
      if plan.nodes[i].id == id {
        assert i == j;
      }
    }
  }

  lemma AllTakenMeansAcyclic(plan: Plan, rank: map<string, nat>)
    requires UniqueIds(plan) && rank.Keys == NodeIds(plan) && Ordered(plan, rank)
    ensures AcyclicPlan(plan)
  {
    var height := (x: string) => if x in rank then rank[x] + 1 else 0;
    forall a, b | Edge(DependencyGraph(plan.nodes), a, b)
      ensures height(b) < height(a)
    {
      EdgeMeaning(plan, a, b);
      var i :| 0 <= i < |plan.nodes| && plan.nodes[i].id == a && b in plan.nodes[i].dependsOn;
      IdAtIsIn(plan, i);
    }
    RankRulesOutCycles(DependencyGraph(plan.nodes), height);
  }

  lemma LeftOverMeansCycle(plan: Plan, indegree: map<string, int>, done: set<string>)
    requires UniqueIds(plan) && done <= NodeIds(plan) && done != NodeIds(plan)
    requires forall i :: 0 <= i < |plan.nodes| ==> Counted(plan, indegree, i, done)
    requires Queued(plan, indegree, [], done)
    ensures !AcyclicPlan(plan) || RepeatsDependency(plan)
  {
    if !RepeatsDependency(plan) {
      var left := NodeIds(plan) - done;
      var g := DependencyGraph(plan.nodes);
      forall a | a in left
        ensures HasSuccessorIn(g, left, a)
      {
        var i := IdIsAt(plan, a);
        assert Counted(plan, indegree, i, done);
        WaitingForNothing(plan.nodes[i], NodeIds(plan), done);
        assert indegree[a] != 0 by { assert a !in []; }
        var d :| d in plan.nodes[i].dependsOn && d in NodeIds(plan) && d !in done;
        EdgeMeaning(plan, a, d);
      }
      assert done + left == NodeIds(plan);
      var c := StuckSetHasCycle(g, left);
    }
  }

  /** An acyclic plan the check nevertheless rejects: one dependency written twice is counted twice but released once. */
  lemma RepeatedDependencyExample(a: PlanNode, b: PlanNode)
    requires a.id == "A" && a.dependsOn == [] && b.id == "B" && b.dependsOn == ["A", "A"]
    ensures AcyclicPlan(Plan("p", "g", [a, b])) && RepeatsDependency(Plan("p", "g", [a, b]))
  {
    var plan := Plan("p", "g", [a, b]);
    assert plan.nodes[0] in plan.nodes && plan.nodes[0].id != plan.nodes[1].id;
    var rank := (x: string) => if x == "B" then 1 else 0;
    forall x, y | Edge(DependencyGraph(plan.nodes), x, y)
      ensures rank(y) < rank(x)
    {
      EdgeMeaning(plan, x, y);
    }
    RankRulesOutCycles(DependencyGraph(plan.nodes), rank);
    var ds := InPlan(b.dependsOn, NodeIds(plan));
    assert b.dependsOn[1..] == ["A"] && ["A"][1..] == [];
    assert InPlan(["A"], NodeIds(plan)) == ["A"];
    assert ds == ["A", "A"] && ds[0] == ds[1];
    assert plan.nodes[1] == b && !NoRepeats(ds);
  }
}
