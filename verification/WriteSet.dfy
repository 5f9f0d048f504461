/** Ordering plan nodes that write the same paths, in place, without closing a cycle. */
module WriteSet {
  import opened Graph
  import opened ChainTypes
  import opened PlanSurgery
  import opened Validation
  import opened WritePaths

  // ---- Reachability ----

  ghost function Vertices(g: Deps, from: string): set<string> {
    g.Keys + (set a, b | a in g && b in g[a] :: b) + {from}
  }

  /** Everything a settled vertex leads to is settled or still to be looked at. */
  ghost predicate Frontier(g: Deps, seen: set<string>, pending: seq<string>) {
    forall a, b :: a in seen && Edge(g, a, b) ==> b in seen || b in pending
  }

  lemma {:induction false} ClosedSetKeepsPaths(g: Deps, seen: set<string>, p: seq<string>)
    requires IsPath(g, p) && p[0] in seen
    requires forall a, b :: a in seen && Edge(g, a, b) ==> b in seen
    ensures p[|p| - 1] in seen
  {
    if |p| > 1 {
      assert Edge(g, p[0], p[1]);
      ClosedSetKeepsPaths(g, seen, p[1..]);
    }
  }

  /** The worklist search answers yes exactly when a dependency path exists. */
  method FindPath(g: Deps, from: string, target: string) returns (found: bool)
    ensures found <==> Reaches(g, from, target)
  {
    hide Reaches;
    var seen: set<string> := {};
    var pending := [from];
    ReachesSelf(g, from);
    while |pending| > 0
      invariant seen <= Vertices(g, from) && target !in seen
      invariant forall x :: x in pending ==> x in Vertices(g, from) && Reaches(g, from, x)
      invariant forall x :: x in seen ==> Reaches(g, from, x)
      invariant from in seen || from in pending
      invariant Frontier(g, seen, pending)
      decreases Vertices(g, from) - seen, |pending|
    {
      var id := pending[|pending| - 1];
      ghost var before := pending;
      pending := pending[..|pending| - 1];
      assert before == pending + [id];
      if id == target { return true; }
      if id in seen { continue; }
      seen := seen + {id};
      if id in g {
        forall b | b in g[id]
          ensures Reaches(g, from, b) && b in Vertices(g, from)
        {
          ReachesAppend(g, from, id, b);
        }
        pending := pending + g[id];
      }
    }
    if Reaches(g, from, target) {
      NotInClosedSet(g, seen, from, target);
    }
    found := false;
  }

  lemma NotInClosedSet(g: Deps, seen: set<string>, from: string, target: string)
    requires Reaches(g, from, target) && from in seen && Frontier(g, seen, [])
    ensures target in seen
  {
    var p :| PathBetween(g, p, from, target);
    ClosedSetKeepsPaths(g, seen, p);
  }

  // ---- Conflicts ----

  predicate Overlap(a: PlanNode, b: PlanNode) {
    && a.writeSet.Some? && b.writeSet.Some?
    && exists l, r :: l in a.writeSet.value && r in b.writeSet.value && PathsConflict(l, r)
  }

  ghost predicate OrderedPair(nodes: seq<PlanNode>, i: nat, j: nat)
    requires i < |nodes| && j < |nodes|
  {
    Overlap(nodes[i], nodes[j]) ==>
      || Reaches(DependencyGraph(nodes), nodes[j].id, nodes[i].id)
      || Reaches(DependencyGraph(nodes), nodes[i].id, nodes[j].id)
  }

  /** Every two nodes that may write the same path are ordered by their dependencies. */
  ghost predicate ConflictsOrdered(nodes: seq<PlanNode>) {
    forall i, j :: 0 <= i < j < |nodes| ==> OrderedPair(nodes, i, j)
  }

  /** `later` may be made to depend on `earlier`: both write one path, and the given plan leaves them unordered. */
  ghost predicate MayAdd(base: seq<PlanNode>, earlier: nat, later: nat)
    requires earlier < |base| && later < |base|
  {
    && earlier < later
    && Overlap(base[earlier], base[later])
    && !Reaches(DependencyGraph(base), base[later].id, base[earlier].id)
    && !Reaches(DependencyGraph(base), base[earlier].id, base[later].id)
  }

  /** `nodes` is `base` with dependencies appended between conflicting nodes that were unordered. */
  ghost predicate Extends(base: seq<PlanNode>, nodes: seq<PlanNode>) {
    && |nodes| == |base|
    && forall i :: 0 <= i < |base| ==> ExtendsNode(base, i, nodes[i])
  }

  ghost predicate ExtendsNode(base: seq<PlanNode>, i: nat, n: PlanNode)
    requires i < |base|
  {
    && n == base[i].(dependsOn := n.dependsOn)
    && base[i].dependsOn <= n.dependsOn
    && forall k :: |base[i].dependsOn| <= k < |n.dependsOn| ==>
         exists e :: 0 <= e < i && base[e].id == n.dependsOn[k] && MayAdd(base, e, i)
  }

  predicate DistinctIds(nodes: seq<PlanNode>) {
    forall i, j :: 0 <= i < j < |nodes| ==> nodes[i].id != nodes[j].id
  }

  function WithDependency(nodes: seq<PlanNode>, later: nat, earlier: nat): seq<PlanNode>
    requires later < |nodes| && earlier < |nodes|
  {
    nodes[later := nodes[later].(dependsOn := nodes[later].dependsOn + [nodes[earlier].id])]
  }

  /** Assigning the later node's dependencies adds one edge to the graph. */
  lemma OneEdgeAdded(nodes: seq<PlanNode>, later: nat, earlier: nat)
    requires DistinctIds(nodes) && later < |nodes| && earlier < |nodes|
    ensures OneMoreEdge(DependencyGraph(nodes), DependencyGraph(WithDependency(nodes, later, earlier)),
                        nodes[later].id, nodes[earlier].id)
  {
    var more := WithDependency(nodes, later, earlier);
    var p, q := Plan("", "", nodes), Plan("", "", more);
    forall a, b
      ensures Edge(DependencyGraph(more), a, b) <==>
              (Edge(DependencyGraph(nodes), a, b) || (a == nodes[later].id && b == nodes[earlier].id))
    {
      EdgeMeaning(p, a, b);
      EdgeMeaning(q, a, b);
      EdgeTransfer(nodes, more, later, earlier, a, b);
    }
  }

  lemma EdgeTransfer(nodes: seq<PlanNode>, more: seq<PlanNode>, later: nat, earlier: nat, a: string, b: string)
    requires DistinctIds(nodes) && later < |nodes| && earlier < |nodes| && more == WithDependency(nodes, later, earlier)
    ensures (exists i :: 0 <= i < |more| && more[i].id == a && b in more[i].dependsOn) <==>
            || (exists i :: 0 <= i < |nodes| && nodes[i].id == a && b in nodes[i].dependsOn)
            || (a == nodes[later].id && b == nodes[earlier].id)
  {
    forall i | 0 <= i < |nodes|
      ensures more[i].id == nodes[i].id
      ensures b in more[i].dependsOn <==> b in nodes[i].dependsOn || (i == later && b == nodes[earlier].id)
    {
    }
  }

  // ---- Declared write sets ----

  predicate Declares(n: PlanNode) {
    n.writeSet.Some? && n.writeSet.value != []
  }

  predicate PathsAccepted(n: PlanNode) {
    n.writeSet.Some? ==> AllAccepted(n.writeSet.value)
  }

  /** The node's write set is there, if it must be, and every path in it can be normalised. */
  predicate Writable(n: PlanNode, requireWriteSets: bool) {
    (requireWriteSets ==> Declares(n)) && PathsAccepted(n)
  }

  predicate AllWritable(nodes: seq<PlanNode>, requireWriteSets: bool) {
    forall i :: 0 <= i < |nodes| ==> Writable(nodes[i], requireWriteSets)
  }

  /** What the source says of a node it cannot accept: the missing write set, or its first invalid path. */
  function Refusal(n: PlanNode, requireWriteSets: bool): (message: Option<string>)
    ensures message.None? <==> Writable(n, requireWriteSets)
  {
    if requireWriteSets && !Declares(n) then Some("plan node " + n.id + " must declare a non-empty writeSet")
    else if n.writeSet.None? then None
    else
      match FirstRefused(n.writeSet.value)
      case None => None
      case Some(path) => Some("invalid plan write path: " + path)
  }

  function NormalNode(n: PlanNode): PlanNode
    requires PathsAccepted(n)
  {
    if n.writeSet.Some? then n.(writeSet := Some(NormalSet(n.writeSet.value))) else n
  }

  function NormalNodes(nodes: seq<PlanNode>): (r: seq<PlanNode>)
    requires AllWritable(nodes, false)
    ensures |r| == |nodes| && forall i :: 0 <= i < |r| ==> PathsAccepted(nodes[i]) && r[i] == NormalNode(nodes[i])
  {
    seq(|nodes|, i requires 0 <= i < |nodes| && Writable(nodes[i], false) => NormalNode(nodes[i]))
  }

  lemma NormalNodeIsFixed(n: PlanNode)
    requires PathsAccepted(n)
    ensures var m := NormalNode(n);
            && m == n.(writeSet := m.writeSet) && PathsAccepted(m) && NormalNode(m) == m && (Declares(n) ==> Declares(m))
  {
    if n.writeSet.Some? { NormalSetIsFixed(n.writeSet.value); }
    hide NormalSet, AllAccepted;
  }

  lemma {:induction false} NormalNodesKeepGraph(nodes: seq<PlanNode>)
    requires AllWritable(nodes, false)
    ensures DependencyGraph(NormalNodes(nodes)) == DependencyGraph(nodes)
    ensures DistinctIds(nodes) ==> DistinctIds(NormalNodes(nodes))
    ensures forall i :: 0 <= i < |nodes| ==> NormalNodes(nodes)[i].dependsOn == nodes[i].dependsOn
  {
    hide NormalNode;
    forall i | 0 <= i < |nodes|
      ensures NormalNodes(nodes)[i].id == nodes[i].id && NormalNodes(nodes)[i].dependsOn == nodes[i].dependsOn
    {
      NormalNodeIsFixed(nodes[i]);
    }
    SameGraph(nodes, NormalNodes(nodes));
  }

  lemma {:induction false} SameGraph(a: seq<PlanNode>, b: seq<PlanNode>)
    requires |a| == |b| && forall i :: 0 <= i < |a| ==> a[i].id == b[i].id && a[i].dependsOn == b[i].dependsOn
    ensures DependencyGraph(a) == DependencyGraph(b)
  {
    if a != [] {
      SameGraph(a[..|a| - 1], b[..|b| - 1]);
    }
  }

  // ---- The serialization ----

  datatype Serialized = Serialized(plan: Plan) | Refused(message: string)

  /** The first node refused decides. */
  ghost predicate RefusedWith(nodes: seq<PlanNode>, requireWriteSets: bool, message: string) {
    exists i :: 0 <= i < |nodes| && AllWritable(nodes[..i], requireWriteSets) && Refusal(nodes[i], requireWriteSets) == Some(message)
  }

  /** Write sets are normalised; conflicting writers that nothing orders yet are ordered in plan order; everything else stays
      as it was. */
  method SerializeWriteConflicts(plan: Plan, requireWriteSets: bool) returns (r: Serialized)
    requires UniqueIds(plan)
    ensures r.Serialized? <==> AllWritable(plan.nodes, requireWriteSets)
    ensures r.Refused? ==> RefusedWith(plan.nodes, requireWriteSets, r.message)
    ensures r.Serialized? ==>
              && r.plan == plan.(nodes := r.plan.nodes)
              && AllWritable(plan.nodes, false)
              && var normal := NormalNodes(plan.nodes);
              && Extends(normal, r.plan.nodes)
              && ConflictsOrdered(r.plan.nodes)
              && (AcyclicPlan(plan) ==> AcyclicPlan(r.plan))
              && (forall i :: 0 <= i < |normal| && NoRepeats(normal[i].dependsOn) ==> NoRepeats(r.plan.nodes[i].dependsOn))
              && (ConflictsOrdered(normal) ==> r.plan.nodes == normal)
  {
    hide Overlap, DependencyGraph, Acyclic, Reaches, Extends, NoRepeats, OrderedPair, WithDependency, ConflictsOrdered;
    hide Writable, Refusal, NormalNode;
    var nodes: seq<PlanNode> := [];
    for i := 0 to |plan.nodes|
      invariant AllWritable(plan.nodes[..i], requireWriteSets)
      invariant NormalizedUpTo(plan.nodes, nodes, i)
    {
      var refusal := Refusal(plan.nodes[i], requireWriteSets);
      if refusal.Some? { return Refused(refusal.value); }
      WritableAnyway(plan.nodes[i], requireWriteSets);
      nodes := nodes + [NormalNode(plan.nodes[i])];
    }
    assert plan.nodes[..|plan.nodes|] == plan.nodes;
    AllNormalized(plan.nodes, nodes);
    NormalNodesKeepGraph(plan.nodes);
    ghost var normal := nodes;
    StartSerialized(nodes);
    var laterIndex := 1;
    while laterIndex < |plan.nodes|
      invariant Progress(normal, nodes)
      invariant |nodes| > 0 ==> 1 <= laterIndex <= |nodes| && OrderedUpTo(nodes, laterIndex, 0)
    {
      for earlierIndex := 0 to laterIndex
        invariant Progress(normal, nodes)
        invariant OrderedUpTo(nodes, laterIndex, earlierIndex)
      {
        var later, earlier := nodes[laterIndex], nodes[earlierIndex];
        var byId := DependencyGraph(nodes);
        var overlap := Overlap(earlier, later);
        var forth := FindPath(byId, later.id, earlier.id);
        var back := FindPath(byId, earlier.id, later.id);
        if overlap && !forth && !back {
          StepSerialized(normal, nodes, laterIndex, earlierIndex);
          nodes := WithDependency(nodes, laterIndex, earlierIndex);
        } else {
          AlreadyOrdered(nodes, earlierIndex, laterIndex);
        }
      }
      NextLater(nodes, laterIndex);
      laterIndex := laterIndex + 1;
    }
    AllOrdered(nodes);
    r := Serialized(plan.(nodes := nodes));
  }

  /** The first `i` nodes, normalised. */
  ghost predicate NormalizedUpTo(given: seq<PlanNode>, nodes: seq<PlanNode>, i: nat) {
    && |nodes| == i <= |given|
    && forall k :: 0 <= k < i ==> PathsAccepted(given[k]) && nodes[k] == NormalNode(given[k])
  }

  lemma WritableAnyway(n: PlanNode, requireWriteSets: bool)
    requires Writable(n, requireWriteSets)
    ensures PathsAccepted(n)
  {
  }

  lemma AllNormalized(given: seq<PlanNode>, nodes: seq<PlanNode>)
    requires NormalizedUpTo(given, nodes, |given|)
    ensures AllWritable(given, false) && nodes == NormalNodes(given)
  {
    hide NormalNode;
  }

  /** The pairs the nested loops have been through. */
  ghost predicate OrderedUpTo(nodes: seq<PlanNode>, later: nat, earlier: nat) {
    && later <= |nodes|
    && (forall i, j :: 0 <= i < j < later ==> OrderedPair(nodes, i, j))
    && forall i :: 0 <= i < earlier && i < later < |nodes| ==> OrderedPair(nodes, i, later)
  }

  lemma NextLater(nodes: seq<PlanNode>, later: nat)
    requires later < |nodes| && OrderedUpTo(nodes, later, later)
    ensures OrderedUpTo(nodes, later + 1, 0)
  {
    hide OrderedPair;
  }

  lemma AllOrdered(nodes: seq<PlanNode>)
    requires |nodes| <= 1 || OrderedUpTo(nodes, |nodes|, 0)
    ensures ConflictsOrdered(nodes)
  {
    hide OrderedPair;
  }

  /** What the nested loops keep. */
  ghost predicate Progress(base: seq<PlanNode>, nodes: seq<PlanNode>) {
    && |nodes| == |base|
    && DistinctIds(nodes)
    && Extends(base, nodes)
    && (Acyclic(DependencyGraph(base)) ==> Acyclic(DependencyGraph(nodes)))
    && (forall i :: 0 <= i < |base| && NoRepeats(base[i].dependsOn) ==> NoRepeats(nodes[i].dependsOn))
    && (ConflictsOrdered(base) ==> nodes == base)
  }

  lemma StartSerialized(nodes: seq<PlanNode>)
    requires DistinctIds(nodes)
    ensures Progress(nodes, nodes)
    ensures |nodes| > 0 ==> OrderedUpTo(nodes, 1, 0)
  {
  }

  lemma AlreadyOrdered(nodes: seq<PlanNode>, i: nat, j: nat)
    requires i < j < |nodes| && OrderedUpTo(nodes, j, i)
    requires !Overlap(nodes[i], nodes[j]) || Reaches(DependencyGraph(nodes), nodes[j].id, nodes[i].id)
             || Reaches(DependencyGraph(nodes), nodes[i].id, nodes[j].id)
    ensures OrderedUpTo(nodes, j, i + 1)
  {
    hide Overlap, Reaches, DependencyGraph, OrderedUpTo;
    assert OrderedPair(nodes, i, j);
    OneMorePair(nodes, i, j);
  }

  lemma OneMorePair(nodes: seq<PlanNode>, i: nat, j: nat)
    requires i < j < |nodes| && OrderedUpTo(nodes, j, i) && OrderedPair(nodes, i, j)
    ensures OrderedUpTo(nodes, j, i + 1)
  {
    hide OrderedPair;
  }

  /** The new dependency orders its pair, keeps the pairs already ordered, and closes no cycle. */
  lemma StepSerialized(base: seq<PlanNode>, nodes: seq<PlanNode>, later: nat, earlier: nat)
    requires Progress(base, nodes) && earlier < later < |nodes| && OrderedUpTo(nodes, later, earlier)
    requires Overlap(nodes[earlier], nodes[later])
    requires !Reaches(DependencyGraph(nodes), nodes[later].id, nodes[earlier].id)
    requires !Reaches(DependencyGraph(nodes), nodes[earlier].id, nodes[later].id)
    ensures Progress(base, WithDependency(nodes, later, earlier))
    ensures OrderedUpTo(WithDependency(nodes, later, earlier), later, earlier + 1)
  {
    hide Overlap, DependencyGraph, OneMoreEdge, Reaches, Extends, Acyclic, NoRepeats, MayAdd;
    assert !OrderedPair(nodes, earlier, later);
    hide OrderedPair, OrderedUpTo;
    StepOrdered(nodes, later, earlier);
    OneEdgeAdded(nodes, later, earlier);
    ExtendedIds(base, nodes);
    StillUnordered(base, nodes, later, earlier);
    StepExtends(base, nodes, later, earlier);
    NewDependencyIsNew(nodes, later, earlier);
    if Acyclic(DependencyGraph(nodes)) {
      NewEdgeKeepsAcyclic(DependencyGraph(nodes), DependencyGraph(WithDependency(nodes, later, earlier)),
                          nodes[later].id, nodes[earlier].id);
    }
  }

  lemma StepOrdered(nodes: seq<PlanNode>, later: nat, earlier: nat)
    requires DistinctIds(nodes) && earlier < later < |nodes| && OrderedUpTo(nodes, later, earlier)
    ensures OrderedUpTo(WithDependency(nodes, later, earlier), later, earlier + 1)
  {
    hide OrderedPair, DependencyGraph, OneMoreEdge, DistinctIds;
    OneEdgeAdded(nodes, later, earlier);
    NewPairOrdered(nodes, later, earlier);
    forall i, j | 0 <= i < |nodes| && 0 <= j < |nodes| && OrderedPair(nodes, i, j)
      ensures OrderedPair(WithDependency(nodes, later, earlier), i, j)
    {
      PairStaysOrdered(nodes, later, earlier, i, j);
    }
  }

  lemma NewPairOrdered(nodes: seq<PlanNode>, later: nat, earlier: nat)
    requires DistinctIds(nodes) && later < |nodes| && earlier < |nodes|
    requires OneMoreEdge(DependencyGraph(nodes), DependencyGraph(WithDependency(nodes, later, earlier)),
                         nodes[later].id, nodes[earlier].id)
    ensures OrderedPair(WithDependency(nodes, later, earlier), earlier, later)
  {
    var h := DependencyGraph(WithDependency(nodes, later, earlier));
    ReachesSelf(h, nodes[earlier].id);
    ReachesStep(h, nodes[later].id, nodes[earlier].id, nodes[earlier].id);
  }

  lemma PairStaysOrdered(nodes: seq<PlanNode>, later: nat, earlier: nat, i: nat, j: nat)
    requires later < |nodes| && earlier < |nodes| && i < |nodes| && j < |nodes| && OrderedPair(nodes, i, j)
    requires OneMoreEdge(DependencyGraph(nodes), DependencyGraph(WithDependency(nodes, later, earlier)),
                         nodes[later].id, nodes[earlier].id)
    ensures OrderedPair(WithDependency(nodes, later, earlier), i, j)
  {
    hide DependencyGraph, Reaches;
    var g, h := DependencyGraph(nodes), DependencyGraph(WithDependency(nodes, later, earlier));
    if Reaches(g, nodes[j].id, nodes[i].id) { ReachesMonotone(g, h, nodes[j].id, nodes[i].id); }
    if Reaches(g, nodes[i].id, nodes[j].id) { ReachesMonotone(g, h, nodes[i].id, nodes[j].id); }
    hide PathsConflict;
    assert Overlap(WithDependency(nodes, later, earlier)[i], WithDependency(nodes, later, earlier)[j])
           ==> Overlap(nodes[i], nodes[j]);
  }

  lemma ExtendsContains(base: seq<PlanNode>, nodes: seq<PlanNode>)
    requires Extends(base, nodes) && DistinctIds(base) && DistinctIds(nodes)
    ensures Contained(DependencyGraph(base), DependencyGraph(nodes))
  {
    hide DependencyGraph, Edge, MayAdd;
    forall a, b | Edge(DependencyGraph(base), a, b)
      ensures Edge(DependencyGraph(nodes), a, b)
    {
      EdgeMeaning(Plan("", "", base), a, b);
      EdgeMeaning(Plan("", "", nodes), a, b);
      var i :| 0 <= i < |base| && base[i].id == a && b in base[i].dependsOn;
      assert ExtendsNode(base, i, nodes[i]);
    }
  }

  lemma StillUnordered(base: seq<PlanNode>, nodes: seq<PlanNode>, later: nat, earlier: nat)
    requires Extends(base, nodes) && DistinctIds(base) && DistinctIds(nodes) && earlier < later < |nodes|
    requires Overlap(nodes[earlier], nodes[later])
    requires !Reaches(DependencyGraph(nodes), nodes[later].id, nodes[earlier].id)
    requires !Reaches(DependencyGraph(nodes), nodes[earlier].id, nodes[later].id)
    ensures MayAdd(base, earlier, later)
  {
    hide DependencyGraph, Reaches, Contained, PathsConflict;
    ExtendsContains(base, nodes);
    assert ExtendsNode(base, later, nodes[later]) && ExtendsNode(base, earlier, nodes[earlier]);
    var g, h := DependencyGraph(base), DependencyGraph(nodes);
    var a, b := base[later].id, base[earlier].id;
    if Reaches(g, a, b) { ReachesMonotone(g, h, a, b); }
    if Reaches(g, b, a) { ReachesMonotone(g, h, b, a); }
    assert Overlap(base[earlier], base[later]);
  }

  lemma StepExtends(base: seq<PlanNode>, nodes: seq<PlanNode>, later: nat, earlier: nat)
    requires Extends(base, nodes) && earlier < later < |nodes| && MayAdd(base, earlier, later)
    ensures Extends(base, WithDependency(nodes, later, earlier))
  {
    hide MayAdd;
    var n := WithDependency(nodes, later, earlier)[later];
    assert ExtendsNode(base, later, nodes[later]) && ExtendsNode(base, earlier, nodes[earlier]);
    assert ExtendsNode(base, later, n) by {
      forall k | |base[later].dependsOn| <= k < |n.dependsOn|
        ensures exists e :: 0 <= e < later && base[e].id == n.dependsOn[k] && MayAdd(base, e, later)
      {
        if k == |n.dependsOn| - 1 {
          assert base[earlier].id == n.dependsOn[k];
        } else {
          assert n.dependsOn[k] == nodes[later].dependsOn[k];
        }
      }
    }
  }

  /** The appended dependency was not reachable, so in particular it was not listed. */
  lemma NewDependencyIsNew(nodes: seq<PlanNode>, later: nat, earlier: nat)
    requires DistinctIds(nodes) && later < |nodes| && earlier < |nodes|
    requires !Reaches(DependencyGraph(nodes), nodes[later].id, nodes[earlier].id)
    ensures NoRepeats(nodes[later].dependsOn) ==> NoRepeats(WithDependency(nodes, later, earlier)[later].dependsOn)
  {
    var g := DependencyGraph(nodes);
    if nodes[earlier].id in nodes[later].dependsOn {
      EdgeMeaning(Plan("", "", nodes), nodes[later].id, nodes[earlier].id);
      ReachesSelf(g, nodes[earlier].id);
      ReachesStep(g, nodes[later].id, nodes[earlier].id, nodes[earlier].id);
    }
  }

  lemma SerializedIsNormal(base: seq<PlanNode>, nodes: seq<PlanNode>)
    requires AllWritable(base, false) && Extends(NormalNodes(base), nodes)
    ensures AllWritable(nodes, false) && NormalNodes(nodes) == nodes
  {
    hide NormalNode, MayAdd;
    var normal := NormalNodes(base);
    forall i | 0 <= i < |nodes|
      ensures Writable(nodes[i], false) && NormalNode(nodes[i]) == nodes[i]
    {
      assert ExtendsNode(normal, i, nodes[i]);
      NormalNodeIsFixed(base[i]);
      NormalExceptDependencies(normal[i], nodes[i]);
    }
  }

  /** What was fit to be written stays so. */
  lemma SerializedIsWritable(base: seq<PlanNode>, nodes: seq<PlanNode>)
    requires AllWritable(base, true) && AllWritable(base, false) && Extends(NormalNodes(base), nodes)
    ensures AllWritable(nodes, true)
  {
    hide NormalNode, MayAdd, PathsAccepted;
    SerializedIsNormal(base, nodes);
    var normal := NormalNodes(base);
    forall i | 0 <= i < |nodes|
      ensures Writable(nodes[i], true)
    {
      assert Writable(base[i], true) && Writable(nodes[i], false);
      assert ExtendsNode(normal, i, nodes[i]);
      NormalNodeIsFixed(base[i]);
    }
  }

  lemma WritableEitherWay(nodes: seq<PlanNode>)
    requires AllWritable(nodes, true)
    ensures AllWritable(nodes, false)
  {
    forall i | 0 <= i < |nodes|
      ensures Writable(nodes[i], false)
    {
      assert Writable(nodes[i], true);
    }
  }

  lemma NormalExceptDependencies(m: PlanNode, n: PlanNode)
    requires PathsAccepted(m) && NormalNode(m) == m && n == m.(dependsOn := n.dependsOn)
    ensures PathsAccepted(n) && NormalNode(n) == n
  {
    hide NormalSet, AllAccepted;
  }

  /** Running the serialization on its own result changes nothing. */
  method SerializeTwice(plan: Plan) returns (once: Serialized, twice: Serialized)
    requires UniqueIds(plan)
    ensures once.Serialized? <==> AllWritable(plan.nodes, false)
    ensures twice == once
  {
    once := SerializeWriteConflicts(plan, false);
    if once.Refused? { return once, once; }
    ExtendedIds(NormalNodes(plan.nodes), once.plan.nodes);
    NormalNodesKeepGraph(plan.nodes);
    SerializedIsNormal(plan.nodes, once.plan.nodes);
    twice := SerializeWriteConflicts(once.plan, false);
  }

  lemma ExtendedIds(base: seq<PlanNode>, nodes: seq<PlanNode>)
    requires Extends(base, nodes)
    ensures DistinctIds(nodes) <==> DistinctIds(base)
  {
    hide MayAdd;
    forall i | 0 <= i < |base|
      ensures nodes[i].id == base[i].id
    {
      assert ExtendsNode(base, i, nodes[i]);
    }
  }
}
