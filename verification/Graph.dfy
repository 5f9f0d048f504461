/** Directed graphs over string ids, given as adjacency lists. Plans, write-conflict ordering and
    benchmark prerequisites are all read as such graphs: an edge leads from a node to one it depends on. */
module Graph {

  type Deps = map<string, seq<string>>

  predicate Edge(g: Deps, a: string, b: string) {
    a in g && b in g[a]
  }

  ghost predicate IsPath(g: Deps, p: seq<string>) {
    |p| >= 1 && forall i :: 0 <= i < |p| - 1 ==> Edge(g, p[i], p[i + 1])
  }

  ghost predicate PathBetween(g: Deps, p: seq<string>, a: string, b: string) {
    IsPath(g, p) && p[0] == a && p[|p| - 1] == b
  }

  /** `b` can be reached from `a` along zero or more edges. */
  ghost predicate Reaches(g: Deps, a: string, b: string) {
    exists p :: PathBetween(g, p, a, b)
  }

  /** `a` can be reached from itself along at least one edge. */
  ghost predicate OnCycle(g: Deps, a: string) {
    exists b :: Edge(g, a, b) && Reaches(g, b, a)
  }

  ghost predicate Acyclic(g: Deps) {
    forall a :: !OnCycle(g, a)
  }

  lemma ReachesSelf(g: Deps, a: string)
    ensures Reaches(g, a, a)
  {
    assert PathBetween(g, [a], a, a);
  }

  lemma ReachesStep(g: Deps, a: string, b: string, c: string)
    requires Edge(g, a, b) && Reaches(g, b, c)
    ensures Reaches(g, a, c)
  {
    var p :| PathBetween(g, p, b, c);
    assert PathBetween(g, [a] + p, a, c);
  }

  lemma ReachesTransitive(g: Deps, a: string, b: string, c: string)
    requires Reaches(g, a, b) && Reaches(g, b, c)
    ensures Reaches(g, a, c)
  {
    var p :| PathBetween(g, p, a, b);
    var q :| PathBetween(g, q, b, c);
    var r := p + q[1..];
    assert r[|r| - 1] == c;
    assert PathBetween(g, r, a, c);
  }

  lemma ReachesAppend(g: Deps, a: string, b: string, c: string)
    requires Reaches(g, a, b) && Edge(g, b, c)
    ensures Reaches(g, a, c)
  {
    ReachesSelf(g, c);
    ReachesStep(g, b, c, c);
    ReachesTransitive(g, a, b, c);
  }

  /** A path leaves its first vertex by an edge, or goes nowhere. */
  lemma ReachesUnfold(g: Deps, a: string, c: string) returns (b: string)
    requires Reaches(g, a, c) && a != c
    ensures Edge(g, a, b) && Reaches(g, b, c)
  {
    var p :| PathBetween(g, p, a, c);
    b := p[1];
    assert PathBetween(g, p[1..], b, c);
  }

  ghost predicate HasSuccessorIn(g: Deps, u: set<string>, a: string) {
    exists b :: b in u && Edge(g, a, b)
  }

  ghost predicate Stuck(g: Deps, u: set<string>) {
    forall a {:trigger HasSuccessorIn(g, u, a)} :: a in u ==> HasSuccessorIn(g, u, a)
  }

  /** A vertex set in which everything has a successor inside the set contains a cycle. */
  lemma StuckSetHasCycle(g: Deps, u: set<string>) returns (c: string)
    requires u != {}
    requires Stuck(g, u)
    ensures c in u && OnCycle(g, c)
  {
    var a :| a in u;
    c := WalkUntilRepeat(g, u, [a], {a});
  }

  lemma {:induction false} WalkUntilRepeat(g: Deps, u: set<string>, walk: seq<string>, visited: set<string>)
    returns (c: string)
    requires IsPath(g, walk) && visited <= u
    requires visited == set a | a in walk
    requires Stuck(g, u)
    ensures c in u && OnCycle(g, c)
    decreases u - visited
  {
    var last := walk[|walk| - 1];
    assert last in visited && HasSuccessorIn(g, u, last);
    var b :| b in u && Edge(g, last, b);
    if b in visited {
      RevisitClosesCycle(g, walk, b);
      c := last;
    } else {
      PathExtends(g, walk, b);
      c := WalkUntilRepeat(g, u, walk + [b], visited + {b});
    }
  }

  lemma RevisitClosesCycle(g: Deps, walk: seq<string>, b: string)
    requires IsPath(g, walk) && b in walk && Edge(g, walk[|walk| - 1], b)
    ensures OnCycle(g, walk[|walk| - 1])
  {
    var i :| 0 <= i < |walk| && walk[i] == b;
    assert PathBetween(g, walk[i..], b, walk[|walk| - 1]);
  }

  lemma PathExtends(g: Deps, walk: seq<string>, b: string)
    requires IsPath(g, walk) && Edge(g, walk[|walk| - 1], b)
    ensures IsPath(g, walk + [b])
  {
  }

  /** A numbering that falls along every edge rules cycles out. */
  lemma RankRulesOutCycles(g: Deps, rank: string -> nat)
    requires forall a, b :: Edge(g, a, b) ==> rank(b) < rank(a)
    ensures Acyclic(g)
  {
    forall a, b | Edge(g, a, b) && Reaches(g, b, a)
      ensures false
    {
      var p :| PathBetween(g, p, b, a);
      RankFallsAlong(g, rank, p);
    }
  }

  lemma {:induction false} RankFallsAlong(g: Deps, rank: string -> nat, p: seq<string>)
    requires IsPath(g, p)
    requires forall a, b :: Edge(g, a, b) ==> rank(b) < rank(a)
    ensures rank(p[|p| - 1]) <= rank(p[0])
  {
    if |p| > 1 {
      assert Edge(g, p[0], p[1]);
      RankFallsAlong(g, rank, p[1..]);
    }
  }

  /** Every edge of `g` is an edge of `h`. */
  ghost predicate Contained(g: Deps, h: Deps) {
    forall a, b :: Edge(g, a, b) ==> Edge(h, a, b)
  }

  lemma ReachesMonotone(g: Deps, h: Deps, a: string, b: string)
    requires Contained(g, h) && Reaches(g, a, b)
    ensures Reaches(h, a, b)
  {
    var p :| PathBetween(g, p, a, b);
    assert PathBetween(h, p, a, b);
  }

  /** `h` is `g` with the one edge `s -> t` added. */
  ghost predicate OneMoreEdge(g: Deps, h: Deps, s: string, t: string) {
    forall a, b :: Edge(h, a, b) <==> (Edge(g, a, b) || (a == s && b == t))
  }

  /** Whatever a new edge makes reachable is reached through that edge. */
  lemma {:induction false} ReachesThroughNewEdge(g: Deps, h: Deps, s: string, t: string, p: seq<string>)
    requires OneMoreEdge(g, h, s, t) && IsPath(h, p)
    ensures var a, b := p[0], p[|p| - 1];
            Reaches(g, a, b) || (Reaches(g, a, s) && Reaches(g, t, b))
  {
    var a, b := p[0], p[|p| - 1];
    if |p| == 1 {
      ReachesSelf(g, a);
    } else {
      var m := p[1];
      assert Edge(h, a, m);
      assert IsPath(h, p[1..]);
      ReachesThroughNewEdge(g, h, s, t, p[1..]);
      if Edge(g, a, m) {
        if Reaches(g, m, b) { ReachesStep(g, a, m, b); } else { ReachesStep(g, a, m, s); }
      } else {
        ReachesSelf(g, a);
      }
    }
  }

  /** Adding an edge between two vertices that are not yet ordered closes no cycle. */
  lemma NewEdgeKeepsAcyclic(g: Deps, h: Deps, s: string, t: string)
    requires Acyclic(g) && OneMoreEdge(g, h, s, t) && !Reaches(g, t, s)
    ensures Acyclic(h)
  {
    forall a | OnCycle(h, a)
      ensures false
    {
      NewCycleUsesNewEdge(g, h, s, t, a);
    }
  }

  lemma NewCycleUsesNewEdge(g: Deps, h: Deps, s: string, t: string, a: string)
    requires OneMoreEdge(g, h, s, t) && OnCycle(h, a)
    ensures OnCycle(g, a) || Reaches(g, t, s)
  {
    var b :| Edge(h, a, b) && Reaches(h, b, a);
    var p :| PathBetween(h, p, b, a);
    ReachesThroughNewEdge(g, h, s, t, p);
    if Edge(g, a, b) && !Reaches(g, b, a) {
      ReachesStep(g, a, b, s);
      ReachesTransitive(g, t, a, s);
    }
  }

  /** A map of vertices that carries the edges of `h` to edges of `g` carries cycles to cycles. */
  lemma ImageOfCycle(h: Deps, g: Deps, f: string -> string, a: string)
    requires forall x, y :: Edge(h, x, y) ==> Edge(g, f(x), f(y))
    requires OnCycle(h, a)
    ensures OnCycle(g, f(a))
  {
    var b :| Edge(h, a, b) && Reaches(h, b, a);
    var p :| PathBetween(h, p, b, a);
    var q := seq(|p|, i requires 0 <= i < |p| => f(p[i]));
    assert forall i :: 0 <= i < |q| - 1 ==> Edge(h, p[i], p[i + 1]);
    assert PathBetween(g, q, f(b), f(a));
  }

  /** `to` is reached from `from` along at least one edge. */
  ghost predicate LeadsTo(g: Deps, from: string, to: string) {
    exists b :: Edge(g, from, b) && Reaches(g, b, to)
  }

  lemma LeadsOn(g: Deps, from: string, mid: string, to: string)
    requires LeadsTo(g, from, mid) && Edge(g, mid, to)
    ensures LeadsTo(g, from, to)
  {
    var b :| Edge(g, from, b) && Reaches(g, b, mid);
    ReachesAppend(g, b, mid, to);
  }

  /** Every vertex still open in a depth-first search leads to the one the search enters next. */
  ghost predicate AllLeadTo(g: Deps, open: set<string>, to: string) {
    forall x :: x in open ==> LeadsTo(g, x, to)
  }

  lemma OpenLeadOn(g: Deps, open: set<string>, id: string, d: string)
    requires Edge(g, id, d) && AllLeadTo(g, open, id)
    ensures AllLeadTo(g, open + {id}, d)
  {
    forall x | x in open + {id}
      ensures LeadsTo(g, x, d)
    {
      if x in open {
        LeadsOn(g, x, id, d);
      } else {
        ReachesSelf(g, d);
      }
    }
  }
}
