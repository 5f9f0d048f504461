/** The loader's three-colour search for a prerequisite cycle. */
module TaskCycle {
  import opened Graph
  import opened ChainTypes
  import opened Grade

  datatype Mark = Visiting | Done

  /** Ids that no requirement carries have no prerequisites. */
  function DepsOf(g: Deps, id: string): seq<string> {
    if id in g then g[id] else []
  }

  /** Finished ids are numbered so that every prerequisite has a smaller number. */
  ghost predicate Finished(g: Deps, state: map<string, Mark>, rank: map<string, nat>) {
    && (forall x :: x in rank <==> x in state && state[x] == Done)
    && (forall x :: x in rank ==> rank[x] < |rank|)
    && forall x, d :: x in rank && Edge(g, x, d) ==> d in rank && rank[d] < rank[x]
  }

  lemma RepeatClosesCycle(g: Deps, open: set<string>, id: string)
    requires AllLeadTo(g, open, id) && id in open
    ensures OnCycle(g, id) && id in g
  {
    assert LeadsTo(g, id, id);
  }

  /** The search's bookkeeping: the open ids are the ones being visited, the ranked ids the finished ones. */
  ghost predicate Tracked(g: Deps, state: map<string, Mark>, rank: map<string, nat>, open: set<string>) {
    && (forall x :: x in open <==> x in state && state[x] == Visiting)
    && Finished(g, state, rank)
  }

  lemma TrackedMarks(g: Deps, state: map<string, Mark>, rank: map<string, nat>, open: set<string>, id: string)
    requires Tracked(g, state, rank, open)
    ensures id in rank <==> id in state && state[id] == Done
    ensures id in open <==> id in state && state[id] == Visiting
    ensures id in rank ==> Settled(g, state, state, rank, rank, open, id)
  {
  }

  /** A search bookkeeping step: nothing known is forgotten. */
  ghost predicate Extends(before: map<string, Mark>, after: map<string, Mark>, rank: map<string, nat>, wider: map<string, nat>) {
    before.Keys <= after.Keys && rank.Keys <= wider.Keys
  }

  /** Half-way through the prerequisites of an open id: the first `i` of them are finished. */
  ghost predicate Halfway(g: Deps, start: map<string, Mark>, state: map<string, Mark>, ranked: map<string, nat>,
                          rank: map<string, nat>, open: set<string>, id: string, i: int) {
    && Tracked(g, state, rank, open + {id})
    && Extends(start[id := Visiting], state, ranked, rank)
    && 0 <= i <= |DepsOf(g, id)|
    && forall d :: d in DepsOf(g, id)[..i] ==> d in rank
  }

  /** What a search without a hit leaves: the id finished, the open ids as they were. */
  ghost predicate Settled(g: Deps, start: map<string, Mark>, state: map<string, Mark>, ranked: map<string, nat>,
                          rank: map<string, nat>, open: set<string>, id: string) {
    Tracked(g, state, rank, open) && Extends(start, state, ranked, rank) && id in rank
  }

  lemma OpeningStartsHalfway(g: Deps, state: map<string, Mark>, rank: map<string, nat>, open: set<string>, id: string)
    requires Tracked(g, state, rank, open) && id !in state
    ensures Halfway(g, state, state[id := Visiting], rank, rank, open, id, 0)
  {
  }

  lemma HalfwayAdvances(g: Deps, start: map<string, Mark>, state: map<string, Mark>, ranked: map<string, nat>,
                        rank: map<string, nat>, open: set<string>, id: string, i: nat,
                        state': map<string, Mark>, rank': map<string, nat>)
    requires Halfway(g, start, state, ranked, rank, open, id, i) && i < |DepsOf(g, id)|
    requires Settled(g, state, state', rank, rank', open + {id}, DepsOf(g, id)[i])
    ensures Halfway(g, start, state', ranked, rank', open, id, i + 1)
  {
    assert DepsOf(g, id)[..i + 1] == DepsOf(g, id)[..i] + [DepsOf(g, id)[i]];
  }

  lemma HalfwayHasVisited(g: Deps, start: map<string, Mark>, state: map<string, Mark>, ranked: map<string, nat>,
                          rank: map<string, nat>, open: set<string>, id: string, i: int)
    requires Halfway(g, start, state, ranked, rank, open, id, i) && id !in start && id in g
    ensures g.Keys - state.Keys < g.Keys - start.Keys
    ensures Tracked(g, state, rank, open + {id})
  {
    assert id in g.Keys - start.Keys && id in start[id := Visiting].Keys;
  }

  lemma ClosingKeepsTracked(g: Deps, state: map<string, Mark>, rank: map<string, nat>, open: set<string>, id: string)
    requires Tracked(g, state, rank, open + {id}) && id !in open
    requires forall d :: d in DepsOf(g, id) ==> d in rank
    ensures Tracked(g, state[id := Done], rank[id := |rank|], open)
  {
    assert id in open + {id};
  }

  lemma ClosingSettles(g: Deps, start: map<string, Mark>, state: map<string, Mark>, ranked: map<string, nat>,
                       rank: map<string, nat>, open: set<string>, id: string)
    requires Halfway(g, start, state, ranked, rank, open, id, |DepsOf(g, id)|) && id !in open
    ensures Settled(g, start, state[id := Done], ranked, rank[id := |rank|], open, id)
  {
    hide Tracked;
    assert DepsOf(g, id)[..|DepsOf(g, id)|] == DepsOf(g, id);
    ClosingKeepsTracked(g, state, rank, open, id);
  }

  lemma AllRankedHasNoCycle(reqs: seq<Requirement>, state: map<string, Mark>, rank: map<string, nat>)
    requires Tracked(Prerequisites(ById(reqs)), state, rank, {})
    requires forall k :: 0 <= k < |reqs| ==> reqs[k].id in rank
    ensures Acyclic(Prerequisites(ById(reqs)))
  {
    ByIdKeys(reqs);
    RankRulesOutCycles(Prerequisites(ById(reqs)), x => if x in rank then rank[x] else 0);
  }

  lemma NothingTracked(g: Deps)
    ensures Tracked(g, map[], map[], {})
  {
  }

  lemma NoEmptyId(reqs: seq<Requirement>)
    requires forall r :: r in reqs ==> r.id != ""
    ensures "" !in Prerequisites(ById(reqs))
  {
    ByIdKeys(reqs);
  }

  lemma CycleRefutes(g: Deps, id: string)
    requires OnCycle(g, id)
    ensures !Acyclic(g)
  {
  }

  class CycleFinder {
    const prerequisites: Deps
    var state: map<string, Mark>
    ghost var rank: map<string, nat>

    constructor (prerequisites: Deps)
      ensures this.prerequisites == prerequisites && state == map[] && rank == map[]
    {
      this.prerequisites, state, rank := prerequisites, map[], map[];
    }

    /** The id hit first lies on a cycle; without a hit the id is finished and the open ids are as before. */
    method Visit(id: string, ghost open: set<string>) returns (hit: Option<string>)
      requires Tracked(prerequisites, state, rank, open) && AllLeadTo(prerequisites, open, id)
      requires "" !in prerequisites
      modifies this`state, this`rank
      ensures hit.Some? ==> OnCycle(prerequisites, hit.value) && hit.value != ""
      ensures hit.None? ==> Settled(prerequisites, old(state), state, old(rank), rank, open, id)
      decreases prerequisites.Keys - state.Keys, if id in state.Keys then 0 else 1
    {
      hide OnCycle, AllLeadTo, Tracked, Halfway, Settled;
      TrackedMarks(prerequisites, state, rank, open, id);
      if id in state && state[id] == Done { return None; }
      if id in state && state[id] == Visiting {
        RepeatClosesCycle(prerequisites, open, id);
        return Some(id);
      }
      OpeningStartsHalfway(prerequisites, state, rank, open, id);
      state := state[id := Visiting];
      var deps := DepsOf(prerequisites, id);
      for i := 0 to |deps|
        invariant Halfway(prerequisites, old(state), state, old(rank), rank, open, id, i)
      {
        HalfwayHasVisited(prerequisites, old(state), state, old(rank), rank, open, id, i);
        OpenLeadOn(prerequisites, open, id, deps[i]);
        ghost var seen, ranked := state, rank;
        hit := Visit(deps[i], open + {id});
        // the answer is tested for truth, so an empty id would read as no hit
        if hit.Some? && hit.value != "" { return hit; }
        HalfwayAdvances(prerequisites, old(state), seen, old(rank), ranked, open, id, i, state, rank);
      }
      ClosingSettles(prerequisites, old(state), state, old(rank), rank, open, id);
      state := state[id := Done];
      rank := rank[id := |rank|];
      return None;
    }
  }

  /** No answer means no cycle among the prerequisites; an answer lies on one. */
  method FindCycle(reqs: seq<Requirement>) returns (hit: Option<string>)
    requires forall r :: r in reqs ==> r.id != ""
    ensures hit.None? <==> Acyclic(Prerequisites(ById(reqs)))
    ensures hit.Some? ==> hit.value != "" && OnCycle(Prerequisites(ById(reqs)), hit.value)
  {
    hide OnCycle, Acyclic, Tracked, ById, Prerequisites;
    var g := Prerequisites(ById(reqs));
    NoEmptyId(reqs);
    var finder := new CycleFinder(g);
    NothingTracked(g);
    for i := 0 to |reqs|
      invariant finder.prerequisites == g && Tracked(finder.prerequisites, finder.state, finder.rank, {})
      invariant forall k :: 0 <= k < i ==> reqs[k].id in finder.rank
    {
      hit := finder.Visit(reqs[i].id, {});
      if hit.Some? && hit.value != "" {
        CycleRefutes(g, hit.value);
        return hit;
      }
    }
    AllRankedHasNoCycle(reqs, finder.state, finder.rank);
    return None;
  }
}
