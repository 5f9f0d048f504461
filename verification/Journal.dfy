/** The append-only chain journal, and the fold that rebuilds a chain record from it. */
module Journal {
  import opened ChainTypes

  datatype Kind = PlanKind | StartedKind | SealedKind | ReplannedKind | ResumedKind | ControlKind | TerminalKind

  datatype Payload =
    | PlanEntry(plan: Plan)
    | NodeStarted(nodeId: string, childRunId: string)
    | NodeSealed(nodeId: string, outcome: NodeOutcome, handoff: Option<string>, inconclusiveCheck: Option<string>)
    | NodeReplanned(failedNodeId: string, reason: string, revisedPlan: Plan, brief: string)
    | NodeResumed(nodeId: string, childRunId: string, attempt: nat, reason: string)
    | ControlEvent(failed: Option<string>)
    | Terminal(status: TerminalStatus, sealReason: Option<string>, resumable: bool)

  datatype Entry = Entry(idx: nat, payload: Payload)

  datatype ChainRow = ChainRow(plan: Plan, status: ChainStatus)

  /** What the two tables of one chain's store hold. */
  datatype Store = Store(entries: seq<Entry>, row: Option<ChainRow>)

  function KindOf(p: Payload): Kind {
    match p
    case PlanEntry(_) => PlanKind
    case NodeStarted(_, _) => StartedKind
    case NodeSealed(_, _, _, _) => SealedKind
    case NodeReplanned(_, _, _, _) => ReplannedKind
    case NodeResumed(_, _, _, _) => ResumedKind
    case ControlEvent(_) => ControlKind
    case Terminal(_, _, _) => TerminalKind
  }

  /** The payload field an idempotent append of this kind is keyed by. */
  function KeyOf(p: Payload): Option<string> {
    match p
    case NodeStarted(id, _) => Some(id)
    case NodeSealed(id, _, _, _) => Some(id)
    case NodeReplanned(id, _, _, _) => Some(id)
    case _ => None
  }

  predicate Contiguous(es: seq<Entry>) {
    forall i :: 0 <= i < |es| ==> es[i].idx == i
  }

  predicate SameKey(p: Payload, q: Payload) {
    KindOf(p) == KindOf(q) && KeyOf(p).Some? && KeyOf(p) == KeyOf(q)
  }

  predicate HasKey(es: seq<Entry>, p: Payload) {
    exists i :: 0 <= i < |es| && SameKey(es[i].payload, p)
  }

  function Appended(es: seq<Entry>, p: Payload): seq<Entry> {
    es + [Entry(|es|, p)]
  }

  function AppendedOnce(es: seq<Entry>, p: Payload): seq<Entry> {
    if HasKey(es, p) then es else Appended(es, p)
  }

  function EntriesOf(es: seq<Entry>, kind: Kind): seq<Entry> {
    if es == [] then []
    else
      var last := es[|es| - 1];
      EntriesOf(es[..|es| - 1], kind) + (if KindOf(last.payload) == kind then [last] else [])
  }

  /** Index of the last entry of a kind, or -1. */
  function LastIdx(es: seq<Entry>, kind: Kind): int {
    var found := EntriesOf(es, kind);
    if found == [] then -1 else found[|found| - 1].idx
  }

  class ChainJournal {
    var entries: seq<Entry>
    var row: Option<ChainRow>

    ghost predicate Valid()
      reads this
    {
      Contiguous(entries)
    }

    function Contents(): Store
      reads this
    {
      Store(entries, row)
    }

    constructor ()
      ensures Valid() && Contents() == Store([], None)
    {
      entries, row := [], None;
    }

    /** Insert-or-ignore: re-entry never resets the chain row. */
    method CreateChain(plan: Plan)
      modifies this`row
      ensures row == if old(row).None? then Some(ChainRow(plan, Running)) else old(row)
    {
      if row.None? { row := Some(ChainRow(plan, Running)); }
    }

    method SetStatus(status: ChainStatus)
      modifies this`row
      ensures row == WithStatus(old(row), status)
    {
      if row.Some? { row := Some(row.value.(status := status)); }
    }

    method UpdatePlan(plan: Plan)
      modifies this`row
      ensures row == WithPlan(old(row), plan)
    {
      if row.Some? { row := Some(row.value.(plan := plan)); }
    }

    /** The next index is one past the largest in the table. */
    method Append(p: Payload) returns (entry: Entry)
      requires Valid()
      modifies this`entries
      ensures Valid()
      ensures entries == Appended(old(entries), p) && entry == entries[|entries| - 1]
    {
      var max: int := -1;
      for i := 0 to |entries|
        invariant max == i - 1
      {
        if entries[i].idx > max { max := entries[i].idx; }
      }
      entry := Entry(max + 1, p);
      entries := entries + [entry];
    }

    method FindByKey(p: Payload) returns (found: Option<Entry>)
      ensures found.Some? <==> HasKey(entries, p)
      ensures found.Some? ==> exists i :: 0 <= i < |entries| && entries[i] == found.value && SameKey(entries[i].payload, p)
                                          && forall j :: 0 <= j < i ==> !SameKey(entries[j].payload, p)
    {
      for i := 0 to |entries|
        invariant forall j :: 0 <= j < i ==> !SameKey(entries[j].payload, p)
      {
        if SameKey(entries[i].payload, p) { return Some(entries[i]); }
      }
      return None;
    }

    method AppendOnce(p: Payload) returns (entry: Entry, existed: bool)
      requires Valid()
      modifies this`entries
      ensures Valid()
      ensures entries == AppendedOnce(old(entries), p)
      ensures existed <==> HasKey(old(entries), p)
      ensures entry in entries && (existed ==> SameKey(entry.payload, p)) && (!existed ==> entry.payload == p)
    {
      var existing := FindByKey(p);
      if existing.Some? { return existing.value, true; }
      entry := Append(p);
      existed := false;
    }
  }

  function WithStatus(row: Option<ChainRow>, status: ChainStatus): Option<ChainRow> {
    if row.Some? then Some(row.value.(status := status)) else None
  }

  function WithPlan(row: Option<ChainRow>, plan: Plan): Option<ChainRow> {
    if row.Some? then Some(row.value.(plan := plan)) else None
  }

  // ---- The fold ----

  datatype Folded = Folded(
    plan: Plan,
    runs: map<string, string>,
    outcomes: map<string, NodeOutcome>,
    handoffs: map<string, string>)

  /** The outcome a sealed entry stands for: its split-out marker put back. */
  function Merged(outcome: NodeOutcome, inconclusiveCheck: Option<string>): NodeOutcome {
    if inconclusiveCheck.Some? then outcome.(inconclusiveCheck := inconclusiveCheck) else outcome
  }

  function FoldEntry(f: Folded, p: Payload): Folded {
    match p
    case NodeStarted(id, run) => f.(runs := f.runs[id := run])
    case NodeSealed(id, outcome, handoff, check) =>
      f.(outcomes := f.outcomes[id := Merged(outcome, check)],
         handoffs := if handoff.Some? then f.handoffs[id := handoff.value] else f.handoffs)
    case NodeReplanned(_, _, revised, _) => f.(plan := revised)
    case _ => f
  }

  function Fold(plan: Plan, es: seq<Entry>): Folded {
    if es == [] then Folded(plan, map[], map[], map[])
    else FoldEntry(Fold(plan, es[..|es| - 1]), es[|es| - 1].payload)
  }

  function ChainRecordOf(store: Store): Option<ChainRecord> {
    match store.row
    case None => None
    case Some(row) =>
      var f := Fold(row.plan, store.entries);
      Some(ChainRecord(f.plan.id, f.plan, f.runs, f.outcomes, f.handoffs, row.status))
  }

  method ChainRecordFrom(journal: ChainJournal) returns (record: Option<ChainRecord>)
    ensures record == ChainRecordOf(journal.Contents())
  {
    if journal.row.None? { return None; }
    var plan := journal.row.value.plan;
    var nodeRuns: map<string, string>, nodeOutcomes: map<string, NodeOutcome>, nodeHandoffs: map<string, string>
      := map[], map[], map[];
    for i := 0 to |journal.entries|
      invariant Folded(plan, nodeRuns, nodeOutcomes, nodeHandoffs)
                == Fold(journal.row.value.plan, journal.entries[..i])
    {
      assert journal.entries[..i + 1][..i] == journal.entries[..i];
      match journal.entries[i].payload {
        case NodeStarted(nodeId, childRunId) =>
          nodeRuns := nodeRuns[nodeId := childRunId];
        case NodeSealed(nodeId, outcome, handoff, inconclusiveCheck) =>
          nodeOutcomes := nodeOutcomes[nodeId := Merged(outcome, inconclusiveCheck)];
          if handoff.Some? { nodeHandoffs := nodeHandoffs[nodeId := handoff.value]; }
        case NodeReplanned(_, _, revisedPlan, _) =>
          plan := revisedPlan;
        case _ =>
      }
    }
    assert journal.entries[..|journal.entries|] == journal.entries;
    record := Some(ChainRecord(plan.id, plan, nodeRuns, nodeOutcomes, nodeHandoffs, journal.row.value.status));
  }

  lemma FoldAppend(plan: Plan, es: seq<Entry>, p: Payload)
    ensures Fold(plan, Appended(es, p)) == FoldEntry(Fold(plan, es), p)
  {
    assert Appended(es, p)[..|es|] == es;
  }

  predicate SealsAt(es: seq<Entry>, i: nat, id: string) {
    i < |es| && es[i].payload.NodeSealed? && es[i].payload.nodeId == id
  }

  predicate SplicesAt(es: seq<Entry>, i: nat) {
    i < |es| && es[i].payload.NodeReplanned?
  }

  /** An id has a rebuilt outcome exactly when some entry sealed it... */
  lemma {:induction false} FoldedOutcome(plan: Plan, es: seq<Entry>, id: string)
    ensures id in Fold(plan, es).outcomes <==> exists i: nat :: SealsAt(es, i, id)
  {
    if es != [] {
      var front, k := es[..|es| - 1], |es| - 1;
      FoldedOutcome(plan, front, id);
      assert forall i: nat :: SealsAt(front, i, id) ==> SealsAt(es, i, id);
      assert forall i: nat :: i < k && SealsAt(es, i, id) ==> SealsAt(front, i, id);
      assert SealsAt(es, k, id) <==> es[k].payload.NodeSealed? && es[k].payload.nodeId == id;
    }
  }

  /** ...and the last entry that sealed it decides the outcome. */
  lemma {:induction false} LastSealDecides(plan: Plan, es: seq<Entry>, i: nat, id: string)
    requires SealsAt(es, i, id)
    requires forall j: nat :: i < j ==> !SealsAt(es, j, id)
    ensures id in Fold(plan, es).outcomes
    ensures Fold(plan, es).outcomes[id] == Merged(es[i].payload.outcome, es[i].payload.inconclusiveCheck)
  {
    if i < |es| - 1 {
      var front := es[..|es| - 1];
      assert forall j: nat :: SealsAt(front, j, id) ==> SealsAt(es, j, id);
      assert !SealsAt(es, |es| - 1, id);
      LastSealDecides(plan, front, i, id);
    }
  }

  /** The rebuilt plan is the last spliced one; from the first splice on the chain row's plan no longer matters. */
  lemma {:induction false} LastSpliceDecides(plan: Plan, es: seq<Entry>, i: nat)
    requires SplicesAt(es, i)
    requires forall j: nat :: i < j ==> !SplicesAt(es, j)
    ensures Fold(plan, es).plan == es[i].payload.revisedPlan
  {
    if i < |es| - 1 {
      var front := es[..|es| - 1];
      assert forall j: nat :: SplicesAt(front, j) ==> SplicesAt(es, j);
      assert !SplicesAt(es, |es| - 1);
      LastSpliceDecides(plan, front, i);
    }
  }
}
