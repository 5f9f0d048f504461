/** The durable chain activities: each reads the journal, appends to it and sets the chain row. */
module Activities {
  import opened ChainTypes
  import opened Reducer
  import opened Replan
  import opened Journal

  // ---- What each activity does to the store ----

  function Initialized(s: Store, plan: Plan): Store {
    Store(if EntriesOf(s.entries, PlanKind) == [] then Appended(s.entries, PlanEntry(plan)) else s.entries,
          WithStatus(if s.row.None? then Some(ChainRow(plan, Running)) else s.row, Running))
  }

  function FirstFailed(record: ChainRecord, nodes: seq<PlanNode>): (id: Option<string>)
    ensures id.None? <==> forall n :: n in nodes ==> !SealedWith(record, n.id, Failed)
    ensures id.Some? ==> SealedWith(record, id.value, Failed) && exists n :: n in nodes && n.id == id.value
  {
    if nodes == [] then None
    else if SealedWith(record, nodes[0].id, Failed) then Some(nodes[0].id)
    else FirstFailed(record, nodes[1..])
  }

  /** It is the first FAILED node in plan order. */
  lemma {:induction false} FirstFailedIsFirst(record: ChainRecord, nodes: seq<PlanNode>) returns (f: nat)
    requires FirstFailed(record, nodes).Some?
    ensures f < |nodes| && nodes[f].id == FirstFailed(record, nodes).value
    ensures forall j :: 0 <= j < f ==> !SealedWith(record, nodes[j].id, Failed)
  {
    if SealedWith(record, nodes[0].id, Failed) {
      f := 0;
    } else {
      f := FirstFailedIsFirst(record, nodes[1..]);
      assert forall j :: 0 < j < f + 1 ==> nodes[j] == nodes[1..][j - 1];
      f := f + 1;
    }
  }

  predicate WasSealed(es: seq<Entry>) {
    EntriesOf(es, TerminalKind) != []
  }

  /** The newest terminal entry is newer than the newest reopen. */
  predicate NeedsReopen(es: seq<Entry>) {
    WasSealed(es) && LastIdx(es, TerminalKind) > LastIdx(es, ControlKind)
  }

  function Reopened(s: Store): Store {
    if NeedsReopen(s.entries) then
      var record := ChainRecordOf(s);
      var failed := if record.Some? then FirstFailed(record.value, record.value.plan.nodes) else None;
      Store(Appended(s.entries, ControlEvent(failed)), WithStatus(s.row, Running))
    else s
  }

  function Started(s: Store, nodeId: string, childRunId: string): Store {
    s.(entries := AppendedOnce(s.entries, NodeStarted(nodeId, childRunId)))
  }

  function Resumed(s: Store, nodeId: string, childRunId: string, attempt: nat, reason: string): Store {
    s.(entries := Appended(s.entries, NodeResumed(nodeId, childRunId, attempt, reason)))
  }

  /** The marker is split out of the outcome when it is written. */
  function SealedPayload(nodeId: string, outcome: NodeOutcome, handoff: Option<string>, check: Option<string>): Payload {
    NodeSealed(nodeId, outcome.(inconclusiveCheck := None), handoff,
               if check.Some? then check else outcome.inconclusiveCheck)
  }

  function Sealed(s: Store, nodeId: string, outcome: NodeOutcome, handoff: Option<string>, check: Option<string>): Store {
    s.(entries := AppendedOnce(s.entries, SealedPayload(nodeId, outcome, handoff, check)))
  }

  function Replanned(s: Store, failedNodeId: string, reason: string, revised: Plan, brief: string): Store {
    Store(AppendedOnce(s.entries, NodeReplanned(failedNodeId, reason, revised, brief)),
          WithStatus(WithPlan(s.row, revised), Running))
  }

  predicate SealedSinceReopen(es: seq<Entry>) {
    exists t :: t in EntriesOf(es, TerminalKind) && t.idx > LastIdx(es, ControlKind)
  }

  function ChainSealed(s: Store, status: TerminalStatus, reason: Option<string>, resumable: bool): Store {
    Store(if SealedSinceReopen(s.entries) then s.entries else Appended(s.entries, Terminal(status, reason, resumable)),
          WithStatus(s.row, if status == Success then ChainSuccess else ChainFailed))
  }

  // ---- The activities ----

  method InitChain(journal: ChainJournal, plan: Plan)
    requires journal.Valid()
    modifies journal
    ensures journal.Valid()
    ensures journal.Contents() == Initialized(old(journal.Contents()), plan)
  {
    journal.CreateChain(plan);
    if EntriesOf(journal.entries, PlanKind) == [] {
      var _ := journal.Append(PlanEntry(plan));
    }
    journal.SetStatus(Running);
  }

  method RestoreChain(journal: ChainJournal) returns (record: Option<ChainRecord>, resumed: bool)
    requires journal.Valid()
    modifies journal
    ensures journal.Valid()
    ensures record == ChainRecordOf(old(journal.Contents()))
    ensures resumed == WasSealed(old(journal.entries))
    ensures journal.Contents() == Reopened(old(journal.Contents()))
  {
    record := ChainRecordFrom(journal);
    var terminals := EntriesOf(journal.entries, TerminalKind);
    resumed := |terminals| > 0;
    if resumed {
      var lastTerminalIdx := terminals[|terminals| - 1].idx;
      if lastTerminalIdx > LastIdx(journal.entries, ControlKind) {
        var failedNodeId := if record.Some? then FirstFailed(record.value, record.value.plan.nodes) else None;
        var _ := journal.Append(ControlEvent(failedNodeId));
        journal.SetStatus(Running);
      }
    }
  }

  method RecordNodeStarted(journal: ChainJournal, nodeId: string, childRunId: string)
    requires journal.Valid()
    modifies journal
    ensures journal.Valid()
    ensures journal.Contents() == Started(old(journal.Contents()), nodeId, childRunId)
  {
    var _, _ := journal.AppendOnce(NodeStarted(nodeId, childRunId));
  }

  method RecordNodeResumed(journal: ChainJournal, nodeId: string, childRunId: string, attempt: nat, reason: string)
    requires journal.Valid()
    modifies journal
    ensures journal.Valid()
    ensures journal.Contents() == Resumed(old(journal.Contents()), nodeId, childRunId, attempt, reason)
  {
    var _ := journal.Append(NodeResumed(nodeId, childRunId, attempt, reason));
  }

  method RecordNodeSealed(journal: ChainJournal, nodeId: string, outcome: NodeOutcome,
                          handoff: Option<string>, check: Option<string>)
    requires journal.Valid()
    modifies journal
    ensures journal.Valid()
    ensures journal.Contents() == Sealed(old(journal.Contents()), nodeId, outcome, handoff, check)
  {
    var inconclusiveCheck := if check.Some? then check else outcome.inconclusiveCheck;
    var persistedOutcome := NodeOutcome(outcome.status, outcome.verdict, None);
    var _, _ := journal.AppendOnce(NodeSealed(nodeId, persistedOutcome, handoff, inconclusiveCheck));
  }

  method RecordNodeReplanned(journal: ChainJournal, failedNodeId: string, reason: string, revised: Plan, brief: string)
    requires journal.Valid()
    modifies journal
    ensures journal.Valid()
    ensures journal.Contents() == Replanned(old(journal.Contents()), failedNodeId, reason, revised, brief)
  {
    var _, _ := journal.AppendOnce(NodeReplanned(failedNodeId, reason, revised, brief));
    journal.UpdatePlan(revised);
    journal.SetStatus(Running);
  }

  method SealChain(journal: ChainJournal, status: TerminalStatus, reason: Option<string>, resumable: bool)
    requires journal.Valid()
    modifies journal
    ensures journal.Valid()
    ensures journal.Contents() == ChainSealed(old(journal.Contents()), status, reason, resumable)
  {
    var terminals := EntriesOf(journal.entries, TerminalKind);
    var lastReopenIdx := LastIdx(journal.entries, ControlKind);
    var sealedSinceReopen := exists t :: t in terminals && t.idx > lastReopenIdx;
    if !sealedSinceReopen {
      var _ := journal.Append(Terminal(status, reason, resumable));
    }
    journal.SetStatus(if status == Success then ChainSuccess else ChainFailed);
  }

  // ---- Re-executing an activity ----

  lemma {:induction false} EntriesOfAppend(es: seq<Entry>, p: Payload, kind: Kind)
    ensures EntriesOf(Appended(es, p), kind)
            == EntriesOf(es, kind) + (if KindOf(p) == kind then [Entry(|es|, p)] else [])
  {
    assert Appended(es, p)[..|es|] == es;
  }

  lemma LastIdxAppend(es: seq<Entry>, p: Payload, kind: Kind)
    ensures LastIdx(Appended(es, p), kind) == if KindOf(p) == kind then |es| else LastIdx(es, kind)
  {
    EntriesOfAppend(es, p, kind);
  }

  lemma {:induction false} LastIdxBound(es: seq<Entry>, kind: Kind)
    requires Contiguous(es)
    ensures -1 <= LastIdx(es, kind) < |es|
    ensures LastIdx(es, kind) == -1 <==> EntriesOf(es, kind) == []
  {
    if es != [] {
      var front := es[..|es| - 1];
      LastIdxBound(front, kind);
      assert es == Appended(front, es[|es| - 1].payload);
      LastIdxAppend(front, es[|es| - 1].payload, kind);
      EntriesOfAppend(front, es[|es| - 1].payload, kind);
    }
  }

  lemma {:induction false} NoneAfterLastIdx(es: seq<Entry>, kind: Kind)
    requires Contiguous(es)
    ensures forall e :: e in EntriesOf(es, kind) ==> e.idx <= LastIdx(es, kind)
  {
    if es != [] {
      var front := es[..|es| - 1];
      NoneAfterLastIdx(front, kind);
      LastIdxBound(front, kind);
      assert es == Appended(front, es[|es| - 1].payload);
      EntriesOfAppend(front, es[|es| - 1].payload, kind);
    }
  }

  /** An activity executed twice in a row leaves the store as one execution does... */
  lemma ReexecutionIsIdempotent(s: Store, plan: Plan, nodeId: string, run: string, outcome: NodeOutcome,
                                handoff: Option<string>, check: Option<string>, reason: string, brief: string)
    ensures Initialized(Initialized(s, plan), plan) == Initialized(s, plan)
    ensures Started(Started(s, nodeId, run), nodeId, run) == Started(s, nodeId, run)
    ensures Sealed(Sealed(s, nodeId, outcome, handoff, check), nodeId, outcome, handoff, check)
            == Sealed(s, nodeId, outcome, handoff, check)
    ensures Replanned(Replanned(s, nodeId, reason, plan, brief), nodeId, reason, plan, brief)
            == Replanned(s, nodeId, reason, plan, brief)
  {
    EntriesOfAppend(s.entries, PlanEntry(plan), PlanKind);
    OnceIsIdempotent(s.entries, NodeStarted(nodeId, run));
    OnceIsIdempotent(s.entries, SealedPayload(nodeId, outcome, handoff, check));
    OnceIsIdempotent(s.entries, NodeReplanned(nodeId, reason, plan, brief));
  }

  lemma OnceIsIdempotent(es: seq<Entry>, p: Payload)
    requires KeyOf(p).Some?
    ensures AppendedOnce(AppendedOnce(es, p), p) == AppendedOnce(es, p)
  {
    if !HasKey(es, p) {
      assert SameKey(Appended(es, p)[|es|].payload, p);
    }
  }

  lemma ResealIsIdempotent(s: Store, status: TerminalStatus, reason: Option<string>, resumable: bool)
    requires Contiguous(s.entries)
    ensures ChainSealed(ChainSealed(s, status, reason, resumable), status, reason, resumable)
            == ChainSealed(s, status, reason, resumable)
  {
    hide EntriesOf;
    if !SealedSinceReopen(s.entries) {
      var p := Terminal(status, reason, resumable);
      LastIdxBound(s.entries, ControlKind);
      LastIdxAppend(s.entries, p, ControlKind);
      EntriesOfAppend(s.entries, p, TerminalKind);
      var ts := EntriesOf(Appended(s.entries, p), TerminalKind);
      assert ts[|ts| - 1].idx > LastIdx(Appended(s.entries, p), ControlKind);
    }
  }

  lemma ReopenIsIdempotent(s: Store)
    requires Contiguous(s.entries)
    ensures Reopened(Reopened(s)) == Reopened(s)
  {
    if NeedsReopen(s.entries) {
      LastIdxBound(s.entries, TerminalKind);
      var p := Reopened(s).entries[|s.entries|].payload;
      LastIdxAppend(s.entries, p, ControlKind);
      LastIdxAppend(s.entries, p, TerminalKind);
    }
  }

  /** ...except the child re-entry record, which is appended every time, but which no rebuilt record depends on. */
  lemma ReentryRecordIsNotIdempotent(s: Store, nodeId: string, run: string, attempt: nat, reason: string)
    ensures Resumed(Resumed(s, nodeId, run, attempt, reason), nodeId, run, attempt, reason)
            != Resumed(s, nodeId, run, attempt, reason)
    ensures ChainRecordOf(Resumed(s, nodeId, run, attempt, reason)) == ChainRecordOf(s)
  {
    var once := Resumed(s, nodeId, run, attempt, reason);
    assert |Resumed(once, nodeId, run, attempt, reason).entries| == |once.entries| + 1;
    if s.row.Some? {
      FoldAppend(s.row.value.plan, s.entries, NodeResumed(nodeId, run, attempt, reason));
    }
  }

  // ---- Seals and reopens alternate ----

  datatype Operation =
    | Seal(status: TerminalStatus, reason: Option<string>, resumable: bool)
    | Restore
    | Record(payload: Payload)

  function Apply(s: Store, op: Operation): Store {
    match op
    case Seal(status, reason, resumable) => ChainSealed(s, status, reason, resumable)
    case Restore => Reopened(s)
    case Record(p) => s.(entries := Appended(s.entries, p))
  }

  function ApplyAll(s: Store, ops: seq<Operation>): Store {
    if ops == [] then s else Apply(ApplyAll(s, ops[..|ops| - 1]), ops[|ops| - 1])
  }

  predicate IsBoundary(p: Payload) {
    p.Terminal? || p.ControlEvent?
  }

  function Boundaries(es: seq<Entry>): seq<Payload> {
    if es == [] then []
    else
      var last := es[|es| - 1].payload;
      Boundaries(es[..|es| - 1]) + (if IsBoundary(last) then [last] else [])
  }

  /** terminal, reopen, terminal, reopen, ... */
  predicate Alternates(bs: seq<Payload>) {
    forall i :: 0 <= i < |bs| ==> if i % 2 == 0 then bs[i].Terminal? else bs[i].ControlEvent?
  }

  lemma BoundariesAppend(es: seq<Entry>, p: Payload)
    ensures Boundaries(Appended(es, p)) == Boundaries(es) + (if IsBoundary(p) then [p] else [])
  {
    assert Appended(es, p)[..|es|] == es;
  }

  /** The two index comparisons the activities make both ask which boundary came last. */
  lemma {:induction false} LastBoundary(es: seq<Entry>)
    requires Contiguous(es)
    ensures var bs := Boundaries(es);
            && (LastIdx(es, TerminalKind) > LastIdx(es, ControlKind) <==> bs != [] && bs[|bs| - 1].Terminal?)
            && (LastIdx(es, TerminalKind) < LastIdx(es, ControlKind) <==> bs != [] && bs[|bs| - 1].ControlEvent?)
  {
    if es != [] {
      hide Boundaries, LastIdx;
      var front := es[..|es| - 1];
      var p := es[|es| - 1].payload;
      LastBoundary(front);
      assert es == Appended(front, p);
      BoundariesAppend(front, p);
      LastIdxAppend(front, p, TerminalKind);
      LastIdxAppend(front, p, ControlKind);
      LastIdxBound(front, TerminalKind);
      LastIdxBound(front, ControlKind);
    }
  }

  lemma {:induction false} SealsAndReopensAlternate(s: Store, ops: seq<Operation>)
    requires s.entries == []
    requires forall op :: op in ops && op.Record? ==> !IsBoundary(op.payload)
    ensures Contiguous(ApplyAll(s, ops).entries)
    ensures Alternates(Boundaries(ApplyAll(s, ops).entries))
  {
    if ops != [] {
      var front, op := ops[..|ops| - 1], ops[|ops| - 1];
      assert op in ops && forall o :: o in front ==> o in ops;
      SealsAndReopensAlternate(s, front);
      StepKeepsAlternation(ApplyAll(s, front), op);
    }
  }

  /** What the newest boundary is, read off the boundary list instead of the entry indexes. */
  lemma BoundaryDecides(es: seq<Entry>)
    requires Contiguous(es) && Alternates(Boundaries(es))
    ensures NeedsReopen(es) <==> TerminalLast(Boundaries(es))
    ensures SealedSinceReopen(es) <==> TerminalLast(Boundaries(es))
  {
    hide Boundaries, Alternates;
    LastBoundary(es);
    LastIdxBound(es, ControlKind);
    SealedSinceMeansTerminalLast(es);
  }

  predicate TerminalLast(bs: seq<Payload>) {
    bs != [] && bs[|bs| - 1].Terminal?
  }

  /** Appending keeps the alternation when a boundary is a terminal exactly where none came last. */
  lemma AppendKeepsAlternation(es: seq<Entry>, p: Payload)
    requires Contiguous(es) && Alternates(Boundaries(es))
    requires IsBoundary(p) ==> (p.Terminal? <==> !TerminalLast(Boundaries(es)))
    ensures Contiguous(Appended(es, p)) && Alternates(Boundaries(Appended(es, p)))
    ensures IsBoundary(p) ==> Boundaries(Appended(es, p)) == Boundaries(es) + [p]
  {
    BoundariesAppend(es, p);
    hide Boundaries, LastIdx, EntriesOf;
  }

  lemma SealKeepsAlternation(s: Store, status: TerminalStatus, reason: Option<string>, resumable: bool)
    requires Contiguous(s.entries) && Alternates(Boundaries(s.entries))
    ensures var es := ChainSealed(s, status, reason, resumable).entries;
            Contiguous(es) && Alternates(Boundaries(es)) && TerminalLast(Boundaries(es))
  {
    hide Boundaries, Alternates, LastIdx, EntriesOf;
    BoundaryDecides(s.entries);
    var t := ChainSealed(s, status, reason, resumable);
    if t.entries != s.entries { AppendKeepsAlternation(s.entries, t.entries[|s.entries|].payload); }
  }

  lemma RestoreKeepsAlternation(s: Store)
    requires Contiguous(s.entries) && Alternates(Boundaries(s.entries))
    ensures var bs := Boundaries(Reopened(s).entries);
            Contiguous(Reopened(s).entries) && Alternates(bs) && !TerminalLast(bs)
  {
    hide Boundaries, Alternates, LastIdx, EntriesOf;
    BoundaryDecides(s.entries);
    var t := Reopened(s);
    if t.entries != s.entries { AppendKeepsAlternation(s.entries, t.entries[|s.entries|].payload); }
  }

  lemma StepKeepsAlternation(s: Store, op: Operation)
    requires Contiguous(s.entries) && Alternates(Boundaries(s.entries))
    requires op.Record? ==> !IsBoundary(op.payload)
    ensures Contiguous(Apply(s, op).entries)
    ensures Alternates(Boundaries(Apply(s, op).entries))
    ensures op.Seal? ==> EndsWith(s, op, true)
    ensures op.Restore? ==> Boundaries(s.entries) == [] || EndsWith(s, op, false)
  {
    hide ChainSealed, Reopened, LastIdx, EntriesOf;
    match op
    case Seal(status, reason, resumable) => SealKeepsAlternation(s, status, reason, resumable);
    case Restore =>
      RestoreKeepsAlternation(s);
      RestoreLosesNoBoundary(s);
    case Record(p) => AppendKeepsAlternation(s.entries, p);
  }

  lemma RestoreLosesNoBoundary(s: Store)
    ensures |Boundaries(s.entries)| <= |Boundaries(Reopened(s).entries)|
  {
    hide NeedsReopen;
    if NeedsReopen(s.entries) { BoundariesAppend(s.entries, Reopened(s).entries[|s.entries|].payload); }
  }

  /** After the operation the newest boundary is a terminal, respectively a reopen. */
  predicate EndsWith(s: Store, op: Operation, terminal: bool) {
    var bs := Boundaries(Apply(s, op).entries);
    bs != [] && bs[|bs| - 1].Terminal? == terminal && bs[|bs| - 1].ControlEvent? == !terminal
  }

  lemma SealedSinceMeansTerminalLast(es: seq<Entry>)
    requires Contiguous(es)
    ensures SealedSinceReopen(es) <==> NeedsReopen(es)
  {
    LastIdxBound(es, TerminalKind);
    LastIdxBound(es, ControlKind);
    NoneAfterLastIdx(es, TerminalKind);
    var ts := EntriesOf(es, TerminalKind);
    if ts != [] {
      assert ts[|ts| - 1] in ts;
    }
  }
}
