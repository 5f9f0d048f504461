/** Choosing a legal executor/judge pair from two agent classes, or the instant to park until. */
module AgentSelect {
  import opened ChainTypes

  datatype Role = ExecutorRole | JudgeRole

  /** The vendor behind an endpoint; a pair's vendors must differ. */
  datatype Backend = Anthropic | OpenAI | Gemini | Open

  datatype Member = Member(id: string, role: Role, backend: Backend)

  datatype AgentClass = AgentClass(id: string, role: Role, primary: Member, adjacent: seq<Member>)

  datatype MemberCooldown = MemberCooldown(memberId: string, cooldownUntilMs: int)

  datatype BlockReason = Cooldown | SameBackendAsExecutor | WrongRole

  datatype BlockedMember =
    BlockedMember(memberId: string, role: Role, reason: BlockReason, cooldownUntilMs: Option<int>)

  datatype Selection =
    | Selected(executor: Member, judge: Member, blocked: seq<BlockedMember>)
    | ParkUntilReset(retryAtMs: Option<int>, blocked: seq<BlockedMember>)

  /** The preference order: the primary, then the adjacent group as declared. */
  function ClassMembers(c: AgentClass): seq<Member> {
    [c.primary] + c.adjacent
  }

  // ---- What makes a pair legal ----

  ghost predicate Cooling(cooldowns: seq<MemberCooldown>, id: string, t: int) {
    exists c :: c in cooldowns && c.memberId == id && t < c.cooldownUntilMs
  }

  ghost predicate Legal(e: Member, j: Member, cooldowns: seq<MemberCooldown>, allowSameFamily: bool, t: int) {
    && e.role == ExecutorRole && j.role == JudgeRole
    && !Cooling(cooldowns, e.id, t) && !Cooling(cooldowns, j.id, t)
    && (e.backend != j.backend || allowSameFamily)
  }

  ghost predicate NoLegalPair(es: seq<Member>, js: seq<Member>, cooldowns: seq<MemberCooldown>, allowSameFamily: bool, t: int) {
    forall e, j :: e in es && j in js ==> !Legal(e, j, cooldowns, allowSameFamily, t)
  }

  /** `until` is the last of the member's cooldown expiries. */
  ghost predicate LatestExpiry(cooldowns: seq<MemberCooldown>, id: string, until: int) {
    && (exists c :: c in cooldowns && c.memberId == id && c.cooldownUntilMs == until)
    && forall c :: c in cooldowns && c.memberId == id ==> c.cooldownUntilMs <= until
  }

  lemma CoolingUntilLatest(cooldowns: seq<MemberCooldown>, id: string, until: int, t: int)
    requires LatestExpiry(cooldowns, id, until)
    ensures Cooling(cooldowns, id, t) <==> t < until
  {
  }

  /** How many declared cooldowns are still running. */
  function Running(cooldowns: seq<MemberCooldown>, t: int): nat {
    if cooldowns == [] then 0
    else (if t < cooldowns[0].cooldownUntilMs then 1 else 0) + Running(cooldowns[1..], t)
  }

  lemma {:induction false} WaitingEndsCooldowns(cooldowns: seq<MemberCooldown>, now: int, later: int)
    requires now <= later
    ensures Running(cooldowns, later) <= Running(cooldowns, now)
    ensures (exists c :: c in cooldowns && now < c.cooldownUntilMs <= later) ==>
              Running(cooldowns, later) < Running(cooldowns, now)
  {
    if cooldowns != [] {
      WaitingEndsCooldowns(cooldowns[1..], now, later);
      if c :| c in cooldowns && now < c.cooldownUntilMs <= later {
        assert c == cooldowns[0] || c in cooldowns[1..];
      }
    }
  }

  /** The cooldowns that still run, one per member: its latest expiry. */
  method ActiveCooldownMap(cooldowns: seq<MemberCooldown>, nowMs: int) returns (active: map<string, MemberCooldown>)
    ensures forall id :: id in active <==> Cooling(cooldowns, id, nowMs)
    ensures forall id :: id in active ==> LatestExpiry(cooldowns, id, active[id].cooldownUntilMs) && nowMs < active[id].cooldownUntilMs
  {
    active := map[];
    for i := 0 to |cooldowns|
      invariant forall id :: id in active <==> Cooling(cooldowns[..i], id, nowMs)
      invariant forall id :: id in active ==>
                  LatestExpiry(cooldowns[..i], id, active[id].cooldownUntilMs) && nowMs < active[id].cooldownUntilMs
    {
      var cooldown := cooldowns[i];
      assert cooldowns[..i + 1] == cooldowns[..i] + [cooldown];
      if cooldown.cooldownUntilMs <= nowMs { continue; }
      if cooldown.memberId !in active || cooldown.cooldownUntilMs > active[cooldown.memberId].cooldownUntilMs {
        active := active[cooldown.memberId := cooldown];
      }
    }
    assert cooldowns[..|cooldowns|] == cooldowns;
  }

  // ---- Who was passed over, and why ----

  function ReasonText(r: BlockReason): string {
    match r
    case Cooldown => "cooldown"
    case SameBackendAsExecutor => "same-backend-as-executor"
    case WrongRole => "wrong-role"
  }

  function BlockedKey(b: BlockedMember): string {
    b.memberId + ":" + ReasonText(b.reason)
  }

  /** The textual key tells members and reasons apart, whatever a member is called. */
  lemma BlockedKeyIsExact(a: BlockedMember, b: BlockedMember)
    requires BlockedKey(a) == BlockedKey(b)
    ensures a.memberId == b.memberId && a.reason == b.reason
  {
    var k, ra, rb := BlockedKey(a), ReasonText(a.reason), ReasonText(b.reason);
    assert k[|k| - 1] == ra[|ra| - 1] == rb[|rb| - 1];
    assert k[..|a.memberId|] == a.memberId && k[..|b.memberId|] == b.memberId;
  }

  class BlockedSet {
    /** Insertion order; the keys are those of the entries. */
    var seen: seq<BlockedMember>

    constructor ()
      ensures Valid() && seen == []
    {
      seen := [];
    }

    ghost predicate Valid()
      reads this
    {
      forall a, b :: 0 <= a < b < |seen| ==> BlockedKey(seen[a]) != BlockedKey(seen[b])
    }

    predicate Has(key: string)
      reads this
    {
      exists b :: b in seen && BlockedKey(b) == key
    }

    /** Only the first entry of a key is kept. */
    method Add(entry: BlockedMember)
      requires Valid()
      modifies this
      ensures Valid()
      ensures seen == if old(Has(BlockedKey(entry))) then old(seen) else old(seen) + [entry]
    {
      if !Has(BlockedKey(entry)) { seen := seen + [entry]; }
    }
  }

  ghost predicate NamesOnce(blocked: seq<BlockedMember>) {
    forall a, b :: 0 <= a < b < |blocked| ==>
      blocked[a].memberId != blocked[b].memberId || blocked[a].reason != blocked[b].reason
  }

  lemma DistinctKeysNameOnce(blocked: seq<BlockedMember>)
    requires forall a, b :: 0 <= a < b < |blocked| ==> BlockedKey(blocked[a]) != BlockedKey(blocked[b])
    ensures NamesOnce(blocked)
  {
  }

  /** The reason recorded for a member is true of it at that instant. */
  ghost predicate Truthful(b: BlockedMember, es: seq<Member>, js: seq<Member>, cooldowns: seq<MemberCooldown>, t: int) {
    match b.reason
    case WrongRole =>
      && b.cooldownUntilMs.None?
      && ((exists m :: m in es && m.id == b.memberId && m.role == b.role == JudgeRole) ||
          (exists m :: m in js && m.id == b.memberId && m.role == b.role == ExecutorRole))
    case Cooldown =>
      && Cooling(cooldowns, b.memberId, t)
      && b.cooldownUntilMs.Some? && LatestExpiry(cooldowns, b.memberId, b.cooldownUntilMs.value)
      && (exists m :: m in (if b.role == ExecutorRole then es else js) && m.id == b.memberId && m.role == b.role)
    case SameBackendAsExecutor =>
      && b.role == JudgeRole && b.cooldownUntilMs.None?
      && exists e, j :: e in es && j in js && j.id == b.memberId && e.backend == j.backend
  }

  // ---- Selection ----

  datatype Search = Search(es: seq<Member>, js: seq<Member>, cooldowns: seq<MemberCooldown>, allowSameFamily: bool, nowMs: int)

  /** What stands against a pair now, in the order the walk asks; nothing stands against a legal pair. */
  ghost function Objection(s: Search, e: Member, j: Member): (o: Option<(string, BlockReason)>)
    ensures o.None? <==> Legal(e, j, s.cooldowns, s.allowSameFamily, s.nowMs)
  {
    if e.role != ExecutorRole then Some((e.id, WrongRole))
    else if Cooling(s.cooldowns, e.id, s.nowMs) then Some((e.id, Cooldown))
    else if j.role != JudgeRole then Some((j.id, WrongRole))
    else if Cooling(s.cooldowns, j.id, s.nowMs) then Some((j.id, Cooldown))
    else if j.backend == e.backend && !s.allowSameFamily then Some((j.id, SameBackendAsExecutor))
    else None
  }

  ghost predicate Names(blocked: seq<BlockedMember>, o: (string, BlockReason)) {
    exists b :: b in blocked && b.memberId == o.0 && b.reason == o.1
  }

  /** Whatever stood against a pair before position (i, k) is on the list. */
  ghost predicate Explained(s: Search, i: int, k: int, blocked: seq<BlockedMember>) {
    forall x, y :: 0 <= x < |s.es| && 0 <= y < |s.js| && (x < i || (x == i && y < k)) ==>
      var o := Objection(s, s.es[x], s.js[y]); o.Some? && Names(blocked, o.value)
  }

  lemma ExplainExecutor(s: Search, i: nat, before: seq<BlockedMember>, after: seq<BlockedMember>, o: (string, BlockReason))
    requires i < |s.es| && Explained(s, i, 0, before) && before <= after && Names(after, o)
    requires forall j :: Objection(s, s.es[i], j) == Some(o)
    ensures Explained(s, i + 1, 0, after)
  {
    forall p | p in before ensures p in after { }
  }

  lemma ExplainJudge(s: Search, i: nat, k: nat, before: seq<BlockedMember>, after: seq<BlockedMember>, o: (string, BlockReason))
    requires i < |s.es| && k < |s.js| && Explained(s, i, k, before) && before <= after && Names(after, o)
    requires Objection(s, s.es[i], s.js[k]) == Some(o)
    ensures Explained(s, i, k + 1, after)
  {
    forall p | p in before ensures p in after { }
  }

  /** Before the first of the recorded expiries the pair cannot become legal. */
  ghost predicate Barred(s: Search, e: Member, j: Member, expiries: seq<int>) {
    forall t :: (forall x :: x in expiries ==> t < x) ==> !Legal(e, j, s.cooldowns, s.allowSameFamily, t)
  }

  /** Every pair before position (i, k) of the walk is barred. */
  ghost predicate BarredBefore(s: Search, i: int, k: int, expiries: seq<int>) {
    forall x, y :: 0 <= x < |s.es| && 0 <= y < |s.js| && (x < i || (x == i && y < k)) ==> Barred(s, s.es[x], s.js[y], expiries)
  }

  /** Each recorded expiry ends the last cooldown of a candidate cooling now. */
  ghost predicate Recorded(s: Search, expiries: seq<int>) {
    forall x :: x in expiries ==> s.nowMs < x && exists m :: m in s.es + s.js && LatestExpiry(s.cooldowns, m.id, x)
  }

  /** What bars a member, whoever it is paired with. */
  ghost predicate OutUntil(s: Search, m: Member, role: Role, expiries: seq<int>) {
    m.role != role || exists x :: x in expiries && LatestExpiry(s.cooldowns, m.id, x)
  }

  lemma MoreExpiriesStillBar(s: Search, e: Member, j: Member, expiries: seq<int>, more: seq<int>)
    requires Barred(s, e, j, expiries)
    ensures Barred(s, e, j, expiries + more)
  {
    forall t | forall x :: x in expiries + more ==> t < x
      ensures !Legal(e, j, s.cooldowns, s.allowSameFamily, t)
    {
      forall x | x in expiries ensures t < x { assert x in expiries + more; }
    }
  }

  lemma OutBarsPair(s: Search, e: Member, j: Member, expiries: seq<int>)
    requires OutUntil(s, e, ExecutorRole, expiries) || OutUntil(s, j, JudgeRole, expiries)
    ensures Barred(s, e, j, expiries)
  {
  }

  lemma SkipExecutor(s: Search, i: nat, expiries: seq<int>, more: seq<int>)
    requires i < |s.es| && BarredBefore(s, i, 0, expiries) && OutUntil(s, s.es[i], ExecutorRole, expiries + more)
    ensures BarredBefore(s, i + 1, 0, expiries + more)
  {
    forall x, y | 0 <= x < |s.es| && 0 <= y < |s.js| && x <= i
      ensures Barred(s, s.es[x], s.js[y], expiries + more)
    {
      if x < i {
        MoreExpiriesStillBar(s, s.es[x], s.js[y], expiries, more);
      } else {
        OutBarsPair(s, s.es[x], s.js[y], expiries + more);
      }
    }
  }

  lemma SkipJudge(s: Search, i: nat, k: nat, expiries: seq<int>, more: seq<int>)
    requires i < |s.es| && k < |s.js| && BarredBefore(s, i, k, expiries)
    requires OutUntil(s, s.js[k], JudgeRole, expiries + more) || (s.es[i].backend == s.js[k].backend && !s.allowSameFamily)
    ensures BarredBefore(s, i, k + 1, expiries + more)
  {
    forall x, y | 0 <= x < |s.es| && 0 <= y < |s.js| && (x < i || (x == i && y <= k))
      ensures Barred(s, s.es[x], s.js[y], expiries + more)
    {
      if x < i || y < k {
        MoreExpiriesStillBar(s, s.es[x], s.js[y], expiries, more);
      } else if OutUntil(s, s.js[k], JudgeRole, expiries + more) {
        OutBarsPair(s, s.es[x], s.js[y], expiries + more);
      }
    }
  }

  lemma RowEnds(s: Search, i: nat, expiries: seq<int>, blocked: seq<BlockedMember>)
    requires i < |s.es| && BarredBefore(s, i, |s.js|, expiries) && Explained(s, i, |s.js|, blocked)
    ensures BarredBefore(s, i + 1, 0, expiries) && Explained(s, i + 1, 0, blocked)
  {
  }

  lemma NothingUntilFirstExpiry(s: Search, expiries: seq<int>, t: int)
    requires BarredBefore(s, |s.es|, 0, expiries) && forall x :: x in expiries ==> t < x
    ensures NoLegalPair(s.es, s.js, s.cooldowns, s.allowSameFamily, t)
  {
    forall e, j | e in s.es && j in s.js
      ensures !Legal(e, j, s.cooldowns, s.allowSameFamily, t)
    {
      var x :| 0 <= x < |s.es| && s.es[x] == e;
      var y :| 0 <= y < |s.js| && s.js[y] == j;
      assert Barred(s, s.es[x], s.js[y], expiries);
    }
  }

  function Least(xs: seq<int>): (m: int)
    requires xs != []
    ensures m in xs && forall x :: x in xs ==> m <= x
  {
    if |xs| == 1 then xs[0] else
      var rest := Least(xs[1..]);
      assert xs == [xs[0]] + xs[1..];
      if xs[0] <= rest then xs[0] else rest
  }

  /** A park ends only when a cooling candidate is free again, with fewer cooldowns left to wait for. */
  ghost predicate Wakes(s: Search, retryAtMs: int) {
    && s.nowMs < retryAtMs
    && (exists m :: m in s.es + s.js && Cooling(s.cooldowns, m.id, s.nowMs) && !Cooling(s.cooldowns, m.id, retryAtMs))
    && Running(s.cooldowns, retryAtMs) < Running(s.cooldowns, s.nowMs)
  }

  lemma FirstExpiryWakes(s: Search, expiries: seq<int>)
    requires Recorded(s, expiries) && expiries != []
    ensures Wakes(s, Least(expiries))
  {
    var x := Least(expiries);
    var m :| m in s.es + s.js && LatestExpiry(s.cooldowns, m.id, x);
    CoolingUntilLatest(s.cooldowns, m.id, x, s.nowMs);
    CoolingUntilLatest(s.cooldowns, m.id, x, x);
    WaitingEndsCooldowns(s.cooldowns, s.nowMs, x);
  }

  /** A selection is the first legal pair, executors before judges and each in declared order, with every earlier pair
      explained. A park leaves no pair unexplained, and none is legal at any instant before its retry time, nor at any
      instant at all if it has no retry time. */
  ghost predicate Justified(s: Search, selection: Selection) {
    match selection
    case Selected(e, j, blocked) =>
      exists i, k :: && 0 <= i < |s.es| && 0 <= k < |s.js| && s.es[i] == e && s.js[k] == j
                     && Objection(s, e, j).None? && Explained(s, i, k, blocked)
    case ParkUntilReset(retryAtMs, blocked) =>
      && Explained(s, |s.es|, 0, blocked)
      && NoLegalPair(s.es, s.js, s.cooldowns, s.allowSameFamily, s.nowMs)
      && (forall t :: (retryAtMs.Some? ==> t < retryAtMs.value) ==> NoLegalPair(s.es, s.js, s.cooldowns, s.allowSameFamily, t))
      && (retryAtMs.Some? ==> Wakes(s, retryAtMs.value))
  }

  lemma ParkIsJustified(s: Search, expiries: seq<int>, blocked: seq<BlockedMember>)
    requires BarredBefore(s, |s.es|, 0, expiries) && Recorded(s, expiries) && Explained(s, |s.es|, 0, blocked)
    ensures Justified(s, ParkUntilReset(if expiries != [] then Some(Least(expiries)) else None, blocked))
  {
    if expiries != [] { FirstExpiryWakes(s, expiries); }
    NothingUntilFirstExpiry(s, expiries, s.nowMs);
    forall t | expiries != [] ==> t < Least(expiries)
      ensures NoLegalPair(s.es, s.js, s.cooldowns, s.allowSameFamily, t)
    {
      NothingUntilFirstExpiry(s, expiries, t);
    }
  }

  ghost predicate AllTruthful(s: Search, blocked: seq<BlockedMember>) {
    forall b :: b in blocked ==> Truthful(b, s.es, s.js, s.cooldowns, s.nowMs)
  }

  /** Recording one more true reason. */
  method Block(blocked: BlockedSet, ghost s: Search, entry: BlockedMember)
    requires blocked.Valid() && AllTruthful(s, blocked.seen) && Truthful(entry, s.es, s.js, s.cooldowns, s.nowMs)
    modifies blocked
    ensures blocked.Valid() && AllTruthful(s, blocked.seen)
    ensures old(blocked.seen) <= blocked.seen && Names(blocked.seen, (entry.memberId, entry.reason))
  {
    if blocked.Has(BlockedKey(entry)) {
      ghost var b :| b in blocked.seen && BlockedKey(b) == BlockedKey(entry);
      BlockedKeyIsExact(b, entry);
    } else {
      assert entry in blocked.seen + [entry];
    }
    blocked.Add(entry);
  }

  method SelectAgentPair(executorClass: AgentClass, judgeClass: AgentClass, cooldowns: seq<MemberCooldown>, nowMs: int,
                         allowSameFamily: bool) returns (selection: Selection)
    ensures var s := Search([executorClass.primary] + executorClass.adjacent, [judgeClass.primary] + judgeClass.adjacent,
                            cooldowns, allowSameFamily, nowMs);
            Justified(s, selection) && AllTruthful(s, selection.blocked) && NamesOnce(selection.blocked)
  {
    hide BarredBefore, Recorded, AllTruthful, Justified, NamesOnce, Truthful, OutUntil, LatestExpiry, Cooling, Explained;
    hide Names;
    hide Objection;
    var active := ActiveCooldownMap(cooldowns, nowMs);
    var blocked := new BlockedSet();
    var cooledExpiries: seq<int> := [];
    var executors, judges := ClassMembers(executorClass), ClassMembers(judgeClass);
    ghost var s := Search(executors, judges, cooldowns, allowSameFamily, nowMs);
    NothingSoFar(s);
    for i := 0 to |executors|
      invariant blocked.Valid() && AllTruthful(s, blocked.seen) && fresh(blocked) && Explained(s, i, 0, blocked.seen)
      invariant BarredBefore(s, i, 0, cooledExpiries) && Recorded(s, cooledExpiries)
    {
      var executor := executors[i];
      ghost var listed := blocked.seen;
      if executor.role != ExecutorRole {
        ExecutorOut(s, i, cooledExpiries);
        Block(blocked, s, BlockedMember(executor.id, executor.role, WrongRole, None));
        ExplainExecutor(s, i, listed, blocked.seen, (executor.id, WrongRole));
        continue;
      }
      if executor.id in active {
        var until := active[executor.id].cooldownUntilMs;
        ExecutorCools(s, i, cooledExpiries, until);
        cooledExpiries := cooledExpiries + [until];
        Block(blocked, s, BlockedMember(executor.id, ExecutorRole, Cooldown, Some(until)));
        ExplainExecutor(s, i, listed, blocked.seen, (executor.id, Cooldown));
        continue;
      }
      for k := 0 to |judges|
        invariant blocked.Valid() && AllTruthful(s, blocked.seen) && fresh(blocked) && Explained(s, i, k, blocked.seen)
        invariant BarredBefore(s, i, k, cooledExpiries) && Recorded(s, cooledExpiries)
      {
        var judge := judges[k];
        ghost var listed := blocked.seen;
        if judge.role != JudgeRole {
          JudgeOut(s, i, k, cooledExpiries);
          Block(blocked, s, BlockedMember(judge.id, judge.role, WrongRole, None));
          ExplainJudge(s, i, k, listed, blocked.seen, (judge.id, WrongRole));
          continue;
        }
        if judge.id in active {
          var until := active[judge.id].cooldownUntilMs;
          JudgeCools(s, i, k, cooledExpiries, until);
          cooledExpiries := cooledExpiries + [until];
          Block(blocked, s, BlockedMember(judge.id, JudgeRole, Cooldown, Some(until)));
          ExplainJudge(s, i, k, listed, blocked.seen, (judge.id, Cooldown));
          continue;
        }
        if judge.backend == executor.backend && !allowSameFamily {
          JudgeSameBackend(s, i, k, cooledExpiries);
          Block(blocked, s, BlockedMember(judge.id, JudgeRole, SameBackendAsExecutor, None));
          ExplainJudge(s, i, k, listed, blocked.seen, (judge.id, SameBackendAsExecutor));
          continue;
        }
        PairIsFirst(s, i, k, blocked.seen);
        DistinctKeysNameOnce(blocked.seen);
        return Selected(executor, judge, blocked.seen);
      }
      RowEnds(s, i, cooledExpiries, blocked.seen);
    }
    ParkIsJustified(s, cooledExpiries, blocked.seen);
    DistinctKeysNameOnce(blocked.seen);
    var retryAtMs := if |cooledExpiries| > 0 then Some(Least(cooledExpiries)) else None;
    return ParkUntilReset(retryAtMs, blocked.seen);
  }

  lemma NothingSoFar(s: Search)
    ensures BarredBefore(s, 0, 0, []) && Recorded(s, []) && AllTruthful(s, []) && Explained(s, 0, 0, [])
  {
  }

  lemma ExecutorOut(s: Search, i: nat, expiries: seq<int>)
    requires i < |s.es| && BarredBefore(s, i, 0, expiries) && s.es[i].role != ExecutorRole
    ensures BarredBefore(s, i + 1, 0, expiries) && forall j :: Objection(s, s.es[i], j) == Some((s.es[i].id, WrongRole))
    ensures Truthful(BlockedMember(s.es[i].id, s.es[i].role, WrongRole, None), s.es, s.js, s.cooldowns, s.nowMs)
  {
    SkipExecutor(s, i, expiries, []);
    assert expiries + [] == expiries && s.es[i] in s.es;
  }

  lemma ExecutorCools(s: Search, i: nat, expiries: seq<int>, until: int)
    requires i < |s.es| && BarredBefore(s, i, 0, expiries) && Recorded(s, expiries) && s.es[i].role == ExecutorRole
    requires LatestExpiry(s.cooldowns, s.es[i].id, until) && s.nowMs < until
    ensures BarredBefore(s, i + 1, 0, expiries + [until]) && Recorded(s, expiries + [until])
    ensures forall j :: Objection(s, s.es[i], j) == Some((s.es[i].id, Cooldown))
    ensures Truthful(BlockedMember(s.es[i].id, ExecutorRole, Cooldown, Some(until)), s.es, s.js, s.cooldowns, s.nowMs)
  {
    assert until in expiries + [until] && s.es[i] in s.es && s.es[i] in s.es + s.js;
    SkipExecutor(s, i, expiries, [until]);
    CoolingUntilLatest(s.cooldowns, s.es[i].id, until, s.nowMs);
  }

  lemma JudgeOut(s: Search, i: nat, k: nat, expiries: seq<int>)
    requires i < |s.es| && k < |s.js| && BarredBefore(s, i, k, expiries) && s.js[k].role != JudgeRole
    requires s.es[i].role == ExecutorRole && !Cooling(s.cooldowns, s.es[i].id, s.nowMs)
    ensures Objection(s, s.es[i], s.js[k]) == Some((s.js[k].id, WrongRole))
    ensures BarredBefore(s, i, k + 1, expiries)
    ensures Truthful(BlockedMember(s.js[k].id, s.js[k].role, WrongRole, None), s.es, s.js, s.cooldowns, s.nowMs)
  {
    SkipJudge(s, i, k, expiries, []);
    assert expiries + [] == expiries && s.js[k] in s.js;
  }

  lemma JudgeCools(s: Search, i: nat, k: nat, expiries: seq<int>, until: int)
    requires i < |s.es| && k < |s.js| && BarredBefore(s, i, k, expiries) && Recorded(s, expiries) && s.js[k].role == JudgeRole
    requires LatestExpiry(s.cooldowns, s.js[k].id, until) && s.nowMs < until
    requires s.es[i].role == ExecutorRole && !Cooling(s.cooldowns, s.es[i].id, s.nowMs)
    ensures Objection(s, s.es[i], s.js[k]) == Some((s.js[k].id, Cooldown))
    ensures BarredBefore(s, i, k + 1, expiries + [until]) && Recorded(s, expiries + [until])
    ensures Truthful(BlockedMember(s.js[k].id, JudgeRole, Cooldown, Some(until)), s.es, s.js, s.cooldowns, s.nowMs)
  {
    assert until in expiries + [until] && s.js[k] in s.js && s.js[k] in s.es + s.js;
    SkipJudge(s, i, k, expiries, [until]);
    CoolingUntilLatest(s.cooldowns, s.js[k].id, until, s.nowMs);
  }

  lemma JudgeSameBackend(s: Search, i: nat, k: nat, expiries: seq<int>)
    requires i < |s.es| && k < |s.js| && BarredBefore(s, i, k, expiries)
    requires s.es[i].backend == s.js[k].backend && !s.allowSameFamily
    requires s.es[i].role == ExecutorRole && !Cooling(s.cooldowns, s.es[i].id, s.nowMs)
    requires s.js[k].role == JudgeRole && !Cooling(s.cooldowns, s.js[k].id, s.nowMs)
    ensures Objection(s, s.es[i], s.js[k]) == Some((s.js[k].id, SameBackendAsExecutor))
    ensures BarredBefore(s, i, k + 1, expiries)
    ensures Truthful(BlockedMember(s.js[k].id, JudgeRole, SameBackendAsExecutor, None), s.es, s.js, s.cooldowns, s.nowMs)
  {
    SkipJudge(s, i, k, expiries, []);
    assert expiries + [] == expiries && s.es[i] in s.es && s.js[k] in s.js;
  }

  lemma PairIsFirst(s: Search, i: nat, k: nat, blocked: seq<BlockedMember>)
    requires i < |s.es| && k < |s.js| && Explained(s, i, k, blocked)
    requires s.es[i].role == ExecutorRole && s.js[k].role == JudgeRole
    requires !Cooling(s.cooldowns, s.es[i].id, s.nowMs) && !Cooling(s.cooldowns, s.js[k].id, s.nowMs)
    requires s.es[i].backend != s.js[k].backend || s.allowSameFamily
    ensures Justified(s, Selected(s.es[i], s.js[k], blocked))
  {
  }

  /** The retry time is a lower bound, not a promise: here the pair is still barred when the park ends. */
  lemma RetryMayFindNothingYet() returns (e: Member, j: Member, cooldowns: seq<MemberCooldown>)
    ensures NoLegalPair([e], [j], cooldowns, false, 0)
    ensures LatestExpiry(cooldowns, e.id, 10) && NoLegalPair([e], [j], cooldowns, false, 10)
    ensures Legal(e, j, cooldowns, false, 20)
  {
    e, j := Member("gemini", ExecutorRole, Gemini), Member("codex", JudgeRole, OpenAI);
    var first, second := MemberCooldown("gemini", 10), MemberCooldown("codex", 20);
    cooldowns := [first, second];
    assert first in cooldowns && second in cooldowns;
  }
}
