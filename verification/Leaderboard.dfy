/** The leaderboard built on Wilson intervals: its order and its pairwise separations. */
module Leaderboard {
  import opened ChainTypes
  import opened Wilson

  /** A published arm: k of n requirements, with the interval of that rate. */
  datatype Arm = Arm(name: string, satisfied: nat, total: nat, low: real, high: real)

  datatype PairwiseRecord = PairwiseRecord(armA: string, armB: string, separated: bool, winner: Option<string>)

  /** The arm's interval is the score interval of its counts. */
  ghost predicate Published(arm: Arm, z: real) {
    && arm.satisfied <= arm.total
    && exists root :: && (arm.total > 0 ==> IsRoot(root, Radicand(arm.satisfied, arm.total, z)))
                      && ScoreInterval(arm.satisfied, arm.total, z, root) == Interval(arm.low, arm.high)
  }

  lemma PublishedHoldsRate(arm: Arm, z: real)
    requires z >= 0.0 && Published(arm, z)
    ensures 0.0 <= arm.low <= Rate(arm.satisfied, arm.total) <= arm.high <= 1.0
  {
    var root :| && (arm.total > 0 ==> IsRoot(root, Radicand(arm.satisfied, arm.total, z)))
                && ScoreInterval(arm.satisfied, arm.total, z, root) == Interval(arm.low, arm.high);
    if arm.total > 0 { IntervalHoldsRate(arm.satisfied, arm.total, z, root); }
  }

  // ---- Order: a stable descending sort on the lower bound ----

  ghost predicate Descending(arms: seq<Arm>) {
    forall i, j :: 0 <= i < j < |arms| ==> arms[i].low >= arms[j].low
  }

  function Insert(arm: Arm, sorted: seq<Arm>): seq<Arm> {
    if sorted != [] && arm.low > sorted[|sorted| - 1].low then Insert(arm, sorted[..|sorted| - 1]) + [sorted[|sorted| - 1]]
    else sorted + [arm]
  }

  /** Ordered by descending lower bound, equal bounds keeping their order. */
  function Sorted(arms: seq<Arm>): seq<Arm> {
    if arms == [] then [] else Insert(arms[|arms| - 1], Sorted(arms[..|arms| - 1]))
  }

  function WithBound(arms: seq<Arm>, low: real): seq<Arm> {
    if arms == [] then []
    else WithBound(arms[..|arms| - 1], low) + (if arms[|arms| - 1].low == low then [arms[|arms| - 1]] else [])
  }

  lemma {:induction false} InsertAdds(arm: Arm, sorted: seq<Arm>)
    ensures multiset(Insert(arm, sorted)) == multiset(sorted) + multiset{arm}
  {
    if sorted != [] && arm.low > sorted[|sorted| - 1].low {
      var front, last := sorted[..|sorted| - 1], sorted[|sorted| - 1];
      InsertAdds(arm, front);
      assert sorted == front + [last];
    }
  }

  lemma {:induction false} InsertDescends(arm: Arm, sorted: seq<Arm>)
    requires Descending(sorted)
    ensures Descending(Insert(arm, sorted))
  {
    if sorted != [] && arm.low > sorted[|sorted| - 1].low {
      var front, last := sorted[..|sorted| - 1], sorted[|sorted| - 1];
      InsertDescends(arm, front);
      InsertAdds(arm, front);
      var inserted := Insert(arm, front);
      forall i | 0 <= i < |inserted|
        ensures inserted[i].low >= last.low
      {
        assert inserted[i] in multiset(inserted);
        assert inserted[i] == arm || inserted[i] in front;
      }
    }
  }

  lemma WithBoundAppend(arms: seq<Arm>, arm: Arm, low: real)
    ensures WithBound(arms + [arm], low) == WithBound(arms, low) + (if arm.low == low then [arm] else [])
  {
    assert (arms + [arm])[..|arms|] == arms;
  }

  lemma {:induction false} InsertGoesLast(arm: Arm, sorted: seq<Arm>, low: real)
    requires Descending(sorted)
    ensures WithBound(Insert(arm, sorted), low) == WithBound(sorted, low) + (if arm.low == low then [arm] else [])
  {
    hide WithBound;
    if sorted != [] && arm.low > sorted[|sorted| - 1].low {
      var front, last := sorted[..|sorted| - 1], sorted[|sorted| - 1];
      InsertGoesLast(arm, front, low);
      WithBoundAppend(Insert(arm, front), last, low);
      WithBoundAppend(front, last, low);
      assert sorted == front + [last];
    } else {
      WithBoundAppend(sorted, arm, low);
    }
  }

  /** Best lower bound first, nothing lost or added, and ties in the order they came. */
  lemma {:induction false} SortedIsStable(arms: seq<Arm>, low: real)
    ensures Descending(Sorted(arms)) && multiset(Sorted(arms)) == multiset(arms)
    ensures WithBound(Sorted(arms), low) == WithBound(arms, low)
  {
    if arms != [] {
      var front, last := arms[..|arms| - 1], arms[|arms| - 1];
      SortedIsStable(front, low);
      hide Descending, WithBound, Insert;
      InsertAdds(last, Sorted(front));
      InsertDescends(last, Sorted(front));
      InsertGoesLast(last, Sorted(front), low);
      assert arms == front + [last];
    }
  }

  // ---- Separation ----

  predicate Separated(a: Arm, b: Arm) {
    a.high < b.low || b.high < a.low
  }

  predicate Within(arm: Arm, x: real) {
    arm.low <= x <= arm.high
  }

  ghost predicate ShareARate(a: Arm, b: Arm) {
    exists x: real :: Within(a, x) && Within(b, x)
  }

  /** Proper intervals are separated exactly when no rate lies in both; then every rate of the better-placed one is higher. */
  lemma SeparatedMeansDisjoint(a: Arm, b: Arm)
    requires a.low <= a.high && b.low <= b.high
    ensures Separated(a, b) <==> !ShareARate(a, b)
    ensures Separated(a, b) && a.low >= b.low ==> forall x, y :: Within(a, x) && Within(b, y) ==> x > y
  {
    if !Separated(a, b) {
      var x := if a.low >= b.low then a.low else b.low;
      assert Within(a, x) && Within(b, x);
    }
  }

  function Compare(a: Arm, b: Arm): PairwiseRecord {
    PairwiseRecord(a.name, b.name, Separated(a, b), if Separated(a, b) then Some(a.name) else None)
  }

  /** The comparisons of arm `i` with `j` and later ones, then those of every later arm. */
  function PairsFrom(arms: seq<Arm>, i: nat, j: nat): seq<PairwiseRecord>
    decreases |arms| - i, |arms| - j
  {
    if i >= |arms| then []
    else if j >= |arms| then PairsFrom(arms, i + 1, i + 2)
    else [Compare(arms[i], arms[j])] + PairsFrom(arms, i, j + 1)
  }

  lemma PairsUnfold(arms: seq<Arm>, i: nat, j: nat)
    ensures PairsFrom(arms, i, j) ==
            if i >= |arms| then []
            else if j >= |arms| then PairsFrom(arms, i + 1, i + 2)
            else [Compare(arms[i], arms[j])] + PairsFrom(arms, i, j + 1)
  {
  }

  lemma CompareIs(a: Arm, b: Arm, r: PairwiseRecord)
    requires r == PairwiseRecord(a.name, b.name, Separated(a, b), if Separated(a, b) then Some(a.name) else None)
    ensures r == Compare(a, b)
  {
  }

  method BuildLeaderboard(arms: seq<Arm>) returns (entries: seq<Arm>, pairwise: seq<PairwiseRecord>)
    ensures entries == Sorted(arms) && pairwise == PairsFrom(entries, 0, 1)
    ensures Proper(arms) ==> Decided(entries, pairwise)
  {
    hide Sorted, Compare, Separated, PairsFrom, Proper, Decided;
    entries := Sorted(arms);
    pairwise := [];
    var i := 0;
    while i < |entries|
      invariant 0 <= i <= |entries|
      invariant pairwise + PairsFrom(entries, i, i + 1) == PairsFrom(entries, 0, 1)
    {
      var j := i + 1;
      while j < |entries|
        invariant i < j <= |entries|
        invariant pairwise + PairsFrom(entries, i, j) == PairsFrom(entries, 0, 1)
      {
        var armA, armB := entries[i], entries[j];
        var separated := Separated(armA, armB);
        var winner := if separated then Some(armA.name) else None;
        var record := PairwiseRecord(armA.name, armB.name, separated, winner);
        CompareIs(armA, armB, record);
        PairsUnfold(entries, i, j);
        assert pairwise + ([record] + PairsFrom(entries, i, j + 1)) == pairwise + [record] + PairsFrom(entries, i, j + 1);
        pairwise := pairwise + [record];
        j := j + 1;
      }
      PairsUnfold(entries, i, j);
      i := i + 1;
    }
    PairsUnfold(entries, i, i + 1);
    if Proper(arms) { EveryRecordIsExact(arms); }
  }

  ghost predicate ComparedFrom(arms: seq<Arm>, i: nat, j: nat, r: PairwiseRecord) {
    exists x, y :: 0 <= x < y < |arms| && (i < x || (i == x && j <= y)) && r == Compare(arms[x], arms[y])
  }

  lemma ComparedStep(arms: seq<Arm>, i: nat, j: nat, r: PairwiseRecord)
    requires i < j
    ensures j < |arms| ==> (ComparedFrom(arms, i, j, r) <==> r == Compare(arms[i], arms[j]) || ComparedFrom(arms, i, j + 1, r))
    ensures j >= |arms| ==> (ComparedFrom(arms, i, j, r) <==> ComparedFrom(arms, i + 1, i + 2, r))
  {
    hide Compare;
  }

  /** Every two arms are compared, the better-placed one first, and nothing else is. */
  lemma {:induction false} EveryPairIsCompared(arms: seq<Arm>, i: nat, j: nat, r: PairwiseRecord)
    requires i < j
    ensures r in PairsFrom(arms, i, j) <==> ComparedFrom(arms, i, j, r)
    decreases |arms| - i, |arms| - j
  {
    hide Compare, ComparedFrom, PairsFrom;
    PairsUnfold(arms, i, j);
    if i >= |arms| {
      NothingLeft(arms, i, j, r);
    } else if j >= |arms| {
      ComparedStep(arms, i, j, r);
      EveryPairIsCompared(arms, i + 1, i + 2, r);
    } else {
      ComparedStep(arms, i, j, r);
      EveryPairIsCompared(arms, i, j + 1, r);
      InFront(Compare(arms[i], arms[j]), PairsFrom(arms, i, j + 1), r);
    }
  }

  lemma InFront(first: PairwiseRecord, rest: seq<PairwiseRecord>, r: PairwiseRecord)
    ensures r in [first] + rest <==> r == first || r in rest
  {
  }

  lemma NothingLeft(arms: seq<Arm>, i: nat, j: nat, r: PairwiseRecord)
    requires |arms| <= i
    ensures !ComparedFrom(arms, i, j, r)
  {
  }

  lemma TwiceTriangle(m: int)
    ensures 2 * m + m * (m - 1) == (m + 1) * m
  {
  }

  /** Twice the comparisons made from arm `i` and its partner `j` on. */
  lemma {:induction false} PairsCounted(arms: seq<Arm>, i: nat, j: nat)
    requires i < j <= |arms|
    ensures 2 * |PairsFrom(arms, i, j)| == 2 * (|arms| - j) + (|arms| - i - 1) * (|arms| - i - 2)
    decreases |arms| - i, |arms| - j
  {
    hide Compare;
    if j < |arms| {
      PairsCounted(arms, i, j + 1);
    } else if i + 1 < |arms| {
      PairsCounted(arms, i + 1, i + 2);
      TwiceTriangle(|arms| - i - 2);
    } else {
      assert PairsFrom(arms, i + 1, i + 2) == [];
      assert (|arms| - i - 1) * (|arms| - i - 2) == 0;
    }
  }

  ghost predicate Proper(arms: seq<Arm>) {
    forall a :: a in arms ==> a.low <= a.high
  }

  /** The record on `a`, the better-placed arm, and `b`: it names a winner, and then `a`, exactly when no rate is left open by
      both. */
  ghost predicate Verdict(a: Arm, b: Arm, r: PairwiseRecord) {
    && r.armA == a.name && r.armB == b.name
    && (r.separated <==> !ShareARate(a, b))
    && r.winner == if ShareARate(a, b) then None else Some(a.name)
  }

  ghost predicate HasVerdict(pairwise: seq<PairwiseRecord>, a: Arm, b: Arm) {
    exists r :: r in pairwise && Verdict(a, b, r)
  }

  ghost predicate IsVerdict(entries: seq<Arm>, r: PairwiseRecord) {
    exists i, j :: 0 <= i < j < |entries| && Verdict(entries[i], entries[j], r)
  }

  /** One true verdict on every two arms, and no other record. */
  ghost predicate Decided(entries: seq<Arm>, pairwise: seq<PairwiseRecord>) {
    && 2 * |pairwise| == |entries| * (|entries| - 1)
    && (forall r :: r in pairwise ==> IsVerdict(entries, r))
    && forall i, j :: 0 <= i < j < |entries| ==> HasVerdict(pairwise, entries[i], entries[j])
  }

  lemma CompareIsVerdict(a: Arm, b: Arm)
    requires a.low <= a.high && b.low <= b.high
    ensures Verdict(a, b, Compare(a, b))
  {
    SeparatedMeansDisjoint(a, b);
  }

  lemma {:induction false} CountOfPairs(arms: seq<Arm>)
    ensures 2 * |PairsFrom(arms, 0, 1)| == |arms| * (|arms| - 1)
  {
    if arms != [] {
      PairsCounted(arms, 0, 1);
      TwiceTriangle(|arms| - 1);
    }
  }

  lemma {:induction false} RecordIsVerdict(entries: seq<Arm>, r: PairwiseRecord)
    requires Proper(entries)
    ensures r in PairsFrom(entries, 0, 1) ==> IsVerdict(entries, r)
  {
    hide PairsFrom, Compare, Verdict;
    EveryPairIsCompared(entries, 0, 1, r);
    if r in PairsFrom(entries, 0, 1) {
      var i, j :| 0 <= i < j < |entries| && r == Compare(entries[i], entries[j]);
      CompareIsVerdict(entries[i], entries[j]);
    }
  }

  lemma {:induction false} PairHasVerdict(entries: seq<Arm>, i: nat, j: nat)
    requires Proper(entries) && i < j < |entries|
    ensures HasVerdict(PairsFrom(entries, 0, 1), entries[i], entries[j])
  {
    hide PairsFrom, Compare, Verdict;
    EveryPairIsCompared(entries, 0, 1, Compare(entries[i], entries[j]));
    CompareIsVerdict(entries[i], entries[j]);
  }

  lemma {:induction false} SortedIsProper(arms: seq<Arm>)
    requires Proper(arms)
    ensures Proper(Sorted(arms))
  {
    SortedIsStable(arms, 0.0);
    hide Sorted, WithBound;
    assert forall a :: a in Sorted(arms) ==> a in multiset(Sorted(arms));
  }

  /** Of every leaderboard with proper intervals, as published ones are: the arms of a record are separated, and the
      better-placed one is the winner, if and only if no rate lies in both intervals; and every two arms have a record. */
  lemma {:induction false} EveryRecordIsExact(arms: seq<Arm>)
    requires Proper(arms)
    ensures Decided(Sorted(arms), PairsFrom(Sorted(arms), 0, 1))
  {
    hide Sorted, PairsFrom, Proper, IsVerdict, HasVerdict;
    var entries := Sorted(arms);
    SortedIsProper(arms);
    CountOfPairs(entries);
    forall r | r in PairsFrom(entries, 0, 1)
      ensures IsVerdict(entries, r)
    {
      RecordIsVerdict(entries, r);
    }
    forall i, j | 0 <= i < j < |entries|
      ensures HasVerdict(PairsFrom(entries, 0, 1), entries[i], entries[j])
    {
      PairHasVerdict(entries, i, j);
    }
  }

  lemma {:induction false} PublishedAreProper(arms: seq<Arm>, z: real)
    requires z >= 0.0 && forall a :: a in arms ==> Published(a, z)
    ensures Proper(arms)
  {
    hide Published, Rate;
    forall a | a in arms
      ensures a.low <= a.high
    {
      PublishedHoldsRate(a, z);
    }
  }

  /** A winner is the arm with the strictly higher observed rate. */
  lemma WinnerHasHigherRate(arms: seq<Arm>, z: real, i: nat, j: nat)
    requires z >= 0.0 && i < j < |arms| && Descending(arms)
    requires Published(arms[i], z) && Published(arms[j], z)
    requires Compare(arms[i], arms[j]).winner.Some?
    ensures Compare(arms[i], arms[j]).winner == Some(arms[i].name)
    ensures Rate(arms[i].satisfied, arms[i].total) > Rate(arms[j].satisfied, arms[j].total)
  {
    PublishedHoldsRate(arms[i], z);
    PublishedHoldsRate(arms[j], z);
  }

  /** In leaderboard order, separation is transitive. */
  lemma SeparationIsTransitive(arms: seq<Arm>, z: real, i: nat, j: nat, k: nat)
    requires z >= 0.0 && i < j < k < |arms| && Descending(arms)
    requires forall a :: a in arms ==> Published(a, z)
    requires Separated(arms[i], arms[j]) && Separated(arms[j], arms[k])
    ensures Separated(arms[i], arms[k])
  {
    PublishedHoldsRate(arms[i], z);
    PublishedHoldsRate(arms[j], z);
    PublishedHoldsRate(arms[k], z);
  }

  /** Of every published leaderboard: whatever record names a winner, that arm was observed to satisfy strictly more. */
  lemma LeaderboardIsHonest(arms: seq<Arm>, z: real, r: PairwiseRecord)
    requires z >= 0.0 && forall a :: a in arms ==> Published(a, z)
    requires r in PairsFrom(Sorted(arms), 0, 1) && r.winner.Some?
    ensures exists a, b :: && a in arms && b in arms && r.armA == a.name && r.armB == b.name && r.winner == Some(a.name)
                           && Rate(a.satisfied, a.total) > Rate(b.satisfied, b.total)
  {
    hide Published, Sorted, PairsFrom, Rate;
    var entries := Sorted(arms);
    SortedIsStable(arms, 0.0);
    EveryPairIsCompared(entries, 0, 1, r);
    var x, y :| 0 <= x < y < |entries| && r == Compare(entries[x], entries[y]);
    assert entries[x] in multiset(entries) && entries[y] in multiset(entries);
    WinnerHasHigherRate(entries, z, x, y);
  }
}
