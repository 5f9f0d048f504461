/** Normalising the write paths a plan declares. */
module WritePaths {
  import opened ChainTypes
  import opened Text

  // ---- Segments ----

  /** Backslashes count as separators. */
  function Slashed(path: string): (r: string)
    ensures |r| == |path|
    ensures forall i :: 0 <= i < |r| ==> r[i] == if path[i] == '\\' then '/' else path[i]
  {
    seq(|path|, i requires 0 <= i < |path| => if path[i] == '\\' then '/' else path[i])
  }

  /** What stands between the slashes, empty stretches included. */
  function Segments(path: string): (segments: seq<string>)
    ensures |segments| > 0
  {
    if path == "" then [""]
    else
      var rest := Segments(path[1..]);
      if path[0] == '/' then [""] + rest else [[path[0]] + rest[0]] + rest[1..]
  }

  /** One segment is resolved: empty ones and `.` vanish, `..` takes back the segment before it, if there is one to take. */
  function Resolved(before: seq<string>, segment: string, absolute: bool): seq<string> {
    if segment == "" || segment == "." then before
    else if segment != ".." then before + [segment]
    else if before != [] && before[|before| - 1] != ".." then before[..|before| - 1]
    else if absolute then before
    else before + [".."]
  }

  function Resolve(segments: seq<string>, absolute: bool): seq<string> {
    if segments == [] then []
    else Resolved(Resolve(segments[..|segments| - 1], absolute), segments[|segments| - 1], absolute)
  }

  /** The POSIX normal form: resolved, with a trailing separator kept. */
  function PosixNormalize(path: string): string {
    if path == "" then "."
    else
      var absolute, trailing := path[0] == '/', path[|path| - 1] == '/';
      var segments := Resolve(Segments(path), absolute);
      if segments == [] then (if absolute then "/" else if trailing then "./" else ".")
      else (if absolute then "/" else "") + Join(segments, "/") + (if trailing then "/" else "")
  }

  /** No answer is the error the source throws: an empty path, the root itself, or a path that leaves it. */
  function NormalizeWritePath(path: string): Option<string> {
    var normalized := PosixNormalize(Slashed(path));
    if path == "" || normalized == "." || "/" <= normalized || normalized == ".." || "../" <= normalized then None
    else Some(normalized)
  }

  // ---- Splitting and joining ----

  /** A segment as it stands in a normal form that stays inside the root. */
  predicate Plain(segment: string) {
    && segment != "" && segment != "." && segment != ".."
    && '/' !in segment && '\\' !in segment
  }

  predicate AllPlain(segments: seq<string>) {
    forall s :: s in segments ==> Plain(s)
  }

  lemma {:induction false} SegmentsHaveNoSlash(path: string)
    ensures forall s :: s in Segments(path) ==> '/' !in s
    ensures '\\' !in path ==> forall s :: s in Segments(path) ==> '\\' !in s
  {
    if path != "" {
      SegmentsHaveNoSlash(path[1..]);
      var rest := Segments(path[1..]);
      assert rest[0] in rest && forall s :: s in rest[1..] ==> s in rest;
      assert forall c :: c in path[1..] ==> c in path;
    }
  }

  lemma {:induction false} SegmentsOfPlain(segment: string, rest: string)
    requires '/' !in segment
    ensures Segments(segment + "/" + rest) == [segment] + Segments(rest)
    ensures Segments(segment) == [segment]
  {
    if segment == "" {
      assert ("/" + rest)[1..] == rest && segment + "/" + rest == "/" + rest;
    } else {
      SegmentsOfPlain(segment[1..], rest);
      assert (segment + "/" + rest)[1..] == segment[1..] + "/" + rest;
      assert segment == [segment[0]] + segment[1..];
    }
  }

  /** Splitting undoes joining, and a trailing separator shows as one empty segment. */
  lemma {:induction false} SegmentsOfJoin(segments: seq<string>)
    requires segments != [] && forall s :: s in segments ==> '/' !in s
    ensures Segments(Join(segments, "/")) == segments
    ensures Segments(Join(segments, "/") + "/") == segments + [""]
  {
    var first, rest := segments[0], segments[1..];
    assert segments == [first] + rest;
    if rest == [] {
      SegmentsOfPlain(first, "");
      assert first + "/" + "" == first + "/";
    } else {
      SegmentsOfJoin(rest);
      SegmentsOfPlain(first, Join(rest, "/"));
      SegmentsOfPlain(first, Join(rest, "/") + "/");
      assert first + "/" + (Join(rest, "/") + "/") == first + "/" + Join(rest, "/") + "/";
    }
  }

  lemma {:induction false} PlainStaysResolved(segments: seq<string>)
    requires AllPlain(segments)
    ensures Resolve(segments, false) == segments && Resolve(segments + [""], false) == segments
  {
    assert (segments + [""])[..|segments|] == segments;
    if segments != [] {
      var front, last := segments[..|segments| - 1], segments[|segments| - 1];
      assert segments == front + [last] && last in segments;
      PlainStaysResolved(front);
    }
  }

  // ---- What is accepted ----

  /** Climbing steps come first in a resolved relative path; behind them everything is plain. */
  ghost predicate ClimbsFirst(segments: seq<string>, climbs: nat) {
    && climbs <= |segments|
    && (forall i :: 0 <= i < climbs ==> segments[i] == "..")
    && AllPlain(segments[climbs..])
  }

  lemma {:induction false} ResolvedClimbsFirst(segments: seq<string>) returns (climbs: nat)
    requires forall s :: s in segments ==> '/' !in s && '\\' !in s
    ensures ClimbsFirst(Resolve(segments, false), climbs)
  {
    if segments == [] {
      climbs := 0;
    } else {
      var front, last := segments[..|segments| - 1], segments[|segments| - 1];
      assert segments == front + [last];
      climbs := ResolvedClimbsFirst(front);
      climbs := StepClimbsFirst(Resolve(front, false), last, climbs);
    }
  }

  lemma TailsMove(before: seq<string>, climbs: nat, segment: string)
    requires climbs <= |before|
    ensures (before + [segment])[climbs..] == before[climbs..] + [segment]
    ensures climbs < |before| ==> forall s :: s in before[..|before| - 1][climbs..] ==> s in before[climbs..]
  {
    if climbs < |before| {
      var kept := before[..|before| - 1];
      forall s | s in kept[climbs..]
        ensures s in before[climbs..]
      {
        var i :| 0 <= i < |kept[climbs..]| && kept[climbs..][i] == s;
        assert before[climbs..][i] == s;
      }
    }
  }

  lemma StepClimbsFirst(before: seq<string>, segment: string, climbs: nat) returns (more: nat)
    requires ClimbsFirst(before, climbs) && '/' !in segment && '\\' !in segment
    ensures ClimbsFirst(Resolved(before, segment, false), more)
  {
    more := climbs;
    if climbs < |before| { assert before[climbs..][|before| - climbs - 1] in before[climbs..]; }
    if segment == "" || segment == "." {
    } else if segment != ".." {
      TailsMove(before, climbs, segment);
    } else if before != [] && before[|before| - 1] != ".." {
      TailsMove(before, climbs, segment);
    } else {
      more := climbs + 1;
      assert (before + [".."])[more..] == [];
    }
  }

  /** The path names something inside the root, or the root with a trailing separator. */
  predicate StaysInside(path: string) {
    && path != "" && path[0] != '/'
    && var segments := Resolve(Segments(path), false);
       if segments == [] then path[|path| - 1] == '/' else segments[0] != ".."
  }

  lemma JoinStarts(segments: seq<string>)
    requires segments != [] && forall s :: s in segments ==> s != "" && '/' !in s
    ensures segments[0] in segments && segments[0] != ""
    ensures var joined := Join(segments, "/"); joined != "" && joined[0] == segments[0][0] && joined[|joined| - 1] != '/'
  {
    assert segments[0] in segments && segments[|segments| - 1] in segments;
    if |segments| > 1 {
      assert forall s :: s in segments[1..] ==> s in segments;
      JoinStarts(segments[1..]);
    }
  }

  /** How the normal form of a relative path begins shows in its first segment. */
  lemma NormalFormStarts(segments: seq<string>, trailing: bool)
    requires segments != [] && forall s :: s in segments ==> s != "" && s != "." && '/' !in s
    ensures var n := Join(segments, "/") + (if trailing then "/" else "");
            && n != "" && n != "." && !("/" <= n)
            && (n == ".." || "../" <= n <==> segments[0] == "..")
  {
    var n := Join(segments, "/") + (if trailing then "/" else "");
    JoinStarts(segments);
    SegmentsOfJoin(segments);
    assert Join(segments, "/") + "" == Join(segments, "/");
    assert Segments(n) == if trailing then segments + [""] else segments;
    StartsWithFirst(n, segments[0]);
  }

  lemma StartsWithFirst(n: string, first: string)
    requires n != "" && Segments(n)[0] == first && first != "." && first != ""
    ensures n != "." && (n == ".." || "../" <= n <==> first == "..")
  {
    FirstSegment(n);
    if "../" <= n {
      SegmentsOfPlain("..", n[3..]);
      assert n == ".." + "/" + n[3..];
    }
    SegmentsOfPlain(".", "");
    SegmentsOfPlain("..", "");
  }

  /** A path is its first segment, or goes on behind it with a slash. */
  lemma {:induction false} FirstSegment(path: string)
    ensures path == Segments(path)[0] || Segments(path)[0] + "/" <= path
  {
    if path != "" && path[0] != '/' {
      FirstSegment(path[1..]);
      var first := Segments(path[1..])[0];
      assert Segments(path)[0] == [path[0]] + first && path == [path[0]] + path[1..];
      if first + "/" <= path[1..] {
        assert [path[0]] + (first + "/") <= [path[0]] + path[1..];
        assert [path[0]] + first + "/" == [path[0]] + (first + "/");
      }
    }
  }

  /** A write path is accepted exactly when it stays inside the root. */
  lemma AcceptedMeansInside(path: string)
    ensures NormalizeWritePath(path).Some? <==> StaysInside(Slashed(path))
  {
    hide Segments, Resolve, Join, Slashed;
    var p := Slashed(path);
    if p != "" && p[0] != '/' {
      var segments := RelativeSegments(path);
      if segments != [] { NormalFormStarts(segments, p[|p| - 1] == '/'); }
    }
  }

  lemma RelativeSegments(path: string) returns (segments: seq<string>)
    requires path != ""
    ensures segments == Resolve(Segments(Slashed(path)), false)
    ensures forall s :: s in segments ==> s != "" && s != "." && '/' !in s
    ensures segments != [] && segments[0] != ".." ==> AllPlain(segments)
  {
    SegmentsHaveNoSlash(Slashed(path));
    segments := Resolve(Segments(Slashed(path)), false);
    var climbs := ResolvedClimbsFirst(Segments(Slashed(path)));
    assert forall s :: s in segments ==> s == ".." || s in segments[climbs..];
  }

  /** Normalising is idempotent. */
  lemma NormalFormIsFixed(path: string)
    ensures var n := NormalizeWritePath(path); n.Some? ==> NormalizeWritePath(n.value) == n
  {
    var p := Slashed(path);
    if NormalizeWritePath(path).Some? {
      AcceptedMeansInside(path);
      var n, trailing := NormalizeWritePath(path).value, p[|p| - 1] == '/';
      var segments := RelativeSegments(path);
      if segments == [] {
        RootIsFixed();
      } else {
        assert n == Join(segments, "/") + (if trailing then "/" else "");
        PlainIsFixed(segments, trailing);
      }
    }
  }

  lemma RootIsFixed()
    ensures NormalizeWritePath("./") == Some("./")
  {
    SegmentsOfPlain(".", "");
    SegmentsOfPlain("", "");
    assert "." + "/" + "" == "./" && Segments("./") == [".", ""];
    assert [".", ""][..1] == ["."] && ["."][..0] == [];
    assert Resolve(["."], false) == [] && Resolve([".", ""], false) == [];
    assert Slashed("./") == "./";
  }

  lemma {:induction false} JoinHasNoBackslash(segments: seq<string>)
    requires forall s :: s in segments ==> '\\' !in s
    ensures '\\' !in Join(segments, "/")
  {
    if |segments| > 1 {
      assert segments[0] in segments && forall s :: s in segments[1..] ==> s in segments;
      JoinHasNoBackslash(segments[1..]);
    } else if segments != [] {
      assert segments[0] in segments;
    }
  }

  lemma RelativeForm(path: string, segments: seq<string>, trailing: bool)
    requires path != "" && path[0] != '/' && (path[|path| - 1] == '/' <==> trailing)
    requires Resolve(Segments(path), false) == segments && segments != []
    ensures PosixNormalize(path) == Join(segments, "/") + (if trailing then "/" else "")
  {
    hide Segments, Resolve, Join;
  }

  lemma PlainIsFixed(segments: seq<string>, trailing: bool)
    requires segments != [] && AllPlain(segments)
    ensures var n := Join(segments, "/") + (if trailing then "/" else ""); NormalizeWritePath(n) == Some(n)
  {
    var joined := Join(segments, "/");
    var n := joined + (if trailing then "/" else "");
    assert segments[0] in segments && Plain(segments[0]);
    hide Segments, Resolve, Join, Slashed, PosixNormalize;
    JoinHasNoBackslash(segments);
    assert Slashed(n) == n;
    JoinStarts(segments);
    NormalFormStarts(segments, trailing);
    SegmentsOfJoin(segments);
    PlainStaysResolved(segments);
    assert joined + "" == joined;
    RelativeForm(n, segments, trailing);
  }

  // ---- When two paths conflict ----

  function LowerChar(c: char): char {
    if 'A' <= c <= 'Z' then c - 'A' + 'a' else c
  }

  function Lower(s: string): (r: string)
    ensures |r| == |s| && forall i :: 0 <= i < |s| ==> r[i] == LowerChar(s[i])
  {
    seq(|s|, i requires 0 <= i < |s| => LowerChar(s[i]))
  }

  predicate PathsConflict(left: string, right: string) {
    var a, b := Lower(left), Lower(right);
    a == b || b + "/" <= a || a + "/" <= b
  }

  function Form(segments: seq<string>, trailing: bool): string {
    Join(segments, "/") + (if trailing then "/" else "")
  }

  /** Segments as they come out of a normal form, in either case. */
  predicate Named(segments: seq<string>) {
    segments != [] && forall s :: s in segments ==> s != "" && '/' !in s
  }

  lemma SegmentsUnfold(path: string)
    requires path != ""
    ensures var rest := Segments(path[1..]);
            Segments(path) == if path[0] == '/' then [""] + rest else [[path[0]] + rest[0]] + rest[1..]
  {
  }

  lemma {:induction false} SegmentsOfConcat(left: string, right: string)
    ensures Segments(left + "/" + right) == Segments(left) + Segments(right)
  {
    var whole := left + "/" + right;
    SegmentsUnfold(whole);
    if left == "" {
      assert whole == "/" + right && whole[1..] == right;
    } else {
      SegmentsUnfold(left);
      hide Segments;
      SegmentsOfConcat(left[1..], right);
      assert whole[1..] == left[1..] + "/" + right && whole[0] == left[0];
      FirstOfConcat(Segments(left[1..]), Segments(right));
    }
  }

  lemma FirstOfConcat(a: seq<string>, b: seq<string>)
    requires a != []
    ensures (a + b)[0] == a[0] && (a + b)[1..] == a[1..] + b
  {
  }

  lemma {:induction false} JoinOfConcat(left: seq<string>, right: seq<string>)
    requires left != [] && right != []
    ensures Join(left + right, "/") == Join(left, "/") + "/" + Join(right, "/")
  {
    if |left| > 1 {
      JoinOfConcat(left[1..], right);
      assert (left + right)[1..] == left[1..] + right;
      assert Join(left, "/") == left[0] + "/" + Join(left[1..], "/");
    } else {
      assert (left + right)[1..] == right;
    }
  }

  lemma SegmentsOfForm(segments: seq<string>, trailing: bool)
    requires Named(segments)
    ensures Segments(Form(segments, trailing)) == segments + (if trailing then [""] else [])
  {
    SegmentsOfJoin(segments);
    assert Join(segments, "/") + "" == Join(segments, "/") && segments + [] == segments;
  }

  /** One path goes on below the other: the upper one is written without a trailing separator, and its segments begin the
      lower one's. */
  predicate Above(upper: seq<string>, upperTrailing: bool, lower: seq<string>, lowerTrailing: bool) {
    !upperTrailing && upper <= lower && (upper == lower ==> lowerTrailing)
  }

  lemma PrefixMeansAbove(upper: seq<string>, upperTrailing: bool, lower: seq<string>, lowerTrailing: bool)
    requires Named(upper) && Named(lower)
    ensures Form(upper, upperTrailing) + "/" <= Form(lower, lowerTrailing) <==> Above(upper, upperTrailing, lower, lowerTrailing)
  {
    var a, b := Form(upper, upperTrailing), Form(lower, lowerTrailing);
    SegmentsOfForm(upper, upperTrailing);
    SegmentsOfForm(lower, lowerTrailing);
    if a + "/" <= b {
      var rest := b[|a| + 1..];
      assert b == a + "/" + rest;
      SegmentsOfConcat(a, rest);
      hide Form, Segments;
      BeginsWith(upper, upperTrailing, lower, lowerTrailing, Segments(rest));
    }
    if Above(upper, upperTrailing, lower, lowerTrailing) && upper != lower {
      assert lower == upper + lower[|upper|..];
      JoinOfConcat(upper, lower[|upper|..]);
    }
  }

  lemma BeginsWith(upper: seq<string>, upperTrailing: bool, lower: seq<string>, lowerTrailing: bool, rest: seq<string>)
    requires Named(upper) && Named(lower) && rest != []
    requires lower + (if lowerTrailing then [""] else []) == upper + (if upperTrailing then [""] else []) + rest
    ensures Above(upper, upperTrailing, lower, lowerTrailing)
  {
    var all := lower + (if lowerTrailing then [""] else []);
    assert upperTrailing ==> all[|upper|] == "";
    forall i | 0 <= i < |lower|
      ensures all[i] == lower[i] && all[i] != ""
    {
      assert lower[i] in lower;
    }
    assert |upper| <= |lower| by {
      assert upper[|upper| - 1] in upper && all[|upper| - 1] == upper[|upper| - 1];
    }
    assert forall i :: 0 <= i < |upper| ==> lower[i] == all[i] == upper[i];
  }

  function LowerAll(segments: seq<string>): (r: seq<string>)
    ensures |r| == |segments| && forall i :: 0 <= i < |r| ==> r[i] == Lower(segments[i])
  {
    seq(|segments|, i requires 0 <= i < |segments| => Lower(segments[i]))
  }

  lemma {:induction false} LowerOfJoin(segments: seq<string>)
    ensures Lower(Join(segments, "/")) == Join(LowerAll(segments), "/")
  {
    if |segments| > 1 {
      LowerOfJoin(segments[1..]);
      assert LowerAll(segments)[1..] == LowerAll(segments[1..]);
      var first, rest := segments[0], Join(segments[1..], "/");
      assert Lower(first + "/" + rest) == Lower(first) + "/" + Lower(rest);
    }
  }

  lemma LowerOfForm(segments: seq<string>, trailing: bool)
    requires Named(segments)
    ensures Lower(Form(segments, trailing)) == Form(LowerAll(segments), trailing) && Named(LowerAll(segments))
  {
    LowerOfJoin(segments);
    var joined := Join(segments, "/");
    assert Lower(joined + "/") == Lower(joined) + "/" && Lower(joined + "") == Lower(joined) + "";
    forall s | s in LowerAll(segments)
      ensures s != "" && '/' !in s
    {
      var i :| 0 <= i < |segments| && LowerAll(segments)[i] == s;
      assert segments[i] in segments;
      assert forall k :: 0 <= k < |s| ==> s[k] == LowerChar(segments[i][k]) && segments[i][k] in segments[i];
    }
  }

  /** Two normal forms conflict exactly when they are equal or one goes on below the other, letter case aside. */
  lemma ConflictMeansNested(left: seq<string>, leftTrailing: bool, right: seq<string>, rightTrailing: bool)
    requires Named(left) && Named(right)
    ensures PathsConflict(Form(left, leftTrailing), Form(right, rightTrailing)) <==>
            var a, b := LowerAll(left), LowerAll(right);
            || (a == b && leftTrailing == rightTrailing)
            || Above(a, leftTrailing, b, rightTrailing) || Above(b, rightTrailing, a, leftTrailing)
  {
    var a, b := LowerAll(left), LowerAll(right);
    LowerOfForm(left, leftTrailing);
    LowerOfForm(right, rightTrailing);
    PrefixMeansAbove(a, leftTrailing, b, rightTrailing);
    PrefixMeansAbove(b, rightTrailing, a, leftTrailing);
    SegmentsOfForm(a, leftTrailing);
    SegmentsOfForm(b, rightTrailing);
    hide Form, Segments, Lower, Named, LowerAll;
    if Form(a, leftTrailing) == Form(b, rightTrailing) {
      SameForm(a, leftTrailing, b, rightTrailing);
    }
  }

  lemma SameForm(a: seq<string>, aTrailing: bool, b: seq<string>, bTrailing: bool)
    requires Named(a) && Named(b)
    requires a + (if aTrailing then [""] else []) == b + (if bTrailing then [""] else [])
    ensures a == b && aTrailing == bTrailing
  {
    var all := a + (if aTrailing then [""] else []);
    assert a[|a| - 1] in a && b[|b| - 1] in b;
    assert aTrailing <==> all[|all| - 1] == "";
    assert bTrailing <==> all[|all| - 1] == "";
    assert a == all[..|a|] && b == all[..|b|];
  }

  /** A directory and a path inside it conflict if and only if the directory is written without a trailing separator, which
      normalising keeps. */
  lemma TrailingSeparatorHidesConflict(directory: seq<string>, trailing: bool, inside: seq<string>, insideTrailing: bool)
    requires Named(directory) && Named(inside) && directory < inside
    ensures PathsConflict(Form(directory, trailing), Form(inside, insideTrailing)) <==> !trailing
  {
    ConflictMeansNested(directory, trailing, inside, insideTrailing);
    var a, b := LowerAll(directory), LowerAll(inside);
    assert a <= b && |a| < |b|;
  }

  // ---- A node's write set ----

  /** The order JavaScript sorts strings in. */
  predicate Before(a: string, b: string) {
    b != "" && (a == "" || a[0] < b[0] || (a[0] == b[0] && Before(a[1..], b[1..])))
  }

  lemma {:induction false} BeforeIsOrder(a: string, b: string, c: string)
    ensures !Before(a, a) && (a == b || Before(a, b) || Before(b, a))
    ensures Before(a, b) && Before(b, c) ==> Before(a, c)
  {
    if a != "" && b != "" {
      BeforeIsOrder(a[1..], b[1..], if c == "" then "" else c[1..]);
      assert a == [a[0]] + a[1..] && b == [b[0]] + b[1..];
    } else if a != "" {
      BeforeIsOrder(a[1..], a[1..], "");
    }
  }

  predicate Ascending(paths: seq<string>) {
    forall i, j :: 0 <= i < j < |paths| ==> Before(paths[i], paths[j])
  }

  function Inserted(sorted: seq<string>, path: string): seq<string> {
    if sorted == [] || Before(sorted[|sorted| - 1], path) then sorted + [path]
    else if sorted[|sorted| - 1] == path then sorted
    else Inserted(sorted[..|sorted| - 1], path) + [sorted[|sorted| - 1]]
  }

  /** Without repetition, and sorted. */
  function SortedSet(paths: seq<string>): seq<string> {
    if paths == [] then [] else Inserted(SortedSet(paths[..|paths| - 1]), paths[|paths| - 1])
  }

  lemma {:induction false} InsertedStaysSorted(sorted: seq<string>, path: string)
    requires Ascending(sorted)
    ensures Ascending(Inserted(sorted, path))
    ensures forall p :: p in Inserted(sorted, path) <==> p in sorted || p == path
  {
    if sorted != [] {
      var front, last := sorted[..|sorted| - 1], sorted[|sorted| - 1];
      assert sorted == front + [last];
      BeforeIsOrder(last, path, last);
      if Before(last, path) {
        forall i | 0 <= i < |sorted| ensures Before(sorted[i], path) { BeforeIsOrder(sorted[i], last, path); }
      } else if last != path {
        InsertedStaysSorted(front, path);
        var more := Inserted(front, path);
        forall i | 0 <= i < |more|
          ensures Before(more[i], last)
        {
          assert more[i] in more;
          if more[i] != path { var k :| 0 <= k < |front| && front[k] == more[i]; assert sorted[k] == more[i]; }
        }
      }
    }
  }

  /** The same paths, in strictly ascending order. */
  lemma {:induction false} SortedSetIsSorted(paths: seq<string>)
    ensures Ascending(SortedSet(paths)) && forall p :: p in SortedSet(paths) <==> p in paths
  {
    if paths != [] {
      var front, last := paths[..|paths| - 1], paths[|paths| - 1];
      assert paths == front + [last];
      SortedSetIsSorted(front);
      InsertedStaysSorted(SortedSet(front), last);
    }
  }

  lemma {:induction false} SortedIsItsSet(paths: seq<string>)
    requires Ascending(paths)
    ensures SortedSet(paths) == paths
  {
    if paths != [] {
      var front, last := paths[..|paths| - 1], paths[|paths| - 1];
      SortedIsItsSet(front);
      assert paths == front + [last];
      if front != [] { assert Before(paths[|paths| - 2], paths[|paths| - 1]); }
    }
  }

  predicate Accepted(path: string) {
    NormalizeWritePath(path).Some?
  }

  predicate AllAccepted(paths: seq<string>) {
    forall i :: 0 <= i < |paths| ==> Accepted(paths[i])
  }

  /** The first path the normaliser refuses. */
  function FirstRefused(paths: seq<string>): (r: Option<string>)
    ensures r.None? <==> AllAccepted(paths)
    ensures r.Some? ==> r.value in paths && !Accepted(r.value)
  {
    if paths == [] then None
    else if !Accepted(paths[0]) then Some(paths[0])
    else
      assert forall i :: 0 <= i < |paths| - 1 ==> paths[1..][i] == paths[i + 1];
      assert forall i :: 0 < i < |paths| ==> paths[1..][i - 1] == paths[i];
      FirstRefused(paths[1..])
  }

  function NormalPaths(paths: seq<string>): (r: seq<string>)
    requires AllAccepted(paths)
    ensures |r| == |paths| && forall i :: 0 <= i < |r| ==> Some(r[i]) == NormalizeWritePath(paths[i])
  {
    seq(|paths|, i requires 0 <= i < |paths| && Accepted(paths[i]) => NormalizeWritePath(paths[i]).value)
  }

  function NormalSet(paths: seq<string>): seq<string>
    requires AllAccepted(paths)
  {
    SortedSet(NormalPaths(paths))
  }

  /** A normalised write set holds the normal forms of the declared paths, each once and in order, and normalising it again
      changes nothing. */
  lemma NormalSetIsFixed(paths: seq<string>)
    requires AllAccepted(paths)
    ensures forall n :: n in NormalSet(paths) <==> exists p :: p in paths && NormalizeWritePath(p) == Some(n)
    ensures Ascending(NormalSet(paths)) && AllAccepted(NormalSet(paths))
    ensures NormalSet(NormalSet(paths)) == NormalSet(paths)
    ensures paths != [] ==> NormalSet(paths) != []
  {
    hide NormalizeWritePath, SortedSet, Before;
    var normal := NormalPaths(paths);
    SortedSetIsSorted(normal);
    forall n
      ensures n in NormalSet(paths) <==> exists p :: p in paths && NormalizeWritePath(p) == Some(n)
      ensures n in NormalSet(paths) ==> NormalizeWritePath(n) == Some(n)
    {
      if n in normal {
        var i :| 0 <= i < |normal| && normal[i] == n;
        assert paths[i] in paths && NormalizeWritePath(paths[i]) == Some(n);
        NormalFormIsFixed(paths[i]);
      }
      if p :| p in paths && NormalizeWritePath(p) == Some(n) {
        var i :| 0 <= i < |paths| && paths[i] == p;
        assert normal[i] == n;
      }
    }
    assert NormalPaths(NormalSet(paths)) == NormalSet(paths);
    SortedIsItsSet(NormalSet(paths));
    if paths != [] { assert normal[0] in normal; }
  }
}
