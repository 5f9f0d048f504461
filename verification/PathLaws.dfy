/** What normalising write paths and ordering their writers mean, read off segments, letters and paths. */
module PathLaws {
  import opened Graph
  import opened ChainTypes
  import opened Text
  import opened WritePaths
  import opened WriteSet

  // ---- Resolving segments ----

  lemma ResolveOne(a: seq<string>, segment: string, absolute: bool)
    ensures Resolve(a + [segment], absolute) == Resolved(Resolve(a, absolute), segment, absolute)
  {
    assert (a + [segment])[..|a|] == a;
  }

  /** What comes after depends on what came before only through its resolution. */
  lemma {:induction false} ResolveFrom(a: seq<string>, b: seq<string>, rest: seq<string>, absolute: bool)
    requires Resolve(a, absolute) == Resolve(b, absolute)
    ensures Resolve(a + rest, absolute) == Resolve(b + rest, absolute)
  {
    hide Resolve;
    if rest == [] {
      assert a + rest == a && b + rest == b;
    } else {
      var front, last := rest[..|rest| - 1], rest[|rest| - 1];
      ResolveFrom(a, b, front, absolute);
      ResolveOne(a + front, last, absolute);
      ResolveOne(b + front, last, absolute);
      assert a + rest == a + front + [last] && b + rest == b + front + [last];
    }
  }

  /** Wherever they stand, an empty segment and `.` change nothing, and a name followed by `..` is taken back. */
  lemma ResolveCancels(before: seq<string>, name: string, after: seq<string>, absolute: bool)
    ensures name == "" || name == "." ==> Resolve(before + [name] + after, absolute) == Resolve(before + after, absolute)
    ensures name != "" && name != "." && name != ".." ==>
              Resolve(before + [name] + [".."] + after, absolute) == Resolve(before + after, absolute)
  {
    ResolveOne(before, name, absolute);
    ResolveOne(before + [name], "..", absolute);
    if name == "" || name == "." {
      ResolveFrom(before + [name], before, after, absolute);
    } else if name != ".." {
      assert (Resolve(before, absolute) + [name])[..|Resolve(before, absolute)|] == Resolve(before, absolute);
      ResolveFrom(before + [name] + [".."], before, after, absolute);
    }
  }

  lemma ClimbsBefore(segments: seq<string>, climbs: nat)
    requires segments != [] && ClimbsFirst(segments, climbs)
    ensures var front, last := segments[..|segments| - 1], segments[|segments| - 1];
            if climbs == |segments| then
              ClimbsFirst(front, climbs - 1) && last == ".." && (front != [] ==> front[|front| - 1] == "..")
            else ClimbsFirst(front, climbs) && Plain(last)
  {
    hide Plain;
    var front, names := segments[..|segments| - 1], segments[climbs..];
    if climbs == |segments| {
      assert front[climbs - 1..] == [];
    } else {
      assert segments[|segments| - 1] == names[|names| - 1] && names[|names| - 1] in names;
      assert front[climbs..] == names[..|names| - 1];
      forall s | s in front[climbs..]
        ensures s in names
      {
      }
    }
  }

  /** A relative path that climbs first and then only names is resolved as it stands. With the cancellations this decides every
      relative path. */
  lemma {:induction false} ResolvedStands(segments: seq<string>, climbs: nat)
    requires ClimbsFirst(segments, climbs)
    ensures Resolve(segments, false) == segments
  {
    hide ClimbsFirst, Resolve;
    if segments == [] {
      NothingResolved();
    } else {
      var front, last := segments[..|segments| - 1], segments[|segments| - 1];
      ClimbsBefore(segments, climbs);
      ResolvedStands(front, if climbs == |segments| then climbs - 1 else climbs);
      ResolveOne(front, last, false);
      assert segments == front + [last];
    }
  }

  lemma NothingResolved()
    ensures Resolve([], false) == [] && Resolve([], true) == []
  {
  }

  /** The normal form of an accepted path is written with exactly its resolved segments, and ends in a separator exactly when
      the path does. */
  lemma NormalFormNames(path: string)
    requires NormalizeWritePath(path).Some?
    ensures var n, p := NormalizeWritePath(path).value, Slashed(path);
            var segments := Resolve(Segments(p), false);
            && n != "" && (n[|n| - 1] == '/' <==> p[|p| - 1] == '/')
            && if segments == [] then n == "./" else Segments(n) == segments + (if p[|p| - 1] == '/' then [""] else [])
  {
    AcceptedMeansInside(path);
    var p := Slashed(path);
    var segments := RelativeSegments(path);
    hide Slashed, Resolve;
    if segments != [] {
      hide Segments, Join;
      RelativeForm(p, segments, p[|p| - 1] == '/');
      SegmentsOfJoin(segments);
      JoinStarts(segments);
      assert Join(segments, "/") + "" == Join(segments, "/") && segments + [] == segments;
    }
  }

  // ---- Letters and order ----

  /** The `i`-th capital letter becomes the `i`-th small one; everything else is left alone. */
  lemma LowerByLetter(c: char, i: nat)
    ensures i < 26 && c as int == 'A' as int + i ==> LowerChar(c) as int == 'a' as int + i
    ensures !('A' <= c <= 'Z') ==> LowerChar(c) == c
  {
  }

  /** `i` is where the texts first differ, and there `a` has the smaller character. */
  predicate SmallerAt(a: string, b: string, i: nat) {
    i < |a| && i < |b| && a[..i] == b[..i] && a[i] < b[i]
  }

  lemma SmallerLater(a: string, b: string, i: nat)
    requires a != "" && b != ""
    ensures SmallerAt(a, b, i + 1) <==> a[0] == b[0] && SmallerAt(a[1..], b[1..], i)
  {
    if i + 1 < |a| && i + 1 < |b| {
      assert a[..i + 1] == [a[0]] + a[1..][..i] && b[..i + 1] == [b[0]] + b[1..][..i];
      assert a[..i + 1][1..] == a[1..][..i] && b[..i + 1][1..] == b[1..][..i];
    }
  }

  /** One text comes before another if and only if it begins it, or has the smaller character where they first differ. */
  lemma {:induction false} BeforeMeans(a: string, b: string)
    ensures Before(a, b) <==> a < b || exists i :: SmallerAt(a, b, i)
  {
    if a != "" && b != "" {
      BeforeMeans(a[1..], b[1..]);
      assert a == [a[0]] + a[1..] && b == [b[0]] + b[1..];
      assert SmallerAt(a, b, 0) <==> a[0] < b[0];
      hide SmallerAt;
      if i: nat :| SmallerAt(a, b, i) && i > 0 { SmallerLater(a, b, i - 1); }
      if i :| SmallerAt(a[1..], b[1..], i) { SmallerLater(a, b, i); }
    }
  }

  // ---- Which nodes are accepted, and what is said of the others ----

  /** A node is accepted exactly when it declares paths, if it must, and every one of them stays inside the root. */
  lemma WritableMeans(n: PlanNode, requireWriteSets: bool)
    ensures Writable(n, requireWriteSets) <==>
            && (requireWriteSets ==> n.writeSet.Some? && |n.writeSet.value| > 0)
            && (n.writeSet.Some? ==> forall p :: p in n.writeSet.value ==> StaysInside(Slashed(p)))
  {
    hide NormalizeWritePath, StaysInside, Slashed;
    if n.writeSet.Some? {
      forall p | p in n.writeSet.value
        ensures Accepted(p) <==> StaysInside(Slashed(p))
      {
        AcceptedMeansInside(p);
      }
    }
  }

  lemma {:induction false} FirstRefusedIsFirst(paths: seq<string>, i: nat)
    requires i < |paths| && AllAccepted(paths[..i]) && !Accepted(paths[i])
    ensures FirstRefused(paths) == Some(paths[i])
  {
    hide Accepted;
    if i > 0 {
      assert Accepted(paths[..i][0]);
      var rest := paths[1..][..i - 1];
      forall k | 0 <= k < |rest|
        ensures Accepted(rest[k])
      {
        assert paths[..i][k + 1] == rest[k];
      }
      FirstRefusedIsFirst(paths[1..], i - 1);
    }
  }

  /** The error names the node that declares nothing, or gives the first path that cannot be used. */
  lemma RefusalTells(n: PlanNode, requireWriteSets: bool)
    ensures requireWriteSets && (n.writeSet.None? || n.writeSet.value == []) ==>
              Refusal(n, requireWriteSets).Some? && Occurs(n.id, Refusal(n, requireWriteSets).value)
    ensures n.writeSet.Some? && n.writeSet.value != [] ==>
              forall i :: 0 <= i < |n.writeSet.value| && AllAccepted(n.writeSet.value[..i]) && !Accepted(n.writeSet.value[i]) ==>
                Refusal(n, requireWriteSets).Some? && Occurs(n.writeSet.value[i], Refusal(n, requireWriteSets).value)
  {
    hide Accepted, Occurs, AllAccepted;
    if requireWriteSets && (n.writeSet.None? || n.writeSet.value == []) {
      OccursWithin("plan node ", n.id, " must declare a non-empty writeSet");
    } else if n.writeSet.Some? {
      forall i | 0 <= i < |n.writeSet.value| && AllAccepted(n.writeSet.value[..i]) && !Accepted(n.writeSet.value[i])
        ensures Refusal(n, requireWriteSets).Some? && Occurs(n.writeSet.value[i], Refusal(n, requireWriteSets).value)
      {
        FirstRefusedIsFirst(n.writeSet.value, i);
        var path := n.writeSet.value[i];
        OccursWithin("invalid plan write path: ", path, "");
        assert "invalid plan write path: " + path + "" == "invalid plan write path: " + path;
      }
    }
  }

  // ---- Which writers are ordered ----

  /** Letter case aside, the two paths are one, or one goes on below the other. */
  predicate Nested(left: seq<string>, leftTrailing: bool, right: seq<string>, rightTrailing: bool) {
    var a, b := LowerAll(left), LowerAll(right);
    || (a == b && leftTrailing == rightTrailing)
    || Above(a, leftTrailing, b, rightTrailing) || Above(b, rightTrailing, a, leftTrailing)
  }

  /** In a serialized plan two nodes that declare nested paths are ordered by their dependencies. */
  lemma NestedWritersAreOrdered(nodes: seq<PlanNode>, i: nat, j: nat, left: seq<string>, leftTrailing: bool,
                                right: seq<string>, rightTrailing: bool)
    requires ConflictsOrdered(nodes) && i < j < |nodes| && Named(left) && Named(right)
    requires nodes[i].writeSet.Some? && Form(left, leftTrailing) in nodes[i].writeSet.value
    requires nodes[j].writeSet.Some? && Form(right, rightTrailing) in nodes[j].writeSet.value
    requires Nested(left, leftTrailing, right, rightTrailing)
    ensures Reaches(DependencyGraph(nodes), nodes[j].id, nodes[i].id) || Reaches(DependencyGraph(nodes), nodes[i].id, nodes[j].id)
  {
    hide DependencyGraph, Reaches, PathsConflict, Form;
    ConflictMeansNested(left, leftTrailing, right, rightTrailing);
    assert OrderedPair(nodes, i, j);
  }

  /** Every dependency it adds comes from two paths that conflict, of two nodes the plan had left unordered. */
  lemma AddedForConflict(base: seq<PlanNode>, nodes: seq<PlanNode>, i: nat, k: nat) returns (e: nat, left: string, right: string)
    requires Extends(base, nodes) && i < |base| && |base[i].dependsOn| <= k < |nodes[i].dependsOn|
    ensures e < i && nodes[i].dependsOn[k] == base[e].id
    ensures base[e].writeSet.Some? && left in base[e].writeSet.value
    ensures base[i].writeSet.Some? && right in base[i].writeSet.value && PathsConflict(left, right)
    ensures !Reaches(DependencyGraph(base), base[i].id, base[e].id) && !Reaches(DependencyGraph(base), base[e].id, base[i].id)
  {
    hide DependencyGraph, Reaches, PathsConflict;
    assert ExtendsNode(base, i, nodes[i]);
    e :| 0 <= e < i && base[e].id == nodes[i].dependsOn[k] && MayAdd(base, e, i);
    left, right :| left in base[e].writeSet.value && right in base[i].writeSet.value && PathsConflict(left, right);
  }
}
