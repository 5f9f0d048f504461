/** Retry ids and the lineage they encode: `N-1` -> `N-1-r1` -> `N-1-r1-r2`. */
module Lineage {
  import opened Text

  /** The regular expression `-r\d+$` matches `s` at offset `i`. */
  ghost predicate RetrySuffixAt(s: string, i: nat) {
    && i + 2 < |s|
    && s[i] == '-' && s[i + 1] == 'r'
    && forall j :: i + 2 <= j < |s| ==> IsDigit(s[j])
  }

  /** Length of the run of digits that ends `s`. */
  function TrailingDigits(s: string): (n: nat)
    ensures n <= |s|
    ensures forall j :: |s| - n <= j < |s| ==> IsDigit(s[j])
    ensures n < |s| ==> !IsDigit(s[|s| - n - 1])
  {
    if s == [] || !IsDigit(s[|s| - 1]) then 0 else 1 + TrailingDigits(s[..|s| - 1])
  }

  /** Without one retry suffix, a dash, an `r` and digits, if the id ends in one. */
  function StripRetry(s: string): (r: string)
    ensures |r| <= |s|
    ensures r != s ==> |r| < |s|
  {
    var n := TrailingDigits(s);
    var k := |s| - n;
    if n > 0 && k >= 2 && s[k - 2] == '-' && s[k - 1] == 'r' then s[..k - 2] else s
  }

  /** Stripping removes the text from the match on, and nothing when there is no match. */
  lemma StripIsReplace(s: string)
    ensures forall i: nat :: RetrySuffixAt(s, i) ==> StripRetry(s) == s[..i]
    ensures (forall i: nat :: !RetrySuffixAt(s, i)) ==> StripRetry(s) == s
  {
    var n := TrailingDigits(s);
    forall i: nat | RetrySuffixAt(s, i)
      ensures StripRetry(s) == s[..i]
    {
      assert !IsDigit(s[i + 1]);
      assert |s| - n == i + 2;
    }
    if StripRetry(s) != s {
      assert RetrySuffixAt(s, |s| - n - 2);
    }
  }

  function LineageRoot(id: string): string
    decreases |id|
  {
    if StripRetry(id) == id then id else LineageRoot(StripRetry(id))
  }

  /** The stripping loop computes the lineage root. */
  method NodeLineageRoot(nodeId: string) returns (root: string)
    ensures root == LineageRoot(nodeId)
    ensures StripRetry(root) == root
  {
    root := nodeId;
    while true
      invariant LineageRoot(root) == LineageRoot(nodeId)
      decreases |root|
    {
      var stripped := StripRetry(root);
      if stripped == root { return; }
      root := stripped;
    }
  }

  function RetryId(id: string, n: nat): string {
    id + "-r" + Decimal(n)
  }

  /** A retry id strips back to the id it retries, whatever the number. */
  lemma RetryStrips(id: string, n: nat)
    ensures StripRetry(RetryId(id, n)) == id
    ensures LineageRoot(RetryId(id, n)) == LineageRoot(id)
    ensures |id| < |RetryId(id, n)|
  {
    var s := RetryId(id, n);
    assert s[|id|] == '-' && s[|id| + 1] == 'r';
    assert forall j :: |id| + 2 <= j < |s| ==> s[j] == Decimal(n)[j - |id| - 2];
    assert RetrySuffixAt(s, |id|);
    StripIsReplace(s);
    assert s[..|id|] == id;
  }

  /** The id of the `k`-th retry of `root`: `root-r1-r2-...-rk`. */
  function Incarnation(root: string, k: nat): string {
    if k == 0 then root else RetryId(Incarnation(root, k - 1), k)
  }

  lemma {:induction false} IncarnationRoot(root: string, k: nat)
    requires StripRetry(root) == root
    ensures LineageRoot(Incarnation(root, k)) == root
  {
    if k > 0 {
      IncarnationRoot(root, k - 1);
      RetryStrips(Incarnation(root, k - 1), k);
    }
  }

  lemma {:induction false} IncarnationsGrow(root: string, j: nat, k: nat)
    requires j < k
    ensures |Incarnation(root, j)| < |Incarnation(root, k)|
  {
    hide LineageRoot, StripRetry, RetryId;
    RetryStrips(Incarnation(root, k - 1), k);
    if j < k - 1 {
      IncarnationsGrow(root, j, k - 1);
    }
  }

  /** The first `k` incarnations of a root. */
  function Incarnations(root: string, k: nat): set<string> {
    if k == 0 then {} else Incarnations(root, k - 1) + {Incarnation(root, k - 1)}
  }

  lemma {:induction false} IncarnationsShorter(root: string, k: nat)
    ensures forall id :: id in Incarnations(root, k) ==> |id| < |Incarnation(root, k)|
    ensures |Incarnations(root, k)| == k
  {
    if k > 0 {
      IncarnationsShorter(root, k - 1);
      IncarnationsGrow(root, k - 1, k);
    }
  }
}
