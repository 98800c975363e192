/** The one array primitive the core is built on: ECMAScript's
    `Array.prototype.findLastIndex`, which scans from the end of the array and
    returns the index of the last element satisfying a predicate, or -1. */
module ArrayFind {

  /** True when no element of `s` strictly after index `k` satisfies `p`. */
  ghost predicate NoneAfter<T>(s: seq<T>, p: T -> bool, k: int)
  {
    forall j :: 0 <= j < |s| && k < j ==> !p(s[j])
  }

  /** `s.findLastIndex(p)`: the greatest index whose element satisfies `p`,
      or -1 when there is none. */
  function FindLastIndex<T>(s: seq<T>, p: T -> bool): (r: int)
    ensures -1 <= r < |s|
    ensures r >= 0 ==> p(s[r])
    ensures NoneAfter(s, p, r)
    decreases |s|
  {
    if |s| == 0 then -1
    else if p(s[|s| - 1]) then |s| - 1
    else FindLastIndex(s[..|s| - 1], p)
  }

  /** The result of FindLastIndex is the only index with its two properties:
      the search is a function of the predicate's extension, not of the scan. */
  lemma FindLastIndexUnique<T>(s: seq<T>, p: T -> bool, k: int)
    requires -1 <= k < |s|
    requires k >= 0 ==> p(s[k])
    requires NoneAfter(s, p, k)
    ensures FindLastIndex(s, p) == k
  {
  }
}
