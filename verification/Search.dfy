/** Fuzzy file search over ASCII text, where a character is a byte. */
module Search {
  import opened Listing

  datatype Match = Match(indexes: seq<int>, score: int)

  const CONTIGUOUS_BASE_SCORE := 700

  const SUBSEQUENCE_BASE_SCORE := 500

  /** `at` places the characters of the query in the target, left to right. */
  ghost predicate Spells(target: string, query: string, at: seq<int>) {
    && |at| == |query|
    && (forall k :: 0 <= k < |at| ==> 0 <= at[k] < |target| && target[at[k]] == query[k])
    && (forall i, k :: 0 <= i < k < |at| ==> at[i] < at[k])
  }

  ghost predicate IsSubsequence(target: string, query: string) { exists at :: Spells(target, query, at) }

  predicate OccursAt(target: string, query: string, start: int) {
    0 <= start && start + |query| <= |target| && target[start..start + |query|] == query
  }

  /** strings.Index: the first occurrence of the query. */
  method IndexOf(target: string, query: string) returns (start: int)
    ensures start >= 0 ==> OccursAt(target, query, start)
    ensures forall k :: 0 <= k && (start < 0 || k < start) ==> !OccursAt(target, query, k)
  {
    start := 0;
    while start + |query| <= |target|
      invariant 0 <= start
      invariant forall k :: 0 <= k < start ==> !OccursAt(target, query, k)
    {
      if target[start..start + |query|] == query {
        return;
      }
      start := start + 1;
    }
    start := -1;
  }

  function Consecutive(start: int, n: nat): (r: seq<int>)
    ensures |r| == n && forall k :: 0 <= k < n ==> r[k] == start + k
  {
    seq(n, k => start + k)
  }

  ghost predicate FirstOccurrence(target: string, query: string, start: int) {
    OccursAt(target, query, start) && forall k :: 0 <= k < start ==> !OccursAt(target, query, k)
  }

  function ContiguousScore(start: int, targetLength: int): int { CONTIGUOUS_BASE_SCORE - start * 2 - targetLength }

  method ResolveContiguousMatch(target: string, query: string) returns (m: Match, ok: bool)
    ensures ok <==> exists k :: OccursAt(target, query, k)
    ensures ok ==> Spells(target, query, m.indexes)
    ensures ok ==> IsContiguous(target, query, m)
  {
    var start := IndexOf(target, query);
    if start < 0 {
      return Match([], 0), false;
    }
    assert FirstOccurrence(target, query, start);
    var indexes: seq<int> := [];
    for index := 0 to |query|
      invariant indexes == Consecutive(start, index)
    {
      indexes := indexes + [start + index];
    }
    forall k | 0 <= k < |query| ensures target[indexes[k]] == query[k] {
      assert target[start..start + |query|][k] == query[k];
    }
    return Match(indexes, ContiguousScore(start, |target|)), true;
  }

  /** strings.IndexRune on the rest of the target: the first place at or after `from`. */
  method NextPlace(target: string, from: int, c: char) returns (r: int)
    requires 0 <= from <= |target|
    ensures r >= 0 ==> from <= r < |target| && target[r] == c && forall k :: from <= k < r ==> target[k] != c
    ensures r < 0 ==> forall k :: from <= k < |target| ==> target[k] != c
  {
    r := from;
    while r < |target|
      invariant from <= r <= |target|
      invariant forall k :: from <= k < r ==> target[k] != c
    {
      if target[r] == c {
        return;
      }
      r := r + 1;
    }
    r := -1;
  }

  /** Each place is the earliest possible: no placement of a longer prefix of the query ends before it. */
  ghost predicate Earliest(target: string, query: string, at: seq<int>) {
    forall other :: Spells(target, query, other) && |at| <= |query| ==> forall k :: 0 <= k < |at| ==> at[k] <= other[k]
  }

  function After(at: seq<int>): int { if at == [] then 0 else at[|at| - 1] + 1 }

  lemma EarliestStep(target: string, query: string, at: seq<int>, next: int)
    requires |at| < |query| && Earliest(target, query, at)
    requires forall k :: 0 <= k < |target| && After(at) <= k < next ==> target[k] != query[|at|]
    ensures Earliest(target, query, at + [next])
    ensures forall other :: Spells(target, query, other) ==> next <= other[|at|]
  {}

  /** If the next character is nowhere in the rest, no placement of the whole query exists. */
  lemma GreedyFailureIsFinal(target: string, query: string, at: seq<int>, other: seq<int>)
    requires |at| < |query| && Earliest(target, query, at)
    requires forall k :: 0 <= k < |target| && After(at) <= k ==> target[k] != query[|at|]
    ensures !Spells(target, query, other)
  {
    EarliestStep(target, query, at, |target|);
  }

  function SubsequenceScore(indexes: seq<int>, queryLength: int, targetLength: int): int {
    var first := if |indexes| > 0 then indexes[0] else 0;
    var last := if |indexes| > 0 then indexes[|indexes| - 1] else 0;
    SUBSEQUENCE_BASE_SCORE - (last - first - queryLength + 1) * 3 - first * 2 - targetLength
  }

  method GreedyMatch(target: string, query: string) returns (indexes: seq<int>, ok: bool)
    ensures ok <==> IsSubsequence(target, query)
    ensures ok ==> Spells(target, query, indexes) && Earliest(target, query, indexes)
  {
    indexes := [];
    var nextIndex := 0;
    for i := 0 to |query|
      invariant Spells(target, query[..i], indexes) && Earliest(target, query, indexes)
      invariant 0 <= nextIndex <= |target| && nextIndex == After(indexes)
    {
      var found := NextPlace(target, nextIndex, query[i]);
      if found < 0 {
        forall other ensures !Spells(target, query, other) {
          GreedyFailureIsFinal(target, query, indexes, other);
        }
        return indexes, false;
      }
      EarliestStep(target, query, indexes, found);
      indexes := indexes + [found];
      nextIndex := found + 1;
    }
    assert query[..|query|] == query;
    return indexes, true;
  }

  /** The match at the first occurrence of the query; two points off for every character before it. */
  ghost predicate IsContiguous(target: string, query: string, m: Match) {
    exists start :: FirstOccurrence(target, query, start)
                    && m == Match(Consecutive(start, |query|), 700 - 2 * start - |target|)
  }

  /** The number of characters a match skips between its first and its last place. */
  function Skipped(at: seq<int>): int
    requires at != []
  {
    at[|at| - 1] - at[0] + 1 - |at|
  }

  /** The match with the earliest place for every character; three points off for every character it skips. */
  ghost predicate IsGreedy(target: string, query: string, m: Match) {
    && Spells(target, query, m.indexes) && Earliest(target, query, m.indexes)
    && m.score == (if query == "" then 497 else 500 - 3 * Skipped(m.indexes) - 2 * m.indexes[0]) - |target|
  }

  /** There is one greedy match. */
  lemma GreedyIsUnique(target: string, query: string, m: Match, n: Match)
    requires IsGreedy(target, query, m) && IsGreedy(target, query, n)
    ensures m == n
  {
    assert forall k :: 0 <= k < |m.indexes| ==> m.indexes[k] <= n.indexes[k];
    assert forall k :: 0 <= k < |n.indexes| ==> n.indexes[k] <= m.indexes[k];
    assert m.indexes == n.indexes;
  }

  /**
   Succeeds exactly on subsequences, with the better of the contiguous and the greedy match; the contiguous one wins a
   tie.
   */
  method ResolveSubsequenceMatch(target: string, query: string) returns (m: Match, ok: bool)
    ensures ok <==> IsSubsequence(target, query)
    ensures ok ==> Spells(target, query, m.indexes)
    ensures ok ==> IsContiguous(target, query, m) || IsGreedy(target, query, m)
    ensures ok && IsContiguous(target, query, m) ==> exists g :: IsGreedy(target, query, g) && g.score <= m.score
    ensures ok && !IsContiguous(target, query, m) ==> forall c :: IsContiguous(target, query, c) ==> c.score < m.score
  {
    var contiguousMatch, hasContiguous := ResolveContiguousMatch(target, query);
    var indexes, found := GreedyMatch(target, query);
    if !found {
      return contiguousMatch, hasContiguous;
    }
    var match' := Match(indexes, SubsequenceScore(indexes, |query|, |target|));
    assert IsGreedy(target, query, match');
    if !hasContiguous || match'.score > contiguousMatch.score {
      if hasContiguous { FirstIsUnique(target, query, contiguousMatch); }
      return match', true;
    }
    return contiguousMatch, true;
  }

  lemma FirstIsUnique(target: string, query: string, m: Match)
    requires IsContiguous(target, query, m)
    ensures forall c :: IsContiguous(target, query, c) ==> c == m
  {
    forall c | IsContiguous(target, query, c) ensures c == m {
      var i :| FirstOccurrence(target, query, i) && m == Match(Consecutive(i, |query|), 700 - 2 * i - |target|);
      var k :| FirstOccurrence(target, query, k) && c == Match(Consecutive(k, |query|), 700 - 2 * k - |target|);
      assert i == k;
    }
  }

  /** An occurrence loses to scattered letters only when these begin more than a hundred characters before it. */
  lemma OccurrenceLosesExactly(target: string, query: string, c: Match, g: Match)
    requires query != "" && IsContiguous(target, query, c) && IsGreedy(target, query, g)
    ensures c.score < g.score <==> 200 + 3 * Skipped(g.indexes) < 2 * (c.indexes[0] - g.indexes[0])
    ensures c.score < g.score ==> g.indexes[0] + 100 < c.indexes[0]
  {
    var start :| FirstOccurrence(target, query, start)
                 && c == Match(Consecutive(start, |query|), 700 - 2 * start - |target|);
    SkipsNothingLess(g.indexes, |g.indexes| - 1);
  }

  lemma {:induction false} SkipsNothingLess(at: seq<int>, k: nat)
    requires k < |at| && forall i, j :: 0 <= i < j < |at| ==> at[i] < at[j]
    ensures at[0] + k <= at[k]
  {
    if k > 0 { SkipsNothingLess(at, k - 1); }
  }
}
