/**
 * The last step of `bm25_search`: the accumulated (document id, score)
 * pairs sorted by score, highest first (`sorted(..., reverse=True)`), and
 * cut with the Python slice `[:limit]`.
 */
module Ranking {

  /** Scores never increase along the sequence. */
  predicate NonIncreasing(s: seq<(int, real)>) {
    forall i, j :: 0 <= i < j < |s| ==> s[i].1 >= s[j].1
  }

  /** Inserts `x` after every entry that scores at least as much, which keeps
      entries of equal score in arrival order, as Python's stable sort does. */
  function Insert(s: seq<(int, real)>, x: (int, real)): (r: seq<(int, real)>)
    requires NonIncreasing(s)
    ensures NonIncreasing(r)
    ensures |r| == |s| + 1
    ensures multiset(r) == multiset(s) + multiset{x}
    ensures forall k :: 0 <= k < |r| ==> r[k] == x || r[k] in s
  {
    if s == [] then [x]
    else if x.1 > s[0].1 then [x] + s
    else
      assert s == [s[0]] + s[1..];
      [s[0]] + Insert(s[1..], x)
  }

  /** `sorted(items, key=score, reverse=True)` */
  function SortByScore(items: seq<(int, real)>): (r: seq<(int, real)>)
    ensures NonIncreasing(r)
    ensures |r| == |items|
    ensures multiset(r) == multiset(items)
    decreases |items|
  {
    if items == [] then []
    else
      var prefix := items[..|items| - 1];
      assert items == prefix + [items[|items| - 1]];
      Insert(SortByScore(prefix), items[|items| - 1])
  }

  /** The length of `xs[:limit]` for a list of length `n`: a negative limit
      counts from the end. */
  function SliceLen(n: nat, limit: int): (k: nat)
    ensures k <= n
    ensures 0 <= limit ==> k <= limit && (k == limit || k == n)
    ensures limit < 0 ==> k == if n + limit > 0 then n + limit else 0
  {
    if limit >= 0 then (if limit < n then limit else n)
    else if n + limit > 0 then n + limit
    else 0
  }

  /** `scores.items()`: each entry of `scores` once, in no stated order. */
  method Entries(scores: map<int, real>) returns (items: seq<(int, real)>)
    ensures ListsScores(items, scores)
  {
    items := [];
    var unlisted := scores.Keys;
    while unlisted != {}
      invariant unlisted <= scores.Keys
      invariant |items| + |unlisted| == |scores|
      invariant forall i :: 0 <= i < |items| ==> items[i].0 in scores && items[i].0 !in unlisted && items[i].1 == scores[items[i].0]
      invariant forall i, j :: 0 <= i < j < |items| ==> items[i].0 != items[j].0
      invariant forall d :: d in scores && d !in unlisted ==> (d, scores[d]) in items
      decreases unlisted
    {
      assert (forall e :: e !in unlisted) ==> unlisted == {};
      var d :| d in unlisted;
      items := items + [(d, scores[d])];
      unlisted := unlisted - {d};
    }
  }

  /** The ids of the entries. */
  function IdsOf(s: seq<(int, real)>): (ids: set<int>) {
    set i | 0 <= i < |s| :: s[i].0
  }

  /** `items` lists each entry of `scores` exactly once. */
  predicate ListsScores(items: seq<(int, real)>, scores: map<int, real>) {
    && |items| == |scores|
    && (forall i :: 0 <= i < |items| ==> items[i].0 in scores && items[i].1 == scores[items[i].0])
    && (forall i, j :: 0 <= i < j < |items| ==> items[i].0 != items[j].0)
    && (forall d :: d in scores ==> (d, scores[d]) in items)
  }

  /** `ranked` is what `sorted(scores.items(), key=score, reverse=True)[:limit]`
      may return: as many entries as the slice keeps, each an entry of
      `scores`, no id twice, scores non-increasing, and no entry left out
      scoring more than one kept. */
  predicate Ranks(ranked: seq<(int, real)>, scores: map<int, real>, limit: int) {
    && |ranked| == SliceLen(|scores|, limit)
    && (forall i :: 0 <= i < |ranked| ==> ranked[i].0 in scores && ranked[i].1 == scores[ranked[i].0])
    && (forall i, j :: 0 <= i < j < |ranked| ==> ranked[i].0 != ranked[j].0)
    && NonIncreasing(ranked)
    && (forall d, i :: d in scores && d !in IdsOf(ranked) && 0 <= i < |ranked| ==> scores[d] <= ranked[i].1)
  }

  lemma {:induction false} AtMostOnce(s: seq<(int, real)>, x: (int, real))
    requires forall i, j :: 0 <= i < j < |s| ==> s[i].0 != s[j].0
    ensures multiset(s)[x] <= 1
    decreases |s|
  {
    if s != [] {
      AtMostOnce(s[1..], x);
      assert s == [s[0]] + s[1..];
      if s[0] == x {
        assert x !in s[1..] by {
          forall k | 0 <= k < |s| - 1 ensures s[1..][k] != x {
            assert s[k + 1].0 != s[0].0;
          }
        }
      }
    }
  }

  lemma AtLeastTwice(s: seq<(int, real)>, i: nat, j: nat)
    requires i < j < |s| && s[i] == s[j]
    ensures multiset(s)[s[i]] >= 2
  {
    assert s == s[..i + 1] + s[i + 1..];
    assert s[i] in s[..i + 1];
    assert s[j] == s[i + 1..][j - i - 1];
  }

  /** A permutation of a listing of `scores` lists `scores` too. */
  lemma PermutedListing(items: seq<(int, real)>, perm: seq<(int, real)>, scores: map<int, real>)
    requires ListsScores(items, scores)
    requires |perm| == |items| && multiset(perm) == multiset(items)
    ensures ListsScores(perm, scores)
  {
    forall i | 0 <= i < |perm| ensures perm[i] in items {
      assert perm[i] in multiset(perm);
    }
    forall i, j | 0 <= i < j < |perm| ensures perm[i].0 != perm[j].0 {
      if perm[i].0 == perm[j].0 {
        assert perm[i] in items && perm[j] in items;
        AtLeastTwice(perm, i, j);
        AtMostOnce(items, perm[i]);
        assert false;
      }
    }
    forall d | d in scores ensures (d, scores[d]) in perm {
      assert (d, scores[d]) in multiset(items);
    }
  }

  /** The first `k` entries of a non-increasing listing of `scores` rank it. */
  lemma PrefixRanks(sorted: seq<(int, real)>, scores: map<int, real>, limit: int)
    requires ListsScores(sorted, scores) && NonIncreasing(sorted)
    ensures Ranks(sorted[..SliceLen(|sorted|, limit)], scores, limit)
  {
    var k := SliceLen(|sorted|, limit);
    var top := sorted[..k];
    forall d, i | d in scores && d !in IdsOf(top) && 0 <= i < |top| ensures scores[d] <= top[i].1 {
      var p :| 0 <= p < |sorted| && sorted[p] == (d, scores[d]);
      assert k <= p;
    }
  }

  /** The sorted entries of a listing of `scores`, cut to the slice, rank
      `scores`. */
  lemma TopOfSorted(items: seq<(int, real)>, scores: map<int, real>, limit: int)
    requires ListsScores(items, scores)
    ensures Ranks(SortByScore(items)[..SliceLen(|items|, limit)], scores, limit)
  {
    PermutedListing(items, SortByScore(items), scores);
    PrefixRanks(SortByScore(items), scores, limit);
  }
}
