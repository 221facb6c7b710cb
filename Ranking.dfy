/**
 * The shared tail of every recommender: the score map's entries sorted by
 * descending score (`comparingByValue().reversed()`) and cut to `limit`
 * (`Stream.limit`). Ties keep hash-map order, which is unspecified, so only a
 * non-increasing order is promised.
 */
module Ranking {

  import opened Wrappers
  import opened Graph

  datatype Recommendation = Recommendation(targetUser: User, score: real, algorithm: string)

  /** A ranking together with the strategy's description of how it was computed. */
  datatype RecommendationResponse = RecommendationResponse(recommendations: seq<Recommendation>, explanation: string)

  function Targets(r: seq<Recommendation>): set<User>
  {
    set i | 0 <= i < |r| :: r[i].targetUser
  }

  ghost predicate SortedDesc(r: seq<Recommendation>)
  {
    forall i, j :: 0 <= i < j < |r| ==> r[i].score >= r[j].score
  }

  ghost predicate DistinctTargets(r: seq<Recommendation>)
  {
    forall i, j :: 0 <= i < j < |r| ==> r[i].targetUser != r[j].targetUser
  }

  /** Every entry is a key of `scores`, carries that key's score and is tagged. */
  ghost predicate EntriesFrom(r: seq<Recommendation>, scores: map<User, real>, tag: string)
  {
    forall i :: 0 <= i < |r| ==>
      r[i].targetUser in scores && r[i].score == scores[r[i].targetUser] && r[i].algorithm == tag
  }

  /**
   * `r` is a best-first ranking of `scores` cut to `limit`: non-increasing,
   * no key twice, min(limit, |scores|) entries, and every key left out scores
   * no more than any key kept.
   */
  ghost predicate IsTopRanking(r: seq<Recommendation>, scores: map<User, real>, limit: nat, tag: string)
  {
    && |r| == Min(limit, |scores|)
    && SortedDesc(r)
    && DistinctTargets(r)
    && EntriesFrom(r, scores, tag)
    && (forall c :: c in scores && c !in Targets(r) ==>
          forall i :: 0 <= i < |r| ==> scores[c] <= r[i].score)
  }

  /** A non-empty finite set of keys has a key of largest score. */
  lemma {:induction false} MaxExists(s: set<User>, scores: map<User, real>)
    requires s != {} && s <= scores.Keys
    ensures exists k :: k in s && forall c :: c in s ==> scores[c] <= scores[k]
    decreases s
  {
    var x :| x in s;
    if s - {x} != {} {
      MaxExists(s - {x}, scores);
      var k :| k in s - {x} && forall c :: c in s - {x} ==> scores[c] <= scores[k];
      if scores[x] > scores[k] {
        assert forall c :: c in s ==> scores[c] <= scores[x];
      } else {
        assert forall c :: c in s ==> scores[c] <= scores[k];
      }
    } else {
      assert s == {x};
    }
  }

  /** Sorts every entry of `scores` by descending score, choosing any maximum first. */
  method SortByScore(scores: map<User, real>, tag: string) returns (r: seq<Recommendation>)
    ensures |r| == |scores| && Targets(r) == scores.Keys
    ensures SortedDesc(r) && DistinctTargets(r) && EntriesFrom(r, scores, tag)
  {
    r := [];
    var rest := scores.Keys;
    while rest != {}
      invariant rest <= scores.Keys
      invariant Targets(r) !! rest && Targets(r) + rest == scores.Keys
      invariant |r| + |rest| == |scores|
      invariant SortedDesc(r) && DistinctTargets(r) && EntriesFrom(r, scores, tag)
      invariant forall i, c :: 0 <= i < |r| && c in rest ==> scores[c] <= r[i].score
      decreases rest
    {
      MaxExists(rest, scores);
      var k :| k in rest && forall c :: c in rest ==> scores[c] <= scores[k];
      AppendMax(r, scores, tag, rest, k);
      r := r + [Recommendation(k, scores[k], tag)];
      rest := rest - {k};
    }
  }

  /** Appending a best remaining key keeps every invariant of the selection sort. */
  lemma AppendMax(r: seq<Recommendation>, scores: map<User, real>, tag: string, rest: set<User>, k: User)
    requires rest <= scores.Keys && k in rest
    requires forall c :: c in rest ==> scores[c] <= scores[k]
    requires Targets(r) !! rest && Targets(r) + rest == scores.Keys
    requires SortedDesc(r) && DistinctTargets(r) && EntriesFrom(r, scores, tag)
    requires forall i, c :: 0 <= i < |r| && c in rest ==> scores[c] <= r[i].score
    ensures var r' := r + [Recommendation(k, scores[k], tag)];
      && Targets(r') == Targets(r) + {k}
      && Targets(r') !! rest - {k} && Targets(r') + (rest - {k}) == scores.Keys
      && SortedDesc(r') && DistinctTargets(r') && EntriesFrom(r', scores, tag)
      && forall i, c :: 0 <= i < |r'| && c in rest - {k} ==> scores[c] <= r'[i].score
  {
    var entry := Recommendation(k, scores[k], tag);
    var r' := r + [entry];
    assert forall i :: 0 <= i < |r| ==> r'[i] == r[i];
    assert r'[|r|] == entry;
    assert Targets(r') == Targets(r) + {k};
  }

  /** The ranking pipeline of every recommender: sort, then keep the first `limit`. */
  method SortAndLimit(scores: map<User, real>, limit: nat, tag: string) returns (r: seq<Recommendation>)
    ensures IsTopRanking(r, scores, limit, tag)
  {
    var sorted := SortByScore(scores, tag);
    var n := Min(limit, |sorted|);
    PrefixIsTopRanking(sorted, scores, limit, tag);
    r := sorted[..n];
  }

  /** The first min(limit, |scores|) entries of a full sorted ranking are a top ranking. */
  lemma PrefixIsTopRanking(sorted: seq<Recommendation>, scores: map<User, real>, limit: nat, tag: string)
    requires |sorted| == |scores| && Targets(sorted) == scores.Keys
    requires SortedDesc(sorted) && DistinctTargets(sorted) && EntriesFrom(sorted, scores, tag)
    ensures IsTopRanking(sorted[..Min(limit, |sorted|)], scores, limit, tag)
  {
    var n := Min(limit, |sorted|);
    PrefixKeepsOrder(sorted, scores, n, tag);
    forall c | c in scores && c !in Targets(sorted[..n])
      ensures forall i :: 0 <= i < n ==> scores[c] <= sorted[..n][i].score
    {
      PrefixDominates(sorted, scores, n, tag, c);
    }
  }

  /** A prefix of a sorted, distinct ranking from `scores` is one too. */
  lemma PrefixKeepsOrder(sorted: seq<Recommendation>, scores: map<User, real>, n: nat, tag: string)
    requires n <= |sorted|
    requires SortedDesc(sorted) && DistinctTargets(sorted) && EntriesFrom(sorted, scores, tag)
    ensures var r := sorted[..n]; SortedDesc(r) && DistinctTargets(r) && EntriesFrom(r, scores, tag)
  {
    var r := sorted[..n];
    assert forall i :: 0 <= i < |r| ==> r[i] == sorted[i];
  }

  /** A key left out of the prefix scores no more than any entry of the prefix. */
  lemma PrefixDominates(sorted: seq<Recommendation>, scores: map<User, real>, n: nat, tag: string, c: User)
    requires n <= |sorted| && Targets(sorted) == scores.Keys
    requires SortedDesc(sorted) && EntriesFrom(sorted, scores, tag)
    requires c in scores && c !in Targets(sorted[..n])
    ensures forall i :: 0 <= i < n ==> scores[c] <= sorted[..n][i].score
  {
    var r := sorted[..n];
    assert c in Targets(sorted);
    var j :| 0 <= j < |sorted| && sorted[j].targetUser == c;
    assert forall i :: 0 <= i < |r| ==> r[i] == sorted[i] && r[i].targetUser in Targets(r);
    assert j >= n;
  }

  /** A ranking holds no more entries than the limit and no key twice. */
  lemma TopRankingBounds(r: seq<Recommendation>, scores: map<User, real>, limit: nat, tag: string)
    requires IsTopRanking(r, scores, limit, tag)
    ensures |r| <= limit && Targets(r) <= scores.Keys
    ensures limit >= |scores| ==> Targets(r) == scores.Keys
  {
    if limit >= |scores| {
      TargetsCardinality(r);
      assert |Targets(r)| == |scores.Keys|;
      SubsetOfEqualSize(Targets(r), scores.Keys);
    }
  }

  /** Distinct targets: the target set has as many elements as the ranking. */
  lemma {:induction false} TargetsCardinality(r: seq<Recommendation>)
    requires DistinctTargets(r)
    ensures |Targets(r)| == |r|
  {
    if r != [] {
      var p := r[..|r| - 1];
      var last := r[|r| - 1];
      TargetsCardinality(p);
      assert Targets(r) == Targets(p) + {last.targetUser} by {
        assert forall i :: 0 <= i < |p| ==> p[i] == r[i];
      }
      assert last.targetUser !in Targets(p);
    }
  }

  lemma {:induction false} SubsetOfEqualSize(a: set<User>, b: set<User>)
    requires a <= b && |a| == |b|
    ensures a == b
  {
    assert b == a + (b - a);
    assert a * (b - a) == {};
    assert |b - a| == 0;
  }

  lemma {:induction false} SubsetSize(a: set<User>, b: set<User>)
    requires a <= b
    ensures |a| <= |b|
    decreases b
  {
    if a != {} {
      var x :| x in a;
      SubsetSize(a - {x}, b - {x});
    }
  }
}
