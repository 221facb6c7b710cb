/**
 * Jaccard: a candidate scores the share of the user's following and the
 * candidate's followers that lies in both, and 0 when both are empty.
 */
module JaccardRecommender {

  import opened Wrappers
  import opened Graph
  import opened Ranking
  import opened InMemoryGraphRepository
  import opened CandidateCollection

  const Tag: string := "jaccard_in_memory"

  const Explanation: string := "In-memory Jaccard calculation"

  /** |intersection| / |union| of the user's following and `c`'s followers; 0 over an empty union. */
  function Jaccard(g: Snapshot, u: User, c: User): real
  {
    Ratio(|Following(g, u) * Followers(g, c)|, |Following(g, u) + Followers(g, c)|)
  }

  /** `(double) shared / total`, or 0 when `total` is 0. */
  function Ratio(shared: nat, total: nat): real
  {
    if total == 0 then 0.0 else shared as real / total as real
  }

  /** A part over a whole lies in [0, 1], and above 0 when the part is not empty. */
  lemma RatioInUnit(shared: nat, total: nat)
    requires shared <= total
    ensures 0.0 <= Ratio(shared, total) <= 1.0
    ensures shared > 0 ==> Ratio(shared, total) > 0.0
  {
    if total > 0 {
      var t := total as real;
      assert shared as real / t * t == shared as real;
    }
  }

  function Scores(g: Snapshot, u: User): map<User, real>
  {
    map c | c in Candidates(g, u) :: Jaccard(g, u, c)
  }

  /** Every ratio lies in [0, 1]. */
  lemma JaccardBounded(g: Snapshot, u: User, c: User)
    ensures 0.0 <= Jaccard(g, u, c) <= 1.0
  {
    SubsetSize(Following(g, u) * Followers(g, c), Following(g, u) + Followers(g, c));
    RatioInUnit(|Following(g, u) * Followers(g, c)|, |Following(g, u) + Followers(g, c)|);
  }

  /** A candidate shares at least one followed user, so its score is in (0, 1]. */
  lemma CandidateScoresPositive(g: Snapshot, u: User)
    requires Valid(g)
    ensures forall c :: c in Scores(g, u) ==> 0.0 < Scores(g, u)[c] <= 1.0
  {
    forall c | c in Scores(g, u) ensures 0.0 < Scores(g, u)[c] <= 1.0 {
      CandidatesIff(g, u, c);
      var intersection := Following(g, u) * Followers(g, c);
      var union := Following(g, u) + Followers(g, c);
      assert intersection != {};
      SubsetSize(intersection, union);
      RatioInUnit(|intersection|, |union|);
    }
  }

  /**
   * A ranking of these scores never holds the user or a user it follows,
   * every entry scores in (0, 1], and there are at most `limit` entries.
   */
  lemma RankingExcludesKnownUsers(r: seq<Recommendation>, g: Snapshot, u: User, limit: nat)
    requires Valid(g) && IsTopRanking(r, Scores(g, u), limit, Tag)
    ensures |r| <= limit
    ensures forall i :: 0 <= i < |r| ==>
      r[i].targetUser != u && r[i].targetUser !in Following(g, u) && 0.0 < r[i].score <= 1.0
  {
    TopRankingBounds(r, Scores(g, u), limit, Tag);
    CandidateScoresPositive(g, u);
  }

  /** A user that follows nobody, in particular an unknown user, gets no recommendation. */
  lemma NoFollowingNoRecommendations(r: seq<Recommendation>, g: Snapshot, u: User, limit: nat)
    requires Valid(g) && Following(g, u) == {} && IsTopRanking(r, Scores(g, u), limit, Tag)
    ensures r == []
  {
    NoFollowingNoCandidates(g, u);
    assert Scores(g, u) == map[];
  }

  /** In the worked example, A shares its one followed user B with C and with D. */
  lemma ExampleRatio(c: User)
    requires c == "C" || c == "D"
    ensures Jaccard(Example, "A", c) == 1.0
  {
    ExampleNeighbourhoods();
    assert Following(Example, "A") + Followers(Example, c) == {"B"};
    assert Following(Example, "A") * Followers(Example, c) == {"B"};
  }

  /**
   * A -> B, B -> C, B -> D: the union of {B} and the followers {B} is {B}, so
   * C and D score 1 each, not 1/2.
   */
  lemma ExampleScores()
    ensures Scores(Example, "A") == map["C" := 1.0, "D" := 1.0]
  {
    ExampleNeighbourhoods();
    ExampleRatio("C");
    ExampleRatio("D");
  }

  class JaccardRecommender {
    const graphRepository: Repository

    constructor (repository: Repository)
      ensures graphRepository == repository
    {
      graphRepository := repository;
    }

    /** Collects the candidates, scores each by its Jaccard ratio, sorts and keeps `limit`. */
    method Recommend(user: User, limit: nat) returns (response: RecommendationResponse)
      requires graphRepository.Valid()
      ensures IsTopRanking(response.recommendations, Scores(graphRepository.Contents(), user), limit, Tag)
      ensures response.explanation == Explanation
    {
      ghost var g := graphRepository.Contents();
      var userFollowing := graphRepository.GetFollowing(user);
      var candidates := CollectCandidates(graphRepository, user, userFollowing);
      var scores: map<User, real> := map[];
      var rest := candidates;
      while rest != {}
        invariant rest <= candidates && scores.Keys == candidates - rest
        invariant forall c :: c in scores ==> scores[c] == Jaccard(g, user, c)
        decreases rest
      {
        var candidate :| candidate in rest;
        var candidateFollowers := graphRepository.GetFollowers(candidate);
        var intersection := userFollowing * candidateFollowers;
        var union := userFollowing + candidateFollowers;
        var jaccard := if union == {} then 0.0 else |intersection| as real / |union| as real;
        scores := scores[candidate := jaccard];
        rest := rest - {candidate};
      }
      assert scores == Scores(g, user);
      var recommendations := SortAndLimit(scores, limit, Tag);
      response := RecommendationResponse(recommendations, Explanation);
    }
  }
}
