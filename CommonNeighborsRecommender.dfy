/**
 * Common Neighbours: a candidate scores the number of followed users that
 * follow it.
 */
module CommonNeighborsRecommender {

  import opened Wrappers
  import opened Graph
  import opened Ranking
  import opened InMemoryGraphRepository
  import opened CandidateCollection

  const Tag: string := "common_neighbors_in_memory"

  const Explanation: string := "In-memory Common Neighbors calculation"

  /** The followed users that also follow `c`. */
  function Overlap(g: Snapshot, u: User, c: User): set<User>
  {
    Following(g, u) * Followers(g, c)
  }

  /** The score of every candidate: the size of its overlap. */
  function Scores(g: Snapshot, u: User): map<User, real>
  {
    map c | c in Candidates(g, u) :: |Overlap(g, u, c)| as real
  }

  /** Every candidate was reached through some followed user, so it scores at least 1. */
  lemma ScoresAtLeastOne(g: Snapshot, u: User)
    requires Valid(g)
    ensures forall c :: c in Scores(g, u) ==> Scores(g, u)[c] >= 1.0
  {
    forall c | c in Scores(g, u) ensures Scores(g, u)[c] >= 1.0 {
      CandidatesIff(g, u, c);
      assert Overlap(g, u, c) != {};
    }
  }

  /**
   * A ranking of these scores never holds the user or a user it follows, every
   * entry scores at least 1, and there are at most `limit` entries.
   */
  lemma RankingExcludesKnownUsers(r: seq<Recommendation>, g: Snapshot, u: User, limit: nat)
    requires Valid(g) && IsTopRanking(r, Scores(g, u), limit, Tag)
    ensures |r| <= limit
    ensures forall i :: 0 <= i < |r| ==>
      r[i].targetUser != u && r[i].targetUser !in Following(g, u) && r[i].score >= 1.0
  {
    TopRankingBounds(r, Scores(g, u), limit, Tag);
    ScoresAtLeastOne(g, u);
  }

  /** A user that follows nobody, in particular an unknown user, gets no recommendation. */
  lemma NoFollowingNoRecommendations(r: seq<Recommendation>, g: Snapshot, u: User, limit: nat)
    requires Valid(g) && Following(g, u) == {} && IsTopRanking(r, Scores(g, u), limit, Tag)
    ensures r == []
  {
    NoFollowingNoCandidates(g, u);
    assert Scores(g, u) == map[];
  }

  /** A -> B, B -> C, B -> D: C and D score 1 each. */
  lemma ExampleScores()
    ensures Scores(Example, "A") == map["C" := 1.0, "D" := 1.0]
  {
    ExampleNeighbourhoods();
    assert Overlap(Example, "A", "C") == {"B"};
    assert Overlap(Example, "A", "D") == {"B"};
  }

  class CommonNeighborsRecommender {
    const graphRepository: Repository

    constructor (repository: Repository)
      ensures graphRepository == repository
    {
      graphRepository := repository;
    }

    /** Collects the candidates, scores each by its overlap, sorts and keeps `limit`. */
    method Recommend(user: User, limit: nat) returns (response: RecommendationResponse)
      requires graphRepository.Valid()
      ensures IsTopRanking(response.recommendations, Scores(graphRepository.Contents(), user), limit, Tag)
      ensures response.explanation == Explanation
    {
      ghost var g := graphRepository.Contents();
      var userFollowing := graphRepository.GetFollowing(user);
      var candidates := CollectCandidates(graphRepository, user, userFollowing);
      var scores: map<User, real> := map[];
      var rest := candidates;
      while rest != {}
        invariant rest <= candidates && scores.Keys == candidates - rest
        invariant forall c :: c in scores ==> scores[c] == |Overlap(g, user, c)| as real
        decreases rest
      {
        var candidate :| candidate in rest;
        var candidateFollowers := graphRepository.GetFollowers(candidate);
        var intersection := userFollowing * candidateFollowers;
        scores := scores[candidate := |intersection| as real];
        rest := rest - {candidate};
      }
      assert scores == Scores(g, user);
      var recommendations := SortAndLimit(scores, limit, Tag);
      response := RecommendationResponse(recommendations, Explanation);
    }
  }
}
