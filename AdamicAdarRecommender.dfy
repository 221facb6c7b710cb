/**
 * Adamic-Adar as the in-memory strategy computes it. For every followed user
 * `friend` and every user `candidate` that `friend` follows (other than the
 * target and the users it already follows), the strategy sums
 * `1 / log(|following(cn)|)` over the users `cn` followed by both the target
 * and the candidate (out-degree at most 1 contributes 0), and merges that
 * whole sum into the candidate's score once per such `friend`.
 *
 * `invLog(d)` stands for `1.0 / Math.log(d)`; only `invLog(d) > 0` for `d > 1`
 * is assumed of it.
 */
module AdamicAdarRecommender {

  import opened Graph
  import opened Sums
  import opened Ranking
  import opened PathScores
  import GraphService

  const Tag: string := "adamic-adar"

  const Explanation: string := "In-memory Adamic-Adar calculation"

  /** What is known of `1 / log(d)`: it is positive for every degree above 1. */
  ghost predicate PositiveAboveOne(invLog: nat -> real)
  {
    forall d: nat :: d > 1 ==> invLog(d) > 0.0
  }

  /** The term of one common neighbour: `1 / log(out-degree)`, or 0 for out-degree at most 1. */
  function Contribution(g: Snapshot, cn: User, invLog: nat -> real): real
  {
    var d := |Following(g, cn)|;
    if d > 1 then invLog(d) else 0.0
  }

  function ContributionOf(g: Snapshot, invLog: nat -> real): User -> real
  {
    cn => Contribution(g, cn, invLog)
  }

  /** A common neighbour contributes nothing negative, and nothing at out-degree at most 1. */
  lemma ContributionRange(g: Snapshot, cn: User, invLog: nat -> real)
    requires PositiveAboveOne(invLog)
    ensures Contribution(g, cn, invLog) >= 0.0
    ensures |Following(g, cn)| <= 1 <==> Contribution(g, cn, invLog) == 0.0
  {
  }

  /** The sum computed on one visit of `c`: over the users both `u` and `c` follow. */
  ghost function PerVisit(g: Snapshot, u: User, c: User, invLog: nat -> real): real
  {
    SetSum(Following(g, u) * Following(g, c), ContributionOf(g, invLog))
  }

  /** As written, every path through a friend adds the whole per-visit sum. */
  ghost function AsWrittenTerm(g: Snapshot, u: User, invLog: nat -> real): Term
  {
    c => f => PerVisit(g, u, c, invLog)
  }

  ghost function Scores(g: Snapshot, u: User, invLog: nat -> real): map<User, real>
  {
    PathScoreMap(g, u, AsWrittenTerm(g, u, invLog))
  }

  /**
   * The score of a candidate is its per-visit sum times the number of
   * followed users that follow it.
   */
  lemma ScoreIsVisitsTimesPerVisit(g: Snapshot, u: User, c: User, invLog: nat -> real)
    requires c in Candidates(g, u)
    ensures Scores(g, u, invLog)[c] == |Following(g, u) * Followers(g, c)| as real * PerVisit(g, u, c, invLog)
  {
    PathScoreAt(g, u, c, AsWrittenTerm(g, u, invLog));
    SumOfPerVisit(g, u, c, invLog);
  }

  lemma SumOfPerVisit(g: Snapshot, u: User, c: User, invLog: nat -> real)
    ensures SetSum(Following(g, u) * Followers(g, c), AsWrittenTerm(g, u, invLog)(c)) ==
      |Following(g, u) * Followers(g, c)| as real * PerVisit(g, u, c, invLog)
  {
    SetSumConstant(Following(g, u) * Followers(g, c), AsWrittenTerm(g, u, invLog)(c), PerVisit(g, u, c, invLog));
  }

  /** Given `invLog(d) > 0` for `d > 1`, every score is non-negative. */
  lemma ScoresNonNegative(g: Snapshot, u: User, invLog: nat -> real)
    requires PositiveAboveOne(invLog)
    ensures forall c :: c in Scores(g, u, invLog) ==> Scores(g, u, invLog)[c] >= 0.0
  {
    forall c, f ensures AsWrittenTerm(g, u, invLog)(c)(f) >= 0.0 {
      forall cn | cn in Following(g, u) * Following(g, c) ensures ContributionOf(g, invLog)(cn) >= 0.0 {
        ContributionRange(g, cn, invLog);
      }
      SetSumNonNegative(Following(g, u) * Following(g, c), ContributionOf(g, invLog));
    }
    PathScoresNonNegative(g, u, AsWrittenTerm(g, u, invLog));
  }

  /**
   * A ranking of these scores holds neither the user nor a user it follows;
   * every entry is followed by some user the target follows and scores at
   * least 0; there are at most `limit` entries.
   */
  lemma RankingExcludesKnownUsers(r: seq<Recommendation>, g: Snapshot, u: User, limit: nat, invLog: nat -> real)
    requires Valid(g) && PositiveAboveOne(invLog) && IsTopRanking(r, Scores(g, u, invLog), limit, Tag)
    ensures |r| <= limit
    ensures forall i :: 0 <= i < |r| ==>
      && r[i].targetUser != u && r[i].targetUser !in Following(g, u)
      && Following(g, u) * Followers(g, r[i].targetUser) != {}
      && r[i].score >= 0.0
  {
    TopRankingBounds(r, Scores(g, u, invLog), limit, Tag);
    ScoresNonNegative(g, u, invLog);
    forall i | 0 <= i < |r| ensures Following(g, u) * Followers(g, r[i].targetUser) != {} {
      CandidatesIff(g, u, r[i].targetUser);
    }
  }

  /** A user that follows nobody, in particular an unknown user, gets no recommendation. */
  lemma NoFollowingNoRecommendations(r: seq<Recommendation>, g: Snapshot, u: User, limit: nat, invLog: nat -> real)
    requires Valid(g) && Following(g, u) == {} && IsTopRanking(r, Scores(g, u, invLog), limit, Tag)
    ensures r == []
  {
    NoFollowingNoCandidates(g, u);
    assert Scores(g, u, invLog).Keys == {};
  }

  /** As written, C or D shares no out-neighbour with A, so scores 0. */
  lemma AsWrittenExampleScore(invLog: nat -> real, c: User)
    requires c == "C" || c == "D"
    ensures c in Scores(Example, "A", invLog) && Scores(Example, "A", invLog)[c] == 0.0
  {
    ExampleNeighbourhoods();
    assert Following(Example, "A") * Following(Example, c) == {};
    ScoreIsVisitsTimesPerVisit(Example, "A", c, invLog);
  }

  /**
   * As written, A -> B, B -> C, B -> D scores C and D 0: neither follows
   * anybody, so A and the candidate have no out-neighbour in common.
   */
  lemma AsWrittenExampleScoresZero(invLog: nat -> real)
    ensures Scores(Example, "A", invLog) == map["C" := 0.0, "D" := 0.0]
  {
    ExampleNeighbourhoods();
    AsWrittenExampleScore(invLog, "C");
    AsWrittenExampleScore(invLog, "D");
    assert Scores(Example, "A", invLog).Keys == {"C", "D"};
  }

  /** The intended rule: a path through `f` adds `f`'s own `1 / log(out-degree)`. */
  ghost function IntendedTerm(g: Snapshot, invLog: nat -> real): Term
  {
    c => f => Contribution(g, f, invLog)
  }

  ghost function IntendedScores(g: Snapshot, u: User, invLog: nat -> real): map<User, real>
  {
    PathScoreMap(g, u, IntendedTerm(g, invLog))
  }

  /**
   * Intended: a candidate scores the sum of `1 / log(out-degree)` over the
   * followed users that follow it, so it scores more than 0 exactly when one
   * of them follows more than one user.
   */
  lemma IntendedScoreIsSumOverIntermediaries(g: Snapshot, u: User, c: User, invLog: nat -> real)
    requires PositiveAboveOne(invLog) && c in Candidates(g, u)
    ensures IntendedScores(g, u, invLog)[c] ==
      SetSum(Following(g, u) * Followers(g, c), ContributionOf(g, invLog))
    ensures IntendedScores(g, u, invLog)[c] >= 0.0
    ensures (exists f :: f in Following(g, u) * Followers(g, c) && |Following(g, f)| > 1) <==>
      IntendedScores(g, u, invLog)[c] > 0.0
  {
    PathScoreAt(g, u, c, IntendedTerm(g, invLog));
    IntendedSum(g, Following(g, u) * Followers(g, c), c, invLog);
  }

  /** Over any set of intermediaries: non-negative, and positive iff one has out-degree above 1. */
  lemma IntendedSum(g: Snapshot, s: set<User>, c: User, invLog: nat -> real)
    requires PositiveAboveOne(invLog)
    ensures SetSum(s, IntendedTerm(g, invLog)(c)) == SetSum(s, ContributionOf(g, invLog))
    ensures SetSum(s, ContributionOf(g, invLog)) >= 0.0
    ensures (exists f :: f in s && |Following(g, f)| > 1) <==> SetSum(s, ContributionOf(g, invLog)) > 0.0
  {
    var h := ContributionOf(g, invLog);
    SetSumCongruent(s, IntendedTerm(g, invLog)(c), h);
    forall cn | cn in s ensures h(cn) >= 0.0 {
      ContributionRange(g, cn, invLog);
    }
    SetSumNonNegative(s, h);
    if exists f :: f in s && |Following(g, f)| > 1 {
      var f :| f in s && |Following(g, f)| > 1;
      SetSumRemove(s, h, f);
      SetSumNonNegative(s - {f}, h);
    } else {
      forall cn | cn in s ensures h(cn) == 0.0 {
        ContributionRange(g, cn, invLog);
      }
      SetSumConstant(s, h, 0.0);
    }
  }

  /** With the intended rule, C or D is reached only through B, which follows two users. */
  lemma IntendedExampleScore(invLog: nat -> real, c: User)
    requires PositiveAboveOne(invLog) && (c == "C" || c == "D")
    ensures c in IntendedScores(Example, "A", invLog) && IntendedScores(Example, "A", invLog)[c] == invLog(2)
  {
    ExampleNeighbourhoods();
    var h := ContributionOf(Example, invLog);
    assert Following(Example, "A") * Followers(Example, c) == {"B"};
    IntendedScoreIsSumOverIntermediaries(Example, "A", c, invLog);
    SetSumAdd({}, h, "B");
    assert {} + {"B"} == {"B"};
    assert |Following(Example, "B")| == 2;
  }

  /** With the intended rule, A -> B, B -> C, B -> D scores C and D 1 / log(2) > 0 each. */
  lemma IntendedExampleScores(invLog: nat -> real)
    requires PositiveAboveOne(invLog)
    ensures IntendedScores(Example, "A", invLog) == map["C" := invLog(2), "D" := invLog(2)]
    ensures invLog(2) > 0.0
  {
    ExampleNeighbourhoods();
    IntendedExampleScore(invLog, "C");
    IntendedExampleScore(invLog, "D");
    assert IntendedScores(Example, "A", invLog).Keys == {"C", "D"};
  }

  class AdamicAdarRecommender {
    const graphService: GraphService.GraphService

    constructor (service: GraphService.GraphService)
      ensures graphService == service
    {
      graphService := service;
    }

    /** The stream sum over the common neighbours, asking the store for each one's following. */
    method SumContributions(commonNeighbors: set<User>, invLog: nat -> real) returns (aaScore: real)
      requires graphService.graphRepository.Valid()
      ensures aaScore == SetSum(commonNeighbors, ContributionOf(graphService.graphRepository.Contents(), invLog))
    {
      ghost var h := ContributionOf(graphService.graphRepository.Contents(), invLog);
      aaScore := 0.0;
      var rest := commonNeighbors;
      while rest != {}
        invariant rest <= commonNeighbors
        invariant aaScore + SetSum(rest, h) == SetSum(commonNeighbors, h)
        decreases rest
      {
        var cn :| cn in rest;
        SetSumRemove(rest, h, cn);
        var cnFollowing := graphService.GetFollowing(cn);
        var cnFollowingSize := |cnFollowing|;
        aaScore := aaScore + if cnFollowingSize > 1 then invLog(cnFollowingSize) else 0.0;
        rest := rest - {cn};
      }
    }

    /** The per-visit sum of one candidate: over the users both it and the target follow. */
    method ScoreCandidate(user: User, userFollowing: set<User>, friend: User, candidate: User, invLog: nat -> real)
      returns (aaScore: real)
      requires graphService.graphRepository.Valid()
      requires userFollowing == Following(graphService.graphRepository.Contents(), user)
      ensures aaScore == PerVisit(graphService.graphRepository.Contents(), user, candidate, invLog)
      ensures aaScore == AsWrittenTerm(graphService.graphRepository.Contents(), user, invLog)(candidate)(friend)
    {
      var candidateFollowing := graphService.GetFollowing(candidate);
      var commonNeighbors := userFollowing * candidateFollowing;
      aaScore := SumContributions(commonNeighbors, invLog);
    }

    /**
     * The candidate loop of one friend: every eligible user `friend` follows
     * has its per-visit sum merged into its score.
     */
    method MergeFriend(user: User, userFollowing: set<User>, friend: User, scores0: map<User, real>,
                       invLog: nat -> real, ghost done: set<User>) returns (scores: map<User, real>)
      requires graphService.graphRepository.Valid()
      requires userFollowing == Following(graphService.graphRepository.Contents(), user)
      requires friend in userFollowing && friend !in done
      requires Accumulated(graphService.graphRepository.Contents(), user, done, scores0,
                           AsWrittenTerm(graphService.graphRepository.Contents(), user, invLog))
      ensures Accumulated(graphService.graphRepository.Contents(), user, done + {friend}, scores,
                          AsWrittenTerm(graphService.graphRepository.Contents(), user, invLog))
    {
      ghost var g := graphService.graphRepository.Contents();
      ghost var term := AsWrittenTerm(g, user, invLog);
      var friendFollowing := graphService.GetFollowing(friend);
      StartFriend(g, user, done, friend, scores0, term);
      scores := scores0;
      var rest := friendFollowing;
      ghost var visited: set<User> := {};
      while rest != {}
        invariant rest <= friendFollowing && visited == friendFollowing - rest
        invariant AccumulatedPartly(g, user, done, friend, visited, scores, term)
        decreases rest
      {
        var candidate :| candidate in rest;
        if candidate != user && candidate !in userFollowing {
          var aaScore := ScoreCandidate(user, userFollowing, friend, candidate, invLog);
          VisitStep(g, user, userFollowing, done, friend, visited, scores, term, candidate, aaScore);
          scores := Merge(scores, candidate, aaScore);
        } else {
          VisitStep(g, user, userFollowing, done, friend, visited, scores, term, candidate, term(candidate)(friend));
        }
        MoveOne(friendFollowing, rest, visited, candidate);
        rest := rest - {candidate};
        visited := visited + {candidate};
      }
      FinishFriend(g, user, done, friend, scores, term);
    }

    /** The nested friend and candidate loops, merging one per-visit sum per path. */
    method Recommend(user: User, limit: nat, invLog: nat -> real) returns (response: RecommendationResponse)
      requires graphService.graphRepository.Valid()
      ensures IsTopRanking(response.recommendations, Scores(graphService.graphRepository.Contents(), user, invLog), limit, Tag)
      ensures response.explanation == Explanation
    {
      ghost var g := graphService.graphRepository.Contents();
      ghost var term := AsWrittenTerm(g, user, invLog);
      var userFollowing := graphService.GetFollowing(user);
      var scores: map<User, real> := map[];
      var friends := userFollowing;
      ghost var done: set<User> := {};
      AccumulatedEmpty(g, user, term);
      while friends != {}
        invariant friends <= userFollowing && done == userFollowing - friends
        invariant Accumulated(g, user, done, scores, term)
        decreases friends
      {
        var friend :| friend in friends;
        scores := MergeFriend(user, userFollowing, friend, scores, invLog, done);
        friends := friends - {friend};
        done := done + {friend};
      }
      assert done == userFollowing;
      AccumulatedAll(g, user, done, scores, term);
      assert scores == Scores(g, user, invLog);
      var recommendations := SortAndLimit(scores, limit, Tag);
      response := RecommendationResponse(recommendations, Explanation);
    }

    /** The corrected candidate loop of one friend: it merges `friend`'s own term. */
    method MergeFriendIntended(user: User, userFollowing: set<User>, friend: User, scores0: map<User, real>,
                               invLog: nat -> real, ghost done: set<User>) returns (scores: map<User, real>)
      requires graphService.graphRepository.Valid()
      requires userFollowing == Following(graphService.graphRepository.Contents(), user)
      requires friend in userFollowing && friend !in done
      requires Accumulated(graphService.graphRepository.Contents(), user, done, scores0,
                           IntendedTerm(graphService.graphRepository.Contents(), invLog))
      ensures Accumulated(graphService.graphRepository.Contents(), user, done + {friend}, scores,
                          IntendedTerm(graphService.graphRepository.Contents(), invLog))
    {
      ghost var g := graphService.graphRepository.Contents();
      ghost var term := IntendedTerm(g, invLog);
      var friendFollowing := graphService.GetFollowing(friend);
      var friendFollowingSize := |friendFollowing|;
      var contribution := if friendFollowingSize > 1 then invLog(friendFollowingSize) else 0.0;
      StartFriend(g, user, done, friend, scores0, term);
      scores := scores0;
      var rest := friendFollowing;
      ghost var visited: set<User> := {};
      while rest != {}
        invariant rest <= friendFollowing && visited == friendFollowing - rest
        invariant AccumulatedPartly(g, user, done, friend, visited, scores, term)
        decreases rest
      {
        var candidate :| candidate in rest;
        VisitStep(g, user, userFollowing, done, friend, visited, scores, term, candidate, contribution);
        if candidate != user && candidate !in userFollowing {
          scores := Merge(scores, candidate, contribution);
        }
        MoveOne(friendFollowing, rest, visited, candidate);
        rest := rest - {candidate};
        visited := visited + {candidate};
      }
      FinishFriend(g, user, done, friend, scores, term);
    }

    /** The corrected recommender: the same walk, one intermediary's term per path. */
    method RecommendIntended(user: User, limit: nat, invLog: nat -> real) returns (response: RecommendationResponse)
      requires graphService.graphRepository.Valid()
      ensures IsTopRanking(response.recommendations, IntendedScores(graphService.graphRepository.Contents(), user, invLog), limit, Tag)
      ensures response.explanation == Explanation
    {
      ghost var g := graphService.graphRepository.Contents();
      ghost var term := IntendedTerm(g, invLog);
      var userFollowing := graphService.GetFollowing(user);
      var scores: map<User, real> := map[];
      var friends := userFollowing;
      ghost var done: set<User> := {};
      AccumulatedEmpty(g, user, term);
      while friends != {}
        invariant friends <= userFollowing && done == userFollowing - friends
        invariant Accumulated(g, user, done, scores, term)
        decreases friends
      {
        var friend :| friend in friends;
        scores := MergeFriendIntended(user, userFollowing, friend, scores, invLog, done);
        friends := friends - {friend};
        done := done + {friend};
      }
      assert done == userFollowing;
      AccumulatedAll(g, user, done, scores, term);
      assert scores == IntendedScores(g, user, invLog);
      var recommendations := SortAndLimit(scores, limit, Tag);
      response := RecommendationResponse(recommendations, Explanation);
    }
  }
}
