/**
 * The older graph service that owns its own simple directed weighted graph:
 * edge upsert, user registration and a weighted two-hop recommender that
 * returns every candidate, best first, without scores and without a limit.
 */
module LegacyGraphService {

  import opened Graph
  import opened Sums
  import opened Ranking
  import opened PathScores

  /** A path through `f` adds the weight of the edge f -> c. */
  function WeightTerm(g: Snapshot): Term
  {
    c => f => Weight(g, f, c)
  }

  /** The score of every candidate: the summed weights of its edges from followed users. */
  ghost function Scores(g: Snapshot, u: User): map<User, real>
  {
    PathScoreMap(g, u, WeightTerm(g))
  }

  /** A candidate's score is the sum of the weights f -> c over the followed users `f`. */
  lemma ScoreIsWeightSum(g: Snapshot, u: User, c: User)
    requires c in Candidates(g, u)
    ensures c in Scores(g, u)
    ensures Scores(g, u)[c] == SetSum(Following(g, u) * Followers(g, c), WeightTerm(g)(c))
  {
    PathScoreAt(g, u, c, WeightTerm(g));
  }

  /** Non-negative edge weights give non-negative scores. */
  lemma ScoresNonNegative(g: Snapshot, u: User)
    requires forall e :: e in g.w ==> g.w[e] >= 0.0
    ensures forall c :: c in Scores(g, u) ==> Scores(g, u)[c] >= 0.0
  {
    PathScoresNonNegative(g, u, WeightTerm(g));
  }

  /**
   * What `addOrUpdateEdge` does as written: both endpoints are added; a loop
   * is refused; for a new pair the edge is created (weight 1.0) and given
   * `x`; for an existing pair `addEdge` returns null, so the weight is not
   * written and the call fails.
   */
  function LegacyUpsert(g: Snapshot, a: User, b: User, x: real): (Snapshot, bool)
  {
    var h := Snapshot(g.vertices + {a, b}, g.w);
    if a == b || (a, b) in g.w then (h, false)
    else (Snapshot(h.vertices, h.w[(a, b) := x]), true)
  }

  /** As written, re-adding an existing pair keeps its old weight and fails. */
  lemma LegacyUpsertKeepsOldWeight(g: Snapshot, a: User, b: User, x: real)
    requires (a, b) in g.w
    ensures !LegacyUpsert(g, a, b, x).1
    ensures Weight(LegacyUpsert(g, a, b, x).0, a, b) == Weight(g, a, b)
  {
  }

  /** A new pair is upserted as intended. */
  lemma LegacyUpsertOfNewPair(g: Snapshot, a: User, b: User, x: real)
    requires a != b && (a, b) !in g.w
    ensures LegacyUpsert(g, a, b, x) == (Upsert(g, a, b, x), true)
  {
  }

  /** A -> B at 1.0, then A -> B at 2.0: the weight stays 1.0 instead of becoming 2.0. */
  lemma LegacyUpdateIsLost()
    ensures var first := LegacyUpsert(Empty, "A", "B", 1.0);
      var second := LegacyUpsert(first.0, "A", "B", 2.0);
      first.1 && !second.1 && Weight(second.0, "A", "B") == 1.0
      && Weight(Upsert(first.0, "A", "B", 2.0), "A", "B") == 2.0
  {
  }

  /** The users of a ranking, in order. */
  function TargetUsers(ranked: seq<Recommendation>): (users: seq<User>)
    ensures |users| == |ranked|
    ensures forall i :: 0 <= i < |ranked| ==> users[i] == ranked[i].targetUser
  {
    seq(|ranked|, i requires 0 <= i < |ranked| => ranked[i].targetUser)
  }

  /** The users of a full sorted ranking are every key once, best first. */
  ghost predicate IsFullRanking(users: seq<User>, scores: map<User, real>)
  {
    && |users| == |scores|
    && (forall i :: 0 <= i < |users| ==> users[i] in scores)
    && (forall s :: s in scores ==> s in users)
    && (forall i, j :: 0 <= i < j < |users| ==> users[i] != users[j])
    && (forall i, j :: 0 <= i < j < |users| ==> scores[users[i]] >= scores[users[j]])
  }

  lemma TargetUsersOfSorted(ranked: seq<Recommendation>, scores: map<User, real>, tag: string)
    requires |ranked| == |scores| && Targets(ranked) == scores.Keys
    requires SortedDesc(ranked) && DistinctTargets(ranked) && EntriesFrom(ranked, scores, tag)
    ensures IsFullRanking(TargetUsers(ranked), scores)
  {
    var users := TargetUsers(ranked);
    forall s | s in scores ensures s in users {
      assert s in Targets(ranked);
      var i :| 0 <= i < |ranked| && ranked[i].targetUser == s;
      assert users[i] == s;
    }
  }

  class GraphService {
    var vertices: set<User>
    var w: map<Edge, real>

    ghost predicate Valid()
      reads this
    {
      Graph.Valid(Snapshot(vertices, w))
    }

    function Contents(): Snapshot
      reads this
    {
      Snapshot(vertices, w)
    }

    constructor ()
      ensures Valid() && Contents() == Empty
    {
      vertices := {};
      w := map[];
    }

    /** Adds both endpoints, then sets the weight of the edge `addEdge` returns. */
    method AddOrUpdateEdge(from: User, to: User, weight: real) returns (ok: bool)
      requires Valid()
      modifies this
      ensures Valid()
      ensures (Contents(), ok) == LegacyUpsert(old(Contents()), from, to, weight)
    {
      vertices := vertices + {from};
      vertices := vertices + {to};
      assert vertices == old(vertices) + {from, to};
      if from == to || (from, to) in w {
        return false;
      }
      w := w[(from, to) := 1.0];
      w := w[(from, to) := weight];
      assert w == old(w)[(from, to) := weight];
      ok := true;
    }

    method AddUser(user: User)
      requires Valid()
      modifies this
      ensures Valid() && Contents() == AddVertex(old(Contents()), user)
    {
      vertices := vertices + {user};
    }

    /** The outgoing edges of one friend: each eligible target gets the edge's weight added. */
    method MergeFriend(user: User, userFollowings: set<User>, friend: User, scores0: map<User, real>,
                       ghost done: set<User>) returns (scores: map<User, real>)
      requires Valid() && userFollowings == Following(Contents(), user)
      requires friend in userFollowings && friend !in done
      requires Accumulated(Contents(), user, done, scores0, WeightTerm(Contents()))
      ensures Accumulated(Contents(), user, done + {friend}, scores, WeightTerm(Contents()))
    {
      ghost var g := Contents();
      ghost var term := WeightTerm(g);
      var targets := set b | b in vertices && (friend, b) in w;
      StartFriend(g, user, done, friend, scores0, term);
      scores := scores0;
      var rest := targets;
      ghost var visited: set<User> := {};
      while rest != {}
        invariant rest <= targets && visited == targets - rest
        invariant AccumulatedPartly(g, user, done, friend, visited, scores, term)
        decreases rest
      {
        var suggestion :| suggestion in rest;
        VisitStep(g, user, userFollowings, done, friend, visited, scores, term, suggestion, w[(friend, suggestion)]);
        if suggestion != user && suggestion !in userFollowings {
          scores := Merge(scores, suggestion, w[(friend, suggestion)]);
        }
        MoveOne(targets, rest, visited, suggestion);
        rest := rest - {suggestion};
        visited := visited + {suggestion};
      }
      FinishFriend(g, user, done, friend, scores, term);
    }

    /**
     * Every candidate once, by non-increasing summed weight; nothing for a
     * user that is not a vertex.
     */
    method Recommend(user: User) returns (suggestions: seq<User>)
      requires Valid()
      ensures user !in vertices ==> suggestions == []
      ensures IsFullRanking(suggestions, Scores(Contents(), user))
    {
      ghost var g := Contents();
      ghost var term := WeightTerm(g);
      if user !in vertices {
        UnknownUserIsIsolated(g, user);
        NoFollowingNoCandidates(g, user);
        assert Scores(g, user) == map[];
        return [];
      }
      var userFollowings := set b | b in vertices && (user, b) in w;
      var scores: map<User, real> := map[];
      var friends := userFollowings;
      ghost var done: set<User> := {};
      AccumulatedEmpty(g, user, term);
      while friends != {}
        invariant friends <= userFollowings && done == userFollowings - friends
        invariant Accumulated(g, user, done, scores, term)
        decreases friends
      {
        var friend :| friend in friends;
        scores := MergeFriend(user, userFollowings, friend, scores, done);
        friends := friends - {friend};
        done := done + {friend};
      }
      assert done == userFollowings;
      AccumulatedAll(g, user, done, scores, term);
      assert scores == Scores(g, user);
      var ranked := SortByScore(scores, "");
      TargetUsersOfSorted(ranked, scores, "");
      suggestions := TargetUsers(ranked);
    }
  }
}
