/**
 * Scores accumulated along two-hop paths. Several recommenders walk every
 * followed user `f` and, for every user `c` that `f` follows (other than the
 * target and the users it already follows), merge an amount `term(c)(f)` into
 * the score of `c`. After the walk the score of `c` is the sum of that amount
 * over the followed users that follow `c`.
 */
module PathScores {

  import opened Graph
  import opened Sums

  /** The amount a path through `f` adds to candidate `c`: `term(c)(f)`. */
  type Term = User -> User -> real

  /** The sum over the followed users in `done` that follow `c`. */
  ghost function PathSum(g: Snapshot, done: set<User>, c: User, term: Term): real
  {
    SetSum(done * Followers(g, c), term(c))
  }

  /** The scores once every followed user has been walked, one per candidate. */
  ghost function PathScoreMap(g: Snapshot, u: User, term: Term): map<User, real>
  {
    map c | c in Candidates(g, u) :: PathSum(g, Following(g, u), c, term)
  }

  /** The score of one candidate after the whole walk. */
  lemma PathScoreAt(g: Snapshot, u: User, c: User, term: Term)
    requires c in Candidates(g, u)
    ensures c in PathScoreMap(g, u, term)
    ensures PathScoreMap(g, u, term)[c] == SetSum(Following(g, u) * Followers(g, c), term(c))
  {
  }

  /** The users a walk of `done` has scored: vertices, not the user, not followed, reached. */
  ghost predicate Eligible(g: Snapshot, u: User, c: User)
  {
    c in g.vertices && c != u && c !in Following(g, u)
  }

  /** The scores after walking the followed users in `done`. */
  ghost predicate Accumulated(g: Snapshot, u: User, done: set<User>, scores: map<User, real>, term: Term)
  {
    && (forall c :: c in scores <==> Eligible(g, u, c) && done * Followers(g, c) != {})
    && (forall c :: c in scores ==> scores[c] == PathSum(g, done, c, term))
  }

  /**
   * The scores in the middle of walking `friend`: the users in `visited`
   * (already taken from `friend`'s following) have received `friend`'s amount.
   */
  ghost predicate AccumulatedPartly(g: Snapshot, u: User, done: set<User>, friend: User,
                                    visited: set<User>, scores: map<User, real>, term: Term)
  {
    && (forall c :: c in scores <==> Eligible(g, u, c) && (done * Followers(g, c) != {} || c in visited))
    && (forall c :: c in scores ==>
          scores[c] == PathSum(g, done, c, term) + if c in visited then term(c)(friend) else 0.0)
  }

  /** Nothing walked, nothing scored. */
  lemma AccumulatedEmpty(g: Snapshot, u: User, term: Term)
    ensures Accumulated(g, u, {}, map[], term)
  {
  }

  /** Starting on a friend changes nothing yet. */
  lemma StartFriend(g: Snapshot, u: User, done: set<User>, friend: User, scores: map<User, real>, term: Term)
    requires Accumulated(g, u, done, scores, term)
    ensures AccumulatedPartly(g, u, done, friend, {}, scores, term)
  {
  }

  /** What `scores.merge(c, x, Double::sum)` and `put(c, getOrDefault(c, 0.0) + x)` do. */
  function Merge(scores: map<User, real>, c: User, x: real): (r: map<User, real>)
    ensures r.Keys == scores.Keys + {c}
    ensures r[c] == (if c in scores then scores[c] else 0.0) + x
    ensures forall d :: d in scores && d != c ==> r[d] == scores[d]
  {
    scores[c := (if c in scores then scores[c] else 0.0) + x]
  }

  /**
   * One user `c` that `friend` follows: an eligible one has `friend`'s amount
   * merged into its score; any other one is skipped.
   */
  lemma MergeStep(g: Snapshot, u: User, done: set<User>, friend: User, visited: set<User>,
                  scores: map<User, real>, term: Term, c: User)
    requires Valid(g) && c in Following(g, friend) && c !in visited
    requires AccumulatedPartly(g, u, done, friend, visited, scores, term)
    ensures Eligible(g, u, c) ==>
      AccumulatedPartly(g, u, done, friend, visited + {c}, Merge(scores, c, term(c)(friend)), term)
    ensures !Eligible(g, u, c) ==>
      AccumulatedPartly(g, u, done, friend, visited + {c}, scores, term)
  {
    if Eligible(g, u, c) {
      var r := Merge(scores, c, term(c)(friend));
      forall d | d in r
        ensures r[d] == PathSum(g, done, d, term) + if d in visited + {c} then term(d)(friend) else 0.0
      {
        if d == c && c !in scores {
          assert done * Followers(g, c) == {};
          assert PathSum(g, done, c, term) == 0.0;
        }
      }
    }
  }

  /**
   * The step as the loops write it: a user `c` that `friend` follows, other
   * than the user and the users it follows, gets `x`, the amount of the path
   * through `friend`, merged into its score.
   */
  lemma VisitStep(g: Snapshot, u: User, userFollowing: set<User>, done: set<User>, friend: User,
                  visited: set<User>, scores: map<User, real>, term: Term, c: User, x: real)
    requires Valid(g) && userFollowing == Following(g, u)
    requires c in Following(g, friend) && c !in visited && x == term(c)(friend)
    requires AccumulatedPartly(g, u, done, friend, visited, scores, term)
    ensures AccumulatedPartly(g, u, done, friend, visited + {c},
      if c != u && c !in userFollowing then Merge(scores, c, x) else scores, term)
  {
    MergeStep(g, u, done, friend, visited, scores, term, c);
  }

  /** Moving one element from the rest to the visited part keeps the split of `all`. */
  lemma MoveOne(all: set<User>, rest: set<User>, visited: set<User>, x: User)
    requires rest <= all && visited == all - rest && x in rest
    ensures rest - {x} <= all && visited + {x} == all - (rest - {x})
  {
  }

  /** The sum over `done + {f}` adds `f`'s amount exactly when `f` follows `c`. */
  lemma PathSumAdd(g: Snapshot, done: set<User>, f: User, c: User, term: Term)
    requires Valid(g) && f !in done && f in g.vertices
    ensures PathSum(g, done + {f}, c, term) ==
      PathSum(g, done, c, term) + if c in Following(g, f) then term(c)(f) else 0.0
    ensures (done + {f}) * Followers(g, c) != {} <==> done * Followers(g, c) != {} || c in Following(g, f)
  {
    var s := done * Followers(g, c);
    if c in Following(g, f) {
      assert (done + {f}) * Followers(g, c) == s + {f};
      SetSumAdd(s, term(c), f);
    } else {
      assert (done + {f}) * Followers(g, c) == s;
    }
  }

  /** Once all of `friend`'s following is visited, `friend` counts as walked. */
  lemma FinishFriend(g: Snapshot, u: User, done: set<User>, friend: User, scores: map<User, real>, term: Term)
    requires Valid(g) && friend !in done && friend in g.vertices
    requires AccumulatedPartly(g, u, done, friend, Following(g, friend), scores, term)
    ensures Accumulated(g, u, done + {friend}, scores, term)
  {
    forall c ensures c in scores <==> Eligible(g, u, c) && (done + {friend}) * Followers(g, c) != {} {
      PathSumAdd(g, done, friend, c, term);
    }
    forall c | c in scores ensures scores[c] == PathSum(g, done + {friend}, c, term) {
      PathSumAdd(g, done, friend, c, term);
    }
  }

  /** Walking every followed user yields the path-score map over the candidates. */
  lemma AccumulatedAll(g: Snapshot, u: User, done: set<User>, scores: map<User, real>, term: Term)
    requires Valid(g) && done == Following(g, u) && Accumulated(g, u, done, scores, term)
    ensures scores == PathScoreMap(g, u, term)
  {
    forall c ensures c in scores <==> c in Candidates(g, u) {
      CandidatesIff(g, u, c);
    }
    assert scores.Keys == PathScoreMap(g, u, term).Keys;
  }

  /** Non-negative amounts give non-negative scores. */
  lemma PathScoresNonNegative(g: Snapshot, u: User, term: Term)
    requires forall c, f :: term(c)(f) >= 0.0
    ensures forall c :: c in PathScoreMap(g, u, term) ==> PathScoreMap(g, u, term)[c] >= 0.0
  {
    forall c | c in PathScoreMap(g, u, term) ensures PathScoreMap(g, u, term)[c] >= 0.0 {
      SetSumNonNegative(Following(g, u) * Followers(g, c), term(c));
    }
  }
}
