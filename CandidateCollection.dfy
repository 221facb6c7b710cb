/**
 * The candidate stream shared by the neighbourhood recommenders: the
 * following of every followed user, flattened, minus the target and the users
 * it already follows, collected into a set.
 */
module CandidateCollection {

  import opened Graph
  import opened InMemoryGraphRepository

  method CollectCandidates(repo: Repository, user: User, userFollowing: set<User>) returns (candidates: set<User>)
    requires repo.Valid() && userFollowing == Following(repo.Contents(), user)
    ensures candidates == Candidates(repo.Contents(), user)
  {
    ghost var g := repo.Contents();
    candidates := {};
    var rest := userFollowing;
    ghost var done: set<User> := {};
    ReachedViaNone(g, user);
    while rest != {}
      invariant rest <= userFollowing && done == userFollowing - rest
      invariant candidates == ReachedVia(g, user, done)
      decreases rest
    {
      var f :| f in rest;
      var friendFollowing := repo.GetFollowing(f);
      ReachedViaStep(g, user, done, f);
      candidates := candidates + set c | c in friendFollowing && c != user && c !in userFollowing;
      rest := rest - {f};
      done := done + {f};
    }
    ReachedViaAllIsCandidates(g, user);
  }
}
