/**
 * The directed, edge-weighted "follows" graph as a value: a vertex set and at
 * most one weight per ordered pair of users. Every store and every recommender
 * is stated over this snapshot.
 */
module Graph {

  type User = string

  type Edge = (User, User)

  datatype Snapshot = Snapshot(vertices: set<User>, w: map<Edge, real>)

  /** One exported edge: (from, to, weight). */
  datatype EdgeRecord = EdgeRecord(from: User, to: User, weight: real)

  function Key(r: EdgeRecord): Edge
  {
    (r.from, r.to)
  }

  const Empty: Snapshot := Snapshot({}, map[])

  /**
   * Every edge joins two vertices, and no edge is a loop: the in-memory store
   * is a simple directed graph, which refuses an edge from a user to itself.
   */
  ghost predicate Valid(g: Snapshot)
  {
    forall e :: e in g.w ==> e.0 in g.vertices && e.1 in g.vertices && e.0 != e.1
  }

  /** Outgoing neighbours: the users `u` follows. */
  function Following(g: Snapshot, u: User): set<User>
  {
    set b | b in g.vertices && (u, b) in g.w
  }

  /** Incoming neighbours: the users that follow `u`. */
  function Followers(g: Snapshot, u: User): set<User>
  {
    set a | a in g.vertices && (a, u) in g.w
  }

  /** The stored weight of (a, b), or 0.0 when there is no such edge. */
  function Weight(g: Snapshot, a: User, b: User): real
  {
    if (a, b) in g.w then g.w[(a, b)] else 0.0
  }

  function AddVertex(g: Snapshot, u: User): Snapshot
  {
    Snapshot(g.vertices + {u}, g.w)
  }

  /** Adds both endpoints, then creates the edge or overwrites its weight. */
  function Upsert(g: Snapshot, a: User, b: User, x: real): Snapshot
  {
    Snapshot(g.vertices + {a, b}, g.w[(a, b) := x])
  }

  /** Removes a vertex together with every edge that touches it. */
  function RemoveVertex(g: Snapshot, v: User): (r: Snapshot)
    requires Valid(g)
    ensures Valid(r) && r.vertices == g.vertices - {v}
    ensures forall e :: e in r.w <==> e in g.w && e.0 != v && e.1 != v
    ensures forall e :: e in r.w ==> r.w[e] == g.w[e]
  {
    Snapshot(g.vertices - {v}, map e | e in g.w && e.0 != v && e.1 != v :: g.w[e])
  }

  /** The users reached by following one edge out of a followed user. */
  function TwoHopOut(g: Snapshot, u: User): set<User>
  {
    set f, c | f in Following(g, u) && c in Following(g, f) :: c
  }

  /**
   * Candidates of the neighbourhood recommenders: two hops out, minus the
   * user, minus the users the user already follows.
   */
  function Candidates(g: Snapshot, u: User): set<User>
  {
    set c | c in TwoHopOut(g, u) && c != u && c !in Following(g, u)
  }

  /**
   * The candidates reached through the followed users in `done`; equal to
   * `Candidates` once `done` is the whole following set.
   */
  ghost function ReachedVia(g: Snapshot, u: User, done: set<User>): set<User>
  {
    set c | c in g.vertices && c != u && c !in Following(g, u) && done * Followers(g, c) != {}
  }

  /** In a valid graph, b is followed by a exactly when a follows b. */
  lemma FollowingFollowersDual(g: Snapshot, a: User, b: User)
    requires Valid(g)
    ensures b in Following(g, a) <==> (a, b) in g.w
    ensures a in Followers(g, b) <==> (a, b) in g.w
  {
  }

  /** A user that is not a vertex follows nobody and has no followers. */
  lemma UnknownUserIsIsolated(g: Snapshot, u: User)
    requires Valid(g) && u !in g.vertices
    ensures Following(g, u) == {} && Followers(g, u) == {}
  {
  }

  /**
   * After an upsert both endpoints are vertices, the pair carries the new
   * weight, and every other pair keeps its edge and its weight.
   */
  lemma UpsertSetsWeight(g: Snapshot, a: User, b: User, x: real)
    requires Valid(g) && a != b
    ensures var h := Upsert(g, a, b, x);
      && Valid(h)
      && a in h.vertices && b in h.vertices
      && (a, b) in h.w && Weight(h, a, b) == x
      && (forall e :: e != (a, b) ==> (e in h.w <==> e in g.w))
      && (forall e :: e in g.w && e != (a, b) ==> h.w[e] == g.w[e])
      && h.w.Keys == g.w.Keys + {(a, b)}
  {
  }

  /** Re-adding an existing pair adds no edge: the edge count is unchanged. */
  lemma UpsertExistingKeepsEdgeCount(g: Snapshot, a: User, b: User, x: real)
    requires (a, b) in g.w
    ensures |Upsert(g, a, b, x).w| == |g.w|
  {
    assert Upsert(g, a, b, x).w.Keys == g.w.Keys;
  }

  /** Upserting the same pair twice with the same weight is the same as once. */
  lemma UpsertIdempotent(g: Snapshot, a: User, b: User, x: real)
    ensures Upsert(Upsert(g, a, b, x), a, b, x) == Upsert(g, a, b, x)
  {
  }

  /** Adding a user is idempotent and leaves every edge alone. */
  lemma AddVertexIdempotent(g: Snapshot, u: User)
    requires Valid(g)
    ensures AddVertex(AddVertex(g, u), u) == AddVertex(g, u)
    ensures Valid(AddVertex(g, u)) && AddVertex(g, u).w == g.w
  {
  }

  /** A valid graph with no vertices has no edges. */
  lemma NoVerticesNoEdges(g: Snapshot)
    requires Valid(g) && g.vertices == {}
    ensures g.w == map[]
  {
    assert forall e :: e !in g.w;
    assert g.w.Keys == {};
  }

  /** Membership in the two-hop set: reached from some followed user. */
  lemma TwoHopOutIff(g: Snapshot, u: User, c: User)
    ensures c in TwoHopOut(g, u) <==> exists f :: f in Following(g, u) && c in Following(g, f)
  {
    if exists f :: f in Following(g, u) && c in Following(g, f) {
      var f :| f in Following(g, u) && c in Following(g, f);
      assert c in TwoHopOut(g, u);
    }
  }

  /**
   * A candidate is exactly a vertex other than the user, not yet followed,
   * that at least one followed user follows.
   */
  lemma CandidatesIff(g: Snapshot, u: User, c: User)
    requires Valid(g)
    ensures c in Candidates(g, u) <==>
      c in g.vertices && c != u && c !in Following(g, u) && Following(g, u) * Followers(g, c) != {}
  {
    TwoHopOutIff(g, u, c);
    if c in Candidates(g, u) {
      var f :| f in Following(g, u) && c in Following(g, f);
      assert f in Following(g, u) * Followers(g, c);
    }
    if c in g.vertices && c != u && c !in Following(g, u) && Following(g, u) * Followers(g, c) != {} {
      var f :| f in Following(g, u) * Followers(g, c);
      assert c in Following(g, f);
    }
  }

  /** Reaching through every followed user yields exactly the candidates. */
  lemma ReachedViaAllIsCandidates(g: Snapshot, u: User)
    requires Valid(g)
    ensures ReachedVia(g, u, Following(g, u)) == Candidates(g, u)
  {
    forall c ensures c in ReachedVia(g, u, Following(g, u)) <==> c in Candidates(g, u) {
      CandidatesIff(g, u, c);
    }
  }

  /** A user that follows nobody, in particular an unknown user, has no candidates. */
  lemma NoFollowingNoCandidates(g: Snapshot, u: User)
    requires Valid(g) && Following(g, u) == {}
    ensures Candidates(g, u) == {}
  {
    forall c ensures c !in Candidates(g, u) {
      CandidatesIff(g, u, c);
    }
  }

  /** The candidates a followed user `f` adds: its following, minus the user and the users followed. */
  function NewCandidates(g: Snapshot, u: User, f: User): set<User>
  {
    set c | c in Following(g, f) && c != u && c !in Following(g, u)
  }

  /** Reaching through one more followed user adds exactly what it follows, filtered. */
  lemma ReachedViaStep(g: Snapshot, u: User, done: set<User>, f: User)
    requires Valid(g) && f in g.vertices
    ensures ReachedVia(g, u, done + {f}) == ReachedVia(g, u, done) + NewCandidates(g, u, f)
  {
    forall c ensures c in ReachedVia(g, u, done + {f}) <==> c in ReachedVia(g, u, done) + NewCandidates(g, u, f) {
      assert f in Followers(g, c) <==> c in Following(g, f);
      assert (done + {f}) * Followers(g, c) == done * Followers(g, c) + ({f} * Followers(g, c));
      if c in NewCandidates(g, u, f) {
        assert f in (done + {f}) * Followers(g, c);
      }
    }
  }

  /** Reaching through nobody reaches nobody. */
  lemma ReachedViaNone(g: Snapshot, u: User)
    ensures ReachedVia(g, u, {}) == {}
  {
  }

  /** The worked example: A follows B, and B follows C and D. */
  const Example: Snapshot :=
    Snapshot({"A", "B", "C", "D"}, map[("A", "B") := 1.0, ("B", "C") := 1.0, ("B", "D") := 1.0])

  /** The following and followers of the worked example. */
  lemma ExampleFollowing()
    ensures Valid(Example)
    ensures Following(Example, "A") == {"B"} && Following(Example, "B") == {"C", "D"}
    ensures Following(Example, "C") == {} && Following(Example, "D") == {}
    ensures Followers(Example, "C") == {"B"} && Followers(Example, "D") == {"B"}
  {
    assert Following(Example, "B") == {"C", "D"};
  }

  /** The neighbourhoods of the worked example. */
  lemma ExampleNeighbourhoods()
    ensures Valid(Example)
    ensures Following(Example, "A") == {"B"} && Following(Example, "B") == {"C", "D"}
    ensures Following(Example, "C") == {} && Following(Example, "D") == {}
    ensures Followers(Example, "C") == {"B"} && Followers(Example, "D") == {"B"}
    ensures Candidates(Example, "A") == {"C", "D"}
  {
    ExampleFollowing();
    CandidatesIff(Example, "A", "C");
    CandidatesIff(Example, "A", "D");
    forall c | c in Candidates(Example, "A") ensures c == "C" || c == "D" {
      CandidatesIff(Example, "A", c);
    }
  }
}
