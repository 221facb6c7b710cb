/**
 * The in-memory graph store: a simple directed weighted graph whose vertex
 * set and edge weights are updated in place.
 */
module InMemoryGraphRepository {

  import opened Graph

  /** JGraphT's default weight of a freshly created edge. */
  const DefaultEdgeWeight: real := 1.0

  class Repository {
    var vertices: set<User>
    var w: map<Edge, real>

    ghost predicate Valid()
      reads this
    {
      Graph.Valid(Snapshot(vertices, w))
    }

    /** The current graph as a value. */
    function Contents(): Snapshot
      reads this
    {
      Snapshot(vertices, w)
    }

    constructor ()
      ensures Valid() && Contents() == Empty
    {
      vertices := {};
      w := map[];
    }

    /** Adds `u` as a vertex; a no-op when it is already one. */
    method AddUser(u: User)
      requires Valid()
      modifies this
      ensures Valid() && Contents() == AddVertex(old(Contents()), u)
    {
      vertices := vertices + {u};
    }

    /**
     * Adds both endpoints, creates the edge when it is absent and sets its
     * weight. The simple graph refuses a loop: `addEdge(v, v)` throws after
     * the vertex was added, which `ok == false` reports.
     */
    method AddOrUpdateEdge(from: User, to: User, weight: real) returns (ok: bool)
      requires Valid()
      modifies this
      ensures Valid()
      ensures ok <==> from != to
      ensures ok ==> Contents() == Upsert(old(Contents()), from, to, weight)
      ensures !ok ==> Contents() == AddVertex(old(Contents()), from)
    {
      vertices := vertices + {from};
      vertices := vertices + {to};
      if from == to {
        return false;
      }
      if (from, to) !in w {
        w := w[(from, to) := DefaultEdgeWeight];
      }
      w := w[(from, to) := weight];
      ok := true;
    }

    /** The users `user` follows; the empty set for a user that is not a vertex. */
    method GetFollowing(user: User) returns (s: set<User>)
      requires Valid()
      ensures forall b :: b in s <==> (user, b) in w
      ensures user !in vertices ==> s == {}
      ensures s == Following(Contents(), user)
    {
      if user !in vertices {
        return {};
      }
      s := set b | b in vertices && (user, b) in w;
    }

    /** The users that follow `user`; the empty set for a user that is not a vertex. */
    method GetFollowers(user: User) returns (s: set<User>)
      requires Valid()
      ensures forall a :: a in s <==> (a, user) in w
      ensures user !in vertices ==> s == {}
      ensures s == Followers(Contents(), user)
    {
      if user !in vertices {
        return {};
      }
      s := set a | a in vertices && (a, user) in w;
    }

    /** The stored weight of (from, to), or 0.0 when there is no such edge. */
    method GetConnectionWeight(from: User, to: User) returns (x: real)
      requires Valid()
      ensures (from, to) in w ==> x == w[(from, to)]
      ensures (from, to) !in w ==> x == 0.0
      ensures x == Weight(Contents(), from, to)
    {
      x := if (from, to) in w then w[(from, to)] else 0.0;
    }

    /** Writes a weight back: the same upsert as `AddOrUpdateEdge`. */
    method UpdateConnectionWeight(from: User, to: User, weight: real) returns (ok: bool)
      requires Valid()
      modifies this
      ensures Valid()
      ensures ok <==> from != to
      ensures ok ==> Contents() == Upsert(old(Contents()), from, to, weight)
      ensures !ok ==> Contents() == AddVertex(old(Contents()), from)
    {
      ok := AddOrUpdateEdge(from, to, weight);
    }

    /** Outgoing adjacency: one entry per vertex, mapped to the users it follows. */
    method GetAllConnections() returns (adj: map<User, set<User>>)
      requires Valid()
      ensures adj.Keys == vertices
      ensures forall u :: u in adj ==> forall b :: b in adj[u] <==> (u, b) in w
      ensures forall u :: u in adj ==> adj[u] == Following(Contents(), u)
    {
      adj := map u | u in vertices :: set b | b in vertices && (u, b) in w;
    }

    /** One (from, to, weight) record per edge, carrying that edge's weight. */
    method GetGraphData() returns (data: seq<EdgeRecord>)
      requires Valid()
      ensures |data| == |w|
      ensures forall i :: 0 <= i < |data| ==> Key(data[i]) in w && w[Key(data[i])] == data[i].weight
      ensures forall i, j :: 0 <= i < j < |data| ==> Key(data[i]) != Key(data[j])
      ensures forall e :: e in w ==> exists i :: 0 <= i < |data| && Key(data[i]) == e
    {
      data := [];
      var rest := w.Keys;
      while rest != {}
        invariant rest <= w.Keys
        invariant |data| + |rest| == |w|
        invariant forall i :: 0 <= i < |data| ==>
          Key(data[i]) in w && Key(data[i]) !in rest && w[Key(data[i])] == data[i].weight
        invariant forall i, j :: 0 <= i < j < |data| ==> Key(data[i]) != Key(data[j])
        invariant forall e :: e in w && e !in rest ==> exists i :: 0 <= i < |data| && Key(data[i]) == e
        decreases rest
      {
        var e :| e in rest;
        var record := EdgeRecord(e.0, e.1, w[e]);
        assert Key(record) == e;
        assert forall i :: 0 <= i < |data| ==> (data + [record])[i] == data[i];
        assert (data + [record])[|data|] == record;
        data := data + [record];
        rest := rest - {e};
      }
    }

    /** JGraphT's `removeVertex`: the vertex goes, with every edge touching it. */
    method RemoveVertex(v: User)
      requires Valid()
      modifies this
      ensures Valid() && Contents() == Graph.RemoveVertex(old(Contents()), v)
    {
      vertices := vertices - {v};
      w := map e | e in w && e.0 != v && e.1 != v :: w[e];
    }

    /** Removes every vertex of a copy of the vertex set, one at a time. */
    method Clear()
      requires Valid()
      modifies this
      ensures Valid() && Contents() == Empty
    {
      var copy := vertices;
      while copy != {}
        invariant Valid() && vertices == copy
        decreases copy
      {
        var v :| v in copy;
        RemoveVertex(v);
        copy := copy - {v};
      }
      NoVerticesNoEdges(Contents());
    }

    /** As written, the store reports itself empty whatever it holds. */
    function IsGraphEmpty(): (r: bool)
      ensures r
    {
      true
    }

    /** The evidently intended emptiness test: there is no vertex. */
    function IsEmpty(): (r: bool)
      reads this
      requires Valid()
      ensures r <==> vertices == {} && w == map[]
    {
      NoVerticesMeansNoEdges(Contents());
      vertices == {}
    }
  }

  lemma NoVerticesMeansNoEdges(g: Snapshot)
    requires Graph.Valid(g)
    ensures g.vertices == {} ==> g.w == map[]
  {
    if g.vertices == {} {
      NoVerticesNoEdges(g);
    }
  }

  /** As written, `isGraphEmpty` reports a store holding a user as empty. */
  lemma IsGraphEmptyDisagrees(repo: Repository)
    requires repo.Valid() && repo.vertices != {}
    ensures repo.IsGraphEmpty() && !repo.IsEmpty()
  {
  }
}
