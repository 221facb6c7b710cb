/**
 * Interaction-driven edge weights: each interaction decays the current weight
 * by 5% and adds an increment that depends on its kind, capped at 10.0; a
 * periodic sweep decays every existing edge by 1%. Doubles are exact reals.
 */
module DynamicWeightService {

  import opened Graph
  import GraphService

  datatype InteractionType = Like | Comment | Share | DirectMessage | VideoCall

  /** The cap of every weight an interaction writes. */
  const MaxWeight: real := 10.0

  /** The increment table of the five interaction kinds. */
  function Increment(t: InteractionType): (inc: real)
    ensures 0.0 < inc <= 5.0
  {
    match t
    case Comment => 0.5
    case Like => 0.1
    case Share => 1.0
    case DirectMessage => 2.0
    case VideoCall => 5.0
  }

  /** Decay by 5%, add the increment, cap at `MaxWeight`. */
  function NewWeight(current: real, t: InteractionType): (r: real)
    ensures r <= MaxWeight
    ensures r <= current * 0.95 + Increment(t)
    ensures r == MaxWeight || r == current * 0.95 + Increment(t)
    ensures current >= 0.0 ==> r >= Increment(t)
  {
    var decayed := current * 0.95;
    if decayed + Increment(t) < MaxWeight then decayed + Increment(t) else MaxWeight
  }

  /** The kinds rank from the lightest to the heaviest interaction. */
  lemma IncrementsIncrease()
    ensures Increment(Like) < Increment(Comment) < Increment(Share)
      < Increment(DirectMessage) < Increment(VideoCall)
  {
  }

  /** A weight in [0, 10] stays in [0, 10]. */
  lemma NewWeightInRange(current: real, t: InteractionType)
    requires 0.0 <= current <= MaxWeight
    ensures 0.0 < NewWeight(current, t) <= MaxWeight
  {
  }

  /** A heavier current weight never yields a lighter new weight. */
  lemma NewWeightMonotonic(a: real, b: real, t: InteractionType)
    requires a <= b
    ensures NewWeight(a, t) <= NewWeight(b, t)
  {
  }

  /** A missing edge weighs 0.0, so its first interaction writes exactly the increment. */
  lemma FirstInteractionIsIncrement(t: InteractionType)
    ensures NewWeight(0.0, t) == Increment(t)
  {
  }

  /** LIKE on 2.0: 2.0 * 0.95 + 0.1 == 2.0, a fixed point of the rule. */
  lemma LikeOnTwoStaysTwo()
    ensures NewWeight(2.0, Like) == 2.0
  {
  }

  /** A sequence of interactions on one edge, oldest first. */
  function ApplyInteractions(current: real, ts: seq<InteractionType>): real
    decreases |ts|
  {
    if ts == [] then current else ApplyInteractions(NewWeight(current, ts[0]), ts[1..])
  }

  /** However many interactions are applied, the weight never exceeds the cap. */
  lemma {:induction false} InteractionsCapped(current: real, ts: seq<InteractionType>)
    requires ts != []
    ensures ApplyInteractions(current, ts) <= MaxWeight
    decreases |ts|
  {
    if |ts| > 1 {
      InteractionsCapped(NewWeight(current, ts[0]), ts[1..]);
    }
  }

  /** Starting in [0, 10], every sequence of interactions stays in [0, 10]. */
  lemma {:induction false} InteractionsStayInRange(current: real, ts: seq<InteractionType>)
    requires 0.0 <= current <= MaxWeight
    ensures 0.0 <= ApplyInteractions(current, ts) <= MaxWeight
    decreases |ts|
  {
    if ts != [] {
      NewWeightInRange(current, ts[0]);
      InteractionsStayInRange(NewWeight(current, ts[0]), ts[1..]);
    }
  }

  /** Three video calls reach the cap from any non-negative weight. */
  lemma ThreeVideoCallsSaturate(current: real)
    requires current >= 0.0
    ensures ApplyInteractions(current, [VideoCall, VideoCall, VideoCall]) == MaxWeight
  {
    var w1 := NewWeight(current, VideoCall);
    var w2 := NewWeight(w1, VideoCall);
    assert w1 >= 5.0;
    assert w2 >= 9.75;
    assert [VideoCall, VideoCall, VideoCall][1..] == [VideoCall, VideoCall];
    assert [VideoCall, VideoCall][1..] == [VideoCall];
    assert [VideoCall][1..] == [];
  }

  /** One interaction on (from, to): read the weight (0.0 when absent), write the new one. */
  function Interact(g: Snapshot, from: User, to: User, t: InteractionType): Snapshot
  {
    Upsert(g, from, to, NewWeight(Weight(g, from, to), t))
  }

  /**
   * An interaction writes only (from, to): it gets the rule's weight, and
   * every other pair keeps its edge and its weight.
   */
  lemma InteractOnlyWritesPair(g: Snapshot, from: User, to: User, t: InteractionType)
    requires Valid(g) && from != to
    ensures var h := Interact(g, from, to, t);
      && Valid(h)
      && Weight(h, from, to) == NewWeight(Weight(g, from, to), t)
      && (forall e :: e != (from, to) ==> (e in h.w <==> e in g.w))
      && (forall a, b :: (a, b) != (from, to) ==> Weight(h, a, b) == Weight(g, a, b))
  {
    UpsertSetsWeight(g, from, to, NewWeight(Weight(g, from, to), t));
  }

  /** On a missing edge the interaction creates it with the increment as its weight. */
  lemma InteractOnMissingEdge(g: Snapshot, from: User, to: User, t: InteractionType)
    requires (from, to) !in g.w
    ensures var h := Interact(g, from, to, t);
      (from, to) in h.w && h.w[(from, to)] == Increment(t)
  {
  }

  /** Every weight lies in [0, 10]. */
  ghost predicate WeightsInRange(g: Snapshot)
  {
    forall e :: e in g.w ==> 0.0 <= g.w[e] <= MaxWeight
  }

  /** Interactions keep every weight of the graph in [0, 10]. */
  lemma InteractKeepsWeightsInRange(g: Snapshot, from: User, to: User, t: InteractionType)
    requires WeightsInRange(g)
    ensures WeightsInRange(Interact(g, from, to, t))
  {
    NewWeightInRange(Weight(g, from, to), t);
  }

  /** The global sweep: every existing edge keeps 99% of its weight. */
  function Decayed(g: Snapshot): Snapshot
  {
    Snapshot(g.vertices, map e | e in g.w :: g.w[e] * 0.99)
  }

  /**
   * The sweep adds and removes no vertex and no edge, so every neighbourhood
   * (and with it every candidate set) is the same afterwards.
   */
  lemma DecayKeepsStructure(g: Snapshot)
    requires Valid(g)
    ensures var h := Decayed(g);
      && Valid(h) && h.vertices == g.vertices && h.w.Keys == g.w.Keys
      && (forall u :: Following(h, u) == Following(g, u) && Followers(h, u) == Followers(g, u))
  {
  }

  /** The sweep never increases a non-negative weight, and keeps weights in [0, 10]. */
  lemma DecayNeverIncreases(g: Snapshot)
    requires forall e :: e in g.w ==> g.w[e] >= 0.0
    ensures forall a, b :: 0.0 <= Weight(Decayed(g), a, b) <= Weight(g, a, b)
    ensures WeightsInRange(g) ==> WeightsInRange(Decayed(g))
  {
  }

  class DynamicWeightService {
    const graphService: GraphService.GraphService

    constructor (service: GraphService.GraphService)
      ensures graphService == service
    {
      graphService := service;
    }

    /**
     * Reads the weight of (from, to), 0.0 without an edge, and writes back the
     * rule's new weight; `ok == false` when the store refused a loop.
     */
    method UpdateWeightBasedOnInteraction(from: User, to: User, t: InteractionType) returns (ok: bool)
      requires graphService.graphRepository.Valid()
      modifies graphService.graphRepository
      ensures graphService.graphRepository.Valid()
      ensures ok <==> from != to
      ensures ok ==>
        graphService.graphRepository.Contents() == Interact(old(graphService.graphRepository.Contents()), from, to, t)
      ensures !ok ==>
        graphService.graphRepository.Contents() == AddVertex(old(graphService.graphRepository.Contents()), from)
    {
      var currentWeight := graphService.GetConnectionWeight(from, to);
      var newWeight := NewWeight(currentWeight, t);
      ok := graphService.UpdateConnectionWeight(from, to, newWeight);
    }

    /** Reads the weight of an existing edge and writes back 99% of it. */
    method DecayEdge(from: User, to: User)
      requires graphService.graphRepository.Valid() && (from, to) in graphService.graphRepository.w
      modifies graphService.graphRepository
      ensures graphService.graphRepository.Valid()
      ensures graphService.graphRepository.vertices == old(graphService.graphRepository.vertices)
      ensures graphService.graphRepository.w ==
        old(graphService.graphRepository.w)[(from, to) := old(graphService.graphRepository.w)[(from, to)] * 0.99]
    {
      var currentWeight := graphService.GetConnectionWeight(from, to);
      var ok := graphService.UpdateConnectionWeight(from, to, currentWeight * 0.99);
    }

    /** Visits every (from, to) of the adjacency and writes back 99% of its weight. */
    method ApplyGlobalDecay()
      requires graphService.graphRepository.Valid()
      modifies graphService.graphRepository
      ensures graphService.graphRepository.Valid()
      ensures graphService.graphRepository.Contents() == Decayed(old(graphService.graphRepository.Contents()))
    {
      var repo := graphService.graphRepository;
      ghost var g0 := repo.Contents();
      var adj := graphService.GetAllConnections();
      var restFrom := adj.Keys;
      ghost var done: set<Edge> := {};
      while restFrom != {}
        invariant restFrom <= adj.Keys && repo.Valid()
        invariant repo.vertices == g0.vertices && repo.w.Keys == g0.w.Keys
        invariant forall e :: e in repo.w ==> repo.w[e] == if e in done then g0.w[e] * 0.99 else g0.w[e]
        invariant forall e :: e in g0.w ==> (e in done <==> e.0 !in restFrom)
        decreases restFrom
      {
        var from :| from in restFrom;
        restFrom := restFrom - {from};
        var restTo := adj[from];
        while restTo != {}
          invariant restTo <= adj[from] && repo.Valid()
          invariant repo.vertices == g0.vertices && repo.w.Keys == g0.w.Keys
          invariant forall e :: e in repo.w ==> repo.w[e] == if e in done then g0.w[e] * 0.99 else g0.w[e]
          invariant forall e :: e in g0.w ==>
            (e in done <==> e.0 !in restFrom && (e.0 != from || e.1 !in restTo))
          decreases restTo
        {
          var to :| to in restTo;
          restTo := restTo - {to};
          assert (from, to) in repo.w && (from, to) !in done;
          DecayEdge(from, to);
          done := done + {(from, to)};
        }
      }
      assert repo.w == Decayed(g0).w;
    }
  }
}
