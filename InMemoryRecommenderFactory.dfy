/**
 * The in-memory registry: all four algorithms bound to their in-memory
 * strategies, looked up without an error case (a missing key is null).
 */
module InMemoryRecommenderFactory {

  import opened Wrappers
  import opened Strategies
  import GraphService

  class InMemoryRecommenderFactory {
    const strategies: map<AlgorithmType, Strategy>

    /** The table is the one the constructor built, and it is never changed. */
    ghost predicate Valid()
    {
      strategies == FullTable(InMemory)
    }

    /** The service's repository is the in-memory one, so the source's cast always succeeds. */
    constructor (graphService: GraphService.GraphService)
      ensures Valid()
    {
      var table: map<AlgorithmType, Strategy> := map[];
      table := table[Jaccard := Strategy(Jaccard, InMemory)];
      table := table[CommonNeighbors := Strategy(CommonNeighbors, InMemory)];
      table := table[PageRank := Strategy(PageRank, InMemory)];
      table := table[AdamicAdar := Strategy(AdamicAdar, InMemory)];
      strategies := table;
    }

    /** A plain lookup: the bound strategy, or `None` for a missing key. */
    function GetRecommender(algorithm: AlgorithmType): (r: Option<Strategy>)
      ensures r.Some? <==> algorithm in strategies
      ensures r.Some? ==> r.value == strategies[algorithm]
    {
      if algorithm in strategies then Some(strategies[algorithm]) else None
    }
  }

  /** Every algorithm is served, by its own in-memory strategy. */
  lemma GetRecommenderServesEvery(f: InMemoryRecommenderFactory, a: AlgorithmType)
    requires f.Valid()
    ensures f.GetRecommender(a) == Some(Strategy(a, InMemory))
  {
    FullTableBindsEvery(InMemory, a);
  }
}
