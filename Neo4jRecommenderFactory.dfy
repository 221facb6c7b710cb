/**
 * The Neo4j registry: all four algorithms bound to their Neo4j strategies,
 * looked up without an error case (a missing key is null).
 */
module Neo4jRecommenderFactory {

  import opened Wrappers
  import opened Strategies

  class Neo4jRecommenderFactory {
    const strategies: map<AlgorithmType, Strategy>

    /** The table is the one the constructor built, and it is never changed. */
    ghost predicate Valid()
    {
      strategies == FullTable(Neo4j)
    }

    /** The database driver each strategy is given is not modelled. */
    constructor ()
      ensures Valid()
    {
      var table: map<AlgorithmType, Strategy> := map[];
      table := table[Jaccard := Strategy(Jaccard, Neo4j)];
      table := table[CommonNeighbors := Strategy(CommonNeighbors, Neo4j)];
      table := table[PageRank := Strategy(PageRank, Neo4j)];
      table := table[AdamicAdar := Strategy(AdamicAdar, Neo4j)];
      strategies := table;
    }

    /** A plain lookup: the bound strategy, or `None` for a missing key. */
    function GetRecommender(algorithm: AlgorithmType): (r: Option<Strategy>)
      ensures r.Some? <==> algorithm in strategies
      ensures r.Some? ==> r.value == strategies[algorithm]
    {
      if algorithm in strategies then Some(strategies[algorithm]) else None
    }
  }

  /** Every algorithm is served, by its own Neo4j strategy. */
  lemma GetRecommenderServesEvery(f: Neo4jRecommenderFactory, a: AlgorithmType)
    requires f.Valid()
    ensures f.GetRecommender(a) == Some(Strategy(a, Neo4j))
  {
    FullTableBindsEvery(Neo4j, a);
  }
}
