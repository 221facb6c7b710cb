/**
 * The registry that picks a strategy by storage type: an in-memory table
 * (filled only over an in-memory repository) and a Neo4j table, chosen by a
 * case-insensitive comparison of the storage type with "neo4j"; a missing
 * binding is an error naming the storage type and the algorithm.
 */
module RecommenderFactory {

  import opened Wrappers
  import opened Strategies

  /** ASCII lower-casing of one character. */
  function ToLowerAscii(c: char): (l: char)
    ensures 'A' <= c <= 'Z' ==> 'a' <= l <= 'z' && l as int == c as int + 32
    ensures !('A' <= c <= 'Z') ==> l == c
  {
    if 'A' <= c <= 'Z' then (c as int + 32) as char else c
  }

  /** String equality up to (ASCII) letter case. */
  predicate EqualsIgnoreCase(a: string, b: string)
  {
    |a| == |b| && forall i :: 0 <= i < |a| ==> ToLowerAscii(a[i]) == ToLowerAscii(b[i])
  }

  /** Whether the storage type selects the Neo4j table. */
  predicate SelectsNeo4j(storageType: string)
  {
    EqualsIgnoreCase("neo4j", storageType)
  }

  /** The in-memory table: three bindings over an in-memory repository, none otherwise. */
  function InMemoryTable(repositoryIsInMemory: bool): (t: map<AlgorithmType, Strategy>)
    ensures repositoryIsInMemory ==> t.Keys == {Jaccard, CommonNeighbors, PageRank}
    ensures !repositoryIsInMemory ==> t == map[]
    ensures forall a :: a in t ==> t[a] == Strategy(a, InMemory)
  {
    if repositoryIsInMemory then
      map[Jaccard := Strategy(Jaccard, InMemory), CommonNeighbors := Strategy(CommonNeighbors, InMemory),
          PageRank := Strategy(PageRank, InMemory)]
    else map[]
  }

  /** The Neo4j table: the same three algorithms, on Neo4j. */
  function Neo4jTable(): (t: map<AlgorithmType, Strategy>)
    ensures t.Keys == {Jaccard, CommonNeighbors, PageRank}
    ensures forall a :: a in t ==> t[a] == Strategy(a, Neo4j)
  {
    map[Jaccard := Strategy(Jaccard, Neo4j), CommonNeighbors := Strategy(CommonNeighbors, Neo4j),
        PageRank := Strategy(PageRank, Neo4j)]
  }

  /** The message of the exception thrown for a missing binding. */
  function UnsupportedMessage(storageType: string, a: AlgorithmType): string
  {
    "Unsupported algorithm for storage type " + storageType + ": " + AlgorithmName(a)
  }

  class RecommenderFactory {
    const inMemoryStrategies: map<AlgorithmType, Strategy>
    const neo4jStrategies: map<AlgorithmType, Strategy>
    const storageType: string
    ghost const repositoryIsInMemory: bool

    /** The tables are the ones the constructor built, and they are never changed. */
    ghost predicate Valid()
    {
      inMemoryStrategies == InMemoryTable(repositoryIsInMemory) && neo4jStrategies == Neo4jTable()
    }

    /**
     * `repositoryIsInMemory` stands for the repository's run-time class test;
     * the Neo4j driver is not modelled.
     */
    constructor (repositoryIsInMemory: bool, storageType: string)
      ensures Valid()
      ensures this.storageType == storageType && this.repositoryIsInMemory == repositoryIsInMemory
    {
      this.storageType := storageType;
      this.repositoryIsInMemory := repositoryIsInMemory;
      var memory: map<AlgorithmType, Strategy> := map[];
      if repositoryIsInMemory {
        memory := memory[Jaccard := Strategy(Jaccard, InMemory)];
        memory := memory[CommonNeighbors := Strategy(CommonNeighbors, InMemory)];
        memory := memory[PageRank := Strategy(PageRank, InMemory)];
      }
      inMemoryStrategies := memory;
      var neo4j: map<AlgorithmType, Strategy> := map[];
      neo4j := neo4j[Jaccard := Strategy(Jaccard, Neo4j)];
      neo4j := neo4j[CommonNeighbors := Strategy(CommonNeighbors, Neo4j)];
      neo4j := neo4j[PageRank := Strategy(PageRank, Neo4j)];
      neo4jStrategies := neo4j;
    }

    /**
     * The table the storage type selects: the three non-Adamic-Adar bindings
     * on Neo4j for "neo4j" in any case; otherwise the same three in-memory,
     * or none when the repository is not in-memory.
     */
    function SelectedTable(): (t: map<AlgorithmType, Strategy>)
      requires Valid()
      ensures t.Keys ==
        if SelectsNeo4j(storageType) || repositoryIsInMemory then {Jaccard, CommonNeighbors, PageRank} else {}
      ensures forall a :: a in t ==> t[a] == Strategy(a, if SelectsNeo4j(storageType) then Neo4j else InMemory)
    {
      if SelectsNeo4j(storageType) then neo4jStrategies else inMemoryStrategies
    }

    /** The bound strategy, or the error for an algorithm the selected table lacks. */
    function GetRecommender(algorithm: AlgorithmType): (r: Result<Strategy, string>)
      requires Valid()
      ensures r.Success? <==> algorithm in SelectedTable()
      ensures r.Success? ==> r.value == SelectedTable()[algorithm]
      ensures r.Failure? ==> r.error == UnsupportedMessage(storageType, algorithm)
    {
      var strategies := SelectedTable();
      if algorithm in strategies then Success(strategies[algorithm])
      else Failure(UnsupportedMessage(storageType, algorithm))
    }
  }

  /**
   * The whole behaviour of the registry: an algorithm other than ADAMIC_ADAR
   * succeeds, on the backend the storage type selects, exactly when that
   * backend is Neo4j or the repository is in-memory.
   */
  lemma GetRecommenderBinds(f: RecommenderFactory, a: AlgorithmType)
    requires f.Valid()
    ensures f.GetRecommender(a).Success? <==>
      a != AdamicAdar && (SelectsNeo4j(f.storageType) || f.repositoryIsInMemory)
    ensures f.GetRecommender(a).Success? ==>
      f.GetRecommender(a).value == Strategy(a, if SelectsNeo4j(f.storageType) then Neo4j else InMemory)
  {
    AllAlgorithmsComplete(a);
  }

  /** ADAMIC_ADAR is bound in neither table, so asking for it always fails. */
  lemma AdamicAdarAlwaysFails(f: RecommenderFactory)
    requires f.Valid()
    ensures f.GetRecommender(AdamicAdar) == Failure(UnsupportedMessage(f.storageType, AdamicAdar))
  {
  }

  /** Over a repository that is not in-memory, only the Neo4j storage type serves anything. */
  lemma NotInMemoryNeedsNeo4j(f: RecommenderFactory, a: AlgorithmType)
    requires f.Valid() && !f.repositoryIsInMemory && !SelectsNeo4j(f.storageType)
    ensures f.GetRecommender(a).Failure?
  {
  }

  /** "neo4j" matches in any letter case and nothing else; "in-memory" does not. */
  lemma SelectionExamples()
    ensures SelectsNeo4j("NEO4J") && SelectsNeo4j("Neo4j") && SelectsNeo4j("neo4j")
    ensures !SelectsNeo4j("in-memory") && !SelectsNeo4j("neo4j ") && !SelectsNeo4j("neo5j")
  {
    assert "NEO4J"[0] == 'N' && "NEO4J"[1] == 'E' && "NEO4J"[2] == 'O' && "NEO4J"[3] == '4' && "NEO4J"[4] == 'J';
    assert "Neo4j"[0] == 'N';
    assert ToLowerAscii("neo5j"[3]) != ToLowerAscii("neo4j"[3]);
  }
}
