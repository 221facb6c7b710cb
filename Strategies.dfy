/**
 * The four algorithms a caller may ask for, and the strategies a registry
 * can bind them to: one per algorithm and backend.
 */
module Strategies {

  datatype AlgorithmType = CommonNeighbors | Jaccard | PageRank | AdamicAdar

  datatype Backend = InMemory | Neo4j

  /** A bound strategy: which algorithm, run by which backend. */
  datatype Strategy = Strategy(algorithm: AlgorithmType, backend: Backend)

  /** The enum constant's name, as it appears in an error message. */
  function AlgorithmName(a: AlgorithmType): (name: string)
    ensures |name| > 0
  {
    match a
    case CommonNeighbors => "COMMON_NEIGHBORS"
    case Jaccard => "JACCARD"
    case PageRank => "PAGERANK"
    case AdamicAdar => "ADAMIC_ADAR"
  }

  /** The algorithms by name. */
  function AllAlgorithms(): set<AlgorithmType>
  {
    {CommonNeighbors, Jaccard, PageRank, AdamicAdar}
  }

  /** The four names are the whole enumeration. */
  lemma AllAlgorithmsComplete(a: AlgorithmType)
    ensures a in AllAlgorithms()
  {
    match a
    case CommonNeighbors =>
    case Jaccard =>
    case PageRank =>
    case AdamicAdar =>
  }

  /** Every algorithm bound to its own strategy on `backend`. */
  function FullTable(backend: Backend): (t: map<AlgorithmType, Strategy>)
    ensures t.Keys == AllAlgorithms()
    ensures forall a :: a in t ==> t[a] == Strategy(a, backend)
  {
    map[CommonNeighbors := Strategy(CommonNeighbors, backend), Jaccard := Strategy(Jaccard, backend),
        PageRank := Strategy(PageRank, backend), AdamicAdar := Strategy(AdamicAdar, backend)]
  }

  /** A full table binds every algorithm, each to its own strategy. */
  lemma FullTableBindsEvery(backend: Backend, a: AlgorithmType)
    ensures a in FullTable(backend) && FullTable(backend)[a] == Strategy(a, backend)
  {
    AllAlgorithmsComplete(a);
  }
}
