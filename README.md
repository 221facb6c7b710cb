# instarecommender, modelled in Dafny

This project models the core of instarecommender, a "who to follow" service.
It works over a directed social graph whose edges ("A follows B") carry a
weight. The model covers:

- **Graph store.** The in-memory repository keeps a simple directed weighted
  graph. It supports edge upsert, user registration, following and follower
  sets, edge export, clearing and the emptiness test. It also has the three
  weight primitives the weight service calls: read a weight, write a weight,
  and the outgoing adjacency.
- **Weight model.** Each interaction keeps 95% of the weight, adds an
  increment for its kind and caps the result at 10.0. A periodic sweep keeps
  99% of every weight.
- **Neighbourhood recommenders.** Four recommenders are modelled: Common
  Neighbours, Jaccard, Adamic-Adar, and the legacy weighted two-hop
  recommender of the root `GraphService`. Each collects candidates two hops
  out, scores them, sorts by descending score and applies the limit.
- **Bootstrap loader.** It clears the store, splits each line with Java's
  `split(",")` rules, skips rows with fewer than three fields, and upserts
  the remaining rows in order. A failed weight parse ends the load.
- **Recommender registries.** There are three factory classes, each mapping
  an algorithm to a strategy. One factory throws on an unbound algorithm;
  the other two return null.

A graph is the value `Graph.Snapshot(vertices, w)`, where `w` maps an
ordered pair of users to its weight. Each store is a class: its fields hold
the vertex set and the weight map, and its methods update them in place.
Every method states its new state as a function of the old one; for
example, `Contents() == Upsert(old(Contents()), from, to, weight)`.

Every recommender is proved against a specification function of the
snapshot. The recommenders that walk paths (Adamic-Adar and the legacy
recommender) do so through `PathScores`: for every followed user `f` and
every eligible `c` that `f` follows, they merge an amount `term(c)(f)` into
the score of `c`. Their loop invariants (`Accumulated`, `AccumulatedPartly`)
state that after walking the followed users in `done`, the score of `c` is
the sum of that amount over `done ∩ followers(c)`. The final ranking is
`Ranking.IsTopRanking`:

- the scores are non-increasing;
- no user appears twice;
- there are exactly min(limit, number of candidates) entries;
- every entry carries its own score and the strategy's tag;
- no candidate that was left out scores more than one that was kept.

Ties keep the hash map's order, which Java leaves unspecified, so the model
promises no tie order.

The model takes the following as parameters, because it cannot see their
code:

- `Math.log`, as `invLog: nat -> real` (`1.0 / Math.log(d)`); the model
  assumes only that `invLog(d) > 0` when `d > 1`;
- `Double.parseDouble`, as `parse: string -> Option<real>`;
- the lines of `graph.csv`, as `seq<string>`.

Java doubles are modelled as exact reals.

## Model

| member | source | states |
|---|---|---|
| Graph.RemoveVertex | src/main/java/com/example/instarecommender/repositories/InMemoryGraphRepository.java:66-67 | Removing a vertex removes it with exactly the edges touching it; every other edge keeps its weight and the graph stays valid. |
| Graph.FollowingFollowersDual | src/main/java/com/example/instarecommender/repositories/InMemoryGraphRepository.java:31-45 | In a valid graph, b is in a's following iff the edge (a, b) exists iff a is in b's followers. |
| Graph.UnknownUserIsIsolated | src/main/java/com/example/instarecommender/repositories/InMemoryGraphRepository.java:33-41 | A user that is not a vertex follows nobody and has no followers. |
| Graph.UpsertSetsWeight | src/main/java/com/example/instarecommender/repositories/InMemoryGraphRepository.java:21-29 | After an upsert of (a, b, x), both users are vertices, (a, b) weighs x, and every other pair keeps its edge and weight; the edge set grows by at most (a, b). |
| Graph.UpsertExistingKeepsEdgeCount | src/main/java/com/example/instarecommender/repositories/InMemoryGraphRepository.java:24-28 | Upserting an existing pair adds no second edge. |
| Graph.UpsertIdempotent | src/main/java/com/example/instarecommender/repositories/InMemoryGraphRepository.java:21-29 | Two identical upserts leave the same graph as one. |
| Graph.AddVertexIdempotent | src/main/java/com/example/instarecommender/repositories/InMemoryGraphRepository.java:47-50 | Adding a user is idempotent, keeps the graph valid and leaves every edge alone. |
| Graph.NoVerticesNoEdges | src/main/java/com/example/instarecommender/repositories/InMemoryGraphRepository.java:65-68 | A valid graph without vertices has no edges. |
| Graph.TwoHopOutIff | src/main/java/com/example/instarecommender/recommenders/CommonNeighborsRecommender.java:27-28 | A user is two hops out iff some followed user follows it. |
| Graph.CandidatesIff | src/main/java/com/example/instarecommender/recommenders/CommonNeighborsRecommender.java:27-30 | A candidate is exactly a vertex other than the user, not followed by the user, and followed by at least one user the user follows. |
| Graph.ReachedViaStep | src/main/java/com/example/instarecommender/recommenders/CommonNeighborsRecommender.java:28-29 | Flattening one more followed user adds exactly its filtered following to the candidates. |
| Graph.ReachedViaAllIsCandidates | src/main/java/com/example/instarecommender/recommenders/CommonNeighborsRecommender.java:27-30 | Flattening every followed user yields exactly the candidate set. |
| Graph.NoFollowingNoCandidates | src/main/java/com/example/instarecommender/recommenders/CommonNeighborsRecommender.java:24-30 | A user that follows nobody, an unknown user included, has no candidates. |
| Graph.ExampleNeighbourhoods | src/main/java/com/example/instarecommender/recommenders/CommonNeighborsRecommender.java:27-30 | For A -> B, B -> C, B -> D: the neighbourhoods of every user, and the candidates of A are exactly C and D. |
| InMemoryGraphRepository.Repository.constructor | src/main/java/com/example/instarecommender/repositories/InMemoryGraphRepository.java:14 | A new store is the empty, valid graph. |
| InMemoryGraphRepository.Repository.AddUser | src/main/java/com/example/instarecommender/repositories/InMemoryGraphRepository.java:47-50 | The new state is the old one with the user added as a vertex. |
| InMemoryGraphRepository.Repository.AddOrUpdateEdge | src/main/java/com/example/instarecommender/repositories/InMemoryGraphRepository.java:20-29 | Both endpoints become vertices; a new pair is created and a known pair overwritten with the weight; a loop is refused (`ok` false) after its vertex was added. |
| InMemoryGraphRepository.Repository.GetFollowing | src/main/java/com/example/instarecommender/repositories/InMemoryGraphRepository.java:31-37 | Returns exactly the targets of the user's edges, and the empty set for a user that is not a vertex. |
| InMemoryGraphRepository.Repository.GetFollowers | src/main/java/com/example/instarecommender/repositories/InMemoryGraphRepository.java:39-45 | Returns exactly the sources of the edges into the user, and the empty set for a user that is not a vertex. |
| InMemoryGraphRepository.Repository.GetConnectionWeight | src/main/java/com/example/instarecommender/repositories/Neo4jGraphRepository.java:129-144 | Returns the stored weight of the pair, and 0.0 when there is no edge. |
| InMemoryGraphRepository.Repository.UpdateConnectionWeight | src/main/java/com/example/instarecommender/repositories/Neo4jGraphRepository.java:147-162 | Writes a weight with the same upsert as `AddOrUpdateEdge`; a loop is refused (`ok` is false and only `from` is added), where the Neo4j `MERGE` would create it. |
| InMemoryGraphRepository.Repository.GetAllConnections | src/main/java/com/example/instarecommender/repositories/Neo4jGraphRepository.java:165-180 | Maps every vertex to exactly the users it follows. |
| InMemoryGraphRepository.Repository.GetGraphData | src/main/java/com/example/instarecommender/repositories/InMemoryGraphRepository.java:52-61 | One record per edge, no edge twice, and each record carries its edge's current weight. |
| InMemoryGraphRepository.Repository.RemoveVertex | src/main/java/com/example/instarecommender/repositories/InMemoryGraphRepository.java:67 | The new state is the old graph without the vertex and its edges. |
| InMemoryGraphRepository.Repository.Clear | src/main/java/com/example/instarecommender/repositories/InMemoryGraphRepository.java:64-68 | After removing every vertex of a copy of the vertex set, the store is the empty graph. |
| InMemoryGraphRepository.NoVerticesMeansNoEdges | src/main/java/com/example/instarecommender/repositories/InMemoryGraphRepository.java:64-68 | A store without vertices holds no edges. |
| InMemoryGraphRepository.Repository.IsGraphEmpty | src/main/java/com/example/instarecommender/repositories/InMemoryGraphRepository.java:70-73 | As written: always true. |
| InMemoryGraphRepository.Repository.IsEmpty | src/main/java/com/example/instarecommender/repositories/InMemoryGraphRepository.java:70-73 | Corrected: true iff the store has no vertex and no edge. |
| InMemoryGraphRepository.IsGraphEmptyDisagrees | src/main/java/com/example/instarecommender/repositories/InMemoryGraphRepository.java:70-73 | A store holding a user is reported empty as written, and not empty by the corrected test. |
| DynamicWeightService.Increment | src/main/java/com/example/instarecommender/services/DynamicWeightService.java:18-24 | Every increment is positive and at most 5.0. |
| DynamicWeightService.IncrementsIncrease | src/main/java/com/example/instarecommender/services/DynamicWeightService.java:18-24 | LIKE < COMMENT < SHARE < DIRECT_MESSAGE < VIDEO_CALL. |
| DynamicWeightService.NewWeight | src/main/java/com/example/instarecommender/services/DynamicWeightService.java:27-28 | The new weight is 10.0 or current * 0.95 + increment, never above either, and at least the increment for a non-negative current weight. |
| DynamicWeightService.NewWeightInRange | src/main/java/com/example/instarecommender/services/DynamicWeightService.java:27-28 | A weight in [0, 10] stays in (0, 10]. |
| DynamicWeightService.NewWeightMonotonic | src/main/java/com/example/instarecommender/services/DynamicWeightService.java:27-28 | A heavier current weight never gives a lighter new weight. |
| DynamicWeightService.FirstInteractionIsIncrement | src/main/java/com/example/instarecommender/services/DynamicWeightService.java:17-28 | From a missing edge (weight 0.0) the new weight is exactly the increment. |
| DynamicWeightService.LikeOnTwoStaysTwo | src/main/java/com/example/instarecommender/services/DynamicWeightService.java:20-28 | LIKE on 2.0 yields 2.0. |
| DynamicWeightService.InteractionsCapped | src/main/java/com/example/instarecommender/services/DynamicWeightService.java:28 | However many interactions are applied, the weight never exceeds 10.0. |
| DynamicWeightService.InteractionsStayInRange | src/main/java/com/example/instarecommender/services/DynamicWeightService.java:27-28 | From a weight in [0, 10], every sequence of interactions stays in [0, 10]. |
| DynamicWeightService.ThreeVideoCallsSaturate | src/main/java/com/example/instarecommender/services/DynamicWeightService.java:24-28 | Three VIDEO_CALLs reach the cap from any non-negative weight. |
| DynamicWeightService.InteractOnlyWritesPair | src/main/java/com/example/instarecommender/services/DynamicWeightService.java:30 | An interaction gives (from, to) the rule's weight; every other pair keeps its edge and weight. |
| DynamicWeightService.InteractOnMissingEdge | src/main/java/com/example/instarecommender/services/DynamicWeightService.java:17-30 | An interaction on a missing edge creates it with the increment as its weight. |
| DynamicWeightService.InteractKeepsWeightsInRange | src/main/java/com/example/instarecommender/services/DynamicWeightService.java:27-30 | Interactions keep all weights of the graph in [0, 10]. |
| DynamicWeightService.DecayKeepsStructure | src/main/java/com/example/instarecommender/services/DynamicWeightService.java:36-37 | The sweep adds and removes no vertex and no edge, so every following and follower set is unchanged. |
| DynamicWeightService.DecayNeverIncreases | src/main/java/com/example/instarecommender/services/DynamicWeightService.java:39-40 | The sweep never increases a non-negative weight and keeps weights in [0, 10]. |
| DynamicWeightService.DynamicWeightService.UpdateWeightBasedOnInteraction | src/main/java/com/example/instarecommender/services/DynamicWeightService.java:15-31 | The store afterwards is the interaction applied to the store before; a loop is refused and only adds its vertex. |
| DynamicWeightService.DynamicWeightService.DecayEdge | src/main/java/com/example/instarecommender/services/DynamicWeightService.java:38-40 | One existing edge gets 99% of its old weight; the vertices and every other weight are unchanged. |
| DynamicWeightService.DynamicWeightService.ApplyGlobalDecay | src/main/java/com/example/instarecommender/services/DynamicWeightService.java:34-42 | The store afterwards is the old store with every edge weight multiplied by 0.99. |
| GraphService.SplitAll | src/main/java/com/example/instarecommender/services/GraphService.java:51 | Splitting at every comma gives at least one field, none containing a comma. |
| GraphService.JoinSplitAll | src/main/java/com/example/instarecommender/services/GraphService.java:51 | Splitting at every comma loses nothing: joining the fields with commas gives the line back. |
| GraphService.DropTrailingEmpty | src/main/java/com/example/instarecommender/services/GraphService.java:51 | The result is a prefix of the fields, does not end in an empty field, and only empty fields were dropped. |
| GraphService.SplitOnComma | src/main/java/com/example/instarecommender/services/GraphService.java:51 | A line without a comma is its single field; otherwise the fields are a prefix of the fields between commas, everything dropped is empty and the last field kept is non-empty; no field holds a comma. |
| GraphService.NoCommaOneField | src/main/java/com/example/instarecommender/services/GraphService.java:51 | A line without a comma is a single field. |
| GraphService.SplitKeepsExtraFields | src/main/java/com/example/instarecommender/services/GraphService.java:51-56 | "A,B,2.5,x" splits into four fields, so the extra field is ignored by the loader. |
| GraphService.SplitDropsTrailingEmpty | src/main/java/com/example/instarecommender/services/GraphService.java:51-52 | "A,B,," splits into two fields, so the row is skipped. |
| GraphService.ApplyRows | src/main/java/com/example/instarecommender/services/GraphService.java:47-58 | No lines leave the graph unchanged and the load complete; rows never remove a vertex or an edge. |
| GraphService.ApplyRowsAppend | src/main/java/com/example/instarecommender/services/GraphService.java:50-58 | Rows apply in order: the later rows start from the graph the earlier ones left, unless those aborted. |
| GraphService.OtherRowsKeepWeight | src/main/java/com/example/instarecommender/services/GraphService.java:50-58 | Rows that never name (a, b) leave the weight of (a, b) unchanged. |
| GraphService.LastRowWins | src/main/java/com/example/instarecommender/services/GraphService.java:50-58 | When a load completes, a repeated pair ends with the weight of its last row. |
| GraphService.ParseFailureAborts | src/main/java/com/example/instarecommender/services/GraphService.java:48-62 | A weight that does not parse ends the load and keeps exactly the rows applied before it. |
| GraphService.KeptRows | src/main/java/com/example/instarecommender/services/GraphService.java:52 | Every kept row has at least three fields. |
| GraphService.ShortRowsIgnored | src/main/java/com/example/instarecommender/services/GraphService.java:52-57 | Rows with fewer than three fields make no difference to the load. |
| GraphService.ApplyRowsValid | src/main/java/com/example/instarecommender/services/GraphService.java:50-58 | Every graph the rows produce from a valid graph is valid. |
| GraphService.GraphService.constructor | src/main/java/com/example/instarecommender/services/GraphService.java:17-19 | The service keeps the repository it was given. |
| GraphService.GraphService.GetGraph | src/main/java/com/example/instarecommender/services/GraphService.java:21-23 | One record per edge of the repository, with its weight, no edge twice. |
| GraphService.GraphService.AddOrUpdateEdge | src/main/java/com/example/instarecommender/services/GraphService.java:25-27 | Passes through to the repository's upsert, with the same new state. |
| GraphService.GraphService.GetFollowing | src/main/java/com/example/instarecommender/services/GraphService.java:29-31 | Returns exactly the repository's following set of the user. |
| GraphService.GraphService.GetFollowers | src/main/java/com/example/instarecommender/services/GraphService.java:33-35 | Returns exactly the repository's follower set of the user. |
| GraphService.GraphService.AddUser | src/main/java/com/example/instarecommender/services/GraphService.java:37-39 | Passes through to the repository: the user is added as a vertex. |
| GraphService.GraphService.GetConnectionWeight | src/main/java/com/example/instarecommender/services/DynamicWeightService.java:17 | The weight the weight service reads: the stored weight, or 0.0. |
| GraphService.GraphService.UpdateConnectionWeight | src/main/java/com/example/instarecommender/services/DynamicWeightService.java:30 | The weight the weight service writes: an upsert of the pair. |
| GraphService.GraphService.GetAllConnections | src/main/java/com/example/instarecommender/services/DynamicWeightService.java:36 | The adjacency the sweep walks: every vertex with exactly its following. |
| GraphService.GraphService.LoadGraphFromFile | src/main/java/com/example/instarecommender/services/GraphService.java:45-63 | The store is cleared, then holds exactly the graph the rows produce from the empty graph; `loaded` is false when a row threw. |
| Ranking.MaxExists | src/main/java/com/example/instarecommender/recommenders/CommonNeighborsRecommender.java:39-40 | A non-empty set of scored keys has a best key. |
| Ranking.SortByScore | src/main/java/com/example/instarecommender/recommenders/CommonNeighborsRecommender.java:39-40 | Every entry of the score map once, non-increasing, each with its own score and tag. |
| Ranking.SortAndLimit | src/main/java/com/example/instarecommender/recommenders/CommonNeighborsRecommender.java:39-43 | The result is a top ranking of the score map: non-increasing, no key twice, min(limit, size) entries, and no key left out outscores a key kept. |
| Ranking.PrefixIsTopRanking | src/main/java/com/example/instarecommender/recommenders/CommonNeighborsRecommender.java:41 | The first min(limit, size) entries of a full sorted ranking form a top ranking. |
| Ranking.TopRankingBounds | src/main/java/com/example/instarecommender/recommenders/CommonNeighborsRecommender.java:41 | A top ranking has at most `limit` entries, all keys of the map, and all keys when the limit is large enough. |
| Sums.SetSumRemove | src/main/java/com/example/instarecommender/recommenders/AdamicAdarRecommender.java:34-39 | A sum over a set does not depend on which element is taken first. |
| Sums.SetSumNonNegative | src/main/java/com/example/instarecommender/recommenders/AdamicAdarRecommender.java:34-39 | A sum of non-negative terms is non-negative. |
| PathScores.Merge | src/main/java/com/example/instarecommender/recommenders/AdamicAdarRecommender.java:41 | `merge` by sum: the key gets its old score (0 when absent) plus the amount; every other key is unchanged. |
| PathScores.MergeStep | src/main/java/com/example/instarecommender/recommenders/AdamicAdarRecommender.java:26-41 | One user a friend follows: an eligible one has the friend's amount merged in, any other is skipped, and the partial-walk invariant is kept. |
| PathScores.FinishFriend | src/main/java/com/example/instarecommender/recommenders/AdamicAdarRecommender.java:23-43 | Once a friend's whole following is visited, the friend counts as walked. |
| PathScores.AccumulatedAll | src/main/java/com/example/instarecommender/recommenders/AdamicAdarRecommender.java:23-44 | After walking every followed user, the score map is exactly the path-score map over the candidates. |
| PathScores.PathScoresNonNegative | src/main/java/com/example/instarecommender/recommenders/AdamicAdarRecommender.java:23-44 | Non-negative amounts give non-negative scores. |
| CandidateCollection.CollectCandidates | src/main/java/com/example/instarecommender/recommenders/CommonNeighborsRecommender.java:27-30 | The collected set is exactly the candidate set: two hops out, minus the user and its followings. |
| CommonNeighborsRecommender.ScoresAtLeastOne | src/main/java/com/example/instarecommender/recommenders/CommonNeighborsRecommender.java:27-36 | Every candidate scores at least 1. |
| CommonNeighborsRecommender.RankingExcludesKnownUsers | src/main/java/com/example/instarecommender/recommenders/CommonNeighborsRecommender.java:29-41 | No ranked entry is the user or a user it follows; each scores at least 1; at most `limit` entries. |
| CommonNeighborsRecommender.NoFollowingNoRecommendations | src/main/java/com/example/instarecommender/recommenders/CommonNeighborsRecommender.java:24-30 | A user that follows nobody, an unknown user included, gets no recommendation. |
| CommonNeighborsRecommender.ExampleScores | src/main/java/com/example/instarecommender/recommenders/CommonNeighborsRecommender.java:27-36 | For A -> B, B -> C, B -> D, C and D score 1 each, and nothing else is scored. |
| CommonNeighborsRecommender.CommonNeighborsRecommender.Recommend | src/main/java/com/example/instarecommender/recommenders/CommonNeighborsRecommender.java:23-46 | The response is a top ranking, cut to `limit`, of the candidates scored by the size of following(user) ∩ followers(c), with the source's tag and explanation. |
| JaccardRecommender.JaccardBounded | src/main/java/com/example/instarecommender/recommenders/JaccardRecommender.java:41 | Every ratio lies in [0, 1]. |
| JaccardRecommender.CandidateScoresPositive | src/main/java/com/example/instarecommender/recommenders/JaccardRecommender.java:35-43 | Every candidate scores in (0, 1]. |
| JaccardRecommender.RankingExcludesKnownUsers | src/main/java/com/example/instarecommender/recommenders/JaccardRecommender.java:29-47 | No ranked entry is the user or a user it follows; each scores in (0, 1]; at most `limit` entries. |
| JaccardRecommender.NoFollowingNoRecommendations | src/main/java/com/example/instarecommender/recommenders/JaccardRecommender.java:24-30 | A user that follows nobody gets no recommendation. |
| JaccardRecommender.ExampleScores | src/main/java/com/example/instarecommender/recommenders/JaccardRecommender.java:35-43 | For A -> B, B -> C, B -> D, C and D score 1 each. |
| JaccardRecommender.JaccardRecommender.Recommend | src/main/java/com/example/instarecommender/recommenders/JaccardRecommender.java:23-52 | The response is a top ranking, cut to `limit`, of the candidates scored by the Jaccard ratio (0 over an empty union), with the source's tag and explanation. |
| AdamicAdarRecommender.ContributionRange | src/main/java/com/example/instarecommender/recommenders/AdamicAdarRecommender.java:36-37 | A common neighbour's term is non-negative, and 0 exactly when its out-degree is at most 1. |
| AdamicAdarRecommender.ScoreIsVisitsTimesPerVisit | src/main/java/com/example/instarecommender/recommenders/AdamicAdarRecommender.java:23-41 | As written, a candidate's score is its per-visit sum times the number of followed users that follow it. |
| AdamicAdarRecommender.SumOfPerVisit | src/main/java/com/example/instarecommender/recommenders/AdamicAdarRecommender.java:41 | As written, the merged amounts of one candidate add up to visits times the per-visit sum. |
| AdamicAdarRecommender.ScoresNonNegative | src/main/java/com/example/instarecommender/recommenders/AdamicAdarRecommender.java:34-39 | Given invLog(d) > 0 for d > 1, every score is at least 0. |
| AdamicAdarRecommender.RankingExcludesKnownUsers | src/main/java/com/example/instarecommender/recommenders/AdamicAdarRecommender.java:23-48 | Every ranked entry is followed by a user the target follows, is neither the target nor followed by it, scores at least 0; at most `limit` entries. |
| AdamicAdarRecommender.NoFollowingNoRecommendations | src/main/java/com/example/instarecommender/recommenders/AdamicAdarRecommender.java:20-23 | A user that follows nobody gets no recommendation. |
| AdamicAdarRecommender.AsWrittenExampleScore | src/main/java/com/example/instarecommender/recommenders/AdamicAdarRecommender.java:28-41 | As written, in A -> B, B -> C, B -> D, each of C and D is a candidate scoring 0. |
| AdamicAdarRecommender.AsWrittenExampleScoresZero | src/main/java/com/example/instarecommender/recommenders/AdamicAdarRecommender.java:28-41 | As written, A -> B, B -> C, B -> D scores C and D 0. |
| AdamicAdarRecommender.IntendedScoreIsSumOverIntermediaries | src/main/java/com/example/instarecommender/recommenders/AdamicAdarRecommender.java:23-41 | Corrected: a candidate scores the sum of 1/log(out-degree) over the followed users that follow it; positive iff one of them follows more than one user. |
| AdamicAdarRecommender.IntendedSum | src/main/java/com/example/instarecommender/recommenders/AdamicAdarRecommender.java:34-39 | Over any set of intermediaries the corrected sum is non-negative, and positive iff one has out-degree above 1. |
| AdamicAdarRecommender.IntendedExampleScore | src/main/java/com/example/instarecommender/recommenders/AdamicAdarRecommender.java:28-41 | Corrected, in A -> B, B -> C, B -> D, each of C and D is a candidate scoring 1/log(2). |
| AdamicAdarRecommender.IntendedExampleScores | src/main/java/com/example/instarecommender/recommenders/AdamicAdarRecommender.java:28-41 | Corrected: A -> B, B -> C, B -> D scores C and D 1/log(2) > 0 each. |
| AdamicAdarRecommender.AdamicAdarRecommender.SumContributions | src/main/java/com/example/instarecommender/recommenders/AdamicAdarRecommender.java:34-39 | The stream sum equals the set sum of the common neighbours' terms. |
| AdamicAdarRecommender.AdamicAdarRecommender.ScoreCandidate | src/main/java/com/example/instarecommender/recommenders/AdamicAdarRecommender.java:28-39 | One visit of an eligible candidate scores the sum of 1/log(out-degree) over the users both the user and the candidate follow, the as-written per-path term. |
| AdamicAdarRecommender.AdamicAdarRecommender.MergeFriend | src/main/java/com/example/instarecommender/recommenders/AdamicAdarRecommender.java:24-43 | The inner loop over one friend's following keeps the walk invariant with that friend added. |
| AdamicAdarRecommender.AdamicAdarRecommender.Recommend | src/main/java/com/example/instarecommender/recommenders/AdamicAdarRecommender.java:19-51 | As written: the response is a top ranking, cut to `limit`, of the as-written scores, with the source's tag and explanation. |
| AdamicAdarRecommender.AdamicAdarRecommender.MergeFriendIntended | src/main/java/com/example/instarecommender/recommenders/AdamicAdarRecommender.java:24-43 | Corrected inner loop: merges the friend's own term and keeps the walk invariant. |
| AdamicAdarRecommender.AdamicAdarRecommender.RecommendIntended | src/main/java/com/example/instarecommender/recommenders/AdamicAdarRecommender.java:19-51 | Corrected: the response is a top ranking, cut to `limit`, of the intended Adamic-Adar scores. |
| LegacyGraphService.ScoreIsWeightSum | src/main/java/com/example/instarecommender/GraphService.java:44-50 | A suggestion's score is the sum of the weights f -> s over the followed users f. |
| LegacyGraphService.ScoresNonNegative | src/main/java/com/example/instarecommender/GraphService.java:44-50 | Non-negative weights give non-negative scores. |
| LegacyGraphService.LegacyUpsertKeepsOldWeight | src/main/java/com/example/instarecommender/GraphService.java:25-29 | As written, re-adding an existing pair keeps its old weight and fails. |
| LegacyGraphService.LegacyUpsertOfNewPair | src/main/java/com/example/instarecommender/GraphService.java:25-29 | As written, a new pair is upserted as intended. |
| LegacyGraphService.LegacyUpdateIsLost | src/main/java/com/example/instarecommender/GraphService.java:25-29 | A -> B at 1.0 then A -> B at 2.0 leaves 1.0, where the intended upsert gives 2.0. |
| LegacyGraphService.TargetUsers | src/main/java/com/example/instarecommender/GraphService.java:57 | The users of a ranking, in order, one per entry. |
| LegacyGraphService.TargetUsersOfSorted | src/main/java/com/example/instarecommender/GraphService.java:55-58 | The users of a full sorted ranking are every scored user once, best first. |
| LegacyGraphService.GraphService.constructor | src/main/java/com/example/instarecommender/GraphService.java:19 | A new legacy store is the empty graph. |
| LegacyGraphService.GraphService.AddOrUpdateEdge | src/main/java/com/example/instarecommender/GraphService.java:25-29 | The new state and result are the as-written upsert: both endpoints added, a new pair set, an existing pair or a loop fails. |
| LegacyGraphService.GraphService.AddUser | src/main/java/com/example/instarecommender/GraphService.java:31-33 | Only a vertex is added. |
| LegacyGraphService.GraphService.MergeFriend | src/main/java/com/example/instarecommender/GraphService.java:44-51 | One friend's outgoing edges: each eligible target gets the edge's weight added. |
| LegacyGraphService.GraphService.Recommend | src/main/java/com/example/instarecommender/GraphService.java:35-59 | Nothing for a non-vertex; otherwise every candidate exactly once, by non-increasing summed weight, with no truncation. |
| Strategies.AllAlgorithmsComplete | src/main/java/com/example/instarecommender/recommenders/factory/InMemoryRecommenderFactory.java:29-32 | The four algorithms are the whole enumeration. |
| Strategies.FullTable | src/main/java/com/example/instarecommender/recommenders/factory/InMemoryRecommenderFactory.java:29-32 | A full table binds the four algorithms, each to its own strategy on the backend. |
| Strategies.FullTableBindsEvery | src/main/java/com/example/instarecommender/recommenders/factory/Neo4jRecommenderFactory.java:24-27 | Every algorithm is bound in a full table, to its own strategy. |
| RecommenderFactory.ToLowerAscii | src/main/java/com/example/instarecommender/recommenders/RecommenderFactory.java:40 | An upper-case ASCII letter becomes the lower-case letter 32 code points above it; every other character is kept. |
| RecommenderFactory.InMemoryTable | src/main/java/com/example/instarecommender/recommenders/RecommenderFactory.java:25-31 | Over an in-memory repository, JACCARD, COMMON_NEIGHBORS and PAGERANK in memory; otherwise empty. |
| RecommenderFactory.Neo4jTable | src/main/java/com/example/instarecommender/recommenders/RecommenderFactory.java:33-36 | Exactly JACCARD, COMMON_NEIGHBORS and PAGERANK, on Neo4j. |
| RecommenderFactory.RecommenderFactory.constructor | src/main/java/com/example/instarecommender/recommenders/RecommenderFactory.java:22-37 | The two tables are built once, as the source fills them. |
| RecommenderFactory.RecommenderFactory.SelectedTable | src/main/java/com/example/instarecommender/recommenders/RecommenderFactory.java:40 | For "neo4j" in any case: JACCARD, COMMON_NEIGHBORS and PAGERANK on Neo4j; otherwise the same three in-memory over an in-memory repository, and nothing over any other. |
| RecommenderFactory.RecommenderFactory.GetRecommender | src/main/java/com/example/instarecommender/recommenders/RecommenderFactory.java:39-46 | Success with the bound strategy iff the selected table binds the algorithm; otherwise the error names the storage type and the algorithm. |
| RecommenderFactory.GetRecommenderBinds | src/main/java/com/example/instarecommender/recommenders/RecommenderFactory.java:22-46 | An algorithm succeeds iff it is not ADAMIC_ADAR and the storage type is Neo4j or the repository is in-memory, and then on the selected backend. |
| RecommenderFactory.AdamicAdarAlwaysFails | src/main/java/com/example/instarecommender/recommenders/RecommenderFactory.java:33-44 | ADAMIC_ADAR always fails with the unsupported-algorithm error. |
| RecommenderFactory.NotInMemoryNeedsNeo4j | src/main/java/com/example/instarecommender/recommenders/RecommenderFactory.java:26-40 | Over a repository that is not in-memory, every algorithm fails unless the storage type is Neo4j. |
| RecommenderFactory.SelectionExamples | src/main/java/com/example/instarecommender/recommenders/RecommenderFactory.java:40 | "NEO4J", "Neo4j" and "neo4j" select Neo4j; "in-memory", "neo4j " and "neo5j" do not. |
| InMemoryRecommenderFactory.InMemoryRecommenderFactory.constructor | src/main/java/com/example/instarecommender/recommenders/factory/InMemoryRecommenderFactory.java:24-33 | The table is built once with all four in-memory bindings. |
| InMemoryRecommenderFactory.InMemoryRecommenderFactory.GetRecommender | src/main/java/com/example/instarecommender/recommenders/factory/InMemoryRecommenderFactory.java:36-38 | A plain lookup: the bound strategy, or none for a missing key. |
| InMemoryRecommenderFactory.GetRecommenderServesEvery | src/main/java/com/example/instarecommender/recommenders/factory/InMemoryRecommenderFactory.java:29-38 | Every algorithm yields its own in-memory strategy. |
| Neo4jRecommenderFactory.Neo4jRecommenderFactory.constructor | src/main/java/com/example/instarecommender/recommenders/factory/Neo4jRecommenderFactory.java:22-28 | The table is built once with all four Neo4j bindings. |
| Neo4jRecommenderFactory.Neo4jRecommenderFactory.GetRecommender | src/main/java/com/example/instarecommender/recommenders/factory/Neo4jRecommenderFactory.java:31-33 | A plain lookup: the bound strategy, or none for a missing key. |
| Neo4jRecommenderFactory.GetRecommenderServesEvery | src/main/java/com/example/instarecommender/recommenders/factory/Neo4jRecommenderFactory.java:24-33 | Every algorithm yields its own Neo4j strategy. |

## Left out

- The PageRank, GNN and Neo4j strategies, and the Neo4j repository. They
  are floating-point library algorithms or Cypher queries sent to a
  database server. In the registries they appear only as the strategy
  value `Strategy(algorithm, backend)`.
- Both `GraphController` files (HTTP routing and an embedded web page),
  the Spring wiring and configuration, and `RecommenderService`, which
  calls a factory method that does not exist.
- File access in both loaders. The lines of the file and the number parser
  are parameters. The root `GraphService.loadGraphFromFile` is not
  modelled: it is the same loop without the field-count check, and it runs
  over a store that the legacy service builds empty.
- IEEE double rounding: all weights and scores are exact reals. The cap
  at 10.0, the 0.95 and 0.99 factors and Jaccard's division are exact.
- The cron schedule of the decay sweep, and any concurrency between the
  sweep and requests.
- The library's refusal of loops. `addEdge(v, v)` on a simple graph throws
  after the vertex was added. The model's `AddOrUpdateEdge` adds the vertex
  and returns `ok == false`. `LoadGraphFromFile` reports that row as an
  aborted load, because the exception ends the loop.
- `limit` is a `nat`: `Stream.limit` rejects a negative limit with an
  exception, and the model does not represent that call.
- `RecommenderFactory.EqualsIgnoreCase`: case folding is modelled for ASCII
  letters only. Java's `equalsIgnoreCase` also folds non-ASCII letters.
- The loader follows the code, not the documented error-handling rule.
  That rule says a malformed bootstrap row is skipped and loading goes on.
  In the code a weight that does not parse throws out of the loop, and a
  loop row makes `addOrUpdateEdge` throw, so the rest of the file is not
  loaded. `GraphService.ApplyRows` and `GraphService.ParseFailureAborts`
  state the code's behaviour; only rows with fewer than three fields are
  skipped.
- Which repository the registry is given is a boolean. The class test
  `instanceof InMemoryGraphRepository` becomes `repositoryIsInMemory`, and
  the Neo4j driver is not modelled.
- The strategies the registries bind are tags. The in-memory factory
  passes a `GraphService` to constructors that expect a repository; since
  the model binds a tag, not a constructed object, this type mismatch
  does not appear in it.
- `models/AlgorithmTypes.java` declares only COMMON_NEIGHBORS and JACCARD,
  but every factory uses PAGERANK and ADAMIC_ADAR as well. The model's
  enumeration has all four.
- The weight primitives (`getConnectionWeight`, `updateConnectionWeight`,
  `getAllConnections`) are part of the repository interface the weight
  service uses. The in-memory repository and the services `GraphService`
  do not define them; only the Neo4j repository does. The model gives them
  the in-memory store's semantics (the upsert of `AddOrUpdateEdge`), so it
  differs from the Neo4j definitions in these points:
  - `InMemoryGraphRepository.Repository.UpdateConnectionWeight` refuses a
    loop: `ok` is false and only `from` is added. The Neo4j `MERGE` checks
    nothing and creates and weights the self-loop. The refusal carries over
    to `DynamicWeightService.DynamicWeightService.UpdateWeightBasedOnInteraction`.
  - `InMemoryGraphRepository.Repository.GetConnectionWeight` cannot fail.
    The Neo4j version returns 0.0 on any exception (a driver or query
    error) and also for a relation without a weight property; neither
    case exists in the model.
  - `InMemoryGraphRepository.Repository.GetAllConnections` maps every
    vertex, not only users that appear on an edge. This makes no
    difference to the sweep.
  - The Neo4j adjacency stores an immutable empty set for a user that
    first appears as a target. A later `add` on that key would throw.
    This is not modelled.
- The code, not the usual reading of the Jaccard example, decides its
  expected value. For A -> B, B -> C, B -> D, the usual reading gives C and
  D a score of 1/2 each. The code's union of following(A) = {B} and
  followers(C) = {B} is {B}, so each scores 1.0.
  `JaccardRecommender.ExampleScores` states the code's value.
- `Recommendation` and `RecommendationResponse` are datatypes, and the
  `RecommenderStrategy` interfaces are not modelled. The explanation
  string is a field of the response.

## Findings

| source | as written | input that shows it | evidently intended | confidence | as-written member | corrected member |
|---|---|---|---|---|---|---|
| src/main/java/com/example/instarecommender/GraphService.java:25-29 | `setEdgeWeight(addEdge(from, to), weight)`: for an existing pair `addEdge` returns null, so the weight is never updated and the call fails | `addOrUpdateEdge("A","B",1.0)` then `addOrUpdateEdge("A","B",2.0)`: the weight stays 1.0 | an upsert that overwrites the weight of an existing edge, as the repository does | not executed | `LegacyGraphService.LegacyUpdateIsLost` | `InMemoryGraphRepository.Repository.AddOrUpdateEdge` |
| src/main/java/com/example/instarecommender/recommenders/AdamicAdarRecommender.java:28-41 | the common neighbours are the users followed by both the target and the candidate, and the whole per-candidate sum is merged once per friend path | A -> B, B -> C, B -> D: C and D score 0, because neither follows anybody | the candidate scores 1/log(out-degree) of each followed user that follows it: 1/log(2) here; a followed user of out-degree 1 or less adds 0, so a candidate reached only through such users is still listed, with score 0 | not executed | `AdamicAdarRecommender.AsWrittenExampleScoresZero` | `AdamicAdarRecommender.AdamicAdarRecommender.RecommendIntended` |
| src/main/java/com/example/instarecommender/repositories/InMemoryGraphRepository.java:70-73 | `isGraphEmpty` returns `true` | a store holding user "A" is reported empty | true iff the store has no vertex | not executed | `InMemoryGraphRepository.IsGraphEmptyDisagrees` | `InMemoryGraphRepository.Repository.IsEmpty` |
