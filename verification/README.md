# BrandPulse: a verified model of its algorithms and state machines

BrandPulse collects public mentions of a brand, classifies and clusters them, raises
statistical alerts and drafts replies. This Dafny 4.11 project models the parts of it that
hold real algorithms or real state, and proves what their comments promise:

- **Clustering** (`Vectors`, `Sparse`, `Tfidf`, `TermWeights`, `Linkage`, `LanceWilliams`,
  `Agglomerative`, `Clusters`, `Clusterer`, `Topics`): TF-IDF rows, the sparse product, average linkage with the
  Lance-Williams update over arrays changed in place, against a reference that averages over
  all member pairs.
- **The orchestrator** (`Sources`, `Collect`, `Gathered`, `Schedules`, `RunCost`, `RunClaims`,
  `Store`, `Writes`):
  parallel collection and run claiming as step systems over every interleaving, the tables as
  sequences of rows whose unique keys are proved, not assumed.
- **Credits** (`CreditBudget`, `FetchClient`, `ParallelFetches`): the ledger and the fetch
  cache in front of it, with Postgres free to answer anything, for one fetch after another and
  for fetches that overlap.
- **The enricher** (`Enricher`, `Prompts`, `EnrichmentCache`, `CachedAnswers`, `JudgedText`,
  `Verdicts`, `ParallelRequests`, `WarmRequests`): batches, the narrowing retry and the long-lived shared
  cache, against a model that may omit, repeat, corrupt or invent.
- **The detector** (`Stats`, `HourlyCounts`, `Baseline`, `MeasuredHours`, `SessionClock`,
  `Grouping`, `Detector`, `Alarms`, `OwnHistory`, `Reruns`): the baseline over whole hours, the five rules, and what
  they say when they run again.
- **Two loops** (`Pages`, `PagePicks`, `Truncation`, `Characters`): round-robin page selection and
  UTF-8-safe cutting.

`Models`, `Outcomes`, `Ordering`, `Stability`, `Positions`, `Lists`, `Sums` and `Roots` are shared.

`Writes`, `Gathered`, `Verdicts`, `Topics`, `TermWeights`, `MeasuredHours`, `Alarms`, `PagePicks` and
`Characters` say what the results are in terms of the inputs alone: rows, positions, counts, times
and code points, without the functions that compute them.

Objects that the program changes in place are classes or arrays here; each method is proved
against a function over values, and the theorems are about those functions. `float64` is
`real`; `math.Log` is any function and `math.Sqrt` any non-negative root. Times are seconds.
Postgres, the language model, the network and other processes are parameters: a failed or
adversarial answer is one of their values.

`dafny verify dfyconfig.toml` checks the project.

## Where the code differs from what is said of it

- The cutoff's comment says that distances do not stay in [0, 1]
  (agents/bp-clusterer/handler.go:25-31). Over the reals those of one TF-IDF matrix do
  (`Clusters.TfidfDistancesInRange`), so that a cutoff of 1 merges everything
  (`Clusters.EverythingMergesAtOne`). internal/cluster/CLAUDE.md, which it cites, is not part of
  this model.
- A share of 0 credits is said to make every collector fail
  (agents/bp-orchestrator/pipeline.go:304-307). Only a client without a pool does that; a live
  one reads 0 as the brand's whole daily budget (internal/anakin/budget.go:118-124), so several
  of them can spend a multiple of it. `RunCost.DailyBudgetBoundsRunsExactlyWhen` says exactly
  when.
- The budget takes `runs.credits_used` for what the day has cost (internal/anakin/budget.go:140-145).
  A forced re-run of another trigger's run overwrites that figure
  (`RunClaims.PersistedTotalIsExactWhen`), a cached total may be behind
  (`CreditBudget.StaleTotalOverspends`), and budgets of one day do not see each other
  (`CreditBudget.BudgetsKeepTheDayExactlyWhen`).
- The memo is there because a fan-out repeats a query inside one run (internal/anakin/cache.go:4-7).
  Two fetches of it that overlap still miss it both and pay both, if the ceiling has room
  (`ParallelFetches.NeverPaidTwiceExactlyWhen`).
- The collected mentions are said to be in a fixed order whatever the network does
  (agents/bp-orchestrator/pipeline.go:463-467). Two different ones that share time and id come
  out in the order of arrival (`Schedules.SchedulerIsInvisibleExactlyWhen`).
- The padding assumes that busy hours never outnumber the window's. `date_trunc` counts hours of
  the session's time zone, and at a half hour from UTC, as in India, there can be one more
  (`HourlyCounts.BusyHoursFitExactlyWhen`) and the mean comes out wrong
  (`SessionClock.ComputesBaselineExactlyWhen`).
- Cached answers are joined to mentions by id. When one batch has two contents under one id, an
  answer is filed under the wrong content (`EnrichmentCache.FiledRightWhen`). The texts asked
  about are one map by id for the whole request (agents/bp-enricher/handler.go:58-62), so two
  contents under one id in different batches are filed right and one of them is judged on the
  other's text (`Prompts.JudgedOnOwnTextWhen`). Cache keys collide only when a content hash
  holds a NUL (`EnrichmentCache.CacheKeysCollideWhen`).
- The baseline ends at the current hour so that a spike does not suppress itself
  (internal/stats/baseline.go:4-6). The current hour's does not
  (`Detector.SpikeIsNotSuppressed`, `Reruns.RerunRaisesAgain`). The pipeline also runs the rules
  over the earlier hours of its window (agents/bp-orchestrator/pipeline.go:605-619), which are
  in that baseline: those just over the threshold do suppress themselves
  (`OwnHistory.SuppressesItselfExactlyWhen`).

Two preconditions that no comment contradicts, and what holds without them: stored alert ids
are right for alerts of one brand, since they are looked up under the first alert's
(`Store.StoredIdIsRightWhen`), and truncated text is a prefix of text that does not start with
white space, as its caller passes it, since trimming works at both ends
(`Truncation.PrefixExactlyWhen`).


## Model

| member | source | states |
|---|---|---|
| `Vectors.CosineDistance` | internal/cluster/agglomerative.go:33-42 | panics exactly on vectors of different length, else gives 1 minus the dense inner product |
| `Vectors.DistanceRange` | internal/cluster/agglomerative.go:28-42 | Cauchy-Schwarz: rows that are zero or of unit length are between 0 and 2 apart, and a zero row is at distance 1 from everything |
| `Vectors.DotSkipsZeros` | internal/cluster/sparse.go:29-36 | columns where one side is zero can be skipped without changing the product |
| `Sparse.CountNonZero` | internal/cluster/sparse.go:58-76 | panics exactly on a ragged matrix, else counts the entries the backing will hold |
| `Sparse.Sparsify` | internal/cluster/sparse.go:58-94 | every row's view holds exactly its non-zero entries in strictly ascending column order, the views tile one shared backing, and no append exceeds the counted capacity |
| `Sparse.AppendRow` | internal/cluster/sparse.go:78-92 | appends one row's entries to the shared backing and leaves what is before them alone |
| `Sparse.SlicesTile` | internal/cluster/sparse.go:88-91 | each row's stretch starts where the one before it ends, from the first entry of the backing to its last |
| `Sparse.NonZeroEntriesRepresent` | internal/cluster/sparse.go:21-27 | the entries kept of a row are all of its non-zero ones, in ascending column order |
| `Sparse.SparseDot` | internal/cluster/sparse.go:34-50 | the two-pointer product over two views equals the dense inner product of their rows |
| `Sparse.WalkColumns` | internal/cluster/sparse.go:35-49 | the same for the walk itself, whichever list runs out first |
| `Sparse.OneSideZero` | internal/cluster/sparse.go:31-33 | up to the smaller of the two pointed-at columns the dense product gains nothing |
| `Tfidf.TFIDF` | internal/cluster/tfidf.go:75-135 | the matrix has the sorted vocabulary as columns and, per document in input order, the normalised full-width weighting of that document |
| `Tfidf.NormaliseAt` | internal/cluster/tfidf.go:143-156 | working only at `present`, in any order, leaves the row in the direction of its full-width weighting, or at zero |
| `Tfidf.BuildRow` | internal/cluster/tfidf.go:118-132 | touching only the columns the document has, builds the direction of its full-width weighting |
| `Tfidf.DocumentFrequencies` | internal/cluster/tfidf.go:79-94 | each term of the corpus is counted once per document that has it |
| `Tfidf.SortedKeys` | internal/cluster/tfidf.go:96-100 | whatever order the map is walked in, the vocabulary comes out as its one sorted list |
| `Tfidf.PresentColumnsSuffice` | internal/cluster/tfidf.go:110-115 | the squared length over a document's distinct columns is that of the whole row |
| `Tfidf.RowsAreNormalised` | internal/cluster/tfidf.go:137-142 | all rows have one width and each is zero or of unit length; it is zero exactly when every term of its document has weight 0 |
| `Tfidf.MatrixIsDetermined` | internal/cluster/tfidf.go:75-135 | no two matrices meet the specification: map order leaves no trace |
| `TermWeights.EntryMeans` | internal/cluster/tfidf.go:62-68 | an entry is, up to its row's length, the number of the term's occurrences times log(N / (1 + df)), df being the number of documents that have it |
| `TermWeights.CommonTermsWeighNothing` | internal/cluster/tfidf.go:66-68 | for an increasing log with log(1) = 0, a term in all documents but one weighs 0, one in all of them less, and any other more |
| `TermWeights.ColumnsAreTerms` | internal/cluster/tfidf.go:96-104 | the columns are the terms that occur in some document |
| `Agglomerative.PairwiseDistances` | internal/cluster/agglomerative.go:56-67 | fills a symmetric matrix with the distance of every pair of rows, from sparse products; panics exactly on a ragged matrix |
| `Agglomerative.ClosestPair` | internal/cluster/agglomerative.go:90-111 | finds the active pair with the least distance in the matrix; of several at that distance the one with the smallest first index, and of those the smallest second; none exactly when fewer than two clusters are active |
| `Agglomerative.FoldDistances` | internal/cluster/agglomerative.go:117-128 | rewrites row and column `i` at the other active slots by the weighted average, and nothing else |
| `Agglomerative.MergeInto` | internal/cluster/agglomerative.go:117-134 | the arrays go from one partition to the one with slot `j` merged into slot `i`, and the matrix to its folded form |
| `LanceWilliams.MeanFromMerged` | internal/cluster/agglomerative.go:20-23 | the mean distance from a merged cluster is the size-weighted average of the means from its parts |
| `LanceWilliams.UpdateIsExact` | internal/cluster/agglomerative.go:20-23 | after a merge the matrix again holds, for every pair of active slots, the mean of the initial distances over all member pairs, symmetrically |
| `LanceWilliams.ExactClosest` | internal/cluster/agglomerative.go:90-111 | on an exact matrix the pair the code picks is the closest pair by true mean distance |
| `Linkage.AverageLinkageStep` | internal/cluster/agglomerative.go:79-85 | the reference answer from a partition is that from the partition with its closest pair merged |
| `Linkage.MergedExactlyWhen` | internal/cluster/agglomerative.go:79-111 | a pair is merged exactly when it is active, within the cutoff and at the least mean over member pairs, and no other at that mean has a smaller first slot, or the same and a smaller second |
| `Linkage.MergeKeepsWellFormed` | internal/cluster/agglomerative.go:130-133 | a merge keeps every row in exactly one active slot, members ascending from the slot's own index |
| `Agglomerative.MergeKeepsAnswer` | internal/cluster/agglomerative.go:79-85 | one round of the loop keeps the matrix exact and the reference answer the same |
| `Agglomerative.MergeAll` | internal/cluster/agglomerative.go:79-85 | the loop ends in the partition that average linkage over true means ends in, and the distances at which it merges are the heights of that reference run |
| `Agglomerative.Collect` | internal/cluster/agglomerative.go:139-153 | collects the clusters of at least `minSize` members in the documented order |
| `Agglomerative.Agglomerate` | internal/cluster/agglomerative.go:50-88 | panics exactly on a ragged matrix, else returns exactly the reference's clusters of at least `minSize` members |
| `Linkage.SurvivorsAreApart` | internal/cluster/agglomerative.go:79-83 | when the reference stops, any two active clusters are further apart than the cutoff |
| `Clusters.FinalClustersAreApart` | internal/cluster/agglomerative.go:72-87 | at the end the clusters partition the rows and any two are further apart, by the mean over all member pairs, than the cutoff |
| `Clusters.CollectedClusters` | internal/cluster/agglomerative.go:136-153 | the result is exactly the final clusters of at least `minSize` members, a larger one before a smaller and, of equal sizes, that with the smaller first row first |
| `Clusters.OrderIsUnique` | internal/cluster/agglomerative.go:47-49 | any listing of the same clusters in that order is the result |
| `Clusters.CollectedDisjoint` | internal/cluster/agglomerative.go:44-49 | clusters list their rows once, ascending, and share none |
| `LanceWilliams.MergeLowersNothing` | internal/cluster/agglomerative.go:79-85 | merging the closest pair brings no two clusters closer than that pair was |
| `LanceWilliams.HeightsNeverDecrease` | internal/cluster/agglomerative.go:79-85 | the merge heights of a run ascend from any lower bound of the distances and stay within the cutoff |
| `Clusters.MergeHeightsAscend` | internal/cluster/agglomerative.go:79-85 | merge heights of a whole run never decrease |
| `Linkage.LargerCutoffContinues` | internal/cluster/agglomerative.go:79-85 | the run with the larger cutoff goes on from where the run with the smaller one stopped |
| `Clusters.LargerCutoffsNest` | internal/cluster/agglomerative.go:79-85 | for c1 <= c2 every cluster left by c1 lies inside one left by c2 |
| `LanceWilliams.MeanWithin` | internal/cluster/agglomerative.go:125 | a mean distance lies between the bounds of the distances it averages |
| `Clusters.DistancesInRange` | internal/cluster/agglomerative.go:28-42 | for normalised rows every distance ever in the matrix, between rows or clusters, lies in [0, 2] |
| `Clusters.ZeroRowStaysAlone` | internal/cluster/tfidf.go:69-74 | a document with no direction never joins a cluster at a cutoff below 1 |
| `Clusters.TfidfDistancesInRange` | internal/cluster/tfidf.go:66-74 | for the matrix of any documents every distance, between rows or clusters of them, lies in [0, 1]: a column has one IDF, so two rows never point apart |
| `Tfidf.RowsPointTogether` | internal/cluster/tfidf.go:66-74 | any two rows of one matrix have an inner product of at least 0 |
| `Clusters.ZeroRowIsFarthest` | internal/cluster/tfidf.go:71-74 | a document whose weights are all zero is at distance 1 from every row, and no distance of the matrix is larger |
| `Clusters.EverythingMergesAtOne` | agents/bp-clusterer/handler.go:25-31 | at a cutoff of 1 or more one cluster is left of any document set |
| `Clusterer.OnBrandMentions` | agents/bp-clusterer/handler.go:191-199 | keeps exactly the mentions about the brand, in order |
| `Clusterer.BuildTopic` | agents/bp-clusterer/handler.go:148-187 | a topic carries its group's size, ids and trend, and is refused exactly without a brand or with a trend that is not positive |
| `Topics.ClusteredAreOnBrand` | agents/bp-clusterer/handler.go:189-199 | what is clustered are exactly the mentions about the brand, in the window's order |
| `Topics.TopicsDescribeClusters` | agents/bp-clusterer/handler.go:99-187 | one topic for each named cluster, in order: its members' ids, their number, and a trend that times the prior count is that number, or 1 without a positive prior count |
| `Clusterer.MarkGroup` | agents/bp-clusterer/handler.go:99-141 | marking a group's rows moves exactly their ids from the unmarked to the marked |
| `Clusterer.LabelGroups` | agents/bp-clusterer/handler.go:99-141 | the ids in the topics are those of the marked rows, one topic or one error per group, tokens and cost summed over all labels |
| `Clusterer.Handle` | agents/bp-clusterer/handler.go:68-142 | every on-brand mention is in one topic or in Unclustered exactly once; the topics are the labelled ones of the first eight clusters of the window's matrix, none below the minimum size, and all eight labellings are billed; no topics comes with a reason |
| `Sources.ChooseSources` | agents/bp-orchestrator/sources.go:37-62 | the two lists together are the brand's sources without repeats, by yield and then name; the first has at most `limit`, and is full when any source is dropped; the higher yield comes first, 0 without a row, and of equal yields the smaller name |
| `Sources.ChoiceIsDetermined` | agents/bp-orchestrator/sources.go:34-62 | no two choices meet that contract, and every dropped source ranks below every kept one |
| `Sources.SharesFitBudget` | agents/bp-orchestrator/sources.go:81-92 | the shares fit the budget and leave fewer credits than sources; a share is 0 exactly when the budget is below the number of sources |
| `Collect.EveryStateIsSound` | agents/bp-orchestrator/pipeline.go:389-456 | in every interleaving each source is started once, at most eight calls are open, and the accumulators are those of the finished goroutines |
| `Collect.NeverStuck` | agents/bp-orchestrator/pipeline.go:404-456 | no run is stuck before every source has finished |
| `Collect.EveryRunIsSequential` | agents/bp-orchestrator/pipeline.go:389-474 | every complete interleaving returns the sequential answer: sorted mentions, per-source list, failures, credits and sorted errors; mentions of one batch may tie as they like |
| `Collect.UniqueMentionsCommute` | agents/bp-orchestrator/pipeline.go:463-474 | it is enough that different mentions of different batches never share both time and id |
| `Schedules.SchedulerIsInvisibleExactlyWhen` | agents/bp-orchestrator/pipeline.go:389-474 | the result is the same in every interleaving exactly when, for each time and id, what any two batches bring of it reads the same in either order |
| `Collect.TiesFollowTheScheduler` | agents/bp-orchestrator/pipeline.go:463-474 | two different mentions with one time and one id come out in the order in which their goroutines finished: two complete interleavings of one input that return different lists |
| `Collect.PerSourceRowsAddUp` | agents/bp-orchestrator/pipeline.go:445-459 | the per-source rows account for every mention and credit, at every moment and after the sorts |
| `Collect.CompleteRunCounts` | agents/bp-orchestrator/pipeline.go:424-452 | at the end failed counts the dead sources and the credits are those of all batches |
| `Collect.StatusMeansWhatItSays` | agents/bp-orchestrator/pipeline.go:365-377 | failed exactly when there were sources and all were dead; okay only when every batch was whole and no source was dropped |
| `Gathered.CompleteRunGathers` | agents/bp-orchestrator/pipeline.go:424-457 | whatever the order, at the end: every mention as often as a batch brought it, every credit, the number of sources whose call failed or that reported errors and no mention, a row per batch, and in the log every complaint and nothing else |
| `Gathered.ResultInOrder` | agents/bp-orchestrator/pipeline.go:459-474 | the result is ordered by posting time and then id, its rows by source |
| `Gathered.StatusInPlainTerms` | agents/bp-orchestrator/pipeline.go:369-385 | failed exactly when there are sources and each one's call failed or reported errors with no mention; with only the collectors' complaints in the log, okay exactly when no source was dropped and every batch came back whole and without errors, quiet ones included |
| `Gathered.StatusWithOtherErrors` | agents/bp-orchestrator/pipeline.go:376-385 | whatever else is logged: failed under the same condition, okay exactly when nothing was logged |
| `RunCost.CollectorBound` | internal/anakin/budget.go:106-131 | one collector spends at most its share, or the daily budget when its share is 0 |
| `RunCost.RunWithinDailyBudget` | agents/bp-orchestrator/pipeline.go:304-314 | with a positive share the collectors' credits together never exceed the daily budget |
| `RunCost.ZeroShareSpendsAll` | internal/anakin/budget.go:118-124 | a collector with share 0 can spend the whole daily budget |
| `RunCost.DailyBudgetBoundsRunsExactlyWhen` | agents/bp-orchestrator/pipeline.go:299-314 | every run stays within the daily budget exactly unless the budget is positive, there are two or more sources, and it could not be read or is smaller than their number |
| `RunClaims.RunsTable.Insert` | agents/bp-orchestrator/store.go:290-307 | insert or conflict on (brand, kind, bucket); a taken id under a free key is an error |
| `RunClaims.RunsTable.FindRun` | agents/bp-orchestrator/store.go:316-350 | finds nothing exactly when no row has the key, and otherwise a row of the table with it, which is the only one when keys are unique |
| `RunClaims.RunsTable.FinishRun` | agents/bp-orchestrator/store.go:352-381 | writes status and credits to the row with the id and to no other |
| `RunClaims.RunsAreSound` | agents/bp-orchestrator/pipeline.go:250-275 | over every interleaving of triggers: unique keys, owners hold a stored row, losers called no peer |
| `RunClaims.RowsPersist` | agents/bp-orchestrator/pipeline.go:264-274 | a stored row keeps its id and key, and a terminal status never returns to running, Force or not |
| `RunClaims.FinishReturnsWhatItWrites` | agents/bp-orchestrator/pipeline.go:349-366 | a run that finishes returns its row with its final status and what its peers cost, and its stored row says the same if the write succeeds |
| `RunClaims.AtMostOneOwner` | agents/bp-orchestrator/store.go:270-275 | at most one row per brand, kind and bucket, and at most one unforced trigger owns it |
| `RunClaims.LosersReturnTheStoredRow` | agents/bp-orchestrator/pipeline.go:211-215 | an unforced loser calls nobody and its read-back, however late, finds the row that beat it and returns it as stored |
| `RunClaims.SpendIsAccountedFor` | agents/bp-orchestrator/pipeline.go:349-361 | conservation, at every moment: what the peers were paid is in the table, was overwritten there, was lost with a failed write, or belongs to a run still executing |
| `RunClaims.PersistedTotalIsExactWhen` | internal/anakin/budget.go:140-145 | over all interleavings whose writes reach the table and at whose end no run is under way, the persisted total is all that was spent, exactly when no forced trigger has its brand, kind and bucket in common with another trigger |
| `RunClaims.UnforcedRunsOverwriteNothing` | agents/bp-orchestrator/pipeline.go:244-262 | without Force nothing is ever overwritten |
| `RunClaims.ForcedRerunForgetsSpend` | agents/bp-orchestrator/pipeline.go:264-274 | any forced trigger with the key of another can erase spend: after 100 credits and then 10 on one run, with both runs over, the table says 10 |
| `CreditBudget.Budget.Load` | internal/anakin/budget.go:106-131 | fills the ceiling and the persisted total on first use, with every way it can fail |
| `CreditBudget.Budget.Spend` | internal/anakin/budget.go:62-86 | the ledger and the answer are those of the specification, with the second read before any refusal |
| `CreditBudget.Budget.Remaining` | internal/anakin/budget.go:89-102 | what is left of the ceiling, never negative |
| `CreditBudget.RemainingIsWhatFits` | internal/anakin/budget.go:88-102 | a positive spend fits the totals at hand exactly when it is at most what remains |
| `CreditBudget.LedgerIsAccurate` | internal/anakin/budget.go:62-86 | over any calls and any answers from Postgres, `inProcess` is the sum of the accepted spends and within the ceiling |
| `CreditBudget.RefusedOnlyOnAFreshRead` | internal/anakin/budget.go:70-82 | a spend is refused exactly when the cached total and then a fresh read both breach the ceiling |
| `CreditBudget.CeilingIsKept` | internal/anakin/budget.go:118-124 | a positive ceiling is never replaced |
| `CreditBudget.ZeroCeilingIsTheDailyBudget` | internal/anakin/budget.go:44-49 | a ceiling of 0 accepts whatever fits the brand's whole daily budget |
| `CreditBudget.StaleTotalOverspends` | internal/anakin/budget.go:70-84 | with true answers from Postgres no accepted spend passes the ceiling, exactly when the budget is not loaded yet, or its cached total is not behind, or it leaves no room |
| `CreditBudget.BudgetsKeepTheDayExactlyWhen` | internal/anakin/budget.go:44-49 | budgets of one brand-day keep its daily budget together, whatever is asked of them and whatever totals they read, exactly when their effective ceilings add up to at most it |
| `FetchClient.CacheKeyInjective` | internal/anakin/cache.go:26-28 | with NUL-free hashes and buckets the key determines source, hash and bucket |
| `FetchClient.ReadsAnswerTheFirstWrite` | internal/anakin/cache.go:43-76 | after any writes and any rows of other processes, the table holds for a key the payload that was offered first, and nothing exactly when nothing was |
| `FetchClient.FetchCache.Write` | internal/anakin/cache.go:66-76 | the first writer of a key stays |
| `FetchClient.HttpClient.Fetch` | internal/anakin/http.go:359-399 | memo, then table, then budget, then the bytes: the client, the table and the result are those of the specification on every path |
| `FetchClient.OneHitOrItsCost` | internal/anakin/http.go:359-399 | each success is one cache hit or its cost once in ledger and statistics; a failure adds to neither count, but keeps what the budget accepted |
| `FetchClient.CreditsWithinCeiling` | internal/anakin/http.go:378-398 | over any run, credits used <= in-process spend <= ceiling |
| `FetchClient.ExplicitCeilingHolds` | internal/anakin/budget.go:118-124 | with a positive ceiling the client spends at most that |
| `FetchClient.MemoIsStable` | internal/anakin/cache.go:30-41 | a remembered key keeps its payload for the client's life |
| `FetchClient.NeverChargedAgain` | internal/anakin/http.go:362-365 | after one success every later fetch of the key returns the same payload, is a hit and leaves ledger and credits alone |
| `FetchClient.StatisticsAreExact` | internal/anakin/http.go:336-340 | the statistics are the costs of the paid calls and the number of the other successes |
| `FetchClient.PaidOnce` | internal/anakin/http.go:396-397 | no key is paid for twice in a client's life |
| `ParallelFetches.AloneIsFetched` | internal/anakin/http.go:359-399 | the steps of one fetch that nothing overlaps lead, from any state, to the client, table and result of `FetchClient.Fetched` |
| `ParallelFetches.EveryInterleavingBalances` | internal/anakin/http.go:378-398 | however fetches overlap, the ledger holds the costs of the accepted ones, the statistics those of the paid ones that came back and the number of hits, and the ledger stays within the ceiling |
| `ParallelFetches.LaterFetchesAreFree` | internal/anakin/http.go:362-365 | once a fetch has come back, one of the same key that begins later is never charged, whatever else is in flight |
| `ParallelFetches.NeverPaidTwiceExactlyWhen` | internal/anakin/cache.go:4-7 | no interleaving pays twice for one key, exactly when no two requests of one key fit the ceiling together: two that overlap both miss the cache |
| `Store.PostgresStore.SaveMentions` | agents/bp-orchestrator/store.go:409-432 | insert or ignore on (brand, content hash), all or nothing |
| `Store.PostgresStore.SaveEnrichments` | agents/bp-orchestrator/store.go:439-458 | writes an enrichment only for a stored mention that has none |
| `Store.PostgresStore.SaveAlerts` | agents/bp-orchestrator/store.go:493-524 | inserts or ignores on (brand, dedupe key) and returns the alerts with the ids the table ended up with |
| `Store.PostgresStore.StoredIds` | agents/bp-orchestrator/store.go:535-569 | swaps ids by the rows of the first alert's brand |
| `Store.PostgresStore.SaveDrafts` | agents/bp-orchestrator/store.go:581-598 | writes a draft only when it names no alert or a stored one |
| `Store.IntegrityOverEveryRun` | agents/bp-orchestrator/store.go:402-598 | over any writes, failing or not: keys stay unique, references good, and no row is lost |
| `Store.ReturnedAlertsAreStored` | agents/bp-orchestrator/store.go:526-569 | every alert a successful SaveAlerts returns for one brand is the given one under the id of the row that holds its key |
| `Store.StoredIdIsRightWhen` | agents/bp-orchestrator/store.go:533-543 | without assuming one brand: exactly when a returned id is that of the alert's own row |
| `Store.DraftsForReturnedAlertsAreKept` | agents/bp-orchestrator/pipeline.go:639-720 | no draft for a returned alert is dropped by the guard, whatever other writes come between |
| `Store.RecollectionIsIdempotent` | agents/bp-orchestrator/store.go:406-458 | re-saving stored content under fresh ids, with its enrichments, leaves every window of every brand as it was |
| `Store.WindowIsExact` | agents/bp-orchestrator/store.go:179-235 | the window read back holds exactly the classified mentions of the brand in it, each once, no older one before a newer |
| `Writes.SavedMentions` | agents/bp-orchestrator/store.go:402-434 | a batch fails exactly when a mention with new content has a taken id; else exactly the mentions with new content are added, field for field and in order, and every content of the batch has a row |
| `Writes.SavedEnrichments` | agents/bp-orchestrator/store.go:436-458 | a batch is never refused, and exactly the enrichments whose mention is stored and not yet enriched are added, as given and in order |
| `Writes.SavedAlerts` | agents/bp-orchestrator/store.go:493-531 | a batch fails exactly when an alert with a new key has a taken id; else exactly the alerts with new keys are added, as given |
| `Writes.SavedDrafts` | agents/bp-orchestrator/store.go:571-598 | a batch fails exactly when a draft that is not passed over has no reference or names a missing mention; else exactly the new drafts are added, those against a missing alert left out |
| `Writes.SavedIsReadBack` | agents/bp-orchestrator/store.go:402-458 | a mention with new content that is saved, and enriched by a later save, is read back with that enrichment in every window of its brand that holds its time, whatever else is written |
| `Enricher.BatchSize` | agents/bp-enricher/handler.go:154-161 | between 1 and 50, and the request when that is in range |
| `Enricher.AnswerFor` | agents/bp-enricher/batch.go:118-168 | an answer used for a mention carries its id and is valid |
| `Enricher.ParseReply` | agents/bp-enricher/batch.go:118-168 | splits the batch into answered and unanswered; omitted and invalid ids together are the unanswered ones |
| `Enricher.ReplySplitsBatch` | agents/bp-enricher/batch.go:118-168 | whatever the reply repeats, omits, corrupts or invents, every mention is answered or left, once, under its own id |
| `Verdicts.ReplyIsRead` | agents/bp-enricher/batch.go:124-168 | the enrichments of a reply say, in every field, what its last items in range say of the mentions of the batch, and the mentions left are exactly those without such an item |
| `Enricher.Neutrals` | agents/bp-enricher/batch.go:174-188 | one neutral placeholder per unanswered mention |
| `Enricher.Classify` | agents/bp-enricher/handler.go:107-137 | the outcome of at most two calls; an error is returned exactly when a mention stays unanswered |
| `Enricher.BatchConserved` | agents/bp-enricher/handler.go:98-137 | through both calls no mention is lost or answered twice, the second asks exactly about what is missing, and every call's usage is counted |
| `EnrichmentCache.CacheKeyInjective` | agents/bp-enricher/handler.go:163-172 | with NUL-free hashes the key determines brand and content |
| `EnrichmentCache.CacheKeysCollideWhen` | agents/bp-enricher/handler.go:170-172 | exactly when two mentions of different brand or content share a key |
| `EnrichmentCache.Price` | agents/bp-enricher/handler.go:143-152 | every answer of a call gets the even share of its cost |
| `EnrichmentCache.PriceSplitsCost` | agents/bp-enricher/handler.go:139-152 | the shares add up to the cost |
| `EnrichmentCache.EnricherHandler.Lookup` | agents/bp-enricher/handler.go:177-193 | a hit exactly with a content hash whose key is cached: all the model said is as stored, the id is this mention's and the cost is 0 |
| `EnrichmentCache.EnricherHandler.Store` | agents/bp-enricher/handler.go:197-212 | files each answer under its mention's key, later mentions of an id deciding |
| `EnrichmentCache.FiledRightWhen` | agents/bp-enricher/handler.go:195-212 | answers are filed under their own mention's key exactly when mentions of a batch that share an id share the key |
| `EnrichmentCache.EnricherHandler.Handle` | agents/bp-enricher/handler.go:52-88 | hits, then batch after batch on the cache the one before left, each asked about with the texts of the request's redaction map: the specification's output, calls, totals and cache |
| `Prompts.RedactAll` | agents/bp-enricher/handler.go:58-62 | the map holds under each id the redacted text of the request's last mention with it |
| `Prompts.JudgedOnOwnTextWhen` | agents/bp-enricher/batch.go:57-64 | every mention of a request is asked about with its own text, exactly when mentions that share an id share the redacted text, in one batch or not |
| `EnrichmentCache.EveryMentionComesBack` | agents/bp-enricher/handler.go:44-51 | the ids that come back are those that went in, each as often, whatever the model does |
| `Verdicts.OutputsAreSourced` | agents/bp-enricher/handler.go:52-137 | every enrichment that comes back says, in every field, the cached verdict of its mention's brand and content, or what the reply to a call that asked about it said, or is the neutral placeholder after two calls in vain |
| `EnrichmentCache.RequestTotals` | agents/bp-enricher/handler.go:74-86 | tokens and cost are those of the calls made, each counted once, at most two per batch |
| `Verdicts.RequestIsBilled` | agents/bp-enricher/handler.go:74-86 | a request reports the tokens, in and out, and the cost of exactly the calls it made |
| `CachedAnswers.CacheIsGenuine` | agents/bp-enricher/handler.go:81-86 | over any sequence of requests every cache entry is a validated answer the model gave, in a call that asked for it, for a mention with that key |
| `Verdicts.CachedVerdictsWereSaid` | agents/bp-enricher/handler.go:81-86 | over any sequence of requests every cached verdict is, in every field, what the last item for a mention with its key said in the reply to a call that asked about it |
| `JudgedText.CachedOnOwnText` | agents/bp-enricher/handler.go:58-86 | over any sequence of requests in which mentions of one request that share an id agree, every cache entry was given in a call that asked about the own redacted text of a mention with its key |
| `CachedAnswers.HitsAreAnswers` | agents/bp-enricher/handler.go:174-193 | a hit serves, free of charge and under this mention's id, the answer given for a mention of the same brand and content |
| `CachedAnswers.FullyAnsweredRequestIsCached` | agents/bp-enricher/handler.go:74-86 | a request forgets nothing, and without a failure leaves every mention with a content hash in the cache |
| `CachedAnswers.WarmRerunIsFree` | agents/bp-enricher/handler.go:1-10 | running a fully answered corpus again makes no call and costs nothing, whatever came between and however the model behaves by then |
| `ParallelRequests.AloneIsHandled` | agents/bp-enricher/handler.go:52-88 | a request that nothing overlaps finishes with the cache, the calls, the result, the tokens, the cost and the failures of `EnrichmentCache.Handled` |
| `ParallelRequests.EveryInterleavingIsGenuine` | agents/bp-enricher/handler.go:31-38 | however requests overlap, every cache entry is a validated answer the model gave, in a call that asked for it, for a mention with that key |
| `ParallelRequests.EveryRequestComesBack` | agents/bp-enricher/handler.go:44-51 | however requests overlap, a finished one returns each of its mentions once, under its id |
| `WarmRequests.WarmRequestIsFree` | agents/bp-enricher/handler.go:1-10 | once a request has come back fully answered, one that begins later with nothing new asks the model nothing and pays nothing, whatever other requests overlap it |
| `Stats.ZScore` | internal/stats/stats.go:22-32 | the distance from the mean in spreads, and 0 without a spread |
| `Stats.ZScoreReaches` | internal/stats/stats.go:22-32 | for spread >= 0 and a positive threshold: reached exactly with a positive spread and a value that many spreads above the mean |
| `Stats.MeanAndStd` | internal/stats/stats.go:50-66 | population mean and standard deviation, both 0 for no values |
| `Stats.MeanAndStdAreDetermined` | internal/stats/stats.go:45-66 | no other pair of numbers meets that definition |
| `Stats.MeanAndStdForgetOrder` | internal/stats/baseline.go:76-77 | they depend on the values and not on their order |
| `Stats.NoSpreadWhenAllEqual` | internal/stats/stats.go:24-26 | the spread is 0 exactly when every value is the mean |
| `HourlyCounts.WindowFor` | internal/stats/baseline.go:37-39 | the window is whole hours, `days` days long, and ends at the start of the current hour |
| `HourlyCounts.HourlyCountsPerSource` | internal/stats/baseline.go:99-108 | per source, the counts of its rows in the order they were read |
| `HourlyCounts.BusyAndQuiet` | internal/stats/baseline.go:70-85 | the hours the query returns and the quiet ones are exactly the hours the window touches |
| `HourlyCounts.OneRowPerBusyHour` | internal/stats/baseline.go:87-108 | the query returns as many rows for a source as it has busy hours |
| `HourlyCounts.BusyHoursFitExactlyWhen` | internal/stats/baseline.go:78-92 | no table has a source busy in more hours than the window holds, exactly when the database session is at a whole number of hours from UTC |
| `Baseline.Padded` | internal/stats/baseline.go:78-85 | at least one value per hour, starting with the busy ones |
| `Baseline.ComputeBaseline` | internal/stats/baseline.go:27-68 | no baseline for no days; else mean and spread per source of the padded counts, of the shares, and the mean rating |
| `Baseline.PaddedIsPerHour` | internal/stats/baseline.go:70-85 | the padded list is the counts of all the window's UTC hours, in another order |
| `Baseline.MeanIsCountPerHour` | internal/stats/baseline.go:73-77 | the mean is the number of mentions over the number of hours, busy or not |
| `MeasuredHours.VolumesInPlainTerms` | internal/stats/baseline.go:27-85 | over the table itself: a source has a mean exactly when the days before the current hour hold a mention of it, and then mean and deviation are those of its counts in all their hours |
| `MeasuredHours.SharesInPlainTerms` | internal/stats/baseline.go:111-139 | the negative mean and deviation are those of the hourly shares of negative mentions, over the hours with an enriched one, and 0 without any |
| `MeasuredHours.RatingInPlainTerms` | internal/stats/baseline.go:141-160 | the mean rating is that of the rated mentions of those days, and none when there are none |
| `Baseline.SharesArePerHour` | internal/stats/baseline.go:111-139 | the shares returned are those of the UTC hours with an enriched mention, in another order |
| `Baseline.SummaryIsBaseline` | internal/stats/baseline.go:27-68 | in whatever order the database answers, the result is the baseline defined over the mention table |
| `SessionClock.ComputesBaselineExactlyWhen` | internal/stats/baseline.go:27-68 | for every table, labelling and order of answers the padded computation gives the baseline over all hours of the window, exactly when the database session is at a whole number of hours from UTC |
| `Baseline.BaselineIsDetermined` | internal/stats/baseline.go:27-68 | a table has one baseline |
| `Baseline.SameHistorySameBaseline` | internal/stats/baseline.go:87-92 | the baseline depends on the rows in the window and their labels only |
| `Baseline.CurrentHourIsExcluded` | internal/stats/baseline.go:23-25 | mentions of the current hour or later never change it, however late in that hour it is computed again |
| `Baseline.VolumesIgnoreLabels` | internal/stats/baseline.go:83-93 | and its means and deviations per source do not depend on what was labelled meanwhile either |
| `Grouping.GroupBySourceHour` | agents/bp-detector/rules.go:337-364 | whatever order the map is walked in, the groups are those of the definition in its order |
| `Grouping.GroupsPartition` | agents/bp-detector/rules.go:331-352 | the groups hold every kept mention exactly as often as it came in |
| `Grouping.GroupsElements` | agents/bp-detector/rules.go:322-352 | a group is in the list exactly when it is all kept mentions of its source and hour, and not empty |
| `Grouping.GroupsIncrease` | agents/bp-detector/rules.go:357-362 | the groups are strictly increasing by hour label and source |
| `Detector.RunRule` | agents/bp-detector/rules.go:100-129 | the alerts of one rule, group by group |
| `Detector.Evaluate` | agents/bp-detector/rules.go:71-87 | all five rules' alerts in order, the invalid ones counted as errors |
| `Detector.RatedMean` | agents/bp-detector/rules.go:400-413 | the number of rated mentions and their mean, unrated ones skipped |
| `Detector.PeakAndNegative` | agents/bp-detector/rules.go:247-256 | the highest follower count and the number of negative mentions |
| `Detector.NothingIsDropped` | agents/bp-detector/rules.go:66-87 | no alert is ever dropped, unless the request names no brand, and then all are |
| `Detector.RaisedExactlyWhen` | agents/bp-detector/rules.go:71-87 | an alert for a rule, source and hour is raised exactly when that hour's kept mentions fire the rule and a brand is named |
| `Detector.SpikeRaisedExactlyWhen` | agents/bp-detector/rules.go:93-106 | a spike needs a positive spread and a volume of at least mean + 3 spreads |
| `Detector.CrisisRaisedExactlyWhen` | agents/bp-detector/rules.go:132-142 | a crisis needs that and at least six negative mentions in ten |
| `Detector.ReviewBombRaisedExactlyWhen` | agents/bp-detector/rules.go:185-204 | at least five ratings on a review source in the hour, averaging two or less |
| `Detector.InfluencerRaisedExactlyWhen` | agents/bp-detector/rules.go:233-245 | an author of at least 50,000 followers in the hour |
| `Detector.CompetitorRaisedExactlyWhen` | agents/bp-detector/rules.go:285-298 | the competitor mentions alone reach the source's spike volume |
| `Detector.SpikeSeverity` | agents/bp-detector/rules.go:107-110 | high exactly from mean + 5 spreads on |
| `Detector.CrisisSeverity` | agents/bp-detector/rules.go:143-146 | critical exactly from eight negative mentions in ten on |
| `Detector.DedupeKeyInjective` | agents/bp-detector/rules.go:453-455 | dedupe keys of different rules, sources or hours differ |
| `Detector.DedupeKeysDistinct` | agents/bp-detector/rules.go:453-458 | no two alerts of one evaluation share a dedupe key |
| `Detector.CrisisHasSpike` | agents/bp-detector/rules.go:132-142 | every crisis comes with the spike of the same source and hour |
| `Detector.Round1KeepsThreshold` | agents/bp-detector/rules.go:480 | rounding to one digit keeps a number at or above a one-digit threshold |
| `Detector.Round2KeepsThreshold` | agents/bp-detector/rules.go:481 | rounding to two digits keeps a number on its side of a two-digit threshold |
| `Detector.EvidenceStands` | agents/bp-detector/rules.go:118-179 | every reported number, rounded as it is, meets the threshold reported with it |
| `Detector.SpikeIsNotSuppressed` | internal/stats/baseline.go:4-6 | run again later in the hour, on a window in any order that still has the mentions of a spike among others, and with the baseline read again from a table that holds them, the spike still fires |
| `Detector.CrisisIsNotSuppressed` | internal/stats/baseline.go:4-6 | a crisis then lasts exactly while six in ten of the whole hour are negative, and so at least while six in ten of what is new are |
| `Reruns.StillThereExactlyWhen` | agents/bp-orchestrator/pipeline.go:325-336 | whatever is stored between two runs, the later one reads all mentions of a source and hour back that the earlier one saw, exactly when none of them has left the window |
| `Reruns.RerunRaisesAgain` | internal/stats/baseline.go:4-6 | from the tables to the alerts: after any writes within the hour the later run raises every spike again whose mentions are in its window, and its crises last exactly while six in ten are negative |
| `OwnHistory.SampleWithOne` | internal/stats/baseline.go:4-6 | how one value moves the mean and the deviation of the sample it is in |
| `OwnHistory.OwnHourSpikesExactlyWhen` | agents/bp-orchestrator/pipeline.go:605-619 | an earlier hour of the window is measured against a history that holds it: exactly when it still spikes, in terms of the mean and deviation of the other hours |
| `OwnHistory.CompleteHourSpikesExactlyWhen` | agents/bp-orchestrator/pipeline.go:605-619 | with all of its mentions classified, an hour d above the mean of the other n - 1 hours spikes exactly when (n - 10) d^2 is at least 9 n s^2 |
| `OwnHistory.SuppressesItselfExactlyWhen` | agents/bp-orchestrator/pipeline.go:605-619 | such an hour, three deviations over the others, suppresses itself exactly when d^2 is below 9 s^2 n / (n - 10); and an hour that would not spike over the others does exactly when they are all alike and it is above them |
| `Detector.RoundingIsClose` | agents/bp-detector/rules.go:480-481 | a rounded number that is not negative is off by at most half of its last digit |
| `Detector.SpikeReportsNumber` | agents/bp-detector/rules.go:118-126 | a spike reports its z-score, to within 0.05 |
| `Detector.CrisisReportsNumbers` | agents/bp-detector/rules.go:154-179 | a crisis reports its z-score to within 0.05, its negative share to within 0.005, and its count beside the mean |
| `Detector.InfluencerReportsPeak` | agents/bp-detector/rules.go:247-279 | reports the highest follower count of the hour, which some mention has and none exceeds, and is high exactly when an influencer is negative |
| `Detector.SamplesAreLoudest` | agents/bp-detector/rules.go:460-478 | of any list at most three are taken, none left out is more engaged than one taken, and among equals the earlier comes first |
| `Alarms.AlertShowsLoudest` | agents/bp-detector/rules.go:441-478 | every alert shows the most engaged of the mentions its rule looked at in that source and hour, loudest first and in order of arrival among equals: at least one, three, or all if there are fewer |
| `Alarms.EveryAlertHasItsHour` | agents/bp-detector/rules.go:441-458 | every alert is one rule's of one source and hour |
| `Alarms.SpikeIsRaised` | agents/bp-detector/rules.go:93-106 | over the mentions themselves: raised exactly when a brand is named, the source has mentions posted in the hour, and they are three spreads over its mean |
| `Alarms.CrisisIsRaised` | agents/bp-detector/rules.go:132-142 | the same, and ten times the negative ones are at least six times all of them |
| `Alarms.ReviewBombIsRaised` | agents/bp-detector/rules.go:185-204 | exactly when five mentions of the hour on amazon, appstore or playstore have ratings that add up to at most two each |
| `Alarms.InfluencerIsRaised` | agents/bp-detector/rules.go:233-245 | exactly when a mention of the hour has an author of 50,000 followers |
| `Alarms.CompetitorIsRaised` | agents/bp-detector/rules.go:285-298 | exactly when the hour's mentions that name a competitor are three spreads over the mean |
| `Alarms.SpikeReports` | agents/bp-detector/rules.go:107-127 | high from five spreads on; reports the spreads to within 0.05 |
| `Alarms.CrisisReports` | agents/bp-detector/rules.go:143-180 | critical from eight in ten on; reports spreads, share, count and mean, each within its digits |
| `Alarms.ReviewBombReports` | agents/bp-detector/rules.go:205-228 | high; reports how many ratings and, unless it is negative, what they average, within 0.005 |
| `Alarms.InfluencerReports` | agents/bp-detector/rules.go:247-279 | the highest follower count of the hour, and high exactly when an influencer is negative |
| `Alarms.CompetitorReports` | agents/bp-detector/rules.go:299-318 | low; reports the spreads to within 0.05 |
| `Pages.PageBudget` | agents/bp-onboarder/onboarder.go:119-128 | positive, and with the map within the credit ceiling; the request when that is in range |
| `Pages.Dedupe` | agents/bp-onboarder/onboarder.go:289-300 | the first link of each canonical form, in the map's order |
| `Pages.DedupedElements` | agents/bp-onboarder/onboarder.go:286-300 | no two kept links have one canonical form, and every form is kept |
| `Pages.SelectPages` | agents/bp-onboarder/onboarder.go:240-277 | the round robin gives the ranking of all wanted pages, cut at the budget; nothing for no budget |
| `Pages.TakeTurns` | agents/bp-onboarder/onboarder.go:262-275 | one round of turns continues that ranking and stops at the budget |
| `Pages.SelectionIsSound` | agents/bp-onboarder/onboarder.go:231-277 | starts with the site, never exceeds the budget, is full or has used up every bucket, has no page twice in any spelling and none of a skipped kind |
| `Pages.SelectionIsFair` | agents/bp-onboarder/onboarder.go:231-277 | each kind's pages are the first of its bucket in map order; a later kind is ahead only when an earlier one ran out, an earlier one by more than one only when the later did |
| `PagePicks.DedupedByPosition` | agents/bp-onboarder/onboarder.go:279-300 | deduplication keeps the first link of every page, with or without its trailing slash, in the map's order |
| `PagePicks.BucketByPosition` | agents/bp-onboarder/onboarder.go:244-256 | a bucket holds the first links of the pages of its kind other than the site, in the map's order |
| `PagePicks.PicksInPlainTerms` | agents/bp-onboarder/onboarder.go:231-277 | the site first, then such links only, no page twice in either spelling, within the budget; with room left all of them of the kinds that are read |
| `Truncation.WalkBack` | agents/bp-briefer/render.go:122-124 | drops bytes to the longest valid prefix |
| `Truncation.TruncateAtSentence` | agents/bp-briefer/render.go:110-126 | short text is unchanged; else the text up to the cut, trimmed |
| `Truncation.ValidUpTo` | agents/bp-briefer/render.go:107-109 | valid text is valid on both sides of any byte that is not a continuation byte |
| `Truncation.CutIsValid` | agents/bp-briefer/render.go:115-124 | the cut is at a character boundary, and walking back drops at most three bytes |
| `Truncation.TruncatedIsGood` | agents/bp-briefer/render.go:104-126 | the result is valid UTF-8 within the limit, has no white space at either end and stands in the text as it is |
| `Truncation.PrefixExactlyWhen` | agents/bp-briefer/render.go:125 | a result that is not empty is a prefix of the text exactly when the text does not start with white space |
| `Truncation.TruncatedIsNotEmpty` | agents/bp-briefer/render.go:110-126 | text that does not start with white space is not cut to nothing, for a limit of four bytes or more |
| `Characters.ValidExactlyWhen` | agents/bp-briefer/render.go:122-124 | text is valid exactly when it is the UTF-8 encoding of code points |
| `Characters.SpaceExactlyWhen` | agents/bp-briefer/render.go:118-125 | white space is seen at an end of a text exactly when one of Unicode's white characters stands there |
| `Characters.TrimmingDropsWhite` | agents/bp-briefer/render.go:118-125 | trimming drops white characters from both ends, and all of them |
| `Characters.CutInPlainTerms` | agents/bp-briefer/render.go:115-124 | valid text is cut right after the last of `.!?` and new line that is past half the limit; without one before the last blank after the first byte; without one at the last character boundary in the limit |
| `Ordering.SortOfPermutation` | agents/bp-orchestrator/pipeline.go:463-474 | sorting with no ties forgets the order of arrival, which the repository's sorts after map walks and goroutines rely on |
| `Ordering.StringLessExactlyWhen` | agents/bp-orchestrator/sources.go:47-52 | the string order by which ties break: smaller at the first difference, or ended there |
| `Stability.SortIsStable` | agents/bp-orchestrator/pipeline.go:468-474 | the sort keeps every class of tied elements in its order of arrival |
| `Stability.SortForgetsArrivalExactlyWhen` | agents/bp-orchestrator/pipeline.go:463-474 | two orders of arrival sort to one list exactly when every class of tied elements arrives in one order |
| `Ordering.JoinedKeysCollide` | internal/anakin/cache.go:26-28 | exactly when two keys joined by a separator collide |

## Left out

- Collect.EveryRunIsSequential: needs that what two batches bring for one time and id commutes, which is exactly when it holds (`Schedules.SchedulerIsInvisibleExactlyWhen`).
- Enricher.Classify: prompts are taken to render, so the early return of a failed template is not modelled.
- FetchClient.HttpClient.Fetch: the method is one goroutine's use of the client. Overlapping fetches are the step system of `ParallelFetches`, whose theorems are about the accounts; which of two payloads of one key the memo keeps is not.
- EnrichmentCache.EnricherHandler.Handle: the method serves one request at a time. Overlapping requests are the step system of `ParallelRequests`, in which the two calls of one batch count as one step, since they touch nothing shared.
- JudgedText.CachedOnOwnText: for requests one after another; overlapping ones are `ParallelRequests.EveryInterleavingIsGenuine`, which says nothing of the text.
- Reruns.RerunRaisesAgain: for writes that bring no mention of the brand from before the hour. Others move the baseline, and `Detector.SpikeRaisedExactlyWhen` decides against the new one. The fallback to what the run itself collected, when the window cannot be read back, is not modelled.
- Baseline.SummaryIsBaseline: for sessions at whole hours from UTC, which is exactly when it holds (`SessionClock.ComputesBaselineExactlyWhen`).
- Grouping.GroupBySourceHour: the hour label is any injective labelling without `:` and `|`, in place of Go's time formatting.
- Truncation.TruncatedIsNotEmpty: for limits of four bytes or more, since a shorter limit can fall inside the first character.
- Float rounding, NaN, the overflow of `int32` column indices and of `time.Duration`, and real clocks: reals and unbounded integers are used.
- Tokenising, content hashing, redaction, negative keywords and page classification: given functions or given strings, because library semantics dominate them.
- SQL text: each statement is one atomic step with its conflict rule. The columns that no rule reads are dropped, and the day filter of the persisted total is part of the answer Postgres gives.
- Alert titles, explanations and evidence details, error texts beyond who reported them, alert ids, and the enrichment's `Model`: text about the same facts.
- The topic's sentiment mix and its examples, and the label oracle's summary: they add no constraint.
- `respond` and `enrich` joins, `writeBrief`, share of voice, `SaveTopics`, `SaveBrief`, `SourceYield`, `RecordSourceYield`, `CountMentions` and `PriorWindowCounts`: easy members.
- HTTP, polling, retries, JSON coding, fixtures, the A2A protocol and tracing: input and output around libraries.
- The web front ends, the demo, migrations, scripts and the agents' mains: no algorithm of their own.
