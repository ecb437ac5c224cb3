# A verified model of Dander's Spark driver and Phase 8 harnesses

This project models, in Dafny, the distributed engine in `scripts/spark_driver.py` and the smaller components around
it listed below, and proves what they keep over every input and every run.

**The Spark driver.** A driver invocation reads a content-addressed, canonical JSON configuration; validates a
logical graph (linear, multistage linear, or keyed join) and a physical plan for it; reads its sources; moves rows
through object-store exchanges; projects or joins them; overwrites the target; reads the row count back; deletes its
exchanges; and reports.

- `CanonicalJson`, `CanonicalIdentity`: `json.loads`, the canonical `json.dumps`, and why accepted bytes, plan and
  revision determine one another. A `Doc` keeps textual order and duplicate names, a `Json` is the Python value.
- `GraphConfiguration`: the three builders. Their loops over nodes, fields, edges, mappings and transform orders are
  methods, each proved to compute the function (`GroupsOf`, `NodeFieldsOf`, `EdgesOf`, `EdgeMappings`, `ChainOrder`)
  that the straight-line code around it uses. `ConfigError` separates a rejected document from one on which the code
  raises an unexpected exception.
- `GraphGuarantees`, `GraphAcceptance`, `GraphOrder`: what acceptance means for types, for topology and table
  bindings, and under reordering of the document.
- `PhysicalPlan`: the plan validators, and a plan structure in which acceptance is read as five properties
  (`Staged`). `RepeatedIds` is a small document that is accepted and yet not staged; `EncodedSize` bounds its text.
- `Frames`, `Meaning`: rows, projections and null-dropping inner joins on bags; the direct relational meaning of a
  graph (`LinearMeaning`, `MultistageMeaning`, `JoinMeaning`) and its agreement with the staged execution.
- `ExchangePaths`: exchange URIs, and the trees a recursive delete removes.
- `RuntimeConfiguration`: parsing and planning put together.
- `Cluster`: the foreign calls as small contracts. Each may fail, or store something other than it was given; every
  such event advances a fault counter, so a contract without a condition on the counter holds for every fault at
  every step, and "without faults" is a condition on the counter.
- `SparkDriver`: `run_spark` and `main` over a `Session` and a `Console`, both updated in place. The session records
  what a run observes (readback counts, delete attempts, existence checks), so "observed absent" and "read back" are
  facts about this run's own observations.

**The harnesses.** `StagingPrefix` (paginated listing and batched deletion of one S3 prefix, and the cleanup protocol
around it), `LauncherPreflight` (a probe loop against a deadline, its stage log, and the gate read from it),
`TargetFence` (monotone fencing tokens), `PaddedDecimals`, `MergeWriter` and `IncrementalOracle` (a cursor-guarded
merge and two incremental oracles), `TransformOracle` and `TransformChecks` (generated facts and dimensions,
group-by, mutation, and what is read back), `Crossover` (schedule, medians, recommendation) and `DeferredCost`
(interim encoding and rounding).

`Wrappers`, `Text` and `Bags` are shared helpers. `dafny verify dfyconfig.toml` checks everything.

## Modelling assumptions

- Strings are sequences of Unicode scalar values; upper-casing, case folding and digit classes are ASCII.
- JSON is null, booleans, integers, strings, arrays and objects.
- SHA-256 is an arbitrary function passed in; no collision freedom is assumed.
- Columns have structured names compared exactly. NULL equals nothing in a join. A table does not change between the
  count and the exchange write that follows it.
- Exchanges keep the bag of rows and may rearrange it freely.
- Time and decimal amounts are exact reals.

## What the proofs found

- Node ids are not checked to be distinct across node types. An accepted plan of any of the three kinds is a staged
  execution of its graph exactly when they are (`LinearPlanStaged`, `MultistagePlanStaged`, `JoinPlanStaged`), and a
  graph whose target repeats its source's id is accepted (`RepeatedIdAccepted`). Two orders of the same two
  transforms describe one edge set exactly when source and target share an id with one of those transforms
  (`ChainAmbiguousIff`).
- Whether a document is accepted, and the graph it becomes, never depend on the order of its nodes, edges and
  mappings. The failure kind of a refused document can: a node whose type is a list or dict raises an unexpected
  exception, other bad nodes are rejected, and the first bad node decides (`FailureDependsOnOrder`). Order never
  shows exactly when the bad nodes of a document are all of one kind, or the builder stops before its nodes
  (`LinearOrderFreeIff` and its two companions).
- A fault-free run succeeds exactly when its configuration is accepted, the executors match the plan, the sources are
  readable and nothing is stored under its exchanges. In the last case it fails at the exchange write, and cleanup
  then removes what was stored there before (`RunSpark`).
- A failed run may leave the target changed: the overwrite precedes the readback. Nothing here claims otherwise.
- The BigQuery incremental oracle accepts the correct table exactly when the delta is even (`BigQueryOracleIffEven`);
  the PostgreSQL oracle accepts it for every delta.
- Both transform harnesses accept a correct first build exactly when there are at least ten dimensions and ten facts
  (`BigQueryInitialIff`, `PostgresInitialIff`), and a correct incremental build exactly when there are at least two
  dimensions, since the inserted fact refers to the second (`MutationOracleIff`). The PostgreSQL configuration admits
  fewer.
- The sum of affected rows is the same for every batch size exactly when no two records accepted one by one share an
  id (`CountSizeFreeIff`); without a cursor, exactly when the stream repeats no id (`UnguardedCountIff`). Two
  versions of one row written in cursor order count as two rows or as one (`RepeatedRowCounts`). The final table
  of an admitted stream never depends on it; a stream with a missing cursor is written up to the batch that holds it
  (`WriteBatches`).
- A preflight whose query succeeds but whose connection raises on close does not pass, and loses its stage log; so
  does one whose connector cannot be imported after its gates (`RunPreflight`, `RunMain`).
- Deferred and direct cost attribution agree except at capacity zero, which a direct run accepts and a deferred one
  refuses (`DeferredEqualsDirect`).

## Model

| member | source | states |
|---|---|---|
| CanonicalIdentity.DocRoundTrip | scripts/spark_driver.py:1611-1612 | Every document's text parses back to that very document, with nesting, escapes and negative numbers. |
| CanonicalIdentity.LoadsEncode | scripts/spark_driver.py:307-335 | Parsing a canonical encoding gives the encoded value back, for every nested value. |
| CanonicalIdentity.LoadsEncodeAscii | scripts/benchmarks/redshift_bulk_phase8.py:1089-1099 | The writer that escapes everything beyond printable ASCII, with surrogate pairs, writes printable ASCII only, and parsing gives the value back. |
| CanonicalIdentity.EncodeIsIdentity | scripts/spark_driver.py:1611-1612 | Two values have the same canonical bytes if and only if they are equal. |
| CanonicalIdentity.AcceptedIffEncoding | scripts/spark_driver.py:307-335 | The texts that equal the encoding of their own parse are exactly the canonical encodings of values. |
| CanonicalIdentity.AcceptedIsCanonical | scripts/spark_driver.py:307-335 | In an accepted text the object names strictly increase, hence do not repeat, at every depth. |
| CanonicalIdentity.AcceptedIffCanonicalText | scripts/spark_driver.py:307-335 | Conversely a text is accepted exactly when it is the plain rendering of a document whose names strictly increase at every depth. |
| CanonicalIdentity.AcceptedUnique | scripts/spark_driver.py:394-413 | Two accepted texts carry the same value if and only if they are the same text. |
| CanonicalIdentity.EncodeIgnoresInsertionOrder | scripts/spark_driver.py:1611-1612 | Two documents without repeated names have the same canonical text if and only if they differ only in the order of members, at any depth. |
| CanonicalIdentity.RevisionIsPlanIdentity | scripts/spark_driver.py:394-413 | Among accepted envelopes equal plans have equal revisions, and different plans share one only by a digest collision of their different encodings. |
| CanonicalIdentity.PublishedPlanIsAccepted | scripts/spark_driver.py:394-413 | The envelope written for any plan within the size bound is accepted and yields that plan and its digest. |
| GraphConfiguration.GroupNodes | scripts/spark_driver.py:416-492 | The loop over the node list groups sources, transforms and targets in order, or rejects or crashes exactly as the specification fold does. |
| GraphConfiguration.NodeFields | scripts/spark_driver.py:749-771 | The field loop returns names in order and their types exactly when the fold over supported, distinct fields is defined. |
| GraphConfiguration.CollectMappings | scripts/spark_driver.py:774-808 | The mapping loop fills the table of the specification fold, or stops exactly when that fold is undefined. |
| GraphConfiguration.FindChain | scripts/spark_driver.py:528-551 | The search over both orders of the transforms returns what the specification of chain orders returns, including its failures. |
| GraphConfiguration.IndexEdges | scripts/spark_driver.py:528-535 | The edge loop indexes edges by their endpoints, or stops exactly when the specification fold is undefined. |
| GraphGuarantees.FieldsOfExact | scripts/spark_driver.py:749-771 | A field list is accepted if and only if every field is well formed and supported and no two share a name. |
| GraphGuarantees.FieldsNamed | scripts/spark_driver.py:749-771 | The names read from an accepted field list are the declared ones, in order. |
| GraphGuarantees.MappingTableDefined | scripts/spark_driver.py:774-808 | A mapping list is accepted if and only if every entry is a type-preserving direct mapping of existing fields and no two have one target. |
| GraphGuarantees.MappingTableExact | scripts/spark_driver.py:774-808 | An accepted table holds exactly the mappings its list names, each under its target. |
| GraphGuarantees.DirectMappingsTyped | scripts/spark_driver.py:774-806 | Accepted direct mappings have exactly the declared output as targets, in its order, and preserve types. |
| GraphGuarantees.LinearGraphTyped | scripts/spark_driver.py:416-492 | Every accepted linear graph has type-preserving mappings from existing columns onto exactly the declared fields at both steps. |
| GraphGuarantees.MultistageGraphTyped | scripts/spark_driver.py:495-596 | The same along all three steps of every accepted multistage graph. |
| GraphGuarantees.KeyedJoinGraphTyped | scripts/spark_driver.py:599-739 | Every accepted keyed join has key columns of one type, disjoint side targets that exactly cover the joined fields, and typed mappings throughout. |
| GraphGuarantees.CoverOnceSplits | scripts/spark_driver.py:690-697 | The length-and-set test on the combined targets means disjoint sides that cover the fields, so merging the two dicts loses nothing. |
| GraphAcceptance.LinearAcceptance | scripts/spark_driver.py:416-492 | An accepted linear document consists of one source, transform and target with the graph's ids and of exactly the two edges of the chain; its relations bind exactly the source table, and all tables lie in the invocation's project. |
| GraphAcceptance.MultistageAcceptance | scripts/spark_driver.py:495-596 | The same for a multistage document: two differently named transforms and exactly the three edges of the chain. |
| GraphAcceptance.KeyedJoinAcceptance | scripts/spark_driver.py:599-739 | The same for a keyed join: two differently named sources, exactly the three edges, and exactly two bound source tables. |
| GraphAcceptance.OutputInProject | scripts/spark_driver.py:841-867 | The output table an accepted target names is a relation of the invocation's project. |
| GraphGuarantees.ChainOrderExact | scripts/spark_driver.py:528-551 | For any two transform ids, repeated elsewhere or not, the search fails exactly when the edges are neither chain, and finds an order exactly when they are its chain and it is the only one or starts with the smaller id. |
| GraphGuarantees.ChainAmbiguousIff | scripts/spark_driver.py:528-551 | Both orders describe the same edges if and only if source and target are one id that is also one of the transforms. |
| GraphOrder.GroupsPermuted | scripts/spark_driver.py:416-492 | Reordering the node list permutes each group and nothing else. |
| GraphOrder.MappingTablePermuted | scripts/spark_driver.py:774-808 | Reordering a mapping list changes neither its acceptance nor its table. |
| GraphOrder.EdgesDefined | scripts/spark_driver.py:528-535 | An edge list is accepted if and only if every edge is well formed and no two have the same endpoints. |
| GraphOrder.GroupsFault | scripts/spark_driver.py:430-433 | A node list that fails does so with the fault of its first bad node: an unexpected exception for an unhashable type, a rejection otherwise. |
| GraphOrder.FailureDependsOnOrder | scripts/spark_driver.py:430-433 | Two bad nodes listed in one order crash the builder, in the other they are rejected. |
| GraphOrder.LinearGraphRelisted | scripts/spark_driver.py:416-492 | Reordering nodes, edges and mappings of a linear document changes neither its acceptance nor the graph, nor the failure kind unless it has bad nodes of both kinds. |
| GraphOrder.LinearOrderFreeIff | scripts/spark_driver.py:416-492 | The whole outcome of a linear document, failure kind included, is the same for every reordering if and only if the builder stops before the nodes or all its bad nodes fail alike. |
| GraphOrder.MultistageGraphRelisted | scripts/spark_driver.py:495-596 | Reordering nodes, edges and mappings of a multistage document changes neither its acceptance nor the graph, nor the failure kind unless it has bad nodes of both kinds. |
| GraphOrder.MultistageOrderFreeIff | scripts/spark_driver.py:495-596 | The whole outcome of a multistage document, failure kind included, is the same for every reordering if and only if the builder stops before the nodes or all its bad nodes fail alike. |
| GraphOrder.KeyedJoinGraphRelisted | scripts/spark_driver.py:599-739 | Reordering nodes, edges and mappings of a keyed-join document changes neither its acceptance nor the graph, nor the failure kind unless it has bad nodes of both kinds. |
| GraphOrder.KeyedJoinOrderFreeIff | scripts/spark_driver.py:599-739 | The whole outcome of a keyed-join document, failure kind included, is the same for every reordering if and only if the builder stops before the nodes or all its bad nodes fail alike. |
| PhysicalPlan.LinearPlanStaged | scripts/spark_driver.py:876-916 | Every accepted linear plan is topologically ordered, depends exactly on its producers and uses one partition count in 2..2000; it also partitions the nodes and carries each edge inside one stage or on exactly one exchange if and only if the node ids are distinct. |
| PhysicalPlan.MultistagePlanStaged | scripts/spark_driver.py:919-976 | The same for every accepted multistage plan and its chain of edges. |
| PhysicalPlan.JoinPlanStaged | scripts/spark_driver.py:979-1036 | The same for every accepted keyed-join plan, whose exchanges hash each side on its join key. |
| PhysicalPlan.LinearPartitionsIffDistinct | scripts/spark_driver.py:876-916 | The linear stages partition the graph's nodes if and only if the three ids are distinct. |
| PhysicalPlan.MultistagePartitionsIffDistinct | scripts/spark_driver.py:919-976 | The multistage stages partition the graph's nodes if and only if the four ids are distinct. |
| PhysicalPlan.JoinPartitionsIffDistinct | scripts/spark_driver.py:979-1036 | The join stages partition the graph's nodes if and only if the four ids are distinct. |
| RepeatedIds.RepeatedIdAccepted | scripts/spark_driver.py:307-363 | A concrete linear document whose target repeats its source's id is an accepted configuration, size bound included, for any digest function of 64-character digests; its stages do not partition its nodes. |
| Frames.PickComposed | scripts/spark_driver.py:1279-1290 | Two projections in a row are the one projection by the composed rename. |
| Frames.JoinCount | scripts/spark_driver.py:1293-1308 | A pair occurs in the join as often as its rows occur jointly when their non-null keys are equal, and never otherwise. |
| Frames.JoinPermuted | scripts/spark_driver.py:1172-1227 | The join of any rearrangements of two inputs is a rearrangement of their join. |
| Frames.CoPartitionedJoin | scripts/spark_driver.py:979-1036 | Partitioning both sides by one hash of the key makes the partition-local joins together exactly the global join. |
| Frames.HashSpreadCorrect | scripts/spark_driver.py:979-1036 | Spreading rows by a hash of the key is such a partitioning and keeps the bag. |
| Frames.JoinSize | scripts/spark_driver.py:1172-1227 | The joined row count is the sum over non-null keys of left count times right count. |
| Meaning.LinearAcceptedTotal | scripts/spark_driver.py:1084-1119 | Typing makes every later column lookup of a linear run defined. |
| Meaning.MultistageAcceptedTotal | scripts/spark_driver.py:1120-1171 | Typing makes every later column lookup of a multistage run defined. |
| Meaning.JoinAcceptedTotal | scripts/spark_driver.py:1293-1308 | Typing makes every lookup in the merged dict of a join, and every projection after it, defined. |
| Meaning.ComposedTyped | scripts/spark_driver.py:495-596 | The composed rename sends each final field to an existing source column of the same type. |
| Meaning.LinearStages | scripts/spark_driver.py:1084-1119 | Executing the linear stages on any arrangement of the exchanged rows gives one projection of the source by the composed mapping, as a bag. |
| Meaning.MultistageStages | scripts/spark_driver.py:1120-1171 | The same through two exchanges and three projections, rearranged freely at both exchanges. |
| Meaning.JoinMapped | scripts/spark_driver.py:1172-1227 | Pruning columns before the join equals pruning them after it when the keys survive. |
| Meaning.JoinStages | scripts/spark_driver.py:1172-1227 | Joining any arrangement of both exchanged sources and projecting gives the projected global inner join of the sources, as a bag. |
| ExchangePaths.UriComponents | scripts/spark_driver.py:1517-1537 | An exchange URI splits into exactly its eight path components. |
| ExchangePaths.UriInjective | scripts/spark_driver.py:268-286 | For safe run ids two exchange URIs are equal if and only if run, attempt and exchange are. |
| ExchangePaths.ExchangesDisjoint | scripts/spark_driver.py:1517-1548 | One exchange lies in the tree a recursive delete of another removes if and only if bucket, run, attempt and exchange are all the same. |
| ExchangePaths.StringPrefixIsNotAncestor | scripts/spark_driver.py:1517-1548 | Though one exchange URI is a string prefix of another of the same attempt, neither path is an ancestor of the other. |
| RuntimeConfiguration.DocumentAccepted | scripts/spark_driver.py:307-363 | A document with a known schema, written canonically with its graph digest for an invocation that expects it, passes the payload checks exactly when its text fits the size bound. |
| RuntimeConfiguration.AcceptedConfigurationTotal | scripts/spark_driver.py:307-363 | Every accepted configuration is canonical text with a graph whose projections are all defined, on 2 to 2000 partitions. |
| SparkDriver.DeleteExchange | scripts/spark_driver.py:1540-1566 | One delete attempt; without an error the exchange is gone and was seen absent during this call, an error needs a fault, and nothing outside its tree changes, though a faulty delete may remove any part of it. |
| SparkDriver.CleanupExchanges | scripts/spark_driver.py:1569-1577 | Every exchange gets its attempt in order even after one fails; without an error each was seen absent during this cleanup and is gone. |
| SparkDriver.RunMultistage | scripts/spark_driver.py:1120-1171 | Without faults the chain succeeds exactly when the source is readable and both exchanges are free, and then produces the meaning and conserves the row count. |
| SparkDriver.RunKeyedJoin | scripts/spark_driver.py:1172-1227 | The same for the join of two exchanged sources, expecting exactly the row count of the meaning and reporting each source's row count and their sum. |
| SparkDriver.Publish | scripts/spark_driver.py:1228-1248 | A success means the readback equalled the expected count; without faults it succeeds exactly when the produced rows number as expected, and the table then holds them; no other table changes. |
| SparkDriver.Execute | scripts/spark_driver.py:1057-1248 | The try block: what is owned; no table but the output may change, none if nothing is owned, and none in a fault-free failure; a success had its expected row count read back; a fault-free run ends in a stated failure, or leaves the target holding the meaning of the graph over the tables as they were and reports how many rows each source and the meaning have. |
| SparkDriver.RunSpark | scripts/spark_driver.py:1057-1276 | Under any faults the owned exchanges are none or those of the accepted graph; each is attempted once, no other stored object and no table but the output changes, a success was read back with its expected count, and without a cleanup error each exchange was seen absent during this run and is gone. Without faults it succeeds exactly when ready, publishing the meaning and reporting exact counts. |
| SparkDriver.RunMain | scripts/spark_driver.py:1393-1425 | Exit 2 prints and changes nothing; afterwards the events tell exactly the outcome of one run, with the ownership, frame, cleanup and readback of that run under any faults, failed runs included; the code printed is the run's own, so a failed cleanup is reported; without faults exit 0 exactly when ready, and the target then holds the meaning and the counts reported are exact. |
| SparkDriver.RunShape | scripts/spark_driver.py:1393-1484 | The grammar read back: one started event, first; one terminal event, last, with the outcome's code or counts; a completion with confirmed cleanup just before it exactly on success. |
| SparkDriver.RunTellsOutcome | scripts/spark_driver.py:1393-1484 | The same events never tell two different outcomes. |
| SparkDriver.OtherRunsUntouched | scripts/spark_driver.py:1540-1577 | Whatever a run, failed or not, does within what it may own, everything under the exchanges of another run or attempt is still there unchanged. |
| StagingPrefix.CheckPage | scripts/benchmarks/redshift.py:1090-1118 | A response is refused exactly when it is malformed; otherwise its keys are taken in order. |
| StagingPrefix.PageTaken | scripts/benchmarks/redshift.py:1090-1118 | One faithful page extends the sorted listing, completes it when it is the last, and otherwise strictly shrinks the keys still after the token. |
| StagingPrefix.PrefixKeys | scripts/benchmarks/redshift.py:1090-1118 | For pages of any size the listing ends, and returns every key under the prefix exactly once in order, or an error exactly when a response was faulty. |
| StagingPrefix.DeletePrefix | scripts/benchmarks/redshift.py:1125-1152 | On success every key under the prefix is gone, sent in batches of 1000 that concatenate to the listing; under any fault no other key is touched. |
| StagingPrefix.SiblingUntouched | scripts/benchmarks/redshift.py:1125-1152 | Keys under a prefix that merely extends this one as a string are not under this one. |
| StagingPrefix.FinishQualification | scripts/benchmarks/redshift.py:146-210 | Schema and prefix are cleaned each regardless of the other; cleanup is reported verified exactly when the profile passed and nothing failed, and then both resources are absent. |
| TargetFence.Warehouse.Claim | src/dander/providers/redshift/fence.py:37-76 | A claim succeeds, and takes the key, exactly when the token rule allows it; otherwise the state is unchanged. |
| TargetFence.Warehouse.ExecuteStatements | src/dander/providers/redshift/fence.py:93-119 | Statements are applied together exactly when the fence holds its key; a lost fence changes nothing. |
| TargetFence.OwnersAdvance | src/dander/providers/redshift/fence.py:145-161 | Over every run of claims and publications the owner of a key keeps its authority and never goes back. |
| TargetFence.SupersededNeverPublishes | README.md:524-537 | Once a newer token holds the key, then after any run the stale one can neither claim it nor change the relation. |
| TargetFence.HolderLosesOnlyToClaims | src/dander/providers/redshift/fence.py:145-161 | A holder keeps its claim over every run in which no other token is allowed to claim the key. |
| TargetFence.OnlyHoldersMutate | README.md:524-537 | If a run changes a relation, some publication in it was made by a fence then holding that target's claim. |
| TargetFence.ExerciseConcurrentFence | scripts/benchmarks/redshift.py:657-710 | For either order of the racing claims, either of which may lose, the newer token ends as holder, the current write lands and the stale one is rejected. |
| TargetFence.NewestAlwaysClaims | scripts/benchmarks/redshift.py:657-710 | Any number of racing claims by tokens the newest may follow leaves the newest able to claim. |
| PaddedDecimals.PaddedIsZeroFill | scripts/benchmarks/bigquery_incremental_phase8.py:683-696 | The padded form is the digits of the number behind zeros, whenever it fits. |
| PaddedDecimals.PaddedOrder | scripts/benchmarks/bigquery_incremental_phase8.py:683-696 | Padded numbers compare as text exactly as they do as numbers, and are equal only when the numbers are. |
| MergeWriter.WinnerIsGreatest | src/dander/providers/postgresql/writer.py:608-628 | Deduplication keeps the latest of an id's records with the largest cursor, or simply the latest without a cursor field. |
| MergeWriter.MergeIsUpsertFold | src/dander/providers/postgresql/writer.py:558-605 | Deduplicating a batch and merging it at once equals upserting its records one by one, guarded or not, also over stored rows whose cursor is NULL. |
| MergeWriter.WriteBatches | scripts/benchmarks/postgresql_phase8.py:1493-1503 | Writing succeeds exactly when no record lacks a cursor the writer needs; the batches concatenate to what was written, all full except possibly the last, and the table is the batch-size-free upsert fold of it. On success that is the whole stream and the result is the sum of affected rows; otherwise writing stops before the first batch with such a record. |
| MergeWriter.ReplayIsNoOp | scripts/benchmarks/postgresql_phase8.py:799-806 | Writing the same records a second time changes nothing. |
| MergeWriter.RegressionRejected | src/dander/providers/postgresql/writer.py:580-587 | One record affects no row if the stored cursor is known and larger, and otherwise, a NULL stored cursor included, replaces exactly its row. |
| MergeWriter.DistinctAffected | scripts/benchmarks/postgresql_phase8.py:1493-1503 | Distinct accepted records are each counted once, whatever the batching. |
| MergeWriter.CountSizeFreeIff | scripts/benchmarks/postgresql_phase8.py:1493-1503 | The summed count is the same for every two batch sizes if and only if no two records accepted one by one share an id. |
| MergeWriter.UnguardedCountIff | scripts/benchmarks/postgresql_phase8.py:1493-1503 | Without a cursor the summed count is the same for every two batch sizes if and only if the stream repeats no id. |
| MergeWriter.RepeatedRowCounts | scripts/benchmarks/postgresql_phase8.py:1493-1503 | Two versions of one row count as one in a batch of two; one by one they count as two, unless a guarded writer refuses the second. |
| IncrementalOracle.FinalTable | scripts/benchmarks/postgresql_phase8.py:1512-1525 | After seed and delta exactly the lowest half of the delta is updated, the other half inserted, and every other seed row is as it was. |
| IncrementalOracle.BigQueryOracleIffEven | scripts/benchmarks/bigquery_incremental_phase8.py:468-517 | For every admissible size the counts read from that table equal the expected tuple if and only if the delta is even. |
| IncrementalOracle.PostgresOracle | scripts/benchmarks/postgresql_phase8.py:1589-1617 | For every admissible size the PostgreSQL counts equal their expected values. |
| IncrementalOracle.RunPostgresIncremental | scripts/benchmarks/postgresql_phase8.py:930-969 | Written in batches of any size, seed and delta each affect exactly their own number of rows, the regression none, and the table is the one the oracle counts. |
| IncrementalOracle.CursorIsGreatest | scripts/benchmarks/bigquery_incremental_phase8.py:520-523 | With regressions refused the cursor is the greatest proposal so far. |
| TransformOracle.JoinOneToOne | scripts/benchmarks/bigquery_transform_phase8.py:482-494 | Facts with existing dimensions join one to one, so no row is lost or repeated. |
| TransformOracle.ExpectedAggregates | scripts/benchmarks/bigquery_transform_phase8.py:664-674 | The accumulating loop returns the group totals and counts of the joined rows over the ten categories in sorted order. |
| TransformOracle.TenCategoriesIff | scripts/benchmarks/bigquery_transform_phase8.py:562-625 | Exactly the ten categories occur if and only if there are at least ten dimensions and ten facts. |
| TransformOracle.GroupByMatchesOracleIff | scripts/benchmarks/bigquery_transform_phase8.py:562-625 | The query's group-by equals the oracle's list if and only if there are at least ten dimensions and ten facts. |
| TransformChecks.BigQueryInitialIff | scripts/benchmarks/bigquery_transform_phase8.py:562-625 | Everything the BigQuery harness reads from the four models of the first build equals what it demands if and only if there are at least ten dimensions and ten facts. |
| TransformChecks.PostgresInitialIff | scripts/benchmarks/postgresql_phase8.py:1369-1409 | So do the seven counts and sums of the PostgreSQL harness. |
| TransformOracle.TotalsConserved | scripts/benchmarks/bigquery_transform_phase8.py:664-674 | Per-category totals and counts add up to the sum of i mod 17 and to the number of facts. |
| TransformOracle.IncrementalMergeExact | scripts/benchmarks/bigquery_transform_phase8.py:497-559 | Merging any cursor-filtered part that contains every changed row turns the old model into the new one. |
| TransformOracle.MutationMerged | scripts/benchmarks/bigquery_transform_phase8.py:628-634 | After the update and the insert, the incremental merge over any watermark up to 2 gives exactly the newly joined rows, for any number of dimensions. |
| TransformChecks.MutationOracleIff | scripts/benchmarks/postgresql_phase8.py:1412-1431 | Though the merged table is always right, what either harness reads from it equals what it demands if and only if there are at least two dimensions. |
| Crossover.RunCrossover | scripts/benchmarks/postgresql_crossover_phase8.py:318-343 | The nested loops return the scheduled samples exactly when both transports agree on every size in every repetition. |
| Crossover.OneSampleEach | scripts/benchmarks/postgresql_crossover_phase8.py:318-343 | For each transport and size the schedule holds exactly one sample per repetition, in order, and none for other sizes. |
| Crossover.OrdersBalanced | scripts/benchmarks/postgresql_crossover_phase8.py:318-325 | Among the pairs of samples the schedule contains for a size, COPY leads and DIRECT leads add up to the repetitions and are equally many, or differ by the one an odd count forces. |
| Crossover.MedianCentral | scripts/benchmarks/postgresql_crossover_phase8.py:490-506 | The median of an odd sample is one of its values with more than half the sample on each side, itself included. |
| Crossover.MedianUnique | scripts/benchmarks/postgresql_crossover_phase8.py:490-506 | No other number has more than half the sample on each side. |
| Crossover.ScheduleMedian | scripts/benchmarks/postgresql_crossover_phase8.py:490-506 | For an odd number of repetitions every median taken of a schedule is central among exactly that many durations. |
| Crossover.RecommendedDirectMaxRows | scripts/benchmarks/postgresql_crossover_phase8.py:369-379 | The loop returns the last size of the longest prefix on which DIRECT is no slower, or 0. |
| Crossover.RecommendationMeans | scripts/benchmarks/postgresql_crossover_phase8.py:369-379 | For ascending sizes, a size is within the recommendation if and only if DIRECT is no slower at it and at every smaller one. |
| Crossover.Recommend | scripts/benchmarks/postgresql_crossover_phase8.py:302-366 | Measuring, taking medians and recommending together: a tested size is within the result if and only if the median of its repetitions, and of every smaller size's, favours DIRECT. |
| DeferredCost.LoadFields | scripts/benchmarks/redshift_bulk_phase8.py:339-350 | In whatever order the fields are visited, loading succeeds exactly when query ids are strings and every measurement is a non-negative integer, and keeps them all; each error names a field that is wrong. |
| DeferredCost.LoadWorkload | scripts/benchmarks/redshift_bulk_phase8.py:308-360 | A document loads exactly when it carries this execution's coordinates and a complete verified workload; schema and execution mismatches have their own errors. |
| DeferredCost.LoadsOnlyItsExecution | scripts/benchmarks/redshift_bulk_phase8.py:284-360 | An interim loads under an execution if and only if that execution wrote it, with the same schema, configuration hash, identity, approval reference and ceiling, and gives the workload back. |
| DeferredCost.AcceptedIsInterim | scripts/benchmarks/redshift_bulk_phase8.py:308-360 | Whatever loads carries, under every key looked at, the interim of this execution for some finished workload. |
| DeferredCost.QuantizeError | scripts/benchmarks/redshift_bulk_phase8.py:378-380 | Half-up rounding gives a 12-place amount within 5e-13 of the exact one, keeps 12-place amounts, and never goes below zero from above. |
| DeferredCost.QuantizeMonotone | scripts/benchmarks/redshift_bulk_phase8.py:378-380 | Rounding is monotone, also across zero. |
| DeferredCost.CeilingIff | scripts/benchmarks/redshift_bulk_phase8.py:858-864 | The rounded cost is within a 12-place ceiling if and only if the exact cost is below the ceiling plus 5e-13; the general ceiling has its own exact condition. |
| DeferredCost.Finalize | scripts/benchmarks/redshift_bulk_phase8.py:1103-1118 | Finalizing a text yields a costed workload exactly when it is JSON, loads, and the three measurements are acceptable. |
| DeferredCost.DeferredEqualsDirect | scripts/benchmarks/redshift_bulk_phase8.py:284-397 | Writing the interim with ASCII escapes, parsing, loading and costing it gives the direct result for every usage a direct run accepts with positive capacity, and nothing at capacity zero or under another execution. |
| LauncherPreflight.NeverCutShortIff | scripts/benchmarks/redshift_launcher_preflight.py:173-199 | For every configuration with a positive timeout the deadline costs no timely loop a probe if and only if the window holds all probes and the pauses between them. |
| LauncherPreflight.ExactNeverCutShort | scripts/benchmarks/redshift_launcher_preflight.py:27-30 | With 12, 4, 5 and 115 no timely durations are cut short. |
| LauncherPreflight.RunProbes | scripts/benchmarks/redshift_launcher_preflight.py:173-199 | With timely calls the loop ends by its deadline; it makes at most the configured probes, stops at the first that passes, and otherwise stops early only where the deadline rules say so. |
| LauncherPreflight.RunPreflight | scripts/benchmarks/redshift_launcher_preflight.py:144-199 | Log and calls follow one grammar: the gates, the connector import, then numbered probes, each opened connection closed within its own probe; the log is lost exactly when the run is refused, the connector is missing or a close raises; with the exact constants and timely calls a failing loop has made all four probes. |
| LauncherPreflight.LogReadsBack | scripts/benchmarks/redshift_launcher_preflight.py:324-343 | The printed log determines how the preflight went, gate by gate and probe by probe. |
| LauncherPreflight.PrefixMeansQuery | scripts/benchmarks/redshift_launcher_preflight.py:414-421 | The gate's name-prefix test picks out exactly the validation-query stages. |
| LauncherPreflight.GateReadsLog | scripts/benchmarks/redshift_launcher_preflight.py:414-421 | The last stage alone passes the gate if and only if all three gates were passed and the last probe's query succeeded. |
| LauncherPreflight.RunMain | scripts/benchmarks/redshift_launcher_preflight.py:388-410 | Exit code 0 if and only if environment, IAM and credentials succeeded, the last query and its close succeeded, and the upload did; every other run exits 3. The stages printed are the log of the run, or one internal failure when it lost its log, and then a failed upload; the calls made are those of that run and one upload. |
| LauncherPreflight.ReportReadsBack | scripts/benchmarks/redshift_launcher_preflight.py:388-410 | The stages a command prints determine whether it was configured, how its preflight went and whether the upload failed, up to the way in which a log was lost. |

## Left out

- Argument parsing, environment variables, file reading, timestamps, telemetry payloads and report assembly, in the
  driver and in every harness.
- SparkDriver.RunMain: takes the parsed invocation and runtime context as validated or not; how they are parsed, the
  driver pair check, and the contents of the events other than their kind, result and owned exchanges, are not
  modelled.
- SparkDriver.RunSpark: exceptions outside `Exception`, failures of printing, and an import that raises something
  other than `ImportError`, which leaves the command without a terminal event, are not modelled.
- CanonicalIdentity.LoadsEncode: floats, NaN, infinities, lone surrogates, byte decoding and Python's recursion and
  digit limits are not modelled.
- Frames.JoinCount: NaN keys, Spark's dotted names and case-insensitive column resolution are not modelled.
- StagingPrefix.PrefixKeys: a page token is modelled as the last key returned, keys do not change during a listing,
  and a faulty response is one the loop's own checks can see.
- TargetFence.ExerciseConcurrentFence: database errors other than a lost claim are not modelled, and the two racing
  claims are taken in one order or the other, each atomic, as their transactions make them.
- MergeWriter.WriteBatches: the writer's column checks, staging relations and transports are not modelled.
- IncrementalOracle.RunPostgresIncremental: the BigQuery run's job accounting is not modelled.
- TransformOracle.MutationMerged: the SQL of the models is taken as join, group-by and cursor-filtered merge; leases
  and the transform graph are not modelled.
- Crossover.Recommend: durations are a function of transport, size and repetition; staging and schema cleanup of this
  harness are not modelled.
- DeferredCost.DeferredEqualsDirect: decimal context precision is not modelled, and the ceiling is compared as text
  as in the code.
- LauncherPreflight.RunMain: of the configuration only the four readiness values are modelled, a malformed credential
  is a failed connection, and elapsed times are not part of a stage.
- The other benchmark modules repeat the cores modelled here; `scripts/watch_workflows.py` and the release checks are
  rendering and constant comparison.
