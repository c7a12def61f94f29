# Verified model of the ingestion pipeline

The repository is a multi-tenant document pipeline. Connectors find files and announce them on a raw Kafka topic; the
doc-processor cuts each file into token windows; the embedding worker turns the windows into rows of one Milvus collection
per tenant; the RAG API answers queries from those collections; a quota service counts usage; a metadata service keeps
a lineage graph; an operator upgrades the whole. This project models the stateful parts of those services and proves what
they keep over whole runs, with crashes, redeliveries, failing backends and interleaved callers as free choices of
the environment.

How the model is built:

- **Effects and crashes.** A service that performs a sequence of durable effects has a *plan*: the list of those effects
  as a function of its input and of what the environment answers. The imperative class is proved to carry out exactly
  that plan, and a crash, or an exception outside the `try` blocks, leaves a prefix of it. The run theorems
  then range over every prefix of every plan.
- **Kafka.** `commit(message=m)` sets a per-partition mark at `m.offset + 1`, so it also covers earlier messages
  that were never committed. A crash moves the read position back to that mark. A `produce` followed by a `flush`
  that does not raise is durable; a failed publish may have delivered any part of what it was given.
- **Redis, Postgres, Milvus.** One command, one pipeline, one handled event and one upsert call are atomic steps. A
  Redis command may raise before or after it took effect. Milvus keeps the last row written per key.
- **Clocks** are numbers supplied by the environment, real-valued where the code compares floats.
- **Foreign code** (tokenizer, parser, embedding model, hash, `int`) is an arbitrary function; where a result needs the
  hash to be collision-free, its lemma says so.

Where the code and its documentation differ, the model follows the code:

- `docs/ai-data-pipeline-error-handling.md:209-210` and `docs/metadata-lineage.md:44` make `doc_id` a hash of the content or of its
  reference. The code hashes source type, source id and *event id* (`services/doc-processor/src/processor.py:235-238`), so a
  file announced twice becomes two documents (`Identity.DocIdFollowsEventId`).
- `docs/ai-data-pipeline-error-handling.md:185` and the breaker's own log line speak of consecutive failures. Successes while closed
  do not clear the count (`CircuitBreaker.SuccessesDoNotClear`).
- `scripts/sessions/1-B.md:43` says a file that failed does not advance the watermark. Another file of the same poll does, and
  then the failed one is never tried again (`S3Connector.FallsBehindIff`).
- The module header of the quota service calls its check atomic. The rollback is a separate command, and
  `QuotaProtocol.DriftIsReached` shows the window limit overshot because of it.

## Model

| member | source | states |
|---|---|---|
| Identity.ChunkIdInjective | services/doc-processor/src/chunker.py:14 | `{doc_id}:{index}` determines the document and the position, whatever characters the document id holds |
| Identity.DocIdFollowsEventId | services/doc-processor/src/processor.py:235-238 | with a collision-free hash and UUID event ids, equal document ids mean equal event ids, and one source object announced under two event ids is two documents |
| Identity.CollectionNameInjective | services/embedding-worker/src/worker.py:177 | two tenants never share a collection |
| Identity.QuotaKeysTellApartIff | services/quota-service/src/quota_service.py:109-110 | a set of metric names keeps the counters of all tenants apart if and only if no name in it is another one behind a prefix and a colon |
| Identity.QuotaKeyInjective | services/quota-service/src/quota_service.py:47-57 | among metric names without a colon, as all the listed ones are, a counter key belongs to one tenant and one metric |
| Identity.DedupKeyInjective | services/quota-service/src/quota_service.py:112-113 | one marker belongs to one event id |
| Identity.DedupKeyIsNoQuotaKey | services/quota-service/src/quota_service.py:109-113 | dedup markers and counters never collide in the shared keyspace |
| Chunker.FixedSizeChunker.ChunkText | services/doc-processor/src/chunker.py:30-49 | for any size and overlap, also zero or negative, the loop ends and returns the slices it takes, numbered from 0 under the document id, none for a text without tokens |
| Chunker.ChunksAreWindows | services/doc-processor/src/chunker.py:36-49 | for a positive size and no negative overlap the chunks are exactly the 1 + ceil(max(0, n - size) / step) windows |
| Chunker.ReconstructsIff | services/doc-processor/src/chunker.py:36-49 | the chunks hold the whole of every text if and only if the size is positive and the overlap not negative |
| Chunker.WindowsReachEndOnce | services/doc-processor/src/chunker.py:40-48 | exactly the last of the 1 + ceil(max(0, n - size) / step) windows reaches the end of the tokens, and no window starts behind it |
| Chunker.WindowsReconstruct | services/doc-processor/src/chunker.py:36-48 | the first step tokens of every window but the last, followed by the last window, are the tokens of the text |
| Chunker.TokenTotal | services/doc-processor/src/chunker.py:36-48 | the token counts of K windows add up to n + (K - 1)(size - step) |
| Chunker.NoWindowContainsAnother | services/doc-processor/src/chunker.py:40-48 | start and end move strictly forward, so no window lies inside another |
| DocProcessor.DocumentProcessor.RouteToDlq | services/doc-processor/src/processor.py:212-232 | one envelope is written, or none when the write raises, and the error goes no further |
| DocProcessor.DocumentProcessor.PublishChunks | services/doc-processor/src/processor.py:165-194 | success means every chunk event is on the topic in order; on failure only the delivered ones are |
| DocProcessor.DocumentProcessor.ProcessMessage | services/doc-processor/src/processor.py:96-163 | one message performs exactly its plan: garbage is committed, fetch and parse errors go to the DLQ and are committed, a failed publish goes to the DLQ without a commit, an empty document is only committed |
| DocProcessorRuns.PlanCommitsLast | services/doc-processor/src/processor.py:105-163 | a commit is the last effect of its message's plan, and by then the message is published, dead-lettered, undecodable or dropped |
| DocProcessorRuns.NextKeepsInv | services/doc-processor/src/processor.py:78-163 | every step (start, one more durable effect, finish, crash) keeps the accounting invariant, and no committed mark moves back |
| DocProcessorRuns.CommitSafety | services/doc-processor/src/processor.py:105-163 | in every state of every run each offset below a committed mark is undecodable, dead-lettered, fully published or had its DLQ write dropped, although a later commit passes over a failed message |
| DocProcessorRuns.NoDropWhenDlqWorks | services/doc-processor/src/processor.py:212-232 | as long as DLQ writes succeed nothing is dropped, so every offset below the mark is accounted for |
| DocProcessorRuns.LostExactlyWhen | services/doc-processor/src/processor.py:114-147 | a complete attempt loses its message exactly when the DLQ write raises after a failed fetch, a failed parse, or a publish that did not deliver every chunk |
| Milvus.UpsertKeys | services/embedding-worker/src/milvus_writer.py:78-102 | an upsert adds the written ids, drops none and leaves all others untouched |
| Milvus.UpsertHoldsLast | services/embedding-worker/src/milvus_writer.py:90-100 | a written id holds the last of the rows that carry it |
| Milvus.UpsertAbsorbs | services/embedding-worker/src/milvus_writer.py:10-11 | writing some of the rows, then all of them, is the same as writing all of them once |
| Milvus.MilvusWriter.EnsureCollectionByName | services/embedding-worker/src/milvus_writer.py:42-73 | the collection exists and is cached afterwards; an existing one keeps its rows, a new one is empty |
| Milvus.MilvusWriter.Upsert | services/embedding-worker/src/milvus_writer.py:78-102 | the named collection, or the default one for an empty name, receives the rows by chunk id; an empty list touches nothing |
| EmbeddingWorker.EmbeddingWorker.CollectBatch | services/embedding-worker/src/worker.py:227-254 | the batch is the decodable messages among the polls made, in order, at most batch_size of them; undecodable ones vanish |
| EmbeddingWorker.EmbeddingWorker.GroupByTenant | services/embedding-worker/src/worker.py:171-174 | the groups are the rows of each tenant in batch order, tenants in order of first appearance |
| EmbeddingWorker.EmbeddingWorker.CountByTenant | services/embedding-worker/src/worker.py:192-194 | each tenant of the batch is counted as often as it occurs |
| EmbeddingWorker.EmbeddingWorker.EmbedWithRetry | services/embedding-worker/src/worker.py:125-153 | the second attempt decides after a failed first one, and its kind of error is the one reported |
| EmbeddingWorker.EmbeddingWorker.SendAllToDlq | services/embedding-worker/src/worker.py:140-150 | one envelope per message, in batch order, with the given reason |
| EmbeddingWorker.EmbeddingWorker.WriteGroups | services/embedding-worker/src/worker.py:176-188 | one upsert per tenant up to the first failure, which sends the whole batch to the DLQ |
| EmbeddingWorker.EmbeddingWorker.ProcessBatch | services/embedding-worker/src/worker.py:116-225 | a batch performs exactly its plan |
| EmbeddingBatch.GroupsPartitionRows | services/embedding-worker/src/worker.py:171-174 | the tenant groups are a permutation of the batch's rows: every row in exactly one group, as often as it occurs |
| EmbeddingBatch.BatchConservation | services/embedding-worker/src/worker.py:125-225 | a failed batch yields one envelope per message, no commit and no embedding event; a successful one commits every message, announces every chunk and reports usage that adds up to its length; only a backend that returns None leaves no effect |
| EmbeddingBatch.UpsertsLeftBehind | services/embedding-worker/src/worker.py:176-188 | the upserts of a batch are one group per tenant in order of first appearance: all on success; on failure those before the first failing tenant, and that tenant's own if its rows were in before the flush raised |
| EmbeddingBatch.UpsertsStayWithTenant | services/embedding-worker/src/worker.py:176-183 | a collection only receives rows of its own tenant, each with the vector in its message's position |
| EmbeddingBatch.PlanCovers | services/embedding-worker/src/worker.py:176-225 | in front of every commit, and at the end of a plan of a batch with vectors or an error, every message of the batch is stored under its own tenant or dead-lettered |
| EmbeddingBatch.StoresEveryMessageIff | services/embedding-worker/src/worker.py:152-169 | a batch of distinct chunks that does not fail stores every message if and only if the backend returned vectors, and at least one per text; it commits every message whenever there were vectors |
| EmbeddingWorkerRuns.NextKeepsInv | services/embedding-worker/src/worker.py:116-265 | every step (append, poll, process, one more durable effect, finish, crash) keeps the invariant, and no committed mark moves back |
| EmbeddingWorkerRuns.CommitSafety | services/embedding-worker/src/worker.py:116-254 | in every state, also after a crash between two DLQ writes, each offset below a mark was undecodable, has an envelope, was in a batch for which the backend returned None, or has a row of a logged chunk with its id in its own tenant's collection, its own row when ids are used consistently |
| EmbeddingWorkerRuns.NothingSkipped | services/embedding-worker/src/worker.py:152-153 | as long as the backend never returns None no message is skipped that way |
| EmbeddingWorkerRuns.PolledLaterIff | services/embedding-worker/src/worker.py:224-265 | a message can still be polled if and only if no commit of its partition has passed it, so a batch without vectors is lost exactly when a later commit passes it before a crash |
| Delivery.ChunkIdentity | services/doc-processor/src/processor.py:134-141 | chunk events with one chunk id are one chunk, however often they were published |
| Delivery.NextKeepsInv | services/embedding-worker/src/worker.py:227-265 | the two stages and the chunk topic between them, interleaved in any order, keep both invariants and the link between what was published and what can be read |
| Delivery.CommittedChunksAreSafe | services/embedding-worker/src/worker.py:116-254 | behind the doc-processor the worker's commit safety needs no assumption on chunk ids: each committed offset was undecodable, has an envelope, was in a batch without vectors, or has its own row |
| Delivery.ExactlyOnceEffect | services/embedding-worker/src/worker.py:157-188 | after any run of both stages every collection is, up to created_at, part of the one a single crash-free pass builds, and a chunk id has at most one row in the whole store |
| Delivery.CompleteOnceUpserted | services/embedding-worker/src/milvus_writer.py:78-102 | once every chunk has been upserted at least once, the store equals the crash-free pass |
| Delivery.MissingIsExplained | services/embedding-worker/src/worker.py:116-254 | when both groups have committed everything, a missing chunk's document or chunk message is in a DLQ, its DLQ write was dropped, or it was in a batch without vectors |
| Delivery.DrainedPipelineIsExact | services/doc-processor/src/processor.py:134-161 | with everything committed, empty DLQs, nothing dropped and no batch without vectors, the store equals the crash-free pass |
| QuotaService.QuotaService.CheckQuota | services/quota-service/src/quota_service.py:120-194 | alone on a key: ALLOWED, with the new usage, and counted exactly when counter plus amount fits the limit; a denial reports the usage before and restores every counter; a Redis error answers ALLOWED with usage 0 and is counted as skipped |
| QuotaService.QuotaService.RecordUsage | services/quota-service/src/quota_service.py:198-221 | a marked event changes nothing; an unmarked one is marked for a day, then added; a crash between the two leaves the marker only; the counter gets no expiry |
| QuotaService.QuotaService.GetUsage | services/quota-service/src/quota_service.py:225-236 | the counter as it stands, 0 for a missing key, and 0 with the unlimited flag for no limit |
| QuotaProtocol.NextKeepsInv | services/quota-service/src/quota_service.py:141-194 | every atomic step of any number of concurrent calls keeps the conservation of the counter |
| QuotaProtocol.AdmissionSafety | services/quota-service/src/quota_service.py:141-194 | without expiry the normally admitted amounts never exceed L; the counter is what was won and recorded plus pending rollbacks plus stranded amounts; the skip counter counts the fail-open answers |
| QuotaProtocol.WindowDrift | services/quota-service/src/quota_service.py:149-155 | with expiry, admissions since the last expiry are at most the limit plus the rollbacks issued before an expiry and applied after it |
| QuotaProtocol.DriftIsReached | services/quota-service/src/quota_service.py:149-155 | for every limit there is a run that admits the limit plus the late rollback in one window |
| QuotaDrift.CanOvershootIff | services/quota-service/src/quota_service.py:149-155 | in every reached state a continuation before the next expiry can admit more than the limit in the window if and only if won increments exceed it already, or late rollbacks, applied or still to come, exceed what was recorded and stranded in the window |
| QuotaProtocol.BusyKeyNeverExpires | services/quota-service/src/quota_service.py:150-152 | a key whose increments come less than one TTL apart never expires |
| QuotaProtocol.BusyKeyNeverResets | services/quota-service/src/quota_service.py:48-58 | on such a key the limit meant for one window bounds the admissions of the whole run |
| QuotaProtocol.SoloCall | services/quota-service/src/quota_service.py:143-166 | the interleaved steps of a call that runs alone admit and count exactly when the amount fits |
| UsageDedup.CountersAreFirstCalls | services/quota-service/src/quota_service.py:198-221 | after any sequence of calls each counter is the sum over the first, uncrashed calls of distinct event ids made for that tenant and metric |
| UsageDedup.CrashesOnlyLose | services/quota-service/src/quota_service.py:215-218 | with non-negative amounts a counter is at most what the first calls asked for, and exactly that when none of them crashed |
| UsageDedup.TotalUsage | services/quota-service/src/quota_service.py:198-221 | the total over all counters is the sum over distinct event ids of the first call's amount, crashed calls adding nothing |
| UsageProtocol.SoloIsRecord | services/quota-service/src/quota_service.py:211-218 | the interleaved steps of a call that runs alone are one step of the sequential model, crash or not |
| UsageProtocol.CountersAreCredits | services/quota-service/src/quota_service.py:211-218 | under any interleaving, with crashes and marker expiries, each counter is the sum over the calls on its key that read the marker as absent and reached INCRBY |
| UsageProtocol.OnceForGoodIff | services/quota-service/src/quota_service.py:211-218 | from any state an event is credited at most once in every continuation in which no further call of it gets past EXISTS, if and only if at most one of its calls is past EXISTS and not dead before its INCRBY |
| UsageProtocol.CreditedOnceIff | services/quota-service/src/quota_service.py:211-218 | after any run without expiry of the marker that is the case if and only if no two of its calls, not dead before their INCRBY, both got past EXISTS before either's SETEX |
| UsageProtocol.OverlapCountsTwice | services/quota-service/src/quota_service.py:211-218 | a run in which two such calls overlap ends with the amount counted twice |
| Lineage.MetadataConsumer.UpsertEntityRow | services/metadata-service/src/db.py:30-63 | attributes are replaced; run and schema version of the first insert stay |
| Lineage.MetadataConsumer.InsertLineageEdge | services/metadata-service/src/db.py:66-94 | an edge without its upstream entity is dropped, a present one keeps its run |
| Lineage.MetadataConsumer.InsertQualityChecks | services/metadata-service/src/db.py:97-125 | one row per check is appended, and the failed checks are returned in order |
| Lineage.MetadataConsumer.UpdateEntityQualityFailed | services/metadata-service/src/db.py:128-139 | only the quality status of the one entity changes |
| Lineage.MetadataConsumer.ProcessEvent | services/metadata-service/src/consumer.py:31-94 | upsert, edges, checks, failure mark and failure event, in that order; malformed references are skipped |
| Lineage.MetadataConsumer.Run | services/metadata-service/src/consumer.py:96-115 | the consume loop folds the events it polls into the store |
| Replay.FoldEntity | services/metadata-service/src/db.py:43-52 | after a pass over any log an entity has the attributes its last event left, and the run and schema version of its first |
| Replay.FirstPass | services/metadata-service/src/consumer.py:57-69 | one pass from an empty store inserts exactly the edges whose upstream entity had been upserted when they were declared |
| Replay.SecondPass | services/metadata-service/src/consumer.py:96-115 | a second pass, in whatever order it delivers the events, makes the edges exactly the declared ones whose upstream entity occurs anywhere in the log |
| Replay.ReplayFixpoint | services/metadata-service/src/consumer.py:47-115 | entities are final after one pass, edges after two, a third pass changes neither; quality rows are inserted again by every pass |
| Replay.RestartsConverge | services/metadata-service/src/consumer.py:96-115 | over any restarts at any points every stored edge is a declared one with a known upstream entity, and after two complete replays all of those are stored for good |
| Replay.UnmatchedRefsNeverBecomeEdges | services/doc-processor/src/metadata_event.py:73-79 | a reference to a key no event carries, such as a RawDocument named by doc_id, is without an edge in every state |
| LineageQueries.UpstreamRowsAreWalks | services/metadata-service/src/db.py:142-169 | the upstream query returns one row per upstream walk of length 0 to 5 from a matching entity and no other, on cyclic edge sets too |
| LineageQueries.DownstreamRowsAreWalks | services/metadata-service/src/db.py:172-201 | the downstream query counts one row per downstream walk of length 1 to 4 from a matching document and no other |
| LineageQueries.UpstreamDownstreamAgree | services/metadata-service/src/db.py:142-201 | at every depth y has as many upstream walks to x as x has downstream walks to y |
| LineageQueries.CountsEntitiesExactlyWhen | services/metadata-service/src/db.py:190-197 | per entity type the downstream query collects one key for each walk that ends at an entity of the type; when no entity has two incoming edges, its count is the number of distinct descendants of the type if and only if none of them lies within four steps of a start document beyond another one |
| LineageQueries.SingleStartCounts | services/metadata-service/src/db.py:177-197 | with a single start document on no cycle of up to three edges the counts are exact |
| LineageQueries.NestedStartsCountTwice | services/metadata-service/src/db.py:177-197 | acyclic single parents are not enough: below two nested start documents an entity is counted twice |
| LineageQueries.DistinctEndsCount | services/metadata-service/src/db.py:192-197 | walks are as many as the distinct entities they end in exactly when no two end in the same one |
| LineageQueries.UpstreamRowsStayInTenant | services/metadata-service/src/db.py:147-161 | although the upstream query does not filter by tenant, on a store built from any log each row is an existing entity of the tenant of the very start its walk begins at |
| LineageQueries.DownstreamRowsStayInTenant | services/metadata-service/src/db.py:177-191 | on a store built from any log the downstream query counts existing entities of the asking tenant only |
| SchemaVersions.SchemaVersionTable.CreateSchemaVersion | services/metadata-service/src/db.py:278-321 | the tenant's versions are retired and the new current one gets the next number; the table stays numbered |
| SchemaVersions.CreateKeepsNumbered | services/metadata-service/src/db.py:292-311 | creating a version keeps every tenant's numbering and its single current version |
| SchemaVersions.VersionsAreNumbered | services/metadata-service/src/db.py:278-321 | a tenant with m versions has exactly one current version, number m, and the numbers 1 to m once each |
| SchemaVersions.RunKeepsNumbered | services/metadata-service/src/db.py:278-321 | any run of version creations, one after the other, and metadata events keeps the numbering |
| VersionRaces.UninterruptedIsCreate | services/metadata-service/src/db.py:291-320 | a creation that nobody interrupts does what the sequential model does |
| VersionRaces.NextKeepsInv | services/metadata-service/src/db.py:291-320 | with overlapping creations a version is current exactly while no later creation of its tenant started after its commit |
| VersionRaces.OneCurrentIff | services/metadata-service/src/db.py:291-320 | in every state the numbers follow the commits, and of a tenant with two or more versions exactly one is current if and only if the last call to commit had started its UPDATE after the one before had committed |
| SchemaVersions.StaleListedOnce | services/metadata-service/src/db.py:204-226 | the stale query lists each embedding recorded under an outdated version exactly once and nothing else |
| SchemaVersions.StaleForever | services/metadata-service/src/db.py:47-52 | an embedding once listed by the stale query is listed exactly once by it after every later run, since an upsert never changes its schema version |
| SchemaVersions.UnversionedNeverStale | services/embedding-worker/src/metadata_event.py:51-99 | an entity first recorded without a schema version, as the worker's embeddings are, is never listed |
| CircuitBreaker.CircuitBreaker.State | services/rag-api/src/circuit_breaker.py:24-29 | reading the state moves an open breaker to half-open once the recovery time has passed, and does nothing else |
| CircuitBreaker.CircuitBreaker.Invoke | services/rag-api/src/circuit_breaker.py:31-44 | rejected while open; a success resets a half-open breaker only; a failure is counted at its end; a nested open error passes through uncounted |
| CircuitBreaker.CircuitBreaker.RecordFailure | services/rag-api/src/circuit_breaker.py:46-52 | the failure is counted and dated, and the breaker opens at the threshold |
| CircuitBreaker.CircuitBreaker.Reset | services/rag-api/src/circuit_breaker.py:54-58 | the breaker is as new |
| CircuitBreaker.RefinesSpecIff | services/rag-api/src/circuit_breaker.py:24-58 | on every run, with state reads anywhere, every call is answered as by the specification that knows only the failures since the last reset and the time of the last one; true exactly for threshold >= 1 or recovery <= 0 |
| CircuitBreaker.ReadsChangeNothing | services/rag-api/src/circuit_breaker.py:24-29 | state reads between the calls never change any call's answer |
| CircuitBreaker.SuccessesDoNotClear | services/rag-api/src/circuit_breaker.py:35-39 | until the threshold is reached the count is the number of failures, however many successes lie between them |
| CircuitBreaker.DeadBackendRate | services/rag-api/src/circuit_breaker.py:24-52 | if every backend call fails, the calls that reach it within a time T number at most threshold + T / recovery |
| RagCache.RagService.Query | services/rag-api/src/app.py:67-212 | a live entry is returned and leaves the breaker alone; otherwise the search runs behind the breaker, is cut to top_k, filtered, and stored with its time unless the lookup had failed; a rejected or failed search is answered with unavailable and stores nothing |
| RagCache.RagService.Select | services/rag-api/src/app.py:151-162 | the comprehension keeps exactly the hits at or above the minimum score, in order |
| RagCache.UninterruptedIsServe | services/rag-api/src/app.py:67-212 | a request whose stages run without interruption does what the method does, so the interleaved machine models the same code |
| RagCache.RunTracesCache | services/rag-api/src/app.py:164-178 | over any run the cache holds for a key exactly what was written last and not evicted since |
| RagCache.HitsExactlyWhen | services/rag-api/src/app.py:79-86 | a lookup hits if and only if the key was last written less than one TTL ago and not evicted since |
| RagCache.AnswersAreOwnSearches | services/rag-api/src/app.py:72-178 | on every interleaving an uncached answer is its own request's direct search between its arrival and its answer, and a cached one the direct search of the asking tenant's collection by the request that wrote the key last, less than one TTL ago, which is of the same tenant and differs in the minimum score at most |
| RagCache.CacheTransparent | services/rag-api/src/app.py:34-39 | when requests that share a key share the minimum score, every answer is the asker's own direct search: within the request, or as of the search whose result was stored last, less than one TTL ago |
| RagCache.SecondAnswerIff | services/rag-api/src/app.py:34-39 | after one request has filled the cache, the next gets its own direct answer in every world exactly when the keys differ, the minimum scores agree, top_k is 0, or entries have no lifetime |
| S3Connector.S3Connector.Poll | services/connector-s3/src/connector.py:78-147 | a completed poll performs exactly its plan and stores the newest published time, if that changed |
| S3Connector.AdvancedIsMax | services/connector-s3/src/connector.py:129-130 | the new watermark is the maximum of the old one and the times of the objects published |
| S3Connector.DoneStores | services/connector-s3/src/connector.py:146-147 | only a completed poll stores a watermark |
| S3Connector.CompletedPublishes | services/connector-s3/src/connector.py:83-127 | a completed poll publishes exactly the listed objects above the watermark whose type is allowed and whose publish succeeds |
| S3Connector.WatermarkNeverDecreases | services/connector-s3/src/connector.py:129-147 | over any sequence of polls, completed or cut short, the watermark never decreases |
| S3Connector.PublishedOnce | services/connector-s3/src/connector.py:88-89 | what a completed poll published, and anything no newer, is not handed to the producer again by any later poll |
| S3Connector.RepeatedOnlyAfterCrash | services/connector-s3/src/connector.py:78-147 | an object is handed over again only when the poll that published it was cut short, and that poll left the watermark alone |
| S3Connector.FallsBehindIff | services/connector-s3/src/connector.py:123-130 | an eligible listed object is never tried again, whatever follows, exactly when its poll completed and published something at least as new |
| S3Connector.CleanPollPublishesAll | services/connector-s3/src/connector.py:83-130 | a completed poll without a failed publish has published every allowed object it listed above the watermark |
| NfsConnector.NFSConnector.OnChange | services/connector-nfs/src/connector.py:54-64 | an allowed created or modified file is queued |
| NfsConnector.NFSConnector.DrainQueue | services/connector-nfs/src/connector.py:166-173 | the set of queued paths, and an empty queue |
| NfsConnector.NFSConnector.TreeDiff | services/connector-nfs/src/connector.py:175-187 | the allowed files of the tree that are not known |
| NfsConnector.NFSConnector.Poll | services/connector-nfs/src/connector.py:118-156 | a completed poll performs exactly its plan, in sorted order |
| NfsConnector.Sorted | services/connector-nfs/src/connector.py:124 | the paths of the set, each once, ascending by code points |
| NfsConnector.KnownWasPublished | services/connector-nfs/src/connector.py:133-139 | in every state, also between a publish and its mark, each known file was known at the start or has been published |
| NfsConnector.TreeDiffTries | services/connector-nfs/src/connector.py:175-187 | a completed comparison of the tree tries exactly the allowed existing files that are not known, and a failed one stays eligible |
| NfsConnector.DrainTries | services/connector-nfs/src/connector.py:119-120 | a completed poll in watching mode tries exactly the queued existing files, known or not |
| NfsConnector.UnmarkedIsLast | services/connector-nfs/src/connector.py:133-139 | a poll that published a file without marking it stopped right there, so a crash leaves at most one file to be sent again |
| NfsConnector.MarkedStaysQuiet | services/connector-nfs/src/connector.py:175-187 | a marked file is never sent again by a comparison of the tree, at any later point of any run |
| NfsConnector.TriedTwice | services/connector-nfs/src/connector.py:133-139 | between two tries of one file, the later one by a comparison of the tree, the earlier failed or was cut off right after its publish |
| NfsConnector.LostIff | services/connector-nfs/src/connector.py:118-139 | no later poll tries an allowed file, unless it changes again, exactly when it is known and not queued: a drained path that failed is recovered by a comparison of the tree if and only if it was never marked |
| Lexicographic.LessIsTotal | services/pipeline-operator/operator/handlers.py:297 | tuple comparison puts any two tuples in exactly one of the three relations |
| Upgrade.VersionsAreOrdered | services/pipeline-operator/operator/handlers.py:290-297 | version comparison is a strict order, total up to equal parts, a malformed version counting as (0,) |
| Upgrade.DrainReads | services/pipeline-operator/operator/handlers.py:272-287 | every lag read but the last is nonzero, and the drain succeeds exactly when the last one is 0 |
| Upgrade.DrainBound | services/pipeline-operator/operator/handlers.py:275-287 | however long reads and sleeps take, the lag is read at most ceil(timeout / 5) + 1 times |
| Upgrade.DrainBoundIsReached | services/pipeline-operator/operator/handlers.py:275-287 | a lag that never drains, read without delay, reaches that bound |
| Upgrade.Operator.DrainKafkaLag | services/pipeline-operator/operator/handlers.py:272-287 | the loop ends, makes exactly the reads of the drain and reports its outcome |
| Upgrade.Operator.RunCoordinatedUpgrade | services/pipeline-operator/operator/handlers.py:240-269 | an attempt without a raising call performs exactly its plan and succeeds exactly when the drain does and health is 200 |
| Upgrade.Operator.Reconcile | services/pipeline-operator/operator/handlers.py:218-237 | nothing happens without a recorded version or with an unchanged one; a smaller version rolls the services in reverse |
| Upgrade.RestartIsSafe | services/pipeline-operator/operator/handlers.py:249-257 | in every attempt, cut off anywhere, a restart comes after every listed connector is suspended and the lag was read as 0 since the last suspension, directly after that read or the readiness of the service before |
| Upgrade.ResumeIsSafe | services/pipeline-operator/operator/handlers.py:255-266 | nothing is resumed before health was 200, and before that every service was ready and not restarted since |
| Upgrade.RestartsFollowOrder | services/pipeline-operator/operator/handlers.py:233-257 | the restarts follow the given order from its first service on, each at most once |
| Upgrade.AttemptLeaves | services/pipeline-operator/operator/handlers.py:246-287 | the flag stays up unless the attempt ends in success; without a health check of 200 all listed connectors stay suspended; success resumes all of them; other connectors keep their state |
| Upgrade.RetriesRestore | services/pipeline-operator/operator/handlers.py:240-269 | over any number of retries that list the same connectors, a lowered flag means exactly the unlisted connectors suspended before are suspended now |
| Upgrade.RevertStrands | services/pipeline-operator/operator/handlers.py:230-231 | after a failed attempt, handler calls with equal old and new version leave its connectors suspended and the flag up for good |
| Upgrade.RunAgainIff | services/pipeline-operator/operator/handlers.py:246-269 | after a failed attempt and any later ones that list the same connectors, each cut off anywhere, all of them run if and only if some later attempt resumed all of them and none since got as far as suspending one |

## Left out

- Parsers, tiktoken, sentence-transformers, SHA-256: arbitrary functions in the model; parse and embed are deterministic and content is fixed during a run.
- Several doc-processor or worker processes per group: one process each; a rebalance is a crash that rewinds to the marks.
- Raw messages re-announced under a new event id: they are new documents (Identity.DocIdFollowsEventId), so exactly-once effect is per raw message, not per source file.
- Delivery.ExactlyOnceEffect: starts from an empty store, and besides the doc-processor's own events the chunk topic holds undecodable records only; retention of topics is not modelled.
- Produce retries with fixed counts, and their delays: one success or failure with an arbitrary delivered part.
- Metadata events, usage events to other services, status rows, metrics, tracing, logging: left out except the worker's usage and embedding events and the connectors' status rows.
- QuotaProtocol.AdmissionSafety: amounts are non-negative; the handlers pass on any integer unchecked, and a negative one lowers the counter and makes room beyond the limit.
- Missing limits and unlimited tenants under interleaving: QuotaProtocol follows one key whose calls all have a limit.
- UsageDedup.CountersAreFirstCalls: calls one after the other inside one marker lifetime; overlapping ones are the subject of UsageProtocol.
- UsageProtocol.CreditedOnceIff: speaks of one marker lifetime; after an expiry the event counts anew.
- SQL transaction aborts and database reconnects in the metadata service: each event is one atomic update; a creation whose INSERT collides on the version number only aborts.
- Entity UUIDs: the unique (tenant, type, key) stands for them.
- Row order of ORDER BY and GROUP BY in the lineage and staleness queries: the rows are modelled as a list in join order.
- query_provenance, query_runs, query_quality: plain joins and filters.
- RagCache.HitsExactlyWhen: time is in whole ticks, and an entry is gone exactly one TTL after its write.
- Redis errors on the query path that are not the caught ConnectionError, and embedder errors: the request ends without an answer.
- Cache keys: the hash is collision-free, and JSON round trips results.
- Time zones of S3 timestamps and the ISO round trip of the watermark: times are integers.
- S3Connector.PublishedOnce: says nothing about copies a failed publish left on the topic; those may be published again.
- Status patch of a failed upgrade attempt: taken to be written by the framework although the handler raised.
- Interference with connectors by others during an attempt: only the operator suspends and resumes; between attempts the starting state is arbitrary in the one-attempt lemmas.
- Upgrade.VersionsAreOrdered: Python's int is an arbitrary partial function, so spaces, signs and underscores it accepts are not spelled out.
- Cron schedules, connector and workspace reconciliation, the embedding-config guard, RBAC: one-branch request plumbing.
- Frontend, BFF, gateway, SDK, Keycloak, MinIO and Kubernetes clients: thin wrappers.
