# AdStreamX windowed ad metrics, modelled in Dafny

This project models the windowed ad-metrics path of AdStreamX. It starts
with a decoded ad event. Events are grouped into five-minute tumbling
windows per ad. Each window counts impressions and clicks, sums conversion
revenue and derives a click-through rate (ctr). A two-minute event-time
watermark drops events that arrive too late.

Each emitted micro-batch of aggregates is projected into two row lists:

- The Postgres table `ad_minute_metrics` upserts the rows, keyed by
  (window start, window end, ad id).
- The Redis feature cache holds one hash per ad (`ad:{ad_id}`) with a
  thirty-minute expiry.

The feature reader serves the cache with zeroed defaults. The ranking
service scores candidate ads with those features, sorts them (stable,
highest score first) and returns the top k. The model also covers the field
constraints of the ingestion-side event record.

Times are whole seconds: window 300, lateness 120, cache expiry 1800.
Rates and revenue are `real`.

Files, one module each:

- `wrappers.dfy`: Option and Result.
- `schemas.dfy`: event validation.
- `windowing.dfy`: windows, aggregation, watermark and late events, output rows.
- `sinks.dfy`: the upsert and cache-write semantics, and the `Stores` class whose `table` and `cache` maps the writers change in place.
- `online_store.dfy`: the feature read.
- `pipeline.dfy`: the per-batch callback.
- `ranking.dfy`: candidate retrieval, scoring, stable sort and top-k.

Behaviour of the code that the model makes explicit:

- **Cache write order.** The cache keeps the last row of a batch in list
  order, not the row with the latest window end (`Sinks.LastWriteWins`).
  `Sinks.LastRowNotLatestWindow` shows a batch that leaves an older window
  in the cache.
- **Late events.** An event is dropped when the end of its window is at or
  below the watermark. The watermark is the largest event time seen minus
  two minutes (`Windowing.IsLate`, `Windowing.LateEventDropped`). This is
  the event-time watermark rule of a windowed aggregation; the
  "Left out" line for `Windowing.IsLate` says how the watermark call is
  read.
- **ctr bound.** ctr is not bounded by 1: clicks can exceed impressions
  (`Windowing.CtrCanExceedOne`).
- **Revenue.** The ingestion schema accepts any non-negative revenue on any
  event type (`Schemas.RevenueNotTiedToEventType`). The aggregation sums
  revenue over conversions only. A window without a conversion revenue has
  a null sum, not 0 (`Windowing.AggregateAllRevenue`).

## Model

| member | source | states |
|---|---|---|
| Windowing.WindowStart | streaming/streaming_pipeline.py:50 | the window start is a multiple of 300 with start <= t < start + 300 |
| Windowing.WindowStartUnique | streaming/streaming_pipeline.py:50 | any 300-aligned interval holding t is the chosen window: every event lies in exactly one window |
| Windowing.KeyOf | streaming/streaming_pipeline.py:50 | the group key carries the event's ad, window end - window start = 300, and the event time lies in the window |
| Windowing.WindowsDoNotOverlap | streaming/streaming_pipeline.py:50 | two windows sharing an instant have the same start and end |
| Windowing.Ctr | streaming/streaming_pipeline.py:56 | ctr >= 0; exactly 0 without impressions; otherwise ctr * impressions == clicks |
| Windowing.CtrCanExceedOne | streaming/streaming_pipeline.py:56 | one impression and two clicks give ctr 2: the rate is not bounded by 1 |
| Windowing.CtrAtMostOne | streaming/streaming_pipeline.py:56 | with impressions > 0, ctr <= 1 exactly when clicks <= impressions |
| Windowing.AggregateAllKeys | streaming/streaming_pipeline.py:50 | the aggregation has an entry for a (window, ad) key exactly when some event belongs to it |
| Windowing.AggregateAllCounts | streaming/streaming_pipeline.py:51-53 | impressions equals the number of the key's "impression" events and clicks the number of its "click" events; other types count for neither |
| Windowing.AggregateAllRevenue | streaming/streaming_pipeline.py:54 | revenue is the SQL sum of the non-null revenues of the key's conversion events (null when there is none); other types' revenue is ignored |
| Windowing.NonConversionKeepsRevenue | streaming/streaming_pipeline.py:54 | adding an impression or a click never changes any revenue total |
| Windowing.RevenueNonNegative | streaming/streaming_pipeline.py:54 | if every event revenue is null or >= 0, every revenue total is null or >= 0 |
| Windowing.RunAggregatesAdmitted | streaming/streaming_pipeline.py:47-55 | the running totals are the aggregation of exactly the events the watermark admitted |
| Windowing.WindowCounts | streaming/streaming_pipeline.py:49-54 | per window and ad, the running impressions, clicks and revenue are the counts and sum over the admitted events |
| Windowing.MaxEventTimeIsMaximum | streaming/streaming_pipeline.py:49 | the tracked event time is the maximum event time seen, and is absent only before the first event |
| Windowing.WatermarkMonotone | streaming/streaming_pipeline.py:49 | the watermark never decreases, whatever events follow |
| Windowing.OnTimeEventCounted | streaming/streaming_pipeline.py:49 | an event no older than the watermark is admitted and added to its window |
| Windowing.LateEventDropped | streaming/streaming_pipeline.py:49 | an event whose window ended at or before the watermark changes neither the totals nor the watermark |
| Windowing.InOrderStreamLosesNothing | streaming/streaming_pipeline.py:49 | a stream in event-time order has every event admitted |
| Windowing.FirstWindowExample | streaming/streaming_pipeline.py:47-56 | impressions at 10 s and 20 s and a click at 290 s give window [0,300) 2 impressions, 1 click, ctr 0.5; a click at 330 s goes to [300,600) |
| Windowing.AddRevenue | streaming/streaming_pipeline.py:54 | SQL `sum` step: a null value is skipped, the sum is null only while every value so far was null, and otherwise the values add up (`AggregateAllRevenue`) |
| Windowing.Accumulate | streaming/streaming_pipeline.py:51-54 | one more event of a key: an impression or a click counts once, in its own column; a conversion counts for neither; only a conversion can change the revenue (exact totals: `AggregateAllCounts`, `AggregateAllRevenue`) |
| Windowing.AddEvent | streaming/streaming_pipeline.py:50-55 | one event of the grouped aggregation: its key is added if new and takes the event in from zero or its totals; every other key keeps its totals (`AggregateAllCounts`, `AggregateAllRevenue`, `NonConversionKeepsRevenue`) |
| Windowing.AggregateAll | streaming/streaming_pipeline.py:50-55 | every group is a 300-second window aligned to a multiple of 300, and no group counts more impressions and clicks than there are events; its keys, counts and sums are stated by `AggregateAllKeys`, `AggregateAllCounts` and `AggregateAllRevenue` |
| Windowing.RunningMax | streaming/streaming_pipeline.py:49 | the largest event time after one more event: at least the new time and the old maximum, and one of the two (`MaxEventTimeIsMaximum`) |
| Windowing.Watermark | streaming/streaming_pipeline.py:49 | there is a watermark exactly once an event has been seen, and it lies below the largest event time (`WatermarkMonotone`) |
| Windowing.IsLate | streaming/streaming_pipeline.py:49 | a late event is older than the watermark, and an event a whole window older than the watermark is always late (`LateEventDropped`, `OnTimeEventCounted`) |
| Windowing.Step | streaming/streaming_pipeline.py:49-55 | one event: the largest event time covers it, the watermark does not move back, a late event leaves the totals as they were, any other event is accumulated into its own key, and no other key changes |
| Windowing.Run | streaming/streaming_pipeline.py:47-55 | the query's state after a stream: a largest event time exists exactly when an event was seen, and covers the last one; the totals and watermark are stated by `RunAggregatesAdmitted`, `WindowCounts`, `MaxEventTimeIsMaximum`, `WatermarkMonotone`, `OnTimeEventCounted` and `LateEventDropped` |
| Windowing.Admitted | streaming/streaming_pipeline.py:49 | the events not late on arrival, in order; its properties are stated by `AdmittedAreEvents`, `RunAggregatesAdmitted`, `OnTimeEventCounted`, `LateEventDropped` and `InOrderStreamLosesNothing` |
| Windowing.AdmittedAreEvents | streaming/streaming_pipeline.py:49 | the admitted events are no more than the stream's events, and each one is an event of the stream |
| Windowing.IsEmission | streaming/streaming_pipeline.py:94-97 | an "update"-mode micro-batch: current totals, at most one row per key, and each row's ctr is the rate of its own counts (`Pipeline.EmissionUpsertSucceeds`, `Pipeline.EmissionLandsInTable`) |
| Windowing.RowOf | streaming/streaming_pipeline.py:56 | an output row carries its key's totals with ctr >= 0, 0 without impressions, else ctr * impressions == clicks |
| Schemas.FieldErrors | ingestion/schemas.py:10-13 | a device error is reported iff the device is not mobile/desktop/console/tablet, an event-type error iff the type is not impression/click/conversion, a revenue error iff a given revenue is negative |
| Schemas.Validate | ingestion/schemas.py:5-13 | accepted iff all three constraints hold; an accepted event keeps every field, with an omitted revenue as 0.0 and null as None; a rejection lists every failing field |
| Schemas.RevalidateRoundTrip | ingestion/schemas.py:5-13 | validating a validated event again returns the same event |
| Schemas.RevenueNotTiedToEventType | ingestion/schemas.py:12-13 | a click with revenue 5.0 is valid and keeps that revenue |
| Sinks.UpsertRow | streaming/sinks.py:35-41 | one row: its key gets the row's counters; a replaced row's `updated_at` becomes the statement's time `now`, a newly inserted one keeps the column default; the keys grow by the row's key, and every other key keeps its row |
| Sinks.Upserted | streaming/sinks.py:35-43 | the rows upserted in order never remove a stored row (`UpsertReplaces`, `UpsertKeepsOthers`, `UpsertedKeys`, `UpsertIdempotent`) |
| Sinks.PagesDistinct | streaming/sinks.py:43 | the condition for the paged statement to succeed; a row list whose keys are all distinct, or with at most one row, meets it |
| Sinks.UpsertReplaces | streaming/sinks.py:35-41 | after an upsert, a key of the batch holds the impressions, clicks and ctr of its last row: old values are replaced, not added to |
| Sinks.UpsertKeepsOthers | streaming/sinks.py:35-43 | a key not in the batch keeps its row, or stays absent |
| Sinks.UpsertedKeys | streaming/sinks.py:35-37 | the keys after an upsert are the old keys plus the batch's keys |
| Sinks.UpsertIdempotent | streaming/sinks.py:37-41 | upserting the same rows twice leaves the same counters as upserting them once |
| Sinks.WriteRow | streaming/sinks.py:57-68 | one row: the ad's hash gets the row's ctr, impressions, clicks and window end, its expiry becomes 1800, and every other ad keeps its entry |
| Sinks.CacheWritten | streaming/sinks.py:56-69 | a batch written in list order removes no entry and leaves an entry for every ad of the batch (`LastWriteWins`, `CacheKeepsOthers`, `CacheWriteIdempotent`) |
| Sinks.LastWriteWins | streaming/sinks.py:57-68 | after a cache write, an ad holds the four fields of its last row in list order, with expiry 1800 |
| Sinks.CacheKeepsOthers | streaming/sinks.py:57-69 | an ad absent from the batch keeps its fields and expiry, or stays absent |
| Sinks.CacheWriteIdempotent | streaming/sinks.py:57-69 | writing the same rows twice leaves the cache exactly as writing them once |
| Sinks.LastRowNotLatestWindow | streaming/sinks.py:57-68 | a batch listing window end 600 before window end 300 for one ad leaves feature_ts 300 |
| Sinks.Stores.UpsertMinuteMetrics | streaming/sinks.py:25-45 | empty rows change nothing; otherwise ok iff no page of 100 rows repeats a key; on success the table is the in-order upsert of the rows, on failure it is unchanged (rollback); the cache is untouched |
| Sinks.Stores.WriteOnlineFeatures | streaming/sinks.py:47-69 | the cache becomes the in-order write of the rows (empty rows change nothing); the table is untouched |
| Sinks.Stores.Expire | streaming/sinks.py:68 | the cache's removal of an expired ad key; nothing else changes |
| OnlineStore.GetAdFeatures | feature_store/online_store.py:13-24 | the result echoes the requested ad_id; a missing or empty hash gives ctr 0.0, 0 impressions, 0 clicks and no feature_ts; a present field is returned as stored, and a missing one falls back to 0 or None |
| OnlineStore.ReadAfterWrite | feature_store/online_store.py:18-24 | after a cache write, reading an ad returns the impressions, clicks, ctr and window end of its last row |
| OnlineStore.ReadUnaffectedByOtherAds | feature_store/online_store.py:14-15 | a batch without rows for an ad does not change what is read for it |
| OnlineStore.ReadAfterExpiry | feature_store/online_store.py:16-17 | after an ad's entry has expired, reading it returns the zeroed defaults |
| Pipeline.PgRowOf | streaming/streaming_pipeline.py:85 | the table row is keyed by the aggregate's window and ad and carries its impressions, clicks and ctr |
| Pipeline.RedisRowOf | streaming/streaming_pipeline.py:86-87 | the cache row is for the aggregate's ad and writes its ctr, impressions and clicks, with the window end as feature_ts |
| Pipeline.ProjectRows | streaming/streaming_pipeline.py:81-87 | one table row and one cache row per aggregate row, in order, carrying the same ad, impressions, clicks and ctr; the table row keeps the window key and the cache row is stamped with the window end |
| Pipeline.ForEachBatch | streaming/streaming_pipeline.py:61-90 | an empty batch writes nothing; otherwise the table gets the upsert, and the cache is written only if the upsert succeeded |
| Pipeline.EmissionUpsertSucceeds | streaming/streaming_pipeline.py:50 | a batch emitted by the aggregation has one row per key, so its upsert cannot conflict with itself |
| Pipeline.EmissionLandsInTable | streaming/streaming_pipeline.py:85-89 | after an emitted batch is upserted, each of its keys holds the aggregate's impressions and clicks and the ctr derived from them |
| Pipeline.ReplayIsIdempotent | streaming/streaming_pipeline.py:89-90 | re-sending a batch leaves the same table counters and the same cache as sending it once |
| Pipeline.FeaturesAfterBatch | streaming/streaming_pipeline.py:87-90 | after a batch, reading an ad in it returns its last row's counts, ctr and window end |
| Ranking.ParseRequest | ranking_service/api.py:16-21 | a field the client leaves out takes its default: geo "US-NY", device "mobile", no candidate list, k 10; a given field is kept |
| Ranking.IsSample | ranking_service/api.py:36 | what `random.sample(range(1, 5001), k=200)` may return: 200 distinct ids in 1..5000; such a sample is never empty and its ids are positive |
| Ranking.SampleExists | ranking_service/api.py:36 | the first 200 ids form a valid sample: the sampler's constraint can be met |
| Ranking.RetrieveCandidates | ranking_service/api.py:31-36 | a non-empty candidate list is used verbatim; otherwise the result is 200 distinct ids in 1..5000; never empty |
| Ranking.ScoreOf | ranking_service/api.py:53-54 | the classifier applied to (impressions_5m, clicks_5m, ctr_5m), the column order the model is trained on; what that input excludes is stated by `ScoreIgnoresIdAndTimestamp` |
| Ranking.ScoreIgnoresIdAndTimestamp | ranking_service/api.py:53-54 | two feature vectors with equal impressions, clicks and ctr score the same: the ad id and feature_ts never affect a score, so stale features score like fresh ones |
| Ranking.ScoreAd | ranking_service/api.py:52-55 | one candidate's entry: its id, the features read for it and their score; an ad missing from the cache scores as the classifier on (0, 0, 0.0) |
| Ranking.ScoreAll | ranking_service/api.py:50-55 | one entry per candidate, in candidate order, with the features read for it and the classifier's score of them |
| Ranking.Insert | ranking_service/api.py:57 | inserting into a list sorted by descending score keeps it sorted and adds exactly that entry |
| Ranking.SortByScore | ranking_service/api.py:57 | the result is a permutation of the input with non-increasing scores |
| Ranking.InsertKeepsTies | ranking_service/api.py:57 | inserting places the entry ahead of the entries with its own score, so ties keep their order |
| Ranking.SortIsStable | ranking_service/api.py:57 | for every score, the entries with that score keep their input order |
| Ranking.TopK | ranking_service/api.py:58 | the result is the first min(len, max(1, k)) entries |
| Ranking.TopKIsBest | ranking_service/api.py:57-58 | no entry cut from the top k scores above a kept one |
| Ranking.SortedEntriesAreCandidates | ranking_service/api.py:51-55 | every ranked entry is a candidate, with that candidate's features and the classifier's score of them |
| Ranking.TopKOfCandidates | ranking_service/api.py:50-58 | the top k of the sorted candidates has min(len, max(1, k)) entries (at least one), non-increasing scores, and each is a candidate with its own features and score |
| Ranking.DefaultRequestGetsTen | ranking_service/api.py:16-58 | a request naming only its user ranks the random sample and gets 10 ads back |
| Ranking.RankAds | ranking_service/api.py:42-64 | no model gives 503. Otherwise: user_id and k are echoed; min(len(candidates), max(1, k)) entries (at least one), with non-increasing scores; each a candidate with its features and score; the top k of the stable sort |

## Left out

- Spark session, Kafka source, `writeStream` and `awaitTermination`: the model takes a finite sequence of decoded events.
- JSON decoding (`from_json`, `to_timestamp`): events are modelled already decoded. Rows with an unparsable time or ad id are not modelled.
- The ISO-8601 text of `window_end` in the cache: the window end is stored as its second count. The formatting is injective, so nothing read depends on the text.
- Spark checkpointing and the trigger timing of the "update" output mode: which keys a micro-batch emits, and in what order, is left open. `Windowing.IsEmission` admits any batch of current totals with one row per key, including re-emission of a key.
- Windowing.IsLate: streaming/streaming_pipeline.py:49 calls `withinWatermark("event_time", "2 minutes")`, which PySpark's DataFrame does not define (it has `withWatermark` and `dropDuplicatesWithinWatermark`), so as written the job would fail before any query starts. The model gives line 49 the meaning of `withWatermark("event_time", "2 minutes")` and takes its late-data rule for a windowed aggregation: an event is dropped when its window end is at or below the watermark.
- Windowing.Step: advances the watermark after every event. Spark advances it between micro-batches, so within one micro-batch Spark can admit events that the model drops.
- Pipeline.ForEachBatch: a failed upsert raises out of the callback, stops the streaming query, and is raised again by `awaitTermination`. The model returns `ok == false` with both stores unchanged. The end of the query and a restart from its checkpoint are not modelled.
- Connection factories, `commit`/`close`, and the non-transactional Redis pipeline's partial failures: a cache write is modelled as completing.
- Sinks.UpsertRow: a freshly inserted row's `updated_at` is the column default (`None` here). The table definition is not part of this model. A replaced row gets the statement's time, passed in as `now`.
- Sinks.WriteRow: Redis `HSET` merges into an existing hash. Fields other than the four written ones are not modelled.
- Wall-clock expiry: the expiry is stored as the value 1800. The cache's removal of an expired key is the explicit step `Sinks.Stores.Expire`.
- String conversions in the cache (`str`, `float`, `int`): the cache stores typed values, so a malformed stored string is not modelled.
- IEEE floats: ctr, revenue and scores are `real`. NaN and rounding are not modelled.
- The event generator, the Kafka producer, model training, `.env` loading and logging.
- Ranking: FastAPI routing, `joblib` loading and `predict_proba`. The classifier is a function of (impressions, clicks, ctr) passed in as an option; None stands for a missing model file.
- Ranking: the random sample is a parameter constrained by `Ranking.IsSample`. The request's `geo` and `device` are carried but unused, as in the code.
- Ranking.RankAds: every candidate's features are read from one cache value. The handler reads the cache once per candidate while the streaming job may be writing the same keys, so candidates can see different cache states, and a candidate id listed twice can get two different feature vectors and scores. The model does not capture that interleaving.
