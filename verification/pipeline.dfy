/** The per-micro-batch callback of the streaming job: it projects the
    batch's aggregate rows into table rows and cache rows, upserts the first
    and then writes the second. An empty batch writes nothing. */
module Pipeline {
  import opened Wrappers
  import opened Windowing
  import opened Sinks
  import opened OnlineStore

  /** The table row of an aggregate row: keyed by the aggregate's window
      and ad, with its counters. */
  function PgRowOf(r: AggRow): (row: PgRow)
    ensures PgKey(row) == r.key
    ensures RowCounters(row) == Counters(r.impressions, r.clicks, r.ctr)
  {
    PgRow(r.key.start, r.key.end, r.key.adId, r.impressions, r.clicks, r.ctr)
  }

  /** The cache row of an aggregate row: it writes, under the aggregate's
      ad, its counters with the window end as the feature timestamp. */
  function RedisRowOf(r: AggRow): (row: RedisRow)
    ensures row.adId == r.key.adId
    ensures HashOf(row) == FeatureHash(Some(r.ctr), Some(r.impressions), Some(r.clicks), Some(r.key.end))
  {
    RedisRow(r.key.end, r.key.adId, r.impressions, r.clicks, r.ctr)
  }

  function PgRows(batch: seq<AggRow>): seq<PgRow>
  {
    seq(|batch|, i requires 0 <= i < |batch| => PgRowOf(batch[i]))
  }

  function RedisRows(batch: seq<AggRow>): seq<RedisRow>
  {
    seq(|batch|, i requires 0 <= i < |batch| => RedisRowOf(batch[i]))
  }

  /** Builds both row lists in one pass over the batch: one table row and one
      cache row per aggregate row, in batch order, carrying the same ad,
      impressions, clicks and rate; the cache row's timestamp is the window
      end. */
  method ProjectRows(batch: seq<AggRow>) returns (pgRows: seq<PgRow>, redisRows: seq<RedisRow>)
    ensures |pgRows| == |batch| && |redisRows| == |batch|
    ensures forall i :: 0 <= i < |batch| ==>
      && PgKey(pgRows[i]) == batch[i].key
      && pgRows[i].impressions == batch[i].impressions && pgRows[i].clicks == batch[i].clicks
      && pgRows[i].ctr == batch[i].ctr
    ensures forall i :: 0 <= i < |batch| ==>
      && redisRows[i].adId == batch[i].key.adId && redisRows[i].windowEnd == batch[i].key.end
      && redisRows[i].impressions == batch[i].impressions && redisRows[i].clicks == batch[i].clicks
      && redisRows[i].ctr == batch[i].ctr
    ensures pgRows == PgRows(batch) && redisRows == RedisRows(batch)
  {
    pgRows, redisRows := [], [];
    for i := 0 to |batch|
      invariant pgRows == PgRows(batch[..i])
      invariant redisRows == RedisRows(batch[..i])
    {
      pgRows := pgRows + [PgRowOf(batch[i])];
      redisRows := redisRows + [RedisRowOf(batch[i])];
    }
    assert batch[..|batch|] == batch;
  }

  /** Handles one emitted batch at time `now`. The table is written first.
      If its statement fails, the error propagates out of the callback
      before the cache is written, and it stops the streaming query; the
      model reports that as `ok == false`, with neither store changed. */
  method ForEachBatch(stores: Stores, batch: seq<AggRow>, now: int) returns (ok: bool)
    modifies stores
    ensures batch == [] ==> ok && stores.table == old(stores.table) && stores.cache == old(stores.cache)
    ensures ok <==> PagesDistinct(PgRows(batch))
    ensures stores.table == if ok then Upserted(old(stores.table), PgRows(batch), now) else old(stores.table)
    ensures stores.cache == if ok then CacheWritten(old(stores.cache), RedisRows(batch)) else old(stores.cache)
  {
    if batch == [] {
      return true;
    }
    var pgRows, redisRows := ProjectRows(batch);
    ok := stores.UpsertMinuteMetrics(pgRows, now);
    if !ok {
      return;
    }
    stores.WriteOnlineFeatures(redisRows);
  }

  /** A batch emitted by the aggregation has one row per key, so no page of
      its upsert can conflict with itself. */
  lemma EmissionUpsertSucceeds(batch: seq<AggRow>, aggs: map<WindowKey, Agg>)
    requires IsEmission(batch, aggs)
    ensures PagesDistinct(PgRows(batch))
  {
  }

  /** After an emitted batch is upserted, each of its keys holds exactly the
      aggregate's impressions and clicks and the rate derived from them. */
  lemma EmissionLandsInTable(table: map<WindowKey, TableRecord>, batch: seq<AggRow>, aggs: map<WindowKey, Agg>, now: int, i: int)
    requires IsEmission(batch, aggs)
    requires 0 <= i < |batch|
    ensures
      var k := batch[i].key;
      var t := Upserted(table, PgRows(batch), now);
      && k in t
      && t[k].impressions == aggs[k].impressions
      && t[k].clicks == aggs[k].clicks
      && t[k].ctr == Ctr(aggs[k].impressions, aggs[k].clicks)
  {
    var rows := PgRows(batch);
    assert forall j :: i < j < |rows| ==> PgKey(rows[j]) != PgKey(rows[i]) by {
      forall j | i < j < |rows| ensures PgKey(rows[j]) != PgKey(rows[i]) {
        assert batch[j].key != batch[i].key;
      }
    }
    UpsertReplaces(table, rows, now, i);
  }

  /** Re-running a batch after a failure before the checkpoint is committed
      leaves the same counters in the table and the same cache as running it
      once. */
  lemma ReplayIsIdempotent(table: map<WindowKey, TableRecord>, cache: map<int, CacheEntry>, batch: seq<AggRow>, now1: int, now2: int)
    ensures CounterView(Upserted(Upserted(table, PgRows(batch), now1), PgRows(batch), now2))
         == CounterView(Upserted(table, PgRows(batch), now1))
    ensures CacheWritten(CacheWritten(cache, RedisRows(batch)), RedisRows(batch)) == CacheWritten(cache, RedisRows(batch))
  {
    UpsertIdempotent(table, PgRows(batch), now1, now2);
    CacheWriteIdempotent(cache, RedisRows(batch));
  }

  /** After a batch is written, reading an ad that is in it returns the
      counts, the rate and the window end of its last row in the batch. */
  lemma FeaturesAfterBatch(cache: map<int, CacheEntry>, batch: seq<AggRow>, i: int)
    requires 0 <= i < |batch|
    requires forall j :: i < j < |batch| ==> batch[j].key.adId != batch[i].key.adId
    ensures GetAdFeatures(CacheWritten(cache, RedisRows(batch)), batch[i].key.adId)
         == Features(batch[i].key.adId, batch[i].ctr, batch[i].impressions, batch[i].clicks, Some(batch[i].key.end))
  {
    ReadAfterWrite(cache, RedisRows(batch), i);
  }
}
