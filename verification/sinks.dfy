/** The two stores the streaming job writes each micro-batch to.

    The relational table `ad_minute_metrics` is keyed by (window start,
    window end, ad id); a write is an insert that, on a conflicting key,
    replaces the counters and the rate and stamps `updated_at`.

    The feature cache holds one hash per ad, under the key `ad:{ad_id}`
    (modelled by the ad id itself), with the fields `ctr_5m`,
    `impressions_5m`, `clicks_5m` and `feature_ts`, and an expiry of thirty
    minutes that every write resets. */
module Sinks {
  import opened Wrappers
  import opened Windowing

  /** Expiry of a cache entry, in seconds: thirty minutes. */
  const CacheTtl: int := 60 * 30
  /** Rows per INSERT statement when a row list is sent in pages. */
  const PageSize: int := 100

  // ---------------------------------------------------------------------
  // Relational table

  /** (window_start, window_end, ad_id, impressions, clicks, ctr) */
  datatype PgRow = PgRow(windowStart: int, windowEnd: int, adId: int, impressions: int, clicks: int, ctr: real)

  /** The stored columns of one key. `updatedAt` is None while the row keeps
      the value its insert gave it (the column default), and the statement's
      time once an upsert has replaced the row. */
  datatype TableRecord = TableRecord(impressions: int, clicks: int, ctr: real, updatedAt: Option<int>)

  /** The counter columns of a stored row, without its timestamp. */
  datatype Counters = Counters(impressions: int, clicks: int, ctr: real)

  function PgKey(r: PgRow): WindowKey
  {
    WindowKey(r.windowStart, r.windowEnd, r.adId)
  }

  function CountersOf(t: TableRecord): Counters
  {
    Counters(t.impressions, t.clicks, t.ctr)
  }

  function RowCounters(r: PgRow): Counters
  {
    Counters(r.impressions, r.clicks, r.ctr)
  }

  /** One row of an upsert at time `now`: the row's key gets the row's
      counters, stamped with `now` only when it replaced a stored row; every
      other key keeps its row. */
  function UpsertRow(table: map<WindowKey, TableRecord>, r: PgRow, now: int): (t: map<WindowKey, TableRecord>)
    ensures t.Keys == table.Keys + {PgKey(r)}
    ensures CountersOf(t[PgKey(r)]) == RowCounters(r)
    ensures t[PgKey(r)].updatedAt.Some? <==> PgKey(r) in table
    ensures PgKey(r) in table ==> t[PgKey(r)].updatedAt == Some(now)
    ensures forall k :: k in table && k != PgKey(r) ==> t[k] == table[k]
  {
    var k := PgKey(r);
    table[k := TableRecord(r.impressions, r.clicks, r.ctr, if k in table then Some(now) else None)]
  }

  /** The table after upserting `rows` in order. An upsert never removes a
      row. */
  function Upserted(table: map<WindowKey, TableRecord>, rows: seq<PgRow>, now: int): (t: map<WindowKey, TableRecord>)
    ensures table.Keys <= t.Keys
  {
    if rows == [] then table else UpsertRow(Upserted(table, rows[..|rows| - 1], now), rows[|rows| - 1], now)
  }

  /** An INSERT ... ON CONFLICT DO UPDATE statement may not touch one row
      twice; the rows are sent PageSize at a time, one statement per page,
      so no page may hold two rows with the same key. */
  predicate PagesDistinct(rows: seq<PgRow>)
    ensures (forall i, j :: 0 <= i < j < |rows| ==> PgKey(rows[i]) != PgKey(rows[j])) ==> PagesDistinct(rows)
    ensures |rows| <= 1 ==> PagesDistinct(rows)
  {
    forall i, j :: 0 <= i < j < |rows| && i / PageSize == j / PageSize ==> PgKey(rows[i]) != PgKey(rows[j])
  }

  /** The counters of every stored row. */
  function CounterView(table: map<WindowKey, TableRecord>): map<WindowKey, Counters>
  {
    map k | k in table :: CountersOf(table[k])
  }

  lemma UpsertedSnoc(table: map<WindowKey, TableRecord>, rows: seq<PgRow>, r: PgRow, now: int)
    ensures Upserted(table, rows + [r], now) == UpsertRow(Upserted(table, rows, now), r, now)
  {
    assert (rows + [r])[..|rows|] == rows;
  }

  /** After an upsert, a key of the batch holds the counters of the last row
      with that key: the old values are replaced, not added to. */
  lemma {:induction false} UpsertReplaces(table: map<WindowKey, TableRecord>, rows: seq<PgRow>, now: int, i: int)
    requires 0 <= i < |rows|
    requires forall j :: i < j < |rows| ==> PgKey(rows[j]) != PgKey(rows[i])
    ensures PgKey(rows[i]) in Upserted(table, rows, now)
    ensures CountersOf(Upserted(table, rows, now)[PgKey(rows[i])]) == RowCounters(rows[i])
  {
    var p := rows[..|rows| - 1];
    assert rows == p + [rows[|rows| - 1]];
    if i < |rows| - 1 {
      assert forall j :: i < j < |p| ==> p[j] == rows[j];
      UpsertReplaces(table, p, now, i);
      assert p[i] == rows[i];
    }
  }

  /** A key outside the batch keeps its row, or its absence. */
  lemma {:induction false} UpsertKeepsOthers(table: map<WindowKey, TableRecord>, rows: seq<PgRow>, now: int, k: WindowKey)
    requires forall j :: 0 <= j < |rows| ==> PgKey(rows[j]) != k
    ensures k in Upserted(table, rows, now) <==> k in table
    ensures k in table ==> Upserted(table, rows, now)[k] == table[k]
  {
    if rows != [] {
      var p := rows[..|rows| - 1];
      assert forall j :: 0 <= j < |p| ==> p[j] == rows[j];
      UpsertKeepsOthers(table, p, now, k);
    }
  }

  /** The keys of a row list. */
  function KeysOf(rows: seq<PgRow>): set<WindowKey>
  {
    set j | 0 <= j < |rows| :: PgKey(rows[j])
  }

  lemma KeysOfSnoc(p: seq<PgRow>, r: PgRow)
    ensures KeysOf(p + [r]) == KeysOf(p) + {PgKey(r)}
  {
    var rows := p + [r];
    forall k | k in KeysOf(rows) ensures k in KeysOf(p) + {PgKey(r)} {
      var j :| 0 <= j < |rows| && PgKey(rows[j]) == k;
      if j < |p| { assert p[j] == rows[j]; }
    }
    forall k | k in KeysOf(p) ensures k in KeysOf(rows) {
      var j :| 0 <= j < |p| && PgKey(p[j]) == k;
      assert rows[j] == p[j];
    }
    assert PgKey(rows[|p|]) in KeysOf(rows);
  }

  /** The keys after an upsert are the old keys and the keys of the batch. */
  lemma {:induction false} UpsertedKeys(table: map<WindowKey, TableRecord>, rows: seq<PgRow>, now: int)
    ensures Upserted(table, rows, now).Keys == table.Keys + KeysOf(rows)
  {
    if rows != [] {
      var p, r := rows[..|rows| - 1], rows[|rows| - 1];
      UpsertedKeys(table, p, now);
      assert rows == p + [r];
      KeysOfSnoc(p, r);
    }
  }

  /** Replaying a batch leaves the same counters as writing it once: every
      write replaces, so a second write of the same values changes only the
      `updated_at` stamps. */
  lemma UpsertIdempotent(table: map<WindowKey, TableRecord>, rows: seq<PgRow>, now1: int, now2: int)
    ensures CounterView(Upserted(Upserted(table, rows, now1), rows, now2)) == CounterView(Upserted(table, rows, now1))
  {
    var once := Upserted(table, rows, now1);
    var twice := Upserted(once, rows, now2);
    UpsertedKeys(table, rows, now1);
    UpsertedKeys(once, rows, now2);
    assert twice.Keys == once.Keys;
    forall k | k in once ensures CountersOf(twice[k]) == CountersOf(once[k]) {
      if exists j :: 0 <= j < |rows| && PgKey(rows[j]) == k {
        var i := LastIndex(rows, PgKey, k);
        UpsertReplaces(table, rows, now1, i);
        UpsertReplaces(once, rows, now2, i);
      } else {
        UpsertKeepsOthers(once, rows, now2, k);
      }
    }
  }

  /** The position of the last row whose key is `k`: the row whose write
      the store keeps. */
  function LastIndex<R, K(==)>(rows: seq<R>, key: R -> K, k: K): (i: int)
    requires exists j :: 0 <= j < |rows| && key(rows[j]) == k
    ensures 0 <= i < |rows| && key(rows[i]) == k
    ensures forall j :: i < j < |rows| ==> key(rows[j]) != k
  {
    if key(rows[|rows| - 1]) == k then |rows| - 1
    else
      var p := rows[..|rows| - 1];
      assert exists j :: 0 <= j < |p| && key(p[j]) == k by {
        var j :| 0 <= j < |rows| && key(rows[j]) == k;
        assert p[j] == rows[j];
      }
      LastIndex(p, key, k)
  }

  // ---------------------------------------------------------------------
  // Feature cache

  /** (feature_ts = window end, ad_id, impressions, clicks, ctr) */
  datatype RedisRow = RedisRow(windowEnd: int, adId: int, impressions: int, clicks: int, ctr: real)

  /** The fields of one cache hash, each of which may be missing. */
  datatype FeatureHash = FeatureHash(ctr5m: Option<real>, impressions5m: Option<int>, clicks5m: Option<int>, featureTs: Option<int>)

  /** A cache key's hash and the expiry last set on it, in seconds. */
  datatype CacheEntry = CacheEntry(hash: FeatureHash, ttl: Option<int>)

  /** The hash a row writes: all four fields. */
  function HashOf(r: RedisRow): FeatureHash
  {
    FeatureHash(Some(r.ctr), Some(r.impressions), Some(r.clicks), Some(r.windowEnd))
  }

  /** One row: set the four fields of the ad's hash and reset its expiry;
      every other ad keeps its entry. */
  function WriteRow(cache: map<int, CacheEntry>, r: RedisRow): (c: map<int, CacheEntry>)
    ensures c.Keys == cache.Keys + {r.adId}
    ensures c[r.adId].hash.featureTs == Some(r.windowEnd) && c[r.adId].ttl == Some(CacheTtl)
    ensures c[r.adId].hash == FeatureHash(Some(r.ctr), Some(r.impressions), Some(r.clicks), Some(r.windowEnd))
    ensures forall a :: a in cache && a != r.adId ==> c[a] == cache[a]
  {
    cache[r.adId := CacheEntry(HashOf(r), Some(CacheTtl))]
  }

  /** The cache after writing `rows` in list order: no entry is removed,
      and every ad of the batch has one. */
  function CacheWritten(cache: map<int, CacheEntry>, rows: seq<RedisRow>): (c: map<int, CacheEntry>)
    ensures cache.Keys <= c.Keys
    ensures forall j :: 0 <= j < |rows| ==> rows[j].adId in c
  {
    if rows == [] then cache else WriteRow(CacheWritten(cache, rows[..|rows| - 1]), rows[|rows| - 1])
  }

  /** When several rows of a batch are for one ad, the last one in list
      order is what the cache holds afterwards, with a fresh expiry. */
  lemma {:induction false} LastWriteWins(cache: map<int, CacheEntry>, rows: seq<RedisRow>, i: int)
    requires 0 <= i < |rows|
    requires forall j :: i < j < |rows| ==> rows[j].adId != rows[i].adId
    ensures rows[i].adId in CacheWritten(cache, rows)
    ensures CacheWritten(cache, rows)[rows[i].adId] == CacheEntry(HashOf(rows[i]), Some(CacheTtl))
  {
    var p := rows[..|rows| - 1];
    if i < |rows| - 1 {
      assert forall j :: i < j < |p| ==> p[j] == rows[j];
      LastWriteWins(cache, p, i);
      assert p[i] == rows[i];
    }
  }

  /** An ad with no row in the batch keeps its fields and its expiry. */
  lemma {:induction false} CacheKeepsOthers(cache: map<int, CacheEntry>, rows: seq<RedisRow>, adId: int)
    requires forall j :: 0 <= j < |rows| ==> rows[j].adId != adId
    ensures adId in CacheWritten(cache, rows) <==> adId in cache
    ensures adId in cache ==> CacheWritten(cache, rows)[adId] == cache[adId]
  {
    if rows != [] {
      var p := rows[..|rows| - 1];
      assert forall j :: 0 <= j < |p| ==> p[j] == rows[j];
      CacheKeepsOthers(cache, p, adId);
    }
  }

  /** Writing the same rows again leaves the cache exactly as one write did. */
  lemma CacheWriteIdempotent(cache: map<int, CacheEntry>, rows: seq<RedisRow>)
    ensures CacheWritten(CacheWritten(cache, rows), rows) == CacheWritten(cache, rows)
  {
    var once := CacheWritten(cache, rows);
    var twice := CacheWritten(once, rows);
    forall a | a in twice || a in once ensures a in twice && a in once && twice[a] == once[a] {
      if exists j :: 0 <= j < |rows| && rows[j].adId == a {
        var i := LastIndex(rows, (r: RedisRow) => r.adId, a);
        LastWriteWins(cache, rows, i);
        LastWriteWins(once, rows, i);
      } else {
        CacheKeepsOthers(once, rows, a);
        CacheKeepsOthers(cache, rows, a);
      }
    }
  }

  /** The cache keeps the last row of a batch, not the row with the latest
      window: a batch that lists a newer window before an older one for the
      same ad leaves the older window's features. */
  lemma LastRowNotLatestWindow()
    ensures
      var newer, older := RedisRow(600, 7, 5, 1, 0.2), RedisRow(300, 7, 4, 2, 0.5);
      CacheWritten(map[], [newer, older])[7].hash.featureTs == Some(300)
  {
    var newer, older := RedisRow(600, 7, 5, 1, 0.2), RedisRow(300, 7, 4, 2, 0.5);
    assert [newer, older][..1] == [newer];
    assert [newer][..0] == [];
  }

  // ---------------------------------------------------------------------
  // The stores

  /** The table and the cache as the job sees them, changed in place by the
      two writers. */
  class Stores {
    var table: map<WindowKey, TableRecord>
    var cache: map<int, CacheEntry>

    constructor (table0: map<WindowKey, TableRecord>, cache0: map<int, CacheEntry>)
      ensures table == table0 && cache == cache0
    {
      table := table0;
      cache := cache0;
    }

    /** Upserts the rows in one transaction. An empty list sends nothing. A
        page with two rows for one key makes its statement fail, the
        transaction is rolled back and the call reports failure. */
    method UpsertMinuteMetrics(rows: seq<PgRow>, now: int) returns (ok: bool)
      modifies this
      ensures ok <==> PagesDistinct(rows)
      ensures rows == [] ==> ok && table == old(table)
      ensures table == if ok then Upserted(old(table), rows, now) else old(table)
      ensures cache == old(cache)
    {
      if rows == [] {
        return true;
      }
      ok := PagesDistinct(rows);
      if !ok {
        return;
      }
      var i := 0;
      while i < |rows|
        invariant 0 <= i <= |rows|
        invariant table == Upserted(old(table), rows[..i], now)
        invariant cache == old(cache)
      {
        UpsertedSnoc(old(table), rows[..i], rows[i], now);
        assert rows[..i + 1] == rows[..i] + [rows[i]];
        table := UpsertRow(table, rows[i], now);
        i := i + 1;
      }
      assert rows[..|rows|] == rows;
    }

    /** Queues, for each row in order, a write of the ad's four fields and a
        reset of its expiry, then runs the queue. */
    method WriteOnlineFeatures(rows: seq<RedisRow>)
      modifies this
      ensures cache == CacheWritten(old(cache), rows)
      ensures rows == [] ==> cache == old(cache)
      ensures table == old(table)
    {
      if rows == [] {
        return;
      }
      var i := 0;
      while i < |rows|
        invariant 0 <= i <= |rows|
        invariant cache == CacheWritten(old(cache), rows[..i])
        invariant table == old(table)
      {
        assert rows[..i + 1][..i] == rows[..i];
        cache := WriteRow(cache, rows[i]);
        i := i + 1;
      }
      assert rows[..|rows|] == rows;
    }

    /** The cache's own removal of an ad whose expiry has run out. */
    method Expire(adId: int)
      modifies this
      ensures cache == old(cache) - {adId}
      ensures table == old(table)
    {
      cache := cache - {adId};
    }
  }
}
