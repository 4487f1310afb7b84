/** The feature read the ranking service depends on: one ad's cache hash,
    with zeroed defaults and no timestamp when the hash is absent or empty,
    and a per-field default for each field that is missing. */
module OnlineStore {
  import opened Wrappers
  import opened Sinks

  /** {ad_id, ctr_5m, impressions_5m, clicks_5m, feature_ts} */
  datatype Features = Features(adId: int, ctr5m: real, impressions5m: int, clicks5m: int, featureTs: Option<int>)

  const EmptyHash: FeatureHash := FeatureHash(None, None, None, None)

  /** The answer for an ad the cache knows nothing about. */
  function DefaultFeatures(adId: int): Features
  {
    Features(adId, 0.0, 0, 0, None)
  }

  /** Reads the features of `adId` from the cache. Reading is a lookup and
      leaves the cache as it is. */
  function GetAdFeatures(cache: map<int, CacheEntry>, adId: int): (f: Features)
    ensures f.adId == adId
    ensures (adId !in cache || cache[adId].hash == EmptyHash) ==> f == DefaultFeatures(adId)
    ensures adId in cache ==>
      var h := cache[adId].hash;
      && (h.ctr5m.Some? ==> f.ctr5m == h.ctr5m.value)
      && (h.impressions5m.Some? ==> f.impressions5m == h.impressions5m.value)
      && (h.clicks5m.Some? ==> f.clicks5m == h.clicks5m.value)
      && f.featureTs == h.featureTs
    ensures adId in cache ==>
      var h := cache[adId].hash;
      && (h.ctr5m.None? ==> f.ctr5m == 0.0)
      && (h.impressions5m.None? ==> f.impressions5m == 0)
      && (h.clicks5m.None? ==> f.clicks5m == 0)
  {
    if adId !in cache || cache[adId].hash == EmptyHash then
      DefaultFeatures(adId)
    else
      var h := cache[adId].hash;
      Features(adId, h.ctr5m.GetOr(0.0), h.impressions5m.GetOr(0), h.clicks5m.GetOr(0), h.featureTs)
  }

  /** After a batch write, reading an ad gives the impressions, clicks, rate
      and window end of the last row for that ad. */
  lemma ReadAfterWrite(cache: map<int, CacheEntry>, rows: seq<RedisRow>, i: int)
    requires 0 <= i < |rows|
    requires forall j :: i < j < |rows| ==> rows[j].adId != rows[i].adId
    ensures GetAdFeatures(CacheWritten(cache, rows), rows[i].adId)
         == Features(rows[i].adId, rows[i].ctr, rows[i].impressions, rows[i].clicks, Some(rows[i].windowEnd))
  {
    LastWriteWins(cache, rows, i);
  }

  /** A batch without rows for an ad does not change what is read for it. */
  lemma ReadUnaffectedByOtherAds(cache: map<int, CacheEntry>, rows: seq<RedisRow>, adId: int)
    requires forall j :: 0 <= j < |rows| ==> rows[j].adId != adId
    ensures GetAdFeatures(CacheWritten(cache, rows), adId) == GetAdFeatures(cache, adId)
  {
    CacheKeepsOthers(cache, rows, adId);
  }

  /** Once an ad's entry has expired, its features read as the defaults. */
  lemma ReadAfterExpiry(cache: map<int, CacheEntry>, adId: int)
    ensures GetAdFeatures(cache - {adId}, adId) == DefaultFeatures(adId)
  {
  }
}
