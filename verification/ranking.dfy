/** The ranking request handler: pick candidate ads, read each one's cached
    features, score them with the trained classifier, sort by score from
    high to low (a stable sort: ties keep candidate order) and return the
    first max(1, k). The classifier and the random candidate sample come in
    as parameters. */
module Ranking {
  import opened Wrappers
  import opened Sinks
  import opened OnlineStore

  /** Size of the random candidate sample and the id range it draws from. */
  const SampleSize: int := 200
  const MinSampleId: int := 1
  const MaxSampleId: int := 5000
  /** Status of the answer when no trained model can be loaded. */
  const ServiceUnavailable: int := 503

  /** A ranking request; `candidateAdIds` may be null. */
  datatype RankRequest = RankRequest(userId: string, geo: string, device: string, candidateAdIds: Option<seq<int>>, k: int)

  /** The values a request takes for the fields it leaves out. */
  const DefaultGeo: string := "US-NY"
  const DefaultDevice: string := "mobile"
  const DefaultK: int := 10

  /** The request as the handler sees it: each field the client left out
      (None here) takes its default; `user_id` is required. */
  function ParseRequest(userId: string, geo: Option<string>, device: Option<string>,
                        candidateAdIds: Option<seq<int>>, k: Option<int>): (req: RankRequest)
    ensures req.userId == userId && req.candidateAdIds == candidateAdIds
    ensures geo.Some? ==> req.geo == geo.value
    ensures device.Some? ==> req.device == device.value
    ensures k.Some? ==> req.k == k.value
    ensures geo.None? ==> req.geo == DefaultGeo
    ensures device.None? ==> req.device == DefaultDevice
    ensures k.None? ==> req.k == DefaultK
  {
    RankRequest(userId, geo.GetOr(DefaultGeo), device.GetOr(DefaultDevice), candidateAdIds, k.GetOr(DefaultK))
  }

  datatype ScoredAd = ScoredAd(adId: int, score: real, features: Features)

  datatype RankResponse = RankResponse(userId: string, k: int, rankedAds: seq<ScoredAd>)

  datatype HttpError = HttpError(status: int)

  /** The classifier's probability of a click for the feature vector
      (impressions, clicks, ctr). */
  type Classifier = (int, int, real) -> real

  function Min(a: int, b: int): int { if a <= b then a else b }
  function Max(a: int, b: int): int { if a >= b then a else b }

  // ---------------------------------------------------------------------
  // Candidates

  /** What the random sampler may return: SampleSize distinct ids drawn from
      MinSampleId..MaxSampleId. */
  predicate IsSample(s: seq<int>)
    ensures IsSample(s) ==> s != [] && forall i :: 0 <= i < |s| ==> s[i] > 0
  {
    && |s| == SampleSize
    && (forall i :: 0 <= i < |s| ==> MinSampleId <= s[i] <= MaxSampleId)
    && (forall i, j :: 0 <= i < j < |s| ==> s[i] != s[j])
  }

  /** Such a sample exists: the first SampleSize ids. */
  lemma SampleExists()
    ensures IsSample(seq(SampleSize, i => i + 1))
  {
  }

  /** The candidates: the request's own list when it is given and not empty,
      in its order; otherwise the random sample. */
  function RetrieveCandidates(req: RankRequest, sample: seq<int>): (c: seq<int>)
    requires IsSample(sample)
    ensures req.candidateAdIds.Some? && req.candidateAdIds.value != [] ==> c == req.candidateAdIds.value
    ensures req.candidateAdIds.None? || req.candidateAdIds.value == [] ==> IsSample(c)
    ensures c != []
  {
    if req.candidateAdIds.Some? && req.candidateAdIds.value != [] then req.candidateAdIds.value else sample
  }

  // ---------------------------------------------------------------------
  // Scoring

  /** The classifier's score of a feature vector, given in the column order
      it was trained on: impressions, clicks, ctr. */
  function ScoreOf(model: Classifier, f: Features): real
  {
    model(f.impressions5m, f.clicks5m, f.ctr5m)
  }

  /** The three counters are the classifier's whole input: the ad id and the
      feature timestamp never affect a score, so stale features score the
      same as fresh ones with equal counters. */
  lemma ScoreIgnoresIdAndTimestamp(model: Classifier, f: Features, g: Features)
    requires f.impressions5m == g.impressions5m && f.clicks5m == g.clicks5m && f.ctr5m == g.ctr5m
    ensures ScoreOf(model, f) == ScoreOf(model, g)
  {
  }

  /** One candidate with its features and its score. */
  function ScoreAd(cache: map<int, CacheEntry>, model: Classifier, adId: int): (r: ScoredAd)
    ensures r.adId == adId && r.features == GetAdFeatures(cache, adId)
    ensures r.score == ScoreOf(model, r.features)
    ensures adId !in cache ==> r.score == model(0, 0, 0.0)
  {
    var f := GetAdFeatures(cache, adId);
    ScoredAd(adId, ScoreOf(model, f), f)
  }

  /** All candidates scored, in candidate order: entry i is candidate i
      with the features read for it and the classifier's score of them. */
  function ScoreAll(cands: seq<int>, cache: map<int, CacheEntry>, model: Classifier): (s: seq<ScoredAd>)
    ensures |s| == |cands|
    ensures forall i :: 0 <= i < |s| ==>
      && s[i].adId == cands[i]
      && s[i].features == GetAdFeatures(cache, cands[i])
      && s[i].score == ScoreOf(model, s[i].features)
  {
    seq(|cands|, i requires 0 <= i < |cands| => ScoreAd(cache, model, cands[i]))
  }

  // ---------------------------------------------------------------------
  // Stable sort by descending score

  predicate SortedDesc(s: seq<ScoredAd>)
  {
    forall i, j :: 0 <= i < j < |s| ==> s[i].score >= s[j].score
  }

  /** A bound on every score of `s` and on `x` bounds every score of a list
      holding the same entries as `s` plus `x`. */
  lemma ScoresBounded(s: seq<ScoredAd>, x: ScoredAd, t: seq<ScoredAd>, c: real)
    requires multiset(t) == multiset(s) + multiset{x}
    requires x.score <= c
    requires forall m :: 0 <= m < |s| ==> s[m].score <= c
    ensures forall j :: 0 <= j < |t| ==> t[j].score <= c
  {
    forall j | 0 <= j < |t| ensures t[j].score <= c {
      assert t[j] in multiset(t);
      if t[j] != x {
        assert t[j] in multiset(s);
        var m :| 0 <= m < |s| && s[m] == t[j];
      }
    }
  }

  /** Places `x` ahead of the first entry whose score is not above its own. */
  function Insert(x: ScoredAd, s: seq<ScoredAd>): (r: seq<ScoredAd>)
    requires SortedDesc(s)
    ensures multiset(r) == multiset(s) + multiset{x}
    ensures SortedDesc(r)
  {
    if s == [] || s[0].score <= x.score then
      [x] + s
    else
      var rest := s[1..];
      var t := Insert(x, rest);
      assert s == [s[0]] + rest;
      ScoresBounded(rest, x, t, s[0].score);
      [s[0]] + t
  }

  /** list.sort(key=score, reverse=True): highest score first; entries with
      equal scores keep their order. */
  function SortByScore(s: seq<ScoredAd>): (r: seq<ScoredAd>)
    ensures multiset(r) == multiset(s)
    ensures SortedDesc(r)
  {
    if s == [] then []
    else
      assert s == [s[0]] + s[1..];
      Insert(s[0], SortByScore(s[1..]))
  }

  /** The entries with score `v`, in order. */
  function WithScore(s: seq<ScoredAd>, v: real): seq<ScoredAd>
  {
    if s == [] then [] else (if s[0].score == v then [s[0]] else []) + WithScore(s[1..], v)
  }

  /** The tied entries of a list headed by `a`. */
  lemma WithScoreCons(a: ScoredAd, t: seq<ScoredAd>, v: real)
    ensures WithScore([a] + t, v) == (if a.score == v then [a] else []) + WithScore(t, v)
  {
    assert ([a] + t)[1..] == t;
  }

  /** Inserting an entry puts it ahead of every entry with its own score:
      the entries of each score keep the order they have in `[x] + s`. */
  lemma {:induction false} InsertKeepsTies(x: ScoredAd, s: seq<ScoredAd>, v: real)
    requires SortedDesc(s)
    ensures WithScore(Insert(x, s), v) == WithScore([x] + s, v)
  {
    if s != [] && s[0].score > x.score {
      var s0, rest := s[0], s[1..];
      var t := Insert(x, rest);
      var a0 := if s0.score == v then [s0] else [];
      var ax := if x.score == v then [x] else [];
      var w := WithScore(rest, v);
      assert s == [s0] + rest;
      assert a0 == [] || ax == [];
      calc {
        WithScore(Insert(x, s), v);
        { assert Insert(x, s) == [s0] + t; }
        WithScore([s0] + t, v);
        { WithScoreCons(s0, t, v); }
        a0 + WithScore(t, v);
        { InsertKeepsTies(x, rest, v); }
        a0 + WithScore([x] + rest, v);
        { WithScoreCons(x, rest, v); }
        a0 + (ax + w);
        ax + (a0 + w);
        { WithScoreCons(s0, rest, v); }
        ax + WithScore(s, v);
        { WithScoreCons(x, s, v); }
        WithScore([x] + s, v);
      }
    }
  }

  /** The sort is stable: for every score, the entries with that score appear
      in the same order as before the sort. */
  lemma {:induction false} SortIsStable(s: seq<ScoredAd>, v: real)
    ensures WithScore(SortByScore(s), v) == WithScore(s, v)
  {
    if s != [] {
      SortIsStable(s[1..], v);
      InsertKeepsTies(s[0], SortByScore(s[1..]), v);
      assert ([s[0]] + SortByScore(s[1..]))[1..] == SortByScore(s[1..]);
    }
  }

  /** The first max(1, k) entries of a list, or all of them when fewer. */
  function TopK(s: seq<ScoredAd>, k: int): (r: seq<ScoredAd>)
    ensures |r| == Min(|s|, Max(1, k))
    ensures forall i :: 0 <= i < |r| ==> r[i] == s[i]
  {
    s[..Min(|s|, Max(1, k))]
  }

  /** No entry left out of the top k scores above an entry kept in it. */
  lemma TopKIsBest(s: seq<ScoredAd>, k: int, i: int, j: int)
    requires SortedDesc(s)
    requires 0 <= i < |TopK(s, k)| <= j < |s|
    ensures TopK(s, k)[i].score >= s[j].score
  {
  }

  /** A request that names only its user ranks the random sample and gets
      ten ads back. */
  lemma DefaultRequestGetsTen(userId: string, sample: seq<int>, cache: map<int, CacheEntry>, model: Classifier)
    requires IsSample(sample)
    ensures
      var req := ParseRequest(userId, None, None, None, None);
      var cands := RetrieveCandidates(req, sample);
      && cands == sample
      && |TopK(SortByScore(ScoreAll(cands, cache, model)), req.k)| == DefaultK
  {
    var s := ScoreAll(sample, cache, model);
    assert |SortByScore(s)| == |multiset(SortByScore(s))| == |multiset(s)| == SampleSize;
  }

  /** Every sorted entry is a candidate, carrying that candidate's features
      and the classifier's score for them. */
  lemma SortedEntriesAreCandidates(cands: seq<int>, cache: map<int, CacheEntry>, model: Classifier)
    ensures forall i :: 0 <= i < |SortByScore(ScoreAll(cands, cache, model))| ==>
      var e := SortByScore(ScoreAll(cands, cache, model))[i];
      e.adId in cands && e == ScoreAd(cache, model, e.adId)
  {
    var s := ScoreAll(cands, cache, model);
    var r := SortByScore(s);
    forall i | 0 <= i < |r| ensures r[i].adId in cands && r[i] == ScoreAd(cache, model, r[i].adId) {
      assert r[i] in multiset(s);
      var j :| 0 <= j < |s| && s[j] == r[i];
    }
  }

  /** The top k of the sorted candidates: max(1, k) of them, or all when
      fewer, highest score first, each a candidate with its own features
      and score. */
  lemma TopKOfCandidates(cands: seq<int>, cache: map<int, CacheEntry>, model: Classifier, k: int)
    requires cands != []
    ensures
      var ranked := TopK(SortByScore(ScoreAll(cands, cache, model)), k);
      && |ranked| == Min(|cands|, Max(1, k)) && |ranked| >= 1
      && SortedDesc(ranked)
      && (forall i :: 0 <= i < |ranked| ==>
            && ranked[i].adId in cands
            && ranked[i].features == GetAdFeatures(cache, ranked[i].adId)
            && ranked[i].score == ScoreOf(model, ranked[i].features))
  {
    var s := ScoreAll(cands, cache, model);
    var sorted := SortByScore(s);
    assert |sorted| == |multiset(sorted)| == |multiset(s)| == |cands|;
    SortedEntriesAreCandidates(cands, cache, model);
  }

  // ---------------------------------------------------------------------
  // The handler

  /** Handles one request. Without a trained model the answer is status 503.
      Otherwise the candidates are scored in order, sorted by score and cut
      to max(1, k) entries; the response echoes the user and the requested
      k unchanged. */
  method RankAds(req: RankRequest, cache: map<int, CacheEntry>, model: Option<Classifier>, sample: seq<int>)
    returns (r: Result<RankResponse, HttpError>)
    requires IsSample(sample)
    ensures model.None? <==> r.Err?
    ensures r.Err? ==> r.error == HttpError(ServiceUnavailable)
    ensures r.Ok? ==>
      var cands := RetrieveCandidates(req, sample);
      var ranked := r.value.rankedAds;
      && r.value.userId == req.userId && r.value.k == req.k
      && |ranked| == Min(|cands|, Max(1, req.k)) && |ranked| >= 1
      && SortedDesc(ranked)
      && (forall i :: 0 <= i < |ranked| ==>
            && ranked[i].adId in cands
            && ranked[i].features == GetAdFeatures(cache, ranked[i].adId)
            && ranked[i].score == ScoreOf(model.value, ranked[i].features))
      && ranked == TopK(SortByScore(ScoreAll(cands, cache, model.value)), req.k)
  {
    if model.None? {
      return Err(HttpError(ServiceUnavailable));
    }
    var classifier := model.value;
    var cands := RetrieveCandidates(req, sample);
    var scored: seq<ScoredAd> := [];
    for i := 0 to |cands|
      invariant scored == ScoreAll(cands[..i], cache, classifier)
    {
      scored := scored + [ScoreAd(cache, classifier, cands[i])];
    }
    assert cands[..|cands|] == cands;
    var sorted := SortByScore(scored);
    TopKOfCandidates(cands, cache, classifier, req.k);
    var ranked := sorted[..Min(|sorted|, Max(1, req.k))];
    r := Ok(RankResponse(req.userId, req.k, ranked));
  }
}
