/** The windowed aggregation of the streaming job: every decoded event goes
    into a five-minute tumbling window keyed by (window start, window end,
    ad id); per key the job counts impressions and clicks, sums conversion
    revenue and derives a click-through rate. A two-minute event-time
    watermark bounds how late an event may arrive and still be counted.
    Times are whole seconds. */
module Windowing {
  import opened Wrappers

  /** Length of a tumbling window: "5 minutes". */
  const WindowSize: int := 300
  /** Delay of the watermark behind the largest event time: "2 minutes". */
  const AllowedLateness: int := 120

  const Impression: string := "impression"
  const Click: string := "click"
  const Conversion: string := "conversion"

  /** An event as decoded from the stream. The stream schema does not
      restrict `eventType`, and `revenue` may be null. */
  datatype StreamEvent = StreamEvent(eventTime: int, adId: int, eventType: string, revenue: Option<real>)

  /** The grouping key: one window and one ad. */
  datatype WindowKey = WindowKey(start: int, end: int, adId: int)

  /** Running totals of one key. `revenue` is a SQL sum: it stays null until
      some conversion with a non-null revenue has been added. */
  datatype Agg = Agg(impressions: nat, clicks: nat, revenue: Option<real>)

  const Zero: Agg := Agg(0, 0, None)

  // ---------------------------------------------------------------------
  // Windows

  /** Start of the window holding time `t`: `t` rounded down to a multiple
      of the window size. */
  function WindowStart(t: int): (s: int)
    ensures s % WindowSize == 0
    ensures s <= t < s + WindowSize
  {
    t - t % WindowSize
  }

  /** Any window-aligned interval holding `t` is the one `WindowStart` picks,
      so every event lies in exactly one window. */
  lemma WindowStartUnique(t: int, s: int)
    requires s % WindowSize == 0
    requires s <= t < s + WindowSize
    ensures s == WindowStart(t)
  {
    var q := s / WindowSize;
    assert s == q * WindowSize;
    assert t == q * WindowSize + (t - s) && 0 <= t - s < WindowSize;
    assert t % WindowSize == t - s;
  }

  /** The group key of an event. */
  function KeyOf(e: StreamEvent): (k: WindowKey)
    ensures k.adId == e.adId
    ensures k.end - k.start == WindowSize
    ensures k.start % WindowSize == 0
    ensures k.start <= e.eventTime < k.end
  {
    var s := WindowStart(e.eventTime);
    WindowKey(s, s + WindowSize, e.adId)
  }

  /** Two windows that share an instant are the same window. */
  lemma WindowsDoNotOverlap(e1: StreamEvent, e2: StreamEvent, t: int)
    requires KeyOf(e1).start <= t < KeyOf(e1).end
    requires KeyOf(e2).start <= t < KeyOf(e2).end
    ensures KeyOf(e1).start == KeyOf(e2).start && KeyOf(e1).end == KeyOf(e2).end
  {
    WindowStartUnique(t, KeyOf(e1).start);
    WindowStartUnique(t, KeyOf(e2).start);
  }

  // ---------------------------------------------------------------------
  // Aggregation

  /** Click-through rate with a guarded division. */
  function Ctr(impressions: nat, clicks: nat): (r: real)
    ensures r >= 0.0
    ensures impressions == 0 ==> r == 0.0
    ensures impressions > 0 ==> r * (impressions as real) == clicks as real
  {
    if impressions > 0 then (clicks as real) / (impressions as real) else 0.0
  }

  /** Nothing in the rate's definition keeps it at or below one: a window
      with more clicks than impressions has a rate above one. */
  lemma CtrCanExceedOne()
    ensures Ctr(1, 2) == 2.0
  {
  }

  /** The rate is at most one exactly when clicks do not exceed impressions. */
  lemma CtrAtMostOne(impressions: nat, clicks: nat)
    requires impressions > 0
    ensures Ctr(impressions, clicks) <= 1.0 <==> clicks <= impressions
  {
    var r := Ctr(impressions, clicks);
    assert r * (impressions as real) == clicks as real;
    if r <= 1.0 {
      assert r * (impressions as real) <= 1.0 * (impressions as real);
    } else {
      assert r * (impressions as real) > 1.0 * (impressions as real);
    }
  }

  /** SQL `sum` of a nullable column: nulls are skipped, and the sum of no
      non-null value is null. */
  function AddRevenue(acc: Option<real>, x: Option<real>): (r: Option<real>)
    ensures x.None? ==> r == acc
    ensures r.None? <==> acc.None? && x.None?
    ensures acc.Some? && x.Some? ==> r == Some(acc.value + x.value)
    ensures acc.None? && x.Some? ==> r == x
  {
    match x
    case None => acc
    case Some(v) => Some(acc.GetOr(0.0) + v)
  }

  /** The totals after one more event of the same key: an impression or a
      click counts once, in its own column; only a conversion can change the
      revenue, and a conversion counts as neither. */
  function Accumulate(a: Agg, e: StreamEvent): (r: Agg)
    ensures a.impressions <= r.impressions && a.clicks <= r.clicks
    ensures (r.impressions - a.impressions) + (r.clicks - a.clicks) == if e.eventType in {Impression, Click} then 1 else 0
    ensures e.eventType != Impression ==> r.impressions == a.impressions
    ensures e.eventType != Click ==> r.clicks == a.clicks
    ensures e.eventType != Conversion ==> r.revenue == a.revenue
  {
    Agg(a.impressions + (if e.eventType == Impression then 1 else 0),
        a.clicks + (if e.eventType == Click then 1 else 0),
        if e.eventType == Conversion then AddRevenue(a.revenue, e.revenue) else a.revenue)
  }

  /** The totals of `k`, zero when the key has no entry. */
  function Lookup(aggs: map<WindowKey, Agg>, k: WindowKey): Agg
  {
    if k in aggs then aggs[k] else Zero
  }

  /** One event of the grouped aggregation: its own key's totals take the
      event in (starting from zero for a new key); every other key keeps its
      totals. */
  function AddEvent(aggs: map<WindowKey, Agg>, e: StreamEvent): (r: map<WindowKey, Agg>)
    ensures r.Keys == aggs.Keys + {KeyOf(e)}
    ensures r[KeyOf(e)] == Accumulate(Lookup(aggs, KeyOf(e)), e)
    ensures forall k :: k in aggs && k != KeyOf(e) ==> r[k] == aggs[k]
  {
    aggs[KeyOf(e) := Accumulate(Lookup(aggs, KeyOf(e)), e)]
  }

  /** groupBy(window, ad_id).agg(...) over a finite sequence of events.
      Every group is one tumbling window, and no group counts more
      impressions and clicks than there are events. */
  function AggregateAll(es: seq<StreamEvent>): (r: map<WindowKey, Agg>)
    ensures forall k :: k in r ==> k.end - k.start == WindowSize && k.start % WindowSize == 0
    ensures forall k :: k in r ==> r[k].impressions + r[k].clicks <= |es|
  {
    if es == [] then map[] else AddEvent(AggregateAll(es[..|es| - 1]), es[|es| - 1])
  }

  // Reference definitions the aggregation is proved against.

  /** Positions of the events of key `k` with type `ty`. */
  function Matching(es: seq<StreamEvent>, k: WindowKey, ty: string): set<int>
  {
    set i | 0 <= i < |es| && KeyOf(es[i]) == k && es[i].eventType == ty
  }

  /** How many events of key `k` have type `ty`. */
  function CountOf(es: seq<StreamEvent>, k: WindowKey, ty: string): nat
  {
    |Matching(es, k, ty)|
  }

  /** The non-null revenues of the conversion events of key `k`, in order. */
  function ConversionRevenues(es: seq<StreamEvent>, k: WindowKey): seq<real>
  {
    if es == [] then []
    else
      (if KeyOf(es[0]) == k && es[0].eventType == Conversion && es[0].revenue.Some?
       then [es[0].revenue.value] else [])
      + ConversionRevenues(es[1..], k)
  }

  function Sum(rs: seq<real>): real
  {
    if rs == [] then 0.0 else rs[0] + Sum(rs[1..])
  }

  /** The sum of a column as SQL returns it: null for no values. */
  function SumOrNull(rs: seq<real>): Option<real>
  {
    if rs == [] then None else Some(Sum(rs))
  }

  lemma {:induction false} SumSnoc(rs: seq<real>, v: real)
    ensures Sum(rs + [v]) == Sum(rs) + v
  {
    if rs != [] {
      assert (rs + [v])[1..] == rs[1..] + [v];
      SumSnoc(rs[1..], v);
    }
  }

  lemma {:induction false} ConversionRevenuesSnoc(es: seq<StreamEvent>, e: StreamEvent, k: WindowKey)
    ensures ConversionRevenues(es + [e], k) == ConversionRevenues(es, k) + ConversionRevenues([e], k)
  {
    if es == [] {
      assert es + [e] == [e];
    } else {
      assert (es + [e])[1..] == es[1..] + [e];
      ConversionRevenuesSnoc(es[1..], e, k);
    }
  }

  lemma CountOfSnoc(es: seq<StreamEvent>, e: StreamEvent, k: WindowKey, ty: string)
    ensures CountOf(es + [e], k, ty) == CountOf(es, k, ty) + (if KeyOf(e) == k && e.eventType == ty then 1 else 0)
  {
    var m, m' := Matching(es, k, ty), Matching(es + [e], k, ty);
    if KeyOf(e) == k && e.eventType == ty {
      assert m' == m + {|es|};
      assert |es| !in m;
    } else {
      assert m' == m;
    }
  }

  lemma AggregateAllSnoc(es: seq<StreamEvent>, e: StreamEvent)
    ensures AggregateAll(es + [e]) == AddEvent(AggregateAll(es), e)
  {
    assert (es + [e])[..|es|] == es;
  }

  /** A key has an aggregate exactly when some event belongs to it: at most
      one aggregate per window and ad, and none without an event. */
  lemma {:induction false} AggregateAllKeys(es: seq<StreamEvent>, k: WindowKey)
    ensures k in AggregateAll(es) <==> exists i :: 0 <= i < |es| && KeyOf(es[i]) == k
  {
    if es != [] {
      var p, e := es[..|es| - 1], es[|es| - 1];
      assert es == p + [e];
      AggregateAllKeys(p, k);
      AggregateAllSnoc(p, e);
      if k in AggregateAll(es) && KeyOf(e) != k {
        var i :| 0 <= i < |p| && KeyOf(p[i]) == k;
        assert es[i] == p[i];
      }
      if exists i :: 0 <= i < |es| && KeyOf(es[i]) == k {
        var i :| 0 <= i < |es| && KeyOf(es[i]) == k;
        if i < |p| { assert p[i] == es[i]; }
      }
    }
  }

  /** The impressions of a key are the number of its impression events, its
      clicks the number of its click events; other event types count for
      neither. */
  lemma {:induction false} AggregateAllCounts(es: seq<StreamEvent>, k: WindowKey)
    ensures Lookup(AggregateAll(es), k).impressions == CountOf(es, k, Impression)
    ensures Lookup(AggregateAll(es), k).clicks == CountOf(es, k, Click)
  {
    if es != [] {
      var p, e := es[..|es| - 1], es[|es| - 1];
      assert es == p + [e];
      AggregateAllCounts(p, k);
      AggregateAllSnoc(p, e);
      CountOfSnoc(p, e, k, Impression);
      CountOfSnoc(p, e, k, Click);
    }
  }

  /** The revenue of a key is the SQL sum of the non-null revenues of its
      conversion events; revenue on impressions and clicks is ignored. */
  lemma {:induction false} AggregateAllRevenue(es: seq<StreamEvent>, k: WindowKey)
    ensures Lookup(AggregateAll(es), k).revenue == SumOrNull(ConversionRevenues(es, k))
  {
    if es != [] {
      var p, e := es[..|es| - 1], es[|es| - 1];
      assert es == p + [e];
      AggregateAllRevenue(p, k);
      AggregateAllSnoc(p, e);
      ConversionRevenuesSnoc(p, e, k);
      var rs := ConversionRevenues(p, k);
      if KeyOf(e) == k && e.eventType == Conversion && e.revenue.Some? {
        assert ConversionRevenues([e], k) == [e.revenue.value];
        SumSnoc(rs, e.revenue.value);
      } else {
        assert ConversionRevenues([e], k) == [];
        assert rs + [] == rs;
      }
    }
  }

  /** Revenue only ever comes from conversion events: an impression or a
      click leaves the revenue total of its key as it was. */
  lemma NonConversionKeepsRevenue(aggs: map<WindowKey, Agg>, e: StreamEvent, k: WindowKey)
    requires e.eventType != Conversion
    ensures Lookup(AddEvent(aggs, e), k).revenue == Lookup(aggs, k).revenue
  {
  }

  /** When every revenue in the stream is absent or non-negative, so are all
      revenue totals. */
  lemma {:induction false} RevenueNonNegative(es: seq<StreamEvent>, k: WindowKey)
    requires forall i :: 0 <= i < |es| && es[i].revenue.Some? ==> es[i].revenue.value >= 0.0
    ensures Lookup(AggregateAll(es), k).revenue.Some? ==> Lookup(AggregateAll(es), k).revenue.value >= 0.0
  {
    AggregateAllRevenue(es, k);
    ConversionRevenuesNonNegative(es, k);
    SumNonNegative(ConversionRevenues(es, k));
  }

  lemma {:induction false} ConversionRevenuesNonNegative(es: seq<StreamEvent>, k: WindowKey)
    requires forall i :: 0 <= i < |es| && es[i].revenue.Some? ==> es[i].revenue.value >= 0.0
    ensures forall j :: 0 <= j < |ConversionRevenues(es, k)| ==> ConversionRevenues(es, k)[j] >= 0.0
  {
    if es != [] {
      assert forall i :: 0 <= i < |es[1..]| ==> es[1..][i] == es[i + 1];
      ConversionRevenuesNonNegative(es[1..], k);
    }
  }

  lemma {:induction false} SumNonNegative(rs: seq<real>)
    requires forall j :: 0 <= j < |rs| ==> rs[j] >= 0.0
    ensures Sum(rs) >= 0.0
  {
    if rs != [] {
      assert forall j :: 0 <= j < |rs[1..]| ==> rs[1..][j] == rs[j + 1];
      SumNonNegative(rs[1..]);
    }
  }

  // ---------------------------------------------------------------------
  // Watermark and late events

  /** The state of the running query: the totals so far and the largest
      event time seen (none before the first event). */
  datatype StreamState = StreamState(aggs: map<WindowKey, Agg>, maxEventTime: Option<int>)

  const Initial: StreamState := StreamState(map[], None)

  /** The largest event time after seeing one at `t`. */
  function RunningMax(m: Option<int>, t: int): (r: int)
    ensures t <= r
    ensures m.Some? ==> m.value <= r
    ensures r == t || (m.Some? && r == m.value)
  {
    match m
    case None => t
    case Some(x) => if x >= t then x else t
  }

  /** The watermark: the largest event time seen minus the allowed lateness.
      It exists once an event has been seen, and trails that event. */
  function Watermark(st: StreamState): (wm: Option<int>)
    ensures wm.Some? <==> st.maxEventTime.Some?
    ensures wm.Some? ==> wm.value < st.maxEventTime.value
  {
    match st.maxEventTime
    case None => None
    case Some(m) => Some(m - AllowedLateness)
  }

  /** An event is too late when the watermark has reached the end of its
      window: that window's state has been finalised and dropped. */
  predicate IsLate(wm: Option<int>, e: StreamEvent)
    ensures IsLate(wm, e) ==> wm.Some? && e.eventTime < wm.value
    ensures wm.Some? && e.eventTime + WindowSize <= wm.value ==> IsLate(wm, e)
  {
    wm.Some? && KeyOf(e).end <= wm.value
  }

  /** Processing one event: a late event is discarded, any other is added to
      its window; the largest event time seen is advanced either way. */
  function Step(st: StreamState, e: StreamEvent): (st': StreamState)
    ensures st'.maxEventTime.Some? && e.eventTime <= st'.maxEventTime.value
    ensures NotAfter(Watermark(st), Watermark(st'))
    ensures IsLate(Watermark(st), e) ==> st'.aggs == st.aggs
    ensures !IsLate(Watermark(st), e) ==> Lookup(st'.aggs, KeyOf(e)) == Accumulate(Lookup(st.aggs, KeyOf(e)), e)
    ensures forall k :: k != KeyOf(e) ==> Lookup(st'.aggs, k) == Lookup(st.aggs, k)
  {
    StreamState(if IsLate(Watermark(st), e) then st.aggs else AddEvent(st.aggs, e),
                Some(RunningMax(st.maxEventTime, e.eventTime)))
  }

  /** The state after a sequence of events. */
  function Run(es: seq<StreamEvent>): (st: StreamState)
    ensures st.maxEventTime.None? <==> es == []
    ensures es != [] ==> es[|es| - 1].eventTime <= st.maxEventTime.value
  {
    if es == [] then Initial else Step(Run(es[..|es| - 1]), es[|es| - 1])
  }

  /** The events that were not late when they arrived, in arrival order. */
  function Admitted(es: seq<StreamEvent>): seq<StreamEvent>
  {
    if es == [] then []
    else
      var p, e := es[..|es| - 1], es[|es| - 1];
      Admitted(p) + (if IsLate(Watermark(Run(p)), e) then [] else [e])
  }

  /** The admitted events are a selection of the stream's events: no more of
      them, and each one an event of the stream. */
  lemma {:induction false} AdmittedAreEvents(es: seq<StreamEvent>)
    ensures |Admitted(es)| <= |es|
    ensures forall i :: 0 <= i < |Admitted(es)| ==> Admitted(es)[i] in es
  {
    if es != [] {
      var p, e := es[..|es| - 1], es[|es| - 1];
      AdmittedAreEvents(p);
      var a := Admitted(p) + (if IsLate(Watermark(Run(p)), e) then [] else [e]);
      assert Admitted(es) == a;
      forall i | 0 <= i < |a| ensures a[i] in es {
        if i < |Admitted(p)| {
          assert a[i] in p;
          var j :| 0 <= j < |p| && p[j] == a[i];
          assert es[j] == p[j];
        } else {
          assert a[i] == es[|es| - 1];
        }
      }
    }
  }

  /** The running totals are the aggregation of exactly the admitted events. */
  lemma {:induction false} RunAggregatesAdmitted(es: seq<StreamEvent>)
    ensures Run(es).aggs == AggregateAll(Admitted(es))
  {
    if es != [] {
      var p, e := es[..|es| - 1], es[|es| - 1];
      RunAggregatesAdmitted(p);
      assert Run(es) == Step(Run(p), e);
      if !IsLate(Watermark(Run(p)), e) {
        assert Admitted(es) == Admitted(p) + [e];
        AggregateAllSnoc(Admitted(p), e);
      } else {
        assert Admitted(es) == Admitted(p) + [] == Admitted(p);
      }
    }
  }

  /** Per window and ad, the counted impressions and clicks are the number
      of admitted events of each type. */
  lemma WindowCounts(es: seq<StreamEvent>, k: WindowKey)
    ensures Lookup(Run(es).aggs, k).impressions == CountOf(Admitted(es), k, Impression)
    ensures Lookup(Run(es).aggs, k).clicks == CountOf(Admitted(es), k, Click)
    ensures Lookup(Run(es).aggs, k).revenue == SumOrNull(ConversionRevenues(Admitted(es), k))
  {
    RunAggregatesAdmitted(es);
    AggregateAllCounts(Admitted(es), k);
    AggregateAllRevenue(Admitted(es), k);
  }

  /** The largest event time seen is the maximum of the event times. */
  lemma {:induction false} MaxEventTimeIsMaximum(es: seq<StreamEvent>)
    ensures Run(es).maxEventTime.None? <==> es == []
    ensures Run(es).maxEventTime.Some? ==>
      (forall i :: 0 <= i < |es| ==> es[i].eventTime <= Run(es).maxEventTime.value)
      && (exists i :: 0 <= i < |es| && es[i].eventTime == Run(es).maxEventTime.value)
  {
    if es != [] {
      var p, e := es[..|es| - 1], es[|es| - 1];
      MaxEventTimeIsMaximum(p);
      assert forall i :: 0 <= i < |p| ==> es[i] == p[i];
      if Run(p).maxEventTime.Some? && Run(p).maxEventTime.value >= e.eventTime {
        var i :| 0 <= i < |p| && p[i].eventTime == Run(p).maxEventTime.value;
        assert es[i].eventTime == Run(es).maxEventTime.value;
      } else {
        assert es[|es| - 1].eventTime == Run(es).maxEventTime.value;
      }
    }
  }

  /** Order on watermarks; "no watermark yet" is below every watermark. */
  predicate NotAfter(a: Option<int>, b: Option<int>)
  {
    a.None? || (b.Some? && a.value <= b.value)
  }

  /** The watermark never moves backwards, whatever events follow. */
  lemma {:induction false} WatermarkMonotone(es: seq<StreamEvent>, more: seq<StreamEvent>)
    ensures NotAfter(Watermark(Run(es)), Watermark(Run(es + more)))
  {
    if more == [] {
      assert es + more == es;
    } else {
      var q := more[..|more| - 1];
      WatermarkMonotone(es, q);
      assert (es + more)[..|es + more| - 1] == es + q;
    }
  }

  /** An event no older than the watermark is always counted in its window. */
  lemma OnTimeEventCounted(es: seq<StreamEvent>, e: StreamEvent)
    requires Watermark(Run(es)).None? || Watermark(Run(es)).value <= e.eventTime
    ensures Admitted(es + [e]) == Admitted(es) + [e]
    ensures Run(es + [e]).aggs == AddEvent(Run(es).aggs, e)
    ensures Lookup(Run(es + [e]).aggs, KeyOf(e)) == Accumulate(Lookup(Run(es).aggs, KeyOf(e)), e)
  {
    assert (es + [e])[..|es|] == es;
  }

  /** An event whose window ended at or before the watermark changes no
      aggregate and leaves the watermark where it was. */
  lemma LateEventDropped(es: seq<StreamEvent>, e: StreamEvent)
    requires IsLate(Watermark(Run(es)), e)
    ensures Admitted(es + [e]) == Admitted(es)
    ensures Run(es + [e]) == Run(es)
  {
    assert (es + [e])[..|es|] == es;
    assert Admitted(es) + [] == Admitted(es);
  }

  /** A stream delivered in event-time order loses nothing to the watermark. */
  lemma {:induction false} InOrderStreamLosesNothing(es: seq<StreamEvent>)
    requires forall i, j :: 0 <= i < j < |es| ==> es[i].eventTime <= es[j].eventTime
    ensures Admitted(es) == es
  {
    if es != [] {
      var p, e := es[..|es| - 1], es[|es| - 1];
      assert es == p + [e];
      InOrderPrefix(es, p, e);
      InOrderStreamLosesNothing(p);
      NoLaterEventNotLate(p, e);
      AdmittedOnTime(p, e);
    }
  }

  /** An event that is not late is appended to the admitted events. */
  lemma AdmittedOnTime(p: seq<StreamEvent>, e: StreamEvent)
    requires !IsLate(Watermark(Run(p)), e)
    ensures Admitted(p + [e]) == Admitted(p) + [e]
  {
    assert (p + [e])[..|p|] == p;
  }

  /** The prefix of a stream in event-time order is in order, and its events
      are no later than the last one. */
  lemma InOrderPrefix(es: seq<StreamEvent>, p: seq<StreamEvent>, e: StreamEvent)
    requires es == p + [e]
    requires forall i, j :: 0 <= i < j < |es| ==> es[i].eventTime <= es[j].eventTime
    ensures forall i, j :: 0 <= i < j < |p| ==> p[i].eventTime <= p[j].eventTime
    ensures forall i :: 0 <= i < |p| ==> p[i].eventTime <= e.eventTime
  {
    assert forall i :: 0 <= i < |p| ==> p[i] == es[i];
    assert es[|p|] == e;
  }

  /** An event no older than any event before it is not late. */
  lemma NoLaterEventNotLate(p: seq<StreamEvent>, e: StreamEvent)
    requires forall i :: 0 <= i < |p| ==> p[i].eventTime <= e.eventTime
    ensures !IsLate(Watermark(Run(p)), e)
  {
    MaxEventTimeIsMaximum(p);
    if Run(p).maxEventTime.Some? {
      var i :| 0 <= i < |p| && p[i].eventTime == Run(p).maxEventTime.value;
      assert Watermark(Run(p)).value < e.eventTime < KeyOf(e).end;
    }
  }

  /** The worked example of a first window: two impressions and a click in
      [0, 300) give a rate of one half; a click at 330 s opens the next
      window instead of correcting the first. */
  lemma FirstWindowExample()
    ensures
      var es := [StreamEvent(10, 1, Impression, None), StreamEvent(20, 1, Impression, None),
                 StreamEvent(290, 1, Click, None), StreamEvent(330, 1, Click, None)];
      var st := Run(es);
      && Lookup(st.aggs, WindowKey(0, 300, 1)) == Agg(2, 1, None)
      && Ctr(2, 1) == 0.5
      && Lookup(st.aggs, WindowKey(300, 600, 1)) == Agg(0, 1, None)
      && Watermark(st) == Some(210)
  {
    var e1, e2 := StreamEvent(10, 1, Impression, None), StreamEvent(20, 1, Impression, None);
    var e3, e4 := StreamEvent(290, 1, Click, None), StreamEvent(330, 1, Click, None);
    var k1, k2 := WindowKey(0, 300, 1), WindowKey(300, 600, 1);
    assert KeyOf(e1) == k1 && KeyOf(e2) == k1 && KeyOf(e3) == k1 && KeyOf(e4) == k2;
    var es := [e1, e2, e3, e4];
    assert es[..3] == [e1, e2, e3] && [e1, e2, e3][..2] == [e1, e2] && [e1, e2][..1] == [e1] && [e1][..0] == [];
    assert Run([e1]) == StreamState(map[k1 := Agg(1, 0, None)], Some(10));
    assert Run([e1, e2]) == StreamState(map[k1 := Agg(2, 0, None)], Some(20));
    assert Run([e1, e2, e3]) == StreamState(map[k1 := Agg(2, 1, None)], Some(290));
    assert Run(es) == StreamState(map[k1 := Agg(2, 1, None), k2 := Agg(0, 1, None)], Some(330));
  }

  // ---------------------------------------------------------------------
  // Emitted rows

  /** One row of the aggregation's output: key, totals and derived rate. */
  datatype AggRow = AggRow(key: WindowKey, impressions: nat, clicks: nat, revenue: Option<real>, ctr: real)

  /** The output row of a key: its totals with the rate derived from them. */
  function RowOf(k: WindowKey, a: Agg): (r: AggRow)
    ensures r.key == k && r.impressions == a.impressions && r.clicks == a.clicks && r.revenue == a.revenue
    ensures r.ctr >= 0.0
    ensures r.impressions > 0 ==> r.ctr * (r.impressions as real) == r.clicks as real
    ensures r.impressions == 0 ==> r.ctr == 0.0
  {
    AggRow(k, a.impressions, a.clicks, a.revenue, Ctr(a.impressions, a.clicks))
  }

  /** A micro-batch of output in "update" mode: rows of current totals, at
      most one per key. The same key may be emitted again in a later batch. */
  predicate IsEmission(batch: seq<AggRow>, aggs: map<WindowKey, Agg>)
    ensures IsEmission(batch, aggs) ==>
      forall i :: 0 <= i < |batch| ==> batch[i].ctr == Ctr(batch[i].impressions, batch[i].clicks)
  {
    && (forall i :: 0 <= i < |batch| ==> batch[i].key in aggs && batch[i] == RowOf(batch[i].key, aggs[batch[i].key]))
    && (forall i, j :: 0 <= i < j < |batch| ==> batch[i].key != batch[j].key)
  }
}
