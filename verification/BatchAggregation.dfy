/** Batch aggregation: a list of candles through a fresh aggregator in open-time order. */
module BatchAggregation {
  import opened Timeline
  import opened Candles
  import opened Calendar
  import opened Buckets
  import opened FourHours
  import opened Aggregation
  import opened AggregationLaws
  import opened Sorting
  import opened Sequences

  /** What a fresh aggregator emits for the sorted candles, and at the clock when one is given. */
  function Batch(policy: BucketPolicy, source: Timeframe, target: Timeframe, cs: seq<Candle>, now: Option<Instant>): seq<AggResult> {
    var (a, rs) := Run(NewAgg(source, target, policy), Sort(cs, ByOpen));
    rs + if now.Some? then ToSeq(a.FlushAt(now.value).1) else []
  }

  /** The batch loop; `None` is the error for an unclosed candle or a second timeframe. */
  method AggregateWithStatus(policy: BucketPolicy, cs: seq<Candle>, target: Timeframe, now: Option<Instant>) returns (r: Option<seq<AggResult>>)
    requires cs != [] ==> cs[0].tf.Rank() < target.Rank()
    ensures cs == [] ==> r == Some([])
    ensures r.None? <==> cs != [] && Refusable(cs, cs[0].tf)
    ensures r.Some? && cs != [] ==> r.value == Batch(policy, cs[0].tf, target, cs, now)
  {
    if cs == [] {
      return Some([]);
    }
    var agg := new TimeframeAggregator(cs[0].tf, target, policy);
    var sorted := Sort(cs, ByOpen);
    SameRefusals(cs, cs[0].tf);
    var fed := FeedSorted(agg, sorted);
    if fed.None? {
      return None;
    }
    var results := fed.value;
    if now.Some? {
      var tail := agg.FlushAt(now.value);
      results := results + ToSeq(tail);
    } else {
      EmptyRight(results);
    }
    return Some(results);
  }

  /** Some candle an aggregator of the source timeframe refuses. */
  ghost predicate Refusable(cs: seq<Candle>, source: Timeframe) { exists i :: 0 <= i < |cs| && (!cs[i].closed || cs[i].tf != source) }

  lemma SameRefusals(cs: seq<Candle>, source: Timeframe)
    ensures Refusable(Sort(cs, ByOpen), source) <==> Refusable(cs, source)
  {
    var sorted := Sort(cs, ByOpen);
    SortMembers(cs, ByOpen);
    if Refusable(sorted, source) {
      var i :| 0 <= i < |sorted| && (!sorted[i].closed || sorted[i].tf != source);
      assert sorted[i] in cs;
    }
    if Refusable(cs, source) {
      var i :| 0 <= i < |cs| && (!cs[i].closed || cs[i].tf != source);
      assert cs[i] in sorted;
    }
  }

  lemma RunNone(a: Agg)
    ensures Run(a, []) == (a, [])
  {
  }

  lemma RunSnoc(a: Agg, cs: seq<Candle>, i: nat)
    requires i < |cs|
    ensures var (b, rs) := Run(a, cs[..i]); Run(a, cs[..i + 1]) == (b.Add(cs[i]).0, rs + b.Add(cs[i]).1)
  {
    assert cs[..i + 1][..i] == cs[..i] && cs[..i + 1][i] == cs[i];
  }

  method FeedSorted(agg: TimeframeAggregator, sorted: seq<Candle>) returns (r: Option<seq<AggResult>>)
    modifies agg
    ensures r.None? <==> Refusable(sorted, agg.source)
    ensures r.Some? ==> (agg.Value(), r.value) == Run(old(agg.Value()), sorted)
  {
    hide Run, Agg.Add;
    RunNone(agg.Value());
    var results := [];
    var i := 0;
    while i < |sorted|
      invariant 0 <= i <= |sorted| && (agg.Value(), results) == Run(old(agg.Value()), sorted[..i])
      invariant forall k :: 0 <= k < i ==> sorted[k].closed && sorted[k].tf == agg.source
    {
      RunSnoc(old(agg.Value()), sorted, i);
      var out := agg.Add(sorted[i]);
      if out.Refused? {
        return None;
      }
      results := results + out.results;
      i := i + 1;
    }
    assert sorted[..i] == sorted;
    return Some(results);
  }

  /** Later instants never fall in an earlier bucket; of the four-hour buckets of an exchange this is said
      exactly when no bucket goes back across a midnight. */
  lemma BucketsInOrder(p: Policy, target: Timeframe, x: Instant, y: Instant)
    requires (OnGrid(p, target) || (p.cal.WithinDay() && MidnightsInOrder(p.cal))) && x <= y
    ensures p.Bucket(x, target).start <= p.Bucket(y, target).start
  {
    if OnGrid(p, target) {
      FloorCell(x, target);
      FloorCell(y, target);
      if FloorTo(y, target.Seconds()) < FloorTo(x, target.Seconds()) {
        AlignedApart(FloorTo(y, target.Seconds()), FloorTo(x, target.Seconds()), target);
      }
    } else {
      InOrderIff(p.cal);
    }
  }

  /** BATCH IS GROUPING: whatever list of candles comes in, in whatever order, with duplicates, misaligned and
      off-session ones, batch aggregation flushed past the last bucket gives one result per bucket, computed
      from that bucket's arrivals alone. */
  lemma BatchIsGrouping(p: Policy, source: Timeframe, target: Timeframe, cs: seq<Candle>, now: Instant)
    requires OnGrid(p, target) || (p.cal.WithinDay() && MidnightsInOrder(p.cal))
    requires var a := Run(NewAgg(source, target, PolicyOf(p)), Sort(cs, ByOpen)).0; a.bucket.Some? ==> a.bucket.value.endTime <= now
    ensures var a, sorted := NewAgg(source, target, PolicyOf(p)), Sort(cs, ByOpen);
      Batch(PolicyOf(p), source, target, cs, Some(now)) == GroupResults(a, sorted, Keys(a, sorted)) && Increasing(Keys(a, sorted))
  {
    var a, sorted := NewAgg(source, target, PolicyOf(p)), Sort(cs, ByOpen);
    SortSorts(cs, ByOpen);
    forall i, j | 0 <= i < j < |sorted| ensures a.KeyOf(sorted[i].openTime) <= a.KeyOf(sorted[j].openTime) {
      assert ByOpen(sorted[i]) <= ByOpen(sorted[j]);
      BucketsInOrder(p, target, sorted[i].openTime, sorted[j].openTime);
    }
    StreamingEqualsGrouping(a, sorted, now);
  }
}
