/** What the results of an aggregator say about the candles that arrived, over any run in any order, without
    looking at how buckets are kept or candles folded. */
module BarRuns {
  import opened Timeline
  import opened Candles
  import opened Buckets
  import opened Aggregation
  import opened AggregationLaws
  import opened Sequences

  // ------------------------------------------------------------------ what a bucket has taken in

  /** Nothing has come for a later bucket than the open or last emitted one. */
  ghost predicate NoneBeyond(b: Agg, cs: seq<Candle>) {
    forall c :: c in cs && Aligned(c.openTime, b.source) ==> b.TooLate(c.openTime) || (b.bucket.Some? && b.KeyOf(c.openTime) == b.bucket.value.openTime)
  }

  /** The open bucket holds every arrival of its own. */
  ghost predicate OpenHolds(a: Agg, b: Agg, cs: seq<Candle>) {
    b.bucket.Some? ==>
      var g := OfKey(a, cs, b.bucket.value.openTime);
      g != [] && b.bucket.value == BucketOf(a, g)
  }

  /** The result of the bucket of what had arrived for it after `n` candles. */
  ghost predicate ResultAfter(a: Agg, cs: seq<Candle>, n: nat, r: AggResult) {
    n <= |cs| && var g := OfKey(a, cs[..n], r.openTime); g != [] && BucketOf(a, g).ResultOf(a.target) == Some(r)
  }

  ghost predicate FromArrivals(a: Agg, cs: seq<Candle>, r: AggResult) { exists n: nat :: ResultAfter(a, cs, n, r) }

  lemma FromMore(a: Agg, cs: seq<Candle>, c: Candle, r: AggResult)
    requires FromArrivals(a, cs, r)
    ensures FromArrivals(a, cs + [c], r)
  {
    hide OfKey, BucketOf, Bucket.ResultOf;
    var n: nat :| ResultAfter(a, cs, n, r);
    assert (cs + [c])[..n] == cs[..n];
    assert ResultAfter(a, cs + [c], n, r);
  }

  lemma BucketOpens(a: Agg, g: seq<Candle>)
    requires g != []
    ensures BucketOf(a, g).openTime == a.KeyOf(g[0].openTime)
    decreases |g|
  {
    if |g| > 1 { BucketOpens(a, g[..|g| - 1]); }
  }

  lemma {:induction false} OfKeyHas(a: Agg, cs: seq<Candle>, key: Instant)
    ensures forall c :: c in OfKey(a, cs, key) ==> c in cs && Aligned(c.openTime, a.source) && a.KeyOf(c.openTime) == key
  {
    if cs != [] { OfKeyHas(a, cs[..|cs| - 1], key); }
  }

  /** A result of the bucket holding these arrivals. */
  lemma ResultIs(a: Agg, cs: seq<Candle>, g: seq<Candle>, key: Instant, rs: seq<AggResult>)
    requires g != [] && g == OfKey(a, cs, key) && rs == ToSeq(BucketOf(a, g).ResultOf(a.target))
    ensures forall r :: r in rs ==> FromArrivals(a, cs, r)
  {
    OfKeyHas(a, cs, key);
    BucketOpens(a, g);
    hide OfKey, BucketOf;
    assert g[0] in g;
    forall r | r in rs ensures FromArrivals(a, cs, r) {
      assert cs[..|cs|] == cs;
      assert ResultAfter(a, cs, |cs|, r);
    }
  }

  /** Once too late, always too late. */
  lemma AddOnward(b: Agg, c: Candle)
    requires b.Valid() && c.closed && c.tf == b.source
    ensures var d := b.Add(c).0; d.Valid() && SameConfig(b, d) && forall ts :: b.TooLate(ts) ==> d.TooLate(ts)
    ensures var d := b.Add(c).0; forall ts :: b.bucket.Some? && b.KeyOf(ts) == b.bucket.value.openTime ==>
              d.TooLate(ts) || (d.bucket.Some? && d.KeyOf(ts) == d.bucket.value.openTime)
    ensures var d := b.Add(c).0; Aligned(c.openTime, b.source) ==>
              d.TooLate(c.openTime) || (d.bucket.Some? && d.KeyOf(c.openTime) == d.bucket.value.openTime)
  {
    hide Bucket.Sound;
    AddEffect(b, c);
    if Aligned(c.openTime, b.source) && !b.TooLate(c.openTime) {
      ReadyEffect(b, c.openTime);
      PlaceCases(b.Ready(c.openTime).0, c);
    }
  }

  lemma NoneBeyondStep(b: Agg, cs: seq<Candle>, c: Candle)
    requires b.Valid() && c.closed && c.tf == b.source && NoneBeyond(b, cs)
    ensures NoneBeyond(b.Add(c).0, cs + [c])
  {
    AddOnward(b, c);
    hide Agg.Add, Aligned, Agg.TooLate, Agg.KeyOf, Agg.Valid;
    var d := b.Add(c).0;
    forall x | x in cs + [c] && Aligned(x.openTime, d.source)
      ensures d.TooLate(x.openTime) || (d.bucket.Some? && d.KeyOf(x.openTime) == d.bucket.value.openTime)
    {
      assert x in cs || x == c;
    }
  }

  /** An arrival that changes nothing. */
  lemma UnchangedStep(a: Agg, b: Agg, cs: seq<Candle>, c: Candle)
    requires SameConfig(a, b) && OpenHolds(a, b, cs) && (!Aligned(c.openTime, a.source) || b.TooLate(c.openTime)) && b.Valid()
    ensures OpenHolds(a, b, cs + [c])
  {
    if b.bucket.Some? {
      var key := b.bucket.value.openTime;
      OfKeySnoc(a, cs, c, key);
      EmptyRight(OfKey(a, cs, key));
    }
  }

  /** An arrival for the open bucket. */
  lemma JoinStep(a: Agg, b: Agg, cs: seq<Candle>, c: Candle)
    requires SameConfig(a, b) && OpenHolds(a, b, cs) && b.Valid() && b.bucket.Some?
    requires Aligned(c.openTime, a.source) && a.KeyOf(c.openTime) == b.bucket.value.openTime
    ensures OpenHolds(a, b.Add(c).0, cs + [c]) && forall r :: r in b.Add(c).1 ==> FromArrivals(a, cs + [c], r)
  {
    var key := b.bucket.value.openTime;
    var g := OfKey(a, cs, key);
    OfKeySnoc(a, cs, c, key);
    BucketOfSnoc(a, g, c);
    AddToOpen(b, c);
    PlaceCases(b, c);
    hide OfKey, BucketOf, Agg.Add, Agg.Place, Bucket.Arrive, FromArrivals;
    if b.Add(c).0.bucket.None? { ResultIs(a, cs + [c], g + [c], key, b.Add(c).1); }
    BucketOpens(a, g + [c]);
    OfKeyHas(a, cs + [c], key);
    assert (g + [c])[0] in g + [c];
  }

  /** The first arrival of a new bucket. */
  lemma NewStep(a: Agg, b: Agg, cs: seq<Candle>, c: Candle)
    requires SameConfig(a, b) && OpenHolds(a, b, cs) && b.Valid() && NoneBeyond(b, cs)
    requires Aligned(c.openTime, a.source) && !b.TooLate(c.openTime) && (b.bucket.Some? ==> b.bucket.value.openTime < a.KeyOf(c.openTime))
    ensures OpenHolds(a, b.Add(c).0, cs + [c]) && forall r :: r in b.Add(c).1 ==> FromArrivals(a, cs + [c], r)
  {
    var key := a.KeyOf(c.openTime);
    forall i | 0 <= i < |cs| && Aligned(cs[i].openTime, a.source) ensures a.KeyOf(cs[i].openTime) != key { assert cs[i] in cs; }
    NoneOfKey(a, cs, key);
    OfKeySnoc(a, cs, c, key);
    EmptyLeft([c]);
    AddToLater(b, c);
    var (ready, early) := b.Ready(c.openTime);
    PlaceCases(ready, c);
    BucketOpens(a, [c]);
    assert BucketOf(a, [c]) == a.OpenBucket(c.openTime).Arrive(c);
    hide OfKey, BucketOf, Agg.Add, Agg.Place, Agg.Ready, Bucket.Arrive, FromArrivals, Agg.TooLate, NoneBeyond;
    if ready.Place(c).0.bucket.None? { ResultIs(a, cs + [c], [c], key, ready.Place(c).1); }
    if b.bucket.Some? {
      var was := b.bucket.value.openTime;
      ResultIs(a, cs, OfKey(a, cs, was), was, ToSeq(early));
      forall r | r in ToSeq(early) ensures FromArrivals(a, cs + [c], r) { FromMore(a, cs, c, r); }
    }
  }

  /** Where an aggregator stands after any run. */
  lemma {:induction false} RunHolds(a: Agg, cs: seq<Candle>)
    requires a.Valid() && a.bucket.None? && AggregationLaws.Accepted(a, cs)
    ensures var (b, rs) := Run(a, cs);
      && b.Valid() && SameConfig(a, b) && NoneBeyond(b, cs) && OpenHolds(a, b, cs)
      && forall r :: r in rs ==> FromArrivals(a, cs, r)
  {
    if cs != [] {
      var front, c := cs[..|cs| - 1], cs[|cs| - 1];
      assert cs == front + [c];
      RunHolds(a, front);
      var (b, rs) := Run(a, front);
      AddOnward(b, c);
      NoneBeyondStep(b, front, c);
      if !Aligned(c.openTime, a.source) || b.TooLate(c.openTime) {
        UnchangedStep(a, b, front, c);
      } else if b.bucket.Some? && b.bucket.value.openTime == a.KeyOf(c.openTime) {
        JoinStep(a, b, front, c);
      } else {
        NewStep(a, b, front, c);
      }
      hide Agg.Add, OpenHolds, NoneBeyond, FromArrivals, Agg.Valid, Aligned, Agg.TooLate, Agg.KeyOf;
      forall r | r in rs ensures FromArrivals(a, cs, r) { FromMore(a, front, c, r); }
    }
  }

  // ------------------------------------------------------------------ what a result says

  /** What has arrived of the expected opens, the first candle at each. */
  ghost predicate FirstArrivals(expected: seq<Instant>, g: seq<Candle>, m: map<Instant, Candle>) {
    && (forall t :: t in m <==> t in expected && Arrived(g, t))
    && (forall t :: t in m ==> First(g, t) == Some(m[t]))
  }

  predicate Arrived(g: seq<Candle>, t: Instant) { exists c :: c in g && c.openTime == t }

  /** `r` tells of the arrivals `g` of one bucket: how many of the expected opens they hold, which they miss,
      and, if any, the bar they make. */
  ghost predicate Tells(a: Agg, g: seq<Candle>, r: AggResult, m: map<Instant, Candle>) {
    g != [] && var expected := a.OpenBucket(g[0].openTime).expected;
    && FirstArrivals(expected, g, m)
    && r.tf == a.target && r.expected == |expected| && r.present == |m|
    && (forall t :: t in r.missing <==> t in expected && t !in m)
    && (r.status == Complete <==> forall t :: t in expected ==> t in m)
    && (r.candle.Some? <==> m != map[])
    && (r.candle.Some? ==> BarOf(r.candle.value, m))
  }

  lemma {:induction false} BucketOfSound(a: Agg, g: seq<Candle>)
    requires g != [] && a.policy.Lawful() && forall c :: c in g ==> c.closed && c.tf == a.source
    ensures BucketOf(a, g).Sound(a.source)
    decreases |g|
  {
    OpenBucketSound(a, g[0].openTime);
    if |g| > 1 { BucketOfSound(a, g[..|g| - 1]); }
  }

  lemma HoldsFirstArrivals(a: Agg, g: seq<Candle>)
    requires g != []
    ensures FirstArrivals(a.OpenBucket(g[0].openTime).expected, g, BucketOf(a, g).constituents)
  {
    hide BucketOf, First, Agg.OpenBucket, Arrived;
    var b := BucketOf(a, g);
    FirstArrivalWins(a, g, 0);
    forall t
      ensures t in b.constituents <==> t in b.expected && Arrived(g, t)
      ensures t in b.constituents ==> First(g, t) == Some(b.constituents[t])
    {
      FirstArrivalWins(a, g, t);
      ArrivedIff(g, t);
    }
  }

  lemma ArrivedIff(g: seq<Candle>, t: Instant)
    ensures Arrived(g, t) <==> First(g, t).Some?
  {
    FirstIsArrival(g, t);
  }

  lemma BucketTells(a: Agg, g: seq<Candle>, r: AggResult)
    requires g != [] && a.policy.Lawful() && (forall c :: c in g ==> c.closed && c.tf == a.source)
    requires BucketOf(a, g).ResultOf(a.target) == Some(r)
    ensures Tells(a, g, r, BucketOf(a, g).constituents)
  {
    hide BucketOf, BarOf, Bucket.Sound, Agg.OpenBucket, FirstArrivals, First, Fold, Bucket.Ordered;
    var b := BucketOf(a, g);
    BucketOfSound(a, g);
    FirstArrivalWins(a, g, 0);
    HoldsFirstArrivals(a, g);
    ResultMeaning(b, a.source, a.target);
  }

  /** Some stretch of the run, and what had then come of the bucket's expected opens, that the result tells of. */
  ghost predicate ToldBy(a: Agg, cs: seq<Candle>, r: AggResult) {
    exists n, m :: 0 <= n <= |cs| && Tells(a, OfKey(a, cs[..n], r.openTime), r, m)
  }

  /** WHAT A BAR SAYS: over any run of arrivals, in any order and with any repetitions, each result counts the
      expected opens that had come and names the others; its bar opens with the earliest of the first
      arrivals, closes with the latest, spans exactly their prices and adds their volumes. */
  lemma ResultsTell(a: Agg, cs: seq<Candle>)
    requires a.Valid() && a.bucket.None? && AggregationLaws.Accepted(a, cs)
    ensures forall r :: r in Run(a, cs).1 ==> ToldBy(a, cs, r)
  {
    RunHolds(a, cs);
    hide Run, BucketOf, OfKey, Tells, Agg.OpenBucket, Agg.KeyOf, Bucket.ResultOf, Agg.Valid;
    forall r | r in Run(a, cs).1 ensures ToldBy(a, cs, r) {
      var n: nat :| ResultAfter(a, cs, n, r);
      var g := OfKey(a, cs[..n], r.openTime);
      OfKeyHas(a, cs[..n], r.openTime);
      assert forall c :: c in cs[..n] ==> c in cs;
      BucketTells(a, g, r);
      assert Tells(a, OfKey(a, cs[..n], r.openTime), r, BucketOf(a, g).constituents);
    }
  }

  /** A LATE BAR SAYS THE SAME: a gap yields a bar at the very candle that was the last one missing, and the
      bar is made of what the gap held and that candle. */
  lemma RebuiltTells(a: Agg, c: Candle)
    requires a.Valid()
    ensures var (b, bar) := a.TryCompleteGap(c); var key := a.KeyOf(c.openTime);
      && (bar.Some? <==> c.tf == a.source && c.closed && key in a.gapBuckets && c.openTime in a.gapBuckets[key].expected
                         && c.openTime !in a.gapBuckets[key].constituents
                         && forall t :: t in a.gapBuckets[key].expected && t != c.openTime ==> t in a.gapBuckets[key].constituents)
      && (bar.Some? ==> BarOf(bar.value, a.gapBuckets[key].constituents[c.openTime := c])
                        && bar.value.openTime == key && bar.value.tf == a.target)
  {
    hide Bucket.Built, BarOf;
    var key := a.KeyOf(c.openTime);
    if c.tf == a.source && c.closed && key in a.gapBuckets {
      var b := a.gapBuckets[key];
      if c.openTime in b.expected && c.openTime !in b.constituents {
        var filled := b.(constituents := b.constituents[c.openTime := c]);
        assert c.openTime in filled.constituents;
        BuiltIsBar(filled, a.source, a.target);
      }
    }
  }

  // ------------------------------------------------------------------ nothing is held back

  /** The open bucket, if it expects anything, misses something or holds no candle that reaches its end. */
  ghost predicate StillWaits(b: Agg) {
    b.bucket.Some? ==>
      var k := b.bucket.value;
      k.expected == [] || (exists t :: t in k.expected && t !in k.constituents)
      || forall t :: t in k.constituents ==> k.constituents[t].openTime + k.constituents[t].tf.Seconds() < k.endTime
  }

  /** NOTHING IS HELD BACK: a bucket goes out with the candle that completes it on its boundary, so an open one
      always waits for something. */
  lemma {:induction false} OpenStillWaits(a: Agg, cs: seq<Candle>)
    requires a.bucket.None?
    ensures StillWaits(Run(a, cs).0)
  {
    if cs != [] {
      OpenStillWaits(a, cs[..|cs| - 1]);
      StillWaitsStep(Run(a, cs[..|cs| - 1]).0, cs[|cs| - 1]);
    }
  }

  lemma StillWaitsStep(b: Agg, c: Candle)
    requires StillWaits(b)
    ensures StillWaits(b.Add(c).0)
  {
    if Aligned(c.openTime, b.source) && !b.TooLate(c.openTime) {
      var ready := b.Ready(c.openTime).0;
      assert StillWaits(ready);
      PlaceWaits(ready, c);
    }
  }

  lemma PlaceWaits(b: Agg, c: Candle)
    requires b.bucket.Some? && StillWaits(b)
    ensures StillWaits(b.Place(c).0)
  {
    PlaceCases(b, c);
    hide Bucket.Arrive, Bucket.Seen;
    var full := b.bucket.value.Arrive(c);
    if !b.bucket.value.Seen(c.openTime) && !(full.expected != [] && full.IsComplete() && full.ReachesEnd()) {
      assert b.Place(c).0.bucket == Some(full);
    }
  }

  /** THE CLOCK CLOSES: an open bucket is closed by the clock exactly when its end has come. */
  lemma ClockCloses(a: Agg, now: Instant)
    requires a.Valid() && a.bucket.Some?
    ensures var (b, r) := a.FlushAt(now); var k := a.bucket.value;
      if k.endTime <= now then
        b.bucket.None? && b.lastEmitted == Some(k.openTime) && (r.None? <==> k.expected == [])
        && (r.Some? ==> r.value.openTime == k.openTime && (r.value.candle.Some? ==> BarOf(r.value.candle.value, k.constituents)))
      else b == a && r == None
  {
    if a.bucket.value.expected != [] { ResultMeaning(a.bucket.value, a.source, a.target); }
  }
}
