/** What aggregation guarantees: sound results, streaming equals grouping, late completion equals
    on-time delivery, and two levels equal one. */
module AggregationLaws {
  import opened Timeline
  import opened Candles
  import opened Calendar
  import opened Buckets
  import opened Aggregation
  import opened Sequences

  // ------------------------------------------------------------------ one bucket

  ghost predicate SortedByOpen(cs: seq<Candle>) { forall i, j :: 0 <= i < j < |cs| ==> cs[i].openTime < cs[j].openTime }

  ghost predicate UnderOwnOpen(m: map<Instant, Candle>) { forall t :: t in m ==> m[t].openTime == t }

  lemma {:induction false} PickMembers(opens: seq<Instant>, m: map<Instant, Candle>)
    requires UnderOwnOpen(m)
    ensures forall c :: c in Pick(opens, m) <==> c.openTime in opens && c.openTime in m && m[c.openTime] == c
  {
    if opens != [] {
      PickMembers(opens[1..], m);
      var head := if opens[0] in m then [m[opens[0]]] else [];
      forall c: Candle ensures c in Pick(opens, m) <==> c.openTime in opens && c.openTime in m && m[c.openTime] == c {
        assert c in Pick(opens, m) <==> c in head || c in Pick(opens[1..], m);
        assert c.openTime in opens <==> c.openTime == opens[0] || c.openTime in opens[1..];
      }
    }
  }

  lemma {:induction false} PickSorted(opens: seq<Instant>, m: map<Instant, Candle>)
    requires Increasing(opens) && UnderOwnOpen(m)
    ensures SortedByOpen(Pick(opens, m))
  {
    if opens != [] {
      PickSorted(opens[1..], m);
      PickMembers(opens[1..], m);
      var rest := Pick(opens[1..], m);
      forall i | 0 <= i < |rest| ensures opens[0] < rest[i].openTime {
        assert rest[i] in rest;
      }
    }
  }

  /** A bucket's candle is folded from exactly its constituents, each once, by increasing open time. */
  lemma OrderedIsSorted(b: Bucket, source: Timeframe)
    requires b.Sound(source)
    ensures SortedByOpen(b.Ordered())
    ensures forall c :: c in b.Ordered() <==> c.openTime in b.constituents && b.constituents[c.openTime] == c
  {
    PickSorted(b.expected, b.constituents);
    PickMembers(b.expected, b.constituents);
  }

  /** The candle opens with its earliest constituent and closes with its latest, spans exactly their prices,
      adds their volumes, and carries the open interest of the latest that knows it. */
  ghost predicate BarOf(bar: Candle, m: map<Instant, Candle>) {
    && (exists t :: Earliest(m, t) && bar.open == m[t].open)
    && (exists t :: Latest(m, t) && bar.close == m[t].close)
    && (forall t :: t in m ==> bar.low <= m[t].low && m[t].high <= bar.high)
    && (exists t :: t in m && m[t].high == bar.high) && (exists t :: t in m && m[t].low == bar.low)
    && bar.volume == TotalVolume(m)
    && OiOf(bar.oi, m)
  }

  ghost predicate OiOf(oi: Option<real>, m: map<Instant, Candle>) {
    if oi.None? then forall t :: t in m ==> m[t].oi.None?
    else exists t :: t in m && m[t].oi == oi && forall x :: x in m && t < x ==> m[x].oi.None?
  }

  ghost predicate Earliest(m: map<Instant, Candle>, t: Instant) { t in m && forall x :: x in m ==> t <= x }

  ghost predicate Latest(m: map<Instant, Candle>, t: Instant) { t in m && forall x :: x in m ==> x <= t }

  function TotalVolume(m: map<Instant, Candle>): real
    decreases |m|
  {
    if m == map[] then 0.0
    else
      var t := Least(m.Keys);
      m[t].volume + TotalVolume(m - {t})
  }

  lemma {:induction false} PickVolume(opens: seq<Instant>, m: map<Instant, Candle>)
    requires Increasing(opens) && forall t :: t in m ==> t in opens
    ensures SumVolume(Pick(opens, m)) == TotalVolume(m)
  {
    hide Least;
    if opens == [] {
      assert m == map[] by { assert forall t :: t !in m; }
    } else {
      var t, rest := opens[0], opens[1..];
      assert opens == [t] + rest && t !in rest;
      if t in m {
        assert Least(m.Keys) == t;
        PickVolume(rest, m - {t});
        PickOthers(rest, m, t);
        assert Pick(opens, m)[1..] == Pick(rest, m);
      } else {
        PickVolume(rest, m);
        assert Pick(opens, m) == Pick(rest, m);
      }
    }
  }

  lemma {:induction false} PickOthers(opens: seq<Instant>, m: map<Instant, Candle>, t: Instant)
    requires t !in opens
    ensures Pick(opens, m - {t}) == Pick(opens, m)
  {
    if opens != [] {
      assert opens[0] in opens;
      PickOthers(opens[1..], m, t);
    }
  }

  /** The candle of a sound bucket, read from its constituents. */
  lemma BuiltIsBar(b: Bucket, source: Timeframe, target: Timeframe)
    requires b.Sound(source) && b.constituents != map[]
    ensures b.Built(target).Some? && BarOf(b.Built(target).value, b.constituents)
    ensures var bar := b.Built(target).value; bar.tf == target && bar.openTime == b.openTime && bar.closed
  {
    hide Fold, Pick, TotalVolume;
    var cs, m := b.Ordered(), b.constituents;
    OrderedIsSorted(b, source);
    PickVolume(b.expected, m);
    var t :| t in m;
    assert t in b.expected;
    assert cs != [];
    FoldFields(target, b.openTime, cs);
    FoldSumsUp(target, b.openTime, cs);
    SumsUpIsBar(Fold(target, b.openTime, cs), cs, m);
  }

  lemma FoldFields(target: Timeframe, openTime: Instant, cs: seq<Candle>)
    requires cs != []
    ensures var bar := Fold(target, openTime, cs); bar.tf == target && bar.openTime == openTime && bar.closed
  {
  }

  /** From the ordered constituents to the constituents. */
  lemma SumsUpIsBar(bar: Candle, cs: seq<Candle>, m: map<Instant, Candle>)
    requires SumsUp(bar, cs) && SortedByOpen(cs) && SumVolume(cs) == TotalVolume(m) && UnderOwnOpen(m)
    requires forall c :: c in cs <==> c.openTime in m && m[c.openTime] == c
    ensures BarOf(bar, m)
  {
    hide SumVolume, TotalVolume, OiOf, LastKnownOi;
    forall t | t in m ensures m[t] in cs { }
    assert cs[0] in cs && cs[|cs| - 1] in cs;
    FirstAndLast(cs, m);
    var hi :| hi in cs && hi.high == bar.high;
    var lo :| lo in cs && lo.low == bar.low;
    assert m[hi.openTime] == hi && m[lo.openTime] == lo;
    OiIs(bar.oi, cs, m);
  }

  lemma FirstAndLast(cs: seq<Candle>, m: map<Instant, Candle>)
    requires cs != [] && SortedByOpen(cs) && UnderOwnOpen(m)
    requires forall c :: c in cs <==> c.openTime in m && m[c.openTime] == c
    ensures Earliest(m, cs[0].openTime) && m[cs[0].openTime] == cs[0]
    ensures Latest(m, cs[|cs| - 1].openTime) && m[cs[|cs| - 1].openTime] == cs[|cs| - 1]
  {
    assert cs[0] in cs && cs[|cs| - 1] in cs;
    forall t | t in m ensures cs[0].openTime <= t <= cs[|cs| - 1].openTime {
      assert m[t] in cs;
      var i :| 0 <= i < |cs| && cs[i] == m[t];
    }
  }

  lemma OiIs(oi: Option<real>, cs: seq<Candle>, m: map<Instant, Candle>)
    requires LastKnownOi(oi, cs) && SortedByOpen(cs) && UnderOwnOpen(m)
    requires forall c :: c in cs <==> c.openTime in m && m[c.openTime] == c
    ensures OiOf(oi, m)
  {
    if oi.None? {
      forall t | t in m ensures m[t].oi.None? { assert m[t] in cs; }
    } else {
      var i :| 0 <= i < |cs| && cs[i].oi == oi && UnknownAfter(cs, i);
      assert cs[i] in cs;
      forall x | x in m && cs[i].openTime < x ensures m[x].oi.None? {
        assert m[x] in cs;
        var j :| 0 <= j < |cs| && cs[j] == m[x];
        assert i < j;
      }
    }
  }

  /** What a result says: present and missing add up to expected, it is complete exactly when nothing
      is missing, a complete result has a candle, and the candle says what its constituents say. */
  lemma ResultMeaning(b: Bucket, source: Timeframe, target: Timeframe)
    requires b.Sound(source) && b.expected != []
    ensures var r := b.ResultOf(target).value;
      && r.present + |r.missing| == r.expected
      && (r.status == Complete <==> b.IsComplete())
      && (r.status == Complete ==> r.candle.Some?)
      && (r.candle.None? <==> b.constituents == map[])
      && (r.candle.Some? ==> r.candle == Some(Fold(target, b.openTime, b.Ordered())) && BarOf(r.candle.value, b.constituents))
  {
    hide Fold, Missing, BarOf;
    PickCounts(b.expected, b.constituents);
    assert b.expected[0] in b.expected;
    if b.constituents != map[] {
      var t :| t in b.constituents;
      assert t in b.expected;
      BuiltIsBar(b, source, target);
    }
  }

  /** Distinct opens split into those with a candle and those without. */
  lemma {:induction false} PickCounts(opens: seq<Instant>, m: map<Instant, Candle>)
    requires Increasing(opens) && forall t :: t in m ==> t in opens
    ensures |m| + |Missing(opens, m)| == |opens|
  {
    CountKeys(opens, m.Keys, m);
    assert |m| == |m.Keys|;
  }

  lemma {:induction false} CountKeys(opens: seq<Instant>, keys: set<Instant>, m: map<Instant, Candle>)
    requires Increasing(opens) && forall t :: t in keys <==> t in opens && t in m
    ensures |keys| + |Missing(opens, m)| == |opens|
  {
    if opens != [] {
      var t := opens[0];
      assert opens == [t] + opens[1..] && t !in opens[1..];
      CountKeys(opens[1..], keys - {t}, m);
    } else {
      assert forall t :: t !in keys;
    }
  }

  // ------------------------------------------------------------ every operation

  ghost predicate SameConfig(a: Agg, b: Agg) { a.Setup() == b.Setup() }

  /** A result of this aggregator, for a bucket after `after`. */
  ghost predicate ResultOk(a: Agg, after: Option<Instant>, r: AggResult) {
    && r.tf == a.target
    && (after.Some? ==> after.value < r.openTime)
    && (r.status == Complete ==> r.candle.Some?)
    && (r.candle.Some? ==> r.candle.value.tf == a.target && r.candle.value.openTime == r.openTime && r.candle.value.closed)
  }

  /** `y` is at least as far along as `x`. */
  ghost predicate Leq(x: Option<Instant>, y: Option<Instant>) { x.Some? ==> y.Some? && x.value <= y.value }

  /** From `a` to `b` producing `rs`: configuration kept, never backwards, at most `n` results, each for a
      bucket after everything `a` had emitted and up to what `b` has, in increasing order. */
  ghost predicate Advances(a: Agg, b: Agg, rs: seq<AggResult>, n: nat) {
    && b.Valid() && SameConfig(a, b) && Leq(a.lastEmitted, b.lastEmitted) && |rs| <= n
    && (forall r :: r in rs ==> ResultOk(a, a.lastEmitted, r) && Leq(Some(r.openTime), b.lastEmitted))
    && (forall i, j :: 0 <= i < j < |rs| ==> rs[i].openTime < rs[j].openTime)
  }

  lemma ClosedResultOk(a: Agg, b: Bucket)
    requires b.Sound(a.source) && (a.lastEmitted.Some? ==> a.lastEmitted.value < b.openTime) && b.ResultOf(a.target).Some?
    ensures ResultOk(a, a.lastEmitted, b.ResultOf(a.target).value) && b.ResultOf(a.target).value.openTime == b.openTime
  {
    ResultMeaning(b, a.source, a.target);
  }

  /** Closing keeps the aggregator valid, never reopens, and yields a result for the closed bucket. */
  lemma EmitEffect(a: Agg)
    requires a.Valid() && a.bucket.Some?
    ensures Advances(a, a.Emit().0, ToSeq(a.Emit().1), 1)
    ensures a.Emit().0.bucket.None? && a.Emit().0.lastEmitted == Some(a.bucket.value.openTime)
  {
    EmitValid(a);
    if a.bucket.value.expected != [] {
      ClosedResultOk(a, a.bucket.value);
    }
    hide Agg.Valid, ResultOk, Bucket.ResultOf, Advances;
    AdvancesOne(a, a.Emit().0, a.Emit().1);
  }

  lemma AdvancesOne(a: Agg, b: Agg, o: Option<AggResult>)
    requires b.Valid() && SameConfig(a, b) && Leq(a.lastEmitted, b.lastEmitted)
    requires o.Some? ==> ResultOk(a, a.lastEmitted, o.value) && Leq(Some(o.value.openTime), b.lastEmitted)
    ensures Advances(a, b, ToSeq(o), 1)
  {
    hide Agg.Valid, ResultOk;
  }

  lemma EmitValid(a: Agg)
    requires a.Valid() && a.bucket.Some?
    ensures a.Emit().0.Valid()
    ensures ToSeq(a.Emit().1) == ToSeq(a.bucket.value.ResultOf(a.target)) && (a.Emit().1.None? <==> a.bucket.value.expected == [])
  {
    hide Bucket.Built;
  }

  lemma OpenBucketSound(a: Agg, ts: Instant)
    requires a.policy.Lawful()
    ensures a.OpenBucket(ts).Sound(a.source) && a.OpenBucket(ts).openTime == a.KeyOf(ts)
  {
  }

  lemma PlaceEffect(a: Agg, c: Candle)
    requires a.Valid() && a.bucket.Some? && c.closed && c.tf == a.source
    ensures Advances(a, a.Place(c).0, a.Place(c).1, 1)
  {
    hide Agg.Emit, ToSeq;
    if !a.bucket.value.Seen(c.openTime) {
      var landed := a.(bucket := Some(a.bucket.value.Arrive(c)));
      assert landed.Valid();
      EmitEffect(landed);
    }
  }

  lemma ReadyEffect(a: Agg, ts: Instant)
    requires a.Valid() && !a.TooLate(ts)
    ensures Advances(a, a.Ready(ts).0, ToSeq(a.Ready(ts).1), 1)
    ensures a.Ready(ts).0.bucket.value.openTime == a.KeyOf(ts)
  {
    OpenBucketSound(a, ts);
    if a.bucket.Some? && a.bucket.value.openTime < a.KeyOf(ts) {
      EmitEffect(a);
      OpenBucketSound(a.Emit().0, ts);
    }
  }

  lemma AdvancesThen(a: Agg, b: Agg, c: Agg, rs: seq<AggResult>, ss: seq<AggResult>, n: nat, m: nat)
    requires Advances(a, b, rs, n) && Advances(b, c, ss, m)
    ensures Advances(a, c, rs + ss, n + m)
  {
  }

  /** Feeding a candle: still valid, at most two results, their opens strictly increasing and strictly
      after everything emitted before. */
  lemma AddEffect(a: Agg, c: Candle)
    requires a.Valid() && c.closed && c.tf == a.source
    ensures Advances(a, a.Add(c).0, a.Add(c).1, 2)
  {
    if Aligned(c.openTime, a.source) && !a.TooLate(c.openTime) {
      ReadyEffect(a, c.openTime);
      var (ready, early) := a.Ready(c.openTime);
      PlaceEffect(ready, c);
      AdvancesThen(a, ready, a.Add(c).0, ToSeq(early), ready.Place(c).1, 1, 1);
    }
  }

  lemma FlushEffect(a: Agg, now: Instant)
    requires a.Valid()
    ensures Advances(a, a.FlushAt(now).0, ToSeq(a.FlushAt(now).1), 1)
  {
    if a.bucket.Some? { EmitEffect(a); }
  }

  /** Completing a gap late: still valid, and a rebuilt bar opens where its gap bucket did. */
  lemma TryCompleteEffect(a: Agg, c: Candle)
    requires a.Valid()
    ensures var (b, bar) := a.TryCompleteGap(c);
      && b.Valid() && SameConfig(a, b) && b.lastEmitted == a.lastEmitted && b.bucket == a.bucket
      && (bar.Some? ==> bar.value.tf == a.target && bar.value.closed && bar.value.openTime == a.KeyOf(c.openTime)
                        && a.KeyOf(c.openTime) in a.gapBuckets)
  {
  }

  // ------------------------------------------------------- streaming equals grouping

  /** The aggregator after a run of candles, and everything it emitted. */
  function Run(a: Agg, cs: seq<Candle>): (Agg, seq<AggResult>) {
    if cs == [] then (a, [])
    else
      var (b, rs) := Run(a, cs[..|cs| - 1]);
      var (c, out) := b.Add(cs[|cs| - 1]);
      (c, rs + out)
  }

  /** Candles an aggregator accepts. */
  ghost predicate Accepted(a: Agg, cs: seq<Candle>) { forall c :: c in cs ==> c.closed && c.tf == a.source }

  /** Over any run an aggregator stays valid and only emits buckets after those it had emitted. */
  lemma {:induction false} RunOnward(a: Agg, cs: seq<Candle>)
    requires a.Valid() && Accepted(a, cs)
    ensures var (b, rs) := Run(a, cs);
      && b.Valid() && SameConfig(a, b) && Leq(a.lastEmitted, b.lastEmitted)
      && forall r :: r in rs && a.lastEmitted.Some? ==> a.lastEmitted.value < r.openTime
  {
    if cs != [] {
      var front, c := cs[..|cs| - 1], cs[|cs| - 1];
      RunOnward(a, front);
      var (b, rs) := Run(a, front);
      AddEffect(b, c);
      hide Agg.Valid, Agg.Add;
    }
  }

  /** The candles whose bucket starts after `key`. */
  function AfterKey(a: Agg, cs: seq<Candle>, key: Instant): (late: seq<Candle>)
    ensures forall c :: c in late ==> c in cs && key < a.KeyOf(c.openTime)
  {
    if cs == [] then []
    else
      var c := cs[|cs| - 1];
      AfterKey(a, cs[..|cs| - 1], key) + if key < a.KeyOf(c.openTime) then [c] else []
  }

  lemma {:induction false} EmittedIgnored(a: Agg, cs: seq<Candle>, key: Instant)
    requires a.Valid() && Accepted(a, cs) && a.lastEmitted.Some? && key <= a.lastEmitted.value
    ensures Run(a, cs) == Run(a, AfterKey(a, cs, key))
  {
    if cs != [] {
      var front, c := cs[..|cs| - 1], cs[|cs| - 1];
      EmittedIgnored(a, front, key);
      RunOnward(a, front);
      var kept := AfterKey(a, front, key);
      if key < a.KeyOf(c.openTime) {
        assert (kept + [c])[..|kept|] == kept;
      } else {
        assert AfterKey(a, cs, key) == kept;
        AddToEmitted(Run(a, front).0, c);
        var rs := Run(a, front).1;
        assert rs + [] == rs;
      }
    }
  }

  /** NEVER REOPENED: once everything up to an instant is marked as emitted, every later result, over any run
      of candles, is of a later bucket, and the candles of the marked buckets might as well not have come. */
  lemma MarkedNeverReopens(a: Agg, ts: Instant, cs: seq<Candle>)
    requires a.Valid() && Accepted(a, cs)
    ensures var m := a.MarkEmittedUntil(ts); var key := a.KeyOf(ts);
      && m.Valid() && SameConfig(a, m) && Leq(a.lastEmitted, m.lastEmitted) && m.gapBuckets == a.gapBuckets
      && (forall r :: r in Run(m, cs).1 ==> key < r.openTime)
      && Run(m, cs) == Run(m, AfterKey(m, cs, key))
  {
    var m := a.MarkEmittedUntil(ts);
    RunOnward(m, cs);
    EmittedIgnored(m, cs, a.KeyOf(ts));
  }

  /** The aligned candles of one bucket, in arrival order. */
  function OfKey(a: Agg, cs: seq<Candle>, key: Instant): seq<Candle> {
    if cs == [] then []
    else
      var c := cs[|cs| - 1];
      OfKey(a, cs[..|cs| - 1], key) + if Aligned(c.openTime, a.source) && a.KeyOf(c.openTime) == key then [c] else []
  }

  /** The distinct buckets in order of first arrival. */
  function Keys(a: Agg, cs: seq<Candle>): (ks: seq<Instant>)
    ensures |ks| <= |cs|
  {
    if cs == [] then []
    else
      var c := cs[|cs| - 1];
      var ks := Keys(a, cs[..|cs| - 1]);
      if !Aligned(c.openTime, a.source) || (ks != [] && ks[|ks| - 1] == a.KeyOf(c.openTime)) then ks
      else ks + [a.KeyOf(c.openTime)]
  }

  /** A bucket with all its arrivals: the first one decides the bucket. */
  function BucketOf(a: Agg, g: seq<Candle>): Bucket
    requires g != []
  {
    (if |g| == 1 then a.OpenBucket(g[0].openTime) else BucketOf(a, g[..|g| - 1])).Arrive(g[|g| - 1])
  }

  /** The specification: one result per bucket, from that bucket's arrivals alone. */
  function GroupResults(a: Agg, cs: seq<Candle>, keys: seq<Instant>): seq<AggResult> {
    if keys == [] then []
    else
      var g := OfKey(a, cs, keys[|keys| - 1]);
      GroupResults(a, cs, keys[..|keys| - 1]) + if g == [] then [] else ToSeq(BucketOf(a, g).ResultOf(a.target))
  }

  /** Aligned candles arrive in any order inside a bucket, and never for an earlier bucket than one before. */
  ghost predicate BucketOrder(a: Agg, cs: seq<Candle>) {
    forall i, j :: 0 <= i < j < |cs| && Aligned(cs[i].openTime, a.source) && Aligned(cs[j].openTime, a.source) ==>
      a.KeyOf(cs[i].openTime) <= a.KeyOf(cs[j].openTime)
  }

  /** The last bucket, with everything that has arrived for it. */
  ghost predicate LastBucket(a: Agg, cs: seq<Candle>, last: Instant, full: Bucket) {
    var keys := Keys(a, cs);
    && keys != [] && keys[|keys| - 1] == last
    && OfKey(a, cs, last) != [] && BucketOf(a, OfKey(a, cs, last)) == full && full.openTime == last
  }

  /** Its bucket is open, or it was complete and is out; all earlier buckets are out. */
  ghost predicate StandsAt(a: Agg, cs: seq<Candle>, last: Instant, full: Bucket, b: Agg, rs: seq<AggResult>) {
    var keys := Keys(a, cs);
    && LastBucket(a, cs, last, full)
    && if b.bucket.Some? then
         b.bucket.value == full && (b.lastEmitted.Some? ==> b.lastEmitted.value < last)
         && rs == GroupResults(a, cs, keys[..|keys| - 1])
       else
         b.lastEmitted == Some(last) && full.IsComplete()
         && rs == GroupResults(a, cs, keys[..|keys| - 1]) + ToSeq(full.ResultOf(a.target))
  }

  /** Where the aggregator stands after `cs`. */
  ghost predicate Tracks(a: Agg, cs: seq<Candle>, b: Agg, rs: seq<AggResult>) {
    && SameConfig(a, b)
    && if Keys(a, cs) == [] then b == a && rs == []
       else exists last, full :: StandsAt(a, cs, last, full, b, rs)
  }

  ghost predicate KeyAtMost(a: Agg, c: Candle, key: Instant) { Aligned(c.openTime, a.source) ==> a.KeyOf(c.openTime) <= key }

  /** The keys are the keys of arrivals. */
  lemma {:induction false} KeysArrived(a: Agg, cs: seq<Candle>, k: Instant)
    requires k in Keys(a, cs)
    ensures exists i :: 0 <= i < |cs| && Aligned(cs[i].openTime, a.source) && a.KeyOf(cs[i].openTime) == k
  {
    var n := |cs| - 1;
    if k in Keys(a, cs[..n]) {
      KeysArrived(a, cs[..n], k);
      var i :| 0 <= i < n && Aligned(cs[..n][i].openTime, a.source) && a.KeyOf(cs[..n][i].openTime) == k;
      assert cs[i] == cs[..n][i];
    } else {
      assert a.KeyOf(cs[n].openTime) == k;
    }
  }

  /** Arrivals in bucket order have increasing keys, the last of which no arrival exceeds. */
  lemma {:induction false} KeysBound(a: Agg, cs: seq<Candle>)
    requires BucketOrder(a, cs)
    ensures Increasing(Keys(a, cs))
    ensures forall i :: 0 <= i < |cs| && Aligned(cs[i].openTime, a.source) ==>
              Keys(a, cs) != [] && KeyAtMost(a, cs[i], Keys(a, cs)[|Keys(a, cs)| - 1])
  {
    hide Timeframe.Seconds;
    if cs != [] {
      hide Aligned, Agg.KeyOf;
      var n := |cs| - 1;
      var front, keys := cs[..n], Keys(a, cs[..n]);
      assert forall i :: 0 <= i < n ==> front[i] == cs[i];
      KeysBound(a, front);
      if Aligned(cs[n].openTime, a.source) && keys != [] {
        KeysArrived(a, front, keys[|keys| - 1]);
        var i :| 0 <= i < n && Aligned(front[i].openTime, a.source) && a.KeyOf(front[i].openTime) == keys[|keys| - 1];
        assert a.KeyOf(cs[i].openTime) <= a.KeyOf(cs[n].openTime);
      }
    }
  }

  /** A bucket nobody has arrived for has no arrivals. */
  lemma {:induction false} NoneOfKey(a: Agg, cs: seq<Candle>, key: Instant)
    requires forall i :: 0 <= i < |cs| && Aligned(cs[i].openTime, a.source) ==> a.KeyOf(cs[i].openTime) != key
    ensures OfKey(a, cs, key) == []
  {
    if cs != [] {
      NoneOfKey(a, cs[..|cs| - 1], key);
    }
  }

  /** An arrival for another bucket does not change the results of these ones. */
  lemma {:induction false} GroupResultsFrame(a: Agg, cs: seq<Candle>, c: Candle, keys: seq<Instant>)
    requires !Aligned(c.openTime, a.source) || a.KeyOf(c.openTime) !in keys
    ensures GroupResults(a, cs + [c], keys) == GroupResults(a, cs, keys)
  {
    if keys != [] {
      GroupResultsFrame(a, cs, c, keys[..|keys| - 1]);
      assert (cs + [c])[..|cs|] == cs;
      assert OfKey(a, cs + [c], keys[|keys| - 1]) == OfKey(a, cs, keys[|keys| - 1]);
    }
  }

  /** Landing a candle leaves the bucket open with that arrival, or emits it complete. */
  lemma PlaceCases(b: Agg, c: Candle)
    requires b.bucket.Some?
    ensures var (d, out) := b.Place(c); var full := b.bucket.value.Arrive(c);
      && SameConfig(b, d)
      && if d.bucket.Some? then d.bucket.value == full && out == [] && d.lastEmitted == b.lastEmitted
         else d.lastEmitted == Some(full.openTime) && full.IsComplete() && out == ToSeq(full.ResultOf(b.target))
  {
  }

  /** A closed bucket that was complete is not changed in what it says by a further arrival. */
  lemma ArriveComplete(b: Bucket, c: Candle, target: Timeframe)
    requires b.IsComplete()
    ensures b.Arrive(c).IsComplete() && b.Arrive(c).ResultOf(target) == b.ResultOf(target)
  {
  }

  lemma KeysSnoc(a: Agg, cs: seq<Candle>, c: Candle)
    ensures var ks := Keys(a, cs);
      Keys(a, cs + [c]) == if !Aligned(c.openTime, a.source) || (ks != [] && ks[|ks| - 1] == a.KeyOf(c.openTime)) then ks else ks + [a.KeyOf(c.openTime)]
  {
    Front(cs, c);
  }

  lemma OfKeySnoc(a: Agg, cs: seq<Candle>, c: Candle, key: Instant)
    ensures OfKey(a, cs + [c], key) == OfKey(a, cs, key) + if Aligned(c.openTime, a.source) && a.KeyOf(c.openTime) == key then [c] else []
  {
    assert (cs + [c])[..|cs|] == cs;
  }

  lemma BucketOfSnoc(a: Agg, g: seq<Candle>, c: Candle)
    requires g != []
    ensures BucketOf(a, g + [c]) == BucketOf(a, g).Arrive(c)
  {
    assert (g + [c])[..|g|] == g;
  }

  /** The specification side of an arrival for the bucket that is already last. */
  lemma GroupSameKey(a: Agg, cs: seq<Candle>, c: Candle, last: Instant, full: Bucket)
    requires LastBucket(a, cs, last, full) && Increasing(Keys(a, cs))
    requires Aligned(c.openTime, a.source) && a.KeyOf(c.openTime) == last
    ensures Keys(a, cs + [c]) == Keys(a, cs)
    ensures LastBucket(a, cs + [c], last, full.Arrive(c))
    ensures GroupResults(a, cs + [c], Keys(a, cs)[..|Keys(a, cs)| - 1]) == GroupResults(a, cs, Keys(a, cs)[..|Keys(a, cs)| - 1])
  {
    hide Aligned, Keys, OfKey, BucketOf, GroupResults;
    var keys := Keys(a, cs);
    KeysSnoc(a, cs, c);
    OfKeySnoc(a, cs, c, last);
    BucketOfSnoc(a, OfKey(a, cs, last), c);
    GroupResultsFrame(a, cs, c, keys[..|keys| - 1]);
  }

  /** The specification side of the first arrival of a new bucket. */
  lemma GroupNewKey(a: Agg, cs: seq<Candle>, c: Candle, key: Instant)
    requires Aligned(c.openTime, a.source) && a.KeyOf(c.openTime) == key && key !in Keys(a, cs)
    requires forall i :: 0 <= i < |cs| && Aligned(cs[i].openTime, a.source) ==> a.KeyOf(cs[i].openTime) != key
    ensures Keys(a, cs + [c]) == Keys(a, cs) + [key]
    ensures LastBucket(a, cs + [c], key, a.OpenBucket(c.openTime).Arrive(c))
    ensures GroupResults(a, cs + [c], Keys(a, cs)) == GroupResults(a, cs, Keys(a, cs))
  {
    hide Aligned, Keys, GroupResults;
    KeysSnoc(a, cs, c);
    NoneOfKey(a, cs, key);
    OfKeySnoc(a, cs, c, key);
    assert OfKey(a, cs + [c], key) == [c];
    GroupResultsFrame(a, cs, c, Keys(a, cs));
  }

  /** Feeding the bucket that stands open only lands the candle. */
  lemma AddToOpen(b: Agg, c: Candle)
    requires Aligned(c.openTime, b.source) && b.bucket.Some? && b.bucket.value.openTime == b.KeyOf(c.openTime)
    requires b.lastEmitted.Some? ==> b.lastEmitted.value < b.KeyOf(c.openTime)
    ensures b.Add(c) == b.Place(c)
  {
    assert [] + b.Place(c).1 == b.Place(c).1;
  }

  /** Feeding a bucket that is already out changes nothing. */
  lemma AddToEmitted(b: Agg, c: Candle)
    requires b.lastEmitted.Some? && b.KeyOf(c.openTime) <= b.lastEmitted.value
    ensures b.Add(c) == (b, [])
  {
  }

  /** Feeding a later bucket closes the open one, opens the new one and lands the candle there. */
  lemma AddToLater(b: Agg, c: Candle)
    requires Aligned(c.openTime, b.source)
    requires b.lastEmitted.Some? ==> b.lastEmitted.value < b.KeyOf(c.openTime)
    requires b.bucket.Some? ==> b.bucket.value.openTime < b.KeyOf(c.openTime)
    ensures var (ready, early) := b.Ready(c.openTime);
      && ready.bucket == Some(b.OpenBucket(c.openTime)) && SameConfig(b, ready)
      && (ready.lastEmitted.Some? ==> ready.lastEmitted.value < b.KeyOf(c.openTime))
      && early == (if b.bucket.Some? then b.bucket.value.ResultOf(b.target) else None)
      && b.Add(c) == (ready.Place(c).0, ToSeq(early) + ready.Place(c).1)
  {
  }

  /** An arrival for the bucket that is already last. */
  lemma StreamSameKey(a: Agg, cs: seq<Candle>, c: Candle, last: Instant, full: Bucket, b: Agg, rs: seq<AggResult>)
    requires SameConfig(a, b) && StandsAt(a, cs, last, full, b, rs) && Increasing(Keys(a, cs))
    requires Aligned(c.openTime, a.source) && a.KeyOf(c.openTime) == last
    ensures SameConfig(a, b.Add(c).0) && StandsAt(a, cs + [c], last, full.Arrive(c), b.Add(c).0, rs + b.Add(c).1)
  {
    GroupSameKey(a, cs, c, last, full);
    if b.bucket.Some? {
      AddToOpen(b, c);
      PlaceCases(b, c);
    } else {
      AddToEmitted(b, c);
      ArriveComplete(full, c, a.target);
    }
    assert rs + [] == rs;
  }

  /** The first arrival of a new bucket: whatever was open goes out first. */
  lemma StreamNewKey(a: Agg, cs: seq<Candle>, c: Candle, b: Agg, rs: seq<AggResult>, done: seq<AggResult>)
    requires SameConfig(a, b) && Aligned(c.openTime, a.source)
    requires b.lastEmitted.Some? ==> b.lastEmitted.value < a.KeyOf(c.openTime)
    requires b.bucket.Some? ==> b.bucket.value.openTime < a.KeyOf(c.openTime)
    requires done == rs + if b.bucket.Some? then ToSeq(b.bucket.value.ResultOf(a.target)) else []
    ensures var (d, out) := b.Add(c); var full := a.OpenBucket(c.openTime).Arrive(c);
      && SameConfig(a, d)
      && if d.bucket.Some? then d.bucket.value == full && rs + out == done && (d.lastEmitted.Some? ==> d.lastEmitted.value < a.KeyOf(c.openTime))
         else d.lastEmitted == Some(full.openTime) && full.IsComplete() && rs + out == done + ToSeq(full.ResultOf(a.target))
  {
    hide Bucket.ResultOf, FloorTo, Agg.Ready, Bucket.Seen, AllFor, Agg.TooLate, Timeframe.Seconds, Agg.Place;
    AddToLater(b, c);
    var (ready, early) := b.Ready(c.openTime);
    PlaceCases(ready, c);
    assert rs + ToSeq(early) == done;
    assert rs + (ToSeq(early) + ready.Place(c).1) == rs + ToSeq(early) + ready.Place(c).1;
  }

  lemma GroupResultsLast(a: Agg, cs: seq<Candle>, keys: seq<Instant>)
    requires keys != [] && OfKey(a, cs, keys[|keys| - 1]) != []
    ensures GroupResults(a, cs, keys) == GroupResults(a, cs, keys[..|keys| - 1]) + ToSeq(BucketOf(a, OfKey(a, cs, keys[|keys| - 1])).ResultOf(a.target))
  {
  }

  lemma GroupResultsNone(a: Agg, cs: seq<Candle>)
    ensures GroupResults(a, cs, []) == []
  {
  }

  lemma StreamStep(a: Agg, cs: seq<Candle>, c: Candle, b: Agg, rs: seq<AggResult>)
    requires a.bucket.None? && (a.lastEmitted.Some? ==> a.lastEmitted.value < a.KeyOf(c.openTime))
    requires BucketOrder(a, cs + [c]) && Tracks(a, cs, b, rs)
    ensures Tracks(a, cs + [c], b.Add(c).0, rs + b.Add(c).1)
  {
    hide Aligned, Keys, GroupResults, OfKey, BucketOf, Agg.Add, Bucket.Arrive, Bucket.ResultOf;
    assert BucketOrder(a, cs) by { assert forall i :: 0 <= i < |cs| ==> (cs + [c])[i] == cs[i]; }
    KeysBound(a, cs);
    var keys := Keys(a, cs);
    KeysSnoc(a, cs, c);
    if !Aligned(c.openTime, a.source) {
      StreamMisaligned(a, cs, c, b, rs);
    } else if keys != [] && keys[|keys| - 1] == a.KeyOf(c.openTime) {
      var last, full :| StandsAt(a, cs, last, full, b, rs);
      StreamSameKey(a, cs, c, last, full, b, rs);
    } else {
      LaterKey(a, cs, c);
      GroupNewKey(a, cs, c, a.KeyOf(c.openTime));
      var done := GroupResults(a, cs, keys);
      if keys != [] {
        var last, full :| StandsAt(a, cs, last, full, b, rs);
        GroupResultsLast(a, cs, keys);
      } else {
        GroupResultsNone(a, cs);
      }
      StreamNewKey(a, cs, c, b, rs, done);
      NewKeyStands(a, cs, c, b, rs);
    }
  }

  /** Where the stream stands after the first arrival of a new bucket. */
  lemma NewKeyStands(a: Agg, cs: seq<Candle>, c: Candle, b: Agg, rs: seq<AggResult>)
    requires SameConfig(a, b) && Aligned(c.openTime, a.source)
    requires var key, full := a.KeyOf(c.openTime), a.OpenBucket(c.openTime).Arrive(c);
      && Keys(a, cs + [c]) == Keys(a, cs) + [key] && LastBucket(a, cs + [c], key, full)
      && GroupResults(a, cs + [c], Keys(a, cs)) == GroupResults(a, cs, Keys(a, cs))
      && var (d, out) := b.Add(c);
         SameConfig(a, d) &&
         if d.bucket.Some? then d.bucket.value == full && rs + out == GroupResults(a, cs, Keys(a, cs)) && (d.lastEmitted.Some? ==> d.lastEmitted.value < key)
         else d.lastEmitted == Some(full.openTime) && full.IsComplete() && rs + out == GroupResults(a, cs, Keys(a, cs)) + ToSeq(full.ResultOf(a.target))
    ensures Tracks(a, cs + [c], b.Add(c).0, rs + b.Add(c).1)
  {
    hide Agg.Add, Bucket.Arrive, Bucket.ResultOf, Keys, GroupResults;
    Front(Keys(a, cs), a.KeyOf(c.openTime));
    assert StandsAt(a, cs + [c], a.KeyOf(c.openTime), a.OpenBucket(c.openTime).Arrive(c), b.Add(c).0, rs + b.Add(c).1);
  }

  /** In bucket order an arrival whose key is not the last one is for a bucket nobody has arrived for. */
  lemma LaterKey(a: Agg, cs: seq<Candle>, c: Candle)
    requires BucketOrder(a, cs + [c]) && Aligned(c.openTime, a.source)
    requires var keys := Keys(a, cs); keys == [] || keys[|keys| - 1] != a.KeyOf(c.openTime)
    ensures a.KeyOf(c.openTime) !in Keys(a, cs)
    ensures Keys(a, cs) != [] ==> Keys(a, cs)[|Keys(a, cs)| - 1] < a.KeyOf(c.openTime)
    ensures forall i :: 0 <= i < |cs| && Aligned(cs[i].openTime, a.source) ==> a.KeyOf(cs[i].openTime) != a.KeyOf(c.openTime)
  {
    var keys := Keys(a, cs);
    assert forall i :: 0 <= i < |cs| ==> (cs + [c])[i] == cs[i];
    assert (cs + [c])[|cs|] == c;
    assert BucketOrder(a, cs);
    KeysBound(a, cs);
    if keys != [] {
      KeysArrived(a, cs, keys[|keys| - 1]);
      var i :| 0 <= i < |cs| && Aligned(cs[i].openTime, a.source) && a.KeyOf(cs[i].openTime) == keys[|keys| - 1];
      assert a.KeyOf((cs + [c])[i].openTime) <= a.KeyOf((cs + [c])[|cs|].openTime);
    }
  }

  lemma StreamMisaligned(a: Agg, cs: seq<Candle>, c: Candle, b: Agg, rs: seq<AggResult>)
    requires !Aligned(c.openTime, a.source) && Tracks(a, cs, b, rs)
    ensures Tracks(a, cs + [c], b.Add(c).0, rs + b.Add(c).1)
  {
    var keys := Keys(a, cs);
    assert (cs + [c])[..|cs|] == cs;
    assert Keys(a, cs + [c]) == keys;
    assert rs + [] == rs;
    if keys != [] {
      var last, full :| StandsAt(a, cs, last, full, b, rs);
      assert OfKey(a, cs + [c], last) == OfKey(a, cs, last) + [] == OfKey(a, cs, last);
      GroupResultsFrame(a, cs, c, keys[..|keys| - 1]);
      assert StandsAt(a, cs + [c], last, full, b, rs);
    }
  }

  lemma {:induction false} StreamTracks(a: Agg, cs: seq<Candle>)
    requires a.bucket.None? && BucketOrder(a, cs)
    requires forall c :: c in cs ==> a.lastEmitted.Some? ==> a.lastEmitted.value < a.KeyOf(c.openTime)
    ensures Tracks(a, cs, Run(a, cs).0, Run(a, cs).1)
  {
    if cs != [] {
      var n := |cs| - 1;
      assert cs == cs[..n] + [cs[n]];
      StreamTracks(a, cs[..n]);
      StreamStep(a, cs[..n], cs[n], Run(a, cs[..n]).0, Run(a, cs[..n]).1);
    }
  }

  /** STREAMING EQUALS GROUPING: for any arrival order that does not go back to an earlier bucket, with
      duplicates, misaligned candles and off-session prints, the emitted results followed by the final
      flush are exactly the per-bucket specification, one bucket after another. */
  lemma StreamingEqualsGrouping(a: Agg, cs: seq<Candle>, now: Instant)
    requires a.bucket.None? && BucketOrder(a, cs)
    requires forall c :: c in cs ==> a.lastEmitted.Some? ==> a.lastEmitted.value < a.KeyOf(c.openTime)
    requires Run(a, cs).0.bucket.Some? ==> Run(a, cs).0.bucket.value.endTime <= now
    ensures Run(a, cs).1 + ToSeq(Run(a, cs).0.FlushAt(now).1) == GroupResults(a, cs, Keys(a, cs))
    ensures Increasing(Keys(a, cs))
  {
    hide Bucket.IsComplete, BucketOrder, Agg.KeyOf, Run, Agg.Add, Aligned;
    StreamTracks(a, cs);
    KeysBound(a, cs);
    if Keys(a, cs) != [] {
      var last, full :| StandsAt(a, cs, last, full, Run(a, cs).0, Run(a, cs).1);
    }
  }

  // ------------------------------------------------------------------ arrival order

  /** The first arrival at an open time. */
  function First(g: seq<Candle>, t: Instant): Option<Candle> {
    if g == [] then None
    else
      var f := First(g[..|g| - 1], t);
      if f.Some? then f else if g[|g| - 1].openTime == t then Some(g[|g| - 1]) else None
  }

  /** A bucket holds, under each expected open, the first arrival there. */
  lemma {:induction false} FirstArrivalWins(a: Agg, g: seq<Candle>, t: Instant)
    requires g != []
    ensures BucketOf(a, g).expected == a.OpenBucket(g[0].openTime).expected
    ensures BucketOf(a, g).openTime == a.OpenBucket(g[0].openTime).openTime
    ensures t in BucketOf(a, g).constituents <==> t in BucketOf(a, g).expected && First(g, t).Some?
    ensures t in BucketOf(a, g).constituents ==> First(g, t) == Some(BucketOf(a, g).constituents[t])
    ensures t in BucketOf(a, g).extra <==> t !in BucketOf(a, g).expected && First(g, t).Some?
  {
    var front, c := g[..|g| - 1], g[|g| - 1];
    if |g| > 1 {
      FirstArrivalWins(a, front, t);
      FirstArrivalWins(a, front, c.openTime);
    } else {
      assert First(front, t) == None;
    }
  }

  lemma {:induction false} FirstIsArrival(g: seq<Candle>, t: Instant)
    ensures First(g, t).Some? <==> exists c :: c in g && c.openTime == t
    ensures First(g, t).Some? ==> First(g, t).value in g && First(g, t).value.openTime == t
  {
    if g != [] {
      FirstIsArrival(g[..|g| - 1], t);
      assert g[|g| - 1] in g;
      assert forall c :: c in g ==> c in g[..|g| - 1] || c == g[|g| - 1];
    }
  }

  /** ARRIVAL ORDER IS IRRELEVANT: two deliveries of the same candles, in any order and with any
      repetitions, to the same bucket give the same result. */
  lemma ArrivalOrderFree(a: Agg, g: seq<Candle>, h: seq<Candle>)
    requires g != [] && h != []
    requires forall c :: c in g <==> c in h
    requires forall c, d :: c in g && d in g && c.openTime == d.openTime ==> c == d
    requires a.OpenBucket(g[0].openTime) == a.OpenBucket(h[0].openTime)
    ensures BucketOf(a, g).ResultOf(a.target) == BucketOf(a, h).ResultOf(a.target)
  {
    var x, y := BucketOf(a, g), BucketOf(a, h);
    FirstArrivalWins(a, g, 0);
    FirstArrivalWins(a, h, 0);
    forall t ensures t in x.constituents <==> t in y.constituents
      ensures t in x.constituents ==> x.constituents[t] == y.constituents[t]
    {
      FirstArrivalWins(a, g, t);
      FirstArrivalWins(a, h, t);
      FirstIsArrival(g, t);
      FirstIsArrival(h, t);
    }
    assert x.constituents == y.constituents;
  }

  lemma {:induction false} FirstCons(c: Candle, g: seq<Candle>, t: Instant)
    ensures First([c] + g, t) == if c.openTime == t then Some(c) else First(g, t)
  {
    var all := [c] + g;
    if g == [] {
      assert all[..|all| - 1] == [];
    } else {
      assert all[..|all| - 1] == [c] + g[..|g| - 1];
      FirstCons(c, g[..|g| - 1], t);
    }
  }

  /** RECONCILING REWRITES HISTORY IN THE OPEN BUCKET: once the broker's bar has replaced a constituent, the
      bucket will close as if that bar had been the first to arrive. */
  lemma ReplacedIsFirst(a: Agg, g: seq<Candle>, c: Candle)
    requires g != [] && a.bucket == Some(BucketOf(a, g)) && a.OpenBucket(c.openTime) == a.OpenBucket(g[0].openTime)
    requires a.Replace(c).1
    ensures a.Replace(c).0.bucket.value.ResultOf(a.target) == BucketOf(a, [c] + g).ResultOf(a.target)
  {
    hide BucketOf, Agg.OpenBucket;
    var x, y := a.Replace(c).0.bucket.value, BucketOf(a, [c] + g);
    FirstArrivalWins(a, g, 0);
    FirstArrivalWins(a, [c] + g, 0);
    forall t ensures t in x.constituents <==> t in y.constituents
      ensures t in x.constituents ==> x.constituents[t] == y.constituents[t]
    {
      FirstArrivalWins(a, g, t);
      FirstArrivalWins(a, [c] + g, t);
      FirstCons(c, g, t);
    }
    assert x.constituents == y.constituents;
  }

  // ----------------------------------------------------------------- late completion

  /** Offer late candles one by one to a gap. */
  function OfferLate(a: Agg, ls: seq<Candle>): (Agg, seq<Option<Candle>>)
    decreases |ls|
  {
    if ls == [] then (a, [])
    else
      var (b, bar) := a.TryCompleteGap(ls[0]);
      var (c, bars) := OfferLate(b, ls[1..]);
      (c, [bar] + bars)
  }

  /** The same candles delivered on time to the same bucket. */
  function ArriveAll(b: Bucket, ls: seq<Candle>): Bucket
    decreases |ls|
  {
    if ls == [] then b else ArriveAll(b.Arrive(ls[0]), ls[1..])
  }

  /** The candles fill exactly what the bucket misses, each open once. */
  ghost predicate FillsExactly(a: Agg, b: Bucket, ls: seq<Candle>) {
    && (forall i :: 0 <= i < |ls| ==> ls[i].closed && ls[i].tf == a.source && a.KeyOf(ls[i].openTime) == b.openTime
                                      && ls[i].openTime in b.expected && ls[i].openTime !in b.constituents)
    && (forall i, j :: 0 <= i < j < |ls| ==> ls[i].openTime != ls[j].openTime)
    && (forall t :: t in b.expected && t !in b.constituents ==> exists i :: 0 <= i < |ls| && ls[i].openTime == t)
  }

  /** A late candle that leaves something missing is kept with the gap. */
  lemma LateStep(a: Agg, key: Instant, ls: seq<Candle>)
    requires a.Valid() && key in a.gapBuckets && |ls| > 1 && FillsExactly(a, a.gapBuckets[key], ls)
    ensures var filled := a.gapBuckets[key].Arrive(ls[0]); var (next, bar) := a.TryCompleteGap(ls[0]);
      && bar == None && next.Valid() && SameConfig(a, next)
      && key in next.gapBuckets && next.gapBuckets[key] == filled
      && FillsExactly(next, filled, ls[1..])
  {
    var b, c := a.gapBuckets[key], ls[0];
    var filled := b.Arrive(c);
    assert filled == b.(constituents := b.constituents[c.openTime := c]);
    assert ls[1].openTime in filled.expected && ls[1].openTime !in filled.constituents;
    assert a.TryCompleteGap(c) == (a.(gapBuckets := a.gapBuckets[key := filled]), None);
    forall t | t in filled.expected && t !in filled.constituents
      ensures exists i :: 0 <= i < |ls[1..]| && ls[1..][i].openTime == t
    {
      var i :| 0 <= i < |ls| && ls[i].openTime == t;
      assert ls[1..][i - 1].openTime == t;
    }
  }

  /** The last late candle rebuilds the bar. */
  lemma LateLast(a: Agg, key: Instant, c: Candle)
    requires a.Valid() && key in a.gapBuckets && FillsExactly(a, a.gapBuckets[key], [c])
    ensures var filled := a.gapBuckets[key].Arrive(c); var (next, bar) := a.TryCompleteGap(c);
      && key !in next.gapBuckets && filled.IsComplete() && filled.ResultOf(a.target).Some?
      && bar.Some? && bar == filled.ResultOf(a.target).value.candle
  {
    var b := a.gapBuckets[key];
    assert [c][0] == c;
    var filled := b.Arrive(c);
    assert filled == b.(constituents := b.constituents[c.openTime := c]);
    forall t | t in filled.expected ensures t in filled.constituents {
      if t !in b.constituents {
        var i :| 0 <= i < |[c]| && [c][i].openTime == t;
      }
    }
    assert c.openTime in filled.expected && c.openTime in filled.constituents;
  }

  /** Nothing, nothing, ..., and finally this bar. */
  predicate OnlyLast(bars: seq<Option<Candle>>, bar: Option<Candle>) {
    bar.Some? && bars != [] && if |bars| == 1 then bars[0] == bar else bars[0] == None && OnlyLast(bars[1..], bar)
  }

  /** LATE EQUALS ON TIME: however the missing constituents of a gap arrive, nothing is rebuilt before the
      last one, and the last one rebuilds the very bar on-time delivery would have emitted. */
  lemma {:induction false} LateEqualsOnTime(a: Agg, key: Instant, ls: seq<Candle>)
    requires a.Valid() && key in a.gapBuckets && ls != [] && FillsExactly(a, a.gapBuckets[key], ls)
    ensures var (b, bars) := OfferLate(a, ls); var onTime := ArriveAll(a.gapBuckets[key], ls);
      && |bars| == |ls| && key !in b.gapBuckets
      && onTime.IsComplete() && onTime.ResultOf(a.target).Some?
      && OnlyLast(bars, onTime.ResultOf(a.target).value.candle)
    decreases |ls|
  {
    var next := a.TryCompleteGap(ls[0]).0;
    var rest := OfferLate(next, ls[1..]);
    assert OfferLate(a, ls) == (rest.0, [a.TryCompleteGap(ls[0]).1] + rest.1);
    if |ls| == 1 {
      assert ls == [ls[0]];
      LateLast(a, key, ls[0]);
      assert rest == (next, []);
      assert ArriveAll(a.gapBuckets[key], ls) == a.gapBuckets[key].Arrive(ls[0]);
    } else {
      LateStep(a, key, ls);
      LateEqualsOnTime(next, key, ls[1..]);
      assert ([None] + rest.1)[1..] == rest.1;
    }
  }

  // -------------------------------------------------------------------- two levels

  /** The middle bars of a bucket, each folded from its own source candles. */
  ghost predicate MiddleBars(p: Policy, mid: Timeframe, source: Timeframe, opens: seq<Instant>, m: map<Instant, Candle>, mids: map<Instant, Candle>) {
    forall o :: o in opens ==>
      var parts := Pick(p.BucketExpected(o, mid, source), m);
      o in mids && parts != [] && mids[o] == Fold(mid, o, parts)
  }

  lemma {:induction false} PickConcat(xs: seq<Instant>, ys: seq<Instant>, m: map<Instant, Candle>)
    ensures Pick(xs + ys, m) == Pick(xs, m) + Pick(ys, m)
  {
    if xs == [] {
      assert xs + ys == ys;
    } else {
      assert (xs + ys)[1..] == xs[1..] + ys;
      PickConcat(xs[1..], ys, m);
      Associate(if xs[0] in m then [m[xs[0]]] else [], Pick(xs[1..], m), Pick(ys, m));
    }
  }

  /** The source candles of each middle bucket. */
  function PartsOf(p: Policy, mid: Timeframe, source: Timeframe, opens: seq<Instant>, m: map<Instant, Candle>): (parts: seq<seq<Candle>>)
    ensures |parts| == |opens|
    ensures forall i :: 0 <= i < |parts| ==> parts[i] == Pick(p.BucketExpected(opens[i], mid, source), m)
  {
    if opens == [] then [] else [Pick(p.BucketExpected(opens[0], mid, source), m)] + PartsOf(p, mid, source, opens[1..], m)
  }

  lemma {:induction false} PartsFlatten(p: Policy, mid: Timeframe, source: Timeframe, opens: seq<Instant>, m: map<Instant, Candle>)
    ensures Flatten(PartsOf(p, mid, source, opens, m)) == Pick(ExpectedOfEach(p, opens, mid, source), m)
  {
    if opens != [] {
      PartsFlatten(p, mid, source, opens[1..], m);
      PickConcat(p.BucketExpected(opens[0], mid, source), ExpectedOfEach(p, opens[1..], mid, source), m);
      assert PartsOf(p, mid, source, opens, m)[1..] == PartsOf(p, mid, source, opens[1..], m);
    }
  }

  lemma {:induction false} MidsAreFolds(p: Policy, mid: Timeframe, source: Timeframe, opens: seq<Instant>, m: map<Instant, Candle>, mids: map<Instant, Candle>)
    requires MiddleBars(p, mid, source, opens, m, mids)
    ensures forall i :: 0 <= i < |opens| ==> PartsOf(p, mid, source, opens, m)[i] != []
    ensures Pick(opens, mids) == FoldEach(mid, opens, PartsOf(p, mid, source, opens, m))
  {
    if opens != [] {
      assert opens[0] in opens;
      MidsAreFolds(p, mid, source, opens[1..], m, mids);
      assert PartsOf(p, mid, source, opens, m)[1..] == PartsOf(p, mid, source, opens[1..], m);
    }
  }

  /** TWO LEVELS EQUAL ONE: aggregating the source into middle bars and those into the target gives the
      same bar, in every field, as aggregating the source into the target directly. */
  lemma TwoLevelsEqualOne(p: Policy, ts: Instant, target: Timeframe, mid: Timeframe, source: Timeframe,
                          m: map<Instant, Candle>, mids: map<Instant, Candle>)
    requires source.Rank() < mid.Rank() < target.Rank() && mid != H4 && Regular(p, mid)
    requires MiddleBars(p, mid, source, p.BucketExpected(ts, target, mid), m, mids)
    requires p.BucketExpected(ts, target, mid) != []
    ensures var direct, viaMid := Pick(p.BucketExpected(ts, target, source), m), Pick(p.BucketExpected(ts, target, mid), mids);
      && direct != [] && viaMid != []
      && Fold(target, p.Bucket(ts, target).start, viaMid) == Fold(target, p.Bucket(ts, target).start, direct)
  {
    var opens := p.BucketExpected(ts, target, mid);
    var parts := PartsOf(p, mid, source, opens, m);
    Nesting(p, ts, target, mid, source);
    PartsFlatten(p, mid, source, opens, m);
    MidsAreFolds(p, mid, source, opens, m, mids);
    TwoLevelFold(target, p.Bucket(ts, target).start, mid, opens, parts);
  }

  /** When every expected source candle is there, the middle buckets are all complete and non-empty. */
  lemma CompleteSourceGivesMiddleBars(p: Policy, ts: Instant, target: Timeframe, mid: Timeframe, source: Timeframe, m: map<Instant, Candle>)
    requires source.Rank() < mid.Rank() < target.Rank() && mid != H4 && Regular(p, mid)
    requires forall t :: t in p.BucketExpected(ts, target, source) ==> t in m
    ensures forall o :: o in p.BucketExpected(ts, target, mid) ==>
              Pick(p.BucketExpected(o, mid, source), m) != [] && p.Bucket(o, mid).start == o
              && Missing(p.BucketExpected(o, mid, source), m) == []
  {
    Nesting(p, ts, target, mid, source);
    var opens := p.BucketExpected(ts, target, mid);
    BucketStartAligned(p, mid, target, ts);
    forall o | o in opens
      ensures Pick(p.BucketExpected(o, mid, source), m) != [] && p.Bucket(o, mid).start == o
      ensures Missing(p.BucketExpected(o, mid, source), m) == []
    {
      ExpectedIff(p, p.Bucket(ts, target).start, p.Bucket(ts, target).end, mid, o);
      InOwnBucket(p, o, mid);
      CoarserAligned(o, source, mid);
      ExpectedIff(p, o, p.Bucket(o, mid).end, source, o);
      EachInConcat(p, opens, mid, source, o);
    }
  }

  lemma {:induction false} EachInConcat(p: Policy, opens: seq<Instant>, mid: Timeframe, source: Timeframe, o: Instant)
    requires o in opens
    ensures forall t :: t in p.BucketExpected(o, mid, source) ==> t in ExpectedOfEach(p, opens, mid, source)
  {
    if o != opens[0] {
      EachInConcat(p, opens[1..], mid, source, o);
    }
  }
}
