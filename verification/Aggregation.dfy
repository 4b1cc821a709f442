/** Closed-only aggregation of source candles into target candles, with explicit completeness. */
module Aggregation {
  import opened Timeline
  import opened Candles
  import opened Calendar
  import opened Buckets

  /** The two questions an aggregator asks of its calendar: the bucket of an instant, and the source
      opens a range expects. */
  datatype BucketPolicy = BucketPolicy(
    bucket: (Instant, Timeframe) -> Span, expectedOpens: (Instant, Instant, Timeframe) -> seq<Instant>)
  {
    /** Expected opens come in increasing order. */
    ghost predicate Lawful() { forall lo, hi, source :: Increasing(expectedOpens(lo, hi, source)) }
  }

  function PolicyOf(p: Policy): (r: BucketPolicy)
    ensures r.Lawful()
  {
    BucketPolicy((ts, target) => p.Bucket(ts, target), (lo, hi, source) => p.Expected(lo, hi, source))
  }

  datatype Status = Complete | GapDetected

  datatype AggResult = AggResult(
    candle: Option<Candle>, status: Status, expected: nat, present: nat,
    missing: seq<Instant>, tf: Timeframe, openTime: Instant)
  {
    predicate WellMade() { candle.Some? ==> candle.value.tf == tf && candle.value.closed }
  }

  /** A bucket: what it expects, what has arrived of that, and what arrived besides (audit only). */
  datatype Bucket = Bucket(
    openTime: Instant, endTime: Instant, expected: seq<Instant>,
    constituents: map<Instant, Candle>, extra: map<Instant, Candle>)
  {
    predicate IsComplete() { forall t :: t in expected ==> t in constituents }

    predicate Seen(t: Instant) { t in constituents || t in extra }

    /** Some constituent closes at or after the bucket's end. */
    predicate ReachesEnd() { exists t :: t in constituents && endTime <= constituents[t].CloseTime() }

    /** First arrival wins; an arrival outside the expected opens goes to the audit side. */
    function Arrive(c: Candle): Bucket {
      if Seen(c.openTime) then this
      else if c.openTime in expected then this.(constituents := constituents[c.openTime := c])
      else this.(extra := extra[c.openTime := c])
    }

    /** The constituents by open time: the expected opens are increasing. */
    function Ordered(): seq<Candle> { Pick(expected, constituents) }

    function Built(target: Timeframe): Option<Candle> {
      if Ordered() == [] then None else Some(Fold(target, openTime, Ordered()))
    }

    /** What the bucket emits when it closes: nothing at all when it expects nothing. */
    function ResultOf(target: Timeframe): Option<AggResult> {
      if expected == [] then None
      else
        var missing := Missing(expected, constituents);
        Some(AggResult(Built(target), if missing == [] then Complete else GapDetected,
                       |expected|, |constituents|, missing, target, openTime))
    }

    /** Every constituent is expected, sits under its own open time and is a closed source candle. */
    ghost predicate Sound(source: Timeframe) {
      && Increasing(expected)
      && (forall t :: t in extra ==> t !in expected)
      && (forall t :: t in constituents ==>
            t in expected && constituents[t].openTime == t && constituents[t].tf == source && constituents[t].closed)
    }
  }

  /** The candles stored under the given opens, in that order. */
  function Pick(opens: seq<Instant>, m: map<Instant, Candle>): (cs: seq<Candle>)
    ensures cs == [] <==> forall t :: t in opens ==> t !in m
  {
    assert forall t :: t in opens <==> opens != [] && (t == opens[0] || t in opens[1..]);
    if opens == [] then []
    else (if opens[0] in m then [m[opens[0]]] else []) + Pick(opens[1..], m)
  }

  /** The opens with no candle, in order. */
  function Missing(opens: seq<Instant>, m: map<Instant, Candle>): (ts: seq<Instant>)
    ensures forall t :: t in ts <==> t in opens && t !in m
    ensures ts == [] <==> forall t :: t in opens ==> t in m
    ensures |ts| <= |opens|
  {
    assert forall t :: t in opens <==> opens != [] && (t == opens[0] || t in opens[1..]);
    if opens == [] then []
    else (if opens[0] in m then [] else [opens[0]]) + Missing(opens[1..], m)
  }

  function ToSeq<T>(o: Option<T>): seq<T> { if o.Some? then [o.value] else [] }

  /** What an aggregator is set up to do. */
  datatype AggSetup = AggSetup(source: Timeframe, target: Timeframe, policy: BucketPolicy)

  /** Bars of results are closed candles of the result's timeframe. */
  ghost predicate AllMade(rs: seq<AggResult>) { forall i :: 0 <= i < |rs| ==> rs[i].WellMade() }

  /** Results of one target timeframe. */
  ghost predicate AllFor(rs: seq<AggResult>, target: Timeframe) { AllMade(rs) && forall i :: 0 <= i < |rs| ==> rs[i].tf == target }

  /** Value of an aggregator, and its operations on values. */
  datatype Agg = Agg(
    source: Timeframe, target: Timeframe, policy: BucketPolicy,
    bucket: Option<Bucket>, lastEmitted: Option<Instant>, gapBuckets: map<Instant, Bucket>)
  {
    function Setup(): AggSetup { AggSetup(source, target, policy) }

    function KeyOf(ts: Instant): Instant { policy.bucket(ts, target).start }

    function OpenBucket(ts: Instant): Bucket {
      var span := policy.bucket(ts, target);
      Bucket(span.start, span.end, policy.expectedOpens(span.start, span.end, source), map[], map[])
    }

    /** Close the open bucket; a gap is remembered so that late constituents can complete it. */
    function Emit(): (r: (Agg, Option<AggResult>))
      requires bucket.Some?
      ensures r.0.Setup() == Setup() && AllFor(ToSeq(r.1), target)
    {
      var b := bucket.value;
      var res := b.ResultOf(target);
      var closed := this.(bucket := None, lastEmitted := Some(b.openTime));
      (if res.Some? && res.value.status == GapDetected then closed.(gapBuckets := gapBuckets[b.openTime := b]) else closed, res)
    }

    /** The bucket of `ts` has already been emitted, or a later one is open. */
    predicate TooLate(ts: Instant) {
      || (lastEmitted.Some? && KeyOf(ts) <= lastEmitted.value)
      || (bucket.Some? && KeyOf(ts) < bucket.value.openTime)
    }

    /** Land a candle in the open bucket; emit at once when that completes it on its boundary. */
    function Place(c: Candle): (r: (Agg, seq<AggResult>))
      requires bucket.Some?
      ensures r.0.Setup() == Setup() && AllFor(r.1, target) && |r.1| <= 1
    {
      if bucket.value.Seen(c.openTime) then (this, [])
      else
        var b := bucket.value.Arrive(c);
        var landed := this.(bucket := Some(b));
        if b.expected != [] && b.IsComplete() && b.ReachesEnd() then
          (landed.Emit().0, ToSeq(landed.Emit().1))
        else (landed, [])
    }

    /** The aggregator with the bucket of `ts` open, having closed an earlier one if need be. */
    function Ready(ts: Instant): (r: (Agg, Option<AggResult>))
      ensures r.0.bucket.Some? && r.0.Setup() == Setup() && AllFor(ToSeq(r.1), target)
    {
      var (a, early) := if bucket.Some? && bucket.value.openTime < KeyOf(ts) then Emit() else (this, None);
      (if a.bucket.None? then a.(bucket := Some(a.OpenBucket(ts))) else a, early)
    }

    /** Feed a closed source candle: at most one result for an earlier bucket, then at most one for its own. */
    function Add(c: Candle): (r: (Agg, seq<AggResult>))
      ensures r.0.Setup() == Setup() && AllFor(r.1, target) && |r.1| <= 2
    {
      if !Aligned(c.openTime, source) || TooLate(c.openTime) then (this, [])
      else
        var (ready, early) := Ready(c.openTime);
        var (landed, own) := ready.Place(c);
        (landed, ToSeq(early) + own)
    }

    /** Close the open bucket once the clock is past its end. */
    function FlushAt(now: Instant): (r: (Agg, Option<AggResult>))
      ensures r.0.Setup() == Setup() && AllFor(ToSeq(r.1), target)
    {
      if bucket.Some? && bucket.value.endTime <= now then Emit() else (this, None)
    }

    /** A late constituent for a bucket emitted as a gap; the rebuilt bar once nothing is missing. */
    function TryCompleteGap(c: Candle): (r: (Agg, Option<Candle>))
      ensures r.0.Setup() == Setup() && (r.1.Some? ==> r.1.value.tf == target && r.1.value.closed)
    {
      var key := KeyOf(c.openTime);
      if c.tf != source || !c.closed || key !in gapBuckets then (this, None)
      else
        var b := gapBuckets[key];
        if c.openTime !in b.expected || c.openTime in b.constituents then (this, None)
        else
          var filled := b.(constituents := b.constituents[c.openTime := c]);
          if filled.IsComplete() then (this.(gapBuckets := gapBuckets - {key}), filled.Built(target))
          else (this.(gapBuckets := gapBuckets[key := filled]), None)
    }

    /** Swap a constituent of the open bucket for the broker's exact bar. */
    function Replace(c: Candle): (r: (Agg, bool))
      ensures r.0.Setup() == Setup()
    {
      if bucket.None? || c.tf != source || !c.closed
         || c.openTime !in bucket.value.expected || c.openTime !in bucket.value.constituents then (this, false)
      else (this.(bucket := Some(bucket.value.(constituents := bucket.value.constituents[c.openTime := c]))), true)
    }

    /** Treat every bucket up to the one holding `ts` as emitted. */
    function MarkEmittedUntil(ts: Instant): Agg {
      var key := KeyOf(ts);
      if lastEmitted.Some? && key <= lastEmitted.value then this
      else this.(lastEmitted := Some(key), bucket := if bucket.Some? && bucket.value.openTime <= key then None else bucket)
    }

    ghost predicate Valid() {
      && source.Rank() < target.Rank() && policy.Lawful()
      && (bucket.Some? ==> bucket.value.Sound(source) && (lastEmitted.Some? ==> lastEmitted.value < bucket.value.openTime))
      && (forall k :: k in gapBuckets ==>
            && gapBuckets[k].Sound(source) && gapBuckets[k].openTime == k
            && lastEmitted.Some? && k <= lastEmitted.value)
    }
  }

  function NewAgg(source: Timeframe, target: Timeframe, policy: BucketPolicy): Agg {
    Agg(source, target, policy, None, None, map[])
  }

  /** What feeding returns: the results, or a refusal (candle not closed, or of another timeframe). */
  datatype AddOutcome = Accepted(results: seq<AggResult>) | Refused

  /** The stateful aggregator. */
  class TimeframeAggregator {
    const source: Timeframe
    const target: Timeframe
    const policy: BucketPolicy
    var bucket: Option<Bucket>
    var lastEmitted: Option<Instant>
    var gapBuckets: map<Instant, Bucket>

    ghost function Value(): Agg
      reads this
    {
      Agg(source, target, policy, bucket, lastEmitted, gapBuckets)
    }

    constructor (source: Timeframe, target: Timeframe, policy: BucketPolicy)
      requires source.Rank() < target.Rank()
      ensures Value() == NewAgg(source, target, policy)
    {
      this.source, this.target, this.policy := source, target, policy;
      bucket, lastEmitted, gapBuckets := None, None, map[];
    }

    method OpenBucket(ts: Instant) returns (b: Bucket)
      ensures b == Value().OpenBucket(ts)
    {
      var span := policy.bucket(ts, target);
      var expected := policy.expectedOpens(span.start, span.end, source);
      b := Bucket(span.start, span.end, expected, map[], map[]);
    }

    method Emit() returns (res: Option<AggResult>)
      requires bucket.Some?
      modifies this
      ensures (Value(), res) == old(Value()).Emit()
    {
      var b := bucket.value;
      bucket := None;
      lastEmitted := Some(b.openTime);
      if b.expected == [] {
        return None;
      }
      var missing := Missing(b.expected, b.constituents);
      var status := if missing == [] then Complete else GapDetected;
      res := Some(AggResult(b.Built(target), status, |b.expected|, |b.constituents|, missing, target, b.openTime));
      if status == GapDetected {
        gapBuckets := gapBuckets[b.openTime := b];
      }
    }

    method Place(c: Candle) returns (out: seq<AggResult>)
      requires bucket.Some?
      modifies this
      ensures (Value(), out) == old(Value()).Place(c)
    {
      var ts := c.openTime;
      var b := bucket.value;
      if ts in b.constituents || ts in b.extra {
        return [];
      }
      if ts in b.expected {
        b := b.(constituents := b.constituents[ts := c]);
      } else {
        b := b.(extra := b.extra[ts := c]);
      }
      bucket := Some(b);
      if b.expected != [] && b.IsComplete() && b.ReachesEnd() {
        var res := Emit();
        return ToSeq(res);
      }
      return [];
    }

    method Add(c: Candle) returns (r: AddOutcome)
      modifies this
      ensures !c.closed || c.tf != source ==> r == Refused && Value() == old(Value())
      ensures c.closed && c.tf == source ==> r.Accepted? && (Value(), r.results) == old(Value()).Add(c)
    {
      if !c.closed || c.tf != source {
        return Refused;
      }
      var ts := c.openTime;
      if FloorTo(ts, source.Seconds()) != ts {
        return Accepted([]);
      }
      var start := policy.bucket(ts, target).start;
      if lastEmitted.Some? && start <= lastEmitted.value {
        return Accepted([]);
      }
      var out := None;
      if bucket.Some? && bucket.value.openTime < start {
        out := Emit();
      } else if bucket.Some? && start < bucket.value.openTime {
        return Accepted([]);
      }
      if bucket.None? {
        var b := OpenBucket(ts);
        bucket := Some(b);
      }
      var own := Place(c);
      r := Accepted(ToSeq(out) + own);
    }

    method FlushAt(now: Instant) returns (res: Option<AggResult>)
      modifies this
      ensures (Value(), res) == old(Value()).FlushAt(now)
    {
      if bucket.Some? && bucket.value.endTime <= now {
        res := Emit();
      } else {
        res := None;
      }
    }

    method TryCompleteGap(c: Candle) returns (rebuilt: Option<Candle>)
      modifies this
      ensures (Value(), rebuilt) == old(Value()).TryCompleteGap(c)
    {
      if c.tf != source || !c.closed {
        return None;
      }
      var start := policy.bucket(c.openTime, target).start;
      if start !in gapBuckets {
        return None;
      }
      var b := gapBuckets[start];
      if c.openTime !in b.expected || c.openTime in b.constituents {
        return None;
      }
      b := b.(constituents := b.constituents[c.openTime := c]);
      if !b.IsComplete() {
        gapBuckets := gapBuckets[start := b];
        return None;
      }
      gapBuckets := gapBuckets - {start};
      rebuilt := b.Built(target);
    }

    method ReplaceConstituent(c: Candle) returns (replaced: bool)
      modifies this
      ensures (Value(), replaced) == old(Value()).Replace(c)
    {
      if bucket.None? || c.tf != source || !c.closed {
        return false;
      }
      var b := bucket.value;
      if c.openTime !in b.expected || c.openTime !in b.constituents {
        return false;
      }
      bucket := Some(b.(constituents := b.constituents[c.openTime := c]));
      replaced := true;
    }

    method MarkEmittedUntil(ts: Instant)
      modifies this
      ensures Value() == old(Value()).MarkEmittedUntil(ts)
    {
      var start := policy.bucket(ts, target).start;
      if lastEmitted.None? || lastEmitted.value < start {
        lastEmitted := Some(start);
        if bucket.Some? && bucket.value.openTime <= start {
          bucket := None;
        }
      }
    }
  }
}
