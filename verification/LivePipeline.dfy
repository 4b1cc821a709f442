/** The stateful pipeline. Its minute builder and aggregators are objects updated in place; every method is
    proved to do to the pipeline's value what the operation of the same name does on values. */
module LivePipeline {
  import opened Timeline
  import opened Candles
  import opened Aggregation
  import opened LiveMinutes
  import opened Sorting
  import opened Sequences
  import P = Pipeline
  import T = Tower

  /** The values of a list of aggregators. */
  ghost function Values(aggs: seq<TimeframeAggregator>): (vs: seq<Agg>)
    reads aggs
    ensures |vs| == |aggs| && forall i :: 0 <= i < |aggs| ==> vs[i] == aggs[i].Value()
  {
    if aggs == [] then [] else [aggs[0].Value()] + Values(aggs[1..])
  }

  function SetupOf(a: TimeframeAggregator): AggSetup { AggSetup(a.source, a.target, a.policy) }

  function SetupsOf(aggs: seq<TimeframeAggregator>): (ss: seq<AggSetup>)
    ensures |ss| == |aggs| && forall i :: 0 <= i < |aggs| ==> ss[i] == SetupOf(aggs[i])
  {
    if aggs == [] then [] else [SetupOf(aggs[0])] + SetupsOf(aggs[1..])
  }

  /** What a timeframe is aggregated from: the primary when it is a multiple of it, else minutes; four hours
      from hours when those are configured. */
  function SourceFor(tf: Timeframe, primary: Timeframe, timeframes: seq<Timeframe>): Timeframe {
    if tf == H4 then (if H1 in timeframes then H1 else primary)
    else if tf.Seconds() % primary.Seconds() == 0 then primary else M1
  }

  /** A new aggregator from its source to its target. */
  ghost predicate Configured(a: TimeframeAggregator, primary: Timeframe, timeframes: seq<Timeframe>, policy: BucketPolicy)
    reads a
  {
    a.Value() == NewAgg(SourceFor(a.target, primary, timeframes), a.target, policy) && a.source.Rank() < a.target.Rank()
  }

  ghost predicate HasTarget(aggs: seq<TimeframeAggregator>, tf: Timeframe) { exists i :: 0 <= i < |aggs| && aggs[i].target == tf }

  lemma MoreTargets(before: seq<TimeframeAggregator>, after: seq<TimeframeAggregator>)
    requires before <= after
    ensures forall tf :: HasTarget(before, tf) ==> HasTarget(after, tf)
  {
    forall tf | HasTarget(before, tf) ensures HasTarget(after, tf) {
      var k :| 0 <= k < |before| && before[k].target == tf;
      assert after[k].target == tf;
    }
  }

  function AbovePrimary(primary: Timeframe, timeframes: seq<Timeframe>): set<Timeframe> {
    set tf | tf in timeframes && tf != M1 && tf != primary
  }

  /** One new aggregator for each of these timeframes. */
  ghost predicate Tiers(aggs: seq<TimeframeAggregator>, built: set<Timeframe>, primary: Timeframe, timeframes: seq<Timeframe>, policy: BucketPolicy)
    reads aggs
  {
    && (forall k :: 0 <= k < |aggs| ==> Configured(aggs[k], primary, timeframes, policy) && aggs[k].target in built)
    && (forall j, k :: 0 <= j < k < |aggs| ==> aggs[j] != aggs[k] && aggs[j].target != aggs[k].target)
    && (forall tf :: tf in built ==> HasTarget(aggs, tf) && tf in timeframes && tf != M1 && tf != primary)
  }

  method AddTier(aggs: seq<TimeframeAggregator>, ghost built: set<Timeframe>, tf: Timeframe,
                 primary: Timeframe, timeframes: seq<Timeframe>, policy: BucketPolicy)
    returns (more: seq<TimeframeAggregator>)
    requires Tiers(aggs, built, primary, timeframes, policy) && primary != M1 && tf in timeframes && tf != M1 && tf != primary && tf !in built
    ensures Tiers(more, built + {tf}, primary, timeframes, policy) && |more| == |aggs| + 1 && more[..|aggs|] == aggs && fresh(more[|aggs|])
  {
    var agg := new TimeframeAggregator(SourceFor(tf, primary, timeframes), tf, policy);
    more := aggs + [agg];
    MoreTargets(aggs, more);
    assert more[|aggs|].target == tf && HasTarget(more, tf);
  }

  /** One aggregator for each configured timeframe above minutes other than the primary. */
  method BuildHigher(primary: Timeframe, timeframes: seq<Timeframe>, policy: BucketPolicy) returns (aggs: seq<TimeframeAggregator>)
    requires primary != M1
    ensures fresh(aggs)
    ensures Tiers(aggs, AbovePrimary(primary, timeframes), primary, timeframes, policy)
  {
    hide Configured, HasTarget;
    aggs := [];
    var built := {};
    var i := 0;
    while i < |timeframes|
      invariant 0 <= i <= |timeframes| && fresh(aggs) && Tiers(aggs, built, primary, timeframes, policy)
      invariant forall j :: 0 <= j < i && timeframes[j] != M1 && timeframes[j] != primary ==> timeframes[j] in built
    {
      var tf := timeframes[i];
      if tf != M1 && tf != primary && tf !in built {
        aggs := AddTier(aggs, built, tf, primary, timeframes, policy);
        built := built + {tf};
      }
      i := i + 1;
    }
    assert built == AbovePrimary(primary, timeframes);
  }

  lemma TiersStacked(aggs: seq<TimeframeAggregator>, built: set<Timeframe>, primary: Timeframe, timeframes: seq<Timeframe>, policy: BucketPolicy)
    requires Tiers(aggs, built, primary, timeframes, policy)
    ensures T.Stacked(SetupsOf(aggs))
  {
  }

  /** EVERY SOURCE IS FED: a timeframe is built on minutes, the primary or another requested timeframe, of which it
      is a multiple; on minutes only when it is no multiple of the primary; four hours on hours whenever those
      are requested. */
  lemma SourcesAreFed(primary: Timeframe, timeframes: seq<Timeframe>, tf: Timeframe)
    requires primary != M1 && tf in AbovePrimary(primary, timeframes)
    ensures var source := SourceFor(tf, primary, timeframes);
      && (source == M1 || source == primary || source in AbovePrimary(primary, timeframes))
      && tf.Seconds() % source.Seconds() == 0 && source != tf
      && (source == M1 <==> tf.Seconds() % primary.Seconds() != 0)
      && (tf == H4 && H1 in timeframes ==> source == H1)
  {
  }

  class CandlePipeline {
    const config: P.Config
    const m1: M1CandleBuilder
    const primaryAgg: TimeframeAggregator
    const higher: seq<TimeframeAggregator>
    var lastClosed: map<Timeframe, Instant>
    var lastM1Open: Option<Instant>
    var gaps: seq<T.GapRecord>
    var suspended: bool
    var recovering: bool
    var deferred: seq<Candle>
    var tickBuffer: seq<Tick>
    var seenM1: set<Instant>
    var pendingVerification: set<Instant>
    var reconcileQueue: map<Instant, Candle>
    ghost var log: seq<Candle>        // the candles handed to on_closed
    ghost var fed: seq<Event>         // what the minute builder was told
    ghost var admitted: seq<Candle>   // the minutes that entered aggregation

    ghost predicate Wired() {
      && primaryAgg !in higher && (forall i, j :: 0 <= i < j < |higher| ==> higher[i] != higher[j])
      && T.Stacked(SetupsOf(higher)) && primaryAgg.source == M1
    }

    ghost predicate Valid()
      reads this, m1
    {
      Wired() && m1.Valid() && forall i :: 0 <= i < |deferred| ==> deferred[i].closed
    }

    ghost function TowerValue(): (t: T.Tower)
      reads `lastClosed, `gaps, `suspended, `deferred, `log, primaryAgg, higher
      ensures t.Setups() == SetupsOf(higher) && t.primary.Setup() == SetupOf(primaryAgg)
    {
      var t := T.Tower(primaryAgg.Value(), Values(higher), lastClosed, gaps, suspended, deferred, log);
      assert t.Setups() == SetupsOf(higher);
      t
    }

    ghost function Value(): (p: P.Pipeline)
      reads this, m1, primaryAgg, higher
      requires Valid()
      ensures p.Sane()
    {
      P.Pipeline(config, m1.Value(), TowerValue(), lastM1Open, recovering, tickBuffer, seenM1, pendingVerification,
                        reconcileQueue, fed, admitted)
    }

    constructor (config: P.Config, primary: Timeframe, timeframes: seq<Timeframe>, policy: BucketPolicy)
      requires primary != M1
      ensures Valid() && fresh(this) && fresh(m1) && fresh(primaryAgg) && fresh(higher)
      ensures Value() == P.Pipeline(config, NEW_BUILDER, TowerValue(), None, false, [], {}, {}, map[], [], [])
      ensures TowerValue() == T.Tower(NewAgg(M1, primary, policy), TowerValue().higher, map[], [], false, [], [])
      ensures Tiers(higher, AbovePrimary(primary, timeframes), primary, timeframes, policy)
    {
      hide T.Stacked, SetupsOf, Tiers;
      this.config := config;
      m1 := new M1CandleBuilder();
      primaryAgg := new TimeframeAggregator(M1, primary, policy);
      var aggs := BuildHigher(primary, timeframes, policy);
      higher := aggs;
      lastClosed, lastM1Open, gaps, suspended, recovering := map[], None, [], false, false;
      deferred, tickBuffer, seenM1, pendingVerification, reconcileQueue := [], [], {}, {}, map[];
      log, fed, admitted := [], [], [];
      new;
      TiersStacked(higher, AbovePrimary(primary, timeframes), primary, timeframes, policy);
    }

    // ------------------------------------------------------------------ dispatch

    method Handle(res: AggResult)
      requires Valid() && res.WellMade()
      modifies `lastClosed, `gaps, `suspended, `deferred, `log, higher
      ensures Valid() && TowerValue() == T.Handle(old(TowerValue()), res)
      decreases T.Load(TowerValue()) + T.Weight(res.tf), 1
    {
      hide SetupsOf, Values, TimeframeAggregator.Value;
      if res.status == GapDetected || res.candle.None? {
        gaps := gaps + [T.GapRecord(res.tf, res.openTime, res.expected, res.present, res.missing, false)];
        suspended := true;
        return;
      }
      if suspended {
        deferred := deferred + [res.candle.value];
        return;
      }
      T.LoadMark(TowerValue(), res.candle.value);
      Dispatch(res.candle.value);
    }

    method HandleAll(results: seq<AggResult>)
      requires Valid() && AllMade(results)
      modifies `lastClosed, `gaps, `suspended, `deferred, `log, higher
      ensures Valid() && TowerValue() == T.HandleAll(old(TowerValue()), results)
      decreases T.Load(TowerValue()) + T.ResultsWeight(results), 3
    {
      ghost var s, rest := TowerValue(), results;
      var i := 0;
      while i < |results|
        invariant 0 <= i <= |results| && rest == results[i..] && Valid()
        invariant T.HandleAll(TowerValue(), rest) == T.HandleAll(s, results)
        invariant T.Load(TowerValue()) + T.ResultsWeight(rest) <= T.Load(s) + T.ResultsWeight(results)
      {
        assert rest[0] == results[i] && rest[1..] == results[i + 1..];
        Handle(results[i]);
        rest := rest[1..];
        i := i + 1;
      }
    }

    /** Hand a bar to analysis once, in order, and feed it to the aggregators built on its timeframe. */
    method Dispatch(c: Candle)
      requires Valid() && c.closed
      modifies `lastClosed, `gaps, `suspended, `deferred, `log, higher
      ensures Valid() && TowerValue() == T.Dispatch(old(TowerValue()), c)
      decreases T.Load(T.Mark(TowerValue(), c)) + T.LiveWeight(TowerValue(), c), 0
    {
      hide T.Evolves, T.Tower.Setups, T.FeedOne;
      ghost var s := TowerValue();
      T.DispatchStep(s, c);
      hide T.Feed, T.Dispatch;
      if c.tf in lastClosed && c.openTime <= lastClosed[c.tf] {
        return;
      }
      lastClosed := lastClosed[c.tf := c.openTime];
      log := log + [c];
      assert TowerValue() == T.Mark(s, c);
      FeedAll(c);
    }

    /** Feed a dispatched bar to every aggregator built on its timeframe. */
    method FeedAll(c: Candle)
      requires Valid() && c.closed
      modifies `lastClosed, `gaps, `suspended, `deferred, `log, higher
      ensures Valid() && TowerValue() == T.Feed(old(TowerValue()), c, 0)
      decreases T.Load(TowerValue()) + T.Budget(SetupsOf(higher), c.tf, 0), 6
    {
      hide T.Feed, T.FeedAt, T.Budget, T.Load, T.Stacked, T.Evolves, T.Tower.Setups, Values, TowerValue, SetupsOf;
      ghost var s, ss := TowerValue(), SetupsOf(higher);
      ghost var now := s;
      var i := 0;
      while i < |higher|
        invariant 0 <= i <= |higher| && Valid() && now == TowerValue()
        invariant T.Feed(now, c, i) == T.Feed(s, c, 0)
        invariant T.Load(now) + T.Budget(ss, c.tf, i) <= T.Load(s) + T.Budget(ss, c.tf, 0)
      {
        T.FeedStep(now, c, i);
        FeedAt(c, i);
        now := T.FeedAt(now, c, i);
        i := i + 1;
      }
      T.FeedEnd(now, c);
    }

    method FeedAt(c: Candle, i: nat)
      requires Valid() && c.closed && i < |higher|
      modifies `lastClosed, `gaps, `suspended, `deferred, `log, higher
      ensures Valid() && TowerValue() == T.FeedAt(old(TowerValue()), c, i)
      decreases T.Load(TowerValue()) + T.Budget(SetupsOf(higher), c.tf, i), 5
    {
      hide T.FeedOne, T.Budget, T.Load, T.Stacked;
      T.FeedStep(TowerValue(), c, i);
      if higher[i].source == c.tf {
        FeedOne(c, i);
      }
    }

    /** Putting the new value of one aggregator in place. */
    twostate lemma OneChanged(i: nat)
      requires i < |higher| && Wired() && unchanged(this, primaryAgg)
      requires forall j :: 0 <= j < |higher| && j != i ==> unchanged(higher[j])
      ensures TowerValue() == old(TowerValue()).(higher := old(TowerValue()).higher[i := higher[i].Value()])
    {
    }

    /** One aggregator: handle what it emits, or, when it emits nothing, offer the bar to its gaps. */
    method FeedOne(c: Candle, i: nat)
      requires Valid() && i < |higher| && c.closed && higher[i].source == c.tf
      modifies `lastClosed, `gaps, `suspended, `deferred, `log, higher
      ensures Valid() && TowerValue() == T.FeedOne(old(TowerValue()), c, i)
      decreases T.Load(TowerValue()) + 2 * T.Weight(higher[i].target), 4
    {
      hide T.Pending, T.Handle, Timeframe.Rank, Values, Agg.TooLate;
      var r := higher[i].Add(c);
      OneChanged(i);
      T.ResultsWeigh(r.results, higher[i].target);
      if r.results != [] {
        HandleAll(r.results);
      } else {
        label added:
        var rebuilt := higher[i].TryCompleteGap(c);
        OneChanged@added(i);
        if rebuilt.Some? {
          var _ := Repair(rebuilt.value);
        }
      }
    }

    /** Resolve the matching gap with the bar, dispatch it, and release what no longer waits. */
    method Repair(c: Candle) returns (done: bool)
      requires Valid()
      modifies `lastClosed, `gaps, `suspended, `deferred, `log, higher
      ensures Valid() && TowerValue() == T.Repair(old(TowerValue()), c)
      ensures done <==> c.closed && T.FindGap(old(gaps), c.tf, c.openTime).Some?
      decreases T.Load(TowerValue()) + T.Weight(c.tf), 2
    {
      hide T.Pending, T.Tower.Setups, T.Lifted, T.Tower.Live, SetupsOf, T.Feed;
      var k := T.FindGap(gaps, c.tf, c.openTime);
      if k.None? || !c.closed {
        return false;
      }
      ghost var s := TowerValue();
      T.RepairStep(s, c, k.value);
      hide T.Repair, T.Dispatch, T.Drain, T.Load;
      gaps := gaps[k.value := gaps[k.value].(resolved := true)];
      assert TowerValue() == s.(gaps := gaps);
      Dispatch(c);
      Resume();
      return true;
    }

    /** Lift the suspension when no gap is left, and drain. */
    method Resume()
      requires Valid()
      modifies `lastClosed, `gaps, `suspended, `deferred, `log, higher
      ensures Valid() && TowerValue() == T.Drain(T.Lifted(old(TowerValue())))
      decreases T.Load(TowerValue()), 3
    {
      hide T.Drain, T.Load;
      T.LiftedLoad(TowerValue());
      ghost var s := TowerValue();
      if T.FirstOpen(gaps).None? {
        suspended := false;
      }
      assert TowerValue() == T.Lifted(s);
      DrainDeferred();
    }

    /** Dispatch the deferred bars before the next gap, in order; keep the others. */
    method DrainDeferred()
      requires Valid()
      modifies `lastClosed, `gaps, `suspended, `deferred, `log, higher
      ensures Valid() && TowerValue() == T.Drain(old(TowerValue()))
      decreases T.Load(TowerValue()), 2
    {
      hide T.Drain, T.DrainList, T.Kept, T.Load, Sort;
      ghost var s := TowerValue();
      var nextGap := T.FirstOpen(gaps);
      var list := Sort(deferred, T.DrainKey);
      T.DrainIs(s);
      T.KeptMembers(list, nextGap);
      var remaining := Release(list, nextGap);
      deferred := remaining;
    }

    /** The loop of a drain: what waits for the next gap remains. */
    method Release(list: seq<Candle>, nextGap: Option<T.GapRecord>) returns (remaining: seq<Candle>)
      requires Valid() && forall c :: c in list ==> c.closed && (c in deferred || !TowerValue().Live(c))
      modifies `lastClosed, `gaps, `suspended, `deferred, `log, higher
      ensures Valid() && TowerValue() == T.DrainList(old(TowerValue()), list, nextGap) && remaining == T.Kept(list, nextGap)
      decreases T.Load(TowerValue()), 1
    {
      hide T.DrainList, T.Dispatch, T.Load;
      ghost var s := TowerValue();
      ghost var now := s;
      var rest := list;
      remaining := [];
      while rest != []
        invariant Valid() && now == TowerValue()
        invariant forall c: Candle :: c in rest ==> c.closed && (c in now.deferred || !now.Live(c))
        invariant T.DrainList(now, rest, nextGap) == T.DrainList(s, list, nextGap)
        invariant remaining + T.Kept(rest, nextGap) == T.Kept(list, nextGap)
        invariant T.Load(now) <= T.Load(s)
      {
        var c := rest[0];
        assert c in rest;
        T.DrainStep(now, rest, nextGap);
        KeptStep(remaining, rest, nextGap);
        if nextGap.Some? && nextGap.value.openTime <= c.openTime {
          remaining := remaining + [c];
        } else {
          Dispatch(c);
          now := T.Dispatch(now, c);
        }
        rest := rest[1..];
      }
      T.DrainEnd(now, nextGap);
      assert remaining + [] == remaining;
    }

    // ------------------------------------------------------------------ minutes

    /** A closed minute feeds the higher aggregators built directly on minutes. */
    method FeedMinute(c: Candle)
      requires Valid() && c.closed && c.tf == M1
      modifies `lastClosed, `gaps, `suspended, `deferred, `log, higher
      ensures Valid() && TowerValue() == T.FeedMinute(old(TowerValue()), c, 0)
    {
      hide T.FeedMinuteOne, M1CandleBuilder.Valid, TowerValue, T.Evolves, T.Tower.Setups, SetupsOf;
      ghost var s := TowerValue();
      ghost var now := s;
      var i := 0;
      while i < |higher|
        invariant 0 <= i <= |higher| && Valid() && now == TowerValue()
        invariant T.FeedMinute(now, c, i) == T.FeedMinute(s, c, 0)
      {
        FeedMinuteOne(c, i);
        now := T.FeedMinuteOne(now, c, i);
        i := i + 1;
      }
    }

    method FeedMinuteOne(c: Candle, i: nat)
      requires Valid() && c.closed && c.tf == M1 && i < |higher|
      modifies `lastClosed, `gaps, `suspended, `deferred, `log, higher
      ensures Valid() && TowerValue() == T.FeedMinuteOne(old(TowerValue()), c, i)
    {
      hide T.HandleAll;
      if higher[i].source == M1 {
        var r := higher[i].Add(c);
        OneChanged(i);
        HandleAll(r.results);
      }
    }

    /** A closed minute feeds the primary aggregator, or, when that emits nothing, is offered to its gaps. */
    method FeedPrimary(c: Candle)
      requires Valid() && c.closed && c.tf == M1
      modifies `lastClosed, `gaps, `suspended, `deferred, `log, primaryAgg, higher
      ensures Valid() && TowerValue() == T.FeedPrimary(old(TowerValue()), c)
    {
      hide T.HandleAll, T.Repair;
      ghost var s := TowerValue();
      var r := primaryAgg.Add(c);
      assert TowerValue() == s.(primary := s.primary.Add(c).0);
      if r.results != [] {
        HandleAll(r.results);
      } else {
        var rebuilt := primaryAgg.TryCompleteGap(c);
        assert TowerValue() == s.(primary := s.primary.Add(c).0.TryCompleteGap(c).0);
        if rebuilt.Some? {
          var _ := Repair(rebuilt.value);
        }
      }
    }

    /** Minutes first feed what is built directly on them, then the primary. */
    method Aggregate(c: Candle)
      requires Valid() && c.closed && c.tf == M1
      modifies `lastClosed, `gaps, `suspended, `deferred, `log, primaryAgg, higher
      ensures Valid() && TowerValue() == T.OnMinute(old(TowerValue()), c)
    {
      hide T.FeedMinute, T.FeedPrimary;
      FeedMinute(c);
      FeedPrimary(c);
    }

    /** Remember a minute as processed. */
    method Remember(c: Candle)
      modifies `lastM1Open, `seenM1, `admitted
      ensures seenM1 == old(seenM1) + {c.openTime} && admitted == old(admitted) + [c]
      ensures lastM1Open == if old(lastM1Open).Some? && c.openTime <= old(lastM1Open).value then old(lastM1Open) else Some(c.openTime)
    {
      seenM1 := seenM1 + {c.openTime};
      if lastM1Open.None? || lastM1Open.value < c.openTime {
        lastM1Open := Some(c.openTime);
      }
      admitted := admitted + [c];
    }

    /** A closed minute enters aggregation once. */
    method OnM1Closed(c: Candle)
      requires Valid() && c.closed && c.tf == M1
      modifies this, primaryAgg, higher
      ensures Valid() && Value() == old(Value()).OnM1Closed(c)
      ensures admitted == old(admitted) + if c.openTime in old(seenM1) then [] else [c]
    {
      hide T.OnMinute, T.Stacked, T.Evolves, T.Tower.Setups, TowerValue, SetupsOf, SetupOf, M1CandleBuilder.Value,
           M1CandleBuilder.Valid, Agg.Setup, Wired, P.Pipeline.Sane, P.Pipeline.Grows;
      if c.openTime !in seenM1 {
        Remember(c);
        assert TowerValue() == old(TowerValue());
        Aggregate(c);
        assert m1.Value() == old(m1.Value());
      } else {
        assert admitted == old(admitted) + [];
      }
    }

    method MarkPending(minute: Instant)
      requires Valid()
      modifies `pendingVerification
      ensures Valid() && Value() == old(Value()).MarkPending(minute)
    {
      if minute !in seenM1 && minute !in pendingVerification {
        pendingVerification := pendingVerification + {minute};
      }
    }

    /** A trusted minute is admitted, any other waits for the broker. */
    method OnBuilt(b: BuiltM1)
      requires Valid() && b.candle.closed && b.candle.tf == M1
      modifies this, primaryAgg, higher
      ensures Valid() && Value() == old(Value()).OnBuilt(b)
    {
      hide T.OnMinute, T.Stacked, T.Tower.Setups, TowerValue, SetupsOf, Values, M1CandleBuilder.Value,
           M1CandleBuilder.Valid, P.Pipeline.OnM1Closed;
      if b.trusted {
        if config.reconcileLive {
          reconcileQueue := reconcileQueue[b.candle.openTime := b.candle];
        }
        assert TowerValue() == old(TowerValue());
        OnM1Closed(b.candle);
      } else {
        MarkPending(b.candle.openTime);
      }
    }

    // ------------------------------------------------------------------ live feed

    method AddTick(t: Tick)
      requires Valid()
      modifies this, m1, primaryAgg, higher
      ensures Valid() && Value() == old(Value()).AddTick(t)
    {
      hide T.OnMinute, T.Stacked, T.Tower.Setups, TowerValue, SetupsOf, Values, M1CandleBuilder.Value,
           M1CandleBuilder.Valid, P.Pipeline.OnBuilt, Builder.AddTick;
      if recovering {
        tickBuffer := tickBuffer + [t];
        assert TowerValue() == old(TowerValue());
        return;
      }
      StepAnswers(m1.Value(), OnTick(t));
      var out := m1.AddTick(t);
      fed := fed + [OnTick(t)];
      assert TowerValue() == old(TowerValue());
      if out != [] {
        OnBuilt(out[0]);
      }
    }

    method SetConnected(ts: Instant)
      requires Valid()
      modifies `fed, m1
      ensures Valid() && Value() == old(Value()).Told(OnConnect(ts))
    {
      hide T.OnMinute, T.Stacked, T.Tower.Setups, TowerValue, SetupsOf, Values, M1CandleBuilder.Value,
           M1CandleBuilder.Valid;
      m1.SetConnected(ts);
      fed := fed + [OnConnect(ts)];
    }

    method SetDisconnected()
      requires Valid()
      modifies `fed, m1
      ensures Valid() && Value() == old(Value()).Told(OnDisconnect)
    {
      hide T.OnMinute, T.Stacked, T.Tower.Setups, TowerValue, SetupsOf, Values, M1CandleBuilder.Value,
           M1CandleBuilder.Valid;
      m1.SetDisconnected();
      fed := fed + [OnDisconnect];
    }

    method SetStale() returns (changed: bool)
      requires Valid()
      modifies `fed, m1
      ensures Valid() && Value() == old(Value()).Told(OnStall) && changed == !old(m1.stale)
    {
      hide T.OnMinute, T.Stacked, T.Tower.Setups, TowerValue, SetupsOf, Values, M1CandleBuilder.Value,
           M1CandleBuilder.Valid;
      changed := m1.SetStale();
      fed := fed + [OnStall];
    }

    /** Queue the open minutes that have passed under coverage without a candle. */
    method DetectSilent(now: Instant)
      requires Valid()
      modifies `pendingVerification
      ensures Valid() && Value() == old(Value()).DetectSilent(now)
    {
      hide TowerValue, Combine, Wired;
      if m1.coverageStart.None? {
        return;
      }
      var until := FloorTo(now, MINUTE);
      var first := FloorTo(m1.coverageStart.value, MINUTE);
      if lastM1Open.Some? && first < lastM1Open.value + MINUTE {
        first := lastM1Open.value + MINUTE;
      }
      first := Max(first, until - DAY);
      ghost var p := Value();
      var m := first;
      while m < until
        invariant Valid() && Value().Scan(m, until) == p.Scan(first, until)
        decreases until - m
      {
        if m !in seenM1 && m !in pendingVerification && m1.openTime != Some(m) && config.isOpen(m) {
          MarkPending(m);
        }
        m := m + MINUTE;
      }
    }

    /** The buckets that have ended by `now` close bottom up. */
    method FlushBuckets(now: Instant)
      requires Valid()
      modifies `lastClosed, `gaps, `suspended, `deferred, `log, primaryAgg, higher
      ensures Valid() && TowerValue() == T.FlushHigher(T.FlushPrimary(old(TowerValue()), now), now, 0)
    {
      FlushPrimary(now);
      FlushHigher(now);
    }

    method FlushPrimary(now: Instant)
      requires Valid()
      modifies `lastClosed, `gaps, `suspended, `deferred, `log, primaryAgg, higher
      ensures Valid() && TowerValue() == T.FlushPrimary(old(TowerValue()), now)
    {
      hide T.HandleAll;
      ghost var s := TowerValue();
      var res := primaryAgg.FlushAt(now);
      assert TowerValue() == s.(primary := s.primary.FlushAt(now).0);
      T.WithPrimary(s, s.primary.FlushAt(now).0);
      HandleAll(ToSeq(res));
    }

    method FlushHigher(now: Instant)
      requires Valid()
      modifies `lastClosed, `gaps, `suspended, `deferred, `log, higher
      ensures Valid() && TowerValue() == T.FlushHigher(old(TowerValue()), now, 0)
    {
      hide T.FlushOne, T.Stacked, Values;
      ghost var s := TowerValue();
      ghost var cur := s;
      var i := 0;
      while i < |higher|
        invariant 0 <= i <= |higher| && Valid() && cur == TowerValue()
        invariant T.FlushHigher(cur, now, i) == T.FlushHigher(s, now, 0)
      {
        FlushOne(now, i);
        cur := T.FlushOne(cur, now, i);
        i := i + 1;
      }
    }

    method FlushOne(now: Instant, i: nat)
      requires Valid() && i < |higher|
      modifies `lastClosed, `gaps, `suspended, `deferred, `log, higher
      ensures Valid() && TowerValue() == T.FlushOne(old(TowerValue()), now, i)
    {
      hide T.HandleAll;
      var res := higher[i].FlushAt(now);
      OneChanged(i);
      HandleAll(ToSeq(res));
    }

    /** The wall clock: close what has ended, queue silent minutes, close buckets bottom up. */
    method FlushAt(now: Instant)
      requires Valid()
      modifies this, m1, primaryAgg, higher
      ensures Valid() && Value() == old(Value()).FlushAt(now)
    {
      hide TowerValue, SetupsOf, M1CandleBuilder.Value, T.FlushHigher, T.FlushPrimary, P.Pipeline.Sane, T.Evolves,
           Agg.Setup, P.Pipeline.MarkPending, Wired, P.Pipeline.Built, P.Pipeline.ScanStart;
      if recovering {
        return;
      }
      FlushMinute(now);
      DetectSilent(now);
      FlushBuckets(now);
    }

    method FlushMinute(now: Instant)
      requires Valid()
      modifies this, m1, primaryAgg, higher
      ensures Valid() && Value() == old(Value()).Built(OnFlush(now))
    {
      hide T.OnMinute, T.Stacked, T.Tower.Setups, TowerValue, SetupsOf, Values, M1CandleBuilder.Value,
           M1CandleBuilder.Valid, P.Pipeline.OnBuilt, Builder.FlushAt;
      StepAnswers(m1.Value(), OnFlush(now));
      var out := m1.FlushAt(now);
      fed := fed + [OnFlush(now)];
      assert TowerValue() == old(TowerValue());
      if out != [] {
        OnBuilt(out[0]);
      }
    }

    // ------------------------------------------------------------------ recovery and verification

    /** Where a backfill must start: the minute left open, else the one after the last admitted. */
    method RecoveryStart() returns (start: Option<Instant>)
      requires Valid()
      ensures start == Value().RecoveryStart()
    {
      if m1.openTime.Some? {
        return m1.openTime;
      }
      return if lastM1Open.Some? then Some(lastM1Open.value + MINUTE) else None;
    }

    method BeginRecovery()
      requires Valid()
      modifies `recovering
      ensures Valid() && Value() == old(Value()).(recovering := true)
    {
      recovering := true;
    }

    method RecoverOne(c: Candle) returns (fedIt: bool)
      requires Valid()
      modifies this, m1, primaryAgg, higher
      ensures Valid() && Value() == old(Value()).RecoverOne(c)
      ensures fedIt <==> c.closed && c.tf == M1 && c.openTime !in old(seenM1)
      ensures |admitted| == |old(admitted)| + if fedIt then 1 else 0
    {
      hide T.OnMinute, T.Stacked, T.Tower.Setups, TowerValue, SetupsOf, Values, M1CandleBuilder.Value,
           M1CandleBuilder.Valid, P.Pipeline.OnM1Closed, Builder.MarkEmittedUntil;
      if !c.closed || c.tf != M1 || c.openTime in seenM1 {
        return false;
      }
      DropMinute(c.openTime);
      m1.MarkEmittedUntil(c.openTime);
      fed := fed + [OnMark(c.openTime)];
      pendingVerification := pendingVerification - {c.openTime};
      assert TowerValue() == old(TowerValue());
      OnM1Closed(c);
      return true;
    }

    /** The partially observed minute gives way to the broker's candle. */
    method DropMinute(minute: Instant)
      requires Valid()
      modifies m1
      ensures Valid()
      ensures var b := old(m1.Value()); m1.Value() == if b.forming.Some? && b.forming.value.at == minute then b.(forming := None) else b
    {
      if m1.openTime == Some(minute) {
        m1.DropOpen();
      }
    }

    /** Feed broker minutes in chronological order. */
    method RecoverM1(candles: seq<Candle>) returns (count: nat)
      requires Valid()
      modifies this, m1, primaryAgg, higher
      ensures Valid() && Value() == old(Value()).RecoverM1(candles) && |admitted| == |old(admitted)| + count
    {
      hide T.OnMinute, T.Stacked, T.Tower.Setups, TowerValue, SetupsOf, Values, M1CandleBuilder.Value,
           M1CandleBuilder.Valid, P.Pipeline.RecoverOne, Sort;
      ghost var p := Value();
      var rest := Sort(candles, ByOpen);
      ghost var list := rest;
      count := 0;
      while rest != []
        invariant Valid() && Value().RecoverAll(rest) == p.RecoverAll(list) && |admitted| == |old(admitted)| + count
      {
        var fedIt := RecoverOne(rest[0]);
        count := count + if fedIt then 1 else 0;
        rest := rest[1..];
      }
    }

    method EndRecovery()
      requires Valid()
      modifies this, m1, primaryAgg, higher
      ensures Valid() && Value() == old(Value()).EndRecovery()
    {
      hide T.OnMinute, T.Stacked, T.Tower.Setups, TowerValue, SetupsOf, Values, M1CandleBuilder.Value,
           M1CandleBuilder.Valid, P.Pipeline.AddTick;
      var rest := tickBuffer;
      recovering := false;
      tickBuffer := [];
      assert TowerValue() == old(TowerValue());
      ghost var p, list := Value(), rest;
      while rest != []
        invariant Valid() && Value().AddTicks(rest) == p.AddTicks(list)
      {
        AddTick(rest[0]);
        rest := rest[1..];
      }
    }

    method VerifyOne(byTime: map<Instant, Candle>, minute: Instant, now: Instant, fill: bool, fetched: Option<P.Range>) returns (verified: bool)
      requires Valid() && forall t :: t in byTime ==> byTime[t].openTime == t && byTime[t].closed && byTime[t].tf == M1
      modifies this, m1, primaryAgg, higher
      ensures Valid() && Value() == old(Value()).VerifyOne(byTime, minute, now, fill, fetched)
      ensures verified <==> P.Settles(byTime, minute, now, fill, fetched)
    {
      hide TowerValue, M1CandleBuilder.Value, P.Pipeline.OnM1Closed, P.Pipeline.Sane, Wired, Agg.Setup;
      if now < minute + MINUTE {
        return false;
      }
      var c := P.Settling(byTime, minute, fill, fetched);
      if c.None? {
        return false;
      }
      Answered(minute);
      OnM1Closed(c.value);
      return true;
    }

    /** An answered minute leaves the queue, and the builder will not emit it any more. */
    method Answered(minute: Instant)
      requires Valid()
      modifies `pendingVerification, `fed, m1
      ensures Valid() && Value() == old(Value()).(pending := old(pendingVerification) - {minute}).Told(OnMark(minute))
    {
      hide TowerValue, M1CandleBuilder.Value, Wired;
      pendingVerification := pendingVerification - {minute};
      m1.MarkEmittedUntil(minute);
      fed := fed + [OnMark(minute)];
    }

    /** Settle pending minutes with exact broker minutes. */
    method VerifyM1(candles: seq<Candle>, now: Instant, fill: bool, fetched: Option<P.Range>) returns (verified: seq<Instant>)
      requires Valid()
      modifies this, m1, primaryAgg, higher
      ensures Valid() && Value() == old(Value()).VerifyM1(candles, now, fill, fetched)
      ensures verified == P.SettledOf(P.ByTime(candles), Ascending(old(pendingVerification)), now, fill, fetched)
    {
      hide T.OnMinute, T.Stacked, T.Tower.Setups, TowerValue, SetupsOf, Values, M1CandleBuilder.Value,
           M1CandleBuilder.Valid, P.Pipeline.VerifyOne, Ascending, P.ByTime, P.Settles;
      var byTime := P.ByTime(candles);
      ghost var p := Value();
      var rest := Ascending(pendingVerification);
      ghost var list := rest;
      verified := [];
      while rest != []
        invariant Valid() && Value().VerifyAll(byTime, rest, now, fill, fetched) == p.VerifyAll(byTime, list, now, fill, fetched)
        invariant verified + P.SettledOf(byTime, rest, now, fill, fetched) == P.SettledOf(byTime, list, now, fill, fetched)
      {
        SettledStep(verified, byTime, rest, now, fill, fetched);
        var done := VerifyOne(byTime, rest[0], now, fill, fetched);
        verified := verified + if done then [rest[0]] else [];
        rest := rest[1..];
      }
      assert verified + [] == verified;
    }

    // ------------------------------------------------------------------ reconciliation

    /** The broker's bar replaces a minute held in the open bucket of every aggregator of minutes. */
    method ReplaceMinute(bar: Candle)
      requires Valid()
      modifies primaryAgg, higher
      ensures Valid() && TowerValue() == T.ReplaceMinute(old(TowerValue()), bar)
    {
      hide T.Stacked, SetupsOf, Agg.Replace;
      var _ := primaryAgg.ReplaceConstituent(bar);
      var i := 0;
      while i < |higher|
        invariant 0 <= i <= |higher| && primaryAgg.Value() == old(primaryAgg.Value()).Replace(bar).0
        invariant forall j :: 0 <= j < i ==>
                    higher[j].Value() == if higher[j].source == M1 then old(higher[j].Value()).Replace(bar).0 else old(higher[j].Value())
        invariant forall j :: i <= j < |higher| ==> higher[j].Value() == old(higher[j].Value())
      {
        if higher[i].source == M1 {
          var _ := higher[i].ReplaceConstituent(bar);
        }
        i := i + 1;
      }
      assert TowerValue().higher == T.ReplaceMinute(old(TowerValue()), bar).higher;
    }

    method ReconcileOne(byTime: map<Instant, Candle>, minute: Instant)
      requires Valid()
      modifies `reconcileQueue, primaryAgg, higher
      ensures Valid() && Value() == old(Value()).ReconcileOne(byTime, minute)
    {
      hide T.OnMinute, T.Stacked, T.Tower.Setups, TowerValue, SetupsOf, Values, M1CandleBuilder.Value,
           M1CandleBuilder.Valid, T.ReplaceMinute, P.Agrees;
      if minute !in reconcileQueue || minute !in byTime {
        return;
      }
      var local := reconcileQueue[minute];
      reconcileQueue := reconcileQueue - {minute};
      assert TowerValue() == old(TowerValue());
      if !P.Agrees(local, byTime[minute], config.tolerance) {
        ReplaceMinute(byTime[minute]);
      }
    }

    /** Compare queued live minutes with the broker's. */
    method ReconcileM1(candles: seq<Candle>)
      requires Valid()
      modifies `reconcileQueue, primaryAgg, higher
      ensures Valid() && Value() == old(Value()).ReconcileM1(candles)
    {
      hide T.OnMinute, T.Stacked, T.Tower.Setups, TowerValue, SetupsOf, Values, M1CandleBuilder.Value,
           M1CandleBuilder.Valid, P.Pipeline.ReconcileOne, Ascending, P.ByTime;
      var byTime := P.ByTime(candles);
      ghost var p := Value();
      var rest := Ascending(reconcileQueue.Keys);
      ghost var list := rest;
      while rest != []
        invariant Valid() && Value().ReconcileAll(byTime, rest) == p.ReconcileAll(byTime, list)
      {
        ReconcileOne(byTime, rest[0]);
        rest := rest[1..];
      }
    }
  }

  lemma SettledStep(done: seq<Instant>, byTime: map<Instant, Candle>, rest: seq<Instant>, now: Instant, fill: bool, fetched: Option<P.Range>)
    requires rest != []
    ensures done + P.SettledOf(byTime, rest, now, fill, fetched)
         == done + (if P.Settles(byTime, rest[0], now, fill, fetched) then [rest[0]] else []) + P.SettledOf(byTime, rest[1..], now, fill, fetched)
  {
  }

  lemma KeptStep(remaining: seq<Candle>, rest: seq<Candle>, next: Option<T.GapRecord>)
    requires rest != []
    ensures remaining + T.Kept(rest, next) == (if T.Waits(rest[0], next) then remaining + [rest[0]] else remaining) + T.Kept(rest[1..], next)
  {
    if T.Waits(rest[0], next) {
      Associate(remaining, [rest[0]], T.Kept(rest[1..], next));
    } else {
      EmptyLeft(T.Kept(rest[1..], next));
    }
  }
}
