/** Safety of the tower for any number of timeframes and any interleaving: what is dispatched is
    justified, in order per timeframe, and suspension mirrors the unresolved gaps. */
module TowerLaws {
  import opened Timeline
  import opened Candles
  import opened Aggregation
  import opened AggregationLaws
  import opened Sorting
  import opened Tower

  // ---------------------------------------------------------------- provenance

  /** The bucket a policy lays out around `ts`. */
  ghost predicate LaidOut(ss: AggSetup, b: Bucket, ts: Instant) {
    var span := ss.policy.bucket(ts, ss.target);
    b.openTime == span.start && b.endTime == span.end && b.expected == ss.policy.expectedOpens(span.start, span.end, ss.source)
  }

  /** A bucket of the policy whose constituents all come from `pool`. */
  ghost predicate BucketOk(ss: AggSetup, b: Bucket, pool: set<Candle>) {
    b.Sound(ss.source) && (exists ts :: LaidOut(ss, b, ts)) && forall t :: t in b.constituents ==> b.constituents[t] in pool
  }

  /** The bar is the fold of every expected constituent of one of the policy's buckets, all from `pool`. */
  ghost predicate MadeBy(ss: AggSetup, pool: set<Candle>, c: Candle) {
    exists b: Bucket :: BucketOk(ss, b, pool) && b.IsComplete() && b.Built(ss.target) == Some(c)
  }

  ghost predicate AggOk(a: Agg, pool: set<Candle>) {
    && a.Valid()
    && (a.bucket.Some? ==> BucketOk(a.Setup(), a.bucket.value, pool))
    && (forall k :: k in a.gapBuckets ==> BucketOk(a.Setup(), a.gapBuckets[k], pool))
  }

  lemma BucketOkMore(ss: AggSetup, b: Bucket, pool: set<Candle>, more: set<Candle>)
    requires BucketOk(ss, b, pool) && pool <= more
    ensures BucketOk(ss, b, more)
  {
  }

  lemma AggOkMore(a: Agg, pool: set<Candle>, more: set<Candle>)
    requires AggOk(a, pool) && pool <= more
    ensures AggOk(a, more)
  {
  }

  /** Complete results are made from the pool. */
  ghost predicate ResultsMade(ss: AggSetup, pool: set<Candle>, rs: seq<AggResult>) {
    forall i :: 0 <= i < |rs| ==> ResultMade(ss, pool, rs[i])
  }

  ghost predicate ResultMade(ss: AggSetup, pool: set<Candle>, r: AggResult) {
    r.status == Complete ==> r.candle.Some? && r.candle.value.closed && MadeBy(ss, pool, r.candle.value)
  }

  lemma ClosedMade(ss: AggSetup, b: Bucket, pool: set<Candle>)
    requires BucketOk(ss, b, pool)
    ensures ResultsMade(ss, pool, ToSeq(b.ResultOf(ss.target)))
  {
    if b.expected != [] {
      ResultMeaning(b, ss.source, ss.target);
    }
  }

  lemma EmitOk(a: Agg, pool: set<Candle>)
    requires AggOk(a, pool) && a.bucket.Some?
    ensures AggOk(a.Emit().0, pool) && ResultsMade(a.Setup(), pool, ToSeq(a.Emit().1))
  {
    EmitEffect(a);
    ClosedMade(a.Setup(), a.bucket.value, pool);
  }

  lemma ReadyOk(a: Agg, ts: Instant, pool: set<Candle>)
    requires AggOk(a, pool) && !a.TooLate(ts)
    ensures AggOk(a.Ready(ts).0, pool) && ResultsMade(a.Setup(), pool, ToSeq(a.Ready(ts).1))
  {
    ReadyEffect(a, ts);
    assert LaidOut(a.Setup(), a.OpenBucket(ts), ts);
    if a.bucket.Some? && a.bucket.value.openTime < a.KeyOf(ts) {
      EmitOk(a, pool);
    }
  }

  lemma PlaceOk(a: Agg, c: Candle, pool: set<Candle>)
    requires AggOk(a, pool) && a.bucket.Some? && c in pool && c.closed && c.tf == a.source
    ensures AggOk(a.Place(c).0, pool) && ResultsMade(a.Setup(), pool, a.Place(c).1)
  {
    hide Bucket.ReachesEnd, Agg.Emit, ResultMade;
    PlaceEffect(a, c);
    if !a.bucket.value.Seen(c.openTime) {
      var landed := a.(bucket := Some(a.bucket.value.Arrive(c)));
      var ts :| LaidOut(a.Setup(), a.bucket.value, ts);
      assert LaidOut(a.Setup(), landed.bucket.value, ts);
      assert landed.Valid();
      EmitOk(landed, pool);
    }
  }

  lemma AddOk(a: Agg, c: Candle, pool: set<Candle>)
    requires AggOk(a, pool) && c in pool && c.closed && c.tf == a.source
    ensures AggOk(a.Add(c).0, pool) && ResultsMade(a.Setup(), pool, a.Add(c).1)
  {
    if Aligned(c.openTime, a.source) && !a.TooLate(c.openTime) {
      ReadyOk(a, c.openTime, pool);
      var (ready, early) := a.Ready(c.openTime);
      PlaceOk(ready, c, pool);
    }
  }

  lemma FlushOk(a: Agg, now: Instant, pool: set<Candle>)
    requires AggOk(a, pool)
    ensures AggOk(a.FlushAt(now).0, pool) && ResultsMade(a.Setup(), pool, ToSeq(a.FlushAt(now).1))
  {
    if a.bucket.Some? { EmitOk(a, pool); }
  }

  lemma TryCompleteOk(a: Agg, c: Candle, pool: set<Candle>)
    requires AggOk(a, pool) && c in pool
    ensures AggOk(a.TryCompleteGap(c).0, pool)
    ensures a.TryCompleteGap(c).1.Some? ==> MadeBy(a.Setup(), pool, a.TryCompleteGap(c).1.value)
  {
    TryCompleteEffect(a, c);
    var key := a.KeyOf(c.openTime);
    if c.tf == a.source && c.closed && key in a.gapBuckets {
      var b := a.gapBuckets[key];
      if c.openTime in b.expected && c.openTime !in b.constituents {
        var filled := b.(constituents := b.constituents[c.openTime := c]);
        var ts :| LaidOut(a.Setup(), b, ts);
        assert LaidOut(a.Setup(), filled, ts);
        assert BucketOk(a.Setup(), filled, pool);
      }
    }
  }

  lemma ReplaceOk(a: Agg, c: Candle, pool: set<Candle>)
    requires AggOk(a, pool) && c in pool
    ensures AggOk(a.Replace(c).0, pool)
  {
    if a.Replace(c).1 {
      var b := a.bucket.value;
      var ts :| LaidOut(a.Setup(), b, ts);
      assert LaidOut(a.Setup(), a.Replace(c).0.bucket.value, ts);
    }
  }

  // ---------------------------------------------------------------- the invariant

  /** The minutes admitted to aggregation, and the bars the broker supplied for gaps. */
  datatype Evidence = Evidence(minutes: set<Candle>, supplied: set<Candle>)

  ghost function Pool(s: Tower, e: Evidence): set<Candle> { e.minutes + (set c | c in s.log) }

  function AllSetups(s: Tower): seq<AggSetup> { [s.primary.Setup()] + s.Setups() }

  /** FAIL CLOSED: a bar may be handed to analysis only if the broker supplied it for a gap, or it is the
      fold of every expected constituent of its bucket, each an admitted minute or a bar dispatched earlier. */
  ghost predicate Justified(s: Tower, e: Evidence, c: Candle) {
    c.closed && (c in e.supplied || exists ss :: ss in AllSetups(s) && MadeBy(ss, Pool(s, e), c))
  }

  ghost predicate AllJustified(s: Tower, e: Evidence, cs: seq<Candle>) { forall c :: c in cs ==> Justified(s, e, c) }

  ghost predicate AggsOk(s: Tower, pool: set<Candle>) {
    AggOk(s.primary, pool) && forall i :: 0 <= i < |s.higher| ==> AggOk(s.higher[i], pool)
  }

  /** Per timeframe the dispatched bars strictly increase, up to the last closed one. */
  ghost predicate LogOk(s: Tower) {
    && (forall i :: 0 <= i < |s.log| ==> !s.Live(s.log[i]))
    && (forall i, j :: 0 <= i < j < |s.log| && s.log[i].tf == s.log[j].tf ==> s.log[i].openTime < s.log[j].openTime)
  }

  predicate HasGap(s: Tower) { s.FirstUnresolved().Some? }

  /** Each dispatched bar is justified by the minutes and the bars dispatched before it. */
  ghost predicate LogJustified(s: Tower, e: Evidence) { forall i :: 0 <= i < |s.log| ==> JustifiedAt(s, e, i) }

  ghost predicate JustifiedAt(s: Tower, e: Evidence, i: nat)
    requires i < |s.log|
  {
    Justified(s.(log := s.log[..i]), e, s.log[i])
  }

  ghost predicate Inv(s: Tower, e: Evidence) {
    && Stacked(s.Setups()) && s.primary.source == M1
    && AggsOk(s, Pool(s, e)) && LogOk(s)
    && LogJustified(s, e) && AllJustified(s, e, s.deferred)
    && (HasGap(s) ==> s.suspended)
  }

  /** Between public calls the tower is suspended exactly while a gap is unresolved. */
  ghost predicate Settled(s: Tower) { s.suspended <==> HasGap(s) }

  ghost predicate Safe(s: Tower, t: Tower, e: Evidence) { Inv(t, e) && (Settled(s) ==> Settled(t)) }

  lemma {:induction false} FirstOpenIff(gaps: seq<GapRecord>)
    ensures FirstOpen(gaps).Some? <==> exists i :: 0 <= i < |gaps| && !gaps[i].resolved
    ensures FirstOpen(gaps).Some? ==> FirstOpen(gaps).value in gaps && !FirstOpen(gaps).value.resolved
  {
    if gaps != [] && gaps[0].resolved {
      FirstOpenIff(gaps[1..]);
      assert forall i :: 1 <= i < |gaps| ==> gaps[i] == gaps[1..][i - 1];
      assert forall i :: 0 <= i < |gaps[1..]| ==> gaps[1..][i] == gaps[i + 1];
    }
  }

  lemma MadeByMore(ss: AggSetup, pool: set<Candle>, more: set<Candle>, c: Candle)
    requires MadeBy(ss, pool, c) && pool <= more
    ensures MadeBy(ss, more, c)
  {
    var b: Bucket :| BucketOk(ss, b, pool) && b.IsComplete() && b.Built(ss.target) == Some(c);
    BucketOkMore(ss, b, pool, more);
  }

  /** What is justified stays justified. */
  lemma JustifiedLater(s: Tower, t: Tower, e: Evidence, c: Candle)
    requires s.log <= t.log && AllSetups(t) == AllSetups(s) && Justified(s, e, c)
    ensures Justified(t, e, c)
  {
    hide MadeBy, Bucket.Built, BucketOk, AllSetups;
    if c !in e.supplied {
      var ss :| ss in AllSetups(s) && MadeBy(ss, Pool(s, e), c);
      MadeByMore(ss, Pool(s, e), Pool(t, e), c);
    }
  }

  lemma AllJustifiedLater(s: Tower, t: Tower, e: Evidence, cs: seq<Candle>)
    requires s.log <= t.log && AllSetups(t) == AllSetups(s) && AllJustified(s, e, cs)
    ensures AllJustified(t, e, cs)
  {
    forall c | c in cs ensures Justified(t, e, c) { JustifiedLater(s, t, e, c); }
  }

  lemma LogJustifiedLater(s: Tower, t: Tower, e: Evidence)
    requires t.log == s.log && AllSetups(t) == AllSetups(s) && LogJustified(s, e)
    ensures LogJustified(t, e)
  {
    forall i | 0 <= i < |t.log| ensures JustifiedAt(t, e, i) {
      assert JustifiedAt(s, e, i);
      JustifiedLater(s.(log := s.log[..i]), t.(log := t.log[..i]), e, s.log[i]);
    }
  }

  lemma MarkSafe(s: Tower, c: Candle, e: Evidence)
    requires Inv(s, e) && Justified(s, e, c) && s.Live(c)
    ensures Inv(Mark(s, c), e) && c in Pool(Mark(s, c), e) && (Settled(s) ==> Settled(Mark(s, c)))
  {
    var t := Mark(s, c);
    AggOkMore(s.primary, Pool(s, e), Pool(t, e));
    forall i | 0 <= i < |t.higher| ensures AggOk(t.higher[i], Pool(t, e)) { AggOkMore(s.higher[i], Pool(s, e), Pool(t, e)); }
    AllJustifiedLater(s, t, e, s.deferred);
    forall i | 0 <= i < |t.log| ensures JustifiedAt(t, e, i) {
      assert i < |s.log| ==> JustifiedAt(s, e, i) && t.log[..i] == s.log[..i];
      assert i == |s.log| ==> t.log[..i] == s.log;
      JustifiedLater(s.(log := t.log[..i]), t.(log := t.log[..i]), e, t.log[i]);
    }
    forall i | 0 <= i < |s.log| ensures !t.Live(s.log[i]) && (s.log[i].tf == c.tf ==> s.log[i].openTime < c.openTime) {
      assert !s.Live(s.log[i]);
    }
  }

  /** Complete results of a configured aggregator are justified. */
  lemma MadeIsJustified(s: Tower, e: Evidence, ss: AggSetup, rs: seq<AggResult>)
    requires ss in AllSetups(s) && ResultsMade(ss, Pool(s, e), rs)
    ensures ResultsJustified(s, e, rs)
  {
    forall i | 0 <= i < |rs| ensures ResultJustified(s, e, rs[i]) { assert ResultMade(ss, Pool(s, e), rs[i]); }
  }

  ghost predicate ResultJustified(s: Tower, e: Evidence, r: AggResult) {
    r.status == Complete ==> r.candle.Some? && Justified(s, e, r.candle.value)
  }

  ghost predicate ResultsJustified(s: Tower, e: Evidence, rs: seq<AggResult>) {
    forall i :: 0 <= i < |rs| ==> ResultJustified(s, e, rs[i])
  }

  lemma ResultsJustifiedLater(s: Tower, t: Tower, e: Evidence, rs: seq<AggResult>)
    requires s.log <= t.log && AllSetups(t) == AllSetups(s) && ResultsJustified(s, e, rs)
    ensures ResultsJustified(t, e, rs)
  {
    forall i | 0 <= i < |rs| ensures ResultJustified(t, e, rs[i]) {
      assert ResultJustified(s, e, rs[i]);
      if rs[i].status == Complete { JustifiedLater(s, t, e, rs[i].candle.value); }
    }
  }

  /** Swapping one aggregator for a sound successor keeps the invariant. */
  lemma WithHigherSafe(s: Tower, e: Evidence, i: nat, a: Agg)
    requires Inv(s, e) && i < |s.higher| && a.Setup() == s.higher[i].Setup() && AggOk(a, Pool(s, e))
    ensures var t := s.(higher := s.higher[i := a]); t.Setups() == s.Setups() && Inv(t, e) && (Settled(s) ==> Settled(t))
  {
    var t := s.(higher := s.higher[i := a]);
    assert t.Setups() == s.Setups();
    LogJustifiedLater(s, t, e);
    AllJustifiedLater(s, t, e, s.deferred);
  }

  lemma WithPrimarySafe(s: Tower, e: Evidence, a: Agg)
    requires Inv(s, e) && a.Setup() == s.primary.Setup() && AggOk(a, Pool(s, e))
    ensures var t := s.(primary := a); t.Setups() == s.Setups() && Inv(t, e) && (Settled(s) ==> Settled(t))
  {
    var t := s.(primary := a);
    assert t.Setups() == s.Setups();
    LogJustifiedLater(s, t, e);
    AllJustifiedLater(s, t, e, s.deferred);
  }

  // ------------------------------------------------------- every operation is safe

  lemma HandleSafe(s: Tower, r: AggResult, e: Evidence)
    requires Inv(s, e) && r.WellMade() && ResultJustified(s, e, r)
    ensures Safe(s, Handle(s, r), e)
    decreases Load(s) + Weight(r.tf), 1, 0
  {
    if r.status == GapDetected || r.candle.None? {
      GapSafe(s, GapRecord(r.tf, r.openTime, r.expected, r.present, r.missing, false), e);
    } else if s.suspended {
      var t := s.(deferred := s.deferred + [r.candle.value]);
      assert t.Setups() == s.Setups();
      LogJustifiedLater(s, t, e);
      AllJustifiedLater(s, t, e, s.deferred);
      JustifiedLater(s, t, e, r.candle.value);
    } else {
      LoadMark(s, r.candle.value);
      DispatchSafe(s, r.candle.value, e);
    }
  }

  lemma GapSafe(s: Tower, gap: GapRecord, e: Evidence)
    requires Inv(s, e) && !gap.resolved
    ensures var t := s.(gaps := s.gaps + [gap], suspended := true); Inv(t, e) && Settled(t)
  {
    var t := s.(gaps := s.gaps + [gap], suspended := true);
    assert t.Setups() == s.Setups();
    LogJustifiedLater(s, t, e);
    AllJustifiedLater(s, t, e, s.deferred);
    FirstOpenIff(t.gaps);
    assert !t.gaps[|s.gaps|].resolved;
  }

  lemma DispatchSafe(s: Tower, c: Candle, e: Evidence)
    requires Inv(s, e) && Justified(s, e, c)
    ensures Safe(s, Dispatch(s, c), e)
    decreases Load(Mark(s, c)) + LiveWeight(s, c), 0, 0
  {
    if s.Live(c) {
      BudgetBound(s.Setups(), c.tf);
      MarkSafe(s, c, e);
      assert Mark(s, c).Setups() == s.Setups();
      FeedSafe(Mark(s, c), c, 0, e);
    }
  }

  lemma FeedSafe(s: Tower, c: Candle, i: nat, e: Evidence)
    requires Inv(s, e) && i <= |s.higher| && c in Pool(s, e) && c.closed
    ensures Safe(s, Feed(s, c, i), e)
    decreases Load(s) + Budget(s.Setups(), c.tf, i), 5, |s.higher| - i
  {
    hide Agg.Add, LogOk, AggsOk, Stacked, HandleAll;
    if i < |s.higher| {
      if s.higher[i].source == c.tf {
        assert s.Setups()[i] == s.higher[i].Setup();
        FeedOneSafe(s, c, i, e);
        FeedSafe(FeedOne(s, c, i), c, i + 1, e);
      } else {
        FeedSafe(s, c, i + 1, e);
      }
    }
  }

  lemma FeedOneSafe(s: Tower, c: Candle, i: nat, e: Evidence)
    requires Inv(s, e) && i < |s.higher| && c in Pool(s, e) && c.closed && c.tf == s.higher[i].source
    ensures Safe(s, FeedOne(s, c, i), e)
    decreases Load(s) + 2 * Weight(s.higher[i].target), 4, 0
  {
    var (a, rs) := s.higher[i].Add(c);
    AddOk(s.higher[i], c, Pool(s, e));
    WithHigherSafe(s, e, i, a);
    var fed := s.(higher := s.higher[i := a]);
    assert fed.Setups()[i] in AllSetups(fed);
    ResultsWeigh(rs, a.target);
    if rs != [] {
      MadeIsJustified(fed, e, a.Setup(), rs);
      HandleAllSafe(fed, rs, e);
    } else {
      var (b, bar) := a.TryCompleteGap(c);
      TryCompleteOk(a, c, Pool(s, e));
      WithHigherSafe(fed, e, i, b);
      var offered := fed.(higher := fed.higher[i := b]);
      if bar.Some? {
        assert Justified(offered, e, bar.value);
        RepairSafe(offered, bar.value, e);
      }
    }
  }

  lemma HandleAllSafe(s: Tower, rs: seq<AggResult>, e: Evidence)
    requires Inv(s, e) && ResultsJustified(s, e, rs)
    requires AllMade(rs)
    ensures Safe(s, HandleAll(s, rs), e)
    decreases Load(s) + ResultsWeight(rs), 3, |rs|
  {
    if rs != [] {
      assert ResultJustified(s, e, rs[0]);
      HandleSafe(s, rs[0], e);
      var t := Handle(s, rs[0]);
      ResultsJustifiedLater(s, t, e, rs);
      forall i | 0 <= i < |rs[1..]| ensures ResultJustified(t, e, rs[1..][i]) { assert ResultJustified(t, e, rs[i + 1]); }
      HandleAllSafe(t, rs[1..], e);
    }
  }

  lemma RepairSafe(s: Tower, c: Candle, e: Evidence)
    requires Inv(s, e) && Justified(s, e, c)
    ensures Safe(s, Repair(s, c), e)
    decreases Load(s) + Weight(c.tf), 2, 0
  {
    hide Dispatch, Evolves, MadeBy, Pending, Justified, Drain, LogJustified, Mark, Weight, FirstOpen;
    var k := FindGap(s.gaps, c.tf, c.openTime);
    if k.Some? && c.closed {
      var resolved := s.(gaps := s.gaps[k.value := s.gaps[k.value].(resolved := true)]);
      ResolveSafe(s, k.value, e);
      LoadMark(resolved, c);
      JustifiedLater(s, resolved, e, c);
      DispatchSafe(resolved, c, e);
      var t := Dispatch(resolved, c);
      var lifted := if t.FirstUnresolved().None? then t.(suspended := false) else t;
      assert lifted.Setups() == t.Setups();
      LogJustifiedLater(t, lifted, e);
      AllJustifiedLater(t, lifted, e, t.deferred);
      DrainSafe(lifted, e);
    }
  }

  lemma ResolveSafe(s: Tower, k: nat, e: Evidence)
    requires Inv(s, e) && k < |s.gaps|
    ensures Inv(s.(gaps := s.gaps[k := s.gaps[k].(resolved := true)]), e)
  {
    var t := s.(gaps := s.gaps[k := s.gaps[k].(resolved := true)]);
    assert t.Setups() == s.Setups();
    LogJustifiedLater(s, t, e);
    AllJustifiedLater(s, t, e, s.deferred);
    FirstOpenIff(s.gaps);
    FirstOpenIff(t.gaps);
  }

  lemma DrainSafe(s: Tower, e: Evidence)
    requires Inv(s, e)
    ensures Safe(s, Drain(s), e)
    decreases Load(s), 2, 0
  {
    DrainIs(s);
    var next, list := s.FirstUnresolved(), Sort(s.deferred, DrainKey);
    DrainListSafe(s, list, next, e);
    var t := DrainList(s, list, next);
    PendingKept(s.lastClosed, list, next);
    AllJustifiedLater(s, t, e, list);
    hide Inv, Drain, DrainList, Evolves, MadeBy, Justified;
    KeptSafe(t, Kept(list, next), e);
  }

  /** What stays deferred does not matter as long as it is justified. */
  lemma KeptSafe(s: Tower, kept: seq<Candle>, e: Evidence)
    requires Inv(s, e) && AllJustified(s, e, kept)
    ensures Safe(s, s.(deferred := kept), e)
  {
    var t := s.(deferred := kept);
    assert t.Setups() == s.Setups();
    LogJustifiedLater(s, t, e);
    AllJustifiedLater(s, t, e, kept);
  }

  lemma DrainListSafe(s: Tower, list: seq<Candle>, next: Option<GapRecord>, e: Evidence)
    requires Inv(s, e) && AllJustified(s, e, list)
    requires forall c :: c in list ==> c in s.deferred || !s.Live(c)
    ensures Safe(s, DrainList(s, list, next), e)
    decreases Load(s), 1, |list|
  {
    if list != [] {
      assert list[0] in list;
      LoadMark(s, list[0]);
      if !Waits(list[0], next) { DispatchSafe(s, list[0], e); }
      var t := if Waits(list[0], next) then s else Dispatch(s, list[0]);
      StillServed(s, t, list);
      AllJustifiedLater(s, t, e, list);
      DrainListSafe(t, list[1..], next, e);
    }
  }

  // --------------------------------------------------------------- whole runs

  /** What can happen to a tower from outside. */
  datatype Step = Minute(m1: Candle) | Clock(now: Instant) | BrokerBar(bar: Candle) | Reconciled(m1: Candle)

  function Perform(s: Tower, st: Step): (t: Tower)
    requires Stacked(s.Setups())
    ensures t.Setups() == s.Setups() && t.primary.Setup() == s.primary.Setup()
  {
    match st
    case Minute(m1) => OnMinute(s, m1)
    case Clock(now) => FlushHigher(FlushPrimary(s, now), now, 0)
    case BrokerBar(bar) => Repair(s, bar)
    case Reconciled(m1) => ReplaceMinute(s, m1)
  }

  function RunSteps(s: Tower, steps: seq<Step>): (t: Tower)
    requires Stacked(s.Setups())
    ensures t.Setups() == s.Setups() && t.primary.Setup() == s.primary.Setup()
  {
    if steps == [] then s else Perform(RunSteps(s, steps[..|steps| - 1]), steps[|steps| - 1])
  }

  /** Minutes entering the tower are closed M1 candles. */
  ghost predicate StepOk(st: Step) { (st.Minute? ==> st.m1.closed && st.m1.tf == M1) && (st.BrokerBar? ==> st.bar.closed) }

  ghost function With(e: Evidence, st: Step): Evidence {
    match st
    case Minute(m1) => e.(minutes := e.minutes + {m1})
    case Clock(_) => e
    case BrokerBar(bar) => e.(supplied := e.supplied + {bar})
    case Reconciled(m1) => e.(minutes := e.minutes + {m1})
  }

  /** Everything the run was given. */
  ghost function EvidenceOf(steps: seq<Step>): Evidence {
    if steps == [] then Evidence({}, {}) else With(EvidenceOf(steps[..|steps| - 1]), steps[|steps| - 1])
  }

  lemma InvMore(s: Tower, e: Evidence, more: Evidence)
    requires Inv(s, e) && e.minutes <= more.minutes && e.supplied <= more.supplied
    ensures Inv(s, more)
  {
    AggOkMore(s.primary, Pool(s, e), Pool(s, more));
    forall i | 0 <= i < |s.higher| ensures AggOk(s.higher[i], Pool(s, more)) { AggOkMore(s.higher[i], Pool(s, e), Pool(s, more)); }
    forall c | c in s.deferred ensures Justified(s, more, c) { JustifiedMore(s, e, more, c); }
    forall i | 0 <= i < |s.log| ensures JustifiedAt(s, more, i) {
      assert JustifiedAt(s, e, i);
      JustifiedMore(s.(log := s.log[..i]), e, more, s.log[i]);
    }
  }

  lemma JustifiedMore(s: Tower, e: Evidence, more: Evidence, c: Candle)
    requires Justified(s, e, c) && e.minutes <= more.minutes && e.supplied <= more.supplied
    ensures Justified(s, more, c)
  {
    if c !in e.supplied {
      var ss :| ss in AllSetups(s) && MadeBy(ss, Pool(s, e), c);
      MadeByMore(ss, Pool(s, e), Pool(s, more), c);
    }
  }

  lemma FeedMinuteSafe(s: Tower, m1: Candle, i: nat, e: Evidence)
    requires Inv(s, e) && i <= |s.higher| && m1 in e.minutes && m1.closed && m1.tf == M1
    ensures Safe(s, FeedMinute(s, m1, i), e)
    decreases |s.higher| - i
  {
    hide LogJustified;
    if i < |s.higher| {
      if s.higher[i].source == M1 {
        var (a, rs) := s.higher[i].Add(m1);
        AddOk(s.higher[i], m1, Pool(s, e));
        WithHigherSafe(s, e, i, a);
        var fed := s.(higher := s.higher[i := a]);
        assert fed.Setups()[i] in AllSetups(fed);
        MadeIsJustified(fed, e, a.Setup(), rs);
        HandleAllSafe(fed, rs, e);
      }
      FeedMinuteSafe(FeedMinuteOne(s, m1, i), m1, i + 1, e);
    }
  }

  lemma FeedPrimarySafe(s: Tower, m1: Candle, e: Evidence)
    requires Inv(s, e) && m1 in e.minutes && m1.closed && m1.tf == M1
    ensures Safe(s, FeedPrimary(s, m1), e)
  {
    var (a, rs) := s.primary.Add(m1);
    AddOk(s.primary, m1, Pool(s, e));
    WithPrimarySafe(s, e, a);
    var fed := s.(primary := a);
    assert a.Setup() in AllSetups(fed);
    if rs != [] {
      MadeIsJustified(fed, e, a.Setup(), rs);
      HandleAllSafe(fed, rs, e);
    } else {
      var (b, bar) := a.TryCompleteGap(m1);
      TryCompleteOk(a, m1, Pool(s, e));
      WithPrimarySafe(fed, e, b);
      if bar.Some? {
        assert Justified(fed.(primary := b), e, bar.value);
        RepairSafe(fed.(primary := b), bar.value, e);
      }
    }
  }

  lemma FlushPrimarySafe(s: Tower, now: Instant, e: Evidence)
    requires Inv(s, e)
    ensures Safe(s, FlushPrimary(s, now), e)
  {
    var (a, res) := s.primary.FlushAt(now);
    FlushOk(s.primary, now, Pool(s, e));
    WithPrimarySafe(s, e, a);
    assert a.Setup() in AllSetups(s.(primary := a));
    MadeIsJustified(s.(primary := a), e, a.Setup(), ToSeq(res));
    HandleAllSafe(s.(primary := a), ToSeq(res), e);
  }

  lemma FlushHigherSafe(s: Tower, now: Instant, i: nat, e: Evidence)
    requires Inv(s, e) && i <= |s.higher|
    ensures Safe(s, FlushHigher(s, now, i), e)
    decreases |s.higher| - i
  {
    if i < |s.higher| {
      var (a, res) := s.higher[i].FlushAt(now);
      FlushOk(s.higher[i], now, Pool(s, e));
      WithHigherSafe(s, e, i, a);
      var closed := s.(higher := s.higher[i := a]);
      assert closed.Setups()[i] in AllSetups(closed);
      MadeIsJustified(closed, e, a.Setup(), ToSeq(res));
      HandleAllSafe(closed, ToSeq(res), e);
      FlushHigherSafe(FlushOne(s, now, i), now, i + 1, e);
    }
  }

  lemma ReplaceMinuteSafe(s: Tower, bar: Candle, e: Evidence)
    requires Inv(s, e) && bar in e.minutes
    ensures Safe(s, ReplaceMinute(s, bar), e)
  {
    var t := ReplaceMinute(s, bar);
    ReplaceOk(s.primary, bar, Pool(s, e));
    forall i | 0 <= i < |t.higher| ensures AggOk(t.higher[i], Pool(t, e)) { ReplaceOk(s.higher[i], bar, Pool(s, e)); }
    LogJustifiedLater(s, t, e);
    AllJustifiedLater(s, t, e, s.deferred);
  }

  /** One step keeps the invariant and leaves the tower settled. */
  lemma PerformSafe(s: Tower, st: Step, e: Evidence)
    requires Inv(s, e) && Settled(s) && StepOk(st)
    ensures Inv(Perform(s, st), With(e, st)) && Settled(Perform(s, st)) && s.log <= Perform(s, st).log
  {
    var more := With(e, st);
    InvMore(s, e, more);
    match st
    case Minute(m1) =>
      FeedMinuteSafe(s, m1, 0, more);
      FeedPrimarySafe(FeedMinute(s, m1, 0), m1, more);
    case Clock(now) =>
      FlushPrimarySafe(s, now, more);
      FlushHigherSafe(FlushPrimary(s, now), now, 0, more);
    case BrokerBar(bar) =>
      RepairSafe(s, bar, more);
    case Reconciled(m1) =>
      ReplaceMinuteSafe(s, m1, more);
  }

  /** A tower before anything happened: distinct timeframes stacked above a primary fed by minutes. */
  ghost predicate Fresh(s: Tower) {
    && Stacked(s.Setups()) && s.primary.source == M1 && s.primary.Valid()
    && s.primary.bucket.None? && s.primary.gapBuckets == map[]
    && (forall i :: 0 <= i < |s.higher| ==> s.higher[i].Valid() && s.higher[i].bucket.None? && s.higher[i].gapBuckets == map[])
    && s.gaps == [] && !s.suspended && s.deferred == [] && s.log == []
  }

  /** THE TOWER IS FAIL CLOSED: after any run of minutes, clock flushes, broker bars and reconciled minutes,
      every bar handed to analysis is a broker bar supplied for a gap or the fold of every expected
      constituent, each admitted or dispatched itself; bars of one timeframe go out in strictly increasing
      order; dispatch is suspended exactly while a gap is unresolved; and the log only grows. */
  lemma {:induction false} TowerFailClosed(s: Tower, steps: seq<Step>)
    requires Fresh(s) && forall i :: 0 <= i < |steps| ==> StepOk(steps[i])
    ensures Inv(RunSteps(s, steps), EvidenceOf(steps)) && Settled(RunSteps(s, steps))
  {
    if steps != [] {
      TowerFailClosed(s, steps[..|steps| - 1]);
      PerformSafe(RunSteps(s, steps[..|steps| - 1]), steps[|steps| - 1], EvidenceOf(steps[..|steps| - 1]));
    }
  }
}
