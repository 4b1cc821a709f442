/** A calendar whose session ends at 23:17, and what its last buckets of the day do: two minutes make the
    five-minute bar of 23:15, and that bar alone makes the quarter of 23:15. The runs that show how bars are
    lost are played on it. */
module EarlyClose {
  import opened Timeline
  import opened Candles
  import opened Calendar
  import opened Buckets
  import opened Aggregation
  import opened Sequences
  import opened Tower
  import opened TowerLaws

  const EARLY := SessionCalendar(map[], Session(32400, 61200, 83820), false, map[], map[], {}, [], map[], {})

  const POLICY := PolicyOf(Exchange(EARLY))

  /** The loader accepts it. */
  lemma EarlyIsValid()
    ensures EARLY.Validated() && EARLY.WithinDay() && POLICY.Lawful()
  {
    ValidatedWithinDay(EARLY);
  }

  /** 23:15 of a date. */
  function Late(d: int): Instant { Combine(d, 83700) }

  lemma EarlyDay(d: int)
    ensures EARLY.IsTradingDay(d) && EARLY.DaySpan(d) == Span(Combine(d, 32400), Combine(d, 83820))
  {
  }

  lemma EarlyOpen(t: Instant, d: int)
    requires Combine(d, 32400) <= t < Combine(d, 83820)
    ensures LocalDate(t) == EARLY.TradingDate(t) == d && EARLY.IsOpen(t)
  {
    hide SessionCalendar.IsTradingDay, SessionCalendar.DaySpan, LocalDate;
    EarlyDay(d);
    DateIff(t, d);
  }

  lemma LateGrid(d: int)
    ensures Aligned(Late(d), M1) && Aligned(Late(d) + 60, M1) && Aligned(Late(d), M5) && Aligned(Late(d), M15)
    ensures FloorTo(Late(d) + 60, M5.Seconds()) == Late(d)
  {
    hide Aligned, FloorTo;
    GridPoint(1440 * d + 1395, M1);
    GridPoint(1440 * d + 1396, M1);
    GridPoint(288 * d + 279, M5);
    GridPoint(96 * d + 93, M15);
    FloorUnique(Late(d) + 60, Late(d), M5);
  }

  /** The last buckets of a date. */
  lemma LateBuckets(d: int)
    ensures POLICY.bucket(Late(d), M5) == POLICY.bucket(Late(d) + 60, M5) == POLICY.bucket(Late(d), M15) == Span(Late(d), Late(d) + 120)
  {
    hide FloorTo, LocalDate, SessionCalendar.DaySpan, SessionCalendar.IsTradingDay, SessionCalendar.TradingDate, SessionCalendar.IsOpen;
    EarlyDay(d);
    EarlyOpen(Late(d), d);
    EarlyOpen(Late(d) + 60, d);
    LateGrid(d);
  }

  /** What they expect. */
  lemma LateExpected(d: int)
    ensures POLICY.expectedOpens(Late(d), Late(d) + 120, M1) == [Late(d), Late(d) + 60]
    ensures POLICY.expectedOpens(Late(d), Late(d) + 120, M5) == [Late(d)]
  {
    hide SessionCalendar.IsOpen;
    EarlyOpen(Late(d), d);
    EarlyOpen(Late(d) + 60, d);
    var p := Exchange(EARLY);
    assert p.Expected(Late(d) + 120, Late(d) + 120, M1) == [];
    assert p.Expected(Late(d) + 60, Late(d) + 120, M1) == [Late(d) + 60];
    assert p.Expected(Late(d) + 300, Late(d) + 120, M5) == [];
  }

  // ------------------------------------------------------------------ minutes into five minutes

  function MinuteAt(t: Instant): Candle { Candle(M1, t, 1.0, 1.0, 1.0, 1.0, 1.0, None, Dhan, true) }

  /** The five-minute bucket of 23:15 with its first minute only. */
  function Half(d: int): Bucket { Bucket(Late(d), Late(d) + 120, [Late(d), Late(d) + 60], map[Late(d) := MinuteAt(Late(d))], map[]) }

  function Whole(d: int): Bucket { Half(d).(constituents := Half(d).constituents[Late(d) + 60 := MinuteAt(Late(d) + 60)]) }

  /** Its complete bar. */
  function LateBar(d: int): Candle { Fold(M5, Late(d), [MinuteAt(Late(d)), MinuteAt(Late(d) + 60)]) }

  lemma HalfIsGap(d: int)
    ensures Half(d).ResultOf(M5).Some? && var r := Half(d).ResultOf(M5).value;
      r.status == GapDetected && r.tf == M5 && r.openTime == Late(d) && r.WellMade()
    ensures !Half(d).IsComplete() && Half(d).openTime == Late(d)
  {
    assert Late(d) + 60 in Half(d).expected;
    assert Late(d) + 60 in Missing(Half(d).expected, Half(d).constituents);
  }

  lemma WholeIsBar(d: int)
    ensures Whole(d).IsComplete() && Whole(d).ReachesEnd() && Whole(d).Built(M5) == Some(LateBar(d))
    ensures Whole(d).ResultOf(M5).Some? && var r := Whole(d).ResultOf(M5).value; r.status == Complete && r.candle == Some(LateBar(d)) && r.tf == M5
  {
    var b := Whole(d);
    assert b.constituents[Late(d) + 60].CloseTime() == b.endTime;
    assert [Late(d), Late(d) + 60][1..] == [Late(d) + 60] && [Late(d) + 60][1..] == [];
    assert Pick([Late(d) + 60], b.constituents) == [MinuteAt(Late(d) + 60)];
    assert Pick(b.expected, b.constituents) == [MinuteAt(Late(d)), MinuteAt(Late(d) + 60)];
    assert Missing(b.expected, b.constituents) == [];
  }

  ghost predicate Fives(a: Agg) { a.source == M1 && a.target == M5 && a.policy == POLICY }

  predicate Newer(a: Agg, t: Instant) { a.lastEmitted.Some? ==> a.lastEmitted.value < t }

  lemma FivesAt(a: Agg, d: int)
    requires Fives(a)
    ensures a.KeyOf(Late(d)) == a.KeyOf(Late(d) + 60) == Late(d)
    ensures a.OpenBucket(Late(d)) == Half(d).(constituents := map[])
    ensures a.OpenBucket(Late(d)).Arrive(MinuteAt(Late(d))) == Half(d)
    ensures Aligned(Late(d), M1) && Aligned(Late(d) + 60, M1)
  {
    LateBuckets(d);
    LateExpected(d);
    LateGrid(d);
  }

  /** The first minute of a date opens its bucket. */
  lemma FirstMinute(a: Agg, d: int)
    requires Fives(a) && a.bucket.None? && Newer(a, Late(d))
    ensures a.Add(MinuteAt(Late(d))) == (a.(bucket := Some(Half(d))), [])
  {
    hide Aligned, POLICY, Bucket.IsComplete;
    FivesAt(a, d);
    HalfIsGap(d);
    EmptyRight<AggResult>([]);
  }

  /** The first minute of a later date closes the open bucket as a gap. */
  lemma NextMinute(a: Agg, b: Bucket, d: int)
    requires Fives(a) && a.bucket == Some(b) && b.openTime < Late(d) && Newer(a, b.openTime)
    requires b.ResultOf(M5).Some? && b.ResultOf(M5).value.status == GapDetected
    ensures a.Add(MinuteAt(Late(d))) ==
              (a.(bucket := Some(Half(d)), lastEmitted := Some(b.openTime), gapBuckets := a.gapBuckets[b.openTime := b]), [b.ResultOf(M5).value])
  {
    hide Aligned, POLICY, Bucket.IsComplete, Bucket.ResultOf;
    FivesAt(a, d);
    HalfIsGap(d);
    EmptyRight([b.ResultOf(M5).value]);
  }

  /** The second minute completes it. */
  lemma SecondMinute(a: Agg, d: int)
    requires Fives(a) && a.bucket == Some(Half(d)) && Newer(a, Late(d))
    ensures a.Add(MinuteAt(Late(d) + 60)) == (a.(bucket := None, lastEmitted := Some(Late(d))), [Whole(d).ResultOf(M5).value])
  {
    hide Aligned, POLICY, Bucket.IsComplete, Bucket.ReachesEnd, Bucket.ResultOf;
    FivesAt(a, d);
    WholeIsBar(d);
    assert Half(d).Arrive(MinuteAt(Late(d) + 60)) == Whole(d);
    EmptyLeft([Whole(d).ResultOf(M5).value]);
  }

  /** The second minute, verified late, rebuilds the bar of a gap. */
  lemma LateMinute(a: Agg, d: int)
    requires Fives(a) && !Newer(a, Late(d)) && Late(d) in a.gapBuckets && a.gapBuckets[Late(d)] == Half(d)
    ensures a.Add(MinuteAt(Late(d) + 60)) == (a, [])
    ensures a.TryCompleteGap(MinuteAt(Late(d) + 60)) == (a.(gapBuckets := a.gapBuckets - {Late(d)}), Some(LateBar(d)))
  {
    hide Aligned, POLICY, Bucket.IsComplete, Bucket.Built;
    FivesAt(a, d);
    WholeIsBar(d);
    assert Half(d).(constituents := Half(d).constituents[Late(d) + 60 := MinuteAt(Late(d) + 60)]) == Whole(d);
  }

  // ------------------------------------------------------------------ five minutes into quarters

  ghost predicate Quarters(a: Agg) { a.source == M5 && a.target == M15 && a.policy == POLICY }

  function Single(d: int, c: Candle): Bucket { Bucket(Late(d), Late(d) + 120, [Late(d)], map[Late(d) := c], map[]) }

  /** The quarter that one five-minute bar makes. */
  function QuarterOf(d: int, c: Candle): Candle { Fold(M15, Late(d), [c]) }

  lemma SingleIsBar(d: int, c: Candle)
    requires c.openTime == Late(d) && c.tf == M5
    ensures Single(d, c).IsComplete() && Single(d, c).ReachesEnd()
    ensures Single(d, c).ResultOf(M15).Some? && var r := Single(d, c).ResultOf(M15).value;
      r.status == Complete && r.candle == Some(QuarterOf(d, c)) && r.tf == M15
  {
    var b := Single(d, c);
    assert b.constituents[Late(d)].CloseTime() >= b.endTime;
    assert [Late(d)][1..] == [];
    assert Pick([Late(d)], b.constituents) == [c];
    assert Missing(b.expected, b.constituents) == [];
  }

  lemma QuartersAt(a: Agg, d: int, c: Candle)
    requires Quarters(a) && c.openTime == Late(d) && c.tf == M5
    ensures a.KeyOf(Late(d)) == Late(d) && Aligned(Late(d), M5)
    ensures a.OpenBucket(Late(d)) == Single(d, c).(constituents := map[]) && a.OpenBucket(Late(d)).Arrive(c) == Single(d, c)
  {
    LateBuckets(d);
    LateExpected(d);
    LateGrid(d);
  }

  /** A last bar of the day makes its quarter at once. */
  lemma Alone(a: Agg, d: int, c: Candle)
    requires Quarters(a) && a.bucket.None? && Newer(a, Late(d)) && c.openTime == Late(d) && c.tf == M5
    ensures a.Add(c) == (a.(lastEmitted := Some(Late(d))), [Single(d, c).ResultOf(M15).value])
  {
    hide Aligned, POLICY, Bucket.IsComplete, Bucket.ReachesEnd, Bucket.ResultOf;
    QuartersAt(a, d, c);
    SingleIsBar(d, c);
    EmptyLeft([Single(d, c).ResultOf(M15).value]);
  }

  /** It closes an open earlier quarter as a gap first. */
  lemma AfterGap(a: Agg, b: Bucket, d: int, c: Candle)
    requires Quarters(a) && a.bucket == Some(b) && b.openTime < Late(d) && Newer(a, b.openTime) && c.openTime == Late(d) && c.tf == M5
    requires b.ResultOf(M15).Some? && b.ResultOf(M15).value.status == GapDetected
    ensures a.Add(c) == (a.(bucket := None, lastEmitted := Some(Late(d)), gapBuckets := a.gapBuckets[b.openTime := b]),
                         [b.ResultOf(M15).value] + [Single(d, c).ResultOf(M15).value])
  {
    hide Aligned, POLICY, Bucket.IsComplete, Bucket.ReachesEnd, Bucket.ResultOf;
    QuartersAt(a, d, c);
    SingleIsBar(d, c);
  }

  // ------------------------------------------------------------------ buckets left incomplete

  /** 23:10 of the first date. */
  const TEN := Combine(0, 83400)

  function Five(t: Instant): Candle { Candle(M5, t, 1.0, 1.0, 1.0, 1.0, 1.0, None, Dhan, true) }

  /** The five minutes of 23:10 with their first minute, and the quarter of 23:00 with its last bar. */
  function LoneMinute(): Bucket { NewAgg(M1, M5, POLICY).OpenBucket(TEN).Arrive(MinuteAt(TEN)) }

  function LoneFive(): Bucket { NewAgg(M5, M15, POLICY).OpenBucket(TEN).Arrive(Five(TEN)) }

  lemma TenGrid()
    ensures Aligned(TEN, M1) && Aligned(TEN + 60, M1) && Aligned(TEN, M5) && Aligned(TEN - 600, M5) && Aligned(TEN - 600, M15)
  {
    GridPoint(1390, M1);
    GridPoint(1391, M1);
    GridPoint(278, M5);
    GridPoint(276, M5);
    GridPoint(92, M15);
  }

  lemma TenBuckets()
    ensures POLICY.bucket(TEN, M5) == Span(TEN, TEN + 300) && POLICY.bucket(TEN, M15) == Span(TEN - 600, TEN + 300)
  {
    hide FloorTo, LocalDate, SessionCalendar.DaySpan, SessionCalendar.IsTradingDay, SessionCalendar.TradingDate, SessionCalendar.IsOpen;
    TenGrid();
    EarlyDay(0);
    EarlyOpen(TEN, 0);
    FloorUnique(TEN, TEN - 600, M15);
  }

  /** A bucket that expects an open that has not come closes as a gap. */
  lemma IncompleteIsGap(b: Bucket, target: Timeframe, t: Instant)
    requires t in b.expected && t !in b.constituents
    ensures !b.IsComplete() && b.ResultOf(target).Some?
    ensures b.ResultOf(target).value.status == GapDetected && b.ResultOf(target).value.tf == target
    ensures b.ResultOf(target).value.openTime == b.openTime && b.ResultOf(target).value.WellMade()
  {
    assert t in Missing(b.expected, b.constituents);
  }

  lemma LoneMinuteIsGap()
    ensures LoneMinute().openTime == TEN && !LoneMinute().IsComplete() && LoneMinute().ResultOf(M5).Some?
    ensures LoneMinute().ResultOf(M5).value.status == GapDetected && LoneMinute().ResultOf(M5).value.tf == M5
    ensures LoneMinute().ResultOf(M5).value.openTime == TEN
  {
    hide Aligned, Policy.Expected, Policy.Bucket, SessionCalendar.IsOpen, Bucket.IsComplete, Bucket.ResultOf;
    TenGrid();
    EarlyOpen(TEN + 60, 0);
    TenBuckets();
    ExpectedIff(Exchange(EARLY), TEN, TEN + 300, M1, TEN + 60);
    IncompleteIsGap(LoneMinute(), M5, TEN + 60);
  }

  lemma LoneFiveIsGap()
    ensures LoneFive().openTime == TEN - 600 && !LoneFive().IsComplete() && LoneFive().ResultOf(M15).Some?
    ensures LoneFive().ResultOf(M15).value.status == GapDetected && LoneFive().ResultOf(M15).value.tf == M15
    ensures LoneFive().ResultOf(M15).value.openTime == TEN - 600
  {
    hide Aligned, Policy.Expected, Policy.Bucket, SessionCalendar.IsOpen, Bucket.IsComplete, Bucket.ResultOf;
    TenGrid();
    EarlyOpen(TEN - 600, 0);
    TenBuckets();
    ExpectedIff(Exchange(EARLY), TEN - 600, TEN + 300, M5, TEN - 600);
    IncompleteIsGap(LoneFive(), M15, TEN - 600);
  }

  lemma LoneMinuteOpens()
    ensures NewAgg(M1, M5, POLICY).Add(MinuteAt(TEN)) == (NewAgg(M1, M5, POLICY).(bucket := Some(LoneMinute())), [])
  {
    hide Aligned, POLICY, Bucket.IsComplete;
    TenGrid();
    TenBuckets();
    LoneMinuteIsGap();
    EmptyRight<AggResult>([]);
  }

  lemma LoneFiveOpens()
    ensures NewAgg(M5, M15, POLICY).Add(Five(TEN)) == (NewAgg(M5, M15, POLICY).(bucket := Some(LoneFive())), [])
  {
    hide Aligned, POLICY, Bucket.IsComplete;
    TenGrid();
    TenBuckets();
    LoneFiveIsGap();
    EmptyRight<AggResult>([]);
  }

  // ------------------------------------------------------------------ steps of a tower

  lemma RunNothing(s: Tower)
    requires Stacked(s.Setups())
    ensures RunSteps(s, []) == s
  {
  }

  lemma RunSnoc(s: Tower, steps: seq<Step>, st: Step)
    requires Stacked(s.Setups())
    ensures RunSteps(s, steps + [st]) == Perform(RunSteps(s, steps), st)
  {
    assert (steps + [st])[..|steps|] == steps;
  }

  lemma RunThree(s: Tower, x: Step, y: Step, z: Step)
    requires Stacked(s.Setups())
    ensures RunSteps(s, [x, y, z]) == Perform(Perform(Perform(s, x), y), z)
  {
    hide Perform, RunSteps, Stacked, Tower.Setups;
    RunNothing(s);
    EmptyLeft([x]);
    RunSnoc(s, [], x);
    RunSnoc(s, [x], y);
    RunSnoc(s, [x, y], z);
    assert [x] + [y] == [x, y] && [x, y] + [z] == [x, y, z];
  }

  /** No aggregator but the primary is built on minutes. */
  ghost predicate NoneOnMinutes(s: Tower) { Stacked(s.Setups()) && forall i :: 0 <= i < |s.higher| ==> s.higher[i].source != M1 }

  lemma {:induction false} SkipsHigher(s: Tower, m1: Candle, i: nat)
    requires NoneOnMinutes(s) && i <= |s.higher|
    ensures FeedMinute(s, m1, i) == s
    decreases |s.higher| - i
  {
    if i < |s.higher| { SkipsHigher(s, m1, i + 1); }
  }

  /** A minute the primary takes without emitting. */
  lemma TakenIn(s: Tower, m1: Candle, a: Agg)
    requires NoneOnMinutes(s) && s.primary.Add(m1) == (a, []) && a.TryCompleteGap(m1) == (a, None)
    ensures Perform(s, Minute(m1)) == s.(primary := a)
  {
    SkipsHigher(s, m1, 0);
  }

  /** A minute that closes one bucket. */
  lemma ClosesOne(s: Tower, m1: Candle, a: Agg, r: AggResult)
    requires NoneOnMinutes(s) && s.primary.Add(m1) == (a, [r])
    ensures s.(primary := a).Setups() == s.Setups() && r.WellMade() && Perform(s, Minute(m1)) == Handle(s.(primary := a), r)
  {
    var fed := s.(primary := a);
    assert fed.Setups() == s.Setups() && [r][0] == r && [r][1..] == [];
    SkipsHigher(s, m1, 0);
    HandleAllCons(fed, [r]);
    HandleAllNone(Handle(fed, r));
  }

  /** A minute that rebuilds the bar of a gap repairs it. */
  lemma Rebuilds(s: Tower, m1: Candle, b: Agg, bar: Candle)
    requires NoneOnMinutes(s) && s.primary.Add(m1) == (s.primary, []) && s.primary.TryCompleteGap(m1) == (b, Some(bar))
    ensures s.(primary := b).Setups() == s.Setups() && Perform(s, Minute(m1)) == Repair(s.(primary := b), bar)
  {
    assert s.(primary := b).Setups() == s.Setups();
    SkipsHigher(s, m1, 0);
  }

  lemma GapTaken(s: Tower, m1: Candle, a: Agg, r: AggResult)
    requires NoneOnMinutes(s) && s.primary.Add(m1) == (a, [r]) && r.status == GapDetected
    ensures Perform(s, Minute(m1)) ==
              s.(primary := a, suspended := true, gaps := s.gaps + [GapRecord(r.tf, r.openTime, r.expected, r.present, r.missing, false)])
  {
    ClosesOne(s, m1, a, r);
    HandleGapIs(s.(primary := a), r);
  }

  lemma BarDeferred(s: Tower, m1: Candle, a: Agg, r: AggResult)
    requires NoneOnMinutes(s) && s.primary.Add(m1) == (a, [r]) && r.status == Complete && r.candle.Some? && s.suspended
    ensures Perform(s, Minute(m1)) == s.(primary := a, deferred := s.deferred + [r.candle.value])
  {
    ClosesOne(s, m1, a, r);
    HandleBarIs(s.(primary := a), r);
  }

  // ------------------------------------------------------------------ the steps these runs take

  ghost predicate OnFives(s: Tower) { NoneOnMinutes(s) && Fives(s.primary) }

  /** The first minute of a date opens its last bucket. */
  lemma StepOpens(s: Tower, d: int)
    requires OnFives(s) && s.primary.bucket.None? && Newer(s.primary, Late(d)) && Late(d) !in s.primary.gapBuckets
    ensures var t := s.(primary := s.primary.(bucket := Some(Half(d)))); OnFives(t) && Perform(s, Minute(MinuteAt(Late(d)))) == t
  {
    hide POLICY, Half, Perform, Agg.Add, Stacked, Aligned;
    var a := s.primary.(bucket := Some(Half(d)));
    FirstMinute(s.primary, d);
    FivesAt(a, d);
    TakenIn(s, MinuteAt(Late(d)), a);
    StaysOnFives(s, s.(primary := a));
  }

  /** It closes an earlier bucket as a gap first. */
  lemma StepFindsGap(s: Tower, b: Bucket, d: int)
    requires OnFives(s) && s.primary.bucket == Some(b) && b.openTime < Late(d) && Newer(s.primary, b.openTime)
    requires b.ResultOf(M5).Some? && b.ResultOf(M5).value.status == GapDetected
    ensures var a := s.primary.(bucket := Some(Half(d)), lastEmitted := Some(b.openTime), gapBuckets := s.primary.gapBuckets[b.openTime := b]);
      var t := s.(primary := a, suspended := true, gaps := s.gaps + [RecordOf(b.ResultOf(M5).value)]);
      OnFives(t) && Perform(s, Minute(MinuteAt(Late(d)))) == t
  {
    hide POLICY, Half, Perform, Agg.Add, Stacked, Bucket.ResultOf;
    NextMinute(s.primary, b, d);
    var a := s.primary.(bucket := Some(Half(d)), lastEmitted := Some(b.openTime), gapBuckets := s.primary.gapBuckets[b.openTime := b]);
    GapTaken(s, MinuteAt(Late(d)), a, b.ResultOf(M5).value);
    StaysOnFives(s, s.(primary := a, suspended := true, gaps := s.gaps + [RecordOf(b.ResultOf(M5).value)]));
  }

  /** The second minute completes a bar, which waits behind the open gap. */
  lemma StepDefers(s: Tower, d: int)
    requires OnFives(s) && s.primary.bucket == Some(Half(d)) && Newer(s.primary, Late(d)) && s.suspended
    ensures var t := s.(primary := s.primary.(bucket := None, lastEmitted := Some(Late(d))), deferred := s.deferred + [LateBar(d)]);
      OnFives(t) && Perform(s, Minute(MinuteAt(Late(d) + 60))) == t
  {
    hide POLICY, Half, Whole, Perform, Agg.Add, Stacked, Bucket.ResultOf, Bucket.IsComplete, Bucket.ReachesEnd, Bucket.Built;
    SecondMinute(s.primary, d);
    WholeIsBar(d);
    var a := s.primary.(bucket := None, lastEmitted := Some(Late(d)));
    BarDeferred(s, MinuteAt(Late(d) + 60), a, Whole(d).ResultOf(M5).value);
    StaysOnFives(s, s.(primary := a, deferred := s.deferred + [LateBar(d)]));
  }

  lemma StaysOnFives(s: Tower, t: Tower)
    requires OnFives(s) && t.higher == s.higher && Fives(t.primary)
    ensures OnFives(t)
  {
    assert t.Setups() == s.Setups();
  }

  function RecordOf(r: AggResult): GapRecord { GapRecord(r.tf, r.openTime, r.expected, r.present, r.missing, false) }

  /** The gap of a date's last five minutes, of which one minute came. */
  function LateGap(d: int): GapRecord { GapRecord(M5, Late(d), 2, 1, [Late(d) + 60], false) }

  lemma HalfRecord(d: int)
    ensures Half(d).ResultOf(M5).Some? && RecordOf(Half(d).ResultOf(M5).value) == LateGap(d)
    ensures Half(d).ResultOf(M5).value.status == GapDetected && Half(d).openTime == Late(d)
  {
    HalfIsGap(d);
    assert [Late(d), Late(d) + 60][1..] == [Late(d) + 60] && [Late(d) + 60][1..] == [];
    assert Missing([Late(d) + 60], Half(d).constituents) == [Late(d) + 60];
  }

  lemma LatesApart(d: int, e: int)
    requires d < e
    ensures Late(d) + 300 < Late(e)
  {
  }

  lemma LateBarIs(d: int)
    ensures LateBar(d).tf == M5 && LateBar(d).openTime == Late(d) && LateBar(d).closed
  {
  }
}
