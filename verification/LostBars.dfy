/** Runs from a fresh tower in which complete bars are lost, step by step. */
module LostBars {
  import opened Timeline
  import opened Candles
  import opened Calendar
  import opened Buckets
  import opened Aggregation
  import opened Sorting
  import opened Sequences
  import opened Tower
  import opened TowerLaws
  import opened RepairOrder
  import opened EarlyClose
  import opened DrainLoss

  // ------------------------------------------------------------------ a verification out of order

  /** With one timeframe and nothing deferred, a repair only marks. */
  lemma RepairMarks(s: Tower, c: Candle, k: nat)
    requires s.higher == [] && s.deferred == [] && Stacked(s.Setups()) && c.closed && FindGap(s.gaps, c.tf, c.openTime) == Some(k)
    ensures Repair(s, c) == Lifted(Mark(s.(gaps := Resolve(s.gaps, k)), c))
  {
    var resolved := s.(gaps := Resolve(s.gaps, k));
    RepairStep(s, c, k);
    DispatchIsMark(resolved, c);
    var t := Lifted(Mark(resolved, c));
    assert t.Setups() == s.Setups();
    DrainIs(t);
    DrainEnd(t, t.FirstUnresolved());
  }

  const FIVES := Tower(NewAgg(M1, M5, POLICY), [], map[], [], false, [], [])

  /** One minute on each of three dates, then the second minutes of the second and of the first as the broker
      returns them. */
  const OUT_OF_ORDER := [Minute(MinuteAt(Late(0))), Minute(MinuteAt(Late(1))), Minute(MinuteAt(Late(2))),
                         Minute(MinuteAt(Late(1) + 60)), Minute(MinuteAt(Late(0) + 60))]

  lemma FivesIsFresh()
    ensures Fresh(FIVES) && NoneOnMinutes(FIVES)
  {
    EarlyIsValid();
  }

  /** Two gaps open. */
  function TwoGaps(): Tower {
    FIVES.(primary := FIVES.primary.(bucket := Some(Half(2)), lastEmitted := Some(Late(1)), gapBuckets := map[Late(0) := Half(0)][Late(1) := Half(1)]),
           gaps := [LateGap(0), LateGap(1)], suspended := true)
  }

  lemma FindsTwoGaps()
    ensures OnFives(TwoGaps()) && RunSteps(FIVES, OUT_OF_ORDER[..3]) == TwoGaps()
  {
    hide POLICY, Half, Perform, Stacked, Bucket.ResultOf, Late;
    FivesIsFresh();
    LatesApart(0, 1);
    LatesApart(1, 2);
    HalfRecord(0);
    HalfRecord(1);
    StepOpens(FIVES, 0);
    var one := FIVES.(primary := FIVES.primary.(bucket := Some(Half(0))));
    StepFindsGap(one, Half(0), 1);
    var two := one.(primary := one.primary.(bucket := Some(Half(1)), lastEmitted := Some(Late(0)), gapBuckets := map[Late(0) := Half(0)]),
                    suspended := true, gaps := [LateGap(0)]);
    EmptyLeft([LateGap(0)]);
    StepFindsGap(two, Half(1), 2);
    RunThree(FIVES, OUT_OF_ORDER[0], OUT_OF_ORDER[1], OUT_OF_ORDER[2]);
    assert OUT_OF_ORDER[..3] == [OUT_OF_ORDER[0], OUT_OF_ORDER[1], OUT_OF_ORDER[2]];
    assert [LateGap(0)] + [LateGap(1)] == [LateGap(0), LateGap(1)];
  }

  function Closed(d: int): GapRecord { LateGap(d).(resolved := true) }

  /** The second date's bar is rebuilt and repaired although the first date's gap is open. */
  function YoungerRepaired(): Tower {
    TwoGaps().(primary := TwoGaps().primary.(gapBuckets := TwoGaps().primary.gapBuckets - {Late(1)}),
               gaps := [LateGap(0), Closed(1)], log := [LateBar(1)], lastClosed := map[M5 := Late(1)])
  }

  lemma RepairsYounger()
    ensures Perform(TwoGaps(), Minute(MinuteAt(Late(1) + 60))) == YoungerRepaired()
  {
    hide Agg.Add, Agg.TryCompleteGap, POLICY, Perform, Half, Repair, LateGap, Stacked, LateBar;
    FindsTwoGaps();
    var s := TwoGaps();
    var b := s.primary.(gapBuckets := s.primary.gapBuckets - {Late(1)});
    LateMinute(s.primary, 1);
    Rebuilds(s, MinuteAt(Late(1) + 60), b, LateBar(1));
    RepairYounger(s.(primary := b));
  }

  lemma RepairYounger(s: Tower)
    requires s == TwoGaps().(primary := s.primary)
    ensures Repair(s, LateBar(1)) == s.(gaps := [LateGap(0), Closed(1)], log := [LateBar(1)], lastClosed := map[M5 := Late(1)])
  {
    hide Repair, Half, LateBar, POLICY, Late;
    LatesApart(0, 1);
    LateBarIs(1);
    assert s.gaps[1..] == [LateGap(1)];
    assert FindGap(s.gaps, M5, Late(1)) == Some(1);
    RepairMarks(s, LateBar(1), 1);
    assert Resolve(s.gaps, 1) == [LateGap(0), Closed(1)];
  }

  /** The first date's bar is rebuilt too, and goes nowhere. */
  function OlderDropped(): Tower {
    YoungerRepaired().(primary := YoungerRepaired().primary.(gapBuckets := YoungerRepaired().primary.gapBuckets - {Late(0)}),
                       gaps := [Closed(0), Closed(1)], suspended := false)
  }

  lemma DropsOlder()
    ensures Perform(YoungerRepaired(), Minute(MinuteAt(Late(0) + 60))) == OlderDropped()
  {
    hide Agg.Add, Agg.TryCompleteGap, POLICY, Perform, Half, Repair, LateGap, Stacked, LateBar;
    FindsTwoGaps();
    LatesApart(0, 1);
    var s := YoungerRepaired();
    StaysOnFives(TwoGaps(), s);
    var b := s.primary.(gapBuckets := s.primary.gapBuckets - {Late(0)});
    LateMinute(s.primary, 0);
    Rebuilds(s, MinuteAt(Late(0) + 60), b, LateBar(0));
    RepairOlder(s.(primary := b));
  }

  lemma RepairOlder(s: Tower)
    requires s == YoungerRepaired().(primary := s.primary)
    ensures Repair(s, LateBar(0)) == s.(gaps := [Closed(0), Closed(1)], suspended := false)
  {
    hide Repair, Half, LateBar, POLICY, Late;
    LatesApart(0, 1);
    LateBarIs(0);
    assert FindGap(s.gaps, M5, Late(0)) == Some(0);
    RepairMarks(s, LateBar(0), 0);
    assert Resolve(s.gaps, 0) == [Closed(0), Closed(1)];
    assert [Closed(0), Closed(1)][1..] == [Closed(1)] && [Closed(1)][1..] == [];
  }

  /** A VERIFICATION REPAIRS OUT OF ORDER: without any repair loop, when the broker returns the second minute of
      the younger gap before that of the older one, the younger bar goes out past the open gap; when the older
      minute comes, its gap is marked resolved and its complete bar is neither dispatched nor deferred. */
  lemma VerificationOutOfOrder()
    ensures Fresh(FIVES) && forall i :: 0 <= i < |OUT_OF_ORDER| ==> StepOk(OUT_OF_ORDER[i])
    ensures var t := RunSteps(FIVES, OUT_OF_ORDER[..4]);
      t.log == [LateBar(1)] && t.suspended && !NothingPastGap(t)
    ensures var t := RunSteps(FIVES, OUT_OF_ORDER);
      && !t.suspended && t.gaps == [Closed(0), Closed(1)] && t.log == [LateBar(1)] && t.deferred == []
      && LateBar(0) != LateBar(1)
  {
    hide Perform, POLICY, Half, Stacked, LateBar, Agg.Valid, RunSteps, Fresh, Late;
    FivesIsFresh();
    FindsTwoGaps();
    RepairsYounger();
    DropsOlder();
    LatesApart(0, 1);
    LateBarIs(0);
    LateBarIs(1);
    Slices();
    RunSnoc(FIVES, OUT_OF_ORDER[..3], OUT_OF_ORDER[3]);
    RunSnoc(FIVES, OUT_OF_ORDER[..4], OUT_OF_ORDER[4]);
    var t := YoungerRepaired();
    assert t.log[0].openTime == Late(1) && t.gaps[0].openTime == Late(0) && !t.gaps[0].resolved;
  }

  lemma Slices()
    ensures OUT_OF_ORDER[..4] == OUT_OF_ORDER[..3] + [OUT_OF_ORDER[3]] && OUT_OF_ORDER == OUT_OF_ORDER[..4] + [OUT_OF_ORDER[4]]
  {
  }

  // ------------------------------------------------------------------ one aggregator above the primary

  /** A dispatched bar that the aggregator takes without emitting. */
  lemma FeedTaken(s: Tower, c: Candle, a: Agg)
    requires Stacked(s.Setups()) && |s.higher| == 1 && s.higher[0].source == c.tf
    requires s.higher[0].Add(c) == (a, []) && a.TryCompleteGap(c) == (a, None)
    ensures Feed(s, c, 0) == s.(higher := [a])
  {
    FedStep(s, c, 0);
    FeedStep(s, c, 0);
    assert s.higher[0 := a] == [a];
    FeedEnd(FeedAt(s, c, 0), c);
  }

  /** One that makes it emit. */
  lemma FeedEmits(s: Tower, c: Candle, a: Agg, rs: seq<AggResult>)
    requires Stacked(s.Setups()) && |s.higher| == 1 && s.higher[0].source == c.tf && s.higher[0].Add(c) == (a, rs) && rs != []
    ensures s.(higher := [a]).Setups() == s.Setups() && AllMade(rs) && Feed(s, c, 0) == HandleAll(s.(higher := [a]), rs)
  {
    FedStep(s, c, 0);
    FeedStep(s, c, 0);
    assert s.higher[0 := a] == [a];
    var t := FeedAt(s, c, 0);
    assert |t.higher| == 1 by { assert |t.Setups()| == |s.Setups()|; }
    FeedEnd(t, c);
  }

  /** One of a timeframe that nothing is built on. */
  lemma FeedNothing(s: Tower, c: Candle)
    requires Stacked(s.Setups()) && |s.higher| == 1 && s.higher[0].source != c.tf
    ensures Feed(s, c, 0) == s
  {
    FeedStep(s, c, 0);
    FeedEnd(s, c);
  }

  /** A repair by a new bar: mark, feed, lift, drain. */
  lemma RepairFeeds(s: Tower, c: Candle, k: nat)
    requires Stacked(s.Setups()) && c.closed && s.Live(c) && FindGap(s.gaps, c.tf, c.openTime) == Some(k)
    ensures var m := Mark(s.(gaps := Resolve(s.gaps, k)), c);
      m.Setups() == s.Setups() && Stacked(Lifted(Feed(m, c, 0)).Setups()) && Repair(s, c) == Drain(Lifted(Feed(m, c, 0)))
  {
    hide Feed, Repair, Drain, Stacked, Dispatch;
    RepairStep(s, c, k);
    DispatchStep(s.(gaps := Resolve(s.gaps, k)), c);
  }

  const LADDER := Tower(NewAgg(M1, M5, POLICY), [NewAgg(M5, M15, POLICY)], map[], [], false, [], [])

  lemma LadderIsFresh()
    ensures Fresh(LADDER) && OnFives(LADDER)
  {
    EarlyIsValid();
    assert |LADDER.Setups()| == 1 && LADDER.Setups()[0] == LADDER.higher[0].Setup();
  }

  lemma LadderStacked(s: Tower)
    requires |s.higher| == 1 && Quarters(s.higher[0])
    ensures Stacked(s.Setups()) && |s.Setups()| == 1
  {
  }

  // ------------------------------------------------------------------ a drain behind an open gap

  /** A gap on the first date, a bar on the second, a gap on the third; then the broker's bar for the first. */
  const BEHIND_GAP := [Minute(MinuteAt(Late(0))), Minute(MinuteAt(Late(1))), Minute(MinuteAt(Late(1) + 60)),
                       Minute(MinuteAt(Late(2))), Minute(MinuteAt(Late(3))), BrokerBar(Five(Late(0)))]

  /** Before the broker's bar comes. */
  function Waiting(): Tower {
    LADDER.(primary := LADDER.primary.(bucket := Some(Half(3)), lastEmitted := Some(Late(2)), gapBuckets := map[Late(0) := Half(0)][Late(2) := Half(2)]),
            gaps := [LateGap(0), LateGap(2)], suspended := true, deferred := [LateBar(1)])
  }

  lemma Waits1()
    ensures OnFives(AfterThree()) && RunSteps(LADDER, BEHIND_GAP[..3]) == AfterThree()
  {
    hide POLICY, Half, Perform, Stacked, Bucket.ResultOf, Late, Tower.Setups, Agg.Valid, LateBar;
    LadderIsFresh();
    LatesApart(0, 1);
    HalfRecord(0);
    StepOpens(LADDER, 0);
    var one := LADDER.(primary := LADDER.primary.(bucket := Some(Half(0))));
    StepFindsGap(one, Half(0), 1);
    EmptyLeft([LateGap(0)]);
    var two := one.(primary := one.primary.(bucket := Some(Half(1)), lastEmitted := Some(Late(0)), gapBuckets := map[Late(0) := Half(0)]),
                    suspended := true, gaps := [LateGap(0)]);
    StepDefers(two, 1);
    EmptyLeft([LateBar(1)]);
    RunThree(LADDER, BEHIND_GAP[0], BEHIND_GAP[1], BEHIND_GAP[2]);
    assert BEHIND_GAP[..3] == [BEHIND_GAP[0], BEHIND_GAP[1], BEHIND_GAP[2]];
  }

  function AfterThree(): Tower {
    LADDER.(primary := LADDER.primary.(lastEmitted := Some(Late(1)), gapBuckets := map[Late(0) := Half(0)]),
            gaps := [LateGap(0)], suspended := true, deferred := [LateBar(1)])
  }

  lemma Waits2()
    ensures OnFives(Waiting()) && Perform(Perform(AfterThree(), BEHIND_GAP[3]), BEHIND_GAP[4]) == Waiting()
  {
    hide POLICY, Half, Perform, Stacked, Bucket.ResultOf, Late, Tower.Setups, Agg.Valid, LateBar;
    Waits1();
    LatesApart(0, 1);
    LatesApart(0, 2);
    LatesApart(1, 2);
    LatesApart(2, 3);
    HalfRecord(2);
    var s := AfterThree();
    StepOpens(s, 2);
    StepFindsGap(s.(primary := s.primary.(bucket := Some(Half(2)))), Half(2), 3);
    assert [LateGap(0)] + [LateGap(2)] == [LateGap(0), LateGap(2)];
  }

  /** The first date's quarter, made by the broker's bar, and the second date's, made by the deferred one. */
  function FirstQuarter(): Candle { QuarterOf(0, Five(Late(0))) }

  function SecondQuarter(): Candle { QuarterOf(1, LateBar(1)) }

  lemma QuarterIs(d: int, c: Candle)
    ensures QuarterOf(d, c).tf == M15 && QuarterOf(d, c).openTime == Late(d) && QuarterOf(d, c).closed
  {
  }

  /** A bar of a date handed to the tower while suspended: its quarter is deferred. */
  lemma SuspendedFeed(s: Tower, d: int, c: Candle)
    requires |s.higher| == 1 && Quarters(s.higher[0]) && s.higher[0].bucket.None? && Newer(s.higher[0], Late(d)) && s.suspended
    requires c.openTime == Late(d) && c.tf == M5
    ensures Stacked(s.Setups())
    ensures Feed(s, c, 0) == s.(higher := [s.higher[0].(lastEmitted := Some(Late(d)))], deferred := s.deferred + [QuarterOf(d, c)])
  {
    hide POLICY, Late, Bucket.ResultOf, Bucket.IsComplete, Bucket.ReachesEnd, Single, Feed, Handle, HandleAll, Agg.Add, Stacked, QuarterOf;
    LadderStacked(s);
    Alone(s.higher[0], d, c);
    SingleIsBar(d, c);
    var r := Single(d, c).ResultOf(M15).value;
    var a := s.higher[0].(lastEmitted := Some(Late(d)));
    FeedEmits(s, c, a, [r]);
    var fed := s.(higher := [a]);
    HandleAllCons(fed, [r]);
    HandleBarIs(fed, r);
    assert [r][1..] == [];
    HandleAllNone(Handle(fed, r));
  }

  /** After the broker's bar has been dispatched, as the drain begins. */
  function BeforeDrain(): Tower {
    Waiting().(gaps := [Closed(0), LateGap(2)], lastClosed := map[M5 := Late(0)], log := [Five(Late(0))],
               higher := [LADDER.higher[0].(lastEmitted := Some(Late(0)))], deferred := [LateBar(1), FirstQuarter()])
  }

  /** The gap of the first date resolved, and the broker's bar dispatched. */
  function Marked0(): Tower { Waiting().(gaps := [Closed(0), LateGap(2)], lastClosed := map[M5 := Late(0)], log := [Five(Late(0))]) }

  lemma BrokerBarFed()
    ensures Stacked(Marked0().Setups()) && Feed(Marked0(), Five(Late(0)), 0) == BeforeDrain()
  {
    hide POLICY, Late, Half, LateBar, Feed, Stacked, QuarterOf;
    SuspendedFeed(Marked0(), 0, Five(Late(0)));
    assert [LateBar(1)] + [FirstQuarter()] == [LateBar(1), FirstQuarter()];
  }

  lemma BrokerBarDispatched()
    requires Stacked(Waiting().Setups()) && Stacked(BeforeDrain().Setups())
    ensures Perform(Waiting(), BrokerBar(Five(Late(0)))) == Drain(BeforeDrain())
  {
    hide POLICY, Late, Half, LateBar, Feed, Repair, Drain, Stacked, QuarterOf, Mark, Tower.Setups, Tower.FirstUnresolved;
    var s, c := Waiting(), Five(Late(0));
    assert FindGap(s.gaps, M5, Late(0)) == Some(0);
    RepairFeeds(s, c, 0);
    FirstMarked(Mark(s.(gaps := Resolve(s.gaps, 0)), c));
    BrokerBarFed();
    StillOpen();
  }

  lemma FirstMarked(m: Tower)
    requires m == Mark(Waiting().(gaps := Resolve(Waiting().gaps, 0)), Five(Late(0)))
    ensures m == Marked0()
  {
    hide Half, LateBar, POLICY, Late;
    EmptyLeft([Five(Late(0))]);
  }

  lemma StillOpen()
    ensures BeforeDrain().FirstUnresolved() == Some(LateGap(2)) && Lifted(BeforeDrain()) == BeforeDrain()
  {
    assert [Closed(0), LateGap(2)][1..] == [LateGap(2)];
  }

  lemma DrainOrder()
    ensures Sort(BeforeDrain().deferred, DrainKey) == [FirstQuarter(), LateBar(1)]
  {
    LatesApart(0, 1);
    LateBarIs(1);
    QuarterIs(0, Five(Late(0)));
    hide LateBar, QuarterOf, Late;
    var x, y := LateBar(1), FirstQuarter();
    assert [x, y][1..] == [y] && [y][1..] == [];
    assert Sort([y], DrainKey) == [y];
    assert Insert(x, [y], DrainKey) == [y] + Insert(x, [], DrainKey);
  }

  /** The tower after the drain. */
  function Drained(): Tower {
    BeforeDrain().(lastClosed := map[M5 := Late(1), M15 := Late(0)], log := [Five(Late(0)), FirstQuarter(), LateBar(1)],
                   higher := [LADDER.higher[0].(lastEmitted := Some(Late(1)))], deferred := [])
  }

  lemma FirstQuarterGoesOut()
    ensures Stacked(BeforeDrain().Setups()) && Dispatch(BeforeDrain(), FirstQuarter()) == Mark(BeforeDrain(), FirstQuarter())
    ensures Mark(BeforeDrain(), FirstQuarter()) ==
              BeforeDrain().(lastClosed := map[M5 := Late(0)][M15 := Late(0)], log := [Five(Late(0)), FirstQuarter()])
  {
    hide POLICY, Late, Half, LateBar, Feed, Dispatch, Stacked, QuarterOf;
    var s, c := BeforeDrain(), FirstQuarter();
    LadderStacked(s);
    QuarterIs(0, Five(Late(0)));
    DispatchStep(s, c);
    FeedNothing(Mark(s, c), c);
  }

  lemma SecondBarGoesOut(s: Tower)
    requires s == BeforeDrain().(lastClosed := map[M5 := Late(0)][M15 := Late(0)], log := [Five(Late(0)), FirstQuarter()])
    ensures Stacked(s.Setups())
    ensures Dispatch(s, LateBar(1)) == Drained().(deferred := [LateBar(1), FirstQuarter(), SecondQuarter()])
  {
    hide POLICY, Late, Half, LateBar, Feed, Dispatch, Stacked, QuarterOf;
    LadderStacked(s);
    LateBarIs(1);
    LatesApart(0, 1);
    var c := LateBar(1);
    DispatchStep(s, c);
    SuspendedFeed(Mark(s, c), 1, c);
    assert map[M5 := Late(0)][M15 := Late(0)][M5 := Late(1)] == map[M5 := Late(1), M15 := Late(0)];
    assert [Five(Late(0)), FirstQuarter()] + [c] == [Five(Late(0)), FirstQuarter(), c];
    assert [c, FirstQuarter()] + [SecondQuarter()] == [c, FirstQuarter(), SecondQuarter()];
  }

  lemma DrainsBoth()
    ensures Stacked(BeforeDrain().Setups()) && Drain(BeforeDrain()) == Drained()
  {
    hide POLICY, Late, Half, LateBar, Dispatch, Stacked, QuarterOf, Sort, Drain, DrainList, Mark;
    var s, next := BeforeDrain(), Some(LateGap(2));
    var x, y := FirstQuarter(), LateBar(1);
    LadderStacked(s);
    StillOpen();
    DrainOrder();
    DrainIs(s);
    LatesApart(0, 2);
    LatesApart(1, 2);
    LateBarIs(1);
    QuarterIs(0, Five(Late(0)));
    assert !Waits(x, next) && !Waits(y, next);
    assert [x, y][1..] == [y] && [y][1..] == [];
    DrainStep(s, [x, y], next);
    FirstQuarterGoesOut();
    var t := Dispatch(s, x);
    SecondBarGoesOut(t);
    DrainStep(t, [y], next);
    LadderStacked(Drained().(deferred := [y, x, SecondQuarter()]));
    DrainEnd(Dispatch(t, y), next);
    assert Kept([y], next) == [] && Kept([x, y], next) == [];
  }

  /** LOST BEHIND A GAP: the deferred bar of the second date is drained while the third date's gap is open. The
      quarter it completes is closed in its aggregator for good, and is neither dispatched nor deferred. */
  lemma QuarterLostBehindGap()
    ensures Fresh(LADDER) && forall i :: 0 <= i < |BEHIND_GAP| ==> StepOk(BEHIND_GAP[i])
    ensures var t := RunSteps(LADDER, BEHIND_GAP);
      && t == Drained() && t.log == [Five(Late(0)), FirstQuarter(), LateBar(1)] && t.deferred == [] && t.suspended
      && t.higher[0].lastEmitted == Some(Late(1)) && t.higher[0].bucket.None? && t.higher[0].gapBuckets == map[]
      && SecondQuarter() !in t.log && SecondQuarter().openTime == Late(1) && SecondQuarter().tf == M15
  {
    hide POLICY, Late, Half, LateBar, Stacked, QuarterOf, RunSteps, Perform, Drain, Agg.Valid, Fresh;
    LadderIsFresh();
    Waits1();
    Waits2();
    LadderStacked(Waiting());
    LadderStacked(BeforeDrain());
    BrokerBarDispatched();
    DrainsBoth();
    LatesApart(0, 1);
    LateBarIs(1);
    QuarterIs(0, Five(Late(0)));
    QuarterIs(1, LateBar(1));
    BehindSlices();
    RunSnoc(LADDER, BEHIND_GAP[..3], BEHIND_GAP[3]);
    RunSnoc(LADDER, BEHIND_GAP[..4], BEHIND_GAP[4]);
    RunSnoc(LADDER, BEHIND_GAP[..5], BEHIND_GAP[5]);
  }

  lemma BehindSlices()
    ensures BEHIND_GAP[..4] == BEHIND_GAP[..3] + [BEHIND_GAP[3]] && BEHIND_GAP[..5] == BEHIND_GAP[..4] + [BEHIND_GAP[4]]
    ensures BEHIND_GAP == BEHIND_GAP[..5] + [BEHIND_GAP[5]]
  {
  }

  /** The drain that loses it has all its bars in one bucket, as `CompletedKeptIffNotSuspended` asks. */
  lemma ItIsOneBucket()
    ensures OneBucket(BeforeDrain(), [Late(1)])
  {
    hide POLICY, Late, Half, LateBar, Stacked, QuarterOf, Waits;
    var s := BeforeDrain();
    LadderStacked(s);
    LateBuckets(1);
    LateBarIs(1);
    QuarterIs(0, Five(Late(0)));
    LatesApart(0, 1);
  }

  // ------------------------------------------------------------------ a gap found while draining

  /** A lone minute at 23:10, the two of 23:15, and the broker's bar for 23:10. No other gap is ever open. */
  const GAP_WHILE_DRAINING := [Minute(MinuteAt(TEN)), Minute(MinuteAt(Late(0))), Minute(MinuteAt(Late(0) + 60)), BrokerBar(Five(TEN))]

  function TenGap(resolved: bool): GapRecord
  {
    LoneMinuteIsGap();
    RecordOf(LoneMinute().ResultOf(M5).value).(resolved := resolved)
  }

  /** Before the broker's bar comes. */
  function OneWaits(): Tower {
    LADDER.(primary := LADDER.primary.(lastEmitted := Some(Late(0)), gapBuckets := map[TEN := LoneMinute()]),
            gaps := [TenGap(false)], suspended := true, deferred := [LateBar(0)])
  }

  lemma TenGapIs(resolved: bool)
    ensures TenGap(resolved).tf == M5 && TenGap(resolved).openTime == TEN && TenGap(resolved).resolved == resolved
    ensures LoneMinute().ResultOf(M5).Some? && RecordOf(LoneMinute().ResultOf(M5).value) == TenGap(false)
  {
    LoneMinuteIsGap();
  }

  lemma LoneMinuteStep()
    ensures var t := LADDER.(primary := LADDER.primary.(bucket := Some(LoneMinute())));
      OnFives(t) && Perform(LADDER, Minute(MinuteAt(TEN))) == t
  {
    hide POLICY, Half, Perform, Agg.Add, Stacked, Aligned, LoneMinute, Agg.TryCompleteGap, Agg.Valid, Fresh;
    LadderIsFresh();
    LoneMinuteOpens();
    var t := LADDER.(primary := LADDER.primary.(bucket := Some(LoneMinute())));
    NoGaps(t.primary, MinuteAt(TEN));
    TakenIn(LADDER, MinuteAt(TEN), t.primary);
    StaysOnFives(LADDER, t);
  }

  lemma NoGaps(a: Agg, c: Candle)
    requires a.gapBuckets == map[]
    ensures a.TryCompleteGap(c) == (a, None)
  {
  }

  lemma OneWaitsReached()
    ensures RunSteps(LADDER, GAP_WHILE_DRAINING[..3]) == OneWaits()
  {
    hide POLICY, Half, Perform, Stacked, Bucket.ResultOf, Tower.Setups, Agg.Valid, LateBar, LoneMinute, TenGap, Fresh;
    LadderIsFresh();
    LoneMinuteStep();
    LoneMinuteIsGap();
    TenGapIs(false);
    var one := LADDER.(primary := LADDER.primary.(bucket := Some(LoneMinute())));
    StepFindsGap(one, LoneMinute(), 0);
    EmptyLeft([TenGap(false)]);
    var two := one.(primary := one.primary.(bucket := Some(Half(0)), lastEmitted := Some(TEN), gapBuckets := map[TEN := LoneMinute()]),
                    suspended := true, gaps := [TenGap(false)]);
    StepDefers(two, 0);
    EmptyLeft([LateBar(0)]);
    RunThree(LADDER, GAP_WHILE_DRAINING[0], GAP_WHILE_DRAINING[1], GAP_WHILE_DRAINING[2]);
    assert GAP_WHILE_DRAINING[..3] == [GAP_WHILE_DRAINING[0], GAP_WHILE_DRAINING[1], GAP_WHILE_DRAINING[2]];
  }

  /** The broker's bar has been dispatched, no gap is open and nothing is suspended: the drain begins. */
  function Lifted0(): Tower {
    OneWaits().(gaps := [TenGap(true)], suspended := false, lastClosed := map[M5 := TEN], log := [Five(TEN)],
                higher := [LADDER.higher[0].(bucket := Some(LoneFive()))])
  }

  lemma LoneFiveFed(s: Tower)
    requires s.higher == LADDER.higher
    ensures Stacked(s.Setups()) && Feed(s, Five(TEN), 0) == s.(higher := [LADDER.higher[0].(bucket := Some(LoneFive()))])
  {
    hide POLICY, LoneFive, Feed, Agg.Add, Agg.TryCompleteGap, Stacked;
    LadderStacked(s);
    LoneFiveOpens();
    var a := LADDER.higher[0].(bucket := Some(LoneFive()));
    NoGaps(a, Five(TEN));
    FeedTaken(s, Five(TEN), a);
  }

  lemma TenDispatched()
    requires Stacked(OneWaits().Setups()) && Stacked(Lifted0().Setups())
    ensures Perform(OneWaits(), BrokerBar(Five(TEN))) == Drain(Lifted0())
  {
    hide POLICY, Half, LateBar, Feed, Repair, Drain, Stacked, TenGap, LoneFive, LoneMinute, Late, Mark, Tower.Setups, Tower.FirstUnresolved, Lifted;
    TenGapIs(false);
    TenGapIs(true);
    var s, c := OneWaits(), Five(TEN);
    assert FindGap(s.gaps, M5, TEN) == Some(0);
    RepairFeeds(s, c, 0);
    TenMarked(Mark(s.(gaps := Resolve(s.gaps, 0)), c));
    LoneFiveFed(Mark(s.(gaps := Resolve(s.gaps, 0)), c));
    LiftsTen();
  }

  lemma LiftsTen()
    ensures Lifted(Lifted0().(suspended := true)) == Lifted0()
  {
    NothingOpen();
    hide TenGap, LoneFive, LoneMinute, Late, LateBar, POLICY;
  }

  lemma TenMarked(m: Tower)
    requires m == Mark(OneWaits().(gaps := Resolve(OneWaits().gaps, 0)), Five(TEN))
    ensures m == OneWaits().(gaps := [TenGap(true)], lastClosed := map[M5 := TEN], log := [Five(TEN)])
  {
    TenGapResolved();
    hide TenGap, LoneMinute, LateBar, POLICY, Late;
    EmptyLeft([Five(TEN)]);
  }

  lemma TenGapResolved()
    ensures TenGap(false).(resolved := true) == TenGap(true)
  {
  }

  function FiveGap(): GapRecord
  {
    LoneFiveIsGap();
    RecordOf(LoneFive().ResultOf(M15).value)
  }

  /** The bar of 23:15 closes the quarter of 23:00 as a gap, which suspends the tower, and then completes its own. */
  function AfterBar(): Tower {
    Lifted0().(gaps := [TenGap(true), FiveGap()], suspended := true, lastClosed := map[M5 := Late(0)], log := [Five(TEN), LateBar(0)],
               higher := [LADDER.higher[0].(lastEmitted := Some(Late(0)), gapBuckets := map[TEN - 600 := LoneFive()])])
  }

  lemma BarFindsGap(s: Tower)
    requires s == Lifted0().(lastClosed := map[M5 := Late(0)], log := [Five(TEN), LateBar(0)])
    ensures Stacked(s.Setups()) && Feed(s, LateBar(0), 0) == AfterBar().(deferred := [LateBar(0), QuarterOf(0, LateBar(0))])
  {
    hide POLICY, Bucket.ResultOf, Bucket.IsComplete, Single, Feed, Handle, HandleAll, Agg.Add, Stacked, QuarterOf, LateBar, LoneFive, TenGap;
    LadderStacked(s);
    LateBarIs(0);
    LoneFiveIsGap();
    AfterGap(s.higher[0], LoneFive(), 0, LateBar(0));
    SingleIsBar(0, LateBar(0));
    var g, r := LoneFive().ResultOf(M15).value, Single(0, LateBar(0)).ResultOf(M15).value;
    var a := AfterBar().higher[0];
    FeedEmits(s, LateBar(0), a, [g] + [r]);
    HandlesBoth(s.(higher := [a]), g, r);
    assert [TenGap(true)] + [FiveGap()] == [TenGap(true), FiveGap()];
    assert [LateBar(0)] + [QuarterOf(0, LateBar(0))] == [LateBar(0), QuarterOf(0, LateBar(0))];
  }

  /** A gap and then a complete bar: the bar is deferred. */
  lemma HandlesBoth(s: Tower, g: AggResult, r: AggResult)
    requires Stacked(s.Setups()) && AllMade([g] + [r]) && g.status == GapDetected && r.status == Complete && r.candle.Some?
    ensures HandleAll(s, [g] + [r]) == s.(gaps := s.gaps + [RecordOf(g)], suspended := true, deferred := s.deferred + [r.candle.value])
  {
    hide Handle, HandleAll, Stacked;
    var rs := [g] + [r];
    assert rs[0] == g && rs[1..] == [r] && [r][1..] == [] && rs[1] == r;
    HandleAllCons(s, rs);
    HandleGapIs(s, g);
    var t := Handle(s, g);
    HandleAllCons(t, [r]);
    HandleBarIs(t, r);
    HandleAllNone(Handle(t, r));
  }

  lemma BarGoesOut()
    requires Stacked(Lifted0().Setups())
    ensures Dispatch(Lifted0(), LateBar(0)) == AfterBar().(deferred := [LateBar(0), QuarterOf(0, LateBar(0))])
  {
    hide POLICY, Half, LateBar, Stacked, QuarterOf, Dispatch, Feed, TenGap, LoneFive, LoneMinute, Late, Tower.Setups;
    var s, c := Lifted0(), LateBar(0);
    LateBarIs(0);
    TenBeforeLate();
    DispatchStep(s, c);
    assert Mark(s, c) == s.(lastClosed := map[M5 := Late(0)], log := [Five(TEN), c]) by {
      assert map[M5 := TEN][M5 := Late(0)] == map[M5 := Late(0)];
      assert [Five(TEN)] + [c] == [Five(TEN), c];
    }
    BarFindsGap(Mark(s, c));
  }

  lemma NothingOpen()
    ensures Lifted0().FirstUnresolved() == None
  {
    TenGapIs(true);
    hide TenGap, LoneFive, LoneMinute, Late, LateBar, POLICY;
    assert [TenGap(true)][1..] == [];
  }

  lemma SortOne(c: Candle)
    ensures Sort([c], DrainKey) == [c] && [c][1..] == [] && Kept([c], None) == []
  {
  }

  lemma BarDrained()
    requires Stacked(Lifted0().Setups())
    ensures Drain(Lifted0()) == AfterBar().(deferred := [])
  {
    hide POLICY, Half, LateBar, Stacked, QuarterOf, Drain, DrainList, Dispatch, Sort, Kept, TenGap, LoneFive, LoneMinute, Late, Tower.Setups, Tower.FirstUnresolved;
    var s, c := Lifted0(), LateBar(0);
    NothingOpen();
    SortOne(c);
    DrainIs(s);
    assert c in s.deferred;
    DrainStep(s, [c], None);
    BarGoesOut();
    DrainEnd(Dispatch(s, c), None);
  }

  lemma TenBeforeLate()
    ensures TEN < Late(0)
  {
  }

  /** LOST WITHOUT A GAP BEFORE: no gap is open and nothing is suspended when the drain begins, but the drained
      bar first closes an incomplete quarter; the quarter it then completes is neither dispatched nor deferred. */
  lemma QuarterLostWithoutGapBefore()
    ensures Fresh(LADDER) && forall i :: 0 <= i < |GAP_WHILE_DRAINING| ==> StepOk(GAP_WHILE_DRAINING[i])
    ensures Lifted0().FirstUnresolved().None? && !Lifted0().suspended && Stacked(Lifted0().Setups())
    ensures var t := RunSteps(LADDER, GAP_WHILE_DRAINING);
      && t == Drain(Lifted0()) && t.log == [Five(TEN), LateBar(0)] && t.deferred == [] && t.suspended
      && t.higher[0].lastEmitted == Some(Late(0)) && t.higher[0].bucket.None?
      && QuarterOf(0, LateBar(0)) !in t.log && QuarterOf(0, LateBar(0)).openTime == Late(0) && QuarterOf(0, LateBar(0)).tf == M15
  {
    hide POLICY, Half, LateBar, Stacked, QuarterOf, RunSteps, Perform, Drain, Agg.Valid, Fresh, TenGap, LoneFive, LoneMinute, Late,
         Tower.Setups, Tower.FirstUnresolved;
    LadderIsFresh();
    OneWaitsReached();
    LadderStacked(OneWaits());
    LadderStacked(Lifted0());
    NothingOpen();
    TenDispatched();
    BarDrained();
    LateBarIs(0);
    QuarterIs(0, LateBar(0));
    assert GAP_WHILE_DRAINING == GAP_WHILE_DRAINING[..3] + [GAP_WHILE_DRAINING[3]];
    RunSnoc(LADDER, GAP_WHILE_DRAINING[..3], GAP_WHILE_DRAINING[3]);
  }
}
