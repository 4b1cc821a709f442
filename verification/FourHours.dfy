/** Four-hour buckets of an exchange are anchored at each day's start, so a bucket laid out before a start, or
    after an end, can reach into the neighbouring day's session. Exactly when none does. */
module FourHours {
  import opened Timeline
  import opened Calendar
  import opened Buckets

  /** The four-hour step from `base` that holds an instant. */
  function StepStart(base: Instant, ts: Instant): Instant { base + H4_SECONDS * ((ts - base) / H4_SECONDS) }

  /** A whole number of steps from `base`. */
  predicate IsStep(base: Instant, at: Instant) { (at - base) % H4_SECONDS == 0 }

  lemma StepFacts(base: Instant, ts: Instant)
    ensures var at := StepStart(base, ts); at <= ts < at + H4_SECONDS && IsStep(base, at) && (base <= ts ==> base <= at)
  {
  }

  /** The step that holds an instant is the only one that does. */
  lemma StepIs(base: Instant, ts: Instant, at: Instant)
    requires at <= ts < at + H4_SECONDS && IsStep(base, at)
    ensures StepStart(base, ts) == at
  {
    SameCell((ts - base) / H4_SECONDS, (at - base) / H4_SECONDS, H4_SECONDS, ts - base);
  }

  lemma StepsInOrder(base: Instant, x: Instant, y: Instant)
    requires x <= y
    ensures StepStart(base, x) <= StepStart(base, y)
  {
  }

  /** Where the bucket before the start of a date's trading day begins. */
  function PreOpen(cal: SessionCalendar, date: int): Instant { cal.DaySpan(date).start - H4_SECONDS }

  /** Some instant of the date precedes its trading day. */
  predicate HasPreOpen(cal: SessionCalendar, date: int) { Combine(date, 0) < cal.DaySpan(date).start }

  /** The previous day's four-hour steps meet the pre-open bucket on a step. */
  predicate OnStep(cal: SessionCalendar, date: int) { IsStep(cal.DaySpan(date - 1).start, PreOpen(cal, date)) }

  /** The previous session has ended when the pre-open bucket begins, or a step of its own begins there too. */
  predicate PreOpenClear(cal: SessionCalendar, date: int) {
    HasPreOpen(cal, date) && cal.IsTradingDay(date - 1) ==> cal.DaySpan(date - 1).end <= PreOpen(cal, date) || OnStep(cal, date)
  }

  /** The last bucket laid out on the previous date has ended when the session starts. */
  predicate AfterCloseClear(cal: SessionCalendar, date: int) {
    cal.IsTradingDay(date) ==> cal.H4Bucket(Combine(date, 0) - 1).end <= cal.DaySpan(date).start
  }

  ghost predicate DaysApart(cal: SessionCalendar) { forall d :: Apart(cal, d) }

  predicate Apart(cal: SessionCalendar, date: int) { PreOpenClear(cal, date) && AfterCloseClear(cal, date) }

  // ------------------------------------------------------------------ the layout, date by date

  /** The bucket of an instant, from the trading day of its local date. */
  lemma BucketIs(cal: SessionCalendar, ts: Instant, date: int)
    requires cal.WithinDay() && Combine(date, 0) <= ts < Combine(date + 1, 0)
    ensures var s := cal.DaySpan(date);
      && Combine(date, 0) <= s.start < s.end <= Combine(date + 1, 0)
      && (ts < s.start ==> cal.H4Bucket(ts) == Span(s.start - H4_SECONDS, s.start))
      && (s.start <= ts ==>
            var start := StepStart(s.start, ts);
            s.start <= start <= ts < start + H4_SECONDS && IsStep(s.start, start)
            && cal.H4Bucket(ts) == Span(start, if start < s.end then Min(start + H4_SECONDS, s.end) else start + H4_SECONDS))
  {
    DateIff(ts, date);
    SpanWithin(cal, date);
    StepFacts(cal.DaySpan(date).start, ts);
    hide IsStep, SessionCalendar.DaySpan, SessionCalendar.WithinDay;
  }

  // ------------------------------------------------------------------ apart: one bucket each

  lemma SharedWithLater(cal: SessionCalendar, t: Instant, other: Instant, d: int, e: int)
    requires cal.WithinDay() && Apart(cal, e) && cal.IsOpen(t) && d < e
    requires Combine(d, 0) <= t < Combine(d + 1, 0) && Combine(e, 0) <= other < Combine(e + 1, 0)
    requires cal.H4Bucket(other).start <= t < cal.H4Bucket(other).end
    ensures cal.H4Bucket(other).start == cal.H4Bucket(t).start
  {
    hide StepStart, IsStep, SessionCalendar.DaySpan, SessionCalendar.H4Bucket, SessionCalendar.IsOpen, SessionCalendar.WithinDay, SessionCalendar.IsTradingDay;
    BucketIs(cal, t, d);
    BucketIs(cal, other, e);
    OpenWithin(cal, d);
    if e == d + 1 && OnStep(cal, e) { StepIs(cal.DaySpan(d).start, t, PreOpen(cal, e)); }
    assert e == d + 1;
  }

  lemma NotSharedWithEarlier(cal: SessionCalendar, t: Instant, other: Instant, d: int, e: int)
    requires cal.WithinDay() && Apart(cal, d) && cal.IsOpen(t) && e < d
    requires Combine(d, 0) <= t < Combine(d + 1, 0) && Combine(e, 0) <= other < Combine(e + 1, 0)
    ensures !(cal.H4Bucket(other).start <= t < cal.H4Bucket(other).end)
  {
    hide StepStart, IsStep, SessionCalendar.DaySpan, SessionCalendar.H4Bucket, SessionCalendar.IsOpen, SessionCalendar.WithinDay, SessionCalendar.IsTradingDay;
    BucketIs(cal, other, e);
    BucketIs(cal, Combine(e + 1, 0) - 1, e);
    OpenWithin(cal, d);
    if e == d - 1 && cal.DaySpan(e).start <= other { StepsInOrder(cal.DaySpan(e).start, other, Combine(e + 1, 0) - 1); }
  }

  lemma SharedSameDay(cal: SessionCalendar, t: Instant, other: Instant, d: int)
    requires cal.WithinDay() && cal.IsOpen(t)
    requires Combine(d, 0) <= t < Combine(d + 1, 0) && Combine(d, 0) <= other < Combine(d + 1, 0)
    requires cal.H4Bucket(other).start <= t < cal.H4Bucket(other).end
    ensures cal.H4Bucket(other).start == cal.H4Bucket(t).start
  {
    hide StepStart, IsStep, SessionCalendar.DaySpan, SessionCalendar.H4Bucket, SessionCalendar.IsOpen, SessionCalendar.WithinDay, SessionCalendar.IsTradingDay;
    BucketIs(cal, t, d);
    BucketIs(cal, other, d);
    OpenWithin(cal, d);
    if cal.DaySpan(d).start <= other { StepIs(cal.DaySpan(d).start, t, cal.H4Bucket(other).start); }
  }

  /** Days apart: a bucket that holds an open instant starts where the instant's own bucket does. */
  lemma SharedOpenInstant(cal: SessionCalendar, t: Instant, other: Instant)
    requires cal.WithinDay() && DaysApart(cal) && cal.IsOpen(t)
    requires cal.H4Bucket(other).start <= t < cal.H4Bucket(other).end
    ensures cal.H4Bucket(other).start == cal.H4Bucket(t).start
  {
    var d, e := LocalDate(t), LocalDate(other);
    DateIff(t, d);
    DateIff(other, e);
    assert Apart(cal, d) && Apart(cal, e);
    hide SessionCalendar.H4Bucket, SessionCalendar.IsOpen, SessionCalendar.WithinDay, Apart;
    if d < e { SharedWithLater(cal, t, other, d, e); }
    else if e < d { NotSharedWithEarlier(cal, t, other, d, e); }
    else { SharedSameDay(cal, t, other, d); }
  }

  // ------------------------------------------------------------------ not apart: two buckets

  /** An aligned open instant expected by a bucket that starts elsewhere. */
  ghost predicate ExpectedElsewhere(cal: SessionCalendar, source: Timeframe, t: Instant, other: Instant) {
    && Aligned(t, source) && cal.IsOpen(t) && t in Exchange(cal).BucketExpected(other, H4, source)
    && cal.H4Bucket(other).start != cal.H4Bucket(t).start
  }

  /** The first open instant of the previous session that the pre-open bucket meets. */
  function FirstMet(cal: SessionCalendar, date: int): Instant { Max(PreOpen(cal, date), cal.DaySpan(date - 1).start) }

  lemma MetElsewhere(cal: SessionCalendar, date: int)
    requires cal.WithinDay() && !PreOpenClear(cal, date)
    ensures var t := FirstMet(cal, date);
      cal.IsOpen(t) && PreOpen(cal, date) <= t < cal.DaySpan(date).start
      && cal.H4Bucket(Combine(date, 0)) == Span(PreOpen(cal, date), cal.DaySpan(date).start) && cal.H4Bucket(t).start != PreOpen(cal, date)
  {
    hide StepStart, IsStep, SessionCalendar.DaySpan, SessionCalendar.H4Bucket, SessionCalendar.IsOpen, SessionCalendar.WithinDay, SessionCalendar.IsTradingDay;
    var t, base := FirstMet(cal, date), cal.DaySpan(date - 1).start;
    SpanWithin(cal, date - 1);
    BucketIs(cal, Combine(date, 0), date);
    BucketIs(cal, t, date - 1);
    OpenWithin(cal, date - 1);
  }

  lemma ReachesBack(cal: SessionCalendar, source: Timeframe, date: int)
    requires source.Rank() < H4.Rank() && cal.WithinDay() && cal.StartsOn(source) && !PreOpenClear(cal, date)
    ensures ExpectedElsewhere(cal, source, FirstMet(cal, date), Combine(date, 0))
  {
    hide SessionCalendar.DaySpan, SessionCalendar.H4Bucket, SessionCalendar.IsOpen, SessionCalendar.WithinDay, PreOpenClear, Aligned, Policy.Expected;
    MetElsewhere(cal, date);
    assert cal.StartsAligned(date, source) && cal.StartsAligned(date - 1, source);
    StepsOnGrid(cal.DaySpan(date).start, -1, source);
    ExpectedIff(Exchange(cal), PreOpen(cal, date), cal.DaySpan(date).start, source, FirstMet(cal, date));
  }

  lemma ReachesForward(cal: SessionCalendar, source: Timeframe, date: int)
    requires source.Rank() < H4.Rank() && cal.WithinDay() && cal.StartsOn(source) && !AfterCloseClear(cal, date)
    ensures ExpectedElsewhere(cal, source, cal.DaySpan(date).start, Combine(date, 0) - 1)
  {
    var t, other := cal.DaySpan(date).start, Combine(date, 0) - 1;
    BucketIs(cal, other, date - 1);
    BucketIs(cal, t, date);
    OpenWithin(cal, date);
    assert cal.StartsAligned(date, source);
    BucketStartAligned(Exchange(cal), source, H4, other);
    ExpectedIff(Exchange(cal), cal.H4Bucket(other).start, cal.H4Bucket(other).end, source, t);
  }

  /** PARTITION, for four-hour buckets: every open source interval is expected by its own bucket, and by no
      bucket that starts elsewhere if and only if the days are apart. */
  lemma PartitionIff(cal: SessionCalendar, source: Timeframe)
    requires source.Rank() < H4.Rank() && cal.WithinDay() && cal.StartsOn(source)
    ensures forall t :: Aligned(t, source) && cal.IsOpen(t) ==> t in Exchange(cal).BucketExpected(t, H4, source)
    ensures OneBucketEach(Exchange(cal), source, H4) <==> DaysApart(cal)
  {
    var p := Exchange(cal);
    forall t | Aligned(t, source) && cal.IsOpen(t) ensures t in p.BucketExpected(t, H4, source) {
      ExpectedByOwn(p, source, H4, t);
    }
    if DaysApart(cal) {
      forall t, other | t in p.BucketExpected(other, H4, source) && Aligned(t, source) && p.IsOpen(t)
        ensures p.Bucket(other, H4).start == p.Bucket(t, H4).start
      {
        SharedOpenInstant(cal, t, other);
      }
    } else {
      var d :| !Apart(cal, d);
      if !PreOpenClear(cal, d) { ReachesBack(cal, source, d); } else { ReachesForward(cal, source, d); }
    }
  }

  // ------------------------------------------------------------------ it does happen

  /** Regular days from 09:00 to 23:30, and a special session from 02:00 to 10:00 on the second of them. */
  const SPECIAL_NIGHT := SessionCalendar(map[], Session(32400, 61200, 84600), false, map[], map[1 := Hours(7200, 36000)], {}, [], map[], {})

  lemma NightIsRegular()
    ensures SPECIAL_NIGHT.Validated() && SPECIAL_NIGHT.WithinDay() && SPECIAL_NIGHT.StartsOn(H1)
  {
    ValidatedWithinDay(SPECIAL_NIGHT);
    forall d ensures SPECIAL_NIGHT.StartsAligned(d, H1) {
      var h := if d == 1 then 2 else 9;
      assert SPECIAL_NIGHT.DaySpan(d).start == (24 * d + h) * H1.Seconds() - IST_OFFSET;
      GridPoint(24 * d + h, H1);
    }
  }

  lemma NightDays()
    ensures SPECIAL_NIGHT.ResolveDay(0) == (Some(Hours(32400, 84600)), Trading)
    ensures SPECIAL_NIGHT.ResolveDay(1) == (Some(Hours(7200, 36000)), Trading)
  {
  }

  lemma NightSpans()
    ensures SPECIAL_NIGHT.DaySpan(0) == Span(Combine(0, 32400), Combine(0, 84600)) && SPECIAL_NIGHT.IsTradingDay(0)
    ensures SPECIAL_NIGHT.DaySpan(1) == Span(Combine(1, 7200), Combine(1, 36000))
  {
    hide SessionCalendar.ResolveDay;
    NightDays();
  }

  lemma NightIsOpen()
    ensures SPECIAL_NIGHT.IsOpen(Combine(0, 81000))
  {
    hide SessionCalendar.DaySpan, SessionCalendar.IsTradingDay, SessionCalendar.WithinDay;
    NightIsRegular();
    NightSpans();
    OpenWithin(SPECIAL_NIGHT, 0);
  }

  lemma NightMinutes()
    ensures Aligned(Combine(0, 81000), M1) && Aligned(Combine(0, 75600), M1) && Aligned(Combine(0, 79200), M1)
  {
    GridPoint(1350, M1);
    GridPoint(1260, M1);
    GridPoint(1320, M1);
  }

  /** Under a calendar the loader accepts, the open minute 22:30 belongs to its own bucket from 21:00 and is
      expected again by the bucket from 22:00 that the next date lays out before its session. */
  lemma MinuteExpectedTwice()
    ensures var t, other := Combine(0, 81000), Combine(1, 3600);
      && t in Exchange(SPECIAL_NIGHT).BucketExpected(t, H4, M1) && SPECIAL_NIGHT.H4Bucket(t).start == Combine(0, 75600)
      && t in Exchange(SPECIAL_NIGHT).BucketExpected(other, H4, M1) && SPECIAL_NIGHT.H4Bucket(other) == Span(Combine(0, 79200), Combine(1, 7200))
      && !DaysApart(SPECIAL_NIGHT)
  {
    hide SessionCalendar.DaySpan, SessionCalendar.H4Bucket, SessionCalendar.IsOpen, SessionCalendar.WithinDay, SessionCalendar.IsTradingDay,
         SessionCalendar.Validated, SessionCalendar.StartsOn, Aligned, StepStart, Policy.Expected;
    var t, other := Combine(0, 81000), Combine(1, 3600);
    NightIsRegular();
    NightSpans();
    NightIsOpen();
    NightMinutes();
    BucketIs(SPECIAL_NIGHT, t, 0);
    BucketIs(SPECIAL_NIGHT, other, 1);
    StepIs(Combine(0, 32400), t, Combine(0, 75600));
    ExpectedIff(Exchange(SPECIAL_NIGHT), Combine(0, 75600), SPECIAL_NIGHT.H4Bucket(t).end, M1, t);
    ExpectedIff(Exchange(SPECIAL_NIGHT), Combine(0, 79200), Combine(1, 7200), M1, t);
    assert !Apart(SPECIAL_NIGHT, 1);
  }

  // ------------------------------------------------------------------ one bucket per start

  /** The pre-open bucket does not begin with a bucket of the previous session. */
  predicate StartsOnce(cal: SessionCalendar, date: int) {
    !(HasPreOpen(cal, date) && OnStep(cal, date) && cal.DaySpan(date - 1).start <= PreOpen(cal, date) < cal.DaySpan(date - 1).end)
  }

  ghost predicate StartsDistinct(cal: SessionCalendar) { forall d :: StartsOnce(cal, d) }

  lemma SameStart(cal: SessionCalendar, x: Instant, y: Instant, d: int, e: int)
    requires cal.WithinDay() && d <= e && StartsOnce(cal, e) && cal.H4Bucket(x).start == cal.H4Bucket(y).start
    requires Combine(d, 0) <= x < Combine(d + 1, 0) && Combine(e, 0) <= y < Combine(e + 1, 0)
    ensures cal.H4Bucket(x) == cal.H4Bucket(y)
  {
    hide StepStart, IsStep, SessionCalendar.DaySpan, SessionCalendar.H4Bucket, SessionCalendar.IsOpen, SessionCalendar.WithinDay, SessionCalendar.IsTradingDay;
    BucketIs(cal, x, d);
    BucketIs(cal, y, e);
    if d < e {
      assert e == d + 1 && y < cal.DaySpan(e).start && cal.DaySpan(d).start <= x;
      assert OnStep(cal, e);
    }
  }

  lemma TwoBuckets(cal: SessionCalendar, date: int)
    requires cal.WithinDay() && !StartsOnce(cal, date)
    ensures cal.H4Bucket(PreOpen(cal, date)).start == cal.H4Bucket(Combine(date, 0)).start
    ensures cal.H4Bucket(PreOpen(cal, date)) != cal.H4Bucket(Combine(date, 0))
  {
    hide StepStart, IsStep, SessionCalendar.DaySpan, SessionCalendar.H4Bucket, SessionCalendar.IsOpen, SessionCalendar.WithinDay, SessionCalendar.IsTradingDay;
    SpanWithin(cal, date - 1);
    BucketIs(cal, Combine(date, 0), date);
    BucketIs(cal, PreOpen(cal, date), date - 1);
    StepIs(cal.DaySpan(date - 1).start, PreOpen(cal, date), PreOpen(cal, date));
  }

  /** Where a four-hour bucket starts determines the bucket if and only if no pre-open bucket begins with a
      bucket of the session before. */
  lemma KeyDeterminesIff(cal: SessionCalendar)
    requires cal.WithinDay()
    ensures (forall x, y :: cal.H4Bucket(x).start == cal.H4Bucket(y).start ==> cal.H4Bucket(x) == cal.H4Bucket(y)) <==> StartsDistinct(cal)
  {
    if StartsDistinct(cal) {
      forall x, y | cal.H4Bucket(x).start == cal.H4Bucket(y).start ensures cal.H4Bucket(x) == cal.H4Bucket(y) {
        var d, e := LocalDate(x), LocalDate(y);
        DateIff(x, d);
        DateIff(y, e);
        hide SessionCalendar.H4Bucket, SessionCalendar.WithinDay, StartsOnce;
        if d <= e { SameStart(cal, x, y, d, e); } else { SameStart(cal, y, x, e, d); }
      }
    } else {
      var d :| !StartsOnce(cal, d);
      TwoBuckets(cal, d);
    }
  }

  // ------------------------------------------------------------------ order

  lemma SameDayInOrder(cal: SessionCalendar, x: Instant, y: Instant, date: int)
    requires cal.WithinDay() && Combine(date, 0) <= x <= y < Combine(date + 1, 0)
    ensures cal.H4Bucket(x).start <= cal.H4Bucket(y).start
  {
    hide StepStart, IsStep, SessionCalendar.DaySpan, SessionCalendar.H4Bucket, SessionCalendar.IsOpen, SessionCalendar.WithinDay, SessionCalendar.IsTradingDay;
    BucketIs(cal, x, date);
    BucketIs(cal, y, date);
    StepsInOrder(cal.DaySpan(date).start, x, y);
  }

  /** Across a local midnight buckets do not go back. */
  predicate MidnightInOrder(cal: SessionCalendar, date: int) { cal.H4Bucket(Combine(date, 0) - 1).start <= cal.H4Bucket(Combine(date, 0)).start }

  ghost predicate MidnightsInOrder(cal: SessionCalendar) { forall d :: MidnightInOrder(cal, d) }

  lemma LaterDayInOrder(cal: SessionCalendar, x: Instant, y: Instant, d: int, e: int)
    requires cal.WithinDay() && d < e && MidnightInOrder(cal, e)
    requires Combine(d, 0) <= x < Combine(d + 1, 0) && Combine(e, 0) <= y < Combine(e + 1, 0)
    ensures cal.H4Bucket(x).start <= cal.H4Bucket(y).start
  {
    hide StepStart, IsStep, SessionCalendar.DaySpan, SessionCalendar.H4Bucket, SessionCalendar.IsOpen, SessionCalendar.WithinDay, SessionCalendar.IsTradingDay;
    SameDayInOrder(cal, Combine(e, 0), y, e);
    if d == e - 1 {
      SameDayInOrder(cal, x, Combine(e, 0) - 1, d);
    } else {
      BucketIs(cal, x, d);
      BucketIs(cal, Combine(e, 0), e);
    }
  }

  /** Later instants never fall in an earlier four-hour bucket if and only if that holds across every midnight. */
  lemma InOrderIff(cal: SessionCalendar)
    requires cal.WithinDay()
    ensures (forall x, y :: x <= y ==> cal.H4Bucket(x).start <= cal.H4Bucket(y).start) <==> MidnightsInOrder(cal)
  {
    if MidnightsInOrder(cal) {
      forall x, y | x <= y ensures cal.H4Bucket(x).start <= cal.H4Bucket(y).start {
        var d, e := LocalDate(x), LocalDate(y);
        DateIff(x, d);
        DateIff(y, e);
        assert MidnightInOrder(cal, e);
        hide SessionCalendar.H4Bucket, SessionCalendar.WithinDay, MidnightInOrder;
        if d == e { SameDayInOrder(cal, x, y, d); } else { LaterDayInOrder(cal, x, y, d, e); }
      }
    } else {
      var d :| !MidnightInOrder(cal, d);
      assert Combine(d, 0) - 1 <= Combine(d, 0);
    }
  }
}
