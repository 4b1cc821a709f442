/** The exchange calendar: which dates trade, between which hours, and what that makes of an instant. */
module Calendar {
  import opened Timeline
  import opened Gregorian

  const H4_SECONDS := 14400

  type TimeOfDay = t: int | 0 <= t < DAY

  datatype Session = Session(start: TimeOfDay, evening: TimeOfDay, end: TimeOfDay)

  datatype Hours = Hours(start: TimeOfDay, end: TimeOfDay)

  datatype Closure = Full | Morning | Evening

  datatype ClosePeriod = ClosePeriod(first: int, last: int, end: TimeOfDay)

  datatype DateOverride = DateOverride(closed: bool, start: Option<TimeOfDay>, end: Option<TimeOfDay>)

  datatype Reason =
    | Trading | Weekend | FullHoliday | MorningSessionClosed | EveningSessionClosed
    | OutsideTradingHours | SpecialSessionPending | CalendarOutOfRange | ClosedByOverride

  datatype Span = Span(start: Instant, end: Instant)

  /** Dates are days since 1970-01-01; that day was a Thursday, and Monday counts as 0. */
  function Weekday(date: int): int { (date + 3) % 7 }

  /** The end of the first close period that holds the date, else the given end. */
  function PeriodEnd(periods: seq<ClosePeriod>, date: int, otherwise: TimeOfDay): TimeOfDay {
    if periods == [] then otherwise
    else if periods[0].first <= date <= periods[0].last then periods[0].end
    else PeriodEnd(periods[1..], date, otherwise)
  }

  datatype SessionCalendar = SessionCalendar(
    years: map<int, Session>, fallback: Session, weekendClosed: bool,
    holidays: map<int, Closure>, specials: map<int, Hours>, pending: set<int>,
    closePeriods: seq<ClosePeriod>, overrides: map<int, DateOverride>, legacyHolidays: set<int>)
  {
    predicate Covers(date: int) { years == map[] || YearOf(date) in years }

    function SessionOf(date: int): Session {
      if YearOf(date) in years then years[YearOf(date)] else fallback
    }

    function RegularEnd(date: int): TimeOfDay { PeriodEnd(closePeriods, date, SessionOf(date).end) }

    /** Coverage, then date override, then special session, then pending session, then holiday,
        then weekend, then the regular day. */
    function ResolveDay(date: int): (r: (Option<Hours>, Reason)) {
      var s := SessionOf(date);
      if !Covers(date) then (None, CalendarOutOfRange)
      else if date in overrides then
        var o := overrides[date];
        if o.closed then (None, ClosedByOverride)
        else (Some(Hours(if o.start.Some? then o.start.value else s.start,
                         if o.end.Some? then o.end.value else RegularEnd(date))), Trading)
      else if date in legacyHolidays then (None, FullHoliday)
      else if date in specials then (Some(specials[date]), Trading)
      else if date in pending then (None, SpecialSessionPending)
      else if date in holidays then
        (match holidays[date]
         case Full => (None, FullHoliday)
         case Morning => (Some(Hours(s.evening, RegularEnd(date))), MorningSessionClosed)
         case Evening => (Some(Hours(s.start, s.evening)), EveningSessionClosed))
      else if weekendClosed && Weekday(date) >= 5 then (None, Weekend)
      else (Some(Hours(s.start, RegularEnd(date))), Trading)
    }

    predicate IsTradingDay(date: int) { ResolveDay(date).0.Some? }

    /** Local times before the start belong to the previous date when the day runs past midnight. */
    function TradingDate(ts: Instant): int {
      if fallback.end <= fallback.start && LocalTime(ts) < fallback.start then LocalDate(ts) - 1 else LocalDate(ts)
    }

    /** Closed dates keep the regular span so that callers still get a window. */
    function DaySpan(date: int): (s: Span)
      ensures s.start < s.end
    {
      var hours := ResolveDay(date).0;
      var h := if hours.Some? then hours.value else Hours(SessionOf(date).start, RegularEnd(date));
      var start, end := Combine(date, h.start), Combine(date, h.end);
      Span(start, if end <= start then end + DAY else end)
    }

    predicate IsOpen(ts: Instant) {
      var d := TradingDate(ts);
      IsTradingDay(d) && DaySpan(d).start <= ts < DaySpan(d).end
    }

    /** When a bar opening at `openTime` really closes: its nominal end, capped at the session end. */
    function EffectiveClose(openTime: Instant, seconds: int): Instant {
      var nominal := openTime + seconds;
      var d := TradingDate(openTime);
      var s := DaySpan(d);
      if IsTradingDay(d) && s.start <= openTime < s.end < nominal then s.end else nominal
    }

    /** Four-hour steps from the start of the trading day, the last one capped at the session end. */
    function H4Bucket(ts: Instant): Span {
      var s := DaySpan(TradingDate(ts));
      if ts < s.start then Span(s.start - H4_SECONDS, s.start)
      else
        var start := s.start + H4_SECONDS * ((ts - s.start) / H4_SECONDS);
        Span(start, if start < s.end then Min(start + H4_SECONDS, s.end) else start + H4_SECONDS)
    }

    // ---------------------------------------------------------- well-behaved configurations

    /** No trading day, regular or resolved, runs past local midnight. */
    ghost predicate WithinDay() {
      && fallback.start < fallback.end
      && forall d :: EndsByMidnight(d)
    }

    predicate EndsByMidnight(date: int) { DaySpan(date).end <= Combine(date + 1, 0) }

    /** Every trading day starts on the grid of the timeframe. */
    ghost predicate StartsOn(tf: Timeframe) { forall d :: StartsAligned(d, tf) }

    predicate StartsAligned(date: int, tf: Timeframe) { Aligned(DaySpan(date).start, tf) }

    /** What the configuration models validate, plus overrides whose hours are in order. */
    ghost predicate Validated() {
      && fallback.start < fallback.evening < fallback.end
      && (forall y | y in years :: years[y].start < years[y].evening < years[y].end)
      && (forall d | d in specials :: specials[d].start < specials[d].end)
      && (forall i, d | 0 <= i < |closePeriods| && closePeriods[i].first <= d <= closePeriods[i].last ::
            SessionOf(d).evening < closePeriods[i].end)
      && (forall d | d in overrides && !overrides[d].closed ::
            var o := overrides[d];
            (if o.start.Some? then o.start.value else SessionOf(d).start)
              < (if o.end.Some? then o.end.value else RegularEnd(d)))
    }

    // ---------------------------------------------------------- next transitions

    /** No open instant in [from, to). */
    ghost predicate ClosedBetween(from: Instant, to: Instant) { forall x :: from <= x < to ==> !IsOpen(x) }

    /** Every session of a date before `date` has ended by `ts`. */
    ghost predicate EndedBefore(date: int, ts: Instant) {
      forall d :: d < date ==> EndedBy(d, ts)
    }

    predicate EndedBy(date: int, ts: Instant) { IsTradingDay(date) ==> DaySpan(date).end <= ts }

    /** `t` is the end of a session after `ts` and no session after `ts` ends sooner. */
    ghost predicate LeastCloseAfter(ts: Instant, t: Instant) {
      && ts < t
      && (exists d :: ClosesAt(d, t))
      && forall d :: EndedBy(d, ts) || t <= DaySpan(d).end
    }

    predicate ClosesAt(date: int, t: Instant) { IsTradingDay(date) && DaySpan(date).end == t }

    /** `t` is open, not before `ts`, and nothing is open in between. */
    ghost predicate LeastOpenFrom(ts: Instant, t: Instant) { ts <= t && IsOpen(t) && ClosedBetween(ts, t) }

    /** A search over `horizon` dates from `ts` ends at `limit`: the horizon, or the first date no calendar covers. */
    ghost predicate SearchEnds(ts: Instant, horizon: nat, limit: int) {
      && LocalDate(ts) <= limit <= LocalDate(ts) + horizon
      && (limit < LocalDate(ts) + horizon ==> !Covers(limit))
    }

    /** First open instant at or after `ts`, looking at `horizon` trading dates. */
    method NextOpen(ts: Instant, horizon: nat) returns (r: Option<Instant>)
      requires WithinDay()
      ensures r.Some? ==> LeastOpenFrom(ts, r.value)
      ensures r.None? ==> exists limit :: SearchEnds(ts, horizon, limit) && ClosedBetween(ts, Combine(limit, 0))
    {
      var d := TradingDate(ts);
      DateIff(ts, d);
      var i := 0;
      while i < horizon
        invariant 0 <= i <= horizon
        invariant ClosedBetween(ts, Combine(d + i, 0))
        invariant i > 0 ==> ts < Combine(d + i, 0)
      {
        var day := d + i;
        if !Covers(day) {
          assert SearchEnds(ts, horizon, day);
          return None;
        }
        OpenWithin(this, day);
        if IsTradingDay(day) {
          var s := DaySpan(day);
          if ts < s.start {
            return Some(s.start);
          }
          if s.start <= ts < s.end {
            return Some(ts);
          }
        }
        i := i + 1;
      }
      assert SearchEnds(ts, horizon, d + horizon);
      return None;
    }

    /** First session end after `ts`, looking at `horizon` trading dates. */
    method NextClose(ts: Instant, horizon: nat) returns (r: Option<Instant>)
      requires WithinDay()
      ensures r.Some? ==> LeastCloseAfter(ts, r.value)
      ensures r.None? ==> exists limit :: SearchEnds(ts, horizon, limit) && EndedBefore(limit, ts)
    {
      var d := TradingDate(ts);
      EarlierEnded(this, ts);
      var i := 0;
      while i < horizon
        invariant 0 <= i <= horizon
        invariant EndedBefore(d + i, ts)
      {
        var day := d + i;
        if !Covers(day) {
          assert SearchEnds(ts, horizon, day);
          return None;
        }
        if IsTradingDay(day) {
          var end := DaySpan(day).end;
          if ts < end {
            FirstUnended(this, ts, day);
            return Some(end);
          }
        }
        i := i + 1;
      }
      assert SearchEnds(ts, horizon, d + horizon);
      return None;
    }
  }

  /** Configurations the loader accepts keep every trading day inside one local date. */
  lemma ValidatedWithinDay(cal: SessionCalendar)
    requires cal.Validated()
    ensures cal.WithinDay()
  {
    forall d ensures cal.EndsByMidnight(d) {
      PeriodEndKept(cal.closePeriods, d, cal.SessionOf(d).end, cal.SessionOf(d).evening);
    }
  }

  lemma {:induction false} PeriodEndKept(periods: seq<ClosePeriod>, date: int, otherwise: TimeOfDay, floor: int)
    requires floor < otherwise
    requires forall i | 0 <= i < |periods| && periods[i].first <= date <= periods[i].last :: floor < periods[i].end
    ensures floor < PeriodEnd(periods, date, otherwise)
  {
    if periods != [] && !(periods[0].first <= date <= periods[0].last) {
      PeriodEndKept(periods[1..], date, otherwise, floor);
    }
  }

  lemma SpanWithin(cal: SessionCalendar, date: int)
    requires cal.WithinDay()
    ensures Combine(date, 0) <= cal.DaySpan(date).start < cal.DaySpan(date).end <= Combine(date + 1, 0)
  {
    assert cal.EndsByMidnight(date);
  }

  /** Inside one local date the market is open exactly during that date's span, if the date trades. */
  lemma OpenWithin(cal: SessionCalendar, date: int)
    requires cal.WithinDay()
    ensures Combine(date, 0) <= cal.DaySpan(date).start < cal.DaySpan(date).end <= Combine(date + 1, 0)
    ensures forall x :: Combine(date, 0) <= x < Combine(date + 1, 0) ==>
              (cal.IsOpen(x) <==> cal.IsTradingDay(date) && cal.DaySpan(date).start <= x < cal.DaySpan(date).end)
  {
    SpanWithin(cal, date);
    forall x | Combine(date, 0) <= x < Combine(date + 1, 0)
      ensures cal.IsOpen(x) <==> cal.IsTradingDay(date) && cal.DaySpan(date).start <= x < cal.DaySpan(date).end
    {
      DateIff(x, date);
    }
  }

  /** A BAR CLOSES WITH THE MARKET: one that starts while the market is open lasts to its nominal end, or to the
      end of the session if that comes first, and the market is open throughout. */
  lemma EffectiveCloseMeans(cal: SessionCalendar, t: Instant, seconds: int)
    requires cal.WithinDay() && 0 < seconds
    ensures var r := cal.EffectiveClose(t, seconds);
      && (!cal.IsOpen(t) ==> r == t + seconds)
      && (cal.IsOpen(t) ==> t < r <= t + seconds && (forall x :: t <= x < r ==> cal.IsOpen(x))
                            && (r == t + seconds || cal.ClosesAt(LocalDate(t), r)))
  {
    var d := LocalDate(t);
    DateIff(t, d);
    OpenWithin(cal, d);
    hide SessionCalendar.DaySpan, SessionCalendar.IsTradingDay, SessionCalendar.WithinDay;
  }

  lemma EarlierEnded(cal: SessionCalendar, ts: Instant)
    requires cal.WithinDay()
    ensures cal.EndedBefore(LocalDate(ts), ts)
  {
    DateIff(ts, LocalDate(ts));
    forall d | d < LocalDate(ts) ensures cal.EndedBy(d, ts) { SpanWithin(cal, d); }
  }

  lemma FirstUnended(cal: SessionCalendar, ts: Instant, day: int)
    requires cal.WithinDay() && cal.EndedBefore(day, ts) && cal.IsTradingDay(day) && ts < cal.DaySpan(day).end
    ensures cal.LeastCloseAfter(ts, cal.DaySpan(day).end)
  {
    SpanWithin(cal, day);
    assert cal.ClosesAt(day, cal.DaySpan(day).end);
    forall d ensures cal.EndedBy(d, ts) || cal.DaySpan(day).end <= cal.DaySpan(d).end {
      SpanWithin(cal, d);
    }
  }
}
