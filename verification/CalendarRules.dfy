/** What a calendar's configuration means for the market: when it is open and why not, told from the configured
    years, overrides, holidays, sessions and close periods alone, in their order of priority. */
module CalendarRules {
  import opened Timeline
  import opened Gregorian
  import opened Calendar

  // ------------------------------------------------------------------ the rules

  /** The calendar year of a date. */
  predicate InYear(date: int, year: int) { NewYear(year) <= date < NewYear(year + 1) }

  /** Years are configured, but not the date's. */
  ghost predicate Uncovered(cal: SessionCalendar, date: int) { cal.years != map[] && forall year :: InYear(date, year) ==> year !in cal.years }

  /** The session of the date's year, else the default one. */
  ghost predicate SessionFor(cal: SessionCalendar, date: int, s: Session) {
    exists year :: InYear(date, year) && s == if year in cal.years then cal.years[year] else cal.fallback
  }

  predicate Holds(p: ClosePeriod, date: int) { p.first <= date <= p.last }

  /** The end of the first close period that holds the date, else the end of its session. */
  ghost predicate SeasonalEnd(cal: SessionCalendar, date: int, end: TimeOfDay) {
    if exists i :: 0 <= i < |cal.closePeriods| && Holds(cal.closePeriods[i], date) then
      exists i :: 0 <= i < |cal.closePeriods| && Holds(cal.closePeriods[i], date) && end == cal.closePeriods[i].end
                  && forall j :: 0 <= j < i ==> !Holds(cal.closePeriods[j], date)
    else exists s :: SessionFor(cal, date, s) && end == s.end
  }

  /** The day 1970-01-03 was a Saturday. */
  predicate AtWeekend(date: int) { (date - 2) % 7 < 2 }

  /** Nothing before special sessions decides the date. */
  ghost predicate NotOverridden(cal: SessionCalendar, date: int) {
    !Uncovered(cal, date) && date !in cal.overrides && date !in cal.legacyHolidays
  }

  /** Nothing before holidays decides the date. */
  ghost predicate NotSpecial(cal: SessionCalendar, date: int) {
    NotOverridden(cal, date) && date !in cal.specials && date !in cal.pending
  }

  ghost predicate OnHoliday(cal: SessionCalendar, date: int, c: Closure) {
    NotSpecial(cal, date) && date in cal.holidays && cal.holidays[date] == c
  }

  ghost predicate Regular(cal: SessionCalendar, date: int) {
    NotSpecial(cal, date) && date !in cal.holidays && !(cal.weekendClosed && AtWeekend(date))
  }

  /** Closed all day, and why. */
  ghost predicate Shut(cal: SessionCalendar, date: int, why: Reason) {
    match why
    case CalendarOutOfRange => Uncovered(cal, date)
    case ClosedByOverride => !Uncovered(cal, date) && date in cal.overrides && cal.overrides[date].closed
    case FullHoliday =>
      || (!Uncovered(cal, date) && date !in cal.overrides && date in cal.legacyHolidays)
      || OnHoliday(cal, date, Full)
    case SpecialSessionPending => NotOverridden(cal, date) && date !in cal.specials && date in cal.pending
    case Weekend => NotSpecial(cal, date) && date !in cal.holidays && cal.weekendClosed && AtWeekend(date)
    case _ => false
  }

  /** Open between two times of the date: overridden, special, half holidays, and regular days. */
  ghost predicate OpenFromTo(cal: SessionCalendar, date: int, s: Session, regularEnd: TimeOfDay, first: TimeOfDay, end: TimeOfDay) {
    || (!Uncovered(cal, date) && date in cal.overrides && !cal.overrides[date].closed
        && first == (if cal.overrides[date].start.Some? then cal.overrides[date].start.value else s.start)
        && end == (if cal.overrides[date].end.Some? then cal.overrides[date].end.value else regularEnd))
    || (NotOverridden(cal, date) && date in cal.specials && first == cal.specials[date].start && end == cal.specials[date].end)
    || (OnHoliday(cal, date, Morning) && first == s.evening && end == regularEnd)
    || (OnHoliday(cal, date, Evening) && first == s.start && end == s.evening)
    || (Regular(cal, date) && first == s.start && end == regularEnd)
  }

  /** Between two times of the date; an end at midnight is the end of the date. */
  predicate Between(x: Instant, date: int, first: TimeOfDay, end: TimeOfDay) {
    Combine(date, first) <= x && x < if end == 0 then Combine(date + 1, 0) else Combine(date, end)
  }

  // ------------------------------------------------------------------ they are what the calendar does

  lemma YearIsYear(date: int)
    ensures forall year :: InYear(date, year) <==> year == YearOf(date)
  {
    forall year ensures InYear(date, year) <==> year == YearOf(date) { YearHolds(date, year); }
  }

  lemma SessionIs(cal: SessionCalendar, date: int)
    ensures Uncovered(cal, date) <==> !cal.Covers(date)
    ensures forall s :: SessionFor(cal, date, s) <==> s == cal.SessionOf(date)
  {
    hide YearOf, NewYear;
    YearIsYear(date);
    assert InYear(date, YearOf(date));
  }

  lemma {:induction false} PeriodEndIs(ps: seq<ClosePeriod>, date: int, otherwise: TimeOfDay, i: nat)
    requires i < |ps| && Holds(ps[i], date) && forall j :: 0 <= j < i ==> !Holds(ps[j], date)
    ensures PeriodEnd(ps, date, otherwise) == ps[i].end
  {
    if i > 0 {
      assert !Holds(ps[0], date);
      PeriodEndIs(ps[1..], date, otherwise, i - 1);
    }
  }

  lemma {:induction false} PeriodEndNone(ps: seq<ClosePeriod>, date: int, otherwise: TimeOfDay)
    requires forall j :: 0 <= j < |ps| ==> !Holds(ps[j], date)
    ensures PeriodEnd(ps, date, otherwise) == otherwise
  {
    if ps != [] {
      assert !Holds(ps[0], date);
      PeriodEndNone(ps[1..], date, otherwise);
    }
  }

  lemma SeasonalEndIs(cal: SessionCalendar, date: int, end: TimeOfDay)
    requires SeasonalEnd(cal, date, end)
    ensures end == cal.RegularEnd(date)
  {
    hide SessionFor;
    SessionIs(cal, date);
    if exists i :: 0 <= i < |cal.closePeriods| && Holds(cal.closePeriods[i], date) {
      var i :| 0 <= i < |cal.closePeriods| && Holds(cal.closePeriods[i], date) && end == cal.closePeriods[i].end
               && forall j :: 0 <= j < i ==> !Holds(cal.closePeriods[j], date);
      PeriodEndIs(cal.closePeriods, date, cal.SessionOf(date).end, i);
    } else {
      PeriodEndNone(cal.closePeriods, date, cal.SessionOf(date).end);
    }
  }

  lemma {:induction false} PeriodEndFound(ps: seq<ClosePeriod>, date: int, otherwise: TimeOfDay)
    requires exists i :: 0 <= i < |ps| && Holds(ps[i], date)
    ensures exists i :: 0 <= i < |ps| && Holds(ps[i], date) && PeriodEnd(ps, date, otherwise) == ps[i].end && forall j :: 0 <= j < i ==> !Holds(ps[j], date)
  {
    if !Holds(ps[0], date) {
      var i :| 0 <= i < |ps| && Holds(ps[i], date);
      assert ps[1..][i - 1] == ps[i];
      PeriodEndFound(ps[1..], date, otherwise);
      var k :| 0 <= k < |ps[1..]| && Holds(ps[1..][k], date) && PeriodEnd(ps[1..], date, otherwise) == ps[1..][k].end
               && forall j :: 0 <= j < k ==> !Holds(ps[1..][j], date);
      forall j | 0 <= j < k + 1 ensures !Holds(ps[j], date) { assert j > 0 ==> ps[j] == ps[1..][j - 1]; }
      assert Holds(ps[k + 1], date);
    }
  }

  /** Every date has a session and a seasonal end. */
  lemma RulesApply(cal: SessionCalendar, date: int)
    ensures SessionFor(cal, date, cal.SessionOf(date)) && SeasonalEnd(cal, date, cal.RegularEnd(date))
  {
    SessionIs(cal, date);
    hide SessionFor;
    if exists i :: 0 <= i < |cal.closePeriods| && Holds(cal.closePeriods[i], date) {
      PeriodEndFound(cal.closePeriods, date, cal.SessionOf(date).end);
    } else {
      PeriodEndNone(cal.closePeriods, date, cal.SessionOf(date).end);
    }
  }

  lemma WeekendIs(date: int)
    ensures Weekday(date) >= 5 <==> AtWeekend(date)
  {
  }

  /** The resolved day is closed for exactly the configured reason, or has exactly the configured times. */
  lemma ResolvedByRules(cal: SessionCalendar, date: int, s: Session, regularEnd: TimeOfDay)
    requires SessionFor(cal, date, s) && SeasonalEnd(cal, date, regularEnd)
    ensures forall why :: Shut(cal, date, why) <==> cal.ResolveDay(date) == (None, why)
    ensures forall first, end :: OpenFromTo(cal, date, s, regularEnd, first, end) <==> cal.ResolveDay(date).0 == Some(Hours(first, end))
    ensures OnHoliday(cal, date, Morning) <==> cal.ResolveDay(date).1 == MorningSessionClosed
    ensures OnHoliday(cal, date, Evening) <==> cal.ResolveDay(date).1 == EveningSessionClosed
  {
    hide YearOf, SessionFor, SeasonalEnd, Uncovered, SessionCalendar.RegularEnd, SessionCalendar.SessionOf, SessionCalendar.Covers;
    SessionIs(cal, date);
    SeasonalEndIs(cal, date, regularEnd);
    WeekendIs(date);
    hide AtWeekend, Weekday;
  }

  /** OPEN BY THE RULES: on a date whose session and seasonal end are the configured ones, an instant is open
      exactly between the times of the first rule that decides the date, and never on a date that is shut. */
  lemma OpenByRules(cal: SessionCalendar, date: int, s: Session, regularEnd: TimeOfDay, x: Instant)
    requires cal.WithinDay() && SessionFor(cal, date, s) && SeasonalEnd(cal, date, regularEnd)
    requires Combine(date, 0) <= x < Combine(date + 1, 0)
    ensures (exists why :: Shut(cal, date, why)) ==> !cal.IsOpen(x)
    ensures forall first, end :: OpenFromTo(cal, date, s, regularEnd, first, end) ==> (cal.IsOpen(x) <==> Between(x, date, first, end))
    ensures (exists why :: Shut(cal, date, why)) || exists first, end :: OpenFromTo(cal, date, s, regularEnd, first, end)
  {
    ResolvedByRules(cal, date, s, regularEnd);
    OpenWithin(cal, date);
    hide Shut, OpenFromTo, SessionFor, SeasonalEnd, SessionCalendar.ResolveDay, SessionCalendar.IsOpen, SessionCalendar.WithinDay;
    var (hours, why) := cal.ResolveDay(date);
    if hours.None? {
      assert Shut(cal, date, why);
    } else {
      assert OpenFromTo(cal, date, s, regularEnd, hours.value.start, hours.value.end);
    }
  }

  /** A MORNING HOLIDAY closes everything before the evening session, and nothing from there to the seasonal end;
      an evening holiday closes everything from there on, and nothing before it from the session's start. */
  lemma HalfHolidays(cal: SessionCalendar, date: int, s: Session, regularEnd: TimeOfDay, x: Instant)
    requires cal.WithinDay() && SessionFor(cal, date, s) && SeasonalEnd(cal, date, regularEnd)
    requires Combine(date, 0) <= x < Combine(date + 1, 0)
    ensures OnHoliday(cal, date, Morning) ==> (cal.IsOpen(x) <==> Between(x, date, s.evening, regularEnd))
    ensures OnHoliday(cal, date, Evening) ==> (cal.IsOpen(x) <==> Between(x, date, s.start, s.evening))
  {
    hide SessionFor, SeasonalEnd, SessionCalendar.IsOpen, SessionCalendar.WithinDay;
    OpenByRules(cal, date, s, regularEnd, x);
    assert OnHoliday(cal, date, Morning) ==> OpenFromTo(cal, date, s, regularEnd, s.evening, regularEnd);
    assert OnHoliday(cal, date, Evening) ==> OpenFromTo(cal, date, s, regularEnd, s.start, s.evening);
  }

  // ------------------------------------------------------------------ market state

  datatype MarketState = MarketState(open: bool, reason: Reason, date: int, nextOpen: Option<Instant>, nextClose: Option<Instant>)

  const HORIZON := 21

  /** Before the evening session of a morning holiday. */
  ghost predicate MorningOff(cal: SessionCalendar, date: int, ts: Instant) {
    OnHoliday(cal, date, Morning) && exists s :: SessionFor(cal, date, s) && ts < Combine(date, s.evening)
  }

  /** After the morning session of an evening holiday. */
  ghost predicate EveningOff(cal: SessionCalendar, date: int, ts: Instant) {
    OnHoliday(cal, date, Evening) && exists s :: SessionFor(cal, date, s) && Combine(date, s.start) <= ts && !Between(ts, date, s.start, s.evening)
  }

  lemma HalfDaysOff(cal: SessionCalendar, date: int, ts: Instant)
    requires Combine(date, 0) <= ts < Combine(date + 1, 0) && cal.WithinDay()
    ensures MorningOff(cal, date, ts) <==> cal.ResolveDay(date).1 == MorningSessionClosed && ts < cal.DaySpan(date).start
    ensures EveningOff(cal, date, ts) <==> cal.ResolveDay(date).1 == EveningSessionClosed && cal.DaySpan(date).end <= ts
    ensures forall why :: Shut(cal, date, why) ==> cal.ResolveDay(date) == (None, why)
  {
    var s, end := cal.SessionOf(date), cal.RegularEnd(date);
    RulesApply(cal, date);
    SessionIs(cal, date);
    ResolvedByRules(cal, date, s, end);
    SpanWithin(cal, date);
    hide SessionFor, SeasonalEnd, Shut, OnHoliday, SessionCalendar.ResolveDay, SessionCalendar.WithinDay;
    assert OnHoliday(cal, date, Morning) ==> OpenFromTo(cal, date, s, end, s.evening, end);
    assert OnHoliday(cal, date, Evening) ==> OpenFromTo(cal, date, s, end, s.start, s.evening);
  }

  /** Is the exchange open now, and if not, why and until when. */
  method StateAt(cal: SessionCalendar, ts: Instant) returns (m: MarketState)
    requires cal.WithinDay()
    ensures m.open <==> cal.IsOpen(ts)
    ensures m.open <==> m.reason == Trading
    ensures m.reason == CalendarOutOfRange <==> !cal.Covers(LocalDate(ts))
    ensures !cal.IsTradingDay(LocalDate(ts)) ==> m.reason == cal.ResolveDay(LocalDate(ts)).1
    ensures m.reason == MorningSessionClosed <==>
              cal.ResolveDay(LocalDate(ts)).1 == MorningSessionClosed && ts < cal.DaySpan(LocalDate(ts)).start
    ensures m.reason == EveningSessionClosed <==>
              cal.ResolveDay(LocalDate(ts)).1 == EveningSessionClosed && cal.DaySpan(LocalDate(ts)).end <= ts
    ensures m.nextOpen.Some? ==> cal.LeastOpenFrom(ts, m.nextOpen.value)
    ensures m.nextClose.Some? ==> cal.LeastCloseAfter(ts, m.nextClose.value)
    ensures m.open ==> m.nextOpen == Some(ts) && m.nextClose.Some?
    ensures forall why :: Shut(cal, LocalDate(ts), why) ==> !m.open && m.reason == why
    ensures m.reason == MorningSessionClosed <==> MorningOff(cal, LocalDate(ts), ts)
    ensures m.reason == EveningSessionClosed <==> EveningOff(cal, LocalDate(ts), ts)
  {
    hide Combine, SessionCalendar.EndedBy, Weekday, YearOf, Between, NotOverridden, SessionCalendar.EndsByMidnight,
         SessionCalendar.RegularEnd;
    DateIff(ts, LocalDate(ts));
    HalfDaysOff(cal, LocalDate(ts), ts);
    hide Shut, MorningOff, EveningOff, SessionCalendar.LeastCloseAfter, Combine, SessionCalendar.SessionOf;
    var d := cal.TradingDate(ts);
    var (hours, reason) := cal.ResolveDay(d);
    if !cal.Covers(d) {
      return MarketState(false, CalendarOutOfRange, d, None, None);
    }
    OpenWithin(cal, d);
    EarlierEnded(cal, ts);
    if hours.None? {
      var nextOpen := cal.NextOpen(ts, HORIZON);
      var nextClose := cal.NextClose(ts, HORIZON);
      return MarketState(false, reason, d, nextOpen, nextClose);
    }
    var s := cal.DaySpan(d);
    if s.start <= ts < s.end {
      FirstUnended(cal, ts, d);
      return MarketState(true, Trading, d, Some(ts), Some(s.end));
    }
    if ts < s.start {
      DateIff(ts, d);
      FirstUnended(cal, ts, d);
      var why := if reason == MorningSessionClosed then MorningSessionClosed else OutsideTradingHours;
      return MarketState(false, why, d, Some(s.start), Some(s.end));
    }
    var why := if reason == EveningSessionClosed then EveningSessionClosed else OutsideTradingHours;
    var nextOpen := cal.NextOpen(ts, HORIZON);
    var nextClose := cal.NextClose(ts, HORIZON);
    return MarketState(false, why, d, nextOpen, nextClose);
  }
}
