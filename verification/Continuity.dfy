/** What the continuity service does with broker answers: recovery windows, zero-trade fills, minutes the
    broker did not return, and the repair of gaps oldest first. */
module Continuity {
  import opened Timeline
  import opened Candles
  import opened AggregationLaws
  import opened LiveMinutes
  import opened Sorting
  import opened Sequences
  import opened Tower
  import opened Pipeline
  import PipelineLaws
  import RepairOrder

  // ------------------------------------------------------------------ zero-trade fill

  /** The open minutes of [t, until), one step apart, as flat bars at the previous close. */
  function FlatRun(prev: Candle, t: Instant, until: Instant, isOpen: Instant -> bool): seq<Candle>
    decreases until - t
  {
    if until <= t then [] else (if isOpen(t) then [FlatMinute(t, prev)] else []) + FlatRun(prev, t + MINUTE, until, isOpen)
  }

  function FillAfter(prev: Candle, rest: seq<Candle>, isOpen: Instant -> bool): seq<Candle>
    decreases |rest|
  {
    if rest == [] then []
    else FlatRun(prev, prev.openTime + MINUTE, rest[0].openTime, isOpen) + [rest[0]] + FillAfter(rest[0], rest[1..], isOpen)
  }

  /** Every returned candle, with the open minutes between neighbours filled in. */
  function FillFlat(cs: seq<Candle>, isOpen: Instant -> bool): seq<Candle> {
    if cs == [] then [] else [cs[0]] + FillAfter(cs[0], cs[1..], isOpen)
  }

  /** A flat bar at the close of `prev`, on its minute grid, strictly between it and `next`, when the market is open. */
  predicate FlatWithin(prev: Candle, next: Candle, isOpen: Instant -> bool, c: Candle) {
    && prev.openTime < c.openTime < next.openTime && (c.openTime - prev.openTime) % MINUTE == 0
    && isOpen(c.openTime) && c == FlatMinute(c.openTime, prev)
  }

  ghost predicate FlatAt(cs: seq<Candle>, isOpen: Instant -> bool, c: Candle) {
    exists i :: 0 < i < |cs| && FlatWithin(cs[i - 1], cs[i], isOpen, c)
  }

  lemma {:induction false} FlatRunIs(prev: Candle, t: Instant, until: Instant, isOpen: Instant -> bool, c: Candle)
    ensures c in FlatRun(prev, t, until, isOpen) <==>
              t <= c.openTime < until && (c.openTime - t) % MINUTE == 0 && isOpen(c.openTime) && c == FlatMinute(c.openTime, prev)
    decreases until - t
  {
    if t < until {
      FlatRunIs(prev, t + MINUTE, until, isOpen, c);
      var rest := FlatRun(prev, t + MINUTE, until, isOpen);
      assert FlatRun(prev, t, until, isOpen) == (if isOpen(t) then [FlatMinute(t, prev)] else []) + rest;
    }
  }

  lemma FlatAtCons(prev: Candle, rest: seq<Candle>, isOpen: Instant -> bool, c: Candle)
    requires rest != []
    ensures FlatAt([prev] + rest, isOpen, c) <==> FlatWithin(prev, rest[0], isOpen, c) || FlatAt(rest, isOpen, c)
  {
    var line := [prev] + rest;
    assert line[0] == prev && line[1] == rest[0];
    if FlatAt(rest, isOpen, c) {
      var i :| 0 < i < |rest| && FlatWithin(rest[i - 1], rest[i], isOpen, c);
      assert line[i] == rest[i - 1] && line[i + 1] == rest[i];
    }
    if FlatAt(line, isOpen, c) {
      var i :| 0 < i < |line| && FlatWithin(line[i - 1], line[i], isOpen, c);
      if i > 1 { assert rest[i - 2] == line[i - 1] && rest[i - 1] == line[i]; }
    }
  }

  lemma {:induction false} FillAfterIs(prev: Candle, rest: seq<Candle>, isOpen: Instant -> bool, c: Candle)
    ensures c in FillAfter(prev, rest, isOpen) <==> c in rest || FlatAt([prev] + rest, isOpen, c)
    decreases |rest|
  {
    if rest != [] {
      hide FlatWithin, FlatAt;
      FillAfterIs(rest[0], rest[1..], isOpen, c);
      FlatRunIs(prev, prev.openTime + MINUTE, rest[0].openTime, isOpen, c);
      FlatWithinIs(prev, rest[0], isOpen, c);
      assert [rest[0]] + rest[1..] == rest;
      FlatAtCons(prev, rest, isOpen, c);
      assert c in rest <==> c == rest[0] || c in rest[1..];
    }
  }

  lemma FlatWithinIs(prev: Candle, next: Candle, isOpen: Instant -> bool, c: Candle)
    ensures FlatWithin(prev, next, isOpen, c) <==>
              prev.openTime + MINUTE <= c.openTime < next.openTime && (c.openTime - (prev.openTime + MINUTE)) % MINUTE == 0
              && isOpen(c.openTime) && c == FlatMinute(c.openTime, prev)
  {
  }

  /** FILL IS EXACT: the filled list holds the returned candles and, between neighbours, a flat bar for each
      open minute of the grid; nothing before the first or after the last. */
  lemma FillIs(cs: seq<Candle>, isOpen: Instant -> bool, c: Candle)
    ensures c in FillFlat(cs, isOpen) <==> c in cs || FlatAt(cs, isOpen, c)
  {
    if cs != [] {
      FillAfterIs(cs[0], cs[1..], isOpen, c);
      assert [cs[0]] + cs[1..] == cs;
    }
  }

  /** A filled minute is one the broker returned no candle for. */
  lemma FilledIsAbsent(cs: seq<Candle>, isOpen: Instant -> bool, c: Candle, k: nat)
    requires SortedBy(cs, ByOpen) && FlatAt(cs, isOpen, c) && k < |cs|
    ensures cs[k].openTime != c.openTime
  {
    var i :| 0 < i < |cs| && FlatWithin(cs[i - 1], cs[i], isOpen, c);
    assert k <= i - 1 ==> ByOpen(cs[k]) <= ByOpen(cs[i - 1]);
    assert i <= k ==> ByOpen(cs[i]) <= ByOpen(cs[k]);
  }

  /** The loops that fill. */
  method FillFlatMinutes(candles: seq<Candle>, isOpen: Instant -> bool) returns (out: seq<Candle>)
    ensures out == FillFlat(Sort(candles, ByOpen), isOpen)
  {
    var cs := Sort(candles, ByOpen);
    if cs == [] {
      return [];
    }
    out := [cs[0]];
    var i := 1;
    while i < |cs|
      invariant 1 <= i <= |cs| && out + FillAfter(cs[i - 1], cs[i..], isOpen) == FillFlat(cs, isOpen)
    {
      var prev := cs[i - 1];
      ghost var later := FillAfter(cs[i], cs[i + 1..], isOpen);
      assert cs[i..][0] == cs[i] && cs[i..][1..] == cs[i + 1..];
      var run := FillBetween(prev, cs[i], isOpen);
      assert out + (run + [cs[i]] + later) == out + run + [cs[i]] + later;
      out := out + run + [cs[i]];
      i := i + 1;
    }
    assert out + [] == out;
  }

  method FillBetween(prev: Candle, next: Candle, isOpen: Instant -> bool) returns (run: seq<Candle>)
    ensures run == FlatRun(prev, prev.openTime + MINUTE, next.openTime, isOpen)
  {
    hide FlatRun, FlatMinute;
    run := [];
    var t := prev.openTime + MINUTE;
    EmptyLeft(FlatRun(prev, t, next.openTime, isOpen));
    while t < next.openTime
      invariant run + FlatRun(prev, t, next.openTime, isOpen) == FlatRun(prev, prev.openTime + MINUTE, next.openTime, isOpen)
      decreases next.openTime - t
    {
      FlatRunStep(run, prev, t, next.openTime, isOpen);
      if isOpen(t) {
        run := run + [FlatMinute(t, prev)];
      }
      t := t + MINUTE;
    }
    FlatRunStep(run, prev, t, next.openTime, isOpen);
  }

  lemma FlatRunStep(run: seq<Candle>, prev: Candle, t: Instant, until: Instant, isOpen: Instant -> bool)
    ensures run + FlatRun(prev, t, until, isOpen) ==
              if until <= t then run
              else (if isOpen(t) then run + [FlatMinute(t, prev)] else run) + FlatRun(prev, t + MINUTE, until, isOpen)
  {
    hide FlatMinute;
    EmptyRight(run);
    if t < until {
      Associate(run, if isOpen(t) then [FlatMinute(t, prev)] else [], FlatRun(prev, t + MINUTE, until, isOpen));
    }
  }

  // ------------------------------------------------------------------ recovery

  /** The outcome of a fetch: its candles and range, or a failure. */
  datatype FetchResult = FetchResult(candles: seq<Candle>, start: Instant, end: Instant, ok: bool)

  /** The open minutes of [t, end), one step apart. */
  function OpenMinutes(t: Instant, end: Instant, isOpen: Instant -> bool): seq<Instant>
    decreases end - t
  {
    if end <= t then [] else (if isOpen(t) then [t] else []) + OpenMinutes(t + MINUTE, end, isOpen)
  }

  lemma {:induction false} OpenMinutesIs(t: Instant, end: Instant, isOpen: Instant -> bool, m: Instant)
    ensures m in OpenMinutes(t, end, isOpen) <==> t <= m < end && (m - t) % MINUTE == 0 && isOpen(m)
    decreases end - t
  {
    if t < end {
      OpenMinutesIs(t + MINUTE, end, isOpen, m);
      assert OpenMinutes(t, end, isOpen) == (if isOpen(t) then [t] else []) + OpenMinutes(t + MINUTE, end, isOpen);
    }
  }

  function MarkAll(p: Pipeline, minutes: seq<Instant>): (q: Pipeline)
    ensures p.Grows(q) && q == p.(pending := q.pending)
    decreases |minutes|
  {
    if minutes == [] then p
    else
      var m := p.MarkPending(minutes[0]);
      MarkAll(m, minutes[1..])
  }

  lemma {:induction false} MarkAllIs(p: Pipeline, minutes: seq<Instant>, t: Instant)
    ensures t in MarkAll(p, minutes).pending <==> t in p.pending || (t in minutes && t !in p.seen)
    decreases |minutes|
  {
    if minutes != [] { MarkAllIs(p.MarkPending(minutes[0]), minutes[1..], t); }
  }

  /** The candles of the answer inside its own range. */
  function InRange(cs: seq<Candle>, start: Instant, end: Instant): (out: seq<Candle>)
    ensures forall c :: c in out <==> c in cs && start <= c.openTime < end
  {
    if cs == [] then []
    else
      assert forall c :: c in cs <==> c == cs[0] || c in cs[1..];
      (if start <= cs[0].openTime < end then [cs[0]] else []) + InRange(cs[1..], start, end)
  }

  /** The candles that are fed: those in range, filled when that is allowed. */
  function ToFeed(r: FetchResult, fill: bool, isOpen: Instant -> bool): seq<Candle> {
    var inside := InRange(r.candles, r.start, r.end);
    if fill then FillFlat(Sort(inside, ByOpen), isOpen) else inside
  }

  function Covered(cs: seq<Candle>): set<Instant> { set c | c in cs :: c.openTime }

  /** The expected minutes that the answer does not hold and that are not processed. */
  function StillMissing(expected: seq<Instant>, covered: set<Instant>, seen: set<Instant>): (ms: seq<Instant>)
    ensures forall m :: m in ms <==> m in expected && m !in covered && m !in seen
  {
    if expected == [] then []
    else
      assert forall m :: m in expected <==> m == expected[0] || m in expected[1..];
      (if expected[0] !in covered && expected[0] !in seen then [expected[0]] else []) + StillMissing(expected[1..], covered, seen)
  }

  /** The minutes a recovery leaves to the retries: all expected ones when the fetch failed, else those not
      returned and not processed. */
  function LeftMissing(p: Pipeline, r: FetchResult, fill: bool): seq<Instant>
    requires p.Sane()
  {
    var expected := OpenMinutes(r.start, r.end, p.config.isOpen);
    if !r.ok then expected
    else
      var cs := ToFeed(r, fill, p.config.isOpen);
      StillMissing(expected, Covered(cs), p.RecoverM1(cs).seen)
  }

  function ApplyRecovery(p: Pipeline, r: FetchResult, fill: bool): (q: Pipeline)
    requires p.Sane()
    ensures p.Grows(q)
  {
    var fed := if r.ok then p.RecoverM1(ToFeed(r, fill, p.config.isOpen)) else p;
    var q := MarkAll(fed, LeftMissing(p, r, fill));
    PipelineLaws.GrowsThen(p, fed, q);
    q
  }

  /** The answer holds a closed M1 candle at the minute. */
  ghost predicate Usable(cs: seq<Candle>, t: Instant) { exists c :: c in cs && c.openTime == t && c.closed && c.tf == M1 }

  /** The answer holds some candle at the minute. */
  ghost predicate Holds(cs: seq<Candle>, t: Instant) { exists c :: c in cs && c.openTime == t }

  /** Recovery processes exactly the usable minutes, and forgets none that was waiting. */
  lemma {:induction false} RecoverAllSees(p: Pipeline, cs: seq<Candle>, t: Instant)
    requires p.Sane()
    ensures var q := p.RecoverAll(cs);
      (t in q.seen <==> t in p.seen || Usable(cs, t)) && (t in q.pending ==> t in p.pending) && (t in p.pending ==> t in q.pending || t in q.seen)
    decreases |cs|
  {
    if cs != [] {
      RecoverAllSees(p.RecoverOne(cs[0]), cs[1..], t);
    }
  }

  /** What is fed covers a minute beyond the answer only with a usable flat bar, where the answer held nothing. */
  lemma FedCovers(r: FetchResult, fill: bool, isOpen: Instant -> bool, t: Instant)
    requires r.start <= t < r.end
    ensures var cs := ToFeed(r, fill, isOpen);
      && (Holds(r.candles, t) ==> t in Covered(cs) && (Usable(cs, t) <==> Usable(r.candles, t)))
      && (!Holds(r.candles, t) ==> (t in Covered(cs) <==> Usable(cs, t)))
  {
    var inside := InRange(r.candles, r.start, r.end);
    InRangeSame(r, t);
    if fill {
      var sorted := Sort(inside, ByOpen);
      SortMembers(inside, ByOpen);
      SortSorts(inside, ByOpen);
      forall c: Candle | c.openTime == t ensures c in FillFlat(sorted, isOpen) <==> c in inside || FlatAt(sorted, isOpen, c) {
        FillIs(sorted, isOpen, c);
      }
      forall c: Candle | FlatAt(sorted, isOpen, c) && c.openTime == t ensures !Holds(inside, t) && c.closed && c.tf == M1 {
        FlatIsNew(sorted, inside, isOpen, c);
      }
    } else {
    }
  }

  lemma FlatIsNew(sorted: seq<Candle>, inside: seq<Candle>, isOpen: Instant -> bool, c: Candle)
    requires SortedBy(sorted, ByOpen) && FlatAt(sorted, isOpen, c) && forall d :: d in inside <==> d in sorted
    ensures !Holds(inside, c.openTime) && c.closed && c.tf == M1
  {
    forall d | d in inside ensures d.openTime != c.openTime {
      var k :| 0 <= k < |sorted| && sorted[k] == d;
      FilledIsAbsent(sorted, isOpen, c, k);
    }
  }

  lemma InRangeSame(r: FetchResult, t: Instant)
    requires r.start <= t < r.end
    ensures var inside := InRange(r.candles, r.start, r.end);
      (Holds(inside, t) <==> Holds(r.candles, t)) && (Usable(inside, t) <==> Usable(r.candles, t))
  {
    var inside := InRange(r.candles, r.start, r.end);
    if Holds(r.candles, t) {
      var c :| c in r.candles && c.openTime == t;
      assert c in inside;
    }
    if Usable(r.candles, t) {
      var c :| c in r.candles && c.openTime == t && c.closed && c.tf == M1;
      assert c in inside;
    }
  }

  /** For an answer of any candles at all: an open minute of the window ends up processed or waiting exactly
      when it was before, the fetch failed, or the answer holds a closed minute or nothing at its open time. */
  lemma RecoveryAccounts(p: Pipeline, r: FetchResult, fill: bool, t: Instant)
    requires p.Sane() && t in OpenMinutes(r.start, r.end, p.config.isOpen)
    ensures PipelineLaws.Known(ApplyRecovery(p, r, fill), t) <==>
              PipelineLaws.Known(p, t) || !r.ok || Usable(r.candles, t) || !Holds(r.candles, t)
  {
    var expected := OpenMinutes(r.start, r.end, p.config.isOpen);
    OpenMinutesIs(r.start, r.end, p.config.isOpen, t);
    if !r.ok {
      MarkAllIs(p, expected, t);
    } else {
      var cs := ToFeed(r, fill, p.config.isOpen);
      var fed := p.RecoverM1(cs);
      SortMembers(cs, ByOpen);
      RecoverAllSees(p, Sort(cs, ByOpen), t);
      FedCovers(r, fill, p.config.isOpen, t);
      MarkAllIs(fed, StillMissing(expected, Covered(cs), fed.seen), t);
    }
  }

  /** MINUTE ACCOUNTING: a fetch keeps only closed minutes, and after such an answer, or a failure, every open
      minute of the window is processed or waiting. */
  lemma RecoveryAccountsForAll(p: Pipeline, r: FetchResult, fill: bool)
    requires p.Sane() && forall c :: c in r.candles ==> c.closed && c.tf == M1
    ensures forall t :: t in OpenMinutes(r.start, r.end, p.config.isOpen) ==> PipelineLaws.Known(ApplyRecovery(p, r, fill), t)
  {
    forall t | t in OpenMinutes(r.start, r.end, p.config.isOpen) ensures PipelineLaws.Known(ApplyRecovery(p, r, fill), t) {
      RecoveryAccounts(p, r, fill, t);
    }
  }

  /** A recovery forgets no minute. */
  lemma RecoveryKeeps(p: Pipeline, r: FetchResult, fill: bool)
    requires p.Sane()
    ensures PipelineLaws.Keeps(p, ApplyRecovery(p, r, fill))
  {
    var expected := OpenMinutes(r.start, r.end, p.config.isOpen);
    forall t | t in p.pending ensures PipelineLaws.Known(ApplyRecovery(p, r, fill), t) {
      if !r.ok {
        MarkAllIs(p, expected, t);
      } else {
        var cs := ToFeed(r, fill, p.config.isOpen);
        var fed := p.RecoverM1(cs);
        RecoverAllSees(p, Sort(cs, ByOpen), t);
        MarkAllIs(fed, StillMissing(expected, Covered(cs), fed.seen), t);
      }
    }
  }

  /** NOTHING IS INVENTED: without fills, the minutes a recovery processes are those processed before and the
      closed minutes the broker returned inside the window. */
  lemma RecoveryInventsNothing(p: Pipeline, r: FetchResult, t: Instant)
    requires p.Sane() && r.ok
    ensures t in ApplyRecovery(p, r, false).seen <==> t in p.seen || (r.start <= t < r.end && Usable(r.candles, t))
  {
    var cs := InRange(r.candles, r.start, r.end);
    SortMembers(cs, ByOpen);
    RecoverAllSees(p, Sort(cs, ByOpen), t);
    if r.start <= t < r.end { InRangeSame(r, t); }
  }

  // ------------------------------------------------------------------ windows

  /** From the minute left open, else after the last processed one, to the current minute; nothing when empty. */
  function RecoveryWindow(p: Pipeline, fallback: Option<Instant>, now: Instant): (w: Option<Range>)
    ensures w.Some? ==> w.value.start < w.value.end == FloorTo(now, MINUTE)
    ensures p.m1.forming.Some? && FloorTo(p.m1.forming.value.at, MINUTE) < FloorTo(now, MINUTE) ==> w.Some? && w.value.start <= p.m1.forming.value.at
  {
    var start := if p.RecoveryStart().Some? then p.RecoveryStart() else fallback;
    if start.None? then None
    else
      FloorCell(start.value, M1);
      if FloorTo(now, MINUTE) <= FloorTo(start.value, MINUTE) then None
      else Some(Range(FloorTo(start.value, MINUTE), FloorTo(now, MINUTE)))
  }

  function ClosedPending(pending: set<Instant>, now: Instant): set<Instant> { set m | m in pending && m + MINUTE <= now }

  /** One minute before the first closed pending minute to two minutes after the last, but not into the
      current minute. */
  function VerificationWindow(pending: set<Instant>, now: Instant): Option<Range> {
    var ms := Ascending(ClosedPending(pending, now));
    if ms == [] then None else Some(Range(ms[0] - MINUTE, Min(ms[|ms| - 1] + 2 * MINUTE, FloorTo(now, MINUTE))))
  }

  /** The window holds every closed pending minute with room before it, so each can be verified, and a
      missing bar can be shown to lie strictly inside. */
  lemma VerificationWindowCovers(pending: set<Instant>, now: Instant, m: Instant)
    requires m in pending && m + MINUTE <= now
    ensures var w := VerificationWindow(pending, now); w.Some? && w.value.start < m < w.value.end <= FloorTo(now, MINUTE)
    ensures var w := VerificationWindow(pending, now).value;
      exists a, b :: a in pending && b in pending && w.start == a - MINUTE && w.end <= b + 2 * MINUTE && b + MINUTE <= now
  {
    var ms := Ascending(ClosedPending(pending, now));
    assert m in ms;
    var i :| 0 <= i < |ms| && ms[i] == m;
    assert ms[0] <= ms[i] <= ms[|ms| - 1];
    assert ms[0] in ms && ms[|ms| - 1] in ms;
    assert ms[0] in pending && ms[|ms| - 1] in pending;
    FloorCell(now, M1);
  }

  // ------------------------------------------------------------------ repair

  /** The unresolved gaps, in order. */
  function OpenOf(gaps: seq<GapRecord>): seq<GapRecord> {
    if gaps == [] then [] else (if gaps[0].resolved then [] else [gaps[0]]) + OpenOf(gaps[1..])
  }

  /** The first closed candle of the answer that opens where the gap does. */
  function Matching(answer: Option<seq<Candle>>, openTime: Instant): (c: Option<Candle>)
    ensures c.Some? <==> answer.Some? && exists i :: FirstClosedAt(answer.value, i, openTime)
    ensures c.Some? ==> exists i :: FirstClosedAt(answer.value, i, openTime) && c.value == answer.value[i]
  {
    if answer.None? then None else FirstMatch(answer.value, openTime)
  }

  /** The first closed candle of the list at the open time. */
  ghost predicate FirstClosedAt(cs: seq<Candle>, i: int, openTime: Instant) {
    0 <= i < |cs| && cs[i].closed && cs[i].openTime == openTime && forall j :: 0 <= j < i ==> !cs[j].closed || cs[j].openTime != openTime
  }

  function FirstMatch(cs: seq<Candle>, openTime: Instant): (c: Option<Candle>)
    ensures c.Some? <==> exists i :: FirstClosedAt(cs, i, openTime)
    ensures c.Some? ==> exists i :: FirstClosedAt(cs, i, openTime) && c.value == cs[i]
  {
    if cs == [] then None
    else if cs[0].openTime == openTime && cs[0].closed then
      assert FirstClosedAt(cs, 0, openTime);
      Some(cs[0])
    else
      FirstClosedLater(cs, openTime);
      FirstMatch(cs[1..], openTime)
  }

  lemma FirstClosedLater(cs: seq<Candle>, openTime: Instant)
    requires cs != [] && !(cs[0].openTime == openTime && cs[0].closed)
    ensures forall i :: FirstClosedAt(cs, i + 1, openTime) <==> FirstClosedAt(cs[1..], i, openTime)
    ensures forall i :: FirstClosedAt(cs, i, openTime) ==> FirstClosedAt(cs[1..], i - 1, openTime)
  {
    assert forall j :: 0 <= j < |cs| - 1 ==> cs[1..][j] == cs[j + 1];
  }

  /** Repair the listed gaps one after the other; stop at the first that cannot be repaired. */
  function RepairLoop(s: Tower, list: seq<GapRecord>, fetch: GapRecord -> Option<seq<Candle>>): (r: (Tower, nat))
    requires Stacked(s.Setups())
    ensures r.0.Setups() == s.Setups() && r.1 <= |list|
    decreases |list|
  {
    if list == [] then (s, 0)
    else
      var c := Matching(fetch(list[0]), list[0].openTime);
      if c.None? || !RepairOrder.Answers(s, c.value) then (s, 0)
      else
        var (t, n) := RepairLoop(Repair(s, c.value), list[1..], fetch);
        (t, n + 1)
  }

  lemma {:induction false} ResolveFirst(gaps: seq<GapRecord>, k: nat)
    requires k < |gaps| && !gaps[k].resolved && forall j :: 0 <= j < k ==> gaps[j].resolved
    ensures OpenOf(gaps) != [] && OpenOf(RepairOrder.Resolve(gaps, k)) == OpenOf(gaps)[1..]
  {
    if k > 0 {
      ResolveFirst(gaps[1..], k - 1);
      assert RepairOrder.Resolve(gaps, k)[1..] == RepairOrder.Resolve(gaps[1..], k - 1);
      assert RepairOrder.Resolve(gaps, k)[0] == gaps[0];
    } else {
      assert RepairOrder.Resolve(gaps, 0)[1..] == gaps[1..];
    }
  }

  lemma {:induction false} OpenOfFirst(gaps: seq<GapRecord>)
    ensures FirstOpen(gaps) == if OpenOf(gaps) == [] then None else Some(OpenOf(gaps)[0])
  {
    if gaps != [] { OpenOfFirst(gaps[1..]); }
  }

  /** Repairing the oldest gap takes exactly it off the list of unresolved gaps. */
  lemma RepairTakesFirst(s: Tower, c: Candle)
    requires RepairOrder.Ordered(s) && Stacked(s.Setups()) && RepairOrder.Answers(s, c) && RepairOrder.Oldest(s, c.openTime)
    ensures OpenOf(s.gaps) != [] && OpenOf(Repair(s, c).gaps) == OpenOf(s.gaps)[1..]
  {
    RepairOrder.RepairOldest(s, c);
    var k := FindGap(s.gaps, c.tf, c.openTime).value;
    RepairOrder.FirstOpenFacts(s.gaps);
    var i :| 0 <= i < |s.gaps| && s.gaps[i] == FirstOpen(s.gaps).value && !s.gaps[i].resolved && forall j :: 0 <= j < i ==> s.gaps[j].resolved;
    assert i == k;
    ResolveFirst(s.gaps, k);
  }

  lemma RepairLoopStep(s: Tower, list: seq<GapRecord>, fetch: GapRecord -> Option<seq<Candle>>)
    requires Stacked(s.Setups()) && list != []
    ensures var c := Matching(fetch(list[0]), list[0].openTime);
      RepairLoop(s, list, fetch) ==
        if c.None? || !RepairOrder.Answers(s, c.value) then (s, 0)
        else var (t, n) := RepairLoop(Repair(s, c.value), list[1..], fetch); (t, n + 1)
  {
  }

  lemma NothingOpen(s: Tower)
    requires RepairOrder.Ordered(s) && OpenOf(s.gaps) == []
    ensures !s.suspended && s.deferred == []
  {
    OpenOfFirst(s.gaps);
  }

  /** The first closed candle at the gap's open time is missing, or of another timeframe. */
  ghost predicate CannotRepair(gap: GapRecord, answer: Option<seq<Candle>>) {
    answer.None? || forall i :: FirstClosedAt(answer.value, i, gap.openTime) ==> answer.value[i].tf != gap.tf
  }

  /** The loop stops at the first unresolved gap only for want of a bar. */
  lemma StopsForWant(s: Tower, answer: Option<seq<Candle>>)
    requires OpenOf(s.gaps) != []
    requires var c := Matching(answer, OpenOf(s.gaps)[0].openTime); c.None? || !RepairOrder.Answers(s, c.value)
    ensures CannotRepair(OpenOf(s.gaps)[0], answer)
  {
    var gap := OpenOf(s.gaps)[0];
    OpenOfFirst(s.gaps);
    RepairOrder.FirstOpenFacts(s.gaps);
    var c := Matching(answer, gap.openTime);
    if c.Some? {
      var i :| FirstClosedAt(answer.value, i, gap.openTime) && c.value == answer.value[i];
      forall j | FirstClosedAt(answer.value, j, gap.openTime) ensures j == i { }
    }
  }

  /** THE SERVICE REPAIRS OLDEST FIRST: run over the unresolved gaps of a one-timeframe pipeline, whatever
      the broker answers, the loop keeps every order invariant, resolves exactly the `n` oldest gaps, takes
      nothing out of the line of bars, stops only at a gap the broker has no bar for, and when it gets through
      the list nothing is suspended or deferred. */
  lemma {:induction false} RepairsOldestFirst(s: Tower, fetch: GapRecord -> Option<seq<Candle>>)
    requires RepairOrder.Ordered(s) && Stacked(s.Setups())
    ensures var (t, n) := RepairLoop(s, OpenOf(s.gaps), fetch);
      && RepairOrder.Ordered(t) && RepairOrder.NothingPastGap(t) && OpenOf(t.gaps) == OpenOf(s.gaps)[n..]
      && (forall c :: c in s.log + s.deferred ==> c in t.log + t.deferred)
      && (n == |OpenOf(s.gaps)| ==> !t.suspended && t.deferred == [])
      && (n < |OpenOf(s.gaps)| ==> CannotRepair(OpenOf(s.gaps)[n], fetch(OpenOf(s.gaps)[n])))
    decreases |OpenOf(s.gaps)|
  {
    hide Tower.Setups, Evolves, Load, Weight, Lifted, Drain, Dispatch, RepairOrder.Opens;
    var list := OpenOf(s.gaps);
    OpenOfFirst(s.gaps);
    RepairOrder.OrderedNothingPastGap(s);
    if list == [] {
      NothingOpen(s);
    } else {
      RepairLoopStep(s, list, fetch);
      hide RepairOrder.Ordered, RepairOrder.NothingPastGap, RepairOrder.Answers, RepairOrder.Answered, RepairOrder.Resolved,
           RepairLoop, Matching, OpenOf, Repair, FirstOpen, Stacked, CannotRepair;
      var c := Matching(fetch(list[0]), list[0].openTime);
      if c.Some? && RepairOrder.Answers(s, c.value) {
        var u := Repair(s, c.value);
        RepairTakesFirst(s, c.value);
        RepairOrder.RepairOldest(s, c.value);
        RepairsOldestFirst(u, fetch);
      } else {
        StopsForWant(s, fetch(list[0]));
      }
    }
  }
}
