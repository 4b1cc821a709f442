/** What whole runs say about single minutes: trusted ones are admitted as they come out, the last admitted one
    is the latest, and a clock flush accounts for every minute that passed in silence. */
module SilentMinutes {
  import opened Timeline
  import opened Candles
  import opened LiveMinutes
  import opened Sorting
  import opened Tower
  import opened Pipeline
  import opened PipelineLaws
  import Verification
  import Continuity

  // ------------------------------------------------------------------ the books, minute by minute

  /** The mark of the last admitted minute is the latest open time admitted. */
  ghost predicate MarksLatest(p: Pipeline) {
    && (p.lastM1Open.None? <==> p.admitted == [])
    && (forall c :: c in p.admitted ==> p.lastM1Open.Some? && c.openTime <= p.lastM1Open.value)
    && (p.lastM1Open.Some? ==> exists c :: c in p.admitted && c.openTime == p.lastM1Open.value)
  }

  /** Every minute that came out trusted has been admitted as it came out. */
  ghost predicate TrustedIn(p: Pipeline) {
    forall i :: 0 <= i < |Follow(p.fed).log| && Follow(p.fed).log[i].trusted ==> Follow(p.fed).log[i].candle in p.admitted
  }

  predicate OnMinuteGrid(t: Instant) { Aligned(t, M1) }

  /** Admitted and waiting minutes lie on the minute grid. */
  ghost predicate OnGrid(p: Pipeline) {
    (forall c :: c in p.admitted ==> OnMinuteGrid(c.openTime)) && forall t :: t in p.pending ==> OnMinuteGrid(t)
  }

  ghost predicate Kept(p: Pipeline, grid: bool) { MarksLatest(p) && TrustedIn(p) && (grid ==> OnGrid(p)) }

  lemma AdmitKept(p: Pipeline, c: Candle, grid: bool)
    requires p.Sane() && Kept(p, grid) && (grid ==> OnMinuteGrid(c.openTime))
    ensures Kept(p.OnM1Closed(c), grid)
  {
    hide OnMinute, Stacked, OnMinuteGrid;
    var q := p.OnM1Closed(c);
    if c.openTime !in p.seen {
      assert c in q.admitted;
      assert forall x :: x in q.admitted <==> x in p.admitted || x == c;
    }
  }

  /** Telling the builder something it does not answer. */
  lemma ToldKept(p: Pipeline, e: Event, grid: bool)
    requires p.m1 == Follow(p.fed).b && Kept(p, grid) && p.m1.Step(e).1 == []
    ensures Kept(p.Told(e), grid) && p.Told(e).m1 == Follow(p.Told(e).fed).b
  {
    FollowSnoc(p.fed, e);
    assert Follow(p.fed).log + [] == Follow(p.fed).log;
  }

  lemma ConnectionKept(p: Pipeline, e: Event, grid: bool)
    requires p.m1 == Follow(p.fed).b && Kept(p, grid) && (e.OnConnect? || e.OnDisconnect? || e.OnStall?)
    ensures Kept(p.Told(e), grid)
  {
    ToldKept(p, e, grid);
  }

  /** A minute that comes out has not been admitted. */
  lemma ComesOutOnce(p: Pipeline, e: Event, g: Given)
    requires Inv(p, g) && p.m1.Step(e).1 != []
    ensures p.m1.Step(e).1[0].candle.openTime !in p.seen
  {
    var at := p.m1.Step(e).1[0].candle.openTime;
    PipelineLaws.Builder(p.fed);
    StepOrder(p.m1, e);
    FloorIdem(p, e);
    assert !Past(p.m1, at);
  }

  /** What the builder answers. */
  lemma BuiltKept(p: Pipeline, e: Event, g: Given, grid: bool)
    requires Inv(p, g) && Kept(p, grid)
    ensures Kept(p.Built(e), grid)
  {
    var out := p.m1.Step(e).1;
    StepAnswers(p.m1, e);
    if out == [] {
      ToldKept(p, e, grid);
    } else {
      var q, b := p.Told(e), out[0];
      ToldLog(p, e);
      ComesOutOnce(p, e, g);
      FloorIdem(p, e);
      OutKept(p, q, b, grid);
    }
  }

  lemma OutKept(p: Pipeline, q: Pipeline, b: BuiltM1, grid: bool)
    requires q.Sane() && Kept(p, grid) && q == p.(m1 := q.m1, fed := q.fed) && b.candle.openTime !in p.seen && OnMinuteGrid(b.candle.openTime)
    requires Follow(p.fed).log <= Follow(q.fed).log && |Follow(q.fed).log| == |Follow(p.fed).log| + 1
    requires var last := Follow(q.fed).log[|Follow(p.fed).log|]; last.candle == b.candle && last.trusted == b.trusted
    ensures Kept(q.OnBuilt(b), grid)
  {
    hide OnMinute, Stacked, Follow, OnMinuteGrid;
    var r := q.OnBuilt(b);
    if b.trusted {
      assert r.admitted == p.admitted + [b.candle];
      assert forall x :: x in r.admitted <==> x in p.admitted || x == b.candle;
    }
  }

  lemma SettledKept(p: Pipeline, c: Candle, grid: bool)
    requires p.Sane() && p.m1 == Follow(p.fed).b && Kept(p, grid) && (grid ==> OnMinuteGrid(c.openTime))
    ensures Kept(PipelineLaws.Settled(p, c), grid)
  {
    hide OnMinuteGrid;
    var t := c.openTime;
    var q := p.(pending := p.pending - {t});
    assert Kept(q, grid);
    ToldKept(q, OnMark(t), grid);
    hide Kept, Pipeline.OnM1Closed, Pipeline.Told, Stacked;
    AdmitKept(q.Told(OnMark(t)), c, grid);
  }

  lemma PendingKept(p: Pipeline, q: Pipeline, grid: bool)
    requires Kept(p, grid) && q == p.(pending := q.pending, recovering := q.recovering, tickBuffer := q.tickBuffer, queue := q.queue, tower := q.tower)
    requires grid ==> forall t :: t in q.pending ==> t in p.pending || OnMinuteGrid(t)
    ensures Kept(q, grid)
  {
  }

  // ------------------------------------------------------------------ where the scan looks

  lemma OnGridIff(t: Instant)
    ensures OnMinuteGrid(t) <==> t % MINUTE == 0
  {
    hide FloorTo;
    var i := CellIndex(t, M1);
    if t % MINUTE == 0 { GridPoint(t / MINUTE + IST_OFFSET / MINUTE, M1); }
  }

  /** A minute of the market that has passed under coverage since its start or since coverage began in it, later
      than every admitted minute, and not more than a day ago. */
  ghost predicate Passed(p: Pipeline, now: Instant, t: Instant) {
    && OnMinuteGrid(t) && p.config.isOpen(t) && t + MINUTE <= now
    && p.m1.coverageStart.Some? && p.m1.coverageStart.value < t + MINUTE
    && (forall c :: c in p.admitted ==> c.openTime < t)
    && FloorTo(now, MINUTE) - DAY <= t
  }

  predicate InProgress(p: Pipeline, t: Instant) { p.m1.forming.Some? && p.m1.forming.value.at == t }

  ghost predicate Waited(p: Pipeline, t: Instant) { t in p.seen || t in p.pending || InProgress(p, t) }

  lemma ScanStartIs(p: Pipeline, now: Instant)
    requires p.m1.coverageStart.Some?
    ensures p.ScanStart(now) == StartFrom(FloorTo(p.m1.coverageStart.value, MINUTE), p.lastM1Open, FloorTo(now, MINUTE) - DAY)
  {
    hide FloorTo;
  }

  function StartFrom(covered: Instant, last: Option<Instant>, oldest: Instant): Instant {
    Max(if last.Some? && covered < last.value + MINUTE then last.value + MINUTE else covered, oldest)
  }

  /** Flooring to a minute, seen from a minute `t`. */
  lemma FloorBounds(x: Instant, t: Instant)
    requires OnMinuteGrid(t)
    ensures var floor := FloorTo(x, MINUTE); OnMinuteGrid(floor) && (floor <= t <==> x < t + MINUTE) && (t < floor <==> t + MINUTE <= x)
  {
    hide FloorTo;
    var floor := FloorTo(x, MINUTE);
    FloorCell(x, M1);
    if t < floor { AlignedApart(t, floor, M1); }
  }

  /** The start is the latest of its bounds. */
  lemma StartIsLatest(covered: Instant, last: Option<Instant>, oldest: Instant, t: Instant)
    ensures var start := StartFrom(covered, last, oldest);
      && (start == covered || start == oldest || (last.Some? && start == last.value + MINUTE))
      && (start <= t <==> covered <= t && oldest <= t && (last.Some? ==> last.value + MINUTE <= t))
  {
  }

  lemma StartBounds(cs: Instant, last: Option<Instant>, now: Instant, t: Instant)
    requires last.Some? ==> OnMinuteGrid(last.value)
    ensures var start := StartFrom(FloorTo(cs, MINUTE), last, FloorTo(now, MINUTE) - DAY);
      && OnMinuteGrid(start) && (OnMinuteGrid(t) <==> (t - start) % MINUTE == 0)
      && (OnMinuteGrid(t) ==> (start <= t <==> cs < t + MINUTE && (last.Some? ==> last.value < t) && FloorTo(now, MINUTE) - DAY <= t))
  {
    hide FloorTo, OnMinuteGrid, StartFrom;
    var start := StartFrom(FloorTo(cs, MINUTE), last, FloorTo(now, MINUTE) - DAY);
    StartIsLatest(FloorTo(cs, MINUTE), last, FloorTo(now, MINUTE) - DAY, t);
    FloorOnGrid(cs);
    FloorOnGrid(now);
    GridShift(FloorTo(now, MINUTE), -DAY);
    if last.Some? { GridShift(last.value, MINUTE); }
    GridOrNot(t, start);
    if OnMinuteGrid(t) {
      FloorBounds(cs, t);
      if last.Some? {
        FloorIsSelf(t);
        FloorBounds(t, last.value);
      }
    }
  }

  lemma FloorOnGrid(x: Instant)
    ensures OnMinuteGrid(FloorTo(x, MINUTE))
  {
    FloorCell(x, M1);
  }

  lemma FloorIsSelf(t: Instant)
    requires OnMinuteGrid(t)
    ensures FloorTo(t, MINUTE) == t
  {
  }

  lemma GridShift(t: Instant, shift: int)
    requires OnMinuteGrid(t) && (shift == MINUTE || shift == -DAY)
    ensures OnMinuteGrid(t + shift)
  {
    OnGridIff(t);
    OnGridIff(t + shift);
  }

  lemma GridOrNot(t: Instant, start: Instant)
    requires OnMinuteGrid(start)
    ensures OnMinuteGrid(t) <==> (t - start) % MINUTE == 0
  {
    OnGridIff(t);
    OnGridIff(start);
    assert start == MINUTE * (start / MINUTE);
    if t % MINUTE == 0 { assert t - start == MINUTE * (t / MINUTE - start / MINUTE); }
    if (t - start) % MINUTE == 0 { assert t == MINUTE * ((t - start) / MINUTE + start / MINUTE); }
  }

  lemma LatestBefore(p: Pipeline, t: Instant)
    requires MarksLatest(p)
    ensures (forall c :: c in p.admitted ==> c.openTime < t) <==> (p.lastM1Open.Some? ==> p.lastM1Open.value < t)
  {
    if p.lastM1Open.Some? {
      var c :| c in p.admitted && c.openTime == p.lastM1Open.value;
    } else {
      assert forall c :: c !in p.admitted;
    }
  }

  /** The scan queues exactly the minutes that passed in silence. */
  lemma ScanQueues(p: Pipeline, now: Instant, t: Instant)
    requires MarksLatest(p) && OnGrid(p)
    ensures var q := p.DetectSilent(now); q == p.(pending := q.pending) && (t in q.pending <==> t in p.pending || (Passed(p, now, t) && !Waited(p, t)))
  {
    hide FloorTo, OnMinuteGrid, Pipeline.ScanStart, Pipeline.Scan, StartFrom;
    if p.m1.coverageStart.Some? {
      if p.lastM1Open.Some? {
        var c :| c in p.admitted && c.openTime == p.lastM1Open.value;
      }
      ScanExact(p, p.ScanStart(now), FloorTo(now, MINUTE), t);
      ScanStartIs(p, now);
      StartBounds(p.m1.coverageStart.value, p.lastM1Open, now, t);
      LatestBefore(p, t);
      if OnMinuteGrid(t) { FloorBounds(now, t); }
    }
  }

  // ------------------------------------------------------------------ every call

  lemma ScanKept(p: Pipeline, now: Instant, grid: bool)
    requires Kept(p, grid)
    ensures Kept(p.DetectSilent(now), grid)
  {
    var q := p.DetectSilent(now);
    if grid {
      forall t | t in q.pending ensures t in p.pending || OnMinuteGrid(t) { ScanQueues(p, now, t); }
    }
    PendingKept(p, q, grid);
  }

  lemma ClockKept(p: Pipeline, now: Instant, g: Given, grid: bool)
    requires Inv(p, g) && Kept(p, grid)
    ensures Kept(p.FlushAt(now), grid)
  {
    assert p.Sane();
    hide Kept, Inv, FlushHigher, FlushPrimary, Pipeline.Built, Pipeline.DetectSilent, Stacked;
    if !p.recovering {
      var b := p.Built(OnFlush(now));
      BuiltKept(p, OnFlush(now), g, grid);
      ScanKept(b, now, grid);
      PendingKept(b.DetectSilent(now), p.FlushAt(now), grid);
    }
  }

  lemma {:induction false} TicksKept(p: Pipeline, ts: seq<Tick>, g: Given, grid: bool)
    requires Inv(p, g) && Kept(p, grid)
    ensures Kept(p.AddTicks(ts), grid)
    decreases |ts|
  {
    if ts != [] {
      TickKept(p, ts[0], g, grid);
      AddTickSafe(p, ts[0], g);
      TicksKept(p.AddTick(ts[0]), ts[1..], g, grid);
    }
  }

  lemma TickKept(p: Pipeline, t: Tick, g: Given, grid: bool)
    requires Inv(p, g) && Kept(p, grid)
    ensures Kept(p.AddTick(t), grid)
  {
    assert p.Sane();
    hide Kept, Inv, Pipeline.Built, Stacked;
    if p.recovering { PendingKept(p, p.AddTick(t), grid); } else { BuiltKept(p, OnTick(t), g, grid); }
  }

  lemma {:induction false} RecoverKept(p: Pipeline, cs: seq<Candle>, g: Given, grid: bool)
    requires Inv(p, g) && Kept(p, grid) && forall c :: c in cs && c.closed && c.tf == M1 ==> c in g.minutes && (grid ==> OnMinuteGrid(c.openTime))
    ensures Kept(p.RecoverAll(cs), grid)
    decreases |cs|
  {
    hide Kept, OnMinuteGrid;
    if cs != [] {
      var c := cs[0];
      if c.closed && c.tf == M1 && c.openTime !in p.seen {
        RecoverOneIs(p, c);
        SettledKept(p, c, grid);
      }
      RecoverOneSafe(p, c, g);
      hide Inv, Pipeline.RecoverOne;
      RecoverKept(p.RecoverOne(c), cs[1..], g, grid);
    }
  }

  lemma {:induction false} VerifyKept(p: Pipeline, byTime: map<Instant, Candle>, minutes: seq<Instant>, now: Instant, fill: bool, fetched: Option<Range>, g: Given, grid: bool)
    requires Inv(p, g) && Kept(p, grid) && Offered(byTime, fill, fetched, g) && (grid ==> forall t :: t in minutes ==> OnMinuteGrid(t))
    ensures Kept(p.VerifyAll(byTime, minutes, now, fill, fetched), grid)
    decreases |minutes|
  {
    hide Kept, OnMinuteGrid, Settling;
    if minutes != [] {
      var t := minutes[0];
      if Settles(byTime, t, now, fill, fetched) {
        var c := Settling(byTime, t, fill, fetched).value;
        assert c.openTime == t;
        SettledKept(p, c, grid);
        assert p.VerifyOne(byTime, t, now, fill, fetched) == PipelineLaws.Settled(p, c);
      }
      VerifyOneSafe(p, byTime, t, now, fill, fetched, g);
      hide Inv, Pipeline.VerifyOne, Offered, Settles;
      VerifyKept(p.VerifyOne(byTime, t, now, fill, fetched), byTime, minutes[1..], now, fill, fetched, g, grid);
    }
  }

  /** The minutes a call brings along lie on the minute grid. */
  ghost predicate BringsGrid(c: Call) {
    match c
    case Recover(cs) => forall x :: x in cs ==> OnMinuteGrid(x.openTime)
    case Unreturned(minute) => OnMinuteGrid(minute)
    case _ => true
  }

  lemma CallKept(p: Pipeline, c: Call, g: Given, grid: bool)
    requires Inv(p, g) && Kept(p, grid) && (grid ==> BringsGrid(c))
    ensures Kept(Perform(p, c), grid)
  {
    hide Kept, Perform, BringsGrid, Stacked;
    GivenMore(p, g, Plus(g, c));
    if c.TickIn? || c.Clock? || c.EndRecovery? { TimeKept(p, c, Plus(g, c), grid); }
    else if c.Recover? || c.Verify? { BrokerKept(p, c, g, grid); }
    else if c.Connected? || c.Disconnected? || c.Stalled? { FeedKept(p, c, grid); }
    else { AsideKept(p, c, grid); }
  }

  lemma TimeKept(p: Pipeline, c: Call, g: Given, grid: bool)
    requires Inv(p, g) && Kept(p, grid) && (c.TickIn? || c.Clock? || c.EndRecovery?)
    ensures Kept(Perform(p, c), grid)
  {
    hide Kept, Pipeline.AddTick, Pipeline.FlushAt, Pipeline.EndRecovery, Pipeline.Grows, Stacked, Pipeline.Sane,
         Booked, LogKnown;
    assert p.Sane();
    hide Inv, Kept, Pipeline.AddTick, Pipeline.FlushAt, Pipeline.EndRecovery, Pipeline.Grows, Stacked;
    if c.TickIn? { TickKept(p, c.tick, g, grid); }
    else if c.Clock? { ClockKept(p, c.now, g, grid); }
    else { ReplayKept(p, g, grid); }
  }

  lemma ReplayKept(p: Pipeline, g: Given, grid: bool)
    requires Inv(p, g) && Kept(p, grid)
    ensures Kept(p.EndRecovery(), grid)
  {
    assert p.Sane();
    hide Inv, Kept, Pipeline.AddTicks, Pipeline.Grows, Stacked;
    var q := p.(recovering := false, tickBuffer := []);
    AsideSafe(p, q, g);
    PendingKept(p, q, grid);
    TicksKept(q, p.tickBuffer, g, grid);
  }

  lemma BrokerKept(p: Pipeline, c: Call, g: Given, grid: bool)
    requires Inv(p, g) && Kept(p, grid) && (grid ==> BringsGrid(c)) && (c.Recover? || c.Verify?)
    ensures Kept(Perform(p, c), grid)
  {
    GivenMore(p, g, Plus(g, c));
    if c.Recover? {
      SortMembers(c.candles, ByOpen);
      hide Inv, Kept, OnMinuteGrid, Pipeline.RecoverAll;
      RecoverKept(p, Sort(c.candles, ByOpen), Plus(g, c), grid);
    } else {
      assert grid ==> forall t :: t in Ascending(p.pending) ==> OnMinuteGrid(t);
      hide Inv, Kept, OnMinuteGrid, Pipeline.VerifyAll;
      VerifyKept(p, ByTime(c.candles), Ascending(p.pending), c.now, c.fill, c.fetched, Plus(g, c), grid);
    }
  }

  lemma FeedKept(p: Pipeline, c: Call, grid: bool)
    requires p.Sane() && p.m1 == Follow(p.fed).b && Kept(p, grid) && (c.Connected? || c.Disconnected? || c.Stalled?)
    ensures Kept(Perform(p, c), grid)
  {
    hide Kept, Pipeline.Told, Follow;
    if c.Connected? { ConnectionKept(p, OnConnect(c.ts), grid); }
    else if c.Disconnected? { ConnectionKept(p, OnDisconnect, grid); }
    else { ConnectionKept(p, OnStall, grid); }
  }

  lemma ReconciledKept(p: Pipeline, cs: seq<Candle>, grid: bool)
    requires Kept(p, grid)
    ensures Kept(p.ReconcileM1(cs), grid)
  {
    hide Kept, Pipeline.ReconcileM1;
    Verification.ReconcileCorrects(p, cs);
    PendingKept(p, p.ReconcileM1(cs), grid);
  }

  /** Calls that admit nothing. */
  lemma AsideKept(p: Pipeline, c: Call, grid: bool)
    requires p.Sane() && Kept(p, grid) && (grid ==> BringsGrid(c))
    requires c.BeginRecovery? || c.Unreturned? || c.Reconcile? || c.RepairGap?
    ensures Kept(Perform(p, c), grid)
  {
    hide Kept, OnMinuteGrid, Stacked, Repair, Pipeline.ReconcileM1, Pipeline.Grows, Pipeline.Sane;
    if c.BeginRecovery? { PendingKept(p, p.(recovering := true), grid); }
    else if c.Unreturned? { PendingKept(p, p.MarkPending(c.minute), grid); }
    else if c.Reconcile? { ReconciledKept(p, c.candles, grid); }
    else { PendingKept(p, p.RepairBar(c.bar), grid); }
  }

  // ------------------------------------------------------------------ whole runs

  /** A pipeline before anything happened. */
  ghost predicate New(p: Pipeline) { Fresh(p) && p.lastM1Open.None? }

  lemma {:induction false} RunKept(p: Pipeline, calls: seq<Call>, grid: bool)
    requires New(p) && (grid ==> forall i :: 0 <= i < |calls| ==> BringsGrid(calls[i]))
    ensures Kept(Run(p, calls), grid)
  {
    if calls == [] {
      assert Follow([]).log == [];
    } else {
      var front, last := calls[..|calls| - 1], calls[|calls| - 1];
      RunKept(p, front, grid);
      RunSafe(p, front);
      CallKept(Run(p, front), last, GivenBy(front), grid);
    }
  }

  /** TRUST ADMITS: over every run a minute that came out trusted has been admitted as it came out, never
      waiting for the broker; and the mark of the last admitted minute is the latest open time admitted. */
  lemma TrustedAreAdmitted(p: Pipeline, calls: seq<Call>)
    requires New(p)
    ensures var q := Run(p, calls);
      && (forall i :: 0 <= i < |Follow(q.fed).log| && Follow(q.fed).log[i].trusted ==> Follow(q.fed).log[i].candle in q.admitted)
      && MarksLatest(q)
  {
    RunKept(p, calls, false);
  }

  /** SILENT MINUTES ARE FOUND: over every run that brings minutes on the minute grid, after a clock flush outside
      recovery every minute that passed is processed, waiting or in progress; and what the flush queued is
      either such a minute, in silence, or the minute that was in progress, ended and not trusted. */
  lemma FlushFindsSilent(p: Pipeline, calls: seq<Call>, now: Instant)
    requires New(p) && (forall i :: 0 <= i < |calls| ==> BringsGrid(calls[i])) && !Run(p, calls).recovering
    ensures var s := Run(p, calls); var q := s.FlushAt(now);
      && (forall t :: Passed(q, now, t) ==> Waited(q, t))
      && (forall t :: t in q.pending ==> t in s.pending || (Passed(q, now, t) && t !in q.seen && !InProgress(q, t)) || Untrusted(s, now, t))
      && s.pending <= q.pending
  {
    RunKept(p, calls, true);
    RunSafe(p, calls);
    var s := Run(p, calls);
    BuiltKept(s, OnFlush(now), GivenBy(calls), true);
    FlushQueues(s, now);
  }

  /** The minute in progress has ended without trust. */
  predicate Untrusted(p: Pipeline, now: Instant, t: Instant) { InProgress(p, t) && t + MINUTE <= now && !p.m1.forming.value.trusted }

  lemma FlushQueues(s: Pipeline, now: Instant)
    requires s.Sane() && !s.recovering && MarksLatest(s.Built(OnFlush(now))) && OnGrid(s.Built(OnFlush(now)))
    ensures var q := s.FlushAt(now);
      && (forall t :: Passed(q, now, t) ==> Waited(q, t))
      && (forall t :: t in q.pending ==> t in s.pending || (Passed(q, now, t) && t !in q.seen && !InProgress(q, t)) || Untrusted(s, now, t))
      && s.pending <= q.pending
  {
    hide FlushHigher, FlushPrimary, Stacked, MarksLatest, OnGrid, Pipeline.DetectSilent, Passed;
    var b, q := s.Built(OnFlush(now)), s.FlushAt(now);
    assert forall t :: t in b.pending <==> t in s.pending || (Untrusted(s, now, t) && t !in s.seen);
    hide Pipeline.Built;
    forall t
      ensures Passed(q, now, t) ==> Waited(q, t)
      ensures t in q.pending ==> t in s.pending || (Passed(q, now, t) && t !in q.seen && !InProgress(q, t)) || Untrusted(s, now, t)
    {
      ScanQueues(b, now, t);
      PassedSame(b, q, now, t);
    }
  }

  lemma PassedSame(p: Pipeline, q: Pipeline, now: Instant, t: Instant)
    requires q == p.(pending := q.pending, tower := q.tower)
    ensures Passed(p, now, t) <==> Passed(q, now, t)
  {
  }

  // ------------------------------------------------------------------ where recovery looks

  /** THE RECOVERY WINDOW: over every run that brings minutes on the minute grid, it holds exactly the passed
      minutes from the one in progress on, else those after every admitted one, else those from the fallback. */
  lemma WindowHolds(p: Pipeline, calls: seq<Call>, fallback: Option<Instant>, now: Instant, t: Instant)
    requires New(p) && (forall i :: 0 <= i < |calls| ==> BringsGrid(calls[i])) && OnMinuteGrid(t)
    ensures var s := Run(p, calls); var w := Continuity.RecoveryWindow(s, fallback, now);
      (w.Some? && w.value.start <= t < w.value.end) <==>
        && t + MINUTE <= now
        && (if s.m1.forming.Some? then s.m1.forming.value.at <= t
            else if s.admitted != [] then forall c :: c in s.admitted ==> c.openTime < t
            else fallback.Some? && fallback.value < t + MINUTE)
  {
    var s := Run(p, calls);
    RunKept(p, calls, true);
    RunSafe(p, calls);
    FormingAligned(s.fed);
    LatestBefore(s, t);
    WindowFrom(s, fallback, now, t);
  }

  lemma WindowFrom(s: Pipeline, fallback: Option<Instant>, now: Instant, t: Instant)
    requires MarksLatest(s) && OnGrid(s) && OnMinuteGrid(t) && (s.m1.forming.Some? ==> OnMinuteGrid(s.m1.forming.value.at))
    ensures var w := Continuity.RecoveryWindow(s, fallback, now);
      (w.Some? && w.value.start <= t < w.value.end) <==>
        && t + MINUTE <= now
        && (if s.m1.forming.Some? then s.m1.forming.value.at <= t
            else if s.lastM1Open.Some? then s.lastM1Open.value < t
            else fallback.Some? && fallback.value < t + MINUTE)
  {
    hide FloorTo, OnMinuteGrid;
    var start := if s.RecoveryStart().Some? then s.RecoveryStart() else fallback;
    FloorBounds(now, t);
    FloorIsSelf(t);
    if start.Some? { FloorBounds(start.value, t); }
    if s.m1.forming.Some? { FloorIsSelf(s.m1.forming.value.at); }
    if s.lastM1Open.Some? {
      var c :| c in s.admitted && c.openTime == s.lastM1Open.value;
      GridShift(s.lastM1Open.value, MINUTE);
      FloorIsSelf(s.lastM1Open.value + MINUTE);
      FloorBounds(t, s.lastM1Open.value);
    }
  }

  // ------------------------------------------------------------------ where a minute goes

  /** EACH MINUTE GOES SOMEWHERE: a minute that comes out trusted is admitted and, where live minutes are reconciled,
      queued for it; any other waits for the broker. Nothing else is admitted, queued or left waiting. */
  lemma MinuteGoes(p: Pipeline, e: Event, g: Given)
    requires Inv(p, g) && p.m1.Step(e).1 != []
    ensures var b, q := p.m1.Step(e).1[0], p.Built(e); var t := b.candle.openTime;
      if b.trusted then
        && q.admitted == p.admitted + [b.candle] && t in q.seen && q.pending == p.pending
        && q.queue == if p.config.reconcileLive then p.queue[t := b.candle] else p.queue
      else
        q.admitted == p.admitted && q.seen == p.seen && q.pending == p.pending + {t} && q.queue == p.queue && q.tower == p.tower
  {
    ComesOutOnce(p, e, g);
    OutGoes(p.Told(e), p.m1.Step(e).1[0]);
    assert p.Built(e) == p.Told(e).OnBuilt(p.m1.Step(e).1[0]);
    hide Inv, Builder.Step, Stacked, OnMinute, Pipeline.OnBuilt, Pipeline.Built;
  }

  lemma OutGoes(p: Pipeline, b: BuiltM1)
    requires p.Sane() && b.candle.openTime !in p.seen
    ensures var q := p.OnBuilt(b); var t := b.candle.openTime;
      if b.trusted then
        && q.admitted == p.admitted + [b.candle] && t in q.seen && q.pending == p.pending
        && q.queue == if p.config.reconcileLive then p.queue[t := b.candle] else p.queue
      else
        q.admitted == p.admitted && q.seen == p.seen && q.pending == p.pending + {t} && q.queue == p.queue && q.tower == p.tower
  {
    hide OnMinute, Stacked;
  }
}
