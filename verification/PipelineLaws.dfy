/** Whole runs of the pipeline: whatever order ticks, clock, connection changes, recovery, verification,
    reconciliation and repairs come in, nothing uncovered reaches aggregation and no minute is forgotten. */
module PipelineLaws {
  import opened Timeline
  import opened Candles
  import opened Aggregation
  import opened LiveMinutes
  import opened Sorting
  import opened Tower
  import opened Pipeline
  import TowerLaws

  // ------------------------------------------------------------------ runs

  /** What can be asked of a pipeline from outside. */
  datatype Call =
    | TickIn(tick: Tick) | Connected(ts: Instant) | Disconnected | Stalled | Clock(now: Instant)
    | BeginRecovery | Recover(candles: seq<Candle>) | EndRecovery
    | Verify(candles: seq<Candle>, now: Instant, fill: bool, fetched: Option<Range>)
    | Unreturned(minute: Instant) | Reconcile(candles: seq<Candle>) | RepairGap(bar: Candle)

  function Perform(p: Pipeline, c: Call): (q: Pipeline)
    requires p.Sane()
    ensures p.Grows(q)
  {
    match c
    case TickIn(t) => p.AddTick(t)
    case Connected(ts) => p.Told(OnConnect(ts))
    case Disconnected => p.Told(OnDisconnect)
    case Stalled => p.Told(OnStall)
    case Clock(now) => p.FlushAt(now)
    case BeginRecovery => p.(recovering := true)
    case Recover(cs) => p.RecoverM1(cs)
    case EndRecovery => p.EndRecovery()
    case Verify(cs, now, fill, fetched) => p.VerifyM1(cs, now, fill, fetched)
    case Unreturned(minute) => p.MarkPending(minute)
    case Reconcile(cs) => p.ReconcileM1(cs)
    case RepairGap(bar) => p.RepairBar(bar)
  }

  function Run(p: Pipeline, calls: seq<Call>): (q: Pipeline)
    requires p.Sane()
    ensures p.Grows(q)
  {
    if calls == [] then p
    else
      var before := Run(p, calls[..|calls| - 1]);
      var after := Perform(before, calls[|calls| - 1]);
      GrowsThen(p, before, after);
      after
  }

  lemma GrowsThen(p: Pipeline, q: Pipeline, r: Pipeline)
    requires p.Grows(q) && q.Grows(r)
    ensures p.Grows(r)
  {
  }

  // ------------------------------------------------------------------ what a run was given

  /** A broker answer used where zero-trade fills are allowed. */
  datatype Answer = Answer(byTime: map<Instant, Candle>, fetched: Option<Range>)

  /** Broker minutes, answers that may be filled, reconciliation minutes and gap bars. */
  datatype Given = Given(minutes: set<Candle>, answers: set<Answer>, reconciled: set<Candle>, bars: set<Candle>)

  ghost predicate Within(g: Given, h: Given) {
    g.minutes <= h.minutes && g.answers <= h.answers && g.reconciled <= h.reconciled && g.bars <= h.bars
  }

  function ClosedMinutes(cs: seq<Candle>): set<Candle> { set c | c in cs && c.closed && c.tf == M1 }

  function Plus(g: Given, c: Call): (h: Given)
    ensures Within(g, h)
  {
    match c
    case Recover(cs) => g.(minutes := g.minutes + ClosedMinutes(cs))
    case Verify(cs, _, fill, fetched) =>
      g.(minutes := g.minutes + ClosedMinutes(cs), answers := if fill then g.answers + {Answer(ByTime(cs), fetched)} else g.answers)
    case Reconcile(cs) => g.(reconciled := g.reconciled + ClosedMinutes(cs))
    case RepairGap(bar) => g.(bars := g.bars + {bar})
    case _ => g
  }

  function GivenBy(calls: seq<Call>): Given {
    if calls == [] then Given({}, {}, {}, {}) else Plus(GivenBy(calls[..|calls| - 1]), calls[|calls| - 1])
  }

  // ------------------------------------------------------------------ the invariant

  /** A live minute that came out of the builder trusted. */
  ghost predicate LiveTrusted(fed: seq<Event>, c: Candle) {
    exists i :: 0 <= i < |Follow(fed).log| && Follow(fed).log[i].trusted && Follow(fed).log[i].candle == c
  }

  /** A flat bar strictly inside an answer for which fills were allowed. */
  ghost predicate Filled(g: Given, c: Candle) { exists a :: a in g.answers && FlatBetween(a.byTime, c.openTime, a.fetched, c) }

  /** The three ways into aggregation. */
  ghost predicate Admissible(fed: seq<Event>, g: Given, c: Candle) {
    c.closed && c.tf == M1 && (LiveTrusted(fed, c) || c in g.minutes || Filled(g, c))
  }

  /** What the tower may build on: admitted minutes and reconciliation minutes; and the bars that may repair gaps. */
  ghost function EvidenceFor(p: Pipeline, g: Given): TowerLaws.Evidence {
    TowerLaws.Evidence((set c | c in p.admitted) + g.reconciled, g.bars)
  }

  ghost predicate TowerSafe(p: Pipeline, g: Given) {
    p.Sane() && TowerLaws.Inv(p.tower, EvidenceFor(p, g)) && TowerLaws.Settled(p.tower)
  }

  ghost predicate Known(p: Pipeline, t: Instant) { t in p.seen || t in p.pending }

  /** The first `n` minutes the builder closed are admitted or waiting. */
  ghost predicate LogKnown(p: Pipeline, n: nat) {
    n <= |Follow(p.fed).log| && forall i :: 0 <= i < n ==> Known(p, Follow(p.fed).log[i].candle.openTime)
  }

  ghost predicate SeenIsAdmitted(p: Pipeline) {
    && (forall i :: 0 <= i < |p.admitted| ==> p.admitted[i].openTime in p.seen)
    && (forall t :: t in p.seen ==> exists i :: 0 <= i < |p.admitted| && p.admitted[i].openTime == t)
    && (forall i, j :: 0 <= i < j < |p.admitted| ==> p.admitted[i].openTime != p.admitted[j].openTime)
  }

  /** The builder has moved past the minute. */
  ghost predicate Past(b: Builder, t: Instant) { b.lastEmitted.Some? && FloorTo(t, MINUTE) <= b.lastEmitted.value }

  /** The books: the builder is what it was told, every admitted minute is admissible and admitted once,
      and the builder has moved past it. */
  ghost predicate Booked(p: Pipeline, g: Given) {
    && p.m1 == Follow(p.fed).b
    && (forall i :: 0 <= i < |p.admitted| ==> Admissible(p.fed, g, p.admitted[i]))
    && SeenIsAdmitted(p) && (forall t :: t in p.seen ==> Past(p.m1, t))
  }

  ghost predicate Inv(p: Pipeline, g: Given) { TowerSafe(p, g) && Booked(p, g) && LogKnown(p, |Follow(p.fed).log|) }

  /** No minute is forgotten: what was waiting is waiting still, or admitted. */
  ghost predicate Keeps(p: Pipeline, q: Pipeline) { forall t :: t in p.pending ==> Known(q, t) }

  ghost predicate Safe(p: Pipeline, q: Pipeline, g: Given) { Inv(q, g) && Keeps(p, q) }

  lemma SafeThen(p: Pipeline, q: Pipeline, r: Pipeline, g: Given)
    requires Safe(p, q, g) && Safe(q, r, g) && q.seen <= r.seen
    ensures Safe(p, r, g)
  {
  }

  // ------------------------------------------------------------------ telling the builder

  lemma Builder(fed: seq<Event>)
    ensures OrderInv(Follow(fed).b)
  {
    MinutesIncrease(fed);
  }

  /** The builder's log only grows, by what it answers; it never goes back. */
  lemma ToldLog(p: Pipeline, e: Event)
    requires p.m1 == Follow(p.fed).b
    ensures var q := p.Told(e); var out := p.m1.Step(e).1;
      && q.m1 == Follow(q.fed).b && |out| <= 1
      && Follow(p.fed).log <= Follow(q.fed).log && |Follow(q.fed).log| == |Follow(p.fed).log| + |out|
      && (out != [] ==> Follow(q.fed).log[|Follow(p.fed).log|].candle == out[0].candle
                        && Follow(q.fed).log[|Follow(p.fed).log|].trusted == out[0].trusted
                        && out[0].candle.closed && out[0].candle.tf == M1
                        && q.m1.lastEmitted == Some(out[0].candle.openTime))
      && (forall t :: Past(p.m1, t) ==> Past(q.m1, t))
  {
    Builder(p.fed);
    FollowSnoc(p.fed, e);
    StepOrder(p.m1, e);
    StepAnswers(p.m1, e);
  }

  lemma AdmissibleLater(fed: seq<Event>, more: seq<Event>, g: Given, c: Candle)
    requires Admissible(fed, g, c) && Follow(fed).log <= Follow(more).log
    ensures Admissible(more, g, c)
  {
    if LiveTrusted(fed, c) {
      var i :| 0 <= i < |Follow(fed).log| && Follow(fed).log[i].trusted && Follow(fed).log[i].candle == c;
      assert Follow(more).log[i] == Follow(fed).log[i];
    }
  }

  lemma ToldSafe(p: Pipeline, e: Event, g: Given)
    requires Inv(p, g)
    ensures var q := p.Told(e); TowerSafe(q, g) && Booked(q, g) && LogKnown(q, |Follow(p.fed).log|)
  {
    var q := p.Told(e);
    ToldLog(p, e);
    forall i | 0 <= i < |q.admitted| ensures Admissible(q.fed, g, q.admitted[i]) {
      AdmissibleLater(p.fed, q.fed, g, p.admitted[i]);
    }
    forall i | 0 <= i < |Follow(p.fed).log| ensures Known(q, Follow(q.fed).log[i].candle.openTime) {
      assert Known(p, Follow(p.fed).log[i].candle.openTime);
    }
  }

  // ------------------------------------------------------------------ admitting a minute

  lemma AdmitTower(p: Pipeline, c: Candle, g: Given)
    requires TowerSafe(p, g) && c.closed && c.tf == M1
    ensures TowerSafe(p.OnM1Closed(c), g)
  {
    hide TowerLaws.Inv, TowerLaws.Settled, OnMinute, Stacked;
    if c.openTime !in p.seen {
      var q, e := p.OnM1Closed(c), EvidenceFor(p, g);
      TowerLaws.PerformSafe(p.tower, TowerLaws.Minute(c), e);
      assert EvidenceFor(q, g) == TowerLaws.With(e, TowerLaws.Minute(c));
    }
  }

  lemma AdmitBooked(p: Pipeline, c: Candle, g: Given)
    requires p.Sane() && Booked(p, g) && Admissible(p.fed, g, c) && Past(p.m1, c.openTime)
    ensures Booked(p.OnM1Closed(c), g)
  {
    hide Admissible, OnMinute, Stacked;
    var q := p.OnM1Closed(c);
    if c.openTime !in p.seen {
      forall t | t in q.seen ensures exists i :: 0 <= i < |q.admitted| && q.admitted[i].openTime == t {
        if t in p.seen {
          var i :| 0 <= i < |p.admitted| && p.admitted[i].openTime == t;
          assert q.admitted[i].openTime == t;
        } else {
          assert q.admitted[|p.admitted|].openTime == t;
        }
      }
    }
  }

  lemma AdmitSafe(p: Pipeline, c: Candle, g: Given, n: nat)
    requires TowerSafe(p, g) && Booked(p, g) && LogKnown(p, n) && Admissible(p.fed, g, c) && Past(p.m1, c.openTime)
    ensures var q := p.OnM1Closed(c); TowerSafe(q, g) && Booked(q, g) && LogKnown(q, n) && Keeps(p, q)
  {
    AdmitTower(p, c, g);
    AdmitBooked(p, c, g);
    var q := p.OnM1Closed(c);
    forall i | 0 <= i < n ensures Known(q, Follow(q.fed).log[i].candle.openTime) {
      assert Known(p, Follow(p.fed).log[i].candle.openTime);
    }
  }

  lemma PendingSafe(p: Pipeline, minute: Instant, g: Given, n: nat)
    requires TowerSafe(p, g) && Booked(p, g) && LogKnown(p, n)
    ensures var q := p.MarkPending(minute); TowerSafe(q, g) && Booked(q, g) && LogKnown(q, n) && Keeps(p, q) && Known(q, minute)
  {
    var q := p.MarkPending(minute);
    assert EvidenceFor(q, g) == EvidenceFor(p, g);
    forall i | 0 <= i < n ensures Known(q, Follow(q.fed).log[i].candle.openTime) {
      assert Known(p, Follow(p.fed).log[i].candle.openTime);
    }
  }

  /** The reconciliation queue is on the side. */
  lemma QueueSafe(p: Pipeline, queue: map<Instant, Candle>, g: Given, n: nat)
    requires TowerSafe(p, g) && Booked(p, g) && LogKnown(p, n)
    ensures var q := p.(queue := queue); TowerSafe(q, g) && Booked(q, g) && LogKnown(q, n)
  {
    var q := p.(queue := queue);
    assert EvidenceFor(q, g) == EvidenceFor(p, g);
    forall i | 0 <= i < n ensures Known(q, Follow(q.fed).log[i].candle.openTime) {
      assert Known(p, Follow(p.fed).log[i].candle.openTime);
    }
  }

  /** The minute the builder has just closed is admitted or waits. */
  lemma AnswerSafe(p: Pipeline, b: BuiltM1, g: Given, n: nat)
    requires TowerSafe(p, g) && Booked(p, g) && LogKnown(p, n) && |Follow(p.fed).log| == n + 1
    requires Follow(p.fed).log[n].candle == b.candle && Follow(p.fed).log[n].trusted == b.trusted
    requires b.candle.closed && b.candle.tf == M1 && Past(p.m1, b.candle.openTime)
    ensures Safe(p, p.OnBuilt(b), g)
  {
    hide TowerLaws.Inv, TowerLaws.Settled, Booked, Pipeline.OnM1Closed, Follow, LogKnown, EvidenceFor;
    var c := b.candle;
    var q := if b.trusted && p.config.reconcileLive then p.(queue := p.queue[c.openTime := c]) else p;
    QueueSafe(p, p.queue[c.openTime := c], g, n);
    if b.trusted {
      assert LiveTrusted(q.fed, c);
      AdmitSafe(q, c, g, n);
    } else {
      PendingSafe(q, c.openTime, g, n);
    }
    LogKnownMore(p.OnBuilt(b), n);
  }

  lemma LogKnownMore(p: Pipeline, n: nat)
    requires LogKnown(p, n) && n < |Follow(p.fed).log| && Known(p, Follow(p.fed).log[n].candle.openTime)
    ensures LogKnown(p, n + 1)
  {
  }

  /** What the builder answers is admitted or waits. */
  lemma BuiltSafe(p: Pipeline, e: Event, g: Given)
    requires Inv(p, g)
    ensures Safe(p, p.Built(e), g)
  {
    var q, out, n := p.Told(e), p.m1.Step(e).1, |Follow(p.fed).log|;
    ToldSafe(p, e, g);
    ToldLog(p, e);
    if out != [] {
      FloorIdem(p, e);
      hide TowerSafe, Booked, Pipeline.Told, Pipeline.OnBuilt;
      AnswerSafe(q, out[0], g, n);
    }
  }

  /** A minute that comes out is on its own minute. */
  lemma FloorIdem(p: Pipeline, e: Event)
    requires p.m1 == Follow(p.fed).b && p.m1.Step(e).1 != []
    ensures FloorTo(p.m1.Step(e).1[0].candle.openTime, MINUTE) == p.m1.Step(e).1[0].candle.openTime
  {
    FormingAligned(p.fed);
  }

  lemma {:induction false} FormingAligned(fed: seq<Event>)
    ensures var b := Follow(fed).b; b.forming.Some? ==> FloorTo(b.forming.value.at, MINUTE) == b.forming.value.at
  {
    if fed != [] {
      var front, e := fed[..|fed| - 1], fed[|fed| - 1];
      assert fed == front + [e];
      FormingAligned(front);
      FollowSnoc(front, e);
      if e.OnTick? { FloorCell(e.tick.ts, M1); }
    }
  }

  // ------------------------------------------------------------------ settling a minute with the broker's

  /** A minute that has been admitted need not wait any longer. */
  lemma NotWaitingSafe(p: Pipeline, t: Instant, g: Given)
    requires Inv(p, g) && t in p.seen
    ensures Safe(p, p.(pending := p.pending - {t}), g)
  {
    var q := p.(pending := p.pending - {t});
    assert EvidenceFor(q, g) == EvidenceFor(p, g);
    forall i | 0 <= i < |Follow(q.fed).log| ensures Known(q, Follow(q.fed).log[i].candle.openTime) {
      assert Known(p, Follow(p.fed).log[i].candle.openTime);
    }
  }

  /** A pending minute settled: the builder moves past it, it stops waiting, and it is admitted. */
  function Settled(p: Pipeline, c: Candle): Pipeline
    requires p.Sane()
  {
    p.(pending := p.pending - {c.openTime}).Told(OnMark(c.openTime)).OnM1Closed(c)
  }

  lemma SettledSafe(p: Pipeline, c: Candle, g: Given)
    requires Inv(p, g) && Admissible(p.fed, g, c)
    ensures Safe(p, Settled(p, c), g)
  {
    hide TowerLaws.AggsOk, TowerLaws.LogJustified, Pipeline.Grows, Stacked, Pipeline.Sane, TowerLaws.AllJustified,
         OnMinute, LiveTrusted;
    var t, n := c.openTime, |Follow(p.fed).log|;
    var q := p.Told(OnMark(t));
    ToldSafe(p, OnMark(t), g);
    ToldLog(p, OnMark(t));
    AdmissibleLater(p.fed, q.fed, g, c);
    assert Past(q.m1, t);
    AdmitSafe(q, c, g, n);
    var r := q.OnM1Closed(c);
    NotWaitingSafe(r, t, g);
    SettledIs(p, c);
  }

  lemma SettledIs(p: Pipeline, c: Candle)
    requires p.Sane()
    ensures var r := p.Told(OnMark(c.openTime)).OnM1Closed(c); Settled(p, c) == r.(pending := r.pending - {c.openTime})
  {
  }

  /** Dropping the minute in progress before marking it emitted changes nothing: marking drops it too. */
  lemma DropThenMark(fed: seq<Event>, t: Instant)
    ensures var b := Follow(fed).b; b.forming.Some? && b.forming.value.at == t ==> b.(forming := None).MarkEmittedUntil(t) == b.MarkEmittedUntil(t)
  {
    Builder(fed);
    FormingAligned(fed);
  }

  lemma RecoverOneSafe(p: Pipeline, c: Candle, g: Given)
    requires Inv(p, g) && (c.closed && c.tf == M1 ==> c in g.minutes)
    ensures Safe(p, p.RecoverOne(c), g)
  {
    if c.closed && c.tf == M1 && c.openTime !in p.seen {
      RecoverOneIs(p, c);
      SettledSafe(p, c, g);
    }
  }

  lemma RecoverOneIs(p: Pipeline, c: Candle)
    requires p.Sane() && p.m1 == Follow(p.fed).b && c.closed && c.tf == M1 && c.openTime !in p.seen
    ensures p.RecoverOne(c) == Settled(p, c)
  {
    hide OnMinute, Stacked, Follow;
    DropThenMark(p.fed, c.openTime);
  }

  lemma {:induction false} RecoverAllSafe(p: Pipeline, cs: seq<Candle>, g: Given)
    requires Inv(p, g) && forall c :: c in cs && c.closed && c.tf == M1 ==> c in g.minutes
    ensures Safe(p, p.RecoverAll(cs), g)
    decreases |cs|
  {
    if cs != [] {
      RecoverOneSafe(p, cs[0], g);
      var q := p.RecoverOne(cs[0]);
      RecoverAllSafe(q, cs[1..], g);
      SafeThen(p, q, q.RecoverAll(cs[1..]), g);
    }
  }

  lemma VerifyOneSafe(p: Pipeline, byTime: map<Instant, Candle>, minute: Instant, now: Instant, fill: bool, fetched: Option<Range>, g: Given)
    requires Inv(p, g) && Offered(byTime, fill, fetched, g)
    ensures Safe(p, p.VerifyOne(byTime, minute, now, fill, fetched), g)
  {
    if Settles(byTime, minute, now, fill, fetched) {
      var c := Settling(byTime, minute, fill, fetched).value;
      if minute !in byTime { assert Filled(g, c) by { assert Answer(byTime, fetched) in g.answers; } }
      SettledSafe(p, c, g);
    }
  }

  /** The answer is part of what was given. */
  ghost predicate Offered(byTime: map<Instant, Candle>, fill: bool, fetched: Option<Range>, g: Given) {
    && (forall t :: t in byTime ==> byTime[t] in g.minutes && byTime[t].openTime == t && byTime[t].closed && byTime[t].tf == M1)
    && (fill ==> Answer(byTime, fetched) in g.answers)
  }

  lemma {:induction false} VerifyAllSafe(p: Pipeline, byTime: map<Instant, Candle>, minutes: seq<Instant>, now: Instant, fill: bool, fetched: Option<Range>, g: Given)
    requires Inv(p, g) && Offered(byTime, fill, fetched, g)
    ensures Safe(p, p.VerifyAll(byTime, minutes, now, fill, fetched), g)
    decreases |minutes|
  {
    if minutes != [] {
      VerifyOneSafe(p, byTime, minutes[0], now, fill, fetched, g);
      var q := p.VerifyOne(byTime, minutes[0], now, fill, fetched);
      VerifyAllSafe(q, byTime, minutes[1..], now, fill, fetched, g);
      SafeThen(p, q, q.VerifyAll(byTime, minutes[1..], now, fill, fetched), g);
    }
  }

  // ------------------------------------------------------------------ ticks, clock, tower

  lemma AddTickSafe(p: Pipeline, t: Tick, g: Given)
    requires Inv(p, g)
    ensures Safe(p, p.AddTick(t), g)
  {
    if p.recovering { AsideSafe(p, p.AddTick(t), g); } else { BuiltSafe(p, OnTick(t), g); }
  }

  /** Changes that touch neither tower, builder, nor books. */
  lemma AsideSafe(p: Pipeline, q: Pipeline, g: Given)
    requires Inv(p, g) && q == p.(recovering := q.recovering, tickBuffer := q.tickBuffer, queue := q.queue)
    ensures Safe(p, q, g)
  {
    assert EvidenceFor(q, g) == EvidenceFor(p, g);
    forall i | 0 <= i < |Follow(q.fed).log| ensures Known(q, Follow(q.fed).log[i].candle.openTime) {
      assert Known(p, Follow(p.fed).log[i].candle.openTime);
    }
  }

  lemma {:induction false} AddTicksSafe(p: Pipeline, ts: seq<Tick>, g: Given)
    requires Inv(p, g)
    ensures Safe(p, p.AddTicks(ts), g)
    decreases |ts|
  {
    if ts != [] {
      AddTickSafe(p, ts[0], g);
      var q := p.AddTick(ts[0]);
      AddTicksSafe(q, ts[1..], g);
      SafeThen(p, q, q.AddTicks(ts[1..]), g);
    }
  }

  /** More minutes waiting. */
  lemma MorePendingSafe(p: Pipeline, q: Pipeline, g: Given)
    requires Inv(p, g) && q == p.(pending := q.pending) && p.pending <= q.pending
    ensures Safe(p, q, g)
  {
    assert EvidenceFor(q, g) == EvidenceFor(p, g);
    forall i | 0 <= i < |Follow(q.fed).log| ensures Known(q, Follow(q.fed).log[i].candle.openTime) {
      assert Known(p, Follow(p.fed).log[i].candle.openTime);
    }
  }

  /** A step of the tower alone. */
  lemma TowerStepSafe(p: Pipeline, st: TowerLaws.Step, g: Given)
    requires Inv(p, g) && TowerLaws.StepOk(st) && TowerLaws.With(EvidenceFor(p, g), st) == EvidenceFor(p, g)
    ensures Safe(p, p.(tower := TowerLaws.Perform(p.tower, st)), g)
  {
    hide TowerLaws.Inv, TowerLaws.Settled, TowerLaws.Perform;
    var q := p.(tower := TowerLaws.Perform(p.tower, st));
    TowerLaws.PerformSafe(p.tower, st, EvidenceFor(p, g));
    assert EvidenceFor(q, g) == EvidenceFor(p, g);
    forall i | 0 <= i < |Follow(q.fed).log| ensures Known(q, Follow(q.fed).log[i].candle.openTime) {
      assert Known(p, Follow(p.fed).log[i].candle.openTime);
    }
  }

  lemma ClockSafe(p: Pipeline, now: Instant, g: Given)
    requires Inv(p, g)
    ensures Safe(p, p.FlushAt(now), g)
  {
    if !p.recovering {
      hide Inv, FlushHigher, FlushPrimary, Pipeline.Built, Pipeline.DetectSilent, Stacked;
      BuiltSafe(p, OnFlush(now), g);
      var q := p.Built(OnFlush(now));
      MorePendingSafe(q, q.DetectSilent(now), g);
      var r := q.DetectSilent(now);
      SafeThen(p, q, r, g);
      TowerStepSafe(r, TowerLaws.Clock(now), g);
      SafeThen(p, r, r.(tower := TowerLaws.Perform(r.tower, TowerLaws.Clock(now))), g);
    }
  }

  lemma ReconcileOneSafe(p: Pipeline, byTime: map<Instant, Candle>, minute: Instant, g: Given)
    requires Inv(p, g) && forall t :: t in byTime ==> byTime[t] in g.reconciled
    ensures Safe(p, p.ReconcileOne(byTime, minute), g)
  {
    hide Follow, Booked, Tower.Setups, OnMinute, ReplaceMinute, TowerLaws.Pool, Agg.Setup;
    if minute in p.queue && minute in byTime {
      var q := p.(queue := p.queue - {minute});
      AsideSafe(p, q, g);
      var st := TowerLaws.Reconciled(byTime[minute]);
      assert TowerLaws.With(EvidenceFor(q, g), st) == EvidenceFor(q, g);
      TowerStepSafe(q, st, g);
      SafeThen(p, q, q.(tower := TowerLaws.Perform(q.tower, st)), g);
    }
  }

  lemma {:induction false} ReconcileAllSafe(p: Pipeline, byTime: map<Instant, Candle>, minutes: seq<Instant>, g: Given)
    requires Inv(p, g) && forall t :: t in byTime ==> byTime[t] in g.reconciled
    ensures Safe(p, p.ReconcileAll(byTime, minutes), g)
    decreases |minutes|
  {
    if minutes != [] {
      ReconcileOneSafe(p, byTime, minutes[0], g);
      var q := p.ReconcileOne(byTime, minutes[0]);
      ReconcileAllSafe(q, byTime, minutes[1..], g);
      SafeThen(p, q, q.ReconcileAll(byTime, minutes[1..]), g);
    }
  }

  // ------------------------------------------------------------------ whole runs

  lemma GivenMore(p: Pipeline, g: Given, h: Given)
    requires Inv(p, g) && Within(g, h)
    ensures Inv(p, h)
  {
    TowerLaws.InvMore(p.tower, EvidenceFor(p, g), EvidenceFor(p, h));
  }

  /** Connection events answer with nothing. */
  lemma ConnectionSafe(p: Pipeline, e: Event, g: Given)
    requires Inv(p, g) && (e.OnConnect? || e.OnDisconnect? || e.OnStall?)
    ensures Safe(p, p.Told(e), g)
  {
    BuiltSafe(p, e, g);
    assert p.Built(e) == p.Told(e);
  }

  lemma RecoverSafe(p: Pipeline, cs: seq<Candle>, g: Given)
    requires Inv(p, g) && ClosedMinutes(cs) <= g.minutes
    ensures Safe(p, p.RecoverM1(cs), g)
  {
    hide Inv;
    SortMembers(cs, ByOpen);
    RecoverAllSafe(p, Sort(cs, ByOpen), g);
  }

  lemma ReplaySafe(p: Pipeline, g: Given)
    requires Inv(p, g)
    ensures Safe(p, p.EndRecovery(), g)
  {
    hide TowerLaws.Inv, Booked, Stacked;
    var q := p.(recovering := false, tickBuffer := []);
    AsideSafe(p, q, g);
    AddTicksSafe(q, p.tickBuffer, g);
    SafeThen(p, q, q.AddTicks(p.tickBuffer), g);
  }

  lemma RepairGapSafe(p: Pipeline, bar: Candle, g: Given)
    requires Inv(p, g) && bar in g.bars
    ensures Safe(p, p.RepairBar(bar), g)
  {
    hide TowerLaws.LogOk, LogKnown, Follow, Stacked, TowerLaws.Settled;
    if bar.closed {
      assert TowerLaws.With(EvidenceFor(p, g), TowerLaws.BrokerBar(bar)) == EvidenceFor(p, g);
      TowerStepSafe(p, TowerLaws.BrokerBar(bar), g);
    } else {
      assert p.RepairBar(bar) == p;
    }
  }

  lemma PerformSafe(p: Pipeline, c: Call, g: Given)
    requires Inv(p, g)
    ensures Safe(p, Perform(p, c), Plus(g, c))
  {
    hide Pipeline.OnM1Closed, Inv, TowerLaws.Inv, Pipeline.RepairBar, Pipeline.FlushAt, Pipeline.Grows;
    var h := Plus(g, c);
    GivenMore(p, g, h);
    hide Inv, Stacked, Pipeline.OnM1Closed;
    match c
    case TickIn(t) => AddTickSafe(p, t, h);
    case Connected(ts) => ConnectionSafe(p, OnConnect(ts), h);
    case Disconnected => ConnectionSafe(p, OnDisconnect, h);
    case Stalled => ConnectionSafe(p, OnStall, h);
    case Clock(now) => ClockSafe(p, now, h);
    case BeginRecovery => AsideSafe(p, p.(recovering := true), h);
    case Recover(cs) => RecoverSafe(p, cs, h);
    case EndRecovery => ReplaySafe(p, h);
    case Verify(cs, now, fill, fetched) => VerifyAllSafe(p, ByTime(cs), Ascending(p.pending), now, fill, fetched, h);
    case Unreturned(minute) => MorePendingSafe(p, p.MarkPending(minute), h);
    case Reconcile(cs) => ReconcileAllSafe(p, ByTime(cs), Ascending(p.queue.Keys), h);
    case RepairGap(bar) => RepairGapSafe(p, bar, h);
  }

  /** A pipeline before anything happened. */
  ghost predicate Fresh(p: Pipeline) {
    && TowerLaws.Fresh(p.tower) && p.m1 == NEW_BUILDER && p.fed == [] && p.admitted == [] && p.seen == {} && p.pending == {}
  }

  lemma FreshInv(p: Pipeline)
    requires Fresh(p)
    ensures Inv(p, GivenBy([]))
  {
    TowerLaws.TowerFailClosed(p.tower, []);
    assert EvidenceFor(p, GivenBy([])) == TowerLaws.EvidenceOf([]);
    assert Follow([]).log == [];
  }

  lemma {:induction false} RunSafe(p: Pipeline, calls: seq<Call>)
    requires Fresh(p)
    ensures Inv(Run(p, calls), GivenBy(calls))
  {
    if calls == [] {
      FreshInv(p);
    } else {
      var front := calls[..|calls| - 1];
      RunSafe(p, front);
      PerformSafe(Run(p, front), calls[|calls| - 1], GivenBy(front));
    }
  }

  // ------------------------------------------------------------------ the theorems

  /** A live minute whose every instant the feed covered: live since its open or before when its first tick
      came, and not broken before it was closed. */
  ghost predicate LiveCovered(fed: seq<Event>, c: Candle) { exists i :: 0 <= i < |Follow(fed).log| && EmittedCovered(fed, Follow(fed).log[i], c) }

  ghost predicate EmittedCovered(fed: seq<Event>, e: Emission, c: Candle) {
    e.candle == c && e.openedAt < e.closedAt <= |fed| && CoveredThroughout(fed, c.openTime, e.openedAt, e.closedAt)
  }

  lemma TrustedIsCovered(fed: seq<Event>, c: Candle)
    requires LiveTrusted(fed, c)
    ensures LiveCovered(fed, c)
  {
    TrustIsCoverage(fed);
    var i :| 0 <= i < |Follow(fed).log| && Follow(fed).log[i].trusted && Follow(fed).log[i].candle == c;
    assert EmittedCovered(fed, Follow(fed).log[i], c);
  }

  /** A closed minute some recovery or verification call carried. */
  predicate Carries(call: Call, c: Candle) { (call.Recover? || call.Verify?) && c in call.candles && c.closed && c.tf == M1 }

  /** A verification call that allows fills, and the flat bar lies strictly inside its answer. */
  ghost predicate Fills(call: Call, c: Candle) { call.Verify? && call.fill && FlatBetween(ByTime(call.candles), c.openTime, call.fetched, c) }

  predicate RepairsWith(call: Call, c: Candle) { call.RepairGap? && call.bar == c }

  predicate Reconciles(call: Call, c: Candle) { call.Reconcile? && c in call.candles && c.closed && c.tf == M1 }

  ghost predicate SomeCarries(calls: seq<Call>, c: Candle) { exists k :: 0 <= k < |calls| && Carries(calls[k], c) }

  ghost predicate SomeFills(calls: seq<Call>, c: Candle) { exists k :: 0 <= k < |calls| && Fills(calls[k], c) }

  ghost predicate SomeRepairs(calls: seq<Call>, c: Candle) { exists k :: 0 <= k < |calls| && RepairsWith(calls[k], c) }

  ghost predicate SomeReconciles(calls: seq<Call>, c: Candle) { exists k :: 0 <= k < |calls| && Reconciles(calls[k], c) }

  lemma {:induction false} ReconciledMeans(calls: seq<Call>, c: Candle)
    requires c in GivenBy(calls).reconciled
    ensures SomeReconciles(calls, c)
  {
    var n := |calls| - 1;
    if c in GivenBy(calls[..n]).reconciled {
      ReconciledMeans(calls[..n], c);
      var k :| 0 <= k < n && Reconciles(calls[..n][k], c);
      assert Reconciles(calls[k], c);
    } else {
      assert Reconciles(calls[n], c);
    }
  }

  /** What was given, was given by some call. */
  lemma {:induction false} GivenMeans(calls: seq<Call>, c: Candle)
    ensures c in GivenBy(calls).minutes ==> SomeCarries(calls, c)
    ensures Filled(GivenBy(calls), c) ==> SomeFills(calls, c)
    ensures c in GivenBy(calls).bars ==> SomeRepairs(calls, c)
  {
    hide FlatBetween;
    if calls != [] {
      var n := |calls| - 1;
      var front, last := calls[..n], calls[n];
      GivenMeans(front, c);
      if SomeCarries(front, c) {
        var k :| 0 <= k < n && Carries(front[k], c);
        assert Carries(calls[k], c);
      }
      if SomeFills(front, c) {
        var k :| 0 <= k < n && Fills(front[k], c);
        assert Fills(calls[k], c);
      }
      if SomeRepairs(front, c) {
        var k :| 0 <= k < n && RepairsWith(front[k], c);
        assert RepairsWith(calls[k], c);
      }
      if Filled(GivenBy(calls), c) && !Filled(GivenBy(front), c) {
        var a :| a in GivenBy(calls).answers && FlatBetween(a.byTime, c.openTime, a.fetched, c);
        assert a == Answer(ByTime(last.candles), last.fetched);
        assert Fills(calls[n], c);
      }
      assert c in GivenBy(calls).minutes && c !in GivenBy(front).minutes ==> Carries(calls[n], c);
      assert c in GivenBy(calls).bars && c !in GivenBy(front).bars ==> RepairsWith(calls[n], c);
    }
  }

  /** FAIL CLOSED: over every run, each minute that entered aggregation was covered live throughout, or was
      returned by the broker, or is a zero-trade fill that was allowed and lies strictly inside a broker
      answer; each dispatched bar is a broker bar supplied for a gap or the fold of every expected
      constituent of its bucket, all of them such minutes, reconciled minutes or bars dispatched before it;
      the bars of each timeframe go out in strictly increasing order; and dispatch is suspended exactly while
      a gap is unresolved. */
  lemma FailClosed(p: Pipeline, calls: seq<Call>)
    requires Fresh(p)
    ensures var q := Run(p, calls);
      && (forall i :: 0 <= i < |q.admitted| ==>
            var c := q.admitted[i];
            c.closed && c.tf == M1 && (LiveCovered(q.fed, c) || SomeCarries(calls, c) || SomeFills(calls, c)))
      && TowerLaws.LogJustified(q.tower, EvidenceFor(q, GivenBy(calls))) && (forall c :: c in GivenBy(calls).bars ==> SomeRepairs(calls, c))
      && (forall c :: c in GivenBy(calls).reconciled ==> SomeReconciles(calls, c))
      && TowerLaws.LogOk(q.tower) && TowerLaws.Settled(q.tower)
  {
    RunSafe(p, calls);
    var q, g := Run(p, calls), GivenBy(calls);
    forall i | 0 <= i < |q.admitted|
      ensures var c := q.admitted[i]; c.closed && c.tf == M1 && (LiveCovered(q.fed, c) || SomeCarries(calls, c) || SomeFills(calls, c))
    {
      var c := q.admitted[i];
      assert Admissible(q.fed, g, c);
      GivenMeans(calls, c);
      if LiveTrusted(q.fed, c) { TrustedIsCovered(q.fed, c); }
    }
    forall c | c in g.bars ensures SomeRepairs(calls, c) { GivenMeans(calls, c); }
    forall c | c in g.reconciled ensures SomeReconciles(calls, c) { ReconciledMeans(calls, c); }
  }

  lemma {:induction false} RunKeeps(p: Pipeline, calls: seq<Call>, more: seq<Call>)
    requires Fresh(p)
    ensures Run(p, calls).Grows(Run(p, calls + more)) && Keeps(Run(p, calls), Run(p, calls + more))
    decreases |more|
  {
    if more == [] {
      assert calls + more == calls;
    } else {
      var front, last := more[..|more| - 1], more[|more| - 1];
      RunKeeps(p, calls, front);
      assert (calls + more)[..|calls + more| - 1] == calls + front && (calls + more)[|calls + more| - 1] == last;
      RunSafe(p, calls + front);
      var q, r := Run(p, calls + front), Run(p, calls + more);
      PerformSafe(q, last, GivenBy(calls + front));
      GrowsThen(Run(p, calls), q, r);
      forall t | t in Run(p, calls).pending ensures Known(r, t) {
        assert Known(q, t);
      }
    }
  }

  predicate AdmittedAt(p: Pipeline, t: Instant) { exists i :: 0 <= i < |p.admitted| && p.admitted[i].openTime == t }

  /** MINUTE ACCOUNTING: over every run, every minute the builder ever closed is admitted or waiting; no
      minute is admitted twice; a minute waiting after part of the run is waiting or admitted at the end, so
      the only way out of waiting is into aggregation; and what was admitted stays admitted. */
  lemma MinuteAccounting(p: Pipeline, calls: seq<Call>, more: seq<Call>)
    requires Fresh(p)
    ensures var q, r := Run(p, calls), Run(p, calls + more);
      && (forall i :: 0 <= i < |Follow(r.fed).log| ==>
            var t := Follow(r.fed).log[i].candle.openTime; AdmittedAt(r, t) || t in r.pending)
      && (forall i, j :: 0 <= i < j < |r.admitted| ==> r.admitted[i].openTime != r.admitted[j].openTime)
      && (forall t :: t in q.pending ==> t in r.pending || AdmittedAt(r, t))
      && q.admitted <= r.admitted && q.tower.Setups() == r.tower.Setups()
  {
    RunSafe(p, calls + more);
    RunKeeps(p, calls, more);
    var q, r := Run(p, calls), Run(p, calls + more);
    forall i | 0 <= i < |Follow(r.fed).log| ensures var t := Follow(r.fed).log[i].candle.openTime; AdmittedAt(r, t) || t in r.pending {
      assert Known(r, Follow(r.fed).log[i].candle.openTime);
    }
    forall t | t in q.pending ensures t in r.pending || AdmittedAt(r, t) {
      assert Known(r, t);
    }
  }

  // ------------------------------------------------------------------ silent minutes

  /** A scan queues exactly the open minutes of its range that are neither admitted, waiting nor in progress. */
  lemma {:induction false} ScanExact(p: Pipeline, m: Instant, until: Instant, t: Instant)
    ensures t in p.Scan(m, until).pending <==> t in p.pending || (m <= t < until && (t - m) % MINUTE == 0 && p.Unaccounted(t))
    decreases until - m
  {
    if m < until {
      var q := if p.Unaccounted(m) then p.MarkPending(m) else p;
      ScanExact(q, m + MINUTE, until, t);
    }
  }

  /** SILENT MINUTES ARE FOUND: after a clock flush under coverage, every open minute of the scanned stretch
      is admitted, waiting or in progress. */
  lemma FlushFindsSilent(p: Pipeline, now: Instant, t: Instant)
    requires p.Sane() && !p.recovering
    requires p.FlushAt(now).m1.coverageStart.Some?
    requires var q := p.FlushAt(now); q.ScanStart(now) <= t < FloorTo(now, MINUTE) && (t - q.ScanStart(now)) % MINUTE == 0 && q.config.isOpen(t)
    ensures var q := p.FlushAt(now); Known(q, t) || (q.m1.forming.Some? && q.m1.forming.value.at == t)
  {
    hide FlushHigher, FlushPrimary, Pipeline.Built, Stacked;
    var b := p.Built(OnFlush(now));
    ScanExact(b, b.ScanStart(now), FloorTo(now, MINUTE), t);
  }
}
