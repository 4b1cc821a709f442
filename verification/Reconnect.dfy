/** Reconnecting loses nothing: an outage bridged by the broker's minutes and the buffered ticks leaves the
    tower exactly where the uninterrupted feed would have left it. */
module Reconnect {
  import opened Timeline
  import opened Candles
  import opened Aggregation
  import opened LiveMinutes
  import opened Sorting
  import opened Sequences
  import opened Tower
  import opened Pipeline
  import opened PipelineLaws

  // ------------------------------------------------------------------ what analysis depends on

  /** Everything downstream of the minutes: the tower with its log, the minutes processed, the admissions. */
  ghost predicate SameCore(p: Pipeline, q: Pipeline) {
    p.tower == q.tower && p.seen == q.seen && p.admitted == q.admitted && p.lastM1Open == q.lastM1Open && p.config == q.config
  }

  function AdmitAll(p: Pipeline, cs: seq<Candle>): (q: Pipeline)
    requires p.Sane()
    ensures q.Sane()
  {
    if cs == [] then p else AdmitAll(p, cs[..|cs| - 1]).OnM1Closed(cs[|cs| - 1])
  }

  lemma AdmitSame(p: Pipeline, q: Pipeline, c: Candle)
    requires p.Sane() && q.Sane() && SameCore(p, q)
    ensures SameCore(p.OnM1Closed(c), q.OnM1Closed(c))
  {
  }

  lemma AdmitAllSnoc(p: Pipeline, cs: seq<Candle>, c: Candle)
    requires p.Sane()
    ensures AdmitAll(p, cs + [c]) == AdmitAll(p, cs).OnM1Closed(c)
  {
    assert (cs + [c])[..|cs|] == cs;
  }

  // ------------------------------------------------------------------ flushes that close no bucket

  predicate BucketOpenPast(a: Agg, now: Instant) { a.bucket.Some? ==> now < a.bucket.value.endTime }

  /** The clock has not reached the end of any open bucket. */
  predicate NotDue(s: Tower, now: Instant) { BucketOpenPast(s.primary, now) && forall i :: 0 <= i < |s.higher| ==> BucketOpenPast(s.higher[i], now) }

  lemma {:induction false} NotDueHigher(s: Tower, now: Instant, i: nat)
    requires Stacked(s.Setups()) && NotDue(s, now) && i <= |s.higher|
    ensures FlushHigher(s, now, i) == s
    decreases |s.higher| - i
  {
    hide Evolves, Tower.Setups, Stacked, Agg.Setup, Timeframe.Rank;
    if i < |s.higher| {
      assert s.higher[i := s.higher[i]] == s.higher;
      assert FlushOne(s, now, i) == s;
      NotDueHigher(s, now, i + 1);
    }
  }

  lemma NotDueFlush(s: Tower, now: Instant)
    requires Stacked(s.Setups()) && NotDue(s, now)
    ensures FlushHigher(FlushPrimary(s, now), now, 0) == s
  {
    assert FlushPrimary(s, now) == s;
    NotDueHigher(s, now, 0);
  }

  // ------------------------------------------------------------------ runs in pieces

  lemma {:induction false} RunConcat(p: Pipeline, a: seq<Call>, b: seq<Call>)
    requires p.Sane()
    ensures Run(p, a + b) == Run(Run(p, a), b)
    decreases |b|
  {
    if b == [] {
      assert a + b == a;
    } else {
      var front, last := b[..|b| - 1], b[|b| - 1];
      assert (a + b)[..|a + b| - 1] == a + front && (a + b)[|a + b| - 1] == last;
      RunConcat(p, a, front);
    }
  }

  lemma RunOne(p: Pipeline, c: Call)
    requires p.Sane()
    ensures Run(p, [c]) == Perform(p, c)
  {
    assert [c][..0] == [];
  }

  function TickIns(ts: seq<Tick>): (cs: seq<Call>)
    ensures |cs| == |ts| && forall i :: 0 <= i < |cs| ==> cs[i] == TickIn(ts[i])
  {
    seq(|ts|, i requires 0 <= i < |ts| => TickIn(ts[i]))
  }

  lemma {:induction false} RunTicks(p: Pipeline, ts: seq<Tick>)
    requires p.Sane()
    ensures Run(p, TickIns(ts)) == p.AddTicks(ts)
    decreases |ts|
  {
    if ts != [] {
      assert TickIns(ts) == [TickIn(ts[0])] + TickIns(ts[1..]);
      RunConcat(p, [TickIn(ts[0])], TickIns(ts[1..]));
      RunOne(p, TickIn(ts[0]));
      RunTicks(p.AddTick(ts[0]), ts[1..]);
    }
  }

  // ------------------------------------------------------------------ the uninterrupted feed

  /** A tick of a minute before the reconnect, covered, and carrying its own quantity. */
  predicate PlainTick(t: Tick, covered: Instant, reconnect: Instant) { t.lastQty.Some? && covered <= t.Minute() < reconnect }

  /** During the outage only covered ticks of minutes before the reconnect and clock flushes that reach no
      bucket end happen. */
  ghost predicate Outage(p: Pipeline, es: seq<Call>, reconnect: Instant)
    requires p.Sane() && p.m1.coverageStart.Some?
  {
    forall k :: 0 <= k < |es| ==> OutageCall(p, Run(p, es[..k]), es[k], reconnect)
  }

  ghost predicate OutageCall(p: Pipeline, u: Pipeline, e: Call, reconnect: Instant)
    requires u.Sane() && p.m1.coverageStart.Some?
  {
    match e
    case TickIn(t) => PlainTick(t, p.m1.coverageStart.value, reconnect)
    case Clock(now) => NotDue(p.tower, now) && NotDue(u.Built(OnFlush(now)).tower, now)
    case _ => false
  }

  /** A live pipeline with a trusted minute in progress, or none, before the reconnect instant. */
  ghost predicate LiveBefore(p: Pipeline, reconnect: Instant) {
    && !p.recovering && p.tickBuffer == [] && !p.m1.stale && p.m1.coverageStart.Some? && p.m1.coverageStart.value <= reconnect
    && (p.m1.forming.Some? ==> p.m1.forming.value.trusted && p.m1.forming.value.at < reconnect)
    && (p.m1.lastEmitted.Some? ==> p.m1.lastEmitted.value < reconnect)
  }

  /** The minutes admitted since. */
  function Since(p: Pipeline, u: Pipeline): seq<Candle>
    requires p.admitted <= u.admitted
  {
    u.admitted[|p.admitted|..]
  }

  /** Closed minutes of strictly increasing open times, each on its own minute, in [lo, hi). */
  ghost predicate Minutes(cs: seq<Candle>, after: Option<Instant>, before: Instant) {
    && (forall i :: 0 <= i < |cs| ==> cs[i].closed && cs[i].tf == M1 && FloorTo(cs[i].openTime, MINUTE) == cs[i].openTime && cs[i].openTime < before)
    && (forall i, j :: 0 <= i < j < |cs| ==> cs[i].openTime < cs[j].openTime)
    && (forall i :: 0 <= i < |cs| && after.Some? ==> after.value < cs[i].openTime)
  }

  /** The minute builder after minutes `cs` have come out since `b`. */
  ghost predicate BuilderSince(b: Builder, c: Builder, cs: seq<Candle>, reconnect: Instant) {
    && OrderInv(c) && c.coverageStart == b.coverageStart && !c.stale && c.lastDayVolume == b.lastDayVolume
    && (c.forming.Some? ==> c.forming.value.trusted && c.forming.value.at < reconnect && FloorTo(c.forming.value.at, MINUTE) == c.forming.value.at)
    && c.lastEmitted == (if cs == [] then b.lastEmitted else Some(cs[|cs| - 1].openTime))
    && (b.forming.Some? ==> if cs == [] then c.forming.Some? && c.forming.value.at == b.forming.value.at else cs[0].openTime == b.forming.value.at)
  }

  ghost predicate UpTo(p: Pipeline, u: Pipeline, reconnect: Instant) {
    && p.Sane() && u.Sane() && !u.recovering && u.tickBuffer == [] && p.admitted <= u.admitted
    && Minutes(Since(p, u), p.m1.lastEmitted, reconnect) && BuilderSince(p.m1, u.m1, Since(p, u), reconnect)
    && SameCore(u, AdmitAll(p, Since(p, u))) && (forall t :: t in u.seen ==> Past(u.m1, t))
  }

  /** A covered tick or a flush: what the builder closes is trusted and new. */
  lemma BuilderStep(b: Builder, c: Builder, cs: seq<Candle>, e: Event, reconnect: Instant)
    requires BuilderSince(b, c, cs, reconnect) && Minutes(cs, b.lastEmitted, reconnect) && c.coverageStart.Some?
    requires e.OnFlush? || (e.OnTick? && PlainTick(e.tick, c.coverageStart.value, reconnect))
    ensures var (d, out) := c.Step(e);
      && |out| <= 1 && (forall t :: Past(c, t) ==> Past(d, t))
      && (out == [] ==> BuilderSince(b, d, cs, reconnect))
      && (out != [] ==> var k := out[0].candle;
            out[0].trusted && !Past(c, k.openTime) && Past(d, k.openTime)
            && BuilderSince(b, d, cs + [k], reconnect) && Minutes(cs + [k], b.lastEmitted, reconnect))
  {
    if e.OnTick? { FloorCell(e.tick.ts, M1); }
    var out := c.Step(e).1;
    if out != [] {
      var k := out[0].candle;
      var more := cs + [k];
      assert more[|more| - 1] == k && (cs != [] ==> more[0] == cs[0]);
      forall i | 0 <= i < |cs| ensures cs[i].openTime < k.openTime {
        assert cs[i].openTime <= cs[|cs| - 1].openTime;
      }
    }
  }

  lemma BuiltStep(p: Pipeline, u: Pipeline, e: Event, reconnect: Instant)
    requires UpTo(p, u, reconnect) && p.m1.coverageStart.Some?
    requires e.OnFlush? || (e.OnTick? && PlainTick(e.tick, p.m1.coverageStart.value, reconnect))
    ensures UpTo(p, u.Built(e), reconnect)
  {
    var cs, out := Since(p, u), u.m1.Step(e).1;
    BuilderStep(p.m1, u.m1, cs, e, reconnect);
    hide Builder.Step, Minutes, BuilderSince, Past, SameCore, AdmitAll, Stacked, Pipeline.OnM1Closed;
    var v := u.Told(e);
    if out == [] {
      QuietStep(p, u, v, reconnect);
    } else {
      var k := out[0].candle;
      NewMinuteStep(p, u, if u.config.reconcileLive then v.(queue := v.queue[k.openTime := k]) else v, k, reconnect);
    }
  }

  /** The builder moved on and closed nothing. */
  lemma QuietStep(p: Pipeline, u: Pipeline, v: Pipeline, reconnect: Instant)
    requires UpTo(p, u, reconnect) && v == u.(m1 := v.m1, fed := v.fed)
    requires BuilderSince(p.m1, v.m1, Since(p, u), reconnect) && forall t :: Past(u.m1, t) ==> Past(v.m1, t)
    ensures UpTo(p, v, reconnect)
  {
    hide Past, BuilderSince, Minutes, AdmitAll;
  }

  /** The builder closed a new trusted minute. */
  lemma NewMinuteStep(p: Pipeline, u: Pipeline, w: Pipeline, k: Candle, reconnect: Instant)
    requires UpTo(p, u, reconnect) && w == u.(m1 := w.m1, fed := w.fed, queue := w.queue)
    requires (forall t :: Past(u.m1, t) ==> Past(w.m1, t)) && !Past(u.m1, k.openTime) && Past(w.m1, k.openTime)
    requires BuilderSince(p.m1, w.m1, Since(p, u) + [k], reconnect) && Minutes(Since(p, u) + [k], p.m1.lastEmitted, reconnect)
    ensures UpTo(p, w.OnM1Closed(k), reconnect)
  {
    hide Past, BuilderSince, Minutes, AdmitAll, OnMinute, Stacked;
    AdmitStep(p, w, Since(p, u), k);
  }

  /** Admitting a new minute. */
  lemma AdmitStep(p: Pipeline, v: Pipeline, cs: seq<Candle>, k: Candle)
    requires p.Sane() && v.Sane() && p.admitted <= v.admitted && Since(p, v) == cs
    requires SameCore(v, AdmitAll(p, cs)) && k.openTime !in v.seen
    ensures var w := v.OnM1Closed(k); p.admitted <= w.admitted && Since(p, w) == cs + [k] && SameCore(w, AdmitAll(p, cs + [k]))
  {
    hide OnMinute, Stacked;
    AdmitAllSnoc(p, cs, k);
    AdmitSame(v, AdmitAll(p, cs), k);
    var w := v.OnM1Closed(k);
    assert w.admitted[|p.admitted|..] == v.admitted[|p.admitted|..] + [k];
  }

  lemma OutageStep(p: Pipeline, u: Pipeline, e: Call, reconnect: Instant)
    requires UpTo(p, u, reconnect) && p.m1.coverageStart.Some? && OutageCall(p, u, e, reconnect)
    ensures UpTo(p, Perform(u, e), reconnect)
  {
    match e
    case TickIn(t) => BuiltStep(p, u, OnTick(t), reconnect);
    case Clock(now) =>
      BuiltStep(p, u, OnFlush(now), reconnect);
      var v := u.Built(OnFlush(now)).DetectSilent(now);
      NotDueFlush(v.tower, now);
      assert Perform(u, e) == v;
      assert Since(p, v) == Since(p, u.Built(OnFlush(now)));
    case _ =>
  }

  lemma OutageFront(p: Pipeline, es: seq<Call>, reconnect: Instant)
    requires p.Sane() && p.m1.coverageStart.Some? && Outage(p, es, reconnect) && es != []
    ensures Outage(p, es[..|es| - 1], reconnect) && OutageCall(p, Run(p, es[..|es| - 1]), es[|es| - 1], reconnect)
  {
    hide OutageCall, Stacked, Run;
    var front := es[..|es| - 1];
    assert forall k :: 0 <= k < |front| ==> front[k] == es[k] && front[..k] == es[..k];
  }

  /** The uninterrupted feed during the outage. */
  lemma {:induction false} Uninterrupted(p: Pipeline, es: seq<Call>, reconnect: Instant)
    requires p.Sane() && UpTo(p, p, reconnect) && p.m1.coverageStart.Some? && Outage(p, es, reconnect)
    ensures UpTo(p, Run(p, es), reconnect)
  {
    hide UpTo, OutageCall, Stacked;
    if es == [] {
    } else {
      var front := es[..|es| - 1];
      OutageFront(p, es, reconnect);
      Uninterrupted(p, front, reconnect);
      OutageStep(p, Run(p, front), es[|es| - 1], reconnect);
    }
  }

  // ------------------------------------------------------------------ the interrupted feed

  /** The clock flushes of the outage: all that an interrupted pipeline sees of it. */
  function Clocks(es: seq<Call>): seq<Call> {
    if es == [] then [] else Clocks(es[..|es| - 1]) + if es[|es| - 1].Clock? then [es[|es| - 1]] else []
  }

  /** The builder while disconnected: the minute that was in progress is still open and lost, or has been
      closed as partial. */
  ghost predicate BuilderIdle(b: Builder, c: Builder) {
    && !c.stale && c.lastDayVolume == b.lastDayVolume
    && (c.forming.Some? ==> b.forming.Some? && c.forming.value.at == b.forming.value.at && !c.forming.value.trusted)
    && c.lastEmitted == if b.forming.Some? && c.forming.None? then Some(b.forming.value.at) else b.lastEmitted
  }

  /** At most the interrupted minute has been queued. */
  ghost predicate OnlyOpenQueued(p: Pipeline, i: Pipeline) {
    forall t :: t in i.pending ==> t in p.pending || (p.m1.forming.Some? && t == p.m1.forming.value.at)
  }

  ghost predicate Idle(p: Pipeline, i: Pipeline) {
    && p.Sane() && i.Sane() && SameCore(i, p) && !i.recovering && i.tickBuffer == []
    && i.m1.coverageStart.None? && BuilderIdle(p.m1, i.m1) && OnlyOpenQueued(p, i)
  }

  lemma IdleStep(p: Pipeline, i: Pipeline, now: Instant)
    requires Idle(p, i) && NotDue(p.tower, now)
    ensures Idle(p, i.FlushAt(now))
  {
    NotDueFlush(p.tower, now);
    hide OnMinute, FlushHigher, FlushPrimary, Stacked, NotDue;
    IdleFlush(p, i, now);
    var j := i.Built(OnFlush(now));
    hide Pipeline.Built;
    assert j.DetectSilent(now) == j;
    assert i.FlushAt(now) == j;
  }

  lemma IdleFlush(p: Pipeline, i: Pipeline, now: Instant)
    requires Idle(p, i)
    ensures Idle(p, i.Built(OnFlush(now)))
  {
    hide OnMinute, Stacked;
  }

  lemma {:induction false} IdleThrough(p: Pipeline, i: Pipeline, es: seq<Call>, reconnect: Instant)
    requires Idle(p, i) && p.m1.coverageStart.Some? && Outage(p, es, reconnect)
    ensures Idle(p, Run(i, Clocks(es)))
  {
    hide Pipeline.Grows, Pipeline.Sane;
    if es != [] {
      var front, last := es[..|es| - 1], es[|es| - 1];
      OutageFront(p, es, reconnect);
      IdleThrough(p, i, front, reconnect);
      if last.Clock? {
        RunConcat(i, Clocks(front), [last]);
        RunOne(Run(i, Clocks(front)), last);
        IdleStep(p, Run(i, Clocks(front)), last.now);
      } else {
        assert Clocks(front) + [] == Clocks(front);
      }
    }
  }

  // ------------------------------------------------------------------ recovering the missed minutes

  /** The builder after the broker's minutes `done` since it was idle. */
  ghost predicate BuilderRecovered(b: Builder, c: Builder, done: seq<Candle>, reconnect: Instant) {
    && c.coverageStart == Some(reconnect)
    && if done == [] then BuilderIdle(b, c)
       else !c.stale && c.lastDayVolume == b.lastDayVolume && c.forming.None? && c.lastEmitted == Some(done[|done| - 1].openTime)
  }

  ghost predicate Recovered(p: Pipeline, j: Pipeline, done: seq<Candle>, buffered: seq<Tick>, reconnect: Instant) {
    && p.Sane() && j.Sane() && SameCore(j, AdmitAll(p, done)) && j.recovering && j.tickBuffer == buffered
    && BuilderRecovered(p.m1, j.m1, done, reconnect)
    && (if done == [] then OnlyOpenQueued(p, j) else j.pending <= p.pending)
  }

  /** The minutes to recover start with the one that was in progress. */
  ghost predicate StartsOpen(p: Pipeline, cs: seq<Candle>) { p.m1.forming.Some? && cs != [] ==> cs[0].openTime == p.m1.forming.value.at }

  lemma {:induction false} AdmitAllSeen(p: Pipeline, cs: seq<Candle>, t: Instant)
    requires p.Sane() && t in AdmitAll(p, cs).seen
    ensures t in p.seen || exists i :: 0 <= i < |cs| && cs[i].openTime == t
  {
    if cs != [] {
      var front := cs[..|cs| - 1];
      if t in AdmitAll(p, front).seen {
        AdmitAllSeen(p, front, t);
        if t !in p.seen {
          var i :| 0 <= i < |front| && front[i].openTime == t;
          assert cs[i].openTime == t;
        }
      } else {
        assert cs[|cs| - 1].openTime == t;
      }
    }
  }

  lemma NotYetSeen(p: Pipeline, done: seq<Candle>, c: Candle, reconnect: Instant)
    requires p.Sane() && (forall t :: t in p.seen ==> Past(p.m1, t)) && Minutes(done + [c], p.m1.lastEmitted, reconnect)
    ensures c.openTime !in AdmitAll(p, done).seen && c.closed && c.tf == M1
  {
    var cs := done + [c];
    assert cs[|done|] == c;
    forall i | 0 <= i < |done| ensures done[i].openTime != c.openTime {
      assert cs[i].openTime < cs[|done|].openTime;
    }
    if c.openTime in AdmitAll(p, done).seen { AdmitAllSeen(p, done, c.openTime); }
  }

  lemma BuilderRecover(b: Builder, c: Builder, done: seq<Candle>, k: Candle, reconnect: Instant)
    requires BuilderRecovered(b, c, done, reconnect) && Minutes(done + [k], b.lastEmitted, reconnect)
    requires b.forming.Some? && done == [] ==> k.openTime == b.forming.value.at
    ensures var dropped := if c.forming.Some? && c.forming.value.at == k.openTime then c.(forming := None) else c;
      BuilderRecovered(b, dropped.MarkEmittedUntil(k.openTime), done + [k], reconnect)
  {
    var cs := done + [k];
    assert cs[|done|] == k;
    if done != [] { assert cs[|done| - 1].openTime < k.openTime; }
  }

  lemma RecoverStep(p: Pipeline, j: Pipeline, done: seq<Candle>, c: Candle, buffered: seq<Tick>, reconnect: Instant)
    requires Recovered(p, j, done, buffered, reconnect) && (forall t :: t in p.seen ==> Past(p.m1, t))
    requires Minutes(done + [c], p.m1.lastEmitted, reconnect) && StartsOpen(p, done + [c])
    ensures Recovered(p, j.RecoverOne(c), done + [c], buffered, reconnect)
  {
    hide OnMinute, Stacked, Minutes, StartsOpen, BuilderRecovered, OnlyOpenQueued, Past, AdmitAll, Builder.MarkEmittedUntil, Pipeline.OnM1Closed;
    NotYetSeen(p, done, c, reconnect);
    StopsWaiting(p, j, done, c);
    BuilderRecover(p.m1, j.m1, done, c, reconnect);
    AdmitAllSnoc(p, done, c);
    var dropped := if j.m1.forming.Some? && j.m1.forming.value.at == c.openTime then j.m1.(forming := None) else j.m1;
    var k := j.(m1 := dropped.MarkEmittedUntil(c.openTime), fed := j.fed + [OnMark(c.openTime)], pending := j.pending - {c.openTime});
    AdmitSame(k, AdmitAll(p, done), c);
    NotRecovering(k, c);
    assert j.RecoverOne(c) == k.OnM1Closed(c);
    assert j.RecoverOne(c).pending == j.pending - {c.openTime};
  }

  /** The minute that was in progress stops waiting when it is recovered. */
  lemma StopsWaiting(p: Pipeline, j: Pipeline, done: seq<Candle>, c: Candle)
    requires (if done == [] then OnlyOpenQueued(p, j) else j.pending <= p.pending) && StartsOpen(p, done + [c])
    ensures j.pending - {c.openTime} <= p.pending && done + [c] != []
    ensures p.m1.forming.Some? && done == [] ==> c.openTime == p.m1.forming.value.at
  {
    assert (done + [c])[|done|] == c && done + [c] != [];
    forall x | x in j.pending && x != c.openTime ensures x in p.pending {}
  }

  lemma {:induction false} RecoverRest(p: Pipeline, j: Pipeline, done: seq<Candle>, rest: seq<Candle>, buffered: seq<Tick>, reconnect: Instant)
    requires Recovered(p, j, done, buffered, reconnect) && (forall t :: t in p.seen ==> Past(p.m1, t))
    requires Minutes(done + rest, p.m1.lastEmitted, reconnect) && StartsOpen(p, done + rest)
    ensures Recovered(p, j.RecoverAll(rest), done + rest, buffered, reconnect)
    decreases |rest|
  {
    if rest == [] {
      assert done + rest == done;
    } else {
      var more := done + [rest[0]];
      assert more + rest[1..] == done + rest;
      assert forall i :: 0 <= i < |more| ==> more[i] == (done + rest)[i];
      RecoverStep(p, j, done, rest[0], buffered, reconnect);
      RecoverRest(p, j.RecoverOne(rest[0]), more, rest[1..], buffered, reconnect);
    }
  }

  // ------------------------------------------------------------------ resuming

  /** The two pipelines in step: they differ only in when coverage began and in what waits. */
  ghost predicate InStep(u: Pipeline, j: Pipeline, reconnect: Instant) {
    && u.Sane() && j.Sane() && SameCore(u, j) && !u.recovering && !j.recovering
    && u.m1.coverageStart.Some? && u.m1.coverageStart.value <= reconnect && j.m1.coverageStart == Some(reconnect) && !u.m1.stale
    && (u.m1.forming.Some? ==> u.m1.forming.value.trusted)
    && j.m1 == u.m1.(coverageStart := Some(reconnect))
  }

  /** A tick after the reconnect, carrying its own quantity. */
  predicate LaterTick(t: Tick, reconnect: Instant) { t.lastQty.Some? && reconnect <= t.Minute() }

  lemma StayInStep(u: Pipeline, j: Pipeline, t: Tick, reconnect: Instant)
    requires InStep(u, j, reconnect) && LaterTick(t, reconnect)
    ensures InStep(u.AddTick(t), j.AddTick(t), reconnect) && j.AddTick(t).pending == j.pending
  {
    hide OnMinute, Stacked;
    var out := u.m1.Step(OnTick(t)).1;
    assert j.m1.Step(OnTick(t)).1 == out;
    if out != [] {
      AdmitSame(u, j, out[0].candle);
    }
  }

  lemma {:induction false} StayInStepAll(u: Pipeline, j: Pipeline, ts: seq<Tick>, reconnect: Instant)
    requires InStep(u, j, reconnect) && forall i :: 0 <= i < |ts| ==> LaterTick(ts[i], reconnect)
    ensures InStep(u.AddTicks(ts), j.AddTicks(ts), reconnect) && j.AddTicks(ts).pending == j.pending
    decreases |ts|
  {
    if ts != [] {
      StayInStep(u, j, ts[0], reconnect);
      StayInStepAll(u.AddTick(ts[0]), j.AddTick(ts[0]), ts[1..], reconnect);
    }
  }

  /** What the broker must return: the minutes the missed ticks completed, and the one they left in progress. */
  function Missed(p: Pipeline, u: Pipeline): seq<Candle>
    requires p.admitted <= u.admitted
  {
    Since(p, u) + if u.m1.forming.Some? then [u.m1.Emit().1.candle] else []
  }

  lemma MissedMinutes(p: Pipeline, u: Pipeline, reconnect: Instant)
    requires UpTo(p, u, reconnect)
    ensures Minutes(Missed(p, u), p.m1.lastEmitted, reconnect) && StartsOpen(p, Missed(p, u))
  {
    hide Since, FloorTo, AdmitAll, Pipeline.Sane;
    var cs, all := Since(p, u), Missed(p, u);
    if u.m1.forming.Some? {
      var k := u.m1.Emit().1.candle;
      assert all == cs + [k] && all[|cs|] == k;
      forall i | 0 <= i < |cs| ensures cs[i].openTime < k.openTime {
        assert cs[i].openTime <= cs[|cs| - 1].openTime;
      }
      if cs != [] { assert all[0] == cs[0]; }
    } else {
      assert all == cs;
    }
  }

  /** The first tick after the reconnect closes the minute the broker has already supplied. */
  lemma FirstTick(p: Pipeline, u: Pipeline, j: Pipeline, t: Tick, reconnect: Instant)
    requires UpTo(p, u, reconnect) && p.m1.coverageStart.Some? && p.m1.coverageStart.value <= reconnect && LaterTick(t, reconnect)
    requires SameCore(j, AdmitAll(p, Missed(p, u))) && j.Sane() && !j.recovering && BuilderRecovered(p.m1, j.m1, Missed(p, u), reconnect)
    requires p.m1.lastEmitted.Some? ==> p.m1.lastEmitted.value < reconnect
    ensures InStep(u.AddTick(t), j.AddTick(t), reconnect) && j.AddTick(t).pending == j.pending
  {
    var cs := Since(p, u);
    if u.m1.forming.None? {
      assert Missed(p, u) == cs;
      assert InStep(u, j, reconnect);
      StayInStep(u, j, t, reconnect);
    } else {
      ClosesMissed(p, u, j, t, reconnect);
    }
  }

  lemma ClosesMissed(p: Pipeline, u: Pipeline, j: Pipeline, t: Tick, reconnect: Instant)
    requires p.Sane() && u.Sane() && !u.recovering && p.admitted <= u.admitted && SameCore(u, AdmitAll(p, Since(p, u)))
    requires BuilderSince(p.m1, u.m1, Since(p, u), reconnect) && u.m1.forming.Some?
    requires p.m1.coverageStart.Some? && p.m1.coverageStart.value <= reconnect && LaterTick(t, reconnect)
    requires SameCore(j, AdmitAll(p, Missed(p, u))) && j.Sane() && !j.recovering && BuilderRecovered(p.m1, j.m1, Missed(p, u), reconnect)
    ensures InStep(u.AddTick(t), j.AddTick(t), reconnect) && j.AddTick(t).pending == j.pending
  {
    hide OnMinute, Stacked, Builder.Step, Builder.Emit, AdmitAll, Since, BuilderSince, BuilderRecovered, LaterTick, Missed, Pipeline.OnM1Closed;
    var cs, k := Since(p, u), u.m1.Emit().1.candle;
    MissedIs(p, u);
    Front(cs, k);
    BuildersMeet(p.m1, u.m1, j.m1, cs, k, t, reconnect);
    var v := u.Told(OnTick(t));
    var w := if u.config.reconcileLive then v.(queue := v.queue[k.openTime := k]) else v;
    AdmitSame(w, AdmitAll(p, cs), k);
    AdmitAllSnoc(p, cs, k);
    NotRecovering(w, k);
    assert u.AddTick(t) == w.OnM1Closed(k) && j.AddTick(t) == j.Told(OnTick(t));
  }

  lemma MissedIs(p: Pipeline, u: Pipeline)
    requires p.admitted <= u.admitted && u.m1.forming.Some?
    ensures Missed(p, u) == Since(p, u) + [u.m1.Emit().1.candle]
  {
  }

  lemma NotRecovering(p: Pipeline, k: Candle)
    requires p.Sane()
    ensures p.OnM1Closed(k).recovering == p.recovering && p.OnM1Closed(k).tickBuffer == p.tickBuffer && p.OnM1Closed(k).Sane()
  {
    hide OnMinute, Stacked;
  }

  /** One builder closes its minute and starts the tick's; the other, which had that minute from the broker,
      only starts the tick's; they end up in the same minute. */
  lemma BuildersMeet(b: Builder, c: Builder, d: Builder, cs: seq<Candle>, k: Candle, t: Tick, reconnect: Instant)
    requires BuilderSince(b, c, cs, reconnect) && c.forming.Some? && k == c.Emit().1.candle
    requires BuilderRecovered(b, d, cs + [k], reconnect) && (cs + [k])[|cs + [k]| - 1] == k
    requires b.coverageStart.Some? && b.coverageStart.value <= reconnect && LaterTick(t, reconnect)
    ensures c.Step(OnTick(t)).1 == [BuiltM1(k, true)] && d.Step(OnTick(t)) == (c.Step(OnTick(t)).0.(coverageStart := Some(reconnect)), [])
    ensures var e := c.Step(OnTick(t)).0; !e.stale && e.coverageStart == b.coverageStart && e.forming.Some? && e.forming.value.trusted
  {
  }

  // ------------------------------------------------------------------ the theorem

  /** The interrupted pipeline's calls: disconnect, the clock, reconnect, ticks buffered during recovery,
      the broker's minutes, and the replay. */
  function Interrupted(es: seq<Call>, reconnect: Instant, buffered: seq<Tick>, missed: seq<Candle>): seq<Call> {
    [Disconnected] + Clocks(es) + [Connected(reconnect), BeginRecovery] + TickIns(buffered) + [Recover(missed), EndRecovery]
  }

  lemma {:induction false} BufferAll(p: Pipeline, ts: seq<Tick>)
    requires p.Sane() && p.recovering
    ensures p.AddTicks(ts) == p.(tickBuffer := p.tickBuffer + ts)
    decreases |ts|
  {
    if ts == [] {
      assert p.tickBuffer + ts == p.tickBuffer;
    } else {
      assert p.tickBuffer + [ts[0]] + ts[1..] == p.tickBuffer + ts;
      BufferAll(p.AddTick(ts[0]), ts[1..]);
    }
  }

  lemma SortedMinutes(cs: seq<Candle>, after: Option<Instant>, before: Instant)
    requires Minutes(cs, after, before)
    ensures Sort(cs, ByOpen) == cs
  {
    SortSorted(cs, ByOpen);
  }

  lemma InterruptedIs(p: Pipeline, es: seq<Call>, reconnect: Instant, buffered: seq<Tick>, missed: seq<Candle>)
    requires p.Sane()
    ensures var i := Run(p.Told(OnDisconnect), Clocks(es));
            var j := i.Told(OnConnect(reconnect)).(recovering := true).AddTicks(buffered).RecoverM1(missed);
            i.Sane() && Run(p, Interrupted(es, reconnect, buffered, missed)) == j.EndRecovery()
  {
    hide Run, Pipeline.AddTicks, Pipeline.EndRecovery, Pipeline.Told, Pipeline.RecoverM1, Tower.Setups, Builder.Step,
         Insert, Pipeline.AddTick, Evolves;
    var a, b, c := [Disconnected], Clocks(es), [Connected(reconnect), BeginRecovery];
    var d, e := TickIns(buffered), [Recover(missed), EndRecovery];
    RunConcat(p, a + b + c + d, e);
    RunConcat(p, a + b + c, d);
    RunConcat(p, a + b, c);
    RunConcat(p, a, b);
    RunOne(p, Disconnected);
    var i := Run(p.Told(OnDisconnect), b);
    RunTwo(i, Connected(reconnect), BeginRecovery);
    var k := i.Told(OnConnect(reconnect)).(recovering := true);
    RunTicks(k, buffered);
    RunTwo(k.AddTicks(buffered), Recover(missed), EndRecovery);
  }

  lemma RunTwo(p: Pipeline, c: Call, d: Call)
    requires p.Sane()
    ensures Run(p, [c, d]) == Perform(Perform(p, c), d)
  {
    assert [c, d] == [c] + [d];
    RunConcat(p, [c], [d]);
    RunOne(p, c);
    RunOne(Perform(p, c), d);
  }

  lemma StartsUpTo(p: Pipeline, g: Given, reconnect: Instant)
    requires PipelineLaws.Inv(p, g) && LiveBefore(p, reconnect)
    ensures UpTo(p, p, reconnect)
  {
    MinutesIncrease(p.fed);
    FormingAligned(p.fed);
    assert Since(p, p) == [];
  }

  /** The interrupted pipeline once the broker's minutes are in. */
  lemma RecoversMissed(p: Pipeline, u: Pipeline, i: Pipeline, buffered: seq<Tick>, reconnect: Instant)
    requires UpTo(p, u, reconnect) && (forall t :: t in p.seen ==> Past(p.m1, t)) && LiveBefore(p, reconnect) && Idle(p, i)
    ensures var j := i.Told(OnConnect(reconnect)).(recovering := true).AddTicks(buffered).RecoverM1(Missed(p, u));
            Recovered(p, j, Missed(p, u), buffered, reconnect)
  {
    hide Minutes, Builder.Emit, Pipeline.AddTick, Since;
    var k := i.Told(OnConnect(reconnect)).(recovering := true);
    BufferAll(k, buffered);
    assert [] + buffered == buffered;
    var missed := Missed(p, u);
    MissedMinutes(p, u, reconnect);
    SortedMinutes(missed, p.m1.lastEmitted, reconnect);
    assert [] + missed == missed;
    assert Recovered(p, k.AddTicks(buffered), [], buffered, reconnect);
    RecoverRest(p, k.AddTicks(buffered), [], missed, buffered, reconnect);
  }

  /** Once the minute that was in progress is recovered, the outage has left nothing new waiting. */
  lemma NothingWaits(p: Pipeline, u: Pipeline, j: Pipeline, buffered: seq<Tick>, reconnect: Instant)
    requires UpTo(p, u, reconnect) && Recovered(p, j, Missed(p, u), buffered, reconnect)
    ensures j.pending <= p.pending
  {
    if Missed(p, u) == [] {
      assert |Missed(p, u)| == |Since(p, u)| + if u.m1.forming.Some? then 1 else 0;
      assert Since(p, u) == [] && p.m1.forming.None?;
      assert OnlyOpenQueued(p, j);
      forall t | t in j.pending ensures t in p.pending {}
    }
  }

  /** The replay brings the two pipelines in step. */
  lemma ReplayInStep(p: Pipeline, u: Pipeline, j: Pipeline, buffered: seq<Tick>, reconnect: Instant)
    requires UpTo(p, u, reconnect) && LiveBefore(p, reconnect) && Recovered(p, j, Missed(p, u), buffered, reconnect)
    requires buffered != [] && forall k :: 0 <= k < |buffered| ==> LaterTick(buffered[k], reconnect)
    ensures InStep(u.AddTicks(buffered), j.EndRecovery(), reconnect) && j.EndRecovery().pending <= p.pending
  {
    hide Run, OnMinute, Stacked, UpTo, Sort;
    var r := j.(recovering := false, tickBuffer := []);
    NothingWaits(p, u, j, buffered, reconnect);
    FirstTick(p, u, r, buffered[0], reconnect);
    StayInStepAll(u.AddTick(buffered[0]), r.AddTick(buffered[0]), buffered[1..], reconnect);
  }

  /** RECONNECT EQUIVALENCE: from any reachable live pipeline, let ticks and clock flushes `es` come before the
      reconnect instant and `buffered` ticks after it. If the interrupted pipeline disconnects, sees only the
      clock, reconnects, buffers, recovers exactly the minutes the missed ticks would have built and replays,
      then it has dispatched the same bars in the same order as the pipeline that missed nothing, holds the
      same tower and the same minute in progress, and nothing new is left waiting for the broker. */
  lemma ReconnectEquivalence(start: Pipeline, calls: seq<Call>, es: seq<Call>, reconnect: Instant, buffered: seq<Tick>)
    requires Fresh(start) && LiveBefore(Run(start, calls), reconnect) && Outage(Run(start, calls), es, reconnect)
    requires buffered != [] && forall k :: 0 <= k < |buffered| ==> LaterTick(buffered[k], reconnect)
    ensures var p := Run(start, calls);
      var u := Run(p, es + TickIns(buffered));
      var q := Run(p, Interrupted(es, reconnect, buffered, Missed(p, Run(p, es))));
      && q.tower == u.tower && q.tower.log == u.tower.log && q.seen == u.seen && q.admitted == u.admitted
      && q.m1 == u.m1.(coverageStart := Some(reconnect)) && q.pending <= p.pending
  {
    RunSafe(start, calls);
    var p := Run(start, calls);
    StartsUpTo(p, GivenBy(calls), reconnect);
    FromLive(p, es, reconnect, buffered);
  }

  lemma FromLive(p: Pipeline, es: seq<Call>, reconnect: Instant, buffered: seq<Tick>)
    requires UpTo(p, p, reconnect) && LiveBefore(p, reconnect) && Outage(p, es, reconnect)
    requires buffered != [] && forall k :: 0 <= k < |buffered| ==> LaterTick(buffered[k], reconnect)
    ensures var u, q := Run(p, es + TickIns(buffered)), Run(p, Interrupted(es, reconnect, buffered, Missed(p, Run(p, es))));
            InStep(u, q, reconnect) && q.pending <= p.pending
  {
    Uninterrupted(p, es, reconnect);
    var u := Run(p, es);
    RunConcat(p, es, TickIns(buffered));
    RunTicks(u, buffered);
    var lost := p.Told(OnDisconnect);
    LostIdle(p, reconnect);
    IdleThrough(p, lost, es, reconnect);
    var i := Run(lost, Clocks(es));
    InterruptedIs(p, es, reconnect, buffered, Missed(p, u));
    hide Run, OnMinute, Stacked, UpTo, Idle, Outage, Sort, Recovered;
    RecoversMissed(p, u, i, buffered, reconnect);
    var j := i.Told(OnConnect(reconnect)).(recovering := true).AddTicks(buffered).RecoverM1(Missed(p, u));
    ReplayInStep(p, u, j, buffered, reconnect);
  }

  lemma LostIdle(p: Pipeline, reconnect: Instant)
    requires p.Sane() && LiveBefore(p, reconnect)
    ensures Idle(p, p.Told(OnDisconnect))
  {
  }

  /** When the reconnect falls on a minute boundary, every tick stamped after it is of a later minute. */
  lemma BoundaryTicks(t: Tick, reconnect: Instant)
    requires FloorTo(reconnect, MINUTE) == reconnect && reconnect <= t.ts
    ensures reconnect <= t.Minute()
  {
    FloorCell(t.ts, M1);
    if t.Minute() < reconnect { AlignedApart(t.Minute(), reconnect, M1); }
  }
}
