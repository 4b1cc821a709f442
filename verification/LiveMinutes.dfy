/** One-minute candles built from live ticks, and whether each minute was covered from its very start. */
module LiveMinutes {
  import opened Timeline
  import opened Candles
  import opened Sequences

  datatype Tick = Tick(price: real, ts: Instant, lastQty: Option<real>, dayVolume: Option<real>, oi: Option<real>) {
    function Minute(): Instant { FloorTo(ts, MINUTE) }
  }

  /** The minute in progress. */
  datatype RawForming = Forming(at: Instant, open: real, high: real, low: real, close: real, volume: real, oi: Option<real>, trusted: bool)

  type Forming = f: RawForming | f.low <= f.open <= f.high && f.low <= f.close <= f.high
    witness Forming(0, 0.0, 0.0, 0.0, 0.0, 0.0, None, false)

  datatype BuiltM1 = BuiltM1(candle: Candle, trusted: bool)

  /** Volume a tick contributes: its own quantity, else the growth of the day volume. */
  function TickVolume(t: Tick, lastDayVolume: Option<real>): real {
    if t.lastQty.Some? then t.lastQty.value
    else if t.dayVolume.Some? && lastDayVolume.Some? && lastDayVolume.value <= t.dayVolume.value then t.dayVolume.value - lastDayVolume.value
    else 0.0
  }

  function NextDayVolume(t: Tick, lastDayVolume: Option<real>): Option<real> {
    if t.lastQty.None? && t.dayVolume.Some? then t.dayVolume else lastDayVolume
  }

  /** Fold one tick into the minute in progress. */
  function FoldTick(f: Forming, t: Tick, lastDayVolume: Option<real>): Forming {
    Forming(f.at, f.open, MaxReal(f.high, t.price), MinReal(f.low, t.price), t.price,
            f.volume + TickVolume(t, lastDayVolume), if t.oi.Some? then t.oi else f.oi, f.trusted)
  }

  /** Value of the builder, and its operations on values. */
  datatype Builder = Builder(
    forming: Option<Forming>, lastDayVolume: Option<real>, lastEmitted: Option<Instant>,
    coverageStart: Option<Instant>, stale: bool)
  {
    predicate MinuteTrusted(minute: Instant) { coverageStart.Some? && !stale && coverageStart.value <= minute }

    function LoseOpen(): Builder {
      if forming.None? then this else this.(forming := Some(forming.value.(trusted := false)))
    }

    /** Coverage begins now; a minute already under way is lost. */
    function Connect(ts: Instant): Builder {
      var b := this.(coverageStart := Some(ts), stale := false);
      if forming.Some? && forming.value.at < ts then b.LoseOpen() else b
    }

    function Disconnect(): Builder { this.(coverageStart := None).LoseOpen() }

    function Stall(): Builder { if stale then this else this.(stale := true).LoseOpen() }

    function MarkEmittedUntil(openTime: Instant): Builder {
      var ts := FloorTo(openTime, MINUTE);
      if lastEmitted.Some? && ts <= lastEmitted.value then this
      else this.(lastEmitted := Some(ts), forming := if forming.Some? && forming.value.at <= ts then None else forming)
    }

    function Emit(): (Builder, BuiltM1)
      requires forming.Some?
    {
      var f := forming.value;
      (this.(forming := None, lastEmitted := Some(f.at)),
       BuiltM1(Candle(M1, f.at, f.open, f.high, f.low, f.close, f.volume, f.oi, if f.trusted then Dhan else Partial, true), f.trusted))
    }

    /** A late tick never reopens a closed minute; a tick of a later minute closes the one in progress. */
    function AddTick(t: Tick): (Builder, seq<BuiltM1>) {
      var b := if stale then Connect(t.ts) else this;
      var start := t.Minute();
      if b.lastEmitted.Some? && start <= b.lastEmitted.value then (b, [])
      else
        var (c, out) := if b.forming.Some? && b.forming.value.at < start then (b.Emit().0, [b.Emit().1]) else (b, []);
        (c.OpenAt(start, t.price).Fold(t), out)
    }

    /** Start a minute at its first price, unless one is in progress. */
    function OpenAt(start: Instant, price: real): (b: Builder)
      ensures b.forming.Some?
    {
      if forming.Some? then this
      else this.(forming := Some(Forming(start, price, price, price, price, 0.0, None, MinuteTrusted(start))))
    }

    function Fold(t: Tick): Builder
      requires forming.Some?
    {
      this.(forming := Some(FoldTick(forming.value, t, lastDayVolume)), lastDayVolume := NextDayVolume(t, lastDayVolume))
    }

    function FlushAt(now: Instant): (Builder, seq<BuiltM1>) {
      if forming.Some? && forming.value.at + MINUTE <= now then (Emit().0, [Emit().1]) else (this, [])
    }

    function Step(e: Event): (Builder, seq<BuiltM1>) {
      match e
      case OnTick(t) => AddTick(t)
      case OnConnect(ts) => (Connect(ts), [])
      case OnDisconnect => (Disconnect(), [])
      case OnStall => (Stall(), [])
      case OnFlush(now) => FlushAt(now)
      case OnMark(ts) => (MarkEmittedUntil(ts), [])
    }
  }

  datatype Event = OnTick(tick: Tick) | OnConnect(ts: Instant) | OnDisconnect | OnStall | OnFlush(now: Instant) | OnMark(ts: Instant)

  /** An event answers with at most one minute, a closed M1 candle. */
  lemma StepAnswers(b: Builder, e: Event)
    ensures var out := b.Step(e).1; |out| <= 1 && forall i :: 0 <= i < |out| ==> out[i].candle.tf == M1 && out[i].candle.closed
  {
  }

  /** WHEN A MINUTE ENDS: at the first tick of a later minute, or once the clock has reached its end; what comes out
      is the minute in progress. A tick of a minute already out adds to no minute, and the clock changes
      nothing but what it ends. */
  lemma MinuteEnds(b: Builder, e: Event)
    ensures var (c, out) := b.Step(e);
      && (out != [] <==> b.forming.Some? && match e
                           case OnTick(t) => b.forming.value.at < t.Minute() && (b.lastEmitted.Some? ==> b.lastEmitted.value < t.Minute())
                           case OnFlush(now) => b.forming.value.at + MINUTE <= now
                           case _ => false)
      && (out != [] ==> out[0].candle.openTime == b.forming.value.at && c.lastEmitted == Some(b.forming.value.at))
      && (e.OnTick? && b.lastEmitted.Some? && e.tick.Minute() <= b.lastEmitted.value ==>
            c.lastEmitted == b.lastEmitted && c.lastDayVolume == b.lastDayVolume
            && (b.forming.None? ==> c.forming.None?)
            && (b.forming.Some? ==> c.forming.Some? && c.forming.value == b.forming.value.(trusted := c.forming.value.trusted)))
      && (e.OnFlush? ==> c == if out == [] then b else b.(forming := None, lastEmitted := c.lastEmitted))
  {
  }

  const NEW_BUILDER := Builder(None, None, None, None, false)

  /** The stateful builder. */
  class M1CandleBuilder {
    var openTime: Option<Instant>
    var o: real
    var h: real
    var l: real
    var c: real
    var vol: real
    var oi: Option<real>
    var bucketTrusted: bool
    var lastDayVolume: Option<real>
    var lastEmitted: Option<Instant>
    var coverageStart: Option<Instant>
    var stale: bool

    ghost predicate Valid()
      reads this
    {
      openTime.Some? ==> l <= o <= h && l <= c <= h
    }

    ghost function Value(): Builder
      reads this
      requires Valid()
    {
      Builder(if openTime.Some? then Some(Forming(openTime.value, o, h, l, c, vol, oi, bucketTrusted)) else None,
              lastDayVolume, lastEmitted, coverageStart, stale)
    }

    constructor ()
      ensures Valid() && Value() == NEW_BUILDER
    {
      openTime, lastDayVolume, lastEmitted, coverageStart := None, None, None, None;
      o, h, l, c, vol, oi := 0.0, 0.0, 0.0, 0.0, 0.0, None;
      bucketTrusted, stale := false, false;
    }

    method LoseOpenBucket()
      requires Valid()
      modifies this
      ensures Valid() && Value() == old(Value()).LoseOpen()
    {
      if openTime.None? { return; }
      bucketTrusted := false;
    }

    method SetConnected(ts: Instant)
      requires Valid()
      modifies this
      ensures Valid() && Value() == old(Value()).Connect(ts)
    {
      coverageStart := Some(ts);
      stale := false;
      if openTime.Some? && openTime.value < ts {
        LoseOpenBucket();
      }
    }

    method SetDisconnected()
      requires Valid()
      modifies this
      ensures Valid() && Value() == old(Value()).Disconnect()
    {
      coverageStart := None;
      LoseOpenBucket();
    }

    method SetStale() returns (changed: bool)
      requires Valid()
      modifies this
      ensures Valid() && Value() == old(Value()).Stall() && changed == !old(stale)
    {
      if stale { return false; }
      stale := true;
      LoseOpenBucket();
      return true;
    }

    method MarkEmittedUntil(ts: Instant)
      requires Valid()
      modifies this
      ensures Valid() && Value() == old(Value()).MarkEmittedUntil(ts)
    {
      var minute := FloorTo(ts, MINUTE);
      if lastEmitted.None? || lastEmitted.value < minute {
        lastEmitted := Some(minute);
        if openTime.Some? && openTime.value <= minute {
          openTime := None;
        }
      }
    }

    /** Drop the minute in progress: the broker's candle replaces it. */
    method DropOpen()
      requires Valid()
      modifies this
      ensures Valid() && Value() == old(Value()).(forming := None)
    {
      openTime := None;
    }

    method Emit() returns (built: BuiltM1)
      requires Valid() && openTime.Some?
      modifies this
      ensures Valid() && (Value(), built) == old(Value()).Emit()
    {
      built := BuiltM1(Candle(M1, openTime.value, o, h, l, c, vol, oi, if bucketTrusted then Dhan else Partial, true), bucketTrusted);
      lastEmitted := openTime;
      openTime := None;
    }

    method OpenAt(start: Instant, price: real)
      requires Valid()
      modifies this
      ensures Valid() && openTime.Some? && Value() == old(Value()).OpenAt(start, price)
    {
      if openTime.None? {
        openTime := Some(start);
        bucketTrusted := coverageStart.Some? && !stale && coverageStart.value <= start;
        o, h, l, c := price, price, price, price;
        vol, oi := 0.0, None;
      }
    }

    method Fold(t: Tick)
      requires Valid() && openTime.Some?
      modifies this
      ensures Valid() && Value() == old(Value()).Fold(t)
    {
      h, l, c := MaxReal(h, t.price), MinReal(l, t.price), t.price;
      if t.lastQty.Some? {
        vol := vol + t.lastQty.value;
      } else if t.dayVolume.Some? {
        if lastDayVolume.Some? && lastDayVolume.value <= t.dayVolume.value {
          vol := vol + (t.dayVolume.value - lastDayVolume.value);
        }
        lastDayVolume := t.dayVolume;
      }
      if t.oi.Some? {
        oi := t.oi;
      }
    }

    method AddTick(t: Tick) returns (out: seq<BuiltM1>)
      requires Valid()
      modifies this
      ensures Valid() && (Value(), out) == old(Value()).AddTick(t)
    {
      if stale {
        SetConnected(t.ts);
      }
      var start := FloorTo(t.ts, MINUTE);
      if lastEmitted.Some? && start <= lastEmitted.value {
        return [];
      }
      out := [];
      if openTime.Some? && openTime.value < start {
        var built := Emit();
        out := [built];
      }
      OpenAt(start, t.price);
      Fold(t);
    }

    method FlushAt(now: Instant) returns (out: seq<BuiltM1>)
      requires Valid()
      modifies this
      ensures Valid() && (Value(), out) == old(Value()).FlushAt(now)
    {
      if openTime.Some? && openTime.value + MINUTE <= now {
        var built := Emit();
        return [built];
      }
      return [];
    }
  }

  // ------------------------------------------------------------------ traces

  /** A minute that came out: when its first tick arrived and when it was closed, as trace positions. */
  datatype Emission = Emission(candle: Candle, trusted: bool, openedAt: nat, closedAt: nat)

  datatype Trail = Trail(b: Builder, openedAt: nat, log: seq<Emission>)

  function Follow(trace: seq<Event>): Trail {
    if trace == [] then Trail(NEW_BUILDER, 0, [])
    else
      var n := |trace| - 1;
      var prev := Follow(trace[..n]);
      var (b, out) := prev.b.Step(trace[n]);
      Trail(b, if b.forming.Some? && (prev.b.forming.None? || out != []) then n else prev.openedAt,
            prev.log + if out == [] then [] else [Emission(out[0].candle, out[0].trusted, prev.openedAt, n)])
  }

  /** The feed as the events tell it, without looking at any builder. */
  datatype Feed = Down | Live(since: Instant) | Stalled

  function FeedAfter(trace: seq<Event>): Feed {
    if trace == [] then Down
    else
      var before := FeedAfter(trace[..|trace| - 1]);
      match trace[|trace| - 1]
      case OnConnect(ts) => Live(ts)
      case OnDisconnect => if before == Stalled then Stalled else Down
      case OnStall => Stalled
      case OnTick(t) => if before == Stalled then Live(t.ts) else before
      case OnFlush(_) => before
      case OnMark(_) => before
  }

  /** An event that takes away the coverage of a minute under way. */
  predicate Breaks(e: Event, minute: Instant) { e.OnDisconnect? || e.OnStall? || (e.OnConnect? && minute < e.ts) }

  /** The feed was live since the minute's open or before when its first tick arrived, and nothing broke it until `closedAt`. */
  ghost predicate CoveredThroughout(trace: seq<Event>, minute: Instant, openedAt: nat, closedAt: nat)
    requires openedAt < closedAt <= |trace|
  {
    && FeedAfter(trace[..openedAt + 1]).Live? && FeedAfter(trace[..openedAt + 1]).since <= minute
    && forall k :: openedAt < k < closedAt ==> !Breaks(trace[k], minute)
  }

  ghost predicate FeedMatches(b: Builder, f: Feed) {
    match f
    case Stalled => b.stale
    case Down => !b.stale && b.coverageStart.None?
    case Live(since) => !b.stale && b.coverageStart == Some(since)
  }

  /** The builder's coverage is the feed the events tell of. */
  lemma {:induction false} FeedFollows(trace: seq<Event>)
    ensures FeedMatches(Follow(trace).b, FeedAfter(trace))
  {
    if trace != [] {
      FeedFollows(trace[..|trace| - 1]);
    }
  }

  ghost predicate LogTrusted(trace: seq<Event>, log: seq<Emission>) {
    forall i :: 0 <= i < |log| ==>
      && log[i].openedAt < log[i].closedAt < |trace|
      && (log[i].trusted <==> CoveredThroughout(trace, log[i].candle.openTime, log[i].openedAt, log[i].closedAt))
  }

  ghost predicate OpenTrusted(trace: seq<Event>, t: Trail) {
    t.b.forming.Some? ==>
      && t.openedAt < |trace|
      && (t.b.forming.value.trusted <==> CoveredThroughout(trace, t.b.forming.value.at, t.openedAt, |trace|))
  }

  lemma CoveredPrefix(trace: seq<Event>, e: Event, minute: Instant, openedAt: nat, closedAt: nat)
    requires openedAt < closedAt <= |trace|
    ensures CoveredThroughout(trace + [e], minute, openedAt, closedAt) <==> CoveredThroughout(trace, minute, openedAt, closedAt)
  {
    assert (trace + [e])[..openedAt + 1] == trace[..openedAt + 1];
    assert forall k :: openedAt < k < closedAt ==> (trace + [e])[k] == trace[k];
  }

  /** A trusted minute in progress is covered since its open, right now. */
  ghost predicate TrustInv(b: Builder) { b.forming.Some? && b.forming.value.trusted ==> b.MinuteTrusted(b.forming.value.at) }

  /** One event: it keeps the trust invariant; what comes out is the minute that was in progress, as
      trusted as it was; a minute that goes on stays trusted exactly when the event does not break it; a
      minute that starts is trusted exactly when it is covered. */
  lemma StepEffect(b: Builder, e: Event)
    requires TrustInv(b)
    ensures var (c, out) := b.Step(e);
      && TrustInv(c) && |out| <= 1
      && (out != [] ==> b.forming.Some? && out[0].candle.openTime == b.forming.value.at && out[0].trusted == b.forming.value.trusted
                        && out[0].candle.source == (if out[0].trusted then Dhan else Partial)
                        && c.lastEmitted == Some(b.forming.value.at))
      && (c.forming.Some? && (b.forming.None? || out != []) ==>
            e.OnTick? && c.forming.value.at == e.tick.Minute()
            && (c.forming.value.trusted <==> c.MinuteTrusted(c.forming.value.at)))
      && (c.forming.Some? && b.forming.Some? && out == [] ==>
            c.forming.value.at == b.forming.value.at
            && (c.forming.value.trusted <==> b.forming.value.trusted && !Breaks(e, b.forming.value.at)))
  {
  }

  lemma {:induction false} TrustInvHolds(trace: seq<Event>)
    ensures TrustInv(Follow(trace).b)
  {
    if trace != [] {
      TrustInvHolds(trace[..|trace| - 1]);
      StepEffect(Follow(trace[..|trace| - 1]).b, trace[|trace| - 1]);
    }
  }

  /** The minute in progress, one event later. */
  lemma OpenTrustedStep(front: seq<Event>, e: Event)
    requires OpenTrusted(front, Follow(front))
    ensures OpenTrusted(front + [e], Follow(front + [e]))
  {
    var trace, n := front + [e], |front|;
    assert trace[..n] == front;
    var prev, next := Follow(front), Follow(trace);
    TrustInvHolds(front);
    StepEffect(prev.b, e);
    if next.b.forming.Some? {
      var minute := next.b.forming.value.at;
      if next.openedAt == n {
        FeedFollows(trace);
        assert trace[..n + 1] == trace;
      } else {
        CoveredPrefix(front, e, minute, prev.openedAt, n);
        assert CoveredThroughout(trace, minute, prev.openedAt, n + 1) <==>
                 CoveredThroughout(trace, minute, prev.openedAt, n) && !Breaks(trace[n], minute);
      }
    }
  }

  /** TRUST IS COVERAGE: over every event trace, a minute comes out trusted exactly when the feed covered
      it from its open, with no disconnect, stall or later-dated connect while it was in progress. */
  lemma {:induction false} TrustIsCoverage(trace: seq<Event>)
    ensures LogTrusted(trace, Follow(trace).log)
    ensures OpenTrusted(trace, Follow(trace))
  {
    if trace != [] {
      var n := |trace| - 1;
      var front, e := trace[..n], trace[n];
      assert trace == front + [e];
      TrustIsCoverage(front);
      OpenTrustedStep(front, e);
      var prev := Follow(front);
      forall i | 0 <= i < |prev.log|
        ensures prev.log[i].trusted <==> CoveredThroughout(trace, prev.log[i].candle.openTime, prev.log[i].openedAt, prev.log[i].closedAt)
      {
        CoveredPrefix(front, e, prev.log[i].candle.openTime, prev.log[i].openedAt, prev.log[i].closedAt);
      }
      TrustInvHolds(front);
      StepEffect(prev.b, e);
      if prev.b.forming.Some? {
        CoveredPrefix(front, e, prev.b.forming.value.at, prev.openedAt, n);
      }
    }
  }

  // ------------------------------------------------------------- minutes in order

  /** The minute in progress is after everything emitted. */
  ghost predicate OrderInv(b: Builder) { b.forming.Some? && b.lastEmitted.Some? ==> b.lastEmitted.value < b.forming.value.at }

  /** One event never goes back; what comes out is the minute in progress, unchanged. */
  lemma StepOrder(b: Builder, e: Event)
    requires OrderInv(b)
    ensures var (c, out) := b.Step(e);
      && OrderInv(c) && |out| <= 1
      && (b.lastEmitted.Some? ==> c.lastEmitted.Some? && b.lastEmitted.value <= c.lastEmitted.value)
      && (out != [] ==>
            && b.forming.Some? && c.lastEmitted == Some(b.forming.value.at)
            && var f, k := b.forming.value, out[0].candle;
               k.openTime == f.at && k.open == f.open && k.high == f.high && k.low == f.low && k.close == f.close
               && k.volume == f.volume && k.oi == f.oi)
  {
  }

  lemma FollowSnoc(front: seq<Event>, e: Event)
    ensures var (prev, t) := (Follow(front), Follow(front + [e])); var (b, out) := prev.b.Step(e);
      && t.b == b
      && t.log == prev.log + if out == [] then [] else [Emission(out[0].candle, out[0].trusted, prev.openedAt, |front|)]
  {
    assert (front + [e])[..|front|] == front;
  }

  ghost predicate MinutesInOrder(log: seq<Emission>) {
    forall i, j :: 0 <= i < j < |log| ==> log[i].candle.openTime < log[j].candle.openTime
  }

  ghost predicate AllEmitted(log: seq<Emission>, last: Option<Instant>) {
    forall i :: 0 <= i < |log| ==> last.Some? && log[i].candle.openTime <= last.value
  }

  ghost predicate LogIncreases(t: Trail) { OrderInv(t.b) && MinutesInOrder(t.log) && AllEmitted(t.log, t.b.lastEmitted) }

  /** Over every trace the emitted minutes strictly increase, up to the last emitted one, and the minute
      in progress is after them all. */
  lemma {:induction false} MinutesIncrease(trace: seq<Event>)
    ensures LogIncreases(Follow(trace))
  {
    if trace != [] {
      var front, e := trace[..|trace| - 1], trace[|trace| - 1];
      assert trace == front + [e];
      MinutesIncrease(front);
      FollowSnoc(front, e);
      IncreasesStep(Follow(front), e, Follow(trace), |front|);
    }
  }

  lemma IncreasesStep(t: Trail, e: Event, u: Trail, n: nat)
    requires LogIncreases(t)
    requires var (b, out) := t.b.Step(e);
      u.b == b && u.log == t.log + if out == [] then [] else [Emission(out[0].candle, out[0].trusted, t.openedAt, n)]
    ensures LogIncreases(u)
  {
    StepOrder(t.b, e);
    hide Builder.Step, OrderInv;
    if t.b.Step(e).1 == [] { assert u.log == t.log; }
  }

  // ------------------------------------------------------------- what a bar is made of

  /** The ticks of one minute, in arrival order. */
  function TicksOf(trace: seq<Event>, minute: Instant): seq<Tick> {
    if trace == [] then []
    else
      var e := trace[|trace| - 1];
      TicksOf(trace[..|trace| - 1], minute) + if e.OnTick? && e.tick.Minute() == minute then [e.tick] else []
  }

  function SumQty(ts: seq<Tick>): real {
    if ts == [] then 0.0 else SumQty(ts[..|ts| - 1]) + if ts[|ts| - 1].lastQty.Some? then ts[|ts| - 1].lastQty.value else 0.0
  }

  function LastTickOi(ts: seq<Tick>): Option<real> {
    if ts == [] then None else if ts[|ts| - 1].oi.Some? then ts[|ts| - 1].oi else LastTickOi(ts[..|ts| - 1])
  }

  /** First price, extreme prices (bounds that are attained), last price, last known open interest, and
      the traded quantity when every tick carries one. */
  ghost predicate Summarises(open: real, high: real, low: real, close: real, volume: real, oi: Option<real>, ts: seq<Tick>) {
    && ts != [] && open == ts[0].price && close == ts[|ts| - 1].price && oi == LastTickOi(ts)
    && (forall t :: t in ts ==> low <= t.price <= high)
    && (exists t :: t in ts && t.price == high) && (exists t :: t in ts && t.price == low)
    && ((forall t :: t in ts ==> t.lastQty.Some?) ==> volume == SumQty(ts))
  }

  ghost predicate FormingIs(f: Forming, ts: seq<Tick>) { Summarises(f.open, f.high, f.low, f.close, f.volume, f.oi, ts) }

  ghost predicate CandleIs(c: Candle, ts: seq<Tick>) { Summarises(c.open, c.high, c.low, c.close, c.volume, c.oi, ts) }

  lemma SummarisesMore(f: Forming, ts: seq<Tick>, t: Tick, lastDayVolume: Option<real>)
    requires FormingIs(f, ts)
    ensures FormingIs(FoldTick(f, t, lastDayVolume), ts + [t])
  {
    var more := ts + [t];
    assert more[..|ts|] == ts && more[|ts|] == t;
    assert t in more;
    assert forall u :: u in ts ==> u in more;
    var hi :| hi in ts && hi.price == f.high;
    var lo :| lo in ts && lo.price == f.low;
    assert (if f.high < t.price then t else hi) in more;
    assert (if t.price < f.low then t else lo) in more;
  }

  lemma SummarisesFirst(start: Instant, t: Tick, trusted: bool, lastDayVolume: Option<real>)
    ensures FormingIs(FoldTick(Forming(start, t.price, t.price, t.price, t.price, 0.0, None, trusted), t, lastDayVolume), [t])
  {
    assert [t][..0] == [] && t in [t];
  }

  /** Ticks come in minute order. */
  ghost predicate MinuteOrder(trace: seq<Event>) {
    forall i, j :: 0 <= i < j < |trace| && trace[i].OnTick? && trace[j].OnTick? ==> trace[i].tick.Minute() <= trace[j].tick.Minute()
  }

  /** A tick's minute is out or in progress. */
  ghost predicate Accounted(b: Builder, minute: Instant) {
    (b.lastEmitted.Some? && minute <= b.lastEmitted.value) || (b.forming.Some? && b.forming.value.at == minute)
  }

  ghost predicate FoldInv(trace: seq<Event>, b: Builder) {
    && (b.forming.Some? ==> FormingIs(b.forming.value, TicksOf(trace, b.forming.value.at)))
    && forall k :: 0 <= k < |trace| && trace[k].OnTick? ==> Accounted(b, trace[k].tick.Minute())
  }

  lemma {:induction false} NoTicksOf(trace: seq<Event>, minute: Instant)
    requires forall k :: 0 <= k < |trace| && trace[k].OnTick? ==> trace[k].tick.Minute() != minute
    ensures TicksOf(trace, minute) == []
  {
    if trace != [] { NoTicksOf(trace[..|trace| - 1], minute); }
  }

  lemma {:induction false} SomeTickOf(trace: seq<Event>, minute: Instant)
    requires TicksOf(trace, minute) != []
    ensures exists k :: 0 <= k < |trace| && trace[k].OnTick? && trace[k].tick.Minute() == minute
  {
    var n := |trace| - 1;
    if TicksOf(trace[..n], minute) != [] {
      SomeTickOf(trace[..n], minute);
      var k :| 0 <= k < n && trace[..n][k].OnTick? && trace[..n][k].tick.Minute() == minute;
      assert trace[k].tick.Minute() == minute;
    } else {
      assert trace[n].OnTick?;
    }
  }

  /** What a tick does to the minute in progress: nothing when late, joins it, or starts its own. */
  lemma AddTickShape(b: Builder, t: Tick)
    requires OrderInv(b) && (b.forming.Some? ==> b.forming.value.at <= t.Minute())
    ensures var c := b.AddTick(t).0; var start := t.Minute();
      if b.lastEmitted.Some? && start <= b.lastEmitted.value then
        c.forming.None? == b.forming.None? && b.forming.None? && c.lastEmitted == b.lastEmitted
      else
        && c.forming.Some? && c.forming.value.at == start
        && (if b.forming.Some? && b.forming.value.at == start then
              c.lastEmitted == b.lastEmitted
              && exists trusted :: c.forming.value == FoldTick(b.forming.value.(trusted := trusted), t, b.lastDayVolume)
            else
              (b.forming.Some? ==> c.lastEmitted == Some(b.forming.value.at)) && (b.forming.None? ==> c.lastEmitted == b.lastEmitted)
              && exists trusted :: c.forming.value == FoldTick(Forming(start, t.price, t.price, t.price, t.price, 0.0, None, trusted), t, b.lastDayVolume))
  {
    var c := b.AddTick(t).0;
    if c.forming.Some? {
      var trusted := c.forming.value.trusted;
      if b.forming.Some? && b.forming.value.at == t.Minute() {
        assert c.forming.value == FoldTick(b.forming.value.(trusted := trusted), t, b.lastDayVolume);
      } else {
        assert c.forming.value == FoldTick(Forming(t.Minute(), t.price, t.price, t.price, t.price, 0.0, None, trusted), t, b.lastDayVolume);
      }
    }
  }

  /** In minute order the minute in progress is not after a new tick's. */
  lemma NotAfter(front: seq<Event>, t: Tick, at: Instant)
    requires MinuteOrder(front + [OnTick(t)]) && TicksOf(front, at) != []
    ensures at <= t.Minute()
  {
    SomeTickOf(front, at);
    var k :| 0 <= k < |front| && front[k].OnTick? && front[k].tick.Minute() == at;
    var trace := front + [OnTick(t)];
    assert trace[k] == front[k] && trace[|front|] == OnTick(t);
  }

  lemma TicksOfSnoc(front: seq<Event>, e: Event, minute: Instant)
    ensures TicksOf(front + [e], minute) == TicksOf(front, minute) + if e.OnTick? && e.tick.Minute() == minute then [e.tick] else []
  {
    assert (front + [e])[..|front|] == front;
  }

  /** The minute in progress after a tick is made of its minute's ticks. */
  lemma FormingAfterTick(front: seq<Event>, t: Tick, b: Builder)
    requires FoldInv(front, b) && OrderInv(b) && (b.forming.Some? ==> b.forming.value.at <= t.Minute())
    ensures var c := b.AddTick(t).0; c.forming.Some? ==> FormingIs(c.forming.value, TicksOf(front + [OnTick(t)], c.forming.value.at))
  {
    hide Builder.Fold;
    var start, c := t.Minute(), b.AddTick(t).0;
    AddTickShape(b, t);
    TicksOfSnoc(front, OnTick(t), start);
    hide Builder.AddTick, Tick.Minute, FoldTick, FormingIs, TicksOf;
    if c.forming.Some? {
      if b.forming.Some? && b.forming.value.at == start {
        var trusted :| c.forming.value == FoldTick(b.forming.value.(trusted := trusted), t, b.lastDayVolume);
        TrustIsAside(b.forming.value, trusted, TicksOf(front, start));
        SummarisesMore(b.forming.value.(trusted := trusted), TicksOf(front, start), t, b.lastDayVolume);
      } else {
        forall k | 0 <= k < |front| && front[k].OnTick? ensures front[k].tick.Minute() != start {
          assert Accounted(b, front[k].tick.Minute());
        }
        NoTicksOf(front, start);
        var trusted :| c.forming.value == FoldTick(Forming(start, t.price, t.price, t.price, t.price, 0.0, None, trusted), t, b.lastDayVolume);
        SummarisesFirst(start, t, trusted, b.lastDayVolume);
        EmptyLeft([t]);
      }
    }
  }

  lemma TrustIsAside(f: Forming, trusted: bool, ts: seq<Tick>)
    ensures FormingIs(f.(trusted := trusted), ts) <==> FormingIs(f, ts)
  {
  }

  /** One tick in minute order: it starts its minute, or joins the one in progress. */
  lemma FoldTickStep(front: seq<Event>, t: Tick, b: Builder)
    requires FoldInv(front, b) && MinuteOrder(front + [OnTick(t)]) && OrderInv(b)
    ensures FoldInv(front + [OnTick(t)], b.AddTick(t).0)
  {
    var trace, start, c := front + [OnTick(t)], t.Minute(), b.AddTick(t).0;
    if b.forming.Some? {
      NotAfter(front, t, b.forming.value.at);
    }
    FormingAfterTick(front, t, b);
    AddTickShape(b, t);
    hide Builder.AddTick, Tick.Minute, FoldTick, FormingIs, TicksOf;
    forall k | 0 <= k < |trace| && trace[k].OnTick? ensures Accounted(c, trace[k].tick.Minute()) {
      if k < |front| {
        assert trace[k] == front[k] && Accounted(b, front[k].tick.Minute());
      }
    }
  }

  lemma {:induction false} FoldInvHolds(trace: seq<Event>)
    requires MinuteOrder(trace)
    ensures FoldInv(trace, Follow(trace).b)
  {
    if trace != [] {
      var front, e := trace[..|trace| - 1], trace[|trace| - 1];
      assert trace == front + [e];
      FoldInvHolds(front);
      MinutesIncrease(front);
      FollowSnoc(front, e);
      var b := Follow(front).b;
      if e.OnTick? {
        FoldTickStep(front, e.tick, b);
      } else {
        FoldOtherStep(front, e, b);
      }
    }
  }

  lemma FoldOtherStep(front: seq<Event>, e: Event, b: Builder)
    requires FoldInv(front, b) && !e.OnTick? && OrderInv(b)
    ensures FoldInv(front + [e], b.Step(e).0)
  {
    var trace, c := front + [e], b.Step(e).0;
    if c.forming.Some? {
      assert b.forming.Some? && c.forming.value == b.forming.value.(trusted := c.forming.value.trusted);
      TicksOfSnoc(front, e, c.forming.value.at);
      assert TicksOf(trace, c.forming.value.at) == TicksOf(front, c.forming.value.at);
      assert FormingIs(c.forming.value, TicksOf(front, c.forming.value.at));
    }
    forall k | 0 <= k < |trace| && trace[k].OnTick? ensures Accounted(c, trace[k].tick.Minute()) {
      assert trace[k] == front[k] && Accounted(b, front[k].tick.Minute());
    }
  }

  /** A BAR IS ITS MINUTE'S TICKS: with ticks in minute order, every bar that comes out is made of
      exactly the ticks of its minute that arrived before it was closed. */
  lemma {:induction false} BarIsItsTicks(trace: seq<Event>)
    requires MinuteOrder(trace)
    ensures forall i :: 0 <= i < |Follow(trace).log| ==>
              var e := Follow(trace).log[i];
              e.closedAt < |trace| && CandleIs(e.candle, TicksOf(trace[..e.closedAt], e.candle.openTime))
  {
    if trace != [] {
      var n := |trace| - 1;
      var front, e := trace[..n], trace[n];
      assert trace == front + [e];
      BarIsItsTicks(front);
      FoldInvHolds(front);
      MinutesIncrease(front);
      FollowSnoc(front, e);
      StepOrder(Follow(front).b, e);
      var log := Follow(front).log;
      assert forall i :: 0 <= i < |log| ==> front[..log[i].closedAt] == trace[..log[i].closedAt];
    }
  }

  // -------------------------------------------------------------- day volume

  function EmittedVolume(log: seq<Emission>): real {
    if log == [] then 0.0 else EmittedVolume(log[..|log| - 1]) + log[|log| - 1].candle.volume
  }

  function FirstDayVolume(trace: seq<Event>): Option<real> {
    if trace == [] then None
    else
      var f := FirstDayVolume(trace[..|trace| - 1]);
      var e := trace[|trace| - 1];
      if f.Some? then f else if e.OnTick? then e.tick.dayVolume else None
  }

  /** Every tick carries only a day volume, the day volume never falls, and nothing is marked emitted from outside. */
  ghost predicate DayVolumeOnly(trace: seq<Event>) {
    && (forall k :: 0 <= k < |trace| && trace[k].OnTick? ==> trace[k].tick.lastQty.None? && trace[k].tick.dayVolume.Some?)
    && (forall i, j :: 0 <= i < j < |trace| && trace[i].OnTick? && trace[j].OnTick? ==>
          trace[i].tick.dayVolume.value <= trace[j].tick.dayVolume.value)
    && (forall k :: 0 <= k < |trace| ==> !trace[k].OnMark?)
  }

  function OpenVolume(b: Builder): real { if b.forming.Some? then b.forming.value.volume else 0.0 }

  function Growth(first: Option<real>, last: Option<real>): real {
    if first.Some? && last.Some? then last.value - first.value else 0.0
  }

  /** The builder knows a day volume exactly when a tick has come, and then it is some tick's. */
  ghost predicate VolumeKnown(trace: seq<Event>, b: Builder) {
    && (b.lastDayVolume.Some? <==> FirstDayVolume(trace).Some?)
    && (b.lastDayVolume.Some? ==> exists k :: 0 <= k < |trace| && trace[k].OnTick? && trace[k].tick.dayVolume == b.lastDayVolume)
    && (b.lastDayVolume.None? ==> b.forming.None? && b.lastEmitted.None?)
  }

  /** One event moves volume from the minute in progress to what has come out, and adds what the day volume grew by. */
  lemma StepVolume(b: Builder, e: Event)
    requires !e.OnMark? && (b.lastDayVolume.None? ==> b.forming.None? && b.lastEmitted.None?)
    requires e.OnTick? ==> e.tick.lastQty.None? && e.tick.dayVolume.Some?
                           && (b.lastDayVolume.Some? ==> b.lastDayVolume.value <= e.tick.dayVolume.value)
    ensures var (c, out) := b.Step(e);
      && |out| <= 1
      && OpenVolume(c) + (if out == [] then 0.0 else out[0].candle.volume) == OpenVolume(b) + Growth(b.lastDayVolume, c.lastDayVolume)
      && (c.lastDayVolume == b.lastDayVolume || (e.OnTick? && c.lastDayVolume == e.tick.dayVolume))
      && (b.lastDayVolume.None? && e.OnTick? ==> c.lastDayVolume == e.tick.dayVolume)
      && (c.lastDayVolume.None? ==> c.forming.None? && c.lastEmitted.None?)
  {
  }

  lemma VolumeKnownOn(front: seq<Event>, e: Event, b: Builder, c: Builder)
    requires VolumeKnown(front, b) && (e.OnTick? ==> e.tick.dayVolume.Some?)
    requires c.lastDayVolume == b.lastDayVolume || (e.OnTick? && c.lastDayVolume == e.tick.dayVolume)
    requires b.lastDayVolume.None? && e.OnTick? ==> c.lastDayVolume == e.tick.dayVolume
    requires c.lastDayVolume.None? ==> c.forming.None? && c.lastEmitted.None?
    ensures VolumeKnown(front + [e], c)
  {
    var trace, n := front + [e], |front|;
    assert trace[..n] == front;
    if c.lastDayVolume.Some? && c.lastDayVolume != b.lastDayVolume {
      assert trace[n].tick.dayVolume == c.lastDayVolume;
    } else if c.lastDayVolume.Some? {
      var k :| 0 <= k < n && front[k].OnTick? && front[k].tick.dayVolume == b.lastDayVolume;
      assert trace[k].tick.dayVolume == c.lastDayVolume;
    }
  }

  lemma EmittedVolumeSnoc(log: seq<Emission>, e: Emission)
    ensures EmittedVolume(log + [e]) == EmittedVolume(log) + e.candle.volume
  {
    assert (log + [e])[..|log|] == log;
  }

  /** VOLUMES TELESCOPE: what has come out plus what is in progress is the growth of the day volume since
      the first tick; no trade is counted twice or lost between minutes. */
  lemma {:induction false} VolumesTelescope(trace: seq<Event>)
    requires DayVolumeOnly(trace)
    ensures VolumeKnown(trace, Follow(trace).b)
    ensures EmittedVolume(Follow(trace).log) + OpenVolume(Follow(trace).b) == Growth(FirstDayVolume(trace), Follow(trace).b.lastDayVolume)
  {
    hide Builder.Step;
    if trace != [] {
      var n := |trace| - 1;
      var front, e := trace[..n], trace[n];
      assert trace == front + [e];
      assert forall k :: 0 <= k < n ==> front[k] == trace[k];
      VolumesTelescope(front);
      FollowSnoc(front, e);
      var b := Follow(front).b;
      StepVolume(b, e);
      hide Builder.Step;
      var (c, out) := b.Step(e);
      if out != [] {
        EmittedVolumeSnoc(Follow(front).log, Emission(out[0].candle, out[0].trusted, Follow(front).openedAt, n));
      } else {
        assert Follow(front).log + [] == Follow(front).log;
      }
      VolumeKnownOn(front, e, b, c);
    }
  }
}
