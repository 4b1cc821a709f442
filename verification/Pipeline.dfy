/** The per-symbol pipeline on values: ticks become minutes, minutes are admitted to the tower, and every
    minute that cannot be trusted waits for the broker. */
module Pipeline {
  import opened Timeline
  import opened Candles
  import opened Aggregation
  import opened LiveMinutes
  import opened Sorting
  import opened Tower

  // ----------------------------------------------------------------- broker answers

  /** Closed minutes of a broker answer by open time; a later duplicate wins. */
  function ByTime(cs: seq<Candle>): (m: map<Instant, Candle>)
    ensures forall t :: t in m ==> m[t] in cs && m[t].openTime == t && m[t].closed && m[t].tf == M1
    ensures forall c :: c in cs && c.closed && c.tf == M1 ==> c.openTime in m
  {
    if cs == [] then map[]
    else
      var front, c := ByTime(cs[..|cs| - 1]), cs[|cs| - 1];
      assert forall x :: x in cs <==> x in cs[..|cs| - 1] || x == c;
      if c.closed && c.tf == M1 then front[c.openTime := c] else front
  }

  datatype Range = Range(start: Instant, end: Instant)

  /** A minute missing between two returned bars and inside the fetched range traded nothing: a flat bar
      at the close before it. */
  function ZeroFill(byTime: map<Instant, Candle>, minute: Instant, fetched: Option<Range>): (r: Option<Candle>)
    ensures r.Some? ==> FlatBetween(byTime, minute, fetched, r.value)
  {
    var before := LastBefore(byTime.Keys, minute);
    if before.Some? && (exists t :: t in byTime && minute < t) && fetched.Some? && fetched.value.start <= minute < fetched.value.end then
      var prev := byTime[before.value];
      Some(FlatMinute(minute, prev))
    else None
  }

  function FlatMinute(minute: Instant, prev: Candle): Candle {
    Candle(M1, minute, prev.close, prev.close, prev.close, prev.close, 0.0, prev.oi, ZeroTrade, true)
  }

  /** A flat bar at the last returned close before the minute, strictly inside what was returned and fetched. */
  ghost predicate FlatBetween(byTime: map<Instant, Candle>, minute: Instant, fetched: Option<Range>, c: Candle) {
    && fetched.Some? && fetched.value.start <= minute < fetched.value.end
    && (exists t :: t in byTime && minute < t)
    && exists t :: t in byTime && t < minute && (forall x :: x in byTime && x < minute ==> x <= t) && c == FlatMinute(minute, byTime[t])
  }

  /** The broker's minute, else a zero-trade fill when that is allowed. */
  function Settling(byTime: map<Instant, Candle>, minute: Instant, fill: bool, fetched: Option<Range>): (r: Option<Candle>)
    ensures r.Some? && minute in byTime ==> r.value == byTime[minute]
    ensures r.Some? && minute !in byTime ==> fill && FlatBetween(byTime, minute, fetched, r.value)
  {
    if minute in byTime then Some(byTime[minute]) else if fill then ZeroFill(byTime, minute, fetched) else None
  }

  /** The minute has closed and there is a candle to settle it with. */
  predicate Settles(byTime: map<Instant, Candle>, minute: Instant, now: Instant, fill: bool, fetched: Option<Range>) {
    minute + MINUTE <= now && Settling(byTime, minute, fill, fetched).Some?
  }

  function SettledOf(byTime: map<Instant, Candle>, minutes: seq<Instant>, now: Instant, fill: bool, fetched: Option<Range>): seq<Instant> {
    if minutes == [] then []
    else (if Settles(byTime, minutes[0], now, fill, fetched) then [minutes[0]] else []) + SettledOf(byTime, minutes[1..], now, fill, fetched)
  }

  // ----------------------------------------------------------------- the pipeline

  datatype Config = Config(isOpen: Instant -> bool, reconcileLive: bool, tolerance: real)

  /** `fed` and `admitted` are history: what the minute builder was told, and the minutes handed to the tower. */
  datatype Pipeline = Pipeline(
    config: Config, m1: Builder, tower: Tower, lastM1Open: Option<Instant>,
    recovering: bool, tickBuffer: seq<Tick>, seen: set<Instant>, pending: set<Instant>, queue: map<Instant, Candle>,
    fed: seq<Event>, admitted: seq<Candle>)
  {
    ghost predicate Sane() { Stacked(tower.Setups()) }

    /** Same configuration; nothing dispatched, seen or admitted is taken back. */
    ghost predicate Grows(p: Pipeline) {
      && p.config == config
      && p.tower.Setups() == tower.Setups() && p.tower.primary.Setup() == tower.primary.Setup()
      && seen <= p.seen && admitted <= p.admitted
    }

    function Told(e: Event): Pipeline { this.(m1 := m1.Step(e).0, fed := fed + [e]) }

    /** A closed minute enters aggregation once. */
    function OnM1Closed(c: Candle): (p: Pipeline)
      requires Sane()
      ensures Grows(p) && c.openTime in p.seen && p.m1 == m1 && p.pending == pending && p.fed == fed
    {
      if c.openTime in seen then this
      else
        this.(seen := seen + {c.openTime}, admitted := admitted + [c], tower := OnMinute(tower, c),
              lastM1Open := if lastM1Open.Some? && c.openTime <= lastM1Open.value then lastM1Open else Some(c.openTime))
    }

    function MarkPending(minute: Instant): (p: Pipeline)
      ensures Grows(p) && p.seen == seen
    {
      if minute in seen || minute in pending then this else this.(pending := pending + {minute})
    }

    /** A trusted minute is admitted, any other waits for the broker. */
    function OnBuilt(b: BuiltM1): (p: Pipeline)
      requires Sane()
      ensures Grows(p)
    {
      if b.trusted then
        (if config.reconcileLive then this.(queue := queue[b.candle.openTime := b.candle]) else this).OnM1Closed(b.candle)
      else MarkPending(b.candle.openTime)
    }

    /** What the builder answered to one event. */
    function Built(e: Event): (p: Pipeline)
      requires Sane()
      ensures Grows(p)
    {
      var out := m1.Step(e).1;
      if out == [] then Told(e) else Told(e).OnBuilt(out[0])
    }

    function AddTick(t: Tick): (p: Pipeline)
      requires Sane()
      ensures Grows(p)
    {
      if recovering then this.(tickBuffer := tickBuffer + [t]) else Built(OnTick(t))
    }

    function AddTicks(ts: seq<Tick>): (p: Pipeline)
      requires Sane()
      ensures Grows(p)
      decreases |ts|
    {
      if ts == [] then this
      else
        var p := AddTick(ts[0]);
        p.AddTicks(ts[1..])
    }

    // ------------------------------------------------------------- silent minutes

    predicate Unaccounted(m: Instant) {
      m !in seen && m !in pending && !(m1.forming.Some? && m1.forming.value.at == m) && config.isOpen(m)
    }

    /** Where the scan for silent minutes begins: not before coverage, not before the last admitted minute,
        not more than a day back. */
    function ScanStart(now: Instant): Instant
      requires m1.coverageStart.Some?
    {
      var covered := FloorTo(m1.coverageStart.value, MINUTE);
      var first := if lastM1Open.Some? && covered < lastM1Open.value + MINUTE then lastM1Open.value + MINUTE else covered;
      Max(first, FloorTo(now, MINUTE) - DAY)
    }

    /** Queue every unaccounted open minute of [m, until). */
    function Scan(m: Instant, until: Instant): (p: Pipeline)
      ensures Grows(p) && p == this.(pending := p.pending) && pending <= p.pending
      decreases until - m
    {
      if until <= m then this
      else (if Unaccounted(m) then MarkPending(m) else this).Scan(m + MINUTE, until)
    }

    function DetectSilent(now: Instant): (p: Pipeline)
      ensures Grows(p) && p == this.(pending := p.pending) && pending <= p.pending
    {
      if m1.coverageStart.None? then this else Scan(ScanStart(now), FloorTo(now, MINUTE))
    }

    /** The wall clock: close what has ended, queue silent minutes, close buckets bottom up. */
    function FlushAt(now: Instant): (p: Pipeline)
      requires Sane()
      ensures Grows(p)
    {
      if recovering then this
      else
        var p := Built(OnFlush(now)).DetectSilent(now);
        p.(tower := FlushHigher(FlushPrimary(p.tower, now), now, 0))
    }

    // ------------------------------------------------------------- recovery

    /** The minute left open, else the one after the last admitted. */
    function RecoveryStart(): Option<Instant> {
      if m1.forming.Some? then Some(m1.forming.value.at)
      else if lastM1Open.Some? then Some(lastM1Open.value + MINUTE) else None
    }

    /** One broker minute: it replaces the minute in progress, settles a pending one, and is admitted. */
    function RecoverOne(c: Candle): (p: Pipeline)
      requires Sane()
      ensures Grows(p)
    {
      if !c.closed || c.tf != M1 || c.openTime in seen then this
      else
        var dropped := if m1.forming.Some? && m1.forming.value.at == c.openTime then m1.(forming := None) else m1;
        this.(m1 := dropped.MarkEmittedUntil(c.openTime), fed := fed + [OnMark(c.openTime)], pending := pending - {c.openTime})
          .OnM1Closed(c)
    }

    function RecoverAll(cs: seq<Candle>): (p: Pipeline)
      requires Sane()
      ensures Grows(p)
      decreases |cs|
    {
      if cs == [] then this
      else
        var p := RecoverOne(cs[0]);
        p.RecoverAll(cs[1..])
    }

    function RecoverM1(cs: seq<Candle>): (p: Pipeline)
      requires Sane()
      ensures Grows(p)
    {
      RecoverAll(Sort(cs, ByOpen))
    }

    function EndRecovery(): (p: Pipeline)
      requires Sane()
      ensures Grows(p)
    {
      this.(recovering := false, tickBuffer := []).AddTicks(tickBuffer)
    }

    // ------------------------------------------------------------- verification

    function VerifyOne(byTime: map<Instant, Candle>, minute: Instant, now: Instant, fill: bool, fetched: Option<Range>): (p: Pipeline)
      requires Sane()
      ensures Grows(p)
    {
      if !Settles(byTime, minute, now, fill, fetched) then this
      else this.(pending := pending - {minute}).Told(OnMark(minute)).OnM1Closed(Settling(byTime, minute, fill, fetched).value)
    }

    function VerifyAll(byTime: map<Instant, Candle>, minutes: seq<Instant>, now: Instant, fill: bool, fetched: Option<Range>): (p: Pipeline)
      requires Sane()
      ensures Grows(p)
      decreases |minutes|
    {
      if minutes == [] then this
      else
        var p := VerifyOne(byTime, minutes[0], now, fill, fetched);
        p.VerifyAll(byTime, minutes[1..], now, fill, fetched)
    }

    function VerifyM1(cs: seq<Candle>, now: Instant, fill: bool, fetched: Option<Range>): (p: Pipeline)
      requires Sane()
      ensures Grows(p)
    {
      VerifyAll(ByTime(cs), Ascending(pending), now, fill, fetched)
    }

    // ------------------------------------------------------------- reconciliation

    /** A queued live minute meets the broker's: it leaves the queue, and a differing one is replaced where
        its bucket is still open. */
    function ReconcileOne(byTime: map<Instant, Candle>, minute: Instant): (p: Pipeline)
      ensures Grows(p)
    {
      if minute !in queue || minute !in byTime then this
      else
        var p := this.(queue := queue - {minute});
        if Agrees(queue[minute], byTime[minute], config.tolerance) then p else p.(tower := ReplaceMinute(tower, byTime[minute]))
    }

    function ReconcileAll(byTime: map<Instant, Candle>, minutes: seq<Instant>): (p: Pipeline)
      ensures Grows(p)
      decreases |minutes|
    {
      if minutes == [] then this
      else
        var p := ReconcileOne(byTime, minutes[0]);
        p.ReconcileAll(byTime, minutes[1..])
    }

    function ReconcileM1(cs: seq<Candle>): (p: Pipeline)
      ensures Grows(p)
    {
      ReconcileAll(ByTime(cs), Ascending(queue.Keys))
    }

    function RepairBar(bar: Candle): (p: Pipeline)
      requires Sane()
      ensures Grows(p)
    {
      this.(tower := Repair(tower, bar))
    }
  }

  function Abs(x: real): real { if x < 0.0 then -x else x }

  /** Prices equal to 1e-9 and volumes equal to the tolerated fraction of the broker's. */
  predicate Agrees(local: Candle, broker: Candle, tolerance: real) {
    && Abs(local.open - broker.open) <= 0.000000001 && Abs(local.high - broker.high) <= 0.000000001
    && Abs(local.low - broker.low) <= 0.000000001 && Abs(local.close - broker.close) <= 0.000000001
    && Abs(local.volume - broker.volume) / MaxReal(Abs(broker.volume), 1.0) <= tolerance
  }
}
