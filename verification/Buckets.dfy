/** Bucket policies: which bucket an instant falls in and which source intervals the bucket expects. */
module Buckets {
  import opened Timeline
  import opened Calendar
  import opened Sequences

  datatype Policy = Clock | Exchange(cal: SessionCalendar) {
    predicate IsOpen(t: Instant) { Clock? || cal.IsOpen(t) }

    /** Clock-aligned buckets; under an exchange calendar the last one of the day is capped at the
        session end, and H4 is anchored at the session start. */
    function Bucket(ts: Instant, target: Timeframe): Span {
      var start := FloorTo(ts, target.Seconds());
      var nominal := start + target.Seconds();
      if Clock? then Span(start, nominal)
      else if target == H4 then cal.H4Bucket(ts)
      else
        var d := cal.TradingDate(ts);
        var day := cal.DaySpan(d);
        if cal.IsTradingDay(d) && start < day.end <= nominal && day.start <= start then Span(start, day.end)
        else Span(start, nominal)
    }

    /** The source opens in [lo, hi), one step apart, at which the market is open. */
    function Expected(lo: Instant, hi: Instant, source: Timeframe): (ts: seq<Instant>)
      ensures forall i :: 0 <= i < |ts| ==> lo <= ts[i] < hi
      ensures Increasing(ts)
      decreases hi - lo
    {
      if hi <= lo then []
      else (if IsOpen(lo) then [lo] else []) + Expected(lo + source.Seconds(), hi, source)
    }

    function BucketExpected(ts: Instant, target: Timeframe, source: Timeframe): seq<Instant> {
      Expected(Bucket(ts, target).start, Bucket(ts, target).end, source)
    }

    /** The loop that lists them. */
    method ExpectedOpens(lo: Instant, hi: Instant, source: Timeframe) returns (out: seq<Instant>)
      ensures out == Expected(lo, hi, source)
    {
      hide IsOpen, Expected;
      var t := lo;
      out := [];
      while t < hi
        invariant out + Expected(t, hi, source) == Expected(lo, hi, source)
        decreases hi - t
      {
        ExpectedNext(this, out, t, hi, source);
        if IsOpen(t) {
          out := out + [t];
        }
        t := t + source.Seconds();
      }
      ExpectedEnd(this, out, t, hi, source);
    }
  }

  lemma ExpectedNext(p: Policy, out: seq<Instant>, t: Instant, hi: Instant, source: Timeframe)
    requires t < hi
    ensures out + p.Expected(t, hi, source) == (if p.IsOpen(t) then out + [t] else out) + p.Expected(t + source.Seconds(), hi, source)
  {
    hide Policy.IsOpen;
    Associate(out, if p.IsOpen(t) then [t] else [], p.Expected(t + source.Seconds(), hi, source));
    EmptyRight(out);
  }

  lemma ExpectedEnd(p: Policy, out: seq<Instant>, t: Instant, hi: Instant, source: Timeframe)
    requires hi <= t
    ensures out + p.Expected(t, hi, source) == out
  {
    EmptyRight(out);
  }

  /** On a grid start, exactly the open grid points of the range are expected. */
  lemma {:induction false} ExpectedIff(p: Policy, lo: Instant, hi: Instant, source: Timeframe, t: Instant)
    requires Aligned(lo, source)
    ensures t in p.Expected(lo, hi, source) <==> lo <= t < hi && Aligned(t, source) && p.IsOpen(t)
    decreases hi - lo
  {
    hide Aligned, Policy.IsOpen;
    if lo < hi {
      var next := lo + source.Seconds();
      AlignedStep(lo, source);
      ExpectedIff(p, next, hi, source, t);
      if Aligned(t, source) && lo < t {
        AlignedApart(lo, t, source);
      }
      var rest := p.Expected(next, hi, source);
      assert p.Expected(lo, hi, source) == (if p.IsOpen(lo) then [lo] else []) + rest;
    }
  }

  /** A range split at a grid point expects the two halves one after the other. */
  lemma {:induction false} ExpectedSplit(p: Policy, lo: Instant, mid: Instant, hi: Instant, source: Timeframe)
    requires Aligned(lo, source) && Aligned(mid, source) && lo <= mid <= hi
    ensures p.Expected(lo, hi, source) == p.Expected(lo, mid, source) + p.Expected(mid, hi, source)
    decreases mid - lo
  {
    hide Aligned, Policy.IsOpen;
    if lo < mid {
      var next := lo + source.Seconds();
      AlignedStep(lo, source);
      AlignedApart(lo, mid, source);
      ExpectedSplit(p, next, mid, hi, source);
      Associate(if p.IsOpen(lo) then [lo] else [], p.Expected(next, mid, source), p.Expected(mid, hi, source));
    }
  }

  /** The grid of a timeframe contains the grid of every larger one. */
  lemma CoarserAligned(t: Instant, source: Timeframe, target: Timeframe)
    requires source.Rank() <= target.Rank() && Aligned(t, target)
    ensures Aligned(t, source)
  {
    var i := CellIndex(t, target);
    var k := StepsPer(source, target);
    Reassociate(i, k, source.Seconds());
    GridPoint(i * k, source);
  }

  /** How many source steps make one target step. */
  function StepsPer(source: Timeframe, target: Timeframe): (k: int)
    requires source.Rank() <= target.Rank()
    ensures k * source.Seconds() == target.Seconds()
  {
    target.Seconds() / source.Seconds()
  }

  lemma Reassociate(a: int, b: int, c: int)
    ensures a * (b * c) == a * b * c
  {
  }

  lemma Distribute(a: int, b: int, c: int)
    ensures (a + b) * c == a * c + b * c
  {
  }

  /** Clock buckets, or a calendar whose days lie inside one local date and start on the grid of a timeframe. */
  ghost predicate Regular(p: Policy, tf: Timeframe) {
    p.Clock? || (p.cal.WithinDay() && p.cal.StartsOn(tf))
  }

  /** An open instant lies in its own bucket. */
  lemma InOwnBucket(p: Policy, t: Instant, target: Timeframe)
    requires p.IsOpen(t)
    ensures p.Bucket(t, target).start <= t < p.Bucket(t, target).end
  {
    FloorCell(t, target);
  }

  /** Buckets of the clock grid, capped or not. */
  predicate OnGrid(p: Policy, target: Timeframe) { p.Clock? || target != H4 }

  /** On the grid, a bucket that holds an instant starts where the instant's own bucket does. */
  lemma SharedInstant(p: Policy, target: Timeframe, t: Instant, other: Instant)
    requires OnGrid(p, target) && p.Bucket(other, target).start <= t < p.Bucket(other, target).end
    ensures p.Bucket(other, target).start == p.Bucket(t, target).start
  {
    FloorCell(other, target);
    FloorUnique(t, FloorTo(other, target.Seconds()), target);
  }

  /** On the grid, a bucket is determined by where it starts. */
  lemma KeyDeterminesBucket(p: Policy, target: Timeframe, x: Instant, y: Instant)
    requires OnGrid(p, target) && (p.Exchange? ==> p.cal.WithinDay())
    requires p.Bucket(x, target).start == p.Bucket(y, target).start
    ensures p.Bucket(x, target) == p.Bucket(y, target)
  {
    FloorCell(x, target);
    FloorCell(y, target);
  }

  /** Every aligned open instant a bucket expects has a bucket of its own that starts there too. */
  ghost predicate OneBucketEach(p: Policy, source: Timeframe, target: Timeframe) {
    forall t, other :: t in p.BucketExpected(other, target, source) && Aligned(t, source) && p.IsOpen(t) ==>
      p.Bucket(other, target).start == p.Bucket(t, target).start
  }

  /** An open aligned instant is expected by its own bucket. */
  lemma ExpectedByOwn(p: Policy, source: Timeframe, target: Timeframe, t: Instant)
    requires source.Rank() < target.Rank() && (OnGrid(p, target) || Regular(p, source))
    requires Aligned(t, source) && p.IsOpen(t)
    ensures t in p.BucketExpected(t, target, source)
  {
    InOwnBucket(p, t, target);
    BucketStartAligned(p, source, target, t);
    ExpectedIff(p, p.Bucket(t, target).start, p.Bucket(t, target).end, source, t);
  }

  /** PARTITION: every open source interval is expected by its own bucket and by no other, whatever the
      calendar. For four-hour buckets of an exchange see `FourHours.PartitionIff`. */
  lemma Partition(p: Policy, source: Timeframe, target: Timeframe)
    requires source.Rank() < target.Rank() && OnGrid(p, target)
    ensures forall t :: Aligned(t, source) && p.IsOpen(t) ==> t in p.BucketExpected(t, target, source)
    ensures OneBucketEach(p, source, target)
  {
    forall t | Aligned(t, source) && p.IsOpen(t) ensures t in p.BucketExpected(t, target, source) {
      ExpectedByOwn(p, source, target, t);
    }
    forall t, other | t in p.BucketExpected(other, target, source) && Aligned(t, source) && p.IsOpen(t)
      ensures p.Bucket(other, target).start == p.Bucket(t, target).start
    {
      SharedInstant(p, target, t, other);
    }
  }

  /** Whole H4 steps from a grid point stay on the grid. */
  lemma StepsOnGrid(g: Instant, k: int, source: Timeframe)
    requires Aligned(g, source)
    ensures Aligned(g + H4_SECONDS * k, source)
  {
    var i := CellIndex(g, source);
    var n := StepsPer(source, H4);
    Reassociate(k, n, source.Seconds());
    Distribute(i, k * n, source.Seconds());
    GridPoint(i + k * n, source);
  }

  lemma BucketStartAligned(p: Policy, source: Timeframe, target: Timeframe, ts: Instant)
    requires source.Rank() < target.Rank() && (OnGrid(p, target) || Regular(p, source))
    ensures Aligned(p.Bucket(ts, target).start, source)
  {
    if !OnGrid(p, target) {
      var day := p.cal.DaySpan(p.cal.TradingDate(ts));
      assert p.cal.StartsAligned(p.cal.TradingDate(ts), source);
      var k := if ts < day.start then -1 else (ts - day.start) / H4_SECONDS;
      StepsOnGrid(day.start, k, source);
    } else {
      FloorCell(ts, target);
      CoarserAligned(FloorTo(ts, target.Seconds()), source, target);
    }
  }

  /** The effective close of a bar on the grid is the end of the bucket it opens. */
  lemma EffectiveCloseIsBucketEnd(cal: SessionCalendar, t: Instant, tf: Timeframe)
    requires tf != H4 && Aligned(t, tf)
    ensures cal.EffectiveClose(t, tf.Seconds()) == Exchange(cal).Bucket(t, tf).end
  {
  }

  /** A bucket that starts while the market is open lasts to its nominal end, or to the end of the session if that
      comes first, and the market is open throughout. */
  lemma BucketLastsWhileOpen(cal: SessionCalendar, ts: Instant, tf: Timeframe)
    requires cal.WithinDay() && tf != H4 && cal.IsOpen(Exchange(cal).Bucket(ts, tf).start)
    ensures var b := Exchange(cal).Bucket(ts, tf);
      && Aligned(b.start, tf) && b.start < b.end <= b.start + tf.Seconds() && (forall x :: b.start <= x < b.end ==> cal.IsOpen(x))
      && (b.end == b.start + tf.Seconds() || cal.ClosesAt(LocalDate(ts), b.end))
  {
    var start := FloorTo(ts, tf.Seconds());
    FloorCell(ts, tf);
    FloorUnique(start, start, tf);
    KeyDeterminesBucket(Exchange(cal), tf, ts, start);
    EffectiveCloseIsBucketEnd(cal, start, tf);
    EffectiveCloseMeans(cal, start, tf.Seconds());
  }

  // -------------------------------------------------------------------- nesting

  ghost predicate NothingOpen(p: Policy, lo: Instant, hi: Instant) { forall x :: lo <= x < hi ==> !p.IsOpen(x) }

  /** A closed stretch at the end of a range expects nothing. */
  lemma {:induction false} ExpectedTrim(p: Policy, lo: Instant, hi: Instant, end: Instant, source: Timeframe)
    requires hi <= end && NothingOpen(p, hi, end)
    ensures p.Expected(lo, hi, source) == p.Expected(lo, end, source)
    decreases end - lo
  {
    if lo < end {
      ExpectedTrim(p, lo + source.Seconds(), hi, end, source);
    }
  }

  /** The source opens expected by the middle buckets of a list of middle opens, one after the other. */
  function ExpectedOfEach(p: Policy, opens: seq<Instant>, mid: Timeframe, source: Timeframe): seq<Instant> {
    if opens == [] then [] else p.BucketExpected(opens[0], mid, source) + ExpectedOfEach(p, opens[1..], mid, source)
  }

  /** The bucket of an open grid point starts there, and only closed time is left of its cell after it ends. */
  lemma BucketAtGrid(p: Policy, g: Instant, mid: Timeframe)
    requires mid != H4 && Regular(p, mid) && Aligned(g, mid) && p.IsOpen(g)
    ensures var b := p.Bucket(g, mid); b.start == g && b.end <= g + mid.Seconds() && NothingOpen(p, b.end, g + mid.Seconds())
  {
    FloorCell(g, mid);
    if p.Exchange? {
      CellInDate(g, mid);
      OpenWithin(p.cal, LocalDate(g));
    }
  }

  /** A closed grid point has nothing open in its cell: a session that began inside it would begin on the grid. */
  lemma ClosedCell(p: Policy, g: Instant, mid: Timeframe)
    requires Regular(p, mid) && Aligned(g, mid) && !p.IsOpen(g)
    ensures NothingOpen(p, g, g + mid.Seconds())
  {
    var d := LocalDate(g);
    CellInDate(g, mid);
    OpenWithin(p.cal, d);
    assert p.cal.StartsAligned(d, mid);
    if g < p.cal.DaySpan(d).start { AlignedApart(g, p.cal.DaySpan(d).start, mid); }
  }

  /** One cell of the middle grid expects what its bucket expects, or nothing when the cell is not open. */
  lemma CellNests(p: Policy, g: Instant, mid: Timeframe, source: Timeframe)
    requires source.Rank() < mid.Rank() && mid != H4 && Regular(p, mid) && Aligned(g, mid)
    ensures p.Expected(g, g + mid.Seconds(), source) == if p.IsOpen(g) then p.BucketExpected(g, mid, source) else []
  {
    hide Policy.Bucket, Policy.IsOpen, Aligned, Regular;
    if p.IsOpen(g) {
      BucketAtGrid(p, g, mid);
      ExpectedTrim(p, g, p.Bucket(g, mid).end, g + mid.Seconds(), source);
    } else {
      ClosedCell(p, g, mid);
      ExpectedTrim(p, g, g, g + mid.Seconds(), source);
    }
  }

  /** A grid cell does not straddle local midnight. */
  lemma CellInDate(g: Instant, tf: Timeframe)
    requires Aligned(g, tf)
    ensures Combine(LocalDate(g), 0) <= g && g + tf.Seconds() <= Combine(LocalDate(g) + 1, 0)
  {
    DateIff(g, LocalDate(g));
    Reassociate(LocalDate(g) + 1, PerDay(tf), tf.Seconds());
    GridPoint((LocalDate(g) + 1) * PerDay(tf), tf);
    AlignedApart(g, Combine(LocalDate(g) + 1, 0), tf);
  }

  lemma {:induction false} GridNests(p: Policy, lo: Instant, hi: Instant, mid: Timeframe, source: Timeframe)
    requires source.Rank() < mid.Rank() && mid != H4 && Regular(p, mid)
    requires Aligned(lo, mid) && Aligned(hi, mid)
    ensures p.Expected(lo, hi, source) == ExpectedOfEach(p, p.Expected(lo, hi, mid), mid, source)
    decreases hi - lo
  {
    if lo < hi {
      hide Aligned, Policy.IsOpen, Policy.Bucket, Policy.BucketExpected;
      var next := lo + mid.Seconds();
      AlignedStep(lo, mid);
      AlignedApart(lo, hi, mid);
      GridNests(p, next, hi, mid, source);
      CoarserAligned(lo, source, mid);
      CoarserAligned(next, source, mid);
      ExpectedSplit(p, lo, next, hi, source);
      CellNests(p, lo, mid, source);
      var rest := p.Expected(next, hi, mid);
      if p.IsOpen(lo) {
        Tail(lo, rest);
      } else {
        EmptyLeft(rest);
        EmptyLeft(p.Expected(next, hi, source));
      }
    }
  }

  /** The end of a bucket is on the middle grid, or only closed time separates it from the grid. */
  lemma BucketEndTrims(p: Policy, ts: Instant, target: Timeframe, mid: Timeframe) returns (g: Instant)
    requires mid.Rank() < target.Rank() && Regular(p, mid)
    ensures Aligned(g, mid) && p.Bucket(ts, target).end <= g && NothingOpen(p, p.Bucket(ts, target).end, g)
  {
    hide StepsPer, FloorTo, Aligned, SessionCalendar.DaySpan, LocalDate, SessionCalendar.IsTradingDay, PerDay,
         SessionCalendar.IsOpen;
    BucketStartAligned(p, mid, target, ts);
    var b := p.Bucket(ts, target);
    if p.Exchange? && b.end == p.cal.DaySpan(LocalDate(ts)).end {
      var d := LocalDate(ts);
      OpenWithin(p.cal, d);
      Reassociate(d + 1, PerDay(mid), mid.Seconds());
      GridPoint((d + 1) * PerDay(mid), mid);
      g := Combine(d + 1, 0);
    } else if p.Exchange? && target == H4 && ts < p.cal.DaySpan(LocalDate(ts)).start {
      assert p.cal.StartsAligned(LocalDate(ts), mid);
      g := b.end;
    } else {
      g := b.end;
      Reassociate(1, StepsPer(mid, target), mid.Seconds());
      var i := CellIndex(b.start, mid);
      Distribute(i, StepsPer(mid, target), mid.Seconds());
      GridPoint(i + StepsPer(mid, target), mid);
    }
  }

  /** NESTING: what a bucket expects of the source is what its middle-timeframe constituents expect,
      in order, when trading days start on the middle grid. */
  lemma Nesting(p: Policy, ts: Instant, target: Timeframe, mid: Timeframe, source: Timeframe)
    requires source.Rank() < mid.Rank() < target.Rank() && mid != H4 && Regular(p, mid)
    ensures p.BucketExpected(ts, target, source) == ExpectedOfEach(p, p.BucketExpected(ts, target, mid), mid, source)
  {
    var b := p.Bucket(ts, target);
    BucketStartAligned(p, mid, target, ts);
    var g := BucketEndTrims(p, ts, target, mid);
    ExpectedTrim(p, b.start, b.end, g, source);
    ExpectedTrim(p, b.start, b.end, g, mid);
    GridNests(p, b.start, g, mid, source);
  }

  // ------------------------------------------------------------------- H4 tiling

  /** Consecutive tiles covering [lo, hi), each at most four hours long and none empty. */
  ghost predicate Tiles(tiles: seq<Span>, lo: Instant, hi: Instant) {
    if tiles == [] then lo == hi
    else tiles[0].start == lo < tiles[0].end <= lo + H4_SECONDS && Tiles(tiles[1..], tiles[0].end, hi)
  }

  lemma {:induction false} TilesSnoc(tiles: seq<Span>, lo: Instant, mid: Instant, hi: Instant)
    requires Tiles(tiles, lo, mid) && mid < hi <= mid + H4_SECONDS
    ensures Tiles(tiles + [Span(mid, hi)], lo, hi)
  {
    if tiles != [] {
      TilesSnoc(tiles[1..], tiles[0].end, mid, hi);
      assert (tiles + [Span(mid, hi)])[1..] == tiles[1..] + [Span(mid, hi)];
    } else {
      assert (tiles + [Span(mid, hi)])[1..] == [];
    }
  }

  /** The session's H4 buckets: a gap-free tiling of the trading day, in which every open instant of
      the day finds its own H4 bucket. */
  method H4Buckets(cal: SessionCalendar, date: int) returns (out: seq<Span>)
    requires cal.WithinDay()
    ensures Tiles(out, cal.DaySpan(date).start, cal.DaySpan(date).end)
    ensures forall t :: cal.DaySpan(date).start <= t < cal.DaySpan(date).end ==> cal.H4Bucket(t) in out
  {
    hide SessionCalendar.DaySpan, Combine, SessionCalendar.EndsByMidnight;
    var day := cal.DaySpan(date);
    var start := day.start;
    out := [];
    ghost var n := 0;
    while start < day.end
      invariant day.start <= start <= day.end
      invariant start < day.end ==> start == day.start + n * H4_SECONDS
      invariant Tiles(out, day.start, start)
      invariant forall t :: day.start <= t < start ==> cal.H4Bucket(t) in out
      decreases day.end - start
    {
      var end := Min(start + H4_SECONDS, day.end);
      TilesSnoc(out, day.start, start, end);
      forall t | start <= t < end ensures cal.H4Bucket(t) == Span(start, end) {
        SpanWithin(cal, date);
        DateIff(t, date);
        SameCell((t - day.start) / H4_SECONDS, n, H4_SECONDS, t - day.start);
      }
      out := out + [Span(start, end)];
      start := end;
      n := n + 1;
    }
  }
}
