/** Instants, timeframes and local-midnight alignment.
    Instants are whole UTC seconds; local time is the constant IST offset ahead of them. */
module Timeline {
  type Instant = int

  const MINUTE := 60
  const DAY := 86400
  const IST_OFFSET := 19800

  datatype Option<+T> = None | Some(value: T)

  datatype Timeframe = M1 | M5 | M15 | H1 | H4 {
    function Seconds(): (s: int)
      ensures 0 < s
    {
      match this
      case M1 => 60
      case M5 => 300
      case M15 => 900
      case H1 => 3600
      case H4 => 14400
    }

    function Rank(): nat {
      match this
      case M1 => 0
      case M5 => 1
      case M15 => 2
      case H1 => 3
      case H4 => 4
    }
  }

  /** Strictly increasing. */
  ghost predicate Increasing(ts: seq<Instant>) { forall i, j :: 0 <= i < j < |ts| ==> ts[i] < ts[j] }

  function Max(a: int, b: int): int { if a < b then b else a }

  function Min(a: int, b: int): int { if a < b then a else b }

  /** The local calendar date (days since 1970-01-01) of an instant. */
  function LocalDate(ts: Instant): int { (ts + IST_OFFSET) / DAY }

  /** Seconds since local midnight. */
  function LocalTime(ts: Instant): (t: int)
    ensures 0 <= t < DAY
  {
    (ts + IST_OFFSET) % DAY
  }

  /** The instant of a local time of day on a local date. */
  function Combine(date: int, time: int): Instant { date * DAY + time - IST_OFFSET }

  /** A local date is the half-open range between two local midnights. */
  lemma DateIff(ts: Instant, date: int)
    ensures LocalDate(ts) == date <==> Combine(date, 0) <= ts < Combine(date + 1, 0)
  {
  }

  /** Floor to a bucket of `step` seconds measured from local midnight. */
  function FloorTo(ts: Instant, step: int): Instant
    requires 0 < step
  {
    Combine(LocalDate(ts), LocalTime(ts) / step * step)
  }

  /** `ts` lies on a boundary of the timeframe's local grid. */
  predicate Aligned(ts: Instant, tf: Timeframe) { FloorTo(ts, tf.Seconds()) == ts }

  /** Steps per local day. */
  function PerDay(tf: Timeframe): (n: int)
    ensures n * tf.Seconds() == DAY
  {
    match tf
    case M1 => 1440
    case M5 => 288
    case M15 => 96
    case H1 => 24
    case H4 => 6
  }

  /** The grid index of an instant: the instant lies in cell [index*step, (index+1)*step) of local time. */
  lemma CellIndex(ts: Instant, tf: Timeframe) returns (index: int)
    ensures FloorTo(ts, tf.Seconds()) + IST_OFFSET == index * tf.Seconds()
    ensures FloorTo(ts, tf.Seconds()) <= ts < FloorTo(ts, tf.Seconds()) + tf.Seconds()
  {
    var step := tf.Seconds();
    var k := LocalTime(ts) / step;
    index := LocalDate(ts) * PerDay(tf) + k;
    assert LocalDate(ts) * PerDay(tf) * step == LocalDate(ts) * (PerDay(tf) * step);
    assert LocalTime(ts) == k * step + LocalTime(ts) % step;
  }

  lemma NextCell(i: int, j: int, step: int)
    requires 0 < step && i < j
    ensures i * step + step <= j * step
  {
    var n := j - i - 1;
    assert 0 <= n * step;
    assert (i + 1 + n) * step == i * step + step + n * step;
  }

  /** Two cells of the grid with a common instant are the same cell. */
  lemma SameCell(i: int, j: int, step: int, x: int)
    requires 0 < step
    requires i * step <= x < i * step + step
    requires j * step <= x < j * step + step
    ensures i == j
  {
    if i < j { NextCell(i, j, step); }
    if j < i { NextCell(j, i, step); }
  }

  lemma {:induction false} GridPoint(m: int, tf: Timeframe)
    ensures Aligned(m * tf.Seconds() - IST_OFFSET, tf)
  {
    var g := m * tf.Seconds() - IST_OFFSET;
    var i := CellIndex(g, tf);
    SameCell(i, m, tf.Seconds(), g + IST_OFFSET);
  }

  /** Flooring lands on the grid, on the local date of the instant. */
  lemma FloorCell(ts: Instant, tf: Timeframe)
    ensures FloorTo(ts, tf.Seconds()) <= ts < FloorTo(ts, tf.Seconds()) + tf.Seconds()
    ensures Aligned(FloorTo(ts, tf.Seconds()), tf)
    ensures LocalDate(FloorTo(ts, tf.Seconds())) == LocalDate(ts)
  {
    var i := CellIndex(ts, tf);
    GridPoint(i, tf);
    var step := tf.Seconds();
    assert LocalTime(ts) == LocalTime(ts) / step * step + LocalTime(ts) % step;
    assert 0 <= LocalTime(ts) / step * step;
  }

  /** The cell is unique: the only grid point whose cell holds the instant is its floor. */
  lemma FloorUnique(ts: Instant, g: Instant, tf: Timeframe)
    requires Aligned(g, tf) && g <= ts < g + tf.Seconds()
    ensures FloorTo(ts, tf.Seconds()) == g
  {
    var i := CellIndex(ts, tf);
    var j := CellIndex(g, tf);
    SameCell(i, j, tf.Seconds(), ts + IST_OFFSET);
  }

  /** Neighbours of a grid point are grid points. */
  lemma AlignedStep(g: Instant, tf: Timeframe)
    requires Aligned(g, tf)
    ensures Aligned(g + tf.Seconds(), tf) && Aligned(g - tf.Seconds(), tf)
  {
    var j := CellIndex(g, tf);
    var step := tf.Seconds();
    assert (j + 1) * step == j * step + step && (j - 1) * step == j * step - step;
    GridPoint(j + 1, tf);
    GridPoint(j - 1, tf);
  }

  /** Distinct grid points are at least one step apart. */
  lemma AlignedApart(g: Instant, h: Instant, tf: Timeframe)
    requires Aligned(g, tf) && Aligned(h, tf) && g < h
    ensures g + tf.Seconds() <= h
  {
    if h < g + tf.Seconds() {
      FloorUnique(h, g, tf);
    }
  }

  // ------------------------------------------------------------------ sets of instants

  lemma EmptyOrNot(s: set<Instant>)
    ensures s == {} || exists y :: y in s
  {
    if forall y :: y !in s { assert s == {}; }
  }

  lemma {:induction false} HasLeast(s: set<Instant>)
    requires s != {}
    ensures exists m :: m in s && forall x :: x in s ==> m <= x
  {
    EmptyOrNot(s);
    var y :| y in s;
    if s == {y} {
      assert forall x :: x in s ==> y <= x;
    } else {
      assert s == (s - {y}) + {y};
      HasLeast(s - {y});
      var m :| m in s - {y} && forall x :: x in s - {y} ==> m <= x;
      assert Min(m, y) in s && forall x :: x in s ==> Min(m, y) <= x;
    }
  }

  function Least(s: set<Instant>): (m: Instant)
    requires s != {}
    ensures m in s && forall x :: x in s ==> m <= x
  {
    HasLeast(s);
    var m :| m in s && forall x :: x in s ==> m <= x;
    m
  }

  /** The instants of a set in increasing order. */
  function Ascending(s: set<Instant>): (ts: seq<Instant>)
    ensures Increasing(ts) && forall t :: t in ts <==> t in s
    decreases |s|
  {
    if s == {} then []
    else
      var rest := Ascending(s - {Least(s)});
      assert forall i :: 0 <= i < |rest| ==> rest[i] in rest;
      [Least(s)] + rest
  }

  /** The greatest instant of a set below a bound. */
  function LastBefore(s: set<Instant>, bound: Instant): (r: Option<Instant>)
    ensures r.Some? ==> r.value in s && r.value < bound && forall x :: x in s && x < bound ==> x <= r.value
    ensures r.None? ==> forall x :: x in s ==> bound <= x
  {
    var below := Ascending(set x | x in s && x < bound);
    if below == [] then
      assert forall x :: x in s && x < bound ==> x in below;
      None
    else
      var last := below[|below| - 1];
      assert last in below;
      assert forall x :: x in s && x < bound ==> x in below;
      Some(last)
  }
}
