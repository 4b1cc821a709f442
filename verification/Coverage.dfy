/** What a broker answer provably covers: maximal runs of closed, present bars, stretched over closed time only. */
module Coverage {
  import opened Timeline
  import opened Candles
  import opened Calendar
  import opened Buckets
  import opened Intervals

  /** When the bar opening at `t` is closed. */
  function ClosesAt(p: Policy, t: Instant, tf: Timeframe): Instant {
    if p.Exchange? then p.cal.EffectiveClose(t, tf.Seconds()) else t + tf.Seconds()
  }

  /** The first grid point at or after an instant. */
  function FirstAligned(start: Instant, tf: Timeframe): (t: Instant)
    ensures Aligned(t, tf) && start <= t < start + tf.Seconds()
  {
    FloorCell(start, tf);
    AlignedStep(FloorTo(start, tf.Seconds()), tf);
    var t := FloorTo(start, tf.Seconds());
    if t < start then t + tf.Seconds() else t
  }

  /** The grid points of [start, end) at which the market is open. */
  function Potential(p: Policy, tf: Timeframe, start: Instant, end: Instant): seq<Instant> {
    p.Expected(FirstAligned(start, tf), end, tf)
  }

  /** A bar can exist at `t`. */
  predicate Possible(p: Policy, tf: Timeframe, t: Instant) { Aligned(t, tf) && p.IsOpen(t) }

  lemma PotentialIff(p: Policy, tf: Timeframe, start: Instant, end: Instant, t: Instant)
    ensures t in Potential(p, tf, start, end) <==> start <= t < end && Possible(p, tf, t)
  {
    ExpectedIff(p, FirstAligned(start, tf), end, tf, t);
    if Aligned(t, tf) && start <= t < FirstAligned(start, tf) {
      AlignedApart(t, FirstAligned(start, tf), tf);
    }
  }

  /** A later possible bar closes later: a bar closes by the next grid point, and not before its own open. */
  lemma ClosesInOrder(p: Policy, tf: Timeframe, t: Instant, u: Instant)
    requires Possible(p, tf, t) && Possible(p, tf, u) && t < u
    ensures ClosesAt(p, t, tf) <= t + tf.Seconds() <= u < ClosesAt(p, u, tf)
  {
    AlignedApart(t, u, tf);
  }

  /** Opens on the grid, at least one step apart. */
  ghost predicate Spaced(ts: seq<Instant>, step: int) { forall i, j :: 0 <= i < j < |ts| ==> ts[i] + step <= ts[j] }

  lemma PotentialSpaced(p: Policy, tf: Timeframe, start: Instant, end: Instant)
    ensures Spaced(Potential(p, tf, start, end), tf.Seconds())
  {
    var ts := Potential(p, tf, start, end);
    forall i, j | 0 <= i < j < |ts| ensures ts[i] + tf.Seconds() <= ts[j] {
      assert ts[i] in ts && ts[j] in ts;
      PotentialIff(p, tf, start, end, ts[i]);
      PotentialIff(p, tf, start, end, ts[j]);
      AlignedApart(ts[i], ts[j], tf);
    }
  }

  // ------------------------------------------------------------------ closed bars are a prefix

  /** How many leading bars have closed. */
  function ClosedCount(p: Policy, tf: Timeframe, ts: seq<Instant>, now: Instant): (k: nat)
    ensures k <= |ts| && (forall i :: 0 <= i < k ==> ClosesAt(p, ts[i], tf) <= now) && (k < |ts| ==> now < ClosesAt(p, ts[k], tf))
  {
    if ts == [] || now < ClosesAt(p, ts[0], tf) then 0
    else
      var k := ClosedCount(p, tf, ts[1..], now);
      assert forall i :: 1 <= i < k + 1 ==> ts[i] == ts[1..][i - 1];
      k + 1
  }

  lemma ClosedIff(p: Policy, tf: Timeframe, start: Instant, end: Instant, now: Instant, i: nat)
    requires i < |Potential(p, tf, start, end)|
    ensures var ts := Potential(p, tf, start, end); ClosesAt(p, ts[i], tf) <= now <==> i < ClosedCount(p, tf, ts, now)
  {
    hide ClosesAt;
    var ts := Potential(p, tf, start, end);
    var k := ClosedCount(p, tf, ts, now);
    if k < i {
      assert ts[k] in ts && ts[i] in ts;
      PotentialIff(p, tf, start, end, ts[k]);
      PotentialIff(p, tf, start, end, ts[i]);
      ClosesInOrder(p, tf, ts[k], ts[i]);
    }
  }

  // ------------------------------------------------------------------ runs

  /** The end of the run of present bars that starts at index `i`. */
  function RunEnd(ts: seq<Instant>, k: nat, i: nat, present: set<Instant>): (j: nat)
    requires i <= k <= |ts|
    ensures i <= j <= k && (forall m :: i <= m < j ==> ts[m] in present) && (j < k ==> ts[j] !in present)
    decreases k - i
  {
    if i == k || ts[i] !in present then i else RunEnd(ts, k, i + 1, present)
  }

  /** The intervals of the runs among the first `k` bars, from index `i` on. A run at the very beginning
      reaches back to the start of the range, one at the very end forward to its end. */
  function Runs(ts: seq<Instant>, k: nat, i: nat, present: set<Instant>, range: Interval, step: int): seq<Interval>
    requires i <= k <= |ts|
    decreases k - i
  {
    if i == k then []
    else if ts[i] !in present then Runs(ts, k, i + 1, present, range, step)
    else
      var j := RunEnd(ts, k, i, present);
      [RunInterval(ts, i, j, range, step)] + Runs(ts, k, j, present, range, step)
  }

  function RunInterval(ts: seq<Instant>, i: nat, j: nat, range: Interval, step: int): Interval
    requires i < j <= |ts|
  {
    Interval(if i == 0 then range.start else ts[i], if j == |ts| then range.end else ts[j - 1] + step)
  }

  /** The coverage an answer proves. */
  function Verified(p: Policy, tf: Timeframe, range: Interval, now: Instant, present: set<Instant>): seq<Interval> {
    var ts := Potential(p, tf, range.start, range.end);
    if range.end <= range.start then []
    else if ts == [] then [range]
    else Runs(ts, ClosedCount(p, tf, ts, now), 0, present, range, tf.Seconds())
  }

  /** The bars lie in the range, one step apart. */
  ghost predicate Laid(ts: seq<Instant>, range: Interval, step: int) {
    0 < step && Spaced(ts, step) && forall i :: 0 <= i < |ts| ==> range.Has(ts[i])
  }

  /** A run's interval holds exactly the bars of the run. */
  lemma RunHolds(ts: seq<Instant>, i: nat, j: nat, range: Interval, step: int, m: nat)
    requires Laid(ts, range, step) && i < j <= |ts| && m < |ts|
    ensures RunInterval(ts, i, j, range, step).Has(ts[m]) <==> i <= m < j
  {
    if m < i { assert ts[m] + step <= ts[i]; }
    if i < m { assert ts[i] + step <= ts[m]; }
    if j <= m { assert ts[j - 1] + step <= ts[m]; }
    if m < j - 1 { assert ts[m] + step <= ts[j - 1]; }
  }

  /** The bars inside the runs are exactly the closed and present ones. */
  lemma {:induction false} RunsHold(ts: seq<Instant>, k: nat, i: nat, present: set<Instant>, range: Interval, step: int, m: nat)
    requires Laid(ts, range, step) && i <= k <= |ts| && m < |ts|
    ensures In(ts[m], Runs(ts, k, i, present, range, step)) <==> i <= m < k && ts[m] in present
    decreases k - i
  {
    if i < k {
      if ts[i] !in present {
        RunsHold(ts, k, i + 1, present, range, step, m);
      } else {
        var j := RunEnd(ts, k, i, present);
        RunHolds(ts, i, j, range, step, m);
        RunsHold(ts, k, j, present, range, step, m);
        InCons(RunInterval(ts, i, j, range, step), Runs(ts, k, j, present, range, step), ts[m]);
      }
    }
  }

  lemma InCons(v: Interval, ivs: seq<Interval>, x: Instant)
    ensures In(x, [v] + ivs) <==> v.Has(x) || In(x, ivs)
  {
    var more := [v] + ivs;
    if v.Has(x) { assert more[0].Has(x); }
    if In(x, ivs) {
      var i :| 0 <= i < |ivs| && ivs[i].Has(x);
      assert more[i + 1].Has(x);
    }
    if In(x, more) {
      var i :| 0 <= i < |more| && more[i].Has(x);
      if i > 0 { assert ivs[i - 1].Has(x); }
    }
  }

  /** Runs are in order, apart, and inside the range. */
  lemma {:induction false} RunsCanonical(ts: seq<Instant>, k: nat, i: nat, present: set<Instant>, range: Interval, step: int)
    requires Laid(ts, range, step) && i <= k <= |ts|
    ensures var out := Runs(ts, k, i, present, range, step);
      && Canonical(out)
      && (forall n :: 0 <= n < |out| ==> range.Contains(out[n]))
      && (out != [] && 0 < i ==> exists m :: i <= m < |ts| && out[0].start == ts[m])
    decreases k - i
  {
    hide Laid, Interval.Contains;
    if i < k {
      if ts[i] !in present {
        RunsCanonical(ts, k, i + 1, present, range, step);
      } else {
        var j := RunEnd(ts, k, i, present);
        var rest := Runs(ts, k, j, present, range, step);
        RunsCanonical(ts, k, j, present, range, step);
        RunInside(ts, i, j, range, step);
        if rest != [] {
          RunsCanonical(ts, k, j + 1, present, range, step);
          NextRunApart(ts, k, j, present, range, step);
          assert forall n :: 0 < n < |rest| ==> rest[0].end < rest[n].start;
        }
      }
    }
  }

  lemma RunInside(ts: seq<Instant>, i: nat, j: nat, range: Interval, step: int)
    requires Laid(ts, range, step) && i < j <= |ts|
    ensures RunInterval(ts, i, j, range, step).NonEmpty() && range.Contains(RunInterval(ts, i, j, range, step))
  {
    if i < j - 1 { assert ts[i] + step <= ts[j - 1]; }
    if j < |ts| { assert ts[j - 1] + step <= ts[j]; }
  }

  /** After a run comes an absent bar, so the next run starts later than where this one ends. */
  lemma NextRunApart(ts: seq<Instant>, k: nat, j: nat, present: set<Instant>, range: Interval, step: int)
    requires Laid(ts, range, step) && 0 < j < k <= |ts| && ts[j] !in present
    requires var next := Runs(ts, k, j + 1, present, range, step); next != [] && exists m :: j + 1 <= m < |ts| && next[0].start == ts[m]
    ensures ts[j - 1] + step < Runs(ts, k, j, present, range, step)[0].start
  {
    var m :| j + 1 <= m < |ts| && Runs(ts, k, j + 1, present, range, step)[0].start == ts[m];
    assert ts[j - 1] + step <= ts[j] && ts[j] + step <= ts[m];
  }

  // ------------------------------------------------------------------ the theorems

  lemma PotentialLaid(p: Policy, tf: Timeframe, range: Interval)
    ensures Laid(Potential(p, tf, range.start, range.end), range, tf.Seconds())
  {
    var ts := Potential(p, tf, range.start, range.end);
    PotentialSpaced(p, tf, range.start, range.end);
    forall i | 0 <= i < |ts| ensures range.Has(ts[i]) {
      assert ts[i] in ts;
      PotentialIff(p, tf, range.start, range.end, ts[i]);
    }
  }

  /** COVERAGE IS EXACT: whatever bars came back, a possible bar of the range lies in the verified coverage if
      and only if it has closed and came back; and the coverage is canonical and inside the range. */
  lemma VerifiedExact(p: Policy, tf: Timeframe, range: Interval, now: Instant, present: set<Instant>)
    ensures var out := Verified(p, tf, range, now, present);
      && Canonical(out) && (forall n :: 0 <= n < |out| ==> range.Contains(out[n]))
      && forall t :: range.Has(t) && Possible(p, tf, t) ==> (In(t, out) <==> ClosesAt(p, t, tf) <= now && t in present)
  {
    var ts, out := Potential(p, tf, range.start, range.end), Verified(p, tf, range, now, present);
    PotentialLaid(p, tf, range);
    if range.start < range.end && ts != [] {
      RunsCanonical(ts, ClosedCount(p, tf, ts, now), 0, present, range, tf.Seconds());
    }
    forall t | range.Has(t) && Possible(p, tf, t) ensures In(t, out) <==> ClosesAt(p, t, tf) <= now && t in present {
      PotentialIff(p, tf, range.start, range.end, t);
      var m :| 0 <= m < |ts| && ts[m] == t;
      RunsHold(ts, ClosedCount(p, tf, ts, now), 0, present, range, tf.Seconds(), m);
      ClosedIff(p, tf, range.start, range.end, now, m);
    }
  }

  /** COMPLETE ANSWERS COVER EVERYTHING: when every possible bar of the range has closed and came back (or none
      is possible), the whole range is covered. */
  lemma VerifiedFull(p: Policy, tf: Timeframe, range: Interval, now: Instant, present: set<Instant>)
    requires range.NonEmpty() && forall t :: range.Has(t) && Possible(p, tf, t) ==> ClosesAt(p, t, tf) <= now && t in present
    ensures Verified(p, tf, range, now, present) == [range]
  {
    var ts := Potential(p, tf, range.start, range.end);
    if ts != [] {
      var k := ClosedCount(p, tf, ts, now);
      forall i | 0 <= i < |ts| ensures ClosesAt(p, ts[i], tf) <= now && ts[i] in present {
        assert ts[i] in ts;
        PotentialIff(p, tf, range.start, range.end, ts[i]);
      }
      assert k == |ts| && RunEnd(ts, k, 0, present) == k;
      assert Runs(ts, k, k, present, range, tf.Seconds()) == [];
    }
  }

  // ------------------------------------------------------------------ the scan

  /** The opens of the candles of the timeframe. */
  function PresentOf(cs: seq<Candle>, tf: Timeframe): set<Instant> { set c | c in cs && c.tf == tf :: c.openTime }

  /** The two loops of the scan. */
  method VerifiedCoverage(p: Policy, cs: seq<Candle>, tf: Timeframe, start: Instant, end: Instant, now: Instant) returns (out: seq<Interval>)
    ensures out == Verified(p, tf, Interval(start, end), now, PresentOf(cs, tf))
  {
    if end <= start {
      return [];
    }
    var range := Interval(start, end);
    var potential := p.ExpectedOpens(FirstAligned(start, tf), end, tf);
    if potential == [] {
      return [range];
    }
    var expected := Filtered(p, potential, tf, now);
    PrefixExpected(p, tf, start, end, now);
    PotentialLaid(p, tf, range);
    out := ScanRuns(potential, ClosedCount(p, tf, potential, now), expected, PresentOf(cs, tf), range, tf.Seconds());
  }

  lemma RunsDone(ts: seq<Instant>, k: nat, present: set<Instant>, range: Interval, step: int)
    requires k <= |ts|
    ensures Runs(ts, k, k, present, range, step) == []
  {
  }

  lemma RunsSkip(ts: seq<Instant>, k: nat, i: nat, present: set<Instant>, range: Interval, step: int)
    requires i < k <= |ts| && ts[i] !in present
    ensures Runs(ts, k, i, present, range, step) == Runs(ts, k, i + 1, present, range, step)
  {
  }

  /** A run of present bars up to `j`, as the loop finds its ends. */
  lemma RunsTake(ts: seq<Instant>, k: nat, i: nat, j: nat, present: set<Instant>, range: Interval, step: int)
    requires i < j <= k <= |ts| && Laid(ts, range, step)
    requires (forall m :: i <= m < j ==> ts[m] in present) && (j < k ==> ts[j] !in present)
    ensures Runs(ts, k, i, present, range, step)
         == [Interval(if i == 0 then range.start else ts[i], if ts[j - 1] == ts[|ts| - 1] then range.end else ts[j - 1] + step)]
          + Runs(ts, k, j, present, range, step)
  {
    RunEndIs(ts, k, i, j, present);
    assert ts[j - 1] == ts[|ts| - 1] <==> j == |ts|;
  }

  method ScanRuns(potential: seq<Instant>, ghost k: nat, expected: seq<Instant>, present: set<Instant>, range: Interval, step: int)
    returns (out: seq<Interval>)
    requires k <= |potential| && expected == potential[..k] && potential != [] && Laid(potential, range, step)
    ensures out == Runs(potential, k, 0, present, range, step)
  {
    hide Laid, Runs, RunEnd, RunInterval;
    out := [];
    var i := 0;
    RunsDone(potential, k, present, range, step);
    while i < |expected|
      invariant 0 <= i <= k && out + Runs(potential, k, i, present, range, step) == Runs(potential, k, 0, present, range, step)
    {
      if expected[i] !in present {
        RunsSkip(potential, k, i, present, range, step);
        i := i + 1;
        continue;
      }
      var j := i;
      while j + 1 < |expected| && expected[j + 1] in present
        invariant i <= j < k && forall m :: i <= m <= j ==> potential[m] in present
      {
        j := j + 1;
      }
      RunsTake(potential, k, i, j + 1, present, range, step);
      var s := if i == 0 then range.start else expected[i];
      var e := if expected[j] == potential[|potential| - 1] then range.end else expected[j] + step;
      assert out + ([Interval(s, e)] + Runs(potential, k, j + 1, present, range, step))
          == out + [Interval(s, e)] + Runs(potential, k, j + 1, present, range, step);
      out := out + [Interval(s, e)];
      i := j + 1;
    }
    assert out + [] == out;
  }

  /** The bars that have closed. */
  function Filtered(p: Policy, ts: seq<Instant>, tf: Timeframe, now: Instant): seq<Instant> {
    if ts == [] then [] else (if ClosesAt(p, ts[0], tf) <= now then [ts[0]] else []) + Filtered(p, ts[1..], tf, now)
  }

  lemma {:induction false} FilteredNone(p: Policy, ts: seq<Instant>, tf: Timeframe, now: Instant)
    requires forall i :: 0 <= i < |ts| ==> now < ClosesAt(p, ts[i], tf)
    ensures Filtered(p, ts, tf, now) == []
  {
    hide ClosesAt;
    if ts != [] { FilteredNone(p, ts[1..], tf, now); }
  }

  lemma {:induction false} FilteredPrefix(p: Policy, ts: seq<Instant>, tf: Timeframe, now: Instant)
    requires forall i :: 0 <= i < |ts| ==> (ClosesAt(p, ts[i], tf) <= now <==> i < ClosedCount(p, tf, ts, now))
    ensures Filtered(p, ts, tf, now) == ts[..ClosedCount(p, tf, ts, now)]
  {
    hide ClosedCount, SessionCalendar.EffectiveClose;
    if ts == [] {
    } else if now < ClosesAt(p, ts[0], tf) {
      FilteredNone(p, ts, tf, now);
    } else {
      var rest, k := ts[1..], ClosedCount(p, tf, ts, now);
      forall i | 0 <= i < |rest| ensures ClosesAt(p, rest[i], tf) <= now <==> i < ClosedCount(p, tf, rest, now) {
        assert rest[i] == ts[i + 1];
      }
      FilteredPrefix(p, rest, tf, now);
      assert ts[..k] == [ts[0]] + rest[..k - 1];
    }
  }

  lemma PrefixExpected(p: Policy, tf: Timeframe, start: Instant, end: Instant, now: Instant)
    ensures var ts := Potential(p, tf, start, end); Filtered(p, ts, tf, now) == ts[..ClosedCount(p, tf, ts, now)]
  {
    var ts := Potential(p, tf, start, end);
    forall i | 0 <= i < |ts| ensures ClosesAt(p, ts[i], tf) <= now <==> i < ClosedCount(p, tf, ts, now) {
      ClosedIff(p, tf, start, end, now, i);
    }
    FilteredPrefix(p, ts, tf, now);
  }

  lemma {:induction false} RunEndIs(ts: seq<Instant>, k: nat, i: nat, j: nat, present: set<Instant>)
    requires i <= j <= k <= |ts| && (forall m :: i <= m < j ==> ts[m] in present) && (j < k ==> ts[j] !in present)
    ensures RunEnd(ts, k, i, present) == j
    decreases j - i
  {
    if i < j { RunEndIs(ts, k, i + 1, j, present); }
  }
}
