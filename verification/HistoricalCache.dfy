/** The historical cache: stored candles, verified coverage, and loads that download only what coverage lacks. */
module HistoricalCache {
  import opened Timeline
  import opened Candles
  import opened Buckets
  import opened Intervals
  import opened Coverage

  // ------------------------------------------------------------------ coverage rows

  /** A covered interval and how many bars were downloaded for it. */
  datatype Row = Row(span: Interval, bars: nat)

  function Spans(rows: seq<Row>): (ivs: seq<Interval>)
    ensures |ivs| == |rows| && forall i :: 0 <= i < |ivs| ==> ivs[i] == rows[i].span
  {
    if rows == [] then [] else [rows[0].span] + Spans(rows[1..])
  }

  function TotalBars(rows: seq<Row>): nat { if rows == [] then 0 else rows[0].bars + TotalBars(rows[1..]) }

  /** The bars of the rows inside an interval. */
  function BarsWithin(v: Interval, rows: seq<Row>): nat {
    if rows == [] then 0 else (if v.Contains(rows[0].span) then rows[0].bars else 0) + BarsWithin(v, rows[1..])
  }

  function Recounted(merged: seq<Interval>, rows: seq<Row>): (out: seq<Row>)
    ensures Spans(out) == merged
  {
    if merged == [] then [] else [Row(merged[0], BarsWithin(merged[0], rows))] + Recounted(merged[1..], rows)
  }

  predicate AllNonEmpty(rows: seq<Row>) { forall i :: 0 <= i < |rows| ==> rows[i].span.NonEmpty() }

  ghost predicate AllInside(rows: seq<Row>, merged: seq<Interval>) {
    forall i :: 0 <= i < |rows| ==> Held(merged, rows[i].span)
  }

  ghost predicate Held(merged: seq<Interval>, v: Interval) { exists k :: 0 <= k < |merged| && merged[k].Contains(v) }

  function Holders(merged: seq<Interval>, v: Interval): nat {
    if merged == [] then 0 else (if merged[0].Contains(v) then 1 else 0) + Holders(merged[1..], v)
  }

  /** A non-empty interval inside one of several disjoint ones is inside exactly one. */
  lemma {:induction false} OneHolder(merged: seq<Interval>, v: Interval)
    requires Canonical(merged) && v.NonEmpty()
    ensures Holders(merged, v) <= 1
    ensures Held(merged, v) ==> Holders(merged, v) == 1
  {
    if merged != [] {
      OneHolder(merged[1..], v);
      if merged[0].Contains(v) {
        NoHolder(merged[1..], v, merged[0].end);
      } else if Held(merged, v) {
        var k :| 0 <= k < |merged| && merged[k].Contains(v);
        assert merged[1..][k - 1].Contains(v);
      }
    }
  }

  lemma {:induction false} NoHolder(merged: seq<Interval>, v: Interval, bound: Instant)
    requires v.NonEmpty() && v.end <= bound && forall i :: 0 <= i < |merged| ==> bound < merged[i].start
    ensures Holders(merged, v) == 0
  {
    if merged != [] { NoHolder(merged[1..], v, bound); }
  }

  /** One row more adds its bars once when one interval holds it, and not when none does. */
  lemma {:induction false} RecountRow(merged: seq<Interval>, rows: seq<Row>)
    requires rows != [] && Holders(merged, rows[0].span) <= 1
    ensures TotalBars(Recounted(merged, rows)) == (if Holders(merged, rows[0].span) == 1 then rows[0].bars else 0) + TotalBars(Recounted(merged, rows[1..]))
  {
    if merged != [] {
      RecountRow(merged[1..], rows);
    }
  }

  lemma {:induction false} RecountNone(merged: seq<Interval>)
    ensures TotalBars(Recounted(merged, [])) == 0
  {
    if merged != [] {
      RecountNone(merged[1..]);
      assert Recounted(merged, [])[1..] == Recounted(merged[1..], []);
    }
  }

  /** BARS ARE CONSERVED: recounting over disjoint intervals that hold every row counts each row's bars once. */
  lemma {:induction false} RecountConserves(merged: seq<Interval>, rows: seq<Row>)
    requires Canonical(merged) && AllNonEmpty(rows) && AllInside(rows, merged)
    ensures TotalBars(Recounted(merged, rows)) == TotalBars(rows)
    decreases |rows|
  {
    if rows == [] {
      RecountNone(merged);
    } else {
      var rest := rows[1..];
      assert forall i :: 0 <= i < |rest| ==> rest[i] == rows[i + 1];
      OneHolder(merged, rows[0].span);
      RecountRow(merged, rows);
      RecountConserves(merged, rest);
    }
  }

  lemma {:induction false} TotalBarsSnoc(rows: seq<Row>, r: Row)
    ensures TotalBars(rows + [r]) == TotalBars(rows) + r.bars
  {
    if rows == [] {
      assert rows + [r] == [r] && [r][1..] == [];
    } else {
      assert (rows + [r])[1..] == rows[1..] + [r];
      TotalBarsSnoc(rows[1..], r);
    }
  }

  lemma {:induction false} SpansSnoc(rows: seq<Row>, r: Row)
    ensures Spans(rows + [r]) == Spans(rows) + [r.span]
  {
  }

  /** The instants of an interval. */
  ghost function Points(v: Interval): iset<Instant> { iset x | v.Has(x) }

  /** The coverage table of one contract and timeframe. */
  class HistoricalCacheRepository {
    var rows: seq<Row>

    ghost predicate Valid()
      reads this
    {
      Canonical(Spans(rows))
    }

    ghost function Covered(): iset<Instant>
      reads this
    {
      iset x | In(x, Spans(rows))
    }

    constructor ()
      ensures Valid() && rows == [] && Covered() == iset{}
    {
      rows := [];
    }

    /** The merged coverage: the rows as they are. */
    method Coverage() returns (out: seq<Interval>)
      requires Valid()
      ensures out == Spans(rows)
    {
      out := MergeIntervals(Spans(rows));
      CanonicalUnique(out, Spans(rows));
    }

    method IsCached(start: Instant, end: Instant) returns (cached: bool)
      requires Valid()
      ensures cached <==> forall x :: start <= x < end ==> x in Covered()
    {
      var coverage := Coverage();
      cached := Intervals.IsCached(coverage, start, end);
      assert forall x :: x in Covered() <==> In(x, Spans(rows));
    }

    /** Exactly the part of the range that is not covered, in canonical form. */
    method Uncovered(start: Instant, end: Instant) returns (gaps: seq<Interval>)
      requires Valid()
      ensures LacksExactly(gaps, Covered(), start, end)
    {
      var coverage := Coverage();
      gaps := Intervals.Uncovered(coverage, start, end);
    }

    /** Adds exactly the interval, keeps the table canonical, and conserves the bar counts. */
    method Record(start: Instant, end: Instant, bars: nat)
      requires Valid()
      modifies this
      ensures Valid()
      ensures Covered() == old(Covered()) + Points(Interval(start, end))
      ensures TotalBars(rows) == old(TotalBars(rows)) + if start < end then bars else 0
    {
      if end <= start {
        return;
      }
      var r := Row(Interval(start, end), bars);
      var all := rows + [r];
      var merged := MergeIntervals(Spans(all));
      SpansSnoc(rows, r);
      forall x ensures In(x, merged) <==> In(x, Spans(rows)) || r.span.Has(x) { InSnoc(Spans(rows), r.span, x); }
      EachInside(all, merged);
      RecountConserves(merged, all);
      TotalBarsSnoc(rows, r);
      rows := Recounted(merged, all);
    }
  }

  lemma EachInside(rows: seq<Row>, merged: seq<Interval>)
    requires Canonical(merged) && SamePoints(merged, Spans(rows)) && AllNonEmpty(rows)
    ensures AllInside(rows, merged)
  {
    forall i | 0 <= i < |rows| ensures Held(merged, rows[i].span) {
      forall x | rows[i].span.Has(x) ensures In(x, merged) { assert Spans(rows)[i].Has(x); }
      var k := CoveredInOne(merged, rows[i].span);
    }
  }

  /** The canonical form of the part of [start, end) that is not covered. */
  ghost predicate LacksExactly(gaps: seq<Interval>, covered: iset<Instant>, start: Instant, end: Instant) {
    Canonical(gaps) && forall x :: In(x, gaps) <==> start <= x < end && x !in covered
  }

  // ------------------------------------------------------------------ stored candles

  datatype Key = Key(tf: Timeframe, openTime: Instant)

  /** Insert a closed candle; on a conflict the prices, volume and open interest are replaced and the source stays. */
  function Upsert(bars: map<Key, Candle>, c: Candle): map<Key, Candle> {
    var k := Key(c.tf, c.openTime);
    if k in bars then bars[k := c.(source := bars[k].source)] else bars[k := c]
  }

  /** Insert in order; an unclosed candle stops it. */
  function InsertAll(bars: map<Key, Candle>, cs: seq<Candle>): (r: (map<Key, Candle>, bool))
    decreases |cs|
  {
    if cs == [] then (bars, true)
    else if !cs[0].closed then (bars, false)
    else InsertAll(Upsert(bars, cs[0]), cs[1..])
  }

  class CandleRepository {
    var bars: map<Key, Candle>

    constructor ()
      ensures bars == map[]
    {
      bars := map[];
    }

    method Insert(c: Candle) returns (stored: bool)
      modifies this
      ensures stored == c.closed && bars == if c.closed then Upsert(old(bars), c) else old(bars)
    {
      if !c.closed {
        return false;
      }
      var k := Key(c.tf, c.openTime);
      bars := bars[k := if k in bars then c.(source := bars[k].source) else c];
      return true;
    }

    method InsertMany(cs: seq<Candle>) returns (stored: bool)
      modifies this
      ensures (bars, stored) == InsertAll(old(bars), cs)
    {
      var rest := cs;
      while rest != []
        invariant InsertAll(bars, rest) == InsertAll(old(bars), cs)
      {
        var one := Insert(rest[0]);
        if !one {
          return false;
        }
        rest := rest[1..];
      }
      return true;
    }
  }

  /** The stored opens of a timeframe inside a range. */
  function StoredOpens(bars: map<Key, Candle>, tf: Timeframe, start: Instant, end: Instant): set<Instant> {
    set k | k in bars && k.tf == tf && start <= k.openTime < end :: k.openTime
  }

  function Pluck(bars: map<Key, Candle>, tf: Timeframe, opens: seq<Instant>): (cs: seq<Candle>)
    requires forall i :: 0 <= i < |opens| ==> Key(tf, opens[i]) in bars
    ensures |cs| == |opens| && forall i :: 0 <= i < |cs| ==> cs[i] == bars[Key(tf, opens[i])]
  {
    if opens == [] then [] else [bars[Key(tf, opens[0])]] + Pluck(bars, tf, opens[1..])
  }

  /** The stored candles of a timeframe inside a range, by open time. */
  function StoredRange(bars: map<Key, Candle>, tf: Timeframe, start: Instant, end: Instant): seq<Candle> {
    var opens := Ascending(StoredOpens(bars, tf, start, end));
    assert forall i :: 0 <= i < |opens| ==> opens[i] in opens;
    Pluck(bars, tf, opens)
  }

  // ------------------------------------------------------------------ loading

  /** What the broker returned for one gap, and the clock when its coverage was verified. */
  datatype Answer = Answer(candles: seq<Candle>, at: Instant)

  /** Stored candles and covered instants. */
  datatype Store = Store(bars: map<Key, Candle>, covered: iset<Instant>)

  /** The returned candles that open inside the gap. */
  function InGap(cs: seq<Candle>, gap: Interval): (out: seq<Candle>)
    ensures forall c :: c in out <==> c in cs && gap.Has(c.openTime)
  {
    if cs == [] then []
    else
      assert forall c :: c in cs <==> c == cs[0] || c in cs[1..];
      (if gap.Has(cs[0].openTime) then [cs[0]] else []) + InGap(cs[1..], gap)
  }

  ghost function PointsOf(ivs: seq<Interval>): iset<Instant> { iset x | In(x, ivs) }

  /** One gap: store what came back inside it, and add the coverage that proves; an unclosed candle aborts. */
  ghost function FillGap(st: Store, p: Policy, tf: Timeframe, gap: Interval, ans: Answer): (Store, bool) {
    var cs := InGap(ans.candles, gap);
    var (bars, ok) := InsertAll(st.bars, cs);
    if ok then (Store(bars, st.covered + PointsOf(Verified(p, tf, gap, ans.at, PresentOf(cs, tf)))), true)
    else (st.(bars := bars), false)
  }

  /** The gaps in order, until the broker fails or storing does. */
  ghost function FillGaps(st: Store, p: Policy, tf: Timeframe, gaps: seq<Interval>, fetch: Interval -> Option<Answer>): (r: (Store, bool))
    decreases |gaps|
  {
    if gaps == [] then (st, true)
    else if fetch(gaps[0]).None? then (st, false)
    else
      var (next, ok) := FillGap(st, p, tf, gaps[0], fetch(gaps[0]).value);
      if ok then FillGaps(next, p, tf, gaps[1..], fetch) else (next, false)
  }

  class CachedHistoricalProvider {
    const policy: Policy
    const tf: Timeframe
    const cache: HistoricalCacheRepository
    const candles: CandleRepository

    ghost predicate Valid()
      reads cache
    {
      cache.Valid()
    }

    ghost function Value(): Store
      reads cache, candles
    {
      Store(candles.bars, cache.Covered())
    }

    constructor (policy: Policy, tf: Timeframe)
      ensures Valid() && fresh(cache) && fresh(candles) && Value() == Store(map[], iset{})
      ensures this.policy == policy && this.tf == tf
    {
      this.policy, this.tf := policy, tf;
      cache := new HistoricalCacheRepository();
      candles := new CandleRepository();
    }

    /** Download what coverage lacks, record what came back, and read the range from the store. `asked` are
        the gaps to be asked for; a broker or storage failure ends the load. */
    method Load(start: Instant, end: Instant, fetch: Interval -> Option<Answer>) returns (r: Option<seq<Candle>>, asked: seq<Interval>)
      requires Valid()
      modifies cache, candles
      ensures Valid() && LacksExactly(asked, old(Value()).covered, start, end)
      ensures (Value(), r.Some?) == FillGaps(old(Value()), policy, tf, asked, fetch)
      ensures r.Some? ==> r.value == StoredRange(Value().bars, tf, start, end)
    {
      asked := cache.Uncovered(start, end);
      var rest := asked;
      while rest != []
        invariant Valid() && FillGaps(Value(), policy, tf, rest, fetch) == FillGaps(old(Value()), policy, tf, asked, fetch)
      {
        var answer := fetch(rest[0]);
        if answer.None? {
          return None, asked;
        }
        var ok := Fill(rest[0], answer.value);
        if !ok {
          return None, asked;
        }
        rest := rest[1..];
      }
      return Some(StoredRange(candles.bars, tf, start, end)), asked;
    }

    method Fill(gap: Interval, ans: Answer) returns (ok: bool)
      requires Valid()
      modifies cache, candles
      ensures Valid() && (Value(), ok) == FillGap(old(Value()), policy, tf, gap, ans)
    {
      var fetched := InGap(ans.candles, gap);
      ok := candles.InsertMany(fetched);
      if !ok {
        return;
      }
      var covered := VerifiedCoverage(policy, fetched, tf, gap.start, gap.end, ans.at);
      RecordAll(covered, fetched);
    }

    /** Record each covered interval with the number of bars returned in it. */
    method RecordAll(covered: seq<Interval>, fetched: seq<Candle>)
      requires Valid()
      modifies cache
      ensures Valid() && cache.Covered() == old(cache.Covered()) + PointsOf(covered)
    {
      var rest := covered;
      while rest != []
        invariant Valid() && cache.Covered() + PointsOf(rest) == old(cache.Covered()) + PointsOf(covered)
      {
        cache.Record(rest[0].start, rest[0].end, |InGap(fetched, rest[0])|);
        rest := rest[1..];
      }
      assert PointsOf([]) == iset{};
    }
  }

}
