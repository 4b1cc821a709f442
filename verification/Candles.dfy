/** The candle value and the fold that builds one candle out of an ordered run of smaller ones. */
module Candles {
  import opened Timeline

  /** Where a candle's numbers come from. */
  datatype Source = Dhan | Partial | ZeroTrade | Aggregated

  datatype RawCandle = Candle(
    tf: Timeframe, openTime: Instant, open: real, high: real, low: real, close: real,
    volume: real, oi: Option<real>, source: Source, closed: bool)
  {
    /** What construction insists on: open and close inside [low, high]. */
    predicate Proper() { low <= open <= high && low <= close <= high }

    /** Nominal close: open time plus the timeframe. */
    function CloseTime(): Instant { openTime + tf.Seconds() }
  }

  type Candle = c: RawCandle | c.Proper() witness Candle(M1, 0, 0.0, 0.0, 0.0, 0.0, 0.0, None, Dhan, true)

  function MaxReal(a: real, b: real): real { if a < b then b else a }

  function MinReal(a: real, b: real): real { if b < a then b else a }

  /** The greatest high: an upper bound that some candle attains. */
  function MaxHigh(cs: seq<Candle>): (h: real)
    requires cs != []
    ensures forall i :: 0 <= i < |cs| ==> cs[i].high <= h
  {
    if |cs| == 1 then cs[0].high else MaxReal(cs[0].high, MaxHigh(cs[1..]))
  }

  /** The least low: a lower bound that some candle attains. */
  function MinLow(cs: seq<Candle>): (l: real)
    requires cs != []
    ensures forall i :: 0 <= i < |cs| ==> l <= cs[i].low
  {
    if |cs| == 1 then cs[0].low else MinReal(cs[0].low, MinLow(cs[1..]))
  }

  function SumVolume(cs: seq<Candle>): real {
    if cs == [] then 0.0 else cs[0].volume + SumVolume(cs[1..])
  }

  /** The last open interest that is known, scanning from the end. */
  function LastOi(cs: seq<Candle>): Option<real> {
    if cs == [] then None
    else if cs[|cs| - 1].oi.Some? then cs[|cs| - 1].oi
    else LastOi(cs[..|cs| - 1])
  }

  /** One closed candle out of a non-empty run ordered by open time. */
  function Fold(target: Timeframe, openTime: Instant, cs: seq<Candle>): (c: Candle)
    requires cs != []
  {
    Candle(target, openTime, cs[0].open, MaxHigh(cs), MinLow(cs), cs[|cs| - 1].close,
           SumVolume(cs), LastOi(cs), Aggregated, true)
  }

  /** Both extremes are attained, so they are the extremes and not just bounds. */
  lemma {:induction false} ExtremesAttained(cs: seq<Candle>)
    requires cs != []
    ensures exists i :: 0 <= i < |cs| && cs[i].high == MaxHigh(cs)
    ensures exists j :: 0 <= j < |cs| && cs[j].low == MinLow(cs)
  {
    if |cs| == 1 {
      assert cs[0].high == MaxHigh(cs) && cs[0].low == MinLow(cs);
    } else {
      ExtremesAttained(cs[1..]);
      var i :| 0 <= i < |cs| - 1 && cs[1..][i].high == MaxHigh(cs[1..]);
      var j :| 0 <= j < |cs| - 1 && cs[1..][j].low == MinLow(cs[1..]);
      assert cs[if cs[0].high < cs[i + 1].high then i + 1 else 0].high == MaxHigh(cs);
      assert cs[if cs[j + 1].low < cs[0].low then j + 1 else 0].low == MinLow(cs);
    }
  }

  lemma {:induction false} ExtremesConcat(a: seq<Candle>, b: seq<Candle>)
    requires a != [] && b != []
    ensures MaxHigh(a + b) == MaxReal(MaxHigh(a), MaxHigh(b))
    ensures MinLow(a + b) == MinReal(MinLow(a), MinLow(b))
  {
    assert (a + b)[0] == a[0] && |a + b| > 1;
    if |a| > 1 {
      ExtremesConcat(a[1..], b);
      assert (a + b)[1..] == a[1..] + b;
    } else {
      assert (a + b)[1..] == b;
    }
  }

  lemma {:induction false} SumVolumeConcat(a: seq<Candle>, b: seq<Candle>)
    ensures SumVolume(a + b) == SumVolume(a) + SumVolume(b)
  {
    if a == [] {
      assert a + b == b;
    } else {
      assert (a + b)[1..] == a[1..] + b;
      SumVolumeConcat(a[1..], b);
    }
  }

  lemma {:induction false} LastOiConcat(a: seq<Candle>, b: seq<Candle>)
    ensures LastOi(a + b) == if LastOi(b).Some? then LastOi(b) else LastOi(a)
  {
    if b == [] {
      assert a + b == a;
    } else {
      assert (a + b)[..|a + b| - 1] == a + b[..|b| - 1];
      LastOiConcat(a, b[..|b| - 1]);
    }
  }

  lemma FoldSingle(c: Candle)
    ensures MaxHigh([c]) == c.high && MinLow([c]) == c.low
    ensures SumVolume([c]) == c.volume && LastOi([c]) == c.oi
  {
    assert [c][1..] == [] && [c][..0] == [];
  }

  /** The open interest of the last candle that knows it. */
  ghost predicate LastKnownOi(oi: Option<real>, cs: seq<Candle>) {
    if oi.None? then forall c :: c in cs ==> c.oi.None?
    else exists i :: 0 <= i < |cs| && cs[i].oi == oi && UnknownAfter(cs, i)
  }

  predicate UnknownAfter(cs: seq<Candle>, i: nat) { forall j :: i < j < |cs| ==> cs[j].oi.None? }

  /** The bar opens with the first candle and closes with the last, spans exactly their prices, adds their
      volumes, and carries the last known open interest. */
  ghost predicate SumsUp(bar: Candle, cs: seq<Candle>) {
    && cs != [] && bar.open == cs[0].open && bar.close == cs[|cs| - 1].close
    && (forall c :: c in cs ==> bar.low <= c.low && c.high <= bar.high)
    && (exists c :: c in cs && c.high == bar.high) && (exists c :: c in cs && c.low == bar.low)
    && bar.volume == SumVolume(cs) && LastKnownOi(bar.oi, cs)
  }

  lemma {:induction false} LastOiIs(cs: seq<Candle>)
    ensures LastKnownOi(LastOi(cs), cs)
  {
    if cs != [] {
      var n := |cs| - 1;
      if cs[n].oi.Some? {
        assert UnknownAfter(cs, n);
      } else {
        LastOiIs(cs[..n]);
        if LastOi(cs[..n]).Some? {
          var i :| 0 <= i < n && cs[..n][i].oi == LastOi(cs[..n]) && UnknownAfter(cs[..n], i);
          assert cs[i] == cs[..n][i];
          forall j | i < j < |cs| ensures cs[j].oi.None? { assert j < n ==> cs[j] == cs[..n][j]; }
          assert UnknownAfter(cs, i);
        }
      }
    }
  }

  lemma FoldSumsUp(target: Timeframe, openTime: Instant, cs: seq<Candle>)
    requires cs != []
    ensures SumsUp(Fold(target, openTime, cs), cs)
  {
    ExtremesAttained(cs);
    LastOiIs(cs);
    var i :| 0 <= i < |cs| && cs[i].high == MaxHigh(cs);
    var j :| 0 <= j < |cs| && cs[j].low == MinLow(cs);
    assert cs[i] in cs && cs[j] in cs;
  }

  // ------------------------------------------------------------- two levels

  function Flatten(parts: seq<seq<Candle>>): seq<Candle> {
    if parts == [] then [] else parts[0] + Flatten(parts[1..])
  }

  /** Each part folded into one candle of the middle timeframe. */
  function FoldEach(mid: Timeframe, opens: seq<Instant>, parts: seq<seq<Candle>>): (cs: seq<Candle>)
    requires |opens| == |parts| && forall i :: 0 <= i < |parts| ==> parts[i] != []
    ensures |cs| == |parts|
    ensures forall i :: 0 <= i < |cs| ==> cs[i] == Fold(mid, opens[i], parts[i])
  {
    if parts == [] then [] else [Fold(mid, opens[0], parts[0])] + FoldEach(mid, opens[1..], parts[1..])
  }

  /** Replacing a leading run by its own fold does not change the fold of the whole. */
  lemma FoldHead(target: Timeframe, openTime: Instant, mid: Timeframe, at: Instant, part: seq<Candle>, rest: seq<Candle>, flat: seq<Candle>)
    requires part != [] && rest != [] && flat != []
    requires Fold(target, openTime, rest) == Fold(target, openTime, flat)
    ensures Fold(target, openTime, [Fold(mid, at, part)] + rest) == Fold(target, openTime, part + flat)
  {
    var head := Fold(mid, at, part);
    ExtremesConcat(part, flat);
    SumVolumeConcat(part, flat);
    LastOiConcat(part, flat);
    ExtremesConcat([head], rest);
    SumVolumeConcat([head], rest);
    LastOiConcat([head], rest);
    FoldSingle(head);
  }

  /** Folding in two levels gives the same candle as folding the lowest level at once, in every field, and
      that candle sums up the lowest level. */
  lemma {:induction false} TwoLevelFold(target: Timeframe, openTime: Instant, mid: Timeframe, opens: seq<Instant>, parts: seq<seq<Candle>>)
    requires |opens| == |parts| && parts != [] && forall i :: 0 <= i < |parts| ==> parts[i] != []
    ensures Flatten(parts) != []
    ensures Fold(target, openTime, FoldEach(mid, opens, parts)) == Fold(target, openTime, Flatten(parts))
    ensures SumsUp(Fold(target, openTime, FoldEach(mid, opens, parts)), Flatten(parts))
  {
    hide SumsUp;
    if |parts| == 1 {
      assert Flatten(parts) == parts[0] by { assert Flatten(parts[1..]) == []; }
      assert FoldEach(mid, opens, parts) == [Fold(mid, opens[0], parts[0])];
      FoldSingle(Fold(mid, opens[0], parts[0]));
    } else {
      TwoLevelFold(target, openTime, mid, opens[1..], parts[1..]);
      FoldHead(target, openTime, mid, opens[0], parts[0], FoldEach(mid, opens[1..], parts[1..]), Flatten(parts[1..]));
    }    FoldSumsUp(target, openTime, Flatten(parts));
  }
}
