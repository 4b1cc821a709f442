/** Confirmed swing pivots: a sliding window that finds, one candle at a time, exactly the pivots of the
    batch definition. */
module Pivots {
  import opened Timeline
  import opened Candles

  datatype Kind = High | Low

  datatype Standing = StartHigh | EqualHigh | HigherHigh | LowerHigh | StartLow | EqualLow | HigherLow | LowerLow

  datatype Pivot = Pivot(kind: Kind, price: real, standing: Standing, openTime: Instant, confirmedAt: Instant)

  /** A candle with its volatility figure. */
  datatype Reading = Reading(candle: Candle, atr: Option<real>)

  /** How far apart two prices may be and still count as equal. */
  datatype Tolerance = Ticks(value: real, tick: Option<real>) | AtrFraction(value: real) {
    function Of(atr: Option<real>): real {
      match this
      case Ticks(v, tick) => v * (if tick.Some? then tick.value else 0.0)
      case AtrFraction(v) => v * (if atr.Some? then atr.value else 0.0)
    }
  }

  function Level(k: Kind, c: Candle): real { if k == High then c.high else c.low }

  /** Strictly more extreme. */
  predicate Beats(k: Kind, a: real, b: real) { if k == High then b < a else a < b }

  function AbsReal(x: real): real { if x < 0.0 then -x else x }

  function LabelFor(k: Kind, price: real, prev: Option<real>, tol: real): Standing {
    if prev.None? then (if k == High then StartHigh else StartLow)
    else if AbsReal(price - prev.value) <= tol then (if k == High then EqualHigh else EqualLow)
    else if k == High then (if prev.value < price then HigherHigh else LowerHigh)
    else (if prev.value < price then HigherLow else LowerLow)
  }

  // ------------------------------------------------------------------ the batch definition

  /** The `i`th candle is strictly more extreme than the `s` before it and at least as extreme as the `s` after it. */
  predicate IsPivot(k: Kind, rs: seq<Reading>, s: nat, i: nat)
    requires s <= i && i + s < |rs|
  {
    && (forall j :: i - s <= j < i ==> Beats(k, Level(k, rs[i].candle), Level(k, rs[j].candle)))
    && (forall j :: i < j <= i + s ==> !Beats(k, Level(k, rs[j].candle), Level(k, rs[i].candle)))
  }

  function MakePivot(k: Kind, c: Candle, confirming: Reading, prev: Option<real>, tol: Tolerance): Pivot {
    Pivot(k, Level(k, c), LabelFor(k, Level(k, c), prev, tol.Of(confirming.atr)), c.openTime, confirming.candle.openTime)
  }

  /** All pivots of a kind from index `i` on, given the price of the pivot before them. */
  function PivotsFrom(k: Kind, rs: seq<Reading>, s: nat, tol: Tolerance, i: nat, prev: Option<real>): seq<Pivot>
    requires s <= i
    decreases |rs| - i
  {
    if |rs| <= i + s then []
    else if IsPivot(k, rs, s, i) then
      [MakePivot(k, rs[i].candle, rs[i + s], prev, tol)] + PivotsFrom(k, rs, s, tol, i + 1, Some(Level(k, rs[i].candle)))
    else PivotsFrom(k, rs, s, tol, i + 1, prev)
  }

  function AllPivots(k: Kind, rs: seq<Reading>, s: nat, tol: Tolerance): seq<Pivot> { PivotsFrom(k, rs, s, tol, s, None) }

  function LastPrice(ps: seq<Pivot>, otherwise: Option<real>): Option<real> { if ps == [] then otherwise else Some(ps[|ps| - 1].price) }

  /** Whether an index is a pivot depends on the candles up to `s` later only. */
  lemma PivotLocal(k: Kind, rs: seq<Reading>, r: Reading, s: nat, i: nat)
    requires s <= i && i + s < |rs|
    ensures IsPivot(k, rs + [r], s, i) <==> IsPivot(k, rs, s, i)
  {
    var more := rs + [r];
    assert forall j :: 0 <= j < |rs| ==> more[j] == rs[j];
  }

  /** What the candle `r` decides: the index `s` before it. */
  function Decided(k: Kind, more: seq<Reading>, s: nat, tol: Tolerance, prev: Option<real>): seq<Pivot>
    requires 2 * s < |more|
  {
    var c := |more| - 1 - s;
    if IsPivot(k, more, s, c) then [MakePivot(k, more[c].candle, more[|more| - 1], prev, tol)] else []
  }

  /** One candle more decides exactly one index, `s` candles back. */
  lemma {:induction false} PivotsSnoc(k: Kind, rs: seq<Reading>, r: Reading, s: nat, tol: Tolerance, i: nat, prev: Option<real>)
    requires s <= i <= |rs| - s
    ensures var known, more := PivotsFrom(k, rs, s, tol, i, prev), rs + [r];
      PivotsFrom(k, more, s, tol, i, prev) == known + Decided(k, more, s, tol, LastPrice(known, prev))
    decreases |rs| - i
  {
    hide IsPivot;
    var more := rs + [r];
    if i == |rs| - s {
      assert PivotsFrom(k, rs, s, tol, i, prev) == [];
    } else {
      PivotLocal(k, rs, r, s, i);
      assert more[i] == rs[i] && more[i + s] == rs[i + s];
      if IsPivot(k, rs, s, i) {
        var price := Level(k, rs[i].candle);
        PivotsSnoc(k, rs, r, s, tol, i + 1, Some(price));
        var head, tail := MakePivot(k, rs[i].candle, rs[i + s], prev, tol), PivotsFrom(k, rs, s, tol, i + 1, Some(price));
        assert LastPrice([head] + tail, prev) == LastPrice(tail, Some(price));
      } else {
        PivotsSnoc(k, rs, r, s, tol, i + 1, prev);
      }
    }
  }

  /** Too few candles make no pivot. */
  lemma FewNone(k: Kind, rs: seq<Reading>, s: nat, tol: Tolerance)
    requires |rs| <= 2 * s
    ensures AllPivots(k, rs, s, tol) == []
  {
  }

  // ------------------------------------------------------------------ the engine

  class StructureEngine {
    const strength: nat
    const tol: Tolerance
    var window: seq<Candle>
    var highs: seq<Pivot>
    var lows: seq<Pivot>
    var lastOpen: Option<Instant>
    ghost var fed: seq<Reading>

    /** The window holds the last candles, and the pivots found are those of the batch definition. */
    ghost predicate Valid()
      reads this
    {
      && 1 <= strength && |window| == Min(|fed|, 2 * strength + 1)
      && (forall j :: 0 <= j < |window| ==> window[j] == fed[|fed| - |window| + j].candle)
      && highs == AllPivots(High, fed, strength, tol) && lows == AllPivots(Low, fed, strength, tol)
      && (lastOpen.None? <==> fed == []) && (fed != [] ==> lastOpen == Some(fed[|fed| - 1].candle.openTime))
    }

    /** A strength below one is refused. */
    constructor (strength: nat, tol: Tolerance)
      requires 1 <= strength
      ensures Valid() && fed == []
    {
      this.strength, this.tol := strength, tol;
      window, highs, lows, lastOpen, fed := [], [], [], None, [];
    }

    /** Take one closed candle newer than the last; the pivots it confirms are those `strength` candles back. */
    method Update(c: Candle, atr: Option<real>) returns (confirmed: Option<seq<Pivot>>)
      requires Valid()
      modifies this
      ensures Valid()
      ensures confirmed.None? <==> !c.closed || (old(lastOpen).Some? && c.openTime <= old(lastOpen).value)
      ensures fed == if confirmed.None? then old(fed) else old(fed) + [Reading(c, atr)]
      ensures confirmed.None? ==> highs == old(highs) && lows == old(lows)
      ensures confirmed.Some? ==> old(highs) <= highs && old(lows) <= lows
                                  && confirmed.value == highs[|old(highs)|..] + lows[|old(lows)|..]
    {
      hide PivotsFrom, IsPivot;
      if !c.closed || (lastOpen.Some? && c.openTime <= lastOpen.value) {
        return None;
      }
      lastOpen := Some(c.openTime);
      Append(c, atr);
      assert fed[..|fed| - 1] == old(fed);
      var found := Find(High, Reading(c, atr), highs);
      var foundLow := Find(Low, Reading(c, atr), lows);
      highs := highs + found;
      lows := lows + foundLow;
      confirmed := Some(found + foundLow);
    }

    /** The pivot the newest candle confirms, if any. */
    method Find(k: Kind, confirming: Reading, known: seq<Pivot>) returns (out: seq<Pivot>)
      requires 1 <= strength && |window| == Min(|fed|, 2 * strength + 1) && fed != [] && confirming == fed[|fed| - 1]
      requires forall j :: 0 <= j < |window| ==> window[j] == fed[|fed| - |window| + j].candle
      requires known == AllPivots(k, fed[..|fed| - 1], strength, tol)
      ensures known + out == AllPivots(k, fed, strength, tol)
    {
      ghost var before := fed[..|fed| - 1];
      assert before + [confirming] == fed;
      if |window| == 2 * strength + 1 {
        out := Confirm(k, confirming, LastPrice(known, None));
        PivotsSnoc(k, before, confirming, strength, tol, strength, None);
      } else {
        FewNone(k, fed, strength, tol);
        FewNone(k, before, strength, tol);
        out := [];
      }
    }

    /** Slide the window. */
    method Append(c: Candle, atr: Option<real>)
      requires 1 <= strength && |window| == Min(|fed|, 2 * strength + 1)
      requires forall j :: 0 <= j < |window| ==> window[j] == fed[|fed| - |window| + j].candle
      modifies `window, `fed
      ensures fed == old(fed) + [Reading(c, atr)] && |window| == Min(|fed|, 2 * strength + 1)
      ensures forall j :: 0 <= j < |window| ==> window[j] == fed[|fed| - |window| + j].candle
    {
      window := window + [c];
      if 2 * strength + 1 < |window| {
        window := window[1..];
      }
      fed := fed + [Reading(c, atr)];
    }

    /** Is the middle of the full window a pivot? */
    method Confirm(k: Kind, confirming: Reading, prev: Option<real>) returns (out: seq<Pivot>)
      requires 1 <= strength && |window| == 2 * strength + 1 <= |fed|
      requires forall j :: 0 <= j < |window| ==> window[j] == fed[|fed| - |window| + j].candle
      ensures var i := |fed| - 1 - strength;
        out == if IsPivot(k, fed, strength, i) then [MakePivot(k, fed[i].candle, confirming, prev, tol)] else []
    {
      var mid := window[strength];
      ghost var i := |fed| - 1 - strength;
      var left := forall j :: 0 <= j < strength ==> Beats(k, Level(k, mid), Level(k, window[j]));
      var right := forall j :: strength < j <= 2 * strength ==> !Beats(k, Level(k, window[j]), Level(k, mid));
      assert IsPivot(k, fed, strength, i) <==> left && right by {
        assert forall j :: 0 <= j < |window| ==> window[j] == fed[i - strength + j].candle;
        if left && right {
          forall j | i - strength <= j < i ensures Beats(k, Level(k, fed[i].candle), Level(k, fed[j].candle)) {
            assert window[j - (i - strength)] == fed[j].candle;
          }
          forall j | i < j <= i + strength ensures !Beats(k, Level(k, fed[j].candle), Level(k, fed[i].candle)) {
            assert window[j - (i - strength)] == fed[j].candle;
          }
        }
      }
      out := if left && right then [MakePivot(k, mid, confirming, prev, tol)] else [];
    }
  }

  // ------------------------------------------------------------------ what the pivots are

  /** The pivot belongs to the candle at index `i`: its price and open, confirmed by the candle `s` later. */
  ghost predicate PivotAt(k: Kind, rs: seq<Reading>, s: nat, i: nat, p: Pivot) {
    && s <= i && i + s < |rs| && IsPivot(k, rs, s, i)
    && p.kind == k && p.price == Level(k, rs[i].candle) && p.openTime == rs[i].candle.openTime && p.confirmedAt == rs[i + s].candle.openTime
  }

  /** The pivot indices from `i` on, in order. */
  function PivotIndices(k: Kind, rs: seq<Reading>, s: nat, i: nat): (ms: seq<nat>)
    requires s <= i
    ensures forall n :: 0 <= n < |ms| ==> i <= ms[n]
    ensures forall n, m :: 0 <= n < m < |ms| ==> ms[n] < ms[m]
    decreases |rs| - i
  {
    if |rs| <= i + s then []
    else (if IsPivot(k, rs, s, i) then [i] else []) + PivotIndices(k, rs, s, i + 1)
  }

  lemma {:induction false} IndicesArePivots(k: Kind, rs: seq<Reading>, s: nat, i: nat, m: nat)
    requires s <= i
    ensures m in PivotIndices(k, rs, s, i) <==> i <= m && m + s < |rs| && IsPivot(k, rs, s, m)
    decreases |rs| - i
  {
    hide IsPivot;
    if i + s < |rs| { IndicesArePivots(k, rs, s, i + 1, m); }
  }

  /** BATCH: what is recorded is, in order and without repetition, one pivot for each index that satisfies the
      definition, confirmed exactly `s` candles later. */
  lemma {:induction false} PivotsAreIndices(k: Kind, rs: seq<Reading>, s: nat, tol: Tolerance, i: nat, prev: Option<real>, n: nat)
    requires s <= i
    ensures var ps, ms := PivotsFrom(k, rs, s, tol, i, prev), PivotIndices(k, rs, s, i);
      |ps| == |ms| && (n < |ps| ==> PivotAt(k, rs, s, ms[n], ps[n]))
    decreases |rs| - i
  {
    if i + s < |rs| {
      if IsPivot(k, rs, s, i) {
        PivotMade(k, rs, s, tol, i, prev);
        hide IsPivot, PivotAt, MakePivot;
        PivotsAreIndices(k, rs, s, tol, i + 1, Some(Level(k, rs[i].candle)), if n > 0 then n - 1 else 0);
      } else {
        hide IsPivot, PivotAt, MakePivot;
        PivotsAreIndices(k, rs, s, tol, i + 1, prev, n);
      }
    }
  }

  lemma PivotMade(k: Kind, rs: seq<Reading>, s: nat, tol: Tolerance, i: nat, prev: Option<real>)
    requires s <= i && i + s < |rs| && IsPivot(k, rs, s, i)
    ensures PivotAt(k, rs, s, i, MakePivot(k, rs[i].candle, rs[i + s], prev, tol))
  {
  }

  /** SPACING: a pivot leaves no other of its kind among the `s` candles after it, so two pivots of the same
      kind are always more than `s` candles apart. */
  lemma PivotsApart(k: Kind, rs: seq<Reading>, s: nat, i: nat, j: nat)
    requires s <= i < j <= i + s && j + s < |rs| && IsPivot(k, rs, s, i)
    ensures !IsPivot(k, rs, s, j)
  {
    assert !Beats(k, Level(k, rs[j].candle), Level(k, rs[i].candle));
    assert j - s <= i < j;
  }

  // ------------------------------------------------------------------ labels

  /** The label a price earns after the pivot before: none before it, equal within the tolerance, else above or below. */
  ghost predicate Labelled(k: Kind, l: Standing, price: real, prev: Option<real>, tol: real) {
    var near := prev.Some? && price - prev.value <= tol && prev.value - price <= tol;
    && (l == StartHigh <==> k == High && prev.None?)
    && (l == StartLow <==> k == Low && prev.None?)
    && (l == EqualHigh <==> k == High && near)
    && (l == EqualLow <==> k == Low && near)
    && (l == HigherHigh <==> k == High && prev.Some? && !near && prev.value < price)
    && (l == LowerHigh <==> k == High && prev.Some? && !near && price <= prev.value)
    && (l == HigherLow <==> k == Low && prev.Some? && !near && prev.value < price)
    && (l == LowerLow <==> k == Low && prev.Some? && !near && price <= prev.value)
  }

  /** How far apart prices may lie: so many ticks, or that fraction of the range; neither known, nothing. */
  function Slack(tol: Tolerance, atr: Option<real>): real {
    if tol.Ticks? then (if tol.tick.Some? then tol.value * tol.tick.value else 0.0)
    else if atr.Some? then tol.value * atr.value else 0.0
  }

  /** LABELS COMPARE NEIGHBOURS: each recorded pivot is labelled against the one recorded just before it, with the
      tolerance at the candle that confirms it. */
  lemma {:induction false} LabelsCompare(k: Kind, rs: seq<Reading>, s: nat, tol: Tolerance, i: nat, prev: Option<real>, n: nat)
    requires s <= i && n < |PivotsFrom(k, rs, s, tol, i, prev)|
    ensures var ps, ms := PivotsFrom(k, rs, s, tol, i, prev), PivotIndices(k, rs, s, i);
      && |ms| == |ps| && ms[n] + s < |rs|
      && Labelled(k, ps[n].standing, ps[n].price, if n == 0 then prev else Some(ps[n - 1].price), Slack(tol, rs[ms[n] + s].atr))
    decreases |rs| - i
  {
    hide IsPivot, MakePivot, Labelled, Slack, PivotAt, PivotsFrom, PivotIndices;
    PivotsCons(k, rs, s, tol, i, prev);
    PivotsAreIndices(k, rs, s, tol, i, prev, n);
    if IsPivot(k, rs, s, i) {
      var price := Level(k, rs[i].candle);
      LabelMade(k, rs[i].candle, rs[i + s], prev, tol);
      if n > 0 { LabelsCompare(k, rs, s, tol, i + 1, Some(price), n - 1); }
    } else {
      LabelsCompare(k, rs, s, tol, i + 1, prev, n);
    }
  }

  /** The pivots from an index on are its own, if it is one, and those after it. */
  lemma PivotsCons(k: Kind, rs: seq<Reading>, s: nat, tol: Tolerance, i: nat, prev: Option<real>)
    requires s <= i && PivotsFrom(k, rs, s, tol, i, prev) != []
    ensures i + s < |rs|
    ensures PivotsFrom(k, rs, s, tol, i, prev) ==
              if IsPivot(k, rs, s, i) then
                [MakePivot(k, rs[i].candle, rs[i + s], prev, tol)] + PivotsFrom(k, rs, s, tol, i + 1, Some(Level(k, rs[i].candle)))
              else PivotsFrom(k, rs, s, tol, i + 1, prev)
    ensures PivotIndices(k, rs, s, i) == (if IsPivot(k, rs, s, i) then [i] else []) + PivotIndices(k, rs, s, i + 1)
  {
  }

  lemma LabelMade(k: Kind, c: Candle, confirming: Reading, prev: Option<real>, tol: Tolerance)
    ensures var p := MakePivot(k, c, confirming, prev, tol); Labelled(k, p.standing, p.price, prev, Slack(tol, confirming.atr)) && p.price == Level(k, c)
  {
  }
}
