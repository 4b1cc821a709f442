/** Every dispatched bar reaches every aggregator built on its timeframe, and the clock closes every bucket whose
    end has come, over every run of the tower. */
module Reach {
  import opened Timeline
  import opened Candles
  import opened Aggregation
  import opened AggregationLaws
  import opened Sorting
  import opened Tower
  import opened TowerLaws

  // ------------------------------------------------------------------ one aggregator

  /** The open bucket has taken the candle in, or its bucket is past. */
  predicate Landed(a: Agg, c: Candle) {
    a.TooLate(c.openTime) || (a.bucket.Some? && a.KeyOf(c.openTime) == a.bucket.value.openTime && a.bucket.value.Seen(c.openTime))
  }

  /** No remembered gap is still missing the candle. */
  predicate NotMissed(a: Agg, c: Candle) {
    var key := a.KeyOf(c.openTime);
    key in a.gapBuckets && c.openTime in a.gapBuckets[key].expected ==> c.openTime in a.gapBuckets[key].constituents
  }

  /** The aggregator has taken the candle in, and waits for it nowhere. A candle off its grid is none of its business. */
  ghost predicate Has(a: Agg, c: Candle) { Aligned(c.openTime, a.source) ==> Landed(a, c) && NotMissed(a, c) }

  ghost predicate Took(a: Agg, c: Candle) { Aligned(c.openTime, a.source) ==> Landed(a, c) }

  /** The bucket at `key`, to end at `end`, is open or has been emitted. */
  predicate OpenOrOut(a: Agg, key: Instant, end: Instant) {
    || (a.lastEmitted.Some? && key <= a.lastEmitted.value)
    || (a.bucket.Some? && a.bucket.value.openTime == key && a.bucket.value.endTime == end)
  }

  /** Never back: what an aggregator has, took, opened or emitted stays so. */
  ghost predicate Forth(a: Agg, b: Agg) {
    && b.Valid() && SameConfig(a, b) && Leq(a.lastEmitted, b.lastEmitted)
    && (forall c :: Has(a, c) ==> Has(b, c)) && (forall c :: Took(a, c) ==> Took(b, c))
    && (forall key, end :: OpenOrOut(a, key, end) ==> OpenOrOut(b, key, end))
  }

  lemma ForthThen(a: Agg, b: Agg, c: Agg)
    requires Forth(a, b) && Forth(b, c)
    ensures Forth(a, c)
  {
    hide Has, Took, OpenOrOut, Agg.Valid;
  }

  lemma EmitForth(a: Agg)
    requires a.Valid() && a.bucket.Some?
    ensures Forth(a, a.Emit().0)
  {
    EmitEffect(a);
    hide Agg.Valid, Aligned;
    var b, k := a.Emit().0, a.bucket.value;
    forall c ensures Has(a, c) ==> Has(b, c) ensures Took(a, c) ==> Took(b, c) { EmitHas(a, c); }
  }

  lemma EmitHas(a: Agg, c: Candle)
    requires a.Valid() && a.bucket.Some?
    ensures Has(a, c) ==> Has(a.Emit().0, c)
    ensures Took(a, c) ==> Took(a.Emit().0, c)
  {
    hide Aligned;
  }

  /** Landing a candle in the open bucket. */
  lemma PlaceForth(a: Agg, c: Candle)
    requires a.Valid() && a.bucket.Some? && c.closed && c.tf == a.source && a.KeyOf(c.openTime) == a.bucket.value.openTime
    ensures Forth(a, a.Place(c).0) && Has(a.Place(c).0, c)
  {
    var landed := a.(bucket := Some(a.bucket.value.Arrive(c)));
    ArriveForth(a, c);
    EmitForth(landed);
    assert a.Place(c).0 == landed || a.Place(c).0 == landed.Emit().0;
    hide Forth, Has, Agg.Place, Agg.Emit;
    ForthThen(a, landed, landed.Emit().0);
    HasForth(landed, landed.Emit().0, c);
  }

  lemma ArriveForth(a: Agg, c: Candle)
    requires a.Valid() && a.bucket.Some? && c.closed && c.tf == a.source && a.KeyOf(c.openTime) == a.bucket.value.openTime
    ensures var landed := a.(bucket := Some(a.bucket.value.Arrive(c))); Forth(a, landed) && Has(landed, c)
  {
    hide Aligned;
  }

  lemma HasForth(a: Agg, b: Agg, c: Candle)
    requires Forth(a, b)
    ensures Has(a, c) ==> Has(b, c)
    ensures Took(a, c) ==> Took(b, c)
  {
  }

  /** Opening the bucket of a candle that is not late. */
  lemma ReadyForth(a: Agg, ts: Instant)
    requires a.Valid() && !a.TooLate(ts)
    ensures Forth(a, a.Ready(ts).0) && a.Ready(ts).0.bucket.value.openTime == a.KeyOf(ts)
  {
    ReadyEffect(a, ts);
    hide Aligned;
    if a.bucket.Some? && a.bucket.value.openTime < a.KeyOf(ts) {
      EmitForth(a);
      var e := a.Emit().0;
      assert e.bucket.None?;
      OpenForth(e, ts);
      assert a.Ready(ts).0 == e.(bucket := Some(e.OpenBucket(ts)));
      ForthThen(a, e, a.Ready(ts).0);
    } else if a.bucket.None? {
      OpenForth(a, ts);
    }
  }

  lemma OpenForth(a: Agg, ts: Instant)
    requires a.Valid() && a.bucket.None? && (a.lastEmitted.Some? ==> a.lastEmitted.value < a.KeyOf(ts))
    ensures Forth(a, a.(bucket := Some(a.OpenBucket(ts))))
  {
    hide Aligned;
    OpenBucketSound(a, ts);
  }

  lemma SameForth(a: Agg)
    requires a.Valid()
    ensures Forth(a, a)
  {
  }

  /** Feeding a candle: afterwards it has been taken in; and once it is also offered, when nothing came out, to the
      gaps, no gap misses it. */
  lemma AddForth(a: Agg, c: Candle)
    requires a.Valid() && c.closed && c.tf == a.source
    ensures var (b, rs) := a.Add(c); Forth(a, b) && Took(b, c) && (rs != [] ==> Has(b, c))
    ensures var b := a.Add(c).0; Forth(a, b.TryCompleteGap(c).0) && Has(b.TryCompleteGap(c).0, c)
  {
    var (b, rs) := a.Add(c);
    if Aligned(c.openTime, a.source) && !a.TooLate(c.openTime) {
      ReadyForth(a, c.openTime);
      var ready := a.Ready(c.openTime).0;
      PlaceForth(ready, c);
      hide Forth, Agg.Ready, Agg.Place, Agg.TooLate, Aligned;
      ForthThen(a, ready, b);
      HasTook(b, c);
    } else {
      SameForth(a);
    }
    OfferForth(b, c);
    hide Forth, Has, Took, Agg.Add, Agg.TryCompleteGap;
    ForthThen(a, b, b.TryCompleteGap(c).0);
  }

  lemma HasTook(a: Agg, c: Candle)
    ensures Has(a, c) ==> Took(a, c)
  {
  }

  /** Offering a candle to the gaps. */
  lemma OfferForth(a: Agg, c: Candle)
    requires Forth(a, a) && c.closed && c.tf == a.source
    ensures Forth(a, a.TryCompleteGap(c).0) && (Took(a, c) ==> Has(a.TryCompleteGap(c).0, c))
  {
    hide Aligned, Bucket.IsComplete;
    TryCompleteEffect(a, c);
  }

  lemma FlushForth(a: Agg, now: Instant)
    requires a.Valid()
    ensures Forth(a, a.FlushAt(now).0)
  {
    SameForth(a);
    if a.bucket.Some? { EmitForth(a); }
  }

  lemma ReplaceForth(a: Agg, c: Candle)
    requires a.Valid()
    ensures Forth(a, a.Replace(c).0)
  {
    hide Aligned;
  }

  // ------------------------------------------------------------------ the tower

  /** Aggregators fit for work, and closed bars waiting. */
  ghost predicate Fit(s: Tower) {
    && Stacked(s.Setups()) && (forall i :: 0 <= i < |s.higher| ==> s.higher[i].Valid()) && forall c :: c in s.deferred ==> c.closed
  }

  /** Every aggregator built on the bar's timeframe has it. */
  ghost predicate Reached(s: Tower, c: Candle) { forall i :: 0 <= i < |s.higher| && s.higher[i].source == c.tf ==> Has(s.higher[i], c) }

  /** Aggregators above the primary only go forth, and each newly dispatched bar has reached them. */
  ghost predicate Carries(s: Tower, t: Tower) {
    && Fit(t) && |t.higher| == |s.higher| && s.log <= t.log && t.primary == s.primary
    && (forall i :: 0 <= i < |s.higher| ==> Forth(s.higher[i], t.higher[i]))
    && (forall k :: |s.log| <= k < |t.log| ==> Reached(t, t.log[k]))
  }

  lemma ReachedForth(s: Tower, t: Tower, c: Candle)
    requires |t.higher| == |s.higher| && (forall i :: 0 <= i < |s.higher| ==> Forth(s.higher[i], t.higher[i])) && Reached(s, c)
    ensures Reached(t, c)
  {
    forall i | 0 <= i < |t.higher| && t.higher[i].source == c.tf ensures Has(t.higher[i], c) {
      assert Has(s.higher[i], c);
    }
  }

  lemma CarriesThen(s: Tower, t: Tower, u: Tower)
    requires Carries(s, t) && Carries(t, u)
    ensures Carries(s, u)
  {
    hide Forth, Fit;
    forall i | 0 <= i < |s.higher| ensures Forth(s.higher[i], u.higher[i]) { ForthThen(s.higher[i], t.higher[i], u.higher[i]); }
    hide Reached;
    forall k | |s.log| <= k < |u.log| ensures Reached(u, u.log[k]) {
      if k < |t.log| { ReachedForth(t, u, t.log[k]); }
    }
  }

  /** Nothing dispatched, nothing fed. */
  lemma AsideCarries(s: Tower, t: Tower)
    requires Fit(s) && t.higher == s.higher && t.primary == s.primary && t.log == s.log && forall c :: c in t.deferred ==> c.closed
    ensures Carries(s, t)
  {
    hide Forth;
    assert t.Setups() == s.Setups();
    forall i | 0 <= i < |s.higher| ensures Forth(s.higher[i], t.higher[i]) { SameForth(s.higher[i]); }
  }

  /** One aggregator goes forth. */
  lemma WithCarries(s: Tower, i: nat, a: Agg)
    requires Fit(s) && i < |s.higher| && Forth(s.higher[i], a)
    ensures Carries(s, s.(higher := s.higher[i := a]))
  {
    hide Reached;
    var t := s.(higher := s.higher[i := a]);
    assert t.Setups() == s.Setups();
    forall k | 0 <= k < |s.higher| ensures Forth(s.higher[k], t.higher[k]) { SameForth(s.higher[k]); }
  }

  lemma HandleCarries(s: Tower, r: AggResult)
    requires Fit(s) && r.WellMade()
    ensures Carries(s, Handle(s, r))
    decreases Load(s) + Weight(r.tf), 1, 0
  {
    if r.status == GapDetected || r.candle.None? || s.suspended {
      AsideCarries(s, Handle(s, r));
    } else {
      LoadMark(s, r.candle.value);
      DispatchCarries(s, r.candle.value);
    }
  }

  lemma DispatchCarries(s: Tower, c: Candle)
    requires Fit(s) && c.closed
    ensures Carries(s, Dispatch(s, c))
    decreases Load(Mark(s, c)) + LiveWeight(s, c), 0, 0
  {
    if s.Live(c) {
      DispatchStep(s, c);
      var m := Mark(s, c);
      FeedCarries(m, c, 0);
      var t := Dispatch(s, c);
      hide Fit, Forth, Has;
      assert Reached(t, c);
      hide Reached;
      assert forall k :: |s.log| <= k < |t.log| ==> t.log[k] == c || k >= |m.log|;
    } else {
      AsideCarries(s, s);
    }
  }

  lemma FeedCarries(s: Tower, c: Candle, i: nat)
    requires Fit(s) && i <= |s.higher| && c.closed
    ensures Carries(s, Feed(s, c, i))
    ensures forall k :: i <= k < |s.higher| && s.higher[k].source == c.tf ==> Has(Feed(s, c, i).higher[k], c)
    decreases Load(s) + Budget(s.Setups(), c.tf, i), 5, |s.higher| - i
  {
    hide Feed, FeedOne, Reached, Carries, Evolves, Has;
    if i < |s.higher| {
      FeedStep(s, c, i);
      var t := FeedAt(s, c, i);
      if s.higher[i].source == c.tf { FeedOneCarries(s, c, i); } else { AsideCarries(s, s); }
      CarriesFit(s, t);
      FeedCarries(t, c, i + 1);
      var u := Feed(t, c, i + 1);
      CarriesThen(s, t, u);
      CarriesFit(t, u);
      if s.higher[i].source == c.tf { HasForth(t.higher[i], u.higher[i], c); }
    } else {
      FeedEnd(s, c);
      AsideCarries(s, s);
    }
  }

  lemma FeedOneCarries(s: Tower, c: Candle, i: nat)
    requires Fit(s) && i < |s.higher| && s.higher[i].source == c.tf && c.closed
    ensures Carries(s, FeedOne(s, c, i)) && Has(FeedOne(s, c, i).higher[i], c)
    decreases Load(s) + 2 * Weight(s.higher[i].target), 4, 0
  {
    hide Agg.TryCompleteGap, Repair, Forth, Stacked, Agg.Valid;
    var (a, rs) := s.higher[i].Add(c);
    AddForth(s.higher[i], c);
    WithCarries(s, i, a);
    var fed := s.(higher := s.higher[i := a]);
    assert fed.Setups() == s.Setups();
    ResultsWeigh(rs, a.target);
    var u := FeedOne(s, c, i);
    if rs != [] {
      HandleAllCarries(fed, rs);
      CarriesThen(s, fed, u);
      HasForth(fed.higher[i], u.higher[i], c);
    } else {
      var (b, bar) := a.TryCompleteGap(c);
      WithCarries(s, i, b);
      var offered := fed.(higher := fed.higher[i := b]);
      assert offered == s.(higher := s.higher[i := b]);
      if bar.Some? {
        RepairCarries(offered, bar.value);
        CarriesThen(s, offered, u);
        HasForth(offered.higher[i], u.higher[i], c);
      }
    }
  }

  lemma HandleAllCarries(s: Tower, rs: seq<AggResult>)
    requires Fit(s) && AllMade(rs)
    ensures Carries(s, HandleAll(s, rs))
    decreases Load(s) + ResultsWeight(rs), 3, |rs|
  {
    if rs == [] {
      HandleAllNone(s);
      AsideCarries(s, s);
    } else {
      HandleAllCons(s, rs);
      HandleCarries(s, rs[0]);
      HandleAllCarries(Handle(s, rs[0]), rs[1..]);
      hide Fit, Carries;
      CarriesThen(s, Handle(s, rs[0]), HandleAll(s, rs));
    }
  }

  lemma RepairCarries(s: Tower, c: Candle)
    requires Fit(s)
    ensures Carries(s, Repair(s, c))
    decreases Load(s) + Weight(c.tf), 2, 0
  {
    var k := FindGap(s.gaps, c.tf, c.openTime);
    if k.Some? && c.closed {
      RepairStep(s, c, k.value);
      var resolved := s.(gaps := s.gaps[k.value := s.gaps[k.value].(resolved := true)]);
      AsideCarries(s, resolved);
      DispatchCarries(resolved, c);
      var t := Dispatch(resolved, c);
      LiftedLoad(t);
      AsideCarries(t, Lifted(t));
      DrainCarries(Lifted(t));
      hide Fit, Carries;
      CarriesThen(s, resolved, t);
      CarriesThen(s, t, Lifted(t));
      CarriesThen(s, Lifted(t), Repair(s, c));
    } else {
      AsideCarries(s, s);
    }
  }

  lemma DrainCarries(s: Tower)
    requires Fit(s)
    ensures Carries(s, Drain(s))
    decreases Load(s), 2, 0
  {
    DrainIs(s);
    var list, next := Sort(s.deferred, DrainKey), s.FirstUnresolved();
    DrainListCarries(s, list, next);
    KeptMembers(list, next);
    AsideCarries(DrainList(s, list, next), Drain(s));
    hide Fit, Carries;
    CarriesThen(s, DrainList(s, list, next), Drain(s));
  }

  lemma DrainListCarries(s: Tower, list: seq<Candle>, next: Option<GapRecord>)
    requires Fit(s) && forall c :: c in list ==> (c in s.deferred || !s.Live(c)) && c.closed
    ensures Carries(s, DrainList(s, list, next))
    decreases Load(s), 1, |list|
  {
    if list == [] {
      DrainEnd(s, next);
      AsideCarries(s, s);
    } else {
      DrainStep(s, list, next);
      var t := if Waits(list[0], next) then s else Dispatch(s, list[0]);
      assert list[0] in list;
      if Waits(list[0], next) { AsideCarries(s, s); } else { DispatchCarries(s, list[0]); }
      DrainListCarries(t, list[1..], next);
      hide Fit, Carries;
      CarriesThen(s, t, DrainList(s, list, next));
    }
  }

  // ------------------------------------------------------------------ entry points

  /** As `Carries`, where the primary aggregator may go forth too. */
  ghost predicate Moves(s: Tower, t: Tower) {
    && Fit(t) && |t.higher| == |s.higher| && s.log <= t.log && Forth(s.primary, t.primary)
    && (forall i :: 0 <= i < |s.higher| ==> Forth(s.higher[i], t.higher[i]))
    && (forall k :: |s.log| <= k < |t.log| ==> Reached(t, t.log[k]))
  }

  lemma CarriesMoves(s: Tower, t: Tower)
    requires Carries(s, t) && s.primary.Valid()
    ensures Moves(s, t)
  {
    SameForth(s.primary);
  }

  lemma MovesThen(s: Tower, t: Tower, u: Tower)
    requires Moves(s, t) && Moves(t, u)
    ensures Moves(s, u)
  {
    hide Forth, Fit;
    ForthThen(s.primary, t.primary, u.primary);
    forall i | 0 <= i < |s.higher| ensures Forth(s.higher[i], u.higher[i]) { ForthThen(s.higher[i], t.higher[i], u.higher[i]); }
    hide Reached;
    forall k | |s.log| <= k < |u.log| ensures Reached(u, u.log[k]) {
      if k < |t.log| { ReachedForth(t, u, t.log[k]); }
    }
  }

  lemma PrimaryMoves(s: Tower, a: Agg)
    requires Fit(s) && Forth(s.primary, a)
    ensures Moves(s, s.(primary := a)) && s.(primary := a).Setups() == s.Setups()
  {
    hide Reached;
    WithPrimary(s, a);
    forall i | 0 <= i < |s.higher| ensures Forth(s.higher[i], s.higher[i]) { SameForth(s.higher[i]); }
  }

  /** A minute at the aggregators built on minutes. */
  lemma {:induction false} FeedMinuteMoves(s: Tower, m1: Candle, i: nat)
    requires Fit(s) && i <= |s.higher| && m1.closed && m1.tf == M1
    ensures Carries(s, FeedMinute(s, m1, i))
    ensures forall k :: i <= k < |s.higher| && s.higher[k].source == M1 ==> Took(FeedMinute(s, m1, i).higher[k], m1)
    decreases |s.higher| - i
  {
    hide FeedMinuteOne, FeedMinute, Carries, Evolves, Took, Agg.Add, Stacked;
    FeedMinuteStep(s, m1, i);
    hide Fit, Reached, Forth, Took, Stacked, FeedMinuteOne, FeedMinute, Evolves, Carries;
    var u := FeedMinute(s, m1, i);
    if i == |s.higher| {
      AsideCarries(s, s);
    } else {
      var t := FeedMinuteOne(s, m1, i);
      FeedMinuteOneCarries(s, m1, i);
      CarriesFit(s, t);
      FeedMinuteMoves(t, m1, i + 1);
      CarriesThen(s, t, u);
      CarriesFit(t, u);
      forall k | i <= k < |s.higher| && s.higher[k].source == M1 ensures Took(u.higher[k], m1) {
        if k == i { HasForth(t.higher[i], u.higher[i], m1); } else { assert t.higher[k].source == M1; }
      }
    }
  }

  lemma CarriesFit(s: Tower, t: Tower)
    requires Carries(s, t)
    ensures Fit(t) && |t.higher| == |s.higher| && Stacked(t.Setups())
    ensures forall i :: 0 <= i < |s.higher| ==> Forth(s.higher[i], t.higher[i]) && t.higher[i].source == s.higher[i].source
  {
  }

  lemma FeedMinuteStep(s: Tower, m1: Candle, i: nat)
    requires Fit(s) && i <= |s.higher|
    ensures Stacked(s.Setups())
    ensures FeedMinute(s, m1, i) == if i == |s.higher| then s else FeedMinute(FeedMinuteOne(s, m1, i), m1, i + 1)
  {
  }

  lemma FeedMinuteOneCarries(s: Tower, m1: Candle, i: nat)
    requires Fit(s) && i < |s.higher| && m1.closed && m1.tf == M1
    ensures Carries(s, FeedMinuteOne(s, m1, i))
    ensures s.higher[i].source == M1 ==> Took(FeedMinuteOne(s, m1, i).higher[i], m1)
  {
    if s.higher[i].source == M1 {
      var (a, rs) := s.higher[i].Add(m1);
      AddForth(s.higher[i], m1);
      WithCarries(s, i, a);
      var fed := s.(higher := s.higher[i := a]);
      HandleAllCarries(fed, rs);
      hide Fit, Reached, Took;
      CarriesThen(s, fed, FeedMinuteOne(s, m1, i));
      HasForth(a, FeedMinuteOne(s, m1, i).higher[i], m1);
    } else {
      AsideCarries(s, s);
    }
  }

  /** A minute at the primary aggregator. */
  lemma FeedPrimaryMoves(s: Tower, m1: Candle)
    requires Fit(s) && s.primary.Valid() && s.primary.source == M1 && m1.closed && m1.tf == M1
    ensures Moves(s, FeedPrimary(s, m1)) && Has(FeedPrimary(s, m1).primary, m1)
  {
    var (a, rs) := s.primary.Add(m1);
    AddForth(s.primary, m1);
    var t := FeedPrimary(s, m1);
    if rs != [] {
      PrimaryMoves(s, a);
      HandleAllCarries(s.(primary := a), rs);
      CarriesMoves(s.(primary := a), t);
      hide Fit, Moves, Carries, Has, Forth;
      MovesThen(s, s.(primary := a), t);
    } else {
      var (b, bar) := a.TryCompleteGap(m1);
      PrimaryMoves(s, b);
      var offered := s.(primary := b);
      if bar.Some? {
        RepairCarries(offered, bar.value);
        CarriesMoves(offered, t);
        hide Fit, Moves, Carries, Has, Forth;
        MovesThen(s, offered, t);
      }
    }
  }

  /** The bucket open before, if its end has come, has been emitted. */
  predicate ClosedBy(a: Agg, b: Agg, now: Instant) {
    a.bucket.Some? && a.bucket.value.endTime <= now ==> b.lastEmitted.Some? && a.bucket.value.openTime <= b.lastEmitted.value
  }

  lemma ClosedForth(a: Agg, b: Agg, c: Agg, now: Instant)
    requires (Forth(a, b) && ClosedBy(b, c, now) && Forth(b, c)) || (ClosedBy(a, b, now) && Forth(b, c))
    ensures ClosedBy(a, c, now)
  {
    if a.bucket.Some? { assert OpenOrOut(a, a.bucket.value.openTime, a.bucket.value.endTime); }
  }

  lemma {:induction false} FlushHigherMoves(s: Tower, now: Instant, i: nat)
    requires Fit(s) && i <= |s.higher|
    ensures Carries(s, FlushHigher(s, now, i))
    ensures forall k :: i <= k < |s.higher| ==> ClosedBy(s.higher[k], FlushHigher(s, now, i).higher[k], now)
    decreases |s.higher| - i
  {
    hide Reached, ClosedBy, Stacked, FlushOne, FlushHigher, Evolves, Carries;
    FlushHigherStep(s, now, i);
    hide Fit, Reached, Forth, ClosedBy, Stacked, FlushOne, FlushHigher, Evolves, Carries;
    var u := FlushHigher(s, now, i);
    if i == |s.higher| {
      AsideCarries(s, s);
    } else {
      var t := FlushOne(s, now, i);
      FlushOneCarries(s, now, i);
      CarriesFit(s, t);
      FlushHigherMoves(t, now, i + 1);
      CarriesThen(s, t, u);
      CarriesFit(t, u);
      forall k | i <= k < |s.higher| ensures ClosedBy(s.higher[k], u.higher[k], now) {
        ClosedForth(s.higher[k], t.higher[k], u.higher[k], now);
      }
    }
  }

  lemma FlushHigherStep(s: Tower, now: Instant, i: nat)
    requires Fit(s) && i <= |s.higher|
    ensures Stacked(s.Setups())
    ensures FlushHigher(s, now, i) == if i == |s.higher| then s else FlushHigher(FlushOne(s, now, i), now, i + 1)
  {
  }

  lemma FlushOneCarries(s: Tower, now: Instant, i: nat)
    requires Fit(s) && i < |s.higher|
    ensures Carries(s, FlushOne(s, now, i)) && ClosedBy(s.higher[i], FlushOne(s, now, i).higher[i], now)
  {
    var (a, res) := s.higher[i].FlushAt(now);
    FlushForth(s.higher[i], now);
    WithCarries(s, i, a);
    var closed := s.(higher := s.higher[i := a]);
    assert ClosedBy(s.higher[i], a, now);
    HandleAllCarries(closed, ToSeq(res));
    hide Fit, Reached, ClosedBy, Forth;
    CarriesThen(s, closed, FlushOne(s, now, i));
    ClosedForth(s.higher[i], a, FlushOne(s, now, i).higher[i], now);
  }

  lemma FlushPrimaryMoves(s: Tower, now: Instant)
    requires Fit(s) && s.primary.Valid()
    ensures Moves(s, FlushPrimary(s, now)) && FlushPrimary(s, now).primary == s.primary.FlushAt(now).0
  {
    var (a, res) := s.primary.FlushAt(now);
    FlushForth(s.primary, now);
    PrimaryMoves(s, a);
    HandleAllCarries(s.(primary := a), ToSeq(res));
    CarriesMoves(s.(primary := a), FlushPrimary(s, now));
    hide Fit, Moves, Forth;
    MovesThen(s, s.(primary := a), FlushPrimary(s, now));
  }

  /** THE CLOCK CLOSES BOTTOM UP: after a clock flush every bucket, of any timeframe, that was open and whose end had
      come has been emitted; the primary bucket closes for no other reason. */
  lemma ClockClosesAll(s: Tower, now: Instant)
    requires Fit(s) && s.primary.Valid()
    ensures var t := Perform(s, Clock(now));
      && Moves(s, t) && t.primary == s.primary.FlushAt(now).0 && ClosedBy(s.primary, t.primary, now)
      && forall k :: 0 <= k < |s.higher| ==> ClosedBy(s.higher[k], t.higher[k], now)
  {
    var p, t := FlushPrimary(s, now), Perform(s, Clock(now));
    assert ClosedBy(s.primary, s.primary.FlushAt(now).0, now);
    FlushPrimaryMoves(s, now);
    FlushHigherMoves(p, now, 0);
    CarriesMoves(p, t);
    hide Fit, Reached, ClosedBy, Forth;
    MovesThen(s, p, t);
    forall k | 0 <= k < |s.higher| ensures ClosedBy(s.higher[k], t.higher[k], now) {
      ClosedForth(s.higher[k], p.higher[k], t.higher[k], now);
    }
  }

  lemma ReplaceMoves(s: Tower, bar: Candle)
    requires Fit(s) && s.primary.Valid()
    ensures Moves(s, ReplaceMinute(s, bar))
  {
    var t := ReplaceMinute(s, bar);
    hide Forth, Reached;
    ReplaceForth(s.primary, bar);
    forall i | 0 <= i < |s.higher| ensures Forth(s.higher[i], t.higher[i]) {
      ReplaceForth(s.higher[i], bar);
      SameForth(s.higher[i]);
    }
    AllForthValid(s, t);
  }

  lemma AllForthValid(s: Tower, t: Tower)
    requires |t.higher| == |s.higher| && forall i :: 0 <= i < |s.higher| ==> Forth(s.higher[i], t.higher[i])
    ensures forall i :: 0 <= i < |t.higher| ==> t.higher[i].Valid()
  {
  }

  // ------------------------------------------------------------------ whole runs

  /** A minute is with the primary, which waits for it nowhere, and with every other aggregator built on minutes. */
  ghost predicate MinuteIn(s: Tower, m1: Candle) {
    Has(s.primary, m1) && forall i :: 0 <= i < |s.higher| && s.higher[i].source == M1 ==> Took(s.higher[i], m1)
  }

  /** Every dispatched bar and every given minute has reached whatever is built on it. */
  ghost predicate AllReached(s: Tower, steps: seq<Step>) {
    && (forall k :: 0 <= k < |s.log| ==> Reached(s, s.log[k]))
    && (forall n :: 0 <= n < |steps| && steps[n].Minute? ==> MinuteIn(s, steps[n].m1))
  }

  lemma MinuteForth(s: Tower, t: Tower, m1: Candle)
    requires Moves(s, t) && MinuteIn(s, m1)
    ensures MinuteIn(t, m1)
  {
    HasForth(s.primary, t.primary, m1);
    hide Has, Took;
    forall i | 0 <= i < |t.higher| && t.higher[i].source == M1 ensures Took(t.higher[i], m1) { HasForth(s.higher[i], t.higher[i], m1); }
  }

  lemma StepMoves(s: Tower, st: Step)
    requires Fit(s) && s.primary.Valid() && s.primary.source == M1 && StepOk(st)
    ensures Moves(s, Perform(s, st)) && (st.Minute? ==> MinuteIn(Perform(s, st), st.m1))
  {
    match st
    case Minute(m1) =>
      var t, u := FeedMinute(s, m1, 0), Perform(s, st);
      FeedMinuteMoves(s, m1, 0);
      CarriesMoves(s, t);
      FeedPrimaryMoves(t, m1);
      hide Fit, Has, Took, Reached;
      MovesThen(s, t, u);
      forall i | 0 <= i < |u.higher| && u.higher[i].source == M1 ensures Took(u.higher[i], m1) { HasForth(t.higher[i], u.higher[i], m1); }
    case Clock(now) => ClockClosesAll(s, now);
    case BrokerBar(bar) =>
      RepairCarries(s, bar);
      CarriesMoves(s, Repair(s, bar));
    case Reconciled(m1) => ReplaceMoves(s, m1);
  }

  /** EVERYTHING REACHES WHAT IS BUILT ON IT: over every run of minutes, clock flushes, broker bars and reconciled
      minutes, each bar handed to analysis has been taken in by every aggregator of its timeframe that had
      not passed it, and no gap of theirs is still missing it; so with each minute and the primary, and each
      minute has been taken in by the other aggregators built on minutes. */
  lemma {:induction false} EverythingReaches(s: Tower, steps: seq<Step>)
    requires TowerLaws.Fresh(s) && forall i :: 0 <= i < |steps| ==> StepOk(steps[i])
    ensures var t := RunSteps(s, steps); Fit(t) && t.primary.Valid() && t.primary.source == M1 && AllReached(t, steps)
  {
    hide Perform;
    FreshReaches(s);
    if steps != [] {
      hide Fit, Moves, AllReached, Perform, Stacked, TowerLaws.Fresh;
      var n := |steps| - 1;
      var front, st := steps[..n], steps[n];
      EverythingReaches(s, front);
      StackedFit(RunSteps(s, front));
      StepMoves(RunSteps(s, front), st);
      StepReaches(RunSteps(s, front), RunSteps(s, steps), front, st);
      assert front + [st] == steps;
    }
  }

  lemma FreshReaches(s: Tower)
    requires TowerLaws.Fresh(s)
    ensures Fit(s) && AllReached(s, [])
  {
  }

  lemma StackedFit(s: Tower)
    requires Fit(s)
    ensures Stacked(s.Setups())
  {
  }

  lemma StepReaches(t: Tower, u: Tower, front: seq<Step>, st: Step)
    requires Moves(t, u) && AllReached(t, front) && (st.Minute? ==> MinuteIn(u, st.m1))
    ensures Fit(u) && u.primary.Valid() && u.primary.source == t.primary.source && AllReached(u, front + [st])
  {
    hide Reached, MinuteIn, Fit;
    var steps := front + [st];
    forall k | 0 <= k < |u.log| ensures Reached(u, u.log[k]) { if k < |t.log| { ReachedForth(t, u, t.log[k]); } }
    forall k | 0 <= k < |steps| && steps[k].Minute? ensures MinuteIn(u, steps[k].m1) {
      if k < |front| {
        assert front[k] == steps[k];
        MinuteForth(t, u, front[k].m1);
      }
    }
  }

  /** Only the primary is offered late minutes for its gaps: to another aggregator built on minutes a minute that
      comes too late is nothing, though a gap may miss it. */
  lemma LateMinuteIgnored(s: Tower, m1: Candle, i: nat)
    requires Stacked(s.Setups()) && i < |s.higher| && s.higher[i].TooLate(m1.openTime)
    ensures FeedMinuteOne(s, m1, i) == s
  {
    assert s.higher[i := s.higher[i]] == s.higher;
  }

  /** A bar no aggregator is built on goes out alone. */
  lemma GoesOutAlone(s: Tower, r: AggResult)
    requires Stacked(s.Setups()) && !s.suspended && r.WellMade() && r.status == Complete && r.candle.Some? && s.Live(r.candle.value)
    requires forall i :: 0 <= i < |s.higher| ==> s.higher[i].source != r.tf
    ensures HandleAll(s, [r]) == Mark(s, r.candle.value)
  {
    var c := r.candle.value;
    HandleBarIs(s, r);
    DispatchStep(s, c);
    FeedsNone(Mark(s, c), c, 0);
    HandleAllCons(s, [r]);
    HandleAllNone(Handle(s, r));
  }

  lemma {:induction false} FeedsNone(s: Tower, c: Candle, i: nat)
    requires Stacked(s.Setups()) && i <= |s.higher| && forall k :: 0 <= k < |s.higher| ==> s.higher[k].source != c.tf
    ensures Feed(s, c, i) == s
    decreases |s.higher| - i
  {
    if i < |s.higher| {
      FeedStep(s, c, i);
      FeedsNone(s, c, i + 1);
    } else {
      FeedEnd(s, c);
    }
  }

  /** The single complete bar that feeding the minute yields. */
  predicate Yields(a: Agg, m1: Candle, bar: Candle) {
    var rs := a.Add(m1).1; |rs| == 1 && rs[0].status == Complete && rs[0].candle == Some(bar)
  }

  /** NOT PRIMARY FIRST: when a minute completes both the primary bar and one built on minutes directly, the latter
      is handed over first. */
  lemma MinuteBuiltGoesFirst(s: Tower, m1: Candle, built: Candle, primary: Candle)
    requires Stacked(s.Setups()) && !s.suspended && |s.higher| == 1 && s.higher[0].source == M1 && s.primary.source == M1
    requires s.primary.target != M1 && s.primary.target != s.higher[0].target
    requires Yields(s.higher[0], m1, built) && Yields(s.primary, m1, primary) && s.Live(built) && s.Live(primary)
    ensures OnMinute(s, m1).log == s.log + [built, primary]
  {
    hide FeedMinute, FeedPrimary, Yields, Stacked, Evolves, Agg.Setup;
    var t := FeedMinute(s, m1, 0);
    BuiltGoesOut(s, m1, built);
    YieldsTarget(s.primary, m1, primary);
    PrimaryGoesOut(t, m1, primary);
    assert s.log + [built] + [primary] == s.log + [built, primary];
  }

  lemma YieldsTarget(a: Agg, m1: Candle, bar: Candle)
    requires Yields(a, m1, bar)
    ensures bar.tf == a.target
  {
    assert a.Add(m1).1[0].WellMade();
  }

  /** The bar built on minutes goes out and is fed to nothing. */
  lemma BuiltGoesOut(s: Tower, m1: Candle, built: Candle)
    requires Stacked(s.Setups()) && !s.suspended && |s.higher| == 1 && s.higher[0].source == M1
    requires Yields(s.higher[0], m1, built) && s.Live(built)
    ensures var t := FeedMinute(s, m1, 0);
      && t.log == s.log + [built] && t.primary == s.primary && !t.suspended
      && |t.higher| == 1 && t.higher[0].source == M1 && t.Setups() == s.Setups()
      && t.lastClosed == s.lastClosed[built.tf := built.openTime] && built.tf == s.higher[0].target
  {
    var (a, rs) := s.higher[0].Add(m1);
    assert rs == [rs[0]];
    var fed := s.(higher := s.higher[0 := a]);
    assert fed.Setups() == s.Setups() && s.Setups()[0] == s.higher[0].Setup();
    GoesOutAlone(fed, rs[0]);
    FeedMinuteStep1(s, m1, Mark(fed, built));
    hide Agg.Add, HandleAll;
    assert Mark(fed, built).Setups() == s.Setups();
  }

  /** So does the primary's. */
  lemma PrimaryGoesOut(s: Tower, m1: Candle, primary: Candle)
    requires Stacked(s.Setups()) && !s.suspended && |s.higher| == 1 && s.higher[0].source == M1
    requires s.primary.target != M1 && Yields(s.primary, m1, primary) && s.Live(primary)
    ensures FeedPrimary(s, m1).log == s.log + [primary]
  {
    var (b, ps) := s.primary.Add(m1);
    assert ps == [ps[0]];
    WithPrimary(s, b);
    GoesOutAlone(s.(primary := b), ps[0]);
  }

  lemma FeedMinuteStep1(s: Tower, m1: Candle, t: Tower)
    requires Stacked(s.Setups()) && |s.higher| == 1 && s.higher[0].source == M1 && |t.higher| == 1 && FeedMinuteOne(s, m1, 0) == t
    ensures FeedMinute(s, m1, 0) == t
  {
    assert FeedMinute(t, m1, 1) == t;
  }
}
