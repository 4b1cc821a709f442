/** Where a tower of several timeframes does lose a bar. A drain replaces the deferred list by what it kept of
    the old one, so a higher bar completed while draining is kept exactly when the tower is not suspended at
    the moment it is handed over. */
module DrainLoss {
  import opened Timeline
  import opened Candles
  import opened Aggregation
  import opened AggregationLaws
  import opened Sorting
  import opened Sequences
  import opened Tower

  // ------------------------------------------------------------- what happens while draining

  /** A complete bar handed over by an aggregator, with the state it found: suspended or not, newer than the
      last bar of its timeframe or not. Or a bar taken up by a drain, or by the repair that a late constituent
      sets off, newer than the last one or not. */
  datatype Move = HandedOver(bar: Candle, suspended: bool, live: bool) | TakenUp(bar: Candle, live: bool)

  function HandleMoves(s: Tower, r: AggResult): seq<Move>
    requires Stacked(s.Setups()) && r.WellMade()
    decreases Load(s) + Weight(r.tf), 1, 0
  {
    if r.status == GapDetected || r.candle.None? then []
    else
      LoadMark(s, r.candle.value);
      [HandedOver(r.candle.value, s.suspended, s.Live(r.candle.value))] + if s.suspended then [] else DispatchMoves(s, r.candle.value)
  }

  function DispatchMoves(s: Tower, c: Candle): seq<Move>
    requires Stacked(s.Setups())
    decreases Load(Mark(s, c)) + LiveWeight(s, c), 0, 0
  {
    DispatchStep(s, c);
    if s.Live(c) then FeedMoves(Mark(s, c), c, 0) else []
  }

  function FeedMoves(s: Tower, c: Candle, i: nat): seq<Move>
    requires Stacked(s.Setups()) && i <= |s.higher|
    decreases Load(s) + Budget(s.Setups(), c.tf, i), 5, |s.higher| - i
  {
    if i == |s.higher| then []
    else
      FeedStep(s, c, i);
      var here := if s.higher[i].source == c.tf then OneMoves(s, c, i) else [];
      here + FeedMoves(FeedAt(s, c, i), c, i + 1)
  }

  function OneMoves(s: Tower, c: Candle, i: nat): seq<Move>
    requires Stacked(s.Setups()) && i < |s.higher|
    decreases Load(s) + 2 * Weight(s.higher[i].target), 4, 0
  {
    var (a, rs) := s.higher[i].Add(c);
    FedStep(s, c, i);
    if rs != [] then AllMoves(s.(higher := s.higher[i := a]), rs)
    else
      var (b, bar) := a.TryCompleteGap(c);
      if bar.Some? then RepairMoves(s.(higher := s.higher[i := b]), bar.value) else []
  }

  function RepairMoves(s: Tower, c: Candle): seq<Move>
    requires Stacked(s.Setups())
    decreases Load(s) + Weight(c.tf), 2, 0
  {
    var k := FindGap(s.gaps, c.tf, c.openTime);
    if k.None? || !c.closed then []
    else
      RepairStep(s, c, k.value);
      var resolved := s.(gaps := s.gaps[k.value := s.gaps[k.value].(resolved := true)]);
      LiftedLoad(Dispatch(resolved, c));
      [TakenUp(c, resolved.Live(c))] + DispatchMoves(resolved, c) + DrainMoves(Lifted(Dispatch(resolved, c)))
  }

  /** The moves of a drain, in order. */
  function DrainMoves(s: Tower): seq<Move>
    requires Stacked(s.Setups())
    decreases Load(s), 2, 0
  {
    DrainIs(s);
    ListMoves(s, Sort(s.deferred, DrainKey), s.FirstUnresolved())
  }

  function AllMoves(s: Tower, rs: seq<AggResult>): seq<Move>
    requires Stacked(s.Setups()) && AllMade(rs)
    decreases Load(s) + ResultsWeight(rs), 3, |rs|
  {
    if rs == [] then [] else HandleMoves(s, rs[0]) + AllMoves(Handle(s, rs[0]), rs[1..])
  }

  function ListMoves(s: Tower, list: seq<Candle>, next: Option<GapRecord>): seq<Move>
    requires Stacked(s.Setups()) && forall c :: c in list ==> c in s.deferred || !s.Live(c)
    decreases Load(s), 1, |list|
  {
    if list == [] then []
    else
      DrainStep(s, list, next);
      if Waits(list[0], next) then ListMoves(s, list[1..], next)
      else [TakenUp(list[0], s.Live(list[0]))] + DispatchMoves(s, list[0]) + ListMoves(Dispatch(s, list[0]), list[1..], next)
  }

  /** One aggregator fed. */
  lemma FedStep(s: Tower, c: Candle, i: nat)
    requires Stacked(s.Setups()) && i < |s.higher|
    ensures var (a, rs) := s.higher[i].Add(c); var fed := s.(higher := s.higher[i := a]);
      && fed.Setups() == s.Setups() && Load(fed) == Load(s) && AllMade(rs) && ResultsWeight(rs) <= 2 * Weight(s.higher[i].target)
      && (rs != [] ==> FeedOne(s, c, i) == HandleAll(fed, rs))
      && (rs == [] ==> var (b, bar) := a.TryCompleteGap(c); var offered := s.(higher := s.higher[i := b]);
           offered.Setups() == s.Setups() && FeedOne(s, c, i) == if bar.Some? then Repair(offered, bar.value) else offered)
  {
    var (a, rs) := s.higher[i].Add(c);
    var fed := s.(higher := s.higher[i := a]);
    assert fed.Setups() == s.Setups();
    ResultsWeigh(rs, a.target);
    var b := a.TryCompleteGap(c).0;
    assert fed.higher[i := b] == s.higher[i := b];
    assert s.(higher := s.higher[i := b]).Setups() == s.Setups();
  }

  // ------------------------------------------------------------- where the bars go

  /** Bars handed over to a tower that was not suspended, or taken up, when nothing as new of their timeframe
      had gone out. */
  ghost function Out(ms: seq<Move>): set<Candle> { set m | m in ms && GoesOut(m) :: m.bar }

  predicate GoesOut(m: Move) { m.live && (m.HandedOver? ==> !m.suspended) }

  lemma OutConcat(ms: seq<Move>, ns: seq<Move>)
    ensures Out(ms + ns) == Out(ms) + Out(ns)
  {
    assert forall m :: m in ms + ns <==> m in ms || m in ns;
  }

  lemma OutOne(m: Move)
    ensures Out([m]) == if GoesOut(m) then {m.bar} else {}
  {
    assert m in [m];
  }

  ghost function Logged(s: Tower): set<Candle> { set c | c in s.log }

  /** From `s` to `t` by these moves: exactly the bars that go out by them have gone out. */
  ghost predicate Went(s: Tower, t: Tower, ms: seq<Move>) { Logged(t) == Logged(s) + Out(ms) }

  lemma WentOn(s: Tower, t: Tower, u: Tower, ms: seq<Move>, ns: seq<Move>)
    requires Went(s, t, ms) && Went(t, u, ns)
    ensures Went(s, u, ms + ns)
  {
    OutConcat(ms, ns);
    hide Out, Logged;
  }

  lemma WentNowhere(s: Tower, t: Tower)
    requires t.log == s.log
    ensures Went(s, t, [])
  {
  }

  /** A bar dispatched on its own account, and what that sets off. */
  ghost predicate Sent(s: Tower, t: Tower, c: Candle, ms: seq<Move>) { Logged(t) == Logged(s) + (if s.Live(c) then {c} else {}) + Out(ms) }

  lemma SentAs(s: Tower, t: Tower, c: Candle, m: Move, ms: seq<Move>)
    requires Sent(s, t, c, ms) && m.bar == c && (GoesOut(m) <==> s.Live(c))
    ensures Went(s, t, [m] + ms)
  {
    OutConcat([m], ms);
    OutOne(m);
    hide Out, Logged, GoesOut;
  }

  lemma HandleWent(s: Tower, r: AggResult)
    requires Stacked(s.Setups()) && r.WellMade()
    ensures Went(s, Handle(s, r), HandleMoves(s, r))
    decreases Load(s) + Weight(r.tf), 1, 0
  {
    hide Went, Sent, Dispatch;
    if r.status == GapDetected || r.candle.None? {
      HandleGapIs(s, r);
      WentNowhere(s, Handle(s, r));
    } else {
      var c := r.candle.value;
      HandleBarIs(s, r);
      LoadMark(s, c);
      if s.suspended {
        HandedBehind(s, c);
      } else {
        DispatchSent(s, c);
        SentAs(s, Dispatch(s, c), c, HandedOver(c, false, s.Live(c)), DispatchMoves(s, c));
      }
    }
  }

  lemma HandedBehind(s: Tower, c: Candle)
    ensures Went(s, s.(deferred := s.deferred + [c]), [HandedOver(c, true, s.Live(c))] + [])
  {
    var m := HandedOver(c, true, s.Live(c));
    EmptyRight([m]);
    OutOne(m);
  }

  lemma DispatchSent(s: Tower, c: Candle)
    requires Stacked(s.Setups())
    ensures Sent(s, Dispatch(s, c), c, DispatchMoves(s, c))
    decreases Load(Mark(s, c)) + LiveWeight(s, c), 0, 0
  {
    hide Out, Dispatch, FeedMoves;
    DispatchStep(s, c);
    if s.Live(c) {
      FeedWent(Mark(s, c), c, 0);
      MarkLogs(s, c);
    } else {
      OutNone();
    }
  }

  lemma OutNone()
    ensures Out([]) == {}
  {
  }

  lemma MarkLogs(s: Tower, c: Candle)
    requires s.Live(c)
    ensures Logged(Mark(s, c)) == Logged(s) + {c}
  {
    assert forall d :: d in s.log + [c] <==> d in s.log || d == c;
  }

  lemma FeedWent(s: Tower, c: Candle, i: nat)
    requires Stacked(s.Setups()) && i <= |s.higher|
    ensures Went(s, Feed(s, c, i), FeedMoves(s, c, i))
    decreases Load(s) + Budget(s.Setups(), c.tf, i), 5, |s.higher| - i
  {
    hide Went, Feed, FeedOne, OneMoves, Stacked;
    if i == |s.higher| {
      FeedEnd(s, c);
      WentNowhere(s, s);
    } else {
      FeedStep(s, c, i);
      var t := FeedAt(s, c, i);
      var ms := if s.higher[i].source == c.tf then OneMoves(s, c, i) else [];
      if s.higher[i].source == c.tf { OneWent(s, c, i); } else { WentNowhere(s, s); }
      FeedWent(t, c, i + 1);
      WentOn(s, t, Feed(t, c, i + 1), ms, FeedMoves(t, c, i + 1));
    }
  }

  lemma OneWent(s: Tower, c: Candle, i: nat)
    requires Stacked(s.Setups()) && i < |s.higher|
    ensures Went(s, FeedOne(s, c, i), OneMoves(s, c, i))
    decreases Load(s) + 2 * Weight(s.higher[i].target), 4, 0
  {
    hide Out, HandleAll, Repair, RepairMoves, AllMoves, Stacked;
    FedStep(s, c, i);
    var (a, rs) := s.higher[i].Add(c);
    if rs != [] {
      AllWent(s.(higher := s.higher[i := a]), rs);
    } else {
      var (b, bar) := a.TryCompleteGap(c);
      if bar.Some? { RepairWent(s.(higher := s.higher[i := b]), bar.value); } else { WentNowhere(s, FeedOne(s, c, i)); }
    }
  }

  lemma AllWent(s: Tower, rs: seq<AggResult>)
    requires Stacked(s.Setups()) && AllMade(rs)
    ensures Went(s, HandleAll(s, rs), AllMoves(s, rs))
    decreases Load(s) + ResultsWeight(rs), 3, |rs|
  {
    hide Went, Handle, HandleAll, HandleMoves, Stacked;
    if rs == [] {
      HandleAllNone(s);
      WentNowhere(s, s);
    } else {
      HandleAllCons(s, rs);
      var t := Handle(s, rs[0]);
      HandleWent(s, rs[0]);
      AllWent(t, rs[1..]);
      WentOn(s, t, HandleAll(t, rs[1..]), HandleMoves(s, rs[0]), AllMoves(t, rs[1..]));
    }
  }

  lemma RepairWent(s: Tower, c: Candle)
    requires Stacked(s.Setups())
    ensures Went(s, Repair(s, c), RepairMoves(s, c))
    decreases Load(s) + Weight(c.tf), 2, 0
  {
    hide Went, Sent, Dispatch, Drain, Stacked, DispatchMoves, DrainMoves;
    var k := FindGap(s.gaps, c.tf, c.openTime);
    if k.None? || !c.closed {
      WentNowhere(s, s);
    } else {
      RepairStep(s, c, k.value);
      var resolved := s.(gaps := s.gaps[k.value := s.gaps[k.value].(resolved := true)]);
      var t := Dispatch(resolved, c);
      LiftedLoad(t);
      DispatchSent(resolved, c);
      SentAs(resolved, t, c, TakenUp(c, resolved.Live(c)), DispatchMoves(resolved, c));
      DrainWent(Lifted(t));
      SameLog(s, resolved, t, Lifted(t), [TakenUp(c, resolved.Live(c))] + DispatchMoves(resolved, c));
      WentOn(s, Lifted(t), Drain(Lifted(t)), [TakenUp(c, resolved.Live(c))] + DispatchMoves(resolved, c), DrainMoves(Lifted(t)));
    }
  }

  /** Moves are about the log alone. */
  lemma SameLog(s: Tower, s': Tower, t: Tower, t': Tower, ms: seq<Move>)
    requires Went(s', t, ms) && s'.log == s.log && t'.log == t.log
    ensures Went(s, t', ms)
  {
  }

  lemma DrainWent(s: Tower)
    requires Stacked(s.Setups())
    ensures Went(s, Drain(s), DrainMoves(s))
    decreases Load(s), 2, 0
  {
    hide Went, Drain, DrainList, ListMoves, Sort, Stacked;
    DrainIs(s);
    var list, next := Sort(s.deferred, DrainKey), s.FirstUnresolved();
    ListWent(s, list, next);
    SameLog(s, s, DrainList(s, list, next), Drain(s), DrainMoves(s));
  }

  lemma ListWent(s: Tower, list: seq<Candle>, next: Option<GapRecord>)
    requires Stacked(s.Setups()) && forall c :: c in list ==> c in s.deferred || !s.Live(c)
    ensures Went(s, DrainList(s, list, next), ListMoves(s, list, next))
    decreases Load(s), 1, |list|
  {
    hide Went, Sent, Dispatch, DrainList, Stacked, DispatchMoves, Waits;
    if list == [] {
      DrainEnd(s, next);
      WentNowhere(s, s);
    } else {
      DrainStep(s, list, next);
      if Waits(list[0], next) {
        ListWent(s, list[1..], next);
      } else {
        var c, t := list[0], Dispatch(s, list[0]);
        DispatchSent(s, c);
        SentAs(s, t, c, TakenUp(c, s.Live(c)), DispatchMoves(s, c));
        ListWent(t, list[1..], next);
        WentOn(s, t, DrainList(t, list[1..], next), [TakenUp(c, s.Live(c))] + DispatchMoves(s, c), ListMoves(t, list[1..], next));
      }
    }
  }

  // ------------------------------------------------------------- kept or lost

  /** A drain keeps only bars that were deferred before it began. */
  lemma DrainKeepsOnlyOld(s: Tower)
    requires Stacked(s.Setups())
    ensures forall c :: c in Drain(s).deferred ==> c in s.deferred
  {
    DrainIs(s);
    PendingKept(s.lastClosed, Sort(s.deferred, DrainKey), s.FirstUnresolved());
  }

  /** A bar new to the tower, handed over during a drain. */
  ghost predicate NewlyHanded(s: Tower, c: Candle)
    requires Stacked(s.Setups())
  {
    c !in s.log && c !in s.deferred && exists m :: m in DrainMoves(s) && m.HandedOver? && m.bar == c
  }

  /** EXACTLY WHEN: of a drain of any tower, a bar completed meanwhile is dispatched if and only if it was handed
      over while the tower was not suspended, or taken up again by a repair set off during the drain, when nothing
      as new of its timeframe had gone out; otherwise it is neither dispatched nor deferred. */
  lemma DrainKeepsIff(s: Tower, c: Candle)
    requires Stacked(s.Setups()) && NewlyHanded(s, c)
    ensures c in Drain(s).log <==> c in Out(DrainMoves(s))
    ensures c !in Drain(s).deferred
  {
    hide Drain, DrainMoves, Stacked, Out;
    DrainKeepsOnlyOld(s);
    DrainWent(s);
    assert c in Drain(s).log <==> c in Logged(Drain(s));
    assert c in s.log <==> c in Logged(s);
  }

  // ------------------------------------------------------------- before the drain

  /** The aggregator has no gap on record, and its open bucket, if any, starts at `key`. */
  ghost predicate InOne(a: Agg, key: Instant) { a.gapBuckets == map[] && (a.bucket.Some? ==> a.bucket.value.openTime == key) }

  /** The bucket at `key` has been emitted. */
  predicate Emitted(a: Agg, key: Instant) { a.lastEmitted.Some? && key <= a.lastEmitted.value }

  /** A bar of that bucket would be newer than the last one of its timeframe, unless it has been emitted. */
  predicate Ahead(last: map<Timeframe, Instant>, a: Agg, key: Instant) { a.target in last && key <= last[a.target] ==> Emitted(a, key) }

  lemma PlacedInOne(a: Agg, c: Candle, key: Instant)
    requires InOne(a, key) && a.bucket.Some?
    ensures var (b, out) := a.Place(c);
      && b.Setup() == a.Setup() && InOne(b, key) && |out| <= 1 && (out == [] ==> b.lastEmitted == a.lastEmitted)
      && (out != [] ==>
            Emitted(b, key) && out[0].status == Complete && out[0].tf == a.target && out[0].candle.Some? && out[0].candle.value.openTime == key)
  {
    hide Bucket.IsComplete;
    PlaceCases(a, c);
    var full := a.bucket.value.Arrive(c);
    if full.IsComplete() && full.expected != [] { assert full.expected[0] in full.expected; }
  }

  /** Feeding a bar of that bucket closes no other bucket: at most it completes this one, once. */
  lemma AddInOne(a: Agg, c: Candle, key: Instant)
    requires InOne(a, key) && a.KeyOf(c.openTime) == key
    ensures var (b, rs) := a.Add(c);
      && InOne(b, key) && b.TryCompleteGap(c) == (b, None) && (Emitted(a, key) ==> rs == [] && Emitted(b, key))
      && (rs != [] ==> |rs| == 1 && Emitted(b, key) && rs[0].status == Complete && rs[0].tf == a.target
                       && rs[0].candle.Some? && rs[0].candle.value.openTime == key)
  {
    hide Aligned, Bucket.IsComplete, AllFor;
    if Aligned(c.openTime, a.source) && !a.TooLate(c.openTime) {
      var (ready, early) := a.Ready(c.openTime);
      assert early == None && InOne(ready, key) && ready.bucket.value.openTime == key;
      hide Agg.Ready, Agg.Place;
      PlacedInOne(ready, c, key);
    }
  }

  /** Every aggregator fed by the bar has it in the bucket of its key. */
  ghost predicate Fits(ss: seq<AggSetup>, keys: seq<Instant>, c: Candle) {
    |keys| == |ss| && forall i :: 0 <= i < |ss| ==> FitsAt(ss[i], keys[i], c.tf, c.openTime)
  }

  predicate FitsAt(ss: AggSetup, key: Instant, tf: Timeframe, at: Instant) { ss.source == tf ==> ss.policy.bucket(at, ss.target).start == key }

  /** A bar of one key, of the timeframe an aggregator emits, falls in the bucket of the next one's key. */
  ghost predicate Chained(ss: seq<AggSetup>, keys: seq<Instant>) {
    |keys| == |ss| && forall i, j :: 0 <= i < |ss| && 0 <= j < |ss| ==> FitsAt(ss[i], keys[i], ss[j].target, keys[j])
  }

  /** One bucket of each timeframe is under way, and nothing of it has gone out. */
  ghost predicate Steady(s: Tower, keys: seq<Instant>) {
    && Stacked(s.Setups()) && Chained(s.Setups(), keys)
    && forall i :: 0 <= i < |s.higher| ==> SteadyAt(s.lastClosed, s.higher[i], keys[i])
  }

  ghost predicate SteadyAt(last: map<Timeframe, Instant>, a: Agg, key: Instant) { InOne(a, key) && Ahead(last, a, key) }

  /** The bar leaves room for the bars still to come of its timeframe. */
  predicate RoomFor(s: Tower, keys: seq<Instant>, c: Candle)
    requires |keys| == |s.higher|
  {
    forall i :: 0 <= i < |s.higher| && s.higher[i].target == c.tf ==> c.openTime < keys[i] || Emitted(s.higher[i], keys[i])
  }

  /** From `s` to `t` by these moves: still steady, no gap found, and every bar handed over as newest of its
      timeframe to a tower as suspended as before. */
  ghost predicate Calm(s: Tower, t: Tower, ms: seq<Move>, keys: seq<Instant>) {
    && Steady(t, keys) && t.gaps == s.gaps && t.suspended == s.suspended && t.Setups() == s.Setups()
    && (forall i :: 0 <= i < |s.higher| ==> StaysEmitted(s.higher[i], t.higher[i], keys[i]))
    && forall m :: m in ms ==> HandedAs(m, s.suspended)
  }

  /** A bar handed over as newest of its timeframe to a tower suspended, or not. */
  predicate HandedAs(m: Move, suspended: bool) { m.HandedOver? && m.live && m.suspended == suspended }

  predicate StaysEmitted(a: Agg, b: Agg, key: Instant) { Emitted(a, key) ==> Emitted(b, key) }

  lemma CalmOn(s: Tower, t: Tower, u: Tower, ms: seq<Move>, ns: seq<Move>, keys: seq<Instant>)
    requires |s.higher| == |keys| && Calm(s, t, ms, keys) && Calm(t, u, ns, keys)
    ensures Calm(s, u, ms + ns, keys)
  {
    assert |t.higher| == |s.higher| by { assert |t.Setups()| == |s.Setups()|; }
    forall i | 0 <= i < |s.higher| ensures StaysEmitted(s.higher[i], u.higher[i], keys[i]) {
      assert StaysEmitted(s.higher[i], t.higher[i], keys[i]) && StaysEmitted(t.higher[i], u.higher[i], keys[i]);
    }
    forall m | m in ms + ns ensures HandedAs(m, s.suspended) { assert m in ms || m in ns; }
  }

  lemma CalmStill(s: Tower, keys: seq<Instant>)
    requires Steady(s, keys)
    ensures Calm(s, s, [], keys)
  {
  }

  lemma HandleCalm(s: Tower, r: AggResult, keys: seq<Instant>)
    requires Steady(s, keys) && r.WellMade() && r.status == Complete && r.candle.Some? && s.Live(r.candle.value)
    requires Fits(s.Setups(), keys, r.candle.value) && RoomFor(s, keys, r.candle.value)
    ensures Calm(s, Handle(s, r), HandleMoves(s, r), keys)
    decreases Load(s) + Weight(r.tf), 1, 0
  {
    var c := r.candle.value;
    HandleBarIs(s, r);
    LoadMark(s, c);
    if s.suspended {
      var t := s.(deferred := s.deferred + [c]);
      assert t.Setups() == s.Setups();
    } else {
      DispatchCalm(s, c, keys);
    }
  }

  lemma DispatchCalm(s: Tower, c: Candle, keys: seq<Instant>)
    requires Steady(s, keys) && Fits(s.Setups(), keys, c) && RoomFor(s, keys, c)
    ensures Calm(s, Dispatch(s, c), DispatchMoves(s, c), keys)
    decreases Load(Mark(s, c)) + LiveWeight(s, c), 0, 0
  {
    DispatchStep(s, c);
    if s.Live(c) {
      MarkCalm(s, c, keys);
      FeedCalm(Mark(s, c), c, 0, keys);
      EmptyLeft(FeedMoves(Mark(s, c), c, 0));
      CalmOn(s, Mark(s, c), Feed(Mark(s, c), c, 0), [], FeedMoves(Mark(s, c), c, 0), keys);
    }
  }

  lemma MarkCalm(s: Tower, c: Candle, keys: seq<Instant>)
    requires Steady(s, keys) && s.Live(c) && RoomFor(s, keys, c)
    ensures Calm(s, Mark(s, c), [], keys)
  {
    var t := Mark(s, c);
    assert t.Setups() == s.Setups();
    forall i | 0 <= i < |t.higher| ensures SteadyAt(t.lastClosed, t.higher[i], keys[i]) {
      assert SteadyAt(s.lastClosed, s.higher[i], keys[i]);
    }
  }

  lemma FeedCalm(s: Tower, c: Candle, i: nat, keys: seq<Instant>)
    requires Steady(s, keys) && i <= |s.higher| && Fits(s.Setups(), keys, c)
    ensures Calm(s, Feed(s, c, i), FeedMoves(s, c, i), keys)
    decreases Load(s) + Budget(s.Setups(), c.tf, i), 5, |s.higher| - i
  {
    hide Stacked, SteadyAt, Agg.TryCompleteGap, Pending, RepairMoves, Agg.Add, Agg.Setup;
    if i == |s.higher| {
      FeedEnd(s, c);
      CalmStill(s, keys);
    } else {
      FeedStep(s, c, i);
      var t := FeedAt(s, c, i);
      var ms := if s.higher[i].source == c.tf then OneMoves(s, c, i) else [];
      if s.higher[i].source == c.tf { OneCalm(s, c, i, keys); } else { CalmStill(s, keys); }
      CalmKeeps(s, t, ms, keys);
      FeedCalm(t, c, i + 1, keys);
      CalmOn(s, t, Feed(t, c, i + 1), ms, FeedMoves(t, c, i + 1), keys);
    }
  }

  lemma CalmKeeps(s: Tower, t: Tower, ms: seq<Move>, keys: seq<Instant>)
    requires Calm(s, t, ms, keys)
    ensures Steady(t, keys) && t.Setups() == s.Setups()
  {
  }

  lemma OneCalm(s: Tower, c: Candle, i: nat, keys: seq<Instant>)
    requires Steady(s, keys) && i < |s.higher| && s.higher[i].source == c.tf && Fits(s.Setups(), keys, c)
    ensures Calm(s, FeedOne(s, c, i), OneMoves(s, c, i), keys)
    decreases Load(s) + 2 * Weight(s.higher[i].target), 4, 0
  {
    hide Agg.Add, Dispatch, Load, Tower.Live, HandleMoves, RepairMoves, StaysEmitted, FeedOne, Weight, Chained,
         Repair;
    FedStep(s, c, i);
    var (a, rs) := s.higher[i].Add(c);
    var fed := s.(higher := s.higher[i := a]);
    assert SteadyAt(s.lastClosed, s.higher[i], keys[i]) && FitsAt(s.Setups()[i], keys[i], c.tf, c.openTime);
    AddInOne(s.higher[i], c, keys[i]);
    FedCalm(s, i, a, keys);
    if rs != [] {
      var bar := rs[0].candle.value;
      assert [rs[0]] == rs && rs[1..] == [];
      HandedFits(s, fed, i, bar, keys);
      HandleCalm(fed, rs[0], keys);
      HandleAllCons(fed, rs);
      HandleAllNone(Handle(fed, rs[0]));
      assert AllMoves(fed, rs) == HandleMoves(fed, rs[0]) by { EmptyRight(HandleMoves(fed, rs[0])); }
      EmptyLeft(HandleMoves(fed, rs[0]));
      CalmOn(s, fed, Handle(fed, rs[0]), [], HandleMoves(fed, rs[0]), keys);
    }
  }

  /** Swapping an aggregator for a steady successor. */
  lemma FedCalm(s: Tower, i: nat, a: Agg, keys: seq<Instant>)
    requires Steady(s, keys) && i < |s.higher| && a.Setup() == s.higher[i].Setup() && InOne(a, keys[i])
    requires Emitted(s.higher[i], keys[i]) ==> Emitted(a, keys[i])
    ensures Calm(s, s.(higher := s.higher[i := a]), [], keys)
  {
    var t := s.(higher := s.higher[i := a]);
    assert t.Setups() == s.Setups();
    forall k | 0 <= k < |t.higher| ensures SteadyAt(t.lastClosed, t.higher[k], keys[k]) && StaysEmitted(s.higher[k], t.higher[k], keys[k]) {
      assert SteadyAt(s.lastClosed, s.higher[k], keys[k]);
    }
  }

  /** A bar just emitted is the newest of its timeframe, and fits what it is fed to. */
  lemma HandedFits(s: Tower, fed: Tower, i: nat, bar: Candle, keys: seq<Instant>)
    requires Steady(s, keys) && i < |s.higher| && !Emitted(s.higher[i], keys[i]) && bar.tf == s.higher[i].target && bar.openTime == keys[i]
    requires |fed.higher| == |s.higher| && fed.Setups() == s.Setups() && fed.lastClosed == s.lastClosed && Emitted(fed.higher[i], keys[i])
    ensures fed.Live(bar) && Fits(fed.Setups(), keys, bar) && RoomFor(fed, keys, bar)
  {
    assert SteadyAt(s.lastClosed, s.higher[i], keys[i]);
    forall k | 0 <= k < |fed.higher| && fed.higher[k].target == bar.tf ensures Emitted(fed.higher[k], keys[k]) {
      assert fed.Setups()[k].target == fed.Setups()[i].target;
    }
    forall k | 0 <= k < |fed.Setups()| ensures FitsAt(fed.Setups()[k], keys[k], bar.tf, bar.openTime) {
      assert FitsAt(s.Setups()[k], keys[k], s.Setups()[i].target, keys[i]);
    }
  }

  /** One bucket of each timeframe is under way, the bars about to be drained fall in it, and nothing of it has
      gone out. */
  ghost predicate OneBucket(s: Tower, keys: seq<Instant>) {
    Steady(s, keys) && forall c :: c in s.deferred && !Waits(c, s.FirstUnresolved()) ==> Fits(s.Setups(), keys, c) && OlderThan(s.Setups(), keys, c)
  }

  /** The bar is older than the bars of its timeframe still to come. */
  ghost predicate OlderThan(ss: seq<AggSetup>, keys: seq<Instant>, c: Candle)
    requires |keys| == |ss|
  {
    forall i :: 0 <= i < |ss| && ss[i].target == c.tf ==> c.openTime < keys[i]
  }

  ghost predicate AllFit(ss: seq<AggSetup>, keys: seq<Instant>, list: seq<Candle>, next: Option<GapRecord>) {
    |keys| == |ss| && forall c :: c in list && !Waits(c, next) ==> Fits(ss, keys, c) && OlderThan(ss, keys, c)
  }

  /** From `s` to `t`: calm but for the bars of the list, taken up. */
  ghost predicate CalmBut(s: Tower, t: Tower, ms: seq<Move>, keys: seq<Instant>, list: seq<Candle>) {
    && Steady(t, keys) && t.gaps == s.gaps && t.suspended == s.suspended
    && forall m :: m in ms ==> HandedAs(m, s.suspended) || (m.TakenUp? && m.bar in list)
  }

  lemma {:induction false} ListCalm(s: Tower, list: seq<Candle>, next: Option<GapRecord>, keys: seq<Instant>)
    requires Steady(s, keys) && AllFit(s.Setups(), keys, list, next) && forall c :: c in list ==> c in s.deferred || !s.Live(c)
    ensures CalmBut(s, DrainList(s, list, next), ListMoves(s, list, next), keys, list)
    decreases |list|
  {
    hide Dispatch, Waits, Fits, OlderThan, Calm, CalmBut, Steady, DispatchMoves;
    CalmKeepsStacked(s, keys);
    if list == [] {
      DrainEnd(s, next);
      CalmNothing(s, keys);
    } else {
      DrainStep(s, list, next);
      var rest := list[1..];
      if Waits(list[0], next) {
        ListCalm(s, rest, next, keys);
        CalmMore(s, s, DrainList(s, rest, next), [], ListMoves(s, rest, next), keys, list);
        EmptyLeft(ListMoves(s, rest, next));
      } else {
        var c, t := list[0], Dispatch(s, list[0]);
        OlderLeavesRoom(s, keys, c);
        DispatchCalm(s, c, keys);
        CalmKeeps(s, t, DispatchMoves(s, c), keys);
        ListCalm(t, rest, next, keys);
        CalmTakes(s, t, c, DispatchMoves(s, c), keys, list);
        CalmMore(s, t, DrainList(t, rest, next), [TakenUp(c, s.Live(c))] + DispatchMoves(s, c), ListMoves(t, rest, next), keys, list);
      }
    }
  }

  lemma CalmNothing(s: Tower, keys: seq<Instant>)
    requires Steady(s, keys)
    ensures CalmBut(s, s, [], keys, [])
  {
  }

  ghost predicate MovesBut(s: Tower, t: Tower, ms: seq<Move>, list: seq<Candle>) {
    && t.gaps == s.gaps && t.suspended == s.suspended
    && forall m :: m in ms ==> HandedAs(m, s.suspended) || (m.TakenUp? && m.bar in list)
  }

  lemma CalmTakes(s: Tower, t: Tower, c: Candle, ms: seq<Move>, keys: seq<Instant>, list: seq<Candle>)
    requires Calm(s, t, ms, keys) && c in list
    ensures MovesBut(s, t, [TakenUp(c, s.Live(c))] + ms, list)
  {
    hide Steady;
  }

  lemma CalmMore(s: Tower, t: Tower, u: Tower, ms: seq<Move>, ns: seq<Move>, keys: seq<Instant>, list: seq<Candle>)
    requires list != [] && MovesBut(s, t, ms, list) && CalmBut(t, u, ns, keys, list[1..])
    ensures CalmBut(s, u, ms + ns, keys, list)
  {
    hide Steady;
    forall m | m in ms + ns ensures HandedAs(m, s.suspended) || (m.TakenUp? && m.bar in list) { assert m in ms || m in ns; }
  }

  lemma CalmKeepsStacked(s: Tower, keys: seq<Instant>)
    requires Steady(s, keys)
    ensures Stacked(s.Setups()) && |s.higher| == |keys|
  {
  }

  lemma OlderLeavesRoom(s: Tower, keys: seq<Instant>, c: Candle)
    requires |keys| == |s.higher| && OlderThan(s.Setups(), keys, c)
    ensures RoomFor(s, keys, c)
  {
    forall i | 0 <= i < |s.higher| && s.higher[i].target == c.tf ensures c.openTime < keys[i] { assert s.Setups()[i].target == c.tf; }
  }

  /** EXACTLY WHEN, told before the drain: if the bars to be drained fall in one bucket of each timeframe, over
      any number of aggregators, chained or not, and any number of bars, then every bar completed by the drain
      is dispatched if the tower is not suspended, and every one of them is lost if it is. */
  lemma CompletedKeptIffNotSuspended(s: Tower, keys: seq<Instant>, c: Candle)
    requires OneBucket(s, keys) && NewlyHanded(s, c)
    ensures Drain(s).gaps == s.gaps && Drain(s).suspended == s.suspended
    ensures c in Drain(s).log <==> !s.suspended
    ensures c !in Drain(s).deferred
  {
    hide Drain, DrainList, ListMoves, Sort, Stacked, Fits, OlderThan, Steady;
    CalmKeepsStacked(s, keys);
    var list, next := Sort(s.deferred, DrainKey), s.FirstUnresolved();
    DrainIs(s);
    assert AllFit(s.Setups(), keys, list, next);
    assert c !in list;
    ListCalm(s, list, next, keys);
    DrainKeepsIff(s, c);
  }
}
