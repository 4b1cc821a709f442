/** Dispatch, gap, defer, repair and drain: how closed bars travel up the timeframes.
    The four operations call one another (dispatch, handle, repair, drain, dispatch); what bounds the
    recursion is the weight of the bars still to be dispatched, higher timeframes weighing less. */
module Tower {
  import opened Timeline
  import opened Candles
  import opened Aggregation
  import opened Sorting

  datatype GapRecord = GapRecord(tf: Timeframe, openTime: Instant, expected: nat, present: nat, missing: seq<Instant>, resolved: bool)

  /** Deferred bars are drained by open time, lower timeframes first. */
  function DrainKey(c: Candle): int { c.openTime * 5 + c.tf.Rank() }

  datatype Tower = Tower(
    primary: Agg, higher: seq<Agg>, lastClosed: map<Timeframe, Instant>,
    gaps: seq<GapRecord>, suspended: bool, deferred: seq<Candle>,
    log: seq<Candle>)   // the candles handed to analysis, in order
  {
    function Setups(): (ss: seq<AggSetup>)
      ensures |ss| == |higher| && forall i :: 0 <= i < |ss| ==> ss[i] == higher[i].Setup()
    {
      seq(|higher|, i requires 0 <= i < |higher| => higher[i].Setup())
    }

    /** A bar newer than the last one dispatched of its timeframe. */
    predicate Live(c: Candle) { IsLive(lastClosed, c) }

    function FirstUnresolved(): Option<GapRecord> { FirstOpen(gaps) }
  }

  predicate IsLive(last: map<Timeframe, Instant>, c: Candle) { c.tf in last ==> last[c.tf] < c.openTime }

  function FirstOpen(gaps: seq<GapRecord>): Option<GapRecord> {
    if gaps == [] then None else if !gaps[0].resolved then Some(gaps[0]) else FirstOpen(gaps[1..])
  }

  /** Index of the first unresolved gap of a timeframe at an open time. */
  function FindGap(gaps: seq<GapRecord>, tf: Timeframe, openTime: Instant): (k: Option<nat>)
    ensures k.Some? ==> k.value < |gaps| && !gaps[k.value].resolved && gaps[k.value].tf == tf && gaps[k.value].openTime == openTime
    ensures k.Some? ==> forall i :: 0 <= i < k.value ==> gaps[i].resolved || gaps[i].tf != tf || gaps[i].openTime != openTime
    ensures k.None? ==> forall i :: 0 <= i < |gaps| ==> gaps[i].resolved || gaps[i].tf != tf || gaps[i].openTime != openTime
  {
    if gaps == [] then None
    else if !gaps[0].resolved && gaps[0].tf == tf && gaps[0].openTime == openTime then Some(0)
    else
      var k := FindGap(gaps[1..], tf, openTime);
      assert forall i :: 1 <= i < |gaps| ==> gaps[i] == gaps[1..][i - 1];
      if k.Some? then Some(k.value + 1) else None
  }

  // ---------------------------------------------------------------------- the measure

  /** Three times the weight for each step down the timeframes. */
  function Weight(tf: Timeframe): (w: nat)
    ensures 1 <= w
  {
    match tf
    case M1 => 81
    case M5 => 27
    case M15 => 9
    case H1 => 3
    case H4 => 1
  }

  /** The weight of the deferred bars that can still be dispatched. */
  function Pending(last: map<Timeframe, Instant>, ds: seq<Candle>): nat {
    if ds == [] then 0 else (if IsLive(last, ds[0]) then Weight(ds[0].tf) else 0) + Pending(last, ds[1..])
  }

  /** What dispatching a bar of `tf` can put in motion, through the aggregators from the `i`th on. */
  function Budget(ss: seq<AggSetup>, tf: Timeframe, i: nat): nat
    requires i <= |ss|
    decreases |ss| - i
  {
    if i == |ss| then 0 else (if ss[i].source == tf then 2 * Weight(ss[i].target) else 0) + Budget(ss, tf, i + 1)
  }

  function ResultsWeight(rs: seq<AggResult>): nat {
    if rs == [] then 0 else Weight(rs[0].tf) + ResultsWeight(rs[1..])
  }

  /** Aggregators go strictly up and have distinct targets, as a dictionary keyed by target. */
  ghost predicate Stacked(ss: seq<AggSetup>) {
    && (forall i :: 0 <= i < |ss| ==> ss[i].source.Rank() < ss[i].target.Rank())
    && (forall i, j :: 0 <= i < j < |ss| ==> ss[i].target != ss[j].target)
  }

  function WeightOf(ts: set<Timeframe>): nat {
    (if M5 in ts then 27 else 0) + (if M15 in ts then 9 else 0) + (if H1 in ts then 3 else 0) + (if H4 in ts then 1 else 0)
  }

  lemma {:induction false} BudgetWithin(ss: seq<AggSetup>, tf: Timeframe, i: nat)
    requires Stacked(ss) && i <= |ss|
    ensures Budget(ss, tf, i) <= 2 * WeightOf(set k | i <= k < |ss| && ss[k].source == tf :: ss[k].target)
    decreases |ss| - i
  {
    hide WeightOf, Weight;
    if i < |ss| {
      BudgetWithin(ss, tf, i + 1);
      var rest := set k | i + 1 <= k < |ss| && ss[k].source == tf :: ss[k].target;
      var all := set k | i <= k < |ss| && ss[k].source == tf :: ss[k].target;
      if ss[i].source == tf {
        assert all == rest + {ss[i].target};
        OneMoreTarget(rest, ss[i].target);
      } else {
        assert all == rest;
      }
    }
  }

  lemma OneMoreTarget(rest: set<Timeframe>, t: Timeframe)
    requires t !in rest && t != M1
    ensures WeightOf(rest + {t}) == WeightOf(rest) + Weight(t)
  {
  }

  /** A dispatched bar outweighs everything it can put in motion. */
  lemma BudgetBound(ss: seq<AggSetup>, tf: Timeframe)
    requires Stacked(ss)
    ensures Budget(ss, tf, 0) < Weight(tf)
  {
    BudgetWithin(ss, tf, 0);
    var all := set k | 0 <= k < |ss| && ss[k].source == tf :: ss[k].target;
    assert forall t :: t in all ==> tf.Rank() < t.Rank();
  }

  /** `last` has only moved forward. */
  ghost predicate Later(last: map<Timeframe, Instant>, next: map<Timeframe, Instant>) {
    forall tf :: tf in last ==> tf in next && last[tf] <= next[tf]
  }

  lemma {:induction false} PendingLater(last: map<Timeframe, Instant>, next: map<Timeframe, Instant>, ds: seq<Candle>)
    requires Later(last, next)
    ensures Pending(next, ds) <= Pending(last, ds)
  {
    if ds != [] { PendingLater(last, next, ds[1..]); }
  }

  lemma {:induction false} PendingAppend(last: map<Timeframe, Instant>, ds: seq<Candle>, c: Candle)
    ensures Pending(last, ds + [c]) <= Pending(last, ds) + Weight(c.tf)
  {
    if ds == [] {
      assert ds + [c] == [c] && [c][1..] == [];
    } else {
      assert (ds + [c])[1..] == ds[1..] + [c];
      PendingAppend(last, ds[1..], c);
    }
  }

  /** Dispatching a deferred bar takes its weight away. */
  lemma {:induction false} PendingKill(last: map<Timeframe, Instant>, ds: seq<Candle>, c: Candle)
    requires c in ds && IsLive(last, c)
    ensures Pending(last[c.tf := c.openTime], ds) + Weight(c.tf) <= Pending(last, ds)
  {
    var next := last[c.tf := c.openTime];
    PendingLater(last, next, ds[1..]);
    if ds[0] != c { PendingKill(last, ds[1..], c); }
  }

  lemma {:induction false} PendingInsert(last: map<Timeframe, Instant>, c: Candle, ds: seq<Candle>, key: Candle -> int)
    ensures Pending(last, Insert(c, ds, key)) == (if IsLive(last, c) then Weight(c.tf) else 0) + Pending(last, ds)
  {
    if ds == [] {
      assert [c][1..] == [];
    } else if key(c) <= key(ds[0]) {
      assert ([c] + ds)[1..] == ds;
    } else {
      PendingInsert(last, c, ds[1..], key);
      assert ([ds[0]] + Insert(c, ds[1..], key))[1..] == Insert(c, ds[1..], key);
    }
  }

  lemma {:induction false} PendingSort(last: map<Timeframe, Instant>, ds: seq<Candle>, key: Candle -> int)
    ensures Pending(last, Sort(ds, key)) == Pending(last, ds)
  {
    if ds != [] {
      PendingSort(last, ds[1..], key);
      PendingInsert(last, ds[0], Sort(ds[1..], key), key);
    }
  }

  /** The part of a sorted list that stays deferred: bars not before the next gap. */
  function Kept(ds: seq<Candle>, next: Option<GapRecord>): seq<Candle> {
    if ds == [] then []
    else (if Waits(ds[0], next) then [ds[0]] else []) + Kept(ds[1..], next)
  }

  predicate Waits(c: Candle, next: Option<GapRecord>) { next.Some? && next.value.openTime <= c.openTime }

  lemma {:induction false} KeptMembers(ds: seq<Candle>, next: Option<GapRecord>)
    ensures forall i :: 0 <= i < |Kept(ds, next)| ==> Kept(ds, next)[i] in ds
  {
    if ds != [] { KeptMembers(ds[1..], next); }
  }

  lemma {:induction false} PendingKept(last: map<Timeframe, Instant>, ds: seq<Candle>, next: Option<GapRecord>)
    ensures Pending(last, Kept(ds, next)) <= Pending(last, ds)
    ensures forall c :: c in Kept(ds, next) <==> c in ds && Waits(c, next)
  {
    if ds != [] {
      PendingKept(last, ds[1..], next);
      var head := if Waits(ds[0], next) then [ds[0]] else [];
      forall c: Candle ensures c in Kept(ds, next) <==> c in ds && Waits(c, next) {
        assert c in Kept(ds, next) <==> c in head || c in Kept(ds[1..], next);
        assert c in ds <==> c == ds[0] || c in ds[1..];
      }
      if head != [] { assert Kept(ds, next)[0] == ds[0] && Kept(ds, next)[1..] == Kept(ds[1..], next); }
      else { assert Kept(ds, next) == Kept(ds[1..], next); }
    }
  }

  /** Before: at an earlier open time, or at the same one in no higher timeframe. */
  predicate DrainsBefore(c: Candle, d: Candle) {
    c.openTime < d.openTime || (c.openTime == d.openTime && c.tf.Seconds() <= d.tf.Seconds())
  }

  /** Deferred bars are drained in order of open time, and at one open time smaller timeframes first. */
  lemma DrainInOrder(ds: seq<Candle>)
    ensures var list := Sort(ds, DrainKey);
      multiset(list) == multiset(ds) && forall i, j :: 0 <= i < j < |list| ==> DrainsBefore(list[i], list[j])
  {
    hide DrainKey, DrainsBefore;
    SortSorts(ds, DrainKey);
    var list := Sort(ds, DrainKey);
    forall i, j | 0 <= i < j < |list| ensures DrainsBefore(list[i], list[j]) { KeyOrders(list[i], list[j]); }
  }

  lemma KeyOrders(c: Candle, d: Candle)
    requires DrainKey(c) <= DrainKey(d)
    ensures DrainsBefore(c, d)
  {
  }

  // ---------------------------------------------------------------------- the operations

  /** Configuration kept, nothing undispatched, and a deferred bar is only dropped once it is too old to dispatch. */
  ghost predicate Evolves(s: Tower, t: Tower) {
    && s.log <= t.log
    && t.Setups() == s.Setups() && t.primary.Setup() == s.primary.Setup()
    && Later(s.lastClosed, t.lastClosed)
    && forall c :: c in s.deferred ==> c in t.deferred || !t.Live(c)
  }

  function Load(s: Tower): nat { Pending(s.lastClosed, s.deferred) }

  /** The tower as if the bar had just been dispatched. */
  function Mark(s: Tower, c: Candle): Tower {
    if s.Live(c) then s.(lastClosed := s.lastClosed[c.tf := c.openTime], log := s.log + [c]) else s
  }

  function LiveWeight(s: Tower, c: Candle): nat { if s.Live(c) then Weight(c.tf) else 0 }

  /** A result: a gap suspends dispatch, a complete bar is dispatched, or deferred while suspended. */
  function Handle(s: Tower, r: AggResult): (t: Tower)
    requires Stacked(s.Setups()) && r.WellMade()
    ensures Evolves(s, t) && Load(t) <= Load(s) + Weight(r.tf)
    decreases Load(s) + Weight(r.tf), 1, 0
  {
    if r.status == GapDetected || r.candle.None? then
      s.(gaps := s.gaps + [GapRecord(r.tf, r.openTime, r.expected, r.present, r.missing, false)], suspended := true)
    else if s.suspended then
      PendingAppend(s.lastClosed, s.deferred, r.candle.value);
      s.(deferred := s.deferred + [r.candle.value])
    else
      LoadMark(s, r.candle.value);
      Dispatch(s, r.candle.value)
  }

  lemma LoadMark(s: Tower, c: Candle)
    ensures Load(Mark(s, c)) <= Load(s)
    ensures c in s.deferred ==> Load(Mark(s, c)) + LiveWeight(s, c) <= Load(s)
    ensures Evolves(s, Mark(s, c))
  {
    PendingLater(s.lastClosed, Mark(s, c).lastClosed, s.deferred);
    if s.Live(c) && c in s.deferred { PendingKill(s.lastClosed, s.deferred, c); }
  }

  /** Hand a bar to analysis once, in order, and feed it to the aggregators built on its timeframe. */
  function Dispatch(s: Tower, c: Candle): (t: Tower)
    requires Stacked(s.Setups())
    ensures Evolves(s, t) && !t.Live(c)
    ensures Load(t) <= Load(Mark(s, c)) + LiveWeight(s, c)
    ensures s.Live(c) ==> Load(t) < Load(Mark(s, c)) + Weight(c.tf)
    decreases Load(Mark(s, c)) + LiveWeight(s, c), 0, 0
  {
    if !s.Live(c) then s
    else
      BudgetBound(s.Setups(), c.tf);
      LoadMark(s, c);
      assert Mark(s, c).Setups() == s.Setups();
      Feed(Mark(s, c), c, 0)
  }

  lemma EvolvesThen(s: Tower, t: Tower, u: Tower)
    requires Evolves(s, t) && Evolves(t, u)
    ensures Evolves(s, u)
  {
  }

  lemma BudgetStep(s: Tower, tf: Timeframe, i: nat)
    requires i < |s.higher|
    ensures Budget(s.Setups(), tf, i) == (if s.higher[i].source == tf then 2 * Weight(s.higher[i].target) else 0) + Budget(s.Setups(), tf, i + 1)
  {
    assert s.Setups()[i] == s.higher[i].Setup();
  }

  /** Feed a dispatched bar to the aggregators from the `i`th on. */
  function Feed(s: Tower, c: Candle, i: nat): (t: Tower)
    requires Stacked(s.Setups()) && i <= |s.higher|
    ensures Evolves(s, t) && Load(t) <= Load(s) + Budget(s.Setups(), c.tf, i)
    decreases Load(s) + Budget(s.Setups(), c.tf, i), 5, |s.higher| - i
  {
    hide FeedOne, Load;
    if i == |s.higher| then s
    else if s.higher[i].source == c.tf then
      BudgetStep(s, c.tf, i);
      var t := FeedOne(s, c, i);
      var u := Feed(t, c, i + 1);
      EvolvesThen(s, t, u);
      u
    else
      BudgetStep(s, c.tf, i);
      Feed(s, c, i + 1)
  }

  /** One aggregator: handle what it emits, or, when it emits nothing, offer the bar to its gaps. */
  function FeedOne(s: Tower, c: Candle, i: nat): (t: Tower)
    requires Stacked(s.Setups()) && i < |s.higher|
    ensures Evolves(s, t) && Load(t) <= Load(s) + 2 * Weight(s.higher[i].target)
    decreases Load(s) + 2 * Weight(s.higher[i].target), 4, 0
  {
    var (a, rs) := s.higher[i].Add(c);
    var fed := s.(higher := s.higher[i := a]);
    assert fed.Setups() == s.Setups();
    ResultsWeigh(rs, a.target);
    if rs != [] then HandleAll(fed, rs)
    else
      var (b, bar) := a.TryCompleteGap(c);
      var offered := fed.(higher := fed.higher[i := b]);
      assert offered.Setups() == s.Setups();
      if bar.Some? then Repair(offered, bar.value) else offered
  }

  lemma ResultsWeigh(rs: seq<AggResult>, target: Timeframe)
    requires AllFor(rs, target) && |rs| <= 2
    ensures ResultsWeight(rs) <= 2 * Weight(target)
  {
    if |rs| == 1 { assert rs[1..] == []; }
    if |rs| == 2 { assert rs[1..][1..] == []; }
  }

  function HandleAll(s: Tower, rs: seq<AggResult>): (t: Tower)
    requires Stacked(s.Setups())
    requires AllMade(rs)
    ensures Evolves(s, t) && Load(t) <= Load(s) + ResultsWeight(rs)
    decreases Load(s) + ResultsWeight(rs), 3, |rs|
  {
    if rs == [] then s
    else
      var t := Handle(s, rs[0]);
      var u := HandleAll(t, rs[1..]);
      EvolvesThen(s, t, u);
      u
  }

  /** Resolve the matching gap with the bar, dispatch the bar, lift the suspension when no gap is left,
      and drain what no longer waits. Without a matching gap nothing happens. */
  function Repair(s: Tower, c: Candle): (t: Tower)
    requires Stacked(s.Setups())
    ensures Evolves(s, t) && Load(t) <= Load(s) + Weight(c.tf)
    decreases Load(s) + Weight(c.tf), 2, 0
  {
    var k := FindGap(s.gaps, c.tf, c.openTime);
    if k.None? || !c.closed then s
    else
      var resolved := s.(gaps := s.gaps[k.value := s.gaps[k.value].(resolved := true)]);
      assert resolved.Setups() == s.Setups();
      LoadMark(resolved, c);
      var t := Dispatch(resolved, c);
      LiftedLoad(t);
      var u := Drain(Lifted(t));
      EvolvesThen(resolved, t, Lifted(t));
      EvolvesThen(resolved, Lifted(t), u);
      EvolvesThen(s, resolved, u);
      u
  }

  /** Dispatch the deferred bars before the next gap, in order; keep the others. */
  function Drain(s: Tower): (t: Tower)
    requires Stacked(s.Setups())
    ensures Evolves(s, t) && Load(t) <= Load(s)
    decreases Load(s), 2, 0
  {
    var next := s.FirstUnresolved();
    var list := Sort(s.deferred, DrainKey);
    SortMembers(s.deferred, DrainKey);
    var t := DrainList(s, list, next);
    PendingSort(s.lastClosed, s.deferred, DrainKey);
    PendingKept(s.lastClosed, list, next);
    PendingLater(s.lastClosed, t.lastClosed, Kept(list, next));
    t.(deferred := Kept(list, next))
  }

  lemma StillServed(s: Tower, t: Tower, list: seq<Candle>)
    requires Evolves(s, t) && list != [] && forall c :: c in list ==> c in s.deferred || !s.Live(c)
    ensures forall c :: c in list[1..] ==> c in t.deferred || !t.Live(c)
    ensures forall c :: c in list ==> c == list[0] || c in list[1..]
  {
    forall c | c in list[1..] ensures c in t.deferred || !t.Live(c) {
      assert c in list;
    }
  }

  function DrainList(s: Tower, list: seq<Candle>, next: Option<GapRecord>): (t: Tower)
    requires Stacked(s.Setups())
    requires forall c :: c in list ==> c in s.deferred || !s.Live(c)
    ensures Evolves(s, t) && Load(t) <= Load(s)
    ensures forall c :: c in list ==> Waits(c, next) || !t.Live(c)
    decreases Load(s), 1, |list|
  {
    if list == [] then s
    else
      assert list[0] in list;
      LoadMark(s, list[0]);
      var t := if Waits(list[0], next) then s else Dispatch(s, list[0]);
      StillServed(s, t, list);
      var u := DrainList(t, list[1..], next);
      EvolvesThen(s, t, u);
      u
  }

  // ---------------------------------------------------------------------- one step at a time

  lemma DispatchStep(s: Tower, c: Candle)
    requires Stacked(s.Setups())
    ensures Mark(s, c).Setups() == s.Setups()
    ensures Dispatch(s, c) == if s.Live(c) then Feed(Mark(s, c), c, 0) else s
    ensures Budget(s.Setups(), c.tf, 0) < Weight(c.tf)
  {
    BudgetBound(s.Setups(), c.tf);
    LoadMark(s, c);
  }

  lemma HandleGapIs(s: Tower, r: AggResult)
    requires Stacked(s.Setups()) && r.WellMade() && (r.status == GapDetected || r.candle.None?)
    ensures Handle(s, r) == s.(gaps := s.gaps + [GapRecord(r.tf, r.openTime, r.expected, r.present, r.missing, false)], suspended := true)
  {
  }

  lemma HandleBarIs(s: Tower, r: AggResult)
    requires Stacked(s.Setups()) && r.WellMade() && r.status == Complete && r.candle.Some?
    ensures Handle(s, r) == if s.suspended then s.(deferred := s.deferred + [r.candle.value]) else Dispatch(s, r.candle.value)
  {
  }

  lemma HandleAllCons(s: Tower, rs: seq<AggResult>)
    requires Stacked(s.Setups()) && rs != [] && AllMade(rs)
    ensures Handle(s, rs[0]).Setups() == s.Setups() && HandleAll(s, rs) == HandleAll(Handle(s, rs[0]), rs[1..])
  {
  }

  lemma HandleAllNone(s: Tower)
    requires Stacked(s.Setups())
    ensures HandleAll(s, []) == s
  {
  }

  lemma FeedEnd(s: Tower, c: Candle)
    requires Stacked(s.Setups())
    ensures Feed(s, c, |s.higher|) == s
  {
  }

  /** A dispatched bar at one aggregator. */
  function FeedAt(s: Tower, c: Candle, i: nat): (t: Tower)
    requires Stacked(s.Setups()) && i < |s.higher|
    ensures Evolves(s, t)
  {
    if s.higher[i].source == c.tf then FeedOne(s, c, i) else s
  }

  lemma FeedStep(s: Tower, c: Candle, i: nat)
    requires Stacked(s.Setups()) && i < |s.higher|
    ensures var t := FeedAt(s, c, i);
      && t.Setups() == s.Setups() && Feed(s, c, i) == Feed(t, c, i + 1)
      && Load(t) + Budget(s.Setups(), c.tf, i + 1) <= Load(s) + Budget(s.Setups(), c.tf, i)
      && (s.higher[i].source == c.tf ==> 2 * Weight(s.higher[i].target) <= Budget(s.Setups(), c.tf, i))
  {
    assert s.Setups()[i] == s.higher[i].Setup();
  }

  lemma RepairStep(s: Tower, c: Candle, k: nat)
    requires Stacked(s.Setups()) && FindGap(s.gaps, c.tf, c.openTime) == Some(k) && c.closed
    ensures var resolved := s.(gaps := s.gaps[k := s.gaps[k].(resolved := true)]);
      && resolved.Setups() == s.Setups() && Load(resolved) == Load(s)
      && Load(Mark(resolved, c)) + LiveWeight(resolved, c) <= Load(s) + Weight(c.tf)
      && var t := Dispatch(resolved, c);
         t.Setups() == s.Setups() && Lifted(t).Setups() == s.Setups()
         && Load(t) < Load(s) + Weight(c.tf) && Repair(s, c) == Drain(Lifted(t))
  {
    var resolved := s.(gaps := s.gaps[k := s.gaps[k].(resolved := true)]);
    assert resolved.Setups() == s.Setups();
    LoadMark(resolved, c);
    LiftedLoad(Dispatch(resolved, c));
  }

  /** Suspension is lifted once no gap is unresolved. */
  function Lifted(s: Tower): Tower { if s.FirstUnresolved().None? then s.(suspended := false) else s }

  lemma LiftedLoad(s: Tower)
    ensures Lifted(s).Setups() == s.Setups() && Load(Lifted(s)) == Load(s) && Evolves(s, Lifted(s))
  {
    assert Lifted(s).Setups() == s.Setups();
  }

  lemma DrainStep(s: Tower, list: seq<Candle>, next: Option<GapRecord>)
    requires Stacked(s.Setups()) && list != [] && forall c :: c in list ==> c in s.deferred || !s.Live(c)
    ensures Load(Mark(s, list[0])) + LiveWeight(s, list[0]) <= Load(s)
    ensures var t := if Waits(list[0], next) then s else Dispatch(s, list[0]);
      && t.Setups() == s.Setups() && Load(t) <= Load(s)
      && (forall c :: c in list[1..] ==> c in t.deferred || !t.Live(c))
      && DrainList(s, list, next) == DrainList(t, list[1..], next)
  {
    assert list[0] in list;
    LoadMark(s, list[0]);
    StillServed(s, if Waits(list[0], next) then s else Dispatch(s, list[0]), list);
  }

  lemma DrainEnd(s: Tower, next: Option<GapRecord>)
    requires Stacked(s.Setups())
    ensures DrainList(s, [], next) == s && Kept([], next) == []
  {
  }

  lemma DrainIs(s: Tower)
    requires Stacked(s.Setups())
    ensures var list := Sort(s.deferred, DrainKey);
      && (forall c :: c in list <==> c in s.deferred)
      && Drain(s) == DrainList(s, list, s.FirstUnresolved()).(deferred := Kept(list, s.FirstUnresolved()))
  {
    SortMembers(s.deferred, DrainKey);
  }

  // ---------------------------------------------------------------------- entry points

  /** A closed minute at one aggregator. */
  function FeedMinuteOne(s: Tower, m1: Candle, i: nat): (t: Tower)
    requires Stacked(s.Setups()) && i < |s.higher|
    ensures Evolves(s, t)
  {
    if s.higher[i].source == M1 then
      var (a, rs) := s.higher[i].Add(m1);
      var fed := s.(higher := s.higher[i := a]);
      assert fed.Setups() == s.Setups();
      HandleAll(fed, rs)
    else s
  }

  /** The clock at one aggregator. */
  function FlushOne(s: Tower, now: Instant, i: nat): (t: Tower)
    requires Stacked(s.Setups()) && i < |s.higher|
    ensures Evolves(s, t)
  {
    var (a, res) := s.higher[i].FlushAt(now);
    var closed := s.(higher := s.higher[i := a]);
    assert closed.Setups() == s.Setups();
    HandleAll(closed, ToSeq(res))
  }

  /** A closed minute feeds the aggregators built directly on minutes, from the `i`th on. */
  function FeedMinute(s: Tower, m1: Candle, i: nat): (t: Tower)
    requires Stacked(s.Setups()) && i <= |s.higher|
    ensures Evolves(s, t)
    decreases |s.higher| - i
  {
    if i == |s.higher| then s else FeedMinute(FeedMinuteOne(s, m1, i), m1, i + 1)
  }

  /** A closed minute feeds the primary aggregator, or, when that emits nothing, is offered to its gaps. */
  function FeedPrimary(s: Tower, m1: Candle): (t: Tower)
    requires Stacked(s.Setups())
    ensures Evolves(s, t)
  {
    var (a, rs) := s.primary.Add(m1);
    var fed := s.(primary := a);
    assert fed.Setups() == s.Setups();
    if rs != [] then HandleAll(fed, rs)
    else
      var (b, bar) := a.TryCompleteGap(m1);
      var offered := fed.(primary := b);
      assert offered.Setups() == s.Setups();
      if bar.Some? then Repair(offered, bar.value) else offered
  }

  /** A closed minute enters the tower. */
  function OnMinute(s: Tower, m1: Candle): (t: Tower)
    requires Stacked(s.Setups())
    ensures Evolves(s, t)
  {
    FeedPrimary(FeedMinute(s, m1, 0), m1)
  }

  /** The clock closes the primary bucket, then each higher one in turn. */
  function FlushPrimary(s: Tower, now: Instant): (t: Tower)
    requires Stacked(s.Setups())
    ensures Evolves(s, t)
  {
    var (a, res) := s.primary.FlushAt(now);
    var closed := s.(primary := a);
    assert closed.Setups() == s.Setups();
    HandleAll(closed, ToSeq(res))
  }

  function FlushHigher(s: Tower, now: Instant, i: nat): (t: Tower)
    requires Stacked(s.Setups()) && i <= |s.higher|
    ensures Evolves(s, t)
    decreases |s.higher| - i
  {
    if i == |s.higher| then s else FlushHigher(FlushOne(s, now, i), now, i + 1)
  }

  /** The broker's bar replaces a minute still held in an open bucket. */
  function ReplaceMinute(s: Tower, bar: Candle): (t: Tower)
    ensures t.Setups() == s.Setups() && t.primary.Setup() == s.primary.Setup()
  {
    var higher := seq(|s.higher|, i requires 0 <= i < |s.higher| =>
      if s.higher[i].source == M1 then s.higher[i].Replace(bar).0 else s.higher[i]);
    var t := s.(primary := s.primary.Replace(bar).0, higher := higher);
    assert t.Setups() == s.Setups();
    t
  }

  lemma WithPrimary(s: Tower, a: Agg)
    ensures s.(primary := a).Setups() == s.Setups()
  {
    assert s.(primary := a).Setups() == s.Setups();
  }
}
