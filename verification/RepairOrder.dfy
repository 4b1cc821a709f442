/** Repair conservation and order in a tower of one timeframe: every complete bar and every repaired gap
    goes out exactly once and in order, exactly when gaps are repaired oldest first. */
module RepairOrder {
  import opened Timeline
  import opened Candles
  import opened Aggregation
  import opened AggregationLaws
  import opened Sorting
  import opened Sequences
  import opened Tower
  import opened TowerLaws

  // ---------------------------------------------------------------- ordered lists

  ghost predicate GapsIncrease(gaps: seq<GapRecord>) { forall i, j :: 0 <= i < j < |gaps| ==> gaps[i].openTime < gaps[j].openTime }

  ghost predicate AllBefore(cs: seq<Candle>, t: Instant) { forall i :: 0 <= i < |cs| ==> cs[i].openTime < t }

  ghost predicate AllAfter(cs: seq<Candle>, t: Instant) { forall i :: 0 <= i < |cs| ==> t < cs[i].openTime }

  ghost predicate AllOf(cs: seq<Candle>, tf: Timeframe) { forall i :: 0 <= i < |cs| ==> cs[i].tf == tf }

  ghost predicate GapsBefore(gaps: seq<GapRecord>, t: Instant) { forall i :: 0 <= i < |gaps| ==> gaps[i].openTime < t }

  /** No bar opens where a gap does. */
  ghost predicate Apart(cs: seq<Candle>, gaps: seq<GapRecord>) {
    forall i, j :: 0 <= i < |cs| && 0 <= j < |gaps| ==> cs[i].openTime != gaps[j].openTime
  }

  ghost function Opens(cs: seq<Candle>): set<Instant> { set i | 0 <= i < |cs| :: cs[i].openTime }

  ghost function Unresolved(gaps: seq<GapRecord>): set<Instant> { set i | 0 <= i < |gaps| && !gaps[i].resolved :: gaps[i].openTime }

  lemma OpensConcat(a: seq<Candle>, b: seq<Candle>)
    ensures Opens(a + b) == Opens(a) + Opens(b)
  {
    forall t | t in Opens(b) ensures t in Opens(a + b) {
      var i :| 0 <= i < |b| && b[i].openTime == t;
      assert (a + b)[|a| + i].openTime == t;
    }
    forall t | t in Opens(a) ensures t in Opens(a + b) {
      var i :| 0 <= i < |a| && a[i].openTime == t;
      assert (a + b)[i].openTime == t;
    }
  }

  lemma OpensOne(c: Candle)
    ensures Opens([c]) == {c.openTime}
  {
    assert [c][0] == c;
  }

  ghost predicate Cross(a: seq<Candle>, b: seq<Candle>) {
    forall i, j :: 0 <= i < |a| && 0 <= j < |b| ==> a[i].openTime < b[j].openTime
  }

  lemma SortedSplit(a: seq<Candle>, b: seq<Candle>)
    requires SortedByOpen(a + b)
    ensures SortedByOpen(a) && SortedByOpen(b) && Cross(a, b)
  {
    var ab := a + b;
    assert forall i :: 0 <= i < |a| ==> ab[i] == a[i];
    assert forall i :: 0 <= i < |b| ==> ab[|a| + i] == b[i];
  }

  lemma SortedJoin(a: seq<Candle>, b: seq<Candle>)
    requires SortedByOpen(a) && SortedByOpen(b) && Cross(a, b)
    ensures SortedByOpen(a + b)
  {
  }

  lemma SortedInsert(a: seq<Candle>, c: Candle, b: seq<Candle>)
    requires SortedByOpen(a + b) && AllBefore(a, c.openTime) && AllAfter(b, c.openTime)
    ensures SortedByOpen(a + [c] + b)
  {
    SortedSplit(a, b);
    SortedJoin(a, [c]);
    SortedJoin(a + [c], b);
  }

  // ------------------------------------------------------------------- gap lists

  lemma {:induction false} FirstOpenFacts(gaps: seq<GapRecord>)
    ensures FirstOpen(gaps).Some? ==> exists i :: 0 <= i < |gaps| && gaps[i] == FirstOpen(gaps).value && !gaps[i].resolved
                                                  && forall j :: 0 <= j < i ==> gaps[j].resolved
    ensures FirstOpen(gaps).None? ==> forall i :: 0 <= i < |gaps| ==> gaps[i].resolved
  {
    if gaps != [] {
      if gaps[0].resolved {
        FirstOpenFacts(gaps[1..]);
        if FirstOpen(gaps).Some? {
          var i :| 0 <= i < |gaps[1..]| && gaps[1..][i] == FirstOpen(gaps).value && !gaps[1..][i].resolved && forall j :: 0 <= j < i ==> gaps[1..][j].resolved;
          assert gaps[i + 1] == gaps[1..][i];
          forall j | 0 <= j < i + 1 ensures gaps[j].resolved { assert j > 0 ==> gaps[j] == gaps[1..][j - 1]; }
        } else {
          forall i | 0 <= i < |gaps| ensures gaps[i].resolved { assert i > 0 ==> gaps[i] == gaps[1..][i - 1]; }
        }
      } else {
        assert gaps[0] == FirstOpen(gaps).value;
      }
    }
  }

  /** In an increasing list the first unresolved gap is the oldest one. */
  lemma FirstIsOldest(gaps: seq<GapRecord>, i: nat)
    requires GapsIncrease(gaps) && i < |gaps| && !gaps[i].resolved
    ensures FirstOpen(gaps).Some? && FirstOpen(gaps).value.openTime <= gaps[i].openTime
    ensures FirstOpen(gaps).value.openTime in Unresolved(gaps)
  {
    FirstOpenFacts(gaps);
    var k :| 0 <= k < |gaps| && gaps[k] == FirstOpen(gaps).value && !gaps[k].resolved && forall j :: 0 <= j < k ==> gaps[j].resolved;
  }

  lemma {:induction false} FirstOpenAppend(gaps: seq<GapRecord>, g: GapRecord)
    requires !g.resolved
    ensures FirstOpen(gaps + [g]) == if FirstOpen(gaps).Some? then FirstOpen(gaps) else Some(g)
    ensures Unresolved(gaps + [g]) == Unresolved(gaps) + {g.openTime}
  {
    var more := gaps + [g];
    forall t | t in Unresolved(gaps) + {g.openTime} ensures t in Unresolved(more) {
      if t == g.openTime {
        assert more[|gaps|] == g;
      } else {
        var i :| 0 <= i < |gaps| && !gaps[i].resolved && gaps[i].openTime == t;
        assert more[i] == gaps[i];
      }
    }
    if gaps == [] {
      assert more == [g];
    } else {
      assert more[1..] == gaps[1..] + [g];
      FirstOpenAppend(gaps[1..], g);
    }
  }

  function Resolve(gaps: seq<GapRecord>, k: nat): seq<GapRecord>
    requires k < |gaps|
  {
    gaps[k := gaps[k].(resolved := true)]
  }

  /** Resolving the oldest gap of an increasing list leaves only younger ones. */
  lemma ResolveOldest(gaps: seq<GapRecord>, k: nat)
    requires GapsIncrease(gaps) && k < |gaps| && !gaps[k].resolved && FirstOpen(gaps).Some? && FirstOpen(gaps).value.openTime == gaps[k].openTime
    ensures GapsIncrease(Resolve(gaps, k))
    ensures Unresolved(Resolve(gaps, k)) == Unresolved(gaps) - {gaps[k].openTime} && gaps[k].openTime in Unresolved(gaps)
    ensures FirstOpen(Resolve(gaps, k)).Some? ==> gaps[k].openTime < FirstOpen(Resolve(gaps, k)).value.openTime
    ensures FirstOpen(Resolve(gaps, k)).Some? ==> exists i :: 0 <= i < |gaps| && gaps[i] == FirstOpen(Resolve(gaps, k)).value
  {
    hide FirstOpen;
    var next := Resolve(gaps, k);
    forall t | t in Unresolved(gaps) - {gaps[k].openTime} ensures t in Unresolved(next) {
      var i :| 0 <= i < |gaps| && !gaps[i].resolved && gaps[i].openTime == t;
      assert next[i] == gaps[i];
    }
    FirstOpenFacts(next);
    if FirstOpen(next).Some? {
      var i :| 0 <= i < |next| && next[i] == FirstOpen(next).value && !next[i].resolved;
      assert next[i] == gaps[i];
      FirstIsOldest(gaps, i);
    }
  }

  // ------------------------------------------------------------------- the invariant

  /** A tower of one timeframe. */
  ghost predicate OneFrame(s: Tower) {
    && s.higher == [] && s.primary.Valid()
    && AllOf(s.log, s.primary.target) && AllOf(s.deferred, s.primary.target)
    && forall i :: 0 <= i < |s.gaps| ==> s.gaps[i].tf == s.primary.target
  }

  /** The last closed time is the last dispatched bar's. */
  ghost predicate Marked(s: Tower) {
    if s.log == [] then s.primary.target !in s.lastClosed
    else s.primary.target in s.lastClosed && s.lastClosed[s.primary.target] == s.log[|s.log| - 1].openTime
  }

  /** Dispatched bars before the oldest open gap, deferred bars behind it; nothing deferred without one. */
  ghost predicate AroundGap(s: Tower) {
    match s.FirstUnresolved()
    case Some(g) => s.suspended && AllBefore(s.log, g.openTime) && AllAfter(s.deferred, g.openTime)
    case None => !s.suspended && s.deferred == []
  }

  ghost predicate Ordered(s: Tower) {
    && OneFrame(s) && Marked(s) && SortedByOpen(s.log + s.deferred) && GapsIncrease(s.gaps)
    && Apart(s.deferred, s.gaps) && AroundGap(s)
  }

  /** Everything the tower knows of opens before `t`. */
  ghost predicate Before(s: Tower, t: Instant) { AllBefore(s.log + s.deferred, t) && GapsBefore(s.gaps, t) }

  /** Everything the tower still answers for: dispatched, deferred, or an open gap. */
  ghost function Answered(s: Tower): set<Instant> { Opens(s.log + s.deferred) + Unresolved(s.gaps) }

  /** No bar that opens at or after an unresolved gap has been dispatched. */
  ghost predicate NothingPastGap(s: Tower) {
    forall i, k :: 0 <= i < |s.log| && 0 <= k < |s.gaps| && !s.gaps[k].resolved ==> s.log[i].openTime < s.gaps[k].openTime
  }

  lemma OrderedNothingPastGap(s: Tower)
    requires Ordered(s)
    ensures NothingPastGap(s) && SortedByOpen(s.log)
  {
    forall i, k | 0 <= i < |s.log| && 0 <= k < |s.gaps| && !s.gaps[k].resolved ensures s.log[i].openTime < s.gaps[k].openTime {
      FirstIsOldest(s.gaps, k);
    }
    assert forall i :: 0 <= i < |s.log| ==> (s.log + s.deferred)[i] == s.log[i];
  }

  /** A bar after everything dispatched can be dispatched. */
  lemma NewIsLive(s: Tower, c: Candle)
    requires Marked(s) && c.tf == s.primary.target && AllBefore(s.log, c.openTime)
    ensures s.Live(c)
  {
  }

  /** With one timeframe, dispatching is marking. */
  lemma DispatchIsMark(s: Tower, c: Candle)
    requires s.higher == [] && Stacked(s.Setups())
    ensures Dispatch(s, c) == Mark(s, c)
  {
    if s.Live(c) { BudgetBound(s.Setups(), c.tf); }
  }

  // --------------------------------------------------------------------- handling

  /** A bar newer than everything is dispatched, or deferred behind the open gap. */
  lemma HandleBar(s: Tower, r: AggResult)
    requires Ordered(s) && Stacked(s.Setups()) && Before(s, r.openTime) && r.status == Complete && r.candle.Some?
    requires r.tf == s.primary.target && r.WellMade() && r.candle.value.openTime == r.openTime
    ensures var t := Handle(s, r);
      && Ordered(t) && t.log + t.deferred == s.log + s.deferred + [r.candle.value] && t.gaps == s.gaps && t.primary == s.primary
  {
    hide Load, GapsIncrease, Timeframe.Rank, Evolves, Tower.Live, Feed;
    var c := r.candle.value;
    var line := s.log + s.deferred;
    HandleBarIs(s, r);
    hide Handle, Dispatch;
    assert line + [] == line;
    SortedInsert(line, c, []);
    assert line + [c] + [] == line + [c];
    if s.suspended {
      assert s.log + (s.deferred + [c]) == line + [c];
      FirstOpenFacts(s.gaps);
      assert forall i :: 0 <= i < |s.deferred| ==> (s.deferred + [c])[i] == s.deferred[i];
    } else {
      assert line == s.log;
      NewIsLive(s, c);
      DispatchIsMark(s, c);
      assert s.log + [c] + [] == s.log + [c];
    }
  }

  /** A gap newer than everything suspends dispatch. */
  lemma HandleGap(s: Tower, r: AggResult)
    requires Ordered(s) && Stacked(s.Setups()) && Before(s, r.openTime) && r.status == GapDetected
    requires r.tf == s.primary.target && r.WellMade()
    ensures var t := Handle(s, r); var gap := GapRecord(r.tf, r.openTime, r.expected, r.present, r.missing, false);
      Ordered(t) && t.log + t.deferred == s.log + s.deferred && t.gaps == s.gaps + [gap] && t.primary == s.primary
  {
    var gap := GapRecord(r.tf, r.openTime, r.expected, r.present, r.missing, false);
    HandleGapIs(s, r);
    hide Handle, FirstOpen;
    FirstOpenAppend(s.gaps, gap);
    var line := s.log + s.deferred;
    assert forall i :: 0 <= i < |s.log| ==> line[i] == s.log[i];
    assert forall i :: 0 <= i < |s.deferred| ==> line[|s.log| + i] == s.deferred[i];
  }

  /** The bars and gaps of a list of results. */
  function Bars(rs: seq<AggResult>): seq<Candle> {
    if rs == [] then [] else (if rs[0].status == Complete && rs[0].candle.Some? then [rs[0].candle.value] else []) + Bars(rs[1..])
  }

  ghost function ResultOpens(rs: seq<AggResult>): set<Instant> { set i | 0 <= i < |rs| :: rs[i].openTime }

  /** A result of the primary aggregator that is newer than everything the tower knows. */
  ghost predicate NextResult(s: Tower, r: AggResult) {
    && r.tf == s.primary.target && Before(s, r.openTime)
    && (r.status == Complete ==> r.candle.Some?)
    && r.WellMade() && (r.candle.Some? ==> r.candle.value.openTime == r.openTime)
  }

  /** Handling one result keeps the order and answers for exactly that result besides. */
  lemma HandleOrdered(s: Tower, r: AggResult)
    requires Ordered(s) && Stacked(s.Setups()) && NextResult(s, r)
    ensures var t := Handle(s, r);
      && Ordered(t) && t.primary == s.primary && t.log + t.deferred == s.log + s.deferred + Bars([r])
      && Answered(t) == Answered(s) + {r.openTime}
      && forall later :: r.openTime < later ==> Before(t, later)
  {
    hide Handle, Ordered, Before, Answered;
    assert [r][1..] == [] && Bars([]) == [];
    if r.status == Complete {
      HandleBar(s, r);
      AnsweredBar(s, Handle(s, r), r.candle.value);
      assert Bars([r]) == [r.candle.value];
    } else {
      HandleGap(s, r);
      AnsweredGap(s, Handle(s, r), GapRecord(r.tf, r.openTime, r.expected, r.present, r.missing, false));
      assert Bars([r]) == [];
      assert s.log + s.deferred + [] == s.log + s.deferred;
    }
  }

  lemma AnsweredBar(s: Tower, t: Tower, c: Candle)
    requires t.log + t.deferred == s.log + s.deferred + [c] && t.gaps == s.gaps && Before(s, c.openTime)
    ensures Answered(t) == Answered(s) + {c.openTime} && forall later :: c.openTime < later ==> Before(t, later)
  {
    OpensConcat(s.log + s.deferred, [c]);
    OpensOne(c);
    BeforeMore(s.log + s.deferred, s.gaps, [c], [], c.openTime);
    assert s.gaps + [] == s.gaps;
  }

  lemma AnsweredGap(s: Tower, t: Tower, gap: GapRecord)
    requires t.log + t.deferred == s.log + s.deferred && t.gaps == s.gaps + [gap] && Before(s, gap.openTime) && !gap.resolved
    ensures Answered(t) == Answered(s) + {gap.openTime} && forall later :: gap.openTime < later ==> Before(t, later)
  {
    FirstOpenAppend(s.gaps, gap);
    BeforeMore(s.log + s.deferred, s.gaps, [], [gap], gap.openTime);
    assert s.log + s.deferred + [] == s.log + s.deferred;
  }

  lemma BeforeMore(line: seq<Candle>, gaps: seq<GapRecord>, cs: seq<Candle>, gs: seq<GapRecord>, t: Instant)
    requires AllBefore(line, t) && GapsBefore(gaps, t)
    requires (forall i :: 0 <= i < |cs| ==> cs[i].openTime == t) && (forall i :: 0 <= i < |gs| ==> gs[i].openTime == t)
    ensures forall later :: t < later ==> AllBefore(line + cs, later) && GapsBefore(gaps + gs, later)
  {
  }

  /** Results newer than everything known, in increasing order. */
  ghost predicate NextResults(s: Tower, rs: seq<AggResult>) {
    && (forall i :: 0 <= i < |rs| ==> NextResult(s, rs[i]))
    && forall i, j :: 0 <= i < j < |rs| ==> rs[i].openTime < rs[j].openTime
  }

  /** From `s` to `t` the tower has taken in exactly these bars and answers for exactly these opens besides. */
  ghost predicate TookIn(s: Tower, t: Tower, bars: seq<Candle>, opens: set<Instant>) {
    && Ordered(t) && t.primary == s.primary && t.Setups() == s.Setups()
    && t.log + t.deferred == s.log + s.deferred + bars && Answered(t) == Answered(s) + opens
  }

  lemma TookInThen(s: Tower, t: Tower, u: Tower, bars: seq<Candle>, more: seq<Candle>, opens: set<Instant>, others: set<Instant>)
    requires TookIn(s, t, bars, opens) && TookIn(t, u, more, others)
    ensures TookIn(s, u, bars + more, opens + others)
  {
    hide Ordered, Answered;
    Associate(s.log + s.deferred, bars, more);
  }

  lemma TookInNothing(s: Tower)
    requires Ordered(s)
    ensures TookIn(s, s, [], {}) && Bars([]) == [] && ResultOpens([]) == {}
  {
    assert s.log + s.deferred + [] == s.log + s.deferred;
  }

  lemma TookInCons(s: Tower, t: Tower, u: Tower, rs: seq<AggResult>)
    requires rs != [] && TookIn(s, t, Bars([rs[0]]), {rs[0].openTime}) && TookIn(t, u, Bars(rs[1..]), ResultOpens(rs[1..]))
    ensures TookIn(s, u, Bars(rs), ResultOpens(rs))
  {
    BarsCons(rs);
    ResultOpensCons(rs);
    TookInThen(s, t, u, Bars([rs[0]]), Bars(rs[1..]), {rs[0].openTime}, ResultOpens(rs[1..]));
  }

  /** Everything the tower knows is at most `t`. */
  ghost predicate UpTo(s: Tower, t: Instant) { forall later :: t < later ==> Before(s, later) }

  lemma HandleTakesIn(s: Tower, r: AggResult)
    requires Ordered(s) && Stacked(s.Setups()) && NextResult(s, r)
    ensures TookIn(s, Handle(s, r), Bars([r]), {r.openTime}) && UpTo(Handle(s, r), r.openTime)
  {
    HandleOrdered(s, r);
  }

  lemma {:induction false} HandleAllOrdered(s: Tower, rs: seq<AggResult>)
    requires Ordered(s) && Stacked(s.Setups()) && NextResults(s, rs) && AllMade(rs)
    ensures TookIn(s, HandleAll(s, rs), Bars(rs), ResultOpens(rs))
    ensures rs != [] ==> UpTo(HandleAll(s, rs), rs[|rs| - 1].openTime)
    decreases |rs|
  {
    hide Handle, HandleAll, Ordered, Before, Answered, Bars, ResultOpens, Stacked;
    if rs == [] {
      TookInNothing(s);
      HandleAllNone(s);
    } else {
      assert NextResult(s, rs[0]);
      HandleTakesIn(s, rs[0]);
      HandleAllCons(s, rs);
      var t := Handle(s, rs[0]);
      NextAfter(s, t, rs);
      HandleAllOrdered(t, rs[1..]);
      TookInCons(s, t, HandleAll(t, rs[1..]), rs);
      if |rs| == 1 { HandleAllNone(t); }
    }
  }

  lemma NextAfter(s: Tower, t: Tower, rs: seq<AggResult>)
    requires rs != [] && NextResults(s, rs) && t.primary == s.primary
    requires UpTo(t, rs[0].openTime)
    ensures NextResults(t, rs[1..])
  {
    forall i | 0 <= i < |rs[1..]| ensures NextResult(t, rs[1..][i]) { assert NextResult(s, rs[i + 1]); }
  }

  lemma BarsCons(rs: seq<AggResult>)
    requires rs != []
    ensures Bars(rs) == Bars([rs[0]]) + Bars(rs[1..])
  {
    assert [rs[0]][1..] == [] && Bars([]) == [];
  }

  lemma ResultOpensCons(rs: seq<AggResult>)
    requires rs != []
    ensures ResultOpens(rs) == {rs[0].openTime} + ResultOpens(rs[1..])
  {
    forall t | t in ResultOpens(rs) ensures t in {rs[0].openTime} + ResultOpens(rs[1..]) {
      var i :| 0 <= i < |rs| && rs[i].openTime == t;
      assert i > 0 ==> rs[1..][i - 1] == rs[i];
    }
    forall t | t in ResultOpens(rs[1..]) ensures t in ResultOpens(rs) {
      var i :| 0 <= i < |rs[1..]| && rs[1..][i].openTime == t;
      assert rs[i + 1].openTime == t;
    }
  }

  // ---------------------------------------------------------------------- draining

  /** The part of a list that a drain dispatches. */
  function Passed(ds: seq<Candle>, next: Option<GapRecord>): seq<Candle> {
    if ds == [] then [] else (if Waits(ds[0], next) then [] else [ds[0]]) + Passed(ds[1..], next)
  }

  lemma {:induction false} AllWaiting(ds: seq<Candle>, next: Option<GapRecord>)
    requires forall i :: 0 <= i < |ds| ==> Waits(ds[i], next)
    ensures Passed(ds, next) == [] && Kept(ds, next) == ds
  {
    if ds != [] { AllWaiting(ds[1..], next); }
  }

  /** In an ordered list what passes is a prefix and what waits is the rest. */
  lemma {:induction false} SplitPoint(ds: seq<Candle>, next: Option<GapRecord>) returns (n: nat)
    requires SortedByOpen(ds)
    ensures n <= |ds| && Passed(ds, next) == ds[..n] && Kept(ds, next) == ds[n..]
    ensures forall i :: 0 <= i < n ==> !Waits(ds[i], next)
    ensures forall i :: n <= i < |ds| ==> Waits(ds[i], next)
  {
    if ds == [] || Waits(ds[0], next) {
      AllWaiting(ds, next);
      n := 0;
    } else {
      var rest := ds[1..];
      assert forall i :: 0 <= i < |rest| ==> rest[i] == ds[i + 1];
      var m := SplitPoint(rest, next);
      n := m + 1;
      assert ds[..n] == [ds[0]] + rest[..m] && ds[n..] == rest[m..];
      EmptyLeft(Kept(rest, next));
      forall i | 0 <= i < |ds| ensures Waits(ds[i], next) <==> n <= i {
        assert i > 0 ==> ds[i] == rest[i - 1];
      }
    }
  }

  lemma {:induction false} DrainNothing(s: Tower, list: seq<Candle>, next: Option<GapRecord>)
    requires Stacked(s.Setups())
    requires forall c :: c in list ==> c in s.deferred || !s.Live(c)
    requires forall i :: 0 <= i < |list| ==> Waits(list[i], next)
    ensures DrainList(s, list, next) == s
    decreases |list|
  {
    if list != [] {
      assert list[0] in list;
      LoadMark(s, list[0]);
      StillServed(s, s, list);
      DrainNothing(s, list[1..], next);
    }
  }

  /** Dispatching the head of an ordered list. */
  lemma DrainOne(s: Tower, list: seq<Candle>)
    requires s.higher == [] && Stacked(s.Setups()) && Marked(s) && SortedByOpen(s.log + list) && AllOf(list, s.primary.target) && list != []
    requires forall c :: c in list ==> c in s.deferred || !s.Live(c)
    ensures var t := Dispatch(s, list[0]);
      && t == s.(log := s.log + [list[0]], lastClosed := t.lastClosed) && Marked(t)
      && SortedByOpen(t.log + list[1..]) && AllOf(list[1..], s.primary.target)
      && forall c :: c in list[1..] ==> c in t.deferred || !t.Live(c)
  {
    var c := list[0];
    SortedSplit(s.log, list);
    DispatchIsMark(s, c);
    NewIsLive(s, c);
    LoadMark(s, c);
    StillServed(s, Mark(s, c), list);
    assert s.log + list == s.log + [c] + list[1..];
  }

  /** From `s` to `t` the passing part of the list has been dispatched, and nothing else happened. */
  ghost predicate DrainedTo(s: Tower, list: seq<Candle>, next: Option<GapRecord>, t: Tower) {
    t == s.(log := s.log + Passed(list, next), lastClosed := t.lastClosed) && Marked(t)
  }

  lemma DrainedMore(s: Tower, list: seq<Candle>, next: Option<GapRecord>, t: Tower, u: Tower)
    requires list != [] && !Waits(list[0], next)
    requires t == s.(log := s.log + [list[0]], lastClosed := t.lastClosed) && DrainedTo(t, list[1..], next, u)
    ensures DrainedTo(s, list, next, u)
  {
    Associate(s.log, [list[0]], Passed(list[1..], next));
  }

  /** Draining bars newer than everything dispatched appends them to the log, in order. */
  lemma {:induction false} DrainListAppends(s: Tower, list: seq<Candle>, next: Option<GapRecord>)
    requires s.higher == [] && Stacked(s.Setups()) && Marked(s) && SortedByOpen(s.log + list) && AllOf(list, s.primary.target)
    requires forall c :: c in list ==> c in s.deferred || !s.Live(c)
    ensures DrainedTo(s, list, next, DrainList(s, list, next))
    decreases |list|
  {
    if list == [] || Waits(list[0], next) {
      SortedSplit(s.log, list);
      DrainNothing(s, list, next);
      AllWaiting(list, next);
      EmptyRight(s.log);
    } else {
      DrainStep(s, list, next);
      DrainOne(s, list);
      var t := Dispatch(s, list[0]);
      hide Dispatch, DrainList, DrainedTo, SortedByOpen, AllOf, Marked;
      DrainListAppends(t, list[1..], next);
      DrainedMore(s, list, next, t, DrainList(t, list[1..], next));
    }
  }

  lemma DrainOrdered(s: Tower)
    requires s.higher == [] && Stacked(s.Setups()) && Marked(s) && SortedByOpen(s.log + s.deferred) && AllOf(s.deferred, s.primary.target)
    ensures var t := Drain(s); var next := s.FirstUnresolved();
      t == s.(log := s.log + Passed(s.deferred, next), deferred := Kept(s.deferred, next), lastClosed := t.lastClosed) && Marked(t)
  {
    hide Evolves;
    SortedSplit(s.log, s.deferred);
    SortSorted(s.deferred, DrainKey);
    DrainListAppends(s, s.deferred, s.FirstUnresolved());
  }

  // --------------------------------------------------------------------- repairing

  /** The gap that opens at `t` is the oldest one unresolved. */
  predicate Oldest(s: Tower, t: Instant) { s.FirstUnresolved().Some? && s.FirstUnresolved().value.openTime == t }

  /** The bar answers an unresolved gap. */
  predicate Answers(s: Tower, c: Candle) { c.closed && FindGap(s.gaps, c.tf, c.openTime).Some? }

  function Resolved(s: Tower, c: Candle): Tower
    requires Answers(s, c)
  {
    s.(gaps := Resolve(s.gaps, FindGap(s.gaps, c.tf, c.openTime).value))
  }

  /** Repair of the oldest gap, spelled out: its bar and what passes the next gap are dispatched. */
  ghost predicate RepairedTo(s: Tower, c: Candle, u: Tower)
    requires Answers(s, c)
  {
    var next := FirstOpen(Resolved(s, c).gaps);
    && u == s.(gaps := Resolved(s, c).gaps, suspended := next.Some?, lastClosed := u.lastClosed,
               log := s.log + [c] + Passed(s.deferred, next), deferred := Kept(s.deferred, next))
    && Marked(u)
  }

  lemma RepairShape(s: Tower, c: Candle)
    requires Ordered(s) && Stacked(s.Setups()) && Answers(s, c) && Oldest(s, c.openTime)
    ensures RepairedTo(s, c, Repair(s, c))
  {
    var resolved := Resolved(s, c);
    assert resolved.Setups() == s.Setups();
    LoadMark(resolved, c);
    DispatchIsMark(resolved, c);
    NewIsLive(s, c);
    SortedInsert(s.log, c, s.deferred);
    var t := Mark(resolved, c);
    var lifted := if t.FirstUnresolved().None? then t.(suspended := false) else t;
    assert lifted.Setups() == s.Setups();
    DrainOrdered(lifted);
  }

  /** OLDEST FIRST: repairing the oldest gap keeps the order, dispatches its bar and everything behind it
      up to the next gap, and loses nothing. */
  lemma RepairOldest(s: Tower, c: Candle)
    requires Ordered(s) && Stacked(s.Setups()) && Answers(s, c) && Oldest(s, c.openTime)
    ensures Ordered(Repair(s, c)) && Answered(Repair(s, c)) == Answered(s)
    ensures Repair(s, c).log + Repair(s, c).deferred == s.log + [c] + s.deferred
    ensures Repair(s, c).primary == s.primary && Repair(s, c).Setups() == s.Setups()
    ensures Repair(s, c).gaps == Resolved(s, c).gaps
  {
    RepairShape(s, c);
    RepairedOrdered(s, c, Repair(s, c));
  }

  lemma RepairedOrdered(s: Tower, c: Candle, u: Tower)
    requires Ordered(s) && Answers(s, c) && Oldest(s, c.openTime) && RepairedTo(s, c, u)
    ensures Ordered(u) && Answered(u) == Answered(s) && u.log + u.deferred == s.log + [c] + s.deferred
    ensures u.primary == s.primary && u.Setups() == s.Setups()
  {
    hide SortedByOpen, FirstOpen, OneFrame, Kept, GapsIncrease, Unresolved, Marked, Opens;
    var k := FindGap(s.gaps, c.tf, c.openTime).value;
    SortedSplit(s.log, s.deferred);
    ResolveOldest(s.gaps, k);
    SortedInsert(s.log, c, s.deferred);
    RepairedLine(s, c, u);
    ResolvedGapFacts(s, c);
    RepairedApart(s, c, u);
    OpensConcat(s.log + [c], s.deferred);
    OpensConcat(s.log, [c]);
    OpensOne(c);
    OpensConcat(s.log, s.deferred);
  }

  lemma RepairedLine(s: Tower, c: Candle, u: Tower)
    requires Answers(s, c) && RepairedTo(s, c, u) && SortedByOpen(s.deferred)
    ensures u.log + u.deferred == s.log + [c] + s.deferred
  {
    var n := SplitPoint(s.deferred, FirstOpen(Resolved(s, c).gaps));
    hide Resolved, Passed, Kept, FirstOpen, SortedByOpen, Marked;
    Associate(s.log + [c], s.deferred[..n], s.deferred[n..]);
    assert s.deferred == s.deferred[..n] + s.deferred[n..];
  }

  /** What stays deferred is behind the next gap and apart from every gap. */
  lemma RepairedApart(s: Tower, c: Candle, u: Tower)
    requires Answers(s, c) && RepairedTo(s, c, u) && SortedByOpen(s.deferred) && OneFrame(s)
    requires Apart(s.deferred, u.gaps) && FreeOf(s, c, FirstOpen(u.gaps))
    ensures Apart(u.deferred, u.gaps) && AroundGap(u) && OneFrame(u)
  {
    hide Marked, Kept, Passed;
    var next := FirstOpen(u.gaps);
    var n := SplitPoint(s.deferred, next);
    assert u.log == s.log + [c] + s.deferred[..n] && u.deferred == s.deferred[n..];
    assert u.FirstUnresolved() == next;
    assert n < |s.deferred| ==> Waits(s.deferred[n], next);
  }

  /** The bar and all dispatched ones are before the next gap, and no deferred bar opens where it does. */
  ghost predicate FreeOf(s: Tower, c: Candle, next: Option<GapRecord>) {
    next.Some? ==>
      && AllBefore(s.log, next.value.openTime) && c.openTime < next.value.openTime
      && forall i :: 0 <= i < |s.deferred| ==> s.deferred[i].openTime != next.value.openTime
  }

  lemma ResolvedGapFacts(s: Tower, c: Candle)
    requires Ordered(s) && Answers(s, c) && Oldest(s, c.openTime)
    ensures Apart(s.deferred, Resolved(s, c).gaps) && FreeOf(s, c, FirstOpen(Resolved(s, c).gaps))
  {
    var k := FindGap(s.gaps, c.tf, c.openTime).value;
    ResolveOldest(s.gaps, k);
    var next := FirstOpen(Resolved(s, c).gaps);
    if next.Some? {
      var j :| 0 <= j < |s.gaps| && s.gaps[j] == next.value;
      assert forall i :: 0 <= i < |s.deferred| ==> s.deferred[i].openTime != s.gaps[j].openTime;
    }
  }

  // ------------------------------------------------------------- out of order

  /** With one timeframe a drain leaves the gaps alone and only moves deferred bars to the log. */
  lemma {:induction false} DrainOnlyMoves(s: Tower, list: seq<Candle>, next: Option<GapRecord>)
    requires s.higher == [] && Stacked(s.Setups())
    requires forall c :: c in list ==> c in s.deferred || !s.Live(c)
    ensures var t := DrainList(s, list, next);
      t.gaps == s.gaps && t.higher == [] && t.deferred == s.deferred && t.suspended == s.suspended
      && forall c :: c in t.log ==> c in s.log || c in list
    decreases |list|
  {
    if list != [] {
      var c := list[0];
      assert c in list;
      LoadMark(s, c);
      DispatchIsMark(s, c);
      var t := if Waits(c, next) then s else Dispatch(s, c);
      StillServed(s, t, list);
      DrainOnlyMoves(t, list[1..], next);
    }
  }

  lemma DrainMoves(s: Tower)
    requires s.higher == [] && Stacked(s.Setups())
    ensures var t := Drain(s);
      && t.gaps == s.gaps && t.higher == [] && s.log <= t.log
      && (forall c :: c in t.log ==> c in s.log || c in s.deferred)
      && forall c :: c in t.deferred ==> c in s.deferred
  {
    var list, next := Sort(s.deferred, DrainKey), s.FirstUnresolved();
    SortMembers(s.deferred, DrainKey);
    DrainOnlyMoves(s, list, next);
    PendingKept(s.lastClosed, list, next);
  }

  /** Any repair, of whatever gap: the bar is dispatched if it is newer than the log, otherwise dropped. */
  lemma RepairMoves(s: Tower, c: Candle)
    requires s.higher == [] && Stacked(s.Setups()) && Answers(s, c)
    ensures var u := Repair(s, c);
      && u.gaps == Resolved(s, c).gaps && u.higher == []
      && (s.Live(c) ==> s.log + [c] <= u.log) && !u.Live(c)
      && (forall d :: d in u.log ==> d in s.log || d in s.deferred || (s.Live(c) && d == c))
      && forall d :: d in u.deferred ==> d in s.deferred
  {
    var resolved := Resolved(s, c);
    assert resolved.Setups() == s.Setups();
    LoadMark(resolved, c);
    DispatchIsMark(resolved, c);
    var t := Dispatch(resolved, c);
    var lifted := if t.FirstUnresolved().None? then t.(suspended := false) else t;
    assert lifted.Setups() == s.Setups();
    DrainMoves(lifted);
  }

  lemma NotOldestIsLater(s: Tower, c: Candle)
    requires Ordered(s) && Answers(s, c) && !Oldest(s, c.openTime)
    ensures s.FirstUnresolved().Some? && s.FirstUnresolved().value.openTime < c.openTime
    ensures exists i :: 0 <= i < |Resolved(s, c).gaps| && Resolved(s, c).gaps[i] == s.FirstUnresolved().value && !Resolved(s, c).gaps[i].resolved
    ensures c.tf == s.primary.target
  {
    var k := FindGap(s.gaps, c.tf, c.openTime).value;
    FirstIsOldest(s.gaps, k);
    FirstOpenFacts(s.gaps);
    var i :| 0 <= i < |s.gaps| && s.gaps[i] == s.FirstUnresolved().value && !s.gaps[i].resolved;
    assert i != k;
    assert Resolved(s, c).gaps[i] == s.gaps[i];
  }

  /** EXACTLY OLDEST FIRST: a repair that is accepted keeps bars from going out past an open gap if and
      only if it repairs the oldest gap. */
  lemma RepairKeepsOrderIff(s: Tower, c: Candle)
    requires Ordered(s) && Stacked(s.Setups()) && Answers(s, c)
    ensures NothingPastGap(Repair(s, c)) <==> Oldest(s, c.openTime)
    ensures Ordered(Repair(s, c)) <==> Oldest(s, c.openTime)
  {
    hide Marked, Evolves, Timeframe.Rank, Load, GapsIncrease, FindGap;
    if Oldest(s, c.openTime) {
      RepairOldest(s, c);
      OrderedNothingPastGap(Repair(s, c));
    } else {
      var u := Repair(s, c);
      RepairMoves(s, c);
      NotOldestIsLater(s, c);
      NewIsLive(s, c);
      var i :| 0 <= i < |u.gaps| && u.gaps[i] == s.FirstUnresolved().value && !u.gaps[i].resolved;
      assert u.log[|s.log|] == c;
      assert !NothingPastGap(u);
      if Ordered(u) { OrderedNothingPastGap(u); }
    }
  }

  /** A younger gap repaired first leaves the older gap open and the older bar too old to dispatch. */
  lemma YoungerFirst(s: Tower, older: Candle, younger: Candle)
    requires Ordered(s) && Stacked(s.Setups()) && older.openTime < younger.openTime
    requires Answers(s, older) && Answers(s, younger) && Oldest(s, older.openTime)
    ensures var u := Repair(s, younger); var k := FindGap(s.gaps, older.tf, older.openTime).value;
      && Answers(u, older) && !u.Live(older) && u.higher == [] && u.Setups() == s.Setups()
      && u.gaps == Resolved(s, younger).gaps
      && forall c :: c in u.log || c in u.deferred ==> c in s.log || c in s.deferred || c == younger
  {
    var u := Repair(s, younger);
    RepairMoves(s, younger);
    NotOldestIsLater(s, younger);
    var k, m := FindGap(s.gaps, older.tf, older.openTime).value, FindGap(s.gaps, younger.tf, younger.openTime).value;
    assert k != m && u.gaps[k] == s.gaps[k];
    assert !u.Live(younger);
    assert older.tf == younger.tf;
  }

  /** In an ordered tower no bar opens at its oldest gap. */
  lemma NoBarAtOldest(s: Tower, t: Instant)
    requires Ordered(s) && Oldest(s, t)
    ensures forall c :: c in s.log || c in s.deferred ==> c.openTime != t
  {
    forall c | c in s.log || c in s.deferred ensures c.openTime != t {
      if c in s.log {
        var i :| 0 <= i < |s.log| && s.log[i] == c;
      } else {
        var i :| 0 <= i < |s.deferred| && s.deferred[i] == c;
      }
    }
  }

  /** Once a younger gap has been repaired first, the bar of the older gap is lost: its gap is marked
      resolved, and the bar is neither dispatched nor deferred. */
  lemma OutOfOrderLosesBar(s: Tower, older: Candle, younger: Candle)
    requires Ordered(s) && Stacked(s.Setups()) && older.openTime < younger.openTime
    requires Answers(s, older) && Answers(s, younger) && Oldest(s, older.openTime)
    ensures Answers(Repair(s, younger), older)
    ensures var v := Repair(Repair(s, younger), older);
      && FindGap(v.gaps, older.tf, older.openTime).None?
      && forall c :: c in v.log || c in v.deferred ==> c.openTime != older.openTime
  {
    YoungerFirst(s, older, younger);
    NoBarAtOldest(s, older.openTime);
    var u := Repair(s, younger);
    RepairMoves(u, older);
    var v := Repair(u, older);
    OnlyGap(s, younger, older);
  }

  /** Resolving the gap at an open time leaves no unresolved gap there. */
  lemma OnlyGap(s: Tower, younger: Candle, older: Candle)
    requires Ordered(s) && Answers(s, younger) && Answers(Resolved(s, younger), older)
    ensures FindGap(Resolved(Resolved(s, younger), older).gaps, older.tf, older.openTime).None?
  {
    var gaps := Resolved(s, younger).gaps;
    assert forall i :: 0 <= i < |gaps| ==> gaps[i].openTime == s.gaps[i].openTime;
    var k := FindGap(gaps, older.tf, older.openTime).value;
    OneGapPerOpen(s.gaps, k, older);
    var after := Resolve(gaps, k);
    forall i | 0 <= i < |after| ensures after[i].resolved || after[i].openTime != older.openTime {
      assert s.gaps[i].openTime == older.openTime ==> i == k;
    }
  }

  lemma OneGapPerOpen(gaps: seq<GapRecord>, k: nat, c: Candle)
    requires GapsIncrease(gaps) && k < |gaps| && gaps[k].openTime == c.openTime
    ensures forall i :: 0 <= i < |gaps| && gaps[i].openTime == c.openTime ==> i == k
  {
  }

  // ------------------------------------------------------------------- whole runs

  /** What the primary aggregator emits in a step. */
  function Emits(s: Tower, st: Step): seq<AggResult> {
    match st
    case Minute(m1) => s.primary.Add(m1).1
    case Clock(now) => ToSeq(s.primary.FlushAt(now).1)
    case BrokerBar(_) => []
    case Reconciled(_) => []
  }

  /** The bar a step offers for repair: the broker's, or one rebuilt from a late minute. */
  function Offers(s: Tower, st: Step): Option<Candle> {
    match st
    case Minute(m1) => if s.primary.Add(m1).1 == [] then s.primary.Add(m1).0.TryCompleteGap(m1).1 else None
    case Clock(_) => None
    case BrokerBar(bar) => Some(bar)
    case Reconciled(_) => None
  }

  /** If the step repairs a gap, it is the oldest one. */
  predicate OldestFirst(s: Tower, st: Step) {
    Offers(s, st).Some? && Answers(s, Offers(s, st).value) ==> Oldest(s, Offers(s, st).value.openTime)
  }

  /** Nothing the tower knows is after what the primary aggregator has emitted. */
  ghost predicate Caught(s: Tower) {
    match s.primary.lastEmitted
    case None => s.log == [] && s.deferred == [] && s.gaps == []
    case Some(b) => UpTo(s, b)
  }

  ghost predicate Good(s: Tower) { Ordered(s) && Stacked(s.Setups()) && s.primary.source == M1 && Caught(s) }

  /** What a step that took nothing out must satisfy: same line of bars, or one more. */
  ghost predicate Conserves(s: Tower, t: Tower, rs: seq<AggResult>) {
    && Good(t) && Answered(t) == Answered(s) + ResultOpens(rs)
    && (forall c :: c in s.log + s.deferred ==> c in t.log + t.deferred)
    && (forall c :: c in Bars(rs) ==> c in t.log + t.deferred)
  }

  /** Swapping the primary aggregator for a successor that has emitted at least as much. */
  lemma WithPrimaryGood(s: Tower, a: Agg)
    requires Good(s) && a.Valid() && a.Setup() == s.primary.Setup() && Leq(s.primary.lastEmitted, a.lastEmitted)
    ensures var t := s.(primary := a); Good(t) && t.Setups() == s.Setups() && Answered(t) == Answered(s)
  {
    var t := s.(primary := a);
    assert t.Setups() == s.Setups();
    if s.primary.lastEmitted.Some? {
      forall later | a.lastEmitted.value < later ensures Before(t, later) { assert Before(s, later); }
    }
  }

  /** Results of the primary are newer than everything the tower knows. */
  lemma ResultsAreNext(s: Tower, a: Agg, rs: seq<AggResult>, n: nat)
    requires Good(s) && Advances(s.primary, a, rs, n)
    ensures NextResults(s.(primary := a), rs) && AllFor(rs, a.target) && AllMade(rs)
    ensures rs != [] ==> Leq(Some(rs[|rs| - 1].openTime), a.lastEmitted)
  {
    assert forall i :: 0 <= i < |rs| ==> rs[i] in rs;
    var t := s.(primary := a);
    forall i | 0 <= i < |rs| ensures NextResult(t, rs[i]) {
      assert rs[i] in rs;
      assert ResultOk(s.primary, s.primary.lastEmitted, rs[i]);
      assert Before(s, rs[i].openTime);
    }
  }

  lemma UpToMore(s: Tower, t: Instant, u: Instant)
    requires UpTo(s, t) && t <= u
    ensures UpTo(s, u)
  {
  }

  /** Having taken in the results of the primary, the tower conserves. */
  lemma TookInConserves(s: Tower, fed: Tower, t: Tower, rs: seq<AggResult>)
    requires Good(fed) && Answered(fed) == Answered(s) && fed.log == s.log && fed.deferred == s.deferred
    requires TookIn(fed, t, Bars(rs), ResultOpens(rs)) && Caught(t)
    ensures Conserves(s, t, rs)
  {
    hide Ordered, Answered, Bars, ResultOpens, Caught;
    var line := s.log + s.deferred;
    assert forall c :: c in line || c in Bars(rs) ==> c in line + Bars(rs);
  }

  lemma TakesResults(s: Tower, a: Agg, rs: seq<AggResult>, n: nat)
    requires Good(s) && Advances(s.primary, a, rs, n)
    ensures s.(primary := a).Setups() == s.Setups() && Good(s.(primary := a)) && AllFor(rs, a.target)
    ensures Conserves(s, HandleAll(s.(primary := a), rs), rs) && HandleAll(s.(primary := a), rs).primary == a
  {
    var fed := s.(primary := a);
    WithPrimaryGood(s, a);
    ResultsAreNext(s, a, rs, n);
    hide Ordered, NextResults, Answered, Stacked, HandleAll, Bars, ResultOpens, Advances, AllMade, Before;
    HandleAllOrdered(fed, rs);
    HandleAllNone(fed);
    CaughtUp(fed, HandleAll(fed, rs), rs);
    TookInConserves(s, fed, HandleAll(fed, rs), rs);
  }

  /** The last result is within what the primary has emitted. */
  lemma CaughtUp(fed: Tower, t: Tower, rs: seq<AggResult>)
    requires Caught(fed) && t.primary == fed.primary && (rs == [] ==> t == fed)
    requires rs != [] ==> UpTo(t, rs[|rs| - 1].openTime) && Leq(Some(rs[|rs| - 1].openTime), fed.primary.lastEmitted)
    ensures Caught(t)
  {
    if rs != [] { UpToMore(t, rs[|rs| - 1].openTime, fed.primary.lastEmitted.value); }
  }

  /** A repair of the oldest gap, or of none, conserves. */
  lemma RepairConserves(s: Tower, c: Candle)
    requires Good(s) && (Answers(s, c) ==> Oldest(s, c.openTime))
    ensures Conserves(s, Repair(s, c), [])
  {
    var u := Repair(s, c);
    assert Bars([]) == [] && ResultOpens([]) == {};
    if Answers(s, c) {
      RepairOldest(s, c);
      assert forall d :: d in s.log + s.deferred ==> d in s.log + [c] + s.deferred;
      GapWasCaught(s, c.openTime);
      if s.primary.lastEmitted.Some? {
        forall later | s.primary.lastEmitted.value < later ensures Before(u, later) {
          assert Before(s, later);
          RepairedBefore(s, c, u, later);
        }
      }
    } else {
      assert u == s;
    }
  }

  lemma GapWasCaught(s: Tower, t: Instant)
    requires Good(s) && Oldest(s, t)
    ensures s.primary.lastEmitted.Some? && t <= s.primary.lastEmitted.value
  {
    FirstOpenFacts(s.gaps);
    var i :| 0 <= i < |s.gaps| && s.gaps[i] == s.FirstUnresolved().value;
    assert Before(s, s.primary.lastEmitted.value + 1);
  }

  lemma RepairedBefore(s: Tower, c: Candle, u: Tower, later: Instant)
    requires Answers(s, c) && u.log + u.deferred == s.log + [c] + s.deferred && u.gaps == Resolved(s, c).gaps
    requires Before(s, later) && c.openTime < later
    ensures Before(u, later)
  {
    var line := s.log + s.deferred;
    assert forall i :: 0 <= i < |s.log| ==> line[i] == s.log[i];
    assert forall i :: 0 <= i < |s.deferred| ==> line[|s.log| + i] == s.deferred[i];
  }

  /** One step whose repair, if any, is of the oldest gap: order kept, nothing lost, nothing invented. */
  lemma StepConserves(s: Tower, st: Step)
    requires Good(s) && StepOk(st) && OldestFirst(s, st)
    ensures Conserves(s, Perform(s, st), Emits(s, st))
  {
    match st
    case Minute(m1) =>
      assert FeedMinute(s, m1, 0) == s;
      AddEffect(s.primary, m1);
      var (a, rs) := s.primary.Add(m1);
      TakesResults(s, a, rs, 2);
      if rs == [] {
        MinuteOffered(s, m1);
      }
    case Clock(now) =>
      FlushEffect(s.primary, now);
      var (a, res) := s.primary.FlushAt(now);
      TakesResults(s, a, ToSeq(res), 1);
    case BrokerBar(bar) =>
      RepairConserves(s, bar);
    case Reconciled(m1) =>
      ReconciledConserves(s, m1);
  }

  /** A reconciled minute changes what an open bucket holds and nothing the tower answers for. */
  lemma ReconciledConserves(s: Tower, m1: Candle)
    requires Good(s)
    ensures Conserves(s, ReplaceMinute(s, m1), [])
  {
    WithPrimaryGood(s, s.primary.Replace(m1).0);
    assert ReplaceMinute(s, m1) == s.(primary := s.primary.Replace(m1).0);
    assert Bars([]) == [] && ResultOpens([]) == {};
  }

  /** A minute that closes nothing is offered to the gaps. */
  lemma MinuteOffered(s: Tower, m1: Candle)
    requires Good(s) && m1.closed && m1.tf == M1 && OldestFirst(s, Minute(m1)) && s.primary.Add(m1).1 == []
    ensures Conserves(s, FeedPrimary(s, m1), [])
  {
    hide Agg.Add, Agg.TryCompleteGap, Answered, Stacked, Caught;
    AddEffect(s.primary, m1);
    var a := s.primary.Add(m1).0;
    TryCompleteEffect(a, m1);
    var (b, bar) := a.TryCompleteGap(m1);
    WithPrimaryGood(s, a);
    WithPrimaryGood(s.(primary := a), b);
    var offered := s.(primary := b);
    assert s.(primary := a).(primary := b) == offered;
    assert Bars([]) == [] && ResultOpens([]) == {};
    if bar.Some? {
      RepairConserves(offered, bar.value);
    }
  }

  /** Everything the primary aggregator emitted over a run, in order. */
  function History(s: Tower, steps: seq<Step>): seq<AggResult>
    requires Stacked(s.Setups())
  {
    if steps == [] then []
    else
      var front := steps[..|steps| - 1];
      History(s, front) + Emits(RunSteps(s, front), steps[|steps| - 1])
  }

  /** Every repair along the run is of the oldest gap open at that moment. */
  ghost predicate AlwaysOldestFirst(s: Tower, steps: seq<Step>)
    requires Stacked(s.Setups())
  {
    forall i :: 0 <= i < |steps| ==> StepOk(steps[i]) && OldestFirst(RunSteps(s, steps[..i]), steps[i])
  }

  lemma ConservedMore(s: Tower, t: Tower, h: seq<AggResult>, rs: seq<AggResult>)
    requires Conserves(s, t, rs) && Answered(s) == ResultOpens(h) && forall c :: c in Bars(h) ==> c in s.log + s.deferred
    ensures Answered(t) == ResultOpens(h + rs) && forall c :: c in Bars(h + rs) ==> c in t.log + t.deferred
  {
    BarsConcat(h, rs);
    ResultOpensConcat(h, rs);
  }

  lemma {:induction false} BarsConcat(a: seq<AggResult>, b: seq<AggResult>)
    ensures Bars(a + b) == Bars(a) + Bars(b)
  {
    if a == [] {
      assert a + b == b;
    } else {
      assert (a + b)[1..] == a[1..] + b;
      BarsConcat(a[1..], b);
    }
  }

  lemma ResultOpensConcat(a: seq<AggResult>, b: seq<AggResult>)
    ensures ResultOpens(a + b) == ResultOpens(a) + ResultOpens(b)
  {
    forall t | t in ResultOpens(a) ensures t in ResultOpens(a + b) {
      var i :| 0 <= i < |a| && a[i].openTime == t;
      assert (a + b)[i].openTime == t;
    }
    forall t | t in ResultOpens(b) ensures t in ResultOpens(a + b) {
      var i :| 0 <= i < |b| && b[i].openTime == t;
      assert (a + b)[|a| + i].openTime == t;
    }
  }

  /** The tower accounts for the whole history: every emitted result is answered for, and every complete
      bar is itself dispatched or deferred. */
  ghost predicate AccountsFor(t: Tower, h: seq<AggResult>) {
    Answered(t) == ResultOpens(h) && forall c :: c in Bars(h) ==> c in t.log + t.deferred
  }

  lemma {:induction false} RunConserves(s: Tower, steps: seq<Step>)
    requires Fresh(s) && s.higher == [] && s.lastClosed == map[] && AlwaysOldestFirst(s, steps)
    ensures Good(RunSteps(s, steps)) && AccountsFor(RunSteps(s, steps), History(s, steps))
  {
    if steps == [] {
      FreshGood(s);
    } else {
      var n := |steps| - 1;
      var front := steps[..n];
      assert AlwaysOldestFirst(s, front) by {
        forall i | 0 <= i < n ensures OldestFirst(RunSteps(s, front[..i]), front[i]) { assert front[..i] == steps[..i]; }
      }
      RunConserves(s, front);
      StepConserves(RunSteps(s, front), steps[n]);
      ConservedMore(RunSteps(s, front), RunSteps(s, steps), History(s, front), Emits(RunSteps(s, front), steps[n]));
    }
  }

  lemma FreshGood(s: Tower)
    requires Fresh(s) && s.higher == [] && s.lastClosed == map[]
    ensures Good(s) && AccountsFor(s, [])
  {
    EmptyRight(s.log);
    assert SortedByOpen([]) && Opens([]) == {} && Unresolved([]) == {} && ResultOpens([]) == {};
  }

  /** CONSERVATION: in a tower of one timeframe whose gaps are repaired oldest first, after any run the log
      is strictly chronological, nothing has gone out past an open gap, every emitted result is answered
      for (dispatched, deferred, or an open gap, in one strictly increasing line), every complete bar is
      itself dispatched or deferred, and once no gap is open everything has been dispatched. */
  lemma Conservation(s: Tower, steps: seq<Step>)
    requires Fresh(s) && s.higher == [] && s.lastClosed == map[] && AlwaysOldestFirst(s, steps)
    ensures var t := RunSteps(s, steps); var h := History(s, steps);
      && SortedByOpen(t.log + t.deferred) && NothingPastGap(t) && Apart(t.deferred, t.gaps)
      && AccountsFor(t, h)
      && (!HasGap(t) ==> t.deferred == [] && Opens(t.log) == ResultOpens(h))
  {
    RunConserves(s, steps);
    var t := RunSteps(s, steps);
    OrderedNothingPastGap(t);
    if !HasGap(t) {
      FirstOpenFacts(t.gaps);
      assert t.log + [] == t.log;
      assert Unresolved(t.gaps) == {};
    }
  }
}
