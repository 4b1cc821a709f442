/** Every run of a setup follows the table, ends in time, leaves fakeout risk at once, keeps its extreme
    moving one way, and is the mirror image of the run of the mirrored setup. */
module LifecycleLaws {
  import opened Timeline
  import opened Candles
  import opened Lifecycle

  /** Transitions that lead from one state to another, each allowed by the table. */
  ghost predicate Chain(first: State, out: seq<Transition>, last: State)
    decreases |out|
  {
    if out == [] then first == last
    else out[0].before == first && out[0].after in Allowed(first) && Chain(out[0].after, out[1..], last)
  }

  lemma {:induction false} ChainConcat(a: State, xs: seq<Transition>, b: State, ys: seq<Transition>, c: State)
    requires Chain(a, xs, b) && Chain(b, ys, c)
    ensures Chain(a, xs + ys, c)
    decreases |xs|
  {
    if xs == [] {
      assert xs + ys == ys;
    } else {
      ChainConcat(xs[0].after, xs[1..], b, ys, c);
      assert (xs + ys)[1..] == xs[1..] + ys;
    }
  }

  /** The extreme has moved towards the trade, or not at all. */
  predicate Onward(bull: bool, before: real, after: real) { if bull then before <= after else after <= before }

  /** What one step of progress may have done to a setup. */
  ghost predicate Progressed(s: Setup, g: Progress) {
    && g.Going? && Chain(s.state, g.out, g.setup.state)
    && g.setup.bull == s.bull && g.setup.anchor == s.anchor && g.setup.invalidation == s.invalidation
    && g.setup.age == s.age && Onward(s.bull, s.extreme, g.setup.extreme)
  }

  lemma GoProgresses(s: Setup, g: Progress, next: State)
    requires Progressed(s, g) && next in Allowed(g.setup.state)
    ensures Progressed(s, Go(g, next)) && Go(g, next).setup.state == next
  {
    ChainConcat(s.state, g.out, g.setup.state, [Transition(g.setup.state, next)], next);
  }

  /** Transitions requested one after the other. */
  function GoAll(g: Progress, nexts: seq<State>): Progress
    decreases |nexts|
  {
    if nexts == [] then g else GoAll(Go(g, nexts[0]), nexts[1..])
  }

  /** Each state is allowed after the one before it. */
  predicate Path(first: State, nexts: seq<State>)
    decreases |nexts|
  {
    nexts != [] ==> nexts[0] in Allowed(first) && Path(nexts[0], nexts[1..])
  }

  lemma {:induction false} IllegalStays(g: Progress, nexts: seq<State>)
    requires g.Illegal?
    ensures GoAll(g, nexts) == g
    decreases |nexts|
  {
    if nexts != [] { IllegalStays(g, nexts[1..]); }
  }

  /** THE TABLE DECIDES: a sequence of requested transitions raises no exception exactly when the table allows
      each after the one before; then the setup ends in the last state, has recorded the states in order, and
      is otherwise unchanged. Nothing follows a terminal state. */
  lemma {:induction false} TableDecides(g: Progress, nexts: seq<State>)
    requires g.Going?
    ensures var h := GoAll(g, nexts); var last := if nexts == [] then g.setup.state else nexts[|nexts| - 1];
      && (h.Going? <==> Path(g.setup.state, nexts))
      && (h.Going? ==> h.setup == g.setup.(state := last, events := g.setup.events + nexts) && |h.out| == |g.out| + |nexts|)
      && (g.setup.state.Terminal() && nexts != [] ==> h.Illegal?)
    decreases |nexts|
  {
    if nexts == [] {
      assert g.setup.events + nexts == g.setup.events;
    } else if nexts[0] in Allowed(g.setup.state) {
      TableDecides(Go(g, nexts[0]), nexts[1..]);
      assert g.setup.events + [nexts[0]] + nexts[1..] == g.setup.events + nexts;
    } else {
      IllegalStays(Go(g, nexts[0]), nexts[1..]);
    }
  }

  lemma ByStateProgresses(p: Params, s: Setup, g: Progress, beyond: bool, follow: bool, touched: bool)
    requires Progressed(s, g) && !g.setup.state.Terminal() && g.setup.state != Observing
    ensures var h := ByState(p, g, beyond, follow, touched);
      Progressed(s, h) && (g.setup.state == FakeoutRisk ==> h.setup.state != FakeoutRisk) && h.setup.state != Observing && h.setup.extreme == g.setup.extreme
  {
    hide Chain;
    var failed := g.(setup := g.setup.(failures := g.setup.failures + 1));
    match g.setup.state
    case Watch => if !beyond { GoProgresses(s, failed, FakeoutRisk); } else { GoProgresses(s, g, Developing); }
    case Developing => if !beyond { GoProgresses(s, failed, FakeoutRisk); } else { GoProgresses(s, g, Confirmed); }
    case Confirmed => if !beyond { GoProgresses(s, failed, FakeoutRisk); } else { GoProgresses(s, g, Pullback); }
    case Pullback =>
      if !beyond { GoProgresses(s, failed, FakeoutRisk); }
      else { GoProgresses(s, g.(setup := g.setup.(continuationBars := 0)), Continuation); }
    case Continuation =>
      var h := g.(setup := g.setup.(continuationBars := g.setup.continuationBars + 1));
      if !beyond { GoProgresses(s, h.(setup := h.setup.(failures := h.setup.failures + 1)), FakeoutRisk); } else { GoProgresses(s, h, Completed); }
    case FakeoutRisk => if beyond { GoProgresses(s, g, Confirmed); } else { GoProgresses(s, g, Invalidated); }
  }

  /** What an evaluated candle does: it is a chain of allowed transitions (so no illegal one is ever tried),
      ages the setup by one and notes the candle; a setup as old as the limit is over; fakeout risk never
      survives it; and the extreme only moves with the trade. */
  ghost predicate Steps(p: Params, s: Setup, c: Candle, g: Progress) {
    && Progressed(s.(age := s.age + 1), g) && g.setup.updated == c.openTime && g.setup.state != Observing
    && (p.maxAge <= g.setup.age ==> g.setup.state.Terminal())
    && (s.state == FakeoutRisk ==> g.setup.state != FakeoutRisk)
  }

  lemma FinishProgresses(p: Params, s: Setup, g: Progress, c: Candle, moved: bool)
    requires Progressed(s, g) && (moved ==> Onward(s.bull, g.setup.extreme, c.close))
    ensures var h := Finish(p, g, c, moved);
      && Progressed(s, h) && h.setup.updated == c.openTime && (p.maxAge <= h.setup.age ==> h.setup.state.Terminal())
      && (h.setup.state == g.setup.state || h.setup.state == Completed)
  {
    var i := if moved then g.(setup := g.setup.(extreme := c.close)) else g;
    if !i.setup.state.Terminal() { GoProgresses(s, i, Completed); }
  }

  lemma ApplySteps(p: Params, s: Setup, c: Candle, atr: real)
    requires !s.state.Terminal()
    ensures Steps(p, s, c, Apply(p, s, c, atr))
  {
    hide Go, ByState, Finish, Touches;
    var older := s.(age := s.age + 1);
    if Invalidates(s, c) {
      GoProgresses(older, Going(older, []), Invalidated);
    } else {
      var beyond, follow := Beyond(c.close, s.anchor, s.bull), FollowsThrough(s, c);
      var counted := Counted(older, beyond);
      assert Progressed(older, Going(counted, []));
      if s.state == Observing { OpenProgresses(older, counted); }
      var g := Opened(counted);
      ByStateProgresses(p, older, g, beyond, follow, Touches(p, s, c, atr));
      FinishProgresses(p, older, ByState(p, g, beyond, follow, Touches(p, s, c, atr)), c, beyond && follow);
    }
  }

  lemma OpenProgresses(s: Setup, counted: Setup)
    requires Progressed(s, Going(counted, [])) && counted.state == Observing
    ensures Progressed(s, Opened(counted)) && Opened(counted).setup.state == Watch && Opened(counted).setup.extreme == counted.extreme
  {
    GoProgresses(s, Going(counted, []), Watch);
  }

  // ------------------------------------------------------------------ runs

  /** A closed candle with its indicator value. */
  datatype Reading = Reading(bar: Candle, atr: Option<real>)

  function Run(p: Params, s: Setup, rs: seq<Reading>): Progress
    requires forall i :: 0 <= i < |rs| ==> rs[i].bar.closed
  {
    if rs == [] then Going(s, [])
    else
      var before := Run(p, s, rs[..|rs| - 1]);
      if before.Illegal? then before
      else
        var o := Evaluation(p, before.setup, rs[|rs| - 1].bar, rs[|rs| - 1].atr).progress;
        if o.Illegal? then o else Going(o.setup, before.out + o.out)
  }

  /** THE TABLE IS FOLLOWED: every run of every setup is a chain of allowed transitions from its first state to
      its last; the exception for a forbidden one cannot be reached; and the extreme moves one way. */
  lemma {:induction false} RunFollowsTable(p: Params, s: Setup, rs: seq<Reading>)
    requires forall i :: 0 <= i < |rs| ==> rs[i].bar.closed
    ensures var g := Run(p, s, rs); g.Going? && Chain(s.state, g.out, g.setup.state) && g.setup.bull == s.bull && Onward(s.bull, s.extreme, g.setup.extreme)
  {
    if rs != [] {
      var front, r := rs[..|rs| - 1], rs[|rs| - 1];
      RunFollowsTable(p, s, front);
      var g := Run(p, s, front);
      if Counts(g.setup, r.bar) {
        ApplySteps(p, g.setup, r.bar, if r.atr.Some? then r.atr.value else 0.0);
      }
      var o := Evaluation(p, g.setup, r.bar, r.atr).progress;
      ChainConcat(s.state, g.out, g.setup.state, o.out, o.setup.state);
    }
  }

  /** Closed candles, each newer than the one before and than the setup. */
  ghost predicate Fresh(s: Setup, rs: seq<Reading>) {
    && (forall i :: 0 <= i < |rs| ==> rs[i].bar.closed && s.updated < rs[i].bar.openTime)
    && (forall i, j :: 0 <= i < j < |rs| ==> rs[i].bar.openTime < rs[j].bar.openTime)
  }

  lemma {:induction false} RunAges(p: Params, s: Setup, rs: seq<Reading>)
    requires Fresh(s, rs)
    ensures var g := Run(p, s, rs);
      && g.Going? && (rs != [] && p.maxAge <= g.setup.age ==> g.setup.state.Terminal())
      && (!g.setup.state.Terminal() ==> g.setup.age == s.age + |rs| && g.setup.updated == if rs == [] then s.updated else rs[|rs| - 1].bar.openTime)
  {
    if rs != [] {
      var front, r := rs[..|rs| - 1], rs[|rs| - 1];
      RunAges(p, s, front);
      var g := Run(p, s, front);
      assert front != [] ==> rs[|front| - 1].bar.openTime < r.bar.openTime;
      if Counts(g.setup, r.bar) {
        ApplySteps(p, g.setup, r.bar, if r.atr.Some? then r.atr.value else 0.0);
      }
    }
  }

  /** OVER IN TIME: a setup is over after at most `maxAge` candles. */
  lemma OverInTime(p: Params, s: Setup, rs: seq<Reading>)
    requires Fresh(s, rs) && rs != [] && p.maxAge <= s.age + |rs|
    ensures Run(p, s, rs).Going? && Run(p, s, rs).setup.state.Terminal()
  {
    RunAges(p, s, rs);
  }

  /** FAKEOUT RISK LASTS ONE CANDLE: a candle that counts confirms the setup again or ends it. */
  lemma FakeoutResolves(p: Params, s: Setup, c: Candle, atr: Option<real>)
    requires s.state == FakeoutRisk && c.closed && Counts(s, c)
    ensures var o := Evaluation(p, s, c, atr);
      && o.Evaluated? && o.progress.Going?
      && (o.progress.setup.state == Invalidated <==> Invalidates(s, c) || !Beyond(c.close, s.anchor, s.bull))
      && (o.progress.setup.state == Confirmed <==> !Invalidates(s, c) && Beyond(c.close, s.anchor, s.bull) && s.age + 1 < p.maxAge)
      && o.progress.setup.state in {Invalidated, Confirmed, Completed}
  {
    ApplySteps(p, s, c, if atr.Some? then atr.value else 0.0);
  }

  // ------------------------------------------------------------------ mirror symmetry

  function Mirror(s: Setup): Setup { s.(bull := !s.bull, anchor := -s.anchor, invalidation := -s.invalidation, extreme := -s.extreme) }

  function MirrorCandle(c: Candle): Candle { c.(open := -c.open, high := -c.low, low := -c.high, close := -c.close) }

  function MirrorProgress(g: Progress): Progress { if g.Going? then g.(setup := Mirror(g.setup)) else g }

  lemma MirrorGo(g: Progress, next: State)
    ensures Go(MirrorProgress(g), next) == MirrorProgress(Go(g, next))
  {
  }

  lemma MirrorFail(g: Progress)
    ensures Fail(MirrorProgress(g)) == MirrorProgress(Fail(g))
  {
  }

  lemma MirrorByState(p: Params, g: Progress, beyond: bool, follow: bool, touched: bool)
    ensures ByState(p, MirrorProgress(g), beyond, follow, touched) == MirrorProgress(ByState(p, g, beyond, follow, touched))
  {
    hide Go, Fail;
    if g.Going? {
      var h := g.(setup := g.setup.(continuationBars := g.setup.continuationBars + 1));
      MirrorFail(g);
      MirrorFail(h);
      MirrorGo(h, Completed);
      MirrorGo(g.(setup := g.setup.(continuationBars := 0)), Continuation);
      MirrorGo(g, Developing);
      MirrorGo(g, Confirmed);
      MirrorGo(g, Pullback);
      MirrorGo(g, Invalidated);
    }
  }

  lemma MirrorFinish(p: Params, g: Progress, c: Candle, moved: bool)
    ensures Finish(p, MirrorProgress(g), MirrorCandle(c), moved) == MirrorProgress(Finish(p, g, c, moved))
  {
  }

  lemma MirrorReads(p: Params, s: Setup, c: Candle, atr: real)
    ensures Invalidates(Mirror(s), MirrorCandle(c)) <==> Invalidates(s, c)
    ensures FollowsThrough(Mirror(s), MirrorCandle(c)) <==> FollowsThrough(s, c)
    ensures Beyond(-c.close, -s.anchor, !s.bull) <==> Beyond(c.close, s.anchor, s.bull)
    ensures Touches(p, Mirror(s), MirrorCandle(c), atr) <==> Touches(p, s, c, atr)
  {
    var x := p.retestTolerance * atr;
    assert c.low <= s.anchor + x <==> -s.anchor - x <= -c.low;
    assert s.anchor - x <= c.high <==> -c.high <= -s.anchor + x;
  }

  lemma MirrorApply(p: Params, s: Setup, c: Candle, atr: real)
    ensures Apply(p, Mirror(s), MirrorCandle(c), atr) == MirrorProgress(Apply(p, s, c, atr))
  {
    MirrorReads(p, s, c, atr);
    hide Go, ByState, Finish, Touches, FollowsThrough, Beyond, Invalidates;
    var older := s.(age := s.age + 1);
    if Invalidates(s, c) {
      MirrorGo(Going(older, []), Invalidated);
    } else {
      var beyond, follow, touched := Beyond(c.close, s.anchor, s.bull), FollowsThrough(s, c), Touches(p, s, c, atr);
      var counted := Counted(older, beyond);
      MirrorGo(Going(counted, []), Watch);
      assert Opened(Counted(Mirror(older), beyond)) == MirrorProgress(Opened(counted));
      MirrorByState(p, Opened(counted), beyond, follow, touched);
      MirrorFinish(p, ByState(p, Opened(counted), beyond, follow, touched), c, beyond && follow);
    }
  }

  function MirrorReadings(rs: seq<Reading>): (ms: seq<Reading>)
    ensures |ms| == |rs| && forall i :: 0 <= i < |ms| ==> ms[i] == Reading(MirrorCandle(rs[i].bar), rs[i].atr)
  {
    seq(|rs|, i requires 0 <= i < |rs| => Reading(MirrorCandle(rs[i].bar), rs[i].atr))
  }

  /** BULL AND BEAR ARE MIRROR IMAGES: negating every price and swapping highs and lows maps each run of a
      bullish setup to the run of the mirrored bearish one, transition for transition. */
  lemma {:induction false} MirrorRun(p: Params, s: Setup, rs: seq<Reading>)
    requires forall i :: 0 <= i < |rs| ==> rs[i].bar.closed
    ensures Run(p, Mirror(s), MirrorReadings(rs)) == MirrorProgress(Run(p, s, rs))
  {
    if rs != [] {
      var front, r := rs[..|rs| - 1], rs[|rs| - 1];
      MirrorRun(p, s, front);
      var ms := MirrorReadings(rs);
      assert ms[..|ms| - 1] == MirrorReadings(front);
      var g := Run(p, s, front);
      if g.Going? {
        MirrorApply(p, g.setup, r.bar, if r.atr.Some? then r.atr.value else 0.0);
      }
    }
  }

  // ------------------------------------------------------------------ creation

  /** The value, unless it is missing or zero. */
  function OrElse(x: Option<real>, otherwise: real): real { if x.Some? && x.value != 0.0 then x.value else otherwise }

  /** A new setup at an anchor: invalidated beyond the origin candle, or one volatility unit behind the anchor
      when that candle does not reach behind it. */
  function Create(bull: bool, anchor: real, c: Candle, atr: Option<real>): Setup {
    var far := OrElse(atr, OrElse(Some(c.high - c.low), 1.0));
    var at := if bull then c.low else c.high;
    var invalidation := if bull && anchor <= at then anchor - far else if !bull && at <= anchor then anchor + far else at;
    Setup(bull, Observing, anchor, invalidation, c.openTime, if Beyond(c.close, anchor, bull) then 1 else 0, 0, c.close, 0, 0, 0, [])
  }

  predicate BehindAnchor(s: Setup) { if s.bull then s.invalidation < s.anchor else s.anchor < s.invalidation }

  /** No closer than the far side of the origin candle, and there if that side lies behind the anchor. */
  predicate BehindOrigin(s: Setup, c: Candle) {
    if s.bull then s.invalidation <= c.low && (c.low < s.anchor ==> s.invalidation == c.low)
    else c.high <= s.invalidation && (s.anchor < c.high ==> s.invalidation == c.high)
  }

  lemma {:induction false} LevelsStay(p: Params, s: Setup, rs: seq<Reading>)
    requires forall i :: 0 <= i < |rs| ==> rs[i].bar.closed
    ensures var g := Run(p, s, rs);
      g.Going? && g.setup.bull == s.bull && g.setup.anchor == s.anchor && g.setup.invalidation == s.invalidation
  {
    if rs != [] {
      var front, r := rs[..|rs| - 1], rs[|rs| - 1];
      LevelsStay(p, s, front);
      var t := Run(p, s, front).setup;
      if Counts(t, r.bar) { ApplySteps(p, t, r.bar, if r.atr.Some? then r.atr.value else 0.0); }
    }
  }

  /** RIGHT SIDE: a true range is never negative; with one, or none, a new setup is invalidated strictly behind
      its anchor, not before the far side of its origin candle, and stays so through every run. */
  lemma InvalidationBehindAnchor(p: Params, bull: bool, anchor: real, c: Candle, atr: Option<real>, rs: seq<Reading>)
    requires (atr.Some? ==> 0.0 <= atr.value) && forall i :: 0 <= i < |rs| ==> rs[i].bar.closed
    ensures var g := Run(p, Create(bull, anchor, c, atr), rs); g.Going? && g.setup.bull == bull && g.setup.anchor == anchor && BehindAnchor(g.setup) && BehindOrigin(g.setup, c)
  {
    LevelsStay(p, Create(bull, anchor, c, atr), rs);
  }

  /** From creation to the end: a new setup is over after at most `maxAge` later candles. */
  lemma CreatedIsOverInTime(p: Params, bull: bool, anchor: real, origin: Candle, atr: Option<real>, rs: seq<Reading>)
    requires Fresh(Create(bull, anchor, origin, atr), rs) && rs != [] && p.maxAge <= |rs|
    ensures var g := Run(p, Create(bull, anchor, origin, atr), rs); g.Going? && g.setup.state.Terminal() && Chain(Observing, g.out, g.setup.state)
  {
    OverInTime(p, Create(bull, anchor, origin, atr), rs);
    RunFollowsTable(p, Create(bull, anchor, origin, atr), rs);
  }
}
