/** The setup lifecycle: one closed candle at a time through an explicit table of allowed transitions. */
module Lifecycle {
  import opened Timeline
  import opened Candles

  datatype State = Observing | Watch | Developing | Confirmed | Pullback | Continuation | FakeoutRisk | Completed | Invalidated {
    predicate Terminal() { Completed? || Invalidated? }
  }

  function Allowed(s: State): set<State> {
    match s
    case Observing => {Watch, Invalidated, Completed}
    case Watch => {Developing, FakeoutRisk, Invalidated, Completed}
    case Developing => {Confirmed, FakeoutRisk, Invalidated, Completed}
    case Confirmed => {Pullback, FakeoutRisk, Invalidated, Completed}
    case Pullback => {Continuation, FakeoutRisk, Invalidated, Completed}
    case Continuation => {FakeoutRisk, Completed, Invalidated}
    case FakeoutRisk => {Confirmed, Invalidated, Completed}
    case Completed => {}
    case Invalidated => {}
  }

  datatype Params = Params(acceptanceCloses: int, retestTolerance: real, completionBars: int, maxAge: int)

  datatype Transition = Transition(before: State, after: State)

  datatype Setup = Setup(
    bull: bool, state: State, anchor: real, invalidation: real, updated: Instant,
    beyondCloses: int, insideStreak: int, extreme: real, age: int, continuationBars: int, failures: int, events: seq<State>)

  /** A setup under way with the transitions made so far, or the exception for one the table forbids. */
  datatype Progress = Going(setup: Setup, out: seq<Transition>) | Illegal(before: State, after: State)

  /** The outcome of evaluating a candle; an unclosed candle is an error. */
  datatype Outcome = Evaluated(progress: Progress) | NotClosed

  predicate Beyond(close: real, anchor: real, bull: bool) { if bull then anchor < close else close < anchor }

  function Go(g: Progress, next: State): Progress {
    if g.Illegal? then g
    else if next !in Allowed(g.setup.state) then Illegal(g.setup.state, next)
    else Going(g.setup.(state := next, events := g.setup.events + [next]), g.out + [Transition(g.setup.state, next)])
  }

  /** Back inside the anchor: one more failure, and fakeout risk. */
  function Fail(g: Progress): Progress {
    if g.Illegal? then g else Go(g.(setup := g.setup.(failures := g.setup.failures + 1)), FakeoutRisk)
  }

  predicate FollowsThrough(s: Setup, c: Candle) { if s.bull then s.extreme < c.close else c.close < s.extreme }

  predicate Touches(p: Params, s: Setup, c: Candle, atr: real) {
    if s.bull then c.low <= s.anchor + p.retestTolerance * atr else s.anchor - p.retestTolerance * atr <= c.high
  }

  /** The transition the current state makes on a candle that does not invalidate the setup. */
  function ByState(p: Params, g: Progress, beyond: bool, follow: bool, touched: bool): Progress {
    if g.Illegal? then g
    else
      match g.setup.state
      case Watch =>
        if !beyond then Fail(g) else if p.acceptanceCloses <= g.setup.beyondCloses then Go(g, Developing) else g
      case Developing => if !beyond then Fail(g) else if follow then Go(g, Confirmed) else g
      case Confirmed => if !beyond then Fail(g) else if touched then Go(g, Pullback) else g
      case Pullback =>
        if !beyond then Fail(g) else if follow then Go(g.(setup := g.setup.(continuationBars := 0)), Continuation) else g
      case Continuation =>
        var h := g.(setup := g.setup.(continuationBars := g.setup.continuationBars + 1));
        if !beyond then Fail(h) else if p.completionBars <= h.setup.continuationBars then Go(h, Completed) else h
      case FakeoutRisk => if beyond then Go(g, Confirmed) else Go(g, Invalidated)
      case _ => g
  }

  /** The extreme follows the closes beyond it, the oldest setups complete, and the candle is noted. */
  function Finish(p: Params, g: Progress, c: Candle, moved: bool): Progress {
    if g.Illegal? then g
    else
      var h := if moved then g.(setup := g.setup.(extreme := c.close)) else g;
      var i := if !h.setup.state.Terminal() && p.maxAge <= h.setup.age then Go(h, Completed) else h;
      if i.Illegal? then i else i.(setup := i.setup.(updated := c.openTime))
  }

  /** Closes beyond the anchor and the streak inside it. */
  function Counted(s: Setup, beyond: bool): Setup {
    if beyond then s.(beyondCloses := s.beyondCloses + 1, insideStreak := 0) else s.(insideStreak := s.insideStreak + 1)
  }

  /** An observed setup is watched from its first candle on. */
  function Opened(s: Setup): Progress { if s.state == Observing then Go(Going(s, []), Watch) else Going(s, []) }

  predicate Invalidates(s: Setup, c: Candle) { if s.bull then c.close < s.invalidation else s.invalidation < c.close }

  /** A candle that counts. */
  function Apply(p: Params, s: Setup, c: Candle, atr: real): Progress {
    var older := s.(age := s.age + 1);
    if Invalidates(s, c) then
      var g := Go(Going(older, []), Invalidated);
      if g.Illegal? then g else g.(setup := g.setup.(updated := c.openTime))
    else
      var beyond := Beyond(c.close, s.anchor, s.bull);
      var follow := FollowsThrough(s, c);
      Finish(p, ByState(p, Opened(Counted(older, beyond)), beyond, follow, Touches(p, s, c, atr)), c, beyond && follow)
  }

  /** A setup is evaluated by closed candles newer than its last update, until it is terminal. */
  predicate Counts(s: Setup, c: Candle) { !s.state.Terminal() && (s.updated < c.openTime || s.state == Observing) }

  function Evaluation(p: Params, s: Setup, c: Candle, atr: Option<real>): Outcome {
    if !c.closed then NotClosed
    else if !Counts(s, c) then Evaluated(Going(s, []))
    else Evaluated(Apply(p, s, c, if atr.Some? then atr.value else 0.0))
  }

  // ------------------------------------------------------------------ the tracker

  /** The stateful setup. */
  class TrackedSetup {
    const bull: bool
    const anchor: real
    const invalidation: real
    var state: State
    var updated: Instant
    var beyondCloses: int
    var insideStreak: int
    var extreme: real
    var age: int
    var continuationBars: int
    var failures: int
    var events: seq<State>

    ghost function Value(): Setup
      reads this
    {
      Setup(bull, state, anchor, invalidation, updated, beyondCloses, insideStreak, extreme, age, continuationBars, failures, events)
    }

    constructor (s: Setup)
      ensures Value() == s
    {
      bull, anchor, invalidation, state, updated := s.bull, s.anchor, s.invalidation, s.state, s.updated;
      beyondCloses, insideStreak, extreme := s.beyondCloses, s.insideStreak, s.extreme;
      age, continuationBars, failures, events := s.age, s.continuationBars, s.failures, s.events;
    }

    /** Make a transition; the table has been shown to allow every one the tracker makes. */
    method GoTo(next: State) returns (t: Transition)
      requires next in Allowed(state)
      modifies this
      ensures Value() == old(Value()).(state := next, events := old(events) + [next]) && t == Transition(old(state), next)
    {
      t := Transition(state, next);
      state := next;
      events := events + [next];
    }

    method Failed() returns (t: Transition)
      requires FakeoutRisk in Allowed(state)
      modifies this
      ensures Going(Value(), [t]) == Fail(Going(old(Value()), []))
    {
      failures := failures + 1;
      t := GoTo(FakeoutRisk);
    }

    /** Apply one closed candle; `None` is the error for one that is not closed. */
    method Evaluate(p: Params, c: Candle, atr: Option<real>) returns (out: Option<seq<Transition>>)
      modifies this
      ensures out.None? <==> !c.closed
      ensures out.None? ==> Value() == old(Value())
      ensures out.Some? ==> Evaluation(p, old(Value()), c, atr) == Evaluated(Going(Value(), out.value))
    {
      if !c.closed {
        return None;
      }
      if state.Terminal() || (c.openTime <= updated && state != Observing) {
        return Some([]);
      }
      age := age + 1;
      if (if bull then c.close < invalidation else invalidation < c.close) {
        var t := GoTo(Invalidated);
        updated := c.openTime;
        assert [] + [t] == [t];
        return Some([t]);
      }
      var moves := Advance(p, c, if atr.Some? then atr.value else 0.0);
      return Some(moves);
    }

    method Advance(p: Params, c: Candle, atr: real) returns (out: seq<Transition>)
      requires !state.Terminal()
      modifies this
      ensures var s := old(Value()); var beyond, follow := Beyond(c.close, s.anchor, s.bull), FollowsThrough(s, c);
        Finish(p, ByState(p, Opened(Counted(s, beyond)), beyond, follow, Touches(p, s, c, atr)), c, beyond && follow) == Going(Value(), out)
    {
      hide Finish, ByState, Opened, Counted;
      var beyond := Beyond(c.close, anchor, bull);
      var follow := if bull then extreme < c.close else c.close < extreme;
      var touched := if bull then c.low <= anchor + p.retestTolerance * atr else anchor - p.retestTolerance * atr <= c.high;
      Count(beyond);
      out := Open();
      var step := StepByState(p, beyond, follow, touched);
      out := CloseOff(p, out + step, c, beyond && follow);
    }

    method Count(beyond: bool)
      modifies `beyondCloses, `insideStreak
      ensures Value() == Counted(old(Value()), beyond)
    {
      if beyond {
        beyondCloses, insideStreak := beyondCloses + 1, 0;
      } else {
        insideStreak := insideStreak + 1;
      }
    }

    method Open() returns (out: seq<Transition>)
      requires !state.Terminal()
      modifies this
      ensures Opened(old(Value())) == Going(Value(), out) && !state.Terminal() && state != Observing
    {
      out := [];
      if state == Observing {
        var t := GoTo(Watch);
        assert [] + [t] == [t];
        out := [t];
      }
    }

    method CloseOff(p: Params, before: seq<Transition>, c: Candle, moved: bool) returns (out: seq<Transition>)
      modifies this
      ensures Finish(p, Going(old(Value()), before), c, moved) == Going(Value(), out)
    {
      out := before;
      if moved {
        extreme := c.close;
      }
      if !state.Terminal() && p.maxAge <= age {
        var t := GoTo(Completed);
        out := out + [t];
      }
      updated := c.openTime;
    }

    method StepByState(p: Params, beyond: bool, follow: bool, touched: bool) returns (out: seq<Transition>)
      requires !state.Terminal() && state != Observing
      modifies this
      ensures forall before :: ByState(p, Going(old(Value()), before), beyond, follow, touched) == Going(Value(), before + out)
    {
      ghost var s := Value();
      assert forall before: seq<Transition> :: before + [] == before;
      out := [];
      if state == Continuation {
        continuationBars := continuationBars + 1;
      }
      if !beyond {
        if state == FakeoutRisk {
          var t := GoTo(Invalidated);
          return [t];
        }
        var t := Failed();
        return [t];
      }
      match state
      case Watch =>
        if p.acceptanceCloses <= beyondCloses {
          var t := GoTo(Developing);
          return [t];
        }
      case Developing =>
        if follow {
          var t := GoTo(Confirmed);
          return [t];
        }
      case Confirmed =>
        if touched {
          var t := GoTo(Pullback);
          return [t];
        }
      case Pullback =>
        if follow {
          continuationBars := 0;
          var t := GoTo(Continuation);
          return [t];
        }
      case Continuation =>
        if p.completionBars <= continuationBars {
          var t := GoTo(Completed);
          return [t];
        }
      case FakeoutRisk =>
        var t := GoTo(Confirmed);
        return [t];
      case _ =>
    }
  }
}
