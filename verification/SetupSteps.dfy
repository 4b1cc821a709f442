/** What one closed candle does to a setup, state by state, in terms of prices and counters alone. */
module SetupSteps {
  import opened Timeline
  import opened Candles
  import opened Lifecycle
  import opened Sequences
  import LifecycleLaws

  // ------------------------------------------------------------------ prices, seen from the trade

  /** How far a price lies beyond a level, in the direction of the trade. */
  function Gain(bull: bool, price: real, level: real): real { if bull then price - level else level - price }

  /** The price of a candle that goes furthest against the trade. */
  function Worst(bull: bool, c: Candle): real { if bull then c.low else c.high }

  /** The close is beyond the anchor. */
  predicate ClosesBeyond(s: Setup, c: Candle) { Gain(s.bull, c.close, s.anchor) > 0.0 }

  /** The close goes further than any accepted close before. */
  predicate Extends(s: Setup, c: Candle) { Gain(s.bull, c.close, s.extreme) > 0.0 }

  /** The candle comes back to within the retest band around the anchor; without a range the band is the anchor. */
  predicate Retests(p: Params, s: Setup, c: Candle, atr: Option<real>) {
    Gain(s.bull, Worst(s.bull, c), s.anchor) <= p.retestTolerance * (if atr.Some? then atr.value else 0.0)
  }

  /** The close breaks the invalidation level. */
  predicate Breaks(s: Setup, c: Candle) { Gain(s.bull, c.close, s.invalidation) < 0.0 }

  /** The candle is newer than the last one taken in, or the first. */
  predicate Newer(s: Setup, c: Candle) { s.state == Observing || s.updated < c.openTime }

  /** The limit of age is not reached with this candle. */
  predicate Young(p: Params, s: Setup) { s.age + 1 < p.maxAge }

  lemma Readings(p: Params, s: Setup, c: Candle, atr: Option<real>)
    ensures ClosesBeyond(s, c) <==> Beyond(c.close, s.anchor, s.bull)
    ensures Extends(s, c) <==> FollowsThrough(s, c)
    ensures Retests(p, s, c, atr) <==> Touches(p, s, c, if atr.Some? then atr.value else 0.0)
    ensures Breaks(s, c) <==> Invalidates(s, c)
  {
    var band := p.retestTolerance * (if atr.Some? then atr.value else 0.0);
    assert c.low - s.anchor <= band <==> c.low <= s.anchor + band;
    assert s.anchor - c.high <= band <==> s.anchor - band <= c.high;
  }

  /** A closed candle that counts takes the setup to `next`. */
  ghost predicate Becomes(p: Params, s: Setup, c: Candle, atr: Option<real>, next: State) {
    var o := Evaluation(p, s, c, atr);
    o.Evaluated? && o.progress.Going? && o.progress.setup.state == next
  }

  /** The setup as the candle finds it: a candle older, its close counted, and watched from now on. */
  function Met(s: Setup, c: Candle): Progress {
    var t := s.(age := s.age + 1,
                beyondCloses := if ClosesBeyond(s, c) then s.beyondCloses + 1 else s.beyondCloses,
                insideStreak := if ClosesBeyond(s, c) then 0 else s.insideStreak + 1);
    if s.state == Observing then Going(t.(state := Watch, events := s.events + [Watch]), [Transition(Observing, Watch)]) else Going(t, [])
  }

  lemma EvaluationIs(p: Params, s: Setup, c: Candle, atr: Option<real>)
    requires c.closed && Newer(s, c) && !s.state.Terminal()
    ensures Breaks(s, c) ==>
              Evaluation(p, s, c, atr)
              == Evaluated(Going(s.(age := s.age + 1, state := Invalidated, events := s.events + [Invalidated], updated := c.openTime),
                                 [Transition(s.state, Invalidated)]))
    ensures !Breaks(s, c) ==>
              Evaluation(p, s, c, atr)
              == Evaluated(Finish(p, ByState(p, Met(s, c), ClosesBeyond(s, c), Extends(s, c), Retests(p, s, c, atr)), c, ClosesBeyond(s, c) && Extends(s, c)))
  {
    Readings(p, s, c, atr);
    hide Gain, FollowsThrough, Touches, Beyond, Invalidates, ClosesBeyond, Extends, Retests, Breaks, ByState, Finish;
    EmptyLeft([Transition(s.state, Invalidated)]);
    EmptyLeft([Transition(Observing, Watch)]);
  }

  lemma FinishIs(p: Params, g: Progress, c: Candle, moved: bool)
    requires g.Going? && g.setup.state != Observing
    ensures var h := Finish(p, g, c, moved);
      && h.Going? && h.setup.state == (if !g.setup.state.Terminal() && p.maxAge <= g.setup.age then Completed else g.setup.state)
      && h.setup == g.setup.(state := h.setup.state, events := h.setup.events, updated := c.openTime,
                             extreme := if moved then c.close else g.setup.extreme)
  {
  }

  /** What the rules of the state make of it, before the limit of age. */
  function Ruled(p: Params, s: Setup, c: Candle, atr: Option<real>): Progress {
    ByState(p, Met(s, c), ClosesBeyond(s, c), Extends(s, c), Retests(p, s, c, atr))
  }

  lemma RuledThenAged(p: Params, s: Setup, c: Candle, atr: Option<real>)
    requires c.closed && Newer(s, c) && !s.state.Terminal() && !Breaks(s, c)
    requires Ruled(p, s, c, atr).Going? && Ruled(p, s, c, atr).setup.state != Observing
    ensures var r := Ruled(p, s, c, atr).setup;
      && Evaluation(p, s, c, atr).Evaluated? && Evaluation(p, s, c, atr).progress.Going?
      && var n := Evaluation(p, s, c, atr).progress.setup;
         n == r.(state := if !r.state.Terminal() && p.maxAge <= r.age then Completed else r.state, events := n.events, updated := c.openTime,
                 extreme := if ClosesBeyond(s, c) && Extends(s, c) then c.close else r.extreme)
  {
    hide ClosesBeyond, Extends, Retests, Breaks, ByState, Finish, Evaluation, Met;
    EvaluationIs(p, s, c, atr);
    FinishIs(p, Ruled(p, s, c, atr), c, ClosesBeyond(s, c) && Extends(s, c));
  }

  // ------------------------------------------------------------------ what becomes of the state

  /** Whatever the state: a close that breaks the level invalidates, whatever the age. */
  lemma AnyBreaks(p: Params, s: Setup, c: Candle, atr: Option<real>)
    requires c.closed && Newer(s, c) && !s.state.Terminal()
    ensures Becomes(p, s, c, atr, Invalidated) <==> Breaks(s, c) || (s.state == FakeoutRisk && !ClosesBeyond(s, c))
  {
    hide ClosesBeyond, Extends, Retests, Breaks, Finish, Evaluation, Apply;
    EvaluationIs(p, s, c, atr);
    if !Breaks(s, c) { RuledThenAged(p, s, c, atr); }
  }

  /** OBSERVED OR WATCHED: developing once enough closes lie beyond the anchor; a close inside is a failure. */
  lemma WatchSteps(p: Params, s: Setup, c: Candle, atr: Option<real>)
    requires c.closed && Newer(s, c) && s.state in {Observing, Watch} && !Breaks(s, c)
    ensures Becomes(p, s, c, atr, Developing) <==> Young(p, s) && ClosesBeyond(s, c) && p.acceptanceCloses <= s.beyondCloses + 1
    ensures Becomes(p, s, c, atr, Watch) <==> Young(p, s) && ClosesBeyond(s, c) && s.beyondCloses + 1 < p.acceptanceCloses
    ensures Becomes(p, s, c, atr, FakeoutRisk) <==> Young(p, s) && !ClosesBeyond(s, c)
    ensures Becomes(p, s, c, atr, Completed) <==> !Young(p, s)
  {
    hide ClosesBeyond, Extends, Retests, Breaks, Finish, Evaluation, Apply;
    RuledThenAged(p, s, c, atr);
  }

  /** DEVELOPING: confirmed by a close beyond the anchor that also goes beyond every accepted close before. */
  lemma DevelopingSteps(p: Params, s: Setup, c: Candle, atr: Option<real>)
    requires c.closed && Newer(s, c) && s.state == Developing && !Breaks(s, c)
    ensures Becomes(p, s, c, atr, Confirmed) <==> Young(p, s) && ClosesBeyond(s, c) && Extends(s, c)
    ensures Becomes(p, s, c, atr, Developing) <==> Young(p, s) && ClosesBeyond(s, c) && !Extends(s, c)
    ensures Becomes(p, s, c, atr, FakeoutRisk) <==> Young(p, s) && !ClosesBeyond(s, c)
    ensures Becomes(p, s, c, atr, Completed) <==> !Young(p, s)
  {
    hide ClosesBeyond, Extends, Retests, Breaks, Finish, Evaluation, Apply;
    RuledThenAged(p, s, c, atr);
  }

  /** CONFIRMED: a pullback once a candle that closes beyond the anchor reaches the retest band. */
  lemma ConfirmedSteps(p: Params, s: Setup, c: Candle, atr: Option<real>)
    requires c.closed && Newer(s, c) && s.state == Confirmed && !Breaks(s, c)
    ensures Becomes(p, s, c, atr, Pullback) <==> Young(p, s) && ClosesBeyond(s, c) && Retests(p, s, c, atr)
    ensures Becomes(p, s, c, atr, Confirmed) <==> Young(p, s) && ClosesBeyond(s, c) && !Retests(p, s, c, atr)
    ensures Becomes(p, s, c, atr, FakeoutRisk) <==> Young(p, s) && !ClosesBeyond(s, c)
    ensures Becomes(p, s, c, atr, Completed) <==> !Young(p, s)
  {
    hide ClosesBeyond, Extends, Retests, Breaks, Finish, Evaluation, Apply;
    RuledThenAged(p, s, c, atr);
  }

  /** PULLED BACK: continued by a close beyond the anchor and every accepted close before. */
  lemma PullbackSteps(p: Params, s: Setup, c: Candle, atr: Option<real>)
    requires c.closed && Newer(s, c) && s.state == Pullback && !Breaks(s, c)
    ensures Becomes(p, s, c, atr, Continuation) <==> Young(p, s) && ClosesBeyond(s, c) && Extends(s, c)
    ensures Becomes(p, s, c, atr, Pullback) <==> Young(p, s) && ClosesBeyond(s, c) && !Extends(s, c)
    ensures Becomes(p, s, c, atr, FakeoutRisk) <==> Young(p, s) && !ClosesBeyond(s, c)
    ensures Becomes(p, s, c, atr, Completed) <==> !Young(p, s)
  {
    hide ClosesBeyond, Extends, Retests, Breaks, Finish, Evaluation, Apply;
    RuledThenAged(p, s, c, atr);
  }

  /** CONTINUED: complete after enough candles that closed beyond the anchor, or at the limit of age. */
  lemma ContinuationSteps(p: Params, s: Setup, c: Candle, atr: Option<real>)
    requires c.closed && Newer(s, c) && s.state == Continuation && !Breaks(s, c)
    ensures Becomes(p, s, c, atr, Completed) <==> !Young(p, s) || (ClosesBeyond(s, c) && p.completionBars <= s.continuationBars + 1)
    ensures Becomes(p, s, c, atr, Continuation) <==> Young(p, s) && ClosesBeyond(s, c) && s.continuationBars + 1 < p.completionBars
    ensures Becomes(p, s, c, atr, FakeoutRisk) <==> Young(p, s) && !ClosesBeyond(s, c)
  {
    hide ClosesBeyond, Extends, Retests, Breaks, Finish, Evaluation, Apply;
    RuledThenAged(p, s, c, atr);
  }

  /** AT RISK: a close beyond the anchor confirms again, or completes at the limit of age; one inside invalidates. */
  lemma FakeoutSteps(p: Params, s: Setup, c: Candle, atr: Option<real>)
    requires c.closed && Newer(s, c) && s.state == FakeoutRisk && !Breaks(s, c)
    ensures Becomes(p, s, c, atr, Confirmed) <==> Young(p, s) && ClosesBeyond(s, c)
    ensures Becomes(p, s, c, atr, Completed) <==> !Young(p, s) && ClosesBeyond(s, c)
    ensures Becomes(p, s, c, atr, Invalidated) <==> !ClosesBeyond(s, c)
  {
    hide ClosesBeyond, Extends, Retests, Breaks, Finish, Evaluation, Apply;
    RuledThenAged(p, s, c, atr);
  }

  // ------------------------------------------------------------------ what becomes of the counters

  /** The rules of the state touch only the state, the failures and the bars of a continuation. */
  lemma RuledCounters(p: Params, s: Setup, c: Candle, atr: Option<real>)
    requires !s.state.Terminal()
    ensures var r, beyond := Ruled(p, s, c, atr), ClosesBeyond(s, c);
      && r.Going? && r.setup.state != Observing
      && r.setup == Met(s, c).setup.(state := r.setup.state, events := r.setup.events,
           failures := if beyond || s.state == FakeoutRisk then s.failures else s.failures + 1,
           continuationBars := if s.state == Continuation then s.continuationBars + 1
                               else if s.state == Pullback && beyond && Extends(s, c) then 0 else s.continuationBars)
  {
    hide ClosesBeyond, Extends, Retests;
  }

  /** THE COUNTERS: every candle that counts ages the setup. Unless it breaks the level, one that closes beyond the
      anchor counts and ends the streak inside, one that does not lengthens it and, but for a setup at risk,
      is a failure; only a close beyond the anchor moves the extreme, and only onward; and the levels stay. */
  lemma Counters(p: Params, s: Setup, c: Candle, atr: Option<real>)
    requires c.closed && Newer(s, c) && !s.state.Terminal()
    ensures Evaluation(p, s, c, atr).Evaluated? && Evaluation(p, s, c, atr).progress.Going?
    ensures var n := Evaluation(p, s, c, atr).progress.setup; var beyond := ClosesBeyond(s, c);
      && n.age == s.age + 1 && n.updated == c.openTime
      && n.bull == s.bull && n.anchor == s.anchor && n.invalidation == s.invalidation
      && if Breaks(s, c) then
           n == s.(age := n.age, updated := n.updated, state := Invalidated, events := s.events + [Invalidated])
         else
           && n.beyondCloses == (if beyond then s.beyondCloses + 1 else s.beyondCloses)
           && n.insideStreak == (if beyond then 0 else s.insideStreak + 1)
           && n.failures == (if beyond || s.state == FakeoutRisk then s.failures else s.failures + 1)
           && n.extreme == (if beyond && Extends(s, c) then c.close else s.extreme)
           && n.continuationBars == (if s.state == Continuation then s.continuationBars + 1
                                     else if s.state == Pullback && beyond && Extends(s, c) then 0 else s.continuationBars)
  {
    hide ClosesBeyond, Extends, Retests, Breaks, Finish, Evaluation, Apply, Ruled, ByState;
    EvaluationIs(p, s, c, atr);
    RuledCounters(p, s, c, atr);
    if !Breaks(s, c) { RuledThenAged(p, s, c, atr); }
  }

  /** NO OTHER CANDLE COUNTS: one still forming is an error, and one not newer, or after the end, changes nothing. */
  lemma OthersIgnored(p: Params, s: Setup, c: Candle, atr: Option<real>)
    requires !c.closed || s.state.Terminal() || !Newer(s, c)
    ensures Evaluation(p, s, c, atr) == if !c.closed then NotClosed else Evaluated(Going(s, []))
  {
  }

  /** THE ORIGIN COUNTS: the first candle beyond the anchor makes a new setup developing when it and the origin's
      own close, if that lay beyond, are enough; and the extreme starts from the origin's close. */
  lemma OriginCounts(p: Params, bull: bool, anchor: real, origin: Candle, range: Option<real>, c: Candle, atr: Option<real>)
    requires var s := LifecycleLaws.Create(bull, anchor, origin, range); c.closed && ClosesBeyond(s, c) && !Breaks(s, c) && 1 < p.maxAge
    ensures var s := LifecycleLaws.Create(bull, anchor, origin, range);
      && (Becomes(p, s, c, atr, Developing) <==> p.acceptanceCloses <= if Gain(bull, origin.close, anchor) > 0.0 then 2 else 1)
      && Evaluation(p, s, c, atr).Evaluated? && Evaluation(p, s, c, atr).progress.Going?
      && Evaluation(p, s, c, atr).progress.setup.extreme == if Gain(bull, c.close, origin.close) > 0.0 then c.close else origin.close
  {
    var s := LifecycleLaws.Create(bull, anchor, origin, range);
    WatchSteps(p, s, c, atr);
    Counters(p, s, c, atr);
    hide Evaluation, Breaks, Becomes;
  }
}
