/** The continuity service at work on a live pipeline: each method does to the pipeline's value what the
    operation of the same name does on values. */
module Service {
  import opened Timeline
  import opened Candles
  import opened Sequences
  import opened Sorting
  import opened Continuity
  import opened LivePipeline
  import P = Pipeline
  import T = Tower
  import RepairOrder

  /** How many expected minutes there were, which stayed missing, and how many minutes were fed. */
  datatype RecoveryOutcome = RecoveryOutcome(fed: nat, expected: nat, missing: seq<Instant>)

  class ContinuityService {
    const allowZeroTradeFill: bool

    constructor (allowZeroTradeFill: bool)
      ensures this.allowZeroTradeFill == allowZeroTradeFill
    {
      this.allowZeroTradeFill := allowZeroTradeFill;
    }

    /** The open minutes of [start, end), listed by a loop. */
    method Minutes(start: Instant, end: Instant, isOpen: Instant -> bool) returns (out: seq<Instant>)
      ensures out == OpenMinutes(start, end, isOpen)
    {
      out := [];
      var t := start;
      while t < end
        invariant out + OpenMinutes(t, end, isOpen) == OpenMinutes(start, end, isOpen)
        decreases end - t
      {
        Associate(out, if isOpen(t) then [t] else [], OpenMinutes(t + MINUTE, end, isOpen));
        EmptyRight(out);
        if isOpen(t) {
          out := out + [t];
        }
        t := t + MINUTE;
      }
      EmptyRight(out);
    }

    method MarkMissing(p: CandlePipeline, minutes: seq<Instant>)
      requires p.Valid()
      modifies p`pendingVerification
      ensures p.Valid() && p.Value() == MarkAll(old(p.Value()), minutes)
    {
      hide T.Stacked;
      ghost var v := p.Value();
      var rest := minutes;
      while rest != []
        invariant p.Valid() && MarkAll(p.Value(), rest) == MarkAll(v, minutes)
      {
        p.MarkPending(rest[0]);
        rest := rest[1..];
      }
    }

    /** Feed what the broker returned; what it did not return waits. */
    method ApplyRecovery(p: CandlePipeline, r: FetchResult) returns (o: RecoveryOutcome)
      requires p.Valid()
      modifies p, p.m1, p.primaryAgg, p.higher
      ensures p.Valid() && p.Value() == Continuity.ApplyRecovery(old(p.Value()), r, allowZeroTradeFill)
      ensures o.fed == |p.admitted| - |old(p.admitted)| && o.expected == |OpenMinutes(r.start, r.end, p.config.isOpen)|
      ensures o.missing == LeftMissing(old(p.Value()), r, allowZeroTradeFill)
    {
      hide T.Stacked, P.Pipeline.RecoverM1, FillFlat, Sort;
      var isOpen := p.config.isOpen;
      var expected := Minutes(r.start, r.end, isOpen);
      if !r.ok {
        MarkMissing(p, expected);
        return RecoveryOutcome(0, |expected|, expected);
      }
      var closed := InRange(r.candles, r.start, r.end);
      if allowZeroTradeFill {
        closed := FillFlatMinutes(closed, isOpen);
      }
      assert closed == ToFeed(r, allowZeroTradeFill, isOpen);
      var fed := p.RecoverM1(closed);
      var missing := StillMissing(expected, Covered(closed), p.seenM1);
      MarkMissing(p, missing);
      return RecoveryOutcome(fed, |expected|, missing);
    }

    /** Settle pending minutes with a fetched answer; a failed fetch settles none. */
    method ApplyVerification(p: CandlePipeline, r: FetchResult, now: Instant) returns (verified: seq<Instant>)
      requires p.Valid()
      modifies p, p.m1, p.primaryAgg, p.higher
      ensures p.Valid()
      ensures p.Value() == if r.ok then old(p.Value()).VerifyM1(r.candles, now, allowZeroTradeFill, Some(P.Range(r.start, r.end))) else old(p.Value())
    {
      hide T.Stacked, P.Pipeline.VerifyM1;
      if !r.ok {
        return [];
      }
      verified := p.VerifyM1(r.candles, now, allowZeroTradeFill, Some(P.Range(r.start, r.end)));
    }

    /** Repair one gap with the candle of the answer that opens where it does. */
    method ApplyRepair(p: CandlePipeline, gap: T.GapRecord, answer: Option<seq<Candle>>) returns (done: bool)
      requires p.Valid()
      modifies p`lastClosed, p`gaps, p`suspended, p`deferred, p`log, p.higher
      ensures p.Valid()
      ensures var c := Matching(answer, gap.openTime); var s := old(p.TowerValue());
        && (done <==> c.Some? && RepairOrder.Answers(s, c.value))
        && p.TowerValue() == if done then T.Repair(s, c.value) else s
    {
      hide T.Stacked, T.Dispatch, T.Drain;
      var bar := Matching(answer, gap.openTime);
      if bar.None? {
        return false;
      }
      done := p.Repair(bar.value);
    }

    /** Repair the unresolved gaps in order until one cannot be repaired. */
    method Repair(p: CandlePipeline, fetch: T.GapRecord -> Option<seq<Candle>>) returns (repaired: nat)
      requires p.Valid()
      modifies p`lastClosed, p`gaps, p`suspended, p`deferred, p`log, p.higher
      ensures p.Valid() && (p.TowerValue(), repaired) == RepairLoop(old(p.TowerValue()), OpenOf(old(p.gaps)), fetch)
    {
      hide T.Stacked, T.Repair, T.Tower.Setups, T.Evolves, T.Load, RepairOrder.Answers, FirstMatch, SetupsOf, SetupOf,
           CandlePipeline.TowerValue, OpenOf;
      ghost var s := p.TowerValue();
      ghost var now := s;
      var rest := OpenOf(p.gaps);
      ghost var list := rest;
      repaired := 0;
      while rest != []
        invariant p.Valid() && now == p.TowerValue()
        invariant now.Setups() == s.Setups() && T.Stacked(s.Setups())
        invariant var (t, n) := RepairLoop(now, rest, fetch); RepairLoop(s, list, fetch) == (t, repaired + n)
      {
        var done := ApplyRepair(p, rest[0], fetch(rest[0]));
        if !done {
          return;
        }
        now := T.Repair(now, Matching(fetch(rest[0]), rest[0].openTime).value);
        rest := rest[1..];
        repaired := repaired + 1;
      }
    }
  }
}
