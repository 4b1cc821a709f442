/** The live pipeline over whole runs: it starts fresh, every call does to its value what the run laws say,
    so those laws hold of the object itself. */
module LiveRuns {
  import opened Timeline
  import opened Candles
  import opened Buckets
  import opened Aggregation
  import opened LiveMinutes
  import opened PipelineLaws
  import opened LivePipeline
  import P = Pipeline
  import T = Tower
  import TowerLaws

  /** Aggregators just built have neither buckets nor gaps. */
  lemma TiersFresh(aggs: seq<TimeframeAggregator>, primary: Timeframe, timeframes: seq<Timeframe>, policy: BucketPolicy)
    requires Tiers(aggs, AbovePrimary(primary, timeframes), primary, timeframes, policy) && policy.Lawful()
    ensures var vs := Values(aggs); forall i :: 0 <= i < |vs| ==> vs[i].Valid() && vs[i].bucket.None? && vs[i].gapBuckets == map[]
  {
    hide BucketPolicy.Lawful;
    forall i | 0 <= i < |aggs| ensures var v := Values(aggs)[i]; v.Valid() && v.bucket.None? && v.gapBuckets == map[] {
      assert Configured(aggs[i], primary, timeframes, policy);
    }
  }

  /** A new pipeline over real bucket policies is fresh. */
  method Launch(config: P.Config, primary: Timeframe, timeframes: seq<Timeframe>, policy: Policy) returns (p: CandlePipeline)
    requires primary != M1
    ensures p.Valid() && fresh(p) && fresh(p.m1) && fresh(p.primaryAgg) && fresh(p.higher)
    ensures Fresh(p.Value()) && p.config == config
  {
    hide Tiers, BucketPolicy.Lawful, T.Stacked, TowerLaws.Fresh;
    p := new CandlePipeline(config, primary, timeframes, PolicyOf(policy));
    PolicyIsLawful(policy);
    NewTower(p.TowerValue(), p.higher, primary, timeframes, PolicyOf(policy));
  }

  lemma PolicyIsLawful(policy: Policy)
    ensures PolicyOf(policy).Lawful()
  {
  }

  lemma NewTower(t: T.Tower, aggs: seq<TimeframeAggregator>, primary: Timeframe, timeframes: seq<Timeframe>, policy: BucketPolicy)
    requires t == T.Tower(NewAgg(M1, primary, policy), Values(aggs), map[], [], false, [], [])
    requires Tiers(aggs, AbovePrimary(primary, timeframes), primary, timeframes, policy) && policy.Lawful() && primary != M1
    ensures TowerLaws.Fresh(t)
  {
    hide BucketPolicy.Lawful;
    TiersFresh(aggs, primary, timeframes, policy);
    TiersStacked(aggs, AbovePrimary(primary, timeframes), primary, timeframes, policy);
    hide Tiers;
    assert t.Setups() == SetupsOf(aggs);
    assert M1.Rank() < primary.Rank();
  }

  /** One call on the object. */
  method Perform(p: CandlePipeline, c: Call)
    requires p.Valid()
    modifies p, p.m1, p.primaryAgg, p.higher
    ensures p.Valid() && p.Value() == PipelineLaws.Perform(old(p.Value()), c)
  {
    hide CandlePipeline.Value, P.Pipeline.ReconcileM1, P.Pipeline.RecoverM1, CandlePipeline.Valid, Timeframe.Rank,
         Ascending, P.Pipeline.VerifyM1, P.Pipeline.Grows, P.Pipeline.FlushAt, P.Pipeline.Told, P.Pipeline.AddTick,
         P.Pipeline.RepairBar;
    match c
    case TickIn(t) => p.AddTick(t);
    case Connected(ts) => p.SetConnected(ts);
    case Disconnected => p.SetDisconnected();
    case Stalled => var _ := p.SetStale();
    case Clock(now) => p.FlushAt(now);
    case BeginRecovery => p.BeginRecovery();
    case Recover(cs) => var _ := p.RecoverM1(cs);
    case EndRecovery => p.EndRecovery();
    case Verify(cs, now, fill, fetched) => var _ := p.VerifyM1(cs, now, fill, fetched);
    case Unreturned(minute) => p.MarkPending(minute);
    case Reconcile(cs) => p.ReconcileM1(cs);
    case RepairGap(bar) => RepairGap(p, bar);
  }

  method RepairGap(p: CandlePipeline, bar: Candle)
    requires p.Valid()
    modifies p, p.m1, p.primaryAgg, p.higher
    ensures p.Valid() && p.Value() == old(p.Value()).RepairBar(bar)
  {
    hide T.Repair, T.Stacked, CandlePipeline.TowerValue;
    var _ := p.Repair(bar);
  }

  /** A whole run on the object. */
  method Play(p: CandlePipeline, calls: seq<Call>)
    requires p.Valid()
    modifies p, p.m1, p.primaryAgg, p.higher
    ensures p.Valid() && p.Value() == Run(old(p.Value()), calls)
  {
    hide PipelineLaws.Perform, CandlePipeline.Value, CandlePipeline.Valid;
    var i := 0;
    while i < |calls|
      invariant 0 <= i <= |calls| && p.Valid() && p.Value() == Run(old(p.Value()), calls[..i])
    {
      Perform(p, calls[i]);
      assert calls[..i + 1][..i] == calls[..i];
      i := i + 1;
    }
    assert calls[..i] == calls;
  }

  /** FAIL CLOSED, of the object: whatever is asked of a new pipeline, every minute it admits and every bar it
      hands to analysis is accounted for, and it is suspended exactly while a gap is unresolved. */
  method PlayFresh(config: P.Config, primary: Timeframe, timeframes: seq<Timeframe>, policy: Policy, calls: seq<Call>) returns (p: CandlePipeline)
    requires primary != M1
    ensures fresh(p) && p.Valid() && p.config == config
    ensures forall i :: 0 <= i < |p.admitted| ==>
              LiveCovered(p.fed, p.admitted[i]) || SomeCarries(calls, p.admitted[i]) || SomeFills(calls, p.admitted[i])
    ensures TowerLaws.LogJustified(p.TowerValue(), EvidenceFor(p.Value(), GivenBy(calls)))
    ensures p.suspended <==> exists k :: 0 <= k < |p.gaps| && !p.gaps[k].resolved
  {
    p := Launch(config, primary, timeframes, policy);
    ghost var start := p.Value();
    Play(p, calls);
    FailClosed(start, calls);
    TowerLaws.FirstOpenIff(p.gaps);
  }
}
