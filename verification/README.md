# Market-data continuity, calendar and cache: a verified model

A trading observer for the MCX commodity exchange turns a stream of ticks into one-minute bars, those into a primary
timeframe and those into higher ones. Only complete bars built from trustworthy minutes may reach analysis. The feed
drops, stalls and reconnects, the broker's history is partial, and the exchange keeps sessions, holidays and half days,
so the core of the system is a protocol for staying honest about what is known: which minutes were covered live, which
must be verified, which buckets have holes, what must wait, and what may be filled in.

This project models that protocol and the parts it rests on, and proves its promises for every run.

| Part | Modules |
|---|---|
| time, candles and their folds | Timeline, Candles, Sequences, Sorting |
| exchange calendar and bucket layout | Gregorian, Calendar, CalendarRules, Buckets, FourHours |
| bucket aggregation, streaming and batch | Aggregation, AggregationLaws, BarRuns, BatchAggregation |
| live minutes and their trust | LiveMinutes |
| the tower of aggregators: dispatch, gaps, deferral, repair, drain | Tower, TowerLaws, Reach, RepairOrder, DrainLoss |
| runs that lose bars, played on a short session | EarlyClose, LostBars |
| the pipeline around it | Pipeline, LivePipeline, PipelineLaws, SilentMinutes, LiveRuns, Reconnect |
| recovery, verification, reconciliation and repair against the broker | Continuity, Verification, Service |
| the historical cache | Intervals, Coverage, HistoricalCache, CacheLaws |
| smaller machines | Lifecycle, LifecycleLaws, SetupSteps, Pivots, RateLimiter |

Objects the program updates in place are classes here (`CandlePipeline`, `M1CandleBuilder`, `TimeframeAggregator`,
`ContinuityService`, `HistoricalCacheRepository`, `CandleRepository`, `CachedHistoricalProvider`, `TrackedSetup`,
`StructureEngine`, `Limiter`). Each has a ghost value, and each of its methods is proved equal to an operation on values;
the properties of runs are then lemmas about those operations. The histories a pipeline value carries (what the minute
builder was told, which minutes were admitted, which bars were dispatched) stand for the calls to the handlers.

Time is in whole seconds with the constant Indian offset of 19800; prices and volumes are exact reals.

## What the model found

Where the code and its comments or intentions differ, the code is followed.

- A drain computes the next gap once and overwrites the deferred list when it ends. A higher bar completed meanwhile is
  kept exactly when the tower is not suspended at the moment it is handed over, or a repair set off during the drain
  takes it up again (`DrainLoss.DrainKeepsIff`). Seen before the drain, when its bars fall in one
  bucket of each timeframe, all completed bars are kept if the tower is not suspended and all are lost if it is
  (`DrainLoss.CompletedKeptIffNotSuspended`). `LostBars.QuarterLostBehindGap` is a run that loses a bar because a later
  gap is open; `LostBars.QuarterLostWithoutGapBefore` one in which the drained bar itself uncovers the gap.
  Conservation therefore holds for a pipeline with only its primary timeframe.
- A repair accepts any open gap. Out of order it drops the older bar while marking its gap resolved
  (`RepairOrder.OutOfOrderLosesBar`); the order is kept exactly when the oldest gap is repaired
  (`RepairOrder.RepairKeepsOrderIff`). The service's repair loop does so (`Continuity.RepairsOldestFirst`), but a late
  minute repairs its own gap on arrival, so a verification that returns the younger gap's minute first loses the older
  bar without any loop (`LostBars.VerificationOutOfOrder`).
- The four-hour bucket laid out before a day's start reaches back four hours, and one laid out after a session's end can
  reach forward past midnight. Under a calendar with an early special session a minute is then expected by two buckets
  (`FourHours.MinuteExpectedTwice`); `FourHours.PartitionIff` says exactly when none is. Clock-aligned buckets have no
  such case (`Buckets.Partition`).
- An aggregator built on minutes other than the primary (a timeframe that is no multiple of the primary) never offers a
  late minute to its gaps, so only the broker's bar repairs them (`Reach.LateMinuteIgnored`); the primary does offer it
  (`Reach.EverythingReaches`).
- The pipeline's description says closed bars come primary first. A timeframe built on minutes directly is handed over
  before the primary when one minute completes both (`Reach.MinuteBuiltGoesFirst`).
- A rate limiter configured with a limit below one never grants (`RateLimiter.GrantableIff`).

## Model

| member | source | states |
|---|---|---|
| PipelineLaws.FailClosed | aureon_mcx/market/candle_builder.py:457-532 | for every sequence of the pipeline's twelve calls from a fresh pipeline: each admitted minute is closed and is a live minute covered from start to end, a broker minute some call carried, or a zero-trade fill some verification allowed; each dispatched bar is a broker bar some repair call carried or the fold of every expected constituent, each an admitted minute, a broker minute some reconciliation carried or a bar dispatched before it; per timeframe bars go out in strictly increasing order; and dispatch is suspended exactly while a gap is unresolved |
| PipelineLaws.GivenMeans | aureon_mcx/market/candle_builder.py:637-722 | what the run is said to have been given really was given: every broker minute, zero-trade answer and repair bar is an argument of some call of the run |
| PipelineLaws.ReconciledMeans | aureon_mcx/market/candle_builder.py:597-635 | every reconciled minute the tower may hold is a closed minute some reconciliation call carried |
| PipelineLaws.TrustedIsCovered | aureon_mcx/market/candle_builder.py:194-235 | a minute trusted as live had coverage that began at or before it and nothing broke the feed while it was open |
| PipelineLaws.MinuteAccounting | aureon_mcx/market/candle_builder.py:492-532 | after any run every minute the live builder ever closed is admitted or pending, no minute is admitted twice, and extending the run takes a minute out of pending only by admitting it |
| PipelineLaws.RunKeeps | aureon_mcx/market/candle_builder.py:637-706 | a longer run only grows the seen and admitted minutes and never forgets a pending minute |
| PipelineLaws.ScanExact | aureon_mcx/market/candle_builder.py:542-565 | the silent-minute scan adds to pending exactly the unaccounted minutes of the scanned grid, and nothing else |
| SilentMinutes.FlushFindsSilent | aureon_mcx/market/candle_builder.py:542-582 | over every run that brings minutes on the minute grid, after a clock flush outside recovery: every open-market minute of the grid at or after the one in which coverage began, later than every admitted minute, at most a day before the current minute and ended by now is processed, pending or forming; and what the flush queued is such a minute without a candle, or the forming minute, ended and not trusted |
| SilentMinutes.TrustedAreAdmitted | aureon_mcx/market/candle_builder.py:523-532 | over every run each minute that came out trusted has been admitted as it came out, and the mark of the last admitted minute is the latest open time admitted |
| SilentMinutes.MinuteGoes | aureon_mcx/market/candle_builder.py:513-532 | a minute that comes out is, when trusted, admitted and queued for reconciliation where that is on, and otherwise left pending; nothing else is admitted, queued or left pending |
| SilentMinutes.WindowHolds | aureon_mcx/continuity.py:302-311 | over every run that brings minutes on the minute grid the recovery window holds exactly the ended minutes from the forming one on, else those after every admitted one, else those from the fallback |
| Verification.VerifySettles | aureon_mcx/market/candle_builder.py:637-680 | a pending minute is still pending after verification if and only if it has not ended, or the answer has no closed minute there and no fill is due (allowed, inside the fetched range, closed minutes on both sides); one that leaves and was not processed is admitted with the last such candle of the answer, else with a bar without trades at the close of the closest minute before; minutes are admitted in order, and only pending ones |
| Verification.ReportedAreSettled | aureon_mcx/market/candle_builder.py:637-680 | the minutes a verification reports are, in increasing order, exactly the pending ones that left |
| Verification.RecoverAdmits | aureon_mcx/market/candle_builder.py:682-699 | recovery admits exactly the unprocessed closed minutes of the answer, in strictly increasing order whatever order they came in, the first candle of each |
| Verification.ReconcileCorrects | aureon_mcx/market/candle_builder.py:597-635 | exactly the answered minutes leave the queue; at each of them whose prices differ by more than 1e-9, or whose volume by more than the tolerated fraction, every open bucket fed by minutes that expects and holds the minute now holds the broker candle; nothing else of the pipeline changes |
| TowerLaws.TowerFailClosed | aureon_mcx/market/candle_builder.py:457-490 | the same fail-closed invariant for the tower of aggregators alone, over every run of minutes, clock ticks, broker bars and reconciled minutes |
| TowerLaws.PerformSafe | aureon_mcx/market/candle_builder.py:457-490 | one step keeps the invariant, keeps suspension equal to an unresolved gap, and never takes a dispatched bar back |
| TowerLaws.TryCompleteOk | aureon_mcx/market/aggregation.py:204-219 | a bar rebuilt from a late constituent is again the fold of all its expected constituents |
| Reconnect.ReconnectEquivalence | aureon_mcx/market/candle_builder.py:534-540 | losing the feed, buffering ticks, recovering the missed minutes from the broker and replaying ends with the same aggregators, the same dispatched bars, the same seen and admitted minutes as the uninterrupted run; the builder differs only in where coverage starts and nothing new is left pending |
| Reconnect.Uninterrupted | aureon_mcx/market/candle_builder.py:523-540 | during the outage the uninterrupted pipeline is the starting one plus exactly the minutes it admitted, in order |
| Reconnect.RecoverRest | aureon_mcx/market/candle_builder.py:682-699 | recovery of the missed minutes, one at a time, ends in the state that admits exactly those minutes with the buffered ticks still waiting |
| Reconnect.BoundaryTicks | aureon_mcx/market/timeutil.py:49-59 | a reconnect on a minute boundary puts every later tick in a later minute |
| RepairOrder.Conservation | aureon_mcx/market/candle_builder.py:457-490 | primary-only, gaps repaired oldest first, over every run of minutes, clock ticks, broker bars and reconciled minutes: dispatched then deferred bars are in strict time order, nothing at or after an unresolved gap was dispatched, every result the aggregator emitted is exactly one of dispatched, deferred or an unresolved gap, and once no gap is open all of them have been dispatched |
| RepairOrder.RepairKeepsOrderIff | aureon_mcx/market/candle_builder.py:708-722 | repairing a gap keeps the order invariant if and only if that gap is the oldest unresolved one |
| RepairOrder.OutOfOrderLosesBar | aureon_mcx/market/candle_builder.py:708-722 | repairing a younger gap first, then the older: the older gap is marked resolved and its bar is neither dispatched nor deferred |
| LostBars.VerificationOutOfOrder | aureon_mcx/market/candle_builder.py:492-511 | a run of five minutes from a fresh tower in which, without any repair loop, a late minute of the younger gap repairs it past the open older one, and the older bar, rebuilt afterwards, is lost |
| RepairOrder.RepairOldest | aureon_mcx/market/candle_builder.py:708-732 | repairing the oldest gap puts its bar between what was dispatched and what was deferred, loses nothing and keeps the order |
| RepairOrder.DrainOrdered | aureon_mcx/market/candle_builder.py:724-732 | draining moves exactly the deferred bars before the next gap to the log, in order, and keeps exactly the rest |
| RepairOrder.HandleAllOrdered | aureon_mcx/market/candle_builder.py:457-471 | handling a batch of results takes in exactly their bars and their gaps |
| DrainLoss.DrainKeepsOnlyOld | aureon_mcx/market/candle_builder.py:724-732 | whatever the drain leaves deferred was deferred before it began |
| DrainLoss.DrainKeepsIff | aureon_mcx/market/candle_builder.py:724-732 | of a drain of any tower, over any number of aggregators and deferred bars: a bar completed meanwhile is dispatched if and only if it was handed over while the tower was not suspended, or taken up again by a repair set off during the drain, when nothing as new of its timeframe had gone out; otherwise it is neither dispatched nor deferred |
| DrainLoss.CompletedKeptIffNotSuspended | aureon_mcx/market/candle_builder.py:724-732 | told before the drain: when the bars to be drained fall in one bucket of each timeframe, every bar the drain completes is dispatched if the tower is not suspended, and lost if it is |
| LostBars.QuarterLostBehindGap | aureon_mcx/market/candle_builder.py:724-732 | a run of six steps from a fresh tower that ends with a complete quarter neither dispatched nor deferred, its bucket closed for good: a later gap was open |
| LostBars.QuarterLostWithoutGapBefore | aureon_mcx/market/candle_builder.py:724-732 | a run of four steps in which no gap is open and nothing suspended when the drain begins; the drained bar closes an incomplete quarter first, and the quarter it then completes is lost |
| Tower.BudgetBound | aureon_mcx/market/candle_builder.py:365-372 | a dispatched bar outweighs everything it can set in motion above it: the measure behind termination of dispatch, handle, repair and drain |
| Tower.PendingKill | aureon_mcx/market/candle_builder.py:473-490 | dispatching a deferred bar takes its weight out of what is still to be dispatched |
| Tower.Dispatch | aureon_mcx/market/candle_builder.py:473-490 | the mutual recursion terminates; dispatch only extends the log, keeps the configuration, drops a deferred bar only once it is too old, and leaves the bar no longer dispatchable |
| Tower.Repair | aureon_mcx/market/candle_builder.py:708-722 | a repair terminates and keeps the same evolution |
| Tower.Drain | aureon_mcx/market/candle_builder.py:724-732 | a drain terminates and keeps the same evolution |
| Tower.FindGap | aureon_mcx/market/candle_builder.py:708-713 | the gap a repair picks is unresolved, of that timeframe and open time, no earlier one is, and none is found only if there is none |
| Tower.DrainInOrder | aureon_mcx/market/candle_builder.py:724-732 | deferred bars are drained in order of open time, and at one open time smaller timeframes first |
| Reach.EverythingReaches | aureon_mcx/market/candle_builder.py:473-511 | over every run of the tower each dispatched bar has been taken in by every aggregator built on its timeframe that had not passed it, and no gap remembered there still misses it; the same for each minute and the primary; and the other aggregators built on minutes have taken each minute in |
| Reach.ClockClosesAll | aureon_mcx/market/candle_builder.py:567-582 | after a clock flush every bucket of any timeframe that was open and whose end had come has been emitted, and the primary bucket closes for no other reason |
| Reach.LateMinuteIgnored | aureon_mcx/market/candle_builder.py:492-504 | a minute too late for an aggregator built on minutes other than the primary changes nothing there, though a gap may miss it |
| Reach.MinuteBuiltGoesFirst | aureon_mcx/market/candle_builder.py:492-511 | when one minute completes both the primary bar and a bar built on minutes directly, the latter is handed over before the primary one |
| LivePipeline.CandlePipeline.constructor | aureon_mcx/market/candle_builder.py:344-388 | a new pipeline is empty and holds one aggregator per requested timeframe above the primary, each wired to the source the constructor picks for it |
| LiveRuns.Launch | aureon_mcx/market/candle_builder.py:344-388 | a new pipeline over any calendar and any timeframes is fresh, so the theorems about runs apply to it |
| LiveRuns.Perform | aureon_mcx/market/candle_builder.py:410-732 | each of the twelve calls on the object does to its value what the run laws say |
| LiveRuns.Play | aureon_mcx/market/candle_builder.py:410-732 | so does every sequence of calls |
| LiveRuns.PlayFresh | aureon_mcx/market/candle_builder.py:457-532 | on the object, from its constructor through any calls: each admitted minute was covered live, carried by a broker answer or filled as allowed; each bar handed over is justified; it is suspended exactly while a gap is unresolved |
| LivePipeline.BuildHigher | aureon_mcx/market/candle_builder.py:365-372 | the higher aggregators are exactly the requested timeframes, without duplicates, each on its configured source |
| LivePipeline.TiersStacked | aureon_mcx/market/candle_builder.py:365-372 | every higher aggregator is fed by M1, the primary or a lower timeframe, whatever the list of timeframes |
| LivePipeline.SourcesAreFed | aureon_mcx/market/candle_builder.py:365-372 | every requested timeframe is built on minutes, the primary or another requested timeframe of which it is a multiple, on minutes only when it is no multiple of the primary, and four hours on hours whenever those are requested |
| LivePipeline.CandlePipeline.Handle | aureon_mcx/market/candle_builder.py:457-471 | the method in place equals the value operation on the tower |
| LivePipeline.CandlePipeline.Dispatch | aureon_mcx/market/candle_builder.py:473-490 | the method in place, with its recursive calls, equals the value operation |
| LivePipeline.CandlePipeline.Repair | aureon_mcx/market/candle_builder.py:708-722 | equals the value operation, and answers true exactly for a closed bar with a matching unresolved gap |
| LivePipeline.CandlePipeline.DrainDeferred | aureon_mcx/market/candle_builder.py:724-732 | the loop over the sorted deferred list equals the value operation |
| LivePipeline.CandlePipeline.OnM1Closed | aureon_mcx/market/candle_builder.py:492-511 | a minute enters aggregation once: a seen minute changes nothing, a new one is fed to the primary and to every aggregator built on M1 |
| LivePipeline.CandlePipeline.MarkPending | aureon_mcx/market/candle_builder.py:513-521 | only a minute neither seen nor pending is queued |
| LivePipeline.CandlePipeline.OnBuilt | aureon_mcx/market/candle_builder.py:523-532 | a trusted minute is admitted, any other is queued for verification |
| LivePipeline.CandlePipeline.AddTick | aureon_mcx/market/candle_builder.py:534-540 | a tick is buffered while recovering, else folded and the built minutes answered |
| LivePipeline.CandlePipeline.DetectSilent | aureon_mcx/market/candle_builder.py:542-565 | the scanning loop equals the scan that SilentMinutes.FlushFindsSilent characterises |
| LivePipeline.CandlePipeline.FlushAt | aureon_mcx/market/candle_builder.py:567-582 | minute flush, silent scan and bucket flushes in the source's order |
| LivePipeline.CandlePipeline.RecoveryStart | aureon_mcx/market/candle_builder.py:585-591 | the minute in progress, else the one after the last admitted: the start of the window SilentMinutes.WindowHolds characterises |
| LivePipeline.CandlePipeline.RecoverM1 | aureon_mcx/market/candle_builder.py:682-699 | the loop equals the operation that Verification.RecoverAdmits characterises, and counts the minutes admitted |
| LivePipeline.CandlePipeline.EndRecovery | aureon_mcx/market/candle_builder.py:701-706 | replays the buffered ticks through the live path |
| LivePipeline.CandlePipeline.VerifyM1 | aureon_mcx/market/candle_builder.py:637-680 | the loop equals the operation that Verification.VerifySettles characterises, and returns the list Verification.ReportedAreSettled is about |
| LivePipeline.CandlePipeline.ReconcileM1 | aureon_mcx/market/candle_builder.py:597-635 | the loop equals the operation that Verification.ReconcileCorrects characterises |
| LivePipeline.CandlePipeline.SetConnected | aureon_mcx/market/candle_builder.py:410-412 | tells the minute builder of the connection and nothing else |
| LivePipeline.CandlePipeline.SetDisconnected | aureon_mcx/market/candle_builder.py:414-416 | tells the minute builder of the loss and nothing else |
| LivePipeline.CandlePipeline.SetStale | aureon_mcx/market/candle_builder.py:418-425 | tells the minute builder of the stall and reports whether that was new |
| Pipeline.ZeroFill | aureon_mcx/market/candle_builder.py:637-680 | a zero-trade fill exists only for a minute strictly inside the fetched range with broker bars on both sides, and is flat at the previous close with no volume |
| LiveMinutes.TrustIsCoverage | aureon_mcx/market/candle_builder.py:194-264 | over every event trace, a minute is emitted trusted exactly when coverage had begun by its open and no disconnect, stall or later-stamped connect came while it was open |
| LiveMinutes.MinutesIncrease | aureon_mcx/market/candle_builder.py:245-311 | emitted minutes strictly increase over every trace |
| LiveMinutes.BarIsItsTicks | aureon_mcx/market/candle_builder.py:266-304 | with ticks in minute order every emitted bar has the open, close, extremes, volume and open interest of exactly the ticks of that minute before it closed |
| LiveMinutes.VolumesTelescope | aureon_mcx/market/candle_builder.py:266-304 | with only non-decreasing day volumes, emitted volume plus the open minute's volume equals the growth of the day volume since the first tick |
| LiveMinutes.MinuteEnds | aureon_mcx/market/candle_builder.py:266-311 | a minute comes out exactly at the first tick of a later minute, unless that tick is late, or when the clock has reached its end; a late tick adds to no minute and the clock changes nothing but what it ends |
| LiveMinutes.M1CandleBuilder.AddTick | aureon_mcx/market/candle_builder.py:266-304 | the method in place equals the value operation |
| LiveMinutes.M1CandleBuilder.FlushAt | aureon_mcx/market/candle_builder.py:306-311 | a minute is emitted when the clock reaches its end |
| LiveMinutes.M1CandleBuilder.SetConnected | aureon_mcx/market/candle_builder.py:207-216 | coverage starts, and an older forming minute loses trust |
| LiveMinutes.M1CandleBuilder.SetDisconnected | aureon_mcx/market/candle_builder.py:218-221 | coverage ends and the forming minute loses trust |
| LiveMinutes.M1CandleBuilder.SetStale | aureon_mcx/market/candle_builder.py:223-232 | the first stall costs the forming minute its trust |
| LiveMinutes.M1CandleBuilder.MarkEmittedUntil | aureon_mcx/market/candle_builder.py:245-250 | the emitted mark only moves forward |
| LiveMinutes.M1CandleBuilder.Emit | aureon_mcx/market/candle_builder.py:252-264 | the forming minute leaves as a closed bar, partial unless trusted |
| AggregationLaws.StreamingEqualsGrouping | aureon_mcx/market/aggregation.py:229-284 | for any arrival order inside buckets and non-decreasing order across them, with repetitions, misaligned bars and off-session prints, what is emitted is one result per bucket, computed from all that bucket's candles, in increasing order |
| AggregationLaws.ResultMeaning | aureon_mcx/market/aggregation.py:159-190 | present plus missing is expected; complete means every expected constituent; the bar opens with the earliest constituent, closes with the latest, spans exactly their prices, adds their volumes and carries the open interest of the latest that knows it |
| BarRuns.ResultsTell | aureon_mcx/market/aggregation.py:159-190 | over any run of arrivals in any order each result counts the expected opens that had come and names the others, and its bar opens with the earliest of the first arrivals, closes with the latest, spans exactly their prices and adds their volumes |
| BarRuns.RebuiltTells | aureon_mcx/market/aggregation.py:204-219 | a gap yields a bar exactly at the candle that was the last one missing, made of what the gap held and that candle |
| BarRuns.OpenStillWaits | aureon_mcx/market/aggregation.py:229-270 | after any run an open bucket misses an expected constituent or holds none that reaches its end: nothing complete is held back |
| BarRuns.ClockCloses | aureon_mcx/market/aggregation.py:280-284 | the clock closes an open bucket exactly when its end has come, with the bar of what it holds; otherwise nothing changes |
| AggregationLaws.OrderedIsSorted | aureon_mcx/market/aggregation.py:159-190 | what a bucket folds is exactly its constituents, each once, in strictly increasing open time |
| AggregationLaws.FirstArrivalWins | aureon_mcx/market/aggregation.py:229-270 | a repeated candle never replaces the first that arrived |
| AggregationLaws.ArrivalOrderFree | aureon_mcx/market/aggregation.py:159-190 | two deliveries of the same candles in any order and repetition give the same result |
| AggregationLaws.ReplacedIsFirst | aureon_mcx/market/aggregation.py:192-202 | after the broker's bar replaces a constituent of the open bucket, the bucket closes with the result it would have had if that bar had been the first to arrive |
| AggregationLaws.LateEqualsOnTime | aureon_mcx/market/aggregation.py:204-219 | however late the missing constituents of a gap come, nothing is rebuilt before the last and the last rebuilds the bar on-time delivery would have given |
| AggregationLaws.TwoLevelsEqualOne | aureon_mcx/market/aggregation.py:221-227 | aggregating source bars into middle bars and those into the target gives the same bar, in every field, as aggregating directly |
| AggregationLaws.CompleteSourceGivesMiddleBars | aureon_mcx/market/aggregation.py:221-227 | when every expected source bar is there, every middle bucket of the target is non-empty and complete |
| AggregationLaws.AddEffect | aureon_mcx/market/aggregation.py:229-270 | one candle yields at most two results, in increasing bucket order, past everything emitted before |
| Candles.TwoLevelFold | aureon_mcx/market/aggregation.py:221-227 | folding the folds of consecutive parts is folding the whole in every field, and the result opens with the first candle, closes with the last, spans exactly their prices, adds their volumes and carries the last known open interest |
| Candles.ExtremesAttained | aureon_mcx/market/aggregation.py:221-227 | the high and low of a fold are attained by constituents |
| Aggregation.TimeframeAggregator.constructor | aureon_mcx/market/aggregation.py:122-155 | a new aggregator has emitted nothing and holds nothing |
| Aggregation.TimeframeAggregator.Add | aureon_mcx/market/aggregation.py:229-270 | a forming candle or one of another timeframe is refused unchanged; any other is added as specified |
| Aggregation.TimeframeAggregator.Emit | aureon_mcx/market/aggregation.py:159-190 | the open bucket leaves as a result, and is kept aside when it is a gap |
| Aggregation.TimeframeAggregator.TryCompleteGap | aureon_mcx/market/aggregation.py:204-219 | the method in place equals the value operation |
| Aggregation.TimeframeAggregator.ReplaceConstituent | aureon_mcx/market/aggregation.py:192-202 | only a candle already in the open bucket is replaced |
| Aggregation.TimeframeAggregator.FlushAt | aureon_mcx/market/aggregation.py:280-284 | a bucket is emitted when the clock reaches its end |
| AggregationLaws.MarkedNeverReopens | aureon_mcx/market/aggregation.py:272-278 | after marking, over any run of candles every result is of a later bucket than the marked one, and the candles of buckets up to it might as well not have come; nothing else of the aggregator changes |
| BatchAggregation.AggregateWithStatus | aureon_mcx/market/aggregation.py:317-330 | refuses exactly when some candle is forming or of another timeframe; otherwise sorts by open time and streams |
| BatchAggregation.BatchIsGrouping | aureon_mcx/market/aggregation.py:317-330 | for any list of candles, in any order, the batch is one result per bucket in increasing order when the clock has passed the last bucket, unless four-hour buckets go back across a midnight |
| BatchAggregation.BucketsInOrder | aureon_mcx/market/aggregation.py:96-107 | later candles never fall in earlier buckets, under any calendar; for four-hour buckets, when none goes back across a midnight |
| Buckets.Partition | aureon_mcx/market/aggregation.py:96-115 | under any calendar, every open-market source interval is expected by its own clock-aligned bucket and by no other |
| FourHours.PartitionIff | aureon_mcx/market/sessions.py:332-349 | every open-market source interval is expected by its own four-hour bucket; and by no bucket that starts elsewhere if and only if, for every date, a session of the date before has ended four hours before a day start after midnight (or one of its steps begins there) and, if the date trades, the last bucket laid out on the date before has ended by its start |
| FourHours.MinuteExpectedTwice | aureon_mcx/market/sessions.py:332-349 | a calendar the loader accepts in which an open minute is expected by its own four-hour bucket and by the pre-open bucket of the next date |
| Buckets.ExpectedIff | aureon_mcx/market/aggregation.py:109-115 | the expected opens of a range are exactly its aligned open-market instants |
| Buckets.Policy.ExpectedOpens | aureon_mcx/market/aggregation.py:109-115 | the loop computes that list |
| Buckets.Nesting | aureon_mcx/market/aggregation.py:96-115 | when days start on the middle timeframe's grid, the opens a bucket expects are those of the middle buckets it expects, one after another |
| Buckets.SharedInstant | aureon_mcx/market/aggregation.py:96-107 | under any calendar, two clock-aligned buckets that share an instant have the same key |
| FourHours.SharedOpenInstant | aureon_mcx/market/sessions.py:332-349 | when the days are apart, a four-hour bucket that holds an open instant has the key of that instant's own |
| Buckets.KeyDeterminesBucket | aureon_mcx/market/aggregation.py:155-157 | the start of a clock-aligned bucket determines its end |
| FourHours.KeyDeterminesIff | aureon_mcx/market/sessions.py:332-349 | the start of a four-hour bucket determines its end if and only if no pre-open bucket begins with a bucket of the session before |
| FourHours.InOrderIff | aureon_mcx/market/sessions.py:332-349 | later instants never fall in an earlier four-hour bucket if and only if that holds across every midnight |
| Buckets.EffectiveCloseIsBucketEnd | aureon_mcx/market/sessions.py:245-257 | the effective close of an aligned open is the end of its bucket, for every timeframe but H4 |
| Buckets.BucketLastsWhileOpen | aureon_mcx/market/aggregation.py:96-107 | a clock-aligned bucket that starts while the market is open lasts to its nominal end, or to the end of the session if that comes first, and the market is open throughout |
| Buckets.H4Buckets | aureon_mcx/market/sessions.py:332-359 | the H4 buckets tile the session exactly, and the H4 bucket of every instant of the session is one of the tiles |
| Calendar.SessionCalendar.NextOpen | aureon_mcx/market/sessions.py:267-282 | the answer is open and no instant from the question to it is; no answer means nothing is open up to where the search stopped |
| Calendar.SessionCalendar.NextClose | aureon_mcx/market/sessions.py:284-296 | the answer is the least session end after the question; no answer means every session searched had ended |
| CalendarRules.StateAt | aureon_mcx/market/sessions.py:298-329 | open exactly when the calendar is open; a date that the configured years, overrides, holidays, pending sessions or weekend shut is closed for that reason; a half holiday is the reason exactly in its closed half; the next open and close are the least ones |
| CalendarRules.OpenByRules | aureon_mcx/market/sessions.py:136-190 | from the configured fields alone: every date is shut (uncovered year, closing override, legacy or full holiday, pending session, weekend) or has the times of the first rule that decides it (override, special session, half holiday, regular day with its seasonal end), and an instant of it is open exactly between those times |
| CalendarRules.HalfHolidays | aureon_mcx/market/sessions.py:181-187 | a morning holiday is open exactly from the evening session to the seasonal end, an evening holiday exactly from the start to the evening session |
| Gregorian.YearHolds | aureon_mcx/market/sessions.py:123-139 | the arithmetic year of a date is the one between whose New Year days it lies, and no other |
| Gregorian.NewYears | aureon_mcx/market/sessions.py:123-139 | New Year days are 365 or, in Gregorian leap years, 366 days apart, from day zero in 1970 |
| Calendar.EffectiveCloseMeans | aureon_mcx/market/sessions.py:245-257 | a bar that starts while the market is open closes at its nominal end or at the end of its session if that comes first, with the market open throughout; any other at its nominal end |
| Calendar.OpenWithin | aureon_mcx/market/sessions.py:206-239 | on each date the market is open exactly within that date's trading span |
| Calendar.ValidatedWithinDay | aureon_mcx/market/sessions.py:157-229 | a calendar whose configured times are in order keeps every trading day inside its date |
| Timeline.FloorCell | aureon_mcx/market/timeutil.py:49-59 | the floor of an instant is aligned, at most one step before it, and on the same local date |
| Timeline.FloorUnique | aureon_mcx/market/timeutil.py:49-59 | it is the only aligned instant within one step |
| Sorting.SortSorts | aureon_mcx/market/aggregation.py:317-330 | the sort returns the same candles, counted with repetition, in key order |
| Continuity.RecoveryAccountsForAll | aureon_mcx/continuity.py:313-334 | after applying a recovery, failed or answered with any closed minutes, every open minute of the window is seen or pending |
| Continuity.RecoveryAccounts | aureon_mcx/continuity.py:313-334 | for an answer of any candles at all, an open minute of the window is seen or pending if and only if it was before, the fetch failed, or the answer has a closed minute or nothing at that open time |
| Continuity.RecoveryKeeps | aureon_mcx/continuity.py:313-334 | a recovery never forgets a pending minute |
| Continuity.RecoveryInventsNothing | aureon_mcx/continuity.py:313-334 | without the fill, a recovery makes seen exactly the usable broker minutes inside its window |
| Continuity.FillIs | aureon_mcx/continuity.py:61-81 | the filled list holds exactly the input and the flat open minutes between neighbours |
| Continuity.FilledIsAbsent | aureon_mcx/continuity.py:61-81 | no filled minute stands at the open time of an input candle |
| Continuity.FillFlatMinutes | aureon_mcx/continuity.py:61-81 | the loop over sorted candles computes that list |
| Continuity.RecoveryWindow | aureon_mcx/continuity.py:302-311 | a window is non-empty, ends at the current minute and starts no later than a forming minute before it |
| Continuity.VerificationWindowCovers | aureon_mcx/continuity.py:337-344 | every pending minute that has ended lies strictly inside the verification window, which ends by the current minute, begins one minute before an ended pending minute and reaches at most two minutes past one |
| Continuity.RepairsOldestFirst | aureon_mcx/continuity.py:405-411 | the repair loop resolves a prefix of the open gaps, keeps the order invariant, loses no bar, stops only at a gap for which the first closed candle at its open time is missing or of another timeframe, and when it resolves all of them nothing is suspended or deferred |
| Service.ContinuityService.ApplyRecovery | aureon_mcx/continuity.py:313-334 | the method in place equals the specification and reports exactly what was fed, expected and missing |
| Service.ContinuityService.ApplyVerification | aureon_mcx/continuity.py:346-354 | a failed fetch changes nothing, otherwise the pending minutes are verified against it |
| Service.ContinuityService.ApplyRepair | aureon_mcx/continuity.py:367-376 | succeeds exactly when the answer holds a closed bar at the gap's open time and the pipeline has that gap open |
| Service.ContinuityService.Repair | aureon_mcx/continuity.py:405-411 | the loop with its early exit equals the specification and counts the repairs |
| Service.ContinuityService.Minutes | aureon_mcx/continuity.py:414-418 | exactly the open minutes of the window |
| CacheLaws.CacheSoundness | aureon_mcx/broker/dhan/historical.py:184-202 | for an arbitrary broker, after any history of loads with partial, empty, failed or stray answers, every possible bar inside a covered interval is stored |
| CacheLaws.CacheRefinement | aureon_mcx/broker/dhan/historical.py:184-202 | against a fixed truthful broker and a clock that never goes back, every load of every history succeeds and returns exactly what an uncached fetch of its range would |
| CacheLaws.LoadCovers | aureon_mcx/broker/dhan/historical.py:184-202 | a load covers exactly what was covered and what an answer proved: a closed, fetched bar inside the gap asked for |
| CacheLaws.FullLoadAsksNothingMore | aureon_mcx/broker/dhan/historical.py:184-202 | after a load answered in full, a load of any part of the range asks the broker nothing |
| CacheLaws.CoveredAsksNothing | aureon_mcx/broker/dhan/historical.py:184-202 | a fully covered range asks the broker nothing |
| CacheLaws.LoadIsFetch | aureon_mcx/broker/dhan/historical.py:184-202 | one load against a truthful broker: it succeeds, what is stored stays true, and the answer is the uncached fetch |
| CacheLaws.StoredIsLast | aureon_mcx/storage/repositories.py:99-125 | after storing a list of closed candles each key holds the prices, volume and open interest of the last candle under it and the source it was first stored with; other keys are as they were |
| Coverage.VerifiedExact | aureon_mcx/broker/dhan/historical.py:119-165 | a possible bar of the range lies in the verified coverage if and only if it has closed and is present; the intervals are sorted, apart and inside the range |
| Coverage.VerifiedFull | aureon_mcx/broker/dhan/historical.py:119-165 | a complete answer verifies the whole range as one interval |
| Coverage.VerifiedCoverage | aureon_mcx/broker/dhan/historical.py:119-165 | the method with its scans equals the specification |
| Coverage.ScanRuns | aureon_mcx/broker/dhan/historical.py:119-165 | the scanning loop finds the maximal runs of present bars |
| Coverage.ClosesInOrder | aureon_mcx/broker/dhan/historical.py:119-165 | bars close in the order they open, so the closed ones are a prefix |
| Intervals.MergeIntervals | aureon_mcx/storage/repositories.py:236-244 | the result is sorted, non-empty, positively apart and covers exactly the same points |
| Intervals.CanonicalUnique | aureon_mcx/storage/repositories.py:236-244 | that form is unique: two such lists with the same points are equal |
| Intervals.Uncovered | aureon_mcx/storage/repositories.py:197-214 | the gaps are in that form and are exactly the set difference |
| Intervals.IsCached | aureon_mcx/storage/repositories.py:191-195 | answers yes exactly when every instant of the range is covered |
| Intervals.CachedIffNothingUncovered | aureon_mcx/storage/repositories.py:191-214 | a range is cached if and only if nothing of it is uncovered |
| HistoricalCache.HistoricalCacheRepository.Record | aureon_mcx/storage/repositories.py:216-233 | adds exactly the new interval to what is covered and exactly its bars to the total |
| HistoricalCache.RecountConserves | aureon_mcx/storage/repositories.py:216-233 | distributing the old rows over the merged intervals keeps the total number of bars |
| HistoricalCache.OneHolder | aureon_mcx/storage/repositories.py:216-233 | an interval lies inside at most one interval of a merged list, so no row is counted twice |
| HistoricalCache.HistoricalCacheRepository.Uncovered | aureon_mcx/storage/repositories.py:197-214 | exactly the parts of the range the repository does not cover |
| HistoricalCache.HistoricalCacheRepository.IsCached | aureon_mcx/storage/repositories.py:191-195 | exactly when the repository covers the range |
| HistoricalCache.HistoricalCacheRepository.Coverage | aureon_mcx/storage/repositories.py:184-189 | the recorded intervals in order |
| HistoricalCache.CandleRepository.Insert | aureon_mcx/storage/repositories.py:99-122 | a forming candle is refused; a closed one is inserted or updates the prices of the row with its key |
| HistoricalCache.CandleRepository.InsertMany | aureon_mcx/storage/repositories.py:124-125 | inserts one by one and stops at the first refusal, keeping what came before it |
| HistoricalCache.CachedHistoricalProvider.Load | aureon_mcx/broker/dhan/historical.py:184-202 | asks the broker for exactly the uncovered gaps, stops at a failure, and returns the stored bars of the range |
| LifecycleLaws.RunFollowsTable | aureon_mcx/setups/lifecycle.py:111-202 | from any setup, through any closed candles, no illegal transition is reachable, the transitions form a chain of allowed ones from the first state to the last, and the extreme only moves in the setup's direction |
| LifecycleLaws.OverInTime | aureon_mcx/setups/lifecycle.py:111-202 | a setup is over once the candles evaluated reach its maximum age |
| LifecycleLaws.CreatedIsOverInTime | aureon_mcx/setups/lifecycle.py:74-100 | from creation, every run of at least that many later candles ends completed or invalidated along allowed transitions |
| LifecycleLaws.FakeoutResolves | aureon_mcx/setups/lifecycle.py:111-202 | an evaluated candle always takes a setup out of fakeout risk: invalidated exactly when it breaks or closes inside, confirmed exactly when it closes beyond with age left |
| SetupSteps.AnyBreaks | aureon_mcx/setups/lifecycle.py:129-143 | in every state a candle invalidates exactly when its close breaks the level, or, at fakeout risk, does not lie beyond the anchor |
| SetupSteps.WatchSteps | aureon_mcx/setups/lifecycle.py:156-164 | an observed or watched setup is developing exactly when the close lies beyond the anchor and enough closes have, stays watched exactly when they have not, is at risk exactly on a close inside, and complete exactly at the age limit |
| SetupSteps.DevelopingSteps | aureon_mcx/setups/lifecycle.py:164-170 | confirmed exactly on a close beyond the anchor and every accepted close before, before the age limit |
| SetupSteps.ConfirmedSteps | aureon_mcx/setups/lifecycle.py:171-176 | pulled back exactly when a candle that closes beyond the anchor reaches the retest band around it |
| SetupSteps.PullbackSteps | aureon_mcx/setups/lifecycle.py:177-183 | continued exactly on a close beyond the anchor and every accepted close before |
| SetupSteps.ContinuationSteps | aureon_mcx/setups/lifecycle.py:184-190 | complete exactly at the age limit or when enough candles since have closed beyond the anchor |
| SetupSteps.FakeoutSteps | aureon_mcx/setups/lifecycle.py:191-195 | confirmed again exactly on a close beyond the anchor before the age limit, complete at it, invalidated on a close inside |
| SetupSteps.Counters | aureon_mcx/setups/lifecycle.py:111-202 | what every candle does to age, closes beyond, streak inside, failures, continuation bars and extreme, in terms of prices; the levels stay |
| SetupSteps.OthersIgnored | aureon_mcx/setups/lifecycle.py:111-119 | a forming candle is an error; one not newer, or after the end, changes nothing |
| SetupSteps.OriginCounts | aureon_mcx/setups/lifecycle.py:86-97 | the close of the origin candle counts towards acceptance and starts the extreme |
| LifecycleLaws.MirrorRun | aureon_mcx/setups/lifecycle.py:103-202 | negating prices and swapping highs and lows turns every bullish run into the bearish run, transition by transition |
| LifecycleLaws.InvalidationBehindAnchor | aureon_mcx/setups/lifecycle.py:74-100 | with an average range that is missing or not negative, a new setup is invalidated strictly behind its anchor, at the far side of its origin candle when that lies behind the anchor and not before it otherwise, and stays so through every run |
| Lifecycle.TrackedSetup.Evaluate | aureon_mcx/setups/lifecycle.py:111-202 | refuses a forming candle unchanged; otherwise the in-place update equals the evaluation told state by state in SetupSteps, and is never illegal |
| LifecycleLaws.TableDecides | aureon_mcx/setups/lifecycle.py:129-136 | any sequence of requested transitions raises the exception exactly when the table forbids one of them after the one before; otherwise the setup ends in the last state, records all of them in order and is unchanged besides; nothing follows a terminal state |
| Pivots.PivotsAreIndices | aureon_mcx/structure/engine.py:90-122 | what is recorded is, in order and without repetition, one pivot for each pivot index: its price and open time, confirmed by the bar exactly its strength later |
| Pivots.IndicesArePivots | aureon_mcx/structure/engine.py:90-112 | the pivot indices are exactly those strictly beyond the bars on their left and at least equal to those on their right, with enough bars on the right |
| Pivots.PivotsApart | aureon_mcx/structure/engine.py:90-112 | two pivots of one kind are more than the strength apart |
| Pivots.LabelsCompare | aureon_mcx/structure/engine.py:46-60 | each recorded pivot is labelled against the one recorded just before it: first, equal within the tolerance at its confirming candle, higher or lower |
| Pivots.PivotsSnoc | aureon_mcx/structure/engine.py:90-114 | one more candle adds exactly the pivot it decides, labelled against the last known one |
| Pivots.StructureEngine.Update | aureon_mcx/structure/engine.py:90-114 | a forming or out-of-order candle is refused unchanged; otherwise the recorded highs and lows are those of all candles fed, and the newly confirmed ones are returned |
| RateLimiter.GrantsSpaced | aureon_mcx/broker/dhan/client.py:24-54 | with a clock that never goes back, grants that many places apart in either window are at least one second and sixty seconds apart |
| RateLimiter.SecondPassSucceeds | aureon_mcx/broker/dhan/client.py:37-54 | after sleeping at least the computed wait, the next pass grants |
| RateLimiter.WaitEndsOnTime | aureon_mcx/broker/dhan/client.py:37-54 | a wait longer than 0.05 seconds ends exactly when the oldest call of some full window leaves it |
| RateLimiter.GrantableIff | aureon_mcx/broker/dhan/client.py:24-36 | a pass can ever be granted if and only if both limits are at least one |
| RateLimiter.Limiter.Acquire | aureon_mcx/broker/dhan/client.py:37-54 | a lone caller is granted within two passes of the loop |
| RateLimiter.Limiter.Pass | aureon_mcx/broker/dhan/client.py:37-53 | one pass in place equals the specification |

## Left out

- RepairOrder.Conservation: for a pipeline with only its primary timeframe and oldest-first repair, because the code loses bars otherwise, as the two findings above show. For the whole tower fail-closed safety, order per timeframe and termination are proved instead.
- Reconnect.ReconnectEquivalence: ticks carry their last quantity, the reconnect comes before any tick it replays, at least one tick is buffered, and no bucket ends at a flush during the outage; the broker's minutes equal what the missed ticks would have built. Other reconnects differ by design: the broker's bars or later ticks are not the same data.
- SilentMinutes.FlushFindsSilent: for runs whose broker minutes lie on the minute grid, here and in SilentMinutes.WindowHolds; after one off the grid the code scans minutes off the grid.
- CalendarRules.OpenByRules: for days inside one local date, as in Calendar.SessionCalendar.NextOpen.
- LiveMinutes.BarIsItsTicks: for ticks in minute order, because the code folds an older tick into the forming minute.
- AggregationLaws.StreamingEqualsGrouping: for buckets arriving in order, because the code emits a bucket when a later one begins.
- BatchAggregation.BatchIsGrouping: four-hour buckets must not go back across a midnight (`FourHours.InOrderIff`), because a candle of an earlier bucket than the open one is dropped.
- AggregationLaws.TwoLevelsEqualOne: for a calendar whose day starts are aligned to the middle timeframe, because a middle bucket can otherwise straddle the start of a day.
- Calendar.SessionCalendar.NextOpen: trading days lie inside one local date, here and wherever a calendar is asked to keep its days inside it; a session that crosses midnight is not modelled.
- RateLimiter.Limiter.Acquire: one caller; the clock and sleep are one function that returns a time at least the wait later.
- Aggregation.TimeframeAggregator.constructor: a source not below the target, LivePipeline.CandlePipeline.constructor with an M1 primary and Pivots.StructureEngine.constructor with a strength below one are errors in the code and preconditions here.
- Symbol, security, expiry and database identifiers, and rows of other contracts: one contract at a time.
- Trust audit records, pending reasons, feed generations, last close prices, metrics, logging and thread checks: they decide nothing modelled.
- Bounded buffers (aggregation results, the fifty kept gap buckets, the 4096 seen minutes, the 720 trust records) are unbounded here.
- Warm-up and restart seeding, the incident tracker's back-off and abandonment, and reconciliation reports.
- The structure engine's trend context and sequence; a setup's reasons, evidence, family and closing time.
- HTTP chunking and normalisation of broker candles, SQL text and migrations, the archive.
- Time zone databases, microseconds and floating point.
- The broker's answers, the clock and sleeping are parameters; the handlers for closed bars, gaps and pending minutes are histories in the value.
- Moving averages, indicators, detectors, clearance, rankings, cards, transport and process supervision: other parts of the program.
