/** Laws of the historical cache over whole sequences of loads: sound against any broker, and no different
    from an uncached fetch against a truthful one. */
module CacheLaws {
  import opened Timeline
  import opened Candles
  import opened Buckets
  import opened Intervals
  import opened Coverage
  import opened HistoricalCache

  // ------------------------------------------------------------------ soundness

  /** Covered means stored: every bar that can exist in covered time is in the store. */
  ghost predicate Sound(st: Store, p: Policy, tf: Timeframe) {
    forall t :: t in st.covered && Possible(p, tf, t) ==> Key(tf, t) in st.bars
  }

  /** Inserting keeps what is stored, and a complete insert stores every candle. */
  lemma {:induction false} InsertKeeps(bars: map<Key, Candle>, cs: seq<Candle>)
    ensures forall k :: k in bars ==> k in InsertAll(bars, cs).0
    ensures InsertAll(bars, cs).1 ==> forall c :: c in cs ==> Key(c.tf, c.openTime) in InsertAll(bars, cs).0
    decreases |cs|
  {
    if cs != [] && cs[0].closed {
      InsertKeeps(Upsert(bars, cs[0]), cs[1..]);
      assert forall c :: c in cs <==> c == cs[0] || c in cs[1..];
    }
  }

  /** The candles of a list stored under one key, in order. */
  function UnderKey(cs: seq<Candle>, k: Key): seq<Candle> {
    if cs == [] then [] else (if Key(cs[0].tf, cs[0].openTime) == k then [cs[0]] else []) + UnderKey(cs[1..], k)
  }

  /** What a key holds after the candles under it: the last, with the source it was first stored with. */
  ghost predicate Stored(bars: map<Key, Candle>, after: map<Key, Candle>, under: seq<Candle>, k: Key) {
    if under == [] then (k in after <==> k in bars) && (k in bars ==> after[k] == bars[k])
    else k in after && after[k] == under[|under| - 1].(source := if k in bars then bars[k].source else under[0].source)
  }

  lemma StoredThen(bars: map<Key, Candle>, after: map<Key, Candle>, c: Candle, under: seq<Candle>, k: Key)
    requires Stored(Upsert(bars, c), after, under, k)
    ensures Stored(bars, after, (if Key(c.tf, c.openTime) == k then [c] else []) + under, k)
  {
    if Key(c.tf, c.openTime) == k && under != [] { assert ([c] + under)[|under|] == under[|under| - 1]; }
    if Key(c.tf, c.openTime) != k { assert [] + under == under; }
  }

  /** THE LAST BAR WINS, THE FIRST SOURCE STAYS: after storing a list of closed candles a key holds the prices,
      volume and open interest of the last candle under it, and the source it was first stored with; keys
      without a candle are as they were. */
  lemma {:induction false} StoredIsLast(bars: map<Key, Candle>, cs: seq<Candle>, k: Key)
    requires forall i :: 0 <= i < |cs| ==> cs[i].closed
    ensures InsertAll(bars, cs).1 && Stored(bars, InsertAll(bars, cs).0, UnderKey(cs, k), k)
    decreases |cs|
  {
    if cs != [] {
      hide Stored;
      StoredIsLast(Upsert(bars, cs[0]), cs[1..], k);
      StoredThen(bars, InsertAll(bars, cs).0, cs[0], UnderKey(cs[1..], k), k);
    }
  }

  lemma FillGapSound(st: Store, p: Policy, tf: Timeframe, gap: Interval, ans: Answer)
    requires Sound(st, p, tf)
    ensures Sound(FillGap(st, p, tf, gap, ans).0, p, tf)
  {
    var cs := InGap(ans.candles, gap);
    InsertKeeps(st.bars, cs);
    var (bars, ok) := InsertAll(st.bars, cs);
    if ok {
      var present := PresentOf(cs, tf);
      VerifiedExact(p, tf, gap, ans.at, present);
      var out := Verified(p, tf, gap, ans.at, present);
      forall t | t in PointsOf(out) && Possible(p, tf, t) ensures Key(tf, t) in bars {
        InsideRange(out, gap, t);
        assert t in present;
        var c :| c in cs && c.tf == tf && c.openTime == t;
      }
    }
  }

  lemma InsideRange(out: seq<Interval>, range: Interval, t: Instant)
    requires (forall n :: 0 <= n < |out| ==> range.Contains(out[n])) && In(t, out)
    ensures range.Has(t)
  {
    var n :| 0 <= n < |out| && out[n].Has(t);
    assert range.Contains(out[n]);
  }

  lemma {:induction false} FillGapsSound(st: Store, p: Policy, tf: Timeframe, gaps: seq<Interval>, fetch: Interval -> Option<Answer>)
    requires Sound(st, p, tf)
    ensures Sound(FillGaps(st, p, tf, gaps, fetch).0, p, tf)
    decreases |gaps|
  {
    if gaps != [] && fetch(gaps[0]).Some? {
      FillGapSound(st, p, tf, gaps[0], fetch(gaps[0]).value);
      FillGapsSound(FillGap(st, p, tf, gaps[0], fetch(gaps[0]).value).0, p, tf, gaps[1..], fetch);
    }
  }

  // ------------------------------------------------------------------ sequences of loads

  /** A load: the range asked for, and what the broker would answer for each gap. */
  datatype Request = Request(start: Instant, end: Instant, fetch: Interval -> Option<Answer>)

  /** One load leads from one store to the next. */
  ghost predicate Loads(st: Store, p: Policy, tf: Timeframe, q: Request, asked: seq<Interval>, next: Store) {
    LacksExactly(asked, st.covered, q.start, q.end) && next == FillGaps(st, p, tf, asked, q.fetch).0
  }

  const EMPTY_STORE := Store(map[], iset{})

  /** A sequence of loads from the empty store. */
  ghost predicate History(states: seq<Store>, p: Policy, tf: Timeframe, qs: seq<Request>, asked: seq<seq<Interval>>) {
    && |states| == |qs| + 1 && |asked| == |qs| && states[0] == EMPTY_STORE
    && forall i :: 0 <= i < |qs| ==> Loads(states[i], p, tf, qs[i], asked[i], states[i + 1])
  }

  /** CACHE SOUNDNESS: whatever the broker answers, however often (partial, empty, truncated or stray bars,
      failures), at every point every bar that can exist in covered time is stored. */
  lemma {:induction false} CacheSoundness(states: seq<Store>, p: Policy, tf: Timeframe, qs: seq<Request>, asked: seq<seq<Interval>>, n: nat)
    requires History(states, p, tf, qs, asked) && n < |states|
    ensures Sound(states[n], p, tf)
  {
    if n > 0 {
      CacheSoundness(states, p, tf, qs, asked, n - 1);
      assert Loads(states[n - 1], p, tf, qs[n - 1], asked[n - 1], states[n - 1 + 1]);
      FillGapsSound(states[n - 1], p, tf, asked[n - 1], qs[n - 1].fetch);
    }
  }

  // ------------------------------------------------------------------ exactly what an answer proves

  /** The broker's answer for the gap holds the bar, closed. */
  ghost predicate Proves(p: Policy, tf: Timeframe, gap: Interval, ans: Answer, t: Instant) {
    ClosesAt(p, t, tf) <= ans.at && t in PresentOf(InGap(ans.candles, gap), tf)
  }

  lemma FillGapCovers(st: Store, p: Policy, tf: Timeframe, gap: Interval, ans: Answer, t: Instant)
    requires FillGap(st, p, tf, gap, ans).1 && Possible(p, tf, t)
    ensures t in FillGap(st, p, tf, gap, ans).0.covered <==> t in st.covered || (gap.Has(t) && Proves(p, tf, gap, ans, t))
  {
    var present := PresentOf(InGap(ans.candles, gap), tf);
    VerifiedExact(p, tf, gap, ans.at, present);
    var out := Verified(p, tf, gap, ans.at, present);
    if In(t, out) { InsideRange(out, gap, t); }
  }

  /** Some gap has the instant and its answer proves it. */
  ghost predicate ProvedBy(p: Policy, tf: Timeframe, gaps: seq<Interval>, fetch: Interval -> Option<Answer>, t: Instant) {
    exists i :: 0 <= i < |gaps| && gaps[i].Has(t) && fetch(gaps[i]).Some? && Proves(p, tf, gaps[i], fetch(gaps[i]).value, t)
  }

  lemma ProvedByCons(p: Policy, tf: Timeframe, gaps: seq<Interval>, fetch: Interval -> Option<Answer>, t: Instant)
    requires gaps != []
    ensures ProvedBy(p, tf, gaps, fetch, t) <==>
              (gaps[0].Has(t) && fetch(gaps[0]).Some? && Proves(p, tf, gaps[0], fetch(gaps[0]).value, t)) || ProvedBy(p, tf, gaps[1..], fetch, t)
  {
    hide Proves, Interval.Has;
    if ProvedBy(p, tf, gaps[1..], fetch, t) {
      var i :| 0 <= i < |gaps[1..]| && gaps[1..][i].Has(t) && fetch(gaps[1..][i]).Some? && Proves(p, tf, gaps[1..][i], fetch(gaps[1..][i]).value, t);
      assert gaps[i + 1].Has(t);
    }
    if ProvedBy(p, tf, gaps, fetch, t) {
      var i :| 0 <= i < |gaps| && gaps[i].Has(t) && fetch(gaps[i]).Some? && Proves(p, tf, gaps[i], fetch(gaps[i]).value, t);
      if i > 0 { assert gaps[1..][i - 1].Has(t); }
    }
  }

  /** A LOAD COVERS WHAT IT PROVED: after a load that went through, a bar that can exist is covered if and only
      if it was covered before or the answer for its gap held it, closed; so what a partial, empty or
      truncated answer leaves out stays uncovered and is asked for again. */
  lemma {:induction false} LoadCovers(st: Store, p: Policy, tf: Timeframe, gaps: seq<Interval>, fetch: Interval -> Option<Answer>, t: Instant)
    requires FillGaps(st, p, tf, gaps, fetch).1 && Possible(p, tf, t)
    ensures t in FillGaps(st, p, tf, gaps, fetch).0.covered <==> t in st.covered || ProvedBy(p, tf, gaps, fetch, t)
    decreases |gaps|
  {
    if gaps != [] {
      var ans := fetch(gaps[0]).value;
      FillGapCovers(st, p, tf, gaps[0], ans, t);
      LoadCovers(FillGap(st, p, tf, gaps[0], ans).0, p, tf, gaps[1..], fetch, t);
      ProvedByCons(p, tf, gaps, fetch, t);
    }
  }

  // ------------------------------------------------------------------ a truthful broker

  /** The bars that really exist: closed candles of the timeframe at possible times. */
  ghost predicate World(w: map<Instant, Candle>, p: Policy, tf: Timeframe) {
    forall t :: t in w ==> w[t].openTime == t && w[t].tf == tf && w[t].closed && Possible(p, tf, t)
  }

  /** Inside the gap the answer holds exactly the bars that exist and have closed by `now`. */
  ghost predicate Truthful(w: map<Instant, Candle>, p: Policy, tf: Timeframe, gap: Interval, ans: Answer, now: Instant) {
    && ans.at == now
    && forall c :: c in InGap(ans.candles, gap) <==> c.openTime in w && w[c.openTime] == c && gap.Has(c.openTime) && ClosesAt(p, c.openTime, tf) <= now
  }

  ghost predicate TruthfulAt(w: map<Instant, Candle>, p: Policy, tf: Timeframe, fetch: Interval -> Option<Answer>, now: Instant) {
    forall gap :: fetch(gap).Some? && Truthful(w, p, tf, gap, fetch(gap).value, now)
  }

  /** Covered means stored, and what is stored is true and had closed by `now`. */
  ghost predicate Faithful(st: Store, w: map<Instant, Candle>, p: Policy, tf: Timeframe, now: Instant) {
    && Sound(st, p, tf)
    && forall k :: k in st.bars ==> k.tf == tf && k.openTime in w && st.bars[k] == w[k.openTime] && ClosesAt(p, k.openTime, tf) <= now
  }

  lemma {:induction false} InsertTrue(bars: map<Key, Candle>, cs: seq<Candle>, w: map<Instant, Candle>, p: Policy, tf: Timeframe, now: Instant)
    requires World(w, p, tf)
    requires forall k :: k in bars ==> k.tf == tf && k.openTime in w && bars[k] == w[k.openTime] && ClosesAt(p, k.openTime, tf) <= now
    requires forall c :: c in cs ==> c.openTime in w && w[c.openTime] == c && ClosesAt(p, c.openTime, tf) <= now
    ensures InsertAll(bars, cs).1
    ensures var all := InsertAll(bars, cs).0;
      forall k :: k in all ==> k.tf == tf && k.openTime in w && all[k] == w[k.openTime] && ClosesAt(p, k.openTime, tf) <= now
    decreases |cs|
  {
    if cs != [] {
      assert cs[0] in cs;
      InsertTrue(Upsert(bars, cs[0]), cs[1..], w, p, tf, now);
    }
  }

  lemma FillGapFaithful(st: Store, w: map<Instant, Candle>, p: Policy, tf: Timeframe, gap: Interval, ans: Answer, now: Instant)
    requires World(w, p, tf) && Faithful(st, w, p, tf, now) && Truthful(w, p, tf, gap, ans, now)
    ensures var (next, ok) := FillGap(st, p, tf, gap, ans);
      && ok && Faithful(next, w, p, tf, now) && (forall k :: k in st.bars ==> k in next.bars)
      && forall t :: t in w && gap.Has(t) && ClosesAt(p, t, tf) <= now ==> Key(tf, t) in next.bars
  {
    var cs := InGap(ans.candles, gap);
    InsertTrue(st.bars, cs, w, p, tf, now);
    InsertKeeps(st.bars, cs);
    FillGapSound(st, p, tf, gap, ans);
    forall t | t in w && gap.Has(t) && ClosesAt(p, t, tf) <= now ensures Key(tf, t) in FillGap(st, p, tf, gap, ans).0.bars {
      assert w[t] in cs;
    }
  }

  lemma {:induction false} FillGapsFaithful(st: Store, w: map<Instant, Candle>, p: Policy, tf: Timeframe, gaps: seq<Interval>, fetch: Interval -> Option<Answer>, now: Instant)
    requires World(w, p, tf) && Faithful(st, w, p, tf, now) && TruthfulAt(w, p, tf, fetch, now)
    ensures var (next, ok) := FillGaps(st, p, tf, gaps, fetch);
      && ok && Faithful(next, w, p, tf, now) && (forall k :: k in st.bars ==> k in next.bars)
      && forall t :: t in w && In(t, gaps) && ClosesAt(p, t, tf) <= now ==> Key(tf, t) in next.bars
    decreases |gaps|
  {
    hide ClosesAt, Faithful, FillGap, Possible, Truthful;
    if gaps != [] {
      var ans := fetch(gaps[0]).value;
      FillGapFaithful(st, w, p, tf, gaps[0], ans, now);
      var next := FillGap(st, p, tf, gaps[0], ans).0;
      FillGapsFaithful(next, w, p, tf, gaps[1..], fetch, now);
      assert gaps == [gaps[0]] + gaps[1..];
      forall t | In(t, gaps) ensures gaps[0].Has(t) || In(t, gaps[1..]) { InCons(gaps[0], gaps[1..], t); }
    }
  }

  /** The opens an uncached fetch of the range would return. */
  ghost function FetchedOpens(w: map<Instant, Candle>, p: Policy, tf: Timeframe, start: Instant, end: Instant, now: Instant): set<Instant> {
    set t | t in w && start <= t < end && ClosesAt(p, t, tf) <= now
  }

  /** The candles an uncached fetch of the range would return, by open time. */
  ghost function Fetched(w: map<Instant, Candle>, p: Policy, tf: Timeframe, start: Instant, end: Instant, now: Instant): (cs: seq<Candle>) {
    var opens := Ascending(FetchedOpens(w, p, tf, start, end, now));
    seq(|opens|, i requires 0 <= i < |opens| => assert opens[i] in opens; w[opens[i]])
  }

  lemma LoadIsFetch(st: Store, w: map<Instant, Candle>, p: Policy, tf: Timeframe, q: Request, asked: seq<Interval>, next: Store, before: Instant, now: Instant)
    requires World(w, p, tf) && Faithful(st, w, p, tf, before) && before <= now && TruthfulAt(w, p, tf, q.fetch, now)
    requires Loads(st, p, tf, q, asked, next)
    ensures FillGaps(st, p, tf, asked, q.fetch).1 && Faithful(next, w, p, tf, now)
    ensures StoredRange(next.bars, tf, q.start, q.end) == Fetched(w, p, tf, q.start, q.end, now)
  {
    hide ClosesAt, FillGaps, Possible;
    assert Faithful(st, w, p, tf, now);
    FillGapsFaithful(st, w, p, tf, asked, q.fetch, now);
    forall t | t in FetchedOpens(w, p, tf, q.start, q.end, now) ensures Key(tf, t) in next.bars {
      assert t in st.covered ==> Key(tf, t) in st.bars;
      assert t !in st.covered ==> In(t, asked);
    }
    SameRange(next, w, p, tf, q.start, q.end, now);
  }

  /** A faithful store that holds all an uncached fetch would return, returns the same. */
  lemma SameRange(st: Store, w: map<Instant, Candle>, p: Policy, tf: Timeframe, start: Instant, end: Instant, now: Instant)
    requires Faithful(st, w, p, tf, now) && forall t :: t in FetchedOpens(w, p, tf, start, end, now) ==> Key(tf, t) in st.bars
    ensures StoredRange(st.bars, tf, start, end) == Fetched(w, p, tf, start, end, now)
  {
    hide ClosesAt, Sound;
    var stored, fetched := StoredOpens(st.bars, tf, start, end), FetchedOpens(w, p, tf, start, end, now);
    forall t | t in fetched ensures t in stored { assert Key(tf, t) in st.bars; }
    assert stored == fetched;
    var opens := Ascending(stored);
    forall i | 0 <= i < |opens| ensures Key(tf, opens[i]) in st.bars && st.bars[Key(tf, opens[i])] == w[opens[i]] {
      assert opens[i] in opens;
    }
  }

  /** A sequence of loads against a truthful broker with a clock that does not go back. */
  ghost predicate TruthfulHistory(states: seq<Store>, w: map<Instant, Candle>, p: Policy, tf: Timeframe, qs: seq<Request>, asked: seq<seq<Interval>>, nows: seq<Instant>) {
    && History(states, p, tf, qs, asked) && World(w, p, tf) && |nows| == |qs|
    && (forall i, j :: 0 <= i < j < |nows| ==> nows[i] <= nows[j])
    && forall i :: 0 <= i < |qs| ==> TruthfulAt(w, p, tf, qs[i].fetch, nows[i])
  }

  /** CACHE REFINEMENT: against a truthful broker, any sequence of loads succeeds and returns, each time, exactly
      the candles an uncached fetch of the same range at the same time would return. */
  lemma {:induction false} CacheRefinement(states: seq<Store>, w: map<Instant, Candle>, p: Policy, tf: Timeframe, qs: seq<Request>, asked: seq<seq<Interval>>, nows: seq<Instant>, n: nat)
    requires TruthfulHistory(states, w, p, tf, qs, asked, nows) && n < |qs|
    ensures FillGaps(states[n], p, tf, asked[n], qs[n].fetch).1 && Faithful(states[n + 1], w, p, tf, nows[n])
    ensures StoredRange(states[n + 1].bars, tf, qs[n].start, qs[n].end) == Fetched(w, p, tf, qs[n].start, qs[n].end, nows[n])
  {
    hide Fetched, FillGaps, World, TruthfulAt, Pluck, LacksExactly, ClosesAt;
    assert Loads(states[n], p, tf, qs[n], asked[n], states[n + 1]);
    if n > 0 {
      CacheRefinement(states, w, p, tf, qs, asked, nows, n - 1);
      LoadIsFetch(states[n], w, p, tf, qs[n], asked[n], states[n + 1], nows[n - 1], nows[n]);
    } else {
      LoadIsFetch(states[0], w, p, tf, qs[0], asked[0], states[1], nows[0], nows[0]);
    }
  }

  // ------------------------------------------------------------------ nothing is asked twice

  /** A covered range lacks nothing. */
  lemma CoveredAsksNothing(asked: seq<Interval>, covered: iset<Instant>, start: Instant, end: Instant)
    requires LacksExactly(asked, covered, start, end) && forall x :: start <= x < end ==> x in covered
    ensures asked == []
  {
    if asked != [] { InHead(asked); }
  }

  /** Every possible bar of the gaps has closed and comes back. */
  ghost predicate AnsweredInFull(p: Policy, tf: Timeframe, gaps: seq<Interval>, fetch: Interval -> Option<Answer>) {
    forall i, t :: 0 <= i < |gaps| && gaps[i].Has(t) && Possible(p, tf, t) ==> fetch(gaps[i]).Some? && Proves(p, tf, gaps[i], fetch(gaps[i]).value, t)
  }

  lemma {:induction false} FullAnswersCover(st: Store, p: Policy, tf: Timeframe, gaps: seq<Interval>, fetch: Interval -> Option<Answer>, x: Instant)
    requires Canonical(gaps) && FillGaps(st, p, tf, gaps, fetch).1 && AnsweredInFull(p, tf, gaps, fetch)
    ensures x in st.covered || In(x, gaps) ==> x in FillGaps(st, p, tf, gaps, fetch).0.covered
    decreases |gaps|
  {
    hide FillGap, Interval.Has, Interval.NonEmpty, AnsweredInFull;
    if gaps != [] {
      var ans := fetch(gaps[0]).value;
      FullGapCovered(st, p, tf, gaps[0], ans, fetch, gaps, x);
      AnsweredRest(p, tf, gaps, fetch);
      hide FillGap, AnsweredInFull, Canonical, In;
      var next, rest := FillGap(st, p, tf, gaps[0], ans).0, gaps[1..];
      FullAnswersCover(next, p, tf, rest, fetch, x);
      assert gaps == [gaps[0]] + rest;
      InCons(gaps[0], rest, x);
    }
  }

  lemma AnsweredRest(p: Policy, tf: Timeframe, gaps: seq<Interval>, fetch: Interval -> Option<Answer>)
    requires gaps != [] && Canonical(gaps) && AnsweredInFull(p, tf, gaps, fetch)
    ensures Canonical(gaps[1..]) && AnsweredInFull(p, tf, gaps[1..], fetch)
  {
    hide Possible, Proves;
    var rest := gaps[1..];
    assert forall i :: 0 <= i < |rest| ==> rest[i] == gaps[i + 1];
    forall i, t | 0 <= i < |rest| && rest[i].Has(t) && Possible(p, tf, t)
      ensures fetch(rest[i]).Some? && Proves(p, tf, rest[i], fetch(rest[i]).value, t)
    {
      assert gaps[i + 1].Has(t);
    }
  }

  lemma FullGapCovered(st: Store, p: Policy, tf: Timeframe, gap: Interval, ans: Answer, fetch: Interval -> Option<Answer>, gaps: seq<Interval>, x: Instant)
    requires gaps != [] && gap == gaps[0] && fetch(gap) == Some(ans) && gap.NonEmpty() && FillGap(st, p, tf, gap, ans).1
    requires AnsweredInFull(p, tf, gaps, fetch)
    ensures x in FillGap(st, p, tf, gap, ans).0.covered <==> x in st.covered || gap.Has(x)
  {
    hide Possible, ClosesAt;
    forall t | gap.Has(t) && Possible(p, tf, t) ensures ClosesAt(p, t, tf) <= ans.at && t in PresentOf(InGap(ans.candles, gap), tf) {
      assert gaps[0].Has(t);
    }
    VerifiedFull(p, tf, gap, ans.at, PresentOf(InGap(ans.candles, gap), tf));
    InOne(gap, x);
  }

  lemma InOne(v: Interval, x: Instant)
    ensures In(x, [v]) <==> v.Has(x)
  {
    InCons(v, [], x);
    assert [v] + [] == [v];
  }

  /** A FULLY ANSWERED LOAD IS NEVER REPEATED: if every bar that can exist in the requested range's gaps had
      closed and came back, the next load of any part of the range asks the broker for nothing. */
  lemma FullLoadAsksNothingMore(st: Store, p: Policy, tf: Timeframe, q: Request, asked: seq<Interval>, next: Store,
                                from: Instant, until: Instant, again: seq<Interval>)
    requires Loads(st, p, tf, q, asked, next) && FillGaps(st, p, tf, asked, q.fetch).1 && AnsweredInFull(p, tf, asked, q.fetch)
    requires q.start <= from && until <= q.end && LacksExactly(again, next.covered, from, until)
    ensures again == []
  {
    forall x | from <= x < until ensures x in next.covered {
      FullAnswersCover(st, p, tf, asked, q.fetch, x);
    }
    CoveredAsksNothing(again, next.covered, from, until);
  }
}
