/** What verification and reconciliation do with a broker answer, told from the answer itself: which pending
    minutes leave, with which candle, and which constituents are corrected. */
module Verification {
  import opened Timeline
  import opened Candles
  import opened Aggregation
  import opened Sorting
  import opened Tower
  import opened Pipeline
  import opened Continuity

  // ------------------------------------------------------------------ what an answer holds

  predicate IsAt(c: Candle, t: Instant) { c.closed && c.tf == M1 && c.openTime == t }

  /** The last such candle of the answer. */
  ghost predicate LastAt(cs: seq<Candle>, t: Instant, c: Candle) {
    IsAt(c, t) && exists i :: 0 <= i < |cs| && cs[i] == c && NoneAfter(cs, i, t)
  }

  predicate NoneAfter(cs: seq<Candle>, i: nat, t: Instant) { forall j :: i < j < |cs| ==> !IsAt(cs[j], t) }

  lemma {:induction false} ByTimeIs(cs: seq<Candle>, t: Instant)
    ensures t in ByTime(cs) <==> Usable(cs, t)
    ensures t in ByTime(cs) ==> LastAt(cs, t, ByTime(cs)[t])
  {
    if cs != [] {
      var front, c := cs[..|cs| - 1], cs[|cs| - 1];
      assert cs == front + [c];
      ByTimeIs(front, t);
      ByTimeSnoc(front, c);
      UsableSnoc(front, c, t);
      hide ByTime, Usable, LastAt;
      if IsAt(c, t) {
        LastIsLast(front, c, t);
      } else if Usable(front, t) {
        LastStays(front, c, t, ByTime(front)[t]);
      }
    }
  }

  lemma ByTimeSnoc(front: seq<Candle>, c: Candle)
    ensures ByTime(front + [c]) == if IsAt(c, c.openTime) then ByTime(front)[c.openTime := c] else ByTime(front)
  {
    assert (front + [c])[..|front|] == front;
  }

  lemma UsableSnoc(front: seq<Candle>, c: Candle, t: Instant)
    ensures Usable(front + [c], t) <==> Usable(front, t) || IsAt(c, t)
  {
    assert forall x :: x in front + [c] <==> x in front || x == c;
  }

  lemma LastIsLast(front: seq<Candle>, c: Candle, t: Instant)
    requires IsAt(c, t)
    ensures LastAt(front + [c], t, c)
  {
    assert NoneAfter(front + [c], |front|, t);
  }

  lemma LastStays(front: seq<Candle>, c: Candle, t: Instant, d: Candle)
    requires LastAt(front, t, d) && !IsAt(c, t)
    ensures LastAt(front + [c], t, d)
  {
    var i :| 0 <= i < |front| && front[i] == d && NoneAfter(front, i, t);
    var cs := front + [c];
    forall j | i < j < |cs| ensures !IsAt(cs[j], t) { assert j < |front| ==> cs[j] == front[j]; }
    assert cs[i] == d && NoneAfter(cs, i, t);
  }

  /** A zero-trade fill is due: allowed, inside the fetched range, with closed minutes on both sides. */
  ghost predicate FillDue(cs: seq<Candle>, t: Instant, fill: bool, fetched: Option<Range>) {
    && fill && fetched.Some? && fetched.value.start <= t < fetched.value.end
    && (exists x :: x < t && Usable(cs, x)) && (exists x :: t < x && Usable(cs, x))
  }

  /** The closest minute before `t` that the answer holds. */
  ghost predicate Before(cs: seq<Candle>, t: Instant, prev: Candle) {
    LastAt(cs, prev.openTime, prev) && prev.openTime < t && forall x :: Usable(cs, x) && x < t ==> x <= prev.openTime
  }

  /** A bar without trades at the close, and with the open interest, of the candle before. */
  predicate NoTrades(c: Candle, t: Instant, prev: Candle) {
    && IsAt(c, t) && c.source == ZeroTrade && c.volume == 0.0 && c.oi == prev.oi
    && c.open == prev.close && c.high == prev.close && c.low == prev.close && c.close == prev.close
  }

  /** The candle that settles a minute: the broker's last one, else the flat bar. */
  ghost predicate SettledWith(cs: seq<Candle>, t: Instant, c: Candle) {
    if Usable(cs, t) then LastAt(cs, t, c) else exists prev :: Before(cs, t, prev) && NoTrades(c, t, prev)
  }

  /** The minute has closed, and the answer holds it or a fill is due. */
  ghost predicate CanSettle(cs: seq<Candle>, t: Instant, now: Instant, fill: bool, fetched: Option<Range>) {
    t + MINUTE <= now && (Usable(cs, t) || FillDue(cs, t, fill, fetched))
  }

  lemma FillIsDue(cs: seq<Candle>, t: Instant, fetched: Option<Range>)
    ensures ZeroFill(ByTime(cs), t, fetched).Some? <==> FillDue(cs, t, true, fetched)
    ensures ZeroFill(ByTime(cs), t, fetched).Some? ==> exists prev :: Before(cs, t, prev) && NoTrades(ZeroFill(ByTime(cs), t, fetched).value, t, prev)
  {
    hide ByTime, Usable, LastAt;
    var m := ByTime(cs);
    forall x ensures x in m <==> Usable(cs, x) { ByTimeIs(cs, x); }
    var before := LastBefore(m.Keys, t);
    if before.Some? {
      ByTimeIs(cs, before.value);
      assert Before(cs, t, m[before.value]);
      assert Usable(cs, before.value);
    }
  }

  lemma SettlesIff(cs: seq<Candle>, t: Instant, now: Instant, fill: bool, fetched: Option<Range>)
    ensures Settles(ByTime(cs), t, now, fill, fetched) <==> CanSettle(cs, t, now, fill, fetched)
    ensures Settles(ByTime(cs), t, now, fill, fetched) ==> SettledWith(cs, t, Settling(ByTime(cs), t, fill, fetched).value)
  {
    hide ByTime, Usable, LastAt, ZeroFill, FillDue, Before, NoTrades;
    ByTimeIs(cs, t);
    FillIsDue(cs, t, fetched);
    FillOnly(cs, t, fill, fetched);
  }

  lemma FillOnly(cs: seq<Candle>, t: Instant, fill: bool, fetched: Option<Range>)
    ensures FillDue(cs, t, fill, fetched) <==> fill && FillDue(cs, t, true, fetched)
  {
  }

  // ------------------------------------------------------------------ verification

  /** Some candle of the list settles the minute. */
  ghost predicate SomeSettles(cs: seq<Candle>, t: Instant, admitted: seq<Candle>) {
    exists k :: 0 <= k < |admitted| && admitted[k].openTime == t && SettledWith(cs, t, admitted[k])
  }

  /** What settling the listed minutes does to one of them. */
  ghost predicate Settled(p: Pipeline, q: Pipeline, cs: seq<Candle>, t: Instant, settles: bool) {
    && |p.admitted| <= |q.admitted|
    && (t in q.pending <==> t in p.pending && !settles)
    && (t in q.seen <==> t in p.seen || settles)
    && (settles && t !in p.seen ==> SomeSettles(cs, t, q.admitted[|p.admitted|..]))
  }

  lemma OneSettles(p: Pipeline, cs: seq<Candle>, minute: Instant, now: Instant, fill: bool, fetched: Option<Range>, t: Instant)
    requires p.Sane()
    ensures var q := p.VerifyOne(ByTime(cs), minute, now, fill, fetched);
      && p.admitted <= q.admitted && |q.admitted| <= |p.admitted| + 1
      && (q.admitted != p.admitted ==> q.admitted[|p.admitted|].openTime == minute)
      && Settled(p, q, cs, t, t == minute && CanSettle(cs, minute, now, fill, fetched))
  {
    hide ByTime, Usable, LastAt, CanSettle, SettledWith, Settling, OnMinute;
    SettlesIff(cs, minute, now, fill, fetched);
    var q := p.VerifyOne(ByTime(cs), minute, now, fill, fetched);
    if Settles(ByTime(cs), minute, now, fill, fetched) {
      var c := Settling(ByTime(cs), minute, fill, fetched).value;
      OpensAt(cs, minute, c);
      if minute !in p.seen { assert q.admitted[|p.admitted|..] == [c]; }
    }
  }

  lemma OpensAt(cs: seq<Candle>, t: Instant, c: Candle)
    requires SettledWith(cs, t, c)
    ensures c.openTime == t
  {
  }

  /** Later minutes of the list leave an earlier one alone. */
  lemma SettledOn(p: Pipeline, q: Pipeline, r: Pipeline, cs: seq<Candle>, t: Instant, first: bool, later: bool)
    requires Settled(p, q, cs, t, first) && Settled(q, r, cs, t, later) && p.admitted <= q.admitted <= r.admitted && !(first && later)
    ensures Settled(p, r, cs, t, first || later)
  {
    hide SettledWith;
    if first && t !in p.seen {
      var early := q.admitted[|p.admitted|..];
      var k :| 0 <= k < |early| && early[k].openTime == t && SettledWith(cs, t, early[k]);
      assert r.admitted[|p.admitted|..][k] == early[k];
    }
    if later && t !in p.seen {
      var late := r.admitted[|q.admitted|..];
      var k :| 0 <= k < |late| && late[k].openTime == t && SettledWith(cs, t, late[k]);
      assert r.admitted[|p.admitted|..][k + |q.admitted| - |p.admitted|] == late[k];
    }
  }

  /** The minutes admitted on the way come from the list, in its order. */
  ghost predicate InOrder(added: seq<Candle>, minutes: seq<Instant>) {
    && (forall k :: 0 <= k < |added| ==> added[k].openTime in minutes)
    && (forall j, k :: 0 <= j < k < |added| ==> added[j].openTime < added[k].openTime)
  }

  lemma {:induction false} AllSettle(p: Pipeline, cs: seq<Candle>, minutes: seq<Instant>, now: Instant, fill: bool, fetched: Option<Range>, t: Instant)
    requires p.Sane() && Increasing(minutes)
    ensures var q := p.VerifyAll(ByTime(cs), minutes, now, fill, fetched);
      && p.admitted <= q.admitted && InOrder(q.admitted[|p.admitted|..], minutes)
      && Settled(p, q, cs, t, t in minutes && CanSettle(cs, t, now, fill, fetched))
    decreases |minutes|
  {
    if minutes != [] {
      var minute, rest := minutes[0], minutes[1..];
      var q := p.VerifyOne(ByTime(cs), minute, now, fill, fetched);
      var r := q.VerifyAll(ByTime(cs), rest, now, fill, fetched);
      OneSettles(p, cs, minute, now, fill, fetched, t);
      AllSettle(q, cs, rest, now, fill, fetched, t);
      hide Settled, CanSettle, Pipeline.VerifyOne, Pipeline.VerifyAll, ByTime, Pipeline.Grows;
      assert minute !in rest && (t in minutes <==> t == minute || t in rest);
      SettledOn(p, q, r, cs, t, t == minute && CanSettle(cs, minute, now, fill, fetched), t in rest && CanSettle(cs, t, now, fill, fetched));
      AddedInOrder(p.admitted, q.admitted, r.admitted, minutes);
    }
  }

  lemma AddedInOrder(a: seq<Candle>, b: seq<Candle>, c: seq<Candle>, minutes: seq<Instant>)
    requires Increasing(minutes) && minutes != [] && a <= b <= c && |b| <= |a| + 1 && (b != a ==> b[|a|].openTime == minutes[0])
    requires InOrder(c[|b|..], minutes[1..])
    ensures InOrder(c[|a|..], minutes)
  {
    var added := c[|a|..];
    assert b == a ==> added == c[|b|..];
    assert b != a ==> added == [b[|a|]] + c[|b|..];
    forall m | m in minutes[1..] ensures minutes[0] < m { }
  }

  /** VERIFICATION SETTLES WHAT IT CAN: a pending minute is still pending afterwards if and only if it has not
      closed, or the answer has no closed minute there and no fill is due. One that leaves, and was not
      processed, is admitted: with the last such candle of the answer, or with the flat bar. Minutes are
      admitted in order, and only pending ones. */
  lemma VerifySettles(p: Pipeline, cs: seq<Candle>, now: Instant, fill: bool, fetched: Option<Range>)
    requires p.Sane()
    ensures var q := p.VerifyM1(cs, now, fill, fetched);
      && p.admitted <= q.admitted
      && (forall t :: t in q.pending <==> t in p.pending && !CanSettle(cs, t, now, fill, fetched))
      && (forall t :: t in q.seen <==> t in p.seen || (t in p.pending && t !in q.pending))
      && (forall t :: t in p.pending && t !in q.pending && t !in p.seen ==> SomeSettles(cs, t, q.admitted[|p.admitted|..]))
      && (forall k :: |p.admitted| <= k < |q.admitted| ==> q.admitted[k].openTime in p.pending)
      && (forall j, k :: |p.admitted| <= j < k < |q.admitted| ==> q.admitted[j].openTime < q.admitted[k].openTime)
  {
    hide CanSettle, SomeSettles, ByTime, Pipeline.VerifyAll, Pipeline.Sane, Pipeline.Grows;
    var q, minutes := p.VerifyM1(cs, now, fill, fetched), Ascending(p.pending);
    AllSettle(p, cs, minutes, now, fill, fetched, 0);
    forall t
      ensures t in q.pending <==> t in p.pending && !CanSettle(cs, t, now, fill, fetched)
      ensures t in q.seen <==> t in p.seen || (t in p.pending && t !in q.pending)
      ensures t in p.pending && t !in q.pending && t !in p.seen ==> SomeSettles(cs, t, q.admitted[|p.admitted|..])
    {
      AllSettle(p, cs, minutes, now, fill, fetched, t);
    }
    var added := q.admitted[|p.admitted|..];
    forall k | |p.admitted| <= k < |q.admitted| ensures q.admitted[k] == added[k - |p.admitted|] && q.admitted[k].openTime in minutes { }
  }

  /** The minutes reported as verified are, in order, the pending ones that were settled. */
  lemma ReportedAreSettled(p: Pipeline, cs: seq<Candle>, now: Instant, fill: bool, fetched: Option<Range>)
    requires p.Sane()
    ensures var out := SettledOf(ByTime(cs), Ascending(p.pending), now, fill, fetched);
      Increasing(out) && forall t :: t in out <==> t in p.pending && t !in p.VerifyM1(cs, now, fill, fetched).pending
  {
    hide CanSettle, ByTime, Settles, Pipeline.VerifyM1;
    SettledOfIs(cs, Ascending(p.pending), now, fill, fetched);
    VerifySettles(p, cs, now, fill, fetched);
  }

  lemma {:induction false} SettledOfIs(cs: seq<Candle>, minutes: seq<Instant>, now: Instant, fill: bool, fetched: Option<Range>)
    requires Increasing(minutes)
    ensures var out := SettledOf(ByTime(cs), minutes, now, fill, fetched);
      Increasing(out) && forall t :: t in out <==> t in minutes && CanSettle(cs, t, now, fill, fetched)
  {
    hide CanSettle, ByTime, Settles;
    if minutes != [] {
      SettledOfIs(cs, minutes[1..], now, fill, fetched);
      SettlesIff(cs, minutes[0], now, fill, fetched);
      var out, rest := SettledOf(ByTime(cs), minutes, now, fill, fetched), SettledOf(ByTime(cs), minutes[1..], now, fill, fetched);
      assert forall t :: t in minutes <==> t == minutes[0] || t in minutes[1..];
      forall i | 0 <= i < |rest| ensures minutes[0] < rest[i] { assert rest[i] in rest; }
    }
  }

  // ------------------------------------------------------------------ reconciliation

  /** More than 1e-9 apart. */
  predicate Apart(x: real, y: real) { 0.000000001 < x - y || 0.000000001 < y - x }

  /** Some price is apart, or the volumes are further apart than the tolerated fraction of the broker's,
      which counts as at least one. */
  predicate Disagree(local: Candle, broker: Candle, tolerance: real) {
    var unit := MaxReal(MaxReal(broker.volume, -broker.volume), 1.0);
    || Apart(local.open, broker.open) || Apart(local.high, broker.high)
    || Apart(local.low, broker.low) || Apart(local.close, broker.close)
    || tolerance * unit < local.volume - broker.volume || tolerance * unit < broker.volume - local.volume
  }

  lemma AgreesIff(local: Candle, broker: Candle, tolerance: real)
    ensures Agrees(local, broker, tolerance) <==> !Disagree(local, broker, tolerance)
  {
    var unit := MaxReal(Abs(broker.volume), 1.0);
    QuotientAtMost(Abs(local.volume - broker.volume), unit, tolerance);
  }

  lemma QuotientAtMost(x: real, unit: real, bound: real)
    requires 1.0 <= unit
    ensures x / unit <= bound <==> x <= bound * unit
  {
    assert x / unit * unit == x;
    if x / unit <= bound { Scale(x / unit, bound, unit); } else { ScaleLess(bound, x / unit, unit); }
  }

  lemma Scale(x: real, y: real, unit: real)
    requires x <= y && 0.0 <= unit
    ensures x * unit <= y * unit
  {
  }

  lemma ScaleLess(x: real, y: real, unit: real)
    requires x < y && 0.0 < unit
    ensures x * unit < y * unit
  {
  }

  /** The queued minute is answered, and differently. */
  ghost predicate Wrong(p: Pipeline, cs: seq<Candle>, t: Instant, broker: Candle) {
    t in p.queue && LastAt(cs, t, broker) && Disagree(p.queue[t], broker, p.config.tolerance)
  }

  /** The same bucket, but with the broker's candle at each of the given minutes that it expects and holds. */
  ghost predicate SwappedIn(k: Bucket, l: Bucket, byTime: map<Instant, Candle>, fixes: set<Instant>) {
    && l == k.(constituents := l.constituents) && l.constituents.Keys == k.constituents.Keys
    && forall t :: t in k.constituents ==>
         l.constituents[t] == if t in fixes && t in byTime && t in k.expected then byTime[t] else k.constituents[t]
  }

  ghost predicate Swapped(a: Agg, b: Agg, byTime: map<Instant, Candle>, fixes: set<Instant>) {
    && b == a.(bucket := b.bucket) && (a.bucket.None? <==> b.bucket.None?)
    && (a.bucket.Some? ==> SwappedIn(a.bucket.value, b.bucket.value, byTime, if a.source == M1 then fixes else {}))
  }

  /** Nothing else of the tower changes. */
  ghost predicate TowerSwapped(s: Tower, t: Tower, byTime: map<Instant, Candle>, fixes: set<Instant>) {
    && t == s.(primary := t.primary, higher := t.higher) && |t.higher| == |s.higher|
    && Swapped(s.primary, t.primary, byTime, fixes)
    && forall i :: 0 <= i < |s.higher| ==> Swapped(s.higher[i], t.higher[i], byTime, fixes)
  }

  lemma SwappedThen(a: Agg, b: Agg, c: Agg, byTime: map<Instant, Candle>, first: set<Instant>, second: set<Instant>)
    requires Swapped(a, b, byTime, first) && Swapped(b, c, byTime, second)
    ensures Swapped(a, c, byTime, first + second)
  {
    if a.bucket.Some? {
      var k, l, m := a.bucket.value, b.bucket.value, c.bucket.value;
      assert m.constituents.Keys == k.constituents.Keys;
      assert forall t :: t in k.constituents ==> t in l.constituents;
    }
  }

  lemma TowerSwappedThen(s: Tower, t: Tower, u: Tower, byTime: map<Instant, Candle>, first: set<Instant>, second: set<Instant>)
    requires TowerSwapped(s, t, byTime, first) && TowerSwapped(t, u, byTime, second)
    ensures TowerSwapped(s, u, byTime, first + second)
  {
    hide Swapped;
    SwappedThen(s.primary, t.primary, u.primary, byTime, first, second);
    forall i | 0 <= i < |s.higher| ensures Swapped(s.higher[i], u.higher[i], byTime, first + second) {
      SwappedThen(s.higher[i], t.higher[i], u.higher[i], byTime, first, second);
    }
  }

  lemma NoneSwapped(s: Tower, byTime: map<Instant, Candle>)
    ensures TowerSwapped(s, s, byTime, {})
  {
  }

  lemma ReplaceSwaps(a: Agg, byTime: map<Instant, Candle>, t: Instant)
    requires t in byTime && IsAt(byTime[t], t)
    ensures Swapped(a, if a.source == M1 then a.Replace(byTime[t]).0 else a, byTime, {t})
    ensures a.source != M1 ==> a.Replace(byTime[t]).0 == a
  {
  }

  lemma ReplaceMinuteSwaps(s: Tower, byTime: map<Instant, Candle>, t: Instant)
    requires t in byTime && IsAt(byTime[t], t)
    ensures TowerSwapped(s, ReplaceMinute(s, byTime[t]), byTime, {t})
  {
    hide Swapped, Agg.Replace;
    var u := ReplaceMinute(s, byTime[t]);
    ReplaceSwaps(s.primary, byTime, t);
    forall i | 0 <= i < |s.higher| ensures Swapped(s.higher[i], u.higher[i], byTime, {t}) { ReplaceSwaps(s.higher[i], byTime, t); }
  }

  /** The minutes of a list that are queued and answered differently. */
  function Fixes(p: Pipeline, byTime: map<Instant, Candle>, minutes: seq<Instant>): set<Instant> {
    set t | t in minutes && t in p.queue && t in byTime && !Agrees(p.queue[t], byTime[t], p.config.tolerance)
  }

  ghost predicate QueueLeft(p: Pipeline, q: Pipeline, byTime: map<Instant, Candle>, minutes: seq<Instant>) {
    forall t :: (t in q.queue <==> t in p.queue && !(t in minutes && t in byTime)) && (t in q.queue ==> q.queue[t] == p.queue[t])
  }

  lemma {:induction false} AllReconciled(p: Pipeline, cs: seq<Candle>, minutes: seq<Instant>)
    requires Increasing(minutes)
    ensures var byTime := ByTime(cs); var q := p.ReconcileAll(byTime, minutes);
      && q == p.(queue := q.queue, tower := q.tower)
      && TowerSwapped(p.tower, q.tower, byTime, Fixes(p, byTime, minutes)) && QueueLeft(p, q, byTime, minutes)
    decreases |minutes|
  {
    hide Pipeline.ReconcileOne, Swapped;
    var byTime := ByTime(cs);
    if minutes == [] {
      NoneSwapped(p.tower, byTime);
      assert Fixes(p, byTime, minutes) == {};
    } else {
      var minute, rest := minutes[0], minutes[1..];
      hide TowerSwapped, Fixes, ByTime, Pipeline.ReconcileOne, Pipeline.Grows;
      var q := p.ReconcileOne(byTime, minute);
      var r := q.ReconcileAll(byTime, rest);
      AllReconciled(q, cs, rest);
      OneReconciled(p, byTime, minute);
      assert minute !in rest && forall t :: t in minutes <==> t == minute || t in rest;
      var first := if minute in Fixes(p, byTime, [minute]) then {minute} else {};
      FixesSplit(p, q, byTime, minutes);
      TowerSwappedThen(p.tower, q.tower, r.tower, byTime, first, Fixes(q, byTime, rest));
    }
  }

  lemma FixesSplit(p: Pipeline, q: Pipeline, byTime: map<Instant, Candle>, minutes: seq<Instant>)
    requires Increasing(minutes) && minutes != [] && q.config == p.config && QueueLeft(p, q, byTime, [minutes[0]])
    ensures Fixes(p, byTime, minutes) == (if minutes[0] in Fixes(p, byTime, [minutes[0]]) then {minutes[0]} else {}) + Fixes(q, byTime, minutes[1..])
  {
    hide Agrees;
    var minute, rest := minutes[0], minutes[1..];
    assert minute !in rest && forall t :: t in minutes <==> t == minute || t in rest;
  }

  lemma OneReconciled(p: Pipeline, byTime: map<Instant, Candle>, minute: Instant)
    requires forall t :: t in byTime ==> IsAt(byTime[t], t)
    ensures var q := p.ReconcileOne(byTime, minute);
      && q == p.(queue := q.queue, tower := q.tower)
      && TowerSwapped(p.tower, q.tower, byTime, if minute in Fixes(p, byTime, [minute]) then {minute} else {})
      && QueueLeft(p, q, byTime, [minute])
  {
    hide TowerSwapped, ReplaceMinute, Agrees;
    NoneSwapped(p.tower, byTime);
    if minute in byTime { ReplaceMinuteSwaps(p.tower, byTime, minute); }
  }

  // what that means, told from the answer

  /** At an expected minute that the answer corrects the bucket holds the broker's candle; elsewhere, what it held. */
  ghost predicate Corrected(p: Pipeline, cs: seq<Candle>, a: Agg, b: Agg) {
    && b == a.(bucket := b.bucket) && (a.bucket.None? <==> b.bucket.None?)
    && (a.bucket.Some? ==>
          var k, l := a.bucket.value, b.bucket.value;
          && l == k.(constituents := l.constituents) && l.constituents.Keys == k.constituents.Keys
          && forall t :: t in k.constituents ==>
               if a.source == M1 && t in k.expected && (exists c :: Wrong(p, cs, t, c)) then Wrong(p, cs, t, l.constituents[t])
               else l.constituents[t] == k.constituents[t])
  }

  lemma FixIffWrong(p: Pipeline, cs: seq<Candle>, t: Instant)
    ensures t in Fixes(p, ByTime(cs), Ascending(p.queue.Keys)) <==> exists c :: Wrong(p, cs, t, c)
    ensures t in Fixes(p, ByTime(cs), Ascending(p.queue.Keys)) ==> t in ByTime(cs) && Wrong(p, cs, t, ByTime(cs)[t])
  {
    hide Agrees, Disagree, ByTime, LastAt;
    var byTime, minutes := ByTime(cs), Ascending(p.queue.Keys);
    assert t in minutes <==> t in p.queue;
    ByTimeIs(cs, t);
    if t in p.queue && t in byTime {
      AgreesIff(p.queue[t], byTime[t], p.config.tolerance);
      assert t in Fixes(p, byTime, minutes) <==> Wrong(p, cs, t, byTime[t]);
    }
    forall c | Wrong(p, cs, t, c) ensures t in byTime && c == byTime[t] {
      LastIsUsable(cs, t, c);
      LastUnique(cs, t, c, byTime[t]);
    }
  }

  lemma LastIsUsable(cs: seq<Candle>, t: Instant, c: Candle)
    requires LastAt(cs, t, c)
    ensures Usable(cs, t)
  {
  }

  lemma LastUnique(cs: seq<Candle>, t: Instant, c: Candle, d: Candle)
    requires LastAt(cs, t, c) && LastAt(cs, t, d)
    ensures c == d
  {
    var i :| 0 <= i < |cs| && cs[i] == c && NoneAfter(cs, i, t);
    var j :| 0 <= j < |cs| && cs[j] == d && NoneAfter(cs, j, t);
  }

  lemma SwappedIsCorrected(p: Pipeline, cs: seq<Candle>, a: Agg, b: Agg)
    requires Swapped(a, b, ByTime(cs), Fixes(p, ByTime(cs), Ascending(p.queue.Keys)))
    ensures Corrected(p, cs, a, b)
  {
    hide ByTime, Wrong, Fixes;
    if a.bucket.Some? {
      forall t | t in a.bucket.value.constituents
        ensures if a.source == M1 && t in a.bucket.value.expected && (exists c :: Wrong(p, cs, t, c)) then Wrong(p, cs, t, b.bucket.value.constituents[t])
                else b.bucket.value.constituents[t] == a.bucket.value.constituents[t]
      {
        FixIffWrong(p, cs, t);
      }
    }
  }

  /** RECONCILIATION CORRECTS WHAT IT CAN: exactly the answered minutes leave the queue; at each of them that
      disagrees, every open bucket fed by minutes that expects and holds the minute now holds the broker's
      candle; and nothing else of the pipeline changes. */
  lemma ReconcileCorrects(p: Pipeline, cs: seq<Candle>)
    ensures var q := p.ReconcileM1(cs);
      && q == p.(queue := q.queue, tower := q.tower)
      && (forall t :: (t in q.queue <==> t in p.queue && !Usable(cs, t)) && (t in q.queue ==> q.queue[t] == p.queue[t]))
      && q.tower == p.tower.(primary := q.tower.primary, higher := q.tower.higher) && |q.tower.higher| == |p.tower.higher|
      && Corrected(p, cs, p.tower.primary, q.tower.primary)
      && forall i :: 0 <= i < |p.tower.higher| ==> Corrected(p, cs, p.tower.higher[i], q.tower.higher[i])
  {
    hide ByTime, Usable, Fixes, Swapped, Corrected, Pipeline.ReconcileAll;
    var q, minutes := p.ReconcileM1(cs), Ascending(p.queue.Keys);
    AllReconciled(p, cs, minutes);
    assert forall t :: t in minutes <==> t in p.queue;
    forall t ensures (t in q.queue <==> t in p.queue && !Usable(cs, t)) && (t in q.queue ==> q.queue[t] == p.queue[t]) { ByTimeIs(cs, t); }
    SwappedIsCorrected(p, cs, p.tower.primary, q.tower.primary);
    forall i | 0 <= i < |p.tower.higher| ensures Corrected(p, cs, p.tower.higher[i], q.tower.higher[i]) {
      SwappedIsCorrected(p, cs, p.tower.higher[i], q.tower.higher[i]);
    }
  }

  // ------------------------------------------------------------------ recovery

  /** The first closed minute of the answer at the open time. */
  ghost predicate FirstAt(cs: seq<Candle>, t: Instant, c: Candle) {
    IsAt(c, t) && exists i :: 0 <= i < |cs| && cs[i] == c && NoneBefore(cs, i, t)
  }

  predicate NoneBefore(cs: seq<Candle>, i: nat, t: Instant)
    requires i <= |cs|
  {
    forall j :: 0 <= j < i ==> !IsAt(cs[j], t)
  }

  lemma FirstCons(c: Candle, cs: seq<Candle>, t: Instant, d: Candle)
    ensures FirstAt([c] + cs, t, d) <==> if IsAt(c, t) then d == c else FirstAt(cs, t, d)
  {
    var all := [c] + cs;
    if IsAt(c, t) {
      assert all[0] == c && NoneBefore(all, 0, t);
    } else {
      if FirstAt(cs, t, d) {
        var i :| 0 <= i < |cs| && cs[i] == d && NoneBefore(cs, i, t);
        forall j | 0 <= j < i + 1 ensures !IsAt(all[j], t) { assert j > 0 ==> all[j] == cs[j - 1]; }
        assert all[i + 1] == d && NoneBefore(all, i + 1, t);
      }
      if FirstAt(all, t, d) { FirstOfRest(c, cs, t, d); }
    }
  }

  lemma FirstOfRest(c: Candle, cs: seq<Candle>, t: Instant, d: Candle)
    requires !IsAt(c, t) && FirstAt([c] + cs, t, d)
    ensures FirstAt(cs, t, d)
  {
    var all := [c] + cs;
    var i :| 0 <= i < |all| && all[i] == d && NoneBefore(all, i, t);
    forall j | 0 <= j < i - 1 ensures !IsAt(cs[j], t) { assert all[j + 1] == cs[j]; }
    assert cs[i - 1] == d && NoneBefore(cs, i - 1, t);
  }

  /** Inserting puts a candle before those of its key. */
  lemma {:induction false} FirstInserted(c: Candle, cs: seq<Candle>, t: Instant, d: Candle)
    requires SortedBy(cs, ByOpen)
    ensures FirstAt(Insert(c, cs, ByOpen), t, d) <==> if IsAt(c, t) then d == c else FirstAt(cs, t, d)
  {
    hide FirstAt;
    if cs == [] || c.openTime <= cs[0].openTime {
      FirstCons(c, cs, t, d);
      assert [c] + cs == Insert(c, cs, ByOpen);
    } else {
      assert cs == [cs[0]] + cs[1..];
      FirstInserted(c, cs[1..], t, d);
      FirstCons(cs[0], Insert(c, cs[1..], ByOpen), t, d);
      FirstCons(cs[0], cs[1..], t, d);
    }
  }

  /** Sorting is stable: the first of a minute stays first. */
  lemma {:induction false} SortKeepsFirst(cs: seq<Candle>, t: Instant, d: Candle)
    ensures FirstAt(Sort(cs, ByOpen), t, d) <==> FirstAt(cs, t, d)
  {
    hide FirstAt;
    if cs != [] {
      assert cs == [cs[0]] + cs[1..];
      SortKeepsFirst(cs[1..], t, d);
      SortSorts(cs[1..], ByOpen);
      FirstInserted(cs[0], Sort(cs[1..], ByOpen), t, d);
      FirstCons(cs[0], cs[1..], t, d);
    }
  }

  /** Recovered minutes: unprocessed ones of the list, the first candle of each, in increasing order. */
  ghost predicate Recovered(p: Pipeline, cs: seq<Candle>, added: seq<Candle>) {
    && (forall k :: 0 <= k < |added| ==> added[k].openTime !in p.seen && FirstAt(cs, added[k].openTime, added[k]))
    && (forall t :: Usable(cs, t) && t !in p.seen ==> exists k :: 0 <= k < |added| && added[k].openTime == t)
    && (forall j, k :: 0 <= j < k < |added| ==> added[j].openTime < added[k].openTime)
  }

  lemma UsableCons(c: Candle, cs: seq<Candle>, t: Instant)
    ensures Usable([c] + cs, t) <==> IsAt(c, t) || Usable(cs, t)
  {
    assert forall x :: x in [c] + cs <==> x == c || x in cs;
  }

  lemma {:induction false} AllRecovered(p: Pipeline, cs: seq<Candle>)
    requires p.Sane() && SortedBy(cs, ByOpen)
    ensures var q := p.RecoverAll(cs); p.admitted <= q.admitted && Recovered(p, cs, q.admitted[|p.admitted|..])
    decreases |cs|
  {
    hide FirstAt, Usable, Recovered, Pipeline.RecoverOne, Pipeline.Grows, Stacked;
    if cs == [] {
      NoneRecovered(p);
      assert p.admitted[|p.admitted|..] == [];
    } else {
      hide Pipeline.RecoverAll;
      var c, rest := cs[0], cs[1..];
      var q := p.RecoverOne(c);
      RecoverAllCons(p, cs);
      OneRecovered(p, c);
      AllRecovered(q, rest);
      var added := q.RecoverAll(rest).admitted[|q.admitted|..];
      assert cs == [c] + rest;
      if IsAt(c, c.openTime) && c.openTime !in p.seen {
        RecoveredMore(p, q, c, rest, added);
        assert q.RecoverAll(rest).admitted[|p.admitted|..] == [c] + added;
      } else {
        RecoveredSkip(p, c, rest, added);
      }
    }
  }

  lemma NoneRecovered(p: Pipeline)
    ensures Recovered(p, [], [])
  {
  }

  lemma RecoverAllCons(p: Pipeline, cs: seq<Candle>)
    requires p.Sane() && cs != []
    ensures p.RecoverOne(cs[0]).Sane() && p.RecoverAll(cs) == p.RecoverOne(cs[0]).RecoverAll(cs[1..])
  {
  }

  lemma OneRecovered(p: Pipeline, c: Candle)
    requires p.Sane()
    ensures var q := p.RecoverOne(c);
      if IsAt(c, c.openTime) && c.openTime !in p.seen then q.admitted == p.admitted + [c] && q.seen == p.seen + {c.openTime} else q == p
  {
  }

  lemma RecoveredMore(p: Pipeline, q: Pipeline, c: Candle, rest: seq<Candle>, added: seq<Candle>)
    requires SortedBy([c] + rest, ByOpen) && IsAt(c, c.openTime) && c.openTime !in p.seen && q.seen == p.seen + {c.openTime}
    requires Recovered(q, rest, added)
    ensures Recovered(p, [c] + rest, [c] + added)
  {
    hide Usable, FirstAt;
    var all, more := [c] + rest, [c] + added;
    forall k | 0 <= k < |more| ensures more[k].openTime !in p.seen && FirstAt(all, more[k].openTime, more[k]) && (k > 0 ==> c.openTime < more[k].openTime) {
      FirstCons(c, rest, more[k].openTime, more[k]);
      if k > 0 {
        assert more[k] == added[k - 1];
        FirstIsIn(rest, more[k].openTime, more[k]);
        var i :| 0 <= i < |rest| && rest[i] == more[k];
        assert ByOpen(all[0]) <= ByOpen(all[i + 1]);
      }
    }
    forall t | Usable(all, t) && t !in p.seen ensures exists k :: 0 <= k < |more| && more[k].openTime == t {
      UsableCons(c, rest, t);
      if t == c.openTime { assert more[0].openTime == t; }
      else {
        var k :| 0 <= k < |added| && added[k].openTime == t;
        assert more[k + 1].openTime == t;
      }
    }
  }

  lemma FirstIsIn(cs: seq<Candle>, t: Instant, c: Candle)
    requires FirstAt(cs, t, c)
    ensures c in cs && IsAt(c, t)
  {
  }

  lemma RecoveredSkip(p: Pipeline, c: Candle, rest: seq<Candle>, added: seq<Candle>)
    requires Recovered(p, rest, added) && (IsAt(c, c.openTime) ==> c.openTime in p.seen)
    ensures Recovered(p, [c] + rest, added)
  {
    hide Usable, FirstAt;
    forall k | 0 <= k < |added| ensures FirstAt([c] + rest, added[k].openTime, added[k]) { FirstCons(c, rest, added[k].openTime, added[k]); }
    forall t | Usable([c] + rest, t) && t !in p.seen ensures exists k :: 0 <= k < |added| && added[k].openTime == t { UsableCons(c, rest, t); }
  }

  /** RECOVERY ADMITS IN ORDER: exactly the unprocessed minutes the answer holds, by increasing open time whatever
      order they came in, the first candle of each minute. */
  lemma RecoverAdmits(p: Pipeline, cs: seq<Candle>)
    requires p.Sane()
    ensures var q := p.RecoverM1(cs); p.admitted <= q.admitted && Recovered(p, cs, q.admitted[|p.admitted|..])
  {
    hide Pipeline.RecoverAll, FirstAt, Pipeline.Sane, Pipeline.Grows;
    var sorted := Sort(cs, ByOpen);
    SortSorts(cs, ByOpen);
    SortMembers(cs, ByOpen);
    AllRecovered(p, sorted);
    var added := p.RecoverM1(cs).admitted[|p.admitted|..];
    forall k | 0 <= k < |added| ensures FirstAt(cs, added[k].openTime, added[k]) { SortKeepsFirst(cs, added[k].openTime, added[k]); }
  }
}
