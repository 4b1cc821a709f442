/** The two-window rate limiter of the broker client: at most so many calls in any second and in any minute. */
module RateLimiter {
  import opened Candles

  const SECOND := 1.0
  const MINUTE_SECONDS := 60.0
  const SHORTEST_WAIT := 0.05

  /** The grants still inside the window at `now`. */
  function Recent(times: seq<real>, now: real, window: real): (r: seq<real>)
    ensures |r| <= |times| && r == times[|times| - |r|..]
    ensures forall i :: 0 <= i < |times| - |r| ==> window <= now - times[i]
    ensures r != [] ==> now - r[0] < window
  {
    if times == [] || now - times[0] < window then times
    else
      var rest := Recent(times[1..], now, window);
      assert forall i :: 1 <= i < |times| - |rest| ==> times[i] == times[1..][i - 1];
      rest
  }

  /** The two windows. */
  datatype Windows = Windows(perSecond: int, perMinute: int, sec: seq<real>, min: seq<real>) {
    function At(now: real): Windows { this.(sec := Recent(sec, now, SECOND), min := Recent(min, now, MINUTE_SECONDS)) }

    predicate Free() { |sec| < perSecond && |min| < perMinute }

    /** How long a refused caller sleeps: until the oldest call of each full window leaves it. */
    function Wait(now: real): real {
      var w := if sec != [] && perSecond <= |sec| then MaxReal(SHORTEST_WAIT, SECOND - (now - sec[0])) else SHORTEST_WAIT;
      if min != [] && perMinute <= |min| then MaxReal(w, MINUTE_SECONDS - (now - min[0])) else w
    }

    /** One pass under the lock: granted, or how long to wait. */
    function Pass(now: real): (Windows, bool) {
      var w := At(now);
      if w.Free() then (w.(sec := w.sec + [now], min := w.min + [now]), true) else (w, false)
    }
  }

  class Limiter {
    const perSecond: int
    const perMinute: int
    var sec: seq<real>
    var min: seq<real>

    function Value(): Windows
      reads this
    {
      Windows(perSecond, perMinute, sec, min)
    }

    constructor (perSecond: int, perMinute: int)
      ensures Value() == Windows(perSecond, perMinute, [], [])
    {
      this.perSecond, this.perMinute, sec, min := perSecond, perMinute, [], [];
    }

    /** Drop the calls that have left their window. */
    method Expire(now: real)
      modifies this
      ensures Value() == old(Value()).At(now)
    {
      while sec != [] && SECOND <= now - sec[0]
        invariant Recent(sec, now, SECOND) == Recent(old(sec), now, SECOND) && min == old(min)
        decreases |sec|
      {
        sec := sec[1..];
      }
      while min != [] && MINUTE_SECONDS <= now - min[0]
        invariant Recent(min, now, MINUTE_SECONDS) == Recent(old(min), now, MINUTE_SECONDS) && sec == Recent(old(sec), now, SECOND)
        decreases |min|
      {
        min := min[1..];
      }
    }

    method WaitAt(now: real) returns (wait: real)
      ensures wait == Value().Wait(now)
    {
      wait := SHORTEST_WAIT;
      if sec != [] && perSecond <= |sec| {
        wait := MaxReal(wait, SECOND - (now - sec[0]));
      }
      if min != [] && perMinute <= |min| {
        wait := MaxReal(wait, MINUTE_SECONDS - (now - min[0]));
      }
    }

    method Pass(now: real) returns (granted: bool, wait: real)
      modifies this
      ensures (Value(), granted) == old(Value()).Pass(now)
      ensures !granted ==> wait == Value().Wait(now)
    {
      hide Recent, Windows.Wait, Windows.At;
      Expire(now);
      if |sec| < perSecond && |min| < perMinute {
        sec := sec + [now];
        min := min + [now];
        return true, 0.0;
      }
      wait := WaitAt(now);
      return false, wait;
    }

    /** Acquire with nobody else calling: `wake` is the clock after sleeping, at least `wait` later. Done after
        at most two passes. */
    method Acquire(now: real, wake: (real, real) -> real) returns (grantedAt: real, passes: nat)
      requires 1 <= perSecond && 1 <= perMinute && |sec| <= perSecond && |min| <= perMinute
      requires forall t, w :: t + w <= wake(t, w)
      modifies this
      ensures passes <= 2 && sec != [] && min != [] && sec[|sec| - 1] == min[|min| - 1] == grantedAt
      ensures |sec| <= perSecond && |min| <= perMinute
    {
      hide Recent, Windows.Pass, Windows.Wait;
      grantedAt, passes := now, 0;
      var granted, wait := false, 0.0;
      while !granted
        invariant |sec| <= perSecond && |min| <= perMinute && passes <= 2
        invariant granted ==> sec != [] && min != [] && sec[|sec| - 1] == min[|min| - 1] == grantedAt
        invariant !granted ==> passes <= 1
        invariant !granted && passes == 1 ==> Value().Pass(grantedAt).1
        decreases 2 - passes
      {
        ghost var w := Value();
        PassLeaves(w, grantedAt);
        granted, wait := Pass(grantedAt);
        passes := passes + 1;
        if !granted {
          SecondPassSucceeds(w, grantedAt, wake(grantedAt, wait));
          grantedAt := wake(grantedAt, wait);
        }
      }
    }
  }

  // ------------------------------------------------------------------ laws

  /** A RETRY SUCCEEDS: a refused lone caller that sleeps the announced time is granted on its next pass. */
  lemma SecondPassSucceeds(w: Windows, now: real, later: real)
    requires 1 <= w.perSecond && 1 <= w.perMinute && |w.sec| <= w.perSecond && |w.min| <= w.perMinute
    requires var (v, granted) := w.Pass(now); !granted && now + v.Wait(now) <= later
    ensures var v := w.Pass(now).0; v.Pass(later).1
  {
    RefusedIs(w, now);
    hide Recent, Windows.Wait, Windows.Pass;
    var v := w.At(now);
    WaitOutlasts(v, now);
    RoomAgain(v.sec, w.perSecond, later, SECOND);
    RoomAgain(v.min, w.perMinute, later, MINUTE_SECONDS);
    GrantedWhenFree(v, later);
  }

  /** A pass never overfills a window, and a granted one is the last in both. */
  lemma PassLeaves(w: Windows, now: real)
    requires |w.sec| <= w.perSecond && |w.min| <= w.perMinute
    ensures var (v, granted) := w.Pass(now);
      && |v.sec| <= w.perSecond && |v.min| <= w.perMinute
      && (granted ==> v.sec != [] && v.min != [] && v.sec[|v.sec| - 1] == v.min[|v.min| - 1] == now)
  {
    hide Recent;
  }

  lemma RefusedIs(w: Windows, now: real)
    requires !w.Pass(now).1
    ensures w.Pass(now).0 == w.At(now) && |w.At(now).sec| <= |w.sec| && |w.At(now).min| <= |w.min|
  {
    hide Recent;
  }

  lemma GrantedWhenFree(w: Windows, now: real)
    requires |Recent(w.sec, now, SECOND)| < w.perSecond && |Recent(w.min, now, MINUTE_SECONDS)| < w.perMinute
    ensures w.Pass(now).1
  {
    hide Recent;
  }

  /** The wait lasts until the oldest call of each full window has left it. */
  lemma WaitOutlasts(w: Windows, now: real)
    ensures w.sec != [] && w.perSecond <= |w.sec| ==> SECOND <= now + w.Wait(now) - w.sec[0]
    ensures w.min != [] && w.perMinute <= |w.min| ==> MINUTE_SECONDS <= now + w.Wait(now) - w.min[0]
  {
  }

  /** NO LONGER THAN NEEDED: a wait longer than the shortest ends exactly when the oldest call of some full window
      leaves it. */
  lemma WaitEndsOnTime(w: Windows, now: real)
    ensures 0.05 <= w.Wait(now)
    ensures 0.05 < w.Wait(now) ==>
              || (w.sec != [] && w.perSecond <= |w.sec| && now + w.Wait(now) - w.sec[0] == 1.0)
              || (w.min != [] && w.perMinute <= |w.min| && now + w.Wait(now) - w.min[0] == 60.0)
  {
  }

  lemma RoomAgain(times: seq<real>, limit: int, now: real, window: real)
    requires 1 <= limit && |times| <= limit
    requires times != [] && limit <= |times| ==> window <= now - times[0]
    ensures |Recent(times, now, window)| < limit
  {
  }

  /** A caller can ever be granted exactly when both limits allow at least one call. */
  lemma GrantableIff(perSecond: int, perMinute: int, now: real)
    ensures Windows(perSecond, perMinute, [], []).Pass(now).1 <==> 1 <= perSecond && 1 <= perMinute
    ensures forall w: Windows :: w.perSecond == perSecond && w.perMinute == perMinute && w.Pass(now).1 ==> 1 <= perSecond && 1 <= perMinute
  {
    assert Recent([], now, SECOND) == [] && Recent([], now, MINUTE_SECONDS) == [];
  }

  /** The passes of any number of callers, in the order they take the lock: the windows and the grants. */
  function Passes(w: Windows, nows: seq<real>): (Windows, seq<real>) {
    if nows == [] then (w, [])
    else
      var (v, grants) := Passes(w, nows[..|nows| - 1]);
      var now := nows[|nows| - 1];
      var (next, granted) := v.Pass(now);
      (next, if granted then grants + [now] else grants)
  }

  /** `recent` is the tail of all grants, and the grants before it have left the window. */
  ghost predicate Tail(recent: seq<real>, grants: seq<real>, now: real, window: real) {
    && |recent| <= |grants| && recent == grants[|grants| - |recent|..]
    && forall i :: 0 <= i < |grants| - |recent| ==> window <= now - grants[i]
  }

  /** Any two grants `n` apart differ by at least the window. */
  ghost predicate Spaced(grants: seq<real>, n: int, window: real) {
    forall i, j :: 0 <= i < |grants| && 0 <= j < |grants| && i + n <= j ==> window <= grants[j] - grants[i]
  }

  ghost predicate Monotone(nows: seq<real>) { forall i, j :: 0 <= i < j < |nows| ==> nows[i] <= nows[j] }

  lemma TailLater(recent: seq<real>, grants: seq<real>, before: real, now: real, window: real)
    requires Tail(recent, grants, before, window) && before <= now
    ensures Tail(Recent(recent, now, window), grants, now, window)
  {
    var r := Recent(recent, now, window);
    var k := |grants| - |recent|;
    forall i | 0 <= i < |grants| - |r| ensures window <= now - grants[i] {
      if k <= i { assert grants[i] == recent[i - k]; }
    }
  }

  lemma GrantSpaced(recent: seq<real>, grants: seq<real>, now: real, n: int, window: real)
    requires Tail(recent, grants, now, window) && |recent| < n && Spaced(grants, n, window)
    ensures Spaced(grants + [now], n, window) && Tail(recent + [now], grants + [now], now, window)
  {
    var more := grants + [now];
    forall i, j | 0 <= i < |more| && 0 <= j < |more| && i + n <= j ensures window <= more[j] - more[i] {
      if j < |grants| { assert window <= grants[j] - grants[i]; }
    }
  }

  /** SPACING: with a clock that does not go back, over any run of passes by any callers, two grants
      `perSecond` apart in order differ by at least a second and two `perMinute` apart by at least a minute. */
  lemma {:induction false} GrantsSpaced(perSecond: int, perMinute: int, nows: seq<real>)
    requires Monotone(nows)
    ensures var (w, grants) := Passes(Windows(perSecond, perMinute, [], []), nows);
      && Spaced(grants, perSecond, SECOND) && Spaced(grants, perMinute, MINUTE_SECONDS)
      && w.perSecond == perSecond && w.perMinute == perMinute
      && (nows != [] ==> Tail(w.sec, grants, nows[|nows| - 1], SECOND) && Tail(w.min, grants, nows[|nows| - 1], MINUTE_SECONDS))
      && (nows == [] ==> w.sec == [] && w.min == [] && grants == [])
  {
    if nows != [] {
      var front, now := nows[..|nows| - 1], nows[|nows| - 1];
      GrantsSpaced(perSecond, perMinute, front);
      var (v, grants) := Passes(Windows(perSecond, perMinute, [], []), front);
      var before := if front == [] then now else front[|front| - 1];
      assert front != [] ==> nows[|front| - 1] <= now;
      TailLater(v.sec, grants, before, now, SECOND);
      TailLater(v.min, grants, before, now, MINUTE_SECONDS);
      var u := v.At(now);
      if u.Free() {
        GrantSpaced(u.sec, grants, now, perSecond, SECOND);
        GrantSpaced(u.min, grants, now, perMinute, MINUTE_SECONDS);
      }
    }
  }
}
