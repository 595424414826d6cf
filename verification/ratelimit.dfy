// The sliding-window limiter: one pruned log per window, under one lock.
module Ratelimit {
  import opened Windows
  import opened Wrappers

  /** A log without its leading entries at or before the cutoff. */
  function Prune(log: seq<real>, cutoff: real): seq<real> {
    if log != [] && log[0] <= cutoff then Prune(log[1..], cutoff) else log
  }

  function PruneAll(ws: seq<Window>, logs: seq<seq<real>>, now: real): seq<seq<real>>
    requires |ws| == |logs|
  {
    seq(|ws|, i requires 0 <= i < |ws| => Prune(logs[i], now - ws[i].seconds))
  }

  /** The longest wait any of the first n pruned logs asks for. */
  function WaitOf(ws: seq<Window>, logs: seq<seq<real>>, now: real, n: nat): real
    requires |ws| == |logs| && n <= |ws| && AllValid(ws)
  {
    if n == 0 then 0.0
    else
      var longest := WaitOf(ws, logs, now, n - 1);
      var w, log := ws[n - 1], logs[n - 1];
      if |log| >= w.maxRequests && log[0] + w.seconds - now > longest
      then log[0] + w.seconds - now
      else longest
  }

  function AppendAll(logs: seq<seq<real>>, now: real): seq<seq<real>> {
    seq(|logs|, i requires 0 <= i < |logs| => logs[i] + [now])
  }

  /** A log is the end of the shared grant history; what it dropped had aged out by `asOf`. */
  ghost predicate TracksHistory(w: Window, log: seq<real>, h: seq<real>, asOf: real) {
    && |log| <= |h|
    && |log| <= w.maxRequests
    && log == h[|h| - |log|..]
    && forall k :: 0 <= k < |h| - |log| ==> h[k] <= asOf - w.seconds
  }

  /** What holds whenever the lock is free: `asOf` is the latest clock reading. */
  ghost predicate Inv(ws: seq<Window>, logs: seq<seq<real>>, h: seq<real>, asOf: real) {
    && AllValid(ws)
    && |ws| == |logs|
    && Sorted(h)
    && NoneAfter(h, asOf)
    && (forall i :: 0 <= i < |ws| ==> TracksHistory(ws[i], logs[i], h, asOf))
    && AllSpaced(h, ws)
  }

  /** A log may drop its oldest entry once that has aged out. */
  lemma DropOldest(w: Window, log: seq<real>, h: seq<real>, asOf: real, now: real)
    requires TracksHistory(w, log, h, asOf) && asOf <= now
    requires log != [] && log[0] <= now - w.seconds
    ensures TracksHistory(w, log[1..], h, now)
  {
    var dropped := |h| - |log|;
    assert h[dropped] == log[0];
  }

  /** A log whose oldest entry has not aged out holds exactly the trailing span. */
  lemma KeptIsTrailing(w: Window, log: seq<real>, h: seq<real>, now: real)
    requires w.Valid() && Sorted(h) && NoneAfter(h, now) && TracksHistory(w, log, h, now)
    requires log != [] ==> log[0] > now - w.seconds
    ensures |log| == Trailing(h, w, now)
  {
    if log != [] {
      CountReaches(h, now - w.seconds, now, |log|);
      assert h[|h| - |log|] == log[0];
    }
    CountReaches(h, now - w.seconds, now, |log| + 1);
  }

  lemma {:induction false} PruneTracks(w: Window, log: seq<real>, h: seq<real>, asOf: real, now: real)
    requires w.Valid() && Sorted(h) && NoneAfter(h, asOf) && asOf <= now
    requires TracksHistory(w, log, h, asOf)
    ensures TracksHistory(w, Prune(log, now - w.seconds), h, now)
    ensures |Prune(log, now - w.seconds)| == Trailing(h, w, now)
    decreases |log|
  {
    if log != [] && log[0] <= now - w.seconds {
      DropOldest(w, log, h, asOf, now);
      PruneTracks(w, log[1..], h, now, now);
    } else {
      KeptIsTrailing(w, log, h, now);
    }
  }

  lemma PruneAllKeepsInv(ws: seq<Window>, logs: seq<seq<real>>, h: seq<real>, asOf: real, now: real)
    requires Inv(ws, logs, h, asOf) && asOf <= now
    ensures Inv(ws, PruneAll(ws, logs, now), h, now)
    ensures forall i :: 0 <= i < |ws| ==>
      |PruneAll(ws, logs, now)[i]| == Trailing(h, ws[i], now)
  {
    forall i | 0 <= i < |ws|
      ensures TracksHistory(ws[i], PruneAll(ws, logs, now)[i], h, now)
      ensures |PruneAll(ws, logs, now)[i]| == Trailing(h, ws[i], now)
    {
      PruneTracks(ws[i], logs[i], h, asOf, now);
    }
  }

  lemma {:induction false} WaitReachesEarliest(ws: seq<Window>, logs: seq<seq<real>>, h: seq<real>, now: real, n: nat)
    requires Inv(ws, logs, h, now) && n <= |ws|
    requires forall i :: 0 <= i < |ws| ==> |logs[i]| == Trailing(h, ws[i], now)
    ensures now + WaitOf(ws, logs, now, n) == Earliest(ws[..n], h, now)
  {
    if n == 0 {
    } else {
      WaitReachesEarliest(ws, logs, h, now, n - 1);
      var w := ws[n - 1];
      assert ws[..n][..n - 1] == ws[..n - 1];
      assert TracksHistory(w, logs[n - 1], h, now);
      CountReaches(h, now - w.seconds, now, w.maxRequests);
      EarliestIsThreshold(ws[..n - 1], h, now, now);
    }
  }

  lemma CheckedWait(ws: seq<Window>, logs: seq<seq<real>>, h: seq<real>, asOf: real, now: real)
    requires Inv(ws, logs, h, asOf) && asOf <= now
    ensures now + WaitOf(ws, PruneAll(ws, logs, now), now, |ws|) == Earliest(ws, h, now)
  {
    PruneAllKeepsInv(ws, logs, h, asOf, now);
    WaitReachesEarliest(ws, PruneAll(ws, logs, now), h, now, |ws|);
    assert ws[..|ws|] == ws;
  }

  /**
   * The pruned logs answer exactly as the naive limiter over the whole history:
   * the wait is zero precisely when it admits now, and otherwise it is the least
   * delay after which it would admit with no other grants.
   */
  lemma FastFormRefinesNaive(ws: seq<Window>, logs: seq<seq<real>>, h: seq<real>, asOf: real, now: real, wait: real)
    requires Inv(ws, logs, h, asOf) && asOf <= now
    requires wait == WaitOf(ws, PruneAll(ws, logs, now), now, |ws|)
    ensures wait >= 0.0
    ensures wait <= 0.0 <==> Admits(ws, h, now)
    ensures AdmitsFrom(ws, h, now + wait)
    ensures forall t: real :: now <= t < now + wait ==> !Admits(ws, h, t)
  {
    CheckedWait(ws, logs, h, asOf, now);
    EarliestIsLeast(ws, h, now);
  }

  /** What one check establishes: pruned logs that still track the history, and the exact wait. */
  lemma CheckTells(ws: seq<Window>, logs: seq<seq<real>>, h: seq<real>, asOf: real, now: real,
                   pruned: seq<seq<real>>, wait: real)
    requires Inv(ws, logs, h, asOf) && asOf <= now
    requires pruned == PruneAll(ws, logs, now) && wait == WaitOf(ws, pruned, now, |ws|)
    ensures Inv(ws, pruned, h, now)
    ensures forall i :: 0 <= i < |ws| ==> |pruned[i]| == Trailing(h, ws[i], now)
    ensures now + wait == Earliest(ws, h, now) && wait >= 0.0
    ensures wait <= 0.0 <==> Admits(ws, h, now)
    ensures AdmitsFrom(ws, h, now + wait)
  {
    PruneAllKeepsInv(ws, logs, h, asOf, now);
    CheckedWait(ws, logs, h, asOf, now);
    FastFormRefinesNaive(ws, logs, h, asOf, now, wait);
  }

  /** Granting after a successful check keeps the invariant, so no cap is ever exceeded. */
  lemma GrantKeepsInv(ws: seq<Window>, logs: seq<seq<real>>, h: seq<real>, now: real)
    requires Inv(ws, logs, h, now) && Admits(ws, h, now)
    requires forall i :: 0 <= i < |ws| ==> |logs[i]| == Trailing(h, ws[i], now)
    ensures Inv(ws, AppendAll(logs, now), h + [now], now)
  {
    GrantKeepsSpacing(ws, h, now);
    forall i | 0 <= i < |ws|
      ensures TracksHistory(ws[i], AppendAll(logs, now)[i], h + [now], now)
    {
      assert TracksHistory(ws[i], logs[i], h, now);
    }
  }

  /**
   * The injected clock and sleep. Readings never go back and a sleep lasts at least
   * as long as asked; an `exact` clock is moved by sleeps alone.
   */
  class Clock {
    var now: real
    const exact: bool
    // How many times a caller has slept.
    ghost var sleeps: nat

    constructor (start: real, exact: bool)
      ensures now == start && this.exact == exact && sleeps == 0
    {
      now := start;
      this.exact := exact;
      sleeps := 0;
    }

    method Read() returns (t: real)
      modifies this`now
      ensures t == now >= old(now)
      ensures exact ==> now == old(now)
    {
      var later: real := *;
      if !exact && later > now {
        now := later;
      }
      t := now;
    }

    method Sleep(wait: real)
      requires wait >= 0.0
      modifies this
      ensures now >= old(now) + wait && sleeps == old(sleeps) + 1
      ensures exact ==> now == old(now) + wait
    {
      var later: real := *;
      now := if !exact && later > now + wait then later else now + wait;
      sleeps := sleeps + 1;
    }
  }

  class SlidingWindowLimiter {
    const windows: seq<Window>
    var logs: seq<seq<real>>
    // Every grant so far, and the latest clock reading taken under the lock.
    ghost var history: seq<real>
    ghost var asOf: real

    ghost predicate Valid()
      reads this
    {
      windows != [] && Inv(windows, logs, history, asOf)
    }

    constructor (windows: seq<Window>, ghost start: real)
      requires windows != [] && AllValid(windows)
      ensures Valid() && this.windows == windows && history == [] && asOf == start
    {
      this.windows := windows;
      logs := seq(|windows|, i => []);
      history := [];
      asOf := start;
    }

    /** Construction as callers see it: no windows, or a window with a bad cap or span, is refused. */
    static method Create(windows: seq<Window>, ghost start: real) returns (r: Option<SlidingWindowLimiter>)
      ensures r.Some? <==> windows != [] && AllValid(windows)
      ensures r.Some? ==> fresh(r.value) && r.value.Valid() && r.value.windows == windows
      ensures r.Some? ==> r.value.history == [] && r.value.asOf == start
    {
      if windows == [] {
        return None;
      }
      for i := 0 to |windows|
        invariant forall k :: 0 <= k < i ==> windows[k].Valid()
      {
        if windows[i].maxRequests < 1 || windows[i].seconds <= 0.0 {
          return None;
        }
      }
      var limiter := new SlidingWindowLimiter(windows, start);
      r := Some(limiter);
    }

    /** Prunes every log in place and returns the wait until every window has capacity. */
    method LongestWait(now: real) returns (longest: real)
      requires |logs| == |windows| && AllValid(windows)
      modifies this`logs
      ensures logs == PruneAll(windows, old(logs), now)
      ensures longest == WaitOf(windows, logs, now, |windows|)
    {
      ghost var pruned := PruneAll(windows, logs, now);
      longest := 0.0;
      for i := 0 to |windows|
        invariant |logs| == |windows|
        invariant forall k :: 0 <= k < i ==> logs[k] == pruned[k]
        invariant forall k :: i <= k < |windows| ==> logs[k] == old(logs[k])
        invariant longest == WaitOf(windows, pruned, now, i)
      {
        var window := windows[i];
        var cutoff := now - window.seconds;
        while logs[i] != [] && logs[i][0] <= cutoff
          invariant |logs| == |windows|
          invariant Prune(logs[i], cutoff) == pruned[i]
          invariant forall k :: 0 <= k < |windows| && k != i ==> logs[k] == if k < i then pruned[k] else old(logs[k])
          decreases |logs[i]|
        {
          logs := logs[i := logs[i][1..]];
        }
        assert logs[i] == pruned[i];
        if |logs[i]| >= window.maxRequests && logs[i][0] + window.seconds - now > longest {
          longest := logs[i][0] + window.seconds - now;
        }
      }
      assert logs == pruned;
    }

    /** Appends one grant to every log. */
    method Record(now: real)
      modifies this`logs
      ensures logs == AppendAll(old(logs), now)
    {
      for i := 0 to |logs|
        invariant |logs| == |old(logs)|
        invariant forall k :: 0 <= k < i ==> logs[k] == old(logs)[k] + [now]
        invariant forall k :: i <= k < |logs| ==> logs[k] == old(logs)[k]
      {
        logs := logs[i := logs[i] + [now]];
      }
    }

    /** Grants at a moment that has just been checked. */
    method Grant(now: real)
      requires Valid() && asOf == now && Admits(windows, history, now)
      requires forall i :: 0 <= i < |windows| ==> |logs[i]| == Trailing(history, windows[i], now)
      modifies this`logs, this`history
      ensures Valid() && history == old(history) + [now] && logs == AppendAll(old(logs), now)
    {
      GrantKeepsInv(windows, logs, history, now);
      Record(now);
      history := history + [now];
    }

    /** The body of the lock: read the clock, prune, and grant or say how long to wait. */
    method Check(clock: Clock) returns (now: real, wait: real)
      requires Valid() && asOf <= clock.now
      modifies this, clock`now
      ensures Valid() && asOf == now == clock.now >= old(clock.now)
      ensures clock.exact ==> clock.now == old(clock.now)
      ensures now + wait == Earliest(windows, old(history), now)
      ensures wait >= 0.0 && AdmitsFrom(windows, old(history), now + wait)
      ensures wait <= 0.0 <==> Admits(windows, old(history), now)
      ensures wait == WaitOf(windows, PruneAll(windows, old(logs), now), now, |windows|)
      ensures history == if wait <= 0.0 then old(history) + [now] else old(history)
      ensures logs == if wait <= 0.0 then AppendAll(PruneAll(windows, old(logs), now), now)
                                     else PruneAll(windows, old(logs), now)
    {
      now := clock.Read();
      CheckTells(windows, logs, history, asOf, now, PruneAll(windows, logs, now),
                 WaitOf(windows, PruneAll(windows, logs, now), now, |windows|));
      wait := LongestWait(now);
      asOf := now;
      if wait <= 0.0 {
        Grant(now);
      }
    }

    /**
     * Reserves one slot for a caller that has the limiter to itself: at most one sleep,
     * of exactly the time until every window has room, then a grant stamped with the
     * clock. `first` is the reading of the first check.
     */
    method Acquire(clock: Clock) returns (slept: real, ghost first: real)
      requires Valid() && asOf <= clock.now
      modifies this, clock
      ensures Valid() && asOf == clock.now
      ensures history == old(history) + [clock.now]
      ensures old(clock.now) <= first <= clock.now
      ensures first + slept == Earliest(windows, old(history), first) <= clock.now
      ensures slept == 0.0 <==> Admits(windows, old(history), first)
      ensures clock.sleeps == old(clock.sleeps) + if slept == 0.0 then 0 else 1
      ensures clock.exact ==> clock.now == Earliest(windows, old(history), old(clock.now))
    {
      slept := 0.0;
      first := clock.now;
      ghost var tries := 0;
      while true
        invariant tries <= 1 && clock.sleeps == old(clock.sleeps) + tries
        invariant Valid() && asOf <= clock.now && history == old(history)
        invariant tries == 0 ==> slept == 0.0 && clock.now == old(clock.now)
        invariant tries == 1 ==> slept > 0.0 && old(clock.now) <= first
        invariant tries == 1 ==> !Admits(windows, history, first) && AdmitsFrom(windows, history, first + slept)
        invariant tries == 1 ==> first + slept == Earliest(windows, history, first) <= clock.now
        invariant tries == 1 && clock.exact ==> clock.now == first + slept && first == old(clock.now)
        decreases 2 - tries
      {
        var now, wait := Check(clock);
        if tries == 0 {
          first := now;
        }
        if wait <= 0.0 {
          return;
        }
        clock.Sleep(wait);
        slept := slept + wait;
        tries := tries + 1;
      }
    }
  }
}
