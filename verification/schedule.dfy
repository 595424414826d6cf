// Requests served in arrival order: the limiter's schedule, its optimality, and the shipped tiers.
module Schedule {
  import opened Windows
  import opened Ratelimit

  function Max(x: real, y: real): real {
    if x >= y then x else y
  }

  /** When a request is first checked: on arrival, but not before its predecessor's grant. */
  function Start(g: seq<real>, arrival: real): real {
    if g == [] then arrival else Max(arrival, g[|g| - 1])
  }

  /** Grant times of requests arriving at the given times and served in order. */
  function Greedy(ws: seq<Window>, arrivals: seq<real>): (g: seq<real>)
    ensures |g| == |arrivals|
  {
    if arrivals == [] then []
    else
      var g := Greedy(ws, arrivals[..|arrivals| - 1]);
      g + [Earliest(ws, g, Start(g, arrivals[|arrivals| - 1]))]
  }

  /** A schedule the windows allow: in order, no request before its arrival, no span over its cap. */
  ghost predicate Feasible(ws: seq<Window>, arrivals: seq<real>, s: seq<real>) {
    && |s| == |arrivals|
    && Sorted(s)
    && (forall k :: 0 <= k < |s| ==> s[k] >= arrivals[k])
    && (forall i :: 0 <= i < |ws| ==> Respects(s, ws[i]))
  }

  lemma NextGrant(ws: seq<Window>, g: seq<real>, start: real)
    requires AllValid(ws) && Sorted(g) && AllSpaced(g, ws) && NoneAfter(g, start)
    ensures var e := Earliest(ws, g, start);
      && e >= start && Sorted(g + [e]) && AllSpaced(g + [e], ws) && NoneAfter(g + [e], e)
  {
    EarliestIsLeast(ws, g, start);
    var e := Earliest(ws, g, start);
    assert Admits(ws, g, e);
    GrantKeepsSpacing(ws, g, e);
  }

  lemma {:induction false} GreedySpaced(ws: seq<Window>, arrivals: seq<real>)
    requires AllValid(ws)
    ensures var g := Greedy(ws, arrivals);
      && Sorted(g) && AllSpaced(g, ws)
      && (forall k :: 0 <= k < |g| ==> g[k] >= arrivals[k])
      && (g != [] ==> NoneAfter(g, g[|g| - 1]))
  {
    if arrivals == [] {
    } else {
      var front := arrivals[..|arrivals| - 1];
      GreedySpaced(ws, front);
      var g := Greedy(ws, front);
      NextGrant(ws, g, Start(g, arrivals[|arrivals| - 1]));
    }
  }

  lemma GreedyIsFeasible(ws: seq<Window>, arrivals: seq<real>)
    requires AllValid(ws)
    ensures Feasible(ws, arrivals, Greedy(ws, arrivals))
  {
    GreedySpaced(ws, arrivals);
    forall i | 0 <= i < |ws| ensures Respects(Greedy(ws, arrivals), ws[i]) {
      SpacedIffRespects(Greedy(ws, arrivals), ws[i]);
    }
  }

  lemma {:induction false} EarliestAtMost(ws: seq<Window>, h: seq<real>, now: real, t: real)
    requires now <= t
    requires forall i :: 0 <= i < |ws| ==> Frees(ws[i], h, now) <= t
    ensures Earliest(ws, h, now) <= t
  {
    if ws == [] {
    } else {
      EarliestAtMost(ws[..|ws| - 1], h, now, t);
    }
  }

  lemma FeasiblePrefix(ws: seq<Window>, arrivals: seq<real>, s: seq<real>)
    requires AllValid(ws) && Feasible(ws, arrivals, s) && s != []
    ensures Feasible(ws, arrivals[..|s| - 1], s[..|s| - 1])
  {
    forall i | 0 <= i < |ws| ensures Respects(s[..|s| - 1], ws[i]) {
      SpacedIffRespects(s, ws[i]);
      SpacedPrefix(s, ws[i], |s| - 1);
      SpacedIffRespects(s[..|s| - 1], ws[i]);
    }
  }

  /** No schedule the windows allow serves any request earlier than the limiter does. */
  lemma {:induction false} GreedyIsOptimal(ws: seq<Window>, arrivals: seq<real>, s: seq<real>)
    requires AllValid(ws) && Feasible(ws, arrivals, s)
    ensures forall k :: 0 <= k < |s| ==> s[k] >= Greedy(ws, arrivals)[k]
  {
    if s == [] {
    } else {
      var n := |s| - 1;
      FeasiblePrefix(ws, arrivals, s);
      GreedyIsOptimal(ws, arrivals[..n], s[..n]);
      var g := Greedy(ws, arrivals[..n]);
      var start := Start(g, arrivals[n]);
      forall i | 0 <= i < |ws| ensures Frees(ws[i], g, start) <= s[n] {
        var m := ws[i].maxRequests;
        SpacedIffRespects(s, ws[i]);
        assert n >= m ==> Apart(s, n - m, n, ws[i].seconds);
      }
      EarliestAtMost(ws, g, start, s[n]);
    }
  }

  /** The clock stands at the last grant, or has not passed the first arrival yet. */
  ghost predicate InStep(h: seq<real>, now: real, arrival: real) {
    if h == [] then now <= arrival else now == h[|h| - 1]
  }

  method ServeNext(limiter: SlidingWindowLimiter, clock: Clock, arrival: real)
    requires limiter.Valid() && clock.exact && limiter.asOf <= clock.now
    requires InStep(limiter.history, clock.now, arrival)
    modifies limiter, clock
    ensures limiter.Valid() && limiter.asOf == clock.now
    ensures limiter.history == old(limiter.history) + [clock.now]
    ensures clock.now == Earliest(limiter.windows, old(limiter.history), Start(old(limiter.history), arrival))
  {
    if arrival > clock.now {
      clock.Sleep(arrival - clock.now);
    }
    var _, _ := limiter.Acquire(clock);
  }

  /** Serving requests in order on a clock moved only by sleeps produces the greedy schedule. */
  method ServeInOrder(limiter: SlidingWindowLimiter, clock: Clock, arrivals: seq<real>)
    requires limiter.Valid() && limiter.history == []
    requires clock.exact && limiter.asOf <= clock.now
    requires arrivals != [] ==> clock.now <= arrivals[0]
    modifies limiter, clock
    ensures limiter.history == Greedy(limiter.windows, arrivals)
  {
    for k := 0 to |arrivals|
      invariant limiter.Valid() && limiter.asOf <= clock.now
      invariant limiter.history == Greedy(limiter.windows, arrivals[..k])
      invariant k < |arrivals| ==> InStep(limiter.history, clock.now, arrivals[k])
    {
      assert arrivals[..k + 1][..k] == arrivals[..k];
      ServeNext(limiter, clock, arrivals[k]);
    }
    assert arrivals[..|arrivals|] == arrivals;
  }

  const OPENAQ_FREE_TIER := [Window(60, 60.0), Window(2000, 3600.0)]

  /** Closed form of the k-th grant (from 0) to one back-to-back caller on the free tier. */
  function FreeTierGrant(k: nat): int {
    3600 * (k / 2000) + 60 * ((k % 2000) / 60)
  }

  lemma FreeTierStep(k: nat)
    ensures k >= 1 ==> FreeTierGrant(k - 1) <= FreeTierGrant(k)
    ensures k >= 60 ==> FreeTierGrant(k - 60) + 60 <= FreeTierGrant(k)
    ensures 60 <= k < 2000 ==> FreeTierGrant(k - 60) + 60 == FreeTierGrant(k)
    ensures k >= 2000 ==> FreeTierGrant(k - 2000) + 3600 == FreeTierGrant(k)
    ensures k < 60 ==> FreeTierGrant(k) == 0
  {
    var q, r := k / 2000, k % 2000;
    assert k == 2000 * q + r;
    if k >= 1 {
      assert r >= 1 ==> (k - 1) / 2000 == q && (k - 1) % 2000 == r - 1;
      assert r == 0 ==> (k - 1) / 2000 == q - 1 && (k - 1) % 2000 == 1999;
    }
    if k >= 60 {
      assert r >= 60 ==> (k - 60) / 2000 == q && (k - 60) % 2000 == r - 60;
      assert r < 60 ==> (k - 60) / 2000 == q - 1 && (k - 60) % 2000 == r + 1940;
    }
    if k >= 2000 {
      assert (k - 2000) / 2000 == q - 1 && (k - 2000) % 2000 == r;
    }
  }

  lemma EarliestOfTwo(a: Window, b: Window, h: seq<real>, now: real)
    ensures Earliest([a, b], h, now) == Max(Max(now, Frees(a, h, now)), Frees(b, h, now))
  {
    assert [a][..0] == [];
    assert Earliest([a], h, now) == Max(now, Frees(a, h, now));
    assert [a, b][..1] == [a];
  }

  lemma FreeTierNext(g: seq<real>)
    requires forall k :: 0 <= k < |g| ==> g[k] == FreeTierGrant(k) as real
    ensures Earliest(OPENAQ_FREE_TIER, g, Start(g, 0.0)) == FreeTierGrant(|g|) as real
  {
    var n, start := |g|, Start(g, 0.0);
    FreeTierStep(n);
    var minute, hour := OPENAQ_FREE_TIER[0], OPENAQ_FREE_TIER[1];
    assert OPENAQ_FREE_TIER == [minute, hour];
    EarliestOfTwo(minute, hour, g, start);
    assert start <= FreeTierGrant(n) as real && (n < 60 ==> start == 0.0);
    assert n >= 60 ==> g[n - 60] + 60.0 == (FreeTierGrant(n - 60) + 60) as real;
    assert n >= 2000 ==> g[n - 2000] + 3600.0 == FreeTierGrant(n) as real;
  }

  /** The schedule of n requests that are all waiting at time 0. */
  lemma {:induction false} FreeTierClosedForm(n: nat)
    ensures Greedy(OPENAQ_FREE_TIER, seq(n, _ => 0.0)) == seq(n, k requires k >= 0 => FreeTierGrant(k) as real)
  {
    if n == 0 {
    } else {
      FreeTierClosedForm(n - 1);
      var arrivals := seq(n, _ => 0.0);
      assert arrivals[..n - 1] == seq(n - 1, _ => 0.0);
      FreeTierNext(Greedy(OPENAQ_FREE_TIER, arrivals[..n - 1]));
    }
  }
}
