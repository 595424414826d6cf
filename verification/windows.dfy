// Rate-limit windows, and what they demand of a history of grant times.
module Windows {

  /** At most `maxRequests` grants in any span of `seconds`. */
  datatype Window = Window(maxRequests: int, seconds: real) {
    predicate Valid() {
      maxRequests >= 1 && seconds > 0.0
    }
  }

  predicate AllValid(ws: seq<Window>) {
    forall i :: 0 <= i < |ws| ==> ws[i].Valid()
  }

  predicate Sorted(h: seq<real>) {
    forall i, j :: 0 <= i < j < |h| ==> h[i] <= h[j]
  }

  predicate NoneAfter(h: seq<real>, t: real) {
    forall i :: 0 <= i < |h| ==> h[i] <= t
  }

  /** How many grants fall in the half-open span (lo, hi]. */
  function CountIn(h: seq<real>, lo: real, hi: real): nat {
    if h == [] then 0
    else CountIn(h[..|h| - 1], lo, hi) + (if lo < h[|h| - 1] <= hi then 1 else 0)
  }

  function PositionsIn(h: seq<real>, lo: real, hi: real): set<int> {
    set i | 0 <= i < |h| && lo < h[i] <= hi
  }

  lemma OneMorePosition(h: seq<real>, t: real, lo: real, hi: real)
    ensures |PositionsIn(h + [t], lo, hi)| == |PositionsIn(h, lo, hi)| + if lo < t <= hi then 1 else 0
  {
    var before, after := PositionsIn(h, lo, hi), PositionsIn(h + [t], lo, hi);
    if lo < t <= hi {
      assert after == before + {|h|};
    } else {
      assert after == before;
    }
  }

  /** The count is the number of entries in the span. */
  lemma {:induction false} CountInIs(h: seq<real>, lo: real, hi: real)
    ensures CountIn(h, lo, hi) == |PositionsIn(h, lo, hi)|
  {
    if h == [] {
    } else {
      var front, last := h[..|h| - 1], h[|h| - 1];
      CountInIs(front, lo, hi);
      assert h == front + [last];
      OneMorePosition(front, last, lo, hi);
    }
  }

  /** The grants of the span of the window's length that ends at t. */
  function Trailing(h: seq<real>, w: Window, t: real): nat {
    CountIn(h, t - w.seconds, t)
  }

  /** What the window promises: no half-open span of its length, ending anywhere, is over the cap. */
  ghost predicate Respects(h: seq<real>, w: Window) {
    forall t: real :: Trailing(h, w, t) <= w.maxRequests
  }

  /** No span of the window's length, open at its start, has more than the cap of positions in it. */
  lemma RespectsIff(h: seq<real>, w: Window)
    ensures Respects(h, w) <==>
      forall lo, hi: real :: hi == lo + w.seconds ==> |PositionsIn(h, lo, hi)| <= w.maxRequests
  {
    forall lo, hi: real ensures CountIn(h, lo, hi) == |PositionsIn(h, lo, hi)| {
      CountInIs(h, lo, hi);
    }
    if forall lo, hi: real :: hi == lo + w.seconds ==> |PositionsIn(h, lo, hi)| <= w.maxRequests {
      forall t: real ensures Trailing(h, w, t) <= w.maxRequests {
        assert |PositionsIn(h, t - w.seconds, t)| <= w.maxRequests;
      }
    }
    if Respects(h, w) {
      forall lo, hi: real | hi == lo + w.seconds ensures |PositionsIn(h, lo, hi)| <= w.maxRequests {
        assert Trailing(h, w, hi) <= w.maxRequests && hi - w.seconds == lo;
      }
    }
  }

  ghost predicate Apart(h: seq<real>, i: nat, j: nat, seconds: real)
    requires i < |h| && j < |h|
  {
    h[j] - h[i] >= seconds
  }

  /** The same demand on indices: grants `maxRequests` apart differ by at least `seconds`. */
  ghost predicate Spaced(h: seq<real>, w: Window) {
    forall i, j :: 0 <= i < j < |h| && j - i == w.maxRequests ==> Apart(h, i, j, w.seconds)
  }

  ghost predicate AllSpaced(h: seq<real>, ws: seq<Window>) {
    forall i :: 0 <= i < |ws| ==> Spaced(h, ws[i])
  }

  lemma SpacedPrefix(h: seq<real>, w: Window, n: nat)
    requires n <= |h| && Spaced(h, w)
    ensures Spaced(h[..n], w)
  {
    forall i, j | 0 <= i < j < n && j - i == w.maxRequests ensures Apart(h[..n], i, j, w.seconds) {
      assert Apart(h, i, j, w.seconds);
    }
  }

  /** The naive limiter: keep the whole history, admit when every trailing count is below its cap. */
  predicate Admits(ws: seq<Window>, h: seq<real>, now: real) {
    forall i :: 0 <= i < |ws| ==> Trailing(h, ws[i], now) < ws[i].maxRequests
  }

  /** In a sorted history the trailing count reaches m exactly when the m-th entry from the end is inside. */
  lemma {:induction false} CountReaches(h: seq<real>, lo: real, hi: real, m: int)
    requires Sorted(h) && NoneAfter(h, hi) && m >= 1
    ensures CountIn(h, lo, hi) >= m <==> |h| >= m && h[|h| - m] > lo
  {
    if h == [] {
    } else {
      var front := h[..|h| - 1];
      CountReaches(front, lo, hi, if h[|h| - 1] > lo && m > 1 then m - 1 else 1);
    }
  }

  lemma {:induction false} CountInPrefix(h: seq<real>, n: nat, lo: real, hi: real)
    requires n <= |h|
    ensures CountIn(h[..n], lo, hi) <= CountIn(h, lo, hi)
  {
    if n < |h| {
      var front := h[..|h| - 1];
      CountInPrefix(front, n, lo, hi);
      assert front[..n] == h[..n];
    } else {
      assert h[..n] == h;
    }
  }

  lemma {:induction false} SpacedBounds(h: seq<real>, w: Window, t: real)
    requires Sorted(h) && w.Valid() && Spaced(h, w)
    ensures Trailing(h, w, t) <= w.maxRequests
  {
    if h == [] {
    } else {
      if h[|h| - 1] > t {
        SpacedPrefix(h, w, |h| - 1);
        SpacedBounds(h[..|h| - 1], w, t);
      } else {
        assert |h| > w.maxRequests ==> Apart(h, |h| - 1 - w.maxRequests, |h| - 1, w.seconds);
        CountReaches(h, t - w.seconds, t, w.maxRequests + 1);
      }
    }
  }

  /** The two forms of the demand agree on every sorted history. */
  lemma SpacedIffRespects(h: seq<real>, w: Window)
    requires Sorted(h) && w.Valid()
    ensures Spaced(h, w) <==> Respects(h, w)
  {
    if Spaced(h, w) {
      forall t: real ensures Trailing(h, w, t) <= w.maxRequests {
        SpacedBounds(h, w, t);
      }
    }
    if Respects(h, w) {
      forall i, j | 0 <= i < j < |h| && j - i == w.maxRequests
        ensures Apart(h, i, j, w.seconds)
      {
        var t := h[j];
        CountReaches(h[..j + 1], t - w.seconds, t, w.maxRequests + 1);
        CountInPrefix(h, j + 1, t - w.seconds, t);
        assert Trailing(h, w, t) <= w.maxRequests;
      }
    }
  }

  /** The first moment, from `now` on, at which the window has room after history h. */
  function Frees(w: Window, h: seq<real>, now: real): real {
    if 1 <= w.maxRequests <= |h| && h[|h| - w.maxRequests] + w.seconds > now
    then h[|h| - w.maxRequests] + w.seconds
    else now
  }

  /** The first moment, from `now` on, at which every window has room. */
  function Earliest(ws: seq<Window>, h: seq<real>, now: real): real {
    if ws == [] then now
    else
      var before := Earliest(ws[..|ws| - 1], h, now);
      var frees := Frees(ws[|ws| - 1], h, now);
      if frees > before then frees else before
  }

  /** `Earliest` is exactly the threshold of the naive limiter. */
  lemma {:induction false} EarliestIsThreshold(ws: seq<Window>, h: seq<real>, now: real, t: real)
    requires AllValid(ws) && Sorted(h) && NoneAfter(h, now) && now <= t
    ensures Earliest(ws, h, now) >= now
    ensures Admits(ws, h, t) <==> Earliest(ws, h, now) <= t
  {
    if ws == [] {
    } else {
      var front, w := ws[..|ws| - 1], ws[|ws| - 1];
      EarliestIsThreshold(front, h, now, t);
      CountReaches(h, t - w.seconds, t, w.maxRequests);
      assert Admits(ws, h, t) <==> Admits(front, h, t) && Trailing(h, w, t) < w.maxRequests;
    }
  }

  /** With no other grants, the naive limiter admits from `due` on. */
  ghost predicate AdmitsFrom(ws: seq<Window>, h: seq<real>, due: real) {
    forall t: real :: due <= t ==> Admits(ws, h, t)
  }

  /** From `now` on, the naive limiter admits at `Earliest` and at no moment before it. */
  lemma EarliestIsLeast(ws: seq<Window>, h: seq<real>, now: real)
    requires AllValid(ws) && Sorted(h) && NoneAfter(h, now)
    ensures var e := Earliest(ws, h, now);
      && e >= now
      && (e == now <==> Admits(ws, h, now))
      && AdmitsFrom(ws, h, e)
      && (forall t: real :: now <= t < e ==> !Admits(ws, h, t))
  {
    EarliestIsThreshold(ws, h, now, now);
    forall t: real | now <= t ensures Earliest(ws, h, now) <= t <==> Admits(ws, h, t) {
      EarliestIsThreshold(ws, h, now, t);
    }
  }

  /** Appending a grant the naive limiter admits keeps every window's demand. */
  lemma GrantKeepsSpacing(ws: seq<Window>, h: seq<real>, now: real)
    requires AllValid(ws) && Sorted(h) && NoneAfter(h, now) && Admits(ws, h, now)
    requires AllSpaced(h, ws)
    ensures Sorted(h + [now]) && NoneAfter(h + [now], now)
    ensures AllSpaced(h + [now], ws)
  {
    var after := h + [now];
    forall k | 0 <= k < |ws| ensures Spaced(after, ws[k]) {
      var w := ws[k];
      CountReaches(h, now - w.seconds, now, w.maxRequests);
      assert Trailing(h, w, now) < w.maxRequests;
      forall i, j | 0 <= i < j < |after| && j - i == w.maxRequests ensures Apart(after, i, j, w.seconds) {
        assert j < |h| ==> Apart(h, i, j, w.seconds);
      }
    }
  }
}
