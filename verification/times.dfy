// Datetimes as Python sees them, the rolling refresh window, and what consecutive runs cover.
module Times {
  import opened Join
  import opened Wrappers

  const HOUR: int := 3600 * 1000000
  const INGEST_LOOKBACK: int := 24 * HOUR

  /** Wall-clock microseconds and the offset from UTC; a naive datetime has no offset. */
  datatype Datetime = Datetime(wall: int, utcOffset: Option<int>)

  /** The instant a datetime denotes; None stands for the ValueError on naive ones. */
  function NormaliseUtc(d: Datetime): Option<Instant> {
    if d.utcOffset.None? then None else Some(d.wall - d.utcOffset.value)
  }

  function FloorToHour(t: Instant): Instant {
    t - t % HOUR
  }

  function Utc(t: Instant): Datetime {
    Datetime(t, Some(0))
  }

  /** An instant is read the same in every zone, and in UTC is the wall clock: 14:00 at +02:00 is 12:00 UTC. */
  lemma ZonesAgree(wall: int, offset: int, east: int)
    ensures NormaliseUtc(Datetime(wall + east, Some(offset + east))) == NormaliseUtc(Datetime(wall, Some(offset)))
    ensures NormaliseUtc(Utc(wall)) == Some(wall) && Utc(wall).utcOffset == Some(0)
    ensures NormaliseUtc(Datetime(14 * HOUR, Some(2 * HOUR))) == Some(12 * HOUR)
    ensures NormaliseUtc(Datetime(wall, None)) == None
  {
  }

  datatype Window = Window(from: Instant, to: Instant) {
    predicate Covers(t: Instant) {
      from <= t < to
    }
  }

  function RefreshWindowForInterval(start: Datetime, end: Datetime): Option<Window> {
    match (NormaliseUtc(start), NormaliseUtc(end))
    case (Some(s), Some(e)) =>
      if s > e then None else Some(Window(FloorToHour(e) - INGEST_LOOKBACK, FloorToHour(e)))
    case _ => None
  }

  /** Windows depend on instants only, end on the hour at or before the interval, and last 24 hours. */
  lemma WindowIsHourAligned(start: Datetime, end: Datetime, start': Datetime, end': Datetime)
    requires NormaliseUtc(start) == NormaliseUtc(start') && NormaliseUtc(end) == NormaliseUtc(end')
    ensures RefreshWindowForInterval(start, end) == RefreshWindowForInterval(start', end')
    ensures RefreshWindowForInterval(start, end).Some? <==>
      start.utcOffset.Some? && end.utcOffset.Some? && NormaliseUtc(start).value <= NormaliseUtc(end).value
    ensures RefreshWindowForInterval(start, end).Some? ==>
      var w, e := RefreshWindowForInterval(start, end).value, NormaliseUtc(end).value;
      && w.to % HOUR == 0 && w.from % HOUR == 0
      && w.to - w.from == 24 * HOUR
      && w.to <= e < w.to + HOUR
  {
    if NormaliseUtc(end).Some? {
      var e := NormaliseUtc(end).value;
      var q := e / HOUR;
      assert e == q * HOUR + e % HOUR;
      assert FloorToHour(e) == q * HOUR;
      assert (q * HOUR) % HOUR == 0 && ((q - 24) * HOUR) % HOUR == 0;
    }
  }

  /** The window of the run whose interval ends k hours after the first one's. */
  function HourlyWindow(firstEnd: Instant, k: int): Window {
    Window(FloorToHour(firstEnd + k * HOUR) - INGEST_LOOKBACK, FloorToHour(firstEnd + k * HOUR))
  }

  /** It is the refresh window of every interval, in whatever time zones, that ends at that instant. */
  lemma HourlyWindowIsRefreshWindow(start: Datetime, end: Datetime, firstEnd: Instant, k: int)
    requires NormaliseUtc(end) == Some(firstEnd + k * HOUR)
    ensures RefreshWindowForInterval(start, end) ==
      if NormaliseUtc(start).Some? && NormaliseUtc(start).value <= firstEnd + k * HOUR
      then Some(HourlyWindow(firstEnd, k)) else None
    ensures RefreshWindowForInterval(Utc(firstEnd + (k - 1) * HOUR), Utc(firstEnd + k * HOUR)) ==
      Some(HourlyWindow(firstEnd, k))
  {
    assert (k - 1) * HOUR == k * HOUR - HOUR;
  }

  /** The runs among the first n whose window covers t. */
  function CoveringRuns(firstEnd: Instant, n: nat, t: Instant): set<int> {
    set k | 0 <= k < n && HourlyWindow(firstEnd, k).Covers(t)
  }

  lemma ModuloOfSum(q: int, r: int)
    requires 0 <= r < HOUR
    ensures (q * HOUR + r) % HOUR == r
  {
  }

  lemma FloorShifts(firstEnd: Instant, k: int)
    ensures FloorToHour(firstEnd + k * HOUR) == FloorToHour(firstEnd) + k * HOUR
  {
    var q, r := firstEnd / HOUR, firstEnd % HOUR;
    assert firstEnd + k * HOUR == (q + k) * HOUR + r;
    ModuloOfSum(q + k, r);
  }

  /** The first run, counted from the one ending at firstEnd, whose window covers t. */
  function FirstCover(firstEnd: Instant, t: Instant): int {
    (t - FloorToHour(firstEnd)) / HOUR + 1
  }

  /** Run k covers t exactly when it is one of 24 in a row. */
  lemma CoverIndex(firstEnd: Instant, k: int, t: Instant)
    ensures HourlyWindow(firstEnd, k).Covers(t) <==> FirstCover(firstEnd, t) <= k < FirstCover(firstEnd, t) + 24
  {
    FloorShifts(firstEnd, k);
    var d := t - FloorToHour(firstEnd);
    assert d == (d / HOUR) * HOUR + d % HOUR;
  }

  lemma CoveringRunsIn(firstEnd: Instant, n: nat, t: Instant)
    ensures forall k :: k in CoveringRuns(firstEnd, n, t) <==>
      0 <= k < n && FirstCover(firstEnd, t) <= k < FirstCover(firstEnd, t) + 24
  {
    var h := FirstCover(firstEnd, t);
    forall k ensures HourlyWindow(firstEnd, k).Covers(t) <==> h <= k < h + 24 {
      CoverIndex(firstEnd, k, t);
    }
  }

  /** The first run covering t is at or after run k exactly when t is at or past the hour before run k's end. */
  lemma FirstCoverAtLeast(firstEnd: Instant, t: Instant, k: int)
    ensures FirstCover(firstEnd, t) >= k <==> t >= HourlyWindow(firstEnd, k).to - HOUR
  {
    FloorShifts(firstEnd, k);
    var d := t - FloorToHour(firstEnd);
    assert d == (d / HOUR) * HOUR + d % HOUR;
  }

  function Range(lo: int, n: nat): set<int> {
    if n == 0 then {} else Range(lo, n - 1) + {lo + n - 1}
  }

  lemma {:induction false} RangeIs(lo: int, n: nat)
    ensures |Range(lo, n)| == n
    ensures forall k :: k in Range(lo, n) <==> lo <= k < lo + n
  {
    if n == 0 {
    } else {
      RangeIs(lo, n - 1);
    }
  }

  lemma WindowsMove(firstEnd: Instant, a: int, b: int)
    ensures HourlyWindow(firstEnd, b).to == HourlyWindow(firstEnd, a).to + (b - a) * HOUR
    ensures HourlyWindow(firstEnd, b).from == HourlyWindow(firstEnd, a).from + (b - a) * HOUR
    ensures HourlyWindow(firstEnd, a).to == HourlyWindow(firstEnd, a).from + 24 * HOUR
    ensures a <= b <==> HourlyWindow(firstEnd, a).to <= HourlyWindow(firstEnd, b).to
  {
    FloorShifts(firstEnd, a);
    FloorShifts(firstEnd, b);
  }

  lemma FirstCoverInRange(firstEnd: Instant, n: int, t: Instant)
    ensures -23 <= FirstCover(firstEnd, t) < n <==>
      HourlyWindow(firstEnd, 0).from <= t < HourlyWindow(firstEnd, n - 1).to
  {
    FirstCoverAtLeast(firstEnd, t, -23);
    FirstCoverAtLeast(firstEnd, t, n);
    WindowsMove(firstEnd, 0, -23);
    WindowsMove(firstEnd, n - 1, n);
  }

  /** Consecutive hourly runs cover every instant from the first window's start to the last one's end. */
  lemma HourlyRunsCoverWithoutGaps(firstEnd: Instant, n: nat, t: Instant)
    requires n >= 1
    ensures CoveringRuns(firstEnd, n, t) != {} <==>
      HourlyWindow(firstEnd, 0).from <= t < HourlyWindow(firstEnd, n - 1).to
  {
    var h := FirstCover(firstEnd, t);
    CoveringRunsIn(firstEnd, n, t);
    FirstCoverInRange(firstEnd, n, t);
    if -23 <= h < n {
      assert (if h <= 0 then 0 else h) in CoveringRuns(firstEnd, n, t);
    }
  }

  lemma {:induction false} SubsetIsSmaller<T>(xs: set<T>, ys: set<T>)
    requires xs <= ys
    ensures |xs| <= |ys|
  {
    if xs == {} {
    } else {
      var x :| x in xs;
      SubsetIsSmaller(xs - {x}, ys - {x});
    }
  }

  lemma MissesOne(runs: set<int>, lo: int, missed: int)
    requires forall k :: k in runs ==> lo <= k < lo + 24 && k != missed
    requires lo <= missed < lo + 24
    ensures |runs| < 24
  {
    RangeIs(lo, 24);
    forall k | k in runs ensures k in Range(lo, 24) - {missed} {
    }
    SubsetIsSmaller(runs, Range(lo, 24) - {missed});
  }

  lemma CoveredByAll24(runs: set<int>, lo: int)
    requires forall k :: k in runs <==> lo <= k < lo + 24
    ensures |runs| == 24
  {
    RangeIs(lo, 24);
    var range := Range(lo, 24);
    forall k | k in runs ensures k in range {
    }
    forall k | k in range ensures k in runs {
    }
    SubsetIsSmaller(runs, range);
    SubsetIsSmaller(range, runs);
  }

  /**
   * An instant lies in exactly 24 windows precisely when it is late enough for the first run's
   * last hour and early enough for the last run's first hour.
   */
  lemma InnerInstantsAreCovered24Times(firstEnd: Instant, n: nat, t: Instant)
    requires n >= 1
    ensures |CoveringRuns(firstEnd, n, t)| == 24 <==>
      HourlyWindow(firstEnd, 0).to - HOUR <= t < HourlyWindow(firstEnd, n - 1).from + HOUR
  {
    var h := FirstCover(firstEnd, t);
    CoveringRunsIn(firstEnd, n, t);
    FirstCoverAtLeast(firstEnd, t, 0);
    FirstCoverAtLeast(firstEnd, t, n - 23);
    FloorShifts(firstEnd, n - 23);
    FloorShifts(firstEnd, n - 1);
    if 0 <= h && h + 24 <= n {
      CoveredByAll24(CoveringRuns(firstEnd, n, t), h);
    } else {
      MissesOne(CoveringRuns(firstEnd, n, t), h, if h < 0 then h else h + 23);
    }
  }

  /** Some run that happened covers t; `runs` are their positions in the hourly schedule. */
  predicate CoveredBy(firstEnd: Instant, runs: seq<int>, t: Instant) {
    exists i :: 0 <= i < |runs| && HourlyWindow(firstEnd, runs[i]).Covers(t)
  }

  predicate Increasing(runs: seq<int>) {
    forall i, j :: 0 <= i < j < |runs| ==> runs[i] < runs[j]
  }

  /** Neighbouring runs are at most 24 hours apart. */
  ghost predicate Close(runs: seq<int>) {
    forall i, j :: 0 <= i < j < |runs| && j == i + 1 ==> runs[j] - runs[i] <= 24
  }

  /** Runs cover nothing outside the range from the first one's window to the last one's. */
  lemma CoveredInRange(firstEnd: Instant, runs: seq<int>, t: Instant)
    requires runs != [] && Increasing(runs) && CoveredBy(firstEnd, runs, t)
    ensures HourlyWindow(firstEnd, runs[0]).from <= t < HourlyWindow(firstEnd, runs[|runs| - 1]).to
  {
    var i :| 0 <= i < |runs| && HourlyWindow(firstEnd, runs[i]).Covers(t);
    WindowsMove(firstEnd, runs[0], runs[i]);
    WindowsMove(firstEnd, runs[i], runs[|runs| - 1]);
  }

  lemma WindowsTouch(firstEnd: Instant, a: int, b: int)
    requires b - a <= 24
    ensures HourlyWindow(firstEnd, b).from <= HourlyWindow(firstEnd, a).to
  {
    WindowsMove(firstEnd, a, b);
    assert (b - a) * HOUR <= 24 * HOUR;
  }

  /** What some of the first runs covers, they all do. */
  lemma MoreRunsCover(firstEnd: Instant, runs: seq<int>, n: nat, t: Instant)
    requires n <= |runs| && CoveredBy(firstEnd, runs[..n], t)
    ensures CoveredBy(firstEnd, runs, t)
  {
    var i :| 0 <= i < n && HourlyWindow(firstEnd, runs[..n][i]).Covers(t);
    assert HourlyWindow(firstEnd, runs[i]).Covers(t);
  }

  lemma {:induction false} CloseRunsCover(firstEnd: Instant, runs: seq<int>, t: Instant)
    requires runs != [] && Increasing(runs) && Close(runs)
    requires HourlyWindow(firstEnd, runs[0]).from <= t < HourlyWindow(firstEnd, runs[|runs| - 1]).to
    ensures CoveredBy(firstEnd, runs, t)
  {
    var n := |runs| - 1;
    if HourlyWindow(firstEnd, runs[n]).from <= t {
      assert HourlyWindow(firstEnd, runs[n]).Covers(t);
    } else {
      WindowsTouch(firstEnd, runs[n - 1], runs[n]);
      CloseRunsCover(firstEnd, runs[..n], t);
      MoreRunsCover(firstEnd, runs, n, t);
    }
  }

  /** Where two neighbouring runs are more than 24 hours apart, the first one's window end is covered by no run. */
  lemma GapIsUncovered(firstEnd: Instant, runs: seq<int>, i: nat)
    requires Increasing(runs) && 0 < i < |runs| && runs[i] - runs[i - 1] > 24
    ensures !CoveredBy(firstEnd, runs, HourlyWindow(firstEnd, runs[i - 1]).to)
  {
    var gap := HourlyWindow(firstEnd, runs[i - 1]).to;
    forall k | 0 <= k < |runs| ensures !HourlyWindow(firstEnd, runs[k]).Covers(gap) {
      WindowsMove(firstEnd, runs[k], runs[i - 1]);
      assert k >= i ==> runs[k] >= runs[i];
    }
  }

  /**
   * Whichever runs happened, their windows cover the whole range from the first to the last, and
   * nothing else, exactly when no two neighbouring ones are more than 24 hours apart.
   */
  lemma SkippedRunsLeaveNoGap(firstEnd: Instant, runs: seq<int>)
    requires runs != [] && Increasing(runs)
    ensures (forall t :: CoveredBy(firstEnd, runs, t) <==>
               HourlyWindow(firstEnd, runs[0]).from <= t < HourlyWindow(firstEnd, runs[|runs| - 1]).to)
      <==> Close(runs)
  {
    var from, to := HourlyWindow(firstEnd, runs[0]).from, HourlyWindow(firstEnd, runs[|runs| - 1]).to;
    if h, i :| 0 <= h < i < |runs| && i == h + 1 && runs[i] - runs[h] > 24 {
      var gap := HourlyWindow(firstEnd, runs[i - 1]).to;
      GapIsUncovered(firstEnd, runs, i);
      WindowsMove(firstEnd, runs[0], runs[i - 1]);
      WindowsMove(firstEnd, runs[i - 1], runs[|runs| - 1]);
      assert from <= gap < to;
    } else {
      forall t ensures CoveredBy(firstEnd, runs, t) <==> from <= t < to {
        if CoveredBy(firstEnd, runs, t) {
          CoveredInRange(firstEnd, runs, t);
        }
        if from <= t < to {
          CloseRunsCover(firstEnd, runs, t);
        }
      }
    }
  }
}
