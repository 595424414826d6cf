// Many runs one after another: which of them bronze holds at each instant.
module Runs {
  import opened Bronze
  import opened Dag
  import opened EndToEnd
  import opened History
  import opened Ingest
  import opened Join
  import opened StagedMeasurements
  import opened Times

  /** One run of the chain: what its API calls came to, its load ID and its window. */
  datatype Run = Run(script: ApiScript, load: LoadId, w: Window)

  /** The n-th run took the journal from journals[n] to journals[n + 1], and may have died on the way. */
  ghost predicate RanAt(parse: Parse, runs: seq<Run>, journals: seq<seq<Op>>, n: nat)
    requires n < |runs| && n + 1 < |journals|
  {
    RunPart(parse, runs[n].script, runs[n].load, runs[n].w, journals[n], journals[n + 1])
  }

  ghost predicate PublishedAt(parse: Parse, runs: seq<Run>, journals: seq<seq<Op>>, n: nat)
    requires n < |runs| && n + 1 < |journals|
  {
    Publishes(parse, runs[n].script, runs[n].load, runs[n].w, journals[n], journals[n + 1])
  }

  /** The runs happened one after another on an empty database. */
  ghost predicate RanInTurn(parse: Parse, runs: seq<Run>, journals: seq<seq<Op>>) {
    && |journals| == |runs| + 1 && journals[0] == []
    && forall n :: 0 <= n < |runs| ==> RanAt(parse, runs, journals, n)
  }

  lemma RanBefore(parse: Parse, runs: seq<Run>, journals: seq<seq<Op>>)
    requires RanInTurn(parse, runs, journals) && runs != []
    ensures RanInTurn(parse, runs[..|runs| - 1], journals[..|runs|])
  {
    var front, before := runs[..|runs| - 1], journals[..|runs|];
    forall n | 0 <= n < |front| ensures RanAt(parse, front, before, n) {
      assert RanAt(parse, runs, journals, n);
    }
  }

  /** What the batch of the last run that published and covers t holds there; nothing if there is none. */
  ghost function LastBatchAt(parse: Parse, runs: seq<Run>, journals: seq<seq<Op>>, t: Instant): set<Measurement>
    requires |journals| == |runs| + 1
    decreases |runs|
  {
    if runs == [] then {}
    else
      var n := |runs| - 1;
      if PublishedAt(parse, runs, journals, n) && runs[n].w.Covers(t)
      then BatchAt(parse, BatchOf(parse, runs[n].script, runs[n].w).value, t)
      else LastBatchAt(parse, runs[..n], journals[..n + 1], t)
  }

  /** One run more: it puts its batch in place or leaves bronze as it was. */
  lemma ContentAfterRun(parse: Parse, runs: seq<Run>, journals: seq<seq<Op>>, n: nat, t: Instant)
    requires n < |runs| && n + 1 < |journals|
    requires RanAt(parse, runs, journals, n) || PublishedAt(parse, runs, journals, n)
    ensures ContentAt(Replay(EMPTY, journals[n + 1]), t) ==
      if PublishedAt(parse, runs, journals, n) && runs[n].w.Covers(t)
      then BatchAt(parse, BatchOf(parse, runs[n].script, runs[n].w).value, t)
      else ContentAt(Replay(EMPTY, journals[n]), t)
  {
    var r, before, after := runs[n], journals[n], journals[n + 1];
    if PublishedAt(parse, runs, journals, n) {
      var now, summaries :| PublishedPart(parse, r.script, r.load, r.w, before, now, summaries, after);
      RunPublishesApiContent(parse, r.script, r.load, r.w, before, now, summaries, after, t);
    } else {
      CrashedRunPublishesNothing(parse, r.script, r.load, r.w, before, after);
    }
  }

  /**
   * After any number of runs, each of which may have died anywhere, bronze holds at each instant what
   * the last run that published and covers it collected, and nothing where there is none.
   */
  lemma {:induction false} LastPublishedRunWins(parse: Parse, runs: seq<Run>, journals: seq<seq<Op>>, t: Instant)
    requires RanInTurn(parse, runs, journals)
    ensures ContentAt(Replay(EMPTY, journals[|runs|]), t) == LastBatchAt(parse, runs, journals, t)
    decreases |runs|
  {
    if runs == [] {
    } else {
      var n := |runs| - 1;
      RanBefore(parse, runs, journals);
      LastPublishedRunWins(parse, runs[..n], journals[..n + 1], t);
      assert RanAt(parse, runs, journals, n);
      ContentAfterRun(parse, runs, journals, n, t);
    }
  }

  /** Bronze holds at t what this run collected. */
  ghost predicate HoldsBatchOf(parse: Parse, run: Run, journal: seq<Op>, t: Instant) {
    var batch := BatchOf(parse, run.script, run.w);
    && batch.Success? && Castable(parse, batch.value.measurements)
    && ContentAt(Replay(EMPTY, journal), t) == BatchAt(parse, batch.value, t)
  }

  ghost function Holds(parse: Parse, t: Instant): (Run, seq<Op>) -> bool {
    (run: Run, journal: seq<Op>) => HoldsBatchOf(parse, run, journal, t)
  }

  /** What held before step n holds after it. */
  ghost predicate Keeps<T, S>(holds: (T, S) -> bool, x: T, states: seq<S>, n: nat)
    requires n + 1 < |states|
  {
    holds(x, states[n]) ==> holds(x, states[n + 1])
  }

  ghost predicate Installs<T, S>(holds: (T, S) -> bool, x: T, states: seq<S>, n: nat)
    requires n + 1 < |states|
  {
    holds(x, states[n + 1])
  }

  /** Of the first k hourly runs, the last one that covers an instant they reach, the first that does being h. */
  function LastOf(h: int, k: int): (last: int)
    ensures -23 <= h < k && 1 <= k ==> 0 <= last < k
  {
    if h + 23 < k then h + 23 else k - 1
  }

  /** When steps h to h + 23 each put their own item in place and all others keep what was there, the last one wins. */
  lemma {:induction false} Settles<T, S>(holds: (T, S) -> bool, xs: seq<T>, states: seq<S>, h: int, k: nat, last: T)
    requires |states| == |xs| + 1 && -23 <= h < k && 1 <= k <= |xs|
    requires forall n :: 0 <= n < k && h <= n < h + 24 ==> Installs(holds, xs[n], states, n)
    requires h + 23 < |xs| ==> last == xs[h + 23]
    requires forall n :: 0 <= n < k && h + 24 <= n ==> Keeps(holds, last, states, n)
    ensures holds(xs[LastOf(h, k)], states[k])
  {
    if k <= h + 24 {
      assert Installs(holds, xs[k - 1], states, k - 1);
    } else {
      Settles(holds, xs, states, h, k - 1, last);
      assert Keeps(holds, last, states, k - 1);
    }
  }

  /** Run n published, and covers t exactly if it is one of the 24 from h on. */
  ghost predicate OneOf24(parse: Parse, runs: seq<Run>, journals: seq<seq<Op>>, t: Instant, h: int, n: nat)
    requires n < |runs| && n + 1 < |journals|
  {
    PublishedAt(parse, runs, journals, n) && (runs[n].w.Covers(t) <==> h <= n < h + 24)
  }

  lemma RunStep(parse: Parse, runs: seq<Run>, journals: seq<seq<Op>>, t: Instant, h: int, n: nat, run: Run)
    requires n < |runs| && n + 1 < |journals| && OneOf24(parse, runs, journals, t, h, n)
    ensures if h <= n < h + 24 then Installs(Holds(parse, t), runs[n], journals, n)
            else Keeps(Holds(parse, t), run, journals, n)
  {
    ContentAfterRun(parse, runs, journals, n, t);
  }

  lemma RunsHold(parse: Parse, runs: seq<Run>, journals: seq<seq<Op>>, t: Instant, h: int, k: nat)
    requires |journals| == |runs| + 1 && -23 <= h < k && 1 <= k <= |runs|
    requires forall n :: 0 <= n < |runs| ==> OneOf24(parse, runs, journals, t, h, n)
    ensures Holds(parse, t)(runs[LastOf(h, k)], journals[k])
  {
    var last := runs[LastOf(h, |runs|)];
    forall n | 0 <= n < k
      ensures h <= n < h + 24 ==> Installs(Holds(parse, t), runs[n], journals, n)
      ensures h + 24 <= n ==> Keeps(Holds(parse, t), last, journals, n)
    {
      RunStep(parse, runs, journals, t, h, n, last);
    }
    Settles(Holds(parse, t), runs, journals, h, k, last);
  }

  /** Hourly runs, none of which failed to publish. */
  ghost predicate HourlyRuns(parse: Parse, runs: seq<Run>, journals: seq<seq<Op>>, firstEnd: Instant) {
    && |journals| == |runs| + 1
    && forall n :: 0 <= n < |runs| ==> PublishedAt(parse, runs, journals, n) && runs[n].w == HourlyWindow(firstEnd, n)
  }

  /**
   * With an hourly schedule that never fails, an instant is settled by the last of the 24 runs that
   * cover it: after k runs bronze holds what that run, or the latest one so far, collected there.
   */
  lemma HourlyRunsSettle(parse: Parse, runs: seq<Run>, journals: seq<seq<Op>>, firstEnd: Instant, t: Instant, k: nat)
    requires HourlyRuns(parse, runs, journals, firstEnd) && 1 <= k <= |runs|
    requires -23 <= FirstCover(firstEnd, t) < k
    ensures HoldsBatchOf(parse, runs[LastOf(FirstCover(firstEnd, t), k)], journals[k], t)
  {
    forall n | 0 <= n < |runs| ensures OneOf24(parse, runs, journals, t, FirstCover(firstEnd, t), n) {
      assert PublishedAt(parse, runs, journals, n);
      CoverIndex(firstEnd, n, t);
    }
    RunsHold(parse, runs, journals, t, FirstCover(firstEnd, t), k);
  }
}
