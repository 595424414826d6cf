// Any number of threads calling acquire: lock-protected checks, unlocked sleeps, any interleaving.
module Threads {
  import opened Windows
  import opened Ratelimit
  import opened Wrappers

  type Thread = nat

  datatype Phase = Ready | Asleep(wait: real)

  /**
   * One acquire in progress: its sleeps so far, its failed checks, the grants and the clock
   * when it began, and, from its last failed check, the grants seen and the wake-up time due.
   */
  datatype Call = Call(phase: Phase, slept: real, failed: nat, grantsBefore: nat, begun: real, seen: nat, due: real)

  /** The shared limiter, who got each grant, and the calls in progress. */
  datatype Fleet = Fleet(logs: seq<seq<real>>, history: seq<real>, owners: seq<Thread>, clock: real,
                         calls: map<Thread, Call>)

  datatype Step = Begin(who: Thread) | Tick(to: real) | Check(who: Thread) | Wake(who: Thread)

  /** Whether a step can be taken; `honest` adds that a sleep lasts at least as long as asked. */
  predicate Enabled(s: Fleet, step: Step, honest: bool) {
    match step
    case Begin(t) => t !in s.calls
    case Tick(to) => s.clock <= to
    case Check(t) => t in s.calls && s.calls[t].phase.Ready?
    case Wake(t) => t in s.calls && s.calls[t].phase.Asleep? && (honest ==> s.calls[t].due <= s.clock)
  }

  function Apply(ws: seq<Window>, s: Fleet, step: Step): Fleet
    requires Enabled(s, step, false)
    requires |ws| == |s.logs| && AllValid(ws)
  {
    match step
    case Begin(t) =>
      s.(calls := s.calls[t := Call(Ready, 0.0, 0, |s.history|, s.clock, |s.history|, s.clock)])
    case Tick(to) => s.(clock := to)
    case Check(t) =>
      var pruned := PruneAll(ws, s.logs, s.clock);
      var wait := WaitOf(ws, pruned, s.clock, |ws|);
      var c := s.calls[t];
      if wait <= 0.0 then
        Fleet(AppendAll(pruned, s.clock), s.history + [s.clock], s.owners + [t], s.clock, s.calls - {t})
      else
        var c' := c.(phase := Asleep(wait), failed := c.failed + 1, seen := |s.history|, due := s.clock + wait);
        s.(logs := pruned, calls := s.calls[t := c'])
    case Wake(t) =>
      var c := s.calls[t];
      s.(calls := s.calls[t := c.(phase := Ready, slept := c.slept + c.phase.wait)])
  }

  ghost predicate Safe(ws: seq<Window>, s: Fleet) {
    Inv(ws, s.logs, s.history, s.clock) && |s.owners| == |s.history|
  }

  lemma TimePasses(ws: seq<Window>, logs: seq<seq<real>>, h: seq<real>, asOf: real, now: real)
    requires Inv(ws, logs, h, asOf) && asOf <= now
    ensures Inv(ws, logs, h, now)
  {
    forall i | 0 <= i < |ws| ensures TracksHistory(ws[i], logs[i], h, now) {
      assert TracksHistory(ws[i], logs[i], h, asOf);
    }
  }

  lemma StepKeepsSafe(ws: seq<Window>, s: Fleet, step: Step)
    requires Safe(ws, s) && Enabled(s, step, false)
    ensures Safe(ws, Apply(ws, s, step))
  {
    match step
    case Begin(t) =>
    case Wake(t) =>
    case Tick(to) =>
      TimePasses(ws, s.logs, s.history, s.clock, to);
    case Check(t) =>
      var pruned := PruneAll(ws, s.logs, s.clock);
      PruneAllKeepsInv(ws, s.logs, s.history, s.clock, s.clock);
      if WaitOf(ws, pruned, s.clock, |ws|) <= 0.0 {
        FastFormRefinesNaive(ws, s.logs, s.history, s.clock, s.clock, WaitOf(ws, pruned, s.clock, |ws|));
        GrantKeepsInv(ws, pruned, s.history, s.clock);
      }
  }

  function Initial(ws: seq<Window>, start: real): Fleet {
    Fleet(seq(|ws|, i => []), [], [], start, map[])
  }

  /** The state a run ends in, or None when some step of it cannot be taken. */
  function Run(ws: seq<Window>, start: real, steps: seq<Step>, honest: bool): Option<Fleet>
    requires AllValid(ws)
  {
    if steps == [] then Some(Initial(ws, start))
    else
      match Run(ws, start, steps[..|steps| - 1], honest)
      case None => None
      case Some(before) =>
        if |ws| == |before.logs| && Enabled(before, steps[|steps| - 1], honest)
        then Some(Apply(ws, before, steps[|steps| - 1]))
        else None
  }

  lemma {:induction false} ReachableIsSafe(ws: seq<Window>, start: real, steps: seq<Step>, honest: bool, s: Fleet)
    requires AllValid(ws) && Run(ws, start, steps, honest) == Some(s)
    ensures Safe(ws, s)
  {
    if steps == [] {
    } else {
      var front, last := steps[..|steps| - 1], steps[|steps| - 1];
      var before := Run(ws, start, front, honest).value;
      ReachableIsSafe(ws, start, front, honest, before);
      StepKeepsSafe(ws, before, last);
    }
  }

  /**
   * Concurrent safety: whatever the interleaving, and even when sleeps return early,
   * no half-open span of any window's length ever holds more grants than its cap,
   * and grants are stamped in order.
   */
  lemma ConcurrentSafety(ws: seq<Window>, start: real, steps: seq<Step>, s: Fleet)
    requires AllValid(ws) && Run(ws, start, steps, false) == Some(s)
    ensures Sorted(s.history) && NoneAfter(s.history, s.clock)
    ensures forall i :: 0 <= i < |ws| ==> Respects(s.history, ws[i])
    ensures forall i :: 0 <= i < |ws| ==> |s.logs[i]| <= ws[i].maxRequests
  {
    ReachableIsSafe(ws, start, steps, false, s);
    forall i | 0 <= i < |ws|
      ensures Respects(s.history, ws[i]) && |s.logs[i]| <= ws[i].maxRequests
    {
      SpacedIffRespects(s.history, ws[i]);
      assert TracksHistory(ws[i], s.logs[i], s.history, s.clock);
    }
  }

  /** What each call in progress knows when sleeps last as long as asked. */
  ghost predicate CallInv(ws: seq<Window>, s: Fleet, t: Thread, c: Call) {
    && c.grantsBefore <= c.seen <= |s.history| == |s.owners|
    && t !in s.owners[c.grantsBefore..]
    && (c.failed > 0 ==> c.failed <= 1 + c.seen - c.grantsBefore)
    && (c.failed > 0 ==> AdmitsFrom(ws, s.history[..c.seen], c.due))
    && (c.failed > 0 && c.phase.Ready? ==> c.due <= s.clock)
    && (c.phase.Asleep? ==> c.failed > 0 && c.phase.wait > 0.0 && c.begun + c.slept + c.phase.wait <= c.due)
    && (c.phase.Ready? ==> c.begun + c.slept <= s.clock)
    && 0.0 <= c.slept
  }

  ghost predicate Progressing(ws: seq<Window>, s: Fleet) {
    Safe(ws, s) && forall t :: t in s.calls ==> CallInv(ws, s, t, s.calls[t])
  }

  /** A failed check after a call's first means that someone was granted since its last check. */
  lemma FailureMeansOthersWereGranted(ws: seq<Window>, s: Fleet, t: Thread)
    requires Progressing(ws, s) && Enabled(s, Check(t), true)
    requires t in Apply(ws, s, Check(t)).calls && s.calls[t].failed > 0
    ensures |s.history| > s.calls[t].seen && t !in s.owners[s.calls[t].seen..]
  {
    var c := s.calls[t];
    assert CallInv(ws, s, t, c);
    FastFormRefinesNaive(ws, s.logs, s.history, s.clock, s.clock,
                         WaitOf(ws, PruneAll(ws, s.logs, s.clock), s.clock, |ws|));
    assert s.history[..|s.history|] == s.history;
    assert forall k :: c.seen <= k < |s.owners| ==> s.owners[k] == s.owners[c.grantsBefore..][k - c.grantsBefore];
  }

  lemma CheckKeepsCallInv(ws: seq<Window>, s: Fleet, t: Thread)
    requires Progressing(ws, s) && Enabled(s, Check(t), true)
    requires t in Apply(ws, s, Check(t)).calls
    ensures CallInv(ws, Apply(ws, s, Check(t)), t, Apply(ws, s, Check(t)).calls[t])
  {
    var c := s.calls[t];
    assert CallInv(ws, s, t, c);
    var wait := WaitOf(ws, PruneAll(ws, s.logs, s.clock), s.clock, |ws|);
    FastFormRefinesNaive(ws, s.logs, s.history, s.clock, s.clock, wait);
    assert s.history[..|s.history|] == s.history;
    if c.failed > 0 {
      FailureMeansOthersWereGranted(ws, s, t);
    }
  }

  lemma OthersKeepCallInv(ws: seq<Window>, s: Fleet, step: Step, t: Thread)
    requires Progressing(ws, s) && Enabled(s, step, true)
    requires t in s.calls && t in Apply(ws, s, step).calls
    requires step.Tick? || step.who != t
    ensures CallInv(ws, Apply(ws, s, step), t, Apply(ws, s, step).calls[t])
  {
    var c, after := s.calls[t], Apply(ws, s, step);
    assert CallInv(ws, s, t, c);
    assert after.calls[t] == c;
    assert after.history[..c.seen] == s.history[..c.seen];
    assert after.owners == s.owners || after.owners[c.grantsBefore..] == s.owners[c.grantsBefore..] + [step.who];
  }

  lemma StepKeepsProgress(ws: seq<Window>, s: Fleet, step: Step)
    requires Progressing(ws, s) && Enabled(s, step, true)
    ensures Progressing(ws, Apply(ws, s, step))
  {
    StepKeepsSafe(ws, s, step);
    var after := Apply(ws, s, step);
    forall t | t in after.calls ensures CallInv(ws, after, t, after.calls[t]) {
      if step.Tick? || step.who != t {
        OthersKeepCallInv(ws, s, step, t);
      } else if step.Check? {
        CheckKeepsCallInv(ws, s, t);
      } else if step.Wake? {
        assert CallInv(ws, s, t, s.calls[t]);
      }
    }
  }

  lemma {:induction false} ReachableProgresses(ws: seq<Window>, start: real, steps: seq<Step>, s: Fleet)
    requires AllValid(ws) && Run(ws, start, steps, true) == Some(s)
    ensures Progressing(ws, s)
  {
    if steps == [] {
    } else {
      var front, last := steps[..|steps| - 1], steps[|steps| - 1];
      var before := Run(ws, start, front, true).value;
      ReachableProgresses(ws, start, front, before);
      StepKeepsProgress(ws, before, last);
    }
  }

  /** The waits that the checks of a thread's current call were told, in a run of these steps. */
  function Asked(ws: seq<Window>, start: real, steps: seq<Step>, honest: bool, t: Thread): real
    requires AllValid(ws)
  {
    if steps == [] || Run(ws, start, steps[..|steps| - 1], honest).None? then 0.0
    else
      var front, last := steps[..|steps| - 1], steps[|steps| - 1];
      var before := Run(ws, start, front, honest).value;
      if last == Begin(t) then 0.0
      else if last == Check(t) then
        Asked(ws, start, front, honest, t) + (Earliest(ws, before.history, before.clock) - before.clock)
      else Asked(ws, start, front, honest, t)
  }

  /** What the call has slept, with the sleep it is in. */
  function Taken(c: Call): real {
    c.slept + if c.phase.Asleep? then c.phase.wait else 0.0
  }

  lemma StepTakes(ws: seq<Window>, s: Fleet, step: Step, t: Thread)
    requires Safe(ws, s) && Enabled(s, step, false) && t in Apply(ws, s, step).calls
    ensures step == Begin(t) ==> Taken(Apply(ws, s, step).calls[t]) == 0.0
    ensures step != Begin(t) ==> t in s.calls
    ensures step == Check(t) ==>
      Taken(Apply(ws, s, step).calls[t]) == s.calls[t].slept + (Earliest(ws, s.history, s.clock) - s.clock)
      && s.calls[t].phase.Ready?
    ensures step != Begin(t) && step != Check(t) ==> Taken(Apply(ws, s, step).calls[t]) == Taken(s.calls[t])
  {
    if step == Check(t) {
      var pruned := PruneAll(ws, s.logs, s.clock);
      CheckTells(ws, s.logs, s.history, s.clock, s.clock, pruned, WaitOf(ws, pruned, s.clock, |ws|));
    }
  }

  /** A call in progress has slept, or is asleep for, exactly what its failed checks asked for. */
  lemma {:induction false} SleepsWhatIsAsked(ws: seq<Window>, start: real, steps: seq<Step>, honest: bool, s: Fleet,
                                             t: Thread)
    requires AllValid(ws) && Run(ws, start, steps, honest) == Some(s) && t in s.calls
    ensures Taken(s.calls[t]) == Asked(ws, start, steps, honest, t)
  {
    if steps == [] {
    } else {
      var front, last := steps[..|steps| - 1], steps[|steps| - 1];
      var before := Run(ws, start, front, honest).value;
      ReachableIsSafe(ws, start, front, honest, before);
      StepTakes(ws, before, last, t);
      if last != Begin(t) {
        SleepsWhatIsAsked(ws, start, front, honest, before, t);
      }
    }
  }

  /**
   * Progress: when a call is granted it has made at most 2 plus as many checks as grants
   * went to other threads during it, and it has slept exactly what its failed checks asked for,
   * no longer than the time it took.
   */
  lemma IterationBound(ws: seq<Window>, start: real, steps: seq<Step>, s: Fleet, t: Thread)
    requires AllValid(ws) && Run(ws, start, steps, true) == Some(s)
    requires |ws| == |s.logs| && Enabled(s, Check(t), true)
    requires t !in Apply(ws, s, Check(t)).calls
    ensures var c := s.calls[t];
      && c.grantsBefore <= |s.owners|
      && t !in s.owners[c.grantsBefore..]
      && c.failed + 1 <= 2 + |s.owners[c.grantsBefore..]|
      && 0.0 <= c.slept <= s.clock - c.begun
      && c.slept == Asked(ws, start, steps, true, t)
  {
    ReachableProgresses(ws, start, steps, s);
    SleepsWhatIsAsked(ws, start, steps, true, s, t);
    assert CallInv(ws, s, t, s.calls[t]);
  }

  // ---- the bound is reached

  lemma RunGrows(ws: seq<Window>, start: real, steps: seq<Step>, honest: bool, s: Fleet, step: Step)
    requires AllValid(ws) && Run(ws, start, steps, honest) == Some(s)
    requires |ws| == |s.logs| && Enabled(s, step, honest)
    ensures Run(ws, start, steps + [step], honest) == Some(Apply(ws, s, step))
  {
    assert (steps + [step])[..|steps|] == steps;
  }

  const ONE_A_SECOND := [Window(1, 1.0)]

  /** A check of a limiter of one grant a second that last granted less than a second ago. */
  lemma CheckOne(s: Fleet, t: Thread, last: real)
    requires t in s.calls && s.calls[t].phase.Ready? && s.logs == [[last]] && last <= s.clock < last + 1.0
    ensures var c := s.calls[t];
      var wait := last + 1.0 - s.clock;
      Apply(ONE_A_SECOND, s, Check(t)) == s.(calls := s.calls[t := c.(
        phase := Asleep(wait), failed := c.failed + 1, seen := |s.history|, due := s.clock + wait)])
  {
    var pruned := PruneAll(ONE_A_SECOND, s.logs, s.clock);
    assert pruned == [[last]];
    assert WaitOf(ONE_A_SECOND, pruned, s.clock, 1) == last + 1.0 - s.clock;
  }

  /** A check of such a limiter that has granted nothing yet, or last a second ago or earlier. */
  lemma GrantOne(s: Fleet, t: Thread)
    requires t in s.calls && s.calls[t].phase.Ready? && |s.logs| == 1
    requires s.logs[0] == [] || (|s.logs[0]| == 1 && s.logs[0][0] + 1.0 <= s.clock)
    ensures Apply(ONE_A_SECOND, s, Check(t)) ==
      Fleet([[s.clock]], s.history + [s.clock], s.owners + [t], s.clock, s.calls - {t})
  {
    var log := s.logs[0];
    assert Prune(log, s.clock - 1.0) == [] by {
      assert log != [] ==> log[1..] == [];
    }
    var pruned := PruneAll(ONE_A_SECOND, s.logs, s.clock);
    assert pruned == [[]];
    assert WaitOf(ONE_A_SECOND, pruned, s.clock, 1) == 0.0;
    assert AppendAll(pruned, s.clock)[0] == pruned[0] + [s.clock] == [s.clock];
    assert AppendAll(pruned, s.clock) == [[s.clock]];
  }

  /** Threads 1 and 2 find the limiter taken by thread 0. */
  lemma TwoWait() returns (steps: seq<Step>, s: Fleet)
    ensures Run(ONE_A_SECOND, 0.0, steps, true) == Some(s)
    ensures s.logs == [[0.0]] && s.history == [0.0] && s.owners == [0] && s.clock == 0.0
    ensures 1 in s.calls && 2 in s.calls
    ensures s.calls[1] == s.calls[2] == Call(Asleep(1.0), 0.0, 1, 1, 0.0, 1, 1.0)
  {
    var ws := ONE_A_SECOND;
    steps, s := [], Initial(ws, 0.0);
    RunGrows(ws, 0.0, steps, true, s, Begin(0));
    steps, s := steps + [Begin(0)], Apply(ws, s, Begin(0));
    GrantOne(s, 0);
    RunGrows(ws, 0.0, steps, true, s, Check(0));
    steps, s := steps + [Check(0)], Apply(ws, s, Check(0));
    RunGrows(ws, 0.0, steps, true, s, Begin(1));
    steps, s := steps + [Begin(1)], Apply(ws, s, Begin(1));
    RunGrows(ws, 0.0, steps, true, s, Begin(2));
    steps, s := steps + [Begin(2)], Apply(ws, s, Begin(2));
    CheckOne(s, 1, 0.0);
    RunGrows(ws, 0.0, steps, true, s, Check(1));
    steps, s := steps + [Check(1)], Apply(ws, s, Check(1));
    CheckOne(s, 2, 0.0);
    RunGrows(ws, 0.0, steps, true, s, Check(2));
    steps, s := steps + [Check(2)], Apply(ws, s, Check(2));
  }

  /** They wake together a second later. */
  lemma TwoWake() returns (steps: seq<Step>, s: Fleet)
    ensures Run(ONE_A_SECOND, 0.0, steps, true) == Some(s)
    ensures s.logs == [[0.0]] && s.history == [0.0] && s.owners == [0] && s.clock == 1.0
    ensures 1 in s.calls && 2 in s.calls
    ensures s.calls[1] == s.calls[2] == Call(Ready, 1.0, 1, 1, 0.0, 1, 1.0)
  {
    var ws := ONE_A_SECOND;
    steps, s := TwoWait();
    RunGrows(ws, 0.0, steps, true, s, Tick(1.0));
    steps, s := steps + [Tick(1.0)], Apply(ws, s, Tick(1.0));
    RunGrows(ws, 0.0, steps, true, s, Wake(1));
    steps, s := steps + [Wake(1)], Apply(ws, s, Wake(1));
    RunGrows(ws, 0.0, steps, true, s, Wake(2));
    steps, s := steps + [Wake(2)], Apply(ws, s, Wake(2));
  }

  /** The bound on checks is the best there is: thread 2, overtaken once, is granted at its third check. */
  lemma IterationBoundIsReached() returns (steps: seq<Step>, s: Fleet)
    ensures Run(ONE_A_SECOND, 0.0, steps, true) == Some(s)
    ensures |s.logs| == 1 && Enabled(s, Check(2), true) && 2 !in Apply(ONE_A_SECOND, s, Check(2)).calls
    ensures s.calls[2].grantsBefore <= |s.owners|
    ensures s.calls[2].failed + 1 == 2 + |s.owners[s.calls[2].grantsBefore..]| == 3
  {
    var ws := ONE_A_SECOND;
    steps, s := TwoWake();
    GrantOne(s, 1);
    RunGrows(ws, 0.0, steps, true, s, Check(1));
    steps, s := steps + [Check(1)], Apply(ws, s, Check(1));
    CheckOne(s, 2, 1.0);
    RunGrows(ws, 0.0, steps, true, s, Check(2));
    steps, s := steps + [Check(2)], Apply(ws, s, Check(2));
    RunGrows(ws, 0.0, steps, true, s, Tick(2.0));
    steps, s := steps + [Tick(2.0)], Apply(ws, s, Tick(2.0));
    RunGrows(ws, 0.0, steps, true, s, Wake(2));
    steps, s := steps + [Wake(2)], Apply(ws, s, Wake(2));
    GrantOne(s, 2);
  }
}
