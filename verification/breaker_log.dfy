/** The circuit breaker against the log of its runs. */
module BreakerLogs {
  // What the breaker keeps in its counters, and each of its decisions, read off the steps that were taken: how many
  // failures came since the last success, what has happened since HALF_OPEN was entered, and when it was opened.

  import opened CircuitBreakers

  /** The failures recorded since the last success or reset. */
  function InARow(steps: seq<Step>): nat
    decreases |steps|
  {
    if steps == [] then 0
    else
      var n := |steps| - 1;
      match steps[n]
      case Return(_, _) => 0
      case Reset(_) => 0
      case Throw(_, _) => InARow(steps[..n]) + 1
      case _ => InARow(steps[..n])
  }

  function Returns(steps: seq<Step>): nat {
    if steps == [] then 0 else (if steps[0].Return? then 1 else 0) + Returns(steps[1..])
  }

  function Throws(steps: seq<Step>): nat {
    if steps == [] then 0 else (if steps[0].Throw? then 1 else 0) + Throws(steps[1..])
  }

  function Invokes(steps: seq<Step>): nat {
    if steps == [] then 0 else (if steps[0].Invoke? then 1 else 0) + Invokes(steps[1..])
  }

  /** The steps of the current HALF_OPEN episode, beginning with the one that entered it. */
  function Episode(cfg: Config, steps: seq<Step>): seq<Step>
    decreases |steps|
  {
    if steps == [] then []
    else
      var n := |steps| - 1;
      if Exec(cfg, steps[..n]).f.phase.HalfOpen? then Episode(cfg, steps[..n]) + [steps[n]] else [steps[n]]
  }

  /** When the breaker was last opened: a trip, or the failure that opened it. */
  function OpenedAt(cfg: Config, steps: seq<Step>): real { LastOpening(cfg, START, steps, 0.0) }

  /** The phase that a step leads to. */
  function PhaseAfter(cfg: Config, steps: seq<Step>, s: Step): Phase {
    var phase := Exec(cfg, steps).f.phase;
    match s
    case Reset(_) => Closed
    case Trip(_) => Open
    case Throw(_, _) =>
      if phase.HalfOpen? || InARow(steps) + 1 >= cfg.failureThreshold then Open else phase
    case Return(_, _) =>
      if phase.HalfOpen? && Returns(Episode(cfg, steps)) + 1 >= cfg.successThreshold then Closed else phase
    case Invoke(at) => if phase.Open? && Due(cfg, steps, at) then HalfOpen else phase
    case Observe(at) => if phase.Open? && Due(cfg, steps, at) then HalfOpen else phase
    case Vanish(_, _) => phase
  }

  predicate Due(cfg: Config, steps: seq<Step>, at: real) { at >= OpenedAt(cfg, steps) + cfg.recoveryTimeout }

  /** How an attempted call is answered. */
  function Answer(cfg: Config, steps: seq<Step>, at: real): Verdict {
    var w := Exec(cfg, steps);
    if w.f.phase.Closed? then Admitted
    else if w.f.phase.Open? && !Due(cfg, steps, at) then if cfg.hasFallback then UsedFallback else Refused
    else
      var earlier := if w.f.phase.HalfOpen? then Invokes(Episode(cfg, steps)) else 0;
      if earlier < cfg.halfOpenMaxCalls then Admitted else Refused
  }

  /** The calls turned away. */
  function Refusals(cfg: Config, steps: seq<Step>): nat
    decreases |steps|
  {
    if steps == [] then 0
    else
      var n := |steps| - 1;
      Refusals(cfg, steps[..n])
      + if steps[n].Invoke? && !Answer(cfg, steps[..n], steps[n].at).Admitted? then 1 else 0
  }

  // ---------- one step more ----------

  lemma ExecSnoc(cfg: Config, steps: seq<Step>, s: Step)
    ensures Exec(cfg, steps + [s]) == Apply(cfg, Exec(cfg, steps), s)
    ensures Legal(cfg, steps + [s]) <==> Legal(cfg, steps) && Enabled(cfg, Exec(cfg, steps), s)
  {
    Append(cfg, START, steps, [s]);
    var w := Exec(cfg, steps);
    assert [s][1..] == [];
    assert ExecFrom(cfg, w, [s]) == ExecFrom(cfg, Apply(cfg, w, s), [s][1..]);
  }

  lemma {:induction false} CountsSnoc(steps: seq<Step>, s: Step)
    ensures Returns(steps + [s]) == Returns(steps) + if s.Return? then 1 else 0
    ensures Throws(steps + [s]) == Throws(steps) + if s.Throw? then 1 else 0
    ensures Invokes(steps + [s]) == Invokes(steps) + if s.Invoke? then 1 else 0
  {
    if steps == [] {
      assert steps + [s] == [s] && [s][1..] == [];
    } else {
      assert (steps + [s])[1..] == steps[1..] + [s];
      CountsSnoc(steps[1..], s);
    }
  }

  lemma Snoc(cfg: Config, steps: seq<Step>, s: Step)
    ensures var e := Episode(cfg, steps + [s]);
            e == if Exec(cfg, steps).f.phase.HalfOpen? then Episode(cfg, steps) + [s] else [s]
    ensures InARow(steps + [s]) == match s
                                   case Return(_, _) => 0
                                   case Reset(_) => 0
                                   case Throw(_, _) => InARow(steps) + 1
                                   case _ => InARow(steps)
    ensures Refusals(cfg, steps + [s])
         == Refusals(cfg, steps) + if s.Invoke? && !Answer(cfg, steps, s.at).Admitted? then 1 else 0
  {
    assert (steps + [s])[..|steps|] == steps;
    hide Exec, Answer;
  }

  // ---------- the counters ----------

  function Capped(n: nat, max: int): int { if n <= max then n else if max >= 0 then max else 0 }

  ghost predicate Logged(cfg: Config, f: Fields, steps: seq<Step>) {
    && f.consecutiveFailures == InARow(steps)
    && f.totalFailures == Throws(steps)
    && f.totalRejected == Refusals(cfg, steps)
    && (f.phase.Open? ==> f.openedAt == OpenedAt(cfg, steps))
    && (f.phase.HalfOpen? ==>
          && f.successCount == Returns(Episode(cfg, steps))
          && f.halfOpenCalls == Capped(Invokes(Episode(cfg, steps)), cfg.halfOpenMaxCalls))
  }

  lemma OpenedSnoc(cfg: Config, steps: seq<Step>, s: Step)
    ensures Exec(cfg, steps + [s]).f.phase.Open? ==>
              Exec(cfg, steps + [s]).f.openedAt == OpenedAt(cfg, steps + [s])
  {
    OpenedAtIsLastOpening(cfg, START, steps + [s], 0.0);
    hide ExecFrom, LastOpening;
  }

  /** The effect of a step on what does not depend on the episode. */
  lemma TallyStep(cfg: Config, steps: seq<Step>, s: Step)
    requires Logged(cfg, Exec(cfg, steps).f, steps)
    ensures var g := Effect(cfg, Exec(cfg, steps).f, s);
            && g.consecutiveFailures == InARow(steps + [s]) && g.totalFailures == Throws(steps + [s])
            && g.totalRejected == Refusals(cfg, steps + [s])
            && g.phase == PhaseAfter(cfg, steps, s)
  {
    Snoc(cfg, steps, s);
    CountsSnoc(steps, s);
    hide Exec, InARow, Throws, Refusals, OpenedAt, Episode, Invokes, Returns;
    match s
    case Invoke(_) =>
    case Throw(_, _) =>
    case _ =>
  }

  lemma EpisodeStep(cfg: Config, steps: seq<Step>, s: Step)
    requires Logged(cfg, Exec(cfg, steps).f, steps)
    ensures var g := Effect(cfg, Exec(cfg, steps).f, s);
            g.phase.HalfOpen? ==>
              && g.successCount == Returns(Episode(cfg, steps + [s]))
              && g.halfOpenCalls == Capped(Invokes(Episode(cfg, steps + [s])), cfg.halfOpenMaxCalls)
  {
    var f := Exec(cfg, steps).f;
    Snoc(cfg, steps, s);
    Counters(cfg, f, s);
    CountsSnoc(if f.phase.HalfOpen? then Episode(cfg, steps) else [], s);
    assert [] + [s] == [s];
    hide Exec, InARow, Throws, Refusals, OpenedAt, Episode, Failed, Succeeded;
    match s
    case Invoke(_) =>
    case Throw(_, _) =>
    case _ =>
  }

  lemma StartLogged(cfg: Config, steps: seq<Step>)
    requires steps == []
    ensures Exec(cfg, steps) == START && Logged(cfg, START.f, steps)
  {
  }

  /** Every counter of a reachable breaker is what the log says. */
  lemma {:induction false} LogTheorem(cfg: Config, steps: seq<Step>)
    ensures Logged(cfg, Exec(cfg, steps).f, steps)
    decreases |steps|
  {
    hide Exec, Effect, InARow, Throws, Refusals, OpenedAt, Episode, Apply, Invokes, Returns;
    if steps == [] {
      StartLogged(cfg, steps);
    } else {
      var n := |steps| - 1;
      var init, s := steps[..n], steps[n];
      assert steps == init + [s];
      LogTheorem(cfg, init);
      ExecSnoc(cfg, init, s);
      AppliesEffect(cfg, Exec(cfg, init), s);
      TallyStep(cfg, init, s);
      EpisodeStep(cfg, init, s);
      OpenedSnoc(cfg, init, s);
    }
  }

  lemma AppliesEffect(cfg: Config, w: World, s: Step)
    ensures Apply(cfg, w, s).f == Effect(cfg, w.f, s)
  {
  }

  // ---------- the decisions ----------

  /** Every change of phase, in every run: which step makes it, and after how many failures, successes or seconds. */
  lemma PhaseTheorem(cfg: Config, steps: seq<Step>, s: Step)
    ensures Exec(cfg, steps + [s]).f.phase == PhaseAfter(cfg, steps, s)
  {
    hide Exec, Effect, PhaseAfter, Logged;
    LogTheorem(cfg, steps);
    TallyStep(cfg, steps, s);
    ExecSnoc(cfg, steps, s);
    AppliesEffect(cfg, Exec(cfg, steps), s);
  }

  /** Without a trip, a CLOSED breaker opens exactly on the failure that completes the threshold with no success in
      between. */
  lemma OpensIff(cfg: Config, steps: seq<Step>, s: Step)
    requires Exec(cfg, steps).f.phase.Closed? && !s.Trip?
    ensures Exec(cfg, steps + [s]).f.phase.Open? <==> s.Throw? && InARow(steps + [s]) >= cfg.failureThreshold
  {
    PhaseTheorem(cfg, steps, s);
    Snoc(cfg, steps, s);
    hide Exec, InARow, Refusals, Episode, Due;
  }

  /** Every call is answered as the log says. */
  lemma AnswerTheorem(cfg: Config, steps: seq<Step>, at: real)
    ensures Admission(cfg, Exec(cfg, steps).f, at).1 == Answer(cfg, steps, at)
  {
    LogTheorem(cfg, steps);
    hide Exec, InARow, Throws, Refusals, OpenedAt, Episode, Invokes, Returns;
  }

  // ---------- the failure times ----------

  /** The times of the failures recorded since the breaker was last closed, by a reset or by its successes. */
  function FailureTimes(cfg: Config, steps: seq<Step>): seq<real>
    decreases |steps|
  {
    if steps == [] then []
    else
      var n := |steps| - 1;
      var init, s := steps[..n], steps[n];
      if s.Throw? then FailureTimes(cfg, init) + [s.at]
      else if s.Reset? || (Exec(cfg, steps).f.phase.Closed? && !Exec(cfg, init).f.phase.Closed?) then []
      else FailureTimes(cfg, init)
  }

  function After(times: seq<real>, cutoff: real): seq<real>
    decreases |times|
  {
    if times == [] then []
    else
      var n := |times| - 1;
      After(times[..n], cutoff) + if times[n] <= cutoff then [] else [times[n]]
  }

  function LastFailure(steps: seq<Step>): real
    decreases |steps|
  {
    if steps == [] then 0.0
    else if steps[|steps| - 1].Throw? then steps[|steps| - 1].at
    else LastFailure(steps[..|steps| - 1])
  }

  lemma {:induction false} RecentIsAfter(times: seq<real>, cutoff: real)
    ensures Recent(times, cutoff) == After(times, cutoff)
  {
    if times != [] {
      AfterCons(times[0], times[1..], cutoff);
      RecentIsAfter(times[1..], cutoff);
      assert [times[0]] + times[1..] == times;
    }
  }

  lemma {:induction false} AfterCons(t: real, times: seq<real>, cutoff: real)
    ensures After([t] + times, cutoff) == (if t <= cutoff then [] else [t]) + After(times, cutoff)
    decreases |times|
  {
    var all := [t] + times;
    if times == [] {
      assert all[..0] == [];
    } else {
      var n := |times| - 1;
      assert all[..n + 1] == [t] + times[..n];
      AfterCons(t, times[..n], cutoff);
    }
  }

  lemma {:induction false} AfterAfter(times: seq<real>, early: real, late: real)
    requires early <= late
    ensures After(After(times, early), late) == After(times, late)
    decreases |times|
  {
    if times != [] {
      var n := |times| - 1;
      AfterAfter(times[..n], early, late);
      var kept := After(times[..n], early);
      assert (kept + [times[n]])[..|kept|] == kept && kept + [] == kept;
    }
  }

  lemma AfterSnoc(times: seq<real>, t: real, cutoff: real)
    ensures After(times + [t], cutoff) == After(times, cutoff) + if t <= cutoff then [] else [t]
  {
    assert (times + [t])[..|times|] == times;
  }

  /** What a step does to the list of failure times. */
  lemma TimesStep(cfg: Config, f: Fields, s: Step)
    ensures var g := Effect(cfg, f, s);
            g.failureTimes == if s.Throw? then Recent(f.failureTimes + [s.at], s.at - cfg.windowSeconds)
                              else if s.Reset? || (g.phase.Closed? && !f.phase.Closed?) then []
                              else f.failureTimes
  {
    match s
    case Invoke(_) =>
    case Throw(_, _) =>
    case _ =>
  }

  lemma {:induction false} TimeGoesOn(cfg: Config, steps: seq<Step>)
    requires Legal(cfg, steps)
    ensures LastFailure(steps) <= Exec(cfg, steps).now
    decreases |steps|
  {
    hide Effect;
    if steps != [] {
      var n := |steps| - 1;
      assert steps == steps[..n] + [steps[n]];
      ExecSnoc(cfg, steps[..n], steps[n]);
      TimeGoesOn(cfg, steps[..n]);
    }
  }

  lemma FailureSnoc(cfg: Config, steps: seq<Step>, s: Step)
    ensures LastFailure(steps + [s]) == if s.Throw? then s.at else LastFailure(steps)
    ensures var closes := Exec(cfg, steps + [s]).f.phase.Closed? && !Exec(cfg, steps).f.phase.Closed?;
            FailureTimes(cfg, steps + [s]) == if s.Throw? then FailureTimes(cfg, steps) + [s.at]
                                              else if s.Reset? || closes then []
                                              else FailureTimes(cfg, steps)
  {
    assert (steps + [s])[..|steps|] == steps;
    hide Exec;
  }

  /** The list of failure times holds those since the last closing that lie within the window of the latest. */
  lemma {:induction false} TimesTheorem(cfg: Config, steps: seq<Step>)
    requires Legal(cfg, steps)
    ensures Exec(cfg, steps).f.failureTimes
         == After(FailureTimes(cfg, steps), LastFailure(steps) - cfg.windowSeconds)
    decreases |steps|
  {
    hide Exec, Effect, Recent, After, Apply, Legal, FailureTimes, LastFailure;
    if steps == [] {
      NoTimes(cfg, steps);
    } else {
      var n := |steps| - 1;
      var init, s := steps[..n], steps[n];
      assert steps == init + [s];
      ExecSnoc(cfg, init, s);
      Follows(cfg, Exec(cfg, init), s);
      TimesTheorem(cfg, init);
      TimesStep(cfg, Exec(cfg, init).f, s);
      TimeGoesOn(cfg, init);
      FailureSnoc(cfg, init, s);
      var times := FailureTimes(cfg, init);
      var early, late := LastFailure(init) - cfg.windowSeconds, s.at - cfg.windowSeconds;
      if s.Throw? {
        RecentIsAfter(After(times, early) + [s.at], late);
        AfterSnoc(After(times, early), s.at, late);
        AfterAfter(times, early, late);
        AfterSnoc(times, s.at, late);
      } else {
        NoneAfter(FailureTimes(cfg, steps), early);
      }
    }
  }

  lemma Follows(cfg: Config, w: World, s: Step)
    ensures Apply(cfg, w, s).f == Effect(cfg, w.f, s)
    ensures Enabled(cfg, w, s) ==> s.at >= w.now
  {
  }

  lemma NoneAfter(times: seq<real>, cutoff: real)
    ensures times == [] ==> After(times, cutoff) == []
  {
  }

  lemma NoTimes(cfg: Config, steps: seq<Step>)
    requires steps == []
    ensures Exec(cfg, steps).f.failureTimes == []
            == After(FailureTimes(cfg, steps), LastFailure(steps) - cfg.windowSeconds)
  {
  }
}
