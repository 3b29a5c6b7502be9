/** The circuit breaker of infrastructure/circuit_breaker.py. */
module CircuitBreakers {
  // `Fields` is the value of a breaker's attributes, and one function per critical section says what that section does
  // to it; the class `CircuitBreaker` performs the sections in place and is proved against those functions. A call is
  // admitted under the lock, runs outside it, and is recorded under the lock again, so a run of the system is a
  // sequence of `Step`s in which any number of calls may be in flight between admission and recording. A call whose
  // exception is of an excluded type, or outside `Exception`, as an interrupt or a cancellation is, ends unrecorded.

  datatype Phase = Closed | Open | HalfOpen

  datatype Config = Config(
    failureThreshold: int,
    recoveryTimeout: real,
    halfOpenMaxCalls: int,
    successThreshold: int,
    windowSeconds: real,
    lossy: bool,          // some calls end unrecorded
    hasFallback: bool)

  datatype Fields = Fields(
    phase: Phase,
    failureTimes: seq<real>,
    successCount: int,
    halfOpenCalls: int,
    openedAt: real,
    totalFailures: int,
    totalRejected: int,
    consecutiveFailures: int)

  datatype Verdict = Admitted | UsedFallback | Refused

  const FRESH: Fields := Fields(Closed, [], 0, 0, 0.0, 0, 0, 0)

  // ---------- the critical sections ----------

  function MoveTo(f: Fields, phase: Phase): Fields {
    match phase
    case HalfOpen => f.(phase := HalfOpen, halfOpenCalls := 0, successCount := 0)
    case Closed => f.(phase := Closed, failureTimes := [], successCount := 0, consecutiveFailures := 0)
    case Open => f.(phase := Open)
  }

  function TimedMove(cfg: Config, f: Fields, now: real): Fields {
    if f.phase.Open? && now - f.openedAt >= cfg.recoveryTimeout then MoveTo(f, HalfOpen) else f
  }

  function Admission(cfg: Config, f: Fields, now: real): (Fields, Verdict) {
    var g := TimedMove(cfg, f, now);
    match g.phase
    case Open =>
      (g.(totalRejected := g.totalRejected + 1), if cfg.hasFallback then UsedFallback else Refused)
    case HalfOpen =>
      if g.halfOpenCalls >= cfg.halfOpenMaxCalls then (g.(totalRejected := g.totalRejected + 1), Refused)
      else (g.(halfOpenCalls := g.halfOpenCalls + 1), Admitted)
    case Closed => (g, Admitted)
  }

  function Succeeded(cfg: Config, f: Fields): Fields {
    var g := f.(consecutiveFailures := 0);
    if !g.phase.HalfOpen? then g
    else
      var h := g.(successCount := g.successCount + 1);
      if h.successCount >= cfg.successThreshold then MoveTo(h, Closed) else h
  }

  function Recent(times: seq<real>, cutoff: real): seq<real> {
    if times == [] then []
    else if times[0] > cutoff then [times[0]] + Recent(times[1..], cutoff)
    else Recent(times[1..], cutoff)
  }

  function Failed(cfg: Config, f: Fields, now: real): Fields {
    var g := f.(failureTimes := Recent(f.failureTimes + [now], now - cfg.windowSeconds),
                totalFailures := f.totalFailures + 1,
                consecutiveFailures := f.consecutiveFailures + 1);
    if g.phase.HalfOpen? || (g.phase.Closed? && g.consecutiveFailures >= cfg.failureThreshold)
    then MoveTo(g.(openedAt := now), Open)
    else g
  }

  function Tripped(f: Fields, now: real): Fields {
    MoveTo(f.(openedAt := now), Open)
  }

  /** The breaker object. Each method is one `with self._lock` section; the clock reading is its parameter. */
  class CircuitBreaker {
    const cfg: Config
    var phase: Phase
    var failureTimes: seq<real>
    var successCount: int
    var halfOpenCalls: int
    var openedAt: real
    var totalFailures: int
    var totalRejected: int
    var consecutiveFailures: int

    ghost function Value(): Fields
      reads this
    {
      Fields(phase, failureTimes, successCount, halfOpenCalls, openedAt,
             totalFailures, totalRejected, consecutiveFailures)
    }

    constructor (cfg: Config)
      ensures Value() == FRESH && this.cfg == cfg
    {
      this.cfg := cfg;
      phase, failureTimes, successCount, halfOpenCalls := Closed, [], 0, 0;
      openedAt, totalFailures, totalRejected, consecutiveFailures := 0.0, 0, 0, 0;
    }

    method Transition(next: Phase)
      modifies this
      ensures Value() == MoveTo(old(Value()), next)
    {
      phase := next;
      if next == HalfOpen {
        halfOpenCalls, successCount := 0, 0;
      }
      if next == Closed {
        failureTimes, successCount, consecutiveFailures := [], 0, 0;
      }
    }

    method MaybeTransition(now: real)
      modifies this
      ensures Value() == TimedMove(cfg, old(Value()), now)
    {
      if phase == Open {
        var elapsed := now - openedAt;
        if elapsed >= cfg.recoveryTimeout {
          Transition(HalfOpen);
        }
      }
    }

    method BeginCall(now: real) returns (verdict: Verdict)
      modifies this
      ensures (Value(), verdict) == Admission(cfg, old(Value()), now)
    {
      MaybeTransition(now);
      if phase == Open {
        totalRejected := totalRejected + 1;
        return if cfg.hasFallback then UsedFallback else Refused;
      }
      if phase == HalfOpen {
        if halfOpenCalls >= cfg.halfOpenMaxCalls {
          totalRejected := totalRejected + 1;
          return Refused;
        }
        halfOpenCalls := halfOpenCalls + 1;
      }
      return Admitted;
    }

    method RecordSuccess()
      modifies this
      ensures Value() == Succeeded(cfg, old(Value()))
    {
      consecutiveFailures := 0;
      if phase == HalfOpen {
        successCount := successCount + 1;
        if successCount >= cfg.successThreshold {
          Transition(Closed);
        }
      }
    }

    method PruneOldFailures(now: real)
      modifies this`failureTimes
      ensures failureTimes == Recent(old(failureTimes), now - cfg.windowSeconds)
    {
      var kept: seq<real>, i := [], 0;
      while i < |failureTimes|
        invariant 0 <= i <= |failureTimes| && failureTimes == old(failureTimes)
        invariant kept + Recent(failureTimes[i..], now - cfg.windowSeconds)
               == Recent(failureTimes, now - cfg.windowSeconds)
      {
        if failureTimes[i] > now - cfg.windowSeconds {
          kept := kept + [failureTimes[i]];
        }
        i := i + 1;
      }
      failureTimes := kept;
    }

    method RecordFailure(now: real, excluded: bool)
      modifies this
      ensures Value() == if excluded then old(Value()) else Failed(cfg, old(Value()), now)
    {
      if excluded { return; }
      failureTimes := failureTimes + [now];
      PruneOldFailures(now);
      totalFailures := totalFailures + 1;
      consecutiveFailures := consecutiveFailures + 1;
      if phase == HalfOpen {
        openedAt := now;
        Transition(Open);
        return;
      }
      if phase == Closed {
        if consecutiveFailures >= cfg.failureThreshold {
          openedAt := now;
          Transition(Open);
        }
      }
    }

    method Reset()
      modifies this
      ensures Value() == MoveTo(old(Value()), Closed)
    {
      Transition(Closed);
    }

    method Trip(now: real)
      modifies this
      ensures Value() == Tripped(old(Value()), now)
    {
      openedAt := now;
      Transition(Open);
    }
  }

  // ---------- interleaved runs ----------

  /** One atomic step of the system. `tag` names the call being recorded: 0 when it was admitted while CLOSED, and
      otherwise the number of the HALF_OPEN episode that admitted it as a probe. */
  datatype Step =
    | Invoke(at: real)
    | Return(at: real, tag: nat)
    | Throw(at: real, tag: nat)
    | Vanish(at: real, tag: nat)
    | Observe(at: real)
    | Reset(at: real)
    | Trip(at: real)

  datatype World = World(f: Fields, now: real, inFlight: multiset<nat>, episode: nat)

  const START: World := World(FRESH, 0.0, multiset{}, 0)

  predicate Manual(s: Step) { s.Reset? || s.Trip? }

  predicate Enabled(cfg: Config, w: World, s: Step) {
    && s.at >= w.now
    && (s.Return? || s.Throw? || s.Vanish? ==> s.tag in w.inFlight)
    && (s.Vanish? ==> cfg.lossy)
  }

  function Effect(cfg: Config, f: Fields, s: Step): Fields {
    match s
    case Invoke(at) => Admission(cfg, f, at).0
    case Return(_, _) => Succeeded(cfg, f)
    case Throw(at, _) => Failed(cfg, f, at)
    case Vanish(_, _) => f
    case Observe(at) => TimedMove(cfg, f, at)
    case Reset(_) => MoveTo(f, Closed)
    case Trip(at) => Tripped(f, at)
  }

  predicate Admits(cfg: Config, w: World, s: Step) {
    s.Invoke? && Admission(cfg, w.f, s.at).1.Admitted?
  }

  function Apply(cfg: Config, w: World, s: Step): World {
    var g := Effect(cfg, w.f, s);
    var episode := if g.phase.HalfOpen? && !w.f.phase.HalfOpen? then w.episode + 1 else w.episode;
    var inFlight :=
      if Admits(cfg, w, s) then w.inFlight + multiset{if g.phase.HalfOpen? then episode else 0}
      else if s.Return? || s.Throw? || s.Vanish? then w.inFlight - multiset{s.tag}
      else w.inFlight;
    World(g, s.at, inFlight, episode)
  }

  function ExecFrom(cfg: Config, w: World, steps: seq<Step>): World
    decreases |steps|
  {
    if steps == [] then w else ExecFrom(cfg, Apply(cfg, w, steps[0]), steps[1..])
  }

  predicate LegalFrom(cfg: Config, w: World, steps: seq<Step>)
    decreases |steps|
  {
    steps == [] || (Enabled(cfg, w, steps[0]) && LegalFrom(cfg, Apply(cfg, w, steps[0]), steps[1..]))
  }

  function Exec(cfg: Config, steps: seq<Step>): World { ExecFrom(cfg, START, steps) }

  predicate Legal(cfg: Config, steps: seq<Step>) { LegalFrom(cfg, START, steps) }

  lemma {:induction false} Append(cfg: Config, w: World, a: seq<Step>, b: seq<Step>)
    ensures ExecFrom(cfg, w, a + b) == ExecFrom(cfg, ExecFrom(cfg, w, a), b)
    ensures LegalFrom(cfg, w, a + b) <==> LegalFrom(cfg, w, a) && LegalFrom(cfg, ExecFrom(cfg, w, a), b)
    decreases |a|
  {
    if a == [] {
      assert a + b == b;
    } else {
      assert (a + b)[1..] == a[1..] + b;
      Append(cfg, Apply(cfg, w, a[0]), a[1..], b);
    }
  }

  // ---------- safety ----------

  ghost predicate Sound(cfg: Config, f: Fields) {
    && 0 <= f.consecutiveFailures
    && (f.phase.Closed? ==> f.consecutiveFailures == 0 || f.consecutiveFailures < cfg.failureThreshold)
    && (f.phase.HalfOpen? ==>
          && 0 <= f.successCount && (f.successCount == 0 || f.successCount < cfg.successThreshold)
          && 0 <= f.halfOpenCalls && (f.halfOpenCalls == 0 || f.halfOpenCalls <= cfg.halfOpenMaxCalls))
  }

  /** No probe of the current episode is lost: it is in flight, or it came back as a success. */
  ghost predicate NoProbeLost(cfg: Config, w: World) {
    w.f.phase.HalfOpen? ==>
      0 < w.episode && (cfg.lossy || w.f.halfOpenCalls <= w.f.successCount + w.inFlight[w.episode])
  }

  ghost predicate Inv(cfg: Config, w: World) {
    Sound(cfg, w.f) && NoProbeLost(cfg, w)
  }

  lemma SoundStep(cfg: Config, f: Fields, s: Step)
    requires Sound(cfg, f)
    ensures Sound(cfg, Effect(cfg, f, s))
  {
  }

  /** What a step does to the HALF_OPEN counters. */
  lemma Counters(cfg: Config, f: Fields, s: Step)
    ensures var g := Effect(cfg, f, s);
            var admitted := if s.Invoke? && Admission(cfg, f, s.at).1.Admitted? then 1 else 0;
            g.phase.HalfOpen? ==>
              if f.phase.HalfOpen? then
                && g.halfOpenCalls == f.halfOpenCalls + admitted
                && g.successCount == f.successCount + (if s.Return? then 1 else 0)
                && !s.Throw?
              else
                (s.Invoke? || s.Observe?) && g.halfOpenCalls == admitted && g.successCount == 0
  {
    match s
    case Invoke(_) =>
    case Throw(_, _) =>
    case _ =>
  }

  lemma NoProbeLostStep(cfg: Config, w: World, s: Step)
    requires Inv(cfg, w) && Enabled(cfg, w, s)
    ensures NoProbeLost(cfg, Apply(cfg, w, s))
  {
    Counters(cfg, w.f, s);
    hide Effect, Admission, Sound;
  }

  lemma InvStep(cfg: Config, w: World, s: Step)
    requires Inv(cfg, w) && Enabled(cfg, w, s)
    ensures Inv(cfg, Apply(cfg, w, s))
  {
    SoundStep(cfg, w.f, s);
    NoProbeLostStep(cfg, w, s);
  }

  lemma {:induction false} InvRun(cfg: Config, w: World, steps: seq<Step>)
    requires Inv(cfg, w) && LegalFrom(cfg, w, steps)
    ensures Inv(cfg, ExecFrom(cfg, w, steps))
    decreases |steps|
  {
    if steps != [] {
      InvStep(cfg, w, steps[0]);
      InvRun(cfg, Apply(cfg, w, steps[0]), steps[1..]);
    }
  }

  /** CLOSED always means fewer consecutive failures than the threshold, exactly when the threshold is positive. */
  lemma ClosedBelowThreshold(cfg: Config)
    ensures (forall steps | Legal(cfg, steps) ::
               Exec(cfg, steps).f.phase.Closed? ==> Exec(cfg, steps).f.consecutiveFailures < cfg.failureThreshold)
       <==> cfg.failureThreshold >= 1
  {
    assert Legal(cfg, []) && Exec(cfg, []) == START;
    forall steps | Legal(cfg, steps) ensures Inv(cfg, Exec(cfg, steps)) {
      InvRun(cfg, START, steps);
    }
  }

  /** A HALF_OPEN breaker has not yet collected enough successes, exactly when the success threshold is positive. */
  lemma HalfOpenBelowSuccessThreshold(cfg: Config)
    ensures (forall steps | Legal(cfg, steps) ::
               Exec(cfg, steps).f.phase.HalfOpen? ==> Exec(cfg, steps).f.successCount < cfg.successThreshold)
       <==> cfg.successThreshold >= 1
  {
    var probe := ProbePhase(cfg);
    forall steps | Legal(cfg, steps) ensures Inv(cfg, Exec(cfg, steps)) {
      InvRun(cfg, START, steps);
    }
  }

  /** Tripping the breaker and waiting long enough puts every configuration into a fresh HALF_OPEN episode. */
  lemma ProbePhase(cfg: Config) returns (steps: seq<Step>)
    ensures Legal(cfg, steps)
    ensures Exec(cfg, steps).f.phase.HalfOpen? && Exec(cfg, steps).inFlight == multiset{}
    ensures Exec(cfg, steps).f.halfOpenCalls == 0 == Exec(cfg, steps).f.successCount
    ensures Exec(cfg, steps).episode == 1
  {
    var wait := if cfg.recoveryTimeout > 0.0 then cfg.recoveryTimeout else 0.0;
    var w1 := Apply(cfg, START, Trip(0.0));
    var w2 := Apply(cfg, w1, Observe(wait));
    steps := [Trip(0.0), Observe(wait)];
    assert steps[1..] == [Observe(wait)] && steps[1..][1..] == [];
    assert ExecFrom(cfg, w1, steps[1..]) == ExecFrom(cfg, w2, []) == w2;
    assert LegalFrom(cfg, w1, steps[1..]);
  }

  /** The admissions a run makes in HALF_OPEN episode `e` (`e` = 0: while CLOSED). */
  function AdmittedIn(cfg: Config, w: World, steps: seq<Step>, e: nat): nat
    decreases |steps|
  {
    if steps == [] then 0
    else
      var v := Apply(cfg, w, steps[0]);
      (if Admits(cfg, w, steps[0]) && e == (if v.f.phase.HalfOpen? then v.episode else 0) then 1 else 0)
      + AdmittedIn(cfg, v, steps[1..], e)
  }

  lemma {:induction false} EpisodeQuotaFrom(cfg: Config, w: World, steps: seq<Step>, e: nat)
    requires Inv(cfg, w) && LegalFrom(cfg, w, steps) && 0 < e
    ensures w.episode < e || (w.f.phase.HalfOpen? && w.episode == e) ==>
              AdmittedIn(cfg, w, steps, e) + (if w.episode == e then w.f.halfOpenCalls else 0)
                <= if cfg.halfOpenMaxCalls > 0 then cfg.halfOpenMaxCalls else 0
    ensures w.episode > e || (!w.f.phase.HalfOpen? && w.episode == e) ==> AdmittedIn(cfg, w, steps, e) == 0
    decreases |steps|
  {
    if steps != [] {
      InvStep(cfg, w, steps[0]);
      Counters(cfg, w.f, steps[0]);
      hide Effect, Admission, Enabled;
      EpisodeQuotaFrom(cfg, Apply(cfg, w, steps[0]), steps[1..], e);
    }
  }

  /** However calls interleave, one HALF_OPEN episode admits at most `half_open_max_calls` probes. */
  lemma EpisodeQuota(cfg: Config, steps: seq<Step>, e: nat)
    requires Legal(cfg, steps) && 0 < e
    ensures AdmittedIn(cfg, START, steps, e) <= if cfg.halfOpenMaxCalls > 0 then cfg.halfOpenMaxCalls else 0
  {
    EpisodeQuotaFrom(cfg, START, steps, e);
  }

  /** When the breaker was last opened, read off the run alone: by a trip, or by a failure that left it OPEN
      from another phase. */
  function LastOpening(cfg: Config, w: World, steps: seq<Step>, last: real): real
    decreases |steps|
  {
    if steps == [] then last
    else
      var v := Apply(cfg, w, steps[0]);
      var opens := steps[0].Trip? || (v.f.phase.Open? && !w.f.phase.Open?);
      LastOpening(cfg, v, steps[1..], if opens then steps[0].at else last)
  }

  lemma OpenedAtStep(cfg: Config, f: Fields, s: Step)
    requires Effect(cfg, f, s).phase.Open?
    ensures Effect(cfg, f, s).openedAt == if s.Trip? || !f.phase.Open? then s.at else f.openedAt
  {
    match s
    case Throw(_, _) =>
    case Invoke(_) =>
    case _ =>
  }

  lemma {:induction false} OpenedAtIsLastOpening(cfg: Config, w: World, steps: seq<Step>, last: real)
    requires w.f.phase.Open? ==> w.f.openedAt == last
    ensures ExecFrom(cfg, w, steps).f.phase.Open? ==>
              ExecFrom(cfg, w, steps).f.openedAt == LastOpening(cfg, w, steps, last)
    decreases |steps|
  {
    if steps != [] {
      var v := Apply(cfg, w, steps[0]);
      var opens := steps[0].Trip? || (v.f.phase.Open? && !w.f.phase.Open?);
      if v.f.phase.Open? {
        OpenedAtStep(cfg, w.f, steps[0]);
      }
      OpenedAtIsLastOpening(cfg, v, steps[1..], if opens then steps[0].at else last);
    }
  }

  lemma OpenEffect(cfg: Config, f: Fields, s: Step)
    requires f.phase.Open?
    ensures s.at - f.openedAt < cfg.recoveryTimeout ==>
              && !(s.Invoke? && Admission(cfg, f, s.at).1.Admitted?)
              && (Effect(cfg, f, s).phase.Open? <==> !s.Reset?)
    ensures s.at - f.openedAt >= cfg.recoveryTimeout && (s.Invoke? || s.Observe?) ==>
              Effect(cfg, f, s).phase.HalfOpen?
  {
    match s
    case Invoke(_) =>
    case Throw(_, _) =>
    case _ =>
  }

  /** An OPEN breaker keeps every call out until `recovery_timeout` has passed since its latest opening; before that
      only a reset can end OPEN, and from then on the next look at the breaker starts a probe episode. */
  lemma OpenHoldsForTimeout(cfg: Config, steps: seq<Step>, s: Step)
    requires Legal(cfg, steps + [s]) && Exec(cfg, steps).f.phase.Open?
    ensures s.at - LastOpening(cfg, START, steps, 0.0) < cfg.recoveryTimeout ==>
              && !Admits(cfg, Exec(cfg, steps), s)
              && (Exec(cfg, steps + [s]).f.phase.Open? <==> !s.Reset?)
    ensures s.at - LastOpening(cfg, START, steps, 0.0) >= cfg.recoveryTimeout && (s.Invoke? || s.Observe?) ==>
              Exec(cfg, steps + [s]).f.phase.HalfOpen?
  {
    OpenedAtIsLastOpening(cfg, START, steps, 0.0);
    var w := Exec(cfg, steps);
    OpenEffect(cfg, w.f, s);
    hide Effect, Admission, LegalFrom, LastOpening;
    Append(cfg, START, steps, [s]);
    assert ExecFrom(cfg, w, [s]) == Apply(cfg, w, s);
  }

  // ---------- the wedge ----------

  /** HALF_OPEN, the probe quota spent, and nothing in flight that could still report back. */
  predicate Wedged(cfg: Config, w: World) {
    w.f.phase.HalfOpen? && w.f.halfOpenCalls >= cfg.halfOpenMaxCalls && w.inFlight == multiset{}
  }

  predicate Unattended(steps: seq<Step>) {
    forall i :: 0 <= i < |steps| ==> !Manual(steps[i])
  }

  /** A wedged breaker stays wedged, and refuses every call, for as long as nobody calls `reset` or `trip`. */
  lemma {:induction false} WedgedForever(cfg: Config, w: World, steps: seq<Step>)
    requires Wedged(cfg, w) && LegalFrom(cfg, w, steps) && Unattended(steps)
    ensures Wedged(cfg, ExecFrom(cfg, w, steps))
    ensures forall e: nat :: AdmittedIn(cfg, w, steps, e) == 0
    decreases |steps|
  {
    if steps != [] {
      assert !Manual(steps[0]);
      WedgedForever(cfg, Apply(cfg, w, steps[0]), steps[1..]);
    }
  }

  /** The configurations that cannot wedge. */
  predicate ProbesSuffice(cfg: Config) {
    !cfg.lossy && 1 <= cfg.halfOpenMaxCalls && cfg.successThreshold <= cfg.halfOpenMaxCalls
  }

  /** Under such a configuration a reachable HALF_OPEN breaker still admits a call, or waits for one of its own
      probes. */
  lemma NoWedge(cfg: Config, steps: seq<Step>)
    requires ProbesSuffice(cfg) && Legal(cfg, steps) && Exec(cfg, steps).f.phase.HalfOpen?
    ensures Exec(cfg, steps).f.halfOpenCalls < cfg.halfOpenMaxCalls
         || Exec(cfg, steps).episode in Exec(cfg, steps).inFlight
  {
    InvRun(cfg, START, steps);
  }

  /** Spend `k` probes of an idle HALF_OPEN breaker, each ending as `outcome` says without closing the episode. */
  lemma {:induction false} SpendProbes(cfg: Config, w: World, k: nat, lost: bool) returns (steps: seq<Step>)
    requires w.f.phase.HalfOpen? && w.inFlight == multiset{}
    requires w.f.halfOpenCalls + k <= cfg.halfOpenMaxCalls
    requires if lost then cfg.lossy else w.f.successCount + k < cfg.successThreshold
    ensures LegalFrom(cfg, w, steps)
    ensures ExecFrom(cfg, w, steps).f.phase.HalfOpen? && ExecFrom(cfg, w, steps).inFlight == multiset{}
    ensures ExecFrom(cfg, w, steps).f.halfOpenCalls == w.f.halfOpenCalls + k
    decreases k
  {
    steps := [];
    if k > 0 {
      var s1 := Invoke(w.now);
      var w1 := Apply(cfg, w, s1);
      assert w1.inFlight == multiset{w.episode};
      var s2 := if lost then Vanish(w.now, w.episode) else Return(w.now, w.episode);
      var w2 := Apply(cfg, w1, s2);
      assert w2.inFlight == multiset{};
      var rest := SpendProbes(cfg, w2, k - 1, lost);
      steps := [s1, s2] + rest;
      assert steps[1..] == [s2] + rest && steps[1..][1..] == rest;
      assert LegalFrom(cfg, w1, steps[1..]) && ExecFrom(cfg, w1, steps[1..]) == ExecFrom(cfg, w2, rest);
    }
  }

  lemma WedgeRun(cfg: Config) returns (steps: seq<Step>)
    requires !ProbesSuffice(cfg)
    ensures Legal(cfg, steps) && Wedged(cfg, Exec(cfg, steps))
  {
    var start := ProbePhase(cfg);
    if cfg.halfOpenMaxCalls < 1 {
      steps := start;
    } else {
      var rest := SpendProbes(cfg, Exec(cfg, start), cfg.halfOpenMaxCalls, cfg.lossy);
      steps := start + rest;
      Append(cfg, START, start, rest);
    }
  }

  // ---------- recovery ----------

  ghost predicate CanClose(cfg: Config, w: World) {
    exists rest :: LegalFrom(cfg, w, rest) && Unattended(rest) && ExecFrom(cfg, w, rest).f.phase.Closed?
  }

  lemma ClosedAlready(cfg: Config, w: World)
    requires w.f.phase.Closed?
    ensures CanClose(cfg, w)
  {
    assert LegalFrom(cfg, w, []) && ExecFrom(cfg, w, []).f.phase.Closed? && Unattended([]);
  }

  lemma CloseAfter(cfg: Config, w: World, s: Step)
    requires Enabled(cfg, w, s) && !Manual(s) && CanClose(cfg, Apply(cfg, w, s))
    ensures CanClose(cfg, w)
  {
    hide Apply, Enabled;
    var v := Apply(cfg, w, s);
    var rest :| LegalFrom(cfg, v, rest) && Unattended(rest) && ExecFrom(cfg, v, rest).f.phase.Closed?;
    var all := [s] + rest;
    assert all[1..] == rest;
    assert LegalFrom(cfg, w, all) && ExecFrom(cfg, w, all).f.phase.Closed?;
    assert Unattended(all);
  }

  lemma {:induction false} HalfOpenCloses(cfg: Config, w: World)
    requires ProbesSuffice(cfg) && Inv(cfg, w) && w.f.phase.HalfOpen?
    ensures CanClose(cfg, w)
    decreases cfg.successThreshold - w.f.successCount, if w.inFlight == multiset{} then 1 else 0
  {
    hide CanClose, LegalFrom, ExecFrom, Failed, Recent;
    if w.inFlight == multiset{} {
      var s := Invoke(w.now);
      InvStep(cfg, w, s);
      HalfOpenCloses(cfg, Apply(cfg, w, s));
      CloseAfter(cfg, w, s);
    } else {
      var tag: nat :| tag in w.inFlight;
      var s := Return(w.now, tag);
      var v := Apply(cfg, w, s);
      InvStep(cfg, w, s);
      if v.f.phase.HalfOpen? {
        HalfOpenCloses(cfg, v);
      } else {
        ClosedAlready(cfg, v);
      }
      CloseAfter(cfg, w, s);
    }
  }

  lemma Closes(cfg: Config, w: World)
    requires ProbesSuffice(cfg) && Inv(cfg, w)
    ensures CanClose(cfg, w)
  {
    match w.f.phase
    case Closed =>
      ClosedAlready(cfg, w);
    case HalfOpen =>
      HalfOpenCloses(cfg, w);
    case Open =>
      var due := w.f.openedAt + cfg.recoveryTimeout;
      var s := Observe(if due > w.now then due else w.now);
      InvStep(cfg, w, s);
      HalfOpenCloses(cfg, Apply(cfg, w, s));
      CloseAfter(cfg, w, s);
  }

  /** The breaker heals by itself from every reachable state exactly when every call is recorded at its end, at least
      one probe is allowed, and as many probes are allowed as successes are required. */
  lemma RecoveryTheorem(cfg: Config)
    ensures (forall steps | Legal(cfg, steps) :: CanClose(cfg, Exec(cfg, steps))) <==> ProbesSuffice(cfg)
  {
    if ProbesSuffice(cfg) {
      forall steps | Legal(cfg, steps) ensures CanClose(cfg, Exec(cfg, steps)) {
        InvRun(cfg, START, steps);
        Closes(cfg, Exec(cfg, steps));
      }
    } else {
      var steps := WedgeRun(cfg);
      var w := Exec(cfg, steps);
      forall rest | LegalFrom(cfg, w, rest) && Unattended(rest) ensures !ExecFrom(cfg, w, rest).f.phase.Closed? {
        WedgedForever(cfg, w, rest);
      }
    }
  }

  ghost predicate SameButTimes(f: Fields, g: Fields) {
    g == f.(failureTimes := g.failureTimes)
  }

  lemma SameEffect(cfg: Config, window: real, f: Fields, g: Fields, s: Step)
    requires SameButTimes(f, g)
    ensures SameButTimes(Effect(cfg, f, s), Effect(cfg.(windowSeconds := window), g, s))
    ensures s.Invoke? ==> Admission(cfg, f, s.at).1 == Admission(cfg.(windowSeconds := window), g, s.at).1
  {
    match s
    case Throw(_, _) =>
    case Invoke(_) =>
    case _ =>
  }

  /** The rolling window never decides anything: runs under two window lengths agree in all but `failureTimes`. */
  lemma {:induction false} WindowIsIrrelevant(cfg: Config, window: real, w: World, v: World, steps: seq<Step>)
    requires SameButTimes(w.f, v.f) && v == w.(f := v.f)
    ensures var x, y := ExecFrom(cfg, w, steps), ExecFrom(cfg.(windowSeconds := window), v, steps);
            SameButTimes(x.f, y.f) && y == x.(f := y.f)
    ensures LegalFrom(cfg, w, steps) <==> LegalFrom(cfg.(windowSeconds := window), v, steps)
    decreases |steps|
  {
    if steps != [] {
      var other := cfg.(windowSeconds := window);
      SameEffect(cfg, window, w.f, v.f, steps[0]);
      WindowIsIrrelevant(cfg, window, Apply(cfg, w, steps[0]), Apply(other, v, steps[0]), steps[1..]);
    }
  }
}
