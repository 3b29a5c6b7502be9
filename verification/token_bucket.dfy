/** The token buckets of infrastructure/backpressure.py, infrastructure/rate_limiter.py and
    exchanges/base_connector.py. All three refill and spend by the same arithmetic; the first also changes its rate. */
module TokenBuckets {
  import opened Arithmetic

  /** Limits of a bucket. A bucket of fixed rate has `minRate == maxRate`. */
  datatype Config = Config(maxRate: real, minRate: real, capacity: real)

  datatype Bucket = Bucket(tokens: real, last: real, rate: real)

  function Fresh(cfg: Config, now: real): Bucket { Bucket(cfg.capacity, now, cfg.maxRate) }

  function Refilled(cfg: Config, b: Bucket, now: real): Bucket {
    b.(tokens := Min(cfg.capacity, b.tokens + Times(now - b.last, b.rate)), last := now)
  }

  function Acquired(cfg: Config, b: Bucket, now: real, n: real): (Bucket, bool) {
    var r := Refilled(cfg, b, now);
    if r.tokens >= n then (r.(tokens := r.tokens - n), true) else (r, false)
  }

  function RateUnder(cfg: Config, pressure: real): real {
    cfg.maxRate - Times(cfg.maxRate - cfg.minRate, Max(0.0, Min(1.0, pressure)))
  }

  datatype Wait = Seconds(seconds: real) | ZeroDivision

  /** The time until `n` tokens will be there; a bucket without a floor divides by its bare rate, which may be zero. */
  function WaitTime(b: Bucket, n: real, floor: real): Wait {
    if b.tokens >= n then Seconds(0.0)
    else if Max(b.rate, floor) == 0.0 then ZeroDivision
    else Seconds((n - b.tokens) / Max(b.rate, floor))
  }

  datatype Verdict = Served | Asleep | Raised

  /** A bucket after a waiting acquire has looked at it `tries` times. */
  datatype Awaited = Awaited(bucket: Bucket, tries: nat, verdict: Verdict)

  /** The loop of a waiting acquire, one try for every time it reads the clock. */
  function Await(cfg: Config, b: Bucket, clock: seq<real>, n: real): Awaited
    decreases |clock|
  {
    if clock == [] then Awaited(b, 0, Asleep)
    else
      var (r, ok) := Acquired(cfg, b, clock[0], n);
      if ok then Awaited(r, 1, Served)
      else if WaitTime(r, n, 0.0).ZeroDivision? then Awaited(r, 1, Raised)
      else
        var w := Await(cfg, r, clock[1..], n);
        w.(tries := w.tries + 1)
  }

  /** `AdaptiveRateLimiter`, and with equal rates `TokenBucket` and `TokenBucketRateLimiter`. */
  class RateLimiter {
    const cfg: Config
    var tokens: real
    var last: real
    var rate: real

    function Value(): Bucket
      reads this
    {
      Bucket(tokens, last, rate)
    }

    constructor (cfg: Config, now: real)
      ensures Value() == Fresh(cfg, now) && this.cfg == cfg
    {
      this.cfg := cfg;
      tokens, last, rate := cfg.capacity, now, cfg.maxRate;
    }

    method Acquire(now: real, n: real) returns (granted: bool)
      modifies this
      ensures (Value(), granted) == Acquired(cfg, old(Value()), now, n)
    {
      hide Times;
      var elapsed := now - last;
      tokens := Min(cfg.capacity, tokens + Times(elapsed, rate));
      last := now;
      if tokens >= n {
        tokens := tokens - n;
        return true;
      }
      return false;
    }

    method WaitFor(n: real, floor: real) returns (wait: Wait)
      ensures wait == WaitTime(Value(), n, floor)
    {
      if tokens >= n {
        return Seconds(0.0);
      }
      var divisor := Max(rate, floor);
      if divisor == 0.0 {
        return ZeroDivision;
      }
      return Seconds((n - tokens) / divisor);
    }

    /** The acquire of `TokenBucketRateLimiter`, which sleeps and tries again; `clock` has the readings it gets. */
    method AcquireWaiting(clock: seq<real>, n: real) returns (tries: nat, verdict: Verdict)
      modifies this
      ensures Awaited(Value(), tries, verdict) == Await(cfg, old(Value()), clock, n)
    {
      hide Acquired;
      tries := 0;
      while tries < |clock|
        invariant tries <= |clock|
        invariant var w := Await(cfg, Value(), clock[tries..], n);
                  w.(tries := w.tries + tries) == Await(cfg, old(Value()), clock, n)
      {
        var granted := Acquire(clock[tries], n);
        tries := tries + 1;
        if granted {
          return tries, Served;
        }
        var wait := WaitFor(n, 0.0);
        if wait.ZeroDivision? {
          return tries, Raised;
        }
      }
      return tries, Asleep;
    }

    method AdjustForPressure(pressure: real)
      modifies this`rate
      ensures Value() == old(Value()).(rate := RateUnder(cfg, pressure))
    {
      hide Times;
      var p := Max(0.0, Min(1.0, pressure));
      rate := cfg.maxRate - Times(cfg.maxRate - cfg.minRate, p);
    }
  }

  // ---------- runs ----------

  datatype Step = Acquire(at: real, n: real) | Adjust(pressure: real)

  function Apply(cfg: Config, b: Bucket, s: Step): Bucket {
    match s
    case Acquire(at, n) => Acquired(cfg, b, at, n).0
    case Adjust(pressure) => b.(rate := RateUnder(cfg, pressure))
  }

  function Exec(cfg: Config, b: Bucket, steps: seq<Step>): Bucket
    decreases |steps|
  {
    if steps == [] then b else Exec(cfg, Apply(cfg, b, steps[0]), steps[1..])
  }

  /** The clock does not go back, and nobody asks for a negative amount. */
  predicate Legal(b: Bucket, steps: seq<Step>)
    decreases |steps|
  {
    steps == [] ||
    match steps[0]
    case Acquire(at, n) => at >= b.last && n >= 0.0 && Legal(b.(last := at), steps[1..])
    case Adjust(_) => Legal(b, steps[1..])
  }

  /** The tokens granted along the way. */
  function Granted(cfg: Config, b: Bucket, steps: seq<Step>): real
    decreases |steps|
  {
    if steps == [] then 0.0
    else
      (if steps[0].Acquire? && Acquired(cfg, b, steps[0].at, steps[0].n).1 then steps[0].n else 0.0)
      + Granted(cfg, Apply(cfg, b, steps[0]), steps[1..])
  }

  predicate ConfigOk(cfg: Config) {
    0.0 <= cfg.minRate <= cfg.maxRate && 0.0 <= cfg.capacity
  }

  predicate Sound(cfg: Config, b: Bucket) {
    0.0 <= b.tokens <= cfg.capacity && cfg.minRate <= b.rate <= cfg.maxRate
  }

  /** Pressure moves the rate between its limits: none gives the highest, full pressure the lowest, and more pressure
      never a higher rate. */
  lemma RateBounds(cfg: Config, pressure: real, more: real)
    requires ConfigOk(cfg) && pressure <= more
    ensures cfg.minRate <= RateUnder(cfg, more) <= RateUnder(cfg, pressure) <= cfg.maxRate
    ensures pressure <= 0.0 ==> RateUnder(cfg, pressure) == cfg.maxRate
    ensures more >= 1.0 ==> RateUnder(cfg, more) == cfg.minRate
  {
    var d, p, q := cfg.maxRate - cfg.minRate, Max(0.0, Min(1.0, pressure)), Max(0.0, Min(1.0, more));
    TimesMono(d, 0.0, p);
    TimesMono(d, p, q);
    TimesMono(d, q, 1.0);
    assert Times(d, 1.0) == d;
    hide Times;
  }

  /** What an acquire grants and what it leaves is no more than was there and what time added. */
  lemma AcquireBudget(cfg: Config, b: Bucket, now: real, n: real)
    requires ConfigOk(cfg) && Sound(cfg, b) && now >= b.last && n >= 0.0
    ensures Sound(cfg, Acquired(cfg, b, now, n).0)
    ensures Acquired(cfg, b, now, n).0.tokens + (if Acquired(cfg, b, now, n).1 then n else 0.0)
         <= b.tokens + Times(now - b.last, cfg.maxRate)
  {
    TimesMono(now - b.last, b.rate, cfg.maxRate);
    TimesMono(now - b.last, 0.0, b.rate);
    hide Times;
  }

  lemma {:induction false} RunBudget(cfg: Config, b: Bucket, steps: seq<Step>)
    requires ConfigOk(cfg) && Sound(cfg, b) && Legal(b, steps)
    ensures Sound(cfg, Exec(cfg, b, steps)) && Exec(cfg, b, steps).last >= b.last
    ensures Granted(cfg, b, steps) + Exec(cfg, b, steps).tokens
         <= b.tokens + Times(Exec(cfg, b, steps).last - b.last, cfg.maxRate)
    decreases |steps|
  {
    hide Times, Acquired, RateUnder;
    TimesSplit(0.0, 0.0, cfg.maxRate);
    if steps != [] {
      var v := Apply(cfg, b, steps[0]);
      match steps[0] {
        case Acquire(at, n) =>
          AcquireBudget(cfg, b, at, n);
          AcquireClock(cfg, b, at, n);
          LegalClock(v, b.(last := at), steps[1..]);
          RunBudget(cfg, v, steps[1..]);
          TimesSplit(at - b.last, Exec(cfg, b, steps).last - at, cfg.maxRate);
        case Adjust(pressure) =>
          RateBounds(cfg, pressure, pressure);
          LegalClock(v, b, steps[1..]);
          RunBudget(cfg, v, steps[1..]);
      }
    }
  }

  lemma AcquireClock(cfg: Config, b: Bucket, now: real, n: real)
    ensures Acquired(cfg, b, now, n).0.last == now && Acquired(cfg, b, now, n).0.rate == b.rate
  {
  }

  /** Only the clock matters to legality. */
  lemma {:induction false} LegalClock(a: Bucket, b: Bucket, steps: seq<Step>)
    requires a.last == b.last
    ensures Legal(a, steps) == Legal(b, steps)
    decreases |steps|
  {
    if steps != [] {
      match steps[0]
      case Acquire(at, _) => LegalClock(a.(last := at), b.(last := at), steps[1..]);
      case Adjust(_) => LegalClock(a, b, steps[1..]);
    }
  }

  /** Every acquire of the steps falls between `s` and `t`. */
  predicate Inside(steps: seq<Step>, s: real, t: real) {
    forall i :: 0 <= i < |steps| && steps[i].Acquire? ==> s <= steps[i].at <= t
  }

  lemma RefillTwice(cfg: Config, b: Bucket, now: real, n: real)
    ensures Acquired(cfg, Refilled(cfg, b, now), now, n) == Acquired(cfg, b, now, n)
  {
    TimesSplit(0.0, 0.0, b.rate);
    hide Times;
  }

  lemma RefillSound(cfg: Config, b: Bucket, now: real)
    requires ConfigOk(cfg) && Sound(cfg, b) && now >= b.last
    ensures Sound(cfg, Refilled(cfg, b, now))
  {
    TimesMono(now - b.last, 0.0, b.rate);
    hide Times;
  }

  /** Steps taken from any state a run can reach grant, within a window of time, at most a full bucket and what the
      highest rate adds over the window, whatever the rate does in between. */
  lemma {:induction false} WindowFrom(cfg: Config, b: Bucket, steps: seq<Step>, s: real, t: real)
    requires ConfigOk(cfg) && Sound(cfg, b) && Legal(b, steps) && Inside(steps, s, t) && s <= t
    ensures Granted(cfg, b, steps) <= cfg.capacity + Times(t - s, cfg.maxRate)
    decreases |steps|
  {
    hide Times, Acquired, RateUnder, Refilled;
    TimesMono(cfg.maxRate, 0.0, t - s);
    if steps != [] {
      match steps[0] {
        case Acquire(at, n) =>
          // from here on the bucket holds at most its capacity
          var r := Refilled(cfg, b, at);
          RefillSound(cfg, b, at);
          RefillClock(cfg, b, at);
          RefillTwice(cfg, b, at, n);
          var rest := steps[1..];
          assert Legal(r.(last := at), rest) by { LegalClock(r.(last := at), b.(last := at), rest); }
          assert Granted(cfg, b, steps) == Granted(cfg, r, steps);
          RunBudget(cfg, r, steps);
          LastInside(cfg, r, steps, s, t);
          TimesMono(cfg.maxRate, Exec(cfg, r, steps).last - at, t - s);
        case Adjust(pressure) =>
          RateBounds(cfg, pressure, pressure);
          var v := Apply(cfg, b, steps[0]);
          LegalClock(v, b, steps[1..]);
          WindowFrom(cfg, v, steps[1..], s, t);
      }
    }
  }

  lemma RefillClock(cfg: Config, b: Bucket, now: real)
    ensures Refilled(cfg, b, now).last == now
  {
  }

  lemma {:induction false} LastInside(cfg: Config, b: Bucket, steps: seq<Step>, s: real, t: real)
    requires Inside(steps, s, t) && s <= b.last <= t
    ensures s <= Exec(cfg, b, steps).last <= t
    decreases |steps|
  {
    hide Acquired, RateUnder;
    if steps != [] {
      if steps[0].Acquire? {
        AcquireClock(cfg, b, steps[0].at, steps[0].n);
      }
      LastInside(cfg, Apply(cfg, b, steps[0]), steps[1..], s, t);
    }
  }

  /** Over every window of every run, however `adjust_for_pressure` interferes: the tokens granted are at most the
      capacity plus the highest rate times the length of the window. */
  lemma WindowBound(cfg: Config, start: real, before: seq<Step>, during: seq<Step>, s: real, t: real)
    requires ConfigOk(cfg) && Legal(Fresh(cfg, start), before + during) && Inside(during, s, t) && s <= t
    ensures Granted(cfg, Exec(cfg, Fresh(cfg, start), before), during) <= cfg.capacity + Times(t - s, cfg.maxRate)
  {
    hide Times, Legal, Exec, Granted, Inside;
    LegalSplit(cfg, Fresh(cfg, start), before, during);
    RunBudget(cfg, Fresh(cfg, start), before);
    WindowFrom(cfg, Exec(cfg, Fresh(cfg, start), before), during, s, t);
  }

  lemma {:induction false} LegalSplit(cfg: Config, b: Bucket, before: seq<Step>, during: seq<Step>)
    requires Legal(b, before + during)
    ensures Legal(b, before) && Legal(Exec(cfg, b, before), during)
    decreases |before|
  {
    hide Acquired, RateUnder;
    if before == [] {
      assert before + during == during;
    } else {
      assert (before + during)[1..] == before[1..] + during;
      var v := Apply(cfg, b, before[0]);
      match before[0] {
        case Acquire(at, n) =>
          AcquireClock(cfg, b, at, n);
          LegalClock(v, b.(last := at), before[1..] + during);
          LegalSplit(cfg, v, before[1..], during);
          LegalClock(v, b.(last := at), before[1..]);
        case Adjust(_) =>
          LegalClock(v, b, before[1..] + during);
          LegalSplit(cfg, v, before[1..], during);
          LegalClock(v, b, before[1..]);
      }
    }
  }

  // ---------- waiting ----------

  lemma Deficit(n: real, tokens: real, rate: real, floor: real)
    requires n > tokens && Max(rate, floor) > 0.0
    ensures Times((n - tokens) / Max(rate, floor), rate) >= n - tokens <==> rate >= floor
    ensures (n - tokens) / Max(rate, floor) > 0.0
  {
    var m := Max(rate, floor);
    var w := (n - tokens) / m;
    assert w * m == n - tokens;
    assert w > 0.0;
    if rate < floor {
      assert w * rate < w * m;
    }
  }

  /** Asking for the wait at `now` and trying again when it is over, with no other grant in between, succeeds. */
  predicate Retries(cfg: Config, b: Bucket, n: real, floor: real, now: real) {
    var wait := WaitTime(b, n, floor);
    wait.Seconds? && Acquired(cfg, b, now + wait.seconds, n).1
  }

  /** Waiting `wait_time` from any instant on and trying again, with no other grant in between, succeeds exactly when
      the request fits the bucket and either needed no waiting or the rate is positive and not below the floor that
      `wait_time` divides by. Without a floor it divides by zero exactly when it must wait on a bucket of no rate. */
  lemma WaitingWorksIff(cfg: Config, b: Bucket, n: real, floor: real)
    requires ConfigOk(cfg) && Sound(cfg, b) && 0.0 <= floor
    ensures WaitTime(b, n, floor).ZeroDivision? <==> b.tokens < n && b.rate == 0.0 == floor
    ensures (forall now :: now >= b.last ==> Retries(cfg, b, n, floor, now))
       <==> n <= cfg.capacity && (b.tokens >= n || (b.rate > 0.0 && b.rate >= floor))
  {
    var served := n <= cfg.capacity && (b.tokens >= n || (b.rate > 0.0 && b.rate >= floor));
    RetryFrom(cfg, b, b.last, n, floor);
    forall now | now >= b.last
      ensures served ==> Retries(cfg, b, n, floor, now)
    {
      RetryFrom(cfg, b, now, n, floor);
    }
    assert Retries(cfg, b, n, floor, b.last) ==> served;
    hide Retries, Acquired;
  }

  lemma RetryFrom(cfg: Config, b: Bucket, now: real, n: real, floor: real)
    requires ConfigOk(cfg) && Sound(cfg, b) && 0.0 <= floor && now >= b.last
    ensures n <= cfg.capacity && (b.tokens >= n || (b.rate > 0.0 && b.rate >= floor)) ==> Retries(cfg, b, n, floor, now)
    ensures now == b.last && Retries(cfg, b, n, floor, now) ==>
              n <= cfg.capacity && (b.tokens >= n || (b.rate > 0.0 && b.rate >= floor))
  {
    if WaitTime(b, n, floor).Seconds? {
      var w := WaitTime(b, n, floor).seconds;
      if b.tokens < n {
        Deficit(n, b.tokens, b.rate, floor);
      }
      TimesSplit(now - b.last, w, b.rate);
      TimesMono(b.rate, 0.0, now - b.last);
      hide Times;
      assert now + w - b.last == (now - b.last) + w;
    }
  }

  /** No reading of the clock comes before the sleep asked for by the reading before it is over, nor before `from`. */
  predicate Slept(cfg: Config, b: Bucket, clock: seq<real>, n: real, from: real)
    decreases |clock|
  {
    clock == [] ||
    var r := Refilled(cfg, b, clock[0]);
    var wait := WaitTime(r, n, 0.0);
    clock[0] >= from && Slept(cfg, r, clock[1..], n, clock[0] + if wait.Seconds? then wait.seconds else 0.0)
  }

  /** A waiting acquire that nobody interferes with: whatever fits the bucket is granted at once or after one sleep,
      a bucket of no rate raises when it should wait, and a request above the capacity tries for ever. */
  lemma AwaitTheorem(cfg: Config, b: Bucket, clock: seq<real>, n: real)
    requires ConfigOk(cfg) && Sound(cfg, b) && |clock| >= 2 && Slept(cfg, b, clock, n, b.last)
    ensures var w := Await(cfg, b, clock, n);
            var atOnce := Refilled(cfg, b, clock[0]).tokens >= n;
            && (w.verdict.Served? <==> n <= cfg.capacity && (atOnce || b.rate > 0.0))
            && (w.verdict.Raised? <==> !atOnce && b.rate == 0.0)
            && (w.verdict.Served? ==> w.tries == if atOnce then 1 else 2)
            && (w.verdict.Raised? ==> w.tries == 1)
            && (w.verdict.Asleep? ==> w.tries == |clock|)
  {
    hide Times;
    var r := Refilled(cfg, b, clock[0]);
    RefillSound(cfg, b, clock[0]);
    if r.tokens < n && r.rate > 0.0 {
      var rest := clock[1..];
      var now := rest[0] - WaitTime(r, n, 0.0).seconds;
      if n <= cfg.capacity {
        RetryFrom(cfg, r, now, n, 0.0);
        assert Await(cfg, r, rest, n).verdict.Served? by { assert now + WaitTime(r, n, 0.0).seconds == rest[0]; }
      } else {
        TriesForEver(cfg, r, rest, n);
      }
    }
  }

  lemma {:induction false} TriesForEver(cfg: Config, b: Bucket, clock: seq<real>, n: real)
    requires n > cfg.capacity && b.rate > 0.0
    ensures Await(cfg, b, clock, n).verdict.Asleep? && Await(cfg, b, clock, n).tries == |clock|
    decreases |clock|
  {
    hide Times;
    if clock != [] {
      TriesForEver(cfg, Acquired(cfg, b, clock[0], n).0, clock[1..], n);
    }
  }

  // ---------- waiting in company ----------

  /** From a bucket that has just refused `n` tokens: whenever the waiting acquire has slept as long as it must and
      wakes, somebody else has just been granted `m`, and it is refused again. */
  predicate Starved(cfg: Config, b: Bucket, n: real, m: real, steps: seq<Step>)
    decreases |steps|
  {
    steps == [] ||
    (|steps| >= 2 && steps[1].Acquire? &&
     var t, wait := steps[1].at, WaitTime(b, n, 0.0);
     var c := Acquired(cfg, b, t, m).0;
     && steps[0] == Acquire(t, m) && steps[1] == Acquire(t, n)
     && b.tokens < n && wait.Seconds? && t >= b.last + wait.seconds
     && Acquired(cfg, b, t, m).1 && !Acquired(cfg, c, t, n).1
     && Starved(cfg, Acquired(cfg, c, t, n).0, n, m, steps[2..]))
  }

  /** One round: the bucket fills up to `n` while the other sleeps, and `m` are gone when it wakes. */
  lemma Overtaken(cfg: Config, b: Bucket, n: real, m: real) returns (t: real, c: Bucket)
    requires b.tokens < n <= cfg.capacity && 0.0 < m <= n && 0.0 < b.rate
    ensures t >= b.last && WaitTime(b, n, 0.0) == Seconds(t - b.last)
    ensures Acquired(cfg, b, t, m) == (c, true) && Acquired(cfg, c, t, n) == (c, false)
    ensures c == Bucket(n - m, t, b.rate)
  {
    Deficit(n, b.tokens, b.rate, 0.0);
    var w := (n - b.tokens) / b.rate;
    assert w * b.rate == n - b.tokens;
    assert Times(w, b.rate) == n - b.tokens;
    t := b.last + w;
    c := Bucket(n - m, t, b.rate);
    TimesSplit(0.0, 0.0, b.rate);
    hide Times;
    assert t - b.last == w && t - t == 0.0;
  }

  /** In a bucket that others use, a request can be kept waiting through any number of tries by requests of any smaller
      size, although it would fit. */
  lemma {:induction false} Starvation(cfg: Config, b: Bucket, n: real, m: real, tries: nat) returns (steps: seq<Step>)
    requires b.tokens < n <= cfg.capacity && 0.0 < m <= n && 0.0 < b.rate
    ensures |steps| == 2 * tries && Legal(b, steps) && Starved(cfg, b, n, m, steps)
    decreases tries
  {
    hide Acquired, WaitTime;
    steps := [];
    if tries > 0 {
      var t, c := Overtaken(cfg, b, n, m);
      var rest := Starvation(cfg, c, n, m, tries - 1);
      steps := [Acquire(t, m)] + ([Acquire(t, n)] + rest);
      assert steps[1..] == [Acquire(t, n)] + rest && steps[1..][1..] == rest == steps[2..];
      LegalClock(c, b.(last := t), rest);
    }
  }

  // ---------- the rate and the wait ----------

  /** The pressure that was reported last. */
  function LastPressure(steps: seq<Step>, before: real): real
    decreases |steps|
  {
    if steps == [] then before
    else LastPressure(steps[1..], if steps[0].Adjust? then steps[0].pressure else before)
  }

  /** The rate divides the range between its limits as the pressure does that between none and full. */
  predicate Divides(cfg: Config, rate: real, pressure: real) {
    var p := if pressure < 0.0 then 0.0 else if pressure > 1.0 then 1.0 else pressure;
    rate == Times(1.0 - p, cfg.maxRate) + Times(p, cfg.minRate)
  }

  lemma RateDivides(cfg: Config, pressure: real)
    ensures Divides(cfg, RateUnder(cfg, pressure), pressure)
  {
  }

  /** A bucket begins full and at its highest rate, and its rate is always the one of the pressure reported last. */
  lemma RateTheorem(cfg: Config, start: real, steps: seq<Step>)
    ensures Fresh(cfg, start).tokens == cfg.capacity && Fresh(cfg, start).last == start
    ensures Divides(cfg, Exec(cfg, Fresh(cfg, start), steps).rate, LastPressure(steps, 0.0))
  {
    RateRun(cfg, Fresh(cfg, start), steps, 0.0);
  }

  lemma {:induction false} RateRun(cfg: Config, b: Bucket, steps: seq<Step>, pressure: real)
    requires Divides(cfg, b.rate, pressure)
    ensures Divides(cfg, Exec(cfg, b, steps).rate, LastPressure(steps, pressure))
    decreases |steps|
  {
    hide Divides, Acquired, RateUnder;
    if steps != [] {
      match steps[0] {
        case Acquire(at, n) =>
          AcquireClock(cfg, b, at, n);
          RateRun(cfg, Apply(cfg, b, steps[0]), steps[1..], pressure);
        case Adjust(p) =>
          RateDivides(cfg, p);
          RateRun(cfg, Apply(cfg, b, steps[0]), steps[1..], p);
      }
    }
  }

  /** The wait is none when the tokens are there, and otherwise no longer than it must be, where the rate is not below
      the floor: at no earlier moment is the request granted. */
  lemma WaitIsLeast(cfg: Config, b: Bucket, n: real, floor: real, now: real)
    requires ConfigOk(cfg) && Sound(cfg, b) && 0.0 <= floor <= b.rate && 0.0 < b.rate && b.last <= now
    ensures b.tokens >= n ==> WaitTime(b, n, floor) == Seconds(0.0)
    ensures WaitTime(b, n, floor).Seconds? && WaitTime(b, n, floor).seconds >= 0.0
    ensures now - b.last < WaitTime(b, n, floor).seconds ==> !Acquired(cfg, b, now, n).1
  {
    if b.tokens < n {
      Deficit(n, b.tokens, b.rate, floor);
      var w := (n - b.tokens) / b.rate;
      assert w * b.rate == n - b.tokens;
      assert Times(w, b.rate) == n - b.tokens;
      if now - b.last < w {
        Shorter(now - b.last, w, b.rate);
      }
    }
    hide Times;
  }

  lemma Shorter(x: real, w: real, rate: real)
    requires x < w && 0.0 < rate
    ensures Times(x, rate) < Times(w, rate)
  {
  }
}
