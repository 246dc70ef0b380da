/**
 * Supervised background tasks (`supervisor.py`): a restart loop with exponential backoff under a
 * circuit breaker. Times are seconds on one monotonic clock.
 */
module Supervisor {

  import opened Common

  // ----- Backoff -----

  datatype Backoff = Backoff(base: real, factor: real, maxDelay: real, jitter: real) {

    /** The base delay after so many crashes in a row, without the cap. */
    function Grown(attempt: int): real { base * Growth(factor, attempt) }

    /** The delay before jitter. */
    function Raw(attempt: int): real { Min(maxDelay, Grown(attempt)) }

    /** The largest jitter. */
    function Spread(attempt: int): real { jitter * Raw(attempt) }

    /** `u` is the random draw, uniform on [0, 1]. */
    function Delay(attempt: int, u: real): real { Raw(attempt) + u * Spread(attempt) }

    predicate Sane() { base >= 0.0 && factor >= 1.0 && maxDelay >= 0.0 && jitter >= 0.0 }
  }

  function Growth(factor: real, attempt: int): real {
    Power(factor, if attempt >= 1 then attempt - 1 else 0)
  }

  function Power(x: real, n: nat): real {
    if n == 0 then 1.0 else x * Power(x, n - 1)
  }

  lemma {:induction false} PowerGrows(x: real, n: nat, m: nat)
    requires x >= 1.0 && n <= m
    ensures 1.0 <= Power(x, n) <= Power(x, m)
    decreases m
  {
    if n < m {
      PowerGrows(x, n, m - 1);
      assert (x - 1.0) * Power(x, m - 1) >= 0.0;
    } else if n > 0 {
      PowerGrows(x, n - 1, m - 1);
      assert (x - 1.0) * Power(x, n - 1) >= 0.0;
    }
  }

  lemma GrowthBounds(factor: real, attempt: int, next: int)
    requires factor >= 1.0 && attempt <= next
    ensures 1.0 <= Growth(factor, attempt) <= Growth(factor, next)
  {
    PowerGrows(factor, if attempt >= 1 then attempt - 1 else 0, if next >= 1 then next - 1 else 0);
  }

  lemma GrownBounds(b: Backoff, attempt: int, next: int)
    requires b.Sane() && attempt <= next
    ensures b.base <= b.Grown(attempt) <= b.Grown(next)
  {
    hide Growth;
    GrowthBounds(b.factor, attempt, next);
    Scale(b.base, Growth(b.factor, attempt), Growth(b.factor, next));
    assert b.base * (Growth(b.factor, attempt) - 1.0) >= 0.0;
  }

  lemma RawBounds(b: Backoff, attempt: int, next: int)
    requires b.Sane() && attempt <= next
    ensures 0.0 <= Min(b.maxDelay, b.base) <= b.Raw(attempt) <= b.Raw(next) <= b.maxDelay
  {
    GrownBounds(b, attempt, next);
    hide Backoff.Grown;
  }

  /** Delays never shrink from one crash to the next, start at the base and stay under the cap plus jitter. */
  lemma DelayBounds(b: Backoff, attempt: int, next: int, u: real)
    requires b.Sane() && attempt <= next && 0.0 <= u <= 1.0
    ensures 0.0 <= Min(b.maxDelay, b.base) <= b.Raw(attempt) <= b.Raw(next) <= b.maxDelay
    ensures b.Raw(attempt) <= b.Delay(attempt, u) <= b.maxDelay + b.jitter * b.maxDelay
  {
    RawBounds(b, attempt, next);
    SpreadBounds(b, attempt);
    hide Backoff.Raw, Backoff.Spread, Min;
    var y := b.Spread(attempt);
    assert b.Delay(attempt, u) == b.Raw(attempt) + u * y;
    Portion(u, y);
    assert b.Raw(attempt) + u * y <= b.maxDelay + y;
  }

  lemma SpreadBounds(b: Backoff, attempt: int)
    requires b.Sane() && 0.0 <= b.Raw(attempt) <= b.maxDelay
    ensures 0.0 <= b.Spread(attempt) <= b.jitter * b.maxDelay
  {
    hide Backoff.Raw;
    Scale(b.jitter, b.Raw(attempt), b.maxDelay);
    assert b.jitter * b.Raw(attempt) >= 0.0;
  }

  /** The first crash waits for the base delay, and each further one `factor` times as long, up to the cap. */
  lemma DelayGrows(b: Backoff, attempt: int)
    ensures attempt <= 1 ==> b.Raw(attempt) == Min(b.maxDelay, b.base)
    ensures attempt >= 1 && b.Raw(attempt) < b.maxDelay ==>
      b.Raw(attempt + 1) == Min(b.maxDelay, b.factor * b.Raw(attempt))
  {
    if attempt >= 1 {
      GrownStep(b, attempt);
      hide Backoff.Grown;
    } else {
      assert b.base * 1.0 == b.base;
    }
    assert b.base * 1.0 == b.base;
  }

  lemma GrownStep(b: Backoff, attempt: int)
    requires attempt >= 1
    ensures b.Grown(attempt + 1) == b.factor * b.Grown(attempt)
    ensures attempt == 1 ==> b.Grown(attempt) == b.base
  {
    var g := Power(b.factor, attempt - 1);
    assert b.base * (b.factor * g) == b.factor * (b.base * g);
  }

  /** Jitter is proportional to its draw: none at 0, the whole spread at 1. */
  lemma JitterSpans(b: Backoff, attempt: int, u: real, v: real)
    ensures b.Delay(attempt, 0.0) == b.Raw(attempt)
    ensures b.Delay(attempt, 1.0) == b.Raw(attempt) + b.jitter * b.Raw(attempt)
    ensures b.Sane() && u <= v ==> b.Delay(attempt, u) <= b.Delay(attempt, v)
  {
    hide Backoff.Raw;
    var y := b.Spread(attempt);
    assert 0.0 * y == 0.0 && 1.0 * y == y;
    if b.Sane() && u <= v {
      RawNotNegative(b, attempt);
      assert y >= 0.0;
      hide Backoff.Spread;
      Scale(y, u, v);
    }
  }

  lemma RawNotNegative(b: Backoff, attempt: int)
    requires b.Sane()
    ensures b.Raw(attempt) >= 0.0
  {
    RawBounds(b, attempt, attempt);
    hide Backoff.Raw;
  }

  /** Growth by a factor above one reaches the cap: after enough crashes the delay is the largest one. */
  lemma DelayReachesCap(b: Backoff)
    requires b.Sane() && b.base > 0.0 && b.factor > 1.0
    ensures exists n: nat :: b.Raw(n) == b.maxDelay
  {
    var step := b.base * (b.factor - 1.0);
    PositiveProduct(b.base, b.factor - 1.0);
    var n := Enough(step, b.maxDelay);
    Bernoulli(b.factor, n);
    AboveCap(b.base, b.factor - 1.0, n as real, Power(b.factor, n), b.maxDelay);
    assert b.Grown(n + 1) == b.base * Power(b.factor, n);
    hide Backoff.Grown;
    assert b.Raw(n + 1) == b.maxDelay;
  }

  lemma Enough(step: real, target: real) returns (n: nat)
    requires step > 0.0 && target >= 0.0
    ensures n as real * step >= target
  {
    var q := target / step;
    DivTimes(target, step);
    n := q.Floor + 1;
    Scale(step, q, n as real);
  }

  lemma AboveCap(base: real, rate: real, n: real, power: real, cap: real)
    requires base > 0.0 && power >= 1.0 + n * rate && n * (base * rate) >= cap
    ensures base * power >= cap
  {
    Scale(base, 1.0 + n * rate, power);
    assert base * (1.0 + n * rate) == base + n * (base * rate);
  }

  lemma {:induction false} Bernoulli(x: real, n: nat)
    requires x > 1.0
    ensures Power(x, n) >= 1.0 + n as real * (x - 1.0)
  {
    if n > 0 {
      Bernoulli(x, n - 1);
      BernoulliStep(x, (n - 1) as real, Power(x, n - 1));
    }
  }

  lemma BernoulliStep(x: real, n: real, power: real)
    requires x > 1.0 && n >= 0.0 && power >= 1.0 + n * (x - 1.0)
    ensures x * power >= 1.0 + (n + 1.0) * (x - 1.0)
  {
    Scale(x, 1.0 + n * (x - 1.0), power);
    var r := x - 1.0;
    assert x * (1.0 + n * r) == 1.0 + (n + 1.0) * r + n * (r * r);
    assert n * (r * r) >= 0.0;
  }

  /** A part of a non-negative amount. */
  lemma Portion(u: real, y: real)
    requires 0.0 <= u <= 1.0 && y >= 0.0
    ensures 0.0 <= u * y <= y
  {
    assert u * y >= 0.0;
    assert (1.0 - u) * y >= 0.0;
  }

  // ----- Circuit breaker -----

  /** The breaker's state: recorded failures and the time until which it is open. */
  datatype Breaker = Breaker(failures: seq<real>, openUntil: real)

  /** The failures at most `window` old. */
  function Recent(failures: seq<real>, now: real, window: real): seq<real> {
    if failures == [] then []
    else Recent(Init(failures), now, window) + (if now - Last(failures) <= window then [Last(failures)] else [])
  }

  /** Too many recent failures open the breaker for one window and start the count afresh. */
  function Failed(b: Breaker, now: real, threshold: int, window: real): Breaker {
    var recent := Recent(b.failures + [now], now, window);
    if |recent| >= threshold then Breaker([], now + window) else Breaker(recent, b.openUntil)
  }

  class CircuitBreaker {
    const failureThreshold: int
    const window: real
    var failures: seq<real>
    var openUntil: real

    function Snapshot(): Breaker
      reads this
    {
      Breaker(failures, openUntil)
    }

    constructor (failureThreshold: int, window: real)
      ensures this.failureThreshold == failureThreshold && this.window == window
      ensures Snapshot() == Breaker([], 0.0)
    {
      this.failureThreshold, this.window := failureThreshold, window;
      failures, openUntil := [], 0.0;
    }

    method RecordFailure(now: real)
      modifies this
      ensures Snapshot() == Failed(old(Snapshot()), now, failureThreshold, window)
    {
      failures := failures + [now];
      failures := Recent(failures, now, window);
      if |failures| >= failureThreshold {
        openUntil := now + window;
        failures := [];
      }
    }

    method RecordSuccess()
      modifies this
      ensures Snapshot() == old(Snapshot()).(failures := [])
    {
      failures := [];
    }

    predicate IsOpen(now: real)
      reads this
    {
      now < openUntil
    }
  }

  // ----- The supervise loop -----

  datatype TaskState = STARTING | RUNNING | BACKOFF | CIRCUIT_OPEN | STOPPED

  datatype Outcome = CleanReturn | Crash | Cancelled

  /**
   * What the world decides during one turn of the loop: how long the factory runs and how that ends, the jitter
   * draw, how late a sleep wakes up, and whether the supervisor has been told to stop by the time of a crash.
   */
  datatype Turn = Turn(run: real, outcome: Outcome, u: real, late: real, stopping: bool)

  predicate Possible(t: Turn) { t.run >= 0.0 && 0.0 <= t.u <= 1.0 && t.late >= 0.0 }

  predicate AllPossible(script: seq<Turn>) { forall i :: 0 <= i < |script| ==> Possible(script[i]) }

  datatype Event = Started(at: real) | Returned(at: real) | Crashed(at: real) | Opened(until: real) | Paused(at: real)

  datatype Config = Config(backoff: Backoff, threshold: int, window: real)

  datatype Run = Run(
    now: real, halted: bool, attempt: nat, restarts: nat, state: TaskState, heartbeat: real,
    breaker: Breaker, log: seq<Event>)

  /** `asyncio.sleep`: a negative delay does not go back in time. */
  function Sleep(now: real, delay: real, late: real): real { now + Max(0.0, delay) + late }

  function Pause(c: Config): real { Min(c.backoff.maxDelay, 5.0) }

  /** One turn of the loop. */
  function Step(s: Run, t: Turn, c: Config): Run {
    if s.halted then s
    else if s.now < s.breaker.openUntil then
      s.(state := CIRCUIT_OPEN, log := s.log + [Paused(s.now)], now := Sleep(s.now, Pause(c), t.late))
    else
      var started := Launch(s, t);
      match t.outcome
      case Cancelled => started.(halted := true)
      case CleanReturn =>
        started.(attempt := 0,
                 breaker := started.breaker.(failures := []),
                 log := started.log + [Returned(started.now)])
      case Crash => Recover(started, t, c)
  }

  /** The factory is started and runs for a while. */
  function Launch(s: Run, t: Turn): Run {
    s.(state := RUNNING, heartbeat := s.now, log := s.log + [Started(s.now)], now := s.now + t.run)
  }

  /** What the loop does about a crash. */
  function Recover(s: Run, t: Turn, c: Config): Run {
    var b := Failed(s.breaker, s.now, c.threshold, c.window);
    var tripped := |Recent(s.breaker.failures + [s.now], s.now, c.window)| >= c.threshold;
    s.(attempt := s.attempt + 1, restarts := s.restarts + 1, breaker := b, state := BACKOFF, halted := t.stopping,
       log := s.log + [Crashed(s.now)] + (if tripped then [Opened(b.openUntil)] else []),
       now := if t.stopping then s.now else Sleep(s.now, c.backoff.Delay(s.attempt + 1, t.u), t.late))
  }

  function Execute(s: Run, script: seq<Turn>, c: Config): Run {
    if script == [] then s else Step(Execute(s, Init(script), c), Last(script), c)
  }

  function Begin(now: real): Run { Run(now, false, 0, 0, STOPPED, now, Breaker([], 0.0), []) }

  class SupervisedTask {
    const backoff: Backoff
    const breaker: CircuitBreaker
    var state: TaskState
    var restarts: nat
    var lastHeartbeat: real
    ghost var log: seq<Event>

    constructor (backoff: Backoff, breaker: CircuitBreaker, now: real)
      ensures this.backoff == backoff && this.breaker == breaker
      ensures state == STOPPED && restarts == 0 && lastHeartbeat == now && log == []
    {
      this.backoff, this.breaker := backoff, breaker;
      state, restarts, lastHeartbeat, log := STOPPED, 0, now, [];
    }

    ghost function Settings(): Config { Config(backoff, breaker.failureThreshold, breaker.window) }

    ghost function View(now: real, halted: bool, attempt: nat): Run
      reads this, breaker
    {
      Run(now, halted, attempt, restarts, state, lastHeartbeat, breaker.Snapshot(), log)
    }

    /** The supervise loop, for as many turns as the script has. */
    method Supervise(script: seq<Turn>, start: real) returns (now: real, halted: bool, attempt: nat)
      modifies this, breaker
      ensures View(now, halted, attempt) == Execute(old(View(start, false, 0)), script, Settings())
    {
      hide Failed, Recent, Backoff.Delay;
      now, halted, attempt := start, false, 0;
      ghost var first := View(start, false, 0);
      var k := 0;
      assert script[..0] == [];
      while k < |script| && !halted
        invariant 0 <= k <= |script|
        invariant View(now, halted, attempt) == Execute(first, script[..k], Settings())
      {
        assert Init(script[..k + 1]) == script[..k] && Last(script[..k + 1]) == script[k];
        now, halted, attempt := TurnOnce(script[k], now, attempt);
        k := k + 1;
      }
      StaysHalted(first, script, k, Settings());
    }

    method TurnOnce(t: Turn, start: real, attempts: nat) returns (now: real, halted: bool, attempt: nat)
      modifies this, breaker
      ensures View(now, halted, attempt) == Step(old(View(start, false, attempts)), t, Settings())
    {
      hide Recent, Backoff.Delay;
      now, halted, attempt := start, false, attempts;
      if breaker.IsOpen(now) {
        state := CIRCUIT_OPEN;
        log := log + [Paused(now)];
        now := Sleep(now, Min(backoff.maxDelay, 5.0), t.late);
        return;
      }
      state := RUNNING;
      lastHeartbeat := now;
      log := log + [Started(now)];
      now := now + t.run;
      match t.outcome
      case CleanReturn =>
        attempt := 0;
        breaker.RecordSuccess();
        log := log + [Returned(now)];
      case Cancelled =>
        halted := true;
      case Crash =>
        attempt := attempt + 1;
        restarts := restarts + 1;
        ghost var tripped := |Recent(breaker.failures + [now], now, breaker.window)| >= breaker.failureThreshold;
        breaker.RecordFailure(now);
        log := log + [Crashed(now)] + (if tripped then [Opened(breaker.openUntil)] else []);
        var delay := backoff.Delay(attempt, t.u);
        state := BACKOFF;
        if t.stopping {
          halted := true;
        } else {
          now := Sleep(now, delay, t.late);
        }
    }
  }

  lemma {:induction false} StaysHalted(s: Run, script: seq<Turn>, k: nat, c: Config)
    requires k <= |script|
    requires k == |script| || Execute(s, script[..k], c).halted
    ensures Execute(s, script, c) == Execute(s, script[..k], c)
  {
    if k == |script| {
      assert script[..k] == script;
    } else {
      assert Init(script)[..k] == script[..k];
      StaysHalted(s, Init(script), k, c);
    }
  }
}
