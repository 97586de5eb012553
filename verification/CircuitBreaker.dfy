/** The circuit breaker of the worker client (apps/runtime-mcp/src/worker/worker-client.ts): any number of
    concurrent calls, each a sequence of uninterrupted steps between awaits, sharing one breaker. */
module CircuitBreaker {
  import opened Option

  datatype Circuit = Healthy | Degraded | Down

  /** The error classes the breaker tells apart; one error may belong to several. */
  datatype Failure = Failure(actionTimeout: bool, clientAbort: bool, typeError: bool, workerUnavailable: bool)

  predicate IsConnectionError(f: Failure) {
    !f.actionTimeout && !f.clientAbort && (f.typeError || f.workerUnavailable)
  }

  datatype Config = Config(slowResponseMs: int, recoveryStreak: int)

  datatype Breaker = Breaker(circuit: Circuit, slowStreak: nat, fastStreak: nat, ready: bool, shuttingDown: bool)

  const FRESH := Breaker(Healthy, 0, 0, false, false)

  // ----- The three transitions of the shared state -----

  function AfterSlow(b: Breaker): Breaker {
    b.(slowStreak := b.slowStreak + 1, fastStreak := 0, circuit := if b.slowStreak + 1 >= 2 then Degraded else b.circuit)
  }

  function AfterFast(cfg: Config, b: Breaker): Breaker {
    if b.circuit != Degraded then b.(slowStreak := 0, fastStreak := 0)
    else if b.fastStreak + 1 >= cfg.recoveryStreak then b.(slowStreak := 0, fastStreak := 0, circuit := Healthy)
    else b.(slowStreak := 0, fastStreak := b.fastStreak + 1)
  }

  function AfterCompletion(cfg: Config, b: Breaker, elapsed: int): Breaker {
    if elapsed > cfg.slowResponseMs then AfterSlow(b) else AfterFast(cfg, b)
  }

  function AfterFailure(b: Breaker, f: Failure): Breaker {
    if IsConnectionError(f) then b.(circuit := Down) else b
  }

  function AfterRecovery(b: Breaker): Breaker {
    b.(circuit := Healthy, fastStreak := 0, ready := true)
  }

  // ----- Calls -----

  /** Recovering carries whether the wait follows a failed attempt of this call. */
  datatype Phase = Recovering(retry: bool) | Running | Finished

  datatype Call = Call(phase: Phase, attempts: nat, firstFailure: Option<Failure>)

  datatype Speed = Slow | Fast

  /** `log` lists the completed first attempts, the only ones the breaker measures. */
  datatype State = State(breaker: Breaker, calls: seq<Call>, log: seq<Speed>)

  datatype Event =
    | Start
    | Complete(id: nat, elapsed: int)
    | Fail(id: nat, failure: Failure)
    | ProbeOk(id: nat)
    | ProbeFailed(id: nat)
    | GiveUp(id: nat)
    | SetShuttingDown(value: bool)

  predicate Enabled(s: State, e: Event) {
    match e
    case Start => true
    case SetShuttingDown(_) => true
    case Complete(id, _) => id < |s.calls| && s.calls[id].phase == Running
    case Fail(id, _) => id < |s.calls| && s.calls[id].phase == Running
    case ProbeOk(id) => id < |s.calls| && s.calls[id].phase.Recovering?
    case ProbeFailed(id) => id < |s.calls| && s.calls[id].phase.Recovering?
    case GiveUp(id) => id < |s.calls| && s.calls[id].phase.Recovering?
  }

  function NewCall(b: Breaker): Call {
    if b.shuttingDown then Call(Finished, 0, None)
    else if b.circuit == Down then Call(Recovering(false), 0, None)
    else Call(Running, 1, None)
  }

  /** A completion that the breaker measures: that of a first attempt. */
  predicate Measured(s: State, e: Event)
    requires Enabled(s, e)
  {
    e.Complete? && s.calls[e.id].attempts == 1
  }

  function SpeedOf(cfg: Config, elapsed: int): Speed {
    if elapsed > cfg.slowResponseMs then Slow else Fast
  }

  function NextBreaker(cfg: Config, s: State, e: Event): Breaker
    requires Enabled(s, e)
  {
    match e
    case SetShuttingDown(value) => s.breaker.(shuttingDown := value)
    case Complete(id, elapsed) => if Measured(s, e) then AfterCompletion(cfg, s.breaker, elapsed) else s.breaker
    case Fail(id, f) => if s.calls[id].attempts == 1 then AfterFailure(s.breaker, f) else s.breaker
    case ProbeOk(_) => AfterRecovery(s.breaker)
    case _ => s.breaker
  }

  function FailedCall(c: Call, f: Failure): Call {
    if c.attempts == 1 then Call(if IsConnectionError(f) then Recovering(true) else Finished, 1, Some(f))
    else c.(phase := Finished)
  }

  function NextCalls(s: State, e: Event): seq<Call>
    requires Enabled(s, e)
  {
    match e
    case Start => s.calls + [NewCall(s.breaker)]
    case SetShuttingDown(_) => s.calls
    case Complete(id, _) => s.calls[id := s.calls[id].(phase := Finished)]
    case Fail(id, f) => s.calls[id := FailedCall(s.calls[id], f)]
    case ProbeOk(id) => s.calls[id := s.calls[id].(phase := Running, attempts := s.calls[id].attempts + 1)]
    case ProbeFailed(_) => s.calls
    case GiveUp(id) => s.calls[id := s.calls[id].(phase := Finished)]
  }

  function NextLog(cfg: Config, s: State, e: Event): seq<Speed>
    requires Enabled(s, e)
  {
    if Measured(s, e) then s.log + [SpeedOf(cfg, e.elapsed)] else s.log
  }

  function Step(cfg: Config, s: State, e: Event): State
    requires Enabled(s, e)
  {
    State(NextBreaker(cfg, s, e), NextCalls(s, e), NextLog(cfg, s, e))
  }

  const INITIAL := State(FRESH, [], [])

  function Run(cfg: Config, s: State, events: seq<Event>): Option<State>
    decreases |events|
  {
    if events == [] then Some(s)
    else if Enabled(s, events[0]) then Run(cfg, Step(cfg, s, events[0]), events[1..])
    else None
  }

  // ----- Streaks are trailing runs of the completions -----

  /** Length of the longest suffix of log made of x alone. */
  function Trailing(log: seq<Speed>, x: Speed): (n: nat)
    ensures n <= |log|
    ensures forall i :: |log| - n <= i < |log| ==> log[i] == x
    ensures n < |log| ==> log[|log| - n - 1] != x
  {
    if log == [] || log[|log| - 1] != x then 0 else 1 + Trailing(log[..|log| - 1], x)
  }

  lemma TrailingAppend(log: seq<Speed>, x: Speed, y: Speed)
    ensures Trailing(log + [y], x) == if y == x then Trailing(log, x) + 1 else 0
  {
    assert (log + [y])[..|log|] == log;
  }

  /** Two consecutive slow completions that no recovery streak of fast ones has followed yet. */
  ghost predicate SlowPairHolds(cfg: Config, log: seq<Speed>) {
    exists k :: PairAt(cfg, log, k)
  }

  ghost predicate PairAt(cfg: Config, log: seq<Speed>, k: nat) {
    && k + 1 < |log| && log[k] == Slow && log[k + 1] == Slow
    && forall j :: k + 2 <= j <= |log| ==> Trailing(log[..j], Fast) == 0 || Trailing(log[..j], Fast) < cfg.recoveryStreak
  }

  lemma PairAppend(cfg: Config, log: seq<Speed>, k: nat, x: Speed)
    requires PairAt(cfg, log, k)
    requires Trailing(log + [x], Fast) == 0 || Trailing(log + [x], Fast) < cfg.recoveryStreak
    ensures PairAt(cfg, log + [x], k)
  {
    forall j | k + 2 <= j <= |log| + 1
      ensures Trailing((log + [x])[..j], Fast) == 0 || Trailing((log + [x])[..j], Fast) < cfg.recoveryStreak
    {
      if j <= |log| {
        assert (log + [x])[..j] == log[..j];
      } else {
        assert (log + [x])[..j] == log + [x];
      }
    }
  }

  ghost predicate BreakerInv(cfg: Config, b: Breaker, log: seq<Speed>) {
    && b.slowStreak == Trailing(log, Slow)
    && (b.circuit == Degraded ==>
          && b.fastStreak == Trailing(log, Fast)
          && (b.fastStreak < cfg.recoveryStreak || b.fastStreak == 0)
          && SlowPairHolds(cfg, log))
    && (b.circuit == Healthy ==> b.fastStreak == 0)
  }

  ghost predicate CallInv(c: Call) {
    && c.attempts <= 2
    && (c.phase == Recovering(false) ==> c.attempts == 0 && c.firstFailure.None?)
    && (c.phase == Recovering(true) ==> c.attempts == 1 && c.firstFailure.Some?)
    && (c.phase == Running ==> c.attempts >= 1)
    && (c.attempts == 2 ==> c.firstFailure.Some?)
    && (c.firstFailure.Some? && (c.attempts == 2 || c.phase.Recovering?) ==> IsConnectionError(c.firstFailure.value))
    && (c.phase == Running && c.firstFailure.Some? ==> c.attempts == 2)
  }

  ghost predicate CallsInv(calls: seq<Call>) {
    forall id :: 0 <= id < |calls| ==> CallInv(calls[id])
  }

  ghost predicate Inv(cfg: Config, s: State) {
    BreakerInv(cfg, s.breaker, s.log) && CallsInv(s.calls)
  }

  lemma PairBegins(cfg: Config, log: seq<Speed>)
    requires Trailing(log, Slow) >= 2
    ensures SlowPairHolds(cfg, log)
  {
    assert log[..|log|] == log;
    assert PairAt(cfg, log, |log| - 2);
  }

  lemma PairGoesOn(cfg: Config, log: seq<Speed>, x: Speed)
    requires SlowPairHolds(cfg, log)
    requires Trailing(log + [x], Fast) == 0 || Trailing(log + [x], Fast) < cfg.recoveryStreak
    ensures SlowPairHolds(cfg, log + [x])
  {
    var k :| PairAt(cfg, log, k);
    PairAppend(cfg, log, k, x);
  }

  lemma SlowKeepsBreaker(cfg: Config, b: Breaker, log: seq<Speed>)
    requires BreakerInv(cfg, b, log)
    ensures BreakerInv(cfg, AfterSlow(b), log + [Slow])
  {
    TrailingAppend(log, Slow, Slow);
    TrailingAppend(log, Fast, Slow);
    if b.slowStreak + 1 >= 2 {
      PairBegins(cfg, log + [Slow]);
    } else if b.circuit == Degraded {
      PairGoesOn(cfg, log, Slow);
    }
  }

  lemma FastKeepsBreaker(cfg: Config, b: Breaker, log: seq<Speed>)
    requires BreakerInv(cfg, b, log)
    ensures BreakerInv(cfg, AfterFast(cfg, b), log + [Fast])
  {
    TrailingAppend(log, Slow, Fast);
    TrailingAppend(log, Fast, Fast);
    if b.circuit == Degraded && b.fastStreak + 1 < cfg.recoveryStreak {
      PairGoesOn(cfg, log, Fast);
    }
  }

  lemma CompletionKeepsBreaker(cfg: Config, b: Breaker, log: seq<Speed>, elapsed: int)
    requires BreakerInv(cfg, b, log)
    ensures BreakerInv(cfg, AfterCompletion(cfg, b, elapsed), log + [SpeedOf(cfg, elapsed)])
  {
    if elapsed > cfg.slowResponseMs {
      SlowKeepsBreaker(cfg, b, log);
    } else {
      FastKeepsBreaker(cfg, b, log);
    }
  }

  lemma StepKeepsBreaker(cfg: Config, s: State, e: Event)
    requires BreakerInv(cfg, s.breaker, s.log) && Enabled(s, e)
    ensures BreakerInv(cfg, NextBreaker(cfg, s, e), NextLog(cfg, s, e))
  {
    if Measured(s, e) {
      CompletionKeepsBreaker(cfg, s.breaker, s.log, e.elapsed);
    }
  }

  lemma UpdateKeepsCalls(calls: seq<Call>, id: nat, c: Call)
    requires CallsInv(calls) && id < |calls| && CallInv(c)
    ensures CallsInv(calls[id := c])
  {
  }

  lemma StepKeepsCalls(s: State, e: Event)
    requires CallsInv(s.calls) && Enabled(s, e)
    ensures CallsInv(NextCalls(s, e))
  {
    match e {
      case Start => assert CallInv(NewCall(s.breaker));
      case SetShuttingDown(_) =>
      case ProbeFailed(_) =>
      case Complete(id, _) => UpdateKeepsCalls(s.calls, id, s.calls[id].(phase := Finished));
      case Fail(id, f) => UpdateKeepsCalls(s.calls, id, FailedCall(s.calls[id], f));
      case ProbeOk(id) =>
        UpdateKeepsCalls(s.calls, id, s.calls[id].(phase := Running, attempts := s.calls[id].attempts + 1));
      case GiveUp(id) => UpdateKeepsCalls(s.calls, id, s.calls[id].(phase := Finished));
    }
  }

  lemma StepKeepsInv(cfg: Config, s: State, e: Event)
    requires Inv(cfg, s) && Enabled(s, e)
    ensures Inv(cfg, Step(cfg, s, e))
  {
    StepKeepsBreaker(cfg, s, e);
    StepKeepsCalls(s, e);
  }

  lemma {:induction false} RunKeepsInv(cfg: Config, s: State, events: seq<Event>)
    requires Inv(cfg, s) && Run(cfg, s, events).Some?
    ensures Inv(cfg, Run(cfg, s, events).value)
    decreases |events|
  {
    if events != [] {
      StepKeepsInv(cfg, s, events[0]);
      RunKeepsInv(cfg, Step(cfg, s, events[0]), events[1..]);
    }
  }

  ghost predicate Reachable(cfg: Config, s: State) {
    exists events :: Run(cfg, INITIAL, events) == Some(s)
  }

  lemma ReachableInv(cfg: Config, s: State)
    requires Reachable(cfg, s)
    ensures Inv(cfg, s)
  {
    var events :| Run(cfg, INITIAL, events) == Some(s);
    RunKeepsInv(cfg, INITIAL, events);
  }

  lemma CompletionLeaves(cfg: Config, b: Breaker, log: seq<Speed>, elapsed: int)
    requires BreakerInv(cfg, b, log)
    requires b.circuit == Degraded && AfterCompletion(cfg, b, elapsed).circuit == Healthy
    ensures var n := Trailing(log + [SpeedOf(cfg, elapsed)], Fast); n >= cfg.recoveryStreak && n >= 1
  {
    TrailingAppend(log, Fast, Fast);
  }

  lemma CompletionEnters(cfg: Config, b: Breaker, log: seq<Speed>, elapsed: int)
    requires BreakerInv(cfg, b, log) && b.circuit != Degraded
    ensures AfterCompletion(cfg, b, elapsed).circuit == Degraded
            <==> Trailing(log + [SpeedOf(cfg, elapsed)], Slow) >= 2
  {
    TrailingAppend(log, Slow, SpeedOf(cfg, elapsed));
  }

  // ----- The promises -----

  /** In every interleaving the slow streak is the number of trailing slow completions; while degraded, the fast
      streak is the number of trailing fast ones, short of recovery, and the log holds two consecutive slow
      completions that no recovery streak has followed. */
  lemma StreaksAreTrailing(cfg: Config, s: State)
    requires Reachable(cfg, s)
    ensures s.breaker.slowStreak == Trailing(s.log, Slow)
    ensures s.breaker.circuit == Degraded ==>
              && s.breaker.fastStreak == Trailing(s.log, Fast)
              && (s.breaker.fastStreak < cfg.recoveryStreak || s.breaker.fastStreak == 0)
              && SlowPairHolds(cfg, s.log)
  {
    ReachableInv(cfg, s);
  }

  /** Degraded becomes healthy only by a successful probe or by the configured number of consecutive fast
      completions. */
  lemma LeavingDegraded(cfg: Config, s: State, e: Event)
    requires Reachable(cfg, s) && Enabled(s, e)
    requires s.breaker.circuit == Degraded && Step(cfg, s, e).breaker.circuit == Healthy
    ensures e.ProbeOk? || (e.Complete? && Trailing(Step(cfg, s, e).log, Fast) >= cfg.recoveryStreak
                           && Trailing(Step(cfg, s, e).log, Fast) >= 1)
  {
    ReachableInv(cfg, s);
    if Measured(s, e) {
      CompletionLeaves(cfg, s.breaker, s.log, e.elapsed);
    }
  }

  /** The circuit becomes degraded exactly by a measured completion that makes two trailing slow ones. */
  lemma EnteringDegraded(cfg: Config, s: State, e: Event)
    requires Reachable(cfg, s) && Enabled(s, e)
    requires s.breaker.circuit != Degraded
    ensures Step(cfg, s, e).breaker.circuit == Degraded <==>
            e.Complete? && |Step(cfg, s, e).log| > |s.log| && Trailing(Step(cfg, s, e).log, Slow) >= 2
  {
    ReachableInv(cfg, s);
    if Measured(s, e) {
      CompletionEnters(cfg, s.breaker, s.log, e.elapsed);
    }
  }

  /** The wrapped function runs at most twice, and twice only after the first run failed with a connection error,
      which is never a timeout and never an abort. */
  lemma AtMostTwoAttempts(cfg: Config, s: State, id: nat)
    requires Reachable(cfg, s) && id < |s.calls|
    ensures s.calls[id].attempts <= 2
    ensures s.calls[id].attempts == 2 ==>
              && s.calls[id].firstFailure.Some?
              && IsConnectionError(s.calls[id].firstFailure.value)
              && !s.calls[id].firstFailure.value.actionTimeout && !s.calls[id].firstFailure.value.clientAbort
  {
    ReachableInv(cfg, s);
  }

  /** A second run starts only when a probe of the same call has just succeeded. */
  lemma SecondAttemptFollowsProbe(cfg: Config, s: State, e: Event, id: nat)
    requires Reachable(cfg, s) && Enabled(s, e) && id < |s.calls|
    requires s.calls[id].attempts < 2 && Step(cfg, s, e).calls[id].attempts == 2
    ensures e == ProbeOk(id) && s.calls[id].phase == Recovering(true)
    ensures Step(cfg, s, e).breaker.circuit == Healthy
  {
    ReachableInv(cfg, s);
    assert CallInv(s.calls[id]);
  }

  // ----- The recovery loop -----

  function Pow2(n: nat): nat {
    if n == 0 then 1 else 2 * Pow2(n - 1)
  }

  /** min(h * 2 ** attempt, h * 8) */
  function Backoff(h: nat, attempt: nat): nat {
    var grown := h * Pow2(attempt);
    if grown < h * 8 then grown else h * 8
  }

  /** What the world does around one probe: whether the client is shutting down, the probe's outcome and duration,
      and how much longer than asked the sleep after it takes. */
  datatype Probe = Probe(shuttingDown: bool, ok: bool, took: nat, overslept: nat)

  datatype Outcome = Recovered | ShuttingDown | Unavailable

  /** The loop from time `now` on, after `attempt` probes: how it ends and how many probes it made in all. */
  function Recovery(h: nat, deadline: int, now: int, attempt: nat, probes: nat -> Probe): (Outcome, nat)
    requires h > 0
    decreases deadline - now
  {
    if now >= deadline then (Unavailable, attempt)
    else
      var p := probes(attempt);
      if p.shuttingDown then (ShuttingDown, attempt)
      else if p.ok then (Recovered, attempt + 1)
      else
        BackoffPositive(h, attempt);
        Recovery(h, deadline, now + p.took + Backoff(h, attempt) + p.overslept, attempt + 1, probes)
  }

  lemma {:induction false} Pow2AtLeast(n: nat)
    ensures Pow2(n) >= 1
    ensures n >= 3 ==> Pow2(n) >= 8
  {
    if n > 0 {
      Pow2AtLeast(n - 1);
    }
    if n == 3 {
      assert Pow2(3) == 2 * Pow2(2) && Pow2(2) == 2 * Pow2(1) && Pow2(1) == 2 * Pow2(0);
    }
  }

  lemma BackoffPositive(h: nat, attempt: nat)
    requires h > 0
    ensures Backoff(h, attempt) >= 1
  {
    Pow2AtLeast(attempt);
    assert h * Pow2(attempt) >= h * 1;
  }

  /** The sleeps are h, 2h, 4h and then 8h for ever. */
  lemma BackoffValues(h: nat, attempt: nat)
    ensures Backoff(h, attempt) == match attempt case 0 => h case 1 => 2 * h case 2 => 4 * h case _ => 8 * h
  {
    Pow2AtLeast(attempt);
    if attempt >= 3 {
      MulMonotone(h, 8, Pow2(attempt));
    } else {
      assert Pow2(0) == 1 && Pow2(1) == 2 * Pow2(0) && Pow2(2) == 2 * Pow2(1);
      if h > 0 {
        assert h * Pow2(attempt) < h * 8;
      }
    }
  }

  function Sleeps(h: nat, n: nat): nat {
    if n == 0 then 0 else Sleeps(h, n - 1) + Backoff(h, n - 1)
  }

  lemma {:induction false} SleepsFrom3(h: nat, n: nat)
    requires n >= 3
    ensures Sleeps(h, n) == 7 * h + 8 * h * (n - 3)
  {
    BackoffValues(h, n - 1);
    if n == 3 {
      BackoffValues(h, 0);
      BackoffValues(h, 1);
      assert Sleeps(h, 2) == Sleeps(h, 1) + Backoff(h, 1) && Sleeps(h, 1) == Sleeps(h, 0) + Backoff(h, 0);
    } else {
      SleepsFrom3(h, n - 1);
      assert 8 * h * (n - 3) == 8 * h * (n - 4) + 8 * h;
    }
  }

  /** Before the last probe there was still time left. */
  lemma {:induction false} LastProbeBeforeDeadline(h: nat, start: int, timeout: int, now: int, attempt: nat, probes: nat -> Probe)
    requires h > 0
    requires now >= start + Sleeps(h, attempt)
    requires attempt > 0 ==> Sleeps(h, attempt - 1) < timeout
    ensures var n := Recovery(h, start + timeout, now, attempt, probes).1;
            n > 0 ==> Sleeps(h, n - 1) < timeout
    decreases start + timeout - now
  {
    var deadline := start + timeout;
    if now < deadline && !probes(attempt).shuttingDown && !probes(attempt).ok {
      BackoffPositive(h, attempt);
      var p := probes(attempt);
      LastProbeBeforeDeadline(h, start, timeout, now + p.took + Backoff(h, attempt) + p.overslept, attempt + 1, probes);
    }
  }

  function CeilDiv(a: nat, b: nat): nat
    requires b > 0
  {
    (a + b - 1) / b
  }

  lemma DivAtLeast(n: nat, b: nat, k: nat)
    requires b > 0 && b * k <= n
    ensures n / b >= k
  {
    var d := n / b;
    assert n < b * d + b == b * (d + 1);
    if d + 1 <= k {
      MulMonotone(b, d + 1, k);
    }
  }

  lemma CeilDivAbove(a: nat, b: nat, q: nat)
    requires b > 0 && b * q < a
    ensures q + 1 <= CeilDiv(a, b)
  {
    assert b * (q + 1) == b * q + b;
    DivAtLeast(a + b - 1, b, q + 1);
  }

  lemma CeilDivBelow(a: nat, b: nat)
    requires a > 0 && b > 0
    ensures CeilDiv(a, b) >= 1 && b * (CeilDiv(a, b) - 1) < a
  {
    DivAtLeast(a + b - 1, b, 1);
    var q := CeilDiv(a, b);
    assert b * q <= a + b - 1;
    assert b * (q - 1) == b * q - b;
  }

  lemma MulMonotone(b: nat, x: nat, y: nat)
    requires x <= y
    ensures b * x <= b * y
  {
  }

  /** The loop makes at most 3 + ceil((T - 7h) / 8h) probes when T exceeds 7h, under any clock that advances by at
      least each sleep. */
  lemma ProbeBound(h: nat, start: int, timeout: nat, probes: nat -> Probe)
    requires h > 0 && timeout > 7 * h
    ensures Recovery(h, start + timeout, start, 0, probes).1 <= 3 + CeilDiv(timeout - 7 * h, 8 * h)
  {
    LastProbeBeforeDeadline(h, start, timeout, start, 0, probes);
    var n := Recovery(h, start + timeout, start, 0, probes).1;
    if n >= 4 {
      SleepsFrom3(h, n - 1);
      CeilDivAbove(timeout - 7 * h, 8 * h, n - 4);
    }
  }

  ghost predicate AllFailAtOnce(probes: nat -> Probe) {
    forall i :: probes(i) == Probe(false, false, 0, 0)
  }

  lemma {:induction false} EveryProbeInTime(h: nat, start: int, timeout: nat, attempt: nat, probes: nat -> Probe)
    requires h > 0 && AllFailAtOnce(probes)
    ensures var n := Recovery(h, start + timeout, start + Sleeps(h, attempt), attempt, probes).1;
            n >= attempt && Sleeps(h, n) >= timeout
    decreases timeout as int - Sleeps(h, attempt)
  {
    if Sleeps(h, attempt) < timeout {
      BackoffPositive(h, attempt);
      assert probes(attempt) == Probe(false, false, 0, 0);
      EveryProbeInTime(h, start, timeout, attempt + 1, probes);
    }
  }

  /** The bound is reached when probes fail instantly and sleeps are exact. */
  lemma ProbeBoundIsTight(h: nat, start: int, timeout: nat, probes: nat -> Probe)
    requires h > 0 && timeout > 7 * h && AllFailAtOnce(probes)
    ensures Recovery(h, start + timeout, start, 0, probes) == (Unavailable, 3 + CeilDiv(timeout - 7 * h, 8 * h))
  {
    ProbeBound(h, start, timeout, probes);
    EveryProbeInTime(h, start, timeout, 0, probes);
    FailuresEndUnavailable(h, start + timeout, start, 0, probes);
    var n := Recovery(h, start + timeout, start, 0, probes).1;
    var q := CeilDiv(timeout - 7 * h, 8 * h);
    CeilDivBelow(timeout - 7 * h, 8 * h);
    SleepsFrom3(h, 3);
    if n < 3 {
      SleepsMonotone(h, n, 3);
    } else {
      SleepsFrom3(h, n);
      if n - 3 <= q - 1 {
        MulMonotone(8 * h, n - 3, q - 1);
      }
    }
  }

  lemma {:induction false} SleepsMonotone(h: nat, m: nat, n: nat)
    requires m <= n
    ensures Sleeps(h, m) <= Sleeps(h, n)
  {
    if m < n {
      SleepsMonotone(h, m, n - 1);
    }
  }

  lemma {:induction false} FailuresEndUnavailable(h: nat, deadline: int, now: int, attempt: nat, probes: nat -> Probe)
    requires h > 0 && AllFailAtOnce(probes)
    ensures Recovery(h, deadline, now, attempt, probes).0 == Unavailable
    decreases deadline - now
  {
    if now < deadline {
      BackoffPositive(h, attempt);
      assert probes(attempt) == Probe(false, false, 0, 0);
      FailuresEndUnavailable(h, deadline, now + Backoff(h, attempt), attempt + 1, probes);
    }
  }

  // ----- The client object -----

  class WorkerClient {
    const cfg: Config
    var state: Circuit
    var slowStreak: nat
    var fastStreak: nat
    var workerReady: bool
    var shuttingDown: bool

    ghost function Abs(): Breaker
      reads this
    {
      Breaker(state, slowStreak, fastStreak, workerReady, shuttingDown)
    }

    constructor (cfg: Config)
      ensures this.cfg == cfg && Abs() == FRESH
    {
      this.cfg := cfg;
      state, slowStreak, fastStreak, workerReady, shuttingDown := Healthy, 0, 0, false, false;
    }

    /** The first attempt returned after `elapsed` milliseconds. */
    method OnCompleted(elapsed: int)
      modifies this
      ensures Abs() == AfterCompletion(cfg, old(Abs()), elapsed)
    {
      if elapsed > cfg.slowResponseMs {
        slowStreak := slowStreak + 1;
        fastStreak := 0;
        if slowStreak >= 2 {
          state := Degraded;
        }
      } else {
        slowStreak := 0;
        if state == Degraded {
          fastStreak := fastStreak + 1;
          if fastStreak >= cfg.recoveryStreak {
            state := Healthy;
            fastStreak := 0;
          }
        } else {
          fastStreak := 0;
        }
      }
    }

    /** The first attempt threw; the result says whether it will be retried. */
    method OnFailed(f: Failure) returns (retry: bool)
      modifies this
      ensures Abs() == AfterFailure(old(Abs()), f)
      ensures retry == IsConnectionError(f)
    {
      retry := if f.actionTimeout then false else if f.clientAbort then false else if f.typeError then true
               else f.workerUnavailable;
      if retry {
        state := Down;
      }
    }

    /** waitForRecovery run on its own, from time `start`. */
    method WaitForRecovery(h: nat, timeout: int, start: int, probes: nat -> Probe) returns (outcome: Outcome, made: nat)
      requires h > 0
      modifies this
      ensures (outcome, made) == Recovery(h, start + timeout, start, 0, probes)
      ensures Abs() == if outcome == Recovered then AfterRecovery(old(Abs())) else old(Abs())
    {
      var deadline := start + timeout;
      var now, attempt := start, 0;
      while now < deadline
        invariant Recovery(h, deadline, now, attempt, probes) == Recovery(h, deadline, start, 0, probes)
        invariant Abs() == old(Abs())
        decreases deadline - now
      {
        var p := probes(attempt);
        if p.shuttingDown {
          return ShuttingDown, attempt;
        }
        if p.ok {
          state := Healthy;
          fastStreak := 0;
          workerReady := true;
          return Recovered, attempt + 1;
        }
        BackoffPositive(h, attempt);
        var backoffMs := Backoff(h, attempt);
        attempt := attempt + 1;
        now := now + p.took + backoffMs + p.overslept;
      }
      return Unavailable, attempt;
    }
  }
}
