/**
Bounded retries (internal/resilience/retry.go). The environment is a function from
the attempt number to what happens on that turn: whether the context is already
done, how the call ends, what the clock reads, and how the sleep goes. Fractions
are reals; a duration computed from one is truncated as in the source.
*/
module RetryModel {
  import opened Wrappers

  datatype Config = Config(
    enabled: bool, maxAttempts: int, baseBackoff: int, maxBackoff: int,
    jitterFraction: real, budgetRatio: real)

  datatype Failure = Failure(id: int, retryable: bool)

  datatype Result = Ok | Err(failure: Failure) | DeadlineBeforeAttempt

  datatype Turn = Turn(
    cancelled: bool,            // the context is done before the attempt
    outcome: Option<Failure>,   // none on success
    checkedAt: int,             // clock when the budget is checked
    checkedAgain: int,          // and when the deadline is
    jitter: real,
    interrupted: bool,          // the context ends during the sleep
    wokeAt: int)

  const MAX_DURATION := 0x7fff_ffff_ffff_ffff

  function Pow2(n: nat): real {
    if n == 0 then 1.0 else 2.0 * Pow2(n - 1)
  }

  /** The exponential part of the backoff, capped. */
  function Exponential(cfg: Config, attempt: nat): real
    requires attempt >= 1
  {
    var e := cfg.baseBackoff as real * Pow2(attempt - 1);
    if cfg.maxBackoff > 0 && e > cfg.maxBackoff as real then cfg.maxBackoff as real else e
  }

  function Fraction(cfg: Config): real {
    if cfg.jitterFraction > 1.0 then 1.0 else if cfg.jitterFraction < 0.0 then 0.0 else cfg.jitterFraction
  }

  function Backoff(cfg: Config, attempt: nat, jitter: real): int
    requires attempt >= 1
  {
    if cfg.baseBackoff <= 0 then 0
    else
      var e := Exponential(cfg, attempt);
      if cfg.jitterFraction <= 0.0 then e.Floor
      else
        Jittered(Lowest(cfg, attempt), e, jitter).Floor
  }

  /** The least delay the jitter can pick. */
  function Lowest(cfg: Config, attempt: nat): real
    requires attempt >= 1
  {
    Exponential(cfg, attempt) * (1.0 - Fraction(cfg))
  }

  function Jittered(lo: real, hi: real, jitter: real): real {
    lo + jitter * (hi - lo)
  }

  function Ratio(cfg: Config): real {
    if cfg.budgetRatio <= 0.0 || cfg.budgetRatio > 1.0 then 1.0 else cfg.budgetRatio
  }

  function Budget(cfg: Config, deadline: Option<int>, start: int): int {
    if deadline.None? then MAX_DURATION
    else if deadline.value - start <= 0 then 0
    else ((deadline.value - start) as real * Ratio(cfg)).Floor
  }

  predicate CanAfford(t: Turn, deadline: Option<int>, start: int, budget: int, delay: int) {
    && t.checkedAt - start + delay < budget
    && (deadline.Some? ==> t.checkedAgain + delay < deadline.value)
  }

  function Attempts(cfg: Config, idempotent: bool): nat {
    if !cfg.enabled || !idempotent || cfg.maxAttempts < 1 then 1 else cfg.maxAttempts
  }

  function Sum(ds: seq<int>): int {
    if ds == [] then 0 else Sum(ds[..|ds| - 1]) + ds[|ds| - 1]
  }

  /**
  The clock does not run backwards, and each sleep but the last lasts at least as
  long as asked. The last may be cut short by the context.
  */
  ghost predicate Sleeps(env: nat -> Turn, start: int, delays: seq<int>) {
    && (forall i :: 0 <= i < |delays| ==> Awake(env, start, i) <= env(i + 1).checkedAt)
    && (forall i :: 0 <= i < |delays| - 1 ==> env(i + 1).checkedAt + delays[i] <= Awake(env, start, i + 1))
  }

  /** When the attempt after `i` sleeps can start. */
  function Awake(env: nat -> Turn, start: int, i: nat): int {
    if i == 0 then start else env(i).wokeAt
  }

  /** The sleeps so far fit in the time that has passed when the last is asked for. */
  lemma {:induction false} SleepsAddUp(env: nat -> Turn, start: int, delays: seq<int>)
    requires Sleeps(env, start, delays) && delays != []
    ensures Sum(delays) <= env(|delays|).checkedAt - start + delays[|delays| - 1]
  {
    var n := |delays| - 1;
    assert Awake(env, start, n) <= env(n + 1).checkedAt;
    if n > 0 {
      var before := delays[..n];
      assert forall i :: 0 <= i < n ==> before[i] == delays[i];
      SleepsAddUp(env, start, before);
      assert env(n - 1 + 1).checkedAt + delays[n - 1] <= Awake(env, start, n - 1 + 1);
    }
  }

  /** Every sleep asked for is the given one, and was affordable when asked for. */
  ghost predicate Afforded(env: nat -> Turn, deadline: Option<int>, start: int, budget: int,
                           delayOf: nat -> int, delays: seq<int>) {
    forall i :: 0 <= i < |delays| ==>
      delays[i] == delayOf(i + 1) && CanAfford(env(i + 1), deadline, start, budget, delays[i])
  }

  /** All the sleeps asked for fit in the budget, if the earlier ones took as long as asked. */
  lemma AffordedFits(env: nat -> Turn, deadline: Option<int>, start: int, budget: int, delayOf: nat -> int,
                     delays: seq<int>)
    requires Afforded(env, deadline, start, budget, delayOf, delays) && Sleeps(env, start, delays) && delays != []
    ensures Sum(delays) < budget
  {
    SleepsAddUp(env, start, delays);
    assert CanAfford(env(|delays| - 1 + 1), deadline, start, budget, delays[|delays| - 1]);
  }

  /** The loop of `Do`, over the delay before each attempt. */
  method Loop(attempts: nat, budget: int, deadline: Option<int>, start: int, env: nat -> Turn, delayOf: nat -> int)
    returns (result: Result, calls: nat, delays: seq<int>)
    requires attempts >= 1
    ensures calls <= attempts
    ensures calls >= 1 || (result.DeadlineBeforeAttempt? && env(1).cancelled)
    ensures forall i :: 1 <= i < calls ==> env(i).outcome.Some? && env(i).outcome.value.retryable
    ensures result.Ok? <==> calls >= 1 && env(calls).outcome.None?
    ensures calls >= 1 && !result.Ok? ==> result.Err? && env(calls).outcome == Some(result.failure)
    ensures calls - 1 <= |delays| <= calls
    ensures Afforded(env, deadline, start, budget, delayOf, delays)
    ensures result.Err? && calls < attempts && result.failure.retryable ==>
              || (|delays| == calls - 1 && !CanAfford(env(calls), deadline, start, budget, delayOf(calls)))
              || (|delays| == calls && (env(calls).interrupted || env(calls + 1).cancelled))
  {
    calls, delays := 0, [];
    result := DeadlineBeforeAttempt;
    var attempt := 1;
    while attempt <= attempts
      invariant 1 <= attempt <= attempts && calls == attempt - 1 == |delays|
      invariant forall i :: 1 <= i <= calls ==> env(i).outcome.Some? && env(i).outcome.value.retryable
      invariant result == if calls == 0 then DeadlineBeforeAttempt else Err(env(calls).outcome.value)
      invariant Afforded(env, deadline, start, budget, delayOf, delays)
      invariant calls > 0 ==> !env(calls).interrupted
    {
      var t := env(attempt);
      if t.cancelled {
        return;
      }
      calls := attempt;
      if t.outcome.None? {
        result := Ok;
        return;
      }
      result := Err(t.outcome.value);
      if attempt == attempts || !t.outcome.value.retryable {
        return;
      }
      var delay := delayOf(attempt);
      if !CanAfford(t, deadline, start, budget, delay) {
        return;
      }
      delays := delays + [delay];
      if t.interrupted {
        return;
      }
      attempt := attempt + 1;
    }
    assert false;
  }

  /**
  Runs the call until it succeeds, fails for good, or retrying can no longer be
  afforded. `delays` are the sleeps it asked for.
  */
  method Do(cfg: Config, idempotent: bool, deadline: Option<int>, start: int, env: nat -> Turn)
    returns (result: Result, calls: nat, delays: seq<int>)
    ensures calls <= (if cfg.enabled && idempotent && cfg.maxAttempts > 1 then cfg.maxAttempts else 1)
    ensures calls >= 1 || (result.DeadlineBeforeAttempt? && env(1).cancelled)
    ensures forall i :: 1 <= i < calls ==> env(i).outcome.Some? && env(i).outcome.value.retryable
    ensures result.Ok? <==> calls >= 1 && env(calls).outcome.None?
    ensures calls >= 1 && !result.Ok? ==> result.Err? && env(calls).outcome == Some(result.failure)
    ensures calls - 1 <= |delays| <= calls
    ensures forall i :: 0 <= i < |delays| ==> delays[i] == Backoff(cfg, i + 1, env(i + 1).jitter)
    ensures forall i :: 0 <= i < |delays| && deadline.Some? ==> env(i + 1).checkedAgain + delays[i] < deadline.value
    ensures delays != [] && Sleeps(env, start, delays) ==> Sum(delays) < Budget(cfg, deadline, start)
    ensures result.Err? && cfg.enabled && idempotent && calls < cfg.maxAttempts && result.failure.retryable ==>
              var t, delay := env(calls), Backoff(cfg, calls, env(calls).jitter);
              || (&& |delays| == calls - 1
                  && (|| t.checkedAt - start + delay >= Budget(cfg, deadline, start)
                      || (deadline.Some? && t.checkedAgain + delay >= deadline.value)))
              || (|delays| == calls && (env(calls).interrupted || env(calls + 1).cancelled))
  {
    var attempts := 1;
    if cfg.enabled && idempotent {
      attempts := if cfg.maxAttempts > 1 then cfg.maxAttempts else 1;
    }
    var budget := Budget(cfg, deadline, start);
    var delayOf := (n: nat) => if n >= 1 then Backoff(cfg, n, env(n).jitter) else 0;
    result, calls, delays := Loop(attempts, budget, deadline, start, env, delayOf);
    if delays != [] && Sleeps(env, start, delays) {
      AffordedFits(env, deadline, start, budget, delayOf, delays);
    }
  }

  // -------------------------------------------------------------------------
  // The arithmetic
  // -------------------------------------------------------------------------

  lemma {:induction false} Pow2Positive(n: nat)
    ensures Pow2(n) >= 1.0
  {
    if n > 0 {
      Pow2Positive(n - 1);
    }
  }

  lemma Scale(b: real, x: real, y: real)
    requires b >= 0.0 && x <= y
    ensures b * x <= b * y
  {
    assert b * (y - x) >= 0.0;
  }

  /** The exponential part never decreases from one attempt to the next and never exceeds the maximum. */
  lemma ExponentialGrows(cfg: Config, attempt: nat)
    requires attempt >= 1 && cfg.baseBackoff > 0
    ensures 0.0 < Exponential(cfg, attempt) <= Exponential(cfg, attempt + 1)
    ensures cfg.maxBackoff > 0 ==> Exponential(cfg, attempt) <= cfg.maxBackoff as real
  {
    Pow2Positive(attempt - 1);
    Pow2Positive(attempt);
    var b := cfg.baseBackoff as real;
    Scale(b, 1.0, Pow2(attempt - 1));
    Scale(b, Pow2(attempt - 1), Pow2(attempt));
  }

  /** The delays start from the base and double, up to the maximum. */
  lemma ExponentialDoubles(cfg: Config, attempt: nat)
    requires attempt >= 1 && cfg.baseBackoff > 0
    ensures Exponential(cfg, 1) == Capped(cfg, cfg.baseBackoff as real)
    ensures Exponential(cfg, attempt + 1) == Capped(cfg, 2.0 * Exponential(cfg, attempt))
  {
    var e := cfg.baseBackoff as real * Pow2(attempt - 1);
    assert cfg.baseBackoff as real * Pow2(attempt) == 2.0 * e;
    assert Pow2(0) == 1.0;
  }

  function Capped(cfg: Config, e: real): real {
    if cfg.maxBackoff <= 0 || e <= cfg.maxBackoff as real then e else cfg.maxBackoff as real
  }

  lemma JitteredBetween(lo: real, hi: real, jitter: real)
    requires lo <= hi && 0.0 <= jitter <= 1.0
    ensures lo <= Jittered(lo, hi, jitter) <= hi
  {
    Scale(hi - lo, 0.0, jitter);
    Scale(hi - lo, jitter, 1.0);
  }

  lemma Share(x: real, f: real)
    requires x >= 0.0 && 0.0 <= f <= 1.0
    ensures 0.0 <= x * f <= x
  {
    Scale(x, 0.0, f);
    Scale(x, f, 1.0);
    assert x * 0.0 == 0.0 && x * 1.0 == x;
  }

  lemma LowestInRange(cfg: Config, attempt: nat)
    requires attempt >= 1 && cfg.baseBackoff > 0
    ensures 0.0 <= Lowest(cfg, attempt) <= Exponential(cfg, attempt)
  {
    ExponentialGrows(cfg, attempt);
    Share(Exponential(cfg, attempt), 1.0 - Fraction(cfg));
  }

  lemma TruncatedBetween(lo: real, hi: real, x: real)
    requires 0.0 <= lo <= x <= hi
    ensures lo - 1.0 < x.Floor as real <= hi && 0 <= x.Floor
  {
    Truncated(x);
  }

  lemma BackoffAboveLowest(cfg: Config, attempt: nat, jitter: real)
    requires attempt >= 1 && cfg.baseBackoff > 0 && 0.0 <= jitter < 1.0
    ensures Lowest(cfg, attempt) - 1.0 < Backoff(cfg, attempt, jitter) as real <= Exponential(cfg, attempt)
    ensures 0 <= Backoff(cfg, attempt, jitter)
  {
    LowestInRange(cfg, attempt);
    var lo, e := Lowest(cfg, attempt), Exponential(cfg, attempt);
    JitteredBetween(lo, e, jitter);
    TruncatedBetween(lo, e, if cfg.jitterFraction <= 0.0 then e else Jittered(lo, e, jitter));
  }

  /**
  Each delay lies between the jittered floor and the exponential, up to truncation: the
  floor gives up the configured fraction of it, clamped to none and all. Without a base
  there is no delay, and without a fraction no jitter.
  */
  lemma BackoffInRange(cfg: Config, attempt: nat, jitter: real)
    requires attempt >= 1 && 0.0 <= jitter < 1.0
    ensures cfg.baseBackoff <= 0 ==> Backoff(cfg, attempt, jitter) == 0
    ensures cfg.baseBackoff > 0 ==>
              var e, j := Exponential(cfg, attempt), cfg.jitterFraction;
              var f := if j <= 0.0 then 0.0 else if j >= 1.0 then 1.0 else j;
              && e * (1.0 - f) - 1.0 < Backoff(cfg, attempt, jitter) as real <= e
              && 0 <= Backoff(cfg, attempt, jitter)
              && (j <= 0.0 ==> Backoff(cfg, attempt, jitter) == e.Floor)
  {
    if cfg.baseBackoff > 0 {
      BackoffAboveLowest(cfg, attempt, jitter);
      assert Lowest(cfg, attempt) == Exponential(cfg, attempt) * (1.0 - Fraction(cfg));
    }
  }

  lemma Truncated(x: real)
    requires x >= 0.0
    ensures 0 <= x.Floor && x - 1.0 < x.Floor as real <= x
  {
    assert x.Floor as real <= x < (x.Floor + 1) as real;
  }

  lemma TruncatedBelow(x: real, n: int)
    requires x <= n as real
    ensures x.Floor <= n
  {
    assert x.Floor as real <= x;
  }

  /**
  The budget is the configured share of the time that is left, or all of it where no
  share is configured, up to truncation; nothing once the deadline has passed, and
  without limit if there is none.
  */
  lemma BudgetIsAShare(cfg: Config, deadline: int, start: int)
    ensures Budget(cfg, None, start) == MAX_DURATION
    ensures deadline <= start ==> Budget(cfg, Some(deadline), start) == 0
    ensures start <= deadline ==> 0 <= Budget(cfg, Some(deadline), start) <= deadline - start
    ensures start <= deadline && 0.0 < cfg.budgetRatio <= 1.0 ==>
              (deadline - start) as real * cfg.budgetRatio - 1.0 < Budget(cfg, Some(deadline), start) as real
                                                                <= (deadline - start) as real * cfg.budgetRatio
    ensures start <= deadline && !(0.0 < cfg.budgetRatio <= 1.0) ==>
              Budget(cfg, Some(deadline), start) == deadline - start
  {
    if deadline < start {
      return;
    }
    var total := (deadline - start) as real;
    var share := total * Ratio(cfg);
    Share(total, Ratio(cfg));
    Truncated(share);
    TruncatedBelow(share, deadline - start);
  }
}
