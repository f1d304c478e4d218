/**
Freshness arithmetic: the one evaluation of internal/freshness/freshness.go, and
the two shortcuts for it, the probe memo and the ageing of cached entries
(internal/cache/cache.go).
*/
module FreshnessModel {
  import opened Wrappers
  import opened Domain

  datatype Observation = Observation(
    found: bool,
    lastUpdated: Option<int>,
    sourceTime: Option<int>,
    version: nat)

  datatype Evaluation = Evaluation(freshness: Freshness, skew: int, notFound: bool)

  function Abs(d: int): int {
    if d < 0 then -d else d
  }

  function Max(a: int, b: int): int {
    if a >= b then a else b
  }

  function Evaluate(obs: Observation, ttl: int, tolerance: int, now: int): Evaluation {
    var base := Freshness(Unknown, 0, ttl, obs.lastUpdated, now, Operational, false, obs.version);
    if !obs.found || obs.lastUpdated.None? then Evaluation(base, 0, !obs.found)
    else
      var skew := if obs.sourceTime.Some? then obs.sourceTime.value - now else 0;
      var reference := if obs.sourceTime.Some? then obs.sourceTime.value else now;
      var corrected := obs.sourceTime.Some? && Abs(skew) > tolerance;
      var age := reference - obs.lastUpdated.value;
      if age < 0 && -age > tolerance then
        Evaluation(base.(skewCorrected := true), skew, false)
      else
        var state := if ttl <= 0 then Stale else if (if age < 0 then 0 else age) <= ttl then Fresh else Stale;
        Evaluation(base.(age := if age < 0 then 0 else age, skewCorrected := corrected || age < 0, state := state),
                   skew, false)
  }

  /** Applies a TTL to a record the service already holds, on the service's own clock. */
  function EvaluateFreshness(f: Freshness, ttl: int, tolerance: int, now: int): Evaluation {
    Evaluate(Observation(f.observedAt.Some?, f.observedAt, None, f.version), ttl, tolerance, now)
  }

  // -------------------------------------------------------------------------
  // Evaluation
  // -------------------------------------------------------------------------

  /** The instant against which an observation is aged. */
  function Reference(obs: Observation, now: int): int {
    if obs.sourceTime.Some? then obs.sourceTime.value else now
  }

  predicate Judged(obs: Observation, tolerance: int, now: int) {
    && obs.found && obs.lastUpdated.Some?
    && var ahead := obs.lastUpdated.value - Reference(obs, now);
    ahead <= 0 || ahead <= tolerance
  }

  /**
  The three verdicts, each with its exact condition. A record stamped further in
  the future than the tolerance is never fresh.
  */
  lemma VerdictsExact(obs: Observation, ttl: int, tolerance: int, now: int)
    ensures var f := Evaluate(obs, ttl, tolerance, now).freshness;
      && (f.state == Unknown <==> !Judged(obs, tolerance, now))
      && (f.state == Fresh <==>
            Judged(obs, tolerance, now) && ttl > 0 && Reference(obs, now) - obs.lastUpdated.value <= ttl)
      && (f.state == Stale <==>
            Judged(obs, tolerance, now) && (ttl <= 0 || Reference(obs, now) - obs.lastUpdated.value > ttl))
      && f.age == (if Judged(obs, tolerance, now) && obs.lastUpdated.value <= Reference(obs, now)
                   then Reference(obs, now) - obs.lastUpdated.value else 0)
      && f.ttl == ttl && f.evaluatedAt == now && f.observedAt == obs.lastUpdated
      && f.source == Operational && f.version == obs.version
    ensures var ev := Evaluate(obs, ttl, tolerance, now);
      && (ev.notFound <==> !obs.found)
      && ev.skew == if obs.found && obs.lastUpdated.Some? && obs.sourceTime.Some? then obs.sourceTime.value - now else 0
  {
  }

  /**
  A correction is flagged exactly when a dated record's source clock is off by more
  than the tolerance, or its timestamp lies in the future.
  */
  lemma SkewFlaggedExactly(obs: Observation, ttl: int, tolerance: int, now: int)
    ensures Evaluate(obs, ttl, tolerance, now).freshness.skewCorrected
            <==> && obs.found && obs.lastUpdated.Some?
                 && (|| obs.lastUpdated.value > Reference(obs, now)
                     || (obs.sourceTime.Some? && obs.sourceTime.value - now > tolerance)
                     || (obs.sourceTime.Some? && now - obs.sourceTime.value > tolerance))
  {
  }

  /**
  With a source clock, the verdict does not depend on the service's clock at all:
  any disagreement between the two leaves state and age alone.
  */
  lemma SkewImmune(obs: Observation, ttl: int, tolerance: int, now: int, other: int)
    requires obs.sourceTime.Some?
    ensures var f, g := Evaluate(obs, ttl, tolerance, now).freshness, Evaluate(obs, ttl, tolerance, other).freshness;
            f.state == g.state && f.age == g.age
  {
  }

  // -------------------------------------------------------------------------
  // The probe memo
  // -------------------------------------------------------------------------

  datatype CachedProbe = CachedProbe(obs: Observation, storedAt: int) {
    function Age(elapsed: int): Observation {
      if obs.sourceTime.None? then obs else obs.(sourceTime := Some(obs.sourceTime.value + elapsed))
    }
  }

  /** A source whose clock runs at the service's rate, ahead by `skew`, answering at an instant. */
  datatype Source = Source(lastUpdated: int, skew: int, version: nat, reportsTime: bool) {
    function Answer(at: int): Observation {
      Observation(true, Some(lastUpdated), if reportsTime then Some(at + skew) else None, version)
    }
  }

  /**
  A memoised probe gives the evaluation that re-probing the unrefreshed record
  would give, with the re-probe's answer taking as long to arrive as the original
  one did. Where that delay is nil the two coincide.
  */
  lemma MemoIsAReprobe(s: Source, answeredAt: int, storedAt: int, now: int, ttl: int, tolerance: int)
    requires answeredAt <= storedAt <= now
    ensures var memo := CachedProbe(s.Answer(answeredAt), storedAt);
      Evaluate(memo.Age(now - storedAt), ttl, tolerance, now)
      == Evaluate(s.Answer(now - (storedAt - answeredAt)), ttl, tolerance, now)
  {
  }

  /**
  The memo makes a record look fresher than it is exactly in a window: for a source
  that reports its time, once the record's age on the source's clock has passed the
  TTL, and by no more than the original answer spent on its way. (The last
  conjunct says that the answer, dated as the memo dates it, is not from before the
  record by more than the tolerance.)
  */
  lemma MemoOptimismWindow(s: Source, answeredAt: int, storedAt: int, now: int, ttl: int, tolerance: int)
    requires answeredAt <= storedAt <= now
    ensures var memo := Evaluate(CachedProbe(s.Answer(answeredAt), storedAt).Age(now - storedAt), ttl, tolerance, now);
            var direct := Evaluate(s.Answer(now), ttl, tolerance, now);
            var age, lag := now + s.skew - s.lastUpdated, storedAt - answeredAt;
      (memo.freshness.state == Fresh && direct.freshness.state == Stale)
      <==> s.reportsTime && 0 < ttl < age <= ttl + lag && (lag <= age || lag - age <= tolerance)
  {
    MemoIsAReprobe(s, answeredAt, storedAt, now, ttl, tolerance);
    VerdictsExact(s.Answer(now - (storedAt - answeredAt)), ttl, tolerance, now);
    VerdictsExact(s.Answer(now), ttl, tolerance, now);
  }

  /** One such input: a record of age 12 under a TTL of 10, from an answer that took 3 to arrive. */
  lemma MemoLooksFresher()
    ensures var s := Source(0, 0, 1, true);
      && Evaluate(CachedProbe(s.Answer(9), 12).Age(0), 10, 0, 12).freshness.state == Fresh
      && Evaluate(s.Answer(12), 10, 0, 12).freshness.state == Stale
  {
    MemoOptimismWindow(Source(0, 0, 1, true), 9, 12, 12, 10, 0);
  }

  /** A verdict of stale from the memo stands at every later instant. */
  lemma MemoStaleIsFinal(c: CachedProbe, ttl: int, tolerance: int, now: int, later: int)
    requires now <= later && Evaluate(c.Age(now - c.storedAt), ttl, tolerance, now).freshness.state == Stale
    ensures Evaluate(c.Age(later - c.storedAt), ttl, tolerance, later).freshness.state == Stale
  {
  }

  /** The memo of `Manager.Probe`, bounded by clearing it when full. */
  class ProbeManager {
    const ttl: int
    const maxEntries: nat
    var memo: map<string, CachedProbe>

    ghost predicate Valid()
      reads this
    {
      1 <= maxEntries && |memo| <= maxEntries
    }

    constructor (ttl: int)
      ensures Valid() && memo == map[] && this.ttl == ttl && maxEntries == 50000
    {
      this.ttl, maxEntries, memo := ttl, 50000, map[];
    }

    /**
    Looks a probe up, or issues it. `answer` is what the source would say, none
    when the probe fails; `after` is the clock once it has answered.
    */
    method Probe(key: string, now: int, answer: Option<Observation>, after: int)
      returns (obs: Option<Observation>, issued: bool)
      requires Valid() && now <= after
      modifies this
      ensures Valid()
      ensures issued <==> !(ttl > 0 && key in old(memo) && now - old(memo)[key].storedAt < ttl)
      ensures !issued ==> obs == Some(old(memo)[key].Age(now - old(memo)[key].storedAt)) && memo == old(memo)
      ensures issued ==> obs == answer
      ensures issued && answer.Some? && ttl > 0 ==>
                key in memo && memo[key] == CachedProbe(answer.value, after)
                && forall k <- memo :: k == key || (k in old(memo) && memo[k] == old(memo[k]))
      ensures issued && (answer.None? || ttl <= 0) ==> memo == old(memo)
    {
      if ttl > 0 && key in memo {
        var c := memo[key];
        var elapsed := now - c.storedAt;
        if elapsed < ttl {
          return Some(c.Age(elapsed)), false;
        }
      }
      issued, obs := true, answer;
      if answer.None? {
        return;
      }
      if ttl > 0 {
        if |memo| >= maxEntries {
          memo := map[];
        }
        assert (memo[key := CachedProbe(answer.value, after)]).Keys == memo.Keys + {key};
        memo := memo[key := CachedProbe(answer.value, after)];
      }
    }

    method Invalidate(key: string)
      requires Valid()
      modifies this
      ensures Valid() && memo == old(memo) - {key}
      ensures key !in memo
    {
      assert (memo - {key}).Keys == memo.Keys - {key};
      memo := memo - {key};
    }
  }

  // -------------------------------------------------------------------------
  // Ageing a cached judgement
  // -------------------------------------------------------------------------

  /** The freshness of a cached judgement stored at `storedAt`, re-reported at `now`. */
  function Aged(f: Freshness, storedAt: int, now: int): Freshness {
    var age := f.age + (now - storedAt);
    f.(age := age,
       evaluatedAt := now,
       state := if f.ttl > 0 && f.state != Unknown then (if age > f.ttl then Stale else Fresh) else f.state)
  }

  /**
  The reported age trails the age a direct re-evaluation would find by at most
  the delay between judging the record and storing the answer, and by exactly
  that delay when the record was not stamped in the future.
  */
  lemma AgedLag(f: Freshness, ttl: int, tolerance: int, evaluatedAt: int, storedAt: int, now: int)
    requires evaluatedAt <= storedAt <= now && tolerance >= 0
    requires EvaluateFreshness(f, ttl, tolerance, evaluatedAt).freshness.state != Unknown
    ensures var judged := EvaluateFreshness(f, ttl, tolerance, evaluatedAt).freshness;
            var direct := EvaluateFreshness(f, ttl, tolerance, now).freshness;
            var lag := direct.age - Aged(judged, storedAt, now).age;
      && direct.state != Unknown
      && lag <= storedAt - evaluatedAt
      && (f.observedAt.value <= evaluatedAt ==> lag == storedAt - evaluatedAt)
  {
  }

  /**
  Where the entry is stored at the instant of judgement, a cached answer reports
  FRESH only if re-evaluating the record directly would.
  */
  lemma AgedFreshIsFresh(f: Freshness, ttl: int, tolerance: int, storedAt: int, now: int)
    requires storedAt <= now && tolerance >= 0
    requires Aged(EvaluateFreshness(f, ttl, tolerance, storedAt).freshness, storedAt, now).state == Fresh
    ensures EvaluateFreshness(f, ttl, tolerance, now).freshness.state == Fresh
  {
    AgedLag(f, ttl, tolerance, storedAt, storedAt, now);
  }

  /**
  With a delay between the two, the cached answer calls a record FRESH that direct
  re-evaluation calls STALE exactly while the record is past its TTL and the age
  it was judged to have, plus its time in the cache, is not.
  */
  lemma AgedOptimismWindow(f: Freshness, ttl: int, tolerance: int, evaluatedAt: int, storedAt: int, now: int)
    requires evaluatedAt <= storedAt <= now
    ensures var cached := Aged(EvaluateFreshness(f, ttl, tolerance, evaluatedAt).freshness, storedAt, now);
            var direct := EvaluateFreshness(f, ttl, tolerance, now).freshness;
            (cached.state == Fresh && direct.state == Stale)
            <==> && f.observedAt.Some? && ttl > 0
                 && var age := evaluatedAt - f.observedAt.value;
                 && (age >= 0 || -age <= tolerance)
                 && ttl < now - f.observedAt.value && Max(0, age) + (now - storedAt) <= ttl
  {
    var obs := Observation(f.observedAt.Some?, f.observedAt, None, f.version);
    VerdictsExact(obs, ttl, tolerance, evaluatedAt);
    VerdictsExact(obs, ttl, tolerance, now);
  }

  /** For a record dated no later than its judgement, that window is as long as the delay. */
  lemma AgedOptimismSpan(f: Freshness, ttl: int, tolerance: int, evaluatedAt: int, storedAt: int, now: int)
    requires evaluatedAt <= storedAt <= now && f.observedAt.Some? && f.observedAt.value <= evaluatedAt
    ensures var cached := Aged(EvaluateFreshness(f, ttl, tolerance, evaluatedAt).freshness, storedAt, now);
            var direct := EvaluateFreshness(f, ttl, tolerance, now).freshness;
            (cached.state == Fresh && direct.state == Stale)
            <==> 0 < ttl < now - f.observedAt.value <= ttl + (storedAt - evaluatedAt)
  {
    AgedOptimismWindow(f, ttl, tolerance, evaluatedAt, storedAt, now);
  }

  /** One such input: judged at age 9 under a TTL of 10, stored 3 later, read at once. */
  lemma AgedLooksFresher()
    ensures var f := Freshness(Unknown, 0, 10, Some(0), 9, Operational, false, 1);
      && Aged(EvaluateFreshness(f, 10, 0, 9).freshness, 12, 12).state == Fresh
      && EvaluateFreshness(f, 10, 0, 12).freshness.state == Stale
  {
    AgedOptimismSpan(Freshness(Unknown, 0, 10, Some(0), 9, Operational, false, 1), 10, 0, 9, 12, 12);
  }

  /** STALE never reverts and UNKNOWN stays UNKNOWN, however often an entry is re-reported. */
  lemma AgedVerdictsHold(f: Freshness, storedAt: int, now: int, later: int)
    requires now <= later
    ensures Aged(f, storedAt, now).state == Stale ==> Aged(f, storedAt, later).state == Stale
    ensures f.state == Unknown ==> Aged(f, storedAt, later).state == Unknown
    ensures Aged(f, storedAt, later).age - Aged(f, storedAt, now).age == later - now
  {
  }
}
