/**
What the routing chain guarantees as a whole, together with the call-time fallback
of internal/application/service.go that starts from its decision.
*/
module RouterSafety {
  import opened Wrappers
  import opened Domain
  import opened FieldCatalog
  import opened RouterModel

  /** A call-time fallback: the copied decision, retargeted, or nothing. */
  function FallbackDecision(d: Decision, strong: bool, cause: Code, opsUp: bool, execUp: bool): Option<Decision> {
    var fb := d.fallback;
    if !SourceUnusable(cause) || strong || fb == NoSource || fb == d.primary then None
    else if d.target == TargetBoth && fb == Execution then None
    else if !(fb == Operational && opsUp) && !(fb == Execution && execUp) then None
    else Some(d.(rule := FallbackAfterFailure, primary := fb, fallback := NoSource,
                 target := TargetFor(fb), requiredSources := map[fb := true]))
  }

  // -------------------------------------------------------------------------
  // Health
  // -------------------------------------------------------------------------

  /** Past the health rule, a validated preference is up. */
  lemma PreferredIsUp(q: Query, n: nat)
    requires Validated(q.rule) && Decider(q, 0) == n && n > 6
    ensures q.rule.preferred == Both ==> q.opsUp && q.execUp
    ensures q.rule.preferred != Both ==> Up(q, Preferred(q))
    ensures Preferred(q) == Operational ==> q.opsUp
  {
    assert !Guard(3, q) && !Guard(6, q);
  }

  /** Under a validated rule, every source in the chosen target is available. */
  lemma TargetIsAvailable(q: Query, k: SourceKind)
    requires Validated(q.rule) && Route(q).target.Includes(k)
    ensures Up(q, k)
  {
    var n := Decider(q, 0);
    assert n <= 1 || !Guard(1, q);
    if n > 6 {
      PreferredIsUp(q, n);
    }
  }

  /** The chain gets past its first four rules. */
  ghost predicate Unblocked(q: Query) {
    && q.hasTenant && (q.opsUp || q.execUp)
    && Exclusive(q.catalog, q.fields) != Some(Execution) && (Pins(q) ==> q.opsUp)
  }

  /** A preference the last rule does not recognise: it reads the operational source. */
  predicate Unrecognised(name: SourceName) {
    name == Alias(Execution) || (name.Parse() == NoSource && name != Both)
  }

  /**
  Without the validator this fails in exactly one way: a preference that the last
  rule does not recognise sends the request to an operational source that is down.
  */
  lemma UnavailableTargetExactly(q: Query)
    ensures (exists k :: Route(q).target.Includes(k) && !Up(q, k))
            <==> && Unblocked(q) && !q.opsUp && !SpansBoth(q) && q.consistency != Strong
                 && Unrecognised(q.rule.preferred)
  {
    var n := Decider(q, 0);
    assert n <= 1 || !Guard(1, q);
    assert n <= 3 || !Guard(3, q);
    assert n <= 6 || !Guard(6, q);
    if n == 10 && q.rule.preferred != Both && q.rule.preferred != Canonical(Execution) {
      assert Route(q).target.Includes(Operational);
    }
  }

  // -------------------------------------------------------------------------
  // Pinning
  // -------------------------------------------------------------------------

  /** A request that prefers the operational source never reaches the last rule. */
  lemma OperationalIsJudged(q: Query)
    requires Preferred(q) == Operational
    ensures Decider(q, 0) <= 9
  {
    assert Guard(7, q) || Guard(8, q) || Guard(9, q);
  }

  /**
  When every requested field is one source's alone, the target is that source or
  nothing, and a decision that reads it carries no fallback.
  */
  lemma PinIsKept(q: Query, k: SourceKind)
    requires OnlyFrom(q.catalog, q.fields, k) && (k == Operational || k == Execution)
    ensures var d := Route(q);
      && (d.target == TargetNone || (d.target == TargetFor(k) && d.primary == k && d.fallback == NoSource))
  {
    var n := Decider(q, 0);
    assert Exclusive(q.catalog, q.fields) == Some(k);
    if n == 4 {
      ExclusiveDoesNotSpan(q.catalog, q.fields, k, Operational);
      ExclusiveDoesNotSpan(q.catalog, q.fields, k, Execution);
    }
    assert k == Execution ==> n <= 2 by {
      assert k == Execution ==> Guard(2, q);
    }
    assert n <= 3 || !Guard(3, q);
    if k == Operational {
      OperationalIsJudged(q);
    }
  }

  /** So no failure at call time sends such a request to the other source. */
  lemma PinSurvivesFailure(q: Query, k: SourceKind, cause: Code, opsUp: bool, execUp: bool)
    requires OnlyFrom(q.catalog, q.fields, k) && (k == Operational || k == Execution)
    requires Route(q).target != TargetNone
    ensures FallbackDecision(Route(q), q.consistency == Strong, cause, opsUp, execUp) == None
  {
    PinIsKept(q, k);
  }

  /** A call-time fallback reads one available source other than the one that failed, and is final. */
  lemma FallbackIsOneHop(d: Decision, strong: bool, cause: Code, opsUp: bool, execUp: bool,
                         strong': bool, cause': Code, opsUp': bool, execUp': bool)
    requires FallbackDecision(d, strong, cause, opsUp, execUp).Some?
    ensures var fb := FallbackDecision(d, strong, cause, opsUp, execUp).value;
      && SourceUnusable(cause) && !strong
      && fb.primary != d.primary && fb.target == TargetFor(fb.primary)
      && ((fb.primary == Operational && opsUp) || (fb.primary == Execution && execUp))
      && fb.Requires(fb.primary)
      && FallbackDecision(fb, strong', cause', opsUp', execUp') == None
  {
  }

  /**
  Over routing and failure together, a call-time fallback exists exactly when the
  decision read one source alone, the configured fallback is the other one and up,
  no field pins the request, and neither the cause nor the consistency forbids it.
  */
  lemma FallbackIsTheOtherSource(q: Query, cause: Code, opsUp: bool, execUp: bool)
    ensures var fb := FallbackDecision(Route(q), q.consistency == Strong, cause, opsUp, execUp);
            (Route(q).target != TargetNone && fb.Some?)
            <==> && cause in {UpstreamTimeout, UpstreamUnavailable, UpstreamInvalidPayload, SchemaVersionMismatch}
                 && q.consistency != Strong
                 && !Pins(q) && Exclusive(q.catalog, q.fields) != Some(Execution)
                 && match q.rule.fallback.Parse()
                    case Operational => opsUp && Route(q).target == TargetExecution
                    case Execution => execUp && Route(q).target == TargetOperational
                    case _ => false
  {
    if Route(q).target == TargetNone {
      return;
    }
    DestinationExactly(q);
    PublishedFallback(q);
  }

  /** A decision that reads something carries the configured fallback unless fields pin it. */
  lemma PublishedFallback(q: Query)
    requires Route(q).target != TargetNone
    ensures Route(q).fallback == if Pins(q) || Exclusive(q.catalog, q.fields) == Some(Execution) then NoSource
                                 else q.rule.fallback.Parse()
  {
    var n := Decider(q, 0);
    assert n <= 2 || !Guard(2, q);
    assert n <= 3 || !Guard(3, q);
  }

  // -------------------------------------------------------------------------
  // Where every request goes
  // -------------------------------------------------------------------------

  /** A probe was wanted, possible, and answered. */
  predicate Probed(q: Query) {
    q.rule.ttl > 0 && q.defs.probesEnabled && q.hasProber && q.opsUp && q.probe.Some?
  }

  /** The operational copy counts as past its TTL: it has none, or a probe said so. */
  predicate PastTTL(q: Query) {
    q.rule.ttl <= 0 || (Probed(q) && q.probe.value.state == Stale)
  }

  predicate NoVerdict(q: Query) {
    q.rule.ttl > 0 && (Probed(q) ==> q.probe.value.state == Unknown)
  }

  /** Policy permits stale operational data of the age measured. */
  predicate Permitted(q: Query) {
    var ceiling := if q.rule.maxStale > 0 then q.rule.maxStale else q.defs.maxStale;
    && (q.rule.allowStale || q.defs.allowStale)
    && (ceiling <= 0 || (Probed(q) && q.probe.value.age <= ceiling))
  }

  /** Freshness decides the request: it prefers the operational source, which is up. */
  ghost predicate AsksFreshness(q: Query) {
    && Unblocked(q) && !SpansBoth(q) && q.consistency != Strong
    && q.opsUp && (q.rule.preferred == Both ==> q.execUp)
    && (Pins(q) || q.rule.preferred.Parse() == Operational)
  }

  /** The preferred source, or one of two, is down. */
  ghost predicate PreferenceDown(q: Query) {
    && Unblocked(q) && !SpansBoth(q) && q.consistency != Strong
    && if q.rule.preferred == Both then !(q.opsUp && q.execUp)
       else !Pins(q) && q.rule.preferred.Parse() != NoSource && !Up(q, q.rule.preferred.Parse())
  }

  ghost predicate FallbackUp(q: Query) {
    !Pins(q) && Up(q, q.rule.fallback.Parse())
  }

  /** The request is answered by the execution source alone. */
  ghost predicate GoesToExecution(q: Query) {
    && q.hasTenant && q.execUp
    && (|| Exclusive(q.catalog, q.fields) == Some(Execution)
        || (Unblocked(q) && SpansBoth(q) && !q.opsUp)
        || (&& Unblocked(q) && !SpansBoth(q) && !Pins(q)
            && if q.consistency == Strong then q.rule.preferred.Parse() == Execution
               else
                 || q.rule.preferred == Canonical(Execution)
                 || (q.rule.preferred == Both && !q.opsUp)
                 || (PreferenceDown(q) && q.rule.preferred != Both && q.rule.fallback.Parse() == Execution)
                 || (AsksFreshness(q) && PastTTL(q) && q.rule.fallback.Parse() == Execution)
                 || (AsksFreshness(q) && NoVerdict(q) && q.defs.onUnknown.Parse() in {Execution, CacheSource})))
  }

  /** Both sources are read. */
  ghost predicate GoesToBoth(q: Query) {
    && q.hasTenant && q.opsUp && q.execUp
    && (SpansBoth(q)
        || (!Pins(q) && Exclusive(q.catalog, q.fields) != Some(Execution)
            && q.consistency != Strong && q.rule.preferred == Both))
  }

  /** No source is read. */
  ghost predicate Refused(q: Query) {
    || !q.hasTenant || (!q.opsUp && !q.execUp)
    || (Exclusive(q.catalog, q.fields) == Some(Execution) && !q.execUp)
    || (Pins(q) && !q.opsUp)
    || (&& Unblocked(q) && !SpansBoth(q) && !Pins(q) && q.consistency == Strong
        && !Up(q, if q.rule.preferred.Parse() == NoSource then Operational else q.rule.preferred.Parse()))
    || (PreferenceDown(q) && q.rule.preferred != Both && !FallbackUp(q))
    || (AsksFreshness(q) && PastTTL(q) && !FallbackUp(q) && !Permitted(q))
    || (AsksFreshness(q) && NoVerdict(q) && RefusesToGuess(q))
  }

  /** The configured guess is to fail, or names no source that is up. */
  ghost predicate RefusesToGuess(q: Query) {
    || q.defs.onUnknown in {Canonical(NoSource), Alias(NoSource)}
    || (!Pins(q) && q.defs.onUnknown.Parse() == CacheSource && !q.execUp)
  }

  /** The reason for it. */
  ghost function Reason(q: Query): RuleId {
    if !q.hasTenant then TenantMissing
    else if !q.opsUp && !q.execUp then BothUnavailable
    else if Exclusive(q.catalog, q.fields) == Some(Execution) then FieldsExecOnly
    else if Pins(q) && !q.opsUp then FieldsOpsOnly
    else if SpansBoth(q) then FieldsSpanBoth
    else if q.consistency == Strong then StrongConsistency
    else if PreferenceDown(q) then PrimaryUnavailable
    else if !AsksFreshness(q) then DefaultPreferred
    else if PastTTL(q) then TTLStale
    else if NoVerdict(q) then TTLUnknown
    else TTLFresh
  }

  ghost predicate GoesAsStated(q: Query) {
    && (Route(q).target == TargetNone <==> Refused(q))
    && (Route(q).target == TargetExecution <==> GoesToExecution(q))
    && (Route(q).target == TargetBoth <==> GoesToBoth(q))
    && Route(q).rule == Reason(q)
    && Route(q).primary == match Route(q).target
                           case TargetNone => NoSource
                           case TargetExecution => Execution
                           case _ => Operational
  }

  /** The first four rules. */
  lemma BlockedDestination(q: Query)
    requires !Unblocked(q)
    ensures Decider(q, 0) <= 3 && GoesAsStated(q)
  {
  }

  lemma SpanDestination(q: Query)
    requires Unblocked(q) && SpansBoth(q)
    ensures Decider(q, 0) == 4 && GoesAsStated(q)
  {
  }

  lemma StrongDestination(q: Query)
    requires Unblocked(q) && !SpansBoth(q) && q.consistency == Strong
    ensures Decider(q, 0) == 5 && GoesAsStated(q)
  {
  }

  /** The rule for a preference that is down. */
  lemma DownDestination(q: Query)
    requires PreferenceDown(q)
    ensures Decider(q, 0) == 6 && GoesAsStated(q)
  {
  }

  lemma StaleDestination(q: Query)
    requires AsksFreshness(q) && PastTTL(q)
    ensures Decider(q, 0) == 8 && GoesAsStated(q)
  {
  }

  lemma UnjudgedDestination(q: Query)
    requires AsksFreshness(q) && NoVerdict(q)
    ensures Decider(q, 0) == 9 && GoesAsStated(q)
  {
  }

  /** The freshness rules. */
  lemma JudgedDestination(q: Query)
    requires AsksFreshness(q)
    ensures 7 <= Decider(q, 0) <= 9 && GoesAsStated(q)
  {
    if PastTTL(q) {
      StaleDestination(q);
    } else if NoVerdict(q) {
      UnjudgedDestination(q);
    }
  }

  /** The last rule. */
  lemma LastDestination(q: Query)
    requires Unblocked(q) && !SpansBoth(q) && q.consistency != Strong && !PreferenceDown(q) && !AsksFreshness(q)
    ensures Decider(q, 0) == 10 && GoesAsStated(q)
  {
  }

  /**
  The destination of every request, under any rule, in terms of the request alone.
  What is neither refused nor sent to the execution source or both goes to the
  operational source. The rule it names is the first reason that applies.
  */
  lemma DestinationExactly(q: Query)
    ensures Route(q).target == TargetNone <==> Refused(q)
    ensures Route(q).target == TargetExecution <==> GoesToExecution(q)
    ensures Route(q).target == TargetBoth <==> GoesToBoth(q)
    ensures Route(q).rule == Reason(q)
    ensures Route(q).primary == match Route(q).target
                                case TargetNone => NoSource
                                case TargetExecution => Execution
                                case _ => Operational
  {
    if !Unblocked(q) {
      BlockedDestination(q);
    } else if SpansBoth(q) {
      SpanDestination(q);
    } else if q.consistency == Strong {
      StrongDestination(q);
    } else if PreferenceDown(q) {
      DownDestination(q);
    } else if AsksFreshness(q) {
      JudgedDestination(q);
    } else {
      LastDestination(q);
    }
  }

  /** A stale judgement with another source configured and up is routed to that source. */
  lemma StaleGoesToTheFallback(q: Query)
    requires AsksFreshness(q) && PastTTL(q) && FallbackUp(q)
    ensures Route(q).target == TargetFor(q.rule.fallback.Parse())
  {
    DestinationExactly(q);
  }

  /** What a decision publishes of freshness: the probe's verdict, or none with its cause, if it was asked for. */
  lemma FreshnessIsPublished(q: Query)
    ensures Route(q).freshness.Some? <==> AsksFreshness(q)
    ensures AsksFreshness(q) ==>
              Route(q).freshness.value ==
              if Probed(q) then q.probe.value
              else if q.rule.ttl <= 0 then Freshness(Stale, 0, 0, None, q.now, Operational, false, 0)
              else Freshness(Unknown, 0, q.rule.ttl, None, q.now, Operational, false, 0)
    ensures Route(q).probeFailed <==>
              AsksFreshness(q) && q.rule.ttl > 0 && q.defs.probesEnabled && q.hasProber && q.probe.None?
  {
    DestinationExactly(q);
    if AsksFreshness(q) {
      JudgedDestination(q);
    }
  }

  /** The ceiling a decision publishes is the one the rules apply exactly for a rule whose own is not negative. */
  lemma PublishedCeilingExactly(q: Query)
    ensures Route(q).maxStale == Ceiling(q) <==> q.rule.maxStale >= 0 || q.rule.maxStale == q.defs.maxStale
  {
    PolicyIsPublished(q);
  }

  /** What a decision publishes of the policy it was taken under. */
  lemma PolicyIsPublished(q: Query)
    ensures var d := Route(q);
      && d.operationalTTL == q.rule.ttl && d.cacheTTL == q.rule.cacheTTL && d.consistency == q.consistency
      && d.requiredSources == q.rule.requiredSources
      && (d.allowStale <==> q.consistency != Strong && (q.rule.allowStale || q.defs.allowStale))
      && d.maxStale == (if q.rule.maxStale != 0 then q.rule.maxStale else q.defs.maxStale)
      && (d.fallback != NoSource ==> d.fallback == q.rule.fallback.Parse())
  {
  }

  // -------------------------------------------------------------------------
  // Staleness and strong consistency
  // -------------------------------------------------------------------------

  /**
  The staleness ceiling. Unless the configured fallback is the operational source
  itself, a decision of the stale rule to read it implies the published allowance
  and, where a ceiling is in force, a measured age within it.
  */
  lemma StaleReadIsPermitted(q: Query)
    requires Route(q).rule == TTLStale && Route(q).target == TargetOperational
    requires Fallback(q) != Operational
    ensures var d := Route(q);
      && d.allowStale
      && (Ceiling(q) > 0 ==> q.rule.ttl > 0 && d.freshness.Some? && d.freshness.value.age <= Ceiling(q))
      && (q.rule.maxStale >= 0 ==> d.maxStale == Ceiling(q))
      && d.freshness.Some? && d.freshness.value.state == Stale
  {
    StaleRuleNumber(q);
  }

  /** Only rule number 8 decides under the stale rule's name. */
  lemma StaleRuleNumber(q: Query)
    requires Route(q).rule == TTLStale
    ensures Decider(q, 0) == 8 && Preferred(q) == Operational
  {
  }

  /** The decision rests on a measured age of the operational copy that respects the ceiling. */
  predicate Vouched(q: Query, d: Decision) {
    && d.freshness.Some? && q.rule.ttl > 0 && d.freshness.value.state != Unknown
    && d.freshness.value.age <= Ceiling(q)
  }

  /** The request reads the operational source by a rule that looks at no age. */
  ghost predicate ReadsUnjudged(q: Query) {
    if SpansBoth(q) then q.opsUp
    else if q.consistency == Strong then q.opsUp && (Preferred(q) == NoSource || Preferred(q) == Operational)
    else if q.rule.preferred == Both then q.opsUp && (!q.execUp || !Pins(q))
    else if Preferred(q) == NoSource || (Preferred(q) == Execution && q.execUp) then Unrecognised(q.rule.preferred)
    else q.opsUp && !Up(q, Preferred(q)) && Fallback(q) == Operational
  }

  /** An unknown freshness is taken as leave to read the operational source. */
  ghost predicate GuessesOperational(q: Query) {
    match q.defs.onUnknown
    case Both => true
    case Unparseable => true
    case named => named.kind != NoSource
                  && (Pins(q) || named.kind == Operational || (named.kind == Execution && !q.execUp))
  }

  /** The request reads the operational source although the age it judged does not vouch for it. */
  ghost predicate ReadsDespiteAge(q: Query) {
    && !SpansBoth(q) && q.consistency != Strong
    && Preferred(q) == Operational && q.opsUp && (q.rule.preferred == Both ==> q.execUp)
    && match Judgement(q).state
       case Fresh => Judgement(q).age > Ceiling(q)
       case Stale => Fallback(q) == Operational && (q.rule.ttl <= 0 || Judgement(q).age > Ceiling(q))
       case Unknown => GuessesOperational(q)
  }

  /**
  The staleness ceiling over the whole chain: with a ceiling in force, a decision
  reads the operational source without a measured age within it exactly when a rule
  that looks at no age reads it, or the age it judged is too high or unknown and
  the rule reads it all the same.
  */
  lemma CeilingBypassExactly(q: Query)
    requires Ceiling(q) > 0
    ensures (Route(q).target.Includes(Operational) && !Vouched(q, Route(q)))
            <==> Unblocked(q) && (ReadsUnjudged(q) || ReadsDespiteAge(q))
  {
    var n := Decider(q, 0);
    assert n <= 3 || (!Guard(0, q) && !Guard(1, q) && !Guard(2, q) && !Guard(3, q));
    assert n <= 4 || !Guard(4, q);
    assert n <= 5 || !Guard(5, q);
    assert n <= 6 || !Guard(6, q);
    if Preferred(q) == Operational {
      OperationalIsJudged(q);
    }
  }

  /** The request first reads the execution source alone, with the operational one behind it. */
  ghost predicate MayFallToOperational(q: Query) {
    && Unblocked(q) && !Pins(q) && q.consistency != Strong && q.rule.fallback.Parse() == Operational
    && if SpansBoth(q) || q.rule.preferred == Both then !q.opsUp
       else if Preferred(q) == Operational then
         && q.opsUp && q.execUp && Judgement(q).state == Unknown
         && q.defs.onUnknown.Parse() != NoSource && q.defs.onUnknown.Parse() != Operational
       else q.rule.preferred == Canonical(Execution) && q.execUp
  }

  lemma FirstReadsExecution(q: Query)
    requires q.rule.fallback.Parse() == Operational && q.consistency != Strong
    requires !Pins(q) && Exclusive(q.catalog, q.fields) != Some(Execution)
    ensures Route(q).target == TargetExecution <==> MayFallToOperational(q)
    ensures Route(q).target == TargetExecution ==> !Vouched(q, Route(q))
  {
    var n := Decider(q, 0);
    assert n <= 1 || (!Guard(0, q) && !Guard(1, q));
    assert n <= 4 || !Guard(4, q);
    assert n <= 6 || !Guard(6, q);
    if Preferred(q) == Operational {
      OperationalIsJudged(q);
    }
  }

  /**
  And over a failure at call time: which requests can then fall to the operational
  source, exactly. None of those reads is vouched for, whatever the ceiling.
  */
  lemma CeilingAtCallTime(q: Query, cause: Code, opsUp: bool, execUp: bool)
    ensures var fb := FallbackDecision(Route(q), q.consistency == Strong, cause, opsUp, execUp);
            var falls := Route(q).target != TargetNone && fb.Some? && fb.value.target == TargetOperational;
      && (falls <==> MayFallToOperational(q) && SourceUnusable(cause) && opsUp)
      && (falls ==> !Vouched(q, fb.value))
  {
    var d := Route(q);
    FallbackIsTheOtherSource(q, cause, opsUp, execUp);
    assert d.fallback == Operational || d.fallback == NoSource || d.fallback == q.rule.fallback.Parse();
    if q.rule.fallback.Parse() == Operational && q.consistency != Strong
       && !Pins(q) && Exclusive(q.catalog, q.fields) != Some(Execution) {
      FirstReadsExecution(q);
    }
  }

  /** A request under a validated rule with a ceiling of 20 and no leave to serve stale data, whose probe fails. */
  const UNPROBED := Query(
    true, [], Eventual, true, true, 100,
    Rule(Canonical(Operational), Canonical(NoSource), 10, 5, false, 20, map[], None),
    Defaults(Canonical(Operational), false, 0, true), map[], true, None)

  /** It is sent to the operational source at an age nobody measured. */
  lemma CeilingBypassed()
    ensures Validated(UNPROBED.rule) && Ceiling(UNPROBED) == 20 && !AllowStale(UNPROBED)
    ensures Route(UNPROBED).target == TargetOperational && Route(UNPROBED).rule == TTLUnknown
    ensures !Vouched(UNPROBED, Route(UNPROBED))
  {
    var q := UNPROBED;
    assert Judgement(q).state == Unknown;
    assert !Pins(q) && !SpansBoth(q);
    CeilingBypassExactly(q);
    OperationalIsJudged(q);
  }

  /**
  A strongly consistent request issues no probe, is published as not allowing
  stale data, and has no call-time fallback.
  */
  lemma StrongIsLive(q: Query, cause: Code, opsUp: bool, execUp: bool)
    requires q.consistency == Strong
    ensures ProbesIssued(q) == 0 && Route(q).freshness.None?
    ensures !Route(q).allowStale && Route(q).rule !in {TTLFresh, TTLStale, TTLUnknown}
    ensures FallbackDecision(Route(q), true, cause, opsUp, execUp) == None
  {
    assert Guard(5, q);
    assert Decider(q, 0) <= 5;
  }

  /** No request probes twice, and one that does is bound to read by the verdict. */
  lemma AtMostOneProbe(q: Query)
    ensures ProbesIssued(q) <= 1
    ensures ProbesIssued(q) == 1 ==>
              && q.opsUp && q.rule.ttl > 0 && q.consistency != Strong
              && Route(q).rule in {TTLFresh, TTLStale, TTLUnknown}
  {
    var n := Decider(q, 0);
    assert n <= 5 || !Guard(5, q);
    if Preferred(q) == Operational {
      OperationalIsJudged(q);
    }
  }

  /** Fresh data spares the execution source: the read is operational alone. */
  lemma FreshReadsOperational(q: Query)
    requires Route(q).rule == TTLFresh
    ensures Route(q).target == TargetOperational && Route(q).freshness.Some? && Route(q).freshness.value.state == Fresh
    ensures q.rule.ttl > 0 && WouldProbe(q) && q.probe.Some?
  {
  }

  // -------------------------------------------------------------------------
  // Tenant overlays
  // -------------------------------------------------------------------------

  /** What `validateRule` demands of the durations and flags. */
  predicate Consistent(r: Rule) {
    && r.ttl >= 0 && r.cacheTTL >= 0
    && (r.ttl > 0 ==> r.cacheTTL <= r.ttl)
    && (r.allowStale ==> r.maxStale > 0)
    && (r.maxStale > 0 && r.ttl > 0 ==> r.ttl <= r.maxStale)
    && !(r.consistency == Some(Strong) && r.allowStale)
  }

  /** A tenant's override of one rule; absent names and zero durations fall through. */
  datatype Override = Override(
    preferred: Option<SourceName>, fallback: Option<SourceName>, ttl: int, cacheTTL: int,
    allowStale: bool, maxStale: int, requiredSources: Option<map<SourceKind, bool>>,
    consistency: Option<Consistency>)

  /** What `validatePartialRule` demands of an override taken by itself. */
  predicate ValidatedPart(o: Override) {
    && (o.preferred.Some? ==> ValidPreference(o.preferred.value))
    && (o.fallback.Some? ==> ValidFallback(o.fallback.value))
    && o.ttl >= 0 && o.cacheTTL >= 0
    && (o.ttl > 0 ==> o.cacheTTL <= o.ttl)
    && (o.maxStale > 0 && o.ttl > 0 ==> o.ttl <= o.maxStale)
    && !(o.consistency == Some(Strong) && o.allowStale)
  }

  function Overlay(base: Rule, o: Override): Rule {
    Rule(if o.preferred.Some? then o.preferred.value else base.preferred,
         if o.fallback.Some? then o.fallback.value else base.fallback,
         if o.ttl != 0 then o.ttl else base.ttl,
         if o.cacheTTL != 0 then o.cacheTTL else base.cacheTTL,
         if o.maxStale != 0 then o.allowStale else base.allowStale,
         if o.maxStale != 0 then o.maxStale else base.maxStale,
         if o.requiredSources.Some? then o.requiredSources.value else base.requiredSources,
         if o.consistency.Some? then o.consistency else base.consistency)
  }

  /** One side of a pair that the validator compares is overridden, and the other side no longer fits it. */
  predicate Clashes(base: Rule, o: Override) {
    || (o.ttl > 0 && o.cacheTTL == 0 && base.cacheTTL > o.ttl)
    || (o.ttl == 0 && base.ttl > 0 && o.cacheTTL > base.ttl)
    || (o.ttl > 0 && o.maxStale == 0 && 0 < base.maxStale < o.ttl)
    || (o.ttl == 0 && 0 < o.maxStale < base.ttl)
    || (o.allowStale && o.maxStale < 0)
    || (o.consistency == Some(Strong) && o.maxStale == 0 && base.allowStale)
    || (o.consistency.None? && base.consistency == Some(Strong) && o.maxStale != 0 && o.allowStale)
  }

  /**
  A tenant's overlay of a validated rule: the names the chain's safety rests on stay
  validated, but the merged rule is not validated again, and it would fail exactly
  when override and base clash.
  */
  lemma OverlayExactly(base: Rule, o: Override)
    requires Validated(base) && Consistent(base) && ValidatedPart(o)
    ensures Validated(Overlay(base, o))
    ensures Consistent(Overlay(base, o)) <==> !Clashes(base, o)
  {
  }

  /** A tenant that shortens a TTL to 2 under a cache lifetime of 5 gets a rule the validator would refuse. */
  lemma OverlayBreaksARule()
    ensures var base := UNPROBED.rule;
            var o := Override(None, None, 2, 0, false, 0, None, None);
      && Validated(base) && Consistent(base) && ValidatedPart(o)
      && Overlay(base, o).cacheTTL > Overlay(base, o).ttl > 0 && !Consistent(Overlay(base, o))
  {
  }
}
