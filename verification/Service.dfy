/**
The degradation ladder and the response envelope of internal/application/service.go:
a live load describes itself as it is built, a cached answer carries that description
with it, and the stale rung adds to it.
*/
module ServiceModel {
  import opened Wrappers
  import opened Domain
  import opened FieldCatalog
  import opened AggregationModel
  import R = RouterModel
  import T = Tiers

  /** A partial or degraded answer explains itself. */
  predicate Honest(e: T.Entry) {
    e.partial || e.degraded ==> e.warnings != []
  }

  // -------------------------------------------------------------------------
  // Describing a live load
  // -------------------------------------------------------------------------

  function OtherThan(k: SourceKind): SourceKind {
    match k
    case Operational => Execution
    case Execution => Operational
    case _ => NoSource
  }

  /** Only the operational source has a freshness to report. */
  function ReportedFreshness(input: Inputs, ttl: int, now: int): Freshness {
    if input.operational.Some? then
      input.freshness.(ttl := if input.freshness.ttl == 0 then ttl else input.freshness.ttl, source := Operational)
    else Freshness(Unknown, 0, ttl, None, now, Execution, false, 0)
  }

  predicate Supplied(t: R.Target, suppliers: seq<SourceKind>) {
    exists k <- suppliers :: t.Includes(k)
  }

  /** Some requested field is known, and the target includes none of its suppliers. */
  ghost predicate MissesFields(t: R.Target, c: Catalog, fields: seq<Field>) {
    exists f <- fields :: Suppliers(c, f) != [] && !Supplied(t, Suppliers(c, f))
  }

  method TargetMissesRequiredFields(t: R.Target, c: Catalog, fields: seq<Field>) returns (misses: bool)
    ensures misses == MissesFields(t, c, fields)
  {
    for i := 0 to |fields|
      invariant forall f <- fields[..i] :: Suppliers(c, f) == [] || Supplied(t, Suppliers(c, f))
    {
      assert fields[..i + 1] == fields[..i] + [fields[i]];
      var suppliers := Suppliers(c, fields[i]);
      var satisfiable := false;
      for j := 0 to |suppliers|
        invariant satisfiable <==> exists k <- suppliers[..j] :: t.Includes(k)
      {
        assert suppliers[..j + 1] == suppliers[..j] + [suppliers[j]];
        if t.Includes(suppliers[j]) {
          satisfiable := true;
        }
      }
      assert suppliers[..|suppliers|] == suppliers;
      if |suppliers| > 0 && !satisfiable {
        assert fields[i] in fields;
        return true;
      }
    }
    assert fields[..|fields|] == fields;
    return false;
  }

  /** A single source misses the known fields it is not listed for, and both together those neither is. */
  lemma MissesExactly(t: R.Target, c: Catalog, fields: seq<Field>)
    ensures MissesFields(t, c, fields) <==>
            exists f <- fields :: && f in c && c[f] != []
                                  && (t in {R.TargetOperational, R.TargetBoth} ==> Operational !in c[f])
                                  && (t in {R.TargetExecution, R.TargetBoth} ==> Execution !in c[f])
  {
    forall f <- fields | f in c
      ensures Supplied(t, c[f]) <==> || (t in {R.TargetOperational, R.TargetBoth} && Operational in c[f])
                                     || (t in {R.TargetExecution, R.TargetBoth} && Execution in c[f])
    {
    }
  }

  /** What a load has in hand when it describes its answer. */
  datatype Load = Load(
    decision: R.Decision,
    failedOver: Option<SourceKind>,  // the source that failed, after a call-time fallback
    input: Inputs,
    fan: FanOutResult,
    merged: Merged,
    fields: seq<Field>,
    catalog: Catalog,
    complete: bool,                  // every requested field was populated
    payload: string,
    now: int)

  ghost predicate Summed(f: FanOutResult) {
    f.partial <==> exists i :: 0 <= i < |f.results| && Omitted(f.results[i])
  }

  predicate Extends(ws: seq<Warning>, more: seq<Warning>) {
    |ws| <= |more| && forall w <- ws :: w in more
  }

  /** A fallback, at routing time or at call time, names the source that failed. */
  method FailureWarnings(d: R.Decision, failedOver: Option<SourceKind>) returns (ws: seq<Warning>, fellBack: bool)
    ensures fellBack <==> d.rule == R.PrimaryUnavailable || failedOver.Some?
    ensures fellBack ==> ws != []
    ensures failedOver.Some? ==> Warning(SourceUnavailable, failedOver.value) in ws
    ensures d.rule == R.PrimaryUnavailable ==> Warning(SourceUnavailable, OtherThan(d.primary)) in ws
  {
    ws, fellBack := [], false;
    if d.rule == R.PrimaryUnavailable {
      fellBack := true;
      ws := AddWarning(ws, Warning(SourceUnavailable, OtherThan(d.primary)));
    }
    if failedOver.Some? {
      fellBack := true;
      ws := AddWarning(ws, Warning(SourceUnavailable, failedOver.value));
    }
  }

  method SourceWarnings(l: Load, before: seq<Warning>) returns (ws: seq<Warning>)
    requires Summed(l.fan)
    ensures Extends(before, ws) && (l.fan.partial ==> ws != [])
    ensures forall w <- Warnings(l.fan.results) :: w in ws
    ensures forall w <- l.merged.warnings :: w in ws
  {
    var fan := WarningsOf(l.fan.results);
    PartialIffWarned(l.fan.results);
    var some := AddWarnings(before, fan);
    ws := AddWarnings(some, l.merged.warnings);
    if l.fan.partial {
      assert fan[0] in some;
    }
  }

  method FreshnessWarnings(f: Freshness, before: seq<Warning>) returns (ws: seq<Warning>)
    ensures Extends(before, ws)
    ensures f.state == Stale ==> Warning(StaleData, Operational) in ws
    ensures f.skewCorrected ==> Warning(ClockSkew, Operational) in ws
  {
    ws := before;
    if f.state == Stale {
      ws := AddWarning(ws, Warning(StaleData, Operational));
    }
    if f.skewCorrected {
      ws := AddWarning(ws, Warning(ClockSkew, Operational));
    }
  }

  method FieldWarnings(l: Load, before: seq<Warning>) returns (ws: seq<Warning>, partial: bool)
    ensures Extends(before, ws)
    ensures partial <==> l.fan.partial || MissesFields(l.decision.target, l.catalog, l.fields)
    ensures (partial && !l.fan.partial) || (!l.complete && !partial) ==> Warning(PartialData, NoSource) in ws
  {
    ws, partial := before, l.fan.partial;
    if !partial {
      var misses := TargetMissesRequiredFields(l.decision.target, l.catalog, l.fields);
      if misses {
        partial := true;
        ws := AddWarning(ws, Warning(PartialData, NoSource));
      }
    }
    if !l.complete && !partial {
      ws := AddWarning(ws, Warning(PartialData, NoSource));
    }
  }

  /** Builds the entry of a successful load, flag by flag and warning by warning. */
  method Describe(l: Load) returns (e: T.Entry)
    requires Summed(l.fan)
    ensures e.freshness == ReportedFreshness(l.input, l.decision.operationalTTL, l.now)
    ensures e.partial <==> l.fan.partial || MissesFields(l.decision.target, l.catalog, l.fields)
    ensures e.degraded <==>
              || (e.freshness.state == Stale && l.decision.target == R.TargetOperational)
              || l.decision.rule == R.PrimaryUnavailable || l.failedOver.Some?
    ensures Honest(e) && e.payload == l.payload && e.provenance == l.merged.provenance && !e.negative
    ensures l.failedOver.Some? ==> Warning(SourceUnavailable, l.failedOver.value) in e.warnings
    ensures l.decision.rule == R.PrimaryUnavailable ==>
              Warning(SourceUnavailable, OtherThan(l.decision.primary)) in e.warnings
    ensures e.freshness.state == Stale ==> Warning(StaleData, Operational) in e.warnings
    ensures e.freshness.skewCorrected ==> Warning(ClockSkew, Operational) in e.warnings
    ensures e.partial && !l.fan.partial ==> Warning(PartialData, NoSource) in e.warnings
    ensures !l.complete && !e.partial ==> Warning(PartialData, NoSource) in e.warnings
    ensures forall k :: k in e.sources <==> Contributes(l.input, l.decision, k)
    ensures forall w <- Warnings(l.fan.results) :: w in e.warnings
    ensures forall w <- l.merged.warnings :: w in e.warnings
  {
    var f := ReportedFreshness(l.input, l.decision.operationalTTL, l.now);
    var ws, fellBack := FailureWarnings(l.decision, l.failedOver);
    ws := SourceWarnings(l, ws);
    ws := FreshnessWarnings(f, ws);
    var partial;
    ws, partial := FieldWarnings(l, ws);
    var degraded := fellBack || (f.state == Stale && l.decision.target == R.TargetOperational);
    var sources := Contributing(l.decision, l.input);
    e := T.Entry(l.payload, l.now, 0, f, sources, l.merged.provenance, ws, partial, degraded, false, 0);
  }

  /** The source answered, or none did and it is the one that was asked first. */
  predicate Contributes(input: Inputs, d: R.Decision, k: SourceKind) {
    var executed := input.latest.Some? || input.history.Some?;
    match k
    case Operational => input.operational.Some? || (!executed && d.primary == Operational)
    case Execution => executed || (input.operational.None? && d.primary == Execution)
    case CacheSource => input.operational.None? && !executed && d.primary == CacheSource
    case NoSource => false
  }

  function Contributing(d: R.Decision, input: Inputs): seq<SourceKind> {
    var out := (if input.operational.Some? then [Operational] else [])
             + (if input.latest.Some? || input.history.Some? then [Execution] else []);
    if out == [] && d.primary != NoSource then [d.primary] else out
  }

  // -------------------------------------------------------------------------
  // The envelope
  // -------------------------------------------------------------------------

  datatype Meta = Meta(
    freshness: Freshness, sources: seq<SourceKind>, provenance: map<Field, SourceKind>,
    warnings: seq<Warning>, partial: bool, degraded: bool, hit: bool, staleServed: bool)

  /** Rebuilds the description of an answer from its entry, aged to now. */
  function EnvelopeFrom(e: T.Entry, hit: bool, now: int): Meta {
    var f := e.EffectiveFreshness(now);
    var aged := hit && f.state == Stale && !e.degraded;
    Meta(f, if hit && CacheSource !in e.sources then e.sources + [CacheSource] else e.sources, e.provenance,
         if aged then AddWarning(e.warnings, Warning(StaleData, NoSource)) else e.warnings,
         e.partial, e.degraded || aged, hit, false)
  }

  datatype StalePolicy = StalePolicy(configured: bool, allowStale: bool, maxStale: int)

  predicate StaleServable(strong: bool, p: StalePolicy, cause: Code, e: T.Entry, now: int) {
    && (SourceUnusable(cause) || cause.NoSourceAvailable?)
    && p.configured && p.allowStale && !strong
    && (p.maxStale <= 0 || e.EffectiveFreshness(now).age <= p.maxStale)
  }

  function StaleEnvelope(e: T.Entry, now: int): Meta {
    Meta(e.EffectiveFreshness(now), [CacheSource] + e.sources, e.provenance,
         AddWarning(e.warnings, Warning(StaleData, NoSource)), e.partial, true, true, true)
  }

  datatype Loaded = Answer(entry: T.Entry) | Error(code: Code)

  datatype Outcome = Success(meta: Meta, payload: string) | Failure(code: Code)

  /**
  One resource request: `cached` is what an ordinary cache read would find, `stale`
  what the stale-serve read would find, and `load` the outcome of the live load.
  */
  datatype Request = Request(
    strong: bool, cacheTTL: int, policy: StalePolicy,
    cached: Option<T.Entry>, load: Loaded, stale: Option<T.Entry>, now: int)

  function Deliver(e: T.Entry, hit: bool, now: int): Outcome {
    if e.negative then Failure(NotFound) else Success(EnvelopeFrom(e, hit, now), e.payload)
  }

  function ResourceView(q: Request): Outcome {
    if !q.strong && q.cacheTTL > 0 && q.cached.Some? then Deliver(q.cached.value, true, q.now)
    else
      match q.load
      case Answer(e) => Deliver(e, false, q.now)
      case Error(code) =>
        if q.stale.Some? && StaleServable(q.strong, q.policy, code, q.stale.value, q.now)
        then Success(StaleEnvelope(q.stale.value, q.now), q.stale.value.payload)
        else Failure(code)
  }

  // -------------------------------------------------------------------------
  // What holds of every answer
  // -------------------------------------------------------------------------

  /** Every envelope marked partial or degraded carries a warning, on every rung of the ladder. */
  lemma EnvelopeIsHonest(q: Request)
    requires q.cached.Some? ==> Honest(q.cached.value)
    requires q.load.Answer? ==> Honest(q.load.entry)
    requires q.stale.Some? ==> Honest(q.stale.value)
    requires ResourceView(q).Success?
    ensures var m := ResourceView(q).meta; m.partial || m.degraded ==> m.warnings != []
  {
    if q.load.Error? && q.stale.Some? {
      assert Warning(StaleData, NoSource) in StaleEnvelope(q.stale.value, q.now).warnings;
    }
    if q.cached.Some? {
      assert Warning(StaleData, NoSource) in AddWarning(q.cached.value.warnings, Warning(StaleData, NoSource));
    }
  }

  /** A strongly consistent request does not depend on the cache in any way. */
  lemma StrongIgnoresCache(q: Request, cached: Option<T.Entry>, stale: Option<T.Entry>)
    requires q.strong
    ensures ResourceView(q) == ResourceView(q.(cached := cached, stale := stale))
    ensures ResourceView(q).Success? ==> !ResourceView(q).meta.hit && !ResourceView(q).meta.staleServed
  {
  }

  // -------------------------------------------------------------------------
  // Through the cache
  // -------------------------------------------------------------------------

  /** The request's two cache reads go to the tiers as this history left them. */
  predicate Through(cfg: T.Config, calls: seq<T.Call>, k: string, q: Request) {
    var found := T.LayeredGet(cfg, T.Run(cfg, calls), k, q.now).1;
    q.cached == T.Served(found, q.now) && q.stale == T.ServedStale(found)
  }

  ghost predicate HonestWrites(calls: seq<T.Call>) {
    forall i :: 0 <= i < |calls| && calls[i].op.Write? ==> Honest(calls[i].op.entry)
  }

  lemma {:induction false} HonestStore(cfg: T.Config, calls: seq<T.Call>)
    requires HonestWrites(calls)
    ensures forall k <- T.RunAlone(cfg, calls) :: Honest(T.RunAlone(cfg, calls)[k].entry)
  {
    if calls != [] {
      var n := |calls| - 1;
      HonestStore(cfg, calls[..n]);
      var l2 := T.RunAlone(cfg, calls[..n]);
      var c := calls[n];
      assert T.RunAlone(cfg, calls) == T.NextAlone(cfg, l2, c);
      forall k <- T.NextAlone(cfg, l2, c) ensures Honest(T.NextAlone(cfg, l2, c)[k].entry) {
        if c.op.Write? && k == c.op.key {
          assert Honest(T.Stamped(cfg, c.op.entry, c.op.ttl, c.now));
        }
      }
    }
  }

  /**
  Honesty survives load, caching and stale serve: whatever honest answers were
  written, promoted, evicted or invalidated before, a request served at any later
  instant through the two tiers is honest too.
  */
  lemma HonestyIsEndToEnd(cfg: T.Config, calls: seq<T.Call>, k: string, q: Request)
    requires T.Validated(cfg) && T.Chronological(calls, q.now) && HonestWrites(calls)
    requires Through(cfg, calls, k, q)
    requires q.load.Answer? ==> Honest(q.load.entry)
    requires ResourceView(q).Success?
    ensures var m := ResourceView(q).meta; m.partial || m.degraded ==> m.warnings != []
  {
    T.L1IsTransparent(cfg, calls, k, q.now);
    HonestStore(cfg, calls);
    EnvelopeIsHonest(q);
  }

  /**
  The ladder in terms of the history alone. With the key's last write standing, a
  request is a hit exactly while that write's logical lifetime lasts, and is served
  stale exactly when it is not a hit, the live load failed for want of a source,
  policy and consistency allow it, and the write is within grace and ceiling.
  */
  lemma LadderExactly(cfg: T.Config, calls: seq<T.Call>, k: string, q: Request, i: nat)
    requires T.Validated(cfg) && T.Chronological(calls, q.now) && Through(cfg, calls, k, q)
    requires T.Standing(cfg, calls, k, i)
    ensures var e, out := calls[i].op.entry, ResourceView(q);
            var ttl, since := calls[i].op.ttl, q.now - calls[i].now;
            var life := if (e.degraded || e.partial) && 0 < cfg.negativeTTL < ttl then cfg.negativeTTL else ttl;
            var hit := !q.strong && q.cacheTTL > 0 && since < life;
      && (out.Success? && out.meta.hit && !out.meta.staleServed <==> hit && !e.negative)
      && (hit && e.negative ==> out == Failure(NotFound))
      && (out.Success? && out.meta.staleServed <==>
            && !hit && !e.negative && since <= life + cfg.staleGrace
            && q.load.Error?
            && q.load.code in {UpstreamTimeout, UpstreamUnavailable, UpstreamInvalidPayload, SchemaVersionMismatch,
                               NoSourceAvailable}
            && q.policy.configured && q.policy.allowStale && !q.strong
            && (q.policy.maxStale > 0 ==> e.freshness.age + since <= q.policy.maxStale))
  {
    T.ReadsFindTheLastWrite(cfg, calls, k, q.now, i);
  }

  /** An answer is what was written, aged by exactly the time since, with nothing it explained left out. */
  ghost predicate Carries(m: Meta, payload: string, e: T.Entry, since: int) {
    && payload == e.payload && m.partial == e.partial && m.provenance == e.provenance
    && (forall k :: k in m.sources <==> k in e.sources || k == CacheSource)
    && m.freshness.age == e.freshness.age + since
    && m.freshness.state == (if e.freshness.ttl <= 0 || e.freshness.state == Unknown then e.freshness.state
                             else if e.freshness.age + since <= e.freshness.ttl then Fresh else Stale)
    && (m.degraded <==> m.staleServed || e.degraded || m.freshness.state == Stale)
    && (forall w :: w in m.warnings <==>
          || w in e.warnings
          || (w == Warning(StaleData, NoSource) && (m.staleServed || (!e.degraded && m.degraded))))
  }

  /**
  No answer is laundered by the cache: whatever was read, promoted, evicted or
  invalidated, an answer that did not come from the live load is the key's last
  write, described as that write was, aged by exactly the time since it, and marked
  degraded and warned about if that made it stale. An answer from the live load is
  described by its entry alone.
  */
  lemma AnswersAreNotLaundered(cfg: T.Config, calls: seq<T.Call>, k: string, q: Request)
    requires T.Validated(cfg) && T.Chronological(calls, q.now) && Through(cfg, calls, k, q)
    requires ResourceView(q).Success?
    ensures var out := ResourceView(q);
      if out.meta.hit then
        exists i: nat ::
          T.Standing(cfg, calls, k, i) && Carries(out.meta, out.payload, calls[i].op.entry, q.now - calls[i].now)
      else
        && q.load.Answer? && out.payload == q.load.entry.payload && out.meta.sources == q.load.entry.sources
        && out.meta.partial == q.load.entry.partial && out.meta.degraded == q.load.entry.degraded
        && out.meta.warnings == q.load.entry.warnings && out.meta.provenance == q.load.entry.provenance
  {
    var out := ResourceView(q);
    if out.meta.hit {
      var i := T.ReadsFindNothingElse(cfg, calls, k, q.now);
      T.ReadsFindTheLastWrite(cfg, calls, k, q.now, i);
      assert Carries(out.meta, out.payload, calls[i].op.entry, q.now - calls[i].now);
    }
  }
}
