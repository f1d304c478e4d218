/**
The routing chain of internal/router/router.go: eleven ordered rules over a
shared, mutable evaluation state. `Guard` and `Outcome` are the reference, a table
of the rules in terms of the request alone; `EvalState` and `Select` are the code.
*/
module RouterModel {
  import opened Wrappers
  import opened Domain
  import opened FieldCatalog

  datatype Target = TargetNone | TargetOperational | TargetExecution | TargetBoth {
    predicate Includes(k: SourceKind) {
      match this
      case TargetNone => false
      case TargetOperational => k.Operational?
      case TargetExecution => k.Execution?
      case TargetBoth => k.Operational? || k.Execution?
    }
  }

  datatype RuleId =
    | TenantMissing | BothUnavailable | FieldsExecOnly | FieldsOpsOnly | FieldsSpanBoth | StrongConsistency
    | PrimaryUnavailable | TTLFresh | TTLStale | TTLUnknown | DefaultPreferred
    | Unconfigured | FallbackAfterFailure

  datatype Consistency = Eventual | Bounded | Strong

  /** A configured source name. An alias is a spelling that only the source parser recognises. */
  datatype SourceName = Canonical(kind: SourceKind) | Alias(kind: SourceKind) | Both | Unparseable {
    function Parse(): SourceKind {
      if Canonical? || Alias? then kind else NoSource
    }
  }

  datatype Rule = Rule(
    preferred: SourceName, fallback: SourceName, ttl: int, cacheTTL: int,
    allowStale: bool, maxStale: int, requiredSources: map<SourceKind, bool>,
    consistency: Option<Consistency>)  // what a request gets that asks for none

  datatype Defaults = Defaults(
    onUnknown: SourceName, allowStale: bool, maxStale: int, probesEnabled: bool)

  predicate ValidPreference(name: SourceName) {
    name == Both || name == Canonical(Operational) || name == Canonical(Execution)
  }

  predicate ValidFallback(name: SourceName) {
    name == Canonical(Operational) || name == Canonical(Execution) || name == Canonical(NoSource)
  }

  /** What `validateRule` demands of the names. */
  predicate Validated(r: Rule) {
    ValidPreference(r.preferred) && ValidFallback(r.fallback)
  }

  /**
  One request with everything the chain reads. `probe` is what a freshness probe
  would return if issued, none when it would fail.
  */
  datatype Query = Query(
    hasTenant: bool, fields: seq<Field>, consistency: Consistency,
    opsUp: bool, execUp: bool, now: int,
    rule: Rule, defs: Defaults, catalog: Catalog,
    hasProber: bool, probe: Option<Freshness>)

  datatype Choice = Choice(target: Target, rule: RuleId, primary: SourceKind)

  datatype Decision = Decision(
    target: Target, rule: RuleId, primary: SourceKind, fallback: SourceKind,
    operationalTTL: int, cacheTTL: int, allowStale: bool, maxStale: int,
    requiredSources: map<SourceKind, bool>,
    freshness: Option<Freshness>, probeFailed: bool, consistency: Consistency)
  {
    predicate Requires(k: SourceKind) {
      if k in requiredSources then requiredSources[k] else target.Includes(k)
    }
  }

  predicate Up(q: Query, k: SourceKind) {
    match k
    case Operational => q.opsUp
    case Execution => q.execUp
    case _ => false
  }

  function TargetFor(k: SourceKind): Target {
    match k
    case Operational => TargetOperational
    case Execution => TargetExecution
    case _ => TargetNone
  }

  predicate AllowStale(q: Query) {
    q.consistency != Strong && (q.rule.allowStale || q.defs.allowStale)
  }

  function Ceiling(q: Query): int {
    if q.rule.maxStale > 0 then q.rule.maxStale else q.defs.maxStale
  }

  // -------------------------------------------------------------------------
  // The reference table
  // -------------------------------------------------------------------------

  /** All requested fields are the operational source's alone. */
  ghost predicate Pins(q: Query) {
    Exclusive(q.catalog, q.fields) == Some(Operational)
  }

  ghost function Preferred(q: Query): SourceKind {
    if Pins(q) then Operational else q.rule.preferred.Parse()
  }

  ghost function Fallback(q: Query): SourceKind {
    if Pins(q) then NoSource else q.rule.fallback.Parse()
  }

  ghost predicate SpansBoth(q: Query) {
    Needed(q.catalog, q.fields, Operational) && Needed(q.catalog, q.fields, Execution)
  }

  predicate WouldProbe(q: Query) {
    q.rule.ttl > 0 && q.defs.probesEnabled && q.hasProber && q.opsUp
  }

  function Judgement(q: Query): Freshness {
    var blank := Freshness(Unknown, 0, q.rule.ttl, None, q.now, Operational, false, 0);
    if q.rule.ttl <= 0 then blank.(state := Stale, ttl := 0)
    else if WouldProbe(q) && q.probe.Some? then q.probe.value
    else blank
  }

  /** The age is known to respect the staleness ceiling, if there is one. */
  predicate WithinCeiling(q: Query) {
    Ceiling(q) <= 0 || (q.rule.ttl > 0 && Judgement(q).age <= Ceiling(q))
  }

  const RULES := 11

  /** Whether rule number `i` decides, no earlier one having done so. */
  ghost predicate Guard(i: nat, q: Query) {
    match i
    case 0 => !q.hasTenant
    case 1 => !q.opsUp && !q.execUp
    case 2 => Exclusive(q.catalog, q.fields) == Some(Execution)
    case 3 => Pins(q) && !q.opsUp
    case 4 => SpansBoth(q)
    case 5 => q.consistency == Strong
    case 6 => if q.rule.preferred == Both then !(q.opsUp && q.execUp)
              else Preferred(q) != NoSource && !Up(q, Preferred(q))
    case 7 => Preferred(q) == Operational && Judgement(q).state == Fresh
    case 8 => Preferred(q) == Operational && Judgement(q).state == Stale
    case 9 => Preferred(q) == Operational && Judgement(q).state == Unknown
    case _ => true
  }

  function Nothing(r: RuleId): Choice {
    Choice(TargetNone, r, NoSource)
  }

  function Only(k: SourceKind, r: RuleId): Choice {
    Choice(TargetFor(k), r, k)
  }

  ghost function UnknownChoice(q: Query): Choice {
    var named := q.defs.onUnknown;
    if (named.Canonical? || named.Alias?) && named.kind == NoSource then Nothing(TTLUnknown)
    else
      var first := if Pins(q) || named.Both? || named.Unparseable? then Operational else named.kind;
      var other := if first == Execution then Operational else Execution;
      if Up(q, first) then Only(first, TTLUnknown)
      else if !Pins(q) && Up(q, other) then Only(other, TTLUnknown)
      else Nothing(TTLUnknown)
  }

  ghost function Outcome(i: nat, q: Query): Choice {
    match i
    case 0 => Nothing(TenantMissing)
    case 1 => Nothing(BothUnavailable)
    case 2 => if q.execUp then Only(Execution, FieldsExecOnly) else Nothing(FieldsExecOnly)
    case 3 => Nothing(FieldsOpsOnly)
    case 4 => if q.opsUp && q.execUp then Choice(TargetBoth, FieldsSpanBoth, Operational)
              else if q.opsUp then Only(Operational, FieldsSpanBoth) else Only(Execution, FieldsSpanBoth)
    case 5 =>
      var k := if Preferred(q) == NoSource then Operational else Preferred(q);
      if Up(q, k) then Only(k, StrongConsistency) else Nothing(StrongConsistency)
    case 6 =>
      if Fallback(q) != NoSource && Up(q, Fallback(q)) then Only(Fallback(q), PrimaryUnavailable)
      else if q.rule.preferred == Both && q.opsUp then Only(Operational, PrimaryUnavailable)
      else if q.rule.preferred == Both && q.execUp then Only(Execution, PrimaryUnavailable)
      else Nothing(PrimaryUnavailable)
    case 7 => Only(Operational, TTLFresh)
    case 8 =>
      if Fallback(q) != NoSource && Up(q, Fallback(q)) then Only(Fallback(q), TTLStale)
      else if AllowStale(q) && WithinCeiling(q) && q.opsUp then Only(Operational, TTLStale)
      else Nothing(TTLStale)
    case 9 => UnknownChoice(q)
    case _ =>
      match q.rule.preferred
      case Both => Choice(TargetBoth, DefaultPreferred, Operational)
      case Canonical(Execution) => Only(Execution, DefaultPreferred)
      case _ => Only(Operational, DefaultPreferred)
  }

  /** The first rule at or after number `i` whose guard holds. */
  ghost function Decider(q: Query, i: nat): (n: nat)
    ensures i <= n && Guard(n, q) && (i < RULES ==> n < RULES)
    ensures forall j: nat :: i <= j < n ==> !Guard(j, q)
    decreases RULES - i
  {
    if i >= RULES || Guard(i, q) then i else Decider(q, i + 1)
  }

  /** Rules that decide after a pin publish no fallback. */
  ghost predicate PinnedAt(q: Query, n: nat) {
    (n == 2 && q.execUp) || (n > 3 && Pins(q))
  }

  /** Whether the deciding rule, or one before it, looked at freshness. */
  ghost predicate Judges(q: Query, n: nat) {
    n >= 7 && Preferred(q) == Operational
  }

  function Publish(q: Query, c: Choice, pinned: bool, f: Option<Freshness>, failed: bool): Decision {
    Decision(
      c.target, c.rule, c.primary,
      if pinned then NoSource else q.rule.fallback.Parse(),
      q.rule.ttl, q.rule.cacheTTL,
      AllowStale(q),
      if q.rule.maxStale == 0 then q.defs.maxStale else q.rule.maxStale,
      q.rule.requiredSources, f, failed, q.consistency)
  }

  ghost function Route(q: Query): Decision {
    var n := Decider(q, 0);
    Publish(q, Outcome(n, q), PinnedAt(q, n),
            if Judges(q, n) then Some(Judgement(q)) else None,
            Judges(q, n) && WouldProbe(q) && q.probe.None?)
  }

  /** Probes issued while routing. */
  ghost function ProbesIssued(q: Query): nat {
    if Judges(q, Decider(q, 0)) && WouldProbe(q) then 1 else 0
  }

  // -------------------------------------------------------------------------
  // The code
  // -------------------------------------------------------------------------

  class EvalState {
    const q: Query
    var preferred: SourceKind
    var fallback: SourceKind
    var pinned: bool
    var ageUnverified: bool
    var freshness: Option<Freshness>  // none until evaluated
    var probeFailed: bool
    ghost var probes: nat

    constructor (q: Query)
      ensures this.q == q && Ready(0)
    {
      this.q := q;
      preferred, fallback := q.rule.preferred.Parse(), q.rule.fallback.Parse();
      pinned, ageUnverified, freshness, probeFailed, probes := false, false, None, false, 0;
    }

    /** The memo is empty, or holds the one judgement of this request. */
    ghost predicate Memo()
      reads this
    {
      if freshness.None? then probes == 0 && !probeFailed
      else
        && freshness == Some(Judgement(q))
        && ageUnverified == (q.rule.ttl <= 0)
        && probeFailed == (WouldProbe(q) && q.probe.None?)
        && probes == if WouldProbe(q) then 1 else 0
    }

    /** The state as rule number `i` finds it. */
    ghost predicate Ready(i: nat)
      reads this
    {
      && Memo()
      && (i <= 7 ==> freshness.None?)
      && (7 < i && preferred == Operational ==> freshness.Some?)
      && (7 < i && preferred != Operational ==> freshness.None?)
      && (if i <= 3 then
            !pinned && preferred == q.rule.preferred.Parse() && fallback == q.rule.fallback.Parse()
          else
            pinned == Pins(q) && preferred == Preferred(q) && fallback == Fallback(q))
    }

    /** What a rule leaves behind: its decision, or the state for the next one. */
    ghost predicate Fired(i: nat, r: Option<Choice>)
      reads this
    {
      && Memo()
      && (r.Some? <==> Guard(i, q))
      && (r.Some? ==>
            && r.value == Outcome(i, q) && pinned == PinnedAt(q, i)
            && (freshness.Some? <==> Judges(q, i)))
      && (r.None? ==> Ready(i + 1))
    }

    method EvaluateFreshness() returns (f: Freshness)
      requires Memo()
      modifies this`freshness, this`ageUnverified, this`probeFailed, this`probes
      ensures Memo() && freshness == Some(f) && f == Judgement(q)
    {
      if freshness.Some? {
        return freshness.value;
      }
      f := Freshness(Unknown, 0, q.rule.ttl, None, q.now, Operational, false, 0);
      ageUnverified := false;
      if q.rule.ttl <= 0 {
        ageUnverified := true;
        f := f.(state := Stale, ttl := 0);
      } else if q.defs.probesEnabled && q.hasProber && q.opsUp {
        probes := probes + 1;
        if q.probe.None? {
          probeFailed := true;
        } else {
          f := q.probe.value;
        }
      }
      freshness := Some(f);
    }

    method TenantMissingRule() returns (r: Option<Choice>)
      requires Ready(0)
      ensures Fired(0, r)
    {
      r := if q.hasTenant then None else Some(Nothing(TenantMissing));
    }

    method BothUnavailableRule() returns (r: Option<Choice>)
      requires Ready(1)
      ensures Fired(1, r)
    {
      r := if q.opsUp || q.execUp then None else Some(Nothing(BothUnavailable));
    }

    method FieldsExecOnlyRule() returns (r: Option<Choice>)
      requires Ready(2)
      modifies this
      ensures Fired(2, r)
    {
      var only := ExclusiveTo(q.catalog, q.fields);
      if only != Some(Execution) {
        return None;
      }
      if !q.execUp {
        return Some(Nothing(FieldsExecOnly));
      }
      preferred, fallback, pinned := Execution, NoSource, true;
      r := Some(Only(Execution, FieldsExecOnly));
    }

    method FieldsOpsOnlyRule() returns (r: Option<Choice>)
      requires Ready(3)
      modifies this
      ensures Fired(3, r)
    {
      var only := ExclusiveTo(q.catalog, q.fields);
      if only != Some(Operational) {
        return None;
      }
      if !q.opsUp {
        return Some(Nothing(FieldsOpsOnly));
      }
      preferred, fallback, pinned := Operational, NoSource, true;
      r := None;
    }

    method FieldsSpanBothRule() returns (r: Option<Choice>)
      requires Ready(4)
      ensures Fired(4, r)
    {
      var needed := SourcesFor(q.catalog, q.fields);
      if !(Operational in needed && Execution in needed) {
        return None;
      }
      r := Some(if q.opsUp && q.execUp then Choice(TargetBoth, FieldsSpanBoth, Operational)
                else if q.opsUp then Only(Operational, FieldsSpanBoth)
                else Only(Execution, FieldsSpanBoth));
    }

    method StrongConsistencyRule() returns (r: Option<Choice>)
      requires Ready(5)
      ensures Fired(5, r)
    {
      if q.consistency != Strong {
        return None;
      }
      var k := if preferred == NoSource then Operational else preferred;
      r := Some(if Up(q, k) then Only(k, StrongConsistency) else Nothing(StrongConsistency));
    }

    method PrimaryUnavailableRule() returns (r: Option<Choice>)
      requires Ready(6)
      ensures Fired(6, r)
    {
      var prefersBoth := q.rule.preferred == Both;
      if preferred == NoSource && !prefersBoth {
        return None;
      }
      if prefersBoth {
        if q.opsUp && q.execUp {
          return None;
        }
      } else if Up(q, preferred) {
        return None;
      }
      if fallback != NoSource && Up(q, fallback) {
        return Some(Only(fallback, PrimaryUnavailable));
      }
      if prefersBoth {
        if q.opsUp {
          return Some(Only(Operational, PrimaryUnavailable));
        }
        if q.execUp {
          return Some(Only(Execution, PrimaryUnavailable));
        }
      }
      r := Some(Nothing(PrimaryUnavailable));
    }

    method TTLFreshRule() returns (r: Option<Choice>)
      requires Ready(7)
      modifies this
      ensures Fired(7, r)
    {
      if preferred != Operational {
        return None;
      }
      var ev := EvaluateFreshness();
      r := if ev.state != Fresh then None else Some(Only(Operational, TTLFresh));
    }

    method TTLStaleRule() returns (r: Option<Choice>)
      requires Ready(8)
      modifies this
      ensures Fired(8, r)
    {
      if preferred != Operational {
        return None;
      }
      var ev := EvaluateFreshness();
      if ev.state != Stale {
        return None;
      }
      var ceiling := if q.rule.maxStale > 0 then q.rule.maxStale else q.defs.maxStale;
      var beyondCeiling := ceiling > 0 && (ageUnverified || ev.age > ceiling);
      if fallback != NoSource && Up(q, fallback) {
        return Some(Only(fallback, TTLStale));
      }
      if AllowStale(q) && !beyondCeiling && q.opsUp {
        return Some(Only(Operational, TTLStale));
      }
      r := Some(Nothing(TTLStale));
    }

    method TTLUnknownRule() returns (r: Option<Choice>)
      requires Ready(9)
      modifies this
      ensures Fired(9, r)
    {
      if preferred != Operational {
        return None;
      }
      var ev := EvaluateFreshness();
      if ev.state != Unknown {
        return None;
      }
      var named := q.defs.onUnknown;
      var choice := Operational;
      if named.Canonical? || named.Alias? {
        if named.kind == NoSource {
          return Some(Nothing(TTLUnknown));
        }
        choice := named.kind;
      }
      if pinned && choice != preferred {
        choice := preferred;
      }
      if !Up(q, choice) {
        var other := if choice == Execution then Operational else Execution;
        if !pinned && Up(q, other) {
          choice := other;
        } else {
          return Some(Nothing(TTLUnknown));
        }
      }
      r := Some(Only(choice, TTLUnknown));
    }

    method DefaultPreferredRule() returns (r: Option<Choice>)
      requires Ready(10)
      ensures Fired(10, r)
    {
      match q.rule.preferred
      case Both => r := Some(Choice(TargetBoth, DefaultPreferred, Operational));
      case Canonical(Execution) => r := Some(Only(Execution, DefaultPreferred));
      case _ => r := Some(Only(Operational, DefaultPreferred));
    }

    /** Rule number `i` of the chain. */
    method Fire(i: nat) returns (r: Option<Choice>)
      requires i < RULES && Ready(i)
      modifies this
      ensures Fired(i, r)
    {
      match i
      case 0 => r := TenantMissingRule();
      case 1 => r := BothUnavailableRule();
      case 2 => r := FieldsExecOnlyRule();
      case 3 => r := FieldsOpsOnlyRule();
      case 4 => r := FieldsSpanBothRule();
      case 5 => r := StrongConsistencyRule();
      case 6 => r := PrimaryUnavailableRule();
      case 7 => r := TTLFreshRule();
      case 8 => r := TTLStaleRule();
      case 9 => r := TTLUnknownRule();
      case _ => r := DefaultPreferredRule();
    }
  }

  /** Runs the chain; a request type with no rule at all is refused before it. */
  method Select(q: Query, configured: bool) returns (d: Decision, ghost probes: nat)
    ensures !configured ==> d.target == TargetNone && d.rule == Unconfigured && probes == 0
    ensures configured ==> d == Route(q) && probes == ProbesIssued(q)
  {
    if !configured {
      var empty := Rule(Canonical(NoSource), Canonical(NoSource), 0, 0, false, 0, map[], None);
      return Publish(q.(rule := empty), Nothing(Unconfigured), false, None, false), 0;
    }
    var st := new EvalState(q);
    var i := 0;
    while i < RULES
      invariant 0 <= i <= RULES && st.q == q && st.Ready(i)
      invariant fresh(st)
      invariant i <= Decider(q, 0) < RULES
    {
      var r := st.Fire(i);
      if r.Some? {
        d := Publish(q, r.value, st.pinned, st.freshness, st.probeFailed);
        probes := st.probes;
        return;
      }
      i := i + 1;
    }
    assert false;
  }
}
