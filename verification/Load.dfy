/**
The cache-miss path of internal/application/service.go, from the routing decision
to the entry it builds: fetch the target, fall back once if its source is unusable,
look up the execution a record names as in flight, and refuse an empty answer.
*/
module LoadModel {
  import opened Wrappers
  import opened Domain
  import opened FieldCatalog
  import opened PrecedenceModel
  import opened AggregationModel
  import opened ServiceModel
  import F = FreshnessModel
  import R = RouterModel
  import S = RouterSafety
  import T = Tiers

  datatype View = FullView | StatusView | ConfigurationView | DetailsView

  /** One source call of a fetch. */
  datatype Read = RecordRead | LatestRead | HistoryRead

  datatype Reply<T> = Reply(value: Option<T>) | Refusal(code: Code)

  /** What each source call would answer. */
  datatype Replies = Replies(
    record: Reply<Resource>, observed: Freshness,
    latest: Reply<ExecutionRecord>, history: Reply<seq<ExecutionRecord>>)
  {
    function Error(r: Read): Option<Code> {
      match r
      case RecordRead => if record.Refusal? then Some(record.code) else None
      case LatestRead => if latest.Refusal? then Some(latest.code) else None
      case HistoryRead => if history.Refusal? then Some(history.code) else None
    }
  }

  /** Everything around one load that the service does not decide. */
  datatype World = World(
    first: Replies, second: Replies,                     // to the first fetch, and to the fallback's
    opsUp: bool, execUp: bool,                           // health once the first fetch has failed
    resolves: bool, execUpLater: bool, lookup: Option<ExecutionRecord>,
    tolerance: int, now: int)

  // -------------------------------------------------------------------------
  // One fetch
  // -------------------------------------------------------------------------

  predicate WantsLatest(d: R.Decision, v: View) {
    d.target.Includes(Execution) && (v.DetailsView? || v.FullView? || d.target == R.TargetExecution)
  }

  predicate WantsHistory(d: R.Decision, v: View) {
    d.target.Includes(Execution) && v.DetailsView?
  }

  function Reads(d: R.Decision, v: View): seq<Read> {
    (if d.target.Includes(Operational) then [RecordRead] else [])
    + (if WantsLatest(d, v) then [LatestRead] else [])
    + (if WantsHistory(d, v) then [HistoryRead] else [])
  }

  /** The history is never worth failing an answer for. */
  function TaskFor(d: R.Decision, r: Read): Task {
    match r
    case RecordRead => Task(Operational, d.Requires(Operational))
    case LatestRead => Task(Execution, d.Requires(Execution))
    case HistoryRead => Task(Execution, false)
  }

  function Tasks(d: R.Decision, v: View): seq<Task> {
    seq(|Reads(d, v)|, i requires 0 <= i < |Reads(d, v)| => TaskFor(d, Reads(d, v)[i]))
  }

  function Errors(d: R.Decision, v: View, rs: Replies): seq<Option<Code>> {
    seq(|Reads(d, v)|, i requires 0 <= i < |Reads(d, v)| => rs.Error(Reads(d, v)[i]))
  }

  /** What fails a fetch: the required source's own error, the operational one's first. */
  function FetchError(d: R.Decision, v: View, rs: Replies): Option<Code> {
    if d.target.Includes(Operational) && d.Requires(Operational) && rs.record.Refusal? then Some(rs.record.code)
    else if WantsLatest(d, v) && d.Requires(Execution) && rs.latest.Refusal? then Some(rs.latest.code)
    else None
  }

  lemma FanOutError(d: R.Decision, v: View, rs: Replies)
    ensures Summary(Tasks(d, v), Errors(d, v, rs)).err == FetchError(d, v, rs)
  {
    var results := Summary(Tasks(d, v), Errors(d, v, rs)).results;
    FirstRequiredErrorIsFirst(results);
    var n := if d.target.Includes(Operational) then 1 else 0;
    assert d.target.Includes(Operational) ==> results[0] == ResultOf(TaskFor(d, RecordRead), rs.Error(RecordRead));
    assert WantsLatest(d, v) ==> results[n] == ResultOf(TaskFor(d, LatestRead), rs.Error(LatestRead));
    forall i | 0 <= i < |results| && results[i].required ensures i <= n {
      assert results[i] == ResultOf(TaskFor(d, Reads(d, v)[i]), rs.Error(Reads(d, v)[i]));
      assert Reads(d, v)[i] != HistoryRead;
    }
  }

  /** A source whose failure the rule can do without. */
  predicate Dispensable(required: map<SourceKind, bool>, k: SourceKind) {
    k in required && !required[k]
  }

  /**
  When the first fetch of a request fails, and with whose error, over the rule and the
  replies: a source that is asked and refuses fails it unless the rule marks it false,
  the operational one's error before the other's.
  */
  lemma FetchFailsExactly(q: R.Query, v: View, rs: Replies)
    ensures var t, required := R.Route(q).target, q.rule.requiredSources;
      FetchError(R.Route(q), v, rs) ==
        if t in {R.TargetOperational, R.TargetBoth} && rs.record.Refusal? && !Dispensable(required, Operational)
        then Some(rs.record.code)
        else if (t == R.TargetExecution || (t == R.TargetBoth && (v.DetailsView? || v.FullView?)))
                && rs.latest.Refusal? && !Dispensable(required, Execution)
        then Some(rs.latest.code)
        else None
  {
    S.PolicyIsPublished(q);
  }

  /** A fallback's fetch fails with its one source, whatever the rule can do without. */
  lemma FallbackFailsExactly(d: R.Decision, strong: bool, cause: Code, opsUp: bool, execUp: bool, v: View, rs: Replies)
    requires S.FallbackDecision(d, strong, cause, opsUp, execUp).Some?
    ensures var fb := S.FallbackDecision(d, strong, cause, opsUp, execUp).value;
      FetchError(fb, v, rs) ==
        if fb.target == R.TargetOperational then (if rs.record.Refusal? then Some(rs.record.code) else None)
        else (if rs.latest.Refusal? then Some(rs.latest.code) else None)
  {
  }

  /** The warning that a failed call is worth. */
  function Blame(r: Read, c: Code): Warning {
    Warning(if c == UpstreamTimeout then SourceTimeout else SourceUnavailable,
            if r == RecordRead then Operational else Execution)
  }

  /** The calls of a successful fetch that failed, other than by having no such record. */
  predicate WentMissing(d: R.Decision, v: View, rs: Replies, r: Read) {
    r in Reads(d, v) && rs.Error(r).Some? && rs.Error(r) != Some(NotFound)
  }

  /** Each of them makes the fetch partial, with a warning under its own source. */
  lemma MissingIsWarned(d: R.Decision, v: View, rs: Replies, r: Read)
    requires FetchError(d, v, rs).None? && WentMissing(d, v, rs, r)
    ensures var fan := Summary(Tasks(d, v), Errors(d, v, rs));
            fan.partial && Blame(r, rs.Error(r).value) in Warnings(fan.results)
  {
    var tasks, errors := Tasks(d, v), Errors(d, v, rs);
    var i :| 0 <= i < |Reads(d, v)| && Reads(d, v)[i] == r;
    assert tasks[i] == TaskFor(d, r) && errors[i] == rs.Error(r);
    WarningsExactly(tasks, errors, Blame(r, rs.Error(r).value));
    assert Omitted(Summary(tasks, errors).results[i]);
  }

  /** And nothing else makes it partial. */
  lemma PartialExactly(d: R.Decision, v: View, rs: Replies)
    requires FetchError(d, v, rs).None?
    ensures Summary(Tasks(d, v), Errors(d, v, rs)).partial <==> exists r :: WentMissing(d, v, rs, r)
  {
    var fan := Summary(Tasks(d, v), Errors(d, v, rs));
    if fan.partial {
      var i :| 0 <= i < |fan.results| && Omitted(fan.results[i]);
      var r := Reads(d, v)[i];
      assert fan.results[i] == ResultOf(TaskFor(d, r), rs.Error(r));
      assert WentMissing(d, v, rs, r);
    }
    if r :| WentMissing(d, v, rs, r) {
      MissingIsWarned(d, v, rs, r);
    }
  }

  const NO_FRESHNESS := Freshness(Unknown, 0, 0, None, 0, NoSource, false, 0)

  /** What the calls of a fetch brought back. */
  function Gathered(d: R.Decision, v: View, rs: Replies): Inputs {
    var answered := d.target.Includes(Operational) && rs.record.Reply?;
    Inputs(if answered then rs.record.value else None, if answered then rs.observed else NO_FRESHNESS, false,
           if WantsLatest(d, v) && rs.latest.Reply? then rs.latest.value else None,
           if WantsHistory(d, v) && rs.history.Reply? then rs.history.value else None)
  }

  /** The authoritative evaluation of what came back. */
  function Judge(d: R.Decision, input: Inputs, tolerance: int, now: int): Inputs {
    if input.operational.None? then input
    else
      var ev := F.EvaluateFreshness(input.freshness, d.operationalTTL, tolerance, now).freshness;
      input.(freshness := ev, stale := ev.state == Stale)
  }

  function Fetched(d: R.Decision, v: View, rs: Replies, w: World): Inputs {
    Judge(d, Gathered(d, v, rs), w.tolerance, w.now)
  }

  predicate LooksUpAfter(d: R.Decision, v: View, rs: Replies, w: World) {
    LooksUp(w.resolves, w.execUpLater, d.target.Includes(Execution), Fetched(d, v, rs, w))
  }

  function Delivered(d: R.Decision, v: View, rs: Replies, w: World): Inputs {
    ResolveInFlight(w.resolves, w.execUpLater, d.target.Includes(Execution), w.lookup, Fetched(d, v, rs, w))
  }

  /** A fetch that no required source failed, and how its calls went. */
  ghost predicate Succeeded(d: R.Decision, v: View, rs: Replies, fan: FanOutResult) {
    FetchError(d, v, rs).None? && fan == Summary(Tasks(d, v), Errors(d, v, rs))
  }

  predicate Asks(t: R.Target, k: SourceKind) {
    t == R.TargetBoth || (t == R.TargetOperational && k == Operational) || (t == R.TargetExecution && k == Execution)
  }

  /** The latest execution is asked for with the execution source, but by the narrow views only from it alone. */
  predicate AsksLatest(t: R.Target, v: View) {
    t == R.TargetExecution || (t == R.TargetBoth && (v.DetailsView? || v.FullView?))
  }

  /** Some source that was asked answered with something. */
  predicate FoundAnything(t: R.Target, v: View, rs: Replies) {
    || (Asks(t, Operational) && rs.record.Reply? && rs.record.value.Some?)
    || (AsksLatest(t, v) && rs.latest.Reply? && rs.latest.value.Some?)
    || (Asks(t, Execution) && v.DetailsView? && rs.history.Reply? && rs.history.value.Some?
        && rs.history.value.value != [])
  }

  /**
  What a fetch delivers to the merge, over the replies: each record that was asked for
  and answered, the operational one judged by the service's own clock, and in place of
  a latest execution the running one that an operational-only record names.
  */
  lemma DeliveredExactly(d: R.Decision, v: View, rs: Replies, w: World)
    ensures var input, t := Delivered(d, v, rs, w), d.target;
      && input.operational == (if Asks(t, Operational) && rs.record.Reply? then rs.record.value else None)
      && input.history == (if Asks(t, Execution) && v.DetailsView? && rs.history.Reply? then rs.history.value else None)
      && input.latest == (if AsksLatest(t, v) then (if rs.latest.Reply? then rs.latest.value else None)
                          else if t == R.TargetOperational then LookedUp(rs, w) else None)
      && (input.operational.Some? ==>
            && input.freshness == F.EvaluateFreshness(rs.observed, d.operationalTTL, w.tolerance, w.now).freshness
            && (input.stale <==> input.freshness.state == Stale))
      && (input.operational.None? ==> !input.stale)
    ensures Empty(Gathered(d, v, rs)) <==> !FoundAnything(d.target, v, rs)
  {
  }

  /** Issues the calls concurrently, judges the record, and looks up its execution. */
  method Fetch(d: R.Decision, v: View, rs: Replies, w: World, schedule: nat -> seq<nat>)
    returns (input: Inputs, fan: FanOutResult, lookedUp: bool)
    requires forall n: nat :: Completion(schedule(n), n)
    ensures fan.err == FetchError(d, v, rs)
    ensures fan.err.Some? ==> !lookedUp
    ensures fan.err.None? ==> Succeeded(d, v, rs, fan)
    ensures fan.err.None? ==> input == Delivered(d, v, rs, w) && lookedUp == LooksUpAfter(d, v, rs, w)
  {
    FanOutError(d, v, rs);
    fan := FanOut(Tasks(d, v), Errors(d, v, rs), schedule(|Tasks(d, v)|));
    input, lookedUp := Gathered(d, v, rs), false;
    if fan.err.Some? {
      return;
    }
    input := Judge(d, input, w.tolerance, w.now);
    if LooksUp(w.resolves, w.execUpLater, d.target.Includes(Execution), input) {
      lookedUp := true;
      if w.lookup.Some? && w.lookup.value.state.InProgress() {
        input := input.(latest := w.lookup);
      }
    }
  }

  // -------------------------------------------------------------------------
  // The whole load
  // -------------------------------------------------------------------------

  datatype Gain = Gained(input: Inputs) | Lost(code: Code)

  /** What a load did: the decisions it fetched by, whether it looked an execution up, and what it got. */
  datatype Trace = Trace(fetched: seq<R.Decision>, lookedUp: bool, gain: Gain)

  /** Every source answered with nothing. */
  predicate Empty(input: Inputs) {
    input.operational.None? && input.latest.None? && input.Items() == []
  }

  function Ended(fetched: seq<R.Decision>, d: R.Decision, v: View, rs: Replies, w: World): Trace {
    Trace(fetched, LooksUpAfter(d, v, rs, w),
          if Empty(Gathered(d, v, rs)) then Lost(NotFound) else Gained(Delivered(d, v, rs, w)))
  }

  /** Neither judging a record nor looking an execution up turns nothing into something. */
  lemma EmptyStaysEmpty(d: R.Decision, v: View, rs: Replies, w: World)
    ensures Empty(Delivered(d, v, rs, w)) <==> Empty(Gathered(d, v, rs))
  {
  }

  /** Testing for emptiness after the lookup comes to the same. */
  lemma EndsLike(fetched: seq<R.Decision>, d: R.Decision, v: View, rs: Replies, w: World)
    ensures var input := Delivered(d, v, rs, w);
            Ended(fetched, d, v, rs, w)
            == Trace(fetched, LooksUpAfter(d, v, rs, w), if Empty(input) then Lost(NotFound) else Gained(input))
  {
    EmptyStaysEmpty(d, v, rs, w);
  }

  function TraceOf(d: R.Decision, strong: bool, v: View, w: World): Trace {
    if d.target == R.TargetNone then Trace([], false, Lost(NoSourceAvailable))
    else
      var err := FetchError(d, v, w.first);
      if err.None? then Ended([d], d, v, w.first, w)
      else
        var fb := S.FallbackDecision(d, strong, err.value, w.opsUp, w.execUp);
        if fb.None? then Trace([d], false, Lost(err.value))
        else if FetchError(fb.value, v, w.second).Some? then Trace([d, fb.value], false, Lost(err.value))
        else Ended([d, fb.value], fb.value, v, w.second, w)
  }

  /**
  Fetches by a decision, and by its fallback if that fails for a reason the fallback
  might not share. The ghost trace records what was done.
  */
  method Obtain(decision: R.Decision, strong: bool, v: View, w: World, schedule: nat -> seq<nat>)
    returns (gain: Gain, fan: FanOutResult, used: R.Decision, failedOver: Option<SourceKind>, ghost trace: Trace)
    requires forall n: nat :: Completion(schedule(n), n)
    ensures trace == TraceOf(decision, strong, v, w) && gain == trace.gain
    ensures gain.Gained? ==>
              && trace.fetched != [] && used == trace.fetched[|trace.fetched| - 1]
              && failedOver == (if |trace.fetched| == 2 then Some(decision.primary) else None)
              && Succeeded(used, v, LastReplies(trace, w), fan)
  {
    used, failedOver := decision, None;
    fan := FanOutResult([], false, None);
    if decision.target == R.TargetNone {
      gain := Lost(NoSourceAvailable);
      trace := Trace([], false, gain);
      return;
    }
    var input, lookedUp;
    input, fan, lookedUp := Fetch(decision, v, w.first, w, schedule);
    ghost var fetched, replies := [decision], w.first;
    if fan.err.Some? {
      gain := Lost(fan.err.value);
      var fb := S.FallbackDecision(decision, strong, fan.err.value, w.opsUp, w.execUp);
      if fb.None? {
        trace := Trace(fetched, lookedUp, gain);
        return;
      }
      input, fan, lookedUp := Fetch(fb.value, v, w.second, w, schedule);
      fetched, replies := [decision, fb.value], w.second;
      if fan.err.Some? {
        trace := Trace(fetched, lookedUp, gain);
        return;
      }
      used, failedOver := fb.value, Some(decision.primary);
    }
    EndsLike(fetched, used, v, replies, w);
    gain := if Empty(input) then Lost(NotFound) else Gained(input);
    trace := Trace(fetched, lookedUp, gain);
  }

  /** The source gave something to the answer. */
  predicate Contributed(input: Inputs, k: SourceKind) {
    (k == Operational && input.operational.Some?) || (k == Execution && (input.latest.Some? || input.history.Some?))
  }

  /**
  How an answer describes the load behind it: the decision it was fetched by, the
  source that failed before that, if one did, what came back, and what went missing.
  */
  ghost predicate Describes(e: T.Entry, q: R.Query, p: Policy, used: R.Decision, failedOver: Option<SourceKind>,
                            input: Inputs, v: View, rs: Replies, now: int)
  {
    && Honest(e) && !e.negative
    && (input.operational.Some? ==>
          && e.freshness.ttl == (if input.freshness.ttl != 0 then input.freshness.ttl else used.operationalTTL)
          && e.freshness == input.freshness.(ttl := e.freshness.ttl, source := Operational))
    && (input.operational.None? ==>
          e.freshness == Freshness(Unknown, 0, used.operationalTTL, None, now, Execution, false, 0))
    && (e.freshness.state == Stale ==> Warning(StaleData, Operational) in e.warnings)
    && (e.freshness.skewCorrected ==> Warning(ClockSkew, Operational) in e.warnings)
    && (e.degraded <==>
          || (e.freshness.state == Stale && used.target == R.TargetOperational)
          || used.rule == R.PrimaryUnavailable || failedOver.Some?)
    && (failedOver.Some? ==> Warning(SourceUnavailable, failedOver.value) in e.warnings)
    && (used.rule == R.PrimaryUnavailable ==> Warning(SourceUnavailable, OtherThan(used.primary)) in e.warnings)
    && (e.partial <==> (exists r :: WentMissing(used, v, rs, r)) || MissesFields(used.target, q.catalog, q.fields))
    && (forall r :: WentMissing(used, v, rs, r) ==> Blame(r, rs.Error(r).value) in e.warnings)
    && (MissesFields(used.target, q.catalog, q.fields) && !(exists r :: WentMissing(used, v, rs, r)) ==>
          Warning(PartialData, NoSource) in e.warnings)
    && (StatusVerdict(p, input).conflict && p.warnOnConflict ==>
          Warning(ConflictResolved, StatusVerdict(p, input).winner) in e.warnings)
    && e.provenance == MergedProvenance(p, input) && (forall f <- e.provenance :: Answered(input, e.provenance[f]))
    && (Empty(input) || forall k :: k in e.sources <==> Contributed(input, k))
  }

  lemma SomethingContributed(d: R.Decision, input: Inputs)
    ensures Empty(input) || forall k :: Contributes(input, d, k) <==> Contributed(input, k)
  {
  }

  method MergeHonestly(p: Policy, input: Inputs) returns (merged: Merged)
    ensures merged.provenance == MergedProvenance(p, input)
    ensures StatusVerdict(p, input).conflict && p.warnOnConflict ==>
              Warning(ConflictResolved, StatusVerdict(p, input).winner) in merged.warnings
    ensures forall f <- merged.provenance :: Answered(input, merged.provenance[f])
  {
    merged := Merge(p, input);
    forall f <- merged.provenance ensures Answered(input, merged.provenance[f]) {
      ProvenanceIsHonest(p, input, f);
    }
  }

  /** Merges what a load obtained and describes the answer. */
  method Present(q: R.Query, p: Policy, input: Inputs, fan: FanOutResult, used: R.Decision,
                 failedOver: Option<SourceKind>, complete: bool, payload: string, now: int,
                 ghost v: View, ghost rs: Replies)
    returns (e: T.Entry)
    requires Succeeded(used, v, rs, fan)
    ensures e.payload == payload && Describes(e, q, p, used, failedOver, input, v, rs, now)
  {
    var merged := MergeHonestly(p, input);
    PartialExactly(used, v, rs);
    e := Describe(Load(used, failedOver, input, fan, merged, q.fields, q.catalog, complete, payload, now));
    SomethingContributed(used, input);
    forall r | WentMissing(used, v, rs, r) ensures Blame(r, rs.Error(r).value) in e.warnings {
      MissingIsWarned(used, v, rs, r);
    }
  }

  /** A routing-time fallback blames the right source: the one it did not read was down. */
  lemma RoutedAroundFailure(q: R.Query)
    requires R.Validated(q.rule) && R.Route(q).rule == R.PrimaryUnavailable && R.Route(q).target != R.TargetNone
    ensures var k := OtherThan(R.Route(q).primary);
      (k == Operational || k == Execution) && !R.Up(q, k) && !R.Route(q).target.Includes(k)
  {
    assert R.Decider(q, 0) == 6;
    assert !R.Guard(1, q) && !R.Guard(3, q);
  }

  /** The load of a request by the decision of the chain. */
  ghost function LoadOf(q: R.Query, v: View, w: World): Trace {
    TraceOf(R.Route(q), q.consistency == R.Strong, v, w)
  }

  /**
  The loader: routes, fetches, falls back at most once, merges, and describes the
  answer. `complete` and `payload` stand for what the projection makes of the merge.
  */
  method LoadResource(q: R.Query, p: Policy, v: View, w: World, schedule: nat -> seq<nat>,
                      complete: bool, payload: string)
    returns (r: Loaded, ghost t: Trace)
    requires forall n: nat :: Completion(schedule(n), n)
    ensures t == LoadOf(q, v, w)
    ensures (r.Error? <==> t.gain.Lost?) && (r.Error? ==> r.code == t.gain.code)
    ensures r.Answer? ==>
              var failedOver := if |t.fetched| == 2 then Some(R.Route(q).primary) else None;
              && t.fetched != [] && r.entry.payload == payload
              && Describes(r.entry, q, p, t.fetched[|t.fetched| - 1], failedOver, t.gain.input, v,
                           LastReplies(t, w), w.now)
  {
    var decision, _ := R.Select(q, true);
    var gain, fan, used, failedOver;
    gain, fan, used, failedOver, t := Obtain(decision, q.consistency == R.Strong, v, w, schedule);
    if gain.Lost? {
      return Error(gain.code), t;
    }
    var e := Present(q, p, gain.input, fan, used, failedOver, complete, payload, w.now, v, LastReplies(t, w));
    r := Answer(e);
  }

  // -------------------------------------------------------------------------
  // What every load keeps to
  // -------------------------------------------------------------------------

  predicate CallsOperational(t: Trace) {
    exists d <- t.fetched :: d.target.Includes(Operational)
  }

  predicate CallsExecution(t: Trace, v: View) {
    t.lookedUp || exists d <- t.fetched :: WantsLatest(d, v) || WantsHistory(d, v)
  }

  /** The fetches of a load, by any decision. */
  lemma FetchesOf(d: R.Decision, strong: bool, v: View, w: World)
    ensures var fs, err := TraceOf(d, strong, v, w).fetched, FetchError(d, v, w.first);
      if d.target == R.TargetNone then fs == []
      else if err.Some? && S.FallbackDecision(d, strong, err.value, w.opsUp, w.execUp).Some?
      then fs == [d, S.FallbackDecision(d, strong, err.value, w.opsUp, w.execUp).value]
      else fs == [d]
  {
  }

  lemma SecondFetch(q: R.Query, cause: Code, opsUp: bool, execUp: bool)
    requires R.Route(q).target != R.TargetNone
    ensures var d := R.Route(q);
            var fb := S.FallbackDecision(d, q.consistency == R.Strong, cause, opsUp, execUp);
      fb.Some? ==>
        && q.consistency != R.Strong && SourceUnusable(cause)
        && (|| (fb.value.target == R.TargetOperational && opsUp && d.target == R.TargetExecution)
            || (fb.value.target == R.TargetExecution && execUp && d.target == R.TargetOperational))
  {
    S.FallbackIsTheOtherSource(q, cause, opsUp, execUp);
  }

  /**
  Under a validated rule a load makes at most two fetches, one if it is strong. The
  first reads only sources that were up when it was routed; the second follows a
  failure that only its source can explain, and reads one other source, up by then.
  */
  lemma LoadIsSafe(q: R.Query, v: View, w: World)
    requires R.Validated(q.rule)
    ensures var t := LoadOf(q, v, w);
      && |t.fetched| <= (if q.consistency == R.Strong then 1 else 2)
      && (t.fetched != [] ==> t.fetched[0] == R.Route(q) && forall k :: t.fetched[0].target.Includes(k) ==> R.Up(q, k))
      && (|t.fetched| == 2 ==>
            && FetchError(t.fetched[0], v, w.first).Some? && SourceUnusable(FetchError(t.fetched[0], v, w.first).value)
            && match t.fetched[1].target
               case TargetOperational => w.opsUp && t.fetched[0].target == R.TargetExecution
               case TargetExecution => w.execUp && t.fetched[0].target == R.TargetOperational
               case _ => false)
  {
    var d := R.Route(q);
    forall k | d.target.Includes(k) ensures R.Up(q, k) {
      S.TargetIsAvailable(q, k);
    }
    FetchesOf(d, q.consistency == R.Strong, v, w);
    var err := FetchError(d, v, w.first);
    if d.target != R.TargetNone && err.Some? {
      SecondFetch(q, err.value, w.opsUp, w.execUp);
    }
  }

  /** What the last fetch of a load was answered, and by which decision. */
  function LastReplies(t: Trace, w: World): Replies {
    if |t.fetched| == 2 then w.second else w.first
  }

  /**
  A load fails for exactly three reasons: the router refused; the last fetch it
  tried failed, and then the error is the first one's; or the fetch brought nothing
  back, which the lookup of an execution cannot make up for.
  */
  lemma LoadFailsExactly(d: R.Decision, strong: bool, v: View, w: World, c: Code)
    ensures var t := TraceOf(d, strong, v, w);
      && (t.fetched == [] <==> d.target == R.TargetNone)
      && (t.gain == Lost(c) <==>
            if t.fetched == [] then c == NoSourceAvailable
            else
              var last, rs := t.fetched[|t.fetched| - 1], LastReplies(t, w);
              if FetchError(last, v, rs).Some? then FetchError(d, v, w.first) == Some(c)
              else c == NotFound && !FoundAnything(last.target, v, rs))
  {
    FetchesOf(d, strong, v, w);
    DeliveredExactly(d, v, w.first, w);
    var err := FetchError(d, v, w.first);
    if err.Some? {
      var fb := S.FallbackDecision(d, strong, err.value, w.opsUp, w.execUp);
      if fb.Some? {
        DeliveredExactly(fb.value, v, w.second, w);
      }
    }
  }

  /** The in-flight lookup is made exactly after a successful fetch of a marked operational record alone. */
  lemma LookedUpExactly(d: R.Decision, strong: bool, v: View, w: World)
    ensures var t := TraceOf(d, strong, v, w);
      t.lookedUp <==> && t.fetched != []
                      && t.fetched[|t.fetched| - 1].target == R.TargetOperational
                      && Marked(LastReplies(t, w)) && w.resolves && w.execUpLater
  {
    FetchesOf(d, strong, v, w);
    LookupExactly(d, v, w.first, w);
    var err := FetchError(d, v, w.first);
    if err.Some? {
      var fb := S.FallbackDecision(d, strong, err.value, w.opsUp, w.execUp);
      if fb.Some? {
        LookupExactly(fb.value, v, w.second, w);
      }
    }
  }

  /** The record that answered carries an in-flight marker. */
  predicate Marked(rs: Replies) {
    rs.record.Reply? && rs.record.value.Some? && rs.record.value.value.inFlight != ""
  }

  /** A decision without a usable fallback fetches once. */
  lemma FetchesOnce(d: R.Decision, strong: bool, v: View, w: World)
    requires d.target != R.TargetNone && (strong || d.fallback == NoSource)
    ensures var t := TraceOf(d, strong, v, w);
      && t.fetched == [d] && t.lookedUp == (FetchError(d, v, w.first).None? && LooksUpAfter(d, v, w.first, w))
      && (CallsOperational(t) <==> d.target.Includes(Operational))
      && (CallsExecution(t, v) <==> t.lookedUp || WantsLatest(d, v) || WantsHistory(d, v))
  {
    FetchesOf(d, strong, v, w);
    assert d in TraceOf(d, strong, v, w).fetched;
  }

  /** Of one that includes the execution source there is no lookup, of the operational one alone for a marker. */
  lemma LookupExactly(d: R.Decision, v: View, rs: Replies, w: World)
    ensures (FetchError(d, v, rs).None? && LooksUpAfter(d, v, rs, w))
            <==> d.target == R.TargetOperational && Marked(rs) && w.resolves && w.execUpLater
  {
  }

  /**
  A request whose fields are one source's alone: if that is the execution source,
  the operational one is never called. If it is the operational source, the other is
  called for the in-flight lookup alone, and exactly when the record read carries a
  marker, resolution is switched on and the execution source is up.
  */
  lemma PinnedLoadExactly(q: R.Query, v: View, w: World, k: SourceKind)
    requires OnlyFrom(q.catalog, q.fields, k) && (k == Operational || k == Execution)
    ensures k == Execution ==> !CallsOperational(LoadOf(q, v, w))
    ensures k == Operational ==>
              (CallsExecution(LoadOf(q, v, w), v)
               <==> R.Route(q).target == R.TargetOperational && Marked(w.first) && w.resolves && w.execUpLater)
  {
    S.PinIsKept(q, k);
    var d := R.Route(q);
    if d.target != R.TargetNone {
      FetchesOnce(d, q.consistency == R.Strong, v, w);
      LookupExactly(d, v, w.first, w);
    }
  }

  /**
  A strong load makes one fetch at most and never falls back, but it too looks an
  in-flight execution up: it calls the execution source exactly when its target and
  view ask for it, or when an operational record it read carries a marker.
  */
  lemma StrongLoadExactly(q: R.Query, v: View, w: World)
    requires q.consistency == R.Strong
    ensures |LoadOf(q, v, w).fetched| <= 1
    ensures CallsExecution(LoadOf(q, v, w), v)
            <==> match R.Route(q).target
                 case TargetExecution => true
                 case TargetBoth => v.DetailsView? || v.FullView?
                 case TargetOperational => Marked(w.first) && w.resolves && w.execUpLater
                 case TargetNone => false
  {
    var d := R.Route(q);
    if d.target != R.TargetNone {
      FetchesOnce(d, true, v, w);
      LookupExactly(d, v, w.first, w);
    }
  }

  // -------------------------------------------------------------------------
  // The status a fetch reports
  // -------------------------------------------------------------------------

  /** An execution's status replaces the record's in the merge. */
  predicate Replaces(p: Policy, r: Resource, stale: bool, e: Option<ExecutionRecord>) {
    && e.Some? && Known(e.value.statusAfter) && e.value.statusAfter != r.status
    && (!Known(r.status) || Prevails(p, StatusField, stale, e.value.state.InProgress()))
  }

  /** The execution an operational-only fetch sees: the one looked up, if it is still running. */
  function LookedUp(rs: Replies, w: World): Option<ExecutionRecord> {
    if Marked(rs) && w.resolves && w.execUpLater && w.lookup.Some? && w.lookup.value.state.InProgress()
    then w.lookup else None
  }

  /** The execution a both-source fetch sees: the latest, for the views that ask for it. */
  function Latest(v: View, rs: Replies): Option<ExecutionRecord> {
    if (v.DetailsView? || v.FullView?) && rs.latest.Reply? then rs.latest.value else None
  }

  function Seen(d: R.Decision, v: View, rs: Replies, w: World): Option<ExecutionRecord> {
    if d.target == R.TargetOperational then LookedUp(rs, w) else Latest(v, rs)
  }

  predicate Recorded(rs: Replies) {
    rs.record.Reply? && rs.record.value.Some?
  }

  /** The status a fetch that includes the operational source reports, for every policy. */
  lemma FetchedStatus(p: Policy, d: R.Decision, v: View, rs: Replies, w: World)
    requires (d.target == R.TargetOperational || d.target == R.TargetBoth) && Recorded(rs)
    ensures MergedStatus(p, Delivered(d, v, rs, w)) ==
            var r, e := rs.record.value.value, Seen(d, v, rs, w);
            if Replaces(p, r, Fetched(d, v, rs, w).stale, e) then e.value.statusAfter else r.status
  {
    MergedStatusExactly(p, Delivered(d, v, rs, w));
  }

  /**
  A fetch of the operational source alone, strong or not, reports a status other than
  its record's exactly when the marked execution was looked up, is still running and
  predicts another one, and the record's is unknown, or the execution is nominated to
  override, or it is in the order and ranked first or the record is stale.
  */
  lemma LookupOverridesExactly(p: Policy, d: R.Decision, v: View, rs: Replies, w: World)
    requires d.target == R.TargetOperational && Recorded(rs)
    ensures var r, order := rs.record.value.value, Order(p, StatusField);
      MergedStatus(p, Delivered(d, v, rs, w)) != r.status
      <==> && Marked(rs) && w.resolves && w.execUpLater && w.lookup.Some? && w.lookup.value.state.InProgress()
           && Known(w.lookup.value.statusAfter) && w.lookup.value.statusAfter != r.status
           && (|| !Known(r.status) || StatusField in p.overrides
               || (&& Execution in order
                   && (Fetched(d, v, rs, w).stale || Rank(order, Execution) < Rank(order, Operational))))
  {
    FetchedStatus(p, d, v, rs, w);
  }

  const STRONG := S.UNPROBED.(consistency := R.Strong)
  const UNTIMED := STRONG.(rule := STRONG.rule.(ttl := 0))
  const MOVING := Replies(
    Reply(Some(Resource("ACTIVE", "", "", "x1", ""))), NO_FRESHNESS.(observedAt := Some(100)), Reply(None), Reply(None))
  const BUSY := World(MOVING, MOVING, true, true, true, true,
                      Some(ExecutionRecord("x1", Running, "UPDATING", "", "")), 0, 100)
  const NOMINATING := Policy(map[StatusField := [Operational, Execution]], {StatusField}, true)
  const NOT_NOMINATING := NOMINATING.(overrides := {})

  lemma StrongReadsOperational(q: R.Query)
    requires q == STRONG || q == UNTIMED
    ensures R.Route(q).target == R.TargetOperational && R.Route(q).operationalTTL == q.rule.ttl
    ensures LoadOf(q, StatusView, BUSY).gain == Gained(Delivered(R.Route(q), StatusView, MOVING, BUSY))
    ensures CallsExecution(LoadOf(q, StatusView, BUSY), StatusView)
  {
    assert !R.Pins(q) && !R.SpansBoth(q);
    assert R.Guard(5, q) && R.Decider(q, 0) == 5;
    StrongLoadExactly(q, StatusView, BUSY);
  }

  /** One strong request that prefers the operational source and is answered the execution source's status. */
  lemma StrongIsAnsweredByAnother()
    ensures var t := LoadOf(STRONG, StatusView, BUSY);
      CallsExecution(t, StatusView) && t.gain.Gained? && MergedStatus(NOMINATING, t.gain.input) == "UPDATING"
  {
    StrongReadsOperational(STRONG);
    LookupOverridesExactly(NOMINATING, R.Route(STRONG), StatusView, MOVING, BUSY);
    FetchedStatus(NOMINATING, R.Route(STRONG), StatusView, MOVING, BUSY);
  }

  lemma StaleWithoutTTL(d: R.Decision)
    requires d.target == R.TargetOperational && d.operationalTTL <= 0
    ensures Fetched(d, StatusView, MOVING, BUSY).stale
  {
  }

  /** And one whose rule has no TTL, so that every record is stale: there no nomination is needed. */
  lemma StrongNeedsNoNomination()
    ensures R.Validated(UNTIMED.rule) && StatusField !in NOT_NOMINATING.overrides
    ensures var t := LoadOf(UNTIMED, StatusView, BUSY);
      t.gain.Gained? && MergedStatus(NOT_NOMINATING, t.gain.input) == "UPDATING"
  {
    StrongReadsOperational(UNTIMED);
    var d := R.Route(UNTIMED);
    StaleWithoutTTL(d);
    assert Order(NOT_NOMINATING, StatusField)[1] == Execution;
    FetchedStatus(NOT_NOMINATING, d, StatusView, MOVING, BUSY);
  }

  // -------------------------------------------------------------------------
  // Endpoint agreement
  // -------------------------------------------------------------------------

  /**
  When an operational-only fetch and a both-source fetch of one resource report
  different statuses, for every policy, view and lookup: one sees an execution that
  replaces the record's status and the other does not, or sees another one.
  */
  lemma ViewsDisagreeExactly(p: Policy, d: R.Decision, d': R.Decision, v: View, v': View, rs: Replies, w: World)
    requires d.target == R.TargetOperational && d'.target == R.TargetBoth && Recorded(rs)
    ensures var r, a, b := rs.record.value.value, LookedUp(rs, w), Latest(v', rs);
            var one := Replaces(p, r, Fetched(d, v, rs, w).stale, a);
            var other := Replaces(p, r, Fetched(d', v', rs, w).stale, b);
      MergedStatus(p, Delivered(d, v, rs, w)) != MergedStatus(p, Delivered(d', v', rs, w))
      <==> if one && other then a.value.statusAfter != b.value.statusAfter else one || other
  {
    FetchedStatus(p, d, v, rs, w);
    FetchedStatus(p, d', v', rs, w);
  }

  predicate OperationalFirst(p: Policy) {
    Order(p, StatusField) != [] && Order(p, StatusField)[0] == Operational
  }

  /**
  For a non-stale record of known status, ranked first, whose marker names the latest
  execution when set, with none in progress when it is unset, and with lookups that
  succeed, the two agree exactly when the both-source view asks for the latest
  execution, or no running execution is nominated to say otherwise.
  */
  lemma ViewsAgreeExactly(p: Policy, d: R.Decision, d': R.Decision, v: View, v': View, rs: Replies, w: World)
    requires d.target == R.TargetOperational && d'.target == R.TargetBoth && Recorded(rs)
    requires OperationalFirst(p) && Known(rs.record.value.value.status)
    requires !Fetched(d, v, rs, w).stale && !Fetched(d', v', rs, w).stale
    requires w.resolves && w.execUpLater && rs.latest == Reply(w.lookup)
    requires Marked(rs) ==> w.lookup.Some? && w.lookup.value.id == rs.record.value.value.inFlight
    requires !Marked(rs) ==> w.lookup.None? || !w.lookup.value.state.InProgress()
    ensures MergedStatus(p, Delivered(d, v, rs, w)) == MergedStatus(p, Delivered(d', v', rs, w))
            <==> || v'.DetailsView? || v'.FullView?
                 || !(&& w.lookup.Some? && w.lookup.value.state.InProgress() && StatusField in p.overrides
                      && Known(w.lookup.value.statusAfter)
                      && w.lookup.value.statusAfter != rs.record.value.value.status)
  {
    ViewsDisagreeExactly(p, d, d', v, v', rs, w);
  }

  const BOTH := S.UNPROBED.(rule := S.UNPROBED.rule.(preferred := R.Both))

  lemma BothReadsBoth()
    ensures R.Route(BOTH).target == R.TargetBoth
    ensures LoadOf(BOTH, StatusView, BUSY).gain == Gained(Delivered(R.Route(BOTH), StatusView, MOVING, BUSY))
  {
    var q := BOTH;
    assert !R.Pins(q) && !R.SpansBoth(q);
    assert R.Guard(10, q) && R.Decider(q, 0) == 10;
  }

  /** Two reads by the status view, one of a type that prefers both sources, report different statuses. */
  lemma StatusViewsDisagree()
    ensures R.Validated(BOTH.rule) && R.Route(BOTH).target == R.TargetBoth
    ensures var one, other := LoadOf(STRONG, StatusView, BUSY), LoadOf(BOTH, StatusView, BUSY);
      && one.gain.Gained? && MergedStatus(NOMINATING, one.gain.input) == "UPDATING"
      && other.gain.Gained? && MergedStatus(NOMINATING, other.gain.input) == "ACTIVE"
  {
    StrongIsAnsweredByAnother();
    BothReadsBoth();
    FetchedStatus(NOMINATING, R.Route(BOTH), StatusView, MOVING, BUSY);
  }
}
