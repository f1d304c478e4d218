/**
Fan-out and merge (internal/aggregation/aggregator.go), with the in-flight
resolution of internal/application/service.go that feeds the merge.
*/
module AggregationModel {
  import opened Wrappers
  import opened Domain
  import opened PrecedenceModel

  // -------------------------------------------------------------------------
  // Fan-out
  // -------------------------------------------------------------------------

  datatype Task = Task(source: SourceKind, required: bool)

  datatype TaskResult = TaskResult(source: SourceKind, required: bool, err: Option<Code>, timedOut: bool)

  datatype FanOutResult = FanOutResult(results: seq<TaskResult>, partial: bool, err: Option<Code>)

  function ResultOf(t: Task, err: Option<Code>): TaskResult {
    TaskResult(t.source, t.required, err, err == Some(UpstreamTimeout))
  }

  /** An optional source that failed, other than by having no such record. */
  predicate Omitted(r: TaskResult) {
    r.err.Some? && !r.required && r.err != Some(NotFound)
  }

  function FirstRequiredError(rs: seq<TaskResult>): Option<Code> {
    if rs == [] then None
    else if rs[0].required && rs[0].err.Some? then rs[0].err
    else FirstRequiredError(rs[1..])
  }

  /** The outcome as a function of the tasks and their errors alone. */
  ghost function Summary(tasks: seq<Task>, errors: seq<Option<Code>>): FanOutResult
    requires |errors| == |tasks|
  {
    var rs := seq(|tasks|, i requires 0 <= i < |tasks| => ResultOf(tasks[i], errors[i]));
    FanOutResult(rs, exists i :: 0 <= i < |rs| && Omitted(rs[i]), FirstRequiredError(rs))
  }

  /** Every task finishes, in some order. */
  ghost predicate Completion(order: seq<nat>, n: nat) {
    (forall i <- order :: i < n) && (forall i: nat :: i < n ==> i in order)
  }

  /**
  Runs the tasks to completion, each writing its own slot when it finishes, then
  sums up in task order. Whatever the completion order, the result is the same.
  */
  method FanOut(tasks: seq<Task>, errors: seq<Option<Code>>, order: seq<nat>) returns (out: FanOutResult)
    requires |errors| == |tasks| && Completion(order, |tasks|)
    ensures out == Summary(tasks, errors)
  {
    var blank := TaskResult(NoSource, false, None, false);
    var results := new TaskResult[|tasks|](_ => blank);
    for j := 0 to |order|
      invariant forall i :: 0 <= i < |tasks| && i in order[..j] ==> results[i] == ResultOf(tasks[i], errors[i])
    {
      var i := order[j];
      assert i in order;
      results[i] := ResultOf(tasks[i], errors[i]);
      assert order[..j + 1] == order[..j] + [i];
    }
    assert order[..|order|] == order;
    ghost var rs := Summary(tasks, errors).results;
    assert results[..] == rs;
    var partial, err := SumUp(results[..]);
    out := FanOutResult(results[..], partial, err);
  }

  /** One pass over the results, in task order. */
  method SumUp(rs: seq<TaskResult>) returns (partial: bool, err: Option<Code>)
    ensures partial <==> exists i :: 0 <= i < |rs| && Omitted(rs[i])
    ensures err == FirstRequiredError(rs)
  {
    err, partial := None, false;
    for i := 0 to |rs|
      invariant partial <==> exists j :: 0 <= j < i && Omitted(rs[j])
      invariant FirstRequiredError(rs) == if err.Some? then err else FirstRequiredError(rs[i..])
    {
      var r := rs[i];
      assert rs[i..][1..] == rs[i + 1..];
      if r.err.None? {
        continue;
      }
      if !r.required && r.err == Some(NotFound) {
        continue;
      }
      if r.required {
        if err.None? {
          err := r.err;
        }
        continue;
      }
      partial := true;
    }
  }

  function Warnings(rs: seq<TaskResult>): seq<Warning> {
    if rs == [] then []
    else (if Omitted(rs[0]) then [Warning(if rs[0].timedOut then SourceTimeout else SourceUnavailable, rs[0].source)]
          else []) + Warnings(rs[1..])
  }

  method WarningsOf(rs: seq<TaskResult>) returns (out: seq<Warning>)
    ensures out == Warnings(rs)
  {
    out := [];
    for i := 0 to |rs|
      invariant out + Warnings(rs[i..]) == Warnings(rs)
    {
      var r := rs[i];
      assert rs[i..][1..] == rs[i + 1..];
      ghost var tail := Warnings(rs[i + 1..]);
      if r.err.None? || r.required || r.err == Some(NotFound) {
        assert Warnings(rs[i..]) == tail;
        continue;
      }
      var w := Warning(if r.timedOut then SourceTimeout else SourceUnavailable, r.source);
      assert (out + [w]) + tail == out + ([w] + tail);
      out := out + [w];
    }
  }

  /**
  The warnings of a fan-out: one under the source of each optional task that failed
  other than by having no such record, as a timeout exactly when it timed out.
  */
  lemma {:induction false} WarningsMembers(rs: seq<TaskResult>, w: Warning)
    ensures w in Warnings(rs) <==>
            exists i :: 0 <= i < |rs| && Omitted(rs[i])
                        && w == Warning(if rs[i].timedOut then SourceTimeout else SourceUnavailable, rs[i].source)
  {
    if rs != [] {
      WarningsMembers(rs[1..], w);
      if i :| && 0 <= i < |rs| && Omitted(rs[i])
              && w == Warning(if rs[i].timedOut then SourceTimeout else SourceUnavailable, rs[i].source) {
        assert i > 0 ==> rs[1..][i - 1] == rs[i];
      }
      if w in Warnings(rs[1..]) {
        var j :| && 0 <= j < |rs[1..]| && Omitted(rs[1..][j])
                 && w == Warning(if rs[1..][j].timedOut then SourceTimeout else SourceUnavailable, rs[1..][j].source);
        assert rs[j + 1] == rs[1..][j];
      }
    }
  }

  /** The same in terms of the tasks and their errors. */
  lemma WarningsExactly(tasks: seq<Task>, errors: seq<Option<Code>>, w: Warning)
    requires |errors| == |tasks|
    ensures w in Warnings(Summary(tasks, errors).results) <==>
            exists i :: && 0 <= i < |tasks| && !tasks[i].required && errors[i].Some? && errors[i] != Some(NotFound)
                        && w.source == tasks[i].source
                        && w.code == if errors[i] == Some(UpstreamTimeout) then SourceTimeout else SourceUnavailable
  {
    var rs := Summary(tasks, errors).results;
    WarningsMembers(rs, w);
    forall i | 0 <= i < |tasks| ensures rs[i] == ResultOf(tasks[i], errors[i]) {
    }
  }

  /** A fan-out is partial exactly when it has a warning to show for it. */
  lemma {:induction false} PartialIffWarned(rs: seq<TaskResult>)
    ensures (exists i :: 0 <= i < |rs| && Omitted(rs[i])) <==> Warnings(rs) != []
  {
    if rs != [] {
      PartialIffWarned(rs[1..]);
      if i :| 0 <= i < |rs| && Omitted(rs[i]) {
        if i > 0 {
          assert rs[1..][i - 1] == rs[i];
        }
      }
    }
  }

  /** The reported error is the first required failure, and there is one exactly when some required task failed. */
  lemma {:induction false} FirstRequiredErrorIsFirst(rs: seq<TaskResult>)
    ensures var e := FirstRequiredError(rs);
      && (e.None? <==> forall i :: 0 <= i < |rs| ==> !(rs[i].required && rs[i].err.Some?))
      && (e.Some? ==> exists i :: && 0 <= i < |rs| && rs[i].required && rs[i].err == e
                                  && forall j :: 0 <= j < i ==> !(rs[j].required && rs[j].err.Some?))
  {
    if rs != [] && !(rs[0].required && rs[0].err.Some?) {
      FirstRequiredErrorIsFirst(rs[1..]);
      var e := FirstRequiredError(rs[1..]);
      if e.Some? {
        var i :| && 0 <= i < |rs[1..]| && rs[1..][i].required && rs[1..][i].err == e
                 && forall j :: 0 <= j < i ==> !(rs[1..][j].required && rs[1..][j].err.Some?);
        assert rs[i + 1].err == e;
        forall j | 0 <= j < i + 1 ensures !(rs[j].required && rs[j].err.Some?) {
          if j > 0 {
            assert rs[j] == rs[1..][j - 1];
          }
        }
      } else {
        forall i | 0 <= i < |rs| ensures !(rs[i].required && rs[i].err.Some?) {
          if i > 0 {
            assert rs[i] == rs[1..][i - 1];
          }
        }
      }
    }
  }

  // -------------------------------------------------------------------------
  // Merge
  // -------------------------------------------------------------------------

  datatype ExecutionState = Queued | Running | Finished {
    predicate InProgress() {
      Queued? || Running?
    }
  }

  /** The empty string stands for an absent value; UNKNOWN is an absent status too. */
  datatype Resource = Resource(status: string, subState: string, customer: string, inFlight: string, rest: string)

  datatype ExecutionRecord = ExecutionRecord(
    id: string, state: ExecutionState, statusAfter: string, operation: string, customer: string)

  datatype Inputs = Inputs(
    operational: Option<Resource>, freshness: Freshness, stale: bool,
    latest: Option<ExecutionRecord>, history: Option<seq<ExecutionRecord>>)
  {
    /** The executions listed, none also when the list was not read. */
    function Items(): seq<ExecutionRecord> {
      if history.Some? then history.value else []
    }
  }

  datatype Merged = Merged(
    resource: Resource, latest: Option<ExecutionRecord>, history: seq<ExecutionRecord>,
    provenance: map<Field, SourceKind>, conflicts: seq<Verdict>, warnings: seq<Warning>)

  const OPERATIONAL_ONLY :=
    {ConfigurationField, MetricsField, TopologyField, OwnerField, LabelsField, TypeField}

  predicate Known(status: string) {
    status != "" && status != "UNKNOWN"
  }

  predicate InFlightNow(input: Inputs) {
    input.latest.Some? && input.latest.value.state.InProgress()
  }

  function StatusCandidates(input: Inputs): seq<Candidate> {
    [Candidate(Operational, input.operational.Some? && Known(input.operational.value.status), None, input.stale,
               if input.operational.Some? then Status(input.operational.value.status) else Nil),
     Candidate(Execution, input.latest.Some? && Known(input.latest.value.statusAfter), None, false,
               if input.latest.Some? then Status(input.latest.value.statusAfter) else Nil)]
  }

  function SubStateCandidates(input: Inputs): seq<Candidate> {
    [Candidate(Operational, input.operational.Some? && input.operational.value.subState != "", None, input.stale,
               if input.operational.Some? then Text(input.operational.value.subState) else Nil),
     Candidate(Execution, input.latest.Some? && input.latest.value.operation != "", None, false,
               if input.latest.Some? then Text(input.latest.value.operation) else Nil)]
  }

  function CustomerCandidates(input: Inputs): seq<Candidate> {
    [Candidate(Operational, input.operational.Some? && input.operational.value.customer != "", None, false,
               if input.operational.Some? then Text(input.operational.value.customer) else Nil),
     Candidate(Execution, input.latest.Some? && input.latest.value.customer != "", None, false,
               if input.latest.Some? then Text(input.latest.value.customer) else Nil)]
  }

  function StatusVerdict(p: Policy, input: Inputs): Verdict {
    Resolved(p, StatusField, StatusCandidates(input), InFlightNow(input))
  }

  function SubStateVerdict(p: Policy, input: Inputs): Verdict {
    Resolved(p, SubStateField, SubStateCandidates(input), InFlightNow(input))
  }

  function CustomerVerdict(p: Policy, input: Inputs): Verdict {
    Resolved(p, CustomerField, CustomerCandidates(input), InFlightNow(input))
  }

  function Base(input: Inputs): Resource {
    if input.operational.Some? then input.operational.value else Resource("", "", "", "", "")
  }

  /** A resolved text replaces the operational record's own unless it is empty. */
  function Adopt(v: Verdict, own: string): string {
    if v.winner != NoSource && v.value.Text? && v.value.s != "" then v.value.s else own
  }

  /** The status the merge reports: the resolved one, or the operational record's own when none is known. */
  function MergedStatus(p: Policy, input: Inputs): string {
    var v := StatusVerdict(p, input);
    if v.winner != NoSource && v.value.Status? then v.value.r else Base(input).status
  }

  function Credit(m: map<Field, SourceKind>, f: Field, k: SourceKind): map<Field, SourceKind> {
    if k == NoSource then m else m[f := k]
  }

  /** The fields only the operational record supplies, credited to it. */
  function OwnFields(): map<Field, SourceKind> {
    map f <- OPERATIONAL_ONLY :: Operational
  }

  function Own(input: Inputs): map<Field, SourceKind> {
    if input.operational.Some? then OwnFields() else map[]
  }

  /** Who supplied each field of the merged answer. */
  function Provenance(input: Inputs, status: SourceKind, sub: SourceKind, customer: SourceKind)
    : map<Field, SourceKind>
  {
    var own := Own(input);
    var contested := Credit(Credit(Credit(own, StatusField, status), SubStateField, sub), CustomerField, customer);
    var latest := Credit(contested, LatestExecutionField, if input.latest.Some? then Execution else NoSource);
    Credit(latest, ExecutionHistoryField, if input.Items() != [] then Execution else NoSource)
  }

  function MergedProvenance(p: Policy, input: Inputs): map<Field, SourceKind> {
    Provenance(input, StatusVerdict(p, input).winner, SubStateVerdict(p, input).winner,
               CustomerVerdict(p, input).winner)
  }

  method Merge(p: Policy, input: Inputs) returns (out: Merged)
    ensures out.resource.status == MergedStatus(p, input)
    ensures out.resource.subState == Adopt(SubStateVerdict(p, input), Base(input).subState)
    ensures out.resource.customer == Adopt(CustomerVerdict(p, input), Base(input).customer)
    ensures out.resource.rest == Base(input).rest
    ensures out.resource.inFlight ==
            if Base(input).inFlight != "" then Base(input).inFlight
            else if InFlightNow(input) then input.latest.value.id else ""
    ensures out.provenance == MergedProvenance(p, input)
    ensures out.warnings == if StatusVerdict(p, input).conflict && p.warnOnConflict
                            then [Warning(ConflictResolved, StatusVerdict(p, input).winner)] else []
    ensures out.conflicts == (if StatusVerdict(p, input).conflict then [StatusVerdict(p, input)] else [])
                           + (if CustomerVerdict(p, input).conflict then [CustomerVerdict(p, input)] else [])
    ensures out.latest == input.latest && out.history == input.Items()
  {
    var running := input.latest.Some? && input.latest.value.state.InProgress();
    var status := Resolve(p, StatusField, StatusCandidates(input), running);
    var sub := Resolve(p, SubStateField, SubStateCandidates(input), running);
    var customer := Resolve(p, CustomerField, CustomerCandidates(input), running);
    out := Assemble(p, input, status, sub, customer);
  }

  method Assemble(p: Policy, input: Inputs, status: Verdict, sub: Verdict, customer: Verdict) returns (out: Merged)
    ensures out.resource == Filled(input, status, sub, customer)
    ensures out.provenance == Provenance(input, status.winner, sub.winner, customer.winner)
    ensures out.warnings ==
            if status.conflict && p.warnOnConflict then [Warning(ConflictResolved, status.winner)] else []
    ensures out.conflicts == (if status.conflict then [status] else []) + (if customer.conflict then [customer] else [])
    ensures out.latest == input.latest && out.history == input.Items()
  {
    var res := FillRecord(input, status, sub, customer);
    var provenance := FillProvenance(input, status.winner, sub.winner, customer.winner);
    var conflicts, warnings := [], [];
    if status.conflict {
      conflicts := [status];
      if p.warnOnConflict {
        warnings := [Warning(ConflictResolved, status.winner)];
      }
    }
    if customer.conflict {
      conflicts := conflicts + [customer];
    }
    out := Merged(res, input.latest, input.Items(), provenance, conflicts, warnings);
  }

  function Filled(input: Inputs, status: Verdict, sub: Verdict, customer: Verdict): Resource {
    var base := Base(input);
    Resource(
      if status.winner != NoSource && status.value.Status? then status.value.r else base.status,
      Adopt(sub, base.subState), Adopt(customer, base.customer),
      if base.inFlight != "" then base.inFlight else if InFlightNow(input) then input.latest.value.id else "",
      base.rest)
  }

  method FillRecord(input: Inputs, status: Verdict, sub: Verdict, customer: Verdict) returns (res: Resource)
    ensures res == Filled(input, status, sub, customer)
  {
    res := Base(input);
    if status.winner != NoSource {
      if status.value.Status? {
        res := res.(status := status.value.r);
      }
    }
    if sub.winner != NoSource {
      if sub.value.Text? && sub.value.s != "" {
        res := res.(subState := sub.value.s);
      }
    }
    if customer.winner != NoSource {
      if customer.value.Text? && customer.value.s != "" {
        res := res.(customer := customer.value.s);
      }
    }
    if input.latest.Some? {
      if res.inFlight == "" && input.latest.value.state.InProgress() {
        res := res.(inFlight := input.latest.value.id);
      }
    }
  }

  method OwnProvenance(input: Inputs) returns (m: map<Field, SourceKind>)
    ensures m == Own(input)
  {
    if input.operational.Some? {
      return OwnFields();
    }
    m := map[];
  }

  method FillProvenance(input: Inputs, status: SourceKind, sub: SourceKind, customer: SourceKind)
    returns (m: map<Field, SourceKind>)
    ensures m == Provenance(input, status, sub, customer)
  {
    m := OwnProvenance(input);
    m := Credit(m, StatusField, status);
    m := Credit(m, SubStateField, sub);
    m := Credit(m, CustomerField, customer);
    m := Credit(m, LatestExecutionField, if input.latest.Some? then Execution else NoSource);
    m := Credit(m, ExecutionHistoryField, if input.Items() != [] then Execution else NoSource);
  }

  /** A source that answered in the inputs. */
  predicate Answered(input: Inputs, k: SourceKind) {
    (k == Operational && input.operational.Some?) || (k == Execution && (input.latest.Some? || input.Items() != []))
  }

  lemma WinnerAnswered(p: Policy, field: Field, cs: seq<Candidate>, running: bool, input: Inputs)
    requires forall c <- cs :: c.present ==> Answered(input, c.source)
    ensures var w := Resolved(p, field, cs, running).winner; w == NoSource || Answered(input, w)
  {
    if Offers(cs) == {} {
      NoOfferNoWinner(p, field, cs, running);
    } else {
      var c := WinnerIsDeserved(p, field, cs, running);
    }
  }

  /** No field is credited to a source that did not answer. */
  lemma ProvenanceIsHonest(p: Policy, input: Inputs, f: Field)
    ensures var m := MergedProvenance(p, input); f in m ==> Answered(input, m[f])
  {
    WinnerAnswered(p, StatusField, StatusCandidates(input), InFlightNow(input), input);
    WinnerAnswered(p, SubStateField, SubStateCandidates(input), InFlightNow(input), input);
    WinnerAnswered(p, CustomerField, CustomerCandidates(input), InFlightNow(input), input);
    CreditedAnswered(input, StatusVerdict(p, input).winner, SubStateVerdict(p, input).winner,
                     CustomerVerdict(p, input).winner);
  }

  ghost predicate AllAnswered(input: Inputs, m: map<Field, SourceKind>) {
    forall f <- m :: Answered(input, m[f])
  }

  lemma CreditKeeps(input: Inputs, m: map<Field, SourceKind>, f: Field, k: SourceKind)
    requires AllAnswered(input, m) && (k == NoSource || Answered(input, k))
    ensures AllAnswered(input, Credit(m, f, k))
  {
  }

  lemma CreditedAnswered(input: Inputs, status: SourceKind, sub: SourceKind, customer: SourceKind)
    requires status == NoSource || Answered(input, status)
    requires sub == NoSource || Answered(input, sub)
    requires customer == NoSource || Answered(input, customer)
    ensures AllAnswered(input, Provenance(input, status, sub, customer))
  {
    var m0 := Own(input);
    CreditKeeps(input, m0, StatusField, status);
    var m1 := Credit(m0, StatusField, status);
    CreditKeeps(input, m1, SubStateField, sub);
    var m2 := Credit(m1, SubStateField, sub);
    CreditKeeps(input, m2, CustomerField, customer);
    var m3 := Credit(m2, CustomerField, customer);
    CreditKeeps(input, m3, LatestExecutionField, if input.latest.Some? then Execution else NoSource);
    var m4 := Credit(m3, LatestExecutionField, if input.latest.Some? then Execution else NoSource);
    CreditKeeps(input, m4, ExecutionHistoryField, if input.Items() != [] then Execution else NoSource);
  }

  // -------------------------------------------------------------------------
  // Endpoint agreement
  // -------------------------------------------------------------------------

  /** An operational-only read consults the execution its record names as in flight, if it can. */
  predicate LooksUp(enabled: bool, execUp: bool, targetsExecution: bool, input: Inputs) {
    && enabled && input.operational.Some? && input.operational.value.inFlight != "" && input.latest.None?
    && !targetsExecution && execUp
  }

  /** `lookup` is what that execution's record says, none when the lookup fails. */
  function ResolveInFlight(enabled: bool, execUp: bool, targetsExecution: bool, lookup: Option<ExecutionRecord>,
                           input: Inputs): Inputs {
    if LooksUp(enabled, execUp, targetsExecution, input) && lookup.Some? && lookup.value.state.InProgress()
    then input.(latest := lookup) else input
  }

  // -------------------------------------------------------------------------
  // The merged fields
  // -------------------------------------------------------------------------

  /** An execution's known value of a field is taken over the operational record's known one. */
  predicate Prevails(p: Policy, field: Field, stale: bool, running: bool) {
    var order := Order(p, field);
    || (running && field in p.overrides)
    || (Execution in order && (stale || Rank(order, Execution) < Rank(order, Operational)))
  }

  /** An operational candidate, then one of the execution source, which is never stale. */
  predicate Pair(cs: seq<Candidate>) {
    |cs| == 2 && cs[0].source == Operational && cs[1].source == Execution && !cs[1].stale
  }

  lemma BothPresent(cs: seq<Candidate>)
    requires Pair(cs) && cs[0].present && cs[1].present
    ensures Present(cs) == cs
  {
    assert cs[1..] == [cs[1]] && cs[1..][1..] == [];
    assert Present(cs[1..]) == [cs[1]];
    assert cs == [cs[0]] + [cs[1]];
  }

  /** Of two known values, the execution's is resolved exactly when it prevails. */
  lemma Contested(p: Policy, field: Field, cs: seq<Candidate>, running: bool)
    requires Pair(cs) && cs[0].present && cs[1].present
    ensures var v, c := Resolved(p, field, cs, running), cs[if Prevails(p, field, cs[0].stale, running) then 1 else 0];
            v.winner == c.source && v.value == c.value
  {
    var order := Order(p, field);
    BothPresent(cs);
    assert cs[0] in Offers(cs) && cs[1] in Offers(cs);
    var c := WinnerIsDeserved(p, field, cs, running);
    RankFacts(order, Operational);
    RankFacts(order, Execution);
    if Execution !in order && Operational !in order {
      FirstInOrderIsMinimal(cs, order, true);
      FirstInOrderIsMinimal(cs, order, false);
      FirstOfFacts(cs, Execution, false);
    } else {
      assert Ranked(cs[0], order, false) || Ranked(cs[1], order, true);
    }
  }

  /** The whole choice between the two: the winner and its value, for every policy. */
  lemma PairResolved(p: Policy, field: Field, cs: seq<Candidate>, running: bool)
    requires Pair(cs)
    ensures var v := Resolved(p, field, cs, running);
      if cs[1].present && (!cs[0].present || Prevails(p, field, cs[0].stale, running)) then
        v.winner == Execution && v.value == cs[1].value
      else if cs[0].present then v.winner == Operational && v.value == cs[0].value
      else v.winner == NoSource
  {
    if cs[0].present && cs[1].present {
      Contested(p, field, cs, running);
    } else if cs[0].present || cs[1].present {
      assert (if cs[0].present then cs[0] else cs[1]) in Offers(cs);
      var c := WinnerIsDeserved(p, field, cs, running);
      assert c in cs && c.present;
    } else {
      NoOfferNoWinner(p, field, cs, running);
    }
  }

  /**
  The status a merge reports, for every policy and all inputs: the operational
  record's own, unless a known execution status stands against an unknown one, is
  nominated to override while running, or is ranked and either ranked first or up
  against a stale record.
  */
  lemma MergedStatusExactly(p: Policy, input: Inputs)
    ensures MergedStatus(p, input) ==
            var own := Base(input).status;
            if && input.latest.Some? && Known(input.latest.value.statusAfter)
               && (!Known(own) || Prevails(p, StatusField, input.stale, InFlightNow(input)))
            then input.latest.value.statusAfter else own
  {
    PairResolved(p, StatusField, StatusCandidates(input), InFlightNow(input));
  }

  /** The sub-state, by the same choice, with the execution's operation for its value. */
  lemma MergedSubStateExactly(p: Policy, input: Inputs)
    ensures Adopt(SubStateVerdict(p, input), Base(input).subState) ==
            var own := if input.operational.Some? then input.operational.value.subState else "";
            if && input.latest.Some? && input.latest.value.operation != ""
               && (own == "" || Prevails(p, SubStateField, input.stale, InFlightNow(input)))
            then input.latest.value.operation else own
  {
    PairResolved(p, SubStateField, SubStateCandidates(input), InFlightNow(input));
  }

  /** The customer, whose staleness is not held against the record. */
  lemma MergedCustomerExactly(p: Policy, input: Inputs)
    ensures Adopt(CustomerVerdict(p, input), Base(input).customer) ==
            var own := if input.operational.Some? then input.operational.value.customer else "";
            if && input.latest.Some? && input.latest.value.customer != ""
               && (own == "" || Prevails(p, CustomerField, false, InFlightNow(input)))
            then input.latest.value.customer else own
  {
    PairResolved(p, CustomerField, CustomerCandidates(input), InFlightNow(input));
  }

  /** Who supplies a contested field, given who knows it. */
  function Supplier(p: Policy, field: Field, own: bool, theirs: bool, stale: bool, running: bool): SourceKind {
    if theirs && (!own || Prevails(p, field, stale, running)) then Execution
    else if own then Operational else NoSource
  }

  lemma ProvenanceOf(input: Inputs, status: SourceKind, sub: SourceKind, customer: SourceKind, f: Field)
    ensures var m := Provenance(input, status, sub, customer);
            var who := match f
              case StatusField => status
              case SubStateField => sub
              case CustomerField => customer
              case LatestExecutionField => if input.latest.Some? then Execution else NoSource
              case ExecutionHistoryField => if input.Items() != [] then Execution else NoSource
              case OtherField(_) => NoSource
              case _ => if input.operational.Some? then Operational else NoSource;
      if who == NoSource then f !in m else f in m && m[f] == who
  {
    var m0 := Own(input);
    OwnAt(input, f);
    CreditAt(m0, StatusField, status, f);
    var m1 := Credit(m0, StatusField, status);
    CreditAt(m1, SubStateField, sub, f);
    var m2 := Credit(m1, SubStateField, sub);
    CreditAt(m2, CustomerField, customer, f);
    var m3 := Credit(m2, CustomerField, customer);
    CreditAt(m3, LatestExecutionField, if input.latest.Some? then Execution else NoSource, f);
    var m4 := Credit(m3, LatestExecutionField, if input.latest.Some? then Execution else NoSource);
    CreditAt(m4, ExecutionHistoryField, if input.Items() != [] then Execution else NoSource, f);
  }

  lemma OwnAt(input: Inputs, f: Field)
    ensures f in Own(input) <==> input.operational.Some? && f in OPERATIONAL_ONLY
    ensures f in Own(input) ==> Own(input)[f] == Operational
  {
  }

  lemma CreditAt(m: map<Field, SourceKind>, g: Field, k: SourceKind, f: Field)
    ensures var r := Credit(m, g, k);
      if k != NoSource && f == g then f in r && r[f] == k
      else (f in r <==> f in m) && (f in m ==> r[f] == m[f])
  {
  }

  lemma ContestedWinners(p: Policy, input: Inputs)
    ensures var r, e, running := Base(input), input.latest, InFlightNow(input);
      && StatusVerdict(p, input).winner ==
         Supplier(p, StatusField, Known(r.status), e.Some? && Known(e.value.statusAfter), input.stale, running)
      && SubStateVerdict(p, input).winner ==
         Supplier(p, SubStateField, r.subState != "", e.Some? && e.value.operation != "", input.stale, running)
      && CustomerVerdict(p, input).winner ==
         Supplier(p, CustomerField, r.customer != "", e.Some? && e.value.customer != "", false, running)
  {
    PairResolved(p, StatusField, StatusCandidates(input), InFlightNow(input));
    PairResolved(p, SubStateField, SubStateCandidates(input), InFlightNow(input));
    PairResolved(p, CustomerField, CustomerCandidates(input), InFlightNow(input));
  }

  /** Who is credited with each field, for every policy and all inputs. */
  lemma ProvenanceExactly(p: Policy, input: Inputs, f: Field)
    ensures var m, running := MergedProvenance(p, input), InFlightNow(input);
            var r, e := Base(input), input.latest;
            var who := match f
              case StatusField =>
                Supplier(p, f, Known(r.status), e.Some? && Known(e.value.statusAfter), input.stale, running)
              case SubStateField =>
                Supplier(p, f, r.subState != "", e.Some? && e.value.operation != "", input.stale, running)
              case CustomerField =>
                Supplier(p, f, r.customer != "", e.Some? && e.value.customer != "", false, running)
              case LatestExecutionField => if e.Some? then Execution else NoSource
              case ExecutionHistoryField => if input.Items() != [] then Execution else NoSource
              case OtherField(_) => NoSource
              case _ => if input.operational.Some? then Operational else NoSource;
      if who == NoSource then f !in m else f in m && m[f] == who
  {
    ContestedWinners(p, input);
    ProvenanceOf(input, StatusVerdict(p, input).winner, SubStateVerdict(p, input).winner,
                 CustomerVerdict(p, input).winner, f);
  }
}
