/**
Per-field winner selection (internal/policy/precedence.go). The loops of the source
are methods, each tied to a small function; `Resolved` composes those functions.
`Wins` is the independent reference: it speaks of the candidates as a set.
*/
module PrecedenceModel {
  import opened Wrappers
  import opened Domain

  /** Candidate values. Only scalars are ever compared equal. */
  datatype Value = Text(s: string) | Status(r: string) | ExecStatus(x: string) | Number(n: int) | Decimal(d: real)
                 | Flag(b: bool) | Nil | Composite(id: int)

  datatype Candidate = Candidate(source: SourceKind, present: bool, observedAt: Option<int>, stale: bool, value: Value)

  datatype RuleId = NoCandidate | OnlyCandidate | ExecutionRunning | ConfiguredOrder | FreshBeatsStale

  datatype Verdict = Verdict(winner: SourceKind, rule: RuleId, conflict: bool, rejected: seq<SourceKind>, value: Value)

  datatype Policy = Policy(order: map<Field, seq<SourceKind>>, overrides: set<Field>, warnOnConflict: bool)

  function Order(p: Policy, field: Field): seq<SourceKind> {
    if field in p.order then p.order[field] else []
  }

  predicate EqualValue(a: Value, b: Value) {
    !a.Composite? && a == b
  }

  // -------------------------------------------------------------------------
  // The loops
  // -------------------------------------------------------------------------

  function Present(cs: seq<Candidate>): seq<Candidate> {
    if cs == [] then [] else (if cs[0].present then [cs[0]] else []) + Present(cs[1..])
  }

  method PresentOf(cs: seq<Candidate>) returns (r: seq<Candidate>)
    ensures r == Present(cs)
  {
    r := [];
    for i := 0 to |cs|
      invariant r + Present(cs[i..]) == Present(cs)
    {
      assert cs[i..][1..] == cs[i + 1..];
      if cs[i].present {
        r := r + [cs[i]];
      }
    }
  }

  predicate Differ(cs: seq<Candidate>) {
    |cs| >= 2 && exists i :: 1 <= i < |cs| && !EqualValue(cs[0].value, cs[i].value)
  }

  method DifferIn(cs: seq<Candidate>) returns (r: bool)
    ensures r == Differ(cs)
  {
    if |cs| < 2 {
      return false;
    }
    for i := 1 to |cs|
      invariant forall j :: 1 <= j < i ==> EqualValue(cs[0].value, cs[j].value)
    {
      if !EqualValue(cs[0].value, cs[i].value) {
        return true;
      }
    }
    return false;
  }

  predicate Eligible(c: Candidate, want: SourceKind, skipStale: bool) {
    c.source == want && !(skipStale && c.stale)
  }

  /** The first candidate of one source, passing over stale ones when asked to. */
  function FirstOf(cs: seq<Candidate>, want: SourceKind, skipStale: bool): Option<Candidate> {
    if cs == [] then None
    else if Eligible(cs[0], want, skipStale) then Some(cs[0])
    else FirstOf(cs[1..], want, skipStale)
  }

  method FindFirst(cs: seq<Candidate>, want: SourceKind, skipStale: bool) returns (r: Option<Candidate>)
    ensures r == FirstOf(cs, want, skipStale)
  {
    for i := 0 to |cs|
      invariant FirstOf(cs, want, skipStale) == FirstOf(cs[i..], want, skipStale)
    {
      assert cs[i..][1..] == cs[i + 1..];
      if Eligible(cs[i], want, skipStale) {
        return Some(cs[i]);
      }
    }
    r := None;
  }

  function FirstInOrder(cs: seq<Candidate>, order: seq<SourceKind>, skipStale: bool): Option<Candidate> {
    if order == [] then None
    else
      var c := FirstOf(cs, order[0], skipStale);
      if c.Some? then c else FirstInOrder(cs, order[1..], skipStale)
  }

  method FindFirstInOrder(cs: seq<Candidate>, order: seq<SourceKind>, skipStale: bool) returns (r: Option<Candidate>)
    ensures r == FirstInOrder(cs, order, skipStale)
  {
    for i := 0 to |order|
      invariant FirstInOrder(cs, order, skipStale) == FirstInOrder(cs, order[i..], skipStale)
    {
      assert order[i..][1..] == order[i + 1..];
      r := FindFirst(cs, order[i], skipStale);
      if r.Some? {
        return;
      }
    }
    r := None;
  }

  predicate AnyStale(cs: seq<Candidate>) {
    exists i :: 0 <= i < |cs| && cs[i].stale
  }

  function Others(cs: seq<Candidate>, winner: SourceKind): seq<SourceKind> {
    if cs == [] then []
    else (if cs[0].source != winner then [cs[0].source] else []) + Others(cs[1..], winner)
  }

  method OthersOf(cs: seq<Candidate>, winner: SourceKind) returns (r: seq<SourceKind>)
    ensures r == Others(cs, winner)
  {
    r := [];
    for i := 0 to |cs|
      invariant r + Others(cs[i..], winner) == Others(cs, winner)
    {
      assert cs[i..][1..] == cs[i + 1..];
      ghost var tail := Others(cs[i + 1..], winner);
      if cs[i].source != winner {
        assert (r + [cs[i].source]) + tail == r + ([cs[i].source] + tail);
        r := r + [cs[i].source];
      } else {
        assert Others(cs[i..], winner) == tail;
      }
    }
  }

  // -------------------------------------------------------------------------
  // Resolution
  // -------------------------------------------------------------------------

  function Verdicted(ps: seq<Candidate>, c: Candidate, rule: RuleId): Verdict {
    Verdict(c.source, rule, Differ(ps), Others(ps, c.source), c.value)
  }

  function Overrides(p: Policy, field: Field, ps: seq<Candidate>, running: bool): Option<Candidate> {
    if running && field in p.overrides then FirstOf(ps, Execution, false) else None
  }

  /** The configured order's choice among at least one present candidate. */
  function Chosen(ps: seq<Candidate>, order: seq<SourceKind>): (Candidate, RuleId)
    requires ps != []
  {
    var notStale := FirstInOrder(ps, order, true);
    var any := FirstInOrder(ps, order, false);
    if notStale.Some? then (notStale.value, if AnyStale(ps) then FreshBeatsStale else ConfiguredOrder)
    else if any.Some? then (any.value, ConfiguredOrder)
    else (ps[0], ConfiguredOrder)
  }

  method Choose(ps: seq<Candidate>, order: seq<SourceKind>) returns (winner: Candidate, rule: RuleId)
    requires ps != []
    ensures (winner, rule) == Chosen(ps, order)
  {
    winner, rule := ps[0], ConfiguredOrder;
    if |order| == 0 {
      return;
    }
    var c := FindFirstInOrder(ps, order, true);
    if c.Some? {
      winner := c.value;
      if exists i :: 0 <= i < |ps| && ps[i].stale {
        rule := FreshBeatsStale;
      }
      return;
    }
    c := FindFirstInOrder(ps, order, false);
    if c.Some? {
      winner := c.value;
    }
  }

  function Resolved(p: Policy, field: Field, cs: seq<Candidate>, running: bool): Verdict {
    var ps := Present(cs);
    if ps == [] then Verdict(NoSource, NoCandidate, false, [], Nil)
    else if |ps| == 1 then Verdict(ps[0].source, OnlyCandidate, false, [], ps[0].value)
    else Among(p, field, ps, running)
  }

  function Among(p: Policy, field: Field, ps: seq<Candidate>, running: bool): Verdict
    requires ps != []
  {
    var over := Overrides(p, field, ps, running);
    if over.Some? then Verdicted(ps, over.value, ExecutionRunning)
    else
      var (winner, rule) := Chosen(ps, Order(p, field));
      Verdicted(ps, winner, rule)
  }

  method Resolve(p: Policy, field: Field, cs: seq<Candidate>, running: bool) returns (v: Verdict)
    ensures v == Resolved(p, field, cs, running)
  {
    var ps := PresentOf(cs);
    if |ps| == 0 {
      return Verdict(NoSource, NoCandidate, false, [], Nil);
    }
    if |ps| == 1 {
      return Verdict(ps[0].source, OnlyCandidate, false, [], ps[0].value);
    }
    v := ResolveContested(p, field, ps, running);
  }

  /** The rules for two present candidates or more. */
  method ResolveContested(p: Policy, field: Field, ps: seq<Candidate>, running: bool) returns (v: Verdict)
    requires |ps| >= 2
    ensures v == Among(p, field, ps, running)
  {
    var conflict := DifferIn(ps);
    if running && field in p.overrides {
      var c := FindFirst(ps, Execution, false);
      FirstOfFacts(ps, Execution, false);
      if c.Some? {
        var rejected := OthersOf(ps, Execution);
        return Verdict(Execution, ExecutionRunning, conflict, rejected, c.value.value);
      }
    }
    var winner, rule := Choose(ps, if field in p.order then p.order[field] else []);
    var rejected := OthersOf(ps, winner.source);
    v := Verdict(winner.source, rule, conflict, rejected, winner.value);
  }

  // -------------------------------------------------------------------------
  // Facts about the helpers
  // -------------------------------------------------------------------------

  lemma {:induction false} PresentMembers(cs: seq<Candidate>)
    ensures forall c :: c in Present(cs) <==> c in cs && c.present
  {
    if cs != [] {
      PresentMembers(cs[1..]);
      assert cs == [cs[0]] + cs[1..];
    }
  }

  lemma {:induction false} FirstOfFacts(cs: seq<Candidate>, want: SourceKind, skipStale: bool)
    ensures var r := FirstOf(cs, want, skipStale);
      && (r.Some? ==> r.value in cs && Eligible(r.value, want, skipStale))
      && (r.None? ==> forall c <- cs :: !Eligible(c, want, skipStale))
  {
    if cs != [] {
      FirstOfFacts(cs[1..], want, skipStale);
      assert cs == [cs[0]] + cs[1..];
    }
  }

  /** The first position of a source in the configured order, or its length. */
  function Rank(order: seq<SourceKind>, k: SourceKind): nat {
    if order == [] || order[0] == k then 0 else 1 + Rank(order[1..], k)
  }

  lemma {:induction false} RankFacts(order: seq<SourceKind>, k: SourceKind)
    ensures Rank(order, k) <= |order|
    ensures k in order <==> Rank(order, k) < |order|
    ensures k in order ==> order[Rank(order, k)] == k
  {
    if order != [] {
      RankFacts(order[1..], k);
      assert order == [order[0]] + order[1..];
    }
  }

  /** A candidate the order may choose. */
  predicate Ranked(c: Candidate, order: seq<SourceKind>, skipStale: bool) {
    c.source in order && !(skipStale && c.stale)
  }

  /** The search returns the candidate the order ranks first, and nothing only if there is none. */
  lemma {:induction false} FirstInOrderIsMinimal(cs: seq<Candidate>, order: seq<SourceKind>, skipStale: bool)
    ensures var r := FirstInOrder(cs, order, skipStale);
      && (r.Some? ==>
            && r.value in cs && Ranked(r.value, order, skipStale)
            && forall c <- cs :: Ranked(c, order, skipStale) ==> Rank(order, r.value.source) <= Rank(order, c.source))
      && (r.None? ==> forall c <- cs :: !Ranked(c, order, skipStale))
  {
    if order != [] {
      FirstOfFacts(cs, order[0], skipStale);
      FirstInOrderIsMinimal(cs, order[1..], skipStale);
      assert order == [order[0]] + order[1..];
    }
  }

  // -------------------------------------------------------------------------
  // The reference
  // -------------------------------------------------------------------------

  /** The set of present candidates. */
  ghost function Offers(cs: seq<Candidate>): set<Candidate> {
    set c <- cs | c.present
  }

  ghost predicate RunningOverride(p: Policy, field: Field, offers: set<Candidate>, running: bool) {
    running && field in p.overrides && exists c <- offers :: c.source == Execution
  }

  ghost predicate BestIn(c: Candidate, offers: set<Candidate>, order: seq<SourceKind>, skipStale: bool) {
    && Ranked(c, order, skipStale)
    && forall o <- offers :: Ranked(o, order, skipStale) ==> Rank(order, c.source) <= Rank(order, o.source)
  }

  /** What it means for a present candidate to win its field. */
  ghost predicate Wins(p: Policy, field: Field, offers: set<Candidate>, running: bool, c: Candidate) {
    && c in offers
    && (offers == {c} || (
          var order := Order(p, field);
          if RunningOverride(p, field, offers, running) then c.source == Execution
          else if exists o <- offers :: Ranked(o, order, true) then BestIn(c, offers, order, true)
          else if exists o <- offers :: Ranked(o, order, false) then BestIn(c, offers, order, false)
          else true))
  }

  /**
  The winner is a present candidate, the value is its own, and it wins by the
  reference: a running execution's override first; else, whenever some candidate
  that is not stale is in the configured order, the one of those ranked first;
  else the one ranked first.
  */
  lemma WinnerIsDeserved(p: Policy, field: Field, cs: seq<Candidate>, running: bool)
    returns (c: Candidate)
    requires Offers(cs) != {}
    ensures Wins(p, field, Offers(cs), running, c)
    ensures var v := Resolved(p, field, cs, running); v.winner == c.source && v.value == c.value
  {
    var ps := Present(cs);
    PresentMembers(cs);
    assert forall x :: x in ps <==> x in Offers(cs);
    assert ps != [] by {
      var x :| x in Offers(cs);
      assert x in ps;
    }
    assert ps[0] in ps;
    c := ps[0];
    if |ps| == 1 {
      assert forall x <- Offers(cs) :: x in ps;
      assert Offers(cs) == {c};
      return;
    }
    c := WinnerAmong(p, field, ps, Offers(cs), running);
  }

  lemma WinnerAmong(p: Policy, field: Field, ps: seq<Candidate>, offers: set<Candidate>, running: bool)
    returns (c: Candidate)
    requires ps != [] && forall x :: x in ps <==> x in offers
    ensures Wins(p, field, offers, running, c)
    ensures var v := Among(p, field, ps, running); v.winner == c.source && v.value == c.value
  {
    var order := Order(p, field);
    FirstOfFacts(ps, Execution, false);
    FirstInOrderIsMinimal(ps, order, true);
    FirstInOrderIsMinimal(ps, order, false);
    var over := Overrides(p, field, ps, running);
    assert ps[0] in ps;
    c := ps[0];
    if over.Some? {
      c := over.value;
    } else if FirstInOrder(ps, order, true).Some? {
      c := FirstInOrder(ps, order, true).value;
    } else if FirstInOrder(ps, order, false).Some? {
      c := FirstInOrder(ps, order, false).value;
    }
  }

  /** No present candidate, no winner. */
  lemma NoOfferNoWinner(p: Policy, field: Field, cs: seq<Candidate>, running: bool)
    requires Offers(cs) == {}
    ensures Resolved(p, field, cs, running).winner == NoSource
  {
    PresentMembers(cs);
    assert forall c <- Present(cs) :: c in Offers(cs);
  }

  /** Sources are offered at most once each. */
  ghost predicate Distinct(offers: set<Candidate>) {
    forall a <- offers, b <- offers :: a.source == b.source ==> a == b
  }

  lemma WinnerIsUnique(p: Policy, field: Field, offers: set<Candidate>, running: bool, a: Candidate, b: Candidate)
    requires Distinct(offers) && Wins(p, field, offers, running, a) && Wins(p, field, offers, running, b)
    requires exists c <- offers :: c.source in Order(p, field)
    ensures a == b
  {
    var order := Order(p, field);
    RankFacts(order, a.source);
    RankFacts(order, b.source);
    assert exists o <- offers :: Ranked(o, order, false);
  }

  /**
  With distinct sources, and at least one present candidate in the configured
  order, winner and value do not depend on the order the candidates are listed in.
  */
  lemma ListOrderIsIrrelevant(p: Policy, field: Field, cs: seq<Candidate>, ds: seq<Candidate>, running: bool)
    requires Offers(cs) == Offers(ds) && Distinct(Offers(cs))
    requires exists c <- Offers(cs) :: c.source in Order(p, field)
    ensures var v, w := Resolved(p, field, cs, running), Resolved(p, field, ds, running);
            v.winner == w.winner && v.value == w.value
  {
    var c := WinnerIsDeserved(p, field, cs, running);
    var d := WinnerIsDeserved(p, field, ds, running);
    WinnerIsUnique(p, field, Offers(cs), running, c, d);
  }

  // -------------------------------------------------------------------------
  // Recency is not authority
  // -------------------------------------------------------------------------

  /** Two lists that agree in everything but the observation instants. */
  predicate SameButDates(cs: seq<Candidate>, ds: seq<Candidate>) {
    |cs| == |ds| && forall i :: 0 <= i < |cs| ==> cs[i].(observedAt := None) == ds[i].(observedAt := None)
  }

  function Undated(c: Option<Candidate>): Option<Candidate> {
    if c.None? then None else Some(c.value.(observedAt := None))
  }

  lemma {:induction false} PresentSame(cs: seq<Candidate>, ds: seq<Candidate>)
    requires SameButDates(cs, ds)
    ensures SameButDates(Present(cs), Present(ds))
  {
    if cs != [] {
      PresentSame(cs[1..], ds[1..]);
      assert cs[0].(observedAt := None).present == ds[0].(observedAt := None).present;
    }
  }

  lemma {:induction false} FirstOfSame(cs: seq<Candidate>, ds: seq<Candidate>, want: SourceKind, skipStale: bool)
    requires SameButDates(cs, ds)
    ensures Undated(FirstOf(cs, want, skipStale)) == Undated(FirstOf(ds, want, skipStale))
  {
    if cs != [] {
      FirstOfSame(cs[1..], ds[1..], want, skipStale);
      var c, d := cs[0].(observedAt := None), ds[0].(observedAt := None);
      assert c.source == d.source && c.stale == d.stale;
    }
  }

  lemma {:induction false} FirstInOrderSame(cs: seq<Candidate>, ds: seq<Candidate>, order: seq<SourceKind>,
                                            skipStale: bool)
    requires SameButDates(cs, ds)
    ensures Undated(FirstInOrder(cs, order, skipStale)) == Undated(FirstInOrder(ds, order, skipStale))
  {
    if order != [] {
      FirstOfSame(cs, ds, order[0], skipStale);
      FirstInOrderSame(cs, ds, order[1..], skipStale);
    }
  }

  lemma {:induction false} OthersSame(cs: seq<Candidate>, ds: seq<Candidate>, winner: SourceKind)
    requires SameButDates(cs, ds)
    ensures Others(cs, winner) == Others(ds, winner)
  {
    if cs != [] {
      OthersSame(cs[1..], ds[1..], winner);
      assert cs[0].(observedAt := None).source == ds[0].(observedAt := None).source;
    }
  }

  lemma FieldsSame(cs: seq<Candidate>, ds: seq<Candidate>)
    requires SameButDates(cs, ds)
    ensures forall i :: 0 <= i < |cs| ==>
              cs[i].source == ds[i].source && cs[i].stale == ds[i].stale && cs[i].value == ds[i].value
  {
    forall i | 0 <= i < |cs|
      ensures cs[i].source == ds[i].source && cs[i].stale == ds[i].stale && cs[i].value == ds[i].value
    {
      var c, d := cs[i].(observedAt := None), ds[i].(observedAt := None);
      assert c == d;
    }
  }

  lemma UndatedSame(a: Option<Candidate>, b: Option<Candidate>)
    requires Undated(a) == Undated(b)
    ensures a.Some? == b.Some?
    ensures a.Some? ==> a.value.source == b.value.source && a.value.value == b.value.value
  {
    if a.Some? {
      assert Undated(a).value.source == Undated(b).value.source;
    }
  }

  lemma ChosenSame(ps: seq<Candidate>, qs: seq<Candidate>, order: seq<SourceKind>)
    requires SameButDates(ps, qs) && ps != []
    ensures var c, d := Chosen(ps, order), Chosen(qs, order);
            c.0.source == d.0.source && c.0.value == d.0.value && c.1 == d.1
  {
    FieldsSame(ps, qs);
    FirstInOrderSame(ps, qs, order, true);
    UndatedSame(FirstInOrder(ps, order, true), FirstInOrder(qs, order, true));
    FirstInOrderSame(ps, qs, order, false);
    UndatedSame(FirstInOrder(ps, order, false), FirstInOrder(qs, order, false));
  }

  lemma VerdictSame(ps: seq<Candidate>, qs: seq<Candidate>, c: Candidate, d: Candidate, rule: RuleId)
    requires SameButDates(ps, qs) && c.source == d.source && c.value == d.value
    ensures Verdicted(ps, c, rule) == Verdicted(qs, d, rule)
  {
    FieldsSame(ps, qs);
    OthersSame(ps, qs, c.source);
  }

  /** The whole verdict is independent of when the sources observed their values. */
  lemma DatesAreIrrelevant(p: Policy, field: Field, cs: seq<Candidate>, ds: seq<Candidate>, running: bool)
    requires SameButDates(cs, ds)
    ensures Resolved(p, field, cs, running) == Resolved(p, field, ds, running)
  {
    var ps, qs := Present(cs), Present(ds);
    PresentSame(cs, ds);
    if |ps| == 1 {
      FieldsSame(ps, qs);
    } else if |ps| >= 2 {
      var over, over' := Overrides(p, field, ps, running), Overrides(p, field, qs, running);
      FirstOfSame(ps, qs, Execution, false);
      UndatedSame(over, over');
      if over.Some? {
        VerdictSame(ps, qs, over.value, over'.value, ExecutionRunning);
      } else {
        ChosenSame(ps, qs, Order(p, field));
        var c, d := Chosen(ps, Order(p, field)), Chosen(qs, Order(p, field));
        VerdictSame(ps, qs, c.0, d.0, c.1);
      }
    }
  }

  // -------------------------------------------------------------------------
  // Conflict
  // -------------------------------------------------------------------------

  /** Comparing with the first candidate finds a difference exactly when some pair differs. */
  lemma DifferPairwise(ps: seq<Candidate>)
    ensures Differ(ps) <==> exists i, j :: 0 <= i < j < |ps| && !EqualValue(ps[i].value, ps[j].value)
  {
    if Differ(ps) {
      var k :| 1 <= k < |ps| && !EqualValue(ps[0].value, ps[k].value);
      assert 0 <= 0 < k < |ps|;
    }
  }

  /**
  A conflict is reported exactly when two present candidates do not compare equal;
  for scalar values that is when two of them differ.
  */
  lemma ConflictExactly(p: Policy, field: Field, cs: seq<Candidate>, running: bool)
    ensures var ps := Present(cs);
      Resolved(p, field, cs, running).conflict <==>
        exists i, j :: 0 <= i < j < |ps| && !EqualValue(ps[i].value, ps[j].value)
    ensures var ps := Present(cs);
      (forall i :: 0 <= i < |ps| ==> !ps[i].value.Composite?) ==>
        (Resolved(p, field, cs, running).conflict <==> exists i, j :: 0 <= i < j < |ps| && ps[i].value != ps[j].value)
  {
    var ps := Present(cs);
    DifferPairwise(ps);
    assert Resolved(p, field, cs, running).conflict == Differ(ps);
    if forall i :: 0 <= i < |ps| ==> !ps[i].value.Composite? {
      assert forall i, j :: 0 <= i < j < |ps| ==>
        (EqualValue(ps[i].value, ps[j].value) <==> ps[i].value == ps[j].value);
    }
  }

  ghost predicate DistinctList(cs: seq<Candidate>) {
    forall i, j :: 0 <= i < j < |cs| ==> cs[i].source != cs[j].source
  }

  lemma {:induction false} PresentDistinct(cs: seq<Candidate>)
    requires DistinctList(cs)
    ensures DistinctList(Present(cs))
  {
    if cs != [] {
      PresentDistinct(cs[1..]);
      PresentMembers(cs[1..]);
      var r := Present(cs[1..]);
      forall i | 0 <= i < |r| ensures r[i].source != cs[0].source {
        assert r[i] in r;
        assert r[i] in cs[1..];
      }
    }
  }

  /** Two offers that do not compare equal. */
  ghost predicate Disputed(offers: set<Candidate>) {
    exists a <- offers, b <- offers :: a != b && !EqualValue(a.value, b.value)
  }

  lemma DifferIsDisputed(ps: seq<Candidate>, offers: set<Candidate>)
    requires DistinctList(ps) && Differ(ps) && forall c <- ps :: c in offers
    ensures Disputed(offers)
  {
    var k :| 1 <= k < |ps| && !EqualValue(ps[0].value, ps[k].value);
    var a, b := ps[0], ps[k];
    assert a in offers && b in offers && a != b;
  }

  lemma DisputedIsDiffer(ps: seq<Candidate>, offers: set<Candidate>)
    requires Disputed(offers) && forall c <- offers :: c in ps
    ensures Differ(ps)
  {
    var a, b :| a in offers && b in offers && a != b && !EqualValue(a.value, b.value);
    var i :| 0 <= i < |ps| && ps[i] == a;
    var j :| 0 <= j < |ps| && ps[j] == b;
    if i == 0 {
      assert !EqualValue(ps[0].value, ps[j].value);
    } else if j == 0 {
      assert !EqualValue(ps[0].value, ps[i].value);
    } else {
      assert !EqualValue(ps[0].value, ps[i].value) || !EqualValue(ps[0].value, ps[j].value);
    }
  }

  lemma DifferAsSet(cs: seq<Candidate>)
    requires DistinctList(cs)
    ensures Differ(Present(cs)) <==> Disputed(Offers(cs))
  {
    var ps, offers := Present(cs), Offers(cs);
    PresentMembers(cs);
    PresentDistinct(cs);
    if Differ(ps) {
      DifferIsDisputed(ps, offers);
    }
    if Disputed(offers) {
      DisputedIsDiffer(ps, offers);
    }
  }

  lemma ConflictIsDiffer(p: Policy, field: Field, cs: seq<Candidate>, running: bool)
    ensures Resolved(p, field, cs, running).conflict == Differ(Present(cs))
  {
  }

  /** Nor does the report of a conflict depend on the listing. */
  lemma ConflictIgnoresListOrder(p: Policy, field: Field, cs: seq<Candidate>, ds: seq<Candidate>, running: bool)
    requires Offers(cs) == Offers(ds) && DistinctList(cs) && DistinctList(ds)
    ensures Resolved(p, field, cs, running).conflict == Resolved(p, field, ds, running).conflict
  {
    ConflictIsDiffer(p, field, cs, running);
    ConflictIsDiffer(p, field, ds, running);
    DifferAsSet(cs);
    DifferAsSet(ds);
  }

  lemma {:induction false} OthersMembers(cs: seq<Candidate>, winner: SourceKind, k: SourceKind)
    ensures k in Others(cs, winner) <==> k != winner && exists c <- cs :: c.source == k
  {
    if cs != [] {
      OthersMembers(cs[1..], winner, k);
      assert cs == [cs[0]] + cs[1..];
    }
  }

  /** The rejected are the sources of the other present candidates, and no more. */
  lemma RejectedExactly(p: Policy, field: Field, cs: seq<Candidate>, running: bool, k: SourceKind)
    requires |Present(cs)| >= 2
    ensures var v := Resolved(p, field, cs, running);
            k in v.rejected <==> k != v.winner && exists c <- cs :: c.present && c.source == k
  {
    OthersMembers(Present(cs), Resolved(p, field, cs, running).winner, k);
    PresentMembers(cs);
  }
}
