/**
Many concurrent callers of `Executor.call` (internal/resilience/executor.go) over
one breaker: take a bulkhead token, ask the breaker, run, settle, release. Each
lock-protected breaker method is one atomic step, and steps of different callers
interleave freely on a clock that does not run backwards.

The ghost part of the state numbers the half-open episodes, and remembers for
each episode the outcomes recorded in it and how many of its settlements came
from calls admitted before it.
*/
module ExecutorModel {
  import opened Counting
  import opened BreakerModel

  datatype Call =
    | Arrived
    | Holding                 // has a bulkhead token
    | InFlight(episode: nat)  // admitted; 0 when admitted by a closed breaker
    | Leaving                 // must still release its token
    | Done

  datatype Verdict = Healthy | Faulty | ClientFault

  datatype Step =
    | Arrive
    | Acquire(caller: nat)
    | TurnAway(caller: nat)
    | Ask(caller: nat, now: int)
    | Settle(caller: nat, verdict: Verdict, now: int)
    | Release(caller: nat)
    | Health(now: int)

  datatype Params = Params(cfg: Config, startedAt: int, capacity: nat)

  datatype System = System(
    m: Machine,
    clock: int,
    calls: seq<Call>,
    episode: nat,       // half-open episodes begun so far
    strays: nat,        // settlements in this episode by calls admitted before it
    results: seq<bool>, // outcomes recorded in this episode
    answered: nat)      // how many of those came from the episode's own probes

  function Start(p: Params): System {
    System(INITIAL, p.startedAt, [], 0, 0, [], 0)
  }

  function HoldsToken(): Call -> bool {
    (c: Call) => c.Holding? || c.InFlight? || c.Leaving?
  }

  function ProbeOf(episode: nat): Call -> bool {
    (c: Call) => c == InFlight(episode)
  }

  /** Calls admitted in the current episode and not yet settled. */
  function Probes(s: System): nat {
    Count(s.calls, ProbeOf(s.episode))
  }

  predicate Enabled(p: Params, s: System, step: Step) {
    match step
    case Arrive => true
    case Acquire(i) => i < |s.calls| && s.calls[i].Arrived? && Count(s.calls, HoldsToken()) < p.capacity
    case TurnAway(i) => i < |s.calls| && s.calls[i].Arrived?
    case Ask(i, now) => i < |s.calls| && s.calls[i].Holding? && s.clock <= now
    case Settle(i, _, now) => i < |s.calls| && s.calls[i].InFlight? && s.clock <= now
    case Release(i) => i < |s.calls| && s.calls[i].Leaving?
    case Health(now) => s.clock <= now
  }

  /** Ghost bookkeeping of a step that may begin an episode. */
  function Begin(p: Params, s: System, now: int): System {
    if Due(p.cfg, s.m, now) then s.(episode := s.episode + 1, strays := 0, results := [], answered := 0) else s
  }

  function Become(s: System, i: nat, c: Call): System
    requires i < |s.calls|
  {
    s.(calls := s.calls[i := c])
  }

  function AskStep(p: Params, s: System, i: nat, now: int): System
    requires i < |s.calls|
  {
    var b := Begin(p, s, now);
    var (m, admitted) := Admit(p.cfg, p.startedAt, s.m, now);
    var c := if !admitted then Leaving else if m.status == HalfOpen then InFlight(b.episode) else InFlight(0);
    Become(b, i, c).(m := m, clock := now)
  }

  /** A settlement that reaches a half-open breaker belongs to the episode. */
  function Belongs(s: System, e: nat): System {
    if e != s.episode then s.(strays := s.strays + 1) else s
  }

  function SettleStep(p: Params, s: System, i: nat, v: Verdict, now: int): System
    requires i < |s.calls| && s.calls[i].InFlight?
  {
    var e := s.calls[i].episode;
    if v.ClientFault? then
      var b := if s.m.status == HalfOpen then Belongs(s, e) else s;
      Become(b, i, Leaving).(m := Abstain(p.cfg, s.m), clock := now)
    else
      var b := Begin(p, s, now);
      var halfOpen := Current(p.cfg, s.m, now).status == HalfOpen;
      var own := if e == b.episode then 1 else 0;
      var b' := if !halfOpen then b
                else Belongs(b, e).(results := b.results + [v.Healthy?], answered := b.answered + own);
      Become(b', i, Leaving).(m := Record(p.cfg, p.startedAt, s.m, v.Healthy?, now), clock := now)
  }

  function Apply(p: Params, s: System, step: Step): System
    requires Enabled(p, s, step)
  {
    match step
    case Arrive => s.(calls := s.calls + [Arrived])
    case Acquire(i) => Become(s, i, Holding)
    case TurnAway(i) => Become(s, i, Done)
    case Ask(i, now) => AskStep(p, s, i, now)
    case Settle(i, v, now) => SettleStep(p, s, i, v, now)
    case Release(i) => Become(s, i, Done)
    case Health(now) => Begin(p, s, now).(m := Query(p.cfg, s.m, now), clock := now)
  }

  /** A run: its states and the steps between them. */
  ghost predicate Run(p: Params, states: seq<System>, steps: seq<Step>) {
    && |states| == |steps| + 1
    && states[0] == Start(p)
    && forall i :: 0 <= i < |steps| ==> Follows(p, states[i], steps[i], states[i + 1])
  }

  ghost predicate Follows(p: Params, s: System, step: Step, s': System) {
    Enabled(p, s, step) && s' == Apply(p, s, step)
  }

  // -------------------------------------------------------------------------
  // What every step keeps
  // -------------------------------------------------------------------------

  ghost predicate Episode(p: Params, s: System) {
    && s.episode >= 1
    && s.m.calls <= Probes(s) <= s.m.calls + s.strays
    && (s.m.calls == 0 || s.m.calls <= p.cfg.halfOpenMaxCalls)
    && s.m.ok == |s.results|
    && (forall r <- s.results :: r)
    && (s.m.ok == 0 || s.m.ok < p.cfg.halfOpenSuccesses)
  }

  ghost predicate Inv(p: Params, s: System) {
    && (if s.m.status == HalfOpen then Episode(p, s) else s.m.ok == s.m.calls == 0)
    && s.m.calls >= 0
    && (forall c <- s.calls :: c.InFlight? ==> c.episode <= s.episode)
    && Count(s.calls, HoldsToken()) <= p.capacity
    && (p.cfg.halfOpenMaxCalls >= 1 ==> s.m.Reported() == s.m.status)
    && (s.m.status == Open ==> s.m.openedAt <= s.clock)
    && (!p.cfg.enabled ==> s.m.status == Closed)
  }

  lemma BecomeCounts(s: System, i: nat, c: Call, e: nat)
    requires i < |s.calls|
    ensures Count(Become(s, i, c).calls, ProbeOf(e)) + (if s.calls[i] == InFlight(e) then 1 else 0)
            == Count(s.calls, ProbeOf(e)) + (if c == InFlight(e) then 1 else 0)
    ensures Count(Become(s, i, c).calls, HoldsToken()) + (if HoldsToken()(s.calls[i]) then 1 else 0)
            == Count(s.calls, HoldsToken()) + (if HoldsToken()(c) then 1 else 0)
  {
    CountUpdate(s.calls, i, c, ProbeOf(e));
    CountUpdate(s.calls, i, c, HoldsToken());
  }

  /** A new episode starts with no probe of its own in flight. */
  lemma BeginCounts(p: Params, s: System, now: int)
    requires Inv(p, s)
    ensures Due(p.cfg, s.m, now) ==> Probes(Begin(p, s, now)) == 0
  {
    CountNone(s.calls, ProbeOf(s.episode + 1));
  }

  lemma QuietStepKeepsInv(p: Params, s: System, step: Step)
    requires Inv(p, s) && Enabled(p, s, step) && (step.Arrive? || step.Acquire? || step.TurnAway? || step.Release?)
    ensures Inv(p, Apply(p, s, step))
  {
    match step
    case Arrive =>
      CountAppend(s.calls, Arrived, ProbeOf(s.episode));
      CountAppend(s.calls, Arrived, HoldsToken());
    case Acquire(i) => BecomeCounts(s, i, Holding, s.episode);
    case TurnAway(i) => BecomeCounts(s, i, Done, s.episode);
    case Release(i) => BecomeCounts(s, i, Done, s.episode);
  }

  lemma AskKeepsInv(p: Params, s: System, i: nat, now: int)
    requires Inv(p, s) && Enabled(p, s, Ask(i, now))
    ensures Inv(p, Apply(p, s, Ask(i, now)))
  {
    BeginCounts(p, s, now);
    var b := Begin(p, s, now);
    BecomeCounts(b, i, AskStep(p, s, i, now).calls[i], b.episode);
  }

  lemma AbstainKeepsInv(p: Params, s: System, i: nat, now: int)
    requires Inv(p, s) && Enabled(p, s, Settle(i, ClientFault, now))
    ensures Inv(p, Apply(p, s, Settle(i, ClientFault, now)))
  {
    BecomeCounts(s, i, Leaving, s.episode);
    if s.calls[i] == InFlight(s.episode) {
      CountWitness(s.calls, i, ProbeOf(s.episode));
    }
  }

  /** The counts a recorded settlement leaves behind. */
  lemma SettleCounts(p: Params, s: System, i: nat, v: Verdict, now: int)
    requires Inv(p, s) && Enabled(p, s, Settle(i, v, now)) && !v.ClientFault?
    ensures var b, s' := Begin(p, s, now), Apply(p, s, Settle(i, v, now));
      && Count(s'.calls, HoldsToken()) == Count(s.calls, HoldsToken())
      && Probes(s') == Probes(b) - (if s.calls[i] == InFlight(b.episode) then 1 else 0)
      && (s.calls[i] == InFlight(b.episode) ==> Probes(b) >= 1 && !Due(p.cfg, s.m, now))
      && (Due(p.cfg, s.m, now) ==> Probes(b) == 0)
  {
    var b := Begin(p, s, now);
    BeginCounts(p, s, now);
    BecomeCounts(b, i, Leaving, b.episode);
    if s.calls[i] == InFlight(b.episode) {
      CountWitness(b.calls, i, ProbeOf(b.episode));
    }
  }

  lemma SuccessKeepsInv(p: Params, s: System, i: nat, now: int)
    requires Inv(p, s) && Enabled(p, s, Settle(i, Healthy, now))
    ensures Inv(p, Apply(p, s, Settle(i, Healthy, now)))
  {
    SettleCounts(p, s, i, Healthy, now);
  }

  lemma FailureKeepsInv(p: Params, s: System, i: nat, now: int)
    requires Inv(p, s) && Enabled(p, s, Settle(i, Faulty, now))
    ensures Inv(p, Apply(p, s, Settle(i, Faulty, now)))
  {
    SettleCounts(p, s, i, Faulty, now);
  }

  lemma StepKeepsInv(p: Params, s: System, step: Step)
    requires Inv(p, s) && Enabled(p, s, step)
    ensures Inv(p, Apply(p, s, step))
  {
    match step
    case Ask(i, now) => AskKeepsInv(p, s, i, now);
    case Settle(i, Healthy, now) => SuccessKeepsInv(p, s, i, now);
    case Settle(i, Faulty, now) => FailureKeepsInv(p, s, i, now);
    case Settle(i, ClientFault, now) => AbstainKeepsInv(p, s, i, now);
    case Health(now) => BeginCounts(p, s, now);
    case _ => QuietStepKeepsInv(p, s, step);
  }

  lemma {:induction false} InvHolds(p: Params, states: seq<System>, steps: seq<Step>, n: nat)
    requires Run(p, states, steps) && n < |states|
    ensures Inv(p, states[n])
  {
    if n > 0 {
      InvHolds(p, states, steps, n - 1);
      assert Follows(p, states[n - 1], steps[n - 1], states[n]);
      StepKeepsInv(p, states[n - 1], steps[n - 1]);
    }
  }

  // -------------------------------------------------------------------------
  // Theorems about whole runs
  // -------------------------------------------------------------------------

  /**
  Probe-slot accounting. The slot counter never exceeds the episode's own probes
  in flight, and the probes in flight exceed it by at most the number of late
  settlements that also gave a slot back. Without late settlements the count is
  exact and bounded by the configured maximum.
  */
  lemma ProbeSlotAccounting(p: Params, states: seq<System>, steps: seq<Step>, n: nat)
    requires Run(p, states, steps) && n < |states| && states[n].m.status == HalfOpen
    ensures var s := states[n];
      && 0 <= s.m.calls <= Probes(s) <= s.m.calls + s.strays
      && (s.m.calls == 0 || s.m.calls <= p.cfg.halfOpenMaxCalls)
      && (p.cfg.halfOpenMaxCalls >= 1 ==> Probes(s) <= p.cfg.halfOpenMaxCalls + s.strays)
      && (s.strays == 0 ==> Probes(s) == s.m.calls)
  {
    InvHolds(p, states, steps, n);
  }

  /**
  No slot leaks: when nothing is in flight the counter is zero, and every
  breaker that is not open admits the next call.
  */
  lemma QuietBreakerAdmits(p: Params, states: seq<System>, steps: seq<Step>, n: nat, now: int)
    requires Run(p, states, steps) && n < |states|
    requires p.cfg.halfOpenMaxCalls >= 1
    requires forall c <- states[n].calls :: !c.InFlight?
    ensures states[n].m.calls == 0
    ensures Admit(p.cfg, p.startedAt, states[n].m, now).1
            <==> (states[n].m.status != Open || Due(p.cfg, states[n].m, now))
  {
    InvHolds(p, states, steps, n);
    CountNone(states[n].calls, ProbeOf(states[n].episode));
  }

  /** Tokens bound the calls in flight whatever the breaker does. */
  lemma InFlightWithinCapacity(p: Params, states: seq<System>, steps: seq<Step>, n: nat)
    requires Run(p, states, steps) && n < |states|
    ensures Count(states[n].calls, (c: Call) => c.InFlight?) <= p.capacity
  {
    InvHolds(p, states, steps, n);
    CountMonotone(states[n].calls, (c: Call) => c.InFlight?, HoldsToken());
  }

  lemma ClockStep(p: Params, s: System, step: Step)
    requires Enabled(p, s, step)
    ensures s.clock <= Apply(p, s, step).clock
  {
  }

  predicate Admits(s: System, step: Step, s': System) {
    step.Ask? && step.caller < |s'.calls| && s'.calls[step.caller].InFlight?
  }

  /**
  Once open, the breaker stays open with the same opening instant, and admits
  nothing, at every instant before the timeout has elapsed.
  */
  lemma {:induction false} OpenRefusesUntilTimeout(p: Params, states: seq<System>, steps: seq<Step>, i: nat, j: nat)
    requires Run(p, states, steps) && i <= j < |states|
    requires states[i].m.status == Open
    requires states[j].clock - states[i].m.openedAt < p.cfg.openTimeout
    ensures states[j].m.status == Open && states[j].m.openedAt == states[i].m.openedAt
    ensures i < j ==> !Admits(states[j - 1], steps[j - 1], states[j])
    decreases j
  {
    if i < j {
      var s, step := states[j - 1], steps[j - 1];
      assert Follows(p, s, step, states[j]);
      ClockStep(p, s, step);
      OpenRefusesUntilTimeout(p, states, steps, i, j - 1);
      InvHolds(p, states, steps, j - 1);
    }
  }

  lemma OpeningStep(p: Params, s: System, step: Step)
    requires Enabled(p, s, step) && s.m.status == Closed && Apply(p, s, step).m.status == Open
    ensures step.Settle? && step.verdict == Faulty && p.cfg.enabled
    ensures Apply(p, s, step).clock == step.now && Apply(p, s, step).m.openedAt == step.now
    ensures var index := BucketIndex(p.cfg, p.startedAt, step.now);
      && RecordFailure(p.cfg, s.m, index, step.now).status == Open
      && Apply(p, s, step).m.log == s.m.log + [Event(index, Failure)]
  {
  }

  /**
  A closed breaker opens only when a failure is recorded while the last ten
  buckets hold enough requests and a failure ratio at the threshold, and the
  opening instant is that of the step.
  */
  lemma OpensOnlyOnEvidence(p: Params, states: seq<System>, steps: seq<Step>, n: nat)
    requires Run(p, states, steps) && n < |steps|
    requires states[n].m.status == Closed && states[n + 1].m.status == Open
    ensures steps[n].Settle? && steps[n].verdict == Faulty
    ensures var index := BucketIndex(p.cfg, p.startedAt, steps[n].now);
            var f, ok := Tally(states[n + 1].m.log, Failure, index), Tally(states[n + 1].m.log, Success, index);
            && f >= 1 && ok + f >= p.cfg.minimumRequests
            && f as real / (ok + f) as real >= p.cfg.failureThreshold
    ensures states[n + 1].m.openedAt == states[n + 1].clock == steps[n].now
    ensures states[n + 1].m.log ==
            states[n].m.log + [Event(BucketIndex(p.cfg, p.startedAt, steps[n].now), Failure)]
  {
    assert Follows(p, states[n], steps[n], states[n + 1]);
    OpeningStep(p, states[n], steps[n]);
    var log, index := states[n].m.log, BucketIndex(p.cfg, p.startedAt, steps[n].now);
    FailureOpens(p.cfg, states[n].m, index, steps[n].now);
    FailureNoted(log, index);
  }

  /**
  The breaker closes only out of an episode in which every recorded outcome was a
  success, and as soon as the configured number of them is reached.
  */
  lemma ClosesOnlyAfterSuccesses(p: Params, states: seq<System>, steps: seq<Step>, n: nat)
    requires Run(p, states, steps) && n < |steps|
    requires states[n].m.status != Closed && states[n + 1].m.status == Closed
    ensures var r := states[n + 1].results;
      && (forall ok <- r :: ok)
      && |r| == (if p.cfg.halfOpenSuccesses > 1 then p.cfg.halfOpenSuccesses else 1)
    ensures states[n + 1].m.log == []
  {
    InvHolds(p, states, steps, n);
    assert Follows(p, states[n], steps[n], states[n + 1]);
  }

  /** While an episode is undecided it has seen successes only, and too few of them. */
  lemma HalfOpenIsUndecided(p: Params, states: seq<System>, steps: seq<Step>, n: nat)
    requires Run(p, states, steps) && n < |states| && states[n].m.status == HalfOpen
    ensures forall ok <- states[n].results :: ok
    ensures |states[n].results| < (if p.cfg.halfOpenSuccesses > 1 then p.cfg.halfOpenSuccesses else 1)
  {
    InvHolds(p, states, steps, n);
  }

  /** The last state reported to the hook is the current state, under a validated probe limit. */
  lemma HookIsUpToDate(p: Params, states: seq<System>, steps: seq<Step>, n: nat)
    requires Run(p, states, steps) && n < |states| && p.cfg.halfOpenMaxCalls >= 1
    ensures states[n].m.Reported() == states[n].m.status
  {
    InvHolds(p, states, steps, n);
  }

  // -------------------------------------------------------------------------
  // The bookkeeping is the history
  // -------------------------------------------------------------------------

  /** What an episode has seen: late settlements, answers of its own probes, recorded outcomes. */
  datatype Ledger = Ledger(late: nat, own: nat, outcomes: seq<bool>)

  /** The step settles a call while, or as, the breaker is half-open. */
  predicate SettlesInEpisode(p: Params, s: System, step: Step) {
    step.Settle? && (s.m.status == HalfOpen || (step.verdict != ClientFault && Due(p.cfg, s.m, step.now)))
  }

  /**
  One step in the ledger: a new episode starts it afresh, and a settlement in the
  episode is a late one if its call was admitted before, and adds its outcome unless it
  is evidence of nothing.
  */
  function Entered(p: Params, s: System, step: Step, episode: nat, l: Ledger): Ledger
    requires Enabled(p, s, step)
  {
    var open := if s.episode == episode then l else Ledger(0, 0, []);
    if !SettlesInEpisode(p, s, step) then open
    else
      var late, said := s.calls[step.caller].episode < episode, step.verdict != ClientFault;
      Ledger(open.late + (if late then 1 else 0), open.own + (if !late && said then 1 else 0),
             open.outcomes + (if said then [step.verdict == Healthy] else []))
  }

  /** The ledger read off the states and steps of a run. */
  ghost function LedgerAt(p: Params, states: seq<System>, steps: seq<Step>, n: nat): Ledger
    requires Run(p, states, steps) && n < |states|
  {
    if n == 0 then Ledger(0, 0, [])
    else
      assert Follows(p, states[n - 1], steps[n - 1], states[n]);
      Entered(p, states[n - 1], steps[n - 1], states[n].episode, LedgerAt(p, states, steps, n - 1))
  }

  function Kept(s: System): Ledger {
    Ledger(s.strays, s.answered, s.results)
  }

  lemma StepKeepsLedger(p: Params, s: System, step: Step)
    requires Inv(p, s) && Enabled(p, s, step)
    ensures var s' := Apply(p, s, step); Kept(s') == Entered(p, s, step, s'.episode, Kept(s))
  {
  }

  /** The state's counts of an episode are those of the run, over every interleaving. */
  lemma {:induction false} LedgerIsHistory(p: Params, states: seq<System>, steps: seq<Step>, n: nat)
    requires Run(p, states, steps) && n < |states|
    ensures Kept(states[n]) == LedgerAt(p, states, steps, n)
  {
    if n > 0 {
      LedgerIsHistory(p, states, steps, n - 1);
      InvHolds(p, states, steps, n - 1);
      assert Follows(p, states[n - 1], steps[n - 1], states[n]);
      StepKeepsLedger(p, states[n - 1], steps[n - 1]);
    }
  }

  function IsHalfOpen(): Status -> bool {
    (st: Status) => st == HalfOpen
  }

  function Turns(m: Machine): nat {
    Count(m.entered, IsHalfOpen())
  }

  lemma TransitionTurns(m: Machine, to: Status, now: int)
    ensures Turns(Transition(m, to, now)) == Turns(m) + (if m.status != to && to == HalfOpen then 1 else 0)
  {
    CountAppend(m.entered, to, IsHalfOpen());
  }

  lemma SuccessTurns(cfg: Config, m: Machine, index: nat, now: int)
    ensures Turns(RecordSuccess(cfg, m, index, now)) == Turns(m)
  {
    var c := Noted(m, index, Success);
    TransitionTurns(c.(ok := c.ok + 1, calls := Decr(c.calls)), Closed, now);
  }

  lemma FailureTurns(cfg: Config, m: Machine, index: nat, now: int)
    ensures Turns(RecordFailure(cfg, m, index, now)) == Turns(m)
  {
    var c := Noted(m, index, Failure);
    TransitionTurns(c, Open, now);
    TransitionTurns(c.(calls := Decr(c.calls)), Open, now);
  }

  lemma RecordTurns(cfg: Config, startedAt: int, m: Machine, success: bool, now: int)
    requires cfg.enabled
    ensures Turns(Record(cfg, startedAt, m, success, now)) == Turns(m) + (if Due(cfg, m, now) then 1 else 0)
  {
    CurrentTurns(cfg, m, now);
    var c, index := Current(cfg, m, now), BucketIndex(cfg, startedAt, now);
    SuccessTurns(cfg, c, index, now);
    FailureTurns(cfg, c, index, now);
  }

  lemma CurrentTurns(cfg: Config, m: Machine, now: int)
    ensures Turns(Current(cfg, m, now)) == Turns(m) + (if Due(cfg, m, now) then 1 else 0)
  {
    TransitionTurns(m, HalfOpen, now);
  }

  /** Admission and a query turn the breaker only by advancing its timer. */
  lemma AdmitEnters(cfg: Config, startedAt: int, m: Machine, now: int)
    ensures Admit(cfg, startedAt, m, now).0.entered == if cfg.enabled then Current(cfg, m, now).entered else m.entered
    ensures Query(cfg, m, now).entered == Current(cfg, m, now).entered
  {
  }

  lemma AdmitTurns(cfg: Config, startedAt: int, m: Machine, now: int)
    ensures Turns(Admit(cfg, startedAt, m, now).0) == Turns(m) + (if cfg.enabled && Due(cfg, m, now) then 1 else 0)
    ensures Turns(Query(cfg, m, now)) == Turns(m) + (if Due(cfg, m, now) then 1 else 0)
  {
    AdmitEnters(cfg, startedAt, m, now);
    CurrentTurns(cfg, m, now);
  }

  lemma StepKeepsEpisodes(p: Params, s: System, step: Step)
    requires Inv(p, s) && Enabled(p, s, step) && s.episode == Turns(s.m)
    ensures var s' := Apply(p, s, step); s'.episode == Turns(s'.m)
  {
    match step
    case Ask(i, now) => AskKeepsEpisodes(p, s, i, now);
    case Health(now) => AdmitTurns(p.cfg, p.startedAt, s.m, now);
    case Settle(i, v, now) => SettleKeepsEpisodes(p, s, i, v, now);
    case _ =>
  }

  lemma AskKeepsEpisodes(p: Params, s: System, i: nat, now: int)
    requires Inv(p, s) && Enabled(p, s, Ask(i, now)) && s.episode == Turns(s.m)
    ensures var s' := AskStep(p, s, i, now); s'.episode == Turns(s'.m)
  {
    AdmitTurns(p.cfg, p.startedAt, s.m, now);
  }

  lemma SettleKeepsEpisodes(p: Params, s: System, i: nat, v: Verdict, now: int)
    requires Inv(p, s) && Enabled(p, s, Settle(i, v, now)) && s.episode == Turns(s.m)
    ensures var s' := SettleStep(p, s, i, v, now); s'.episode == Turns(s'.m)
  {
    if p.cfg.enabled {
      RecordTurns(p.cfg, p.startedAt, s.m, v.Healthy?, now);
    }
  }

  /** An episode is one turn to half-open. */
  lemma {:induction false} EpisodesAreTurns(p: Params, states: seq<System>, steps: seq<Step>, n: nat)
    requires Run(p, states, steps) && n < |states|
    ensures states[n].episode == Turns(states[n].m)
  {
    if n > 0 {
      EpisodesAreTurns(p, states, steps, n - 1);
      InvHolds(p, states, steps, n - 1);
      assert Follows(p, states[n - 1], steps[n - 1], states[n]);
      StepKeepsEpisodes(p, states[n - 1], steps[n - 1]);
    }
  }
}
