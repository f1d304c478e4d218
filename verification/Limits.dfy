/**
Where the bounds of the executor give way, exactly: how many probes can run at once,
whose successes close the breaker, and what the transition hook hears. Each is an
equivalence over all reachable states under a validated configuration.
*/
module ExecutorLimits {
  import opened Counting
  import opened BreakerModel
  import opened ExecutorModel

  // -------------------------------------------------------------------------
  // Reachable states
  // -------------------------------------------------------------------------

  ghost predicate Reachable(p: Params, s: System) {
    exists states: seq<System>, steps: seq<Step> :: Run(p, states, steps) && states[|steps|] == s
  }

  lemma ReachStart(p: Params)
    ensures Reachable(p, Start(p))
  {
    assert Run(p, [Start(p)], []);
  }

  lemma Reach(p: Params, s: System, step: Step)
    requires Reachable(p, s) && Enabled(p, s, step)
    ensures Reachable(p, Apply(p, s, step))
  {
    var states: seq<System>, steps: seq<Step> :| Run(p, states, steps) && states[|steps|] == s;
    var states', steps' := states + [Apply(p, s, step)], steps + [step];
    forall i | 0 <= i < |steps'| ensures Follows(p, states'[i], steps'[i], states'[i + 1]) {
      if i < |steps| {
        assert Follows(p, states[i], steps[i], states[i + 1]);
      }
    }
    assert Run(p, states', steps');
  }

  lemma ReachableInv(p: Params, s: System)
    requires Reachable(p, s)
    ensures Inv(p, s)
  {
    var states: seq<System>, steps: seq<Step> :| Run(p, states, steps) && states[|steps|] == s;
    InvHolds(p, states, steps, |steps|);
  }

  function Tokens(s: System): nat {
    Count(s.calls, HoldsToken())
  }

  function Admitted(s: System): Call {
    if s.m.status == HalfOpen then InFlight(s.episode) else InFlight(0)
  }

  /** A new caller arrives and takes a token. */
  lemma Hold(p: Params, s: System) returns (s': System)
    requires Reachable(p, s) && Tokens(s) < p.capacity
    ensures Reachable(p, s') && s' == s.(calls := s.calls + [Holding])
  {
    var n := |s.calls|;
    CountAppend(s.calls, Arrived, HoldsToken());
    Reach(p, s, Arrive);
    var a := Apply(p, s, Arrive);
    Reach(p, a, Acquire(n));
    s' := Apply(p, a, Acquire(n));
    assert s'.calls == s.calls + [Holding];
  }

  /** A new caller arrives, takes a token and is admitted. */
  lemma Enter(p: Params, s: System, now: int) returns (s': System)
    requires Reachable(p, s) && s.clock <= now && Tokens(s) < p.capacity
    requires Admit(p.cfg, p.startedAt, s.m, now).1 && !Due(p.cfg, s.m, now)
    ensures Reachable(p, s')
    ensures s' == s.(m := Admit(p.cfg, p.startedAt, s.m, now).0, clock := now, calls := s.calls + [Admitted(s)])
    ensures Tokens(s') == Tokens(s) + 1
    ensures Count(s'.calls, ProbeOf(s.episode)) ==
            Count(s.calls, ProbeOf(s.episode)) + (if Admitted(s) == InFlight(s.episode) then 1 else 0)
  {
    var n := |s.calls|;
    var h := Hold(p, s);
    Reach(p, h, Ask(n, now));
    s' := Apply(p, h, Ask(n, now));
    assert s'.calls == s.calls + [Admitted(s)];
    CountAppend(s.calls, Admitted(s), HoldsToken());
    CountAppend(s.calls, Admitted(s), ProbeOf(s.episode));
  }

  /** A whole call to a closed breaker that fails. */
  lemma Crash(p: Params, s: System) returns (s': System)
    requires Reachable(p, s) && p.cfg.enabled && s.m.status == Closed && Tokens(s) < p.capacity
    ensures Reachable(p, s')
    ensures s' == s.(m := Record(p.cfg, p.startedAt, s.m, false, s.clock), calls := s.calls + [Done])
    ensures Tokens(s') == Tokens(s)
  {
    var n := |s.calls|;
    var a := Enter(p, s, s.clock);
    Reach(p, a, Settle(n, Faulty, s.clock));
    var b := Apply(p, a, Settle(n, Faulty, s.clock));
    Reach(p, b, Release(n));
    s' := Apply(p, b, Release(n));
    assert s'.calls == s.calls + [Done];
    CountAppend(s.calls, Done, HoldsToken());
  }

  /** What the configuration loader demands of an enabled breaker, but for its probe limit. */
  predicate ValidatedBreaker(p: Params) {
    && p.cfg.enabled && 0.0 < p.cfg.failureThreshold <= 1.0 && p.cfg.minimumRequests >= 1
    && p.cfg.window > 0 && p.cfg.openTimeout > 0 && p.cfg.halfOpenSuccesses >= 1 && p.capacity >= 1
  }

  ghost predicate AllFailures(log: seq<Event>) {
    forall e <- log :: e == Event(0, Failure)
  }

  lemma FailuresTrip(p: Params, log: seq<Event>)
    requires ValidatedBreaker(p) && AllFailures(log)
    ensures Trips(p.cfg, Tally(log, Success, 0), Tally(log, Failure, 0)) <==> |log| >= p.cfg.minimumRequests
  {
    CountNone(log, InWindow(Success, 0));
    CountAll(log, InWindow(Failure, 0));
  }

  /** Nothing but failures so far, all in the first bucket, and too few to open the breaker. */
  ghost predicate Failing(p: Params, s: System, rounds: nat) {
    && s.m.status == Closed && s.clock == p.startedAt && s.episode == 0 && s.m.heard == s.m.entered
    && AllFailures(s.m.log) && |s.m.log| == rounds < p.cfg.minimumRequests
  }

  ghost predicate JustOpened(s: System) {
    s.m.status == s.m.Reported() == Open && s.m.openedAt == s.clock && s.episode == 0 && s.m.heard == s.m.entered
  }

  lemma AnotherFailure(p: Params, s: System, rounds: nat)
    requires ValidatedBreaker(p) && Failing(p, s, rounds)
    ensures var s' := s.(m := Record(p.cfg, p.startedAt, s.m, false, s.clock));
      if rounds + 1 < p.cfg.minimumRequests then Failing(p, s', rounds + 1) else JustOpened(s')
  {
    FailuresTrip(p, s.m.log + [Event(0, Failure)]);
    assert BucketIndex(p.cfg, p.startedAt, s.clock) == 0;
  }

  /** Failing calls open a closed breaker, whatever else is in flight. */
  lemma Outage(p: Params, start: System) returns (s: System)
    requires Reachable(p, start) && ValidatedBreaker(p) && Tokens(start) < p.capacity
    requires start.m == INITIAL && start.clock == p.startedAt && start.episode == 0
    ensures Reachable(p, s) && JustOpened(s)
    ensures Tokens(s) == Tokens(start) && start.calls <= s.calls
  {
    s := start;
    var rounds: nat := 0;
    while rounds < p.cfg.minimumRequests
      invariant Reachable(p, s) && Tokens(s) == Tokens(start) && start.calls <= s.calls
      invariant if rounds < p.cfg.minimumRequests then Failing(p, s, rounds) else JustOpened(s)
    {
      AnotherFailure(p, s, rounds);
      s := Crash(p, s);
      rounds := rounds + 1;
    }
  }

  /** Time passes until the outage's timeout is due, and a health query begins the first episode. */
  lemma FirstEpisode(p: Params, s: System) returns (s': System)
    requires Reachable(p, s) && ValidatedBreaker(p) && JustOpened(s)
    ensures Reachable(p, s') && s'.calls == s.calls && s'.episode == 1
    ensures s'.m.status == HalfOpen && s'.m.calls == s'.m.ok == s'.answered == 0 && s'.results == []
  {
    var now := s.clock + p.cfg.openTimeout;
    Reach(p, s, Health(now));
    s' := Apply(p, s, Health(now));
  }

  /** Several callers are admitted before anything has happened. */
  lemma Flights(p: Params, n: nat) returns (s: System)
    requires n <= p.capacity && p.cfg.enabled
    ensures Reachable(p, s) && s.m == INITIAL && s.clock == p.startedAt && s.episode == 0
    ensures Tokens(s) == |s.calls| == n && forall k :: 0 <= k < n ==> s.calls[k] == InFlight(0)
  {
    ReachStart(p);
    s := Start(p);
    while |s.calls| < n
      invariant Reachable(p, s) && s.m == INITIAL && s.clock == p.startedAt && s.episode == 0
      invariant Tokens(s) == |s.calls| <= n && forall k :: 0 <= k < |s.calls| ==> s.calls[k] == InFlight(0)
      decreases n - |s.calls|
    {
      s := Enter(p, s, p.startedAt);
    }
  }

  /** An episode begins with some calls from before the outage still in flight. */
  lemma LateEpisode(p: Params, n: nat) returns (s: System)
    requires ValidatedBreaker(p) && n < p.capacity
    ensures Reachable(p, s) && s.m.status == HalfOpen && s.episode == 1 && Tokens(s) == n && Probes(s) == 0
    ensures s.m.calls == s.m.ok == s.answered == 0
    ensures n <= |s.calls| && forall k :: 0 <= k < n ==> s.calls[k] == InFlight(0)
  {
    var early := Flights(p, n);
    s := Outage(p, early);
    ReachableInv(p, s);
    s := FirstEpisode(p, s);
    CountNone(s.calls, ProbeOf(1));
    assert forall k :: 0 <= k < n ==> s.calls[k] == early.calls[k];
  }

  /** As many probes as the limit allows. */
  lemma FillSlots(p: Params, start: System) returns (s: System)
    requires Reachable(p, start) && p.cfg.enabled
    requires start.m.status == HalfOpen && start.m.calls == 0 && Probes(start) == 0 && start.episode >= 1
    requires 0 <= p.cfg.halfOpenMaxCalls && Tokens(start) + p.cfg.halfOpenMaxCalls <= p.capacity
    ensures Reachable(p, s) && s.m.status == HalfOpen && s.episode == start.episode
    ensures s.m.calls == Probes(s) == p.cfg.halfOpenMaxCalls
    ensures Tokens(s) == Tokens(start) + p.cfg.halfOpenMaxCalls && start.calls <= s.calls
  {
    s := start;
    while s.m.calls < p.cfg.halfOpenMaxCalls
      invariant Reachable(p, s) && s.m.status == HalfOpen && s.episode == start.episode
      invariant s.m.calls == Probes(s) <= p.cfg.halfOpenMaxCalls
      invariant Tokens(s) == Tokens(start) + s.m.calls && start.calls <= s.calls
    {
      s := Enter(p, s, s.clock);
    }
  }

  /** A call admitted before the episode settles in it and gives back a slot it never took. */
  lemma LateSettlement(p: Params, s: System) returns (s': System)
    requires Reachable(p, s) && p.cfg.enabled && s.m.status == HalfOpen && s.episode >= 1
    requires s.calls != [] && s.calls[0] == InFlight(0) && s.m.calls == p.cfg.halfOpenMaxCalls >= 1
    ensures Reachable(p, s') && s'.m.status == HalfOpen && s'.episode == s.episode
    ensures s'.m.calls == p.cfg.halfOpenMaxCalls - 1 && Probes(s') == Probes(s) && Tokens(s') == Tokens(s) - 1
  {
    Reach(p, s, Settle(0, ClientFault, s.clock));
    var a := Apply(p, s, Settle(0, ClientFault, s.clock));
    Reach(p, a, Release(0));
    s' := Apply(p, a, Release(0));
    BecomeCounts(s, 0, Leaving, s.episode);
    BecomeCounts(a, 0, Done, s.episode);
  }

  /** With more tokens than probe slots, one probe too many gets through. */
  lemma ExtraProbe(p: Params) returns (s: System)
    requires ValidatedBreaker(p) && 1 <= p.cfg.halfOpenMaxCalls < p.capacity
    ensures Reachable(p, s) && s.m.status == HalfOpen && Probes(s) == p.cfg.halfOpenMaxCalls + 1
  {
    s := LateEpisode(p, 1);
    s := FillSlots(p, s);
    s := LateSettlement(p, s);
    s := Enter(p, s, s.clock);
  }

  /**
  Half-open keeps to its bound on concurrent probes in every run exactly when the
  bulkhead alone would: otherwise a call admitted before the outage settles during
  the episode, gives back a slot it never took, and one probe too many runs.
  */
  lemma ProbeLimitExactly(p: Params)
    requires ValidatedBreaker(p) && p.cfg.halfOpenMaxCalls >= 1
    ensures (forall s :: Reachable(p, s) && s.m.status == HalfOpen ==> Probes(s) <= p.cfg.halfOpenMaxCalls)
            <==> p.capacity <= p.cfg.halfOpenMaxCalls
  {
    if p.capacity > p.cfg.halfOpenMaxCalls {
      var s := ExtraProbe(p);
    } else {
      forall s | Reachable(p, s) ensures Probes(s) <= p.cfg.halfOpenMaxCalls {
        ReachableInv(p, s);
        CountMonotone(s.calls, ProbeOf(s.episode), HoldsToken());
      }
    }
  }

  // -------------------------------------------------------------------------
  // Whose successes close the breaker
  // -------------------------------------------------------------------------

  function Flying(): Call -> bool {
    (c: Call) => c.InFlight?
  }

  /** Calls in flight that were admitted before an episode. */
  function Before(episode: nat): Call -> bool {
    (c: Call) => c.InFlight? && c.episode < episode
  }

  function Late(s: System): nat {
    if s.m.status == HalfOpen then Count(s.calls, Before(s.episode)) else 0
  }

  /**
  The call whose failure opened the breaker held a token too, so all but one of the
  tokens bound the late calls: those still in flight and those whose outcome was
  recorded in the episode.
  */
  ghost predicate LateInv(p: Params, s: System) {
    && s.answered <= |s.results|
    && |s.results| - s.answered + Late(s) <= p.capacity - 1
    && (s.m.status == Open ==> Count(s.calls, Flying()) <= p.capacity - 1)
  }

  lemma MoveFlying(s: System, i: nat, c: Call, e: nat)
    requires i < |s.calls|
    ensures var now := s.calls[i := c];
      && Count(now, Flying()) + (if s.calls[i].InFlight? then 1 else 0)
         == Count(s.calls, Flying()) + (if c.InFlight? then 1 else 0)
      && Count(now, Before(e)) + (if Before(e)(s.calls[i]) then 1 else 0)
         == Count(s.calls, Before(e)) + (if Before(e)(c) then 1 else 0)
  {
    CountUpdate(s.calls, i, c, Flying());
    CountUpdate(s.calls, i, c, Before(e));
  }

  /** When an episode begins, every call in flight is a late one. */
  lemma AllLate(p: Params, s: System)
    requires Inv(p, s)
    ensures Count(s.calls, Before(s.episode + 1)) == Count(s.calls, Flying())
    ensures Count(s.calls, Flying()) <= p.capacity
  {
    CountSame(s.calls, Before(s.episode + 1), Flying());
    CountMonotone(s.calls, Flying(), HoldsToken());
  }

  lemma QuietKeepsLate(p: Params, s: System, step: Step)
    requires LateInv(p, s) && Enabled(p, s, step) && (step.Arrive? || step.Acquire? || step.TurnAway? || step.Release?)
    ensures LateInv(p, Apply(p, s, step))
  {
    if step.Arrive? {
      CountAppend(s.calls, Arrived, Flying());
      CountAppend(s.calls, Arrived, Before(s.episode));
    } else {
      MoveFlying(s, step.caller, Apply(p, s, step).calls[step.caller], s.episode);
    }
  }

  lemma AskKeepsLate(p: Params, s: System, i: nat, now: int)
    requires Inv(p, s) && LateInv(p, s) && Enabled(p, s, Ask(i, now))
    ensures LateInv(p, Apply(p, s, Ask(i, now)))
  {
    AllLate(p, s);
    var s' := Apply(p, s, Ask(i, now));
    MoveFlying(s, i, s'.calls[i], s'.episode);
  }

  lemma AbstainKeepsLate(p: Params, s: System, i: nat, now: int)
    requires LateInv(p, s) && Enabled(p, s, Settle(i, ClientFault, now))
    ensures LateInv(p, Apply(p, s, Settle(i, ClientFault, now)))
  {
    MoveFlying(s, i, Leaving, s.episode);
  }

  lemma SuccessKeepsLate(p: Params, s: System, i: nat, now: int)
    requires Inv(p, s) && LateInv(p, s) && Enabled(p, s, Settle(i, Healthy, now))
    ensures LateInv(p, Apply(p, s, Settle(i, Healthy, now)))
  {
    AllLate(p, s);
    MoveFlying(s, i, Leaving, Begin(p, s, now).episode);
  }

  lemma FailureKeepsLate(p: Params, s: System, i: nat, now: int)
    requires Inv(p, s) && LateInv(p, s) && Enabled(p, s, Settle(i, Faulty, now))
    ensures LateInv(p, Apply(p, s, Settle(i, Faulty, now)))
  {
    AllLate(p, s);
    MoveFlying(s, i, Leaving, Begin(p, s, now).episode);
  }

  lemma StepKeepsLate(p: Params, s: System, step: Step)
    requires Inv(p, s) && LateInv(p, s) && Enabled(p, s, step)
    ensures LateInv(p, Apply(p, s, step))
  {
    match step
    case Ask(i, now) => AskKeepsLate(p, s, i, now);
    case Settle(i, Healthy, now) => SuccessKeepsLate(p, s, i, now);
    case Settle(i, Faulty, now) => FailureKeepsLate(p, s, i, now);
    case Settle(i, ClientFault, now) => AbstainKeepsLate(p, s, i, now);
    case Health(_) => AllLate(p, s);
    case _ => QuietKeepsLate(p, s, step);
  }

  lemma {:induction false} LateHolds(p: Params, states: seq<System>, steps: seq<Step>, n: nat)
    requires Run(p, states, steps) && n < |states| && p.capacity >= 1
    ensures LateInv(p, states[n])
  {
    if n > 0 {
      LateHolds(p, states, steps, n - 1);
      InvHolds(p, states, steps, n - 1);
      assert Follows(p, states[n - 1], steps[n - 1], states[n]);
      StepKeepsLate(p, states[n - 1], steps[n - 1]);
    }
  }

  lemma ReachableLate(p: Params, s: System)
    requires Reachable(p, s) && p.capacity >= 1
    ensures Inv(p, s) && LateInv(p, s)
  {
    var states: seq<System>, steps: seq<Step> :| Run(p, states, steps) && states[|steps|] == s;
    InvHolds(p, states, steps, |steps|);
    LateHolds(p, states, steps, |steps|);
  }

  /** The step closes the breaker. */
  ghost predicate Closes(p: Params, s: System, step: Step) {
    Reachable(p, s) && Enabled(p, s, step) && s.m.status != Closed && Apply(p, s, step).m.status == Closed
  }

  /** Of the successes that close it, those the tokens cannot account for are the episode's own. */
  lemma OwnSuccesses(p: Params, s: System, step: Step)
    requires ValidatedBreaker(p) && Closes(p, s, step)
    ensures Apply(p, s, step).answered >= p.cfg.halfOpenSuccesses - p.capacity + 1
  {
    ReachableLate(p, s);
    StepKeepsLate(p, s, step);
  }

  /** One late success too few to close the breaker. */
  lemma LateSuccess(p: Params, s: System, i: nat) returns (s': System)
    requires Reachable(p, s) && p.cfg.enabled && s.m.status == HalfOpen && s.episode >= 1
    requires i < |s.calls| && s.calls[i] == InFlight(0) && s.m.ok + 1 < p.cfg.halfOpenSuccesses
    ensures Reachable(p, s') && s'.m.status == HalfOpen && s'.episode == s.episode && s'.answered == s.answered
    ensures s'.m.ok == s.m.ok + 1 && s'.calls == s.calls[i := Leaving]
  {
    Reach(p, s, Settle(i, Healthy, s.clock));
    s' := Apply(p, s, Settle(i, Healthy, s.clock));
  }

  /** With enough tokens, calls from before the outage close the breaker on their own. */
  lemma ClosedByLateCalls(p: Params) returns (s: System, step: Step)
    requires ValidatedBreaker(p) && p.cfg.halfOpenSuccesses < p.capacity
    ensures Closes(p, s, step) && Apply(p, s, step).answered == 0
  {
    var need := p.cfg.halfOpenSuccesses;
    s := LateEpisode(p, need);
    var j := 0;
    while j < need - 1
      invariant 0 <= j < need && Reachable(p, s) && s.m.status == HalfOpen && s.episode == 1
      invariant s.m.ok == j && s.answered == 0 && |s.calls| >= need
      invariant forall k :: j <= k < need ==> s.calls[k] == InFlight(0)
    {
      s := LateSuccess(p, s, j);
      j := j + 1;
    }
    step := Settle(j, Healthy, s.clock);
  }

  /**
  Closing takes the word of a probe of the episode itself in every run exactly when
  the bulkhead has no more slots than the successes it takes: otherwise calls from
  before the outage can close the breaker on their own.
  */
  lemma OwnProbeExactly(p: Params)
    requires ValidatedBreaker(p)
    ensures (forall s, step :: Closes(p, s, step) ==> Apply(p, s, step).answered >= 1)
            <==> p.capacity <= p.cfg.halfOpenSuccesses
  {
    if p.capacity > p.cfg.halfOpenSuccesses {
      var s, step := ClosedByLateCalls(p);
    } else {
      forall s, step | Closes(p, s, step) ensures Apply(p, s, step).answered >= 1 {
        OwnSuccesses(p, s, step);
      }
    }
  }

  // -------------------------------------------------------------------------
  // What the hook hears
  // -------------------------------------------------------------------------

  /** With no probe slot at all, the call that begins an episode is refused before the hook. */
  lemma UnreportedEpisode(p: Params) returns (s: System)
    requires ValidatedBreaker(p) && p.cfg.halfOpenMaxCalls < 1
    ensures Reachable(p, s) && s.m.status == HalfOpen && s.m.Reported() != HalfOpen && s.m.heard != s.m.entered
  {
    ReachStart(p);
    s := Outage(p, Start(p));
    var n := |s.calls|;
    s := Hold(p, s);
    s := RefusedProbe(p, s, n);
  }

  lemma RefusedProbe(p: Params, s: System, i: nat) returns (s': System)
    requires Reachable(p, s) && ValidatedBreaker(p) && p.cfg.halfOpenMaxCalls < 1
    requires i < |s.calls| && s.calls[i] == Holding
    requires JustOpened(s)
    ensures Reachable(p, s') && s'.m.status == HalfOpen && s'.m.Reported() == Open
    ensures s'.m.entered == s'.m.heard + [HalfOpen]
  {
    var now := s.clock + p.cfg.openTimeout;
    Reach(p, s, Ask(i, now));
    s' := Apply(p, s, Ask(i, now));
    assert Due(p.cfg, s.m, now);
  }

  /**
  The last state reported to the hook is the current one in every run, exactly for a
  probe limit of at least one. The configuration loader accepts no other.
  */
  lemma HookExactly(p: Params)
    requires ValidatedBreaker(p)
    ensures (forall s :: Reachable(p, s) ==> s.m.Reported() == s.m.status) <==> p.cfg.halfOpenMaxCalls >= 1
  {
    if p.cfg.halfOpenMaxCalls < 1 {
      var s := UnreportedEpisode(p);
    } else {
      forall s | Reachable(p, s) ensures s.m.Reported() == s.m.status {
        ReachableInv(p, s);
      }
    }
  }

  /**
  A call from before the outage fails once the timeout is due: in one step the
  breaker turns half-open and open again, and the hook hears neither change.
  */
  lemma SilentEpisode(p: Params) returns (s: System)
    requires ValidatedBreaker(p) && p.capacity >= 2
    ensures Reachable(p, s) && s.m.status == Open && s.m.openedAt == s.clock
    ensures s.m.entered == s.m.heard + [HalfOpen, Open]
  {
    s := Flights(p, 1);
    s := Outage(p, s);
    assert s.calls[0] == InFlight(0);
    var now := s.clock + p.cfg.openTimeout;
    Reach(p, s, Settle(0, Faulty, now));
    s := Apply(p, s, Settle(0, Faulty, now));
  }

  /** With a single token, a call in flight finds the breaker closed or half-open. */
  lemma NoneFlyingWhileOpen(p: Params, s: System)
    requires LateInv(p, s) && p.capacity == 1 && s.m.status == Open
    ensures forall i :: 0 <= i < |s.calls| ==> !s.calls[i].InFlight?
  {
    forall i | 0 <= i < |s.calls| ensures !s.calls[i].InFlight? {
      if s.calls[i].InFlight? {
        CountWitness(s.calls, i, Flying());
      }
    }
  }

  lemma StepIsHeard(p: Params, s: System, step: Step)
    requires Inv(p, s) && LateInv(p, s) && Enabled(p, s, step) && p.capacity == 1 && p.cfg.halfOpenMaxCalls >= 1
    requires s.m.heard == s.m.entered
    ensures var m := Apply(p, s, step).m; m.heard == m.entered
  {
    if step.Settle? && s.m.status == Open {
      NoneFlyingWhileOpen(p, s);
    }
  }

  lemma {:induction false} AllIsHeard(p: Params, states: seq<System>, steps: seq<Step>, n: nat)
    requires Run(p, states, steps) && n < |states| && p.capacity == 1 && p.cfg.halfOpenMaxCalls >= 1
    ensures states[n].m.heard == states[n].m.entered
  {
    if n > 0 {
      AllIsHeard(p, states, steps, n - 1);
      InvHolds(p, states, steps, n - 1);
      LateHolds(p, states, steps, n - 1);
      assert Follows(p, states[n - 1], steps[n - 1], states[n]);
      StepIsHeard(p, states[n - 1], steps[n - 1]);
    }
  }

  /**
  The hook hears every state change in every run exactly when there is a probe slot
  and the bulkhead has a single one.
  */
  lemma HookHearsAllExactly(p: Params)
    requires ValidatedBreaker(p)
    ensures (forall s :: Reachable(p, s) ==> s.m.heard == s.m.entered)
            <==> p.cfg.halfOpenMaxCalls >= 1 && p.capacity == 1
  {
    if p.cfg.halfOpenMaxCalls < 1 {
      var s := UnreportedEpisode(p);
    } else if p.capacity > 1 {
      var s := SilentEpisode(p);
    } else {
      forall s | Reachable(p, s) ensures s.m.heard == s.m.entered {
        var states: seq<System>, steps: seq<Step> :| Run(p, states, steps) && states[|steps|] == s;
        AllIsHeard(p, states, steps, |steps|);
      }
    }
  }
}
