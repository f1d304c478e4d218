/**
The bulkhead of internal/resilience/bulkhead.go under every interleaving. The two
buffered channels are counters bounded by their capacity, the atomic counters are
integers, and each channel operation or atomic update of each caller is one step.
*/
module BulkheadModel {
  import opened Counting

  /** Where one caller is, between arriving and having given back what it took. */
  datatype Phase =
    | Arrived
    | Missed        // the fast path found no free slot
    | Rejecting     // the queue was full
    | Queued        // has a wait slot, not yet counted as waiting
    | Waiting
    | Granted       // took a token from the queue, not yet counted in flight
    | Entered       // counted in flight, still counted as waiting
    | Unwaited      // no longer counted as waiting, still has its wait slot
    | Quitting      // timed out or cancelled
    | QuitCounted
    | QuitUnwaited
    | Refused
    | GotToken      // took a token on the fast path, not yet counted in flight
    | Running       // has its release function, which it may call as often as it likes
    | Releasing     // one release call has set the grant's flag, token not yet returned
    | Freed         // token returned, still counted in flight
    | Released

  /** One call of a grant's release function. */
  datatype ReleaseCall = ReleaseCall(grant: nat, at: Progress)

  datatype Progress =
    | Called
    | Won           // swapped the flag from clear to set
    | TokenReturned
    | Over          // returned, having found the flag set or done everything

  datatype Params = Params(capacity: nat, maxQueue: nat)

  datatype State = State(
    sem: int, waitSlots: int,                     // occupancy of the two channels
    inFlight: int, waiting: int, rejected: int,   // atomic counters
    callers: seq<Phase>,
    once: seq<bool>,                              // the flag of each caller's release function
    releases: seq<ReleaseCall>)

  datatype Step =
    | Arrive
    | TakeFast(i: nat) | MissFast(i: nat)
    | Enqueue(i: nat) | QueueFull(i: nat) | Reject(i: nat)
    | BeginWait(i: nat) | TakeQueued(i: nat) | GiveUp(i: nat) | CountGiveUp(i: nat)
    | Enter(i: nat) | Unwait(i: nat) | LeaveQueue(i: nat)
    | Release(i: nat) | Swap(c: nat) | Free(c: nat) | Uncount(c: nat)

  const START := State(0, 0, 0, 0, 0, [], [], [])

  predicate At(s: State, i: nat, p: Phase) {
    i < |s.callers| && s.callers[i] == p
  }

  predicate HasRelease(c: Phase) {
    c.Running? || c.Releasing? || c.Freed? || c.Released?
  }

  predicate Doing(s: State, c: nat, at: Progress) {
    c < |s.releases| && s.releases[c].at == at && s.releases[c].grant < |s.callers| == |s.once|
  }

  predicate Enabled(p: Params, s: State, step: Step) {
    match step
    case Arrive => true
    case TakeFast(i) => At(s, i, Arrived) && s.sem < p.capacity
    case MissFast(i) => At(s, i, Arrived) && s.sem >= p.capacity
    case Enqueue(i) => At(s, i, Missed) && s.waitSlots < p.maxQueue
    case QueueFull(i) => At(s, i, Missed) && s.waitSlots >= p.maxQueue
    case Reject(i) => At(s, i, Rejecting)
    case BeginWait(i) => At(s, i, Queued)
    case TakeQueued(i) => At(s, i, Waiting) && s.sem < p.capacity
    case GiveUp(i) => At(s, i, Waiting)
    case CountGiveUp(i) => At(s, i, Quitting)
    case Enter(i) => At(s, i, GotToken) || At(s, i, Granted)
    case Unwait(i) => At(s, i, Entered) || At(s, i, QuitCounted)
    case LeaveQueue(i) => At(s, i, Unwaited) || At(s, i, QuitUnwaited)
    case Release(i) => i < |s.callers| && HasRelease(s.callers[i])
    case Swap(c) => Doing(s, c, Called)
    case Free(c) => Doing(s, c, Won) && s.sem > 0
    case Uncount(c) => Doing(s, c, TokenReturned)
  }

  function To(s: State, i: nat, p: Phase): State
    requires i < |s.callers|
  {
    s.(callers := s.callers[i := p])
  }

  /** A release call moves on, and with it what has become of its grant. */
  function Advance(s: State, c: nat, at: Progress, p: Phase): State
    requires c < |s.releases| && s.releases[c].grant < |s.callers|
  {
    To(s, s.releases[c].grant, p).(releases := s.releases[c := s.releases[c].(at := at)])
  }

  function Apply(p: Params, s: State, step: Step): State
    requires Enabled(p, s, step)
  {
    match step
    case Arrive => s.(callers := s.callers + [Arrived], once := s.once + [false])
    case TakeFast(i) => To(s, i, GotToken).(sem := s.sem + 1)
    case MissFast(i) => To(s, i, Missed)
    case Enqueue(i) => To(s, i, Queued).(waitSlots := s.waitSlots + 1)
    case QueueFull(i) => To(s, i, Rejecting)
    case Reject(i) => To(s, i, Refused).(rejected := s.rejected + 1)
    case BeginWait(i) => To(s, i, Waiting).(waiting := s.waiting + 1)
    case TakeQueued(i) => To(s, i, Granted).(sem := s.sem + 1)
    case GiveUp(i) => To(s, i, Quitting)
    case CountGiveUp(i) => To(s, i, QuitCounted).(rejected := s.rejected + 1)
    case Enter(i) => To(s, i, if s.callers[i].GotToken? then Running else Entered).(inFlight := s.inFlight + 1)
    case Unwait(i) => To(s, i, if s.callers[i].Entered? then Unwaited else QuitUnwaited).(waiting := s.waiting - 1)
    case LeaveQueue(i) => To(s, i, if s.callers[i].Unwaited? then Running else Refused).(waitSlots := s.waitSlots - 1)
    case Release(i) => s.(releases := s.releases + [ReleaseCall(i, Called)])
    case Swap(c) =>
      var g := s.releases[c].grant;
      if s.once[g] then s.(releases := s.releases[c := ReleaseCall(g, Over)])
      else Advance(s, c, Won, Releasing).(once := s.once[g := true])
    case Free(c) => Advance(s, c, TokenReturned, Freed).(sem := s.sem - 1)
    case Uncount(c) => Advance(s, c, Over, Released).(inFlight := s.inFlight - 1)
  }

  ghost predicate Follows(p: Params, s: State, step: Step, s': State) {
    Enabled(p, s, step) && s' == Apply(p, s, step)
  }

  ghost predicate Run(p: Params, states: seq<State>, steps: seq<Step>) {
    && |states| == |steps| + 1
    && states[0] == START
    && forall i :: 0 <= i < |steps| ==> Follows(p, states[i], steps[i], states[i + 1])
  }

  // -------------------------------------------------------------------------
  // Who holds and who is counted
  // -------------------------------------------------------------------------

  function HoldsToken(): Phase -> bool {
    (c: Phase) => c.GotToken? || c.Granted? || c.Entered? || c.Unwaited? || c.Running? || c.Releasing?
  }

  function HoldsWaitSlot(): Phase -> bool {
    (c: Phase) => c.Queued? || c.Waiting? || c.Granted? || c.Entered? || c.Unwaited?
                  || c.Quitting? || c.QuitCounted? || c.QuitUnwaited?
  }

  function CountedInFlight(): Phase -> bool {
    (c: Phase) => c.Entered? || c.Unwaited? || c.Running? || c.Releasing? || c.Freed?
  }

  function CountedWaiting(): Phase -> bool {
    (c: Phase) => c.Waiting? || c.Granted? || c.Entered? || c.Quitting? || c.QuitCounted?
  }

  function CountedRejected(): Phase -> bool {
    (c: Phase) => c.QuitCounted? || c.QuitUnwaited? || c.Refused?
  }

  /** Callers that hold a token and are already counted in flight. */
  function HoldingCounted(): Phase -> bool {
    (c: Phase) => c.Entered? || c.Unwaited? || c.Running? || c.Releasing?
  }

  /** Callers that hold a token and are not yet counted in flight. */
  function HoldingUncounted(): Phase -> bool {
    (c: Phase) => c.GotToken? || c.Granted?
  }

  /** Callers that have returned their token and are still counted. */
  function FreedCounted(): Phase -> bool {
    (c: Phase) => c.Freed?
  }

  /** A flag is set exactly once its grant is being released, and by one call only. */
  ghost predicate Linked(s: State) {
    && |s.once| == |s.callers|
    && (forall i :: 0 <= i < |s.callers| ==> s.once[i] == (HasRelease(s.callers[i]) && !s.callers[i].Running?))
    && (forall c :: 0 <= c < |s.releases| ==> Matches(s, s.releases[c]))
    && (forall c, d :: 0 <= c < d < |s.releases| && Busy(s.releases[c]) && Busy(s.releases[d]) ==>
          s.releases[c].grant != s.releases[d].grant)
  }

  predicate Busy(r: ReleaseCall) {
    r.at.Won? || r.at.TokenReturned?
  }

  predicate Matches(s: State, r: ReleaseCall) {
    && r.grant < |s.callers| && HasRelease(s.callers[r.grant])
    && (r.at.Won? ==> s.callers[r.grant].Releasing?)
    && (r.at.TokenReturned? ==> s.callers[r.grant].Freed?)
  }

  ghost predicate Inv(p: Params, s: State) {
    Tallied(p, s) && Linked(s)
  }

  ghost predicate Tallied(p: Params, s: State) {
    && s.sem == Count(s.callers, HoldsToken()) && s.sem <= p.capacity
    && s.waitSlots == Count(s.callers, HoldsWaitSlot()) && s.waitSlots <= p.maxQueue
    && s.inFlight == Count(s.callers, CountedInFlight())
    && s.waiting == Count(s.callers, CountedWaiting())
    && s.rejected == Count(s.callers, CountedRejected())
  }

  function One(b: bool): int {
    if b then 1 else 0
  }

  /** How a counter shifts when one caller moves from one phase to another. */
  function Shift(p: Phase -> bool, was: Phase, becomes: Phase): int {
    One(p(becomes)) - One(p(was))
  }

  /** The counters stay in step if each shifts as the caller's move says. */
  lemma MoveTallied(p: Params, s: State, s': State, i: nat)
    requires Tallied(p, s) && i < |s.callers| == |s'.callers| && s'.callers == s.callers[i := s'.callers[i]]
    requires s'.sem == s.sem + Shift(HoldsToken(), s.callers[i], s'.callers[i]) <= p.capacity
    requires s'.waitSlots == s.waitSlots + Shift(HoldsWaitSlot(), s.callers[i], s'.callers[i]) <= p.maxQueue
    requires s'.inFlight == s.inFlight + Shift(CountedInFlight(), s.callers[i], s'.callers[i])
    requires s'.waiting == s.waiting + Shift(CountedWaiting(), s.callers[i], s'.callers[i])
    requires s'.rejected == s.rejected + Shift(CountedRejected(), s.callers[i], s'.callers[i])
    ensures Tallied(p, s')
  {
    var c := s'.callers[i];
    CountUpdate(s.callers, i, c, HoldsToken());
    CountUpdate(s.callers, i, c, HoldsWaitSlot());
    CountUpdate(s.callers, i, c, CountedInFlight());
    CountUpdate(s.callers, i, c, CountedWaiting());
    CountUpdate(s.callers, i, c, CountedRejected());
  }

  lemma ArrivalTallied(p: Params, s: State)
    requires Tallied(p, s)
    ensures Tallied(p, Apply(p, s, Arrive))
  {
    CountAppend(s.callers, Arrived, HoldsToken());
    CountAppend(s.callers, Arrived, HoldsWaitSlot());
    CountAppend(s.callers, Arrived, CountedInFlight());
    CountAppend(s.callers, Arrived, CountedWaiting());
    CountAppend(s.callers, Arrived, CountedRejected());
  }

  lemma TakeStepTallied(p: Params, s: State, step: Step)
    requires Tallied(p, s) && Enabled(p, s, step)
    requires step.TakeFast? || step.TakeQueued? || step.Enter?
    ensures Tallied(p, Apply(p, s, step))
  {
    MoveTallied(p, s, Apply(p, s, step), step.i);
  }

  lemma ReleaseStepTallied(p: Params, s: State, step: Step)
    requires Inv(p, s) && Enabled(p, s, step)
    requires step.Swap? || step.Free? || step.Uncount?
    ensures Tallied(p, Apply(p, s, step))
  {
    var r := s.releases[step.c];
    assert Matches(s, r);
    MoveTallied(p, s, Apply(p, s, step), r.grant);
  }

  lemma QueueStepTallied(p: Params, s: State, step: Step)
    requires Tallied(p, s) && Enabled(p, s, step)
    requires step.Enqueue? || step.BeginWait? || step.Unwait? || step.LeaveQueue?
    ensures Tallied(p, Apply(p, s, step))
  {
    MoveTallied(p, s, Apply(p, s, step), step.i);
  }

  lemma RefusalStepTallied(p: Params, s: State, step: Step)
    requires Tallied(p, s) && Enabled(p, s, step)
    requires step.MissFast? || step.QueueFull? || step.Reject? || step.GiveUp? || step.CountGiveUp?
    ensures Tallied(p, Apply(p, s, step))
  {
    MoveTallied(p, s, Apply(p, s, step), step.i);
  }

  lemma StepTallied(p: Params, s: State, step: Step)
    requires Inv(p, s) && Enabled(p, s, step)
    ensures Tallied(p, Apply(p, s, step))
  {
    if step.Arrive? {
      ArrivalTallied(p, s);
    } else if step.Enqueue? || step.BeginWait? || step.Unwait? || step.LeaveQueue? {
      QueueStepTallied(p, s, step);
    } else if step.MissFast? || step.QueueFull? || step.Reject? || step.GiveUp? || step.CountGiveUp? {
      RefusalStepTallied(p, s, step);
    } else if step.TakeFast? || step.TakeQueued? || step.Enter? {
      TakeStepTallied(p, s, step);
    } else if !step.Release? {
      ReleaseStepTallied(p, s, step);
    }
  }

  predicate Acquiring(step: Step) {
    !step.Arrive? && !step.Release? && !step.Swap? && !step.Free? && !step.Uncount?
  }

  /** Until a caller gets its release function, its steps touch no flag and no release call. */
  lemma AcquiringMoves(p: Params, s: State, step: Step)
    requires Enabled(p, s, step) && Acquiring(step)
    ensures var s' := Apply(p, s, step);
      && s'.once == s.once && s'.releases == s.releases && step.i < |s.callers|
      && s'.callers == s.callers[step.i := s'.callers[step.i]]
      && !HasRelease(s.callers[step.i]) && (HasRelease(s'.callers[step.i]) ==> s'.callers[step.i].Running?)
  {
  }

  lemma AcquiringLinked(p: Params, s: State, step: Step)
    requires Linked(s) && Enabled(p, s, step) && Acquiring(step)
    ensures Linked(Apply(p, s, step))
  {
    AcquiringMoves(p, s, step);
    MovedLinked(s, Apply(p, s, step), step.i);
  }

  lemma MovedLinked(s: State, s': State, i: nat)
    requires Linked(s) && s'.once == s.once && s'.releases == s.releases && i < |s.callers| == |s'.callers|
    requires s'.callers == s.callers[i := s'.callers[i]]
    requires !HasRelease(s.callers[i]) && (HasRelease(s'.callers[i]) ==> s'.callers[i].Running?)
    ensures Linked(s')
  {
    forall k | 0 <= k < |s'.releases| ensures Matches(s', s'.releases[k]) {
      assert Matches(s, s.releases[k]);
    }
  }

  lemma GrownLinked(p: Params, s: State, step: Step)
    requires Linked(s) && Enabled(p, s, step) && (step.Arrive? || step.Release?)
    ensures Linked(Apply(p, s, step))
  {
    var s' := Apply(p, s, step);
    forall k | 0 <= k < |s'.releases| ensures Matches(s', s'.releases[k]) {
      assert k < |s.releases| ==> Matches(s, s.releases[k]);
    }
  }

  lemma ReleaseLinked(p: Params, s: State, step: Step)
    requires Linked(s) && Enabled(p, s, step)
    requires step.Swap? || step.Free? || step.Uncount?
    ensures Linked(Apply(p, s, step))
  {
    var s' := Apply(p, s, step);
    assert Matches(s, s.releases[step.c]);
    forall k | 0 <= k < |s'.releases| ensures Matches(s', s'.releases[k]) {
      assert Matches(s, s.releases[k]);
    }
    forall c, d | 0 <= c < d < |s'.releases| && Busy(s'.releases[c]) && Busy(s'.releases[d])
      ensures s'.releases[c].grant != s'.releases[d].grant
    {
      assert Matches(s, s.releases[c]) && Matches(s, s.releases[d]);
    }
  }

  lemma StepLinked(p: Params, s: State, step: Step)
    requires Linked(s) && Enabled(p, s, step)
    ensures Linked(Apply(p, s, step))
  {
    if Acquiring(step) {
      AcquiringLinked(p, s, step);
    } else if step.Arrive? || step.Release? {
      GrownLinked(p, s, step);
    } else {
      ReleaseLinked(p, s, step);
    }
  }

  lemma StepKeepsInv(p: Params, s: State, step: Step)
    requires Inv(p, s) && Enabled(p, s, step)
    ensures Inv(p, Apply(p, s, step))
  {
    StepTallied(p, s, step);
    StepLinked(p, s, step);
  }

  lemma {:induction false} InvHolds(p: Params, states: seq<State>, steps: seq<Step>, n: nat)
    requires Run(p, states, steps) && n < |states|
    ensures Inv(p, states[n])
  {
    if n > 0 {
      InvHolds(p, states, steps, n - 1);
      assert Follows(p, states[n - 1], steps[n - 1], states[n]);
      StepKeepsInv(p, states[n - 1], steps[n - 1]);
    }
  }

  // -------------------------------------------------------------------------
  // Theorems about whole runs
  // -------------------------------------------------------------------------

  /**
  Safety and exact accounting: token holders stay within capacity, queued callers
  within the queue, and the in-flight gauge counts the holders already counted
  plus those that returned their token and have not yet been uncounted.
  */
  lemma Accounting(p: Params, states: seq<State>, steps: seq<Step>, n: nat)
    requires Run(p, states, steps) && n < |states|
    ensures var s := states[n];
      && Count(s.callers, HoldsToken()) == s.sem <= p.capacity
      && Count(s.callers, HoldsWaitSlot()) == s.waitSlots <= p.maxQueue
      && s.inFlight == Count(s.callers, HoldingCounted()) + Count(s.callers, FreedCounted())
      && s.inFlight == s.sem + Count(s.callers, FreedCounted()) - Count(s.callers, HoldingUncounted())
      && s.waiting == Count(s.callers, CountedWaiting())
      && s.rejected == Count(s.callers, CountedRejected())
  {
    InvHolds(p, states, steps, n);
    var c := states[n].callers;
    CountSplit(c, CountedInFlight(), HoldingCounted(), FreedCounted());
    CountSplit(c, HoldsToken(), HoldingCounted(), HoldingUncounted());
  }

  /**
  Nobody is turned away with room left. A caller that has just arrived gets a token
  exactly while fewer than `capacity` callers hold one; one that missed it gets a wait
  slot exactly while fewer than `maxQueue` hold one, and is rejected at once exactly
  when that many do; one that waits can take any token that comes free.
  */
  lemma AdmissionExactly(p: Params, states: seq<State>, steps: seq<Step>, n: nat, i: nat)
    requires Run(p, states, steps) && n < |states| && i < |states[n].callers|
    ensures var s := states[n];
            var tokens, slots := Count(s.callers, HoldsToken()), Count(s.callers, HoldsWaitSlot());
      && (Enabled(p, s, TakeFast(i)) <==> s.callers[i].Arrived? && tokens < p.capacity)
      && (Enabled(p, s, MissFast(i)) <==> s.callers[i].Arrived? && tokens == p.capacity)
      && (Enabled(p, s, Enqueue(i)) <==> s.callers[i].Missed? && slots < p.maxQueue)
      && (Enabled(p, s, QueueFull(i)) <==> s.callers[i].Missed? && slots == p.maxQueue)
      && (Enabled(p, s, TakeQueued(i)) <==> s.callers[i].Waiting? && tokens < p.capacity)
  {
    InvHolds(p, states, steps, n);
  }

  /** A caller that has been turned away, or is about to be. */
  predicate TurnedAway(c: Phase) {
    c.Rejecting? || c.Quitting? || c.QuitCounted? || c.QuitUnwaited? || c.Refused?
  }

  lemma TurnedAwayStep(p: Params, s: State, step: Step, s': State, i: nat)
    requires Follows(p, s, step, s') && i < |s'.callers| && TurnedAway(s'.callers[i])
    requires i >= |s.callers| || !TurnedAway(s.callers[i])
    ensures i < |s.callers| && (step == GiveUp(i) || step == QueueFull(i))
  {
  }

  /** And only a full queue, or giving up the wait, turns a caller away. */
  lemma {:induction false} RefusedForCause(p: Params, states: seq<State>, steps: seq<Step>, n: nat, i: nat)
    returns (m: nat)
    requires Run(p, states, steps) && n < |states| && i < |states[n].callers| && TurnedAway(states[n].callers[i])
    ensures m < n && (steps[m] == GiveUp(i) || steps[m] == QueueFull(i))
    ensures i < |states[m].callers|
    ensures steps[m].QueueFull? ==> Count(states[m].callers, HoldsWaitSlot()) == p.maxQueue
  {
    assert n > 0;
    m := n - 1;
    assert Follows(p, states[m], steps[m], states[n]);
    if i < |states[m].callers| && TurnedAway(states[m].callers[i]) {
      m := RefusedForCause(p, states, steps, m, i);
    } else {
      TurnedAwayStep(p, states[m], steps[m], states[n], i);
      AdmissionExactly(p, states, steps, m, i);
    }
  }

  /** Every grant being released has the release call that is at it. */
  ghost predicate Attended(s: State) {
    && (forall i :: 0 <= i < |s.callers| && s.callers[i].Releasing? ==> AtWork(s, i, Won))
    && (forall i :: 0 <= i < |s.callers| && s.callers[i].Freed? ==> AtWork(s, i, TokenReturned))
  }

  ghost predicate AtWork(s: State, i: nat, at: Progress) {
    exists c :: 0 <= c < |s.releases| && s.releases[c] == ReleaseCall(i, at)
  }

  lemma AtWorkStays(s: State, s': State, i: nat, at: Progress)
    requires AtWork(s, i, at)
    requires forall c :: 0 <= c < |s.releases| && s.releases[c] == ReleaseCall(i, at) ==>
               c < |s'.releases| && s'.releases[c] == s.releases[c]
    ensures AtWork(s', i, at)
  {
    var c :| 0 <= c < |s.releases| && s.releases[c] == ReleaseCall(i, at);
    assert s'.releases[c] == ReleaseCall(i, at);
  }

  lemma ReleaseAttended(p: Params, s: State, step: Step)
    requires Linked(s) && Attended(s) && Enabled(p, s, step) && (step.Swap? || step.Free? || step.Uncount?)
    ensures Attended(Apply(p, s, step))
  {
    var s', g := Apply(p, s, step), s.releases[step.c].grant;
    assert Matches(s, s.releases[step.c]);
    assert s'.releases[step.c].grant == g;
    forall i | 0 <= i < |s'.callers| && (s'.callers[i].Releasing? || s'.callers[i].Freed?)
      ensures AtWork(s', i, if s'.callers[i].Releasing? then Won else TokenReturned)
    {
      if s'.callers[i] == s.callers[i] {
        AtWorkStays(s, s', i, if s'.callers[i].Releasing? then Won else TokenReturned);
      } else {
        assert i == g && s'.releases[step.c] == ReleaseCall(i, if s'.callers[i].Releasing? then Won else TokenReturned);
      }
    }
  }

  lemma StepAttended(p: Params, s: State, step: Step)
    requires Linked(s) && Attended(s) && Enabled(p, s, step)
    ensures Attended(Apply(p, s, step))
  {
    var s' := Apply(p, s, step);
    if step.Swap? || step.Free? || step.Uncount? {
      ReleaseAttended(p, s, step);
    } else {
      if Acquiring(step) {
        AcquiringMoves(p, s, step);
      }
      forall i | 0 <= i < |s'.callers| && (s'.callers[i].Releasing? || s'.callers[i].Freed?)
        ensures AtWork(s', i, if s'.callers[i].Releasing? then Won else TokenReturned)
      {
        AtWorkStays(s, s', i, if s'.callers[i].Releasing? then Won else TokenReturned);
      }
    }
  }

  lemma {:induction false} AttendedHolds(p: Params, states: seq<State>, steps: seq<Step>, n: nat)
    requires Run(p, states, steps) && n < |states|
    ensures Linked(states[n]) && Attended(states[n])
  {
    LinkedHolds(p, states, steps, n);
    if n > 0 {
      AttendedHolds(p, states, steps, n - 1);
      assert Follows(p, states[n - 1], steps[n - 1], states[n]);
      StepAttended(p, states[n - 1], steps[n - 1]);
    }
  }

  /** A step that moves caller `i` on, or the release call at work on its grant. */
  predicate Moves(s: State, step: Step, i: nat) {
    match step
    case Arrive => false
    case Release(_) => false
    case Swap(c) => false
    case Free(c) => c < |s.releases| && s.releases[c].grant == i
    case Uncount(c) => c < |s.releases| && s.releases[c].grant == i
    case _ => step.i == i
  }

  /**
  Nobody is stuck. In every run, a caller that is neither done nor running its call has
  a step of its own to take; even one that waits can give up.
  */
  lemma NeverStuck(p: Params, states: seq<State>, steps: seq<Step>, n: nat, i: nat) returns (step: Step)
    requires Run(p, states, steps) && n < |states| && i < |states[n].callers|
    requires var c := states[n].callers[i]; !c.Running? && !c.Refused? && !c.Released?
    ensures Enabled(p, states[n], step) && Moves(states[n], step, i)
    ensures states[n].callers[i].Waiting? ==> step == GiveUp(i)
  {
    AttendedHolds(p, states, steps, n);
    var s := states[n];
    match s.callers[i]
    case Arrived => step := if s.sem < p.capacity then TakeFast(i) else MissFast(i);
    case Missed => step := if s.waitSlots < p.maxQueue then Enqueue(i) else QueueFull(i);
    case Rejecting => step := Reject(i);
    case Queued => step := BeginWait(i);
    case Waiting => step := GiveUp(i);
    case Granted => step := Enter(i);
    case GotToken => step := Enter(i);
    case Entered => step := Unwait(i);
    case QuitCounted => step := Unwait(i);
    case Unwaited => step := LeaveQueue(i);
    case QuitUnwaited => step := LeaveQueue(i);
    case Quitting => step := CountGiveUp(i);
    case Releasing =>
      var c :| 0 <= c < |s.releases| && s.releases[c] == ReleaseCall(i, Won);
      FreeNeverBlocks(p, states, steps, n, c);
      step := Free(c);
    case Freed =>
      var c :| 0 <= c < |s.releases| && s.releases[c] == ReleaseCall(i, TokenReturned);
      step := Uncount(c);
  }

  predicate Saturated(p: Params, s: State) {
    s.inFlight >= p.capacity
  }

  /**
  The saturation signal against the slots it stands for, exactly. With `f` callers
  that have returned their token and are still counted, and `u` that hold one and are
  not yet counted, it cries wolf exactly when `f` exceeds `u` by at least the free
  slots, and misses a full bulkhead exactly when `u` exceeds `f`.
  */
  lemma SaturatedExactly(p: Params, states: seq<State>, steps: seq<Step>, n: nat)
    requires Run(p, states, steps) && n < |states|
    ensures var s := states[n];
            var f, u := Count(s.callers, FreedCounted()), Count(s.callers, HoldingUncounted());
      && (Saturated(p, s) && s.sem < p.capacity <==> 0 < p.capacity - s.sem <= f - u)
      && (!Saturated(p, s) && s.sem == p.capacity <==> s.sem == p.capacity && f < u)
      && (f == u ==> (Saturated(p, s) <==> s.sem == p.capacity))
  {
    Accounting(p, states, steps, n);
  }

  /** Nothing leaks: once every caller is refused or released, all counters but the rejections are zero. */
  lemma DrainedIsEmpty(p: Params, states: seq<State>, steps: seq<Step>, n: nat)
    requires Run(p, states, steps) && n < |states|
    requires forall c <- states[n].callers :: c.Refused? || c.Released?
    ensures var s := states[n]; s.sem == s.waitSlots == s.inFlight == s.waiting == 0
  {
    InvHolds(p, states, steps, n);
    var c := states[n].callers;
    CountNone(c, HoldsToken());
    CountNone(c, HoldsWaitSlot());
    CountNone(c, CountedInFlight());
    CountNone(c, CountedWaiting());
  }

  lemma LinkedHolds(p: Params, states: seq<State>, steps: seq<Step>, n: nat)
    requires Run(p, states, steps) && n < |states|
    ensures Linked(states[n])
  {
    InvHolds(p, states, steps, n);
  }

  /** Returning a token never blocks: a release call that set its grant's flag finds one to return. */
  lemma FreeNeverBlocks(p: Params, states: seq<State>, steps: seq<Step>, n: nat, c: nat)
    requires Run(p, states, steps) && n < |states|
    requires c < |states[n].releases| && states[n].releases[c].at.Won?
    ensures Enabled(p, states[n], Free(c))
  {
    InvHolds(p, states, steps, n);
    assert Matches(states[n], states[n].releases[c]);
    CountWitness(states[n].callers, states[n].releases[c].grant, HoldsToken());
  }

  predicate GivenBack(s: State, i: nat) {
    At(s, i, Freed) || At(s, i, Released)
  }

  lemma GivenBackStays(p: Params, s: State, step: Step, s': State, i: nat)
    requires Linked(s) && Follows(p, s, step, s') && GivenBack(s, i)
    ensures GivenBack(s', i)
  {
    if Acquiring(step) {
      AcquiringMoves(p, s, step);
    } else if !step.Arrive? && !step.Release? {
      assert Matches(s, s.releases[step.c]);
    }
  }

  lemma GivenBackNext(p: Params, states: seq<State>, steps: seq<Step>, n: nat, i: nat)
    requires Run(p, states, steps) && n < |steps| && GivenBack(states[n], i)
    ensures GivenBack(states[n + 1], i)
  {
    LinkedHolds(p, states, steps, n);
    GivenBackStays(p, states[n], steps[n], states[n + 1], i);
  }

  /** Once a grant's token has been returned, the grant never holds one again. */
  lemma {:induction false} GivenBackForGood(p: Params, states: seq<State>, steps: seq<Step>, m: nat, n: nat, i: nat)
    requires Run(p, states, steps) && m <= n < |states| && GivenBack(states[m], i)
    ensures GivenBack(states[n], i)
    decreases n
  {
    if m < n {
      GivenBackForGood(p, states, steps, m, n - 1, i);
      GivenBackNext(p, states, steps, n - 1, i);
    }
  }

  /** A release call keeps its grant. */
  lemma {:induction false} GrantStays(p: Params, states: seq<State>, steps: seq<Step>, m: nat, n: nat, c: nat)
    requires Run(p, states, steps) && m <= n < |states| && c < |states[m].releases|
    ensures c < |states[n].releases| && states[n].releases[c].grant == states[m].releases[c].grant
    decreases n
  {
    if m < n {
      GrantStays(p, states, steps, m, n - 1, c);
      assert Follows(p, states[n - 1], steps[n - 1], states[n]);
    }
  }

  /**
  Each grant frees its slot at most once in a run: however many calls of its
  release function race, two that return a token are calls for different grants.
  */
  lemma FreesOnce(p: Params, states: seq<State>, steps: seq<Step>, m: nat, n: nat)
    requires Run(p, states, steps) && m < n < |steps| && steps[m].Free? && steps[n].Free?
    ensures steps[m].c < |states[n].releases| && steps[n].c < |states[n].releases|
    ensures states[n].releases[steps[m].c].grant != states[n].releases[steps[n].c].grant
  {
    assert Follows(p, states[m], steps[m], states[m + 1]);
    assert Follows(p, states[n], steps[n], states[n + 1]);
    GrantStays(p, states, steps, m, n, steps[m].c);
    var g := states[m].releases[steps[m].c].grant;
    GivenBackForGood(p, states, steps, m + 1, n, g);
    LinkedHolds(p, states, steps, n);
    assert Matches(states[n], states[n].releases[steps[n].c]);
  }

  /** One more step of a run. */
  lemma Extend(p: Params, states: seq<State>, steps: seq<Step>, step: Step, next: State)
    returns (states': seq<State>, steps': seq<Step>)
    requires Run(p, states, steps) && Follows(p, states[|steps|], step, next)
    ensures Run(p, states', steps') && states'[|steps'|] == next
  {
    states', steps' := states + [next], steps + [step];
    forall i | 0 <= i < |steps'| ensures Follows(p, states'[i], steps'[i], states'[i + 1]) {
      if i < |steps| {
        assert Follows(p, states[i], steps[i], states[i + 1]);
      }
    }
  }

  const SINGLE := Params(1, 0)
  const TWO := START.(callers := [Arrived, Arrived], once := [false, false])
  const RUNNING := TWO.(sem := 1, inFlight := 1, callers := [Running, Arrived])
  const RETURNED := State(0, 0, 1, 0, 0, [Freed, Arrived], [true, false], [ReleaseCall(0, TokenReturned)])

  lemma OneRuns() returns (states: seq<State>, steps: seq<Step>)
    ensures Run(SINGLE, states, steps) && states[|steps|] == RUNNING
  {
    states, steps := [START], [];
    states, steps := Extend(SINGLE, states, steps, Arrive, START.(callers := [Arrived], once := [false]));
    states, steps := Extend(SINGLE, states, steps, Arrive, TWO);
    states, steps := Extend(SINGLE, states, steps, TakeFast(0), TWO.(sem := 1, callers := [GotToken, Arrived]));
    states, steps := Extend(SINGLE, states, steps, Enter(0), RUNNING);
  }

  /** The signal is wrong with every slot free: the one token is back, its caller still counted. */
  lemma SaturatedWithNothingHeld() returns (states: seq<State>, steps: seq<Step>)
    ensures Run(SINGLE, states, steps) && states[|steps|] == RETURNED
    ensures Saturated(SINGLE, RETURNED) && RETURNED.sem == 0 < SINGLE.capacity
  {
    states, steps := OneRuns();
    states, steps := Extend(SINGLE, states, steps, Release(0), RUNNING.(releases := [ReleaseCall(0, Called)]));
    states, steps := Extend(SINGLE, states, steps, Swap(0),
                            State(1, 0, 1, 0, 0, [Releasing, Arrived], [true, false], [ReleaseCall(0, Won)]));
    states, steps := Extend(SINGLE, states, steps, Free(0), RETURNED);
  }

  /** And it misses a full bulkhead while the last token's taker is not yet counted. */
  lemma FullYetNotSaturated() returns (states: seq<State>, steps: seq<Step>)
    ensures Run(SINGLE, states, steps)
    ensures var s := states[|steps|]; s.sem == SINGLE.capacity && !Saturated(SINGLE, s)
  {
    states, steps := [START], [];
    states, steps := Extend(SINGLE, states, steps, Arrive, START.(callers := [Arrived], once := [false]));
    states, steps := Extend(SINGLE, states, steps, TakeFast(0),
                            START.(sem := 1, callers := [GotToken], once := [false]));
  }

  /**
  The gauge is not bounded by the capacity either: with one slot, a caller that has
  returned its token and not yet been uncounted makes the next one the second.
  */
  lemma GaugeExceedsCapacity() returns (states: seq<State>, steps: seq<Step>)
    ensures Run(SINGLE, states, steps)
    ensures var s := states[|steps|]; s.inFlight == 2 && s.sem == 1 == SINGLE.capacity
  {
    states, steps := SaturatedWithNothingHeld();
    states, steps := Extend(SINGLE, states, steps, TakeFast(1), RETURNED.(sem := 1, callers := [Freed, GotToken]));
    states, steps := Extend(SINGLE, states, steps, Enter(1),
                            RETURNED.(sem := 1, inFlight := 2, callers := [Freed, Running]));
  }
}
