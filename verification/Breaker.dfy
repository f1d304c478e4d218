/**
The circuit breaker of internal/resilience/breaker.go.

`Machine` is the reference: the same three states, with an unbounded log of the
outcomes recorded since the breaker last closed. `Breaker` is the code: the log
is replaced by ten reusable buckets. Every method of the class is proved to
change the reference exactly as the corresponding specification function says.
*/
module BreakerModel {
  import opened Counting

  datatype Status = Closed | Open | HalfOpen

  datatype Outcome = Success | Failure | Rejected

  /** An outcome, tagged with the index of the time bucket it was recorded in. */
  datatype Event = Event(index: nat, outcome: Outcome)

  datatype Config = Config(
    enabled: bool,
    failureThreshold: real,
    minimumRequests: int,
    window: int,
    openTimeout: int,
    halfOpenMaxCalls: int,
    halfOpenSuccesses: int)

  const BUCKETS := 10
  const SECOND := 1_000_000_000

  /** Go's integer division, which truncates toward zero. */
  function Quotient(a: int, b: int): int
    requires b > 0
  {
    if a >= 0 then a / b else -((-a) / b)
  }

  function BucketDuration(cfg: Config): (d: int)
    ensures d > 0
  {
    var d := Quotient(cfg.window, BUCKETS);
    if d <= 0 then SECOND else d
  }

  /** The bucket index of an instant, clamped at zero. */
  function BucketIndex(cfg: Config, startedAt: int, t: int): nat {
    var i := Quotient(t - startedAt, BucketDuration(cfg));
    if i < 0 then 0 else i
  }

  lemma ProductStep(d: int, x: int, y: int)
    requires d > 0 && x < y
    ensures d * x + d <= d * y
  {
    assert d * y == d * x + d + d * (y - x - 1);
  }

  lemma DivisionMonotone(a: nat, b: nat, d: int)
    requires a <= b && d > 0
    ensures a / d <= b / d
  {
    if a / d > b / d {
      ProductStep(d, b / d, a / d);
    }
  }

  /** A clock that does not run backwards never moves to an earlier bucket. */
  lemma BucketIndexMonotone(cfg: Config, startedAt: int, t: int, u: int)
    requires t <= u
    ensures BucketIndex(cfg, startedAt, t) <= BucketIndex(cfg, startedAt, u)
  {
    var d := BucketDuration(cfg);
    if t >= startedAt {
      DivisionMonotone(t - startedAt, u - startedAt, d);
    }
  }

  lemma BucketsApart(d: int, x: nat, y: nat)
    requires d > 0 && x <= y
    ensures y - x <= (BUCKETS - 1) * d ==> y / d - BUCKETS < x / d
    ensures y / d - BUCKETS < x / d ==> y - x < BUCKETS * d
  {
    var a, b := x / d, y / d;
    var apart := b - a;
    assert d * b == d * a + d * apart;
    if apart >= BUCKETS {
      ProductStep(d, BUCKETS - 1, apart);
    } else if apart < BUCKETS - 1 {
      ProductStep(d, apart, BUCKETS - 1);
    }
  }

  /**
  The ten indices in time: an instant no longer ago than nine buckets is always among
  them and one ten buckets ago never is. Ten buckets are the configured window, up to
  the nanoseconds that do not divide by ten.
  */
  lemma WindowInTime(cfg: Config, startedAt: int, t: int, now: int)
    requires startedAt <= t <= now
    ensures var d, age := BucketDuration(cfg), now - t;
            var inWindow := BucketIndex(cfg, startedAt, now) - BUCKETS < BucketIndex(cfg, startedAt, t);
      && (age <= (BUCKETS - 1) * d ==> inWindow) && (inWindow ==> age < BUCKETS * d)
      && (cfg.window >= BUCKETS ==> cfg.window - BUCKETS < BUCKETS * d <= cfg.window)
      && (cfg.window < BUCKETS ==> d == SECOND)
  {
    BucketsApart(BucketDuration(cfg), t - startedAt, now - startedAt);
  }

  // -------------------------------------------------------------------------
  // The reference machine
  // -------------------------------------------------------------------------

  datatype Machine = Machine(
    status: Status,
    openedAt: int,
    calls: int,          // half-open probe slots taken
    ok: int,             // half-open successes
    log: seq<Event>,     // outcomes since the last close
    entered: seq<Status>,  // every state change made, in order
    heard: seq<Status>)    // every state passed to the transition hook
  {
    /** The state last passed to the hook, which starts from a closed breaker. */
    function Reported(): Status {
      if heard == [] then Closed else heard[|heard| - 1]
    }
  }

  const INITIAL := Machine(Closed, 0, 0, 0, [], [], [])

  function InWindow(o: Outcome, hi: int): Event -> bool {
    (e: Event) => e.outcome == o && hi - BUCKETS < e.index <= hi
  }

  /** How many outcomes of one kind were recorded in the ten buckets up to `index`. */
  function Tally(log: seq<Event>, o: Outcome, index: int): nat {
    Count(log, InWindow(o, index))
  }

  /** Go's 0/0 is NaN, which no threshold compares with. */
  predicate Trips(cfg: Config, success: nat, failure: nat) {
    var total := success + failure;
    total >= cfg.minimumRequests && total > 0 && failure as real / total as real >= cfg.failureThreshold
  }

  predicate Due(cfg: Config, m: Machine, now: int) {
    m.status == Open && now - m.openedAt >= cfg.openTimeout
  }

  function Transition(m: Machine, to: Status, now: int): Machine {
    if m.status == to then m
    else m.(status := to, calls := 0, ok := 0, entered := m.entered + [to],
            openedAt := if to == Open then now else m.openedAt,
            log := if to == Closed then [] else m.log)
  }

  function Current(cfg: Config, m: Machine, now: int): Machine {
    if Due(cfg, m, now) then Transition(m, HalfOpen, now) else m
  }

  function Noted(m: Machine, index: nat, o: Outcome): Machine {
    m.(log := m.log + [Event(index, o)])
  }

  /** The hook fires only when the step changed the state. */
  function Fired(before: Machine, after: Machine): Machine {
    if before.status != after.status then after.(heard := after.heard + [after.status]) else after
  }

  function Decr(n: int): int {
    if n <= 0 then 0 else n - 1
  }

  function Query(cfg: Config, m: Machine, now: int): Machine {
    Fired(m, Current(cfg, m, now))
  }

  /** Admission. The two refusals return before the hook is considered. */
  function Admit(cfg: Config, startedAt: int, m: Machine, now: int): (Machine, bool) {
    if !cfg.enabled then (m, true)
    else
      var c := Current(cfg, m, now);
      var index := BucketIndex(cfg, startedAt, now);
      if c.status == Open || (c.status == HalfOpen && c.calls >= cfg.halfOpenMaxCalls) then
        (Noted(c, index, Rejected), false)
      else if c.status == HalfOpen then
        (Fired(m, c.(calls := c.calls + 1)), true)
      else
        (Fired(m, c), true)
  }

  function RecordSuccess(cfg: Config, m: Machine, index: nat, now: int): Machine {
    var c := Noted(m, index, Success);
    if c.status != HalfOpen then c
    else
      var d := c.(ok := c.ok + 1, calls := Decr(c.calls));
      if d.ok >= cfg.halfOpenSuccesses then Transition(d, Closed, now) else d
  }

  function RecordFailure(cfg: Config, m: Machine, index: nat, now: int): Machine {
    var c := Noted(m, index, Failure);
    match c.status
    case HalfOpen => Transition(c.(calls := Decr(c.calls)), Open, now)
    case Closed =>
      if Trips(cfg, Tally(c.log, Success, index), Tally(c.log, Failure, index))
      then Transition(c, Open, now) else c
    case Open => c
  }

  function Record(cfg: Config, startedAt: int, m: Machine, success: bool, now: int): Machine {
    if !cfg.enabled then m
    else
      var c := Current(cfg, m, now);
      var index := BucketIndex(cfg, startedAt, now);
      Fired(m, if success then RecordSuccess(cfg, c, index, now) else RecordFailure(cfg, c, index, now))
  }

  function Abstain(cfg: Config, m: Machine): Machine {
    if cfg.enabled && m.status == HalfOpen then m.(calls := Decr(m.calls)) else m
  }

  // -------------------------------------------------------------------------
  // The ring of buckets
  // -------------------------------------------------------------------------

  datatype Bucket = Bucket(index: int, success: nat, failure: nat, rejected: nat) {
    function Get(o: Outcome): nat {
      match o
      case Success => success
      case Failure => failure
      case Rejected => rejected
    }

    function Bump(o: Outcome): Bucket {
      match o
      case Success => this.(success := success + 1)
      case Failure => this.(failure := failure + 1)
      case Rejected => this.(rejected := rejected + 1)
    }
  }

  const EMPTY := Bucket(-1, 0, 0, 0)

  function AtIndex(o: Outcome, i: int): Event -> bool {
    (e: Event) => e.outcome == o && e.index == i
  }

  function InSlots(o: Outcome, hi: int, n: int): Event -> bool {
    (e: Event) => e.outcome == o && hi - BUCKETS < e.index <= hi && e.index % BUCKETS < n
  }

  function InSlot(o: Outcome, hi: int, n: int): Event -> bool {
    (e: Event) => e.outcome == o && hi - BUCKETS < e.index <= hi && e.index % BUCKETS == n
  }

  /** A bucket holds the newest index that ever fell into its slot, with that index's exact tallies. */
  ghost predicate SlotHolds(b: Bucket, slot: nat, log: seq<Event>, cursor: int) {
    && (forall e <- log :: e.index % BUCKETS == slot ==> e.index <= b.index)
    && (b.index == -1 || (0 <= b.index <= cursor && b.index % BUCKETS == slot))
    && (forall o :: b.Get(o) == Count(log, AtIndex(o, b.index)))
  }

  ghost predicate RingHolds(ring: seq<Bucket>, log: seq<Event>, cursor: int) {
    && |ring| == BUCKETS
    && forall j :: 0 <= j < BUCKETS ==> SlotHolds(ring[j], j, log, cursor)
  }

  predicate Live(b: Bucket, index: int) {
    index - BUCKETS + 1 <= b.index <= index
  }

  /** What one slot contributes to a window sum is what the log holds for that slot. */
  lemma SlotContribution(b: Bucket, slot: nat, log: seq<Event>, cursor: int, index: int, o: Outcome)
    requires slot < BUCKETS && SlotHolds(b, slot, log, cursor) && cursor <= index
    ensures Count(log, InSlot(o, index, slot)) == if Live(b, index) then b.Get(o) else 0
  {
    if Live(b, index) {
      CountSame(log, InSlot(o, index, slot), AtIndex(o, b.index));
    } else {
      CountNone(log, InSlot(o, index, slot));
    }
  }

  /** Adding one bucket to a partial window sum. */
  lemma SlotsGrow(b: Bucket, slot: nat, log: seq<Event>, cursor: int, index: int, o: Outcome)
    requires slot < BUCKETS && SlotHolds(b, slot, log, cursor) && cursor <= index
    ensures Count(log, InSlots(o, index, slot + 1)) ==
            Count(log, InSlots(o, index, slot)) + (if Live(b, index) then b.Get(o) else 0)
  {
    SlotContribution(b, slot, log, cursor, index, o);
    CountSplit(log, InSlots(o, index, slot + 1), InSlots(o, index, slot), InSlot(o, index, slot));
  }

  lemma SlotsEnds(log: seq<Event>, o: Outcome, index: int)
    ensures Count(log, InSlots(o, index, 0)) == 0
    ensures Count(log, InSlots(o, index, BUCKETS)) == Tally(log, o, index)
  {
    CountNone(log, InSlots(o, index, 0));
    CountSame(log, InSlots(o, index, BUCKETS), InWindow(o, index));
  }

  /** Recording one outcome in the slot of the current bucket. */
  function BucketAfter(b: Bucket, index: nat, o: Outcome): Bucket {
    (if b.index != index then Bucket(index, 0, 0, 0) else b).Bump(o)
  }

  lemma RecordKeepsSlot(b: Bucket, slot: nat, log: seq<Event>, cursor: int, index: nat, o: Outcome)
    requires SlotHolds(b, slot, log, cursor) && cursor <= index && slot == index % BUCKETS
    ensures SlotHolds(BucketAfter(b, index, o), slot, log + [Event(index, o)], index)
  {
    var log' := log + [Event(index, o)];
    forall q ensures BucketAfter(b, index, o).Get(q) == Count(log', AtIndex(q, index)) {
      CountAppend(log, Event(index, o), AtIndex(q, index));
      if b.index != index {
        CountNone(log, AtIndex(q, index));
      }
    }
  }

  lemma RecordKeepsOtherSlot(b: Bucket, slot: nat, log: seq<Event>, cursor: int, index: nat, o: Outcome)
    requires SlotHolds(b, slot, log, cursor) && cursor <= index && slot < BUCKETS && slot != index % BUCKETS
    ensures SlotHolds(b, slot, log + [Event(index, o)], index)
  {
    forall q ensures b.Get(q) == Count(log + [Event(index, o)], AtIndex(q, b.index)) {
      CountAppend(log, Event(index, o), AtIndex(q, b.index));
    }
  }

  lemma EmptyRingHolds(ring: seq<Bucket>, cursor: int)
    requires |ring| == BUCKETS && forall j :: 0 <= j < BUCKETS ==> ring[j] == EMPTY
    ensures RingHolds(ring, [], cursor)
  {
  }

  // -------------------------------------------------------------------------
  // The code
  // -------------------------------------------------------------------------

  class Breaker {
    const cfg: Config
    const bucketDur: int
    const startedAt: int
    const buckets: array<Bucket>
    var status: Status
    var openedAt: int
    var halfOpenCalls: int
    var halfOpenOK: int

    ghost var log: seq<Event>
    ghost var entered: seq<Status>
    ghost var heard: seq<Status>
    ghost var cursor: nat  // index of the latest recorded outcome
    ghost var clock: int   // the latest instant an operation was given

    ghost predicate Valid()
      reads this, buckets
    {
      bucketDur == BucketDuration(cfg) && RingHolds(buckets[..], log, cursor) && cursor <= Index(clock)
    }

    ghost function View(): Machine
      reads this
    {
      Machine(status, openedAt, halfOpenCalls, halfOpenOK, log, entered, heard)
    }

    ghost function Index(t: int): nat {
      BucketIndex(cfg, startedAt, t)
    }

    constructor (cfg: Config, now: int)
      ensures Valid() && fresh(buckets)
      ensures View() == INITIAL && this.cfg == cfg && startedAt == clock == now
    {
      this.cfg := cfg;
      startedAt := now;
      status, openedAt, halfOpenCalls, halfOpenOK := Closed, 0, 0, 0;
      log, entered, heard, cursor, clock := [], [], [], 0, now;
      var d := Quotient(cfg.window, BUCKETS);
      bucketDur := if d <= 0 then SECOND else d;
      buckets := new Bucket[BUCKETS](_ => EMPTY);
      new;
      EmptyRingHolds(buckets[..], 0);
    }

    /** Time passes. */
    ghost method Tick(now: int)
      requires Valid() && clock <= now
      modifies this`clock
      ensures Valid() && clock == now
    {
      BucketIndexMonotone(cfg, startedAt, clock, now);
      clock := now;
    }

    method BucketIndexOf(t: int) returns (i: nat)
      requires Valid()
      ensures i == Index(t)
    {
      var d := t - startedAt;
      var q := if d >= 0 then d / bucketDur else -((-d) / bucketDur);
      i := if q < 0 then 0 else q;
    }

    /** Sums one window over the ring, skipping buckets outside it. */
    method Counts(now: int) returns (success: nat, failure: nat, rejected: nat)
      requires Valid() && clock <= now
      ensures success == Tally(log, Success, Index(now))
      ensures failure == Tally(log, Failure, Index(now))
      ensures rejected == Tally(log, Rejected, Index(now))
    {
      BucketIndexMonotone(cfg, startedAt, clock, now);
      success, failure, rejected := 0, 0, 0;
      var idx := BucketIndexOf(now);
      var oldest := idx - BUCKETS + 1;
      SlotsEnds(log, Success, idx);
      SlotsEnds(log, Failure, idx);
      SlotsEnds(log, Rejected, idx);
      for i := 0 to BUCKETS
        invariant success == Count(log, InSlots(Success, idx, i))
        invariant failure == Count(log, InSlots(Failure, idx, i))
        invariant rejected == Count(log, InSlots(Rejected, idx, i))
      {
        var bk := buckets[i];
        assert SlotHolds(buckets[..][i], i, log, cursor);
        SlotsGrow(bk, i, log, cursor, idx, Success);
        SlotsGrow(bk, i, log, cursor, idx, Failure);
        SlotsGrow(bk, i, log, cursor, idx, Rejected);
        if !(bk.index < oldest || bk.index > idx) {
          success := success + bk.success;
          failure := failure + bk.failure;
          rejected := rejected + bk.rejected;
        }
      }
    }

    method ShouldTripLocked(now: int) returns (trip: bool)
      requires Valid() && clock <= now
      ensures trip == Trips(cfg, Tally(log, Success, Index(now)), Tally(log, Failure, Index(now)))
    {
      var success, failure, _ := Counts(now);
      var total := success + failure;
      if total < cfg.minimumRequests || total == 0 {
        return false;
      }
      trip := failure as real / total as real >= cfg.failureThreshold;
    }

    method RecordLocked(o: Outcome, now: int)
      requires Valid() && clock <= now
      modifies this`log, this`cursor, this`clock, buckets
      ensures Valid() && clock == now
      ensures View() == Noted(old(View()), Index(now), o)
    {
      Tick(now);
      var idx := BucketIndexOf(now);
      var slot := idx % BUCKETS;
      ghost var ring := buckets[..];
      assert SlotHolds(ring[slot], slot, log, cursor);
      RecordKeepsSlot(ring[slot], slot, log, cursor, idx, o);
      forall j | 0 <= j < BUCKETS && j != slot
        ensures SlotHolds(ring[j], j, log + [Event(idx, o)], idx)
      {
        RecordKeepsOtherSlot(ring[j], j, log, cursor, idx, o);
      }
      if buckets[slot].index != idx {
        buckets[slot] := Bucket(idx, 0, 0, 0);
      }
      buckets[slot] := buckets[slot].Bump(o);
      log := log + [Event(idx, o)];
      cursor := idx;
      assert buckets[..] == ring[slot := BucketAfter(ring[slot], idx, o)];
    }

    method TransitionLocked(to: Status, now: int)
      requires Valid()
      modifies this`status, this`openedAt, this`halfOpenCalls, this`halfOpenOK, this`log, this`entered, buckets
      ensures Valid()
      ensures View() == Transition(old(View()), to, now)
    {
      if status == to {
        return;
      }
      status := to;
      entered := entered + [to];
      halfOpenCalls, halfOpenOK := 0, 0;
      match to
      case Open => openedAt := now;
      case HalfOpen =>
      case Closed =>
        for i := 0 to BUCKETS
          modifies buckets
          invariant forall j :: 0 <= j < i ==> buckets[j] == EMPTY
        {
          buckets[i] := EMPTY;
        }
        log := [];
        EmptyRingHolds(buckets[..], cursor);
    }

    method CurrentLocked(now: int)
      requires Valid()
      modifies this`status, this`openedAt, this`halfOpenCalls, this`halfOpenOK, this`log, this`entered, buckets
      ensures Valid()
      ensures View() == Current(cfg, old(View()), now)
    {
      if status == Open && now - openedAt >= cfg.openTimeout {
        TransitionLocked(HalfOpen, now);
      }
    }

    method State(now: int) returns (st: Status)
      requires Valid() && clock <= now
      modifies this, buckets
      ensures Valid() && clock == now
      ensures View() == Query(cfg, old(View()), now) && st == status
    {
      Tick(now);
      var prev := status;
      CurrentLocked(now);
      st := status;
      if prev != st {
        heard := heard + [st];
      }
    }

    method Allow(now: int) returns (admitted: bool)
      requires Valid() && clock <= now
      modifies this, buckets
      ensures Valid() && clock == now
      ensures (View(), admitted) == Admit(cfg, startedAt, old(View()), now)
    {
      Tick(now);
      if !cfg.enabled {
        return true;
      }
      var from := status;
      CurrentLocked(now);
      match status {
        case Open =>
          RecordLocked(Rejected, now);
          return false;
        case HalfOpen =>
          if halfOpenCalls >= cfg.halfOpenMaxCalls {
            RecordLocked(Rejected, now);
            return false;
          }
          halfOpenCalls := halfOpenCalls + 1;
        case Closed =>
      }
      if from != status {
        heard := heard + [status];
      }
      admitted := true;
    }

    method RecordOutcome(success: bool, now: int)
      requires Valid() && clock <= now
      modifies this, buckets
      ensures Valid() && clock == now
      ensures View() == Record(cfg, startedAt, old(View()), success, now)
    {
      Tick(now);
      if !cfg.enabled {
        return;
      }
      var from := status;
      CurrentLocked(now);
      var st := status;
      if success {
        RecordLocked(Success, now);
        if st == HalfOpen {
          halfOpenOK := halfOpenOK + 1;
          halfOpenCalls := if halfOpenCalls <= 0 then 0 else halfOpenCalls - 1;
          if halfOpenOK >= cfg.halfOpenSuccesses {
            TransitionLocked(Closed, now);
          }
        }
      } else {
        RecordLocked(Failure, now);
        match st
        case HalfOpen =>
          halfOpenCalls := if halfOpenCalls <= 0 then 0 else halfOpenCalls - 1;
          TransitionLocked(Open, now);
        case Closed =>
          var trip := ShouldTripLocked(now);
          if trip {
            TransitionLocked(Open, now);
          }
        case Open =>
      }
      if from != status {
        heard := heard + [status];
      }
    }

    method AbstainOutcome()
      requires Valid()
      modifies this`halfOpenCalls
      ensures Valid()
      ensures View() == Abstain(cfg, old(View()))
    {
      if cfg.enabled && status == HalfOpen {
        halfOpenCalls := if halfOpenCalls <= 0 then 0 else halfOpenCalls - 1;
      }
    }
  }

  // -------------------------------------------------------------------------
  // Whole runs
  // -------------------------------------------------------------------------

  datatype Op =
    | AllowOp(now: int)
    | RecordOp(success: bool, now: int)
    | AbstainOp(now: int)
    | StateOp(now: int)

  function After(cfg: Config, startedAt: int, m: Machine, op: Op): Machine {
    match op
    case AllowOp(now) => Admit(cfg, startedAt, m, now).0
    case RecordOp(success, now) => Record(cfg, startedAt, m, success, now)
    case AbstainOp(_) => Abstain(cfg, m)
    case StateOp(now) => Query(cfg, m, now)
  }

  /** The reference machine after a run of operations. */
  function Replay(cfg: Config, startedAt: int, ops: seq<Op>): Machine {
    if ops == [] then INITIAL
    else After(cfg, startedAt, Replay(cfg, startedAt, ops[..|ops| - 1]), ops[|ops| - 1])
  }

  /** The clock starts at `start`, never runs backwards, and reads `now` at the end. */
  ghost predicate Timed(ops: seq<Op>, start: int, now: int) {
    && start <= now
    && (forall i :: 0 <= i < |ops| ==> start <= ops[i].now <= now)
    && (forall i, j :: 0 <= i < j < |ops| ==> ops[i].now <= ops[j].now)
  }

  /** The operation leaves a breaker closed that was not. */
  predicate ClosesAt(cfg: Config, startedAt: int, m: Machine, op: Op) {
    m.status != Closed && After(cfg, startedAt, m, op).status == Closed
  }

  /** How many operations had been made when the breaker last closed; none if it never did. */
  function LastClose(cfg: Config, startedAt: int, ops: seq<Op>): nat {
    if ops == [] then 0
    else
      var before := ops[..|ops| - 1];
      if ClosesAt(cfg, startedAt, Replay(cfg, startedAt, before), ops[|ops| - 1]) then |ops|
      else LastClose(cfg, startedAt, before)
  }

  /** What one operation counts as: a settlement by its verdict, a refused admission as such. */
  function Counted(cfg: Config, startedAt: int, op: Op, refused: bool): seq<Event> {
    if !cfg.enabled then []
    else
      match op
      case RecordOp(success, now) => [Event(BucketIndex(cfg, startedAt, now), if success then Success else Failure)]
      case AllowOp(now) => if refused then [Event(BucketIndex(cfg, startedAt, now), Rejected)] else []
      case _ => []
  }

  predicate Refuses(cfg: Config, startedAt: int, m: Machine, op: Op) {
    op.AllowOp? && !Admit(cfg, startedAt, m, op.now).1
  }

  /** Which operations were refused admission. */
  function Refusals(cfg: Config, startedAt: int, ops: seq<Op>): (r: seq<bool>)
    ensures |r| == |ops|
  {
    if ops == [] then []
    else
      var before := ops[..|ops| - 1];
      Refusals(cfg, startedAt, before) + [Refuses(cfg, startedAt, Replay(cfg, startedAt, before), ops[|ops| - 1])]
  }

  /** What the operations after the first `k` count as, one by one. */
  function History(cfg: Config, startedAt: int, ops: seq<Op>, refused: seq<bool>, k: nat): seq<Event>
    requires |refused| == |ops|
  {
    if |ops| <= k then []
    else
      var n := |ops| - 1;
      History(cfg, startedAt, ops[..n], refused[..n], k) + Counted(cfg, startedAt, ops[n], refused[n])
  }

  /** One operation adds what it counts as to the log, unless it empties it by closing the breaker. */
  lemma LogGrows(cfg: Config, startedAt: int, m: Machine, op: Op)
    ensures After(cfg, startedAt, m, op).log
            == if ClosesAt(cfg, startedAt, m, op) then []
               else m.log + Counted(cfg, startedAt, op, Refuses(cfg, startedAt, m, op))
  {
    if op.RecordOp? && cfg.enabled {
      var c, index := Current(cfg, m, op.now), BucketIndex(cfg, startedAt, op.now);
      SettledLog(cfg, c, index, op.now);
      assert c.log == m.log && (c.status == Closed <==> m.status == Closed);
    }
  }

  /** What settling a call leaves in the log: everything and its outcome, or nothing once it closes the breaker. */
  lemma SettledLog(cfg: Config, c: Machine, index: nat, now: int)
    ensures var s := RecordSuccess(cfg, c, index, now);
            s.log == if c.status != Closed && s.status == Closed then [] else c.log + [Event(index, Success)]
    ensures var f := RecordFailure(cfg, c, index, now);
            f.log == c.log + [Event(index, Failure)] && (c.status != Closed ==> f.status != Closed)
  {
  }

  lemma {:induction false} LastCloseBound(cfg: Config, startedAt: int, ops: seq<Op>)
    ensures LastClose(cfg, startedAt, ops) <= |ops|
  {
    if ops != [] {
      LastCloseBound(cfg, startedAt, ops[..|ops| - 1]);
    }
  }

  /**
  The log is the history: every settlement and every refusal since the breaker last
  closed is in it once, with its own outcome and time bucket, and nothing else is.
  */
  lemma {:induction false} LogIsHistory(cfg: Config, startedAt: int, ops: seq<Op>)
    ensures Replay(cfg, startedAt, ops).log ==
            History(cfg, startedAt, ops, Refusals(cfg, startedAt, ops), LastClose(cfg, startedAt, ops))
  {
    if ops != [] {
      var before, op := ops[..|ops| - 1], ops[|ops| - 1];
      LogIsHistory(cfg, startedAt, before);
      LastCloseBound(cfg, startedAt, before);
      LogGrows(cfg, startedAt, Replay(cfg, startedAt, before), op);
      assert Refusals(cfg, startedAt, ops)[..|before|] == Refusals(cfg, startedAt, before);
    }
  }

  /** A settlement with the given verdict, in the ten bucket indices up to `index`. */
  function Settles(cfg: Config, startedAt: int, success: bool, index: int): Op -> bool {
    (op: Op) => && op.RecordOp? && op.success == success
                && index - BUCKETS < BucketIndex(cfg, startedAt, op.now) <= index
  }

  /** An operation adds to one count what it adds to the other. */
  ghost predicate Agree(cfg: Config, startedAt: int, settles: Op -> bool, counts: Event -> bool) {
    forall op: Op, refused: bool ::
      Count(Counted(cfg, startedAt, op, refused), counts) == if settles(op) then 1 else 0
  }

  lemma {:induction false} HistoryCounts(cfg: Config, startedAt: int, ops: seq<Op>, refused: seq<bool>, k: nat,
                                         settles: Op -> bool, counts: Event -> bool)
    requires Agree(cfg, startedAt, settles, counts) && |refused| == |ops|
    ensures Count(History(cfg, startedAt, ops, refused, k), counts) == CountFrom(ops, k, settles)
  {
    if k < |ops| {
      var n := |ops| - 1;
      HistoryCounts(cfg, startedAt, ops[..n], refused[..n], k, settles, counts);
      var h, c := History(cfg, startedAt, ops[..n], refused[..n], k), Counted(cfg, startedAt, ops[n], refused[n]);
      CountConcat(h, c, counts);
    }
  }

  lemma VerdictAgrees(cfg: Config, startedAt: int, success: bool, index: int, op: Op, refused: bool)
    requires cfg.enabled
    ensures Count(Counted(cfg, startedAt, op, refused), InWindow(if success then Success else Failure, index))
            == if Settles(cfg, startedAt, success, index)(op) then 1 else 0
  {
    var counts := InWindow(if success then Success else Failure, index);
    match op
    case RecordOp(said, now) =>
      CountOne(Event(BucketIndex(cfg, startedAt, now), if said then Success else Failure), counts);
    case AllowOp(now) => CountOne(Event(BucketIndex(cfg, startedAt, now), Rejected), counts);
    case _ =>
  }

  lemma VerdictsAgree(cfg: Config, startedAt: int, success: bool, index: int)
    requires cfg.enabled
    ensures Agree(cfg, startedAt, Settles(cfg, startedAt, success, index),
                  InWindow(if success then Success else Failure, index))
  {
    var settles := Settles(cfg, startedAt, success, index);
    var counts := InWindow(if success then Success else Failure, index);
    forall op: Op, refused: bool
      ensures Count(Counted(cfg, startedAt, op, refused), counts) == if settles(op) then 1 else 0
    {
      VerdictAgrees(cfg, startedAt, success, index, op, refused);
    }
  }

  lemma HistoryTally(cfg: Config, startedAt: int, ops: seq<Op>, refused: seq<bool>, k: nat, success: bool, index: int)
    requires cfg.enabled && k <= |ops| == |refused|
    ensures Tally(History(cfg, startedAt, ops, refused, k), if success then Success else Failure, index)
            == Count(ops[k..], Settles(cfg, startedAt, success, index))
  {
    VerdictsAgree(cfg, startedAt, success, index);
    CountFromIsCount(ops, k, Settles(cfg, startedAt, success, index));
    HistoryCounts(cfg, startedAt, ops, refused, k, Settles(cfg, startedAt, success, index),
                  InWindow(if success then Success else Failure, index));
  }

  /** The settlements with one verdict that a window counts: those since the last close in its ten indices. */
  function SettledInWindow(cfg: Config, startedAt: int, ops: seq<Op>, success: bool, index: int): nat {
    var k := LastClose(cfg, startedAt, ops);
    if cfg.enabled && k <= |ops| then Count(ops[k..], Settles(cfg, startedAt, success, index)) else 0
  }

  /** The windows are tallies of the operations themselves. */
  lemma TallyIsHistory(cfg: Config, startedAt: int, ops: seq<Op>, index: int)
    ensures Tally(Replay(cfg, startedAt, ops).log, Success, index) == SettledInWindow(cfg, startedAt, ops, true, index)
    ensures Tally(Replay(cfg, startedAt, ops).log, Failure, index) == SettledInWindow(cfg, startedAt, ops, false, index)
  {
    LogIsHistory(cfg, startedAt, ops);
    LastCloseBound(cfg, startedAt, ops);
    var refused, k := Refusals(cfg, startedAt, ops), LastClose(cfg, startedAt, ops);
    if cfg.enabled {
      HistoryTally(cfg, startedAt, ops, refused, k, true, index);
      HistoryTally(cfg, startedAt, ops, refused, k, false, index);
    } else {
      NothingCounted(cfg, startedAt, ops, refused, k);
    }
  }

  lemma {:induction false} NothingCounted(cfg: Config, startedAt: int, ops: seq<Op>, refused: seq<bool>, k: nat)
    requires !cfg.enabled && |refused| == |ops|
    ensures History(cfg, startedAt, ops, refused, k) == []
  {
    if |ops| > k {
      NothingCounted(cfg, startedAt, ops[..|ops| - 1], refused[..|ops| - 1], k);
    }
  }

  lemma FailureNoted(log: seq<Event>, index: nat)
    ensures Tally(log + [Event(index, Failure)], Failure, index) == Tally(log, Failure, index) + 1
    ensures Tally(log + [Event(index, Failure)], Success, index) == Tally(log, Success, index)
  {
    CountAppend(log, Event(index, Failure), InWindow(Success, index));
    CountAppend(log, Event(index, Failure), InWindow(Failure, index));
  }

  lemma FailureOpens(cfg: Config, m: Machine, index: nat, now: int)
    requires m.status == Closed
    ensures RecordFailure(cfg, m, index, now).status == Open
            <==> Trips(cfg, Tally(m.log, Success, index), Tally(m.log, Failure, index) + 1)
  {
    FailureNoted(m.log, index);
  }

  lemma OpensAt(cfg: Config, startedAt: int, m: Machine, op: Op)
    requires m.status == Closed
    ensures After(cfg, startedAt, m, op).status == Open
            <==> && cfg.enabled && op.RecordOp? && !op.success
                 && RecordFailure(cfg, m, BucketIndex(cfg, startedAt, op.now), op.now).status == Open
  {
  }

  /**
  An operation opens a closed breaker exactly when it settles a failure and, counting
  it, the settlements since the last close in the last ten bucket indices are at
  least the minimum, with at least the threshold's share of failures among them.
  */
  lemma OpensExactly(cfg: Config, startedAt: int, ops: seq<Op>, op: Op)
    requires Replay(cfg, startedAt, ops).status == Closed
    ensures Replay(cfg, startedAt, ops + [op]).status == Open
            <==> && cfg.enabled && op.RecordOp? && !op.success
                 && var index := BucketIndex(cfg, startedAt, op.now);
                 var good := SettledInWindow(cfg, startedAt, ops, true, index);
                 var bad := SettledInWindow(cfg, startedAt, ops, false, index) + 1;
                 good + bad >= cfg.minimumRequests && bad as real / (good + bad) as real >= cfg.failureThreshold
  {
    assert (ops + [op])[..|ops|] == ops;
    var m := Replay(cfg, startedAt, ops);
    OpensAt(cfg, startedAt, m, op);
    if op.RecordOp? {
      var index := BucketIndex(cfg, startedAt, op.now);
      FailureOpens(cfg, m, index, op.now);
      TallyIsHistory(cfg, startedAt, ops, index);
    }
  }

  /**
  The ring refines the log in every run with a non-decreasing clock: after any
  operations, what the ten reused buckets add up to is what the unbounded log of the
  reference machine holds for the last ten bucket indices, for settlements the number
  made since the last close, and the two agree on the state.
  */
  method RunBreaker(cfg: Config, start: int, ops: seq<Op>, now: int)
    returns (success: nat, failure: nat, rejected: nat, status: Status)
    requires Timed(ops, start, now)
    ensures var m, index := Replay(cfg, start, ops), BucketIndex(cfg, start, now);
      && success == Tally(m.log, Success, index)
      && failure == Tally(m.log, Failure, index)
      && rejected == Tally(m.log, Rejected, index)
      && status == m.status
    ensures var index := BucketIndex(cfg, start, now);
      && success == SettledInWindow(cfg, start, ops, true, index)
      && failure == SettledInWindow(cfg, start, ops, false, index)
  {
    var b := new Breaker(cfg, start);
    for i := 0 to |ops|
      invariant fresh(b) && fresh(b.buckets) && b.Valid() && b.cfg == cfg && b.startedAt == start
      invariant b.clock <= now && forall j :: i <= j < |ops| ==> b.clock <= ops[j].now
      invariant b.View() == Replay(cfg, start, ops[..i])
    {
      assert ops[..i + 1][..i] == ops[..i];
      match ops[i] {
        case AllowOp(t) => var _ := b.Allow(t);
        case RecordOp(ok, t) => b.RecordOutcome(ok, t);
        case AbstainOp(_) => b.AbstainOutcome();
        case StateOp(t) => var _ := b.State(t);
      }
    }
    assert ops[..|ops|] == ops;
    TallyIsHistory(cfg, start, ops, BucketIndex(cfg, start, now));
    success, failure, rejected := b.Counts(now);
    status := b.status;
  }
}
