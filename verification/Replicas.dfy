/**
Many processes, each with its own L1, over one shared L2 whose writes succeed
(internal/cache/manager.go, `Layered`). Every tier access is a separate step, so
a lookup's fetch and its promotion, or a write's two halves, interleave with
whatever the other processes do. The only bound is on how long an operation may
sit between its two accesses.
*/
module Replicas {
  import opened Wrappers
  import opened Domain
  import opened Recency
  import opened Tiers

  /** An operation that has made its first tier access and not its second. */
  datatype Pending =
    | Promoting(key: string, entry: Entry, since: int)
    | Flushing(key: string, entry: Entry, ttl: int, since: int)

  datatype Replica = Replica(l1: seq<Slot<Entry>>, pending: multiset<Pending>)

  datatype Snapshot = Snapshot(at: int, data: Store)

  /** L2's whole past is kept, its last snapshot being the present. */
  datatype Cluster = Cluster(replicas: seq<Replica>, timeline: seq<Snapshot>, clock: int)

  datatype Params = Params(cfg: Config, delay: int)

  datatype Step =
    | ReadL1(r: nat, key: string, now: int)
    | FetchL2(r: nat, key: string, now: int)
    | Promote(r: nat, p: Pending, now: int)
    | WriteL1(r: nat, key: string, entry: Entry, ttl: int, now: int)
    | Flush(r: nat, p: Pending, now: int)
    | EraseL1(r: nat, key: string, now: int)
    | EraseL1Prefix(r: nat, prefix: string, now: int)
    | EraseL2(key: string, now: int)
    | EraseL2Prefix(prefix: string, now: int)

  function Present(c: Cluster): Store {
    if c.timeline == [] then map[] else c.timeline[|c.timeline| - 1].data
  }

  predicate HasReplica(c: Cluster, r: nat) {
    r < |c.replicas|
  }

  predicate Enabled(p: Params, c: Cluster, s: Step) {
    && c.clock <= s.now
    && match s
       case ReadL1(r, _, _) => HasReplica(c, r)
       case FetchL2(r, k, now) => HasReplica(c, r) && StoreGet(Present(c), k, now).Some?
       case Promote(r, q, now) =>
         HasReplica(c, r) && q in c.replicas[r].pending && q.Promoting? && now - q.since <= p.delay
       case WriteL1(r, _, e, ttl, _) => HasReplica(c, r) && ttl > 0 && e.schemaVersion == SCHEMA
       case Flush(r, q, _) => HasReplica(c, r) && q in c.replicas[r].pending && q.Flushing?
       case EraseL1(r, _, _) => HasReplica(c, r)
       case EraseL1Prefix(r, _, _) => HasReplica(c, r)
       case EraseL2(_, _) => true
       case EraseL2Prefix(_, _) => true
  }

  function WithReplica(c: Cluster, r: nat, l1: seq<Slot<Entry>>, pending: multiset<Pending>, now: int): Cluster
    requires HasReplica(c, r)
  {
    c.(replicas := c.replicas[r := Replica(l1, pending)], clock := now)
  }

  function WithL2(c: Cluster, data: Store, now: int): Cluster {
    c.(timeline := c.timeline + [Snapshot(now, data)], clock := now)
  }

  function Apply(p: Params, c: Cluster, s: Step): Cluster
    requires Enabled(p, c, s)
  {
    match s
    case ReadL1(r, k, now) =>
      WithReplica(c, r, AfterGet(c.replicas[r].l1, k, now), c.replicas[r].pending, now)
    case FetchL2(r, k, now) =>
      var q := Promoting(k, StoreGet(Present(c), k, now).value, now);
      WithReplica(c, r, c.replicas[r].l1, c.replicas[r].pending + multiset{q}, now)
    case Promote(r, q, now) =>
      var l1 := AfterSet(c.replicas[r].l1, p.cfg.maxItems, q.key, q.entry, PromotionTTL(p.cfg, q.entry, now), now);
      WithReplica(c, r, l1, c.replicas[r].pending - multiset{q}, now)
    case WriteL1(r, k, e, ttl, now) =>
      var l1 := AfterSet(c.replicas[r].l1, p.cfg.maxItems, k, e, Min(ttl, p.cfg.l1TTL), now);
      WithReplica(c, r, l1, c.replicas[r].pending + multiset{Flushing(k, e, ttl, now)}, now)
    case Flush(r, q, now) =>
      WithL2(WithReplica(c, r, c.replicas[r].l1, c.replicas[r].pending - multiset{q}, now),
             StoreSet(Present(c), q.key, q.entry, q.ttl, now), now)
    case EraseL1(r, k, now) =>
      WithReplica(c, r, Remove(c.replicas[r].l1, k), c.replicas[r].pending, now)
    case EraseL1Prefix(r, x, now) =>
      var l1 := c.replicas[r].l1;
      WithReplica(c, r, Keep(l1, WithoutPrefix(Keys(l1), x)), c.replicas[r].pending, now)
    case EraseL2(k, now) => WithL2(c, Present(c) - {k}, now)
    case EraseL2Prefix(x, now) => WithL2(c, StoreDeletePrefix(Present(c), x), now)
  }

  ghost predicate Started(c: Cluster) {
    && (forall r <- c.replicas :: r.l1 == [] && r.pending == multiset{})
    && |c.timeline| == 1 && c.timeline[0].at <= c.clock
  }

  ghost predicate Follows(p: Params, c: Cluster, s: Step, c': Cluster) {
    Enabled(p, c, s) && c' == Apply(p, c, s)
  }

  ghost predicate Run(p: Params, states: seq<Cluster>, steps: seq<Step>) {
    && |states| == |steps| + 1
    && Started(states[0])
    && forall i :: 0 <= i < |steps| ==> Follows(p, states[i], steps[i], states[i + 1])
  }

  // -------------------------------------------------------------------------
  // What L2 held, and when
  // -------------------------------------------------------------------------

  ghost predicate HeldIn(timeline: seq<Snapshot>, i: nat, k: string, e: Entry, w: int) {
    && i < |timeline| && timeline[i].at <= w
    && (i + 1 < |timeline| ==> w <= timeline[i + 1].at)
    && StoreGet(timeline[i].data, k, w) == Some(e)
  }

  /** L2 would have answered `e` for `k` at the instant `w`. */
  ghost predicate HeldAt(timeline: seq<Snapshot>, k: string, e: Entry, w: int) {
    exists i: nat :: HeldIn(timeline, i, k, e, w)
  }

  lemma HeldLater(timeline: seq<Snapshot>, next: Snapshot, k: string, e: Entry, w: int)
    requires HeldAt(timeline, k, e, w) && w <= next.at
    ensures HeldAt(timeline + [next], k, e, w)
  {
    var i: nat :| HeldIn(timeline, i, k, e, w);
    assert HeldIn(timeline + [next], i, k, e, w);
  }

  // -------------------------------------------------------------------------
  // The invariant
  // -------------------------------------------------------------------------

  /** The slot's entry was L2's, recently enough to cover the slot's whole remaining life. */
  ghost predicate Backed(p: Params, timeline: seq<Snapshot>, s: Slot<Entry>, w: int) {
    HeldAt(timeline, s.key, s.entry, w) && s.expiresAt <= w + p.delay + p.cfg.l1TTL
  }

  /** Or this replica is still on its way to writing it to L2. */
  ghost predicate BeingWritten(p: Params, r: Replica, s: Slot<Entry>) {
    exists q <- r.pending ::
      q.Flushing? && q.key == s.key && q.entry == s.entry && s.expiresAt <= q.since + p.cfg.l1TTL
  }

  ghost predicate SlotInv(p: Params, timeline: seq<Snapshot>, clock: int, r: Replica, s: Slot<Entry>) {
    BeingWritten(p, r, s) || exists w :: w <= clock && Backed(p, timeline, s, w)
  }

  ghost predicate PendingInv(timeline: seq<Snapshot>, clock: int, q: Pending) {
    && q.since <= clock
    && (q.Promoting? ==> HeldAt(timeline, q.key, q.entry, q.since))
    && (q.Flushing? ==> q.ttl > 0 && q.entry.schemaVersion == SCHEMA)
  }

  ghost predicate ReplicaInv(p: Params, timeline: seq<Snapshot>, clock: int, r: Replica) {
    && (forall s <- r.l1 :: SlotInv(p, timeline, clock, r, s))
    && (forall q <- r.pending :: PendingInv(timeline, clock, q))
  }

  ghost predicate Inv(p: Params, c: Cluster) {
    && c.timeline != [] && c.timeline[|c.timeline| - 1].at <= c.clock
    && forall r <- c.replicas :: ReplicaInv(p, c.timeline, c.clock, r)
  }

  /** A replica that does nothing keeps its part while time passes and L2 moves on. */
  lemma IdleReplica(p: Params, timeline: seq<Snapshot>, clock: int, next: Snapshot, r: Replica)
    requires ReplicaInv(p, timeline, clock, r) && clock <= next.at
    ensures ReplicaInv(p, timeline + [next], next.at, r)
  {
    var tl := timeline + [next];
    forall s <- r.l1 ensures SlotInv(p, tl, next.at, r, s) {
      if !BeingWritten(p, r, s) {
        var w :| w <= clock && Backed(p, timeline, s, w);
        HeldLater(timeline, next, s.key, s.entry, w);
        assert Backed(p, tl, s, w);
      }
    }
    forall q <- r.pending ensures PendingInv(tl, next.at, q) {
      if q.Promoting? {
        HeldLater(timeline, next, q.key, q.entry, q.since);
      }
    }
  }

  lemma WaitingReplica(p: Params, timeline: seq<Snapshot>, clock: int, now: int, r: Replica)
    requires ReplicaInv(p, timeline, clock, r) && clock <= now
    ensures ReplicaInv(p, timeline, now, r)
  {
    forall s <- r.l1 ensures SlotInv(p, timeline, now, r, s) {
      if !BeingWritten(p, r, s) {
        var w :| w <= clock && Backed(p, timeline, s, w);
      }
    }
  }

  /** A replica whose list lost slots, and whose pending operations grew, keeps its part. */
  lemma ShrunkReplica(p: Params, timeline: seq<Snapshot>, clock: int, r: Replica, r': Replica)
    requires ReplicaInv(p, timeline, clock, r)
    requires forall s <- r'.l1 :: s in r.l1 || SlotInv(p, timeline, clock, r', s)
    requires forall q <- r.pending :: q.Flushing? ==> q in r'.pending
    requires forall q <- r'.pending :: q in r.pending || PendingInv(timeline, clock, q)
    ensures ReplicaInv(p, timeline, clock, r')
  {
    forall s <- r'.l1 ensures SlotInv(p, timeline, clock, r', s) {
      if s in r.l1 {
        assert SlotInv(p, timeline, clock, r, s);
        if BeingWritten(p, r, s) {
          var q :| q in r.pending && q.Flushing? && q.key == s.key && q.entry == s.entry
                   && s.expiresAt <= q.since + p.cfg.l1TTL;
          assert q in r'.pending;
        }
      }
    }
  }

  /** One replica moves, L2 does not. */
  lemma LocalStep(p: Params, c: Cluster, r: nat, r': Replica, now: int)
    requires Inv(p, c) && HasReplica(c, r) && c.clock <= now
    requires ReplicaInv(p, c.timeline, now, r')
    ensures Inv(p, WithReplica(c, r, r'.l1, r'.pending, now))
  {
    var c' := WithReplica(c, r, r'.l1, r'.pending, now);
    forall i | 0 <= i < |c'.replicas| ensures ReplicaInv(p, c'.timeline, now, c'.replicas[i]) {
      if i != r {
        assert c.replicas[i] in c.replicas;
        WaitingReplica(p, c.timeline, c.clock, now, c.replicas[i]);
      }
    }
  }

  /** L2 moves, no replica does. */
  lemma RemoteStep(p: Params, c: Cluster, data: Store, now: int)
    requires Inv(p, c) && c.clock <= now
    ensures Inv(p, WithL2(c, data, now))
  {
    forall r <- c.replicas ensures ReplicaInv(p, c.timeline + [Snapshot(now, data)], now, r) {
      IdleReplica(p, c.timeline, c.clock, Snapshot(now, data), r);
    }
  }

  lemma PresentIsHeld(p: Params, c: Cluster, k: string, now: int)
    requires Inv(p, c) && c.clock <= now && StoreGet(Present(c), k, now).Some?
    ensures HeldAt(c.timeline, k, StoreGet(Present(c), k, now).value, now)
  {
    assert HeldIn(c.timeline, |c.timeline| - 1, k, StoreGet(Present(c), k, now).value, now);
  }

  lemma ReadKeepsInv(p: Params, c: Cluster, s: Step)
    requires Inv(p, c) && Enabled(p, c, s) && (s.ReadL1? || s.FetchL2? || s.EraseL1? || s.EraseL1Prefix?)
    ensures Inv(p, Apply(p, c, s))
  {
    var was := c.replicas[s.r];
    var becomes := Apply(p, c, s).replicas[s.r];
    WaitingReplica(p, c.timeline, c.clock, s.now, was);
    match s {
      case ReadL1(_, k, now) => AfterGetMembers(was.l1, k, now);
      case FetchL2(_, k, now) => PresentIsHeld(p, c, k, now);
      case EraseL1(_, k, _) => RemoveMembers(was.l1, k);
      case EraseL1Prefix(_, x, _) => KeepMembers(was.l1, WithoutPrefix(Keys(was.l1), x));
    }
    ShrunkReplica(p, c.timeline, s.now, was, becomes);
    LocalStep(p, c, s.r, becomes, s.now);
  }

  /** A promoted copy is backed by the instant of its fetch. */
  lemma PromotedSlots(p: Params, timeline: seq<Snapshot>, now: int, l1: seq<Slot<Entry>>, q: Pending, r: Replica)
    requires q.Promoting? && PendingInv(timeline, now, q) && now - q.since <= p.delay
    requires r.l1 == AfterSet(l1, p.cfg.maxItems, q.key, q.entry, PromotionTTL(p.cfg, q.entry, now), now)
    ensures forall s <- r.l1 :: s in l1 || SlotInv(p, timeline, now, r, s)
  {
    var ttl := PromotionTTL(p.cfg, q.entry, now);
    if ttl > 0 {
      AfterSetMembers(l1, p.cfg.maxItems, q.key, q.entry, ttl, now);
      assert Backed(p, timeline, Slot(q.key, q.entry, now + ttl), q.since);
      assert SlotInv(p, timeline, now, r, Slot(q.key, q.entry, now + ttl));
    }
  }

  lemma PromoteKeepsInv(p: Params, c: Cluster, s: Step)
    requires Inv(p, c) && Enabled(p, c, s) && s.Promote?
    ensures Inv(p, Apply(p, c, s))
  {
    var was, becomes := c.replicas[s.r], Apply(p, c, s).replicas[s.r];
    WaitingReplica(p, c.timeline, c.clock, s.now, was);
    PromotedSlots(p, c.timeline, s.now, was.l1, s.p, becomes);
    ShrunkReplica(p, c.timeline, s.now, was, becomes);
    LocalStep(p, c, s.r, becomes, s.now);
  }

  lemma WriteKeepsInv(p: Params, c: Cluster, s: Step)
    requires Inv(p, c) && Enabled(p, c, s) && s.WriteL1?
    ensures Inv(p, Apply(p, c, s))
  {
    var was := c.replicas[s.r];
    var becomes := Apply(p, c, s).replicas[s.r];
    WaitingReplica(p, c.timeline, c.clock, s.now, was);
    var ttl := Min(s.ttl, p.cfg.l1TTL);
    assert Flushing(s.key, s.entry, s.ttl, s.now) in becomes.pending;
    if ttl > 0 {
      AfterSetMembers(was.l1, p.cfg.maxItems, s.key, s.entry, ttl, s.now);
      assert BeingWritten(p, becomes, Slot(s.key, s.entry, s.now + ttl));
    }
    ShrunkReplica(p, c.timeline, s.now, was, becomes);
    LocalStep(p, c, s.r, becomes, s.now);
  }

  /** The second half of a write: what was on its way is now what L2 holds. */
  lemma FlushedReplica(p: Params, c: Cluster, s: Step)
    requires Inv(p, c) && Enabled(p, c, s) && s.Flush? && p.delay >= 0
    ensures ReplicaInv(p, Apply(p, c, s).timeline, s.now, Apply(p, c, s).replicas[s.r])
  {
    var was, q := c.replicas[s.r], s.p;
    var c' := Apply(p, c, s);
    var becomes, tl := c'.replicas[s.r], c'.timeline;
    assert ReplicaInv(p, c.timeline, c.clock, was);
    assert PendingInv(c.timeline, c.clock, q);
    IdleReplica(p, c.timeline, c.clock, tl[|tl| - 1], was);
    assert HeldIn(tl, |tl| - 1, q.key, q.entry, s.now);
    forall x <- becomes.l1 ensures SlotInv(p, tl, s.now, becomes, x) {
      assert SlotInv(p, tl, s.now, was, x);
      if BeingWritten(p, was, x) {
        var f :| f in was.pending && f.Flushing? && f.key == x.key && f.entry == x.entry
                 && x.expiresAt <= f.since + p.cfg.l1TTL;
        assert PendingInv(c.timeline, c.clock, f);
        if f == q {
          assert Backed(p, tl, x, s.now);
        } else {
          assert f in becomes.pending;
        }
      }
    }
    forall f <- becomes.pending ensures PendingInv(tl, s.now, f) {
      assert f in was.pending;
    }
  }

  lemma FlushKeepsInv(p: Params, c: Cluster, s: Step)
    requires Inv(p, c) && Enabled(p, c, s) && s.Flush? && p.delay >= 0
    ensures Inv(p, Apply(p, c, s))
  {
    var c' := Apply(p, c, s);
    FlushedReplica(p, c, s);
    var next := c'.timeline[|c'.timeline| - 1];
    forall i | 0 <= i < |c'.replicas| ensures ReplicaInv(p, c'.timeline, s.now, c'.replicas[i]) {
      if i != s.r {
        assert c.replicas[i] in c.replicas;
        IdleReplica(p, c.timeline, c.clock, next, c.replicas[i]);
      }
    }
  }

  lemma StepKeepsInv(p: Params, c: Cluster, s: Step)
    requires Inv(p, c) && Enabled(p, c, s) && p.delay >= 0
    ensures Inv(p, Apply(p, c, s))
  {
    match s
    case Promote(_, _, _) => PromoteKeepsInv(p, c, s);
    case WriteL1(_, _, _, _, _) => WriteKeepsInv(p, c, s);
    case Flush(_, _, _) => FlushKeepsInv(p, c, s);
    case EraseL2(k, now) => RemoteStep(p, c, Present(c) - {k}, now);
    case EraseL2Prefix(x, now) => RemoteStep(p, c, StoreDeletePrefix(Present(c), x), now);
    case _ => ReadKeepsInv(p, c, s);
  }

  lemma {:induction false} InvHolds(p: Params, states: seq<Cluster>, steps: seq<Step>, n: nat)
    requires Run(p, states, steps) && n < |states| && p.delay >= 0
    ensures Inv(p, states[n])
  {
    if n > 0 {
      InvHolds(p, states, steps, n - 1);
      assert Follows(p, states[n - 1], steps[n - 1], states[n]);
      StepKeepsInv(p, states[n - 1], steps[n - 1]);
    }
  }

  /** Step number `n` reads a live L1 copy. */
  ghost predicate Hit(states: seq<Cluster>, steps: seq<Step>, n: nat) {
    && n < |steps| && |states| == |steps| + 1 && steps[n].ReadL1? && steps[n].r < |states[n].replicas|
    && Lookup(states[n].replicas[steps[n].r].l1, steps[n].key, steps[n].now).Some?
  }

  /**
  What that read returns is being written through to L2 by its own process, since
  no longer ago than the L1 lifetime, or was L2's own answer no longer ago than `span`.
  */
  ghost predicate Recent(p: Params, states: seq<Cluster>, steps: seq<Step>, n: nat, span: int)
    requires Hit(states, steps, n)
  {
    var k, now := steps[n].key, steps[n].now;
    var r := states[n].replicas[steps[n].r];
    var e := Lookup(r.l1, k, now).value;
    || (exists q <- r.pending :: q.Flushing? && q.key == k && q.entry == e && now <= q.since + p.cfg.l1TTL)
    || (exists w :: now - span <= w <= now && HeldAt(states[n].timeline, k, e, w))
  }

  /**
  Bounded staleness: in every run, a value that some process serves from its L1 at
  time t either is one that process is just writing through to L2, or was L2's own
  answer for that key at an instant no earlier than t minus the L1 lifetime and the
  delay. Promotions, re-reads and evictions never stretch this.
  */
  lemma BoundedStaleness(p: Params, states: seq<Cluster>, steps: seq<Step>, n: nat)
    requires Run(p, states, steps) && Hit(states, steps, n) && p.delay >= 0
    ensures Recent(p, states, steps, n, p.cfg.l1TTL + p.delay)
  {
    InvHolds(p, states, steps, n);
    assert Follows(p, states[n], steps[n], states[n + 1]);
    var c, now := states[n], steps[n].now;
    var r := c.replicas[steps[n].r];
    LookupSlot(r.l1, steps[n].key, now);
    var s := Find(r.l1, steps[n].key).value;
    assert ReplicaInv(p, c.timeline, c.clock, r) && SlotInv(p, c.timeline, c.clock, r, s);
    if BeingWritten(p, r, s) {
      var q :| q in r.pending && q.Flushing? && q.key == s.key && q.entry == s.entry
               && s.expiresAt <= q.since + p.cfg.l1TTL;
      assert now <= q.since + p.cfg.l1TTL;
    } else {
      var w :| w <= c.clock && Backed(p, c.timeline, s, w);
      assert HeldAt(c.timeline, steps[n].key, s.entry, w);
    }
  }

  // -------------------------------------------------------------------------
  // When the L1 lifetime alone is the bound
  // -------------------------------------------------------------------------

  /** Without an L1 lifetime nothing is ever kept in L1. */
  lemma {:induction false} NoLifetimeNoCopies(p: Params, states: seq<Cluster>, steps: seq<Step>, n: nat)
    requires Run(p, states, steps) && n < |states| && p.cfg.l1TTL <= 0
    ensures forall r <- states[n].replicas :: r.l1 == []
  {
    if n > 0 {
      NoLifetimeNoCopies(p, states, steps, n - 1);
      assert Follows(p, states[n - 1], steps[n - 1], states[n]);
    }
  }

  /** An entry that L2 holds at first, for long enough to outlast the run below. */
  function Lasting(p: Params): Entry {
    var blank := Freshness(Unknown, 0, 0, None, 0, NoSource, false, 0);
    Entry("", 0, p.cfg.l1TTL + p.delay, blank, [], map[], [], false, false, false, SCHEMA)
  }

  /** A lookup is held up between its fetch and its promotion while L2 loses the entry. */
  lemma SlowPromotion(p: Params, k: string) returns (states: seq<Cluster>, steps: seq<Step>)
    requires p.cfg.maxItems >= 1 && p.cfg.l1TTL >= 1 && p.delay >= 1
    ensures Run(p, states, steps) && Hit(states, steps, 3) && !Recent(p, states, steps, 3, p.cfg.l1TTL)
  {
    var e := Lasting(p);
    var full: Store := map[k := Slot(k, e, p.cfg.l1TTL + p.delay)];
    var q := Promoting(k, e, 0);
    var end := p.cfg.l1TTL + p.delay;
    var tl := [Snapshot(0, full), Snapshot(0, map[])];
    var c0 := Cluster([Replica([], multiset{})], [Snapshot(0, full)], 0);
    var c1 := Cluster([Replica([], multiset{q})], [Snapshot(0, full)], 0);
    var c2 := Cluster([Replica([], multiset{q})], tl, 0);
    var c3 := Cluster([Replica([Slot(k, e, end)], multiset{})], tl, p.delay);
    steps := [FetchL2(0, k, 0), EraseL2(k, 0), Promote(0, q, p.delay), ReadL1(0, k, end)];
    assert multiset{} + multiset{q} == multiset{q};
    assert c0.replicas[0 := c1.replicas[0]] == c1.replicas;
    assert Follows(p, c0, steps[0], c1);
    assert full - {k} == map[];
    assert Follows(p, c1, steps[1], c2);
    assert multiset{q} - multiset{q} == multiset{};
    assert PromotionTTL(p.cfg, e, p.delay) == p.cfg.l1TTL;
    var slot := Slot(k, e, end);
    assert k !in Keys<Entry>([]) && [slot] + [] == [slot];
    assert AfterSet([], p.cfg.maxItems, k, e, p.cfg.l1TTL, p.delay) == [slot];
    assert c2.replicas[0 := c3.replicas[0]] == c3.replicas;
    assert Follows(p, c2, steps[2], c3);
    states := [c0, c1, c2, c3, Apply(p, c3, steps[3])];
    assert Follows(p, c3, steps[3], states[4]);
    forall w | end - p.cfg.l1TTL <= w ensures !HeldAt(tl, k, e, w) {
    }
  }

  /**
  The L1 lifetime alone bounds staleness in every run exactly when an operation
  spends no time between its two tier accesses, or L1 keeps nothing.
  */
  lemma LifetimeBoundExactly(p: Params)
    requires Validated(p.cfg) && p.delay >= 0
    ensures (forall states, steps, n: nat :: Run(p, states, steps) && Hit(states, steps, n) ==>
               Recent(p, states, steps, n, p.cfg.l1TTL))
            <==> p.delay == 0 || p.cfg.l1TTL <= 0
  {
    if p.delay > 0 && p.cfg.l1TTL > 0 {
      var states, steps := SlowPromotion(p, "");
    } else {
      forall states, steps, n: nat | Run(p, states, steps) && Hit(states, steps, n)
        ensures Recent(p, states, steps, n, p.cfg.l1TTL)
      {
        if p.delay == 0 {
          BoundedStaleness(p, states, steps, n);
        } else {
          NoLifetimeNoCopies(p, states, steps, n);
          assert false;
        }
      }
    }
  }
}
