/**
The cache tiers of internal/cache/manager.go: an in-process L1 in front of a
shared L2, and the manager that stamps entries and gives them a logical lifetime
shorter than their physical one.

L2 is a map from keys to entries with an expiry instant. Its answers do not fail.
*/
module Tiers {
  import opened Wrappers
  import opened Recency
  import opened Domain
  import opened FreshnessModel
  import opened MemoryCache

  datatype Entry = Entry(
    payload: string,
    storedAt: int,
    cacheTTL: int,
    freshness: Freshness,
    sources: seq<SourceKind>,
    provenance: map<Field, SourceKind>,
    warnings: seq<Warning>,
    partial: bool,
    degraded: bool,
    negative: bool,
    schemaVersion: int)
  {
    function Age(now: int): int {
      now - storedAt
    }

    predicate Expired(now: int) {
      cacheTTL <= 0 || Age(now) >= cacheTTL
    }

    function EffectiveFreshness(now: int): Freshness {
      Aged(freshness, storedAt, now)
    }
  }

  datatype Config = Config(maxItems: nat, l1TTL: int, negativeTTL: int, staleGrace: int)

  /** What the configuration loader guarantees of the values used here. */
  predicate Validated(cfg: Config) {
    cfg.maxItems >= 1 && cfg.staleGrace >= 0
  }

  function Min(a: int, b: int): int {
    if a > b then b else a
  }

  // -------------------------------------------------------------------------
  // L2 alone
  // -------------------------------------------------------------------------

  type Store = map<string, Slot<Entry>>

  function StoreGet(l2: Store, k: string, now: int): Option<Entry> {
    if k in l2 && now <= l2[k].expiresAt && l2[k].entry.schemaVersion == SCHEMA then Some(l2[k].entry) else None
  }

  function StoreSet(l2: Store, k: string, e: Entry, ttl: int, now: int): Store {
    if ttl <= 0 then l2 else l2[k := Slot(k, e.(schemaVersion := SCHEMA), now + ttl)]
  }

  function StoreDeletePrefix(l2: Store, p: string): Store {
    map k <- l2 | !HasPrefix(k, p) :: l2[k]
  }

  // -------------------------------------------------------------------------
  // Both tiers
  // -------------------------------------------------------------------------

  datatype Tiers = Tiers(l1: seq<Slot<Entry>>, l2: Store)

  /** The lifetime a promoted copy gets: what the entry has left, capped by the L1 lifetime. */
  function PromotionTTL(cfg: Config, e: Entry, now: int): int {
    Min(e.cacheTTL - e.Age(now), cfg.l1TTL)
  }

  function LayeredGet(cfg: Config, t: Tiers, k: string, now: int): (Tiers, Option<Entry>) {
    var l1 := AfterGet(t.l1, k, now);
    match Lookup(t.l1, k, now)
    case Some(e) => (t.(l1 := l1), Some(e))
    case None =>
      match StoreGet(t.l2, k, now)
      case None => (t.(l1 := l1), None)
      case Some(e) => (t.(l1 := AfterSet(l1, cfg.maxItems, k, e, PromotionTTL(cfg, e, now), now)), Some(e))
  }

  function LayeredSet(cfg: Config, t: Tiers, k: string, e: Entry, ttl: int, now: int): Tiers {
    Tiers(AfterSet(t.l1, cfg.maxItems, k, e, Min(ttl, cfg.l1TTL), now), StoreSet(t.l2, k, e, ttl, now))
  }

  function LayeredDelete(t: Tiers, k: string): Tiers {
    Tiers(Remove(t.l1, k), t.l2 - {k})
  }

  function LayeredDeletePrefix(t: Tiers, p: string): Tiers {
    Tiers(Keep(t.l1, WithoutPrefix(Keys(t.l1), p)), StoreDeletePrefix(t.l2, p))
  }

  /** The logical lifetime: degraded and partial answers are kept only briefly. */
  function LogicalTTL(cfg: Config, e: Entry, ttl: int): int {
    if (e.degraded || e.partial) && cfg.negativeTTL > 0 && ttl > cfg.negativeTTL then cfg.negativeTTL else ttl
  }

  function Stamped(cfg: Config, e: Entry, ttl: int, now: int): Entry {
    e.(storedAt := now, cacheTTL := LogicalTTL(cfg, e, ttl), schemaVersion := SCHEMA)
  }

  function ManagerStore(cfg: Config, t: Tiers, k: string, e: Entry, ttl: int, now: int): Tiers {
    LayeredSet(cfg, t, k, Stamped(cfg, e, ttl, now), LogicalTTL(cfg, e, ttl) + cfg.staleGrace, now)
  }

  /** The ordinary read: a logically expired entry is a miss. */
  function Served(r: Option<Entry>, now: int): Option<Entry> {
    if r.Some? && !r.value.Expired(now) then r else None
  }

  /** The stale-serve read: expiry is ignored, a remembered "not found" is not an answer. */
  function ServedStale(r: Option<Entry>): Option<Entry> {
    if r.Some? && !r.value.negative then r else None
  }

  datatype TierOp =
    | Read(key: string)
    | Write(key: string, entry: Entry, ttl: int)
    | Erase(key: string)
    | ErasePrefix(prefix: string)

  datatype Call = Call(op: TierOp, now: int)

  function Next(cfg: Config, t: Tiers, c: Call): Tiers {
    match c.op
    case Read(k) => LayeredGet(cfg, t, k, c.now).0
    case Write(k, e, ttl) => ManagerStore(cfg, t, k, e, ttl, c.now)
    case Erase(k) => LayeredDelete(t, k)
    case ErasePrefix(p) => LayeredDeletePrefix(t, p)
  }

  /** The same operation on a deployment that has no L1. */
  function NextAlone(cfg: Config, l2: Store, c: Call): Store {
    match c.op
    case Read(_) => l2
    case Write(k, e, ttl) =>
      StoreSet(l2, k, Stamped(cfg, e, ttl, c.now), LogicalTTL(cfg, e, ttl) + cfg.staleGrace, c.now)
    case Erase(k) => l2 - {k}
    case ErasePrefix(p) => StoreDeletePrefix(l2, p)
  }

  function Run(cfg: Config, calls: seq<Call>): Tiers {
    if calls == [] then Tiers([], map[])
    else Next(cfg, Run(cfg, calls[..|calls| - 1]), calls[|calls| - 1])
  }

  function RunAlone(cfg: Config, calls: seq<Call>): Store {
    if calls == [] then map[]
    else NextAlone(cfg, RunAlone(cfg, calls[..|calls| - 1]), calls[|calls| - 1])
  }

  ghost predicate Chronological(calls: seq<Call>, now: int) {
    && (forall i, j :: 0 <= i < j < |calls| ==> calls[i].now <= calls[j].now)
    && (forall i :: 0 <= i < |calls| ==> calls[i].now <= now)
  }

  // -------------------------------------------------------------------------
  // L1 is transparent
  // -------------------------------------------------------------------------

  /** A slot that is still live agrees with L2 and does not outlive it. */
  ghost predicate Mirrors(s: Slot<Entry>, l2: Store, now: int) {
    now <= s.expiresAt ==> s.key in l2 && l2[s.key].entry == s.entry && s.expiresAt <= l2[s.key].expiresAt
  }

  ghost predicate StoredWell(cfg: Config, l2: Store) {
    forall k <- l2 :: var e := l2[k].entry;
      && l2[k].key == k && e.schemaVersion == SCHEMA
      && l2[k].expiresAt == e.storedAt + e.cacheTTL + cfg.staleGrace
      && (cfg.negativeTTL > 0 && (e.degraded || e.partial) ==> e.cacheTTL <= cfg.negativeTTL)
  }

  ghost predicate Coherent(cfg: Config, t: Tiers, now: int) {
    && Unique(t.l1) && StoredWell(cfg, t.l2)
    && (cfg.l1TTL <= 0 ==> t.l1 == [])
    && forall s <- t.l1 :: Mirrors(s, t.l2, now)
  }

  lemma SetUnique(l: seq<Slot<Entry>>, max: nat, k: string, e: Entry, ttl: int, now: int)
    requires Unique(l)
    ensures Unique(AfterSet(l, max, k, e, ttl, now))
  {
    AfterBounded(l, |l| + max, Timed(Set(k, e, ttl), now));
    RemoveFacts(l, k);
    if k !in Keys(l) {
      PushUnique(Slot(k, e, now + ttl), l);
    }
  }

  lemma GetCoherent(cfg: Config, t: Tiers, k: string, now: int)
    requires Validated(cfg) && Coherent(cfg, t, now)
    ensures Coherent(cfg, LayeredGet(cfg, t, k, now).0, now)
    ensures LayeredGet(cfg, t, k, now).1 == StoreGet(t.l2, k, now)
  {
    var l1 := AfterGet(t.l1, k, now);
    AfterBounded(t.l1, |t.l1|, Timed(Get(k), now));
    AfterGetMembers(t.l1, k, now);
    FindMember(t.l1, k);
    if Lookup(t.l1, k, now).None? && StoreGet(t.l2, k, now).Some? {
      var e := t.l2[k].entry;
      var ttl := PromotionTTL(cfg, e, now);
      SetUnique(l1, cfg.maxItems, k, e, ttl, now);
      if ttl > 0 {
        AfterSetMembers(l1, cfg.maxItems, k, e, ttl, now);
      }
    }
  }

  /** What L2 holds after a write. */
  lemma StoreSetWell(cfg: Config, l2: Store, k: string, e: Entry, ttl: int, now: int)
    requires StoredWell(cfg, l2)
    ensures StoredWell(cfg, StoreSet(l2, k, Stamped(cfg, e, ttl, now), LogicalTTL(cfg, e, ttl) + cfg.staleGrace, now))
  {
  }

  lemma StoreCoherent(cfg: Config, t: Tiers, k: string, e: Entry, ttl: int, now: int)
    requires Validated(cfg) && Coherent(cfg, t, now)
    ensures Coherent(cfg, ManagerStore(cfg, t, k, e, ttl, now), now)
  {
    var e' := Stamped(cfg, e, ttl, now);
    var physical := LogicalTTL(cfg, e, ttl) + cfg.staleGrace;
    var l1TTL := Min(physical, cfg.l1TTL);
    var t' := ManagerStore(cfg, t, k, e, ttl, now);
    StoreSetWell(cfg, t.l2, k, e, ttl, now);
    SetUnique(t.l1, cfg.maxItems, k, e', l1TTL, now);
    if l1TTL > 0 {
      AfterSetMembers(t.l1, cfg.maxItems, k, e', l1TTL, now);
      forall s <- t'.l1 ensures Mirrors(s, t'.l2, now) {
        if s != Slot(k, e', now + l1TTL) {
          assert s in t.l1 && Mirrors(s, t.l2, now);
        }
      }
    } else {
      assert t'.l1 == t.l1;
    }
  }

  lemma DeleteCoherent(cfg: Config, t: Tiers, k: string, now: int)
    requires Coherent(cfg, t, now)
    ensures Coherent(cfg, LayeredDelete(t, k), now)
  {
    RemoveFacts(t.l1, k);
    RemoveMembers(t.l1, k);
    forall s <- Remove(t.l1, k) ensures Mirrors(s, t.l2 - {k}, now) {
      assert Mirrors(s, t.l2, now);
    }
  }

  lemma DeletePrefixCoherent(cfg: Config, t: Tiers, p: string, now: int)
    requires Coherent(cfg, t, now)
    ensures Coherent(cfg, LayeredDeletePrefix(t, p), now)
  {
    var ks := WithoutPrefix(Keys(t.l1), p);
    KeepUnique(t.l1, ks);
    KeepMembers(t.l1, ks);
    forall s <- Keep(t.l1, ks) ensures Mirrors(s, StoreDeletePrefix(t.l2, p), now) {
      assert Mirrors(s, t.l2, now);
    }
  }

  lemma NextCoherent(cfg: Config, t: Tiers, c: Call)
    requires Validated(cfg) && Coherent(cfg, t, c.now)
    ensures Coherent(cfg, Next(cfg, t, c), c.now)
    ensures Next(cfg, t, c).l2 == NextAlone(cfg, t.l2, c)
  {
    match c.op
    case Read(k) => GetCoherent(cfg, t, k, c.now);
    case Write(k, e, ttl) => StoreCoherent(cfg, t, k, e, ttl, c.now);
    case Erase(k) => DeleteCoherent(cfg, t, k, c.now);
    case ErasePrefix(p) => DeletePrefixCoherent(cfg, t, p, c.now);
  }

  lemma {:induction false} RunCoherent(cfg: Config, calls: seq<Call>, now: int)
    requires Validated(cfg) && Chronological(calls, now)
    ensures Coherent(cfg, Run(cfg, calls), now)
    ensures Run(cfg, calls).l2 == RunAlone(cfg, calls)
  {
    if calls != [] {
      var n := |calls| - 1;
      RunCoherent(cfg, calls[..n], calls[n].now);
      NextCoherent(cfg, Run(cfg, calls[..n]), calls[n]);
    }
  }

  /**
  L1 transparency: after any history of reads, writes and invalidations on one
  process, and at any later instant, the layered cache answers exactly as L2
  alone would, on the ordinary path and on the stale-serve path.
  */
  lemma L1IsTransparent(cfg: Config, calls: seq<Call>, k: string, now: int)
    requires Validated(cfg) && Chronological(calls, now)
    ensures var answer := LayeredGet(cfg, Run(cfg, calls), k, now).1;
            var alone := StoreGet(RunAlone(cfg, calls), k, now);
      answer == alone && Served(answer, now) == Served(alone, now) && ServedStale(answer) == ServedStale(alone)
  {
    RunCoherent(cfg, calls, now);
    GetCoherent(cfg, Run(cfg, calls), k, now);
  }

  /**
  The two lifetimes over whole runs: an ordinary hit is within its logical
  lifetime, a stale-served one within that plus the grace, and a degraded or
  partial answer never has a logical lifetime beyond the negative TTL.
  */
  lemma LifetimesHold(cfg: Config, calls: seq<Call>, k: string, now: int)
    requires Validated(cfg) && Chronological(calls, now)
    ensures var answer := LayeredGet(cfg, Run(cfg, calls), k, now).1;
      && (Served(answer, now).Some? ==> answer.value.Age(now) < answer.value.cacheTTL)
      && (ServedStale(answer).Some? ==>
            && answer.value.Age(now) <= answer.value.cacheTTL + cfg.staleGrace && !answer.value.negative)
      && (answer.Some? && cfg.negativeTTL > 0 && (answer.value.degraded || answer.value.partial) ==>
            answer.value.cacheTTL <= cfg.negativeTTL)
  {
    RunCoherent(cfg, calls, now);
    GetCoherent(cfg, Run(cfg, calls), k, now);
  }

  // -------------------------------------------------------------------------
  // L1 is a cache of its own operations
  // -------------------------------------------------------------------------

  /** What one call does to L1: a read looks its key up, and writes what it then finds in L2. */
  function L1Ops(cfg: Config, t: Tiers, c: Call): seq<Timed<Entry>> {
    match c.op
    case Read(k) =>
      [Timed(Get(k), c.now)]
      + (if Lookup(t.l1, k, c.now).None? && StoreGet(t.l2, k, c.now).Some? then
           var e := t.l2[k].entry;
           [Timed(Set(k, e, Min(e.storedAt + e.cacheTTL - c.now, cfg.l1TTL)), c.now)]
         else [])
    case Write(k, e, ttl) =>
      var stored := Stamped(cfg, e, ttl, c.now);
      [Timed(Set(k, stored, Min(stored.cacheTTL + cfg.staleGrace, cfg.l1TTL)), c.now)]
    case Erase(k) => [Timed(Delete(k), c.now)]
    case ErasePrefix(p) => [Timed(DeletePrefix(p), c.now)]
  }

  function L1History(cfg: Config, calls: seq<Call>): seq<Timed<Entry>> {
    if calls == [] then []
    else
      var before := calls[..|calls| - 1];
      L1History(cfg, before) + L1Ops(cfg, Run(cfg, before), calls[|calls| - 1])
  }

  /** A few operations, one after the other. */
  function Follow(l: seq<Slot<Entry>>, max: nat, ops: seq<Timed<Entry>>): seq<Slot<Entry>>
    decreases ops
  {
    if ops == [] then l else Follow(After(l, max, ops[0]), max, ops[1..])
  }

  lemma {:induction false} ReplayFollows(history: seq<Timed<Entry>>, max: nat, ops: seq<Timed<Entry>>)
    ensures Replay(history + ops, max) == Follow(Replay(history, max), max, ops)
    decreases |ops|
  {
    if ops == [] {
      assert history + ops == history;
    } else {
      var next := history + [ops[0]];
      assert next[..|history|] == history;
      assert history + ops == next + ops[1..];
      ReplayFollows(next, max, ops[1..]);
    }
  }

  lemma CallFollows(cfg: Config, t: Tiers, c: Call)
    ensures Next(cfg, t, c).l1 == Follow(t.l1, cfg.maxItems, L1Ops(cfg, t, c))
  {
    var ops, max := L1Ops(cfg, t, c), cfg.maxItems;
    var first := After(t.l1, max, ops[0]);
    assert Follow(t.l1, max, ops) == Follow(first, max, ops[1..]);
    if |ops| == 2 {
      var rest := ops[1..];
      assert rest == [ops[1]] && rest[1..] == [];
      assert Follow(first, max, rest) == After(first, max, ops[1]);
    } else {
      assert ops[1..] == [] && Follow(first, max, ops[1..]) == first;
    }
  }

  /**
  Behind L2, L1 is the LRU cache of the operations it receives, so what holds of its
  recency, retention and eviction holds here too.
  */
  lemma {:induction false} L1IsALru(cfg: Config, calls: seq<Call>)
    ensures Run(cfg, calls).l1 == Replay(L1History(cfg, calls), cfg.maxItems)
  {
    if calls != [] {
      var before, c := calls[..|calls| - 1], calls[|calls| - 1];
      L1IsALru(cfg, before);
      CallFollows(cfg, Run(cfg, before), c);
      ReplayFollows(L1History(cfg, before), cfg.maxItems, L1Ops(cfg, Run(cfg, before), c));
    }
  }

  // -------------------------------------------------------------------------
  // The tiers as their history
  // -------------------------------------------------------------------------

  /** The call sets what is held for `k`, or takes it away. */
  predicate Touches(cfg: Config, c: Call, k: string) {
    match c.op
    case Read(_) => false
    case Write(key, e, ttl) => key == k && LogicalTTL(cfg, e, ttl) + cfg.staleGrace > 0
    case Erase(key) => key == k
    case ErasePrefix(p) => HasPrefix(k, p)
  }

  /** Call number `i` wrote `k`, and nothing has touched it since. */
  ghost predicate Standing(cfg: Config, calls: seq<Call>, k: string, i: nat) {
    && i < |calls| && calls[i].op.Write? && Touches(cfg, calls[i], k)
    && forall j :: i < j < |calls| ==> !Touches(cfg, calls[j], k)
  }

  /** How a write stands in L2. */
  function Written(cfg: Config, c: Call): Slot<Entry>
    requires c.op.Write?
  {
    Slot(c.op.key, Stamped(cfg, c.op.entry, c.op.ttl, c.now),
         c.now + LogicalTTL(cfg, c.op.entry, c.op.ttl) + cfg.staleGrace)
  }

  lemma {:induction false} StandingIsHeld(cfg: Config, calls: seq<Call>, k: string, i: nat)
    requires Standing(cfg, calls, k, i)
    ensures k in RunAlone(cfg, calls) && RunAlone(cfg, calls)[k] == Written(cfg, calls[i])
  {
    var n := |calls| - 1;
    if i < n {
      StandingIsHeld(cfg, calls[..n], k, i);
      assert !Touches(cfg, calls[n], k);
    }
  }

  lemma {:induction false} HeldIsStanding(cfg: Config, calls: seq<Call>, k: string) returns (i: nat)
    requires k in RunAlone(cfg, calls)
    ensures Standing(cfg, calls, k, i)
  {
    var n := |calls| - 1;
    if Touches(cfg, calls[n], k) {
      i := n;
    } else {
      i := HeldIsStanding(cfg, calls[..n], k);
    }
  }

  /**
  What a read finds is a function of the history alone: the last write of the key that
  nothing has erased, stamped with its own instant, until its lifetime and grace
  are over. Evictions, promotions and other keys leave no trace in it.
  */
  lemma ReadsFindTheLastWrite(cfg: Config, calls: seq<Call>, k: string, now: int, i: nat)
    requires Validated(cfg) && Chronological(calls, now) && Standing(cfg, calls, k, i)
    ensures LayeredGet(cfg, Run(cfg, calls), k, now).1
            == if now <= Written(cfg, calls[i]).expiresAt then Some(Written(cfg, calls[i]).entry) else None
  {
    L1IsTransparent(cfg, calls, k, now);
    StandingIsHeld(cfg, calls, k, i);
  }

  lemma ReadsFindNothingElse(cfg: Config, calls: seq<Call>, k: string, now: int) returns (i: nat)
    requires Validated(cfg) && Chronological(calls, now) && LayeredGet(cfg, Run(cfg, calls), k, now).1.Some?
    ensures Standing(cfg, calls, k, i)
  {
    L1IsTransparent(cfg, calls, k, now);
    i := HeldIsStanding(cfg, calls, k);
  }

  // -------------------------------------------------------------------------
  // The code
  // -------------------------------------------------------------------------

  /** The remote tier, seen as the map it stores. */
  class Remote {
    var data: Store

    constructor ()
      ensures data == map[]
    {
      data := map[];
    }

    method Get(key: string, now: int) returns (r: Option<Entry>)
      ensures r == StoreGet(data, key, now)
    {
      if key !in data || now > data[key].expiresAt {
        return None;
      }
      var e := data[key].entry;
      r := if e.schemaVersion != SCHEMA then None else Some(e);
    }
  }

  class Layered {
    const l1: Memory<Entry>
    const l2: Remote
    const l1TTL: int

    ghost predicate Valid()
      reads this, l1
    {
      l1.Valid()
    }

    ghost function View(): Tiers
      requires Valid()
      reads this, l1, l2
    {
      Tiers(l1.View(), l2.data)
    }

    /** The part of the configuration the tiers use. */
    ghost function Cfg(negativeTTL: int, staleGrace: int): Config
      reads l1
    {
      Config(l1.maxItems, l1TTL, negativeTTL, staleGrace)
    }

    constructor (l1: Memory<Entry>, l2: Remote, l1TTL: int)
      requires l1.Valid()
      ensures Valid() && this.l1 == l1 && this.l2 == l2 && this.l1TTL == l1TTL
    {
      this.l1, this.l2, this.l1TTL := l1, l2, l1TTL;
    }

    method Get(key: string, now: int) returns (r: Option<Entry>)
      requires Valid()
      modifies l1
      ensures Valid()
      ensures (View(), r) == LayeredGet(Cfg(0, 0), old(View()), key, now)
    {
      r := l1.Get(key, now);
      if r.Some? {
        return;
      }
      r := l2.Get(key, now);
      if r.Some? {
        Promote(key, r.value, now);
      }
    }

    /** Copies an L2 hit into L1 with whatever life it has left, capped by the L1 lifetime. */
    method Promote(key: string, e: Entry, now: int)
      requires Valid()
      modifies l1
      ensures Valid()
      ensures l1.View() == AfterSet(old(l1.View()), l1.maxItems, key, e, PromotionTTL(Cfg(0, 0), e, now), now)
    {
      var remaining := e.cacheTTL - e.Age(now);
      if remaining > l1TTL {
        remaining := l1TTL;
      }
      if remaining > 0 {
        l1.Set(key, e, remaining, now);
      }
    }

    method Set(key: string, e: Entry, ttl: int, now: int)
      requires Valid()
      modifies l1, l2
      ensures Valid()
      ensures View() == LayeredSet(Cfg(0, 0), old(View()), key, e, ttl, now)
    {
      l1.Set(key, e, if ttl > l1TTL then l1TTL else ttl, now);
      if ttl > 0 {
        l2.data := l2.data[key := Slot(key, e.(schemaVersion := SCHEMA), now + ttl)];
      }
    }

    method Delete(key: string)
      requires Valid()
      modifies l1, l2
      ensures Valid()
      ensures View() == LayeredDelete(old(View()), key)
    {
      l1.Delete(key);
      l2.data := l2.data - {key};
    }

    method DeletePrefix(prefix: string)
      requires Valid()
      modifies l1, l2
      ensures Valid()
      ensures View() == LayeredDeletePrefix(old(View()), prefix)
    {
      l1.DeletePrefix(prefix);
      l2.data := map k <- l2.data | !HasPrefix(k, prefix) :: l2.data[k];
    }
  }

  /** The cache-aside manager. Its clock is the caller's argument. */
  class Manager {
    const cache: Layered
    const negativeTTL: int
    const staleGrace: int

    ghost predicate Valid()
      reads this, cache, cache.l1
    {
      cache.Valid()
    }

    ghost function Cfg(): Config
      reads this, cache, cache.l1
    {
      cache.Cfg(negativeTTL, staleGrace)
    }

    constructor (cache: Layered, negativeTTL: int, staleGrace: int)
      requires cache.Valid()
      ensures Valid() && this.cache == cache && this.negativeTTL == negativeTTL && this.staleGrace == staleGrace
    {
      this.cache, this.negativeTTL, this.staleGrace := cache, negativeTTL, staleGrace;
    }

    method Put(key: string, e: Entry, ttl: int, now: int)
      requires Valid()
      modifies cache.l1, cache.l2
      ensures Valid()
      ensures cache.View() == ManagerStore(Cfg(), old(cache.View()), key, e, ttl, now)
    {
      var lifetime := ttl;
      if (e.degraded || e.partial) && negativeTTL > 0 && lifetime > negativeTTL {
        lifetime := negativeTTL;
      }
      var stamped := e.(storedAt := now, cacheTTL := lifetime, schemaVersion := SCHEMA);
      cache.Set(key, stamped, lifetime + staleGrace, now);
    }

    /** Remembers a "not found" for the negative lifetime. */
    method SetNegative(key: string, blank: Entry, now: int)
      requires Valid()
      modifies cache.l1, cache.l2
      ensures Valid()
      ensures cache.View() == if negativeTTL <= 0 then old(cache.View())
                              else ManagerStore(Cfg(), old(cache.View()), key, blank.(negative := true),
                                                negativeTTL, now)
    {
      if negativeTTL > 0 {
        Put(key, blank.(negative := true), negativeTTL, now);
      }
    }

    method Get(key: string, now: int) returns (r: Option<Entry>)
      requires Valid()
      modifies cache.l1
      ensures Valid()
      ensures cache.View() == LayeredGet(Cfg(), old(cache.View()), key, now).0
      ensures r == Served(LayeredGet(Cfg(), old(cache.View()), key, now).1, now)
    {
      r := cache.Get(key, now);
      if r.Some? && r.value.Expired(now) {
        r := None;
      }
    }

    method GetStale(key: string, now: int) returns (r: Option<Entry>)
      requires Valid()
      modifies cache.l1
      ensures Valid()
      ensures cache.View() == LayeredGet(Cfg(), old(cache.View()), key, now).0
      ensures r == ServedStale(LayeredGet(Cfg(), old(cache.View()), key, now).1)
    {
      r := cache.Get(key, now);
      if r.Some? && r.value.negative {
        r := None;
      }
    }
  }
}
