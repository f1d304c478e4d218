/**
The abstract value of the in-process cache of internal/cache/memory.go: slots in
recency order, most recently touched first, each with its own expiry instant.
Every operation is a filter on keys, a push at the front, or a cut at the back.
*/
module Recency {
  import opened Wrappers

  datatype Slot<+E> = Slot(key: string, entry: E, expiresAt: int)

  datatype Op<E> =
    | Get(key: string)
    | Set(key: string, entry: E, ttl: int)
    | Delete(key: string)
    | DeletePrefix(prefix: string)

  /** An operation and the instant at which the clock is read for it. */
  datatype Timed<E> = Timed(op: Op<E>, now: int)

  function Keys<E>(l: seq<Slot<E>>): set<string> {
    set i | 0 <= i < |l| :: l[i].key
  }

  ghost predicate Unique<E>(l: seq<Slot<E>>) {
    forall i, j :: 0 <= i < j < |l| ==> l[i].key != l[j].key
  }

  /** The slots whose key is in `ks`, in their order. */
  function Keep<E>(l: seq<Slot<E>>, ks: set<string>): seq<Slot<E>> {
    if l == [] then [] else (if l[0].key in ks then [l[0]] else []) + Keep(l[1..], ks)
  }

  function Remove<E>(l: seq<Slot<E>>, k: string): seq<Slot<E>> {
    Keep(l, Keys(l) - {k})
  }

  function Find<E>(l: seq<Slot<E>>, k: string): Option<Slot<E>> {
    if l == [] then None else if l[0].key == k then Some(l[0]) else Find(l[1..], k)
  }

  predicate HasPrefix(k: string, prefix: string) {
    prefix <= k
  }

  function WithoutPrefix(ks: set<string>, prefix: string): set<string> {
    set k <- ks | !HasPrefix(k, prefix)
  }

  function Trim<E>(l: seq<Slot<E>>, max: nat): seq<Slot<E>> {
    if |l| > max then l[..max] else l
  }

  /** What a lookup answers: a live slot's entry. */
  function Lookup<E>(l: seq<Slot<E>>, k: string, now: int): Option<E> {
    match Find(l, k)
    case None => None
    case Some(s) => if now > s.expiresAt then None else Some(s.entry)
  }

  function AfterGet<E>(l: seq<Slot<E>>, k: string, now: int): seq<Slot<E>> {
    match Find(l, k)
    case None => l
    case Some(s) => if now > s.expiresAt then Remove(l, k) else [s] + Remove(l, k)
  }

  function AfterSet<E>(l: seq<Slot<E>>, max: nat, k: string, e: E, ttl: int, now: int): seq<Slot<E>> {
    if ttl <= 0 then l
    else if k in Keys(l) then [Slot(k, e, now + ttl)] + Remove(l, k)
    else Trim([Slot(k, e, now + ttl)] + l, max)
  }

  function After<E>(l: seq<Slot<E>>, max: nat, t: Timed<E>): seq<Slot<E>> {
    match t.op
    case Get(k) => AfterGet(l, k, t.now)
    case Set(k, e, ttl) => AfterSet(l, max, k, e, ttl, t.now)
    case Delete(k) => Remove(l, k)
    case DeletePrefix(p) => Keep(l, WithoutPrefix(Keys(l), p))
  }

  /** The cache of bound `max` after a history of operations. */
  function Replay<E>(history: seq<Timed<E>>, max: nat): seq<Slot<E>> {
    if history == [] then []
    else After(Replay(history[..|history| - 1], max), max, history[|history| - 1])
  }

  // -------------------------------------------------------------------------
  // Filtering
  // -------------------------------------------------------------------------

  lemma {:induction false} KeepMembers<E>(l: seq<Slot<E>>, ks: set<string>)
    ensures forall s <- Keep(l, ks) :: s in l && s.key in ks
    ensures forall s <- l :: s.key in ks ==> s in Keep(l, ks)
    ensures Keys(Keep(l, ks)) == Keys(l) * ks
  {
    if l != [] {
      KeepMembers(l[1..], ks);
      assert l == [l[0]] + l[1..];
    }
    var r := Keep(l, ks);
    forall k <- Keys(r) ensures k in Keys(l) * ks {
      var i :| 0 <= i < |r| && r[i].key == k;
      assert r[i] in r;
    }
    forall k <- Keys(l) * ks ensures k in Keys(r) {
      var j :| 0 <= j < |l| && l[j].key == k;
      assert l[j] in r;
    }
  }

  lemma {:induction false} KeepUnique<E>(l: seq<Slot<E>>, ks: set<string>)
    requires Unique(l)
    ensures Unique(Keep(l, ks))
  {
    if l != [] {
      KeepUnique(l[1..], ks);
      KeepMembers(l[1..], ks);
      var r := Keep(l[1..], ks);
      forall i | 0 <= i < |r| ensures r[i].key != l[0].key {
        assert r[i] in r && r[i] in l[1..];
      }
    }
  }

  lemma {:induction false} KeepKeep<E>(l: seq<Slot<E>>, a: set<string>, b: set<string>)
    ensures Keep(Keep(l, a), b) == Keep(l, a * b)
  {
    if l != [] {
      KeepKeep(l[1..], a, b);
      var head := if l[0].key in a then [l[0]] else [];
      assert Keep(l, a) == head + Keep(l[1..], a);
      if head != [] {
        assert Keep(l, a)[1..] == Keep(l[1..], a);
      } else {
        assert Keep(l, a) == Keep(l[1..], a);
      }
    }
  }

  lemma {:induction false} KeepAll<E>(l: seq<Slot<E>>, ks: set<string>)
    requires Keys(l) <= ks
    ensures Keep(l, ks) == l
  {
    if l != [] {
      assert l[0].key in Keys(l);
      assert Keys(l[1..]) <= Keys(l);
      KeepAll(l[1..], ks);
    }
  }

  /** Only the keys present in the list matter to a filter. */
  lemma KeepPresent<E>(l: seq<Slot<E>>, a: set<string>, b: set<string>)
    requires Keys(l) * a == Keys(l) * b
    ensures Keep(l, a) == Keep(l, b)
  {
    KeepAll(l, Keys(l));
    KeepKeep(l, Keys(l), a);
    KeepKeep(l, Keys(l), b);
  }

  /** Filtering cannot widen the gap between a list and a filtered copy of it. */
  lemma {:induction false} KeepGap<E>(l: seq<Slot<E>>, a: set<string>, b: set<string>)
    ensures |Keep(l, a)| - |Keep(l, a * b)| <= |l| - |Keep(l, b)|
  {
    if l != [] {
      KeepGap(l[1..], a, b);
    }
  }

  /** Removing a key of a list without duplicates cuts out exactly its position. */
  lemma {:induction false} RemoveAt<E>(l: seq<Slot<E>>, i: nat)
    requires Unique(l) && i < |l|
    ensures Remove(l, l[i].key) == l[..i] + l[i + 1..]
  {
    var k := l[i].key;
    if i == 0 {
      KeepPresent(l[1..], Keys(l) - {k}, Keys(l[1..]));
      KeepAll(l[1..], Keys(l[1..]));
    } else {
      RemoveAt(l[1..], i - 1);
      KeepPresent(l[1..], Keys(l) - {k}, Keys(l[1..]) - {k});
      assert l[1..][..i - 1] == l[1..i];
      assert l[1..][i..] == l[i + 1..];
      assert l[..i] == [l[0]] + l[1..i];
    }
  }

  lemma RemoveAbsent<E>(l: seq<Slot<E>>, k: string)
    requires k !in Keys(l)
    ensures Remove(l, k) == l
  {
    KeepAll(l, Keys(l) - {k});
  }

  lemma {:induction false} FindMember<E>(l: seq<Slot<E>>, k: string)
    ensures Find(l, k).Some? <==> k in Keys(l)
    ensures Find(l, k).Some? ==> Find(l, k).value in l && Find(l, k).value.key == k
  {
    if l != [] {
      FindMember(l[1..], k);
      assert l == [l[0]] + l[1..];
    }
  }

  lemma FindAt<E>(l: seq<Slot<E>>, i: nat)
    requires Unique(l) && i < |l|
    ensures Find(l, l[i].key) == Some(l[i])
  {
    FindMember(l, l[i].key);
    var s := Find(l, l[i].key).value;
    var j :| 0 <= j < |l| && l[j] == s;
  }

  /** A filter that keeps a key does not change what is found under it. */
  lemma FindInKeep<E>(l: seq<Slot<E>>, ks: set<string>, k: string)
    requires Unique(l) && k in ks
    ensures Find(Keep(l, ks), k) == Find(l, k)
  {
    KeepMembers(l, ks);
    KeepUnique(l, ks);
    FindMember(l, k);
    FindMember(Keep(l, ks), k);
    if k in Keys(l) {
      var s := Find(l, k).value;
      var i :| 0 <= i < |Keep(l, ks)| && Keep(l, ks)[i] == s;
      FindAt(Keep(l, ks), i);
    }
  }

  lemma KeysPush<E>(s: Slot<E>, l: seq<Slot<E>>)
    ensures Keys([s] + l) == Keys(l) + {s.key}
  {
    var p := [s] + l;
    assert p[0] == s && forall i :: 0 <= i < |l| ==> p[i + 1] == l[i];
  }

  lemma PushUnique<E>(s: Slot<E>, l: seq<Slot<E>>)
    requires Unique(l) && s.key !in Keys(l)
    ensures Unique([s] + l)
    ensures Keys([s] + l) == Keys(l) + {s.key}
  {
    KeysPush(s, l);
  }

  // -------------------------------------------------------------------------
  // What every operation keeps
  // -------------------------------------------------------------------------

  ghost predicate Bounded<E>(l: seq<Slot<E>>, max: nat) {
    Unique(l) && |l| <= max
  }

  lemma RemoveFacts<E>(l: seq<Slot<E>>, k: string)
    requires Unique(l)
    ensures Unique(Remove(l, k)) && k !in Keys(Remove(l, k)) && Keys(Remove(l, k)) == Keys(l) - {k}
    ensures |Remove(l, k)| == |l| - (if k in Keys(l) then 1 else 0)
  {
    KeepMembers(l, Keys(l) - {k});
    KeepUnique(l, Keys(l) - {k});
    if k in Keys(l) {
      var i :| 0 <= i < |l| && l[i].key == k;
      RemoveAt(l, i);
    } else {
      RemoveAbsent(l, k);
    }
  }

  lemma {:induction false} KeepShorter<E>(l: seq<Slot<E>>, ks: set<string>)
    ensures |Keep(l, ks)| <= |l|
  {
    if l != [] {
      KeepShorter(l[1..], ks);
    }
  }

  lemma AfterBounded<E>(l: seq<Slot<E>>, max: nat, t: Timed<E>)
    requires Bounded(l, max)
    ensures Bounded(After(l, max, t), max)
  {
    match t.op
    case Get(k) =>
      RemoveFacts(l, k);
      FindMember(l, k);
      if Find(l, k).Some? {
        PushUnique(Find(l, k).value, Remove(l, k));
      }
    case Set(k, e, ttl) =>
      RemoveFacts(l, k);
      PushUnique(Slot(k, e, t.now + ttl), Remove(l, k));
      if k !in Keys(l) {
        RemoveAbsent(l, k);
      }
    case Delete(k) => RemoveFacts(l, k);
    case DeletePrefix(p) =>
      KeepUnique(l, WithoutPrefix(Keys(l), p));
      KeepShorter(l, WithoutPrefix(Keys(l), p));
  }

  lemma {:induction false} ReplayBounded<E>(history: seq<Timed<E>>, max: nat)
    ensures Bounded(Replay(history, max), max)
  {
    if history != [] {
      ReplayBounded(history[..|history| - 1], max);
      AfterBounded(Replay(history[..|history| - 1], max), max, history[|history| - 1]);
    }
  }

  /** Which slots an operation can leave behind. */
  lemma AfterGetMembers<E>(l: seq<Slot<E>>, k: string, now: int)
    ensures forall s <- AfterGet(l, k, now) :: s in l
  {
    KeepMembers(l, Keys(l) - {k});
    FindMember(l, k);
  }

  lemma AfterSetMembers<E>(l: seq<Slot<E>>, max: nat, k: string, e: E, ttl: int, now: int)
    requires ttl > 0
    ensures forall s <- AfterSet(l, max, k, e, ttl, now) :: s == Slot(k, e, now + ttl) || (s in l && s.key != k)
  {
    KeepMembers(l, Keys(l) - {k});
  }

  lemma RemoveMembers<E>(l: seq<Slot<E>>, k: string)
    ensures forall s <- Remove(l, k) :: s in l && s.key != k
  {
    KeepMembers(l, Keys(l) - {k});
  }

  /** A hit is the entry of a live slot of the list. */
  lemma LookupSlot<E>(l: seq<Slot<E>>, k: string, now: int)
    requires Lookup(l, k, now).Some?
    ensures var s := Find(l, k).value;
            s in l && s.key == k && now <= s.expiresAt && Lookup(l, k, now) == Some(s.entry)
  {
    FindMember(l, k);
  }

  // -------------------------------------------------------------------------
  // Eviction order
  // -------------------------------------------------------------------------

  /** A lookup or an effective write touches its key. */
  predicate Touches<E>(op: Op<E>, k: string) {
    (op.Get? && op.key == k) || (op.Set? && op.key == k && op.ttl > 0)
  }

  /** The position in the history of the last operation that touched a key, or -1. */
  function LastTouch<E>(history: seq<Timed<E>>, k: string): int {
    if history == [] then -1
    else if Touches(history[|history| - 1].op, k) then |history| - 1
    else LastTouch(history[..|history| - 1], k)
  }

  lemma {:induction false} LastTouchBelow<E>(history: seq<Timed<E>>, k: string)
    ensures LastTouch(history, k) < |history|
  {
    if history != [] {
      LastTouchBelow(history[..|history| - 1], k);
    }
  }

  /** Slots stand in descending order of their last touch in the history. */
  ghost predicate ByLastTouch<E>(l: seq<Slot<E>>, history: seq<Timed<E>>) {
    forall i, j :: 0 <= i < j < |l| ==> LastTouch(history, l[i].key) > LastTouch(history, l[j].key)
  }

  lemma {:induction false} KeepByLastTouch<E>(l: seq<Slot<E>>, ks: set<string>, history: seq<Timed<E>>)
    requires ByLastTouch(l, history)
    ensures ByLastTouch(Keep(l, ks), history)
  {
    if l != [] {
      KeepByLastTouch(l[1..], ks, history);
      KeepMembers(l[1..], ks);
      var r := Keep(l[1..], ks);
      forall i | 0 <= i < |r| ensures LastTouch(history, l[0].key) > LastTouch(history, r[i].key) {
        assert r[i] in r && r[i] in l[1..];
      }
    }
  }

  /** An operation that touches none of the resident keys leaves their order. */
  lemma UntouchedOrder<E>(l: seq<Slot<E>>, history: seq<Timed<E>>, t: Timed<E>)
    requires ByLastTouch(l, history)
    requires forall s <- l :: !Touches(t.op, s.key)
    ensures ByLastTouch(l, history + [t])
  {
    assert (history + [t])[..|history|] == history;
  }

  lemma PushOrder<E>(s: Slot<E>, l: seq<Slot<E>>, history: seq<Timed<E>>, t: Timed<E>)
    requires ByLastTouch(l, history + [t]) && Touches(t.op, s.key)
    requires forall x <- l :: !Touches(t.op, x.key)
    ensures ByLastTouch([s] + l, history + [t])
  {
    var h := history + [t];
    assert h[..|history|] == history;
    forall j | 0 <= j < |l| ensures LastTouch(h, s.key) > LastTouch(h, l[j].key) {
      LastTouchBelow(history, l[j].key);
    }
  }

  lemma RemoveOrder<E>(l: seq<Slot<E>>, k: string, history: seq<Timed<E>>, t: Timed<E>)
    requires Unique(l) && ByLastTouch(l, history)
    requires forall q :: Touches(t.op, q) ==> q == k
    ensures ByLastTouch(Remove(l, k), history + [t])
    ensures forall x <- Remove(l, k) :: !Touches(t.op, x.key)
  {
    KeepByLastTouch(l, Keys(l) - {k}, history);
    KeepMembers(l, Keys(l) - {k});
    forall x <- Remove(l, k) ensures !Touches(t.op, x.key) {
      assert x in Keep(l, Keys(l) - {k});
    }
    UntouchedOrder(Remove(l, k), history, t);
  }

  lemma GetByLastTouch<E>(l: seq<Slot<E>>, history: seq<Timed<E>>, t: Timed<E>)
    requires Unique(l) && ByLastTouch(l, history) && t.op.Get?
    ensures ByLastTouch(AfterGet(l, t.op.key, t.now), history + [t])
  {
    var k := t.op.key;
    RemoveOrder(l, k, history, t);
    FindMember(l, k);
    if Find(l, k).Some? {
      PushOrder(Find(l, k).value, Remove(l, k), history, t);
    } else {
      RemoveAbsent(l, k);
    }
  }

  lemma SetByLastTouch<E>(l: seq<Slot<E>>, max: nat, history: seq<Timed<E>>, t: Timed<E>)
    requires Unique(l) && ByLastTouch(l, history) && t.op.Set?
    ensures ByLastTouch(AfterSet(l, max, t.op.key, t.op.entry, t.op.ttl, t.now), history + [t])
  {
    var k := t.op.key;
    if t.op.ttl <= 0 {
      UntouchedOrder(l, history, t);
    } else {
      RemoveOrder(l, k, history, t);
      PushOrder(Slot(k, t.op.entry, t.now + t.op.ttl), Remove(l, k), history, t);
      if k !in Keys(l) {
        RemoveAbsent(l, k);
      }
    }
  }

  lemma AfterByLastTouch<E>(l: seq<Slot<E>>, max: nat, history: seq<Timed<E>>, t: Timed<E>)
    requires Unique(l) && ByLastTouch(l, history)
    ensures ByLastTouch(After(l, max, t), history + [t])
  {
    match t.op
    case Get(_) => GetByLastTouch(l, history, t);
    case Set(_, _, _) => SetByLastTouch(l, max, history, t);
    case Delete(k) => RemoveOrder(l, k, history, t);
    case DeletePrefix(p) =>
      KeepByLastTouch(l, WithoutPrefix(Keys(l), p), history);
      UntouchedOrder(Keep(l, WithoutPrefix(Keys(l), p)), history, t);
  }

  lemma {:induction false} ReplayByLastTouch<E>(history: seq<Timed<E>>, max: nat)
    ensures ByLastTouch(Replay(history, max), history)
  {
    if history != [] {
      var h, t := history[..|history| - 1], history[|history| - 1];
      ReplayByLastTouch(h, max);
      ReplayBounded(h, max);
      AfterByLastTouch(Replay(h, max), max, h, t);
      assert history == h + [t];
    }
  }

  /**
  The key a write evicts is the least recently touched of all resident keys, and
  it is the only one to go.
  */
  lemma VictimIsLeastRecent<E>(history: seq<Timed<E>>, max: nat, t: Timed<E>)
    requires max >= 1 && t.op.Set? && t.op.ttl > 0
    requires t.op.key !in Keys(Replay(history, max)) && |Replay(history, max)| == max
    ensures var l := Replay(history, max);
      && After(l, max, t) == [Slot(t.op.key, t.op.entry, t.now + t.op.ttl)] + l[..max - 1]
      && forall s <- l[..max - 1] :: LastTouch(history, l[max - 1].key) < LastTouch(history, s.key)
  {
    ReplayByLastTouch(history, max);
    var l := Replay(history, max);
    var x := Slot(t.op.key, t.op.entry, t.now + t.op.ttl);
    assert ([x] + l)[..max] == [x] + l[..max - 1];
  }

  // -------------------------------------------------------------------------
  // Inclusion: a larger bound only ever holds more
  // -------------------------------------------------------------------------

  /** The smaller cache is the larger one restricted to the smaller one's keys. */
  ghost predicate Included<E>(small: seq<Slot<E>>, large: seq<Slot<E>>, m: nat, n: nat) {
    && Bounded(large, n) && |small| <= m
    && small == Keep(large, Keys(small))
    && |large| - |small| <= n - m
  }

  lemma KeysOfIncluded<E>(small: seq<Slot<E>>, large: seq<Slot<E>>)
    requires small == Keep(large, Keys(small)) && Unique(large)
    ensures Keys(small) <= Keys(large) && Unique(small)
  {
    KeepMembers(large, Keys(small));
    KeepUnique(large, Keys(small));
  }

  /** Filtering both caches alike keeps the smaller one included. */
  lemma FilterIncluded<E>(small: seq<Slot<E>>, large: seq<Slot<E>>, a: set<string>)
    requires small == Keep(large, Keys(small)) && Unique(large)
    ensures Keep(small, a) == Keep(Keep(large, a), Keys(Keep(small, a)))
    ensures |Keep(large, a)| - |Keep(small, a)| <= |large| - |small|
  {
    var ks := Keys(small);
    assert Keys(Keep(small, a)) == ks * a by {
      KeepMembers(small, a);
    }
    assert a * (ks * a) == ks * a && a * ks == ks * a;
    KeepKeep(large, ks, a);
    KeepKeep(large, a, ks * a);
    KeepGap(large, a, ks);
  }

  lemma RemoveIncluded<E>(small: seq<Slot<E>>, large: seq<Slot<E>>, k: string)
    requires small == Keep(large, Keys(small)) && Unique(large)
    ensures Remove(small, k) == Keep(Remove(large, k), Keys(Remove(small, k)))
    ensures |Remove(large, k)| - |Remove(small, k)| <= |large| - |small|
  {
    KeysOfIncluded(small, large);
    FilterIncluded(small, large, Keys(large) - {k});
    KeepPresent(small, Keys(large) - {k}, Keys(small) - {k});
  }

  lemma PushIncluded<E>(x: Slot<E>, small: seq<Slot<E>>, large: seq<Slot<E>>)
    requires small == Keep(large, Keys(small)) && Unique(large) && x.key !in Keys(large)
    ensures [x] + small == Keep([x] + large, Keys([x] + small))
  {
    KeysOfIncluded(small, large);
    PushUnique(x, small);
    KeepPresent(large, Keys([x] + small), Keys(small));
    assert ([x] + large)[1..] == large;
  }

  /** Cutting the last slot off is a filter too. */
  lemma CutIsRemove<E>(l: seq<Slot<E>>)
    requires Unique(l) && l != []
    ensures l[..|l| - 1] == Remove(l, l[|l| - 1].key)
  {
    RemoveAt(l, |l| - 1);
  }

  lemma CutSmall<E>(small: seq<Slot<E>>, large: seq<Slot<E>>)
    requires small == Keep(large, Keys(small)) && Unique(large) && small != []
    ensures small[..|small| - 1] == Keep(large, Keys(small[..|small| - 1]))
  {
    KeysOfIncluded(small, large);
    var y := small[|small| - 1].key;
    CutIsRemove(small);
    RemoveFacts(small, y);
    KeepKeep(large, Keys(small), Keys(small) - {y});
    assert Keys(small) * (Keys(small) - {y}) == Keys(small) - {y};
  }

  /** Where the larger cache's last slot is also in the smaller one, it is last there as well. */
  lemma {:induction false} SharedLast<E>(large: seq<Slot<E>>, ks: set<string>)
    requires large != [] && large[|large| - 1].key in ks
    ensures Keep(large, ks) != [] && Keep(large, ks)[|Keep(large, ks)| - 1] == large[|large| - 1]
  {
    if |large| > 1 {
      SharedLast(large[1..], ks);
    }
  }

  lemma CutBoth<E>(small: seq<Slot<E>>, large: seq<Slot<E>>)
    requires small == Keep(large, Keys(small)) && Unique(large) && small != [] && large != []
    ensures small[..|small| - 1] == Keep(large[..|large| - 1], Keys(small[..|small| - 1]))
  {
    KeysOfIncluded(small, large);
    var z := large[|large| - 1].key;
    CutIsRemove(large);
    CutSmall(small, large);
    var ks := Keys(small[..|small| - 1]);
    KeepKeep(large, Keys(large) - {z}, ks);
    if z in Keys(small) {
      SharedLast(large, Keys(small));
      CutIsRemove(small);
      RemoveFacts(small, z);
    }
    KeepPresent(large, (Keys(large) - {z}) * ks, ks);
  }

  /** Cutting one slot off the smaller cache, or off both, where their bounds ask for it. */
  lemma TrimIncluded<E>(s: seq<Slot<E>>, l: seq<Slot<E>>, m: nat, n: nat)
    requires 1 <= m <= n && |s| <= m + 1 && |l| <= n + 1 && |l| - |s| <= n - m
    requires Unique(l) && s == Keep(l, Keys(s))
    ensures Included(Trim(s, m), Trim(l, n), m, n)
  {
    if |s| > m {
      TrimSmallIncluded(s, l, m, n);
    }
  }

  lemma TrimSmallIncluded<E>(s: seq<Slot<E>>, l: seq<Slot<E>>, m: nat, n: nat)
    requires 1 <= m <= n && |s| == m + 1 && |l| <= n + 1
    requires Unique(l) && s == Keep(l, Keys(s))
    ensures Included(Trim(s, m), Trim(l, n), m, n)
  {
    assert Trim(s, m) == s[..|s| - 1];
    if |l| > n {
      assert Trim(l, n) == l[..|l| - 1];
      CutBoth(s, l);
    } else {
      CutSmall(s, l);
    }
  }

  lemma SetIncluded<E>(small: seq<Slot<E>>, large: seq<Slot<E>>, m: nat, n: nat, x: Slot<E>)
    requires 1 <= m <= n && Included(small, large, m, n)
    requires x.key !in Keys(large)
    ensures Included(Trim([x] + small, m), Trim([x] + large, n), m, n)
  {
    PushUnique(x, large);
    PushIncluded(x, small, large);
    TrimIncluded([x] + small, [x] + large, m, n);
  }

  lemma TouchIncluded<E>(small: seq<Slot<E>>, large: seq<Slot<E>>, m: nat, n: nat, x: Slot<E>)
    requires 1 <= m <= n && Included(small, large, m, n) && x.key in Keys(large)
    ensures Included(if x.key in Keys(small) then [x] + Remove(small, x.key) else Trim([x] + small, m),
                     [x] + Remove(large, x.key), m, n)
    ensures x.key !in Keys(small) ==> Included(small, [x] + Remove(large, x.key), m, n)
  {
    var k := x.key;
    KeysOfIncluded(small, large);
    RemoveIncluded(small, large, k);
    RemoveFacts(large, k);
    RemoveFacts(small, k);
    PushUnique(x, Remove(large, k));
    PushIncluded(x, Remove(small, k), Remove(large, k));
    if k !in Keys(small) {
      RemoveAbsent(small, k);
      var l := [x] + Remove(large, k);
      assert l[1..] == Remove(large, k);
      assert small == Keep(l, Keys(small));
      if |small| + 1 > m {
        CutSmall([x] + small, l);
      }
    }
  }

  lemma GetIncluded<E>(small: seq<Slot<E>>, large: seq<Slot<E>>, m: nat, n: nat, k: string, now: int)
    requires 1 <= m <= n && Included(small, large, m, n)
    ensures Included(AfterGet(small, k, now), AfterGet(large, k, now), m, n)
  {
    KeysOfIncluded(small, large);
    SameSlot(small, large, k);
    FindMember(large, k);
    FindMember(small, k);
    if k in Keys(large) {
      RemoveIncluded(small, large, k);
      RemoveFacts(small, k);
      RemoveFacts(large, k);
      if k !in Keys(small) {
        RemoveAbsent(small, k);
      }
      TouchIncluded(small, large, m, n, Find(large, k).value);
    }
  }

  lemma FilteredIncluded<E>(small: seq<Slot<E>>, large: seq<Slot<E>>, m: nat, n: nat, p: string)
    requires 1 <= m <= n && Included(small, large, m, n)
    ensures Included(Keep(small, WithoutPrefix(Keys(small), p)), Keep(large, WithoutPrefix(Keys(large), p)), m, n)
  {
    KeysOfIncluded(small, large);
    FilterIncluded(small, large, WithoutPrefix(Keys(large), p));
    KeepPresent(small, WithoutPrefix(Keys(large), p), WithoutPrefix(Keys(small), p));
    KeepShorter(small, WithoutPrefix(Keys(small), p));
    KeepShorter(large, WithoutPrefix(Keys(large), p));
    KeepUnique(large, WithoutPrefix(Keys(large), p));
  }

  lemma WriteIncluded<E>(small: seq<Slot<E>>, large: seq<Slot<E>>, m: nat, n: nat, k: string, e: E, ttl: int, now: int)
    requires 1 <= m <= n && Included(small, large, m, n)
    ensures Included(AfterSet(small, m, k, e, ttl, now), AfterSet(large, n, k, e, ttl, now), m, n)
  {
    if ttl > 0 {
      KeysOfIncluded(small, large);
      if k in Keys(large) {
        TouchIncluded(small, large, m, n, Slot(k, e, now + ttl));
      } else {
        SetIncluded(small, large, m, n, Slot(k, e, now + ttl));
      }
    }
  }

  lemma DeleteIncluded<E>(small: seq<Slot<E>>, large: seq<Slot<E>>, m: nat, n: nat, k: string)
    requires 1 <= m <= n && Included(small, large, m, n)
    ensures Included(Remove(small, k), Remove(large, k), m, n)
  {
    KeysOfIncluded(small, large);
    RemoveIncluded(small, large, k);
    RemoveFacts(small, k);
    RemoveFacts(large, k);
  }

  /** Two caches that see the same operation stay included. */
  lemma AfterIncluded<E>(small: seq<Slot<E>>, large: seq<Slot<E>>, m: nat, n: nat, t: Timed<E>)
    requires 1 <= m <= n && Included(small, large, m, n)
    ensures Included(After(small, m, t), After(large, n, t), m, n)
  {
    match t.op
    case Get(k) => GetIncluded(small, large, m, n, k, t.now);
    case Set(k, e, ttl) => WriteIncluded(small, large, m, n, k, e, ttl, t.now);
    case Delete(k) => DeleteIncluded(small, large, m, n, k);
    case DeletePrefix(p) => FilteredIncluded(small, large, m, n, p);
  }

  /** A key of the smaller cache is found in the larger one, in the same slot. */
  lemma SameSlot<E>(small: seq<Slot<E>>, large: seq<Slot<E>>, k: string)
    requires small == Keep(large, Keys(small)) && Unique(large)
    ensures k in Keys(small) ==> Find(small, k) == Find(large, k)
  {
    if k in Keys(small) {
      FindInKeep(large, Keys(small), k);
    }
  }

  /**
  LRU inclusion: after any history of operations at any instants, the cache with
  the smaller bound is a subsequence of the one with the larger bound, slot for
  slot and expiry for expiry.
  */
  lemma {:induction false} Inclusion<E>(history: seq<Timed<E>>, m: nat, n: nat)
    requires 1 <= m <= n
    ensures Included(Replay(history, m), Replay(history, n), m, n)
  {
    if history != [] {
      var h := history[..|history| - 1];
      Inclusion(h, m, n);
      AfterIncluded(Replay(h, m), Replay(h, n), m, n, history[|history| - 1]);
    }
  }

  /** Raising the bound never turns a hit into a miss, nor changes its answer. */
  lemma HitsSurviveALargerBound<E>(history: seq<Timed<E>>, m: nat, n: nat, k: string, now: int)
    requires 1 <= m <= n && Lookup(Replay(history, m), k, now).Some?
    ensures Lookup(Replay(history, n), k, now) == Lookup(Replay(history, m), k, now)
  {
    Inclusion(history, m, n);
    FindMember(Replay(history, m), k);
    SameSlot(Replay(history, m), Replay(history, n), k);
  }
}
