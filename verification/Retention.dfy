/**
What the in-process cache promises a reader (internal/cache/memory.go): how long a
written entry is sure to be found, and that nothing else is.
*/
module Retention {
  import opened Wrappers
  import opened Recency

  /** The operation rewrites or erases `k`. */
  predicate Disturbs<E>(op: Op<E>, k: string) {
    match op
    case Get(_) => false
    case Set(key, _, ttl) => key == k && ttl > 0
    case Delete(key) => key == k
    case DeletePrefix(p) => |p| <= |k| && k[..|p|] == p
  }

  function Other<E>(op: Op<E>, k: string): set<string> {
    if (op.Get? || op.Set?) && op.key != k then {op.key} else {}
  }

  /** The keys other than `k` that were read or written. */
  function Others<E>(history: seq<Timed<E>>, k: string): set<string> {
    if history == [] then {} else Others(history[..|history| - 1], k) + Other(history[|history| - 1].op, k)
  }

  /** The keys more recently touched than `k`. */
  function Front<E>(l: seq<Slot<E>>, k: string): set<string> {
    if l == [] || l[0].key == k then {} else {l[0].key} + Front(l[1..], k)
  }

  ghost predicate Holds<E>(l: seq<Slot<E>>, s: Slot<E>, others: set<string>) {
    Find(l, s.key) == Some(s) && Front(l, s.key) <= others
  }

  lemma {:induction false} FrontKeep<E>(l: seq<Slot<E>>, ks: set<string>, k: string)
    requires k in ks
    ensures Front(Keep(l, ks), k) <= Front(l, k)
  {
    if l != [] {
      FrontKeep(l[1..], ks, k);
      if l[0].key in ks {
        assert Keep(l, ks) == [l[0]] + Keep(l[1..], ks);
        assert Keep(l, ks)[1..] == Keep(l[1..], ks);
      } else {
        assert Keep(l, ks) == Keep(l[1..], ks);
      }
    }
  }

  lemma {:induction false} FrontIsKeys<E>(l: seq<Slot<E>>, k: string)
    ensures Front(l, k) <= Keys(l)
  {
    if l != [] && l[0].key != k {
      FrontIsKeys(l[1..], k);
      KeysPush(l[0], l[1..]);
      assert l == [l[0]] + l[1..];
    }
  }

  lemma FrontGrows<E>(l: seq<Slot<E>>, k: string)
    requires Unique(l) && l != [] && l[0].key != k
    ensures |Front(l, k)| == 1 + |Front(l[1..], k)|
  {
    FrontIsKeys(l[1..], k);
    assert l[0].key !in Keys(l[1..]);
  }

  /** A slot with few keys in front of it survives a cut at the back. */
  lemma {:induction false} FrontCut<E>(l: seq<Slot<E>>, k: string, n: nat)
    requires Unique(l) && n <= |l| && Find(l, k).Some? && |Front(l, k)| < n
    ensures Find(l[..n], k) == Find(l, k) && Front(l[..n], k) == Front(l, k)
  {
    var c := l[..n];
    assert c[0] == l[0];
    if l[0].key != k {
      FrontGrows(l, k);
      var rest := l[1..];
      assert Find(l, k) == Find(rest, k);
      FrontCut(rest, k, n - 1);
      assert c[1..] == rest[..n - 1];
    }
  }

  lemma KeptHolds<E>(l: seq<Slot<E>>, ks: set<string>, s: Slot<E>, others: set<string>)
    requires Unique(l) && Holds(l, s, others) && s.key in ks
    ensures Holds(Keep(l, ks), s, others)
  {
    FindInKeep(l, ks, s.key);
    FrontKeep(l, ks, s.key);
  }

  lemma PushedHolds<E>(l: seq<Slot<E>>, x: Slot<E>, s: Slot<E>, others: set<string>)
    requires Holds(l, s, others) && x.key != s.key
    ensures Holds([x] + l, s, others + {x.key})
  {
    assert ([x] + l)[1..] == l;
  }

  lemma RemovedHolds<E>(l: seq<Slot<E>>, j: string, s: Slot<E>, others: set<string>)
    requires Unique(l) && Holds(l, s, others) && j != s.key
    ensures Holds(Remove(l, j), s, others)
  {
    FindMember(l, s.key);
    KeptHolds(l, Keys(l) - {j}, s, others);
  }

  lemma ReadHolds<E>(l: seq<Slot<E>>, j: string, now: int, s: Slot<E>, others: set<string>)
    requires Unique(l) && Holds(l, s, others) && now <= s.expiresAt
    ensures Holds(AfterGet(l, j, now), s, if j == s.key then others else others + {j})
  {
    if j == s.key {
      assert AfterGet(l, j, now)[0] == s;
    } else {
      RemovedHolds(l, j, s, others);
      var f := Find(l, j);
      if f.Some? && now <= f.value.expiresAt {
        FindMember(l, j);
        PushedHolds(Remove(l, j), f.value, s, others);
      }
    }
  }

  lemma WriteHolds<E>(l: seq<Slot<E>>, max: nat, j: string, e: E, ttl: int, now: int, s: Slot<E>, others: set<string>)
    requires Bounded(l, max) && Holds(l, s, others) && j != s.key && |others + {j}| < max
    ensures Holds(AfterSet(l, max, j, e, ttl, now), s, others + {j})
  {
    var x := Slot(j, e, now + ttl);
    if ttl > 0 && j in Keys(l) {
      RemovedHolds(l, j, s, others);
      PushedHolds(Remove(l, j), x, s, others);
    } else if ttl > 0 {
      PushedHolds(l, x, s, others);
      PushUnique(x, l);
      var pushed := [x] + l;
      if |pushed| > max {
        SubsetSize(Front(pushed, s.key), others + {j});
        FrontCut(pushed, s.key, max);
      }
    }
  }

  lemma {:induction false} SubsetSize(a: set<string>, b: set<string>)
    requires a <= b
    ensures |a| <= |b|
    decreases a
  {
    if a != {} {
      var x :| x in a;
      SubsetSize(a - {x}, b - {x});
    }
  }

  /** One operation that leaves `s` alone, on a cache with room for it. */
  lemma StepHolds<E>(l: seq<Slot<E>>, max: nat, t: Timed<E>, s: Slot<E>, others: set<string>)
    requires Bounded(l, max) && Holds(l, s, others)
    requires t.now <= s.expiresAt && !Disturbs(t.op, s.key) && |others + Other(t.op, s.key)| < max
    ensures Holds(After(l, max, t), s, others + Other(t.op, s.key))
  {
    FindMember(l, s.key);
    match t.op
    case Get(j) =>
      ReadHolds(l, j, t.now, s, others);
    case Set(j, e, ttl) =>
      if j != s.key {
        WriteHolds(l, max, j, e, ttl, t.now, s, others);
      }
    case Delete(j) =>
      RemovedHolds(l, j, s, others);
    case DeletePrefix(p) =>
      assert !HasPrefix(s.key, p);
      KeptHolds(l, WithoutPrefix(Keys(l), p), s, others);
  }

  /** Nothing in the history rewrites or erases `k`, and the clock stays within `until`. */
  ghost predicate Spares<E>(history: seq<Timed<E>>, k: string, until: int) {
    forall i :: 0 <= i < |history| ==> !Disturbs(history[i].op, k) && history[i].now <= until
  }

  function SlotOf<E>(w: Timed<E>): Slot<E>
    requires w.op.Set?
  {
    Slot(w.op.key, w.op.entry, w.now + w.op.ttl)
  }

  lemma {:induction false} StillHeld<E>(before: seq<Timed<E>>, w: Timed<E>, after: seq<Timed<E>>, max: nat)
    requires max >= 1 && w.op.Set? && w.op.ttl > 0
    requires Spares(after, w.op.key, w.now + w.op.ttl) && |Others(after, w.op.key)| < max
    ensures Holds(Replay(before + [w] + after, max), SlotOf(w), Others(after, w.op.key))
    decreases |after|
  {
    var history, k := before + [w] + after, w.op.key;
    if after == [] {
      assert history[..|history| - 1] == before && history[|history| - 1] == w;
      var l := Replay(before, max);
      assert After(l, max, w)[0] == SlotOf(w);
    } else {
      var n := |after| - 1;
      var t := after[n];
      assert history[..|history| - 1] == before + [w] + after[..n] && history[|history| - 1] == t;
      SubsetSize(Others(after[..n], k), Others(after, k));
      StillHeld(before, w, after[..n], max);
      ReplayBounded(history[..|history| - 1], max);
      StepHolds(Replay(before + [w] + after[..n], max), max, t, SlotOf(w), Others(after[..n], k));
    }
  }

  /**
  A written entry is found, at every instant of its lifetime, until something rewrites
  or erases its key or as many other keys as the bound have been read or written.
  */
  lemma Retained<E>(before: seq<Timed<E>>, w: Timed<E>, after: seq<Timed<E>>, max: nat, now: int)
    requires max >= 1 && w.op.Set? && w.op.ttl > 0 && now <= w.now + w.op.ttl
    requires Spares(after, w.op.key, w.now + w.op.ttl) && |Others(after, w.op.key)| < max
    ensures Lookup(Replay(before + [w] + after, max), w.op.key, now) == Some(w.op.entry)
  {
    StillHeld(before, w, after, max);
  }

  /** The write that a slot stands for: effective, and not disturbed since. */
  ghost predicate Stands<E>(history: seq<Timed<E>>, i: nat, s: Slot<E>) {
    && i < |history| && history[i].op.Set? && history[i].op.ttl > 0
    && s == SlotOf(history[i])
    && forall j :: i < j < |history| ==> !Disturbs(history[j].op, s.key)
  }

  lemma SlotBefore<E>(l: seq<Slot<E>>, max: nat, t: Timed<E>, s: Slot<E>)
    requires s in After(l, max, t)
    ensures (s in l && !Disturbs(t.op, s.key))
            || (t.op.Set? && t.op.ttl > 0 && s == SlotOf(t))
  {
    match t.op
    case Get(j) => AfterGetMembers(l, j, t.now);
    case Set(j, e, ttl) =>
      if ttl > 0 {
        AfterSetMembers(l, max, j, e, ttl, t.now);
      }
    case Delete(j) => RemoveMembers(l, j);
    case DeletePrefix(p) =>
      KeepMembers(l, WithoutPrefix(Keys(l), p));
      assert !HasPrefix(s.key, p);
  }

  lemma {:induction false} SlotStands<E>(history: seq<Timed<E>>, max: nat, s: Slot<E>) returns (i: nat)
    requires s in Replay(history, max)
    ensures Stands(history, i, s)
  {
    var n := |history| - 1;
    var l, t := Replay(history[..n], max), history[n];
    SlotBefore(l, max, t, s);
    if s in l && !Disturbs(t.op, s.key) {
      i := SlotStands(history[..n], max, s);
    } else {
      i := n;
    }
  }

  /** And nothing else is ever found: an answer is the key's last write, within its own lifetime. */
  lemma NothingElseIsFound<E>(history: seq<Timed<E>>, max: nat, k: string, now: int) returns (i: nat)
    requires Lookup(Replay(history, max), k, now).Some?
    ensures i < |history| && history[i].op.Set? && history[i].op.key == k && history[i].op.ttl > 0
    ensures Lookup(Replay(history, max), k, now) == Some(history[i].op.entry)
    ensures now <= history[i].now + history[i].op.ttl
    ensures forall j :: i < j < |history| ==> !Disturbs(history[j].op, k)
  {
    LookupSlot(Replay(history, max), k, now);
    i := SlotStands(history, max, Find(Replay(history, max), k).value);
  }
}
