/**
The bounded in-process cache of internal/cache/memory.go: a map from keys to list
elements beside a list of the same elements in recency order, both changed in
place. An element is a handle; `cells` says what each handle currently holds, so
that the map and the list share elements as they share pointers in the source.
Every method is proved against the operations of module Recency.
*/
module MemoryCache {
  import opened Wrappers
  import opened Recency

  type Handle = nat

  /** The values along the list. */
  function Contents<E>(lru: seq<Handle>, cells: map<Handle, Slot<E>>): (l: seq<Slot<E>>)
    requires forall h <- lru :: h in cells
    ensures |l| == |lru| && forall i :: 0 <= i < |l| ==> l[i] == cells[lru[i]]
  {
    seq(|lru|, i requires 0 <= i < |lru| => assert lru[i] in lru; cells[lru[i]])
  }

  /** The map and the list hold the same elements, each under its own key, none twice. */
  ghost predicate Bijective<E>(items: map<string, Handle>, lru: seq<Handle>, cells: map<Handle, Slot<E>>) {
    && (forall h <- lru :: h in cells)
    && (forall i, j :: 0 <= i < j < |lru| ==> cells[lru[i]].key != cells[lru[j]].key)
    && (forall k <- items :: items[k] in lru && cells[items[k]].key == k)
    && (forall i :: 0 <= i < |lru| ==> cells[lru[i]].key in items && items[cells[lru[i]].key] == lru[i])
  }

  function Cut<T>(s: seq<T>, p: nat): (r: seq<T>)
    requires p < |s|
    ensures |r| == |s| - 1
    ensures forall i :: 0 <= i < p ==> r[i] == s[i]
    ensures forall i :: p <= i < |r| ==> r[i] == s[i + 1]
    ensures forall x <- r :: x in s
  {
    s[..p] + s[p + 1..]
  }

  lemma CutBijective<E>(items: map<string, Handle>, lru: seq<Handle>, cells: map<Handle, Slot<E>>, p: nat)
    requires Bijective(items, lru, cells) && p < |lru|
    ensures Bijective(items - {cells[lru[p]].key}, Cut(lru, p), cells)
  {
    var items', lru' := items - {cells[lru[p]].key}, Cut(lru, p);
    forall k <- items' ensures items'[k] in lru' {
      var i :| 0 <= i < |lru| && lru[i] == items[k];
      assert lru[i] == lru'[if i < p then i else i - 1];
    }
  }

  /** Puts an element at the front; its key may be new, or that of no other element. */
  lemma PushBijective<E>(items: map<string, Handle>, lru: seq<Handle>, cells: map<Handle, Slot<E>>,
                         h: Handle, s: Slot<E>)
    requires Bijective(items, lru, cells) && s.key !in items && h !in lru
    ensures Bijective(items[s.key := h], [h] + lru, cells[h := s])
  {
    var items', lru', cells' := items[s.key := h], [h] + lru, cells[h := s];
    forall k <- items' ensures items'[k] in lru' && cells'[items'[k]].key == k {
    }
  }

  lemma KeysOfContents<E>(items: map<string, Handle>, lru: seq<Handle>, cells: map<Handle, Slot<E>>)
    requires Bijective(items, lru, cells)
    ensures Unique(Contents(lru, cells)) && Keys(Contents(lru, cells)) == items.Keys
  {
    var l := Contents(lru, cells);
    forall k <- items ensures k in Keys(l) {
      var i :| 0 <= i < |lru| && lru[i] == items[k];
      assert l[i].key == k;
    }
  }

  lemma ContentsCut<E>(items: map<string, Handle>, lru: seq<Handle>, cells: map<Handle, Slot<E>>, p: nat)
    requires Bijective(items, lru, cells) && p < |lru|
    ensures Contents(Cut(lru, p), cells) == Remove(Contents(lru, cells), cells[lru[p]].key)
  {
    KeysOfContents(items, lru, cells);
    RemoveAt(Contents(lru, cells), p);
    assert Contents(Cut(lru, p), cells) == Cut(Contents(lru, cells), p);
  }

  lemma ContentsPush<E>(lru: seq<Handle>, cells: map<Handle, Slot<E>>, h: Handle, s: Slot<E>)
    requires (forall x <- lru :: x in cells) && h !in lru
    ensures Contents([h] + lru, cells[h := s]) == [s] + Contents(lru, cells)
  {
  }

  lemma ContentsTrim<E>(lru: seq<Handle>, cells: map<Handle, Slot<E>>, max: nat)
    requires forall h <- lru :: h in cells
    ensures var cut := if |lru| > max then lru[..max] else lru;
      (forall h <- cut :: h in cells) && Contents(cut, cells) == Trim(Contents(lru, cells), max)
  {
  }

  /** Unlinking an element and linking it again at the front with a new value. */
  lemma RelinkBijective<E>(items: map<string, Handle>, lru: seq<Handle>, cells: map<Handle, Slot<E>>,
                           p: nat, s: Slot<E>)
    requires Bijective(items, lru, cells) && p < |lru| && s.key == cells[lru[p]].key
    ensures Bijective(items, [lru[p]] + Cut(lru, p), cells[lru[p] := s])
    ensures Contents([lru[p]] + Cut(lru, p), cells[lru[p] := s]) == [s] + Remove(Contents(lru, cells), s.key)
  {
    var h, rest := lru[p], Cut(lru, p);
    CutBijective(items, lru, cells, p);
    ContentsCut(items, lru, cells, p);
    forall i | 0 <= i < |rest| ensures rest[i] != h {
      assert rest[i] == lru[if i < p then i else i + 1];
    }
    assert (items - {s.key})[s.key := h] == items;
    PushBijective(items - {s.key}, rest, cells, h, s);
    ContentsPush(rest, cells, h, s);
  }

  /** Progress of a sweep over the keys: what is gone had the prefix, what is kept and visited had not. */
  ghost predicate Swept(all: set<string>, kept: set<string>, todo: set<string>, prefix: string) {
    && todo <= kept <= all
    && (forall k <- all :: k !in kept ==> HasPrefix(k, prefix))
    && (forall k <- kept :: k !in todo ==> !HasPrefix(k, prefix))
  }

  lemma SweepStep<E>(all: set<string>, kept: set<string>, todo: set<string>, prefix: string, k: string, l: seq<Slot<E>>)
    requires Swept(all, kept, todo, prefix) && k in todo
    ensures var kept' := if HasPrefix(k, prefix) then kept - {k} else kept;
      && Swept(all, kept', todo - {k}, prefix)
      && Keep(Keep(l, kept), kept') == Keep(l, kept')
  {
    var kept' := if HasPrefix(k, prefix) then kept - {k} else kept;
    KeepKeep(l, kept, kept');
    assert kept * kept' == kept';
  }

  lemma SweepDone(all: set<string>, kept: set<string>, prefix: string)
    requires Swept(all, kept, {}, prefix)
    ensures kept == WithoutPrefix(all, prefix)
  {
  }

  class Memory<E> {
    const maxItems: nat
    var items: map<string, Handle>
    var lru: seq<Handle>
    var cells: map<Handle, Slot<E>>
    var next: Handle

    ghost predicate Valid()
      reads this
    {
      && 1 <= maxItems && |lru| <= maxItems && Bijective(items, lru, cells)
      && forall h <- lru :: h < next
    }

    ghost function View(): seq<Slot<E>>
      requires Valid()
      reads this
    {
      Contents(lru, cells)
    }

    /** The representation gives a list without duplicate keys, within the bound. */
    lemma ViewFacts()
      requires Valid()
      ensures Bounded(View(), maxItems) && Keys(View()) == items.Keys
    {
      KeysOfContents(items, lru, cells);
    }

    constructor (maxItems: int)
      ensures Valid() && View() == []
      ensures this.maxItems == if maxItems < 1 then 1024 else maxItems
    {
      this.maxItems := if maxItems < 1 then 1024 else maxItems;
      items, lru, cells, next := map[], [], map[], 0;
    }

    /** Where an element sits in the list. */
    method Position(h: Handle) returns (p: nat)
      requires h in lru
      ensures p < |lru| && lru[p] == h
    {
      p := 0;
      while lru[p] != h
        invariant p < |lru| && h in lru[p..]
        decreases |lru| - p
      {
        p := p + 1;
      }
    }

    /** Unlinks an element and re-links it at the front with the value given. */
    method Refresh(h: Handle, s: Slot<E>)
      requires Valid() && h in lru && s.key == cells[h].key
      modifies this
      ensures Valid()
      ensures View() == [s] + Remove(old(View()), s.key)
    {
      var p := Position(h);
      RelinkBijective(items, lru, cells, p, s);
      cells := cells[h := s];
      lru := [h] + Cut(lru, p);
    }

    method RemoveLocked(h: Handle)
      requires Valid() && h in lru
      modifies this
      ensures Valid()
      ensures View() == Remove(old(View()), old(cells[h].key))
      ensures items == old(items) - {old(cells[h].key)}
    {
      var p := Position(h);
      CutBijective(items, lru, cells, p);
      ContentsCut(items, lru, cells, p);
      items := items - {cells[h].key};
      lru := Cut(lru, p);
    }

    method Get(key: string, now: int) returns (r: Option<E>)
      requires Valid()
      modifies this
      ensures Valid()
      ensures r == Lookup(old(View()), key, now)
      ensures View() == AfterGet(old(View()), key, now)
    {
      ViewFacts();
      FindMember(View(), key);
      if key !in items {
        return None;
      }
      var el := items[key];
      ghost var p :| 0 <= p < |lru| && lru[p] == el;
      FindAt(View(), p);
      if now > cells[el].expiresAt {
        RemoveLocked(el);
        return None;
      }
      r := Some(cells[el].entry);
      Refresh(el, cells[el]);
    }

    method Set(key: string, e: E, ttl: int, now: int)
      requires Valid()
      modifies this
      ensures Valid()
      ensures View() == AfterSet(old(View()), maxItems, key, e, ttl, now)
    {
      if ttl <= 0 {
        return;
      }
      ViewFacts();
      var s := Slot(key, e, now + ttl);
      if key in items {
        Refresh(items[key], s);
      } else {
        Insert(s);
      }
    }

    /** Drops elements at the back until the bound holds. */
    method Evict()
      requires Bijective(items, lru, cells) && 1 <= maxItems
      modifies this`items, this`lru
      ensures Bijective(items, lru, cells)
      ensures lru == if |old(lru)| > maxItems then old(lru)[..maxItems] else old(lru)
    {
      ghost var all := lru;
      while |lru| > maxItems
        invariant Bijective(items, lru, cells) && |lru| <= |all| && lru == all[..|lru|]
        invariant |lru| >= maxItems || lru == all
        decreases |lru|
      {
        var back := |lru| - 1;
        CutBijective(items, lru, cells, back);
        items := items - {cells[lru[back]].key};
        lru := Cut(lru, back);
      }
    }

    method Insert(s: Slot<E>)
      requires Valid() && s.key !in items
      modifies this
      ensures Valid()
      ensures View() == Trim([s] + old(View()), maxItems)
    {
      var el := next;
      next := next + 1;
      PushBijective(items, lru, cells, el, s);
      ContentsPush(lru, cells, el, s);
      lru := [el] + lru;
      cells := cells[el := s];
      items := items[s.key := el];
      ContentsTrim(lru, cells, maxItems);
      assert forall h <- lru :: h < next;
      Evict();
    }

    method Delete(key: string)
      requires Valid()
      modifies this
      ensures Valid()
      ensures View() == Remove(old(View()), key)
    {
      ViewFacts();
      if key in items {
        RemoveLocked(items[key]);
      } else {
        RemoveAbsent(View(), key);
      }
    }

    /** One visit of the loop below. */
    method DropIfPrefixed(k: string, prefix: string)
      requires Valid() && k in items
      modifies this
      ensures Valid()
      ensures items.Keys == if HasPrefix(k, prefix) then old(items.Keys) - {k} else old(items.Keys)
      ensures View() == Keep(old(View()), items.Keys)
    {
      ViewFacts();
      KeepAll(View(), items.Keys);
      if HasPrefix(k, prefix) {
        RemoveLocked(items[k]);
      }
    }

    method DeletePrefix(prefix: string)
      requires Valid()
      modifies this
      ensures Valid()
      ensures View() == Keep(old(View()), WithoutPrefix(Keys(old(View())), prefix))
    {
      ViewFacts();
      ghost var before, all := View(), items.Keys;
      var todo := items.Keys;
      KeepAll(before, all);
      while todo != {}
        invariant Valid() && Swept(all, items.Keys, todo, prefix)
        invariant View() == Keep(before, items.Keys)
        decreases todo
      {
        var k :| k in todo;
        SweepStep(all, items.Keys, todo, prefix, k, before);
        todo := todo - {k};
        DropIfPrefixed(k, prefix);
      }
      SweepDone(all, items.Keys, prefix);
    }

    method Len() returns (n: nat)
      requires Valid()
      ensures n == |View()| <= maxItems
    {
      n := |lru|;
    }
  }
}
