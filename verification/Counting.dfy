/** Counting the elements of a sequence that satisfy a predicate. */
module Counting {

  function Count<T>(s: seq<T>, p: T -> bool): nat {
    if s == [] then 0
    else Count(s[..|s| - 1], p) + (if p(s[|s| - 1]) then 1 else 0)
  }

  /** A predicate that is the disjoint union of two others counts as their sum. */
  lemma {:induction false} CountSplit<T>(s: seq<T>, p: T -> bool, q: T -> bool, r: T -> bool)
    requires forall x <- s :: p(x) == (q(x) || r(x)) && !(q(x) && r(x))
    ensures Count(s, p) == Count(s, q) + Count(s, r)
  {
    if s != [] {
      CountSplit(s[..|s| - 1], p, q, r);
    }
  }

  /** Predicates that agree on the elements count the same. */
  lemma {:induction false} CountSame<T>(s: seq<T>, p: T -> bool, q: T -> bool)
    requires forall x <- s :: p(x) == q(x)
    ensures Count(s, p) == Count(s, q)
  {
    if s != [] {
      CountSame(s[..|s| - 1], p, q);
    }
  }

  lemma {:induction false} CountNone<T>(s: seq<T>, p: T -> bool)
    requires forall x <- s :: !p(x)
    ensures Count(s, p) == 0
  {
    if s != [] {
      CountNone(s[..|s| - 1], p);
    }
  }

  lemma {:induction false} CountAll<T>(s: seq<T>, p: T -> bool)
    requires forall x <- s :: p(x)
    ensures Count(s, p) == |s|
  {
    if s != [] {
      CountAll(s[..|s| - 1], p);
    }
  }

  lemma CountAppend<T>(s: seq<T>, x: T, p: T -> bool)
    ensures Count(s + [x], p) == Count(s, p) + (if p(x) then 1 else 0)
  {
    assert (s + [x])[..|s|] == s;
  }

  lemma {:induction false} CountConcat<T>(s: seq<T>, r: seq<T>, p: T -> bool)
    ensures Count(s + r, p) == Count(s, p) + Count(r, p)
  {
    if r == [] {
      assert s + r == s;
    } else {
      var n := |r| - 1;
      CountConcat(s, r[..n], p);
      assert (s + r)[..|s + r| - 1] == s + r[..n];
    }
  }

  lemma CountOne<T>(x: T, p: T -> bool)
    ensures Count([x], p) == if p(x) then 1 else 0
  {
    assert [x][..0] == [];
  }

  /** Counting from a position on. */
  function CountFrom<T>(s: seq<T>, k: nat, p: T -> bool): nat {
    if |s| <= k then 0 else CountFrom(s[..|s| - 1], k, p) + (if p(s[|s| - 1]) then 1 else 0)
  }

  lemma {:induction false} CountFromIsCount<T>(s: seq<T>, k: nat, p: T -> bool)
    requires k <= |s|
    ensures CountFrom(s, k, p) == Count(s[k..], p)
    decreases |s|
  {
    if k < |s| {
      var n := |s| - 1;
      CountFromIsCount(s[..n], k, p);
      var tail := s[k..];
      assert tail[..|tail| - 1] == s[..n][k..] && tail[|tail| - 1] == s[n];
    }
  }

  /** Replacing one element moves the count by that element alone. */
  lemma {:induction false} CountUpdate<T>(s: seq<T>, i: nat, x: T, p: T -> bool)
    requires i < |s|
    ensures Count(s[i := x], p) + (if p(s[i]) then 1 else 0) == Count(s, p) + (if p(x) then 1 else 0)
    decreases |s|
  {
    var n := |s| - 1;
    if i == n {
      assert s[i := x][..n] == s[..n];
    } else {
      CountUpdate(s[..n], i, x, p);
      assert s[i := x][..n] == s[..n][i := x];
    }
  }

  /** A predicate that implies another counts no more than it. */
  lemma {:induction false} CountMonotone<T>(s: seq<T>, p: T -> bool, q: T -> bool)
    requires forall x <- s :: p(x) ==> q(x)
    ensures Count(s, p) <= Count(s, q)
  {
    if s != [] {
      CountMonotone(s[..|s| - 1], p, q);
    }
  }

  /** An element that satisfies the predicate makes the count positive. */
  lemma {:induction false} CountWitness<T>(s: seq<T>, i: nat, p: T -> bool)
    requires i < |s| && p(s[i])
    ensures Count(s, p) >= 1
  {
    if i < |s| - 1 {
      CountWitness(s[..|s| - 1], i, p);
    }
  }
}
