/** Which sources can supply a field (internal/policy/fields.go). */
module FieldCatalog {
  import opened Wrappers
  import opened Domain

  /** The sources that can supply each known field, most authoritative first. */
  type Catalog = map<Field, seq<SourceKind>>

  function Suppliers(c: Catalog, f: Field): seq<SourceKind> {
    if f in c then c[f] else []
  }

  /** Some listed field is known, and every known one can come from `k` alone. */
  ghost predicate OnlyFrom(c: Catalog, fields: seq<Field>, k: SourceKind) {
    && (exists f <- fields :: Suppliers(c, f) != [])
    && (forall f <- fields :: Suppliers(c, f) == [] || Suppliers(c, f) == [k])
  }

  lemma OnlyFromUnique(c: Catalog, fields: seq<Field>, j: SourceKind, k: SourceKind)
    requires OnlyFrom(c, fields, j) && OnlyFrom(c, fields, k)
    ensures j == k
  {
    var f :| f in fields && Suppliers(c, f) != [];
    assert Suppliers(c, f) == [j] && Suppliers(c, f) == [k];
  }

  ghost function Exclusive(c: Catalog, fields: seq<Field>): (r: Option<SourceKind>)
    ensures forall k :: OnlyFrom(c, fields, k) <==> r == Some(k)
  {
    if exists k :: OnlyFrom(c, fields, k) then
      var k :| OnlyFrom(c, fields, k);
      assert forall j :: OnlyFrom(c, fields, j) ==> j == k by {
        forall j | OnlyFrom(c, fields, j) ensures j == k { OnlyFromUnique(c, fields, j, k); }
      }
      Some(k)
    else None
  }

  /** The listed fields' most authoritative suppliers. */
  ghost predicate Needed(c: Catalog, fields: seq<Field>, k: SourceKind) {
    exists f <- fields :: Suppliers(c, f) != [] && Suppliers(c, f)[0] == k
  }

  lemma OnlyFromExactly(c: Catalog, fields: seq<Field>)
    ensures forall k :: OnlyFrom(c, fields, k) <==>
              && (exists f <- fields :: f in c && c[f] == [k])
              && (forall f <- fields :: f in c ==> c[f] == [] || c[f] == [k])
  {
  }

  method ExclusiveTo(c: Catalog, fields: seq<Field>) returns (r: Option<SourceKind>)
    ensures r == Exclusive(c, fields)
    ensures forall k :: r == Some(k) <==>
              && (exists f <- fields :: f in c && c[f] == [k])
              && (forall f <- fields :: f in c ==> c[f] == [] || c[f] == [k])
  {
    OnlyFromExactly(c, fields);
    r := None;
    for i := 0 to |fields|
      invariant forall f <- fields[..i] :: Suppliers(c, f) == [] || (r.Some? && Suppliers(c, f) == [r.value])
      invariant r.Some? ==> exists f <- fields[..i] :: Suppliers(c, f) != []
    {
      var s := Suppliers(c, fields[i]);
      assert fields[i] in fields && fields[..i + 1] == fields[..i] + [fields[i]];
      if |s| == 0 {
        continue;
      }
      if |s| > 1 {
        assert forall k :: !OnlyFrom(c, fields, k);
        return None;
      }
      if r.None? {
        r := Some(s[0]);
        continue;
      }
      if s[0] != r.value {
        var g :| g in fields[..i] && Suppliers(c, g) != [];
        assert g in fields && Suppliers(c, g) == [r.value];
        assert forall k :: !OnlyFrom(c, fields, k);
        return None;
      }
    }
    assert fields[..|fields|] == fields;
    if r.Some? {
      assert OnlyFrom(c, fields, r.value);
    }
  }

  method SourcesFor(c: Catalog, fields: seq<Field>) returns (out: set<SourceKind>)
    ensures forall k :: k in out <==> Needed(c, fields, k)
    ensures forall k :: k in out <==> exists f <- fields :: f in c && c[f] != [] && c[f][0] == k
  {
    out := {};
    for i := 0 to |fields|
      invariant forall k :: k in out <==> Needed(c, fields[..i], k)
    {
      assert fields[..i + 1] == fields[..i] + [fields[i]];
      var s := Suppliers(c, fields[i]);
      if |s| == 0 {
        continue;
      }
      out := out + {s[0]};
    }
    assert fields[..|fields|] == fields;
  }

  /** Fields exclusive to one source never span two. */
  lemma ExclusiveDoesNotSpan(c: Catalog, fields: seq<Field>, k: SourceKind, j: SourceKind)
    requires OnlyFrom(c, fields, k) && Needed(c, fields, j)
    ensures j == k
  {
    var f :| f in fields && Suppliers(c, f) != [] && Suppliers(c, f)[0] == j;
    assert Suppliers(c, f) == [k];
  }
}
