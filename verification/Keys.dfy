/**
Cache key printing (internal/cache/cache.go). SHA-256 is a parameter: any function
to hex strings of fixed length. Characters stand for the runes of the source.
*/
module KeyModel {
  import opened Domain
  import opened Recency

  // -------------------------------------------------------------------------
  // Decimal numbers
  // -------------------------------------------------------------------------

  const MAX_INT := 0x7fff_ffff_ffff_ffff

  function Digit(d: nat): char
    requires d < 10
  {
    '0' + d as char
  }

  function Decimal(n: nat): string {
    if n < 10 then [Digit(n)] else Decimal(n / 10) + [Digit(n % 10)]
  }

  function ReadDecimal(s: string): int {
    if s == "" then 0 else 10 * ReadDecimal(s[..|s| - 1]) + (s[|s| - 1] as int - '0' as int)
  }

  lemma {:induction false} DecimalReadsBack(n: nat)
    ensures ReadDecimal(Decimal(n)) == n && Decimal(n) != ""
  {
    if n < 10 {
      assert Decimal(n)[..0] == "";
    } else {
      DecimalReadsBack(n / 10);
      assert Decimal(n)[..|Decimal(n)| - 1] == Decimal(n / 10);
    }
  }

  function Pow10(n: nat): nat {
    if n == 0 then 1 else 10 * Pow10(n - 1)
  }

  lemma BufferIsLongEnough()
    ensures MAX_INT < Pow10(20)
  {
    assert Pow10(4) == 10_000;
    assert Pow10(8) == 100_000_000;
    assert Pow10(12) == 1_000_000_000_000;
    assert Pow10(16) == 10_000_000_000_000_000;
    assert Pow10(20) == 100_000_000_000_000_000_000;
  }

  /** Moving the last digit of a number to the digits already written. */
  lemma DecimalStep(n: nat, done: string)
    requires n > 0
    ensures Decimal(n) + done == (if n / 10 > 0 then Decimal(n / 10) else "") + ([Digit(n % 10)] + done)
  {
    if n >= 10 {
      assert Decimal(n / 10) + [Digit(n % 10)] + done == Decimal(n / 10) + ([Digit(n % 10)] + done);
    }
  }

  /** Writes digits from the back of a fixed buffer. A negative number prints as nothing. */
  method Itoa(n: int) returns (s: string)
    requires n <= MAX_INT
    ensures n >= 0 ==> s == Decimal(n)
    ensures n < 0 ==> s == ""
  {
    if n == 0 {
      return "0";
    }
    BufferIsLongEnough();
    var buf := new char[20](_ => '0');
    var i, rest := 20, n;
    while rest > 0
      invariant 0 <= i <= 20 && (rest > 0 ==> rest < Pow10(i))
      invariant n > 0 ==> rest >= 0
      invariant n > 0 ==> if rest > 0 then Decimal(n) == Decimal(rest) + buf[i..] else Decimal(n) == buf[i..]
      invariant n < 0 ==> rest == n && i == 20
      decreases rest
    {
      ghost var done := buf[i..];
      i := i - 1;
      buf[i] := Digit(rest % 10);
      assert buf[i..] == [Digit(rest % 10)] + done;
      DecimalStep(rest, done);
      rest := rest / 10;
    }
    s := buf[i..];
  }

  // -------------------------------------------------------------------------
  // Segments
  // -------------------------------------------------------------------------

  predicate SafeChar(c: char) {
    'a' <= c <= 'z' || 'A' <= c <= 'Z' || '0' <= c <= '9' || c == '-' || c == '_' || c == '.'
  }

  predicate HexChar(c: char) {
    '0' <= c <= '9' || 'a' <= c <= 'f'
  }

  predicate Safe(s: string) {
    forall i :: 0 <= i < |s| ==> SafeChar(s[i])
  }

  predicate Hex(s: string, n: nat) {
    |s| == n && forall i :: 0 <= i < |s| ==> HexChar(s[i])
  }

  /** The two hashes: of an odd segment, and of a variant map. */
  datatype Hashes = Hashes(segment: string -> string, variant: map<string, string> -> string)

  ghost predicate Digests(h: Hashes) {
    (forall s :: Hex(h.segment(s), 64)) && (forall v :: Hex(h.variant(v), 16))
  }

  function Sanitized(h: Hashes, s: string): string {
    if s == "" then "~"
    else if Safe(s) then s
    else "h_" + (if |h.segment(s)| >= 24 then h.segment(s)[..24] else h.segment(s))
  }

  method SanitizeSegment(h: Hashes, s: string) returns (r: string)
    ensures r == Sanitized(h, s)
  {
    if s == "" {
      return "~";
    }
    var sb, safe := "", true;
    for i := 0 to |s|
      invariant safe <==> Safe(s[..i])
      invariant safe ==> sb == s[..i]
    {
      if SafeChar(s[i]) {
        sb := sb + [s[i]];
      } else {
        safe := false;
      }
    }
    assert s[..|s|] == s;
    if !safe {
      var sum := h.segment(s);
      return "h_" + (if |sum| >= 24 then sum[..24] else sum);
    }
    r := sb;
  }

  predicate NoColon(s: string) {
    forall i :: 0 <= i < |s| ==> s[i] != ':'
  }

  lemma SanitizedHasNoColon(h: Hashes, s: string)
    requires Digests(h)
    ensures NoColon(Sanitized(h, s)) && Sanitized(h, s) != ""
  {
    if s != "" && !Safe(s) {
      assert Hex(h.segment(s), 64);
    }
  }

  // -------------------------------------------------------------------------
  // Keys
  // -------------------------------------------------------------------------

  datatype Key = Key(
    prefix: string, tenant: string, requestType: string, resource: string, sub: string,
    variant: map<string, string>)

  function Head(prefix: string): string {
    prefix + ":e" + Decimal(SCHEMA) + ":t="
  }

  function SubPart(h: Hashes, k: Key): string {
    if k.sub != "" then ":s=" + Sanitized(h, k.sub) else ""
  }

  function VariantPart(h: Hashes, k: Key): string {
    if |k.variant| > 0 then ":v=" + h.variant(k.variant) else ""
  }

  /** The key after its resource segment, after its request type, and after its tenant. */
  function Options(h: Hashes, k: Key): string {
    SubPart(h, k) + VariantPart(h, k)
  }

  function ResourcePart(h: Hashes, k: Key): string {
    ":r=" + (Sanitized(h, k.resource) + Options(h, k))
  }

  function TypePart(h: Hashes, k: Key): string {
    ":rt=" + (Sanitized(h, k.requestType) + ResourcePart(h, k))
  }

  function Rendered(h: Hashes, k: Key): string {
    Head(k.prefix) + (Sanitized(h, k.tenant) + TypePart(h, k))
  }

  function TenantPrefix(h: Hashes, prefix: string, tenant: string): string {
    Head(prefix) + (Sanitized(h, tenant) + ":")
  }

  method KeyString(h: Hashes, k: Key) returns (sb: string)
    ensures sb == Rendered(h, k)
  {
    var schema := Itoa(SCHEMA);
    var tenant := SanitizeSegment(h, k.tenant);
    var requestType := SanitizeSegment(h, k.requestType);
    var resource := SanitizeSegment(h, k.resource);
    var head := k.prefix + ":e" + schema + ":t=";
    sb := head + tenant + ":rt=" + requestType + ":r=" + resource;
    var options := OptionsString(h, k);
    sb := sb + options;
    Regroup(head, tenant, ":rt=", requestType, ":r=", resource, options);
  }

  /** The sub-resource and the variants, where there are any. */
  method OptionsString(h: Hashes, k: Key) returns (options: string)
    ensures options == Options(h, k)
  {
    options := "";
    if k.sub != "" {
      var sub := SanitizeSegment(h, k.sub);
      options := options + ":s=" + sub;
    }
    if |k.variant| > 0 {
      options := options + ":v=" + h.variant(k.variant);
    }
  }

  lemma Regroup(a: string, b: string, c: string, d: string, e: string, f: string, g: string)
    ensures a + b + c + d + e + f + g == a + (b + (c + (d + (e + (f + g)))))
  {
    var v := f + g;
    var w := e + v;
    var x := d + w;
    var y := c + x;
    assert a + b + c + d + e + f + g == a + b + c + d + e + v;
    assert a + b + c + d + e + v == a + b + c + d + w;
    assert a + b + c + d + w == a + b + c + x;
    assert a + b + c + x == a + b + y;
    assert a + b + y == a + (b + y);
  }

  // -------------------------------------------------------------------------
  // Splitting at the delimiter
  // -------------------------------------------------------------------------

  predicate StartsAtColon(s: string) {
    s == "" || s[0] == ':'
  }

  /** The position of the first delimiter, or the length. */
  function ColonIndex(s: string): nat {
    if s == "" || s[0] == ':' then 0 else 1 + ColonIndex(s[1..])
  }

  lemma {:induction false} ColonIndexOf(a: string, x: string)
    requires NoColon(a) && StartsAtColon(x)
    ensures ColonIndex(a + x) == |a|
  {
    if a == "" {
      assert a + x == x;
    } else {
      ColonIndexOf(a[1..], x);
      assert (a + x)[1..] == a[1..] + x;
    }
  }

  /** Text without a delimiter, then a delimiter or the end, splits in one way only. */
  lemma SplitUnique(a: string, x: string, b: string, y: string)
    requires NoColon(a) && NoColon(b) && StartsAtColon(x) && StartsAtColon(y)
    requires a + x == b + y
    ensures a == b && x == y
  {
    ColonIndexOf(a, x);
    ColonIndexOf(b, y);
    assert (a + x)[..|a|] == a && (b + y)[..|b|] == b;
    assert (a + x)[|a|..] == x && (b + y)[|b|..] == y;
  }

  lemma SamePrefix(p: string, x: string, y: string)
    requires p + x == p + y
    ensures x == y
  {
    assert (p + x)[|p|..] == x && (p + y)[|p|..] == y;
  }

  /** A delimited segment is a prefix of delimited text exactly when it is its first segment. */
  lemma PrefixIsFirstSegment(p: string, a: string, b: string, y: string)
    requires NoColon(a) && NoColon(b) && y != "" && y[0] == ':'
    ensures p + (a + ":") <= p + (b + y) <==> a == b
  {
    var left, right := p + (a + ":"), p + (b + y);
    if left <= right {
      assert right == left + right[|left|..];
      var rest := right[|left|..];
      assert p + (b + y) == p + ((a + ":") + rest);
      SamePrefix(p, b + y, (a + ":") + rest);
      assert (a + ":") + rest == a + (":" + rest);
      SplitUnique(b, y, a, ":" + rest);
    }
    if a == b {
      assert right == left + y[1..];
    }
  }

  /**
  The tenant prefix is exact: it covers a key exactly when the key's tenant segment
  is that tenant's, so flushing one tenant takes nothing of another.
  */
  lemma TenantPrefixIsExact(h: Hashes, k: Key, tenant: string)
    requires Digests(h)
    ensures HasPrefix(Rendered(h, k), TenantPrefix(h, k.prefix, tenant))
            <==> Sanitized(h, k.tenant) == Sanitized(h, tenant)
    ensures Sanitized(h, k.tenant) == Sanitized(h, tenant) <==> SegmentsAlike(h, k.tenant, tenant)
  {
    SegmentsPrintAlikeExactly(h, k.tenant, tenant);
    SanitizedHasNoColon(h, k.tenant);
    SanitizedHasNoColon(h, tenant);
    PrefixIsFirstSegment(Head(k.prefix), Sanitized(h, tenant), Sanitized(h, k.tenant), TypePart(h, k));
  }

  // -------------------------------------------------------------------------
  // Which keys print alike
  // -------------------------------------------------------------------------

  predicate Letter(c: char) {
    'a' <= c <= 'z' || 'A' <= c <= 'Z'
  }

  predicate Numeral(c: char) {
    '0' <= c <= '9'
  }

  /** A segment with a character that is no letter, numeral, dash, underscore or dot; it is printed as a digest. */
  predicate Odd(s: string) {
    exists i :: 0 <= i < |s| && !Letter(s[i]) && !Numeral(s[i]) && s[i] !in "-_."
  }

  /** What an odd segment's own digest prints as. */
  function Digest(h: Hashes, s: string): string
    requires |h.segment(s)| >= 24
  {
    "h_" + h.segment(s)[..24]
  }

  /** The same segment, or two whose digests agree where they are printed, or one spelled like the other's. */
  ghost predicate SegmentsAlike(h: Hashes, s: string, t: string)
    requires Digests(h)
  {
    assert Hex(h.segment(s), 64) && Hex(h.segment(t), 64);
    || s == t
    || (Odd(s) && Odd(t) && h.segment(s)[..24] == h.segment(t)[..24])
    || (Odd(s) && t == Digest(h, s))
    || (Odd(t) && s == Digest(h, t))
  }

  lemma OddIsUnsafe(s: string)
    ensures Odd(s) <==> !Safe(s)
  {
    var marks := "-_.";
    assert marks[0] == '-' && marks[1] == '_' && marks[2] == '.';
    assert forall c: char :: c in marks <==> c == '-' || c == '_' || c == '.';
  }

  /** A digest is made of safe characters, and the stand-in for an empty segment is not. */
  lemma PrintedShapes(h: Hashes, s: string)
    requires Digests(h)
    ensures |h.segment(s)| == 64 && Safe(Digest(h, s)) && !Safe("~")
  {
    assert Hex(h.segment(s), 64);
    assert !SafeChar("~"[0]);
  }

  /**
  Two segments print alike exactly when they are equal, or both are odd and their own
  digests agree in the digits printed, or one is odd and the other is spelled like its
  digest. So two different odd identifiers collide only if their digests do.
  */
  lemma SegmentsPrintAlikeExactly(h: Hashes, s: string, t: string)
    requires Digests(h)
    ensures Sanitized(h, s) == Sanitized(h, t) <==> SegmentsAlike(h, s, t)
  {
    OddIsUnsafe(s);
    OddIsUnsafe(t);
    PrintedShapes(h, s);
    PrintedShapes(h, t);
    assert Digest(h, s)[2..] == h.segment(s)[..24] && Digest(h, t)[2..] == h.segment(t)[..24];
  }

  /** Such a spelling exists for every odd segment. */
  lemma SpelledLikeADigest(h: Hashes, s: string)
    requires Digests(h) && Odd(s)
    ensures |h.segment(s)| >= 24 && Digest(h, s) != s && Sanitized(h, Digest(h, s)) == Sanitized(h, s)
  {
    PrintedShapes(h, s);
    OddIsUnsafe(s);
    SegmentsPrintAlikeExactly(h, Digest(h, s), s);
  }

  lemma PartsStartAtColon(h: Hashes, k: Key)
    ensures StartsAtColon(VariantPart(h, k)) && StartsAtColon(Options(h, k))
    ensures StartsAtColon(ResourcePart(h, k)) && StartsAtColon(TypePart(h, k))
  {
  }

  /** The options say which of the two they hold. */
  lemma OptionsShape(h: Hashes, k: Key)
    requires Digests(h)
    ensures k.sub != "" ==> |Options(h, k)| > 1 && Options(h, k)[1] == 's'
    ensures k.sub == "" && |k.variant| > 0 ==> |Options(h, k)| > 1 && Options(h, k)[1] == 'v'
    ensures k.sub == "" && |k.variant| == 0 ==> Options(h, k) == ""
    ensures k.sub != "" ==> Options(h, k) == ":s=" + (Sanitized(h, k.sub) + VariantPart(h, k))
    ensures VariantPart(h, k) == "" <==> |k.variant| == 0
  {
    assert Options(h, k) == SubPart(h, k) + VariantPart(h, k);
  }

  /** Nothing that is optional can pass for something else that is. */
  lemma OptionsSplit(h: Hashes, k: Key, j: Key)
    requires Digests(h) && Options(h, k) == Options(h, j)
    ensures (k.sub == "") == (j.sub == "") && Sanitized(h, k.sub) == Sanitized(h, j.sub)
    ensures VariantPart(h, k) == VariantPart(h, j)
  {
    PartsStartAtColon(h, k);
    PartsStartAtColon(h, j);
    OptionsShape(h, k);
    OptionsShape(h, j);
    if k.sub != "" {
      SanitizedHasNoColon(h, k.sub);
      SanitizedHasNoColon(h, j.sub);
      SamePrefix(":s=", Sanitized(h, j.sub) + VariantPart(h, j), Sanitized(h, k.sub) + VariantPart(h, k));
      SplitUnique(Sanitized(h, k.sub), VariantPart(h, k), Sanitized(h, j.sub), VariantPart(h, j));
    } else {
      assert Options(h, k) == VariantPart(h, k) && Options(h, j) == VariantPart(h, j);
    }
  }

  /** A rendered key splits into its segments in one way only. */
  lemma KeySplit(h: Hashes, k: Key, j: Key)
    requires Digests(h) && k.prefix == j.prefix && Rendered(h, k) == Rendered(h, j)
    ensures Sanitized(h, k.tenant) == Sanitized(h, j.tenant)
    ensures Sanitized(h, k.requestType) == Sanitized(h, j.requestType)
    ensures Sanitized(h, k.resource) == Sanitized(h, j.resource)
    ensures Options(h, k) == Options(h, j)
  {
    PartsStartAtColon(h, k);
    PartsStartAtColon(h, j);
    SanitizedHasNoColon(h, k.tenant);
    SanitizedHasNoColon(h, j.tenant);
    SanitizedHasNoColon(h, k.requestType);
    SanitizedHasNoColon(h, j.requestType);
    SanitizedHasNoColon(h, k.resource);
    SanitizedHasNoColon(h, j.resource);
    SamePrefix(Head(k.prefix), Sanitized(h, k.tenant) + TypePart(h, k), Sanitized(h, j.tenant) + TypePart(h, j));
    SplitUnique(Sanitized(h, k.tenant), TypePart(h, k), Sanitized(h, j.tenant), TypePart(h, j));
    SamePrefix(":rt=", Sanitized(h, k.requestType) + ResourcePart(h, k),
               Sanitized(h, j.requestType) + ResourcePart(h, j));
    SplitUnique(Sanitized(h, k.requestType), ResourcePart(h, k), Sanitized(h, j.requestType), ResourcePart(h, j));
    SamePrefix(":r=", Sanitized(h, k.resource) + Options(h, k), Sanitized(h, j.resource) + Options(h, j));
    SplitUnique(Sanitized(h, k.resource), Options(h, k), Sanitized(h, j.resource), Options(h, j));
  }

  ghost predicate KeysAlike(h: Hashes, k: Key, j: Key)
    requires Digests(h)
  {
    && SegmentsAlike(h, k.tenant, j.tenant) && SegmentsAlike(h, k.requestType, j.requestType)
    && SegmentsAlike(h, k.resource, j.resource)
    && (k.sub == "" <==> j.sub == "") && SegmentsAlike(h, k.sub, j.sub)
    && (k.variant == map[] <==> j.variant == map[])
    && (k.variant != map[] ==> h.variant(k.variant) == h.variant(j.variant))
  }

  /**
  Two keys of one prefix print alike exactly when each of their segments does, both
  have a sub-resource or neither, and both have variants, of equal digests, or neither.
  */
  lemma KeysPrintAlikeExactly(h: Hashes, k: Key, j: Key)
    requires Digests(h) && k.prefix == j.prefix
    ensures Rendered(h, k) == Rendered(h, j) <==> KeysAlike(h, k, j)
  {
    SegmentsPrintAlikeExactly(h, k.tenant, j.tenant);
    SegmentsPrintAlikeExactly(h, k.requestType, j.requestType);
    SegmentsPrintAlikeExactly(h, k.resource, j.resource);
    SegmentsPrintAlikeExactly(h, k.sub, j.sub);
    if Rendered(h, k) == Rendered(h, j) {
      KeySplit(h, k, j);
      OptionsSplit(h, k, j);
      OptionsShape(h, k);
      OptionsShape(h, j);
      if |k.variant| > 0 {
        SamePrefix(":v=", h.variant(k.variant), h.variant(j.variant));
      }
    }
  }

  /** A segment that prints as itself and could not be mistaken for a hashed one. */
  predicate Clean(s: string) {
    s == "" || (!Odd(s) && !(|s| == 26 && s[..2] == "h_" && Hex(s[2..], 24)))
  }

  predicate CleanKey(k: Key) {
    Clean(k.tenant) && Clean(k.requestType) && Clean(k.resource) && Clean(k.sub)
  }

  lemma CleanIsLikeNoOther(h: Hashes, s: string, t: string)
    requires Digests(h) && Clean(s) && SegmentsAlike(h, s, t)
    ensures s == t
  {
    PrintedShapes(h, t);
    assert Hex(h.segment(t), 64);
    assert Digest(h, t)[2..] == h.segment(t)[..24];
  }

  /**
  No collisions: a key without variants, all of whose segments are empty or safe and
  not shaped like a hash, prints like no other key of the same prefix.
  */
  lemma CleanKeysAreUnique(h: Hashes, k: Key, j: Key)
    requires Digests(h) && CleanKey(k) && k.variant == map[] && k.prefix == j.prefix
    requires Rendered(h, k) == Rendered(h, j)
    ensures k == j
  {
    KeysPrintAlikeExactly(h, k, j);
    CleanIsLikeNoOther(h, k.tenant, j.tenant);
    CleanIsLikeNoOther(h, k.requestType, j.requestType);
    CleanIsLikeNoOther(h, k.resource, j.resource);
    CleanIsLikeNoOther(h, k.sub, j.sub);
  }

  /** The documented layout, for a key whose segments print as themselves. */
  lemma CleanLayout(h: Hashes, k: Key)
    requires CleanKey(k) && k.tenant != "" && k.requestType != "" && k.resource != ""
    ensures Rendered(h, k) ==
            k.prefix + ":e1:t=" + k.tenant + ":rt=" + k.requestType + ":r=" + k.resource
            + (if k.sub != "" then ":s=" + k.sub else "")
            + (if |k.variant| > 0 then ":v=" + h.variant(k.variant) else "")
  {
    OddIsUnsafe(k.tenant);
    OddIsUnsafe(k.requestType);
    OddIsUnsafe(k.resource);
    OddIsUnsafe(k.sub);
    HeadIsPlain(k.prefix);
    var head, sub := k.prefix + ":e1:t=", if k.sub != "" then ":s=" + k.sub else "";
    var variant := if |k.variant| > 0 then ":v=" + h.variant(k.variant) else "";
    Regroup(head, k.tenant, ":rt=", k.requestType, ":r=", k.resource, sub + variant);
    Reassociate(head + k.tenant + ":rt=" + k.requestType + ":r=" + k.resource, sub, variant);
  }

  lemma HeadIsPlain(prefix: string)
    ensures Head(prefix) == prefix + ":e1:t="
  {
    assert Decimal(SCHEMA) == "1";
    Reassociate(prefix, ":e", "1");
    Reassociate(prefix, ":e1", ":t=");
    assert ":e" + "1" == ":e1" && ":e1" + ":t=" == ":e1:t=";
  }

  lemma Reassociate(a: string, b: string, c: string)
    ensures a + (b + c) == a + b + c
  {
  }
}
