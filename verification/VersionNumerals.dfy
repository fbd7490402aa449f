/** Versions as they are written, in decimal numerals with dots between them and perhaps a tail after a dash: the order of
    compareVersions in internal/inventory/vulnerability.go is the order of the numbers. */
module VersionNumerals {
  import opened Strings
  import opened Versions

  /** Numbers that fit the 64-bit int of the parser. */
  type Component = n: nat | n <= MAX_INT64

  function Numerals(ns: seq<Component>): seq<string> {
    seq(|ns|, i requires 0 <= i < |ns| => Decimal(ns[i]))
  }

  /** For example "1.10.2". */
  function Written(ns: seq<Component>): string {
    Join(Numerals(ns), '.')
  }

  // ---------------------------------------------------------------- a numeral reads back

  lemma ValueOfPrefix(ds: seq<nat>, i: nat)
    requires i < |ds|
    ensures Value(ds[..i + 1]) == 10 * Value(ds[..i]) + ds[i]
  {
    assert ds[..i + 1][..i] == ds[..i];
  }

  lemma {:induction false} PrefixIsSmaller(ds: seq<nat>, i: nat)
    requires i <= |ds|
    ensures Value(ds[..i]) <= Value(ds)
    decreases |ds| - i
  {
    if i == |ds| {
      assert ds[..i] == ds;
    } else {
      ValueOfPrefix(ds, i);
      PrefixIsSmaller(ds, i + 1);
    }
  }

  lemma {:induction false} ScanReads(s: string, ds: seq<nat>, i: nat)
    requires |s| == |ds| && i <= |s| && Value(ds) <= MAX_INT64
    requires forall k :: 0 <= k < |ds| ==> ds[k] < 10 && s[k] as int == '0' as int + ds[k]
    ensures ScanNumber(s, i, Value(ds[..i])) == Value(ds)
    decreases |s| - i
  {
    PrefixIsSmaller(ds, i);
    if i == |s| {
      assert ds[..i] == ds;
    } else {
      ValueOfPrefix(ds, i);
      PrefixIsSmaller(ds, i + 1);
      ScanReads(s, ds, i + 1);
    }
  }

  lemma NumeralReadsBack(n: Component)
    ensures Atoi(Decimal(n)) == n && Decimal(n) != ""
    ensures forall c <- Decimal(n) :: '0' <= c <= '9'
  {
    var s, ds := Decimal(n), Digits(n);
    forall k | 0 <= k < |ds| ensures ds[k] < 10 && s[k] as int == '0' as int + ds[k] {
      assert ds[k] in ds;
    }
    ValueOfDigits(n);
    ScanReads(s, ds, 0);
    assert ds[..0] == [];
  }

  lemma NumeralIsPlain(n: Component)
    ensures '.' !in Decimal(n) && '-' !in Decimal(n) && TrimSpace(Decimal(n)) == Decimal(n) != ""
  {
    NumeralReadsBack(n);
    var s := Decimal(n);
    assert s[0] in s && s[|s| - 1] in s;
    TrimPadded([], s, []);
    assert [] + s + [] == s;
  }

  // ---------------------------------------------------------------- a version reads back

  lemma {:induction false} NonBlankKeeps(parts: seq<string>)
    requires forall part <- parts :: TrimSpace(part) == part != ""
    ensures NonBlank(parts) == parts
  {
    if parts != [] {
      var n := |parts| - 1;
      assert parts[n] in parts && forall part <- parts[..n] :: part in parts;
      NonBlankKeeps(parts[..n]);
      assert parts == parts[..n] + [parts[n]];
    }
  }

  lemma {:induction false} JoinAvoids(parts: seq<string>, sep: char, c: char)
    requires c != sep && forall part <- parts :: c !in part
    ensures c !in Join(parts, sep)
  {
    if |parts| == 1 {
      assert parts[0] in parts;
    } else if |parts| > 1 {
      assert parts[0] in parts && forall part <- parts[1..] :: part in parts;
      JoinAvoids(parts[1..], sep, c);
    }
  }

  lemma WrittenParts(ns: seq<Component>)
    requires ns != []
    ensures '-' !in Written(ns) && Components(Written(ns)) == Numerals(ns)
  {
    var parts := Numerals(ns);
    forall part <- parts ensures '.' !in part && '-' !in part && TrimSpace(part) == part != "" {
      var i :| 0 <= i < |parts| && parts[i] == part;
      NumeralIsPlain(ns[i]);
    }
    SplitJoin(parts, '.');
    NonBlankKeeps(parts);
    JoinAvoids(parts, '.', '-');
  }

  lemma NumeralsReadBack(ns: seq<Component>)
    ensures AtoiAll(Numerals(ns)) == ns
  {
    forall i | 0 <= i < |ns| ensures AtoiAll(Numerals(ns))[i] == ns[i] {
      NumeralReadsBack(ns[i]);
    }
  }

  /** The numbers and the tail of a written version are those it was written from. */
  lemma WrittenReadsBack(ns: seq<Component>, tail: string)
    requires ns != []
    ensures Numbers(Written(ns)) == ns && Tail(Written(ns)) == ""
    ensures Numbers(Written(ns) + "-" + tail) == ns && Tail(Written(ns) + "-" + tail) == tail
  {
    WrittenParts(ns);
    BaseAndTail(Written(ns), tail);
    NumbersOf(Written(ns), Written(ns));
    NumbersOf(Written(ns) + "-" + tail, Written(ns));
    NumeralsReadBack(ns);
  }

  // ---------------------------------------------------------------- the order of written versions

  /** The first difference decides; a version that is longer by something other than zeros is later. */
  lemma FirstDifferenceDecides(a: seq<Component>, b: seq<Component>, k: nat)
    requires a != [] && b != [] && k < |b| && k <= |a| && a[..k] == b[..k] && (if k < |a| then a[k] else 0) < b[k]
    ensures VersionLess(Written(a), Written(b)) && !VersionLess(Written(b), Written(a))
  {
    WrittenReadsBack(a, "");
    WrittenReadsBack(b, "");
    forall j: nat | j < k ensures At(a, j) == At(b, j) {
      assert a[..k][j] == b[..k][j];
    }
    assert AgreeBelow(a, b, k);
    VersionTrichotomy(Written(a), Written(b));
  }

  /** A pre-release comes before its release, and pre-releases compare by their tails. */
  lemma PreReleaseComesFirst(ns: seq<Component>, tail: string, tail': string)
    requires ns != [] && tail != ""
    ensures VersionLess(Written(ns) + "-" + tail, Written(ns))
    ensures Less(tail, tail') ==> VersionLess(Written(ns) + "-" + tail, Written(ns) + "-" + tail')
  {
    WrittenReadsBack(ns, tail);
    WrittenReadsBack(ns, tail');
  }

  /** Text order would put 1.9 after 1.10; here it comes before. */
  lemma TenComesAfterNine()
    ensures VersionLess(Written([1, 9]), Written([1, 10]))
  {
    FirstDifferenceDecides([1, 9], [1, 10], 1);
  }
}
