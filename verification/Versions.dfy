/** compareVersions and splitVersion of internal/inventory/vulnerability.go against a lexicographic order. */
module Versions {
  import opened Strings

  const MAX_INT64 := 0x7fff_ffff_ffff_ffff
  const MAX_UINT64 := 0xffff_ffff_ffff_ffff

  // ---------------------------------------------------------------- the numbers and the tail of a version

  /** The digits from position i on, with n read so far: 0 on a syntax error, the maximum on overflow. */
  function ScanNumber(s: string, i: nat, n: nat): nat
    requires i <= |s|
    decreases |s| - i
  {
    if i == |s| then if n > MAX_INT64 then MAX_INT64 else n
    else if !('0' <= s[i] <= '9') then 0
    else
      var n' := 10 * n + (s[i] as int - '0' as int);
      if n' > MAX_UINT64 then MAX_INT64 else ScanNumber(s, i + 1, n')
  }

  /** strconv.Atoi with the error ignored, on text without a minus sign. */
  function Atoi(s: string): nat {
    if s != "" && s[0] == '+' then if |s| == 1 then 0 else ScanNumber(s, 1, 0)
    else ScanNumber(s, 0, 0)
  }

  function FirstDash(v: string, i: nat): (k: nat)
    requires i <= |v| && '-' !in v[..i]
    ensures i <= k <= |v| && '-' !in v[..k] && (k < |v| ==> v[k] == '-')
    decreases |v| - i
  {
    if i == |v| || v[i] == '-' then i else FirstDash(v, i + 1)
  }

  /** The part before the first dash. */
  function Base(v: string): string {
    v[..FirstDash(v, 0)]
  }

  /** The part after the first dash; empty when there is none. */
  function Tail(v: string): string {
    if FirstDash(v, 0) == |v| then "" else v[FirstDash(v, 0) + 1..]
  }

  function NonBlank(parts: seq<string>): seq<string> {
    if parts == [] then []
    else
      var part := TrimSpace(parts[|parts| - 1]);
      NonBlank(parts[..|parts| - 1]) + if part == "" then [] else [part]
  }

  function Components(base: string): seq<string> {
    NonBlank(Split(base, '.'))
  }

  function Numbers(v: string): seq<nat> {
    var parts := Components(Base(v));
    seq(|parts|, i requires 0 <= i < |parts| => Atoi(parts[i]))
  }

  method SplitVersion(base: string) returns (parts: seq<string>)
    ensures parts == Components(base)
  {
    parts := [];
    var pieces := Split(base, '.');
    var n := 0;
    while n < |pieces|
      invariant 0 <= n <= |pieces|
      invariant parts == NonBlank(pieces[..n])
    {
      assert pieces[..n + 1][..n] == pieces[..n];
      var part := TrimSpace(pieces[n]);
      if part != "" {
        parts := parts + [part];
      }
      n := n + 1;
    }
    assert pieces[..n] == pieces;
  }

  // ---------------------------------------------------------------- the order

  /** The k-th number of a list padded with zeros. */
  function At(ns: seq<nat>, k: nat): nat {
    if k < |ns| then ns[k] else 0
  }

  ghost predicate SameNumbers(a: seq<nat>, b: seq<nat>) {
    forall k: nat :: At(a, k) == At(b, k)
  }

  /** The padded lists agree below k. */
  ghost predicate AgreeBelow(a: seq<nat>, b: seq<nat>, k: nat) {
    forall j: nat :: j < k ==> At(a, j) == At(b, j)
  }

  ghost predicate NumbersLess(a: seq<nat>, b: seq<nat>) {
    exists k: nat :: AgreeBelow(a, b, k) && At(a, k) < At(b, k)
  }

  /** A version with a tail comes before the one without; tails compare as strings. */
  predicate TailLess(a: string, b: string) {
    (a != "" && b == "") || (a != "" && b != "" && Less(a, b))
  }

  ghost predicate VersionLess(a: string, b: string) {
    || NumbersLess(Numbers(a), Numbers(b))
    || (SameNumbers(Numbers(a), Numbers(b)) && TailLess(Tail(a), Tail(b)))
  }

  ghost predicate VersionEqual(a: string, b: string) {
    SameNumbers(Numbers(a), Numbers(b)) && Tail(a) == Tail(b)
  }

  method CompareVersions(a: string, b: string) returns (r: int)
    ensures r in {-1, 0, 1}
    ensures r == -1 <==> VersionLess(a, b)
    ensures r == 1 <==> VersionLess(b, a)
    ensures r == 0 <==> VersionEqual(a, b)
  {
    VersionTrichotomy(a, b);
    var aParts := SplitVersion(Base(a));
    var bParts := SplitVersion(Base(b));
    ghost var aNums, bNums := Numbers(a), Numbers(b);
    var maxLen := if |bParts| > |aParts| then |bParts| else |aParts|;
    var i := 0;
    while i < maxLen
      invariant 0 <= i <= maxLen
      invariant AgreeBelow(aNums, bNums, i)
    {
      var ai := if i < |aParts| then Atoi(aParts[i]) else 0;
      var bi := if i < |bParts| then Atoi(bParts[i]) else 0;
      assert ai == At(aNums, i) && bi == At(bNums, i);
      if ai < bi {
        assert NumbersLess(aNums, bNums);
        return -1;
      }
      if ai > bi {
        assert AgreeBelow(bNums, aNums, i);
        assert NumbersLess(bNums, aNums);
        return 1;
      }
      i := i + 1;
    }
    assert SameNumbers(aNums, bNums);
    r := CompareTails(Tail(a), Tail(b));
  }

  method CompareTails(a: string, b: string) returns (r: int)
    ensures r == if TailLess(a, b) then -1 else if TailLess(b, a) then 1 else 0
    ensures r == 0 <==> a == b
  {
    LessTotal(a, b);
    if a != "" && b == "" {
      return -1;
    }
    if a == "" && b != "" {
      return 1;
    }
    if a != "" && b != "" {
      if Less(a, b) {
        return -1;
      }
      if Less(b, a) {
        return 1;
      }
    }
    return 0;
  }

  // ---------------------------------------------------------------- a total preorder on all strings

  lemma TailTrichotomy(a: string, b: string)
    ensures TailLess(a, b) || a == b || TailLess(b, a)
    ensures !(TailLess(a, b) && TailLess(b, a)) && !(TailLess(a, b) && a == b)
  {
    LessTotal(a, b);
  }

  lemma NumbersTotal(a: seq<nat>, b: seq<nat>)
    ensures NumbersLess(a, b) || SameNumbers(a, b) || NumbersLess(b, a)
  {
    var n := if |a| > |b| then |a| else |b|;
    var k := FirstDifference(a, b, 0, n);
    if At(a, k) == At(b, k) {
      assert SameNumbers(a, b);
    } else if At(b, k) < At(a, k) {
      assert AgreeBelow(b, a, k);
    }
  }

  lemma FirstDifference(a: seq<nat>, b: seq<nat>, i: nat, n: nat) returns (k: nat)
    requires i <= n && AgreeBelow(a, b, i)
    ensures k <= n && AgreeBelow(a, b, k) && (k < n ==> At(a, k) != At(b, k))
    decreases n - i
  {
    if i == n || At(a, i) != At(b, i) {
      k := i;
    } else {
      k := FirstDifference(a, b, i + 1, n);
    }
  }

  lemma NumbersAsymmetric(a: seq<nat>, b: seq<nat>)
    requires NumbersLess(a, b)
    ensures !SameNumbers(a, b) && !NumbersLess(b, a)
  {
    var k: nat :| AgreeBelow(a, b, k) && At(a, k) < At(b, k);
    assert forall j: nat :: AgreeBelow(b, a, j) ==> j <= k;
  }

  /** Exactly one of less, equal and greater, for every two strings. */
  lemma VersionTrichotomy(a: string, b: string)
    ensures VersionLess(a, b) || VersionEqual(a, b) || VersionLess(b, a)
    ensures !(VersionLess(a, b) && VersionLess(b, a)) && !(VersionLess(a, b) && VersionEqual(a, b))
    ensures !(VersionLess(b, a) && VersionEqual(a, b))
  {
    var x, y := Numbers(a), Numbers(b);
    NumbersTotal(x, y);
    TailTrichotomy(Tail(a), Tail(b));
    assert SameNumbers(x, y) <==> SameNumbers(y, x);
    if NumbersLess(x, y) {
      NumbersAsymmetric(x, y);
    }
    if NumbersLess(y, x) {
      NumbersAsymmetric(y, x);
    }
  }

  lemma NumbersTransitive(a: seq<nat>, b: seq<nat>, c: seq<nat>)
    requires NumbersLess(a, b) && NumbersLess(b, c)
    ensures NumbersLess(a, c)
  {
    var j: nat :| AgreeBelow(a, b, j) && At(a, j) < At(b, j);
    var k: nat :| AgreeBelow(b, c, k) && At(b, k) < At(c, k);
    var m := if j < k then j else k;
    assert AgreeBelow(a, c, m) && At(a, m) < At(c, m);
  }

  lemma NumbersCongruent(a: seq<nat>, a': seq<nat>, b: seq<nat>, b': seq<nat>)
    requires SameNumbers(a, a') && SameNumbers(b, b') && NumbersLess(a, b)
    ensures NumbersLess(a', b')
  {
    var k: nat :| AgreeBelow(a, b, k) && At(a, k) < At(b, k);
    assert AgreeBelow(a', b', k) && At(a', k) < At(b', k);
  }

  lemma TailTransitive(a: string, b: string, c: string)
    requires TailLess(a, b) && TailLess(b, c)
    ensures TailLess(a, c)
  {
    if b != "" && c != "" {
      LessTransitive(a, b, c);
    }
  }

  lemma VersionLessTransitive(a: string, b: string, c: string)
    requires VersionLess(a, b) && VersionLess(b, c)
    ensures VersionLess(a, c)
  {
    var x, y, z := Numbers(a), Numbers(b), Numbers(c);
    if NumbersLess(x, y) && NumbersLess(y, z) {
      NumbersTransitive(x, y, z);
    } else if NumbersLess(x, y) {
      NumbersCongruent(x, x, y, z);
    } else if NumbersLess(y, z) {
      NumbersCongruent(y, x, z, z);
    } else {
      TailTransitive(Tail(a), Tail(b), Tail(c));
    }
  }

  /** Equal versions are interchangeable on both sides. */
  lemma VersionEqualCongruent(a: string, a': string, b: string)
    requires VersionEqual(a, a')
    ensures VersionLess(a, b) <==> VersionLess(a', b)
    ensures VersionLess(b, a) <==> VersionLess(b, a')
  {
    var x, x', y := Numbers(a), Numbers(a'), Numbers(b);
    assert SameNumbers(x', x) && SameNumbers(y, y);
    if NumbersLess(x, y) {
      NumbersCongruent(x, x', y, y);
    }
    if NumbersLess(x', y) {
      NumbersCongruent(x', x, y, y);
    }
    if NumbersLess(y, x) {
      NumbersCongruent(y, y, x, x');
    }
    if NumbersLess(y, x') {
      NumbersCongruent(y, y, x', x);
    }
  }

  // ---------------------------------------------------------------- trailing zeros

  lemma {:induction false} SplitSnoc(s: string, piece: string)
    requires '.' !in piece
    ensures Split(s + "." + piece, '.') == Split(s, '.') + [piece]
  {
    var whole := s + "." + piece;
    if s == [] {
      assert whole == [] + ['.'] + piece;
      SplitCons([], piece, '.');
      SplitPiece(piece, '.');
    } else {
      SplitSnoc(s[1..], piece);
      assert whole[1..] == s[1..] + "." + piece;
      var rest := Split(s[1..], '.');
      assert (rest + [piece])[1..] == rest[1..] + [piece];
    }
  }

  lemma BaseAndTail(base: string, tail: string)
    requires '-' !in base
    ensures Base(base) == base && Tail(base) == ""
    ensures Base(base + "-" + tail) == base && Tail(base + "-" + tail) == tail
  {
    assert forall i :: 0 <= i < |base| ==> base[i] in base;
    assert FirstDash(base, 0) == |base|;
    var v := base + "-" + tail;
    assert v[|base|] == '-' && forall i :: 0 <= i < |base| ==> v[i] == base[i];
    assert forall m :: |base| < m <= |v| ==> v[..m][|base|] == '-';
    assert FirstDash(v, 0) == |base|;
    assert v[..|base|] == base && v[|base| + 1..] == tail;
  }

  lemma ZeroComponent()
    ensures TrimSpace("0") == "0" && Atoi("0") == 0
  {
    assert ScanNumber("0", 1, 0) == 0;
  }

  lemma ZeroAppended(base: string)
    requires '-' !in base
    ensures Components(base + ".0") == Components(base) + ["0"]
  {
    SplitSnoc(base, "0");
    ZeroComponent();
    assert base + "." + "0" == base + ".0";
    var pieces := Split(base, '.');
    assert (pieces + ["0"])[..|pieces|] == pieces;
  }

  /** Appending a zero component changes no comparison, with or without a tail. */
  lemma TrailingZeroIsInvisible(base: string, tail: string)
    requires '-' !in base
    ensures VersionEqual(base, base + ".0")
    ensures VersionEqual(base + "-" + tail, base + ".0" + "-" + tail)
  {
    BaseAndTail(base, tail);
    assert '-' !in base + ".0";
    BaseAndTail(base + ".0", tail);
    ZeroAppended(base);
    ZeroComponent();
    NumbersOf(base, base);
    NumbersOf(base + ".0", base + ".0");
    NumbersOf(base + "-" + tail, base);
    NumbersOf(base + ".0" + "-" + tail, base + ".0");
    SamePadded(Components(base), Components(base + ".0"));
  }

  function AtoiAll(parts: seq<string>): seq<nat> {
    seq(|parts|, i requires 0 <= i < |parts| => Atoi(parts[i]))
  }

  lemma NumbersOf(v: string, base: string)
    requires Base(v) == base
    ensures Numbers(v) == AtoiAll(Components(base))
  {
  }

  lemma SamePadded(parts: seq<string>, longer: seq<string>)
    requires longer == parts + ["0"]
    ensures SameNumbers(AtoiAll(parts), AtoiAll(longer))
  {
    ZeroComponent();
  }
}
