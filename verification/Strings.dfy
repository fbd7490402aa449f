/** The few string operations of the Go standard library that the modelled code uses, with their laws. */
module Strings {

  // ---------------------------------------------------------------- strings.TrimSpace

  /** unicode.IsSpace */
  predicate IsSpace(c: char) {
    || c in {'\t', '\n', '\U{0b}', '\U{0c}', '\r', ' ', '\U{85}', '\U{a0}', '\U{1680}'}
    || '\U{2000}' <= c <= '\U{200a}'
    || c in {'\U{2028}', '\U{2029}', '\U{202f}', '\U{205f}', '\U{3000}'}
  }

  function TrimLeft(s: string): (r: string)
    ensures r == [] || !IsSpace(r[0])
  {
    if s != [] && IsSpace(s[0]) then TrimLeft(s[1..]) else s
  }

  function TrimRight(s: string): (r: string)
    ensures r <= s
    ensures r == [] || !IsSpace(r[|r| - 1])
  {
    if s != [] && IsSpace(s[|s| - 1]) then TrimRight(s[..|s| - 1]) else s
  }

  function TrimSpace(s: string): string {
    TrimRight(TrimLeft(s))
  }

  lemma TrimSpaceIdempotent(s: string)
    ensures TrimSpace(TrimSpace(s)) == TrimSpace(s)
  {
    var r := TrimSpace(s);
    if r != [] {
      assert r[0] == TrimLeft(s)[0];
    }
  }

  predicate Spaces(s: string) {
    forall c <- s :: IsSpace(c)
  }

  lemma {:induction false} TrimLeftPadded(a: string, core: string)
    requires Spaces(a) && (core == [] || !IsSpace(core[0]))
    ensures TrimLeft(a + core) == core
  {
    if a == [] {
      assert a + core == core;
    } else {
      assert (a + core)[1..] == a[1..] + core && (a + core)[0] in a;
      assert forall c <- a[1..] :: c in a;
      TrimLeftPadded(a[1..], core);
    }
  }

  lemma {:induction false} TrimRightPadded(core: string, b: string)
    requires Spaces(b) && (core == [] || !IsSpace(core[|core| - 1]))
    ensures TrimRight(core + b) == core
  {
    if b == [] {
      assert core + b == core;
    } else {
      var n := |core + b| - 1;
      assert (core + b)[..n] == core + b[..|b| - 1] && (core + b)[n] in b;
      assert forall c <- b[..|b| - 1] :: c in b;
      TrimRightPadded(core, b[..|b| - 1]);
    }
  }

  lemma TrimPadded(a: string, core: string, b: string)
    requires Spaces(a) && Spaces(b) && core != [] && !IsSpace(core[0]) && !IsSpace(core[|core| - 1])
    ensures TrimSpace(a + core + b) == core
  {
    assert a + core + b == a + (core + b);
    TrimLeftPadded(a, core + b);
    TrimRightPadded(core, b);
  }

  lemma {:induction false} TrimLeftSplits(s: string) returns (a: string)
    ensures Spaces(a) && s == a + TrimLeft(s)
  {
    if s != [] && IsSpace(s[0]) {
      var rest := TrimLeftSplits(s[1..]);
      a := [s[0]] + rest;
      assert s == [s[0]] + s[1..] == [s[0]] + (rest + TrimLeft(s[1..])) == a + TrimLeft(s);
    } else {
      a := [];
    }
  }

  lemma {:induction false} TrimRightSplits(s: string) returns (b: string)
    ensures Spaces(b) && s == TrimRight(s) + b
  {
    if s != [] && IsSpace(s[|s| - 1]) {
      var rest := TrimRightSplits(s[..|s| - 1]);
      b := rest + [s[|s| - 1]];
      assert s == s[..|s| - 1] + [s[|s| - 1]] == TrimRight(s[..|s| - 1]) + rest + [s[|s| - 1]] == TrimRight(s) + b;
    } else {
      b := [];
    }
  }

  /** What TrimSpace removes is white space, on both sides. */
  lemma TrimSplits(s: string) returns (a: string, b: string)
    ensures Spaces(a) && Spaces(b) && s == a + TrimSpace(s) + b
  {
    a := TrimLeftSplits(s);
    b := TrimRightSplits(TrimLeft(s));
  }

  lemma BlankIffTrimsToNothing(s: string)
    ensures TrimSpace(s) == "" <==> Spaces(s)
  {
    var a, b := TrimSplits(s);
    if TrimSpace(s) == "" {
      assert s == a + b;
    } else {
      assert s[|a|] == TrimSpace(s)[0];
      var left := TrimLeft(s);
      assert TrimSpace(s)[0] == left[0];
      assert s[|a|] in s;
    }
  }

  // ---------------------------------------------------------------- strings.Split on one character

  function Split<T(==)>(s: seq<T>, sep: T): (parts: seq<seq<T>>)
    ensures |parts| >= 1
    ensures forall part <- parts :: sep !in part
  {
    if s == [] then [[]]
    else
      var rest := Split(s[1..], sep);
      if s[0] == sep then [[]] + rest else [[s[0]] + rest[0]] + rest[1..]
  }

  function Join<T>(parts: seq<seq<T>>, sep: T): seq<T> {
    if parts == [] then []
    else if |parts| == 1 then parts[0]
    else parts[0] + [sep] + Join(parts[1..], sep)
  }

  lemma {:induction false} JoinSplit<T>(s: seq<T>, sep: T)
    ensures Join(Split(s, sep), sep) == s
  {
    if s != [] {
      var rest := Split(s[1..], sep);
      JoinSplit(s[1..], sep);
      if s[0] == sep {
        assert ([[]] + rest)[1..] == rest;
      } else {
        var parts := [[s[0]] + rest[0]] + rest[1..];
        assert parts[1..] == rest[1..];
      }
    }
  }

  lemma {:induction false} SplitPiece<T>(piece: seq<T>, sep: T)
    requires sep !in piece
    ensures Split(piece, sep) == [piece]
  {
    if piece != [] {
      SplitPiece(piece[1..], sep);
      assert [piece[0]] + piece[1..] == piece;
    }
  }

  lemma {:induction false} SplitCons<T>(piece: seq<T>, s: seq<T>, sep: T)
    requires sep !in piece
    ensures Split(piece + [sep] + s, sep) == [piece] + Split(s, sep)
  {
    var whole := piece + [sep] + s;
    if piece == [] {
      assert whole[1..] == s;
    } else {
      assert whole[1..] == piece[1..] + [sep] + s;
      SplitCons(piece[1..], s, sep);
      assert [piece[0]] + piece[1..] == piece;
      assert ([piece[1..]] + Split(s, sep))[1..] == Split(s, sep);
    }
  }

  lemma {:induction false} SplitJoin<T>(parts: seq<seq<T>>, sep: T)
    requires parts != [] && forall part <- parts :: sep !in part
    ensures Split(Join(parts, sep), sep) == parts
  {
    if |parts| == 1 {
      SplitPiece(parts[0], sep);
    } else {
      SplitJoin(parts[1..], sep);
      SplitCons(parts[0], Join(parts[1..], sep), sep);
    }
  }

  /** The text before and after the first separator is determined by the whole. */
  lemma FirstSeparator<T>(a: seq<T>, b: seq<T>, a': seq<T>, b': seq<T>, sep: T)
    requires sep !in a && sep !in a' && a + [sep] + b == a' + [sep] + b'
    ensures a == a' && b == b'
  {
    var whole := a + [sep] + b;
    assert whole[|a|] == sep && whole[|a'|] == sep;
    assert forall i :: 0 <= i < |a| ==> whole[i] == a[i];
    assert forall i :: 0 <= i < |a'| ==> whole[i] == a'[i];
    assert |a| == |a'|;
    assert a == whole[..|a|] == a';
    assert b == whole[|a| + 1..] == b';
  }

  // ---------------------------------------------------------------- decimal numerals

  function Digits(n: nat): (ds: seq<nat>)
    ensures ds != [] && forall d <- ds :: d < 10
  {
    if n < 10 then [n] else Digits(n / 10) + [n % 10]
  }

  function Value(ds: seq<nat>): nat {
    if ds == [] then 0 else 10 * Value(ds[..|ds| - 1]) + ds[|ds| - 1]
  }

  lemma {:induction false} ValueOfDigits(n: nat)
    ensures Value(Digits(n)) == n
  {
    if n < 10 {
      assert [n][..0] == [];
    } else {
      ValueOfDigits(n / 10);
      assert Digits(n)[..|Digits(n)| - 1] == Digits(n / 10);
    }
  }

  function Decimal(n: nat): string {
    var ds := Digits(n);
    seq(|ds|, i requires 0 <= i < |ds| => assert ds[i] in ds; (('0' as int) + ds[i]) as char)
  }

  lemma DecimalInjective(m: nat, n: nat)
    requires Decimal(m) == Decimal(n)
    ensures m == n
  {
    var ds, es := Digits(m), Digits(n);
    forall i | 0 <= i < |ds| ensures |ds| == |es| && ds[i] == es[i] {
      assert |Decimal(m)| == |ds| && |Decimal(n)| == |es|;
      assert Decimal(m)[i] == Decimal(n)[i];
      assert ds[i] in ds && es[i] in es;
    }
    assert ds == es;
    ValueOfDigits(m);
    ValueOfDigits(n);
  }

  // ---------------------------------------------------------------- the order on Go strings

  /** a < b; code point order, which is also the byte order of the UTF-8 encodings. */
  predicate Less(a: string, b: string) {
    b != [] && (a == [] || a[0] < b[0] || (a[0] == b[0] && Less(a[1..], b[1..])))
  }

  lemma {:induction false} LessTotal(a: string, b: string)
    ensures Less(a, b) || a == b || Less(b, a)
    ensures !(Less(a, b) && a == b)
    ensures !(Less(a, b) && Less(b, a))
  {
    if a != [] && b != [] && a[0] == b[0] {
      LessTotal(a[1..], b[1..]);
      assert a == [a[0]] + a[1..] && b == [b[0]] + b[1..];
    }
  }

  lemma {:induction false} LessTransitive(a: string, b: string, c: string)
    requires Less(a, b) && Less(b, c)
    ensures Less(a, c)
  {
    if a != [] && a[0] == b[0] == c[0] {
      LessTransitive(a[1..], b[1..], c[1..]);
    }
  }
}
