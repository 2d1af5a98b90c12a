/**
 * The three string operations the program relies on: `str.split(",")`,
 * `str.strip()` and `str.lower()`. Whitespace and case are the ASCII part of
 * Python's definitions; characters outside ASCII are never whitespace and
 * are left unchanged by lowercasing.
 */
module Text {

  /** Python's `str.isspace()` restricted to ASCII: tab, line feed, vertical
      tab, form feed, carriage return, the four separators 0x1C..0x1F, space. */
  predicate IsSpace(c: char) {
    (9 <= c as int <= 13) || (28 <= c as int <= 32)
  }

  predicate AllSpace(s: string) {
    forall k :: 0 <= k < |s| ==> IsSpace(s[k])
  }

  /** Neither end of `s` is whitespace: the shape of every `strip()` result. */
  predicate IsStripped(s: string) {
    s == [] || (!IsSpace(s[0]) && !IsSpace(s[|s| - 1]))
  }

  /** The number of whitespace characters `s` starts with. */
  function LeadingSpace(s: string): (n: nat)
    ensures n <= |s| && AllSpace(s[..n])
    ensures n == |s| || !IsSpace(s[n])
  {
    if s != [] && IsSpace(s[0]) then
      var m := LeadingSpace(s[1..]);
      SpacePrefixStep(s, m + 1);
      m + 1
    else 0
  }

  /** The number of whitespace characters `s` ends with. */
  function TrailingSpace(s: string): (n: nat)
    ensures n <= |s| && AllSpace(s[|s| - n..])
    ensures n == |s| || !IsSpace(s[|s| - n - 1])
  {
    if s != [] && IsSpace(s[|s| - 1]) then
      var m := TrailingSpace(s[..|s| - 1]);
      SpaceSuffixStep(s, |s| - 1 - m);
      m + 1
    else 0
  }

  lemma SpacePrefixStep(s: string, k: nat)
    requires 1 <= k <= |s| && IsSpace(s[0]) && AllSpace(s[1..][..k - 1])
    ensures AllSpace(s[..k])
  {
    assert forall j :: 1 <= j < k ==> s[..k][j] == s[1..][..k - 1][j - 1];
  }

  lemma SpaceSuffixStep(s: string, k: nat)
    requires k < |s| && IsSpace(s[|s| - 1]) && AllSpace(s[..|s| - 1][k..])
    ensures AllSpace(s[k..])
  {
    assert forall j :: 0 <= j < |s| - 1 - k ==> s[k..][j] == s[..|s| - 1][k..][j];
  }

  /** Python's `s.lstrip()`: drops leading whitespace. */
  function TrimLeft(s: string): (r: string)
    ensures |r| <= |s| && r == s[|s| - |r|..]
    ensures AllSpace(s[..|s| - |r|])
    ensures r == [] || !IsSpace(r[0])
  {
    s[LeadingSpace(s)..]
  }

  /** Python's `s.rstrip()`: drops trailing whitespace. */
  function TrimRight(s: string): (r: string)
    ensures |r| <= |s| && r == s[..|r|]
    ensures AllSpace(s[|r|..])
    ensures r == [] || !IsSpace(r[|r| - 1])
  {
    s[..|s| - TrailingSpace(s)]
  }

  /** Python's `s.strip()`: both ends of the result are non-whitespace. */
  function Strip(s: string): (r: string)
    ensures IsStripped(r)
  {
    TrimRight(TrimLeft(s))
  }

  /** Where `Strip(s)` starts inside `s`. */
  lemma StripOffset(s: string) returns (i: nat)
    ensures i + |Strip(s)| <= |s|
    ensures s[i..i + |Strip(s)|] == Strip(s)
    ensures AllSpace(s[..i]) && AllSpace(s[i + |Strip(s)|..])
  {
    var t := TrimLeft(s);
    i := |s| - |t|;
    assert t == s[i..] && AllSpace(s[..i]);
    var r := TrimRight(t);
    assert r == t[..|r|] && AllSpace(t[|r|..]);
    assert r == Strip(s);
    SliceOfSuffix(s, i, r);
  }

  lemma SliceOfSuffix(s: string, i: nat, r: string)
    requires i <= |s| && |r| <= |s| - i && r == s[i..][..|r|]
    ensures s[i..i + |r|] == r && s[i + |r|..] == s[i..][|r|..]
  {
  }

  /** What `strip()` removes is whitespace: `s` is whitespace, then `Strip(s)`,
      then whitespace. */
  lemma StripRemovesOnlySpace(s: string)
    ensures exists i {:trigger s[..i]} :: 0 <= i && i + |Strip(s)| <= |s|
              && s[i..i + |Strip(s)|] == Strip(s)
              && AllSpace(s[..i]) && AllSpace(s[i + |Strip(s)|..])
  {
    var i := StripOffset(s);
    assert AllSpace(s[..i]);
  }

  lemma {:induction false} TrimLeftSpacePrefix(a: string, t: string)
    requires AllSpace(a)
    ensures TrimLeft(a + t) == TrimLeft(t)
    decreases |a|
  {
    if a != [] {
      var u := a + t;
      assert u[0] == a[0] && IsSpace(u[0]);
      assert TrimLeft(u) == TrimLeft(u[1..]);
      assert u[1..] == a[1..] + t;
      TrimLeftSpacePrefix(a[1..], t);
    } else {
      assert a + t == t;
    }
  }

  lemma {:induction false} TrimRightSpaceSuffix(t: string, b: string)
    requires AllSpace(b)
    ensures TrimRight(t + b) == TrimRight(t)
    decreases |b|
  {
    if b != [] {
      var u := t + b;
      assert u[|u| - 1] == b[|b| - 1] && IsSpace(u[|u| - 1]);
      assert TrimRight(u) == TrimRight(u[..|u| - 1]);
      assert u[..|u| - 1] == t + b[..|b| - 1];
      TrimRightSpaceSuffix(t, b[..|b| - 1]);
    } else {
      assert t + b == t;
    }
  }

  /** `strip()` recovers the core of any whitespace-padded stripped string, so
      its result does not depend on how much padding surrounds it. */
  lemma StripPadded(a: string, m: string, b: string)
    requires AllSpace(a) && IsStripped(m) && AllSpace(b)
    ensures Strip(a + m + b) == m
  {
    if m == [] {
      assert a + m + b == a + (b + []);
      TrimLeftSpacePrefix(a, b + []);
      TrimLeftSpacePrefix(b, []);
    } else {
      assert a + m + b == a + (m + b);
      TrimLeftSpacePrefix(a, m + b);
      TrimLeftStops(m + b);
      TrimRightSpaceSuffix(m, b);
      TrimRightStops(m);
    }
  }

  lemma TrimLeftStops(u: string)
    requires u == [] || !IsSpace(u[0])
    ensures TrimLeft(u) == u
  {
  }

  lemma TrimRightStops(u: string)
    requires u == [] || !IsSpace(u[|u| - 1])
    ensures TrimRight(u) == u
  {
  }

  /** `strip()` only removes characters: a character absent from `s` is
      absent from `Strip(s)`. */
  lemma StripAddsNothing(s: string, c: char)
    requires c !in s
    ensures c !in Strip(s)
  {
    var t := TrimLeft(s);
    assert TrimRight(t) == t[..|TrimRight(t)|];
    assert t == s[|s| - |t|..];
  }

  /** Stripping twice is stripping once. */
  lemma StripIdempotent(s: string)
    ensures Strip(Strip(s)) == Strip(s)
  {
    StripFixedPoint(Strip(s));
  }

  /** A string is its own strip exactly when it has no whitespace at either end. */
  lemma StripFixedPoint(s: string)
    ensures Strip(s) == s <==> IsStripped(s)
  {
    if IsStripped(s) {
      TrimLeftStops(s);
      TrimRightStops(s);
    } else {
      assert IsStripped(Strip(s));
    }
  }

  /** Python's `str.lower()` on one character, for ASCII letters. */
  function LowerChar(c: char): char {
    if 'A' <= c <= 'Z' then (c as int - 'A' as int + 'a' as int) as char else c
  }

  predicate IsUpper(c: char) {
    'A' <= c <= 'Z'
  }

  /** Python's `s.lower()`. */
  function Lower(s: string): (r: string)
    ensures |r| == |s|
  {
    seq(|s|, k requires 0 <= k < |s| => LowerChar(s[k]))
  }

  /** Lowercasing replaces every capital ASCII letter by its small letter,
      keeps every other character, and leaves no capital letter behind. */
  lemma LowerSpec(s: string)
    ensures forall k :: 0 <= k < |s| && !IsUpper(s[k]) ==> Lower(s)[k] == s[k]
    ensures forall k :: 0 <= k < |s| && IsUpper(s[k]) ==> Lower(s)[k] as int == s[k] as int + 32
    ensures forall k :: 0 <= k < |s| ==> !IsUpper(Lower(s)[k])
  {
  }

  /** Lowercasing twice is lowercasing once. */
  lemma LowerIdempotent(s: string)
    ensures Lower(Lower(s)) == Lower(s)
  {
  }

  /** Lowercasing never moves whitespace, so it commutes with `strip()`'s shape. */
  lemma LowerKeepsStripped(s: string)
    requires IsStripped(s)
    ensures IsStripped(Lower(s))
  {
  }

  /** Joins pieces with `sep` between neighbours (Python's `sep.join(ps)`). */
  function Join(ps: seq<string>, sep: char): string
    requires |ps| >= 1
  {
    if |ps| == 1 then ps[0] else ps[0] + [sep] + Join(ps[1..], sep)
  }

  /** Python's `s.split(sep)` with a one-character separator: at least one
      piece. */
  function Split(s: string, sep: char): (r: seq<string>)
    ensures |r| >= 1
  {
    if s == [] then [[]]
    else
      var rest := Split(s[1..], sep);
      if s[0] == sep then [[]] + rest
      else [[s[0]] + rest[0]] + rest[1..]
  }

  /** Joining the pieces back with the separator gives the original string:
      splitting loses nothing. */
  lemma {:induction false} JoinSplit(s: string, sep: char)
    ensures Join(Split(s, sep), sep) == s
    decreases |s|
  {
    if s != [] {
      var rest := Split(s[1..], sep);
      JoinSplit(s[1..], sep);
      assert s == [s[0]] + s[1..];
      if s[0] == sep {
        JoinEmptyHead(rest, sep);
      } else {
        JoinExtendHead(s[0], rest, sep);
      }
    }
  }

  lemma JoinEmptyHead(ps: seq<string>, sep: char)
    requires |ps| >= 1
    ensures Join([[]] + ps, sep) == [sep] + Join(ps, sep)
  {
    assert ([[]] + ps)[1..] == ps;
  }

  lemma JoinExtendHead(c: char, ps: seq<string>, sep: char)
    requires |ps| >= 1
    ensures Join([[c] + ps[0]] + ps[1..], sep) == [c] + Join(ps, sep)
  {
    var r := [[c] + ps[0]] + ps[1..];
    assert r[1..] == ps[1..];
  }

  /** Splitting undoes joining, as long as no piece holds the separator. */
  lemma {:induction false} SplitJoin(ps: seq<string>, sep: char)
    requires |ps| >= 1
    requires forall i :: 0 <= i < |ps| ==> sep !in ps[i]
    ensures Split(Join(ps, sep), sep) == ps
    decreases |ps|, |ps[0]|
  {
    if |ps| == 1 {
      SplitNoSeparator(ps[0], sep);
    } else {
      var s := Join(ps, sep);
      if ps[0] == [] {
        assert s == [sep] + Join(ps[1..], sep);
        assert s[1..] == Join(ps[1..], sep);
        SplitJoin(ps[1..], sep);
        assert [[]] + ps[1..] == ps;
      } else {
        var qs := [ps[0][1..]] + ps[1..];
        assert qs[1..] == ps[1..];
        assert s[0] == ps[0][0];
        assert s[1..] == Join(qs, sep);
        SplitJoin(qs, sep);
        assert ps[0] == [ps[0][0]] + qs[0];
        assert ps == [[ps[0][0]] + qs[0]] + qs[1..];
      }
    }
  }

  /** No piece of a split holds the separator. */
  lemma {:induction false} SplitPiecesFree(s: string, sep: char)
    ensures forall i :: 0 <= i < |Split(s, sep)| ==> sep !in Split(s, sep)[i]
    decreases |s|
  {
    if s != [] {
      SplitPiecesFree(s[1..], sep);
      var rest := Split(s[1..], sep);
      if s[0] != sep {
        var r := [[s[0]] + rest[0]] + rest[1..];
        assert forall i :: 1 <= i < |r| ==> r[i] == rest[i];
      }
    }
  }

  /** A string without the separator splits into itself alone. */
  lemma {:induction false} SplitNoSeparator(s: string, sep: char)
    requires sep !in s
    ensures Split(s, sep) == [s]
    decreases |s|
  {
    if s != [] {
      SplitNoSeparator(s[1..], sep);
      assert s == [s[0]] + s[1..];
    }
  }
}
