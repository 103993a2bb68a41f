/** The handful of Python `str` operations the handler relies on: `isspace`,
    the ASCII reading of `\w` and of case-insensitive comparison, `strip()`,
    `split('\n')`, slicing, and decimal rendering of an `int` in an f-string.
    A Python string is a sequence of code points; here it is a `seq<char>`. */
module Text {

  /** The code points for which Python's `str.isspace()` holds: the Unicode
      characters of bidirectional class WS, B or S, or of category Zs. */
  const SpaceChars: set<char> := {
    '\t', '\n', '\U{0B}', '\U{0C}', '\r', '\U{1C}', '\U{1D}', '\U{1E}', '\U{1F}', ' ',
    '\U{85}', '\U{A0}', '\U{1680}',
    '\U{2000}', '\U{2001}', '\U{2002}', '\U{2003}', '\U{2004}', '\U{2005}',
    '\U{2006}', '\U{2007}', '\U{2008}', '\U{2009}', '\U{200A}',
    '\U{2028}', '\U{2029}', '\U{202F}', '\U{205F}', '\U{3000}'
  }

  /** Python's `str.isspace()` for one code point. */
  predicate IsSpace(c: char) {
    c in SpaceChars
  }

  /** The regex class `\w`, read over ASCII: a letter, a digit or `_`. */
  predicate IsWordChar(c: char) {
    ('a' <= c <= 'z') || ('A' <= c <= 'Z') || ('0' <= c <= '9') || c == '_'
  }

  /** ASCII case folding: upper-case letters map to lower case, nothing else moves. */
  function FoldCase(c: char): (d: char)
    ensures 'A' <= c <= 'Z' ==> 'a' <= d <= 'z' && d as int == c as int + 32
    ensures !('A' <= c <= 'Z') ==> d == c
  {
    if 'A' <= c <= 'Z' then (c as int + 32) as char else c
  }

  /** `a` and `b` agree character by character up to ASCII case. */
  predicate CaselessEq(a: string, b: string) {
    |a| == |b| && forall k :: 0 <= k < |a| ==> FoldCase(a[k]) == FoldCase(b[k])
  }

  predicate AllSpace(s: string) {
    SpaceBetween(s, 0, |s|)
  }

  /** Every character of `s` at positions `lo` up to `hi` is whitespace. */
  predicate SpaceBetween(s: string, lo: nat, hi: nat) {
    forall k :: lo <= k < hi && k < |s| ==> IsSpace(s[k])
  }

  /** The first position at or after `lo` that is not whitespace (or the end). */
  function SkipSpace(s: string, lo: nat): (a: nat)
    requires lo <= |s|
    ensures lo <= a <= |s| && SpaceBetween(s, lo, a)
    ensures a == |s| || !IsSpace(s[a])
    decreases |s| - lo
  {
    if lo < |s| && IsSpace(s[lo]) then SkipSpace(s, lo + 1) else lo
  }

  /** The position just after the last non-whitespace character before `hi` (or 0). */
  function SkipSpaceBack(s: string, hi: nat): (b: nat)
    requires hi <= |s|
    ensures b <= hi && SpaceBetween(s, b, hi)
    ensures b == 0 || !IsSpace(s[b - 1])
    decreases hi
  {
    if 0 < hi && IsSpace(s[hi - 1]) then SkipSpaceBack(s, hi - 1) else hi
  }

  /** Where the stripped text of `s` starts: after its leading whitespace. */
  function StripStart(s: string): (a: nat)
    ensures a <= |s|
  {
    SkipSpace(s, 0)
  }

  /** `s.strip()`: the slice of `s` left once the whitespace at both ends is
      removed. It is empty exactly when `s` is all whitespace. */
  function Strip(s: string): (r: string)
    ensures StripStart(s) + |r| <= |s| && r == s[StripStart(s)..StripStart(s) + |r|]
    ensures SpaceBetween(s, 0, StripStart(s)) && SpaceBetween(s, StripStart(s) + |r|, |s|)
    ensures r == [] || (!IsSpace(r[0]) && !IsSpace(r[|r| - 1]))
    ensures r == [] <==> AllSpace(s)
  {
    var a := SkipSpace(s, 0);
    if a == |s| then
      []
    else
      var b := SkipSpaceBack(s, |s|);
      assert a < b;
      assert !AllSpace(s) by { assert !IsSpace(s[a]); }
      s[a..b]
  }

  /** The stripped string is the slice of `s` that starts at `StripStart(s)`. */
  lemma StripSlice(s: string)
    ensures StripStart(s) + |Strip(s)| <= |s|
    ensures Strip(s) == s[StripStart(s)..StripStart(s) + |Strip(s)|]
  {
  }

  /** Python's slice `s[n:]` for a non-negative `n`: empty when `n` reaches past the end. */
  function Drop<T>(s: seq<T>, n: nat): (r: seq<T>)
    ensures |r| == if n <= |s| then |s| - n else 0
    ensures forall k :: 0 <= k < |r| ==> r[k] == s[n + k]
  {
    if n <= |s| then s[n..] else []
  }

  /** Python's slice `xs[:n]` for a non-negative `n`: the longest prefix of at most `n` items. */
  function Take<T>(xs: seq<T>, n: nat): (r: seq<T>)
    ensures |r| == if n <= |xs| then n else |xs|
    ensures r <= xs
  {
    if n <= |xs| then xs[..n] else xs
  }

  /** The concatenation of `f(x)` over `xs`, in order. */
  function FlatMap<A, B>(f: A -> seq<B>, xs: seq<A>): (r: seq<B>)
  {
    if xs == [] then [] else f(xs[0]) + FlatMap(f, xs[1..])
  }

  /** Mapping over two runs is mapping over each, in order. */
  lemma {:induction false} FlatMapAppend<A, B>(f: A -> seq<B>, a: seq<A>, b: seq<A>)
    ensures FlatMap(f, a + b) == FlatMap(f, a) + FlatMap(f, b)
  {
    if a == [] {
      assert a + b == b;
    } else {
      var t := a[1..];
      FlatMapAppend(f, t, b);
      assert (a + b)[0] == a[0] && (a + b)[1..] == t + b;
      assert FlatMap(f, a + b) == f(a[0]) + (FlatMap(f, t) + FlatMap(f, b));
      assert FlatMap(f, a) == f(a[0]) + FlatMap(f, t);
    }
  }

  /** `sep.join(parts)`. */
  function Join(parts: seq<string>, sep: char): string {
    if parts == [] then [] else parts[0] + JoinTail(parts[1..], sep)
  }

  /** Each part preceded by the separator. */
  function JoinTail(parts: seq<string>, sep: char): string {
    if parts == [] then [] else [sep] + parts[0] + JoinTail(parts[1..], sep)
  }

  /** `s.split(sep)` for a one-character separator: never empty, no part
      holds the separator, and joining the parts back gives `s`. */
  function Split(s: string, sep: char): (parts: seq<string>)
    ensures |parts| >= 1
    ensures forall i :: 0 <= i < |parts| ==> sep !in parts[i]
    ensures Join(parts, sep) == s
    decreases |s|
  {
    if s == [] then [[]]
    else
      var rest := Split(s[1..], sep);
      var parts := if s[0] == sep then [[]] + rest else [[s[0]] + rest[0]] + rest[1..];
      assert Join(parts, sep) == s by {
        JoinCons(parts, sep);
        JoinCons(rest, sep);
        if s[0] == sep {
          assert parts[0] == [] && parts[1..] == rest;
          assert Join(parts, sep) == [sep] + Join(rest, sep);
        } else {
          assert parts[1..] == rest[1..];
          assert Join(parts, sep) == [s[0]] + (rest[0] + JoinTail(rest[1..], sep));
        }
        assert s == [s[0]] + s[1..];
      }
      parts
  }

  /** Joining a non-empty list is its head followed by the separated tail. */
  lemma JoinCons(parts: seq<string>, sep: char)
    requires parts != []
    ensures Join(parts, sep) == parts[0] + JoinTail(parts[1..], sep)
    ensures JoinTail(parts, sep) == [sep] + Join(parts, sep)
  {
  }

  /** The separated tail of a concatenation is the two separated tails in turn. */
  lemma {:induction false} JoinTailAppend(a: seq<string>, b: seq<string>, sep: char)
    ensures JoinTail(a + b, sep) == JoinTail(a, sep) + JoinTail(b, sep)
    decreases |a|
  {
    if a != [] {
      assert (a + b)[1..] == a[1..] + b;
      JoinTailAppend(a[1..], b, sep);
    } else {
      assert a + b == b;
    }
  }

  /** Joining two non-empty lists puts one separator between their joins. */
  lemma JoinAppend(a: seq<string>, b: seq<string>, sep: char)
    requires a != [] && b != []
    ensures Join(a + b, sep) == Join(a, sep) + [sep] + Join(b, sep)
  {
    assert (a + b)[1..] == a[1..] + b;
    JoinTailAppend(a[1..], b, sep);
    JoinCons(b, sep);
  }

  /** Splitting undoes joining whenever no part holds the separator. */
  lemma {:induction false} SplitJoin(parts: seq<string>, sep: char)
    requires |parts| >= 1
    requires forall i :: 0 <= i < |parts| ==> sep !in parts[i]
    ensures Split(Join(parts, sep), sep) == parts
  {
    SplitJoinPart(parts[0], parts[1..], sep);
  }

  /** The first part, followed by the joined tail, splits into the part and the tail. */
  lemma {:induction false} SplitJoinPart(p: string, tail: seq<string>, sep: char)
    requires sep !in p
    requires forall i :: 0 <= i < |tail| ==> sep !in tail[i]
    ensures Split(p + JoinTail(tail, sep), sep) == [p] + tail
    decreases |tail|, |p|
  {
    var x := p + JoinTail(tail, sep);
    if p == [] && tail == [] {
      assert x == [];
    } else if p == [] {
      var y := tail[0] + JoinTail(tail[1..], sep);
      assert x == [sep] + y;
      assert x[0] == sep && x[1..] == y;
      calc {
        Split(x, sep);
        [[]] + Split(y, sep);
        { SplitJoinPart(tail[0], tail[1..], sep); }
        [[]] + ([tail[0]] + tail[1..]);
        { assert [tail[0]] + tail[1..] == tail; }
        [p] + tail;
      }
    } else {
      var y := p[1..] + JoinTail(tail, sep);
      assert x[0] == p[0] && x[0] != sep;
      assert x[1..] == y;
      var rest := Split(y, sep);
      SplitJoinPart(p[1..], tail, sep);
      assert rest == [p[1..]] + tail;
      calc {
        Split(x, sep);
        [[p[0]] + rest[0]] + rest[1..];
        { assert rest[0] == p[1..] && rest[1..] == tail; }
        [[p[0]] + p[1..]] + tail;
        { assert [p[0]] + p[1..] == p; }
        [p] + tail;
      }
    }
  }

  /** `Strip` is pinned down by its contract: any slice of `s` that has only
      whitespace around it and none at its ends is the stripped string. */
  lemma StripIsUnique(s: string, a: nat, b: nat)
    requires a <= b <= |s|
    requires SpaceBetween(s, 0, a) && SpaceBetween(s, b, |s|)
    requires a == b || (!IsSpace(s[a]) && !IsSpace(s[b - 1]))
    ensures Strip(s) == s[a..b]
  {
    var r := Strip(s);
    var a' := StripStart(s);
    if a == b {
      assert AllSpace(s) by {
        forall k | 0 <= k < |s| ensures IsSpace(s[k]) {
          if k < a {} else {}
        }
      }
    } else {
      assert !AllSpace(s) by { assert !IsSpace(s[a]); }
      var b' := a' + |r|;
      assert !IsSpace(s[a']) && !IsSpace(s[b' - 1]) by {
        assert s[a'] == r[0] && s[b' - 1] == r[|r| - 1];
      }
      assert a == a';
      assert b == b';
    }
  }

  /** Cutting whitespace off the end first does not change what `strip()` gives. */
  lemma StripIgnoresTrailingSpace(s: string, n: nat)
    requires n <= |s| && SpaceBetween(s, n, |s|)
    ensures Strip(s[..n]) == Strip(s)
  {
    var u := s[..n];
    var r := Strip(s);
    var a := StripStart(s);
    var b := a + |r|;
    if r == [] {
      assert AllSpace(u) by {
        forall k | 0 <= k < |u| ensures IsSpace(u[k]) {
          assert u[k] == s[k];
        }
      }
      StripIsUnique(u, 0, 0);
    } else {
      assert s[b - 1] == r[|r| - 1];
      assert b <= n;
      assert SpaceBetween(u, 0, a) && SpaceBetween(u, b, |u|);
      assert u[a] == s[a] && u[b - 1] == s[b - 1];
      StripIsUnique(u, a, b);
      assert u[a..b] == s[a..b];
    }
  }

  /** `p` occurs in `s` starting at position `i`. */
  predicate OccursAt(s: string, p: string, i: nat) {
    i + |p| <= |s| && s[i..i + |p|] == p
  }

  /** `p in s` for strings: `p` occurs in `s` at some position. */
  function Contains(s: string, p: string): (b: bool)
    ensures b <==> exists i: nat :: OccursAt(s, p, i)
  {
    ContainsFrom(s, p, 0)
  }

  /** `p` occurs in `s` at position `from` or later. */
  function ContainsFrom(s: string, p: string, from: nat): (b: bool)
    ensures b <==> exists i: nat :: from <= i && OccursAt(s, p, i)
    decreases |s| - from
  {
    if from + |p| > |s| then false
    else OccursAt(s, p, from) || ContainsFrom(s, p, from + 1)
  }

  /** The character for a digit value. */
  function Digit(d: nat): (c: char)
    requires d < 10
    ensures '0' <= c <= '9' && c as int - '0' as int == d
  {
    ('0' as int + d) as char
  }

  predicate AllDigits(s: string) {
    forall k :: 0 <= k < |s| ==> '0' <= s[k] <= '9'
  }

  /** `str(n)` for a non-negative `int`: decimal digits with no leading zero. */
  function Decimal(n: nat): (r: string)
    ensures |r| >= 1 && AllDigits(r)
    ensures r[0] == '0' ==> r == "0"
    decreases n
  {
    if n < 10 then [Digit(n)] else Decimal(n / 10) + [Digit(n % 10)]
  }

  /** The number a string of decimal digits denotes. */
  function DigitsValue(s: string): nat
    requires AllDigits(s)
  {
    if s == [] then 0 else 10 * DigitsValue(s[..|s| - 1]) + (s[|s| - 1] as int - '0' as int)
  }

  /** Reading back the decimal rendering of `n` gives `n`. */
  lemma {:induction false} DecimalRoundTrip(n: nat)
    ensures DigitsValue(Decimal(n)) == n
    decreases n
  {
    if n >= 10 {
      DecimalRoundTrip(n / 10);
      var r := Decimal(n);
      assert r[..|r| - 1] == Decimal(n / 10);
    }
  }
}
