/** Character and string helpers that mirror the Python built-ins the core
    relies on: `str.isspace`, `str.strip`, ASCII case mapping, `in` on
    strings, `str.rfind`, `str.join`, `str(int)` and the code-point order
    that `sorted` uses on strings. */
module Strings {

  /** Python's `str.isspace()` for one character. */
  /** The ranges of characters for which Python's `str.isspace()` is true. */
  const SpaceRanges: seq<(char, char)> := [
    ('\t', '\r'), (' ', ' '), ('\U{1c}', '\U{1f}'), ('\U{85}', '\U{85}'), ('\U{a0}', '\U{a0}'),
    ('\U{1680}', '\U{1680}'), ('\U{2000}', '\U{200a}'), ('\U{2028}', '\U{2029}'),
    ('\U{202f}', '\U{202f}'), ('\U{205f}', '\U{205f}'), ('\U{3000}', '\U{3000}')
  ]

  predicate InRanges(c: char, ranges: seq<(char, char)>) {
    ranges != [] && (ranges[0].0 <= c <= ranges[0].1 || InRanges(c, ranges[1..]))
  }

  /** Python's `str.isspace()` for one character. */
  predicate IsSpace(c: char) {
    InRanges(c, SpaceRanges)
  }

  /** True of "" and of strings of whitespace only: Python's `not s.strip()`. */
  predicate IsBlank(s: string) {
    forall i :: 0 <= i < |s| ==> IsSpace(s[i])
  }

  /** No whitespace at either end. */
  predicate IsStripped(s: string) {
    s == [] || (!IsSpace(s[0]) && !IsSpace(s[|s| - 1]))
  }

  /** Index of the first non-whitespace character (|s| when there is none). */
  function StripStart(s: string): (n: nat)
    ensures n <= |s|
    ensures forall i :: 0 <= i < n ==> IsSpace(s[i])
    ensures n < |s| ==> !IsSpace(s[n])
  {
    if s == [] || !IsSpace(s[0]) then 0 else 1 + StripStart(s[1..])
  }

  /** One past the last non-whitespace character (0 when there is none). */
  function StripEnd(s: string): (n: nat)
    ensures n <= |s|
    ensures forall i :: n <= i < |s| ==> IsSpace(s[i])
    ensures n > 0 ==> !IsSpace(s[n - 1])
  {
    if s == [] || !IsSpace(s[|s| - 1]) then |s| else StripEnd(s[..|s| - 1])
  }

  /** Python's `s.strip()`: the part of `s` between its leading and its
      trailing whitespace. */
  function Strip(s: string): (r: string)
    ensures |r| <= |s|
    ensures StripStart(s) + |r| <= |s|
    ensures r == s[StripStart(s)..StripStart(s) + |r|]
    ensures IsStripped(r)
    ensures forall i :: StripStart(s) + |r| <= i < |s| ==> IsSpace(s[i])
    ensures r == [] <==> IsBlank(s)
  {
    var a, b := StripStart(s), StripEnd(s);
    if a == |s| then [] else s[a..b]
  }

  /** A character that survives stripping lies inside the stripped part. */
  lemma StripKeeps(s: string, i: nat)
    requires i < |s| && !IsSpace(s[i])
    ensures StripStart(s) <= i < StripStart(s) + |Strip(s)|
  {
  }

  /** Stripping a stripped string changes nothing. */
  lemma StripStripped(s: string)
    requires IsStripped(s)
    ensures Strip(s) == s
  {
    if s != [] {
      assert StripStart(s) == 0;
      assert StripEnd(s) == |s|;
    }
  }

  /** `sub` occurs in `s` starting at index `i`. */
  predicate OccursAt(s: string, sub: string, i: nat) {
    i + |sub| <= |s| && s[i..i + |sub|] == sub
  }

  /** `sub in s` for Python strings. */
  predicate Contains(s: string, sub: string) {
    exists i: nat | i <= |s| :: OccursAt(s, sub, i)
  }

  lemma ContainsAt(s: string, sub: string, i: nat)
    requires i + |sub| <= |s| && s[i..i + |sub|] == sub
    ensures Contains(s, sub)
  {
    assert OccursAt(s, sub, i);
  }

  /** `x` occurs in `a + x + b`. */
  lemma ContainsMiddle(a: string, x: string, b: string)
    ensures Contains(a + x + b, x)
  {
    var s := a + x + b;
    assert s[|a|..|a| + |x|] == x;
    ContainsAt(s, x, |a|);
  }

  /** Python's `s.rfind(sub, lo, hi)` for `hi <= len(s)`: the highest index
      `i >= lo` at which `sub` occurs and ends by `hi`, or -1. */
  function RFind(s: string, sub: string, lo: nat, hi: nat): int
    requires hi <= |s|
    decreases hi
  {
    if hi < lo + |sub| then -1
    else if s[hi - |sub|..hi] == sub then hi - |sub|
    else RFind(s, sub, lo, hi - 1)
  }

  /** What `RFind` finds: -1 when `sub` does not occur in range, and
      otherwise the last occurrence in range. */
  lemma {:induction false} RFindSpec(s: string, sub: string, lo: nat, hi: nat)
    requires hi <= |s|
    ensures RFind(s, sub, lo, hi) == -1 || (lo <= RFind(s, sub, lo, hi) && RFind(s, sub, lo, hi) + |sub| <= hi
                                            && OccursAt(s, sub, RFind(s, sub, lo, hi)))
    ensures RFind(s, sub, lo, hi) == -1 ==> forall i: nat :: lo <= i && i + |sub| <= hi ==> !OccursAt(s, sub, i)
    ensures RFind(s, sub, lo, hi) != -1 ==> forall i: nat :: RFind(s, sub, lo, hi) < i && i + |sub| <= hi ==> !OccursAt(s, sub, i)
    decreases hi
  {
    if hi >= lo + |sub| && s[hi - |sub|..hi] != sub {
      RFindSpec(s, sub, lo, hi - 1);
    }
  }

  /** ASCII case mapping; see README for the non-ASCII cases left out. */
  function LowerChar(c: char): char {
    if 'A' <= c <= 'Z' then (c as int + 32) as char else c
  }

  function UpperChar(c: char): char {
    if 'a' <= c <= 'z' then (c as int - 32) as char else c
  }

  /** Python's `s.lower()` restricted to ASCII letters. */
  function Lower(s: string): (r: string)
    ensures |r| == |s|
    ensures forall i :: 0 <= i < |s| ==> r[i] == LowerChar(s[i])
  {
    seq(|s|, i requires 0 <= i < |s| => LowerChar(s[i]))
  }

  /** Python's `s.upper()` restricted to ASCII letters. */
  function Upper(s: string): (r: string)
    ensures |r| == |s|
    ensures forall i :: 0 <= i < |s| ==> r[i] == UpperChar(s[i])
  {
    seq(|s|, i requires 0 <= i < |s| => UpperChar(s[i]))
  }

  /** Python's `sep.join(parts)`. */
  function Join(parts: seq<string>, sep: string): string
  {
    if parts == [] then ""
    else if |parts| == 1 then parts[0]
    else parts[0] + sep + Join(parts[1..], sep)
  }

  /** An occurrence in `s` is an occurrence in `pre + s`, shifted by `|pre|`. */
  lemma OccursAtShift(pre: string, s: string, sub: string, i: nat)
    requires OccursAt(s, sub, i)
    ensures OccursAt(pre + s, sub, |pre| + i)
    ensures Contains(pre + s, sub)
  {
    assert (pre + s)[|pre| + i..|pre| + i + |sub|] == s[i..i + |sub|];
    ContainsAt(pre + s, sub, |pre| + i);
  }

  /** Every part occurs in the joined string. */
  lemma {:induction false} JoinContains(parts: seq<string>, sep: string, k: nat)
    requires k < |parts|
    ensures Contains(Join(parts, sep), parts[k])
  {
    if |parts| == 1 {
      ContainsMiddle("", parts[0], "");
      assert "" + parts[0] + "" == Join(parts, sep);
    } else if k == 0 {
      ContainsMiddle("", parts[0], sep + Join(parts[1..], sep));
      assert "" + parts[0] + (sep + Join(parts[1..], sep)) == Join(parts, sep);
    } else {
      JoinContains(parts[1..], sep, k - 1);
      var j := Join(parts[1..], sep);
      var i: nat :| i <= |j| && OccursAt(j, parts[k], i);
      var pre := parts[0] + sep;
      assert Join(parts, sep) == pre + j;
      OccursAtShift(pre, j, parts[k], i);
    }
  }

  function DigitChar(d: nat): char
    requires d < 10
  {
    ['0', '1', '2', '3', '4', '5', '6', '7', '8', '9'][d]
  }

  /** Python's `str(n)` for a natural number. */
  function NatToString(n: nat): (r: string)
    ensures |r| >= 1
    ensures forall i :: 0 <= i < |r| ==> '0' <= r[i] <= '9'
  {
    if n < 10 then [DigitChar(n)] else NatToString(n / 10) + [DigitChar(n % 10)]
  }

  /** Python's `str(i)` for any integer. */
  function IntToString(i: int): string {
    if i < 0 then "-" + NatToString(-i) else NatToString(i)
  }

  /** Python's `<` on strings: lexicographic by code point, a proper prefix
      first. */
  predicate StrLt(a: string, b: string)
    decreases |a|
  {
    if a == [] then b != []
    else if b == [] then false
    else if a[0] != b[0] then a[0] < b[0]
    else StrLt(a[1..], b[1..])
  }

  lemma {:induction false} StrLtIrreflexive(a: string)
    ensures !StrLt(a, a)
  {
    if a != [] {
      StrLtIrreflexive(a[1..]);
    }
  }

  lemma {:induction false} StrLtTransitive(a: string, b: string, c: string)
    requires StrLt(a, b) && StrLt(b, c)
    ensures StrLt(a, c)
  {
    if a != [] && b != [] && c != [] && a[0] == b[0] && b[0] == c[0] {
      StrLtTransitive(a[1..], b[1..], c[1..]);
    }
  }

  lemma {:induction false} StrLtTotal(a: string, b: string)
    requires a != b
    ensures StrLt(a, b) || StrLt(b, a)
  {
    if a != [] && b != [] && a[0] == b[0] {
      assert a == [a[0]] + a[1..] && b == [b[0]] + b[1..];
      StrLtTotal(a[1..], b[1..]);
    }
  }

  lemma StrLtAsymmetric(a: string, b: string)
    requires StrLt(a, b)
    ensures !StrLt(b, a)
  {
    if StrLt(b, a) {
      StrLtTransitive(a, b, a);
      StrLtIrreflexive(a);
    }
  }

  /** Strictly increasing in code-point order, hence free of duplicates. */
  predicate StrictlySorted(xs: seq<string>) {
    forall i, j :: 0 <= i < j < |xs| ==> StrLt(xs[i], xs[j])
  }

  function Elems(xs: seq<string>): set<string> {
    set x | x in xs
  }

  /** Inserts `x` into a strictly sorted list unless it is already there. */
  function InsertSorted(x: string, xs: seq<string>): (r: seq<string>)
    requires StrictlySorted(xs)
    ensures StrictlySorted(r)
    ensures Elems(r) == Elems(xs) + {x}
  {
    if xs == [] then [x]
    else if x == xs[0] then xs
    else if StrLt(x, xs[0]) then
      assert forall j :: 0 < j < |xs| ==> StrLt(x, xs[j]) by {
        forall j | 0 < j < |xs| ensures StrLt(x, xs[j]) {
          StrLtTransitive(x, xs[0], xs[j]);
        }
      }
      [x] + xs
    else
      StrLtTotal(x, xs[0]);
      var rest := InsertSorted(x, xs[1..]);
      assert xs == [xs[0]] + xs[1..];
      assert Elems(xs) == {xs[0]} + Elems(xs[1..]);
      assert Elems([xs[0]] + rest) == {xs[0]} + Elems(rest);
      assert forall y :: y in rest ==> StrLt(xs[0], y) by {
        forall y | y in rest ensures StrLt(xs[0], y) {
          assert y in Elems(rest);
        }
      }
      [xs[0]] + rest
  }

  /** Python's `sorted(set(xs))`: the distinct elements in increasing order. */
  function SortedSet(xs: seq<string>): (r: seq<string>)
    ensures StrictlySorted(r)
    ensures Elems(r) == Elems(xs)
    ensures forall x :: x in r <==> x in xs
  {
    assert forall ys: seq<string>, x :: x in ys <==> x in Elems(ys);
    if xs == [] then []
    else
      assert Elems(xs) == Elems(xs[..|xs| - 1]) + {xs[|xs| - 1]};
      InsertSorted(xs[|xs| - 1], SortedSet(xs[..|xs| - 1]))
  }

  /** A strictly sorted list is determined by its set of elements: whatever
      order the set was built in, `sorted` gives the same list. */
  lemma {:induction false} StrictlySortedUnique(xs: seq<string>, ys: seq<string>)
    requires StrictlySorted(xs) && StrictlySorted(ys)
    requires Elems(xs) == Elems(ys)
    ensures xs == ys
  {
    if xs != [] { assert xs[0] in Elems(xs); }
    if ys != [] { assert ys[0] in Elems(ys); }
    if xs != [] && ys != [] {
      assert xs[0] in Elems(ys) && ys[0] in Elems(xs);
      if xs[0] != ys[0] {
        var i :| 0 <= i < |ys| && ys[i] == xs[0];
        var j :| 0 <= j < |xs| && xs[j] == ys[0];
        assert StrLt(ys[0], xs[0]) by { assert i > 0; }
        assert StrLt(xs[0], ys[0]) by { assert j > 0; }
        StrLtAsymmetric(ys[0], xs[0]);
      }
      assert Elems(xs[1..]) == Elems(ys[1..]) by {
        forall x | x in Elems(xs[1..]) ensures x in Elems(ys[1..]) {
          var i :| 0 <= i < |xs[1..]| && xs[1..][i] == x;
          assert StrLt(xs[0], xs[i + 1]);
          if x == ys[0] { StrLtIrreflexive(x); }
          assert x in Elems(ys);
          var k :| 0 <= k < |ys| && ys[k] == x;
          assert k > 0;
          assert ys[1..][k - 1] == x;
        }
        forall y | y in Elems(ys[1..]) ensures y in Elems(xs[1..]) {
          var i :| 0 <= i < |ys[1..]| && ys[1..][i] == y;
          assert StrLt(ys[0], ys[i + 1]);
          if y == xs[0] { StrLtIrreflexive(y); }
          assert y in Elems(xs);
          var k :| 0 <= k < |xs| && xs[k] == y;
          assert k > 0;
          assert xs[1..][k - 1] == y;
        }
      }
      StrictlySortedUnique(xs[1..], ys[1..]);
    }
  }

  /** Python's `s[:n]` for `n >= 0`. */
  function Prefix<T>(s: seq<T>, n: nat): (r: seq<T>)
    ensures |r| == if n < |s| then n else |s|
    ensures r == s[..|r|]
  {
    if n < |s| then s[..n] else s
  }

  /** `s.index(c)` when found, else -1. */
  function Find(s: string, c: char): (r: int)
    ensures r == -1 <==> c !in s
    ensures r >= 0 ==> r < |s| && s[r] == c && c !in s[..r]
  {
    if s == [] then -1
    else if s[0] == c then 0
    else
      var rest := Find(s[1..], c);
      assert s[1..][..if rest >= 0 then rest else 0] == s[1..if rest >= 0 then rest + 1 else 1];
      if rest < 0 then -1 else rest + 1
  }

  /** `s.rindex(c)` when found, else -1. */
  function RFindChar(s: string, c: char): (r: int)
    ensures r == -1 <==> c !in s
    ensures r >= 0 ==> r < |s| && s[r] == c && c !in s[r + 1..]
    ensures -1 <= r < |s| && forall j :: r < j < |s| ==> s[j] != c
    decreases |s|
  {
    if s == [] then -1
    else if s[|s| - 1] == c then |s| - 1
    else
      var r := RFindChar(s[..|s| - 1], c);
      assert forall j :: r < j < |s| - 1 ==> s[j] == s[..|s| - 1][j];
      r
  }

  /** The last occurrence is the only index with `c` and no `c` after it. */
  lemma RFindCharUnique(s: string, c: char, r: int)
    requires -1 <= r < |s| && (r >= 0 ==> s[r] == c)
    requires forall j :: r < j < |s| ==> s[j] != c
    ensures RFindChar(s, c) == r
  {
  }

  /** The last `c` of `a + b` is in `b` when `b` has one, else in `a`. */
  lemma RFindCharAppend(a: string, b: string, c: char)
    ensures c in b ==> RFindChar(a + b, c) == |a| + RFindChar(b, c)
    ensures c !in b ==> RFindChar(a + b, c) == RFindChar(a, c)
  {
    var s := a + b;
    assert forall j :: |a| <= j < |s| ==> s[j] == b[j - |a|];
    assert forall j :: 0 <= j < |a| ==> s[j] == a[j];
    if c in b {
      RFindCharUnique(s, c, |a| + RFindChar(b, c));
    } else {
      RFindCharUnique(s, c, RFindChar(a, c));
    }
  }
}
