/**
 * The pieces of Python's string handling that the tester relies on:
 * `str.isspace`, `str.strip`, ASCII `str.lower`, `in`, `startswith`,
 * `str.split` on one separator character, `int()` on digit strings and
 * `str()` of a non-negative integer.
 */
module Strings {

  /** Python's `str.isspace()`, which is also what `\s` and `str.strip()` use. */
  predicate IsSpace(c: char) {
    var n := c as int;
    n == 32 || 9 <= n <= 13 || 28 <= n <= 31 || n == 0x85 || n == 0xA0 || n == 0x1680
    || 0x2000 <= n <= 0x200A || n == 0x2028 || n == 0x2029 || n == 0x202F || n == 0x205F
    || n == 0x3000
  }

  predicate IsDigit(c: char) {
    '0' <= c <= '9'
  }

  predicate AllDigits(s: string) {
    forall i :: 0 <= i < |s| ==> IsDigit(s[i])
  }

  /** Length of the longest run of `allowed` characters in `t` starting at `p`. */
  function Span(t: string, p: nat, allowed: char -> bool): (n: nat)
    requires p <= |t|
    ensures p + n <= |t|
    decreases |t| - p
  {
    if p < |t| && allowed(t[p]) then 1 + Span(t, p + 1, allowed) else 0
  }

  /** A span covers allowed characters only and stops at the end or at one that is not. */
  lemma {:induction false} SpanStops(t: string, p: nat, allowed: char -> bool)
    requires p <= |t|
    ensures forall k :: p <= k < p + Span(t, p, allowed) ==> allowed(t[k])
    ensures p + Span(t, p, allowed) == |t| || !allowed(t[p + Span(t, p, allowed)])
    decreases |t| - p
  {
    if p < |t| && allowed(t[p]) {
      SpanStops(t, p + 1, allowed);
    }
  }

  /** A run of `n` allowed characters followed by a stop is a span of length `n`. */
  lemma {:induction false} SpanFrom(t: string, p: nat, n: nat, allowed: char -> bool)
    requires p + n <= |t|
    requires forall k :: p <= k < p + n ==> allowed(t[k])
    requires p + n == |t| || !allowed(t[p + n])
    ensures Span(t, p, allowed) == n
    decreases n
  {
    if n > 0 {
      SpanFrom(t, p + 1, n - 1, allowed);
    }
  }

  predicate StartsWith(s: string, prefix: string) {
    |prefix| <= |s| && s[..|prefix|] == prefix
  }

  /** `sub` occurs in `s` at index `i`. */
  predicate OccursAt(s: string, sub: string, i: nat) {
    i + |sub| <= |s| && s[i..i + |sub|] == sub
  }

  /** Python's `sub in s`. */
  function Contains(s: string, sub: string): (r: bool)
    ensures r <==> exists i: nat :: OccursAt(s, sub, i)
    decreases |s|
  {
    if StartsWith(s, sub) then
      assert OccursAt(s, sub, 0);
      true
    else if |s| == 0 then
      false
    else
      var r := Contains(s[1..], sub);
      if r then
        var i: nat :| OccursAt(s[1..], sub, i);
        OccursShift(s, sub, i + 1);
        true
      else
        forall i: nat | OccursAt(s, sub, i)
          ensures i > 0 && OccursAt(s[1..], sub, i - 1)
        {
          OccursShift(s, sub, i);
        }
        false
  }

  /**
   * An occurrence in `s` after its first character is one in the tail of
   * `s`, one place earlier; an occurrence at 0 is a prefix.
   */
  lemma OccursShift(s: string, sub: string, i: nat)
    requires |s| > 0
    ensures i > 0 ==> (OccursAt(s, sub, i) <==> OccursAt(s[1..], sub, i - 1))
    ensures i == 0 ==> (OccursAt(s, sub, 0) <==> StartsWith(s, sub))
  {
    if i > 0 && i + |sub| <= |s| {
      assert s[i..i + |sub|] == s[1..][i - 1..i - 1 + |sub|];
    }
  }

  lemma ContainsInSlice(s: string, i: nat, j: nat, sub: string)
    requires i <= j <= |s|
    requires Contains(s[i..j], sub)
    ensures Contains(s, sub)
  {
    var k: nat :| OccursAt(s[i..j], sub, k);
    var t := s[i..j];
    forall m | 0 <= m < |sub|
      ensures s[i + k + m] == sub[m]
    {
      assert sub[m] == t[k + m];
    }
    assert OccursAt(s, sub, i + k);
  }

  function LowerChar(c: char): char {
    if 'A' <= c <= 'Z' then (c as int + 32) as char else c
  }

  /** `str.lower()` on ASCII letters; every other character is kept. */
  function Lower(s: string): (r: string)
    ensures |r| == |s|
    ensures forall i :: 0 <= i < |s| ==> r[i] == LowerChar(s[i])
  {
    seq(|s|, i requires 0 <= i < |s| => LowerChar(s[i]))
  }

  function LStrip(s: string): (r: string)
    ensures |r| <= |s| && r == s[|s| - |r|..]
    ensures |r| == 0 || !IsSpace(r[0])
    ensures forall i :: 0 <= i < |s| - |r| ==> IsSpace(s[i])
    decreases |s|
  {
    if |s| > 0 && IsSpace(s[0]) then
      var r := LStrip(s[1..]);
      assert forall i :: 1 <= i < |s| ==> s[i] == s[1..][i - 1];
      r
    else s
  }

  function RStrip(s: string): (r: string)
    ensures |r| <= |s| && r == s[..|r|]
    ensures |r| == 0 || !IsSpace(r[|r| - 1])
    decreases |s|
  {
    if |s| > 0 && IsSpace(s[|s| - 1]) then RStrip(s[..|s| - 1]) else s
  }

  /** What `RStrip` cuts off is white space. */
  lemma {:induction false} RStripSpaces(s: string)
    ensures forall i :: |RStrip(s)| <= i < |s| ==> IsSpace(s[i])
    decreases |s|
  {
    if |s| > 0 && IsSpace(s[|s| - 1]) {
      RStripSpaces(s[..|s| - 1]);
      forall i | |RStrip(s)| <= i < |s| - 1
        ensures IsSpace(s[i])
      {
        assert s[i] == s[..|s| - 1][i];
      }
    }
  }

  /** Where `str.strip()` cuts the front of `s`. */
  function StripOffset(s: string): nat {
    |s| - |LStrip(s)|
  }

  /** `str.strip()`: the result is a slice of `s` with no white space at either end. */
  function Strip(s: string): (r: string)
    ensures StripOffset(s) + |r| <= |s| && r == s[StripOffset(s)..StripOffset(s) + |r|]
    ensures |r| == 0 || (!IsSpace(r[0]) && !IsSpace(r[|r| - 1]))
  {
    RStrip(LStrip(s))
  }

  /** What `Strip` cuts off is white space, at both ends. */
  lemma StripTrims(s: string)
    ensures forall i :: 0 <= i < StripOffset(s) ==> IsSpace(s[i])
    ensures forall i :: StripOffset(s) + |Strip(s)| <= i < |s| ==> IsSpace(s[i])
  {
    var l := LStrip(s);
    var r := RStrip(l);
    RStripSpaces(l);
    forall i | StripOffset(s) + |r| <= i < |s|
      ensures IsSpace(s[i])
    {
      assert s[i] == l[i - StripOffset(s)];
    }
  }

  /** A slice of a slice is a slice. */
  lemma SliceOfSlice(s: string, a: nat, b: nat, c: nat, d: nat)
    requires a <= b <= |s| && c <= d <= b - a
    ensures s[a..b][c..d] == s[a + c..a + d]
  {
    forall k | 0 <= k < d - c
      ensures s[a..b][c..d][k] == s[a + c..a + d][k]
    {
      assert s[a..b][c..d][k] == s[a..b][c + k] == s[a + c + k];
    }
  }

  /** An occurrence of a string without white space lies inside the stripped text. */
  lemma StripKeepsOccurrence(s: string, sub: string, i: nat)
    requires |sub| > 0 && forall k :: 0 <= k < |sub| ==> !IsSpace(sub[k])
    requires OccursAt(s, sub, i)
    ensures StripOffset(s) <= i && OccursAt(Strip(s), sub, i - StripOffset(s))
  {
    var e := i + |sub| - 1;
    assert s[i] == sub[0] && s[e] == sub[|sub| - 1];
    StripBounds(s, i, e);
    var o := StripOffset(s);
    SliceOfSlice(s, o, o + |Strip(s)|, i - o, i - o + |sub|);
  }

  /** Two characters that are not white space lie inside the stripped text. */
  lemma StripBounds(s: string, a: nat, b: nat)
    requires a <= b < |s| && !IsSpace(s[a]) && !IsSpace(s[b])
    ensures StripOffset(s) <= a && b < StripOffset(s) + |Strip(s)|
  {
    StripTrims(s);
  }

  /** Stripping keeps every occurrence of a string that holds no white space. */
  lemma ContainsAfterStrip(s: string, sub: string)
    requires |sub| > 0 && forall k :: 0 <= k < |sub| ==> !IsSpace(sub[k])
    requires Contains(s, sub)
    ensures Contains(Strip(s), sub)
  {
    var i: nat :| OccursAt(s, sub, i);
    StripKeepsOccurrence(s, sub, i);
  }

  /** Lower-casing a slice is slicing the lower-cased string. */
  lemma LowerSlice(s: string, i: nat, j: nat)
    requires i <= j <= |s|
    ensures Lower(s[i..j]) == Lower(s)[i..j]
  {
  }

  /** What occurs in the lower-cased slice occurs in the lower-cased whole. */
  lemma ContainsLowerSlice(s: string, i: nat, j: nat, sub: string)
    requires i <= j <= |s|
    requires Contains(Lower(s[i..j]), sub)
    ensures Contains(Lower(s), sub)
  {
    LowerSlice(s, i, j);
    ContainsInSlice(Lower(s), i, j, sub);
  }

  /** What does not occur in the lower-cased whole does not occur in a lower-cased slice `r`. */
  lemma AbsentFromLowerSlice(s: string, i: nat, j: nat, sub: string, r: string)
    requires i <= j <= |s| && r == s[i..j]
    requires !Contains(Lower(s), sub)
    ensures !Contains(Lower(r), sub)
  {
    if Contains(Lower(r), sub) {
      ContainsLowerSlice(s, i, j, sub);
    }
  }

  /** What does not occur in the lower-cased string does not occur in its lower-cased stripped text. */
  lemma StripAbsent(s: string, sub: string)
    requires !Contains(Lower(s), sub)
    ensures !Contains(Lower(Strip(s)), sub)
  {
    var o := StripOffset(s);
    AbsentFromLowerSlice(s, o, o + |Strip(s)|, sub, Strip(s));
  }

  /** A line that `line.strip()` turns into the empty (false) string. */
  predicate IsBlank(s: string) {
    Strip(s) == ""
  }

  /** A string that starts with a character other than white space is not blank. */
  lemma NotBlank(s: string)
    requires |s| > 0 && !IsSpace(s[0])
    ensures !IsBlank(s)
  {
    LStripNoSpace(s);
    RStripSpaces(s);
  }

  lemma LStripNoSpace(s: string)
    requires |s| == 0 || !IsSpace(s[0])
    ensures LStrip(s) == s
  {
  }

  lemma {:induction false} RStripTrailingSpace(s: string, c: char)
    requires IsSpace(c)
    ensures RStrip(s + [c]) == RStrip(s)
  {
    assert (s + [c])[..|s + [c]| - 1] == s;
  }

  /** Python's `s.split(sep)` for a one-character separator. */
  function Split(s: string, sep: char): (r: seq<string>)
    ensures |r| >= 1
    decreases |s|
  {
    if |s| == 0 then
      [""]
    else if s[0] == sep then
      [""] + Split(s[1..], sep)
    else
      var rest := Split(s[1..], sep);
      [[s[0]] + rest[0]] + rest[1..]
  }

  /** Python's `sep.join(parts)` for a one-character separator. */
  function Join(parts: seq<string>, sep: char): string
    decreases |parts|
  {
    if |parts| == 0 then ""
    else if |parts| == 1 then parts[0]
    else parts[0] + [sep] + Join(parts[1..], sep)
  }

  /** Splitting text that holds no separator gives the text back. */
  lemma {:induction false} SplitWithoutSeparator(s: string, sep: char)
    requires sep !in s
    ensures Split(s, sep) == [s]
    decreases |s|
  {
    if |s| > 0 {
      SplitWithoutSeparator(s[1..], sep);
      assert [s[0]] + s[1..] == s;
    }
  }

  /** Splitting at the first separator peels off the part before it. */
  lemma {:induction false} SplitAtFirst(a: string, sep: char, b: string)
    requires sep !in a
    ensures Split(a + [sep] + b, sep) == [a] + Split(b, sep)
    decreases |a|
  {
    if |a| == 0 {
      assert a + [sep] + b == [sep] + b;
      assert ([sep] + b)[1..] == b;
    } else {
      var s := a + [sep] + b;
      assert s[0] == a[0];
      assert s[1..] == a[1..] + [sep] + b;
      SplitAtFirst(a[1..], sep, b);
      assert [a[0]] + a[1..] == a;
    }
  }

  /** `split` undoes `join` when no part holds the separator. */
  lemma {:induction false} SplitJoin(parts: seq<string>, sep: char)
    requires |parts| >= 1
    requires forall i :: 0 <= i < |parts| ==> sep !in parts[i]
    ensures Split(Join(parts, sep), sep) == parts
    decreases |parts|
  {
    if |parts| == 1 {
      SplitWithoutSeparator(parts[0], sep);
    } else {
      SplitJoin(parts[1..], sep);
      SplitAtFirst(parts[0], sep, Join(parts[1..], sep));
      assert [parts[0]] + parts[1..] == parts;
    }
  }

  function DigitValue(c: char): nat
    requires IsDigit(c)
  {
    c as int - '0' as int
  }

  /** The value Python's `int()` gives a non-empty string of ASCII digits. */
  function DecimalValue(s: string): nat
    requires AllDigits(s)
    decreases |s|
  {
    if |s| == 0 then 0 else 10 * DecimalValue(s[..|s| - 1]) + DigitValue(s[|s| - 1])
  }

  function DigitChar(d: nat): (c: char)
    requires d < 10
    ensures IsDigit(c) && DigitValue(c) == d
  {
    ('0' as int + d) as char
  }

  /** Python's `str(n)` for `n >= 0`: a non-empty digit string that reads back as `n`. */
  function NatToString(n: nat): (s: string)
    ensures |s| >= 1 && AllDigits(s)
    ensures DecimalValue(s) == n
    ensures |s| > 1 ==> s[0] != '0'
    decreases n
  {
    if n < 10 then
      [DigitChar(n)]
    else
      var prefix := NatToString(n / 10);
      var s := prefix + [DigitChar(n % 10)];
      assert s[..|s| - 1] == prefix;
      assert s[0] == prefix[0];
      s
  }

  /** `s.replace(a, b)` for single characters. */
  function ReplaceChar(s: string, a: char, b: char): (r: string)
    ensures |r| == |s|
    ensures forall i :: 0 <= i < |s| ==> r[i] == (if s[i] == a then b else s[i])
  {
    seq(|s|, i requires 0 <= i < |s| => if s[i] == a then b else s[i])
  }
}
