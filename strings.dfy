/**
 * The JavaScript string built-ins the source relies on, over `string` (= seq<char>):
 * `Array.prototype.join`, `String.prototype.split` with a one-character separator,
 * `String.prototype.indexOf` for one character, and the decimal digits read by `parseInt`
 * and written by `JSON.stringify`.
 */
module Strings {
  import opened Wrappers

  /** `parts.join(sep)`. */
  function Join(parts: seq<string>, sep: string): string
  {
    if |parts| == 0 then ""
    else if |parts| == 1 then parts[0]
    else parts[0] + sep + Join(parts[1..], sep)
  }

  /** `parts.join("")`. */
  function Concat(parts: seq<string>): string
  {
    if |parts| == 0 then "" else parts[0] + Concat(parts[1..])
  }

  lemma {:induction false} ConcatAppend(a: seq<string>, b: seq<string>)
    ensures Concat(a + b) == Concat(a) + Concat(b)
  {
    if |a| == 0 {
      assert a + b == b;
    } else {
      assert (a + b)[1..] == a[1..] + b;
      ConcatAppend(a[1..], b);
    }
  }

  lemma {:induction false} ConcatSingle(p: string)
    ensures Concat([p]) == p
  {
  }

  /** `s.indexOf(c)`: the first position of `c`, or -1. */
  function IndexOf(s: string, c: char): (i: int)
    ensures -1 <= i < |s|
    ensures i == -1 <==> c !in s
    ensures 0 <= i ==> s[i] == c && c !in s[..i]
  {
    if |s| == 0 then -1
    else if s[0] == c then 0
    else
      var j := IndexOf(s[1..], c);
      if j == -1 then -1 else j + 1
  }

  /** `s.split(c)` for a one-character separator: never empty, joins back to `s`. */
  function SplitOn(s: string, c: char): (parts: seq<string>)
    ensures |parts| >= 1
    ensures forall i :: 0 <= i < |parts| ==> c !in parts[i]
    ensures Join(parts, [c]) == s
    decreases |s|
  {
    var i := IndexOf(s, c);
    if i < 0 then [s]
    else
      var head := s[..i];
      var rest := SplitOn(s[i + 1..], c);
      JoinCons(head, rest, [c]);
      assert s == head + [c] + s[i + 1..];
      [head] + rest
  }

  lemma {:induction false} JoinCons(x: string, rest: seq<string>, sep: string)
    requires |rest| >= 1
    ensures Join([x] + rest, sep) == x + sep + Join(rest, sep)
  {
    assert ([x] + rest)[1..] == rest;
  }

  /** The separator-free text before the first `c`. */
  lemma {:induction false} SplitOnHead(s: string, c: char)
    ensures SplitOn(s, c)[0] == (if c in s then s[..IndexOf(s, c)] else s)
  {
  }

  /** The first `c` of `a + [c] + b` is the one after `a` when `a` has none. */
  lemma {:induction false} IndexOfAfter(a: string, c: char, b: string)
    requires c !in a
    ensures IndexOf(a + [c] + b, c) == |a|
  {
    var s := a + [c] + b;
    var i := IndexOf(s, c);
    assert s[|a|] == c;
    assert s[..|a|] == a;
    assert forall k :: 0 <= k < |a| ==> s[k] == a[k];
    assert forall k :: |a| < k <= |s| ==> s[..k][|a|] == c;
  }

  /** A character found neither in the parts nor in the separator is not in their join. */
  lemma {:induction false} NotInJoin(parts: seq<string>, sep: string, c: char)
    requires c !in sep && forall i :: 0 <= i < |parts| ==> c !in parts[i]
    ensures c !in Join(parts, sep)
  {
    if |parts| > 1 {
      NotInJoin(parts[1..], sep, c);
    }
  }

  /** Every character of every part is in the join. */
  lemma {:induction false} JoinHasParts(parts: seq<string>, sep: string)
    ensures forall i, ch :: 0 <= i < |parts| && ch in parts[i] ==> ch in Join(parts, sep)
  {
    if |parts| > 1 {
      JoinHasParts(parts[1..], sep);
      assert forall i :: 1 <= i < |parts| ==> parts[i] == parts[1..][i - 1];
    }
  }

  /** Splitting a join on its separator gives back the parts. */
  lemma {:induction false} SplitOnJoin(parts: seq<string>, c: char)
    requires |parts| >= 1 && forall i :: 0 <= i < |parts| ==> c !in parts[i]
    ensures SplitOn(Join(parts, [c]), c) == parts
  {
    if |parts| > 1 {
      var rest := Join(parts[1..], [c]);
      assert Join(parts, [c]) == parts[0] + [c] + rest;
      SplitOnStep(parts[0], c, rest);
      SplitOnJoin(parts[1..], c);
      assert parts == [parts[0]] + parts[1..];
    }
  }

  /** A separator-free head is the first part; the split goes on after the separator. */
  lemma {:induction false} SplitOnStep(a: string, c: char, b: string)
    requires c !in a
    ensures SplitOn(a + [c] + b, c) == [a] + SplitOn(b, c)
  {
    var s := a + [c] + b;
    IndexOfAfter(a, c, b);
    assert s[..|a|] == a;
    assert s[|a| + 1..] == b;
  }

  predicate StartsWith(s: string, prefix: string)
  {
    |prefix| <= |s| && s[..|prefix|] == prefix
  }

  /** Some `$` in `s` is immediately followed by `{` (the test `/\$\{/`). */
  predicate HasRefOpen(s: string)
  {
    exists i :: 0 <= i < |s| - 1 && s[i] == '$' && s[i + 1] == '{'
  }

  /** The line terminators that `.` in a JavaScript regular expression does not match. */
  predicate IsLineTerminator(ch: char)
  {
    ch == '\n' || ch == '\r' || ch == '\U{2028}' || ch == '\U{2029}'
  }

  predicate IsDigit(ch: char)
  {
    '0' <= ch <= '9'
  }

  predicate AllDigits(s: string)
  {
    forall i :: 0 <= i < |s| ==> IsDigit(s[i])
  }

  function DigitValue(ch: char): (d: nat)
    requires IsDigit(ch)
    ensures d < 10
  {
    (ch as int) - ('0' as int)
  }

  function DigitChar(d: nat): (ch: char)
    requires d < 10
    ensures IsDigit(ch) && DigitValue(ch) == d
  {
    ('0' as int + d) as char
  }

  /** The value of a run of decimal digits, most significant first (what `parseInt` reads). */
  function DigitsValue(s: string): nat
    requires AllDigits(s)
  {
    if |s| == 0 then 0 else DigitsValue(s[..|s| - 1]) * 10 + DigitValue(s[|s| - 1])
  }

  /** The shortest decimal digits of `n`. */
  function NatToString(n: nat): (s: string)
    ensures |s| >= 1 && AllDigits(s)
  {
    if n < 10 then [DigitChar(n)] else NatToString(n / 10) + [DigitChar(n % 10)]
  }

  /** Reading back the digits of `n` gives `n`. */
  lemma {:induction false} DigitsRoundTrip(n: nat)
    ensures DigitsValue(NatToString(n)) == n
  {
    var s := NatToString(n);
    if n >= 10 {
      DigitsRoundTrip(n / 10);
      assert s[..|s| - 1] == NatToString(n / 10);
    }
  }

  /** The end of the run of digits that starts at `j` (the greedy `\d*`). */
  function DigitsEnd(s: string, j: nat): (e: nat)
    requires j <= |s|
    ensures j <= e <= |s| && AllDigits(s[j..e]) && (e == |s| || !IsDigit(s[e]))
    decreases |s| - j
  {
    if j < |s| && IsDigit(s[j]) then
      var e := DigitsEnd(s, j + 1);
      assert forall i :: 0 <= i < e - j ==> s[j..e][i] == s[j + i];
      e
    else j
  }

  /** Scanning a run of digits stops right after it. */
  lemma {:induction false} DigitsEndOf(s: string, j: nat, d: string)
    requires j + |d| <= |s| && s[j..j + |d|] == d && AllDigits(d)
    requires j + |d| == |s| || !IsDigit(s[j + |d|])
    ensures DigitsEnd(s, j) == j + |d|
    decreases |d|
  {
    if |d| > 0 {
      assert s[j] == d[0];
      assert s[j + 1..j + 1 + |d[1..]|] == d[1..];
      DigitsEndOf(s, j + 1, d[1..]);
    }
  }

  /** `parseInt` of the text `-?\d*`: None (NaN) when there are no digits. */
  function ParseSigned(g: string): (r: Option<int>)
    ensures r.Some? ==> exists d :: |d| >= 1 && AllDigits(d) && (g == d || g == "-" + d)
  {
    if |g| > 1 && g[0] == '-' && AllDigits(g[1..]) then
      assert g == "-" + g[1..];
      var n: int := DigitsValue(g[1..]);
      Some(-n)
    else if |g| > 0 && AllDigits(g) then Some(DigitsValue(g))
    else None
  }

  /** Reading back the text of an integer gives the integer. */
  lemma {:induction false} ParseSignedRoundTrip(i: int)
    ensures ParseSigned(IntToString(i)) == Some(i)
  {
    if i < 0 {
      var d := NatToString(-i);
      assert IntToString(i) == "-" + d;
      DigitsRoundTrip(-i);
      NegativeText(d);
    } else {
      var d := NatToString(i);
      assert IntToString(i) == d;
      DigitsRoundTrip(i);
      assert IsDigit(d[0]);
      UnsignedText(d);
    }
  }

  lemma {:induction false} NegativeText(d: string)
    requires |d| >= 1 && AllDigits(d)
    ensures ParseSigned("-" + d) == Some(-(DigitsValue(d) as int))
  {
    var g := "-" + d;
    assert g[0] == '-' && g[1..] == d;
  }

  lemma {:induction false} UnsignedText(d: string)
    requires |d| >= 1 && AllDigits(d) && d[0] != '-'
    ensures ParseSigned(d) == Some(DigitsValue(d))
  {
  }

  /** An integer the way `JSON.stringify` and `String()` write it. */
  function IntToString(i: int): (s: string)
    ensures |s| >= 1
  {
    if i < 0 then "-" + NatToString(-i) else NatToString(i)
  }
}
