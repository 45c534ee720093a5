/**
 * The reference syntax shared by both hydration engines: `splitStringByRef`, `removeRefTag`
 * and `sanitizeKey` (ps-direct-sdk/lib/hydrateString.js:121-169, and the same text in
 * lib/v1.js:129-179).  A reference is written `${key[after|before]^limit,prop,...;default}`.
 */
module Reference {
  import opened Wrappers
  import opened Strings
  import Store

  /** The parsed reference object `{key, def, props, after, before, limit}`. */
  datatype Ref = Ref(
    key: string,
    def: Option<string>,
    props: seq<string>,
    after: Store.Bound,
    before: Store.Bound,
    limit: Store.Limit)

  // ----- splitStringByRef -----

  predicate DollarOnlyAtStart(p: string)
  {
    forall j :: 0 < j < |p| ==> p[j] != '$'
  }

  /** `s.split(/(?=[$])/)`: the string cut before every `$` that is not its first character. */
  function DollarPieces(s: string): (ps: seq<string>)
    ensures |ps| >= 1
    ensures forall i :: 0 <= i < |ps| ==> DollarOnlyAtStart(ps[i])
    ensures forall i :: 1 <= i < |ps| ==> |ps[i]| > 0 && ps[i][0] == '$'
    decreases |s|
  {
    if |s| == 0 then [""]
    else
      var j := IndexOf(s[1..], '$');
      if j < 0 then
        assert forall k :: 0 < k < |s| ==> s[k] == s[1..][k - 1];
        [s]
      else
        var rest := DollarPieces(s[j + 1..]);
        assert s[j + 1] == '$';
        var first := s[..j + 1];
        assert forall k :: 0 < k < |first| ==> first[k] == s[1..][..j][k - 1];
        assert ([first] + rest)[1..] == rest;
        [first] + rest
  }

  /** The cuts lose nothing: the pieces join back to the string. */
  lemma {:induction false} DollarPiecesConcat(s: string)
    ensures Concat(DollarPieces(s)) == s
    decreases |s|
  {
    DollarPiecesStep(s);
    if |s| == 0 {
      ConcatSingle("");
    } else {
      var j := IndexOf(s[1..], '$');
      if j < 0 {
        ConcatSingle(s);
      } else {
        DollarPiecesConcat(s[j + 1..]);
        ConcatCut(s, j + 1, DollarPieces(s[j + 1..]));
      }
    }
  }

  lemma {:induction false} ConcatCut(s: string, k: nat, rest: seq<string>)
    requires k <= |s| && Concat(rest) == s[k..]
    ensures Concat([s[..k]] + rest) == s
  {
    ConcatAppend([s[..k]], rest);
    ConcatSingle(s[..k]);
    assert s == s[..k] + s[k..];
  }

  lemma {:induction false} DollarPiecesStep(s: string)
    ensures |s| == 0 ==> DollarPieces(s) == [""]
    ensures |s| > 0 ==> var j := IndexOf(s[1..], '$');
      && (j < 0 ==> DollarPieces(s) == [s])
      && (j >= 0 ==> DollarPieces(s) == [s[..j + 1]] + DollarPieces(s[j + 1..]))
  {
  }

  /** One piece: a piece opening with `${` is cut after its first `}` (at 0 when it has none). */
  function SplitPiece(p: string): seq<string>
  {
    if |p| >= 2 && p[0] == '$' && p[1] == '{' then
      var at := IndexOf(p, '}') + 1;
      [p[..at], p[at..]]
    else [p]
  }

  lemma {:induction false} SplitPieceConcat(p: string)
    ensures Concat(SplitPiece(p)) == p
  {
    if |p| >= 2 && p[0] == '$' && p[1] == '{' {
      var at := IndexOf(p, '}') + 1;
      assert p == p[..at] + p[at..];
      ConcatAppend([p[..at]], [p[at..]]);
      assert [p[..at], p[at..]] == [p[..at]] + [p[at..]];
    }
  }

  function SplitPieces(ps: seq<string>): seq<string>
  {
    if |ps| == 0 then [] else SplitPiece(ps[0]) + SplitPieces(ps[1..])
  }

  lemma {:induction false} SplitPiecesConcat(ps: seq<string>)
    ensures Concat(SplitPieces(ps)) == Concat(ps)
  {
    if |ps| > 0 {
      SplitPiecesConcat(ps[1..]);
      SplitPieceConcat(ps[0]);
      ConcatAppend(SplitPiece(ps[0]), SplitPieces(ps[1..]));
    }
  }

  /** splitStringByRef: the pieces, in order, with each reference cut out of its piece. */
  function Split(s: string): seq<string>
  {
    SplitPieces(DollarPieces(s))
  }

  /** splitStringByRef loses nothing: the pieces join back to the string. */
  lemma {:induction false} SplitConcat(s: string)
    ensures Concat(Split(s)) == s
  {
    DollarPiecesConcat(s);
    SplitPiecesConcat(DollarPieces(s));
  }

  /** A whole reference `${...}`: `$` only first, `}` only last. */
  predicate ClosedRef(x: string)
  {
    |x| >= 3 && x[0] == '$' && x[1] == '{' && x[|x| - 1] == '}' &&
    (forall j :: 1 <= j < |x| - 1 ==> x[j] != '$' && x[j] != '}')
  }

  /** A reference that is never closed: `${` and then no `$` and no `}`. */
  predicate OpenRef(x: string)
  {
    |x| >= 2 && x[0] == '$' && x[1] == '{' && (forall j :: 1 <= j < |x| ==> x[j] != '$' && x[j] != '}')
  }

  lemma {:induction false} SplitPieceShape(p: string)
    requires DollarOnlyAtStart(p)
    ensures forall x :: x in SplitPiece(p) ==> ClosedRef(x) || OpenRef(x) || !HasRefOpen(x)
  {
    if |p| >= 2 && p[0] == '$' && p[1] == '{' {
      var at := IndexOf(p, '}') + 1;
      if at == 0 {
        assert OpenRef(p);
        assert !HasRefOpen(p[..0]);
      } else {
        assert p[..at][..at - 1] == p[..at - 1];
        assert ClosedRef(p[..at]);
        assert !HasRefOpen(p[at..]) by {
          forall i | 0 <= i < |p[at..]| ensures p[at..][i] != '$' {
            assert p[at..][i] == p[at + i];
          }
        }
      }
    }
  }

  /**
   * Every piece of splitStringByRef is a whole reference, an unclosed one, or literal text
   * with no `${` in it; so a `$` not followed by `{` always stays inside literal text.
   */
  lemma {:induction false} SplitShape(s: string)
    ensures forall x :: x in Split(s) ==> ClosedRef(x) || OpenRef(x) || !HasRefOpen(x)
  {
    SplitPiecesShape(DollarPieces(s));
  }

  lemma {:induction false} SplitPiecesShape(ps: seq<string>)
    requires forall i :: 0 <= i < |ps| ==> DollarOnlyAtStart(ps[i])
    ensures forall x :: x in SplitPieces(ps) ==> ClosedRef(x) || OpenRef(x) || !HasRefOpen(x)
  {
    if |ps| > 0 {
      SplitPieceShape(ps[0]);
      SplitPiecesShape(ps[1..]);
    }
  }

  lemma {:induction false} RefOpenAppend(a: string, b: string)
    ensures HasRefOpen(a) || HasRefOpen(b) ==> HasRefOpen(a + b)
  {
    if HasRefOpen(b) {
      var i :| 0 <= i < |b| - 1 && b[i] == '$' && b[i + 1] == '{';
      assert (a + b)[|a| + i] == '$' && (a + b)[|a| + i + 1] == '{';
    }
    if HasRefOpen(a) {
      var i :| 0 <= i < |a| - 1 && a[i] == '$' && a[i + 1] == '{';
      assert (a + b)[i] == '$' && (a + b)[i + 1] == '{';
    }
  }

  lemma {:induction false} RefOpenConcat(xs: seq<string>)
    ensures (exists x :: x in xs && HasRefOpen(x)) ==> HasRefOpen(Concat(xs))
  {
    if |xs| > 0 {
      RefOpenConcat(xs[1..]);
      RefOpenAppend(xs[0], Concat(xs[1..]));
      assert forall x :: x in xs ==> x == xs[0] || x in xs[1..];
    }
  }

  /** A string with no `${` splits into literal pieces only. */
  lemma {:induction false} NoRefOpenNoRefs(s: string)
    requires !HasRefOpen(s)
    ensures forall x :: x in Split(s) ==> !HasRefOpen(x)
  {
    SplitConcat(s);
    RefOpenConcat(Split(s));
  }

  // ----- removeRefTag -----

  /**
   * The first `}` at or after `k` reached before a line terminator (`.*?}`): None exactly when
   * every `}` from `k` on has a line terminator in front of it.
   */
  function BodyEnd(x: string, k: nat): (e: Option<nat>)
    ensures e.Some? ==> k <= e.value < |x| && x[e.value] == '}'
    ensures e.Some? ==> forall j :: k <= j < e.value ==> x[j] != '}' && !IsLineTerminator(x[j])
    ensures e.None? ==> forall j :: k <= j < |x| && x[j] == '}' ==> exists t :: k <= t < j && IsLineTerminator(x[t])
    decreases |x| - k
  {
    if k >= |x| then None
    else if x[k] == '}' then Some(k)
    else if IsLineTerminator(x[k]) then None
    else BodyEnd(x, k + 1)
  }

  /** The leftmost match of `/\${(.*?)}/` at or after `i`: its group. */
  function MatchRefTag(x: string, i: nat): Option<string>
    decreases |x| - i
  {
    if i + 1 >= |x| then None
    else if x[i] == '$' && x[i + 1] == '{' && BodyEnd(x, i + 2).Some? then
      Some(x[i + 2..BodyEnd(x, i + 2).value])
    else MatchRefTag(x, i + 1)
  }

  /** removeRefTag: the text between `${` and the next `}`, or the input when nothing matches. */
  function RemoveRefTag(x: string): string
  {
    match MatchRefTag(x, 0)
    case Some(body) => body
    case None => x
  }

  predicate HasLineTerminator(s: string)
  {
    exists ch :: ch in s && IsLineTerminator(ch)
  }

  lemma {:induction false} BodyEndClosed(x: string, k: nat)
    requires 1 <= k <= |x| - 1 && x[|x| - 1] == '}'
    requires forall j :: k <= j < |x| - 1 ==> x[j] != '}'
    ensures BodyEnd(x, k) == if HasLineTerminator(x[k..|x| - 1]) then None else Some(|x| - 1)
    decreases |x| - k
  {
    if k < |x| - 1 {
      if IsLineTerminator(x[k]) {
        assert x[k..|x| - 1][0] == x[k];
      } else {
        BodyEndClosed(x, k + 1);
        assert x[k..|x| - 1] == [x[k]] + x[k + 1..|x| - 1];
      }
    }
  }

  lemma {:induction false} NoMatchAfterDollar(x: string, i: nat)
    requires i >= 1 && forall j :: i <= j < |x| ==> x[j] != '$'
    ensures MatchRefTag(x, i).None?
    decreases |x| - i
  {
    if i + 1 < |x| {
      NoMatchAfterDollar(x, i + 1);
    }
  }

  /**
   * removeRefTag on the pieces splitStringByRef produces: a whole reference gives the text
   * between its braces, unless that text holds a line terminator (which `.` does not match);
   * an unclosed reference is returned as it is.
   */
  lemma {:induction false} RemoveRefTagOfPiece(x: string)
    requires ClosedRef(x) || OpenRef(x)
    ensures ClosedRef(x) ==>
      RemoveRefTag(x) == if HasLineTerminator(x[2..|x| - 1]) then x else x[2..|x| - 1]
    ensures OpenRef(x) ==> RemoveRefTag(x) == x
  {
    NoMatchAfterDollar(x, 1);
    if ClosedRef(x) {
      BodyEndClosed(x, 2);
    } else {
      assert BodyEnd(x, 2).None? by {
        BodyEndOpen(x, 2);
      }
    }
  }

  lemma {:induction false} BodyEndOpen(x: string, k: nat)
    requires forall j :: k <= j < |x| ==> x[j] != '}'
    ensures BodyEnd(x, k).None?
    decreases |x| - k
  {
    if k < |x| {
      BodyEndOpen(x, k + 1);
    }
  }

  // ----- sanitizeKey -----

  /** The end of `-?\d*` starting at `j`. */
  function SignedEnd(s: string, j: nat): (e: nat)
    requires j <= |s|
    ensures j <= e <= |s|
  {
    if j < |s| && s[j] == '-' then DigitsEnd(s, j + 1) else DigitsEnd(s, j)
  }

  /** A match of `/\[(-?\d*)\|(-?\d*)\]/`: where it starts and ends, and its two groups. */
  datatype RangeMatch = RangeMatch(start: nat, end: nat, after: string, before: string)

  /** The range pattern tried at position `i` (the greedy groups cannot backtrack past `|` or `]`). */
  function RangeAt(s: string, i: nat): (m: Option<RangeMatch>)
    requires i <= |s|
    ensures m.Some? ==> m.value.start == i < m.value.end <= |s|
  {
    if i < |s| && s[i] == '[' then
      var a := SignedEnd(s, i + 1);
      if a < |s| && s[a] == '|' then
        var b := SignedEnd(s, a + 1);
        if b < |s| && s[b] == ']' then Some(RangeMatch(i, b + 1, s[i + 1..a], s[a + 1..b])) else None
      else None
    else None
  }

  /** `s.match(range pattern)`: the leftmost match at or after `i`. */
  function FindRange(s: string, i: nat): (m: Option<RangeMatch>)
    requires i <= |s|
    ensures m.Some? ==> i <= m.value.start < m.value.end <= |s|
    decreases |s| - i
  {
    if i >= |s| then None
    else match RangeAt(s, i)
      case Some(m) => Some(m)
      case None => FindRange(s, i + 1)
  }

  /** A match of `/\^(\d+)/`: where it starts and ends. */
  function LimitAt(s: string, i: nat): (m: Option<nat>)
    requires i <= |s|
    ensures m.Some? ==> i + 2 <= m.value <= |s| && AllDigits(s[i + 1..m.value])
  {
    if i + 1 < |s| && s[i] == '^' && IsDigit(s[i + 1]) then Some(DigitsEnd(s, i + 1)) else None
  }

  /** `s.match(/\^(\d+)/)`: the start and end of the leftmost match at or after `i`. */
  function FindLimit(s: string, i: nat): (m: Option<(nat, nat)>)
    requires i <= |s|
    ensures m.Some? ==> i <= m.value.0 && m.value.0 + 2 <= m.value.1 <= |s| && AllDigits(s[m.value.0 + 1..m.value.1])
    decreases |s| - i
  {
    if i >= |s| then None
    else match LimitAt(s, i)
      case Some(e) => Some((i, e))
      case None => FindLimit(s, i + 1)
  }

  /** `parseInt` of a range group; NaN (None) makes `after` -Infinity and `before` Infinity. */
  function AfterBound(g: string): Store.Bound
  {
    match ParseSigned(g)
    case Some(n) => Store.Fin(n)
    case None => Store.NegInf
  }

  function BeforeBound(g: string): Store.Bound
  {
    match ParseSigned(g)
    case Some(n) => Store.Fin(n)
    case None => Store.PosInf
  }

  /** `s` with `s[start..end]` taken out. */
  function TakeOut(s: string, start: nat, end: nat): (r: string)
    requires start <= end <= |s|
    ensures forall ch :: ch in r ==> ch in s
  {
    assert s == s[..start] + s[start..end] + s[end..];
    s[..start] + s[end..]
  }

  /** The range token found in the key: the key without it, and the `after` and `before` bounds. */
  function ParseRange(key: string): (r: (string, Store.Bound, Store.Bound))
    ensures forall ch :: ch in r.0 ==> ch in key
    ensures r.1 != Store.PosInf && r.2 != Store.NegInf
  {
    match FindRange(key, 0)
    case None => (key, Store.NegInf, Store.PosInf)
    case Some(m) => (TakeOut(key, m.start, m.end), AfterBound(m.after), BeforeBound(m.before))
  }

  /** The limit token found in the key: the key without it, and the limit. */
  function ParseLimit(key: string): (r: (string, Store.Limit))
    ensures forall ch :: ch in r.0 ==> ch in key
  {
    match FindLimit(key, 0)
    case None => (key, Store.Unlimited)
    case Some((start, end)) => (TakeOut(key, start, end), Store.AtMost(DigitsValue(key[start + 1..end])))
  }

  /**
   * sanitizeKey: the default is the text between the first and the second `;`, the props
   * are the `,`-separated names after the key, and the range and then the limit token are
   * taken out of the key.  (Deleting the first occurrence of the matched text, as
   * `key.replace` does, deletes the leftmost match itself: an earlier occurrence of that
   * text would have been an earlier match.)
   */
  function SanitizeKey(input: string): (r: Ref)
    ensures ';' !in r.key && ',' !in r.key
    ensures forall i :: 0 <= i < |r.props| ==> ';' !in r.props[i] && ',' !in r.props[i]
    ensures r.def.Some? ==> ';' !in r.def.value
    ensures r.after != Store.PosInf && r.before != Store.NegInf
  {
    var temp := SplitOn(input, ';');
    var xs := SplitOn(temp[0], ',');
    JoinHasParts(xs, [',']);
    var (key1, after, before) := ParseRange(xs[0]);
    var (key2, limit) := ParseLimit(key1);
    Ref(key2, if |temp| >= 2 then Some(temp[1]) else None, xs[1..], after, before, limit)
  }

  // ----- the written form of a reference, and reading it back -----

  function BoundText(b: Store.Bound): string
  {
    if b.Fin? then IntToString(b.n) else ""
  }

  /** The range token `[after|before]`. */
  function RangeText(after: Store.Bound, before: Store.Bound): string
  {
    "[" + BoundText(after) + "|" + BoundText(before) + "]"
  }

  /** The limit token `^n`, empty for no limit. */
  function LimitText(limit: Store.Limit): string
  {
    if limit.AtMost? then "^" + NatToString(limit.n) else ""
  }

  /** The key followed by its range and limit tokens. */
  function KeyText(r: Ref): string
  {
    if r.after == Store.NegInf && r.before == Store.PosInf then r.key + LimitText(r.limit)
    else r.key + RangeText(r.after, r.before) + LimitText(r.limit)
  }

  /** The text inside `${...}` that denotes `r`. */
  function Format(r: Ref): string
  {
    Join([KeyText(r)] + r.props, [',']) + (if r.def.Some? then ";" + r.def.value else "")
  }

  /** A reference its written form can carry: no separator or token character where it would be misread. */
  predicate Writable(r: Ref)
  {
    && ',' !in r.key && ';' !in r.key && '[' !in r.key && '^' !in r.key
    && (forall i :: 0 <= i < |r.props| ==> ',' !in r.props[i] && ';' !in r.props[i])
    && (r.def.Some? ==> ';' !in r.def.value)
    && r.after != Store.PosInf && r.before != Store.NegInf
  }

  lemma {:induction false} BoundTextChars(b: Store.Bound)
    ensures forall ch :: ch in BoundText(b) ==> ch == '-' || IsDigit(ch)
  {
    if b.Fin? && b.n < 0 {
      assert BoundText(b) == "-" + NatToString(-b.n);
    }
  }

  lemma {:induction false} LimitTextChars(limit: Store.Limit)
    ensures forall ch :: ch in LimitText(limit) ==> ch == '^' || IsDigit(ch)
  {
  }

  /** The token characters: none of them is `,` or `;`. */
  lemma {:induction false} KeyTextChars(r: Ref)
    requires ',' !in r.key && ';' !in r.key
    ensures ',' !in KeyText(r) && ';' !in KeyText(r)
  {
    BoundTextChars(r.after);
    BoundTextChars(r.before);
    LimitTextChars(r.limit);
  }

  lemma {:induction false} NoRangeIn(s: string, i: nat)
    requires i <= |s| && '[' !in s[i..]
    ensures FindRange(s, i).None?
    decreases |s| - i
  {
    if i < |s| {
      assert s[i..][0] == s[i];
      assert s[i + 1..] == s[i..][1..];
      NoRangeIn(s, i + 1);
    }
  }

  lemma {:induction false} RangeAfter(s: string, i: nat)
    requires i <= |s| && '[' !in s[..i]
    ensures FindRange(s, 0) == FindRange(s, i)
  {
    if i > 0 {
      assert s[..i - 1] == s[..i][..i - 1];
      assert s[..i][i - 1] == s[i - 1];
      RangeAfter(s, i - 1);
    }
  }

  lemma {:induction false} NoLimitIn(s: string, i: nat)
    requires i <= |s| && '^' !in s[i..]
    ensures FindLimit(s, i).None?
    decreases |s| - i
  {
    if i < |s| {
      assert s[i..][0] == s[i];
      assert s[i + 1..] == s[i..][1..];
      NoLimitIn(s, i + 1);
    }
  }

  lemma {:induction false} LimitAfter(s: string, i: nat)
    requires i <= |s| && '^' !in s[..i]
    ensures FindLimit(s, 0) == FindLimit(s, i)
  {
    if i > 0 {
      assert s[..i - 1] == s[..i][..i - 1];
      assert s[..i][i - 1] == s[i - 1];
      LimitAfter(s, i - 1);
    }
  }

  /** `-?\d*` over the text of a bound stops right after it. */
  lemma {:induction false} SignedEndOf(s: string, j: nat, b: Store.Bound)
    requires j + |BoundText(b)| < |s| && s[j..j + |BoundText(b)|] == BoundText(b)
    requires !IsDigit(s[j + |BoundText(b)|]) && s[j + |BoundText(b)|] != '-'
    ensures SignedEnd(s, j) == j + |BoundText(b)|
  {
    var t := BoundText(b);
    if b.Fin? {
      if b.n < 0 {
        var d := NatToString(-b.n);
        assert t == "-" + d;
        assert s[j] == t[0];
        assert s[j + 1..j + 1 + |d|] == t[1..];
        DigitsEndOf(s, j + 1, d);
      } else {
        assert s[j] == t[0];
        DigitsEndOf(s, j, t);
      }
    }
  }

  /** A range token `[ta|tb]` stands in `k` at `i`. */
  predicate LaidOut(k: string, i: nat, ta: string, tb: string)
  {
    var a := i + 1 + |ta|; var b := a + 1 + |tb|;
    && b < |k| && k[i] == '[' && k[i + 1..a] == ta && k[a] == '|'
    && k[a + 1..b] == tb && k[b] == ']'
  }

  /** The range pattern over a range token laid out at `i`. */
  lemma {:induction false} RangeAtLaidOut(k: string, i: nat, after: Store.Bound, before: Store.Bound)
    requires LaidOut(k, i, BoundText(after), BoundText(before))
    ensures var ta := BoundText(after); var tb := BoundText(before);
      RangeAt(k, i) == Some(RangeMatch(i, i + |ta| + |tb| + 3, ta, tb))
  {
    var ta := BoundText(after);
    var tb := BoundText(before);
    var a := i + 1 + |ta|;
    var b := a + 1 + |tb|;
    SignedEndOf(k, i + 1, after);
    SignedEndOf(k, a + 1, before);
    RangeAtEnds(k, i, a, b);
  }

  /** The range pattern at `i` once both signed-digit runs are known to end at `a` and `b`. */
  lemma {:induction false} RangeAtEnds(k: string, i: nat, a: nat, b: nat)
    requires i < a < b < |k| && k[i] == '[' && k[a] == '|' && k[b] == ']'
    requires SignedEnd(k, i + 1) == a && SignedEnd(k, a + 1) == b
    ensures RangeAt(k, i) == Some(RangeMatch(i, b + 1, k[i + 1..a], k[a + 1..b]))
  {
  }

  /** Where the pieces of a range token stand in the text around it. */
  lemma {:induction false} TokenLayout(pre: string, ta: string, tb: string, post: string)
    ensures LaidOut(pre + ("[" + ta + "|" + tb + "]") + post, |pre|, ta, tb)
  {
    var u := pre + "[";
    var v := u + ta;
    var w := v + "|";
    var x := w + tb;
    var y := x + "]";
    var k := y + post;
    assert k == pre + ("[" + ta + "|" + tb + "]") + post;
    var i := |pre|;
    var a := |v|;
    var b := |x|;
    assert k[i] == '[' by {
      assert k[i] == y[i] == x[i] == w[i] == v[i] == u[i];
    }
    assert k[i + 1..a] == ta by {
      assert k[i + 1..a] == y[i + 1..a] == x[i + 1..a] == w[i + 1..a] == v[|u|..];
    }
    assert k[a] == '|' by {
      assert k[a] == y[a] == x[a] == w[a];
    }
    assert k[a + 1..b] == tb by {
      assert k[a + 1..b] == y[a + 1..b] == x[|w|..];
    }
    assert k[b] == ']' by {
      assert k[b] == y[b];
    }
  }

  /** The range pattern matches a range token where it stands, with the bound texts as groups. */
  lemma {:induction false} RangeAtText(pre: string, after: Store.Bound, before: Store.Bound, post: string)
    ensures var ta := BoundText(after); var tb := BoundText(before);
      RangeAt(pre + RangeText(after, before) + post, |pre|)
        == Some(RangeMatch(|pre|, |pre| + |ta| + |tb| + 3, ta, tb))
  {
    var ta := BoundText(after);
    var tb := BoundText(before);
    assert RangeText(after, before) == "[" + ta + "|" + tb + "]";
    TokenLayout(pre, ta, tb, post);
    RangeAtLaidOut(pre + RangeText(after, before) + post, |pre|, after, before);
  }

  /** The key with its tokens: the range is found right after the key, and taking it out leaves the limit. */
  lemma {:induction false} RangeOfKeyText(r: Ref)
    requires '[' !in r.key && r.after != Store.PosInf && r.before != Store.NegInf
    ensures ParseRange(KeyText(r)) == (r.key + LimitText(r.limit), r.after, r.before)
  {
    var k := KeyText(r);
    LimitTextChars(r.limit);
    if r.after == Store.NegInf && r.before == Store.PosInf {
      assert '[' !in k[0..];
      NoRangeIn(k, 0);
    } else {
      var rt := RangeText(r.after, r.before);
      var i := |r.key|;
      assert k[..i] == r.key;
      RangeAfter(k, i);
      RangeAtText(r.key, r.after, r.before, LimitText(r.limit));
      assert k[..i] + k[i + |rt|..] == r.key + LimitText(r.limit);
      ParseBound(r.after);
      ParseBound(r.before);
    }
  }

  lemma {:induction false} ParseBound(b: Store.Bound)
    ensures b != Store.PosInf ==> AfterBound(BoundText(b)) == b
    ensures b != Store.NegInf ==> BeforeBound(BoundText(b)) == b
  {
    if b.Fin? {
      ParseSignedRoundTrip(b.n);
    }
  }

  lemma {:induction false} LimitOfText(key: string, limit: Store.Limit)
    requires '^' !in key
    ensures ParseLimit(key + LimitText(limit)) == (key, limit)
  {
    var k := key + LimitText(limit);
    if limit.Unlimited? {
      assert k == key && k[0..] == k;
      NoLimitIn(k, 0);
    } else {
      var d := NatToString(limit.n);
      var i := |key|;
      assert k == key + "^" + d;
      assert k[..i] == key && k[i + 1..] == d;
      LimitAtEnd(k, i, d);
      DigitsRoundTrip(limit.n);
    }
  }

  /** A key ending in `^` and digits, with no `^` before: the limit match is that tail. */
  lemma {:induction false} LimitAtEnd(k: string, i: nat, d: string)
    requires i + 1 + |d| == |k| && |d| >= 1 && AllDigits(d)
    requires '^' !in k[..i] && k[i] == '^' && k[i + 1..] == d
    ensures FindLimit(k, 0) == Some((i, |k|)) && k[i + 1..|k|] == d && TakeOut(k, i, |k|) == k[..i]
  {
    LimitAfter(k, i);
    assert k[i + 1] == d[0];
    assert k[i + 1..i + 1 + |d|] == d;
    DigitsEndOf(k, i + 1, d);
  }

  /** The parts of a written reference carry neither separator. */
  lemma {:induction false} PartsWithoutSeparators(r: Ref)
    requires Writable(r)
    ensures forall i :: 0 <= i < |[KeyText(r)] + r.props| ==>
      ',' !in ([KeyText(r)] + r.props)[i] && ';' !in ([KeyText(r)] + r.props)[i]
  {
    KeyTextChars(r);
    var parts := [KeyText(r)] + r.props;
    forall i | 0 <= i < |parts| ensures ',' !in parts[i] && ';' !in parts[i] {
      if i > 0 {
        assert parts[i] == r.props[i - 1];
      }
    }
  }

  /** The `;` split of a written reference: the key and props, then the default if any. */
  lemma {:induction false} SemicolonSplit(r: Ref)
    requires Writable(r)
    ensures SplitOn(Format(r), ';') ==
      [Join([KeyText(r)] + r.props, [','])] + (if r.def.Some? then [r.def.value] else [])
  {
    var parts := [KeyText(r)] + r.props;
    PartsWithoutSeparators(r);
    var a := Join(parts, [',']);
    NotInJoin(parts, [','], ';');
    if r.def.Some? {
      assert Format(r) == Join([a, r.def.value], [';']);
      SplitOnJoin([a, r.def.value], ';');
    } else {
      assert Format(r) == Join([a], [';']);
      SplitOnJoin([a], ';');
    }
  }

  /**
   * sanitizeKey reads back what Format writes: key, props, default, the `[after|before]`
   * bounds (an empty side is -Infinity or Infinity) and the `^limit` cap (Infinity when
   * absent), with both tokens taken out of the key.
   */
  lemma {:induction false} SanitizeFormat(r: Ref)
    requires Writable(r)
    ensures SanitizeKey(Format(r)) == r
  {
    SemicolonSplit(r);
    PartsWithoutSeparators(r);
    SplitOnJoin([KeyText(r)] + r.props, ',');
    RangeOfKeyText(r);
    LimitOfText(r.key, r.limit);
  }

  // ----- a reference written into a string -----

  /** `${...}` around the written form of `r`. */
  function Tag(r: Ref): string
  {
    "${" + Format(r) + "}"
  }

  /** A reference whose written form can stand between `${` and `}` and be read back. */
  predicate Taggable(r: Ref)
  {
    Writable(r) && forall ch :: ch in Format(r) ==> ch != '$' && ch != '}' && !IsLineTerminator(ch)
  }

  /** The reference with only a key: no default, props, range or limit. */
  function KeyRef(key: string): Ref
  {
    Ref(key, None, [], Store.NegInf, Store.PosInf, Store.Unlimited)
  }

  lemma {:induction false} KeyRefFormat(key: string)
    ensures Format(KeyRef(key)) == key && Tag(KeyRef(key)) == "${" + key + "}"
  {
  }

  lemma {:induction false} TagChars(r: Ref)
    requires Taggable(r)
    ensures |Tag(r)| >= 3 && Tag(r)[0] == '$' && Tag(r)[1] == '{' && Tag(r)[|Tag(r)| - 1] == '}'
    ensures forall j :: 2 <= j < |Tag(r)| - 1 ==>
      Tag(r)[j] != '$' && Tag(r)[j] != '}' && !IsLineTerminator(Tag(r)[j])
  {
    var x := Tag(r);
    var f := Format(r);
    forall j | 2 <= j < |x| - 1
      ensures x[j] != '$' && x[j] != '}' && !IsLineTerminator(x[j])
    {
      assert x[j] == f[j - 2];
      assert f[j - 2] in f;
    }
  }

  /** A tag alone in a string is cut from the (empty) rest. */
  lemma {:induction false} SplitTag(r: Ref)
    requires Taggable(r)
    ensures Split(Tag(r)) == [Tag(r), ""]
  {
    var x := Tag(r);
    TagChars(r);
    assert DollarPieces(x) == [x] by {
      assert forall j :: 0 <= j < |x[1..]| ==> x[1..][j] == x[j + 1];
      assert '$' !in x[1..];
    }
    var body := x[..|x| - 1];
    assert '}' !in body by {
      assert forall j :: 0 <= j < |body| ==> body[j] == x[j];
    }
    assert x == body + ['}'] + [];
    IndexOfAfter(body, '}', []);
    assert SplitPiece(x) == [x, ""];
    assert SplitPieces([x]) == SplitPiece(x) + SplitPieces([]);
  }

  /** removeRefTag and sanitizeKey read a tag back as its reference. */
  lemma {:induction false} ParseTag(r: Ref)
    requires Taggable(r)
    ensures SanitizeKey(RemoveRefTag(Tag(r))) == r
  {
    var x := Tag(r);
    TagChars(r);
    assert ClosedRef(x);
    RemoveRefTagOfPiece(x);
    assert x[2..|x| - 1] == Format(r);
    assert !HasLineTerminator(Format(r));
    SanitizeFormat(r);
  }

  /** A tag holds `${`. */
  lemma {:induction false} TagOpens(r: Ref)
    ensures HasRefOpen(Tag(r))
  {
    assert Tag(r)[0] == '$' && Tag(r)[1] == '{';
  }

  /** A key that needs no escaping inside `${...}`: none of `,;[^$}` and no line terminator. */
  predicate PlainKey(key: string)
  {
    forall ch :: ch in key ==> ch !in ",;[^$}" && !IsLineTerminator(ch)
  }

  lemma {:induction false} KeyRefTaggable(key: string)
    requires PlainKey(key)
    ensures Taggable(KeyRef(key))
  {
    KeyRefFormat(key);
  }
}
