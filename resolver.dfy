/**
 * The first resolver (server.js:13-49).  Every `${key}` in a string is replaced by the key's
 * stored text, itself resolved the same way.  The body of the placeholder, up to the first `}`,
 * is the key verbatim: no defaults, properties or ranges.  A missing key becomes the text
 * `{"$null_ref":"key"}`.  A key met again while it is being resolved becomes
 * `{"$circlular_ref":"key"}` (the source's spelling), so cycles end in text, not in an error.
 *
 * The per-request dictionary `local` is changed in two steps, which the model keeps apart:
 *  - while the regular expression is scanned (the `while` loop of `hydrateString`), each
 *    `hydrateKey` call takes the key: a known key hands back its current text, an unknown one
 *    is marked with its cycle marker at once and left pending;
 *  - when the stream is consumed, the pending keys are fetched and resolved in order, and each
 *    result is written back to `local`.
 * So a key repeated in one string is pending at its first place and sees its own marker at the
 * later ones.
 */
module Resolver {
  import opened Wrappers
  import opened Strings
  import Store
  import Reference

  /** `local`: each key's resolved text, or its cycle marker while it is being resolved. */
  type Local = map<string, string>

  /** A resolution's text (None when the fuel runs out, Err when the store refuses the read) and `local` after it. */
  type Outcome = (Option<Result<string, Store.StoreError>>, Local)

  /** The text `getKey` substitutes for a key the store does not hold (server.js:16). */
  function NullRef(key: string): string
  {
    "{\"$null_ref\":\"" + key + "\"}"
  }

  /** The marker `hydrateKey` leaves in `local` while a key is being resolved (server.js:42). */
  function CircularRef(key: string): string
  {
    "{\"$circlular_ref\":\"" + key + "\"}"
  }

  // ----- the regular expression /\${(.*?)}/g -----

  /**
   * `r.exec(string)` with `lastIndex` at `i`: where the leftmost match starts and where its
   * closing `}` stands; its group is the text between `${` and that brace.
   */
  function TagMatch(s: string, i: nat): (m: Option<(nat, nat)>)
    ensures m.Some? ==> i <= m.value.0 && m.value.0 + 2 <= m.value.1 < |s|
    decreases |s| - i
  {
    if i + 1 >= |s| then None
    else if s[i] == '$' && s[i + 1] == '{' && Reference.BodyEnd(s, i + 2).Some? then
      Some((i, Reference.BodyEnd(s, i + 2).value))
    else TagMatch(s, i + 1)
  }

  /** A match is `${`, then a group with no `}` and no line terminator, then `}`. */
  lemma {:induction false} TagMatchFacts(s: string, i: nat)
    ensures TagMatch(s, i).Some? ==>
      var (a, b) := TagMatch(s, i).value;
      s[a] == '$' && s[a + 1] == '{' && s[b] == '}' &&
      forall j :: a + 2 <= j < b ==> s[j] != '}' && !IsLineTerminator(s[j])
    decreases |s| - i
  {
    if i + 1 < |s| {
      if !(s[i] == '$' && s[i + 1] == '{' && Reference.BodyEnd(s, i + 2).Some?) {
        TagMatchFacts(s, i + 1);
      }
    }
  }

  /** The match is the one `removeRefTag` finds with the same expression: same place, same group. */
  lemma {:induction false} TagMatchIsRefTag(s: string, i: nat)
    ensures TagMatch(s, i).None? <==> Reference.MatchRefTag(s, i).None?
    ensures TagMatch(s, i).Some? ==>
      Reference.MatchRefTag(s, i) == Some(s[TagMatch(s, i).value.0 + 2..TagMatch(s, i).value.1])
    decreases |s| - i
  {
    if i + 1 < |s| && !(s[i] == '$' && s[i + 1] == '{' && Reference.BodyEnd(s, i + 2).Some?) {
      TagMatchIsRefTag(s, i + 1);
    }
  }

  /** Nothing matches in a string without `${`. */
  lemma {:induction false} NoOpenNoMatch(s: string, i: nat)
    requires !HasRefOpen(s)
    ensures TagMatch(s, i).None?
    decreases |s| - i
  {
    if i + 1 < |s| {
      NoOpenNoMatch(s, i + 1);
    }
  }

  /** What the loop of `hydrateString` cuts a string into: literal slices and the keys between them. */
  datatype Token = Lit(text: string) | Key(key: string)

  /** The slices and groups of the successive matches from `i` on; the last slice runs to the end. */
  function Tokens(s: string, i: nat): (ts: seq<Token>)
    requires i <= |s|
    decreases |s| - i
  {
    match TagMatch(s, i)
    case None => [Lit(s[i..])]
    case Some((a, b)) => [Lit(s[i..a]), Key(s[a + 2..b])] + Tokens(s, b + 1)
  }

  /** Literals and keys alternate, and a key holds no `}` and no line terminator (`.*?}`). */
  lemma {:induction false} TokensShape(s: string, i: nat)
    requires i <= |s|
    ensures Shaped(Tokens(s, i))
    decreases |s| - i
  {
    var m := TagMatch(s, i);
    if m.None? {
      TokensEnd(s, i);
      ShapeLast(Tokens(s, i), s[i..]);
    } else {
      var (a, b) := m.value;
      MatchedKeyChars(s, i, a, b);
      TokensShape(s, b + 1);
      TokensShapeStep(s, i, a, b);
    }
  }

  /** One match more: a slice and a clean group in front of a shaped rest. */
  lemma {:induction false} TokensShapeStep(s: string, i: nat, a: nat, b: nat)
    requires i <= |s| && TagMatch(s, i) == Some((a, b)) && b + 1 <= |s|
    requires Shaped(Tokens(s, b + 1))
    ensures Shaped(Tokens(s, i))
  {
    TokensStep(s, i, a, b);
    MatchedKeyChars(s, i, a, b);
    ShapeStep(Tokens(s, i), s[i..a], s[a + 2..b], Tokens(s, b + 1));
  }

  lemma {:induction false} MatchedKeyChars(s: string, i: nat, a: nat, b: nat)
    requires i <= |s| && TagMatch(s, i) == Some((a, b))
    ensures a + 2 <= b < |s| && KeyChars(s[a + 2..b])
  {
    TagMatchFacts(s, i);
    var m := TagMatch(s, i).value;
    assert m.0 == a && m.1 == b;
    GroupChars(s, a, b);
  }

  lemma {:induction false} ShapeLast(ts: seq<Token>, x: string)
    requires ts == [Lit(x)]
    ensures Shaped(ts)
  {
  }

  /** Slices and groups alternate, and every group is clean. */
  predicate Shaped(ts: seq<Token>)
  {
    Alternating(ts) && CleanKeys(ts)
  }

  /** A slice first and last, and slices and groups taking turns in between. */
  predicate Alternating(ts: seq<Token>)
  {
    && |ts| >= 1 && ts[0].Lit? && ts[|ts| - 1].Lit?
    && forall j :: 0 <= j < |ts| - 1 ==> (ts[j].Lit? <==> ts[j + 1].Key?)
  }

  predicate CleanKeys(ts: seq<Token>)
  {
    forall t :: t in ts && t.Key? ==> KeyChars(t.key)
  }

  /** What `.*?}` lets into a group. */
  predicate KeyChars(key: string)
  {
    forall c :: c in key ==> c != '}' && !IsLineTerminator(c)
  }

  lemma {:induction false} GroupChars(s: string, a: nat, b: nat)
    requires a + 2 <= b <= |s|
    requires forall j :: a + 2 <= j < b ==> s[j] != '}' && !IsLineTerminator(s[j])
    ensures KeyChars(s[a + 2..b])
  {
    var key := s[a + 2..b];
    forall c | c in key ensures c != '}' && !IsLineTerminator(c) {
      var j :| 0 <= j < |key| && key[j] == c;
      assert key[j] == s[a + 2 + j];
    }
  }

  lemma {:induction false} ShapeStep(ts: seq<Token>, pre: string, key: string, rest: seq<Token>)
    requires ts == [Lit(pre), Key(key)] + rest
    requires Shaped(rest) && KeyChars(key)
    ensures Shaped(ts)
  {
    assert ts[|ts| - 1] == rest[|rest| - 1];
    forall j | 1 <= j < |ts| - 1 ensures (ts[j].Lit? <==> ts[j + 1].Key?) {
      assert ts[j + 1] == rest[j - 1];
      if j >= 2 {
        assert ts[j] == rest[j - 2];
      }
    }
    assert forall t :: t in ts ==> t == Lit(pre) || t == Key(key) || t in rest;
  }

  /** The text the tokens were cut from: each key written back as `${key}`. */
  function Unparse(ts: seq<Token>): string
  {
    if |ts| == 0 then ""
    else
      match ts[0]
      case Lit(t) => t + Unparse(ts[1..])
      case Key(k) => "${" + k + "}" + Unparse(ts[1..])
  }

  /** Cutting loses nothing: the slices and the placeholders give back the string. */
  lemma {:induction false} TokensRoundTrip(s: string, i: nat)
    requires i <= |s|
    ensures Unparse(Tokens(s, i)) == s[i..]
    decreases |s| - i
  {
    match TagMatch(s, i)
    case None =>
    case Some((a, b)) =>
      MatchedKeyChars(s, i, a, b);
      TokensRoundTrip(s, b + 1);
      RoundTripStep(s, i, a, b);
  }

  /** One match more: its slice and placeholder in front of a rest that gives back the rest. */
  lemma {:induction false} RoundTripStep(s: string, i: nat, a: nat, b: nat)
    requires i <= |s| && TagMatch(s, i) == Some((a, b)) && b + 1 <= |s|
    requires Unparse(Tokens(s, b + 1)) == s[b + 1..]
    ensures Unparse(Tokens(s, i)) == s[i..]
  {
    TokensStep(s, i, a, b);
    UnparseStep(s[i..a], s[a + 2..b], Tokens(s, b + 1));
    TagMatchFacts(s, i);
    MatchSlices(s, i, a, b);
  }

  lemma {:induction false} UnparseStep(pre: string, key: string, rest: seq<Token>)
    ensures Unparse([Lit(pre), Key(key)] + rest) == pre + ("${" + key + "}" + Unparse(rest))
  {
    var ts := [Lit(pre), Key(key)] + rest;
    assert ts[1..] == [Key(key)] + rest && ts[1..][1..] == rest;
  }

  lemma {:induction false} MatchSlices(s: string, i: nat, a: nat, b: nat)
    requires i <= a && a + 2 <= b < |s| && s[a] == '$' && s[a + 1] == '{' && s[b] == '}'
    ensures s[i..] == s[i..a] + ("${" + s[a + 2..b] + "}" + s[b + 1..])
  {
    assert s[a..b + 1] == "${" + s[a + 2..b] + "}";
    assert s[i..] == s[i..a] + s[a..b + 1] + s[b + 1..];
  }

  // ----- the two passes -----

  /** What a `hydrateKey` call hands to the stream: text known now, or a key to resolve later. */
  datatype Part = Ready(text: string) | Pending(key: string)

  /** `hydrateKey` at call time (server.js:38-43): a known key's text, or the key marked as in progress. */
  function Claim(local: Local, key: string): (c: (Part, Local))
    ensures c.0.Pending? <==> key !in local
  {
    if key in local then (Ready(local[key]), local)
    else (Pending(key), local[key := CircularRef(key)])
  }

  /**
   * The scanning loop (server.js:26-33): literal slices are ready; each key is claimed in turn,
   * the dictionary carried from one claim to the next.  Entries already in `local` stay as they
   * are, and only keys `local` lacked can be pending.
   */
  function ClaimAll(local: Local, ts: seq<Token>): (c: (seq<Part>, Local))
    ensures |c.0| == |ts|
    ensures forall k :: k in local ==> k in c.1 && c.1[k] == local[k]
    ensures forall p :: p in c.0 && p.Pending? ==> p.key !in local
    decreases |ts|
  {
    if |ts| == 0 then ([], local)
    else
      var c := if ts[0].Lit? then (Ready(ts[0].text), local) else Claim(local, ts[0].key);
      var rest := ClaimAll(c.1, ts[1..]);
      ([c.0] + rest.0, rest.1)
  }

  /**
   * Where each part comes from, place by place: a literal is ready; a key `local` holds is ready
   * with its text; the first place of any other key is pending, and its later places are ready
   * with the marker the first claim left.
   */
  function Expected(local: Local, ts: seq<Token>, j: nat): Part
    requires j < |ts|
  {
    match ts[j]
    case Lit(t) => Ready(t)
    case Key(k) =>
      if k in local then Ready(local[k])
      else if Key(k) in ts[..j] then Ready(CircularRef(k))
      else Pending(k)
  }

  lemma {:induction false} ClaimedParts(local: Local, ts: seq<Token>)
    ensures forall j :: 0 <= j < |ts| ==> ClaimAll(local, ts).0[j] == Expected(local, ts, j)
    decreases |ts|
  {
    if |ts| > 0 {
      var l := if ts[0].Lit? then local else Claim(local, ts[0].key).1;
      ClaimedParts(l, ts[1..]);
      forall j | 1 <= j < |ts| ensures ClaimAll(local, ts).0[j] == Expected(local, ts, j) {
        assert ts[1..][j - 1] == ts[j];
        assert ts[..j] == [ts[0]] + ts[1..][..j - 1];
      }
    }
  }

  /** After the scan, `local` holds its old entries and a marker for every new key of the string. */
  lemma {:induction false} ClaimedLocal(local: Local, ts: seq<Token>)
    ensures forall k :: k in ClaimAll(local, ts).1 <==> k in local || Key(k) in ts
    ensures forall k :: k in ClaimAll(local, ts).1 ==>
      ClaimAll(local, ts).1[k] == if k in local then local[k] else CircularRef(k)
    decreases |ts|
  {
    if |ts| > 0 {
      var l := if ts[0].Lit? then local else Claim(local, ts[0].key).1;
      ClaimedLocal(l, ts[1..]);
      assert forall t :: t in ts <==> t == ts[0] || t in ts[1..];
    }
  }

  /** `getKey` (server.js:13-17): the stored string, the null marker when absent, WRONGTYPE for a set. */
  function GetKey(db: Store.Db, key: string): (r: Result<string, Store.StoreError>)
    ensures r.Err? <==> Store.Get(db, key).Err?
    ensures key !in db ==> r == Ok(NullRef(key))
    ensures forall v :: Store.Get(db, key) == Ok(Some(v)) ==> r == Ok(v)
  {
    match Store.Get(db, key)
    case Err(e) => Err(e)
    case Ok(None) => Ok(NullRef(key))
    case Ok(Some(v)) => Ok(v)
  }

  /** Text put in front of a resolution that succeeded; a failure is passed on unchanged. */
  function Prepend(t: string, o: Outcome): Outcome
  {
    match o.0
    case Some(Ok(u)) => (Some(Ok(t + u)), o.1)
    case _ => o
  }

  /**
   * `hydrateString` (server.js:23-37): scan the string, claiming its keys, then consume the parts
   * in order and join them.  Each level of nesting costs one unit of fuel.
   */
  function Hydrate(db: Store.Db, local: Local, s: string, fuel: nat): (o: Outcome)
    ensures local.Keys <= o.1.Keys
    ensures forall k :: k in local ==> o.1[k] == local[k]
    decreases fuel, 1
  {
    if fuel == 0 then (None, local)
    else
      var (parts, l) := ClaimAll(local, Tokens(s, 0));
      assert forall k :: k in local ==> Pending(k) !in parts;
      Settle(db, l, parts, fuel - 1)
  }

  /** `.sequence().reduce1(R.add)`: the parts consumed in order, the first failure ending it. */
  function Settle(db: Store.Db, local: Local, parts: seq<Part>, fuel: nat): (o: Outcome)
    ensures local.Keys <= o.1.Keys
    ensures forall k :: k in local && Pending(k) !in parts ==> o.1[k] == local[k]
    decreases fuel, 3, |parts|
  {
    if |parts| == 0 then (Some(Ok("")), local)
    else
      assert forall p :: p in parts[1..] ==> p in parts;
      match parts[0]
      case Ready(t) => Prepend(t, Settle(db, local, parts[1..], fuel))
      case Pending(k) =>
        var (r, l) := Resolve(db, local, k, fuel);
        if r.Some? && r.value.Ok? then Prepend(r.value.value, Settle(db, l, parts[1..], fuel))
        else (r, l)
  }

  /**
   * The deferred half of `hydrateKey` (server.js:43-47): fetch the key, hydrate its text and
   * record the result in `local`; no other entry already there is changed.
   */
  function Resolve(db: Store.Db, local: Local, key: string, fuel: nat): (o: Outcome)
    ensures local.Keys <= o.1.Keys
    ensures forall k :: k in local && k != key ==> o.1[k] == local[k]
    ensures o.0.Some? && o.0.value.Ok? ==> key in o.1 && o.1[key] == o.0.value.value
    ensures !(o.0.Some? && o.0.value.Ok?) && key in local ==> o.1[key] == local[key]
    decreases fuel, 2
  {
    match GetKey(db, key)
    case Err(e) => (Some(Err(e)), local)
    case Ok(v) =>
      var (r, l) := Hydrate(db, local, v, fuel);
      if r.Some? && r.value.Ok? then (r, l[key := r.value.value]) else (r, l)
  }

  /**
   * `hydrateKey` (server.js:38-49): a key already in `local` is answered from it without a store
   * read; any other key is marked, resolved and then holds its text (its marker still, when the
   * resolution failed).
   */
  function HydrateKey(db: Store.Db, local: Local, key: string, fuel: nat): (o: Outcome)
    ensures key in local ==> o == (Some(Ok(local[key])), local)
    ensures key in o.1 && local.Keys <= o.1.Keys
    ensures forall k :: k in local ==> o.1[k] == local[k]
    ensures key !in local && o.0.Some? && o.0.value.Ok? ==> o.1[key] == o.0.value.value
    ensures key !in local && !(o.0.Some? && o.0.value.Ok?) ==> o.1[key] == CircularRef(key)
  {
    if key in local then (Some(Ok(local[key])), local)
    else Resolve(db, local[key := CircularRef(key)], key, fuel)
  }

  // ----- properties -----

  /** The text a string hydrates to when `local` already holds all its keys. */
  function Fill(ts: seq<Token>, local: Local): string
    requires forall t :: t in ts && t.Key? ==> t.key in local
  {
    if |ts| == 0 then ""
    else
      assert ts[0] in ts;
      (match ts[0] case Lit(t) => t case Key(k) => local[k]) + Fill(ts[1..], local)
  }

  /**
   * When `local` already holds every key of the string, nothing is fetched and nothing changes:
   * the literal slices are kept in order and each placeholder is replaced by its key's text.
   */
  lemma {:induction false} KnownKeysFilled(db: Store.Db, local: Local, s: string, fuel: nat)
    requires forall t :: t in Tokens(s, 0) && t.Key? ==> t.key in local
    ensures Hydrate(db, local, s, fuel + 1) == (Some(Ok(Fill(Tokens(s, 0), local))), local)
  {
    var ts := Tokens(s, 0);
    ClaimedParts(local, ts);
    ClaimedLocal(local, ts);
    var c := ClaimAll(local, ts);
    assert c.1 == local;
    forall j | 0 <= j < |ts| ensures c.0[j] == Ready(TextOf(ts[j], local)) {
      assert ts[j] in ts;
    }
    SettleKnown(db, local, ts, c.0, fuel);
  }

  function TextOf(t: Token, local: Local): string
    requires t.Key? ==> t.key in local
  {
    match t
    case Lit(x) => x
    case Key(k) => local[k]
  }

  lemma {:induction false} SettleKnown(db: Store.Db, local: Local, ts: seq<Token>, parts: seq<Part>, fuel: nat)
    requires forall t :: t in ts && t.Key? ==> t.key in local
    requires |parts| == |ts|
    requires forall j :: 0 <= j < |ts| ==> parts[j] == Ready(TextOf(ts[j], local))
    ensures Settle(db, local, parts, fuel) == (Some(Ok(Fill(ts, local))), local)
  {
    if |ts| > 0 {
      assert forall t :: t in ts[1..] ==> t in ts;
      assert ts[0] in ts;
      SettleKnown(db, local, ts[1..], parts[1..], fuel);
    }
  }

  /** A string in which nothing matches comes back as it is. */
  lemma {:induction false} NoPlaceholder(db: Store.Db, local: Local, s: string, fuel: nat)
    requires TagMatch(s, 0).None?
    ensures Hydrate(db, local, s, fuel + 1) == (Some(Ok(s)), local)
  {
    assert s[0..] == s;
    assert Tokens(s, 0) == [Lit(s)];
    KnownKeysFilled(db, local, s, fuel);
    assert [Lit(s)][1..] == [];
    assert Fill([Lit(s)], local) == s + "" == s;
  }

  /** The two markers hold no `${` when the key holds no `$`, so they come back unchanged. */
  lemma {:induction false} MarkersInert(key: string)
    requires '$' !in key
    ensures TagMatch(NullRef(key), 0).None? && TagMatch(CircularRef(key), 0).None?
  {
    Wrapped("{\"$null_ref\":\"", key, "\"}");
    Wrapped("{\"$circlular_ref\":\"", key, "\"}");
    NoOpenNoMatch(NullRef(key), 0);
    NoOpenNoMatch(CircularRef(key), 0);
  }

  lemma {:induction false} Wrapped(pre: string, key: string, post: string)
    requires |pre| >= 4 && pre[2] == '$' && pre[3] != '{'
    requires forall j :: 0 <= j < |pre| && j != 2 ==> pre[j] != '$'
    requires '$' !in key && '$' !in post
    ensures !HasRefOpen(pre + key + post)
  {
    var x := pre + key + post;
    forall i | 0 <= i < |x| - 1 ensures x[i] != '$' || x[i + 1] != '{' {
      if i == 2 {
        assert x[i + 1] == pre[3];
      } else if i < |pre| {
        assert x[i] == pre[i];
      } else if i < |pre| + |key| {
        assert x[i] == key[i - |pre|] && key[i - |pre|] in key;
      } else {
        assert x[i] == post[i - |pre| - |key|] && post[i - |pre| - |key|] in post;
      }
    }
  }

  /**
   * A key the store does not hold resolves to `{"$null_ref":"key"}`, which is also what `local`
   * keeps for it (server.js:13-17).
   */
  lemma {:induction false} MissingKey(db: Store.Db, local: Local, key: string, fuel: nat)
    requires key !in local && key !in db && '$' !in key
    ensures HydrateKey(db, local, key, fuel + 1) == (Some(Ok(NullRef(key))), local[key := NullRef(key)])
  {
    var marked := local[key := CircularRef(key)];
    MarkersInert(key);
    NoPlaceholder(db, marked, NullRef(key), fuel);
    assert marked[key := NullRef(key)] == local[key := NullRef(key)];
  }

  /** `${key}` stands at `i`: the expression matches there, with the key as its group. */
  lemma {:induction false} TagMatchHere(s: string, i: nat, key: string)
    requires KeyChars(key) && i + |key| + 3 <= |s| && s[i..i + |key| + 3] == Placeholder(key)
    ensures TagMatch(s, i) == Some((i, i + |key| + 2)) && s[i + 2..i + |key| + 2] == key
  {
    var e := i + |key| + 2;
    var tag := s[i..i + |key| + 3];
    forall j | 0 <= j < |key| ensures s[i + 2 + j] == key[j] {
      assert s[i + 2 + j] == tag[j + 2];
    }
    forall j | i + 2 <= j < e ensures s[j] != '}' && !IsLineTerminator(s[j]) {
      assert s[j] == key[j - i - 2];
      assert key[j - i - 2] in key;
    }
    assert s[e] == tag[|key| + 2];
    assert s[i] == tag[0] && s[i + 1] == tag[1];
    BodyEndAt(s, i + 2, e);
    assert s[i + 2..e] == key;
  }

  lemma {:induction false} BodyEndAt(s: string, k: nat, e: nat)
    requires k <= e < |s| && s[e] == '}'
    requires forall j :: k <= j < e ==> s[j] != '}' && !IsLineTerminator(s[j])
    ensures Reference.BodyEnd(s, k) == Some(e)
    decreases e - k
  {
    if k < e {
      BodyEndAt(s, k + 1, e);
    }
  }

  /** A placeholder for `key`, as the expression matches it. */
  function Placeholder(key: string): string
  {
    "${" + key + "}"
  }

  /** The string `${key}` is one placeholder between two empty slices. */
  lemma {:induction false} OnePlaceholder(key: string)
    requires KeyChars(key)
    ensures Tokens(Placeholder(key), 0) == [Lit(""), Key(key), Lit("")]
  {
    var s := Placeholder(key);
    assert s[0..|key| + 3] == s;
    TagMatchHere(s, 0, key);
    assert s[|s|..] == [] && s[0..0] == [];
    assert Tokens(s, |s|) == [Lit("")];
  }

  lemma {:induction false} FillOneKey(key: string, local: Local)
    requires key in local
    ensures Fill([Lit(""), Key(key), Lit("")], local) == local[key]
  {
    var ts := [Lit(""), Key(key), Lit("")];
    assert ts[1..] == [Key(key), Lit("")] && ts[1..][1..] == [Lit("")] && ts[1..][1..][1..] == [];
    assert Fill([Lit("")], local) == "";
    assert Fill([Key(key), Lit("")], local) == local[key] + "" == local[key];
    assert Fill(ts, local) == "" + local[key];
  }

  /**
   * A key whose text is `${key}` resolves to its own cycle marker: the second visit finds the
   * marker the first one left in `local` (server.js:39-42).
   */
  lemma {:induction false} SelfReference(db: Store.Db, local: Local, key: string, fuel: nat)
    requires key !in local && key in db && db[key] == Store.Scalar(Placeholder(key)) && KeyChars(key)
    ensures HydrateKey(db, local, key, fuel + 1) == (Some(Ok(CircularRef(key))), local[key := CircularRef(key)])
  {
    var marked := local[key := CircularRef(key)];
    OnePlaceholder(key);
    var ts := [Lit(""), Key(key), Lit("")];
    assert forall t :: t in ts && t.Key? ==> t.key in marked;
    KnownKeysFilled(db, marked, Placeholder(key), fuel);
    FillOneKey(key, marked);
    assert marked[key := CircularRef(key)] == marked;
  }

  /**
   * A key written twice in one string is fetched once: its first place gets the key's text and
   * its second the cycle marker, since both `hydrateKey` calls run before the first result is
   * consumed (server.js:27-30).
   */
  lemma {:induction false} SiblingRepeat(db: Store.Db, local: Local, key: string, v: string, fuel: nat)
    requires key !in local && key in db && db[key] == Store.Scalar(v) && KeyChars(key)
    requires TagMatch(v, 0).None?
    ensures Hydrate(db, local, Placeholder(key) + Placeholder(key), fuel + 2) ==
      (Some(Ok(v + CircularRef(key))), local[key := v])
  {
    var s := Placeholder(key) + Placeholder(key);
    var marked := local[key := CircularRef(key)];
    var parts := [Ready(""), Pending(key), Ready(""), Ready(CircularRef(key)), Ready("")];
    SiblingClaims(local, key);
    HydrateClaimed(db, local, s, fuel + 2, parts, marked);
    SiblingSettle(db, marked, key, v, fuel);
    Overwritten(local, key, CircularRef(key), v);
  }

  lemma {:induction false} Overwritten(local: Local, key: string, a: string, b: string)
    ensures local[key := a][key := b] == local[key := b]
  {
  }

  /** A request's string once its keys are claimed: the parts consumed in order. */
  lemma {:induction false} HydrateClaimed(db: Store.Db, local: Local, s: string, fuel: nat, parts: seq<Part>, l: Local)
    requires fuel > 0 && ClaimAll(local, Tokens(s, 0)) == (parts, l)
    ensures Hydrate(db, local, s, fuel) == Settle(db, l, parts, fuel - 1)
  {
  }

  /** Consuming those parts: the key is fetched once, then the marker and the empty slices follow. */
  lemma {:induction false} SiblingSettle(db: Store.Db, marked: Local, key: string, v: string, fuel: nat)
    requires key in db && db[key] == Store.Scalar(v) && TagMatch(v, 0).None?
    ensures Settle(db, marked, [Ready(""), Pending(key), Ready(""), Ready(CircularRef(key)), Ready("")], fuel + 1) ==
      (Some(Ok(v + CircularRef(key))), marked[key := v])
  {
    var parts := [Ready(""), Pending(key), Ready(""), Ready(CircularRef(key)), Ready("")];
    NoPlaceholder(db, marked, v, fuel);
    var after := marked[key := v];
    assert Resolve(db, marked, key, fuel + 1) == (Some(Ok(v)), after);
    var tail := [Ready(""), Ready(CircularRef(key)), Ready("")];
    SettleReady(db, after, tail, fuel + 1);
    ConcatMarker(CircularRef(key));
    assert parts[1..] == [Pending(key)] + tail && ([Pending(key)] + tail)[1..] == tail;
    assert Settle(db, marked, parts[1..], fuel + 1) == (Some(Ok(v + CircularRef(key))), after);
    assert "" + (v + CircularRef(key)) == v + CircularRef(key);
  }

  lemma {:induction false} ConcatMarker(m: string)
    ensures Concat([Ready(""), Ready(m), Ready("")]) == m
  {
    var tail := [Ready(""), Ready(m), Ready("")];
    assert tail[1..] == [Ready(m), Ready("")] && tail[1..][1..] == [Ready("")] && tail[1..][1..][1..] == [];
    assert Concat([Ready("")]) == "";
    assert Concat([Ready(m), Ready("")]) == m + "" == m;
    assert Concat(tail) == "" + m;
  }

  /** The scan of `${key}${key}` when `local` lacks the key: pending first, the marker second. */
  lemma {:induction false} SiblingClaims(local: Local, key: string)
    requires key !in local && KeyChars(key)
    ensures ClaimAll(local, Tokens(Placeholder(key) + Placeholder(key), 0)) ==
      ([Ready(""), Pending(key), Ready(""), Ready(CircularRef(key)), Ready("")], local[key := CircularRef(key)])
  {
    var marked := local[key := CircularRef(key)];
    TwoPlaceholders(key);
    var ts := [Lit(""), Key(key), Lit(""), Key(key), Lit("")];
    var mid := [Lit(""), Key(key), Lit("")];
    SiblingTokenShapes(key);
    assert Claim(local, key) == (Pending(key), marked);
    assert Claim(marked, key) == (Ready(CircularRef(key)), marked);
    ClaimLast(marked, "");
    ClaimStep(marked, "", key, [Lit("")]);
    var second := ClaimAll(marked, mid);
    assert second == ([Ready(""), Ready(CircularRef(key))] + [Ready("")], marked);
    ClaimStep(local, "", key, mid);
    var parts := [Ready(""), Pending(key), Ready(""), Ready(CircularRef(key)), Ready("")];
    assert ClaimAll(local, ts) == ([Ready(""), Pending(key)] + second.0, second.1);
    SiblingPartShapes(key, CircularRef(key));
  }

  lemma {:induction false} SiblingTokenShapes(key: string)
    ensures [Lit(""), Key(key), Lit(""), Key(key), Lit("")] == [Lit(""), Key(key)] + [Lit(""), Key(key), Lit("")]
    ensures [Lit(""), Key(key), Lit("")] == [Lit(""), Key(key)] + [Lit("")]
  {
  }

  lemma {:induction false} SiblingPartShapes(key: string, m: string)
    ensures [Ready(""), Pending(key)] + ([Ready(""), Ready(m)] + [Ready("")])
      == [Ready(""), Pending(key), Ready(""), Ready(m), Ready("")]
  {
  }

  lemma {:induction false} TwoPlaceholders(key: string)
    requires KeyChars(key)
    ensures Tokens(Placeholder(key) + Placeholder(key), 0) == [Lit(""), Key(key), Lit(""), Key(key), Lit("")]
  {
    var s := Placeholder(key) + Placeholder(key);
    FirstOfTwo(key);
    SecondOfTwo(key);
    PairOfKeys(Tokens(s, 0), Tokens(s, |key| + 3), key);
  }

  lemma {:induction false} PairOfKeys(ts: seq<Token>, rest: seq<Token>, key: string)
    requires ts == [Lit(""), Key(key)] + rest && rest == [Lit(""), Key(key), Lit("")]
    ensures ts == [Lit(""), Key(key), Lit(""), Key(key), Lit("")]
  {
  }

  lemma {:induction false} FirstOfTwo(key: string)
    requires KeyChars(key)
    ensures var s := Placeholder(key) + Placeholder(key);
      |key| + 3 <= |s| && Tokens(s, 0) == [Lit(""), Key(key)] + Tokens(s, |key| + 3)
  {
    var tag := Placeholder(key);
    var s := tag + tag;
    assert s[0..|key| + 3] == tag;
    LeadingPlaceholder(s, key);
  }

  /** A string opening with `${key}`: an empty slice, the key, then the scan of the rest. */
  lemma {:induction false} LeadingPlaceholder(s: string, key: string)
    requires KeyChars(key) && |key| + 3 <= |s| && s[0..|key| + 3] == Placeholder(key)
    ensures Tokens(s, 0) == [Lit(""), Key(key)] + Tokens(s, |key| + 3)
  {
    TagMatchHere(s, 0, key);
    TokensStep(s, 0, 0, |key| + 2);
    assert s[0..0] == [];
  }

  lemma {:induction false} SecondOfTwo(key: string)
    requires KeyChars(key)
    ensures var s := Placeholder(key) + Placeholder(key);
      |key| + 3 <= |s| && Tokens(s, |key| + 3) == [Lit(""), Key(key), Lit("")]
  {
    var tag := Placeholder(key);
    var s := tag + tag;
    var i := |key| + 3;
    var b := i + |key| + 2;
    assert |s| == b + 1;
    assert s[i..i + |key| + 3] == tag;
    TagMatchHere(s, i, key);
    TokensStep(s, i, i, b);
    TokensEnd(s, b + 1);
    var first := Tokens(s, i);
    var rest := Tokens(s, b + 1);
    assert s[b + 1..] == [] && s[i..i] == [];
    LitKeyLit(first, rest, s[i..i], s[i + 2..b], s[b + 1..], key);
  }

  lemma {:induction false} LitKeyLit(ts: seq<Token>, rest: seq<Token>, x: string, y: string, z: string, key: string)
    requires ts == [Lit(x), Key(y)] + rest && rest == [Lit(z)]
    requires x == [] && y == key && z == []
    ensures ts == [Lit(""), Key(key), Lit("")]
  {
  }

  /** The joined texts of parts that are all ready. */
  function Concat(parts: seq<Part>): string
    requires forall p :: p in parts ==> p.Ready?
  {
    if |parts| == 0 then "" else parts[0].text + Concat(parts[1..])
  }

  lemma {:induction false} SettleReady(db: Store.Db, local: Local, parts: seq<Part>, fuel: nat)
    requires forall p :: p in parts ==> p.Ready?
    ensures Settle(db, local, parts, fuel) == (Some(Ok(Concat(parts))), local)
  {
    if |parts| > 0 {
      assert parts[0] in parts;
      assert forall p :: p in parts[1..] ==> p in parts;
      SettleReady(db, local, parts[1..], fuel);
    }
  }

  // ----- the request: `local` updated in place -----

  /** One resolution request and its dictionary `local`, which `hydrateKey` writes in place. */
  class Request {
    var local: Local

    /** The server answers each request with a fresh, empty `local` (server.js:53). */
    constructor ()
      ensures local == map[]
    {
      local := map[];
    }

    /** The call-time half of `hydrateKey` (server.js:38-43). */
    method Visit(key: string) returns (p: Part)
      modifies this
      ensures (p, local) == Claim(old(local), key)
    {
      if key in local {
        p := Ready(local[key]);
      } else {
        local := local[key := CircularRef(key)];
        p := Pending(key);
      }
    }

    /** The loop of `hydrateString` (server.js:26-33): slices and claimed keys, left to right. */
    method Scan(s: string) returns (parts: seq<Part>)
      modifies this
      ensures (parts, local) == ClaimAll(old(local), Tokens(s, 0))
    {
      ghost var whole := ClaimAll(local, Tokens(s, 0));
      parts := [];
      var i := 0;
      var m := TagMatch(s, i);
      assert parts + whole.0 == whole.0;
      while m.Some?
        invariant i <= |s| && m == TagMatch(s, i)
        invariant Scanned(whole, s, parts, local, i)
        decreases |s| - i
      {
        var (a, b) := m.value;
        var key := s[a + 2..b];
        ghost var c := Claim(local, key);
        ScanAdvance(whole, s, parts, local, i, a, b, c);
        var p := Visit(key);
        assert (p, local) == c;
        parts := parts + [Ready(s[i..a]), p];
        i := b + 1;
        m := TagMatch(s, i);
      }
      ScanEnd(whole, s, parts, local, i);
      parts := parts + [Ready(s[i..])];
    }

    /** `.sequence().reduce1(R.add)` (server.js:35-36): the parts consumed in order and joined. */
    method SettleAll(db: Store.MemoryStore, parts: seq<Part>, fuel: nat) returns (r: Option<Result<string, Store.StoreError>>)
      modifies this
      ensures (r, local) == Settle(db.store, old(local), parts, fuel)
      decreases fuel, 3, |parts|
    {
      ghost var start := local;
      var text := "";
      var j := 0;
      assert parts[j..] == parts;
      PrependEmpty(Settle(db.store, local, parts, fuel));
      while j < |parts|
        invariant j <= |parts|
        invariant Settle(db.store, start, parts, fuel) == Prepend(text, Settle(db.store, local, parts[j..], fuel))
        decreases |parts| - j
      {
        match parts[j] {
          case Ready(t) =>
            SettleReadyStep(db.store, local, parts, j, fuel);
            PrependTwice(text, t, Settle(db.store, local, parts[j + 1..], fuel));
            text := text + t;
          case Pending(k) =>
            ghost var before := local;
            var h := ResolveKey(db, k, fuel);
            SettlePendingStep(db.store, before, parts, j, fuel, h, local);
            if h.Some? && h.value.Ok? {
              PrependTwice(text, h.value.value, Settle(db.store, local, parts[j + 1..], fuel));
              text := text + h.value.value;
            } else {
              PrependFailure(text, (h, local));
              r := h;
              return;
            }
        }
        j := j + 1;
      }
      assert parts[j..] == [];
      assert text + "" == text;
      r := Some(Ok(text));
    }

    /** The deferred half of `hydrateKey` (server.js:43-47). */
    method ResolveKey(db: Store.MemoryStore, key: string, fuel: nat) returns (r: Option<Result<string, Store.StoreError>>)
      modifies this
      ensures (r, local) == Resolve(db.store, old(local), key, fuel)
      decreases fuel, 2
    {
      var got := db.GetKey(key);
      var v;
      match got {
        case Err(e) =>
          assert e.WrongType?;
          assert GetKey(db.store, key) == Err(e);
          r := Some(Err(e));
          return;
        case Ok(None) =>
          v := NullRef(key);
        case Ok(Some(x)) =>
          v := x;
      }
      r := HydrateString(db, v, fuel);
      if r.Some? && r.value.Ok? {
        local := local[key := r.value.value];
      }
    }

    /** `hydrateString` (server.js:23-37). */
    method HydrateString(db: Store.MemoryStore, s: string, fuel: nat) returns (r: Option<Result<string, Store.StoreError>>)
      modifies this
      ensures (r, local) == Hydrate(db.store, old(local), s, fuel)
      decreases fuel, 1
    {
      if fuel == 0 {
        r := None;
      } else {
        var parts := Scan(s);
        r := SettleAll(db, parts, fuel - 1);
      }
    }

    /** `hydrateKey` (server.js:38-49), the entry point of a request. */
    method Lookup(db: Store.MemoryStore, key: string, fuel: nat) returns (r: Option<Result<string, Store.StoreError>>)
      modifies this
      ensures (r, local) == HydrateKey(db.store, old(local), key, fuel)
    {
      if key in local {
        r := Some(Ok(local[key]));
      } else {
        local := local[key := CircularRef(key)];
        r := ResolveKey(db, key, fuel);
      }
    }
  }

  /** The scan so far: the parts collected, followed by what the rest of the string yields, are the whole. */
  ghost predicate Scanned(whole: (seq<Part>, Local), s: string, parts: seq<Part>, local: Local, i: nat)
    requires i <= |s|
  {
    var rest := ClaimAll(local, Tokens(s, i));
    whole == (parts + rest.0, rest.1)
  }

  lemma {:induction false} ScanAdvance(whole: (seq<Part>, Local), s: string, parts: seq<Part>, local: Local, i: nat, a: nat, b: nat, c: (Part, Local))
    requires i <= |s| && TagMatch(s, i) == Some((a, b)) && Scanned(whole, s, parts, local, i)
    requires c == Claim(local, s[a + 2..b])
    ensures b + 1 <= |s| && Scanned(whole, s, parts + [Ready(s[i..a]), c.0], c.1, b + 1)
  {
    var key := s[a + 2..b];
    TokensStep(s, i, a, b);
    ClaimStep(local, s[i..a], key, Tokens(s, b + 1));
    var c := Claim(local, key);
    var tail := ClaimAll(c.1, Tokens(s, b + 1));
    assert parts + ([Ready(s[i..a]), c.0] + tail.0) == (parts + [Ready(s[i..a]), c.0]) + tail.0;
  }

  lemma {:induction false} TokensStep(s: string, i: nat, a: nat, b: nat)
    requires i <= |s| && TagMatch(s, i) == Some((a, b))
    ensures a + 2 <= b < |s| && Tokens(s, i) == [Lit(s[i..a]), Key(s[a + 2..b])] + Tokens(s, b + 1)
  {
  }

  lemma {:induction false} TokensEnd(s: string, i: nat)
    requires i <= |s| && TagMatch(s, i).None?
    ensures Tokens(s, i) == [Lit(s[i..])]
  {
  }

  lemma {:induction false} ScanEnd(whole: (seq<Part>, Local), s: string, parts: seq<Part>, local: Local, i: nat)
    requires i <= |s| && TagMatch(s, i).None? && Scanned(whole, s, parts, local, i)
    ensures whole == (parts + [Ready(s[i..])], local)
  {
    assert Tokens(s, i) == [Lit(s[i..])];
    ClaimLast(local, s[i..]);
  }

  lemma {:induction false} ClaimLast(local: Local, x: string)
    ensures ClaimAll(local, [Lit(x)]) == ([Ready(x)], local)
  {
    var ts := [Lit(x)];
    assert ts[1..] == [];
    var rest := ClaimAll(local, ts[1..]);
    assert rest == ([], local);
    assert [Ready(x)] + rest.0 == [Ready(x)];
  }

  lemma {:induction false} ClaimStep(local: Local, pre: string, key: string, rest: seq<Token>)
    ensures var c := Claim(local, key);
      ClaimAll(local, [Lit(pre), Key(key)] + rest) ==
        ([Ready(pre), c.0] + ClaimAll(c.1, rest).0, ClaimAll(c.1, rest).1)
  {
    var ts := [Lit(pre), Key(key)] + rest;
    assert ts[1..] == [Key(key)] + rest && ts[1..][1..] == rest;
    var c := Claim(local, key);
    var tail := ClaimAll(c.1, rest);
    assert ClaimAll(local, ts[1..]) == ([c.0] + tail.0, tail.1);
    assert ClaimAll(local, ts) == ([Ready(pre)] + ([c.0] + tail.0), tail.1);
    assert [Ready(pre)] + ([c.0] + tail.0) == [Ready(pre), c.0] + tail.0;
  }

  lemma {:induction false} PrependEmpty(o: Outcome)
    ensures Prepend("", o) == o
  {
    match o.0
    case Some(Ok(u)) =>
      assert "" + u == u;
    case _ =>
  }

  lemma {:induction false} SettleReadyStep(db: Store.Db, local: Local, parts: seq<Part>, j: nat, fuel: nat)
    requires j < |parts| && parts[j].Ready?
    ensures Settle(db, local, parts[j..], fuel) == Prepend(parts[j].text, Settle(db, local, parts[j + 1..], fuel))
  {
    assert parts[j..][1..] == parts[j + 1..];
  }

  lemma {:induction false} SettlePendingStep(db: Store.Db, local: Local, parts: seq<Part>, j: nat, fuel: nat, h: Option<Result<string, Store.StoreError>>, l: Local)
    requires j < |parts| && parts[j].Pending? && (h, l) == Resolve(db, local, parts[j].key, fuel)
    ensures h.Some? && h.value.Ok? ==>
      Settle(db, local, parts[j..], fuel) == Prepend(h.value.value, Settle(db, l, parts[j + 1..], fuel))
    ensures !(h.Some? && h.value.Ok?) ==> Settle(db, local, parts[j..], fuel) == (h, l)
  {
    assert parts[j..][1..] == parts[j + 1..];
  }

  lemma {:induction false} PrependFailure(t: string, o: Outcome)
    requires !(o.0.Some? && o.0.value.Ok?)
    ensures Prepend(t, o) == o
  {
  }

  lemma {:induction false} PrependTwice(a: string, b: string, o: Outcome)
    ensures Prepend(a, Prepend(b, o)) == Prepend(a + b, o)
  {
    match o.0
    case Some(Ok(u)) =>
      assert a + (b + u) == (a + b) + u;
    case _ =>
  }
}
