/**
 * The client facade of ps-direct-sdk/index.js: `put`, `putObject`, `del`, `add`, `rem` and
 * `get` over one store.  The store is the model of `Store` (a value `Store.Db` here, each call
 * answering with its reply and the store it leaves); `get` runs the production engine of
 * `Hydrate` on the one reference `${key}` with a fresh memo object and parses its result.
 * `del` and `add` are the store's own `delKey` and `addToKey` (`Store.Delete`,
 * `Store.AddMember`).
 */
module Facade {
  import opened Wrappers
  import opened Strings
  import opened Js
  import opened Reference
  import opened Stringify
  import Store
  import H = Hydrate
  import HF = HydrateFacts

  /** The error `put` pushes for a value that is not a string. */
  const WrongType := "WrongType"

  /** put (lines 13-16): a string is stored with setKey; anything else is the error "WrongType" and no write. */
  function Put(db: Store.Db, key: string, value: JsValue): (r: (Result<string, string>, Store.Db))
    ensures r.0.Err? <==> !value.Str?
    ensures r.0.Err? ==> r.0.error == WrongType && r.1 == db
    ensures r.0.Ok? ==> r.0.value == "OK" && r.1.Keys == db.Keys + {key} && r.1[key] == Store.Scalar(value.s)
    ensures forall k :: k in db && k != key ==> k in r.1 && r.1[k] == db[k]
  {
    if !value.Str? then (Err(WrongType), db) else (Ok("OK"), Store.Set(db, key, value.s))
  }

  /** putObject (lines 17-19): the serialised value is stored with setKey, whatever it held. */
  function PutObject(db: Store.Db, key: string, value: JsValue): (r: (string, Store.Db))
    ensures r.0 == "OK" && r.1.Keys == db.Keys + {key}
    ensures r.1[key] == Store.Scalar(StringifyText(value))
    ensures forall k :: k in db && k != key ==> r.1[k] == db[k]
  {
    ("OK", Store.Set(db, key, StringifyText(value)))
  }

  /**
   * `Number(v)` when `isNaN(v)` is false, None when it is true: a string as `Number` reads it
   * (the runtime's `number`), an array or object through its `String()` text.
   */
  function NumberOf(rt: Runtime, v: JsValue): Option<int>
  {
    match v
    case Undefined => None
    case Null => Some(0)
    case Bool(b) => Some(if b then 1 else 0)
    case Num(n) => Some(n)
    case Str(s) => rt.number(s)
    case _ => rt.number(ToString(v))
  }

  /**
   * rem (lines 22-26): no value deletes the key; a value that is not a number removes that
   * member; a number removes the members with that score.  The reply is the store's, None
   * being the empty reply of delFromKeyByScore on an absent key.
   */
  function Rem(rt: Runtime, db: Store.Db, key: string, value: JsValue): (r: (Result<Option<nat>, Store.StoreError>, Store.Db))
    ensures IsNil(value) ==> r.0 == Ok(Some(if key in db then 1 else 0)) && r.1 == db - {key}
    ensures r.0.Err? <==> !IsNil(value) && key in db && db[key].Scalar?
    ensures r.0.Err? ==> r.1 == db
    ensures !IsNil(value) ==> r.1.Keys == db.Keys && forall k :: k in db && k != key ==> r.1[k] == db[k]
    ensures !IsNil(value) && NumberOf(rt, value).None? && key in db && db[key].Sorted? ==>
      r.1[key].Sorted? && forall x :: x in r.1[key].entries <==> x in db[key].entries && x.0 != ToString(value)
    ensures !IsNil(value) && NumberOf(rt, value).Some? && key in db && db[key].Sorted? ==>
      r.1[key].Sorted? && forall x :: x in r.1[key].entries <==> x in db[key].entries && x.1 != NumberOf(rt, value).value
  {
    if IsNil(value) then
      var (d, n) := Store.Delete(db, key);
      (Ok(Some(n)), d)
    else
      match NumberOf(rt, value)
      case None =>
        Store.RemoveMemberSpec(db, key, ToString(value));
        (match Store.RemoveMember(db, key, ToString(value))
         case Err(e) => (Err(e), db)
         case Ok((d, n)) => (Ok(Some(n)), d))
      case Some(score) =>
        Store.RemoveByScoreSpec(db, key, score);
        (match Store.RemoveByScore(db, key, score)
         case Err(e) => (Err(e), db)
         case Ok((d, n)) => (Ok(n), d))
  }

  /** `R.tryCatch(JSON.parse, () => x)(x)`: the parsed value, or the string itself. */
  function ParseOr(rt: Runtime, x: string): (v: JsValue)
    ensures rt.parse(x).Some? ==> v == rt.parse(x).value
    ensures rt.parse(x).None? ==> v == Str(x)
  {
    match rt.parse(x)
    case Some(j) => j
    case None => Str(x)
  }

  /**
   * get (lines 27-29): the engine on `${key}` with an empty memo object, within `fuel` rounds
   * (None when they run out); its error, or its text parsed as JSON when it parses.
   */
  function Get(rt: Runtime, db: Store.Db, key: string, fuel: nat): (r: Option<Result<JsValue, H.Failure>>)
    ensures r.None? <==> H.Run(rt, db, map[], "${" + key + "}", fuel).0.None?
    ensures forall e :: r == Some(Err(e)) <==> H.Run(rt, db, map[], "${" + key + "}", fuel).0 == Some(Err(e))
    ensures r.Some? && r.value.Ok? ==>
      exists x :: H.Run(rt, db, map[], "${" + key + "}", fuel).0 == Some(Ok(x)) && r.value.value == ParseOr(rt, x)
  {
    match H.Run(rt, db, map[], "${" + key + "}", fuel).0
    case None => None
    case Some(Err(e)) => Some(Err(e))
    case Some(Ok(x)) => Some(Ok(ParseOr(rt, x)))
  }

  // ----- the first round of get -----

  lemma {:induction false} RefsAppend(a: seq<H.Piece>, b: seq<H.Piece>)
    ensures H.Refs(a + b) == H.Refs(a) + H.Refs(b)
  {
    if |a| > 0 {
      assert (a + b)[1..] == a[1..] + b;
      RefsAppend(a[1..], b);
    } else {
      assert a + b == b;
    }
  }

  /** With nothing memoised every piece expands, and a piece holding `${` becomes a reference. */
  lemma {:induction false} EmptyLocalExpands(xs: seq<string>)
    ensures H.ExpandAll(map[], 0, xs).Ok?
    ensures (exists i :: 0 <= i < |xs| && HasRefOpen(xs[i])) ==> |H.Refs(H.ExpandAll(map[], 0, xs).value)| > 0
  {
    if |xs| > 0 {
      EmptyLocalExpands(xs[1..]);
      var first := H.Expand(map[], 0, xs[0]).value;
      var rest := H.ExpandAll(map[], 0, xs[1..]).value;
      assert H.ExpandAll(map[], 0, xs).value == first + rest;
      RefsAppend(first, rest);
      if exists i :: 0 <= i < |xs| && HasRefOpen(xs[i]) {
        var i :| 0 <= i < |xs| && HasRefOpen(xs[i]);
        if i == 0 {
          assert first == [H.Slot(SanitizeKey(RemoveRefTag(xs[0])))];
        } else {
          assert xs[1..][i - 1] == xs[i];
        }
      }
    }
  }

  /** A string opening with `${` splits into pieces one of which holds `${`. */
  lemma {:induction false} OpeningPiece(s: string)
    requires |s| >= 2 && s[0] == '$' && s[1] == '{'
    ensures exists i :: 0 <= i < |Split(s)| && HasRefOpen(Split(s)[i])
  {
    var ps := DollarPieces(s);
    FirstDollarPiece(s);
    var p := ps[0];
    assert Split(s) == SplitPiece(p) + SplitPieces(ps[1..]);
    OpeningSplitPiece(p);
    if HasRefOpen(SplitPiece(p)[0]) {
      assert Split(s)[0] == SplitPiece(p)[0];
    } else {
      assert Split(s)[1] == SplitPiece(p)[1];
    }
  }

  /** The first `$` piece of a string opening with `${` opens with `${` too. */
  lemma {:induction false} FirstDollarPiece(s: string)
    requires |s| >= 2 && s[0] == '$' && s[1] == '{'
    ensures var p := DollarPieces(s)[0]; |p| >= 2 && p[0] == '$' && p[1] == '{'
  {
    var j := IndexOf(s[1..], '$');
    if j >= 0 {
      assert s[1..][0] == '{';
      assert DollarPieces(s)[0] == s[..j + 1];
    }
  }

  /** A piece opening with `${` is cut in two, and one of the two still holds `${`. */
  lemma {:induction false} OpeningSplitPiece(p: string)
    requires |p| >= 2 && p[0] == '$' && p[1] == '{'
    ensures |SplitPiece(p)| == 2 && (HasRefOpen(SplitPiece(p)[0]) || HasRefOpen(SplitPiece(p)[1]))
  {
    var at := IndexOf(p, '}') + 1;
    if at == 0 {
      assert SplitPiece(p)[1] == p;
    } else {
      assert SplitPiece(p)[0] == p[..at];
      assert p[..at][0] == '$' && p[..at][1] == '{';
    }
  }

  /**
   * `get` always hands the engine a string with a reference, so the first round's
   * `refs[0].def` (ps-direct-sdk/lib/hydrateString.js:13-15) exists, whatever the key.
   */
  lemma {:induction false} GetHasReference(key: string)
    ensures var e := H.ExpandAll(map[], 0, Split("${" + key + "}"));
      e.Ok? && |H.Refs(e.value)| > 0
  {
    OpeningPiece("${" + key + "}");
    EmptyLocalExpands(Split("${" + key + "}"));
  }

  // ----- get after the store's writes -----

  /** The first round of `get` on a key holding a string (not its own name): the string, memoised. */
  lemma {:induction false} FirstRoundString(rt: Runtime, db: Store.Db, key: string, v: string)
    requires PlainKey(key) && key in db && db[key] == Store.Scalar(v) && v != key
    ensures H.Round(rt, db, db, map[], "${" + key + "}") ==
      Ok((H.Next(v), map[H.GlobalDefaultKey := None][key := Some(v)]))
  {
    var r := KeyRef(key);
    KeyRefTaggable(key);
    KeyRefFormat(key);
    assert H.WithDefault(map[], [r]) == map[H.GlobalDefaultKey := None];
    assert Store.StringAt(db, key) == Some(v);
    HF.RoundOneTag(rt, db, db, map[], r);
  }

  /** get on a key holding a string without references: that string, parsed when it is JSON. */
  lemma {:induction false} GetString(rt: Runtime, db: Store.Db, key: string, v: string, fuel: nat)
    requires PlainKey(key) && key in db && db[key] == Store.Scalar(v) && v != key && !HasRefOpen(v)
    ensures Get(rt, db, key, fuel + 2) == Some(Ok(ParseOr(rt, v)))
  {
    var l := map[H.GlobalDefaultKey := None][key := Some(v)];
    FirstRoundString(rt, db, key, v);
    HF.NoRefsRun(rt, db, l, v, fuel + 1);
    assert H.Run(rt, db, map[], "${" + key + "}", fuel + 2) == H.Run(rt, db, l, v, fuel + 1);
  }

  /** What `put` stores, `get` returns: the round trip of a string without references. */
  lemma {:induction false} PutThenGet(rt: Runtime, db: Store.Db, key: string, v: string, fuel: nat)
    requires PlainKey(key) && v != key && !HasRefOpen(v)
    ensures Get(rt, Put(db, key, Str(v)).1, key, fuel + 2) == Some(Ok(ParseOr(rt, v)))
  {
    GetString(rt, Put(db, key, Str(v)).1, key, v, fuel);
  }

  /** get on an absent key: the key is not available (no default anywhere on a fresh request). */
  lemma {:induction false} GetMissing(rt: Runtime, db: Store.Db, key: string, fuel: nat)
    requires PlainKey(key) && key !in db
    ensures Get(rt, db, key, fuel + 1) == Some(Err(H.Failure(H.KeyNotFound, key + " not available")))
  {
    var r := KeyRef(key);
    KeyRefTaggable(key);
    KeyRefFormat(key);
    HF.MissingKey(rt, db, map[], r);
    assert H.Run(rt, db, map[], "${" + key + "}", fuel + 1) == (Some(Err(H.Failure(H.KeyNotFound, key + " not available"))), map[]);
  }

  /** After `del`, `get` reports the key as not available. */
  lemma {:induction false} DelThenGet(rt: Runtime, db: Store.Db, key: string, fuel: nat)
    requires PlainKey(key)
    ensures Get(rt, Store.Delete(db, key).0, key, fuel + 1) == Some(Err(H.Failure(H.KeyNotFound, key + " not available")))
  {
    GetMissing(rt, Store.Delete(db, key).0, key, fuel);
  }

  /** A key holding the reference text `${other}`: `get` resolves it in a second round to `other`'s string. */
  lemma {:induction false} GetFollowsRef(rt: Runtime, db: Store.Db, key: string, other: string, w: string, fuel: nat)
    requires PlainKey(key) && PlainKey(other) && key != other && other != H.GlobalDefaultKey
    requires key in db && db[key] == Store.Scalar("${" + other + "}")
    requires other in db && db[other] == Store.Scalar(w) && w != other && !HasRefOpen(w)
    ensures Get(rt, db, key, fuel + 3) == Some(Ok(ParseOr(rt, w)))
  {
    var tag := "${" + other + "}";
    assert tag != key by {
      assert tag[0] == '$';
      if |key| > 0 {
        assert key[0] in key;
      }
    }
    var l1 := map[H.GlobalDefaultKey := None][key := Some(tag)];
    FirstRoundString(rt, db, key, tag);
    SecondRound(rt, db, l1, other, w, fuel);
    assert H.Run(rt, db, map[], "${" + key + "}", fuel + 3) == H.Run(rt, db, l1, tag, fuel + 2);
  }

  lemma {:induction false} SecondRound(rt: Runtime, db: Store.Db, l1: H.Local, other: string, w: string, fuel: nat)
    requires PlainKey(other) && other !in l1 && |l1| > 0
    requires other in db && db[other] == Store.Scalar(w) && w != other && !HasRefOpen(w)
    ensures H.Run(rt, db, l1, "${" + other + "}", fuel + 2) == (Some(Ok(w)), l1[other := Some(w)])
  {
    HF.StringKey(rt, db, l1, other, w);
    HF.NoRefsRun(rt, db, l1[other := Some(w)], w, fuel + 1);
  }

  /**
   * An object stored by `putObject` as `{$ref: "${other}"}` is the reference to `other`: `get`
   * follows it to `other`'s string.
   */
  lemma {:induction false} PutObjectRefThenGet(rt: Runtime, db: Store.Db, key: string, other: string, w: string, fuel: nat)
    requires PlainKey(key) && PlainKey(other) && key != other && other != H.GlobalDefaultKey
    requires other in db && db[other] == Store.Scalar(w) && w != other && !HasRefOpen(w)
    ensures Get(rt, PutObject(db, key, Obj([("$ref", Str("${" + other + "}"))])).1, key, fuel + 3) == Some(Ok(ParseOr(rt, w)))
  {
    var tag := "${" + other + "}";
    RefRewritten(other, []);
    assert [("$ref", Str(tag))] + [] == [("$ref", Str(tag))];
    GetFollowsRef(rt, PutObject(db, key, Obj([("$ref", Str(tag))])).1, key, other, w, fuel);
  }
}
