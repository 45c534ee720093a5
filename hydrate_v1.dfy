/**
 * The older hydration engine, lib/v1.js:15-179.  The pipeline is the production one without
 * the depth counter and the request-wide default: split the string, look each reference up
 * in `local`, fetch the others in one batch, resolve and splice, and go round again.
 *
 * `local` holds sentinels: `null` while a key is being fetched (InProgress), the shared
 * object `nil` once a key is known to be absent (Absent), and the value `undefined` (Undef).
 * The write meant to memoise a resolved value (lines 68-70) is handed the string that
 * `errorOnUndefined` returned instead of the reference object, so it sets the property
 * `"undefined"` of `local` to undefined: a fetched key stays InProgress for the rest of the
 * call, and referring to it again is reported as a cycle.
 */
module HydrateV1 {
  import opened Wrappers
  import opened Strings
  import opened Js
  import opened Reference
  import Store
  import H = Hydrate

  datatype Entry = InProgress | Absent | Memo(text: string) | Undef

  type Local = map<string, Entry>

  /** The property the memo write of lines 68-70 ends up setting. */
  const UndefinedKey := "undefined"

  /** ResourceNotFoundError (404), InternalServerError (500) and the runtime's TypeError. */
  datatype ErrorKind = ResourceNotFound | InternalServer | TypeError

  datatype Failure = Failure(kind: ErrorKind, message: string)

  /** What `list.toString()` throws when the list query failed and `list` is undefined. */
  const ListTypeError := "Cannot read property 'toString' of undefined"

  // ----- createReferenceObject / checkLocalStorage -----

  /**
   * createReferenceObject on one piece: literal text stays; a reference is parsed and
   * looked up in `local` (checkLocalStorage): an absent key gives its default or a 404, a
   * key in progress is a cycle, any other entry is put in as it is (undefined joins as
   * nothing), and an unknown key becomes a slot to fetch.
   */
  function Expand(local: Local, x: string): (p: Result<H.Piece, Failure>)
    ensures p.Ok? && p.value.Slot? ==> p.value.ref.key !in local
  {
    if !HasRefOpen(x) then Ok(H.Lit(x))
    else
      var r := SanitizeKey(RemoveRefTag(x));
      if r.key !in local then Ok(H.Slot(r))
      else match local[r.key]
        case Absent =>
          if r.def.Some? then Ok(H.Lit(r.def.value))
          else Err(Failure(ResourceNotFound, r.key + " not available"))
        case InProgress => Err(Failure(InternalServer, "cycle detected in " + r.key))
        case Memo(v) => Ok(H.Lit(v))
        case Undef => Ok(H.Lit(""))
  }

  /** `splits.map(createReferenceObject(local))`: one element per piece; the first throw stops it. */
  function ExpandAll(local: Local, xs: seq<string>): (r: Result<seq<H.Piece>, Failure>)
    ensures r.Ok? ==> |r.value| == |xs|
    ensures r.Ok? ==> forall i :: 0 <= i < |xs| ==> Expand(local, xs[i]) == Ok(r.value[i])
    ensures r.Err? ==> exists i :: 0 <= i < |xs| && Expand(local, xs[i]) == Err(r.error)
  {
    if |xs| == 0 then Ok([])
    else
      var first :- Expand(local, xs[0]);
      var rest :- ExpandAll(local, xs[1..]);
      assert forall i :: 1 <= i < |xs| ==> xs[i] == xs[1..][i - 1];
      Ok([first] + rest)
  }

  // ----- resolving one reference -----

  /**
   * Line 40 for every reference of the batch: each fetched key is marked in progress
   * before any value is looked at.
   */
  function MarkInProgress(local: Local, keys: seq<string>): (l: Local)
    ensures l.Keys == local.Keys + set k | k in keys
    ensures forall k :: k in l ==> l[k] == if k in keys then InProgress else local[k]
  {
    if |keys| == 0 then local
    else
      var init := keys[..|keys| - 1];
      assert forall k :: k in keys <==> k in init || k == keys[|keys| - 1];
      MarkInProgress(local, init)[keys[|keys| - 1] := InProgress]
  }

  /**
   * The value the batch gives a reference (lines 41-55): the fetched string; otherwise the
   * list query's members written `[a,b]`, the own default for an empty list, or null (None)
   * without one.  A failed list query leaves `list` undefined, and `list.toString()` throws.
   */
  function Fetched(fetched: Option<string>, listDb: Store.Db, r: Ref): Result<Option<string>, Failure>
  {
    if fetched.Some? then Ok(fetched)
    else match Store.Range(listDb, r.key, r.before, r.after, r.limit)
      case Err(_) => Err(Failure(TypeError, ListTypeError))
      case Ok(list) =>
        if |list| == 0 then Ok(r.def)
        else Ok(Some("[" + Join(list, ",") + "]"))
  }

  /**
   * hydrateProps then errorOnUndefined (lines 78-101): without props, or when the value is
   * not JSON, the raw string; otherwise the value at the path, a string as it is and anything
   * else JSON-stringified; undefined at the path is a 404 naming the path.
   */
  function Stringified(rt: Runtime, r: Ref, raw: string): (res: Result<string, Failure>)
    ensures |r.props| == 0 || rt.parse(raw).None? ==> res == Ok(raw)
    ensures res.Err? <==> |r.props| > 0 && rt.parse(raw).Some? && Path(r.props, rt.parse(raw).value).Undefined?
    ensures res.Err? ==> res.error == Failure(ResourceNotFound, H.PropMessage(r))
    ensures |r.props| > 0 && rt.parse(raw).Some? && !Path(r.props, rt.parse(raw).value).Undefined? ==>
      var v := Path(r.props, rt.parse(raw).value);
      res == Ok(if v.Str? then v.s else JsonStringify(v).value)
  {
    var v := if |r.props| == 0 then Str(raw)
             else match rt.parse(raw) case Some(j) => Path(r.props, j) case None => Str(raw);
    if v.Undefined? then Err(Failure(ResourceNotFound, H.PropMessage(r)))
    else if v.Str? then Ok(v.s)
    else Ok(JsonStringify(v).value)
  }

  /**
   * One element of the batch through the taps of lines 60-70: null marks the key absent and
   * is a 404; a value that survives its props is the reference's text, and the memo write
   * sets `local["undefined"]`.
   */
  function ResolveOne(rt: Runtime, fetched: Option<string>, listDb: Store.Db, local: Local, r: Ref): (Result<string, Failure>, Local)
  {
    match Fetched(fetched, listDb, r)
    case Err(e) => (Err(e), local)
    case Ok(None) => (Err(Failure(ResourceNotFound, r.key + " not available")), local[r.key := Absent])
    case Ok(Some(raw)) =>
      match Stringified(rt, r, raw)
      case Err(e) => (Err(e), local)
      case Ok(v) => (Ok(v), local[UndefinedKey := Undef])
  }

  /** The first `k` references resolved in order, with the writes to `local` made until the first error. */
  function ResolveUpTo(rt: Runtime, vals: seq<Option<string>>, listDb: Store.Db, local: Local, refs: seq<Ref>, k: nat): (Result<seq<string>, Failure>, Local)
    requires |vals| == |refs| && k <= |refs|
  {
    if k == 0 then (Ok([]), local)
    else
      var (before, l) := ResolveUpTo(rt, vals, listDb, local, refs, k - 1);
      if before.Err? then (before, l)
      else
        var (one, l') := ResolveOne(rt, vals[k - 1], listDb, l, refs[k - 1]);
        if one.Err? then (Err(one.error), l') else (Ok(before.value + [one.value]), l')
  }

  lemma {:induction false} ResolveUpToStops(rt: Runtime, vals: seq<Option<string>>, listDb: Store.Db, local: Local, refs: seq<Ref>, k: nat, n: nat)
    requires |vals| == |refs| && k <= n <= |refs|
    requires ResolveUpTo(rt, vals, listDb, local, refs, k).0.Err?
    ensures ResolveUpTo(rt, vals, listDb, local, refs, n) == ResolveUpTo(rt, vals, listDb, local, refs, k)
    decreases n - k
  {
    if k < n {
      ResolveUpToStops(rt, vals, listDb, local, refs, k + 1, n);
    }
  }

  // ----- rounds -----

  /**
   * One call of hydrateString (lines 25-75) with the batch fetch answered from `fetchDb` and
   * the list queries from `listDb`: the error and the `local` it leaves, or the next step.
   */
  function Round(rt: Runtime, fetchDb: Store.Db, listDb: Store.Db, local: Local, s: string): (Result<H.Step, Failure>, Local)
  {
    var expanded := ExpandAll(local, Split(s));
    if expanded.Err? then (Err(expanded.error), local)
    else
      var pieces := expanded.value;
      var refs := H.Refs(pieces);
      if |refs| == 0 then (Ok(H.Done(Concat(H.Texts(pieces)))), local)
      else
        var vals := Store.MGet(fetchDb, H.Keys(refs));
        var (resolved, l) := ResolveUpTo(rt, vals, listDb, MarkInProgress(local, H.Keys(refs)), refs, |refs|);
        if resolved.Err? then (Err(resolved.error), l)
        else (Ok(H.Next(Concat(H.Texts(H.Fill(pieces, resolved.value))))), l)
  }

  /** Rounds until one returns its string, at most `fuel` of them (None when the fuel runs out). */
  function Run(rt: Runtime, db: Store.Db, local: Local, s: string, fuel: nat): (Option<Result<string, Failure>>, Local)
    decreases fuel, 0
  {
    if fuel == 0 then (None, local) else After(rt, db, Round(rt, db, db, local, s), fuel - 1)
  }

  function After(rt: Runtime, db: Store.Db, outcome: (Result<H.Step, Failure>, Local), fuel: nat): (Option<Result<string, Failure>>, Local)
    decreases fuel, 1
  {
    match outcome.0
    case Err(e) => (Some(Err(e)), outcome.1)
    case Ok(Done(t)) => (Some(Ok(t)), outcome.1)
    case Ok(Next(t)) => Run(rt, db, outcome.1, t, fuel)
  }

  /** hydrateKey (lines 15-17): the key hydrated as the reference `${key}`. */
  function HydrateKey(rt: Runtime, db: Store.Db, local: Local, input: string, fuel: nat): (Option<Result<string, Failure>>, Local)
  {
    Run(rt, db, local, "${" + input + "}", fuel)
  }

  lemma {:induction false} RunStep(rt: Runtime, db: Store.Db, local: Local, s: string, fuel: nat)
    requires fuel > 0
    ensures Run(rt, db, local, s, fuel) == After(rt, db, Round(rt, db, db, local, s), fuel - 1)
  {
  }

  /** The run after a round: the round's error or finished text, or the run on the joined array. */
  lemma {:induction false} RunAfterRound(rt: Runtime, db: Store.Db, local: Local, s: string, fuel: nat, step: Result<H.Step, Failure>, l: Local)
    requires fuel > 0 && Round(rt, db, db, local, s) == (step, l)
    ensures step.Err? ==> Run(rt, db, local, s, fuel) == (Some(Err(step.error)), l)
    ensures step.Ok? && step.value.Done? ==> Run(rt, db, local, s, fuel) == (Some(Ok(step.value.text)), l)
    ensures step.Ok? && step.value.Next? ==> Run(rt, db, local, s, fuel) == Run(rt, db, l, step.value.text, fuel - 1)
  {
    RunStep(rt, db, local, s, fuel);
  }

  lemma {:induction false} RoundExpandErr(rt: Runtime, fetchDb: Store.Db, listDb: Store.Db, local: Local, s: string)
    requires ExpandAll(local, Split(s)).Err?
    ensures Round(rt, fetchDb, listDb, local, s) == (Err(ExpandAll(local, Split(s)).error), local)
  {
  }

  lemma {:induction false} RoundNoRefs(rt: Runtime, fetchDb: Store.Db, listDb: Store.Db, local: Local, s: string, pieces: seq<H.Piece>)
    requires ExpandAll(local, Split(s)) == Ok(pieces) && |H.Refs(pieces)| == 0
    ensures Round(rt, fetchDb, listDb, local, s) == (Ok(H.Done(Concat(H.Texts(pieces)))), local)
  {
  }

  lemma {:induction false} RoundResolved(rt: Runtime, fetchDb: Store.Db, listDb: Store.Db, local: Local, s: string, pieces: seq<H.Piece>,
                      vals: seq<Option<string>>, resolved: (Result<seq<string>, Failure>, Local))
    requires ExpandAll(local, Split(s)) == Ok(pieces) && |H.Refs(pieces)| > 0
    requires vals == Store.MGet(fetchDb, H.Keys(H.Refs(pieces)))
    requires resolved == ResolveUpTo(rt, vals, listDb, MarkInProgress(local, H.Keys(H.Refs(pieces))), H.Refs(pieces), |H.Refs(pieces)|)
    ensures resolved.0.Err? ==> Round(rt, fetchDb, listDb, local, s) == (Err(resolved.0.error), resolved.1)
    ensures resolved.0.Ok? ==>
      Round(rt, fetchDb, listDb, local, s) == (Ok(H.Next(Concat(H.Texts(H.Fill(pieces, resolved.0.value))))), resolved.1)
  {
  }

  // ----- the engine, as the source runs it -----

  /** `local[obj.key] = null` for every reference of the batch (line 40). */
  method MarkFetched(local: Local, keys: seq<string>) returns (l: Local)
    ensures l == MarkInProgress(local, keys)
  {
    l := local;
    for i := 0 to |keys|
      invariant l == MarkInProgress(local, keys[..i])
    {
      assert keys[..i + 1][..i] == keys[..i];
      l := l[keys[i] := InProgress];
    }
    assert keys[..|keys|] == keys;
  }

  /** One element of the batch against the store (lines 41-70). */
  method ResolveRef(rt: Runtime, db: Store.MemoryStore, fetched: Option<string>, l: Local, ref: Ref)
    returns (res: Result<string, Failure>, l': Local)
    ensures (res, l') == ResolveOne(rt, fetched, db.store, l, ref)
  {
    var raw: string;
    if fetched.Some? {
      raw := fetched.value;
    } else {
      var list := db.ListKey(ref.key, ref.before, ref.after, ref.limit);
      if list.Err? {
        return Err(Failure(TypeError, ListTypeError)), l;
      } else if |list.value| == 0 {
        if ref.def.Some? {
          raw := ref.def.value;
        } else {
          return Err(Failure(ResourceNotFound, ref.key + " not available")), l[ref.key := Absent];
        }
      } else {
        raw := "[" + Join(list.value, ",") + "]";
      }
    }
    var value := Stringified(rt, ref, raw);
    if value.Err? {
      return Err(value.error), l;
    }
    return Ok(value.value), l[UndefinedKey := Undef];
  }

  /** The batch resolved in order; the first error stops it. */
  method ResolveRefs(rt: Runtime, db: Store.MemoryStore, vals: seq<Option<string>>, local: Local, refs: seq<Ref>)
    returns (res: Result<seq<string>, Failure>, l: Local)
    requires |vals| == |refs|
    ensures (res, l) == ResolveUpTo(rt, vals, db.store, local, refs, |refs|)
  {
    ghost var store := db.store;
    var values: seq<string> := [];
    l := local;
    var i := 0;
    while i < |refs|
      invariant 0 <= i <= |refs| && db.store == store
      invariant ResolveUpTo(rt, vals, store, local, refs, i) == (Ok(values), l)
    {
      var one, l' := ResolveRef(rt, db, vals[i], l, refs[i]);
      if one.Err? {
        ResolveUpToStops(rt, vals, store, local, refs, i + 1, |refs|);
        return Err(one.error), l';
      }
      values := values + [one.value];
      l := l';
      i := i + 1;
    }
    res := Ok(values);
  }

  /** hydrateString for one round (lines 25-71). */
  method HydrateRound(rt: Runtime, db: Store.MemoryStore, local: Local, s: string) returns (r: Result<H.Step, Failure>, local': Local)
    ensures Round(rt, db.store, db.store, local, s) == (r, local')
  {
    var expanded := ExpandAll(local, Split(s));
    if expanded.Err? {
      RoundExpandErr(rt, db.store, db.store, local, s);
      return Err(expanded.error), local;
    }
    var pieces := expanded.value;
    var refs := H.Refs(pieces);
    if |refs| == 0 {
      RoundNoRefs(rt, db.store, db.store, local, s, pieces);
      return Ok(H.Done(Concat(H.Texts(pieces)))), local;
    }
    var vals := db.GetMultiple(H.Keys(refs));
    var marked := MarkFetched(local, H.Keys(refs));
    var resolved, l := ResolveRefs(rt, db, vals, marked, refs);
    RoundResolved(rt, db.store, db.store, local, s, pieces, vals, (resolved, l));
    if resolved.Err? {
      return Err(resolved.error), l;
    }
    var text := H.Splice(pieces, resolved.value);
    return Ok(H.Next(text)), l;
  }

  /** hydrateString: a round, then hydrateString again on the joined array (lines 72-74). */
  method HydrateString(rt: Runtime, db: Store.MemoryStore, local: Local, s: string, fuel: nat)
    returns (r: Option<Result<string, Failure>>, local': Local)
    ensures (r, local') == Run(rt, db.store, local, s, fuel)
    decreases fuel, 1
  {
    r, local' := None, local;
    if fuel > 0 {
      var step, l := HydrateRound(rt, db, local, s);
      RunAfterRound(rt, db.store, local, s, fuel, step, l);
      r, local' := Proceed(rt, db, db.store, step, l, fuel);
    }
  }

  /** The callback of one round: the error, the finished string, or the next round on the joined array. */
  method Proceed(rt: Runtime, db: Store.MemoryStore, ghost store: Store.Db, step: Result<H.Step, Failure>, l: Local, fuel: nat)
    returns (r: Option<Result<string, Failure>>, local': Local)
    requires fuel > 0 && db.store == store
    ensures step.Err? ==> (r, local') == (Some(Err(step.error)), l)
    ensures step.Ok? && step.value.Done? ==> (r, local') == (Some(Ok(step.value.text)), l)
    ensures step.Ok? && step.value.Next? ==> (r, local') == Run(rt, store, l, step.value.text, fuel - 1)
    decreases fuel, 0
  {
    if step.Err? {
      return Some(Err(step.error)), l;
    }
    if step.value.Done? {
      return Some(Ok(step.value.text)), l;
    }
    r, local' := HydrateString(rt, db, l, step.value.text, fuel - 1);
  }
}
