/**
 * The production hydration engine, ps-direct-sdk/lib/hydrateString.js.  One call of
 * `hydrateString(db, local, string)` is a round: split the string, inline the references
 * already memoised in `local`, fetch the others in one batch, resolve and splice the values,
 * and start a new round on the result; a round that finds no reference returns its string.
 *
 * `local` is the request's memo object.  Besides the memoised values it holds the property
 * `globalDefault` (the default of the first reference of the first round, possibly
 * undefined), which `R.has` sees like any memoised key; it is a `map` to `Option<string>`,
 * None standing for undefined.
 */
module Hydrate {
  import opened Wrappers
  import opened Strings
  import opened Js
  import opened Reference
  import Store

  type Local = map<string, Option<string>>

  /** The property of `local` that holds the request-wide default. */
  const GlobalDefaultKey := "globalDefault"

  /** Inlining nested deeper than this is a cycle. */
  const MaxDepth := 25

  datatype ErrorKind = KeyNotFound | DefaultAsKeyNotFound | KeyPropNotFound | CycleDetected | TypeError

  /** The `{type, message}` objects the engine throws or pushes, and the runtime's TypeErrors. */
  datatype Failure = Failure(kind: ErrorKind, message: string)

  /** An element of the `splits` array: literal text, or a reference object awaiting its value. */
  datatype Piece = Lit(text: string) | Slot(ref: Ref)

  function GlobalDefault(local: Local): Option<string>
  {
    if GlobalDefaultKey in local then local[GlobalDefaultKey] else None
  }

  // ----- createReferenceObject / checkLocalStorage -----

  function Budget(depth: nat): nat
  {
    if depth > MaxDepth then 0 else MaxDepth + 1 - depth
  }

  /**
   * createReferenceObject(local, depth) on one piece, flattened: literal text stays; a
   * reference whose key is memoised is replaced by the pieces of the memoised value, one
   * level deeper; any other reference becomes a slot.
   */
  function Expand(local: Local, depth: nat, x: string): Result<seq<Piece>, Failure>
    decreases Budget(depth), 0, 0
  {
    if !HasRefOpen(x) then Ok([Lit(x)])
    else
      var r := SanitizeKey(RemoveRefTag(x));
      if depth > MaxDepth then Err(Failure(CycleDetected, "Cycle Detected in " + r.key))
      else if r.key !in local then Ok([Slot(r)])
      else match local[r.key]
        case None => Err(Failure(TypeError, "Cannot read property 'split' of undefined"))
        case Some(v) => ExpandAll(local, depth + 1, Split(v))
  }

  /** The pieces expanded left to right; the first error stops the map. */
  function ExpandAll(local: Local, depth: nat, xs: seq<string>): Result<seq<Piece>, Failure>
    decreases Budget(depth), 1, |xs|
  {
    if |xs| == 0 then Ok([])
    else
      var first :- Expand(local, depth, xs[0]);
      var rest :- ExpandAll(local, depth, xs[1..]);
      Ok(first + rest)
  }

  /** `splits.filter(R.is(Object))`: the reference objects, in order. */
  function Refs(ps: seq<Piece>): seq<Ref>
  {
    if |ps| == 0 then []
    else (if ps[0].Slot? then [ps[0].ref] else []) + Refs(ps[1..])
  }

  /** `refs.map(R.prop("key"))`. */
  function Keys(refs: seq<Ref>): seq<string>
  {
    seq(|refs|, i requires 0 <= i < |refs| => refs[i].key)
  }

  /** How `join("")` writes each element: a string as it is, an object as `[object Object]`. */
  function Texts(ps: seq<Piece>): seq<string>
  {
    if |ps| == 0 then [] else [if ps[0].Lit? then ps[0].text else "[object Object]"] + Texts(ps[1..])
  }

  lemma {:induction false} TextsOfLiterals(ps: seq<Piece>, xs: seq<string>)
    requires |ps| == |xs| && forall i :: 0 <= i < |ps| ==> ps[i] == Lit(xs[i])
    ensures Texts(ps) == xs
  {
    if |ps| > 0 {
      TextsOfLiterals(ps[1..], xs[1..]);
      assert xs == [xs[0]] + xs[1..];
    }
  }

  // ----- resolving one reference -----

  /** The error message of a missing prop path: `[key, ...props]` reversed, joined by " of ". */
  function PropMessage(r: Ref): string
  {
    Join(Reversed([r.key] + r.props), " of ") + " not available"
  }

  function Reversed<T>(s: seq<T>): (r: seq<T>)
    ensures |r| == |s| && forall i :: 0 <= i < |s| ==> r[i] == s[|s| - 1 - i]
  {
    if |s| == 0 then [] else Reversed(s[1..]) + [s[0]]
  }

  /**
   * hydrateProps followed by the string coercion of line 56: without props the raw value;
   * with props the value at the path in the parsed JSON (the raw string when it does not
   * parse), escaped when a string and JSON-stringified otherwise; a nil value at the path
   * is KeyPropNotFound.
   */
  function ApplyProps(rt: Runtime, r: Ref, raw: string): (res: Result<string, Failure>)
    ensures |r.props| == 0 ==> res == Ok(raw)
    ensures res.Err? <==> |r.props| > 0 && rt.parse(raw).Some? && IsNil(Path(r.props, rt.parse(raw).value))
    ensures res.Err? ==> res.error == Failure(KeyPropNotFound, PropMessage(r))
    ensures |r.props| > 0 && rt.parse(raw).None? ==> res == Ok(rt.escape(raw))
    ensures |r.props| > 0 && rt.parse(raw).Some? && !IsNil(Path(r.props, rt.parse(raw).value)) ==>
      var v := Path(r.props, rt.parse(raw).value);
      res == Ok(if v.Str? then rt.escape(v.s) else JsonStringify(v).value)
  {
    if |r.props| == 0 then Ok(raw)
    else
      var v := match rt.parse(raw) case Some(j) => Path(r.props, j) case None => Str(raw);
      if IsNil(v) then Err(Failure(KeyPropNotFound, PropMessage(r)))
      else if v.Str? then Ok(rt.escape(v.s))
      else Ok(JsonStringify(v).value)
  }

  /**
   * The value a reference takes before its props: the fetched string; otherwise the list
   * query's members as `[a,b]`; the key itself when the list query fails with WRONGTYPE; for
   * an empty list the own default, else DefaultAsKeyNotFound carrying `local.globalDefault`,
   * else KeyNotFound.
   */
  function Fetched(fetched: Option<string>, listDb: Store.Db, local: Local, r: Ref): Result<string, Failure>
  {
    if fetched.Some? then Ok(fetched.value)
    else match Store.Range(listDb, r.key, r.before, r.after, r.limit)
      case Err(_) => Ok(r.key)
      case Ok(list) =>
        if |list| == 0 then
          if r.def.Some? then Ok(r.def.value)
          else if GlobalDefault(local).Some? then Err(Failure(DefaultAsKeyNotFound, GlobalDefault(local).value))
          else Err(Failure(KeyNotFound, r.key + " not available"))
        else Ok("[" + Join(list, ",") + "]")
  }

  /**
   * Lines 57-59: a value equal to its key goes back into the string as the reference `${key}`
   * and is not memoised; any other value is memoised under the key and spliced in.
   */
  function Settle(local: Local, r: Ref, value: string): (string, Local)
  {
    if r.key == value then ("${" + value + "}", local) else (value, local[r.key := Some(value)])
  }

  function ResolveOne(rt: Runtime, fetched: Option<string>, listDb: Store.Db, local: Local, r: Ref): Result<(string, Local), Failure>
  {
    var raw :- Fetched(fetched, listDb, local, r);
    var value :- ApplyProps(rt, r, raw);
    Ok(Settle(local, r, value))
  }

  /** The first `k` references resolved in order, each seeing the memo writes before it. */
  function ResolveUpTo(rt: Runtime, vals: seq<Option<string>>, listDb: Store.Db, local: Local, refs: seq<Ref>, k: nat): Result<(seq<string>, Local), Failure>
    requires |vals| == |refs| && k <= |refs|
  {
    if k == 0 then Ok(([], local))
    else
      var before :- ResolveUpTo(rt, vals, listDb, local, refs, k - 1);
      var one :- ResolveOne(rt, vals[k - 1], listDb, before.1, refs[k - 1]);
      Ok((before.0 + [one.0], one.1))
  }

  lemma {:induction false} ResolveUpToStops(rt: Runtime, vals: seq<Option<string>>, listDb: Store.Db, local: Local, refs: seq<Ref>, k: nat, n: nat)
    requires |vals| == |refs| && k <= n <= |refs|
    requires ResolveUpTo(rt, vals, listDb, local, refs, k).Err?
    ensures ResolveUpTo(rt, vals, listDb, local, refs, n) == ResolveUpTo(rt, vals, listDb, local, refs, k)
    decreases n - k
  {
    if k < n {
      ResolveUpToStops(rt, vals, listDb, local, refs, k + 1, n);
    }
  }

  // ----- populateArrayWithValues -----

  /** `R.findIndex(R.is(Object))`: the leftmost slot, or -1. */
  function FirstSlot(ps: seq<Piece>): (i: int)
    ensures -1 <= i < |ps|
    ensures i == -1 <==> forall j :: 0 <= j < |ps| ==> ps[j].Lit?
    ensures 0 <= i ==> ps[i].Slot? && forall j :: 0 <= j < i ==> ps[j].Lit?
  {
    if |ps| == 0 then -1
    else if ps[0].Slot? then 0
    else
      var j := FirstSlot(ps[1..]);
      if j == -1 then -1 else j + 1
  }

  /** One step of the reduce: the value goes into the leftmost slot (none left: no change). */
  function FillOne(ps: seq<Piece>, x: string): seq<Piece>
  {
    var i := FirstSlot(ps);
    if i < 0 then ps else ps[i := Lit(x)]
  }

  /** `values.reduce(splits, populateArrayWithValues)`. */
  function Fill(ps: seq<Piece>, vs: seq<string>): seq<Piece>
  {
    if |vs| == 0 then ps else FillOne(Fill(ps, vs[..|vs| - 1]), vs[|vs| - 1])
  }

  /** The reference definition: the i-th slot from the left takes the i-th value. */
  function Substitute(ps: seq<Piece>, vs: seq<string>): (r: seq<Piece>)
    ensures |r| == |ps|
  {
    if |ps| == 0 then []
    else if ps[0].Slot? && |vs| > 0 then [Lit(vs[0])] + Substitute(ps[1..], vs[1..])
    else [ps[0]] + Substitute(ps[1..], vs)
  }

  lemma {:induction false} FillOneSubstitute(ps: seq<Piece>, vs: seq<string>, x: string)
    requires |vs| < |Refs(ps)|
    ensures FillOne(Substitute(ps, vs), x) == Substitute(ps, vs + [x])
  {
    var s := Substitute(ps, vs);
    if ps[0].Slot? && |vs| > 0 {
      FillOneSubstitute(ps[1..], vs[1..], x);
      assert (vs + [x])[1..] == vs[1..] + [x];
      assert s[1..] == Substitute(ps[1..], vs[1..]);
      FillOneCons(Lit(vs[0]), Substitute(ps[1..], vs[1..]), x);
    } else if ps[0].Slot? {
      assert FirstSlot(s) == 0;
    } else {
      FillOneSubstitute(ps[1..], vs, x);
      FillOneCons(ps[0], Substitute(ps[1..], vs), x);
    }
  }

  lemma {:induction false} FillOneCons(p: Piece, rest: seq<Piece>, x: string)
    requires p.Lit?
    ensures FillOne([p] + rest, x) == [p] + FillOne(rest, x)
  {
    assert ([p] + rest)[1..] == rest;
  }

  /**
   * populateArrayWithValues fills the slots left to right: after the reduce the i-th value
   * stands where the i-th reference stood, so the placeholders keep their order.
   */
  lemma {:induction false} FillIsSubstitute(ps: seq<Piece>, vs: seq<string>)
    requires |vs| <= |Refs(ps)|
    ensures Fill(ps, vs) == Substitute(ps, vs)
  {
    if |vs| == 0 {
      SubstituteNone(ps);
    } else {
      var init := vs[..|vs| - 1];
      FillIsSubstitute(ps, init);
      FillOneSubstitute(ps, init, vs[|vs| - 1]);
      assert init + [vs[|vs| - 1]] == vs;
    }
  }

  lemma {:induction false} SubstituteNone(ps: seq<Piece>)
    ensures Substitute(ps, []) == ps
  {
    if |ps| > 0 {
      SubstituteNone(ps[1..]);
    }
  }

  /** With as many values as slots, no slot is left. */
  lemma {:induction false} SubstituteFull(ps: seq<Piece>, vs: seq<string>)
    requires |vs| == |Refs(ps)|
    ensures Refs(Substitute(ps, vs)) == []
    ensures forall i :: 0 <= i < |ps| ==> Substitute(ps, vs)[i].Lit?
  {
    if |ps| > 0 {
      if ps[0].Slot? {
        SubstituteFull(ps[1..], vs[1..]);
      } else {
        SubstituteFull(ps[1..], vs);
      }
      var s := Substitute(ps, vs);
      assert forall i :: 1 <= i < |ps| ==> s[i] == s[1..][i - 1];
    }
  }

  // ----- one round -----

  /** What a round leaves: the finished text, or the spliced text for the next round. */
  datatype Step = Done(text: string) | Next(text: string)

  /**
   * One call of hydrateString, lines 7-65, with the batch fetch answered from `fetchDb` and
   * the list queries from `listDb` (one store unless it changes in between).
   */
  function Round(rt: Runtime, fetchDb: Store.Db, listDb: Store.Db, local: Local, s: string): Result<(Step, Local), Failure>
  {
    var pieces :- ExpandAll(local, 0, Split(s));
    var refs := Refs(pieces);
    if |local| == 0 && |refs| == 0 then Err(Failure(TypeError, "Cannot read property 'def' of undefined"))
    else
      var local1 := if |local| == 0 then map[GlobalDefaultKey := refs[0].def] else local;
      if |refs| == 0 then Ok((Done(Concat(Texts(pieces))), local1))
      else
        var vals := Store.MGet(fetchDb, Keys(refs));
        var resolved :- ResolveUpTo(rt, vals, listDb, local1, refs, |refs|);
        Ok((Next(Concat(Texts(Fill(pieces, resolved.0)))), resolved.1))
  }

  /**
   * Rounds until one returns its string, at most `fuel` of them (None when the fuel runs
   * out), over one store; with the memo object after the last round that succeeded.
   */
  function Run(rt: Runtime, db: Store.Db, local: Local, s: string, fuel: nat): (Option<Result<string, Failure>>, Local)
    decreases fuel, 0
  {
    if fuel == 0 then (None, local) else After(rt, db, local, Round(rt, db, db, local, s), fuel - 1)
  }

  /** What follows a round: its error, its finished text, or the next round. */
  function After(rt: Runtime, db: Store.Db, local: Local, outcome: Result<(Step, Local), Failure>, fuel: nat): (Option<Result<string, Failure>>, Local)
    decreases fuel, 1
  {
    match outcome
    case Err(e) => (Some(Err(e)), local)
    case Ok((Done(t), l)) => (Some(Ok(t)), l)
    case Ok((Next(t), l)) => Run(rt, db, l, t, fuel)
  }

  // ----- the engine, as the source runs it -----

  /** populateArrayWithValues: the value overwrites the leftmost slot of the array. */
  method PopulateArrayWithValues(acc: array<Piece>, x: string)
    modifies acc
    ensures acc[..] == FillOne(old(acc[..]), x)
  {
    var index := FirstSlot(acc[..]);
    if index >= 0 {
      acc[index] := Lit(x);
    }
  }

  /** One reference resolved against the store: lines 45-59 for one element of the zip. */
  method ResolveRef(rt: Runtime, db: Store.MemoryStore, fetched: Option<string>, l: Local, ref: Ref)
    returns (res: Result<(string, Local), Failure>)
    ensures res == ResolveOne(rt, fetched, db.store, l, ref)
  {
    var raw: string;
    if fetched.Some? {
      raw := fetched.value;
    } else {
      var list := db.ListKey(ref.key, ref.before, ref.after, ref.limit);
      if list.Err? {
        raw := ref.key;
      } else if |list.value| == 0 {
        if ref.def.Some? {
          raw := ref.def.value;
        } else if GlobalDefault(l).Some? {
          return Err(Failure(DefaultAsKeyNotFound, GlobalDefault(l).value));
        } else {
          return Err(Failure(KeyNotFound, ref.key + " not available"));
        }
      } else {
        raw := "[" + Join(list.value, ",") + "]";
      }
    }
    var value := ApplyProps(rt, ref, raw);
    if value.Err? {
      return Err(value.error);
    }
    if ref.key == value.value {
      res := Ok(("${" + value.value + "}", l));
    } else {
      res := Ok((value.value, l[ref.key := Some(value.value)]));
    }
  }

  /** The memo object after the globalDefault write of lines 15-17. */
  function WithDefault(local: Local, refs: seq<Ref>): Local
    requires |refs| > 0
  {
    if |local| == 0 then map[GlobalDefaultKey := refs[0].def] else local
  }

  lemma {:induction false} RoundExpandErr(rt: Runtime, fetchDb: Store.Db, listDb: Store.Db, local: Local, s: string)
    requires ExpandAll(local, 0, Split(s)).Err?
    ensures Round(rt, fetchDb, listDb, local, s) == Err(ExpandAll(local, 0, Split(s)).error)
  {
  }

  lemma {:induction false} RoundNoRefs(rt: Runtime, fetchDb: Store.Db, listDb: Store.Db, local: Local, s: string, pieces: seq<Piece>)
    requires ExpandAll(local, 0, Split(s)) == Ok(pieces) && |Refs(pieces)| == 0
    ensures |local| == 0 ==> Round(rt, fetchDb, listDb, local, s) == Err(Failure(TypeError, "Cannot read property 'def' of undefined"))
    ensures |local| > 0 ==> Round(rt, fetchDb, listDb, local, s) == Ok((Done(Concat(Texts(pieces))), local))
  {
  }

  lemma {:induction false} RoundResolved(rt: Runtime, fetchDb: Store.Db, listDb: Store.Db, local: Local, s: string, pieces: seq<Piece>,
                      vals: seq<Option<string>>, resolved: Result<(seq<string>, Local), Failure>)
    requires ExpandAll(local, 0, Split(s)) == Ok(pieces) && |Refs(pieces)| > 0
    requires vals == Store.MGet(fetchDb, Keys(Refs(pieces)))
    requires resolved == ResolveUpTo(rt, vals, listDb, WithDefault(local, Refs(pieces)), Refs(pieces), |Refs(pieces)|)
    ensures resolved.Err? ==> Round(rt, fetchDb, listDb, local, s) == Err(resolved.error)
    ensures resolved.Ok? ==>
      Round(rt, fetchDb, listDb, local, s) == Ok((Next(Concat(Texts(Fill(pieces, resolved.value.0)))), resolved.value.1))
  {
  }

  /** The zip of references and fetched values, resolved in order (lines 41-61). */
  method ResolveRefs(rt: Runtime, db: Store.MemoryStore, vals: seq<Option<string>>, local: Local, refs: seq<Ref>)
    returns (res: Result<(seq<string>, Local), Failure>)
    requires |vals| == |refs|
    ensures res == ResolveUpTo(rt, vals, db.store, local, refs, |refs|)
  {
    ghost var store := db.store;
    var values: seq<string> := [];
    var l := local;
    var i := 0;
    while i < |refs|
      invariant 0 <= i <= |refs| && db.store == store
      invariant ResolveUpTo(rt, vals, store, local, refs, i) == Ok((values, l))
    {
      var one := ResolveRef(rt, db, vals[i], l, refs[i]);
      if one.Err? {
        ResolveUpToStops(rt, vals, store, local, refs, i + 1, |refs|);
        return Err(one.error);
      }
      values := values + [one.value.0];
      l := one.value.1;
      i := i + 1;
    }
    res := Ok((values, l));
  }

  /** `values.reduce(splits, populateArrayWithValues).join("")` over a copy of the pieces. */
  method Splice(pieces: seq<Piece>, values: seq<string>) returns (text: string)
    ensures text == Concat(Texts(Fill(pieces, values)))
  {
    var acc := new Piece[|pieces|](j requires 0 <= j < |pieces| => pieces[j]);
    var j := 0;
    while j < |values|
      invariant 0 <= j <= |values|
      invariant acc[..] == Fill(pieces, values[..j])
    {
      PopulateArrayWithValues(acc, values[j]);
      assert values[..j + 1][..j] == values[..j];
      j := j + 1;
    }
    assert values[..j] == values;
    text := Concat(Texts(acc[..]));
  }

  /** hydrateString for one round (lines 7-64); on an error the memo object is the one passed in. */
  method HydrateRound(rt: Runtime, db: Store.MemoryStore, local: Local, s: string) returns (r: Result<Step, Failure>, local': Local)
    ensures r.Ok? ==> Round(rt, db.store, db.store, local, s) == Ok((r.value, local'))
    ensures r.Err? ==> Round(rt, db.store, db.store, local, s) == Err(r.error) && local' == local
  {
    var expanded := ExpandAll(local, 0, Split(s));
    if expanded.Err? {
      RoundExpandErr(rt, db.store, db.store, local, s);
      return Err(expanded.error), local;
    }
    var pieces := expanded.value;
    var refs := Refs(pieces);
    if |refs| == 0 {
      RoundNoRefs(rt, db.store, db.store, local, s, pieces);
      if |local| == 0 {
        return Err(Failure(TypeError, "Cannot read property 'def' of undefined")), local;
      }
      return Ok(Done(Concat(Texts(pieces)))), local;
    }
    var vals := db.GetMultiple(Keys(refs));
    var resolved := ResolveRefs(rt, db, vals, WithDefault(local, refs), refs);
    RoundResolved(rt, db.store, db.store, local, s, pieces, vals, resolved);
    if resolved.Err? {
      return Err(resolved.error), local;
    }
    var text := Splice(pieces, resolved.value.0);
    return Ok(Next(text)), resolved.value.1;
  }

  lemma {:induction false} RunStep(rt: Runtime, db: Store.Db, local: Local, s: string, fuel: nat)
    requires fuel > 0
    ensures Run(rt, db, local, s, fuel) == After(rt, db, local, Round(rt, db, db, local, s), fuel - 1)
  {
  }

  /** The run after a round whose outcome is known: its error, its finished text, or the run on. */
  lemma {:induction false} RunAfterRound(rt: Runtime, db: Store.Db, local: Local, s: string, fuel: nat, step: Result<Step, Failure>, l: Local)
    requires fuel > 0
    requires step.Ok? ==> Round(rt, db, db, local, s) == Ok((step.value, l))
    requires step.Err? ==> Round(rt, db, db, local, s) == Err(step.error)
    ensures step.Err? ==> Run(rt, db, local, s, fuel) == (Some(Err(step.error)), local)
    ensures step.Ok? && step.value.Done? ==> Run(rt, db, local, s, fuel) == (Some(Ok(step.value.text)), l)
    ensures step.Ok? && step.value.Next? ==> Run(rt, db, local, s, fuel) == Run(rt, db, l, step.value.text, fuel - 1)
  {
    RunStep(rt, db, local, s, fuel);
  }

  /** hydrateString: a round, then hydrateString again on the spliced text and memo object (line 65). */
  method HydrateString(rt: Runtime, db: Store.MemoryStore, local: Local, s: string, fuel: nat)
    returns (r: Option<Result<string, Failure>>, local': Local)
    ensures (r, local') == Run(rt, db.store, local, s, fuel)
    decreases fuel, 1
  {
    if fuel == 0 {
      return None, local;
    }
    var step, l := HydrateRound(rt, db, local, s);
    RunAfterRound(rt, db.store, local, s, fuel, step, l);
    r, local' := Proceed(rt, db, db.store, local, step, l, fuel);
  }

  /** What follows one round (lines 62-65): its error, its finished text, or the next round. */
  method Proceed(rt: Runtime, db: Store.MemoryStore, ghost store: Store.Db, local: Local, step: Result<Step, Failure>, l: Local, fuel: nat)
    returns (r: Option<Result<string, Failure>>, local': Local)
    requires fuel > 0 && db.store == store
    ensures step.Err? ==> (r, local') == (Some(Err(step.error)), local)
    ensures step.Ok? && step.value.Done? ==> (r, local') == (Some(Ok(step.value.text)), l)
    ensures step.Ok? && step.value.Next? ==> (r, local') == Run(rt, store, l, step.value.text, fuel - 1)
    decreases fuel, 0
  {
    if step.Err? {
      return Some(Err(step.error)), local;
    }
    if step.value.Done? {
      return Some(Ok(step.value.text)), l;
    }
    r, local' := HydrateString(rt, db, l, step.value.text, fuel - 1);
  }
}
