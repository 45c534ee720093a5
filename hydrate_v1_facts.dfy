/**
 * What the older engine does, proved about the functions of `HydrateV1`: text without
 * references comes back as it is, checkLocalStorage's four cases, a missing key's default
 * or 404, a list written `[a,b]`, and the consequence of the memo write of lib/v1.js:68-70:
 * every fetched key stays in progress, so a key fetched once and referred to again in a
 * later round is reported as a cycle, whether or not the data has one.
 */
module HydrateV1Facts {
  import opened Wrappers
  import opened Strings
  import opened Js
  import opened Reference
  import opened HydrateV1
  import Store
  import Hydrate

  // ----- expansion -----

  /** checkLocalStorage on a written reference, case by case (lines 111-127). */
  lemma {:induction false} CheckLocalStorage(local: Local, r: Ref)
    requires Taggable(r)
    ensures r.key !in local ==> Expand(local, Tag(r)) == Ok(Hydrate.Slot(r))
    ensures r.key in local && local[r.key] == Absent ==>
      Expand(local, Tag(r)) == if r.def.Some? then Ok(Hydrate.Lit(r.def.value))
                               else Err(Failure(ResourceNotFound, r.key + " not available"))
    ensures r.key in local && local[r.key] == InProgress ==>
      Expand(local, Tag(r)) == Err(Failure(InternalServer, "cycle detected in " + r.key))
    ensures forall v :: r.key in local && local[r.key] == Memo(v) ==> Expand(local, Tag(r)) == Ok(Hydrate.Lit(v))
    ensures r.key in local && local[r.key] == Undef ==> Expand(local, Tag(r)) == Ok(Hydrate.Lit(""))
  {
    ParseTag(r);
    TagOpens(r);
  }

  /** `createReferenceObject` on two pieces: the first error, or both pieces in order. */
  lemma {:induction false} ExpandAllTwo(local: Local, a: string, b: string)
    ensures Expand(local, a).Err? ==> ExpandAll(local, [a, b]) == Err(Expand(local, a).error)
    ensures Expand(local, a).Ok? && Expand(local, b).Ok? ==>
      ExpandAll(local, [a, b]) == Ok([Expand(local, a).value, Expand(local, b).value])
  {
    assert [a, b][1..] == [b];
    assert [b][1..] == [];
    if Expand(local, b).Ok? {
      var pb := Expand(local, b).value;
      assert ExpandAll(local, [b]) == Ok([pb] + []);
      assert [pb] + [] == [pb];
      if Expand(local, a).Ok? {
        assert ExpandAll(local, [a, b]) == Ok([Expand(local, a).value] + [pb]);
        assert [Expand(local, a).value] + [pb] == [Expand(local, a).value, pb];
      }
    }
  }

  /** A string that is one reference splits into the reference and empty text. */
  lemma {:induction false} ExpandTag(local: Local, r: Ref)
    requires Taggable(r)
    ensures Expand(local, Tag(r)).Err? ==> ExpandAll(local, Split(Tag(r))) == Err(Expand(local, Tag(r)).error)
    ensures Expand(local, Tag(r)).Ok? ==>
      ExpandAll(local, Split(Tag(r))) == Ok([Expand(local, Tag(r)).value, Hydrate.Lit("")])
  {
    SplitTag(r);
    assert Expand(local, "") == Ok(Hydrate.Lit(""));
    ExpandAllTwo(local, Tag(r), "");
  }

  /** Pieces without `${` stay literal text, in order. */
  lemma {:induction false} ExpandAllLiterals(local: Local, xs: seq<string>)
    requires forall i :: 0 <= i < |xs| ==> !HasRefOpen(xs[i])
    ensures ExpandAll(local, xs).Ok?
    ensures forall i :: 0 <= i < |xs| ==> ExpandAll(local, xs).value[i] == Hydrate.Lit(xs[i])
  {
    if |xs| > 0 {
      ExpandAllLiterals(local, xs[1..]);
    }
  }

  lemma {:induction false} RefsOfLiterals(ps: seq<Hydrate.Piece>)
    requires forall i :: 0 <= i < |ps| ==> ps[i].Lit?
    ensures Hydrate.Refs(ps) == []
  {
    if |ps| > 0 {
      RefsOfLiterals(ps[1..]);
    }
  }

  /** A string without `${` is the last round: it comes back unchanged, and `local` too. */
  lemma {:induction false} NoRefsRound(rt: Runtime, fetchDb: Store.Db, listDb: Store.Db, local: Local, s: string)
    requires !HasRefOpen(s)
    ensures Round(rt, fetchDb, listDb, local, s) == (Ok(Hydrate.Done(s)), local)
  {
    NoRefOpenNoRefs(s);
    var xs := Split(s);
    assert forall i :: 0 <= i < |xs| ==> !HasRefOpen(xs[i]) by {
      assert forall i :: 0 <= i < |xs| ==> xs[i] in xs;
    }
    ExpandAllLiterals(local, xs);
    var pieces := ExpandAll(local, xs).value;
    RefsOfLiterals(pieces);
    Hydrate.TextsOfLiterals(pieces, xs);
    SplitConcat(s);
    RoundNoRefs(rt, fetchDb, listDb, local, s, pieces);
  }

  lemma {:induction false} NoRefsRun(rt: Runtime, db: Store.Db, local: Local, s: string, fuel: nat)
    requires !HasRefOpen(s)
    ensures Run(rt, db, local, s, fuel + 1) == (Some(Ok(s)), local)
  {
    NoRefsRound(rt, db, db, local, s);
  }

  /** A round that goes on hands its text and `local` to the next one. */
  lemma {:induction false} RunNext(rt: Runtime, db: Store.Db, local: Local, s: string, t: string, l: Local, fuel: nat)
    requires Round(rt, db, db, local, s) == (Ok(Hydrate.Next(t)), l)
    ensures Run(rt, db, local, s, fuel + 1) == Run(rt, db, l, t, fuel)
  {
    RunStep(rt, db, local, s, fuel + 1);
  }

  /** A round that goes on to text without references: the call returns that text. */
  lemma {:induction false} RunLastTwo(rt: Runtime, db: Store.Db, local: Local, s: string, t: string, l: Local, fuel: nat)
    requires Round(rt, db, db, local, s) == (Ok(Hydrate.Next(t)), l) && !HasRefOpen(t)
    ensures Run(rt, db, local, s, fuel + 2) == (Some(Ok(t)), l)
  {
    RunNext(rt, db, local, s, t, l, fuel + 1);
    NoRefsRun(rt, db, l, t, fuel);
  }

  /** A round that fails ends the call with its error. */
  lemma {:induction false} RunErr(rt: Runtime, db: Store.Db, local: Local, s: string, e: Failure, l: Local, fuel: nat)
    requires Round(rt, db, db, local, s) == (Err(e), l)
    ensures Run(rt, db, local, s, fuel + 1) == (Some(Err(e)), l)
  {
    RunStep(rt, db, local, s, fuel + 1);
  }

  // ----- one reference, fetched -----

  lemma {:induction false} ResolveUpToOne(rt: Runtime, fetched: Option<string>, listDb: Store.Db, local: Local, r: Ref)
    ensures ResolveUpTo(rt, [fetched], listDb, local, [r], 1) ==
      var (one, l) := ResolveOne(rt, fetched, listDb, local, r);
      (if one.Err? then Err(one.error) else Ok([one.value]), l)
  {
    assert ResolveUpTo(rt, [fetched], listDb, local, [r], 0) == (Ok([]), local);
    var (one, l) := ResolveOne(rt, fetched, listDb, local, r);
    if one.Ok? {
      assert [] + [one.value] == [one.value];
    }
  }

  lemma {:induction false} FillOneTag(r: Ref, v: string)
    ensures Concat(Hydrate.Texts(Hydrate.Fill([Hydrate.Slot(r), Hydrate.Lit("")], [v]))) == v
  {
    var ps := [Hydrate.Slot(r), Hydrate.Lit("")];
    assert [v][..0] == [];
    assert Hydrate.Fill(ps, [v]) == Hydrate.FillOne(Hydrate.Fill(ps, []), v);
    assert Hydrate.FirstSlot(ps) == 0;
    assert Hydrate.FillOne(ps, v) == [Hydrate.Lit(v), Hydrate.Lit("")];
    Hydrate.TextsOfLiterals([Hydrate.Lit(v), Hydrate.Lit("")], [v, ""]);
    assert Concat([v, ""]) == v + Concat([""]);
    assert Concat([""]) == "" + Concat([]);
  }

  /**
   * A string that is one reference not yet in `local`: the key is marked in progress and the
   * round is that reference's resolution.
   */
  lemma {:induction false} RoundOneTag(rt: Runtime, fetchDb: Store.Db, listDb: Store.Db, local: Local, r: Ref)
    requires Taggable(r) && r.key !in local
    ensures Round(rt, fetchDb, listDb, local, Tag(r)) ==
      var (one, l) := ResolveOne(rt, Store.StringAt(fetchDb, r.key), listDb, local[r.key := InProgress], r);
      (if one.Err? then Err(one.error) else Ok(Hydrate.Next(one.value)), l)
  {
    var pieces := [Hydrate.Slot(r), Hydrate.Lit("")];
    var fetched := Store.StringAt(fetchDb, r.key);
    OneTagBatch(fetchDb, local, r);
    var resolved := ResolveUpTo(rt, [fetched], listDb, local[r.key := InProgress], [r], 1);
    RoundResolved(rt, fetchDb, listDb, local, Tag(r), pieces, [fetched], resolved);
    ResolveUpToOne(rt, fetched, listDb, local[r.key := InProgress], r);
    if resolved.0.Ok? {
      FillOneTag(r, resolved.0.value[0]);
    }
  }

  /** The batch of a lone unknown reference: one slot, its key marked, its one value fetched. */
  lemma {:induction false} OneTagBatch(fetchDb: Store.Db, local: Local, r: Ref)
    requires Taggable(r) && r.key !in local
    ensures ExpandAll(local, Split(Tag(r))) == Ok([Hydrate.Slot(r), Hydrate.Lit("")])
    ensures Hydrate.Refs([Hydrate.Slot(r), Hydrate.Lit("")]) == [r]
    ensures MarkInProgress(local, Hydrate.Keys([r])) == local[r.key := InProgress]
    ensures Store.MGet(fetchDb, Hydrate.Keys([r])) == [Store.StringAt(fetchDb, r.key)]
  {
    OneTagExpands(local, r);
    OneSlotRefs(r);
    OneKey(r);
    MarkOne(local, r.key);
    MGetOne(fetchDb, r.key);
  }

  lemma {:induction false} OneSlotRefs(r: Ref)
    ensures Hydrate.Refs([Hydrate.Slot(r), Hydrate.Lit("")]) == [r]
  {
    var pieces := [Hydrate.Slot(r), Hydrate.Lit("")];
    assert pieces[1..] == [Hydrate.Lit("")];
    assert Hydrate.Refs([Hydrate.Lit("")]) == [];
  }

  lemma {:induction false} OneKey(r: Ref)
    ensures Hydrate.Keys([r]) == [r.key]
  {
  }

  lemma {:induction false} MarkOne(local: Local, key: string)
    ensures MarkInProgress(local, [key]) == local[key := InProgress]
  {
  }

  lemma {:induction false} MGetOne(db: Store.Db, key: string)
    ensures Store.MGet(db, [key]) == [Store.StringAt(db, key)]
  {
    assert [key][1..] == [];
  }

  lemma {:induction false} OneTagExpands(local: Local, r: Ref)
    requires Taggable(r) && r.key !in local
    ensures ExpandAll(local, Split(Tag(r))) == Ok([Hydrate.Slot(r), Hydrate.Lit("")])
  {
    CheckLocalStorage(local, r);
    ExpandTag(local, r);
  }

  /**
   * A missing key with no props: its own default (even "null") is its value; without one the
   * round is a 404 and the key is marked absent.
   */
  lemma {:induction false} MissingKey(rt: Runtime, fetchDb: Store.Db, listDb: Store.Db, local: Local, r: Ref)
    requires Taggable(r) && r.key !in local && |r.props| == 0
    requires r.key !in fetchDb && r.key !in listDb
    ensures r.def.Some? ==>
      Round(rt, fetchDb, listDb, local, Tag(r)) == (Ok(Hydrate.Next(r.def.value)), local[r.key := InProgress][UndefinedKey := Undef])
    ensures r.def.None? ==>
      Round(rt, fetchDb, listDb, local, Tag(r)) == (Err(Failure(ResourceNotFound, r.key + " not available")), local[r.key := Absent])
  {
    var marked := local[r.key := InProgress];
    assert Store.StringAt(fetchDb, r.key) == None;
    assert Store.Range(listDb, r.key, r.before, r.after, r.limit) == Ok([]);
    assert marked[r.key := Absent] == local[r.key := Absent];
    assert ResolveOne(rt, None, listDb, marked, r) ==
      if r.def.Some? then (Ok(r.def.value), marked[UndefinedKey := Undef])
      else (Err(Failure(ResourceNotFound, r.key + " not available")), local[r.key := Absent]);
    RoundOneTag(rt, fetchDb, listDb, local, r);
  }

  /** A key holding a sorted set: its in-range members, lowest score first, written `[a,b]`. */
  lemma {:induction false} ListKey(rt: Runtime, db: Store.Db, local: Local, r: Ref)
    requires Taggable(r) && r.key !in local && |r.props| == 0
    requires r.key in db && db[r.key].Sorted?
    ensures var es := Store.RangeEntries(db[r.key].entries, r.before, r.after, r.limit);
      && Store.SortedByScore(es)
      && (forall x :: x in es ==> x in db[r.key].entries && Store.InRange(x.1, r.after, r.before))
      && (|es| > 0 ==>
            Round(rt, db, db, local, Tag(r)) ==
              (Ok(Hydrate.Next("[" + Join(Store.Members(es), ",") + "]")), local[r.key := InProgress][UndefinedKey := Undef]))
  {
    RoundOneTag(rt, db, db, local, r);
    Store.RangeSpec(db, r.key, r.before, r.after, r.limit);
  }

  /**
   * The key was not a string when fetched but is one when listed (WRONGTYPE): `list` is
   * undefined and the round fails on `list.toString()`.
   */
  lemma {:induction false} WrongTypeRace(rt: Runtime, fetchDb: Store.Db, listDb: Store.Db, local: Local, r: Ref)
    requires Taggable(r) && r.key !in local
    requires Store.StringAt(fetchDb, r.key).None?
    requires r.key in listDb && listDb[r.key].Scalar?
    ensures Round(rt, fetchDb, listDb, local, Tag(r)) == (Err(Failure(TypeError, ListTypeError)), local[r.key := InProgress])
  {
    RoundOneTag(rt, fetchDb, listDb, local, r);
  }

  /** A key holding a string: the round puts the string in place of `${key}`. */
  lemma {:induction false} StringKeyRound(rt: Runtime, db: Store.Db, local: Local, key: string, v: string)
    requires PlainKey(key) && key !in local
    requires key in db && db[key] == Store.Scalar(v)
    ensures Round(rt, db, db, local, "${" + key + "}") == (Ok(Hydrate.Next(v)), local[key := InProgress][UndefinedKey := Undef])
  {
    KeyRefTaggable(key);
    KeyRefFormat(key);
    RoundOneTag(rt, db, db, local, KeyRef(key));
  }

  /** A key holding a string without references: hydrateKey returns the string after two rounds. */
  lemma {:induction false} StringKey(rt: Runtime, db: Store.Db, local: Local, key: string, v: string, fuel: nat)
    requires PlainKey(key) && key !in local
    requires key in db && db[key] == Store.Scalar(v) && !HasRefOpen(v)
    ensures HydrateKey(rt, db, local, key, fuel + 2) == (Some(Ok(v)), local[key := InProgress][UndefinedKey := Undef])
  {
    StringKeyRound(rt, db, local, key, v);
    RunLastTwo(rt, db, local, "${" + key + "}", v, local[key := InProgress][UndefinedKey := Undef], fuel);
  }

  // ----- keys stay in progress -----

  /** A batch that resolves has written nothing but `local["undefined"]`. */
  lemma {:induction false} ResolveUpToWrites(rt: Runtime, vals: seq<Option<string>>, listDb: Store.Db, local: Local, refs: seq<Ref>, k: nat)
    requires |vals| == |refs| && k <= |refs|
    requires ResolveUpTo(rt, vals, listDb, local, refs, k).0.Ok?
    ensures |ResolveUpTo(rt, vals, listDb, local, refs, k).0.value| == k
    ensures ResolveUpTo(rt, vals, listDb, local, refs, k).1 == if k == 0 then local else local[UndefinedKey := Undef]
  {
    if k > 0 {
      ResolveUpToWrites(rt, vals, listDb, local, refs, k - 1);
    }
  }

  /** Only keys not in `local` become slots. */
  lemma {:induction false} SlotsFresh(local: Local, xs: seq<string>)
    requires ExpandAll(local, xs).Ok?
    ensures forall r :: r in Hydrate.Refs(ExpandAll(local, xs).value) ==> r.key !in local
  {
    var ps := ExpandAll(local, xs).value;
    forall r | r in Hydrate.Refs(ps) ensures r.key !in local {
      var i := RefIndex(ps, r);
      assert Expand(local, xs[i]) == Ok(Hydrate.Slot(r));
    }
  }

  /** A reference object comes from a slot of the array. */
  lemma {:induction false} RefIndex(ps: seq<Hydrate.Piece>, r: Ref) returns (i: nat)
    requires r in Hydrate.Refs(ps)
    ensures i < |ps| && ps[i] == Hydrate.Slot(r)
  {
    if ps[0].Slot? && ps[0].ref == r {
      i := 0;
    } else {
      assert r in Hydrate.Refs(ps[1..]);
      var j := RefIndex(ps[1..], r);
      i := j + 1;
    }
  }

  /**
   * A round that goes on fetched at least one key not in `local`, leaves every fetched key in
   * progress (but the key "undefined") and changes no entry it found: the number of keys not
   * yet visited goes down with every round.
   */
  lemma {:induction false} RoundMarks(rt: Runtime, fetchDb: Store.Db, listDb: Store.Db, local: Local, s: string)
    requires Round(rt, fetchDb, listDb, local, s).0.Ok? && Round(rt, fetchDb, listDb, local, s).0.value.Next?
    ensures var l := Round(rt, fetchDb, listDb, local, s).1;
      && local.Keys < l.Keys
      && (forall k :: k in l && k !in local && k != UndefinedKey ==> l[k] == InProgress)
      && (forall k :: k in local && k != UndefinedKey ==> l[k] == local[k])
  {
    var pieces := ExpandAll(local, Split(s)).value;
    var refs := Hydrate.Refs(pieces);
    var keys := Hydrate.Keys(refs);
    var marked := MarkInProgress(local, keys);
    var vals := Store.MGet(fetchDb, keys);
    ResolveUpToWrites(rt, vals, listDb, marked, refs, |refs|);
    assert Round(rt, fetchDb, listDb, local, s).1 == marked[UndefinedKey := Undef];
    SlotsFresh(local, Split(s));
    assert forall i :: 0 <= i < |keys| ==> keys[i] !in local by {
      assert forall i :: 0 <= i < |refs| ==> refs[i] in refs;
    }
    MarksAfterBatch(local, keys);
  }

  /** The memo after a batch of fresh keys: the old entries, the keys in progress, `undefined` written. */
  lemma {:induction false} MarksAfterBatch(local: Local, keys: seq<string>)
    requires |keys| > 0 && forall i :: 0 <= i < |keys| ==> keys[i] !in local
    ensures var l := MarkInProgress(local, keys)[UndefinedKey := Undef];
      && local.Keys < l.Keys
      && (forall k :: k in l && k !in local && k != UndefinedKey ==> l[k] == InProgress)
      && (forall k :: k in local && k != UndefinedKey ==> l[k] == local[k])
  {
    var l := MarkInProgress(local, keys)[UndefinedKey := Undef];
    assert keys[0] in l && keys[0] !in local;
    assert forall k :: k in keys ==> k !in local;
  }

  /**
   * The memo write of lines 68-70 in action: a key fetched in one round and referred to
   * in a later one is reported as a cycle, even when the data has none (the same key reached
   * along two paths).
   */
  lemma {:induction false} SecondVisitIsCycle(rt: Runtime, db: Store.Db, local: Local, s: string, r: Ref, fetchDb: Store.Db, listDb: Store.Db)
    requires Round(rt, db, db, local, s).0.Ok? && Round(rt, db, db, local, s).0.value.Next?
    requires Taggable(r) && r.key !in local && r.key in Round(rt, db, db, local, s).1 && r.key != UndefinedKey
    ensures var l := Round(rt, db, db, local, s).1;
      Round(rt, fetchDb, listDb, l, Tag(r)) == (Err(Failure(InternalServer, "cycle detected in " + r.key)), l)
  {
    var l := Round(rt, db, db, local, s).1;
    RoundMarks(rt, db, db, local, s);
    CheckLocalStorage(l, r);
    ExpandTag(l, r);
    RoundExpandErr(rt, fetchDb, listDb, l, Tag(r));
  }

  /** A key whose string refers to itself: hydrateKey fails with the cycle error in the second round. */
  lemma {:induction false} SelfCycle(rt: Runtime, db: Store.Db, local: Local, key: string, fuel: nat)
    requires PlainKey(key) && key !in local && key != UndefinedKey
    requires key in db && db[key] == Store.Scalar("${" + key + "}")
    ensures HydrateKey(rt, db, local, key, fuel + 2) ==
      (Some(Err(Failure(InternalServer, "cycle detected in " + key))), local[key := InProgress][UndefinedKey := Undef])
  {
    var r := KeyRef(key);
    var l := local[key := InProgress][UndefinedKey := Undef];
    assert Tag(r) == "${" + key + "}" by {
      KeyRefFormat(key);
    }
    StringKeyRound(rt, db, local, key, "${" + key + "}");
    assert Round(rt, db, db, l, Tag(r)) == (Err(Failure(InternalServer, "cycle detected in " + key)), l) by {
      KeyRefTaggable(key);
      SecondVisitIsCycle(rt, db, local, Tag(r), r, db, db);
    }
    RunNext(rt, db, local, Tag(r), Tag(r), l, fuel + 1);
    RunErr(rt, db, l, Tag(r), Failure(InternalServer, "cycle detected in " + key), l, fuel);
  }

  /**
   * A round that goes on has put one value in the place of each reference, in order (lines
   * 71 and 91-95): the next text is the pieces with the i-th slot replaced by the i-th value.
   */
  lemma {:induction false} RoundSplices(rt: Runtime, fetchDb: Store.Db, listDb: Store.Db, local: Local, s: string)
    requires Round(rt, fetchDb, listDb, local, s).0.Ok? && Round(rt, fetchDb, listDb, local, s).0.value.Next?
    ensures var pieces := ExpandAll(local, Split(s)).value;
      var refs := Hydrate.Refs(pieces);
      var resolved := ResolveUpTo(rt, Store.MGet(fetchDb, Hydrate.Keys(refs)), listDb,
                                  MarkInProgress(local, Hydrate.Keys(refs)), refs, |refs|);
      && resolved.0.Ok?
      && Round(rt, fetchDb, listDb, local, s).0.value.text == Concat(Hydrate.Texts(Hydrate.Substitute(pieces, resolved.0.value)))
      && Hydrate.Refs(Hydrate.Substitute(pieces, resolved.0.value)) == []
  {
    var pieces := ExpandAll(local, Split(s)).value;
    var refs := Hydrate.Refs(pieces);
    var keys := Hydrate.Keys(refs);
    var resolved := ResolveUpTo(rt, Store.MGet(fetchDb, keys), listDb, MarkInProgress(local, keys), refs, |refs|);
    ResolveUpToWrites(rt, Store.MGet(fetchDb, keys), listDb, MarkInProgress(local, keys), refs, |refs|);
    Hydrate.FillIsSubstitute(pieces, resolved.0.value);
    Hydrate.SubstituteFull(pieces, resolved.0.value);
  }
}
