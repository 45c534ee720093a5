/**
 * What the production engine promises, proved about the functions of `Hydrate`: text without
 * references is returned as it is, only unmemoised references are fetched, memoised ones are
 * inlined and a reference that leads back to itself is reported as a cycle, a missing key
 * falls back to the reference's default and then to the request's, a list renders as
 * `[a,b]`, and a value equal to its own key is put back as a reference forever.
 */
module HydrateFacts {
  import opened Wrappers
  import opened Strings
  import opened Js
  import opened Reference
  import opened Hydrate
  import Store

  // ----- expansion -----

  /** Every slot among the pieces names a reference that is not memoised. */
  predicate FreshSlots(local: Local, ps: seq<Piece>)
  {
    forall p :: p in ps && p.Slot? ==> p.ref.key !in local
  }

  /** Slots are made only for references that are not memoised. */
  lemma {:induction false} ExpandSlotsFresh(local: Local, depth: nat, x: string, ps: seq<Piece>)
    requires Expand(local, depth, x) == Ok(ps)
    ensures FreshSlots(local, ps)
    decreases Budget(depth), 0, 1
  {
    var lit, slot, r, v := ExpandCases(local, depth, x, ps);
    if lit {
      OneLitFresh(local, x);
    } else if slot {
      OneSlotFresh(local, r);
    } else {
      MemoisedSlotsFresh(local, depth, Split(v), ps);
    }
  }

  /** A memoised value's pieces, expanded one level deeper, make slots only for references not memoised. */
  lemma {:induction false} MemoisedSlotsFresh(local: Local, depth: nat, xs: seq<string>, ps: seq<Piece>)
    requires depth <= MaxDepth && ExpandAll(local, depth + 1, xs) == Ok(ps)
    ensures FreshSlots(local, ps)
    decreases Budget(depth), 0, 0
  {
    ExpandAllSlotsFresh(local, depth + 1, xs, ps);
  }

  /**
   * What a piece that expands without error expands to: itself, a slot for a reference that is
   * not memoised, or the pieces of a memoised value one level deeper.
   */
  lemma {:induction false} ExpandCases(local: Local, depth: nat, x: string, ps: seq<Piece>)
    returns (lit: bool, slot: bool, r: Ref, v: string)
    requires Expand(local, depth, x) == Ok(ps)
    ensures lit ==> ps == [Lit(x)]
    ensures !lit && slot ==> r.key !in local && ps == [Slot(r)]
    ensures !lit && !slot ==> depth <= MaxDepth && ExpandAll(local, depth + 1, Split(v)) == Ok(ps)
  {
    lit, slot, v := !HasRefOpen(x), false, "";
    r := SanitizeKey(RemoveRefTag(x));
    if !lit {
      slot := r.key !in local;
      if !slot {
        v := local[r.key].value;
      }
    }
  }

  lemma {:induction false} OneLitFresh(local: Local, x: string)
    ensures FreshSlots(local, [Lit(x)])
  {
  }

  lemma {:induction false} OneSlotFresh(local: Local, r: Ref)
    requires r.key !in local
    ensures FreshSlots(local, [Slot(r)])
  {
  }

  lemma {:induction false} ExpandAllSlotsFresh(local: Local, depth: nat, xs: seq<string>, ps: seq<Piece>)
    requires ExpandAll(local, depth, xs) == Ok(ps)
    ensures FreshSlots(local, ps)
    decreases Budget(depth), 1, |xs|
  {
    if |xs| > 0 {
      var a := Expand(local, depth, xs[0]).value;
      var b := ExpandAll(local, depth, xs[1..]).value;
      ExpandSlotsFresh(local, depth, xs[0], a);
      ExpandAllSlotsFresh(local, depth, xs[1..], b);
      FreshSlotsConcat(local, a, b);
    }
  }

  lemma {:induction false} FreshSlotsConcat(local: Local, a: seq<Piece>, b: seq<Piece>)
    requires FreshSlots(local, a) && FreshSlots(local, b)
    ensures FreshSlots(local, a + b)
  {
  }

  /** Pieces without `${` stay literal text, in order. */
  lemma {:induction false} ExpandAllLiterals(local: Local, depth: nat, xs: seq<string>)
    requires forall i :: 0 <= i < |xs| ==> !HasRefOpen(xs[i])
    ensures ExpandAll(local, depth, xs).Ok?
    ensures |ExpandAll(local, depth, xs).value| == |xs|
    ensures forall i :: 0 <= i < |xs| ==> ExpandAll(local, depth, xs).value[i] == Lit(xs[i])
  {
    if |xs| > 0 {
      assert forall i :: 0 <= i < |xs[1..]| ==> xs[1..][i] == xs[i + 1];
      ExpandAllLiterals(local, depth, xs[1..]);
      assert Expand(local, depth, xs[0]) == Ok([Lit(xs[0])]);
      var rest := ExpandAll(local, depth, xs[1..]);
      assert rest.Ok?;
      assert ExpandAll(local, depth, xs) == Ok([Lit(xs[0])] + rest.value);
    }
  }

  lemma {:induction false} RefsOfLiterals(ps: seq<Piece>)
    requires forall i :: 0 <= i < |ps| ==> ps[i].Lit?
    ensures Refs(ps) == []
  {
    if |ps| > 0 {
      RefsOfLiterals(ps[1..]);
    }
  }

  /**
   * A string without `${` is the last round: it comes back unchanged.  The very first
   * round of a request cannot be such a string: it reads `def` of a missing first reference.
   */
  lemma {:induction false} NoRefsRound(rt: Runtime, fetchDb: Store.Db, listDb: Store.Db, local: Local, s: string)
    requires !HasRefOpen(s)
    ensures |local| > 0 ==> Round(rt, fetchDb, listDb, local, s) == Ok((Done(s), local))
    ensures |local| == 0 ==>
      Round(rt, fetchDb, listDb, local, s) == Err(Failure(TypeError, "Cannot read property 'def' of undefined"))
  {
    NoRefOpenNoRefs(s);
    var xs := Split(s);
    assert forall i :: 0 <= i < |xs| ==> !HasRefOpen(xs[i]) by {
      assert forall i :: 0 <= i < |xs| ==> xs[i] in xs;
    }
    ExpandAllLiterals(local, 0, xs);
    var pieces := ExpandAll(local, 0, xs).value;
    RefsOfLiterals(pieces);
    TextsOfLiterals(pieces, xs);
    SplitConcat(s);
    RoundNoRefs(rt, fetchDb, listDb, local, s, pieces);
  }

  /** hydrateString on text without references returns it after one round. */
  lemma {:induction false} NoRefsRun(rt: Runtime, db: Store.Db, local: Local, s: string, fuel: nat)
    requires !HasRefOpen(s) && |local| > 0 && fuel > 0
    ensures Run(rt, db, local, s, fuel) == (Some(Ok(s)), local)
  {
    NoRefsRound(rt, db, db, local, s);
  }

  /** `createReferenceObject` on two pieces: the first error, or both expansions in order. */
  lemma {:induction false} ExpandAllTwo(local: Local, depth: nat, a: string, b: string)
    ensures Expand(local, depth, a).Err? ==> ExpandAll(local, depth, [a, b]) == Err(Expand(local, depth, a).error)
    ensures Expand(local, depth, a).Ok? && Expand(local, depth, b).Ok? ==>
      ExpandAll(local, depth, [a, b]) == Ok(Expand(local, depth, a).value + Expand(local, depth, b).value)
  {
    assert [a, b][1..] == [b];
    assert [b][1..] == [];
    if Expand(local, depth, b).Ok? {
      var vb := Expand(local, depth, b).value;
      assert ExpandAll(local, depth, [b]) == Ok(vb + []);
      assert vb + [] == vb;
    }
  }

  lemma {:induction false} ExpandEmpty(local: Local, depth: nat)
    ensures Expand(local, depth, "") == Ok([Lit("")])
  {
  }

  /** A reference not memoised, within the depth bound, becomes a slot. */
  lemma {:induction false} ExpandTagPiece(local: Local, depth: nat, r: Ref)
    requires Taggable(r) && r.key !in local && depth <= MaxDepth
    ensures Expand(local, depth, Tag(r)) == Ok([Slot(r)])
  {
    ParseTag(r);
    TagOpens(r);
  }

  /** A reference alone in a string, not memoised: expansion leaves it as the one slot. */
  lemma {:induction false} ExpandTag(local: Local, r: Ref)
    requires Taggable(r) && r.key !in local
    ensures ExpandAll(local, 0, Split(Tag(r))) == Ok([Slot(r), Lit("")])
  {
    SplitTag(r);
    ExpandTagPiece(local, 0, r);
    ExpandLone(local, Tag(r), Split(Tag(r)), Slot(r));
  }

  /** A piece followed by empty text expands to the piece's expansion and the empty literal. */
  lemma {:induction false} ExpandLone(local: Local, x: string, xs: seq<string>, q: Piece)
    requires xs == [x, ""] && Expand(local, 0, x) == Ok([q])
    ensures ExpandAll(local, 0, xs) == Ok([q, Lit("")])
  {
    ExpandEmpty(local, 0);
    ExpandAllTwo(local, 0, x, "");
    assert [q] + [Lit("")] == [q, Lit("")];
  }

  // ----- cycles -----

  /** A memoised reference within the depth bound is replaced by its value's pieces, one level down. */
  lemma {:induction false} ExpandMemoised(local: Local, depth: nat, x: string, v: string)
    requires HasRefOpen(x) && depth <= MaxDepth
    requires SanitizeKey(RemoveRefTag(x)).key in local && local[SanitizeKey(RemoveRefTag(x)).key] == Some(v)
    ensures Expand(local, depth, x) == ExpandAll(local, depth + 1, Split(v))
  {
  }

  /** Past the depth bound every reference is a cycle. */
  lemma {:induction false} ExpandTooDeep(local: Local, depth: nat, x: string)
    requires HasRefOpen(x) && depth > MaxDepth
    ensures Expand(local, depth, x) == Err(Failure(CycleDetected, "Cycle Detected in " + SanitizeKey(RemoveRefTag(x)).key))
  {
  }

  /**
   * A key memoised as a reference to itself: inlining it goes on until the depth passes
   * the bound, and the error names the key.
   */
  lemma {:induction false} SelfCycle(local: Local, depth: nat, key: string)
    requires PlainKey(key) && key in local && local[key] == Some("${" + key + "}")
    ensures Expand(local, depth, "${" + key + "}") == Err(Failure(CycleDetected, "Cycle Detected in " + key))
    decreases Budget(depth)
  {
    var r := KeyRef(key);
    var x := "${" + key + "}";
    KeyRefTaggable(key);
    KeyRefFormat(key);
    ParseTag(r);
    TagOpens(r);
    if depth <= MaxDepth {
      SplitTag(r);
      ExpandMemoised(local, depth, x, x);
      SelfCycle(local, depth + 1, key);
      ExpandAllTwo(local, depth + 1, x, "");
    } else {
      ExpandTooDeep(local, depth, x);
    }
  }

  /** The round on `${key}` with that memo fails with the cycle error. */
  lemma {:induction false} SelfCycleRound(rt: Runtime, fetchDb: Store.Db, listDb: Store.Db, local: Local, key: string)
    requires PlainKey(key) && key in local && local[key] == Some("${" + key + "}")
    ensures Round(rt, fetchDb, listDb, local, "${" + key + "}") == Err(Failure(CycleDetected, "Cycle Detected in " + key))
  {
    var x := "${" + key + "}";
    KeyRefTaggable(key);
    KeyRefFormat(key);
    SplitTag(KeyRef(key));
    SelfCycle(local, 0, key);
    ExpandAllTwo(local, 0, x, "");
    RoundExpandErr(rt, fetchDb, listDb, local, x);
  }

  // ----- one reference, fetched -----

  lemma {:induction false} MGetOne(db: Store.Db, key: string)
    ensures Store.MGet(db, [key]) == [Store.StringAt(db, key)]
  {
  }

  lemma {:induction false} FillOneTag(r: Ref, v: string)
    ensures Concat(Texts(Fill([Slot(r), Lit("")], [v]))) == v
  {
    var ps := [Slot(r), Lit("")];
    assert [v][..0] == [];
    assert Fill(ps, [v]) == FillOne(Fill(ps, []), v);
    assert FirstSlot(ps) == 0;
    assert FillOne(ps, v) == [Lit(v), Lit("")];
    TextsOfLiterals([Lit(v), Lit("")], [v, ""]);
    assert Concat([v, ""]) == v + Concat([""]);
    assert Concat([""]) == "" + Concat([]);
  }

  lemma {:induction false} ResolveUpToOne(rt: Runtime, fetched: Option<string>, listDb: Store.Db, local: Local, r: Ref)
    ensures ResolveUpTo(rt, [fetched], listDb, local, [r], 1) ==
      match ResolveOne(rt, fetched, listDb, local, r)
      case Err(e) => Err(e)
      case Ok((v, l)) => Ok(([v], l))
  {
    assert ResolveUpTo(rt, [fetched], listDb, local, [r], 0) == Ok(([], local));
    var one := ResolveOne(rt, fetched, listDb, local, r);
    if one.Ok? {
      assert ResolveUpTo(rt, [fetched], listDb, local, [r], 1) == Ok(([] + [one.value.0], one.value.1));
      assert [] + [one.value.0] == [one.value.0];
    }
  }

  /** A string that is one unmemoised reference: the round is that reference's resolution. */
  lemma {:induction false} RoundOneTag(rt: Runtime, fetchDb: Store.Db, listDb: Store.Db, local: Local, r: Ref)
    requires Taggable(r) && r.key !in local
    ensures Round(rt, fetchDb, listDb, local, Tag(r)) ==
      match ResolveOne(rt, Store.StringAt(fetchDb, r.key), listDb, WithDefault(local, [r]), r)
      case Err(e) => Err(e)
      case Ok((v, l)) => Ok((Next(v), l))
  {
    var pieces := [Slot(r), Lit("")];
    ExpandTag(local, r);
    assert Refs(pieces) == [r] by {
      assert pieces[1..] == [Lit("")];
      assert Refs([Lit("")]) == [];
    }
    assert Keys([r]) == [r.key];
    MGetOne(fetchDb, r.key);
    var fetched := Store.StringAt(fetchDb, r.key);
    var local1 := WithDefault(local, [r]);
    ResolveUpToOne(rt, fetched, listDb, local1, r);
    var resolved := ResolveUpTo(rt, [fetched], listDb, local1, [r], 1);
    RoundResolved(rt, fetchDb, listDb, local, Tag(r), pieces, [fetched], resolved);
    if resolved.Ok? {
      FillOneTag(r, resolved.value.0[0]);
    }
  }

  /**
   * A missing key with no props: its own default is used (and memoised) first; without one
   * the request's default is the error's payload; without that the key is not available.
   */
  lemma {:induction false} MissingKey(rt: Runtime, db: Store.Db, local: Local, r: Ref)
    requires Taggable(r) && r.key !in local && r.key !in db && |r.props| == 0
    ensures r.def.Some? && r.def.value != r.key ==>
      Round(rt, db, db, local, Tag(r)) == Ok((Next(r.def.value), WithDefault(local, [r])[r.key := r.def]))
    ensures r.def.None? && GlobalDefault(local).Some? ==>
      Round(rt, db, db, local, Tag(r)) == Err(Failure(DefaultAsKeyNotFound, GlobalDefault(local).value))
    ensures r.def.None? && GlobalDefault(local).None? ==>
      Round(rt, db, db, local, Tag(r)) == Err(Failure(KeyNotFound, r.key + " not available"))
  {
    RoundOneTag(rt, db, db, local, r);
    Store.RangeSpec(db, r.key, r.before, r.after, r.limit);
  }

  /**
   * A key holding a sorted set: the round writes its in-range members, lowest score first and
   * at most `limit` of them, as `[a,b]`.
   */
  lemma {:induction false} ListKey(rt: Runtime, db: Store.Db, local: Local, r: Ref)
    requires Taggable(r) && r.key !in local && |r.props| == 0
    requires r.key in db && db[r.key].Sorted?
    ensures var es := Store.RangeEntries(db[r.key].entries, r.before, r.after, r.limit);
      var text := "[" + Join(Store.Members(es), ",") + "]";
      && Store.SortedByScore(es)
      && (forall x :: x in es ==> x in db[r.key].entries && Store.InRange(x.1, r.after, r.before))
      && (|es| > 0 && text != r.key ==>
            Round(rt, db, db, local, Tag(r)) == Ok((Next(text), WithDefault(local, [r])[r.key := Some(text)])))
  {
    RoundOneTag(rt, db, db, local, r);
    Store.RangeSpec(db, r.key, r.before, r.after, r.limit);
  }

  /**
   * The race the engine tolerates: the key was not a string when fetched but is one when
   * listed (WRONGTYPE); the reference goes back into the text for the next round, unmemoised.
   */
  lemma {:induction false} WrongTypeRace(rt: Runtime, fetchDb: Store.Db, listDb: Store.Db, local: Local, r: Ref)
    requires Taggable(r) && r.key !in local && |local| > 0 && |r.props| == 0
    requires Store.StringAt(fetchDb, r.key).None?
    requires r.key in listDb && listDb[r.key].Scalar?
    ensures Round(rt, fetchDb, listDb, local, Tag(r)) == Ok((Next("${" + r.key + "}"), local))
  {
    RoundOneTag(rt, fetchDb, listDb, local, r);
  }

  /** A key holding a string other than its own name: the string replaces the reference and is memoised. */
  lemma {:induction false} StringKey(rt: Runtime, db: Store.Db, local: Local, key: string, v: string)
    requires PlainKey(key) && key !in local && |local| > 0
    requires key in db && db[key] == Store.Scalar(v) && v != key
    ensures Round(rt, db, db, local, "${" + key + "}") == Ok((Next(v), local[key := Some(v)]))
  {
    KeyRefTaggable(key);
    KeyRefFormat(key);
    RoundOneTag(rt, db, db, local, KeyRef(key));
  }

  /** A key whose string is its own name is put back as `${key}`, and nothing is memoised. */
  lemma {:induction false} SelfNamedRound(rt: Runtime, db: Store.Db, local: Local, key: string)
    requires PlainKey(key) && key !in local && |local| > 0
    requires key in db && db[key] == Store.Scalar(key)
    ensures Round(rt, db, db, local, "${" + key + "}") == Ok((Next("${" + key + "}"), local))
  {
    var r := KeyRef(key);
    KeyRefTaggable(key);
    KeyRefFormat(key);
    assert WithDefault(local, [r]) == local;
    assert Store.StringAt(db, key) == Some(key);
    assert ResolveOne(rt, Some(key), db, local, r) == Ok(("${" + key + "}", local));
    RoundOneTag(rt, db, db, local, r);
  }

  /** A round that gives back its own text and memo object is repeated until the rounds run out. */
  lemma {:induction false} RunFixedPoint(rt: Runtime, db: Store.Db, local: Local, s: string, fuel: nat)
    requires Round(rt, db, db, local, s) == Ok((Next(s), local))
    ensures Run(rt, db, local, s, fuel) == (None, local)
  {
    forall f: nat | f > 0 ensures Run(rt, db, local, s, f) == Run(rt, db, local, s, f - 1) {
      RunAfterRound(rt, db, local, s, f, Ok(Next(s)), local);
    }
    Stalls(rt, db, local, s, fuel);
  }

  lemma {:induction false} Stalls(rt: Runtime, db: Store.Db, local: Local, s: string, fuel: nat)
    requires forall f: nat :: f > 0 ==> Run(rt, db, local, s, f) == Run(rt, db, local, s, f - 1)
    ensures Run(rt, db, local, s, fuel) == (None, local)
    decreases fuel
  {
    if fuel > 0 {
      Stalls(rt, db, local, s, fuel - 1);
    }
  }

  /** So hydrateString never finishes on such a key, whatever the number of rounds allowed. */
  lemma {:induction false} SelfNamedValue(rt: Runtime, db: Store.Db, local: Local, key: string, fuel: nat)
    requires PlainKey(key) && key !in local && |local| > 0
    requires key in db && db[key] == Store.Scalar(key)
    ensures Run(rt, db, local, "${" + key + "}", fuel) == (None, local)
  {
    SelfNamedRound(rt, db, local, key);
    RunFixedPoint(rt, db, local, "${" + key + "}", fuel);
  }

  // ----- the batch of references -----

  /**
   * Resolving a batch: one value per reference, the memo object only grows, and its new keys
   * are keys of the batch.
   */
  lemma {:induction false} ResolveUpToMemo(rt: Runtime, vals: seq<Option<string>>, listDb: Store.Db, local: Local, refs: seq<Ref>, k: nat)
    requires |vals| == |refs| && k <= |refs|
    requires ResolveUpTo(rt, vals, listDb, local, refs, k).Ok?
    ensures var (values, l) := ResolveUpTo(rt, vals, listDb, local, refs, k).value;
      && |values| == k
      && local.Keys <= l.Keys
      && (forall key :: key in l && key !in local ==> key in Keys(refs))
  {
    if k > 0 {
      ResolveUpToMemo(rt, vals, listDb, local, refs, k - 1);
      assert refs[k - 1].key == Keys(refs)[k - 1];
    }
  }

  /**
   * A round that continues has put one value in the place of each reference, in order: the
   * next text is the pieces with the i-th slot replaced by the i-th value, and no slot is left.
   */
  lemma {:induction false} RoundSplices(rt: Runtime, fetchDb: Store.Db, listDb: Store.Db, local: Local, s: string)
    requires ExpandAll(local, 0, Split(s)).Ok?
    requires Round(rt, fetchDb, listDb, local, s).Ok? && Round(rt, fetchDb, listDb, local, s).value.0.Next?
    ensures var pieces := ExpandAll(local, 0, Split(s)).value;
      var refs := Refs(pieces);
      var vals := Store.MGet(fetchDb, Keys(refs));
      var resolved := ResolveUpTo(rt, vals, listDb, WithDefault(local, refs), refs, |refs|);
      && resolved.Ok?
      && Round(rt, fetchDb, listDb, local, s).value.0.text == Concat(Texts(Substitute(pieces, resolved.value.0)))
      && Refs(Substitute(pieces, resolved.value.0)) == []
  {
    var pieces := ExpandAll(local, 0, Split(s)).value;
    var refs := Refs(pieces);
    var vals := Store.MGet(fetchDb, Keys(refs));
    var resolved := ResolveUpTo(rt, vals, listDb, WithDefault(local, refs), refs, |refs|);
    ResolveUpToMemo(rt, vals, listDb, WithDefault(local, refs), refs, |refs|);
    FillIsSubstitute(pieces, resolved.value.0);
    SubstituteFull(pieces, resolved.value.0);
  }
}
