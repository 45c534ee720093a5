/**
 * The in-memory key/value + sorted-set store of lib/db.js.  A key holds either a string or
 * a sorted set: an object from member to score, kept here as its (member, score) pairs in
 * the object's enumeration (insertion) order.  The store operations are pure functions over
 * the store contents (`Db`); the class `MemoryStore` holds the contents in a field and
 * performs them in place, as the source's `store` object does.
 */
module Store {
  import opened Wrappers

  /** A sorted set: (member, score) pairs in insertion order. */
  type Entries = seq<(string, int)>

  datatype Value = Scalar(text: string) | Sorted(entries: Entries)

  type Db = map<string, Value>

  /** The error with code WRONGTYPE: an operation against a key holding the other kind of value. */
  datatype StoreError = WrongType

  /** A score bound: `-Infinity`, a number, `Infinity`. */
  datatype Bound = NegInf | Fin(n: int) | PosInf

  /** A count cap: `Infinity` or a number. */
  datatype Limit = Unlimited | AtMost(n: nat)

  predicate AtLeast(score: int, b: Bound)
  {
    match b
    case NegInf => true
    case Fin(n) => score >= n
    case PosInf => false
  }

  predicate NoMoreThan(score: int, b: Bound)
  {
    match b
    case NegInf => false
    case Fin(n) => score <= n
    case PosInf => true
  }

  /** The test `x[1] >= after && x[1] <= before`. */
  predicate InRange(score: int, after: Bound, before: Bound)
  {
    AtLeast(score, after) && NoMoreThan(score, before)
  }

  predicate IsMember(es: Entries, m: string)
  {
    exists i :: 0 <= i < |es| && es[i].0 == m
  }

  /** An object has each property once. */
  predicate UniqueMembers(es: Entries)
  {
    forall i, j :: 0 <= i < j < |es| ==> es[i].0 != es[j].0
  }

  predicate WellFormed(db: Db)
  {
    forall k :: k in db && db[k].Sorted? ==> UniqueMembers(db[k].entries)
  }

  /** The member -> score object that the entries stand for. */
  function Scores(es: Entries): (m: map<string, int>)
    ensures forall x :: x in m <==> IsMember(es, x)
  {
    if |es| == 0 then map[]
    else
      var rest := Scores(es[1..]);
      assert forall x :: IsMember(es, x) <==> x == es[0].0 || IsMember(es[1..], x) by {
        forall x | IsMember(es, x) && x != es[0].0 ensures IsMember(es[1..], x) {
          var i :| 0 <= i < |es| && es[i].0 == x;
          assert es[1..][i - 1].0 == x;
        }
        forall x | IsMember(es[1..], x) ensures IsMember(es, x) {
          var i :| 0 <= i < |es[1..]| && es[1..][i].0 == x;
          assert es[i + 1].0 == x;
        }
      }
      rest[es[0].0 := es[0].1]
  }

  // ----- reading -----

  /** getKey (lib/db.js:48-59). */
  function Get(db: Db, key: string): Result<Option<string>, StoreError>
  {
    if key !in db then Ok(None)
    else match db[key]
      case Scalar(s) => Ok(Some(s))
      case Sorted(_) => Err(WrongType)
  }

  /** What getMultiple reports for one key: its string, or null. */
  function StringAt(db: Db, key: string): Option<string>
  {
    if key in db && db[key].Scalar? then Some(db[key].text) else None
  }

  /** getMultiple (lib/db.js:79-85). */
  function MGet(db: Db, keys: seq<string>): (r: seq<Option<string>>)
    ensures |r| == |keys|
    ensures forall i :: 0 <= i < |keys| ==>
      (r[i].Some? <==> keys[i] in db && db[keys[i]].Scalar?) &&
      (r[i].Some? ==> db[keys[i]] == Scalar(r[i].value))
  {
    if |keys| == 0 then [] else [StringAt(db, keys[0])] + MGet(db, keys[1..])
  }

  predicate SortedByScore(es: Entries)
  {
    forall i, j :: 0 <= i < j < |es| ==> es[i].1 <= es[j].1
  }

  /** Insert before the first entry whose score is not smaller (keeps equal scores in order). */
  function InsertByScore(e: (string, int), es: Entries): (r: Entries)
    ensures multiset(r) == multiset(es) + multiset{e}
  {
    if |es| == 0 then [e]
    else if e.1 <= es[0].1 then [e] + es
    else
      assert es == [es[0]] + es[1..];
      [es[0]] + InsertByScore(e, es[1..])
  }

  lemma {:induction false} InsertSorted(e: (string, int), es: Entries)
    requires SortedByScore(es)
    ensures SortedByScore(InsertByScore(e, es))
  {
    if |es| > 0 && e.1 > es[0].1 {
      var tail := InsertByScore(e, es[1..]);
      InsertSorted(e, es[1..]);
      InsertMembers(e, es[1..]);
      forall j | 0 <= j < |tail| ensures es[0].1 <= tail[j].1 {
        assert tail[j] in tail;
        if tail[j] != e {
          var k :| 0 <= k < |es[1..]| && es[1..][k] == tail[j];
          assert es[k + 1] == tail[j];
        }
      }
      SortedCons(es[0], tail);
    }
  }

  /** What an insertion holds: the new entry and the old ones. */
  lemma {:induction false} InsertMembers(e: (string, int), es: Entries)
    ensures forall x :: x in InsertByScore(e, es) ==> x == e || x in es
  {
    var r := InsertByScore(e, es);
    forall x | x in r ensures x == e || x in es {
      assert x in multiset(r);
    }
  }

  lemma {:induction false} SortedCons(x: (string, int), es: Entries)
    requires SortedByScore(es) && forall j :: 0 <= j < |es| ==> x.1 <= es[j].1
    ensures SortedByScore([x] + es)
  {
    var r := [x] + es;
    forall i, j | 0 <= i < j < |r| ensures r[i].1 <= r[j].1 {
      assert r[j] == es[j - 1];
      if i > 0 {
        assert r[i] == es[i - 1];
      }
    }
  }

  /** The stable sort of `sortBy((a, b) => a[1] - b[1])`. */
  function SortByScore(es: Entries): (r: Entries)
    ensures SortedByScore(r)
    ensures multiset(r) == multiset(es)
  {
    if |es| == 0 then []
    else
      assert es == [es[0]] + es[1..];
      var tail := SortByScore(es[1..]);
      InsertSorted(es[0], tail);
      InsertByScore(es[0], tail)
  }

  /** The entries whose score lies between `after` and `before`, in order. */
  function InRangeEntries(es: Entries, after: Bound, before: Bound): (r: Entries)
    ensures forall x :: x in r <==> x in es && InRange(x.1, after, before)
    ensures multiset(r) <= multiset(es)
  {
    if |es| == 0 then []
    else
      assert es == [es[0]] + es[1..];
      if InRange(es[0].1, after, before) then [es[0]] + InRangeEntries(es[1..], after, before)
      else InRangeEntries(es[1..], after, before)
  }

  /** `take(limit)`. */
  function Take<T>(s: seq<T>, limit: Limit): (r: seq<T>)
    ensures r <= s
    ensures limit.AtMost? ==> |r| == if limit.n < |s| then limit.n else |s|
    ensures limit.Unlimited? ==> r == s
  {
    match limit
    case Unlimited => s
    case AtMost(n) => if n < |s| then s[..n] else s
  }

  /** `pluck(0)`. */
  function Members(es: Entries): seq<string>
  {
    if |es| == 0 then [] else [es[0].0] + Members(es[1..])
  }

  lemma {:induction false} MembersLength(es: Entries)
    ensures |Members(es)| == |es|
  {
    if |es| > 0 {
      MembersLength(es[1..]);
    }
  }

  /** The entries listKey returns for a sorted set, before the members are plucked. */
  function RangeEntries(es: Entries, before: Bound, after: Bound, limit: Limit): Entries
  {
    Take(SortByScore(InRangeEntries(es, after, before)), limit)
  }

  /**
   * `r` lists the lowest-scored of `candidates` in ascending score order: as many of them as
   * `limit` allows, and no candidate left out scores below one listed.
   */
  predicate LowestByScore(r: Entries, candidates: Entries, limit: Limit)
  {
    && SortedByScore(r)
    && multiset(r) <= multiset(candidates)
    && |r| == (if limit.AtMost? && limit.n < |candidates| then limit.n else |candidates|)
    && forall x, y :: x in r && y in multiset(candidates) - multiset(r) ==> x.1 <= y.1
  }

  /**
   * What listKey promises of a sorted set: the members scored between `after` and `before`,
   * ascending by score, the `limit` lowest-scored of them, and all of them when there is no limit.
   */
  lemma {:induction false} RangeEntriesSpec(es: Entries, before: Bound, after: Bound, limit: Limit)
    ensures var r := RangeEntries(es, before, after, limit);
      && LowestByScore(r, InRangeEntries(es, after, before), limit)
      && (forall x :: x in r ==> x in es && InRange(x.1, after, before))
      && (limit.Unlimited? ==> multiset(r) == multiset(InRangeEntries(es, after, before)))
  {
    var inr := InRangeEntries(es, after, before);
    var sorted := SortByScore(inr);
    var r := RangeEntries(es, before, after, limit);
    SortedPrefixLowest(sorted, r);
    forall x | x in r ensures x in es && InRange(x.1, after, before) {
      assert x in multiset(r);
    }
  }

  /** A prefix of a list sorted by score is sorted, and no entry after it scores below one in it. */
  lemma {:induction false} SortedPrefixLowest(sorted: Entries, r: Entries)
    requires SortedByScore(sorted) && r <= sorted
    ensures SortedByScore(r) && multiset(r) <= multiset(sorted)
    ensures forall x, y :: x in r && y in multiset(sorted) - multiset(r) ==> x.1 <= y.1
  {
    var k := |r|;
    assert sorted == r + sorted[k..];
    assert multiset(sorted) == multiset(r) + multiset(sorted[k..]);
    forall i, j | 0 <= i < j < |r| ensures r[i].1 <= r[j].1 {
      assert r[i] == sorted[i] && r[j] == sorted[j];
    }
    forall x, y | x in r && y in multiset(sorted) - multiset(r) ensures x.1 <= y.1 {
      assert y in multiset(sorted[k..]);
      var i :| 0 <= i < k && r[i] == x;
      var j :| 0 <= j < |sorted| - k && sorted[k..][j] == y;
      assert sorted[i] == x && sorted[k + j] == y;
    }
  }

  /** listKey (lib/db.js:60-78). */
  function Range(db: Db, key: string, before: Bound, after: Bound, limit: Limit): Result<seq<string>, StoreError>
  {
    if key !in db then Ok([])
    else match db[key]
      case Scalar(_) => Err(WrongType)
      case Sorted(es) => Ok(Members(RangeEntries(es, before, after, limit)))
  }

  /** A sorted set lists exactly its in-range members in score order; a missing key lists nothing. */
  lemma {:induction false} RangeSpec(db: Db, key: string, before: Bound, after: Bound, limit: Limit)
    ensures key !in db ==> Range(db, key, before, after, limit) == Ok([])
    ensures key in db && db[key].Scalar? ==> Range(db, key, before, after, limit) == Err(WrongType)
    ensures key in db && db[key].Sorted? ==>
      var es := db[key].entries;
      var r := RangeEntries(es, before, after, limit);
      && Range(db, key, before, after, limit) == Ok(Members(r))
      && LowestByScore(r, InRangeEntries(es, after, before), limit)
      && (forall x :: x in r ==> x in es && InRange(x.1, after, before))
      && (limit.Unlimited? ==> multiset(r) == multiset(InRangeEntries(es, after, before)))
  {
    if key in db && db[key].Sorted? {
      RangeEntriesSpec(db[key].entries, before, after, limit);
    }
  }

  // ----- writing -----

  /** setKey (lib/db.js:86-89); the reply is "OK". */
  function Set(db: Db, key: string, value: string): Db
  {
    db[key := Scalar(value)]
  }

  /** delKey (lib/db.js:90-94): the new contents and the reply. */
  function Delete(db: Db, key: string): (Db, nat)
  {
    (db - {key}, if key in db then 1 else 0)
  }

  /** `set[member] = score` on the object: update in place, or append a new property. */
  function Upsert(es: Entries, m: string, score: int): Entries
  {
    if |es| == 0 then [(m, score)]
    else if es[0].0 == m then [(m, score)] + es[1..]
    else [es[0]] + Upsert(es[1..], m, score)
  }

  /** After the upsert the object maps `m` to `score` and every other member as before. */
  lemma {:induction false} UpsertScores(es: Entries, m: string, score: int)
    ensures Scores(Upsert(es, m, score)) == Scores(es)[m := score]
  {
    if |es| > 0 {
      var r := Upsert(es, m, score);
      if es[0].0 == m {
        assert r[1..] == es[1..];
      } else {
        UpsertScores(es[1..], m, score);
        assert r[1..] == Upsert(es[1..], m, score);
      }
    }
  }

  lemma {:induction false} UpsertUnique(es: Entries, m: string, score: int)
    requires UniqueMembers(es)
    ensures UniqueMembers(Upsert(es, m, score))
  {
    if |es| > 0 {
      if es[0].0 == m {
        var r := Upsert(es, m, score);
        forall i, j | 0 <= i < j < |r| ensures r[i].0 != r[j].0 {
          assert r[j] == es[j];
          if i > 0 {
            assert r[i] == es[i];
          }
        }
      } else {
        var tail := Upsert(es[1..], m, score);
        UpsertUnique(es[1..], m, score);
        UpsertScores(es[1..], m, score);
        forall j | 0 <= j < |tail| ensures tail[j].0 != es[0].0 {
          assert IsMember(tail, tail[j].0);
          if tail[j].0 != m {
            assert IsMember(es[1..], tail[j].0);
            var k :| 0 <= k < |es[1..]| && es[1..][k].0 == tail[j].0;
            assert es[k + 1].0 == tail[j].0;
          }
        }
        var r := [es[0]] + tail;
        forall i, j | 0 <= i < j < |r| ensures r[i].0 != r[j].0 {
          assert r[j] == tail[j - 1];
          if i > 0 {
            assert r[i] == tail[i - 1];
          }
        }
      }
    }
  }

  /** addToKey (lib/db.js:95-107): an absent key becomes an empty set first; a string is WRONGTYPE. */
  function AddMember(db: Db, key: string, score: int, member: string): Result<Db, StoreError>
  {
    if key !in db then Ok(db[key := Sorted(Upsert([], member, score))])
    else match db[key]
      case Scalar(_) => Err(WrongType)
      case Sorted(es) => Ok(db[key := Sorted(Upsert(es, member, score))])
  }

  /** `delete set[member]`. */
  function Without(es: Entries, m: string): (r: Entries)
    ensures forall x :: x in r <==> x in es && x.0 != m
    ensures UniqueMembers(es) ==> UniqueMembers(r)
  {
    if |es| == 0 then []
    else
      assert es == [es[0]] + es[1..];
      if es[0].0 == m then Without(es[1..], m) else [es[0]] + Without(es[1..], m)
  }

  /** delFromKey (lib/db.js:108-124): the new contents and the reply. */
  function RemoveMember(db: Db, key: string, member: string): Result<(Db, nat), StoreError>
  {
    if key !in db then Ok((db, 0))
    else match db[key]
      case Scalar(_) => Err(WrongType)
      case Sorted(es) =>
        if !IsMember(es, member) then Ok((db, 0))
        else Ok((db[key := Sorted(Without(es, member))], 1))
  }

  /** `R.reject(x => x[1] === score)` over the pairs. */
  function WithoutScore(es: Entries, score: int): (r: Entries)
    ensures forall x :: x in r <==> x in es && x.1 != score
    ensures UniqueMembers(es) ==> UniqueMembers(r)
  {
    if |es| == 0 then []
    else
      assert es == [es[0]] + es[1..];
      if es[0].1 == score then WithoutScore(es[1..], score) else [es[0]] + WithoutScore(es[1..], score)
  }

  /**
   * delFromKeyByScore (lib/db.js:125-139): the new contents and the reply, None when the
   * stream is empty (absent key).
   */
  function RemoveByScore(db: Db, key: string, score: int): Result<(Db, Option<nat>), StoreError>
  {
    if key !in db then Ok((db, None))
    else match db[key]
      case Scalar(_) => Err(WrongType)
      case Sorted(es) => Ok((db[key := Sorted(WithoutScore(es, score))], Some(1)))
  }

  // ----- properties -----

  /** Every operation keeps each set's members unique. */
  lemma {:induction false} WellFormedPreserved(db: Db, key: string, value: string, score: int, member: string)
    requires WellFormed(db)
    ensures WellFormed(Set(db, key, value))
    ensures WellFormed(Delete(db, key).0)
    ensures AddMember(db, key, score, member).Ok? ==> WellFormed(AddMember(db, key, score, member).value)
    ensures RemoveMember(db, key, member).Ok? ==> WellFormed(RemoveMember(db, key, member).value.0)
    ensures RemoveByScore(db, key, score).Ok? ==> WellFormed(RemoveByScore(db, key, score).value.0)
  {
    UpsertUnique(if key in db && db[key].Sorted? then db[key].entries else [], member, score);
  }

  lemma {:induction false} UpsertIdempotent(es: Entries, m: string, score: int)
    ensures Upsert(Upsert(es, m, score), m, score) == Upsert(es, m, score)
  {
    if |es| > 0 && es[0].0 != m {
      UpsertIdempotent(es[1..], m, score);
    }
  }

  /**
   * addToKey upserts: afterwards the set maps `member` to `score` and every other member as
   * before, no other key changes, a second identical call changes nothing; a string key is
   * WRONGTYPE.
   */
  lemma {:induction false} AddMemberSpec(db: Db, key: string, score: int, member: string)
    ensures key in db && db[key].Scalar? <==> AddMember(db, key, score, member).Err?
    ensures AddMember(db, key, score, member).Ok? ==>
      var db' := AddMember(db, key, score, member).value;
      && db'.Keys == db.Keys + {key}
      && (forall k :: k in db && k != key ==> db'[k] == db[k])
      && db'[key].Sorted?
      && Scores(db'[key].entries) == (if key in db then Scores(db[key].entries) else map[])[member := score]
      && AddMember(db', key, score, member) == Ok(db')
  {
    var es := if key in db && db[key].Sorted? then db[key].entries else [];
    UpsertIdempotent(es, member, score);
    UpsertScores(es, member, score);
    if AddMember(db, key, score, member).Ok? {
      var db' := AddMember(db, key, score, member).value;
      assert db'[key] == Sorted(Upsert(es, member, score));
      assert db'[key := Sorted(Upsert(Upsert(es, member, score), member, score))] == db';
    }
  }

  lemma {:induction false} WithoutNotMember(es: Entries, m: string)
    requires !IsMember(es, m)
    ensures Without(es, m) == es
  {
    if |es| > 0 {
      assert es[0].0 != m;
      forall i | 0 <= i < |es[1..]| ensures es[1..][i].0 != m {
        assert es[1..][i] == es[i + 1];
      }
      WithoutNotMember(es[1..], m);
    }
  }

  /**
   * delFromKey: 0 and nothing changed when the key or the member is missing; otherwise exactly
   * that member goes and the reply is 1; repeating the call changes nothing more.
   */
  lemma {:induction false} RemoveMemberSpec(db: Db, key: string, member: string)
    ensures key in db && db[key].Scalar? <==> RemoveMember(db, key, member).Err?
    ensures key !in db ==> RemoveMember(db, key, member) == Ok((db, 0))
    ensures RemoveMember(db, key, member).Ok? ==>
      var (db', n) := RemoveMember(db, key, member).value;
      && (n == 1 <==> key in db && IsMember(db[key].entries, member))
      && (n == 0 ==> db' == db)
      && db'.Keys == db.Keys
      && (forall k :: k in db && k != key ==> db'[k] == db[k])
      && (key in db ==> forall x :: x in db'[key].entries <==> x in db[key].entries && x.0 != member)
      && RemoveMember(db', key, member) == Ok((db', 0))
  {
    if key in db && db[key].Sorted? && IsMember(db[key].entries, member) {
      var es' := Without(db[key].entries, member);
      forall i | 0 <= i < |es'| ensures es'[i].0 != member {
        assert es'[i] in es';
      }
    }
  }

  /**
   * delFromKeyByScore: exactly the members scored `score` go, the reply is 1 even when none
   * did, and an absent key changes nothing and replies with nothing.
   */
  lemma {:induction false} RemoveByScoreSpec(db: Db, key: string, score: int)
    ensures key in db && db[key].Scalar? <==> RemoveByScore(db, key, score).Err?
    ensures key !in db ==> RemoveByScore(db, key, score) == Ok((db, None))
    ensures key in db && db[key].Sorted? ==>
      var (db', n) := RemoveByScore(db, key, score).value;
      && n == Some(1)
      && db'.Keys == db.Keys
      && (forall k :: k in db && k != key ==> db'[k] == db[k])
      && db'[key].Sorted?
      && (forall x :: x in db'[key].entries <==> x in db[key].entries && x.1 != score)
  {
  }

  /** The store object of lib/db.js:48-139, updated in place. */
  class MemoryStore {
    var store: Db

    ghost predicate Valid()
      reads this
    {
      WellFormed(store)
    }

    constructor ()
      ensures Valid() && store == map[]
    {
      store := map[];
    }

    /** getKey: null when absent, the string when a string, WRONGTYPE for a set. */
    method GetKey(key: string) returns (r: Result<Option<string>, StoreError>)
      ensures key !in store <==> r == Ok(None)
      ensures forall s :: r == Ok(Some(s)) <==> key in store && store[key] == Scalar(s)
      ensures r.Err? <==> key in store && store[key].Sorted?
    {
      if key !in store {
        r := Ok(None);
      } else if store[key].Scalar? {
        r := Ok(Some(store[key].text));
      } else {
        r := Err(WrongType);
      }
    }

    /** listKey: see RangeSpec. */
    method ListKey(key: string, before: Bound, after: Bound, limit: Limit) returns (r: Result<seq<string>, StoreError>)
      ensures r == Range(store, key, before, after, limit)
      ensures r.Err? <==> key in store && store[key].Scalar?
      ensures r.Ok? ==> limit.AtMost? ==> |r.value| <= limit.n
    {
      r := Range(store, key, before, after, limit);
      RangeSpec(store, key, before, after, limit);
      if key in store && store[key].Sorted? {
        MembersLength(RangeEntries(store[key].entries, before, after, limit));
      }
    }

    /** getMultiple: one entry per key, in order, null unless the key holds a string. */
    method GetMultiple(keys: seq<string>) returns (r: seq<Option<string>>)
      ensures r == MGet(store, keys)
      ensures |r| == |keys|
      ensures forall i :: 0 <= i < |keys| ==>
        (r[i].Some? <==> keys[i] in store && store[keys[i]].Scalar?) &&
        (r[i].Some? ==> store[keys[i]] == Scalar(r[i].value))
    {
      r := MGet(store, keys);
    }

    /** setKey: whatever the key held is replaced by the string; nothing else changes. */
    method SetKey(key: string, value: string) returns (reply: string)
      requires Valid()
      modifies this
      ensures Valid()
      ensures store == Set(old(store), key, value)
      ensures reply == "OK"
    {
      store := store[key := Scalar(value)];
      reply := "OK";
    }

    /** delKey: 1 exactly when the key was present; the key is absent afterwards. */
    method DelKey(key: string) returns (reply: nat)
      requires Valid()
      modifies this
      ensures Valid()
      ensures (store, reply) == Delete(old(store), key)
      ensures key !in store && (reply == 1 <==> key in old(store))
    {
      reply := if key in store then 1 else 0;
      store := store - {key};
    }

    /** addToKey: see AddMemberSpec; a string key is WRONGTYPE and nothing changes. */
    method AddToKey(key: string, score: int, member: string) returns (r: Result<string, StoreError>)
      requires Valid()
      modifies this
      ensures Valid()
      ensures r.Ok? <==> AddMember(old(store), key, score, member).Ok?
      ensures r.Ok? ==> r.value == "OK" && store == AddMember(old(store), key, score, member).value
      ensures r.Err? ==> store == old(store) && r.error == WrongType
    {
      WellFormedPreserved(store, key, "", score, member);
      if key !in store {
        store := store[key := Sorted([])];
      }
      if store[key].Sorted? {
        store := store[key := Sorted(Upsert(store[key].entries, member, score))];
        r := Ok("OK");
      } else {
        r := Err(WrongType);
      }
    }

    /** delFromKey: see RemoveMemberSpec. */
    method DelFromKey(key: string, member: string) returns (r: Result<nat, StoreError>)
      requires Valid()
      modifies this
      ensures Valid()
      ensures var expected := RemoveMember(old(store), key, member);
        && (r.Ok? <==> expected.Ok?)
        && (r.Ok? ==> (store, r.value) == expected.value)
        && (r.Err? ==> store == old(store))
    {
      WellFormedPreserved(store, key, "", 0, member);
      if key !in store {
        r := Ok(0);
      } else if store[key].Sorted? {
        if !IsMember(store[key].entries, member) {
          r := Ok(0);
        } else {
          store := store[key := Sorted(Without(store[key].entries, member))];
          r := Ok(1);
        }
      } else {
        r := Err(WrongType);
      }
    }

    /** delFromKeyByScore: see RemoveByScoreSpec. */
    method DelFromKeyByScore(key: string, score: int) returns (r: Result<Option<nat>, StoreError>)
      requires Valid()
      modifies this
      ensures Valid()
      ensures var expected := RemoveByScore(old(store), key, score);
        && (r.Ok? <==> expected.Ok?)
        && (r.Ok? ==> (store, r.value) == expected.value)
        && (r.Err? ==> store == old(store))
    {
      WellFormedPreserved(store, key, "", score, "");
      if key !in store {
        r := Ok(None);
      } else if store[key].Sorted? {
        store := store[key := Sorted(WithoutScore(store[key].entries, score))];
        r := Ok(Some(1));
      } else {
        r := Err(WrongType);
      }
    }
  }
}
