# redis-stitch, modelled in Dafny

redis-stitch stores strings and sorted sets in a redis-like store. It serves each stored string with
its *references* resolved. A reference is a placeholder `${key[;default]}` or
`${key,prop1,prop2[;default]}`. The key may carry a score range `[after|before]` and a cap `^n`.
A reference is replaced by what the store holds under its key:
- the key's string;
- or the members of its sorted set, written `[a,b]`;
- or, with props, the value at that property path of the string parsed as JSON.

The replacement text may hold references of its own, so resolution goes on round after round until
no reference remains.

The project models five parts of the repository:

- **The production engine** (`ps-direct-sdk/lib/hydrateString.js`, module `Hydrate`, with its
  properties in `HydrateFacts`). One *round*:
  - splits the string into literal text and references, and reads each reference;
  - inlines the values already memoised in the request's `local` object, up to a depth of 25;
  - fetches the other keys in one batch, and queries a sorted set when a key holds no string;
  - applies prop paths, then puts each value in the place of its reference, left to right;
  - writes each value into `local`.

  `Round` is that round as a function. `Run` drives the rounds with fuel. The class `MemoryStore`
  answers the store calls. The methods `HydrateRound` and `HydrateString` are proved to compute
  `Round` and `Run`. `PopulateArrayWithValues` overwrites the leftmost slot of an `array` in place.
- **The older engine** (`lib/v1.js:15-179`, modules `HydrateV1` and `HydrateV1Facts`). It runs the
  same pipeline, but `local` holds sentinels: in progress (`null`), known absent (`nil`), or a value.
  The value write at lines 68-70 receives the string that `errorOnUndefined` returns, so it writes
  `local["undefined"]`. A fetched key therefore stays "in progress", and a second reference to it in
  the same call is a cycle error. The model keeps that behaviour (see `SecondVisitIsCycle`). It does
  not keep the expectation of test/unit.js:56-64, which assumes the value is memoised.
- **The in-memory store** (`lib/db.js:48-139`, module `Store`). Pure transition functions give the
  reference semantics; the class `MemoryStore` holds `store: map<string, Value>` and has one method
  per operation. Each method is proved to perform its transition and to keep each sorted set's
  members unique.
- **The facade** (`ps-direct-sdk/index.js`, module `Facade`): `put`, `putObject`, `rem` and `get`.
  `del` and `add` are the store's `delKey` and `addToKey` themselves (`Store.Delete`,
  `Store.AddMember`).
- **The serialiser** (`lib/stringify.js`, with identical logic in `sdk/lib/stringify.js`; module
  `Stringify`). It writes JSON-like text in which `{$ref: "${uri}"}` becomes the reference `${uri}`.
- **The earliest resolver** (`server.js:13-49`, module `Resolver`). It substitutes `/\${(.*?)}/g`
  matches using a per-request `local` dictionary. A missing key becomes `{"$null_ref":"key"}`; a
  cycle becomes `{"$circlular_ref":"key"}` (the source's spelling).
  - `Request.Scan` is the `while` loop over the regular expression. It claims every key before any
    is consumed.
  - `Request.SettleAll` consumes the claimed parts in order.
  - The functions `ClaimAll`, `Settle`, `Resolve` and `HydrateKey` are their specification.

The modules `Reference` (`splitStringByRef`, `removeRefTag`, `sanitizeKey`) and `Strings`/`Js`
(JavaScript builtins) are shared. Both engines contain byte-identical copies of those three
functions, so they are modelled once.

Foreign functions are fields of the parameter `Js.Runtime`:
- `JSON.parse`;
- `js-string-escape`;
- `Number()` on a string.

`JSON.stringify`, `R.path`, `String()` and `parseInt` on digit runs are modelled concretely.

## Model

| member | source | states |
|---|---|---|
| Strings.IndexOf | ps-direct-sdk/lib/hydrateString.js:127 | `indexOf` gives -1 exactly when the character is absent, and otherwise its first position |
| Strings.SplitOn | ps-direct-sdk/lib/hydrateString.js:136-137 | `split` on one character gives at least one part, no part holds the separator, and the parts joined by it are the input |
| Strings.SplitOnJoin | ps-direct-sdk/lib/hydrateString.js:136-137 | splitting a join of separator-free parts gives back the parts |
| Strings.DigitsRoundTrip | ps-direct-sdk/lib/hydrateString.js:151 | `parseInt` of the decimal digits of n is n |
| Strings.ParseSignedRoundTrip | ps-direct-sdk/lib/hydrateString.js:145-146 | `parseInt` of an integer's text is that integer |
| Strings.ParseSigned | ps-direct-sdk/lib/hydrateString.js:145-146 | `parseInt` of `-?\d*` is a number only when at least one digit is present |
| Js.JsonStringify | ps-direct-sdk/lib/hydrateString.js:56 | `JSON.stringify` returns undefined exactly for undefined |
| Js.Lookup | ps-direct-sdk/lib/hydrateString.js:70 | a property read gives undefined or the value of a field with that name |
| Js.PathThroughNil | ps-direct-sdk/lib/hydrateString.js:70-72 | `R.path` that meets null or undefined before its end yields undefined |
| Js.PathThroughObject | ps-direct-sdk/lib/hydrateString.js:70 | `R.path` through an object is a field lookup followed by the rest of the path |
| Js.QuotePlain | lib/stringify.js:22 | a string of plain characters is written by `JSON.stringify` between double quotes, unchanged |
| Store.Scores | lib/db.js:96-98 | the entry list stands for the member-to-score object: a name is a key exactly when it is a member |
| Store.MGet | lib/db.js:79-85 | one entry per requested key, in order; an entry holds a string exactly when the key holds a string, and it is that string |
| Store.InsertByScore | lib/db.js:65-67 | inserting adds exactly the one entry (multiset) |
| Store.InsertSorted | lib/db.js:65-67 | inserting into an ascending list keeps it ascending by score |
| Store.SortByScore | lib/db.js:65-67 | `sortBy` gives an ascending permutation of the entries |
| Store.InRangeEntries | lib/db.js:64 | the filter keeps exactly the entries with `after <= score <= before` |
| Store.Take | lib/db.js:68 | `take(limit)` is a prefix with `min(limit, length)` elements, and the whole list when there is no limit |
| Store.RangeEntriesSpec | lib/db.js:63-70 | the listed entries are in-range entries of the set, ascending by score: the `min(limit, count)` lowest-scored of them, none left out scoring below one listed, and all of them when unlimited |
| Store.SortedPrefixLowest | lib/db.js:65-68 | `take` after `sortBy` keeps a sorted prefix, and nothing it drops scores below what it keeps |
| Store.RangeSpec | lib/db.js:60-78 | `listKey`: an absent key lists nothing, a string is WRONGTYPE, a sorted set lists the members of its `min(limit, count)` lowest-scored in-range entries by ascending score |
| Store.UpsertScores | lib/db.js:98 | `set[member] = score` maps the member to the score and every other member as before |
| Store.UpsertUnique | lib/db.js:98 | the upsert keeps members unique |
| Store.UpsertIdempotent | lib/db.js:98 | repeating the upsert changes nothing |
| Store.Without | lib/db.js:114 | `delete set[member]` keeps exactly the entries of the other members, and keeps them unique |
| Store.WithoutScore | lib/db.js:128 | the reject keeps exactly the entries whose score differs, and keeps them unique |
| Store.WithoutNotMember | lib/db.js:111-112 | removing a non-member changes nothing |
| Store.WellFormedPreserved | lib/db.js:86-139 | every write keeps each sorted set's members unique |
| Store.AddMemberSpec | lib/db.js:95-107 | `addToKey` is WRONGTYPE exactly on a string key; otherwise the set (created when absent) maps member to score, other members and keys are unchanged, and a repeat changes nothing |
| Store.RemoveMemberSpec | lib/db.js:108-124 | `delFromKey` is WRONGTYPE exactly on a string key; it replies 1 exactly when the member was present, removes only it, changes nothing on 0, and a repeat replies 0 |
| Store.RemoveByScoreSpec | lib/db.js:125-139 | `delFromKeyByScore` is WRONGTYPE exactly on a string key; an absent key replies nothing and changes nothing; a set loses exactly the members with that score and the reply is 1 |
| Store.MemoryStore.constructor | lib/db.js:11 | the store starts empty |
| Store.MemoryStore.GetKey | lib/db.js:48-59 | null exactly when absent, the string exactly when it holds that string, WRONGTYPE exactly for a sorted set |
| Store.MemoryStore.ListKey | lib/db.js:60-78 | the `listKey` result; WRONGTYPE exactly on a string; at most `limit` members |
| Store.MemoryStore.GetMultiple | lib/db.js:79-85 | one entry per key in order, a string exactly for string keys |
| Store.MemoryStore.SetKey | lib/db.js:86-89 | the key holds the string whatever it held before, no other key changes, the reply is "OK" |
| Store.MemoryStore.DelKey | lib/db.js:90-94 | the key is absent afterwards and the reply is 1 exactly when it was present |
| Store.MemoryStore.AddToKey | lib/db.js:95-107 | performs `AddMember`; on WRONGTYPE nothing changes; otherwise the reply is "OK" |
| Store.MemoryStore.DelFromKey | lib/db.js:108-124 | performs `RemoveMember`; on WRONGTYPE nothing changes |
| Store.MemoryStore.DelFromKeyByScore | lib/db.js:125-139 | performs `RemoveByScore`; on WRONGTYPE nothing changes |
| Reference.DollarPieces | ps-direct-sdk/lib/hydrateString.js:124 | `split(/(?=[$])/)` cuts only before a `$`: every piece after the first starts with `$`, and no piece holds another `$` |
| Reference.DollarPiecesConcat | ps-direct-sdk/lib/hydrateString.js:124 | the pieces join back to the string |
| Reference.SplitPieceConcat | ps-direct-sdk/lib/hydrateString.js:125-130 | cutting a piece after its first `}` loses nothing |
| Reference.SplitConcat | ps-direct-sdk/lib/hydrateString.js:121-133 | `splitStringByRef(s).join("") == s` |
| Reference.SplitShape | lib/v1.js:131-141 | every piece is a whole reference, an unclosed one, or text without `${`, so a `$` not followed by `{` stays in literal text |
| Reference.NoRefOpenNoRefs | ps-direct-sdk/lib/hydrateString.js:123-133 | a string without `${` splits into literal pieces only |
| Reference.BodyEnd | ps-direct-sdk/lib/hydrateString.js:167 | the lazy `.*?}` ends at the first `}` from the start, with no `}` and no line terminator before it; there is no end exactly when every `}` has a line terminator in front of it |
| Reference.RemoveRefTagOfPiece | lib/v1.js:174-179 | `removeRefTag` of a whole reference is the text between its braces (unless that text has a line terminator); of an unclosed one, the input |
| Reference.SignedEnd | ps-direct-sdk/lib/hydrateString.js:142 | the greedy `-?\d*` ends within the string |
| Reference.RangeAt | ps-direct-sdk/lib/hydrateString.js:142 | a match of the range pattern starts where it is tried and is not empty |
| Reference.FindRange | ps-direct-sdk/lib/hydrateString.js:142 | the leftmost range match lies at or after the start |
| Reference.LimitAt | ps-direct-sdk/lib/hydrateString.js:148 | a match of `\^(\d+)` holds at least one digit |
| Reference.FindLimit | ps-direct-sdk/lib/hydrateString.js:148 | the leftmost limit match lies at or after the start and its group is digits |
| Reference.TakeOut | ps-direct-sdk/lib/hydrateString.js:144 | `replace(match, '')` adds no character |
| Reference.ParseRange | ps-direct-sdk/lib/hydrateString.js:142-147 | the range step leaves a key with no new character, `after` never +Infinity and `before` never -Infinity |
| Reference.ParseLimit | ps-direct-sdk/lib/hydrateString.js:148-152 | the limit step leaves a key with no new character |
| Reference.SanitizeKey | ps-direct-sdk/lib/hydrateString.js:135-164 | the key and props hold no `;` or `,`, the default no `;`, and the bounds are well oriented |
| Reference.RangeOfKeyText | ps-direct-sdk/lib/hydrateString.js:142-147 | a written range token is found after the key, read back as its bounds, and taken out |
| Reference.ParseBound | ps-direct-sdk/lib/hydrateString.js:153-154 | a written bound is read back; an empty side is -Infinity for `after` and Infinity for `before` |
| Reference.LimitOfText | ps-direct-sdk/lib/hydrateString.js:148-152 | a written `^n` is read back as limit n and taken out; no token means Infinity |
| Reference.SemicolonSplit | ps-direct-sdk/lib/hydrateString.js:136-137 | the `;` split of a written reference is the key with its props, then the default if any |
| Reference.SanitizeFormat | lib/v1.js:143-172 | `sanitizeKey` reads back key, default, props, range and limit from their written form |
| Reference.SplitTag | ps-direct-sdk/lib/hydrateString.js:123-133 | a lone reference splits into itself and the empty string |
| Reference.ParseTag | ps-direct-sdk/lib/hydrateString.js:135-169 | `sanitizeKey(removeRefTag(tag))` is the reference the tag was written from |
| Hydrate.ApplyProps | ps-direct-sdk/lib/hydrateString.js:68-86 | no props keeps the value; with props, a nil path value is KeyPropNotFound "propN of ... of key not available", unparsable JSON keeps the escaped raw text, a string is escaped, and other values are JSON-stringified |
| Hydrate.ResolveUpToStops | ps-direct-sdk/lib/hydrateString.js:53-60 | the first failing reference ends the batch: nothing after it is resolved |
| Hydrate.FirstSlot | ps-direct-sdk/lib/hydrateString.js:90 | `findIndex(R.is(Object))`: -1 exactly when there is no slot, otherwise the leftmost slot |
| Hydrate.Reversed | ps-direct-sdk/lib/hydrateString.js:75 | `reverse()` puts element i at position n-1-i |
| Hydrate.Substitute | ps-direct-sdk/lib/hydrateString.js:61 | the reference definition of splicing: the i-th slot takes the i-th value, and the length is kept |
| Hydrate.FillOneSubstitute | ps-direct-sdk/lib/hydrateString.js:89-93 | one more reduce step fills the next slot in reference order |
| Hydrate.FillIsSubstitute | ps-direct-sdk/lib/hydrateString.js:89-93 | the reduce with `populateArrayWithValues` puts the i-th value where the i-th reference stood |
| Hydrate.SubstituteFull | ps-direct-sdk/lib/hydrateString.js:61-63 | with one value per reference no slot is left, so the joined text holds no `[object Object]` |
| Hydrate.PopulateArrayWithValues | ps-direct-sdk/lib/hydrateString.js:89-93 | overwrites the leftmost slot of the array in place |
| Hydrate.ResolveRef | ps-direct-sdk/lib/hydrateString.js:21-59 | one reference against the store computes `ResolveOne` |
| Hydrate.ResolveRefs | ps-direct-sdk/lib/hydrateString.js:19-60 | the batch loop computes `ResolveUpTo` for all references |
| Hydrate.Splice | ps-direct-sdk/lib/hydrateString.js:61 | the reduce over a copy of the pieces, joined, is the text of `Fill` |
| Hydrate.RoundExpandErr | ps-direct-sdk/lib/hydrateString.js:8-9 | an error while reading or inlining the references is the round's error |
| Hydrate.RoundNoRefs | ps-direct-sdk/lib/hydrateString.js:13-17 | no reference left: the joined pieces are the answer, except on a first round, which fails reading `refs[0].def` |
| Hydrate.RoundResolved | ps-direct-sdk/lib/hydrateString.js:19-61 | otherwise the batch is fetched with `getMultiple` after the `globalDefault` write; its first error is the round's; else the filled pieces, joined, go to the next round |
| Hydrate.HydrateRound | ps-direct-sdk/lib/hydrateString.js:7-61 | one round against the store computes `Round`; on an error the memo object is unchanged |
| Hydrate.RunStep | ps-direct-sdk/lib/hydrateString.js:62-64 | a round is followed by the next one on the spliced text |
| Hydrate.RunAfterRound | ps-direct-sdk/lib/hydrateString.js:62-65 | after a round, the run is that round's error (with the memo object it started from) or its finished text, or else the run on the spliced text and the new memo object |
| Hydrate.HydrateString | ps-direct-sdk/lib/hydrateString.js:7-65 | the recursive call computes `Run` |
| Hydrate.Proceed | ps-direct-sdk/lib/hydrateString.js:62-64 | after a round: its error or its finished text ends the run, spliced text goes on to the next round as `Run` does |
| HydrateFacts.ExpandSlotsFresh | ps-direct-sdk/lib/hydrateString.js:104-119 | only references whose key is not memoised become slots |
| HydrateFacts.ExpandAllSlotsFresh | ps-direct-sdk/lib/hydrateString.js:96-101 | over all pieces: slots only for keys not in `local` |
| HydrateFacts.ExpandAllLiterals | ps-direct-sdk/lib/hydrateString.js:96-101 | pieces without `${` stay literal text, in order |
| HydrateFacts.NoRefsRound | ps-direct-sdk/lib/hydrateString.js:13-17 | a string without `${` comes back unchanged (after the first round) |
| HydrateFacts.NoRefsRun | ps-direct-sdk/lib/hydrateString.js:17 | hydrateString on text without references returns it |
| HydrateFacts.ExpandTagPiece | ps-direct-sdk/lib/hydrateString.js:104-119 | an unmemoised reference within the depth bound becomes its reference object |
| HydrateFacts.ExpandTag | ps-direct-sdk/lib/hydrateString.js:96-119 | a string that is one unmemoised reference is that slot and empty text |
| HydrateFacts.ExpandMemoised | ps-direct-sdk/lib/hydrateString.js:111-115 | a memoised key is replaced inline by its value's pieces, one level deeper |
| HydrateFacts.ExpandTooDeep | ps-direct-sdk/lib/hydrateString.js:105-110 | past depth 25 every reference is CycleDetected "Cycle Detected in key" |
| HydrateFacts.SelfCycle | ps-direct-sdk/lib/hydrateString.js:104-119 | a key memoised as a reference to itself ends in CycleDetected naming the key |
| HydrateFacts.SelfCycleRound | ps-direct-sdk/lib/hydrateString.js:8-9 | the round on such a key fails with that error |
| HydrateFacts.RoundOneTag | ps-direct-sdk/lib/hydrateString.js:19-61 | the round on a lone unmemoised reference is that reference's resolution |
| HydrateFacts.MissingKey | ps-direct-sdk/lib/hydrateString.js:30-43 | missing key without props: its own default is its value and memoised; else DefaultAsKeyNotFound with `globalDefault`; else KeyNotFound "key not available" |
| HydrateFacts.ListKey | ps-direct-sdk/lib/hydrateString.js:23-45 | a sorted set resolves to its in-range members in ascending score order, written `[a,b]`, and is memoised |
| HydrateFacts.WrongTypeRace | ps-direct-sdk/lib/hydrateString.js:26-57 | WRONGTYPE from the list query makes the value the key, which goes back as `${key}` unmemoised |
| HydrateFacts.StringKey | ps-direct-sdk/lib/hydrateString.js:55-59 | a stored string other than the key's name replaces the reference and is memoised |
| HydrateFacts.SelfNamedRound | ps-direct-sdk/lib/hydrateString.js:57 | a value equal to its key is put back as `${key}` and not memoised |
| HydrateFacts.RunFixedPoint | ps-direct-sdk/lib/hydrateString.js:62-64 | a round that gives back its own text and memo repeats until the rounds run out |
| HydrateFacts.SelfNamedValue | ps-direct-sdk/lib/hydrateString.js:57-64 | so hydrateString never finishes on a key whose string is its own name |
| HydrateFacts.ResolveUpToMemo | ps-direct-sdk/lib/hydrateString.js:55-60 | a resolved batch has one value per reference, and `local` only grows, with keys of the batch |
| HydrateFacts.RoundSplices | ps-direct-sdk/lib/hydrateString.js:61-63 | a round that goes on puts the i-th value in place of the i-th reference and leaves no slot |
| HydrateV1.Expand | lib/v1.js:104-127 | a piece becomes a slot only when its key is not in `local` |
| HydrateV1.ExpandAll | lib/v1.js:27-28 | one element per piece, each that piece's expansion; an error is the expansion error of some piece |
| HydrateV1.MarkInProgress | lib/v1.js:40 | every fetched key is `null` (in progress), and other entries are unchanged |
| HydrateV1.Stringified | lib/v1.js:78-101 | no props or unparsable JSON keeps the raw value; an undefined path value is ResourceNotFound "propN of ... of key not available"; other values are stringified |
| HydrateV1.ResolveUpToStops | lib/v1.js:58-70 | the first failing element ends the batch |
| HydrateV1.RunStep | lib/v1.js:72-74 | a round is followed by the next one on the joined array |
| HydrateV1.RoundExpandErr | lib/v1.js:27-28 | a `checkLocalStorage` error is the round's error |
| HydrateV1.RoundNoRefs | lib/v1.js:32-34 | no reference: the joined pieces are the answer |
| HydrateV1.RoundResolved | lib/v1.js:36-74 | otherwise the keys are marked in progress, the batch is fetched, and the first error or the filled, joined pieces follow |
| HydrateV1.MarkFetched | lib/v1.js:38-40 | the marking loop computes `MarkInProgress` |
| HydrateV1.ResolveRef | lib/v1.js:38-70 | one element against the store computes `ResolveOne` |
| HydrateV1.ResolveRefs | lib/v1.js:36-70 | the batch loop computes `ResolveUpTo` |
| HydrateV1.HydrateRound | lib/v1.js:25-71 | one round against the store computes `Round` |
| HydrateV1.HydrateString | lib/v1.js:25-75 | the recursion computes `Run` |
| HydrateV1.RunAfterRound | lib/v1.js:72-74 | after a round, the run is that round's error or finished text, or else the run on the joined array |
| HydrateV1.Proceed | lib/v1.js:72-74 | the continuation of a round: its error or its finished text ends the run, the joined array goes on to the next round as `Run` does |
| HydrateV1Facts.CheckLocalStorage | lib/v1.js:112-127 | `nil` gives the default or a 404; `null` is "cycle detected in key"; a stored value is used as it is; an unknown key stays a reference |
| HydrateV1Facts.ExpandTag | lib/v1.js:104-109 | a lone reference is its checked object and empty text |
| HydrateV1Facts.ExpandAllLiterals | lib/v1.js:104-109 | text without `${` stays literal, in order |
| HydrateV1Facts.NoRefsRound | lib/v1.js:32-34 | a string without `${` comes back unchanged with `local` |
| HydrateV1Facts.NoRefsRun | lib/v1.js:25-34 | hydrateString returns such a string |
| HydrateV1Facts.RunNext | lib/v1.js:72-74 | a round that goes on hands its text and `local` to the next |
| HydrateV1Facts.RunLastTwo | lib/v1.js:72-74 | a round that goes on to text without references returns that text |
| HydrateV1Facts.RunErr | lib/v1.js:60-67 | a failing round ends the call with its error |
| HydrateV1Facts.RoundOneTag | lib/v1.js:36-71 | a lone unknown reference: its key is marked in progress and the round is its resolution |
| HydrateV1Facts.OneTagBatch | lib/v1.js:27-40 | the batch of a lone reference is that reference, with its one value fetched |
| HydrateV1Facts.MissingKey | lib/v1.js:41-64 | a missing key's own default, even "null", is its value; without one the round is a 404 and the key is marked `nil` |
| HydrateV1Facts.ListKey | lib/v1.js:42-50 | a sorted set resolves to its in-range members by ascending score, written `[a,b]` |
| HydrateV1Facts.WrongTypeRace | lib/v1.js:42-50 | a WRONGTYPE list query leaves `list` undefined and the round fails on `list.toString()` |
| HydrateV1Facts.StringKeyRound | lib/v1.js:36-71 | a stored string replaces the reference; the key stays in progress and `local["undefined"]` is written |
| HydrateV1Facts.StringKey | lib/v1.js:15-17 | hydrateKey on a key holding a string without references returns that string |
| HydrateV1Facts.ResolveUpToWrites | lib/v1.js:68-70 | a resolved batch writes only `local["undefined"]` |
| HydrateV1Facts.SlotsFresh | lib/v1.js:121-126 | only keys not in `local` become reference objects |
| HydrateV1Facts.RoundMarks | lib/v1.js:36-70 | a round that goes on adds at least one key, every new key (but "undefined") is in progress, and no entry found is changed |
| HydrateV1Facts.SecondVisitIsCycle | lib/v1.js:118-120 | a key fetched in one round and referenced in a later round of the same call is a cycle error |
| HydrateV1Facts.SelfCycle | lib/v1.js:112-120 | a key whose string refers to itself fails with "cycle detected in key" in the second round |
| HydrateV1Facts.RoundSplices | lib/v1.js:71-95 | a round that goes on puts the i-th value where the i-th reference stood and leaves no slot |
| Stringify.Present | lib/stringify.js:16-18 | the kept fields are exactly the fields that are neither null nor undefined |
| Stringify.Stringify | lib/stringify.js:6-23 | the result is text except for undefined and for an object with a truthy `$ref`, which is that value |
| Stringify.StringifyText | ps-direct-sdk/index.js:18 | the text handed to `setKey` is the serialised text |
| Stringify.UndefinedOnlyFromUndefined | lib/stringify.js:22 | only undefined serialises to undefined |
| Stringify.ScalarsAsJson | lib/stringify.js:20-22 | null and the scalars are written by `JSON.stringify` |
| Stringify.StringAsJson | sdk/lib/stringify.js:30-32 | a string is written quoted and escaped |
| Stringify.RefRewritten | sdk/lib/stringify.js:6-22 | `{$ref: "${uri}", ...}` becomes `${uri}`, whatever its other fields |
| Stringify.RefIgnoresLaterFields | lib/stringify.js:12 | a truthy `$ref` wins over all later fields |
| Stringify.NilFieldOmitted | lib/stringify.js:13-18 | a null or undefined field is omitted at any position |
| Stringify.OneField | sdk/lib/stringify.js:23-29 | a present field is written `{"k": v}` |
| Stringify.ArrayOfTexts | lib/stringify.js:8-10 | an array is its elements' texts in order (an undefined element as empty text), joined by ", ", in brackets |
| Stringify.ObjectOfTexts | lib/stringify.js:13-19 | an object without a truthy `$ref` is its present fields, in order, each as its quoted name, ": " and its value's text, joined by ", ", in braces |
| Stringify.EmptyContainers | sdk/lib/stringify.js:18-29 | empty arrays and objects are `[]` and `{}` |
| Facade.Put | ps-direct-sdk/index.js:13-16 | a non-string is "WrongType" with no write; a string is stored with reply "OK" and no other key changes |
| Facade.PutObject | ps-direct-sdk/index.js:17-19 | the serialised value is stored with reply "OK" and no other key changes |
| Facade.Rem | ps-direct-sdk/index.js:22-26 | nil deletes the key; a non-number removes that member; a number removes the members with that score; WRONGTYPE exactly on a string key, with no write |
| Facade.ParseOr | ps-direct-sdk/index.js:28 | the parsed JSON, or the string itself |
| Facade.Get | ps-direct-sdk/index.js:27-29 | the engine on `${key}` with an empty memo: its error as is, its text parsed when it parses |
| Facade.GetHasReference | ps-direct-sdk/index.js:27 | `get` always gives the engine a reference, so the first round's `refs[0].def` exists |
| Facade.FirstRoundString | ps-direct-sdk/index.js:27 | the first round on a string key yields the string and memoises it |
| Facade.GetString | ps-direct-sdk/index.js:27-29 | get on a key holding a string without references gives that string, parsed when it is JSON |
| Facade.PutThenGet | ps-direct-sdk/index.js:13-29 | what `put` stores, `get` returns |
| Facade.GetMissing | ps-direct-sdk/index.js:27 | get on an absent key is KeyNotFound "key not available" |
| Facade.DelThenGet | ps-direct-sdk/index.js:20-29 | after `del`, get reports the key as not available |
| Facade.GetFollowsRef | ps-direct-sdk/index.js:27-29 | a key holding `${other}` gives `other`'s string |
| Facade.PutObjectRefThenGet | ps-direct-sdk/index.js:17-29 | `putObject(key, {$ref: "${other}"})` then `get(key)` gives `other`'s string |
| Resolver.TagMatch | server.js:24-27 | a match of `/\${(.*?)}/` starts at or after `lastIndex` and closes within the string |
| Resolver.TagMatchFacts | server.js:24 | a match is `${`, a group without `}` or line terminator, then `}` |
| Resolver.TagMatchIsRefTag | server.js:24 | the match agrees with the same expression as `removeRefTag` uses |
| Resolver.NoOpenNoMatch | server.js:27 | nothing matches in a string without `${` |
| Resolver.TokensShape | server.js:24-33 | the slices and groups alternate, and each group is verbatim text up to the first `}` |
| Resolver.TokensRoundTrip | server.js:25-36 | the slices and the placeholders written back give the string |
| Resolver.Claim | server.js:38-43 | a key is pending exactly when it is not in `local` |
| Resolver.ClaimAll | server.js:26-31 | one part per token; existing entries are kept; only keys not in `local` are pending |
| Resolver.ClaimedParts | server.js:27-31 | each place gets its literal, the known text, the marker for a repeated new key, or pending for a key's first place |
| Resolver.ClaimedLocal | server.js:39-42 | after the scan `local` holds its old entries and a cycle marker for every new key |
| Resolver.GetKey | server.js:13-17 | a stored string, `{"$null_ref":"key"}` for an absent key, WRONGTYPE for a set |
| Resolver.Hydrate | server.js:23-37 | hydration only adds entries to `local` and never changes one that is there |
| Resolver.Settle | server.js:35-36 | consuming parts changes only the entries of pending keys |
| Resolver.Resolve | server.js:43-47 | success writes the text under the key; failure leaves the entry; nothing else changes |
| Resolver.HydrateKey | server.js:38-49 | a known key answers from `local`; a new key ends with its text or, on failure, its marker |
| Resolver.KnownKeysFilled | server.js:25-40 | with all keys known, nothing is fetched and each placeholder becomes its text |
| Resolver.NoPlaceholder | server.js:27-36 | a string without a match comes back unchanged |
| Resolver.MarkersInert | server.js:13-42 | the two markers hold no match when the key holds no `$` |
| Resolver.MissingKey | server.js:13-17 | an absent key resolves to `{"$null_ref":"key"}`, which `local` keeps |
| Resolver.OnePlaceholder | server.js:24-33 | `${key}` is one key between two empty slices |
| Resolver.SelfReference | server.js:38-47 | a key whose text is `${key}` resolves to its own cycle marker |
| Resolver.SiblingRepeat | server.js:26-47 | in `${k}${k}` the first place gets the text and the second the marker, since all claims run first |
| Resolver.SiblingClaims | server.js:27-42 | the scan of `${k}${k}` claims the first place and marks the second |
| Resolver.SettleReady | server.js:35-36 | parts that are all ready join in order, with no store read |
| Resolver.Request.constructor | server.js:53 | each request starts with an empty `local` |
| Resolver.Request.Visit | server.js:38-43 | the call-time half of `hydrateKey` computes `Claim` |
| Resolver.Request.Scan | server.js:26-33 | the `while` loop over the expression computes `ClaimAll` of the string's tokens |
| Resolver.Request.SettleAll | server.js:35-36 | the parts consumed in order compute `Settle` |
| Resolver.Request.ResolveKey | server.js:43-47 | fetching and hydrating one key computes `Resolve` |
| Resolver.Request.HydrateString | server.js:23-37 | computes `Hydrate` |
| Resolver.Request.Lookup | server.js:38-49 | computes `HydrateKey` |

## Left out

- HTTP handlers, routing and status mapping (lib/v1.js:181-225, server.js:51-75): request framing
  and logging. The server's fresh `local` per request is `Resolver.Request.constructor`.
- Redis client plumbing (lib/db.js:12-47 and the client in server.js:8-11): `MemoryStore` and
  `Store.Db` stand in for the store.
- Highland laziness and asynchrony. Each store call is a synchronous function. In the production
  engine the batch fetch and the list queries may see two store views, which is the only way its
  WRONGTYPE branch is reached. Only the eager claim order of server.js:27-30 is kept.
- Stream errors: the first error in reference order ends the call. In the v1 engine and in the
  server.js resolver, the memo the model returns keeps every write made before the error.
- Hydrate.After: on an error the production model returns the memo object the round started from.
  The source has by then already written into the caller's object in place (`local.globalDefault`
  at ps-direct-sdk/lib/hydrateString.js:14, `local[obj.key] = value` at :58), and those writes
  survive the failed call. The model does not show them; `get` (ps-direct-sdk/index.js) starts every
  call from a fresh `{}`, so no caller in the core reads that object again.
- Floating point: scores, `Infinity` bounds and number formatting are integers with explicit
  -Infinity/Infinity bounds. Integer-like member names, which JavaScript orders first in an object,
  keep insertion order.
- `JSON.parse`, `js-string-escape` and `Number()` on a string are parameters of `Js.Runtime`.
- `R.add` in server.js:36 is string concatenation; numeric addition of non-strings is not modelled.
- Hydrate.Run: a fuel bound on the rounds; `None` means the fuel ran out. The source recurses without
  bound, and the depth counter resets each round (ps-direct-sdk/lib/hydrateString.js:9).
- HydrateV1.Run: a fuel bound on the rounds; `None` means the fuel ran out.
- Resolver.Hydrate: a fuel bound on the nesting of hydrateString and hydrateKey; `None` means the fuel
  ran out.
- test/unit.js:56-64 expects v1 to memoise values. The code writes `local["undefined"]` instead,
  and the model follows the code.
