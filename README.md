# onny-immutable in Dafny

A model of onny-immutable's copy-on-write update core, with proofs about it.

**Mutation session.** The core is the `Mutations` class. A session is opened on a value and keeps that value as `originalState`. It also keeps a working copy, `state`. Every chainable call replaces the working value and returns the session. Most of them get the new value in three steps:

- they build a command tree of patch directives (`$set`, `$merge`, `$push`, `$unshift`, `$apply`);
- they hand the tree to the structural patch applier (immutability-helper);
- they store the result as the new working value.

The others do not build a tree. `getIn` narrows the working value by a walk, and `clear` replaces it by `{}`. `merge` and `mergeDeep` compute the merged value with the utility-library `merge` and then set it as a whole. `deleteIn` uses `omit`. Several calls also return early and leave the working value as it was: `set` with a falsy key, `update` on an empty value, `updateIn` on a missing path, `pushIn`/`unshiftIn` when the slot is no sequence, `pullAtIn` when the path holds no sequence, and `deleteIn` when a step holds nothing.

`getState` hands the original back when nothing changed. Otherwise it hands back the working value, or undefined when that value is falsy.

**Around the session.**

- The directive builders make the one-key command literals.
- The facade (`immutableMgr`) exports one function per operation. Each export except `clear`, `get` and `withMutations` opens a session, makes one call and returns `getState`. `clear` returns `{}` and `get` reads its argument, both without a session.
- `withMutations` makes several calls on one session.
- `get` is a stand-alone one-deep lookup.

**Values.** JavaScript values are modelled as the datatype `Values.Value`:

- undefined and null;
- booleans and integer numbers;
- strings;
- maps with string keys;
- sequences.

Copies (`clone`, `cloneDeep`) are the value itself, and deep equality (`isEqual`) is `==`.

**Reads and writes.** Two functions underlie every statement about the operations:

- `At(v, p)` walks key by key and stops at null or undefined. This is the walk of `getIn` and `getInCopy`.
- `WriteAt(v, p, x)` writes `x` at the end of `p`, creating maps on the way.

The lemmas in `Values` give their read-back, frame, idempotence and overwrite laws. Each session operation is specified by a function of `Operations` on the value before the call. The lemmas there state what it does in terms of the original value:

- `setIn`, `set`, `update`, `updateIn`, `mergeIn`, `pushIn`, `unshiftIn` and `pullAtIn` are a single `WriteAt`, or a no-op;
- `merge` and `mergeDeep` are the deep merge `DeepMerge`;
- `deleteIn` is an `Omit` of one key, at the top level or in the map under the first key, or a no-op;
- `getIn` is the read `At`, with null for nothing found;
- `clear` gives the constant `{}`.

**Modules, one per file.**

- `Values`: the value datatype, truthiness, paths, and the read and write functions.
- `ImmutableCommands`: the directive builders.
- `Patch`: the patch applier, modelled by contract.
- `Utils`: the utility-library helpers (`merge`, `omit`, `pullAt`), modelled by contract.
- `Helpers`: `useCommandIn`, `getInCopy`, `doesLocExist` and `addObjPlaceholder`.
- `Operations`: what each session call, the constructor and `getState` do.
- `Mutations`: the session class.
- `ImmutableMgr`: the facade.
- `Get`: `src/get.js`.

**Where the code differs from the documented behaviour.** The model follows the code in each case.

- `deleteIn` is documented as deleting the item nested at the path (src/mutations.js:334), and its loop is written to walk the path (src/mutations.js:350-361). With a path of three or more keys it does not remove the last key. Its loop returns during its first pass after omitting `locArray[1]` from `state[locArray[0]]`. For example, `['a','b','c']` on `{a:{b:{c:1,d:2}}}` gives `{a:{}}`, not `{a:{b:{d:2}}}`; `Operations.DeleteInThreeKeysExample` states this case.
- A failed `getIn` through the facade returns undefined, because `getState` turns the null working value into undefined (src/mutations.js:144). The tests at test/immutableMgr.spec.js:85-98 expect null.

**How `pullAt` is read.** `pullAtIn` hands every index to `pullAt` (src/mutations.js:328). The model reads `pullAt` as removing the items at the in-range indexes and ignoring the others. So a mix of in-range and out-of-range indexes removes the in-range items, and the call is a no-op only when every index is out of range.

## Model

| member | source | states |
|---|---|---|
| Values.Member | src/mutations.js:155 | reading a key of a map gives its value; reading a missing key or a key of a non-map gives undefined |
| Values.AtAppend | src/mutations.js:65-77 | walking a path in two parts is walking the first part and then the second from where it ended |
| ImmutableCommands.Set | src/immutableCommands.js:20-22 | the directive has key `$set` and carries the argument unchanged |
| ImmutableCommands.Merge | src/immutableCommands.js:28-30 | the directive has key `$merge` and carries the argument unchanged |
| ImmutableCommands.Push | src/immutableCommands.js:37-39 | the directive has key `$push` and carries the argument unchanged |
| ImmutableCommands.Unshift | src/immutableCommands.js:46-48 | the directive has key `$unshift` and carries the argument unchanged |
| ImmutableCommands.Apply | src/immutableCommands.js:55-57 | the directive has key `$apply` and carries the argument (a function) unchanged |
| ImmutableCommands.Splice | src/immutableCommands.js:64-66 | the directive has key `$splice` and carries the argument unchanged |
| ImmutableCommands.KeysDistinct | src/immutableCommands.js:20-66 | the six directive keys are pairwise distinct |
| ImmutableCommands.DirectiveDetermines | src/immutableCommands.js:20-66 | a directive equals `builder(p)` exactly when it has that builder's key and payload `p`, so it determines both |
| Patch.ApplyDirective | src/mutations.js:29 | `$merge` keeps the target's keys and adds the payload's, payload values winning; `$push` gives the old items followed by the new; `$unshift` gives the new items followed by the old |
| Patch.UpdateEmpty | src/mutations.js:47-62 | the empty tree built for an empty path changes nothing |
| Patch.UpdateAlong | src/mutations.js:29 | a one-branch tree, applied below existing maps, writes the directive's result at its path and keeps every other key |
| Utils.DeepMerge | src/mutations.js:223 | merging two maps gives a map whose keys are the union of theirs |
| Utils.MergeKeys | src/mutations.js:223 | a destination key the source lacks is kept; a non-map source value replaces the destination's |
| Utils.MergeEmptySource | src/mutations.js:223 | merging `{}` into a map leaves it unchanged |
| Utils.MergeIntoEmpty | src/mutations.js:223 | merging a map into `{}` gives that map |
| Utils.MergeSelf | src/mutations.js:248 | merging a value into itself gives it back |
| Utils.MergeTwice | src/mutations.js:248 | merging the same source twice equals merging it once |
| Utils.Omit | src/mutations.js:342 | the map loses key `k` and keeps every other key with its value |
| Utils.PullAtOutOfRange | src/mutations.js:328 | with no listed index inside the sequence, nothing is removed |
| Utils.PullAtOne | src/mutations.js:328 | pulling one in-range index removes exactly that item and keeps the rest in order |
| Utils.PullAtLength | src/mutations.js:328 | the length drops by the number of distinct listed indexes that are in range |
| Helpers.Lookup | src/mutations.js:65-77 | the value at the path, or null exactly when the walk ends at null or undefined; never undefined |
| Helpers.DoesLocExist | src/mutations.js:115 | true exactly when the path holds a value that is neither null nor undefined |
| Helpers.FillStep | src/mutations.js:97-99 | a truthy value is kept, and a falsy one becomes `{}` |
| Helpers.FillLast | src/mutations.js:97-108 | without a sequence asked for, the slot is filled as any step is; with one asked for, the slot ends up a sequence exactly when it was one or was falsy or empty, and a slot that becomes a sequence this way is `[]` |
| Helpers.UseCommandIn | src/mutations.js:47-62 | the loop builds the one-branch tree holding the directive at the end of the path |
| Helpers.GetInCopy | src/mutations.js:65-77 | the loop returns the value at the path, or null when a step holds null or undefined |
| Helpers.AddObjPlaceholder | src/mutations.js:90-113 | the loop returns the input with every step of the path stubbed |
| Helpers.StubIsWrite | src/mutations.js:90-113 | stubbing is a single write of the filled last slot at the path; falsy maps on the way become `{}` |
| Helpers.StubResult | src/mutations.js:90-113 | after stubbing, every map above the last key exists, and the last slot holds its filled value |
| Helpers.StubTwice | src/mutations.js:90-113 | stubbing twice equals stubbing once |
| Operations.Init | src/mutations.js:127-131 | the session starts from the argument, or from `{}` when the argument is undefined |
| Operations.FinishValue | src/mutations.js:138-145 | `getState` gives the working value when it is truthy or equals the original, and undefined otherwise |
| Operations.SetInWrites | src/mutations.js:179-182 | `setIn` writes the value at the path; an empty path changes nothing |
| Operations.SetInOnlyPath | src/mutations.js:179-182 | after `setIn` the path reads back the value, and every key off the path is unchanged |
| Operations.SetWrites | src/mutations.js:184-190 | `set` with a falsy key changes nothing; otherwise only that key changes, to the value |
| Operations.UpdateWrites | src/mutations.js:192-200 | `update` on an empty value changes nothing; otherwise only that key changes, to `func` of its old value |
| Operations.UpdateInWrites | src/mutations.js:208-214 | `updateIn` on a path holding nothing changes nothing; otherwise it writes `func` of the old value there and nothing else |
| Operations.MergeIsDeepMerge | src/mutations.js:222-252 | `merge` and `mergeDeep` both give the deep merge of the value into the working value |
| Operations.MergeInWrites | src/mutations.js:234-239 | `mergeIn` writes, at the path, the target's keys (none if it was falsy) overridden by the value's keys, and writes nothing else |
| Operations.MergeInResult | src/mutations.js:234-239 | after `mergeIn` the path holds a map; a missing or falsy target now holds exactly the value |
| Operations.AddToSequenceWrites | src/mutations.js:273-314 | `pushIn` and `unshiftIn` write the combined sequence when the stubbed slot is a sequence (the values are then a sequence too), and otherwise change nothing |
| Operations.PushInResult | src/mutations.js:273-283 | the values must be a sequence when the slot is a sequence, falsy or empty; a sequence slot then gets the values appended, and a falsy or empty one becomes the values; any other slot leaves the whole value unchanged |
| Operations.UnshiftInResult | src/mutations.js:304-314 | the same as `pushIn`, with the values put in front |
| Operations.PullAtInWrites | src/mutations.js:323-330 | `pullAtIn` writes the pulled sequence back at its path, and changes nothing when the path holds no sequence |
| Operations.PullAtInOutOfRange | src/mutations.js:323-330 | with every index out of range, the result equals the input |
| Operations.DeleteInResult | src/mutations.js:339-363 | one key is removed from the top level; for a longer path only `locArray[1]` is removed from the map at `locArray[0]`, and later keys are ignored; a null or undefined first step or an empty path changes nothing |
| Operations.DeleteInThreeKeysExample | src/mutations.js:339-363 | `['a','b','c']` on `{a:{b:{c:1,d:2}}}` gives `{a:{}}` |
| Operations.RunAppend | src/immutableMgr.js:162 | a script split in two runs as its first part followed by its second |
| Mutations.Mutations.constructor | src/mutations.js:127-131 | the original is the argument (`{}` when undefined), and the working value starts equal to it |
| Mutations.Mutations.GetState | src/mutations.js:138-145 | the original when nothing changed; otherwise the working value, or undefined when it is falsy |
| Mutations.Mutations.GetIn | src/mutations.js:152-166 | the loop narrows the working value to what the path holds, or to null |
| Mutations.Mutations.Clear | src/mutations.js:168-171 | the working value becomes `{}` |
| Mutations.Mutations.SetIn | src/mutations.js:179-182 | the new working value is `Operations.SetIn` of the old one |
| Mutations.Mutations.Set | src/mutations.js:184-190 | the new working value is `Operations.Set` of the old one |
| Mutations.Mutations.Update | src/mutations.js:192-200 | the new working value is `Operations.Update` of the old one |
| Mutations.Mutations.UpdateIn | src/mutations.js:208-214 | the new working value is `Operations.UpdateIn` of the old one |
| Mutations.Mutations.Merge | src/mutations.js:222-225 | the new working value is `Operations.Merge` of the old one |
| Mutations.Mutations.MergeIn | src/mutations.js:234-239 | the new working value is `Operations.MergeIn` of the old one |
| Mutations.Mutations.MergeDeep | src/mutations.js:246-252 | the new working value is `Operations.MergeDeep` of the old one |
| Mutations.Mutations.Push | src/mutations.js:262-264 | the new working value is `Operations.Push` of the old one (`pushIn` on `[loc]`) |
| Mutations.Mutations.PushIn | src/mutations.js:273-283 | the new working value is `Operations.PushIn` of the old one |
| Mutations.Mutations.Unshift | src/mutations.js:293-295 | the new working value is `Operations.Unshift` of the old one (`unshiftIn` on `[loc]`) |
| Mutations.Mutations.UnshiftIn | src/mutations.js:304-314 | the new working value is `Operations.UnshiftIn` of the old one |
| Mutations.Mutations.AddToSequence | src/mutations.js:273-283 | the shared body of `pushIn` and `unshiftIn` leaves `Operations.AddToSequence` of the old value |
| Mutations.Mutations.PullAtIn | src/mutations.js:323-330 | the new working value is `Operations.PullAtIn` of the old one |
| Mutations.Mutations.DeleteIn | src/mutations.js:339-363 | the new working value is `Operations.DeleteIn` of the old one |
| Mutations.Mutations.Perform | src/immutableMgr.js:162 | one call of a callback leaves the working value that `Operations.Step` gives |
| Mutations.Mutations.PerformAll | src/immutableMgr.js:162 | the loop making a script's calls leaves the working value that `Operations.Run` gives |
| ImmutableMgr.Clear | src/immutableMgr.js:17 | the result is the empty map |
| ImmutableMgr.ClearIgnoresState | src/immutableMgr.js:17 | `clear` ignores its argument |
| ImmutableMgr.Get | src/immutableMgr.js:23 | a truthy stored value is returned; a missing key or falsy value gives null |
| ImmutableMgr.WithMutationsSession | src/immutableMgr.js:162 | opening a session, making the script's calls and taking `getState` gives `WithMutations` |
| ImmutableMgr.UnchangedReturnsInput | src/immutableMgr.js:31-146 | when the calls leave the working value equal to the input, the input itself is handed back |
| ImmutableMgr.WithMutationsSingle | src/immutableMgr.js:162 | `withMutations` with one call equals the export for that call |
| ImmutableMgr.WithMutationsSequential | src/immutableMgr.js:162 | a batch equals its two halves made by separate calls when the input and the value between the halves are truthy |
| ImmutableMgr.GetInResult | src/immutableMgr.js:31 | `getIn` gives the input for the empty path and a truthy found value as it is; missing or falsy gives undefined, not null |
| ImmutableMgr.RemoveResult | src/immutableMgr.js:81 | `remove` equals `removeIn` on `[loc]` and drops that key |
| ImmutableMgr.RemoveInResult | src/immutableMgr.js:90 | `removeIn` drops `locArray[1]` from the map at `locArray[0]`, or gives the input back when that step holds nothing |
| ImmutableMgr.SetResult | src/immutableMgr.js:41 | `set` with a non-empty key gives the input with the value under that key |
| ImmutableMgr.SetInResult | src/immutableMgr.js:52-53 | `setIn` below existing maps gives the input with the value written at the path |
| ImmutableMgr.SetInGetInRoundTrip | src/immutableMgr.js:31-53 | `getIn` after `setIn` at the same path gives the value back when it is truthy, and undefined when it is falsy |
| ImmutableMgr.UpdateNoOp | src/immutableMgr.js:63 | `update` on an empty value gives the input back |
| ImmutableMgr.UpdateInNoOp | src/immutableMgr.js:71-72 | `updateIn` on a path holding nothing gives the input back, whatever else the input holds |
| ImmutableMgr.UpdateInResult | src/immutableMgr.js:71-72 | `updateIn` on a present path gives the input with `func` of the old value written there |
| ImmutableMgr.MergeInExport | src/immutableMgr.js:106-107 | `mergeIn` gives back the session's merged value, which holds a map at the path |
| ImmutableMgr.AddToSequenceExports | src/immutableMgr.js:114-141 | `pushIn` and `unshiftIn` give back the session's value |
| ImmutableMgr.MergeIsMergeDeep | src/immutableMgr.js:96-99 | `merge` and `mergeDeep` agree, both giving the deep merge into the input |
| ImmutableMgr.OneKeyExports | src/immutableMgr.js:122-131 | `push` and `unshift` equal `pushIn` and `unshiftIn` on `[loc]` |
| ImmutableMgr.PullAtInOutOfRangeReturnsInput | src/immutableMgr.js:145-146 | `pullAtIn` with every index out of range gives the input itself back |
| Get.Get | src/get.js:19-21 | a truthy stored value is returned; a missing key, or a falsy value (0, "", false, null), gives null |
| Get.AgreesWithFacade | src/get.js:19-21 | agrees with the facade's `get` on every input |

## Left out

- `src/index.js`, the re-export table, and `babel.config.js` are not part of this model.
- The bodies of immutability-helper, onny-utils and onny-validate are modelled by contract only. The patch applier covers the five directives the core uses; a `$splice` directive is never applicable. The deep `merge` replaces sequences rather than merging them index by index.
- `isEmpty` follows lodash: numbers and booleans count as empty.
- Utils.Omit: requires a map. Omitting a key from null or a scalar is not modelled.
- Keys are strings. JavaScript coercion of a null or array path element to a string key is not modelled. Indexing a sequence or string by a key gives undefined.
- Numbers are integers; fractions and NaN are not modelled.
- Reference identity and aliasing are not modelled. "Returns the input" is value equality. Nor is the mutation that the shallow-cloned `merge` makes to nested maps shared with the input.
- Inputs on which the code throws are preconditions. `mergeIn` on the empty path accepts any value and any working value, and `pushIn`/`unshiftIn` ask for a sequence of values only when the directive is applied. Examples are `setIn` through a missing map, stubbing through a truthy scalar, `$merge` onto a non-map, and reading a key of null.
- The `withMutations` callback is modelled as a script of session calls. A callback that returns some other session, or reads values while it runs, is not modelled.
- `pullAtIn` takes a list of indexes; a single index is the one-element list.
- Operations.MergeIn: on a non-empty path, a sequence as the merged value or as the target is not modelled, though the code documents an array value (src/mutations.js:231); the patch applier's `$merge` is modelled on maps only.
- Operations.SetIn, Operations.Set, Operations.Update, Operations.UpdateIn, Operations.PushIn, Operations.UnshiftIn: a path that runs through a sequence, or a key written onto a sequence, is not modelled; indexes of sequences are not keys here.
- Operations.Merge, Operations.MergeDeep: the working value and the merged value must be maps; merging into or from a sequence or scalar is not modelled.
- Operations.Finish: the deep equality test of `getState` is value equality.
