# orbit game objects — a Dafny model

This project models the core of the `orbit` game-object library (satellite-games/orbit).
That core covers:

- **Game objects.** Each has a dotted blueprint name (`wagon.large`), a unique id, an owner
  reference and a `children` record. The record maps collection keys (`wagon`) to ordered
  lists of child objects.
- **The collection-key resolver** `getGameObjectKey`. It maps a name to its collection key,
  which is the name without its last segment.
- **The game-object operations:**
  - `getOwner`, `getChildren`, `setChildren`, `addChild` and `removeChild`;
  - the child searches `findChildByName` and `findChildById`;
  - `getModifiersRecursively`, `getModifiedValue` and `checkDependencies`.
- **Modifiers.** These are additive adjustments of numeric properties. They target objects
  by name or by id. The operations are `getModifiedKeys` and `applyModifiers`.
- **Dependencies and conflicts.** `Dependency.check` is the decision table that says
  whether an object holds a required child (or is free of a conflicting one), optionally
  with a property equal to, at least or at most a value.

The modules:

- `Wrappers`: `Option`, `Result` and the failures the library raises: the errors it throws
  (one `MissingProperty` for the two identical throws of `Dependency.check`) and the
  `TypeError` of `setChildren` on an empty list (`NoFirstChild`).
- `Collections`: the `children` record as a sequence of `(key, list)` entries in insertion
  order. It covers lookup (`children[k] ?? []`), replacement, `find`, `indexOf`,
  `splice` and `filter`.
- `GameObjectKeys`: `getGameObjectKey`. It is a loop method proved against a
  split/join specification.
- `Entities`: modifiers, dependencies, property values, and a game object with its subtree
  as an immutable value. The recursive queries are defined on that value.
- `Modifiers`: `getModifiedKeys` and `applyModifiers`. `applyModifiers` is a loop method
  proved against `AppliedValue`.
- `ModifierTree`: `getModifiersRecursively` (a pre-order gathering of modifiers, then a
  filter) and `getModifiedValue`.
- `Dependencies`: `Dependency.check` and `checkDependencies`. `checkDependencies` is a loop
  method proved against `FirstFailure`.
- `GameObjects`: the live `GameObject` class. It holds the owner and `children` fields,
  which `setChildren`, `addChild` and `removeChild` update in place, and the searches over
  the direct children.
- `Scenarios`: the library's own examples as lemmas, stated on concrete objects (trains,
  wagons and stats; an entity holding a `dependency.target` child). Where the examples use
  fresh UUIDs and the wagons' amounts, the lemmas take parameters.

Optional string fields that the library only ever tests for truthiness use `""` for
`undefined`. These are a modifier's `targetId`, a dependency's `key`, and the
`getModifiersRecursively` filter fields.

## Notes on the source

- `Dependency.check` reads the field `dependencyName`. The interface in
  `lib/dependency/types.ts` calls it `name`.
- `game-object.ts` imports the key resolver as `getGameObjectTypeName`.
  `game-object.utils.ts` exports it as `getGameObjectKey`. Both are taken to be the same
  function.
- `setChildren` reads `children[0].name` before it checks for an empty list. An empty
  list therefore fails on that read (`NoFirstChild`); the "empty array" error at
  game-object.ts line 96 is never reached, so the model has no constructor for it.

## Model

| member | source | states |
|---|---|---|
| Collections.Keys | lib/game-object/game-object.ts:143 | The declared collection keys are the record's entries' keys, one per entry, in insertion order |
| Collections.Get | lib/game-object/game-object.ts:72-78 | `children[k] ?? []`: the list of the first entry keyed `k`, or the empty list when no entry has that key |
| Collections.Put | lib/game-object/game-object.ts:99 | `children[k] = list`: the same number of entries; only the entry keyed `k` changes, keeping its position |
| Collections.PutKeepsKeys | lib/game-object/game-object.ts:99 | Replacing a collection's list keeps the record's keys and their order |
| Collections.GetAfterPut | lib/game-object/game-object.ts:99 | After a write to a declared key, reading that key gives the written list |
| Collections.GetOtherAfterPut | lib/game-object/game-object.ts:99 | A write to one key leaves every other key's list unchanged |
| Collections.PutGet | lib/game-object/game-object.ts:99 | Writing back the stored list of a declared key leaves the record unchanged |
| Collections.PutPut | lib/game-object/game-object.ts:99 | A second write to the same key overrides the first |
| Collections.MemberOfGetIsInFlatten | lib/game-object/game-object.ts:143-146 | A member of any stored list is among the children that findChildBy* walks |
| Collections.FindFirst | lib/game-object/game-object.ts:144 | `Array.find`: None exactly when no element satisfies the predicate; otherwise an element that satisfies it, with none before it that does |
| Collections.FindFirstAppend | lib/game-object/game-object.ts:143-147 | Searching a concatenation finds in the left part first, and only falls through to the right part on a miss |
| Collections.FindInCollectionsIsFirstOverall | lib/game-object/game-object.ts:143-147 | Searching collection by collection and returning the first hit gives the first match across all children in key-then-list order |
| Collections.IndexOf | lib/game-object/game-object.ts:127 | `indexOf`: -1 exactly when absent; otherwise the position of an equal element with no earlier occurrence |
| Collections.Splice | lib/game-object/game-object.ts:131 | `splice(i, 1)`: one element shorter; the elements before `i` are kept and the later ones shift down by one |
| Collections.Where | lib/modifier/modifier.ts:59-65 | `filter` never lengthens a list |
| Collections.WhereKeepsExactly | lib/game-object/game-object.ts:183-190 | `filter` keeps only satisfying elements, and keeps every satisfying element |
| Collections.WhereAppend | lib/game-object/game-object.ts:178 | Filtering a concatenation is the concatenation of the filtered parts |
| Collections.WhereWhere | lib/game-object/game-object.ts:184-189 | Two successive filters are one filter by the conjunction |
| Collections.WhereSame | lib/game-object/game-object.ts:183-190 | Filtering by two predicates that agree everywhere gives the same list |
| Collections.WhereAll | lib/game-object/game-object.ts:183-190 | Filtering by a predicate that every element satisfies keeps the whole list |
| Collections.WhereNone | lib/modifier/modifier.ts:59-65 | Filtering by a predicate that no element satisfies leaves nothing |
| Collections.PermutationWithoutLast | lib/modifier/modifier.ts:66-70 | Removing one equal element from each of two permutations leaves permutations (supports the order-independence of the sum) |
| GameObjectKeys.LastDot | lib/game-object/game-object.utils.ts:9 | The position of the last '.': a dot with no dot after it |
| GameObjectKeys.LastDotUnique | lib/game-object/game-object.utils.ts:9 | Any dot with no dot after it is the one `LastDot` finds |
| GameObjectKeys.Split | lib/game-object/game-object.utils.ts:9 | `split('.')`: at least one segment, and no segment contains a dot |
| GameObjectKeys.JoinSplit | lib/game-object/game-object.utils.ts:9-16 | Joining the segments with '.' gives the name back |
| GameObjectKeys.GameObjectKey | lib/game-object/game-object.utils.ts:8-17 | A name without dots is its own key; otherwise the key is the name cut before its last dot, so it is a prefix of the name |
| GameObjectKeys.KeyOfQualifiedName | lib/game-object/game-object.utils.ts:8-17 | The key of `prefix.segment`, for a dot-free last segment, is `prefix` |
| GameObjectKeys.KeyHasOneDotLess | lib/game-object/game-object.utils.ts:12-15 | A dotted name's key has exactly one dot fewer than the name |
| GameObjectKeys.GetGameObjectKey | lib/game-object/game-object.utils.ts:8-17 | The split-and-concatenate loop returns the specified key |
| Modifiers.AppliedValue | lib/modifier/modifier.ts:53-58 | An error (naming the key) exactly when the raw value is absent or not a number |
| Modifiers.ApplyModifiers | lib/modifier/modifier.ts:48-71 | The check, filter and accumulator loop compute `AppliedValue`: the raw number plus the amounts of the matching modifiers, or the not-numeric error |
| Modifiers.TotalAppend | lib/modifier/modifier.ts:66-70 | The accumulated sum of a concatenation is the sum of the two parts' sums |
| Modifiers.TotalPermutation | lib/modifier/modifier.ts:66-70 | The accumulated sum depends only on the multiset of amounts |
| Modifiers.ContributionAppend | lib/modifier/modifier.ts:59-70 | What a concatenated modifier list adds is what each part adds, summed |
| Modifiers.AmountsAppend | lib/modifier/modifier.ts:66-70 | The amounts of a concatenation are the concatenated amounts |
| Modifiers.ContributionOfOne | lib/modifier/modifier.ts:59-70 | A single modifier adds its amount exactly when it matches, and nothing otherwise |
| Modifiers.NoMatchIsRaw | lib/modifier/modifier.ts:59-70 | With no matching modifier, the modified value is the raw value |
| Modifiers.ModifierOrderIrrelevant | lib/modifier/modifier.ts:48-71 | Reordering the modifier list does not change the modified value or the error |
| Modifiers.ContributionPermutation | lib/modifier/modifier.ts:59-70 | What a modifier list adds depends only on its multiset of modifiers |
| Modifiers.IdTargetedModifier | lib/modifier/modifier.ts:60-61 | A modifier with a targetId affects only the object with that id, whatever its targetName |
| Modifiers.NameTargetedModifier | lib/modifier/modifier.ts:62-63 | A modifier without a targetId affects every object with its targetName |
| Modifiers.EveryListedKeyShifted | lib/modifier/modifier.ts:59-70 | A matching modifier shifts each numeric property it lists by its amount |
| Modifiers.OneKeyLeavesOtherKeys | lib/modifier/modifier.ts:36-38 | getModifiedKeys turns a single key into a one-element list, so a single-key modifier leaves every other numeric property at its raw value |
| ModifierTree.GatherListAppend | lib/game-object/game-object.ts:177-179 | Gathering over a concatenated child list concatenates the gathered results |
| ModifierTree.GatherPreOrder | lib/game-object/game-object.ts:171-180 | Gathering is pre-order: the object's own modifiers, then each direct child's gathering, collections in key order and children in list order |
| ModifierTree.GatherCollectionsFlat | lib/game-object/game-object.ts:175-180 | Gathering collection by collection equals gathering over all direct children in one list |
| ModifierTree.ModifiersRecursively | lib/game-object/game-object.ts:167-193 | The optional name filter, then the optional id filter, keep exactly the gathered modifiers that name the target (when a name is given) and carry no targetId or the given one (when an id is given), in gathered order |
| ModifierTree.DefaultSourceModifiedValue | lib/game-object/game-object.ts:202-213 | `GetModifiedValue` (getModifiedValue) without an explicit source: a numeric property is shifted by the modifiers aimed at the object in its owner's subtree, or, with no owner, in its own subtree, its own modifiers first |
| ModifierTree.NonNumericIsError | lib/modifier/modifier.ts:53-58 | `GetModifiedValue` of an absent or non-numeric property is the not-numeric error, whatever the source |
| ModifierTree.ModifiedValueOfSubtree | lib/game-object/game-object.ts:202-213 | `GetModifiedValue` (getModifiedValue) of a numeric property of a named object is the raw value plus the amounts of the modifiers in the source's subtree that name the object, carry no other id, and list the key |
| ModifierTree.AffectsIsFilterThenMatch | lib/game-object/game-object.ts:204-211 | The getModifiersRecursively filter followed by the applyModifiers match keeps exactly the modifiers aimed at the object and its key |
| Dependencies.CheckWhenNotFound | lib/dependency/dependency.ts:33-38 | `Check` (Dependency.check) without a child of the dependency's name: a conflict passes and a dependency fails |
| Dependencies.UndeclaredCollectionIsNotFound | lib/dependency/dependency.ts:31-33 | `Check` searches a collection the checked object does not declare as an empty list: conflict passes, dependency fails |
| Dependencies.CheckExistence | lib/dependency/dependency.ts:55-58 | `Check` with a found child and no key: a dependency passes and a conflict fails |
| Dependencies.CheckMissingProperty | lib/dependency/dependency.ts:40-44 | `Check` with a found child lacking the keyed property is an error, for a conflict and for a dependency alike |
| Dependencies.CheckThreshold | lib/dependency/dependency.ts:45-49 | `Check`, numeric against numeric: the modified value (the checked object is the source) must be at most the value for a conflict and at least it for a dependency; this never errs |
| Dependencies.TargetIsNamed | lib/dependency/dependency.ts:33 | The found child carries the dependency's name |
| Dependencies.CheckFoundThreshold | lib/dependency/dependency.ts:68-72 | Once the child is found, the numeric comparison uses the raw value plus the matching modifiers from the checked object's subtree |
| Dependencies.CheckEquality | lib/dependency/dependency.ts:50-54 | `Check` otherwise: strict equality of the raw value passes a dependency; strict inequality passes a conflict |
| Dependencies.ConflictNegatesDependency | lib/dependency/dependency.ts:35-81 | For existence and equality checks, a conflict's verdict is the negation of the same dependency's verdict |
| Dependencies.BothPassAtThreshold | lib/dependency/dependency.ts:49 | At exactly the threshold, both a dependency and a conflict pass (the comparisons are >= and <=) |
| Dependencies.FirstFailureIsFirst | lib/game-object/game-object.ts:222-234 | The verdict is `true` exactly when every check passes. Otherwise the first check that does not pass decides it: a failure is reported as a one-element list, an error propagates |
| Dependencies.CheckDependencies | lib/game-object/game-object.ts:222-234 | The loop that breaks at the first failure computes `FirstFailure` of the outcomes |
| GameObjects.GameObject.constructor | lib/game-object/game-object.ts:40-59 | Name, id, owner and children are those given; the absent defaults are the caller's |
| GameObjects.GameObject.GetChildren | lib/game-object/game-object.ts:72-78 | An undeclared key gives the empty list; a declared key gives the list of the first entry with that key |
| GameObjects.GameObject.SetChildren | lib/game-object/game-object.ts:84-100 | An empty list fails reading its first element, with nothing changed. An undeclared key is refused with nothing changed. Otherwise every listed child gets this owner, and the key's list becomes the given list |
| GameObjects.GameObject.AddChild | lib/game-object/game-object.ts:106-115 | The child is appended to its key's list and gets this owner. For an undeclared key the record is unchanged, yet the owner is still set |
| GameObjects.GameObject.RemoveChild | lib/game-object/game-object.ts:121-134 | A child not in its key's list is an error with nothing changed. Otherwise its first occurrence is spliced out and its owner cleared |
| GameObjects.GameObject.FindChild | lib/game-object/game-object.ts:143-147 | The collection-by-collection loop returns the first match over all direct children |
| GameObjects.GameObject.FindChildByName | lib/game-object/game-object.ts:142-148 | The first direct child with the name. Undefined exactly when no direct child has it |
| GameObjects.GameObject.FindChildById | lib/game-object/game-object.ts:155-161 | The first direct child with the id. Undefined exactly when no direct child has it |
| GameObjects.OwnerOfNewObject | lib/game-object/game-object.test.ts:19-33 | getOwner returns the owner given at construction, and null when none was given |
| GameObjects.AddThenRemove | lib/game-object/game-object.test.ts:62-77 | Adding a new child to a declared collection, then removing it, restores the record and leaves the child without an owner |
| GameObjects.AddThenFindById | lib/game-object/game-object.test.ts:99-110 | A child added to a declared collection is then found by its id |
| Scenarios.KeyOfSingleSegment | lib/game-object/game-object.utils.test.ts:7 | `foo` is its own key |
| Scenarios.KeyOfTwoSegments | lib/game-object/game-object.utils.test.ts:8 | The key of `foo.bar` is `foo` |
| Scenarios.KeyOfThreeSegments | lib/game-object/game-object.utils.test.ts:9 | The key of `foo.bar.baz` is `foo.bar` |
| Scenarios.KeyOfFourSegments | lib/game-object/game-object.utils.test.ts:10 | The key of `foo.foz.bar.baz` is `foo.foz.bar` |
| Scenarios.KeyOfQualifiedBlueprintName | lib/game-object/game-object.utils.test.ts:11 | The key of `character.origin.earth-urban` is `character.origin` |
| Scenarios.UnmodifiedSpeed | lib/modifier/modifier.test.ts:8-13 | A speed stat in a train without modifiers has its raw value, 5 |
| Scenarios.SpeedWithOneWagon | lib/modifier/modifier.test.ts:15-31 | One wagon shifts the speed by its amount (7 with a small wagon, 2 with a large one) |
| Scenarios.SpeedWithThreeWagons | lib/modifier/modifier.test.ts:66-75 | Several wagons' amounts add up, with the owner as the default source |
| Scenarios.SpeedAndMaxShifted | lib/modifier/modifier.test.ts:51-64 | A modifier listing two keys shifts both `value` and `max` |
| Scenarios.LengthByTargetId | lib/modifier/modifier.test.ts:33-49 | Of two modifiers naming the train, only the one carrying its id applies (length 1 becomes 2); without an owner the train is its own source |
| Scenarios.LengthWithoutMatchingModifier | lib/modifier/modifier.test.ts:77-99 | Modifiers for another name, another key or another id leave the length at 1 |
| Scenarios.TargetIsFound | lib/dependency/dependency.test.ts:15-21 | `dependency.target` is found in the entity's `dependency` collection |
| Scenarios.ExistenceCheck | lib/dependency/dependency.test.ts:29-39 | Existence only: the dependency passes and the conflict (lines 201-213) fails |
| Scenarios.EqualityCheck | lib/dependency/dependency.test.ts:54-81 | `hello` passes a dependency exactly when the value is "world", and a conflict exactly when it is not |
| Scenarios.ThresholdCheck | lib/dependency/dependency.test.ts:112-131 | `answer` (42) shifted by a modifier on the checked entity: at least the value for a dependency, at most it for a conflict |
| Scenarios.UnmodifiedThresholdCheck | lib/dependency/dependency.test.ts:83-110 | Without modifiers, the raw 42 is compared: 32 passes and 52 fails as a minimum |
| Scenarios.NonExistentKey | lib/dependency/dependency.test.ts:168-179 | A key the target lacks is an error |
| Scenarios.NoSuchTarget | lib/dependency/dependency.test.ts:41-52 | No child of the `dependency` collection has any other `dependency.*` name |
| Scenarios.AbsentChild | lib/dependency/dependency.test.ts:188-199 | A missing child fails a dependency and passes a conflict |
| Scenarios.AbsentCollection | lib/dependency/dependency.test.ts:155-166 | A name whose collection is not declared (`non-existent.collection`) fails a dependency and passes a conflict |
| Scenarios.FailingDependencyIsReported | lib/dependency/dependency.test.ts:68-81 | checkDependencies reports a failing dependency as a one-element list |

## Left out

- `serialize` and `beforeSerialize`: the JSON serialization (circular references, empty collections stripped) is not part of this model.
- The event log and `lib/event/*` are not part of this model.
- Type-only files (`types.ts`, `private-types.ts`, `public-types.ts`) and the blueprint registry types have no behaviour to model.
- The constructor's UUID generation for a missing id is not modelled: the id is a parameter, because randomness is outside the model.
- The constructor's `Object.assign` of extra blueprint fields is not modelled. A game object's kind-specific properties (`seats`, `value`, getters such as `length`) are a map of values read at the moment of the query.
- The constructor's wrapping of modifiers and dependencies in `Modifier`/`Dependency` instances is not modelled. `GameObject.constructor` does not set the owner of the children it is given, and neither does the source.
- Numbers are unbounded integers. Floating point (fractional amounts, NaN, rounding of sums) is not modelled.
- Property values are primitives (number, string, boolean, null). Object-valued properties, and the reference equality `===` gives them, are not modelled.
- The live `GameObject` class holds owner and children by reference. The recursive queries (`getModifiersRecursively`, `getModifiedValue`, `Dependency.check`, `checkDependencies`) run on an immutable `Entity` value of the subtree instead of walking the heap, and no function maps a `GameObject` heap to its `Entity`. An `Entity` is always finite and acyclic, while the source's heap can be cyclic (an object added to its own collection, or two objects that `addChild` each other under declared keys); there `getModifiersRecursively` recurses until the stack overflows, which the model cannot express.
- Aliasing of arrays is not modelled: `getChildren`, `addChild` and `removeChild` return the live array, and `setChildren` stores the caller's array itself (game-object.ts line 99), so later mutations through either show up in the record. The model passes and returns list values.
- `Object.values` lists integer-like keys before the others. The model keeps every key in insertion order.
- Exceptions are `Result`/`Option` values. The error messages' text is not modelled, only which error is raised and its key.
- `getModifiedValue`'s fallback `modifiers ?? this.modifiers` is never taken: the filtered list is always an array.
- ModifiedValueOfSubtree: requires a non-empty name. With an empty (falsy) name the source skips the name filter, so a modifier carrying the object's id but naming another object would apply; this closed form does not cover that case, which `GetModifiedValue` itself models. An empty id needs no exclusion: then only modifiers without a targetId apply, as the closed form says.
- AffectsIsFilterThenMatch: requires a non-empty name, for the same reason.
- DefaultSourceModifiedValue: requires a non-empty name, for the same reason.
- CheckFoundThreshold: requires a non-empty target name, for the same reason.
- CheckThreshold: requires a non-empty dependency name (the target carries it), for the same reason.
- The `children` record of the model is a list of entries and does not forbid two entries with the same key, which a JavaScript object cannot hold; lookup and replacement use the first entry with a key, and the mutators never add entries.
- `checkDependencies` stops at the first failure (the `break` at line 229), so a failed verdict always holds exactly one dependency, although the comment promises "a list of all dependencies that failed". The model follows the code.
- The scenarios take the UUIDs as parameters, and the wagons' amounts too (2 and -3 in the blueprints), so each lemma covers the concrete example and every other amount.
