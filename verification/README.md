# OR-Set with Lamport-stamped elements, in Dafny

This project models an Observed-Remove Set (OR-Set), a conflict-free
replicated data type. Every element is stamped by its caller with an `id` and
a Lamport `clock`, and carries a payload `data`. A replica holds two
collections. `addSet` holds every element ever added. `removeSet` holds every
tombstone ever recorded. Both are sets modulo element equality, and element
equality looks at `(id, clock)` only. There are four operations:

- `add` inserts an element into `addSet`, and does nothing if its key is already there.
- `remove` inserts a tombstone into `removeSet` in the same way.
- `merge` takes the union of the two replicas' add-sets and of their remove-sets.
- `lookUp` gives the live view: the added elements whose key has no tombstone.

Elements are also ordered, by clock alone.

The model is pure, like the code: datatypes, functions and lemmas.

- `elements.dfy` (module `Elements`) holds the stamped element `Data<T>`, its key, the equality `DataEq` and the comparison `OrdCompare`.
- `keysets.dfy` (module `KeySets`) holds the set operations the code takes from its set library, stated by what they do modulo `DataEq`. These are membership, insert-with-dedup, a union that keeps the left operand's element when keys collide, and difference.
- `orsets.dfy` (module `OrSets`) holds the `OrSet<T>` datatype and the four operations.
- `laws.dfy` (module `OrSetLaws`) holds the algebra. It covers idempotent insertion, independence of the two collections, the merge laws, the meaning of the live view, tombstones that win from either replica, convergence, and the worked scenarios.

Sets are `set<Data<T>>`. The no-duplicate-key invariant is the predicate
`NoDupKeys`, and `Valid` asks it of both collections. Each operation takes any
input. Each one states, as an implication, that it keeps `Valid`.

The code never defines equality of two replicas. The model uses "same keys in
both collections" (`Equivalent`), since that is the equality every set
operation uses. Under it, merge is commutative, associative and idempotent.
Associativity and idempotence also hold as plain equality of values.
Commutativity holds as plain equality when the two replicas never hold one
stamp with two different payloads (`MergeCommutativeWhenAgreeing`). For valid
replicas it holds only then (`MergeCommutativeOnlyWhenAgreeing`): otherwise
each merge order keeps the element of its left operand
(`MergeKeepsLeftPayload`).

Removal is keyed on the exact `(id, clock)` stamp. A tombstone for a later
stamp of an id leaves an earlier add of that id live
(`RemoveIsScopedToStamp`). The model keeps this behaviour as written and
does not choose a different removal scope.

## Model

| member | source | states |
|---|---|---|
| Elements.DataEq | src/index.ts:18 | same id and same clock; the payload plays no part |
| Elements.DataEqIsKeyEquality | src/index.ts:18 | two elements are equal exactly when their (id, clock) keys coincide |
| Elements.PayloadIgnored | src/index.ts:18 | changing only the payload gives an element equal to the original, in both directions |
| Elements.IdAndClockMatter | src/index.ts:18 | elements that differ in id or in clock are not equal |
| Elements.DataEqIsEquivalence | src/index.ts:18-24 | element equality is reflexive, symmetric and transitive |
| Elements.OrdCompare | src/index.ts:31 | the result is -1, 0 or 1, exactly when the first clock is smaller, equal or larger |
| Elements.OrdCompareAntisymmetric | src/index.ts:31 | swapping the arguments negates the comparison |
| Elements.OrdCompareTotalPreorder | src/index.ts:31-38 | comparing by clock is reflexive, total and transitive (also strictly) |
| Elements.DataEqImpliesOrdEqual | src/index.ts:33-36 | elements that are equal compare as 0, so the ordering's equality and comparison agree |
| Elements.OrdEqualDoesNotImplyDataEq | src/index.ts:31-36 | two elements with equal clocks and different ids compare as 0 yet are not equal |
| KeySets.MemberIffKey | src/index.ts:41 | an element has a counterpart in a set modulo equality exactly when its key is among the set's keys |
| KeySets.Insert | src/index.ts:41 | insert adds the element's key and no other; it keeps every old element and adds at most the new one; the set is unchanged exactly when a key-equal element was present; no-duplicate-keys is kept |
| KeySets.Union | src/index.ts:48-49 | the union's keys are the keys of both operands; it holds every element of the left operand; an element taken from the right has a key the left lacks; no-duplicate-keys is kept |
| KeySets.InUnion | src/index.ts:48-49 | an element is in the union when it is in the left operand, or in the right operand with a key the left lacks |
| KeySets.MemberUnion | src/index.ts:48-49 | membership modulo equality in a union is membership in either operand |
| KeySets.UnionAssociative | src/index.ts:48-49 | union is associative as plain set equality |
| KeySets.UnionIdempotent | src/index.ts:48-49 | the union of a set with itself is that set |
| KeySets.UnionCommutativeOnKeys | src/index.ts:48-49 | the union is commutative on key sets |
| KeySets.UnionKeepsLeftPayload | src/index.ts:48-49 | when two sets without duplicate keys hold one key as different elements x (left) and y (right), Union(a, b) holds x and not y, and Union(b, a) holds y and not x |
| KeySets.UnionCommutativeWhenAgreeing | src/index.ts:48-49 | when no key has two payloads across the operands, the union is commutative as plain set equality |
| KeySets.Difference | src/index.ts:53 | the result is the elements of the first set with no key-equal counterpart in the second, in both directions; its keys are the first set's keys minus the second's |
| OrSets.Add | src/index.ts:40-41 | the remove-set is returned unchanged; the add-set gains the element's key and at most that element; the replica is unchanged exactly when the key was present; validity is kept |
| OrSets.Remove | src/index.ts:43-44 | the add-set is returned unchanged, and the key need not be in it; the remove-set gains the key and at most that element; the replica is unchanged exactly when the key was tombstoned; validity is kept |
| OrSets.Merge | src/index.ts:46-50 | the add-set and the remove-set are the key-unions of the two replicas' sets, keep every element of the left replica and take elements only from the two replicas; validity is kept |
| OrSets.LookUp | src/index.ts:52-53 | the live view is exactly the added elements with no key-equal tombstone, in both directions; it lies within the add-set; its keys are the added keys minus the tombstoned ones |
| OrSetLaws.AddIdempotent | src/index.ts:40-41 | add(add(S, e), e) == add(S, e) |
| OrSetLaws.AddPresentKeyIsNoOp | src/index.ts:40-41 | once a key is in the add-set, adding any element with that key, whatever its payload, leaves the replica as it was |
| OrSetLaws.RemoveIdempotent | src/index.ts:43-44 | remove(remove(S, e), e) == remove(S, e) |
| OrSetLaws.AddRemoveCommute | src/index.ts:40-44 | add and remove commute exactly, because each leaves the other's collection untouched |
| OrSetLaws.AddsCommuteOnKeys | src/index.ts:40-41 | two adds in either order give replicas with the same keys |
| OrSetLaws.MergeCommutative | src/index.ts:46-50 | merge(A, B) and merge(B, A) have the same keys in both collections |
| OrSetLaws.MergeAssociative | src/index.ts:46-50 | merge(merge(A, B), C) == merge(A, merge(B, C)) as values |
| OrSetLaws.MergeIdempotent | src/index.ts:46-50 | merge(A, A) == A as values |
| OrSetLaws.MergeRespectsEquivalence | src/index.ts:46-50 | merging replicas with the same keys gives replicas with the same keys |
| OrSetLaws.MergeCommutativeWhenAgreeing | src/index.ts:46-50 | when the replicas never hold one stamp with two payloads, merge(A, B) == merge(B, A) as values |
| OrSetLaws.MergeKeepsLeftPayload | src/index.ts:46-50 | for valid replicas, on any stamp the two add-sets hold as different elements, each merge order keeps its left operand's element, so the two orders differ as values |
| OrSetLaws.MergeCommutativeOnlyWhenAgreeing | src/index.ts:46-50 | for valid replicas, if the two merge orders are equal as values then the replicas agree on payloads in both collections |
| OrSetLaws.LookUpRespectsEquivalence | src/index.ts:52-53 | replicas with the same keys have live views with the same keys |
| OrSetLaws.LiveIff | src/index.ts:52-53 | an element is live exactly when its key was added and not tombstoned |
| OrSetLaws.AddMakesLive | src/index.ts:40-41 | after add, the element is live exactly when its key had no tombstone |
| OrSetLaws.RemoveHides | src/index.ts:43-44 | after remove, the element's key is not live, whether or not it had been added |
| OrSetLaws.RemoveAfterAddHides | src/index.ts:40-53 | after remove(add(S, e), e), e is not live |
| OrSetLaws.AddAfterRemoveHidden | src/index.ts:40-53 | a tombstone also hides a later add of the same stamp |
| OrSetLaws.TombstoneWinsMerge | src/index.ts:46-53 | a tombstone held by either replica hides the key in the merge taken in either order |
| OrSetLaws.ConcurrentAddRemove | src/index.ts:40-53 | replica X adds e and replica Y removes e: e is live in X, and merge(X, Y) and merge(Y, X) both hide it |
| OrSetLaws.RemoveIsScopedToStamp | src/index.ts:43-53 | a tombstone for stamp ("1", 2) leaves an added ("1", 1) live: removal is scoped to the exact stamp |
| OrSetLaws.MergeAllKeys | src/index.ts:46-50 | merging snapshots one after another collects exactly the keys that some snapshot holds, for both collections |
| OrSetLaws.AddedInSnoc | src/index.ts:46-50 | one more snapshot contributes its own keys and no others |
| OrSetLaws.Convergence | src/index.ts:46-53 | replicas that merged the same snapshots, in any order and with any repetitions, have the same keys and live views with the same keys |
| OrSetLaws.ScenarioAddThenRemove | src/index.ts:40-53 | adding ("1", 1, 1) and ("2", 2, 2) makes both live; removing ("1", 1, 1) leaves ("2", 2, 2) alone |
| OrSetLaws.ScenarioConcurrentReplicas | src/index.ts:40-53 | one replica adds ("1", 1, 1), another removes it; both merge orders have an empty live view |
| OrSetLaws.ScenarioSelfMerge | src/index.ts:46-50 | merge(merge(A, A), A) == A |

## Left out

- The set library's own code for insert, union and difference is not part of this model. `KeySets` states only the semantics the OR-Set relies on. When the left operand is non-empty, the library's union also drops right-operand elements that share a key among themselves. When the left operand is empty, it returns the right operand unchanged. The difference cannot arise under the no-duplicate-keys invariant, so the model does not represent it.
- JavaScript object identity: a `Set` built outside these functions could hold two key-equal objects. The model states the no-duplicate-keys invariant as `Valid` and shows that every operation keeps it.
- Element order: JavaScript `Set`s iterate in insertion order, so the order of the elements `lookUp` returns can be observed. The model's `set`s are unordered, so it says nothing about that order.
- `clock` is a JavaScript number. It is modelled as a natural number, so floating-point, negative and non-integer clocks are not modelled.
- The wrappers `eqDataOf` and `ordDataOf` and the records `eqData` and `ordData` only package `DataEq` and `OrdCompare`. They are not separate entities in the model.
- The program has no query for the largest clock seen, so none is modelled.
- Minting ids and Lamport clocks, exchanging snapshots between replicas, and persistence are done by the callers. None of them is in the code.
