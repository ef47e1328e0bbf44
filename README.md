# IBBSTree in Dafny

A model of `IBBSTree`, a persistent, copy-on-write, height-balanced binary
search tree keyed by `uint64`, together with the helpers and scenarios of its
test suite.

- Records live only in leaves.
- Every internal node carries a separator key (the least key of its right
  subtree), its height and its size (number of leaves).
- `Set` and `Remove` return a new root and leave the old one untouched.
- `GetIndex` finds the record of a given rank through the size fields.

The tree is an immutable Dafny datatype (`Empty` for the nil root, `Leaf`,
`Node` with stored height and size). Every operation is a pure function that
builds new nodes, so persistence (the old root stays valid and unchanged)
holds by construction. Rebalancing follows the AVL rule:

- a single rotation when the heavy child leans the same way or not at all;
- a double rotation when it leans the other way;
- after a removal on the right, the separator becomes the key of the
  leftmost leaf of the new right subtree.

Files:

- `ibbs_tree.dfy` (module `IBBSTree`)
  - the tree, its invariant (`Valid` = `Shaped` and `Sound`), and the
    abstract views `Contents` (a map from key to payload) and `Entries`
    (the in-order leaves);
  - `Get`, `Has`, `GetIndex`, `Size`, `Set`, `Remove`, the leftmost-leaf
    walk `Lmd`, rebalancing;
  - the lemmas that `Set` and `Remove` preserve every invariant and change
    exactly one record.
- `ibbs_tree_test.dfy` (module `IBBSTreeTest`)
  - the test helpers: the builder `N` (a loop, proved equal to the fold
    `Built`) and the printer `P`, with its decimal rendering of keys.
- `ibbs_tree_unit.dfy` (module `IBBSTreeUnit`)
  - every shape the unit test asserts. Each is stated first for any keys in
    the test's order (for example "for all `a < b < c < x`, `N(a, b, c)` plus
    `x` renders as `((a b) (c x))`"), then for the test's own keys.
- `ibbs_tree_findings.dfy` (module `IBBSTreeFindings`)
  - the unit test's checks with their payloads. They fail on the nil
    payloads `N` stores, and they hold when each key is its own payload.
    An erasure argument ties this to the by-key checks of
    `IBBSTreeUnit` (see Findings).
- `ibbs_tree_integration.dfy` (module `IBBSTreeIntegration`)
  - the randomized integration test, as methods over any sequence of
    records with distinct keys, proved to report no failed check.

## Model

| member | source | states |
|---|---|---|
| IBBSTree.Lmd | ibbs_tree_test.go:13-18 | The leftmost walk ends at a leaf; that leaf is the first in-order record and holds the least key of the tree. |
| IBBSTree.SeparatorIsLeftmostOfRight | ibbs_tree_test.go:13-18 | In a valid tree, a node's separator is the key of `lmd` of its right child. Every key on the left is below the separator; every key on the right is at or above it. |
| IBBSTree.KeyBounds | ibbs_tree_test.go:13-18 | Every key of a sound tree lies between the key of its leftmost leaf and that of its rightmost leaf. |
| IBBSTree.Get | ibbs_tree_test.go:151-153 | On a valid tree, Get(k) is the payload stored for k when k is present, and None otherwise. |
| IBBSTree.Has | ibbs_tree_test.go:148-150 | On a valid tree, Has(k) holds exactly when k is present. |
| IBBSTree.GetIndex | ibbs_tree_test.go:58-66 | On a valid tree, GetIndex(i) is the i-th in-order record for i < Size, and None beyond. |
| IBBSTree.EntriesAscending | ibbs_tree_test.go:58-66 | The in-order records of a valid tree have strictly ascending keys, so rank i holds the i-th smallest key. |
| IBBSTree.EntriesAreContents | ibbs_tree_test.go:147-154 | The in-order records of a valid tree are exactly its records: each one is stored under its key, and every stored key appears. |
| IBBSTree.Size | ibbs_tree_test.go:142-144 | Reads the stored leaf count. It has no contract of its own; SizeIsCount states what the count means. |
| IBBSTree.SizeIsCount | ibbs_tree_test.go:142-144 | Size() of a valid tree equals the number of distinct keys it holds. |
| IBBSTree.RotateLeftCorrect | ibbs_tree_test.go:78 | A single left rotation of a node whose right side is two higher and not leaning left gives a valid tree, with the same size and the balance restored. |
| IBBSTree.RotateRightLeftCorrect | ibbs_tree_test.go:84 | The double rotation, for a right side two higher that leans left, gives a valid tree with the same size. |
| IBBSTree.BalanceCorrect | ibbs_tree_test.go:77-92 | Rebalancing two valid, ordered children whose heights differ by at most two gives a valid tree. It holds the records of both and has the summed size. Its height is between the taller child's and one more. It leaves the node as built when the children are already balanced. |
| IBBSTree.Set | ibbs_tree_test.go:134-141 | The new root is never nil. Its full contract is SetCorrect. |
| IBBSTree.SetCorrect | ibbs_tree_test.go:40-47 | Set keeps the tree valid and non-empty and maps k to v, leaving every other record as it was. `updated` holds exactly when k was present. The size grows by one on an insert, and the height by at most one. |
| IBBSTree.Remove | ibbs_tree_test.go:157-161 | A tree where every node has two children keeps that shape, and removal from an internal node never gives the nil root. Its full contract is RemoveCorrect. |
| IBBSTree.RemoveCorrect | ibbs_tree_test.go:49-56 | Remove keeps the tree valid and drops exactly k's record. `removed` holds exactly when k was present, and the stored payload is returned. The size shrinks by one and the height by at most one. An absent key gives back the input root itself. |
| IBBSTree.RemoveCollapse | ibbs_tree_test.go:102-104 | Removal empties a valid tree only when that tree is the single leaf holding k. |
| IBBSTree.RemoveCollapseIntoSibling | ibbs_tree_test.go:102-104 | Removing the key of a node's leaf child returns the sibling subtree unchanged as the new root, with the leaf's payload, reported removed. |
| IBBSTreeTest.DecimalRoundTrip | ibbs_tree_test.go:32 | The decimal rendering of a key reads back as the same number. |
| IBBSTreeTest.P | ibbs_tree_test.go:29-36 | A rendering is never empty, and it starts with "(" exactly when the tree is an internal node. |
| IBBSTreeTest.PrintedStructure | ibbs_tree_test.go:29-36 | A rendering of n leaves holds n - 1 of each of "(", ")" and " ", one of each per internal node. |
| IBBSTreeTest.N | ibbs_tree_test.go:20-27 | The loop builds exactly the fold `Built` of Set over the keys from the nil root, so N(keys + [k]) is Set(N(keys), k). |
| IBBSTreeTest.Built | ibbs_tree_test.go:21-26 | The fold N computes. It has no contract of its own: N's contract ties the loop to it, and BuiltCorrect states what it builds. |
| IBBSTreeTest.BuiltCorrect | ibbs_tree_test.go:20-27 | N builds a valid tree whose keys are exactly the given keys, with Size equal to the number of distinct keys. |
| IBBSTreeUnit.ExpectSet | ibbs_tree_test.go:40-47 | The expectSet closure on the tree N builds: Set with the nil payload reports not updated and the new root renders as repr. A predicate, with no contract of its own. |
| IBBSTreeUnit.ExpectRemoveByKey | ibbs_tree_test.go:49-56 | The expectRemove closure with the payload checked by key: the key is reported removed, the stored payload comes back, and the new root renders as repr. A predicate, with no contract of its own. |
| IBBSTreeUnit.ExpectRankKey | ibbs_tree_test.go:58-66 | The expectGetIndex closure checked by key: rank i holds the record of key k. A predicate, with no contract of its own. |
| IBBSTreeUnit.BuiltAscending2 | ibbs_tree_test.go:70 | N(a, b) with a < b is the node (a b). |
| IBBSTreeUnit.BuiltAscending3 | ibbs_tree_test.go:76 | N(a, b, c) with ascending keys is (a (b c)). |
| IBBSTreeUnit.BuiltAscending4 | ibbs_tree_test.go:106 | N of four ascending keys is ((a b) (c d)), after one rotation. |
| IBBSTreeUnit.BuiltAscending5 | ibbs_tree_test.go:106 | N of five ascending keys is ((a b) (c (d e))). |
| IBBSTreeUnit.BuiltAscending6 | ibbs_tree_test.go:90 | N of six ascending keys is ((a b) ((c d) (e f))). |
| IBBSTreeUnit.SetPairBetween | ibbs_tree_test.go:71 | Set of a key between those of (a b) gives ((a x) b), not updated. |
| IBBSTreeUnit.SetPairAbove | ibbs_tree_test.go:72 | Set of a key above (a b) gives (a (b x)), not updated. |
| IBBSTreeUnit.SetThreeLow | ibbs_tree_test.go:77 | Set of a key between a and b in (a (b c)) gives ((a x) (b c)). |
| IBBSTreeUnit.SetThreeMid | ibbs_tree_test.go:84 | Set of a key between b and c in (a (b c)) double-rotates to ((a b) (x c)). |
| IBBSTreeUnit.SetThreeAbove | ibbs_tree_test.go:78 | Set of a key above (a (b c)) rotates to ((a b) (c x)). |
| IBBSTreeUnit.SetFourAbove | ibbs_tree_test.go:106 | Set of a key above ((a b) (c d)) gives ((a b) (c (d x))). |
| IBBSTreeUnit.SetFiveAbove | ibbs_tree_test.go:90 | Set of a key above ((a b) (c (d e))) rotates the right side to ((a b) ((c d) (e x))). |
| IBBSTreeUnit.SetSixHigh | ibbs_tree_test.go:91 | Set of a key between e and f rotates the root to (((a b) (c d)) ((e x) f)). |
| IBBSTreeUnit.SetSixAbove | ibbs_tree_test.go:92 | Set of a key above f rotates the root to (((a b) (c d)) (e (f x))). |
| IBBSTreeUnit.RemoveThreeMiddle | ibbs_tree_test.go:103 | Removing b from (a (b c)) collapses the right side and gives (a c), returning the payload. |
| IBBSTreeUnit.RemoveThreeLast | ibbs_tree_test.go:104 | Removing c from (a (b c)) gives (a b). |
| IBBSTreeUnit.RemoveFiveFourth | ibbs_tree_test.go:107 | Removing d from ((a b) (c (d e))) gives ((a b) (c e)). |
| IBBSTreeUnit.RemoveFiveThird | ibbs_tree_test.go:108 | Removing c from ((a b) (c (d e))) gives ((a b) (d e)); the root separator becomes d, the new leftmost key of the right side. |
| IBBSTreeUnit.GetIndexPair | ibbs_tree_test.go:73-74 | Ranks 0 and 1 of (a b) hold a and b. |
| IBBSTreeUnit.GetIndexThree | ibbs_tree_test.go:79-81 | Ranks 0 to 2 of (a (b c)) hold a, b and c. |
| IBBSTreeUnit.GetIndexSix | ibbs_tree_test.go:93-98 | Ranks 0 to 5 of ((a b) ((c d) (e f))) hold a to f. |
| IBBSTreeUnit.PrintPair | ibbs_tree_test.go:29-36 | P of (a b) is "(" a " " b ")". |
| IBBSTreeUnit.PrintThree | ibbs_tree_test.go:29-36 | P of (a (b c)) nests the rendering of (b c). |
| IBBSTreeUnit.PrintFour | ibbs_tree_test.go:29-36 | P of ((a b) (c d)) joins the renderings of the two pairs. |
| IBBSTreeUnit.TestKeyDecimals | ibbs_tree_test.go:32 | The keys of the unit test print as their decimal digits. |
| IBBSTreeUnit.ExpectSetPairBetween | ibbs_tree_test.go:71 | For all a < x < b: expectSet(N(a, b), x, "((a x) b)"). |
| IBBSTreeUnit.ExpectSetPairAbove | ibbs_tree_test.go:72 | For all a < b < x: expectSet(N(a, b), x, "(a (b x))"). |
| IBBSTreeUnit.ExpectSetThreeLow | ibbs_tree_test.go:77 | For all a < x < b < c: expectSet(N(a, b, c), x, "((a x) (b c))"). |
| IBBSTreeUnit.ExpectSetThreeMid | ibbs_tree_test.go:84 | For all a < b < x < c: expectSet(N(a, b, c), x, "((a b) (x c))"). |
| IBBSTreeUnit.ExpectSetThreeAbove | ibbs_tree_test.go:78 | For all a < b < c < x: expectSet(N(a, b, c), x, "((a b) (c x))"). |
| IBBSTreeUnit.ExpectSetSixHigh | ibbs_tree_test.go:91 | For all a < ... < e < x < f: expectSet(N(a, ..., f), x, "(((a b) (c d)) ((e x) f))"). |
| IBBSTreeUnit.ExpectSetSixAbove | ibbs_tree_test.go:92 | For all a < ... < f < x: expectSet(N(a, ..., f), x, "(((a b) (c d)) (e (f x)))"). |
| IBBSTreeUnit.ExpectRemoveThreeMiddle | ibbs_tree_test.go:103 | For all a < b < c: expectRemove(N(a, b, c), b, "(a c)"). |
| IBBSTreeUnit.ExpectRemoveThreeLast | ibbs_tree_test.go:104 | For all a < b < c: expectRemove(N(a, b, c), c, "(a b)"). |
| IBBSTreeUnit.ExpectRemoveFiveFourth | ibbs_tree_test.go:107 | For all a < ... < e: expectRemove(N(a, ..., e), d, "((a b) (c e))"). |
| IBBSTreeUnit.ExpectRemoveFiveThird | ibbs_tree_test.go:108 | For all a < ... < e: expectRemove(N(a, ..., e), c, "((a b) (d e))"). |
| IBBSTreeUnit.UnitN1 | ibbs_tree_test.go:70-74 | N(4, 20) plus 8 is "((4 8) 20)" and plus 25 is "(4 (20 25))", neither updating. The unchanged n1 still has ranks 0 and 1 holding 4 and 20. |
| IBBSTreeUnit.UnitN2 | ibbs_tree_test.go:76-81 | N(4, 20, 25) plus 8 is "((4 8) (20 25))" and plus 30 is "((4 20) (25 30))". Ranks 0 to 2 hold 4, 20 and 25. |
| IBBSTreeUnit.UnitN3 | ibbs_tree_test.go:83-88 | N(1, 2, 6) plus 4 is "((1 2) (4 6))" and plus 8 is "((1 2) (6 8))". Ranks 0 to 2 hold 1, 2 and 6. |
| IBBSTreeUnit.UnitN4 | ibbs_tree_test.go:90-98 | N(1, 2, 5, 6, 7, 9) plus 8 is "(((1 2) (5 6)) ((7 8) 9))" and plus 10 is "(((1 2) (5 6)) (7 (9 10)))". Ranks 0 to 5 hold 1, 2, 5, 6, 7 and 9. |
| IBBSTreeUnit.UnitN10 | ibbs_tree_test.go:102-104 | N(1, 2, 3) minus 2 is "(1 3)" and minus 3 is "(1 2)", each removal reporting removed with the stored payload. |
| IBBSTreeUnit.UnitN11 | ibbs_tree_test.go:106-108 | N(1, 2, 3, 4, 5) minus 4 is "((1 2) (3 5))" and minus 3 is "((1 2) (4 5))". |
| IBBSTreeIntegration.CheckPresent | ibbs_tree_test.go:147-154 | The Has and Get checks over records[lo..] report no failure exactly when every such record is stored with its own value. |
| IBBSTreeIntegration.InsertStep | ibbs_tree_test.go:133-144 | For a fresh key, setting a blank value reports not updated, and setting the record's value then reports updated. The tree stays valid, its size becomes i + 1, and all records so far are present with their values. |
| IBBSTreeIntegration.InsertAll | ibbs_tree_test.go:129-145 | The insert loop reports no failure and ends with a valid tree of size len(records) holding every record. |
| IBBSTreeIntegration.RemoveStep | ibbs_tree_test.go:157-171 | Removing the next record reports removed and returns its value. The size drops by one, and every later record is still present with its value. |
| IBBSTreeIntegration.RemoveAll | ibbs_tree_test.go:156-174 | The remove loop, with its checks on the remaining records and the size, reports no failure. |
| IBBSTreeFindings.Filled | ibbs_tree_test.go:21-26 | N with a chosen payload per key always builds a valid tree. |
| IBBSTreeFindings.FilledCorrect | ibbs_tree_test.go:24 | Every record of that tree carries the payload given for its key. |
| IBBSTreeFindings.CheckSet | ibbs_tree_test.go:40-47 | The expectSet closure as written: Set with the nil payload reports not updated and the new root renders as repr. A predicate, with no contract of its own. |
| IBBSTreeFindings.CheckRemove | ibbs_tree_test.go:49-56 | The expectRemove closure as written: the returned payload is an int whose uint64 conversion is the key, the key is reported removed, and the new root renders as repr. A predicate, with no contract of its own. |
| IBBSTreeFindings.CheckGetIndex | ibbs_tree_test.go:58-66 | The expectGetIndex closure as written: rank i holds a payload that is the int v. A predicate, with no contract of its own. |
| IBBSTreeFindings.EraseFilled | ibbs_tree_test.go:21-26 | With its payloads forgotten, the tree N builds with any payloads is exactly the tree `Built` gives, so the shapes do not depend on the payloads. |
| IBBSTreeFindings.NilPayloadFailsChecks | ibbs_tree_test.go:52-66 | With the nil payload N stores, expectGetIndex fails at every rank for every expected value, and expectRemove fails for every key and rendering. |
| IBBSTreeFindings.CheckSetErased | ibbs_tree_test.go:40-47 | expectSet holds on N with any payloads exactly when ExpectSet holds on `Built`. |
| IBBSTreeFindings.CheckRemoveKeyed | ibbs_tree_test.go:49-56 | With each key stored as its own int payload, expectRemove holds exactly when ExpectRemoveByKey holds on `Built`. |
| IBBSTreeFindings.CheckGetIndexKeyed | ibbs_tree_test.go:58-66 | With each key stored as its own int payload, expectGetIndex(n, i, k) holds exactly when ExpectRankKey(n, i, k) holds on `Built`. |
| IBBSTreeFindings.KeyedUnitN1 | ibbs_tree_test.go:70-74 | With keyed payloads, n1's expectSet and expectGetIndex checks all hold, payloads included. |
| IBBSTreeFindings.KeyedUnitN2 | ibbs_tree_test.go:76-81 | The same for n2. |
| IBBSTreeFindings.KeyedUnitN3 | ibbs_tree_test.go:83-88 | The same for n3. |
| IBBSTreeFindings.KeyedUnitN4 | ibbs_tree_test.go:90-98 | The same for n4. |
| IBBSTreeFindings.KeyedUnitN10 | ibbs_tree_test.go:102-104 | With keyed payloads, n10's two expectRemove checks hold, each returning its key as an int. |
| IBBSTreeFindings.KeyedUnitN11 | ibbs_tree_test.go:106-108 | The same for n11. |
| IBBSTreeIntegration.Integration | ibbs_tree_test.go:112-175 | For every sequence of records with distinct keys, the whole integration run reports no failure. |

## Left out

- The implementation file of the tree is not part of this model. The tree is built from the shapes the unit test asserts and the AVL rule; every asserted shape follows from it.
- `BenchmarkIBBSTree` (timing, garbage collection, a million random inserts) has nothing to state about the tree's logic.
- The random generators `RandUInt64` and `RandStr`, and the fixed length 400: the integration run takes its records as a parameter.
- IBBSTreeIntegration.Integration: requires distinct keys. Two random 64-bit keys that collide would make the run's own second `Set` and size checks fail, so the run only holds for distinct keys.
- Go's dynamic type assertions (`value.(int)`, `.(string)`) and `t.Fatalf` / `t.Error` messages. Payloads are a type parameter. `N` stores nil, modelled as `()`, so the unit test's checks that `GetIndex` and `Remove` return an `int` equal to the key are stated by key in `IBBSTreeUnit`. `IBBSTreeFindings` states them with the payloads, as written.
- IBBSTreeUnit.ExpectRemoveByKey: checks that the stored payload comes back, not that it is an `int` equal to the key. `IBBSTreeFindings.CheckRemove` is the check as written, and `IBBSTreeFindings.CheckRemoveKeyed` ties the two together.
- IBBSTreeUnit.ExpectRankKey: checks the key at rank i, not an `int` payload. `IBBSTreeFindings.CheckGetIndex` is the check as written, and `IBBSTreeFindings.CheckGetIndexKeyed` ties the two together.
- IBBSTree.GetIndex: returns the whole record (key and payload) as an `Option`, with `None` for a rank at or beyond the size, instead of only the payload.
- IBBSTree.Remove: requires `Shaped`, the shape every tree built by `Set` and `Remove` has. The walk to the leftmost leaf dereferences left children and would fail on a node with a nil child.
- IBBSTree.Lmd: tells a leaf by its constructor, not by `height == 0`. In a valid tree the two agree, since every internal node has height at least 1.
- IBBSTreeTest.P: tells a leaf by its constructor, for the same reason, and prints keys in decimal, as `%v` does for `uint64`.
- IBBSTree.Size: does not model `uint64` wrap-around of the size and height fields. A tree of 2^64 records cannot be built.
- The integration run starts from `NewIBBSTree()`, which is modelled as the nil root `Empty` (`InsertAll` in `ibbs_tree_integration.dfy`). The constructor itself is not part of this model.
- Memory reclamation of unreachable nodes and concurrent readers of old roots are outside the tree's logic. Persistence itself holds because the tree is an immutable value.

## Findings

| source | as written | input that shows it | evidently intended | confidence | as-written member | corrected member |
|---|---|---|---|---|---|---|
| ibbs_tree_test.go:24 | `N` sets every key with a nil payload. `expectGetIndex` asserts the payload to be an `int` (lines 59-62), and `expectRemove` converts it with `value.(int)` (line 52). | `expectGetIndex(N(4, 20), 0, 4)` at line 73: rank 0 holds key 4 with a nil payload, so the assertion reports not ok and the test stops at line 61. `expectRemove(N(1, 2, 3), 2, "(1 3)")` at line 103 gets nil back, and `value.(int)` panics. | Each key is stored with its own value as an `int`. Then every expectSet, expectRemove and expectGetIndex call of the unit test holds with the payloads checked as written. | not executed; the implementation is not part of this model, so the payload `Set` stores and `GetIndex` returns is inferred from the test alone | IBBSTreeFindings.NilPayloadFailsChecks | IBBSTreeFindings.KeyedUnitN1 |
