// The unit test's payload checks against the payloads N stores.
//
// N sets every key with a nil payload, yet expectGetIndex and expectRemove
// assert that payload to be an int equal to the key. The members below build
// the tree both ways: with the nil payload, as written, every such check
// fails; with each key's own value as its payload, as the checks intend,
// every check of the unit test holds. The link to the unit lemmas, which are
// stated on nil payloads and check by key, is erasure: forgetting the
// payloads of a tree commutes with every operation, so a tree built with any
// payloads has the shape, ranks and rendering of the one N builds.

module IBBSTreeFindings {
  import opened IBBSTree
  import opened IBBSTreeTest
  import opened IBBSTreeUnit

  /** The dynamic payloads the unit test stores and inspects. */
  datatype Dyn = Nil | Int(n: int)

  /** The payload N gives a key: nil as written, the key itself as the checks intend. */
  function Payload(k: Key, keyed: bool): Dyn {
    if keyed then Int(k as int) else Nil
  }

  /** N with the chosen payloads: Set folded over the keys from the nil root. */
  function Filled(keys: seq<Key>, keyed: bool): (t: Tree<Dyn>)
    ensures Valid(t)
  {
    if |keys| == 0 then Empty
    else
      var init, last := keys[..|keys| - 1], keys[|keys| - 1];
      SetCorrect(Filled(init, keyed), last, Payload(last, keyed));
      Set(Filled(init, keyed), last, Payload(last, keyed)).root
  }

  // ---------------------------------------------------------------------
  // The closures of the unit test, payloads included
  // ---------------------------------------------------------------------

  /** expectSet: setting k with the nil payload adds it, not updated, and the new root renders as repr. */
  predicate CheckSet(n: Tree<Dyn>, k: Key, repr: string) {
    var a := Set(n, k, Nil);
    !a.updated && Shaped(a.root) && P(a.root) == repr
  }

  /**
   expectRemove: the key is removed, the payload returned is an int whose
   uint64 conversion is the key, and the new root renders as repr.
   */
  predicate CheckRemove(n: Tree<Dyn>, k: Key, repr: string) {
    Shaped(n) &&
    var a := Remove(n, k);
    && a.value.Some? && a.value.value.Int? && a.value.value.n % 0x1_0000_0000_0000_0000 == k as int
    && a.removed && !a.root.Empty? && P(a.root) == repr
  }

  /** expectGetIndex: rank i holds a payload that is the int v. */
  predicate CheckGetIndex(n: Tree<Dyn>, i: nat, v: int) {
    var r := GetIndex(n, i);
    r.Some? && r.value.value == Int(v)
  }

  // ---------------------------------------------------------------------
  // Erasure: a tree with its payloads forgotten
  // ---------------------------------------------------------------------

  function Erase<V>(t: Tree<V>): Tree<()> {
    match t
    case Empty => Empty
    case Leaf(k, _) => Leaf(k, ())
    case Node(k, h, s, l, r) => Node(k, h, s, Erase(l), Erase(r))
  }

  /** Erasure keeps the shape and the rendering. */
  lemma {:induction false} EraseShape<V>(t: Tree<V>)
    ensures Shaped(Erase(t)) == Shaped(t)
    ensures Shaped(t) && !t.Empty? ==> P(Erase(t)) == P(t)
  {
    if t.Node? {
      EraseShape(t.left);
      EraseShape(t.right);
    }
  }

  /** Erasure keeps the stored height and size, so it commutes with building a node. */
  lemma EraseMakeNode<V>(key: Key, l: Tree<V>, r: Tree<V>)
    ensures Height(Erase(l)) == Height(l) && Size(Erase(l)) == Size(l) && Lean(Erase(l)) == Lean(l)
    ensures Erase(MakeNode(key, l, r)) == MakeNode(key, Erase(l), Erase(r))
  {
  }

  lemma EraseRotations<V>(t: Tree<V>)
    ensures Erase(RotateRight(t)) == RotateRight(Erase(t))
    ensures Erase(RotateLeft(t)) == RotateLeft(Erase(t))
  {
    if t.Node? && t.left.Node? {
      EraseMakeNode(t.key, t.left.right, t.right);
      EraseMakeNode(t.left.key, t.left.left, MakeNode(t.key, t.left.right, t.right));
    }
    if t.Node? && t.right.Node? {
      EraseMakeNode(t.key, t.left, t.right.left);
      EraseMakeNode(t.right.key, MakeNode(t.key, t.left, t.right.left), t.right.right);
    }
  }

  lemma EraseBalance<V>(key: Key, l: Tree<V>, r: Tree<V>)
    ensures Erase(Balance(key, l, r)) == Balance(key, Erase(l), Erase(r))
  {
    EraseMakeNode(key, l, r);
    EraseMakeNode(key, r, l);
    if Height(l) > Height(r) + 1 {
      if Lean(l) >= 0 {
        EraseRotations(MakeNode(key, l, r));
      } else {
        EraseRotations(l);
        EraseMakeNode(key, RotateLeft(l), r);
        EraseRotations(MakeNode(key, RotateLeft(l), r));
      }
    } else if Height(r) > Height(l) + 1 {
      if Lean(r) <= 0 {
        EraseRotations(MakeNode(key, l, r));
      } else {
        EraseRotations(r);
        EraseMakeNode(key, l, RotateRight(r));
        EraseRotations(MakeNode(key, l, RotateRight(r)));
      }
    }
  }

  lemma {:induction false} EraseSet<V>(t: Tree<V>, k: Key, v: V, w: ())
    ensures Erase(Set(t, k, v).root) == Set(Erase(t), k, w).root
    ensures Set(t, k, v).updated == Set(Erase(t), k, w).updated
  {
    if t.Node? {
      if k < t.key {
        EraseSet(t.left, k, v, w);
        EraseBalance(t.key, Set(t.left, k, v).root, t.right);
      } else {
        EraseSet(t.right, k, v, w);
        EraseBalance(t.key, t.left, Set(t.right, k, v).root);
      }
    }
  }

  lemma {:induction false} EraseLmd<V>(t: Tree<V>)
    requires !t.Empty? && Shaped(t)
    ensures Shaped(Erase(t)) && Lmd(Erase(t)).key == Lmd(t).key
  {
    EraseShape(t);
    if t.Node? {
      EraseLmd(t.left);
    }
  }

  lemma {:induction false} EraseRemove<V>(t: Tree<V>, k: Key)
    requires Shaped(t)
    ensures Shaped(Erase(t))
    ensures Erase(Remove(t, k).root) == Remove(Erase(t), k).root
    ensures Remove(t, k).removed == Remove(Erase(t), k).removed
    ensures Remove(t, k).value.Some? == Remove(Erase(t), k).value.Some?
  {
    EraseShape(t);
    if t.Node? {
      if k < t.key {
        EraseRemove(t.left, k);
        EraseBalance(t.key, Remove(t.left, k).root, t.right);
      } else {
        EraseRemove(t.right, k);
        var s := Remove(t.right, k);
        if s.removed && !s.root.Empty? {
          EraseLmd(s.root);
          EraseBalance(Lmd(s.root).key, t.left, s.root);
        }
      }
    }
  }

  lemma {:induction false} EraseGetIndex<V>(t: Tree<V>, i: nat)
    ensures GetIndex(Erase(t), i).Some? == GetIndex(t, i).Some?
    ensures GetIndex(t, i).Some? ==> GetIndex(Erase(t), i).value == Entry(GetIndex(t, i).value.key, ())
  {
    if t.Node? {
      if i < Size(t.left) {
        EraseGetIndex(t.left, i);
      } else {
        EraseGetIndex(t.right, i - Size(t.left));
      }
    }
  }

  /** With its payloads forgotten, the tree N builds with any payloads is the one N builds. */
  lemma {:induction false} EraseFilled(keys: seq<Key>, keyed: bool)
    ensures Erase(Filled(keys, keyed)) == Built(keys)
  {
    if |keys| > 0 {
      var init, last := keys[..|keys| - 1], keys[|keys| - 1];
      EraseFilled(init, keyed);
      EraseSet(Filled(init, keyed), last, Payload(last, keyed), ());
    }
  }

  // ---------------------------------------------------------------------
  // Payloads of the built tree
  // ---------------------------------------------------------------------

  /** Every record of the tree N builds carries the payload of its key. */
  lemma {:induction false} FilledCorrect(keys: seq<Key>, keyed: bool)
    ensures forall x | x in Contents(Filled(keys, keyed)) :: Contents(Filled(keys, keyed))[x] == Payload(x, keyed)
  {
    if |keys| > 0 {
      var init, last := keys[..|keys| - 1], keys[|keys| - 1];
      FilledCorrect(init, keyed);
      SetCorrect(Filled(init, keyed), last, Payload(last, keyed));
    }
  }

  // ---------------------------------------------------------------------
  // The checks as written, and as intended
  // ---------------------------------------------------------------------

  /**
   As written: with the nil payloads N stores, expectGetIndex fails at every
   rank for every expected value, and expectRemove fails for every key.
   */
  lemma NilPayloadFailsChecks(keys: seq<Key>, i: nat, v: int, k: Key, repr: string)
    ensures !CheckGetIndex(Filled(keys, false), i, v)
    ensures !CheckRemove(Filled(keys, false), k, repr)
  {
    var t := Filled(keys, false);
    FilledCorrect(keys, false);
    EntriesAreContents(t);
    RemoveCorrect(t, k);
  }

  /** expectSet never looks at payloads: it holds on N with any payloads exactly when it holds on N. */
  lemma CheckSetErased(keys: seq<Key>, keyed: bool, k: Key, repr: string)
    ensures CheckSet(Filled(keys, keyed), k, repr) <==> ExpectSet(Built(keys), k, repr)
  {
    var t := Filled(keys, keyed);
    EraseFilled(keys, keyed);
    EraseSet(t, k, Nil, ());
    EraseShape(Set(t, k, Nil).root);
  }

  /** With each key as its payload, expectRemove holds exactly when its by-key form holds on N. */
  lemma CheckRemoveKeyed(keys: seq<Key>, k: Key, repr: string)
    ensures CheckRemove(Filled(keys, true), k, repr) <==> ExpectRemoveByKey(Built(keys), k, repr)
  {
    var t := Filled(keys, true);
    EraseFilled(keys, true);
    EraseRemove(t, k);
    var a, b := Remove(t, k), Remove(Built(keys), k);
    assert Erase(a.root) == b.root && a.removed == b.removed && a.value.Some? == b.value.Some?;
    if a.removed {
      RemoveCorrect(t, k);
      FilledCorrect(keys, true);
      assert Contents(t)[k] == Payload(k, true);
      KeyIsItsOwnUint64(k);
      assert b.value.Some?;
      var u: () := b.value.value;
      assert u == ();
      EraseShape(a.root);
    }
  }

  /** Converting a key, held as an int, back to uint64 gives the key. */
  lemma KeyIsItsOwnUint64(k: Key)
    ensures (k as int) % 0x1_0000_0000_0000_0000 == k as int
  {
  }

  /** With each key as its payload, expectGetIndex(n, i, k) holds exactly when rank i of N holds key k. */
  lemma CheckGetIndexKeyed(keys: seq<Key>, i: nat, k: Key)
    ensures CheckGetIndex(Filled(keys, true), i, k as int) <==> ExpectRankKey(Built(keys), i, k)
  {
    var t := Filled(keys, true);
    FilledCorrect(keys, true);
    EntriesAreContents(t);
    EraseFilled(keys, true);
    EraseGetIndex(t, i);
  }

  // ---------------------------------------------------------------------
  // The unit test with each key stored as its own payload
  // ---------------------------------------------------------------------

  /** N(4, 20) with keyed payloads passes the unit test's n1 checks, payloads included. */
  lemma KeyedUnitN1()
    ensures CheckSet(Filled([4, 20], true), 8, "((4 8) 20)")
    ensures CheckSet(Filled([4, 20], true), 25, "(4 (20 25))")
    ensures CheckGetIndex(Filled([4, 20], true), 0, 4) && CheckGetIndex(Filled([4, 20], true), 1, 20)
  {
    UnitN1();
    CheckSetErased([4, 20], true, 8, "((4 8) 20)");
    CheckSetErased([4, 20], true, 25, "(4 (20 25))");
    CheckGetIndexKeyed([4, 20], 0, 4);
    CheckGetIndexKeyed([4, 20], 1, 20);
  }

  /** N(4, 20, 25) with keyed payloads passes the unit test's n2 checks, payloads included. */
  lemma KeyedUnitN2()
    ensures CheckSet(Filled([4, 20, 25], true), 8, "((4 8) (20 25))")
    ensures CheckSet(Filled([4, 20, 25], true), 30, "((4 20) (25 30))")
    ensures CheckGetIndex(Filled([4, 20, 25], true), 0, 4) && CheckGetIndex(Filled([4, 20, 25], true), 1, 20)
      && CheckGetIndex(Filled([4, 20, 25], true), 2, 25)
  {
    UnitN2();
    CheckSetErased([4, 20, 25], true, 8, "((4 8) (20 25))");
    CheckSetErased([4, 20, 25], true, 30, "((4 20) (25 30))");
    CheckGetIndexKeyed([4, 20, 25], 0, 4);
    CheckGetIndexKeyed([4, 20, 25], 1, 20);
    CheckGetIndexKeyed([4, 20, 25], 2, 25);
  }

  /** N(1, 2, 6) with keyed payloads passes the unit test's n3 checks, payloads included. */
  lemma KeyedUnitN3()
    ensures CheckSet(Filled([1, 2, 6], true), 4, "((1 2) (4 6))")
    ensures CheckSet(Filled([1, 2, 6], true), 8, "((1 2) (6 8))")
    ensures CheckGetIndex(Filled([1, 2, 6], true), 0, 1) && CheckGetIndex(Filled([1, 2, 6], true), 1, 2)
      && CheckGetIndex(Filled([1, 2, 6], true), 2, 6)
  {
    UnitN3();
    CheckSetErased([1, 2, 6], true, 4, "((1 2) (4 6))");
    CheckSetErased([1, 2, 6], true, 8, "((1 2) (6 8))");
    CheckGetIndexKeyed([1, 2, 6], 0, 1);
    CheckGetIndexKeyed([1, 2, 6], 1, 2);
    CheckGetIndexKeyed([1, 2, 6], 2, 6);
  }

  /** N(1, 2, 5, 6, 7, 9) with keyed payloads passes the unit test's n4 checks, payloads included. */
  lemma KeyedUnitN4()
    ensures CheckSet(Filled([1, 2, 5, 6, 7, 9], true), 8, "(((1 2) (5 6)) ((7 8) 9))")
    ensures CheckSet(Filled([1, 2, 5, 6, 7, 9], true), 10, "(((1 2) (5 6)) (7 (9 10)))")
    ensures CheckGetIndex(Filled([1, 2, 5, 6, 7, 9], true), 0, 1) && CheckGetIndex(Filled([1, 2, 5, 6, 7, 9], true), 1, 2)
      && CheckGetIndex(Filled([1, 2, 5, 6, 7, 9], true), 2, 5) && CheckGetIndex(Filled([1, 2, 5, 6, 7, 9], true), 3, 6)
      && CheckGetIndex(Filled([1, 2, 5, 6, 7, 9], true), 4, 7) && CheckGetIndex(Filled([1, 2, 5, 6, 7, 9], true), 5, 9)
  {
    UnitN4();
    CheckSetErased([1, 2, 5, 6, 7, 9], true, 8, "(((1 2) (5 6)) ((7 8) 9))");
    CheckSetErased([1, 2, 5, 6, 7, 9], true, 10, "(((1 2) (5 6)) (7 (9 10)))");
    CheckGetIndexKeyed([1, 2, 5, 6, 7, 9], 0, 1);
    CheckGetIndexKeyed([1, 2, 5, 6, 7, 9], 1, 2);
    CheckGetIndexKeyed([1, 2, 5, 6, 7, 9], 2, 5);
    CheckGetIndexKeyed([1, 2, 5, 6, 7, 9], 3, 6);
    CheckGetIndexKeyed([1, 2, 5, 6, 7, 9], 4, 7);
    CheckGetIndexKeyed([1, 2, 5, 6, 7, 9], 5, 9);
  }

  /** N(1, 2, 3) with keyed payloads passes the unit test's n10 removals: each returns its key as an int. */
  lemma KeyedUnitN10()
    ensures CheckRemove(Filled([1, 2, 3], true), 2, "(1 3)")
    ensures CheckRemove(Filled([1, 2, 3], true), 3, "(1 2)")
  {
    UnitN10();
    CheckRemoveKeyed([1, 2, 3], 2, "(1 3)");
    CheckRemoveKeyed([1, 2, 3], 3, "(1 2)");
  }

  /** N(1, 2, 3, 4, 5) with keyed payloads passes the unit test's n11 removals: each returns its key as an int. */
  lemma KeyedUnitN11()
    ensures CheckRemove(Filled([1, 2, 3, 4, 5], true), 4, "((1 2) (3 5))")
    ensures CheckRemove(Filled([1, 2, 3, 4, 5], true), 3, "((1 2) (4 5))")
  {
    UnitN11();
    CheckRemoveKeyed([1, 2, 3, 4, 5], 4, "((1 2) (3 5))");
    CheckRemoveKeyed([1, 2, 3, 4, 5], 3, "((1 2) (4 5))");
  }
}
