/**
 The unit test of the tree: trees built with N from ascending keys, a single
 Set or Remove on each, and the exact rendering P gives of the result;
 GetIndex on the built trees returns the keys in ascending order. The
 payload N stores is nil, modelled as ().

 The shapes are stated for any keys in the test's order (a < b < c ...), so
 each lemma describes a family of trees; the lemmas UnitNx instantiate them
 with the test's own keys and state its expectations.
 */
module IBBSTreeUnit {
  import opened IBBSTree
  import opened IBBSTreeTest

  /** expectSet: the key is added, not updated, and the new root renders as repr. */
  predicate ExpectSet(n: Tree<()>, k: Key, repr: string) {
    var a := Set(n, k, ());
    !a.updated && Shaped(a.root) && P(a.root) == repr
  }

  /**
   expectRemove, with the returned payload checked by key: the key is removed,
   the stored payload comes back, and the new root renders as repr.
   */
  predicate ExpectRemoveByKey(n: Tree<()>, k: Key, repr: string) {
    Shaped(n) &&
    var a := Remove(n, k);
    a.removed && a.value == Some(()) && !a.root.Empty? && P(a.root) == repr
  }

  /** expectGetIndex, checked by key: rank i holds the record of key k. */
  predicate ExpectRankKey(n: Tree<()>, i: nat, k: Key) {
    GetIndex(n, i) == Some(Entry(k, ()))
  }

  // ---------------------------------------------------------------------
  // Shapes, for keys a < b < c < ...
  // ---------------------------------------------------------------------

  /** A leaf holding the nil payload. */
  function Bare(k: Key): Tree<()> {
    Leaf(k, ())
  }

  /** (a b) */
  function Pair(a: Key, b: Key): Tree<()> {
    MakeNode(b, Bare(a), Bare(b))
  }

  /** (a (b c)) */
  function Three(a: Key, b: Key, c: Key): Tree<()> {
    MakeNode(b, Bare(a), Pair(b, c))
  }

  /** ((a b) (c d)) */
  function Four(a: Key, b: Key, c: Key, d: Key): Tree<()> {
    MakeNode(c, Pair(a, b), Pair(c, d))
  }

  /** ((a b) (c (d e))) */
  function Five(a: Key, b: Key, c: Key, d: Key, e: Key): Tree<()> {
    MakeNode(c, Pair(a, b), Three(c, d, e))
  }

  /** ((a b) ((c d) (e f))) */
  function Six(a: Key, b: Key, c: Key, d: Key, e: Key, f: Key): Tree<()> {
    MakeNode(c, Pair(a, b), Four(c, d, e, f))
  }

  // ---------------------------------------------------------------------
  // Set on each shape
  // ---------------------------------------------------------------------

  /** A key above both of (a b) goes right: (a (b x)). */
  lemma SetPairAbove(a: Key, b: Key, x: Key)
    requires a < b < x
    ensures Set(Pair(a, b), x, ()) == SetResult(Three(a, b, x), false)
  {
  }

  /** A key between the two of (a b) goes left: ((a x) b). */
  lemma SetPairBetween(a: Key, b: Key, x: Key)
    requires a < x < b
    ensures Set(Pair(a, b), x, ()) == SetResult(MakeNode(b, Pair(a, x), Bare(b)), false)
  {
  }

  /** A key between a and b in (a (b c)) gives ((a x) (b c)). */
  lemma SetThreeLow(a: Key, b: Key, c: Key, x: Key)
    requires a < x < b < c
    ensures Set(Three(a, b, c), x, ()) == SetResult(Four(a, x, b, c), false)
  {
  }

  /** A key between b and c in (a (b c)) makes the right side too high: a rotation gives ((a b) (x c)). */
  lemma SetThreeMid(a: Key, b: Key, c: Key, x: Key)
    requires a < b < x < c
    ensures Set(Three(a, b, c), x, ()) == SetResult(Four(a, b, x, c), false)
  {
    assert Set(Pair(b, c), x, ()) == SetResult(MakeNode(c, Pair(b, x), Bare(c)), false);
  }

  /** A key above (a (b c)) makes the right side too high: a rotation gives ((a b) (c x)). */
  lemma SetThreeAbove(a: Key, b: Key, c: Key, x: Key)
    requires a < b < c < x
    ensures Set(Three(a, b, c), x, ()) == SetResult(Four(a, b, c, x), false)
  {
    SetPairAbove(b, c, x);
  }

  /** A key above ((a b) (c d)) gives ((a b) (c (d x))). */
  lemma SetFourAbove(a: Key, b: Key, c: Key, d: Key, x: Key)
    requires a < b < c < d < x
    ensures Set(Four(a, b, c, d), x, ()) == SetResult(Five(a, b, c, d, x), false)
  {
    SetPairAbove(c, d, x);
  }

  /** A key above ((a b) (c (d e))) rotates the right side: ((a b) ((c d) (e x))). */
  lemma SetFiveAbove(a: Key, b: Key, c: Key, d: Key, e: Key, x: Key)
    requires a < b < c < d < e < x
    ensures Set(Five(a, b, c, d, e), x, ()) == SetResult(Six(a, b, c, d, e, x), false)
  {
    SetThreeAbove(c, d, e, x);
  }

  /** A key between e and f in ((a b) ((c d) (e f))) rotates at the root: (((a b) (c d)) ((e x) f)). */
  lemma SetSixHigh(a: Key, b: Key, c: Key, d: Key, e: Key, f: Key, x: Key)
    requires a < b < c < d < e < x < f
    ensures Set(Six(a, b, c, d, e, f), x, ())
      == SetResult(MakeNode(e, Four(a, b, c, d), MakeNode(f, Pair(e, x), Bare(f))), false)
  {
    SetPairBetween(e, f, x);
    assert Set(Four(c, d, e, f), x, ())
      == SetResult(MakeNode(e, Pair(c, d), MakeNode(f, Pair(e, x), Bare(f))), false);
  }

  /** A key above ((a b) ((c d) (e f))) rotates at the root: (((a b) (c d)) (e (f x))). */
  lemma SetSixAbove(a: Key, b: Key, c: Key, d: Key, e: Key, f: Key, x: Key)
    requires a < b < c < d < e < f < x
    ensures Set(Six(a, b, c, d, e, f), x, ())
      == SetResult(MakeNode(e, Four(a, b, c, d), Three(e, f, x)), false)
  {
    SetPairAbove(e, f, x);
    assert Set(Four(c, d, e, f), x, ()) == SetResult(MakeNode(e, Pair(c, d), Three(e, f, x)), false);
  }

  // ---------------------------------------------------------------------
  // Remove on each shape
  // ---------------------------------------------------------------------

  /** Removing b from (a (b c)) collapses the right side and moves the separator: (a c). */
  lemma RemoveThreeMiddle(a: Key, b: Key, c: Key)
    requires a < b < c
    ensures Remove(Three(a, b, c), b) == RemoveResult(Pair(a, c), Some(()), true)
  {
    assert Remove(Pair(b, c), b) == RemoveResult(Bare(c), Some(()), true);
  }

  /** Removing c from (a (b c)) gives (a b). */
  lemma RemoveThreeLast(a: Key, b: Key, c: Key)
    requires a < b < c
    ensures Remove(Three(a, b, c), c) == RemoveResult(Pair(a, b), Some(()), true)
  {
    assert Remove(Pair(b, c), c) == RemoveResult(Bare(b), Some(()), true);
  }

  /** Removing d from ((a b) (c (d e))) gives ((a b) (c e)). */
  lemma RemoveFiveFourth(a: Key, b: Key, c: Key, d: Key, e: Key)
    requires a < b < c < d < e
    ensures Remove(Five(a, b, c, d, e), d) == RemoveResult(Four(a, b, c, e), Some(()), true)
  {
    RemoveThreeMiddle(c, d, e);
  }

  /** Removing c from ((a b) (c (d e))) gives ((a b) (d e)): the root separator becomes d. */
  lemma RemoveFiveThird(a: Key, b: Key, c: Key, d: Key, e: Key)
    requires a < b < c < d < e
    ensures Remove(Five(a, b, c, d, e), c) == RemoveResult(Four(a, b, d, e), Some(()), true)
  {
    assert Remove(Three(c, d, e), c) == RemoveResult(Pair(d, e), Some(()), true);
  }

  // ---------------------------------------------------------------------
  // N on ascending keys
  // ---------------------------------------------------------------------

  lemma BuiltAscending2(a: Key, b: Key)
    requires a < b
    ensures Built([a, b]) == Pair(a, b)
  {
    assert [a, b][..1] == [a];
    assert Built([a]) == Bare(a) by {
      assert [a][..0] == [];
    }
  }

  lemma BuiltAscending3(a: Key, b: Key, c: Key)
    requires a < b < c
    ensures Built([a, b, c]) == Three(a, b, c)
  {
    BuiltAscending2(a, b);
    SetPairAbove(a, b, c);
    BuiltSnoc([a, b], c, Pair(a, b));
    assert [a, b] + [c] == [a, b, c];
  }

  lemma BuiltAscending4(a: Key, b: Key, c: Key, d: Key)
    requires a < b < c < d
    ensures Built([a, b, c, d]) == Four(a, b, c, d)
  {
    BuiltAscending3(a, b, c);
    SetThreeAbove(a, b, c, d);
    BuiltSnoc([a, b, c], d, Three(a, b, c));
    assert [a, b, c] + [d] == [a, b, c, d];
  }

  lemma BuiltAscending5(a: Key, b: Key, c: Key, d: Key, e: Key)
    requires a < b < c < d < e
    ensures Built([a, b, c, d, e]) == Five(a, b, c, d, e)
  {
    BuiltAscending4(a, b, c, d);
    SetFourAbove(a, b, c, d, e);
    BuiltSnoc([a, b, c, d], e, Four(a, b, c, d));
    assert [a, b, c, d] + [e] == [a, b, c, d, e];
  }

  lemma BuiltAscending6(a: Key, b: Key, c: Key, d: Key, e: Key, f: Key)
    requires a < b < c < d < e < f
    ensures Built([a, b, c, d, e, f]) == Six(a, b, c, d, e, f)
  {
    BuiltAscending5(a, b, c, d, e);
    SetFiveAbove(a, b, c, d, e, f);
    BuiltSnoc([a, b, c, d, e], f, Five(a, b, c, d, e));
    assert [a, b, c, d, e] + [f] == [a, b, c, d, e, f];
  }

  // ---------------------------------------------------------------------
  // GetIndex on the shapes: ranks follow the keys
  // ---------------------------------------------------------------------

  lemma GetIndexPair(a: Key, b: Key)
    ensures GetIndex(Pair(a, b), 0) == Some(Entry(a, ()))
    ensures GetIndex(Pair(a, b), 1) == Some(Entry(b, ()))
  {
  }

  lemma GetIndexThree(a: Key, b: Key, c: Key)
    ensures GetIndex(Three(a, b, c), 0) == Some(Entry(a, ()))
    ensures GetIndex(Three(a, b, c), 1) == Some(Entry(b, ()))
    ensures GetIndex(Three(a, b, c), 2) == Some(Entry(c, ()))
  {
    GetIndexPair(b, c);
  }

  lemma GetIndexFour(a: Key, b: Key, c: Key, d: Key)
    ensures GetIndex(Four(a, b, c, d), 0) == Some(Entry(a, ()))
    ensures GetIndex(Four(a, b, c, d), 1) == Some(Entry(b, ()))
    ensures GetIndex(Four(a, b, c, d), 2) == Some(Entry(c, ()))
    ensures GetIndex(Four(a, b, c, d), 3) == Some(Entry(d, ()))
  {
    GetIndexPair(a, b);
    GetIndexPair(c, d);
  }

  lemma GetIndexSix(a: Key, b: Key, c: Key, d: Key, e: Key, f: Key)
    ensures GetIndex(Six(a, b, c, d, e, f), 0) == Some(Entry(a, ()))
    ensures GetIndex(Six(a, b, c, d, e, f), 1) == Some(Entry(b, ()))
    ensures GetIndex(Six(a, b, c, d, e, f), 2) == Some(Entry(c, ()))
    ensures GetIndex(Six(a, b, c, d, e, f), 3) == Some(Entry(d, ()))
    ensures GetIndex(Six(a, b, c, d, e, f), 4) == Some(Entry(e, ()))
    ensures GetIndex(Six(a, b, c, d, e, f), 5) == Some(Entry(f, ()))
  {
    GetIndexPair(a, b);
    GetIndexFour(c, d, e, f);
  }

  // ---------------------------------------------------------------------
  // Renderings of the shapes
  // ---------------------------------------------------------------------

  /** A key as P prints it. */
  function Dec(k: Key): string {
    Decimal(k as nat)
  }

  /** Two renderings in parentheses, separated by one space, as P prints an internal node. */
  function Join(s: string, t: string): string {
    "(" + s + " " + t + ")"
  }

  lemma PrintPair(a: Key, b: Key)
    ensures P(Pair(a, b)) == Join(Dec(a), Dec(b))
  {
  }

  lemma PrintThree(a: Key, b: Key, c: Key)
    ensures P(Three(a, b, c)) == Join(Dec(a), Join(Dec(b), Dec(c)))
  {
    PrintPair(b, c);
  }

  lemma PrintFour(a: Key, b: Key, c: Key, d: Key)
    ensures P(Four(a, b, c, d)) == Join(Join(Dec(a), Dec(b)), Join(Dec(c), Dec(d)))
  {
    PrintPair(a, b);
    PrintPair(c, d);
  }

  // ---------------------------------------------------------------------
  // The unit test's expectations, for any keys in the test's order
  // ---------------------------------------------------------------------

  /** N(a, b) + x, a < x < b, renders as "((a x) b)". */
  lemma ExpectSetPairBetween(a: Key, b: Key, x: Key, repr: string)
    requires a < x < b && repr == Join(Join(Dec(a), Dec(x)), Dec(b))
    ensures ExpectSet(Built([a, b]), x, repr)
  {
    BuiltAscending2(a, b);
    SetPairBetween(a, b, x);
    PrintPair(a, x);
  }

  /** N(a, b) + x, b < x, renders as "(a (b x))". */
  lemma ExpectSetPairAbove(a: Key, b: Key, x: Key, repr: string)
    requires a < b < x && repr == Join(Dec(a), Join(Dec(b), Dec(x)))
    ensures ExpectSet(Built([a, b]), x, repr)
  {
    BuiltAscending2(a, b);
    SetPairAbove(a, b, x);
    PrintThree(a, b, x);
  }

  /** N(a, b, c) + x, a < x < b, renders as "((a x) (b c))". */
  lemma ExpectSetThreeLow(a: Key, b: Key, c: Key, x: Key, repr: string)
    requires a < x < b < c && repr == Join(Join(Dec(a), Dec(x)), Join(Dec(b), Dec(c)))
    ensures ExpectSet(Built([a, b, c]), x, repr)
  {
    BuiltAscending3(a, b, c);
    SetThreeLow(a, b, c, x);
    PrintFour(a, x, b, c);
  }

  /** N(a, b, c) + x, b < x < c, renders as "((a b) (x c))". */
  lemma ExpectSetThreeMid(a: Key, b: Key, c: Key, x: Key, repr: string)
    requires a < b < x < c && repr == Join(Join(Dec(a), Dec(b)), Join(Dec(x), Dec(c)))
    ensures ExpectSet(Built([a, b, c]), x, repr)
  {
    BuiltAscending3(a, b, c);
    SetThreeMid(a, b, c, x);
    PrintFour(a, b, x, c);
  }

  /** N(a, b, c) + x, c < x, renders as "((a b) (c x))". */
  lemma ExpectSetThreeAbove(a: Key, b: Key, c: Key, x: Key, repr: string)
    requires a < b < c < x && repr == Join(Join(Dec(a), Dec(b)), Join(Dec(c), Dec(x)))
    ensures ExpectSet(Built([a, b, c]), x, repr)
  {
    BuiltAscending3(a, b, c);
    SetThreeAbove(a, b, c, x);
    PrintFour(a, b, c, x);
  }

  /** N(a, ..., f) + x, e < x < f, renders as "(((a b) (c d)) ((e x) f))". */
  lemma ExpectSetSixHigh(a: Key, b: Key, c: Key, d: Key, e: Key, f: Key, x: Key, repr: string)
    requires a < b < c < d < e < x < f && repr == Join(Join(Join(Dec(a), Dec(b)), Join(Dec(c), Dec(d))), Join(Join(Dec(e), Dec(x)), Dec(f)))
    ensures ExpectSet(Built([a, b, c, d, e, f]), x, repr)
  {
    BuiltAscending6(a, b, c, d, e, f);
    SetSixHigh(a, b, c, d, e, f, x);
    PrintFour(a, b, c, d);
    PrintPair(e, x);
    assert P(MakeNode(f, Pair(e, x), Bare(f))) == Join(Join(Dec(e), Dec(x)), Dec(f));
  }

  /** N(a, ..., f) + x, f < x, renders as "(((a b) (c d)) (e (f x)))". */
  lemma ExpectSetSixAbove(a: Key, b: Key, c: Key, d: Key, e: Key, f: Key, x: Key, repr: string)
    requires a < b < c < d < e < f < x && repr == Join(Join(Join(Dec(a), Dec(b)), Join(Dec(c), Dec(d))), Join(Dec(e), Join(Dec(f), Dec(x))))
    ensures ExpectSet(Built([a, b, c, d, e, f]), x, repr)
  {
    BuiltAscending6(a, b, c, d, e, f);
    SetSixAbove(a, b, c, d, e, f, x);
    PrintFour(a, b, c, d);
    PrintThree(e, f, x);
  }

  /** N(a, b, c) - b renders as "(a c)". */
  lemma ExpectRemoveThreeMiddle(a: Key, b: Key, c: Key, repr: string)
    requires a < b < c && repr == Join(Dec(a), Dec(c))
    ensures ExpectRemoveByKey(Built([a, b, c]), b, repr)
  {
    BuiltAscending3(a, b, c);
    RemoveThreeMiddle(a, b, c);
    PrintPair(a, c);
  }

  /** N(a, b, c) - c renders as "(a b)". */
  lemma ExpectRemoveThreeLast(a: Key, b: Key, c: Key, repr: string)
    requires a < b < c && repr == Join(Dec(a), Dec(b))
    ensures ExpectRemoveByKey(Built([a, b, c]), c, repr)
  {
    BuiltAscending3(a, b, c);
    RemoveThreeLast(a, b, c);
    PrintPair(a, b);
  }

  /** N(a, ..., e) - d renders as "((a b) (c e))". */
  lemma ExpectRemoveFiveFourth(a: Key, b: Key, c: Key, d: Key, e: Key, repr: string)
    requires a < b < c < d < e && repr == Join(Join(Dec(a), Dec(b)), Join(Dec(c), Dec(e)))
    ensures ExpectRemoveByKey(Built([a, b, c, d, e]), d, repr)
  {
    BuiltAscending5(a, b, c, d, e);
    RemoveFiveFourth(a, b, c, d, e);
    PrintFour(a, b, c, e);
  }

  /** N(a, ..., e) - c renders as "((a b) (d e))". */
  lemma ExpectRemoveFiveThird(a: Key, b: Key, c: Key, d: Key, e: Key, repr: string)
    requires a < b < c < d < e && repr == Join(Join(Dec(a), Dec(b)), Join(Dec(d), Dec(e)))
    ensures ExpectRemoveByKey(Built([a, b, c, d, e]), c, repr)
  {
    BuiltAscending5(a, b, c, d, e);
    RemoveFiveThird(a, b, c, d, e);
    PrintFour(a, b, d, e);
  }

  // ---------------------------------------------------------------------
  // The scenarios of the unit test, with its own keys
  // ---------------------------------------------------------------------

  /** The renderings of the keys the unit test uses. */
  lemma TestKeyDecimals()
    ensures Dec(1) == "1" && Dec(2) == "2" && Dec(3) == "3" && Dec(4) == "4" && Dec(5) == "5"
    ensures Dec(6) == "6" && Dec(7) == "7" && Dec(8) == "8" && Dec(9) == "9"
    ensures Dec(10) == "10" && Dec(20) == "20" && Dec(25) == "25" && Dec(30) == "30"
  {
    assert Dec(1) == "1" && Dec(2) == "2";
  }

  lemma ShowN1Set8()
    ensures Join(Join(Dec(4), Dec(8)), Dec(20)) == "((4 8) 20)"
  {
    TestKeyDecimals();
  }

  lemma N1Set8()
    ensures ExpectSet(Built([4, 20]), 8, "((4 8) 20)")
  {
    ShowN1Set8();
    ExpectSetPairBetween(4, 20, 8, "((4 8) 20)");
  }

  lemma ShowN1Set25()
    ensures Join(Dec(4), Join(Dec(20), Dec(25))) == "(4 (20 25))"
  {
    TestKeyDecimals();
  }

  lemma N1Set25()
    ensures ExpectSet(Built([4, 20]), 25, "(4 (20 25))")
  {
    ShowN1Set25();
    ExpectSetPairAbove(4, 20, 25, "(4 (20 25))");
  }

  lemma N1Index()
    ensures ExpectRankKey(Built([4, 20]), 0, 4) && ExpectRankKey(Built([4, 20]), 1, 20)
  {
    BuiltAscending2(4, 20);
    GetIndexPair(4, 20);
  }

  /** N(4, 20): 8 and 25 are added beside the leaves; ranks 0 and 1 hold 4 and 20. */
  lemma UnitN1()
    ensures ExpectSet(Built([4, 20]), 8, "((4 8) 20)")
    ensures ExpectSet(Built([4, 20]), 25, "(4 (20 25))")
    ensures ExpectRankKey(Built([4, 20]), 0, 4) && ExpectRankKey(Built([4, 20]), 1, 20)
  {
    N1Set8();
    N1Set25();
    N1Index();
  }

  lemma ShowN2Set8()
    ensures Join(Join(Dec(4), Dec(8)), Join(Dec(20), Dec(25))) == "((4 8) (20 25))"
  {
    TestKeyDecimals();
  }

  lemma N2Set8()
    ensures ExpectSet(Built([4, 20, 25]), 8, "((4 8) (20 25))")
  {
    ShowN2Set8();
    ExpectSetThreeLow(4, 20, 25, 8, "((4 8) (20 25))");
  }

  lemma ShowN2Set30()
    ensures Join(Join(Dec(4), Dec(20)), Join(Dec(25), Dec(30))) == "((4 20) (25 30))"
  {
    TestKeyDecimals();
  }

  lemma N2Set30()
    ensures ExpectSet(Built([4, 20, 25]), 30, "((4 20) (25 30))")
  {
    ShowN2Set30();
    ExpectSetThreeAbove(4, 20, 25, 30, "((4 20) (25 30))");
  }

  lemma N2Index()
    ensures ExpectRankKey(Built([4, 20, 25]), 0, 4) && ExpectRankKey(Built([4, 20, 25]), 1, 20)
      && ExpectRankKey(Built([4, 20, 25]), 2, 25)
  {
    BuiltAscending3(4, 20, 25);
    GetIndexThree(4, 20, 25);
  }

  /** N(4, 20, 25): 8 fills the left side; 30 rotates the root; ranks follow the keys. */
  lemma UnitN2()
    ensures ExpectSet(Built([4, 20, 25]), 8, "((4 8) (20 25))")
    ensures ExpectSet(Built([4, 20, 25]), 30, "((4 20) (25 30))")
    ensures ExpectRankKey(Built([4, 20, 25]), 0, 4) && ExpectRankKey(Built([4, 20, 25]), 1, 20)
      && ExpectRankKey(Built([4, 20, 25]), 2, 25)
  {
    N2Set8();
    N2Set30();
    N2Index();
  }

  lemma ShowN3Set4()
    ensures Join(Join(Dec(1), Dec(2)), Join(Dec(4), Dec(6))) == "((1 2) (4 6))"
  {
    TestKeyDecimals();
  }

  lemma N3Set4()
    ensures ExpectSet(Built([1, 2, 6]), 4, "((1 2) (4 6))")
  {
    ShowN3Set4();
    ExpectSetThreeMid(1, 2, 6, 4, "((1 2) (4 6))");
  }

  lemma ShowN3Set8()
    ensures Join(Join(Dec(1), Dec(2)), Join(Dec(6), Dec(8))) == "((1 2) (6 8))"
  {
    TestKeyDecimals();
  }

  lemma N3Set8()
    ensures ExpectSet(Built([1, 2, 6]), 8, "((1 2) (6 8))")
  {
    ShowN3Set8();
    ExpectSetThreeAbove(1, 2, 6, 8, "((1 2) (6 8))");
  }

  lemma N3Index()
    ensures ExpectRankKey(Built([1, 2, 6]), 0, 1) && ExpectRankKey(Built([1, 2, 6]), 1, 2)
      && ExpectRankKey(Built([1, 2, 6]), 2, 6)
  {
    BuiltAscending3(1, 2, 6);
    GetIndexThree(1, 2, 6);
  }

  /** N(1, 2, 6): 4 and 8 both make the right side too high and rotate the root; ranks follow the keys. */
  lemma UnitN3()
    ensures ExpectSet(Built([1, 2, 6]), 4, "((1 2) (4 6))")
    ensures ExpectSet(Built([1, 2, 6]), 8, "((1 2) (6 8))")
    ensures ExpectRankKey(Built([1, 2, 6]), 0, 1) && ExpectRankKey(Built([1, 2, 6]), 1, 2)
      && ExpectRankKey(Built([1, 2, 6]), 2, 6)
  {
    N3Set4();
    N3Set8();
    N3Index();
  }

  lemma ShowN4Set8()
    ensures Join(Join(Join(Dec(1), Dec(2)), Join(Dec(5), Dec(6))), Join(Join(Dec(7), Dec(8)), Dec(9))) == "(((1 2) (5 6)) ((7 8) 9))"
  {
    TestKeyDecimals();
  }

  lemma N4Set8()
    ensures ExpectSet(Built([1, 2, 5, 6, 7, 9]), 8, "(((1 2) (5 6)) ((7 8) 9))")
  {
    ShowN4Set8();
    ExpectSetSixHigh(1, 2, 5, 6, 7, 9, 8, "(((1 2) (5 6)) ((7 8) 9))");
  }

  lemma ShowN4Set10()
    ensures Join(Join(Join(Dec(1), Dec(2)), Join(Dec(5), Dec(6))), Join(Dec(7), Join(Dec(9), Dec(10)))) == "(((1 2) (5 6)) (7 (9 10)))"
  {
    TestKeyDecimals();
  }

  lemma N4Set10()
    ensures ExpectSet(Built([1, 2, 5, 6, 7, 9]), 10, "(((1 2) (5 6)) (7 (9 10)))")
  {
    ShowN4Set10();
    ExpectSetSixAbove(1, 2, 5, 6, 7, 9, 10, "(((1 2) (5 6)) (7 (9 10)))");
  }

  lemma N4Index()
    ensures ExpectRankKey(Built([1, 2, 5, 6, 7, 9]), 0, 1) && ExpectRankKey(Built([1, 2, 5, 6, 7, 9]), 1, 2)
      && ExpectRankKey(Built([1, 2, 5, 6, 7, 9]), 2, 5) && ExpectRankKey(Built([1, 2, 5, 6, 7, 9]), 3, 6)
      && ExpectRankKey(Built([1, 2, 5, 6, 7, 9]), 4, 7) && ExpectRankKey(Built([1, 2, 5, 6, 7, 9]), 5, 9)
  {
    BuiltAscending6(1, 2, 5, 6, 7, 9);
    GetIndexSix(1, 2, 5, 6, 7, 9);
  }

  /** N(1, 2, 5, 6, 7, 9): 8 and 10 rotate the root; GetIndex walks the keys in order. */
  lemma UnitN4()
    ensures ExpectSet(Built([1, 2, 5, 6, 7, 9]), 8, "(((1 2) (5 6)) ((7 8) 9))")
    ensures ExpectSet(Built([1, 2, 5, 6, 7, 9]), 10, "(((1 2) (5 6)) (7 (9 10)))")
    ensures ExpectRankKey(Built([1, 2, 5, 6, 7, 9]), 0, 1) && ExpectRankKey(Built([1, 2, 5, 6, 7, 9]), 1, 2)
      && ExpectRankKey(Built([1, 2, 5, 6, 7, 9]), 2, 5) && ExpectRankKey(Built([1, 2, 5, 6, 7, 9]), 3, 6)
      && ExpectRankKey(Built([1, 2, 5, 6, 7, 9]), 4, 7) && ExpectRankKey(Built([1, 2, 5, 6, 7, 9]), 5, 9)
  {
    N4Set8();
    N4Set10();
    N4Index();
  }

  lemma ShowN10Remove2()
    ensures Join(Dec(1), Dec(3)) == "(1 3)"
  {
    TestKeyDecimals();
  }

  lemma N10Remove2()
    ensures ExpectRemoveByKey(Built([1, 2, 3]), 2, "(1 3)")
  {
    ShowN10Remove2();
    ExpectRemoveThreeMiddle(1, 2, 3, "(1 3)");
  }

  lemma ShowN10Remove3()
    ensures Join(Dec(1), Dec(2)) == "(1 2)"
  {
    TestKeyDecimals();
  }

  lemma N10Remove3()
    ensures ExpectRemoveByKey(Built([1, 2, 3]), 3, "(1 2)")
  {
    ShowN10Remove3();
    ExpectRemoveThreeLast(1, 2, 3, "(1 2)");
  }

  /** N(1, 2, 3): removing 2 or 3 leaves a pair. */
  lemma UnitN10()
    ensures ExpectRemoveByKey(Built([1, 2, 3]), 2, "(1 3)")
    ensures ExpectRemoveByKey(Built([1, 2, 3]), 3, "(1 2)")
  {
    N10Remove2();
    N10Remove3();
  }

  lemma ShowN11Remove4()
    ensures Join(Join(Dec(1), Dec(2)), Join(Dec(3), Dec(5))) == "((1 2) (3 5))"
  {
    TestKeyDecimals();
  }

  lemma N11Remove4()
    ensures ExpectRemoveByKey(Built([1, 2, 3, 4, 5]), 4, "((1 2) (3 5))")
  {
    ShowN11Remove4();
    ExpectRemoveFiveFourth(1, 2, 3, 4, 5, "((1 2) (3 5))");
  }

  lemma ShowN11Remove3()
    ensures Join(Join(Dec(1), Dec(2)), Join(Dec(4), Dec(5))) == "((1 2) (4 5))"
  {
    TestKeyDecimals();
  }

  lemma N11Remove3()
    ensures ExpectRemoveByKey(Built([1, 2, 3, 4, 5]), 3, "((1 2) (4 5))")
  {
    ShowN11Remove3();
    ExpectRemoveFiveThird(1, 2, 3, 4, 5, "((1 2) (4 5))");
  }

  /** N(1, 2, 3, 4, 5): removing 4 or 3 leaves two pairs. */
  lemma UnitN11()
    ensures ExpectRemoveByKey(Built([1, 2, 3, 4, 5]), 4, "((1 2) (3 5))")
    ensures ExpectRemoveByKey(Built([1, 2, 3, 4, 5]), 3, "((1 2) (4 5))")
  {
    N11Remove4();
    N11Remove3();
  }
}
