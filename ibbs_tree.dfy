/**
 A persistent height-balanced binary search tree keyed by 64-bit unsigned
 integers. Records live only in leaves; every internal node carries a
 separator key (the least key of its right subtree), its height and its
 size (number of leaves). Set and Remove build a new root and share every
 untouched subtree with the old one, which stays valid: the tree is an
 immutable datatype, so persistence holds by construction.
 */
module IBBSTree {

  /** uint64 */
  newtype Key = x: int | 0 <= x < 0x1_0000_0000_0000_0000

  datatype Option<T> = None | Some(value: T)

  /** One record: a key and the caller's opaque payload. */
  datatype Entry<V> = Entry(key: Key, value: V)

  /**
   Empty is the nil root. A Leaf holds a record (height 0, size 1). A Node
   holds a separator key, its stored height and size, and two children.
   */
  datatype Tree<V> =
    | Empty
    | Leaf(key: Key, value: V)
    | Node(key: Key, height: nat, size: nat, left: Tree<V>, right: Tree<V>)

  /** Set returns the new root and whether the key was already present. */
  datatype SetResult<V> = SetResult(root: Tree<V>, updated: bool)

  /** Remove returns the new root, the removed payload and whether a record was removed. */
  datatype RemoveResult<V> = RemoveResult(root: Tree<V>, value: Option<V>, removed: bool)

  function Max(a: nat, b: nat): nat { if a < b then b else a }

  /** The stored height field; a leaf has height 0. */
  function Height<V>(t: Tree<V>): nat {
    if t.Node? then t.height else 0
  }

  /** Size(): the stored leaf count, read in constant time; 0 for the nil root. */
  function Size<V>(t: Tree<V>): nat {
    match t
    case Empty => 0
    case Leaf(_, _) => 1
    case Node(_, _, s, _, _) => s
  }

  /** Builds an internal node, computing its height and size from its children. */
  function MakeNode<V>(key: Key, l: Tree<V>, r: Tree<V>): (t: Tree<V>)
    ensures Shaped(t) <==> !l.Empty? && !r.Empty? && Shaped(l) && Shaped(r)
  {
    Node(key, 1 + Max(Height(l), Height(r)), Size(l) + Size(r), l, r)
  }

  // ---------------------------------------------------------------------
  // Abstract views and the invariant
  // ---------------------------------------------------------------------

  /** The records of a tree as a map from key to payload. */
  ghost function Contents<V>(t: Tree<V>): (c: map<Key, V>)
    ensures Shaped(t) && !t.Empty? ==> MinKey(t) in c && MaxKey(t) in c
  {
    match t
    case Empty => map[]
    case Leaf(k, v) => map[k := v]
    case Node(_, _, _, l, r) => Contents(l) + Contents(r)
  }

  /** The leaves of a tree from left to right. */
  ghost function Entries<V>(t: Tree<V>): (es: seq<Entry<V>>)
    ensures Sound(t) ==> |es| == Size(t)
    ensures Shaped(t) && !t.Empty? ==> |es| > 0 && es[0].key == MinKey(t) && es[|es| - 1].key == MaxKey(t)
  {
    match t
    case Empty => []
    case Leaf(k, v) => [Entry(k, v)]
    case Node(_, _, _, l, r) => Entries(l) + Entries(r)
  }

  /** Every internal node has two children: the shape every operation dereferences. */
  predicate Shaped<V>(t: Tree<V>) {
    match t
    case Node(_, _, _, l, r) => !l.Empty? && !r.Empty? && Shaped(l) && Shaped(r)
    case _ => true
  }

  /** The key of the leftmost leaf (0 for the nil root). */
  ghost function MinKey<V>(t: Tree<V>): Key {
    match t
    case Empty => 0
    case Leaf(k, _) => k
    case Node(_, _, _, l, _) => MinKey(l)
  }

  /** The key of the rightmost leaf (0 for the nil root). */
  ghost function MaxKey<V>(t: Tree<V>): Key {
    match t
    case Empty => 0
    case Leaf(k, _) => k
    case Node(_, _, _, _, r) => MaxKey(r)
  }

  /**
   The per-node invariants: stored height and size agree with the children,
   the heights of the children differ by at most one, and the separator is
   the least key of the right subtree, with every left key below it.
   */
  ghost predicate Sound<V>(t: Tree<V>) {
    match t
    case Node(key, h, s, l, r) =>
      && Sound(l) && Sound(r)
      && h == 1 + Max(Height(l), Height(r))
      && s == Size(l) + Size(r)
      && Height(l) <= Height(r) + 1 && Height(r) <= Height(l) + 1
      && key == MinKey(r) && MaxKey(l) < key
    case _ => true
  }

  ghost predicate Valid<V>(t: Tree<V>) {
    Shaped(t) && Sound(t)
  }

  ghost predicate Ascending<V>(es: seq<Entry<V>>) {
    forall i, j | 0 <= i < j < |es| :: es[i].key < es[j].key
  }

  // ---------------------------------------------------------------------
  // Queries
  // ---------------------------------------------------------------------

  /** The leftmost leaf, reached by following left children. */
  function Lmd<V>(t: Tree<V>): (m: Tree<V>)
    requires !t.Empty? && Shaped(t)
    ensures m.Leaf?
    ensures Entries(t)[0] == Entry(m.key, m.value)
    ensures m.key == MinKey(t)
  {
    if t.Leaf? then t else Lmd(t.left)
  }

  /** Routes by separator: left when k is below it, else right. */
  function Get<V>(t: Tree<V>, k: Key): (r: Option<V>)
    ensures Valid(t) ==> r == if k in Contents(t) then Some(Contents(t)[k]) else None
  {
    match t
    case Empty => None
    case Leaf(lk, v) => if k == lk then Some(v) else None
    case Node(key, _, _, l, r) =>
      KeyBounds(l);
      KeyBounds(r);
      if k < key then Get(l, k) else Get(r, k)
  }

  function Has<V>(t: Tree<V>, k: Key): (b: bool)
    ensures Valid(t) ==> (b <==> k in Contents(t))
  {
    Get(t, k).Some?
  }

  /** Rank lookup: the record at 0-based position i in ascending key order. */
  function GetIndex<V>(t: Tree<V>, i: nat): (r: Option<Entry<V>>)
    ensures Valid(t) ==> r == if i < |Entries(t)| then Some(Entries(t)[i]) else None
  {
    match t
    case Empty => None
    case Leaf(k, v) => if i == 0 then Some(Entry(k, v)) else None
    case Node(_, _, _, l, r) =>
      if i < Size(l) then GetIndex(l, i) else GetIndex(r, i - Size(l))
  }

  // ---------------------------------------------------------------------
  // Rebalancing
  // ---------------------------------------------------------------------

  /** Left - right height of a node; 0 for a leaf. */
  function Lean<V>(t: Tree<V>): int {
    if t.Node? then Height(t.left) as int - Height(t.right) as int else 0
  }

  /** Promotes the left child. The separators stay as they are. */
  function RotateRight<V>(t: Tree<V>): (u: Tree<V>)
    ensures Shaped(t) ==> Shaped(u) && u.Node? == t.Node?
  {
    match t
    case Node(k, _, _, l, r) =>
      if l.Node? then
        assert Shaped(t) ==> Shaped(l);
        MakeNode(l.key, l.left, MakeNode(k, l.right, r))
      else t
    case _ => t
  }

  /** Promotes the right child. The separators stay as they are. */
  function RotateLeft<V>(t: Tree<V>): (u: Tree<V>)
    ensures Shaped(t) ==> Shaped(u) && u.Node? == t.Node?
  {
    match t
    case Node(k, _, _, l, r) =>
      if r.Node? then
        assert Shaped(t) ==> Shaped(r);
        MakeNode(r.key, MakeNode(k, l, r.left), r.right)
      else t
    case _ => t
  }

  /**
   Rebuilds a node from its separator and children and restores the height
   balance: a single rotation when the heavy child leans the same way (or
   not at all), a double rotation when it leans the other way.
   */
  function Balance<V>(key: Key, l: Tree<V>, r: Tree<V>): (b: Tree<V>)
    ensures Shaped(l) && Shaped(r) && !l.Empty? && !r.Empty? ==> Shaped(b) && b.Node?
  {
    if Height(l) > Height(r) + 1 then
      if Lean(l) >= 0 then RotateRight(MakeNode(key, l, r))
      else RotateRight(MakeNode(key, RotateLeft(l), r))
    else if Height(r) > Height(l) + 1 then
      if Lean(r) <= 0 then RotateLeft(MakeNode(key, l, r))
      else RotateLeft(MakeNode(key, l, RotateRight(r)))
    else
      MakeNode(key, l, r)
  }

  // ---------------------------------------------------------------------
  // Updates
  // ---------------------------------------------------------------------

  /** Inserts or replaces the record for k. */
  function Set<V>(t: Tree<V>, k: Key, v: V): (r: SetResult<V>)
    ensures !r.root.Empty?
  {
    match t
    case Empty => SetResult(Leaf(k, v), false)
    case Leaf(lk, _) =>
      if k == lk then SetResult(Leaf(k, v), true)
      else if k < lk then SetResult(MakeNode(lk, Leaf(k, v), t), false)
      else SetResult(MakeNode(k, t, Leaf(k, v)), false)
    case Node(key, _, _, l, r) =>
      if k < key then
        var s := Set(l, k, v);
        SetResult(Balance(key, s.root, r), s.updated)
      else
        var s := Set(r, k, v);
        SetResult(Balance(key, l, s.root), s.updated)
  }

  /**
   Removes the record for k. A side that becomes empty makes the node
   collapse into its other child; after removing on the right, the
   separator becomes the least key of the new right subtree.
   */
  function Remove<V>(t: Tree<V>, k: Key): (r: RemoveResult<V>)
    requires Shaped(t)
    ensures Shaped(r.root)
    ensures t.Node? ==> !r.root.Empty?
  {
    match t
    case Empty => RemoveResult(Empty, None, false)
    case Leaf(lk, v) =>
      if k == lk then RemoveResult(Empty, Some(v), true) else RemoveResult(t, None, false)
    case Node(key, _, _, l, r) =>
      if k < key then
        var s := Remove(l, k);
        if !s.removed then RemoveResult(t, None, false)
        else if s.root.Empty? then RemoveResult(r, s.value, true)
        else RemoveResult(Balance(key, s.root, r), s.value, true)
      else
        var s := Remove(r, k);
        if !s.removed then RemoveResult(t, None, false)
        else if s.root.Empty? then RemoveResult(l, s.value, true)
        else RemoveResult(Balance(Lmd(s.root).key, l, s.root), s.value, true)
  }

  // ---------------------------------------------------------------------
  // Lemmas
  // ---------------------------------------------------------------------


  /**
   Every key of a sound tree lies between the keys of its leftmost and
   rightmost leaves.
   */
  lemma {:induction false} KeyBounds<V>(t: Tree<V>)
    ensures Sound(t) ==> MinKey(t) <= MaxKey(t)
    ensures Sound(t) ==> forall x | x in Contents(t) :: MinKey(t) <= x <= MaxKey(t)
  {
    if t.Node? {
      KeyBounds(t.left);
      KeyBounds(t.right);
    }
  }

  lemma UnionAssociative<V>(a: map<Key, V>, b: map<Key, V>, c: map<Key, V>)
    ensures (a + b) + c == a + (b + c)
  {
    assert forall x :: x in (a + b) + c <==> x in a + (b + c);
  }

  /** A rotation keeps the records of the tree it rotates. */
  lemma RotateRightContents<V>(t: Tree<V>)
    ensures Contents(RotateRight(t)) == Contents(t)
  {
    if t.Node? && t.left.Node? {
      UnionAssociative(Contents(t.left.left), Contents(t.left.right), Contents(t.right));
    }
  }

  lemma RotateLeftContents<V>(t: Tree<V>)
    ensures Contents(RotateLeft(t)) == Contents(t)
  {
    if t.Node? && t.right.Node? {
      UnionAssociative(Contents(t.left), Contents(t.right.left), Contents(t.right.right));
    }
  }

  /** Single right rotation at a left-heavy node whose left child does not lean right. */
  lemma RotateRightCorrect<V>(key: Key, l: Tree<V>, r: Tree<V>)
    requires Valid(l) && Valid(r) && !r.Empty?
    requires Height(l) == Height(r) + 2 && Lean(l) >= 0
    requires key == MinKey(r) && MaxKey(l) < key
    ensures var b := RotateRight(MakeNode(key, l, r));
      && Valid(b) && Size(b) == Size(l) + Size(r)
      && MinKey(b) == MinKey(l) && MaxKey(b) == MaxKey(r)
      && Height(l) <= Height(b) <= Height(l) + 1
  {
  }

  /** Mirror of RotateRightCorrect. */
  lemma RotateLeftCorrect<V>(key: Key, l: Tree<V>, r: Tree<V>)
    requires Valid(l) && Valid(r) && !l.Empty?
    requires Height(r) == Height(l) + 2 && Lean(r) <= 0
    requires key == MinKey(r) && MaxKey(l) < key
    ensures var b := RotateLeft(MakeNode(key, l, r));
      && Valid(b) && Size(b) == Size(l) + Size(r)
      && MinKey(b) == MinKey(l) && MaxKey(b) == MaxKey(r)
      && Height(r) <= Height(b) <= Height(r) + 1
  {
  }

  /** Double rotation at a left-heavy node whose left child leans right. */
  lemma {:induction false} RotateLeftRightCorrect<V>(key: Key, l: Tree<V>, r: Tree<V>)
    requires Valid(l) && Valid(r) && !r.Empty?
    requires Height(l) == Height(r) + 2 && Lean(l) < 0
    requires key == MinKey(r) && MaxKey(l) < key
    ensures var b := RotateRight(MakeNode(key, RotateLeft(l), r));
      && Valid(b) && Size(b) == Size(l) + Size(r)
      && MinKey(b) == MinKey(l) && MaxKey(b) == MaxKey(r)
      && Height(b) == Height(l)
  {
    var Node(lk, _, _, ll, lr) := l;
    var Node(lrk, _, _, lrl, lrr) := lr;
    assert Valid(lr);
    var a := MakeNode(lk, ll, lrl);
    assert Valid(a);
    var c := MakeNode(key, lrr, r);
    assert Valid(c);
    var b := MakeNode(lrk, a, c);
    assert RotateRight(MakeNode(key, RotateLeft(l), r)) == b;
    assert Valid(b);
  }

  /** Mirror of RotateLeftRightCorrect. */
  lemma {:induction false} RotateRightLeftCorrect<V>(key: Key, l: Tree<V>, r: Tree<V>)
    requires Valid(l) && Valid(r) && !l.Empty?
    requires Height(r) == Height(l) + 2 && Lean(r) > 0
    requires key == MinKey(r) && MaxKey(l) < key
    ensures var b := RotateLeft(MakeNode(key, l, RotateRight(r)));
      && Valid(b) && Size(b) == Size(l) + Size(r)
      && MinKey(b) == MinKey(l) && MaxKey(b) == MaxKey(r)
      && Height(b) == Height(r)
  {
    var Node(rk, _, _, rl, rr) := r;
    var Node(rlk, _, _, rll, rlr) := rl;
    assert Valid(rl);
    var a := MakeNode(key, l, rll);
    assert Valid(a);
    var c := MakeNode(rk, rlr, rr);
    assert Valid(c);
    var b := MakeNode(rlk, a, c);
    assert RotateLeft(MakeNode(key, l, RotateRight(r))) == b;
    assert Valid(b);
  }

  /**
   Balance turns two valid, ordered children whose heights differ by at most
   two into a valid tree holding the records of both, with height between
   the taller child's and one more; it rotates only when the difference is two.
   */
  lemma {:induction false} BalanceCorrect<V>(key: Key, l: Tree<V>, r: Tree<V>)
    requires Valid(l) && Valid(r) && !l.Empty? && !r.Empty?
    requires Height(l) <= Height(r) + 2 && Height(r) <= Height(l) + 2
    requires key == MinKey(r) && MaxKey(l) < key
    ensures var b := Balance(key, l, r);
      && Valid(b) && Contents(b) == Contents(l) + Contents(r)
      && Size(b) == Size(l) + Size(r)
      && Max(Height(l), Height(r)) <= Height(b) <= 1 + Max(Height(l), Height(r))
      && (Height(l) <= Height(r) + 1 && Height(r) <= Height(l) + 1 ==> b == MakeNode(key, l, r))
  {
    if Height(l) > Height(r) + 1 {
      RotateRightContents(MakeNode(key, l, r));
      if Lean(l) >= 0 {
        RotateRightCorrect(key, l, r);
      } else {
        RotateLeftContents(l);
        RotateLeftRightCorrect(key, l, r);
        RotateRightContents(MakeNode(key, RotateLeft(l), r));
      }
    } else if Height(r) > Height(l) + 1 {
      RotateLeftContents(MakeNode(key, l, r));
      if Lean(r) <= 0 {
        RotateLeftCorrect(key, l, r);
      } else {
        RotateRightContents(r);
        RotateRightLeftCorrect(key, l, r);
        RotateLeftContents(MakeNode(key, l, RotateRight(r)));
      }
    }
  }

  /** What Set promises for one call, in terms of the records before and after. */
  ghost predicate SetSpec<V>(t: Tree<V>, k: Key, v: V, r: SetResult<V>) {
    && Valid(r.root) && !r.root.Empty?
    && Contents(r.root) == Contents(t)[k := v]
    && r.updated == (k in Contents(t))
    && Size(r.root) == (if r.updated then Size(t) else Size(t) + 1)
    && Height(t) <= Height(r.root) <= Height(t) + 1
  }

  lemma UpdateLeftOfUnion<V>(a: map<Key, V>, b: map<Key, V>, k: Key, v: V)
    requires k !in b
    ensures a[k := v] + b == (a + b)[k := v]
  {
  }

  lemma UpdateRightOfUnion<V>(a: map<Key, V>, b: map<Key, V>, k: Key, v: V)
    ensures a + b[k := v] == (a + b)[k := v]
  {
  }

  /**
   Rebuilding after an insert into the left subtree: `s` is what Set
   returned for the left child l of a valid node (key, l, r).
   */
  lemma SetLeftStep<V>(key: Key, l: Tree<V>, r: Tree<V>, k: Key, v: V, s: SetResult<V>)
    requires Valid(MakeNode(key, l, r)) && k < key
    requires SetSpec(l, k, v, s)
    ensures var b := Balance(key, s.root, r);
      && Valid(b)
      && Contents(b) == (Contents(l) + Contents(r))[k := v]
      && s.updated == (k in Contents(l) + Contents(r))
      && Size(b) == (if s.updated then Size(l) + Size(r) else Size(l) + Size(r) + 1)
      && 1 + Max(Height(l), Height(r)) <= Height(b) <= 2 + Max(Height(l), Height(r))
  {
    KeyBounds(l);
    KeyBounds(r);
    KeyBounds(s.root);
    assert MaxKey(s.root) in Contents(s.root);
    BalanceCorrect(key, s.root, r);
    assert k !in Contents(r);
    UpdateLeftOfUnion(Contents(l), Contents(r), k, v);
  }

  /** Rebuilding after an insert into the right subtree. */
  lemma SetRightStep<V>(key: Key, l: Tree<V>, r: Tree<V>, k: Key, v: V, s: SetResult<V>)
    requires Valid(MakeNode(key, l, r)) && key <= k
    requires SetSpec(r, k, v, s)
    ensures var b := Balance(key, l, s.root);
      && Valid(b)
      && Contents(b) == (Contents(l) + Contents(r))[k := v]
      && s.updated == (k in Contents(l) + Contents(r))
      && Size(b) == (if s.updated then Size(l) + Size(r) else Size(l) + Size(r) + 1)
      && 1 + Max(Height(l), Height(r)) <= Height(b) <= 2 + Max(Height(l), Height(r))
  {
    KeyBounds(l);
    KeyBounds(r);
    KeyBounds(s.root);
    assert MinKey(s.root) in Contents(s.root);
    assert key in Contents(s.root);
    BalanceCorrect(key, l, s.root);
    assert k !in Contents(l);
    UpdateRightOfUnion(Contents(l), Contents(r), k, v);
  }

  /** Set at a leaf: replace it, or split it into a node with two leaves. */
  lemma SetAtLeaf<V>(t: Tree<V>, k: Key, v: V)
    requires t.Leaf?
    ensures SetSpec(t, k, v, Set(t, k, v))
  {
    var Leaf(lk, lv) := t;
    if k < lk {
      assert Contents(Set(t, k, v).root) == Contents(t)[k := v];
    } else if k > lk {
      assert Contents(Set(t, k, v).root) == Contents(t)[k := v];
    }
  }

  /** Set at a node whose key routes k to the left subtree. */
  lemma SetAtNodeLeft<V>(t: Tree<V>, k: Key, v: V)
    requires Valid(t) && t.Node? && k < t.key
    requires SetSpec(t.left, k, v, Set(t.left, k, v))
    ensures SetSpec(t, k, v, Set(t, k, v))
  {
    SetLeftStep(t.key, t.left, t.right, k, v, Set(t.left, k, v));
  }

  /** Set at a node whose key routes k to the right subtree. */
  lemma SetAtNodeRight<V>(t: Tree<V>, k: Key, v: V)
    requires Valid(t) && t.Node? && t.key <= k
    requires SetSpec(t.right, k, v, Set(t.right, k, v))
    ensures SetSpec(t, k, v, Set(t, k, v))
  {
    SetRightStep(t.key, t.left, t.right, k, v, Set(t.right, k, v));
  }

  /**
   Set keeps the tree valid, maps k to v and leaves every other record as it
   was, reports `updated` exactly when k was already present, grows the size
   by one on an insert, and grows the height by at most one.
   */
  lemma {:induction false} SetCorrect<V>(t: Tree<V>, k: Key, v: V)
    requires Valid(t)
    ensures SetSpec(t, k, v, Set(t, k, v))
  {
    match t
    case Empty =>
    case Leaf(_, _) =>
      SetAtLeaf(t, k, v);
    case Node(key, _, _, l, r) =>
      if k < key {
        SetCorrect(l, k, v);
        SetAtNodeLeft(t, k, v);
      } else {
        SetCorrect(r, k, v);
        SetAtNodeRight(t, k, v);
      }
  }

  /** What Remove promises for one call, in terms of the records before and after. */
  ghost predicate RemoveSpec<V>(t: Tree<V>, k: Key, r: RemoveResult<V>) {
    && Valid(r.root)
    && Contents(r.root) == Contents(t) - {k}
    && r.removed == (k in Contents(t))
    && r.value == (if k in Contents(t) then Some(Contents(t)[k]) else None)
    && Size(r.root) == (if r.removed then Size(t) - 1 else Size(t))
    && (r.removed ==> Height(t) <= Height(r.root) + 1 && Height(r.root) <= Height(t))
    && (!r.removed ==> r.root == t)
  }

  lemma RemoveFromUnion<V>(a: map<Key, V>, b: map<Key, V>, k: Key)
    ensures k !in b ==> (a - {k}) + b == (a + b) - {k}
    ensures k !in a ==> a + (b - {k}) == (a + b) - {k}
  {
  }

  /**
   Rebuilding after a removal from the left subtree that left it non-empty:
   `s` is what Remove returned for the left child l of a valid node (key, l, r).
   */
  lemma RemoveLeftStep<V>(key: Key, l: Tree<V>, r: Tree<V>, k: Key, s: RemoveResult<V>)
    requires Valid(MakeNode(key, l, r)) && k < key
    requires RemoveSpec(l, k, s) && s.removed && !s.root.Empty?
    ensures var b := Balance(key, s.root, r);
      && Valid(b)
      && Contents(b) == (Contents(l) + Contents(r)) - {k}
      && k in Contents(l) + Contents(r) && s.value == Some((Contents(l) + Contents(r))[k])
      && Size(b) == Size(l) + Size(r) - 1
      && Max(Height(l), Height(r)) <= Height(b) <= 1 + Max(Height(l), Height(r))
  {
    KeyBounds(l);
    KeyBounds(r);
    KeyBounds(s.root);
    assert k !in Contents(r);
    RemoveFromUnion(Contents(l), Contents(r), k);
    assert MaxKey(s.root) in Contents(s.root);
    BalanceCorrect(key, s.root, r);
  }

  /**
   Rebuilding after a removal from the right subtree that left it non-empty;
   the separator becomes the key of the new right subtree's leftmost leaf.
   */
  lemma RemoveRightStep<V>(key: Key, l: Tree<V>, r: Tree<V>, k: Key, s: RemoveResult<V>)
    requires Valid(MakeNode(key, l, r)) && key <= k
    requires RemoveSpec(r, k, s) && s.removed && !s.root.Empty?
    ensures var b := Balance(Lmd(s.root).key, l, s.root);
      && Valid(b)
      && Contents(b) == (Contents(l) + Contents(r)) - {k}
      && k in Contents(l) + Contents(r) && s.value == Some((Contents(l) + Contents(r))[k])
      && Size(b) == Size(l) + Size(r) - 1
      && Max(Height(l), Height(r)) <= Height(b) <= 1 + Max(Height(l), Height(r))
  {
    KeyBounds(l);
    KeyBounds(r);
    KeyBounds(s.root);
    assert k !in Contents(l);
    RemoveFromUnion(Contents(l), Contents(r), k);
    var m := Lmd(s.root).key;
    assert m in Contents(s.root);
    BalanceCorrect(m, l, s.root);
  }

  /** A tree whose only record is removed becomes empty only if it was a single leaf. */
  lemma RemoveCollapse<V>(t: Tree<V>, k: Key, s: RemoveResult<V>)
    requires Valid(t) && RemoveSpec(t, k, s) && s.removed && s.root.Empty?
    ensures t.Leaf? && t.key == k
  {
    NodeHoldsTwoKeys(t);
    assert t.Node? ==> MinKey(t) in Contents(t) - {k} || MaxKey(t) in Contents(t) - {k};
  }

  /**
   Removing the record of a leaf child makes its node collapse into the
   sibling subtree, which is returned as it was, with the removed payload.
   */
  lemma RemoveCollapseIntoSibling<V>(t: Tree<V>, k: Key)
    requires Valid(t) && t.Node?
    ensures t.left.Leaf? && t.left.key == k ==> Remove(t, k) == RemoveResult(t.right, Some(t.left.value), true)
    ensures t.right.Leaf? && t.right.key == k ==> Remove(t, k) == RemoveResult(t.left, Some(t.right.value), true)
  {
  }

  /** An internal node of a valid tree holds at least two records: its least and its greatest key. */
  lemma NodeHoldsTwoKeys<V>(t: Tree<V>)
    requires Valid(t)
    ensures t.Node? ==> MinKey(t) in Contents(t) && MaxKey(t) in Contents(t) && MinKey(t) < MaxKey(t)
  {
    if t.Node? {
      KeyBounds(t.left);
      KeyBounds(t.right);
    }
  }

  /** Remove at a node whose key routes k to the left subtree. */
  lemma RemoveAtNodeLeft<V>(t: Tree<V>, k: Key)
    requires Valid(t) && t.Node? && k < t.key
    requires RemoveSpec(t.left, k, Remove(t.left, k))
    ensures RemoveSpec(t, k, Remove(t, k))
  {
    var Node(key, _, _, l, r) := t;
    var s := Remove(l, k);
    KeyBounds(l);
    KeyBounds(r);
    if !s.removed {
      assert Contents(t) - {k} == Contents(t);
    } else if s.root.Empty? {
      RemoveCollapse(l, k, s);
      assert Contents(t) - {k} == Contents(r);
    } else {
      RemoveLeftStep(key, l, r, k, s);
    }
  }

  /** Remove at a node whose key routes k to the right subtree. */
  lemma RemoveAtNodeRight<V>(t: Tree<V>, k: Key)
    requires Valid(t) && t.Node? && t.key <= k
    requires RemoveSpec(t.right, k, Remove(t.right, k))
    ensures RemoveSpec(t, k, Remove(t, k))
  {
    var Node(key, _, _, l, r) := t;
    var s := Remove(r, k);
    KeyBounds(l);
    KeyBounds(r);
    if !s.removed {
      assert Contents(t) - {k} == Contents(t);
    } else if s.root.Empty? {
      RemoveCollapse(r, k, s);
      assert Contents(t) - {k} == Contents(l);
    } else {
      RemoveRightStep(key, l, r, k, s);
    }
  }

  /**
   Remove keeps the tree valid and drops exactly the record for k; it
   reports `removed` exactly when k was present, returns that record's
   payload, shrinks the size by one and the height by at most one, and
   returns the input root itself when k is absent.
   */
  lemma {:induction false} RemoveCorrect<V>(t: Tree<V>, k: Key)
    requires Valid(t)
    ensures RemoveSpec(t, k, Remove(t, k))
  {
    match t
    case Empty =>
    case Leaf(lk, lv) =>
      if k == lk {
        assert Contents(t) - {k} == map[];
      } else {
        assert Contents(t) - {k} == Contents(t);
      }
    case Node(key, _, _, l, r) =>
      if k < key {
        RemoveCorrect(l, k);
        RemoveAtNodeLeft(t, k);
      } else {
        RemoveCorrect(r, k);
        RemoveAtNodeRight(t, k);
      }
  }

  /** The separator of every valid internal node is the key of the leftmost leaf of its right subtree. */
  lemma SeparatorIsLeftmostOfRight<V>(t: Tree<V>)
    requires Valid(t) && t.Node?
    ensures t.key == Lmd(t.right).key
    ensures forall x | x in Contents(t.left) :: x < t.key
    ensures forall x | x in Contents(t.right) :: t.key <= x
  {
    KeyBounds(t.left);
    KeyBounds(t.right);
  }

  /** The in-order leaves of a valid tree are in strictly ascending key order. */
  lemma {:induction false} EntriesAscending<V>(t: Tree<V>)
    requires Valid(t)
    ensures Ascending(Entries(t))
  {
    if t.Node? {
      var el, er := Entries(t.left), Entries(t.right);
      EntriesAscending(t.left);
      EntriesAscending(t.right);
      var es := Entries(t);
      forall i, j | 0 <= i < j < |es| ensures es[i].key < es[j].key {
        if j < |el| {
          assert es[i] == el[i] && es[j] == el[j];
        } else if i >= |el| {
          assert es[i] == er[i - |el|] && es[j] == er[j - |el|];
        } else {
          assert es[i] == el[i] && es[j] == er[j - |el|];
          assert el[i].key <= el[|el| - 1].key;
          assert er[0].key <= er[j - |el|].key;
        }
      }
    }
  }

  /** The in-order leaves of a valid tree are exactly its records. */
  lemma {:induction false} EntriesAreContents<V>(t: Tree<V>)
    requires Valid(t)
    ensures forall i | 0 <= i < |Entries(t)| ::
      Entries(t)[i].key in Contents(t) && Contents(t)[Entries(t)[i].key] == Entries(t)[i].value
    ensures forall x | x in Contents(t) :: exists i | 0 <= i < |Entries(t)| :: Entries(t)[i].key == x
  {
    if t.Node? {
      var l, r := t.left, t.right;
      var el, er := Entries(l), Entries(r);
      EntriesAreContents(l);
      EntriesAreContents(r);
      KeyBounds(l);
      KeyBounds(r);
      var es := Entries(t);
      forall i | 0 <= i < |es|
        ensures es[i].key in Contents(t) && Contents(t)[es[i].key] == es[i].value
      {
        if i < |el| {
          assert es[i] == el[i];
          assert es[i].key !in Contents(r);
        } else {
          assert es[i] == er[i - |el|];
        }
      }
      forall x | x in Contents(t) ensures exists i | 0 <= i < |es| :: es[i].key == x {
        if x in Contents(r) {
          var j :| 0 <= j < |er| && er[j].key == x;
          assert es[|el| + j] == er[j];
        } else {
          var j :| 0 <= j < |el| && el[j].key == x;
          assert es[j] == el[j];
        }
      }
    } else if t.Leaf? {
      assert Entries(t)[0].key == t.key;
    }
  }

  lemma DisjointUnionCard<V>(a: map<Key, V>, b: map<Key, V>)
    requires forall x | x in a :: x !in b
    ensures |a + b| == |a| + |b|
  {
    assert (a + b).Keys == a.Keys + b.Keys;
    assert a.Keys * b.Keys == {};
  }

  /** Size() of a valid tree is the number of distinct keys it holds. */
  lemma {:induction false} SizeIsCount<V>(t: Tree<V>)
    requires Valid(t)
    ensures Size(t) == |Contents(t)|
  {
    match t
    case Empty =>
    case Leaf(_, _) =>
    case Node(key, _, _, l, r) =>
      SizeIsCount(l);
      SizeIsCount(r);
      KeyBounds(l);
      KeyBounds(r);
      DisjointUnionCard(Contents(l), Contents(r));
  }
}
