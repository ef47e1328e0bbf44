/**
 The helpers of the tree's test suite: the tree builder N and the printer P.
 The third helper, the leftmost-leaf walk lmd, is IBBSTree.Lmd.
 */
module IBBSTreeTest {
  import opened IBBSTree

  // ---------------------------------------------------------------------
  // Printing: P renders leaves as decimal keys and nodes as "(left right)"
  // ---------------------------------------------------------------------

  function DigitChar(d: nat): (c: char)
    requires d < 10
    ensures '0' <= c <= '9' && c as int - '0' as int == d
  {
    ('0' as int + d) as char
  }

  predicate IsDigits(s: string) {
    forall i | 0 <= i < |s| :: '0' <= s[i] <= '9'
  }

  /** The decimal rendering of n, most significant digit first. */
  function Decimal(n: nat): (s: string)
    ensures |s| > 0 && IsDigits(s)
  {
    if n < 10 then [DigitChar(n)] else Decimal(n / 10) + [DigitChar(n % 10)]
  }

  /** Reads a string of decimal digits back as a number. */
  function ParseDecimal(s: string): nat
    requires IsDigits(s)
  {
    if |s| == 0 then 0
    else ParseDecimal(s[..|s| - 1]) * 10 + (s[|s| - 1] as int - '0' as int)
  }

  lemma {:induction false} DecimalRoundTrip(n: nat)
    ensures ParseDecimal(Decimal(n)) == n
  {
    if n >= 10 {
      var s := Decimal(n);
      assert s[..|s| - 1] == Decimal(n / 10);
      DecimalRoundTrip(n / 10);
    }
  }

  /**
   Renders a tree: a leaf as its key in decimal, an internal node as its two
   subtrees in parentheses separated by one space. The rendering starts with
   a parenthesis exactly when the tree is an internal node.
   */
  function P<V>(t: Tree<V>): (s: string)
    requires !t.Empty? && Shaped(t)
    ensures |s| > 0 && (s[0] == '(' <==> t.Node?)
  {
    if t.Leaf? then Decimal(t.key as nat) else "(" + P(t.left) + " " + P(t.right) + ")"
  }

  /**
   A rendering of n records holds n - 1 opening parentheses, n - 1 closing
   ones and n - 1 spaces: one of each per internal node.
   */
  lemma {:induction false} PrintedStructure<V>(t: Tree<V>)
    requires !t.Empty? && Shaped(t)
    ensures var m := multiset(P(t)); m['('] == m[')'] == m[' '] == |Entries(t)| - 1
  {
    if t.Leaf? {
      DecimalHasNoMarks(t.key as nat);
    } else {
      PrintedStructure(t.left);
      PrintedStructure(t.right);
      WrapCounts(P(t.left), P(t.right));
      assert P(t) == "(" + P(t.left) + " " + P(t.right) + ")";
    }
  }

  lemma DecimalHasNoMarks(n: nat)
    ensures var m := multiset(Decimal(n)); m['('] == 0 && m[')'] == 0 && m[' '] == 0
  {
    var d := Decimal(n);
    assert '(' !in d && ')' !in d && ' ' !in d;
  }

  lemma WrapCounts(a: string, b: string)
    ensures var m, ma, mb := multiset("(" + a + " " + b + ")"), multiset(a), multiset(b);
      && m['('] == ma['('] + mb['('] + 1
      && m[')'] == ma[')'] + mb[')'] + 1
      && m[' '] == ma[' '] + mb[' '] + 1
  {
    assert multiset("(" + a + " " + b + ")") == multiset("(") + multiset(a) + multiset(" ") + multiset(b) + multiset(")");
  }

  // ---------------------------------------------------------------------
  // Building: N sets each key in turn, starting from the nil root
  // ---------------------------------------------------------------------

  /** The tree N builds: Set folded over the keys, every payload nil. */
  function Built(keys: seq<Key>): Tree<()> {
    if |keys| == 0 then Empty else Set(Built(keys[..|keys| - 1]), keys[|keys| - 1], ()).root
  }

  method N(keys: seq<Key>) returns (root: Tree<()>)
    ensures root == Built(keys)
  {
    root := Empty;
    for i := 0 to |keys|
      invariant root == Built(keys[..i])
    {
      assert keys[..i + 1][..i] == keys[..i];
      root := Set(root, keys[i], ()).root;
    }
    assert keys[..|keys|] == keys;
  }

  /** N builds a valid tree holding exactly the given keys, one record per distinct key. */
  lemma {:induction false} BuiltCorrect(keys: seq<Key>)
    ensures Valid(Built(keys))
    ensures Contents(Built(keys)).Keys == set k | k in keys
    ensures Size(Built(keys)) == |set k | k in keys|
  {
    if |keys| > 0 {
      var init, last := keys[..|keys| - 1], keys[|keys| - 1];
      BuiltCorrect(init);
      SetCorrect(Built(init), last, ());
      KeysOfSnoc(init, last);
      assert keys == init + [last];
    }
  }

  /** N over k1..kn is Set of kn on N over k1..kn-1. */
  lemma BuiltSnoc(keys: seq<Key>, k: Key, t: Tree<()>)
    requires Built(keys) == t
    ensures Built(keys + [k]) == Set(t, k, ()).root
  {
    assert (keys + [k])[..|keys|] == keys;
  }

  lemma KeysOfSnoc(keys: seq<Key>, last: Key)
    ensures (set k | k in keys + [last]) == (set k | k in keys) + {last}
  {
  }
}
