/**
 The randomized integration run of the tree's test suite, stated for every
 sequence of records with distinct keys: insert each record twice (first a
 blank value, then its own), look every record up, then remove the records
 one by one while checking that all later ones are still there. The run
 counts the checks that fail; the contract is that none does.
 */
module IBBSTreeIntegration {
  import opened IBBSTree

  datatype Record = Record(key: Key, value: string)

  predicate DistinctKeys(records: seq<Record>) {
    forall i, j | 0 <= i < j < |records| :: records[i].key != records[j].key
  }

  /** The records records[lo..hi] are all in the tree, each with its own value. */
  ghost predicate AllPresent(tree: Tree<string>, records: seq<Record>, lo: nat, hi: nat) {
    forall j | lo <= j < hi && j < |records| ::
      records[j].key in Contents(tree) && Contents(tree)[records[j].key] == records[j].value
  }

  /** No record of records[lo..] has its key in the tree. */
  ghost predicate AllAbsent(tree: Tree<string>, records: seq<Record>, lo: nat) {
    forall j | lo <= j < |records| :: records[j].key !in Contents(tree)
  }

  /**
   Has and Get on the tree for each record from index lo on; returns how many
   of these checks disagree with the record.
   */
  method CheckPresent(tree: Tree<string>, records: seq<Record>, lo: nat) returns (errors: nat)
    requires Valid(tree) && lo <= |records|
    ensures AllPresent(tree, records, lo, |records|) ==> errors == 0
    ensures errors == 0 ==> AllPresent(tree, records, lo, |records|)
  {
    errors := 0;
    for j := lo to |records|
      invariant errors == 0 <==> AllPresent(tree, records, lo, j)
    {
      var r := records[j];
      if !Has(tree, r.key) {
        errors := errors + 1;
      }
      if Get(tree, r.key) != Some(r.value) {
        errors := errors + 1;
      }
    }
  }

  /** One round of the insert loop: a fresh key is added, then its value replaces the blank. */
  lemma InsertStep(tree: Tree<string>, records: seq<Record>, i: nat)
    requires DistinctKeys(records) && i < |records|
    requires Valid(tree) && Size(tree) == i
    requires AllPresent(tree, records, 0, i) && AllAbsent(tree, records, i)
    ensures var r := records[i];
      var a := Set(tree, r.key, "");
      var b := Set(a.root, r.key, r.value);
      && !a.updated && b.updated
      && Valid(b.root) && Size(b.root) == i + 1
      && AllPresent(b.root, records, 0, i + 1) && AllAbsent(b.root, records, i + 1)
  {
    var r := records[i];
    SetCorrect(tree, r.key, "");
    var a := Set(tree, r.key, "");
    assert r.key !in Contents(tree);
    SetCorrect(a.root, r.key, r.value);
    var b := Set(a.root, r.key, r.value);
    var c := Contents(tree);
    assert Contents(b.root) == c[r.key := ""][r.key := r.value];
    forall j | 0 <= j < i
      ensures records[j].key in Contents(b.root) && Contents(b.root)[records[j].key] == records[j].value
    {
      assert records[j].key != r.key;
    }
  }

  /** One round of the remove loop: the first remaining record leaves with its value, the rest stay. */
  lemma RemoveStep(tree: Tree<string>, records: seq<Record>, i: nat)
    requires DistinctKeys(records) && i < |records|
    requires Valid(tree) && Size(tree) == |records| - i
    requires AllPresent(tree, records, i, |records|)
    ensures var x := records[i];
      var rr := Remove(tree, x.key);
      && rr.removed && rr.value == Some(x.value)
      && Valid(rr.root) && Size(rr.root) == |records| - (i + 1)
      && AllPresent(rr.root, records, i + 1, |records|)
  {
    RemoveCorrect(tree, records[i].key);
  }

  /** The insert loop: every record is set twice; returns the tree and the count of failed checks. */
  method InsertAll(records: seq<Record>) returns (tree: Tree<string>, errors: int)
    requires DistinctKeys(records)
    ensures errors == 0
    ensures Valid(tree) && Size(tree) == |records| && AllPresent(tree, records, 0, |records|)
  {
    errors := 0;
    tree := Empty;
    var updated: bool;
    for i := 0 to |records|
      invariant Valid(tree) && Size(tree) == i && errors == 0
      invariant AllPresent(tree, records, 0, i)
      invariant AllAbsent(tree, records, i)
    {
      var r := records[i];
      InsertStep(tree, records, i);
      var s := Set(tree, r.key, "");
      tree, updated := s.root, s.updated;
      if updated {
        errors := errors + 1;
      }
      s := Set(tree, r.key, r.value);
      tree, updated := s.root, s.updated;
      if !updated {
        errors := errors + 1;
      }
      if Size(tree) != i + 1 {
        errors := errors + 1;
      }
    }
  }

  /** The remove loop: removes the records in order, checking the rest after each removal. */
  method RemoveAll(tree: Tree<string>, records: seq<Record>) returns (errors: int)
    requires DistinctKeys(records)
    requires Valid(tree) && Size(tree) == |records| && AllPresent(tree, records, 0, |records|)
    ensures errors == 0
  {
    errors := 0;
    var t := tree;
    var removed: bool;
    for i := 0 to |records|
      invariant Valid(t) && Size(t) == |records| - i && errors == 0
      invariant AllPresent(t, records, i, |records|)
    {
      var x := records[i];
      RemoveStep(t, records, i);
      var rr := Remove(t, x.key);
      t, removed := rr.root, rr.removed;
      if !removed {
        errors := errors + 1;
      } else if rr.value != Some(x.value) {
        errors := errors + 1;
      }
      var e := CheckPresent(t, records, i + 1);
      errors := errors + e;
      if Size(t) != |records| - (i + 1) {
        errors := errors + 1;
      }
    }
  }

  /**
   The whole run over records with distinct keys (the random keys and values
   are the input here): no check fails.
   */
  method Integration(records: seq<Record>) returns (errors: int)
    requires DistinctKeys(records)
    ensures errors == 0
  {
    var tree, e1 := InsertAll(records);
    var e2 := CheckPresent(tree, records, 0);
    var e3 := RemoveAll(tree, records);
    errors := e1 + e2 + e3;
  }
}
