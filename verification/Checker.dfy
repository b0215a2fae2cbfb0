/** `verify()`: rebuilding a collection's bookkeeping and comparing, and what that does and
    does not establish. */
module Checker {
  import opened Texts
  import opened Json
  import opened Keys
  import opened Paths
  import opened Collections

  /** The document's own key is the slot it is filed under. */
  predicate KeyMatches(schema: Schema, slot: Text, doc: Json) {
    DocumentKey(doc, schema.primaryKey).Some? && EncodeKey(DocumentKey(doc, schema.primaryKey).value) == Some(slot)
  }

  /** An index holds exactly the buckets rebuilt from the records, all of them indexable. */
  ghost predicate Rebuilt(ix: Index, records: map<Text, Json>) {
    && Exact(ix.buckets, records, ix.def.path)
    && forall k :: k in records ==> !EntryOf(ix.def.path, records[k]).Unindexable?
  }

  /** Everything the checker looks at. */
  ghost predicate Checked(c: Coll) {
    && |c.order| == |c.records|
    && |c.positions| == |c.records|
    && NoDuplicates(c.order)
    && (forall i :: 0 <= i < |c.order| ==> c.order[i] in c.positions)
    && (forall i :: 0 < i < |c.order| ==> c.positions[c.order[i - 1]] < c.positions[c.order[i]])
    && (forall k :: k in c.records ==> k in c.order && KeyMatches(c.schema, k, c.records[k]))
    && forall i :: 0 <= i < |c.indexes| ==> Rebuilt(c.indexes[i], c.records)
  }

  /** What the invariant says beyond the checker: uniqueness, the next position, and that the
      documents and index definitions are the schema's. */
  ghost predicate Unchecked(c: Coll) {
    && (forall i :: 0 <= i < |c.indexes| && c.indexes[i].def.unique ==> AtMostOne(c.indexes[i].buckets))
    && (forall i :: 0 <= i < |c.order| && c.order[i] in c.positions ==> c.positions[c.order[i]] < c.nextPosition)
    && (forall k :: k in c.records ==>
          c.records[k].Obj? && c.schema.admits(c.records[k]) && c.schema.validates(c.records[k]))
    && |c.indexes| == |c.schema.indexes|
    && forall i :: 0 <= i < |c.indexes| ==> c.indexes[i].def == c.schema.indexes[i]
  }

  function Elements(s: seq<Text>): (r: set<Text>)
    ensures forall x :: x in r <==> x in s
  {
    set x | x in s
  }

  lemma {:induction false} DistinctCount(s: seq<Text>)
    ensures |Elements(s)| <= |s|
    ensures |Elements(s)| == |s| <==> NoDuplicates(s)
  {
    if s != [] {
      var init, last := s[..|s| - 1], s[|s| - 1];
      DistinctCount(init);
      assert s == init + [last];
      assert Elements(s) == Elements(init) + {last};
      if last in init {
        assert Elements(s) == Elements(init);
        var i :| 0 <= i < |init| && init[i] == last;
        assert s[i] == s[|s| - 1];
      } else {
        assert forall i :: 0 <= i < |init| ==> s[i] == init[i] && init[i] in init;
        assert NoDuplicates(init) ==> NoDuplicates(s);
        assert NoDuplicates(s) ==> NoDuplicates(init);
      }
    }
  }

  /** The rebuilding loop for one index. */
  method Rebuild(path: Path, records: map<Text, Json>) returns (expected: Option<Buckets>)
    ensures expected.Some? <==> forall k :: k in records ==> !EntryOf(path, records[k]).Unindexable?
    ensures expected.Some? ==> Exact(expected.value, records, path)
  {
    var buckets: Buckets := map[];
    ghost var seen: map<Text, Json> := map[];
    var todo := records.Keys;
    while todo != {}
      invariant todo <= records.Keys
      invariant seen.Keys == records.Keys - todo
      invariant forall k :: k in seen ==> seen[k] == records[k] && !EntryOf(path, records[k]).Unindexable?
      invariant Exact(buckets, seen, path)
      decreases todo
    {
      var k :| k in todo;
      var entry := EntryOf(path, records[k]);
      if entry.Unindexable? { return None; }
      AddKeepsExact(buckets, seen, path, k, records[k]);
      buckets := AddOne(buckets, k, entry);
      seen := seen[k := records[k]];
      todo := todo - {k};
    }
    assert seen == records;
    return Some(buckets);
  }

  /** The comparison loop: same number of buckets, and each expected one present with the same
      size and members. */
  method SameBuckets(expected: Buckets, actual: Buckets) returns (same: bool)
    ensures same <==> expected == actual
  {
    if |expected| != |actual| { return false; }
    var todo := expected.Keys;
    while todo != {}
      invariant todo <= expected.Keys
      invariant forall e :: e in expected && e !in todo ==> e in actual && actual[e] == expected[e]
      decreases todo
    {
      var e :| e in todo;
      if e !in actual || |actual[e]| != |expected[e]| || exists k :: k in expected[e] && k !in actual[e] {
        return false;
      }
      SameSize(expected[e], actual[e]);
      todo := todo - {e};
    }
    SameSize(expected.Keys, actual.Keys);
    return true;
  }

  lemma SameSize<T>(a: set<T>, b: set<T>)
    requires a <= b && |a| == |b|
    ensures a == b
  {
    assert b == a + (b - a);
    assert |b - a| == 0;
  }

  method OrderHolds(c: Coll) returns (ok: bool)
    ensures ok <==>
      && NoDuplicates(c.order)
      && (forall i :: 0 <= i < |c.order| ==> c.order[i] in c.positions)
      && (forall i :: 0 < i < |c.order| ==> c.positions[c.order[i - 1]] < c.positions[c.order[i]])
  {
    DistinctCount(c.order);
    if |Elements(c.order)| != |c.order| { return false; }
    for i := 0 to |c.order|
      invariant forall j :: 0 <= j < i ==> c.order[j] in c.positions
      invariant forall j :: 0 < j < i ==> c.positions[c.order[j - 1]] < c.positions[c.order[j]]
    {
      if c.order[i] !in c.positions { return false; }
      if i > 0 && c.positions[c.order[i - 1]] >= c.positions[c.order[i]] { return false; }
    }
    return true;
  }

  /** `assertCollectionInvariant`: accepts exactly the collections that satisfy `Checked`. */
  method AssertInvariant(c: Coll) returns (ok: bool)
    ensures ok <==> Checked(c)
  {
    if |c.order| != |c.records| || |c.positions| != |c.records| { return false; }
    var ordered := OrderHolds(c);
    if !ordered { return false; }
    if exists k :: k in c.records && (k !in c.order || !KeyMatches(c.schema, k, c.records[k])) { return false; }
    for i := 0 to |c.indexes|
      invariant forall j :: 0 <= j < i ==> Rebuilt(c.indexes[j], c.records)
    {
      var ix := c.indexes[i];
      var expected := Rebuild(ix.def.path, c.records);
      if expected.None? { return false; }
      var same := SameBuckets(expected.value, ix.buckets);
      if !same {
        if Rebuilt(ix, c.records) { ExactIsUnique(expected.value, ix.buckets, c.records, ix.def.path); }
        return false;
      }
    }
    return true;
  }

  lemma {:induction false} RisingRanks(order: seq<Text>, positions: map<Text, int>, i: nat, j: nat)
    requires forall i :: 0 <= i < |order| ==> order[i] in positions
    requires forall i :: 0 < i < |order| ==> positions[order[i - 1]] < positions[order[i]]
    requires i < j < |order|
    ensures positions[order[i]] < positions[order[j]]
  {
    if i + 1 < j { RisingRanks(order, positions, i, j - 1); }
  }

  lemma KeysCounted(order: seq<Text>, keys: set<Text>)
    requires NoDuplicates(order) && |order| == |keys|
    requires forall k :: k in keys ==> k in order
    ensures Elements(order) == keys
  {
    DistinctCount(order);
    SameSize(keys, Elements(order));
  }

  /** The checker together with what it leaves out is exactly the invariant; in particular a
      valid collection never fails it. */
  lemma CheckedIsMostOfValid(c: Coll)
    ensures Valid(c) <==> Checked(c) && Unchecked(c)
  {
    if Valid(c) { ValidIsChecked(c); }
    if Checked(c) && Unchecked(c) { CheckedIsValid(c); }
  }

  lemma ValidIsChecked(c: Coll)
    requires Valid(c)
    ensures Checked(c) && Unchecked(c)
  {
    DistinctCount(c.order);
    assert Elements(c.order) == c.records.Keys;
    assert |c.records.Keys| == |c.records| && |c.positions.Keys| == |c.positions|;
    forall k | k in c.records
      ensures KeyMatches(c.schema, k, c.records[k]) && c.schema.admits(c.records[k])
    {
      assert Storable(c.schema, k, c.records[k]);
    }
    forall i | 0 <= i < |c.indexes|
      ensures Rebuilt(c.indexes[i], c.records)
    {
      forall k | k in c.records
        ensures !EntryOf(c.indexes[i].def.path, c.records[k]).Unindexable?
      {
        assert Storable(c.schema, k, c.records[k]);
      }
    }
  }

  lemma CheckedIsValid(c: Coll)
    requires Checked(c) && Unchecked(c)
    ensures Valid(c)
  {
    KeysCounted(c.order, c.records.Keys);
    assert Elements(c.order) <= c.positions.Keys;
    SameSize(Elements(c.order), c.positions.Keys);
    assert Lists(c.order, c.records.Keys) by {
      assert forall i :: 0 <= i < |c.order| ==> c.order[i] in Elements(c.order);
    }
    assert Ranks(c.order, c.positions, c.nextPosition) by {
      forall i, j | 0 <= i < j < |c.order|
        ensures c.positions[c.order[i]] < c.positions[c.order[j]]
      {
        RisingRanks(c.order, c.positions, i, j);
      }
    }
    forall k | k in c.records
      ensures Storable(c.schema, k, c.records[k])
    {
      forall i | 0 <= i < |c.schema.indexes|
        ensures !EntryOf(c.schema.indexes[i].path, c.records[k]).Unindexable?
      {
        assert Rebuilt(c.indexes[i], c.records);
      }
    }
    forall i | 0 <= i < |c.indexes|
      ensures IndexOk(c.indexes[i], c.records)
    {
      assert Rebuilt(c.indexes[i], c.records);
    }
  }
}
