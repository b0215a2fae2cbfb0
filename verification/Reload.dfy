/** Building a collection from documents, snapshotting one, and the round trip between them. */
module Reload {
  import opened Texts
  import opened Json
  import opened Keys
  import opened Paths
  import opened Collections

  /* ---------- building ---------- */

  predicate IndexesNamed(defs: seq<IndexDef>) {
    && (forall i :: 0 <= i < |defs| ==> defs[i].name != [] && ValidPath(defs[i].path, DEFAULT_MAX_TOKENS))
    && forall i, j :: 0 <= i < j < |defs| ==> defs[i].name != defs[j].name
  }

  function Empty(schema: Schema, revision: int): Coll {
    Coll(map[], [], map[], 0,
         seq(|schema.indexes|, i requires 0 <= i < |schema.indexes| => Index(schema.indexes[i], map[])),
         revision, schema)
  }

  /** One round of the building loop. */
  function LoadOne(c: Coll, doc: Json): Result<Coll, Error> {
    match Validate(c.schema, doc)
    case Err(error) => Err(error)
    case Ok(key) =>
      var slot := EncodeKey(key).GetOr([]);
      if slot in c.records then Err(DuplicateKey)
      else
        var error := AddError(c.indexes, slot, doc);
        if error.Some? then Err(error.value) else Ok(Stored(c, slot, doc, AddAll(c.indexes, slot, doc)))
  }

  function Load(schema: Schema, docs: seq<Json>, revision: int): Result<Coll, Error>
    decreases |docs|
  {
    if docs == [] then
      if IndexesNamed(schema.indexes) then Ok(Empty(schema, revision)) else Err(InvalidIndex)
    else
      match Load(schema, docs[..|docs| - 1], revision)
      case Err(error) => Err(error)
      case Ok(c) => LoadOne(c, docs[|docs| - 1])
  }

  lemma {:induction false} LoadFailsEarly(schema: Schema, docs: seq<Json>, revision: int, n: nat)
    requires n <= |docs| && Load(schema, docs[..n], revision).Err?
    ensures Load(schema, docs, revision) == Load(schema, docs[..n], revision)
    decreases |docs|
  {
    if n < |docs| {
      assert docs[..|docs| - 1][..n] == docs[..n];
      LoadFailsEarly(schema, docs[..|docs| - 1], revision, n);
    } else {
      assert docs[..n] == docs;
    }
  }

  /** `createIndexes`. */
  method CreateIndexes(defs: seq<IndexDef>) returns (r: Option<seq<Index>>)
    ensures r.Some? <==> IndexesNamed(defs)
    ensures r.Some? ==> r.value == seq(|defs|, i requires 0 <= i < |defs| => Index(defs[i], map[]))
  {
    var indexes: seq<Index> := [];
    for i := 0 to |defs|
      invariant |indexes| == i && forall j :: 0 <= j < i ==> indexes[j] == Index(defs[j], map[])
      invariant forall j :: 0 <= j < i ==> defs[j].name != [] && ValidPath(defs[j].path, DEFAULT_MAX_TOKENS)
      invariant forall j, k :: 0 <= j < k < i ==> defs[j].name != defs[k].name
    {
      if defs[i].name == [] || exists j :: 0 <= j < |indexes| && indexes[j].def.name == defs[i].name {
        return None;
      }
      var path := ValidatePath(defs[i].path, DEFAULT_MAX_TOKENS);
      if path.None? { return None; }
      indexes := indexes + [Index(defs[i], map[])];
    }
    return Some(indexes);
  }

  /** `createStoredCollection`: the maps, the order and the indexes grow together in one loop. */
  method CreateStoredCollection(schema: Schema, docs: seq<Json>, revision: int) returns (r: Result<Coll, Error>)
    ensures r == Load(schema, docs, revision)
  {
    var created := CreateIndexes(schema.indexes);
    if created.None? {
      LoadFailsEarly(schema, docs, revision, 0);
      return Err(InvalidIndex);
    }
    var records: map<Text, Json>, order: seq<Text>, positions: map<Text, int> := map[], [], map[];
    var indexes := created.value;
    assert docs[..0] == [] && indexes == Empty(schema, revision).indexes;
    for i := 0 to |docs|
      invariant |order| == i
      invariant Load(schema, docs[..i], revision) == Ok(Coll(records, order, positions, i, indexes, revision, schema))
    {
      var doc := docs[i];
      assert docs[..i + 1][..i] == docs[..i];
      var validated := Validate(schema, doc);
      if validated.Err? {
        LoadFailsEarly(schema, docs, revision, i + 1);
        return Err(validated.error);
      }
      var slot := EncodeKey(validated.value).GetOr([]);
      if slot in records {
        LoadFailsEarly(schema, docs, revision, i + 1);
        return Err(DuplicateKey);
      }
      records := records[slot := doc];
      positions := positions[slot := |order|];
      order := order + [slot];
      var error := AddError(indexes, slot, doc);
      if error.Some? {
        LoadFailsEarly(schema, docs, revision, i + 1);
        return Err(error.value);
      }
      indexes := AddAll(indexes, slot, doc);
    }
    assert docs[..|docs|] == docs;
    return Ok(Coll(records, order, positions, |order|, indexes, revision, schema));
  }

  /* ---------- what is built ---------- */

  lemma EmptyValid(schema: Schema, revision: int)
    ensures Valid(Empty(schema, revision))
  {
  }

  lemma LoadOneKeeps(c: Coll, doc: Json)
    requires Valid(c) && LoadOne(c, doc).Ok?
    ensures Valid(LoadOne(c, doc).value)
  {
    var key := Validate(c.schema, doc).value;
    PutKeeps(c, key, EncodeKey(key).value, doc, None);
  }

  /** Whatever loads is a valid collection, numbered from zero, holding the documents in order. */
  lemma {:induction false} LoadedIsValid(schema: Schema, docs: seq<Json>, revision: int)
    requires Load(schema, docs, revision).Ok?
    ensures var c := Load(schema, docs, revision).value;
            && Valid(c)
            && c.schema == schema && c.revision == revision
            && |c.order| == |docs| == c.nextPosition
            && forall i :: 0 <= i < |docs| ==>
                 c.order[i] in c.records && c.records[c.order[i]] == docs[i]
                 && c.order[i] in c.positions && c.positions[c.order[i]] == i
    decreases |docs|
  {
    hide Valid, Validate, AddError, AddAll;
    if docs == [] {
      EmptyValid(schema, revision);
    } else {
      var init := docs[..|docs| - 1];
      LoadedIsValid(schema, init, revision);
      var c := Load(schema, init, revision).value;
      LoadOneKeeps(c, docs[|docs| - 1]);
      assert forall i :: 0 <= i < |init| ==> docs[i] == init[i];
    }
  }

  /* ---------- snapshot and reload ---------- */

  /** The documents of a collection in order: what a snapshot stores. */
  function Snapshot(c: Coll): Option<seq<Json>> {
    if forall i :: 0 <= i < |c.order| ==> c.order[i] in c.records
    then Some(seq(|c.order|, i requires 0 <= i < |c.order| && c.order[i] in c.records => c.records[c.order[i]]))
    else None
  }

  /** `cloneSnapshotCollections` over every collection of a root; it throws on a broken order. */
  method CloneSnapshotCollections(colls: map<Text, Coll>) returns (r: Option<map<Text, seq<Json>>>)
    ensures r.Some? <==> forall n :: n in colls ==> Snapshot(colls[n]).Some?
    ensures r.Some? ==> r.value.Keys == colls.Keys && forall n :: n in colls ==> Snapshot(colls[n]) == Some(r.value[n])
  {
    var output: map<Text, seq<Json>> := map[];
    var todo := colls.Keys;
    while todo != {}
      invariant todo <= colls.Keys && output.Keys == colls.Keys - todo
      invariant forall n :: n in output ==> Snapshot(colls[n]) == Some(output[n])
      decreases todo
    {
      var n :| n in todo;
      var docs: seq<Json> := [];
      var c := colls[n];
      for i := 0 to |c.order|
        invariant |docs| == i
        invariant forall j :: 0 <= j < i ==> c.order[j] in c.records && docs[j] == c.records[c.order[j]]
      {
        if c.order[i] !in c.records { return None; }
        docs := docs + [c.records[c.order[i]]];
      }
      assert docs == Snapshot(c).value;
      output := output[n := docs];
      todo := todo - {n};
    }
    return Some(output);
  }

  /** The first `n` records of a valid collection. */
  ghost function Prefix(c: Coll, n: nat): map<Text, Json>
    requires n <= |c.order| && forall i :: 0 <= i < |c.order| ==> c.order[i] in c.records
  {
    map k | k in c.records && k in c.order[..n] :: c.records[k]
  }

  /** Adding the next record of a valid collection to what has been loaded so far cannot fail. */
  lemma NextLoads(c: Coll, loaded: Coll, n: nat)
    requires Valid(c) && Valid(loaded) && loaded.schema == c.schema && n < |c.order|
    requires loaded.records == Prefix(c, n)
    ensures var slot := c.order[n]; var doc := c.records[slot];
            && (exists key :: Validate(c.schema, doc) == Ok(key) && EncodeKey(key) == Some(slot))
            && slot !in loaded.records
            && AddError(loaded.indexes, slot, doc).None?
  {
    var slot := c.order[n];
    var doc := c.records[slot];
    assert Storable(c.schema, slot, doc);
    assert Validate(c.schema, doc).Ok?;
    assert slot !in c.order[..n];
    forall i | 0 <= i < |loaded.indexes|
      ensures AddingError(loaded.indexes[i], slot, doc).None?
    {
      var ix := loaded.indexes[i];
      var entry := EntryOf(ix.def.path, doc);
      assert IndexOk(ix, loaded.records) && IndexOk(c.indexes[i], c.records);
      if entry.At? && ix.def.unique && entry.bucket in ix.buckets {
        var k :| k in ix.buckets[entry.bucket];
        assert Filed(ix.buckets, entry.bucket, k);
        OnlyOne(c.indexes[i].buckets, entry.bucket, k, slot);
        assert false;
      }
    }
  }

  lemma NextPrefix(c: Coll, n: nat)
    requires OrderOk(c) && n < |c.order|
    ensures c.order[..n + 1] == c.order[..n] + [c.order[n]]
    ensures Prefix(c, n + 1) == Prefix(c, n)[c.order[n] := c.records[c.order[n]]]
  {
    var longer, shorter := c.order[..n + 1], c.order[..n];
    assert longer == shorter + [c.order[n]];
    assert forall k :: k in longer <==> k in shorter || k == c.order[n];
  }

  lemma LoadStep(c: Coll, loaded: Coll, n: nat)
    requires Valid(c) && Valid(loaded) && loaded.schema == c.schema && n < |c.order|
    requires loaded.records == Prefix(c, n) && loaded.order == c.order[..n]
    ensures var r := LoadOne(loaded, c.records[c.order[n]]);
            r.Ok? && r.value.order == c.order[..n + 1] && r.value.records == Prefix(c, n + 1)
  {
    hide AddError, AddAll, Validate, IndexesOk, RecordsOk;
    NextLoads(c, loaded, n);
    NextPrefix(c, n);
  }

  lemma {:induction false} PrefixLoads(c: Coll, revision: int, n: nat)
    requires Valid(c) && IndexesNamed(c.schema.indexes) && n <= |c.order|
    ensures var r := Load(c.schema, Snapshot(c).value[..n], revision);
            && r.Ok?
            && r.value.order == c.order[..n]
            && r.value.records == Prefix(c, n)
    decreases n
  {
    hide LoadOne;
    var docs := Snapshot(c).value;
    if n > 0 {
      PrefixLoads(c, revision, n - 1);
      assert docs[..n][..n - 1] == docs[..n - 1];
      LoadedIsValid(c.schema, docs[..n - 1], revision);
      LoadStep(c, Load(c.schema, docs[..n - 1], revision).value, n - 1);
      assert docs[..n][n - 1] == c.records[c.order[n - 1]];
    }
  }

  lemma SameIndexes(c: Coll, d: Coll)
    requires Valid(c) && Valid(d) && c.schema == d.schema && c.records == d.records
    ensures c.indexes == d.indexes
  {
    forall i | 0 <= i < |c.indexes|
      ensures c.indexes[i] == d.indexes[i]
    {
      assert IndexOk(c.indexes[i], c.records) && IndexOk(d.indexes[i], c.records);
      ExactIsUnique(c.indexes[i].buckets, d.indexes[i].buckets, c.records, c.indexes[i].def.path);
    }
  }

  /** Snapshotting any valid collection and loading the documents back under the same schema
      succeeds and gives the same records, order and indexes, renumbered from zero. */
  lemma ReloadRoundTrip(c: Coll, revision: int)
    requires Valid(c) && IndexesNamed(c.schema.indexes)
    ensures Snapshot(c).Some?
    ensures var r := Load(c.schema, Snapshot(c).value, revision);
            && r.Ok?
            && Valid(r.value)
            && r.value.records == c.records
            && r.value.order == c.order
            && r.value.indexes == c.indexes
            && r.value.nextPosition == |c.order|
            && forall i :: 0 <= i < |c.order| ==> c.order[i] in r.value.positions && r.value.positions[c.order[i]] == i
  {
    hide Load;
    var docs := Snapshot(c).value;
    PrefixLoads(c, revision, |c.order|);
    assert docs[..|c.order|] == docs && c.order[..|c.order|] == c.order;
    assert Prefix(c, |c.order|) == c.records;
    LoadedIsValid(c.schema, docs, revision);
    SameIndexes(c, Load(c.schema, docs, revision).value);
  }
}
