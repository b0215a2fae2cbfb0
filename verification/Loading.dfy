/** Which lists of documents load: exactly those that a sequence of insertions would take. */
module Loading {
  import opened Texts
  import opened Json
  import opened Keys
  import opened Paths
  import opened Collections
  import opened Operations
  import opened Reload

  /** A document that the schema takes by itself: within the limits, past the validator, with a
      usable key, and with nothing but primitives where indexes look. */
  predicate Takes(schema: Schema, doc: Json) {
    && Admitted(schema, doc) && schema.validates(doc)
    && DocumentKey(doc, schema.primaryKey).Some?
    && forall i :: 0 <= i < |schema.indexes| ==> !Unfit(schema.indexes[i], doc)
  }

  predicate SameValue(def: IndexDef, a: Json, b: Json) {
    def.unique && ReadPath(a, def.path).Some? && ReadPath(a, def.path) == ReadPath(b, def.path)
  }

  /** Two documents that cannot both be there: one key, or one value in a unique index. */
  predicate Clash(schema: Schema, a: Json, b: Json) {
    || DocumentKey(a, schema.primaryKey) == DocumentKey(b, schema.primaryKey)
    || exists i :: 0 <= i < |schema.indexes| && SameValue(schema.indexes[i], a, b)
  }

  predicate Loadable(schema: Schema, docs: seq<Json>) {
    && (forall i :: 0 <= i < |docs| ==> Takes(schema, docs[i]))
    && forall i, j :: 0 <= i < j < |docs| ==> !Clash(schema, docs[i], docs[j])
  }

  /** A collection that holds just these documents, in this order. */
  ghost predicate HoldsAll(c: Coll, docs: seq<Json>) {
    && Valid(c) && |c.order| == |docs|
    && forall i :: 0 <= i < |docs| ==> c.order[i] in c.records && c.records[c.order[i]] == docs[i]
  }

  lemma HeldKey(c: Coll, docs: seq<Json>, i: nat, key: PrimaryKey)
    requires HoldsAll(c, docs) && i < |docs| && EncodeKey(key).Some?
    ensures DocumentKey(docs[i], c.schema.primaryKey) == Some(key) <==> EncodeKey(key) == Some(c.order[i])
  {
    hide EncodeKey, OrderOk, IndexesOk;
    assert Storable(c.schema, c.order[i], docs[i]);
    var held := DocumentKey(docs[i], c.schema.primaryKey).value;
    if EncodeKey(key) == EncodeKey(held) { EncodeKeyInjective(key, held); }
  }

  lemma HeldAt(c: Coll, docs: seq<Json>, k: Text) returns (i: nat)
    requires HoldsAll(c, docs) && k in c.records
    ensures i < |docs| && c.order[i] == k && c.records[k] == docs[i]
  {
    hide RecordsOk, IndexesOk;
    assert k in c.order;
    i :| 0 <= i < |c.order| && c.order[i] == k;
  }

  lemma KeyFree(c: Coll, docs: seq<Json>, key: PrimaryKey)
    requires HoldsAll(c, docs) && EncodeKey(key).Some?
    ensures EncodeKey(key).value in c.records <==>
              exists i :: 0 <= i < |docs| && DocumentKey(docs[i], c.schema.primaryKey) == Some(key)
  {
    hide HoldsAll, EncodeKey, DocumentKey;
    if EncodeKey(key).value in c.records {
      var i := HeldAt(c, docs, EncodeKey(key).value);
      HeldKey(c, docs, i, key);
    }
    forall i | 0 <= i < |docs| && DocumentKey(docs[i], c.schema.primaryKey) == Some(key)
      ensures EncodeKey(key).value in c.records
    {
      HeldKey(c, docs, i, key);
      HeldIn(c, docs, i);
    }
  }

  lemma HeldIn(c: Coll, docs: seq<Json>, i: nat)
    requires HoldsAll(c, docs) && i < |docs|
    ensures i < |c.order| && c.order[i] in c.records && c.records[c.order[i]] == docs[i]
  {
  }

  lemma ValueFree(c: Coll, docs: seq<Json>, def: IndexDef, doc: Json)
    requires HoldsAll(c, docs)
    ensures Taken(def, c.records, doc) <==> exists i :: 0 <= i < |docs| && SameValue(def, docs[i], doc)
  {
    hide HoldsAll, ReadPath;
    if Taken(def, c.records, doc) {
      var k :| k in c.records && ReadPath(c.records[k], def.path) == ReadPath(doc, def.path);
      var i := HeldAt(c, docs, k);
      assert SameValue(def, docs[i], doc);
    }
    forall i | 0 <= i < |docs| && SameValue(def, docs[i], doc)
      ensures Taken(def, c.records, doc)
    {
      HeldIn(c, docs, i);
    }
  }

  /** What the indexes of a collection have against one more document. */
  lemma IndexesAllow(c: Coll, slot: Text, doc: Json)
    requires Valid(c) && slot !in c.records
    ensures AddError(c.indexes, slot, doc).None? <==>
              forall i :: 0 <= i < |c.schema.indexes| ==>
                !Unfit(c.schema.indexes[i], doc) && !Taken(c.schema.indexes[i], c.records, doc)
  {
    hide RecordsOk, OrderOk, AddingError, Unfit, Taken, IndexOk, AddError;
    assert |c.indexes| == |c.schema.indexes|;
    forall i | 0 <= i < |c.indexes|
      ensures AddingError(c.indexes[i], slot, doc).None? <==>
                !Unfit(c.schema.indexes[i], doc) && !Taken(c.schema.indexes[i], c.records, doc)
    {
      assert IndexOk(c.indexes[i], c.records) && c.indexes[i].def == c.schema.indexes[i];
      AddingFailsExactly(c.indexes[i], c.records, slot, doc);
    }
  }

  /** One more document loads exactly when the schema takes it and it clashes with none before it. */
  lemma OneLoads(c: Coll, docs: seq<Json>, doc: Json)
    requires HoldsAll(c, docs)
    ensures LoadOne(c, doc).Ok? <==>
              Takes(c.schema, doc) && forall i :: 0 <= i < |docs| ==> !Clash(c.schema, docs[i], doc)
  {
    hide HoldsAll, EncodeKey, DocumentKey, SameValue, Unfit, Taken, AddError, AddAll, Valid;
    if Validate(c.schema, doc).Ok? {
      var key := Validate(c.schema, doc).value;
      var slot := EncodeKey(key).value;
      KeyFree(c, docs, key);
      if slot !in c.records {
        HoldsValid(c, docs);
        IndexesAllow(c, slot, doc);
        forall i | 0 <= i < |c.schema.indexes| { ValueFree(c, docs, c.schema.indexes[i], doc); }
        ClashesByValue(c.schema, docs, doc);
      } else {
        var i :| 0 <= i < |docs| && DocumentKey(docs[i], c.schema.primaryKey) == Some(key);
        assert Clash(c.schema, docs[i], doc);
      }
    }
  }

  lemma HoldsValid(c: Coll, docs: seq<Json>)
    requires HoldsAll(c, docs)
    ensures Valid(c)
  {
  }

  lemma ClashesByValue(schema: Schema, docs: seq<Json>, doc: Json)
    requires forall i :: 0 <= i < |docs| ==>
               DocumentKey(docs[i], schema.primaryKey) != DocumentKey(doc, schema.primaryKey)
    ensures (forall i :: 0 <= i < |docs| ==> !Clash(schema, docs[i], doc)) <==>
            forall n :: 0 <= n < |schema.indexes| ==>
              !exists i :: 0 <= i < |docs| && SameValue(schema.indexes[n], docs[i], doc)
  {
    hide SameValue, DocumentKey;
    if n, i :| 0 <= n < |schema.indexes| && 0 <= i < |docs| && SameValue(schema.indexes[n], docs[i], doc) {
      assert Clash(schema, docs[i], doc);
    }
  }

  /** A list of documents loads exactly when the index definitions are in order, the schema takes
      each document, and no two of them clash. */
  lemma {:induction false} LoadsExactly(schema: Schema, docs: seq<Json>, revision: int)
    ensures Load(schema, docs, revision).Ok? <==> IndexesNamed(schema.indexes) && Loadable(schema, docs)
    decreases |docs|
  {
    hide LoadOne, Takes, Clash, IndexesNamed, HoldsAll;
    if docs != [] {
      var init, doc := docs[..|docs| - 1], docs[|docs| - 1];
      LoadsExactly(schema, init, revision);
      if Load(schema, init, revision).Ok? {
        LoadedHolds(schema, init, revision);
        OneLoads(Load(schema, init, revision).value, init, doc);
      }
      assert docs == init + [doc];
      LoadableNext(schema, init, doc);
    }
  }

  lemma LoadedHolds(schema: Schema, docs: seq<Json>, revision: int)
    requires Load(schema, docs, revision).Ok?
    ensures var c := Load(schema, docs, revision).value; HoldsAll(c, docs) && c.schema == schema
  {
    hide Load, Valid;
    LoadedIsValid(schema, docs, revision);
  }

  lemma LoadableNext(schema: Schema, docs: seq<Json>, doc: Json)
    ensures Loadable(schema, docs + [doc]) <==>
              && Loadable(schema, docs) && Takes(schema, doc)
              && forall i :: 0 <= i < |docs| ==> !Clash(schema, docs[i], doc)
  {
    hide Takes, Clash;
    var all := docs + [doc];
    assert all[|docs|] == doc && forall i :: 0 <= i < |docs| ==> all[i] == docs[i];
  }
}
