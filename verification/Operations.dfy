/** What the operations mean to a caller: which record they leave, where it stands in the order,
    when they are refused, and that a transaction reads its own writes. */
module Operations {
  import opened Texts
  import opened Json
  import opened Keys
  import opened Paths
  import opened Collections
  import opened Engine
  import opened Conditions
  import opened Queries
  import Changes

  /** Property names of one object are distinct. */
  ghost predicate DistinctNames(members: seq<Member>) {
    forall i, j :: 0 <= i < j < |members| ==> members[i].name != members[j].name
  }

  lemma {:induction false} NotNamed(members: seq<Member>, name: Text)
    requires forall i :: 0 <= i < |members| ==> members[i].name != name
    ensures Lookup(members, name).None?
  {
    if members != [] { NotNamed(members[1..], name); }
  }

  /** A merged object has the patch's properties, and the others of the base. */
  lemma {:induction false} MergeLookup(base: seq<Member>, patch: seq<Member>, name: Text)
    requires DistinctNames(patch)
    ensures Lookup(Merge(base, patch), name)
         == if Lookup(patch, name).Some? then Lookup(patch, name) else Lookup(base, name)
    decreases |patch|
  {
    if patch != [] {
      var base' := Define(base, patch[0].name, patch[0].value);
      MergeLookup(base', patch[1..], name);
      if patch[0].name == name { NotNamed(patch[1..], name); }
    }
  }

  function NamesOf(members: seq<Member>): (names: seq<Text>)
    ensures |names| == |members| && forall i :: 0 <= i < |members| ==> names[i] == members[i].name
  {
    seq(|members|, i requires 0 <= i < |members| => members[i].name)
  }

  /** The texts that are not among these, in order. */
  function NotAmong(names: seq<Text>, taken: seq<Text>): seq<Text> {
    if names == [] then []
    else (if names[0] in taken then [] else [names[0]]) + NotAmong(names[1..], taken)
  }

  lemma {:induction false} DefineNames(members: seq<Member>, name: Text, value: Json)
    ensures NamesOf(Define(members, name, value))
         == if name in NamesOf(members) then NamesOf(members) else NamesOf(members) + [name]
  {
    hide NamesOf;
    if members == [] {
      NoNames();
      NamesMore(Member(name, value), []);
      assert Define(members, name, value) == [Member(name, value)] + [];
    } else {
      var head, rest := members[0], members[1..];
      assert members == [head] + rest;
      NamesMore(head, rest);
      if head.name == name {
        NamesMore(Member(name, value), rest);
      } else {
        DefineNames(rest, name, value);
        NamesMore(head, Define(rest, name, value));
        Regrouped([head.name], NamesOf(rest), [name]);
      }
    }
  }

  lemma NoNames()
    ensures NamesOf([]) == []
  {
  }

  lemma NamesMore(m: Member, rest: seq<Member>)
    ensures NamesOf([m] + rest) == [m.name] + NamesOf(rest)
    ensures forall name :: name in NamesOf([m] + rest) <==> name == m.name || name in NamesOf(rest)
  {
    assert NamesOf([m] + rest) == [m.name] + NamesOf(rest);
  }

  lemma {:induction false} NotAmongMore(names: seq<Text>, taken: seq<Text>, name: Text)
    requires name !in names
    ensures NotAmong(names, taken + [name]) == NotAmong(names, taken)
  {
    if names != [] {
      assert names[0] in names && forall n :: n in names[1..] ==> n in names;
      NotAmongMore(names[1..], taken, name);
    }
  }

  lemma NotAmongHead(name: Text, names: seq<Text>, taken: seq<Text>)
    ensures NotAmong([name] + names, taken)
         == if name in taken then NotAmong(names, taken) else [name] + NotAmong(names, taken)
  {
    assert ([name] + names)[1..] == names;
  }

  lemma Regrouped(a: seq<Text>, b: seq<Text>, c: seq<Text>)
    ensures (a + b) + c == a + (b + c)
    ensures a + [] == a
  {
  }

  /** Merging keeps the base's properties where they are and puts the patch's new ones after them,
      in the patch's order. */
  lemma {:induction false} MergeNames(base: seq<Member>, patch: seq<Member>)
    requires DistinctNames(patch)
    ensures NamesOf(Merge(base, patch)) == NamesOf(base) + NotAmong(NamesOf(patch), NamesOf(base))
    decreases |patch|
  {
    hide NotAmong, Define;
    if patch == [] {
      assert NotAmong([], NamesOf(base)) == [] by { NotAmongNothing(NamesOf(base)); }
      Regrouped(NamesOf(base), [], []);
    } else {
      var head, rest := patch[0], patch[1..];
      var names, more := NamesOf(base), NotAmong(NamesOf(rest), NamesOf(base));
      assert patch == [head] + rest;
      NamesMore(head, rest);
      DefineNames(base, head.name, head.value);
      MergeNames(Define(base, head.name, head.value), rest);
      NotAmongHead(head.name, NamesOf(rest), names);
      if head.name !in names {
        NotAmongMore(NamesOf(rest), names, head.name);
        Regrouped(names, [head.name], more);
      }
    }
  }

  lemma NotAmongNothing(taken: seq<Text>)
    ensures NotAmong([], taken) == []
  {
  }

  lemma {:induction false} LookupAppend(members: seq<Member>, more: Member, name: Text)
    ensures Lookup(members + [more], name)
         == if Lookup(members, name).Some? then Lookup(members, name)
            else if more.name == name then Some(more.value) else None
  {
    if members == [] {
      assert [] + [more] == [more] && [more][1..] == [];
    } else {
      assert (members + [more])[1..] == members[1..] + [more];
      LookupAppend(members[1..], more, name);
    }
  }

  /** Where a written record stands: an existing one keeps its place, a new one goes last. */
  ghost predicate Placed(c: Coll, e: Effect)
    requires e.Done?
  {
    e.coll.order == if e.slot in c.records then c.order else c.order + [e.slot]
  }

  /** An update that succeeds leaves, under the same key and in the same place, the stored document
      with the patch's properties; a missing record is the one thing it reports as not found. */
  lemma UpdateMeans(c: Coll, key: PrimaryKey, patch: Json, name: Text)
    requires Collections.Valid(c) && (patch.Obj? ==> DistinctNames(patch.members))
    ensures var e := Update(c, key, patch);
            && (e.Done? ==>
                  && patch.Obj? && EncodeKey(key) == Some(e.slot) && e.slot in c.records && e.key == key
                  && e.coll.records.Keys == c.records.Keys && e.slot in e.coll.records
                  && e.after == Some(e.coll.records[e.slot]) && e.before == Some(c.records[e.slot])
                  && e.after.value.Obj? && e.before.value.Obj?
                  && Lookup(e.after.value.members, name)
                     == (if Lookup(patch.members, name).Some? then Lookup(patch.members, name)
                         else Lookup(e.before.value.members, name))
                  && DocumentKey(e.after.value, c.schema.primaryKey) == Some(key)
                  && Placed(c, e))
            && (EncodeKey(key).Some? ==> (e == Failed(c, NotFound) <==> EncodeKey(key).value !in c.records))
  {
    hide Collections.Valid, Reindex, EncodeKey, Merge;
    ApplyKeeps(c, UpdateDoc(key, patch));
    var slot := EncodeKey(key).GetOr([]);
    if EncodeKey(key).Some? && slot in c.records && c.records[slot].Obj? && patch.Obj? {
      MergeLookup(c.records[slot].members, patch.members, name);
      ReindexErrors(c, slot, Some(c.records[slot]), Obj(Merge(c.records[slot].members, patch.members)));
    }
  }

  /** Reindexing reports only what an index can object to. */
  lemma ReindexErrors(c: Coll, slot: Text, before: Option<Json>, doc: Json)
    ensures var error := Reindex(c, slot, before, doc).0;
            error.Some? ==> error.value.NotIndexable? || error.value.DuplicateUnique?
  {
    var cleared := if before.Some? then RemoveAll(c.indexes, slot, before.value) else c.indexes;
    AddErrors(cleared, slot, doc);
  }

  lemma {:induction false} AddErrors(ixs: seq<Index>, key: Text, doc: Json)
    ensures AddError(ixs, key, doc).Some? ==>
              AddError(ixs, key, doc).value.NotIndexable? || AddError(ixs, key, doc).value.DuplicateUnique?
  {
    if ixs != [] { AddErrors(ixs[1..], key, doc); }
  }

  /** An insertion that succeeds stores the input, with the generated key where the input has none
      and the schema generates one; it replaces an existing record only when upserting. */
  lemma InsertMeans(c: Coll, input: Json, generated: Text, upsert: bool, name: Text)
    requires Collections.Valid(c)
    ensures var e := Insert(c, input, generated, upsert);
            e.Done? ==>
              && input.Obj? && e.after.Some? && e.after.value.Obj?
              && e.slot in e.coll.records && e.coll.records[e.slot] == e.after.value
              && e.coll.records.Keys == c.records.Keys + {e.slot}
              && DocumentKey(e.after.value, c.schema.primaryKey) == Some(e.key) && EncodeKey(e.key) == Some(e.slot)
              && (e.generated.Some? <==> c.schema.generates && Lookup(input.members, c.schema.primaryKey).None?)
              && (e.generated.Some? ==> e.key == KStr(generated))
              && (e.generated.None? ==> e.after.value == input)
              && (name != c.schema.primaryKey ==> Lookup(e.after.value.members, name) == Lookup(input.members, name))
              && (e.slot in c.records ==> upsert)
              && Placed(c, e)
  {
    hide Collections.Valid, Reindex, EncodeKey;
    var e := Insert(c, input, generated, upsert);
    if e.Done? && e.generated.Some? {
      var key := Member(c.schema.primaryKey, Str(generated));
      LookupAppend(input.members, key, c.schema.primaryKey);
      LookupAppend(input.members, key, name);
    }
  }

  lemma WithoutOrder(order: seq<Text>, slot: Text, i: nat, j: nat)
    requires NoDuplicates(order) && slot in order && i < j < |order| && order[i] != slot && order[j] != slot
    ensures |Without(order, slot)| == |order| - 1
    ensures exists a, b :: 0 <= a < b < |Without(order, slot)|
                           && Without(order, slot)[a] == order[i] && Without(order, slot)[b] == order[j]
  {
    WithoutFacts(order, slot);
    var at := IndexOf(order, slot);
    var a, b := if i < at then i else i - 1, if j < at then j else j - 1;
    assert Without(order, slot)[a] == order[i] && Without(order, slot)[b] == order[j];
  }

  lemma WithoutLength(order: seq<Text>, slot: Text)
    requires NoDuplicates(order) && slot in order
    ensures |Without(order, slot)| == |order| - 1
  {
    WithoutFacts(order, slot);
  }

  lemma OrderFacts(c: Coll, slot: Text)
    requires Collections.Valid(c) && slot in c.records
    ensures NoDuplicates(c.order) && slot in c.order
  {
  }

  /** A deletion that succeeds removes the one record, and the rest keep their order. */
  lemma DeleteMeans(c: Coll, key: PrimaryKey, i: nat, j: nat)
    requires Collections.Valid(c) && i < j < |c.order|
    ensures var e := Delete(c, key);
            && (e.Done? <==> EncodeKey(key).Some? && EncodeKey(key).value in c.records)
            && (EncodeKey(key).None? ==> e == Failed(c, InvalidKey))
            && (EncodeKey(key).Some? && e.Failed? ==> e == Failed(c, NotFound))
            && (e.Done? ==>
                  && e.key == key && EncodeKey(key) == Some(e.slot)
                  && e.before == Some(c.records[e.slot]) && e.after.None? && e.generated.None?
                  && e.coll.records == c.records - {e.slot} && |e.coll.order| == |c.order| - 1
                  && (c.order[i] != e.slot && c.order[j] != e.slot ==>
                        exists a, b :: 0 <= a < b < |e.coll.order|
                                       && e.coll.order[a] == c.order[i] && e.coll.order[b] == c.order[j]))
  {
    hide EncodeKey, Collections.Valid, NoDuplicates, Without;
    var e := Delete(c, key);
    if e.Done? {
      OrderFacts(c, e.slot);
      WithoutLength(c.order, e.slot);
      if c.order[i] != e.slot && c.order[j] != e.slot { WithoutOrder(c.order, e.slot, i, j); }
    }
  }

  /** An index that a document cannot enter: its value there is an array or an object, or the
      index is unique and another record has that value. */
  ghost predicate Blocks(c: Coll, i: nat, slot: Text, doc: Json)
    requires i < |c.indexes|
  {
    Unfit(c.indexes[i].def, doc) || Taken(c.indexes[i].def, c.records - {slot}, doc)
  }

  predicate Unfit(def: IndexDef, doc: Json) {
    var v := ReadPath(doc, def.path);
    v.Some? && (v.value.Arr? || v.value.Obj?)
  }

  ghost predicate Taken(def: IndexDef, records: map<Text, Json>, doc: Json) {
    && def.unique && ReadPath(doc, def.path).Some?
    && exists k :: k in records && ReadPath(records[k], def.path) == ReadPath(doc, def.path)
  }

  /** Two documents are filed together exactly when they have the same value. */
  lemma FiledTogether(path: Path, a: Json, b: Json)
    requires EntryOf(path, a).At?
    ensures EntryOf(path, b) == EntryOf(path, a) <==> ReadPath(b, path) == ReadPath(a, path)
  {
    hide ReadPath, EncodeIndexValue;
    var x, y := ReadPath(a, path), ReadPath(b, path);
    if y.Some? && IsPrimitive(y.value) && EncodeIndexValue(y.value) == EncodeIndexValue(x.value) {
      EncodeIndexValueInjective(x.value, y.value);
    }
  }

  lemma AddingFailsExactly(ix: Index, records: map<Text, Json>, slot: Text, doc: Json)
    requires IndexOk(ix, records) && slot !in records
    ensures AddingError(ix, slot, doc)
         == if Unfit(ix.def, doc) then Some(NotIndexable)
            else if Taken(ix.def, records, doc) then Some(DuplicateUnique) else None
  {
    hide ReadPath, EncodeIndexValue;
    var path, entry := ix.def.path, EntryOf(ix.def.path, doc);
    if entry.At? && ix.def.unique {
      var e := entry.bucket;
      if e in ix.buckets {
        var k :| k in ix.buckets[e];
        assert Filed(ix.buckets, e, k);
        FiledTogether(path, doc, records[k]);
        assert slot !in ix.buckets[e] by { assert Filed(ix.buckets, e, slot) ==> slot in records; }
      }
      forall k | k in records && ReadPath(records[k], path) == ReadPath(doc, path)
        ensures e in ix.buckets
      {
        FiledTogether(path, doc, records[k]);
        assert Filed(ix.buckets, e, k);
      }
    }
  }

  /** The indexes without the record that is about to be replaced. */
  ghost function ClearedOf(c: Coll, slot: Text): (r: seq<Index>)
    ensures |r| == |c.indexes|
  {
    if slot in c.records then RemoveAll(c.indexes, slot, c.records[slot]) else c.indexes
  }

  /** What an index has against a document, if it blocks it. */
  ghost function Objection(c: Coll, i: nat, slot: Text, doc: Json): Option<Error>
    requires i < |c.indexes|
  {
    if !Blocks(c, i, slot, doc) then None
    else if Unfit(c.indexes[i].def, doc) then Some(NotIndexable) else Some(DuplicateUnique)
  }

  lemma ClearedFailsExactly(c: Coll, slot: Text, doc: Json, i: nat)
    requires Collections.Valid(c) && i < |c.indexes|
    ensures AddingError(ClearedOf(c, slot)[i], slot, doc) == Objection(c, i, slot, doc)
  {
    hide RecordsOk, OrderOk, AddingError, EntryOf, Unfit, Taken;
    var ix := c.indexes[i];
    var rest := c.records - {slot};
    assert IndexOk(ix, c.records);
    if slot in c.records {
      RemoveKeepsIndex(ix, c.records, slot);
      AddingFailsExactly(Removing(ix, slot, c.records[slot]), rest, slot, doc);
    } else {
      assert rest == c.records;
      AddingFailsExactly(ix, rest, slot, doc);
    }
  }

  lemma PutReports(c: Coll, key: PrimaryKey, slot: Text, doc: Json, generated: Option<Text>)
    ensures var e := Put(c, key, slot, doc, generated); var error := AddError(ClearedOf(c, slot), slot, doc);
            (e.Failed? <==> error.Some?) && (e.Failed? ==> Some(e.error) == error)
  {
    hide AddError, AddAll, RemoveAll;
  }

  lemma {:induction false} FirstError(ixs: seq<Index>, key: Text, doc: Json)
    ensures AddError(ixs, key, doc).Some? ==>
              exists i :: && 0 <= i < |ixs| && AddingError(ixs[i], key, doc) == AddError(ixs, key, doc)
                          && forall j :: 0 <= j < i ==> AddingError(ixs[j], key, doc).None?
  {
    hide AddingError;
    if ixs != [] && AddError(ixs, key, doc).Some? {
      if AddingError(ixs[0], key, doc).None? {
        FirstError(ixs[1..], key, doc);
        var i :| && 0 <= i < |ixs[1..]| && AddingError(ixs[1..][i], key, doc) == AddError(ixs[1..], key, doc)
                 && forall j :: 0 <= j < i ==> AddingError(ixs[1..][j], key, doc).None?;
        assert forall j :: 1 <= j < |ixs| ==> ixs[j] == ixs[1..][j - 1];
        assert AddingError(ixs[i + 1], key, doc) == AddError(ixs, key, doc);
      } else {
        assert AddingError(ixs[0], key, doc) == AddError(ixs, key, doc);
      }
    }
  }

  /** Writing a valid document is refused exactly when some index cannot take it, and for what the
      first such index has against it; in particular unique indexes are enforced, and enforced
      against other records only. */
  lemma PutFailsExactly(c: Coll, key: PrimaryKey, slot: Text, doc: Json, generated: Option<Text>)
    requires Collections.Valid(c)
    ensures var e := Put(c, key, slot, doc, generated);
            && (e.Failed? <==> exists i :: 0 <= i < |c.indexes| && Blocks(c, i, slot, doc))
            && (e.Failed? ==>
                  exists i :: && 0 <= i < |c.indexes| && Objection(c, i, slot, doc) == Some(e.error)
                              && forall j :: 0 <= j < i ==> !Blocks(c, j, slot, doc))
  {
    hide Collections.Valid, AddingError, Blocks, ClearedOf, Unfit, Put, AddError;
    var cleared := ClearedOf(c, slot);
    forall i | 0 <= i < |c.indexes|
      ensures AddingError(cleared[i], slot, doc) == Objection(c, i, slot, doc)
      ensures AddingError(cleared[i], slot, doc).Some? <==> Blocks(c, i, slot, doc)
    {
      ClearedFailsExactly(c, slot, doc, i);
    }
    PutReports(c, key, slot, doc, generated);
    FirstError(cleared, slot, doc);
    assert AddError(cleared, slot, doc).None?
        <==> forall i :: 0 <= i < |cleared| ==> AddingError(cleared[i], slot, doc).None?;
  }

  /** No index has anything against the document. */
  ghost predicate Unblocked(c: Coll, slot: Text, doc: Json) {
    forall i :: 0 <= i < |c.indexes| ==> !Blocks(c, i, slot, doc)
  }

  /** The failure is what the first index that the document cannot enter has against it. */
  ghost predicate BlockedWith(c: Coll, slot: Text, doc: Json, e: Effect)
    requires e.Failed?
  {
    exists i :: && 0 <= i < |c.indexes| && Objection(c, i, slot, doc) == Some(e.error)
                && forall j :: 0 <= j < i ==> !Blocks(c, j, slot, doc)
  }

  /** What a record write leaves behind: the one record, its place, and what is reported. */
  ghost predicate Stores(c: Coll, e: Effect, key: PrimaryKey, slot: Text, doc: Json, generated: Option<Text>) {
    && e.Done? && e.key == key && e.slot == slot && e.generated == generated
    && e.before == (if slot in c.records then Some(c.records[slot]) else None) && e.after == Some(doc)
    && e.coll.records == c.records[slot := doc] && Placed(c, e)
    && e.coll.schema == c.schema && e.coll.revision == c.revision
  }

  lemma PutStores(c: Coll, key: PrimaryKey, slot: Text, doc: Json, generated: Option<Text>)
    ensures var e := Put(c, key, slot, doc, generated); e.Done? ==> Stores(c, e, key, slot, doc, generated)
  {
    hide Reindex;
  }

  lemma PutMeans(c: Coll, key: PrimaryKey, slot: Text, doc: Json, generated: Option<Text>)
    requires Collections.Valid(c) && Validate(c.schema, doc) == Ok(key) && EncodeKey(key) == Some(slot)
    ensures var e := Put(c, key, slot, doc, generated);
            && (Unblocked(c, slot, doc) ==> Stores(c, e, key, slot, doc, generated))
            && (!Unblocked(c, slot, doc) ==> e.Failed? && e.coll == c && BlockedWith(c, slot, doc, e))
  {
    hide Collections.Valid, Validate, Put, Stores, Blocks, Objection, EncodeKey;
    PutFailsExactly(c, key, slot, doc, generated);
    PutKeeps(c, key, slot, doc, generated);
    PutStores(c, key, slot, doc, generated);
  }

  lemma BlockedError(c: Coll, slot: Text, doc: Json, e: Effect)
    requires e.Failed? && BlockedWith(c, slot, doc, e)
    ensures e.error.NotIndexable? || e.error.DuplicateUnique?
  {
  }

  predicate Generates(schema: Schema, input: Json) {
    input.Obj? && Lookup(input.members, schema.primaryKey).None? && schema.generates
  }

  /** The document an insertion is about: the input, with the generated key at the end where the
      input has none and the schema generates them. */
  function Prepared(schema: Schema, input: Json, generated: Text): Json {
    if Generates(schema, input) then Obj(input.members + [Member(schema.primaryKey, Str(generated))]) else input
  }

  /** Within the limits a document may have. */
  predicate Admitted(schema: Schema, doc: Json) {
    doc.Obj? && schema.admits(doc)
  }

  /** An insertion succeeds exactly when the input is within its limits and gets a key where it
      needs one, the document is within its own and passes the validator with a usable key, that
      key is free or the call is an upsert, and no index blocks the document. It then stores just
      that document; otherwise it changes nothing and names the first of these that failed. */
  lemma InsertExactly(c: Coll, input: Json, generated: Text, upsert: bool)
    requires Collections.Valid(c)
    ensures var e, schema := Insert(c, input, generated, upsert), c.schema;
            var doc := Prepared(schema, input, generated);
            var prepared := Admitted(schema, input) && (Generates(schema, input) ==> generated != []);
            var passed := prepared && Admitted(schema, doc) && schema.validates(doc);
            var key := DocumentKey(doc, schema.primaryKey);
            var slot := if key.Some? then EncodeKey(key.value).value else [];
            var free := slot !in c.records || upsert;
            && (e.Done? <==> passed && key.Some? && free && Unblocked(c, slot, doc))
            && (e.Done? ==> Stores(c, e, key.value, slot, doc,
                                   if Generates(schema, input) then Some(generated) else None))
            && (e.Failed? ==> e.coll == c)
            && (e == Failed(c, InvalidDocument) <==> !Admitted(schema, input) || (prepared && !Admitted(schema, doc)))
            && (e == Failed(c, InvalidGeneratedKey) <==> Admitted(schema, input) && !prepared)
            && (e == Failed(c, SchemaRejected) <==> prepared && Admitted(schema, doc) && !passed)
            && (e == Failed(c, InvalidKey) <==> passed && key.None?)
            && (e == Failed(c, DuplicateKey) <==> passed && key.Some? && !free)
            && (passed && key.Some? && free && !Unblocked(c, slot, doc) ==> BlockedWith(c, slot, doc, e))
  {
    hide Collections.Valid, Put, EncodeKey, DocumentKey, Stores, Unblocked, BlockedWith;
    var doc := Prepared(c.schema, input, generated);
    var key := DocumentKey(doc, c.schema.primaryKey);
    if Validate(c.schema, doc).Ok? {
      var slot := EncodeKey(key.value).value;
      var given := if Generates(c.schema, input) then Some(generated) else None;
      PutMeans(c, key.value, slot, doc, given);
      StoresIsDone(c, Put(c, key.value, slot, doc, given), key.value, slot, doc, given);
      if !Unblocked(c, slot, doc) { BlockedError(c, slot, doc, Put(c, key.value, slot, doc, given)); }
    }
  }

  lemma StoresIsDone(c: Coll, e: Effect, key: PrimaryKey, slot: Text, doc: Json, generated: Option<Text>)
    ensures Stores(c, e, key, slot, doc, generated) ==> e.Done?
  {
  }

  /** An update succeeds exactly when the key is usable and its record there, the patch is an
      object, the merged document is within the limits and passes the validator under the same
      key, and no index blocks it. Otherwise it changes nothing and names the first that failed. */
  lemma UpdateExactly(c: Coll, key: PrimaryKey, patch: Json)
    requires Collections.Valid(c)
    ensures var e, schema := Update(c, key, patch), c.schema;
            var slot := EncodeKey(key).GetOr([]);
            var found := EncodeKey(key).Some? && slot in c.records;
            var merged := found && patch.Obj? && c.records[slot].Obj?;
            var doc := if merged then Obj(Merge(c.records[slot].members, patch.members)) else patch;
            var passed := merged && Admitted(schema, doc) && schema.validates(doc);
            var key' := DocumentKey(doc, schema.primaryKey);
            && (e.Done? <==> passed && key' == Some(key) && Unblocked(c, slot, doc))
            && (e.Done? ==> Stores(c, e, key, slot, doc, None))
            && (e.Failed? ==> e.coll == c)
            && (e == Failed(c, NotFound) <==> EncodeKey(key).Some? && slot !in c.records)
            && (e == Failed(c, InvalidDocument) <==> found && (!patch.Obj? || !Admitted(schema, doc)))
            && (e == Failed(c, SchemaRejected) <==> merged && Admitted(schema, doc) && !passed)
            && (e == Failed(c, InvalidKey) <==> EncodeKey(key).None? || (passed && key'.None?))
            && (e == Failed(c, ImmutableKey) <==> passed && key'.Some? && key'.value != key)
            && (passed && key' == Some(key) && !Unblocked(c, slot, doc) ==> BlockedWith(c, slot, doc, e))
  {
    hide Collections.Valid, Put, EncodeKey, DocumentKey, Stores, Unblocked, BlockedWith, Merge;
    var slot := EncodeKey(key).GetOr([]);
    if EncodeKey(key).Some? && slot in c.records {
      StoredIsObject(c, slot);
      if patch.Obj? {
        var doc := Obj(Merge(c.records[slot].members, patch.members));
        if Validate(c.schema, doc) == Ok(key) {
          PutMeans(c, key, slot, doc, None);
          StoresIsDone(c, Put(c, key, slot, doc, None), key, slot, doc, None);
          if !Unblocked(c, slot, doc) { BlockedError(c, slot, doc, Put(c, key, slot, doc, None)); }
        }
      }
    }
  }

  lemma StoredIsObject(c: Coll, slot: Text)
    requires Collections.Valid(c) && slot in c.records
    ensures c.records[slot].Obj?
  {
    assert Storable(c.schema, slot, c.records[slot]);
  }

  /* ---------- inside a transaction ---------- */

  /** A collection that the transaction may look at: it has before, or there is room for one more. */
  predicate Reaches(root: Root, limits: Limits, t: Txn, name: Text) {
    name in root.colls && (name in t.base || |t.base| < limits.maxReadCollections)
  }

  function Barred(root: Root, name: Text): Refusal {
    if name in root.colls then ReadCollectionLimit else UnknownCollection
  }

  /** The transaction with a collection's revision noted, if this is the first it sees of it. */
  function Noted(root: Root, t: Txn, name: Text): Txn
    requires name in root.colls
  {
    t.(base := map[name := root.colls[name].revision] + t.base)
  }

  /** What a transaction has made of a collection, or what is committed if it has not written to it. */
  function OwnOrCommitted(root: Root, t: Txn, name: Text): Coll
    requires name in t.working || name in root.colls
  {
    if name in t.working then t.working[name] else root.colls[name]
  }

  /** A read is refused exactly for a collection out of reach or an unusable key, and otherwise
      answers with the record the transaction itself last wrote, or the committed one. */
  lemma GetExactly(root: Root, limits: Limits, t: Txn, name: Text, key: PrimaryKey)
    ensures !Reaches(root, limits, t, name) ==> DoGet(root, limits, t, name, key) == (t, Refused(Barred(root, name)))
    ensures Reaches(root, limits, t, name) ==>
              DoGet(root, limits, t, name, key)
              == (Noted(root, t, name),
                  match EncodeKey(key)
                  case None => Refused(Rejected(InvalidKey))
                  case Some(slot) =>
                    var records := OwnOrCommitted(root, t, name).records;
                    Record(if slot in records then Some(records[slot]) else None))
  {
    NotedIs(root, t, name);
  }

  lemma NotedIs(root: Root, t: Txn, name: Text)
    ensures name in root.colls ==>
              Noted(root, t, name).base == if name in t.base then t.base else t.base[name := root.colls[name].revision]
  {
    if name in root.colls && name in t.base { assert map[name := root.colls[name].revision] + t.base == t.base; }
  }

  /** A find is refused exactly for a collection out of reach or of too many records, and otherwise
      answers with the records that satisfy the condition, in collection order: those of the
      transaction's own working collection where it has written, the committed ones where not. */
  lemma FindExactly(root: Root, limits: Limits, t: Txn, name: Text, condition: Where)
    requires RootOk(root) && TxnOk(t)
    ensures var (t', reply) := DoFind(root, limits, t, name, condition);
            && (!Reaches(root, limits, t, name) ==> t' == t && reply == Refused(Barred(root, name)))
            && (Reaches(root, limits, t, name) ==>
                  var c := OwnOrCommitted(root, t, name);
                  && t' == Noted(root, t, name)
                  && (reply == Refused(Refusal.CandidateLimit) <==> |c.order| > 100_000)
                  && (|c.order| <= 100_000 ==> reply.Records? && Listing(c, condition, reply.docs)))
  {
    hide Collections.Valid, Engine.Select, Compile, Eval, Listing;
    NotedIs(root, t, name);
    if name in root.colls {
      var c := OwnOrCommitted(root, t, name);
      var test := Compile(condition);
      forall doc ensures test(doc) == Eval(condition, doc) { CompileMeansEval(condition, doc); }
      SelectLists(c, condition, test);
      SelectLength(c.order, c.records, test);
    }
  }

  lemma WritableExactly(root: Root, limits: Limits, t: Txn, name: Text)
    ensures Writable(root, limits, t, name)
         == if name in t.working then Ok(t)
            else if Reaches(root, limits, t, name)
            then Ok(Noted(root, t, name).(working := t.working[name := root.colls[name]]))
            else Err(Barred(root, name))
  {
    NotedIs(root, t, name);
  }

  /** A transaction after one write to one collection. */
  function After(t: Txn, name: Text, e: Effect): Txn {
    t.(working := t.working[name := e.coll],
       changes := t.changes + (if e.Done? then [Change(name, e.key, e.slot, e.before, e.after)] else []),
       generated := t.generated
                    + (if e.Done? && e.generated.Some? then [GeneratedKey(name, e.generated.value)] else []))
  }

  lemma AbsorbExactly(t: Txn, name: Text, e: Effect)
    ensures Absorb(t, name, e)
         == (After(t, name, e), if e.Done? then Reply.Wrote(e.key) else Refused(Rejected(e.error)))
  {
    assert t.changes + [] == t.changes && t.generated + [] == t.generated;
  }

  /** A write is refused exactly past the operation limit, for a collection out of reach, or where
      the collection as the transaction has it refuses it; the attempt counts as an operation
      whatever comes of it. A write that succeeds adds one change and leaves other collections be. */
  lemma MutateExactly(root: Root, limits: Limits, t: Txn, name: Text, write: Write)
    ensures var (t', reply) := DoMutate(root, limits, t, name, write);
            var counted := t.(operations := t.operations + 1);
            var reached := name in t.working || Reaches(root, limits, t, name);
            && (t.operations >= limits.maxOperations ==> t' == counted && reply == Refused(OperationLimit))
            && (t.operations < limits.maxOperations && !reached
                ==> t' == counted && reply == Refused(Barred(root, name)))
            && (t.operations < limits.maxOperations && reached ==>
                  var e := Apply(OwnOrCommitted(root, t, name), write);
                  var noted := if name in t.working then counted else Noted(root, counted, name);
                  && t' == After(noted, name, e)
                  && reply == (if e.Done? then Reply.Wrote(e.key) else Refused(Rejected(e.error))))
  {
    hide Apply, Absorb, Writable, After, Noted;
    var t1 := t.(operations := t.operations + 1);
    WritableExactly(root, limits, t1, name);
    var w := Writable(root, limits, t1, name);
    if w.Ok? && t1.operations <= limits.maxOperations {
      var e := Apply(w.value.working[name], write);
      AbsorbExactly(w.value, name, e);
      if name !in t.working { NotedAfter(root, t1, name, e); }
    }
  }

  lemma NotedAfter(root: Root, t: Txn, name: Text, e: Effect)
    requires name in root.colls
    ensures After(Noted(root, t, name).(working := t.working[name := root.colls[name]]), name, e)
         == After(Noted(root, t, name), name, e)
  {
    assert t.working[name := root.colls[name]][name := e.coll] == t.working[name := e.coll];
  }

  /** A transaction reads what it has written: the record under the key it wrote, in a find every
      record that satisfies the condition with that one change made, and elsewhere what it saw
      before. */
  lemma OwnWritesSeen(root: Root, limits: Limits, t: Txn, name: Text, write: Write, other: PrimaryKey,
                      condition: Where)
    requires RootOk(root) && TxnOk(t) && t.working.Keys <= root.colls.Keys
    ensures var (t', reply) := DoMutate(root, limits, t, name, write);
            reply.Wrote? ==>
              && name in root.colls && name in t'.working && |t'.changes| == |t.changes| + 1
              && var change, c, own := t'.changes[|t.changes|], OwnOrCommitted(root, t, name), t'.working[name];
                 && change.collection == name && change.key == reply.key && EncodeKey(change.key) == Some(change.slot)
                 && change.before == (if change.slot in c.records then Some(c.records[change.slot]) else None)
                 && own.records == (if change.after.Some? then c.records[change.slot := change.after.value]
                                    else c.records - {change.slot})
                 && DoGet(root, limits, t', name, reply.key) == (t', Record(change.after))
                 && (EncodeKey(other).Some? && EncodeKey(other) != EncodeKey(reply.key) ==>
                       var slot := EncodeKey(other).value;
                       DoGet(root, limits, t', name, other).1
                       == Record(if slot in c.records then Some(c.records[slot]) else None))
                 && (|own.order| <= 100_000 ==>
                       var found := DoFind(root, limits, t', name, condition).1;
                       found.Records? && Listing(own, condition, found.docs))
  {
    hide Apply, Collections.Valid, EncodeKey, DoGet, DoFind, DoMutate, Listing;
    var (t', reply) := DoMutate(root, limits, t, name, write);
    MutateKeeps(root, limits, t, name, write);
    MutateExactly(root, limits, t, name, write);
    if reply.Wrote? {
      Changes.ApplyExplained(OwnOrCommitted(root, t, name), write);
      NotedIs(root, t, name);
      GetExactly(root, limits, t', name, reply.key);
      GetExactly(root, limits, t', name, other);
      FindExactly(root, limits, t', name, condition);
      NotedIs(root, t', name);
    }
  }
}
