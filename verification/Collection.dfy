/** One collection as a value: its records, iteration order, positions and secondary indexes,
    the operations on it, and the invariant every operation keeps. */
module Collections {
  import opened Texts
  import opened Json
  import opened Keys
  import opened Paths

  datatype IndexDef = IndexDef(name: Text, path: Path, unique: bool)

  /** `admits` is the bounded JSON clone, `validates` the user's validator; both are
      deterministic and neither re-enters the engine. */
  datatype Schema = Schema(
    primaryKey: Text,
    indexes: seq<IndexDef>,
    generates: bool,
    admits: Json -> bool,
    validates: Json -> bool)

  type Buckets = map<Text, set<Text>>

  datatype Index = Index(def: IndexDef, buckets: Buckets)

  datatype Coll = Coll(
    records: map<Text, Json>,
    order: seq<Text>,
    positions: map<Text, int>,
    nextPosition: int,
    indexes: seq<Index>,
    revision: int,
    schema: Schema)

  datatype Error =
    | InvalidDocument
    | SchemaRejected
    | InvalidKey
    | InvalidGeneratedKey
    | DuplicateKey
    | NotIndexable
    | DuplicateUnique
    | NotFound
    | ImmutableKey
    | InvalidIndex

  /* ---------- index entries ---------- */

  /** Where a document is filed in one index. */
  datatype Entry = Absent | At(bucket: Text) | Unindexable

  function EntryOf(path: Path, doc: Json): Entry {
    match ReadPath(doc, path)
    case None => Absent
    case Some(v) => if IsPrimitive(v) then At(EncodeIndexValue(v)) else Unindexable
  }

  function Bucket(b: Buckets, e: Text): set<Text> {
    if e in b then b[e] else {}
  }

  predicate Filed(b: Buckets, e: Text, key: Text) {
    e in b && key in b[e]
  }

  function AddOne(b: Buckets, key: Text, entry: Entry): Buckets {
    if entry.At? then b[entry.bucket := Bucket(b, entry.bucket) + {key}] else b
  }

  function RemoveOne(b: Buckets, key: Text, entry: Entry): Buckets {
    if entry.At? && entry.bucket in b then
      var rest := b[entry.bucket] - {key};
      if rest == {} then b - {entry.bucket} else b[entry.bucket := rest]
    else b
  }

  function Adding(ix: Index, key: Text, doc: Json): Index {
    ix.(buckets := AddOne(ix.buckets, key, EntryOf(ix.def.path, doc)))
  }

  function Removing(ix: Index, key: Text, doc: Json): Index {
    ix.(buckets := RemoveOne(ix.buckets, key, EntryOf(ix.def.path, doc)))
  }

  /** What adding `key` to one index would throw. */
  function AddingError(ix: Index, key: Text, doc: Json): Option<Error> {
    match EntryOf(ix.def.path, doc)
    case Unindexable => Some(NotIndexable)
    case At(e) => if ix.def.unique && e in ix.buckets && key !in ix.buckets[e] then Some(DuplicateUnique) else None
    case Absent => None
  }

  /** The first error in index order. */
  function AddError(ixs: seq<Index>, key: Text, doc: Json): (error: Option<Error>)
    ensures error.None? <==> forall i :: 0 <= i < |ixs| ==> AddingError(ixs[i], key, doc).None?
  {
    if ixs == [] then None
    else
      var first := AddingError(ixs[0], key, doc);
      assert forall i :: 1 <= i < |ixs| ==> ixs[i] == ixs[1..][i - 1];
      if first.Some? then first else AddError(ixs[1..], key, doc)
  }

  function AddAll(ixs: seq<Index>, key: Text, doc: Json): (r: seq<Index>)
    ensures |r| == |ixs|
    ensures forall i :: 0 <= i < |ixs| ==> r[i] == Adding(ixs[i], key, doc)
  {
    seq(|ixs|, i requires 0 <= i < |ixs| => Adding(ixs[i], key, doc))
  }

  function RemoveAll(ixs: seq<Index>, key: Text, doc: Json): (r: seq<Index>)
    ensures |r| == |ixs|
    ensures forall i :: 0 <= i < |ixs| ==> r[i] == Removing(ixs[i], key, doc)
  {
    seq(|ixs|, i requires 0 <= i < |ixs| => Removing(ixs[i], key, doc))
  }

  /* ---------- the invariant ---------- */

  ghost predicate NoDuplicates<T>(s: seq<T>) {
    forall i, j :: 0 <= i < j < |s| ==> s[i] != s[j]
  }

  /** What every stored document satisfies. */
  ghost predicate Storable(schema: Schema, key: Text, doc: Json) {
    && doc.Obj?
    && schema.admits(doc)
    && schema.validates(doc)
    && DocumentKey(doc, schema.primaryKey).Some?
    && EncodeKey(DocumentKey(doc, schema.primaryKey).value) == Some(key)
    && forall i :: 0 <= i < |schema.indexes| ==> !EntryOf(schema.indexes[i].path, doc).Unindexable?
  }

  ghost predicate RecordsOk(c: Coll) {
    forall k :: k in c.records ==> Storable(c.schema, k, c.records[k])
  }

  /** The order lists each key once. */
  ghost predicate Lists(order: seq<Text>, keys: set<Text>) {
    && NoDuplicates(order)
    && (forall i :: 0 <= i < |order| ==> order[i] in keys)
    && (forall k :: k in keys ==> k in order)
  }

  /** Positions rise along the order and stay below `next`. */
  ghost predicate Ranks(order: seq<Text>, positions: map<Text, int>, next: int) {
    && (forall i :: 0 <= i < |order| ==> order[i] in positions && positions[order[i]] < next)
    && (forall i, j :: 0 <= i < j < |order| ==> positions[order[i]] < positions[order[j]])
  }

  ghost predicate OrderOk(c: Coll) {
    && Lists(c.order, c.records.Keys)
    && c.positions.Keys == c.records.Keys
    && Ranks(c.order, c.positions, c.nextPosition)
  }

  /** An index is exactly the one rebuilt from the records, with no empty bucket. */
  ghost predicate Exact(b: Buckets, records: map<Text, Json>, path: Path) {
    && (forall e :: e in b ==> b[e] != {})
    && (forall e, k :: Filed(b, e, k) ==> k in records && EntryOf(path, records[k]) == At(e))
    && (forall k :: k in records && EntryOf(path, records[k]).At? ==>
          Filed(b, EntryOf(path, records[k]).bucket, k))
  }

  ghost predicate AtMostOne(b: Buckets) {
    forall e, k, k' :: Filed(b, e, k) && Filed(b, e, k') ==> k == k'
  }

  ghost predicate IndexOk(ix: Index, records: map<Text, Json>) {
    Exact(ix.buckets, records, ix.def.path) && (ix.def.unique ==> AtMostOne(ix.buckets))
  }

  ghost predicate AllIndexesOk(ixs: seq<Index>, defs: seq<IndexDef>, records: map<Text, Json>) {
    && |ixs| == |defs|
    && forall i :: 0 <= i < |ixs| ==> ixs[i].def == defs[i] && IndexOk(ixs[i], records)
  }

  ghost predicate IndexesOk(c: Coll) {
    AllIndexesOk(c.indexes, c.schema.indexes, c.records)
  }

  ghost predicate Valid(c: Coll) {
    RecordsOk(c) && OrderOk(c) && IndexesOk(c)
  }

  /* ---------- index lemmas ---------- */

  lemma AddKeepsExact(b: Buckets, records: map<Text, Json>, path: Path, key: Text, doc: Json)
    requires Exact(b, records, path) && key !in records
    requires !EntryOf(path, doc).Unindexable?
    ensures Exact(AddOne(b, key, EntryOf(path, doc)), records[key := doc], path)
  {
    var entry := EntryOf(path, doc);
    var b' := AddOne(b, key, entry);
    var records' := records[key := doc];
    forall e, k | Filed(b', e, k)
      ensures k in records' && EntryOf(path, records'[k]) == At(e)
    {
      assert k == key || Filed(b, e, k);
      assert !Filed(b, e, key);
    }
    forall k | k in records' && EntryOf(path, records'[k]).At?
      ensures Filed(b', EntryOf(path, records'[k]).bucket, k)
    {
      if k != key { assert Filed(b, EntryOf(path, records[k]).bucket, k); }
    }
  }

  lemma RemoveKeepsExact(b: Buckets, records: map<Text, Json>, path: Path, key: Text)
    requires Exact(b, records, path) && key in records
    ensures Exact(RemoveOne(b, key, EntryOf(path, records[key])), records - {key}, path)
  {
    var entry := EntryOf(path, records[key]);
    var b' := RemoveOne(b, key, entry);
    var records' := records - {key};
    forall e, k | Filed(b', e, k)
      ensures k in records' && EntryOf(path, records'[k]) == At(e)
    {
      assert Filed(b, e, k);
    }
    forall k | k in records' && EntryOf(path, records'[k]).At?
      ensures Filed(b', EntryOf(path, records'[k]).bucket, k)
    {
      assert Filed(b, EntryOf(path, records[k]).bucket, k);
    }
  }

  /** The records determine the index. */
  lemma ExactIsUnique(b: Buckets, b': Buckets, records: map<Text, Json>, path: Path)
    requires Exact(b, records, path) && Exact(b', records, path)
    ensures b == b'
  {
    ExactContained(b, b', records, path);
    ExactContained(b', b, records, path);
    assert b.Keys == b'.Keys;
    forall e | e in b
      ensures b[e] == b'[e]
    {
      forall k ensures k in b[e] <==> k in b'[e] {
        assert Filed(b, e, k) <==> Filed(b', e, k);
      }
    }
  }

  lemma ExactContained(b: Buckets, b': Buckets, records: map<Text, Json>, path: Path)
    requires Exact(b, records, path) && Exact(b', records, path)
    ensures forall e, k :: Filed(b, e, k) ==> Filed(b', e, k)
    ensures forall e :: e in b ==> e in b'
  {
    forall e | e in b
      ensures e in b'
    {
      var k :| k in b[e];
      assert Filed(b, e, k);
      assert Filed(b', e, k);
    }
  }

  lemma AddKeepsIndex(ix: Index, records: map<Text, Json>, key: Text, doc: Json)
    requires IndexOk(ix, records) && key !in records
    requires AddingError(ix, key, doc).None?
    ensures IndexOk(Adding(ix, key, doc), records[key := doc])
  {
    var b, path := ix.buckets, ix.def.path;
    AddKeepsExact(b, records, path, key, doc);
    var b' := AddOne(b, key, EntryOf(path, doc));
    if ix.def.unique {
      forall e, k, k' | Filed(b', e, k) && Filed(b', e, k')
        ensures k == k'
      {
        if At(e) == EntryOf(path, doc) {
          if e in b { assert Filed(b, e, key); }
        } else {
          assert Filed(b, e, k) && Filed(b, e, k');
        }
      }
    }
  }

  lemma RemoveKeepsIndex(ix: Index, records: map<Text, Json>, key: Text)
    requires IndexOk(ix, records) && key in records
    ensures IndexOk(Removing(ix, key, records[key]), records - {key})
  {
    RemoveKeepsExact(ix.buckets, records, ix.def.path, key);
    var b' := RemoveOne(ix.buckets, key, EntryOf(ix.def.path, records[key]));
    assert forall e, k :: Filed(b', e, k) ==> Filed(ix.buckets, e, k);
  }

  lemma OnlyOne(b: Buckets, e: Text, k: Text, k': Text)
    requires AtMostOne(b)
    ensures Filed(b, e, k) && Filed(b, e, k') ==> k == k'
  {
  }

  /** Taking a document out of an index and putting it back never fails and changes nothing. */
  lemma PutBack(ix: Index, records: map<Text, Json>, key: Text)
    requires IndexOk(ix, records) && key in records
    requires !EntryOf(ix.def.path, records[key]).Unindexable?
    ensures var removed := Removing(ix, key, records[key]);
            AddingError(removed, key, records[key]).None? && Adding(removed, key, records[key]) == ix
  {
    var entry := EntryOf(ix.def.path, records[key]);
    var removed := RemoveOne(ix.buckets, key, entry);
    RemoveKeepsIndex(ix, records, key);
    if entry.At? && ix.def.unique && entry.bucket in removed {
      var k :| k in removed[entry.bucket];
      OnlyOne(ix.buckets, entry.bucket, k, key);
      assert false;
    }
    AddKeepsExact(removed, records - {key}, ix.def.path, key, records[key]);
    assert (records - {key})[key := records[key]] == records;
    ExactIsUnique(AddOne(removed, key, entry), ix.buckets, records, ix.def.path);
  }

  /* ---------- operations ---------- */

  /** The change record of one successful operation. */
  datatype Change = Change(collection: Text, key: PrimaryKey, slot: Text, before: Option<Json>, after: Option<Json>)

  /** An operation's effect: the collection it leaves and what the caller sees. */
  datatype Effect =
    | Done(coll: Coll, key: PrimaryKey, slot: Text, before: Option<Json>, after: Option<Json>, generated: Option<Text>)
    | Failed(coll: Coll, error: Error)

  /** `validateDocument` followed by `documentKey`. */
  function Validate(schema: Schema, doc: Json): Result<PrimaryKey, Error> {
    if !doc.Obj? || !schema.admits(doc) then Err(InvalidDocument)
    else if !schema.validates(doc) then Err(SchemaRejected)
    else match DocumentKey(doc, schema.primaryKey)
      case Some(key) => Ok(key)
      case None => Err(InvalidKey)
  }

  /** `materializePrimaryKey`: the document to store and the key it was given, if any. */
  function Materialize(schema: Schema, input: Json, generated: Text): Result<(Json, Option<Text>), Error> {
    if !input.Obj? || !schema.admits(input) then Err(InvalidDocument)
    else if Lookup(input.members, schema.primaryKey).Some? || !schema.generates then Ok((input, None))
    else if generated == [] then Err(InvalidGeneratedKey)
    else Ok((Obj(input.members + [Member(schema.primaryKey, Str(generated))]), Some(generated)))
  }

  /** Remove the previous document from the indexes, add the next one; if that throws, put the
      previous one back. The error, if any, and the indexes left behind. */
  function Reindex(c: Coll, slot: Text, before: Option<Json>, doc: Json): (Option<Error>, seq<Index>) {
    var cleared := if before.Some? then RemoveAll(c.indexes, slot, before.value) else c.indexes;
    var error := AddError(cleared, slot, doc);
    if error.None? then (None, AddAll(cleared, slot, doc))
    else (error, if before.Some? then AddAll(cleared, slot, before.value) else cleared)
  }

  /** The record write: an existing slot keeps its place, a new one goes last. */
  function Stored(c: Coll, slot: Text, doc: Json, indexes: seq<Index>): Coll {
    var d := c.(indexes := indexes, records := c.records[slot := doc]);
    if slot in c.records then d
    else d.(order := c.order + [slot], positions := c.positions[slot := c.nextPosition],
            nextPosition := c.nextPosition + 1)
  }

  function Put(c: Coll, key: PrimaryKey, slot: Text, doc: Json, generated: Option<Text>): Effect
  {
    var before := if slot in c.records then Some(c.records[slot]) else None;
    var (error, indexes) := Reindex(c, slot, before, doc);
    if error.Some? then Failed(c.(indexes := indexes), error.value)
    else Done(Stored(c, slot, doc, indexes), key, slot, before, Some(doc), generated)
  }

  function Insert(c: Coll, input: Json, generated: Text, upsert: bool): Effect
  {
    match Materialize(c.schema, input, generated)
    case Err(error) => Failed(c, error)
    case Ok((doc, given)) =>
      match Validate(c.schema, doc)
      case Err(error) => Failed(c, error)
      case Ok(key) =>
        var slot := EncodeKey(key).GetOr([]);
        if slot in c.records && !upsert then Failed(c, DuplicateKey)
        else Put(c, key, slot, doc, given)
  }

  function Update(c: Coll, key: PrimaryKey, patch: Json): Effect
  {
    match EncodeKey(key)
    case None => Failed(c, InvalidKey)
    case Some(slot) =>
      if slot !in c.records then Failed(c, NotFound)
      else if !patch.Obj? || !c.records[slot].Obj? then Failed(c, InvalidDocument)
      else
        var doc := Obj(Merge(c.records[slot].members, patch.members));
        match Validate(c.schema, doc)
        case Err(error) => Failed(c, error)
        case Ok(key') => if key' != key then Failed(c, ImmutableKey) else Put(c, key, slot, doc, None)
  }

  function IndexOf<T(==)>(s: seq<T>, x: T): (i: nat)
    ensures i <= |s| && (i < |s| ==> s[i] == x) && forall j :: 0 <= j < i ==> s[j] != x
  {
    if s == [] || s[0] == x then 0 else 1 + IndexOf(s[1..], x)
  }

  /** `indexOf` and `splice`. */
  function Without<T(==)>(s: seq<T>, x: T): seq<T> {
    var i := IndexOf(s, x);
    if i < |s| then s[..i] + s[i + 1..] else s
  }

  function Delete(c: Coll, key: PrimaryKey): Effect
  {
    match EncodeKey(key)
    case None => Failed(c, InvalidKey)
    case Some(slot) =>
      if slot !in c.records then Failed(c, NotFound)
      else
        Done(c.(indexes := RemoveAll(c.indexes, slot, c.records[slot]),
                records := c.records - {slot},
                positions := c.positions - {slot},
                order := Without(c.order, slot)),
             key, slot, Some(c.records[slot]), None, None)
  }

  datatype Write =
    | InsertDoc(input: Json, generated: Text, upsert: bool)
    | UpdateDoc(key: PrimaryKey, patch: Json)
    | DeleteDoc(key: PrimaryKey)

  function Apply(c: Coll, w: Write): Effect
  {
    match w
    case InsertDoc(input, generated, upsert) => Insert(c, input, generated, upsert)
    case UpdateDoc(key, patch) => Update(c, key, patch)
    case DeleteDoc(key) => Delete(c, key)
  }

  /* ---------- every operation keeps the invariant ---------- */

  lemma RemoveAllKeeps(c: Coll, slot: Text)
    requires IndexesOk(c) && slot in c.records
    ensures AllIndexesOk(RemoveAll(c.indexes, slot, c.records[slot]), c.schema.indexes, c.records - {slot})
  {
    forall i | 0 <= i < |c.indexes|
      ensures IndexOk(Removing(c.indexes[i], slot, c.records[slot]), c.records - {slot})
    {
      RemoveKeepsIndex(c.indexes[i], c.records, slot);
    }
  }

  lemma AddAllKeeps(ixs: seq<Index>, defs: seq<IndexDef>, records: map<Text, Json>, slot: Text, doc: Json)
    requires AllIndexesOk(ixs, defs, records) && slot !in records
    requires AddError(ixs, slot, doc).None?
    ensures AllIndexesOk(AddAll(ixs, slot, doc), defs, records[slot := doc])
    ensures forall i :: 0 <= i < |defs| ==> !EntryOf(defs[i].path, doc).Unindexable?
  {
    forall i | 0 <= i < |ixs|
      ensures IndexOk(Adding(ixs[i], slot, doc), records[slot := doc])
      ensures !EntryOf(defs[i].path, doc).Unindexable?
    {
      assert AddingError(ixs[i], slot, doc).None?;
      AddKeepsIndex(ixs[i], records, slot, doc);
    }
  }

  lemma PutAllBack(c: Coll, slot: Text)
    requires IndexesOk(c) && slot in c.records && Storable(c.schema, slot, c.records[slot])
    ensures var cleared := RemoveAll(c.indexes, slot, c.records[slot]);
            AddError(cleared, slot, c.records[slot]).None? && AddAll(cleared, slot, c.records[slot]) == c.indexes
  {
    var doc := c.records[slot];
    forall i | 0 <= i < |c.indexes|
      ensures var removed := Removing(c.indexes[i], slot, doc);
              AddingError(removed, slot, doc).None? && Adding(removed, slot, doc) == c.indexes[i]
    {
      assert c.indexes[i].def == c.schema.indexes[i];
      PutBack(c.indexes[i], c.records, slot);
    }
    assert AddAll(RemoveAll(c.indexes, slot, doc), slot, doc) == c.indexes;
  }

  /** Reindexing either files exactly the new document or leaves the indexes as they were. */
  lemma ReindexKeeps(c: Coll, slot: Text, doc: Json)
    requires Valid(c)
    ensures var before := if slot in c.records then Some(c.records[slot]) else None;
            var (error, ixs) := Reindex(c, slot, before, doc);
            && (error.Some? ==> ixs == c.indexes)
            && (error.None? ==>
                  && AllIndexesOk(ixs, c.schema.indexes, c.records[slot := doc])
                  && forall i :: 0 <= i < |c.schema.indexes| ==>
                       !EntryOf(c.schema.indexes[i].path, doc).Unindexable?)
  {
    hide AllIndexesOk, OrderOk, RemoveAll, AddAll, AddError;
    var before := if slot in c.records then Some(c.records[slot]) else None;
    var cleared := if before.Some? then RemoveAll(c.indexes, slot, before.value) else c.indexes;
    var rest := c.records - {slot};
    if before.Some? {
      RemoveAllKeeps(c, slot);
      PutAllBack(c, slot);
    } else {
      assert rest == c.records;
    }
    assert rest[slot := doc] == c.records[slot := doc];
    if AddError(cleared, slot, doc).None? { AddAllKeeps(cleared, c.schema.indexes, rest, slot, doc); }
  }

  lemma AppendKeepsOrder(order: seq<Text>, keys: set<Text>, positions: map<Text, int>, next: int, slot: Text)
    requires Lists(order, keys) && Ranks(order, positions, next) && slot !in keys
    ensures Lists(order + [slot], keys + {slot})
    ensures Ranks(order + [slot], positions[slot := next], next + 1)
  {
  }

  lemma PutKeepsRecords(c: Coll, key: PrimaryKey, slot: Text, doc: Json)
    requires RecordsOk(c)
    requires Validate(c.schema, doc) == Ok(key) && EncodeKey(key) == Some(slot)
    requires forall i :: 0 <= i < |c.schema.indexes| ==> !EntryOf(c.schema.indexes[i].path, doc).Unindexable?
    ensures var records := c.records[slot := doc];
            forall k :: k in records ==> Storable(c.schema, k, records[k])
  {
  }

  lemma StoredKeepsOrder(c: Coll, slot: Text, doc: Json, indexes: seq<Index>)
    requires OrderOk(c)
    ensures OrderOk(Stored(c, slot, doc, indexes))
  {
    hide Lists, Ranks;
    var d := Stored(c, slot, doc, indexes);
    if slot in c.records {
      assert d.records.Keys == c.records.Keys;
    } else {
      AppendKeepsOrder(c.order, c.records.Keys, c.positions, c.nextPosition, slot);
      assert d.records.Keys == c.records.Keys + {slot};
      assert d.positions.Keys == c.positions.Keys + {slot};
    }
  }

  lemma PutKeeps(c: Coll, key: PrimaryKey, slot: Text, doc: Json, generated: Option<Text>)
    requires Valid(c)
    requires Validate(c.schema, doc) == Ok(key) && EncodeKey(key) == Some(slot)
    ensures var e := Put(c, key, slot, doc, generated);
            Valid(e.coll) && (e.Failed? ==> e.coll == c)
  {
    ReindexKeeps(c, slot, doc);
    var before := if slot in c.records then Some(c.records[slot]) else None;
    var (error, indexes) := Reindex(c, slot, before, doc);
    if error.None? {
      StoredKeepsOrder(c, slot, doc, indexes);
      PutKeepsRecords(c, key, slot, doc);
    }
  }

  lemma WithoutFacts<T>(s: seq<T>, x: T)
    requires NoDuplicates(s) && x in s
    ensures var r := Without(s, x);
            && |r| == |s| - 1
            && x !in r
            && (forall y :: y in s && y != x ==> y in r)
            && var at := IndexOf(s, x);
               forall i :: 0 <= i < |r| ==> r[i] == s[if i < at then i else i + 1]
  {
    assert IndexOf(s, x) < |s|;
  }

  lemma WithoutKeepsOrder(order: seq<Text>, keys: set<Text>, positions: map<Text, int>, next: int, slot: Text)
    requires Lists(order, keys) && Ranks(order, positions, next) && slot in keys
    ensures Lists(Without(order, slot), keys - {slot})
    ensures Ranks(Without(order, slot), positions - {slot}, next)
  {
    WithoutFacts(order, slot);
    var shorter := Without(order, slot);
    var at := IndexOf(order, slot);
    forall i | 0 <= i < |shorter|
      ensures shorter[i] in keys && shorter[i] != slot && (positions - {slot})[shorter[i]] < next
    {
      assert shorter[i] in shorter;
      assert shorter[i] == order[if i < at then i else i + 1];
    }
    forall i, j | 0 <= i < j < |shorter|
      ensures shorter[i] != shorter[j] && positions[shorter[i]] < positions[shorter[j]]
    {
      assert shorter[i] == order[if i < at then i else i + 1];
      assert shorter[j] == order[if j < at then j else j + 1];
    }
  }

  lemma DeleteKeeps(c: Coll, key: PrimaryKey)
    requires Valid(c)
    ensures Valid(Delete(c, key).coll)
  {
    var e := Delete(c, key);
    if e.Done? {
      RemoveAllKeeps(c, e.slot);
      WithoutKeepsOrder(c.order, c.records.Keys, c.positions, c.nextPosition, e.slot);
      assert e.coll.records.Keys == c.records.Keys - {e.slot};
      assert RecordsOk(e.coll) by {
        forall k | k in e.coll.records
          ensures Storable(e.coll.schema, k, e.coll.records[k])
        {
          assert Storable(c.schema, k, c.records[k]);
        }
      }
    }
  }

  /** Every write, successful or not, keeps the invariant; a failed one changes nothing, even
      where it had already taken the previous document out of the indexes. */
  lemma ApplyKeeps(c: Coll, w: Write)
    requires Valid(c)
    ensures var e := Apply(c, w);
            Valid(e.coll) && (e.Failed? ==> e.coll == c)
  {
    match w
    case InsertDoc(input, generated, upsert) =>
      match Materialize(c.schema, input, generated) {
        case Err(_) =>
        case Ok((doc, given)) =>
          match Validate(c.schema, doc)
          case Err(_) =>
          case Ok(key) => PutKeeps(c, key, EncodeKey(key).value, doc, given);
      }
    case UpdateDoc(key, patch) =>
      if EncodeKey(key).Some? && EncodeKey(key).value in c.records {
        var slot := EncodeKey(key).value;
        if patch.Obj? {
          var doc := Obj(Merge(c.records[slot].members, patch.members));
          if Validate(c.schema, doc) == Ok(key) { PutKeeps(c, key, slot, doc, None); }
        }
      }
    case DeleteDoc(key) => DeleteKeeps(c, key);
  }
}
