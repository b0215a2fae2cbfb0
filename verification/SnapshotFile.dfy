/** The bytes of a stored snapshot: what is written, and what a reader demands of it. The two tests
    differ: a write is limited in bytes only, a read also in values and in the envelope's shape. */
module SnapshotFiles {
  import opened Texts
  import opened Json
  import opened Persistence
  import opened Serializing
  import Scanners
  import S = Sizes
  import C = Cloning

  type Snapshot = Envelope

  /** What goes into a file beside the snapshot itself: the collections in the order of the schema,
      its catalog, and the checksum, a function of the snapshot. */
  datatype Format = Format(names: seq<Text>, catalog: Json, checksum: Snapshot -> Text)

  /** `maxBytes`: the constructor of an adapter refuses anything else. */
  type MaxBytes = n: int | 0 < n <= MAX_SAFE_INTEGER witness 1

  function CollectionMembers(names: seq<Text>, docs: Docs): seq<Member> {
    if names == [] then []
    else [Member(names[0], Arr(if names[0] in docs then docs[names[0]] else []))] + CollectionMembers(names[1..], docs)
  }

  function SnapshotJson(f: Format, s: Snapshot): Json {
    Obj([Member(Ascii("catalog"), f.catalog),
         Member(Ascii("collections"), Obj(CollectionMembers(f.names, s.docs))),
         Member(Ascii("databaseId"), Str(s.databaseId)),
         Member(Ascii("format"), Str(Ascii("newtondb"))),
         Member(Ascii("formatVersion"), Num(1)),
         Member(Ascii("generation"), Num(s.generation)),
         Member(Ascii("revision"), Num(s.revision))])
  }

  function FileJson(f: Format, s: Snapshot): Json {
    Obj([Member(Ascii("checksum"), Str(f.checksum(s))), Member(Ascii("snapshot"), SnapshotJson(f, s))])
  }

  const NEWLINE: Text := ['\n' as int]

  function FileText(f: Format, s: Snapshot): Text {
    S.Stringify(FileJson(f, s)) + NEWLINE
  }

  function FileBytes(f: Format, s: Snapshot): nat {
    S.Utf8Length(FileText(f, s))
  }

  lemma FileBytesAre(f: Format, s: Snapshot)
    ensures FileBytes(f, s) == S.Size(FileJson(f, s)) + 1
  {
    hide S.Stringify, FileJson;
    S.Utf8Append(S.Stringify(FileJson(f, s)), NEWLINE);
    S.OneByte('\n' as int);
  }

  /* ---------- the shape of an envelope ---------- */

  predicate IsCount(v: Option<Json>) {
    v.Some? && v.value.Num? && 0 <= v.value.n <= MAX_SAFE_INTEGER
  }

  predicate IsName(v: Option<Json>) {
    v.Some? && v.value.Str? && v.value.s != []
  }

  predicate IsRecord(v: Option<Json>) {
    v.Some? && v.value.Obj?
  }

  predicate IsCatalogPath(path: seq<Json>) {
    && path != [] && path[0].Str?
    && forall i :: 0 < i < |path| ==> path[i].Str? || (path[i].Num? && 0 <= path[i].n <= MAX_SAFE_INTEGER)
  }

  predicate IsCatalogIndex(v: Json) {
    && v.Obj?
    && IsName(Lookup(v.members, Ascii("name")))
    && Lookup(v.members, Ascii("unique")) in {Some(Bool(false)), Some(Bool(true))}
    && var path := Lookup(v.members, Ascii("path"));
       path.Some? && path.value.Arr? && IsCatalogPath(path.value.items)
  }

  predicate IsCatalogEntry(v: Json) {
    && v.Obj?
    && Lookup(v.members, Ascii("generatedPrimaryKey")) in {Some(Bool(false)), Some(Bool(true))}
    && IsName(Lookup(v.members, Ascii("primaryKey")))
    && var indexes := Lookup(v.members, Ascii("indexes"));
       && indexes.Some? && indexes.value.Arr?
       && forall i :: 0 <= i < |indexes.value.items| ==> IsCatalogIndex(indexes.value.items[i])
  }

  predicate IsCollection(v: Option<Json>) {
    v.Some? && v.value.Arr? && forall i :: 0 <= i < |v.value.items| ==> v.value.items[i].Obj?
  }

  /** `isSnapshotEnvelope`, of a parsed value. */
  predicate IsEnvelope(v: Json) {
    && v.Obj?
    && Lookup(v.members, Ascii("format")) == Some(Str(Ascii("newtondb")))
    && Lookup(v.members, Ascii("formatVersion")) == Some(Num(1))
    && (var id := Lookup(v.members, Ascii("databaseId")); IsName(id) && |id.value.s| <= 256)
    && IsCount(Lookup(v.members, Ascii("generation"))) && IsCount(Lookup(v.members, Ascii("revision")))
    && var catalog, collections := Lookup(v.members, Ascii("catalog")), Lookup(v.members, Ascii("collections"));
       && IsRecord(catalog) && IsRecord(collections)
       && NamesIn(catalog.value.members) == NamesIn(collections.value.members)
       && forall i :: 0 <= i < |catalog.value.members| ==>
            var entry := catalog.value.members[i];
            && entry.name != [] && IsCatalogEntry(entry.value)
            && IsCollection(Lookup(collections.value.members, entry.name))
  }

  /* ---------- the two tests ---------- */

  /** What `store` asks of a snapshot before it writes it. */
  predicate Writable(f: Format, max: MaxBytes, s: Snapshot) {
    FileBytes(f, s) <= max
  }

  /** What `#readSnapshotAt` asks of the file holding it: its size, the scan for duplicate names with
      the scanner's own limits, and the envelope's shape. */
  predicate Readable(f: Format, max: MaxBytes, s: Snapshot) {
    && FileBytes(f, s) <= max
    && Scanners.ReadDocument(FileText(f, s)).Ok?
    && IsEnvelope(SnapshotJson(f, s))
  }

  /** What is read back must be within the write limit, and besides: at most a million values, nested at
      most 128 deep, in an envelope of the right shape. A caller can tell before storing. */
  lemma ReadableExactly(f: Format, max: MaxBytes, s: Snapshot)
    requires UniqueNames(FileJson(f, s))
    ensures Readable(f, max, s) <==>
              && Writable(f, max, s)
              && C.Count(FileJson(f, s)) <= Scanners.MAX_NODES && C.Depth(FileJson(f, s)) <= Scanners.MAX_DEPTH
              && IsEnvelope(SnapshotJson(f, s))
  {
    hide IsEnvelope, Scanners.ReadDocument, S.Stringify, C.Count, C.Depth, FileJson, SnapshotJson, FileBytes;
    SerializedAccepted(FileJson(f, s), NEWLINE);
  }

  /* ---------- counting ---------- */

  lemma {:induction false} CollectionCounts(names: seq<Text>, docs: Docs, name: Text)
    requires name in names && name in docs
    ensures C.CountMembers(CollectionMembers(names, docs)) > C.CountItems(docs[name])
  {
    hide C.Count, C.CountItems;
    var members := CollectionMembers(names, docs);
    CountOfMembers(members);
    if names[0] == name {
      CountOfArray(docs[name]);
    } else {
      CollectionCounts(names[1..], docs, name);
    }
    assert members[1..] == CollectionMembers(names[1..], docs);
  }

  lemma CountOfMembers(members: seq<Member>)
    requires members != []
    ensures C.CountMembers(members) == C.Count(members[0].value) + C.CountMembers(members[1..])
  {
  }

  lemma CountOfArray(items: seq<Json>)
    ensures C.Count(Arr(items)) == 1 + C.CountItems(items)
  {
  }

  lemma {:induction false} CountAtLeast(members: seq<Member>, i: nat)
    requires i < |members|
    ensures C.CountMembers(members) >= C.Count(members[i].value)
  {
    hide C.Count;
    if i > 0 { CountAtLeast(members[1..], i - 1); }
  }

  /** A file holds more values than any collection in it. */
  lemma FileCounts(f: Format, s: Snapshot, name: Text)
    requires name in f.names && name in s.docs
    ensures C.Count(FileJson(f, s)) > C.CountItems(s.docs[name])
  {
    hide C.Count, C.CountMembers, C.CountItems;
    CollectionCounts(f.names, s.docs, name);
    CountOfObject(CollectionMembers(f.names, s.docs));
    CountAtLeast(SnapshotJson(f, s).members, 1);
    CountOfObject(SnapshotJson(f, s).members);
    CountAtLeast(FileJson(f, s).members, 1);
    CountOfObject(FileJson(f, s).members);
  }

  lemma CountOfObject(members: seq<Member>)
    ensures C.Count(Obj(members)) == 1 + C.CountMembers(members)
  {
  }

  /** A collection of more than a million values cannot be read back, whatever the limit in bytes. */
  lemma TooManyValues(f: Format, max: MaxBytes, s: Snapshot, name: Text)
    requires UniqueNames(FileJson(f, s)) && name in f.names && name in s.docs
    requires C.CountItems(s.docs[name]) >= Scanners.MAX_NODES
    ensures !Readable(f, max, s)
  {
    hide Readable, Writable, IsEnvelope, C.Count, C.Depth, C.CountItems, FileJson, SnapshotJson;
    FileCounts(f, s, name);
    ReadableExactly(f, max, s);
  }
}
