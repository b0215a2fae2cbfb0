/** A transaction's working collection on the heap: its own overlay layers and index buckets,
    sharing everything below them with the committed root. */
module WorkingSets {
  import opened Texts
  import opened Json
  import opened Keys
  import opened Paths
  import opened Collections
  import opened Overlays
  import Layers

  /** One index bucket: a JavaScript Set that several roots may share. */
  class KeySet {
    var keys: set<Text>

    constructor (keys: set<Text>)
      ensures this.keys == keys
    {
      this.keys := keys;
    }

    method Add(key: Text)
      modifies this
      ensures keys == old(keys) + {key}
    {
      keys := keys + {key};
    }

    method Remove(key: Text)
      modifies this
      ensures keys == old(keys) - {key}
    {
      keys := keys - {key};
    }
  }

  type BucketMap = OverlayMap<Text, KeySet>

  /** No index bucket is among these objects. */
  ghost predicate NoKeySets(s: set<object>) {
    forall o :: o in s ==> !(o is KeySet)
  }

  /** The contents of the bucket objects a map refers to. */
  ghost function ViewOf(m: map<Text, KeySet>): (view: Buckets)
    reads m.Values
    ensures view.Keys == m.Keys
  {
    map e | e in m :: m[e].keys
  }

  /** Adding a key to a shared bucket replaces the bucket by a copy. */
  method FileUnder(o: BucketMap, e: Text, key: Text)
    requires o.Valid() && !o.sealed
    modifies o
    ensures o.Valid() && !o.sealed
    ensures ViewOf(o.contents) == AddOne(old(ViewOf(o.contents)), key, At(e))
  {
    hide OverlayMap.Valid;
    var current := o.Get(e);
    var bucket := new KeySet(if current.Some? then current.value.keys else {});
    bucket.Add(key);
    var ok := o.Set(e, bucket);
  }

  /** Removing a key likewise copies, and drops a bucket that becomes empty. */
  method Unfile(o: BucketMap, e: Text, key: Text)
    requires o.Valid() && !o.sealed
    modifies o
    ensures o.Valid() && !o.sealed
    ensures ViewOf(o.contents) == RemoveOne(old(ViewOf(o.contents)), key, At(e))
  {
    hide OverlayMap.Valid;
    var current := o.Get(e);
    if current.None? { return; }
    var bucket := new KeySet(current.value.keys);
    bucket.Remove(key);
    if bucket.keys == {} {
      var deleted := o.Delete(e);
    } else {
      var ok := o.Set(e, bucket);
    }
  }

  datatype WorkingIndex = WorkingIndex(def: IndexDef, buckets: BucketMap)

  ghost function ViewOfIndex(ix: WorkingIndex): Index
    reads ix.buckets, ix.buckets.contents.Values
  {
    Index(ix.def, ViewOf(ix.buckets.contents))
  }

  method AddTo(ix: WorkingIndex, key: Text, doc: Json)
    requires ix.buckets.Valid() && !ix.buckets.sealed
    modifies ix.buckets
    ensures ix.buckets.Valid() && !ix.buckets.sealed
    ensures ViewOfIndex(ix) == Adding(old(ViewOfIndex(ix)), key, doc)
  {
    hide OverlayMap.Valid, EntryOf, ViewOf;
    var entry := EntryOf(ix.def.path, doc);
    if entry.At? { FileUnder(ix.buckets, entry.bucket, key); }
  }

  method RemoveFrom(ix: WorkingIndex, key: Text, doc: Json)
    requires ix.buckets.Valid() && !ix.buckets.sealed
    requires !EntryOf(ix.def.path, doc).Unindexable?
    modifies ix.buckets
    ensures ix.buckets.Valid() && !ix.buckets.sealed
    ensures ViewOfIndex(ix) == Removing(old(ViewOfIndex(ix)), key, doc)
  {
    hide OverlayMap.Valid, EntryOf, ViewOf;
    var entry := EntryOf(ix.def.path, doc);
    if entry.At? { Unfile(ix.buckets, entry.bucket, key); }
  }

  ghost function Own(ixs: seq<WorkingIndex>): set<object>
  {
    set ix | ix in ixs :: ix.buckets
  }

  ghost function KeySets(ixs: seq<WorkingIndex>): set<KeySet>
    reads Own(ixs)
  {
    set ix, b | ix in ixs && b in ix.buckets.contents.Values :: b
  }

  ghost function Below(ixs: seq<WorkingIndex>): set<object> {
    set ix, o | ix in ixs && o in ix.buckets.Repr :: o
  }

  /** Distinct, unsealed layers, none of them below another. */
  ghost predicate Separate(ixs: seq<WorkingIndex>)
    reads Below(ixs), Own(ixs)
  {
    && (forall i :: 0 <= i < |ixs| ==> ixs[i].buckets.Valid() && !ixs[i].buckets.sealed)
    && forall i, j :: 0 <= i < |ixs| && 0 <= j < |ixs| && i != j ==> ixs[i].buckets !in ixs[j].buckets.Repr
  }

  ghost function Views(ixs: seq<WorkingIndex>): (views: seq<Index>)
    reads Own(ixs), KeySets(ixs)
    ensures |views| == |ixs|
    ensures forall i :: 0 <= i < |ixs| ==> views[i] == ViewOfIndex(ixs[i])
  {
    seq(|ixs|, i requires 0 <= i < |ixs| reads Own(ixs), KeySets(ixs) => ViewOfIndex(ixs[i]))
  }

  /** `addToIndexes`: find every addition first, so that a refusal leaves no trace, then apply. */
  method AddToIndexes(ixs: seq<WorkingIndex>, key: Text, doc: Json) returns (error: Option<Error>)
    requires Separate(ixs)
    modifies Own(ixs)
    ensures Separate(ixs)
    ensures error == AddError(old(Views(ixs)), key, doc)
    ensures Views(ixs) == if error.None? then AddAll(old(Views(ixs)), key, doc) else old(Views(ixs))
  {
    hide OverlayMap.Valid, AddError, ViewOf;
    ghost var views := Views(ixs);
    error := FindAdditions(ixs, key, doc);
    assert Views(ixs) == views;
    if error.None? { ApplyAdditions(ixs, key, doc); }
  }

  method FindAddition(ix: WorkingIndex, key: Text, doc: Json) returns (error: Option<Error>)
    requires ix.buckets.Valid()
    ensures error == AddingError(ViewOfIndex(ix), key, doc)
  {
    hide OverlayMap.Valid, EntryOf;
    var entry := EntryOf(ix.def.path, doc);
    if entry.Unindexable? { return Some(NotIndexable); }
    if entry.Absent? { return None; }
    var bucket := ix.buckets.Get(entry.bucket);
    if ix.def.unique && bucket.Some? && key !in bucket.value.keys { return Some(DuplicateUnique); }
    return None;
  }

  lemma AddErrorAt(views: seq<Index>, key: Text, doc: Json, i: nat)
    requires i < |views|
    ensures AddError(views[i..], key, doc) ==
              if AddingError(views[i], key, doc).Some? then AddingError(views[i], key, doc)
              else AddError(views[i + 1..], key, doc)
  {
    assert views[i..][1..] == views[i + 1..];
  }

  method FindAdditions(ixs: seq<WorkingIndex>, key: Text, doc: Json) returns (error: Option<Error>)
    requires Separate(ixs)
    ensures error == AddError(Views(ixs), key, doc)
  {
    hide OverlayMap.Valid, AddingError, AddError;
    ghost var views := Views(ixs);
    for i := 0 to |ixs|
      invariant Views(ixs) == views
      invariant AddError(views, key, doc) == AddError(views[i..], key, doc)
    {
      AddErrorAt(views, key, doc, i);
      error := FindAddition(ixs[i], key, doc);
      if error.Some? {
        assert Views(ixs) == views;
        return;
      }
    }
    return None;
  }

  method ApplyAdditions(ixs: seq<WorkingIndex>, key: Text, doc: Json)
    requires Separate(ixs)
    modifies Own(ixs)
    ensures Separate(ixs)
    ensures Views(ixs) == AddAll(old(Views(ixs)), key, doc)
  {
    hide OverlayMap.Valid, ViewOfIndex, Adding, Removing;
    ghost var before := Views(ixs);
    for i := 0 to |ixs|
      invariant Separate(ixs)
      invariant forall j :: 0 <= j < i ==> Views(ixs)[j] == Adding(before[j], key, doc)
      invariant forall j :: i <= j < |ixs| ==> Views(ixs)[j] == before[j]
    {
      AddTo(ixs[i], key, doc);
    }
    assert Views(ixs) == AddAll(before, key, doc);
  }

  /** `removeFromIndexes`. */
  method RemoveFromIndexes(ixs: seq<WorkingIndex>, key: Text, doc: Json)
    requires Separate(ixs)
    requires forall i :: 0 <= i < |ixs| ==> !EntryOf(ixs[i].def.path, doc).Unindexable?
    modifies Own(ixs)
    ensures Separate(ixs)
    ensures Views(ixs) == RemoveAll(old(Views(ixs)), key, doc)
  {
    hide OverlayMap.Valid, ViewOfIndex, Adding, Removing;
    ghost var before := Views(ixs);
    for i := 0 to |ixs|
      invariant Separate(ixs)
      invariant forall j :: 0 <= j < i ==> Views(ixs)[j] == Removing(before[j], key, doc)
      invariant forall j :: i <= j < |ixs| ==> Views(ixs)[j] == before[j]
    {
      RemoveFrom(ixs[i], key, doc);
    }
    assert Views(ixs) == RemoveAll(before, key, doc);
  }

  /* ---------- committed collections ---------- */

  datatype StoredIndex = StoredIndex(def: IndexDef, buckets: Base<Text, KeySet>)

  /** A frozen collection record; everything it refers to is sealed. */
  datatype StoredCollection = StoredCollection(
    indexes: seq<StoredIndex>,
    nextPosition: int,
    order: seq<Text>,
    positions: Base<Text, int>,
    records: Base<Text, Json>,
    revision: int,
    schema: Schema)

  ghost function SealedBelow(ixs: seq<StoredIndex>): set<object> {
    set ix, o | ix in ixs && o in BaseRepr(ix.buckets) :: o
  }

  ghost function Tops(ixs: seq<StoredIndex>): set<object> {
    set ix | ix in ixs && ix.buckets.Layered? :: ix.buckets.overlay
  }

  ghost function SealedKeySets(ixs: seq<StoredIndex>): set<KeySet>
    reads Tops(ixs)
  {
    set ix, b | ix in ixs && b in BaseContents(ix.buckets).Values :: b
  }

  ghost predicate AllSealed(ixs: seq<StoredIndex>)
    reads SealedBelow(ixs), Tops(ixs)
  {
    forall i :: 0 <= i < |ixs| ==> BaseValid(ixs[i].buckets)
  }

  ghost function StoredViews(ixs: seq<StoredIndex>): (views: seq<Index>)
    reads Tops(ixs), SealedKeySets(ixs)
    ensures |views| == |ixs|
    ensures forall i :: 0 <= i < |ixs| ==> views[i] == Index(ixs[i].def, ViewOf(BaseContents(ixs[i].buckets)))
  {
    seq(|ixs|, i requires 0 <= i < |ixs|
                 reads Tops(ixs), SealedKeySets(ixs) =>
      Index(ixs[i].def, ViewOf(BaseContents(ixs[i].buckets))))
  }

  lemma OwnAppend(ixs: seq<WorkingIndex>, ix: WorkingIndex)
    ensures Own(ixs + [ix]) == Own(ixs) + {ix.buckets}
    ensures Below(ixs + [ix]) == Below(ixs) + ix.buckets.Repr
  {
  }

  lemma SameViews(r: seq<WorkingIndex>, ixs: seq<StoredIndex>)
    requires |r| == |ixs|
    requires forall j :: 0 <= j < |r| ==>
               r[j].def == ixs[j].def && r[j].buckets.contents == BaseContents(ixs[j].buckets)
    ensures Views(r) == StoredViews(ixs)
  {
    assert forall j :: 0 <= j < |r| ==> Views(r)[j] == StoredViews(ixs)[j];
  }

  lemma SeparateAppend(ixs: seq<WorkingIndex>, ix: WorkingIndex)
    requires Separate(ixs) && ix.buckets.Valid() && !ix.buckets.sealed
    requires ix.buckets !in Below(ixs) && ix.buckets.Repr !! Own(ixs)
    ensures Separate(ixs + [ix])
  {
    hide OverlayMap.Valid;
    var longer := ixs + [ix];
    forall i, j | 0 <= i < |longer| && 0 <= j < |longer| && i != j
      ensures longer[i].buckets !in longer[j].buckets.Repr
    {
      assert i < |ixs| ==> longer[i] in ixs && longer[i].buckets in Own(ixs);
      assert j < |ixs| ==> longer[j] in ixs;
    }
  }

  method CloneIndex(ix: StoredIndex, ghost others: seq<WorkingIndex>, ghost sealedBelow: set<object>)
    returns (w: WorkingIndex)
    requires BaseValid(ix.buckets) && Separate(others)
    requires BaseRepr(ix.buckets) <= sealedBelow && sealedBelow !! Own(others)
    ensures w.def == ix.def && w.buckets.contents == BaseContents(ix.buckets)
    ensures Own(others + [w]) == Own(others) + {w.buckets} && fresh(w.buckets)
    ensures Below(others + [w]) <= Below(others) + {w.buckets} + sealedBelow
    ensures Separate(others + [w])
  {
    hide OverlayMap.Valid, Separate;
    var layer := new OverlayMap(ix.buckets);
    w := WorkingIndex(ix.def, layer);
    OwnAppend(others, w);
    SeparateAppend(others, w);
  }

  /** `cloneIndexes`: a fresh layer over every index. */
  method CloneIndexes(ixs: seq<StoredIndex>, ghost views: seq<Index>) returns (r: seq<WorkingIndex>)
    requires AllSealed(ixs) && StoredViews(ixs) == views
    ensures Separate(r) && fresh(Own(r))
    ensures Below(r) <= Own(r) + SealedBelow(ixs)
    ensures Views(r) == views
  {
    hide OverlayMap.Valid, Separate, ViewOf, Views, StoredViews, ViewOfIndex, Own, Below;
    r := [];
    SeparateNone();
    for i := 0 to |ixs|
      invariant |r| == i
      invariant AllSealed(ixs) && StoredViews(ixs) == views
      invariant Separate(r) && fresh(Own(r))
      invariant Below(r) <= Own(r) + SealedBelow(ixs)
      invariant forall j :: 0 <= j < i ==>
                  r[j].def == ixs[j].def && r[j].buckets.contents == BaseContents(ixs[j].buckets)
    {
      assert ixs[i] in ixs;
      var w := CloneIndex(ixs[i], r, SealedBelow(ixs));
      r := r + [w];
    }
    SameViews(r, ixs);
  }

  lemma SeparateNone()
    ensures Separate([]) && Own([]) == {} && Below([]) == {}
  {
  }

  /* ---------- the working collection ---------- */

  /** What a caller learns from a write. */
  datatype Written =
    | Wrote(key: PrimaryKey, slot: Text, before: Option<Json>, after: Option<Json>, generated: Option<Text>)
    | Threw(error: Error)

  function WrittenOf(e: Effect): Written {
    match e
    case Done(_, key, slot, before, after, generated) => Wrote(key, slot, before, after, generated)
    case Failed(_, error) => Threw(error)
  }

  ghost function StoredReach(s: StoredCollection): set<object> {
    SealedBelow(s.indexes) + BaseRepr(s.positions) + BaseRepr(s.records)
    + Tops(s.indexes)
    + (if s.positions.Layered? then {s.positions.overlay} else {})
    + (if s.records.Layered? then {s.records.overlay} else {})
  }

  ghost predicate StoredSealed(s: StoredCollection)
    reads StoredReach(s)
  {
    AllSealed(s.indexes) && BaseValid(s.positions) && BaseValid(s.records)
  }

  /** The collection a frozen record represents. */
  ghost function StoredAbs(s: StoredCollection): Coll
    reads StoredReach(s), SealedKeySets(s.indexes)
  {
    Coll(BaseContents(s.records), s.order, BaseContents(s.positions), s.nextPosition,
         StoredViews(s.indexes), s.revision, s.schema)
  }

  /* ---------- building a committed collection ---------- */

  /** A plain map of fresh bucket objects holding these keys. */
  method MakeBuckets(view: Buckets) returns (m: Layers.PlainMap<Text, KeySet>)
    ensures Layers.WellFormed(m) && ViewOf(m.contents) == view && fresh(m.contents.Values)
  {
    m := Layers.PlainMap([], map[]);
    var todo := view.Keys;
    while todo != {}
      invariant todo <= view.Keys && m.contents.Keys == view.Keys - todo
      invariant Layers.WellFormed(m) && fresh(m.contents.Values)
      invariant forall e :: e in m.contents ==> m.contents[e].keys == view[e]
      decreases todo
    {
      var e :| e in todo;
      var bucket := new KeySet(view[e]);
      assert m.contents[e := bucket].Values <= m.contents.Values + {bucket};
      m := Filled(m, e, bucket);
      todo := todo - {e};
    }
  }

  function Filled(m: Layers.PlainMap<Text, KeySet>, e: Text, bucket: KeySet): (r: Layers.PlainMap<Text, KeySet>)
    requires Layers.WellFormed(m) && e !in m.contents
    ensures Layers.WellFormed(r) && r.contents == m.contents[e := bucket]
  {
    Layers.PlainSetWellFormed(m, e, bucket);
    Layers.PlainSet(m, e, bucket)
  }

  /** Nothing below these indexes, and their buckets are new. */
  method MakeIndexes(views: seq<Index>) returns (r: seq<StoredIndex>)
    ensures AllSealed(r) && SealedBelow(r) == {} && Tops(r) == {}
    ensures fresh(SealedKeySets(r)) && StoredViews(r) == views
  {
    hide ViewOf, Layers.WellFormed;
    r := [];
    for i := 0 to |views|
      invariant |r| == i
      invariant forall j :: 0 <= j < i ==> r[j].buckets.Plain? && Layers.WellFormed(r[j].buckets.entries)
      invariant forall j :: 0 <= j < i ==> fresh(r[j].buckets.entries.contents.Values)
      invariant forall j :: 0 <= j < i ==> Index(r[j].def, ViewOf(r[j].buckets.entries.contents)) == views[j]
    {
      var m := MakeBuckets(views[i].buckets);
      r := r + [StoredIndex(views[i].def, Plain(m))];
    }
    assert forall j :: 0 <= j < |r| ==> StoredViews(r)[j] == views[j];
  }

  /** The frozen record of a valid collection, over new plain maps. */
  method MakeStored(c: Coll) returns (s: StoredCollection)
    requires Collections.Valid(c)
    ensures StoredSealed(s) && StoredReach(s) == {} && fresh(SealedKeySets(s.indexes))
    ensures StoredAbs(s) == c
  {
    hide StoredViews, SealedKeySets, AllSealed, RecordsOk, IndexesOk;
    OrderWellFormed(c);
    var indexes := MakeIndexes(c.indexes);
    s := StoredCollection(indexes, c.nextPosition, c.order, Plain(Layers.PlainMap(c.order, c.positions)),
                          Plain(Layers.PlainMap(c.order, c.records)), c.revision, c.schema);
  }

  lemma OrderWellFormed(c: Coll)
    requires Collections.Valid(c)
    ensures Layers.WellFormed(Layers.PlainMap(c.order, c.positions))
        && Layers.WellFormed(Layers.PlainMap(c.order, c.records))
  {
  }

  /** Unsealed layers, distinct and never below one another. */
  ghost predicate Apart(indexes: seq<WorkingIndex>, positions: OverlayMap<Text, int>, records: OverlayMap<Text, Json>)
    reads Own(indexes), Below(indexes), positions, positions.Repr, records, records.Repr
  {
    && positions.Valid() && !positions.sealed
    && records.Valid() && !records.sealed
    && Separate(indexes)
    && positions as object !in records.Repr && records as object !in positions.Repr
    && positions as object !in Below(indexes) && records as object !in Below(indexes)
    && positions.Repr !! Own(indexes) && records.Repr !! Own(indexes)
  }

  /** `#writable`: fresh layers over a committed collection. */
  method MakeWritable(s: StoredCollection, ghost c: Coll) returns (w: WorkingCollection)
    requires StoredSealed(s) && StoredAbs(s) == c
    ensures w.Valid() && fresh(w.Footprint())
    ensures w.Reach() <= w.Footprint() + StoredReach(s)
    ensures w.Abs() == c
  {
    hide OverlayMap.Valid, Separate, Views, StoredViews, ViewOf, ViewOfIndex, WorkingCollection.Abs;
    hide AllSealed, BaseValid, BaseContents, WorkingCollection.Valid;
    var positions, records := MakeLayers(s);
    var indexes := CloneIndexes(s.indexes, c.indexes);
    w := new WorkingCollection(s, c, indexes, positions, records);
  }

  method MakeLayers(s: StoredCollection) returns (positions: OverlayMap<Text, int>, records: OverlayMap<Text, Json>)
    requires StoredSealed(s)
    ensures positions.Valid() && !positions.sealed && records.Valid() && !records.sealed
    ensures fresh(positions) && fresh(records)
    ensures positions.contents == old(BaseContents(s.positions)) && records.contents == old(BaseContents(s.records))
    ensures positions.Repr == {positions} + BaseRepr(s.positions)
    ensures records.Repr == {records} + BaseRepr(s.records)
    ensures positions as object != records
    ensures AllSealed(s.indexes) && StoredViews(s.indexes) == old(StoredViews(s.indexes))
  {
    hide OverlayMap.Valid;
    positions := new OverlayMap(s.positions);
    records := new OverlayMap(s.records);
  }

  method SealIndex(ix: WorkingIndex) returns (s: StoredIndex)
    requires ix.buckets.Valid()
    modifies ix.buckets`sealed
    ensures ix.buckets.Valid() && BaseValid(s.buckets) && s.def == ix.def
    ensures BaseContents(s.buckets) == old(ix.buckets.contents)
    ensures BaseRepr(s.buckets) <= ix.buckets.Repr
    ensures s.buckets.Layered? ==> s.buckets.overlay == ix.buckets
  {
    var sealedMap := ix.buckets.Seal();
    s := StoredIndex(ix.def, sealedMap);
  }

  lemma SameStoredViews(r: seq<StoredIndex>, views: seq<Index>)
    requires |r| == |views|
    requires forall j :: 0 <= j < |r| ==> views[j] == Index(r[j].def, ViewOf(BaseContents(r[j].buckets)))
    ensures StoredViews(r) == views
  {
  }

  /** `sealIndexes`. */
  method SealIndexes(ixs: seq<WorkingIndex>) returns (r: seq<StoredIndex>)
    requires Separate(ixs)
    modifies Own(ixs)
    ensures AllSealed(r)
    ensures SealedBelow(r) <= Below(ixs) && Tops(r) <= Own(ixs)
    ensures StoredViews(r) == old(Views(ixs)) && SealedKeySets(r) <= old(KeySets(ixs))
  {
    hide OverlayMap.Valid;
    r := [];
    ghost var views := Views(ixs);
    for i := 0 to |ixs|
      invariant |r| == i
      invariant forall j :: 0 <= j < |ixs| ==> ixs[j].buckets.Valid()
      invariant forall j :: 0 <= j < |ixs| ==> ixs[j].buckets.contents == old(ixs[j].buckets.contents)
      invariant forall j :: 0 <= j < i ==>
                  && BaseValid(r[j].buckets)
                  && r[j].def == ixs[j].def
                  && BaseContents(r[j].buckets) == ixs[j].buckets.contents
                  && BaseRepr(r[j].buckets) <= ixs[j].buckets.Repr
                  && (r[j].buckets.Layered? ==> r[j].buckets.overlay == ixs[j].buckets)
    {
      var s := SealIndex(ixs[i]);
      r := r + [s];
    }
    SameStoredViews(r, views);
  }

  class WorkingCollection {
    const indexes: seq<WorkingIndex>
    var nextPosition: int
    var order: seq<Text>
    const positions: OverlayMap<Text, int>
    const records: OverlayMap<Text, Json>
    const revision: int
    const schema: Schema

    /** The objects this collection may write: itself and its own layers. */
    ghost function Footprint(): set<object> {
      {this, positions, records} + Own(indexes)
    }

    lemma FootprintKinds()
      ensures NoKeySets(Footprint())
    {
    }

    /** Everything its layers can reach, including the sealed layers they share. */
    ghost function Reach(): set<object> {
      Footprint() + positions.Repr + records.Repr + Below(indexes)
    }

    /** Its layers are its own, and it is not among the objects below them. */
    ghost predicate Valid()
      reads Reach()
    {
      && Apart(indexes, positions, records)
      && this !in positions.Repr && this !in records.Repr && this !in Below(indexes) && this !in Own(indexes)
    }

    /** The value this object graph represents. */
    ghost function Abs(): Coll
      reads this, positions, records, Own(indexes), KeySets(indexes)
    {
      Coll(records.contents, order, positions.contents, nextPosition, Views(indexes), revision, schema)
    }

    constructor (s: StoredCollection, ghost c: Coll, indexes: seq<WorkingIndex>,
                 positions: OverlayMap<Text, int>, records: OverlayMap<Text, Json>)
      requires Apart(indexes, positions, records)
      requires positions.contents == c.positions && records.contents == c.records && Views(indexes) == c.indexes
      requires s.nextPosition == c.nextPosition && s.order == c.order && s.revision == c.revision
          && s.schema == c.schema
      ensures Valid()
      ensures this.indexes == indexes && this.positions == positions && this.records == records
      ensures Abs() == c
    {
      hide OverlayMap.Valid, Separate, Views;
      this.indexes := indexes;
      nextPosition := s.nextPosition;
      order := s.order;
      this.positions := positions;
      this.records := records;
      revision := s.revision;
      schema := s.schema;
    }

    /** The index half of a write: clear the previous document, add the next, and put the
        previous one back if that is refused. */
    method Refile(slot: Text, before: Option<Json>, doc: Json) returns (error: Option<Error>)
      requires Valid() && Collections.Valid(Abs())
      requires before == if slot in Abs().records then Some(Abs().records[slot]) else None
      modifies Own(indexes)
      ensures Valid()
      ensures error == Reindex(old(Abs()), slot, before, doc).0
      ensures Abs() == old(Abs()).(indexes := Reindex(old(Abs()), slot, before, doc).1)
    {
      hide OverlayMap.Valid, EntryOf, AddError, Collections.Valid;
      if before.Some? {
        StoredIsIndexable(Abs(), slot);
        RemoveFromIndexes(indexes, slot, before.value);
      }
      error := AddToIndexes(indexes, slot, doc);
      if error.Some? && before.Some? {
        PutBackNeverFails(old(Abs()), slot);
        var again := AddToIndexes(indexes, slot, before.value);
        assert again.None?;
      }
    }

    method Find(slot: Text) returns (doc: Option<Json>)
      requires Valid()
      ensures Valid() && Abs() == old(Abs())
      ensures doc == if slot in Abs().records then Some(Abs().records[slot]) else None
    {
      hide OverlayMap.Valid, Separate, Views;
      doc := records.Get(slot);
    }

    /** The record half of a write. */
    method Keep(slot: Text, doc: Json)
      requires Valid()
      modifies records
      ensures Valid()
      ensures Abs() == old(Abs()).(records := old(Abs()).records[slot := doc])
    {
      hide OverlayMap.Valid, Separate, Views;
      var written := records.Set(slot, doc);
    }

    /** A new slot goes last, at the next position. */
    method Append(slot: Text)
      requires Valid()
      modifies this, positions
      ensures Valid()
      ensures Abs() == old(Abs()).(order := old(Abs()).order + [slot],
                                   positions := old(Abs()).positions[slot := old(Abs()).nextPosition],
                                   nextPosition := old(Abs()).nextPosition + 1)
    {
      hide OverlayMap.Valid, Separate, Views;
      order := order + [slot];
      var ranked := positions.Set(slot, nextPosition);
      nextPosition := nextPosition + 1;
    }

    /** The record half of a deletion. */
    method Forget(slot: Text)
      requires Valid()
      modifies records
      ensures Valid()
      ensures Abs() == old(Abs()).(records := old(Abs()).records - {slot})
    {
      hide OverlayMap.Valid, Separate, Views;
      var gone := records.Delete(slot);
    }

    /** Dropping a slot's position and its place in the order. */
    method Splice(slot: Text)
      requires Valid()
      modifies this, positions
      ensures Valid()
      ensures Abs() == old(Abs()).(positions := old(Abs()).positions - {slot},
                                   order := Without(old(Abs()).order, slot))
    {
      hide OverlayMap.Valid, Separate, Views;
      var unranked := positions.Delete(slot);
      var at := IndexOf(order, slot);
      if at < |order| { order := order[..at] + order[at + 1..]; }
    }

    /** Clearing a document that is about to be deleted out of the indexes. */
    method Clear(slot: Text)
      requires Valid() && Collections.Valid(Abs()) && slot in Abs().records
      modifies Own(indexes)
      ensures Valid()
      ensures Abs() == old(Abs()).(indexes := RemoveAll(old(Abs()).indexes, slot, old(Abs()).records[slot]))
    {
      hide OverlayMap.Valid, EntryOf, Collections.Valid;
      StoredIsIndexable(Abs(), slot);
      var before := records.Get(slot);
      RemoveFromIndexes(indexes, slot, before.value);
    }

    method PutDoc(key: PrimaryKey, slot: Text, doc: Json, generated: Option<Text>) returns (r: Written)
      requires Valid() && Collections.Valid(Abs())
      modifies Footprint()
      ensures Valid()
      ensures Abs() == Put(old(Abs()), key, slot, doc, generated).coll
      ensures r == WrittenOf(Put(old(Abs()), key, slot, doc, generated))
    {
      hide OverlayMap.Valid, WorkingCollection.Valid, WorkingCollection.Abs, Reindex, Collections.Valid;
      var before := Find(slot);
      var error := Refile(slot, before, doc);
      if error.Some? { return Threw(error.value); }
      Keep(slot, doc);
      if before.None? { Append(slot); }
      return Wrote(key, slot, before, Some(doc), generated);
    }

    /** `_insert`, plain or upserting. */
    method Insert(input: Json, generated: Text, upsert: bool) returns (r: Written)
      requires Valid() && Collections.Valid(Abs())
      modifies Footprint()
      ensures Valid()
      ensures Abs() == Collections.Insert(old(Abs()), input, generated, upsert).coll
      ensures r == WrittenOf(Collections.Insert(old(Abs()), input, generated, upsert))
    {
      hide OverlayMap.Valid, WorkingCollection.Valid, Views, Put, Materialize, Validate, Collections.Valid;
      var materialized := Materialize(schema, input, generated);
      if materialized.Err? { return Threw(materialized.error); }
      var (doc, given) := materialized.value;
      var validated := Validate(schema, doc);
      if validated.Err? { return Threw(validated.error); }
      var slot := EncodeKey(validated.value).GetOr([]);
      var before := Find(slot);
      if before.Some? && !upsert { return Threw(DuplicateKey); }
      r := PutDoc(validated.value, slot, doc, given);
    }

    /** `_update`. */
    method Update(key: PrimaryKey, patch: Json) returns (r: Written)
      requires Valid() && Collections.Valid(Abs())
      modifies Footprint()
      ensures Valid()
      ensures Abs() == Collections.Update(old(Abs()), key, patch).coll
      ensures r == WrittenOf(Collections.Update(old(Abs()), key, patch))
    {
      hide OverlayMap.Valid, WorkingCollection.Valid, Views, Put, Validate, Collections.Valid;
      var slot := EncodeKey(key);
      if slot.None? { return Threw(InvalidKey); }
      var before := Find(slot.value);
      if before.None? { return Threw(NotFound); }
      if !patch.Obj? || !before.value.Obj? { return Threw(InvalidDocument); }
      var doc := Obj(Merge(before.value.members, patch.members));
      var validated := Validate(schema, doc);
      if validated.Err? { return Threw(validated.error); }
      if validated.value != key { return Threw(ImmutableKey); }
      r := PutDoc(key, slot.value, doc, None);
    }

    /** `_delete`. */
    method Delete(key: PrimaryKey) returns (r: Written)
      requires Valid() && Collections.Valid(Abs())
      modifies Footprint()
      ensures Valid()
      ensures Abs() == Collections.Delete(old(Abs()), key).coll
      ensures r == WrittenOf(Collections.Delete(old(Abs()), key))
    {
      hide OverlayMap.Valid, WorkingCollection.Valid, WorkingCollection.Abs, RemoveAll, Without, Collections.Valid;
      var slot := EncodeKey(key);
      if slot.None? { return Threw(InvalidKey); }
      var before := Find(slot.value);
      if before.None? { return Threw(NotFound); }
      Clear(slot.value);
      Forget(slot.value);
      Splice(slot.value);
      return Wrote(key, slot.value, before, None, None);
    }

    /** Any write does to this object graph exactly what it does to the value. */
    method Apply(w: Write) returns (r: Written)
      requires Valid() && Collections.Valid(Abs())
      modifies Footprint()
      ensures Valid()
      ensures Abs() == Collections.Apply(old(Abs()), w).coll
      ensures r == WrittenOf(Collections.Apply(old(Abs()), w))
    {
      hide OverlayMap.Valid, WorkingCollection.Valid, WorkingCollection.Abs, WrittenOf;
      hide Collections.Insert, Collections.Update, Collections.Delete, Collections.Valid;
      match w
      case InsertDoc(input, generated, upsert) => r := Insert(input, generated, upsert);
      case UpdateDoc(key, patch) => r := Update(key, patch);
      case DeleteDoc(key) => r := Delete(key);
    }

    method SealMaps() returns (ranks: Base<Text, int>, docs: Base<Text, Json>)
      requires Valid()
      modifies positions, records
      ensures BaseValid(ranks) && BaseContents(ranks) == old(positions.contents) && BaseRepr(ranks) <= positions.Repr
      ensures BaseValid(docs) && BaseContents(docs) == old(records.contents) && BaseRepr(docs) <= records.Repr
      ensures ranks.Layered? ==> ranks.overlay in positions.Repr
      ensures docs.Layered? ==> docs.overlay in records.Repr
      ensures Separate(indexes) && Views(indexes) == old(Views(indexes))
    {
      hide OverlayMap.Valid, Separate;
      ranks := positions.Seal();
      docs := records.Seal();
    }

    /** Sealing every layer for publication: a frozen record of the same value. */
    method SealAll(revision: int) returns (s: StoredCollection)
      requires Valid()
      modifies Footprint()
      ensures StoredSealed(s)
      ensures StoredReach(s) <= Reach()
      ensures StoredAbs(s) == old(Abs()).(revision := revision)
      ensures SealedKeySets(s.indexes) <= old(KeySets(indexes))
    {
      hide OverlayMap.Valid, Separate, Views, StoredViews, ViewOf, ViewOfIndex, Own, Below, SealedBelow, Tops;
      hide AllSealed;
      var ranks, docs := SealMaps();
      var ixs := SealIndexes(indexes);
      s := StoredCollection(ixs, nextPosition, order, ranks, docs, revision, schema);
    }
  }

  lemma StoredIsIndexable(c: Coll, slot: Text)
    requires Collections.Valid(c) && slot in c.records
    ensures forall i :: 0 <= i < |c.indexes| ==> !EntryOf(c.indexes[i].def.path, c.records[slot]).Unindexable?
  {
    assert Storable(c.schema, slot, c.records[slot]);
  }

  lemma PutBackNeverFails(c: Coll, slot: Text)
    requires Collections.Valid(c) && slot in c.records
    ensures AddError(RemoveAll(c.indexes, slot, c.records[slot]), slot, c.records[slot]).None?
  {
    PutAllBack(c, slot);
  }
}
