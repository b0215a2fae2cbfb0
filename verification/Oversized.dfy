/** A snapshot that may be written and cannot be read: eleven documents, each within every limit on a
    document, together within the default limit in bytes, and of more values than the scanner allows. */
module Oversizing {
  import opened Texts
  import opened Json
  import opened Persistence
  import opened SnapshotFiles
  import opened Serializing
  import opened Disks
  import opened FileAdapters
  import Scanners
  import CrashSafety
  import S = Sizes
  import C = Cloning

  /* ---------- an upper bound on sizes ---------- */

  /** Characters that are written as themselves, in one byte. */
  predicate Plainly(s: Text) {
    forall i :: 0 <= i < |s| ==> 0x20 <= s[i] < 0x7F && s[i] != S.QUOTE && s[i] != S.BACKSLASH
  }

  predicate AllPlainly(v: Json)
    decreases v, 0
  {
    match v
    case Str(s) => Plainly(s)
    case Arr(items) => ItemsPlainly(items)
    case Obj(members) => MembersPlainly(members)
    case _ => true
  }

  predicate ItemsPlainly(items: seq<Json>)
    decreases items, 1
  {
    items == [] || (AllPlainly(items[0]) && ItemsPlainly(items[1..]))
  }

  predicate MembersPlainly(members: seq<Member>)
    decreases members, 1
  {
    members == [] || (Plainly(members[0].name) && AllPlainly(members[0].value) && MembersPlainly(members[1..]))
  }

  function Bound(v: Json): nat
    decreases v, 0
  {
    match v
    case Null => 4
    case Bool(_) => 5
    case Num(n) => |Decimal(n)|
    case Str(s) => |s| + 2
    case Arr(items) => 2 + BoundItems(items)
    case Obj(members) => 2 + BoundMembers(members)
  }

  function BoundItems(items: seq<Json>): nat
    decreases items, 1
  {
    if items == [] then 0 else Bound(items[0]) + 1 + BoundItems(items[1..])
  }

  function BoundMembers(members: seq<Member>): nat
    decreases members, 1
  {
    if members == [] then 0 else |members[0].name| + Bound(members[0].value) + 4 + BoundMembers(members[1..])
  }

  lemma {:induction false} PlainBody(s: Text)
    requires Plainly(s)
    ensures S.QuoteBody(s) == s && S.Utf8Length(s) == |s|
  {
    if s != [] {
      PlainBody(s[1..]);
      assert s == [s[0]] + s[1..];
    }
  }

  lemma PlainQuote(s: Text)
    requires Plainly(s)
    ensures S.Utf8Length(S.Quote(s)) == |s| + 2
  {
    PlainBody(s);
    S.Enclosed(S.QUOTE, s, S.QUOTE);
  }

  lemma {:induction false} SizeBounded(v: Json)
    requires AllPlainly(v)
    ensures S.Size(v) <= Bound(v)
    decreases v, 0
  {
    hide S.Utf8Length, S.Quote, Decimal, S.StringifyItems, S.StringifyMembers, Plainly;
    match v
    case Null => C.DigitsSize(S.NULL_TEXT);
    case Bool(b) => C.DigitsSize(if b then S.TRUE_TEXT else S.FALSE_TEXT);
    case Num(n) =>
      C.DecimalUnits(n);
      C.DigitsSize(Decimal(n));
    case Str(s) => PlainQuote(s);
    case Arr(items) =>
      ItemsBounded(items);
      S.Enclosed('[' as int, S.StringifyItems(items), ']' as int);
    case Obj(members) =>
      MembersBounded(members);
      S.Enclosed('{' as int, S.StringifyMembers(members), '}' as int);
  }

  lemma {:induction false} ItemsBounded(items: seq<Json>)
    requires ItemsPlainly(items)
    ensures S.Utf8Length(S.StringifyItems(items)) <= BoundItems(items)
    decreases items, 1
  {
    hide S.Stringify, Bound;
    if items != [] {
      SizeBounded(items[0]);
      ItemsBounded(items[1..]);
      S.ItemsSize(items);
    }
  }

  lemma {:induction false} MembersBounded(members: seq<Member>)
    requires MembersPlainly(members)
    ensures S.Utf8Length(S.StringifyMembers(members)) <= BoundMembers(members)
    decreases members, 1
  {
    hide S.Stringify, Bound, Plainly, S.Quote;
    if members != [] {
      PlainQuote(members[0].name);
      SizeBounded(members[0].value);
      MembersBounded(members[1..]);
      S.MembersSize(members);
    }
  }

  /** Every value takes at least a byte. */
  lemma {:induction false} CountBounded(v: Json)
    ensures C.Count(v) <= Bound(v)
    decreases v, 0
  {
    match v
    case Arr(items) => ItemCountBounded(items);
    case Obj(members) => MemberCountBounded(members);
    case _ =>
  }

  lemma {:induction false} ItemCountBounded(items: seq<Json>)
    ensures C.CountItems(items) <= BoundItems(items)
    decreases items, 1
  {
    if items != [] {
      CountBounded(items[0]);
      ItemCountBounded(items[1..]);
    }
  }

  lemma {:induction false} MemberCountBounded(members: seq<Member>)
    ensures C.CountMembers(members) <= BoundMembers(members)
    decreases members, 1
  {
    if members != [] {
      CountBounded(members[0].value);
      MemberCountBounded(members[1..]);
    }
  }

  /* ---------- lists of like parts ---------- */

  lemma {:induction false} LikeItems(items: seq<Json>, count: nat, bound: nat, depth: nat)
    requires forall i :: 0 <= i < |items| ==>
               && C.Count(items[i]) == count && Bound(items[i]) <= bound && C.Depth(items[i]) <= depth
               && AllPlainly(items[i]) && UniqueNames(items[i])
    ensures C.CountItems(items) == |items| * count && BoundItems(items) <= |items| * (bound + 1)
    ensures C.DepthItems(items) <= depth && ItemsPlainly(items) && ItemsUnique(items)
  {
    hide C.Count, Bound, C.Depth, AllPlainly, UniqueNames;
    if items != [] {
      assert items[0] == items[0] && forall i :: 0 <= i < |items[1..]| ==> items[1..][i] == items[i + 1];
      LikeItems(items[1..], count, bound, depth);
      assert |items| * count == count + |items[1..]| * count;
      assert |items| * (bound + 1) == (bound + 1) + |items[1..]| * (bound + 1);
    }
  }

  /** A plain member within these bounds. */
  predicate Small(m: Member, bound: nat, depth: nat) {
    && |m.name| + Bound(m.value) <= bound && C.Depth(m.value) <= depth
    && Plainly(m.name) && AllPlainly(m.value) && UniqueNames(m.value)
  }

  lemma {:induction false} LikeMembers(members: seq<Member>, bound: nat, depth: nat)
    requires forall i :: 0 <= i < |members| ==> Small(members[i], bound, depth)
    requires forall i, j :: 0 <= i < j < |members| ==> members[i].name != members[j].name
    ensures BoundMembers(members) <= |members| * (bound + 4)
    ensures C.DepthMembers(members) <= depth && MembersPlainly(members) && MembersUnique(members)
  {
    hide Bound, C.Depth, AllPlainly, UniqueNames, Plainly;
    if members != [] {
      assert Small(members[0], bound, depth);
      assert forall i :: 0 <= i < |members[1..]| ==> members[1..][i] == members[i + 1];
      LikeMembers(members[1..], bound, depth);
      assert |members| * (bound + 4) == (bound + 4) + |members[1..]| * (bound + 4);
    }
  }

  /* ---------- the file of a snapshot of one collection ---------- */

  const ITEMS: Text := Ascii("items")

  const ENTRY: seq<Member> := [
    Member(Ascii("generatedPrimaryKey"), Bool(false)), Member(Ascii("indexes"), Arr([])),
    Member(Ascii("primaryKey"), Str(Ascii("id")))]

  const CATALOG: Json := Obj([Member(ITEMS, Obj(ENTRY))])

  /** A checksum is 64 hexadecimal digits. */
  ghost predicate Checksums(checksum: Snapshot -> Text) {
    forall s :: |checksum(s)| == 64 && Plainly(checksum(s))
  }

  function ItemsFormat(checksum: Snapshot -> Text): Format {
    Format([ITEMS], CATALOG, checksum)
  }

  function Holding(generation: nat, revision: nat, docs: seq<Json>): Snapshot {
    Envelope(Ascii("db"), generation, revision, map[ITEMS := docs])
  }

  lemma AsciiPlain(s: string)
    requires forall i :: 0 <= i < |s| ==> 0x20 <= s[i] as int < 0x7F && s[i] != '\"' && s[i] != '\\'
    ensures Plainly(Ascii(s)) && |Ascii(s)| == |s|
  {
  }

  lemma CatalogParts()
    ensures AllPlainly(CATALOG) && UniqueNames(CATALOG) && Bound(CATALOG) <= 300 && C.Depth(CATALOG) <= 2
  {
    hide Plainly, Ascii;
    AsciiPlain("items");
    AsciiPlain("generatedPrimaryKey");
    AsciiPlain("indexes");
    AsciiPlain("primaryKey");
    AsciiPlain("id");
    NoneInArray();
    LikeMembers(ENTRY, 40, 0);
    assert C.Depth(Obj(ENTRY)) <= 1 && Bound(Obj(ENTRY)) <= 2 + 3 * 44;
    LikeMembers(CATALOG.members, 150, 1);
  }

  lemma NoneInArray()
    ensures C.Depth(Arr([])) == 0 && Bound(Arr([])) == 2 && UniqueNames(Arr([])) && AllPlainly(Arr([]))
  {
  }

  /** The object of collections. */
  lemma CollectionsParts(f: Format, s: Snapshot, docs: seq<Json>, bound: nat, depth: nat)
    requires f.names == [ITEMS] && s.docs == map[ITEMS := docs]
    requires BoundItems(docs) <= bound && C.DepthItems(docs) <= depth && ItemsPlainly(docs) && ItemsUnique(docs)
    ensures Small(Member(Ascii("collections"), Obj(CollectionMembers(f.names, s.docs))), bound + 32, depth + 2)
  {
    hide Plainly, Ascii, BoundItems, C.DepthItems, ItemsPlainly, ItemsUnique;
    hide Bound, C.Depth, AllPlainly, UniqueNames, BoundMembers, C.DepthMembers, MembersPlainly, MembersUnique;
    var collections := CollectionMembers(f.names, s.docs);
    OneCollection(f, s, docs);
    ArrayParts(docs, bound, depth);
    AsciiPlain("items");
    AsciiPlain("collections");
    LikeMembers(collections, bound + 10, depth + 1);
    ObjectParts(collections);
  }

  /** The other members of a snapshot. */
  lemma FieldParts(id: Text, n: int)
    requires Plainly(id) && |id| <= 10 && 0 <= n < 10
    ensures Small(Member(Ascii("catalog"), CATALOG), 310, 2)
    ensures Small(Member(Ascii("databaseId"), Str(id)), 30, 0)
    ensures Small(Member(Ascii("format"), Str(Ascii("newtondb"))), 30, 0)
    ensures Small(Member(Ascii("formatVersion"), Num(n)), 30, 0)
    ensures Small(Member(Ascii("generation"), Num(n)), 30, 0)
    ensures Small(Member(Ascii("revision"), Num(n)), 30, 0)
  {
    hide Plainly, Ascii, Decimal;
    FieldNames();
    CatalogParts();
    OneDigit(n);
  }

  lemma SmallMore(m: Member, bound: nat, depth: nat, bound': nat, depth': nat)
    requires Small(m, bound, depth) && bound <= bound' && depth <= depth'
    ensures Small(m, bound', depth')
  {
    hide Bound, C.Depth, AllPlainly, UniqueNames, Plainly;
  }

  lemma SnapshotParts(f: Format, s: Snapshot, docs: seq<Json>, bound: nat, depth: nat)
    requires f.names == [ITEMS] && f.catalog == CATALOG && s.docs == map[ITEMS := docs] && s.databaseId == Ascii("db")
    requires 0 <= s.generation < 10 && 0 <= s.revision < 10
    requires BoundItems(docs) <= bound && C.DepthItems(docs) <= depth && ItemsPlainly(docs) && ItemsUnique(docs)
    ensures Small(Member(Ascii("snapshot"), SnapshotJson(f, s)), 7 * (bound + 354) + 10, depth + 5)
  {
    hide Plainly, Ascii, BoundItems, C.DepthItems, ItemsPlainly, ItemsUnique, Decimal, CollectionMembers, Small;
    hide Bound, C.Depth, AllPlainly, UniqueNames, BoundMembers, C.DepthMembers, MembersPlainly, MembersUnique;
    FieldNames();
    CollectionsParts(f, s, docs, bound, depth);
    FieldParts(s.databaseId, 1);
    FieldParts(s.databaseId, s.generation);
    FieldParts(s.databaseId, s.revision);
    var fields := SnapshotJson(f, s).members;
    SmallMore(fields[0], 310, 2, bound + 350, depth + 2);
    SmallMore(fields[1], bound + 32, depth + 2, bound + 350, depth + 2);
    SmallMore(fields[2], 30, 0, bound + 350, depth + 2);
    SmallMore(fields[3], 30, 0, bound + 350, depth + 2);
    SmallMore(fields[4], 30, 0, bound + 350, depth + 2);
    SmallMore(fields[5], 30, 0, bound + 350, depth + 2);
    SmallMore(fields[6], 30, 0, bound + 350, depth + 2);
    LikeMembers(fields, bound + 350, depth + 2);
    ObjectParts(fields);
    SmallObject(Ascii("snapshot"), fields, 7 * (bound + 354) + 10, depth + 5);
  }

  lemma SmallObject(name: Text, members: seq<Member>, bound: nat, depth: nat)
    requires Plainly(name) && |name| + 2 + BoundMembers(members) <= bound && C.DepthMembers(members) + 1 <= depth
    requires MembersPlainly(members) && MembersUnique(members)
    ensures Small(Member(name, Obj(members)), bound, depth)
  {
  }

  /** The parts of the file, for documents that are all alike. */
  lemma FileParts(checksum: Snapshot -> Text, s: Snapshot, docs: seq<Json>, bound: nat, depth: nat)
    requires Checksums(checksum) && s.databaseId == Ascii("db") && s.docs == map[ITEMS := docs]
    requires 0 <= s.generation < 10 && 0 <= s.revision < 10
    requires BoundItems(docs) <= bound && C.DepthItems(docs) <= depth && ItemsPlainly(docs) && ItemsUnique(docs)
    ensures var v := FileJson(ItemsFormat(checksum), s);
            AllPlainly(v) && UniqueNames(v) && Bound(v) <= 7 * (bound + 354) + 150 && C.Depth(v) <= depth + 6
  {
    hide Plainly, Ascii, BoundItems, C.DepthItems, ItemsPlainly, ItemsUnique, SnapshotJson;
    var f := ItemsFormat(checksum);
    FieldNames();
    SnapshotParts(f, s, docs, bound, depth);
    var sum := Str(checksum(s));
    assert |checksum(s)| == 64 && Plainly(checksum(s));
    assert AllPlainly(sum) && UniqueNames(sum) && Bound(sum) == 66 && C.Depth(sum) == 0;
    TwoMembers(Member(Ascii("checksum"), sum), Member(Ascii("snapshot"), SnapshotJson(f, s)));
  }

  lemma OneDigit(n: int)
    requires 0 <= n < 10
    ensures |Decimal(n)| == 1
  {
  }

  lemma OneCollection(f: Format, s: Snapshot, docs: seq<Json>)
    requires f.names == [ITEMS] && s.docs == map[ITEMS := docs]
    ensures CollectionMembers(f.names, s.docs) == [Member(ITEMS, Arr(docs))]
  {
    assert f.names[1..] == [];
  }

  lemma ArrayParts(docs: seq<Json>, bound: nat, depth: nat)
    requires BoundItems(docs) <= bound && C.DepthItems(docs) <= depth && ItemsPlainly(docs) && ItemsUnique(docs)
    ensures Bound(Arr(docs)) <= bound + 2 && C.Depth(Arr(docs)) <= depth + 1
    ensures AllPlainly(Arr(docs)) && UniqueNames(Arr(docs))
  {
  }

  lemma MemberNext(m: Member, rest: seq<Member>)
    ensures var ms := [m] + rest;
            && BoundMembers(ms) == |m.name| + Bound(m.value) + 4 + BoundMembers(rest)
            && C.DepthMembers(ms) == C.Max(C.Depth(m.value), C.DepthMembers(rest))
            && C.CountMembers(ms) == C.Count(m.value) + C.CountMembers(rest)
            && (MembersPlainly(ms) <==> Plainly(m.name) && AllPlainly(m.value) && MembersPlainly(rest))
            && (MembersUnique(ms) <==> UniqueNames(m.value) && m.name !in NamesIn(rest) && MembersUnique(rest))
  {
    assert ([m] + rest)[1..] == rest;
  }

  lemma TwoMembers(a: Member, b: Member)
    requires a.name != b.name && Plainly(a.name) && Plainly(b.name)
    requires AllPlainly(a.value) && AllPlainly(b.value) && UniqueNames(a.value) && UniqueNames(b.value)
    ensures AllPlainly(Obj([a, b])) && UniqueNames(Obj([a, b]))
    ensures Bound(Obj([a, b])) == 2 + (|a.name| + Bound(a.value) + 4) + (|b.name| + Bound(b.value) + 4)
    ensures C.Depth(Obj([a, b])) == 1 + C.Max(C.Depth(a.value), C.Depth(b.value))
    ensures C.Count(Obj([a, b])) == 1 + C.Count(a.value) + C.Count(b.value)
  {
    hide Bound, C.Depth, C.Count, AllPlainly, UniqueNames, Plainly;
    MemberNext(b, []);
    MemberNext(a, [b]);
    assert [a] + [b] == [a, b] && [b] + [] == [b];
    ObjectParts([a, b]);
  }

  lemma ObjectParts(members: seq<Member>)
    ensures AllPlainly(Obj(members)) == MembersPlainly(members) && UniqueNames(Obj(members)) == MembersUnique(members)
    ensures Bound(Obj(members)) == 2 + BoundMembers(members) && C.Count(Obj(members)) == 1 + C.CountMembers(members)
    ensures C.Depth(Obj(members)) == if members == [] then 0 else 1 + C.DepthMembers(members)
  {
  }

  /** The names in a file: plain, and distinct where they stand together. */
  lemma FieldNames()
    ensures Plainly(Ascii("catalog")) && Plainly(Ascii("collections")) && Plainly(Ascii("databaseId"))
    ensures Plainly(Ascii("format")) && Plainly(Ascii("formatVersion")) && Plainly(Ascii("generation"))
    ensures Plainly(Ascii("revision")) && Plainly(Ascii("checksum")) && Plainly(Ascii("snapshot"))
    ensures Plainly(Ascii("newtondb")) && Plainly(Ascii("db"))
    ensures Plainly(ITEMS) && |ITEMS| == 5
    ensures |Ascii("catalog")| == 7 && |Ascii("collections")| == 11 && |Ascii("databaseId")| == 10
    ensures |Ascii("format")| == 6 && |Ascii("formatVersion")| == 13 && |Ascii("generation")| == 10
    ensures |Ascii("revision")| == 8 && Ascii("databaseId") != Ascii("generation")
    ensures Ascii("checksum") != Ascii("snapshot") && |Ascii("checksum")| == 8 && |Ascii("snapshot")| == 8
    ensures |Ascii("newtondb")| == 8 && |Ascii("db")| == 2
  {
    AsciiPlain("catalog");
    AsciiPlain("collections");
    AsciiPlain("databaseId");
    AsciiPlain("format");
    AsciiPlain("formatVersion");
    AsciiPlain("generation");
    AsciiPlain("revision");
    AsciiPlain("checksum");
    AsciiPlain("snapshot");
    AsciiPlain("newtondb");
    AsciiPlain("db");
    AsciiPlain("items");
    assert Ascii("databaseId")[0] != Ascii("generation")[0];
    assert Ascii("checksum")[0] != Ascii("snapshot")[0];
  }

  /* ---------- its envelope ---------- */

  lemma {:induction false} LookupAt(members: seq<Member>, i: nat)
    requires i < |members| && forall j :: 0 <= j < i ==> members[j].name != members[i].name
    ensures Lookup(members, members[i].name) == Some(members[i].value)
  {
    if i > 0 { LookupAt(members[1..], i - 1); }
  }

  lemma EnvelopeFields(f: Format, s: Snapshot)
    ensures var ms := SnapshotJson(f, s).members;
            && Lookup(ms, Ascii("catalog")) == Some(f.catalog)
            && Lookup(ms, Ascii("collections")) == Some(Obj(CollectionMembers(f.names, s.docs)))
            && Lookup(ms, Ascii("databaseId")) == Some(Str(s.databaseId))
            && Lookup(ms, Ascii("format")) == Some(Str(Ascii("newtondb")))
            && Lookup(ms, Ascii("formatVersion")) == Some(Num(1))
            && Lookup(ms, Ascii("generation")) == Some(Num(s.generation))
            && Lookup(ms, Ascii("revision")) == Some(Num(s.revision))
  {
    hide Ascii, Plainly, Lookup, CollectionMembers;
    FieldNames();
    var ms := SnapshotJson(f, s).members;
    LookupAt(ms, 0);
    LookupAt(ms, 1);
    LookupAt(ms, 2);
    LookupAt(ms, 3);
    LookupAt(ms, 4);
    LookupAt(ms, 5);
    LookupAt(ms, 6);
  }

  lemma {:induction false} CollectionAt(names: seq<Text>, docs: Docs, name: Text)
    ensures Lookup(CollectionMembers(names, docs), name)
         == if name in names then Some(Arr(if name in docs then docs[name] else [])) else None
    ensures name in NamesIn(CollectionMembers(names, docs)) <==> name in names
  {
    if names != [] {
      var more := CollectionMembers(names[1..], docs);
      CollectionAt(names[1..], docs, name);
      assert CollectionMembers(names, docs)[1..] == more;
      NamesInMore(CollectionMembers(names, docs)[0], more, name);
    }
  }

  lemma NamesInMore(m: Member, rest: seq<Member>, name: Text)
    ensures name in NamesIn([m] + rest) <==> name == m.name || name in NamesIn(rest)
  {
    if name in NamesIn(rest) {
      var r :| r in rest && r.name == name;
      assert r in [m] + rest;
    }
    assert m in [m] + rest;
  }

  /** A snapshot has the shape of an envelope exactly when its database has a name of at most 256
      units, generation and revision are counts, and the catalog is an object with a well-formed
      entry for each collection, of a name that is not empty, whose documents are all objects. */
  lemma EnvelopeExactly(f: Format, s: Snapshot)
    ensures IsEnvelope(SnapshotJson(f, s)) <==>
              && 1 <= |s.databaseId| <= 256
              && 0 <= s.generation <= MAX_SAFE_INTEGER && 0 <= s.revision <= MAX_SAFE_INTEGER
              && f.catalog.Obj?
              && (forall name :: name in NamesIn(f.catalog.members) <==> name in f.names)
              && forall i :: 0 <= i < |f.catalog.members| ==>
                   var entry := f.catalog.members[i];
                   && entry.name != [] && IsCatalogEntry(entry.value)
                   && (entry.name in s.docs ==>
                         forall j :: 0 <= j < |s.docs[entry.name]| ==> s.docs[entry.name][j].Obj?)
  {
    hide Ascii, Lookup, SnapshotJson, CollectionMembers, IsCatalogEntry, NamesIn;
    EnvelopeFields(f, s);
    SnapshotIsObject(f, s);
    var collections := CollectionMembers(f.names, s.docs);
    forall name
      ensures name in NamesIn(collections) <==> name in f.names
      ensures name in f.names ==>
                Lookup(collections, name) == Some(Arr(if name in s.docs then s.docs[name] else []))
    {
      CollectionAt(f.names, s.docs, name);
    }
    if f.catalog.Obj? {
      var entries := f.catalog.members;
      forall i | 0 <= i < |entries|
        ensures entries[i].name in NamesIn(entries)
      {
        EntryNamed(entries, i);
      }
    }
  }

  lemma EntryNamed(members: seq<Member>, i: nat)
    requires i < |members|
    ensures members[i].name in NamesIn(members)
  {
    assert members[i] in members;
  }

  lemma SnapshotIsObject(f: Format, s: Snapshot)
    ensures SnapshotJson(f, s).Obj?
  {
  }

  lemma EntryShaped()
    ensures IsCatalogEntry(Obj(ENTRY))
  {
    hide Ascii, Lookup;
    AsciiPlain("generatedPrimaryKey");
    AsciiPlain("indexes");
    AsciiPlain("primaryKey");
    AsciiPlain("id");
    LookupAt(ENTRY, 0);
    LookupAt(ENTRY, 1);
    LookupAt(ENTRY, 2);
  }

  lemma Shaped(checksum: Snapshot -> Text, s: Snapshot, docs: seq<Json>)
    requires s.databaseId == Ascii("db") && s.docs == map[ITEMS := docs]
    requires 0 <= s.generation < 10 && 0 <= s.revision < 10
    requires forall i :: 0 <= i < |docs| ==> docs[i].Obj?
    ensures IsEnvelope(SnapshotJson(ItemsFormat(checksum), s))
  {
    hide Ascii, Plainly, Lookup, CollectionMembers, IsCatalogEntry;
    var f := ItemsFormat(checksum);
    FieldNames();
    EnvelopeFields(f, s);
    EntryShaped();
    OneCollection(f, s, docs);
    LookupAt([Member(ITEMS, Arr(docs))], 0);
    assert NamesIn(CATALOG.members) == {ITEMS} == NamesIn([Member(ITEMS, Arr(docs))]);
  }

  /* ---------- the two snapshots ---------- */

  const NULLS: nat := 99_990

  const COPIES: nat := 11

  /** The default limit in bytes. */
  const DEFAULT_MAX_BYTES: MaxBytes := 64 * 1024 * 1024

  function Nulls(n: nat): seq<Json> {
    seq(n, _ => Null)
  }

  function Document(i: nat): Json {
    Obj([Member(Ascii("id"), Num(i)), Member(Ascii("values"), Arr(Nulls(NULLS)))])
  }

  function Documents(): seq<Json> {
    seq(COPIES, (i: nat) => Document(i))
  }

  const FIRST: Snapshot := Holding(1, 0, [])

  function Second(): Snapshot {
    Holding(2, 1, Documents())
  }

  lemma NullsParts()
    ensures C.CountItems(Nulls(NULLS)) == NULLS && BoundItems(Nulls(NULLS)) <= 5 * NULLS
    ensures C.DepthItems(Nulls(NULLS)) == 0 && ItemsPlainly(Nulls(NULLS)) && ItemsUnique(Nulls(NULLS))
  {
    LikeItems(Nulls(NULLS), 1, 4, 0);
  }

  lemma NumberParts(i: nat)
    requires i < 100
    ensures |Decimal(i)| <= 2
  {
    if i >= 10 { assert |Digits(i / 10)| == 1; }
  }

  /** Each document is within every limit on a document. */
  lemma DocumentParts(i: nat)
    requires i < COPIES
    ensures C.Count(Document(i)) == NULLS + 3 <= 100_000 && C.Depth(Document(i)) <= 2 <= 64
    ensures Bound(Document(i)) <= 500_000 && S.Size(Document(i)) <= 1_048_576
    ensures AllPlainly(Document(i)) && UniqueNames(Document(i))
  {
    hide Ascii, Plainly, Nulls, BoundItems, C.CountItems, C.DepthItems, ItemsPlainly, ItemsUnique, Decimal, S.Stringify;
    AsciiPlain("id");
    AsciiPlain("values");
    NumberParts(i);
    NullsParts();
    ArrayParts(Nulls(NULLS), 5 * NULLS, 0);
    TwoMembers(Member(Ascii("id"), Num(i)), Member(Ascii("values"), Arr(Nulls(NULLS))));
    SizeBounded(Document(i));
  }

  lemma DocumentsParts()
    ensures C.CountItems(Documents()) == COPIES * (NULLS + 3) && BoundItems(Documents()) <= COPIES * 500_001
    ensures C.DepthItems(Documents()) <= 2 && ItemsPlainly(Documents()) && ItemsUnique(Documents())
  {
    hide Document;
    forall i | 0 <= i < COPIES
      ensures C.Count(Documents()[i]) == NULLS + 3 && Bound(Documents()[i]) <= 500_000 && C.Depth(Documents()[i]) <= 2
      ensures AllPlainly(Documents()[i]) && UniqueNames(Documents()[i])
    {
      DocumentParts(i);
    }
    LikeItems(Documents(), NULLS + 3, 500_000, 2);
  }

  lemma NoDocuments()
    ensures BoundItems([]) == 0 && C.DepthItems([]) == 0 && ItemsPlainly([]) && ItemsUnique([])
  {
  }

  lemma BytesBounded(f: Format, s: Snapshot, bound: nat)
    requires AllPlainly(FileJson(f, s)) && Bound(FileJson(f, s)) <= bound
    ensures FileBytes(f, s) <= bound + 1
  {
    hide FileJson, S.Stringify, Bound, AllPlainly;
    FileBytesAre(f, s);
    SizeBounded(FileJson(f, s));
  }

  /** The first snapshot can be written and read. */
  lemma FirstReadable(checksum: Snapshot -> Text)
    requires Checksums(checksum)
    ensures Readable(ItemsFormat(checksum), DEFAULT_MAX_BYTES, FIRST)
  {
    hide FileJson, SnapshotJson, IsEnvelope, Readable, FileBytes, C.Count, C.Depth, Bound, UniqueNames, AllPlainly;
    var f := ItemsFormat(checksum);
    NoDocuments();
    FileParts(checksum, FIRST, [], 0, 0);
    BytesBounded(f, FIRST, 7 * 354 + 150);
    CountBounded(FileJson(f, FIRST));
    Shaped(checksum, FIRST, []);
    ReadableExactly(f, DEFAULT_MAX_BYTES, FIRST);
  }

  /** The second can be written and cannot be read; although nothing is wrong with its envelope, and every
      document in it is within every limit on a document. */
  lemma SecondWritableOnly(checksum: Snapshot -> Text)
    requires Checksums(checksum)
    ensures Writable(ItemsFormat(checksum), DEFAULT_MAX_BYTES, Second())
    ensures !Readable(ItemsFormat(checksum), DEFAULT_MAX_BYTES, Second())
    ensures IsEnvelope(SnapshotJson(ItemsFormat(checksum), Second()))
    ensures forall i :: 0 <= i < |Second().docs[ITEMS]| ==>
              var doc := Second().docs[ITEMS][i];
              C.Count(doc) <= 100_000 && C.Depth(doc) <= 64 && S.Size(doc) <= 1_048_576
  {
    hide FileJson, SnapshotJson, IsEnvelope, Readable, FileBytes, C.Count, C.Depth, Bound, UniqueNames, AllPlainly;
    hide Document;
    hide S.Stringify, C.CountItems;
    var f := ItemsFormat(checksum);
    DocumentsParts();
    FileParts(checksum, Second(), Documents(), COPIES * 500_001, 2);
    BytesBounded(f, Second(), 7 * (COPIES * 500_001 + 354) + 150);
    forall i | 0 <= i < COPIES
      ensures Document(i).Obj?
    {
      IsObject(i);
    }
    Shaped(checksum, Second(), Documents());
    TooManyValues(f, DEFAULT_MAX_BYTES, Second(), ITEMS);
    forall i | 0 <= i < COPIES
      ensures C.Count(Document(i)) <= 100_000 && C.Depth(Document(i)) <= 64 && S.Size(Document(i)) <= 1_048_576
    {
      DocumentParts(i);
    }
  }

  lemma IsObject(i: nat)
    ensures Document(i).Obj?
  {
  }

  /** On the objects, with the default limits, nothing failing and power never lost: both snapshots are
      acknowledged, every sync real; then the next store is refused, and the next opening is too, or, if it
      may recover, puts the first snapshot in the place of the second. */
  method AcknowledgedAndLost(checksum: Snapshot -> Text, recover: bool)
    returns (acks: seq<Result<FileAck, FileError>>, refused: Result<FileAck, FileError>,
             found: Result<Option<Snapshot>, FileError>, left: Option<Snapshot>)
    requires Checksums(checksum)
    ensures |acks| == 2 && acks[0].Ok? && acks[1].Ok?
    ensures refused == Err(Corrupt)
    ensures found == if recover then Ok(Some(FIRST)) else Err(PermissionRequired)
    ensures left == Some(if recover then FIRST else Second())
  {
    hide Readable, Writable, Documents, Checksums;
    FirstReadable(checksum);
    SecondWritableOnly(checksum);
    acks, refused, found, left := CrashSafety.OversizedIsLost(
      FIRST, Second(), Holding(3, 2, []), ItemsFormat(checksum), DEFAULT_MAX_BYTES, recover);
  }
}
