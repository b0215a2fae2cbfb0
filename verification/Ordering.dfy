/** The value order behind `orderBy`, the document comparator built on it, and sorting. */
module Ordering {
  import opened Texts
  import opened Json
  import opened Keys
  import opened Paths

  /** `typeOrder.indexOf(typeof value)` for a non-null value; arrays and objects share a type. */
  function TypeRank(v: Json): int {
    match v
    case Bool(_) => 0
    case Num(_) => 1
    case Str(_) => 2
    case _ => 3
  }

  /** `compareJson`; None is a missing property. Only the sign matters. */
  function CompareJson(left: Option<Json>, right: Option<Json>): int {
    if left == right then 0
    else if left.None? then 1
    else if right.None? then -1
    else if left.value.Null? then 1
    else if right.value.Null? then -1
    else match (left.value, right.value)
      case (Num(a), Num(b)) => a - b
      case (Str(a), Str(b)) => if TextLess(a, b) then -1 else 1
      case (Bool(a), Bool(_)) => if a then 1 else -1
      case (a, b) => TypeRank(a) - TypeRank(b)
  }

  /** A comparison of three things by sign: antisymmetric and transitive. */
  ghost predicate Laws(ab: int, ba: int, bc: int, ac: int) {
    && (ab < 0 <==> ba > 0)
    && (ab > 0 <==> ba < 0)
    && (ab <= 0 && bc <= 0 ==> ac <= 0)
    && (ab >= 0 && bc >= 0 ==> ac >= 0)
    && (ab <= 0 && bc <= 0 && (ab < 0 || bc < 0) ==> ac < 0)
    && (ab >= 0 && bc >= 0 && (ab > 0 || bc > 0) ==> ac > 0)
  }

  lemma TextLaws(a: Text, b: Text, c: Text)
    ensures TextLess(a, b) || TextLess(b, a) || a == b
    ensures !(TextLess(a, b) && TextLess(b, a)) && !(TextLess(a, b) && a == b)
    ensures TextLess(a, b) && TextLess(b, c) ==> TextLess(a, c)
  {
    TextLessTotal(a, b);
    if TextLess(a, b) {
      TextLessAsymmetric(a, b);
      if TextLess(b, c) { TextLessTransitive(a, b, c); }
    }
  }

  /** `compareJson` is a total preorder on all values and the missing one. */
  lemma CompareJsonLaws(a: Option<Json>, b: Option<Json>, c: Option<Json>)
    ensures Laws(CompareJson(a, b), CompareJson(b, a), CompareJson(b, c), CompareJson(a, c))
  {
    hide TextLess;
    if a.Some? && a.value.Str? && b.Some? && b.value.Str? {
      var x, y := a.value.s, b.value.s;
      TextLaws(x, y, x);
      if c.Some? && c.value.Str? {
        var z := c.value.s;
        TextLaws(x, y, z);
        TextLaws(y, z, x);
        TextLaws(z, x, y);
        TextLaws(z, y, x);
        TextLaws(y, x, z);
        TextLaws(x, z, y);
      }
    }
  }

  /** Kinds of values in the order they sort: what is missing comes last, and null just before. */
  datatype Kind = Booleans | Numbers | Strings | Structures | Nulls | Missing

  function KindOf(v: Option<Json>): Kind {
    match v
    case None => Missing
    case Some(Null) => Nulls
    case Some(Bool(_)) => Booleans
    case Some(Num(_)) => Numbers
    case Some(Str(_)) => Strings
    case Some(Arr(_)) => Structures
    case Some(Obj(_)) => Structures
  }

  /** One kind comes before another as they are listed above. */
  predicate KindBefore(a: Kind, b: Kind) {
    match a
    case Booleans => !b.Booleans?
    case Numbers => b.Strings? || b.Structures? || b.Nulls? || b.Missing?
    case Strings => b.Structures? || b.Nulls? || b.Missing?
    case Structures => b.Nulls? || b.Missing?
    case Nulls => b.Missing?
    case Missing => false
  }

  /** The order of values: by kind, false before true, numbers by size, strings by code units;
      arrays and objects are not told apart. */
  predicate Before(a: Option<Json>, b: Option<Json>) {
    match (a, b)
    case (Some(Bool(x)), Some(Bool(y))) => !x && y
    case (Some(Num(x)), Some(Num(y))) => x < y
    case (Some(Str(x)), Some(Str(y))) => TextLess(x, y)
    case _ => KindBefore(KindOf(a), KindOf(b))
  }

  /** The comparator is negative exactly on values in that order, and positive in the reverse. */
  lemma CompareJsonMeans(a: Option<Json>, b: Option<Json>)
    ensures CompareJson(a, b) < 0 <==> Before(a, b)
    ensures CompareJson(a, b) > 0 <==> Before(b, a)
  {
    hide TextLess;
    if a.Some? && a.value.Str? && b.Some? && b.value.Str? { TextLaws(a.value.s, b.value.s, a.value.s); }
  }

  /* ---------- documents ---------- */

  datatype OrderBy = OrderBy(descending: bool, path: Path)

  function CompareFields(order: seq<OrderBy>, left: Json, right: Json): int {
    if order == [] then 0
    else
      var compared := CompareJson(ReadPath(left, order[0].path), ReadPath(right, order[0].path));
      if compared != 0 then (if order[0].descending then -compared else compared)
      else CompareFields(order[1..], left, right)
  }

  function KeyValue(doc: Json, field: Text): Option<Json> {
    match DocumentKey(doc, field)
    case Some(KStr(s)) => Some(Str(s))
    case Some(KNum(n)) => Some(Num(n))
    case None => None
  }

  /** Ordering fields first, then the primary key. */
  function CompareDocs(order: seq<OrderBy>, field: Text, left: Json, right: Json): int {
    var compared := CompareFields(order, left, right);
    if compared != 0 then compared else CompareJson(KeyValue(left, field), KeyValue(right, field))
  }

  /** The first document comes before the second on one ordering field. */
  predicate FieldBefore(o: OrderBy, left: Json, right: Json) {
    if o.descending then Before(ReadPath(right, o.path), ReadPath(left, o.path))
    else Before(ReadPath(left, o.path), ReadPath(right, o.path))
  }

  predicate FieldTies(o: OrderBy, left: Json, right: Json) {
    !FieldBefore(o, left, right) && !FieldBefore(o, right, left)
  }

  /** The two tie on the ordering fields before the i-th, and on that one the left comes first. */
  ghost predicate DecidedAt(order: seq<OrderBy>, left: Json, right: Json, i: nat) {
    && i < |order| && FieldBefore(order[i], left, right)
    && forall j :: 0 <= j < i ==> FieldTies(order[j], left, right)
  }

  ghost predicate AllTie(order: seq<OrderBy>, left: Json, right: Json) {
    forall j :: 0 <= j < |order| ==> FieldTies(order[j], left, right)
  }

  /** The first ordering field on which two documents do not tie decides; if they tie on all of
      them, the values of their primary keys do, ascending. */
  ghost predicate DocBefore(order: seq<OrderBy>, field: Text, left: Json, right: Json) {
    || (exists i :: DecidedAt(order, left, right, i))
    || (AllTie(order, left, right) && Before(ReadPath(left, [Name(field)]), ReadPath(right, [Name(field)])))
  }

  lemma DecidedLater(order: seq<OrderBy>, left: Json, right: Json, i: nat)
    requires order != [] && FieldTies(order[0], left, right)
    ensures DecidedAt(order[1..], left, right, i) <==> DecidedAt(order, left, right, i + 1)
  {
    hide FieldBefore, FieldTies;
    assert forall j :: 0 <= j < |order| - 1 ==> order[1..][j] == order[j + 1];
    assert forall j :: 1 <= j < |order| ==> order[j] == order[1..][j - 1];
  }

  lemma DecidedFirst(order: seq<OrderBy>, left: Json, right: Json)
    requires order != [] && !FieldTies(order[0], left, right)
    ensures (exists i :: DecidedAt(order, left, right, i)) <==> FieldBefore(order[0], left, right)
    ensures !AllTie(order, left, right)
  {
    hide FieldBefore, FieldTies;
    if FieldBefore(order[0], left, right) { assert DecidedAt(order, left, right, 0); }
  }

  lemma TiesLater(order: seq<OrderBy>, left: Json, right: Json)
    requires order != [] && FieldTies(order[0], left, right)
    ensures AllTie(order, left, right) <==> AllTie(order[1..], left, right)
    ensures (exists i :: DecidedAt(order, left, right, i)) <==> exists i :: DecidedAt(order[1..], left, right, i)
  {
    hide FieldBefore;
    if i: nat :| DecidedAt(order[1..], left, right, i) { DecidedLater(order, left, right, i); }
    if i: nat :| DecidedAt(order, left, right, i) { DecidedLater(order, left, right, i - 1); }
    assert forall j :: 1 <= j < |order| ==> order[j] == order[1..][j - 1];
  }

  lemma FieldCompared(o: OrderBy, left: Json, right: Json)
    ensures var compared := CompareJson(ReadPath(left, o.path), ReadPath(right, o.path));
            var signed := if o.descending then -compared else compared;
            (signed < 0 <==> FieldBefore(o, left, right)) && (signed == 0 <==> FieldTies(o, left, right))
  {
    hide CompareJson, Before, ReadPath;
    CompareJsonMeans(ReadPath(left, o.path), ReadPath(right, o.path));
  }

  lemma {:induction false} CompareFieldsMeans(order: seq<OrderBy>, left: Json, right: Json)
    ensures CompareFields(order, left, right) < 0 <==> exists i :: DecidedAt(order, left, right, i)
    ensures CompareFields(order, left, right) == 0 <==> AllTie(order, left, right)
    decreases |order|
  {
    if order != [] {
      hide CompareJson, ReadPath, FieldBefore, FieldTies, DecidedAt, AllTie;
      FieldCompared(order[0], left, right);
      if FieldTies(order[0], left, right) {
        CompareFieldsMeans(order[1..], left, right);
        TiesLater(order, left, right);
      } else {
        DecidedFirst(order, left, right);
      }
    }
  }

  lemma KeyValueIs(doc: Json, field: Text)
    requires DocumentKey(doc, field).Some?
    ensures KeyValue(doc, field) == ReadPath(doc, [Name(field)])
  {
    ReadOneName(doc, field);
  }

  /** What it means that the comparator puts one document before another. */
  lemma CompareDocsMeans(order: seq<OrderBy>, field: Text, left: Json, right: Json)
    requires DocumentKey(left, field).Some? && DocumentKey(right, field).Some?
    ensures CompareDocs(order, field, left, right) < 0 <==> DocBefore(order, field, left, right)
  {
    hide CompareFields, CompareJson, Before, ReadPath, KeyValue, DocumentKey, FieldBefore, FieldTies;
    CompareFieldsMeans(order, left, right);
    KeyValueIs(left, field);
    KeyValueIs(right, field);
    CompareJsonMeans(KeyValue(left, field), KeyValue(right, field));
  }

  /** A document with its place in the candidate list, the source's last tie-break. */
  datatype Ranked = Ranked(doc: Json, position: int)

  function CompareRanked(order: seq<OrderBy>, field: Text, left: Ranked, right: Ranked): int {
    var compared := CompareDocs(order, field, left.doc, right.doc);
    if compared != 0 then compared else left.position - right.position
  }

  lemma {:induction false} CompareFieldsLaws(order: seq<OrderBy>, a: Json, b: Json, c: Json)
    ensures Laws(CompareFields(order, a, b), CompareFields(order, b, a),
                 CompareFields(order, b, c), CompareFields(order, a, c))
    decreases |order|
  {
    hide CompareJson, ReadPath;
    if order != [] {
      var path := order[0].path;
      CompareJsonLaws(ReadPath(a, path), ReadPath(b, path), ReadPath(c, path));
      CompareJsonLaws(ReadPath(b, path), ReadPath(a, path), ReadPath(c, path));
      CompareFieldsLaws(order[1..], a, b, c);
    }
  }

  lemma CompareRankedLaws(order: seq<OrderBy>, field: Text, a: Ranked, b: Ranked, c: Ranked)
    ensures Laws(CompareRanked(order, field, a, b), CompareRanked(order, field, b, a),
                 CompareRanked(order, field, b, c), CompareRanked(order, field, a, c))
  {
    hide CompareJson, CompareFields, KeyValue;
    CompareFieldsLaws(order, a.doc, b.doc, c.doc);
    CompareFieldsLaws(order, b.doc, a.doc, c.doc);
    CompareJsonLaws(KeyValue(a.doc, field), KeyValue(b.doc, field), KeyValue(c.doc, field));
    CompareJsonLaws(KeyValue(b.doc, field), KeyValue(a.doc, field), KeyValue(c.doc, field));
  }

  /** Documents with different keys never tie. */
  lemma DifferentKeysDiffer(order: seq<OrderBy>, field: Text, a: Json, b: Json)
    requires DocumentKey(a, field).Some? && DocumentKey(b, field).Some?
    requires DocumentKey(a, field) != DocumentKey(b, field)
    ensures CompareDocs(order, field, a, b) != 0
  {
    hide CompareFields;
  }

  /* ---------- sorting ---------- */

  /** Stable insertion: after everything not greater. */
  function InsertRanked(order: seq<OrderBy>, field: Text, x: Ranked, s: seq<Ranked>): (r: seq<Ranked>)
    ensures multiset(r) == multiset(s) + multiset{x}
  {
    if s == [] then [x]
    else if CompareRanked(order, field, x, s[0]) < 0 then [x] + s
    else
      assert s == [s[0]] + s[1..];
      [s[0]] + InsertRanked(order, field, x, s[1..])
  }

  function SortRanked(order: seq<OrderBy>, field: Text, s: seq<Ranked>): (r: seq<Ranked>)
    ensures multiset(r) == multiset(s)
    decreases |s|
  {
    if s == [] then []
    else
      var last := |s| - 1;
      assert s == s[..last] + [s[last]];
      InsertRanked(order, field, s[last], SortRanked(order, field, s[..last]))
  }

  /** Non-descending throughout. */
  ghost predicate SortedRanked(order: seq<OrderBy>, field: Text, s: seq<Ranked>) {
    forall i, j :: 0 <= i < j < |s| ==> CompareRanked(order, field, s[i], s[j]) <= 0
  }

  lemma {:induction false} InsertKeepsSorted(order: seq<OrderBy>, field: Text, x: Ranked, s: seq<Ranked>)
    requires SortedRanked(order, field, s)
    ensures SortedRanked(order, field, InsertRanked(order, field, x, s))
    decreases |s|
  {
    hide CompareRanked;
    if s != [] {
      var r := InsertRanked(order, field, x, s);
      CompareRankedLaws(order, field, x, s[0], s[0]);
      if CompareRanked(order, field, x, s[0]) < 0 {
        forall j | 1 <= j < |r|
          ensures CompareRanked(order, field, x, r[j]) <= 0
        {
          CompareRankedLaws(order, field, x, s[0], r[j]);
        }
      } else {
        InsertKeepsSorted(order, field, x, s[1..]);
        var rest := InsertRanked(order, field, x, s[1..]);
        forall j | 0 <= j < |rest|
          ensures CompareRanked(order, field, s[0], rest[j]) <= 0
        {
          assert rest[j] in multiset(rest);
          assert rest[j] == x || rest[j] in s[1..];
        }
      }
    }
  }

  lemma {:induction false} SortIsSorted(order: seq<OrderBy>, field: Text, s: seq<Ranked>)
    ensures SortedRanked(order, field, SortRanked(order, field, s))
    decreases |s|
  {
    if s != [] {
      SortIsSorted(order, field, s[..|s| - 1]);
      InsertKeepsSorted(order, field, s[|s| - 1], SortRanked(order, field, s[..|s| - 1]));
    }
  }

  function Docs(s: seq<Ranked>): (r: seq<Json>)
    ensures |r| == |s| && forall i :: 0 <= i < |s| ==> r[i] == s[i].doc
  {
    seq(|s|, i requires 0 <= i < |s| => s[i].doc)
  }

  function Rank(docs: seq<Json>): (r: seq<Ranked>)
    ensures |r| == |docs| && forall i :: 0 <= i < |docs| ==> r[i] == Ranked(docs[i], i)
  {
    seq(|docs|, i requires 0 <= i < |docs| => Ranked(docs[i], i))
  }

  /** The ordered branch's map, sort, map. */
  function SortDocs(order: seq<OrderBy>, field: Text, docs: seq<Json>): seq<Json> {
    Docs(SortRanked(order, field, Rank(docs)))
  }

  /** Strictly ascending by fields and key alone. */
  ghost predicate Ascending(order: seq<OrderBy>, field: Text, docs: seq<Json>) {
    forall i, j :: 0 <= i < j < |docs| ==> CompareDocs(order, field, docs[i], docs[j]) < 0
  }

  ghost predicate DistinctKeys(field: Text, docs: seq<Json>) {
    && (forall i :: 0 <= i < |docs| ==> DocumentKey(docs[i], field).Some?)
    && forall i, j :: 0 <= i < j < |docs| ==> DocumentKey(docs[i], field) != DocumentKey(docs[j], field)
  }

  lemma HeadMultiset<T>(s: seq<T>)
    requires s != []
    ensures multiset(s[1..]) == multiset(s) - multiset{s[0]}
  {
    assert s == [s[0]] + s[1..];
  }

  /** Moving one element to the front does not change what a sequence holds. */
  lemma PullFront<T>(s: seq<T>, i: nat)
    requires i < |s|
    ensures multiset(s) == multiset{s[i]} + multiset(s[..i] + s[i + 1..])
    ensures multiset(s[..i] + s[i + 1..]) == multiset(s) - multiset{s[i]}
  {
    assert s == s[..i] + [s[i]] + s[i + 1..];
  }

  lemma DocsPullFront(s: seq<Ranked>, i: nat)
    requires i < |s|
    ensures multiset(Docs(s)) == multiset{s[i].doc} + multiset(Docs(s[..i] + s[i + 1..]))
  {
    PullFront(Docs(s), i);
    assert Docs(s[..i] + s[i + 1..]) == Docs(s)[..i] + Docs(s)[i + 1..];
  }

  lemma {:induction false} DocsMultiset(a: seq<Ranked>, b: seq<Ranked>)
    requires multiset(a) == multiset(b)
    ensures multiset(Docs(a)) == multiset(Docs(b))
    decreases |a|
  {
    if a == [] {
      assert |multiset(b)| == 0;
    } else {
      assert a[0] in multiset(b);
      var i :| 0 <= i < |b| && b[i] == a[0];
      var a', b' := a[..0] + a[1..], b[..i] + b[i + 1..];
      PullFront(a, 0);
      PullFront(b, i);
      DocsMultiset(a', b');
      DocsPullFront(a, 0);
      DocsPullFront(b, i);
    }
  }

  lemma {:induction false} RankDocs(docs: seq<Json>)
    ensures Docs(Rank(docs)) == docs
  {
    assert Docs(Rank(docs)) == docs;
  }

  /** In a list of documents with distinct keys, two occurrences are one place. */
  lemma KeysPlace(field: Text, docs: seq<Json>, s: seq<Json>)
    requires DistinctKeys(field, docs) && multiset(s) == multiset(docs)
    ensures DistinctKeys(field, s)
  {
    forall i | 0 <= i < |s|
      ensures s[i] in docs
    {
      assert s[i] in multiset(s);
    }
    forall i, j | 0 <= i < j < |s|
      ensures DocumentKey(s[i], field) != DocumentKey(s[j], field)
    {
      if DocumentKey(s[i], field) == DocumentKey(s[j], field) {
        var a :| 0 <= a < |docs| && docs[a] == s[i];
        var b :| 0 <= b < |docs| && docs[b] == s[j];
        assert a == b;
        Twice(s, i, j);
        Once(docs, a);
        assert false;
      }
    }
  }

  lemma Twice(s: seq<Json>, i: nat, j: nat)
    requires i < j < |s| && s[i] == s[j]
    ensures multiset(s)[s[i]] >= 2
  {
    assert s == s[..i] + [s[i]] + s[i + 1..j] + [s[j]] + s[j + 1..];
  }

  lemma Once(s: seq<Json>, i: nat)
    requires i < |s| && forall j :: 0 <= j < |s| && j != i ==> s[j] != s[i]
    ensures multiset(s)[s[i]] == 1
  {
    assert s == s[..i] + [s[i]] + s[i + 1..];
    assert s[i] !in s[..i] && s[i] !in s[i + 1..];
  }

  /** Sorting documents with distinct keys gives a strictly ascending permutation of them. */
  lemma SortDocsAscending(order: seq<OrderBy>, field: Text, docs: seq<Json>)
    requires DistinctKeys(field, docs)
    ensures Ascending(order, field, SortDocs(order, field, docs))
    ensures multiset(SortDocs(order, field, docs)) == multiset(docs)
  {
    hide CompareDocs, DocumentKey;
    var sorted := SortRanked(order, field, Rank(docs));
    SortIsSorted(order, field, Rank(docs));
    DocsMultiset(sorted, Rank(docs));
    RankDocs(docs);
    var s := Docs(sorted);
    KeysPlace(field, docs, s);
    forall i, j | 0 <= i < j < |s|
      ensures CompareDocs(order, field, s[i], s[j]) < 0
    {
      DifferentKeysDiffer(order, field, s[i], s[j]);
      assert CompareRanked(order, field, sorted[i], sorted[j]) <= 0;
    }
  }

  lemma CompareDocsLaws(order: seq<OrderBy>, field: Text, a: Json, b: Json)
    ensures CompareDocs(order, field, a, b) < 0 ==> CompareDocs(order, field, b, a) > 0
    ensures CompareDocs(order, field, a, a) == 0
  {
    hide CompareDocs;
    CompareRankedLaws(order, field, Ranked(a, 0), Ranked(b, 0), Ranked(a, 0));
    CompareRankedLaws(order, field, Ranked(a, 0), Ranked(a, 0), Ranked(a, 0));
  }

  /** On documents with different keys the comparator is a strict total order: of any two exactly
      one comes first, and coming first is transitive. */
  lemma StrictTotalOrder(order: seq<OrderBy>, field: Text, a: Json, b: Json, c: Json)
    requires DocumentKey(a, field).Some? && DocumentKey(b, field).Some? && DocumentKey(c, field).Some?
    requires DocumentKey(a, field) != DocumentKey(b, field)
    ensures CompareDocs(order, field, a, b) < 0 <==> !(CompareDocs(order, field, b, a) < 0)
    ensures CompareDocs(order, field, a, b) < 0 && CompareDocs(order, field, b, c) < 0
        ==> CompareDocs(order, field, a, c) < 0
  {
    hide CompareDocs, DocumentKey;
    DifferentKeysDiffer(order, field, a, b);
    CompareRankedLaws(order, field, Ranked(a, 0), Ranked(b, 0), Ranked(c, 0));
  }

  lemma HeadsAgree(order: seq<OrderBy>, field: Text, a: seq<Json>, b: seq<Json>)
    requires Ascending(order, field, a) && Ascending(order, field, b)
    requires multiset(a) == multiset(b) && a != [] && b != []
    ensures a[0] == b[0]
  {
    hide CompareDocs;
    assert a[0] in multiset(b) && b[0] in multiset(a);
    var i :| 0 <= i < |b| && b[i] == a[0];
    var j :| 0 <= j < |a| && a[j] == b[0];
    CompareDocsLaws(order, field, b[0], a[0]);
  }

  /** There is only one strictly ascending arrangement: whatever sorting algorithm is used and
      whatever order the candidates came in, the ordered list is the same. */
  lemma {:induction false} AscendingUnique(order: seq<OrderBy>, field: Text, a: seq<Json>, b: seq<Json>)
    requires Ascending(order, field, a) && Ascending(order, field, b)
    requires multiset(a) == multiset(b)
    ensures a == b
    decreases |a|
  {
    hide CompareDocs;
    assert |multiset(a)| == |a| && |multiset(b)| == |b|;
    if a != [] {
      HeadsAgree(order, field, a, b);
      HeadMultiset(a);
      HeadMultiset(b);
      AscendingUnique(order, field, a[1..], b[1..]);
      assert a == [a[0]] + a[1..] && b == [b[0]] + b[1..];
    }
  }
}
