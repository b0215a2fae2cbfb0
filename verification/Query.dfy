/** Query execution: choosing a plan, gathering candidates, and returning the same documents
    whichever plan was chosen. */
module Queries {
  import opened Texts
  import opened Json
  import opened Keys
  import opened Paths
  import opened Conditions
  import opened Collections
  import opened Ordering
  import Engine

  const MAX_QUERY_CANDIDATES: nat := 100_000
  const MAX_QUERY_RESULTS: nat := 100_000
  const MAX_SORT_CANDIDATES: nat := 100_000

  datatype Plan = Primary | Secondary(index: nat) | Scan

  datatype Options = Options(limit: Option<nat>, offset: nat, order: Option<seq<OrderBy>>)

  datatype QueryError = CandidateLimit | ResultLimit | SortLimit

  /* ---------- the answer, independent of any plan ---------- */

  function Slice<T>(s: seq<T>, offset: nat, limit: Option<nat>): seq<T> {
    if offset >= |s| then []
    else if limit.Some? && offset + limit.value < |s| then s[offset..offset + limit.value]
    else s[offset..]
  }

  /** Every matching document of the collection, in collection order. */
  function Matches(c: Coll, condition: Where): seq<Json> {
    Engine.Select(c.order, c.records, doc => Eval(condition, doc))
  }

  /** What a query means: match, order if asked, then take the window. */
  function Answer(c: Coll, condition: Where, options: Options): seq<Json> {
    var matches := Matches(c, condition);
    Slice(if options.order.Some? then SortDocs(options.order.value, c.schema.primaryKey, matches) else matches,
          options.offset, options.limit)
  }

  /* ---------- plans ---------- */

  function FirstIndex(ixs: seq<Index>, path: Path, from: nat): (r: Option<nat>)
    requires from <= |ixs|
    ensures r.Some? ==> from <= r.value < |ixs| && ixs[r.value].def.path == path
    decreases |ixs| - from
  {
    if from == |ixs| then None
    else if SamePath(path, ixs[from].def.path) then Some(from)
    else FirstIndex(ixs, path, from + 1)
  }

  function ChoosePlan(c: Coll, condition: Where): Plan {
    if !(condition.Compare? && condition.op.Eq?) then Scan
    else if SamePath(condition.path, [Name(c.schema.primaryKey)]) then Primary
    else match FirstIndex(c.indexes, condition.path, 0)
      case Some(i) => Secondary(i)
      case None => Scan
  }

  lemma {:induction false} FirstIndexIsFirst(ixs: seq<Index>, path: Path, from: nat)
    requires from <= |ixs|
    ensures var r := FirstIndex(ixs, path, from); var end := if r.Some? then r.value else |ixs|;
            forall i :: from <= i < end ==> ixs[i].def.path != path
    decreases |ixs| - from
  {
    if from < |ixs| && ixs[from].def.path != path { FirstIndexIsFirst(ixs, path, from + 1); }
  }

  /** A lookup is used exactly for equality: by primary key on the key property itself, otherwise
      through the first index on the path. Everything else scans. */
  lemma PlansExactly(c: Coll, condition: Where)
    ensures var plan := ChoosePlan(c, condition);
            var equality := condition.Compare? && condition.op.Eq?;
            && (plan.Primary? <==> equality && condition.path == [Name(c.schema.primaryKey)])
            && (plan.Secondary? ==> plan.index < |c.indexes|)
            && (forall i :: 0 <= i < |c.indexes| ==>
                  (plan == Secondary(i) <==>
                    && equality && condition.path != [Name(c.schema.primaryKey)]
                    && c.indexes[i].def.path == condition.path
                    && forall j :: 0 <= j < i ==> c.indexes[j].def.path != condition.path))
  {
    if condition.Compare? { FirstIndexIsFirst(c.indexes, condition.path, 0); }
  }

  /** A plan that may be used for a condition, whether or not it is the one chosen. */
  predicate Applicable(c: Coll, condition: Where, plan: Plan) {
    match plan
    case Scan => true
    case Primary => condition.Compare? && condition.op.Eq? && condition.path == [Name(c.schema.primaryKey)]
    case Secondary(i) =>
      condition.Compare? && condition.op.Eq? && i < |c.indexes| && condition.path == c.indexes[i].def.path
      && IsPrimitive(condition.value)
  }

  /** `encodeKey` on a query value: anything but a non-empty string or safe integer throws. */
  function EncodeValue(value: Json): Option<Text> {
    match value
    case Str(s) => EncodeKey(KStr(s))
    case Num(n) => EncodeKey(KNum(n))
    case _ => None
  }

  function PositionOf(c: Coll, slot: Text): int {
    if slot in c.positions then c.positions[slot] else MAX_SAFE_INTEGER
  }

  /** Insertion by position; stands for sorting a bucket with the position comparator. */
  function InsertSlot(c: Coll, slot: Text, s: seq<Text>): (r: seq<Text>)
    ensures forall k :: k in r <==> k == slot || k in s
  {
    if s == [] then [slot]
    else if PositionOf(c, slot) < PositionOf(c, s[0]) then [slot] + s
    else [s[0]] + InsertSlot(c, slot, s[1..])
  }

  method SortBucket(c: Coll, bucket: set<Text>) returns (sorted: seq<Text>)
    requires forall k :: k in bucket ==> k in c.positions
    requires forall k, k' :: k in bucket && k' in bucket && k != k' ==> c.positions[k] != c.positions[k']
    ensures forall k :: k in sorted <==> k in bucket
    ensures Rising(c.positions, sorted)
    ensures |sorted| == |bucket|
  {
    sorted := [];
    var todo := bucket;
    while todo != {}
      invariant todo <= bucket
      invariant forall k :: k in sorted <==> k in bucket && k !in todo
      invariant Rising(c.positions, sorted)
      invariant |sorted| + |todo| == |bucket|
      decreases todo
    {
      var k :| k in todo;
      InsertRises(c, k, sorted);
      sorted := InsertSlot(c, k, sorted);
      todo := todo - {k};
    }
  }

  /** Strictly ascending positions. */
  ghost predicate Rising(positions: map<Text, int>, s: seq<Text>) {
    && (forall i :: 0 <= i < |s| ==> s[i] in positions)
    && forall i, j :: 0 <= i < j < |s| ==> positions[s[i]] < positions[s[j]]
  }

  lemma {:induction false} InsertRises(c: Coll, slot: Text, s: seq<Text>)
    requires Rising(c.positions, s) && slot in c.positions
    requires forall k :: k in s ==> c.positions[k] != c.positions[slot]
    ensures Rising(c.positions, InsertSlot(c, slot, s))
    ensures |InsertSlot(c, slot, s)| == |s| + 1
  {
    if s != [] {
      assert s[0] in s;
      if PositionOf(c, slot) >= PositionOf(c, s[0]) {
        InsertRises(c, slot, s[1..]);
        var rest := InsertSlot(c, slot, s[1..]);
        forall j | 0 <= j < |rest|
          ensures rest[j] in c.positions && c.positions[s[0]] < c.positions[rest[j]]
        {
          assert rest[j] in rest;
          assert rest[j] == slot || rest[j] in s[1..];
        }
      }
    }
  }

  /* ---------- candidates decide nothing ---------- */

  /** The slots along a list whose record satisfies a condition. */
  function MatchingSlots(s: seq<Text>, records: map<Text, Json>, condition: Where): (r: seq<Text>)
    ensures forall k :: k in r <==> k in s && k in records && Eval(condition, records[k])
    ensures |r| <= |s|
  {
    if s == [] then []
    else
      (if s[0] in records && Eval(condition, records[s[0]]) then [s[0]] else [])
      + MatchingSlots(s[1..], records, condition)
  }

  function DocsAt(s: seq<Text>, records: map<Text, Json>): (docs: seq<Json>)
    requires forall k :: k in s ==> k in records
    ensures |docs| == |s| && forall i :: 0 <= i < |s| ==> docs[i] == records[s[i]]
  {
    seq(|s|, i requires 0 <= i < |s| => assert s[i] in s; records[s[i]])
  }

  lemma {:induction false} SelectIsDocsAt(s: seq<Text>, records: map<Text, Json>, condition: Where)
    ensures Engine.Select(s, records, doc => Eval(condition, doc))
         == DocsAt(MatchingSlots(s, records, condition), records)
  {
    hide Eval;
    if s != [] {
      SelectIsDocsAt(s[1..], records, condition);
      var rest := MatchingSlots(s[1..], records, condition);
      if s[0] in records && Eval(condition, records[s[0]]) {
        assert DocsAt([s[0]] + rest, records) == [records[s[0]]] + DocsAt(rest, records);
      } else {
        assert [] + rest == rest && [] + DocsAt(rest, records) == DocsAt(rest, records);
      }
    }
  }

  lemma {:induction false} MatchingRises(positions: map<Text, int>, s: seq<Text>, records: map<Text, Json>,
                                         condition: Where)
    requires Rising(positions, s)
    ensures Rising(positions, MatchingSlots(s, records, condition))
  {
    if s != [] {
      MatchingRises(positions, s[1..], records, condition);
      var rest := MatchingSlots(s[1..], records, condition);
      forall j | 0 <= j < |rest|
        ensures positions[s[0]] < positions[rest[j]]
      {
        assert rest[j] in rest && rest[j] in s[1..];
      }
    }
  }

  lemma NotEmpty(a: seq<Text>, b: seq<Text>)
    requires a != [] && forall k :: k in a ==> k in b
    ensures b != []
  {
    assert a[0] in a;
  }

  /** A set of slots has one rising arrangement. */
  lemma {:induction false} RisingUnique(positions: map<Text, int>, a: seq<Text>, b: seq<Text>)
    requires Rising(positions, a) && Rising(positions, b)
    requires forall k :: k in a <==> k in b
    ensures a == b
    decreases |a|
  {
    if a == [] {
      if b != [] { NotEmpty(b, a); }
    } else {
      assert a[0] in a;
      assert b[0] in b;
      var i :| 0 <= i < |b| && b[i] == a[0];
      var j :| 0 <= j < |a| && a[j] == b[0];
      assert i == 0 && j == 0;
      forall k ensures k in a[1..] <==> k in b[1..] {
        TailMember(positions, a, k);
        TailMember(positions, b, k);
      }
      RisingUnique(positions, a[1..], b[1..]);
      assert a == [a[0]] + a[1..] && b == [b[0]] + b[1..];
    }
  }

  lemma TailMember(positions: map<Text, int>, s: seq<Text>, k: Text)
    requires Rising(positions, s) && s != []
    ensures k in s[1..] <==> k in s && k != s[0]
  {
  }

  /** Candidates that are in position order and miss no match. */
  ghost predicate Sufficient(c: Coll, condition: Where, candidates: seq<Text>) {
    && Rising(c.positions, candidates)
    && |candidates| <= |c.order|
    && forall k :: k in c.records && Eval(condition, c.records[k]) ==> k in candidates
  }

  /** Any sufficient candidate list selects exactly the collection's matches, in order. */
  lemma SufficientSelects(c: Coll, condition: Where, candidates: seq<Text>)
    requires Valid(c) && Sufficient(c, condition, candidates)
    ensures Engine.Select(candidates, c.records, doc => Eval(condition, doc)) == Matches(c, condition)
  {
    SelectIsDocsAt(candidates, c.records, condition);
    SelectIsDocsAt(c.order, c.records, condition);
    assert Rising(c.positions, c.order);
    MatchingRises(c.positions, candidates, c.records, condition);
    MatchingRises(c.positions, c.order, c.records, condition);
    RisingUnique(c.positions, MatchingSlots(candidates, c.records, condition),
                 MatchingSlots(c.order, c.records, condition));
  }

  /** A matching record of a primary-key lookup is the one under the encoded value. */
  lemma PrimaryFinds(c: Coll, condition: Where, k: Text)
    requires Valid(c) && Applicable(c, condition, Primary)
    requires k in c.records && Eval(condition, c.records[k])
    ensures EncodeValue(condition.value) == Some(k)
  {
    assert Storable(c.schema, k, c.records[k]);
    ReadOneName(c.records[k], c.schema.primaryKey);
  }

  lemma SecondaryFinds(c: Coll, condition: Where, i: nat, k: Text)
    requires Valid(c) && Applicable(c, condition, Secondary(i))
    requires k in c.records && Eval(condition, c.records[k])
    ensures Filed(c.indexes[i].buckets, EncodeIndexValue(condition.value), k)
  {
    assert IndexOk(c.indexes[i], c.records);
    assert EntryOf(c.indexes[i].def.path, c.records[k]) == At(EncodeIndexValue(condition.value));
  }

  lemma BucketInOrder(c: Coll, i: nat, e: Text)
    requires Valid(c) && i < |c.indexes|
    ensures var bucket := Bucket(c.indexes[i].buckets, e);
            && (forall k :: k in bucket ==> k in c.positions)
            && (forall k, k' :: k in bucket && k' in bucket && k != k' ==> c.positions[k] != c.positions[k'])
            && |bucket| <= |c.order|
  {
    var bucket := Bucket(c.indexes[i].buckets, e);
    assert IndexOk(c.indexes[i], c.records);
    forall k | k in bucket
      ensures k in c.records && k in c.order
    {
      assert Filed(c.indexes[i].buckets, e, k);
    }
    SubsetOfOrder(c.order, bucket);
    forall k, k' | k in bucket && k' in bucket && k != k'
      ensures c.positions[k] != c.positions[k']
    {
      var a :| 0 <= a < |c.order| && c.order[a] == k;
      var b :| 0 <= b < |c.order| && c.order[b] == k';
    }
  }

  lemma {:induction false} SubsetOfOrder(s: seq<Text>, keys: set<Text>)
    requires forall k :: k in keys ==> k in s
    ensures |keys| <= |s|
  {
    if s == [] {
      assert forall k :: k !in keys;
    } else {
      SubsetOfOrder(s[1..], keys - {s[0]});
      assert keys <= (keys - {s[0]}) + {s[0]};
      assert |keys| <= |keys - {s[0]}| + 1;
    }
  }

  /** How many candidates a plan gathers. */
  function CandidateCount(c: Coll, condition: Where, plan: Plan): nat
    requires Applicable(c, condition, plan)
  {
    match plan
    case Primary => if EncodeValue(condition.value).Some? then 1 else 0
    case Secondary(i) => |Bucket(c.indexes[i].buckets, EncodeIndexValue(condition.value))|
    case Scan => |c.order|
  }

  /** The one candidate of a primary lookup is enough, or there is nothing to find. */
  lemma PrimarySufficient(c: Coll, condition: Where)
    requires Valid(c) && Applicable(c, condition, Primary)
    ensures var slot := EncodeValue(condition.value);
            var candidates := if slot.Some? then [slot.value] else [];
            Sufficient(c, condition, candidates) || MissingKey(c, condition, candidates)
  {
    hide Eval, EncodeValue;
    var slot := EncodeValue(condition.value);
    forall k | k in c.records && Eval(condition, c.records[k])
      ensures slot == Some(k)
    {
      PrimaryFinds(c, condition, k);
    }
    if slot.Some? && slot.value in c.records { InOrder(c, slot.value); }
  }

  lemma InOrder(c: Coll, slot: Text)
    requires Valid(c) && slot in c.records
    ensures slot in c.positions && |c.order| >= 1
  {
    assert slot in c.order;
  }

  /** And so is an index bucket in position order. */
  lemma SecondarySufficient(c: Coll, condition: Where, i: nat, candidates: seq<Text>)
    requires Valid(c) && Applicable(c, condition, Secondary(i))
    requires Rising(c.positions, candidates) && |candidates| <= |c.order|
    requires forall k :: k in candidates <==> k in Bucket(c.indexes[i].buckets, EncodeIndexValue(condition.value))
    ensures Sufficient(c, condition, candidates)
  {
    hide Eval, Valid, EncodeIndexValue, Rising;
    forall k | k in c.records && Eval(condition, c.records[k])
      ensures k in candidates
    {
      SecondaryFinds(c, condition, i, k);
    }
  }

  lemma OrderSufficient(c: Coll, condition: Where)
    requires Valid(c)
    ensures Sufficient(c, condition, c.order)
  {
    hide Eval;
  }

  /** The candidate lists of all three plans are sufficient. */
  method Candidates(c: Coll, condition: Where, plan: Plan) returns (candidates: seq<Text>)
    requires Valid(c) && Applicable(c, condition, plan)
    ensures Sufficient(c, condition, candidates) || MissingKey(c, condition, candidates)
    ensures |candidates| == CandidateCount(c, condition, plan)
  {
    hide Valid, Sufficient, MissingKey, Rising, Eval, EncodeValue, EncodeIndexValue;
    match plan {
      case Primary =>
        var slot := EncodeValue(condition.value);
        candidates := if slot.Some? then [slot.value] else [];
        PrimarySufficient(c, condition);
      case Secondary(i) =>
        var e := EncodeIndexValue(condition.value);
        ValidIndexes(c);
        BucketInOrder(c, i, e);
        candidates := SortBucket(c, Bucket(c.indexes[i].buckets, e));
        SecondarySufficient(c, condition, i, candidates);
      case Scan =>
        candidates := c.order;
        OrderSufficient(c, condition);
    }
  }

  lemma ValidIndexes(c: Coll)
    requires Valid(c)
    ensures |c.indexes| == |c.schema.indexes|
  {
  }

  /** A primary lookup of a key that is not there: one candidate, no record, no match. */
  ghost predicate MissingKey(c: Coll, condition: Where, candidates: seq<Text>) {
    && |candidates| == 1 && candidates[0] !in c.records
    && forall k :: k in c.records ==> !Eval(condition, c.records[k])
  }

  /* ---------- execution ---------- */

  lemma {:induction false} SelectSame(s: seq<Text>, records: map<Text, Json>, f: Json -> bool, g: Json -> bool)
    requires forall doc :: f(doc) == g(doc)
    ensures Engine.Select(s, records, f) == Engine.Select(s, records, g)
  {
    if s != [] { SelectSame(s[1..], records, f, g); }
  }

  lemma Concatenates<T>(a: seq<T>, b: seq<T>, c: seq<T>)
    ensures (a + b) + c == a + (b + c)
  {
  }

  lemma SelectHead(s: seq<Text>, rest: seq<Text>, records: map<Text, Json>, test: Json -> bool)
    requires s != [] && s[1..] == rest
    ensures Engine.Select(s, records, test)
         == (if s[0] in records && test(records[s[0]]) then [records[s[0]]] else [])
             + Engine.Select(rest, records, test)
  {
  }

  lemma {:induction false} SelectAppend(a: seq<Text>, b: seq<Text>, records: map<Text, Json>, test: Json -> bool)
    ensures Engine.Select(a + b, records, test) == Engine.Select(a, records, test) + Engine.Select(b, records, test)
  {
    hide Engine.Select;
    if a == [] {
      SelectNone(records, test);
      assert a + b == b;
    } else {
      SelectAppend(a[1..], b, records, test);
      assert (a + b)[1..] == a[1..] + b;
      SelectHead(a, a[1..], records, test);
      SelectHead(a + b, a[1..] + b, records, test);
      Concatenates(if a[0] in records && test(records[a[0]]) then [records[a[0]]] else [],
                   Engine.Select(a[1..], records, test), Engine.Select(b, records, test));
    }
  }

  lemma SelectNext(s: seq<Text>, records: map<Text, Json>, test: Json -> bool, i: nat)
    requires i < |s|
    ensures Engine.Select(s[..i + 1], records, test) == Engine.Select(s[..i], records, test)
              + (if s[i] in records && test(records[s[i]]) then [records[s[i]]] else [])
  {
    assert s[..i + 1] == s[..i] + [s[i]];
    SelectAppend(s[..i], [s[i]], records, test);
    var none: seq<Text> := [];
    assert [s[i]][1..] == none;
  }

  lemma SelectNone(records: map<Text, Json>, test: Json -> bool)
    ensures Engine.Select([], records, test) == []
  {
  }

  lemma {:induction false} SelectPrefix(s: seq<Text>, records: map<Text, Json>, test: Json -> bool, i: nat)
    requires i <= |s|
    ensures Engine.Select(s[..i], records, test) <= Engine.Select(s, records, test)
    ensures |Engine.Select(s, records, test)| <= |s|
    decreases |s| - i
  {
    if i < |s| {
      SelectNext(s, records, test, i);
      SelectPrefix(s, records, test, i + 1);
    } else {
      assert s[..i] == s;
      SelectLength(s, records, test);
    }
  }

  lemma {:induction false} SelectLength(s: seq<Text>, records: map<Text, Json>, test: Json -> bool)
    ensures |Engine.Select(s, records, test)| <= |s|
  {
    if s != [] { SelectLength(s[1..], records, test); }
  }

  /** The unordered branch: one loop that counts matches, skips the offset and stops at the
      limit. It equals filtering everything and slicing afterwards. */
  method ScanCandidates(c: Coll, condition: Where, candidates: seq<Text>, offset: nat, limit: Option<nat>)
    returns (r: Result<seq<Json>, QueryError>)
    requires |candidates| <= MAX_QUERY_CANDIDATES && limit != Some(0)
    ensures r == Ok(Slice(Engine.Select(candidates, c.records, doc => Eval(condition, doc)), offset, limit))
  {
    hide Eval, Compile, Engine.Select;
    ghost var test := doc => Eval(condition, doc);
    SelectNone(c.records, test);
    var compiled := Compile(condition);
    var documents: seq<Json>, matched := [], 0;
    for i := 0 to |candidates|
      invariant matched == |Engine.Select(candidates[..i], c.records, test)| <= i
      invariant documents == Slice(Engine.Select(candidates[..i], c.records, test), offset, None)
      invariant limit.Some? ==> |documents| < limit.value
    {
      SelectNext(candidates, c.records, test, i);
      SelectPrefix(candidates, c.records, test, i + 1);
      var key := candidates[i];
      if key in c.records {
        CompileMeansEval(condition, c.records[key]);
        if compiled(c.records[key]) {
          matched := matched + 1;
          if matched > offset {
            if |documents| >= MAX_QUERY_RESULTS { return Err(ResultLimit); }
            documents := documents + [c.records[key]];
            if limit.Some? && |documents| >= limit.value {
              ghost var all := Engine.Select(candidates, c.records, test);
              assert documents == all[offset..offset + limit.value] == Slice(all, offset, limit);
              return Ok(documents);
            }
          }
        }
      }
    }
    assert candidates[..|candidates|] == candidates;
    return Ok(documents);
  }

  /** The ordered branch: filter, sort, slice. The limits it checks cannot be exceeded. */
  method SortCandidates(c: Coll, condition: Where, candidates: seq<Text>, options: Options)
    returns (r: Result<seq<Json>, QueryError>)
    requires |candidates| <= MAX_QUERY_CANDIDATES && options.order.Some?
    ensures var matches := Engine.Select(candidates, c.records, doc => Eval(condition, doc));
            r == Ok(Slice(SortDocs(options.order.value, c.schema.primaryKey, matches), options.offset, options.limit))
  {
    hide Eval, Compile, Engine.Select, SortDocs;
    ghost var test := doc => Eval(condition, doc);
    SelectLength(candidates, c.records, test);
    var documents := Engine.Select(candidates, c.records, Compile(condition));
    forall doc ensures Compile(condition)(doc) == test(doc) { CompileMeansEval(condition, doc); }
    SelectSame(candidates, c.records, Compile(condition), test);
    if |documents| > MAX_SORT_CANDIDATES { return Err(SortLimit); }
    var sorted := SortDocs(options.order.value, c.schema.primaryKey, documents);
    SortLength(options.order.value, c.schema.primaryKey, documents);
    var end := if options.limit.Some? && options.offset + options.limit.value < |sorted|
               then options.offset + options.limit.value else |sorted|;
    if end - options.offset > MAX_QUERY_RESULTS { return Err(ResultLimit); }
    var window := if options.offset >= end then [] else sorted[options.offset..end];
    assert documents == Engine.Select(candidates, c.records, doc => Eval(condition, doc));
    assert window == Slice(sorted, options.offset, options.limit);
    return Ok(window);
  }

  lemma SortLength(order: seq<OrderBy>, field: Text, docs: seq<Json>)
    ensures |SortDocs(order, field, docs)| == |docs|
  {
    var sorted := SortRanked(order, field, Rank(docs));
    assert |multiset(sorted)| == |sorted| && |multiset(Rank(docs))| == |docs|;
  }

  /** `_query` under a given plan: refused only for too many candidates, and otherwise the
      plan-independent answer. The later result and sort limits are never reached. */
  method QueryWith(c: Coll, condition: Where, options: Options, plan: Plan)
    returns (r: Result<seq<Json>, QueryError>)
    requires Valid(c) && Applicable(c, condition, plan)
    ensures r == if options.limit != Some(0) && CandidateCount(c, condition, plan) > MAX_QUERY_CANDIDATES
                 then Err(CandidateLimit) else Ok(Answer(c, condition, options))
  {
    hide Eval, SortDocs, Engine.Select, Valid, Sufficient, MissingKey;
    var candidates := Candidates(c, condition, plan);
    CandidatesSelect(c, condition, candidates);
    if options.limit == Some(0) {
      assert Answer(c, condition, options) == [];
      return Ok([]);
    }
    if |candidates| > MAX_QUERY_CANDIDATES { return Err(CandidateLimit); }
    if options.order.None? {
      r := ScanCandidates(c, condition, candidates, options.offset, options.limit);
    } else {
      r := SortCandidates(c, condition, candidates, options);
    }
  }

  lemma CandidatesSelect(c: Coll, condition: Where, candidates: seq<Text>)
    requires Valid(c)
    requires Sufficient(c, condition, candidates) || MissingKey(c, condition, candidates)
    ensures Engine.Select(candidates, c.records, doc => Eval(condition, doc)) == Matches(c, condition)
  {
    if Sufficient(c, condition, candidates) {
      SufficientSelects(c, condition, candidates);
    } else {
      SelectIsDocsAt(candidates, c.records, condition);
      SelectIsDocsAt(c.order, c.records, condition);
      var none := MatchingSlots(c.order, c.records, condition);
      if none != [] { NoMember(none); }
      var alsoNone := MatchingSlots(candidates, c.records, condition);
      if alsoNone != [] { NoMember(alsoNone); }
    }
  }

  lemma NoMember(s: seq<Text>)
    requires s != []
    ensures s[0] in s
  {
  }

  /** `_query`: the same answer whether the key, an index or the whole order was used. */
  method Query(c: Coll, condition: Where, options: Options) returns (r: Result<seq<Json>, QueryError>, plan: Plan)
    requires Valid(c) && (condition.Compare? ==> IsPrimitive(condition.value))
    ensures |c.order| <= MAX_QUERY_CANDIDATES ==> r == Ok(Answer(c, condition, options))
    ensures r.Ok? ==> r.value == Answer(c, condition, options)
    ensures r.Err? ==> r.error == CandidateLimit && options.limit != Some(0) && !plan.Primary?
  {
    plan := ChoosePlan(c, condition);
    if plan.Secondary? { BucketInOrder(c, plan.index, EncodeIndexValue(condition.value)); }
    r := QueryWith(c, condition, options, plan);
  }

  /* ---------- ordered answers ---------- */

  lemma MatchesHaveKeys(c: Coll, condition: Where)
    requires Valid(c)
    ensures DistinctKeys(c.schema.primaryKey, Matches(c, condition))
  {
    hide Eval;
    var slots := MatchingSlots(c.order, c.records, condition);
    SelectIsDocsAt(c.order, c.records, condition);
    MatchingRises(c.positions, c.order, c.records, condition);
    var docs := DocsAt(slots, c.records);
    forall i | 0 <= i < |docs|
      ensures Storable(c.schema, slots[i], docs[i])
    {
      assert slots[i] in slots;
    }
  }

  /** The answer's sort is the one strictly ascending permutation of the matches: any list of
      the same documents that is in comparator order is that list, whatever sorted it. */
  lemma OrderedAnswer(c: Coll, condition: Where, order: seq<OrderBy>, other: seq<Json>)
    requires Valid(c)
    ensures var sorted := SortDocs(order, c.schema.primaryKey, Matches(c, condition));
            && Ascending(order, c.schema.primaryKey, sorted)
            && multiset(sorted) == multiset(Matches(c, condition))
            && (Ascending(order, c.schema.primaryKey, other) && multiset(other) == multiset(Matches(c, condition))
                ==> other == sorted)
  {
    hide CompareDocs, Matches;
    MatchesHaveKeys(c, condition);
    var field := c.schema.primaryKey;
    SortDocsAscending(order, field, Matches(c, condition));
    var sorted := SortDocs(order, field, Matches(c, condition));
    if Ascending(order, field, other) && multiset(other) == multiset(Matches(c, condition)) {
      AscendingUnique(order, field, other, sorted);
    }
  }

  /** The window: so many skipped, then as many as there are, up to the limit. */
  lemma SliceMeans<T>(s: seq<T>, offset: nat, limit: Option<nat>)
    ensures var r := Slice(s, offset, limit);
            && |r| <= |s| && (limit.Some? ==> |r| <= limit.value)
            && (|r| < |s| - offset ==> limit == Some(|r|))
            && (forall i :: 0 <= i < |r| ==> offset + i < |s| && r[i] == s[offset + i])
  {
  }

  lemma SliceAt<T>(s: seq<T>, offset: nat, limit: Option<nat>, i: nat)
    requires i < |Slice(s, offset, limit)|
    ensures offset + i < |s| && Slice(s, offset, limit)[i] == s[offset + i]
  {
  }

  /** The keys come in the order of the collection. */
  ghost predicate Along(order: seq<Text>, slots: seq<Text>) {
    && (forall i :: 0 <= i < |slots| ==> slots[i] in order)
    && forall i, j :: 0 <= i < j < |slots| ==> IndexOf(order, slots[i]) < IndexOf(order, slots[j])
  }

  ghost predicate ListedBy(c: Coll, condition: Where, docs: seq<Json>, slots: seq<Text>) {
    && |slots| == |docs| && Along(c.order, slots)
    && (forall k :: k in slots <==> k in c.records && Eval(condition, c.records[k]))
    && forall i :: 0 <= i < |docs| ==> slots[i] in c.records && docs[i] == c.records[slots[i]]
  }

  /** The documents are the records that satisfy the condition, each once, in collection order. */
  ghost predicate Listing(c: Coll, condition: Where, docs: seq<Json>) {
    exists slots :: ListedBy(c, condition, docs, slots)
  }

  lemma RisesAlong(c: Coll, slots: seq<Text>)
    requires OrderOk(c) && Rising(c.positions, slots) && forall k :: k in slots ==> k in c.order
    ensures Along(c.order, slots)
  {
    forall i, j | 0 <= i < j < |slots|
      ensures IndexOf(c.order, slots[i]) < IndexOf(c.order, slots[j])
    {
      assert slots[i] in c.order && slots[j] in c.order;
      var a, b := IndexOf(c.order, slots[i]), IndexOf(c.order, slots[j]);
      RanksReflect(c.order, c.positions, c.nextPosition, a, b);
    }
  }

  lemma RanksReflect(order: seq<Text>, positions: map<Text, int>, next: int, a: nat, b: nat)
    requires Ranks(order, positions, next) && a < |order| && b < |order|
    requires positions[order[a]] < positions[order[b]]
    ensures a < b
  {
  }

  lemma OrderRises(c: Coll)
    requires Valid(c)
    ensures OrderOk(c) && Rising(c.positions, c.order)
    ensures forall k :: k in c.order <==> k in c.records
  {
    hide RecordsOk, IndexesOk;
    assert forall k :: k in c.order ==> k in c.records;
  }

  /** Walking a collection's order with a test that means the condition lists its matches. */
  lemma SelectLists(c: Coll, condition: Where, test: Json -> bool)
    requires Valid(c) && forall doc :: test(doc) == Eval(condition, doc)
    ensures Listing(c, condition, Engine.Select(c.order, c.records, test))
  {
    hide Eval, Valid, OrderOk, Rising, Along;
    var meant := doc => Eval(condition, doc);
    SelectSame(c.order, c.records, test, meant);
    SelectIsDocsAt(c.order, c.records, condition);
    OrderRises(c);
    MatchingRises(c.positions, c.order, c.records, condition);
    var slots := MatchingSlots(c.order, c.records, condition);
    RisesAlong(c, slots);
    assert forall i :: 0 <= i < |slots| ==> slots[i] in slots;
    assert ListedBy(c, condition, DocsAt(slots, c.records), slots);
  }

  /** Unordered, a query answers with the window of the matches in collection order. */
  lemma UnorderedAnswer(c: Coll, condition: Where, options: Options)
    requires Valid(c) && options.order.None?
    ensures exists all :: && Listing(c, condition, all)
                          && Answer(c, condition, options) == Slice(all, options.offset, options.limit)
  {
    hide Listing, Eval, Slice, Valid;
    SelectLists(c, condition, doc => Eval(condition, doc));
    assert Listing(c, condition, Matches(c, condition));
  }

  /** Ordered, every document it returns comes before every later one: by the first ordering
      field that tells them apart, and by primary key where none does. */
  lemma AnswerInOrder(c: Coll, condition: Where, options: Options, i: nat, j: nat)
    requires Valid(c) && options.order.Some? && i < j < |Answer(c, condition, options)|
    ensures var answer := Answer(c, condition, options);
            DocBefore(options.order.value, c.schema.primaryKey, answer[i], answer[j])
  {
    hide CompareDocs, DocBefore, Matches, SortDocs, Slice, DocumentKey, Valid;
    var order, field := options.order.value, c.schema.primaryKey;
    MatchesHaveKeys(c, condition);
    SortDocsAscending(order, field, Matches(c, condition));
    var sorted := SortDocs(order, field, Matches(c, condition));
    KeysPlace(field, Matches(c, condition), sorted);
    var answer := Answer(c, condition, options);
    assert answer == Slice(sorted, options.offset, options.limit);
    SliceAt(sorted, options.offset, options.limit, i);
    SliceAt(sorted, options.offset, options.limit, j);
    CompareDocsMeans(order, field, sorted[options.offset + i], sorted[options.offset + j]);
  }

  /** So the leading field never runs backwards; where it holds numbers they do not decrease, or
      do not increase when it is descending. */
  lemma LeadingFieldRises(c: Coll, condition: Where, options: Options, i: nat, j: nat)
    requires Valid(c) && options.order.Some? && options.order.value != [] && i < j < |Answer(c, condition, options)|
    ensures var answer := Answer(c, condition, options); var lead := options.order.value[0];
            && !FieldBefore(lead, answer[j], answer[i])
            && match (ReadPath(answer[i], lead.path), ReadPath(answer[j], lead.path))
               case (Some(Num(x)), Some(Num(y))) => if lead.descending then x >= y else x <= y
               case (Some(Str(x)), Some(Str(y))) => if lead.descending then !TextLess(x, y) else !TextLess(y, x)
               case _ => true
  {
    hide Answer, Valid, ReadPath, TextLess, Before;
    AnswerInOrder(c, condition, options, i, j);
    var answer, lead := Answer(c, condition, options), options.order.value[0];
    FieldAsymmetric(lead, answer[i], answer[j]);
    var x, y := ReadPath(answer[i], lead.path), ReadPath(answer[j], lead.path);
    BeforeOfLike(x, y);
    BeforeOfLike(y, x);
  }

  lemma BeforeOfLike(a: Option<Json>, b: Option<Json>)
    ensures match (a, b)
            case (Some(Num(x)), Some(Num(y))) => Before(a, b) <==> x < y
            case (Some(Str(x)), Some(Str(y))) => Before(a, b) <==> TextLess(x, y)
            case _ => true
  {
  }

  lemma FieldAsymmetric(lead: OrderBy, a: Json, b: Json)
    ensures !(FieldBefore(lead, a, b) && FieldBefore(lead, b, a))
  {
    hide Before, CompareJson;
    CompareJsonMeans(ReadPath(a, lead.path), ReadPath(b, lead.path));
  }

  /** A query's answer depends on the records and their order alone, not on positions or
      revision, so a reloaded collection answers every query alike. */
  lemma AnswerDependsOnRecords(c: Coll, d: Coll, condition: Where, options: Options)
    requires c.records == d.records && c.order == d.order && c.schema.primaryKey == d.schema.primaryKey
    ensures Answer(c, condition, options) == Answer(d, condition, options)
  {
    SelectIsDocsAt(c.order, c.records, condition);
    SelectIsDocsAt(d.order, d.records, condition);
  }
}
