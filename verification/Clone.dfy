/** The bounded clone of a document: a walk over a graph of objects that counts values and bytes,
    remembers the objects above it, and returns a tree. */
module Cloning {
  import opened Texts
  import opened Json
  import opened Sizes

  /** A value held in a property or an element. `PBad` is one that is not JSON. */
  datatype Slot =
    | PNull
    | PBool(b: bool)
    | PNum(n: int)
    | PStr(s: Text)
    | PRef(id: nat)
    | PBad(issue: Issue)

  datatype Prop = Prop(name: Text, value: Slot)

  /** An object: an array, possibly with holes, a plain object, or anything else. */
  datatype Node = ArrayNode(items: seq<Option<Slot>>) | ObjectNode(props: seq<Prop>) | ForeignNode(issue: Issue)

  type Graph = map<nat, Node>

  datatype Issue =
    | NotObject
    | NodeLimit
    | DepthLimit
    | InvalidNumber
    | Unsupported
    | StringSize
    | Cycle
    | Sparse
    | Prototype
    | DocumentSize
    | InvalidLimit

  datatype JsonLimits = JsonLimits(maxDepth: int, maxDocumentBytes: int, maxNodes: int, maxStringBytes: int)

  /** The limits a caller may ask for: positive, and no more than the defaults. */
  predicate LimitsValid(l: JsonLimits) {
    && 0 < l.maxDepth <= 64
    && 0 < l.maxDocumentBytes <= 1_048_576
    && 0 < l.maxNodes <= 100_000
    && 0 < l.maxStringBytes <= 262_144
  }

  predicate InGraph(g: Graph, slot: Slot) {
    slot.PRef? ==> slot.id in g
  }

  /** Every reference leads to an object; what is not JSON has no reason of the walk's own. */
  predicate Closed(g: Graph) {
    forall id :: id in g ==>
      match g[id]
      case ArrayNode(items) => forall i :: 0 <= i < |items| && items[i].Some? ==> SlotOk(g, items[i].value)
      case ObjectNode(props) => forall i :: 0 <= i < |props| ==> SlotOk(g, props[i].value)
      case ForeignNode(issue) => Foreign(issue)
  }

  predicate SlotOk(g: Graph, slot: Slot) {
    InGraph(g, slot) && (slot.PBad? ==> Foreign(slot.issue))
  }

  predicate Foreign(issue: Issue) {
    issue.InvalidNumber? || issue.Unsupported? || issue.Prototype?
  }

  /** The two counters of the walk. */
  datatype Tally = Tally(nodes: nat, bytes: nat)

  function Room(l: JsonLimits, depth: nat): nat {
    if depth > l.maxDepth then 0 else l.maxDepth + 1 - depth
  }

  /** `visit` as a function; `seen` are the objects above this value. */
  function Walk(g: Graph, l: JsonLimits, slot: Slot, depth: nat, t: Tally, seen: set<nat>): Result<(Json, Tally), Issue>
    requires Closed(g) && SlotOk(g, slot)
    decreases Room(l, depth), 0
  {
    if t.nodes + 1 > l.maxNodes then Err(NodeLimit)
    else if depth > l.maxDepth then Err(DepthLimit)
    else
      var t1 := t.(nodes := t.nodes + 1);
      match slot
      case PNull => Ok((Null, t1.(bytes := t1.bytes + 4)))
      case PBool(b) => Ok((Bool(b), t1.(bytes := t1.bytes + if b then 4 else 5)))
      case PNum(n) => Ok((Num(n), t1.(bytes := t1.bytes + |Decimal(n)|)))
      case PStr(s) =>
        if Utf8Length(s) > l.maxStringBytes then Err(StringSize)
        else Ok((Str(s), t1.(bytes := t1.bytes + Utf8Length(s) + 2)))
      case PBad(issue) => Err(issue)
      case PRef(id) =>
        if id in seen then Err(Cycle)
        else match g[id]
          case ForeignNode(issue) => Err(issue)
          case ArrayNode(items) =>
            (match WalkItems(g, l, items, depth + 1, t1, seen + {id})
             case Err(issue) => Err(issue)
             case Ok((output, t2)) =>
               if t2.bytes > l.maxDocumentBytes then Err(DocumentSize) else Ok((Arr(output), t2)))
          case ObjectNode(props) =>
            (match WalkProps(g, l, props, depth + 1, t1, seen + {id})
             case Err(issue) => Err(issue)
             case Ok((output, t2)) =>
               if t2.bytes > l.maxDocumentBytes then Err(DocumentSize) else Ok((Obj(output), t2)))
  }

  function WalkItems(g: Graph, l: JsonLimits, items: seq<Option<Slot>>, depth: nat, t: Tally, seen: set<nat>)
    : Result<(seq<Json>, Tally), Issue>
    requires Closed(g) && forall i :: 0 <= i < |items| && items[i].Some? ==> SlotOk(g, items[i].value)
    decreases Room(l, depth), |items| + 1
  {
    if items == [] then Ok(([], t))
    else if items[0].None? then Err(Sparse)
    else match Walk(g, l, items[0].value, depth, t, seen)
      case Err(issue) => Err(issue)
      case Ok((v, t1)) =>
        match WalkItems(g, l, items[1..], depth, t1.(bytes := t1.bytes + 1), seen)
        case Err(issue) => Err(issue)
        case Ok((rest, t2)) => Ok(([v] + rest, t2))
  }

  function WalkProps(g: Graph, l: JsonLimits, props: seq<Prop>, depth: nat, t: Tally, seen: set<nat>)
    : Result<(seq<Member>, Tally), Issue>
    requires Closed(g) && forall i :: 0 <= i < |props| ==> SlotOk(g, props[i].value)
    decreases Room(l, depth), |props| + 1
  {
    if props == [] then Ok(([], t))
    else if Utf8Length(props[0].name) > l.maxStringBytes then Err(StringSize)
    else match Walk(g, l, props[0].value, depth, t, seen)
      case Err(issue) => Err(issue)
      case Ok((v, t1)) =>
        match WalkProps(g, l, props[1..], depth, t1.(bytes := t1.bytes + Utf8Length(props[0].name) + 3), seen)
        case Err(issue) => Err(issue)
        case Ok((rest, t2)) => Ok(([Member(props[0].name, v)] + rest, t2))
  }

  /** `cloneAndFreezeJsonObject`. */
  function Clone(g: Graph, l: JsonLimits, input: Slot): Result<Json, Issue>
    requires Closed(g) && SlotOk(g, input)
  {
    if !LimitsValid(l) then Err(InvalidLimit)
    else if !input.PRef? || g[input.id].ArrayNode? then Err(NotObject)
    else match Walk(g, l, input, 0, Tally(0, 2), {})
      case Err(issue) => Err(issue)
      case Ok((v, _)) => if Size(v) > l.maxDocumentBytes then Err(DocumentSize) else Ok(v)
  }

  /* ---------- what the result should be ---------- */

  /** The tree one gets by following every reference; there is none when the graph has a cycle. */
  predicate Unfolds(g: Graph, slot: Slot, v: Json)
    decreases v, 0
  {
    match v
    case Null => slot.PNull?
    case Bool(b) => slot == PBool(b)
    case Num(n) => slot == PNum(n)
    case Str(s) => slot == PStr(s)
    case Arr(vs) => slot.PRef? && slot.id in g && g[slot.id].ArrayNode? && UnfoldItems(g, g[slot.id].items, vs)
    case Obj(ms) => slot.PRef? && slot.id in g && g[slot.id].ObjectNode? && UnfoldProps(g, g[slot.id].props, ms)
  }

  predicate UnfoldItems(g: Graph, items: seq<Option<Slot>>, vs: seq<Json>)
    decreases vs, 1
  {
    |items| == |vs|
    && (vs == [] || (items[0].Some? && Unfolds(g, items[0].value, vs[0]) && UnfoldItems(g, items[1..], vs[1..])))
  }

  predicate UnfoldProps(g: Graph, props: seq<Prop>, ms: seq<Member>)
    decreases ms, 1
  {
    |props| == |ms|
    && (ms == [] || (props[0].name == ms[0].name && Unfolds(g, props[0].value, ms[0].value)
                     && UnfoldProps(g, props[1..], ms[1..])))
  }

  /** How many values. */
  function Count(v: Json): nat
    decreases v, 0
  {
    match v
    case Arr(vs) => 1 + CountItems(vs)
    case Obj(ms) => 1 + CountMembers(ms)
    case _ => 1
  }

  function CountItems(vs: seq<Json>): nat
    decreases vs, 1
  {
    if vs == [] then 0 else Count(vs[0]) + CountItems(vs[1..])
  }

  function CountMembers(ms: seq<Member>): nat
    decreases ms, 1
  {
    if ms == [] then 0 else Count(ms[0].value) + CountMembers(ms[1..])
  }

  /** How far the deepest value lies below this one. An empty container has depth 0. */
  function Depth(v: Json): nat
    decreases v, 0
  {
    match v
    case Arr(vs) => if vs == [] then 0 else 1 + DepthItems(vs)
    case Obj(ms) => if ms == [] then 0 else 1 + DepthMembers(ms)
    case _ => 0
  }

  function Max(a: nat, b: nat): nat {
    if a < b then b else a
  }

  function DepthItems(vs: seq<Json>): nat
    decreases vs, 1
  {
    if vs == [] then 0 else Max(Depth(vs[0]), DepthItems(vs[1..]))
  }

  function DepthMembers(ms: seq<Member>): nat
    decreases ms, 1
  {
    if ms == [] then 0 else Max(Depth(ms[0].value), DepthMembers(ms[1..]))
  }

  /** Every string and name is within the string limit. */
  predicate StringsFit(v: Json, max: int)
    decreases v, 0
  {
    match v
    case Str(s) => Utf8Length(s) <= max
    case Arr(vs) => ItemsFit(vs, max)
    case Obj(ms) => MembersFit(ms, max)
    case _ => true
  }

  predicate ItemsFit(vs: seq<Json>, max: int)
    decreases vs, 1
  {
    vs == [] || (StringsFit(vs[0], max) && ItemsFit(vs[1..], max))
  }

  predicate MembersFit(ms: seq<Member>, max: int)
    decreases ms, 1
  {
    ms == [] || (Utf8Length(ms[0].name) <= max && StringsFit(ms[0].value, max) && MembersFit(ms[1..], max))
  }

  /** What the byte counter adds for a value. */
  function Estimate(v: Json): nat
    decreases v, 0
  {
    match v
    case Null => 4
    case Bool(b) => if b then 4 else 5
    case Num(n) => |Decimal(n)|
    case Str(s) => Utf8Length(s) + 2
    case Arr(vs) => EstimateItems(vs)
    case Obj(ms) => EstimateMembers(ms)
  }

  function EstimateItems(vs: seq<Json>): nat
    decreases vs, 1
  {
    if vs == [] then 0 else Estimate(vs[0]) + 1 + EstimateItems(vs[1..])
  }

  function EstimateMembers(ms: seq<Member>): nat
    decreases ms, 1
  {
    if ms == [] then 0 else Estimate(ms[0].value) + Utf8Length(ms[0].name) + 3 + EstimateMembers(ms[1..])
  }

  /* ---------- the estimate never exceeds the size ---------- */

  lemma {:induction false} DigitsSize(s: Text)
    requires forall i :: 0 <= i < |s| ==> s[i] < 0x80
    ensures Utf8Length(s) == |s|
  {
    if s != [] { DigitsSize(s[1..]); }
  }

  lemma {:induction false} EstimateBelow(v: Json)
    ensures Estimate(v) <= Size(v)
    ensures v.Obj? ==> Estimate(v) + 2 <= Size(v)
    decreases v, 0
  {
    match v
    case Null => DigitsSize(NULL_TEXT);
    case Bool(b) => DigitsSize(if b then TRUE_TEXT else FALSE_TEXT);
    case Num(n) =>
      DecimalUnits(n);
      DigitsSize(Decimal(n));
    case Str(s) => QuoteAtLeast(s);
    case Arr(vs) =>
      EstimateItemsBelow(vs);
      Enclosed('[' as int, StringifyItems(vs), ']' as int);
    case Obj(ms) =>
      EstimateMembersBelow(ms);
      Enclosed('{' as int, StringifyMembers(ms), '}' as int);
  }

  lemma DecimalUnits(n: int)
    ensures forall i :: 0 <= i < |Decimal(n)| ==> Decimal(n)[i] < 0x80
  {
    if n >= 0 { assert AllDigits(Digits(n)); } else { assert AllDigits(Digits(-n)); }
  }

  lemma {:induction false} EstimateItemsBelow(vs: seq<Json>)
    ensures EstimateItems(vs) <= Utf8Length(StringifyItems(vs)) + 1
    ensures vs == [] ==> EstimateItems(vs) == 0
    decreases vs, 1
  {
    if vs != [] {
      EstimateBelow(vs[0]);
      EstimateItemsBelow(vs[1..]);
      ItemsSize(vs);
    }
  }

  lemma {:induction false} EstimateMembersBelow(ms: seq<Member>)
    ensures EstimateMembers(ms) <= Utf8Length(StringifyMembers(ms))
    decreases ms, 1
  {
    if ms != [] {
      EstimateBelow(ms[0].value);
      EstimateMembersBelow(ms[1..]);
      MembersSize(ms);
      QuoteAtLeast(ms[0].name);
    }
  }

  /* ---------- what a finished walk establishes ---------- */

  lemma {:induction false} VisitSound(g: Graph, l: JsonLimits, slot: Slot, depth: nat, t: Tally, seen: set<nat>)
    requires Closed(g) && SlotOk(g, slot) && Walk(g, l, slot, depth, t, seen).Ok?
    ensures var (v, t') := Walk(g, l, slot, depth, t, seen).value;
            && Unfolds(g, slot, v)
            && t'.nodes == t.nodes + Count(v) <= l.maxNodes
            && t'.bytes == t.bytes + Estimate(v)
            && depth + Depth(v) <= l.maxDepth
            && StringsFit(v, l.maxStringBytes)
    decreases Room(l, depth), 0
  {
    hide Utf8Length, Decimal;
    if slot.PRef? {
      var t1 := t.(nodes := t.nodes + 1);
      match g[slot.id]
      case ForeignNode(_) =>
      case ArrayNode(items) => ItemsSound(g, l, items, depth + 1, t1, seen + {slot.id});
      case ObjectNode(props) => PropsSound(g, l, props, depth + 1, t1, seen + {slot.id});
    }
  }

  lemma {:induction false} ItemsSound(g: Graph, l: JsonLimits, items: seq<Option<Slot>>, depth: nat, t: Tally,
                                      seen: set<nat>)
    requires Closed(g) && forall i :: 0 <= i < |items| && items[i].Some? ==> SlotOk(g, items[i].value)
    requires t.nodes <= l.maxNodes && WalkItems(g, l, items, depth, t, seen).Ok?
    ensures var (vs, t') := WalkItems(g, l, items, depth, t, seen).value;
            && UnfoldItems(g, items, vs)
            && t'.nodes == t.nodes + CountItems(vs) <= l.maxNodes
            && t'.bytes == t.bytes + EstimateItems(vs)
            && (vs != [] ==> depth + DepthItems(vs) <= l.maxDepth)
            && ItemsFit(vs, l.maxStringBytes)
    decreases Room(l, depth), |items| + 1
  {
    hide Walk;
    if items != [] {
      VisitSound(g, l, items[0].value, depth, t, seen);
      var (v, t1) := Walk(g, l, items[0].value, depth, t, seen).value;
      ItemsSound(g, l, items[1..], depth, t1.(bytes := t1.bytes + 1), seen);
      var vs := WalkItems(g, l, items, depth, t, seen).value.0;
      assert vs[1..] == WalkItems(g, l, items[1..], depth, t1.(bytes := t1.bytes + 1), seen).value.0;
    }
  }

  lemma {:induction false} PropsSound(g: Graph, l: JsonLimits, props: seq<Prop>, depth: nat, t: Tally, seen: set<nat>)
    requires Closed(g) && forall i :: 0 <= i < |props| ==> SlotOk(g, props[i].value)
    requires t.nodes <= l.maxNodes && WalkProps(g, l, props, depth, t, seen).Ok?
    ensures var (ms, t') := WalkProps(g, l, props, depth, t, seen).value;
            && UnfoldProps(g, props, ms)
            && t'.nodes == t.nodes + CountMembers(ms) <= l.maxNodes
            && t'.bytes == t.bytes + EstimateMembers(ms)
            && (ms != [] ==> depth + DepthMembers(ms) <= l.maxDepth)
            && MembersFit(ms, l.maxStringBytes)
    decreases Room(l, depth), |props| + 1
  {
    hide Walk, Utf8Length;
    if props != [] {
      VisitSound(g, l, props[0].value, depth, t, seen);
      var (v, t1) := Walk(g, l, props[0].value, depth, t, seen).value;
      var t2 := t1.(bytes := t1.bytes + Utf8Length(props[0].name) + 3);
      PropsSound(g, l, props[1..], depth, t2, seen);
      var ms := WalkProps(g, l, props, depth, t, seen).value.0;
      assert ms[1..] == WalkProps(g, l, props[1..], depth, t2, seen).value.0;
    }
  }

  /* ---------- when it fails, and why ---------- */

  lemma {:induction false} UnfoldUnique(g: Graph, slot: Slot, v: Json, w: Json)
    requires Unfolds(g, slot, v) && Unfolds(g, slot, w)
    ensures v == w
    decreases v, 0
  {
    match v
    case Arr(vs) => UnfoldItemsUnique(g, g[slot.id].items, vs, w.items);
    case Obj(ms) => UnfoldPropsUnique(g, g[slot.id].props, ms, w.members);
    case _ =>
  }

  lemma {:induction false} UnfoldItemsUnique(g: Graph, items: seq<Option<Slot>>, vs: seq<Json>, ws: seq<Json>)
    requires UnfoldItems(g, items, vs) && UnfoldItems(g, items, ws)
    ensures vs == ws
    decreases vs, 1
  {
    if vs != [] {
      UnfoldUnique(g, items[0].value, vs[0], ws[0]);
      UnfoldItemsUnique(g, items[1..], vs[1..], ws[1..]);
      assert vs == [vs[0]] + vs[1..] && ws == [ws[0]] + ws[1..];
    }
  }

  lemma {:induction false} UnfoldPropsUnique(g: Graph, props: seq<Prop>, ms: seq<Member>, ns: seq<Member>)
    requires UnfoldProps(g, props, ms) && UnfoldProps(g, props, ns)
    ensures ms == ns
    decreases ms, 1
  {
    if ms != [] {
      UnfoldUnique(g, props[0].value, ms[0].value, ns[0].value);
      UnfoldPropsUnique(g, props[1..], ms[1..], ns[1..]);
      assert ms == [ms[0]] + ms[1..] && ns == [ns[0]] + ns[1..];
    }
  }

  /** Every object above unfolds to something deeper than this. */
  ghost predicate Above(g: Graph, seen: set<nat>, depth: nat) {
    forall id :: id in seen ==> exists v :: Unfolds(g, PRef(id), v) && Depth(v) > depth
  }

  lemma AboveDeeper(g: Graph, seen: set<nat>, depth: nat, id: nat, v: Json, deeper: nat)
    requires Above(g, seen, Depth(v)) && Unfolds(g, PRef(id), v) && deeper < Depth(v)
    ensures Above(g, seen + {id}, deeper)
  {
    forall other | other in seen + {id}
      ensures exists w :: Unfolds(g, PRef(other), w) && Depth(w) > deeper
    {
      if other in seen {
        var w :| Unfolds(g, PRef(other), w) && Depth(w) > Depth(v);
      }
    }
  }

  lemma AboveLess(g: Graph, seen: set<nat>, depth: nat, less: nat)
    requires Above(g, seen, depth) && less <= depth
    ensures Above(g, seen, less)
  {
    forall id | id in seen
      ensures exists v :: Unfolds(g, PRef(id), v) && Depth(v) > less
    {
      var v :| Unfolds(g, PRef(id), v) && Depth(v) > depth;
    }
  }

  /** A value that unfolds is not one of the objects above it. */
  lemma NotAbove(g: Graph, seen: set<nat>, id: nat, v: Json)
    requires Above(g, seen, Depth(v)) && Unfolds(g, PRef(id), v)
    ensures id !in seen
  {
    if id in seen {
      var w :| Unfolds(g, PRef(id), w) && Depth(w) > Depth(v);
      UnfoldUnique(g, PRef(id), v, w);
    }
  }

  /** The only reasons for refusing a value that unfolds are its own size, depth and strings. */
  ghost predicate Justified(l: JsonLimits, issue: Issue, nodes: nat, bytes: nat, deepest: nat, fits: bool) {
    match issue
    case NodeLimit => nodes > l.maxNodes
    case DepthLimit => deepest > l.maxDepth
    case StringSize => !fits
    case DocumentSize => bytes > l.maxDocumentBytes
    case _ => false
  }

  lemma {:induction false} VisitFails(g: Graph, l: JsonLimits, slot: Slot, depth: nat, t: Tally, seen: set<nat>,
                                      v: Json)
    requires Closed(g) && SlotOk(g, slot) && Unfolds(g, slot, v) && Above(g, seen, Depth(v))
    ensures var r := Walk(g, l, slot, depth, t, seen);
            if r.Ok? then r.value.0 == v
            else Justified(l, r.error, t.nodes + Count(v), t.bytes + Estimate(v), depth + Depth(v),
                           StringsFit(v, l.maxStringBytes))
    decreases Room(l, depth), 0
  {
    hide Utf8Length, Decimal, Above, SlotOk, WalkItems, WalkProps, UnfoldItems, UnfoldProps, ItemsFit, MembersFit;
    hide CountItems, CountMembers, EstimateItems, EstimateMembers, DepthItems, DepthMembers;
    CountPositive(v);
    if Walk(g, l, slot, depth, t, seen).Ok? {
      VisitSound(g, l, slot, depth, t, seen);
      UnfoldUnique(g, slot, v, Walk(g, l, slot, depth, t, seen).value.0);
    } else if slot.PRef? && depth <= l.maxDepth {
      NotAbove(g, seen, slot.id, v);
      var t1 := t.(nodes := t.nodes + 1);
      match v
      case Arr(vs) =>
        var items := g[slot.id].items;
        ItemsInGraph(g, slot.id);
        if vs != [] { AboveDeeper(g, seen, depth, slot.id, v, DepthItems(vs)); }
        ItemsFail(g, l, items, depth + 1, t1, seen + {slot.id}, vs);
        var r := WalkItems(g, l, items, depth + 1, t1, seen + {slot.id});
        if r.Ok? && t1.nodes <= l.maxNodes { ItemsSound(g, l, items, depth + 1, t1, seen + {slot.id}); }
      case Obj(ms) =>
        var props := g[slot.id].props;
        PropsInGraph(g, slot.id);
        if ms != [] { AboveDeeper(g, seen, depth, slot.id, v, DepthMembers(ms)); }
        PropsFail(g, l, props, depth + 1, t1, seen + {slot.id}, ms);
        var r := WalkProps(g, l, props, depth + 1, t1, seen + {slot.id});
        if r.Ok? && t1.nodes <= l.maxNodes { PropsSound(g, l, props, depth + 1, t1, seen + {slot.id}); }
      case _ =>
    }
  }

  lemma ItemsInGraph(g: Graph, id: nat)
    requires Closed(g) && id in g && g[id].ArrayNode?
    ensures forall i :: 0 <= i < |g[id].items| && g[id].items[i].Some? ==> SlotOk(g, g[id].items[i].value)
  {
  }

  lemma PropsInGraph(g: Graph, id: nat)
    requires Closed(g) && id in g && g[id].ObjectNode?
    ensures forall i :: 0 <= i < |g[id].props| ==> SlotOk(g, g[id].props[i].value)
  {
  }

  lemma CountPositive(v: Json)
    ensures Count(v) >= 1
  {
  }

  lemma {:induction false} ItemsFail(g: Graph, l: JsonLimits, items: seq<Option<Slot>>, depth: nat, t: Tally,
                                     seen: set<nat>, vs: seq<Json>)
    requires Closed(g) && forall i :: 0 <= i < |items| && items[i].Some? ==> SlotOk(g, items[i].value)
    requires UnfoldItems(g, items, vs) && (vs != [] ==> Above(g, seen, DepthItems(vs)))
    ensures var r := WalkItems(g, l, items, depth, t, seen);
            if r.Ok? then r.value.0 == vs
            else Justified(l, r.error, t.nodes + CountItems(vs), t.bytes + EstimateItems(vs), depth + DepthItems(vs),
                           ItemsFit(vs, l.maxStringBytes))
    ensures vs == [] ==> WalkItems(g, l, items, depth, t, seen).Ok?
    decreases Room(l, depth), |items| + 1
  {
    hide Walk, Above, Unfolds, Count, Estimate, Depth, StringsFit, SlotOk;
    if vs != [] {
      AboveLess(g, seen, DepthItems(vs), Depth(vs[0]));
      VisitFails(g, l, items[0].value, depth, t, seen, vs[0]);
      var r := Walk(g, l, items[0].value, depth, t, seen);
      if r.Ok? {
        var t1 := r.value.1;
        VisitSound(g, l, items[0].value, depth, t, seen);
        if vs[1..] != [] { AboveLess(g, seen, DepthItems(vs), DepthItems(vs[1..])); }
        ItemsFail(g, l, items[1..], depth, t1.(bytes := t1.bytes + 1), seen, vs[1..]);
      }
    }
  }

  lemma {:induction false} PropsFail(g: Graph, l: JsonLimits, props: seq<Prop>, depth: nat, t: Tally, seen: set<nat>,
                                     ms: seq<Member>)
    requires Closed(g) && forall i :: 0 <= i < |props| ==> SlotOk(g, props[i].value)
    requires UnfoldProps(g, props, ms) && (ms != [] ==> Above(g, seen, DepthMembers(ms)))
    ensures var r := WalkProps(g, l, props, depth, t, seen);
            if r.Ok? then r.value.0 == ms
            else Justified(l, r.error, t.nodes + CountMembers(ms), t.bytes + EstimateMembers(ms),
                           depth + DepthMembers(ms), MembersFit(ms, l.maxStringBytes))
    ensures ms == [] ==> WalkProps(g, l, props, depth, t, seen).Ok?
    decreases Room(l, depth), |props| + 1
  {
    hide Walk, Above, Unfolds, Count, Estimate, Depth, StringsFit, SlotOk, Utf8Length;
    if ms != [] {
      AboveLess(g, seen, DepthMembers(ms), Depth(ms[0].value));
      VisitFails(g, l, props[0].value, depth, t, seen, ms[0].value);
      var r := Walk(g, l, props[0].value, depth, t, seen);
      if r.Ok? {
        VisitSound(g, l, props[0].value, depth, t, seen);
        var t2 := r.value.1.(bytes := r.value.1.bytes + Utf8Length(props[0].name) + 3);
        if ms[1..] != [] { AboveLess(g, seen, DepthMembers(ms), DepthMembers(ms[1..])); }
        PropsFail(g, l, props[1..], depth, t2, seen, ms[1..]);
        assert [Member(props[0].name, ms[0].value)] + ms[1..] == ms;
      }
    }
  }

  /* ---------- the theorems ---------- */

  /** Limits that may be asked for, and a document that unfolds and respects those on values, depth
      and strings. */
  predicate Admissible(g: Graph, l: JsonLimits, input: Slot, v: Json) {
    && LimitsValid(l)
    && Unfolds(g, input, v) && v.Obj?
    && Count(v) <= l.maxNodes && Depth(v) <= l.maxDepth && StringsFit(v, l.maxStringBytes)
  }

  /** The clone is the tree unfolding of the graph, returned exactly when the limits are valid, there
      is one, it is an object, and it respects all four limits, the last measured on its actual
      serialized size. */
  lemma ClonesExactly(g: Graph, l: JsonLimits, input: Slot, v: Json)
    requires Closed(g) && SlotOk(g, input)
    ensures Clone(g, l, input) == Ok(v) <==> Admissible(g, l, input, v) && Size(v) <= l.maxDocumentBytes
  {
    hide Walk, Unfolds, Count, Depth, StringsFit, Estimate, Size;
    if Clone(g, l, input) == Ok(v) {
      VisitSound(g, l, input, 0, Tally(0, 2), {});
      UnfoldsObject(g, input, v);
    }
    if Admissible(g, l, input, v) && Size(v) <= l.maxDocumentBytes {
      SizeDecidedExactly(g, l, input, v);
    }
  }

  lemma UnfoldsObject(g: Graph, input: Slot, v: Json)
    requires Unfolds(g, input, v) && input.PRef? && input.id in g
    ensures v.Arr? || v.Obj?
    ensures g[input.id].ArrayNode? <==> v.Arr?
    ensures g[input.id].ObjectNode? <==> v.Obj?
  {
  }

  /** Within the other limits, a document is refused for its size exactly when its serialized text
      is too long: the running estimate never refuses one that would fit. */
  lemma SizeDecidedExactly(g: Graph, l: JsonLimits, input: Slot, v: Json)
    requires Closed(g) && SlotOk(g, input) && Admissible(g, l, input, v)
    ensures Clone(g, l, input) == if Size(v) <= l.maxDocumentBytes then Ok(v) else Err(DocumentSize)
  {
    hide Walk, Unfolds, Count, Depth, StringsFit, Estimate, Size;
    UnfoldsRef(g, input, v);
    UnfoldsObject(g, input, v);
    VisitFails(g, l, input, 0, Tally(0, 2), {}, v);
    EstimateBelow(v);
  }

  lemma UnfoldsRef(g: Graph, input: Slot, v: Json)
    requires Unfolds(g, input, v) && v.Obj?
    ensures input.PRef? && input.id in g
  {
  }

  /* ---------- returning normally means there was no cycle ---------- */

  /** One object holds a reference to another. */
  ghost predicate Holds(g: Graph, a: nat, b: nat) {
    a in g &&
    match g[a]
    case ArrayNode(items) => exists i :: 0 <= i < |items| && items[i] == Some(PRef(b))
    case ObjectNode(props) => exists i :: 0 <= i < |props| && props[i].value == PRef(b)
    case ForeignNode(_) => false
  }

  ghost predicate IsPath(g: Graph, path: seq<nat>) {
    forall i :: 0 < i < |path| ==> Holds(g, path[i - 1], path[i])
  }

  lemma {:induction false} ItemUnfolds(g: Graph, items: seq<Option<Slot>>, vs: seq<Json>, i: nat)
    requires UnfoldItems(g, items, vs) && i < |items|
    ensures items[i].Some? && Unfolds(g, items[i].value, vs[i]) && Depth(vs[i]) <= DepthItems(vs)
  {
    if i > 0 { ItemUnfolds(g, items[1..], vs[1..], i - 1); }
  }

  lemma {:induction false} PropUnfolds(g: Graph, props: seq<Prop>, ms: seq<Member>, i: nat)
    requires UnfoldProps(g, props, ms) && i < |props|
    ensures Unfolds(g, props[i].value, ms[i].value) && Depth(ms[i].value) <= DepthMembers(ms)
  {
    if i > 0 { PropUnfolds(g, props[1..], ms[1..], i - 1); }
  }

  lemma HeldUnfolds(g: Graph, a: nat, b: nat, v: Json) returns (w: Json)
    requires Unfolds(g, PRef(a), v) && Holds(g, a, b)
    ensures Unfolds(g, PRef(b), w) && Depth(w) < Depth(v)
  {
    match v
    case Arr(vs) =>
      var i :| 0 <= i < |g[a].items| && g[a].items[i] == Some(PRef(b));
      ItemUnfolds(g, g[a].items, vs, i);
      w := vs[i];
    case Obj(ms) =>
      var i :| 0 <= i < |g[a].props| && g[a].props[i].value == PRef(b);
      PropUnfolds(g, g[a].props, ms, i);
      w := ms[i].value;
  }

  lemma {:induction false} PathUnfolds(g: Graph, path: seq<nat>, j: nat, v: Json) returns (w: Json)
    requires IsPath(g, path) && j < |path| && Unfolds(g, PRef(path[0]), v)
    ensures Unfolds(g, PRef(path[j]), w)
  {
    if j == 0 {
      w := v;
    } else {
      var u := PathUnfolds(g, path, j - 1, v);
      w := HeldUnfolds(g, path[j - 1], path[j], u);
    }
  }

  lemma {:induction false} DepthFalls(g: Graph, path: seq<nat>, i: nat, j: nat, v: Json) returns (w: Json)
    requires IsPath(g, path) && i < j < |path| && Unfolds(g, PRef(path[i]), v)
    ensures Unfolds(g, PRef(path[j]), w) && Depth(w) < Depth(v)
    decreases j
  {
    if i + 1 == j {
      w := HeldUnfolds(g, path[i], path[j], v);
    } else {
      var u := DepthFalls(g, path, i, j - 1, v);
      w := HeldUnfolds(g, path[j - 1], path[j], u);
    }
  }

  /** If the walk returns normally, no path from the document meets an object twice. */
  lemma ReturnsMeansAcyclic(g: Graph, l: JsonLimits, input: Slot, path: seq<nat>, i: nat, j: nat)
    requires Closed(g) && SlotOk(g, input) && input.PRef? && Clone(g, l, input).Ok?
    requires IsPath(g, path) && i < j < |path| && path[0] == input.id
    ensures path[i] != path[j]
  {
    hide Walk, Unfolds, Depth;
    VisitSound(g, l, input, 0, Tally(0, 2), {});
    var v := PathUnfolds(g, path, i, Walk(g, l, input, 0, Tally(0, 2), {}).value.0);
    var w := DepthFalls(g, path, i, j, v);
    if path[i] == path[j] { UnfoldUnique(g, PRef(path[i]), v, w); }
  }

  /* ---------- a cycle reported is a cycle ---------- */

  ghost predicate Repeats(path: seq<nat>) {
    exists i, j :: 0 <= i < j < |path| && path[i] == path[j]
  }

  /** `path` leads from the document to the value being visited, through the objects above it. */
  ghost predicate Leads(g: Graph, path: seq<nat>, seen: set<nat>) {
    IsPath(g, path) && forall id :: id in seen ==> id in path
  }

  /** The path goes on from `path` and meets an object twice. */
  ghost predicate CycleOn(g: Graph, path: seq<nat>, cycle: seq<nat>) {
    IsPath(g, cycle) && Repeats(cycle) && path <= cycle
  }

  lemma Onward(g: Graph, path: seq<nat>, seen: set<nat>, id: nat)
    requires Leads(g, path, seen) && (path != [] ==> Holds(g, path[|path| - 1], id))
    ensures Leads(g, path + [id], seen + {id})
    ensures id in seen ==> CycleOn(g, path, path + [id])
  {
    hide Holds;
    if id in seen {
      var i :| 0 <= i < |path| && path[i] == id;
      assert (path + [id])[i] == (path + [id])[|path|];
    }
  }

  lemma {:induction false} WalkCycle(g: Graph, l: JsonLimits, slot: Slot, depth: nat, t: Tally, seen: set<nat>,
                                     path: seq<nat>) returns (cycle: seq<nat>)
    requires Closed(g) && SlotOk(g, slot) && Walk(g, l, slot, depth, t, seen) == Err(Cycle)
    requires Leads(g, path, seen) && (slot.PRef? && path != [] ==> Holds(g, path[|path| - 1], slot.id))
    ensures slot.PRef? && CycleOn(g, path + [slot.id], cycle)
    decreases Room(l, depth), 0
  {
    hide WalkItems, WalkProps, Holds, Utf8Length, Decimal;
    assert slot.PRef?;
    var id := slot.id;
    Onward(g, path, seen, id);
    var t1 := t.(nodes := t.nodes + 1);
    if id in seen {
      cycle := path + [id];
    } else {
      match g[id]
      case ArrayNode(items) =>
        ItemsInGraph(g, id);
        ItemsHeld(g, id);
        cycle := ItemsCycle(g, l, items, depth + 1, t1, seen + {id}, path + [id]);
      case ObjectNode(props) =>
        PropsInGraph(g, id);
        PropsHeld(g, id);
        cycle := PropsCycle(g, l, props, depth + 1, t1, seen + {id}, path + [id]);
    }
  }

  lemma ItemsHeld(g: Graph, id: nat)
    requires id in g && g[id].ArrayNode?
    ensures forall i :: 0 <= i < |g[id].items| && g[id].items[i].Some? && g[id].items[i].value.PRef? ==>
              Holds(g, id, g[id].items[i].value.id)
  {
    forall i | 0 <= i < |g[id].items| && g[id].items[i].Some? && g[id].items[i].value.PRef?
      ensures Holds(g, id, g[id].items[i].value.id)
    {
      assert g[id].items[i] == Some(PRef(g[id].items[i].value.id));
    }
  }

  lemma PropsHeld(g: Graph, id: nat)
    requires id in g && g[id].ObjectNode?
    ensures forall i :: 0 <= i < |g[id].props| && g[id].props[i].value.PRef? ==> Holds(g, id, g[id].props[i].value.id)
  {
    forall i | 0 <= i < |g[id].props| && g[id].props[i].value.PRef?
      ensures Holds(g, id, g[id].props[i].value.id)
    {
      assert g[id].props[i].value == PRef(g[id].props[i].value.id);
    }
  }

  lemma {:induction false} ItemsCycle(g: Graph, l: JsonLimits, items: seq<Option<Slot>>, depth: nat, t: Tally,
                                      seen: set<nat>, path: seq<nat>) returns (cycle: seq<nat>)
    requires Closed(g) && forall i :: 0 <= i < |items| && items[i].Some? ==> SlotOk(g, items[i].value)
    requires WalkItems(g, l, items, depth, t, seen) == Err(Cycle) && Leads(g, path, seen) && path != []
    requires forall i :: 0 <= i < |items| && items[i].Some? && items[i].value.PRef? ==>
               Holds(g, path[|path| - 1], items[i].value.id)
    ensures CycleOn(g, path, cycle)
    decreases Room(l, depth), |items| + 1
  {
    hide Walk, Holds, SlotOk, IsPath, Repeats, Leads;
    match Walk(g, l, items[0].value, depth, t, seen)
    case Err(_) => cycle := WalkCycle(g, l, items[0].value, depth, t, seen, path);
    case Ok((_, t1)) => cycle := ItemsCycle(g, l, items[1..], depth, t1.(bytes := t1.bytes + 1), seen, path);
  }

  lemma {:induction false} PropsCycle(g: Graph, l: JsonLimits, props: seq<Prop>, depth: nat, t: Tally, seen: set<nat>,
                                      path: seq<nat>) returns (cycle: seq<nat>)
    requires Closed(g) && forall i :: 0 <= i < |props| ==> SlotOk(g, props[i].value)
    requires WalkProps(g, l, props, depth, t, seen) == Err(Cycle) && Leads(g, path, seen) && path != []
    requires forall i :: 0 <= i < |props| && props[i].value.PRef? ==> Holds(g, path[|path| - 1], props[i].value.id)
    ensures CycleOn(g, path, cycle)
    decreases Room(l, depth), |props| + 1
  {
    hide Walk, Holds, SlotOk, IsPath, Repeats, Leads, Utf8Length;
    match Walk(g, l, props[0].value, depth, t, seen)
    case Err(_) => cycle := WalkCycle(g, l, props[0].value, depth, t, seen, path);
    case Ok((_, t1)) =>
      cycle := PropsCycle(g, l, props[1..], depth, t1.(bytes := t1.bytes + Utf8Length(props[0].name) + 3), seen, path);
  }

  /** When a cycle is reported, some path from the document meets an object twice: objects that are
      only shared are never reported, whatever else is wrong with the document. */
  lemma CyclesAreReal(g: Graph, l: JsonLimits, input: Slot)
    requires Closed(g) && SlotOk(g, input) && Clone(g, l, input) == Err(Cycle)
    ensures input.PRef?
    ensures exists path, i, j :: IsPath(g, path) && 0 <= i < j < |path| && path[0] == input.id && path[i] == path[j]
  {
    hide Walk, Holds;
    var path := WalkCycle(g, l, input, 0, Tally(0, 2), {}, []);
    assert path[0] == input.id;
  }

  /* ---------- a fault reported is there ---------- */

  predicate SlotFault(l: JsonLimits, slot: Slot, issue: Issue) {
    slot == PBad(issue) || (issue.StringSize? && slot.PStr? && Utf8Length(slot.s) > l.maxStringBytes)
  }

  predicate ItemFault(l: JsonLimits, item: Option<Slot>, issue: Issue) {
    if item.Some? then SlotFault(l, item.value, issue) else issue.Sparse?
  }

  predicate PropFault(l: JsonLimits, prop: Prop, issue: Issue) {
    SlotFault(l, prop.value, issue) || (issue.StringSize? && Utf8Length(prop.name) > l.maxStringBytes)
  }

  /** What is wrong with one object, whatever it refers to. */
  ghost predicate NodeFault(l: JsonLimits, node: Node, issue: Issue) {
    match node
    case ArrayNode(items) => exists i :: 0 <= i < |items| && ItemFault(l, items[i], issue)
    case ObjectNode(props) => exists i :: 0 <= i < |props| && PropFault(l, props[i], issue)
    case ForeignNode(own) => issue == own
  }

  /** Some path from an object leads to one with that fault. */
  ghost predicate FaultBelow(g: Graph, l: JsonLimits, id: nat, issue: Issue) {
    exists path :: IsFaultPath(g, l, id, issue, path)
  }

  ghost predicate IsFaultPath(g: Graph, l: JsonLimits, id: nat, issue: Issue, path: seq<nat>) {
    && path != [] && path[0] == id && IsPath(g, path)
    && path[|path| - 1] in g && NodeFault(l, g[path[|path| - 1]], issue)
  }

  lemma FaultHere(g: Graph, l: JsonLimits, id: nat, issue: Issue)
    requires id in g && NodeFault(l, g[id], issue)
    ensures FaultBelow(g, l, id, issue)
  {
    assert IsFaultPath(g, l, id, issue, [id]);
  }

  lemma FaultHeld(g: Graph, l: JsonLimits, a: nat, b: nat, issue: Issue)
    requires Holds(g, a, b) && FaultBelow(g, l, b, issue)
    ensures FaultBelow(g, l, a, issue)
  {
    hide Holds, NodeFault;
    var path :| IsFaultPath(g, l, b, issue, path);
    var longer := [a] + path;
    assert forall i :: 0 < i < |longer| ==> longer[i] == path[i - 1];
    assert IsFaultPath(g, l, a, issue, longer);
  }

  /** The kinds that say what is wrong with the input rather than how large it is. */
  predicate Blames(issue: Issue) {
    Foreign(issue) || issue.Sparse? || issue.StringSize?
  }

  lemma {:induction false} WalkFault(g: Graph, l: JsonLimits, slot: Slot, depth: nat, t: Tally, seen: set<nat>)
    requires Closed(g) && SlotOk(g, slot)
    ensures var r := Walk(g, l, slot, depth, t, seen);
            && (r.Err? ==> !r.error.NotObject? && !r.error.InvalidLimit?)
            && (r.Err? && Blames(r.error) ==>
                  SlotFault(l, slot, r.error) || (slot.PRef? && FaultBelow(g, l, slot.id, r.error)))
    decreases Room(l, depth), 0
  {
    hide WalkItems, WalkProps, FaultBelow, Holds, Utf8Length, Decimal;
    var r := Walk(g, l, slot, depth, t, seen);
    if slot.PRef? && r.Err? && t.nodes + 1 <= l.maxNodes && depth <= l.maxDepth && slot.id !in seen {
      var id, t1 := slot.id, t.(nodes := t.nodes + 1);
      match g[id]
      case ForeignNode(issue) => FaultHere(g, l, id, issue);
      case ArrayNode(items) =>
        ItemsInGraph(g, id);
        ItemsHeld(g, id);
        ItemsFault(g, l, items, depth + 1, t1, seen + {id}, id, 0);
      case ObjectNode(props) =>
        PropsInGraph(g, id);
        PropsHeld(g, id);
        PropsFault(g, l, props, depth + 1, t1, seen + {id}, id, 0);
    }
  }

  lemma {:induction false} ItemsFault(g: Graph, l: JsonLimits, items: seq<Option<Slot>>, depth: nat, t: Tally,
                                      seen: set<nat>, id: nat, from: nat)
    requires Closed(g) && forall i :: 0 <= i < |items| && items[i].Some? ==> SlotOk(g, items[i].value)
    requires id in g && g[id].ArrayNode? && from <= |g[id].items| && items == g[id].items[from..]
    requires forall i :: 0 <= i < |items| && items[i].Some? && items[i].value.PRef? ==> Holds(g, id, items[i].value.id)
    ensures var r := WalkItems(g, l, items, depth, t, seen);
            && (r.Err? ==> !r.error.NotObject? && !r.error.InvalidLimit?)
            && (r.Err? && Blames(r.error) ==> FaultBelow(g, l, id, r.error))
    decreases Room(l, depth), |items| + 1
  {
    hide Walk, FaultBelow, Holds, SlotOk, SlotFault;
    var r := WalkItems(g, l, items, depth, t, seen);
    if items != [] && r.Err? {
      assert items[0] == g[id].items[from];
      if items[0].None? {
        assert ItemFault(l, g[id].items[from], Sparse);
        FaultHere(g, l, id, Sparse);
      } else {
        var first := Walk(g, l, items[0].value, depth, t, seen);
        WalkFault(g, l, items[0].value, depth, t, seen);
        if first.Ok? {
          ItemsFault(g, l, items[1..], depth, first.value.1.(bytes := first.value.1.bytes + 1), seen, id, from + 1);
        } else if Blames(first.error) {
          if SlotFault(l, items[0].value, first.error) {
            assert ItemFault(l, g[id].items[from], first.error);
            FaultHere(g, l, id, first.error);
          } else {
            FaultHeld(g, l, id, items[0].value.id, first.error);
          }
        }
      }
    }
  }

  lemma {:induction false} PropsFault(g: Graph, l: JsonLimits, props: seq<Prop>, depth: nat, t: Tally, seen: set<nat>,
                                      id: nat, from: nat)
    requires Closed(g) && forall i :: 0 <= i < |props| ==> SlotOk(g, props[i].value)
    requires id in g && g[id].ObjectNode? && from <= |g[id].props| && props == g[id].props[from..]
    requires forall i :: 0 <= i < |props| && props[i].value.PRef? ==> Holds(g, id, props[i].value.id)
    ensures var r := WalkProps(g, l, props, depth, t, seen);
            && (r.Err? ==> !r.error.NotObject? && !r.error.InvalidLimit?)
            && (r.Err? && Blames(r.error) ==> FaultBelow(g, l, id, r.error))
    decreases Room(l, depth), |props| + 1
  {
    hide Walk, FaultBelow, Holds, SlotOk, SlotFault, Utf8Length;
    var r := WalkProps(g, l, props, depth, t, seen);
    if props != [] && r.Err? {
      assert props[0] == g[id].props[from];
      if Utf8Length(props[0].name) > l.maxStringBytes {
        assert PropFault(l, g[id].props[from], StringSize);
        FaultHere(g, l, id, StringSize);
      } else {
        var first := Walk(g, l, props[0].value, depth, t, seen);
        WalkFault(g, l, props[0].value, depth, t, seen);
        if first.Ok? {
          var t1 := first.value.1;
          PropsFault(g, l, props[1..], depth, t1.(bytes := t1.bytes + Utf8Length(props[0].name) + 3), seen, id,
                     from + 1);
        } else if Blames(first.error) {
          if SlotFault(l, props[0].value, first.error) {
            assert PropFault(l, g[id].props[from], first.error);
            FaultHere(g, l, id, first.error);
          } else {
            FaultHeld(g, l, id, props[0].value.id, first.error);
          }
        }
      }
    }
  }

  /** What a refusal says is so: the limits are invalid, or the input is not an object, exactly when
      that is reported; and for any other complaint about the input, some path from it leads to
      what is complained of. */
  lemma FailuresAreReal(g: Graph, l: JsonLimits, input: Slot)
    requires Closed(g) && SlotOk(g, input)
    ensures var r := Clone(g, l, input);
            && (r == Err(InvalidLimit) <==> !LimitsValid(l))
            && (r == Err(NotObject) <==> LimitsValid(l) && (!input.PRef? || g[input.id].ArrayNode?))
            && (r.Err? && Blames(r.error) ==> input.PRef? && FaultBelow(g, l, input.id, r.error))
  {
    hide Walk, FaultBelow, LimitsValid;
    if input.PRef? { WalkFault(g, l, input, 0, Tally(0, 2), {}); }
  }

  /* ---------- the walk itself ---------- */

  class Cloner {
    const graph: Graph
    const limits: JsonLimits
    var nodes: nat
    var bytes: nat
    var seen: set<nat>

    constructor (graph: Graph, limits: JsonLimits)
      ensures this.graph == graph && this.limits == limits && nodes == 0 && bytes == 2 && seen == {}
    {
      this.graph, this.limits, nodes, bytes, seen := graph, limits, 0, 2, {};
    }

    ghost function Counted(): Tally
      reads this
    {
      Tally(nodes, bytes)
    }

    /** `visit`. */
    method Visit(slot: Slot, depth: nat) returns (r: Result<Json, Issue>)
      requires Closed(graph) && SlotOk(graph, slot)
      modifies this
      ensures match Walk(graph, limits, slot, depth, old(Counted()), old(seen))
              case Err(issue) => r == Err(issue)
              case Ok((v, t)) => r == Ok(v) && Counted() == t && seen == old(seen)
      decreases Room(limits, depth), 0
    {
      hide WalkItems, WalkProps, Utf8Length, Decimal;
      nodes := nodes + 1;
      if nodes > limits.maxNodes { return Err(NodeLimit); }
      if depth > limits.maxDepth { return Err(DepthLimit); }
      match slot {
        case PNull =>
          bytes := bytes + 4;
          return Ok(Null);
        case PBool(b) =>
          bytes := bytes + if b then 4 else 5;
          return Ok(Bool(b));
        case PNum(n) =>
          bytes := bytes + |Decimal(n)|;
          return Ok(Num(n));
        case PStr(s) =>
          var stringBytes := Utf8Length(s);
          if stringBytes > limits.maxStringBytes { return Err(StringSize); }
          bytes := bytes + stringBytes + 2;
          return Ok(Str(s));
        case PBad(issue) => return Err(issue);
        case PRef(id) =>
          if id in seen { return Err(Cycle); }
          ghost var above := seen;
          seen := seen + {id};
          match graph[id] {
            case ForeignNode(issue) => return Err(issue);
            case ArrayNode(items) =>
              ItemsInGraph(graph, id);
              var output := VisitElements(items, depth + 1);
              if output.Err? { return Err(output.error); }
              seen := seen - {id};
              assert above + {id} - {id} == above;
              if bytes > limits.maxDocumentBytes { return Err(DocumentSize); }
              return Ok(Arr(output.value));
            case ObjectNode(props) =>
              PropsInGraph(graph, id);
              var output := VisitProperties(props, depth + 1);
              if output.Err? { return Err(output.error); }
              seen := seen - {id};
              assert above + {id} - {id} == above;
              if bytes > limits.maxDocumentBytes { return Err(DocumentSize); }
              return Ok(Obj(output.value));
          }
      }
    }

    /** The loop that fills an array. */
    method VisitElements(items: seq<Option<Slot>>, depth: nat) returns (r: Result<seq<Json>, Issue>)
      requires Closed(graph) && forall i :: 0 <= i < |items| && items[i].Some? ==> SlotOk(graph, items[i].value)
      modifies this
      ensures match WalkItems(graph, limits, items, depth, old(Counted()), old(seen))
              case Err(issue) => r == Err(issue)
              case Ok((vs, t)) => r == Ok(vs) && Counted() == t && seen == old(seen)
      decreases Room(limits, depth), 1
    {
      hide Walk, SlotOk;
      var output: seq<Json> := [];
      assert items[0..] == items;
      AfterNone(WalkItems(graph, limits, items, depth, Counted(), seen));
      for i := 0 to |items|
        invariant seen == old(seen)
        invariant WalkItems(graph, limits, items, depth, old(Counted()), old(seen))
               == After(output, WalkItems(graph, limits, items[i..], depth, Counted(), seen))
      {
        assert items[i..][0] == items[i] && items[i..][1..] == items[i + 1..];
        if items[i].None? { return Err(Sparse); }
        var v := Visit(items[i].value, depth);
        if v.Err? { return Err(v.error); }
        bytes := bytes + 1;
        AfterMore(output, v.value, WalkItems(graph, limits, items[i + 1..], depth, Counted(), seen));
        output := output + [v.value];
      }
      assert output + [] == output;
      return Ok(output);
    }

    /** The loop that fills an object. */
    method VisitProperties(props: seq<Prop>, depth: nat) returns (r: Result<seq<Member>, Issue>)
      requires Closed(graph) && forall i :: 0 <= i < |props| ==> SlotOk(graph, props[i].value)
      modifies this
      ensures match WalkProps(graph, limits, props, depth, old(Counted()), old(seen))
              case Err(issue) => r == Err(issue)
              case Ok((ms, t)) => r == Ok(ms) && Counted() == t && seen == old(seen)
      decreases Room(limits, depth), 1
    {
      hide Walk, SlotOk, Utf8Length;
      var output: seq<Member> := [];
      assert props[0..] == props;
      AfterNone(WalkProps(graph, limits, props, depth, Counted(), seen));
      for i := 0 to |props|
        invariant seen == old(seen)
        invariant WalkProps(graph, limits, props, depth, old(Counted()), old(seen))
               == After(output, WalkProps(graph, limits, props[i..], depth, Counted(), seen))
      {
        assert props[i..][0] == props[i] && props[i..][1..] == props[i + 1..];
        var keyBytes := Utf8Length(props[i].name);
        if keyBytes > limits.maxStringBytes { return Err(StringSize); }
        var v := Visit(props[i].value, depth);
        if v.Err? { return Err(v.error); }
        bytes := bytes + keyBytes + 3;
        AfterMore(output, Member(props[i].name, v.value),
                  WalkProps(graph, limits, props[i + 1..], depth, Counted(), seen));
        output := output + [Member(props[i].name, v.value)];
      }
      assert output + [] == output;
      return Ok(output);
    }
  }

  /** The rest of a loop's output after what it has put out so far. */
  ghost function After<T>(done: seq<T>, r: Result<(seq<T>, Tally), Issue>): Result<(seq<T>, Tally), Issue> {
    match r
    case Err(issue) => Err(issue)
    case Ok((rest, t)) => Ok((done + rest, t))
  }

  lemma AfterNone<T>(r: Result<(seq<T>, Tally), Issue>)
    ensures After([], r) == r
  {
    if r.Ok? { assert [] + r.value.0 == r.value.0; }
  }

  lemma AfterMore<T>(done: seq<T>, x: T, r: Result<(seq<T>, Tally), Issue>)
    ensures r.Ok? ==> done + ([x] + r.value.0) == done + [x] + r.value.0
  {
  }

  /** `cloneAndFreezeJsonObject`: the walk, and the final measure of the serialized text. */
  method CloneObject(graph: Graph, limits: JsonLimits, input: Slot) returns (r: Result<Json, Issue>)
    requires Closed(graph) && SlotOk(graph, input)
    ensures r == Clone(graph, limits, input)
    ensures forall v :: r == Ok(v) <==> Admissible(graph, limits, input, v) && Size(v) <= limits.maxDocumentBytes
  {
    hide Walk, Admissible, Size;
    forall v ensures Clone(graph, limits, input) == Ok(v) <==>
                       Admissible(graph, limits, input, v) && Size(v) <= limits.maxDocumentBytes
    {
      ClonesExactly(graph, limits, input, v);
    }
    if !LimitsValid(limits) { return Err(InvalidLimit); }
    if !input.PRef? || graph[input.id].ArrayNode? { return Err(NotObject); }
    var cloner := new Cloner(graph, limits);
    r := cloner.Visit(input, 0);
    if r.Ok? && Size(r.value) > limits.maxDocumentBytes { return Err(DocumentSize); }
  }
}
