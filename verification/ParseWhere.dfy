/** Parsing a condition from untrusted JSON under budgets of nodes, depth and scalar bytes. */
module QueryParsing {
  import opened Texts
  import opened Json
  import opened Paths
  import opened Conditions
  import opened Sizes

  datatype QueryLimits = QueryLimits(
    maxDepth: int,
    maxNodes: int,
    maxPathTokens: int,
    maxScalarBytes: int,
    maxSetValues: int,
    maxTotalScalarBytes: int)

  datatype QueryError =
    | NodeLimit
    | DepthLimit
    | InvalidNode
    | InvalidOperator
    | InvalidBoolean
    | InvalidPath
    | InvalidValue
    | ScalarSizeLimit
    | InvalidLimit

  /** A positive safe integer. */
  predicate Positive(n: int) {
    0 < n <= MAX_SAFE_INTEGER
  }

  predicate LimitsValid(l: QueryLimits) {
    && Positive(l.maxDepth) && Positive(l.maxNodes) && Positive(l.maxPathTokens)
    && Positive(l.maxScalarBytes) && Positive(l.maxSetValues) && Positive(l.maxTotalScalarBytes)
  }

  /* ---------- names ---------- */

  const OP: Text := ['o' as int, 'p' as int]
  const CONDITIONS: Text := ['c' as int, 'o' as int, 'n' as int, 'd' as int, 'i' as int, 't' as int, 'i' as int,
                             'o' as int, 'n' as int, 's' as int]
  const CONDITION: Text := CONDITIONS[..9]
  const PATH: Text := ['p' as int, 'a' as int, 't' as int, 'h' as int]
  const VALUE: Text := ['v' as int, 'a' as int, 'l' as int, 'u' as int, 'e' as int]

  datatype Operator = AndOp | OrOp | NotOp | InOp | Comparing(c: Comparison)

  function NameOf(op: Operator): Text {
    match op
    case AndOp => ['a' as int, 'n' as int, 'd' as int]
    case OrOp => ['o' as int, 'r' as int]
    case NotOp => ['n' as int, 'o' as int, 't' as int]
    case InOp => ['i' as int, 'n' as int]
    case Comparing(c) =>
      match c
      case Contains => ['c' as int, 'o' as int, 'n' as int, 't' as int, 'a' as int, 'i' as int, 'n' as int, 's' as int]
      case EndsWith => ['e' as int, 'n' as int, 'd' as int, 's' as int, 'W' as int, 'i' as int, 't' as int, 'h' as int]
      case Eq => ['e' as int, 'q' as int]
      case Gt => ['g' as int, 't' as int]
      case Gte => ['g' as int, 't' as int, 'e' as int]
      case Lt => ['l' as int, 't' as int]
      case Lte => ['l' as int, 't' as int, 'e' as int]
      case Ne => ['n' as int, 'e' as int]
      case StartsWith =>
        ['s' as int, 't' as int, 'a' as int, 'r' as int, 't' as int, 's' as int, 'W' as int, 'i' as int, 't' as int,
         'h' as int]
  }

  /** The names as a query spells them. */
  lemma OperatorNames(op: Operator)
    ensures NameOf(op) == match op
                          case AndOp => Ascii("and")
                          case OrOp => Ascii("or")
                          case NotOp => Ascii("not")
                          case InOp => Ascii("in")
                          case Comparing(Contains) => Ascii("contains")
                          case Comparing(EndsWith) => Ascii("endsWith")
                          case Comparing(Eq) => Ascii("eq")
                          case Comparing(Gt) => Ascii("gt")
                          case Comparing(Gte) => Ascii("gte")
                          case Comparing(Lt) => Ascii("lt")
                          case Comparing(Lte) => Ascii("lte")
                          case Comparing(Ne) => Ascii("ne")
                          case Comparing(StartsWith) => Ascii("startsWith")
  {
  }

  /** And the keys an operator takes; an unknown one is refused for its name only if its keys are
      those of a comparison. */
  lemma KeyNames(op: Option<Operator>, name: Text)
    ensures name in AllowedKeys(op) <==>
              || name == Ascii("op")
              || (name == Ascii("conditions") && (op == Some(AndOp) || op == Some(OrOp)))
              || (name == Ascii("condition") && op == Some(NotOp))
              || ((name == Ascii("path") || name == Ascii("value"))
                  && (op.None? || op.value.InOp? || op.value.Comparing?))
  {
    assert OP == Ascii("op") && CONDITIONS == Ascii("conditions") && CONDITION == Ascii("condition");
    assert PATH == Ascii("path") && VALUE == Ascii("value");
  }

  const OPERATORS: seq<Operator> := [
    AndOp, OrOp, NotOp, InOp, Comparing(Contains), Comparing(EndsWith), Comparing(Eq), Comparing(Gt), Comparing(Gte),
    Comparing(Lt), Comparing(Lte), Comparing(Ne), Comparing(StartsWith)]

  function FindOperator(name: Text, from: nat): (r: Option<Operator>)
    requires from <= |OPERATORS|
    ensures r.Some? ==> NameOf(r.value) == name
    decreases |OPERATORS| - from
  {
    if from == |OPERATORS| then None
    else if NameOf(OPERATORS[from]) == name then Some(OPERATORS[from])
    else FindOperator(name, from + 1)
  }

  /** The names tell the operators apart. */
  lemma NamesDiffer(a: Operator, b: Operator)
    ensures NameOf(a) == NameOf(b) ==> a == b
  {
    var s, t := NameOf(a), NameOf(b);
    if |s| == |t| && s[0] == t[0] && s[1] == t[1] && a != b {
      assert s[|s| - 1] != t[|t| - 1] || |s| == 2;
    }
  }

  lemma OperatorListed(op: Operator)
    ensures exists i :: 0 <= i < |OPERATORS| && OPERATORS[i] == op
  {
    var i := match op
      case AndOp => 0 case OrOp => 1 case NotOp => 2 case InOp => 3
      case Comparing(c) =>
        (match c
         case Contains => 4 case EndsWith => 5 case Eq => 6 case Gt => 7 case Gte => 8
         case Lt => 9 case Lte => 10 case Ne => 11 case StartsWith => 12);
    assert OPERATORS[i] == op;
  }

  lemma {:induction false} FindsFrom(op: Operator, from: nat, i: nat)
    requires from <= i < |OPERATORS| && OPERATORS[i] == op
    ensures FindOperator(NameOf(op), from) == Some(op)
    decreases |OPERATORS| - from
  {
    hide NameOf;
    if NameOf(OPERATORS[from]) == NameOf(op) {
      NamesDiffer(OPERATORS[from], op);
    } else {
      FindsFrom(op, from + 1, i);
    }
  }

  lemma FindsOperator(op: Operator)
    ensures FindOperator(NameOf(op), 0) == Some(op)
  {
    hide NameOf;
    OperatorListed(op);
    var i :| 0 <= i < |OPERATORS| && OPERATORS[i] == op;
    FindsFrom(op, 0, i);
  }

  /* ---------- parsing ---------- */

  /** The two budgets spent so far. */
  datatype Spent = Spent(nodes: nat, scalarBytes: nat)

  function TokenOf(v: Json): Option<PathToken> {
    match v
    case Str(s) => Some(Name(s))
    case Num(n) => Some(Element(n))
    case _ => None
  }

  function TokensOf(vs: seq<Json>): Option<Path> {
    if vs == [] then Some([])
    else if TokenOf(vs[0]).None? || TokensOf(vs[1..]).None? then None
    else Some([TokenOf(vs[0]).value] + TokensOf(vs[1..]).value)
  }

  /** The path a JSON value spells, if it is an array of names and numbers. */
  function PathOf(v: Option<Json>): Option<Path> {
    if v.Some? && v.value.Arr? then TokensOf(v.value.items) else None
  }

  /** The names along a path are scalars too. */
  function PathScalars(path: Path): seq<Json> {
    if path == [] then []
    else (if path[0].Name? then [Str(path[0].s)] else []) + PathScalars(path[1..])
  }

  /** `consumeScalar`. */
  function Consume(l: QueryLimits, t: Spent, v: Json): Result<Spent, QueryError> {
    if Size(v) > l.maxScalarBytes || t.scalarBytes + Size(v) > l.maxTotalScalarBytes then Err(ScalarSizeLimit)
    else Ok(t.(scalarBytes := t.scalarBytes + Size(v)))
  }

  function ConsumeAll(l: QueryLimits, t: Spent, vs: seq<Json>): Result<Spent, QueryError>
    decreases |vs|
  {
    if vs == [] then Ok(t)
    else match Consume(l, t, vs[0])
      case Err(e) => Err(e)
      case Ok(t1) => ConsumeAll(l, t1, vs[1..])
  }

  function AllowedKeys(op: Option<Operator>): seq<Text> {
    match op
    case Some(AndOp) => [CONDITIONS, OP]
    case Some(OrOp) => [CONDITIONS, OP]
    case Some(NotOp) => [CONDITION, OP]
    case _ => [OP, PATH, VALUE]
  }

  predicate KeysAllowed(members: seq<Member>, op: Option<Operator>) {
    forall i :: 0 <= i < |members| ==> members[i].name in AllowedKeys(op)
  }

  predicate AllPrimitive(vs: seq<Json>) {
    forall i :: 0 <= i < |vs| ==> IsPrimitive(vs[i])
  }

  /** A comparison's value, once its path has been read. */
  function ParseValue(op: Operator, path: Path, value: Option<Json>, l: QueryLimits,
                      t: Spent): Result<(Where, Spent), QueryError>
    requires op.InOp? || op.Comparing?
  {
    if op.InOp? then
      if value.None? || !value.value.Arr? || |value.value.items| > l.maxSetValues || !AllPrimitive(value.value.items)
      then Err(InvalidValue)
      else match ConsumeAll(l, t, value.value.items)
        case Err(e) => Err(e)
        case Ok(t1) => Ok((In(path, value.value.items), t1))
    else if value.None? || !IsPrimitive(value.value) then Err(InvalidValue)
    else match Consume(l, t, value.value)
      case Err(e) => Err(e)
      case Ok(t1) =>
        if (op.c.StartsWith? || op.c.EndsWith?) && !value.value.Str? then Err(InvalidValue)
        else Ok((Compare(op.c, path, value.value), t1))
  }

  function Room(l: QueryLimits, depth: nat): nat {
    if depth > l.maxDepth then 0 else l.maxDepth + 1 - depth
  }

  /** `visit` as a function; a missing property is None. */
  function ParseNode(input: Option<Json>, depth: nat, l: QueryLimits, t0: Spent): Result<(Where, Spent), QueryError>
    decreases Room(l, depth), 0
  {
    var t := t0.(nodes := t0.nodes + 1);
    if t.nodes > l.maxNodes then Err(NodeLimit)
    else if depth > l.maxDepth then Err(DepthLimit)
    else if input.None? || !input.value.Obj? then Err(InvalidNode)
    else
      var members := input.value.members;
      match Lookup(members, OP)
      case Some(Str(name)) =>
        var op := FindOperator(name, 0);
        if !KeysAllowed(members, op) then Err(InvalidNode)
        else if op.None? then Err(InvalidOperator)
        else if op.value.NotOp? then
          (match ParseNode(Lookup(members, CONDITION), depth + 1, l, t)
           case Err(e) => Err(e)
           case Ok((w, t1)) => Ok((Not(w), t1)))
        else if op.value.AndOp? || op.value.OrOp? then
          var conditions := Lookup(members, CONDITIONS);
          if conditions.None? || !conditions.value.Arr? || conditions.value.items == [] then Err(InvalidBoolean)
          else
            (match ParseAll(conditions.value.items, depth + 1, l, t)
             case Err(e) => Err(e)
             case Ok((ws, t1)) => Ok((if op.value.AndOp? then And(ws) else Or(ws), t1)))
        else
          var path := PathOf(Lookup(members, PATH));
          if path.None? || !ValidPath(path.value, l.maxPathTokens) then Err(InvalidPath)
          else
            (match ConsumeAll(l, t, PathScalars(path.value))
             case Err(e) => Err(e)
             case Ok(t1) => ParseValue(op.value, path.value, Lookup(members, VALUE), l, t1))
      case _ => Err(InvalidOperator)
  }

  function ParseAll(inputs: seq<Json>, depth: nat, l: QueryLimits, t: Spent): Result<(seq<Where>, Spent), QueryError>
    decreases Room(l, depth), |inputs| + 1
  {
    if inputs == [] then Ok(([], t))
    else match ParseNode(Some(inputs[0]), depth, l, t)
      case Err(e) => Err(e)
      case Ok((w, t1)) =>
        match ParseAll(inputs[1..], depth, l, t1)
        case Err(e) => Err(e)
        case Ok((ws, t2)) => Ok(([w] + ws, t2))
  }

  /** `parseWhere`. */
  function Parse(input: Json, l: QueryLimits): Result<Where, QueryError> {
    if !LimitsValid(l) then Err(InvalidLimit)
    else match ParseNode(Some(input), 0, l, Spent(0, 0))
    case Err(e) => Err(e)
    case Ok((w, _)) => Ok(w)
  }

  /* ---------- budgets of a condition ---------- */

  function NodeCount(w: Where): nat
    decreases w, 0
  {
    match w
    case And(ws) => 1 + NodeCounts(ws)
    case Or(ws) => 1 + NodeCounts(ws)
    case Not(c) => 1 + NodeCount(c)
    case _ => 1
  }

  function NodeCounts(ws: seq<Where>): nat
    decreases ws, 1
  {
    if ws == [] then 0 else NodeCount(ws[0]) + NodeCounts(ws[1..])
  }

  function Max(a: nat, b: nat): nat {
    if a < b then b else a
  }

  function Deepest(w: Where): nat
    decreases w, 0
  {
    match w
    case And(ws) => 1 + DeepestOf(ws)
    case Or(ws) => 1 + DeepestOf(ws)
    case Not(c) => 1 + Deepest(c)
    case _ => 0
  }

  function DeepestOf(ws: seq<Where>): nat
    decreases ws, 1
  {
    if ws == [] then 0 else Max(Deepest(ws[0]), DeepestOf(ws[1..]))
  }

  function TotalSize(vs: seq<Json>): nat {
    if vs == [] then 0 else Size(vs[0]) + TotalSize(vs[1..])
  }

  predicate EachFits(vs: seq<Json>, max: int) {
    forall i :: 0 <= i < |vs| ==> Size(vs[i]) <= max
  }

  function ScalarBytes(w: Where): nat
    decreases w, 0
  {
    match w
    case And(ws) => ScalarByteses(ws)
    case Or(ws) => ScalarByteses(ws)
    case Not(c) => ScalarBytes(c)
    case Compare(_, path, value) => TotalSize(PathScalars(path)) + Size(value)
    case In(path, values) => TotalSize(PathScalars(path)) + TotalSize(values)
  }

  function ScalarByteses(ws: seq<Where>): nat
    decreases ws, 1
  {
    if ws == [] then 0 else ScalarBytes(ws[0]) + ScalarByteses(ws[1..])
  }

  /** What is asked of each part: valid paths, primitive values, strings where an operator wants
      one, no empty conjunction, no scalar or set over its own limit. */
  predicate WellShaped(w: Where, l: QueryLimits)
    decreases w, 0
  {
    match w
    case And(ws) => ws != [] && AllShaped(ws, l)
    case Or(ws) => ws != [] && AllShaped(ws, l)
    case Not(c) => WellShaped(c, l)
    case Compare(op, path, value) =>
      && ValidPath(path, l.maxPathTokens) && EachFits(PathScalars(path), l.maxScalarBytes)
      && IsPrimitive(value) && Size(value) <= l.maxScalarBytes
      && ((op.StartsWith? || op.EndsWith?) ==> value.Str?)
    case In(path, values) =>
      && ValidPath(path, l.maxPathTokens) && EachFits(PathScalars(path), l.maxScalarBytes)
      && AllPrimitive(values) && |values| <= l.maxSetValues && EachFits(values, l.maxScalarBytes)
  }

  predicate AllShaped(ws: seq<Where>, l: QueryLimits)
    decreases ws, 1
  {
    ws == [] || (WellShaped(ws[0], l) && AllShaped(ws[1..], l))
  }

  predicate WithinBudget(w: Where, l: QueryLimits) {
    && WellShaped(w, l)
    && NodeCount(w) <= l.maxNodes
    && Deepest(w) <= l.maxDepth
    && ScalarBytes(w) <= l.maxTotalScalarBytes
  }

  /* ---------- which condition a JSON value spells ---------- */

  function OperatorOf(w: Where): Operator {
    match w
    case And(_) => AndOp
    case Or(_) => OrOp
    case Not(_) => NotOp
    case Compare(op, _, _) => Comparing(op)
    case In(_, _) => InOp
  }

  /** An object with this operator and no stray keys. */
  predicate Labelled(input: Option<Json>, op: Operator) {
    && input.Some? && input.value.Obj?
    && Lookup(input.value.members, OP) == Some(Str(NameOf(op)))
    && KeysAllowed(input.value.members, Some(op))
  }

  /** The object spells the condition, whatever the order of its keys. */
  predicate Spells(input: Option<Json>, w: Where)
    decreases w, 0
  {
    Labelled(input, OperatorOf(w)) &&
    var members := input.value.members;
    match w
    case And(ws) => var c := Lookup(members, CONDITIONS); c.Some? && c.value.Arr? && SpellsAll(c.value.items, ws)
    case Or(ws) => var c := Lookup(members, CONDITIONS); c.Some? && c.value.Arr? && SpellsAll(c.value.items, ws)
    case Not(c) => Spells(Lookup(members, CONDITION), c)
    case Compare(_, path, value) => PathOf(Lookup(members, PATH)) == Some(path) && Lookup(members, VALUE) == Some(value)
    case In(path, values) => PathOf(Lookup(members, PATH)) == Some(path) && Lookup(members, VALUE) == Some(Arr(values))
  }

  predicate SpellsAll(inputs: seq<Json>, ws: seq<Where>)
    decreases ws, 1
  {
    |inputs| == |ws| && (ws == [] || (Spells(Some(inputs[0]), ws[0]) && SpellsAll(inputs[1..], ws[1..])))
  }

  /* ---------- accepted means spelled and within budget ---------- */

  lemma {:induction false} ConsumedAll(l: QueryLimits, t: Spent, vs: seq<Json>)
    requires t.scalarBytes <= l.maxTotalScalarBytes
    ensures ConsumeAll(l, t, vs).Ok? <==>
              EachFits(vs, l.maxScalarBytes) && t.scalarBytes + TotalSize(vs) <= l.maxTotalScalarBytes
    ensures ConsumeAll(l, t, vs).Ok? ==>
              ConsumeAll(l, t, vs).value == t.(scalarBytes := t.scalarBytes + TotalSize(vs))
    decreases |vs|
  {
    hide Size;
    if vs != [] {
      var r := Consume(l, t, vs[0]);
      if r.Ok? {
        ConsumedAll(l, r.value, vs[1..]);
        assert EachFits(vs, l.maxScalarBytes) <==> EachFits(vs[1..], l.maxScalarBytes) by {
          assert forall i :: 0 < i < |vs| ==> vs[i] == vs[1..][i - 1];
        }
      }
    }
  }

  /** What an accepted node has spent and is. */
  ghost predicate Accounted(l: QueryLimits, depth: nat, t: Spent, w: Where, t': Spent) {
    && WellShaped(w, l)
    && t'.nodes == t.nodes + NodeCount(w) <= l.maxNodes
    && t'.scalarBytes == t.scalarBytes + ScalarBytes(w) <= l.maxTotalScalarBytes
    && depth + Deepest(w) <= l.maxDepth
  }

  lemma ValueSound(op: Operator, path: Path, value: Option<Json>, l: QueryLimits, t: Spent)
    requires op.InOp? || op.Comparing?
    requires t.scalarBytes <= l.maxTotalScalarBytes
    requires ParseValue(op, path, value, l, t).Ok?
    requires ValidPath(path, l.maxPathTokens) && EachFits(PathScalars(path), l.maxScalarBytes)
    ensures var (w, t') := ParseValue(op, path, value, l, t).value;
            && WellShaped(w, l) && OperatorOf(w) == op && NodeCount(w) == 1 && Deepest(w) == 0
            && t'.nodes == t.nodes
            && t'.scalarBytes == t.scalarBytes + ScalarBytes(w) - TotalSize(PathScalars(path)) <= l.maxTotalScalarBytes
            && (w == (if op.InOp? then In(path, value.value.items) else Compare(op.c, path, value.value)))
  {
    hide Size, EachFits, ValidPath;
    if op.InOp? { ConsumedAll(l, t, value.value.items); }
  }

  lemma {:induction false} NodeSound(input: Option<Json>, depth: nat, l: QueryLimits, t: Spent)
    requires ParseNode(input, depth, l, t).Ok? && t.scalarBytes <= l.maxTotalScalarBytes
    ensures var (w, t') := ParseNode(input, depth, l, t).value;
            Spells(input, w) && Accounted(l, depth, t, w, t')
    decreases Room(l, depth), 0
  {
    hide Size, EachFits, ValidPath, ParseValue, ConsumeAll, FindOperator, NameOf, KeysAllowed, TokensOf, Lookup;
    var members := input.value.members;
    var name := Lookup(members, OP).value.s;
    var op := FindOperator(name, 0).value;
    var t1 := t.(nodes := t.nodes + 1);
    match op
    case NotOp => NodeSound(Lookup(members, CONDITION), depth + 1, l, t1);
    case AndOp => AllSound(Lookup(members, CONDITIONS).value.items, depth + 1, l, t1);
    case OrOp => AllSound(Lookup(members, CONDITIONS).value.items, depth + 1, l, t1);
    case _ =>
      var path := PathOf(Lookup(members, PATH)).value;
      ConsumedAll(l, t1, PathScalars(path));
      var t2 := ConsumeAll(l, t1, PathScalars(path)).value;
      ValueSound(op, path, Lookup(members, VALUE), l, t2);
      ValueSpells(op, path, Lookup(members, VALUE), l, t2);
  }

  lemma ValueSpells(op: Operator, path: Path, value: Option<Json>, l: QueryLimits, t: Spent)
    requires (op.InOp? || op.Comparing?) && ParseValue(op, path, value, l, t).Ok?
    ensures match ParseValue(op, path, value, l, t).value.0
            case In(p, vs) => op.InOp? && p == path && value == Some(Arr(vs))
            case Compare(c, p, v) => op == Comparing(c) && p == path && value == Some(v)
            case _ => false
  {
  }

  lemma {:induction false} AllSound(inputs: seq<Json>, depth: nat, l: QueryLimits, t: Spent)
    requires ParseAll(inputs, depth, l, t).Ok? && t.scalarBytes <= l.maxTotalScalarBytes && t.nodes <= l.maxNodes
    ensures var (ws, t') := ParseAll(inputs, depth, l, t).value;
            && SpellsAll(inputs, ws) && AllShaped(ws, l)
            && t'.nodes == t.nodes + NodeCounts(ws) <= l.maxNodes
            && t'.scalarBytes == t.scalarBytes + ScalarByteses(ws) <= l.maxTotalScalarBytes
            && (ws != [] ==> depth + DeepestOf(ws) <= l.maxDepth)
    decreases Room(l, depth), |inputs| + 1
  {
    hide ParseNode, Spells, WellShaped, NodeCount, ScalarBytes, Deepest;
    if inputs != [] {
      NodeSound(Some(inputs[0]), depth, l, t);
      var (w, t1) := ParseNode(Some(inputs[0]), depth, l, t).value;
      AllSound(inputs[1..], depth, l, t1);
      var ws := ParseAll(inputs, depth, l, t).value.0;
      assert ws[1..] == ParseAll(inputs[1..], depth, l, t1).value.0;
    }
  }

  /* ---------- spelled and within budget means accepted ---------- */

  lemma {:induction false} NodeComplete(input: Option<Json>, depth: nat, l: QueryLimits, t: Spent, w: Where)
    requires Spells(input, w) && WellShaped(w, l)
    requires t.nodes + NodeCount(w) <= l.maxNodes && depth + Deepest(w) <= l.maxDepth
    requires t.scalarBytes + ScalarBytes(w) <= l.maxTotalScalarBytes
    ensures ParseNode(input, depth, l, t)
         == Ok((w, Spent(t.nodes + NodeCount(w), t.scalarBytes + ScalarBytes(w))))
    decreases w, 0
  {
    hide Size, EachFits, ValidPath, ConsumeAll, FindOperator, NameOf, KeysAllowed, TokensOf, Lookup, AllPrimitive;
    FindsOperator(OperatorOf(w));
    CountPositive(w);
    var members := input.value.members;
    var t1 := t.(nodes := t.nodes + 1);
    match w
    case Not(c) => NodeComplete(Lookup(members, CONDITION), depth + 1, l, t1, c);
    case And(ws) => AllComplete(Lookup(members, CONDITIONS).value.items, depth + 1, l, t1, ws);
    case Or(ws) => AllComplete(Lookup(members, CONDITIONS).value.items, depth + 1, l, t1, ws);
    case _ =>
      hide ParseValue;
      ConsumedAll(l, t1, PathScalars(w.path));
      ValueComplete(w, Lookup(members, VALUE), l, t1.(scalarBytes := t1.scalarBytes + TotalSize(PathScalars(w.path))));
  }

  /** The value of a comparison whose path has been read. */
  lemma ValueComplete(w: Where, value: Option<Json>, l: QueryLimits, t: Spent)
    requires (w.In? || w.Compare?) && WellShaped(w, l)
    requires value == Some(if w.In? then Arr(w.values) else w.value)
    requires t.scalarBytes + (if w.In? then TotalSize(w.values) else Size(w.value)) <= l.maxTotalScalarBytes
    ensures ParseValue(OperatorOf(w), w.path, value, l, t)
         == Ok((w, t.(scalarBytes := t.scalarBytes + if w.In? then TotalSize(w.values) else Size(w.value))))
  {
    hide Size, EachFits, ValidPath;
    if w.In? { ConsumedAll(l, t, w.values); }
  }

  lemma CountPositive(w: Where)
    ensures NodeCount(w) >= 1
  {
  }

  lemma {:induction false} AllComplete(inputs: seq<Json>, depth: nat, l: QueryLimits, t: Spent, ws: seq<Where>)
    requires SpellsAll(inputs, ws) && AllShaped(ws, l)
    requires t.nodes + NodeCounts(ws) <= l.maxNodes && depth + DeepestOf(ws) <= l.maxDepth
    requires t.scalarBytes + ScalarByteses(ws) <= l.maxTotalScalarBytes
    ensures ParseAll(inputs, depth, l, t)
         == Ok((ws, Spent(t.nodes + NodeCounts(ws), t.scalarBytes + ScalarByteses(ws))))
    decreases ws, 1
  {
    hide ParseNode, Spells, WellShaped, NodeCount, ScalarBytes, Deepest;
    if ws != [] {
      NodeComplete(Some(inputs[0]), depth, l, t, ws[0]);
      var t1 := Spent(t.nodes + NodeCount(ws[0]), t.scalarBytes + ScalarBytes(ws[0]));
      AllComplete(inputs[1..], depth, l, t1, ws[1..]);
      assert [ws[0]] + ws[1..] == ws;
    }
  }

  /** `parseWhere` accepts an input as a condition exactly when the limits are valid, the input spells
      the condition, and that is well shaped and within every budget. */
  lemma ParsesExactly(input: Json, l: QueryLimits, w: Where)
    ensures Parse(input, l) == Ok(w) <==> LimitsValid(l) && Spells(Some(input), w) && WithinBudget(w, l)
  {
    hide ParseNode, Spells, WellShaped, NodeCount, ScalarBytes, Deepest;
    if Parse(input, l) == Ok(w) { NodeSound(Some(input), 0, l, Spent(0, 0)); }
    if Spells(Some(input), w) && WithinBudget(w, l) { NodeComplete(Some(input), 0, l, Spent(0, 0), w); }
  }

  /* ---------- the AST it returns parses again ---------- */

  function PathJson(path: Path): (vs: seq<Json>)
    ensures |vs| == |path|
  {
    seq(|path|, i requires 0 <= i < |path| => if path[i].Name? then Str(path[i].s) else Num(path[i].n))
  }

  /** The returned AST, as JSON. */
  function Written(w: Where): Json
    decreases w, 0
  {
    var op := Member(OP, Str(NameOf(OperatorOf(w))));
    match w
    case And(ws) => Obj([Member(CONDITIONS, Arr(WrittenAll(ws))), op])
    case Or(ws) => Obj([Member(CONDITIONS, Arr(WrittenAll(ws))), op])
    case Not(c) => Obj([Member(CONDITION, Written(c)), op])
    case Compare(_, path, value) => Obj([op, Member(PATH, Arr(PathJson(path))), Member(VALUE, value)])
    case In(path, values) => Obj([op, Member(PATH, Arr(PathJson(path))), Member(VALUE, Arr(values))])
  }

  function WrittenAll(ws: seq<Where>): (vs: seq<Json>)
    ensures |vs| == |ws|
    decreases ws, 1
  {
    if ws == [] then [] else [Written(ws[0])] + WrittenAll(ws[1..])
  }

  lemma {:induction false} TokensBack(path: Path)
    ensures TokensOf(PathJson(path)) == Some(path)
  {
    if path != [] {
      TokensBack(path[1..]);
      assert PathJson(path)[1..] == PathJson(path[1..]);
      assert [path[0]] + path[1..] == path;
    }
  }

  lemma LookupTwo(a: Member, b: Member)
    requires a.name != b.name
    ensures Lookup([a, b], a.name) == Some(a.value) && Lookup([a, b], b.name) == Some(b.value)
  {
    assert [a, b][1..] == [b];
  }

  lemma LookupThree(a: Member, b: Member, c: Member)
    requires a.name != b.name && b.name != c.name && a.name != c.name
    ensures Lookup([a, b, c], a.name) == Some(a.value) && Lookup([a, b, c], b.name) == Some(b.value)
    ensures Lookup([a, b, c], c.name) == Some(c.value)
  {
    assert [a, b, c][1..] == [b, c];
    LookupTwo(b, c);
  }

  lemma {:induction false} WrittenSpells(w: Where)
    ensures Spells(Some(Written(w)), w)
    decreases w, 0
  {
    hide NameOf, Lookup, TokensOf, PathJson;
    var op := Member(OP, Str(NameOf(OperatorOf(w))));
    match w
    case And(ws) =>
      LookupTwo(Member(CONDITIONS, Arr(WrittenAll(ws))), op);
      AllWrittenSpell(ws);
    case Or(ws) =>
      LookupTwo(Member(CONDITIONS, Arr(WrittenAll(ws))), op);
      AllWrittenSpell(ws);
    case Not(c) =>
      LookupTwo(Member(CONDITION, Written(c)), op);
      WrittenSpells(c);
    case Compare(_, path, value) =>
      LookupThree(op, Member(PATH, Arr(PathJson(path))), Member(VALUE, value));
      TokensBack(path);
    case In(path, values) =>
      LookupThree(op, Member(PATH, Arr(PathJson(path))), Member(VALUE, Arr(values)));
      TokensBack(path);
  }

  lemma {:induction false} AllWrittenSpell(ws: seq<Where>)
    ensures SpellsAll(WrittenAll(ws), ws)
    decreases ws, 1
  {
    hide Spells, Written;
    if ws != [] {
      WrittenSpells(ws[0]);
      AllWrittenSpell(ws[1..]);
      assert WrittenAll(ws)[1..] == WrittenAll(ws[1..]);
    }
  }

  /** Parsing what was parsed changes nothing. */
  lemma ReparsesUnchanged(input: Json, l: QueryLimits, w: Where)
    requires Parse(input, l) == Ok(w)
    ensures Parse(Written(w), l) == Ok(w)
  {
    hide Parse, Spells, WithinBudget;
    ParsesExactly(input, l, w);
    WrittenSpells(w);
    ParsesExactly(Written(w), l, w);
  }

  /* ---------- the parser itself ---------- */

  class Parser {
    const limits: QueryLimits
    var nodes: nat
    var scalarBytes: nat

    constructor (limits: QueryLimits)
      ensures this.limits == limits && nodes == 0 && scalarBytes == 0
    {
      this.limits, nodes, scalarBytes := limits, 0, 0;
    }

    ghost function Counted(): Spent
      reads this
    {
      Spent(nodes, scalarBytes)
    }

    /** `consumeScalar`. */
    method ConsumeScalar(value: Json) returns (error: Option<QueryError>)
      modifies this`scalarBytes
      ensures match Consume(limits, old(Counted()), value)
              case Err(e) => error == Some(e)
              case Ok(t) => error.None? && Counted() == t
    {
      var size := Size(value);
      if size > limits.maxScalarBytes { return Some(ScalarSizeLimit); }
      scalarBytes := scalarBytes + size;
      if scalarBytes > limits.maxTotalScalarBytes { return Some(ScalarSizeLimit); }
      return None;
    }

    method ConsumeScalars(values: seq<Json>) returns (error: Option<QueryError>)
      modifies this`scalarBytes
      ensures match ConsumeAll(limits, old(Counted()), values)
              case Err(e) => error == Some(e)
              case Ok(t) => error.None? && Counted() == t
    {
      assert values[0..] == values;
      for i := 0 to |values|
        invariant nodes == old(nodes)
        invariant ConsumeAll(limits, Counted(), values[i..]) == ConsumeAll(limits, old(Counted()), values)
      {
        assert values[i..][1..] == values[i + 1..];
        error := ConsumeScalar(values[i]);
        if error.Some? { return; }
      }
      return None;
    }

    /** The names along a path. */
    method ConsumePath(path: Path) returns (error: Option<QueryError>)
      modifies this`scalarBytes
      ensures match ConsumeAll(limits, old(Counted()), PathScalars(path))
              case Err(e) => error == Some(e)
              case Ok(t) => error.None? && Counted() == t
    {
      hide Size;
      assert path[0..] == path;
      for i := 0 to |path|
        invariant nodes == old(nodes)
        invariant ConsumeAll(limits, Counted(), PathScalars(path[i..]))
            == ConsumeAll(limits, old(Counted()), PathScalars(path))
      {
        assert path[i..][1..] == path[i + 1..];
        if path[i].Name? {
          assert ([Str(path[i].s)] + PathScalars(path[i + 1..]))[1..] == PathScalars(path[i + 1..]);
          error := ConsumeScalar(Str(path[i].s));
          if error.Some? { return; }
        } else {
          assert [] + PathScalars(path[i + 1..]) == PathScalars(path[i + 1..]);
        }
      }
      return None;
    }

    /** `visit`. */
    method Visit(candidate: Option<Json>, depth: nat) returns (r: Result<Where, QueryError>)
      modifies this
      ensures match ParseNode(candidate, depth, limits, old(Counted()))
              case Err(e) => r == Err(e)
              case Ok((w, t)) => r == Ok(w) && Counted() == t
      decreases Room(limits, depth), 0
    {
      hide Size, ValidPath, ConsumeAll, NameOf, TokensOf, Lookup, ParseAll;
      nodes := nodes + 1;
      if nodes > limits.maxNodes { return Err(NodeLimit); }
      if depth > limits.maxDepth { return Err(DepthLimit); }
      if candidate.None? || !candidate.value.Obj? { return Err(InvalidNode); }
      var members := candidate.value.members;
      var labelled := Lookup(members, OP);
      if labelled.None? || !labelled.value.Str? { return Err(InvalidOperator); }
      var op := FindOperator(labelled.value.s, 0);
      if !KeysAllowed(members, op) { return Err(InvalidNode); }
      if op.None? { return Err(InvalidOperator); }
      if op.value.AndOp? || op.value.OrOp? {
        var conditions := Lookup(members, CONDITIONS);
        if conditions.None? || !conditions.value.Arr? || |conditions.value.items| == 0 { return Err(InvalidBoolean); }
        var parsed := VisitAll(conditions.value.items, depth + 1);
        if parsed.Err? { return Err(parsed.error); }
        return Ok(if op.value.AndOp? then And(parsed.value) else Or(parsed.value));
      }
      if op.value.NotOp? {
        var parsed := Visit(Lookup(members, CONDITION), depth + 1);
        if parsed.Err? { return Err(parsed.error); }
        return Ok(Not(parsed.value));
      }
      r := VisitComparison(op.value, members);
    }

    /** The comparisons, `in` among them. */
    method VisitComparison(op: Operator, members: seq<Member>) returns (r: Result<Where, QueryError>)
      requires op.InOp? || op.Comparing?
      modifies this`scalarBytes
      ensures var path := PathOf(Lookup(members, PATH));
              if path.None? || !ValidPath(path.value, limits.maxPathTokens) then r == Err(InvalidPath)
              else match ConsumeAll(limits, old(Counted()), PathScalars(path.value))
                case Err(e) => r == Err(e)
                case Ok(t1) =>
                  (match ParseValue(op, path.value, Lookup(members, VALUE), limits, t1)
                   case Err(e) => r == Err(e)
                   case Ok((w, t)) => r == Ok(w) && Counted() == t)
    {
      hide Size, ConsumeAll, TokensOf, Lookup;
      var spelled := PathOf(Lookup(members, PATH));
      if spelled.None? { return Err(InvalidPath); }
      var path := ValidatePath(spelled.value, limits.maxPathTokens);
      if path.None? { return Err(InvalidPath); }
      var error := ConsumePath(path.value);
      if error.Some? { return Err(error.value); }
      var value := Lookup(members, VALUE);
      if op.InOp? {
        if value.None? || !value.value.Arr? || |value.value.items| > limits.maxSetValues
            || !AllPrimitive(value.value.items) {
          return Err(InvalidValue);
        }
        error := ConsumeScalars(value.value.items);
        if error.Some? { return Err(error.value); }
        return Ok(In(path.value, value.value.items));
      }
      if value.None? || !IsPrimitive(value.value) { return Err(InvalidValue); }
      error := ConsumeScalar(value.value);
      if error.Some? { return Err(error.value); }
      if (op.c.StartsWith? || op.c.EndsWith?) && !value.value.Str? { return Err(InvalidValue); }
      return Ok(Compare(op.c, path.value, value.value));
    }

    method VisitAll(candidates: seq<Json>, depth: nat) returns (r: Result<seq<Where>, QueryError>)
      modifies this
      ensures match ParseAll(candidates, depth, limits, old(Counted()))
              case Err(e) => r == Err(e)
              case Ok((ws, t)) => r == Ok(ws) && Counted() == t
      decreases Room(limits, depth), 1
    {
      hide ParseNode;
      var parsed: seq<Where> := [];
      assert candidates[0..] == candidates;
      AfterNone(ParseAll(candidates, depth, limits, Counted()));
      for i := 0 to |candidates|
        invariant ParseAll(candidates, depth, limits, old(Counted()))
               == After(parsed, ParseAll(candidates[i..], depth, limits, Counted()))
      {
        assert candidates[i..][1..] == candidates[i + 1..];
        var w := Visit(Some(candidates[i]), depth);
        if w.Err? { return Err(w.error); }
        AfterMore(parsed, w.value, ParseAll(candidates[i + 1..], depth, limits, Counted()));
        parsed := parsed + [w.value];
      }
      assert parsed + [] == parsed;
      return Ok(parsed);
    }
  }

  /** The rest of a loop's output after what it has put out so far. */
  ghost function After(done: seq<Where>,
                       r: Result<(seq<Where>, Spent), QueryError>): Result<(seq<Where>, Spent), QueryError> {
    match r
    case Err(e) => Err(e)
    case Ok((rest, t)) => Ok((done + rest, t))
  }

  lemma AfterNone(r: Result<(seq<Where>, Spent), QueryError>)
    ensures After([], r) == r
  {
    if r.Ok? { assert [] + r.value.0 == r.value.0; }
  }

  lemma AfterMore(done: seq<Where>, w: Where, r: Result<(seq<Where>, Spent), QueryError>)
    ensures r.Ok? ==> done + ([w] + r.value.0) == done + [w] + r.value.0
  {
  }

  /** `compileWhere`: the parsed condition, and a predicate that means it on every document. */
  method ParseAndCompile(input: Json, limits: QueryLimits) returns (r: Result<(Where, Json -> bool), QueryError>)
    ensures match Parse(input, limits)
            case Err(e) => r == Err(e)
            case Ok(w) => r.Ok? && r.value.0 == w && forall doc :: r.value.1(doc) == Eval(w, doc)
    ensures r.Ok? ==> forall doc :: r.value.1(doc) <==> Holds(r.value.0, doc)
    ensures r.Ok? ==> Spells(Some(input), r.value.0) && WithinBudget(r.value.0, limits)
  {
    hide ParseNode, Spells, WithinBudget, Eval, Compile, Holds;
    if !LimitsValid(limits) { return Err(InvalidLimit); }
    var parser := new Parser(limits);
    var parsed := parser.Visit(Some(input), 0);
    if parsed.Err? { return Err(parsed.error); }
    var w := parsed.value;
    ParsesExactly(input, limits, w);
    forall doc
      ensures Compile(w)(doc) == Eval(w, doc) == Holds(w, doc)
    {
      CompileMeansEval(w, doc);
      EvalMeans(w, doc);
    }
    return Ok((w, Compile(w)));
  }
}
