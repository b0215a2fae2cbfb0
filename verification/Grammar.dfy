/** JSON texts as sections 2 to 7 of RFC 8259 write them: concrete trees that keep every
    whitespace and escape, and the text each renders to. */
module Grammar {
  import opened Texts

  const QUOTE: CodeUnit := '\"' as int
  const BACKSLASH: CodeUnit := '\\' as int
  const COMMA: CodeUnit := ',' as int
  const COLON: CodeUnit := ':' as int
  const OPEN_OBJECT: CodeUnit := '{' as int
  const CLOSE_OBJECT: CodeUnit := '}' as int
  const OPEN_ARRAY: CodeUnit := '[' as int
  const CLOSE_ARRAY: CodeUnit := ']' as int
  const POINT: CodeUnit := '.' as int
  const LOWER_U: CodeUnit := 'u' as int

  const TRUE: Text := ['t' as int, 'r' as int, 'u' as int, 'e' as int]
  const FALSE: Text := ['f' as int, 'a' as int, 'l' as int, 's' as int, 'e' as int]
  const NULL: Text := ['n' as int, 'u' as int, 'l' as int, 'l' as int]

  predicate IsSpace(u: CodeUnit) {
    u == ' ' as int || u == '\n' as int || u == '\r' as int || u == '\t' as int
  }

  predicate Blank(s: Text) {
    forall i :: 0 <= i < |s| ==> IsSpace(s[i])
  }

  /* ---------- strings ---------- */

  datatype Piece = Plain(u: CodeUnit) | Escape(c: CodeUnit) | Unicode(digits: Text)

  predicate IsHex(u: CodeUnit) {
    IsDigit(u) || 'a' as int <= u <= 'f' as int || 'A' as int <= u <= 'F' as int
  }

  /** The characters that may follow a backslash, other than the one for four hex digits. */
  predicate IsEscape(u: CodeUnit) {
    u == QUOTE || u == BACKSLASH || u == '/' as int || u == 'b' as int || u == 'f' as int
    || u == 'n' as int || u == 'r' as int || u == 't' as int
  }

  predicate PieceOk(p: Piece) {
    match p
    case Plain(u) => u >= 0x20 && u != QUOTE && u != BACKSLASH
    case Escape(c) => IsEscape(c)
    case Unicode(digits) => |digits| == 4 && forall i :: 0 <= i < 4 ==> IsHex(digits[i])
  }

  function RenderPiece(p: Piece): Text {
    match p
    case Plain(u) => [u]
    case Escape(c) => [BACKSLASH, c]
    case Unicode(digits) => [BACKSLASH, LOWER_U] + digits
  }

  function RenderPieces(ps: seq<Piece>): Text {
    if ps == [] then [] else RenderPiece(ps[0]) + RenderPieces(ps[1..])
  }

  function RenderString(ps: seq<Piece>): Text {
    [QUOTE] + RenderPieces(ps) + [QUOTE]
  }

  predicate PiecesOk(ps: seq<Piece>) {
    forall i :: 0 <= i < |ps| ==> PieceOk(ps[i])
  }

  function HexValue(u: CodeUnit): (v: nat)
    ensures v < 16
  {
    if IsDigit(u) then u - '0' as int
    else if 'a' as int <= u <= 'f' as int then u - 'a' as int + 10
    else if 'A' as int <= u <= 'F' as int then u - 'A' as int + 10
    else 0
  }

  /** The character a piece stands for. */
  function DecodePiece(p: Piece): CodeUnit {
    match p
    case Plain(u) => u
    case Escape(c) =>
      if c == 'b' as int then 8 else if c == 'f' as int then 12 else if c == 'n' as int then 10
      else if c == 'r' as int then 13 else if c == 't' as int then 9 else c
    case Unicode(d) =>
      if |d| == 4 then ((HexValue(d[0]) * 16 + HexValue(d[1])) * 16 + HexValue(d[2])) * 16 + HexValue(d[3]) else 0
  }

  function Decode(ps: seq<Piece>): (s: Text)
    ensures |s| == |ps| && forall i :: 0 <= i < |ps| ==> s[i] == DecodePiece(ps[i])
  {
    seq(|ps|, i requires 0 <= i < |ps| => DecodePiece(ps[i]))
  }

  /* ---------- numbers ---------- */

  datatype Exponent = Exponent(mark: CodeUnit, sign: Option<CodeUnit>, digits: Text)

  datatype Numeral = Numeral(minus: bool, whole: Text, fraction: Option<Text>, exponent: Option<Exponent>)

  predicate IsMark(u: CodeUnit) {
    u == 'e' as int || u == 'E' as int
  }

  predicate IsSign(u: CodeUnit) {
    u == '+' as int || u == MINUS
  }

  predicate NumeralOk(n: Numeral) {
    && Canonical(n.whole)
    && (n.fraction.Some? ==> n.fraction.value != [] && AllDigits(n.fraction.value))
    && (n.exponent.Some? ==>
          && IsMark(n.exponent.value.mark)
          && (n.exponent.value.sign.Some? ==> IsSign(n.exponent.value.sign.value))
          && n.exponent.value.digits != [] && AllDigits(n.exponent.value.digits))
  }

  function RenderFraction(f: Option<Text>): Text {
    if f.Some? then [POINT] + f.value else []
  }

  function RenderExponent(e: Option<Exponent>): Text {
    if e.Some? then [e.value.mark] + (if e.value.sign.Some? then [e.value.sign.value] else []) + e.value.digits else []
  }

  function RenderNumeral(n: Numeral): Text {
    (if n.minus then [MINUS] else []) + (n.whole + (RenderFraction(n.fraction) + RenderExponent(n.exponent)))
  }

  /* ---------- values ---------- */

  /** Arrays and objects that are not empty hold their elements as non-empty lists, with the
      whitespace around each element, name and colon. */
  datatype Tree =
    | Word(w: Text)
    | Number(n: Numeral)
    | String(pieces: seq<Piece>)
    | EmptyArray(gap: Text)
    | Array(items: Items)
    | EmptyObject(gap: Text)
    | Object(fields: Fields)

  datatype Items =
    | LastItem(before: Text, value: Tree, after: Text)
    | MoreItems(before: Text, value: Tree, after: Text, rest: Items)

  datatype Key = Key(before: Text, name: seq<Piece>, after: Text)

  datatype Fields =
    | LastField(key: Key, before: Text, value: Tree, after: Text)
    | MoreFields(key: Key, before: Text, value: Tree, after: Text, rest: Fields)

  predicate TreeOk(t: Tree) {
    match t
    case Word(w) => w == TRUE || w == FALSE || w == NULL
    case Number(n) => NumeralOk(n)
    case String(ps) => PiecesOk(ps)
    case EmptyArray(gap) => Blank(gap)
    case Array(items) => ItemsOk(items)
    case EmptyObject(gap) => Blank(gap)
    case Object(fields) => FieldsOk(fields)
  }

  predicate ItemsOk(items: Items) {
    Blank(items.before) && TreeOk(items.value) && Blank(items.after)
    && (items.MoreItems? ==> ItemsOk(items.rest))
  }

  predicate KeyOk(k: Key) {
    Blank(k.before) && PiecesOk(k.name) && Blank(k.after)
  }

  predicate FieldsOk(fields: Fields) {
    KeyOk(fields.key) && Blank(fields.before) && TreeOk(fields.value) && Blank(fields.after)
    && (fields.MoreFields? ==> FieldsOk(fields.rest))
  }

  function Render(t: Tree): Text {
    match t
    case Word(w) => w
    case Number(n) => RenderNumeral(n)
    case String(ps) => RenderString(ps)
    case EmptyArray(gap) => [OPEN_ARRAY] + gap + [CLOSE_ARRAY]
    case Array(items) => [OPEN_ARRAY] + RenderItems(items)
    case EmptyObject(gap) => [OPEN_OBJECT] + gap + [CLOSE_OBJECT]
    case Object(fields) => [OPEN_OBJECT] + RenderFields(fields)
  }

  /** The elements with their separators, and the closing bracket. */
  function RenderItems(items: Items): Text {
    items.before + (Render(items.value) + (items.after +
      (if items.LastItem? then [CLOSE_ARRAY] else [COMMA] + RenderItems(items.rest))))
  }

  function RenderKey(k: Key): Text {
    k.before + (RenderString(k.name) + (k.after + [COLON]))
  }

  function RenderFields(fields: Fields): Text {
    RenderKey(fields.key) + (fields.before + (Render(fields.value) + (fields.after +
      (if fields.LastField? then [CLOSE_OBJECT] else [COMMA] + RenderFields(fields.rest)))))
  }

  /* ---------- the three limits ---------- */

  /** How many values a tree holds, itself included. */
  function Count(t: Tree): nat {
    match t
    case Array(items) => 1 + CountItems(items)
    case Object(fields) => 1 + CountFields(fields)
    case _ => 1
  }

  function CountItems(items: Items): nat {
    Count(items.value) + (if items.MoreItems? then CountItems(items.rest) else 0)
  }

  function CountFields(fields: Fields): nat {
    Count(fields.value) + (if fields.MoreFields? then CountFields(fields.rest) else 0)
  }

  function Max(a: nat, b: nat): nat {
    if a < b then b else a
  }

  /** How far the deepest value lies below this one. */
  function Depth(t: Tree): nat {
    match t
    case Array(items) => 1 + DepthItems(items)
    case Object(fields) => 1 + DepthFields(fields)
    case _ => 0
  }

  function DepthItems(items: Items): nat {
    if items.MoreItems? then Max(Depth(items.value), DepthItems(items.rest)) else Depth(items.value)
  }

  function DepthFields(fields: Fields): nat {
    if fields.MoreFields? then Max(Depth(fields.value), DepthFields(fields.rest)) else Depth(fields.value)
  }

  /** The decoded names of an object. */
  function Names(fields: Fields): set<Text> {
    {Decode(fields.key.name)} + (if fields.MoreFields? then Names(fields.rest) else {})
  }

  /** No object, here or below, has two members with the same decoded name. */
  predicate Distinct(t: Tree) {
    match t
    case Array(items) => DistinctItems(items)
    case Object(fields) => DistinctFields(fields)
    case _ => true
  }

  predicate DistinctItems(items: Items) {
    Distinct(items.value) && (items.MoreItems? ==> DistinctItems(items.rest))
  }

  predicate DistinctFields(fields: Fields) {
    && Distinct(fields.value)
    && (fields.MoreFields? ==> DistinctFields(fields.rest) && Decode(fields.key.name) !in Names(fields.rest))
  }
}
