/** What the pieces of a string literal spell, after the table in section 7 of RFC 8259, and when
    two members of an object have the same name. */
module Spelling {
  import opened Texts
  import opened Grammar

  /** The digit for a value below sixteen, in either case. */
  function HexDigit(v: nat, upper: bool): CodeUnit
    requires v < 16
  {
    if v < 10 then 0x30 + v else if upper then 0x41 + (v - 10) else 0x61 + (v - 10)
  }

  predicate IsDigitFor(c: CodeUnit, v: nat)
    requires v < 16
  {
    c == HexDigit(v, false) || c == HexDigit(v, true)
  }

  /** Four hexadecimal digits, the most significant first. */
  predicate SpellsHex(digits: Text, u: CodeUnit) {
    && |digits| == 4
    && IsDigitFor(digits[0], u / 0x1000) && IsDigitFor(digits[1], u / 0x100 % 16)
    && IsDigitFor(digits[2], u / 0x10 % 16) && IsDigitFor(digits[3], u % 16)
  }

  /** The eight short escapes and what each stands for. */
  const SHORT_ESCAPES: map<CodeUnit, CodeUnit> := map[
    0x22 := 0x22, 0x5C := 0x5C, 0x2F := 0x2F, 0x62 := 0x08, 0x66 := 0x0C, 0x6E := 0x0A, 0x72 := 0x0D, 0x74 := 0x09]

  predicate Spells(p: Piece, u: CodeUnit) {
    match p
    case Plain(c) => c == u
    case Escape(c) => c in SHORT_ESCAPES && SHORT_ESCAPES[c] == u
    case Unicode(digits) => SpellsHex(digits, u)
  }

  lemma HexValueOf(c: CodeUnit, v: nat)
    requires v < 16
    ensures IsDigitFor(c, v) <==> IsHex(c) && HexValue(c) == v
  {
  }

  /** The digits of a number to the base sixteen. */
  lemma BaseSixteen(a: nat, b: nat, c: nat, d: nat, u: nat)
    requires a < 16 && b < 16 && c < 16 && d < 16 && u < 0x10000
    ensures ((a * 16 + b) * 16 + c) * 16 + d == u
       <==> a == u / 0x1000 && b == u / 0x100 % 16 && c == u / 0x10 % 16 && d == u % 16
  {
    Nibbles(u);
    var v := ((a * 16 + b) * 16 + c) * 16 + d;
    assert v / 16 == (a * 16 + b) * 16 + c && v % 16 == d;
    assert v / 16 / 16 == a * 16 + b && v / 16 % 16 == c;
    assert v / 16 / 16 / 16 == a && v / 16 / 16 % 16 == b;
  }

  lemma Nibbles(u: nat)
    ensures u / 0x100 == u / 16 / 16 && u / 0x1000 == u / 16 / 16 / 16
  {
  }

  lemma HexIsDigits(digits: Text, u: CodeUnit)
    requires |digits| == 4 && forall i :: 0 <= i < 4 ==> IsHex(digits[i])
    ensures DecodePiece(Unicode(digits)) == u <==> SpellsHex(digits, u)
  {
    hide IsHex, HexValue, IsDigitFor;
    HexValueOf(digits[0], u / 0x1000);
    HexValueOf(digits[1], u / 0x100 % 16);
    HexValueOf(digits[2], u / 0x10 % 16);
    HexValueOf(digits[3], u % 16);
    BaseSixteen(HexValue(digits[0]), HexValue(digits[1]), HexValue(digits[2]), HexValue(digits[3]), u);
  }

  /** A piece that the grammar allows is decoded to the one code unit it spells. */
  lemma DecodesAsSpelled(p: Piece, u: CodeUnit)
    requires PieceOk(p)
    ensures DecodePiece(p) == u <==> Spells(p, u)
  {
    hide IsHex, HexValue, SpellsHex;
    if p.Unicode? { HexIsDigits(p.digits, u); }
  }

  /** Every code unit can be spelled with four digits, each in either case, and every one of those
      spellings is decoded to it. */
  lemma EverySpelling(u: CodeUnit, upper: seq<bool>)
    requires |upper| == 4
    ensures var p := Unicode([HexDigit(u / 0x1000, upper[0]), HexDigit(u / 0x100 % 16, upper[1]),
                              HexDigit(u / 0x10 % 16, upper[2]), HexDigit(u % 16, upper[3])]);
            PieceOk(p) && DecodePiece(p) == u
  {
    var digits := [HexDigit(u / 0x1000, upper[0]), HexDigit(u / 0x100 % 16, upper[1]),
                   HexDigit(u / 0x10 % 16, upper[2]), HexDigit(u % 16, upper[3])];
    HexValueOf(digits[0], u / 0x1000);
    HexValueOf(digits[1], u / 0x100 % 16);
    HexValueOf(digits[2], u / 0x10 % 16);
    HexValueOf(digits[3], u % 16);
    HexIsDigits(digits, u);
  }

  /* ---------- names ---------- */

  predicate SpellsText(ps: seq<Piece>, text: Text) {
    |ps| == |text| && forall i :: 0 <= i < |ps| ==> Spells(ps[i], text[i])
  }

  lemma DecodesText(ps: seq<Piece>, text: Text)
    requires PiecesOk(ps)
    ensures Decode(ps) == text <==> SpellsText(ps, text)
  {
    hide DecodePiece, Spells, PieceOk;
    if |ps| == |text| {
      forall i | 0 <= i < |ps|
        ensures Decode(ps)[i] == text[i] <==> Spells(ps[i], text[i])
      {
        DecodesAsSpelled(ps[i], text[i]);
      }
    }
  }

  /** Some member's name spells this text. */
  predicate NamedIn(fields: Fields, text: Text) {
    SpellsText(fields.key.name, text) || (fields.MoreFields? && NamedIn(fields.rest, text))
  }

  lemma {:induction false} NamesSpelled(fields: Fields, text: Text)
    requires FieldsOk(fields)
    ensures text in Names(fields) <==> NamedIn(fields, text)
    decreases fields
  {
    hide SpellsText, Decode, TreeOk;
    DecodesText(fields.key.name, text);
    if fields.MoreFields? { NamesSpelled(fields.rest, text); }
  }

  /** Some object, here or below, has two members whose names spell the same text. */
  ghost predicate Repeats(t: Tree) {
    match t
    case Array(items) => RepeatsItems(items)
    case Object(fields) => RepeatsFields(fields)
    case _ => false
  }

  ghost predicate RepeatsItems(items: Items) {
    Repeats(items.value) || (items.MoreItems? && RepeatsItems(items.rest))
  }

  ghost predicate RepeatsFields(fields: Fields) {
    || Repeats(fields.value)
    || (fields.MoreFields? && RepeatsFields(fields.rest))
    || (fields.MoreFields? && exists text :: SpellsText(fields.key.name, text) && NamedIn(fields.rest, text))
  }

  /** The names of all objects are distinct exactly when no object has two spellings of one name. */
  lemma {:induction false} DistinctMeans(t: Tree)
    requires TreeOk(t)
    ensures Distinct(t) <==> !Repeats(t)
    decreases t
  {
    match t
    case Array(items) => DistinctItemsMeans(items);
    case Object(fields) => DistinctFieldsMeans(fields);
    case _ =>
  }

  lemma {:induction false} DistinctItemsMeans(items: Items)
    requires ItemsOk(items)
    ensures DistinctItems(items) <==> !RepeatsItems(items)
    decreases items
  {
    hide TreeOk, Distinct, Repeats;
    DistinctMeans(items.value);
    if items.MoreItems? { DistinctItemsMeans(items.rest); }
  }

  lemma {:induction false} DistinctFieldsMeans(fields: Fields)
    requires FieldsOk(fields)
    ensures DistinctFields(fields) <==> !RepeatsFields(fields)
    decreases fields
  {
    hide TreeOk, Distinct, Repeats, SpellsText, NamedIn, Names, Decode;
    DistinctMeans(fields.value);
    if fields.MoreFields? {
      DistinctFieldsMeans(fields.rest);
      var name := Decode(fields.key.name);
      DecodesText(fields.key.name, name);
      NamesSpelled(fields.rest, name);
      forall text | SpellsText(fields.key.name, text)
        ensures text == name
      {
        DecodesText(fields.key.name, text);
      }
    }
  }

  /** The characters and words of the grammar, as the standard numbers and spells them. */
  lemma Alphabet(u: CodeUnit)
    ensures IsSpace(u) <==> u in {0x20, 0x09, 0x0A, 0x0D}
    ensures IsMark(u) <==> u in {0x65, 0x45}
    ensures IsSign(u) <==> u in {0x2B, 0x2D}
    ensures IsDigit(u) <==> 0x30 <= u <= 0x39
    ensures IsEscape(u) <==> u in SHORT_ESCAPES
    ensures IsHex(u) <==> exists v: nat :: v < 16 && IsDigitFor(u, v)
    ensures PieceOk(Plain(u)) <==> u in {0x20, 0x21} || 0x23 <= u <= 0x5B || 0x5D <= u
    ensures TRUE == Ascii("true") && FALSE == Ascii("false") && NULL == Ascii("null")
    ensures [OPEN_OBJECT, CLOSE_OBJECT, OPEN_ARRAY, CLOSE_ARRAY, COMMA, COLON, POINT, QUOTE] == Ascii("{}[],:.\"")
  {
    if IsHex(u) { assert IsDigitFor(u, HexValue(u)); }
  }
}
