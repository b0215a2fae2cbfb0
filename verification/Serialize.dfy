/** Between the serializer and the scanner: what `JSON.stringify` writes is in the grammar, and the
    scanner accepts it exactly when the value is within its limits. */
module Serializing {
  import opened Texts
  import opened Json
  import opened Grammar
  import opened Scanners
  import S = Sizes
  import C = Cloning

  /* ---------- the tree of a serialized value ---------- */

  /** The piece that a character of a string is written as. */
  function PieceOf(u: CodeUnit): Piece {
    if u == QUOTE || u == BACKSLASH then Escape(u)
    else if u == 8 then Escape('b' as int)
    else if u == 9 then Escape('t' as int)
    else if u == 10 then Escape('n' as int)
    else if u == 12 then Escape('f' as int)
    else if u == 13 then Escape('r' as int)
    else if u < 0x20 || S.IsHigh(u) || S.IsLow(u) then Unicode(S.HexEscape(u)[2..])
    else Plain(u)
  }

  function PiecesOf(s: Text): seq<Piece> {
    if s == [] then []
    else if S.PairAt(s) then [Plain(s[0]), Plain(s[1])] + PiecesOf(s[2..])
    else [PieceOf(s[0])] + PiecesOf(s[1..])
  }

  function TreeOf(v: Json): Tree
    decreases v, 0
  {
    match v
    case Null => Word(NULL)
    case Bool(b) => Word(if b then TRUE else FALSE)
    case Num(n) => Number(Numeral(n < 0, if n < 0 then Digits(-n) else Digits(n), Option.None, Option.None))
    case Str(s) => String(PiecesOf(s))
    case Arr(items) => if items == [] then EmptyArray([]) else Array(ItemsOf(items))
    case Obj(members) => if members == [] then EmptyObject([]) else Object(FieldsOf(members))
  }

  function ItemsOf(items: seq<Json>): Items
    requires items != []
    decreases items, 1
  {
    if |items| == 1 then LastItem([], TreeOf(items[0]), [])
    else MoreItems([], TreeOf(items[0]), [], ItemsOf(items[1..]))
  }

  function KeyOf(name: Text): Key {
    Key([], PiecesOf(name), [])
  }

  function FieldsOf(members: seq<Member>): Fields
    requires members != []
    decreases members, 1
  {
    if |members| == 1 then LastField(KeyOf(members[0].name), [], TreeOf(members[0].value), [])
    else MoreFields(KeyOf(members[0].name), [], TreeOf(members[0].value), [], FieldsOf(members[1..]))
  }

  /* ---------- strings ---------- */

  lemma HexBack(v: nat)
    requires v < 16
    ensures IsHex(S.HexDigit(v)) && HexValue(S.HexDigit(v)) == v
  {
  }

  lemma FourDigits(u: CodeUnit)
    ensures ((u / 4096 * 16 + u / 256 % 16) * 16 + u / 16 % 16) * 16 + u % 16 == u
  {
    assert u / 256 == u / 4096 * 16 + u / 256 % 16;
    assert u / 16 == u / 256 * 16 + u / 16 % 16;
  }

  lemma PieceWritten(u: CodeUnit)
    ensures PieceOk(PieceOf(u)) && RenderPiece(PieceOf(u)) == S.QuoteUnit(u) && DecodePiece(PieceOf(u)) == u
  {
    if PieceOf(u).Unicode? {
      HexBack(u / 4096);
      HexBack(u / 256 % 16);
      HexBack(u / 16 % 16);
      HexBack(u % 16);
      FourDigits(u);
      var digits := S.HexEscape(u)[2..];
      assert digits == [S.HexDigit(u / 4096), S.HexDigit(u / 256 % 16), S.HexDigit(u / 16 % 16), S.HexDigit(u % 16)];
      assert [BACKSLASH, LOWER_U] + digits == S.HexEscape(u);
    }
  }

  /** A character is written in the shortest way the grammar has for it, and as it is where that is
      possible, but for surrogates: those are escaped, unless they stand in a pair. */
  lemma WrittenShortest(u: CodeUnit, p: Piece)
    requires PieceOk(p) && DecodePiece(p) == u
    ensures S.IsHigh(u) || S.IsLow(u) ==> |S.QuoteUnit(u)| == 6
    ensures !S.IsHigh(u) && !S.IsLow(u) ==>
              && |S.QuoteUnit(u)| <= |RenderPiece(p)|
              && (p.Plain? ==> S.QuoteUnit(u) == [u])
  {
  }

  lemma DecodeConcat(ps: seq<Piece>, qs: seq<Piece>)
    ensures Decode(ps + qs) == Decode(ps) + Decode(qs)
  {
  }

  lemma PairWritten(s: Text, rest: seq<Piece>)
    requires S.PairAt(s)
    ensures var ps := [Plain(s[0]), Plain(s[1])] + rest;
            && RenderPieces(ps) == s[..2] + RenderPieces(rest)
            && Decode(ps) == s[..2] + Decode(rest)
            && (PiecesOk(rest) ==> PiecesOk(ps))
  {
    var ps := [Plain(s[0]), Plain(s[1])] + rest;
    assert ps[1..][1..] == rest;
    assert RenderPieces(ps) == [s[0]] + ([s[1]] + RenderPieces(rest));
    DecodeConcat([Plain(s[0]), Plain(s[1])], rest);
    assert Decode([Plain(s[0]), Plain(s[1])]) == s[..2];
  }

  lemma UnitWritten(u: CodeUnit, rest: seq<Piece>)
    ensures var ps := [PieceOf(u)] + rest;
            && RenderPieces(ps) == S.QuoteUnit(u) + RenderPieces(rest)
            && Decode(ps) == [u] + Decode(rest)
            && (PiecesOk(rest) ==> PiecesOk(ps))
  {
    hide S.QuoteUnit, RenderPiece, PieceOk, DecodePiece, PieceOf;
    PieceWritten(u);
    assert ([PieceOf(u)] + rest)[1..] == rest;
    DecodeConcat([PieceOf(u)], rest);
    assert Decode([PieceOf(u)]) == [u];
  }

  /** The pieces of a string render to what is written and decode to the string. */
  lemma {:induction false} PiecesWritten(s: Text)
    ensures PiecesOk(PiecesOf(s)) && RenderPieces(PiecesOf(s)) == S.QuoteBody(s) && Decode(PiecesOf(s)) == s
  {
    hide S.QuoteUnit, PieceOf, Decode, RenderPieces, PiecesOk;
    if s == [] {
      NothingWritten();
    } else if S.PairAt(s) {
      PiecesWritten(s[2..]);
      PairWritten(s, PiecesOf(s[2..]));
      assert s == s[..2] + s[2..];
    } else {
      PiecesWritten(s[1..]);
      UnitWritten(s[0], PiecesOf(s[1..]));
      assert s == [s[0]] + s[1..];
    }
  }

  lemma NothingWritten()
    ensures PiecesOk([]) && RenderPieces([]) == [] && Decode([]) == []
  {
  }

  lemma StringWritten(s: Text)
    ensures PiecesOk(PiecesOf(s)) && RenderString(PiecesOf(s)) == S.Quote(s) && Decode(PiecesOf(s)) == s
  {
    hide PiecesOf, S.QuoteBody, Decode, RenderPieces, PiecesOk;
    PiecesWritten(s);
  }

  /* ---------- values ---------- */

  lemma NumberWritten(n: int)
    ensures TreeOk(TreeOf(Num(n))) && Render(TreeOf(Num(n))) == Decimal(n)
  {
    var digits := if n < 0 then Digits(-n) else Digits(n);
    var fraction: Option<Text> := Option.None;
    assert digits + (RenderFraction(fraction) + RenderExponent(Option.None)) == digits;
  }

  /** The tree of a value is in the grammar and renders to what `JSON.stringify` writes. */
  lemma {:induction false} Written(v: Json)
    ensures TreeOk(TreeOf(v)) && Render(TreeOf(v)) == S.Stringify(v)
    decreases v, 0
  {
    hide PiecesOk, RenderString, S.Quote, PiecesOf, ItemsOk, FieldsOk, RenderItems, RenderFields, RenderNumeral;
    hide NumeralOk;
    hide ItemsOf, FieldsOf, S.StringifyItems, S.StringifyMembers;
    match v
    case Num(n) => NumberWritten(n);
    case Str(s) => StringWritten(s);
    case Arr(items) => if items == [] { NoItems(); } else { ItemsWritten(items); }
    case Obj(members) => if members == [] { NoMembers(); } else { FieldsWritten(members); }
    case _ =>
  }

  lemma NoItems()
    ensures S.StringifyItems([]) == []
  {
  }

  lemma NoMembers()
    ensures S.StringifyMembers([]) == []
  {
  }

  lemma {:induction false} ItemsWritten(items: seq<Json>)
    requires items != []
    ensures ItemsOk(ItemsOf(items)) && RenderItems(ItemsOf(items)) == S.StringifyItems(items) + [CLOSE_ARRAY]
    decreases items, 1
  {
    hide TreeOk, TreeOf, Render, S.Stringify;
    Written(items[0]);
    var first, rest := S.Stringify(items[0]), S.StringifyItems(items[1..]);
    if |items| == 1 {
      NoItems();
      assert items[1..] == [];
      ClosedOff(first, CLOSE_ARRAY);
    } else {
      ItemsWritten(items[1..]);
      Delimited(first, rest, CLOSE_ARRAY);
    }
  }

  lemma ClosedOff(first: Text, close: CodeUnit)
    ensures [] + (first + ([] + [close])) == first + ([] + []) + [close]
  {
  }

  lemma Delimited(first: Text, rest: Text, close: CodeUnit)
    ensures [] + (first + ([] + ([COMMA] + (rest + [close])))) == first + ([S.COMMA] + rest) + [close]
  {
  }

  lemma {:induction false} FieldsWritten(members: seq<Member>)
    requires members != []
    ensures FieldsOk(FieldsOf(members))
        && RenderFields(FieldsOf(members)) == S.StringifyMembers(members) + [CLOSE_OBJECT]
    decreases members, 1
  {
    hide TreeOk, TreeOf, Render, S.Stringify, S.Quote, KeyOk, RenderKey, KeyOf;
    Written(members[0].value);
    KeyWritten(members[0].name);
    var name, first, rest := S.Quote(members[0].name), S.Stringify(members[0].value), S.StringifyMembers(members[1..]);
    if |members| == 1 {
      NoMembers();
      assert members[1..] == [];
      ClosedMember(name, first, CLOSE_OBJECT);
    } else {
      FieldsWritten(members[1..]);
      DelimitedMember(name, first, rest, CLOSE_OBJECT);
    }
  }

  lemma KeyWritten(name: Text)
    ensures KeyOk(KeyOf(name)) && RenderKey(KeyOf(name)) == S.Quote(name) + [COLON]
    ensures Decode(KeyOf(name).name) == name
  {
    hide PiecesOf, S.Quote, RenderString, PiecesOk, Decode;
    StringWritten(name);
  }

  lemma ClosedMember(name: Text, first: Text, close: CodeUnit)
    ensures name + [COLON] + ([] + (first + ([] + [close]))) == name + ([S.COLON] + (first + ([] + []))) + [close]
  {
  }

  lemma DelimitedMember(name: Text, first: Text, rest: Text, close: CodeUnit)
    ensures name + [COLON] + ([] + (first + ([] + ([COMMA] + (rest + [close])))))
         == name + ([S.COLON] + (first + ([S.COMMA] + rest))) + [close]
  {
  }

  /* ---------- counts, depths and names ---------- */

  lemma {:induction false} SameCounts(v: Json)
    ensures Count(TreeOf(v)) == C.Count(v) && Depth(TreeOf(v)) == C.Depth(v)
    decreases v, 0
  {
    match v
    case Arr(items) => if items != [] { SameItemCounts(items); }
    case Obj(members) => if members != [] { SameFieldCounts(members); }
    case _ =>
  }

  lemma {:induction false} SameItemCounts(items: seq<Json>)
    requires items != []
    ensures CountItems(ItemsOf(items)) == C.CountItems(items) && DepthItems(ItemsOf(items)) == C.DepthItems(items)
    decreases items, 1
  {
    SameCounts(items[0]);
    if |items| > 1 { SameItemCounts(items[1..]); } else { assert items[1..] == []; }
  }

  lemma {:induction false} SameFieldCounts(members: seq<Member>)
    requires members != []
    ensures CountFields(FieldsOf(members)) == C.CountMembers(members)
    ensures DepthFields(FieldsOf(members)) == C.DepthMembers(members)
    decreases members, 1
  {
    SameCounts(members[0].value);
    if |members| > 1 { SameFieldCounts(members[1..]); } else { assert members[1..] == []; }
  }

  /** No object, here or below, names a property twice; as of every value that is a JavaScript object. */
  predicate UniqueNames(v: Json)
    decreases v, 0
  {
    match v
    case Arr(items) => ItemsUnique(items)
    case Obj(members) => MembersUnique(members)
    case _ => true
  }

  predicate ItemsUnique(items: seq<Json>)
    decreases items, 1
  {
    items == [] || (UniqueNames(items[0]) && ItemsUnique(items[1..]))
  }

  predicate MembersUnique(members: seq<Member>)
    decreases members, 1
  {
    members == []
    || (UniqueNames(members[0].value) && members[0].name !in NamesIn(members[1..]) && MembersUnique(members[1..]))
  }

  function NamesIn(members: seq<Member>): set<Text> {
    set m | m in members :: m.name
  }

  lemma {:induction false} NamesAreDistinct(v: Json)
    requires UniqueNames(v)
    ensures Distinct(TreeOf(v))
    decreases v, 0
  {
    match v
    case Arr(items) => if items != [] { ItemNamesDistinct(items); }
    case Obj(members) => if members != [] { FieldNamesDistinct(members); }
    case _ =>
  }

  lemma {:induction false} ItemNamesDistinct(items: seq<Json>)
    requires items != [] && ItemsUnique(items)
    ensures DistinctItems(ItemsOf(items))
    decreases items, 1
  {
    NamesAreDistinct(items[0]);
    if |items| > 1 { ItemNamesDistinct(items[1..]); }
  }

  lemma {:induction false} FieldNamesDistinct(members: seq<Member>)
    requires members != [] && MembersUnique(members)
    ensures DistinctFields(FieldsOf(members)) && Names(FieldsOf(members)) == NamesIn(members)
    decreases members, 1
  {
    hide PiecesOf, Decode;
    NamesAreDistinct(members[0].value);
    KeyWritten(members[0].name);
    assert members == [members[0]] + members[1..];
    if |members| > 1 { FieldNamesDistinct(members[1..]); }
  }

  /* ---------- what the scanner makes of it ---------- */

  lemma SerializedIsDocument(v: Json, after: Text)
    requires Blank(after)
    ensures IsDocument(S.Stringify(v) + after, [], TreeOf(v), after)
  {
    hide TreeOk, TreeOf, Render, S.Stringify;
    Written(v);
    assert [] + (S.Stringify(v) + after) == S.Stringify(v) + after;
  }

  /** A serialized value, and whitespace after it, is accepted exactly when the value is within the
      scanner's limits on values and nesting; however large it is, nothing else is wrong with it. */
  lemma SerializedAccepted(v: Json, after: Text)
    requires UniqueNames(v) && Blank(after)
    ensures ReadDocument(S.Stringify(v) + after).Ok? <==> C.Count(v) <= MAX_NODES && C.Depth(v) <= MAX_DEPTH
  {
    hide ReadDocument, IsDocument, TreeOf, Count, Depth, Distinct, C.Count, C.Depth, UniqueNames, S.Stringify;
    var t := S.Stringify(v) + after;
    SerializedIsDocument(v, after);
    NamesAreDistinct(v);
    SameCounts(v);
    if C.Count(v) <= MAX_NODES && C.Depth(v) <= MAX_DEPTH { JsonIsAccepted(t, [], TreeOf(v), after); }
    if ReadDocument(t).Ok? {
      AcceptedIsJson(t);
      var (before', tree', after') := ReadDocument(t).value;
      OneReading(t, [], TreeOf(v), after, before', tree', after');
    }
  }

  /* ---------- two values, two texts ---------- */

  lemma DigitsBack(n: nat, m: nat)
    requires Digits(n) == Digits(m)
    ensures n == m
  {
    hide Digits, Value;
    ValueOfDigits(n);
    ValueOfDigits(m);
  }

  lemma NumberBack(n: int, m: int)
    requires TreeOf(Num(n)) == TreeOf(Num(m))
    ensures n == m
  {
    hide Digits;
    if n < 0 { DigitsBack(-n, -m); } else { DigitsBack(n, m); }
  }

  lemma StringBack(s: Text, r: Text)
    requires PiecesOf(s) == PiecesOf(r)
    ensures s == r
  {
    hide PiecesOf, Decode, RenderPieces, PiecesOk, S.QuoteBody;
    PiecesWritten(s);
    PiecesWritten(r);
  }

  lemma {:induction false} TreeDetermines(v: Json, w: Json)
    requires TreeOf(v) == TreeOf(w)
    ensures v == w
    decreases v, 0
  {
    hide PiecesOf;
    match v
    case Num(n) => NumberBack(n, w.n);
    case Str(s) => StringBack(s, w.s);
    case Arr(items) => if items != [] { ItemsDetermine(items, w.items); }
    case Obj(members) => if members != [] { FieldsDetermine(members, w.members); }
    case _ =>
  }

  lemma {:induction false} ItemsDetermine(items: seq<Json>, others: seq<Json>)
    requires items != [] && others != [] && ItemsOf(items) == ItemsOf(others)
    ensures items == others
    decreases items, 1
  {
    hide TreeOf;
    TreeDetermines(items[0], others[0]);
    assert items == [items[0]] + items[1..] && others == [others[0]] + others[1..];
    if |items| > 1 { ItemsDetermine(items[1..], others[1..]); }
  }

  lemma {:induction false} FieldsDetermine(members: seq<Member>, others: seq<Member>)
    requires members != [] && others != [] && FieldsOf(members) == FieldsOf(others)
    ensures members == others
    decreases members, 1
  {
    hide TreeOf, PiecesOf;
    TreeDetermines(members[0].value, others[0].value);
    StringBack(members[0].name, others[0].name);
    assert members == [members[0]] + members[1..] && others == [others[0]] + others[1..];
    if |members| > 1 { FieldsDetermine(members[1..], others[1..]); }
  }

  /** What is written says which value it was: no two values are written alike. */
  lemma StringifyInjective(v: Json, w: Json, after: Text)
    requires UniqueNames(v) && UniqueNames(w) && Blank(after)
    requires S.Stringify(v) + after == S.Stringify(w) + after
    ensures v == w
  {
    hide IsDocument, TreeOf, Distinct, UniqueNames, S.Stringify;
    SerializedIsDocument(v, after);
    SerializedIsDocument(w, after);
    NamesAreDistinct(v);
    NamesAreDistinct(w);
    OneReading(S.Stringify(v) + after, [], TreeOf(v), after, [], TreeOf(w), after);
    TreeDetermines(v, w);
  }
}
