/** The UTF-8 size of a value's JSON text. */
module Sizes {
  import opened Texts
  import opened Json

  predicate IsHigh(u: CodeUnit) {
    0xD800 <= u < 0xDC00
  }

  predicate IsLow(u: CodeUnit) {
    0xDC00 <= u < 0xE000
  }

  predicate PairAt(s: Text) {
    |s| >= 2 && IsHigh(s[0]) && IsLow(s[1])
  }

  /** Bytes of a text in UTF-8; an unpaired surrogate becomes the three-byte replacement character. */
  function Utf8Length(s: Text): (n: nat)
    ensures n >= |s|
  {
    if s == [] then 0
    else if PairAt(s) then 4 + Utf8Length(s[2..])
    else (if s[0] < 0x80 then 1 else if s[0] < 0x800 then 2 else 3) + Utf8Length(s[1..])
  }

  /** A code point in UTF-8, as section 3 of RFC 3629 writes it. */
  function Utf8Of(c: nat): seq<nat>
    requires c < 0x110000
  {
    if c < 0x80 then [c]
    else if c < 0x800 then [0xC0 + c / 0x40, 0x80 + c % 0x40]
    else if c < 0x10000 then [0xE0 + c / 0x1000, 0x80 + c / 0x40 % 0x40, 0x80 + c % 0x40]
    else [0xF0 + c / 0x40000, 0x80 + c / 0x1000 % 0x40, 0x80 + c / 0x40 % 0x40, 0x80 + c % 0x40]
  }

  /** A text in UTF-8: pairs of surrogates are one code point, unpaired ones are replaced. */
  function Utf8(s: Text): seq<nat> {
    if s == [] then []
    else if PairAt(s) then
      var high: int, low: int := s[0], s[1];
      Utf8Of(0x10000 + (high - 0xD800) * 0x400 + (low - 0xDC00)) + Utf8(s[2..])
    else Utf8Of(if IsHigh(s[0]) || IsLow(s[0]) then 0xFFFD else s[0]) + Utf8(s[1..])
  }

  /** The length that is charged is the number of bytes. */
  lemma {:induction false} Utf8LengthCounts(s: Text)
    ensures |Utf8(s)| == Utf8Length(s)
  {
    if s != [] { Utf8LengthCounts(if PairAt(s) then s[2..] else s[1..]); }
  }

  /** Nothing before this text can pair with its first unit. */
  predicate Seamless(s: Text) {
    s != [] ==> !IsLow(s[0])
  }

  lemma SeamlessAppend(a: Text, b: Text)
    requires Seamless(a) && Seamless(b)
    ensures Seamless(a + b)
  {
    if a == [] { assert a + b == b; }
  }

  /** Sizes add up unless a surrogate pair straddles the seam. */
  lemma {:induction false} Utf8Append(a: Text, b: Text)
    requires Seamless(b)
    ensures Utf8Length(a + b) == Utf8Length(a) + Utf8Length(b)
  {
    if a == [] {
      assert a + b == b;
    } else if PairAt(a) {
      assert (a + b)[2..] == a[2..] + b;
      Utf8Append(a[2..], b);
    } else {
      assert (a + b)[1..] == a[1..] + b;
      Utf8Append(a[1..], b);
    }
  }

  const QUOTE: CodeUnit := '\"' as int
  const BACKSLASH: CodeUnit := '\\' as int
  const COLON: CodeUnit := ':' as int
  const COMMA: CodeUnit := ',' as int

  function HexDigit(v: nat): CodeUnit
    requires v < 16
  {
    if v < 10 then ZERO + v else 'a' as int + v - 10
  }

  function HexEscape(u: CodeUnit): Text {
    [BACKSLASH, 'u' as int, HexDigit(u / 4096), HexDigit(u / 256 % 16), HexDigit(u / 16 % 16), HexDigit(u % 16)]
  }

  /** One character of a string as `JSON.stringify` writes it; unpaired surrogates are escaped. */
  function QuoteUnit(u: CodeUnit): (s: Text)
    ensures s != [] && Seamless(s)
  {
    if u == QUOTE then [BACKSLASH, QUOTE]
    else if u == BACKSLASH then [BACKSLASH, BACKSLASH]
    else if u == 8 then [BACKSLASH, 'b' as int]
    else if u == 9 then [BACKSLASH, 't' as int]
    else if u == 10 then [BACKSLASH, 'n' as int]
    else if u == 12 then [BACKSLASH, 'f' as int]
    else if u == 13 then [BACKSLASH, 'r' as int]
    else if u < 0x20 || IsHigh(u) || IsLow(u) then HexEscape(u)
    else [u]
  }

  function QuoteBody(s: Text): (q: Text)
    ensures Seamless(q)
  {
    if s == [] then []
    else if PairAt(s) then s[..2] + QuoteBody(s[2..])
    else QuoteUnit(s[0]) + QuoteBody(s[1..])
  }

  function Quote(s: Text): Text {
    [QUOTE] + (QuoteBody(s) + [QUOTE])
  }

  const NULL_TEXT: Text := ['n' as int, 'u' as int, 'l' as int, 'l' as int]
  const TRUE_TEXT: Text := ['t' as int, 'r' as int, 'u' as int, 'e' as int]
  const FALSE_TEXT: Text := ['f' as int, 'a' as int, 'l' as int, 's' as int, 'e' as int]

  /** `JSON.stringify`. */
  function Stringify(v: Json): (s: Text)
    ensures s != [] && Seamless(s)
    decreases v, 0
  {
    match v
    case Null => NULL_TEXT
    case Bool(b) => if b then TRUE_TEXT else FALSE_TEXT
    case Num(n) => DecimalPlain(n); Decimal(n)
    case Str(s) => Quote(s)
    case Arr(items) => ['[' as int] + (StringifyItems(items) + [']' as int])
    case Obj(members) => ['{' as int] + (StringifyMembers(members) + ['}' as int])
  }

  function StringifyItems(items: seq<Json>): (s: Text)
    ensures Seamless(s)
    decreases items, 1
  {
    if items == [] then []
    else Stringify(items[0]) + ((if |items| > 1 then [COMMA] else []) + StringifyItems(items[1..]))
  }

  function StringifyMembers(members: seq<Member>): (s: Text)
    ensures Seamless(s)
    decreases members, 1
  {
    if members == [] then []
    else
      Quote(members[0].name) + ([COLON] + (Stringify(members[0].value)
        + ((if |members| > 1 then [COMMA] else []) + StringifyMembers(members[1..]))))
  }

  lemma DecimalPlain(n: int)
    ensures Decimal(n) != [] && !IsLow(Decimal(n)[0])
  {
    if n < 0 {
    } else {
      assert IsDigit(Digits(n)[0]);
    }
  }

  /** The bytes of the serialized value. */
  function Size(v: Json): nat {
    Utf8Length(Stringify(v))
  }

  /* ---------- sizes of the parts ---------- */

  lemma OneByte(u: CodeUnit)
    requires u < 0x80
    ensures Utf8Length([u]) == 1
  {
    assert [u][1..] == [];
  }

  lemma {:induction false} QuoteBodyAtLeast(s: Text)
    ensures Utf8Length(QuoteBody(s)) >= Utf8Length(s)
  {
    if s == [] {
    } else if PairAt(s) {
      QuoteBodyAtLeast(s[2..]);
      Utf8Append(s[..2], QuoteBody(s[2..]));
      assert s[..2][2..] == [];
      assert Utf8Length(s[..2]) == 4;
    } else {
      QuoteBodyAtLeast(s[1..]);
      Utf8Append(QuoteUnit(s[0]), QuoteBody(s[1..]));
      QuoteUnitAtLeast(s[0]);
    }
  }

  lemma QuoteUnitAtLeast(u: CodeUnit)
    ensures Utf8Length(QuoteUnit(u)) >= if u < 0x80 then 1 else if u < 0x800 then 2 else 3
  {
    if QuoteUnit(u) == [u] { assert [u][1..] == []; }
  }

  /** A quoted text is at least its own bytes and two quotes. */
  lemma QuoteAtLeast(s: Text)
    ensures Utf8Length(Quote(s)) >= Utf8Length(s) + 2
  {
    QuoteBodyAtLeast(s);
    Utf8Append(QuoteBody(s), [QUOTE]);
    Utf8Append([QUOTE], QuoteBody(s) + [QUOTE]);
    OneByte(QUOTE);
  }

  /** Brackets around a text. */
  lemma Enclosed(open: CodeUnit, body: Text, close: CodeUnit)
    requires open < 0x80 && close < 0x80 && Seamless(body)
    ensures Utf8Length([open] + (body + [close])) == Utf8Length(body) + 2
  {
    OneByte(open);
    OneByte(close);
    Utf8Append(body, [close]);
    Utf8Append([open], body + [close]);
  }

  function Comma(more: bool): Text {
    if more then [COMMA] else []
  }

  lemma CommaSize(more: bool)
    ensures Utf8Length(Comma(more)) == if more then 1 else 0
  {
    if more { OneByte(COMMA); }
  }

  lemma ItemsSize(items: seq<Json>)
    requires items != []
    ensures Utf8Length(StringifyItems(items))
         == Size(items[0]) + (if |items| > 1 then 1 else 0) + Utf8Length(StringifyItems(items[1..]))
  {
    var rest := StringifyItems(items[1..]);
    CommaSize(|items| > 1);
    Utf8Append(Comma(|items| > 1), rest);
    Utf8Append(Stringify(items[0]), Comma(|items| > 1) + rest);
  }

  lemma ColonSeamless(s: Text)
    ensures Seamless([COLON] + s)
  {
  }

  /** A name, a colon, a value and what follows. */
  lemma MemberSize(name: Text, value: Text, tail: Text)
    requires Seamless(value) && Seamless(tail)
    ensures Utf8Length(name + ([COLON] + (value + tail)))
         == Utf8Length(name) + 1 + Utf8Length(value) + Utf8Length(tail)
  {
    hide Utf8Length, Seamless;
    OneByte(COLON);
    Utf8Append(value, tail);
    SeamlessAppend(value, tail);
    ColonSeamless(value + tail);
    Utf8Append([COLON], value + tail);
    Utf8Append(name, [COLON] + (value + tail));
  }

  lemma MembersSize(members: seq<Member>)
    requires members != []
    ensures Utf8Length(StringifyMembers(members))
         == Utf8Length(Quote(members[0].name)) + 1 + Size(members[0].value)
            + (if |members| > 1 then 1 else 0) + Utf8Length(StringifyMembers(members[1..]))
  {
    hide Quote, Stringify, Utf8Length;
    var rest := StringifyMembers(members[1..]);
    var tail := Comma(|members| > 1) + rest;
    CommaSize(|members| > 1);
    Utf8Append(Comma(|members| > 1), rest);
    MemberSize(Quote(members[0].name), Stringify(members[0].value), tail);
  }
}
