/** The duplicate-name scanner: an index moving over a text, a count of values, and recursion. */
module Scanners {
  import opened Texts
  import opened Grammar
  import opened Spelling

  const MAX_NODES: nat := 1_000_000
  const MAX_DEPTH: nat := 128

  datatype Failure = Syntax | NodeLimit | NestingLimit | DuplicateKey

  /** What was read, where reading stopped, and how many values have been counted. */
  datatype Got<T> = Got(value: T, index: nat, nodes: int)

  function SkipSpace(t: Text, i: nat): (j: nat)
    requires i <= |t|
    ensures i <= j <= |t| && Blank(t[i..j]) && (j < |t| ==> !IsSpace(t[j]))
    decreases |t| - i
  {
    if i < |t| && IsSpace(t[i]) then
      var j := SkipSpace(t, i + 1);
      assert t[i..j] == [t[i]] + t[i + 1..j];
      j
    else i
  }

  /** One character or escape of a string literal, and the index after it. */
  function ReadPiece(t: Text, i: nat): (r: Option<(Piece, nat)>)
    requires i < |t|
    ensures r.Some? ==> i < r.value.1 <= |t|
  {
    if t[i] == BACKSLASH then
      if i + 1 >= |t| then None
      else if t[i + 1] == LOWER_U then
        if i + 6 <= |t| && forall k :: i + 2 <= k < i + 6 ==> IsHex(t[k])
        then Some((Unicode(t[i + 2..i + 6]), i + 6)) else None
      else if IsEscape(t[i + 1]) then Some((Escape(t[i + 1]), i + 2))
      else None
    else if t[i] < 0x20 then None
    else Some((Plain(t[i]), i + 1))
  }

  /** The pieces of a string literal from just after its opening quote, and the index after its
      closing one. */
  function ReadPieces(t: Text, i: nat): (r: Option<(seq<Piece>, nat)>)
    requires i <= |t|
    ensures r.Some? ==> i < r.value.1 <= |t|
    decreases |t| - i
  {
    if i >= |t| then None
    else if t[i] == QUOTE then Some(([], i + 1))
    else match ReadPiece(t, i)
      case None => None
      case Some((p, j)) =>
        match ReadPieces(t, j)
        case None => None
        case Some((rest, end)) => Some(([p] + rest, end))
  }

  function ReadString(t: Text, i: nat): (r: Option<(seq<Piece>, nat)>)
    requires i <= |t|
    ensures r.Some? ==> i + 1 < r.value.1 <= |t|
  {
    if i < |t| && t[i] == QUOTE then ReadPieces(t, i + 1) else None
  }

  function SkipDigits(t: Text, i: nat): (j: nat)
    requires i <= |t|
    ensures i <= j <= |t| && AllDigits(t[i..j]) && (j < |t| ==> !IsDigit(t[j]))
    decreases |t| - i
  {
    if i < |t| && IsDigit(t[i]) then
      var j := SkipDigits(t, i + 1);
      assert t[i..j] == [t[i]] + t[i + 1..j];
      j
    else i
  }

  /** The optional fraction of the number pattern. */
  function ReadFraction(t: Text, i: nat): (r: (Option<Text>, nat))
    requires i <= |t|
    ensures i <= r.1 <= |t|
  {
    if i < |t| && t[i] == POINT && i + 1 < |t| && IsDigit(t[i + 1])
    then (Some(t[i + 1..SkipDigits(t, i + 1)]), SkipDigits(t, i + 1))
    else (None, i)
  }

  function ReadExponent(t: Text, i: nat): (r: (Option<Exponent>, nat))
    requires i <= |t|
    ensures i <= r.1 <= |t|
  {
    if i < |t| && IsMark(t[i]) then
      var signed := i + 1 < |t| && IsSign(t[i + 1]);
      var k := if signed then i + 2 else i + 1;
      if k < |t| && IsDigit(t[k])
      then (Some(Exponent(t[i], if signed then Some(t[i + 1]) else None, t[k..SkipDigits(t, k)])), SkipDigits(t, k))
      else (None, i)
    else (None, i)
  }

  /** The longest match of the number pattern at an index. */
  function ReadNumber(t: Text, i: nat): (r: Option<(Numeral, nat)>)
    requires i <= |t|
    ensures r.Some? ==> i < r.value.1 <= |t|
  {
    var minus := i < |t| && t[i] == MINUS;
    var k := if minus then i + 1 else i;
    if k >= |t| || !IsDigit(t[k]) then None
    else
      var wholeEnd := if t[k] == ZERO then k + 1 else SkipDigits(t, k);
      var (fraction, fractionEnd) := ReadFraction(t, wholeEnd);
      var (exponent, end) := ReadExponent(t, fractionEnd);
      Some((Numeral(minus, t[k..wholeEnd], fraction, exponent), end))
  }

  predicate StartsWith(t: Text, word: Text, i: nat) {
    i + |word| <= |t| && t[i..i + |word|] == word
  }

  /** `parseValue`: the whitespace before the value, and the value. */
  function ReadValue(t: Text, i: nat, depth: int, nodes: int): (r: Result<Got<(Text, Tree)>, Failure>)
    requires i <= |t|
    ensures r.Ok? ==> i < r.value.index <= |t|
    decreases |t| - i, 0
  {
    if nodes + 1 > MAX_NODES then Err(NodeLimit)
    else if depth > MAX_DEPTH then Err(NestingLimit)
    else
      var k := SkipSpace(t, i);
      var before := t[i..k];
      if k >= |t| then Err(Syntax)
      else if t[k] == OPEN_OBJECT then
        var gap := SkipSpace(t, k + 1);
        if gap < |t| && t[gap] == CLOSE_OBJECT then Ok(Got((before, EmptyObject(t[k + 1..gap])), gap + 1, nodes + 1))
        else match ReadFields(t, k + 1, depth, nodes + 1, {})
          case Err(why) => Err(why)
          case Ok(got) => Ok(Got((before, Object(got.value)), got.index, got.nodes))
      else if t[k] == OPEN_ARRAY then
        var gap := SkipSpace(t, k + 1);
        if gap >= |t| then Err(Syntax)
        else if t[gap] == CLOSE_ARRAY then Ok(Got((before, EmptyArray(t[k + 1..gap])), gap + 1, nodes + 1))
        else match ReadItems(t, k + 1, depth, nodes + 1)
          case Err(why) => Err(why)
          case Ok(got) => Ok(Got((before, Array(got.value)), got.index, got.nodes))
      else if t[k] == QUOTE then
        match ReadString(t, k)
        case None => Err(Syntax)
        case Some((pieces, j)) => Ok(Got((before, String(pieces)), j, nodes + 1))
      else if StartsWith(t, TRUE, k) then Ok(Got((before, Word(TRUE)), k + |TRUE|, nodes + 1))
      else if StartsWith(t, FALSE, k) then Ok(Got((before, Word(FALSE)), k + |FALSE|, nodes + 1))
      else if StartsWith(t, NULL, k) then Ok(Got((before, Word(NULL)), k + |NULL|, nodes + 1))
      else
        match ReadNumber(t, k)
        case None => Err(Syntax)
        case Some((n, j)) => Ok(Got((before, Number(n)), j, nodes + 1))
  }

  /** The loop over array elements. */
  function ReadItems(t: Text, i: nat, depth: int, nodes: int): (r: Result<Got<Items>, Failure>)
    requires i <= |t|
    ensures r.Ok? ==> i < r.value.index <= |t|
    decreases |t| - i, 1
  {
    if i >= |t| then Err(Syntax)
    else match ReadValue(t, i, depth + 1, nodes)
      case Err(why) => Err(why)
      case Ok(got) =>
        var (before, value) := got.value;
        var k := SkipSpace(t, got.index);
        var after := t[got.index..k];
        if k < |t| && t[k] == CLOSE_ARRAY then Ok(Got(LastItem(before, value, after), k + 1, got.nodes))
        else if k < |t| && t[k] == COMMA then
          match ReadItems(t, k + 1, depth, got.nodes)
          case Err(why) => Err(why)
          case Ok(more) => Ok(Got(MoreItems(before, value, after, more.value), more.index, more.nodes))
        else Err(Syntax)
  }

  /** A member's name and colon, if the name is not taken. */
  function ReadKey(t: Text, i: nat, keys: set<Text>): (r: Result<(Key, nat), Failure>)
    requires i <= |t|
    ensures r.Ok? ==> i < r.value.1 <= |t|
  {
    var k := SkipSpace(t, i);
    match ReadString(t, k)
    case None => Err(Syntax)
    case Some((name, j)) =>
      if Decode(name) in keys then Err(DuplicateKey)
      else
        var c := SkipSpace(t, j);
        if c < |t| && t[c] == COLON then Ok((Key(t[i..k], name, t[j..c]), c + 1)) else Err(Syntax)
  }

  /** The loop over object members; `keys` are the names so far. */
  function ReadFields(t: Text, i: nat, depth: int, nodes: int, keys: set<Text>): (r: Result<Got<Fields>, Failure>)
    requires i <= |t|
    ensures r.Ok? ==> i < r.value.index <= |t|
    decreases |t| - i, 1
  {
    if i >= |t| then Err(Syntax)
    else match ReadKey(t, i, keys)
      case Err(why) => Err(why)
      case Ok((key, j)) =>
        match ReadValue(t, j, depth + 1, nodes)
        case Err(why) => Err(why)
        case Ok(got) =>
          var (before, value) := got.value;
          var k := SkipSpace(t, got.index);
          var after := t[got.index..k];
          if k < |t| && t[k] == CLOSE_OBJECT then Ok(Got(LastField(key, before, value, after), k + 1, got.nodes))
          else if k < |t| && t[k] == COMMA then
            match ReadFields(t, k + 1, depth, got.nodes, keys + {Decode(key.name)})
            case Err(why) => Err(why)
            case Ok(more) => Ok(Got(MoreFields(key, before, value, after, more.value), more.index, more.nodes))
          else Err(Syntax)
  }

  /** The whole check, returning the document it accepted with the whitespace around it. */
  function ReadDocument(t: Text): Result<(Text, Tree, Text), Failure> {
    match ReadValue(t, 0, 0, 0)
    case Err(why) => Err(why)
    case Ok(got) =>
      if SkipSpace(t, got.index) != |t| then Err(Syntax)
      else Ok((got.value.0, got.value.1, t[got.index..]))
  }

  /* ---------- everything accepted is JSON, within the limits ---------- */

  /** This text is what lies at an index. */
  ghost predicate Lies(t: Text, i: nat, s: Text) {
    i + |s| <= |t| && t[i..i + |s|] == s
  }

  lemma Join(t: Text, i: nat, a: Text, b: Text)
    ensures Lies(t, i, a + b) <==> Lies(t, i, a) && Lies(t, i + |a|, b)
  {
    if Lies(t, i, a + b) {
      assert t[i..i + |a|] == t[i..i + |a + b|][..|a|];
      assert t[i + |a|..i + |a| + |b|] == t[i..i + |a + b|][|a|..];
    }
    if Lies(t, i, a) && Lies(t, i + |a|, b) {
      assert t[i..i + |a + b|] == t[i..i + |a|] + t[i + |a|..i + |a| + |b|];
    }
  }

  lemma SliceLies(t: Text, i: nat, j: nat)
    requires i <= j <= |t|
    ensures Lies(t, i, t[i..j]) && |t[i..j]| == j - i
  {
  }

  lemma UnitLies(t: Text, i: nat, u: CodeUnit)
    ensures Lies(t, i, [u]) <==> i < |t| && t[i] == u
  {
  }

  lemma PieceSound(t: Text, i: nat)
    requires i < |t| && t[i] != QUOTE && ReadPiece(t, i).Some?
    ensures var (p, j) := ReadPiece(t, i).value;
            PieceOk(p) && Lies(t, i, RenderPiece(p)) && j == i + |RenderPiece(p)|
  {
    var (p, j) := ReadPiece(t, i).value;
    if p.Unicode? { assert t[i..i + 6] == [t[i], t[i + 1]] + t[i + 2..i + 6]; }
  }

  lemma {:induction false} PiecesSound(t: Text, i: nat)
    requires i <= |t| && ReadPieces(t, i).Some?
    ensures var (ps, j) := ReadPieces(t, i).value;
            PiecesOk(ps) && Lies(t, i, RenderPieces(ps) + [QUOTE]) && j == i + |RenderPieces(ps)| + 1
    decreases |t| - i
  {
    hide Lies, ReadPiece, PieceOk, RenderPiece;
    UnitLies(t, i, QUOTE);
    if t[i] == QUOTE {
      assert [] + [QUOTE] == [QUOTE];
    } else {
      PieceSound(t, i);
      var (p, k) := ReadPiece(t, i).value;
      PiecesSound(t, k);
      var (rest, j) := ReadPieces(t, k).value;
      assert ([p] + rest)[1..] == rest;
      Join(t, i, RenderPiece(p), RenderPieces(rest) + [QUOTE]);
      assert RenderPiece(p) + (RenderPieces(rest) + [QUOTE]) == RenderPiece(p) + RenderPieces(rest) + [QUOTE];
    }
  }

  lemma StringSound(t: Text, i: nat)
    requires i <= |t| && ReadString(t, i).Some?
    ensures var (ps, j) := ReadString(t, i).value;
            PiecesOk(ps) && Lies(t, i, RenderString(ps)) && j == i + |RenderString(ps)|
  {
    hide Lies, ReadPieces, RenderPieces, PiecesOk;
    PiecesSound(t, i + 1);
    var ps := ReadString(t, i).value.0;
    UnitLies(t, i, QUOTE);
    Join(t, i, [QUOTE], RenderPieces(ps) + [QUOTE]);
    assert [QUOTE] + (RenderPieces(ps) + [QUOTE]) == RenderString(ps);
  }

  lemma FractionSound(t: Text, i: nat)
    requires i <= |t|
    ensures var (f, j) := ReadFraction(t, i);
            && (f.Some? ==> f.value != [] && AllDigits(f.value))
            && Lies(t, i, RenderFraction(f)) && j == i + |RenderFraction(f)|
  {
    hide Lies;
    var (f, j) := ReadFraction(t, i);
    SliceLies(t, i, i);
    assert t[i..i] == [];
    if f.Some? {
      UnitLies(t, i, POINT);
      SliceLies(t, i + 1, j);
      Join(t, i, [POINT], f.value);
    }
  }

  lemma ExponentSound(t: Text, i: nat)
    requires i <= |t|
    ensures var (e, j) := ReadExponent(t, i);
            && (e.Some? ==> IsMark(e.value.mark) && (e.value.sign.Some? ==> IsSign(e.value.sign.value))
                            && e.value.digits != [] && AllDigits(e.value.digits))
            && Lies(t, i, RenderExponent(e)) && j == i + |RenderExponent(e)|
  {
    hide Lies;
    var (e, j) := ReadExponent(t, i);
    SliceLies(t, i, i);
    assert t[i..i] == [];
    if e.Some? {
      var sign := if e.value.sign.Some? then [e.value.sign.value] else [];
      UnitLies(t, i, e.value.mark);
      SliceLies(t, i + 1, i + 1 + |sign|);
      assert t[i + 1..i + 1 + |sign|] == sign;
      SliceLies(t, i + 1 + |sign|, j);
      Join(t, i, [e.value.mark], sign);
      Join(t, i, [e.value.mark] + sign, e.value.digits);
    }
  }

  lemma NumberSound(t: Text, i: nat)
    requires i <= |t| && ReadNumber(t, i).Some?
    ensures var (n, j) := ReadNumber(t, i).value;
            NumeralOk(n) && Lies(t, i, RenderNumeral(n)) && j == i + |RenderNumeral(n)|
  {
    hide Lies, SkipDigits, ReadFraction, ReadExponent, RenderFraction, RenderExponent;
    var (n, j) := ReadNumber(t, i).value;
    var k := if n.minus then i + 1 else i;
    var minus := if n.minus then [MINUS] else [];
    var wholeEnd := k + |n.whole|;
    if t[k] != ZERO { MoreDigits(t, k); }
    SliceLies(t, i, k);
    assert t[i..k] == minus;
    SliceLies(t, k, wholeEnd);
    FractionSound(t, wholeEnd);
    var fractionEnd := ReadFraction(t, wholeEnd).1;
    ExponentSound(t, fractionEnd);
    Join(t, wholeEnd, RenderFraction(n.fraction), RenderExponent(n.exponent));
    Join(t, k, n.whole, RenderFraction(n.fraction) + RenderExponent(n.exponent));
    Join(t, i, minus, n.whole + (RenderFraction(n.fraction) + RenderExponent(n.exponent)));
  }

  lemma MoreDigits(t: Text, i: nat)
    requires i < |t| && IsDigit(t[i])
    ensures SkipDigits(t, i) > i
  {
  }

  /** What reading a value establishes. */
  ghost predicate ValueRead(t: Text, i: nat, depth: int, nodes: int, got: Got<(Text, Tree)>) {
    && Blank(got.value.0) && TreeOk(got.value.1) && Distinct(got.value.1)
    && Lies(t, i, got.value.0) && Lies(t, i + |got.value.0|, Render(got.value.1))
    && got.index == i + |got.value.0| + |Render(got.value.1)|
    && got.nodes == nodes + Count(got.value.1) <= MAX_NODES
    && depth + Depth(got.value.1) <= MAX_DEPTH
  }

  ghost predicate ItemsRead(t: Text, i: nat, depth: int, nodes: int, got: Got<Items>) {
    && ItemsOk(got.value) && DistinctItems(got.value)
    && Lies(t, i, RenderItems(got.value)) && got.index == i + |RenderItems(got.value)|
    && got.nodes == nodes + CountItems(got.value) <= MAX_NODES
    && depth + 1 + DepthItems(got.value) <= MAX_DEPTH
  }

  ghost predicate FieldsRead(t: Text, i: nat, depth: int, nodes: int, keys: set<Text>, got: Got<Fields>) {
    && FieldsOk(got.value) && DistinctFields(got.value) && Names(got.value) !! keys
    && Lies(t, i, RenderFields(got.value)) && got.index == i + |RenderFields(got.value)|
    && got.nodes == nodes + CountFields(got.value) <= MAX_NODES
    && depth + 1 + DepthFields(got.value) <= MAX_DEPTH
  }

  lemma EmptyLies(t: Text, i: nat, open: CodeUnit, gap: Text, close: CodeUnit)
    ensures Lies(t, i, [open] + gap + [close]) <==>
              Lies(t, i, [open]) && Lies(t, i + 1, gap) && Lies(t, i + 1 + |gap|, [close])
  {
    hide Lies;
    Join(t, i, [open], gap);
    Join(t, i, [open] + gap, [close]);
  }

  lemma WordSound(t: Text, k: nat, w: Text)
    ensures StartsWith(t, w, k) ==> Lies(t, k, w)
  {
  }

  lemma {:induction false} ValueSound(t: Text, i: nat, depth: int, nodes: int)
    requires i <= |t| && ReadValue(t, i, depth, nodes).Ok?
    ensures ValueRead(t, i, depth, nodes, ReadValue(t, i, depth, nodes).value)
    decreases |t| - i, 0
  {
    hide Lies, ReadFields, ReadItems, ReadString, ReadNumber, SkipSpace, FieldsOk, ItemsOk, RenderNumeral, NumeralOk;
    hide RenderString, PiecesOk, RenderItems, RenderFields, StartsWith, Blank, DistinctItems, DistinctFields;
    var got := ReadValue(t, i, depth, nodes).value;
    var k := SkipSpace(t, i);
    SliceLies(t, i, k);
    UnitLies(t, k, t[k]);
    match got.value.1
    case Object(fields) =>
      FieldsSound(t, k + 1, depth, nodes + 1, {});
      Join(t, k, [OPEN_OBJECT], RenderFields(fields));
    case EmptyObject(gap) =>
      SliceLies(t, k + 1, got.index - 1);
      UnitLies(t, got.index - 1, CLOSE_OBJECT);
      EmptyLies(t, k, OPEN_OBJECT, gap, CLOSE_OBJECT);
    case Array(items) =>
      ItemsSound(t, k + 1, depth, nodes + 1);
      Join(t, k, [OPEN_ARRAY], RenderItems(items));
    case EmptyArray(gap) =>
      SliceLies(t, k + 1, got.index - 1);
      UnitLies(t, got.index - 1, CLOSE_ARRAY);
      EmptyLies(t, k, OPEN_ARRAY, gap, CLOSE_ARRAY);
    case String(_) => StringSound(t, k);
    case Word(w) => WordSound(t, k, w);
    case Number(_) => NumberSound(t, k);
  }

  lemma {:induction false} ItemsSound(t: Text, i: nat, depth: int, nodes: int)
    requires i <= |t| && ReadItems(t, i, depth, nodes).Ok?
    ensures ItemsRead(t, i, depth, nodes, ReadItems(t, i, depth, nodes).value)
    decreases |t| - i, 1
  {
    hide Lies, ReadValue, SkipSpace, Blank, TreeOk, Render, Distinct, Depth, Count;
    var got := ReadItems(t, i, depth, nodes).value;
    ValueSound(t, i, depth + 1, nodes);
    var first := ReadValue(t, i, depth + 1, nodes).value;
    var k := SkipSpace(t, first.index);
    SliceLies(t, first.index, k);
    UnitLies(t, k, t[k]);
    if got.value.MoreItems? {
      ItemsSound(t, k + 1, depth, first.nodes);
      Join(t, k, [COMMA], RenderItems(got.value.rest));
    }
    ItemsLie(t, i, got.value);
  }

  /** A list of elements lies at an index just when its parts lie one after another. */
  lemma ItemsLie(t: Text, i: nat, items: Items)
    ensures var j := i + |items.before|; var k := j + |Render(items.value)|;
            Lies(t, i, RenderItems(items)) <==>
              && Lies(t, i, items.before) && Lies(t, j, Render(items.value)) && Lies(t, k, items.after)
              && Lies(t, k + |items.after|,
                      if items.LastItem? then [CLOSE_ARRAY] else [COMMA] + RenderItems(items.rest))
    ensures |RenderItems(items)| == |items.before| + |Render(items.value)| + |items.after| + 1
                                    + (if items.LastItem? then 0 else |RenderItems(items.rest)|)
  {
    hide Lies, Render;
    var tail := if items.LastItem? then [CLOSE_ARRAY] else [COMMA] + RenderItems(items.rest);
    var j := i + |items.before|;
    var k := j + |Render(items.value)|;
    Join(t, k, items.after, tail);
    Join(t, j, Render(items.value), items.after + tail);
    Join(t, i, items.before, Render(items.value) + (items.after + tail));
  }

  lemma KeyLies(t: Text, i: nat, key: Key)
    ensures var j := i + |key.before|; var k := j + |RenderString(key.name)|;
            Lies(t, i, RenderKey(key)) <==>
              && Lies(t, i, key.before) && Lies(t, j, RenderString(key.name)) && Lies(t, k, key.after)
              && Lies(t, k + |key.after|, [COLON])
  {
    hide Lies, RenderString;
    var j := i + |key.before|;
    var k := j + |RenderString(key.name)|;
    Join(t, k, key.after, [COLON]);
    Join(t, j, RenderString(key.name), key.after + [COLON]);
    Join(t, i, key.before, RenderString(key.name) + (key.after + [COLON]));
  }

  lemma FieldsLie(t: Text, i: nat, fields: Fields)
    ensures var h := i + |RenderKey(fields.key)|; var j := h + |fields.before|; var k := j + |Render(fields.value)|;
            Lies(t, i, RenderFields(fields)) <==>
              && Lies(t, i, RenderKey(fields.key))
              && Lies(t, h, fields.before) && Lies(t, j, Render(fields.value)) && Lies(t, k, fields.after)
              && Lies(t, k + |fields.after|,
                      if fields.LastField? then [CLOSE_OBJECT] else [COMMA] + RenderFields(fields.rest))
    ensures |RenderFields(fields)|
        == |RenderKey(fields.key)| + |fields.before| + |Render(fields.value)| + |fields.after| + 1
                                      + (if fields.LastField? then 0 else |RenderFields(fields.rest)|)
  {
    hide Lies, Render, RenderKey;
    var tail := if fields.LastField? then [CLOSE_OBJECT] else [COMMA] + RenderFields(fields.rest);
    var h := i + |RenderKey(fields.key)|;
    var j := h + |fields.before|;
    var k := j + |Render(fields.value)|;
    Join(t, k, fields.after, tail);
    Join(t, j, Render(fields.value), fields.after + tail);
    Join(t, h, fields.before, Render(fields.value) + (fields.after + tail));
    Join(t, i, RenderKey(fields.key), fields.before + (Render(fields.value) + (fields.after + tail)));
  }

  lemma KeySound(t: Text, i: nat, keys: set<Text>)
    requires i <= |t| && ReadKey(t, i, keys).Ok?
    ensures var (key, j) := ReadKey(t, i, keys).value;
            KeyOk(key) && Lies(t, i, RenderKey(key)) && j == i + |RenderKey(key)| && Decode(key.name) !in keys
  {
    hide Lies, ReadString, SkipSpace, RenderString, PiecesOk, Blank;
    var (key, j) := ReadKey(t, i, keys).value;
    var k := SkipSpace(t, i);
    StringSound(t, k);
    var e := ReadString(t, k).value.1;
    SliceLies(t, i, k);
    SliceLies(t, e, j - 1);
    UnitLies(t, j - 1, COLON);
    KeyLies(t, i, key);
  }

  lemma {:induction false} FieldsSound(t: Text, i: nat, depth: int, nodes: int, keys: set<Text>)
    requires i <= |t| && ReadFields(t, i, depth, nodes, keys).Ok?
    ensures FieldsRead(t, i, depth, nodes, keys, ReadFields(t, i, depth, nodes, keys).value)
    decreases |t| - i, 1
  {
    hide Lies, ReadValue, ReadKey, SkipSpace, RenderKey, KeyOk, Blank, TreeOk, Render, Distinct, Depth, Count, Decode;
    var got := ReadFields(t, i, depth, nodes, keys).value;
    KeySound(t, i, keys);
    var (key, j) := ReadKey(t, i, keys).value;
    ValueSound(t, j, depth + 1, nodes);
    var first := ReadValue(t, j, depth + 1, nodes).value;
    var k := SkipSpace(t, first.index);
    SliceLies(t, first.index, k);
    UnitLies(t, k, t[k]);
    if got.value.MoreFields? {
      FieldsSound(t, k + 1, depth, first.nodes, keys + {Decode(key.name)});
      Join(t, k, [COMMA], RenderFields(got.value.rest));
    }
    FieldsLie(t, i, got.value);
  }

  /* ---------- all JSON within the limits is accepted ---------- */

  /** Nothing at an index would lengthen a number that ends there. */
  predicate Stops(t: Text, j: nat) {
    j < |t| ==> !IsDigit(t[j]) && t[j] != POINT && !IsMark(t[j])
  }

  lemma {:induction false} SpaceSkipped(t: Text, i: nat, s: Text)
    requires i <= |t| && Lies(t, i, s) && Blank(s)
    requires i + |s| < |t| ==> !IsSpace(t[i + |s|])
    ensures SkipSpace(t, i) == i + |s|
    decreases |s|
  {
    if s != [] {
      assert t[i] == s[0];
      Join(t, i, [s[0]], s[1..]);
      assert [s[0]] + s[1..] == s;
      SpaceSkipped(t, i + 1, s[1..]);
    }
  }

  lemma {:induction false} DigitsSkipped(t: Text, i: nat, s: Text)
    requires i <= |t| && Lies(t, i, s) && AllDigits(s)
    requires i + |s| < |t| ==> !IsDigit(t[i + |s|])
    ensures SkipDigits(t, i) == i + |s|
    decreases |s|
  {
    if s != [] {
      assert t[i] == s[0];
      Join(t, i, [s[0]], s[1..]);
      assert [s[0]] + s[1..] == s;
      DigitsSkipped(t, i + 1, s[1..]);
    }
  }

  lemma UnitAt(t: Text, i: nat, u: CodeUnit, s: Text)
    requires Lies(t, i, [u] + s)
    ensures i < |t| && t[i] == u && Lies(t, i + 1, s)
  {
    Join(t, i, [u], s);
  }

  lemma LiesIs(t: Text, i: nat, s: Text)
    requires Lies(t, i, s)
    ensures i + |s| <= |t| && t[i..i + |s|] == s
  {
  }

  lemma Within(t: Text, i: nat, s: Text)
    requires Lies(t, i, s)
    ensures i + |s| <= |t|
  {
  }

  lemma PieceComplete(t: Text, i: nat, p: Piece)
    requires PieceOk(p) && Lies(t, i, RenderPiece(p))
    ensures i < |t| && t[i] != QUOTE && ReadPiece(t, i) == Some((p, i + |RenderPiece(p)|))
  {
    var s := RenderPiece(p);
    assert t[i..i + |s|][0] == t[i];
    match p
    case Plain(_) =>
    case Escape(_) => assert t[i..i + 2][1] == t[i + 1];
    case Unicode(digits) =>
      UnitAt(t, i, BACKSLASH, [LOWER_U] + digits);
      UnitAt(t, i + 1, LOWER_U, digits);
      assert t[i + 2..i + 6] == digits;
      assert forall k :: i + 2 <= k < i + 6 ==> t[k] == digits[k - i - 2];
  }

  lemma {:induction false} PiecesComplete(t: Text, i: nat, ps: seq<Piece>)
    requires i <= |t| && PiecesOk(ps) && Lies(t, i, RenderPieces(ps) + [QUOTE])
    ensures ReadPieces(t, i) == Some((ps, i + |RenderPieces(ps)| + 1))
    decreases |ps|
  {
    hide Lies, ReadPiece, PieceOk, RenderPiece;
    if ps == [] {
      assert [] + [QUOTE] == [QUOTE];
      UnitLies(t, i, QUOTE);
    } else {
      assert RenderPieces(ps) + [QUOTE] == RenderPiece(ps[0]) + (RenderPieces(ps[1..]) + [QUOTE]);
      Join(t, i, RenderPiece(ps[0]), RenderPieces(ps[1..]) + [QUOTE]);
      PieceComplete(t, i, ps[0]);
      LiesIs(t, i, RenderPiece(ps[0]));
      PiecesComplete(t, i + |RenderPiece(ps[0])|, ps[1..]);
      assert [ps[0]] + ps[1..] == ps;
    }
  }

  lemma StringComplete(t: Text, i: nat, ps: seq<Piece>)
    requires PiecesOk(ps) && Lies(t, i, RenderString(ps))
    ensures i < |t| && t[i] == QUOTE && ReadString(t, i) == Some((ps, i + |RenderString(ps)|))
  {
    hide Lies, ReadPieces, RenderPieces, PiecesOk;
    assert RenderString(ps) == [QUOTE] + (RenderPieces(ps) + [QUOTE]);
    UnitAt(t, i, QUOTE, RenderPieces(ps) + [QUOTE]);
    PiecesComplete(t, i + 1, ps);
  }

  /** What may come after a fraction, or after a whole part without one. */
  lemma FractionComplete(t: Text, i: nat, f: Option<Text>, j: nat)
    requires i <= |t| && j == i + |RenderFraction(f)| && Lies(t, i, RenderFraction(f))
    requires f.Some? ==> f.value != [] && AllDigits(f.value)
    requires j < |t| ==> !IsDigit(t[j]) && t[j] != POINT
    ensures ReadFraction(t, i) == (f, j)
  {
    hide Lies, SkipDigits;
    if f.Some? {
      UnitAt(t, i, POINT, f.value);
      LiesIs(t, i + 1, f.value);
      assert t[i + 1] == t[i + 1..i + 1 + |f.value|][0];
      DigitsSkipped(t, i + 1, f.value);
    }
  }

  /** The mark, the sign if there is one, and the digits. */
  lemma ExponentParts(t: Text, i: nat, e: Exponent)
    requires Lies(t, i, RenderExponent(Some(e)))
    ensures var n := if e.sign.Some? then 1 else 0;
            && |RenderExponent(Some(e))| == 1 + n + |e.digits|
            && i < |t| && t[i] == e.mark
            && (e.sign.Some? ==> i + 1 < |t| && t[i + 1] == e.sign.value)
            && Lies(t, i + 1 + n, e.digits)
  {
    hide Lies;
    var sign := if e.sign.Some? then [e.sign.value] else [];
    Join(t, i, [e.mark] + sign, e.digits);
    Join(t, i, [e.mark], sign);
    UnitLies(t, i, e.mark);
    if sign != [] { UnitLies(t, i + 1, sign[0]); }
  }

  lemma ExponentComplete(t: Text, i: nat, e: Option<Exponent>, j: nat)
    requires i <= |t| && j == i + |RenderExponent(e)| && Lies(t, i, RenderExponent(e)) && Stops(t, j)
    requires e.Some? ==> IsMark(e.value.mark) && (e.value.sign.Some? ==> IsSign(e.value.sign.value))
                         && e.value.digits != [] && AllDigits(e.value.digits)
    ensures ReadExponent(t, i) == (e, j)
  {
    hide Lies, SkipDigits;
    if e.Some? {
      hide RenderExponent;
      ExponentParts(t, i, e.value);
      var k := if e.value.sign.Some? then i + 2 else i + 1;
      LiesIs(t, k, e.value.digits);
      assert t[k] == t[k..k + |e.value.digits|][0];
      DigitsSkipped(t, k, e.value.digits);
    }
  }

  lemma NumberComplete(t: Text, i: nat, n: Numeral)
    requires NumeralOk(n) && Lies(t, i, RenderNumeral(n)) && Stops(t, i + |RenderNumeral(n)|)
    ensures i < |t| && (t[i] == MINUS || IsDigit(t[i]))
    ensures ReadNumber(t, i) == Some((n, i + |RenderNumeral(n)|))
  {
    hide Lies, SkipDigits, ReadFraction, ReadExponent, RenderFraction, RenderExponent;
    var minus := if n.minus then [MINUS] else [];
    var tail := RenderFraction(n.fraction) + RenderExponent(n.exponent);
    var k := i + |minus|;
    var wholeEnd := k + |n.whole|;
    var fractionEnd := wholeEnd + |RenderFraction(n.fraction)|;
    var end := i + |RenderNumeral(n)|;
    Join(t, i, minus, n.whole + tail);
    Join(t, k, n.whole, tail);
    Join(t, wholeEnd, RenderFraction(n.fraction), RenderExponent(n.exponent));
    LiesIs(t, k, n.whole);
    LiesIs(t, wholeEnd, RenderFraction(n.fraction));
    LiesIs(t, fractionEnd, RenderExponent(n.exponent));
    assert t[k] == t[k..wholeEnd][0];
    if n.minus { UnitLies(t, i, MINUS); }
    AfterFraction(t, fractionEnd, n.exponent);
    AfterWhole(t, wholeEnd, n.fraction, n.exponent);
    if n.whole[0] != ZERO { DigitsSkipped(t, k, n.whole); }
    FractionComplete(t, wholeEnd, n.fraction, fractionEnd);
    ExponentComplete(t, fractionEnd, n.exponent, end);
  }

  lemma AfterFraction(t: Text, i: nat, e: Option<Exponent>)
    requires i <= |t| && Lies(t, i, RenderExponent(e)) && Stops(t, i + |RenderExponent(e)|)
    requires e.Some? ==> IsMark(e.value.mark)
    ensures i < |t| ==> !IsDigit(t[i]) && t[i] != POINT
  {
    if e.Some? { assert t[i] == t[i..i + |RenderExponent(e)|][0]; }
  }

  lemma AfterWhole(t: Text, i: nat, f: Option<Text>, e: Option<Exponent>)
    requires i <= |t| && Lies(t, i, RenderFraction(f))
    requires i + |RenderFraction(f)| < |t|
        ==> !IsDigit(t[i + |RenderFraction(f)|]) && t[i + |RenderFraction(f)|] != POINT
    ensures i < |t| ==> !IsDigit(t[i])
  {
    if f.Some? { assert t[i] == t[i..i + |RenderFraction(f)|][0]; }
  }

  /** What kind of value begins at an index is decided by one character. */
  predicate Begins(t: Tree, u: CodeUnit) {
    match t
    case Word(w) => w != [] && u == w[0]
    case Number(_) => u == MINUS || IsDigit(u)
    case String(_) => u == QUOTE
    case EmptyArray(_) => u == OPEN_ARRAY
    case Array(_) => u == OPEN_ARRAY
    case EmptyObject(_) => u == OPEN_OBJECT
    case Object(_) => u == OPEN_OBJECT
  }

  lemma FirstUnit(t: Text, i: nat, tree: Tree)
    requires TreeOk(tree) && Lies(t, i, Render(tree))
    ensures i < |t| && Begins(tree, t[i]) && !IsSpace(t[i]) && t[i] != CLOSE_ARRAY && t[i] != CLOSE_OBJECT
  {
    hide ItemsOk, FieldsOk, RenderItems, RenderFields, PiecesOk, RenderPieces;
    if tree.Number? { FirstOfNumber(tree.n); }
    assert Render(tree) != [] && t[i] == t[i..i + |Render(tree)|][0];
  }

  lemma FirstOfNumber(n: Numeral)
    requires NumeralOk(n)
    ensures RenderNumeral(n) != [] && (RenderNumeral(n)[0] == MINUS || IsDigit(RenderNumeral(n)[0]))
  {
  }

  /** After a value comes whitespace, a comma or a closing bracket. */
  lemma StopsAt(t: Text, k: nat, after: Text, tail: Text)
    requires Lies(t, k, after) && Lies(t, k + |after|, tail) && Blank(after)
    requires tail != [] && (tail[0] == COMMA || tail[0] == CLOSE_ARRAY || tail[0] == CLOSE_OBJECT)
    ensures Stops(t, k) && k + |after| < |t| && t[k + |after|] == tail[0]
    ensures SkipSpace(t, k) == k + |after| && t[k..k + |after|] == after
  {
    assert t[k + |after|] == t[k + |after|..k + |after| + |tail|][0];
    if after != [] { assert t[k] == t[k..k + |after|][0]; }
    SpaceSkipped(t, k, after);
  }

  /** This tree, after this whitespace, is what reading the value yields. */
  ghost predicate ReadsAs(t: Text, i: nat, depth: int, nodes: int, before: Text, tree: Tree) {
    && i <= |t|
    && ReadValue(t, i, depth, nodes) == Ok(Got((before, tree), i + |before| + |Render(tree)|, nodes + Count(tree)))
  }

  /** A rendered tree within what is left of the limits. */
  ghost predicate Fitting(t: Text, i: nat, depth: int, nodes: int, before: Text, tree: Tree) {
    && Blank(before) && TreeOk(tree)
    && Lies(t, i, before) && Lies(t, i + |before|, Render(tree)) && Stops(t, i + |before| + |Render(tree)|)
    && nodes + Count(tree) <= MAX_NODES && depth + Depth(tree) <= MAX_DEPTH
  }

  /** One in which no object repeats a name. */
  ghost predicate Lying(t: Text, i: nat, depth: int, nodes: int, before: Text, tree: Tree) {
    Fitting(t, i, depth, nodes, before, tree) && Distinct(tree)
  }

  lemma {:induction false} ValueComplete(t: Text, i: nat, depth: int, nodes: int, before: Text, tree: Tree)
    requires Blank(before) && TreeOk(tree) && Distinct(tree)
    requires Lies(t, i, before) && Lies(t, i + |before|, Render(tree)) && Stops(t, i + |before| + |Render(tree)|)
    requires nodes + Count(tree) <= MAX_NODES && depth + Depth(tree) <= MAX_DEPTH
    ensures i <= |t|
    ensures ReadValue(t, i, depth, nodes)
         == Ok(Got((before, tree), i + |before| + |Render(tree)|, nodes + Count(tree)))
    decreases tree, 1
  {
    hide Lies, ReadValue, Render, TreeOk, Distinct, Stops, Blank, Count, Depth;
    if tree.Object? || tree.EmptyObject? {
      ObjectComplete(t, i, depth, nodes, before, tree);
    } else if tree.Array? || tree.EmptyArray? {
      ArrayComplete(t, i, depth, nodes, before, tree);
    } else {
      AtomComplete(t, i, depth, nodes, before, tree);
    }
  }

  /** Where the value begins. */
  lemma ValueBegins(t: Text, i: nat, depth: int, nodes: int, before: Text, tree: Tree)
    requires Fitting(t, i, depth, nodes, before, tree)
    ensures var k := i + |before|;
            k < |t| && Begins(tree, t[k]) && SkipSpace(t, i) == k && t[i..k] == before
    ensures nodes + 1 <= MAX_NODES && depth <= MAX_DEPTH
  {
    hide Lies, SkipSpace, RenderString, RenderNumeral, RenderItems, RenderFields, Stops, FieldsOk, ItemsOk;
    FirstUnit(t, i + |before|, tree);
    SpaceSkipped(t, i, before);
    LiesIs(t, i, before);
  }

  lemma {:induction false} ObjectComplete(t: Text, i: nat, depth: int, nodes: int, before: Text, tree: Tree)
    requires Lying(t, i, depth, nodes, before, tree) && (tree.Object? || tree.EmptyObject?)
    ensures ReadsAs(t, i, depth, nodes, before, tree)
    decreases tree, 0
  {
    hide Lies, ReadFields, ReadItems, ReadString, ReadNumber, SkipSpace, FieldsOk, RenderFields, StartsWith, Stops;
    hide Blank;
    hide IsDigit, DistinctFields, DepthFields, CountFields;
    var k := i + |before|;
    ValueBegins(t, i, depth, nodes, before, tree);
    if tree.Object? {
      UnitAt(t, k, OPEN_OBJECT, RenderFields(tree.fields));
      NotClosedFields(t, k + 1, tree.fields);
      FieldsComplete(t, k + 1, depth, nodes + 1, {}, tree.fields);
    } else {
      EmptyLies(t, k, OPEN_OBJECT, tree.gap, CLOSE_OBJECT);
      GapSkipped(t, k + 1, tree.gap, CLOSE_OBJECT);
    }
  }

  lemma {:induction false} ArrayComplete(t: Text, i: nat, depth: int, nodes: int, before: Text, tree: Tree)
    requires Lying(t, i, depth, nodes, before, tree) && (tree.Array? || tree.EmptyArray?)
    ensures ReadsAs(t, i, depth, nodes, before, tree)
    decreases tree, 0
  {
    hide Lies, ReadFields, ReadItems, ReadString, ReadNumber, SkipSpace, ItemsOk, RenderItems, StartsWith, Stops, Blank;
    hide IsDigit, DistinctItems, DepthItems, CountItems;
    var k := i + |before|;
    ValueBegins(t, i, depth, nodes, before, tree);
    if tree.Array? {
      UnitAt(t, k, OPEN_ARRAY, RenderItems(tree.items));
      NotClosedItems(t, k + 1, tree.items);
      ItemsComplete(t, k + 1, depth, nodes + 1, tree.items);
    } else {
      EmptyLies(t, k, OPEN_ARRAY, tree.gap, CLOSE_ARRAY);
      GapSkipped(t, k + 1, tree.gap, CLOSE_ARRAY);
    }
  }

  lemma AtomComplete(t: Text, i: nat, depth: int, nodes: int, before: Text, tree: Tree)
    requires Lying(t, i, depth, nodes, before, tree) && (tree.String? || tree.Word? || tree.Number?)
    ensures ReadsAs(t, i, depth, nodes, before, tree)
  {
    hide Lies, ReadFields, ReadItems, ReadString, ReadNumber, SkipSpace, RenderNumeral, NumeralOk, RenderString;
    hide PiecesOk;
    hide StartsWith, Stops, Blank, IsDigit;
    var k := i + |before|;
    ValueBegins(t, i, depth, nodes, before, tree);
    match tree
    case String(ps) => StringComplete(t, k, ps);
    case Word(w) => WordComplete(t, k, w);
    case Number(n) =>
      NumberComplete(t, k, n);
      NotWord(t, k);
  }

  lemma StartsOnly(t: Text, k: nat, w: Text)
    requires w != []
    ensures StartsWith(t, w, k) ==> k < |t| && t[k] == w[0]
  {
    if StartsWith(t, w, k) { assert t[k..k + |w|][0] == t[k]; }
  }

  lemma WordComplete(t: Text, k: nat, w: Text)
    requires Lies(t, k, w) && (w == TRUE || w == FALSE || w == NULL)
    ensures StartsWith(t, w, k)
    ensures w != TRUE ==> !StartsWith(t, TRUE, k)
    ensures w == NULL ==> !StartsWith(t, FALSE, k)
  {
    StartsOnly(t, k, w);
    StartsOnly(t, k, TRUE);
    StartsOnly(t, k, FALSE);
  }

  lemma NotWord(t: Text, k: nat)
    requires k < |t| && (t[k] == MINUS || IsDigit(t[k]))
    ensures !StartsWith(t, TRUE, k) && !StartsWith(t, FALSE, k) && !StartsWith(t, NULL, k)
    ensures t[k] != OPEN_OBJECT && t[k] != OPEN_ARRAY && t[k] != QUOTE
  {
    StartsOnly(t, k, TRUE);
    StartsOnly(t, k, FALSE);
    StartsOnly(t, k, NULL);
  }

  lemma GapSkipped(t: Text, k: nat, gap: Text, close: CodeUnit)
    requires Blank(gap) && Lies(t, k, gap) && Lies(t, k + |gap|, [close]) && !IsSpace(close)
    ensures k + |gap| < |t| && t[k + |gap|] == close && SkipSpace(t, k) == k + |gap| && t[k..k + |gap|] == gap
  {
    UnitLies(t, k + |gap|, close);
    SpaceSkipped(t, k, gap);
  }

  lemma NotClosedItems(t: Text, k: nat, items: Items)
    requires ItemsOk(items) && Lies(t, k, RenderItems(items))
    ensures k <= |t| && var gap := SkipSpace(t, k); gap < |t| && t[gap] != CLOSE_ARRAY
  {
    hide Lies, TreeOk, Render;
    ItemsLie(t, k, items);
    LiesIs(t, k, items.before);
    FirstUnit(t, k + |items.before|, items.value);
    SpaceSkipped(t, k, items.before);
  }

  lemma NotClosedFields(t: Text, k: nat, fields: Fields)
    requires FieldsOk(fields) && Lies(t, k, RenderFields(fields))
    ensures k <= |t| && var gap := SkipSpace(t, k); gap < |t| && t[gap] != CLOSE_OBJECT
  {
    hide Lies, TreeOk, Render, PiecesOk, RenderString, ReadString;
    FieldsLie(t, k, fields);
    KeyLies(t, k, fields.key);
    LiesIs(t, k, fields.key.before);
    StringComplete(t, k + |fields.key.before|, fields.key.name);
    SpaceSkipped(t, k, fields.key.before);
  }

  /** One round of the element loop. */
  lemma ItemsStep(t: Text, i: nat, depth: int, nodes: int, before: Text, value: Tree, k: nat, n: int, after: Text)
    requires i < |t| && k + |after| < |t|
    requires ReadValue(t, i, depth + 1, nodes) == Ok(Got((before, value), k, n))
    requires SkipSpace(t, k) == k + |after| && t[k..k + |after|] == after
    ensures var j := k + |after|;
            && (t[j] == CLOSE_ARRAY
                ==> ReadItems(t, i, depth, nodes) == Ok(Got(LastItem(before, value, after), j + 1, n)))
            && (t[j] == COMMA && ReadItems(t, j + 1, depth, n).Ok? ==>
                  var more := ReadItems(t, j + 1, depth, n).value;
                  ReadItems(t, i, depth, nodes)
                      == Ok(Got(MoreItems(before, value, after, more.value), more.index, more.nodes)))
  {
    hide ReadValue, SkipSpace;
  }

  lemma {:induction false} ItemsComplete(t: Text, i: nat, depth: int, nodes: int, items: Items)
    requires ItemsOk(items) && DistinctItems(items) && Lies(t, i, RenderItems(items))
    requires nodes + CountItems(items) <= MAX_NODES && depth + 1 + DepthItems(items) <= MAX_DEPTH
    ensures i <= |t|
    ensures ReadItems(t, i, depth, nodes) == Ok(Got(items, i + |RenderItems(items)|, nodes + CountItems(items)))
    decreases items
  {
    hide Lies, ReadValue, ReadItems, RenderItems, Stops, SkipSpace, Blank, TreeOk, Render, Distinct, Depth, Count;
    ItemsLie(t, i, items);
    var tail := if items.LastItem? then [CLOSE_ARRAY] else [COMMA] + RenderItems(items.rest);
    var j := i + |items.before|;
    var k := j + |Render(items.value)|;
    StopsAt(t, k, items.after, tail);
    Within(t, i, items.before);
    Within(t, j, Render(items.value));
    FirstUnit(t, j, items.value);
    ValueComplete(t, i, depth + 1, nodes, items.before, items.value);
    ItemsStep(t, i, depth, nodes, items.before, items.value, k, nodes + Count(items.value), items.after);
    if items.MoreItems? {
      UnitAt(t, k + |items.after|, COMMA, RenderItems(items.rest));
      ItemsComplete(t, k + |items.after| + 1, depth, nodes + Count(items.value), items.rest);
    }
  }

  lemma KeyComplete(t: Text, i: nat, keys: set<Text>, key: Key)
    requires KeyOk(key) && Lies(t, i, RenderKey(key)) && Decode(key.name) !in keys
    ensures i <= |t| && ReadKey(t, i, keys) == Ok((key, i + |RenderKey(key)|))
  {
    hide Lies, ReadString, SkipSpace, RenderString, PiecesOk, Blank;
    KeyLies(t, i, key);
    var j := i + |key.before|;
    var k := j + |RenderString(key.name)|;
    LiesIs(t, i, key.before);
    StringComplete(t, j, key.name);
    SpaceSkipped(t, i, key.before);
    GapSkipped(t, k, key.after, COLON);
  }

  lemma FieldsStep(t: Text, i: nat, depth: int, nodes: int, keys: set<Text>, key: Key, h: nat, before: Text,
                   value: Tree, k: nat, n: int, after: Text)
    requires i < |t| && h <= |t| && k + |after| < |t|
    requires ReadKey(t, i, keys) == Ok((key, h))
    requires ReadValue(t, h, depth + 1, nodes) == Ok(Got((before, value), k, n))
    requires SkipSpace(t, k) == k + |after| && t[k..k + |after|] == after
    ensures var j := k + |after|; var taken := keys + {Decode(key.name)};
            && (t[j] == CLOSE_OBJECT ==>
                  ReadFields(t, i, depth, nodes, keys) == Ok(Got(LastField(key, before, value, after), j + 1, n)))
            && (t[j] == COMMA && ReadFields(t, j + 1, depth, n, taken).Ok? ==>
                  var more := ReadFields(t, j + 1, depth, n, taken).value;
                  ReadFields(t, i, depth, nodes, keys)
                  == Ok(Got(MoreFields(key, before, value, after, more.value), more.index, more.nodes)))
  {
    hide ReadValue, ReadKey, SkipSpace, Decode;
  }

  lemma {:induction false} FieldsComplete(t: Text, i: nat, depth: int, nodes: int, keys: set<Text>, fields: Fields)
    requires FieldsOk(fields) && DistinctFields(fields) && Names(fields) !! keys && Lies(t, i, RenderFields(fields))
    requires nodes + CountFields(fields) <= MAX_NODES && depth + 1 + DepthFields(fields) <= MAX_DEPTH
    ensures i <= |t|
    ensures ReadFields(t, i, depth, nodes, keys)
         == Ok(Got(fields, i + |RenderFields(fields)|, nodes + CountFields(fields)))
    decreases fields
  {
    hide Lies, ReadValue, ReadFields, RenderFields, Stops, ReadKey, SkipSpace, RenderKey, KeyOk, Blank;
    hide TreeOk, Render, Distinct, Depth, Count, Decode;
    FieldsLie(t, i, fields);
    var tail := if fields.LastField? then [CLOSE_OBJECT] else [COMMA] + RenderFields(fields.rest);
    var name := Decode(fields.key.name);
    var h := i + |RenderKey(fields.key)|;
    var j := h + |fields.before|;
    var k := j + |Render(fields.value)|;
    assert name in Names(fields);
    KeyComplete(t, i, keys, fields.key);
    StopsAt(t, k, fields.after, tail);
    FirstUnit(t, j, fields.value);
    KeyNotEmpty(t, i, keys);
    ValueComplete(t, h, depth + 1, nodes, fields.before, fields.value);
    FieldsStep(t, i, depth, nodes, keys, fields.key, h, fields.before, fields.value, k, nodes + Count(fields.value),
               fields.after);
    if fields.MoreFields? {
      UnitAt(t, k + |fields.after|, COMMA, RenderFields(fields.rest));
      FieldsComplete(t, k + |fields.after| + 1, depth, nodes + Count(fields.value), keys + {name}, fields.rest);
    }
  }

  lemma KeyNotEmpty(t: Text, i: nat, keys: set<Text>)
    requires i <= |t| && ReadKey(t, i, keys).Ok?
    ensures i < |t|
  {
  }

  /* ---------- a repeated name is always found ---------- */

  lemma KeyTaken(t: Text, i: nat, keys: set<Text>, key: Key)
    requires KeyOk(key) && Lies(t, i, RenderKey(key)) && Decode(key.name) in keys
    ensures i < |t| && ReadKey(t, i, keys) == Err(DuplicateKey)
  {
    hide Lies, ReadString, SkipSpace, RenderString, PiecesOk, Blank;
    KeyLies(t, i, key);
    StringComplete(t, i + |key.before|, key.name);
    SpaceSkipped(t, i, key.before);
  }

  lemma FieldsStop(t: Text, i: nat, depth: int, nodes: int, keys: set<Text>, key: Key, h: nat, why: Failure)
    requires i < |t| && h <= |t|
    requires ReadKey(t, i, keys) == Ok((key, h)) && ReadValue(t, h, depth + 1, nodes) == Err(why)
    ensures ReadFields(t, i, depth, nodes, keys) == Err(why)
  {
    hide ReadValue, ReadKey;
  }

  lemma FieldsStopLater(t: Text, i: nat, depth: int, nodes: int, keys: set<Text>, key: Key, h: nat, before: Text,
                        value: Tree, k: nat, n: int, after: Text, why: Failure)
    requires i < |t| && h <= |t| && k + |after| < |t|
    requires ReadKey(t, i, keys) == Ok((key, h))
    requires ReadValue(t, h, depth + 1, nodes) == Ok(Got((before, value), k, n))
    requires SkipSpace(t, k) == k + |after| && t[k + |after|] == COMMA
    requires ReadFields(t, k + |after| + 1, depth, n, keys + {Decode(key.name)}) == Err(why)
    ensures ReadFields(t, i, depth, nodes, keys) == Err(why)
  {
    hide ReadValue, ReadKey, SkipSpace, Decode;
  }

  lemma {:induction false} FieldsRefused(t: Text, i: nat, depth: int, nodes: int, keys: set<Text>, fields: Fields)
    requires FieldsOk(fields) && Lies(t, i, RenderFields(fields))
    requires !DistinctFields(fields) || !(Names(fields) !! keys)
    requires nodes + CountFields(fields) <= MAX_NODES && depth + 1 + DepthFields(fields) <= MAX_DEPTH
    ensures i <= |t| && ReadFields(t, i, depth, nodes, keys) == Err(DuplicateKey)
    decreases fields
  {
    hide Lies, ReadValue, ReadFields, RenderFields, Stops, ReadKey, SkipSpace, RenderKey, KeyOk, Blank;
    hide TreeOk, Render, Distinct, Depth, Count, Decode;
    FieldsLie(t, i, fields);
    var name := Decode(fields.key.name);
    if name in keys {
      KeyTaken(t, i, keys, fields.key);
      FieldsTaken(t, i, depth, nodes, keys);
    } else {
      var tail := if fields.LastField? then [CLOSE_OBJECT] else [COMMA] + RenderFields(fields.rest);
      var h := i + |RenderKey(fields.key)|;
      var k := h + |fields.before| + |Render(fields.value)|;
      KeyComplete(t, i, keys, fields.key);
      StopsAt(t, k, fields.after, tail);
      FirstUnit(t, h + |fields.before|, fields.value);
      KeyNotEmpty(t, i, keys);
      if !Distinct(fields.value) {
        ValueRefused(t, h, depth + 1, nodes, fields.before, fields.value);
        FieldsStop(t, i, depth, nodes, keys, fields.key, h, DuplicateKey);
      } else {
        ValueComplete(t, h, depth + 1, nodes, fields.before, fields.value);
        UnitAt(t, k + |fields.after|, COMMA, RenderFields(fields.rest));
        FieldsRefused(t, k + |fields.after| + 1, depth, nodes + Count(fields.value), keys + {name}, fields.rest);
        FieldsStopLater(t, i, depth, nodes, keys, fields.key, h, fields.before, fields.value, k,
                        nodes + Count(fields.value), fields.after, DuplicateKey);
      }
    }
  }

  lemma FieldsTaken(t: Text, i: nat, depth: int, nodes: int, keys: set<Text>)
    requires i < |t| && ReadKey(t, i, keys) == Err(DuplicateKey)
    ensures ReadFields(t, i, depth, nodes, keys) == Err(DuplicateKey)
  {
    hide ReadKey, ReadValue;
  }

  lemma ItemsStop(t: Text, i: nat, depth: int, nodes: int, why: Failure)
    requires i < |t| && ReadValue(t, i, depth + 1, nodes) == Err(why)
    ensures ReadItems(t, i, depth, nodes) == Err(why)
  {
    hide ReadValue;
  }

  lemma ItemsStopLater(t: Text, i: nat, depth: int, nodes: int, before: Text, value: Tree, k: nat, n: int,
                       after: Text, why: Failure)
    requires i < |t| && k + |after| < |t|
    requires ReadValue(t, i, depth + 1, nodes) == Ok(Got((before, value), k, n))
    requires SkipSpace(t, k) == k + |after| && t[k + |after|] == COMMA
    requires ReadItems(t, k + |after| + 1, depth, n) == Err(why)
    ensures ReadItems(t, i, depth, nodes) == Err(why)
  {
    hide ReadValue, SkipSpace;
  }

  lemma {:induction false} ItemsRefused(t: Text, i: nat, depth: int, nodes: int, items: Items)
    requires ItemsOk(items) && !DistinctItems(items) && Lies(t, i, RenderItems(items))
    requires nodes + CountItems(items) <= MAX_NODES && depth + 1 + DepthItems(items) <= MAX_DEPTH
    ensures i <= |t| && ReadItems(t, i, depth, nodes) == Err(DuplicateKey)
    decreases items
  {
    hide Lies, ReadValue, ReadItems, RenderItems, Stops, SkipSpace, Blank, TreeOk, Render, Distinct, Depth, Count;
    ItemsLie(t, i, items);
    var tail := if items.LastItem? then [CLOSE_ARRAY] else [COMMA] + RenderItems(items.rest);
    var k := i + |items.before| + |Render(items.value)|;
    StopsAt(t, k, items.after, tail);
    Within(t, i, items.before);
    FirstUnit(t, i + |items.before|, items.value);
    if !Distinct(items.value) {
      ValueRefused(t, i, depth + 1, nodes, items.before, items.value);
      ItemsStop(t, i, depth, nodes, DuplicateKey);
    } else {
      ValueComplete(t, i, depth + 1, nodes, items.before, items.value);
      UnitAt(t, k + |items.after|, COMMA, RenderItems(items.rest));
      ItemsRefused(t, k + |items.after| + 1, depth, nodes + Count(items.value), items.rest);
      ItemsStopLater(t, i, depth, nodes, items.before, items.value, k, nodes + Count(items.value), items.after,
                     DuplicateKey);
    }
  }

  /** A value in which some object repeats a name is refused for that, if it is within the limits. */
  lemma {:induction false} ValueRefused(t: Text, i: nat, depth: int, nodes: int, before: Text, tree: Tree)
    requires Fitting(t, i, depth, nodes, before, tree) && !Distinct(tree)
    ensures i <= |t| && ReadValue(t, i, depth, nodes) == Err(DuplicateKey)
    decreases tree, 1
  {
    hide Fitting, ReadValue, DistinctFields, DistinctItems;
    if tree.Object? {
      ObjectRefused(t, i, depth, nodes, before, tree);
    } else {
      ArrayRefused(t, i, depth, nodes, before, tree);
    }
  }

  lemma {:induction false} ObjectRefused(t: Text, i: nat, depth: int, nodes: int, before: Text, tree: Tree)
    requires Fitting(t, i, depth, nodes, before, tree) && tree.Object? && !Distinct(tree)
    ensures i <= |t| && ReadValue(t, i, depth, nodes) == Err(DuplicateKey)
    decreases tree, 0
  {
    hide Lies, ReadFields, ReadItems, ReadString, ReadNumber, SkipSpace, FieldsOk, RenderFields, StartsWith, Stops;
    hide Blank, IsDigit, DistinctFields, DepthFields, CountFields;
    var k := i + |before|;
    ValueBegins(t, i, depth, nodes, before, tree);
    UnitAt(t, k, OPEN_OBJECT, RenderFields(tree.fields));
    NotClosedFields(t, k + 1, tree.fields);
    FieldsRefused(t, k + 1, depth, nodes + 1, {}, tree.fields);
  }

  lemma {:induction false} ArrayRefused(t: Text, i: nat, depth: int, nodes: int, before: Text, tree: Tree)
    requires Fitting(t, i, depth, nodes, before, tree) && tree.Array? && !Distinct(tree)
    ensures i <= |t| && ReadValue(t, i, depth, nodes) == Err(DuplicateKey)
    decreases tree, 0
  {
    hide Lies, ReadFields, ReadItems, ReadString, ReadNumber, SkipSpace, ItemsOk, RenderItems, StartsWith, Stops, Blank;
    hide IsDigit, DistinctItems, DepthItems, CountItems;
    var k := i + |before|;
    ValueBegins(t, i, depth, nodes, before, tree);
    UnitAt(t, k, OPEN_ARRAY, RenderItems(tree.items));
    NotClosedItems(t, k + 1, tree.items);
    ItemsRefused(t, k + 1, depth, nodes + 1, tree.items);
  }

  /* ---------- exactness ---------- */

  /** A document: whitespace, a value, whitespace. */
  predicate IsDocument(t: Text, before: Text, tree: Tree, after: Text) {
    && Blank(before) && TreeOk(tree) && Blank(after)
    && t == before + (Render(tree) + after)
  }

  /** The limits, and no duplicate names. */
  predicate WithinLimits(tree: Tree) {
    Distinct(tree) && Depth(tree) <= MAX_DEPTH && Count(tree) <= MAX_NODES
  }

  lemma WholeLies(t: Text)
    ensures Lies(t, 0, t)
  {
  }

  /** Whatever the scanner accepts is a JSON text within the limits, and it has read it whole. */
  lemma AcceptedIsJson(t: Text)
    ensures match ReadDocument(t)
            case Ok((before, tree, after)) => IsDocument(t, before, tree, after) && WithinLimits(tree)
            case Err(_) => true
  {
    hide ReadValue, TreeOk, Render, Distinct, Depth, Count, SkipSpace;
    var r := ReadValue(t, 0, 0, 0);
    if r.Ok? && SkipSpace(t, r.value.index) == |t| {
      ValueSound(t, 0, 0, 0);
      var got := r.value;
      var (before, tree) := got.value;
      LiesIs(t, 0, before);
      LiesIs(t, |before|, Render(tree));
      assert t[got.index..] == t[got.index..|t|];
      assert t == t[..|before|] + (t[|before|..got.index] + t[got.index..]);
    }
  }

  /** A text is the rendering of at most one tree, whatever its size: the grammar is unambiguous. */
  lemma OneReading(t: Text, before: Text, tree: Tree, after: Text, before': Text, tree': Tree, after': Text)
    requires IsDocument(t, before, tree, after) && Distinct(tree)
    requires IsDocument(t, before', tree', after') && Distinct(tree')
    ensures before == before' && tree == tree' && after == after'
  {
    hide Lies, ReadValue, TreeOk, Render, Distinct, Depth, Count, SkipSpace;
    var depth: int, nodes: int := 0 - Depth(tree) - Depth(tree'), 0 - Count(tree) - Count(tree');
    DocumentReads(t, before, tree, after, depth, nodes);
    DocumentReads(t, before', tree', after', depth, nodes);
    assert after == t[|before| + |Render(tree)|..] && after' == t[|before'| + |Render(tree')|..];
  }

  /** A document is read from any depth and count that leave room for it. */
  lemma DocumentReads(t: Text, before: Text, tree: Tree, after: Text, depth: int, nodes: int)
    requires IsDocument(t, before, tree, after) && Distinct(tree)
    requires nodes + Count(tree) <= MAX_NODES && depth + Depth(tree) <= MAX_DEPTH
    ensures var end := |before| + |Render(tree)|;
            && ReadValue(t, 0, depth, nodes) == Ok(Got((before, tree), end, nodes + Count(tree)))
            && end <= |t| && t[end..] == after && SkipSpace(t, end) == |t|
  {
    hide Lies, ReadValue, TreeOk, Render, Distinct, Depth, Count, SkipSpace;
    WholeLies(t);
    Join(t, 0, before, Render(tree) + after);
    Join(t, |before|, Render(tree), after);
    var end := |before| + |Render(tree)|;
    assert |t| == end + |after|;
    LiesIs(t, end, after);
    assert t[end..] == after;
    SpaceSkipped(t, end, after);
    if after != [] { assert t[end] == after[0]; }
    ValueComplete(t, 0, depth, nodes, before, tree);
  }

  /** Every JSON text within the limits is accepted, and read as the document it is. */
  lemma JsonIsAccepted(t: Text, before: Text, tree: Tree, after: Text)
    requires IsDocument(t, before, tree, after) && WithinLimits(tree)
    ensures ReadDocument(t) == Ok((before, tree, after))
  {
    hide ReadValue, IsDocument, Render, Distinct, Depth, Count, SkipSpace;
    DocumentReads(t, before, tree, after, 0, 0);
  }

  /** So a text is accepted exactly when it is such a JSON text. */
  lemma AcceptsExactly(t: Text)
    ensures ReadDocument(t).Ok?
        <==> exists before, tree, after :: IsDocument(t, before, tree, after) && WithinLimits(tree)
  {
    hide ReadDocument, IsDocument, WithinLimits;
    AcceptedIsJson(t);
    if exists before, tree, after :: IsDocument(t, before, tree, after) && WithinLimits(tree) {
      var before, tree, after :| IsDocument(t, before, tree, after) && WithinLimits(tree);
      JsonIsAccepted(t, before, tree, after);
    }
  }

  /** A JSON text in which some object has two spellings of one name is refused, and for that
      reason unless it is over a limit: no other reading of the text can save it. */
  lemma RepeatsRefused(t: Text, before: Text, tree: Tree, after: Text)
    requires IsDocument(t, before, tree, after) && Repeats(tree)
    ensures ReadDocument(t).Err?
    ensures Depth(tree) <= MAX_DEPTH && Count(tree) <= MAX_NODES ==> ReadDocument(t) == Err(DuplicateKey)
  {
    hide Lies, ReadValue, TreeOk, Render, Distinct, Depth, Count, SkipSpace, Repeats;
    DistinctMeans(tree);
    if Depth(tree) <= MAX_DEPTH && Count(tree) <= MAX_NODES { DocumentRefused(t, before, tree, after, 0, 0); }
    if ReadDocument(t).Ok? {
      AcceptedIsJson(t);
      var (before', tree', after') := ReadDocument(t).value;
      var depth: int, nodes: int := 0 - Depth(tree) - Depth(tree'), 0 - Count(tree) - Count(tree');
      DocumentReads(t, before', tree', after', depth, nodes);
      DocumentRefused(t, before, tree, after, depth, nodes);
    }
  }

  lemma LimitsMean(t: Text, before: Text, tree: Tree, after: Text)
    requires IsDocument(t, before, tree, after)
    ensures WithinLimits(tree) <==> !Repeats(tree) && Depth(tree) <= 128 && Count(tree) <= 1_000_000
  {
    hide Render, Distinct, Depth, Count, Repeats;
    DistinctMeans(tree);
  }

  lemma DocumentRefused(t: Text, before: Text, tree: Tree, after: Text, depth: int, nodes: int)
    requires IsDocument(t, before, tree, after) && !Distinct(tree)
    requires nodes + Count(tree) <= MAX_NODES && depth + Depth(tree) <= MAX_DEPTH
    ensures ReadValue(t, 0, depth, nodes) == Err(DuplicateKey)
  {
    hide Lies, ReadValue, TreeOk, Render, Distinct, Depth, Count, SkipSpace;
    WholeLies(t);
    Join(t, 0, before, Render(tree) + after);
    Join(t, |before|, Render(tree), after);
    var end := |before| + |Render(tree)|;
    LiesIs(t, end, after);
    if after != [] { assert t[end] == after[0]; }
    ValueRefused(t, 0, depth, nodes, before, tree);
  }

  /* ---------- the scanner itself ---------- */

  /** A result without the tree: where it stopped and what it had counted, or why it failed. */
  function Outcome<T>(r: Result<Got<T>, Failure>): Result<(nat, int), Failure> {
    match r
    case Ok(got) => Ok((got.index, got.nodes))
    case Err(why) => Err(why)
  }

  lemma SkipsOnce(t: Text, i: nat)
    requires i <= |t|
    ensures SkipSpace(t, SkipSpace(t, i)) == SkipSpace(t, i)
  {
  }

  lemma ValueAfterSpace(t: Text, i: nat, depth: int, nodes: int)
    requires i <= |t|
    ensures Outcome(ReadValue(t, SkipSpace(t, i), depth, nodes)) == Outcome(ReadValue(t, i, depth, nodes))
  {
    hide SkipSpace, ReadFields, ReadItems, ReadString, ReadNumber, StartsWith;
    SkipsOnce(t, i);
  }

  lemma ItemsAfterSpace(t: Text, i: nat, depth: int, nodes: int)
    requires i <= |t| && SkipSpace(t, i) < |t|
    ensures Outcome(ReadItems(t, SkipSpace(t, i), depth, nodes)) == Outcome(ReadItems(t, i, depth, nodes))
  {
    hide SkipSpace, ReadValue;
    ValueAfterSpace(t, i, depth + 1, nodes);
  }

  lemma KeyAfterSpace(t: Text, i: nat, keys: set<Text>)
    requires i <= |t|
    ensures match ReadKey(t, i, keys)
            case Err(why) => ReadKey(t, SkipSpace(t, i), keys) == Err(why)
            case Ok((key, j)) =>
              var r := ReadKey(t, SkipSpace(t, i), keys);
              r.Ok? && r.value.0.name == key.name && r.value.1 == j
  {
    hide SkipSpace, ReadString, Decode;
    SkipsOnce(t, i);
  }

  lemma FieldsAfterSpace(t: Text, i: nat, depth: int, nodes: int, keys: set<Text>)
    requires i <= |t| && SkipSpace(t, i) < |t|
    ensures Outcome(ReadFields(t, SkipSpace(t, i), depth, nodes, keys)) == Outcome(ReadFields(t, i, depth, nodes, keys))
  {
    hide SkipSpace, ReadKey, ReadValue;
    KeyAfterSpace(t, i, keys);
    FieldsRound(t, i, depth, nodes, keys);
    FieldsRound(t, SkipSpace(t, i), depth, nodes, keys);
  }

  /** How the rest of the element loop goes on after one element. */
  function ItemsGoOn(t: Text, k: nat, depth: int, nodes: int): Result<(nat, int), Failure>
    requires k <= |t|
  {
    if k < |t| && t[k] == CLOSE_ARRAY then Ok((k + 1, nodes))
    else if k < |t| && t[k] == COMMA then Outcome(ReadItems(t, k + 1, depth, nodes))
    else Err(Syntax)
  }

  lemma ItemsRound(t: Text, i: nat, depth: int, nodes: int)
    requires i < |t|
    ensures Outcome(ReadItems(t, i, depth, nodes)) ==
              match Outcome(ReadValue(t, i, depth + 1, nodes))
              case Err(why) => Err(why)
              case Ok((index, counted)) => ItemsGoOn(t, SkipSpace(t, index), depth, counted)
  {
    hide SkipSpace, ReadValue;
  }

  function FieldsGoOn(t: Text, k: nat, depth: int, nodes: int, keys: set<Text>): Result<(nat, int), Failure>
    requires k <= |t|
  {
    if k < |t| && t[k] == CLOSE_OBJECT then Ok((k + 1, nodes))
    else if k < |t| && t[k] == COMMA then Outcome(ReadFields(t, k + 1, depth, nodes, keys))
    else Err(Syntax)
  }

  lemma FieldsRound(t: Text, i: nat, depth: int, nodes: int, keys: set<Text>)
    requires i < |t|
    ensures Outcome(ReadFields(t, i, depth, nodes, keys)) ==
              match ReadKey(t, i, keys)
              case Err(why) => Err(why)
              case Ok((key, j)) =>
                (match Outcome(ReadValue(t, j, depth + 1, nodes))
                 case Err(why) => Err(why)
                 case Ok((index, counted)) =>
                   FieldsGoOn(t, SkipSpace(t, index), depth, counted, keys + {Decode(key.name)}))
  {
    hide SkipSpace, ReadValue, ReadKey, Decode;
  }

  /** The pieces still to come, after those already passed. */
  ghost function Resumed(done: seq<Piece>, rest: Option<(seq<Piece>, nat)>): Option<(seq<Piece>, nat)> {
    if rest.None? then None else Some((done + rest.value.0, rest.value.1))
  }

  class Scanner {
    const text: Text
    var index: nat
    var nodes: int

    constructor (text: Text)
      ensures this.text == text && index == 0 && nodes == 0
    {
      this.text, index, nodes := text, 0, 0;
    }

    method SkipWhitespace()
      requires index <= |text|
      modifies this`index
      ensures index == SkipSpace(text, old(index)) <= |text|
    {
      while index < |text| && IsSpace(text[index])
        invariant index <= |text| && SkipSpace(text, index) == SkipSpace(text, old(index))
      {
        index := index + 1;
      }
    }

    /** `parseString`: the decoded text, or nothing where it throws. */
    method ParseString() returns (decoded: Option<Text>)
      requires index <= |text|
      modifies this`index
      ensures match ReadString(text, old(index))
              case None => decoded.None?
              case Some((pieces, j)) => decoded == Some(Decode(pieces)) && index == j
    {
      var start := index;
      if index >= |text| || text[index] != QUOTE { return None; }
      index := index + 1;
      ghost var done: seq<Piece> := [];
      ResumedNothing(ReadPieces(text, index));
      while index < |text|
        invariant start < index <= |text|
        invariant ReadPieces(text, start + 1) == Resumed(done, ReadPieces(text, index))
      {
        var u := text[index];
        if u == QUOTE {
          index := index + 1;
          var literal := ReadPieces(text, start + 1);
          return Some(Decode(literal.value.0));
        }
        ghost var at := index;
        index := index + 1;
        if u == BACKSLASH {
          if index >= |text| { return None; }
          var escape := text[index];
          index := index + 1;
          if escape == LOWER_U {
            if index + 4 > |text| || exists k :: index <= k < index + 4 && !IsHex(text[k]) { return None; }
            index := index + 4;
          } else if !IsEscape(escape) {
            return None;
          }
        } else if u < 0x20 {
          return None;
        }
        ResumeNext(text, at, index, done);
        done := done + [ReadPiece(text, at).value.0];
      }
      return None;
    }

    /** `parseValue`: nothing where it returns, the failure where it throws. */
    method ParseValue(depth: int) returns (failure: Option<Failure>)
      requires index <= |text|
      modifies this
      ensures match ReadValue(text, old(index), depth, old(nodes))
              case Err(why) => failure == Some(why)
              case Ok(got) => failure.None? && index == got.index <= |text| && nodes == got.nodes
      decreases |text| - index, 1
    {
      hide ReadItems, ReadFields, ReadString, ReadNumber, SkipSpace, Decode;
      nodes := nodes + 1;
      if nodes > MAX_NODES { return Some(NodeLimit); }
      if depth > MAX_DEPTH { return Some(NestingLimit); }
      SkipWhitespace();
      if index >= |text| { return Some(Syntax); }
      var u := text[index];
      if u == OPEN_OBJECT {
        failure := ParseObject(depth);
      } else if u == OPEN_ARRAY {
        failure := ParseArray(depth);
      } else if u == QUOTE {
        var decoded := ParseString();
        failure := if decoded.None? then Some(Syntax) else None;
      } else {
        failure := ParseAtom();
      }
    }

    /** The literals, and the number pattern. */
    method ParseAtom() returns (failure: Option<Failure>)
      requires index < |text|
      modifies this`index
      ensures var i := old(index);
              if StartsWith(text, TRUE, i) then failure.None? && index == i + |TRUE|
              else if StartsWith(text, FALSE, i) then failure.None? && index == i + |FALSE|
              else if StartsWith(text, NULL, i) then failure.None? && index == i + |NULL|
              else match ReadNumber(text, i)
                case None => failure == Some(Syntax)
                case Some((_, j)) => failure.None? && index == j
    {
      var literals := [TRUE, FALSE, NULL];
      for l := 0 to |literals|
        invariant index == old(index)
        invariant forall k :: 0 <= k < l ==> !StartsWith(text, literals[k], index)
      {
        assert l > 0 ==> !StartsWith(text, literals[0], index);
        assert l > 1 ==> !StartsWith(text, literals[1], index);
        if StartsWith(text, literals[l], index) {
          index := index + |literals[l]|;
          return None;
        }
      }
      assert !StartsWith(text, literals[0], index) && !StartsWith(text, literals[1], index)
          && !StartsWith(text, literals[2], index);
      var number := ReadNumber(text, index);
      if number.None? { return Some(Syntax); }
      index := number.value.1;
      return None;
    }

    method ParseArray(depth: int) returns (failure: Option<Failure>)
      requires index < |text|
      modifies this
      ensures var gap := SkipSpace(text, old(index) + 1);
              if gap >= |text| then failure == Some(Syntax)
              else if text[gap] == CLOSE_ARRAY then failure.None? && index == gap + 1 && nodes == old(nodes)
              else match Outcome(ReadItems(text, old(index) + 1, depth, old(nodes)))
                case Err(why) => failure == Some(why)
                case Ok((j, n)) => failure.None? && index == j <= |text| && nodes == n
      decreases |text| - index, 0
    {
      hide ReadItems, ReadValue, SkipSpace;
      ghost var start := index;
      index := index + 1;
      SkipWhitespace();
      if index < |text| && text[index] == CLOSE_ARRAY {
        index := index + 1;
        return None;
      }
      if index < |text| { ItemsAfterSpace(text, start + 1, depth, nodes); }
      while index < |text|
        invariant start < index <= |text|
        invariant index < |text| ==>
                    Outcome(ReadItems(text, index, depth, nodes))
                        == Outcome(ReadItems(text, start + 1, depth, old(nodes)))
        invariant index >= |text| && SkipSpace(text, start + 1) < |text| ==>
                    ReadItems(text, start + 1, depth, old(nodes)) == Err(Syntax)
        decreases |text| - index
      {
        ItemsRound(text, index, depth, nodes);
        failure := ParseValue(depth + 1);
        if failure.Some? { return; }
        SkipWhitespace();
        if index >= |text| { return Some(Syntax); }
        var delimiter := text[index];
        index := index + 1;
        if delimiter == CLOSE_ARRAY { return None; }
        if delimiter != COMMA { return Some(Syntax); }
        EndsItems(text, index, depth, nodes);
      }
      return Some(Syntax);
    }

    method ParseObject(depth: int) returns (failure: Option<Failure>)
      requires index < |text|
      modifies this
      ensures var gap := SkipSpace(text, old(index) + 1);
              if gap < |text| && text[gap] == CLOSE_OBJECT then failure.None? && index == gap + 1 && nodes == old(nodes)
              else match Outcome(ReadFields(text, old(index) + 1, depth, old(nodes), {}))
                case Err(why) => failure == Some(why)
                case Ok((j, n)) => failure.None? && index == j <= |text| && nodes == n
      decreases |text| - index, 0
    {
      hide ReadFields, ReadValue, ReadKey, SkipSpace, Decode;
      ghost var start := index;
      index := index + 1;
      SkipWhitespace();
      var keys: set<Text> := {};
      if index < |text| && text[index] == CLOSE_OBJECT {
        index := index + 1;
        return None;
      }
      if index < |text| { FieldsAfterSpace(text, start + 1, depth, nodes, {}); }
      EndsFields(text, start + 1, depth, nodes, {});
      while index < |text|
        invariant start < index <= |text|
        invariant index < |text| ==>
                    Outcome(ReadFields(text, index, depth, nodes, keys))
                    == Outcome(ReadFields(text, start + 1, depth, old(nodes), {}))
        invariant index >= |text| ==> ReadFields(text, start + 1, depth, old(nodes), {}) == Err(Syntax)
        decreases |text| - index
      {
        FieldsRound(text, index, depth, nodes, keys);
        var name;
        failure, name := ParseMember(keys, depth);
        if failure.Some? { return; }
        keys := keys + {name};
        if index >= |text| { return Some(Syntax); }
        var delimiter := text[index];
        index := index + 1;
        if delimiter == CLOSE_OBJECT { return None; }
        if delimiter != COMMA { return Some(Syntax); }
        EndsFields(text, index, depth, nodes, keys);
      }
      return Some(Syntax);
    }

    /** One round of the member loop, up to the delimiter. */
    method ParseMember(keys: set<Text>, depth: int) returns (failure: Option<Failure>, name: Text)
      requires index < |text|
      modifies this
      ensures match ReadKey(text, old(index), keys)
              case Err(why) => failure == Some(why)
              case Ok((key, j)) =>
                (match Outcome(ReadValue(text, j, depth + 1, old(nodes)))
                 case Err(why) => failure == Some(why)
                 case Ok((end, counted)) =>
                   && failure.None? && name == Decode(key.name) && nodes == counted
                   && old(index) < end <= |text| && index == SkipSpace(text, end) <= |text| && end <= index)
      decreases |text| - index, 0
    {
      hide ReadFields, ReadValue, ReadKey, SkipSpace, Decode;
      failure, name := ParseKey(keys);
      if failure.Some? { return; }
      failure := ParseValue(depth + 1);
      if failure.Some? { return; }
      SkipWhitespace();
    }

    /** A member's name, not yet taken, and its colon. */
    method ParseKey(keys: set<Text>) returns (failure: Option<Failure>, name: Text)
      requires index <= |text|
      modifies this`index
      ensures match ReadKey(text, old(index), keys)
              case Err(why) => failure == Some(why)
              case Ok((key, j)) => failure.None? && name == Decode(key.name) && index == j
    {
      hide SkipSpace, ReadString, Decode;
      name := [];
      SkipWhitespace();
      var decoded := ParseString();
      if decoded.None? { return Some(Syntax), []; }
      name := decoded.value;
      if name in keys { return Some(DuplicateKey), name; }
      SkipWhitespace();
      if index >= |text| || text[index] != COLON { return Some(Syntax), name; }
      index := index + 1;
      return None, name;
    }
  }

  lemma ResumedNothing(rest: Option<(seq<Piece>, nat)>)
    ensures Resumed([], rest) == rest
  {
    if rest.Some? { assert [] + rest.value.0 == rest.value.0; }
  }

  lemma ResumeNext(t: Text, i: nat, j: nat, done: seq<Piece>)
    requires i < |t| && t[i] != QUOTE && ReadPiece(t, i).Some? && ReadPiece(t, i).value.1 == j
    ensures Resumed(done, ReadPieces(t, i)) == Resumed(done + [ReadPiece(t, i).value.0], ReadPieces(t, j))
  {
    hide ReadPiece;
    var rest := ReadPieces(t, j);
    if rest.Some? {
      assert done + ([ReadPiece(t, i).value.0] + rest.value.0) == done + [ReadPiece(t, i).value.0] + rest.value.0;
    }
  }

  lemma EndsItems(t: Text, i: nat, depth: int, nodes: int)
    requires i <= |t|
    ensures i == |t| ==> ReadItems(t, i, depth, nodes) == Err(Syntax)
  {
  }

  lemma EndsFields(t: Text, i: nat, depth: int, nodes: int, keys: set<Text>)
    requires i <= |t|
    ensures SkipSpace(t, i) == |t| ==> ReadFields(t, i, depth, nodes, keys) == Err(Syntax)
  {
    hide SkipSpace, ReadValue;
  }

  /** `assertNoDuplicateJsonKeys`: returns exactly on the JSON texts within the limits in which no
      object repeats a decoded name. */
  method AssertNoDuplicateJsonKeys(text: Text) returns (failure: Option<Failure>)
    ensures failure.None? <==> ReadDocument(text).Ok?
    ensures failure.None? <==> exists before, tree, after :: IsDocument(text, before, tree, after) && WithinLimits(tree)
    ensures failure.None? <==>
              exists before, tree, after :: && IsDocument(text, before, tree, after) && !Repeats(tree)
                                            && Depth(tree) <= 128 && Count(tree) <= 1_000_000
    ensures forall before, tree, after :: IsDocument(text, before, tree, after) && Repeats(tree) ==> failure.Some?
  {
    hide ReadValue, IsDocument, WithinLimits, Repeats;
    AcceptsExactly(text);
    forall before, tree, after | IsDocument(text, before, tree, after)
      ensures Repeats(tree) ==> ReadDocument(text).Err?
      ensures WithinLimits(tree) <==> !Repeats(tree) && Depth(tree) <= 128 && Count(tree) <= 1_000_000
    {
      LimitsMean(text, before, tree, after);
      if Repeats(tree) { RepeatsRefused(text, before, tree, after); }
    }
    var scanner := new Scanner(text);
    failure := scanner.ParseValue(0);
    if failure.Some? { return; }
    scanner.SkipWhitespace();
    if scanner.index != |text| { return Some(Syntax); }
  }
}
