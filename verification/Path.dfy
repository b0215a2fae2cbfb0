/** Typed property paths, their pointer codec, and reading a value at a path. */
module Paths {
  import opened Texts
  import opened Json

  datatype PathToken = Name(s: Text) | Element(n: int)

  type Path = seq<PathToken>

  const TILDE: CodeUnit := '~' as int
  const SLASH: CodeUnit := '/' as int
  const LOWER_N: CodeUnit := 'n' as int
  const ONE: CodeUnit := '1' as int

  const DEFAULT_MAX_TOKENS: nat := 32

  predicate ValidToken(token: PathToken, position: nat) {
    token.Name? || (0 <= token.n <= MAX_SAFE_INTEGER && position > 0)
  }

  predicate ValidPath(path: Path, maxTokens: int) {
    0 < |path| <= maxTokens && forall i :: 0 <= i < |path| ==> ValidToken(path[i], i)
  }

  /** `validatePath`: copies the tokens it accepts. */
  method ValidatePath(path: Path, maxTokens: int) returns (r: Option<Path>)
    ensures r == if ValidPath(path, maxTokens) then Some(path) else None
    ensures r.Some? <==>
              && 1 <= |path| <= maxTokens && !path[0].Element?
              && forall i :: 0 <= i < |path| && path[i].Element? ==> 0 <= path[i].n <= 0x1F_FFFF_FFFF_FFFF
  {
    if |path| == 0 || |path| > maxTokens { return None; }
    var output: Path := [];
    for index := 0 to |path|
      invariant output == path[..index]
      invariant forall i :: 0 <= i < index ==> ValidToken(path[i], i)
    {
      var token := path[index];
      if !(token.Name? || (IsSafeInteger(token.n) && token.n >= 0 && index > 0)) { return None; }
      output := output + [token];
    }
    assert path[..|path|] == path;
    return Some(output);
  }

  /* ---------- reading ---------- */

  function Step(current: Option<Json>, token: PathToken): Option<Json> {
    match token
    case Element(n) =>
      if current.Some? && current.value.Arr? && 0 <= n < |current.value.items| && IsSafeInteger(n)
      then Some(current.value.items[n]) else None
    case Name(s) =>
      if current.Some? && current.value.Obj? then Lookup(current.value.members, s) else None
  }

  /** The value at a path, by recursion on the path. */
  function ReadFrom(current: Option<Json>, path: Path): Option<Json>
    decreases |path|
  {
    if path == [] then current else ReadFrom(Step(current, path[0]), path[1..])
  }

  function ReadPath(value: Json, path: Path): Option<Json> {
    ReadFrom(Some(value), path)
  }

  lemma {:induction false} ReadFromNone(path: Path)
    ensures ReadFrom(None, path) == None
  {
    if path != [] { ReadFromNone(path[1..]); }
  }

  /** One token leads from a value to an element of its array or an own property of its object. */
  predicate LeadsTo(value: Json, token: PathToken, next: Json) {
    match token
    case Element(n) => value.Arr? && 0 <= n < |value.items| && n <= MAX_SAFE_INTEGER && value.items[n] == next
    case Name(s) => value.Obj? && Lookup(value.members, s) == Some(next)
  }

  /** Values from one to another, each of which leads to the next by a token of the path. */
  ghost predicate Trail(values: seq<Json>, path: Path, from: Json, to: Json) {
    && |values| == |path| + 1 && values[0] == from && values[|path|] == to
    && forall i :: 0 <= i < |path| ==> LeadsTo(values[i], path[i], values[i + 1])
  }

  lemma StepLeads(value: Json, token: PathToken, next: Json)
    ensures Step(Some(value), token) == Some(next) <==> LeadsTo(value, token, next)
  {
  }

  lemma TrailGrows(value: Json, next: Json, values: seq<Json>, path: Path, to: Json)
    requires path != [] && LeadsTo(value, path[0], next) && Trail(values, path[1..], next, to)
    ensures Trail([value] + values, path, value, to)
  {
    hide LeadsTo;
    var all := [value] + values;
    assert forall i :: 0 <= i < |values| ==> all[i + 1] == values[i];
    forall i | 0 <= i < |path|
      ensures LeadsTo(all[i], path[i], all[i + 1])
    {
      if i > 0 { assert LeadsTo(values[i - 1], path[1..][i - 1], values[i]); }
    }
  }

  lemma TrailTail(values: seq<Json>, path: Path, from: Json, to: Json)
    requires path != [] && Trail(values, path, from, to)
    ensures LeadsTo(from, path[0], values[1]) && Trail(values[1..], path[1..], values[1], to)
  {
    hide LeadsTo;
    forall i | 0 <= i < |path| - 1
      ensures LeadsTo(values[1..][i], path[1..][i], values[1..][i + 1])
    {
      assert LeadsTo(values[i + 1], path[i + 1], values[i + 2]);
    }
  }

  /** What is read at a path is the value that its tokens lead to, one after the other. */
  lemma {:induction false} ReadPathMeans(value: Json, path: Path, found: Json)
    ensures ReadPath(value, path) == Some(found) <==> exists values :: Trail(values, path, value, found)
    decreases |path|
  {
    hide Trail, LeadsTo, Step;
    if path == [] {
      NoTokens(value, found);
    } else {
      var next := Step(Some(value), path[0]);
      ReadFromNone(path[1..]);
      if ReadPath(value, path) == Some(found) {
        StepLeads(value, path[0], next.value);
        ReadPathMeans(next.value, path[1..], found);
        var values :| Trail(values, path[1..], next.value, found);
        TrailGrows(value, next.value, values, path, found);
      }
      forall values | Trail(values, path, value, found)
        ensures ReadPath(value, path) == Some(found)
      {
        TrailLength(values, path, value, found);
        TrailTail(values, path, value, found);
        StepLeads(value, path[0], values[1]);
        ReadPathMeans(values[1], path[1..], found);
      }
    }
  }

  lemma TrailLength(values: seq<Json>, path: Path, from: Json, to: Json)
    requires Trail(values, path, from, to)
    ensures |values| == |path| + 1
  {
  }

  lemma NoTokens(value: Json, found: Json)
    ensures value == found <==> exists values :: Trail(values, [], value, found)
  {
    if value == found { assert Trail([value], [], value, found); }
  }

  /** The loop with early exits agrees with the recursive reading. */
  method ReadPathLoop(value: Json, path: Path) returns (r: Option<Json>)
    ensures r == ReadPath(value, path)
  {
    var current: Option<Json> := Some(value);
    for i := 0 to |path|
      invariant ReadFrom(current, path[i..]) == ReadPath(value, path)
    {
      var token := path[i];
      assert path[i..][1..] == path[i + 1..];
      ReadFromNone(path[i + 1..]);
      if token.Element? {
        if current.None? || !current.value.Arr? || !IsSafeInteger(token.n) || token.n < 0 { return None; }
        current := if token.n < |current.value.items| then Some(current.value.items[token.n]) else None;
      } else {
        if current.None? || !current.value.Obj? { return None; }
        var found := Lookup(current.value.members, token.s);
        if found.None? { return None; }
        current := found;
      }
    }
    return current;
  }

  /* ---------- pointer codec ---------- */

  /** `replaceAll` of one code unit by two. */
  function ReplaceUnit(s: Text, u: CodeUnit, a: CodeUnit, b: CodeUnit): Text {
    if s == [] then []
    else (if s[0] == u then [a, b] else [s[0]]) + ReplaceUnit(s[1..], u, a, b)
  }

  /** `replaceAll` of two code units by one, leftmost first and without overlap. */
  function ReplacePair(s: Text, a: CodeUnit, b: CodeUnit, u: CodeUnit): Text
    decreases |s|
  {
    if |s| < 2 then s
    else if s[0] == a && s[1] == b then [u] + ReplacePair(s[2..], a, b, u)
    else [s[0]] + ReplacePair(s[1..], a, b, u)
  }

  function EncodeToken(token: PathToken): Text {
    match token
    case Element(n) => [TILDE, LOWER_N] + Decimal(n)
    case Name(s) => ReplaceUnit(ReplaceUnit(s, TILDE, TILDE, ZERO), SLASH, TILDE, ONE)
  }

  /** Every '~' is followed by '0' or '1'. */
  predicate WellEscaped(s: Text) {
    forall i :: 0 <= i < |s| && s[i] == TILDE ==> i + 1 < |s| && (s[i + 1] == ZERO || s[i + 1] == ONE)
  }

  predicate IsNumericToken(s: Text) {
    |s| > 2 && s[0] == TILDE && s[1] == LOWER_N && Canonical(s[2..])
  }

  function DecodeToken(s: Text): Option<PathToken> {
    if IsNumericToken(s) then
      if Value(s[2..]) <= MAX_SAFE_INTEGER then Some(Element(Value(s[2..]))) else None
    else if !WellEscaped(s) then None
    else Some(Name(ReplacePair(ReplacePair(s, TILDE, ONE, SLASH), TILDE, ZERO, TILDE)))
  }

  function Join(tokens: seq<Text>): Text
    requires |tokens| > 0
  {
    if |tokens| == 1 then tokens[0] else tokens[0] + [SLASH] + Join(tokens[1..])
  }

  /** `split("/")`. */
  function Split(s: Text): (tokens: seq<Text>)
    ensures |tokens| > 0
    ensures forall t :: t in tokens ==> SLASH !in t
  {
    if s == [] then [[]]
    else
      var rest := Split(s[1..]);
      if s[0] == SLASH then [[]] + rest else [[s[0]] + rest[0]] + rest[1..]
  }

  function EncodeAll(path: Path): (tokens: seq<Text>)
    ensures |tokens| == |path|
    ensures forall i :: 0 <= i < |path| ==> tokens[i] == EncodeToken(path[i])
  {
    seq(|path|, i requires 0 <= i < |path| => EncodeToken(path[i]))
  }

  /** None as soon as one token cannot be decoded. */
  function DecodeAll(tokens: seq<Text>): (path: Option<Path>)
    ensures path.Some? <==> forall i :: 0 <= i < |tokens| ==> DecodeToken(tokens[i]).Some?
    ensures path.Some? ==> |path.value| == |tokens|
    ensures path.Some? ==> forall i :: 0 <= i < |tokens| ==> DecodeToken(tokens[i]) == Some(path.value[i])
  {
    if tokens == [] then Some([])
    else
      var rest := DecodeAll(tokens[1..]);
      assert forall i :: 0 <= i < |tokens| - 1 ==> tokens[1..][i] == tokens[i + 1];
      if DecodeToken(tokens[0]).Some? && rest.Some?
      then Some([DecodeToken(tokens[0]).value] + rest.value)
      else None
  }

  function FormatPath(path: Path): Option<Text> {
    if ValidPath(path, DEFAULT_MAX_TOKENS) then Some([SLASH] + Join(EncodeAll(path))) else None
  }

  function ParsePath(pointer: Text, maxTokens: int): Option<Path> {
    if pointer == [] || pointer[0] != SLASH then None
    else
      var path := DecodeAll(Split(pointer[1..]));
      if path.Some? && ValidPath(path.value, maxTokens) then path else None
  }

  /* ---------- one-pass forms of the two-pass replacements ---------- */

  function Escape(s: Text): Text {
    if s == [] then []
    else (if s[0] == TILDE then [TILDE, ZERO] else if s[0] == SLASH then [TILDE, ONE] else [s[0]]) + Escape(s[1..])
  }

  function Unescape(s: Text): Text
    decreases |s|
  {
    if |s| < 2 then s
    else if s[0] == TILDE && s[1] == ZERO then [TILDE] + Unescape(s[2..])
    else if s[0] == TILDE && s[1] == ONE then [SLASH] + Unescape(s[2..])
    else [s[0]] + Unescape(s[1..])
  }

  lemma {:induction false} EncodeIsEscape(s: Text)
    ensures ReplaceUnit(ReplaceUnit(s, TILDE, TILDE, ZERO), SLASH, TILDE, ONE) == Escape(s)
  {
    if s != [] {
      EncodeIsEscape(s[1..]);
      var inner := ReplaceUnit(s[1..], TILDE, TILDE, ZERO);
      if s[0] == TILDE {
        assert ([TILDE, ZERO] + inner)[1..] == [ZERO] + inner;
        assert ([ZERO] + inner)[1..] == inner;
      } else {
        assert ([s[0]] + inner)[1..] == inner;
      }
    }
  }

  /** How a pointer is spelled: an element by its number after "~n", and in a name "~0" for a tilde
      and "~1" for a slash, unit by unit. */
  lemma TokenSpelled(n: nat, u: CodeUnit, s: Text)
    ensures EncodeToken(Element(n)) == Ascii("~n") + Decimal(n)
    ensures EncodeToken(Name([])) == []
    ensures EncodeToken(Name([u] + s))
         == (if u == 0x7E then Ascii("~0") else if u == 0x2F then Ascii("~1") else [u]) + EncodeToken(Name(s))
  {
    assert Ascii("~n") == [TILDE, LOWER_N] && Ascii("~0") == [TILDE, ZERO] && Ascii("~1") == [TILDE, ONE];
    EncodeIsEscape(s);
    EncodeIsEscape([u] + s);
    assert ([u] + s)[1..] == s;
  }

  lemma WellEscapedTail(s: Text, k: nat)
    requires WellEscaped(s) && k <= |s|
    ensures WellEscaped(s[k..])
  {
  }

  /** A unit that begins no pair is passed over. */
  lemma Passed(u: CodeUnit, rest: Text, second: CodeUnit, to: CodeUnit)
    requires u != TILDE
    ensures ReplacePair([u] + rest, TILDE, second, to) == [u] + ReplacePair(rest, TILDE, second, to)
  {
    assert ([u] + rest)[1..] == rest;
  }

  /** The first pass over an escape at the front. */
  lemma FirstPass(s: Text)
    requires |s| >= 2 && s[0] == TILDE && (s[1] == ZERO || s[1] == ONE)
    ensures var inner := ReplacePair(s[2..], TILDE, ONE, SLASH);
            ReplacePair(s, TILDE, ONE, SLASH) == if s[1] == ONE then [SLASH] + inner else [TILDE] + ([ZERO] + inner)
  {
    if s[1] == ZERO {
      assert s[1..] == [ZERO] + s[2..];
      Passed(ZERO, s[2..], ONE, SLASH);
    }
  }

  lemma SecondPass(inner: Text)
    ensures ReplacePair([TILDE] + ([ZERO] + inner), TILDE, ZERO, TILDE)
        == [TILDE] + ReplacePair(inner, TILDE, ZERO, TILDE)
  {
    assert ([TILDE] + ([ZERO] + inner))[2..] == inner;
  }

  lemma {:induction false} DecodeIsUnescape(s: Text)
    requires WellEscaped(s)
    ensures ReplacePair(ReplacePair(s, TILDE, ONE, SLASH), TILDE, ZERO, TILDE) == Unescape(s)
    decreases |s|
  {
    if |s| >= 2 {
      if s[0] == TILDE {
        hide ReplacePair;
        WellEscapedTail(s, 2);
        DecodeIsUnescape(s[2..]);
        FirstPass(s);
        var inner := ReplacePair(s[2..], TILDE, ONE, SLASH);
        if s[1] == ONE { Passed(SLASH, inner, ZERO, TILDE); } else { SecondPass(inner); }
      } else {
        hide ReplacePair;
        WellEscapedTail(s, 1);
        DecodeIsUnescape(s[1..]);
        assert s == [s[0]] + s[1..];
        Passed(s[0], s[1..], ONE, SLASH);
        Passed(s[0], ReplacePair(s[1..], TILDE, ONE, SLASH), ZERO, TILDE);
      }
    }
  }

  lemma {:induction false} EscapeShape(s: Text)
    ensures WellEscaped(Escape(s)) && SLASH !in Escape(s)
    ensures Unescape(Escape(s)) == s
  {
    if s != [] {
      EscapeShape(s[1..]);
      var rest := Escape(s[1..]);
      if s[0] == TILDE || s[0] == SLASH {
        var pair := if s[0] == TILDE then [TILDE, ZERO] else [TILDE, ONE];
        assert (pair + rest)[2..] == rest;
        assert forall i :: 2 <= i < |pair + rest| ==> (pair + rest)[i] == rest[i - 2];
      } else {
        assert ([s[0]] + rest)[1..] == rest;
        assert forall i :: 1 <= i < |rest| + 1 ==> ([s[0]] + rest)[i] == rest[i - 1];
        if rest == [] { assert s[1..] == []; }
      }
    }
  }

  lemma {:induction false} EscapeUnescape(s: Text)
    requires WellEscaped(s) && SLASH !in s
    ensures Escape(Unescape(s)) == s
    decreases |s|
  {
    if |s| >= 2 {
      if s[0] == TILDE {
        WellEscapedTail(s, 2);
        EscapeUnescape(s[2..]);
        assert s == [TILDE, s[1]] + s[2..];
        var u := if s[1] == ZERO then TILDE else SLASH;
        assert ([u] + Unescape(s[2..]))[1..] == Unescape(s[2..]);
      } else {
        WellEscapedTail(s, 1);
        EscapeUnescape(s[1..]);
        assert ([s[0]] + Unescape(s[1..]))[1..] == Unescape(s[1..]);
      }
    } else if |s| == 1 {
      assert s[0] != TILDE && s[0] in s;
      assert s[1..] == [];
    }
  }

  /** Decoding an encoded token gives the token back, and the encoding never splits. */
  lemma DecodeEncode(token: PathToken)
    requires ValidToken(token, 1)
    ensures DecodeToken(EncodeToken(token)) == Some(token)
    ensures SLASH !in EncodeToken(token)
  {
    match token
    case Element(n) =>
      assert EncodeToken(token)[2..] == Digits(n);
      ValueOfDigits(n);
    case Name(s) =>
      EncodeIsEscape(s);
      EscapeShape(s);
      DecodeIsUnescape(Escape(s));
  }

  /** Encoding a decoded token gives its text back. */
  lemma EncodeDecode(s: Text)
    requires DecodeToken(s).Some? && SLASH !in s
    ensures EncodeToken(DecodeToken(s).value) == s
  {
    if IsNumericToken(s) {
      DigitsOfValue(s[2..]);
      assert s == [TILDE, LOWER_N] + s[2..];
    } else {
      DecodeIsUnescape(s);
      EscapeUnescape(s);
      EncodeIsEscape(Unescape(s));
    }
  }

  lemma {:induction false} SplitPrefix(t: Text, s: Text)
    requires SLASH !in t
    ensures Split(t + [SLASH] + s) == [t] + Split(s)
  {
    var whole := t + [SLASH] + s;
    if t == [] {
      assert whole[1..] == s;
    } else {
      assert t[0] in t;
      assert forall u :: u in t[1..] ==> u in t;
      SplitPrefix(t[1..], s);
      assert whole[1..] == t[1..] + [SLASH] + s;
      assert [t[0]] + t[1..] == t;
    }
  }

  lemma {:induction false} SplitSingle(t: Text)
    requires SLASH !in t
    ensures Split(t) == [t]
  {
    if t != [] {
      assert t[0] in t;
      assert forall u :: u in t[1..] ==> u in t;
      SplitSingle(t[1..]);
      assert [t[0]] + t[1..] == t;
    } else {
      assert t == [];
    }
  }

  lemma {:induction false} SplitJoin(tokens: seq<Text>)
    requires |tokens| > 0
    requires forall t :: t in tokens ==> SLASH !in t
    ensures Split(Join(tokens)) == tokens
  {
    if |tokens| == 1 {
      SplitSingle(tokens[0]);
    } else {
      assert forall t :: t in tokens[1..] ==> t in tokens;
      SplitJoin(tokens[1..]);
      SplitPrefix(tokens[0], Join(tokens[1..]));
    }
  }

  lemma {:induction false} JoinSplit(s: Text)
    ensures Join(Split(s)) == s
  {
    if s != [] {
      JoinSplit(s[1..]);
      var rest := Split(s[1..]);
      if s[0] == SLASH {
        assert ([[]] + rest)[1..] == rest;
      } else {
        var tokens := [[s[0]] + rest[0]] + rest[1..];
        assert tokens[1..] == rest[1..];
        assert [s[0]] + s[1..] == s;
        if |rest| > 1 {
          assert Join(rest) == rest[0] + [SLASH] + Join(rest[1..]);
          assert Join(tokens) == [s[0]] + rest[0] + [SLASH] + Join(rest[1..]);
        }
      }
    }
  }

  /** Formatting then parsing is the identity on every valid path that the parser's own
      token budget admits. */
  lemma ParseFormat(path: Path, maxTokens: int)
    requires ValidPath(path, DEFAULT_MAX_TOKENS)
    ensures ParsePath(FormatPath(path).value, maxTokens) == if |path| <= maxTokens then Some(path) else None
  {
    var tokens := EncodeAll(path);
    forall i | 0 <= i < |path|
      ensures DecodeToken(tokens[i]) == Some(path[i]) && SLASH !in tokens[i]
    {
      DecodeEncode(path[i]);
    }
    SplitJoin(tokens);
    assert ([SLASH] + Join(tokens))[1..] == Join(tokens);
    assert DecodeAll(tokens).value == path;
  }

  /** Parsing then formatting is the identity on every accepted pointer that is short enough
      to be formatted at all. */
  lemma FormatParse(pointer: Text, maxTokens: int)
    requires ParsePath(pointer, maxTokens).Some?
    ensures var path := ParsePath(pointer, maxTokens).value;
            FormatPath(path) == if |path| <= DEFAULT_MAX_TOKENS then Some(pointer) else None
  {
    var tokens := Split(pointer[1..]);
    var path := DecodeAll(tokens).value;
    forall i | 0 <= i < |tokens|
      ensures EncodeAll(path)[i] == tokens[i]
    {
      assert tokens[i] in tokens;
      EncodeDecode(tokens[i]);
    }
    assert EncodeAll(path) == tokens;
    JoinSplit(pointer[1..]);
    assert pointer == [SLASH] + pointer[1..];
  }

  /** `samePath`. */
  predicate SamePath(left: Path, right: Path): (same: bool)
    ensures same <==> left == right
  {
    |left| == |right| && forall i :: 0 <= i < |left| ==> left[i] == right[i]
  }

  /** Reading a one-token path is an own-property lookup. */
  lemma ReadOneName(doc: Json, field: Text)
    requires doc.Obj?
    ensures ReadPath(doc, [Name(field)]) == Lookup(doc.members, field)
  {
    assert [Name(field)][1..] == [];
    assert ReadFrom(Some(doc), [Name(field)]) == ReadFrom(Step(Some(doc), Name(field)), []);
  }
}
