/** The tagged, injective encodings that records and index buckets are filed under. */
module Keys {
  import opened Texts
  import opened Json

  datatype PrimaryKey = KStr(s: Text) | KNum(n: int)

  const COLON: CodeUnit := ':' as int
  const TAG_S: CodeUnit := 's' as int
  const TAG_N: CodeUnit := 'n' as int
  const TAG_B: CodeUnit := 'b' as int
  const TAG_Z: CodeUnit := 'z' as int

  /** `encodeKey`; None where the source throws. */
  function EncodeKey(key: PrimaryKey): Option<Text> {
    match key
    case KStr(s) =>
      if s == [] then None else Some([TAG_S, COLON] + (Digits(|s|) + [COLON] + s))
    case KNum(n) =>
      if IsSafeInteger(n) then Some([TAG_N, COLON] + Decimal(n)) else None
  }

  /** `encodeIndexValue` on a primitive. */
  function EncodeIndexValue(value: Json): Text
    requires IsPrimitive(value)
  {
    match value
    case Null => [TAG_Z, COLON]
    case Bool(b) => [TAG_B, COLON, if b then ZERO + 1 else ZERO]
    case Num(n) => [TAG_N, COLON] + Decimal(n)
    case Str(s) => [TAG_S, COLON] + (Digits(|s|) + [COLON] + s)
  }

  /** The primary key stored in a document; None where `documentKey` throws. */
  function DocumentKey(doc: Json, field: Text): (key: Option<PrimaryKey>)
    ensures key.Some? ==> EncodeKey(key.value).Some?
  {
    if !doc.Obj? then None
    else match Lookup(doc.members, field)
      case Some(Str(s)) => if s == [] then None else Some(KStr(s))
      case Some(Num(n)) => if IsSafeInteger(n) then Some(KNum(n)) else None
      case _ => None
  }

  /** Keys are the non-empty strings and the safe integers, and a document's key is the value its
      key property has, if that is one. */
  lemma DocumentKeyMeans(doc: Json, field: Text, key: PrimaryKey)
    ensures EncodeKey(key).Some? <==> match key case KStr(s) => |s| > 0 case KNum(n) => IsSafeInteger(n)
    ensures DocumentKey(doc, field) == Some(key) <==>
              && EncodeKey(key).Some? && doc.Obj?
              && Lookup(doc.members, field) == Some(match key case KStr(s) => Str(s) case KNum(n) => Num(n))
  {
  }

  lemma FirstColon(a: Text, s: Text, b: Text, t: Text)
    requires AllDigits(a) && AllDigits(b)
    requires a + [COLON] + s == b + [COLON] + t
    ensures s == t
  {
    var x := a + [COLON] + s;
    assert x[|a|] == COLON && x[|b|] == COLON;
    assert forall i :: 0 <= i < |a| ==> x[i] == a[i];
    assert forall i :: 0 <= i < |b| ==> x[i] == b[i];
    assert |a| == |b|;
    assert x[|a| + 1..] == s && x[|b| + 1..] == t;
  }

  lemma TaggedStringInjective(s: Text, t: Text)
    requires [TAG_S, COLON] + (Digits(|s|) + [COLON] + s) == [TAG_S, COLON] + (Digits(|t|) + [COLON] + t)
    ensures s == t
  {
    var x := [TAG_S, COLON] + (Digits(|s|) + [COLON] + s);
    var a, b := Digits(|s|) + [COLON] + s, Digits(|t|) + [COLON] + t;
    assert x[2..] == a && x[2..] == b;
    FirstColon(Digits(|s|), s, Digits(|t|), t);
  }

  lemma TaggedNumberInjective(m: int, n: int)
    requires [TAG_N, COLON] + Decimal(m) == [TAG_N, COLON] + Decimal(n)
    ensures m == n
  {
    var x := [TAG_N, COLON] + Decimal(m);
    assert x[2..] == Decimal(m) && x[2..] == Decimal(n);
    DecimalInjective(m, n);
  }

  /** Distinct primary keys never share a record slot. */
  lemma EncodeKeyInjective(a: PrimaryKey, b: PrimaryKey)
    requires EncodeKey(a) == EncodeKey(b) && EncodeKey(a).Some?
    ensures a == b
  {
    var x := EncodeKey(a).value;
    assert x[0] == TAG_S <==> a.KStr?;
    assert x[0] == TAG_S <==> b.KStr?;
    if a.KStr? { TaggedStringInjective(a.s, b.s); } else { TaggedNumberInjective(a.n, b.n); }
  }

  /** Distinct primitives never share an index bucket. */
  lemma EncodeIndexValueInjective(a: Json, b: Json)
    requires IsPrimitive(a) && IsPrimitive(b)
    requires EncodeIndexValue(a) == EncodeIndexValue(b)
    ensures a == b
  {
    var x := EncodeIndexValue(a);
    assert x[0] == (match a case Null => TAG_Z case Bool(_) => TAG_B case Num(_) => TAG_N case Str(_) => TAG_S);
    assert x[0] == (match b case Null => TAG_Z case Bool(_) => TAG_B case Num(_) => TAG_N case Str(_) => TAG_S);
    match a
    case Null =>
    case Bool(_) => assert x[2] == if b.b then ZERO + 1 else ZERO;
    case Num(m) => TaggedNumberInjective(m, b.n);
    case Str(s) => TaggedStringInjective(s, b.s);
  }
}
