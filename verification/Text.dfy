/** Strings as the engine sees them: sequences of UTF-16 code units, with the
    decimal rendering of integers that the key and pointer encodings use. */
module Texts {

  datatype Option<+T> = None | Some(value: T) {
    function GetOr(default: T): T {
      if Some? then value else default
    }
  }

  datatype Result<+T, +E> = Ok(value: T) | Err(error: E)

  type CodeUnit = u: int | 0 <= u < 0x1_0000

  type Text = seq<CodeUnit>

  /** A literal as code units. */
  function Ascii(s: string): Text {
    seq(|s|, i requires 0 <= i < |s| => if s[i] as int < 0x80 then s[i] as int else 0)
  }

  const MAX_SAFE_INTEGER: int := 0x1F_FFFF_FFFF_FFFF

  predicate IsSafeInteger(n: int) {
    -MAX_SAFE_INTEGER <= n <= MAX_SAFE_INTEGER
  }

  const MINUS: CodeUnit := '-' as int
  const ZERO: CodeUnit := '0' as int

  predicate IsDigit(u: CodeUnit) {
    '0' as int <= u <= '9' as int
  }

  predicate AllDigits(s: Text) {
    forall i :: 0 <= i < |s| ==> IsDigit(s[i])
  }

  /** The base-10 numeral of `n`, without leading zeros. */
  function Digits(n: nat): (s: Text)
    ensures |s| > 0 && AllDigits(s)
    ensures s[0] == ZERO ==> n == 0 && s == [ZERO]
  {
    if n < 10 then [ZERO + n] else Digits(n / 10) + [ZERO + n % 10]
  }

  /** The number a run of digits denotes. */
  function Value(s: Text): nat
    requires AllDigits(s)
  {
    if s == [] then 0 else 10 * Value(s[..|s| - 1]) + (s[|s| - 1] - ZERO)
  }

  lemma {:induction false} ValueOfDigits(n: nat)
    ensures Value(Digits(n)) == n
  {
    if n >= 10 {
      ValueOfDigits(n / 10);
      assert Digits(n)[..|Digits(n)| - 1] == Digits(n / 10);
    }
  }

  /** A numeral is canonical when it is "0" or does not start with '0'. */
  predicate Canonical(s: Text) {
    |s| > 0 && AllDigits(s) && (s[0] == ZERO ==> |s| == 1)
  }

  lemma {:induction false} DigitsOfValue(s: Text)
    requires Canonical(s)
    ensures Digits(Value(s)) == s
    ensures Value(s) == 0 ==> s == [ZERO]
  {
    var init := s[..|s| - 1];
    if |s| == 1 {
      assert Value(init) == 0;
    } else {
      assert Canonical(init);
      DigitsOfValue(init);
      assert init + [s[|s| - 1]] == s;
    }
  }

  /** `String(n)` for an integer. */
  function Decimal(n: int): (s: Text)
    ensures |s| > 0 && (s[0] == MINUS <==> n < 0)
  {
    if n < 0 then [MINUS] + Digits(-n) else Digits(n)
  }

  lemma DecimalInjective(a: int, b: int)
    requires Decimal(a) == Decimal(b)
    ensures a == b
  {
    if a < 0 {
      assert Decimal(a)[1..] == Digits(-a) && Decimal(b)[1..] == Digits(-b);
      ValueOfDigits(-a);
      ValueOfDigits(-b);
    } else {
      ValueOfDigits(a);
      ValueOfDigits(b);
    }
  }

  /** `left < right` on JavaScript strings: code-unit lexicographic order. */
  predicate TextLess(a: Text, b: Text) {
    b != [] && (a == [] || a[0] < b[0] || (a[0] == b[0] && TextLess(a[1..], b[1..])))
  }

  /** The texts agree on the first `i` units; there `a` ends, or has the smaller unit. */
  ghost predicate LessAt(a: Text, b: Text, i: nat) {
    i <= |a| && i < |b| && a[..i] == b[..i] && (i == |a| || a[i] < b[i])
  }

  lemma LessAtTail(a: Text, b: Text, i: nat)
    requires a != [] && b != [] && a[0] == b[0]
    ensures LessAt(a[1..], b[1..], i) <==> LessAt(a, b, i + 1)
  {
    if i < |a| && i < |b| {
      assert a[..i + 1] == [a[0]] + a[1..][..i] && b[..i + 1] == [b[0]] + b[1..][..i];
      assert a[1..][..i] == a[..i + 1][1..] && b[1..][..i] == b[..i + 1][1..];
    }
  }

  lemma LessAtHead(a: Text, b: Text, i: nat)
    requires LessAt(a, b, i)
    ensures b != [] && (i > 0 ==> a[0] == b[0])
    ensures i == 0 ==> a == [] || a[0] < b[0]
  {
    if i > 0 { assert a[0] == a[..i][0] == b[..i][0] == b[0]; }
  }

  /** Which order that is: a proper prefix comes first, and otherwise the first difference decides. */
  lemma {:induction false} TextLessMeans(a: Text, b: Text)
    ensures TextLess(a, b) <==> exists i :: LessAt(a, b, i)
  {
    if a != [] && b != [] && a[0] == b[0] {
      TextLessMeans(a[1..], b[1..]);
      if i: nat :| LessAt(a[1..], b[1..], i) { LessAtTail(a, b, i); }
      if i: nat :| LessAt(a, b, i) {
        LessAtHead(a, b, i);
        LessAtTail(a, b, i - 1);
      }
    } else {
      if TextLess(a, b) { assert LessAt(a, b, 0); }
      if i: nat :| LessAt(a, b, i) { LessAtHead(a, b, i); }
    }
  }

  lemma {:induction false} TextLessTotal(a: Text, b: Text)
    ensures a == b || TextLess(a, b) || TextLess(b, a)
  {
    if a != [] && b != [] && a[0] == b[0] {
      TextLessTotal(a[1..], b[1..]);
      assert a[1..] == b[1..] ==> a == [a[0]] + a[1..] == [b[0]] + b[1..] == b;
    }
  }

  lemma {:induction false} TextLessAsymmetric(a: Text, b: Text)
    requires TextLess(a, b)
    ensures a != b && !TextLess(b, a)
  {
    if a != [] && a[0] == b[0] {
      TextLessAsymmetric(a[1..], b[1..]);
    }
  }

  lemma {:induction false} TextLessTransitive(a: Text, b: Text, c: Text)
    requires TextLess(a, b) && TextLess(b, c)
    ensures TextLess(a, c)
  {
    if a != [] && a[0] == b[0] == c[0] {
      TextLessTransitive(a[1..], b[1..], c[1..]);
    }
  }
}
