/** Query conditions: the AST, its direct meaning, and its compilation to a predicate. */
module Conditions {
  import opened Texts
  import opened Json
  import opened Paths

  datatype Comparison = Contains | EndsWith | Eq | Gt | Gte | Lt | Lte | Ne | StartsWith

  datatype Where =
    | And(conditions: seq<Where>)
    | Or(conditions: seq<Where>)
    | Not(condition: Where)
    | Compare(op: Comparison, path: Path, value: Json)
    | In(path: Path, values: seq<Json>)

  predicate TextStartsWith(s: Text, t: Text) {
    |t| <= |s| && s[..|t|] == t
  }

  predicate TextEndsWith(s: Text, t: Text) {
    |t| <= |s| && s[|s| - |t|..] == t
  }

  predicate TextIncludes(s: Text, t: Text) {
    exists i :: 0 <= i <= |s| && TextStartsWith(s[i..], t)
  }

  /** `orderedCompare`: numbers with numbers, strings with strings, nothing else. */
  predicate Ordered(source: Option<Json>, value: Json, op: Comparison)
    requires op.Lt? || op.Lte? || op.Gt? || op.Gte?
  {
    match source
    case Some(Num(a)) =>
      value.Num? &&
      (match op case Lt => a < value.n case Lte => a <= value.n case Gt => a > value.n case _ => a >= value.n)
    case Some(Str(a)) =>
      value.Str? &&
      (match op
       case Lt => TextLess(a, value.s)
       case Lte => a == value.s || TextLess(a, value.s)
       case Gt => TextLess(value.s, a)
       case _ => a == value.s || TextLess(value.s, a))
    case _ => false
  }

  predicate CompareValue(op: Comparison, source: Option<Json>, value: Json) {
    match op
    case Eq => source == Some(value)
    case Ne => source != Some(value)
    case Contains =>
      source.Some? &&
      (if source.value.Str? then value.Str? && TextIncludes(source.value.s, value.s)
       else source.value.Arr? && value in source.value.items)
    case StartsWith => source.Some? && source.value.Str? && value.Str? && TextStartsWith(source.value.s, value.s)
    case EndsWith => source.Some? && source.value.Str? && value.Str? && TextEndsWith(source.value.s, value.s)
    case _ => Ordered(source, value, op)
  }

  /** The meaning of a condition, read directly off the AST. */
  predicate Eval(w: Where, doc: Json) {
    match w
    case And(conditions) => forall i :: 0 <= i < |conditions| ==> Eval(conditions[i], doc)
    case Or(conditions) => exists i :: 0 <= i < |conditions| && Eval(conditions[i], doc)
    case Not(condition) => !Eval(condition, doc)
    case Compare(op, path, value) => CompareValue(op, ReadPath(doc, path), value)
    case In(path, values) => ReadPath(doc, path).Some? && ReadPath(doc, path).value in values
  }

  /* ---------- what each operator means ---------- */

  /** Two values that have an order: both numbers or both strings. */
  predicate Alike(a: Option<Json>, b: Json) {
    a.Some? && ((a.value.Num? && b.Num?) || (a.value.Str? && b.Str?))
  }

  /** The text is somewhere in the other. */
  ghost predicate Surrounded(s: Text, t: Text) {
    exists before: Text, after: Text :: s == before + t + after
  }

  lemma IncludesMeans(s: Text, t: Text)
    ensures TextIncludes(s, t) <==> Surrounded(s, t)
  {
    hide TextStartsWith;
    if i :| 0 <= i <= |s| && TextStartsWith(s[i..], t) {
      StartsWithMeans(s[i..], t);
      var after :| s[i..] == t + after;
      assert s == s[..i] + s[i..];
      assert s == s[..i] + t + after;
    }
    if before: Text, after: Text :| s == before + t + after {
      assert s[|before|..] == t + after;
      StartsWithMeans(s[|before|..], t);
    }
  }

  lemma StartsWithMeans(s: Text, t: Text)
    ensures TextStartsWith(s, t) <==> exists after: Text :: s == t + after
  {
    if TextStartsWith(s, t) { assert s == t + s[|t|..]; }
  }

  lemma EndsWithMeans(s: Text, t: Text)
    ensures TextEndsWith(s, t) <==> exists before: Text :: s == before + t
  {
    if TextEndsWith(s, t) { assert s == s[..|s| - |t|] + t; }
  }

  predicate Less(a: Json, b: Json) {
    (a.Num? && b.Num? && a.n < b.n) || (a.Str? && b.Str? && TextLess(a.s, b.s))
  }

  /** What a comparison says about the value it reads, operator by operator. */
  ghost predicate Says(op: Comparison, read: Option<Json>, value: Json) {
    match op
    case Eq => read == Some(value)
    case Ne => read != Some(value)
    case Lt => Alike(read, value) && Less(read.value, value)
    case Lte => Alike(read, value) && (Less(read.value, value) || read.value == value)
    case Gt => Alike(read, value) && Less(value, read.value)
    case Gte => Alike(read, value) && (Less(value, read.value) || read.value == value)
    case Contains =>
      || (exists s, t :: read == Some(Str(s)) && value == Str(t) && Surrounded(s, t))
      || (exists items, i :: read == Some(Arr(items)) && 0 <= i < |items| && items[i] == value)
    case StartsWith => exists t: Text, after: Text :: value == Str(t) && read == Some(Str(t + after))
    case EndsWith => exists t: Text, before: Text :: value == Str(t) && read == Some(Str(before + t))
  }

  lemma CompareMeans(op: Comparison, read: Option<Json>, value: Json)
    ensures CompareValue(op, read, value) <==> Says(op, read, value)
  {
    hide TextIncludes, TextStartsWith, TextEndsWith, TextLess, Surrounded;
    match op
    case Contains =>
      if read.Some? && read.value.Str? && value.Str? { IncludesMeans(read.value.s, value.s); }
    case StartsWith =>
      if read.Some? && read.value.Str? && value.Str? {
        StartsWithMeans(read.value.s, value.s);
        if TextStartsWith(read.value.s, value.s) {
          var after :| read.value.s == value.s + after;
          assert read == Some(Str(value.s + after));
        }
      }
    case EndsWith =>
      if read.Some? && read.value.Str? && value.Str? {
        EndsWithMeans(read.value.s, value.s);
        if TextEndsWith(read.value.s, value.s) {
          var before :| read.value.s == before + value.s;
          assert read == Some(Str(before + value.s));
        }
      }
    case _ =>
  }

  /** What a whole condition says about a document. */
  ghost predicate Holds(w: Where, doc: Json) {
    match w
    case And(conditions) => forall part :: part in conditions ==> Holds(part, doc)
    case Or(conditions) => exists part :: part in conditions && Holds(part, doc)
    case Not(condition) => !Holds(condition, doc)
    case Compare(op, path, value) => Says(op, ReadPath(doc, path), value)
    case In(path, values) => exists value :: value in values && ReadPath(doc, path) == Some(value)
  }

  /** Evaluation finds a document to satisfy a condition exactly when what it says is so. */
  lemma {:induction false} EvalMeans(w: Where, doc: Json)
    ensures Eval(w, doc) <==> Holds(w, doc)
  {
    hide CompareValue, Says, ReadPath;
    match w
    case And(conditions) => forall part | part in conditions { EvalMeans(part, doc); }
    case Or(conditions) => forall part | part in conditions { EvalMeans(part, doc); }
    case Not(condition) => EvalMeans(condition, doc);
    case Compare(op, path, value) => CompareMeans(op, ReadPath(doc, path), value);
    case In(_, _) =>
  }

  /** On a value of another kind, or where there is none, no order holds in either direction; on
      values of one kind exactly one of less, equal and greater does. */
  lemma OrdersMean(path: Path, value: Json, doc: Json)
    ensures var less, more := Eval(Compare(Lt, path, value), doc), Eval(Compare(Gt, path, value), doc);
            var atMost, atLeast := Eval(Compare(Lte, path, value), doc), Eval(Compare(Gte, path, value), doc);
            && (!Alike(ReadPath(doc, path), value) ==> !less && !more && !atMost && !atLeast)
            && (Alike(ReadPath(doc, path), value) ==>
                  && (less <==> !atLeast) && (more <==> !atMost) && !(less && more)
                  && (atMost && atLeast <==> Eval(Compare(Eq, path, value), doc)))
  {
    hide ReadPath, TextLess;
    var read := ReadPath(doc, path);
    if Alike(read, value) && value.Str? {
      TextLessTotal(read.value.s, value.s);
      if TextLess(read.value.s, value.s) { TextLessAsymmetric(read.value.s, value.s); }
      if TextLess(value.s, read.value.s) { TextLessAsymmetric(value.s, read.value.s); }
    }
  }

  /* ---------- compilation ---------- */

  /** `children.every(test => test(document))`. */
  predicate Every(tests: seq<Json -> bool>, doc: Json) {
    tests == [] || (tests[0](doc) && Every(tests[1..], doc))
  }

  predicate Any(tests: seq<Json -> bool>, doc: Json) {
    tests != [] && (tests[0](doc) || Any(tests[1..], doc))
  }

  /** `compile`: closures over the compiled children, built once. */
  function Compile(w: Where): Json -> bool
    decreases w, 0
  {
    match w
    case And(conditions) => var children := CompileAll(conditions); doc => Every(children, doc)
    case Or(conditions) => var children := CompileAll(conditions); doc => Any(children, doc)
    case Not(condition) => var child := Compile(condition); doc => !child(doc)
    case Compare(op, path, value) => doc => CompareValue(op, ReadPath(doc, path), value)
    case In(path, values) =>
      var accepted := set v | v in values;
      doc => var source := ReadPath(doc, path); source.Some? && source.value in accepted
  }

  function CompileAll(ws: seq<Where>): (tests: seq<Json -> bool>)
    ensures |tests| == |ws|
    decreases ws, 1
  {
    if ws == [] then [] else [Compile(ws[0])] + CompileAll(ws[1..])
  }

  lemma EveryAt(tests: seq<Json -> bool>, doc: Json)
    ensures Every(tests, doc) <==> forall i :: 0 <= i < |tests| ==> tests[i](doc)
  {
    if tests != [] {
      EveryAt(tests[1..], doc);
      assert forall i :: 1 <= i < |tests| ==> tests[i] == tests[1..][i - 1];
    }
  }

  lemma AnyAt(tests: seq<Json -> bool>, doc: Json)
    ensures Any(tests, doc) <==> exists i :: 0 <= i < |tests| && tests[i](doc)
  {
    if tests != [] {
      AnyAt(tests[1..], doc);
      assert forall i :: 1 <= i < |tests| ==> tests[i] == tests[1..][i - 1];
    }
  }

  /** The compiled predicate means what the AST means, on every document. */
  lemma {:induction false} CompileMeansEval(w: Where, doc: Json)
    ensures Compile(w)(doc) == Eval(w, doc)
    decreases w, 0
  {
    match w
    case And(conditions) =>
      CompileAllMeansEval(conditions, doc);
      EveryAt(CompileAll(conditions), doc);
    case Or(conditions) =>
      CompileAllMeansEval(conditions, doc);
      AnyAt(CompileAll(conditions), doc);
    case Not(condition) => CompileMeansEval(condition, doc);
    case Compare(_, _, _) =>
    case In(_, _) =>
  }

  lemma {:induction false} CompileAllMeansEval(ws: seq<Where>, doc: Json)
    ensures forall i :: 0 <= i < |ws| ==> CompileAll(ws)[i](doc) == Eval(ws[i], doc)
    decreases ws, 1
  {
    if ws != [] {
      CompileMeansEval(ws[0], doc);
      CompileAllMeansEval(ws[1..], doc);
    }
  }
}
