/** Immutable JSON values. Objects keep their members in property order. */
module Json {
  import opened Texts

  datatype Json =
    | Null
    | Bool(b: bool)
    | Num(n: int)
    | Str(s: Text)
    | Arr(items: seq<Json>)
    | Obj(members: seq<Member>)

  datatype Member = Member(name: Text, value: Json)

  predicate IsPrimitive(v: Json) {
    v.Null? || v.Bool? || v.Num? || v.Str?
  }

  /** Own-property lookup. */
  function Lookup(members: seq<Member>, name: Text): Option<Json> {
    if members == [] then None
    else if members[0].name == name then Some(members[0].value)
    else Lookup(members[1..], name)
  }

  /** Defining a property: an existing one keeps its place, a new one goes last. */
  function Define(members: seq<Member>, name: Text, value: Json): (r: seq<Member>)
    ensures Lookup(r, name) == Some(value)
    ensures forall other :: other != name ==> Lookup(r, other) == Lookup(members, other)
  {
    if members == [] then
      var r := [Member(name, value)];
      assert r[1..] == [];
      r
    else if members[0].name == name then [Member(name, value)] + members[1..]
    else [members[0]] + Define(members[1..], name, value)
  }

  /** Spreading `patch` over `base`, one property at a time. */
  function Merge(base: seq<Member>, patch: seq<Member>): seq<Member>
    decreases |patch|
  {
    if patch == [] then base else Merge(Define(base, patch[0].name, patch[0].value), patch[1..])
  }
}
