/** Maps as the engine layers them, first as values. */
module Layers {

  /** A JavaScript Map: insertion order and contents. */
  datatype PlainMap<!K(==, !new), !V> = PlainMap(order: seq<K>, contents: map<K, V>)

  ghost predicate Distinct<K>(s: seq<K>) {
    forall i, j :: 0 <= i < j < |s| ==> s[i] != s[j]
  }

  ghost predicate Lists<K(!new)>(order: seq<K>, keys: set<K>) {
    Distinct(order) && forall k :: k in order <==> k in keys
  }

  ghost predicate WellFormed<K(!new), V>(m: PlainMap<K, V>) {
    Lists(m.order, m.contents.Keys)
  }

  /** `Map.set`: a present key keeps its place. */
  function PlainSet<K(==, !new), V>(m: PlainMap<K, V>, key: K, value: V): PlainMap<K, V> {
    PlainMap(if key in m.contents then m.order else m.order + [key], m.contents[key := value])
  }

  function Unless<K>(skip: bool, key: K): seq<K> {
    if skip then [] else [key]
  }

  function Drop<K(==, !new)>(s: seq<K>, key: K): seq<K> {
    if s == [] then [] else Unless(s[0] == key, s[0]) + Drop(s[1..], key)
  }

  lemma {:induction false} DropMembers<K(!new)>(s: seq<K>, key: K)
    ensures forall k :: k in Drop(s, key) <==> k in s && k != key
  {
    if s != [] { DropMembers(s[1..], key); }
  }

  /** `Map.delete`. */
  function PlainDelete<K(==, !new), V>(m: PlainMap<K, V>, key: K): PlainMap<K, V> {
    PlainMap(Drop(m.order, key), m.contents - {key})
  }

  lemma {:induction false} DropDistinct<K(!new)>(s: seq<K>, key: K)
    requires Distinct(s)
    ensures Distinct(Drop(s, key))
  {
    if s != [] {
      DropDistinct(s[1..], key);
      DropMembers(s[1..], key);
      var rest := Drop(s[1..], key);
      assert forall i :: 0 <= i < |rest| ==> rest[i] in rest && rest[i] in s[1..];
    }
  }

  lemma PlainSetWellFormed<K(!new), V>(m: PlainMap<K, V>, key: K, value: V)
    requires WellFormed(m)
    ensures WellFormed(PlainSet(m, key, value))
    ensures PlainSet(m, key, value).contents == m.contents[key := value]
  {
    if key !in m.contents {
      assert forall i :: 0 <= i < |m.order| ==> m.order[i] in m.order;
    }
  }

  lemma PlainDeleteWellFormed<K(!new), V>(m: PlainMap<K, V>, key: K)
    requires WellFormed(m)
    ensures WellFormed(PlainDelete(m, key))
    ensures PlainDelete(m, key).contents == m.contents - {key}
  {
    DropDistinct(m.order, key);
    DropMembers(m.order, key);
  }

  /** What a layer shows: the map below without the deletions, overridden by the updates. */
  function Layer<K(==, !new), V>(below: map<K, V>, deletions: set<K>, updates: map<K, V>): map<K, V> {
    (below - deletions) + updates
  }

  lemma EmptyLayer<K(!new), V>(below: map<K, V>)
    ensures Layer(below, {}, map[]) == below
    ensures WellFormed(PlainMap<K, V>.PlainMap([], map[]))
  {
  }

  lemma LayerSet<K(!new), V>(below: map<K, V>, deletions: set<K>, updates: map<K, V>, key: K, value: V)
    ensures Layer(below, deletions - {key}, updates[key := value]) == Layer(below, deletions, updates)[key := value]
  {
  }

  lemma LayerDelete<K(!new), V>(below: map<K, V>, deletions: set<K>, updates: map<K, V>, key: K)
    ensures Layer(below, deletions + {key}, updates - {key}) == Layer(below, deletions, updates) - {key}
  {
  }

  lemma OneFewer<K(!new), V>(m: map<K, V>, key: K)
    requires key in m
    ensures |m - {key}| == |m| - 1
  {
    assert (m - {key}).Keys == m.Keys - {key};
    assert |m| == |m.Keys| && |m - {key}| == |(m - {key}).Keys|;
  }

  /* ---------- iteration ---------- */

  /** Every entry is one of the map's. */
  ghost predicate Shows<K(!new), V>(s: seq<(K, V)>, m: map<K, V>) {
    forall i :: 0 <= i < |s| ==> s[i].0 in m && s[i].1 == m[s[i].0]
  }

  /** An iteration yields each key once, with the value the map holds for it. */
  ghost predicate Enumerates<K(!new), V>(s: seq<(K, V)>, m: map<K, V>) {
    Lists(KeysOf(s), m.Keys) && Shows(s, m)
  }

  function KeysOf<K, V>(s: seq<(K, V)>): (r: seq<K>)
    ensures |r| == |s| && forall i :: 0 <= i < |s| ==> r[i] == s[i].0
  {
    seq(|s|, i requires 0 <= i < |s| => s[i].0)
  }

  /** The base's entries that survive, with updated values, in the base's order. */
  function Kept<K(==, !new), V>(below: seq<(K, V)>, deletions: set<K>, updates: map<K, V>): seq<(K, V)> {
    if below == [] then []
    else
      var (key, value) := below[|below| - 1];
      Kept(below[..|below| - 1], deletions, updates)
      + (if key in deletions then [] else [(key, if key in updates then updates[key] else value)])
  }

  /** The updated keys that the base does not have. */
  function Added<K(==, !new), V>(order: seq<K>, updates: map<K, V>, below: map<K, V>): seq<(K, V)> {
    if order == [] then []
    else
      var key := order[|order| - 1];
      Added(order[..|order| - 1], updates, below)
      + (if key in below || key !in updates then [] else [(key, updates[key])])
  }

  lemma NothingKept<K(!new), V>(deletions: set<K>, updates: map<K, V>, below: map<K, V>)
    ensures Kept([], deletions, updates) == [] && Added([], updates, below) == []
  {
  }

  lemma KeptNext<K(!new), V>(below: seq<(K, V)>, deletions: set<K>, updates: map<K, V>, i: nat)
    requires i < |below|
    ensures var (key, value) := below[i];
            Kept(below[..i + 1], deletions, updates) == Kept(below[..i], deletions, updates)
              + (if key in deletions then [] else [(key, if key in updates then updates[key] else value)])
  {
    assert below[..i + 1][..i] == below[..i];
  }

  lemma AddedNext<K(!new), V>(order: seq<K>, updates: map<K, V>, below: map<K, V>, i: nat)
    requires i < |order|
    ensures var key := order[i];
            Added(order[..i + 1], updates, below) == Added(order[..i], updates, below)
              + (if key in below || key !in updates then [] else [(key, updates[key])])
  {
    assert order[..i + 1][..i] == order[..i];
  }

  lemma {:induction false} KeptKeys<K(!new), V>(below: seq<(K, V)>, deletions: set<K>, updates: map<K, V>)
    requires Distinct(KeysOf(below))
    ensures var s := Kept(below, deletions, updates);
            && Distinct(KeysOf(s))
            && forall k :: k in KeysOf(s) <==> k in KeysOf(below) && k !in deletions
  {
    if below != [] {
      var init := below[..|below| - 1];
      assert KeysOf(below) == KeysOf(init) + [below[|below| - 1].0];
      assert forall i :: 0 <= i < |init| ==> KeysOf(below)[i] == KeysOf(init)[i];
      KeptKeys(init, deletions, updates);
      var s, s0 := Kept(below, deletions, updates), Kept(init, deletions, updates);
      var key := below[|below| - 1].0;
      if key !in deletions {
        assert KeysOf(s) == KeysOf(s0) + [key];
        assert forall i :: 0 <= i < |s0| ==> KeysOf(s0)[i] in KeysOf(s0);
      } else {
        assert s == s0;
      }
    }
  }

  lemma {:induction false} KeptValues<K(!new), V>(below: seq<(K, V)>, deletions: set<K>, updates: map<K, V>,
                                                  m: map<K, V>)
    requires Shows(below, m)
    requires deletions !! updates.Keys
    ensures Shows(Kept(below, deletions, updates), Layer(m, deletions, updates))
  {
    if below != [] {
      var init, last := below[..|below| - 1], below[|below| - 1];
      assert Shows(init, m);
      KeptValues(init, deletions, updates, m);
      assert last.0 in m && last.1 == m[last.0];
    }
  }

  lemma {:induction false} AddedKeys<K(!new), V>(order: seq<K>, updates: map<K, V>, below: map<K, V>)
    requires Distinct(order)
    ensures var s := Added(order, updates, below);
            && Distinct(KeysOf(s))
            && (forall k :: k in KeysOf(s) <==> k in order && k in updates && k !in below)
            && forall i :: 0 <= i < |s| ==> s[i].0 in updates && s[i].1 == updates[s[i].0]
  {
    if order != [] {
      var init := order[..|order| - 1];
      AddedKeys(init, updates, below);
      var s, s0 := Added(order, updates, below), Added(init, updates, below);
      var key := order[|order| - 1];
      if key !in below && key in updates {
        assert KeysOf(s) == KeysOf(s0) + [key];
        assert forall i :: 0 <= i < |s0| ==> KeysOf(s0)[i] in KeysOf(s0);
      } else {
        assert s == s0;
      }
    }
  }

  lemma DistinctConcat<K(!new)>(a: seq<K>, b: seq<K>)
    requires Distinct(a) && Distinct(b) && forall k :: k in a ==> k !in b
    ensures Distinct(a + b)
  {
    assert forall i :: 0 <= i < |a| ==> a[i] in a;
    assert forall i :: 0 <= i < |b| ==> b[i] in b;
  }

  /** The two halves of the iteration together enumerate the layer. */
  lemma IterationEnumerates<K(!new), V>(below: seq<(K, V)>, m: map<K, V>, deletions: set<K>, updates: PlainMap<K, V>)
    requires Enumerates(below, m) && WellFormed(updates) && deletions !! updates.contents.Keys
    ensures Enumerates(Kept(below, deletions, updates.contents) + Added(updates.order, updates.contents, m),
                       Layer(m, deletions, updates.contents))
  {
    hide Kept, Added;
    var kept, added := Kept(below, deletions, updates.contents), Added(updates.order, updates.contents, m);
    KeptKeys(below, deletions, updates.contents);
    KeptValues(below, deletions, updates.contents, m);
    AddedKeys(updates.order, updates.contents, m);
    assert KeysOf(kept + added) == KeysOf(kept) + KeysOf(added);
    DistinctConcat(KeysOf(kept), KeysOf(added));
  }

  /** `new Map(entries)`. */
  function Collect<K(==, !new), V>(s: seq<(K, V)>): PlainMap<K, V> {
    if s == [] then PlainMap([], map[]) else PlainSet(Collect(s[..|s| - 1]), s[|s| - 1].0, s[|s| - 1].1)
  }

  lemma {:induction false} CollectKeys<K(!new), V>(s: seq<(K, V)>)
    requires Distinct(KeysOf(s))
    ensures WellFormed(Collect(s))
    ensures Collect(s).order == KeysOf(s)
    ensures forall i :: 0 <= i < |s| ==> s[i].0 in Collect(s).contents && Collect(s).contents[s[i].0] == s[i].1
  {
    if s != [] {
      var init, last := s[..|s| - 1], s[|s| - 1];
      assert KeysOf(s) == KeysOf(init) + [last.0];
      assert forall i :: 0 <= i < |init| ==> KeysOf(s)[i] == KeysOf(init)[i];
      CollectKeys(init);
      PlainSetWellFormed(Collect(init), last.0, last.1);
      assert last.0 !in KeysOf(init);
      assert forall i :: 0 <= i < |init| ==> s[i] == init[i];
    }
  }

  lemma EnumeratesCollects<K(!new), V>(s: seq<(K, V)>, m: map<K, V>)
    requires Enumerates(s, m)
    ensures WellFormed(Collect(s)) && Collect(s).contents == m
  {
    CollectKeys(s);
    assert forall k :: k in m ==> k in KeysOf(s);
    assert Collect(s).contents.Keys == m.Keys;
    forall k | k in m
      ensures Collect(s).contents[k] == m[k]
    {
      var i :| 0 <= i < |s| && KeysOf(s)[i] == k;
    }
  }

  /* ---------- the place of a key that is deleted and set again ---------- */

  /** The keys that are not below, in order. */
  function NotBelow<K(==, !new), V>(order: seq<K>, below: map<K, V>): seq<K> {
    if order == [] then [] else Unless(order[0] in below, order[0]) + NotBelow(order[1..], below)
  }

  lemma {:induction false} NotBelowMembers<K(!new), V>(order: seq<K>, below: map<K, V>)
    ensures forall k :: k in NotBelow(order, below) <==> k in order && k !in below
  {
    if order != [] { NotBelowMembers(order[1..], below); }
  }

  lemma Regroup<K>(a: seq<K>, b: seq<K>, c: seq<K>)
    ensures a + (b + c) == a + b + c
  {
  }

  lemma {:induction false} NotBelowConcat<K(!new), V>(a: seq<K>, b: seq<K>, below: map<K, V>)
    ensures NotBelow(a + b, below) == NotBelow(a, below) + NotBelow(b, below)
  {
    hide Unless;
    if a == [] {
      assert a + b == b;
    } else {
      NotBelowConcat(a[1..], b, below);
      assert (a + b)[1..] == a[1..] + b;
      Regroup(Unless(a[0] in below, a[0]), NotBelow(a[1..], below), NotBelow(b, below));
    }
  }

  lemma {:induction false} DropConcat<K(!new)>(a: seq<K>, b: seq<K>, key: K)
    ensures Drop(a + b, key) == Drop(a, key) + Drop(b, key)
  {
    hide Unless;
    if a == [] {
      assert a + b == b;
    } else {
      DropConcat(a[1..], b, key);
      assert (a + b)[1..] == a[1..] + b;
      Regroup(Unless(a[0] == key, a[0]), Drop(a[1..], key), Drop(b, key));
    }
  }

  lemma {:induction false} DropAbsent<K(!new)>(s: seq<K>, key: K)
    requires key !in s
    ensures Drop(s, key) == s
  {
    if s != [] {
      DropAbsent(s[1..], key);
      assert s == [s[0]] + s[1..];
    }
  }

  lemma {:induction false} DropNotBelow<K(!new), V>(order: seq<K>, key: K, below: map<K, V>)
    ensures NotBelow(Drop(order, key), below) == Drop(NotBelow(order, below), key)
  {
    if order != [] {
      DropNotBelow(order[1..], key, below);
      DropConcat(Unless(order[0] in below, order[0]), NotBelow(order[1..], below), key);
      NotBelowConcat(Unless(order[0] == key, order[0]), Drop(order[1..], key), below);
    }
  }

  lemma AddedLast<K(!new), V>(order: seq<K>, updates: map<K, V>, below: map<K, V>)
    requires order != [] && order[|order| - 1] in updates
    ensures var init, last := order[..|order| - 1], order[|order| - 1];
            KeysOf(Added(order, updates, below)) == KeysOf(Added(init, updates, below)) + Unless(last in below, last)
  {
  }

  lemma {:induction false} AddedAre<K(!new), V>(order: seq<K>, updates: map<K, V>, below: map<K, V>)
    requires forall k :: k in order ==> k in updates
    ensures KeysOf(Added(order, updates, below)) == NotBelow(order, below)
  {
    hide KeysOf, Unless;
    if order != [] {
      var init, last := order[..|order| - 1], order[|order| - 1];
      AddedAre(init, updates, below);
      NotBelowConcat(init, [last], below);
      assert order == init + [last];
      AddedLast(order, updates, below);
      assert NotBelow([last], below) == Unless(last in below, last);
    }
  }

  lemma {:induction false} KeptSameKeys<K(!new), V>(below: seq<(K, V)>, deletions: set<K>, u: map<K, V>, v: map<K, V>)
    ensures KeysOf(Kept(below, deletions, u)) == KeysOf(Kept(below, deletions, v))
  {
    if below != [] {
      var init, key := below[..|below| - 1], below[|below| - 1].0;
      KeptSameKeys(init, deletions, u, v);
      assert KeysOf(Kept(below, deletions, u))
          == KeysOf(Kept(init, deletions, u)) + if key in deletions then [] else [key];
      assert KeysOf(Kept(below, deletions, v))
          == KeysOf(Kept(init, deletions, v)) + if key in deletions then [] else [key];
    }
  }

  /** What an iteration of a layer yields. */
  function Iterated<K(==, !new), V>(below: seq<(K, V)>, m: map<K, V>, deletions: set<K>,
                                    updates: PlainMap<K, V>): seq<(K, V)> {
    Kept(below, deletions, updates.contents) + Added(updates.order, updates.contents, m)
  }

  lemma IteratedKeys<K(!new), V>(below: seq<(K, V)>, m: map<K, V>, deletions: set<K>, updates: PlainMap<K, V>)
    requires WellFormed(updates)
    ensures KeysOf(Iterated(below, m, deletions, updates))
         == KeysOf(Kept(below, deletions, updates.contents)) + NotBelow(updates.order, m)
  {
    AddedAre(updates.order, updates.contents, m);
  }

  lemma MovedLast<K(!new), V>(order: seq<K>, below: map<K, V>, key: K)
    ensures NotBelow(Drop(order, key) + [key], below)
         == if key in below then NotBelow(order, below) else Drop(NotBelow(order, below), key) + [key]
  {
    NotBelowConcat(Drop(order, key), [key], below);
    DropNotBelow(order, key, below);
    assert NotBelow([key], below) == Unless(key in below, key);
    if key in below {
      NotBelowMembers(order, below);
      DropAbsent(NotBelow(order, below), key);
    }
  }

  lemma LayerHas<K(!new), V>(m: map<K, V>, deletions: set<K>, updates: map<K, V>, key: K)
    requires deletions !! updates.Keys && key in Layer(m, deletions, updates)
    ensures deletions + {key} - {key} == deletions
  {
  }

  /** A key deleted and set again goes to the end, as in a Map, exactly when the map below does not
      have it; otherwise it keeps its old place, where a Map would move it to the end. */
  lemma ReinsertedKeepsPlace<K(!new), V>(below: seq<(K, V)>, m: map<K, V>, deletions: set<K>, updates: PlainMap<K, V>,
                                         key: K, value: V)
    requires Enumerates(below, m) && WellFormed(updates) && deletions !! updates.contents.Keys
    requires key in Layer(m, deletions, updates.contents)
    ensures var before := KeysOf(Iterated(below, m, deletions, updates));
            var after := KeysOf(Iterated(below, m, deletions + {key} - {key},
                                         PlainSet(PlainDelete(updates, key), key, value)));
            after == if key in m then before else Drop(before, key) + [key]
  {
    hide Kept, Added, Iterated, KeysOf, Drop, NotBelow, Layer, Shows;
    var updates' := PlainSet(PlainDelete(updates, key), key, value);
    LayerHas(m, deletions, updates.contents, key);
    PlainDeleteWellFormed(updates, key);
    PlainSetWellFormed(PlainDelete(updates, key), key, value);
    IteratedKeys(below, m, deletions, updates);
    IteratedKeys(below, m, deletions, updates');
    KeptSameKeys(below, deletions, updates.contents, updates'.contents);
    MovedLast(updates.order, m, key);
    if key !in m {
      KeptKeys(below, deletions, updates.contents);
      DropConcat(KeysOf(Kept(below, deletions, updates.contents)), NotBelow(updates.order, m), key);
      DropAbsent(KeysOf(Kept(below, deletions, updates.contents)), key);
      Regroup(KeysOf(Kept(below, deletions, updates.contents)), Drop(NotBelow(updates.order, m), key), [key]);
    }
  }
}

/** The overlay object: one mutable layer over a sealed chain. */
module Overlays {
  import opened Texts
  import opened Layers

  const MAX_DEPTH: nat := 32

  /** What a layer stands on: a map nobody writes any more, or a sealed layer. */
  datatype Base<!K(==, !new), !V> = Plain(entries: PlainMap<K, V>) | Layered(overlay: OverlayMap<K, V>)

  class OverlayMap<K(==, !new), V> {
    const base: Base<K, V>
    const depth: nat
    var deletions: set<K>
    var updates: PlainMap<K, V>
    var size: nat
    var sealed: bool
    ghost const below: map<K, V>
    ghost var contents: map<K, V>
    ghost const Repr: set<object>

    /** The part of the invariant about the layers below, which no write to this layer affects. */
    ghost predicate Grounded()
      reads Repr
      decreases depth, 0
    {
      && this in Repr
      && match base
         case Plain(m) => depth == 1 && WellFormed(m) && below == m.contents
         case Layered(o) =>
           && depth == o.depth + 1 <= MAX_DEPTH
           && o in Repr && o.Repr <= Repr && this !in o.Repr
           && o.Valid()
           && o.sealed
           && below == o.contents
    }

    /** The part about this layer's own state. */
    ghost predicate Local()
      reads this
    {
      && WellFormed(updates)
      && deletions !! updates.contents.Keys
      && contents == Layer(below, deletions, updates.contents)
      && size == |contents|
    }

    ghost predicate Valid()
      reads Repr
      ensures Valid() ==> this in Repr && depth <= MAX_DEPTH
      decreases depth, 1
    {
      Grounded() && Local()
    }

    /** What an iteration yields. */
    ghost function Iteration(): seq<(K, V)>
      requires Valid()
      reads Repr
      decreases depth, 0
    {
      Iterated(BelowIteration(), below, deletions, updates)
    }

    ghost function BelowIteration(): (s: seq<(K, V)>)
      requires Grounded()
      reads Repr
      decreases depth - 1, 1
    {
      match base
      case Plain(m) => PlainIteration(m)
      case Layered(o) => o.Iteration()
    }

    constructor (base: Base<K, V>)
      requires BaseValid(base)
      ensures Valid() && !sealed
      ensures this.base == base && contents == BaseContents(base)
      ensures Repr == {this} + BaseRepr(base)
    {
      hide Layer, WellFormed;
      EmptyLayer(BaseContents(base));
      var count := BaseSize(base);
      this.base := base;
      this.depth := if base.Layered? then base.overlay.depth + 1 else 1;
      deletions := {};
      updates := PlainMap([], map[]);
      size := count;
      sealed := false;
      below := BaseContents(base);
      contents := BaseContents(base);
      Repr := {this} + BaseRepr(base);
    }

    method Get(key: K) returns (value: Option<V>)
      requires Valid()
      ensures value == if key in contents then Some(contents[key]) else None
      decreases depth
    {
      if key in updates.contents { return Some(updates.contents[key]); }
      if key in deletions { return None; }
      match base
      case Plain(m) => value := if key in m.contents then Some(m.contents[key]) else None;
      case Layered(o) => value := o.Get(key);
    }

    method Has(key: K) returns (present: bool)
      requires Valid()
      ensures present <==> key in contents
      decreases depth
    {
      if key in updates.contents { return true; }
      if key in deletions { return false; }
      match base
      case Plain(m) => present := key in m.contents;
      case Layered(o) => present := o.Has(key);
    }

    /** Refused, without effect, once sealed. */
    method Set(key: K, value: V) returns (ok: bool)
      requires Valid()
      modifies this
      ensures Valid() && sealed == old(sealed) && ok == !sealed
      ensures contents == if ok then old(contents)[key := value] else old(contents)
      ensures ok ==> deletions == old(deletions) - {key} && updates == PlainSet(old(updates), key, value)
    {
      hide WellFormed, Layer, PlainSet, PlainDelete;
      if sealed { return false; }
      var existed := Has(key);
      PlainSetWellFormed(updates, key, value);
      LayerSet(below, deletions, updates.contents, key, value);
      deletions := deletions - {key};
      updates := PlainSet(updates, key, value);
      if !existed { size := size + 1; }
      contents := contents[key := value];
      return true;
    }

    /** The source throws when sealed; otherwise tells whether the key was there. */
    method Delete(key: K) returns (deleted: Option<bool>)
      requires Valid()
      modifies this
      ensures Valid() && sealed == old(sealed)
      ensures deleted == if sealed then None else Some(key in old(contents))
      ensures contents == if sealed then old(contents) else old(contents) - {key}
      ensures deleted == Some(true) ==> deletions == old(deletions) + {key} && updates == PlainDelete(old(updates), key)
    {
      hide WellFormed, Layer, PlainSet, PlainDelete;
      if sealed { return None; }
      var present := Has(key);
      if !present {
        assert contents - {key} == contents;
        return Some(false);
      }
      PlainDeleteWellFormed(updates, key);
      LayerDelete(below, deletions, updates.contents, key);
      OneFewer(contents, key);
      updates := PlainDelete(updates, key);
      deletions := deletions + {key};
      size := size - 1;
      contents := contents - {key};
      return Some(true);
    }

    /** `#iterateEntries`: the base in its own order without the deletions, then the new keys. */
    method Entries() returns (s: seq<(K, V)>)
      requires Valid()
      ensures Enumerates(s, contents) && s == Iteration()
      decreases depth, 0
    {
      hide Layer, Enumerates, Kept, Added;
      var lower := BaseEntries(base);
      s := [];
      NothingKept(deletions, updates.contents, below);
      for i := 0 to |lower|
        invariant s == Kept(lower[..i], deletions, updates.contents)
      {
        var (key, value) := lower[i];
        KeptNext(lower, deletions, updates.contents, i);
        if key !in deletions {
          s := s + [(key, if key in updates.contents then updates.contents[key] else value)];
        }
      }
      assert lower[..|lower|] == lower;
      ghost var kept := s;
      for i := 0 to |updates.order|
        invariant s == kept + Added(updates.order[..i], updates.contents, below)
      {
        var key := updates.order[i];
        AddedNext(updates.order, updates.contents, below, i);
        var present := BaseHas(base, key);
        if !present { s := s + [(key, updates.contents[key])]; }
      }
      assert updates.order[..|updates.order|] == updates.order;
      IterationEnumerates(lower, below, deletions, updates);
    }

    /** Deleting a key and setting it again: it keeps its place in the iteration exactly when the
        layers below have it, and goes to the end otherwise. */
    method Reinsert(key: K, value: V)
      requires Valid() && !sealed && key in contents
      modifies this
      ensures Valid() && !sealed && contents == old(contents)[key := value]
      ensures KeysOf(Iteration()) ==
                if key in below then KeysOf(old(Iteration())) else Drop(KeysOf(old(Iteration())), key) + [key]
    {
      hide Layer, Enumerates, Iterated, WellFormed, PlainSet, PlainDelete;
      ghost var lower := BelowIteration();
      BelowEnumerated();
      ReinsertedKeepsPlace(lower, below, deletions, updates, key, value);
      var _ := Delete(key);
      var _ := Set(key, value);
    }

    lemma BelowEnumerated()
      requires Grounded()
      ensures Enumerates(BelowIteration(), below)
      decreases depth - 1, 1
    {
      match base
      case Plain(m) => PlainEnumerated(m);
      case Layered(o) => o.Enumerated();
    }

    lemma Enumerated()
      requires Valid()
      ensures Enumerates(Iteration(), contents)
      decreases depth, 0
    {
      hide Enumerates, WellFormed;
      BelowEnumerated();
      IterationEnumerates(BelowIteration(), below, deletions, updates);
    }

    /** Seals this layer and returns what the next layer should stand on: this layer, or a
        compacted copy when the chain is deep or this layer has changed a lot. */
    method Seal() returns (result: Base<K, V>)
      requires Valid()
      modifies this`sealed
      ensures Valid() && sealed
      ensures BaseValid(result) && BaseContents(result) == contents
      ensures BaseRepr(result) <= Repr
      ensures result.Layered? ==> result.overlay == this
      ensures result.Layered? <==>
                depth < MAX_DEPTH && |deletions| + |updates.contents| < Max(256, (|below| + 3) / 4)
    {
      hide WellFormed, Layer, Enumerates, Collect;
      sealed := true;
      var lower := BaseSize(base);
      if depth >= MAX_DEPTH || |deletions| + |updates.contents| >= Max(256, (lower + 3) / 4) {
        var s := Entries();
        EnumeratesCollects(s, contents);
        result := Plain(Collect(s));
      } else {
        result := Layered(this);
      }
    }
  }

  ghost function BaseRepr<K(!new), V>(b: Base<K, V>): set<object> {
    match b
    case Plain(_) => {}
    case Layered(o) => o.Repr
  }

  ghost function BaseContents<K(!new), V>(b: Base<K, V>): map<K, V>
    reads if b.Layered? then {b.overlay} else {}
  {
    match b
    case Plain(m) => m.contents
    case Layered(o) => o.contents
  }

  ghost predicate BaseValid<K(!new), V>(b: Base<K, V>)
    reads BaseRepr(b), if b.Layered? then {b.overlay} else {}
  {
    match b
    case Plain(m) => WellFormed(m)
    case Layered(o) => o.Valid() && o.sealed && o.depth < MAX_DEPTH
  }

  function Max(a: int, b: int): int {
    if a > b then a else b
  }

  method BaseSize<K(!new), V>(b: Base<K, V>) returns (n: nat)
    requires BaseValid(b)
    ensures n == |BaseContents(b)|
  {
    match b
    case Plain(m) => n := |m.contents|;
    case Layered(o) => n := o.size;
  }

  method BaseHas<K(!new), V>(b: Base<K, V>, key: K) returns (present: bool)
    requires BaseValid(b)
    ensures present <==> key in BaseContents(b)
  {
    match b
    case Plain(m) => present := key in m.contents;
    case Layered(o) => present := o.Has(key);
  }

  method BaseGet<K(!new), V>(b: Base<K, V>, key: K) returns (value: Option<V>)
    requires BaseValid(b)
    ensures value == if key in BaseContents(b) then Some(BaseContents(b)[key]) else None
  {
    match b
    case Plain(m) => value := if key in m.contents then Some(m.contents[key]) else None;
    case Layered(o) => value := o.Get(key);
  }

  ghost function BaseIteration<K(!new), V>(b: Base<K, V>): seq<(K, V)>
    requires BaseValid(b)
    reads BaseRepr(b), if b.Layered? then {b.overlay} else {}
  {
    match b
    case Plain(m) => PlainIteration(m)
    case Layered(o) => o.Iteration()
  }

  method BaseEntries<K(!new), V>(b: Base<K, V>) returns (s: seq<(K, V)>)
    requires BaseValid(b)
    ensures Enumerates(s, BaseContents(b)) && s == BaseIteration(b)
    decreases if b.Layered? then b.overlay.depth else 0, 1
  {
    match b
    case Plain(m) =>
      s := PlainEntries(m);
    case Layered(o) => s := o.Entries();
  }

  function PlainIteration<K(!new), V>(m: PlainMap<K, V>): seq<(K, V)>
    requires WellFormed(m)
  {
    seq(|m.order|, i requires 0 <= i < |m.order| && m.order[i] in m.contents => (m.order[i], m.contents[m.order[i]]))
  }

  lemma PlainEnumerated<K(!new), V>(m: PlainMap<K, V>)
    requires WellFormed(m)
    ensures Enumerates(PlainIteration(m), m.contents)
  {
    assert KeysOf(PlainIteration(m)) == m.order;
  }

  method PlainEntries<K(!new), V>(m: PlainMap<K, V>) returns (s: seq<(K, V)>)
    requires WellFormed(m)
    ensures Enumerates(s, m.contents) && s == PlainIteration(m)
  {
    PlainEnumerated(m);
    s := seq(|m.order|,
             i requires 0 <= i < |m.order| && m.order[i] in m.contents => (m.order[i], m.contents[m.order[i]]));
  }

  datatype Edit<K, V> = Assign(key: K, value: V) | Remove(key: K) | Relayer

  /** What a list of edits does to one flat map. */
  function Flat<K(==, !new), V>(m: map<K, V>, edits: seq<Edit<K, V>>): map<K, V>
    decreases |edits|
  {
    if edits == [] then m
    else
      var before := Flat(m, edits[..|edits| - 1]);
      match edits[|edits| - 1]
      case Assign(key, value) => before[key := value]
      case Remove(key) => before - {key}
      case Relayer => before
  }

  /** One edit of the top layer, or a new one on its sealed result. */
  method ApplyEdit<K(!new), V>(top: OverlayMap<K, V>, edit: Edit<K, V>) returns (next: OverlayMap<K, V>)
    requires top.Valid() && !top.sealed
    modifies top
    ensures next.Valid() && !next.sealed
    ensures next == top || fresh(next)
    ensures next.Repr <= {next} + top.Repr
    ensures next.contents ==
              match edit
              case Assign(key, value) => old(top.contents)[key := value]
              case Remove(key) => old(top.contents) - {key}
              case Relayer => old(top.contents)
  {
    hide OverlayMap.Local, WellFormed, Layer;
    next := top;
    match edit
    case Assign(key, value) => var _ := top.Set(key, value);
    case Remove(key) => var _ := top.Delete(key);
    case Relayer =>
      var stored := top.Seal();
      next := new OverlayMap(stored);
  }

  /** Any sequence of edits, sealing and building a new layer on the result wherever it says so:
      the top layer's lookups, size and iteration are those of the one flat map, and the chain
      under it is never deeper than the bound. */
  method Replayed<K(!new), V>(start: PlainMap<K, V>, edits: seq<Edit<K, V>>, probe: K)
    returns (top: OverlayMap<K, V>, found: Option<V>, entries: seq<(K, V)>)
    requires WellFormed(start)
    ensures top.Valid() && !top.sealed && top.depth <= MAX_DEPTH
    ensures top.size == |Flat(start.contents, edits)|
    ensures var flat := Flat(start.contents, edits);
            found == (if probe in flat then Some(flat[probe]) else None) && Enumerates(entries, flat)
  {
    hide OverlayMap.Valid, WellFormed, Enumerates;
    top := new OverlayMap(Plain(start));
    for i := 0 to |edits|
      invariant fresh(top) && fresh(top.Repr) && top.Valid() && !top.sealed
      invariant top.contents == Flat(start.contents, edits[..i])
    {
      assert edits[..i + 1][..i] == edits[..i];
      top := ApplyEdit(top, edits[i]);
    }
    assert edits[..|edits|] == edits;
    found := top.Get(probe);
    entries := top.Entries();
    TopFacts(top);
  }

  lemma TopFacts<K(!new), V>(top: OverlayMap<K, V>)
    requires top.Valid()
    ensures top.depth <= MAX_DEPTH && top.size == |top.contents|
  {
  }
}
