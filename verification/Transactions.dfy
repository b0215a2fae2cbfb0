/** Transactions as objects over a database object. Each keeps a ghost copy of the values it
    represents, and every method does to the objects what the state machine does to the value. */
module Transactions {
  import opened Texts
  import opened Json
  import opened Keys
  import opened Collections
  import opened Conditions
  import opened Overlays
  import opened WorkingSets
  import Commits
  import Engine
  import Operations
  import Queries

  /** The objects behind a table of working collections, and the values they represent:
      `own` are the objects only this table writes, `reach` those and all they stand on. */
  datatype Held = Held(own: set<object>, reach: set<object>, keySets: set<KeySet>, shown: map<Text, Coll>)

  const NOTHING: Held := Held({}, {}, {}, map[])

  /** A usable working collection that represents this value, all within these objects. */
  ghost predicate Alive(w: WorkingCollection, c: Coll, reach: set<object>, keySets: set<KeySet>)
    reads reach, keySets
  {
    w.Reach() <= reach && KeySets(w.indexes) <= keySets && w.Abs() == c && w.Valid()
  }

  /** A published collection: sealed, within these objects, and representing this value. */
  ghost predicate Published(s: StoredCollection, c: Coll, reach: set<object>, keySets: set<KeySet>)
    reads reach, keySets
  {
    StoredReach(s) <= reach && SealedKeySets(s.indexes) <= keySets && StoredSealed(s) && StoredAbs(s) == c
  }

  ghost predicate Shows(w: WorkingCollection, c: Coll, held: Held)
    reads held.reach, held.keySets
  {
    && w.Footprint() <= held.own <= held.reach
    && w.Reach() <= held.reach
    && Alive(w, c, w.Reach(), held.keySets)
  }

  /** Each working collection shows its value, and none can write what another reads. */
  ghost predicate AllShow(working: map<Text, WorkingCollection>, held: Held)
    reads held.reach, held.keySets
  {
    && working.Keys == held.shown.Keys
    && NoKeySets(held.own)
    && held.own <= held.reach
    && (forall n :: n in working ==> Shows(working[n], held.shown[n], held))
    && forall n, m :: n in working && m in working && n != m ==> working[n].Footprint() !! working[m].Reach()
  }

  ghost function HeldWith(held: Held, name: Text, w: WorkingCollection, c: Coll): Held
    reads Own(w.indexes)
  {
    Held(held.own + w.Footprint(), held.reach + w.Reach(), held.keySets + KeySets(w.indexes), held.shown[name := c])
  }

  lemma ShowsMore(w: WorkingCollection, c: Coll, held: Held, more: Held)
    requires Shows(w, c, held)
    requires held.own <= more.own <= more.reach && held.reach <= more.reach && held.keySets <= more.keySets
    ensures Shows(w, c, more)
  {
    hide WorkingCollection.Valid, WorkingCollection.Abs, WorkingCollection.Reach, WorkingCollection.Footprint;
  }

  /** One working collection showing a new value, the rest unaffected. */
  lemma AllShowAfter(working: map<Text, WorkingCollection>, held: Held, name: Text, c: Coll)
    requires name in working && working.Keys == held.shown.Keys && NoKeySets(held.own) && held.own <= held.reach
    requires forall n :: n in working && n != name ==> Shows(working[n], held.shown[n], held)
    requires forall n, m :: n in working && m in working && n != m ==> working[n].Footprint() !! working[m].Reach()
    requires working[name].Footprint() <= held.own && working[name].Reach() <= held.reach
    requires Alive(working[name], c, working[name].Reach(), held.keySets + KeySets(working[name].indexes))
    ensures AllShow(working, held.(shown := held.shown[name := c],
                                   keySets := held.keySets + KeySets(working[name].indexes)))
  {
    hide WorkingCollection.Valid, WorkingCollection.Abs, WorkingCollection.Reach, WorkingCollection.Footprint;
    var more := held.(shown := held.shown[name := c], keySets := held.keySets + KeySets(working[name].indexes));
    forall n | n in working && n != name
      ensures Shows(working[n], held.shown[n], more)
    {
      ShowsMore(working[n], held.shown[n], held, more);
    }
  }

  method WriteAlive(w: WorkingCollection, ghost c: Coll, ghost keySets: set<KeySet>, write: Write) returns (r: Written)
    requires Alive(w, c, w.Reach(), keySets) && Collections.Valid(c)
    modifies w.Footprint()
    ensures r == WrittenOf(Collections.Apply(c, write))
    ensures Alive(w, Collections.Apply(c, write).coll, w.Reach(), keySets + KeySets(w.indexes))
  {
    hide WorkingCollection.Valid, WorkingCollection.Abs, WorkingCollection.Reach, WorkingCollection.Footprint;
    hide Collections.Valid, Collections.Apply, WrittenOf;
    r := w.Apply(write);
  }

  /** One write to one collection of a table, and what the table then shows. */
  method WriteOne(ghost working: map<Text, WorkingCollection>, ghost held: Held, ghost name: Text,
                  w: WorkingCollection, write: Write) returns (r: Written)
    requires AllShow(working, held) && name in working && working[name] == w
    requires Collections.Valid(held.shown[name])
    modifies w.Footprint()
    ensures r == WrittenOf(Collections.Apply(held.shown[name], write))
    ensures AllShow(working, held.(shown := held.shown[name := Collections.Apply(held.shown[name], write).coll],
                                   keySets := held.keySets + KeySets(w.indexes)))
  {
    hide Alive, Collections.Valid, Collections.Apply, WrittenOf, WorkingCollection.Footprint, WorkingCollection.Reach;
    assert Shows(w, held.shown[name], held);
    ghost var c := Collections.Apply(held.shown[name], write).coll;
    FootprintKinds(w);
    assert forall n :: n in working ==> Shows(working[n], held.shown[n], held);
    r := WriteAlive(w, held.shown[name], held.keySets, write);
    AllShowAfter(working, held, name, c);
  }

  lemma FootprintKinds(w: WorkingCollection)
    ensures NoKeySets(w.Footprint())
  {
    w.FootprintKinds();
  }

  lemma FootprintWithinReach(w: WorkingCollection)
    ensures w.Footprint() <= w.Reach()
    ensures NoKeySets(w.Footprint())
  {
    w.FootprintKinds();
  }

  lemma AllShowWith(working: map<Text, WorkingCollection>, held: Held, name: Text, w: WorkingCollection, c: Coll)
    requires AllShow(working, held)
    requires name !in working && w.Footprint() !! held.reach && held.own !! w.Reach()
    requires w.Abs() == c && w.Valid()
    ensures AllShow(working[name := w], HeldWith(held, name, w, c))
  {
    hide WorkingCollection.Valid, WorkingCollection.Abs, WorkingCollection.Reach, WorkingCollection.Footprint;
    FootprintWithinReach(w);
    var more := HeldWith(held, name, w, c);
    forall n | n in working
      ensures Shows(working[n], held.shown[n], more)
      ensures working[n].Footprint() !! w.Reach() && w.Footprint() !! working[n].Reach()
    {
      ShowsMore(working[n], held.shown[n], held, more);
    }
  }

  method SealOne(ghost working: map<Text, WorkingCollection>, ghost held: Held, ghost name: Text, ghost todo: set<Text>,
                 ghost next: map<Text, StoredCollection>, w: WorkingCollection, revision: int)
    returns (s: StoredCollection)
    requires name in working && working[name] == w && working.Keys == held.shown.Keys
    requires forall n :: n in working ==> working[n].Reach() <= held.reach
    requires forall n, m :: n in working && m in working && n != m ==> working[n].Footprint() !! working[m].Reach()
    requires name in todo && next.Keys !! todo && todo + next.Keys <= working.Keys
    requires forall n :: n in todo ==> Alive(working[n], held.shown[n], working[n].Reach(), held.keySets)
    requires forall n :: n in next ==>
               Published(next[n], held.shown[n].(revision := revision), working[n].Reach(), held.keySets)
    modifies w.Footprint()
    ensures Published(s, held.shown[name].(revision := revision), w.Reach(), held.keySets)
    ensures forall n :: n in todo && n != name ==> Alive(working[n], held.shown[n], working[n].Reach(), held.keySets)
    ensures forall n :: n in next ==>
              Published(next[n], held.shown[n].(revision := revision), working[n].Reach(), held.keySets)
  {
    hide Alive, Published, WorkingCollection.Footprint, WorkingCollection.Reach;
    FootprintWithinReach(w);
    assert forall n :: n in working && n != name ==> w.Footprint() !! working[n].Reach();
    assert forall n :: n in todo && n != name ==> Alive(working[n], held.shown[n], working[n].Reach(), held.keySets);
    s := SealAlive(w, held.shown[name], held.keySets, revision);
  }

  method SealAlive(w: WorkingCollection, ghost c: Coll, ghost keySets: set<KeySet>, revision: int)
    returns (s: StoredCollection)
    requires Alive(w, c, w.Reach(), keySets)
    modifies w.Footprint()
    ensures Published(s, c.(revision := revision), w.Reach(), keySets)
  {
    hide WorkingCollection.Valid, WorkingCollection.Abs, WorkingCollection.Reach, WorkingCollection.Footprint;
    hide StoredAbs, StoredSealed, StoredReach;
    s := w.SealAll(revision);
  }

  /** Sealing every working collection for publication. */
  method SealTable(working: map<Text, WorkingCollection>, ghost held: Held, revision: int)
    returns (next: map<Text, StoredCollection>)
    requires AllShow(working, held)
    modifies held.own
    ensures next.Keys == working.Keys
    ensures forall n :: n in next ==> Published(next[n], held.shown[n].(revision := revision), held.reach, held.keySets)
  {
    hide Alive, Published, WorkingCollection.Footprint, WorkingCollection.Reach;
    next := map[];
    var todo := working.Keys;
    assert forall n :: n in working ==> Shows(working[n], held.shown[n], held);
    while todo != {}
      invariant todo <= working.Keys && next.Keys == working.Keys - todo
      invariant forall n :: n in todo ==> Alive(working[n], held.shown[n], working[n].Reach(), held.keySets)
      invariant forall n :: n in next ==>
                  Published(next[n], held.shown[n].(revision := revision), working[n].Reach(), held.keySets)
      decreases todo
    {
      var n :| n in todo;
      var s := SealOne(working, held, n, todo, next, working[n], revision);
      next := next[n := s];
      todo := todo - {n};
    }
    forall n | n in next
      ensures Published(next[n], held.shown[n].(revision := revision), held.reach, held.keySets)
    {
      PublishedMore(next[n], held.shown[n].(revision := revision), working[n].Reach(), held.keySets,
                    held.reach, held.keySets);
    }
  }

  lemma PublishedMore(s: StoredCollection, c: Coll, reach: set<object>, keySets: set<KeySet>,
                      reach': set<object>, keySets': set<KeySet>)
    requires Published(s, c, reach, keySets) && reach <= reach' && keySets <= keySets'
    ensures Published(s, c, reach', keySets')
  {
  }

  /** The loop behind a transactional query over a committed collection. */
  method SelectStored(s: StoredCollection, condition: Where) returns (docs: seq<Json>)
    requires BaseValid(s.records)
    ensures docs == Engine.Select(s.order, BaseContents(s.records), Compile(condition))
  {
    hide OverlayMap.Valid, Compile, Engine.Select;
    var test := Compile(condition);
    ghost var records := BaseContents(s.records);
    docs := [];
    Queries.SelectNone(records, test);
    for i := 0 to |s.order|
      invariant BaseValid(s.records) && BaseContents(s.records) == records
      invariant docs == Engine.Select(s.order[..i], records, test)
    {
      Queries.SelectNext(s.order, records, test, i);
      var doc := BaseGet(s.records, s.order[i]);
      if doc.Some? && test(doc.value) { docs := docs + [doc.value]; }
    }
    assert s.order[..|s.order|] == s.order;
  }

  /** And over a working one. */
  method SelectWorking(order: seq<Text>, map_: OverlayMap<Text, Json>, condition: Where) returns (docs: seq<Json>)
    requires map_.Valid()
    ensures docs == Engine.Select(order, map_.contents, Compile(condition))
  {
    hide OverlayMap.Valid, Compile, Engine.Select;
    var test := Compile(condition);
    docs := [];
    Queries.SelectNone(map_.contents, test);
    for i := 0 to |order|
      invariant map_.Valid()
      invariant docs == Engine.Select(order[..i], map_.contents, test)
    {
      Queries.SelectNext(order, map_.contents, test, i);
      var doc := map_.Get(order[i]);
      if doc.Some? && test(doc.value) { docs := docs + [doc.value]; }
    }
    assert order[..|order|] == order;
  }

  /** New committed collections for these values. */
  method MakeCollections(colls: map<Text, Coll>) returns (r: map<Text, StoredCollection>, ghost keySets: set<KeySet>)
    requires forall n :: n in colls ==> Collections.Valid(colls[n])
    ensures r.Keys == colls.Keys && fresh(keySets)
    ensures forall n :: n in r ==> Published(r[n], colls[n], {}, keySets)
  {
    hide Collections.Valid, Published;
    r, keySets := map[], {};
    var todo := colls.Keys;
    while todo != {}
      invariant todo <= colls.Keys && r.Keys == colls.Keys - todo && fresh(keySets)
      invariant forall n :: n in r ==> Published(r[n], colls[n], {}, keySets)
      decreases todo
    {
      var n :| n in todo;
      var s := MakeStored(colls[n]);
      ghost var more := keySets + SealedKeySets(s.indexes);
      MadeIsPublished(s, colls[n], more);
      forall i | i in r
        ensures Published(r[i], colls[i], {}, more)
      {
        PublishedMore(r[i], colls[i], {}, keySets, {}, more);
      }
      r, keySets, todo := r[n := s], more, todo - {n};
    }
  }

  lemma MadeIsPublished(s: StoredCollection, c: Coll, keySets: set<KeySet>)
    requires StoredSealed(s) && StoredReach(s) == {} && StoredAbs(s) == c && SealedKeySets(s.indexes) <= keySets
    ensures Published(s, c, {}, keySets)
  {
  }

  class Database {
    var collections: map<Text, StoredCollection>
    var revision: int
    var open: bool
    const limits: Engine.Limits
    /** Everything reachable from the committed collections; all of it sealed. */
    ghost var shared: set<object>
    ghost var keySets: set<KeySet>
    /** The values the committed collections represent. */
    ghost var shown: map<Text, Coll>

    /** A database over loaded collections: new objects throughout. */
    constructor (seed: Engine.Root, limits: Engine.Limits)
      requires Engine.RootOk(seed)
      ensures Valid() && open && Root() == seed && this.limits == limits
      ensures shared == {} && fresh(keySets)
    {
      hide Published, Collections.Valid;
      var made;
      ghost var buckets;
      made, buckets := MakeCollections(seed.colls);
      collections := made;
      revision := seed.revision;
      open := true;
      this.limits := limits;
      shared := {};
      keySets := buckets;
      shown := seed.colls;
    }

    ghost predicate Bound()
      reads `collections, `shown, `shared, `keySets, shared, keySets
    {
      && this !in shared
      && collections.Keys == shown.Keys
      && forall n :: n in collections ==> Published(collections[n], shown[n], shared, keySets)
    }

    ghost function Root(): Engine.Root
      reads `shown, `revision
    {
      Engine.Root(shown, revision)
    }

    ghost predicate Valid()
      reads this, shared, keySets
    {
      Bound() && Engine.RootOk(Root())
    }

    /** What is committed under a name is sealed and is what the root says. */
    lemma StoredFacts(name: Text)
      requires Valid()
      ensures this !in shared
      ensures name in collections <==> name in shown
      ensures name in collections ==>
                var s := collections[name];
                StoredSealed(s) && StoredReach(s) <= shared && StoredAbs(s) == shown[name]
                && s.revision == shown[name].revision
                && Collections.Valid(shown[name])
    {
      hide StoredSealed, Collections.Valid;
      if name in collections { assert Published(collections[name], shown[name], shared, keySets); }
    }

    /** Publication: one new root, in which the published collections replace the old ones. */
    method Install(next: map<Text, StoredCollection>, ghost published: map<Text, Coll>, ghost held: Held)
      requires Bound() && this !in held.reach
      requires next.Keys == published.Keys
      requires forall n :: n in next ==> Published(next[n], published[n], held.reach, held.keySets)
      modifies this
      ensures Bound() && open == old(open)
      ensures Root() == Engine.Root(old(shown) + published, old(revision) + 1)
      ensures shared == old(shared) + held.reach
    {
      hide Published;
      forall n | n in collections + next
        ensures Published((collections + next)[n], (shown + published)[n], shared + held.reach, keySets + held.keySets)
      {
        if n in next {
          PublishedMore(next[n], published[n], held.reach, held.keySets, shared + held.reach, keySets + held.keySets);
        } else {
          PublishedMore(collections[n], shown[n], shared, keySets, shared + held.reach, keySets + held.keySets);
        }
      }
      collections := collections + next;
      revision := revision + 1;
      shown := shown + published;
      shared := shared + held.reach;
      keySets := keySets + held.keySets;
    }
  }

  /** Sealing a table of working collections and making it part of the committed root. */
  method PublishTable(database: Database, working: map<Text, WorkingCollection>, ghost held: Held)
    requires database.Bound() && AllShow(working, held) && NoKeySets(held.own) && held.own <= held.reach
    requires held.own !! database.shared && (database as object) !in held.reach
    requires working.Keys == held.shown.Keys
    modifies database, held.own
    ensures database.Bound() && database.open == old(database.open)
    ensures var revision := old(database.revision) + 1;
            database.Root() == Engine.Root(
              old(database.shown) + (map n | n in held.shown :: held.shown[n].(revision := revision)), revision)
    ensures database.shared == old(database.shared) + held.reach
  {
    hide Database.Bound, AllShow, Published;
    ghost var published := map n | n in held.shown :: held.shown[n].(revision := database.revision + 1);
    var next := SealTable(working, held, database.revision + 1);
    database.Install(next, published, held);
  }

  class Transaction {
    const database: Database
    var status: Engine.Status
    var base: map<Text, int>
    var working: map<Text, WorkingCollection>
    var changes: seq<Change>
    var generated: seq<Engine.GeneratedKey>
    var operations: nat
    /** What the caller has seen so far. */
    ghost var log: seq<Engine.LogEntry>
    ghost var held: Held

    ghost predicate Bound()
      reads `working, `held, held.reach, held.keySets
    {
      && this !in held.reach && (database as object) !in held.reach
      && AllShow(working, held)
    }

    ghost function View(): Engine.Txn
      reads `status, `base, `held, `changes, `generated, `operations, `log
    {
      Engine.Txn(status, base, held.shown, changes, generated, operations, log)
    }

    ghost predicate Valid()
      reads this, held.reach, held.keySets
    {
      (status.Active? ==> Bound()) && Engine.TxnOk(View())
    }

    constructor (database: Database)
      ensures Valid() && this.database == database
      ensures held == NOTHING && View() == Engine.FRESH
    {
      this.database := database;
      status := Engine.Active;
      base, working := map[], map[];
      changes, generated, operations := [], [], 0;
      log, held := [], NOTHING;
    }

    lemma Outside()
      requires Bound()
      ensures this !in held.reach && (database as object) !in held.reach
      ensures working.Keys == held.shown.Keys && held.own <= held.reach
    {
    }

    /** `#touchCollection`. */
    method Touch(name: Text) returns (refusal: Option<Engine.Refusal>)
      requires Valid() && database.Valid() && status.Active?
      modifies this`base
      ensures Valid()
      ensures match Engine.Touch(database.Root(), database.limits, old(View()), name)
              case Ok(t) => refusal.None? && View() == t && name in database.collections
              case Err(why) => refusal == Some(why) && View() == old(View())
    {
      hide Transaction.Bound, Database.Bound, Collections.Valid, StoredSealed, StoredReach;
      database.StoredFacts(name);
      if name !in database.collections { return Some(Engine.UnknownCollection); }
      if name in base { return None; }
      if |base| >= database.limits.maxReadCollections { return Some(Engine.ReadCollectionLimit); }
      Outside();
      base := base[name := database.collections[name].revision];
      return None;
    }

    /** What a method may add: objects that did not exist, or that are already committed. */
    twostate predicate Grown()
      reads this, database
    {
      && old(held).own <= held.own && fresh(held.own - old(held).own)
      && old(held).reach <= held.reach <= old(held).reach + database.shared + (held.own - old(held).own)
    }

    /** Taking a fresh working collection over a committed one into the transaction. */
    method Adopt(name: Text, w: WorkingCollection, ghost c: Coll)
      requires Bound() && name !in working
      requires w.Abs() == c && w.Valid()
      requires w.Footprint() !! held.reach && held.own !! w.Reach()
      requires this !in w.Reach() && (database as object) !in w.Reach()
      modifies this`working, this`held
      ensures Bound()
      ensures working == old(working)[name := w] && held == HeldWith(old(held), name, w, c)
    {
      hide WorkingCollection.Valid, WorkingCollection.Abs, AllShow;
      AllShowWith(working, held, name, w, c);
      working := working[name := w];
      held := HeldWith(held, name, w, c);
    }

    /** The transaction's layers are not part of the committed root, nor is the object itself. */
    ghost predicate Apart()
      reads `held, database
    {
      held.own !! database.shared && this !in database.shared
    }

    /** Fresh layers over a committed collection. */
    method Open(name: Text)
      requires Valid() && database.Valid() && status.Active? && Apart()
      requires name in database.collections && name !in working && name in base
      modifies this`working, this`held
      ensures Valid() && Grown() && name in working
      ensures View() == old(View()).(working := old(View()).working[name := database.shown[name]])
    {
      hide Transaction.Bound, Database.Bound, AllShow, Collections.Valid, StoredSealed, StoredReach, StoredAbs;
      hide WorkingCollection.Valid, WorkingCollection.Reach, WorkingCollection.Footprint, WorkingCollection.Abs;
      Outside();
      database.StoredFacts(name);
      var w := MakeWritable(database.collections[name], database.shown[name]);
      FootprintWithinReach(w);
      Adopt(name, w, database.shown[name]);
    }

    /** `#writable`: the first write to a collection makes its working copy. */
    method Writable(name: Text) returns (refusal: Option<Engine.Refusal>)
      requires Valid() && database.Valid() && status.Active? && Apart()
      modifies this`base, this`working, this`held
      ensures Valid() && Grown()
      ensures match Engine.Writable(database.Root(), database.limits, old(View()), name)
              case Ok(t) => refusal.None? && View() == t && name in working
              case Err(why) => refusal == Some(why) && View() == old(View())
    {
      hide Transaction.Bound, Database.Bound, Collections.Valid, Engine.Touch;
      ghost var was := View();
      Outside();
      if name in working { return None; }
      refusal := Touch(name);
      if refusal.Some? { return; }
      Engine.TouchKeeps(database.Root(), database.limits, was, name);
      Outside();
      Open(name);
    }

    lemma Entry(name: Text)
      requires Bound() && name in working
      ensures name in held.shown
      ensures working[name].Valid() && working[name].Abs() == held.shown[name]
      ensures working[name].Footprint() <= held.own <= held.reach
      ensures working[name].Reach() <= held.reach
      ensures working.Keys == held.shown.Keys && NoKeySets(held.own)
      ensures this !in working[name].Footprint() && (database as object) !in working[name].Footprint()
      ensures forall n, m :: n in working && m in working && n != m ==> working[n].Footprint() !! working[m].Reach()
    {
      hide WorkingCollection.Valid, WorkingCollection.Abs, WorkingCollection.Reach, WorkingCollection.Footprint;
      assert Shows(working[name], held.shown[name], held);
    }

    /** One write to one working collection. */
    method ApplyTo(name: Text, write: Write) returns (r: Written)
      requires Bound() && name in working && name in held.shown && Collections.Valid(held.shown[name])
      modifies this`held, held.own
      ensures Bound()
      ensures var e := Collections.Apply(old(held).shown[name], write);
              && r == WrittenOf(e)
              && held == old(held).(shown := old(held).shown[name := e.coll], keySets := held.keySets)
    {
      hide Collections.Valid, Collections.Apply, WrittenOf, AllShow;
      hide WorkingCollection.Valid, WorkingCollection.Abs, WorkingCollection.Reach, WorkingCollection.Footprint;
      Entry(name);
      var w := working[name];
      ghost var e := Collections.Apply(held.shown[name], write);
      r := WriteOne(working, held, name, w, write);
      held := held.(shown := held.shown[name := e.coll], keySets := held.keySets + KeySets(w.indexes));
    }

    /** `_insert`, `_update` and `_delete` as a caller meets them. */
    method Mutate(name: Text, write: Write) returns (reply: Engine.Reply)
      requires Valid() && database.Valid() && status.Active? && Apart()
      modifies this`base, this`working, this`held, this`operations, this`changes, this`generated, held.own
      ensures Valid() && Grown()
      ensures (View(), reply) == Engine.DoMutate(database.Root(), database.limits, old(View()), name, write)
    {
      hide Transaction.Bound, Database.Bound, Collections.Valid, Collections.Apply, Engine.Writable;
      Outside();
      operations := operations + 1;
      if operations > database.limits.maxOperations { return Engine.Refused(Engine.OperationLimit); }
      var refusal := Writable(name);
      if refusal.Some? { return Engine.Refused(refusal.value); }
      reply := Absorb(name, write);
    }

    /** Applying a write and recording its change. */
    method Absorb(name: Text, write: Write) returns (reply: Engine.Reply)
      requires Valid() && status.Active? && name in working
      modifies this`held, this`changes, this`generated, held.own
      ensures Valid() && held.own == old(held).own && held.reach == old(held).reach
      ensures (View(), reply) == Engine.Absorb(old(View()), name, Collections.Apply(old(held).shown[name], write))
    {
      hide Transaction.Bound, Collections.Valid, Collections.Apply;
      Outside();
      ghost var c := held.shown[name];
      ApplyKeeps(c, write);
      var r := ApplyTo(name, write);
      Outside();
      match r
      case Threw(error) => reply := Engine.Refused(Engine.Rejected(error));
      case Wrote(key, slot, before, after, given) =>
        changes := changes + [Change(name, key, slot, before, after)];
        generated := generated + (if given.Some? then [Engine.GeneratedKey(name, given.value)] else []);
        reply := Engine.Wrote(key);
    }

    /** `_read`. */
    method Get(name: Text, key: PrimaryKey) returns (reply: Engine.Reply)
      requires Valid() && database.Valid() && status.Active? && Apart()
      modifies this`base
      ensures Valid()
      ensures (View(), reply) == Engine.DoGet(database.Root(), database.limits, old(View()), name, key)
    {
      hide Transaction.Bound, Database.Bound, Collections.Valid, Engine.Touch;
      Outside();
      var refusal := Touch(name);
      if refusal.Some? { return Engine.Refused(refusal.value); }
      var slot := EncodeKey(key);
      if slot.None? { return Engine.Refused(Engine.Rejected(InvalidKey)); }
      var doc := Lookup(name, slot.value);
      return Engine.Record(doc);
    }

    /** One record of the transaction's view of a collection. */
    method Lookup(name: Text, slot: Text) returns (doc: Option<Json>)
      requires Valid() && database.Valid() && status.Active? && name in database.collections
      ensures name in database.shown
      ensures var c := Engine.View(database.Root(), View(), name);
              doc == if slot in c.records then Some(c.records[slot]) else None
    {
      hide AllShow, Collections.Valid, OverlayMap.Valid, WorkingCollection.Valid, StoredReach, Views, StoredViews;
      database.StoredFacts(name);
      Outside();
      if name in working {
        Entry(name);
        doc := working[name].Find(slot);
      } else {
        doc := BaseGet(database.collections[name].records, slot);
      }
    }

    /** `_query`. */
    method Find(name: Text, condition: Where) returns (reply: Engine.Reply)
      requires Valid() && database.Valid() && status.Active? && Apart()
      modifies this`base
      ensures Valid()
      ensures (View(), reply) == Engine.DoFind(database.Root(), database.limits, old(View()), name, condition)
      ensures reply.Records? ==>
                && name in database.shown
                && Queries.Listing(Operations.OwnOrCommitted(database.Root(), old(View()), name), condition, reply.docs)
    {
      hide Transaction.Bound, Database.Bound, Collections.Valid, Engine.Touch, Compile, Engine.Select;
      hide Queries.Listing, Engine.RootOk, Engine.TxnOk;
      Operations.FindExactly(database.Root(), database.limits, View(), name, condition);
      Outside();
      var refusal := Touch(name);
      if refusal.Some? { return Engine.Refused(refusal.value); }
      var docs, candidates := Scan(name, condition);
      if candidates > Engine.MAX_QUERY_CANDIDATES { return Engine.Refused(Engine.CandidateLimit); }
      if |docs| > Engine.MAX_QUERY_RESULTS { return Engine.Refused(Engine.ResultLimit); }
      return Engine.Records(docs);
    }

    method Scan(name: Text, condition: Where) returns (docs: seq<Json>, candidates: nat)
      requires Valid() && database.Valid() && status.Active? && name in database.collections
      ensures name in database.shown
      ensures var c := Engine.View(database.Root(), View(), name);
              candidates == |c.order| && docs == Engine.Select(c.order, c.records, Compile(condition))
    {
      hide AllShow, Collections.Valid, OverlayMap.Valid, StoredReach, Views, StoredViews, Compile, Engine.Select;
      database.StoredFacts(name);
      Outside();
      if name in working {
        Entry(name);
        candidates := |working[name].order|;
        docs := SelectWorking(working[name].order, working[name].records, condition);
      } else {
        candidates := |database.collections[name].order|;
        docs := SelectStored(database.collections[name], condition);
      }
    }

    lemma HeldFacts()
      requires Valid() && status.Active?
      ensures held.own <= held.reach && NoKeySets(held.own)
    {
    }

    /** One operation, recorded with its reply. */
    method Operate(op: Engine.Op) returns (reply: Engine.Reply)
      requires Valid() && database.Valid() && status.Active? && Apart()
      modifies this, held.own
      ensures Valid() && Grown() && status == old(status)
      ensures View() == Engine.Perform(database.Root(), database.limits, old(View()), op)
      ensures reply == Engine.Do(database.Root(), database.limits, old(View()), op).1
    {
      hide Transaction.Bound, Database.Bound, Collections.Valid, Engine.DoGet, Engine.DoFind, Engine.DoMutate;
      Outside();
      match op {
        case Get(name, key) => reply := Get(name, key);
        case Find(name, condition) => reply := Find(name, condition);
        case Mutate(name, write) => reply := Mutate(name, write);
      }
      Outside();
      log := log + [Engine.LogEntry(op, reply)];
    }

    /** `rollback`. */
    method Rollback()
      requires Valid() && status.Active?
      modifies this
      ensures Valid() && held == NOTHING
      ensures View() == old(View()).(status := Engine.RolledBack, working := map[], changes := [], generated := [])
    {
      status := Engine.RolledBack;
      working := map[];
      changes, generated := [], [];
      held := NOTHING;
    }

    /** The conflict check: does some touched collection have another revision by now? */
    method Conflicts() returns (moved: bool)
      requires Valid() && database.Valid()
      ensures moved <==> Engine.Moved(database.Root(), View())
    {
      hide Transaction.Bound, Collections.Valid, StoredSealed, StoredReach, StoredAbs;
      var todo := base.Keys;
      while todo != {}
        invariant todo <= base.Keys
        invariant forall n :: n in base && n !in todo ==>
                    n in database.shown && database.shown[n].revision == base[n]
        decreases todo
      {
        var n :| n in todo;
        database.StoredFacts(n);
        if n !in database.collections || database.collections[n].revision != base[n] { return true; }
        todo := todo - {n};
      }
      return false;
    }

    /** `commit` and `_commit`: refuse, acknowledge, or publish one new root. */
    method Commit() returns (result: Engine.CommitResult)
      requires Valid() && database.Valid() && status.Active? && Apart()
      modifies this`status, database, held.own
      ensures Valid() && database.Valid() && database.open == old(database.open)
      ensures (database.Root(), result) == Engine.Commit(old(database.Root()), old(database.open), old(View()))
      ensures View() == old(View()).(status := if result.Receipted? then Engine.Committed else Engine.RolledBack)
      ensures result.Receipted? <==> old(database.open) && Commits.UpToDate(old(database.Root()), old(View()))
      ensures result.Receipted? ==>
                && Commits.Succeeds(old(database.Root()), old(View()), database.Root())
                && result.receipt == Engine.Receipt(|changes|, database.revision, generated)
      ensures database.shared <= old(database.shared) + held.reach
    {
      hide Transaction.Bound, Database.Bound, Collections.Valid;
      Outside();
      Commits.PublishSucceeds(database.Root(), View());
      status := Engine.RolledBack;
      if !database.open { return Engine.Closed; }
      var moved := Conflicts();
      if moved { return Engine.Conflict; }
      if changes == [] {
        status := Engine.Committed;
        return Engine.Receipted(Engine.Receipt(0, database.revision, generated));
      }
      Publish();
      status := Engine.Committed;
      return Engine.Receipted(Engine.Receipt(|changes|, database.revision, generated));
    }

    /** Sealing everything that was written and making it the committed root. */
    method Publish()
      requires Bound() && Engine.TxnOk(View()) && database.Valid() && Apart()
      modifies database, held.own
      ensures database.Valid() && database.open == old(database.open)
      ensures database.Root() == Engine.Publish(old(database.Root()), View())
      ensures database.shared == old(database.shared) + held.reach
    {
      hide Transaction.Bound, Database.Bound, AllShow, Engine.RootOk, Engine.TxnOk;
      Outside();
      Table();
      Engine.PublishKeeps(database.Root(), View());
      PublishTable(database, working, held);
    }

    lemma Table()
      requires Bound()
      ensures AllShow(working, held) && NoKeySets(held.own) && working.Keys == held.shown.Keys
    {
    }
  }
}
