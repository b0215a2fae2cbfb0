/** From documents to a database object, and on through any schedule of transactions. */
module Opening {
  import opened Texts
  import opened Json
  import opened Collections
  import opened Persistence
  import opened Restart
  import opened Transactions
  import opened Serializability
  import Engine
  import Interleaving
  import Reload

  /** The loop of the constructor: each collection from its documents, or the first failure. */
  method LoadAll(schemas: Schemas, docs: Docs, revision: int) returns (r: Option<map<Text, Coll>>)
    requires docs.Keys == schemas.Keys
    ensures r.Some? <==> forall n :: n in schemas ==> Reload.Load(schemas[n], docs[n], revision).Ok?
    ensures r.Some? ==> r.value.Keys == schemas.Keys
                        && forall n :: n in schemas ==> Reload.Load(schemas[n], docs[n], revision) == Ok(r.value[n])
  {
    hide Reload.Load;
    var colls: map<Text, Coll> := map[];
    var todo := schemas.Keys;
    while todo != {}
      invariant todo <= schemas.Keys && colls.Keys == schemas.Keys - todo
      invariant forall n :: n in colls ==> Reload.Load(schemas[n], docs[n], revision) == Ok(colls[n])
      decreases todo
    {
      var n :| n in todo;
      var c := Reload.CreateStoredCollection(schemas[n], docs[n], revision);
      if c.Err? { return None; }
      colls := colls[n := c.value];
      todo := todo - {n};
    }
    return Some(colls);
  }

  lemma LoadedRootOk(schemas: Schemas, e: Envelope)
    requires Loads(schemas, e)
    ensures Engine.RootOk(Reopened(schemas, e))
  {
    hide Collections.Valid, Reload.Load;
    forall n | n in schemas
      ensures Collections.Valid(Reload.Load(schemas[n], e.docs[n], e.revision).value)
      ensures Reload.Load(schemas[n], e.docs[n], e.revision).value.revision == e.revision
    {
      Reload.LoadedIsValid(schemas[n], e.docs[n], e.revision);
    }
  }

  /** The constructor: there is a database exactly when the collections are those of the schema and
      each loads; it is open, at the snapshot's revision, and holds what was loaded. */
  method Open(schemas: Schemas, e: Envelope, limits: Engine.Limits) returns (database: Option<Database>)
    ensures database.Some? <==> Loads(schemas, e)
    ensures database.Some? ==>
              && fresh(database.value) && database.value.Valid() && database.value.open
              && database.value.Root() == Reopened(schemas, e) && database.value.limits == limits
  {
    hide Reload.Load, Database.Valid, Engine.RootOk;
    if e.docs.Keys != schemas.Keys { return None; }
    var loaded := LoadAll(schemas, e.docs, e.revision);
    if loaded.None? { return None; }
    LoadedRootOk(schemas, e);
    assert Engine.Root(loaded.value, e.revision) == Reopened(schemas, e);
    var made := new Database(Engine.Root(loaded.value, e.revision), limits);
    return Some(made);
  }

  /** Opening documents and running any schedule on the objects: the committed transactions, run
      one after another on what was loaded, end where the object graph ends, having seen the same. */
  method OpenAndRun(schemas: Schemas, e: Envelope, limits: Engine.Limits, events: seq<Engine.Event>)
    returns (database: Option<Database>, ghost history: seq<Engine.Outcome>)
    ensures database.Some? <==> Loads(schemas, e)
    ensures database.Some? ==>
              && fresh(database.value) && database.value.Valid()
              && Serial(Reopened(schemas, e), limits, Batches(history)) == (database.value.Root(), history)
              && history == Engine.Run(Engine.Start(Reopened(schemas, e)), limits, events).history
  {
    hide Reload.Load, Database.Valid, Serial, Engine.Run;
    history := [];
    database := Open(schemas, e, limits);
    if database.Some? { history := Interleaving.Interleave(database.value, events); }
  }
}
