/** Opening a database again from what its run left in storage. */
module Restart {
  import opened Texts
  import opened Json
  import opened Collections
  import opened Conditions
  import opened Engine
  import opened Persistence
  import Queries
  import Reload

  type Schemas = map<Text, Schema>

  predicate WellNamed(schemas: Schemas) {
    forall n :: n in schemas ==> Reload.IndexesNamed(schemas[n].indexes)
  }

  ghost predicate Shaped(schemas: Schemas, colls: map<Text, Coll>) {
    forall n :: n in colls ==> n in schemas && colls[n].schema == schemas[n]
  }

  /** Every committed and working collection is under the schema it was opened with. */
  ghost predicate AllShaped(schemas: Schemas, s: System) {
    && s.root.colls.Keys == schemas.Keys
    && Shaped(schemas, s.root.colls)
    && forall id :: id in s.txns ==> Shaped(schemas, s.txns[id].working)
  }

  lemma ApplyKeepsSchema(c: Coll, w: Write)
    ensures Apply(c, w).coll.schema == c.schema
  {
    hide Reindex, Validate, Materialize;
  }

  lemma DoShaped(schemas: Schemas, root: Root, limits: Limits, t: Txn, op: Op)
    requires Shaped(schemas, root.colls) && Shaped(schemas, t.working)
    ensures Shaped(schemas, Do(root, limits, t, op).0.working)
  {
    hide DoMutate, Select, Compile;
    if op.Mutate? { MutateShaped(schemas, root, limits, t, op.name, op.write); }
  }

  lemma ShapedWith(schemas: Schemas, colls: map<Text, Coll>, name: Text, c: Coll)
    requires Shaped(schemas, colls) && name in schemas && c.schema == schemas[name]
    ensures Shaped(schemas, colls[name := c])
  {
  }

  lemma ShapedAt(schemas: Schemas, colls: map<Text, Coll>, name: Text)
    requires Shaped(schemas, colls) && name in colls
    ensures name in schemas && colls[name].schema == schemas[name]
  {
  }

  lemma MutateShaped(schemas: Schemas, root: Root, limits: Limits, t: Txn, name: Text, write: Write)
    requires Shaped(schemas, root.colls) && Shaped(schemas, t.working)
    ensures Shaped(schemas, DoMutate(root, limits, t, name, write).0.working)
  {
    hide Apply, Shaped;
    if name in root.colls {
      ShapedAt(schemas, root.colls, name);
      ShapedWith(schemas, t.working, name, root.colls[name]);
    }
    var w := Writable(root, limits, t.(operations := t.operations + 1), name);
    if w.Ok? && name in w.value.working {
      var working := w.value.working;
      ShapedAt(schemas, working, name);
      ApplyKeepsSchema(working[name], write);
      ShapedWith(schemas, working, name, Apply(working[name], write).coll);
    }
  }

  lemma StepShaped(schemas: Schemas, s: System, limits: Limits, e: Event)
    requires AllShaped(schemas, s)
    ensures AllShaped(schemas, Step(s, limits, e))
  {
    hide Do, Shaped, Moved;
    NothingShaped(schemas);
    if e.Operate? && IsActive(s, e.id) { DoShaped(schemas, s.root, limits, s.txns[e.id], e.op); }
    if e.TryCommit? && IsActive(s, e.id) { PublishShaped(schemas, s.root, s.txns[e.id]); }
  }

  lemma NothingShaped(schemas: Schemas)
    ensures Shaped(schemas, map[])
  {
  }

  lemma PublishShaped(schemas: Schemas, root: Root, t: Txn)
    requires root.colls.Keys == schemas.Keys && Shaped(schemas, root.colls) && Shaped(schemas, t.working)
    ensures Shaped(schemas, Publish(root, t).colls) && Publish(root, t).colls.Keys == schemas.Keys
  {
  }

  lemma {:induction false} RunShaped(schemas: Schemas, s: System, limits: Limits, events: seq<Event>)
    requires AllShaped(schemas, s)
    ensures AllShaped(schemas, Run(s, limits, events))
    decreases |events|
  {
    hide Step, AllShaped;
    if events != [] {
      RunShaped(schemas, s, limits, events[..|events| - 1]);
      StepShaped(schemas, Run(s, limits, events[..|events| - 1]), limits, events[|events| - 1]);
    }
  }

  /** Every collection of a snapshot builds under its schema. */
  predicate Loads(schemas: Schemas, e: Envelope) {
    e.docs.Keys == schemas.Keys && forall n :: n in schemas ==> Reload.Load(schemas[n], e.docs[n], e.revision).Ok?
  }

  /** The root `open` builds from a snapshot. */
  function Reopened(schemas: Schemas, e: Envelope): Root
    requires Loads(schemas, e)
  {
    Root(map n | n in schemas :: Reload.Load(schemas[n], e.docs[n], e.revision).value, e.revision)
  }

  /** The same database but for position numbers: same revision, records, order and indexes. */
  ghost predicate Alike(r: Root, r': Root) {
    && r.revision == r'.revision
    && r.colls.Keys == r'.colls.Keys
    && forall n :: n in r.colls ==>
         var c, d := r.colls[n], r'.colls[n];
         && c.records == d.records && c.order == d.order && c.indexes == d.indexes && c.schema == d.schema
  }

  /** One collection loaded from its own documents. */
  ghost predicate SameButPositions(r: Result<Coll, Error>, c: Coll, revision: int) {
    && r.Ok?
    && Collections.Valid(r.value)
    && r.value.records == c.records && r.value.order == c.order && r.value.indexes == c.indexes
    && r.value.schema == c.schema && r.value.revision == revision
    && Reload.Snapshot(r.value) == Reload.Snapshot(c)
  }

  lemma CollectionReopens(c: Coll, revision: int)
    requires Collections.Valid(c) && Reload.IndexesNamed(c.schema.indexes)
    ensures Reload.Snapshot(c).Some?
    ensures SameButPositions(Reload.Load(c.schema, Reload.Snapshot(c).value, revision), c, revision)
  {
    hide Reload.Load, Collections.Valid, Reload.IndexesNamed;
    Reload.ReloadRoundTrip(c, revision);
    Reload.LoadedIsValid(c.schema, Reload.Snapshot(c).value, revision);
  }

  lemma CollectionsReopen(schemas: Schemas, root: Root, e: Envelope)
    requires WellNamed(schemas) && RootOk(root)
    requires root.colls.Keys == schemas.Keys && Shaped(schemas, root.colls)
    requires e.revision == root.revision && e.docs == Documents(root)
    ensures e.docs.Keys == schemas.Keys
    ensures forall n :: n in schemas ==>
              SameButPositions(Reload.Load(schemas[n], e.docs[n], e.revision), root.colls[n], e.revision)
  {
    hide Reload.Load, Collections.Valid, Reload.IndexesNamed, SameButPositions, Reload.Snapshot;
    forall n | n in schemas
      ensures SameButPositions(Reload.Load(schemas[n], e.docs[n], e.revision), root.colls[n], e.revision)
    {
      CollectionReopens(root.colls[n], e.revision);
    }
  }

  lemma ReopensAlike(schemas: Schemas, root: Root, e: Envelope)
    requires WellNamed(schemas) && RootOk(root)
    requires root.colls.Keys == schemas.Keys && Shaped(schemas, root.colls)
    requires e.revision == root.revision && e.docs == Documents(root)
    ensures Loads(schemas, e)
    ensures Alike(Reopened(schemas, e), root)
    ensures OpenedFrom(Reopened(schemas, e), Some(e))
  {
    hide Reload.Load, Collections.Valid, WellNamed, Reload.Snapshot;
    CollectionsReopen(schemas, root, e);
    assert Documents(Reopened(schemas, e)) == Documents(root);
  }

  /** A snapshot that was committed at some point of a run opens as the database it was committed from,
      ready to run on. */
  lemma CommittedReopens(seed: Root, schemas: Schemas, limits: Limits, stored: Option<Envelope>, trace: seq<Event>,
                         e: Envelope)
    requires OpenedFrom(seed, stored) && WellNamed(schemas)
    requires seed.colls.Keys == schemas.Keys && Shaped(schemas, seed.colls)
    requires WasCommitted(seed, limits, trace, e.revision, e.docs)
    ensures Loads(schemas, e) && OpenedFrom(Reopened(schemas, e), Some(e))
    ensures exists n :: 0 <= n <= |trace| && Alike(Reopened(schemas, e), Run(Start(seed), limits, trace[..n]).root)
  {
    hide Run, Loads, Alike, OpenedFrom, RootOk, Shaped;
    var n := CommittedAt(seed, limits, trace, e.revision, e.docs);
    var root := Run(Start(seed), limits, trace[..n]).root;
    SeedOk(seed, schemas, stored);
    RunShaped(schemas, Start(seed), limits, trace[..n]);
    RunKeeps(Start(seed), limits, trace[..n]);
    ReopensAlike(schemas, root, e);
  }

  /** Stopping at any point of any run and opening what is in storage gives back the database as
      it was committed at the stored revision, ready to run on; and that revision is no older
      than any caller was told, unless an accepted acknowledgement was untrue. */
  lemma RestartRecovers(seed: Root, schemas: Schemas, limits: Limits, max: nat, stored: Option<Envelope>, newId: Text,
                        moves: seq<Move>)
    requires OpenedFrom(seed, stored) && WellNamed(schemas)
    requires seed.colls.Keys == schemas.Keys && Shaped(schemas, seed.colls)
    ensures var s := Play(Opened(seed, stored, newId), limits, max, moves);
            s.storage.Some? ==>
              && Loads(schemas, s.storage.value)
              && OpenedFrom(Reopened(schemas, s.storage.value), s.storage)
              && (exists n :: 0 <= n <= |s.trace|
                              && Alike(Reopened(schemas, s.storage.value), Run(Start(seed), limits, s.trace[..n]).root))
              && (s.lies == 0 ==> forall i :: 0 <= i < |s.tickets| && Resolved(s, s.tickets[i]) ==>
                                    s.tickets[i].target <= Reopened(schemas, s.storage.value).revision)
  {
    hide Play, Run, Loads, Alike, OpenedFrom, RootOk, Shaped, Resolved, WasCommitted;
    var s := Play(Opened(seed, stored, newId), limits, max, moves);
    if s.storage.Some? {
      StorageWasCommitted(seed, limits, max, stored, newId, moves);
      CommittedReopens(seed, schemas, limits, stored, s.trace, s.storage.value);
      DurabilityIsHonest(seed, limits, max, stored, newId, moves);
    }
  }

  lemma SeedOk(seed: Root, schemas: Schemas, stored: Option<Envelope>)
    requires OpenedFrom(seed, stored) && seed.colls.Keys == schemas.Keys && Shaped(schemas, seed.colls)
    ensures SystemOk(Start(seed)) && AllShaped(schemas, Start(seed))
  {
  }

  lemma CommittedAt(seed: Root, limits: Limits, trace: seq<Event>, revision: int, docs: Docs) returns (n: nat)
    requires WasCommitted(seed, limits, trace, revision, docs)
    ensures n <= |trace|
    ensures Run(Start(seed), limits, trace[..n]).root.revision == revision
    ensures Documents(Run(Start(seed), limits, trace[..n]).root) == docs
  {
    hide Run, Documents;
    n :| 0 <= n <= |trace| && var root := Run(Start(seed), limits, trace[..n]).root;
                              root.revision == revision && Documents(root) == docs;
  }

  lemma StorageWasCommitted(seed: Root, limits: Limits, max: nat, stored: Option<Envelope>, newId: Text,
                            moves: seq<Move>)
    requires OpenedFrom(seed, stored)
    ensures var s := Play(Opened(seed, stored, newId), limits, max, moves);
            s.storage.Some? ==>
              WasCommitted(seed, limits, s.trace, s.storage.value.revision, s.storage.value.docs)
  {
    hide Play;
    InstallsInOrder(seed, limits, max, stored, newId, moves);
    var s := Play(Opened(seed, stored, newId), limits, max, moves);
    if s.installs == [] { assert s.trace[..0] == []; }
  }

  /** And every query answers as it did. */
  lemma RestartAnswersAlike(r: Root, r': Root, name: Text, condition: Where, options: Queries.Options)
    requires Alike(r, r') && name in r.colls
    ensures Queries.Answer(r.colls[name], condition, options) == Queries.Answer(r'.colls[name], condition, options)
  {
    Queries.AnswerDependsOnRecords(r.colls[name], r'.colls[name], condition, options);
  }
}
