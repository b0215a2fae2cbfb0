/** What commits publish: consecutive revisions, and changes that fold the records before a
    commit into the records after it. */
module Changes {
  import opened Texts
  import opened Json
  import opened Keys
  import opened Collections
  import opened Conditions
  import opened Engine
  import opened Serializability
  import Checker

  /** The documents of every collection, by encoded key. */
  type Contents = map<Text, map<Text, Json>>

  function Recorded(colls: map<Text, Coll>): Contents {
    map n | n in colls :: colls[n].records
  }

  /** A change that names the record it replaces and the key it is filed under. */
  predicate Fits(m: Contents, change: Change) {
    && change.collection in m
    && EncodeKey(change.key) == Some(change.slot)
    && change.before == (if change.slot in m[change.collection] then Some(m[change.collection][change.slot]) else None)
    && (change.before.Some? || change.after.Some?)
  }

  /** What a reader of the change feed does with one change. */
  function Replace(m: Contents, change: Change): Contents {
    if change.collection !in m then m
    else
      var records := m[change.collection];
      m[change.collection :=
        if change.after.Some? then records[change.slot := change.after.value] else records - {change.slot}]
  }

  function Fold(m: Contents, changes: seq<Change>): Contents
    decreases |changes|
  {
    if changes == [] then m else Replace(Fold(m, changes[..|changes| - 1]), changes[|changes| - 1])
  }

  predicate AllFit(m: Contents, changes: seq<Change>)
    decreases |changes|
  {
    changes == [] ||
    (AllFit(m, changes[..|changes| - 1]) && Fits(Fold(m, changes[..|changes| - 1]), changes[|changes| - 1]))
  }

  /** The records an unfinished transaction would publish. */
  function Seen(root: Root, t: Txn): Contents {
    Recorded(root.colls + t.working)
  }

  /** Its recorded changes account for all of them. */
  ghost predicate Explained(root: Root, t: Txn) {
    && t.working.Keys <= root.colls.Keys
    && AllFit(Recorded(root.colls), t.changes)
    && Fold(Recorded(root.colls), t.changes) == Seen(root, t)
  }

  /** One successful write changes one record, and says how. */
  lemma ApplyExplained(c: Coll, w: Write)
    requires Collections.Valid(c)
    ensures var e := Apply(c, w);
            && (e.Failed? ==> e.coll == c)
            && (e.Done? ==>
                  && EncodeKey(e.key) == Some(e.slot)
                  && e.before == (if e.slot in c.records then Some(c.records[e.slot]) else None)
                  && (e.before.Some? || e.after.Some?)
                  && e.coll.records == (if e.after.Some? then c.records[e.slot := e.after.value]
                                        else c.records - {e.slot}))
  {
    hide Collections.Valid, Reindex;
    ApplyKeeps(c, w);
  }

  lemma FoldNext(m: Contents, changes: seq<Change>, change: Change)
    ensures Fold(m, changes + [change]) == Replace(Fold(m, changes), change)
    ensures AllFit(m, changes + [change]) <==> AllFit(m, changes) && Fits(Fold(m, changes), change)
  {
    assert (changes + [change])[..|changes|] == changes;
  }

  lemma ReplaceSeen(colls: map<Text, Coll>, name: Text, c: Coll, change: Change)
    requires name in colls && change.collection == name
    requires c.records == (if change.after.Some? then colls[name].records[change.slot := change.after.value]
                           else colls[name].records - {change.slot})
    ensures Replace(Recorded(colls), change) == Recorded(colls[name := c])
  {
    assert Recorded(colls)[name] == colls[name].records;
  }

  lemma AbsorbExplained(root: Root, t: Txn, name: Text, e: Effect)
    requires Explained(root, t) && name in t.working
    requires e.Failed? ==> e.coll == t.working[name]
    requires e.Done? ==>
               var records := t.working[name].records;
               && EncodeKey(e.key) == Some(e.slot)
               && e.before == (if e.slot in records then Some(records[e.slot]) else None)
               && (e.before.Some? || e.after.Some?)
               && e.coll.records == (if e.after.Some? then records[e.slot := e.after.value] else records - {e.slot})
    ensures Explained(root, Absorb(t, name, e).0)
  {
    hide Fold, AllFit, Recorded, Replace, EncodeKey;
    var colls := root.colls + t.working;
    assert colls[name] == t.working[name];
    assert root.colls + t.working[name := e.coll] == colls[name := e.coll];
    if e.Done? {
      var change := Change(name, e.key, e.slot, e.before, e.after);
      RecordedAt(colls, name);
      FoldNext(Recorded(root.colls), t.changes, change);
      ReplaceSeen(colls, name, e.coll, change);
    } else {
      assert colls[name := e.coll] == colls;
    }
  }

  lemma RecordedAt(colls: map<Text, Coll>, name: Text)
    requires name in colls
    ensures name in Recorded(colls) && Recorded(colls)[name] == colls[name].records
  {
  }

  lemma WritableExplained(root: Root, limits: Limits, t: Txn, name: Text)
    requires Explained(root, t)
    ensures Writable(root, limits, t, name).Ok? ==> Explained(root, Writable(root, limits, t, name).value)
  {
    hide Fold, AllFit, Recorded;
    if Writable(root, limits, t, name).Ok? {
      var t' := Writable(root, limits, t, name).value;
      assert root.colls + t'.working == root.colls + t.working;
    }
  }

  lemma MutateExplained(root: Root, limits: Limits, t: Txn, name: Text, write: Write)
    requires RootOk(root) && TxnOk(t) && Explained(root, t)
    ensures Explained(root, DoMutate(root, limits, t, name, write).0)
  {
    hide Apply, Collections.Valid, Absorb, Writable, Fold, AllFit, Fits;
    var t1 := t.(operations := t.operations + 1);
    assert Seen(root, t1) == Seen(root, t);
    WritableExplained(root, limits, t1, name);
    WritableKeeps(root, limits, t1, name);
    var w := Writable(root, limits, t1, name);
    if t1.operations <= limits.maxOperations && w.Ok? {
      ApplyExplained(w.value.working[name], write);
      AbsorbExplained(root, w.value, name, Apply(w.value.working[name], write));
    }
  }

  lemma DoExplained(root: Root, limits: Limits, t: Txn, op: Op)
    requires RootOk(root) && TxnOk(t) && Explained(root, t)
    ensures Explained(root, Do(root, limits, t, op).0)
  {
    hide DoMutate, Fold, AllFit, Recorded, Engine.Select, Compile;
    match op
    case Get(_, _) =>
    case Find(_, _) =>
    case Mutate(name, write) => MutateExplained(root, limits, t, name, write);
  }

  lemma {:induction false} ReplayExplained(root: Root, limits: Limits, ops: seq<Op>)
    requires RootOk(root)
    ensures Explained(root, Replay(root, limits, ops))
    decreases |ops|
  {
    hide Do, RootOk, TxnOk, Fold, AllFit;
    if ops == [] {
      ReplayNothing(root);
    } else {
      var init, op := ops[..|ops| - 1], ops[|ops| - 1];
      var t := Replay(root, limits, init);
      ReplayKeeps(root, limits, init);
      ReplayExplained(root, limits, init);
      DoExplained(root, limits, t, op);
      assert Seen(root, Replay(root, limits, ops)) == Seen(root, Do(root, limits, t, op).0);
    }
  }

  lemma ReplayNothing(root: Root)
    ensures Explained(root, FRESH)
  {
    assert root.colls + FRESH.working == root.colls;
  }

  /* ---------- the feed of a run ---------- */

  datatype Batch = Batch(changes: seq<Change>, revision: int)

  /** The batch one event publishes, if it commits any change. */
  function Published(s: System, limits: Limits, e: Event): seq<Batch> {
    var s' := Step(s, limits, e);
    if e.TryCommit? && IsActive(s, e.id) && s'.root.revision != s.root.revision
    then [Batch(s.txns[e.id].changes, s'.root.revision)] else []
  }

  /** Everything a run publishes, in order. */
  function Feed(s: System, limits: Limits, events: seq<Event>): seq<Batch>
    decreases |events|
  {
    if events == [] then []
    else
      var init := events[..|events| - 1];
      Feed(s, limits, init) + Published(Run(s, limits, init), limits, events[|events| - 1])
  }

  function FoldAll(m: Contents, batches: seq<Batch>): Contents
    decreases |batches|
  {
    if batches == [] then m else Fold(FoldAll(m, batches[..|batches| - 1]), batches[|batches| - 1].changes)
  }

  predicate AllBatchesFit(m: Contents, batches: seq<Batch>)
    decreases |batches|
  {
    batches == [] ||
    (AllBatchesFit(m, batches[..|batches| - 1])
     && batches[|batches| - 1].changes != []
     && AllFit(FoldAll(m, batches[..|batches| - 1]), batches[|batches| - 1].changes))
  }

  /** How many of these commits changed something. */
  function Writers(history: seq<Outcome>): nat
    decreases |history|
  {
    if history == [] then 0
    else Writers(history[..|history| - 1]) + (if history[|history| - 1].receipt.affected > 0 then 1 else 0)
  }

  /** Every receipt carries the seed's revision plus the writers committed up to and including it. */
  ghost predicate Numbered(seed: Root, history: seq<Outcome>) {
    forall i :: 0 <= i < |history| ==> history[i].receipt.revision == seed.revision + Writers(history[..i + 1])
  }

  lemma PublishExplained(root: Root, limits: Limits, t: Txn)
    requires RootOk(root) && InStep(root, limits, t)
    ensures AllFit(Recorded(root.colls), t.changes)
    ensures Recorded(Publish(root, t).colls) == Fold(Recorded(root.colls), t.changes)
  {
    hide Fold, AllFit, RootOk, Replay;
    ReplayExplained(root, limits, OpsOf(t.log));
    assert Recorded(Publish(root, t).colls) == Seen(root, t);
  }

  /** A step publishes a batch exactly when it moves the revision, and then by one; the batch
      turns the records before the step into those after it. */
  lemma StepPublishes(s: System, limits: Limits, e: Event)
    requires Accounted(s, limits)
    ensures var s' := Step(s, limits, e);
            var batches := Published(s, limits, e);
            && |batches| <= 1
            && s'.root.revision == s.root.revision + |batches|
            && (batches == [] ==> s'.root == s.root)
            && (batches != [] ==>
                  && batches[0].revision == s'.root.revision
                  && batches[0].changes != []
                  && AllFit(Recorded(s.root.colls), batches[0].changes)
                  && Recorded(s'.root.colls) == Fold(Recorded(s.root.colls), batches[0].changes))
  {
    hide Perform, Tracked, RootOk, TxnOk, Fold, AllFit, Recorded, InStep;
    if e.TryCommit? && IsActive(s, e.id) {
      var t := s.txns[e.id];
      TrackedFacts(s.root, limits, t);
      SystemFacts(s, e.id);
      if s.open && !Moved(s.root, t) && t.changes != [] { PublishExplained(s.root, limits, t); }
    }
  }

  /** The feed of any run folds the seed's records into the committed ones, each change fitting
      the record it claims to replace, one batch per revision. */
  lemma {:induction false} FeedFolds(seed: Root, limits: Limits, events: seq<Event>)
    requires RootOk(seed)
    ensures var s := Run(Start(seed), limits, events); var feed := Feed(Start(seed), limits, events);
            && AllBatchesFit(Recorded(seed.colls), feed)
            && FoldAll(Recorded(seed.colls), feed) == Recorded(s.root.colls)
            && s.root.revision == seed.revision + |feed|
            && forall i :: 0 <= i < |feed| ==> feed[i].revision == seed.revision + 1 + i
    decreases |events|
  {
    hide Step, Published, Fold, AllFit, FoldAll, AllBatchesFit, Recorded, RootOk, Accounted;
    if events == [] {
      FoldNothing(Recorded(seed.colls));
    } else {
      var init := events[..|events| - 1];
      FeedFolds(seed, limits, init);
      StartAccounted(seed, limits);
      RunAccounted(Start(seed), limits, init);
      var s, e := Run(Start(seed), limits, init), events[|events| - 1];
      StepPublishes(s, limits, e);
      var before, more := Feed(Start(seed), limits, init), Published(s, limits, e);
      if more == [] {
        assert before + more == before;
      } else {
        assert more == [more[0]];
        FoldAllNext(Recorded(seed.colls), before, more[0]);
      }
    }
  }

  lemma FoldNothing(m: Contents)
    ensures FoldAll(m, []) == m && AllBatchesFit(m, [])
  {
  }

  lemma FoldAllNext(m: Contents, batches: seq<Batch>, batch: Batch)
    ensures FoldAll(m, batches + [batch]) == Fold(FoldAll(m, batches), batch.changes)
    ensures AllBatchesFit(m, batches + [batch]) <==>
              AllBatchesFit(m, batches) && batch.changes != [] && AllFit(FoldAll(m, batches), batch.changes)
  {
    assert (batches + [batch])[..|batches|] == batches;
  }

  lemma CommitNumbers(s: System, limits: Limits, e: Event)
    ensures var s' := Step(s, limits, e);
            || (s'.history == s.history && s'.root == s.root)
            || (|s'.history| == |s.history| + 1 && s'.history[..|s.history|] == s.history
                && var receipt := s'.history[|s.history|].receipt;
                   receipt.revision == s'.root.revision
                   && s'.root.revision == s.root.revision + (if receipt.affected > 0 then 1 else 0))
  {
    hide Perform;
  }

  /** Receipts number the commits: a writer's revision is its place among the writers, a reader's
      that of the last writer before it. */
  lemma {:induction false} ReceiptsNumbered(seed: Root, limits: Limits, events: seq<Event>)
    ensures var s := Run(Start(seed), limits, events);
            Numbered(seed, s.history) && s.root.revision == seed.revision + Writers(s.history)
    decreases |events|
  {
    hide Step;
    if events != [] {
      var init := events[..|events| - 1];
      ReceiptsNumbered(seed, limits, init);
      var s, s' := Run(Start(seed), limits, init), Run(Start(seed), limits, events);
      CommitNumbers(s, limits, events[|events| - 1]);
      if s'.history != s.history {
        forall i | 0 <= i < |s'.history|
          ensures s'.history[i].receipt.revision == seed.revision + Writers(s'.history[..i + 1])
        {
          if i < |s.history| {
            assert s'.history[i] == s'.history[..|s.history|][i];
            assert s'.history[..i + 1] == s.history[..i + 1];
          } else {
            assert s'.history[..i + 1] == s'.history;
          }
        }
      }
    }
  }

  /** `verify()` never raises, at any point of any run. */
  lemma VerifyHolds(seed: Root, limits: Limits, events: seq<Event>, name: Text)
    requires RootOk(seed) && name in Run(Start(seed), limits, events).root.colls
    ensures Checker.Checked(Run(Start(seed), limits, events).root.colls[name])
  {
    RunKeeps(Start(seed), limits, events);
    Checker.CheckedIsMostOfValid(Run(Start(seed), limits, events).root.colls[name]);
  }
}
