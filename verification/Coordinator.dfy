/** The coordinator and the reference adapter as objects; every method does to the fields what
    the persistence state machine does to its state. */
module Coordinators {
  import opened Texts
  import opened Engine
  import opened Persistence
  import Reload

  datatype StorageError = AdapterClosed | AlreadyLoaded | NotLoaded | StorageConflict

  /** `MemoryStorageAdapter`, with the storage it shares between instances as a field. */
  class MemoryAdapter {
    var snapshot: Option<Envelope>
    var loaded: bool
    var closed: bool

    constructor (snapshot: Option<Envelope>)
      ensures this.snapshot == snapshot && !loaded && !closed
    {
      this.snapshot, loaded, closed := snapshot, false, false;
    }

    method Load() returns (r: Result<Option<Envelope>, StorageError>)
      modifies this`loaded
      ensures r == if closed then Err(AdapterClosed) else if old(loaded) then Err(AlreadyLoaded) else Ok(snapshot)
      ensures loaded == (old(loaded) || !closed)
    {
      if closed { return Err(AdapterClosed); }
      if loaded { return Err(AlreadyLoaded); }
      loaded := true;
      return Ok(snapshot);
    }

    /** The conditional store: only the next generation after the one expected, only if the expected
        one is what is stored, and only of the same database; the acknowledgement names what it
        stored. */
    method Store(next: Envelope, expected: int) returns (r: Result<Ack, StorageError>)
      modifies this`snapshot
      ensures r.Ok? <==>
                && !closed && loaded && GenerationOf(old(snapshot)) == expected && next.generation == expected + 1
                && (old(snapshot).Some? ==> old(snapshot).value.databaseId == next.databaseId)
      ensures r.Ok? ==> snapshot == Some(next) && r.value == Ack(next.databaseId, next.generation, next.revision)
      ensures r.Err? ==> snapshot == old(snapshot)
      ensures r.Err? && !closed && loaded ==> r.error == StorageConflict
    {
      if closed { return Err(AdapterClosed); }
      if !loaded { return Err(NotLoaded); }
      var generation := if snapshot.Some? then snapshot.value.generation else 0;
      if generation != expected || next.generation != expected + 1
         || (snapshot.Some? && snapshot.value.databaseId != next.databaseId) {
        return Err(StorageConflict);
      }
      snapshot := Some(next);
      return Ok(Ack(next.databaseId, next.generation, next.revision));
    }

    method Close()
      modifies this`closed
      ensures closed
    {
      closed := true;
    }
  }

  class Coordinator {
    const adapter: MemoryAdapter
    const limits: Limits
    const maxPendingSnapshots: nat
    const id: Text
    var system: System
    var mode: Mode
    var generation: int
    var persistedRevision: int
    var pendingPersistence: int
    var persistenceTail: seq<Task>
    var settled: nat
    var persistenceByRevision: map<int, nat>
    var closePromise: Option<Ticket>
    var finished: bool
    ghost var trace: seq<Event>
    ghost var installs: seq<Envelope>
    ghost var failed: set<int>
    ghost var tickets: seq<Ticket>
    ghost var lies: nat
    ghost var failedLate: bool

    ghost function View(): State
      reads this, adapter
    {
      State(id, system, mode, generation, persistedRevision, pendingPersistence, persistenceTail, settled,
            persistenceByRevision, closePromise, finished, adapter.snapshot, !adapter.closed,
            trace, installs, failed, tickets, lies, failedLate)
    }

    /** `Database.open` over an adapter that has just loaded; `newId` is the random identity of a new
        database. */
    constructor (adapter: MemoryAdapter, seed: Root, limits: Limits, max: nat, newId: Text)
      requires !adapter.closed
      ensures View() == Opened(seed, adapter.snapshot, newId)
      ensures this.adapter == adapter && this.limits == limits && maxPendingSnapshots == max
    {
      this.adapter, this.limits, maxPendingSnapshots := adapter, limits, max;
      id := if adapter.snapshot.Some? then adapter.snapshot.value.databaseId else newId;
      system, mode := Start(seed), Open;
      generation := if adapter.snapshot.Some? then adapter.snapshot.value.generation else 0;
      persistedRevision := if adapter.snapshot.Some? then adapter.snapshot.value.revision else -1;
      pendingPersistence, persistenceTail, settled, persistenceByRevision := 0, [], 0, map[];
      closePromise, finished := None, false;
      trace, installs, failed, tickets, lies, failedLate := [], [], {}, [], 0, false;
    }

    method Emit(e: Event)
      modifies this`system, this`trace
      ensures View() == Persistence.Emit(old(View()), limits, e)
    {
      system := Step(system, limits, e);
      trace := trace + [e];
    }

    method SetMode(next: Mode)
      modifies this`system, this`trace, this`mode
      ensures View() == Persistence.SetMode(old(View()), limits, next)
    {
      Emit(if Usable(next) then Reopen else Engine.Close);
      mode := next;
    }

    method Fail(revision: int)
      modifies this`system, this`trace, this`mode, this`failed, this`failedLate
      ensures View() == Persistence.Fail(old(View()), limits, revision)
    {
      SetMode(Degraded);
      failed := failed + {revision};
      failedLate := failedLate || closePromise.Some?;
    }

    /** `cloneSnapshotCollections` over the committed root. */
    method Documents() returns (docs: Docs)
      requires RootOk(system.root)
      ensures docs == Persistence.Documents(system.root)
    {
      var cloned := Reload.CloneSnapshotCollections(system.root.colls);
      HasSnapshots(system.root);
      docs := cloned.value;
    }

    /** `#persist`. */
    method Persist() returns (ticket: Ticket)
      requires RootOk(system.root)
      modifies this
      ensures (View(), ticket) == Persistence.Persist(old(View()), limits, maxPendingSnapshots)
    {
      var revision := system.root.revision;
      if revision in persistenceByRevision {
        return After(persistenceByRevision[revision], revision);
      }
      if pendingPersistence >= maxPendingSnapshots {
        Fail(revision);
        return Declined(revision);
      }
      pendingPersistence := pendingPersistence + 1;
      var docs := Documents();
      var task := |persistenceTail|;
      persistenceTail := persistenceTail + [Task(revision, docs, Waiting)];
      persistenceByRevision := persistenceByRevision[revision := task];
      return After(task, revision);
    }

    /** The end of `transaction`: commit, then wait for the commit to be stored. */
    method CommitDurably(id: nat)
      requires SystemOk(system)
      modifies this
      ensures View() == DoCommit(old(View()), limits, maxPendingSnapshots, id)
    {
      var before := |system.history|;
      StepKeeps(system, limits, TryCommit(id));
      Emit(TryCommit(id));
      if |system.history| == before { return; }
      var ticket := Now(system.root.revision);
      if persistedRevision < system.root.revision { ticket := Persist(); }
      tickets := tickets + [ticket];
    }

    /** `flush`. */
    method Flush()
      requires SystemOk(system)
      modifies this
      ensures View() == DoFlush(old(View()), limits, maxPendingSnapshots)
    {
      if !Usable(mode) { return; }
      var ticket := AfterTail(|persistenceTail|, system.root.revision);
      if persistedRevision < system.root.revision { ticket := Persist(); }
      tickets := tickets + [ticket];
    }

    /** `close`, up to its first wait. */
    method Close()
      requires SystemOk(system)
      modifies this
      ensures View() == DoClose(old(View()), limits, maxPendingSnapshots)
    {
      hide Step, SystemOk, RootOk;
      SystemParts(system);
      CloseKeepsRoot(system, limits);
      if mode.Shut? || closePromise.Some? { return; }
      var ticket := AfterTail(|persistenceTail|, system.root.revision);
      SetMode(Closing);
      if persistedRevision < system.root.revision { ticket := Persist(); }
      tickets := tickets + [ticket];
      closePromise := Some(ticket);
      failedLate := ticket.Declined?;
    }

    /** The rest of `close`, once its flush has settled. */
    method FinishClose()
      modifies this, adapter`closed
      ensures View() == DoFinish(old(View()), limits)
    {
      if closePromise.None? || finished || !Done(persistenceTail, settled, closePromise.value) { return; }
      adapter.Close();
      SetMode(Shut);
      finished := true;
    }

    /** The head of the chain begins: it takes the generation it expects. */
    method StartHead()
      modifies this`persistenceTail
      ensures View() == DoStart(old(View()))
    {
      if settled < |persistenceTail| && persistenceTail[settled].phase.Waiting? {
        persistenceTail := persistenceTail[settled := persistenceTail[settled].(phase := Storing(generation, false))];
      }
    }

    /** The adapter gets to the store. */
    method Install()
      requires adapter.loaded
      modifies this`persistenceTail, this`installs, adapter`snapshot
      ensures View() == DoInstall(old(View()))
    {
      if settled >= |persistenceTail| { return; }
      var task := persistenceTail[settled];
      if !task.phase.Storing? || task.phase.installed { return; }
      var next := Envelope(id, task.phase.expected + 1, task.revision, task.docs);
      var acknowledged := adapter.Store(next, task.phase.expected);
      if acknowledged.Ok? {
        persistenceTail := persistenceTail[settled := task.(phase := Storing(task.phase.expected, true))];
        installs := installs + [next];
      }
    }

    method Reject()
      requires settled < |persistenceTail|
      modifies this
      ensures View() == Persistence.Fail(SetPhase(old(View()), Answered(false)), limits,
                                         old(persistenceTail[settled].revision))
    {
      hide Step;
      var task := persistenceTail[settled];
      persistenceTail := persistenceTail[settled := task.(phase := Answered(false))];
      Fail(task.revision);
    }

    method Recover()
      modifies this`system, this`trace, this`mode
      ensures View() == Persistence.Recover(old(View()), limits)
    {
      if mode.Degraded? && persistedRevision >= system.root.revision { SetMode(Open); }
    }

    method Take(ack: Ack)
      requires settled < |persistenceTail|
      modifies this`persistenceTail, this`generation, this`persistedRevision, this`lies
      ensures View() == Taken(old(View()), ack)
    {
      var task := persistenceTail[settled];
      persistenceTail := persistenceTail[settled := task.(phase := Answered(true))];
      generation := ack.generation;
      if ack.revision > persistedRevision { persistedRevision := ack.revision; }
      lies := lies + if Truthful(ack, task) then 0 else 1;
    }

    method Accept(ack: Ack)
      requires settled < |persistenceTail|
      modifies this
      ensures View() == Succeed(old(View()), limits, ack)
    {
      hide Taken, Persistence.Recover, Coordinator.View;
      Take(ack);
      Recover();
    }

    /** The adapter's answer, whatever it is, arrives. */
    method Answer(response: Response)
      modifies this
      ensures View() == DoAnswer(old(View()), limits, response)
    {
      hide Step, Succeed, Persistence.Fail;
      if settled >= |persistenceTail| || !persistenceTail[settled].phase.Storing? { return; }
      var task := persistenceTail[settled];
      if response.Reject?
         || response.ack.databaseId != id
         || response.ack.generation != task.phase.expected + 1
         || response.ack.revision < task.revision {
        Reject();
      } else {
        Accept(response.ack);
      }
    }

    /** The `finally` of the head. */
    method Settle()
      modifies this
      ensures View() == DoSettle(old(View()))
    {
      if settled >= |persistenceTail| || !persistenceTail[settled].phase.Answered? { return; }
      var task := persistenceTail[settled];
      pendingPersistence := pendingPersistence - 1;
      if task.revision in persistenceByRevision && persistenceByRevision[task.revision] == settled {
        persistenceByRevision := persistenceByRevision - {task.revision};
      }
      persistenceTail := persistenceTail[settled := task.(phase := Settled(task.phase.ok))];
      settled := settled + 1;
    }
  }

  lemma SystemParts(system: System)
    requires SystemOk(system)
    ensures RootOk(system.root)
  {
  }

  lemma CloseKeepsRoot(system: System, limits: Limits)
    ensures Step(system, limits, Engine.Close).root == system.root
  {
  }

  lemma HasSnapshots(root: Root)
    requires RootOk(root)
    ensures forall n :: n in root.colls ==> Reload.Snapshot(root.colls[n]).Some?
  {
  }

  lemma SystemStaysOk(seed: Root, limits: Limits, max: nat, stored: Option<Envelope>, newId: Text, moves: seq<Move>)
    requires OpenedFrom(seed, stored)
    ensures SystemOk(Play(Opened(seed, stored, newId), limits, max, moves).system)
  {
    hide Run, SystemOk, Play, Chain, Installed, Paced, Told;
    PlayOk(seed, limits, max, stored, newId, moves);
    StartOk(seed);
    RunKeeps(Start(seed), limits, Play(Opened(seed, stored, newId), limits, max, moves).trace);
  }

  lemma StartOk(seed: Root)
    requires RootOk(seed)
    ensures SystemOk(Start(seed))
  {
  }

  method Make(c: Coordinator, m: Move)
    requires c.adapter.loaded && SystemOk(c.system)
    modifies c, c.adapter`snapshot, c.adapter`closed
    ensures c.View() == Advance(old(c.View()), c.limits, c.maxPendingSnapshots, m)
  {
    hide Coordinator.View, DoCommit, DoFlush, DoClose, DoFinish, DoStart, DoInstall, DoAnswer, DoSettle;
    match m
    case Act(e) => if !e.Close? && !e.Reopen? { c.Emit(e); }
    case CommitDurably(id) => c.CommitDurably(id);
    case Flush => c.Flush();
    case CallClose => c.Close();
    case FinishClose => c.FinishClose();
    case StartHead => c.StartHead();
    case Install => c.Install();
    case Answer(response) => c.Answer(response);
    case Settle => c.Settle();
  }

  lemma ViewsSystem(c: Coordinator)
    ensures c.View().system == c.system
  {
  }

  /** Any schedule, over an adapter that has loaded: what is stored at the end is a snapshot of
      the database at the revision it names, no older than any call was told. */
  method Drive(adapter: MemoryAdapter, seed: Root, limits: Limits, max: nat, newId: Text, moves: seq<Move>)
    returns (c: Coordinator)
    requires !adapter.closed && adapter.loaded && OpenedFrom(seed, adapter.snapshot)
    modifies adapter`snapshot, adapter`closed
    ensures c.View() == Play(Opened(seed, old(adapter.snapshot), newId), limits, max, moves)
    ensures Sound(seed, limits, max, old(adapter.snapshot), c.View())
  {
    hide Coordinator.View, Advance, Sound, Opened;
    c := new Coordinator(adapter, seed, limits, max, newId);
    ghost var first := c.View();
    for i := 0 to |moves|
      invariant fresh(c) && c.adapter == adapter && adapter.loaded
      invariant c.limits == limits && c.maxPendingSnapshots == max
      invariant c.View() == Play(first, limits, max, moves[..i])
    {
      SystemStaysOk(seed, limits, max, old(adapter.snapshot), newId, moves[..i]);
      ViewsSystem(c);
      Make(c, moves[i]);
      PlayNext(first, limits, max, moves[..i], moves[i]);
      assert moves[..i + 1] == moves[..i] + [moves[i]];
    }
    assert moves[..|moves|] == moves;
    PlayOk(seed, limits, max, old(adapter.snapshot), newId, moves);
  }
}
