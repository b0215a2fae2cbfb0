/** The coordinator over the file adapter: what a caller was told is durable is in the database that
    opens after any loss of power. */
module EndToEnd {
  import opened Texts
  import opened SnapshotFiles
  import opened Disks
  import opened FileAdapters
  import opened Restart
  import Engine
  import Queries
  import Conditions
  import P = Persistence
  import CS = CrashSafety

  /** The coordinator, what the file adapter remembers, the disk, and whether the directory sync of the
      last acknowledged store was skipped. */
  datatype World = World(s: P.State, memory: Memory, disk: DiskState, unsynced: bool)

  /** Any move of the callers and the coordinator, or the file adapter's store of the snapshot at the head
      of the chain, together with its answer. */
  datatype FileMove = Other(m: P.Move) | StoreHead(faults: seq<Fault>)

  datatype Beat = Beat(move: FileMove, r: Result<FileAck, FileError>, passed: seq<DiskState>, after: World)

  predicate HeadStores(s: P.State) {
    s.head < |s.tasks| && s.tasks[s.head].phase.Storing? && !s.tasks[s.head].phase.installed
  }

  /** What the task at the head stores. */
  function HeadSnapshot(s: P.State): Snapshot
    requires HeadStores(s)
  {
    var task := s.tasks[s.head];
    P.Envelope(s.id, task.phase.expected + 1, task.revision, task.docs)
  }

  function ResponseTo(r: Result<FileAck, FileError>): P.Response {
    match r
    case Ok(ack) => P.Acknowledge(P.Ack(ack.databaseId, ack.generation, ack.revision))
    case Err(_) => P.Reject
  }

  /** The coordinator after a store of the head that left the disk like this. */
  function HeadAnswered(s: P.State, limits: Engine.Limits, placed: bool, r: Result<FileAck, FileError>): P.State {
    P.DoAnswer(if placed then P.DoInstall(s) else s, limits, ResponseTo(r))
  }

  predicate Placed(s: P.State, d: DiskState)
    requires HeadStores(s)
  {
    PrimaryOf(Now(d)) == Some(HeadSnapshot(s))
  }

  function LastSync(w: World, faults: seq<Fault>): Fault {
    FaultAt(faults, StoreSteps(PrimaryOf(Now(w.disk))) - 1)
  }

  ghost predicate Steps(limits: Engine.Limits, max: nat, w: World, b: Beat) {
    match b.move
    case Other(m) =>
      && !m.Install? && !m.Answer?
      && b.after.s == P.Advance(w.s, limits, max, m)
      && b.after.memory == w.memory.(closed := w.memory.closed || !b.after.s.adapterOpen)
      && b.after.disk == w.disk && b.after.unsynced == w.unsynced && b.passed == []
    case StoreHead(faults) =>
      if !HeadStores(w.s) then b.after == w && b.passed == []
      else
        && WholeStore(w.memory, w.disk, HeadSnapshot(w.s), HeadSnapshot(w.s).generation - 1, faults, 0, b.r, b.passed,
                      b.after.memory, b.after.disk)
        && b.after.s == HeadAnswered(w.s, limits, Placed(w.s, b.after.disk), b.r)
        && b.after.unsynced == if b.r.Ok? then LastSync(w, faults).Unsupported? else w.unsynced
  }

  function WorldAfter(w: World, beats: seq<Beat>): World {
    if beats == [] then w else beats[|beats| - 1].after
  }

  /** One life of a process. */
  ghost predicate Life(limits: Engine.Limits, max: nat, w: World, beats: seq<Beat>) {
    forall i :: 0 <= i < |beats| ==> Steps(limits, max, WorldAfter(w, beats[..i]), beats[i])
  }

  /* ---------- what every crash leaves ---------- */

  /** Whatever a crash leaves was committed. */
  ghost predicate Founds(seed: Engine.Root, limits: Engine.Limits, trace: seq<Engine.Event>, d: DiskState) {
    forall k :: 0 <= k <= |d.pending| ==> Committed(seed, limits, trace, PrimaryOf(LookAt(d, k)))
  }

  ghost predicate Committed(seed: Engine.Root, limits: Engine.Limits, trace: seq<Engine.Event>, p: Option<Snapshot>) {
    p.Some? ==> P.WasCommitted(seed, limits, trace, p.value.revision, p.value.docs)
  }

  /** And is no older than this revision. */
  ghost predicate Floor(d: DiskState, revision: int) {
    forall k :: 0 <= k <= |d.pending| ==> revision <= P.RevisionOf(PrimaryOf(LookAt(d, k)))
  }

  /** A disk that a coordinator in this state can lose power over. */
  ghost predicate Holds(seed: Engine.Root, limits: Engine.Limits, w: World, d: DiskState) {
    && CS.Healthy(d)
    && Founds(seed, limits, w.s.trace, d)
    && (!w.unsynced ==> Floor(d, w.s.persistedRevision))
  }

  /** The coordinator's invariant, its idea of storage being what is in the file. */
  ghost predicate Kept(seed: Engine.Root, limits: Engine.Limits, max: nat, origin: Option<Snapshot>, w: World) {
    && P.Sound(seed, limits, max, origin, w.s) && w.s.lies == 0
    && w.s.storage == PrimaryOf(Now(w.disk))
    && (!w.memory.closed ==> w.s.adapterOpen)
    && Holds(seed, limits, w, w.disk)
  }

  lemma CommittedLater(seed: Engine.Root, limits: Engine.Limits, trace: seq<Engine.Event>, trace': seq<Engine.Event>,
                       p: Option<Snapshot>)
    requires Committed(seed, limits, trace, p) && trace <= trace'
    ensures Committed(seed, limits, trace', p)
  {
    hide Engine.Run, P.Documents;
    if p.Some? {
      var n :| 0 <= n <= |trace| && var root := Engine.Run(Engine.Start(seed), limits, trace[..n]).root;
                                    root.revision == p.value.revision && P.Documents(root) == p.value.docs;
      assert trace'[..n] == trace[..n];
    }
  }

  lemma FoundsLater(seed: Engine.Root, limits: Engine.Limits, trace: seq<Engine.Event>, trace': seq<Engine.Event>,
                    d: DiskState)
    requires Founds(seed, limits, trace, d) && trace <= trace'
    ensures Founds(seed, limits, trace', d)
  {
    hide Committed, LookAt;
    forall k | 0 <= k <= |d.pending|
      ensures Committed(seed, limits, trace', PrimaryOf(LookAt(d, k)))
    {
      CommittedLater(seed, limits, trace, trace', PrimaryOf(LookAt(d, k)));
    }
  }

  /* ---------- moves of the callers and the coordinator ---------- */

  lemma EnsureQuiet(limits: Engine.Limits, max: nat, s: P.State, otherwise: P.Ticket)
    ensures var s' := P.Ensure(s, limits, max, otherwise).0;
            && s'.storage == s.storage && s'.lies == s.lies && s'.adapterOpen == s.adapterOpen
            && s'.persistedRevision == s.persistedRevision && s.trace <= s'.trace
  {
    hide Engine.Step, P.Documents;
  }

  /** Nothing but an answer or an install changes what is known of storage. */
  lemma OtherQuiet(limits: Engine.Limits, max: nat, s: P.State, m: P.Move)
    requires !m.Install? && !m.Answer?
    ensures var s' := P.Advance(s, limits, max, m);
            && s'.storage == s.storage && s'.lies == s.lies && (s'.adapterOpen ==> s.adapterOpen)
            && s'.persistedRevision == s.persistedRevision && s.trace <= s'.trace
  {
    hide Engine.Step, P.Documents, P.Ensure;
    match m
    case CommitDurably(id) =>
      var s1 := P.Emit(s, limits, Engine.TryCommit(id));
      EnsureQuiet(limits, max, s1, P.Now(P.Current(s1)));
    case Flush => EnsureQuiet(limits, max, s, P.AfterTail(|s.tasks|, P.Current(s)));
    case CallClose =>
      EnsureQuiet(limits, max, P.SetMode(s, limits, P.Closing), P.AfterTail(|s.tasks|, P.Current(s)));
    case _ =>
  }

  lemma OtherKeeps(seed: Engine.Root, limits: Engine.Limits, max: nat, origin: Option<Snapshot>, w: World, b: Beat)
    requires Engine.RootOk(seed) && Kept(seed, limits, max, origin, w) && Steps(limits, max, w, b) && b.move.Other?
    ensures Kept(seed, limits, max, origin, b.after)
  {
    hide P.Core, P.Winding, P.Advance, Founds, Floor, CS.Healthy, Now, Engine.RootOk;
    OtherQuiet(limits, max, w.s, b.move.m);
    P.AdvanceCore(seed, limits, max, origin, w.s, b.move.m);
    P.AdvanceWinding(seed, limits, max, origin, w.s, b.move.m);
    FoundsLater(seed, limits, w.s.trace, b.after.s.trace, w.disk);
  }

  /* ---------- stores ---------- */

  /** What an admitted store of the head finds in the coordinator's state. */
  lemma HeadFacts(seed: Engine.Root, limits: Engine.Limits, max: nat, origin: Option<Snapshot>, s: P.State)
    requires P.Core(seed, limits, max, origin, s) && HeadStores(s) && s.lies == 0
    ensures var next := HeadSnapshot(s);
            && P.WasCommitted(seed, limits, s.trace, next.revision, next.docs)
            && s.persistedRevision <= P.RevisionOf(s.storage) <= next.revision
  {
    hide P.WasCommitted, P.Chain, P.Told, P.FailuresCovered, P.OneDatabase, P.Installed, Engine.Run;
  }

  /** Whatever a crash shows during a store of the head was committed, and is no older than was known to
      be stored. */
  lemma StoreHolds(seed: Engine.Root, limits: Engine.Limits, max: nat, origin: Option<Snapshot>, w: World, d: DiskState)
    requires Kept(seed, limits, max, origin, w) && HeadStores(w.s)
    requires StoreState(w.disk, d, PrimaryOf(Now(w.disk)), HeadSnapshot(w.s))
    requires HeadSnapshot(w.s).generation == GenerationIn(PrimaryOf(Now(w.disk))) + 1
    requires PrimaryOf(Now(w.disk)).Some? ==> PrimaryOf(Now(w.disk)).value.databaseId == w.s.id
    ensures Holds(seed, limits, w, d)
  {
    hide P.Core, P.Winding, LookAt, Now, Committed, CS.Healthy, Steady;
    var next := HeadSnapshot(w.s);
    HeadFacts(seed, limits, max, origin, w.s);
    HealthyStore(w.disk, d, next);
    NowIsLast(w.disk);
    assert Committed(seed, limits, w.s.trace, Some(next)) by { NextCommitted(seed, limits, w.s.trace, next); }
    forall k | 0 <= k <= |d.pending|
      ensures Committed(seed, limits, w.s.trace, PrimaryOf(LookAt(d, k)))
      ensures !w.unsynced ==> w.s.persistedRevision <= P.RevisionOf(PrimaryOf(LookAt(d, k)))
    {
      assert StoreShows(w.disk, LookAt(d, k), PrimaryOf(Now(w.disk)), next);
      ShownPrimary(w.disk, LookAt(d, k), next);
      if PrimaryOf(LookAt(d, k)) != Some(next) {
        var k0 :| 0 <= k0 <= |w.disk.pending| && PrimaryOf(LookAt(w.disk, k0)) == PrimaryOf(LookAt(d, k));
      }
    }
  }

  lemma NextCommitted(seed: Engine.Root, limits: Engine.Limits, trace: seq<Engine.Event>, next: Snapshot)
    requires P.WasCommitted(seed, limits, trace, next.revision, next.docs)
    ensures Committed(seed, limits, trace, Some(next))
  {
    hide P.WasCommitted;
  }

  lemma HealthyStore(d0: DiskState, d: DiskState, next: Snapshot)
    requires CS.Healthy(d0) && StoreState(d0, d, PrimaryOf(Now(d0)), next)
    requires next.generation == GenerationIn(PrimaryOf(Now(d0))) + 1
    requires PrimaryOf(Now(d0)).Some? ==> PrimaryOf(Now(d0)).value.databaseId == next.databaseId
    ensures CS.Healthy(d)
  {
    hide Now, LookAt, Steady, StoreState;
    StoreSteady(d0, d, PrimaryOf(Now(d0)), next, CS.ANYTHING);
  }

  /** A store shows the new primary or one that a crash could have shown before. */
  lemma ShownPrimary(d0: DiskState, look: Look, next: Snapshot)
    requires StoreShows(d0, look, PrimaryOf(Now(d0)), next)
    ensures PrimaryOf(look) == Some(next)
         || exists k0 :: 0 <= k0 <= |d0.pending| && PrimaryOf(LookAt(d0, k0)) == PrimaryOf(look)
  {
    hide LookAt, Now;
    NowIsLast(d0);
    if Possible(d0, look) {
      var k0 :| 0 <= k0 <= |d0.pending| && LookAt(d0, k0) == look;
    } else if look == BackedUp(Now(d0), PrimaryOf(Now(d0))) {
      assert PrimaryOf(LookAt(d0, |d0.pending|)) == PrimaryOf(look);
    }
  }

  /** What is found after an admitted store: the new snapshot or the same one as before; and the new one
      if it was acknowledged. */
  lemma PrimaryAfter(d0: DiskState, snapshot: Snapshot, faults: seq<Fault>, ok: bool, passed: seq<DiskState>,
                     d: DiskState)
    requires AdmittedStore(d0, snapshot, faults, 0, ok, passed, d)
    ensures PrimaryOf(Now(d)) == Some(snapshot) || PrimaryOf(Now(d)) == PrimaryOf(Now(d0))
    ensures ok ==> PrimaryOf(Now(d)) == Some(snapshot)
  {
    hide Now, StoreState, Settled, Runs;
    if ok { Acknowledged(Now(d0), snapshot, faults, 0); }
  }

  lemma InstallShape(limits: Engine.Limits, max: nat, s: P.State)
    requires HeadStores(s)
    ensures var can := s.adapterOpen && P.GenerationOf(s.storage) == s.tasks[s.head].phase.expected
                       && (s.storage.Some? ==> s.storage.value.databaseId == s.id);
            var s' := P.DoInstall(s);
            && (!can ==> s' == s)
            && (can ==> s'.storage == Some(HeadSnapshot(s)) && s'.tasks[s.head].phase.installed)
            && s'.head == s.head && |s'.tasks| == |s.tasks| && s'.lies == s.lies && s'.adapterOpen == s.adapterOpen
            && s'.tasks[s.head].phase.Storing? && s'.tasks[s.head].phase.expected == s.tasks[s.head].phase.expected
            && s'.tasks[s.head].revision == s.tasks[s.head].revision && s'.id == s.id
            && s'.persistedRevision == s.persistedRevision && s'.trace == s.trace
  {
  }

  lemma FailQuiet(limits: Engine.Limits, s: P.State, revision: int)
    ensures var s' := P.Fail(s, limits, revision);
            && s'.storage == s.storage && s'.adapterOpen == s.adapterOpen && s.trace <= s'.trace
            && s'.lies == s.lies && s'.persistedRevision == s.persistedRevision
  {
    hide Engine.Step;
  }

  lemma RecoverQuiet(limits: Engine.Limits, s: P.State)
    ensures var s' := P.Recover(s, limits);
            && s'.storage == s.storage && s'.adapterOpen == s.adapterOpen && s.trace <= s'.trace
            && s'.lies == s.lies && s'.persistedRevision == s.persistedRevision
  {
    hide Engine.Step;
  }

  /** What an answer to the head changes: nothing about storage; and on acceptance what is known of it. */
  lemma AnswerQuiet(limits: Engine.Limits, s: P.State, response: P.Response)
    requires s.head < |s.tasks| && s.tasks[s.head].phase.Storing?
    ensures var s' := P.DoAnswer(s, limits, response);
            && s'.storage == s.storage && s'.adapterOpen == s.adapterOpen && s.trace <= s'.trace
            && (response.Reject? ==> s'.lies == s.lies && s'.persistedRevision == s.persistedRevision)
            && (P.Succeeds(s, response) && P.Truthful(response.ack, s.tasks[s.head]) ==>
                  && s'.lies == s.lies
                  && s'.persistedRevision == (if s.tasks[s.head].revision > s.persistedRevision
                                              then s.tasks[s.head].revision else s.persistedRevision))
  {
    hide P.Fail, P.Recover;
    if P.Succeeds(s, response) {
      RecoverQuiet(limits, P.Taken(s, response.ack));
    } else {
      FailQuiet(limits, P.SetPhase(s, P.Answered(false)), s.tasks[s.head].revision);
    }
  }

  lemma RefusedKeeps(seed: Engine.Root, limits: Engine.Limits, max: nat, origin: Option<Snapshot>, w: World, b: Beat)
    requires Engine.RootOk(seed) && Kept(seed, limits, max, origin, w) && Steps(limits, max, w, b) && b.move.StoreHead?
    requires HeadStores(w.s)
    requires !Admits(w.memory, Now(w.disk), HeadSnapshot(w.s), HeadSnapshot(w.s).generation - 1)
    ensures Kept(seed, limits, max, origin, b.after)
  {
    hide P.Core, P.Winding, Founds, Floor, CS.Healthy, Now, Engine.RootOk, Admits, Verdict, P.DoInstall, P.DoAnswer;
    InstallShape(limits, max, w.s);
    assert b.after.s == P.Advance(w.s, limits, max, P.Answer(P.Reject));
    AnswerQuiet(limits, w.s, P.Reject);
    P.AdvanceCore(seed, limits, max, origin, w.s, P.Answer(P.Reject));
    P.AdvanceWinding(seed, limits, max, origin, w.s, P.Answer(P.Reject));
    FoundsLater(seed, limits, w.s.trace, b.after.s.trace, w.disk);
  }

  lemma AdmittedFacts(memory: Memory, look: Look, snapshot: Snapshot, expected: int)
    requires Admits(memory, look, snapshot, expected)
    ensures !memory.closed && snapshot.generation == expected + 1 == GenerationIn(PrimaryOf(look)) + 1
    ensures PrimaryOf(look).Some? ==> PrimaryOf(look).value.databaseId == snapshot.databaseId
  {
    hide Reads, Writable;
    PrimaryRead(look, memory.options);
  }

  /** The coordinator's state after an admitted store of the head. */
  lemma StoredSound(seed: Engine.Root, limits: Engine.Limits, max: nat, origin: Option<Snapshot>, s: P.State,
                    placed: bool, r: Result<FileAck, FileError>)
    requires Engine.RootOk(seed) && P.Sound(seed, limits, max, origin, s) && s.lies == 0 && HeadStores(s)
    requires s.adapterOpen && P.GenerationOf(s.storage) == s.tasks[s.head].phase.expected
    requires s.storage.Some? ==> s.storage.value.databaseId == s.id
    requires r.Ok? ==> placed && r.value == FileAck(s.id, HeadSnapshot(s).generation, HeadSnapshot(s).revision)
    ensures var s' := HeadAnswered(s, limits, placed, r);
            && P.Sound(seed, limits, max, origin, s') && s'.lies == 0 && s.trace <= s'.trace && s'.adapterOpen
            && s'.storage == (if placed then Some(HeadSnapshot(s)) else s.storage)
            && s'.persistedRevision == (if r.Ok? && HeadSnapshot(s).revision > s.persistedRevision
                                        then HeadSnapshot(s).revision else s.persistedRevision)
  {
    hide P.Core, P.Winding, Engine.RootOk, P.DoInstall, P.DoAnswer;
    InstallShape(limits, max, s);
    var s1 := if placed then P.DoInstall(s) else s;
    if placed {
      assert s1 == P.Advance(s, limits, max, P.Install);
      P.AdvanceCore(seed, limits, max, origin, s, P.Install);
      P.AdvanceWinding(seed, limits, max, origin, s, P.Install);
    }
    var response := ResponseTo(r);
    AnswerQuiet(limits, s1, response);
    assert P.DoAnswer(s1, limits, response) == P.Advance(s1, limits, max, P.Answer(response));
    P.AdvanceCore(seed, limits, max, origin, s1, P.Answer(response));
    P.AdvanceWinding(seed, limits, max, origin, s1, P.Answer(response));
  }

  lemma SettledFloor(d0: DiskState, next: Snapshot, faults: seq<Fault>, passed: seq<DiskState>, d: DiskState)
    requires AdmittedStore(d0, next, faults, 0, true, passed, d)
    requires next.generation == GenerationIn(PrimaryOf(Now(d0))) + 1
    requires !FaultAt(faults, StoreSteps(PrimaryOf(Now(d0))) - 1).Unsupported?
    ensures Floor(d, next.revision)
  {
    hide LookAt, Now, AdmittedStore;
    SettledExactly(d0, next, faults, 0, passed, d);
  }

  lemma StoredKeeps(seed: Engine.Root, limits: Engine.Limits, max: nat, origin: Option<Snapshot>, w: World, b: Beat)
    requires Engine.RootOk(seed) && Kept(seed, limits, max, origin, w) && Steps(limits, max, w, b) && b.move.StoreHead?
    requires HeadStores(w.s)
    requires Admits(w.memory, Now(w.disk), HeadSnapshot(w.s), HeadSnapshot(w.s).generation - 1)
    ensures Kept(seed, limits, max, origin, b.after)
    ensures forall i :: 0 <= i < |b.passed| ==> Holds(seed, limits, w, b.passed[i])
  {
    hide P.Core, P.Winding, Founds, Floor, CS.Healthy, Now, Engine.RootOk, Admits, HeadAnswered, StoreState, Settled;
    hide Runs;
    var next := HeadSnapshot(w.s);
    AdmittedFacts(w.memory, Now(w.disk), next, next.generation - 1);
    PrimaryAfter(w.disk, next, b.move.faults, b.r.Ok?, b.passed, b.after.disk);
    StoredSound(seed, limits, max, origin, w.s, Placed(w.s, b.after.disk), b.r);
    StoreHolds(seed, limits, max, origin, w, b.after.disk);
    forall i | 0 <= i < |b.passed|
      ensures Holds(seed, limits, w, b.passed[i])
    {
      StoreHolds(seed, limits, max, origin, w, b.passed[i]);
    }
    FoundsLater(seed, limits, w.s.trace, b.after.s.trace, b.after.disk);
    HeadFacts(seed, limits, max, origin, w.s);
    if b.r.Ok? && !b.after.unsynced {
      SettledFloor(w.disk, next, b.move.faults, b.passed, b.after.disk);
    }
  }

  lemma StepKeeps(seed: Engine.Root, limits: Engine.Limits, max: nat, origin: Option<Snapshot>, w: World, b: Beat)
    requires Engine.RootOk(seed) && Kept(seed, limits, max, origin, w) && Steps(limits, max, w, b)
    ensures Kept(seed, limits, max, origin, b.after)
    ensures forall i :: 0 <= i < |b.passed| ==> Holds(seed, limits, w, b.passed[i])
  {
    hide Kept, Holds, Admits, Engine.RootOk, Now, HeadAnswered, P.Advance, Verdict, AdmittedStore;
    if b.move.Other? {
      OtherKeeps(seed, limits, max, origin, w, b);
    } else if HeadStores(w.s) {
      if Admits(w.memory, Now(w.disk), HeadSnapshot(w.s), HeadSnapshot(w.s).generation - 1) {
        StoredKeeps(seed, limits, max, origin, w, b);
      } else {
        RefusedKeeps(seed, limits, max, origin, w, b);
      }
    }
  }

  lemma {:induction false} LifeKeeps(seed: Engine.Root, limits: Engine.Limits, max: nat, origin: Option<Snapshot>,
                                     w: World, beats: seq<Beat>, i: nat)
    requires Engine.RootOk(seed) && Kept(seed, limits, max, origin, w) && Life(limits, max, w, beats) && i <= |beats|
    ensures Kept(seed, limits, max, origin, WorldAfter(w, beats[..i]))
    ensures i < |beats| ==> forall j :: 0 <= j < |beats[i].passed| ==>
              Holds(seed, limits, WorldAfter(w, beats[..i]), beats[i].passed[j])
    decreases i
  {
    hide Kept, Holds, Steps, Engine.RootOk;
    if i > 0 {
      LifeKeeps(seed, limits, max, origin, w, beats, i - 1);
      StepKeeps(seed, limits, max, origin, WorldAfter(w, beats[..i - 1]), beats[i - 1]);
    }
    if i < |beats| { StepKeeps(seed, limits, max, origin, WorldAfter(w, beats[..i]), beats[i]); }
  }

  /* ---------- beginning, and coming back ---------- */

  /** Whatever power is lost, this is found. */
  ghost predicate Certain(d: DiskState, p: Option<Snapshot>) {
    forall k :: 0 <= k <= |d.pending| ==> PrimaryOf(LookAt(d, k)) == p
  }

  lemma OriginCommitted(seed: Engine.Root, limits: Engine.Limits, origin: Option<Snapshot>)
    requires P.OpenedFrom(seed, origin)
    ensures Committed(seed, limits, [], origin)
  {
    hide P.Documents, Engine.RootOk;
    var none: seq<Engine.Event> := [];
    assert none[..0] == [] && Engine.Run(Engine.Start(seed), limits, none).root == seed;
  }

  /** A database opened over a snapshot that is there for certain keeps the invariant. */
  lemma LifeBegins(seed: Engine.Root, limits: Engine.Limits, max: nat, origin: Option<Snapshot>, newId: Text,
                   memory: Memory, d: DiskState)
    requires P.OpenedFrom(seed, origin) && CS.Healthy(d) && Certain(d, origin)
    ensures Kept(seed, limits, max, origin, World(P.Opened(seed, origin, newId), memory, d, false))
  {
    hide P.OpenedFrom, P.Core, P.Winding, LookAt, Now, CS.Healthy, Committed;
    P.OpenedOk(seed, limits, max, origin, newId);
    OriginCommitted(seed, limits, origin);
    NowIsLast(d);
    assert PrimaryOf(LookAt(d, |d.pending|)) == origin;
  }

  /** An opening after a loss of power, if it succeeds and does not roll back, answers with what the crash
      left, and leaves that there for certain. */
  lemma OpeningFinds(e: CS.Entry, f: Format)
    requires CS.Healthy(e.before) && e.before.pending == [] && CS.Lawful(e, f)
    requires e.event.Opened? && e.event.answer.Ok? && !CS.RollsBack(e, f)
    ensures e.event.answer.value == PrimaryOf(Now(e.before))
    ensures CS.Healthy(e.after) && Certain(e.after, e.event.answer.value) && !e.memory'.closed
  {
    hide CS.Healthy, LookAt, Now, CleanSteps, Reads, Reached, Between, WholeLoad;
    CS.OpenedAnswers(e, f);
    CS.OpenedLeaves(e, f);
    CS.LawfulHealthy(e, f);
    Settles(e.before, e.after);
  }

  lemma Settles(d0: DiskState, d: DiskState)
    requires d0.pending == [] && Reached(d0, d, Now(d0))
    ensures Certain(d, PrimaryOf(Now(d0)))
  {
    hide WellFormed;
    OneLook(d0);
  }

  /** A call that resolved did so for a revision that the coordinator knows to be persisted. */
  lemma ResolvedPersisted(seed: Engine.Root, limits: Engine.Limits, max: nat, origin: Option<Snapshot>, s: P.State,
                          i: nat)
    requires P.Core(seed, limits, max, origin, s) && i < |s.tickets| && P.Resolved(s, s.tickets[i])
    ensures s.tickets[i].target <= s.persistedRevision
  {
    hide P.Traced, P.Installed, P.Paced, P.Chain;
    assert P.TicketOk(s.tickets[i], s.tasks, s.failed, s.persistedRevision);
  }

  /** The database that opens is one that was committed, with the same answers to every query, and what it
      answers with is no older than any revision that a call resolved for. */
  ghost predicate ComesBack(seed: Engine.Root, schemas: Schemas, limits: Engine.Limits, w: World, x: Option<Snapshot>) {
    && (!w.unsynced ==> forall i :: 0 <= i < |w.s.tickets| && P.Resolved(w.s, w.s.tickets[i]) ==>
                          w.s.tickets[i].target <= P.RevisionOf(x))
    && (x.Some? ==>
          && Loads(schemas, x.value) && P.OpenedFrom(Reopened(schemas, x.value), x)
          && exists n :: 0 <= n <= |w.s.trace|
                         && Alike(Reopened(schemas, x.value),
                                  Engine.Run(Engine.Start(seed), limits, w.s.trace[..n]).root))
  }

  lemma CrashComesBack(seed: Engine.Root, schemas: Schemas, limits: Engine.Limits, max: nat, origin: Option<Snapshot>,
                       w: World, d: DiskState, e: CS.Entry, k: nat, damaged: set<nat>, f: Format)
    requires P.OpenedFrom(seed, origin) && WellNamed(schemas)
    requires seed.colls.Keys == schemas.Keys && Shaped(schemas, seed.colls)
    requires Kept(seed, limits, max, origin, w) && Holds(seed, limits, w, d) && k <= |d.pending|
    requires e.before == Crashed(d, k, damaged) && CS.Lawful(e, f)
    requires e.event.Opened? && e.event.answer.Ok? && !CS.RollsBack(e, f)
    ensures ComesBack(seed, schemas, limits, w, e.event.answer.value)
  {
    hide P.OpenedFrom, P.Core, P.Winding, Shaped, WellNamed, CS.Healthy, LookAt, Now, CS.Lawful, CS.RollsBack, Crashed;
    hide P.WasCommitted, P.Resolved, Loads, Alike, Engine.Run;
    CS.CrashFinds(d, k, damaged);
    CrashHealthy(d, k, damaged);
    OpeningFinds(e, f);
    var x := e.event.answer.value;
    assert Committed(seed, limits, w.s.trace, PrimaryOf(LookAt(d, k)));
    if x.Some? { CommittedReopens(seed, schemas, limits, origin, w.s.trace, x.value); }
    if !w.unsynced {
      assert w.s.persistedRevision <= P.RevisionOf(PrimaryOf(LookAt(d, k)));
      forall i | 0 <= i < |w.s.tickets| && P.Resolved(w.s, w.s.tickets[i])
        ensures w.s.tickets[i].target <= P.RevisionOf(x)
      {
        ResolvedPersisted(seed, limits, max, origin, w.s, i);
      }
    }
  }

  lemma CrashHealthy(d: DiskState, k: nat, damaged: set<nat>)
    requires CS.Healthy(d) && k <= |d.pending|
    ensures CS.Healthy(Crashed(d, k, damaged)) && Crashed(d, k, damaged).pending == []
  {
    hide LookAt, Steady;
    CrashKeepsSteady(d, k, damaged, CS.ANYTHING);
  }

  /** What the whole system promises. A database is opened over a file whose snapshot is there for certain,
      and lives, with whatever transactions, flushes, stores and failures; power is lost between two moves
      or in the middle of a store, and the file is opened again. If that opening succeeds without rolling
      back, then the database is as it was committed at some point of that life, it answers every query
      alike, and unless the directory sync of the last acknowledged store was skipped, it is at no older
      revision than any call had resolved for. And the next life can begin there. */
  lemma DurableComesBack(seed: Engine.Root, schemas: Schemas, limits: Engine.Limits, max: nat, origin: Option<Snapshot>,
                         newId: Text, memory: Memory, d0: DiskState, beats: seq<Beat>, i: nat, d: DiskState,
                         e: CS.Entry, k: nat, damaged: set<nat>, f: Format)
    requires P.OpenedFrom(seed, origin) && WellNamed(schemas)
    requires seed.colls.Keys == schemas.Keys && Shaped(schemas, seed.colls)
    requires CS.Healthy(d0) && Certain(d0, origin)
    requires Life(limits, max, World(P.Opened(seed, origin, newId), memory, d0, false), beats) && i <= |beats|
    requires var w := WorldAfter(World(P.Opened(seed, origin, newId), memory, d0, false), beats[..i]);
             d == w.disk || (i < |beats| && d in beats[i].passed)
    requires k <= |d.pending| && e.before == Crashed(d, k, damaged) && CS.Lawful(e, f)
    requires e.event.Opened? && e.event.answer.Ok? && !CS.RollsBack(e, f)
    ensures var w := WorldAfter(World(P.Opened(seed, origin, newId), memory, d0, false), beats[..i]);
            ComesBack(seed, schemas, limits, w, e.event.answer.value)
    ensures CS.Healthy(e.after) && Certain(e.after, e.event.answer.value) && !e.memory'.closed
  {
    hide P.OpenedFrom, Shaped, WellNamed, CS.Healthy, CS.Lawful, CS.RollsBack, Crashed, Kept, Holds, Steps, Certain;
    hide ComesBack;
    hide Engine.RootOk, P.Opened;
    var w0 := World(P.Opened(seed, origin, newId), memory, d0, false);
    SeedIsOk(seed, origin);
    LifeBegins(seed, limits, max, origin, newId, memory, d0);
    LifeKeeps(seed, limits, max, origin, w0, beats, i);
    var w := WorldAfter(w0, beats[..i]);
    KeptHolds(seed, limits, max, origin, w);
    CrashComesBack(seed, schemas, limits, max, origin, w, d, e, k, damaged, f);
    HoldsHealthy(seed, limits, w, d);
    CrashHealthy(d, k, damaged);
    OpeningFinds(e, f);
  }

  lemma SeedIsOk(seed: Engine.Root, origin: Option<Snapshot>)
    requires P.OpenedFrom(seed, origin)
    ensures Engine.RootOk(seed)
  {
  }

  lemma KeptHolds(seed: Engine.Root, limits: Engine.Limits, max: nat, origin: Option<Snapshot>, w: World)
    requires Kept(seed, limits, max, origin, w)
    ensures Holds(seed, limits, w, w.disk)
  {
  }

  lemma HoldsHealthy(seed: Engine.Root, limits: Engine.Limits, w: World, d: DiskState)
    requires Holds(seed, limits, w, d)
    ensures CS.Healthy(d)
  {
  }

  /** The same answers, to every query. */
  lemma AnswersComeBack(seed: Engine.Root, schemas: Schemas, limits: Engine.Limits, w: World, x: Snapshot)
    returns (n: nat)
    requires ComesBack(seed, schemas, limits, w, Some(x))
    ensures n <= |w.s.trace|
    ensures var root := Engine.Run(Engine.Start(seed), limits, w.s.trace[..n]).root;
            forall name, condition: Conditions.Where, options: Queries.Options ::
              name in Reopened(schemas, x).colls ==>
                && name in root.colls
                && Queries.Answer(Reopened(schemas, x).colls[name], condition, options)
                   == Queries.Answer(root.colls[name], condition, options)
  {
    hide Queries.Answer, Engine.Run, Reopened, Loads, P.OpenedFrom, P.Resolved;
    n :| 0 <= n <= |w.s.trace|
         && Alike(Reopened(schemas, x), Engine.Run(Engine.Start(seed), limits, w.s.trace[..n]).root);
    var root := Engine.Run(Engine.Start(seed), limits, w.s.trace[..n]).root;
    forall name, condition: Conditions.Where, options: Queries.Options | name in Reopened(schemas, x).colls
      ensures Queries.Answer(Reopened(schemas, x).colls[name], condition, options)
           == Queries.Answer(root.colls[name], condition, options)
    {
      RestartAnswersAlike(Reopened(schemas, x), root, name, condition, options);
    }
  }

  /* ---------- a life, on the adapter ---------- */

  /** One move, the coordinator's state as a value and the file adapter as an object. */
  method LiveOn(adapter: FileAdapter, s: P.State, limits: Engine.Limits, max: nat, move: FileMove, ghost unsynced: bool)
    returns (next: P.State, ghost b: Beat)
    requires WellFormed(adapter.disk.state) && (move.Other? ==> !move.m.Install? && !move.m.Answer?)
    modifies adapter, adapter.disk
    ensures b.move == move && Steps(limits, max, World(s, old(adapter.Knows()), old(adapter.disk.state), unsynced), b)
    ensures b.after == World(next, adapter.Knows(), adapter.disk.state, b.after.unsynced)
  {
    hide Now, WellFormed, P.Advance, P.DoAnswer, P.DoInstall, WholeStore;
    ghost var w := World(s, adapter.Knows(), adapter.disk.state, unsynced);
    next := s;
    match move {
      case Other(m) =>
        next := P.Advance(s, limits, max, m);
        if !next.adapterOpen { adapter.Close(); }
        b := Beat(move, Err(NotReady), [], World(next, adapter.Knows(), adapter.disk.state, unsynced));
      case StoreHead(faults) =>
        if HeadStores(s) {
          adapter.disk.Follow(faults);
          var snapshot := HeadSnapshot(s);
          var r := adapter.Store(snapshot, snapshot.generation - 1);
          next := HeadAnswered(s, limits, Placed(s, adapter.disk.state), r);
          b := Beat(move, r, adapter.disk.passed[|old(adapter.disk.passed)|..],
                    World(next, adapter.Knows(), adapter.disk.state,
                          if r.Ok? then LastSync(w, faults).Unsupported? else unsynced));
        } else {
          b := Beat(move, Err(NotReady), [], w);
        }
    }
  }

  /** Any moves make a life: from an opening that answered with `origin`, over any schedule. */
  method LiveAll(adapter: FileAdapter, seed: Engine.Root, origin: Option<Snapshot>, newId: Text, limits: Engine.Limits,
                 max: nat, moves: seq<FileMove>) returns (s: P.State, ghost beats: seq<Beat>)
    requires P.OpenedFrom(seed, origin) && CS.Healthy(adapter.disk.state) && Certain(adapter.disk.state, origin)
    requires forall i :: 0 <= i < |moves| && moves[i].Other? ==> !moves[i].m.Install? && !moves[i].m.Answer?
    modifies adapter, adapter.disk
    ensures |beats| == |moves| && forall i :: 0 <= i < |moves| ==> beats[i].move == moves[i]
    ensures var w0 := World(P.Opened(seed, origin, newId), old(adapter.Knows()), old(adapter.disk.state), false);
            && Life(limits, max, w0, beats)
            && var w := WorldAfter(w0, beats);
               s == w.s && adapter.Knows() == w.memory && adapter.disk.state == w.disk
  {
    hide P.OpenedFrom, Certain, CS.Healthy, Steps, Kept, P.Opened, Life, WellFormed, Engine.RootOk;
    s, beats := P.Opened(seed, origin, newId), [];
    ghost var w0 := World(s, adapter.Knows(), adapter.disk.state, false);
    SeedIsOk(seed, origin);
    LifeBegins(seed, limits, max, origin, newId, adapter.Knows(), adapter.disk.state);
    NoBeats(limits, max, w0);
    for n := 0 to |moves|
      invariant |beats| == n && forall i :: 0 <= i < n ==> beats[i].move == moves[i]
      invariant Life(limits, max, w0, beats)
      invariant var w := WorldAfter(w0, beats);
                s == w.s && adapter.Knows() == w.memory && adapter.disk.state == w.disk
    {
      ghost var w := WorldAfter(w0, beats);
      StillFormed(seed, limits, max, origin, w0, beats);
      ghost var b;
      s, b := LiveOn(adapter, s, limits, max, moves[n], w.unsynced);
      NextBeat(limits, max, w0, beats, b);
      beats := beats + [b];
    }
  }

  lemma NoBeats(limits: Engine.Limits, max: nat, w: World)
    ensures Life(limits, max, w, [])
  {
  }

  lemma NextBeat(limits: Engine.Limits, max: nat, w: World, beats: seq<Beat>, b: Beat)
    requires Life(limits, max, w, beats) && Steps(limits, max, WorldAfter(w, beats), b)
    ensures Life(limits, max, w, beats + [b])
  {
    hide Steps;
    forall i | 0 <= i < |beats| + 1
      ensures (beats + [b])[..i] == beats[..i]
    {
    }
    assert (beats + [b])[..|beats|] == beats;
  }

  lemma StillFormed(seed: Engine.Root, limits: Engine.Limits, max: nat, origin: Option<Snapshot>, w: World,
                    beats: seq<Beat>)
    requires Engine.RootOk(seed) && Kept(seed, limits, max, origin, w) && Life(limits, max, w, beats)
    ensures WellFormed(WorldAfter(w, beats).disk)
  {
    hide Kept, Engine.RootOk, Life, Holds, WellFormed, CS.Healthy;
    LifeKeeps(seed, limits, max, origin, w, beats, |beats|);
    assert beats[..|beats|] == beats;
    KeptHolds(seed, limits, max, origin, WorldAfter(w, beats));
    HoldsHealthy(seed, limits, WorldAfter(w, beats), WorldAfter(w, beats).disk);
    CS.HealthyNow(WorldAfter(w, beats).disk);
  }
}
