/** The file adapter: replacing the primary snapshot and its backup by temporary file, sync,
    rename and directory sync, and recovering from what a crash leaves. One owner holds the lock. */
module FileAdapters {
  import opened Texts
  import opened SnapshotFiles
  import opened Disks

  datatype FileError =
    | NotReady
    | AlreadyLoaded
    | Conflict
    | TooLarge
    | Io
    | Corrupt
    | BothUnusable
    | PermissionRequired

  datatype FileAck = FileAck(databaseId: Text, generation: int, revision: int)

  function Saved(s: Snapshot): Inode {
    Inode(Whole(s), true)
  }

  /** Every state since a point shows what was there before, or this. */
  ghost predicate Between(d0: DiskState, states: seq<DiskState>, from: nat, look: Look) {
    && from <= |states|
    && forall i :: from <= i < |states| ==> Reached(d0, states[i], Now(d0)) || Reached(d0, states[i], look)
  }

  lemma BetweenNext(d0: DiskState, states: seq<DiskState>, from: nat, look: Look, d: DiskState)
    requires Between(d0, states, from, look)
    requires Reached(d0, d, Now(d0)) || Reached(d0, d, look)
    ensures Between(d0, states + [d], from, look)
  {
  }

  /** Giving up on a temporary file: closing and unlinking it, errors ignored. */
  method Abandon(disk: Disk, n: nat, ghost d0: DiskState, ghost from: nat, ghost look: Look)
    requires Between(d0, disk.passed, from, look) && Reached(d0, disk.state, look)
    modifies disk`step, disk`state, disk`passed
    ensures old(disk.passed) <= disk.passed
    ensures Between(d0, disk.passed, from, look) && Reached(d0, disk.state, look)
  {
    hide Reached, Between;
    AbandonedReached(d0, disk.state, n, look);
    var _ := disk.Unlink(Temporary(n));
    BetweenNext(d0, old(disk.passed), from, look, disk.state);
  }

  /** Creating, writing, syncing and closing the temporary file. */
  method Stage(disk: Disk, snapshot: Snapshot, ghost look: Look) returns (ok: bool)
    requires WellFormed(disk.state)
    modifies disk`step, disk`state, disk`passed
    ensures ok <==> Runs(disk.faults, old(disk.step), 3)
    ensures ok ==> disk.step == old(disk.step) + 3
    ensures old(disk.passed) <= disk.passed
    ensures Between(old(disk.state), disk.passed, |old(disk.passed)|, look)
    ensures Reached(old(disk.state), disk.state, Now(old(disk.state)))
    ensures var n := old(disk.state).next;
            ok ==> Staged(old(disk.state), disk.state, n) && disk.state.inodes[n] == Saved(snapshot)
  {
    hide Reached, Between, DirAt, Apart, Now, WellFormed;
    ghost var d0, from := disk.state, |disk.passed|;
    var n := disk.state.next;
    ReachedRefl(d0);
    NothingBetween(d0, disk.passed, look);
    StagedCreate(d0);
    ok := disk.Create();
    BetweenNext(d0, old(disk.passed), from, look, disk.state);
    if !ok { return; }
    ghost var passed := disk.passed;
    StagedChange(d0, disk.state, n, Inode(Whole(snapshot), false));
    StagedChange(d0, disk.state, n, Inode(Broken, false));
    ok := disk.Write(n, Whole(snapshot));
    BetweenNext(d0, passed, from, look, disk.state);
    if !ok { return; }
    passed := disk.passed;
    StagedChange(d0, disk.state, n, Saved(snapshot));
    StagedHas(d0, disk.state, n);
    ok := disk.Sync(n);
    BetweenNext(d0, passed, from, look, disk.state);
  }

  lemma NothingBetween(d0: DiskState, states: seq<DiskState>, look: Look)
    ensures Between(d0, states, |states|, look)
  {
  }

  lemma StagedHas(d0: DiskState, d: DiskState, n: nat)
    requires Staged(d0, d, n)
    ensures n in d.inodes && Reached(d0, d, Now(d0))
  {
  }

  /** Creating, writing, syncing, renaming and syncing the directory. */
  const INSTALL_STEPS: nat := 5

  /** Whether an installation starting at `at` reaches its rename. */
  predicate Places(faults: seq<Fault>, at: nat) {
    Runs(faults, at, 3) && !FaultAt(faults, at + 3).Before?
  }

  function Placed(look: Look, name: Name, snapshot: Snapshot, faults: seq<Fault>, at: nat): Look
    requires !name.Temporary?
  {
    if Places(faults, at) then With(look, name, Saved(snapshot)) else look
  }

  /** After the rename `d0` shows as it was until the directory sync; which a platform may not support. */
  ghost predicate Settled(before: Look, d: DiskState, sync: Fault) {
    if sync.Unsupported? then |d.pending| > 0 && LookAt(d, |d.pending| - 1) == before else d.pending == []
  }

  /** `#installBytes`, and the same steps in `store`. At every moment a crash shows what it could
      have shown before, or the new snapshot complete under its name; which of the two is found in
      the end, and whether the installation succeeds, is decided by the faults. */
  method InstallBytes(disk: Disk, destination: Name, snapshot: Snapshot) returns (ok: bool)
    requires WellFormed(disk.state) && !destination.Temporary?
    modifies disk`step, disk`state, disk`passed
    ensures old(disk.passed) <= disk.passed
    ensures ok <==> Runs(disk.faults, old(disk.step), INSTALL_STEPS)
    ensures ok ==> disk.step == old(disk.step) + INSTALL_STEPS
    ensures var d0 := old(disk.state); var look := Placed(Now(d0), destination, snapshot, disk.faults, old(disk.step));
            && Between(d0, disk.passed, |old(disk.passed)|, look)
            && Reached(d0, disk.state, look)
            && (ok ==> Settled(Now(d0), disk.state, FaultAt(disk.faults, old(disk.step) + 4)))
  {
    hide Reached, Between, Staged, LookAt, Now, WellFormed;
    ghost var d0, from := disk.state, |disk.passed|;
    ghost var look := Placed(Now(d0), destination, snapshot, disk.faults, disk.step);
    var n := disk.state.next;
    var staged := Stage(disk, snapshot, look);
    if !staged {
      Abandon(disk, n, d0, from, look);
      return false;
    }
    ghost var passed := disk.passed;
    StagedHas(d0, disk.state, n);
    StagedRename(d0, disk.state, n, destination);
    var renamed := disk.Rename(Temporary(n), destination);
    BetweenNext(d0, passed, from, look, disk.state);
    if !renamed {
      Abandon(disk, n, d0, from, look);
      return false;
    }
    passed := disk.passed;
    SyncedReached(d0, disk.state, look);
    ok := disk.SyncDirectory();
    BetweenNext(d0, passed, from, look, disk.state);
    if !ok { Abandon(disk, n, d0, from, look); }
  }

  /* ---------- what a healthy directory shows ---------- */

  /** A property of every snapshot in the directory, whichever is of interest. */
  type Keeps = Snapshot -> bool

  /** A complete snapshot, synced, with that property. */
  ghost predicate Intact(file: Inode, keeps: Keeps) {
    file.synced && file.content.Whole? && keeps(file.content.snapshot)
  }

  /** The backup is the primary itself or its immediate predecessor. */
  ghost predicate Precedes(backup: Snapshot, primary: Snapshot) {
    backup == primary || (backup.generation + 1 == primary.generation && backup.databaseId == primary.databaseId)
  }

  ghost predicate Good(look: Look, keeps: Keeps) {
    && (look.primary.Some? ==> Intact(look.primary.value, keeps))
    && (look.backup.Some? ==>
          && Intact(look.backup.value, keeps)
          && look.primary.Some?
          && Precedes(look.backup.value.content.snapshot, look.primary.value.content.snapshot))
  }

  /** Whatever a crash leaves is good. */
  ghost predicate Steady(d: DiskState, keeps: Keeps) {
    WellFormed(d) && forall k :: 0 <= k <= |d.pending| ==> Good(LookAt(d, k), keeps)
  }

  lemma SteadyNow(d: DiskState, keeps: Keeps)
    requires Steady(d, keeps)
    ensures WellFormed(d) && Good(Now(d), keeps)
  {
  }

  lemma ReachedSteady(d0: DiskState, d: DiskState, look: Look, keeps: Keeps)
    requires Steady(d0, keeps) && Good(look, keeps) && Reached(d0, d, look)
    ensures Steady(d, keeps)
  {
    hide LookAt, Now, Good, WellFormed;
    forall k | 0 <= k <= |d.pending|
      ensures Good(LookAt(d, k), keeps)
    {
      if LookAt(d, k) != look {
        var k0 :| 0 <= k0 <= |d0.pending| && LookAt(d0, k0) == LookAt(d, k);
      }
    }
  }

  /** A crash at any moment leaves a healthy directory healthy. */
  lemma CrashKeepsSteady(d: DiskState, k: nat, damaged: set<nat>, keeps: Keeps)
    requires Steady(d, keeps) && k <= |d.pending|
    ensures Steady(Crashed(d, k, damaged), keeps) && Now(Crashed(d, k, damaged)) == LookAt(d, k)
  {
    hide LookAt, WellFormed;
    assert Good(LookAt(d, k), keeps);
    CrashShows(d, k, damaged);
    OneLook(Crashed(d, k, damaged));
  }

  lemma OneLook(d: DiskState)
    requires d.pending == []
    ensures forall k :: 0 <= k <= |d.pending| ==> LookAt(d, k) == Now(d)
  {
  }

  /** What an adapter is opened with, and what its files are made of. */
  datatype Options = Options(format: Format, maxBytes: MaxBytes)

  predicate Reads(o: Options, s: Snapshot) {
    Readable(o.format, o.maxBytes, s)
  }

  function SnapshotIn(file: Option<Inode>, o: Options): Result<Option<Snapshot>, FileError> {
    if file.None? then Ok(None)
    else if file.value.content.Whole? && Reads(o, file.value.content.snapshot) then
      Ok(Some(file.value.content.snapshot))
    else Err(Corrupt)
  }

  /** What a look holds as primary, for callers. */
  function PrimaryOf(look: Look): Option<Snapshot> {
    if look.primary.Some? && look.primary.value.content.Whole? then Some(look.primary.value.content.snapshot) else None
  }

  function BackupOf(look: Look): Option<Snapshot> {
    if look.backup.Some? && look.backup.value.content.Whole? then Some(look.backup.value.content.snapshot) else None
  }

  function GenerationIn(s: Option<Snapshot>): int {
    if s.Some? then s.value.generation else 0
  }

  /* ---------- what a store can leave behind ---------- */

  /** With the current primary copied to the backup. */
  function BackedUp(look: Look, primary: Option<Snapshot>): Look {
    if primary.Some? then With(look, Backup, Saved(primary.value)) else look
  }

  /** One of the three things a crash can show once a store has begun. */
  ghost predicate StoreShows(d0: DiskState, look: Look, primary: Option<Snapshot>, next: Snapshot) {
    || Possible(d0, look)
    || look == BackedUp(Now(d0), primary)
    || look == With(BackedUp(Now(d0), primary), Primary, Saved(next))
  }

  ghost predicate StoreState(d0: DiskState, d: DiskState, primary: Option<Snapshot>, next: Snapshot) {
    WellFormed(d) && forall k :: 0 <= k <= |d.pending| ==> StoreShows(d0, LookAt(d, k), primary, next)
  }

  lemma BackupStage(d0: DiskState, d: DiskState, primary: Option<Snapshot>, next: Snapshot)
    requires Reached(d0, d, Now(d0)) || Reached(d0, d, BackedUp(Now(d0), primary))
    ensures StoreState(d0, d, primary, next)
  {
    hide LookAt, WellFormed;
    assert Possible(d0, LookAt(d0, |d0.pending|));
    assert Now(d0) == LookAt(d0, |d0.pending|) by { NowIsLast(d0); }
  }

  lemma NowIsLast(d: DiskState)
    ensures Now(d) == LookAt(d, |d.pending|)
  {
  }

  lemma PrimaryStage(d0: DiskState, d1: DiskState, d: DiskState, primary: Option<Snapshot>, next: Snapshot)
    requires StoreState(d0, d1, primary, next) && Now(d1) == BackedUp(Now(d0), primary)
    requires Reached(d1, d, Now(d1)) || Reached(d1, d, With(Now(d1), Primary, Saved(next)))
    ensures StoreState(d0, d, primary, next)
  {
    hide LookAt, Now, WellFormed, StoreShows;
    forall k | 0 <= k <= |d.pending|
      ensures StoreShows(d0, LookAt(d, k), primary, next)
    {
      if Possible(d1, LookAt(d, k)) {
        var k1 :| 0 <= k1 <= |d1.pending| && LookAt(d1, k1) == LookAt(d, k);
        assert StoreShows(d0, LookAt(d1, k1), primary, next);
      } else {
        LastStage(d0, LookAt(d, k), primary, next);
      }
    }
  }

  lemma LastStage(d0: DiskState, look: Look, primary: Option<Snapshot>, next: Snapshot)
    requires look == BackedUp(Now(d0), primary) || look == With(BackedUp(Now(d0), primary), Primary, Saved(next))
    ensures StoreShows(d0, look, primary, next)
  {
  }

  lemma StoreSteady(d0: DiskState, d: DiskState, primary: Option<Snapshot>, next: Snapshot, keeps: Keeps)
    requires Steady(d0, keeps) && StoreState(d0, d, primary, next)
    requires primary == PrimaryOf(Now(d0)) && keeps(next)
    requires primary.Some?
        ==> primary.value.generation + 1 == next.generation && primary.value.databaseId == next.databaseId
    ensures Steady(d, keeps)
  {
    hide LookAt, Now, WellFormed;
    SteadyNow(d0, keeps);
    assert Good(BackedUp(Now(d0), primary), keeps);
    assert Good(With(BackedUp(Now(d0), primary), Primary, Saved(next)), keeps);
    forall k | 0 <= k <= |d.pending|
      ensures Good(LookAt(d, k), keeps)
    {
      if Possible(d0, LookAt(d, k)) {
        var k0 :| 0 <= k0 <= |d0.pending| && LookAt(d0, k0) == LookAt(d, k);
      }
    }
  }

  /** Storing over a directory in which every crash shows one primary, every crash during or
      after the store shows that complete snapshot or the complete new one. */
  lemma PrimaryOldOrNew(d0: DiskState, d: DiskState, primary: Option<Snapshot>, next: Snapshot, k: nat)
    requires StoreState(d0, d, primary, next) && k <= |d.pending|
    requires forall k0 :: 0 <= k0 <= |d0.pending| ==> PrimaryOf(LookAt(d0, k0)) == primary
    ensures PrimaryOf(LookAt(d, k)) == primary || PrimaryOf(LookAt(d, k)) == Some(next)
  {
    hide LookAt, WellFormed;
    var look := LookAt(d, k);
    assert StoreShows(d0, look, primary, next);
    NowIsLast(d0);
    assert PrimaryOf(LookAt(d0, |d0.pending|)) == primary;
    if Possible(d0, look) {
      var k0 :| 0 <= k0 <= |d0.pending| && LookAt(d0, k0) == look;
    }
  }

  /** This snapshot, or one of a later generation, is there after any crash. */
  ghost predicate Survives(d: DiskState, acked: Snapshot) {
    forall k :: 0 <= k <= |d.pending| ==> AtLeast(PrimaryOf(LookAt(d, k)), acked)
  }

  ghost predicate AtLeast(found: Option<Snapshot>, acked: Snapshot) {
    found.Some? && (found.value == acked || found.value.generation > acked.generation)
  }

  lemma StoreSurvives(d0: DiskState, d: DiskState, primary: Option<Snapshot>, next: Snapshot, acked: Snapshot)
    requires Survives(d0, acked) && StoreState(d0, d, primary, next)
    requires primary == PrimaryOf(Now(d0)) && next.generation == GenerationIn(primary) + 1
    ensures Survives(d, acked)
  {
    hide LookAt, Now, WellFormed;
    NowIsLast(d0);
    assert AtLeast(PrimaryOf(LookAt(d0, |d0.pending|)), acked);
    forall k | 0 <= k <= |d.pending|
      ensures AtLeast(PrimaryOf(LookAt(d, k)), acked)
    {
      if Possible(d0, LookAt(d, k)) {
        var k0 :| 0 <= k0 <= |d0.pending| && LookAt(d0, k0) == LookAt(d, k);
      } else {
        assert StoreShows(d0, LookAt(d, k), primary, next);
      }
    }
  }

  lemma PrimaryRead(look: Look, o: Options)
    ensures SnapshotIn(look.primary, o).Ok? ==> SnapshotIn(look.primary, o).value == PrimaryOf(look)
  {
  }

  lemma StateWellFormed(d0: DiskState, d: DiskState, primary: Option<Snapshot>, next: Snapshot)
    requires StoreState(d0, d, primary, next)
    ensures WellFormed(d)
  {
  }

  /** The primitives the backup takes. */
  function BackupSteps(primary: Option<Snapshot>): nat {
    if primary.Some? then INSTALL_STEPS else 0
  }

  /** `#writeBackup`, when there is something to back up. */
  method KeepBackup(disk: Disk, primary: Option<Snapshot>, ghost next: Snapshot) returns (ok: bool)
    requires WellFormed(disk.state) && primary == PrimaryOf(Now(disk.state))
    modifies disk`step, disk`state, disk`passed
    ensures old(disk.passed) <= disk.passed
    ensures ok <==> Runs(disk.faults, old(disk.step), BackupSteps(primary))
    ensures ok ==> disk.step == old(disk.step) + BackupSteps(primary)
    ensures StoreState(old(disk.state), disk.state, primary, next)
    ensures forall i :: |old(disk.passed)| <= i < |disk.passed| ==>
              StoreState(old(disk.state), disk.passed[i], primary, next)
    ensures Now(disk.state) == BackupKept(Now(old(disk.state)), primary, disk.faults, old(disk.step))
  {
    hide LookAt, Now, WellFormed, StoreState, Between, Reached;
    ghost var d0, from, at := disk.state, |disk.passed|, disk.step;
    ok := true;
    if primary.Some? {
      ok := InstallBytes(disk, Backup, primary.value);
    } else {
      ReachedRefl(d0);
      NothingBetween(d0, disk.passed, BackupKept(Now(d0), primary, disk.faults, at));
    }
    ReachedWellFormed(d0, disk.state, BackupKept(Now(d0), primary, disk.faults, at));
    BackupStages(d0, disk.passed, from, disk.state, primary, next, BackupKept(Now(d0), primary, disk.faults, at));
  }

  /** What is found once the backup step is over. */
  function BackupKept(look: Look, primary: Option<Snapshot>, faults: seq<Fault>, at: nat): Look {
    if primary.Some? then Placed(look, Backup, primary.value, faults, at) else look
  }

  lemma BackupStages(d0: DiskState, states: seq<DiskState>, from: nat, d: DiskState, primary: Option<Snapshot>,
                     next: Snapshot, look: Look)
    requires look == Now(d0) || look == BackedUp(Now(d0), primary)
    requires Between(d0, states, from, look) && Reached(d0, d, look)
    ensures StoreState(d0, d, primary, next)
    ensures forall i :: from <= i < |states| ==> StoreState(d0, states[i], primary, next)
  {
    hide LookAt, Now, WellFormed, StoreState, Reached;
    BackupStage(d0, d, primary, next);
    forall i | from <= i < |states|
      ensures StoreState(d0, states[i], primary, next)
    {
      BackupStage(d0, states[i], primary, next);
    }
  }

  lemma ReachedWellFormed(d0: DiskState, d: DiskState, look: Look)
    requires Reached(d0, d, look)
    ensures WellFormed(d) && Now(d) == look
  {
  }

  lemma AllPrimaryStage(d0: DiskState, d1: DiskState, before: seq<DiskState>, states: seq<DiskState>, d: DiskState,
                        primary: Option<Snapshot>, next: Snapshot, look: Look)
    requires StoreState(d0, d1, primary, next) && Now(d1) == BackedUp(Now(d0), primary)
    requires look == Now(d1) || look == With(Now(d1), Primary, Saved(next))
    requires before <= states && Between(d1, states, |before|, look) && Reached(d1, d, look)
    ensures StoreState(d0, d, primary, next)
    ensures forall i :: |before| <= i < |states| ==> StoreState(d0, states[i], primary, next)
  {
    hide StoreState, Reached;
    PrimaryStage(d0, d1, d, primary, next);
    forall i | |before| <= i < |states|
      ensures StoreState(d0, states[i], primary, next)
    {
      PrimaryStage(d0, d1, states[i], primary, next);
    }
  }

  /* ---------- what a store does ---------- */

  /** What an adapter remembers. */
  datatype Memory = Memory(options: Options, closed: bool, loaded: bool, generation: int, databaseId: Option<Text>)

  /** What every check of `store` must let through. */
  ghost predicate Admits(memory: Memory, look: Look, snapshot: Snapshot, expected: int) {
    var primary := SnapshotIn(look.primary, memory.options);
    && !memory.closed && memory.loaded
    && expected == memory.generation && snapshot.generation == expected + 1
    && (memory.databaseId.None? || snapshot.databaseId == memory.databaseId.value)
    && primary.Ok?
    && GenerationIn(primary.value) == memory.generation
    && (primary.value.Some? ==> primary.value.value.databaseId == memory.databaseId.GetOr(snapshot.databaseId))
    && Writable(memory.options.format, memory.options.maxBytes, snapshot)
  }

  /** What the checks make of a store, in their order; `fault` is that of reading the primary. */
  function Verdict(memory: Memory, look: Look, snapshot: Snapshot, expected: int, fault: Fault)
    : Result<Option<Snapshot>, FileError>
  {
    if memory.closed || !memory.loaded then Err(NotReady)
    else if expected != memory.generation || snapshot.generation != expected + 1 then Err(Conflict)
    else if memory.databaseId.Some? && snapshot.databaseId != memory.databaseId.value then Err(Conflict)
    else match ReadBack(look.primary, memory.options, fault)
      case Err(error) => Err(error)
      case Ok(primary) =>
        if GenerationIn(primary) != memory.generation
           || (primary.Some? && primary.value.databaseId != memory.databaseId.GetOr(snapshot.databaseId))
               then Err(Conflict)
        else if !Writable(memory.options.format, memory.options.maxBytes, snapshot) then Err(TooLarge)
        else Ok(primary)
  }

  /** They let through exactly what is admitted and could be read. */
  lemma VerdictExactly(memory: Memory, look: Look, snapshot: Snapshot, expected: int, fault: Fault)
    ensures Verdict(memory, look, snapshot, expected, fault).Ok?
       <==> Admits(memory, look, snapshot, expected) && !Stops(fault)
    ensures Verdict(memory, look, snapshot, expected, fault).Ok? ==>
              Verdict(memory, look, snapshot, expected, fault) == SnapshotIn(look.primary, memory.options)
    ensures Stops(fault) && Admits(memory, look, snapshot, expected) ==>
              Verdict(memory, look, snapshot, expected, fault) == Err(Io)
  {
    hide Reads, Writable;
  }

  /** A file that is there and can be read back, with the snapshot it holds. */
  predicate Holds(file: Option<Inode>, o: Options, s: Snapshot) {
    file.Some? && file.value.content == Whole(s) && Reads(o, s)
  }

  predicate Unreadable(file: Option<Inode>, o: Options) {
    file.Some? && !(file.value.content.Whole? && Reads(o, file.value.content.snapshot))
  }

  /** A store is refused by an adapter that is not open; in conflict, where the snapshot is not the
      next one of the database or what is stored is not the one before it; and where the primary
      fails to read, cannot be read back, or would be too large: in that order. */
  lemma RefusesExactly(memory: Memory, look: Look, snapshot: Snapshot, expected: int, fault: Fault)
    ensures var r, o := Verdict(memory, look, snapshot, expected, fault), memory.options;
            var ready := memory.loaded && !memory.closed;
            var next := && expected == memory.generation && snapshot.generation == memory.generation + 1
                        && (memory.databaseId.Some? ==> memory.databaseId.value == snapshot.databaseId);
            var before := if look.primary.None? then memory.generation == 0
                          else exists s :: && Holds(look.primary, o, s) && s.generation == memory.generation
                                           && s.databaseId == snapshot.databaseId;
            var read := ready && next && !Stops(fault) && !Unreadable(look.primary, o);
            var fits := Writable(o.format, o.maxBytes, snapshot);
            && (r.Ok? <==> read && before && fits)
            && (r == Err(NotReady) <==> !ready)
            && (r == Err(Conflict) <==> ready && (!next || (read && !before)))
            && (r == Err(Io) <==> ready && next && Stops(fault))
            && (r == Err(Corrupt) <==> ready && next && !Stops(fault) && Unreadable(look.primary, o))
            && (r == Err(TooLarge) <==> read && before && !fits)
            && (r.Ok? ==> if look.primary.None? then r.value.None?
                          else r.value.Some? && Holds(look.primary, o, r.value.value))
  {
    hide Reads, Writable;
    var o := memory.options;
    if look.primary.Some? && !Unreadable(look.primary, o) {
      var s := look.primary.value.content.snapshot;
      assert Holds(look.primary, o, s);
      assert forall s' :: Holds(look.primary, o, s') ==> s' == s;
    }
  }

  /** Reading the primary, keeping a backup of it, and installing the snapshot. */
  function StoreSteps(primary: Option<Snapshot>): nat {
    1 + BackupSteps(primary) + INSTALL_STEPS
  }

  /** What is found once an admitted store is over. */
  function StoreLook(look: Look, snapshot: Snapshot, faults: seq<Fault>, at: nat): Look {
    var primary := PrimaryOf(look);
    var last := at + 1 + BackupSteps(primary);
    if Stops(FaultAt(faults, at)) then look
    else if !Runs(faults, at + 1, BackupSteps(primary)) then BackupKept(look, primary, faults, at + 1)
    else Placed(BackedUp(look, primary), Primary, snapshot, faults, last)
  }

  /** An admitted store: it is acknowledged exactly when none of its steps fails; the faults decide
      what is found afterwards; and a crash during it shows old, backed up or new. */
  ghost predicate AdmittedStore(d0: DiskState, snapshot: Snapshot, faults: seq<Fault>, at: nat, ok: bool,
                                passed: seq<DiskState>, d: DiskState)
  {
    var primary := PrimaryOf(Now(d0));
    && (ok <==> Runs(faults, at, StoreSteps(primary)))
    && Now(d) == StoreLook(Now(d0), snapshot, faults, at)
    && (ok ==> Settled(BackedUp(Now(d0), primary), d, FaultAt(faults, at + StoreSteps(primary) - 1)))
    && StoreState(d0, d, primary, snapshot)
    && forall i :: 0 <= i < |passed| ==> StoreState(d0, passed[i], primary, snapshot)
  }

  /** A whole `store` by an adapter that remembers `memory`. */
  ghost predicate WholeStore(memory: Memory, d0: DiskState, snapshot: Snapshot, expected: int,
                          faults: seq<Fault>, at: nat, r: Result<FileAck, FileError>, passed: seq<DiskState>,
                          memory': Memory, d: DiskState)
  {
    if Admits(memory, Now(d0), snapshot, expected) then
      && AdmittedStore(d0, snapshot, faults, at, r.Ok?, passed, d)
      && (r.Err? ==> r.error == Io && memory' == memory)
      && (r.Ok? ==>
            && r.value == FileAck(snapshot.databaseId, snapshot.generation, snapshot.revision)
            && memory' == memory.(generation := snapshot.generation, databaseId := Some(snapshot.databaseId)))
    else
      && r == Err(Verdict(memory, Now(d0), snapshot, expected, FaultAt(faults, at)).error)
      && passed == [] && memory' == memory && d == d0
  }

  lemma UnreadStore(d: DiskState, snapshot: Snapshot, faults: seq<Fault>, at: nat)
    requires WellFormed(d) && Stops(FaultAt(faults, at))
    ensures AdmittedStore(d, snapshot, faults, at, false, [], d)
  {
    hide LookAt, Now, WellFormed, StoreState;
    ReachedRefl(d);
    BackupStage(d, d, PrimaryOf(Now(d)), snapshot);
  }

  lemma RunsSplit(faults: seq<Fault>, at: nat, primary: Option<Snapshot>)
    ensures Runs(faults, at, StoreSteps(primary))
       <==> && !Stops(FaultAt(faults, at)) && Runs(faults, at + 1, BackupSteps(primary))
            && Runs(faults, at + 1 + BackupSteps(primary), INSTALL_STEPS)
  {
    var b := BackupSteps(primary);
    if !Stops(FaultAt(faults, at)) && Runs(faults, at + 1, b) && Runs(faults, at + 1 + b, INSTALL_STEPS) {
      forall i | at <= i < at + StoreSteps(primary)
        ensures !Stops(FaultAt(faults, i))
      {
        assert i == at || at + 1 <= i < at + 1 + b || at + 1 + b <= i;
      }
    }
  }

  lemma KeptBackup(look: Look, primary: Option<Snapshot>, faults: seq<Fault>, at: nat)
    requires Runs(faults, at, BackupSteps(primary))
    ensures BackupKept(look, primary, faults, at) == BackedUp(look, primary)
  {
  }

  lemma Acknowledged(look: Look, snapshot: Snapshot, faults: seq<Fault>, at: nat)
    requires Runs(faults, at, StoreSteps(PrimaryOf(look)))
    ensures StoreLook(look, snapshot, faults, at) == With(BackedUp(look, PrimaryOf(look)), Primary, Saved(snapshot))
  {
  }

  /** An acknowledged snapshot is beyond the reach of any crash exactly when the last directory sync
      of its store was real. */
  lemma SettledExactly(d0: DiskState, snapshot: Snapshot, faults: seq<Fault>, at: nat, passed: seq<DiskState>,
                       d: DiskState)
    requires AdmittedStore(d0, snapshot, faults, at, true, passed, d)
    requires snapshot.generation == GenerationIn(PrimaryOf(Now(d0))) + 1
    ensures PrimaryOf(Now(d)) == Some(snapshot)
    ensures !FaultAt(faults, at + StoreSteps(PrimaryOf(Now(d0))) - 1).Unsupported?
       <==> forall k :: 0 <= k <= |d.pending| ==> PrimaryOf(LookAt(d, k)) == Some(snapshot)
  {
    hide LookAt, Now, Runs;
    Acknowledged(Now(d0), snapshot, faults, at);
    NowIsLast(d);
    if FaultAt(faults, at + StoreSteps(PrimaryOf(Now(d0))) - 1).Unsupported? {
      assert PrimaryOf(LookAt(d, |d.pending| - 1)) != Some(snapshot);
    }
  }

  /* ---------- what a load does ---------- */

  function ReadBack(file: Option<Inode>, o: Options, fault: Fault): Result<Option<Snapshot>, FileError> {
    if Stops(fault) then Err(Io) else SnapshotIn(file, o)
  }

  /** The decision table of `#loadWithRecovery`, whose first primitive is at `at`. */
  function Recovery(look: Look, o: Options, recover: bool, faults: seq<Fault>, at: nat)
    : Result<Option<Snapshot>, FileError>
  {
    var primary := ReadBack(look.primary, o, FaultAt(faults, at));
    var backup := ReadBack(look.backup, o, FaultAt(faults, at + 1));
    if primary.Ok? && primary.value.Some? then primary
    else if backup.Err? then Err(if primary.Err? then BothUnusable else backup.error)
    else if backup.value.None? then (if primary.Err? then primary else Ok(None))
    else if !recover then Err(PermissionRequired)
    else if Runs(faults, at + 2, INSTALL_STEPS) then backup else Err(Io)
  }

  /** The backup is to be put in the primary's place. */
  predicate FallsBack(look: Look, o: Options, recover: bool, faults: seq<Fault>, at: nat) {
    var primary := ReadBack(look.primary, o, FaultAt(faults, at));
    var backup := ReadBack(look.backup, o, FaultAt(faults, at + 1));
    recover && (primary.Err? || primary.value.None?) && backup.Ok? && backup.value.Some?
  }

  /** What is found once the load is over. */
  function Recovered(look: Look, o: Options, recover: bool, faults: seq<Fault>, at: nat): Look {
    if FallsBack(look, o, recover, faults, at)
    then Placed(look, Primary, SnapshotIn(look.backup, o).value.value, faults, at + 2)
    else look
  }

  /** An opening answers with the primary if that can be read. Otherwise it answers with the backup,
      if that can be read, recovery is permitted and putting it back succeeds; with nothing if there
      is neither file; and else it reports the permission it lacks, the step that failed, or what
      is wrong with the files. */
  lemma RecoversExactly(look: Look, o: Options, recover: bool, faults: seq<Fault>, at: nat)
    ensures var r := Recovery(look, o, recover, faults, at);
            var failed, failed' := Stops(FaultAt(faults, at)), Stops(FaultAt(faults, at + 1));
            var good := !failed && look.primary.Some? && !Unreadable(look.primary, o);
            var good' := !failed' && look.backup.Some? && !Unreadable(look.backup, o);
            var gone, gone' := !failed && look.primary.None?, !failed' && look.backup.None?;
            var restored := Runs(faults, at + 2, INSTALL_STEPS);
            && (forall s :: r == Ok(Some(s)) <==>
                  (good && Holds(look.primary, o, s))
                      || (!good && good' && recover && restored && Holds(look.backup, o, s)))
            && (r == Ok(None) <==> gone && gone')
            && (r == Err(PermissionRequired) <==> !good && good' && !recover)
            && (r == Err(BothUnusable) <==> !good && !gone && !good' && !gone')
            && (r == Err(Io) <==> || (!good && good' && recover && !restored)
                                  || (failed && gone') || (gone && failed'))
            && (r == Err(Corrupt) <==> || (!failed && Unreadable(look.primary, o) && gone')
                                       || (gone && !failed' && Unreadable(look.backup, o)))
  {
    hide Reads, Runs;
  }

  /** Once opened, an adapter admits exactly the next snapshot of the database it found, or the first
      of any if it found none, as long as it can be written; an opening that fails admits nothing. */
  lemma OpenedAdmitsNext(memory: Memory, look: Look, recover: bool, faults: seq<Fault>, at: nat, snapshot: Snapshot,
                         expected: int)
    ensures var r := Recovery(look, memory.options, recover, faults, at);
            var look' := Recovered(look, memory.options, recover, faults, at);
            Admits(Remembered(memory, r), look', snapshot, expected) <==>
              && r.Ok? && expected == (if r.value.Some? then r.value.value.generation else 0)
              && snapshot.generation == expected + 1
              && (r.value.Some? ==> snapshot.databaseId == r.value.value.databaseId)
              && Writable(memory.options.format, memory.options.maxBytes, snapshot)
  {
    hide Reads, Writable, Readable;
    RunsPlaces(faults, at + 2);
  }

  lemma RunsPlaces(faults: seq<Fault>, at: nat)
    ensures Runs(faults, at, INSTALL_STEPS) ==> Places(faults, at)
  {
  }

  /** The leftovers of interrupted installations. */
  function Temps(d: DiskState): set<Name> {
    var dir := DirAt(d, |d.pending|);
    set name | name in dir && name.Temporary?
  }

  /** The primitives the clean-up takes: listing the directory, and unlinking each leftover. */
  function CleanSteps(d: DiskState): nat {
    1 + |Temps(d)|
  }

  /** A load by an adapter that has not loaded before: it fails if the clean-up does; otherwise it
      answers, and leaves the directory, as the decision table and the faults say. */
  ghost predicate WholeLoad(d0: DiskState, o: Options, recover: bool, faults: seq<Fault>, at: nat,
                          r: Result<Option<Snapshot>, FileError>, passed: seq<DiskState>, d: DiskState)
  {
    var reading := at + CleanSteps(d0);
    var cleaned := Runs(faults, at, CleanSteps(d0));
    var look := if cleaned then Recovered(Now(d0), o, recover, faults, reading) else Now(d0);
    && r == (if cleaned then Recovery(Now(d0), o, recover, faults, reading) else Err(Io))
    && Reached(d0, d, look)
    && Between(d0, passed, 0, look)
  }

  function Remembered(memory: Memory, r: Result<Option<Snapshot>, FileError>): Memory {
    if r.Err? then memory.(closed := true, loaded := true)
    else Memory(memory.options, false, true, GenerationIn(r.value),
                if r.value.Some? then Some(r.value.value.databaseId) else None)
  }

  lemma BetweenAfter(d0: DiskState, d1: DiskState, before: seq<DiskState>, states: seq<DiskState>, from: nat,
                     look: Look)
    requires Reached(d0, d1, Now(d0)) && before <= states && from <= |before|
    requires Between(d0, before, from, Now(d0)) && Between(d1, states, |before|, look)
    ensures Between(d0, states, from, look)
  {
    hide LookAt, Now;
    FoundNow(d0, d1, Now(d0));
    forall i | from <= i < |states|
      ensures Reached(d0, states[i], Now(d0)) || Reached(d0, states[i], look)
    {
      if i < |before| {
        assert states[i] == before[i];
      } else if Reached(d1, states[i], look) {
        ReachedAfter(d0, d1, states[i], look);
      } else {
        ReachedAfter(d0, d1, states[i], Now(d0));
      }
    }
  }

  lemma BetweenDrop(d0: DiskState, states: seq<DiskState>, from: nat, look: Look)
    requires Between(d0, states, from, look)
    ensures Between(d0, states[from..], 0, look)
  {
    hide Reached;
  }

  lemma FoundNow(d0: DiskState, d: DiskState, look: Look)
    requires Reached(d0, d, look)
    ensures Now(d) == look
  {
  }

  lemma RunsNext(faults: seq<Fault>, at: nat, n: nat)
    ensures Runs(faults, at, n + 1) <==> Runs(faults, at, n) && !Stops(FaultAt(faults, at + n))
  {
  }

  /** `#removeStaleTemps`: unlink every leftover; one failure fails the load. */
  method RemoveStaleTemps(disk: Disk) returns (ok: bool)
    requires WellFormed(disk.state)
    modifies disk`step, disk`state, disk`passed
    ensures old(disk.passed) <= disk.passed
    ensures ok <==> Runs(disk.faults, old(disk.step), CleanSteps(old(disk.state)))
    ensures ok ==> disk.step == old(disk.step) + CleanSteps(old(disk.state))
    ensures ok ==> Temps(disk.state) == {}
    ensures Reached(old(disk.state), disk.state, Now(old(disk.state)))
    ensures Between(old(disk.state), disk.passed, |old(disk.passed)|, Now(old(disk.state)))
  {
    hide LookAt, Now, WellFormed, Reached, Between, Temps;
    ghost var d0, from, at := disk.state, |disk.passed|, disk.step;
    ReachedRefl(d0);
    NothingBetween(d0, disk.passed, Now(d0));
    TempsAre(d0);
    ok := disk.Readable();
    if !ok { return; }
    var todo := Temps(disk.state);
    ghost var done: nat := 0;
    while todo != {}
      invariant old(disk.passed) <= disk.passed
      invariant (forall name :: name in todo ==> name.Temporary?) && done + |todo| == |Temps(d0)|
      invariant disk.step == at + 1 + done
      invariant ok <==> Runs(disk.faults, at, 1 + done)
      invariant ok ==> Temps(disk.state) <= todo
      invariant Reached(d0, disk.state, Now(d0)) && Between(d0, disk.passed, from, Now(d0))
      decreases todo
    {
      var name :| name in todo;
      ghost var passed := disk.passed;
      AbandonedReached(d0, disk.state, name.n, Now(d0));
      TempsWithout(disk.state, name);
      var unlinked := disk.Unlink(name);
      BetweenNext(d0, passed, from, Now(d0), disk.state);
      ok := ok && unlinked;
      RunsNext(disk.faults, at, 1 + done);
      todo, done := todo - {name}, done + 1;
    }
  }

  lemma TempsAre(d: DiskState)
    ensures forall name :: name in Temps(d) ==> name.Temporary?
  {
  }

  lemma TempsWithout(d: DiskState, name: Name)
    ensures Temps(Unlinked(d, name)) == Temps(d) - {name}
  {
    DirNext(d, Drop(name));
  }

  /** The writing half of `store`: keep a backup of the primary, then install the snapshot. `at` is where
      reading the primary stood in the script. */
  method WriteSnapshot(disk: Disk, primary: Option<Snapshot>, snapshot: Snapshot, ghost at: nat) returns (ok: bool)
    requires WellFormed(disk.state) && primary == PrimaryOf(Now(disk.state))
    requires disk.step == at + 1 && !Stops(FaultAt(disk.faults, at))
    modifies disk`step, disk`state, disk`passed
    ensures old(disk.passed) <= disk.passed
    ensures AdmittedStore(old(disk.state), snapshot, disk.faults, at, ok, disk.passed[|old(disk.passed)|..], disk.state)
  {
    hide LookAt, Now, WellFormed, StoreState, Between, Reached, Settled;
    ghost var d0 := disk.state;
    var kept := KeepBackup(disk, primary, snapshot);
    ghost var states, d1 := disk.passed, disk.state;
    RunsSplit(disk.faults, at, primary);
    if !kept { return false; }
    KeptBackup(Now(d0), primary, disk.faults, at + 1);
    StateWellFormed(d0, d1, primary, snapshot);
    ok := InstallBytes(disk, Primary, snapshot);
    ghost var look := Placed(Now(d1), Primary, snapshot, disk.faults, at + 1 + BackupSteps(primary));
    AllPrimaryStage(d0, d1, states, disk.passed, disk.state, primary, snapshot, look);
    FoundNow(d1, disk.state, look);
  }

  class FileAdapter {
    const disk: Disk
    const options: Options
    const recoverFromBackup: bool
    var closed: bool
    var loaded: bool
    var generation: int
    var databaseId: Option<Text>

    constructor (disk: Disk, options: Options, recoverFromBackup: bool)
      ensures this.disk == disk && this.options == options && this.recoverFromBackup == recoverFromBackup
      ensures Knows() == Memory(options, false, false, 0, None)
    {
      this.disk, this.options, this.recoverFromBackup := disk, options, recoverFromBackup;
      closed, loaded, generation, databaseId := false, false, 0, None;
    }

    function Knows(): Memory
      reads this
    {
      Memory(options, closed, loaded, generation, databaseId)
    }

    /** `#readSnapshotAt`. */
    method Read(name: Name) returns (r: Result<Option<Snapshot>, FileError>)
      requires !name.Temporary?
      modifies disk`step
      ensures disk.step == old(disk.step) + 1
      ensures r == ReadBack(if name.Primary? then Now(disk.state).primary else Now(disk.state).backup, options,
                            FaultAt(disk.faults, old(disk.step)))
    {
      var readable := disk.Readable();
      if !readable { return Err(Io); }
      var dir := DirAt(disk.state, |disk.state.pending|);
      return SnapshotIn(FileIn(dir, disk.state.inodes, name), options);
    }

    /** `store` up to the first write: the snapshot to keep as backup, if any, or the refusal. */
    method Check(snapshot: Snapshot, expected: int) returns (r: Result<Option<Snapshot>, FileError>)
      modifies disk`step
      ensures r == Verdict(Knows(), Now(disk.state), snapshot, expected, FaultAt(disk.faults, old(disk.step)))
      ensures r.Ok? <==> Admits(Knows(), Now(disk.state), snapshot, expected)
                         && !Stops(FaultAt(disk.faults, old(disk.step)))
      ensures r.Ok? ==> disk.step == old(disk.step) + 1
    {
      hide Admits, Writable, Reads;
      VerdictExactly(Knows(), Now(disk.state), snapshot, expected, FaultAt(disk.faults, disk.step));
      if closed || !loaded { return Err(NotReady); }
      if expected != generation || snapshot.generation != expected + 1 { return Err(Conflict); }
      if databaseId.Some? && snapshot.databaseId != databaseId.value { return Err(Conflict); }
      r := Read(Primary);
      if r.Err? { return; }
      if GenerationIn(r.value) != generation
         || (r.value.Some? && r.value.value.databaseId != databaseId.GetOr(snapshot.databaseId)) {
        return Err(Conflict);
      }
      if !Writable(options.format, options.maxBytes, snapshot) { return Err(TooLarge); }
    }

    /** `store`: what the checks refuse changes nothing; what they admit is stored as
        `AdmittedStore` says, and remembered when acknowledged. */
    method Store(snapshot: Snapshot, expected: int) returns (r: Result<FileAck, FileError>)
      requires WellFormed(disk.state)
      modifies disk`step, disk`state, disk`passed, this`generation, this`databaseId
      ensures old(disk.passed) <= disk.passed
      ensures WholeStore(old(Knows()), old(disk.state), snapshot, expected, disk.faults, old(disk.step), r,
                      disk.passed[|old(disk.passed)|..], Knows(), disk.state)
    {
      hide LookAt, Now, WellFormed, Admits, Verdict, AdmittedStore;
      ghost var d0, at := disk.state, disk.step;
      VerdictExactly(old(Knows()), Now(d0), snapshot, expected, FaultAt(disk.faults, at));
      var primary := Check(snapshot, expected);
      if primary.Err? {
        assert disk.passed[|old(disk.passed)|..] == [];
        if Admits(old(Knows()), Now(d0), snapshot, expected) { UnreadStore(d0, snapshot, disk.faults, at); }
        return Err(primary.error);
      }
      PrimaryRead(Now(d0), options);
      var written := WriteSnapshot(disk, primary.value, snapshot, at);
      if !written { return Err(Io); }
      databaseId := Some(snapshot.databaseId);
      generation := snapshot.generation;
      return Ok(FileAck(snapshot.databaseId, snapshot.generation, snapshot.revision));
    }

    /** `#loadWithRecovery`: the primary; failing that, nothing if there is no backup, the backup
        if recovery is permitted, a refusal if it is not. */
    method LoadWithRecovery() returns (r: Result<Option<Snapshot>, FileError>)
      requires WellFormed(disk.state)
      modifies disk`step, disk`state, disk`passed
      ensures old(disk.passed) <= disk.passed
      ensures var look := Now(old(disk.state));
              && r == Recovery(look, options, recoverFromBackup, disk.faults, old(disk.step))
              && Reached(old(disk.state), disk.state,
                         Recovered(look, options, recoverFromBackup, disk.faults, old(disk.step)))
              && Between(old(disk.state), disk.passed, |old(disk.passed)|,
                         Recovered(look, options, recoverFromBackup, disk.faults, old(disk.step)))
    {
      hide LookAt, Now, WellFormed, Reached, Between;
      ghost var d0 := disk.state;
      ReachedRefl(d0);
      NothingBetween(d0, disk.passed, Now(d0));
      var primary := Read(Primary);
      if primary.Ok? && primary.value.Some? { return primary; }
      var backup := Read(Backup);
      if backup.Err? {
        if primary.Err? { return Err(BothUnusable); }
        return backup;
      }
      if backup.value.None? {
        if primary.Err? { return primary; }
        return Ok(None);
      }
      if !recoverFromBackup { return Err(PermissionRequired); }
      var installed := InstallBytes(disk, Primary, backup.value.value);
      if !installed { return Err(Io); }
      return backup;
    }

    method Close()
      modifies this`closed
      ensures closed
    {
      closed := true;
    }

    /** `load`, with the lock held. */
    method Load() returns (r: Result<Option<Snapshot>, FileError>)
      requires WellFormed(disk.state)
      modifies disk`step, disk`state, disk`passed, this
      ensures old(disk.passed) <= disk.passed
      ensures old(closed) || old(loaded) ==>
                && r == Err(if old(closed) then NotReady else AlreadyLoaded)
                && Knows() == old(Knows()) && disk.state == old(disk.state) && disk.passed == old(disk.passed)
      ensures !old(closed) && !old(loaded) ==>
                && WholeLoad(old(disk.state), options, recoverFromBackup, disk.faults, old(disk.step), r,
                           disk.passed[|old(disk.passed)|..], disk.state)
                && Knows() == Remembered(old(Knows()), r)
    {
      hide LookAt, Now, WellFormed, Reached, Between, CleanSteps, Recovery, Recovered;
      ghost var d0, at, passed := disk.state, disk.step, disk.passed;
      if closed { return Err(NotReady); }
      if loaded { return Err(AlreadyLoaded); }
      loaded := true;
      var removed := RemoveStaleTemps(disk);
      ghost var d1, cleaned := disk.state, disk.passed;
      ReachedWellFormed(d0, d1, Now(d0));
      if !removed {
        BetweenDrop(d0, disk.passed, |passed|, Now(d0));
        Close();
        return Err(Io);
      }
      r := LoadWithRecovery();
      ghost var look := Recovered(Now(d0), options, recoverFromBackup, disk.faults, at + CleanSteps(d0));
      ReachedAfter(d0, d1, disk.state, look);
      BetweenAfter(d0, d1, cleaned, disk.passed, |passed|, look);
      BetweenDrop(d0, disk.passed, |passed|, look);
      if r.Err? {
        Close();
        return;
      }
      generation := GenerationIn(r.value);
      databaseId := if r.value.Some? then Some(r.value.value.databaseId) else None;
    }
  }
}
