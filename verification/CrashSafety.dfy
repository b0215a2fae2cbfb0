/** Any sequence of openings, stores, failures and power losses over one storage file. */
module CrashSafety {
  import opened Texts
  import opened SnapshotFiles
  import opened Disks
  import opened FileAdapters

  /** What happened in one episode: an opening and what it answered, a store and what it answered, or
      a loss of power. */
  datatype Event =
    | Opened(recover: bool, max: MaxBytes, faults: seq<Fault>, answer: Result<Option<Snapshot>, FileError>)
    | Stored(snapshot: Snapshot, expected: int, faults: seq<Fault>, ack: Result<FileAck, FileError>)
    | Lost(k: nat, damaged: set<nat>)

  /** An event between two states of the process and the disk, with every disk state passed through. */
  datatype Entry = Entry(event: Event, memory: Memory, before: DiskState, passed: seq<DiskState>,
                         memory': Memory, after: DiskState)

  function Unopened(o: Options): Memory {
    Memory(o, false, false, 0, None)
  }

  /** An opening is by a new adapter; a loss of power leaves none that has loaded. */
  ghost predicate Lawful(e: Entry, f: Format) {
    match e.event
    case Opened(recover, max, faults, answer) =>
      && WholeLoad(e.before, Options(f, max), recover, faults, 0, answer, e.passed, e.after)
      && e.memory' == Remembered(Unopened(Options(f, max)), answer)
    case Stored(snapshot, expected, faults, ack) =>
      && e.memory.options.format == f
      && WholeStore(e.memory, e.before, snapshot, expected, faults, 0, ack, e.passed, e.memory', e.after)
    case Lost(k, damaged) =>
      && k <= |e.before.pending|
      && e.after == Crashed(e.before, k, damaged) && e.passed == [e.after] && e.memory' == Unopened(e.memory.options)
  }

  function DiskAfter(d0: DiskState, trace: seq<Entry>): DiskState {
    if trace == [] then d0 else trace[|trace| - 1].after
  }

  function MemoryAfter(f: Format, trace: seq<Entry>): Memory {
    if trace == [] then Unopened(Options(f, 1)) else trace[|trace| - 1].memory'
  }

  /** Entries that follow one another from `d0`, each lawful. */
  ghost predicate Run(d0: DiskState, trace: seq<Entry>, f: Format) {
    forall i :: 0 <= i < |trace| ==>
      && Lawful(trace[i], f)
      && trace[i].before == DiskAfter(d0, trace[..i]) && trace[i].memory == MemoryAfter(f, trace[..i])
  }

  /** Every snapshot given to a store has this property. */
  ghost predicate StoresOnly(trace: seq<Entry>, keeps: Keeps) {
    forall i :: 0 <= i < |trace| && trace[i].event.Stored? ==> keeps(trace[i].event.snapshot)
  }

  const ANYTHING: Keeps := s => true

  /** Whatever a crash leaves: the primary whole and synced, or none; the backup likewise, and the same
      snapshot or its predecessor. Neither need be readable. */
  ghost predicate Healthy(d: DiskState) {
    Steady(d, ANYTHING)
  }

  /* ---------- a healthy directory stays healthy ---------- */

  lemma RecoveredGood(look: Look, keeps: Keeps, o: Options, recover: bool, faults: seq<Fault>, at: nat)
    requires Good(look, keeps)
    ensures Good(Recovered(look, o, recover, faults, at), keeps)
  {
  }

  lemma BetweenSteady(d0: DiskState, states: seq<DiskState>, look: Look, keeps: Keeps)
    requires Steady(d0, keeps) && Good(look, keeps) && Between(d0, states, 0, look)
    ensures forall i :: 0 <= i < |states| ==> Steady(states[i], keeps)
  {
    hide LookAt, Now, WellFormed, Reached, Good;
    SteadyNow(d0, keeps);
    forall i | 0 <= i < |states|
      ensures Steady(states[i], keeps)
    {
      ReachedSteady(d0, states[i], if Reached(d0, states[i], look) then look else Now(d0), keeps);
    }
  }

  /** A store that the checks admit extends the primary it found. */
  lemma AdmittedExtends(memory: Memory, look: Look, snapshot: Snapshot, expected: int)
    requires Admits(memory, look, snapshot, expected)
    ensures var primary := PrimaryOf(look);
            && Writable(memory.options.format, memory.options.maxBytes, snapshot)
            && snapshot.generation == GenerationIn(primary) + 1
            && (primary.Some? ==> primary.value.databaseId == snapshot.databaseId)
  {
    hide Reads, Writable;
    PrimaryRead(look, memory.options);
  }

  lemma LawfulSteady(e: Entry, f: Format, keeps: Keeps)
    requires Steady(e.before, keeps) && Lawful(e, f) && (e.event.Stored? ==> keeps(e.event.snapshot))
    ensures Steady(e.after, keeps) && forall i :: 0 <= i < |e.passed| ==> Steady(e.passed[i], keeps)
  {
    hide LookAt, Now, WellFormed, Reached, Between, Good, Recovered, StoreState, StoreLook, Steady, Admits;
    SteadyNow(e.before, keeps);
    match e.event
    case Opened(recover, max, faults, answer) =>
      var o := Options(f, max);
      var cleaned := Runs(faults, 0, CleanSteps(e.before));
      RecoveredGood(Now(e.before), keeps, o, recover, faults, CleanSteps(e.before));
      var look := if cleaned then Recovered(Now(e.before), o, recover, faults, CleanSteps(e.before)) else Now(e.before);
      ReachedSteady(e.before, e.after, look, keeps);
      BetweenSteady(e.before, e.passed, look, keeps);
    case Stored(snapshot, expected, faults, ack) =>
      if Admits(e.memory, Now(e.before), snapshot, expected) {
        AdmittedExtends(e.memory, Now(e.before), snapshot, expected);
        StoreSteady(e.before, e.after, PrimaryOf(Now(e.before)), snapshot, keeps);
        forall i | 0 <= i < |e.passed|
          ensures Steady(e.passed[i], keeps)
        {
          StoreSteady(e.before, e.passed[i], PrimaryOf(Now(e.before)), snapshot, keeps);
        }
      }
    case Lost(k, damaged) =>
      CrashKeepsSteady(e.before, k, damaged, keeps);
  }

  /** Every state of every run is one whose every crash leaves the primary a complete snapshot (or none)
      and any backup the same snapshot or its predecessor; and whatever is true of every snapshot at
      first, and of every one that is to be stored, is true of every one that is found. */
  lemma {:induction false} RunSteady(d0: DiskState, trace: seq<Entry>, f: Format, keeps: Keeps, i: nat)
    requires Steady(d0, keeps) && StoresOnly(trace, keeps) && Run(d0, trace, f) && i < |trace|
    ensures Steady(trace[i].before, keeps) && Steady(trace[i].after, keeps)
    ensures forall s :: 0 <= s < |trace[i].passed| ==> Steady(trace[i].passed[s], keeps)
  {
    hide Steady, Lawful;
    if i > 0 { RunSteady(d0, trace, f, keeps, i - 1); }
    assert trace[i].before == DiskAfter(d0, trace[..i]);
    LawfulSteady(trace[i], f, keeps);
  }

  lemma RunHealthy(d0: DiskState, trace: seq<Entry>, f: Format, i: nat)
    requires Healthy(d0) && Run(d0, trace, f) && i < |trace|
    ensures Healthy(trace[i].before) && Healthy(trace[i].after) && Lawful(trace[i], f)
    ensures forall s :: 0 <= s < |trace[i].passed| ==> Healthy(trace[i].passed[s])
    ensures i > 0 ==> trace[i].before == trace[i - 1].after
  {
    hide Steady, Lawful;
    RunSteady(d0, trace, f, ANYTHING, i);
    assert trace[i].before == DiskAfter(d0, trace[..i]);
  }

  lemma LawfulHealthy(e: Entry, f: Format)
    requires Healthy(e.before) && Lawful(e, f)
    ensures Healthy(e.after)
  {
    hide Steady, Lawful;
    LawfulSteady(e, f, ANYTHING);
  }

  /* ---------- what an opening answers, and when it rolls back ---------- */

  /** A file that cannot be used: reading it fails, or it is there and not readable. */
  predicate Unusable(found: Option<Snapshot>, o: Options, fault: Fault) {
    Stops(fault) || (found.Some? && !Reads(o, found.value))
  }

  /** What opening a healthy directory must answer: the primary, if it could be used (and, where there
      is none, if looking for a backup did not fail). */
  ghost function HealthyAnswer(look: Look, o: Options, recover: bool, faults: seq<Fault>, at: nat)
    : Result<Option<Snapshot>, FileError>
  {
    var primary, backup := PrimaryOf(look), BackupOf(look);
    if !Unusable(primary, o, FaultAt(faults, at)) then
      if primary.None? && Stops(FaultAt(faults, at + 1)) then Err(Io) else Ok(primary)
    else if Unusable(backup, o, FaultAt(faults, at + 1)) then Err(BothUnusable)
    else if backup.None? then Err(if Stops(FaultAt(faults, at)) then Io else Corrupt)
    else if !recover then Err(PermissionRequired)
    else if Runs(faults, at + 2, INSTALL_STEPS) then Ok(backup) else Err(Io)
  }

  lemma HealthyRecovery(look: Look, o: Options, recover: bool, faults: seq<Fault>, at: nat)
    requires Good(look, ANYTHING)
    ensures Recovery(look, o, recover, faults, at) == HealthyAnswer(look, o, recover, faults, at)
    ensures FallsBack(look, o, recover, faults, at)
       <==> && recover && Unusable(PrimaryOf(look), o, FaultAt(faults, at))
            && !Unusable(BackupOf(look), o, FaultAt(faults, at + 1)) && BackupOf(look).Some?
    ensures BackupOf(look).Some? && Reads(o, BackupOf(look).value) ==> SnapshotIn(look.backup, o) == Ok(BackupOf(look))
  {
    hide Runs, Reads;
  }

  ghost predicate AnswersHealthily(e: Entry, f: Format)
    requires e.event.Opened?
  {
    var clean := CleanSteps(e.before);
    e.event.answer == if Runs(e.event.faults, 0, clean)
                      then HealthyAnswer(Now(e.before), Options(f, e.event.max), e.event.recover, e.event.faults, clean)
                      else Err(Io)
  }

  /** The opening could not use the primary. */
  ghost predicate PrimaryUnusable(e: Entry, f: Format)
    requires e.event.Opened?
  {
    Unusable(PrimaryOf(Now(e.before)), Options(f, e.event.max), FaultAt(e.event.faults, CleanSteps(e.before)))
  }

  lemma OpenedAnswers(e: Entry, f: Format)
    requires Healthy(e.before) && Lawful(e, f) && e.event.Opened?
    ensures AnswersHealthily(e, f)
    ensures e.event.answer.Err? && e.event.answer.error != Io ==> PrimaryUnusable(e, f)
  {
    hide Steady, Runs, Now, CleanSteps, Recovery, Recovered, Reached, Between, Reads;
    SteadyNow(e.before, ANYTHING);
    HealthyRecovery(Now(e.before), Options(f, e.event.max), e.event.recover, e.event.faults, CleanSteps(e.before));
  }

  /** In any run from a healthy directory, however often power was lost: an opening whose clean-up
      works answers with the primary if that could be used; so it refuses, or asks for permission,
      only when reading it failed or it is larger than may be read. */
  lemma RunAnswers(d0: DiskState, trace: seq<Entry>, f: Format, i: nat)
    requires Healthy(d0) && Run(d0, trace, f) && i < |trace| && trace[i].event.Opened?
    ensures AnswersHealthily(trace[i], f)
    ensures trace[i].event.answer.Err? && trace[i].event.answer.error != Io ==> PrimaryUnusable(trace[i], f)
  {
    hide Healthy, Lawful, AnswersHealthily, PrimaryUnusable;
    RunHealthy(d0, trace, f, i);
    OpenedAnswers(trace[i], f);
  }

  /** An opening puts an older backup in the place of an intact primary: recovery is permitted, the
      clean-up works, the primary cannot be used, the backup can, it is another snapshot, and its
      installation reaches the rename. */
  ghost predicate RollsBack(e: Entry, f: Format) {
    && e.event.Opened? && e.event.recover
    && var clean, look := CleanSteps(e.before), Now(e.before);
    && Runs(e.event.faults, 0, clean)
    && PrimaryUnusable(e, f)
    && !Unusable(BackupOf(look), Options(f, e.event.max), FaultAt(e.event.faults, clean + 1))
    && BackupOf(look).Some? && BackupOf(look) != PrimaryOf(look)
    && Places(e.event.faults, clean + 2)
  }

  /** What is found after an opening. */
  ghost function OpenedLook(e: Entry, f: Format): Look {
    if RollsBack(e, f) then With(Now(e.before), Primary, Saved(BackupOf(Now(e.before)).value)) else Now(e.before)
  }

  lemma RecoveredLook(e: Entry, f: Format)
    requires e.event.Opened? && Good(Now(e.before), ANYTHING) && Runs(e.event.faults, 0, CleanSteps(e.before))
    ensures Recovered(Now(e.before), Options(f, e.event.max), e.event.recover, e.event.faults, CleanSteps(e.before))
         == OpenedLook(e, f)
  {
    hide Runs, Now, CleanSteps, Places, Reads;
    HealthyRecovery(Now(e.before), Options(f, e.event.max), e.event.recover, e.event.faults, CleanSteps(e.before));
  }

  lemma OpenedLeaves(e: Entry, f: Format)
    requires e.event.Opened? && Healthy(e.before) && Lawful(e, f)
    ensures Reached(e.before, e.after, OpenedLook(e, f)) && Between(e.before, e.passed, 0, OpenedLook(e, f))
  {
    hide Runs, Now, CleanSteps, Recovered, Steady, Reached, Between, Places, Good, Reads, PrimaryUnusable;
    SteadyNow(e.before, ANYTHING);
    if Runs(e.event.faults, 0, CleanSteps(e.before)) { RecoveredLook(e, f); }
  }

  lemma BackupPrecedes(look: Look)
    requires Good(look, ANYTHING) && BackupOf(look).Some? && BackupOf(look) != PrimaryOf(look)
    ensures PrimaryOf(look).Some? && GenerationIn(BackupOf(look)) + 1 == GenerationIn(PrimaryOf(look))
  {
  }

  /** Opening a healthy directory changes which snapshot is found exactly when it rolls back; it is
      then one generation older, and the intact primary is lost. */
  lemma RollsBackExactly(e: Entry, f: Format)
    requires e.event.Opened? && Healthy(e.before) && Lawful(e, f)
    ensures PrimaryOf(Now(e.after)) != PrimaryOf(Now(e.before)) <==> RollsBack(e, f)
    ensures RollsBack(e, f) ==>
              && PrimaryOf(Now(e.before)).Some?
              && GenerationIn(PrimaryOf(Now(e.after))) + 1 == GenerationIn(PrimaryOf(Now(e.before)))
              && !Survives(e.after, PrimaryOf(Now(e.before)).value)
  {
    hide Runs, LookAt, Now, CleanSteps, Steady, Reached, Between, Places, Lawful, Good, PrimaryUnusable, Unusable;
    OpenedLeaves(e, f);
    ReachedWellFormed(e.before, e.after, OpenedLook(e, f));
    SteadyNow(e.before, ANYTHING);
    if RollsBack(e, f) {
      BackupPrecedes(Now(e.before));
      NowIsLast(e.after);
    }
  }

  /* ---------- acknowledged snapshots ---------- */

  lemma ReachedSurvives(d0: DiskState, d: DiskState, acked: Snapshot)
    requires Survives(d0, acked) && Reached(d0, d, Now(d0))
    ensures Survives(d, acked)
  {
    hide LookAt, Now, WellFormed;
    NowIsLast(d0);
    assert AtLeast(PrimaryOf(LookAt(d0, |d0.pending|)), acked);
    forall k | 0 <= k <= |d.pending|
      ensures AtLeast(PrimaryOf(LookAt(d, k)), acked)
    {
      if Possible(d0, LookAt(d, k)) {
        var k0 :| 0 <= k0 <= |d0.pending| && LookAt(d0, k0) == LookAt(d, k);
      }
    }
  }

  lemma CrashSurvives(d: DiskState, k: nat, damaged: set<nat>, acked: Snapshot)
    requires Healthy(d) && k <= |d.pending| && Survives(d, acked)
    ensures Survives(Crashed(d, k, damaged), acked)
  {
    hide LookAt, WellFormed;
    CrashKeepsSteady(d, k, damaged, ANYTHING);
    OneLook(Crashed(d, k, damaged));
  }

  /** Only a roll-back can lose a snapshot that survives any crash. */
  lemma LawfulSurvives(e: Entry, f: Format, acked: Snapshot)
    requires Healthy(e.before) && Lawful(e, f) && Survives(e.before, acked) && !RollsBack(e, f)
    ensures Survives(e.after, acked) && forall i :: 0 <= i < |e.passed| ==> Survives(e.passed[i], acked)
  {
    hide LookAt, Now, WellFormed, Reached, Good, Recovered, StoreState, StoreLook, Steady, Admits, Survives, RollsBack;
    hide WholeLoad, Reads;
    match e.event
    case Opened(recover, max, faults, answer) =>
      OpenedLeaves(e, f);
      ReachedSurvives(e.before, e.after, acked);
      forall i | 0 <= i < |e.passed|
        ensures Survives(e.passed[i], acked)
      {
        ReachedSurvives(e.before, e.passed[i], acked);
      }
    case Stored(snapshot, expected, faults, ack) =>
      if Admits(e.memory, Now(e.before), snapshot, expected) {
        AdmittedExtends(e.memory, Now(e.before), snapshot, expected);
        StoreSurvives(e.before, e.after, PrimaryOf(Now(e.before)), snapshot, acked);
        forall i | 0 <= i < |e.passed|
          ensures Survives(e.passed[i], acked)
        {
          StoreSurvives(e.before, e.passed[i], PrimaryOf(Now(e.before)), snapshot, acked);
        }
      }
    case Lost(k, damaged) =>
      CrashSurvives(e.before, k, damaged, acked);
  }

  ghost predicate Acked(e: Entry) {
    e.event.Stored? && e.event.ack.Ok?
  }

  /** The last directory sync of an acknowledged store was real. */
  ghost predicate Synced(e: Entry)
    requires e.event.Stored?
  {
    !FaultAt(e.event.faults, StoreSteps(PrimaryOf(Now(e.before))) - 1).Unsupported?
  }

  /** An acknowledged snapshot survives any crash exactly when that sync was real; otherwise there is
      a crash that brings back the snapshot before it. */
  lemma AckSurvivesExactly(e: Entry, f: Format)
    requires Lawful(e, f) && Acked(e)
    ensures PrimaryOf(Now(e.after)) == Some(e.event.snapshot)
    ensures Survives(e.after, e.event.snapshot) <==> Synced(e)
    ensures !Synced(e) ==> |e.after.pending| > 0
                           && PrimaryOf(LookAt(e.after, |e.after.pending| - 1)) == PrimaryOf(Now(e.before))
  {
    hide LookAt, Now, StoreState, StoreLook, Runs, Admits;
    AdmittedExtends(e.memory, Now(e.before), e.event.snapshot, e.event.expected);
    SettledExactly(e.before, e.event.snapshot, e.event.faults, 0, e.passed, e.after);
    if !Synced(e) {
      assert !AtLeast(PrimaryOf(LookAt(e.after, |e.after.pending| - 1)), e.event.snapshot);
    }
  }

  /** No opening from `from` on, up to `to`, rolls back. */
  ghost predicate NoRollBack(trace: seq<Entry>, f: Format, from: nat, to: nat)
    requires to <= |trace|
  {
    forall m :: from <= m < to ==> !RollsBack(trace[m], f)
  }

  /** In any run from a healthy directory: an acknowledged snapshot whose directory sync was real, or
      a later one, is what any crash leaves, at every later moment until an opening rolls back. */
  lemma {:induction false} RunDurable(d0: DiskState, trace: seq<Entry>, f: Format, i: nat, j: nat)
    requires Healthy(d0) && Run(d0, trace, f) && i <= j < |trace|
    requires Acked(trace[i]) && Synced(trace[i]) && NoRollBack(trace, f, i + 1, j + 1)
    ensures Survives(trace[j].after, trace[i].event.snapshot)
    ensures i < j ==> forall s :: 0 <= s < |trace[j].passed| ==> Survives(trace[j].passed[s], trace[i].event.snapshot)
    decreases j
  {
    hide Healthy, Run, Lawful, RollsBack, Survives, Synced;
    RunHealthy(d0, trace, f, j);
    if i == j {
      AckSurvivesExactly(trace[i], f);
    } else {
      RunDurable(d0, trace, f, i, j - 1);
      LawfulSurvives(trace[j], f, trace[i].event.snapshot);
    }
  }

  lemma SurvivesNow(d: DiskState, acked: Snapshot)
    requires Survives(d, acked)
    ensures AtLeast(PrimaryOf(Now(d)), acked)
  {
    hide LookAt;
    NowIsLast(d);
    assert AtLeast(PrimaryOf(LookAt(d, |d.pending|)), acked);
  }

  /** So an opening that succeeds, after any losses of power, answers with that snapshot or a later one. */
  lemma RunFindsAcked(d0: DiskState, trace: seq<Entry>, f: Format, i: nat, j: nat)
    requires Healthy(d0) && Run(d0, trace, f) && i < j < |trace|
    requires Acked(trace[i]) && Synced(trace[i]) && NoRollBack(trace, f, i + 1, j + 1)
    requires trace[j].event.Opened? && trace[j].event.answer.Ok?
    ensures AtLeast(trace[j].event.answer.value, trace[i].event.snapshot)
  {
    hide Healthy, Run, Lawful, Survives, Synced, Now, CleanSteps, Reads;
    RunHealthy(d0, trace, f, j);
    RunDurable(d0, trace, f, i, j - 1);
    SurvivesNow(trace[j].before, trace[i].event.snapshot);
    RunAnswers(d0, trace, f, j);
    assert !RollsBack(trace[j], f);
  }

  /* ---------- runs in which everything stored can be read back ---------- */

  /** Readable under this limit. A caller can tell before storing. */
  function Reading(f: Format, max: MaxBytes): Keeps {
    s => Readable(f, max, s)
  }

  lemma MoreRoom(f: Format, max: MaxBytes, more: MaxBytes, s: Snapshot)
    requires Readable(f, max, s) && max <= more
    ensures Readable(f, more, s)
  {
  }

  lemma FoundReadable(look: Look, f: Format, max: MaxBytes, more: MaxBytes)
    requires Good(look, Reading(f, max)) && max <= more
    ensures PrimaryOf(look).Some? ==> Reads(Options(f, more), PrimaryOf(look).value)
  {
    hide Readable;
    if PrimaryOf(look).Some? { MoreRoom(f, max, more, PrimaryOf(look).value); }
  }

  /** If every snapshot to be stored can be read back under the smallest limit in use, then an opening
      refuses, or rolls back, only after reading the primary failed; and one in which nothing fails
      answers with the primary. */
  lemma RunReadable(d0: DiskState, trace: seq<Entry>, f: Format, max: MaxBytes, i: nat)
    requires Steady(d0, Reading(f, max)) && StoresOnly(trace, Reading(f, max)) && Run(d0, trace, f)
    requires Healthy(d0) && i < |trace| && trace[i].event.Opened? && max <= trace[i].event.max
    ensures var e := trace[i]; var clean := CleanSteps(e.before);
            && (e.event.answer.Err? && e.event.answer.error != Io ==> Stops(FaultAt(e.event.faults, clean)))
            && (RollsBack(e, f) ==> Stops(FaultAt(e.event.faults, clean)))
            && (Runs(e.event.faults, 0, clean + 2) ==> e.event.answer == Ok(PrimaryOf(Now(e.before))))
  {
    hide Steady, Healthy, Run, Lawful, Readable, Reading, Good, Now, CleanSteps;
    var e := trace[i];
    RunSteady(d0, trace, f, Reading(f, max), i);
    SteadyNow(e.before, Reading(f, max));
    FoundReadable(Now(e.before), f, max, e.event.max);
    RunAnswers(d0, trace, f, i);
  }

  /** Then what was acknowledged with a real directory sync is found, for certain, by every later opening
      in which nothing fails, whatever power was lost in between, unless an opening met a failing read. */
  lemma RunFindsForCertain(d0: DiskState, trace: seq<Entry>, f: Format, max: MaxBytes, i: nat, j: nat)
    requires Steady(d0, Reading(f, max)) && StoresOnly(trace, Reading(f, max)) && Run(d0, trace, f)
    requires Healthy(d0) && i < j < |trace| && Acked(trace[i]) && Synced(trace[i])
    requires forall m :: i < m <= j && trace[m].event.Opened? ==>
               && max <= trace[m].event.max
               && !Stops(FaultAt(trace[m].event.faults, CleanSteps(trace[m].before)))
    requires trace[j].event.Opened? && Runs(trace[j].event.faults, 0, CleanSteps(trace[j].before) + 2)
    ensures trace[j].event.answer.Ok? && AtLeast(trace[j].event.answer.value, trace[i].event.snapshot)
  {
    hide Steady, Healthy, Run, Reading, Now, CleanSteps, RollsBack, Synced, StoresOnly;
    forall m | i + 1 <= m < j + 1
      ensures !RollsBack(trace[m], f)
    {
      if trace[m].event.Opened? { RunReadable(d0, trace, f, max, m); } else { OnlyOpenings(trace[m], f); }
    }
    RunReadable(d0, trace, f, max, j);
    RunFindsAcked(d0, trace, f, i, j);
  }

  lemma OnlyOpenings(e: Entry, f: Format)
    requires !e.event.Opened?
    ensures !RollsBack(e, f)
  {
  }

  /* ---------- living it ---------- */

  /** A loss of power comes between episodes. One in the middle of an opening or a store is that episode
      with its remaining steps all failing without effect, which leaves the disk in the state that was
      being passed through, and then the loss. */
  datatype Episode =
    | Opening(recover: bool, max: MaxBytes, faults: seq<Fault>)
    | Storing(snapshot: Snapshot, expected: int, faults: seq<Fault>)
    | PowerLoss(k: nat, damaged: set<nat>)

  /** The event is what came of the episode; of more directory changes than are pending, all made it. */
  ghost predicate CameOf(e: Entry, episode: Episode) {
    match episode
    case Opening(recover, max, faults) =>
      e.event.Opened? && e.event.recover == recover && e.event.max == max && e.event.faults == faults
    case Storing(snapshot, expected, faults) =>
      e.event.Stored? && e.event.snapshot == snapshot && e.event.expected == expected && e.event.faults == faults
    case PowerLoss(k, damaged) =>
      e.event == Lost(if k <= |e.before.pending| then k else |e.before.pending|, damaged)
  }

  function Passed(trace: seq<Entry>): seq<DiskState> {
    if trace == [] then [] else Passed(trace[..|trace| - 1]) + trace[|trace| - 1].passed
  }

  /** One episode on the objects: a new adapter opens, the current one stores, or power is lost and
      with it the adapter. */
  method LiveOne(disk: Disk, f: Format, adapter: FileAdapter, episode: Episode)
    returns (next: FileAdapter, event: Event, ghost e: Entry)
    requires adapter.disk == disk && adapter.options.format == f && WellFormed(disk.state)
    modifies disk, adapter
    ensures next.disk == disk && next.options.format == f && (next == adapter || fresh(next))
    ensures e.event == event && CameOf(e, episode) && Lawful(e, f)
    ensures e.before == old(disk.state) && e.memory == old(adapter.Knows())
    ensures e.after == disk.state && e.memory' == next.Knows()
    ensures disk.passed == old(disk.passed) + e.passed
  {
    hide LookAt, Now, WellFormed, WholeLoad, WholeStore, Crashed;
    ghost var before, memory := disk.state, adapter.Knows();
    next := adapter;
    match episode {
      case Opening(recover, max, faults) =>
        disk.Follow(faults);
        next := new FileAdapter(disk, Options(f, max), recover);
        var answer := next.Load();
        event := Opened(recover, max, faults, answer);
      case Storing(snapshot, expected, faults) =>
        disk.Follow(faults);
        var ack := adapter.Store(snapshot, expected);
        event := Stored(snapshot, expected, faults, ack);
      case PowerLoss(k, damaged) =>
        var made := if k <= |disk.state.pending| then k else |disk.state.pending|;
        disk.LosePower(made, damaged);
        next := new FileAdapter(disk, adapter.options, false);
        event := Lost(made, damaged);
    }
    e := Entry(event, memory, before, disk.passed[|old(disk.passed)|..], next.Knows(), disk.state);
  }

  lemma RunNext(d0: DiskState, trace: seq<Entry>, f: Format, e: Entry)
    requires Run(d0, trace, f) && Lawful(e, f)
    requires e.before == DiskAfter(d0, trace) && e.memory == MemoryAfter(f, trace)
    ensures Run(d0, trace + [e], f) && Passed(trace + [e]) == Passed(trace) + e.passed
  {
    hide Lawful;
    forall i | 0 <= i < |trace| + 1
      ensures (trace + [e])[..i] == trace[..i]
    {
    }
    assert (trace + [e])[..|trace|] == trace;
  }

  /** Any sequence of openings, stores and losses of power, with any failures of single steps, is a
      run: one entry for each episode, and every state of the disk in it. */
  method Live(disk: Disk, f: Format, episodes: seq<Episode>) returns (log: seq<Event>, ghost trace: seq<Entry>)
    requires Healthy(disk.state)
    modifies disk
    ensures |log| == |trace| == |episodes|
    ensures forall i :: 0 <= i < |episodes| ==> CameOf(trace[i], episodes[i]) && trace[i].event == log[i]
    ensures Run(old(disk.state), trace, f)
    ensures disk.state == DiskAfter(old(disk.state), trace) && disk.passed == old(disk.passed) + Passed(trace)
  {
    hide Healthy, Lawful, CameOf, Run, Passed;
    ghost var d0 := disk.state;
    log, trace := [], [];
    EmptyRun(d0, f);
    var adapter := new FileAdapter(disk, Options(f, 1), false);
    for n := 0 to |episodes|
      invariant |log| == |trace| == n
      invariant forall i :: 0 <= i < n ==> CameOf(trace[i], episodes[i]) && trace[i].event == log[i]
      invariant Run(d0, trace, f)
      invariant fresh(adapter) && adapter.disk == disk && adapter.options.format == f
          && adapter.Knows() == MemoryAfter(f, trace)
      invariant disk.state == DiskAfter(d0, trace) && disk.passed == old(disk.passed) + Passed(trace)
    {
      ghost var passed := disk.passed;
      StillWellFormed(d0, trace, f);
      ghost var e;
      var event;
      adapter, event, e := LiveOne(disk, f, adapter, episodes[n]);
      RunNext(d0, trace, f, e);
      log, trace := log + [event], trace + [e];
    }
  }

  lemma EmptyRun(d0: DiskState, f: Format)
    ensures Run(d0, [], f) && Passed([]) == []
  {
  }

  lemma StillWellFormed(d0: DiskState, trace: seq<Entry>, f: Format)
    requires Healthy(d0) && Run(d0, trace, f)
    ensures WellFormed(DiskAfter(d0, trace))
  {
    hide Lawful;
    if trace == [] {
      SteadyNow(d0, ANYTHING);
    } else {
      RunHealthy(d0, trace, f, |trace| - 1);
      SteadyNow(trace[|trace| - 1].after, ANYTHING);
    }
  }

  const EMPTY := DiskState(map[], [], map[], 0)

  /** An empty directory is healthy. */
  lemma EmptyIsSteady(keeps: Keeps)
    ensures Steady(EMPTY, keeps)
  {
  }

  /** The whole life of a storage file, from the empty directory on: every crash at any moment leaves
      a healthy directory; openings answer with the primary unless it could not be used; and what was
      acknowledged with a real directory sync is found by every later opening that succeeds, until
      one rolls back. If all that is to be stored can be read back under `max`, an opening with that
      limit or a larger one fails to answer with the primary only when something in it fails. */
  method Lifetime(f: Format, episodes: seq<Episode>, ghost max: MaxBytes)
    returns (log: seq<Event>, ghost trace: seq<Entry>)
    ensures |log| == |trace| == |episodes| && Run(EMPTY, trace, f)
    ensures forall i :: 0 <= i < |trace| ==> CameOf(trace[i], episodes[i]) && trace[i].event == log[i]
    ensures forall i, s :: 0 <= i < |trace| && 0 <= s < |trace[i].passed| ==> Healthy(trace[i].passed[s])
    ensures forall i :: 0 <= i < |trace| && trace[i].event.Opened? ==> AnswersHealthily(trace[i], f)
    ensures forall i, j ::
              && 0 <= i < j < |log| && Acked(trace[i]) && Synced(trace[i]) && NoRollBack(trace, f, i + 1, j + 1)
              && log[j].Opened? && log[j].answer.Ok?
              ==> AtLeast(log[j].answer.value, log[i].snapshot)
    ensures StoresOnly(trace, Reading(f, max)) ==>
              forall i :: 0 <= i < |trace| && log[i].Opened? && max <= log[i].max
                          && Runs(log[i].faults, 0, CleanSteps(trace[i].before) + 2)
                          ==> log[i].answer == Ok(PrimaryOf(Now(trace[i].before)))
  {
    hide Run, CameOf, Steady, Healthy, AnswersHealthily, Synced, NoRollBack, AtLeast, Reading, StoresOnly, Runs;
    hide CleanSteps, Now;
    EmptyIsHealthy();
    EmptyIsSteady(Reading(f, max));
    var disk := new Disk(EMPTY);
    log, trace := Live(disk, f, episodes);
    forall i, s | 0 <= i < |trace| && 0 <= s < |trace[i].passed|
      ensures Healthy(trace[i].passed[s])
    {
      RunHealthy(EMPTY, trace, f, i);
    }
    forall i | 0 <= i < |trace| && trace[i].event.Opened?
      ensures AnswersHealthily(trace[i], f)
    {
      RunAnswers(EMPTY, trace, f, i);
    }
    forall i, j | && 0 <= i < j < |log| && Acked(trace[i]) && Synced(trace[i]) && NoRollBack(trace, f, i + 1, j + 1)
                  && log[j].Opened? && log[j].answer.Ok?
      ensures AtLeast(log[j].answer.value, log[i].snapshot)
    {
      RunFindsAcked(EMPTY, trace, f, i, j);
    }
    if StoresOnly(trace, Reading(f, max)) {
      forall i | 0 <= i < |trace| && log[i].Opened? && max <= log[i].max
                 && Runs(log[i].faults, 0, CleanSteps(trace[i].before) + 2)
        ensures log[i].answer == Ok(PrimaryOf(Now(trace[i].before)))
      {
        RunReadable(EMPTY, trace, f, max, i);
      }
    }
  }

  lemma EmptyIsHealthy()
    ensures Healthy(EMPTY)
  {
    EmptyIsSteady(ANYTHING);
  }

  lemma HealthyNow(d: DiskState)
    requires Healthy(d)
    ensures WellFormed(d) && Good(Now(d), ANYTHING)
  {
    SteadyNow(d, ANYTHING);
  }

  /* ---------- what is lost, on concrete runs ---------- */

  /** The first opening of an empty directory, with no faults. */
  lemma FirstOpening(e: Entry, f: Format)
    requires e.before == EMPTY && e.event.Opened? && e.event.faults == [] && Lawful(e, f)
    ensures e.event.answer == Ok(None) && Now(e.after) == Look(None, None)
    ensures e.memory' == Memory(Options(f, e.event.max), false, true, 0, None)
  {
    hide Reached, Reads;
    assert Now(EMPTY) == Look(None, None);
    FoundNow(EMPTY, e.after, Look(None, None));
  }

  /** A store over what was just opened or stored, in which no step fails. */
  lemma FaultlessStore(e: Entry, f: Format, look: Look)
    requires e.event.Stored? && Lawful(e, f) && Now(e.before) == look
    requires Admits(e.memory, look, e.event.snapshot, e.event.expected)
    requires Runs(e.event.faults, 0, StoreSteps(PrimaryOf(look)))
    ensures e.event.ack
        == Ok(FileAck(e.event.snapshot.databaseId, e.event.snapshot.generation, e.event.snapshot.revision))
    ensures Now(e.after) == With(BackedUp(look, PrimaryOf(look)), Primary, Saved(e.event.snapshot))
    ensures e.memory'
        == e.memory.(generation := e.event.snapshot.generation, databaseId := Some(e.event.snapshot.databaseId))
  {
    hide Now, StoreState, Admits, Runs, Settled;
    Acknowledged(look, e.event.snapshot, e.event.faults, 0);
  }

  /** A platform that cannot sync a directory: a store is acknowledged, power is lost, and the
      database is found empty. */
  method SkippedSyncLoses(snapshot: Snapshot, f: Format, max: MaxBytes)
    returns (ack: Result<FileAck, FileError>, found: Result<Option<Snapshot>, FileError>)
    requires snapshot.generation == 1 && Writable(f, max, snapshot)
    ensures ack.Ok? && found == Ok(None)
  {
    hide Now, LookAt, Lawful, Healthy, WellFormed, Survives, Crashed, Reads, Writable;
    EmptyIsHealthy();
    HealthyNow(EMPTY);
    var disk := new Disk(EMPTY);
    var adapter := new FileAdapter(disk, Options(f, max), false);
    var event;
    ghost var e;
    adapter, event, e := LiveOne(disk, f, adapter, Opening(false, max, []));
    FirstOpening(e, f);
    LawfulHealthy(e, f);
    HealthyNow(disk.state);
    adapter, event, e := LiveOne(disk, f, adapter, Storing(snapshot, 0, [Fine, Fine, Fine, Fine, Fine, Unsupported]));
    FaultlessStore(e, f, Look(None, None));
    ack := event.ack;
    AckSurvivesExactly(e, f);
    LawfulHealthy(e, f);
    HealthyNow(disk.state);
    var k := |disk.state.pending| - 1;
    CrashFinds(disk.state, k, {});
    adapter, event, e := LiveOne(disk, f, adapter, PowerLoss(k, {}));
    CrashOf(e, f);
    LawfulHealthy(e, f);
    HealthyNow(disk.state);
    adapter, event, e := LiveOne(disk, f, adapter, Opening(false, max, []));
    OpenedAnswers(e, f);
    found := event.answer;
  }

  lemma CrashFinds(d: DiskState, k: nat, damaged: set<nat>)
    requires Healthy(d) && k <= |d.pending|
    ensures Now(Crashed(d, k, damaged)) == LookAt(d, k)
  {
    CrashKeepsSteady(d, k, damaged, ANYTHING);
  }

  lemma CrashOf(e: Entry, f: Format)
    requires e.event.Lost? && Lawful(e, f)
    ensures e.event.k <= |e.before.pending| && e.after == Crashed(e.before, e.event.k, e.event.damaged)
  {
  }

  /** Two stores from an empty directory, no step failing. */
  method StoreTwice(older: Snapshot, newer: Snapshot, f: Format, max: MaxBytes)
    returns (acks: seq<Result<FileAck, FileError>>, disk: Disk, adapter: FileAdapter)
    requires older.generation == 1 && newer.generation == 2 && older.databaseId == newer.databaseId
    requires Readable(f, max, older) && Writable(f, max, newer)
    ensures |acks| == 2 && acks[0].Ok? && acks[1].Ok?
    ensures fresh(disk) && fresh(adapter) && adapter.disk == disk && adapter.options == Options(f, max)
    ensures Healthy(disk.state) && WellFormed(disk.state)
    ensures Now(disk.state) == Look(Some(Saved(newer)), Some(Saved(older)))
    ensures Survives(disk.state, newer)
    ensures adapter.Knows() == Memory(Options(f, max), false, true, 2, Some(newer.databaseId))
  {
    hide Now, LookAt, Lawful, Healthy, WellFormed, Survives, CleanSteps, Settled, Readable, Writable;
    ReadsAre(f, max, older);
    EmptyIsHealthy();
    HealthyNow(EMPTY);
    disk := new Disk(EMPTY);
    adapter := new FileAdapter(disk, Options(f, max), false);
    var event;
    ghost var e;
    adapter, event, e := LiveOne(disk, f, adapter, Opening(false, max, []));
    FirstOpening(e, f);
    LawfulHealthy(e, f);
    HealthyNow(disk.state);
    adapter, event, e := LiveOne(disk, f, adapter, Storing(older, 0, []));
    FaultlessStore(e, f, Look(None, None));
    LawfulHealthy(e, f);
    HealthyNow(disk.state);
    acks := [event.ack];
    adapter, event, e := LiveOne(disk, f, adapter, Storing(newer, 1, []));
    FaultlessStore(e, f, Look(Some(Saved(older)), None));
    AckSurvivesExactly(e, f);
    LawfulHealthy(e, f);
    HealthyNow(disk.state);
    acks := acks + [event.ack];
  }

  lemma ReadsAre(f: Format, max: MaxBytes, s: Snapshot)
    requires Readable(f, max, s)
    ensures Writable(f, max, s) && Reads(Options(f, max), s)
  {
    hide SnapshotFiles.FileBytes;
  }

  /** Two acknowledged stores, every sync real; then an opening that may recover, whose clean-up
      works and whose first read fails: it answers with the first of the two, and that is what the
      file now holds. */
  method FailedReadRollsBack(older: Snapshot, newer: Snapshot, f: Format, max: MaxBytes)
    returns (acks: seq<Result<FileAck, FileError>>, found: Result<Option<Snapshot>, FileError>, left: Option<Snapshot>)
    requires older.generation == 1 && newer.generation == 2 && older.databaseId == newer.databaseId
    requires Readable(f, max, older) && Writable(f, max, newer)
    ensures |acks| == 2 && acks[0].Ok? && acks[1].Ok?
    ensures found == Ok(Some(older)) && left == Some(older)
  {
    hide Now, LookAt, Lawful, Healthy, WellFormed, Survives, CleanSteps, Readable, Writable, Reads;
    ReadsAre(f, max, older);
    var disk, adapter;
    acks, disk, adapter := StoreTwice(older, newer, f, max);
    var clean := CleanSteps(disk.state);
    var event;
    ghost var e;
    adapter, event, e := LiveOne(disk, f, adapter, Opening(true, max, seq(clean, _ => Fine) + [Before]));
    OpenedAnswers(e, f);
    assert RollsBack(e, f);
    OpenedLeaves(e, f);
    FoundNow(e.before, e.after, OpenedLook(e, f));
    found, left := event.answer, PrimaryOf(Now(disk.state));
  }

  /** Over a primary that cannot be read back nothing more is ever stored. */
  lemma NothingStoredOver(e: Entry, f: Format)
    requires Lawful(e, f) && e.event.Stored?
    requires Healthy(e.before) && PrimaryOf(Now(e.before)).Some?
    requires !Reads(e.memory.options, PrimaryOf(Now(e.before)).value)
    ensures e.event.ack.Err? && e.after == e.before && e.passed == []
  {
    hide LookAt, Now, WellFormed, Reads, Steady, Verdict;
    HealthyNow(e.before);
  }

  /** Nothing fails and power is never lost: two stores are acknowledged, every sync real, and the second
      is within the limit in bytes but cannot be read back. The next store is refused, and so is the next
      opening, or, if it may recover, it puts the first in the place of the second. */
  method OversizedIsLost(older: Snapshot, newer: Snapshot, next: Snapshot, f: Format, max: MaxBytes, recover: bool)
    returns (acks: seq<Result<FileAck, FileError>>, refused: Result<FileAck, FileError>,
             found: Result<Option<Snapshot>, FileError>, left: Option<Snapshot>)
    requires older.generation == 1 && newer.generation == 2 && older.databaseId == newer.databaseId
    requires Readable(f, max, older) && Writable(f, max, newer) && !Readable(f, max, newer)
    requires next.generation == 3 && next.databaseId == newer.databaseId
    ensures |acks| == 2 && acks[0].Ok? && acks[1].Ok?
    ensures refused == Err(Corrupt)
    ensures found == if recover then Ok(Some(older)) else Err(PermissionRequired)
    ensures left == if recover then Some(older) else Some(newer)
  {
    hide Now, LookAt, Lawful, Healthy, WellFormed, Survives, CleanSteps, Readable, Writable;
    ReadsAre(f, max, older);
    var disk, adapter;
    acks, disk, adapter := StoreTwice(older, newer, f, max);
    disk.Follow([]);
    refused := adapter.Store(next, 2);
    var event;
    ghost var e;
    adapter, event, e := LiveOne(disk, f, adapter, Opening(recover, max, []));
    OpenedAnswers(e, f);
    assert RollsBack(e, f) <==> recover;
    OpenedLeaves(e, f);
    FoundNow(e.before, e.after, OpenedLook(e, f));
    found, left := event.answer, PrimaryOf(Now(disk.state));
  }
}
