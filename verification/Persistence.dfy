/** The persistence coordinator: a first-in first-out chain of snapshot stores behind the engine,
    against a conditional-store adapter that may refuse, lose or corrupt its answers. */
module Persistence {
  import opened Texts
  import opened Json
  import opened Engine
  import opened Serializability
  import opened Changes
  import Reload

  /* ---------- what is stored ---------- */

  type Docs = map<Text, seq<Json>>

  function Documents(root: Root): Docs {
    map n | n in root.colls :: Reload.Snapshot(root.colls[n]).GetOr([])
  }

  /** A snapshot as the adapter keeps it. */
  datatype Envelope = Envelope(databaseId: Text, generation: int, revision: int, docs: Docs)

  function GenerationOf(stored: Option<Envelope>): int {
    if stored.Some? then stored.value.generation else 0
  }

  function RevisionOf(stored: Option<Envelope>): int {
    if stored.Some? then stored.value.revision else -1
  }

  datatype Ack = Ack(databaseId: Text, generation: int, revision: int)

  datatype Response = Acknowledge(ack: Ack) | Reject

  /* ---------- the coordinator ---------- */

  datatype Mode = Open | Degraded | Closing | Shut

  predicate Usable(m: Mode) {
    m.Open? || m.Degraded?
  }

  datatype Phase =
    | Waiting
    | Storing(expected: int, installed: bool)
    | Answered(ok: bool)
    | Settled(ok: bool)

  datatype Task = Task(revision: int, docs: Docs, phase: Phase)

  /** What a caller of `transaction`, `flush` or `close` is waiting for. */
  datatype Ticket =
    | Now(target: int)
    | After(task: nat, target: int)
    | AfterTail(tasks: nat, target: int)
    | Declined(target: int)

  /** The fields of the coordinator, the adapter's storage, and a record of the run: engine
      events, snapshots installed, revisions reported failed, tickets given out, how many accepted
      acknowledgements were untrue (of a store that never happened, or naming another revision), and
      whether anything failed after `close()`. */
  datatype State = State(
    id: Text,
    system: System,
    mode: Mode,
    generation: int,
    persistedRevision: int,
    pending: int,
    tasks: seq<Task>,
    head: nat,
    byRevision: map<int, nat>,
    closing: Option<Ticket>,
    finished: bool,
    storage: Option<Envelope>,
    adapterOpen: bool,
    trace: seq<Event>,
    installs: seq<Envelope>,
    failed: set<int>,
    tickets: seq<Ticket>,
    lies: nat,
    failedLate: bool)

  /** A database opened over what the adapter loaded; `newId` is the identity of a new one. */
  function Opened(seed: Root, stored: Option<Envelope>, newId: Text): State {
    State(if stored.Some? then stored.value.databaseId else newId, Start(seed), Open, GenerationOf(stored),
          RevisionOf(stored), 0, [], 0, map[], None, false, stored, true, [], [], {}, [], 0, false)
  }

  function Emit(s: State, limits: Limits, e: Event): State {
    s.(system := Step(s.system, limits, e), trace := s.trace + [e])
  }

  /** Assigning `#state`; whether transactions are accepted follows it. */
  function SetMode(s: State, limits: Limits, mode: Mode): State {
    Emit(s, limits, if Usable(mode) then Reopen else Close).(mode := mode)
  }

  function Fail(s: State, limits: Limits, revision: int): State {
    SetMode(s, limits, Degraded).(failed := s.failed + {revision}, failedLate := s.failedLate || s.closing.Some?)
  }

  function Current(s: State): int {
    s.system.root.revision
  }

  /** `#persist` for the current revision. */
  function Persist(s: State, limits: Limits, max: nat): (State, Ticket) {
    var r := Current(s);
    if r in s.byRevision then (s, After(s.byRevision[r], r))
    else if s.pending >= max then (Fail(s, limits, r), Declined(r))
    else
      (s.(pending := s.pending + 1,
          tasks := s.tasks + [Task(r, Documents(s.system.root), Waiting)],
          byRevision := s.byRevision[r := |s.tasks|]),
       After(|s.tasks|, r))
  }

  /** Persist unless storage is known to be at the current revision. */
  function Ensure(s: State, limits: Limits, max: nat, otherwise: Ticket): (State, Ticket) {
    if s.persistedRevision < Current(s) then Persist(s, limits, max) else (s, otherwise)
  }

  function Issue(p: (State, Ticket)): State {
    p.0.(tickets := p.0.tickets + [p.1])
  }

  datatype Move =
    | Act(event: Event)
    | CommitDurably(id: nat)
    | Flush
    | CallClose
    | FinishClose
    | StartHead
    | Install
    | Answer(response: Response)
    | Settle

  function SetPhase(s: State, phase: Phase): State
    requires s.head < |s.tasks|
  {
    s.(tasks := s.tasks[s.head := s.tasks[s.head].(phase := phase)])
  }

  /** An acknowledgement the coordinator accepts. */
  predicate Accepted(ack: Ack, id: Text, expected: int, revision: int) {
    ack.databaseId == id && ack.generation == expected + 1 && ack.revision >= revision
  }

  /** A degraded database that has caught up is open again. */
  function Recover(s: State, limits: Limits): State {
    if s.mode.Degraded? && s.persistedRevision >= Current(s) then SetMode(s, limits, Open) else s
  }

  /** It speaks of a store that happened, and names the revision it stored. */
  predicate Truthful(ack: Ack, task: Task) {
    task.phase.Storing? && task.phase.installed && ack.revision == task.revision
  }

  function Taken(s: State, ack: Ack): State
    requires s.head < |s.tasks|
  {
    SetPhase(s, Answered(true)).(
      generation := ack.generation,
      persistedRevision := if ack.revision > s.persistedRevision then ack.revision else s.persistedRevision,
      lies := s.lies + if Truthful(ack, s.tasks[s.head]) then 0 else 1)
  }

  function Succeed(s: State, limits: Limits, ack: Ack): State
    requires s.head < |s.tasks|
  {
    Recover(Taken(s, ack), limits)
  }

  predicate Done(tasks: seq<Task>, head: nat, t: Ticket) {
    match t
    case Now(_) => true
    case After(i, _) => i < |tasks| && tasks[i].phase.Settled?
    case AfterTail(n, _) => head >= n
    case Declined(_) => true
  }

  /** Done, and not by rejection. */
  predicate Resolved(s: State, t: Ticket) {
    Done(s.tasks, s.head, t) && !t.Declined? && (t.After? ==> s.tasks[t.task].phase.ok)
  }

  function DoCommit(s: State, limits: Limits, max: nat, id: nat): State {
    var s1 := Emit(s, limits, TryCommit(id));
    if |s1.system.history| == |s.system.history| then s1
    else Issue(Ensure(s1, limits, max, Now(Current(s1))))
  }

  function DoFlush(s: State, limits: Limits, max: nat): State {
    if Usable(s.mode) then Issue(Ensure(s, limits, max, AfterTail(|s.tasks|, Current(s)))) else s
  }

  function DoClose(s: State, limits: Limits, max: nat): State {
    if s.mode.Shut? || s.closing.Some? then s
    else
      var (s1, ticket) := Ensure(SetMode(s, limits, Closing), limits, max, AfterTail(|s.tasks|, Current(s)));
      Issue((s1, ticket)).(closing := Some(ticket), failedLate := ticket.Declined?)
  }

  function DoFinish(s: State, limits: Limits): State {
    if s.closing.Some? && !s.finished && Done(s.tasks, s.head, s.closing.value)
    then SetMode(s, limits, Shut).(finished := true, adapterOpen := false) else s
  }

  function DoStart(s: State): State {
    if s.head < |s.tasks| && s.tasks[s.head].phase.Waiting? then SetPhase(s, Storing(s.generation, false)) else s
  }

  /** The adapter's compare-and-set. */
  function DoInstall(s: State): State {
    if s.head < |s.tasks| && s.tasks[s.head].phase.Storing? && !s.tasks[s.head].phase.installed
       && s.adapterOpen && GenerationOf(s.storage) == s.tasks[s.head].phase.expected
       && (s.storage.Some? ==> s.storage.value.databaseId == s.id)
    then
      var task := s.tasks[s.head];
      var envelope := Envelope(s.id, task.phase.expected + 1, task.revision, task.docs);
      SetPhase(s, Storing(task.phase.expected, true)).(storage := Some(envelope), installs := s.installs + [envelope])
    else s
  }

  function DoAnswer(s: State, limits: Limits, response: Response): State {
    if s.head < |s.tasks| && s.tasks[s.head].phase.Storing? then
      var task := s.tasks[s.head];
      if response.Acknowledge? && Accepted(response.ack, s.id, task.phase.expected, task.revision)
      then Succeed(s, limits, response.ack)
      else Fail(SetPhase(s, Answered(false)), limits, task.revision)
    else s
  }

  function DoSettle(s: State): State {
    if s.head < |s.tasks| && s.tasks[s.head].phase.Answered? then
      var task := s.tasks[s.head];
      SetPhase(s, Settled(task.phase.ok)).(
        head := s.head + 1,
        pending := s.pending - 1,
        byRevision := if task.revision in s.byRevision && s.byRevision[task.revision] == s.head
                      then s.byRevision - {task.revision} else s.byRevision)
    else s
  }

  function Advance(s: State, limits: Limits, max: nat, m: Move): State {
    match m
    case Act(e) => if e.Close? || e.Reopen? then s else Emit(s, limits, e)
    case CommitDurably(id) => DoCommit(s, limits, max, id)
    case Flush => DoFlush(s, limits, max)
    case CallClose => DoClose(s, limits, max)
    case FinishClose => DoFinish(s, limits)
    case StartHead => DoStart(s)
    case Install => DoInstall(s)
    case Answer(response) => DoAnswer(s, limits, response)
    case Settle => DoSettle(s)
  }

  function Play(s: State, limits: Limits, max: nat, moves: seq<Move>): State
    decreases |moves|
  {
    if moves == [] then s
    else Advance(Play(s, limits, max, moves[..|moves| - 1]), limits, max, moves[|moves| - 1])
  }

  /* ---------- the chain of tasks ---------- */

  /** Tasks settle in order; the counter counts the unsettled ones; each revision has at most one
      unsettled task, which is the one on record; unsettled revisions rise along the chain. */
  ghost predicate Chain(tasks: seq<Task>, head: nat, pending: int, byRevision: map<int, nat>, max: nat, current: int) {
    && head <= |tasks|
    && pending == |tasks| - head <= max
    && (forall i :: 0 <= i < head ==> tasks[i].phase.Settled?)
    && (head < |tasks| ==> !tasks[head].phase.Settled?)
    && (forall i :: head < i < |tasks| ==> tasks[i].phase.Waiting?)
    && (forall i :: head <= i < |tasks| ==>
          tasks[i].revision <= current && tasks[i].revision in byRevision && byRevision[tasks[i].revision] == i)
    && (forall r :: r in byRevision ==> head <= byRevision[r] < |tasks| && tasks[byRevision[r]].revision == r)
    && forall i, j :: head <= i < j < |tasks| ==> tasks[i].revision < tasks[j].revision
  }

  lemma ChainAppend(tasks: seq<Task>, head: nat, pending: int, byRevision: map<int, nat>, max: nat, current: int,
                    docs: Docs)
    requires Chain(tasks, head, pending, byRevision, max, current)
    requires current !in byRevision && pending < max
    ensures Chain(tasks + [Task(current, docs, Waiting)], head, pending + 1, byRevision[current := |tasks|], max,
                  current)
    ensures head <= |tasks|
  {
  }

  lemma ChainTask(tasks: seq<Task>, head: nat, pending: int, byRevision: map<int, nat>, max: nat, current: int, r: int)
    requires Chain(tasks, head, pending, byRevision, max, current) && r in byRevision
    ensures byRevision[r] < |tasks| && tasks[byRevision[r]].revision == r
  {
  }

  lemma ChainHead(tasks: seq<Task>, head: nat, pending: int, byRevision: map<int, nat>, max: nat, current: int)
    requires Chain(tasks, head, pending, byRevision, max, current) && head < |tasks|
    ensures var r := tasks[head].revision; r <= current && r in byRevision && byRevision[r] == head
  {
  }

  lemma NextWaits(tasks: seq<Task>, head: nat, pending: int, byRevision: map<int, nat>, max: nat, current: int)
    requires Chain(tasks, head, pending, byRevision, max, current)
    ensures head + 1 < |tasks| ==> tasks[head + 1].phase.Waiting?
  {
  }

  lemma ChainPhase(tasks: seq<Task>, head: nat, pending: int, byRevision: map<int, nat>, max: nat, current: int,
                   phase: Phase)
    requires Chain(tasks, head, pending, byRevision, max, current) && head < |tasks| && !phase.Settled?
    ensures Chain(tasks[head := tasks[head].(phase := phase)], head, pending, byRevision, max, current)
  {
  }

  lemma ChainSettle(tasks: seq<Task>, head: nat, pending: int, byRevision: map<int, nat>, max: nat, current: int,
                    ok: bool)
    requires Chain(tasks, head, pending, byRevision, max, current) && head < |tasks|
    ensures Chain(tasks[head := tasks[head].(phase := Settled(ok))], head + 1, pending - 1,
                  byRevision - {tasks[head].revision}, max, current)
  {
  }

  /* ---------- the order of installs ---------- */

  /** Storage is no further than the coordinator knows. */
  ghost predicate Known(storage: Option<Envelope>, generation: int) {
    GenerationOf(storage) <= generation
  }

  /** Everything stored is of this database. */
  ghost predicate OneDatabase(id: Text, installs: seq<Envelope>, storage: Option<Envelope>) {
    && (storage.Some? ==> storage.value.databaseId == id)
    && forall i :: 0 <= i < |installs| ==> installs[i].databaseId == id
  }

  /** What reached storage: consecutive generations and strictly rising revisions. */
  ghost predicate Installed(origin: Option<Envelope>, installs: seq<Envelope>, storage: Option<Envelope>) {
    && storage == (if installs == [] then origin else Some(installs[|installs| - 1]))
    && (forall i :: 0 <= i < |installs| ==>
          installs[i].generation == GenerationOf(origin) + 1 + i && RevisionOf(origin) < installs[i].revision)
    && forall i, j :: 0 <= i < j < |installs| ==> installs[i].revision < installs[j].revision
  }

  /** A task not answered yet, and not the one that is in storage. */
  predicate Ahead(task: Task) {
    !task.phase.Answered? && !(task.phase.Storing? && task.phase.installed)
  }

  /** Storage is at most one generation past the coordinator's, and then it is there by a store whose
      answer has not been accepted; what the coordinator has yet to store is no older than storage,
      and newer if storage is not past it. */
  ghost predicate Paced(tasks: seq<Task>, head: nat, storage: Option<Envelope>, generation: int, persisted: int,
                        current: int)
  {
    && GenerationOf(storage) <= generation + 1
    && RevisionOf(storage) <= current
    && (Known(storage, generation) ==> RevisionOf(storage) <= persisted)
    && (forall i :: head <= i < |tasks| && !tasks[i].phase.Answered? ==> RevisionOf(storage) <= tasks[i].revision)
    && (Known(storage, generation) ==>
          forall i :: head <= i < |tasks| && Ahead(tasks[i]) ==> RevisionOf(storage) < tasks[i].revision)
    && (head < |tasks| && tasks[head].phase.Storing? ==>
          && tasks[head].phase.expected == generation
          && (tasks[head].phase.installed ==>
                !Known(storage, generation) && RevisionOf(storage) == tasks[head].revision))
  }

  lemma InstallExtends(origin: Option<Envelope>, installs: seq<Envelope>, storage: Option<Envelope>, next: Envelope)
    requires Installed(origin, installs, storage)
    requires next.generation == GenerationOf(storage) + 1 && RevisionOf(storage) < next.revision
    ensures Installed(origin, installs + [next], Some(next))
  {
  }

  /* ---------- what callers are told ---------- */

  ghost predicate TicketOk(t: Ticket, tasks: seq<Task>, failed: set<int>, persisted: int) {
    match t
    case Now(target) => target <= persisted
    case After(i, target) => i < |tasks| && tasks[i].revision == target
    case AfterTail(n, target) => n <= |tasks| && target <= persisted
    case Declined(target) => target in failed
  }

  /** Successful tasks are persisted, failed ones are on record, and so is every ticket. */
  ghost predicate Told(tasks: seq<Task>, tickets: seq<Ticket>, failed: set<int>, persisted: int) {
    && (forall i :: 0 <= i < |tasks| && (tasks[i].phase.Answered? || tasks[i].phase.Settled?) ==>
          if tasks[i].phase.ok then tasks[i].revision <= persisted else tasks[i].revision in failed)
    && forall i :: 0 <= i < |tickets| ==> TicketOk(tickets[i], tasks, failed, persisted)
  }

  ghost predicate FailuresCovered(mode: Mode, failed: set<int>, persisted: int, current: int) {
    forall r :: r in failed ==> r <= current && (mode.Open? ==> r <= persisted)
  }

  /* ---------- whose documents ---------- */

  /** These were the committed documents when the engine was at this revision. */
  ghost predicate WasCommitted(seed: Root, limits: Limits, trace: seq<Event>, revision: int, docs: Docs) {
    exists n :: 0 <= n <= |trace| && var root := Run(Start(seed), limits, trace[..n]).root;
                                     root.revision == revision && Documents(root) == docs
  }

  ghost predicate AllCommitted(seed: Root, limits: Limits, trace: seq<Event>, tasks: seq<Task>,
                               installs: seq<Envelope>) {
    && (forall i :: 0 <= i < |tasks| ==> WasCommitted(seed, limits, trace, tasks[i].revision, tasks[i].docs))
    && forall i :: 0 <= i < |installs| ==>
         WasCommitted(seed, limits, trace, installs[i].revision, installs[i].docs)
  }

  ghost predicate Traced(seed: Root, limits: Limits, s: State) {
    && s.system == Run(Start(seed), limits, s.trace)
    && s.system.open == Usable(s.mode)
    && AllCommitted(seed, limits, s.trace, s.tasks, s.installs)
  }

  lemma StillCommitted(seed: Root, limits: Limits, trace: seq<Event>, e: Event, revision: int, docs: Docs)
    requires WasCommitted(seed, limits, trace, revision, docs)
    ensures WasCommitted(seed, limits, trace + [e], revision, docs)
  {
    var n :| 0 <= n <= |trace| && var root := Run(Start(seed), limits, trace[..n]).root;
                                  root.revision == revision && Documents(root) == docs;
    assert (trace + [e])[..n] == trace[..n];
  }

  lemma NowCommitted(seed: Root, limits: Limits, s: State)
    requires s.system == Run(Start(seed), limits, s.trace)
    ensures WasCommitted(seed, limits, s.trace, Current(s), Documents(s.system.root))
  {
    assert s.trace[..|s.trace|] == s.trace;
  }

  /* ---------- after close ---------- */

  /** After `close()`, if nothing has failed since: no way back, and nothing new to persist. */
  ghost predicate Winding(s: State) {
    && (s.finished <==> !s.adapterOpen)
    && (s.finished ==> s.closing.Some?)
    && (s.closing.None? ==> !s.failedLate && Usable(s.mode))
    && (s.closing.Some? ==> s.closing.value in s.tickets)
    && (s.closing.Some? && !s.failedLate ==>
          && !Usable(s.mode)
          && (s.finished ==> s.mode.Shut?)
          && s.closing.value.target == Current(s))
  }

  /* ---------- the invariant ---------- */

  ghost predicate Core(seed: Root, limits: Limits, max: nat, origin: Option<Envelope>, s: State) {
    && Traced(seed, limits, s)
    && Chain(s.tasks, s.head, s.pending, s.byRevision, max, Current(s))
    && Installed(origin, s.installs, s.storage)
    && OneDatabase(s.id, s.installs, s.storage)
    && Paced(s.tasks, s.head, s.storage, s.generation, s.persistedRevision, Current(s))
    && Told(s.tasks, s.tickets, s.failed, s.persistedRevision)
    && FailuresCovered(s.mode, s.failed, s.persistedRevision, Current(s))
    && (s.lies == 0 ==> s.persistedRevision <= RevisionOf(s.storage))
  }

  ghost predicate Sound(seed: Root, limits: Limits, max: nat, origin: Option<Envelope>, s: State) {
    Core(seed, limits, max, origin, s) && Winding(s)
  }

  lemma EngineStep(seed: Root, limits: Limits, system: System, trace: seq<Event>, e: Event)
    requires RootOk(seed) && system == Run(Start(seed), limits, trace)
    ensures var after := Step(system, limits, e);
            && after == Run(Start(seed), limits, trace + [e])
            && system.root.revision <= after.root.revision
            && after.open == (if e.Close? then false else if e.Reopen? then true else system.open)
            && (e.Close? || e.Reopen? || !system.open ==> after.root == system.root)
            && (!system.open ==> |after.history| == |system.history|)
  {
    hide Perform, Published, Recorded, Fold, AllFit, Publish, Moved, Accounted;
    assert (trace + [e])[..|trace|] == trace;
    StartAccounted(seed, limits);
    RunAccounted(Start(seed), limits, trace);
    StepPublishes(system, limits, e);
  }

  lemma TasksStillCommitted(seed: Root, limits: Limits, s: State, e: Event)
    requires AllCommitted(seed, limits, s.trace, s.tasks, s.installs)
    ensures AllCommitted(seed, limits, s.trace + [e], s.tasks, s.installs)
  {
    hide WasCommitted;
    forall i | 0 <= i < |s.tasks|
      ensures WasCommitted(seed, limits, s.trace + [e], s.tasks[i].revision, s.tasks[i].docs)
    {
      StillCommitted(seed, limits, s.trace, e, s.tasks[i].revision, s.tasks[i].docs);
    }
    forall i | 0 <= i < |s.installs|
      ensures WasCommitted(seed, limits, s.trace + [e], s.installs[i].revision, s.installs[i].docs)
    {
      StillCommitted(seed, limits, s.trace, e, s.installs[i].revision, s.installs[i].docs);
    }
  }

  lemma EmitTraced(seed: Root, limits: Limits, s: State, e: Event)
    requires RootOk(seed) && Traced(seed, limits, s)
    ensures var s' := Emit(s, limits, e);
            && Current(s) <= Current(s')
            && (!s.system.open ==> Current(s') == Current(s))
            && (!s.system.open ==> |s'.system.history| == |s.system.history|)
            && (!e.Close? && !e.Reopen? ==> Traced(seed, limits, s'))
  {
    hide Step, AllCommitted, Run;
    EngineStep(seed, limits, s.system, s.trace, e);
    TasksStillCommitted(seed, limits, s, e);
  }

  lemma SetModeTraced(seed: Root, limits: Limits, s: State, mode: Mode)
    requires RootOk(seed) && Traced(seed, limits, s)
    ensures Traced(seed, limits, SetMode(s, limits, mode)) && Current(SetMode(s, limits, mode)) == Current(s)
  {
    hide Step, AllCommitted, Run;
    var e := if Usable(mode) then Reopen else Close;
    EngineStep(seed, limits, s.system, s.trace, e);
    TasksStillCommitted(seed, limits, s, e);
  }

  lemma EmitKeeps(seed: Root, limits: Limits, max: nat, origin: Option<Envelope>, s: State, e: Event)
    requires RootOk(seed) && Core(seed, limits, max, origin, s) && !e.Close? && !e.Reopen?
    ensures Core(seed, limits, max, origin, Emit(s, limits, e))
  {
    hide Step, Traced, Installed, Paced, Told;
    EmitTraced(seed, limits, s, e);
    PacedLater(s.tasks, s.head, s.storage, s.generation, s.persistedRevision, Current(s), Current(Emit(s, limits, e)));
  }

  lemma PacedLater(tasks: seq<Task>, head: nat, storage: Option<Envelope>, generation: int, persisted: int,
                   current: int, current': int)
    requires Paced(tasks, head, storage, generation, persisted, current) && current <= current'
    ensures Paced(tasks, head, storage, generation, persisted, current')
  {
  }

  /** A mode other than open covers no more than before; open must be earned. */
  lemma SetModeKeeps(seed: Root, limits: Limits, max: nat, origin: Option<Envelope>, s: State, mode: Mode)
    requires RootOk(seed) && Core(seed, limits, max, origin, s)
    requires mode.Open? ==> Current(s) <= s.persistedRevision
    ensures Core(seed, limits, max, origin, SetMode(s, limits, mode))
  {
    hide Step, Traced, Installed, Paced, Told, Chain;
    SetModeTraced(seed, limits, s, mode);
  }

  lemma FailKeeps(seed: Root, limits: Limits, max: nat, origin: Option<Envelope>, s: State, revision: int)
    requires RootOk(seed) && Core(seed, limits, max, origin, s) && revision <= Current(s)
    ensures Core(seed, limits, max, origin, Fail(s, limits, revision))
  {
    hide Step, AllCommitted, Run, Installed, Paced, Chain, Told;
    SetModeTraced(seed, limits, s, Degraded);
    ToldMore(s.tasks, s.tickets, s.failed, s.persistedRevision, s.failed + {revision}, s.persistedRevision);
  }

  lemma ToldMore(tasks: seq<Task>, tickets: seq<Ticket>, failed: set<int>, persisted: int, failed': set<int>,
                 persisted': int)
    requires Told(tasks, tickets, failed, persisted) && failed <= failed' && persisted <= persisted'
    ensures Told(tasks, tickets, failed', persisted')
  {
    forall i | 0 <= i < |tickets|
      ensures TicketOk(tickets[i], tasks, failed', persisted')
    {
      assert TicketOk(tickets[i], tasks, failed, persisted);
    }
  }

  /* ---------- one move ---------- */

  /** A request to persist the current revision: an unsettled task for it, or a recorded failure. */
  lemma PersistKeeps(seed: Root, limits: Limits, max: nat, origin: Option<Envelope>, s: State)
    requires RootOk(seed) && Core(seed, limits, max, origin, s) && s.persistedRevision < Current(s)
    ensures var (s', t) := Persist(s, limits, max);
            && Core(seed, limits, max, origin, s')
            && TicketOk(t, s'.tasks, s'.failed, s'.persistedRevision) && t.target == Current(s) == Current(s')
  {
    hide Step, AllCommitted, Run, Installed, Documents;
    hide Chain, Told, Paced;
    var r := Current(s);
    if r in s.byRevision {
      ChainTask(s.tasks, s.head, s.pending, s.byRevision, max, Current(s), r);
    } else if s.pending >= max {
      FailKeeps(seed, limits, max, origin, s, r);
      SetModeTraced(seed, limits, s, Degraded);
    } else {
      var task := Task(r, Documents(s.system.root), Waiting);
      NowCommitted(seed, limits, s);
      CommittedTask(seed, limits, s.trace, s.tasks, s.installs, task);
      ChainAppend(s.tasks, s.head, s.pending, s.byRevision, max, r, task.docs);
      PacedAppend(s.tasks, s.head, s.storage, s.generation, s.persistedRevision, task);
      ToldAppend(s.tasks, s.tickets, s.failed, s.persistedRevision, task);
    }
  }

  lemma CommittedTask(seed: Root, limits: Limits, trace: seq<Event>, tasks: seq<Task>, installs: seq<Envelope>,
                      task: Task)
    requires AllCommitted(seed, limits, trace, tasks, installs)
    requires WasCommitted(seed, limits, trace, task.revision, task.docs)
    ensures AllCommitted(seed, limits, trace, tasks + [task], installs)
  {
    hide WasCommitted;
  }

  lemma CommittedPhase(seed: Root, limits: Limits, trace: seq<Event>, tasks: seq<Task>, installs: seq<Envelope>,
                       i: nat, phase: Phase)
    requires AllCommitted(seed, limits, trace, tasks, installs) && i < |tasks|
    ensures AllCommitted(seed, limits, trace, tasks[i := tasks[i].(phase := phase)], installs)
    ensures forall id: Text, generation: int ::
              AllCommitted(seed, limits, trace, tasks,
                           installs + [Envelope(id, generation, tasks[i].revision, tasks[i].docs)])
  {
    hide WasCommitted;
  }

  lemma PacedAppend(tasks: seq<Task>, head: nat, storage: Option<Envelope>, generation: int, persisted: int, task: Task)
    requires Paced(tasks, head, storage, generation, persisted, task.revision) && head <= |tasks|
    requires task.phase.Waiting? && persisted < task.revision
    ensures Paced(tasks + [task], head, storage, generation, persisted, task.revision)
  {
  }

  lemma ToldAppend(tasks: seq<Task>, tickets: seq<Ticket>, failed: set<int>, persisted: int, task: Task)
    requires Told(tasks, tickets, failed, persisted) && task.phase.Waiting?
    ensures Told(tasks + [task], tickets, failed, persisted)
  {
    forall i | 0 <= i < |tickets|
      ensures TicketOk(tickets[i], tasks + [task], failed, persisted)
    {
      assert TicketOk(tickets[i], tasks, failed, persisted);
    }
  }

  lemma EnsureKeeps(seed: Root, limits: Limits, max: nat, origin: Option<Envelope>, s: State, otherwise: Ticket)
    requires RootOk(seed) && Core(seed, limits, max, origin, s)
    requires otherwise.target == Current(s) && (otherwise.Now? || otherwise.AfterTail?)
    requires otherwise.AfterTail? ==> otherwise.tasks <= |s.tasks|
    ensures var p := Ensure(s, limits, max, otherwise);
            && Core(seed, limits, max, origin, Issue(p))
            && p.1.target == Current(s) == Current(p.0)
  {
    hide Step, AllCommitted, Run, Chain, Told, Paced, Installed, Persist;
    if s.persistedRevision < Current(s) { PersistKeeps(seed, limits, max, origin, s); }
    var p := Ensure(s, limits, max, otherwise);
    ToldTicket(p.0.tasks, p.0.tickets, p.0.failed, p.0.persistedRevision, p.1);
  }

  lemma ToldTicket(tasks: seq<Task>, tickets: seq<Ticket>, failed: set<int>, persisted: int, t: Ticket)
    requires Told(tasks, tickets, failed, persisted) && TicketOk(t, tasks, failed, persisted)
    ensures Told(tasks, tickets + [t], failed, persisted)
  {
  }

  lemma StartKeeps(seed: Root, limits: Limits, max: nat, origin: Option<Envelope>, s: State)
    requires Core(seed, limits, max, origin, s)
    ensures Core(seed, limits, max, origin, DoStart(s))
  {
    hide Step, AllCommitted, Run, Documents, Installed, Chain, Told;
    if s.head < |s.tasks| && s.tasks[s.head].phase.Waiting? {
      CommittedPhase(seed, limits, s.trace, s.tasks, s.installs, s.head, Storing(s.generation, false));
      ChainPhase(s.tasks, s.head, s.pending, s.byRevision, max, Current(s), Storing(s.generation, false));
      ToldPhase(s.tasks, s.tickets, s.failed, s.persistedRevision, s.head, Storing(s.generation, false));
    }
  }

  /** A task's phase changing, provided a failure or success it records has been accounted for. */
  lemma ToldPhase(tasks: seq<Task>, tickets: seq<Ticket>, failed: set<int>, persisted: int, i: nat, phase: Phase)
    requires Told(tasks, tickets, failed, persisted) && i < |tasks|
    requires phase.Answered? || phase.Settled? ==>
               if phase.ok then tasks[i].revision <= persisted else tasks[i].revision in failed
    ensures Told(tasks[i := tasks[i].(phase := phase)], tickets, failed, persisted)
  {
    forall k | 0 <= k < |tickets|
      ensures TicketOk(tickets[k], tasks[i := tasks[i].(phase := phase)], failed, persisted)
    {
      assert TicketOk(tickets[k], tasks, failed, persisted);
    }
  }

  lemma PacedInstalled(tasks: seq<Task>, head: nat, storage: Option<Envelope>, generation: int, persisted: int,
                       current: int, storage': Option<Envelope>)
    requires Paced(tasks, head, storage, generation, persisted, current) && head < |tasks|
    requires tasks[head].phase == Storing(GenerationOf(storage), false) && tasks[head].revision <= current
    requires forall i :: head < i < |tasks| ==> tasks[head].revision < tasks[i].revision
    requires storage'.Some? && storage'.value.generation == GenerationOf(storage) + 1
    requires storage'.value.revision == tasks[head].revision
    ensures RevisionOf(storage) < tasks[head].revision
    ensures Paced(tasks[head := tasks[head].(phase := Storing(GenerationOf(storage), true))], head, storage',
                  generation, persisted, current)
  {
  }

  lemma ChainRises(tasks: seq<Task>, head: nat, pending: int, byRevision: map<int, nat>, max: nat, current: int)
    requires Chain(tasks, head, pending, byRevision, max, current) && head < |tasks|
    ensures tasks[head].revision <= current
    ensures forall i :: head < i < |tasks| ==> tasks[i].phase.Waiting? && tasks[head].revision < tasks[i].revision
  {
  }

  lemma InstallKeeps(seed: Root, limits: Limits, max: nat, origin: Option<Envelope>, s: State)
    requires Core(seed, limits, max, origin, s)
    ensures Core(seed, limits, max, origin, DoInstall(s))
  {
    hide Step, AllCommitted, Run, Documents, Installed, Chain, Told;
    var s' := DoInstall(s);
    if s' != s {
      var task := s.tasks[s.head];
      CommittedPhase(seed, limits, s.trace, s.tasks, s.installs, s.head, Storing(task.phase.expected, true));
      ChainPhase(s.tasks, s.head, s.pending, s.byRevision, max, Current(s), Storing(task.phase.expected, true));
      ToldPhase(s.tasks, s.tickets, s.failed, s.persistedRevision, s.head, Storing(task.phase.expected, true));
      CommittedPhase(seed, limits, s.trace, SetPhase(s, Storing(task.phase.expected, true)).tasks, s.installs, s.head,
                     Storing(task.phase.expected, true));
      InstallExtends(origin, s.installs, s.storage, Envelope(s.id, task.phase.expected + 1, task.revision, task.docs));
      ChainRises(s.tasks, s.head, s.pending, s.byRevision, max, Current(s));
      PacedInstalled(s.tasks, s.head, s.storage, s.generation, s.persistedRevision, Current(s), s'.storage);
    }
  }

  lemma PacedAnswered(tasks: seq<Task>, head: nat, storage: Option<Envelope>, generation: int, persisted: int,
                      current: int, ok: bool)
    requires Paced(tasks, head, storage, generation, persisted, current) && head < |tasks|
    ensures Paced(tasks[head := tasks[head].(phase := Answered(ok))], head, storage, generation, persisted, current)
    ensures head + 1 < |tasks| && tasks[head + 1].phase.Waiting? ==>
              Paced(tasks[head := tasks[head].(phase := Settled(ok))], head + 1, storage, generation, persisted,
                    current)
    ensures head + 1 == |tasks| ==>
              Paced(tasks[head := tasks[head].(phase := Settled(ok))], head + 1, storage, generation, persisted,
                    current)
  {
  }

  /** An answer accepted for the head, whether or not anything was stored: storage is known again. */
  lemma PacedAccepted(tasks: seq<Task>, head: nat, storage: Option<Envelope>, generation: int, persisted: int,
                      current: int, persisted': int)
    requires Paced(tasks, head, storage, generation, persisted, current) && head < |tasks| && tasks[head].phase.Storing?
    requires forall i :: head < i < |tasks| ==> tasks[i].phase.Waiting? && tasks[head].revision < tasks[i].revision
    requires persisted <= persisted' && tasks[head].revision <= persisted'
    ensures Paced(tasks[head := tasks[head].(phase := Answered(true))], head, storage, generation + 1, persisted',
                  current)
  {
  }

  lemma SettleKeeps(seed: Root, limits: Limits, max: nat, origin: Option<Envelope>, s: State)
    requires Core(seed, limits, max, origin, s)
    ensures Core(seed, limits, max, origin, DoSettle(s))
  {
    hide Step, AllCommitted, Run, Documents, Installed, Told, Chain, Paced;
    if s.head < |s.tasks| && s.tasks[s.head].phase.Answered? {
      var task := s.tasks[s.head];
      ChainHead(s.tasks, s.head, s.pending, s.byRevision, max, Current(s));
      NextWaits(s.tasks, s.head, s.pending, s.byRevision, max, Current(s));
      PacedAnswered(s.tasks, s.head, s.storage, s.generation, s.persistedRevision, Current(s), task.phase.ok);
      ToldHead(s.tasks, s.tickets, s.failed, s.persistedRevision, s.head);
      ToldPhase(s.tasks, s.tickets, s.failed, s.persistedRevision, s.head, Settled(task.phase.ok));
      CommittedPhase(seed, limits, s.trace, s.tasks, s.installs, s.head, Settled(task.phase.ok));
      ChainSettle(s.tasks, s.head, s.pending, s.byRevision, max, Current(s), task.phase.ok);
    }
  }

  lemma ToldHead(tasks: seq<Task>, tickets: seq<Ticket>, failed: set<int>, persisted: int, i: nat)
    requires Told(tasks, tickets, failed, persisted) && i < |tasks| && tasks[i].phase.Answered?
    ensures if tasks[i].phase.ok then tasks[i].revision <= persisted else tasks[i].revision in failed
  {
  }

  lemma RejectKeeps(seed: Root, limits: Limits, max: nat, origin: Option<Envelope>, s: State)
    requires RootOk(seed) && Core(seed, limits, max, origin, s)
    requires s.head < |s.tasks| && s.tasks[s.head].phase.Storing?
    ensures Core(seed, limits, max, origin, Fail(SetPhase(s, Answered(false)), limits, s.tasks[s.head].revision))
  {
    hide Step, AllCommitted, Run, Documents, Installed, Told;
    var revision := s.tasks[s.head].revision;
    ChainHead(s.tasks, s.head, s.pending, s.byRevision, max, Current(s));
    PacedAnswered(s.tasks, s.head, s.storage, s.generation, s.persistedRevision, Current(s), false);
    var failed := s.failed + {revision};
    CommittedPhase(seed, limits, s.trace, s.tasks, s.installs, s.head, Answered(false));
    ChainPhase(s.tasks, s.head, s.pending, s.byRevision, max, Current(s), Answered(false));
    ToldMore(s.tasks, s.tickets, s.failed, s.persistedRevision, failed, s.persistedRevision);
    ToldPhase(s.tasks, s.tickets, failed, s.persistedRevision, s.head, Answered(false));
    SetModeTraced(seed, limits, SetPhase(s, Answered(false)), Degraded);
  }

  lemma SucceedKeeps(seed: Root, limits: Limits, max: nat, origin: Option<Envelope>, s: State, ack: Ack)
    requires RootOk(seed) && Core(seed, limits, max, origin, s)
    requires s.head < |s.tasks| && s.tasks[s.head].phase.Storing?
    requires Accepted(ack, s.id, s.tasks[s.head].phase.expected, s.tasks[s.head].revision)
    ensures Core(seed, limits, max, origin, Succeed(s, limits, ack))
  {
    hide Core;
    TakenKeeps(seed, limits, max, origin, s, ack);
    var s1 := Taken(s, ack);
    if s1.mode.Degraded? && s1.persistedRevision >= Current(s1) { SetModeKeeps(seed, limits, max, origin, s1, Open); }
  }

  lemma HeadPaced(tasks: seq<Task>, head: nat, storage: Option<Envelope>, generation: int, persisted: int, current: int)
    requires Paced(tasks, head, storage, generation, persisted, current) && head < |tasks| && tasks[head].phase.Storing?
    ensures tasks[head].phase.expected == generation
    ensures tasks[head].phase.installed ==> RevisionOf(storage) == tasks[head].revision
  {
  }

  lemma TakenKeeps(seed: Root, limits: Limits, max: nat, origin: Option<Envelope>, s: State, ack: Ack)
    requires RootOk(seed) && Core(seed, limits, max, origin, s)
    requires s.head < |s.tasks| && s.tasks[s.head].phase.Storing?
    requires Accepted(ack, s.id, s.tasks[s.head].phase.expected, s.tasks[s.head].revision)
    ensures Core(seed, limits, max, origin, Taken(s, ack))
  {
    hide Step, AllCommitted, Run, Documents, Installed, Told, Paced, OneDatabase, Chain;
    var persisted := if ack.revision > s.persistedRevision then ack.revision else s.persistedRevision;
    CommittedPhase(seed, limits, s.trace, s.tasks, s.installs, s.head, Answered(true));
    ChainPhase(s.tasks, s.head, s.pending, s.byRevision, max, Current(s), Answered(true));
    ChainRises(s.tasks, s.head, s.pending, s.byRevision, max, Current(s));
    ToldMore(s.tasks, s.tickets, s.failed, s.persistedRevision, s.failed, persisted);
    ToldPhase(s.tasks, s.tickets, s.failed, persisted, s.head, Answered(true));
    HeadPaced(s.tasks, s.head, s.storage, s.generation, s.persistedRevision, Current(s));
    PacedAccepted(s.tasks, s.head, s.storage, s.generation, s.persistedRevision, Current(s), persisted);
  }

  lemma AnswerKeeps(seed: Root, limits: Limits, max: nat, origin: Option<Envelope>, s: State, response: Response)
    requires RootOk(seed) && Core(seed, limits, max, origin, s)
    ensures Core(seed, limits, max, origin, DoAnswer(s, limits, response))
  {
    hide Core, Succeed, Fail;
    if s.head < |s.tasks| && s.tasks[s.head].phase.Storing? {
      var task := s.tasks[s.head];
      if response.Acknowledge? && Accepted(response.ack, s.id, task.phase.expected, task.revision) {
        SucceedKeeps(seed, limits, max, origin, s, response.ack);
      } else {
        RejectKeeps(seed, limits, max, origin, s);
      }
    }
  }

  lemma CommitKeeps(seed: Root, limits: Limits, max: nat, origin: Option<Envelope>, s: State, id: nat)
    requires RootOk(seed) && Core(seed, limits, max, origin, s)
    ensures Core(seed, limits, max, origin, DoCommit(s, limits, max, id))
  {
    hide Core, Step, Ensure;
    var s1 := Emit(s, limits, TryCommit(id));
    EmitKeeps(seed, limits, max, origin, s, TryCommit(id));
    EnsureKeeps(seed, limits, max, origin, s1, Now(Current(s1)));
  }

  lemma CloseKeeps(seed: Root, limits: Limits, max: nat, origin: Option<Envelope>, s: State)
    requires RootOk(seed) && Core(seed, limits, max, origin, s)
    ensures Core(seed, limits, max, origin, DoClose(s, limits, max))
  {
    hide AllCommitted, Run, Chain, Installed, Paced, Told, Step, Ensure;
    SetModeKeeps(seed, limits, max, origin, s, Closing);
    var s1 := SetMode(s, limits, Closing);
    SetModeTraced(seed, limits, s, Closing);
    EnsureKeeps(seed, limits, max, origin, s1, AfterTail(|s.tasks|, Current(s)));
  }

  lemma AdvanceCore(seed: Root, limits: Limits, max: nat, origin: Option<Envelope>, s: State, m: Move)
    requires RootOk(seed) && Core(seed, limits, max, origin, s)
    ensures Core(seed, limits, max, origin, Advance(s, limits, max, m))
  {
    hide AllCommitted, Run, Chain, Installed, Paced, Told, Step, Ensure, DoCommit, DoClose, DoStart, DoInstall;
    hide DoAnswer, DoSettle;
    match m
    case Act(e) => if !e.Close? && !e.Reopen? { EmitKeeps(seed, limits, max, origin, s, e); }
    case CommitDurably(id) => CommitKeeps(seed, limits, max, origin, s, id);
    case Flush => EnsureKeeps(seed, limits, max, origin, s, AfterTail(|s.tasks|, Current(s)));
    case CallClose => CloseKeeps(seed, limits, max, origin, s);
    case FinishClose => SetModeKeeps(seed, limits, max, origin, s, Shut);
    case StartHead => StartKeeps(seed, limits, max, origin, s);
    case Install => InstallKeeps(seed, limits, max, origin, s);
    case Answer(response) => AnswerKeeps(seed, limits, max, origin, s, response);
    case Settle => SettleKeeps(seed, limits, max, origin, s);
  }

  lemma EnsureShape(s: State, limits: Limits, max: nat, otherwise: Ticket)
    requires !otherwise.Declined?
    ensures var p := Ensure(s, limits, max, otherwise);
            && p.0.tickets == s.tickets && p.0.closing == s.closing
            && p.0.finished == s.finished && p.0.adapterOpen == s.adapterOpen
            && (if p.1.Declined?
                then p.0.mode == Degraded && p.0.failedLate == (s.failedLate || s.closing.Some?)
                else p.0.mode == s.mode && p.0.failedLate == s.failedLate)
  {
    hide Step;
  }

  lemma AdvanceWinding(seed: Root, limits: Limits, max: nat, origin: Option<Envelope>, s: State, m: Move)
    requires RootOk(seed) && Sound(seed, limits, max, origin, s)
    ensures Winding(Advance(s, limits, max, m))
  {
    hide Step, AllCommitted, Run, Chain, Told, Paced, Installed, Ensure, Documents, FailuresCovered;
    match m
    case Act(e) => if !e.Close? && !e.Reopen? { EmitTraced(seed, limits, s, e); }
    case CommitDurably(id) =>
      EmitTraced(seed, limits, s, TryCommit(id));
      var s1 := Emit(s, limits, TryCommit(id));
      EnsureShape(s1, limits, max, Now(Current(s1)));
      EmitKeeps(seed, limits, max, origin, s, TryCommit(id));
      EnsureKeeps(seed, limits, max, origin, s1, Now(Current(s1)));
    case Flush =>
      EnsureShape(s, limits, max, AfterTail(|s.tasks|, Current(s)));
      EnsureKeeps(seed, limits, max, origin, s, AfterTail(|s.tasks|, Current(s)));
    case CallClose =>
      if !s.mode.Shut? && s.closing.None? {
        SetModeTraced(seed, limits, s, Closing);
        SetModeKeeps(seed, limits, max, origin, s, Closing);
        var s1 := SetMode(s, limits, Closing);
        EnsureShape(s1, limits, max, AfterTail(|s.tasks|, Current(s)));
        EnsureKeeps(seed, limits, max, origin, s1, AfterTail(|s.tasks|, Current(s)));
      }
    case FinishClose => SetModeTraced(seed, limits, s, Shut);
    case StartHead =>
    case Install =>
    case Answer(response) => AnswerWinding(limits, s, response);
    case Settle =>
  }

  lemma AnswerWinding(limits: Limits, s: State, response: Response)
    requires Winding(s)
    ensures Winding(DoAnswer(s, limits, response))
  {
    hide Step, Accepted;
  }

  /* ---------- whole runs ---------- */

  /** The seed a database opens with: the stored documents at the stored revision, or new data. */
  ghost predicate OpenedFrom(seed: Root, stored: Option<Envelope>) {
    && RootOk(seed)
    && match stored
       case None => seed.revision == 0
       case Some(e) => e.revision == seed.revision && e.docs == Documents(seed)
  }

  lemma OpenedOk(seed: Root, limits: Limits, max: nat, stored: Option<Envelope>, newId: Text)
    requires OpenedFrom(seed, stored)
    ensures Sound(seed, limits, max, stored, Opened(seed, stored, newId))
  {
  }

  lemma {:induction false} PlayOk(seed: Root, limits: Limits, max: nat, stored: Option<Envelope>, newId: Text,
                                  moves: seq<Move>)
    requires OpenedFrom(seed, stored)
    ensures Sound(seed, limits, max, stored, Play(Opened(seed, stored, newId), limits, max, moves))
    decreases |moves|
  {
    hide Core, Winding, Advance, RootOk;
    if moves == [] {
      OpenedOk(seed, limits, max, stored, newId);
    } else {
      var before := Play(Opened(seed, stored, newId), limits, max, moves[..|moves| - 1]);
      PlayOk(seed, limits, max, stored, newId, moves[..|moves| - 1]);
      AdvanceCore(seed, limits, max, stored, before, moves[|moves| - 1]);
      AdvanceWinding(seed, limits, max, stored, before, moves[|moves| - 1]);
    }
  }

  /** Whatever is committed, flushed, closed, stored, refused, lost or misanswered, and in
      whatever order: installed snapshots have consecutive generations and strictly rising
      revisions, and each holds the documents committed at the revision it names. */
  lemma InstallsInOrder(seed: Root, limits: Limits, max: nat, stored: Option<Envelope>, newId: Text, moves: seq<Move>)
    requires OpenedFrom(seed, stored)
    ensures var s := Play(Opened(seed, stored, newId), limits, max, moves);
            && s.system == Run(Start(seed), limits, s.trace)
            && s.storage == (if s.installs == [] then stored else Some(s.installs[|s.installs| - 1]))
            && (forall i :: 0 <= i < |s.installs| ==>
                  && s.installs[i].generation == GenerationOf(stored) + 1 + i
                  && RevisionOf(stored) < s.installs[i].revision
                  && s.installs[i].databaseId == s.id
                  && WasCommitted(seed, limits, s.trace, s.installs[i].revision, s.installs[i].docs))
            && forall i, j :: 0 <= i < j < |s.installs| ==> s.installs[i].revision < s.installs[j].revision
  {
    hide Run, Play, WasCommitted, Chain, Paced, Told, FailuresCovered, Winding;
    PlayOk(seed, limits, max, stored, newId, moves);
  }

  /** A revision names one root: wherever else in the run the engine is at that revision, its
      documents are the same. */
  lemma {:induction false} RevisionNamesRoot(seed: Root, limits: Limits, trace: seq<Event>, n: nat, m: nat)
    requires RootOk(seed) && n <= m <= |trace|
    requires Run(Start(seed), limits, trace[..n]).root.revision == Run(Start(seed), limits, trace[..m]).root.revision
    ensures Run(Start(seed), limits, trace[..n]).root == Run(Start(seed), limits, trace[..m]).root
    decreases m - n
  {
    hide Step, RootOk;
    if n < m {
      assert trace[..m][..m - 1] == trace[..m - 1];
      assert trace[..m] == trace[..m - 1] + [trace[m - 1]];
      Revisions(seed, limits, trace, n, m - 1);
      EngineStep(seed, limits, Run(Start(seed), limits, trace[..m - 1]), trace[..m - 1], trace[m - 1]);
      SameRoot(seed, limits, trace, m - 1);
      RevisionNamesRoot(seed, limits, trace, n, m - 1);
    }
  }

  lemma {:induction false} Revisions(seed: Root, limits: Limits, trace: seq<Event>, n: nat, m: nat)
    requires RootOk(seed) && n <= m <= |trace|
    ensures Run(Start(seed), limits, trace[..n]).root.revision <= Run(Start(seed), limits, trace[..m]).root.revision
    decreases m - n
  {
    hide Step, RootOk;
    if n < m {
      assert trace[..m] == trace[..m - 1] + [trace[m - 1]];
      Revisions(seed, limits, trace, n, m - 1);
      EngineStep(seed, limits, Run(Start(seed), limits, trace[..m - 1]), trace[..m - 1], trace[m - 1]);
    }
  }

  lemma SameRoot(seed: Root, limits: Limits, trace: seq<Event>, n: nat)
    requires RootOk(seed) && n < |trace|
    requires Run(Start(seed), limits, trace[..n]).root.revision
        == Run(Start(seed), limits, trace[..n + 1]).root.revision
    ensures Run(Start(seed), limits, trace[..n]).root == Run(Start(seed), limits, trace[..n + 1]).root
  {
    hide Step, RootOk, Accounted, Published, AllFit, Fold;
    assert trace[..n + 1][..n] == trace[..n];
    StartAccounted(seed, limits);
    RunAccounted(Start(seed), limits, trace[..n]);
    StepPublishes(Run(Start(seed), limits, trace[..n]), limits, trace[n]);
  }

  /** A call that resolves for a revision resolves only when storage holds that revision or a
      later one, as long as every accepted acknowledgement was true; nothing that was
      reported failed is missing while the database calls itself open; and the counter is the
      number of unsettled stores, within its limit. */
  lemma DurabilityIsHonest(seed: Root, limits: Limits, max: nat, stored: Option<Envelope>, newId: Text,
                           moves: seq<Move>)
    requires OpenedFrom(seed, stored)
    ensures var s := Play(Opened(seed, stored, newId), limits, max, moves);
            && (forall i :: 0 <= i < |s.tickets| && Resolved(s, s.tickets[i]) && s.lies == 0 ==>
                  s.tickets[i].target <= RevisionOf(s.storage))
            && (forall r :: r in s.failed && s.mode.Open? ==> r <= s.persistedRevision)
            && (s.lies == 0 && s.mode.Open? ==> forall r :: r in s.failed ==> r <= RevisionOf(s.storage))
            && s.pending == |s.tasks| - s.head <= max
            && (forall i :: 0 <= i < |s.tasks| ==> (s.tasks[i].phase.Settled? <==> i < s.head))
  {
    hide Run, Play, Traced, Installed, Paced, Winding;
    PlayOk(seed, limits, max, stored, newId, moves);
    var s := Play(Opened(seed, stored, newId), limits, max, moves);
    forall i | 0 <= i < |s.tickets| && Resolved(s, s.tickets[i]) && s.lies == 0
      ensures s.tickets[i].target <= RevisionOf(s.storage)
    {
      assert TicketOk(s.tickets[i], s.tasks, s.failed, s.persistedRevision);
    }
  }

  /** After `close()`, as long as nothing fails from then on, no transaction is accepted and the
      state never goes back; and a close that resolves leaves every committed revision stored. */
  lemma CloseHolds(seed: Root, limits: Limits, max: nat, stored: Option<Envelope>, newId: Text, moves: seq<Move>)
    requires OpenedFrom(seed, stored)
    ensures var s := Play(Opened(seed, stored, newId), limits, max, moves);
            s.closing.Some? && !s.failedLate ==>
              && !s.system.open
              && (s.mode.Closing? || s.mode.Shut?) && (s.finished ==> s.mode.Shut?)
              && (Resolved(s, s.closing.value) && s.lies == 0 ==> s.system.root.revision <= RevisionOf(s.storage))
  {
    hide Run, Play, Chain, Told, Installed, Paced, FailuresCovered;
    PlayOk(seed, limits, max, stored, newId, moves);
    var s := Play(Opened(seed, stored, newId), limits, max, moves);
    if s.closing.Some? && Resolved(s, s.closing.value) && s.lies == 0 {
      DurabilityIsHonest(seed, limits, max, stored, newId, moves);
      var i :| 0 <= i < |s.tickets| && s.tickets[i] == s.closing.value;
      assert Resolved(s, s.tickets[i]);
    }
  }

  /* ---------- where the promises end ---------- */

  /** The answer to the store at the head is taken as a success. */
  predicate Succeeds(s: State, response: Response)
    requires s.head < |s.tasks| && s.tasks[s.head].phase.Storing?
  {
    var task := s.tasks[s.head];
    response.Acknowledge? && Accepted(response.ack, s.id, task.phase.expected, task.revision)
  }

  /** A degraded database is open again exactly when a store succeeds that leaves nothing committed
      unpersisted. */
  lemma OpensExactlyOnCatchingUp(limits: Limits, max: nat, s: State, m: Move)
    requires s.mode.Degraded?
    ensures Advance(s, limits, max, m).mode.Open? <==>
              && m.Answer? && s.head < |s.tasks| && s.tasks[s.head].phase.Storing? && Succeeds(s, m.response)
              && (Current(s) <= s.persistedRevision || Current(s) <= m.response.ack.revision)
  {
    hide Step, Documents, Ensure;
    match m
    case CommitDurably(id) =>
      var s1 := Emit(s, limits, TryCommit(id));
      EnsureShape(s1, limits, max, Now(Current(s1)));
    case Flush => EnsureShape(s, limits, max, AfterTail(|s.tasks|, Current(s)));
    case CallClose => EnsureShape(SetMode(s, limits, Closing), limits, max, AfterTail(|s.tasks|, Current(s)));
    case _ =>
  }

  /** Once closing, a move makes the database accept transactions again exactly when it is the
      failure of a store. */
  lemma ReopensExactlyOnFailure(seed: Root, limits: Limits, max: nat, origin: Option<Envelope>, s: State, m: Move)
    requires RootOk(seed) && Sound(seed, limits, max, origin, s) && s.closing.Some? && !Usable(s.mode)
    ensures Usable(Advance(s, limits, max, m).mode) <==>
              m.Answer? && s.head < |s.tasks| && s.tasks[s.head].phase.Storing? && !Succeeds(s, m.response)
  {
    hide Step, AllCommitted, Run, Chain, Told, Paced, Installed, Ensure, Documents, FailuresCovered;
    if m.CommitDurably? { EmitTraced(seed, limits, s, TryCommit(m.id)); }
  }

  /** And `close()` itself leaves it accepting transactions exactly when the current revision is
      not stored, not being stored, and the queue is full. */
  lemma CloseReopensExactlyOnFullQueue(limits: Limits, max: nat, s: State)
    requires s.closing.None? && !s.mode.Shut?
    ensures Usable(Advance(s, limits, max, CallClose).mode) <==>
              s.persistedRevision < Current(s) && Current(s) !in s.byRevision && s.pending >= max
  {
    hide Perform;
  }

  /** Storage is ahead of the coordinator and the answer that would tell it so is not coming. */
  ghost predicate Torn(s: State) {
    && GenerationOf(s.storage) == s.generation + 1
    && forall i :: s.head <= i < |s.tasks| && s.tasks[i].phase.Storing? ==>
         s.tasks[i].phase.expected == s.generation && !s.tasks[i].phase.installed
  }

  /** A store tears the generations apart exactly when it was installed and its answer is not
      accepted. */
  lemma TearsExactlyOnLostAnswer(seed: Root, limits: Limits, max: nat, origin: Option<Envelope>, s: State,
                                 response: Response)
    requires RootOk(seed) && Core(seed, limits, max, origin, s)
    requires s.head < |s.tasks| && s.tasks[s.head].phase.Storing?
    requires s.tasks[s.head].phase.installed || Known(s.storage, s.generation)
    ensures Torn(DoAnswer(s, limits, response)) <==> s.tasks[s.head].phase.installed && !Succeeds(s, response)
  {
    hide Step, Traced, Told, Installed, FailuresCovered, Chain, Documents;
    RestWait(s.tasks, s.head, s.pending, s.byRevision, max, Current(s));
  }

  lemma RestWait(tasks: seq<Task>, head: nat, pending: int, byRevision: map<int, nat>, max: nat, current: int)
    requires Chain(tasks, head, pending, byRevision, max, current)
    ensures forall i :: head < i < |tasks| ==> tasks[i].phase.Waiting?
  {
  }

  /** Still torn, with nothing stored and nothing recovered. */
  ghost predicate StillTorn(s: State, s': State) {
    && Torn(s') && s'.installs == s.installs && s'.storage == s.storage
    && s'.persistedRevision == s.persistedRevision
    && (s'.mode.Open? ==> s.mode.Open?)
  }

  lemma EnsureTorn(limits: Limits, max: nat, s: State, otherwise: Ticket)
    requires Torn(s)
    ensures StillTorn(s, Ensure(s, limits, max, otherwise).0) && Ensure(s, limits, max, otherwise).0.lies == s.lies
  {
    hide Step, Documents;
  }

  /** The same but for the mode, the engine's being open, and what is on record about failures. */
  ghost predicate SameStores(s: State, s': State) {
    && s'.tasks == s.tasks && s'.head == s.head && s'.storage == s.storage && s'.installs == s.installs
    && s'.generation == s.generation && s'.persistedRevision == s.persistedRevision && s'.lies == s.lies
  }

  lemma RecoverShape(limits: Limits, s: State)
    ensures SameStores(s, Recover(s, limits))
  {
    hide Step;
  }

  lemma FailShape(limits: Limits, s: State, revision: int)
    ensures SameStores(s, Fail(s, limits, revision)) && Fail(s, limits, revision).mode == Degraded
  {
    hide Step;
  }

  /** What a refused answer changes, and what an accepted one does. */
  lemma AnswerShape(limits: Limits, s: State, response: Response)
    requires s.head < |s.tasks| && s.tasks[s.head].phase.Storing?
    ensures var s' := DoAnswer(s, limits, response); var ok := Succeeds(s, response);
            && s'.tasks == s.tasks[s.head := s.tasks[s.head].(phase := Answered(ok))]
            && s'.head == s.head && s'.storage == s.storage && s'.installs == s.installs
            && s'.generation == (if ok then response.ack.generation else s.generation)
            && s'.lies == s.lies + (if ok && !Truthful(response.ack, s.tasks[s.head]) then 1 else 0)
            && (!ok ==> s'.persistedRevision == s.persistedRevision && s'.mode == Degraded)
  {
    hide Recover, Fail, Truthful, Accepted;
    RecoverShape(limits, Taken(s, if response.Acknowledge? then response.ack else Ack([], 0, 0)));
    FailShape(limits, SetPhase(s, Answered(false)), s.tasks[s.head].revision);
  }

  lemma AnswerTorn(limits: Limits, s: State, response: Response)
    requires Torn(s)
    ensures var s' := DoAnswer(s, limits, response);
            if s'.lies == s.lies then StillTorn(s, s') else s'.lies == s.lies + 1 && !Torn(s')
  {
    hide Step, Fail, Succeed;
    if s.head < |s.tasks| && s.tasks[s.head].phase.Storing? {
      hide DoAnswer;
      AnswerShape(limits, s, response);
    }
  }

  lemma SettleTorn(s: State)
    requires Torn(s)
    ensures StillTorn(s, DoSettle(s)) && DoSettle(s).lies == s.lies
  {
  }

  lemma TornStays(limits: Limits, max: nat, s: State, m: Move)
    requires Torn(s)
    ensures var s' := Advance(s, limits, max, m);
            if s'.lies == s.lies then StillTorn(s, s') else s'.lies == s.lies + 1 && !Torn(s')
  {
    hide Step, Documents, Ensure, DoAnswer, DoSettle, DoCommit, DoFlush, DoClose;
    match m
    case Act(_) =>
    case CommitDurably(id) => RequestTorn(limits, max, s, m);
    case Flush => RequestTorn(limits, max, s, m);
    case CallClose => RequestTorn(limits, max, s, m);
    case FinishClose =>
    case StartHead =>
    case Install =>
    case Answer(response) => AnswerTorn(limits, s, response);
    case Settle => SettleTorn(s);
  }

  /** A request for persistence stores nothing by itself. */
  lemma RequestTorn(limits: Limits, max: nat, s: State, m: Move)
    requires Torn(s) && (m.CommitDurably? || m.Flush? || m.CallClose?)
    ensures StillTorn(s, Advance(s, limits, max, m)) && Advance(s, limits, max, m).lies == s.lies
  {
    hide Step, Documents, Ensure;
    match m
    case CommitDurably(id) =>
      var s1 := Emit(s, limits, TryCommit(id));
      EnsureTorn(limits, max, s1, Now(Current(s1)));
    case Flush => EnsureTorn(limits, max, s, AfterTail(|s.tasks|, Current(s)));
    case CallClose => EnsureTorn(limits, max, SetMode(s, limits, Closing), AfterTail(|s.tasks|, Current(s)));
    case _ =>
  }

  lemma EnsureLies(limits: Limits, max: nat, s: State, otherwise: Ticket)
    ensures Ensure(s, limits, max, otherwise).0.lies == s.lies
  {
    hide Step, Documents;
  }

  lemma LiesGrow(limits: Limits, max: nat, s: State, m: Move)
    ensures s.lies <= Advance(s, limits, max, m).lies
  {
    hide Step, Documents, Ensure, DoAnswer, Succeeds;
    match m
    case CommitDurably(id) =>
      var s1 := Emit(s, limits, TryCommit(id));
      EnsureLies(limits, max, s1, Now(Current(s1)));
    case Flush => EnsureLies(limits, max, s, AfterTail(|s.tasks|, Current(s)));
    case CallClose => EnsureLies(limits, max, SetMode(s, limits, Closing), AfterTail(|s.tasks|, Current(s)));
    case Answer(response) => AnswerLies(limits, s, response);
    case _ =>
  }

  lemma AnswerLies(limits: Limits, s: State, response: Response)
    ensures s.lies <= DoAnswer(s, limits, response).lies
  {
    hide Step, Fail, Succeed;
    if s.head < |s.tasks| && s.tasks[s.head].phase.Storing? {
      hide DoAnswer;
      AnswerShape(limits, s, response);
    }
  }

  lemma {:induction false} LiesOnlyGrow(limits: Limits, max: nat, s: State, moves: seq<Move>)
    ensures s.lies <= Play(s, limits, max, moves).lies
    decreases |moves|
  {
    hide Advance;
    if moves != [] {
      LiesOnlyGrow(limits, max, s, moves[..|moves| - 1]);
      LiesGrow(limits, max, Play(s, limits, max, moves[..|moves| - 1]), moves[|moves| - 1]);
    }
  }

  /** From then on nothing is ever stored and a degraded database never recovers, until the
      storage is opened afresh; unless the adapter acknowledges a store that did not happen. */
  lemma {:induction false} TornForever(limits: Limits, max: nat, s: State, moves: seq<Move>)
    requires Torn(s) && Play(s, limits, max, moves).lies == s.lies
    ensures StillTorn(s, Play(s, limits, max, moves))
    decreases |moves|
  {
    hide Advance, Torn;
    if moves != [] {
      LiesOnlyGrow(limits, max, s, moves[..|moves| - 1]);
      LiesGrow(limits, max, Play(s, limits, max, moves[..|moves| - 1]), moves[|moves| - 1]);
      TornForever(limits, max, s, moves[..|moves| - 1]);
      TornStays(limits, max, Play(s, limits, max, moves[..|moves| - 1]), moves[|moves| - 1]);
    }
  }

  lemma PlayNext(s: State, limits: Limits, max: nat, moves: seq<Move>, m: Move)
    ensures Play(s, limits, max, moves + [m]) == Advance(Play(s, limits, max, moves), limits, max, m)
  {
    assert (moves + [m])[..|moves|] == moves;
  }

  const NOTHING_YET: Root := Root(map[], 0)

  /** A run that shows why the lifecycle needs its premise: a store that fails after the database
      has closed leaves it degraded and accepting transactions. */
  lemma FailureAfterCloseReopens(limits: Limits)
    ensures var s := Play(Opened(NOTHING_YET, None, []), limits, 2,
                          [CallClose, StartHead, Answer(Reject), Settle, Flush, FinishClose, StartHead,
                           Answer(Reject)]);
            s.finished && s.mode.Degraded? && s.system.open
  {
    var s0 := Opened(NOTHING_YET, None, []);
    var a := [CallClose, StartHead, Answer(Reject)];
    var s3 := CloseIsRejected(limits);
    PlayThree(s0, limits, 2, [], CallClose, StartHead, Answer(Reject));
    assert [] + a == a;
    PlayThree(s0, limits, 2, a, Settle, Flush, FinishClose);
    var b := a + [Settle, Flush, FinishClose];
    var s6 := FlushedMeanwhile(limits, s3);
    PlayNext(s0, limits, 2, b, StartHead);
    PlayNext(s0, limits, 2, b + [StartHead], Answer(Reject));
    assert b + [StartHead] + [Answer(Reject)]
        == [CallClose, StartHead, Answer(Reject), Settle, Flush, FinishClose, StartHead, Answer(Reject)];
    FailsLate(limits, s6);
  }

  /** The store of `close()` has been refused. */
  predicate Rejected(s: State) {
    && s.mode.Degraded? && s.system.open && Current(s) == 0 && s.persistedRevision == -1
    && s.head == 0 && |s.tasks| == 1 && s.tasks[0].revision == 0 && s.tasks[0].phase == Answered(false)
    && s.pending == 1 && s.byRevision == map[0 := 0] && s.closing == Some(After(0, 0)) && !s.finished
  }

  lemma CloseIsRejected(limits: Limits) returns (s: State)
    ensures s == Advance(Advance(Advance(Opened(NOTHING_YET, None, []), limits, 2, CallClose), limits, 2, StartHead),
                         limits, 2, Answer(Reject))
    ensures Rejected(s)
  {
    hide Documents, Perform;
    var s1 := Advance(Opened(NOTHING_YET, None, []), limits, 2, CallClose);
    assert s1.mode.Closing? && |s1.tasks| == 1 && s1.closing == Some(After(0, 0));
    var s2 := Advance(s1, limits, 2, StartHead);
    s := Advance(s2, limits, 2, Answer(Reject));
  }

  /** A task still waiting behind a close that has finished. */
  predicate Leftover(s: State) {
    s.finished && s.head == 1 && |s.tasks| == 2 && s.tasks[1].phase.Waiting?
  }

  lemma FlushedMeanwhile(limits: Limits, s: State) returns (s': State)
    requires Rejected(s)
    ensures s' == Advance(Advance(Advance(s, limits, 2, Settle), limits, 2, Flush), limits, 2, FinishClose)
    ensures Leftover(s')
  {
    hide Documents, Perform;
    var s1 := Advance(s, limits, 2, Settle);
    assert s1.head == 1 && s1.pending == 0 && s1.byRevision == map[];
    var s2 := Advance(s1, limits, 2, Flush);
    assert s2.head == 1 && |s2.tasks| == 2;
    s' := Advance(s2, limits, 2, FinishClose);
  }

  lemma FailsLate(limits: Limits, s: State)
    requires Leftover(s)
    ensures var s' := Advance(Advance(s, limits, 2, StartHead), limits, 2, Answer(Reject));
            s'.finished && s'.mode.Degraded? && s'.system.open
  {
    hide Documents, Perform;
  }

  lemma PlayThree(s: State, limits: Limits, max: nat, moves: seq<Move>, a: Move, b: Move, c: Move)
    ensures Play(s, limits, max, moves + [a, b, c])
         == Advance(Advance(Advance(Play(s, limits, max, moves), limits, max, a), limits, max, b), limits, max, c)
  {
    hide Advance;
    PlayNext(s, limits, max, moves, a);
    PlayNext(s, limits, max, moves + [a], b);
    PlayNext(s, limits, max, moves + [a] + [b], c);
    assert moves + [a] + [b] + [c] == moves + [a, b, c];
  }

  /** And why honesty needs the acknowledgement to name what was stored: one that passes every
      check and claims a later revision is believed. */
  lemma LateAckIsBelieved(limits: Limits)
    ensures var s := Play(Opened(NOTHING_YET, None, []), limits, 1,
                          [Flush, StartHead, Install, Answer(Acknowledge(Ack([], 1, 5)))]);
            s.persistedRevision == 5 && RevisionOf(s.storage) == 0
  {
    var s0 := Opened(NOTHING_YET, None, []);
    PlayThree(s0, limits, 1, [], Flush, StartHead, Install);
    assert [] + [Flush, StartHead, Install] == [Flush, StartHead, Install];
    hide Documents, Perform, Advance;
    var s3 := InstalledOnce(limits);
    PlayNext(s0, limits, 1, [Flush, StartHead, Install], Answer(Acknowledge(Ack([], 1, 5))));
    assert [Flush, StartHead, Install] + [Answer(Acknowledge(Ack([], 1, 5)))]
        == [Flush, StartHead, Install, Answer(Acknowledge(Ack([], 1, 5)))];
    Believes(limits, s3);
  }

  /** Revision 0 is stored, and its answer outstanding. */
  predicate Outstanding(s: State) {
    && s.head == 0 && |s.tasks| == 1 && s.tasks[0].revision == 0 && s.tasks[0].phase == Storing(0, true)
    && s.persistedRevision == -1 && RevisionOf(s.storage) == 0 && s.mode.Open? && s.id == []
  }

  lemma InstalledOnce(limits: Limits) returns (s: State)
    ensures s == Advance(Advance(Advance(Opened(NOTHING_YET, None, []), limits, 1, Flush), limits, 1, StartHead),
                         limits, 1, Install)
    ensures Outstanding(s)
  {
    hide Documents, Perform;
    var s1 := Advance(Opened(NOTHING_YET, None, []), limits, 1, Flush);
    assert s1.head == 0 && |s1.tasks| == 1;
    var s2 := Advance(s1, limits, 1, StartHead);
    s := Advance(s2, limits, 1, Install);
  }

  lemma Believes(limits: Limits, s: State)
    requires Outstanding(s)
    ensures var s' := Advance(s, limits, 1, Answer(Acknowledge(Ack([], 1, 5))));
            s'.persistedRevision == 5 && RevisionOf(s'.storage) == 0
  {
    hide Step;
  }

  /** Or an acknowledgement of a store that never happened: it passes every check too, and the flush
      resolves over empty storage. */
  lemma PhantomAckIsBelieved(limits: Limits)
    ensures var s := Play(Opened(NOTHING_YET, None, []), limits, 1,
                          [Flush, StartHead, Answer(Acknowledge(Ack([], 1, 0))), Settle]);
            |s.tickets| == 1 && Resolved(s, s.tickets[0]) && s.storage.None?
  {
    var s0 := Opened(NOTHING_YET, None, []);
    var three := [Flush, StartHead, Answer(Acknowledge(Ack([], 1, 0)))];
    PlayThree(s0, limits, 1, [], Flush, StartHead, Answer(Acknowledge(Ack([], 1, 0))));
    assert [] + three == three;
    hide Documents, Perform, Advance;
    var s3 := BelievedUnstored(limits);
    PlayNext(s0, limits, 1, three, Settle);
    assert three + [Settle] == [Flush, StartHead, Answer(Acknowledge(Ack([], 1, 0))), Settle];
    SettlesUnstored(limits, s3);
  }

  /** The flush's store is taken for done, with nothing in storage. */
  predicate Believed(s: State) {
    && s.head == 0 && |s.tasks| == 1 && s.tasks[0].phase == Answered(true)
    && s.tickets == [After(0, 0)] && s.storage.None?
  }

  lemma BelievedUnstored(limits: Limits) returns (s: State)
    ensures s == Advance(Advance(Advance(Opened(NOTHING_YET, None, []), limits, 1, Flush), limits, 1, StartHead),
                         limits, 1, Answer(Acknowledge(Ack([], 1, 0))))
    ensures Believed(s)
  {
    hide Documents, Perform;
    var s1 := Advance(Opened(NOTHING_YET, None, []), limits, 1, Flush);
    assert s1.head == 0 && |s1.tasks| == 1 && s1.tickets == [After(0, 0)];
    var s2 := Advance(s1, limits, 1, StartHead);
    s := Advance(s2, limits, 1, Answer(Acknowledge(Ack([], 1, 0))));
  }

  lemma SettlesUnstored(limits: Limits, s: State)
    requires Believed(s)
    ensures var s' := Advance(s, limits, 1, Settle);
            |s'.tickets| == 1 && Resolved(s', s'.tickets[0]) && s'.storage.None?
  {
    hide Step;
  }
}
