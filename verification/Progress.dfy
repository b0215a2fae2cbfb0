/** What the persistence coordinator does for its callers: when it takes a request on, what it makes
    of an answer, and that with an adapter that stores and answers every call it is waiting on resolves. */
module Progress {
  import opened Texts
  import opened Engine
  import opened Persistence

  /* ---------- requests ---------- */

  /** A store of the current revision that has not settled. */
  predicate Underway(s: State, i: nat) {
    s.head <= i < |s.tasks| && s.tasks[i].revision == Current(s)
  }

  /** The same but for the queue of stores. */
  ghost predicate OnlyQueued(s: State, s': State) {
    s' == s.(pending := s'.pending, tasks := s'.tasks, byRevision := s'.byRevision)
  }

  /** What asking for the current revision to be stored leads to. If storage is known to have it,
      nothing is to be done. If a store of it is underway, that one is waited for. If as many as
      allowed are underway, the request is declined, the database degraded, and the revision on
      record as failed. Otherwise a snapshot of what is committed now joins the queue. */
  ghost predicate Asked(s: State, s': State, max: nat, t: Ticket, otherwise: Ticket) {
    var r := Current(s);
    if r <= s.persistedRevision then s' == s && t == otherwise
    else if exists i :: Underway(s, i) then s' == s && t.After? && t.target == r && Underway(s, t.task)
    else if |s.tasks| - s.head >= max then
      && t == Declined(r) && s'.mode.Degraded? && s'.system.open && s'.failed == s.failed + {r}
      && s'.system.root == s.system.root && s'.tasks == s.tasks && s'.head == s.head && s'.tickets == s.tickets
    else
      && OnlyQueued(s, s') && t == After(|s.tasks|, r)
      && s'.tasks == s.tasks + [Task(r, Documents(s.system.root), Waiting)]
  }

  lemma UnderwayExactly(tasks: seq<Task>, head: nat, pending: int, byRevision: map<int, nat>, max: nat, current: int)
    requires Chain(tasks, head, pending, byRevision, max, current)
    ensures pending == |tasks| - head
    ensures current in byRevision <==> exists i :: head <= i < |tasks| && tasks[i].revision == current
    ensures current in byRevision ==>
              head <= byRevision[current] < |tasks| && tasks[byRevision[current]].revision == current
  {
  }

  lemma AsksExactly(limits: Limits, max: nat, s: State, otherwise: Ticket)
    requires Chain(s.tasks, s.head, s.pending, s.byRevision, max, Current(s))
    ensures var (s', t) := Ensure(s, limits, max, otherwise); Asked(s, s', max, t, otherwise)
  {
    hide Chain, Documents;
    UnderwayExactly(s.tasks, s.head, s.pending, s.byRevision, max, Current(s));
    var r := Current(s);
    if r in s.byRevision { assert Underway(s, s.byRevision[r]); }
    if i: nat :| Underway(s, i) { assert s.head <= i < |s.tasks| && s.tasks[i].revision == r; }
  }

  /** Flushing asks exactly while the database is usable, and is otherwise refused. */
  lemma FlushesExactly(limits: Limits, max: nat, s: State)
    requires Chain(s.tasks, s.head, s.pending, s.byRevision, max, Current(s))
    ensures var s' := Advance(s, limits, max, Flush);
            if s.mode.Open? || s.mode.Degraded? then
              exists asked, t :: && Asked(s, asked, max, t, AfterTail(|s.tasks|, Current(s)))
                                 && s' == asked.(tickets := s.tickets + [t])
            else s' == s
  {
    hide Chain, Asked;
    AsksExactly(limits, max, s, AfterTail(|s.tasks|, Current(s)));
    var (asked, t) := Ensure(s, limits, max, AfterTail(|s.tasks|, Current(s)));
    EnsureTickets(limits, max, s, AfterTail(|s.tasks|, Current(s)));
    assert Asked(s, asked, max, t, AfterTail(|s.tasks|, Current(s)));
  }

  lemma EnsureTickets(limits: Limits, max: nat, s: State, otherwise: Ticket)
    ensures Ensure(s, limits, max, otherwise).0.tickets == s.tickets
  {
    hide Documents, Step;
  }

  /** A durable commit asks exactly when the transaction commits: for the revision then current. */
  lemma CommitsDurablyExactly(limits: Limits, max: nat, s: State, id: nat)
    requires Chain(s.tasks, s.head, s.pending, s.byRevision, max, Current(Emit(s, limits, TryCommit(id))))
    ensures var s1 := s.(system := Step(s.system, limits, TryCommit(id)), trace := s.trace + [TryCommit(id)]);
            var s' := Advance(s, limits, max, CommitDurably(id));
            if |s1.system.history| == |s.system.history| then s' == s1
            else exists asked, t :: && Asked(s1, asked, max, t, Now(Current(s1)))
                                    && s' == asked.(tickets := s.tickets + [t])
  {
    hide Chain, Asked, Step;
    var s1 := Emit(s, limits, TryCommit(id));
    AsksExactly(limits, max, s1, Now(Current(s1)));
    EnsureTickets(limits, max, s1, Now(Current(s1)));
    var (asked, t) := Ensure(s1, limits, max, Now(Current(s1)));
    assert Asked(s1, asked, max, t, Now(Current(s1)));
  }

  /** Closing asks exactly the first time, with the database no longer accepting transactions; what
      it then waits for is what `close()` waits for. */
  lemma ClosesExactly(limits: Limits, max: nat, s: State)
    requires Chain(s.tasks, s.head, s.pending, s.byRevision, max, Current(s))
    ensures var s1 := s.(mode := Closing, system := s.system.(open := false), trace := s.trace + [Close]);
            var s' := Advance(s, limits, max, CallClose);
            if s.mode.Shut? || s.closing.Some? then s' == s
            else exists asked, t :: && Asked(s1, asked, max, t, AfterTail(|s.tasks|, Current(s)))
                                    && s' == asked.(tickets := s.tickets + [t], closing := Some(t),
                                                    failedLate := t.Declined?)
  {
    hide Chain, Asked;
    var s1 := SetMode(s, limits, Closing);
    AsksExactly(limits, max, s1, AfterTail(|s.tasks|, Current(s)));
    EnsureTickets(limits, max, s1, AfterTail(|s.tasks|, Current(s)));
    var (asked, t) := Ensure(s1, limits, max, AfterTail(|s.tasks|, Current(s)));
    assert Asked(s1, asked, max, t, AfterTail(|s.tasks|, Current(s)));
  }

  /** The adapter is closed and the database shut exactly when what `close()` waits for is over. */
  lemma FinishesExactly(limits: Limits, max: nat, s: State)
    ensures var s' := Advance(s, limits, max, FinishClose);
            var over := && s.closing.Some? && !s.finished
                        && match s.closing.value
                           case After(i, _) => i < |s.tasks| && s.tasks[i].phase.Settled?
                           case AfterTail(n, _) => n <= s.head
                           case _ => true;
            if over then s'.mode.Shut? && s'.finished && !s'.adapterOpen && !s'.system.open && s'.tasks == s.tasks
            else s' == s
  {
  }

  /* ---------- answers ---------- */

  lemma Turned(s: State, limits: Limits, mode: Mode)
    requires Usable(mode)
    ensures SetMode(s, limits, mode)
         == s.(mode := mode, system := s.system.(open := true), trace := s.trace + [Reopen])
  {
    hide Perform, Engine.Commit;
  }

  /** The same but for whether it is open, and what follows from that. */
  ghost predicate SameButMode(s: State, s': State) {
    s' == s.(mode := s'.mode, system := s.system.(open := s'.system.open), trace := s'.trace, failed := s'.failed,
             failedLate := s'.failedLate)
  }

  lemma RecoversExactly(s: State, limits: Limits)
    ensures var s' := Recover(s, limits);
            && SameButMode(s, s') && s'.failed == s.failed
            && s'.mode == if s.mode.Degraded? && Current(s) <= s.persistedRevision then Open else s.mode
  {
    hide SetMode;
    Turned(s, limits, Open);
  }

  lemma FailsExactly(s: State, limits: Limits, revision: int)
    ensures var s' := Fail(s, limits, revision);
            SameButMode(s, s') && s'.mode.Degraded? && s'.failed == s.failed + {revision}
  {
    hide SetMode;
    Turned(s, limits, Degraded);
  }

  predicate Taking(s: State, response: Response)
    requires s.head < |s.tasks| && s.tasks[s.head].phase.Storing?
  {
    && response.Acknowledge? && response.ack.databaseId == s.id
    && response.ack.generation == s.tasks[s.head].phase.expected + 1
    && response.ack.revision >= s.tasks[s.head].revision
  }

  /** An answer is taken for a success exactly when it acknowledges this database at the next
      generation, at the stored revision or a later one. A success moves generation and persisted
      revision on, and opens a degraded database that has caught up; anything else degrades it. */
  lemma AnswersExactly(limits: Limits, max: nat, s: State, response: Response)
    requires s.head < |s.tasks| && s.tasks[s.head].phase.Storing?
    ensures var task, s' := s.tasks[s.head], Advance(s, limits, max, Answer(response));
            && s'.tasks == s.tasks[s.head := task.(phase := Answered(Taking(s, response)))]
            && s'.head == s.head && s'.pending == s.pending && s'.byRevision == s.byRevision
            && s'.storage == s.storage && s'.adapterOpen == s.adapterOpen && s'.system.root == s.system.root
            && s'.system.history == s.system.history
            && s'.tickets == s.tickets && s'.id == s.id && s'.closing == s.closing && s'.finished == s.finished
            && (Taking(s, response) ==>
                  && s'.generation == task.phase.expected + 1 && s'.failed == s.failed
                  && s'.persistedRevision == Later(s.persistedRevision, response.ack.revision)
                  && s'.lies == s.lies + (if Truthful(response.ack, task) then 0 else 1)
                  && s'.mode == if s.mode.Degraded? && Current(s) <= s'.persistedRevision then Open else s.mode)
            && (!Taking(s, response) ==>
                  && s'.generation == s.generation && s'.persistedRevision == s.persistedRevision
                  && s'.mode.Degraded? && s'.failed == s.failed + {task.revision})
  {
    hide Recover, Fail, Truthful;
    if Taking(s, response) {
      RecoversExactly(Taken(s, response.ack), limits);
    } else {
      FailsExactly(SetPhase(s, Answered(false)), limits, s.tasks[s.head].revision);
    }
  }

  function Later(a: int, b: int): int {
    if a < b then b else a
  }

  /* ---------- an adapter that stores and answers ---------- */

  /** The moves that see the head of the queue through; those it is past do nothing. */
  function Round(id: Text, generation: int, revision: int): seq<Move> {
    [StartHead, Install, Answer(Acknowledge(Ack(id, generation, revision))), Settle]
  }

  /** And the whole queue. */
  function Drain(id: Text, generation: int, tasks: seq<Task>, i: nat): seq<Move>
    decreases |tasks| - i
  {
    if i >= |tasks| then []
    else
      var next := if tasks[i].phase.Answered? then generation else generation + 1;
      Round(id, next, tasks[i].revision) + Drain(id, next, tasks, i + 1)
  }

  predicate HeadInstalled(s: State) {
    s.head < |s.tasks| && s.tasks[s.head].phase.Storing? && s.tasks[s.head].phase.installed
  }

  /** Storage is where the coordinator takes it to be. */
  ghost predicate Calm(s: State) {
    && s.adapterOpen && (s.storage.Some? ==> s.storage.value.databaseId == s.id)
    && s.head <= |s.tasks|
    && (forall i :: s.head < i < |s.tasks| ==> s.tasks[i].phase.Waiting?)
    && (s.head < |s.tasks| ==> !s.tasks[s.head].phase.Settled?)
    && (s.head < |s.tasks| && s.tasks[s.head].phase.Storing? ==> s.tasks[s.head].phase.expected == s.generation)
    && GenerationOf(s.storage) == (if HeadInstalled(s) then s.generation + 1 else s.generation)
    && (HeadInstalled(s) ==> RevisionOf(s.storage) == s.tasks[s.head].revision)
  }

  /** So it is wherever the adapter is open, storage is not behind what it acknowledged, and no answer
      to a store has been lost. */
  lemma CalmUnlessTorn(seed: Root, limits: Limits, max: nat, origin: Option<Envelope>, s: State)
    requires Core(seed, limits, max, origin, s)
    requires s.adapterOpen && s.generation <= GenerationOf(s.storage) && !Torn(s)
    ensures Calm(s)
  {
    hide Traced, Installed, Told, FailuresCovered;
  }

  /** How a store that was not answered yet ends, and one that was. */
  predicate EndsWell(task: Task) {
    match task.phase
    case Answered(ok) => ok
    case Settled(ok) => ok
    case _ => true
  }

  ghost predicate SameCalls(s: State, s': State) {
    && s'.id == s.id && s'.tickets == s.tickets && s'.failed == s.failed && s'.closing == s.closing
    && s'.finished == s.finished && s'.lies == s.lies && s'.system.root == s.system.root
    && s'.system.history == s.system.history
  }

  /** The head has settled, and what it stored is in storage. */
  ghost predicate SeenThrough(s: State, s': State)
    requires s.head < |s.tasks|
  {
    var task, answered := s.tasks[s.head], s.tasks[s.head].phase.Answered?;
    && SameCalls(s, s')
    && s'.head == s.head + 1 && s'.tasks == s.tasks[s.head := task.(phase := Settled(EndsWell(task)))]
    && s'.generation == (if answered then s.generation else s.generation + 1)
    && RevisionOf(s'.storage) == (if answered then RevisionOf(s.storage) else task.revision)
    && s'.persistedRevision
       == (if answered then s.persistedRevision else Later(s.persistedRevision, task.revision))
    && s'.mode == if !answered && s.mode.Degraded? && Current(s) <= s'.persistedRevision then Open else s.mode
  }

  /** The head is being stored, and is in storage. */
  ghost predicate InStorage(s: State, s': State)
    requires s.head < |s.tasks|
  {
    && s' == s.(tasks := s.tasks[s.head := s.tasks[s.head].(phase := Storing(s.generation, true))],
                storage := s'.storage, installs := s'.installs)
    && (s'.storage.Some? ==> s'.storage.value.databaseId == s.id)
    && GenerationOf(s'.storage) == s.generation + 1 && RevisionOf(s'.storage) == s.tasks[s.head].revision
  }

  lemma HeadStored(s: State)
    requires Calm(s) && s.head < |s.tasks| && !s.tasks[s.head].phase.Answered?
    ensures InStorage(s, DoInstall(DoStart(s)))
  {
    if HeadInstalled(s) { assert s.tasks[s.head := s.tasks[s.head]] == s.tasks; }
  }

  lemma HeadAnswered(limits: Limits, max: nat, s: State, s2: State)
    requires Calm(s) && s.head < |s.tasks| && !s.tasks[s.head].phase.Answered? && InStorage(s, s2)
    ensures var ack := Ack(s.id, s.generation + 1, s.tasks[s.head].revision);
            var s' := DoSettle(DoAnswer(s2, limits, Acknowledge(ack)));
            SeenThrough(s, s') && s'.storage == s2.storage && s'.adapterOpen == s.adapterOpen
  {
    hide DoAnswer;
    var response := Acknowledge(Ack(s.id, s.generation + 1, s.tasks[s.head].revision));
    AnswersExactly(limits, max, s2, response);
    assert Taking(s2, response);
  }

  lemma PlayFour(s: State, limits: Limits, max: nat, a: Move, b: Move, c: Move, d: Move)
    ensures Play(s, limits, max, [a, b, c, d])
         == Advance(Advance(Advance(Advance(s, limits, max, a), limits, max, b), limits, max, c), limits, max, d)
  {
    hide Advance, Play;
    PlayNothing(s, limits, max);
    PlayNext(s, limits, max, [], a);
    PlayNext(s, limits, max, [a], b);
    PlayNext(s, limits, max, [a, b], c);
    PlayNext(s, limits, max, [a, b, c], d);
    assert [] + [a] == [a] && [a] + [b] == [a, b] && [a, b] + [c] == [a, b, c];
    assert [a, b, c] + [d] == [a, b, c, d];
  }

  lemma PlayNothing(s: State, limits: Limits, max: nat)
    ensures Play(s, limits, max, []) == s
  {
  }

  lemma RoundSeesThrough(limits: Limits, max: nat, s: State)
    requires Calm(s) && s.head < |s.tasks|
    ensures var task := s.tasks[s.head];
            var next := if task.phase.Answered? then s.generation else s.generation + 1;
            var s' := Play(s, limits, max, Round(s.id, next, task.revision));
            SeenThrough(s, s') && Calm(s')
  {
    hide DoInstall, DoStart, DoAnswer, DoSettle, SeenThrough, Calm;
    var task := s.tasks[s.head];
    var next := if task.phase.Answered? then s.generation else s.generation + 1;
    var answer := Answer(Acknowledge(Ack(s.id, next, task.revision)));
    PlayFour(s, limits, max, StartHead, Install, answer, Settle);
    if task.phase.Answered? {
      AnsweredSettles(limits, s, answer.response);
    } else {
      HeadStored(s);
      HeadAnswered(limits, max, s, DoInstall(DoStart(s)));
      StaysCalm(s, DoSettle(DoAnswer(DoInstall(DoStart(s)), limits, answer.response)), DoInstall(DoStart(s)));
    }
  }

  lemma AnsweredSettles(limits: Limits, s: State, response: Response)
    requires Calm(s) && s.head < |s.tasks| && s.tasks[s.head].phase.Answered?
    ensures DoStart(s) == s && DoInstall(s) == s && DoAnswer(s, limits, response) == s
    ensures SeenThrough(s, DoSettle(s)) && Calm(DoSettle(s))
  {
  }

  lemma StaysCalm(s: State, s': State, s2: State)
    requires Calm(s) && s.head < |s.tasks| && !s.tasks[s.head].phase.Answered? && InStorage(s, s2)
    requires SeenThrough(s, s') && s'.storage == s2.storage && s'.adapterOpen == s.adapterOpen
    ensures Calm(s')
  {
  }

  lemma {:induction false} PlayOn(s: State, limits: Limits, max: nat, before: seq<Move>, more: seq<Move>)
    ensures Play(s, limits, max, before + more) == Play(Play(s, limits, max, before), limits, max, more)
    decreases |more|
  {
    hide Advance;
    if more == [] {
      assert before + more == before;
    } else {
      var init, m := more[..|more| - 1], more[|more| - 1];
      PlayOn(s, limits, max, before, init);
      assert (before + more)[..|before + more| - 1] == before + init;
    }
  }

  /** A store of what is current, or of something later, has yet to be answered. */
  ghost predicate CatchingUp(s: State) {
    exists i :: s.head <= i < |s.tasks| && !s.tasks[i].phase.Answered? && s.tasks[i].revision >= Current(s)
  }

  /** Every store has settled: the ones not answered before as successes, which are persisted; and a
      degraded database is open again if what is current was among them. */
  ghost predicate Drained(s: State, s': State)
    requires s.head <= |s.tasks|
  {
    && SameCalls(s, s')
    && s'.head == |s'.tasks| == |s.tasks|
    && (forall i :: 0 <= i < s.head ==> s'.tasks[i] == s.tasks[i])
    && (forall i :: s.head <= i < |s.tasks| ==> s'.tasks[i] == s.tasks[i].(phase := Settled(EndsWell(s.tasks[i]))))
    && (forall i :: s.head <= i < |s.tasks| && !s.tasks[i].phase.Answered? ==>
          s.tasks[i].revision <= s'.persistedRevision)
    && s.persistedRevision <= s'.persistedRevision
    && (s.mode.Degraded? && CatchingUp(s) ==> s'.mode.Open?)
    && (!s.mode.Degraded? ==> s'.mode == s.mode)
  }

  lemma DrainedAfter(s: State, s1: State, s': State)
    requires s.head < |s.tasks| && SeenThrough(s, s1) && Drained(s1, s')
    ensures Drained(s, s')
  {
    if s.mode.Degraded? && CatchingUp(s) {
      var i :| s.head <= i < |s.tasks| && !s.tasks[i].phase.Answered? && s.tasks[i].revision >= Current(s);
      if i > s.head { assert s1.tasks[i] == s.tasks[i]; }
    }
  }

  lemma {:induction false} DrainSame(id: Text, generation: int, tasks: seq<Task>, tasks': seq<Task>, i: nat)
    requires |tasks| == |tasks'| && forall j :: i <= j < |tasks| ==> tasks[j] == tasks'[j]
    ensures Drain(id, generation, tasks, i) == Drain(id, generation, tasks', i)
    decreases |tasks| - i
  {
    if i < |tasks| {
      DrainSame(id, if tasks[i].phase.Answered? then generation else generation + 1, tasks, tasks', i + 1);
    }
  }

  lemma {:induction false} DrainSeesThrough(limits: Limits, max: nat, s: State)
    requires Calm(s)
    ensures Drained(s, Play(s, limits, max, Drain(s.id, s.generation, s.tasks, s.head)))
    decreases |s.tasks| - s.head
  {
    hide Play, Drained, Round, Calm, SeenThrough;
    CalmHead(s);
    if s.head == |s.tasks| {
      PlayNothing(s, limits, max);
      NothingDrained(s);
    } else {
      var task := s.tasks[s.head];
      var next := if task.phase.Answered? then s.generation else s.generation + 1;
      var first, more := Round(s.id, next, task.revision), Drain(s.id, next, s.tasks, s.head + 1);
      var s1 := Play(s, limits, max, first);
      RoundSeesThrough(limits, max, s);
      SeenFacts(s, s1);
      DrainSame(s.id, next, s.tasks, s1.tasks, s.head + 1);
      DrainSeesThrough(limits, max, s1);
      PlayOn(s, limits, max, first, more);
      DrainedAfter(s, s1, Play(s1, limits, max, more));
    }
  }

  lemma CalmHead(s: State)
    requires Calm(s)
    ensures s.head <= |s.tasks|
  {
  }

  lemma NothingDrained(s: State)
    requires s.head == |s.tasks|
    ensures Drained(s, s)
  {
  }

  lemma SeenFacts(s: State, s1: State)
    requires s.head < |s.tasks| && SeenThrough(s, s1)
    ensures s1.id == s.id && s1.head == s.head + 1 && |s1.tasks| == |s.tasks|
    ensures s1.generation == if s.tasks[s.head].phase.Answered? then s.generation else s.generation + 1
    ensures forall i :: s.head < i < |s.tasks| ==> s1.tasks[i] == s.tasks[i]
  {
  }

  /** Wherever a run has got to, as long as the adapter is open, storage is not behind what it
      acknowledged and no answer has been lost: an adapter that from then on stores what it is given
      and says so empties the queue. Every call then resolves, except those declined and those
      whose store had already failed; what they waited for is persisted; and a degraded database
      with a store of what is current among them is open again. */
  lemma CallsResolve(seed: Root, limits: Limits, max: nat, stored: Option<Envelope>, newId: Text, moves: seq<Move>)
    requires OpenedFrom(seed, stored)
    requires var s := Play(Opened(seed, stored, newId), limits, max, moves);
             s.adapterOpen && s.generation <= GenerationOf(s.storage) && !Torn(s)
    ensures var s := Play(Opened(seed, stored, newId), limits, max, moves);
            var s' := Play(s, limits, max, Drain(s.id, s.generation, s.tasks, s.head));
            && s'.pending == 0 && s'.tickets == s.tickets
            && (forall t :: t in s.tickets ==>
                  && (t.After? ==> t.task < |s.tasks|)
                  && (Resolved(s', t) <==> !t.Declined? && (t.After? ==> EndsWell(s.tasks[t.task])))
                  && (Resolved(s', t) ==> t.target <= s'.persistedRevision))
            && (s.mode.Degraded? && CatchingUp(s) ==> s'.mode.Open?)
  {
    hide Play, Drained, Drain, Core, Torn, Calm, Winding;
    var s := Play(Opened(seed, stored, newId), limits, max, moves);
    var more := Drain(s.id, s.generation, s.tasks, s.head);
    var s' := Play(s, limits, max, more);
    PlayOk(seed, limits, max, stored, newId, moves);
    CalmUnlessTorn(seed, limits, max, stored, s);
    CalmHead(s);
    DrainSeesThrough(limits, max, s);
    PlayOn(Opened(seed, stored, newId), limits, max, moves, more);
    PlayOk(seed, limits, max, stored, newId, moves + more);
    ToldFacts(seed, limits, max, stored, s);
    ToldFacts(seed, limits, max, stored, s');
    DrainedFacts(s, s');
    forall t | t in s.tickets
      ensures t.After? ==> t.task < |s.tasks|
      ensures Resolved(s', t) <==> !t.Declined? && (t.After? ==> EndsWell(s.tasks[t.task]))
      ensures Resolved(s', t) ==> t.target <= s'.persistedRevision
    {
      assert t in s'.tickets;
      TicketResolves(s, s', t);
    }
  }

  lemma ToldFacts(seed: Root, limits: Limits, max: nat, origin: Option<Envelope>, s: State)
    requires Core(seed, limits, max, origin, s)
    ensures s.pending == |s.tasks| - s.head
    ensures Told(s.tasks, s.tickets, s.failed, s.persistedRevision)
    ensures forall i :: 0 <= i < s.head ==> s.tasks[i].phase.Settled?
    ensures forall t :: t in s.tickets ==> TicketOk(t, s.tasks, s.failed, s.persistedRevision)
  {
  }

  lemma DrainedFacts(s: State, s': State)
    requires s.head <= |s.tasks| && Drained(s, s')
    ensures s'.head == |s'.tasks| == |s.tasks| && s'.tickets == s.tickets
    ensures s.mode.Degraded? && CatchingUp(s) ==> s'.mode.Open?
  {
  }

  lemma TicketResolves(s: State, s': State, t: Ticket)
    requires s.head <= |s.tasks| && Drained(s, s')
    requires forall i :: 0 <= i < s.head ==> s.tasks[i].phase.Settled?
    requires TicketOk(t, s.tasks, s.failed, s.persistedRevision)
    requires TicketOk(t, s'.tasks, s'.failed, s'.persistedRevision)
    requires Told(s'.tasks, s'.tickets, s'.failed, s'.persistedRevision)
    ensures t.After? ==> t.task < |s.tasks|
    ensures Resolved(s', t) <==> !t.Declined? && (t.After? ==> EndsWell(s.tasks[t.task]))
    ensures Resolved(s', t) ==> t.target <= s'.persistedRevision
  {
    if t.After? { assert t.task < s.head
                 || s'.tasks[t.task] == s.tasks[t.task].(phase := Settled(EndsWell(s.tasks[t.task]))); }
  }
}
