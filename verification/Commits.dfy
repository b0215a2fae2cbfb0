/** When a transaction commits: exactly when the database is open and no commit in between has
    replaced a collection it had looked at; and what a commit then leaves behind. */
module Commits {
  import opened Texts
  import opened Collections
  import opened Conditions
  import opened Engine
  import opened Serializability

  /** Every collection the transaction has looked at is still the one it looked at. */
  ghost predicate UpToDate(root: Root, t: Txn) {
    forall n :: n in t.base ==> n in root.colls && root.colls[n].revision == t.base[n]
  }

  /** A root in which the collections a transaction wrote have taken the place of the old ones, at
      the next revision; without changes it is the old root. */
  ghost predicate Succeeds(root: Root, t: Txn, root': Root) {
    && (t.changes == [] ==> root' == root)
    && (t.changes != [] ==>
          && root'.revision == root.revision + 1
          && root'.colls.Keys == root.colls.Keys + t.working.Keys
          && forall n :: n in root'.colls ==>
               root'.colls[n] == if n in t.working then t.working[n].(revision := root'.revision) else root.colls[n])
  }

  /** Nothing about any other transaction, and not whether the database is open. */
  ghost predicate OthersAlone(s: System, s': System, id: nat) {
    s'.open == s.open && s'.txns.Keys == s.txns.Keys && forall i :: i in s.txns && i != id ==> s'.txns[i] == s.txns[i]
  }

  /** A commit is acknowledged exactly when the database is open and the transaction up to date. It
      then adds what the transaction did and saw to the history, with a receipt that counts its
      changes, and publishes what it wrote, if anything; refused, it leaves no trace. */
  lemma CommitsExactly(s: System, limits: Limits, id: nat)
    requires IsActive(s, id)
    ensures var t, s' := s.txns[id], Step(s, limits, TryCommit(id));
            var commits := s.open && UpToDate(s.root, t);
            && OthersAlone(s, s', id)
            && s'.txns[id] == t.(status := if commits then Committed else RolledBack)
            && (commits ==>
                  && Succeeds(s.root, t, s'.root)
                  && s'.history == s.history + [Outcome(t.log, Receipt(|t.changes|, s'.root.revision, t.generated))])
            && (!commits ==> s'.root == s.root && s'.history == s.history)
  {
    hide Publish;
    PublishSucceeds(s.root, s.txns[id]);
  }

  lemma PublishSucceeds(root: Root, t: Txn)
    ensures t.changes != [] ==> Succeeds(root, t, Publish(root, t))
  {
  }

  /** A rollback leaves nothing of the transaction but what it has seen, and nothing else is changed. */
  lemma RollsBackExactly(s: System, limits: Limits, id: nat)
    requires IsActive(s, id)
    ensures var t, s' := s.txns[id], Step(s, limits, Rollback(id));
            && OthersAlone(s, s', id) && s'.root == s.root && s'.history == s.history
            && s'.txns[id].status.RolledBack? && s'.txns[id].log == t.log
            && s'.txns[id].working == map[] && s'.txns[id].changes == [] && s'.txns[id].generated == []
  {
  }

  /** Once committed or rolled back, a transaction is never touched again. */
  lemma FinishedStays(s: System, limits: Limits, e: Event, id: nat)
    requires id in s.txns
    ensures var s' := Step(s, limits, e);
            id in s'.txns && (!IsActive(s, id) ==> s'.txns[id] == s.txns[id])
  {
    hide Perform, Commit;
  }

  /* ---------- over whole runs ---------- */

  /** Another transaction commits here, having written to a collection that this one has looked at. */
  ghost predicate Disturbs(s: System, limits: Limits, id: nat, e: Event)
    requires id in s.txns
  {
    && e.TryCommit? && e.id != id && e.id in s.txns && s.txns[e.id].changes != []
    && |Step(s, limits, e).history| > |s.history|
    && exists n :: n in s.txns[e.id].working && n in s.txns[id].base
  }

  /** A transaction's own operations neither bring it up to date nor put it behind. */
  lemma OperateKeeps(root: Root, limits: Limits, t: Txn, op: Op)
    requires BaseOk(root, t)
    ensures UpToDate(root, Perform(root, limits, t, op)) <==> UpToDate(root, t)
  {
    DoBase(root, limits, t, op);
    DoNotes(root, limits, t, op);
    hide Do;
  }

  /** What an operation looks at for the first time, it looks at as it is. */
  lemma DoNotes(root: Root, limits: Limits, t: Txn, op: Op)
    ensures var base := Do(root, limits, t, op).0.base;
            forall n :: n in base && n !in t.base ==> n in root.colls && base[n] == root.colls[n].revision
  {
    hide Apply, Compile, Select;
  }

  lemma PublishDisturbs(root: Root, publisher: Txn, t: Txn, root': Root)
    requires RootOk(root) && BaseOk(root, t) && publisher.working.Keys <= root.colls.Keys
    requires publisher.changes != [] && Succeeds(root, publisher, root')
    ensures BaseOk(root', t)
    ensures UpToDate(root', t) <==> UpToDate(root, t) && forall n :: n in t.base ==> n !in publisher.working
  {
    hide Valid;
    forall n | n in t.base && n in publisher.working
      ensures root'.colls[n].revision > t.base[n]
    {
      assert root.colls[n].revision <= root.revision;
    }
  }

  /** One step puts a transaction behind exactly when it is such a commit. */
  lemma StepDisturbs(s: System, limits: Limits, id: nat, e: Event)
    requires Accounted(s, limits) && IsActive(s, id) && IsActive(Step(s, limits, e), id)
    ensures var s' := Step(s, limits, e);
            UpToDate(s'.root, s'.txns[id]) <==> UpToDate(s.root, s.txns[id]) && !Disturbs(s, limits, id, e)
  {
    hide RootOk, TxnOk, UpToDate, BaseOk, InStep, Lagging, Perform, Commit;
    SystemFacts(s, id);
    TrackedFacts(s.root, limits, s.txns[id]);
    match e
    case Operate(i, op) => if i == id { OperateKeeps(s.root, limits, s.txns[id], op); }
    case TryCommit(i) =>
      if IsActive(s, i) {
        var t, s' := s.txns[i], Step(s, limits, e);
        CommitsExactly(s, limits, i);
        SystemFacts(s, i);
        TrackedFacts(s.root, limits, t);
        BaseCovers(s.root, t);
        if s.open && UpToDate(s.root, t) && t.changes != [] { PublishDisturbs(s.root, t, s.txns[id], s'.root); }
      }
    case _ =>
  }

  lemma BaseCovers(root: Root, t: Txn)
    requires BaseOk(root, t) && t.working.Keys <= t.base.Keys
    ensures t.working.Keys <= root.colls.Keys
  {
  }

  /** No event of the list disturbs the transaction. */
  ghost predicate Undisturbed(s: System, limits: Limits, id: nat, events: seq<Event>)
    requires forall k :: 0 <= k < |events| ==> id in Run(s, limits, events[..k]).txns
  {
    forall k :: 0 <= k < |events| ==> !Disturbs(Run(s, limits, events[..k]), limits, id, events[k])
  }

  lemma RunNext(s: System, limits: Limits, events: seq<Event>, e: Event)
    ensures Run(s, limits, events + [e]) == Step(Run(s, limits, events), limits, e)
  {
    assert (events + [e])[..|events|] == events;
  }

  /** A transaction that is active at the end of a run was active all along. */
  lemma {:induction false} ActiveThroughout(s: System, limits: Limits, id: nat, events: seq<Event>, k: nat)
    requires id in s.txns && k <= |events|
    ensures id in Run(s, limits, events[..k]).txns
    ensures IsActive(Run(s, limits, events), id) ==> IsActive(Run(s, limits, events[..k]), id)
    decreases |events|
  {
    hide Step;
    if k == |events| {
      assert events[..k] == events;
      StillThere(s, limits, id, events);
    } else {
      var init, e := events[..|events| - 1], events[|events| - 1];
      ActiveThroughout(s, limits, id, init, k);
      assert init[..k] == events[..k];
      StillThere(s, limits, id, init);
      FinishedStays(Run(s, limits, init), limits, e, id);
    }
  }

  lemma {:induction false} StillThere(s: System, limits: Limits, id: nat, events: seq<Event>)
    requires id in s.txns
    ensures id in Run(s, limits, events).txns
    decreases |events|
  {
    hide Step;
    if events != [] {
      var init := events[..|events| - 1];
      StillThere(s, limits, id, init);
      FinishedStays(Run(s, limits, init), limits, events[|events| - 1], id);
    }
  }

  lemma {:induction false} UpToDateExactly(s: System, limits: Limits, id: nat, events: seq<Event>)
    requires Accounted(s, limits) && IsActive(s, id) && UpToDate(s.root, s.txns[id])
    requires IsActive(Run(s, limits, events), id)
    ensures forall k :: 0 <= k <= |events| ==> id in Run(s, limits, events[..k]).txns
    ensures var s' := Run(s, limits, events);
            UpToDate(s'.root, s'.txns[id]) <==> Undisturbed(s, limits, id, events)
    decreases |events|
  {
    hide Step, Accounted, UpToDate, Disturbs, Run;
    forall k | 0 <= k <= |events|
      ensures id in Run(s, limits, events[..k]).txns
    {
      ActiveThroughout(s, limits, id, events, k);
    }
    if events == [] {
      RunNothing(s, limits);
    } else {
      var init, e := events[..|events| - 1], events[|events| - 1];
      assert init + [e] == events;
      RunNext(s, limits, init, e);
      ActiveThroughout(s, limits, id, events, |events| - 1);
      UpToDateExactly(s, limits, id, init);
      RunAccounted(s, limits, init);
      StepDisturbs(Run(s, limits, init), limits, id, e);
      assert forall k :: 0 <= k < |init| ==> init[..k] == events[..k] && init[k] == events[k];
    }
  }

  lemma RunNothing(s: System, limits: Limits)
    ensures Run(s, limits, []) == s
  {
  }

  /** Whatever has happened before, and whatever happens after a transaction begins: as long as it
      is active, committing it succeeds exactly when the database is then open and no commit in
      between wrote to a collection that the transaction had looked at by then. */
  lemma CommitsIffUndisturbed(seed: Root, limits: Limits, prior: seq<Event>, id: nat, events: seq<Event>)
    requires RootOk(seed)
    requires var s := Run(Start(seed), limits, prior); s.open && id !in s.txns
    requires IsActive(Run(Step(Run(Start(seed), limits, prior), limits, Begin(id)), limits, events), id)
    ensures var begun := Step(Run(Start(seed), limits, prior), limits, Begin(id));
            var s := Run(begun, limits, events);
            && (forall k :: 0 <= k < |events| ==> id in Run(begun, limits, events[..k]).txns)
            && id in Step(s, limits, TryCommit(id)).txns
            && (Step(s, limits, TryCommit(id)).txns[id].status.Committed?
                <==> s.open && Undisturbed(begun, limits, id, events))
  {
    hide RootOk, Run, Undisturbed, Accounted, Perform, Commit;
    StartAccounted(seed, limits);
    RunAccounted(Start(seed), limits, prior);
    var before := Run(Start(seed), limits, prior);
    StepAccounted(before, limits, Begin(id));
    UpToDateExactly(Step(before, limits, Begin(id)), limits, id, events);
    CommitsExactly(Run(Step(before, limits, Begin(id)), limits, events), limits, id);
  }

  function Operates(id: nat, ops: seq<Op>): (events: seq<Event>)
    ensures |events| == |ops| && forall i :: 0 <= i < |ops| ==> events[i] == Operate(id, ops[i])
  {
    seq(|ops|, i requires 0 <= i < |ops| => Operate(id, ops[i]))
  }

  lemma {:induction false} AloneStaysActive(s: System, limits: Limits, id: nat, ops: seq<Op>)
    requires IsActive(s, id)
    ensures var s' := Run(s, limits, Operates(id, ops)); IsActive(s', id) && s'.open == s.open
    decreases |ops|
  {
    hide Do;
    if ops != [] {
      var init := ops[..|ops| - 1];
      AloneStaysActive(s, limits, id, init);
      assert Operates(id, ops)[..|ops| - 1] == Operates(id, init);
      PerformStatus(Run(s, limits, Operates(id, init)).root, limits, Run(s, limits, Operates(id, init)).txns[id],
                    ops[|ops| - 1]);
    }
  }

  lemma PerformStatus(root: Root, limits: Limits, t: Txn, op: Op)
    ensures Perform(root, limits, t, op).status == t.status
  {
    hide Apply, Compile, Select;
  }

  /** In particular a transaction run alone on an open database always commits, whatever it does. */
  lemma AloneCommits(seed: Root, limits: Limits, prior: seq<Event>, id: nat, ops: seq<Op>)
    requires RootOk(seed)
    requires var s := Run(Start(seed), limits, prior); s.open && id !in s.txns
    ensures var begun := Step(Run(Start(seed), limits, prior), limits, Begin(id));
            var s := Step(Run(begun, limits, Operates(id, ops)), limits, TryCommit(id));
            id in s.txns && s.txns[id].status.Committed?
  {
    hide RootOk, Run, Perform, Commit;
    var begun := Step(Run(Start(seed), limits, prior), limits, Begin(id));
    AloneStaysActive(begun, limits, id, ops);
    CommitsIffUndisturbed(seed, limits, prior, id, Operates(id, ops));
  }
}
