/** Every interleaving is equivalent to running the committed transactions one after another. */
module Serializability {
  import opened Texts
  import opened Json
  import opened Keys
  import opened Collections
  import opened Engine

  /* ---------- running a transaction alone ---------- */

  function OpsOf(log: seq<LogEntry>): (ops: seq<Op>)
    ensures |ops| == |log|
    ensures forall i :: 0 <= i < |log| ==> ops[i] == log[i].op
  {
    seq(|log|, i requires 0 <= i < |log| => log[i].op)
  }

  /** A transaction that issues `ops` against a root that nobody else touches. */
  function Replay(root: Root, limits: Limits, ops: seq<Op>): Txn
    decreases |ops|
  {
    if ops == [] then FRESH
    else Perform(root, limits, Replay(root, limits, ops[..|ops| - 1]), ops[|ops| - 1])
  }

  /** Run each list of operations as one transaction, in order, with no interleaving. */
  function Serial(root: Root, limits: Limits, batches: seq<seq<Op>>): (Root, seq<Outcome>)
    decreases |batches|
  {
    if batches == [] then (root, [])
    else
      var (before, outcomes) := Serial(root, limits, batches[..|batches| - 1]);
      var t := Replay(before, limits, batches[|batches| - 1]);
      var (after, result) := Commit(before, true, t);
      (after, outcomes + (if result.Receipted? then [Outcome(t.log, result.receipt)] else []))
  }

  function Batches(history: seq<Outcome>): (batches: seq<seq<Op>>)
    ensures |batches| == |history|
    ensures forall i :: 0 <= i < |history| ==> batches[i] == OpsOf(history[i].log)
  {
    seq(|history|, i requires 0 <= i < |history| => OpsOf(history[i].log))
  }

  /* ---------- operations depend only on the collections they touch ---------- */

  ghost predicate Agree(root: Root, root': Root, names: set<Text>) {
    root.colls.Keys == root'.colls.Keys && forall n :: n in names && n in root.colls ==> root.colls[n] == root'.colls[n]
  }

  lemma TouchFrame(root: Root, root': Root, limits: Limits, t: Txn, name: Text)
    requires root.colls.Keys == root'.colls.Keys
    requires Touch(root, limits, t, name).Ok? ==>
               Agree(root, root', Touch(root, limits, t, name).value.base.Keys)
    ensures Touch(root', limits, t, name) == Touch(root, limits, t, name)
    ensures Touch(root, limits, t, name).Ok? ==>
              name in root.colls && root.colls[name] == root'.colls[name]
  {
    if Touch(root, limits, t, name).Ok? {
      assert name in Touch(root, limits, t, name).value.base;
    }
  }

  lemma MutateFrame(root: Root, root': Root, limits: Limits, t: Txn, name: Text, write: Write)
    requires t.working.Keys <= t.base.Keys
    requires Agree(root, root', DoMutate(root, limits, t, name, write).0.base.Keys)
    ensures DoMutate(root', limits, t, name, write) == DoMutate(root, limits, t, name, write)
  {
    hide Apply;
    var t1 := t.(operations := t.operations + 1);
    if t1.operations <= limits.maxOperations && name !in t1.working {
      TouchFrame(root, root', limits, t1, name);
    }
  }

  lemma DoFrame(root: Root, root': Root, limits: Limits, t: Txn, op: Op)
    requires t.working.Keys <= t.base.Keys
    requires Agree(root, root', Do(root, limits, t, op).0.base.Keys)
    ensures Do(root', limits, t, op) == Do(root, limits, t, op)
  {
    match op
    case Get(name, _) => TouchFrame(root, root', limits, t, name);
    case Find(name, _) => TouchFrame(root, root', limits, t, name);
    case Mutate(name, write) => MutateFrame(root, root', limits, t, name, write);
  }

  lemma {:induction false} ReplayKeeps(root: Root, limits: Limits, ops: seq<Op>)
    requires RootOk(root)
    ensures var t := Replay(root, limits, ops);
            TxnOk(t) && t.status.Active? && OpsOf(t.log) == ops
    decreases |ops|
  {
    hide Do, RootOk;
    if ops != [] {
      var init, op := ops[..|ops| - 1], ops[|ops| - 1];
      ReplayKeeps(root, limits, init);
      DoKeeps(root, limits, Replay(root, limits, init), op);
      assert ops == init + [op];
    }
  }

  /** Replaying on a root that agrees on every collection the transaction touched gives the
      same state and the same replies. */
  lemma {:induction false} ReplayFrame(root: Root, root': Root, limits: Limits, ops: seq<Op>)
    requires RootOk(root)
    requires Agree(root, root', Replay(root, limits, ops).base.Keys)
    ensures Replay(root', limits, ops) == Replay(root, limits, ops)
    decreases |ops|
  {
    hide Do, RootOk;
    if ops != [] {
      var init, op := ops[..|ops| - 1], ops[|ops| - 1];
      var t := Replay(root, limits, init);
      ReplayKeeps(root, limits, init);
      DoKeeps(root, limits, t, op);
      ReplayFrame(root, root', limits, init);
      DoFrame(root, root', limits, t, op);
    }
  }

  /* ---------- the invariant of a run ---------- */

  /** Some collection the transaction touched has been replaced since; it can never commit. */
  ghost predicate Lagging(root: Root, t: Txn) {
    exists n :: n in t.base && n in root.colls && root.colls[n].revision > t.base[n]
  }

  ghost predicate BaseOk(root: Root, t: Txn) {
    forall n :: n in t.base ==> n in root.colls && t.base[n] <= root.colls[n].revision
  }

  /** Its state and every reply it got are those of running alone on the current root. */
  ghost predicate InStep(root: Root, limits: Limits, t: Txn) {
    Replay(root, limits, OpsOf(t.log)) == t
  }

  ghost predicate Tracked(root: Root, limits: Limits, t: Txn) {
    BaseOk(root, t) && (Lagging(root, t) || InStep(root, limits, t))
  }

  ghost predicate Accounted(s: System, limits: Limits) {
    SystemOk(s) && forall id :: IsActive(s, id) ==> Tracked(s.root, limits, s.txns[id])
  }

  lemma TouchBase(root: Root, limits: Limits, t: Txn, name: Text)
    requires BaseOk(root, t)
    ensures Touch(root, limits, t, name).Ok? ==>
              var t' := Touch(root, limits, t, name).value;
              BaseOk(root, t') && forall n :: n in t.base ==> n in t'.base && t'.base[n] == t.base[n]
  {
  }

  lemma WritableBase(root: Root, limits: Limits, t: Txn, name: Text)
    requires BaseOk(root, t)
    ensures Writable(root, limits, t, name).Ok? ==>
              var t' := Writable(root, limits, t, name).value;
              BaseOk(root, t') && forall n :: n in t.base ==> n in t'.base && t'.base[n] == t.base[n]
  {
    hide BaseOk, Touch;
    TouchBase(root, limits, t, name);
    if Writable(root, limits, t, name).Ok? && name !in t.working {
      SameBase(root, Touch(root, limits, t, name).value, Writable(root, limits, t, name).value);
    }
  }

  lemma SameBase(root: Root, t: Txn, t': Txn)
    requires BaseOk(root, t) && t'.base == t.base
    ensures BaseOk(root, t')
  {
  }

  lemma MutateBase(root: Root, limits: Limits, t: Txn, name: Text, write: Write)
    requires BaseOk(root, t)
    ensures var t' := DoMutate(root, limits, t, name, write).0;
            BaseOk(root, t') && forall n :: n in t.base ==> n in t'.base && t'.base[n] == t.base[n]
  {
    hide Apply, Writable, BaseOk;
    var t1 := t.(operations := t.operations + 1);
    SameBase(root, t, t1);
    WritableBase(root, limits, t1, name);
    var w := Writable(root, limits, t1, name);
    if t1.operations <= limits.maxOperations && w.Ok? {
      SameBase(root, w.value, DoMutate(root, limits, t, name, write).0);
    }
  }

  lemma DoBase(root: Root, limits: Limits, t: Txn, op: Op)
    requires BaseOk(root, t)
    ensures var t' := Do(root, limits, t, op).0;
            BaseOk(root, t') && forall n :: n in t.base ==> n in t'.base && t'.base[n] == t.base[n]
  {
    hide DoMutate, BaseOk;
    match op
    case Get(name, _) => TouchBase(root, limits, t, name);
    case Find(name, _) => TouchBase(root, limits, t, name);
    case Mutate(name, write) => MutateBase(root, limits, t, name, write);
  }

  /** A transaction's own operation keeps it tracked. */
  lemma PerformTracked(root: Root, limits: Limits, t: Txn, op: Op)
    requires RootOk(root) && TxnOk(t) && Tracked(root, limits, t)
    ensures Tracked(root, limits, Perform(root, limits, t, op))
  {
    hide Do, RootOk, TxnOk;
    DoBase(root, limits, t, op);
    DoKeeps(root, limits, t, op);
    var t' := Perform(root, limits, t, op);
    if Lagging(root, t) {
      var n :| n in t.base && n in root.colls && root.colls[n].revision > t.base[n];
      assert n in t'.base && t'.base[n] == t.base[n];
    } else {
      var ops := OpsOf(t'.log);
      assert ops[..|ops| - 1] == OpsOf(t.log);
      assert ops[|ops| - 1] == op;
    }
  }

  /** Somebody else's publication leaves a transaction in step, or makes it lag for good. */
  lemma PublishTracked(root: Root, limits: Limits, publisher: Txn, t: Txn)
    requires RootOk(root) && Tracked(root, limits, t)
    requires BaseOk(root, publisher) && publisher.working.Keys <= publisher.base.Keys
    ensures Tracked(Publish(root, publisher), limits, t)
  {
    hide Replay, OpsOf, Valid;
    var root' := Publish(root, publisher);
    assert root'.colls.Keys == root.colls.Keys;
    assert forall n :: n in root.colls ==> root.colls[n].revision <= root'.colls[n].revision;
    assert BaseOk(root', t);
    if Lagging(root, t) {
      var n :| n in t.base && n in root.colls && root.colls[n].revision > t.base[n];
      assert n in root'.colls && root'.colls[n].revision > t.base[n];
    } else if exists n :: n in t.base && n in publisher.working {
      var n :| n in t.base && n in publisher.working;
      assert root'.colls[n].revision == root.revision + 1;
      assert n in root'.colls && root'.colls[n].revision > t.base[n];
    } else {
      assert Agree(root, root', t.base.Keys);
      ReplayFrame(root, root', limits, OpsOf(t.log));
    }
  }

  lemma StepAccounted(s: System, limits: Limits, e: Event)
    requires Accounted(s, limits)
    ensures Accounted(Step(s, limits, e), limits)
  {
    hide Perform, Publish, Tracked, RootOk, TxnOk;
    StepKeeps(s, limits, e);
    var s' := Step(s, limits, e);
    forall id | IsActive(s', id)
      ensures Tracked(s'.root, limits, s'.txns[id])
    {
      match e
      case Begin(id') => if id !in s.txns { FreshTracked(s.root, limits); }
      case Operate(id', op) =>
        if id == id' {
          SystemFacts(s, id);
          PerformTracked(s.root, limits, s.txns[id], op);
        }
      case TryCommit(id') =>
        if IsActive(s, id') {
          SystemFacts(s, id');
          TrackedFacts(s.root, limits, s.txns[id']);
          PublishTracked(s.root, limits, s.txns[id'], s.txns[id]);
        }
      case Rollback(_) =>
      case Close =>
      case Reopen =>
    }
  }

  lemma FreshTracked(root: Root, limits: Limits)
    ensures Tracked(root, limits, FRESH)
  {
    assert OpsOf(FRESH.log) == [];
  }

  lemma SystemFacts(s: System, id: nat)
    requires SystemOk(s) && id in s.txns
    ensures RootOk(s.root) && TxnOk(s.txns[id])
    ensures s.txns[id].working.Keys <= s.txns[id].base.Keys
  {
  }

  lemma TrackedFacts(root: Root, limits: Limits, t: Txn)
    requires Tracked(root, limits, t)
    ensures BaseOk(root, t)
    ensures !Moved(root, t) ==> InStep(root, limits, t)
  {
  }

  lemma {:induction false} RunAccounted(s: System, limits: Limits, events: seq<Event>)
    requires Accounted(s, limits)
    ensures Accounted(Run(s, limits, events), limits)
    decreases |events|
  {
    hide Accounted, Step;
    if events != [] {
      RunAccounted(s, limits, events[..|events| - 1]);
      StepAccounted(Run(s, limits, events[..|events| - 1]), limits, events[|events| - 1]);
    }
  }

  /* ---------- the theorem ---------- */

  /** Running only the committed transactions, alone and in commit order, from the same seed
      gives the same root and gives each of them the same replies and the same receipt. */
  lemma {:induction false} Serializable(seed: Root, limits: Limits, events: seq<Event>)
    requires RootOk(seed)
    ensures var s := Run(Start(seed), limits, events);
            Serial(seed, limits, Batches(s.history)) == (s.root, s.history)
    decreases |events|
  {
    hide Perform, Publish, Tracked, RootOk, TxnOk;
    if events == [] {
      assert Batches([]) == [];
    } else {
      var before := Run(Start(seed), limits, events[..|events| - 1]);
      var e := events[|events| - 1];
      Serializable(seed, limits, events[..|events| - 1]);
      StartAccounted(seed, limits);
      RunAccounted(Start(seed), limits, events[..|events| - 1]);
      var s := Step(before, limits, e);
      if e.TryCommit? && IsActive(before, e.id) {
        TrackedFacts(before.root, limits, before.txns[e.id]);
        CommitExtends(seed, limits, before, e.id);
      } else {
        assert s.history == before.history && s.root == before.root;
      }
    }
  }

  lemma StartAccounted(seed: Root, limits: Limits)
    requires RootOk(seed)
    ensures Accounted(Start(seed), limits)
  {
  }

  lemma SerialNext(root: Root, limits: Limits, batches: seq<seq<Op>>, ops: seq<Op>)
    ensures var (before, outcomes) := Serial(root, limits, batches);
            var t := Replay(before, limits, ops);
            var (after, result) := Commit(before, true, t);
            Serial(root, limits, batches + [ops])
            == (after, outcomes + (if result.Receipted? then [Outcome(t.log, result.receipt)] else []))
  {
    assert (batches + [ops])[..|batches|] == batches;
  }

  lemma CommitExtends(seed: Root, limits: Limits, s: System, id: nat)
    requires IsActive(s, id)
    requires !Moved(s.root, s.txns[id]) ==> InStep(s.root, limits, s.txns[id])
    requires Serial(seed, limits, Batches(s.history)) == (s.root, s.history)
    ensures var s' := Step(s, limits, TryCommit(id));
            Serial(seed, limits, Batches(s'.history)) == (s'.root, s'.history)
  {
    hide Publish, Serial, Replay, Moved;
    var s' := Step(s, limits, TryCommit(id));
    if |s'.history| > |s.history| {
      var ops := OpsOf(s.txns[id].log);
      assert Batches(s'.history) == Batches(s.history) + [ops];
      SerialNext(seed, limits, Batches(s.history), ops);
    }
  }
}
