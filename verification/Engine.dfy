/** Optimistic transactions over a committed root, as a state machine: every interleaving of
    begin, reads, writes, commit, rollback and close by any number of transactions. */
module Engine {
  import opened Texts
  import opened Json
  import opened Keys
  import opened Collections
  import opened Conditions

  const MAX_QUERY_CANDIDATES: nat := 100_000
  const MAX_QUERY_RESULTS: nat := 100_000

  datatype Root = Root(colls: map<Text, Coll>, revision: int)

  datatype Limits = Limits(maxOperations: nat, maxReadCollections: nat)

  datatype Op =
    | Get(name: Text, key: PrimaryKey)
    | Find(name: Text, condition: Where)
    | Mutate(name: Text, write: Write)

  datatype Refusal =
    | UnknownCollection
    | OperationLimit
    | ReadCollectionLimit
    | CandidateLimit
    | ResultLimit
    | Rejected(error: Error)

  /** What the caller of an operation sees. */
  datatype Reply =
    | Record(doc: Option<Json>)
    | Records(docs: seq<Json>)
    | Wrote(key: PrimaryKey)
    | Refused(why: Refusal)

  datatype Status = Active | Committed | RolledBack

  datatype GeneratedKey = GeneratedKey(collection: Text, key: Text)

  datatype Txn = Txn(
    status: Status,
    base: map<Text, int>,
    working: map<Text, Coll>,
    changes: seq<Change>,
    generated: seq<GeneratedKey>,
    operations: nat,
    log: seq<LogEntry>)

  datatype LogEntry = LogEntry(op: Op, reply: Reply)

  const FRESH: Txn := Txn(Active, map[], map[], [], [], 0, [])

  /* ---------- operations of one transaction ---------- */

  /** `#touchCollection`: record the revision a collection had when first seen. */
  function Touch(root: Root, limits: Limits, t: Txn, name: Text): Result<Txn, Refusal> {
    if name !in root.colls then Err(UnknownCollection)
    else if name in t.base then Ok(t)
    else if |t.base| >= limits.maxReadCollections then Err(ReadCollectionLimit)
    else Ok(t.(base := t.base[name := root.colls[name].revision]))
  }

  /** Own writes if there are any, otherwise whatever is committed now. */
  function View(root: Root, t: Txn, name: Text): Coll
    requires name in root.colls
  {
    if name in t.working then t.working[name] else root.colls[name]
  }

  /** The documents along the order that satisfy a predicate. */
  function Select(order: seq<Text>, records: map<Text, Json>, test: Json -> bool): seq<Json> {
    if order == [] then []
    else
      (if order[0] in records && test(records[order[0]]) then [records[order[0]]] else [])
      + Select(order[1..], records, test)
  }

  function DoGet(root: Root, limits: Limits, t: Txn, name: Text, key: PrimaryKey): (Txn, Reply) {
    match Touch(root, limits, t, name)
    case Err(why) => (t, Refused(why))
    case Ok(touched) =>
      var c := View(root, touched, name);
      match EncodeKey(key)
      case None => (touched, Refused(Rejected(InvalidKey)))
      case Some(slot) => (touched, Record(if slot in c.records then Some(c.records[slot]) else None))
  }

  function DoFind(root: Root, limits: Limits, t: Txn, name: Text, condition: Where): (Txn, Reply) {
    match Touch(root, limits, t, name)
    case Err(why) => (t, Refused(why))
    case Ok(touched) =>
      var c := View(root, touched, name);
      if |c.order| > MAX_QUERY_CANDIDATES then (touched, Refused(CandidateLimit))
      else
        var docs := Select(c.order, c.records, Compile(condition));
        if |docs| > MAX_QUERY_RESULTS then (touched, Refused(ResultLimit)) else (touched, Records(docs))
  }

  /** `#writable`: the working copy, made from the committed collection on first write. */
  function Writable(root: Root, limits: Limits, t: Txn, name: Text): Result<Txn, Refusal> {
    if name in t.working then Ok(t)
    else match Touch(root, limits, t, name)
      case Err(why) => Err(why)
      case Ok(touched) => Ok(touched.(working := touched.working[name := root.colls[name]]))
  }

  /** Taking an operation's effect into the transaction. */
  function Absorb(t: Txn, name: Text, e: Effect): (Txn, Reply) {
    var w := t.(working := t.working[name := e.coll]);
    match e
    case Failed(_, error) => (w, Refused(Rejected(error)))
    case Done(_, key, slot, before, after, generated) =>
      (w.(changes := t.changes + [Change(name, key, slot, before, after)],
          generated := t.generated + (if generated.Some? then [GeneratedKey(name, generated.value)] else [])),
       Wrote(key))
  }

  function DoMutate(root: Root, limits: Limits, t0: Txn, name: Text, write: Write): (Txn, Reply)
  {
    var t := t0.(operations := t0.operations + 1);
    if t.operations > limits.maxOperations then (t, Refused(OperationLimit))
    else match Writable(root, limits, t, name)
      case Err(why) => (t, Refused(why))
      case Ok(w) => Absorb(w, name, Apply(w.working[name], write))
  }

  ghost predicate RootOk(root: Root) {
    forall n :: n in root.colls ==> Valid(root.colls[n]) && root.colls[n].revision <= root.revision
  }

  ghost predicate TxnOk(t: Txn) {
    && (forall n :: n in t.working ==> Valid(t.working[n]))
    && t.working.Keys <= t.base.Keys
  }

  function Do(root: Root, limits: Limits, t: Txn, op: Op): (Txn, Reply) {
    match op
    case Get(name, key) => DoGet(root, limits, t, name, key)
    case Find(name, condition) => DoFind(root, limits, t, name, condition)
    case Mutate(name, write) => DoMutate(root, limits, t, name, write)
  }

  /** An operation and its reply, recorded as the caller saw them. */
  function Perform(root: Root, limits: Limits, t: Txn, op: Op): Txn {
    var (t', reply) := Do(root, limits, t, op);
    t'.(log := t.log + [LogEntry(op, reply)])
  }

  /** What any operation leaves alone. */
  ghost predicate Extends(t: Txn, t': Txn) {
    TxnOk(t') && t'.log == t.log && t'.status == t.status && t.base.Keys <= t'.base.Keys
  }

  lemma AbsorbKeeps(t: Txn, name: Text, e: Effect)
    requires TxnOk(t) && name in t.working && Valid(e.coll)
    ensures var t' := Absorb(t, name, e).0;
            Extends(t, t') && t'.base == t.base
  {
  }

  lemma TouchKeeps(root: Root, limits: Limits, t: Txn, name: Text)
    requires TxnOk(t)
    ensures Touch(root, limits, t, name).Ok? ==>
              name in root.colls && Extends(t, Touch(root, limits, t, name).value)
              && name in Touch(root, limits, t, name).value.base
  {
  }

  lemma WritableKeeps(root: Root, limits: Limits, t: Txn, name: Text)
    requires RootOk(root) && TxnOk(t)
    ensures Writable(root, limits, t, name).Ok? ==>
              Extends(t, Writable(root, limits, t, name).value)
              && name in Writable(root, limits, t, name).value.working
  {
  }

  lemma MutateKeeps(root: Root, limits: Limits, t: Txn, name: Text, write: Write)
    requires RootOk(root) && TxnOk(t)
    ensures Extends(t, DoMutate(root, limits, t, name, write).0)
  {
    hide Apply, Valid, Absorb, Writable;
    var t1 := t.(operations := t.operations + 1);
    WritableKeeps(root, limits, t1, name);
    var w := Writable(root, limits, t1, name);
    if t1.operations <= limits.maxOperations && w.Ok? {
      ApplyKeeps(w.value.working[name], write);
      AbsorbKeeps(w.value, name, Apply(w.value.working[name], write));
    }
  }

  lemma DoKeeps(root: Root, limits: Limits, t: Txn, op: Op)
    requires RootOk(root) && TxnOk(t)
    ensures Extends(t, Do(root, limits, t, op).0)
  {
    match op
    case Get(name, _) => TouchKeeps(root, limits, t, name);
    case Find(name, _) => TouchKeeps(root, limits, t, name);
    case Mutate(name, write) => MutateKeeps(root, limits, t, name, write);
  }

  /* ---------- commit ---------- */

  datatype Receipt = Receipt(affected: nat, revision: int, generated: seq<GeneratedKey>)

  datatype CommitResult = Conflict | Closed | Receipted(receipt: Receipt)

  predicate Moved(root: Root, t: Txn) {
    exists n :: n in t.base && (n !in root.colls || root.colls[n].revision != t.base[n])
  }

  function Publish(root: Root, t: Txn): Root {
    var revision := root.revision + 1;
    Root(root.colls + (map n | n in t.working :: t.working[n].(revision := revision)), revision)
  }

  /** `_commit`. */
  function Commit(root: Root, open: bool, t: Txn): (Root, CommitResult) {
    if !open then (root, Closed)
    else if Moved(root, t) then (root, Conflict)
    else if t.changes == [] then (root, Receipted(Receipt(0, root.revision, t.generated)))
    else (Publish(root, t), Receipted(Receipt(|t.changes|, root.revision + 1, t.generated)))
  }

  /* ---------- the whole system ---------- */

  datatype Event =
    | Begin(id: nat)
    | Operate(id: nat, op: Op)
    | TryCommit(id: nat)
    | Rollback(id: nat)
    | Close
    | Reopen

  // `Reopen` is no call of the interface: a store that fails after `close()` puts the database
  // back into a state that accepts transactions.

  /** What a committed transaction did and saw. */
  datatype Outcome = Outcome(log: seq<LogEntry>, receipt: Receipt)

  datatype System = System(root: Root, open: bool, txns: map<nat, Txn>, history: seq<Outcome>)

  predicate IsActive(s: System, id: nat) {
    id in s.txns && s.txns[id].status.Active?
  }

  ghost predicate SystemOk(s: System) {
    RootOk(s.root) && forall id :: id in s.txns ==> TxnOk(s.txns[id])
  }

  function Step(s: System, limits: Limits, e: Event): System {
    match e
    case Begin(id) => if s.open && id !in s.txns then s.(txns := s.txns[id := FRESH]) else s
    case Operate(id, op) =>
      if IsActive(s, id) then s.(txns := s.txns[id := Perform(s.root, limits, s.txns[id], op)]) else s
    case TryCommit(id) =>
      if !IsActive(s, id) then s
      else
        var t := s.txns[id];
        var (root, result) := Commit(s.root, s.open, t);
        (match result
         case Receipted(receipt) =>
           s.(root := root, txns := s.txns[id := t.(status := Committed)],
              history := s.history + [Outcome(t.log, receipt)])
         case _ => s.(txns := s.txns[id := t.(status := RolledBack)]))
    case Rollback(id) =>
      if !IsActive(s, id) then s
      else s.(txns := s.txns[id := s.txns[id].(status := RolledBack, working := map[], changes := [], generated := [])])
    case Close => s.(open := false)
    case Reopen => s.(open := true)
  }

  lemma PublishKeeps(root: Root, t: Txn)
    requires RootOk(root) && TxnOk(t)
    ensures RootOk(Publish(root, t))
  {
    var root' := Publish(root, t);
    forall n | n in root'.colls
      ensures Valid(root'.colls[n]) && root'.colls[n].revision <= root'.revision
    {
      if n in t.working { RevisionIrrelevant(t.working[n], root'.revision); }
    }
  }

  lemma RevisionIrrelevant(c: Coll, revision: int)
    requires Valid(c)
    ensures Valid(c.(revision := revision))
  {
  }

  /** Every step keeps the collection invariant, in the root and in every working copy. */
  lemma StepKeeps(s: System, limits: Limits, e: Event)
    requires SystemOk(s)
    ensures SystemOk(Step(s, limits, e))
  {
    match e
    case Begin(_) =>
    case Operate(id, op) => if IsActive(s, id) { DoKeeps(s.root, limits, s.txns[id], op); }
    case TryCommit(id) => if IsActive(s, id) { PublishKeeps(s.root, s.txns[id]); }
    case Rollback(_) =>
    case Close =>
    case Reopen =>
  }

  function Run(s: System, limits: Limits, events: seq<Event>): System
    decreases |events|
  {
    if events == [] then s else Step(Run(s, limits, events[..|events| - 1]), limits, events[|events| - 1])
  }

  /** Whatever is run, every committed and every working collection is valid. */
  lemma {:induction false} RunKeeps(s: System, limits: Limits, events: seq<Event>)
    requires SystemOk(s)
    ensures SystemOk(Run(s, limits, events))
    decreases |events|
  {
    if events != [] {
      RunKeeps(s, limits, events[..|events| - 1]);
      StepKeeps(Run(s, limits, events[..|events| - 1]), limits, events[|events| - 1]);
    }
  }

  function Start(root: Root): System {
    System(root, true, map[], [])
  }
}
