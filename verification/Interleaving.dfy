/** Any number of transaction objects over one database object, driven by any schedule: the
    shared object graph does what the state machine says, step by step. */
module Interleaving {
  import opened Texts
  import opened Collections
  import opened WorkingSets
  import opened Transactions
  import opened Serializability
  import Engine

  /** A transaction object over `db` representing `v`; while active, over the objects in `h`. */
  ghost predicate Good(t: Transaction, db: Database, v: Engine.Txn, h: Held)
    reads t, h.reach, h.keySets
  {
    && t.database == db
    && t.View() == v
    && Engine.TxnOk(v)
    && (v.status.Active? ==> t.held == h && t.Valid())
  }

  /** What a table of transaction objects represents, and over which objects. */
  datatype Scene = Scene(views: map<nat, Engine.Txn>, helds: map<nat, Held>,
                         own: set<object>, reach: set<object>, keySets: set<KeySet>)

  ghost predicate AllGood(txns: map<nat, Transaction>, db: Database, scene: Scene)
    reads txns.Values, scene.reach, scene.keySets
  {
    && txns.Keys == scene.views.Keys && txns.Keys == scene.helds.Keys
    && forall id :: id in txns ==>
         && scene.helds[id].own <= scene.own && scene.helds[id].reach <= scene.reach
         && scene.helds[id].keySets <= scene.keySets
         && Good(txns[id], db, scene.views[id], scene.helds[id])
  }

  /** No transaction can write what is committed, or what another one reads. */
  ghost predicate Disjoint(s: object, db: Database, shared: set<object>, txns: map<nat, Transaction>,
                           helds: map<nat, Held>) {
    && s !in shared && (db as object) !in shared && txns.Keys == helds.Keys
    && (forall id :: id in txns ==>
          && (txns[id] as object) !in shared
          && helds[id].own <= helds[id].reach && NoKeySets(helds[id].own)
          && helds[id].own !! shared
          && s !in helds[id].reach && (db as object) !in helds[id].reach && (txns[id] as object) !in helds[id].reach)
    && forall id, id' :: id in txns && id' in txns && id != id' ==>
         txns[id] != txns[id'] && (txns[id'] as object) !in helds[id].reach && helds[id].own !! helds[id'].reach
  }

  function SceneWith(scene: Scene, id: nat, v: Engine.Txn, h: Held): Scene {
    Scene(scene.views[id := v], scene.helds[id := h], scene.own + h.own, scene.reach + h.reach,
          scene.keySets + h.keySets)
  }

  /** Changing what one transaction represents, the others being unaffected. */
  lemma AllGoodWith(txns: map<nat, Transaction>, db: Database, scene: Scene, id: nat, t: Transaction, v: Engine.Txn,
                    h: Held)
    requires txns.Keys == scene.views.Keys && txns.Keys == scene.helds.Keys
    requires forall i :: i in txns && i != id ==>
               && scene.helds[i].own <= scene.own && scene.helds[i].reach <= scene.reach
               && scene.helds[i].keySets <= scene.keySets
               && Good(txns[i], db, scene.views[i], scene.helds[i])
    requires Good(t, db, v, h)
    ensures AllGood(txns[id := t], db, SceneWith(scene, id, v, h))
  {
  }

  lemma DisjointAdd(s: object, db: Database, shared: set<object>, txns: map<nat, Transaction>, helds: map<nat, Held>,
                    id: nat, t: Transaction)
    requires Disjoint(s, db, shared, txns, helds) && id !in txns
    requires (t as object) !in shared && forall i :: i in txns ==> txns[i] != t && (t as object) !in helds[i].reach
    ensures Disjoint(s, db, shared, txns[id := t], helds[id := NOTHING])
  {
  }

  /** A transaction may grow by new objects and by committed ones. */
  lemma DisjointGrow(s: object, db: Database, shared: set<object>, txns: map<nat, Transaction>, helds: map<nat, Held>,
                     id: nat, h: Held, added: set<object>)
    requires Disjoint(s, db, shared, txns, helds) && id in txns
    requires h.own == helds[id].own + added && h.own <= h.reach && NoKeySets(h.own)
    requires h.reach <= helds[id].reach + shared + added
    requires added !! shared && s !in added && (db as object) !in added
    requires forall i :: i in txns ==> (txns[i] as object) !in added && added !! helds[i].reach
    ensures Disjoint(s, db, shared, txns, helds[id := h])
  {
  }

  lemma Outsiders(s: object, db: Database, shared: set<object>, txns: map<nat, Transaction>, helds: map<nat, Held>)
    requires Disjoint(s, db, shared, txns, helds)
    ensures s !in shared && (db as object) !in shared
    ensures forall id :: id in txns ==>
              (txns[id] as object) !in shared && s !in helds[id].reach && (db as object) !in helds[id].reach
  {
  }

  /** One operation of one transaction, beside any number of others. */
  method Act(ghost s: object, db: Database, ghost txns: map<nat, Transaction>, ghost scene: Scene,
             ghost id: nat, t: Transaction, op: Engine.Op) returns (ghost next: Scene)
    requires db.Valid() && AllGood(txns, db, scene) && Disjoint(s, db, db.shared, txns, scene.helds)
    requires id in txns && id in scene.helds && id in scene.views && txns[id] == t
    requires t.status.Active? && s !in scene.reach && (db as object) !in scene.reach
    modifies t, scene.helds[id].own
    ensures db.Valid()
    ensures next.views == scene.views[id := Engine.Perform(db.Root(), db.limits, scene.views[id], op)]
    ensures fresh(next.own - scene.own)
    ensures AllGood(txns, db, next) && Disjoint(s, db, db.shared, txns, next.helds) && s !in next.reach
        && (db as object) !in next.reach
  {
    hide Database.Valid, Good, Disjoint, Engine.Perform;
    assert txns.Keys == scene.views.Keys && txns.Keys == scene.helds.Keys;
    GoodFacts(t, db, scene.views[id], scene.helds[id]);
    Outsiders(s, db, db.shared, txns, scene.helds);
    Rivals(s, db, db.shared, txns, scene.helds, id);
    ghost var h := scene.helds[id];
    ghost var before := t.held;
    OperateAlone(t, op);
    DisjointGrow(s, db, db.shared, txns, scene.helds, id, t.held, t.held.own - h.own);
    AllGoodWith(txns, db, scene, id, t, t.View(), t.held);
    assert txns[id := t] == txns;
    next := SceneWith(scene, id, t.View(), t.held);
    Outsiders(s, db, db.shared, txns, next.helds);
  }

  method OperateAlone(t: Transaction, op: Engine.Op)
    requires t.Valid() && t.database.Valid() && t.status.Active? && t.Apart()
    modifies t, t.held.own
    ensures t.database.Valid() && t.Grown()
    ensures Good(t, t.database, t.View(), t.held)
    ensures t.held.own <= t.held.reach && NoKeySets(t.held.own)
    ensures t.View() == Engine.Perform(t.database.Root(), t.database.limits, old(t.View()), op)
  {
    hide Database.Valid, Engine.Perform, Transaction.Bound;
    t.Outside();
    t.HeldFacts();
    var reply := t.Operate(op);
    t.HeldFacts();
    IsGood(t);
  }

  /** A finished transaction owns nothing; what it reached may have become committed. */
  lemma DisjointFinish(s: object, db: Database, shared: set<object>, txns: map<nat, Transaction>, helds: map<nat, Held>,
                       id: nat, shared': set<object>)
    requires Disjoint(s, db, shared, txns, helds) && id in txns
    requires shared' <= shared + helds[id].reach
    ensures Disjoint(s, db, shared', txns, helds[id := NOTHING])
  {
  }

  lemma FinishedIsGood(t: Transaction)
    requires !t.status.Active? && Engine.TxnOk(t.View())
    ensures Good(t, t.database, t.View(), NOTHING)
  {
  }

  method CommitAlone(t: Transaction) returns (result: Engine.CommitResult)
    requires t.Valid() && t.database.Valid() && t.status.Active? && t.Apart()
    modifies t, t.database, t.held.own
    ensures t.database.Valid() && t.database.open == old(t.database.open)
    ensures (t.database.Root(), result) == Engine.Commit(old(t.database.Root()), old(t.database.open), old(t.View()))
    ensures t.View() == old(t.View()).(status := if result.Receipted? then Engine.Committed else Engine.RolledBack)
    ensures Good(t, t.database, t.View(), NOTHING)
    ensures t.database.shared <= old(t.database.shared) + old(t.held.reach)
  {
    hide Database.Valid, Transaction.Bound, Engine.Commit, Engine.TxnOk;
    t.Outside();
    result := t.Commit();
    FinishedIsGood(t);
  }

  /** One commit attempt, beside any number of others. */
  method ActCommit(ghost s: object, db: Database, ghost txns: map<nat, Transaction>, ghost scene: Scene,
                   ghost id: nat, t: Transaction) returns (result: Engine.CommitResult, ghost next: Scene)
    requires db.Valid() && AllGood(txns, db, scene) && Disjoint(s, db, db.shared, txns, scene.helds)
    requires id in txns && id in scene.helds && id in scene.views && txns[id] == t
    requires t.status.Active? && s !in scene.reach && (db as object) !in scene.reach
    modifies t, db, scene.helds[id].own
    ensures db.Valid() && db.open == old(db.open)
    ensures (db.Root(), result) == Engine.Commit(old(db.Root()), old(db.open), scene.views[id])
    ensures next.views == scene.views[id := scene.views[id].(status :=
                            if result.Receipted? then Engine.Committed else Engine.RolledBack)]
    ensures next.own == scene.own
    ensures AllGood(txns, db, next) && Disjoint(s, db, db.shared, txns, next.helds) && s !in next.reach
        && (db as object) !in next.reach
  {
    hide Database.Valid, Good, Disjoint, Engine.Commit;
    assert txns.Keys == scene.views.Keys && txns.Keys == scene.helds.Keys;
    GoodFacts(t, db, scene.views[id], scene.helds[id]);
    Outsiders(s, db, db.shared, txns, scene.helds);
    Rivals(s, db, db.shared, txns, scene.helds, id);
    ghost var shared := db.shared;
    result := CommitAlone(t);
    DisjointFinish(s, db, shared, txns, scene.helds, id, db.shared);
    AllGoodWith(txns, db, scene, id, t, t.View(), NOTHING);
    assert txns[id := t] == txns;
    next := SceneWith(scene, id, t.View(), NOTHING);
  }

  method ActRollback(ghost s: object, db: Database, ghost txns: map<nat, Transaction>, ghost scene: Scene,
                     ghost id: nat, t: Transaction) returns (ghost next: Scene)
    requires db.Valid() && AllGood(txns, db, scene) && Disjoint(s, db, db.shared, txns, scene.helds)
    requires id in txns && id in scene.helds && id in scene.views && txns[id] == t
    requires t.status.Active? && s !in scene.reach && (db as object) !in scene.reach
    modifies t
    ensures db.Valid()
    ensures next.views == scene.views[id :=
              scene.views[id].(status := Engine.RolledBack, working := map[], changes := [], generated := [])]
    ensures next.own == scene.own
    ensures AllGood(txns, db, next) && Disjoint(s, db, db.shared, txns, next.helds) && s !in next.reach
        && (db as object) !in next.reach
  {
    hide Database.Valid, Good, Disjoint;
    assert txns.Keys == scene.views.Keys && txns.Keys == scene.helds.Keys;
    GoodFacts(t, db, scene.views[id], scene.helds[id]);
    Outsiders(s, db, db.shared, txns, scene.helds);
    Rivals(s, db, db.shared, txns, scene.helds, id);
    t.Rollback();
    FinishedIsGood(t);
    DisjointFinish(s, db, db.shared, txns, scene.helds, id, db.shared);
    AllGoodWith(txns, db, scene, id, t, t.View(), NOTHING);
    assert txns[id := t] == txns;
    next := SceneWith(scene, id, t.View(), NOTHING);
  }

  lemma CommitStep(s: Engine.System, limits: Engine.Limits, id: nat, root: Engine.Root, result: Engine.CommitResult)
    requires Engine.IsActive(s, id) && (root, result) == Engine.Commit(s.root, s.open, s.txns[id])
    ensures var done := if result.Receipted? then Engine.Committed else Engine.RolledBack;
            Engine.Step(s, limits, Engine.TryCommit(id)) == Engine.System(
              root, s.open, s.txns[id := s.txns[id].(status := done)],
              s.history + (if result.Receipted? then [Engine.Outcome(s.txns[id].log, result.receipt)] else []))
  {
  }

  method ActBegin(ghost s: object, db: Database, ghost txns: map<nat, Transaction>, ghost scene: Scene, ghost id: nat)
    returns (t: Transaction, ghost next: Scene)
    requires db.Valid() && AllGood(txns, db, scene) && Disjoint(s, db, db.shared, txns, scene.helds)
    requires id !in txns && s !in scene.reach && (db as object) !in scene.reach
    ensures fresh(t) && db.Valid() && next.own == scene.own && next.views == scene.views[id := Engine.FRESH]
    ensures AllGood(txns[id := t], db, next) && Disjoint(s, db, db.shared, txns[id := t], next.helds)
    ensures s !in next.reach && (db as object) !in next.reach
  {
    hide Database.Valid, Good, Disjoint;
    assert txns.Keys == scene.views.Keys && txns.Keys == scene.helds.Keys;
    t := new Transaction(db);
    FreshIsGood(t);
    AllGoodWith(txns, db, scene, id, t, Engine.FRESH, NOTHING);
    DisjointAdd(s, db, db.shared, txns, scene.helds, id, t);
    next := SceneWith(scene, id, Engine.FRESH, NOTHING);
  }

  class Session {
    const database: Database
    var txns: map<nat, Transaction>
    ghost var history: seq<Engine.Outcome>
    ghost var scene: Scene

    ghost predicate Valid()
      reads this, database, database.shared, database.keySets, txns.Values, scene.reach, scene.keySets
    {
      && database.Valid()
      && this as object !in scene.reach && (database as object) !in scene.reach
      && AllGood(txns, database, scene)
      && Disjoint(this, database, database.shared, txns, scene.helds)
    }

    ghost function View(): Engine.System
      reads this, database
    {
      Engine.System(database.Root(), database.open, scene.views, history)
    }

    constructor (database: Database)
      requires database.Valid() && database.open
      ensures Valid() && this.database == database && View() == Engine.Start(database.Root())
      ensures txns == map[] && scene.own == {}
    {
      this.database := database;
      txns, history, scene := map[], [], Scene(map[], map[], {}, {}, {});
      new;
      database.StoredFacts([]);
    }

    /** The objects one transaction may write. */
    ghost function Own(id: nat): set<object>
      reads this
    {
      if id in txns && id in scene.helds then {txns[id]} + scene.helds[id].own else {}
    }

    /** None of them is committed. */
    lemma OwnIsPrivate(id: nat)
      requires Valid()
      ensures Own(id) !! database.shared && this as object !in database.shared
          && (database as object) !in database.shared
      ensures forall o :: o in Own(id) ==> o in txns.Values || o in scene.own
      ensures forall o :: o in Own(id) ==> !(o is KeySet)
    {
      hide Database.Valid, Good;
    }

    method Begin(id: nat)
      requires Valid()
      modifies this
      ensures Valid() && scene.own == old(scene.own) && fresh(txns.Values - old(txns.Values))
      ensures View() == Engine.Step(old(View()), database.limits, Engine.Begin(id))
    {
      hide Database.Valid, Good, AllGood, Disjoint;
      Members(txns, database, scene);
      Outsiders(this, database, database.shared, txns, scene.helds);
      if database.open && id !in txns {
        var t, next := ActBegin(this, database, txns, scene, id);
        txns := txns[id := t];
        scene := next;
      }
    }

    method Operate(id: nat, op: Engine.Op)
      requires Valid()
      modifies this, Own(id)
      ensures Valid() && fresh(scene.own - old(scene.own)) && txns == old(txns)
      ensures View() == Engine.Step(old(View()), database.limits, Engine.Operate(id, op))
    {
      hide Database.Valid, Good, AllGood, Disjoint, Engine.Perform;
      Members(txns, database, scene);
      Outsiders(this, database, database.shared, txns, scene.helds);
      if id !in txns { return; }
      var t := txns[id];
      if !t.status.Active? { return; }
      Rivals(this, database, database.shared, txns, scene.helds, id);
      ghost var next := Act(this, database, txns, scene, id, t, op);
      Outsiders(this, database, database.shared, txns, next.helds);
      scene := next;
    }

    method TryCommit(id: nat)
      requires Valid()
      modifies this, database, Own(id)
      ensures Valid() && scene.own == old(scene.own) && txns == old(txns)
      ensures View() == Engine.Step(old(View()), database.limits, Engine.TryCommit(id))
    {
      hide Database.Valid, Good, AllGood, Disjoint, Engine.Commit;
      Members(txns, database, scene);
      Outsiders(this, database, database.shared, txns, scene.helds);
      if id !in txns { return; }
      var t := txns[id];
      if !t.status.Active? { return; }
      Rivals(this, database, database.shared, txns, scene.helds, id);
      var result;
      ghost var next;
      result, next := ActCommit(this, database, txns, scene, id, t);
      Outsiders(this, database, database.shared, txns, next.helds);
      CommitStep(old(View()), database.limits, id, database.Root(), result);
      if result.Receipted? { history := history + [Engine.Outcome(scene.views[id].log, result.receipt)]; }
      scene := next;
    }

    method Rollback(id: nat)
      requires Valid()
      modifies this, Own(id)
      ensures Valid() && scene.own == old(scene.own) && txns == old(txns)
      ensures View() == Engine.Step(old(View()), database.limits, Engine.Rollback(id))
    {
      hide Database.Valid, Good, AllGood, Disjoint;
      Members(txns, database, scene);
      Outsiders(this, database, database.shared, txns, scene.helds);
      if id !in txns { return; }
      var t := txns[id];
      if !t.status.Active? { return; }
      Rivals(this, database, database.shared, txns, scene.helds, id);
      ghost var next := ActRollback(this, database, txns, scene, id, t);
      Outsiders(this, database, database.shared, txns, next.helds);
      scene := next;
    }

    method Close()
      requires Valid()
      modifies database
      ensures Valid()
      ensures View() == Engine.Step(old(View()), database.limits, Engine.Close)
    {
      hide Good, AllGood, Disjoint, Database.Bound;
      Outsiders(this, database, database.shared, txns, scene.helds);
      database.open := false;
    }

    method Reopen()
      requires Valid()
      modifies database
      ensures Valid()
      ensures View() == Engine.Step(old(View()), database.limits, Engine.Reopen)
    {
      hide Good, AllGood, Disjoint, Database.Bound;
      Outsiders(this, database, database.shared, txns, scene.helds);
      database.open := true;
    }
  }

  /** The transaction an event is about, if it is about one. */
  function Subject(e: Engine.Event): Option<nat> {
    match e
    case Begin(id) => Some(id)
    case Operate(id, _) => Some(id)
    case TryCommit(id) => Some(id)
    case Rollback(id) => Some(id)
    case _ => None
  }

  ghost function Writes(s: Session, e: Engine.Event): set<object>
    reads s
  {
    if Subject(e).Some? then s.Own(Subject(e).value) else {}
  }

  /** One event does what the state machine says. It writes only what its own transaction owns:
      whether that transaction reads, writes, commits, meets a conflict or rolls back, no layer and
      no bucket set reachable from what was committed before is changed, though its own layers and
      buckets stand on those very objects. */
  method Handle(s: Session, e: Engine.Event)
    requires s.Valid()
    modifies s, s.database, Writes(s, e)
    ensures s.Valid() && fresh(s.scene.own - old(s.scene.own)) && fresh(s.txns.Values - old(s.txns.Values))
    ensures s.View() == Engine.Step(old(s.View()), s.database.limits, e)
    ensures forall o :: o in old(s.database.shared) ==> unchanged(o)
    ensures forall o :: o in old(s.database.keySets) ==> unchanged(o)
  {
    hide Session.Valid, Session.View, Session.Own, Engine.Step;
    s.OwnIsPrivate(Subject(e).GetOr(0));
    match e
    case Begin(id) => s.Begin(id);
    case Operate(id, op) => s.Operate(id, op);
    case TryCommit(id) => s.TryCommit(id);
    case Rollback(id) => s.Rollback(id);
    case Close => s.Close();
    case Reopen => s.Reopen();
  }

  /** Every schedule over a valid database runs as the state machine says, and ends where the
      committed transactions, run alone one after another, would have ended, each having seen
      what it would have seen alone. */
  method Interleave(database: Database, events: seq<Engine.Event>) returns (ghost history: seq<Engine.Outcome>)
    requires database.Valid() && database.open
    modifies database
    ensures database.Valid()
    ensures var end := Engine.Run(Engine.Start(old(database.Root())), database.limits, events);
            end.root == database.Root() && end.history == history
    ensures Serial(old(database.Root()), database.limits, Batches(history)) == (database.Root(), history)
  {
    hide Session.Valid, Database.Valid, Engine.Step, Serial;
    ghost var seed := database.Root();
    SeedOk(database);
    var s := new Session(database);
    for i := 0 to |events|
      invariant s.Valid() && s.database == database && fresh(s) && fresh(s.scene.own) && fresh(s.txns.Values)
      invariant s.View() == Engine.Run(Engine.Start(seed), database.limits, events[..i])
    {
      assert events[..i + 1][..i] == events[..i];
      s.OwnIsPrivate(Subject(events[i]).GetOr(0));
      Handle(s, events[i]);
    }
    assert events[..|events|] == events;
    Serializable(seed, database.limits, events);
    ValidDatabase(s);
    history := s.history;
  }

  lemma SeedOk(database: Database)
    requires database.Valid()
    ensures Engine.RootOk(database.Root())
  {
  }

  lemma ValidDatabase(s: Session)
    requires s.Valid()
    ensures s.database.Valid()
  {
  }

  lemma IsGood(t: Transaction)
    requires t.Valid() && t.status.Active?
    ensures Good(t, t.database, t.View(), t.held)
  {
  }

  lemma Members(txns: map<nat, Transaction>, db: Database, scene: Scene)
    requires AllGood(txns, db, scene)
    ensures txns.Keys == scene.views.Keys && txns.Keys == scene.helds.Keys
    ensures forall id :: id in txns ==>
              && txns[id].status == scene.views[id].status
              && Good(txns[id], db, scene.views[id], scene.helds[id])
              && scene.helds[id].own <= scene.own && scene.helds[id].reach <= scene.reach
  {
  }

  lemma GoodFacts(t: Transaction, db: Database, v: Engine.Txn, h: Held)
    requires Good(t, db, v, h)
    ensures t.database == db && t.View() == v && t.status == v.status
    ensures t.status.Active? ==> t.Valid() && t.held == h
  {
  }

  lemma Rivals(s: object, db: Database, shared: set<object>, txns: map<nat, Transaction>, helds: map<nat, Held>,
               id: nat)
    requires Disjoint(s, db, shared, txns, helds) && id in txns
    ensures helds[id].own !! shared && NoKeySets(helds[id].own) && helds[id].own <= helds[id].reach
    ensures (txns[id] as object) !in helds[id].reach && s !in helds[id].reach && (db as object) !in helds[id].reach
    ensures forall i :: i in txns && i != id ==>
              && txns[i] != txns[id]
              && (txns[id] as object) !in helds[i].reach && (txns[i] as object) !in helds[id].reach
              && helds[id].own !! helds[i].reach
  {
  }

  lemma FreshIsGood(t: Transaction)
    requires t.Valid() && t.held == NOTHING && t.View() == Engine.FRESH
    ensures Good(t, t.database, Engine.FRESH, NOTHING)
  {
  }
}
