/** The change-event queue: bounded, filled by commits, emptied by one dispatch loop whose
    listeners may themselves commit. */
module Events {
  import opened Texts
  import opened Collections
  import opened Engine
  import opened Serializability
  import opened Changes

  datatype EventLimits = EventLimits(maxQueuedBatches: nat, maxQueuedChanges: nat)

  /** The queue and, for the record, what became of every batch offered to it. */
  datatype Queue = Queue(
    waiting: seq<Batch>,
    counter: int,
    scheduled: bool,
    current: Option<Batch>,
    delivered: seq<Batch>,
    overflowed: seq<Batch>,
    discarded: seq<Batch>)

  const IDLE: Queue := Queue([], 0, false, None, [], [], [])

  function Total(batches: seq<Batch>): nat {
    if batches == [] then 0 else |batches[0].changes| + Total(batches[1..])
  }

  /** `#enqueue`. The overflow hook does not itself commit. */
  function Enqueued(q: Queue, limits: EventLimits, batch: Batch): Queue {
    if |q.waiting| >= limits.maxQueuedBatches || q.counter + |batch.changes| > limits.maxQueuedChanges
    then q.(overflowed := q.overflowed + [batch])
    else q.(waiting := q.waiting + [batch], counter := q.counter + |batch.changes|, scheduled := true)
  }

  function Finished(q: Queue): seq<Batch> {
    if q.current.Some? then [q.current.value] else []
  }

  /** The head of the dispatch loop: the listeners of the batch before are done; take the next
      batch, or stop. */
  function Next(q: Queue): Queue {
    if !q.scheduled then q
    else
      var done := q.(delivered := q.delivered + Finished(q), current := None);
      if q.waiting == [] then done.(scheduled := false)
      else done.(current := Some(q.waiting[0]), waiting := q.waiting[1..],
                 counter := q.counter - |q.waiting[0].changes|)
  }

  /** What closing does: the queue is emptied, its counter is not. */
  function Cleared(q: Queue): Queue {
    q.(waiting := [], discarded := q.discarded + q.waiting)
  }

  function EnqueueAll(q: Queue, limits: EventLimits, batches: seq<Batch>): Queue
    decreases |batches|
  {
    if batches == [] then q else EnqueueAll(Enqueued(q, limits, batches[0]), limits, batches[1..])
  }

  /** One whole dispatch; `reactions[k]` is what listeners publish during the k-th delivery. */
  function Dispatched(q: Queue, limits: EventLimits, reactions: seq<seq<Batch>>): Queue
    decreases |reactions|, |q.waiting|
  {
    if !q.scheduled || q.waiting == [] then Next(q)
    else if reactions == [] then Dispatched(Next(q), limits, [])
    else Dispatched(EnqueueAll(Next(q), limits, reactions[0]), limits, reactions[1..])
  }

  class EventQueue {
    var queue: seq<Batch>
    var queueChanges: int
    var dispatchScheduled: bool
    const limits: EventLimits
    ghost var current: Option<Batch>
    ghost var delivered: seq<Batch>
    ghost var overflowed: seq<Batch>
    ghost var discarded: seq<Batch>

    ghost function View(): Queue
      reads this
    {
      Queue(queue, queueChanges, dispatchScheduled, current, delivered, overflowed, discarded)
    }

    constructor (limits: EventLimits)
      ensures View() == IDLE && this.limits == limits
    {
      queue, queueChanges, dispatchScheduled := [], 0, false;
      current, delivered, overflowed, discarded := None, [], [], [];
      this.limits := limits;
    }

    method Enqueue(batch: Batch)
      modifies this
      ensures View() == Enqueued(old(View()), limits, batch)
      ensures var fits := |old(queue)| < limits.maxQueuedBatches
                          && old(queueChanges) + |batch.changes| <= limits.maxQueuedChanges;
              && queue == (if fits then old(queue) + [batch] else old(queue))
              && overflowed == (if fits then old(overflowed) else old(overflowed) + [batch])
    {
      if |queue| >= limits.maxQueuedBatches || queueChanges + |batch.changes| > limits.maxQueuedChanges {
        overflowed := overflowed + [batch];
        return;
      }
      queue := queue + [batch];
      queueChanges := queueChanges + |batch.changes|;
      if dispatchScheduled { return; }
      dispatchScheduled := true;
    }

    /** The commits listeners make during one delivery. */
    method React(batches: seq<Batch>)
      modifies this
      ensures View() == EnqueueAll(old(View()), limits, batches)
    {
      for i := 0 to |batches|
        invariant EnqueueAll(View(), limits, batches[i..]) == EnqueueAll(old(View()), limits, batches)
      {
        Enqueue(batches[i]);
        assert batches[i..][1..] == batches[i + 1..];
      }
    }

    /** The microtask that a first enqueue schedules. */
    method Dispatch(reactions: seq<seq<Batch>>)
      requires dispatchScheduled && current.None?
      modifies this
      ensures View() == Dispatched(old(View()), limits, reactions)
      ensures queue == [] && !dispatchScheduled && current.None?
    {
      var rest := reactions;
      while queue != []
        invariant dispatchScheduled
        invariant Dispatched(View(), limits, rest) == Dispatched(old(View()), limits, reactions)
        decreases |rest|, |queue|
      {
        hide EnqueueAll;
        var batch := queue[0];
        delivered := delivered + (if current.Some? then [current.value] else []);
        current := Some(batch);
        queue := queue[1..];
        queueChanges := queueChanges - |batch.changes|;
        if rest != [] {
          StaysScheduled(View(), limits, rest[0]);
          React(rest[0]);
          rest := rest[1..];
        }
      }
      delivered := delivered + (if current.Some? then [current.value] else []);
      current := None;
      dispatchScheduled := false;
    }

    method Clear()
      modifies this
      ensures View() == Cleared(old(View()))
    {
      discarded := discarded + queue;
      queue := [];
    }
  }

  lemma {:induction false} StaysScheduled(q: Queue, limits: EventLimits, batches: seq<Batch>)
    requires q.scheduled
    ensures EnqueueAll(q, limits, batches).scheduled
    decreases |batches|
  {
    if batches != [] { StaysScheduled(Enqueued(q, limits, batches[0]), limits, batches[1..]); }
  }

  /* ---------- the queue beside the engine ---------- */

  datatype Stage = Stage(system: System, queue: Queue)

  datatype Happening = Act(event: Event) | Deliver | Drop

  function Advance(s: Stage, limits: Limits, bounds: EventLimits, h: Happening): Stage {
    match h
    case Act(e) =>
      Stage(Step(s.system, limits, e), EnqueueAll(s.queue, bounds, Published(s.system, limits, e)))
    case Deliver => s.(queue := Next(s.queue))
    case Drop => s.(queue := Cleared(s.queue))
  }

  function Play(s: Stage, limits: Limits, bounds: EventLimits, script: seq<Happening>): Stage
    decreases |script|
  {
    if script == [] then s
    else Advance(Play(s, limits, bounds, script[..|script| - 1]), limits, bounds, script[|script| - 1])
  }

  /** The engine's part of a script. */
  function Acts(script: seq<Happening>): seq<Event>
    decreases |script|
  {
    if script == [] then []
    else
      var last := script[|script| - 1];
      Acts(script[..|script| - 1]) + (if last.Act? then [last.event] else [])
  }

  /** Everything delivered, being delivered or waiting, in that order. */
  function Line(q: Queue): seq<Batch> {
    q.delivered + Finished(q) + q.waiting
  }

  ghost predicate Increasing(s: seq<Batch>) {
    forall i, j :: 0 <= i < j < |s| ==> s[i].revision < s[j].revision
  }

  ghost predicate UpTo(s: seq<Batch>, revision: int) {
    forall i :: 0 <= i < |s| ==> s[i].revision <= revision
  }

  /** The bounds, and the counter: the changes that are waiting, and those ever discarded. */
  ghost predicate Bounded(q: Queue, bounds: EventLimits) {
    && |q.waiting| <= bounds.maxQueuedBatches
    && q.counter == Total(q.waiting) + Total(q.discarded) <= bounds.maxQueuedChanges
    && (q.waiting != [] || q.current.Some? ==> q.scheduled)
  }

  /** Every batch published so far is in exactly one place. */
  ghost predicate Conserves(q: Queue, published: seq<Batch>) {
    && (forall batch :: multiset(published)[batch]
          == multiset(q.delivered)[batch] + multiset(Finished(q))[batch] + multiset(q.waiting)[batch]
             + multiset(q.overflowed)[batch] + multiset(q.discarded)[batch])
    && (q.overflowed == [] && q.discarded == [] ==> Line(q) == published)
  }

  ghost predicate QueueOk(q: Queue, bounds: EventLimits, published: seq<Batch>, revision: int) {
    && Bounded(q, bounds)
    && Conserves(q, published)
    && Increasing(Line(q))
    && UpTo(Line(q), revision)
  }

  lemma {:induction false} TotalAppend(s: seq<Batch>, batch: Batch)
    ensures Total(s + [batch]) == Total(s) + |batch.changes|
  {
    if s == [] {
      assert [batch][1..] == [];
    } else {
      TotalAppend(s[1..], batch);
      assert (s + [batch])[1..] == s[1..] + [batch];
    }
  }

  lemma {:induction false} TotalConcat(s: seq<Batch>, more: seq<Batch>)
    ensures Total(s + more) == Total(s) + Total(more)
  {
    if s == [] {
      assert s + more == more;
    } else {
      TotalConcat(s[1..], more);
      assert (s + more)[1..] == s[1..] + more;
    }
  }

  lemma IncreasingAppend(s: seq<Batch>, batch: Batch, revision: int)
    requires Increasing(s) && UpTo(s, revision) && batch.revision == revision + 1
    ensures Increasing(s + [batch]) && UpTo(s + [batch], revision + 1)
    ensures UpTo(s, revision + 1)
  {
  }

  lemma IncreasingPrefix(s: seq<Batch>, more: seq<Batch>, revision: int)
    requires Increasing(s + more) && UpTo(s + more, revision)
    ensures Increasing(s) && UpTo(s, revision)
  {
    assert forall i :: 0 <= i < |s| ==> (s + more)[i] == s[i];
  }

  lemma CountAppend(s: seq<Batch>, batch: Batch)
    ensures multiset(s + [batch]) == multiset(s)[batch := multiset(s)[batch] + 1]
  {
  }

  lemma SameLine(q: Queue, q': Queue)
    requires q.delivered == q'.delivered && q.current == q'.current && q.waiting == q'.waiting
    ensures Line(q) == Line(q')
  {
  }

  lemma SameFinished(q: Queue, q': Queue)
    requires q.current == q'.current
    ensures Finished(q) == Finished(q')
  {
  }

  lemma LineMore(q: Queue, batch: Batch)
    ensures Line(q.(waiting := q.waiting + [batch])) == Line(q) + [batch]
  {
    var before := q.delivered + Finished(q);
    assert before + (q.waiting + [batch]) == (before + q.waiting) + [batch];
  }

  lemma EnqueueConserves(q: Queue, bounds: EventLimits, published: seq<Batch>, batch: Batch)
    requires Conserves(q, published)
    ensures Conserves(Enqueued(q, bounds, batch), published + [batch])
    ensures Line(Enqueued(q, bounds, batch)) == Line(q) + [batch] || Line(Enqueued(q, bounds, batch)) == Line(q)
  {
    hide Line, Finished;
    CountAppend(published, batch);
    var q' := Enqueued(q, bounds, batch);
    SameFinished(q', q);
    if |q'.waiting| > |q.waiting| {
      CountAppend(q.waiting, batch);
      LineMore(q, batch);
      SameLine(q', q.(waiting := q.waiting + [batch]));
    } else {
      CountAppend(q.overflowed, batch);
      SameLine(q', q);
    }
  }

  lemma EnqueueKeeps(q: Queue, bounds: EventLimits, published: seq<Batch>, revision: int, batch: Batch)
    requires QueueOk(q, bounds, published, revision) && batch.revision == revision + 1
    ensures QueueOk(Enqueued(q, bounds, batch), bounds, published + [batch], revision + 1)
  {
    hide Total, Line, Conserves, Increasing, UpTo;
    TotalAppend(q.waiting, batch);
    EnqueueConserves(q, bounds, published, batch);
    IncreasingAppend(Line(q), batch, revision);
  }

  lemma NextKeeps(q: Queue, bounds: EventLimits, published: seq<Batch>, revision: int)
    requires QueueOk(q, bounds, published, revision)
    ensures QueueOk(Next(q), bounds, published, revision)
  {
    if q.scheduled {
      if q.waiting != [] { assert q.waiting == [q.waiting[0]] + q.waiting[1..]; }
      assert Line(Next(q)) == Line(q);
      assert multiset(q.delivered + Finished(q)) == multiset(q.delivered) + multiset(Finished(q));
    }
  }

  lemma ClearConserves(q: Queue, published: seq<Batch>)
    requires Conserves(q, published)
    ensures Conserves(Cleared(q), published)
    ensures Line(q) == Line(Cleared(q)) + q.waiting
  {
    hide Finished;
    var q' := Cleared(q);
    SameFinished(q', q);
    Counts(q.discarded, q.waiting);
    var none: seq<Batch> := [];
    assert q.delivered + Finished(q) + none == q.delivered + Finished(q);
    if q'.discarded == [] { assert q.waiting == []; }
  }

  lemma Counts(a: seq<Batch>, b: seq<Batch>)
    ensures forall batch :: multiset(a + b)[batch] == multiset(a)[batch] + multiset(b)[batch]
  {
    assert multiset(a + b) == multiset(a) + multiset(b);
  }

  lemma ClearKeeps(q: Queue, bounds: EventLimits, published: seq<Batch>, revision: int)
    requires QueueOk(q, bounds, published, revision)
    ensures QueueOk(Cleared(q), bounds, published, revision)
  {
    hide Increasing, UpTo, Conserves, Line;
    var q' := Cleared(q);
    ClearConserves(q, published);
    IncreasingPrefix(Line(q'), q.waiting, revision);
    TotalConcat(q.discarded, q.waiting);
  }

  lemma ActExtends(init: seq<Happening>, h: Happening)
    ensures Acts(init + [h]) == Acts(init) + (if h.Act? then [h.event] else [])
  {
    assert (init + [h])[..|init|] == init;
  }

  lemma AdvanceKeeps(s: Stage, limits: Limits, bounds: EventLimits, h: Happening, published: seq<Batch>)
    requires Accounted(s.system, limits)
    requires QueueOk(s.queue, bounds, published, s.system.root.revision)
    ensures var s' := Advance(s, limits, bounds, h);
            var more := if h.Act? then Published(s.system, limits, h.event) else [];
            QueueOk(s'.queue, bounds, published + more, s'.system.root.revision)
  {
    hide Step, Published, QueueOk, Accounted, Recorded, Fold, AllFit;
    match h
    case Act(e) =>
      StepPublishes(s.system, limits, e);
      var batches := Published(s.system, limits, e);
      if batches == [] {
        assert published + batches == published;
      } else {
        assert batches == [batches[0]];
        OneBatch(s.queue, bounds, batches[0]);
        EnqueueKeeps(s.queue, bounds, published, s.system.root.revision, batches[0]);
      }
    case Deliver => NextKeeps(s.queue, bounds, published, s.system.root.revision);
      assert published + [] == published;
    case Drop => ClearKeeps(s.queue, bounds, published, s.system.root.revision);
      assert published + [] == published;
  }

  lemma OneBatch(q: Queue, bounds: EventLimits, batch: Batch)
    ensures EnqueueAll(q, bounds, [batch]) == Enqueued(q, bounds, batch)
  {
    assert [batch][1..] == [];
  }

  /** Along any run of commits, deliveries and closing, whatever listeners commit while they are
      being called: the bounds hold, the counter is exact until a close discards something,
      every published batch is in exactly one place, and delivered revisions strictly increase. */
  lemma {:induction false} PlayKeeps(seed: Root, limits: Limits, bounds: EventLimits, script: seq<Happening>)
    requires RootOk(seed)
    ensures var s := Play(Stage(Start(seed), IDLE), limits, bounds, script);
            && s.system == Run(Start(seed), limits, Acts(script))
            && QueueOk(s.queue, bounds, Feed(Start(seed), limits, Acts(script)), s.system.root.revision)
    decreases |script|
  {
    hide Step, Published, QueueOk, RootOk;
    if script == [] {
      IdleOk(bounds, seed.revision);
    } else {
      var init, h := script[..|script| - 1], script[|script| - 1];
      PlayKeeps(seed, limits, bounds, init);
      StartAccounted(seed, limits);
      RunAccounted(Start(seed), limits, Acts(init));
      assert script == init + [h];
      ActExtends(init, h);
      AdvanceKeeps(Play(Stage(Start(seed), IDLE), limits, bounds, init), limits, bounds, h,
                   Feed(Start(seed), limits, Acts(init)));
      if h.Act? {
        assert (Acts(init) + [h.event])[..|Acts(init)|] == Acts(init);
      } else {
        assert Acts(init) + [] == Acts(init);
        assert Feed(Start(seed), limits, Acts(init)) + [] == Feed(Start(seed), limits, Acts(init));
      }
    }
  }

  lemma IdleOk(bounds: EventLimits, revision: int)
    ensures QueueOk(IDLE, bounds, [], revision)
  {
  }

  /** There is room for a batch: a place in the queue, and its changes beside those that are
      waiting and those that closing has discarded. */
  predicate HasRoom(q: Queue, bounds: EventLimits, batch: Batch) {
    && |q.waiting| < bounds.maxQueuedBatches
    && Total(q.waiting) + Total(q.discarded) + |batch.changes| <= bounds.maxQueuedChanges
  }

  /** Along any run, a commit that changes something offers its batch to the queue as it is then,
      and the batch overflows exactly when there is no room for it; otherwise it is the last one
      waiting. Nothing else that happens to the queue there, and no other event, touches it. */
  lemma OverflowsExactly(seed: Root, limits: Limits, bounds: EventLimits, script: seq<Happening>, e: Event)
    requires RootOk(seed)
    ensures var s := Play(Stage(Start(seed), IDLE), limits, bounds, script);
            var s' := Advance(s, limits, bounds, Act(e));
            var published := s'.system.root.revision != s.system.root.revision;
            && s'.system == Step(s.system, limits, e)
            && (!published ==> s'.queue == s.queue)
            && (published ==>
                  && e.TryCommit? && IsActive(s.system, e.id)
                  && var batch := Batch(s.system.txns[e.id].changes, s'.system.root.revision);
                     s'.queue ==
                     if HasRoom(s.queue, bounds, batch)
                     then s.queue.(waiting := s.queue.waiting + [batch], counter := s.queue.counter + |batch.changes|,
                                   scheduled := true)
                     else s.queue.(overflowed := s.queue.overflowed + [batch]))
  {
    hide Step, RootOk, Conserves, Increasing, UpTo, Accounted, Total, Recorded, Fold, AllFit;
    PlayKeeps(seed, limits, bounds, script);
    StartAccounted(seed, limits);
    RunAccounted(Start(seed), limits, Acts(script));
    var s := Play(Stage(Start(seed), IDLE), limits, bounds, script);
    StepPublishes(s.system, limits, e);
    var batches := Published(s.system, limits, e);
    if batches != [] {
      assert batches == [batches[0]];
      OneBatch(s.queue, bounds, batches[0]);
    }
  }

  /** Where a batch can be. */
  datatype Place = Delivered | Delivering | Waiting | Overflowed | Discarded

  ghost predicate IsAt(q: Queue, batch: Batch, place: Place) {
    match place
    case Delivered => batch in q.delivered
    case Delivering => q.current == Some(batch)
    case Waiting => batch in q.waiting
    case Overflowed => batch in q.overflowed
    case Discarded => batch in q.discarded
  }

  /** Each published batch is in one and only one of these places. */
  lemma EachInOnePlace(seed: Root, limits: Limits, bounds: EventLimits, script: seq<Happening>, batch: Batch)
    requires RootOk(seed)
    requires batch in Feed(Start(seed), limits, Acts(script))
    ensures var q := Play(Stage(Start(seed), IDLE), limits, bounds, script).queue;
            exists place :: IsAt(q, batch, place) && forall other :: IsAt(q, batch, other) ==> other == place
  {
    hide Run, Play, Feed, Increasing, UpTo, Bounded, RootOk, AllBatchesFit, FoldAll;
    var feed := Feed(Start(seed), limits, Acts(script));
    var q := Play(Stage(Start(seed), IDLE), limits, bounds, script).queue;
    PlayKeeps(seed, limits, bounds, script);
    FeedFolds(seed, limits, Acts(script));
    CountOne(feed, batch);
    CountPlaces(q, feed, batch);
  }

  lemma CountOne(feed: seq<Batch>, batch: Batch)
    requires batch in feed
    requires forall i, j :: 0 <= i < j < |feed| ==> feed[i].revision != feed[j].revision
    ensures multiset(feed)[batch] == 1
  {
    var i :| 0 <= i < |feed| && feed[i] == batch;
    assert feed == feed[..i] + [batch] + feed[i + 1..];
    assert batch !in feed[..i] && batch !in feed[i + 1..];
    assert multiset(feed) == multiset(feed[..i]) + multiset{batch} + multiset(feed[i + 1..]);
  }

  lemma CountPlaces(q: Queue, feed: seq<Batch>, batch: Batch)
    requires Conserves(q, feed) && multiset(feed)[batch] == 1
    ensures exists place :: IsAt(q, batch, place) && forall other :: IsAt(q, batch, other) ==> other == place
  {
    var d, c, w := multiset(q.delivered)[batch], multiset(Finished(q))[batch], multiset(q.waiting)[batch];
    var o, x := multiset(q.overflowed)[batch], multiset(q.discarded)[batch];
    assert d + c + w + o + x == 1;
    assert d > 0 <==> IsAt(q, batch, Delivered);
    assert c > 0 <==> IsAt(q, batch, Delivering);
    assert w > 0 <==> IsAt(q, batch, Waiting);
    assert o > 0 <==> IsAt(q, batch, Overflowed);
    assert x > 0 <==> IsAt(q, batch, Discarded);
    var place := if d > 0 then Delivered else if c > 0 then Delivering else if w > 0 then Waiting
                 else if o > 0 then Overflowed else Discarded;
    assert IsAt(q, batch, place);
  }

  /** A listener that folds what it is given, after a dispatch that lost nothing, holds the
      committed records. */
  lemma ListenersSeeRecords(seed: Root, limits: Limits, bounds: EventLimits, script: seq<Happening>)
    requires RootOk(seed)
    ensures var s := Play(Stage(Start(seed), IDLE), limits, bounds, script); var q := s.queue;
            (q.waiting == [] && q.current.None? && q.overflowed == [] && q.discarded == []) ==>
              FoldAll(Recorded(seed.colls), q.delivered) == Recorded(s.system.root.colls)
  {
    hide Run, Play, Feed, Increasing, UpTo, Bounded, RootOk, AllBatchesFit, FoldAll;
    PlayKeeps(seed, limits, bounds, script);
    FeedFolds(seed, limits, Acts(script));
    var q := Play(Stage(Start(seed), IDLE), limits, bounds, script).queue;
    if q.waiting == [] && q.current.None? { assert Line(q) == q.delivered; }
  }

  /** With no further commits a dispatch delivers everything that was waiting, in order. */
  lemma {:induction false} DispatchDrains(q: Queue, limits: EventLimits)
    requires q.scheduled
    ensures var q' := Dispatched(q, limits, []);
            q'.delivered == Line(q) && q'.waiting == [] && q'.current.None? && !q'.scheduled
            && q'.overflowed == q.overflowed && q'.counter == q.counter - Total(q.waiting)
    decreases |q.waiting|
  {
    if q.waiting != [] {
      DispatchDrains(Next(q), limits);
      assert q.waiting == [q.waiting[0]] + q.waiting[1..];
    }
  }

  /** Once closing has discarded a batch its changes stay counted: the counter overstates the
      queue from then on. */
  lemma ClearLeavesCounter(q: Queue, bounds: EventLimits, published: seq<Batch>, revision: int)
    requires QueueOk(q, bounds, published, revision) && q.discarded == []
    ensures Cleared(q).counter == Total(Cleared(q).waiting) <==> Total(q.waiting) == 0
  {
  }
}
