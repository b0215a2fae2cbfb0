/** A disk that can lose power: file contents are safe once synced, directory entries once the
    directory is, and directory changes reach the disk in the order they were made. */
module Disks {
  import opened Texts
  import opened SnapshotFiles

  /** `Whole` is the complete file of a snapshot, `Broken` anything else; whether a whole file can be
      read back is another question. */
  datatype Content = Whole(snapshot: Snapshot) | Broken

  datatype Inode = Inode(content: Content, synced: bool)

  datatype Name = Primary | Backup | Temporary(n: nat)

  datatype DirOp = Link(name: Name, inode: nat) | Move(from: Name, to: Name) | Drop(name: Name)

  type Dir = map<Name, nat>

  /** The directory on disk, the changes not yet there, and the files. */
  datatype DiskState = DiskState(durable: Dir, pending: seq<DirOp>, inodes: map<nat, Inode>, next: nat)

  function ApplyOp(dir: Dir, op: DirOp): Dir {
    match op
    case Link(name, inode) => dir[name := inode]
    case Move(from, to) => if from in dir then (dir - {from})[to := dir[from]] else dir
    case Drop(name) => dir - {name}
  }

  function ApplyOps(dir: Dir, ops: seq<DirOp>): Dir
    decreases |ops|
  {
    if ops == [] then dir else ApplyOp(ApplyOps(dir, ops[..|ops| - 1]), ops[|ops| - 1])
  }

  /** The directory if only the first `k` changes had reached the disk. */
  function DirAt(d: DiskState, k: nat): Dir
    requires k <= |d.pending|
  {
    ApplyOps(d.durable, d.pending[..k])
  }

  function FileIn(dir: Dir, inodes: map<nat, Inode>, name: Name): Option<Inode> {
    if name in dir && dir[name] in inodes then Some(inodes[dir[name]]) else None
  }

  /** What a reader would find under the two names that matter. */
  datatype Look = Look(primary: Option<Inode>, backup: Option<Inode>)

  function LookIn(dir: Dir, inodes: map<nat, Inode>): Look {
    Look(FileIn(dir, inodes, Primary), FileIn(dir, inodes, Backup))
  }

  function LookAt(d: DiskState, k: nat): Look
    requires k <= |d.pending|
  {
    LookIn(DirAt(d, k), d.inodes)
  }

  function Now(d: DiskState): Look {
    LookAt(d, |d.pending|)
  }

  /* ---------- the primitives ---------- */

  function Created(d: DiskState): DiskState {
    DiskState(d.durable, d.pending + [Link(Temporary(d.next), d.next)],
              d.inodes[d.next := Inode(Broken, false)], d.next + 1)
  }

  function Written(d: DiskState, inode: nat, content: Content): DiskState {
    d.(inodes := d.inodes[inode := Inode(content, false)])
  }

  function Flushed(d: DiskState, inode: nat): DiskState
    requires inode in d.inodes
  {
    d.(inodes := d.inodes[inode := d.inodes[inode].(synced := true)])
  }

  function Renamed(d: DiskState, from: Name, to: Name): DiskState {
    d.(pending := d.pending + [Move(from, to)])
  }

  function Unlinked(d: DiskState, name: Name): DiskState {
    d.(pending := d.pending + [Drop(name)])
  }

  function DirectorySynced(d: DiskState): DiskState {
    d.(durable := DirAt(d, |d.pending|), pending := [])
  }

  /** Power is lost: some first part of the directory changes made it, and the named files, none
      of them synced, are damaged. */
  function Crashed(d: DiskState, k: nat, damaged: set<nat>): DiskState
    requires k <= |d.pending|
  {
    DiskState(DirAt(d, k), [],
              map i | i in d.inodes ::
                if i in damaged && !d.inodes[i].synced then Inode(Broken, false) else d.inodes[i],
              d.next)
  }

  /* ---------- what the primitives do to the two names ---------- */

  /** Every file was made by this disk. */
  ghost predicate WellFormed(d: DiskState) {
    && (forall i :: i in d.inodes ==> i < d.next)
    && (forall n :: n in d.durable ==> d.durable[n] < d.next)
    && forall i :: 0 <= i < |d.pending| && d.pending[i].Link? ==> d.pending[i].inode < d.next
  }

  lemma {:induction false} DirsBounded(d: DiskState, k: nat)
    requires WellFormed(d) && k <= |d.pending|
    ensures forall n :: n in DirAt(d, k) ==> DirAt(d, k)[n] < d.next
    decreases k
  {
    if k > 0 {
      DirsBounded(d, k - 1);
      assert d.pending[..k][..k - 1] == d.pending[..k - 1];
      assert DirAt(d, k) == ApplyOp(DirAt(d, k - 1), d.pending[k - 1]);
    }
  }

  lemma DirNext(d: DiskState, op: DirOp)
    ensures var d' := d.(pending := d.pending + [op]);
            && (forall k :: 0 <= k <= |d.pending| ==> DirAt(d', k) == DirAt(d, k))
            && DirAt(d', |d.pending| + 1) == ApplyOp(DirAt(d, |d.pending|), op)
  {
    var d' := d.(pending := d.pending + [op]);
    forall k | 0 <= k <= |d.pending|
      ensures DirAt(d', k) == DirAt(d, k)
    {
      assert d'.pending[..k] == d.pending[..k];
    }
    assert d'.pending[..|d.pending| + 1][..|d.pending|] == d.pending[..|d.pending|];
  }

  /** A rename moves the file from one name to the other, and an unlink takes its name away; no other
      name is affected. */
  lemma NamesAfter(d: DiskState, from: Name, to: Name, other: Name)
    requires from != to && other != from && other != to
    ensures var before := DirAt(d, |d.pending|);
            var renamed, gone := Renamed(d, from, to), Unlinked(d, from);
            var after, without := DirAt(renamed, |renamed.pending|), DirAt(gone, |gone.pending|);
            && (from in before ==> from !in after && to in after && after[to] == before[from])
            && (from !in before ==> after == before)
            && from !in without && (to in without <==> to in before) && (to in before ==> without[to] == before[to])
            && (other in after <==> other in before) && (other in before ==> after[other] == before[other])
            && renamed.inodes == d.inodes == gone.inodes
  {
    DirNext(d, Move(from, to));
    DirNext(d, Drop(from));
  }

  /** A crash of `d` could have shown this. */
  ghost predicate Possible(d: DiskState, look: Look) {
    exists k :: 0 <= k <= |d.pending| && LookAt(d, k) == look
  }

  /** From `d0` to `d` nothing changed but, perhaps, what is found now; and whatever a crash would
      show in between was already possible, or is what is found now. */
  ghost predicate Reached(d0: DiskState, d: DiskState, look: Look) {
    && WellFormed(d)
    && Now(d) == look
    && forall k :: 0 <= k <= |d.pending| ==> Possible(d0, LookAt(d, k)) || LookAt(d, k) == look
  }

  lemma ReachedRefl(d: DiskState)
    requires WellFormed(d)
    ensures Reached(d, d, Now(d))
  {
    forall k | 0 <= k <= |d.pending|
      ensures Possible(d, LookAt(d, k))
    {
    }
  }

  /** Steps that find the same as before add nothing. */
  lemma ReachedTrans(d0: DiskState, d1: DiskState, d2: DiskState, look: Look)
    requires Reached(d0, d1, look) && Reached(d1, d2, look)
    ensures Reached(d0, d2, look)
  {
    hide LookAt, Now, WellFormed;
    forall k | 0 <= k <= |d2.pending|
      ensures Possible(d0, LookAt(d2, k)) || LookAt(d2, k) == look
    {
      if LookAt(d2, k) != look {
        assert Possible(d1, LookAt(d2, k));
        var k1 :| 0 <= k1 <= |d1.pending| && LookAt(d1, k1) == LookAt(d2, k);
        assert Possible(d0, LookAt(d1, k1));
      }
    }
  }

  /** A step after one that changed nothing. */
  lemma ReachedAfter(d0: DiskState, d1: DiskState, d2: DiskState, look: Look)
    requires Reached(d0, d1, Now(d0)) && Reached(d1, d2, look)
    ensures Reached(d0, d2, look)
  {
    hide LookAt, WellFormed;
    forall k | 0 <= k <= |d2.pending|
      ensures Possible(d0, LookAt(d2, k)) || LookAt(d2, k) == look
    {
      if LookAt(d2, k) != look {
        assert Possible(d1, LookAt(d2, k));
        var k1 :| 0 <= k1 <= |d1.pending| && LookAt(d1, k1) == LookAt(d2, k);
        assert Possible(d0, LookAt(d0, |d0.pending|));
        assert Possible(d0, LookAt(d1, k1));
      }
    }
  }

  lemma Appended(d: DiskState, op: DirOp, look: Look)
    requires WellFormed(d) && WellFormed(d.(pending := d.pending + [op]))
    requires Now(d.(pending := d.pending + [op])) == look
    ensures Reached(d, d.(pending := d.pending + [op]), look)
  {
    var d' := d.(pending := d.pending + [op]);
    DirNext(d, op);
    forall k | 0 <= k <= |d'.pending|
      ensures Possible(d, LookAt(d', k)) || LookAt(d', k) == look
    {
      if k <= |d.pending| { assert LookAt(d', k) == LookAt(d, k); }
    }
  }

  lemma CreatedFinds(d: DiskState)
    requires WellFormed(d)
    ensures Reached(d, Created(d), Now(d))
    ensures var dir := DirAt(Created(d), |d.pending| + 1);
            Temporary(d.next) in dir && dir[Temporary(d.next)] == d.next
  {
    var op := Link(Temporary(d.next), d.next);
    var d' := Created(d);
    DirNext(d, op);
    forall k | 0 <= k <= |d'.pending|
      ensures LookAt(d', k) == LookAt(d, if k <= |d.pending| then k else |d.pending|)
    {
      var k0 := if k <= |d.pending| then k else |d.pending|;
      DirsBounded(d, k0);
      assert DirAt(d', k) == DirAt(d.(pending := d.pending + [op]), k);
    }
    forall k | 0 <= k <= |d'.pending|
      ensures Possible(d, LookAt(d', k))
    {
      assert LookAt(d', k) == LookAt(d, if k <= |d.pending| then k else |d.pending|);
    }
  }

  /** What is found is synced. */
  ghost predicate FirmLook(look: Look) {
    && (look.primary.Some? ==> look.primary.value.synced)
    && (look.backup.Some? ==> look.backup.value.synced)
  }

  /** A file with no entry under either name, now or after any crash, can be changed unseen. */
  ghost predicate Apart(d: DiskState, inode: nat) {
    inode in d.inodes && forall k :: 0 <= k <= |d.pending| ==> Unnamed(DirAt(d, k), inode)
  }

  ghost predicate Unnamed(dir: Dir, inode: nat) {
    (Primary in dir ==> dir[Primary] != inode) && (Backup in dir ==> dir[Backup] != inode)
  }

  lemma ChangedUnseen(d: DiskState, inode: nat, file: Inode)
    requires WellFormed(d) && Apart(d, inode)
    ensures var d' := d.(inodes := d.inodes[inode := file]);
            Reached(d, d', Now(d)) && Apart(d', inode)
            && forall k :: 0 <= k <= |d.pending| ==> DirAt(d', k) == DirAt(d, k)
  {
    var d' := d.(inodes := d.inodes[inode := file]);
    forall k | 0 <= k <= |d'.pending|
      ensures LookAt(d', k) == LookAt(d, k)
    {
      assert DirAt(d', k) == DirAt(d, k);
      assert Unnamed(DirAt(d, k), inode);
    }
    assert forall k :: 0 <= k <= |d.pending| ==> DirAt(d', k) == DirAt(d, k);
    forall k | 0 <= k <= |d'.pending|
      ensures Possible(d, LookAt(d', k))
    {
    }
  }

  lemma CreatedApart(d: DiskState)
    requires WellFormed(d)
    ensures Apart(Created(d), d.next)
  {
    var d' := Created(d);
    DirNext(d, Link(Temporary(d.next), d.next));
    forall k | 0 <= k <= |d'.pending|
      ensures Unnamed(DirAt(d', k), d.next)
    {
      var k0 := if k <= |d.pending| then k else |d.pending|;
      DirsBounded(d, k0);
      assert DirAt(d', k) == DirAt(d.(pending := d.pending + [Link(Temporary(d.next), d.next)]), k);
    }
  }

  /** A look with one of its names replaced. */
  function With(look: Look, name: Name, file: Inode): Look
    requires !name.Temporary?
  {
    if name.Primary? then look.(primary := Some(file)) else look.(backup := Some(file))
  }

  lemma RenamedFinds(d: DiskState, n: nat, to: Name)
    requires WellFormed(d) && !to.Temporary?
    requires Temporary(n) in DirAt(d, |d.pending|) && DirAt(d, |d.pending|)[Temporary(n)] in d.inodes
    ensures Reached(d, Renamed(d, Temporary(n), to),
                    With(Now(d), to, d.inodes[DirAt(d, |d.pending|)[Temporary(n)]]))
  {
    DirNext(d, Move(Temporary(n), to));
    Appended(d, Move(Temporary(n), to), With(Now(d), to, d.inodes[DirAt(d, |d.pending|)[Temporary(n)]]));
  }

  lemma UnlinkedFinds(d: DiskState, n: nat)
    requires WellFormed(d)
    ensures Reached(d, Unlinked(d, Temporary(n)), Now(d))
  {
    DirNext(d, Drop(Temporary(n)));
    Appended(d, Drop(Temporary(n)), Now(d));
  }

  lemma SyncedFinds(d: DiskState)
    requires WellFormed(d)
    ensures Reached(d, DirectorySynced(d), Now(d))
    ensures DirectorySynced(d).pending == []
  {
    var d' := DirectorySynced(d);
    DirsBounded(d, |d.pending|);
    assert DirAt(d', 0) == d'.durable;
    assert LookAt(d', 0) == Now(d);
  }

  /** What is found after a crash is one of the looks that were possible, where those are synced. */
  lemma CrashShows(d: DiskState, k: nat, damaged: set<nat>)
    requires WellFormed(d) && k <= |d.pending| && FirmLook(LookAt(d, k))
    ensures WellFormed(Crashed(d, k, damaged)) && Now(Crashed(d, k, damaged)) == LookAt(d, k)
    ensures Crashed(d, k, damaged).pending == []
  {
    var d' := Crashed(d, k, damaged);
    DirsBounded(d, k);
    assert DirAt(d', 0) == d'.durable;
  }

  /* ---------- a file on its way to a name ---------- */

  /** A temporary file, not yet findable under either name, with nothing else changed. */
  ghost predicate Staged(d0: DiskState, d: DiskState, n: nat) {
    && Reached(d0, d, Now(d0))
    && Apart(d, n)
    && Temporary(n) in DirAt(d, |d.pending|) && DirAt(d, |d.pending|)[Temporary(n)] == n
  }

  lemma StagedCreate(d: DiskState)
    requires WellFormed(d)
    ensures Staged(d, Created(d), d.next)
  {
    CreatedFinds(d);
    CreatedApart(d);
  }

  lemma StagedChange(d0: DiskState, d: DiskState, n: nat, file: Inode)
    requires Staged(d0, d, n)
    ensures Staged(d0, d.(inodes := d.inodes[n := file]), n)
  {
    hide Now;
    ChangedUnseen(d, n, file);
    ReachedTrans(d0, d, d.(inodes := d.inodes[n := file]), Now(d0));
  }

  /** The rename that publishes it; the change before it stays possible until the directory is synced. */
  lemma StagedRename(d0: DiskState, d: DiskState, n: nat, to: Name)
    requires Staged(d0, d, n) && !to.Temporary?
    ensures var d' := Renamed(d, Temporary(n), to);
            Reached(d0, d', With(Now(d0), to, d.inodes[n]))
            && |d'.pending| > 0 && LookAt(d', |d'.pending| - 1) == Now(d0)
  {
    hide Now;
    RenamedFinds(d, n, to);
    ReachedAfter(d0, d, Renamed(d, Temporary(n), to), With(Now(d0), to, d.inodes[n]));
    DirNext(d, Move(Temporary(n), to));
    LookBefore(d, Move(Temporary(n), to));
  }

  lemma LookBefore(d: DiskState, op: DirOp)
    ensures LookAt(d.(pending := d.pending + [op]), |d.pending|) == Now(d)
  {
    DirNext(d, op);
  }

  lemma AbandonedReached(d0: DiskState, d: DiskState, n: nat, look: Look)
    requires Reached(d0, d, look)
    ensures Reached(d0, Unlinked(d, Temporary(n)), look)
  {
    UnlinkedFinds(d, n);
    ReachedTrans(d0, d, Unlinked(d, Temporary(n)), look);
  }

  lemma SyncedReached(d0: DiskState, d: DiskState, look: Look)
    requires Reached(d0, d, look)
    ensures Reached(d0, DirectorySynced(d), look) && DirectorySynced(d).pending == []
  {
    SyncedFinds(d);
    ReachedTrans(d0, d, DirectorySynced(d), look);
  }

  /* ---------- the disk as an object ---------- */

  /** What a primitive does: work, fail without effect, fail after its effect, or, for a directory
      sync, report that the platform does not support it. */
  datatype Fault = Fine | Before | After | Unsupported

  /** A script of faults; past its end everything works. */
  function FaultAt(faults: seq<Fault>, i: nat): Fault {
    if i < |faults| then faults[i] else Fine
  }

  predicate Stops(fault: Fault) {
    fault.Before? || fault.After?
  }

  /** None of the `n` primitives from `at` on fails. */
  predicate Runs(faults: seq<Fault>, at: nat, n: nat) {
    forall i :: at <= i < at + n ==> !Stops(FaultAt(faults, i))
  }

  class Disk {
    var state: DiskState
    /** Which fault each primitive meets, and how many primitives have run. */
    var faults: seq<Fault>
    var step: nat
    /** Every state passed through, in order. */
    ghost var passed: seq<DiskState>

    constructor (state: DiskState)
      ensures this.state == state && passed == [] && faults == [] && step == 0
    {
      this.state, faults, step, passed := state, [], 0, [];
    }

    /** A new script for the primitives to come. */
    method Follow(faults: seq<Fault>)
      modifies this`faults, this`step
      ensures this.faults == faults && step == 0
    {
      this.faults, step := faults, 0;
    }

    method NextFault() returns (fault: Fault)
      modifies this`step
      ensures fault == FaultAt(faults, old(step)) && step == old(step) + 1
    {
      fault := FaultAt(faults, step);
      step := step + 1;
    }

    /** Exclusive creation of the next temporary file. */
    method Create() returns (ok: bool)
      modifies this`step, this`state, this`passed
      ensures step == old(step) + 1 && passed == old(passed) + [state]
      ensures ok <==> !Stops(FaultAt(faults, old(step)))
      ensures state == if FaultAt(faults, old(step)).Before? then old(state) else Created(old(state))
    {
      var fault := NextFault();
      if !fault.Before? { state := Created(state); }
      passed := passed + [state];
      return !Stops(fault);
    }

    /** Writing may fail part way. */
    method Write(inode: nat, content: Content) returns (ok: bool)
      modifies this`step, this`state, this`passed
      ensures step == old(step) + 1 && passed == old(passed) + [state]
      ensures ok <==> !Stops(FaultAt(faults, old(step)))
      ensures state == match FaultAt(faults, old(step))
                       case Before => old(state)
                       case After => Written(old(state), inode, Broken)
                       case _ => Written(old(state), inode, content)
    {
      var fault := NextFault();
      if fault.After? {
        state := Written(state, inode, Broken);
      } else if !fault.Before? {
        state := Written(state, inode, content);
      }
      passed := passed + [state];
      return !Stops(fault);
    }

    method Sync(inode: nat) returns (ok: bool)
      requires inode in state.inodes
      modifies this`step, this`state, this`passed
      ensures step == old(step) + 1 && passed == old(passed) + [state]
      ensures ok <==> !Stops(FaultAt(faults, old(step)))
      ensures state == if FaultAt(faults, old(step)).Before? then old(state) else Flushed(old(state), inode)
    {
      var fault := NextFault();
      if !fault.Before? { state := Flushed(state, inode); }
      passed := passed + [state];
      return !Stops(fault);
    }

    method Rename(from: Name, to: Name) returns (ok: bool)
      modifies this`step, this`state, this`passed
      ensures step == old(step) + 1 && passed == old(passed) + [state]
      ensures ok <==> !Stops(FaultAt(faults, old(step)))
      ensures state == if FaultAt(faults, old(step)).Before? then old(state) else Renamed(old(state), from, to)
    {
      var fault := NextFault();
      if !fault.Before? { state := Renamed(state, from, to); }
      passed := passed + [state];
      return !Stops(fault);
    }

    method Unlink(name: Name) returns (ok: bool)
      modifies this`step, this`state, this`passed
      ensures step == old(step) + 1 && passed == old(passed) + [state]
      ensures ok <==> !Stops(FaultAt(faults, old(step)))
      ensures state == if FaultAt(faults, old(step)).Before? then old(state) else Unlinked(old(state), name)
    {
      var fault := NextFault();
      if !fault.Before? { state := Unlinked(state, name); }
      passed := passed + [state];
      return !Stops(fault);
    }

    /** `#syncDirectory`: a platform that does not support it counts as success, and nothing is synced. */
    method SyncDirectory() returns (ok: bool)
      modifies this`step, this`state, this`passed
      ensures step == old(step) + 1 && passed == old(passed) + [state]
      ensures ok <==> !Stops(FaultAt(faults, old(step)))
      ensures state == match FaultAt(faults, old(step))
                       case Before | Unsupported => old(state)
                       case _ => DirectorySynced(old(state))
    {
      var fault := NextFault();
      if !fault.Unsupported? && !fault.Before? { state := DirectorySynced(state); }
      passed := passed + [state];
      return !Stops(fault);
    }

    /** Whether a read goes through. */
    method Readable() returns (ok: bool)
      modifies this`step
      ensures step == old(step) + 1 && (ok <==> !Stops(FaultAt(faults, old(step))))
    {
      var fault := NextFault();
      return !Stops(fault);
    }

    /** A power failure, whichever directory changes and file contents it catches. */
    method LosePower(k: nat, damaged: set<nat>)
      requires k <= |state.pending|
      modifies this`state, this`passed
      ensures state == Crashed(old(state), k, damaged) && passed == old(passed) + [state]
    {
      state := Crashed(state, k, damaged);
      passed := passed + [state];
    }
  }
}
