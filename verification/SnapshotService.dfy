/** Creating and restoring snapshots over a storage engine (storage/snapshot_manager.py,
    storage/restore_service.py), proved against the functions of module Snapshots. */
module SnapshotService {
  import opened Metadata
  import Order
  import R = BlockRows
  import C = BlockCache
  import E = StorageEngine
  import opened Snapshots
  import opened SnapshotPromises

  class SnapshotManager {
    const store: SnapshotStore
    const engine: E.StorageEngine

    constructor (store: SnapshotStore, engine: E.StorageEngine)
      ensures this.store == store && this.engine == engine
    {
      this.store, this.engine := store, engine;
    }

    /** Stores or shares the copy that was read, if any, and points the snapshot at it. */
    method KeepRead(sid: SnapshotId, b: BlockId, block: Option<R.Row>) returns (size: nat)
      requires store.Valid()
      modifies store
      ensures store.View() == (if block == None then old(store.View()) else Kept(old(store.View()), sid, b, block.value))
      ensures size == if block.Some? && block.value.Live? then R.Utf8Size(block.value.data) else 0
    {
      size := 0;
      if block.Some? {
        if block.value.Live? {
          size := R.Utf8Size(block.value.data);
        }
        var vid := store.GetOrCreateBlockVersion(b, block.value);
        store.AddSnapshotBlock(sid, b, vid);
      }
    }

    /** create_snapshot for whatever the reads return while the engine is written to, up to one
        that raises if failed. */
    method CreateSnapshotOf(seen: Reads, failed: bool) returns (sid: SnapshotId)
      requires store.Valid() && DistinctReads(seen)
      modifies store
      ensures store.Valid() && sid == old(store.next) && store.View() == Create(old(store.View()), seen, failed)
      ensures Recorded(old(store.View()), sid, failed, |seen|, |BytesRead(seen)|, store.View())
    {
      ghost var s0 := store.View();
      CreationIsRecorded(s0, seen, failed);
      hide Recorded, BytesRead;
      CreateIsSound(s0, seen, failed);
      sid := store.CreateSnapshotRecord();
      var size := 0;
      var k := 0;
      hide Take, Size, Sound, DistinctReads, Kept;
      NoneTaken(s0, seen);
      while k < |seen|
        invariant k <= |seen| && store.View() == Take(Begin(s0), sid, seen[..k]) && size == Size(seen[..k])
        modifies store
      {
        TakenSoFar(s0, seen, k);
        TakeStep(Begin(s0), sid, seen, k);
        var more := KeepRead(sid, seen[k].0, seen[k].1);
        size := size + more;
        k := k + 1;
      }
      assert seen[..k] == seen;
      store.FinalizeSnapshot(sid, if failed then SnapshotRow(Failed, 0, 0) else SnapshotRow(Ready, |seen|, size));
    }

    /** Reads one block and keeps what was read. */
    method KeepBlock(sid: SnapshotId, b: BlockId) returns (size: nat)
      requires store.Valid() && engine.Valid()
      modifies store, engine.cache
      ensures engine.Valid() && engine.db.rows == old(engine.db.rows)
      ensures var row := C.LiveRow(engine.db.rows, b);
              && store.View() == (if row == None then old(store.View()) else Kept(old(store.View()), sid, b, row.value))
              && size == if row.Some? && row.value.Live? then R.Utf8Size(row.value.data) else 0
    {
      hide C.Coherent, Sound;
      var block := engine.ReadBlock(b);
      size := KeepRead(sid, b, block);
    }

    /** With no write to the engine meanwhile; then every listed block is found. */
    method CreateSnapshot() returns (sid: SnapshotId)
      requires store.Valid() && engine.Valid()
      modifies store, engine.cache
      ensures store.Valid() && engine.Valid() && engine.db.rows == old(engine.db.rows)
      ensures sid == old(store.next)
      ensures store.View() == Create(old(store.View()), ReadsOf(engine.db.rows), false)
      ensures Recorded(old(store.View()), sid, false, |LiveRows(engine.db.rows)|, |LiveBytes(engine.db.rows)|, store.View())
    {
      ghost var s0 := store.View();
      TableIsRecorded(s0, engine.db.rows);
      hide Recorded, LiveBytes, LiveRows;
      ghost var seen := ReadsOf(engine.db.rows);
      ReadsOfIs(engine.db.rows);
      CreateIsSound(s0, seen, false);
      sid := store.CreateSnapshotRecord();
      var ids := engine.db.ListBlocks();
      ListsTheReads(engine.db.rows, ids);
      hide ReadsOf, Take, Size, Sound, C.Coherent, DistinctReads, Took, Kept, C.LiveRow;
      var size := KeepBlocks(sid, ids, s0, seen);
      store.FinalizeSnapshot(sid, SnapshotRow(Ready, |ids|, size));
    }

    /** Reads the listed blocks one by one, from a table that does not change meanwhile. */
    method KeepBlocks(sid: SnapshotId, ids: seq<BlockId>, ghost s0: Store, ghost seen: Reads) returns (size: nat)
      requires engine.Valid() && Sound(s0) && DistinctReads(seen) && sid == s0.next
      requires store.View() == Begin(s0) && |ids| == |seen|
      requires forall x | 0 <= x < |ids| :: seen[x] == (ids[x], C.LiveRow(engine.db.rows, ids[x]))
      modifies store, engine.cache
      ensures engine.Valid() && engine.db.rows == old(engine.db.rows)
      ensures store.View() == Take(Begin(s0), sid, seen) && size == Size(seen)
    {
      hide Take, Size, Sound, C.Coherent, DistinctReads, Kept, C.LiveRow;
      NoneTaken(s0, seen);
      size := 0;
      var k := 0;
      while k < |ids|
        invariant k <= |ids| && engine.Valid() && engine.db.rows == old(engine.db.rows)
        invariant store.View() == Take(Begin(s0), sid, seen[..k])
        invariant size == Size(seen[..k])
        modifies store, engine.cache
      {
        TakenSoFar(s0, seen, k);
        TakeStep(Begin(s0), sid, seen, k);
        var more := KeepBlock(sid, ids[k]);
        size := size + more;
        k := k + 1;
      }
      assert seen[..k] == seen;
    }

    method DeleteSnapshot(sid: SnapshotId) returns (deleted: bool)
      requires store.Valid()
      modifies store
      ensures store.Valid() && deleted == (sid in old(store.snapshots))
      ensures store.View() == StepStore(old(store.View()), DeleteOp(sid))
    {
      ghost var extra :| ExactBut(store.View(), extra);
      DeleteIsExact(store.View(), sid, extra);
      if sid !in store.snapshots {
        return false;
      }
      var size := store.DeleteSnapshot(sid);
      deleted := size.Some?;
    }
  }

  lemma NoneTaken(s: Store, seen: Reads)
    ensures Take(Begin(s), s.next, seen[..0]) == Begin(s) && Size(seen[..0]) == 0
  {
  }

  lemma TakeStep(s: Store, sid: SnapshotId, seen: Reads, k: nat)
    requires k < |seen|
    ensures var (b, row) := seen[k];
            var before := Take(s, sid, seen[..k]);
            && Take(s, sid, seen[..k + 1]) == (if row == None then before else Kept(before, sid, b, row.value))
            && Size(seen[..k + 1]) == Size(seen[..k]) + if row.Some? && row.value.Live? then R.Utf8Size(row.value.data) else 0
  {
    assert seen[..k + 1][..k] == seen[..k];
  }

  lemma ListsTheReads(t: R.Table, ids: seq<BlockId>)
    requires ids == Order.SortSet(set b | b in t && t[b].Live?)
    ensures |ids| == |ReadsOf(t)|
    ensures forall x | 0 <= x < |ids| :: ReadsOf(t)[x] == (ids[x], C.LiveRow(t, ids[x])) && C.LiveRow(t, ids[x]).Some?
  {
    assert (set b | b in t && t[b].Live?) == LiveRows(t).Keys;
    ReadsOfIs(t);
  }

  lemma CreateIsSound(s: Store, seen: Reads, failed: bool)
    requires Sound(s) && DistinctReads(seen)
    ensures Sound(Create(s, seen, failed))
  {
    hide ExactBut, Create, DistinctReads;
    var extra :| ExactBut(s, extra);
    CreateIsExact(s, seen, failed, extra);
  }

  lemma TakenSoFar(s: Store, seen: Reads, k: nat)
    requires Sound(s) && DistinctReads(seen) && k <= |seen|
    ensures Sound(Take(Begin(s), s.next, seen[..k]))
  {
    var extra :| ExactBut(s, extra);
    NothingYet(s);
    RowsOnlyIsExact(s, Begin(s).snapshots, Begin(s).next, extra);
    TakeEffect(Begin(s), s.next, seen[..k], extra);
  }

  datatype RestoreJob = RestoreJob(completed: bool, blocksRestored: nat)

  function WithStatus(s: Store, sid: SnapshotId, status: Status): Store {
    if sid in s.snapshots then s.(snapshots := s.snapshots[sid := s.snapshots[sid].(status := status)]) else s
  }

  /** A known snapshot unless it is being created or restored. */
  predicate Restorable(s: Store, sid: SnapshotId) {
    sid in s.snapshots && (s.snapshots[sid].status == Ready || s.snapshots[sid].status == Failed)
  }

  /** clears says whether clear_blocks is wired, to purge_all_blocks. */
  class RestoreService {
    const store: SnapshotStore
    const engine: E.StorageEngine
    const clears: bool

    constructor (store: SnapshotStore, engine: E.StorageEngine, clears: bool)
      ensures this.store == store && this.engine == engine && this.clears == clears
    {
      this.store, this.engine, this.clears := store, engine, clears;
    }

    method UpdateStatus(sid: SnapshotId, status: Status)
      modifies store
      ensures store.View() == WithStatus(old(store.View()), sid, status)
      ensures sid !in old(store.snapshots) ==> store.snapshots == old(store.snapshots)
    {
      if sid in store.snapshots {
        store.snapshots := store.snapshots[sid := store.snapshots[sid].(status := status)];
      }
    }

    /** Writes one block back; false if the engine refuses it. */
    method WriteOne(b: BlockId, row: R.Row) returns (ok: bool)
      requires engine.Valid()
      modifies engine, engine.cache, engine.oplog, engine.db
      ensures engine.Valid() && ok == R.Accepted(old(engine.db.rows), RestoreRequest(b, row))
      ensures engine.db.rows == R.Perform(old(engine.db.rows), RestoreRequest(b, row))
    {
      hide C.Coherent, R.Decide;
      var d;
      if row.Tombstone? {
        d := engine.DeleteLocal(b, Some(row.version), true);
      } else {
        d := engine.WriteLocal(b, row.data, Some(row.version), true);
      }
      ok := d.Log? || d.AlreadyThere?;
    }

    method Clear()
      requires engine.Valid()
      modifies engine.cache, engine.db
      ensures engine.Valid() && engine.db.rows == if clears then map[] else old(engine.db.rows)
    {
      if clears {
        engine.PurgeAllBlocks();
      }
    }

    /** Writes rows one by one, up to the first that is refused. */
    method WriteAll(listing: Listing) returns (ok: bool, restored: nat)
      requires engine.Valid()
      modifies engine, engine.cache, engine.oplog, engine.db
      ensures engine.Valid() && WriteBack(old(engine.db.rows), listing) == Restored(engine.db.rows, ok, restored)
    {
      hide C.Coherent, R.Decide, R.Perform, R.Accepted, RestoreRequest;
      ghost var t := engine.db.rows;
      ok, restored := true, 0;
      var k := 0;
      while ok && k < |listing|
        invariant k <= |listing| && engine.Valid()
        invariant WriteBack(t, listing[..k]) == Restored(engine.db.rows, ok, restored)
      {
        RefusedChangesNothing(engine.db.rows, listing[k].0, listing[k].1);
        assert listing[..k + 1][..k] == listing[..k];
        ok := WriteOne(listing[k].0, listing[k].1);
        if ok {
          restored := restored + 1;
        }
        k := k + 1;
      }
      assert listing[..|listing|] == listing;
      if !ok {
        StoppedEarly(t, listing, k);
      }
    }

    /** The live blocks that the snapshot does not hold, in whatever order a set is gone through. */
    method LeftoverBlocks(listing: Listing, ghost rows: map<BlockId, R.Row>) returns (order: seq<BlockId>)
      requires listing == Listed(rows)
      ensures Enumerates(order, Leftover(engine.db.rows, rows))
    {
      ListedIs(rows);
      var current := engine.db.ListBlocks();
      var todo := set b | b in current && forall x | 0 <= x < |listing| :: listing[x].0 != b;
      assert todo == Leftover(engine.db.rows, rows);
      order := InSomeOrder(todo);
    }

    static method InSomeOrder(ids: set<BlockId>) returns (order: seq<BlockId>)
      ensures Enumerates(order, ids)
    {
      order := [];
      var todo := ids;
      while todo != {}
        invariant todo <= ids && Enumerates(order, ids - todo)
        decreases |todo|
      {
        var b :| b in todo;
        order := order + [b];
        todo := todo - {b};
      }
    }

    /** Not completed also stands for the exception that a refused block raises. */
    method RestoreSnapshot(sid: SnapshotId) returns (job: RestoreJob, ghost order: seq<BlockId>)
      requires engine.Valid()
      modifies store, engine, engine.cache, engine.oplog, engine.db
      ensures engine.Valid()
      ensures !Restorable(old(store.View()), sid) ==>
                job == RestoreJob(false, 0) && store.View() == old(store.View()) && engine.db.rows == old(engine.db.rows)
      ensures Restorable(old(store.View()), sid) ==>
                var t, rows := if clears then map[] else old(engine.db.rows), SnapshotBlocks(old(store.View()), sid);
                var r := Restore(t, rows, order);
                && Enumerates(order, Leftover(t, rows))
                && job == RestoreJob(r.ok, r.blocks)
                && engine.db.rows == r.table
                && store.View() == WithStatus(old(store.View()), sid, Ready)
      ensures sid !in old(store.snapshots) || old(store.snapshots)[sid].status in {Creating, Restoring} ==>
                job == RestoreJob(false, 0) && store.View() == old(store.View()) && engine.db.rows == old(engine.db.rows)
      ensures sid in old(store.snapshots) && old(store.snapshots)[sid].status in {Ready, Failed} ==>
                && store.snapshots == old(store.snapshots)[sid := old(store.snapshots)[sid].(status := Ready)]
                && store.View() == old(store.View()).(snapshots := store.snapshots)
                && (job.completed ==> job.blocksRestored == |SnapshotBlocks(old(store.View()), sid)|)
    {
      order := [];
      if sid !in store.snapshots {
        return RestoreJob(false, 0), order;
      }
      if store.snapshots[sid].status != Ready && store.snapshots[sid].status != Failed {
        return RestoreJob(false, 0), order;
      }
      job, order := RestoreFound(sid);
      WrittenIs(if clears then map[] else old(engine.db.rows), SnapshotBlocks(old(store.View()), sid));
    }

    method RestoreFound(sid: SnapshotId) returns (job: RestoreJob, ghost order: seq<BlockId>)
      requires engine.Valid()
      modifies store, engine, engine.cache, engine.oplog, engine.db
      ensures engine.Valid()
      ensures var t, rows := if clears then map[] else old(engine.db.rows), SnapshotBlocks(old(store.View()), sid);
              var r := Restore(t, rows, order);
              && Enumerates(order, Leftover(t, rows))
              && job == RestoreJob(r.ok, r.blocks)
              && engine.db.rows == r.table
      ensures store.View() == WithStatus(old(store.View()), sid, Ready)
    {
      hide *;
      ghost var s0 := store.View();
      ghost var rows := SnapshotBlocks(s0, sid);
      ghost var t := if clears then map[] else engine.db.rows;
      StatusShowsSame(s0, sid, Restoring);
      LastStatusStays(s0, sid, Restoring, Ready);
      UpdateStatus(sid, Restoring);
      var listing := store.GetSnapshotBlocks(sid);
      Clear();
      var ok, restored := WriteAll(listing);
      ghost var written := engine.db.rows;
      order := LeftoverInOrder(t, rows);
      if ok {
        var leftover := LeftoverBlocks(listing, rows);
        SameLeftoverWritten(t, rows);
        order := leftover;
        var gone, _ := WriteAll(Marks(leftover));
        ok := gone;
      }
      RestoreUnfolds(t, rows, order);
      UpdateStatus(sid, Ready);
      job := RestoreJob(ok, restored);
    }
  }

  lemma LeftoverInOrder(t: R.Table, rows: map<BlockId, R.Row>) returns (order: seq<BlockId>)
    ensures Enumerates(order, Leftover(t, rows))
  {
    Order.SortSetIsSorted(Leftover(t, rows));
    order := Order.SortSet(Leftover(t, rows));
    forall x, y | 0 <= x < y < |order|
      ensures order[x] != order[y]
    {
      Order.BelowIsStrict(order[x], order[y]);
    }
    assert forall b :: b in order <==> b in Order.Elements(order);
  }

  lemma SameLeftoverWritten(t: R.Table, rows: map<BlockId, R.Row>)
    ensures Leftover(WriteBack(t, Listed(rows)).table, rows) == Leftover(t, rows)
  {
    WrittenIs(t, rows);
    SameLeftover(t, WriteBack(t, Listed(rows)).table, rows);
  }

  lemma RestoreUnfolds(t: R.Table, rows: map<BlockId, R.Row>, order: seq<BlockId>)
    ensures var written := WriteBack(t, Listed(rows));
            Restore(t, rows, order) == if !written.ok then written else WriteBack(written.table, Marks(order)).(blocks := written.blocks)
  {
  }

  lemma LastStatusStays(s: Store, sid: SnapshotId, first: Status, last: Status)
    ensures WithStatus(WithStatus(s, sid, first), sid, last) == WithStatus(s, sid, last)
  {
  }

  lemma RefusedChangesNothing(t: R.Table, b: BlockId, row: R.Row)
    ensures !R.Accepted(t, RestoreRequest(b, row)) ==> R.Perform(t, RestoreRequest(b, row)) == t
  {
  }

  lemma StatusShowsSame(s: Store, sid: SnapshotId, status: Status)
    ensures SnapshotBlocks(WithStatus(s, sid, status), sid) == SnapshotBlocks(s, sid)
  {
    SameBlocks(s, WithStatus(s, sid, status), sid);
  }

  /** Once a block is refused, nothing further is written. */
  lemma {:induction false} StoppedEarly(t: R.Table, listing: Listing, k: nat)
    requires k <= |listing| && !WriteBack(t, listing[..k]).ok
    ensures WriteBack(t, listing) == WriteBack(t, listing[..k])
  {
    if k < |listing| {
      var n := |listing| - 1;
      assert listing[..n][..k] == listing[..k];
      StoppedEarly(t, listing[..n], k);
    } else {
      assert listing[..k] == listing;
    }
  }
}
