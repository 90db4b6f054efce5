/** The storage engine of one node as objects: cache, operation log, extent store and the engine
    over them (node/cache.py, node/oplog.py, node/extent_store.py, node/storage_engine.py).  Each
    method is proved to do what the functions of BlockCache, OplogLines and CrashRecovery say. */
module StorageEngine {
  import opened Metadata
  import Order
  import R = BlockRows
  import opened OplogLines
  import C = BlockCache
  import N = CrashRecovery

  class Cache {
    const max: nat
    var store: C.Cached

    constructor (max: nat)
      ensures this.max == max && store == []
    {
      this.max := max;
      store := [];
    }

    method Put(b: BlockId, r: R.Row)
      requires |store| <= max
      modifies this
      ensures store == C.Put(old(store), b, r, max)
    {
      C.DroppedLength(store, b);
      store := C.Dropped(store, b) + [(b, r)];
      ghost var full := store;
      while |store| > max
        invariant |full| <= max + 1
        invariant C.Trimmed(store, max) == C.Trimmed(full, max)
        decreases |store|
      {
        store := store[1..];
      }
    }

    method Get(b: BlockId) returns (r: Option<R.Row>)
      modifies this
      ensures r == C.Lookup(old(store), b) && store == C.Touched(old(store), b)
    {
      r := C.Lookup(store, b);
      if r.Some? {
        store := C.Dropped(store, b) + [(b, r.value)];
      }
    }

    method Remove(b: BlockId)
      modifies this
      ensures store == C.Dropped(old(store), b)
      ensures C.Lookup(store, b) == None && forall c | c != b :: C.Lookup(store, c) == C.Lookup(old(store), c)
      ensures C.Distinct(old(store)) ==> C.Distinct(store) && |store| == |old(store)| - (if C.Has(old(store), b) then 1 else 0)
    {
      forall c
        ensures C.Lookup(C.Dropped(store, b), c) == if c == b then None else C.Lookup(store, c)
      {
        C.DroppedForgets(store, b, c);
      }
      if C.Distinct(store) {
        C.DroppedKeeps(store, b);
      }
      store := C.Dropped(store, b);
    }
  }

  class ExtentStore {
    var rows: R.Table
    var cursor: nat

    ghost function Contents(): Db
      reads this
    {
      Db(rows, cursor)
    }

    constructor (db: Db)
      ensures Contents() == db
    {
      rows, cursor := db.rows, db.cursor;
    }

    method SaveIfNewer(b: BlockId, data: string, version: int)
      modifies this`rows
      ensures rows == R.SaveIfNewer(old(rows), b, version, data)
    {
      if b !in rows {
        rows := rows[b := R.Live(version, data)];
      } else if version > rows[b].version {
        rows := rows[b := R.Live(version, data)];
      }
    }

    method TombstoneIfNewer(b: BlockId, version: int)
      modifies this`rows
      ensures rows == R.TombstoneIfNewer(old(rows), b, version)
    {
      if b !in rows {
        rows := rows[b := R.Tombstone(version)];
      } else if version > rows[b].version || (version == rows[b].version && rows[b].Live?) {
        rows := rows[b := R.Tombstone(version)];
      }
    }

    method SetReplayCursor(lsn: nat)
      modifies this`cursor
      ensures cursor == lsn
    {
      cursor := lsn;
    }

    /** The live blocks in id order. */
    method ListBlocks() returns (blocks: seq<BlockId>)
      ensures blocks == Order.SortSet(set b | b in rows && rows[b].Live?)
      ensures Order.Increasing(blocks) && forall b :: b in blocks <==> C.LiveRow(rows, b).Some?
    {
      var live := set b | b in rows && rows[b].Live?;
      blocks := Order.SortSet(live);
      Order.SortSetIsSorted(live);
      assert forall b :: b in blocks <==> b in Order.Elements(blocks);
    }
  }

  class Oplog {
    var lines: seq<Line>
    var highWater: nat
    var nextLsn: nat

    ghost predicate Valid()
      reads this
    {
      Clean(lines) && highWater == HighWater(Entries(lines)) && nextLsn == N.NextLsn(lines)
    }

    constructor (lines: seq<Line>)
      ensures this.lines == lines
    {
      this.lines := lines;
      highWater, nextLsn := 0, 1;
    }

    method ScanHighWaterMark() returns (max: nat)
      ensures max == HighWater(Entries(Recovered(lines)))
    {
      RecoveredIsCleanPrefix(lines);
      hide Recovered, HighWater, Entries;
      NoEntries();
      max := 0;
      var k := 0;
      while k < |lines|
        invariant k <= |Recovered(lines)|
        invariant max == HighWater(Entries(lines[..k]))
      {
        if lines[k].Torn? {
          break;
        }
        EntriesOneMore(lines, k);
        if lines[k].Good? {
          HighWaterSnoc(Entries(lines[..k]), lines[k].entry);
          if lines[k].entry.lsn > max {
            max := lines[k].entry.lsn;
          }
        }
        k := k + 1;
      }
      assert k == |Recovered(lines)|;
      assert lines[..k] == Recovered(lines);
    }

    method Recover()
      modifies this
      ensures Valid() && lines == Recovered(old(lines))
    {
      RecoveredIsCleanPrefix(lines);
      hide Recovered, HighWater, Entries;
      var lastGood := 0;
      while lastGood < |lines|
        invariant lastGood <= |Recovered(lines)| <= |lines|
      {
        if lines[lastGood].Torn? {
          break;
        }
        lastGood := lastGood + 1;
      }
      assert lastGood == |Recovered(lines)|;
      lines := lines[..lastGood];
      assert lines == Recovered(old(lines));
      RecoveredIsCleanPrefix(lines);
      assert Recovered(lines) == lines;
      highWater := ScanHighWaterMark();
      nextLsn := highWater + 1;
    }

    method Append(c: R.Change) returns (lsn: nat)
      requires Valid()
      modifies this
      ensures Valid() && lsn == old(nextLsn) == N.NextLsn(old(lines))
      ensures lines == old(lines) + [Good(Logged(lsn, c))]
    {
      lsn := AppendEntry(Logged(nextLsn, c));
    }

    method AppendEntry(e: Entry) returns (lsn: nat)
      requires Valid() && e.lsn == nextLsn
      modifies this
      ensures Valid() && lsn == e.lsn && lines == old(lines) + [Good(e)]
    {
      EntriesSnoc(lines, e);
      HighWaterSnoc(Entries(lines), e);
      lines := lines + [Good(e)];
      lsn := nextLsn;
      highWater := nextLsn;
      nextLsn := nextLsn + 1;
    }

    method IterEntries() returns (es: seq<Entry>)
      requires Valid()
      ensures es == Entries(lines)
    {
      es := [];
      var k := 0;
      while k < |lines|
        invariant k <= |lines| && es == Entries(lines[..k])
      {
        EntriesOneMore(lines, k);
        if lines[k].Good? {
          es := es + [lines[k].entry];
        }
        k := k + 1;
      }
      assert lines[..k] == lines;
    }

    method Compact(through: nat)
      requires Valid()
      modifies this
      ensures Valid() && lines == AsLines(Compacted(Entries(old(lines)), through))
    {
      var es := IterEntries();
      var kept := [];
      var k := 0;
      while k < |es|
        invariant k <= |es| && kept == Compacted(es[..k], through)
      {
        assert es[..k + 1][..k] == es[..k];
        if !es[k].Checkpoint? && es[k].lsn > through {
          kept := kept + [es[k]];
        }
        k := k + 1;
      }
      assert es[..k] == es;
      lines := AsLines(kept);
      EntriesOfLines(kept);
      RecoveredIsCleanPrefix(lines);
      assert Recovered(lines) == lines;
      highWater := ScanHighWaterMark();
      nextLsn := highWater + 1;
    }
  }

  /** now is the largest of before and what the checkpoints name that a replay from this cursor goes through. */
  ghost predicate LargestCheckpoint(es: seq<Entry>, cursor: nat, before: nat, now: nat) {
    && before <= now
    && (now == before || exists e :: e in es && e.Checkpoint? && e.through == now)
    && (Ordered(es) ==> forall e | e in es && e.Checkpoint? && e.lsn > cursor :: e.through <= now)
  }

  lemma NoCheckpoint(es: seq<Entry>, cursor: nat, now: nat)
    ensures LargestCheckpoint(es[..0], cursor, now, now)
  {
  }

  lemma CheckpointOneMore(es: seq<Entry>, k: nat, db: Db, before: nat, now: nat)
    requires k < |es| && LargestCheckpoint(es[..k], db.cursor, before, now)
    ensures var e, at := es[k], Replay(db, es[..k]).cursor;
            var skipped := e.lsn != 0 && e.lsn <= at;
            LargestCheckpoint(es[..k + 1], db.cursor, before, if !skipped && e.Checkpoint? && e.through > now then e.through else now)
  {
    assert es[..k + 1] == es[..k] + [es[k]];
    ReplayCursor(db, es[..k]);
    if Ordered(es[..k + 1]) {
      OrderedHighWater(es[..k + 1]);
      assert es[..k + 1][..k] == es[..k];
      assert Ordered(es[..k]);
    }
  }

  class StorageEngine {
    const cache: Cache
    const oplog: Oplog
    const db: ExtentStore
    var lastCheckpointLsn: nat

    ghost function Node(): N.Node
      reads this, oplog, db
    {
      N.Node(oplog.lines, [db.Contents()])
    }

    ghost function Memory(): C.Memory
      reads this, cache, db
    {
      C.Memory(db.rows, cache.store, cache.max)
    }

    ghost predicate Valid()
      reads this, cache, oplog, db
    {
      oplog.Valid() && C.Coherent(Memory())
    }

    /** Opens whatever a crash left on disk. */
    constructor (lines: seq<Line>, disk: Db, checkpointLsn: nat, maxEntries: nat)
      ensures Valid() && fresh(cache) && fresh(oplog) && fresh(db)
      ensures var n := N.Restart(lines, [disk]);
              oplog.lines == n.lines && db.Contents() == N.Current(n)
      ensures LargestCheckpoint(Entries(oplog.lines), disk.cursor, checkpointLsn, lastCheckpointLsn)
    {
      cache := new Cache(maxEntries);
      oplog := new Oplog(lines);
      db := new ExtentStore(disk);
      lastCheckpointLsn := checkpointLsn;
      new;
      oplog.Recover();
      ReplayOplog();
    }

    method ApplyWriteEntry(b: BlockId, data: string, version: int)
      requires C.Coherent(Memory())
      modifies cache, db`rows
      ensures C.Coherent(Memory()) && Memory() == C.Store(old(Memory()), R.Write(b, version, data))
    {
      C.StoreIsCoherent(Memory(), R.Write(b, version, data));
      db.SaveIfNewer(b, data, version);
      if db.rows[b].Live? {
        cache.Put(b, db.rows[b]);
      }
    }

    method ApplyDeleteEntry(b: BlockId, version: int)
      requires C.Coherent(Memory())
      modifies cache, db`rows
      ensures C.Coherent(Memory()) && Memory() == C.Store(old(Memory()), R.Delete(b, version))
    {
      C.StoreIsCoherent(Memory(), R.Delete(b, version));
      db.TombstoneIfNewer(b, version);
      cache.Remove(b);
    }

    method ApplyEntry(e: Entry)
      requires C.Coherent(Memory())
      modifies this`lastCheckpointLsn, cache, db`rows
      ensures C.Coherent(Memory()) && db.rows == OplogLines.ApplyEntry(old(db.rows), e)
      ensures lastCheckpointLsn == if e.Checkpoint? && e.through > old(lastCheckpointLsn) then e.through else old(lastCheckpointLsn)
    {
      match e
      case Logged(_, Write(b, version, data)) => ApplyWriteEntry(b, data, version);
      case Logged(_, Delete(b, version)) => ApplyDeleteEntry(b, version);
      case Checkpoint(_, through) =>
        if through > lastCheckpointLsn {
          lastCheckpointLsn := through;
        }
    }

    method ReplayOplog()
      requires Valid()
      modifies this`lastCheckpointLsn, cache, db
      ensures Valid() && db.Contents() == Replay(old(db.Contents()), Entries(oplog.lines))
      ensures LargestCheckpoint(Entries(oplog.lines), old(db.cursor), old(lastCheckpointLsn), lastCheckpointLsn)
    {
      var appliedLsn := db.cursor;
      var es := oplog.IterEntries();
      hide LargestCheckpoint, C.Coherent, Ordered;
      NoCheckpoint(es, appliedLsn, lastCheckpointLsn);
      var k := 0;
      while k < |es|
        invariant k <= |es| && Valid()
        invariant Db(db.rows, appliedLsn) == Replay(old(db.Contents()), es[..k])
        invariant LargestCheckpoint(es[..k], old(db.cursor), old(lastCheckpointLsn), lastCheckpointLsn)
      {
        CheckpointOneMore(es, k, old(db.Contents()), old(lastCheckpointLsn), lastCheckpointLsn);
        assert es[..k + 1] == es[..k] + [es[k]];
        ReplaySnoc(old(db.Contents()), es[..k], es[k]);
        var lsn := es[k].lsn;
        if !(lsn != 0 && lsn <= appliedLsn) {
          ApplyEntry(es[k]);
          if lsn != 0 {
            appliedLsn := lsn;
          }
        }
        k := k + 1;
      }
      assert es[..k] == es;
      db.SetReplayCursor(appliedLsn);
    }

    method ResolveWriteVersion(b: BlockId, version: Option<int>) returns (resolved: Option<int>)
      ensures resolved == if version == None then Some(R.CurrentVersion(db.rows, b) + 1)
                          else if version.value <= R.CurrentVersion(db.rows, b) then None else version
    {
      var current := if b in db.rows then db.rows[b].version else 0;
      if version == None {
        return Some(current + 1);
      }
      if version.value <= current {
        return None;
      }
      return version;
    }

    /** A node that is served the request, in memory and on disk. */
    twostate predicate Served(r: R.Request)
      reads this, cache, oplog, db
    {
      && Memory() == C.Step(old(Memory()), C.Serve(r))
      && oplog.lines == N.Next(old(Node()), N.Serve(r)).lines
      && db.Contents() == N.Current(N.Next(old(Node()), N.Serve(r)))
    }

    /** Appends the change to the log and applies it. */
    method LogAndApply(c: R.Change, ghost r: R.Request)
      requires Valid() && R.Decide(db.rows, r) == R.Log(c)
      modifies this, cache, oplog, db
      ensures Valid() && Served(r)
    {
      hide C.Coherent, C.Store, HighWater, Entries, R.Decide;
      StoreApplies(Memory(), c);
      var _ := oplog.Append(c);
      match c {
        case Write(b, version, data) => ApplyWriteEntry(b, data, version);
        case Delete(b, version) => ApplyDeleteEntry(b, version);
      }
      assert Memory() == C.Store(old(Memory()), c);
    }

    static lemma StoreApplies(m: C.Memory, c: R.Change)
      ensures C.Store(m, c).rows == R.Apply(m.rows, c)
    {
    }

    /** allow_idempotent comes with a version. */
    method WriteLocal(b: BlockId, data: string, version: Option<int>, allowIdempotent: bool) returns (d: R.Decision)
      requires Valid() && (allowIdempotent ==> version.Some?)
      modifies this, cache, oplog, db
      ensures Valid()
      ensures var r := if allowIdempotent then R.ReplicaWrite(b, data, version.value) else R.LocalWrite(b, data, version);
              d == R.Decide(old(db.rows), r) && Served(r)
    {
      hide C.Coherent, C.Store, HighWater, Entries;
      ghost var r := if allowIdempotent then R.ReplicaWrite(b, data, version.value) else R.LocalWrite(b, data, version);
      var resolved := version;
      if allowIdempotent {
        if b in db.rows && db.rows[b].Live? {
          if db.rows[b].version > version.value {
            return R.Conflict(db.rows[b].version);
          }
          if db.rows[b].version == version.value {
            return R.AlreadyThere(version.value);
          }
        }
      } else {
        if !R.ValidWrite(b, data, version) {
          return R.Invalid;
        }
        resolved := ResolveWriteVersion(b, version);
        if resolved == None {
          return R.Conflict(R.CurrentVersion(db.rows, b));
        }
      }
      d := R.Log(R.Write(b, resolved.value, data));
      assert R.Decide(db.rows, r) == d;
      LogAndApply(d.change, r);
    }

    method DeleteLocal(b: BlockId, version: Option<int>, allowIdempotent: bool) returns (d: R.Decision)
      requires Valid()
      modifies this, cache, oplog, db
      ensures Valid()
      ensures var r := if allowIdempotent then R.ReplicaDelete(b, version) else R.LocalDelete(b, version);
              d == R.Decide(old(db.rows), r) && Served(r)
    {
      hide C.Coherent, C.Store, HighWater, Entries;
      ghost var r := if allowIdempotent then R.ReplicaDelete(b, version) else R.LocalDelete(b, version);
      if !allowIdempotent && !R.ValidBlockId(b) {
        return R.Invalid;
      }
      if allowIdempotent && version.Some? {
        if b in db.rows {
          if db.rows[b].version > version.value {
            return R.Conflict(db.rows[b].version);
          }
          if db.rows[b].version >= version.value && db.rows[b].Tombstone? {
            return R.AlreadyThere(db.rows[b].version);
          }
        }
      }
      var resolved := if version.Some? then version.value else (if b in db.rows then db.rows[b].version else 0) + 1;
      d := R.Log(R.Delete(b, resolved));
      assert R.Decide(db.rows, r) == d;
      LogAndApply(d.change, r);
    }

    method ReadBlock(b: BlockId) returns (r: Option<R.Row>)
      requires Valid()
      modifies cache
      ensures Valid() && r == C.LiveRow(db.rows, b)
      ensures Memory() == C.AfterRead(old(Memory()), b)
    {
      C.ReadIsCoherent(Memory(), b);
      var cached := cache.Get(b);
      if cached.Some? {
        return cached;
      }
      if b !in db.rows || db.rows[b].Tombstone? {
        return None;
      }
      cache.Put(b, db.rows[b]);
      return Some(db.rows[b]);
    }

    method PurgeAllBlocks()
      requires Valid()
      modifies cache, db
      ensures Valid() && Memory() == C.Step(old(Memory()), C.Purge) && db.cursor == old(db.cursor)
      ensures db.rows == map[] && cache.store == []
    {
      db.rows := map[];
      cache.store := [];
    }

    method TakeCheckpoint(throughLsn: nat) returns (lsn: nat)
      requires Valid()
      modifies this, oplog, db
      ensures Valid() && lsn == N.CheckpointLsn(old(Node()), throughLsn) && lastCheckpointLsn == lsn
      ensures var n := N.Next(old(Node()), N.CheckpointTo(throughLsn));
              oplog.lines == n.lines && db.Contents() == N.Current(n)
    {
      hide HighWater, Entries, Compacted, Clean, C.Coherent;
      lsn := if throughLsn != 0 then throughLsn else oplog.highWater;
      var _ := oplog.AppendEntry(Checkpoint(oplog.nextLsn, lsn));
      lastCheckpointLsn := lsn;
      oplog.Compact(lsn);
      db.SetReplayCursor(lsn);
    }
  }
}
