/** Copy-on-write snapshots and restoring them (storage/snapshot_store.py,
    storage/snapshot_manager.py, storage/restore_service.py).  Uuids are drawn from a counter. */
module Snapshots {
  import opened Metadata
  import Order
  import R = BlockRows

  type SnapshotId = nat
  type VersionId = nat

  datatype Status = Creating | Ready | Failed | Restoring

  datatype SnapshotRow = SnapshotRow(status: Status, blockCount: nat, sizeBytes: nat)

  /** A block_versions row. */
  datatype Copy = Copy(block: BlockId, row: R.Row, refCount: int)

  /** The snapshots, block_versions and snapshot_blocks tables. */
  datatype Store = Store(
    snapshots: map<SnapshotId, SnapshotRow>,
    versions: map<VersionId, Copy>,
    blocks: map<(SnapshotId, BlockId), VersionId>,
    next: nat)

  const EmptyStore := Store(map[], map[], map[], 0)

  // ----- snapshot_store.py -----

  predicate IsVersion(s: Store, vid: VersionId, b: BlockId, version: int) {
    vid in s.versions && s.versions[vid].block == b && s.versions[vid].row.version == version
  }

  ghost function FindVersion(s: Store, b: BlockId, version: int): Option<VersionId> {
    if vid :| IsVersion(s, vid, b, version) then Some(vid) else None
  }

  /** An existing copy is kept as it is, whatever row is offered. */
  ghost function GetOrCreate(s: Store, b: BlockId, row: R.Row): (Store, VersionId) {
    var found := FindVersion(s, b, row.version);
    if found.Some? then
      var vid := found.value;
      (s.(versions := s.versions[vid := s.versions[vid].(refCount := s.versions[vid].refCount + 1)]), vid)
    else (s.(versions := s.versions[s.next := Copy(b, row, 1)], next := s.next + 1), s.next)
  }

  function AddBlock(s: Store, sid: SnapshotId, b: BlockId, vid: VersionId): Store {
    s.(blocks := s.blocks[(sid, b) := vid])
  }

  function BlocksOf(s: Store, sid: SnapshotId): set<BlockId> {
    set key | key in s.blocks && key.0 == sid :: key.1
  }

  /** The join behind get_snapshot_blocks. */
  function SnapshotBlocks(s: Store, sid: SnapshotId): map<BlockId, R.Row> {
    map b | b in BlocksOf(s, sid) && (sid, b) in s.blocks && s.blocks[(sid, b)] in s.versions :: s.versions[s.blocks[(sid, b)]].row
  }

  function RowsOf(s: Store, sid: SnapshotId, vid: VersionId): set<(SnapshotId, BlockId)> {
    set key | key in s.blocks && key.0 == sid && s.blocks[key] == vid
  }

  /** delete_snapshot, once the snapshot has been found. */
  function Delete(s: Store, sid: SnapshotId): Store {
    s.(snapshots := s.snapshots - {sid},
       blocks := map key | key in s.blocks && key.0 != sid :: s.blocks[key],
       versions := map v | v in s.versions && s.versions[v].refCount - |RowsOf(s, sid, v)| > 0 ::
                     s.versions[v].(refCount := s.versions[v].refCount - |RowsOf(s, sid, v)|))
  }

  function Reclaim(s: Store): Store {
    s.(versions := map v | v in s.versions && s.versions[v].refCount > 0 :: s.versions[v])
  }

  // ----- snapshot_manager.py -----

  /** What read_block returned for each listed block. */
  type Reads = seq<(BlockId, Option<R.Row>)>

  predicate DistinctReads(seen: Reads) {
    forall x, y | 0 <= x < y < |seen| :: seen[x].0 != seen[y].0
  }

  ghost function Take(s: Store, sid: SnapshotId, seen: Reads): Store {
    if seen == [] then s
    else
      var before, (b, row) := Take(s, sid, seen[..|seen| - 1]), seen[|seen| - 1];
      if row == None then before
      else
        var (after, vid) := GetOrCreate(before, b, row.value);
        AddBlock(after, sid, b, vid)
  }

  function Size(seen: Reads): nat {
    if seen == [] then 0
    else
      var row := seen[|seen| - 1].1;
      Size(seen[..|seen| - 1]) + if row.Some? && row.value.Live? then R.Utf8Size(row.value.data) else 0
  }

  function Begin(s: Store): Store {
    s.(snapshots := s.snapshots[s.next := SnapshotRow(Creating, 0, 0)], next := s.next + 1)
  }

  function Finalize(s: Store, sid: SnapshotId, row: SnapshotRow): Store {
    if sid in s.snapshots then s.(snapshots := s.snapshots[sid := row]) else s
  }

  /** create_snapshot with id s.next; if a read fails, what was read before it has been kept. */
  ghost function Create(s: Store, seen: Reads, failed: bool): Store {
    var sid := s.next;
    Finalize(Take(Begin(s), sid, seen), sid, if failed then SnapshotRow(Failed, 0, 0) else SnapshotRow(Ready, |seen|, Size(seen)))
  }

  // ----- what one row of a snapshot shows -----

  function RowAt(s: Store, sid: SnapshotId, b: BlockId): Option<R.Row> {
    if (sid, b) in s.blocks && s.blocks[(sid, b)] in s.versions then Some(s.versions[s.blocks[(sid, b)]].row) else None
  }

  lemma SnapshotBlocksAt(s: Store, sid: SnapshotId, b: BlockId)
    ensures b in SnapshotBlocks(s, sid) <==> RowAt(s, sid, b).Some?
    ensures b in SnapshotBlocks(s, sid) ==> SnapshotBlocks(s, sid)[b] == RowAt(s, sid, b).value
  {
    if (sid, b) in s.blocks {
      assert (sid, b).1 == b && b in BlocksOf(s, sid);
    }
  }

  lemma SameBlocks(s: Store, s': Store, sid: SnapshotId)
    requires forall b :: RowAt(s', sid, b) == RowAt(s, sid, b)
    ensures SnapshotBlocks(s', sid) == SnapshotBlocks(s, sid)
  {
    hide SnapshotBlocks, RowAt;
    forall b
      ensures b in SnapshotBlocks(s', sid) <==> b in SnapshotBlocks(s, sid)
      ensures b in SnapshotBlocks(s, sid) ==> SnapshotBlocks(s', sid)[b] == SnapshotBlocks(s, sid)[b]
    {
      SnapshotBlocksAt(s, sid, b);
      SnapshotBlocksAt(s', sid, b);
    }
  }

  // ----- reference counts -----

  ghost function References(s: Store, vid: VersionId): set<(SnapshotId, BlockId)> {
    set key | key in s.blocks && s.blocks[key] == vid
  }

  /** References counted for versions that no snapshot row makes. */
  type Extra = map<VersionId, nat>

  function Owed(extra: Extra, vid: VersionId): nat {
    if vid in extra then extra[vid] else 0
  }

  /** A version's ref_count is the number of snapshot rows pointing at it and those owed, and
      never zero. */
  ghost predicate Counted(s: Store, vid: VersionId, extra: Extra)
    requires vid in s.versions
  {
    s.versions[vid].refCount == |References(s, vid)| + Owed(extra, vid) > 0
  }

  ghost predicate AllCounted(s: Store, extra: Extra) {
    forall v | v in s.versions :: Counted(s, v, extra)
  }

  ghost predicate Stored(s: Store, extra: Extra) {
    forall v | v in extra :: v in s.versions && extra[v] > 0
  }

  ghost predicate Pointed(s: Store) {
    forall key | key in s.blocks :: s.blocks[key] in s.versions && s.versions[s.blocks[key]].block == key.1 && key.0 in s.snapshots
  }

  ghost predicate IdsUsed(s: Store) {
    (forall v | v in s.versions :: v < s.next) && (forall sid | sid in s.snapshots :: sid < s.next)
  }

  /** UNIQUE(block_id, version). */
  ghost predicate Unique(s: Store) {
    forall v, w, b, version {:trigger IsVersion(s, v, b, version), IsVersion(s, w, b, version)} |
      IsVersion(s, v, b, version) && IsVersion(s, w, b, version) :: v == w
  }

  /** Every count is exact but for what extra says is owed. */
  ghost predicate ExactBut(s: Store, extra: Extra) {
    AllCounted(s, extra) && Stored(s, extra) && Pointed(s) && IdsUsed(s) && Unique(s)
  }

  ghost predicate Exact(s: Store) {
    ExactBut(s, map[])
  }

  /** What every operation and every crash keeps. */
  ghost predicate Sound(s: Store) {
    exists extra :: ExactBut(s, extra)
  }

  /** The tables decide what is owed. */
  lemma OwedIsUnique(s: Store, extra: Extra, other: Extra)
    requires ExactBut(s, extra) && ExactBut(s, other)
    ensures extra == other
  {
    hide Pointed, IdsUsed, Unique;
    forall v
      ensures v in extra <==> v in other
      ensures v in extra && v in other ==> extra[v] == other[v]
    {
      if v in s.versions {
        assert Counted(s, v, extra) && Counted(s, v, other);
      }
    }
  }

  lemma FoundIs(s: Store, vid: VersionId, b: BlockId, version: int)
    requires Unique(s) && IsVersion(s, vid, b, version)
    ensures FindVersion(s, b, version) == Some(vid)
  {
    hide IsVersion;
  }

  ghost function Kept(s: Store, sid: SnapshotId, b: BlockId, row: R.Row): Store {
    var (after, vid) := GetOrCreate(s, b, row);
    AddBlock(after, sid, b, vid)
  }

  /** get_or_create_block_version followed by add_snapshot_block. */
  lemma KeepIsExact(s: Store, sid: SnapshotId, b: BlockId, row: R.Row, extra: Extra)
    requires ExactBut(s, extra) && sid in s.snapshots && (sid, b) !in s.blocks
    ensures ExactBut(Kept(s, sid, b, row), extra)
  {
    KeepIsCounted(s, sid, b, row, extra);
    KeepIsPointed(s, sid, b, row);
    KeepIsUnique(s, sid, b, row);
  }

  lemma ReferencesAfter(s: Store, s': Store, sid: SnapshotId, b: BlockId, vid: VersionId, v: VersionId)
    requires (sid, b) !in s.blocks && s'.blocks == s.blocks[(sid, b) := vid]
    ensures |References(s', v)| == |References(s, v)| + if v == vid then 1 else 0
  {
    if v == vid {
      assert References(s', v) == References(s, v) + {(sid, b)};
    } else {
      assert References(s', v) == References(s, v);
    }
  }

  lemma KeepIsCounted(s: Store, sid: SnapshotId, b: BlockId, row: R.Row, extra: Extra)
    requires AllCounted(s, extra) && Stored(s, extra) && Pointed(s) && IdsUsed(s) && (sid, b) !in s.blocks
    ensures var s' := Kept(s, sid, b, row); AllCounted(s', extra) && Stored(s', extra) && IdsUsed(s')
  {
    var (after, vid) := GetOrCreate(s, b, row);
    var s' := AddBlock(after, sid, b, vid);
    FindIsIn(s, b, row.version);
    assert References(s, s.next) == {};
    hide FindVersion, References, Pointed;
    forall v | v in s'.versions
      ensures Counted(s', v, extra)
    {
      ReferencesAfter(s, s', sid, b, vid, v);
      if v in s.versions {
        assert Counted(s, v, extra);
      }
    }
  }

  lemma FindIsIn(s: Store, b: BlockId, version: int)
    ensures var f := FindVersion(s, b, version); f.Some? ==> f.value in s.versions && s.versions[f.value].block == b
  {
  }

  lemma KeepIsPointed(s: Store, sid: SnapshotId, b: BlockId, row: R.Row)
    requires Pointed(s) && IdsUsed(s) && sid in s.snapshots
    ensures Pointed(Kept(s, sid, b, row))
  {
    hide FindVersion;
    FindIsIn(s, b, row.version);
  }

  lemma KeepIsUnique(s: Store, sid: SnapshotId, b: BlockId, row: R.Row)
    requires Unique(s) && IdsUsed(s)
    ensures Unique(Kept(s, sid, b, row))
  {
    var s' := Kept(s, sid, b, row);
    forall v, w, c, version | IsVersion(s', v, c, version) && IsVersion(s', w, c, version)
      ensures v == w
    {
      if v in s.versions && w in s.versions {
        assert IsVersion(s, v, c, version) && IsVersion(s, w, c, version);
      } else if v in s.versions {
        assert IsVersion(s, v, c, version);
      } else if w in s.versions {
        assert IsVersion(s, w, c, version);
      }
    }
  }

  /** The row a snapshot ends up with: a copy already stored for the version, or the row read. */
  ghost function Shared(s: Store, b: BlockId, row: R.Row): R.Row {
    var found := FindVersion(s, b, row.version);
    if found.Some? then s.versions[found.value].row else row
  }

  /** s' has all of s's copies, further ones only of these blocks, and rows for one snapshot. */
  ghost predicate Extends(s: Store, s': Store, sid: SnapshotId, ids: set<BlockId>) {
    && s'.snapshots == s.snapshots && s'.next >= s.next
    && s.versions.Keys <= s'.versions.Keys
    && (forall v | v in s'.versions ::
          if v in s.versions then s'.versions[v].block == s.versions[v].block && s'.versions[v].row == s.versions[v].row
          else s'.versions[v].block in ids)
    && (forall other, b | other != sid :: RowAt(s', other, b) == RowAt(s, other, b))
  }

  lemma KeepExtends(s: Store, sid: SnapshotId, b: BlockId, row: R.Row)
    requires Pointed(s) && IdsUsed(s)
    ensures Extends(s, Kept(s, sid, b, row), sid, {b})
    ensures RowAt(Kept(s, sid, b, row), sid, b) == Some(Shared(s, b, row))
    ensures forall c | c != b :: RowAt(Kept(s, sid, b, row), sid, c) == RowAt(s, sid, c)
  {
    hide FindVersion;
    FindIsIn(s, b, row.version);
  }

  function ReadIds(seen: Reads): set<BlockId> {
    set x | 0 <= x < |seen| && seen[x].1.Some? :: seen[x].0
  }

  /** The snapshot shows exactly the blocks read, each with its shared row. */
  ghost predicate Took(s: Store, s': Store, sid: SnapshotId, seen: Reads) {
    && (forall b | b !in ReadIds(seen) :: RowAt(s', sid, b) == None)
    && (forall x | 0 <= x < |seen| && seen[x].1.Some? :: RowAt(s', sid, seen[x].0) == Some(Shared(s, seen[x].0, seen[x].1.value)))
  }

  lemma SharedUnchanged(s: Store, s': Store, sid: SnapshotId, ids: set<BlockId>, b: BlockId, row: R.Row)
    requires Unique(s') && Extends(s, s', sid, ids) && b !in ids
    ensures Shared(s', b, row) == Shared(s, b, row)
  {
    var found := FindVersion(s, b, row.version);
    if found.Some? {
      assert IsVersion(s', found.value, b, row.version);
      FoundIs(s', found.value, b, row.version);
    } else if vid :| IsVersion(s', vid, b, row.version) {
      assert IsVersion(s, vid, b, row.version);
    }
  }

  lemma ExtendsTransitive(a: Store, b: Store, c: Store, sid: SnapshotId, ids: set<BlockId>, more: set<BlockId>)
    requires Extends(a, b, sid, ids) && Extends(b, c, sid, more)
    ensures Extends(a, c, sid, ids + more)
  {
    hide RowAt;
  }

  lemma {:induction false} TakeEffect(s: Store, sid: SnapshotId, seen: Reads, extra: Extra)
    requires ExactBut(s, extra) && sid in s.snapshots && DistinctReads(seen)
    requires forall b :: (sid, b) !in s.blocks
    ensures var s' := Take(s, sid, seen); ExactBut(s', extra) && Extends(s, s', sid, ReadIds(seen)) && Took(s, s', sid, seen)
  {
    hide Extends, AllCounted, Stored, Pointed, IdsUsed, Unique, Shared, GetOrCreate;
    if seen == [] {
      NothingTaken(s, sid);
    } else {
      var n := |seen| - 1;
      TakeEffect(s, sid, seen[..n], extra);
      var before := Take(s, sid, seen[..n]);
      var (b, row) := seen[n];
      assert b !in ReadIds(seen[..n]);
      if row == None {
        assert ReadIds(seen) == ReadIds(seen[..n]);
        assert forall x | 0 <= x < n :: seen[..n][x] == seen[x];
      } else {
        assert ReadIds(seen) == ReadIds(seen[..n]) + {b};
        assert Take(s, sid, seen) == Kept(before, sid, b, row.value);
        SharedUnchanged(s, before, sid, ReadIds(seen[..n]), b, row.value);
        NotYet(s, before, sid, seen[..n], b);
        SnapshotKept(s, before, sid, ReadIds(seen[..n]));
        KeepIsExact(before, sid, b, row.value, extra);
        KeepExtends(before, sid, b, row.value);
        ExtendsTransitive(s, before, Kept(before, sid, b, row.value), sid, ReadIds(seen[..n]), {b});
        TookOneMore(s, before, sid, seen);
      }
    }
  }

  lemma NothingTaken(s: Store, sid: SnapshotId)
    requires forall b :: (sid, b) !in s.blocks
    ensures Extends(s, s, sid, ReadIds([])) && Took(s, s, sid, [])
  {
  }

  lemma NotYet(s: Store, s': Store, sid: SnapshotId, seen: Reads, b: BlockId)
    requires Took(s, s', sid, seen) && Pointed(s') && b !in ReadIds(seen)
    ensures (sid, b) !in s'.blocks
  {
    assert RowAt(s', sid, b) == None;
  }

  lemma SnapshotKept(s: Store, s': Store, sid: SnapshotId, ids: set<BlockId>)
    requires Extends(s, s', sid, ids) && sid in s.snapshots
    ensures sid in s'.snapshots
  {
  }

  lemma TookOneMore(s: Store, before: Store, sid: SnapshotId, seen: Reads)
    requires Pointed(before) && IdsUsed(before) && DistinctReads(seen) && seen != [] && seen[|seen| - 1].1.Some?
    requires Took(s, before, sid, seen[..|seen| - 1])
    requires ReadIds(seen) == ReadIds(seen[..|seen| - 1]) + {seen[|seen| - 1].0}
    requires Shared(before, seen[|seen| - 1].0, seen[|seen| - 1].1.value) == Shared(s, seen[|seen| - 1].0, seen[|seen| - 1].1.value)
    ensures Took(s, Kept(before, sid, seen[|seen| - 1].0, seen[|seen| - 1].1.value), sid, seen)
  {
    hide Shared, Pointed, IdsUsed, Kept, ReadIds, RowAt, Extends;
    var n := |seen| - 1;
    var (b, row) := seen[n];
    KeepExtends(before, sid, b, row.value);
    var s' := Kept(before, sid, b, row.value);
    forall x | 0 <= x < |seen| && seen[x].1.Some?
      ensures RowAt(s', sid, seen[x].0) == Some(Shared(s, seen[x].0, seen[x].1.value))
    {
      if x < n {
        assert seen[..n][x] == seen[x];
      }
    }
  }

  /** Rewriting only the snapshots table, with ids handed out so far. */
  lemma RowsOnlyIsExact(s: Store, snapshots: map<SnapshotId, SnapshotRow>, next: nat, extra: Extra)
    requires ExactBut(s, extra) && s.snapshots.Keys <= snapshots.Keys && s.next <= next
    requires forall sid | sid in snapshots :: sid < next
    ensures ExactBut(s.(snapshots := snapshots, next := next), extra)
  {
    var s' := s.(snapshots := snapshots, next := next);
    forall v | v in s.versions
      ensures Counted(s', v, extra)
    {
      assert Counted(s, v, extra);
      assert References(s', v) == References(s, v);
    }
    forall v, b, version
      ensures IsVersion(s', v, b, version) <==> IsVersion(s, v, b, version)
    {
    }
    hide IsVersion;
  }

  lemma SharedSame(s: Store, s': Store, b: BlockId, row: R.Row)
    requires s'.versions == s.versions && Unique(s) && Unique(s')
    ensures Shared(s', b, row) == Shared(s, b, row)
  {
    var found := FindVersion(s, b, row.version);
    if found.Some? {
      FoundIs(s', found.value, b, row.version);
    } else if vid :| IsVersion(s', vid, b, row.version) {
      assert IsVersion(s, vid, b, row.version);
    }
  }

  lemma CreateIsExact(s: Store, seen: Reads, failed: bool, extra: Extra)
    requires ExactBut(s, extra) && DistinctReads(seen)
    ensures ExactBut(Create(s, seen, failed), extra)
    ensures Create(s, seen, failed).snapshots.Keys == s.snapshots.Keys + {s.next}
    ensures forall sid | sid in s.snapshots :: SnapshotBlocks(Create(s, seen, failed), sid) == SnapshotBlocks(s, sid)
    ensures Took(s, Create(s, seen, failed), s.next, seen)
  {
    hide AllCounted, Stored, Unique, Shared, SnapshotBlocks;
    NothingYet(s);
    var began := Begin(s);
    RowsOnlyIsExact(s, began.snapshots, began.next, extra);
    TakeEffect(began, s.next, seen, extra);
    var taken := Take(began, s.next, seen);
    var s' := Create(s, seen, failed);
    RowsOnlyIsExact(taken, s'.snapshots, taken.next, extra);
    assert s'.blocks == taken.blocks && s'.versions == taken.versions;
    forall sid | sid in s.snapshots
      ensures SnapshotBlocks(s', sid) == SnapshotBlocks(s, sid)
    {
      forall b
        ensures RowAt(s', sid, b) == RowAt(s, sid, b)
      {
        assert RowAt(taken, sid, b) == RowAt(began, sid, b);
      }
      SameBlocks(s, s', sid);
    }
    forall x | 0 <= x < |seen| && seen[x].1.Some?
      ensures RowAt(s', s.next, seen[x].0) == Some(Shared(s, seen[x].0, seen[x].1.value))
    {
      SharedSame(s, began, seen[x].0, seen[x].1.value);
      assert RowAt(taken, s.next, seen[x].0) == Some(Shared(began, seen[x].0, seen[x].1.value));
    }
    forall b | b !in ReadIds(seen)
      ensures RowAt(s', s.next, b) == None
    {
      assert RowAt(taken, s.next, b) == None;
    }
  }

  lemma NothingYet(s: Store)
    requires Pointed(s) && IdsUsed(s)
    ensures forall b :: (s.next, b) !in s.blocks
  {
    assert forall key | key in s.blocks :: key.0 < s.next;
  }

  lemma DeleteIsExact(s: Store, sid: SnapshotId, extra: Extra)
    requires ExactBut(s, extra)
    ensures ExactBut(Delete(s, sid), extra)
    ensures forall other | other != sid :: SnapshotBlocks(Delete(s, sid), other) == SnapshotBlocks(s, other)
  {
    var s' := Delete(s, sid);
    DeleteCounts(s, sid, extra);
    DeleteIsUnique(s, sid);
    hide Delete, SnapshotBlocks, ExactBut, Unique, AllCounted;
    forall other | other != sid
      ensures SnapshotBlocks(s', other) == SnapshotBlocks(s, other)
    {
      SameBlocks(s, s', other);
    }
  }

  lemma DeleteIsUnique(s: Store, sid: SnapshotId)
    requires Unique(s)
    ensures Unique(Delete(s, sid))
  {
    var s' := Delete(s, sid);
    forall v, b, version
      ensures IsVersion(s', v, b, version) ==> IsVersion(s, v, b, version)
    {
    }
    hide IsVersion, Delete;
  }

  lemma DeleteCounts(s: Store, sid: SnapshotId, extra: Extra)
    requires AllCounted(s, extra) && Stored(s, extra) && Pointed(s) && IdsUsed(s)
    ensures var s' := Delete(s, sid);
            && AllCounted(s', extra) && Stored(s', extra) && Pointed(s') && IdsUsed(s')
            && forall other, b | other != sid :: RowAt(s', other, b) == RowAt(s, other, b)
  {
    var s' := Delete(s, sid);
    forall v | v in s.versions
      ensures |References(s', v)| + Owed(extra, v) == s.versions[v].refCount - |RowsOf(s, sid, v)|
      ensures References(s', v) != {} ==> v in s'.versions
    {
      StillCounted(s, sid, v, extra);
    }
    forall key | key in s'.blocks
      ensures s'.blocks[key] in s'.versions
    {
      assert key in References(s', s.blocks[key]);
    }
    hide References, RowsOf, RowAt;
    DeleteKeepsRows(s, sid);
  }

  lemma StillCounted(s: Store, sid: SnapshotId, v: VersionId, extra: Extra)
    requires v in s.versions && Counted(s, v, extra)
    ensures var s' := Delete(s, sid);
            && |References(s', v)| + Owed(extra, v) == s.versions[v].refCount - |RowsOf(s, sid, v)|
            && (References(s', v) != {} ==> v in s'.versions)
  {
    DeleteReferences(s, sid, v);
    hide References, RowsOf;
  }

  lemma DeleteReferences(s: Store, sid: SnapshotId, v: VersionId)
    ensures |References(Delete(s, sid), v)| == |References(s, v)| - |RowsOf(s, sid, v)|
  {
    assert References(s, v) == References(Delete(s, sid), v) + RowsOf(s, sid, v);
  }

  lemma DeleteKeepsRows(s: Store, sid: SnapshotId)
    requires forall key | key in Delete(s, sid).blocks :: s.blocks[key] in Delete(s, sid).versions
    ensures forall other, b | other != sid :: RowAt(Delete(s, sid), other, b) == RowAt(s, other, b)
  {
    hide RowsOf;
    var s' := Delete(s, sid);
    forall other, b | other != sid
      ensures RowAt(s', other, b) == RowAt(s, other, b)
    {
      if (other, b) in s.blocks {
        assert (other, b).0 == other && (other, b) in s'.blocks;
      }
    }
  }

  lemma ReclaimFindsNothing(s: Store, extra: Extra)
    requires AllCounted(s, extra)
    ensures Reclaim(s) == s
  {
    forall v | v in s.versions
      ensures s.versions[v].refCount > 0
    {
      assert Counted(s, v, extra);
    }
  }

  // ----- a process that dies inside create_snapshot -----

  /** A creation that died once `seen` had been kept; `counted` is the read, if any, that
      get_or_create_block_version had counted and add_snapshot_block had not yet pointed at. */
  ghost function Crashed(s: Store, seen: Reads, counted: Option<(BlockId, R.Row)>): Store {
    var kept := Take(Begin(s), s.next, seen);
    if counted == None then kept else GetOrCreate(kept, counted.value.0, counted.value.1).0
  }

  /** recover_interrupted_snapshots, at the next start. */
  function RecoverInterrupted(s: Store): Store {
    s.(snapshots := map sid | sid in s.snapshots ::
         if s.snapshots[sid].status == Creating || s.snapshots[sid].status == Restoring
         then s.snapshots[sid].(status := Failed) else s.snapshots[sid])
  }

  /** The count that the crash leaves owed. */
  ghost function Leak(s: Store, seen: Reads, counted: Option<(BlockId, R.Row)>, extra: Extra): Extra {
    if counted == None then extra
    else
      var vid := GetOrCreate(Take(Begin(s), s.next, seen), counted.value.0, counted.value.1).1;
      extra[vid := Owed(extra, vid) + 1]
  }

  lemma CountIsExact(s: Store, b: BlockId, row: R.Row, extra: Extra)
    requires ExactBut(s, extra)
    ensures var (s', vid) := GetOrCreate(s, b, row); ExactBut(s', extra[vid := Owed(extra, vid) + 1])
  {
    var (s', vid) := GetOrCreate(s, b, row);
    FindIsIn(s, b, row.version);
    CountIsUnique(s, b, row);
    assert References(s, s.next) == {} by {
      assert Pointed(s) && IdsUsed(s);
    }
    hide FindVersion, Unique;
    forall v | v in s'.versions
      ensures Counted(s', v, extra[vid := Owed(extra, vid) + 1])
    {
      assert References(s', v) == References(s, v);
      if v in s.versions {
        assert Counted(s, v, extra);
      }
    }
  }

  lemma CountIsUnique(s: Store, b: BlockId, row: R.Row)
    requires Unique(s) && IdsUsed(s)
    ensures Unique(GetOrCreate(s, b, row).0)
  {
    var s' := GetOrCreate(s, b, row).0;
    forall v, w, c, version | IsVersion(s', v, c, version) && IsVersion(s', w, c, version)
      ensures v == w
    {
      if v in s.versions && w in s.versions {
        assert IsVersion(s, v, c, version) && IsVersion(s, w, c, version);
      } else if v in s.versions {
        assert IsVersion(s, v, c, version);
      } else if w in s.versions {
        assert IsVersion(s, w, c, version);
      }
    }
  }

  lemma CrashIsExactBut(s: Store, seen: Reads, counted: Option<(BlockId, R.Row)>, extra: Extra)
    requires ExactBut(s, extra) && DistinctReads(seen)
    ensures ExactBut(RecoverInterrupted(Crashed(s, seen, counted)), Leak(s, seen, counted, extra))
  {
    hide AllCounted, Unique, Stored, Extends, Took, Take;
    NothingYet(s);
    var began := Begin(s);
    RowsOnlyIsExact(s, began.snapshots, began.next, extra);
    TakeEffect(began, s.next, seen, extra);
    var kept := Take(began, s.next, seen);
    if counted.Some? {
      CountIsExact(kept, counted.value.0, counted.value.1, extra);
    }
    hide GetOrCreate;
    var s' := Crashed(s, seen, counted);
    RowsOnlyIsExact(s', RecoverInterrupted(s').snapshots, s'.next, Leak(s, seen, counted, extra));
  }

  /** From any exact store, whatever part of a creation was done when the process died, the
      counts are exact after the next start exactly if it did not die between
      get_or_create_block_version and add_snapshot_block. */
  lemma CrashIsExactIff(s: Store, seen: Reads, counted: Option<(BlockId, R.Row)>)
    requires Exact(s) && DistinctReads(seen)
    ensures Exact(RecoverInterrupted(Crashed(s, seen, counted))) <==> counted == None
  {
    CrashIsExactBut(s, seen, counted, map[]);
    var s' := RecoverInterrupted(Crashed(s, seen, counted));
    hide ExactBut, Crashed, GetOrCreate;
    if Exact(s') {
      OwedIsUnique(s', map[], Leak(s, seen, counted, map[]));
    }
  }

  lemma CrashKeepsSnapshots(s: Store, seen: Reads, counted: Option<(BlockId, R.Row)>, extra: Extra, sid: SnapshotId)
    requires ExactBut(s, extra) && DistinctReads(seen) && sid in s.snapshots
    ensures var s' := RecoverInterrupted(Crashed(s, seen, counted));
            sid in s'.snapshots && SnapshotBlocks(s', sid) == SnapshotBlocks(s, sid)
  {
    hide AllCounted, Unique, Stored, Took, SnapshotBlocks, Take;
    NothingYet(s);
    var began := Begin(s);
    RowsOnlyIsExact(s, began.snapshots, began.next, extra);
    TakeEffect(began, s.next, seen, extra);
    var s' := RecoverInterrupted(Crashed(s, seen, counted));
    if counted.Some? {
      FindIsIn(Take(began, s.next, seen), counted.value.0, counted.value.1.version);
    }
    hide FindVersion;
    forall b
      ensures RowAt(s', sid, b) == RowAt(s, sid, b)
    {
      assert RowAt(Take(began, s.next, seen), sid, b) == RowAt(began, sid, b);
    }
    SameBlocks(s, s', sid);
  }

  // ----- any sequence of operations -----

  datatype StoreOp =
    | CreateOp(seen: Reads, failed: bool)
    | DeleteOp(snapshot: SnapshotId)
    | ReclaimOp
    | CrashOp(kept: Reads, counted: Option<(BlockId, R.Row)>)

  ghost predicate WellFormedOp(op: StoreOp) {
    (op.CreateOp? ==> DistinctReads(op.seen)) && (op.CrashOp? ==> DistinctReads(op.kept))
  }

  ghost predicate WellFormed(ops: seq<StoreOp>) {
    forall x | 0 <= x < |ops| :: WellFormedOp(ops[x])
  }

  ghost function StepStore(s: Store, op: StoreOp): Store {
    match op
    case CreateOp(seen, failed) => Create(s, seen, failed)
    case DeleteOp(sid) => if sid in s.snapshots then Delete(s, sid) else s
    case ReclaimOp => Reclaim(s)
    case CrashOp(kept, counted) => RecoverInterrupted(Crashed(s, kept, counted))
  }

  ghost function After(s: Store, ops: seq<StoreOp>): Store {
    if ops == [] then s else StepStore(After(s, ops[..|ops| - 1]), ops[|ops| - 1])
  }

  ghost function StepLeak(s: Store, op: StoreOp, extra: Extra): Extra {
    if op.CrashOp? then Leak(s, op.kept, op.counted, extra) else extra
  }

  /** What the crashes among ops leave owed. */
  ghost function Leaks(s: Store, ops: seq<StoreOp>, extra: Extra): Extra {
    if ops == [] then extra
    else
      var before := ops[..|ops| - 1];
      StepLeak(After(s, before), ops[|ops| - 1], Leaks(s, before, extra))
  }

  lemma StepIsExact(s: Store, op: StoreOp, extra: Extra)
    requires ExactBut(s, extra) && WellFormedOp(op)
    ensures ExactBut(StepStore(s, op), StepLeak(s, op, extra))
  {
    hide Create, Crashed, Leak, DistinctReads, SnapshotBlocks;
    match op
    case CreateOp(seen, failed) => CreateIsExact(s, seen, failed, extra);
    case DeleteOp(sid) => DeleteIsExact(s, sid, extra);
    case ReclaimOp => ReclaimFindsNothing(s, extra);
    case CrashOp(kept, counted) => CrashIsExactBut(s, kept, counted, extra);
  }

  lemma {:induction false} AfterIsExact(s: Store, ops: seq<StoreOp>, extra: Extra)
    requires ExactBut(s, extra) && WellFormed(ops)
    ensures ExactBut(After(s, ops), Leaks(s, ops, extra))
  {
    hide ExactBut, StepStore, StepLeak, WellFormedOp;
    if ops != [] {
      AfterIsExact(s, ops[..|ops| - 1], extra);
      StepIsExact(After(s, ops[..|ops| - 1]), ops[|ops| - 1], Leaks(s, ops[..|ops| - 1], extra));
    }
  }

  predicate NoGap(ops: seq<StoreOp>) {
    forall x | 0 <= x < |ops| :: ops[x].CrashOp? ==> ops[x].counted == None
  }

  lemma {:induction false} NothingOwedIff(s: Store, ops: seq<StoreOp>)
    ensures Leaks(s, ops, map[]) == map[] <==> NoGap(ops)
  {
    hide After, Take, GetOrCreate;
    if ops != [] {
      NothingOwedIff(s, ops[..|ops| - 1]);
      assert forall x | 0 <= x < |ops| - 1 :: ops[x] == ops[..|ops| - 1][x];
      assert forall vid: VersionId, n: nat, extra: Extra {:trigger extra[vid := n]} :: vid in extra[vid := n];
    }
  }

  /** After any snapshot creations, completed, failed or cut short by a crash anywhere, any
      deletions and reclaims, every stored version's ref_count is the number of snapshot rows
      pointing at it and of crashes that left it counted without a row.  No row points at a
      missing version, and once every snapshot is deleted the versions left are those such a
      crash had counted.  All counts are exact exactly if no crash fell in that gap. */
  lemma RefCountsAreExact(ops: seq<StoreOp>)
    requires WellFormed(ops)
    ensures var s, owed := After(EmptyStore, ops), Leaks(EmptyStore, ops, map[]);
            && (forall v | v in s.versions :: s.versions[v].refCount == |References(s, v)| + Owed(owed, v) > 0)
            && (forall key | key in s.blocks :: s.blocks[key] in s.versions && key.0 in s.snapshots)
            && (s.snapshots == map[] ==> s.blocks == map[] && s.versions.Keys == owed.Keys)
            && (Exact(s) <==> NoGap(ops))
  {
    assert ExactBut(EmptyStore, map[]);
    AfterIsExact(EmptyStore, ops, map[]);
    NothingOwedIff(EmptyStore, ops);
    var s, owed := After(EmptyStore, ops), Leaks(EmptyStore, ops, map[]);
    hide After, Leaks, WellFormed, NoGap, Unique;
    forall v | v in s.versions
      ensures s.versions[v].refCount == |References(s, v)| + Owed(owed, v) > 0
    {
      assert Counted(s, v, owed);
    }
    if s.snapshots == map[] {
      assert s.blocks == map[];
      assert forall v :: References(s, v) == {};
    }
    if Exact(s) {
      OwedIsUnique(s, map[], owed);
    }
  }

  /** What a snapshot holds never changes until that snapshot is deleted. */
  lemma {:induction false} SnapshotIsStable(s: Store, ops: seq<StoreOp>, sid: SnapshotId, extra: Extra)
    requires ExactBut(s, extra) && WellFormed(ops) && sid in s.snapshots
    requires DeleteOp(sid) !in ops
    ensures sid in After(s, ops).snapshots
    ensures SnapshotBlocks(After(s, ops), sid) == SnapshotBlocks(s, sid)
  {
    hide ExactBut, SnapshotBlocks, StepStore, WellFormedOp, Leaks;
    if ops != [] {
      var before, op := After(s, ops[..|ops| - 1]), ops[|ops| - 1];
      SnapshotIsStable(s, ops[..|ops| - 1], sid, extra);
      AfterIsExact(s, ops[..|ops| - 1], extra);
      assert op in ops;
      StepKeepsSnapshot(before, op, sid, Leaks(s, ops[..|ops| - 1], extra));
    }
  }

  lemma StepKeepsSnapshot(s: Store, op: StoreOp, sid: SnapshotId, extra: Extra)
    requires ExactBut(s, extra) && sid in s.snapshots && op != DeleteOp(sid) && WellFormedOp(op)
    ensures sid in StepStore(s, op).snapshots
    ensures SnapshotBlocks(StepStore(s, op), sid) == SnapshotBlocks(s, sid)
  {
    hide SnapshotBlocks, Create, Crashed, DistinctReads, ExactBut;
    match op
    case CreateOp(seen, failed) => CreateIsExact(s, seen, failed, extra);
    case DeleteOp(other) => DeleteIsExact(s, other, extra);
    case ReclaimOp =>
      CountedOf(s, extra);
      ReclaimFindsNothing(s, extra);
    case CrashOp(kept, counted) => CrashKeepsSnapshots(s, kept, counted, extra, sid);
  }

  lemma CountedOf(s: Store, extra: Extra)
    requires ExactBut(s, extra)
    ensures AllCounted(s, extra)
  {
  }

  /** A version left owed is never removed: whatever creations, deletions, reclaims and further
      crashes follow, it stays stored and its count exceeds the rows pointing at it. */
  lemma LeakIsForEver(s: Store, ops: seq<StoreOp>, extra: Extra, vid: VersionId)
    requires ExactBut(s, extra) && WellFormed(ops) && vid in extra
    ensures var s' := After(s, ops);
            vid in s'.versions && s'.versions[vid].refCount >= |References(s', vid)| + extra[vid]
  {
    AfterIsExact(s, ops, extra);
    LeaksGrow(s, ops, extra, vid);
    hide After, Leaks, Pointed, IdsUsed, Unique, References, WellFormed;
    assert Counted(After(s, ops), vid, Leaks(s, ops, extra));
  }

  lemma {:induction false} LeaksGrow(s: Store, ops: seq<StoreOp>, extra: Extra, vid: VersionId)
    ensures Owed(Leaks(s, ops, extra), vid) >= Owed(extra, vid)
  {
    hide After, Take, GetOrCreate;
    if ops != [] {
      LeaksGrow(s, ops[..|ops| - 1], extra, vid);
    }
  }

  /** A creation that dies in the gap after any operations, the counted version, and anything
      that follows: the version is there for good, counted once more than it is pointed at. */
  lemma CrashBetweenLeaks(ops: seq<StoreOp>, kept: Reads, b: BlockId, row: R.Row, more: seq<StoreOp>)
    requires WellFormed(ops) && WellFormed(more) && DistinctReads(kept)
    ensures var before := After(EmptyStore, ops);
            var vid := GetOrCreate(Take(Begin(before), before.next, kept), b, row).1;
            var s' := After(StepStore(before, CrashOp(kept, Some((b, row)))), more);
            vid in s'.versions && s'.versions[vid].refCount > |References(s', vid)|
  {
    assert ExactBut(EmptyStore, map[]);
    AfterIsExact(EmptyStore, ops, map[]);
    var before, owed, op := After(EmptyStore, ops), Leaks(EmptyStore, ops, map[]), CrashOp(kept, Some((b, row)));
    var vid := GetOrCreate(Take(Begin(before), before.next, kept), b, row).1;
    StepIsExact(before, op, owed);
    hide After, Leaks, ExactBut, Take, GetOrCreate, WellFormed, DistinctReads, References;
    assert vid in StepLeak(before, op, owed);
    LeakIsForEver(StepStore(before, op), more, StepLeak(before, op, owed), vid);
  }

  // ----- restore_service.py -----

  type Listing = seq<(BlockId, R.Row)>

  datatype Restored = Restored(table: R.Table, ok: bool, blocks: nat)

  /** The writers of storage/cluster_bridge.py: always the idempotent form. */
  function RestoreRequest(b: BlockId, row: R.Row): R.Request {
    R.Message(if row.Tombstone? then R.Delete(b, row.version) else R.Write(b, row.version, row.data))
  }

  /** Writing a snapshot's blocks back one by one, up to the first that is refused. */
  function WriteBack(t: R.Table, listing: Listing): Restored {
    if listing == [] then Restored(t, true, 0)
    else
      var before, (b, row) := WriteBack(t, listing[..|listing| - 1]), listing[|listing| - 1];
      if !before.ok || !R.Accepted(before.table, RestoreRequest(b, row)) then before.(ok := false)
      else Restored(R.Perform(before.table, RestoreRequest(b, row)), true, before.blocks + 1)
  }

  /** The rows in block order. */
  function Listed(rows: map<BlockId, R.Row>): Listing {
    Order.SortSetIsSorted(rows.Keys);
    var ids := Order.SortSet(rows.Keys);
    assert forall x | 0 <= x < |ids| :: ids[x] in Order.Elements(ids);
    seq(|ids|, x requires 0 <= x < |ids| => (ids[x], rows[ids[x]]))
  }

  /** The version under which a restore deletes blocks that the snapshot does not hold. */
  const LEFTOVER_VERSION := 9999

  function Leftover(t: R.Table, rows: map<BlockId, R.Row>): set<BlockId> {
    set b | b in t && t[b].Live? && b !in rows
  }

  ghost predicate Enumerates(order: seq<BlockId>, ids: set<BlockId>) {
    (forall x, y | 0 <= x < y < |order| :: order[x] != order[y]) && forall b :: b in order <==> b in ids
  }

  function Marks(order: seq<BlockId>): Listing {
    seq(|order|, x requires 0 <= x < |order| => (order[x], R.Tombstone(LEFTOVER_VERSION)))
  }

  /** restore_snapshot over a table, empty if clear_blocks is wired: the rows in block order,
      then a delete of each leftover in some order. */
  function Restore(t: R.Table, rows: map<BlockId, R.Row>, order: seq<BlockId>): Restored {
    var written := WriteBack(t, Listed(rows));
    if !written.ok then written else WriteBack(written.table, Marks(order)).(blocks := written.blocks)
  }

  function At(t: R.Table, b: BlockId): Option<R.Row> {
    if b in t then Some(t[b]) else None
  }

  ghost predicate DistinctListing(listing: Listing) {
    forall x, y | 0 <= x < y < |listing| :: listing[x].0 != listing[y].0
  }

  /** What a request does to a block depends on that block's row alone. */
  lemma WriteIsLocal(t: R.Table, t': R.Table, b: BlockId, row: R.Row)
    requires At(t, b) == At(t', b)
    ensures R.Accepted(t, RestoreRequest(b, row)) <==> R.Accepted(t', RestoreRequest(b, row))
    ensures At(R.Perform(t, RestoreRequest(b, row)), b) == At(R.Perform(t', RestoreRequest(b, row)), b)
    ensures forall c | c != b :: At(R.Perform(t, RestoreRequest(b, row)), c) == At(t, c)
  {
  }

  ghost predicate Lists(listing: Listing, b: BlockId) {
    exists x :: 0 <= x < |listing| && listing[x].0 == b
  }

  /** A listing is written back exactly if each of its rows would be accepted by itself, and
      then each block has become what its own row makes of it. */
  lemma {:induction false} WriteBackIs(t: R.Table, listing: Listing)
    requires DistinctListing(listing)
    ensures var r := WriteBack(t, listing);
            && (r.ok <==> forall x | 0 <= x < |listing| :: R.Accepted(t, RestoreRequest(listing[x].0, listing[x].1)))
            && (r.ok ==> r.blocks == |listing|)
            && (r.ok ==> forall x | 0 <= x < |listing| ::
                  At(r.table, listing[x].0) == At(R.Perform(t, RestoreRequest(listing[x].0, listing[x].1)), listing[x].0))
            && (forall b | !Lists(listing, b) :: At(r.table, b) == At(t, b))
  {
    hide RestoreRequest, R.Accepted, R.Perform, At;
    if listing != [] {
      var n := |listing| - 1;
      var before := WriteBack(t, listing[..n]);
      var (b, row) := listing[n];
      WriteBackIs(t, listing[..n]);
      assert forall x | 0 <= x < n :: listing[..n][x] == listing[x];
      assert !Lists(listing[..n], b);
      WriteIsLocal(before.table, t, b, row);
      assert forall c :: Lists(listing[..n], c) ==> Lists(listing, c);
      assert Lists(listing, b);
    }
  }

  lemma ListedIs(rows: map<BlockId, R.Row>)
    ensures DistinctListing(Listed(rows))
    ensures forall x | 0 <= x < |Listed(rows)| :: Listed(rows)[x].0 in rows && Listed(rows)[x].1 == rows[Listed(rows)[x].0]
    ensures forall b | b in rows :: exists x :: 0 <= x < |Listed(rows)| && Listed(rows)[x] == (b, rows[b])
    ensures |Listed(rows)| == |rows|
  {
    Order.SortSetIsSorted(rows.Keys);
    var ids, listing := Order.SortSet(rows.Keys), Listed(rows);
    hide Order.SortSet;
    forall x | 0 <= x < |ids|
      ensures ids[x] in rows
    {
      assert ids[x] in Order.Elements(ids);
    }
    forall x, y | 0 <= x < y < |ids|
      ensures ids[x] != ids[y]
    {
      Order.BelowIsStrict(ids[x], ids[y]);
    }
    forall b | b in rows
      ensures exists x :: 0 <= x < |listing| && listing[x] == (b, rows[b])
    {
      assert b in Order.Elements(ids);
      var x :| 0 <= x < |ids| && ids[x] == b;
      assert listing[x] == (b, rows[b]);
    }
    SizeOfDistinct(ids, rows.Keys);
  }

  lemma {:induction false} SizeOfDistinct(ids: seq<BlockId>, all: set<BlockId>)
    requires Enumerates(ids, all)
    ensures |ids| == |all|
  {
    if ids == [] {
      assert all == {};
    } else {
      var n := |ids| - 1;
      assert ids == ids[..n] + [ids[n]];
      SizeOfDistinct(ids[..n], all - {ids[n]});
    }
  }

  // ----- what one row of a restore becomes -----

  /** Restoring `stored` over what is there gives the live row `wanted` back. */
  predicate Returns(t: R.Table, b: BlockId, stored: R.Row, wanted: R.Row) {
    stored.Live? && if b in t && t[b].version >= wanted.version then t[b] == wanted else stored == wanted
  }

  lemma ReturnsIff(t: R.Table, b: BlockId, stored: R.Row, wanted: R.Row)
    requires wanted.Live? && stored.version == wanted.version
    ensures Returns(t, b, stored, wanted) <==>
              R.Accepted(t, RestoreRequest(b, stored)) && At(R.Perform(t, RestoreRequest(b, stored)), b) == Some(wanted)
  {
  }

  lemma LeftoverGoesIff(t: R.Table, b: BlockId)
    requires b in t && t[b].Live?
    ensures R.Accepted(t, RestoreRequest(b, R.Tombstone(LEFTOVER_VERSION))) <==> t[b].version <= LEFTOVER_VERSION
    ensures R.Accepted(t, RestoreRequest(b, R.Tombstone(LEFTOVER_VERSION))) ==>
              At(R.Perform(t, RestoreRequest(b, R.Tombstone(LEFTOVER_VERSION))), b) == Some(R.Tombstone(LEFTOVER_VERSION))
  {
  }

  /** The table after the snapshot's own rows. */
  lemma WrittenIs(t: R.Table, rows: map<BlockId, R.Row>)
    ensures var w := WriteBack(t, Listed(rows));
            && (w.ok <==> forall b | b in rows :: R.Accepted(t, RestoreRequest(b, rows[b])))
            && (w.ok ==> w.blocks == |rows| && forall b | b in rows :: At(w.table, b) == At(R.Perform(t, RestoreRequest(b, rows[b])), b))
            && (forall b | b !in rows :: At(w.table, b) == At(t, b))
  {
    ListedIs(rows);
    WriteBackIs(t, Listed(rows));
    var listing := Listed(rows);
    hide Listed, WriteBack, RestoreRequest, R.Accepted, R.Perform, At;
    forall b | b in rows
      ensures exists x :: 0 <= x < |listing| && listing[x].0 == b && listing[x].1 == rows[b]
    {
      var x :| 0 <= x < |listing| && listing[x] == (b, rows[b]);
    }
  }

  /** The table after the leftovers. */
  lemma MarkedIs(t: R.Table, rows: map<BlockId, R.Row>, order: seq<BlockId>)
    requires Enumerates(order, Leftover(t, rows))
    ensures var r := WriteBack(t, Marks(order));
            && (r.ok <==> forall b | b in Leftover(t, rows) :: t[b].version <= LEFTOVER_VERSION)
            && (r.ok ==> forall b | b in Leftover(t, rows) :: At(r.table, b) == Some(R.Tombstone(LEFTOVER_VERSION)))
            && (forall b | b !in Leftover(t, rows) :: At(r.table, b) == At(t, b))
  {
    var listing := Marks(order);
    WriteBackIs(t, listing);
    forall b | b in Leftover(t, rows)
      ensures exists x :: 0 <= x < |listing| && listing[x] == (b, R.Tombstone(LEFTOVER_VERSION))
    {
      assert b in order;
      var x :| 0 <= x < |order| && order[x] == b;
      assert listing[x] == (b, R.Tombstone(LEFTOVER_VERSION));
    }
    assert forall x | 0 <= x < |order| :: order[x] in Leftover(t, rows);
    hide WriteBack, RestoreRequest, R.Accepted, R.Perform, At, Marks;
    forall b | b in Leftover(t, rows)
      ensures R.Accepted(t, RestoreRequest(b, R.Tombstone(LEFTOVER_VERSION))) <==> t[b].version <= LEFTOVER_VERSION
      ensures R.Accepted(t, RestoreRequest(b, R.Tombstone(LEFTOVER_VERSION))) ==>
                At(R.Perform(t, RestoreRequest(b, R.Tombstone(LEFTOVER_VERSION))), b) == Some(R.Tombstone(LEFTOVER_VERSION))
    {
      LeftoverGoesIff(t, b);
    }
  }

  function LiveRows(t: R.Table): map<BlockId, R.Row> {
    map b | b in t && t[b].Live? :: t[b]
  }

  /** Restoring the rows of a snapshot over any table gives back the live rows wanted exactly
      if each returns and no other live block is past the version of a leftover's delete. */
  lemma RestoreIs(t: R.Table, rows: map<BlockId, R.Row>, order: seq<BlockId>, wanted: R.Table)
    requires Enumerates(order, Leftover(t, rows)) && rows.Keys == wanted.Keys
    requires forall b | b in rows :: wanted[b].Live? && rows[b].version == wanted[b].version
    ensures var r := Restore(t, rows, order);
            && (r.ok && LiveRows(r.table) == wanted <==>
                  (forall b | b in rows :: Returns(t, b, rows[b], wanted[b]))
                  && (forall b | b in Leftover(t, rows) :: t[b].version <= LEFTOVER_VERSION))
            && (r.ok ==> r.blocks == |rows|)
  {
    WrittenIs(t, rows);
    var w, r := WriteBack(t, Listed(rows)), Restore(t, rows, order);
    hide Listed, WriteBack, RestoreRequest, R.Accepted, R.Perform, Returns;
    forall b | b in rows
      ensures Returns(t, b, rows[b], wanted[b]) <==>
                R.Accepted(t, RestoreRequest(b, rows[b])) && At(R.Perform(t, RestoreRequest(b, rows[b])), b) == Some(wanted[b])
    {
      ReturnsIff(t, b, rows[b], wanted[b]);
    }
    if w.ok {
      SameLeftover(t, w.table, rows);
      MarkedIs(w.table, rows, order);
      LiveRowsAre(w.table, r, rows, wanted);
      forall b | b in Leftover(t, rows)
        ensures w.table[b] == t[b]
      {
        assert At(w.table, b) == At(t, b);
      }
    }
  }

  lemma SameLeftover(t: R.Table, t': R.Table, rows: map<BlockId, R.Row>)
    requires forall b | b !in rows :: At(t', b) == At(t, b)
    ensures Leftover(t', rows) == Leftover(t, rows)
  {
    forall b
      ensures b in Leftover(t', rows) <==> b in Leftover(t, rows)
    {
      if b !in rows {
        assert At(t', b) == At(t, b);
      }
    }
  }

  lemma LiveRowsAre(t: R.Table, r: Restored, rows: map<BlockId, R.Row>, wanted: R.Table)
    requires rows.Keys == wanted.Keys && forall b | b in rows :: wanted[b].Live?
    requires r.ok ==> forall b | b in Leftover(t, rows) :: At(r.table, b) == Some(R.Tombstone(LEFTOVER_VERSION))
    requires forall b | b !in Leftover(t, rows) :: At(r.table, b) == At(t, b)
    ensures r.ok ==> (LiveRows(r.table) == wanted <==> forall b | b in rows :: At(t, b) == Some(wanted[b]))
  {
    if r.ok {
      forall b | b !in rows
        ensures b !in LiveRows(r.table)
      {
        assert b in Leftover(t, rows) || At(r.table, b) == At(t, b);
      }
      forall b | b in rows
        ensures b in LiveRows(r.table) && LiveRows(r.table)[b] == wanted[b] <==> At(t, b) == Some(wanted[b])
      {
        assert b !in Leftover(t, rows);
        assert At(r.table, b) == At(t, b);
      }
      if forall b | b in rows :: At(t, b) == Some(wanted[b]) {
        assert LiveRows(r.table) == wanted;
      }
    }
  }

  // ----- snapshot, then anything, then restore -----

  /** list_blocks and a read of each, from a table that does not change meanwhile. */
  function ReadsOf(t: R.Table): Reads {
    var listing := Listed(LiveRows(t));
    seq(|listing|, x requires 0 <= x < |listing| => (listing[x].0, Some(listing[x].1)))
  }

  /** No version of a live block is already stored with other contents. */
  ghost predicate NoClash(s: Store, t: R.Table) {
    forall b, vid {:trigger IsVersion(s, vid, b, t[b].version)} |
      b in t && t[b].Live? && IsVersion(s, vid, b, t[b].version) :: s.versions[vid].row == t[b]
  }

  lemma ReadsOfIs(t: R.Table)
    ensures DistinctReads(ReadsOf(t))
    ensures forall x | 0 <= x < |ReadsOf(t)| :: ReadsOf(t)[x].0 in LiveRows(t) && ReadsOf(t)[x].1 == Some(t[ReadsOf(t)[x].0])
    ensures forall b | b in LiveRows(t) :: exists x :: 0 <= x < |ReadsOf(t)| && ReadsOf(t)[x] == (b, Some(t[b]))
  {
    ListedIs(LiveRows(t));
    var seen, listing := ReadsOf(t), Listed(LiveRows(t));
    hide Listed;
    forall b | b in LiveRows(t)
      ensures exists x :: 0 <= x < |seen| && seen[x] == (b, Some(t[b]))
    {
      var x :| 0 <= x < |listing| && listing[x] == (b, t[b]);
      assert seen[x] == (b, Some(t[b]));
    }
  }

  lemma TookAt(s: Store, s': Store, sid: SnapshotId, t: R.Table, b: BlockId)
    requires Took(s, s', sid, ReadsOf(t))
    ensures RowAt(s', sid, b) == if b in LiveRows(t) then Some(Shared(s, b, t[b])) else None
  {
    ReadsOfIs(t);
    var seen := ReadsOf(t);
    hide Shared, ReadsOf, RowAt, DistinctReads;
    if b in LiveRows(t) {
      var x :| 0 <= x < |seen| && seen[x] == (b, Some(t[b]));
    } else {
      assert b !in ReadIds(seen);
    }
  }

  lemma SnapshotHolds(s: Store, s': Store, sid: SnapshotId, t: R.Table)
    requires Took(s, s', sid, ReadsOf(t))
    ensures SnapshotBlocks(s', sid).Keys == LiveRows(t).Keys
    ensures forall b | b in LiveRows(t) :: SnapshotBlocks(s', sid)[b] == Shared(s, b, t[b])
  {
    hide Shared, ReadsOf, SnapshotBlocks, RowAt, Took;
    forall b
      ensures b in SnapshotBlocks(s', sid) <==> b in LiveRows(t)
      ensures b in LiveRows(t) ==> SnapshotBlocks(s', sid)[b] == Shared(s, b, t[b])
    {
      SnapshotBlocksAt(s', sid, b);
      TookAt(s, s', sid, t, b);
    }
  }

  lemma SharedIsOwnIff(s: Store, t: R.Table, b: BlockId)
    requires Unique(s) && b in t
    ensures Shared(s, b, t[b]).version == t[b].version
    ensures Shared(s, b, t[b]) == t[b] <==> forall vid | IsVersion(s, vid, b, t[b].version) :: s.versions[vid].row == t[b]
  {
    if vid :| IsVersion(s, vid, b, t[b].version) {
      FoundIs(s, vid, b, t[b].version);
    }
  }

  lemma UniqueOf(s: Store, extra: Extra)
    requires ExactBut(s, extra)
    ensures Unique(s)
  {
  }

  /** Take a snapshot, do any snapshot operations but deleting this one, crashes included, and
      restore over whatever the table has become, empty or not: the live blocks come back with
      the versions and data they had exactly if, block by block, the copy kept is the one
      wanted and what is there by now is older, or what is there by now is the row itself, and
      every other live block is at most at the version that leftovers are deleted with. */
  lemma RestoreOverUndoesIff(s: Store, t: R.Table, ops: seq<StoreOp>, extra: Extra, now: R.Table, order: seq<BlockId>)
    requires ExactBut(s, extra) && WellFormed(ops) && DeleteOp(s.next) !in ops
    requires Enumerates(order, Leftover(now, LiveRows(t)))
    ensures var later := After(Create(s, ReadsOf(t), false), ops);
            var r := Restore(now, SnapshotBlocks(later, s.next), order);
            (r.ok && LiveRows(r.table) == LiveRows(t)) <==>
              (forall b | b in LiveRows(t) :: Returns(now, b, Shared(s, b, t[b]), t[b]))
              && (forall b | b in Leftover(now, LiveRows(t)) :: now[b].version <= LEFTOVER_VERSION)
  {
    hide ExactBut, Restore, SnapshotBlocks, Shared, After, Create, WellFormed, Took, ReadsOf, Returns;
    ReadsOfIs(t);
    var created := Create(s, ReadsOf(t), false);
    CreateIsExact(s, ReadsOf(t), false, extra);
    SnapshotIsStable(created, ops, s.next, extra);
    SnapshotHolds(s, created, s.next, t);
    UniqueOf(s, extra);
    var rows := SnapshotBlocks(created, s.next);
    forall b | b in rows
      ensures rows[b].version == t[b].version
    {
      SharedIsOwnIff(s, t, b);
    }
    assert Leftover(now, rows) == Leftover(now, LiveRows(t));
    RestoreIs(now, rows, order, LiveRows(t));
  }

  /** With clear_blocks wired the table is empty when the rows are written, and the live blocks
      come back exactly when no stored version clashed with them at creation. */
  lemma RestoreUndoesIff(s: Store, t: R.Table, ops: seq<StoreOp>, extra: Extra)
    requires ExactBut(s, extra) && WellFormed(ops) && DeleteOp(s.next) !in ops
    ensures var later := After(Create(s, ReadsOf(t), false), ops);
            var r := Restore(map[], SnapshotBlocks(later, s.next), []);
            (r.ok && LiveRows(r.table) == LiveRows(t)) <==> NoClash(s, t)
  {
    hide ExactBut, Restore, SnapshotBlocks, Shared, After, Create, WellFormed, ReadsOf;
    RestoreOverUndoesIff(s, t, ops, extra, map[], []);
    UniqueOf(s, extra);
    forall b | b in LiveRows(t)
      ensures Shared(s, b, t[b]) == t[b] <==> forall vid | IsVersion(s, vid, b, t[b].version) :: s.versions[vid].row == t[b]
    {
      SharedIsOwnIff(s, t, b);
    }
    assert forall b | b in LiveRows(t) :: Returns(map[], b, Shared(s, b, t[b]), t[b]) <==> Shared(s, b, t[b]) == t[b];
    hide IsVersion;
    if NoClash(s, t) {
      assert forall b | b in LiveRows(t) :: Shared(s, b, t[b]) == t[b];
    }
  }

  // ----- the objects -----

  /** The rows gone through that point at a version. */
  ghost function Done(pointers: map<(SnapshotId, BlockId), VersionId>, todo: set<(SnapshotId, BlockId)>, v: VersionId): set<(SnapshotId, BlockId)> {
    set key | key in pointers && key !in todo && pointers[key] == v
  }

  lemma NoneDone(s: Store, sid: SnapshotId, pointers: map<(SnapshotId, BlockId), VersionId>)
    requires pointers == map key | key in s.blocks && key.0 == sid :: s.blocks[key]
    ensures forall v :: Done(pointers, pointers.Keys, v) == {} && Done(pointers, {}, v) == RowsOf(s, sid, v)
  {
  }

  lemma OneMoreDone(pointers: map<(SnapshotId, BlockId), VersionId>, todo: set<(SnapshotId, BlockId)>, key: (SnapshotId, BlockId))
    requires key in todo && key in pointers
    ensures forall v :: |Done(pointers, todo - {key}, v)| == |Done(pointers, todo, v)| + if v == pointers[key] then 1 else 0
  {
    forall v
      ensures |Done(pointers, todo - {key}, v)| == |Done(pointers, todo, v)| + if v == pointers[key] then 1 else 0
    {
      if v == pointers[key] {
        assert Done(pointers, todo - {key}, v) == Done(pointers, todo, v) + {key};
      } else {
        assert Done(pointers, todo - {key}, v) == Done(pointers, todo, v);
      }
    }
  }

  class SnapshotStore {
    var snapshots: map<SnapshotId, SnapshotRow>
    var versions: map<VersionId, Copy>
    var blocks: map<(SnapshotId, BlockId), VersionId>
    var next: nat

    ghost function View(): Store
      reads this
    {
      Store(snapshots, versions, blocks, next)
    }

    ghost predicate Valid()
      reads this
    {
      Sound(View())
    }

    constructor ()
      ensures Valid() && View() == EmptyStore
    {
      snapshots, versions, blocks, next := map[], map[], map[], 0;
      new;
      assert ExactBut(View(), map[]);
    }

    method CreateSnapshotRecord() returns (sid: SnapshotId)
      modifies this
      ensures View() == Begin(old(View())) && sid == old(next)
    {
      sid := next;
      snapshots := snapshots[sid := SnapshotRow(Creating, 0, 0)];
      next := next + 1;
    }

    method GetOrCreateBlockVersion(b: BlockId, row: R.Row) returns (vid: VersionId)
      requires Valid()
      modifies this
      ensures (View(), vid) == GetOrCreate(old(View()), b, row)
    {
      var found := set v | v in versions && versions[v].block == b && versions[v].row.version == row.version;
      if found != {} {
        vid :| vid in found;
        FoundIs(View(), vid, b, row.version);
        versions := versions[vid := versions[vid].(refCount := versions[vid].refCount + 1)];
        return;
      }
      assert forall v :: IsVersion(View(), v, b, row.version) ==> v in found;
      vid := next;
      versions := versions[vid := Copy(b, row, 1)];
      next := next + 1;
    }

    method AddSnapshotBlock(sid: SnapshotId, b: BlockId, vid: VersionId)
      modifies this
      ensures View() == AddBlock(old(View()), sid, b, vid)
    {
      blocks := blocks[(sid, b) := vid];
    }

    method FinalizeSnapshot(sid: SnapshotId, row: SnapshotRow)
      modifies this
      ensures View() == Finalize(old(View()), sid, row)
      ensures sid !in old(snapshots) ==> snapshots == old(snapshots)
      ensures sid in old(snapshots) ==> snapshots == old(snapshots)[sid := row]
    {
      if sid in snapshots {
        snapshots := snapshots[sid := row];
      }
    }

    method GetSnapshotBlocks(sid: SnapshotId) returns (listing: Listing)
      ensures listing == Listed(SnapshotBlocks(View(), sid))
    {
      var rows := map b | b in (set key | key in blocks && key.0 == sid :: key.1) && (sid, b) in blocks && blocks[(sid, b)] in versions ::
                    versions[blocks[(sid, b)]].row;
      assert rows == SnapshotBlocks(View(), sid);
      listing := Listed(rows);
    }

    /** None when there is no such snapshot; otherwise its size. */
    method DeleteSnapshot(sid: SnapshotId) returns (size: Option<nat>)
      modifies this
      ensures size.Some? <==> sid in old(snapshots)
      ensures size.Some? ==> size.value == old(snapshots)[sid].sizeBytes
      ensures View() == if size.Some? then Delete(old(View()), sid) else old(View())
    {
      if sid !in snapshots {
        return None;
      }
      size := Some(snapshots[sid].sizeBytes);
      ghost var before := View();
      var pointers := map key | key in blocks && key.0 == sid :: blocks[key];
      blocks := map key | key in blocks && key.0 != sid :: blocks[key];
      snapshots := snapshots - {sid};
      var released := Released(before, sid, pointers, versions);
      versions := map v | v in released && released[v].refCount > 0 :: released[v];
      hide RowsOf;
      assert versions == Delete(before, sid).versions;
    }

    /** One decrement for each row of the snapshot. */
    static method Released(ghost before: Store, sid: SnapshotId, pointers: map<(SnapshotId, BlockId), VersionId>, table: map<VersionId, Copy>)
      returns (released: map<VersionId, Copy>)
      requires table == before.versions
      requires pointers == map key | key in before.blocks && key.0 == sid :: before.blocks[key]
      ensures released.Keys == table.Keys
      ensures forall v | v in table :: released[v] == table[v].(refCount := table[v].refCount - |RowsOf(before, sid, v)|)
    {
      released := table;
      var todo := pointers.Keys;
      NoneDone(before, sid, pointers);
      while todo != {}
        invariant todo <= pointers.Keys && released.Keys == table.Keys
        invariant forall v | v in table :: released[v] == table[v].(refCount := table[v].refCount - |Done(pointers, todo, v)|)
        decreases |todo|
      {
        var key :| key in todo;
        var vid := pointers[key];
        OneMoreDone(pointers, todo, key);
        hide Done;
        if vid in released {
          released := released[vid := released[vid].(refCount := released[vid].refCount - 1)];
        }
        todo := todo - {key};
      }
    }

    method RecoverInterruptedSnapshots() returns (failed: set<SnapshotId>)
      modifies this
      ensures View() == RecoverInterrupted(old(View()))
      ensures failed == set sid | sid in old(snapshots) && snapshots[sid] != old(snapshots)[sid]
    {
      failed := set sid | sid in snapshots && (snapshots[sid].status == Creating || snapshots[sid].status == Restoring);
      snapshots := map sid | sid in snapshots :: if sid in failed then snapshots[sid].(status := Failed) else snapshots[sid];
    }

    method ReclaimOrphanBlocks() returns (removed: nat)
      modifies this
      ensures View() == Reclaim(old(View())) && removed == |old(versions).Keys - versions.Keys|
      ensures removed == |set v | v in old(versions) && old(versions)[v].refCount <= 0|
    {
      var kept := map v | v in versions && versions[v].refCount > 0 :: versions[v];
      removed := |versions.Keys - kept.Keys|;
      assert versions.Keys - kept.Keys == set v | v in versions && versions[v].refCount <= 0;
      versions := kept;
    }
  }
}
