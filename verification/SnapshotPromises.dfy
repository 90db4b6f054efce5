/** What the snapshot operations promise of records, rows and counts, not through the functions that
    compute them (storage/snapshot_store.py, storage/snapshot_manager.py, storage/restore_service.py). */
module SnapshotPromises {
  import opened Metadata
  import Order
  import R = BlockRows
  import opened Snapshots

  // ----- create_snapshot -----

  /** One element for each byte, in UTF-8, of the live data that was read. */
  ghost function BytesRead(seen: Reads): set<(BlockId, nat)> {
    set x: nat, k: nat | x < |seen| && seen[x].1.Some? && seen[x].1.value.Live? && k < R.Utf8Size(seen[x].1.value.data) :: (seen[x].0, k)
  }

  /** One element for each byte of a table's live data. */
  ghost function LiveBytes(t: R.Table): set<(BlockId, nat)> {
    set b, k: nat | b in t && t[b].Live? && k < R.Utf8Size(t[b].data) :: (b, k)
  }

  /** The only record that is new is that of sid: ready with the number and size of what was listed
      and read, or failed with zeros. */
  ghost predicate Recorded(s: Store, sid: SnapshotId, failed: bool, count: nat, size: nat, s': Store) {
    && sid !in s.snapshots
    && s'.snapshots.Keys == s.snapshots.Keys + {sid}
    && (forall other | other in s.snapshots :: s'.snapshots[other] == s.snapshots[other])
    && (failed <==> s'.snapshots[sid].status == Failed)
    && (!failed <==> s'.snapshots[sid].status == Ready)
    && s'.snapshots[sid].blockCount == (if failed then 0 else count)
    && s'.snapshots[sid].sizeBytes == (if failed then 0 else size)
  }

  lemma {:induction false} BytesOfOne(b: BlockId, n: nat)
    ensures |set k: nat | k < n :: (b, k)| == n
  {
    if n > 0 {
      BytesOfOne(b, n - 1);
      assert (set k: nat | k < n :: (b, k)) == (set k: nat | k < n - 1 :: (b, k)) + {(b, n - 1)};
    }
  }

  lemma {:induction false} SizeIsBytes(seen: Reads)
    requires DistinctReads(seen)
    ensures Size(seen) == |BytesRead(seen)|
  {
    if seen == [] {
      assert BytesRead(seen) == {};
    } else {
      var rest := seen[..|seen| - 1];
      var (b, row) := seen[|seen| - 1];
      SizeIsBytes(rest);
      var n := if row.Some? && row.value.Live? then R.Utf8Size(row.value.data) else 0;
      var own := set k: nat | k < n :: (b, k);
      BytesOfOne(b, n);
      assert forall x | 0 <= x < |rest| :: rest[x] == seen[x];
      LastBytes(seen, b, n);
      assert BytesRead(rest) !! own;
    }
  }

  lemma LastBytes(seen: Reads, b: BlockId, n: nat)
    requires seen != [] && b == seen[|seen| - 1].0
    requires var row := seen[|seen| - 1].1; n == if row.Some? && row.value.Live? then R.Utf8Size(row.value.data) else 0
    ensures BytesRead(seen) == BytesRead(seen[..|seen| - 1]) + set k: nat | k < n :: (b, k)
  {
    hide R.Utf8Size;
    var rest, last := seen[..|seen| - 1], |seen| - 1;
    forall e
      ensures e in BytesRead(seen) <==> e in BytesRead(rest) || (e.0 == b && e.1 < n)
    {
      if e in BytesRead(rest) {
        var x: nat :| x < |rest| && rest[x].1.Some? && rest[x].1.value.Live? && e.1 < R.Utf8Size(rest[x].1.value.data) && e == (rest[x].0, e.1);
        assert seen[x] == rest[x];
      }
      if e in BytesRead(seen) {
        var x: nat :| x < |seen| && seen[x].1.Some? && seen[x].1.value.Live? && e.1 < R.Utf8Size(seen[x].1.value.data) && e == (seen[x].0, e.1);
        if x < last {
          assert rest[x] == seen[x];
        }
      }
      if e.0 == b && e.1 < n {
        assert e == (seen[last].0, e.1);
      }
    }
  }

  lemma {:induction false} TakeKeepsRecords(s: Store, sid: SnapshotId, seen: Reads)
    ensures Take(s, sid, seen).snapshots == s.snapshots
  {
    if seen != [] {
      TakeKeepsRecords(s, sid, seen[..|seen| - 1]);
    }
  }

  lemma CreationIsRecorded(s: Store, seen: Reads, failed: bool)
    requires Sound(s) && DistinctReads(seen)
    ensures Recorded(s, s.next, failed, |seen|, |BytesRead(seen)|, Create(s, seen, failed))
  {
    SizeIsBytes(seen);
    TakeKeepsRecords(Begin(s), s.next, seen);
    hide Take, Size, BytesRead;
    var extra :| ExactBut(s, extra);
    assert s.next !in s.snapshots;
  }

  /** Over a whole engine: the live blocks and their bytes. */
  lemma TableIsRecorded(s: Store, t: R.Table)
    requires Sound(s)
    ensures Recorded(s, s.next, false, |LiveRows(t)|, |LiveBytes(t)|, Create(s, ReadsOf(t), false))
  {
    var seen := ReadsOf(t);
    ReadsOfIs(t);
    ListedIs(LiveRows(t));
    assert |seen| == |LiveRows(t)|;
    hide Create, ReadsOf, Listed;
    assert BytesRead(seen) == LiveBytes(t) by {
      ReadsAreLive(t, seen);
    }
    CreationIsRecorded(s, seen, false);
  }

  lemma ReadsAreLive(t: R.Table, seen: Reads)
    requires forall x | 0 <= x < |seen| :: seen[x].0 in LiveRows(t) && seen[x].1 == Some(t[seen[x].0])
    requires forall b | b in LiveRows(t) :: exists x :: 0 <= x < |seen| && seen[x] == (b, Some(t[b]))
    ensures BytesRead(seen) == LiveBytes(t)
  {
    hide R.Utf8Size;
    forall e | e in LiveBytes(t)
      ensures e in BytesRead(seen)
    {
      var x :| 0 <= x < |seen| && seen[x] == (e.0, Some(t[e.0]));
      assert e == (seen[x].0, e.1);
    }
  }

  // ----- delete_snapshot, recover_interrupted_snapshots -----

  /** A deletion takes the record and the rows of its snapshot, no other, and exactly the versions
      that no row of another snapshot points at and no crash left counted. */
  lemma DeletionRemoves(s: Store, sid: SnapshotId, extra: Extra)
    requires ExactBut(s, extra)
    ensures var r := Delete(s, sid);
            && r.next == s.next
            && r.snapshots.Keys == s.snapshots.Keys - {sid}
            && (forall other | other in r.snapshots :: r.snapshots[other] == s.snapshots[other])
            && r.blocks.Keys == (set key | key in s.blocks && key.0 != sid)
            && (forall key | key in r.blocks :: r.blocks[key] == s.blocks[key])
            && (forall v :: v in r.versions <==>
                  v in s.versions && (v in extra || exists key :: key in s.blocks && key.0 != sid && s.blocks[key] == v))
            && (forall v | v in r.versions :: r.versions[v].block == s.versions[v].block && r.versions[v].row == s.versions[v].row)
  {
    var r := Delete(s, sid);
    forall v | v in s.versions
      ensures v in r.versions <==> v in extra || exists key :: key in s.blocks && key.0 != sid && s.blocks[key] == v
    {
      StillCounted(s, sid, v, extra);
      StaysReferenced(s, sid, v);
      OwedIfIn(s, extra, v);
      hide RowsOf, References, AllCounted, Pointed, Unique, IdsUsed;
    }
  }

  lemma OwedIfIn(s: Store, extra: Extra, v: VersionId)
    requires Stored(s, extra)
    ensures v in extra <==> Owed(extra, v) > 0
  {
  }

  lemma StaysReferenced(s: Store, sid: SnapshotId, v: VersionId)
    ensures |References(Delete(s, sid), v)| > 0 <==> exists key :: key in s.blocks && key.0 != sid && s.blocks[key] == v
  {
    var refs := References(Delete(s, sid), v);
    if key :| key in s.blocks && key.0 != sid && s.blocks[key] == v {
      assert key in refs;
    } else {
      assert refs == {};
    }
  }

  /** After a start nothing is creating or restoring: exactly those have failed, and nothing else about
      any snapshot has changed. */
  lemma InterruptedFail(s: Store)
    ensures var r := RecoverInterrupted(s);
            && r == s.(snapshots := r.snapshots) && r.snapshots.Keys == s.snapshots.Keys
            && (forall sid | sid in s.snapshots ::
                  && r.snapshots[sid].status in {Ready, Failed}
                  && (r.snapshots[sid].status == Ready <==> s.snapshots[sid].status == Ready)
                  && r.snapshots[sid].blockCount == s.snapshots[sid].blockCount
                  && r.snapshots[sid].sizeBytes == s.snapshots[sid].sizeBytes)
  {
  }

  /** Once a process that died in a creation has started again, that snapshot has failed with nothing counted,
      and no other record is new. */
  lemma CrashedCreationFails(s: Store, seen: Reads, counted: Option<(BlockId, R.Row)>)
    requires Sound(s)
    ensures var r := RecoverInterrupted(Crashed(s, seen, counted)).snapshots;
            && r.Keys == s.snapshots.Keys + {s.next} && s.next !in s.snapshots
            && r[s.next] == SnapshotRow(Failed, 0, 0)
            && (forall sid | sid in s.snapshots && s.snapshots[sid].status in {Ready, Failed} :: r[sid] == s.snapshots[sid])
  {
    var extra :| ExactBut(s, extra);
    TakeKeepsRecords(Begin(s), s.next, seen);
    hide Take, FindVersion;
  }

  /** A reclaim removes the versions without a reference left, and nothing else. */
  lemma ReclaimRemoves(s: Store)
    ensures var r := Reclaim(s);
            && r == s.(versions := r.versions)
            && (forall v | v in s.versions :: v in r.versions || s.versions[v].refCount <= 0)
            && (forall v | v in r.versions :: v in s.versions && r.versions[v] == s.versions[v] && s.versions[v].refCount > 0)
  {
  }

  // ----- restore_snapshot -----

  /** The rows of a snapshot are written back in code point order of their ids, each once. */
  lemma ListingIsInOrder(rows: map<BlockId, R.Row>, x: nat, y: nat)
    requires x < y < |Listed(rows)|
    ensures Order.Below(Listed(rows)[x].0, Listed(rows)[y].0)
  {
    Order.SortSetIsSorted(rows.Keys);
  }

  /** Writing back goes row by row and ends at the first one refused, which is also how many are counted
      as restored; the rows before it have been written and nothing else has. */
  ghost predicate StopsAtRefusal(t: R.Table, listing: Listing, r: Restored) {
    && r.blocks <= |listing| && (r.ok <==> r.blocks == |listing|)
    && (!r.ok ==> !R.Accepted(t, RestoreRequest(listing[r.blocks].0, listing[r.blocks].1)))
    && (forall x | 0 <= x < r.blocks :: R.Accepted(t, RestoreRequest(listing[x].0, listing[x].1)))
    && (forall x | 0 <= x < r.blocks ::
          At(r.table, listing[x].0) == At(R.Perform(t, RestoreRequest(listing[x].0, listing[x].1)), listing[x].0))
    && (forall b | (forall x | 0 <= x < r.blocks :: listing[x].0 != b) :: At(r.table, b) == At(t, b))
  }

  lemma {:induction false} WriteBackStops(t: R.Table, listing: Listing)
    requires DistinctListing(listing)
    ensures StopsAtRefusal(t, listing, WriteBack(t, listing))
  {
    hide RestoreRequest, R.Accepted, R.Perform, At;
    if listing != [] {
      var n := |listing| - 1;
      var before := WriteBack(t, listing[..n]);
      var (b, row) := listing[n];
      WriteBackStops(t, listing[..n]);
      assert forall x | 0 <= x < n :: listing[..n][x] == listing[x];
      if before.ok {
        WriteIsLocal(before.table, t, b, row);
      }
    }
  }

  /** A row is refused exactly if the block has a newer one by now, which for a live row must be live. */
  lemma RefusedIff(t: R.Table, b: BlockId, row: R.Row)
    ensures !R.Accepted(t, RestoreRequest(b, row)) <==> b in t && t[b].version > row.version && (row.Live? ==> t[b].Live?)
  {
  }
}
