/** Raft log entries, the durable raft_log table, and how the two mirror each other
    (metadata/raft/models.py, metadata/raft/storage.py). */
module RaftLog {
  import opened Metadata

  /** Log indices start at 1; position p of a log holds index p + 1. */
  type Index = n: nat | 1 <= n witness 1

  datatype LogEntry = LogEntry(index: Index, term: nat, command: Command)

  /** The raft_log table, keyed by log_index. */
  type Rows = map<nat, LogEntry>

  /** Everything raft.db keeps for one peer: the raft_state row and the raft_log rows. */
  datatype Disk = Disk(term: nat, vote: Option<NodeId>, rows: Rows)

  const EmptyDisk := Disk(0, None, map[])

  /** INSERT OR REPLACE of each entry in turn. */
  function PutRows(rows: Rows, entries: seq<LogEntry>): Rows
    decreases |entries|
  {
    if entries == [] then rows else PutRows(rows[entries[0].index := entries[0]], entries[1..])
  }

  /** DELETE of every row at or above an index. */
  function DropRowsFrom(rows: Rows, start: nat): Rows {
    map k | k in rows && k < start :: rows[k]
  }

  lemma MaxKeyExists(keys: set<nat>)
    requires keys != {}
    ensures exists m :: m in keys && forall k | k in keys :: k <= m
  {
    var k :| k in keys;
    var rest := keys - {k};
    assert keys == rest + {k};
    if rest == {} {
      assert forall j | j in keys :: j == k;
    } else {
      MaxKeyExists(rest);
      var m :| m in rest && forall j | j in rest :: j <= m;
      assert forall j | j in keys :: j == k || j in rest;
      if k < m {
        assert m in keys && forall j | j in keys :: j <= m;
      } else {
        assert k in keys && forall j | j in keys :: j <= k;
      }
    }
  }

  function MaxKey(keys: set<nat>): (m: nat)
    requires keys != {}
    ensures m in keys && forall k | k in keys :: k <= m
  {
    MaxKeyExists(keys);
    var m :| m in keys && forall k | k in keys :: k <= m;
    m
  }

  /** SELECT ... ORDER BY log_index. */
  function SortedRows(rows: Rows): seq<LogEntry>
    decreases |rows|
  {
    if rows == map[] then []
    else
      var m := MaxKey(rows.Keys);
      var rest := rows - {m};
      assert rest.Keys == rows.Keys - {m};
      SortedRows(rest) + [rows[m]]
  }

  /** How many rows come before index k. */
  function Rank(rows: Rows, k: nat): nat {
    |set j | j in rows && j < k|
  }

  /** Every row is read once, after exactly the rows of smaller index. */
  lemma {:induction false} SortedRowsAt(rows: Rows, k: nat)
    requires k in rows
    ensures |SortedRows(rows)| == |rows| && Rank(rows, k) < |rows|
    ensures SortedRows(rows)[Rank(rows, k)] == rows[k]
    decreases |rows|
  {
    var m := MaxKey(rows.Keys);
    var rest := rows - {m};
    assert rest.Keys == rows.Keys - {m};
    assert |rows| == |rest| + 1;
    if rest == map[] {
      assert SortedRows(rest) == [] && k == m;
      assert (set j | j in rows && j < k) == {};
    } else if k == m {
      var other :| other in rest;
      SortedRowsAt(rest, other);
      assert (set j | j in rows && j < k) == rest.Keys;
    } else {
      SortedRowsAt(rest, k);
      assert (set j | j in rows && j < k) == (set j | j in rest && j < k);
    }
  }

  lemma SortedRowsSize(rows: Rows)
    ensures |SortedRows(rows)| == |rows|
  {
    if rows != map[] {
      SortedRowsAt(rows, MaxKey(rows.Keys));
    }
  }

  /** Two logs hold the same entries in their first k places. */
  ghost predicate Agree(a: seq<LogEntry>, b: seq<LogEntry>, k: nat) {
    && k <= |a|
    && k <= |b|
    && forall x | 0 <= x < k :: a[x] == b[x]
  }

  /** Section 5.3 of the extended Raft paper: an entry identifies the whole prefix below it. */
  ghost predicate Matches(a: seq<LogEntry>, b: seq<LogEntry>) {
    forall x | 0 <= x < |a| && x < |b| && a[x].term == b[x].term :: Agree(a, b, x + 1)
  }

  ghost predicate Indexed(log: seq<LogEntry>) {
    forall x | 0 <= x < |log| :: log[x].index == x + 1
  }

  /** The table holds exactly the entries of the list. */
  ghost predicate Mirror(rows: Rows, log: seq<LogEntry>) {
    && (forall k :: k in rows <==> 1 <= k <= |log|)
    && (forall k | 1 <= k <= |log| :: rows[k] == log[k - 1])
  }

  lemma {:induction false} SortedRowsOfMirror(rows: Rows, log: seq<LogEntry>)
    requires Mirror(rows, log)
    ensures SortedRows(rows) == log
    decreases |log|
  {
    if log == [] {
      assert rows == map[];
    } else {
      assert |log| in rows;
      assert MaxKey(rows.Keys) == |log|;
      var rest := rows - {|log|};
      assert Mirror(rest, log[..|log| - 1]);
      SortedRowsOfMirror(rest, log[..|log| - 1]);
      assert log == log[..|log| - 1] + [log[|log| - 1]];
    }
  }

  lemma {:induction false} PutRowsContents(rows: Rows, entries: seq<LogEntry>, prev: nat)
    requires forall x | 0 <= x < |entries| :: entries[x].index == prev + x + 1
    ensures forall k :: k in PutRows(rows, entries) <==> k in rows || prev < k <= prev + |entries|
    ensures forall k | k in PutRows(rows, entries) ::
              PutRows(rows, entries)[k] == if prev < k <= prev + |entries| then entries[k - prev - 1] else rows[k]
    decreases |entries|
  {
    if entries != [] {
      PutRowsContents(rows[entries[0].index := entries[0]], entries[1..], prev + 1);
    }
  }

  /** One pass of the follower's loop over a request's entries. */
  datatype Merged = Merged(log: seq<LogEntry>, rows: Rows)

  function MergeEntry(m: Merged, e: LogEntry): Merged {
    var kept := if e.index <= |m.log| && m.log[e.index - 1].term != e.term
                then Merged(m.log[..e.index - 1], DropRowsFrom(m.rows, e.index)) else m;
    if e.index > |kept.log| then kept.(log := kept.log + [e]) else kept
  }

  function MergeEntries(m: Merged, entries: seq<LogEntry>): Merged
    decreases |entries|
  {
    if entries == [] then m else MergeEntries(MergeEntry(m, entries[0]), entries[1..])
  }

  lemma {:induction false} MergeEntriesSnoc(m: Merged, entries: seq<LogEntry>, e: LogEntry)
    ensures MergeEntries(m, entries + [e]) == MergeEntry(MergeEntries(m, entries), e)
    decreases |entries|
  {
    if entries == [] {
      assert (entries + [e])[1..] == [];
    } else {
      assert (entries + [e])[1..] == entries[1..] + [e];
      MergeEntriesSnoc(MergeEntry(m, entries[0]), entries[1..], e);
    }
  }

  /** Rows that reflect the list except possibly at indices the request will rewrite. */
  ghost predicate MirrorBut(m: Merged, base: nat, upto: nat) {
    && (forall k :: k in m.rows ==> 1 <= k <= |m.log|)
    && (forall k | k in m.rows :: 1 <= k <= |m.log| && m.rows[k] == m.log[k - 1])
    && (forall k | 1 <= k <= |m.log| && !(base < k <= upto) :: k in m.rows)
  }

  /** After the loop the list is untouched if it already held the sender's first upto
      entries, and otherwise is exactly those entries; the rows lack at most what the
      closing INSERT OR REPLACE supplies. */
  lemma {:induction false} MergeOutcome(m: Merged, sender: seq<LogEntry>, base: nat, prev: nat, upto: nat)
    requires base <= prev <= upto <= |sender|
    requires Indexed(sender) && Agree(m.log, sender, prev) && Matches(m.log, sender)
    requires MirrorBut(m, base, upto)
    ensures var r := MergeEntries(m, sender[prev..upto]);
            && r.log == (if Agree(m.log, sender, upto) then m.log else sender[..upto])
            && MirrorBut(r, base, upto)
    decreases upto - prev
  {
    var entries := sender[prev..upto];
    if prev == upto {
      assert entries == [];
    } else {
      assert entries[0] == sender[prev] && entries[1..] == sender[prev + 1..upto];
      var m1 := MergeEntry(m, sender[prev]);
      if prev < |m.log| && m.log[prev].term == sender[prev].term {
        assert Agree(m.log, sender, prev + 1);
        assert m1 == m;
      } else {
        assert m1.log == sender[..prev + 1];
        assert !Agree(m.log, sender, upto);
      }
      MergeOutcome(m1, sender, base, prev + 1, upto);
    }
  }

  /** The whole disk effect of a successful AppendEntries leaves the table equal to the list.
      Replacing rows that were already there changes nothing, because of Matches. */
  lemma MergeThenPutMirrors(log: seq<LogEntry>, rows: Rows, sender: seq<LogEntry>, prev: nat, upto: nat)
    requires prev <= upto <= |sender|
    requires Indexed(sender) && Agree(log, sender, prev) && Matches(log, sender)
    requires Mirror(rows, log)
    ensures var r := MergeEntries(Merged(log, rows), sender[prev..upto]);
            && r.log == (if Agree(log, sender, upto) then log else sender[..upto])
            && Mirror(PutRows(r.rows, sender[prev..upto]), r.log)
  {
    hide MergeEntries, MergeEntry, PutRows, Matches;
    var entries := sender[prev..upto];
    MergeOutcome(Merged(log, rows), sender, prev, prev, upto);
    var r := MergeEntries(Merged(log, rows), entries);
    PutSuppliesTheRest(r, entries, prev);
  }

  lemma PutSuppliesTheRest(m: Merged, entries: seq<LogEntry>, prev: nat)
    requires MirrorBut(m, prev, prev + |entries|) && prev + |entries| <= |m.log|
    requires forall x | 0 <= x < |entries| :: entries[x] == m.log[prev + x] && entries[x].index == prev + x + 1
    ensures Mirror(PutRows(m.rows, entries), m.log)
  {
    hide PutRows;
    PutRowsContents(m.rows, entries, prev);
  }

  /** A crash between the truncation and the insert leaves a table holding a prefix of the
      old list that still contains everything the list shared with the sender. */
  lemma {:induction false} MergeRowsAlone(log: seq<LogEntry>, rows: Rows, sender: seq<LogEntry>, prev: nat, upto: nat)
    requires prev <= upto <= |sender|
    requires Indexed(sender) && Agree(log, sender, prev) && Matches(log, sender)
    requires Mirror(rows, log)
    ensures var r := MergeEntries(Merged(log, rows), sender[prev..upto]);
            exists keep: nat :: keep <= |log| && Mirror(r.rows, log[..keep])
              && forall k: nat | Agree(log, sender, k) :: k <= keep
    decreases upto - prev
  {
    var entries := sender[prev..upto];
    if prev == upto {
      assert entries == [];
      assert log[..|log|] == log;
    } else if prev < |log| && log[prev].term == sender[prev].term {
      assert entries[0] == sender[prev] && entries[1..] == sender[prev + 1..upto];
      assert Agree(log, sender, prev + 1);
      assert MergeEntry(Merged(log, rows), sender[prev]) == Merged(log, rows);
      MergeRowsAlone(log, rows, sender, prev + 1, upto);
    } else {
      var m1 := MergeEntry(Merged(log, rows), sender[prev]);
      assert entries[0] == sender[prev] && entries[1..] == sender[prev + 1..upto];
      MergeOnlyAppends(m1, sender, prev + 1, upto);
      assert Mirror(m1.rows, log[..prev]);
    }
  }

  /** Once the list has been cut to the sender's prefix, the rest of the loop only appends. */
  lemma {:induction false} MergeOnlyAppends(m: Merged, sender: seq<LogEntry>, prev: nat, upto: nat)
    requires prev <= upto <= |sender| && Indexed(sender)
    requires m.log == sender[..prev]
    ensures MergeEntries(m, sender[prev..upto]) == Merged(sender[..upto], m.rows)
    decreases upto - prev
  {
    var entries := sender[prev..upto];
    if prev == upto {
      assert entries == [];
    } else {
      assert entries[0] == sender[prev] && entries[1..] == sender[prev + 1..upto];
      assert MergeEntry(m, sender[prev]).log == sender[..prev + 1];
      MergeOnlyAppends(MergeEntry(m, sender[prev]), sender, prev + 1, upto);
    }
  }
}
