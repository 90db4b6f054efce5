/** The operation log of one node, line by line, and replaying it into the blocks table
    (node/oplog.py, StorageEngine._replay_oplog). */
module OplogLines {
  import opened BlockRows

  datatype Entry = Logged(lsn: nat, change: Change) | Checkpoint(lsn: nat, through: nat)

  /** Torn stands for any line that does not parse or whose checksum is wrong. */
  datatype Line = Good(entry: Entry) | Blank | Torn

  /** What recover leaves of the file: everything before the first bad line. */
  function Recovered(lines: seq<Line>): seq<Line> {
    if lines == [] || lines[0].Torn? then [] else [lines[0]] + Recovered(lines[1..])
  }

  predicate Clean(lines: seq<Line>) {
    forall x | 0 <= x < |lines| :: !lines[x].Torn?
  }

  function Entries(lines: seq<Line>): seq<Entry> {
    if lines == [] then []
    else Entries(lines[..|lines| - 1]) + (if lines[|lines| - 1].Good? then [lines[|lines| - 1].entry] else [])
  }

  function HighWater(es: seq<Entry>): nat {
    if es == [] then 0
    else
      var before, lsn := HighWater(es[..|es| - 1]), es[|es| - 1].lsn;
      if lsn > before then lsn else before
  }

  /** What compact keeps. */
  function Compacted(es: seq<Entry>, through: nat): seq<Entry> {
    if es == [] then []
    else
      var before, e := Compacted(es[..|es| - 1], through), es[|es| - 1];
      if e.Checkpoint? || e.lsn <= through then before else before + [e]
  }

  function AsLines(es: seq<Entry>): seq<Line> {
    seq(|es|, k requires 0 <= k < |es| => Good(es[k]))
  }

  /** extent_store.db: the blocks table and the replay cursor. */
  datatype Db = Db(rows: Table, cursor: nat)

  function ApplyEntry(t: Table, e: Entry): Table {
    if e.Logged? then Apply(t, e.change) else t
  }

  /** The replay loop; an lsn of 0 stands for none. */
  function Replay(db: Db, es: seq<Entry>): Db {
    if es == [] then db
    else
      var r, e := Replay(db, es[..|es| - 1]), es[|es| - 1];
      if e.lsn != 0 && e.lsn <= r.cursor then r
      else Db(ApplyEntry(r.rows, e), if e.lsn != 0 then e.lsn else r.cursor)
  }

  // ----- lines -----

  lemma {:induction false} RecoveredIsCleanPrefix(lines: seq<Line>)
    ensures Clean(Recovered(lines)) && Recovered(lines) <= lines
    ensures |Recovered(lines)| < |lines| ==> lines[|Recovered(lines)|].Torn?
  {
    if lines != [] && !lines[0].Torn? {
      RecoveredIsCleanPrefix(lines[1..]);
      assert lines == [lines[0]] + lines[1..];
    }
  }

  /** Recovering is what drops a torn last line and keeps a clean log as it is. */
  lemma RecoveredAfterCrash(lines: seq<Line>, last: Line)
    requires Clean(lines)
    ensures Recovered(lines) == lines
    ensures Recovered(lines + [last]) == if last.Torn? then lines else lines + [last]
  {
    RecoveredIsCleanPrefix(lines);
    RecoveredIsCleanPrefix(lines + [last]);
    var all := lines + [last];
    var r := Recovered(all);
    assert |Recovered(lines)| == |lines|;
    assert |r| >= |lines| by {
      assert forall x | 0 <= x < |lines| :: !all[x].Torn?;
    }
    assert |r| == |all| ==> r[|lines|] == last;
    assert |r| == |lines| ==> all[|lines|] == last;
    assert all[..|lines|] == lines;
  }

  lemma EntriesSnoc(lines: seq<Line>, e: Entry)
    ensures Entries(lines + [Good(e)]) == Entries(lines) + [e]
  {
    assert (lines + [Good(e)])[..|lines|] == lines;
  }

  lemma NoEntries()
    ensures Entries([]) == [] && HighWater([]) == 0
  {
  }

  lemma EntriesOneMore(lines: seq<Line>, k: nat)
    requires k < |lines|
    ensures Entries(lines[..k + 1]) == Entries(lines[..k]) + (if lines[k].Good? then [lines[k].entry] else [])
    ensures !lines[k].Good? ==> Entries(lines[..k + 1]) == Entries(lines[..k])
  {
    assert lines[..k + 1][..k] == lines[..k];
  }

  lemma {:induction false} EntriesOfLines(es: seq<Entry>)
    ensures Clean(AsLines(es)) && Entries(AsLines(es)) == es
  {
    if es != [] {
      var n := |es| - 1;
      EntriesOfLines(es[..n]);
      assert AsLines(es)[..n] == AsLines(es[..n]);
    }
  }

  lemma EntriesOfLine(l: Line)
    ensures Entries([l]) == if l.Good? then [l.entry] else []
  {
    EntriesOneMore([l], 0);
    assert [l][..1] == [l];
  }

  /** One entry for each good line, in order. */
  lemma {:induction false} EntriesOfJoin(a: seq<Line>, b: seq<Line>)
    ensures Entries(a + b) == Entries(a) + Entries(b)
    decreases |b|
  {
    if b == [] {
      assert a + b == a;
    } else {
      EntriesOfJoin(a, b[..|b| - 1]);
      assert (a + b)[..|a + b| - 1] == a + b[..|b| - 1];
    }
  }

  // ----- replay -----

  lemma HighWaterSnoc(es: seq<Entry>, e: Entry)
    ensures HighWater(es + [e]) == if e.lsn > HighWater(es) then e.lsn else HighWater(es)
  {
    assert (es + [e])[..|es|] == es;
  }

  lemma ReplaySnoc(db: Db, es: seq<Entry>, e: Entry)
    ensures var r := Replay(db, es);
            Replay(db, es + [e]) == if e.lsn != 0 && e.lsn <= r.cursor then r
                                    else Db(ApplyEntry(r.rows, e), if e.lsn != 0 then e.lsn else r.cursor)
  {
    assert (es + [e])[..|es|] == es;
  }

  lemma {:induction false} ReplayCursor(db: Db, es: seq<Entry>)
    ensures Replay(db, es).cursor == if db.cursor > HighWater(es) then db.cursor else HighWater(es)
  {
    if es != [] {
      ReplayCursor(db, es[..|es| - 1]);
    }
  }

  ghost predicate AllAbsorbed(t: Table, es: seq<Entry>) {
    forall e | e in es :: e.Logged? ==> Absorbed(t, e.change)
  }

  lemma {:induction false} ReplayOfAbsorbed(db: Db, es: seq<Entry>)
    requires AllAbsorbed(db.rows, es)
    ensures Replay(db, es).rows == db.rows
  {
    if es != [] {
      ReplayOfAbsorbed(db, es[..|es| - 1]);
      assert es[|es| - 1] in es;
      if es[|es| - 1].Logged? {
        ApplyIsJoin(db.rows, es[|es| - 1].change);
      }
    }
  }

  /** Entries without an lsn are applied by every replay. */
  lemma {:induction false} UnnumberedAreAbsorbed(db: Db, es: seq<Entry>, e: Entry)
    requires e in es && e.lsn == 0 && e.Logged?
    ensures Absorbed(Replay(db, es).rows, e.change)
  {
    var r, last := Replay(db, es[..|es| - 1]), es[|es| - 1];
    assert es == es[..|es| - 1] + [last];
    if last.Logged? {
      ApplyIsJoin(r.rows, last.change);
    }
    if last != e {
      UnnumberedAreAbsorbed(db, es[..|es| - 1], e);
    }
  }

  lemma {:induction false} HighWaterBounds(es: seq<Entry>, e: Entry)
    requires e in es
    ensures e.lsn <= HighWater(es)
  {
    var last := es[|es| - 1];
    assert es == es[..|es| - 1] + [last];
    if last != e {
      HighWaterBounds(es[..|es| - 1], e);
    }
  }

  /** Replaying the same log again, from any database and with any lsns, changes nothing. */
  lemma SecondReplayChangesNothing(db: Db, es: seq<Entry>)
    ensures Replay(Replay(db, es), es) == Replay(db, es)
  {
    var r := Replay(db, es);
    ReplayCursor(db, es);
    ReplayCursor(r, es);
    ReplayAgain(r, es, es);
  }

  lemma {:induction false} ReplayAgain(r: Db, all: seq<Entry>, es: seq<Entry>)
    requires es <= all && HighWater(all) <= r.cursor
    requires exists db :: r == Replay(db, all)
    ensures Replay(r, es).rows == r.rows
  {
    if es != [] {
      var before, e := es[..|es| - 1], es[|es| - 1];
      ReplayAgain(r, all, before);
      ReplayCursor(r, before);
      assert e in all;
      HighWaterBounds(all, e);
      HighWaterOfPrefix(all, before);
      if e.lsn == 0 && e.Logged? {
        var db :| r == Replay(db, all);
        UnnumberedAreAbsorbed(db, all, e);
        ApplyIsJoin(r.rows, e.change);
      }
    }
  }

  lemma {:induction false} HighWaterOfPrefix(all: seq<Entry>, es: seq<Entry>)
    requires es <= all
    ensures HighWater(es) <= HighWater(all)
    decreases |all|
  {
    if es != all {
      assert es <= all[..|all| - 1];
      HighWaterOfPrefix(all[..|all| - 1], es);
    }
  }

  // ----- logs with increasing lsns -----

  ghost predicate Ordered(es: seq<Entry>) {
    (forall x | 0 <= x < |es| :: es[x].lsn > 0) && forall x, y | 0 <= x < y < |es| :: es[x].lsn < es[y].lsn
  }

  /** The changes past a cursor. */
  function Pending(es: seq<Entry>, cursor: nat): seq<Change> {
    if es == [] then []
    else
      var before, e := Pending(es[..|es| - 1], cursor), es[|es| - 1];
      if e.Logged? && e.lsn > cursor then before + [e.change] else before
  }

  lemma {:induction false} PendingIs(es: seq<Entry>, cursor: nat, c: Change)
    ensures c in Pending(es, cursor) <==> exists e :: e in es && e.Logged? && e.lsn > cursor && e.change == c
  {
    if es != [] {
      PendingIs(es[..|es| - 1], cursor, c);
      assert es == es[..|es| - 1] + [es[|es| - 1]];
    }
  }

  lemma {:induction false} OrderedHighWater(es: seq<Entry>)
    requires Ordered(es) && es != []
    ensures HighWater(es[..|es| - 1]) < es[|es| - 1].lsn
  {
    if |es| > 1 {
      OrderedHighWater(es[..|es| - 1]);
    }
  }

  lemma PendingSnoc(es: seq<Entry>, e: Entry, cursor: nat)
    ensures Pending(es + [e], cursor) == if e.Logged? && e.lsn > cursor then Pending(es, cursor) + [e.change] else Pending(es, cursor)
  {
    assert (es + [e])[..|es|] == es;
  }

  /** Replaying a log with increasing lsns applies the changes past the cursor, in order. */
  lemma {:induction false} ReplayIsPending(db: Db, es: seq<Entry>)
    requires Ordered(es)
    ensures Replay(db, es).rows == ApplyAll(db.rows, Pending(es, db.cursor))
  {
    if es != [] {
      var before, e := es[..|es| - 1], es[|es| - 1];
      ReplayIsPending(db, before);
      ReplayCursor(db, before);
      OrderedHighWater(es);
      assert es[|es| - 1].lsn > 0;
      assert es == before + [e];
      hide Ordered, HighWater, Apply, ApplyAll, Pending, Replay;
      ReplaySnoc(db, before, e);
      PendingSnoc(before, e, db.cursor);
      if e.Logged? {
        ApplyAllSnoc(db.rows, Pending(before, db.cursor), e.change);
      }
    }
  }

  lemma OrderedSnoc(es: seq<Entry>, e: Entry)
    requires Ordered(es) && e.lsn > HighWater(es)
    ensures Ordered(es + [e])
  {
    forall x | 0 <= x < |es|
      ensures es[x].lsn < e.lsn
    {
      HighWaterBounds(es, es[x]);
    }
  }

  lemma {:induction false} CompactedIsOrdered(es: seq<Entry>, through: nat)
    requires Ordered(es)
    ensures Ordered(Compacted(es, through))
    ensures forall e | e in Compacted(es, through) :: e in es
  {
    if es != [] {
      var before, e := es[..|es| - 1], es[|es| - 1];
      CompactedIsOrdered(before, through);
      assert es == before + [e];
      var kept := Compacted(before, through);
      forall x | 0 <= x < |kept|
        ensures kept[x].lsn < e.lsn
      {
        assert kept[x] in before;
        var y :| 0 <= y < |before| && before[y] == kept[x];
      }
    }
  }

  // ----- compaction -----

  lemma CompactedOfOne(e: Entry, through: nat)
    ensures Compacted([e], through) == if e.Logged? && e.lsn > through then [e] else []
  {
    assert [e][..0] == [];
  }

  /** Exactly the logged changes above the lsn are kept, in order. */
  lemma {:induction false} CompactedOfJoin(a: seq<Entry>, b: seq<Entry>, through: nat)
    ensures Compacted(a + b, through) == Compacted(a, through) + Compacted(b, through)
    decreases |b|
  {
    if b == [] {
      assert a + b == a;
    } else {
      CompactedOfJoin(a, b[..|b| - 1], through);
      assert (a + b)[..|a + b| - 1] == a + b[..|b| - 1];
    }
  }

  lemma {:induction false} CompactedKeeps(es: seq<Entry>, through: nat)
    ensures forall e :: e in Compacted(es, through) <==> e in es && e.Logged? && e.lsn > through
  {
    if es != [] {
      CompactedKeeps(es[..|es| - 1], through);
      assert es == es[..|es| - 1] + [es[|es| - 1]];
    }
  }
}
