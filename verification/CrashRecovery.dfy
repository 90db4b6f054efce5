/** A storage node that may crash at any point, as a transition system: what a restart reads back
    (node/storage_engine.py, node/oplog.py).  A commit may be lost until SQLite has synced it;
    logged lines are synced one by one. */
module CrashRecovery {
  import opened Metadata
  import opened BlockRows
  import opened OplogLines

  /** The file, and the databases a crash may bring back: every commit since the last sync, the
      current one last. */
  datatype Node = Node(lines: seq<Line>, commits: seq<Db>)

  const NewNode := Node([], [Db(map[], 0)])

  datatype Stage = RecordTorn | Recorded | LogCompacted

  datatype Event =
    | Serve(request: Request)
    | ServeAndCrash(request: Request, logged: bool, survivor: nat)
    | CheckpointTo(through: nat)
    | CheckpointAndCrash(through: nat, stage: Stage, survivor: nat)
    | Sync
    | CrashRestart(survivor: nat)

  function Current(n: Node): Db
    requires n.commits != []
  {
    n.commits[|n.commits| - 1]
  }

  function NextLsn(lines: seq<Line>): nat {
    HighWater(Entries(lines)) + 1
  }

  /** Constructing the engine over what a crash left: recover, then replay in one transaction. */
  function Restart(lines: seq<Line>, commits: seq<Db>): Node
    requires commits != []
  {
    var kept := Recovered(lines);
    Node(kept, commits + [Replay(commits[|commits| - 1], Entries(kept))])
  }

  function CheckpointLsn(n: Node, through: nat): nat {
    if through != 0 then through else HighWater(Entries(n.lines))
  }

  function WithRecord(n: Node, through: nat): seq<Line> {
    n.lines + [Good(Checkpoint(NextLsn(n.lines), CheckpointLsn(n, through)))]
  }

  function CompactedLines(n: Node, through: nat): seq<Line> {
    AsLines(Compacted(Entries(WithRecord(n, through)), CheckpointLsn(n, through)))
  }

  predicate Enabled(n: Node, ev: Event) {
    && n.commits != []
    && match ev
       case ServeAndCrash(_, _, survivor) => survivor < |n.commits|
       case CheckpointAndCrash(_, _, survivor) => survivor < |n.commits|
       case CrashRestart(survivor) => survivor < |n.commits|
       case _ => true
  }

  function Next(n: Node, ev: Event): Node
    requires Enabled(n, ev)
  {
    match ev
    case Serve(r) =>
      var d := Decide(Current(n).rows, r);
      if d.Log? then
        Node(n.lines + [Good(Logged(NextLsn(n.lines), d.change))],
             n.commits + [Db(Apply(Current(n).rows, d.change), Current(n).cursor)])
      else n
    case ServeAndCrash(r, logged, survivor) =>
      var d := Decide(Current(n).rows, r);
      var line := if logged && d.Log? then Good(Logged(NextLsn(n.lines), d.change)) else Torn;
      Restart(if d.Log? then n.lines + [line] else n.lines, n.commits[..survivor + 1])
    case CheckpointTo(through) =>
      var db := Current(n).(cursor := CheckpointLsn(n, through));
      Node(CompactedLines(n, through), n.commits + [db])
    case CheckpointAndCrash(through, stage, survivor) =>
      var lines := match stage
                   case RecordTorn => n.lines + [Torn]
                   case Recorded => WithRecord(n, through)
                   case LogCompacted => CompactedLines(n, through);
      Restart(lines, n.commits[..survivor + 1])
    case Sync => n.(commits := [Current(n)])
    case CrashRestart(survivor) => Restart(n.lines, n.commits[..survivor + 1])
  }

  /** The change an event logs completely, if any. */
  function FullyLogged(n: Node, ev: Event): Option<Change>
    requires Enabled(n, ev)
  {
    if (ev.Serve? || (ev.ServeAndCrash? && ev.logged)) && Decide(Current(n).rows, ev.request).Log?
    then Some(Decide(Current(n).rows, ev.request).change) else None
  }

  ghost predicate Run(nodes: seq<Node>, events: seq<Event>) {
    && |nodes| == |events| + 1
    && nodes[0] == NewNode
    && forall k | 0 <= k < |events| :: Enabled(nodes[k], events[k]) && nodes[k + 1] == Next(nodes[k], events[k])
  }

  /** Everything completely logged in the first k events, compacted away or not. */
  ghost function History(nodes: seq<Node>, events: seq<Event>, k: nat): seq<Change>
    requires Run(nodes, events) && k <= |events|
  {
    if k == 0 then []
    else
      var before, last := History(nodes, events, k - 1), FullyLogged(nodes[k - 1], events[k - 1]);
      if last.Some? then before + [last.value] else before
  }

  // ----- the invariant -----

  /** The next lsn is past the replay cursor, so a replay will not skip it. */
  predicate CursorBehind(lines: seq<Line>, db: Db) {
    db.cursor < NextLsn(lines)
  }

  ghost predicate Recovers(lines: seq<Line>, db: Db, rows: Table) {
    Replay(db, Entries(lines)).rows == rows
  }

  ghost predicate NodeOK(n: Node, rows: Table) {
    && n.commits != []
    && Clean(n.lines)
    && Current(n).rows == rows
    && Ordered(Entries(n.lines))
    && AllAbsorbed(rows, Entries(n.lines))
    && AllCarried(rows, Entries(n.lines))
    && forall d | d in n.commits :: Recovers(n.lines, d, rows) && CursorBehind(n.lines, d)
  }

  lemma AbsorbedAfter(t: Table, c: Change, es: seq<Entry>)
    requires AllAbsorbed(t, es)
    ensures AllAbsorbed(Apply(t, c), es)
  {
    ApplyIsJoin(t, c);
  }

  /** A live row has the data of every logged write of its version. */
  ghost predicate AllCarried(t: Table, es: seq<Entry>) {
    forall e | e in es :: e.Logged? ==> Carried(t, e.change)
  }

  predicate Carried(t: Table, c: Change) {
    c.Write? && c.block in t && t[c.block].Live? && t[c.block].version == c.version ==> t[c.block].data == c.data
  }

  /** No request logs a write of the version its block is live at. */
  predicate Fresh(t: Table, c: Change) {
    c.Write? && c.block in t && t[c.block].Live? ==> t[c.block].version != c.version
  }

  lemma LoggedIsFresh(t: Table, r: Request)
    requires Decide(t, r).Log?
    ensures Fresh(t, Decide(t, r).change)
  {
  }

  lemma CarriedAfter(t: Table, c: Change, es: seq<Entry>)
    requires AllAbsorbed(t, es) && AllCarried(t, es) && Fresh(t, c)
    ensures Carried(Apply(t, c), c) && AllCarried(Apply(t, c), es)
  {
    forall e | e in es && e.Logged?
      ensures Carried(Apply(t, c), e.change)
    {
      assert Absorbed(t, e.change) && Carried(t, e.change);
    }
  }

  lemma AppendReplays(lines: seq<Line>, d: Db, rows: Table, c: Change)
    requires Recovers(lines, d, rows) && CursorBehind(lines, d)
    ensures var e := Logged(NextLsn(lines), c); Recovers(lines + [Good(e)], d, Apply(rows, c))
  {
    var e := Logged(NextLsn(lines), c);
    EntriesSnoc(lines, e);
    ReplaySnoc(d, Entries(lines), e);
    ReplayCursor(d, Entries(lines));
    hide Entries, Replay, HighWater, Apply;
  }

  lemma AppendedEntries(lines: seq<Line>, rows: Table, c: Change)
    requires Clean(lines) && Fresh(rows, c)
    requires Ordered(Entries(lines)) && AllAbsorbed(rows, Entries(lines)) && AllCarried(rows, Entries(lines))
    ensures var after := lines + [Good(Logged(NextLsn(lines), c))];
            && Clean(after) && NextLsn(after) > NextLsn(lines)
            && Ordered(Entries(after)) && AllAbsorbed(Apply(rows, c), Entries(after)) && AllCarried(Apply(rows, c), Entries(after))
  {
    var e, es := Logged(NextLsn(lines), c), Entries(lines);
    EntriesSnoc(lines, e);
    HighWaterSnoc(es, e);
    OrderedSnoc(es, e);
    ApplyIsJoin(rows, c);
    AbsorbedAfter(rows, c, es);
    CarriedAfter(rows, c, es);
    hide Entries, Apply, Absorbed, Carried, HighWater, Ordered;
  }

  lemma AppendedIsReplayed(n: Node, rows: Table, c: Change)
    requires NodeOK(n, rows) && Fresh(rows, c)
    ensures var lines := n.lines + [Good(Logged(NextLsn(n.lines), c))];
            && Clean(lines)
            && Ordered(Entries(lines))
            && AllAbsorbed(Apply(rows, c), Entries(lines))
            && AllCarried(Apply(rows, c), Entries(lines))
            && NextLsn(lines) > NextLsn(n.lines)
            && forall d | d in n.commits :: Recovers(lines, d, Apply(rows, c)) && CursorBehind(lines, d)
  {
    AppendedEntries(n.lines, rows, c);
    hide Entries, Apply, AllAbsorbed, AllCarried, Recovers, NextLsn, Ordered, Clean, Fresh;
    forall d | d in n.commits
      ensures Recovers(n.lines + [Good(Logged(NextLsn(n.lines), c))], d, Apply(rows, c))
    {
      AppendReplays(n.lines, d, rows, c);
    }
  }

  lemma RestartOK(lines: seq<Line>, commits: seq<Db>, rows: Table)
    requires commits != [] && Clean(lines)
    requires Ordered(Entries(lines)) && AllAbsorbed(rows, Entries(lines)) && AllCarried(rows, Entries(lines))
    requires forall d | d in commits :: Recovers(lines, d, rows) && CursorBehind(lines, d)
    ensures NodeOK(Restart(lines, commits), rows)
  {
    RecoveredIsCleanPrefix(lines);
    assert Recovered(lines) == lines;
    var db := commits[|commits| - 1];
    assert db in commits;
    ReplayCursor(db, Entries(lines));
    ReplayOfAbsorbed(Replay(db, Entries(lines)), Entries(lines));
  }

  lemma TornIsDropped(lines: seq<Line>, commits: seq<Db>)
    requires commits != [] && Clean(lines)
    ensures Restart(lines + [Torn], commits) == Restart(lines, commits)
  {
    RecoveredAfterCrash(lines, Torn);
  }

  lemma ServeOK(n: Node, rows: Table, c: Change)
    requires NodeOK(n, rows) && Fresh(rows, c)
    ensures NodeOK(Node(n.lines + [Good(Logged(NextLsn(n.lines), c))], n.commits + [Db(Apply(rows, c), Current(n).cursor)]),
                   Apply(rows, c))
  {
    AppendedIsReplayed(n, rows, c);
    var lines := n.lines + [Good(Logged(NextLsn(n.lines), c))];
    var db := Db(Apply(rows, c), Current(n).cursor);
    assert Current(n) in n.commits;
    ReplayOfAbsorbed(db, Entries(lines));
  }

  // ----- checkpoints -----

  /** Whether an entry stays that keeps the next lsn past this cursor. */
  predicate Room(n: Node, through: nat, cursor: nat) {
    cursor == 0
    || exists e :: e in Entries(n.lines) && e.Logged? && e.lsn > CheckpointLsn(n, through) && e.lsn >= cursor
  }

  /** An entry that the checkpoint compacts away and that a replay into d would have applied. */
  predicate Dropped(n: Node, through: nat, d: Db, e: Entry) {
    e in Entries(n.lines) && e.Logged? && d.cursor < e.lsn <= CheckpointLsn(n, through)
  }

  /** An entry that stays, that a replay into d applies, and that goes at least as far. */
  predicate Overtakes(n: Node, through: nat, d: Db, f: Entry, c: Change) {
    && f in Entries(n.lines) && f.Logged? && f.lsn > CheckpointLsn(n, through) && f.lsn > d.cursor
    && f.change.block == c.block && Below(ChangeKey(c), ChangeKey(f.change))
  }

  /** A database that a crash may bring back does without the entries compacted away: each is
      reached in it or overtaken by an entry that stays. */
  ghost predicate Covers(n: Node, through: nat, d: Db) {
    forall e | Dropped(n, through, d, e) ::
      Absorbed(d.rows, e.change) || exists f :: Overtakes(n, through, d, f, e.change)
  }

  /** Whether every database that a crash may bring back, now or after the checkpoint, does
      without what is compacted away, and the next lsn stays past its cursor. */
  ghost predicate LeavesLog(n: Node, ev: Event)
    requires Enabled(n, ev)
  {
    match ev
    case CheckpointTo(through) =>
      Room(n, through, CheckpointLsn(n, through)) && forall d | d in n.commits :: Covers(n, through, d) && Room(n, through, d.cursor)
    case CheckpointAndCrash(through, LogCompacted, survivor) =>
      forall d | d in n.commits[..survivor + 1] :: Covers(n, through, d) && Room(n, through, d.cursor)
    case _ => true
  }

  predicate IsCheckpoint(ev: Event) {
    ev.CheckpointTo? || ev.CheckpointAndCrash?
  }

  /** Whether it gets as far as compacting the log. */
  predicate Compacts(ev: Event) {
    ev.CheckpointTo? || (ev.CheckpointAndCrash? && ev.stage.LogCompacted?)
  }

  /** The log after a checkpoint, or after the restart that follows a crash in it. */
  function CheckpointLines(n: Node, ev: Event): seq<Line>
    requires IsCheckpoint(ev)
  {
    if Compacts(ev) then CompactedLines(n, ev.through)
    else if ev.stage.Recorded? then WithRecord(n, ev.through)
    else n.lines
  }

  /** The commits that a checkpoint leaves behind it. */
  function Surviving(n: Node, ev: Event): seq<Db>
    requires IsCheckpoint(ev) && Enabled(n, ev)
  {
    if ev.CheckpointTo? then n.commits else n.commits[..ev.survivor + 1]
  }

  lemma CompactedEntries(n: Node, through: nat)
    ensures Clean(CompactedLines(n, through))
    ensures forall e :: e in Entries(CompactedLines(n, through)) <==>
              e in Entries(n.lines) && e.Logged? && e.lsn > CheckpointLsn(n, through)
    ensures Ordered(Entries(n.lines)) ==> Ordered(Entries(CompactedLines(n, through)))
  {
    var record := Checkpoint(NextLsn(n.lines), CheckpointLsn(n, through));
    EntriesSnoc(n.lines, record);
    CompactedKeeps(Entries(WithRecord(n, through)), CheckpointLsn(n, through));
    EntriesOfLines(Compacted(Entries(WithRecord(n, through)), CheckpointLsn(n, through)));
    if Ordered(Entries(n.lines)) {
      OrderedSnoc(Entries(n.lines), record);
      CompactedIsOrdered(Entries(WithRecord(n, through)), CheckpointLsn(n, through));
    }
  }

  lemma CheckpointLinesOK(n: Node, rows: Table, ev: Event)
    requires NodeOK(n, rows) && IsCheckpoint(ev)
    ensures var lines := CheckpointLines(n, ev);
            && Clean(lines) && Ordered(Entries(lines)) && AllAbsorbed(rows, Entries(lines)) && AllCarried(rows, Entries(lines))
  {
    hide Entries, CompactedLines, CheckpointLsn, Absorbed, Carried, Ordered, HighWater, Recovers;
    if Compacts(ev) {
      CompactedEntries(n, ev.through);
    } else if ev.stage.Recorded? {
      EntriesSnoc(n.lines, Checkpoint(NextLsn(n.lines), CheckpointLsn(n, ev.through)));
      OrderedSnoc(Entries(n.lines), Checkpoint(NextLsn(n.lines), CheckpointLsn(n, ev.through)));
    }
  }

  lemma CheckpointResult(n: Node, ev: Event)
    requires Clean(n.lines) && Enabled(n, ev) && IsCheckpoint(ev)
    requires Clean(CheckpointLines(n, ev))
    ensures var lines, commits := CheckpointLines(n, ev), Surviving(n, ev);
            var db := if ev.CheckpointTo? then Current(n).(cursor := CheckpointLsn(n, ev.through))
                      else Replay(commits[|commits| - 1], Entries(lines));
            Next(n, ev) == Node(lines, commits + [db])
  {
    hide Entries, Replay, CompactedLines, WithRecord, Recovered;
    var lines := CheckpointLines(n, ev);
    RecoveredIsCleanPrefix(lines);
    RecoveredAfterCrash(n.lines, Torn);
    assert Recovered(lines) == lines;
  }

  lemma {:induction false} HighWaterReached(es: seq<Entry>) returns (e: Entry)
    requires es != []
    ensures e in es && e.lsn == HighWater(es)
  {
    var before, last := es[..|es| - 1], es[|es| - 1];
    assert es == before + [last];
    e := last;
    if before != [] && last.lsn <= HighWater(before) {
      e := HighWaterReached(before);
    }
  }

  /** Lsns go on from the largest in the log, or from 1. */
  lemma NextLsnIsNext(lines: seq<Line>)
    ensures forall e | e in Entries(lines) :: e.lsn < NextLsn(lines)
    ensures NextLsn(lines) == 1 || exists e :: e in Entries(lines) && e.lsn + 1 == NextLsn(lines)
  {
    forall e | e in Entries(lines)
      ensures e.lsn < NextLsn(lines)
    {
      HighWaterBounds(Entries(lines), e);
    }
    if Entries(lines) != [] {
      var e := HighWaterReached(Entries(lines));
    }
  }

  lemma EmptyOrHas(es: seq<Entry>)
    ensures es == [] || exists e :: e in es
  {
    assert es == [] || es[0] in es;
  }

  /** A checkpoint through an lsn keeps the changes logged above it, in order, and one of everything
      keeps none; the rows stay, and the cursor says how far it went. */
  lemma CheckpointLeaves(n: Node, through: nat)
    requires n.commits != []
    ensures var n' := Next(n, CheckpointTo(through));
            && n'.commits == n.commits + [Db(Current(n).rows, Current(n').cursor)]
            && (forall e :: e in Entries(n'.lines) <==> e in Entries(n.lines) && e.Logged? && e.lsn > Current(n').cursor)
            && (through > 0 ==> Current(n').cursor == through)
            && (through == 0 ==> n'.lines == [] && Current(n').cursor + 1 == NextLsn(n.lines))
  {
    CompactedEntries(n, through);
    if through == 0 {
      var es := Compacted(Entries(WithRecord(n, 0)), CheckpointLsn(n, 0));
      EntriesOfLines(es);
      forall e
        ensures e !in es
      {
        if e in Entries(n.lines) {
          HighWaterBounds(Entries(n.lines), e);
        }
      }
      EmptyOrHas(es);
    }
  }

  lemma CompactedRoom(n: Node, through: nat, cursor: nat)
    ensures cursor < NextLsn(CompactedLines(n, through)) <==> Room(n, through, cursor)
  {
    var kept := Entries(CompactedLines(n, through));
    CompactedEntries(n, through);
    if kept != [] {
      var e := HighWaterReached(kept);
    }
    if e :| e in kept && e.lsn >= cursor {
      HighWaterBounds(kept, e);
    }
  }

  lemma RecordedLeavesRoom(n: Node, through: nat)
    ensures NextLsn(WithRecord(n, through)) > NextLsn(n.lines)
  {
    var record := Checkpoint(NextLsn(n.lines), CheckpointLsn(n, through));
    EntriesSnoc(n.lines, record);
    HighWaterSnoc(Entries(n.lines), record);
  }

  /** Two tables reached by the same keys, whose live rows do not differ in data, are equal. */
  lemma SameKeysSameRows(t: Table, t': Table)
    requires forall b, k :: Reached(t, b, k) <==> Reached(t', b, k)
    requires forall b | b in t && b in t' && t[b].Live? && t'[b].Live? && t[b].version == t'[b].version :: t[b].data == t'[b].data
    ensures t == t'
  {
    forall b
      ensures b in t <==> b in t'
      ensures b in t && b in t' ==> t[b] == t'[b]
    {
      if b in t {
        assert Reached(t, b, KeyOf(t[b]));
      }
      if b in t' {
        assert Reached(t', b, KeyOf(t'[b]));
      }
    }
  }

  /** What replaying fewer changes gives. */
  lemma FewerChanges(start: Table, rows: Table, all: seq<Change>, fewer: seq<Change>)
    requires ApplyAll(start, all) == rows
    requires forall c | c in fewer :: c in all && Carried(rows, c)
    requires forall c | c in all && c !in fewer :: Absorbed(start, c) || exists f :: f in fewer && f.block == c.block && Below(ChangeKey(c), ChangeKey(f))
    ensures ApplyAll(start, fewer) == rows
  {
    hide ApplyAll;
    forall b, k
      ensures Reached(rows, b, k) <==> Reached(ApplyAll(start, fewer), b, k)
    {
      FinalKeyIsLargest(start, all, b, k);
      FinalKeyIsLargest(start, fewer, b, k);
    }
    forall b | b in rows && b in ApplyAll(start, fewer)
      ensures var t := ApplyAll(start, fewer); rows[b].Live? && t[b].Live? && rows[b].version == t[b].version ==> rows[b].data == t[b].data
    {
      LiveRowComesFrom(start, fewer, b);
      var row := ApplyAll(start, fewer)[b];
      if b in start && start[b] == row && rows[b].Live? && rows[b].version == row.version {
        forall c | c in all && c.block == b
          ensures Below(ChangeKey(c), KeyOf(start[b]))
        {
          FinalKeyIsLargest(start, all, b, ChangeKey(c));
        }
        WinnerStays(start, b, all);
      }
    }
    SameKeysSameRows(rows, ApplyAll(start, fewer));
  }

  /** Exactly which databases a crash may bring back without losing what a compaction drops. */
  lemma CompactionRecoversIff(n: Node, rows: Table, through: nat, d: Db)
    requires NodeOK(n, rows) && d in n.commits
    ensures Recovers(CompactedLines(n, through), d, rows) <==> Covers(n, through, d)
  {
    var es, kept := Entries(n.lines), Entries(CompactedLines(n, through));
    var all, fewer := Pending(es, d.cursor), Pending(kept, d.cursor);
    CompactedEntries(n, through);
    ReplayIsPending(d, es);
    ReplayIsPending(d, kept);
    assert Recovers(n.lines, d, rows);
    hide Entries, Replay, CompactedLines, Ordered, ApplyAll, Pending, CheckpointLsn, HighWater;
    forall c
      ensures c in all <==> exists e :: e in es && e.Logged? && e.lsn > d.cursor && e.change == c
      ensures c in fewer <==> exists e :: e in kept && e.Logged? && e.lsn > d.cursor && e.change == c
    {
      PendingIs(es, d.cursor, c);
      PendingIs(kept, d.cursor, c);
    }
    if Covers(n, through, d) {
      CoversFewer(n, through, d, all, fewer);
      FewerChanges(d.rows, rows, all, fewer);
    }
    if Recovers(CompactedLines(n, through), d, rows) {
      forall e | Dropped(n, through, d, e)
        ensures Absorbed(d.rows, e.change) || exists f :: Overtakes(n, through, d, f, e.change)
      {
        assert Absorbed(rows, e.change);
        FinalKeyIsLargest(d.rows, fewer, e.change.block, ChangeKey(e.change));
        if g :| g in fewer && g.block == e.change.block && Below(ChangeKey(e.change), ChangeKey(g)) {
          var f :| f in kept && f.Logged? && f.lsn > d.cursor && f.change == g;
          assert Overtakes(n, through, d, f, e.change);
        }
      }
    }
  }

  lemma CoversFewer(n: Node, through: nat, d: Db, all: seq<Change>, fewer: seq<Change>)
    requires Covers(n, through, d)
    requires forall c :: c in all <==> exists e :: e in Entries(n.lines) && e.Logged? && e.lsn > d.cursor && e.change == c
    requires forall c :: c in fewer <==>
               exists e :: e in Entries(CompactedLines(n, through)) && e.Logged? && e.lsn > d.cursor && e.change == c
    ensures forall c | c in all && c !in fewer :: Absorbed(d.rows, c) || exists f :: f in fewer && f.block == c.block && Below(ChangeKey(c), ChangeKey(f))
  {
    CompactedEntries(n, through);
    hide Entries, CompactedLines, Ordered, CheckpointLsn, HighWater, Absorbed;
    forall c | c in all && c !in fewer && !Absorbed(d.rows, c)
      ensures exists f :: f in fewer && f.block == c.block && Below(ChangeKey(c), ChangeKey(f))
    {
      var e :| e in Entries(n.lines) && e.Logged? && e.lsn > d.cursor && e.change == c;
      assert Dropped(n, through, d, e);
      var f :| Overtakes(n, through, d, f, e.change);
      assert f.change in fewer;
    }
  }

  /** A database that holds the current rows, as every one does after a sync, covers any
      checkpoint. */
  lemma CurrentCovers(n: Node, rows: Table, through: nat, d: Db)
    requires AllAbsorbed(rows, Entries(n.lines)) && d.rows == rows
    ensures Covers(n, through, d)
  {
  }

  /** Replaying what a checkpoint leaves into a database that survives it. */
  lemma SurvivorRecoversIff(n: Node, rows: Table, ev: Event, d: Db)
    requires NodeOK(n, rows) && Enabled(n, ev) && IsCheckpoint(ev) && d in n.commits
    ensures Recovers(CheckpointLines(n, ev), d, rows) <==>
              (Compacts(ev) ==> Covers(n, ev.through, d))
  {
    CompactionRecoversIff(n, rows, ev.through, d);
    assert Recovers(n.lines, d, rows);
    EntriesSnoc(n.lines, Checkpoint(NextLsn(n.lines), CheckpointLsn(n, ev.through)));
    ReplaySnoc(d, Entries(n.lines), Checkpoint(NextLsn(n.lines), CheckpointLsn(n, ev.through)));
  }

  /** A checkpoint, completed or cut short by a crash at any point and whatever its lsn, leaves
      the rows seen after any further crash as they were exactly if it compacts nothing yet or
      every surviving commit covers what is compacted away. */
  lemma CheckpointPreservesRowsIff(n: Node, rows: Table, ev: Event)
    requires NodeOK(n, rows) && Enabled(n, ev) && IsCheckpoint(ev)
    ensures var n' := Next(n, ev);
            (forall d | d in n'.commits :: Recovers(n'.lines, d, rows)) <==>
              (Compacts(ev) ==> forall d | d in Surviving(n, ev) :: Covers(n, ev.through, d))
  {
    hide Entries, Replay, CheckpointLines, Next, AllAbsorbed, AllCarried, Ordered, Covers, Recovers, NodeOK, CompactedLines;
    SurvivorsRecover(n, rows, ev);
    forall d | d in Surviving(n, ev)
      ensures Recovers(CheckpointLines(n, ev), d, rows) <==>
                (Compacts(ev) ==> Covers(n, ev.through, d))
    {
      SurvivorRecoversIff(n, rows, ev, d);
    }
  }

  /** The database a checkpoint or the restart after it commits last recovers with the others. */
  lemma SurvivorsRecover(n: Node, rows: Table, ev: Event)
    requires NodeOK(n, rows) && Enabled(n, ev) && IsCheckpoint(ev)
    ensures var n', lines := Next(n, ev), CheckpointLines(n, ev);
            && n'.lines == lines && n'.commits != [] && Surviving(n, ev) != []
            && n'.commits[..|n'.commits| - 1] == Surviving(n, ev)
            && ((forall d | d in Surviving(n, ev) :: Recovers(lines, d, rows)) <==> forall d | d in n'.commits :: Recovers(lines, d, rows))
            && ((forall d | d in Surviving(n, ev) :: Recovers(lines, d, rows)) ==> Current(n').rows == rows)
            && (Current(n').cursor == if ev.CheckpointTo? then CheckpointLsn(n, ev.through)
                                      else Replay(Surviving(n, ev)[|Surviving(n, ev)| - 1], Entries(lines)).cursor)
  {
    hide Entries, Replay, CheckpointLines, Next, AllAbsorbed, AllCarried, Ordered;
    CheckpointLinesOK(n, rows, ev);
    CheckpointResult(n, ev);
    var lines, commits := CheckpointLines(n, ev), Surviving(n, ev);
    var last := commits[|commits| - 1];
    assert last in commits;
    var db := Current(Next(n, ev));
    if Recovers(lines, last, rows) {
      assert db.rows == rows;
      ReplayOfAbsorbed(db, Entries(lines));
    }
    assert Next(n, ev).commits == commits + [db];
  }

  /** Exactly when later changes are safe too: the node keeps its invariant if and only if the
      checkpoint leaves enough of the log. */
  lemma CheckpointKeepsNodeIff(n: Node, rows: Table, ev: Event)
    requires NodeOK(n, rows) && Enabled(n, ev) && IsCheckpoint(ev)
    ensures NodeOK(Next(n, ev), rows) <==> LeavesLog(n, ev)
  {
    hide Entries, Replay, Next, AllAbsorbed, AllCarried, Ordered, Clean, CompactedLines, WithRecord, Room, Recovers, NextLsn, Covers;
    var lines, n' := CheckpointLines(n, ev), Next(n, ev);
    CheckpointLinesOK(n, rows, ev);
    SurvivorsRecover(n, rows, ev);
    CompactedRoom(n, ev.through, CheckpointLsn(n, ev.through));
    RecordedLeavesRoom(n, ev.through);
    var last := Surviving(n, ev)[|Surviving(n, ev)| - 1];
    assert last in Surviving(n, ev);
    ReplayBehind(lines, last);
    forall d | d in Surviving(n, ev)
      ensures Recovers(lines, d, rows) && CursorBehind(lines, d) <==>
                (Compacts(ev) ==> Covers(n, ev.through, d) && Room(n, ev.through, d.cursor))
    {
      assert d in n.commits;
      SurvivorRecoversIff(n, rows, ev, d);
      CompactedRoom(n, ev.through, d.cursor);
    }
    assert forall d :: d in n'.commits <==> d in Surviving(n, ev) || d == Current(n') by {
      assert n'.commits == n'.commits[..|n'.commits| - 1] + [Current(n')];
    }
    assert CursorBehind(lines, Current(n')) <==>
             if ev.CheckpointTo? then Room(n, ev.through, CheckpointLsn(n, ev.through)) else CursorBehind(lines, last);
    if LeavesLog(n, ev) {
      assert forall d | d in Surviving(n, ev) :: Recovers(lines, d, rows) && CursorBehind(lines, d);
      assert forall d | d in n'.commits :: Recovers(lines, d, rows) && CursorBehind(lines, d);
    }
    if NodeOK(n', rows) {
      assert forall d | d in Surviving(n, ev) :: Recovers(lines, d, rows) && CursorBehind(lines, d);
    }
  }

  lemma ReplayBehind(lines: seq<Line>, db: Db)
    ensures CursorBehind(lines, Replay(db, Entries(lines))) <==> CursorBehind(lines, db)
  {
    ReplayCursor(db, Entries(lines));
  }

  // ----- runs -----

  function AfterLogging(t: Table, c: Option<Change>): Table {
    if c.Some? then Apply(t, c.value) else t
  }

  lemma EventKeepsNode(n: Node, rows: Table, ev: Event)
    requires NodeOK(n, rows) && Enabled(n, ev) && LeavesLog(n, ev)
    ensures NodeOK(Next(n, ev), AfterLogging(rows, FullyLogged(n, ev)))
  {
    hide Entries, Replay, AllAbsorbed, AllCarried, Ordered, Decide, Recovered, LeavesLog, Fresh;
    var c := FullyLogged(n, ev);
    match ev
    case Serve(r) =>
      if c.Some? {
        LoggedIsFresh(rows, r);
        ServeOK(n, rows, c.value);
      }
    case ServeAndCrash(r, logged, survivor) =>
      var commits := n.commits[..survivor + 1];
      if c.Some? {
        LoggedIsFresh(rows, r);
        AppendedIsReplayed(n, rows, c.value);
        RestartOK(n.lines + [Good(Logged(NextLsn(n.lines), c.value))], commits, Apply(rows, c.value));
      } else {
        TornIsDropped(n.lines, commits);
        RestartOK(n.lines, commits, rows);
      }
    case CheckpointTo(_) => CheckpointKeepsNodeIff(n, rows, ev);
    case CheckpointAndCrash(_, _, _) => CheckpointKeepsNodeIff(n, rows, ev);
    case Sync => assert Current(n) in n.commits;
    case CrashRestart(survivor) => RestartOK(n.lines, n.commits[..survivor + 1], rows);
  }

  lemma {:induction false} RunKeepsNode(nodes: seq<Node>, events: seq<Event>, k: nat)
    requires Run(nodes, events) && k <= |events|
    requires forall j | 0 <= j < |events| :: LeavesLog(nodes[j], events[j])
    ensures NodeOK(nodes[k], ApplyAll(map[], History(nodes, events, k)))
    decreases k
  {
    hide LeavesLog, Next, NodeOK, ApplyAll, FullyLogged;
    if k == 0 {
      NewNodeOK();
    } else {
      RunKeepsNode(nodes, events, k - 1);
      var before := History(nodes, events, k - 1);
      EventKeepsNode(nodes[k - 1], ApplyAll(map[], before), events[k - 1]);
      if c :| FullyLogged(nodes[k - 1], events[k - 1]) == Some(c) {
        ApplyAllSnoc(map[], before, c);
      }
    }
  }

  lemma NewNodeOK()
    ensures NodeOK(NewNode, ApplyAll(map[], []))
  {
    assert Replay(Db(map[], 0), []) == Db(map[], 0);
  }

  /** In every run of client, replica and checkpoint requests with crashes anywhere, the blocks
      table always equals the fully logged changes applied in order; a crash now, whichever
      commits survive it and with or without a torn line, brings back exactly that table; and
      restarting once more changes nothing. */
  lemma RecoveryIsExact(nodes: seq<Node>, events: seq<Event>, k: nat, survivor: nat, torn: bool)
    requires Run(nodes, events) && k <= |events| && survivor < |nodes[k].commits|
    requires forall j | 0 <= j < |events| :: LeavesLog(nodes[j], events[j])
    ensures var rows := ApplyAll(map[], History(nodes, events, k));
            var after := Restart(nodes[k].lines + (if torn then [Torn] else []), nodes[k].commits[..survivor + 1]);
            && Current(nodes[k]).rows == rows
            && Current(after).rows == rows
            && Current(Restart(after.lines, after.commits)) == Current(after)
  {
    hide LeavesLog, Next, NodeOK, Restart, ApplyAll, History;
    RunKeepsNode(nodes, events, k);
    RestartFacts(nodes[k], ApplyAll(map[], History(nodes, events, k)), survivor, torn);
  }

  lemma RestartFacts(n: Node, rows: Table, survivor: nat, torn: bool)
    requires NodeOK(n, rows) && survivor < |n.commits|
    ensures var after := Restart(n.lines + (if torn then [Torn] else []), n.commits[..survivor + 1]);
            && Current(n).rows == rows
            && Current(after).rows == rows
            && Current(Restart(after.lines, after.commits)) == Current(after)
  {
    hide Entries, Replay, Recovered, AllAbsorbed;
    var commits := n.commits[..survivor + 1];
    TornIsDropped(n.lines, commits);
    RestartOK(n.lines, commits, rows);
    assert n.lines + [] == n.lines;
    RecoveredIsCleanPrefix(n.lines);
    assert Recovered(n.lines) == n.lines;
    SecondReplayChangesNothing(commits[survivor], Entries(n.lines));
  }

  /** What the guard is for.  On a node whose rows are committed, a new change that is logged but
      not committed when the process dies is recovered exactly when its lsn is past the replay
      cursor. */
  lemma LoggedChangeIsRecoveredIff(n: Node, rows: Table, r: Request)
    requires n.commits != [] && Clean(n.lines) && Current(n).rows == rows && AllAbsorbed(rows, Entries(n.lines))
    requires Decide(rows, r).Log? && !Absorbed(rows, Decide(rows, r).change)
    ensures var after := Next(n, ServeAndCrash(r, true, |n.commits| - 1));
            && (Current(after).rows == Apply(rows, Decide(rows, r).change) <==> CursorBehind(n.lines, Current(n)))
            && (Current(after).rows == rows <==> !CursorBehind(n.lines, Current(n)))
  {
    hide Entries, Replay, AllAbsorbed, Decide, Recovered;
    var c := Decide(rows, r).change;
    var e := Logged(NextLsn(n.lines), c);
    assert n.commits[..|n.commits|] == n.commits;
    RecoveredAfterCrash(n.lines, Good(e));
    EntriesSnoc(n.lines, e);
    ReplaySnoc(Current(n), Entries(n.lines), e);
    ReplayOfAbsorbed(Current(n), Entries(n.lines));
    ReplayCursor(Current(n), Entries(n.lines));
    ApplyIsJoin(rows, c);
  }

  /** A write that follows a checkpoint of the whole log is such a change: its lsn starts at 1
      again, at or below the cursor, and a crash before its commit loses it. */
  lemma WriteAfterFullCheckpointIsLost(b: BlockId, x: string, y: string) returns (nodes: seq<Node>, events: seq<Event>)
    requires ValidWrite(b, x, None) && ValidWrite(b, y, None)
    ensures Run(nodes, events) && |events| == 5
    ensures History(nodes, events, 5) == [Write(b, 1, x), Write(b, 2, y)]
    ensures Current(nodes[5]).rows == map[b := Live(1, x)]
  {
    hide Next, Decide, Entries, Replay, HighWater, ValidWrite, FullyLogged;
    events := [Serve(LocalWrite(b, x, None)), Sync, CheckpointTo(0), Sync, ServeAndCrash(LocalWrite(b, y, None), true, 0)];
    var rows := map[b := Live(1, x)];
    var first, last := Good(Logged(1, Write(b, 1, x))), Good(Logged(1, Write(b, 2, y)));
    nodes := [NewNode,
              Node([first], [Db(map[], 0), Db(rows, 0)]),
              Node([first], [Db(rows, 0)]),
              Node([], [Db(rows, 0), Db(rows, 1)]),
              Node([], [Db(rows, 1)]),
              Node([last], [Db(rows, 1), Db(rows, 1)])];
    FirstWrite(b, x);
    Synced(nodes[1]);
    Synced(nodes[2]);
    WholeCheckpoint(b, x);
    Synced(nodes[3]);
    LostWrite(b, x, y);
    assert Run(nodes, events);
    HistoryOneMore(nodes, events, 0);
    HistoryOneMore(nodes, events, 1);
    HistoryOneMore(nodes, events, 2);
    HistoryOneMore(nodes, events, 3);
    HistoryOneMore(nodes, events, 4);
  }

  lemma HistoryOneMore(nodes: seq<Node>, events: seq<Event>, k: nat)
    requires Run(nodes, events) && k < |events|
    ensures History(nodes, events, 0) == []
    ensures var c := FullyLogged(nodes[k], events[k]);
            History(nodes, events, k + 1) == History(nodes, events, k) + (if c.Some? then [c.value] else [])
  {
  }

  lemma Synced(n: Node)
    requires n.commits != []
    ensures Next(n, Sync) == Node(n.lines, [Current(n)]) && FullyLogged(n, Sync) == None
    ensures forall through | |n.commits| == 1 :: FullyLogged(n, CheckpointTo(through)) == None
  {
  }

  lemma FirstWrite(b: BlockId, x: string)
    requires ValidWrite(b, x, None)
    ensures var ev := Serve(LocalWrite(b, x, None));
            && Next(NewNode, ev) == Node([Good(Logged(1, Write(b, 1, x)))], [Db(map[], 0), Db(map[b := Live(1, x)], 0)])
            && FullyLogged(NewNode, ev) == Some(Write(b, 1, x))
  {
  }

  lemma WholeCheckpoint(b: BlockId, x: string)
    ensures var db := Db(map[b := Live(1, x)], 0);
            Next(Node([Good(Logged(1, Write(b, 1, x)))], [db]), CheckpointTo(0)) == Node([], [db, db.(cursor := 1)])
  {
    var first := Good(Logged(1, Write(b, 1, x)));
    OneEntry(first);
    FullCheckpoint(first, Checkpoint(2, 1));
  }

  lemma LostWrite(b: BlockId, x: string, y: string)
    requires ValidWrite(b, y, None)
    ensures var db := Db(map[b := Live(1, x)], 1);
            var ev := ServeAndCrash(LocalWrite(b, y, None), true, 0);
            && Next(Node([], [db]), ev) == Node([Good(Logged(1, Write(b, 2, y)))], [db, db])
            && FullyLogged(Node([], [db]), ev) == Some(Write(b, 2, y))
  {
    var db := Db(map[b := Live(1, x)], 1);
    var last := Good(Logged(1, Write(b, 2, y)));
    OneEntry(last);
    assert [last][1..] == [] && Recovered([last]) == [last];
    assert [] + [last] == [last] && [db][..1] == [db];
    assert [last.entry][..0] == [] && Replay(db, [last.entry]) == db;
  }

  lemma OneEntry(line: Line)
    requires line.Good?
    ensures Entries([line]) == [line.entry] && HighWater([line.entry]) == line.entry.lsn
  {
    assert [line][..0] == [] && [line.entry][..0] == [];
  }

  lemma FullCheckpoint(line: Line, record: Entry)
    requires line.Good? && record.Checkpoint? && line.entry.lsn <= record.through
    ensures AsLines(Compacted(Entries([line] + [Good(record)]), record.through)) == []
  {
    OneEntry(line);
    EntriesSnoc([line], record);
    var es := [line.entry, record];
    assert es[..1] == [line.entry] && es[..1][..0] == [];
    assert Compacted(es[..1], record.through) == [];
  }
}
