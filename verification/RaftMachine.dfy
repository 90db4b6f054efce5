/** What the state machines of a run hold.  raft.db does not say how far a peer had applied and the
    metadata store does not say which entries its rows come from: a restarted peer applies its
    log from the first entry again, over the tables recovered from the store. */
module RaftMachine {
  import opened Metadata
  import opened MetadataMachine
  import opened RaftLog
  import opened RaftPeer
  import opened RaftPromises
  import opened RaftCluster
  import opened RaftInvariant
  import opened RaftSteps
  import opened RaftSafety
  import P = Placement
  import R = CommandReplay

  type StoredRows = map<BlockId, P.Stored>

  /** The state machine after the first n entries of a log, started on nothing. */
  function MachineAfter(log: seq<LogEntry>, n: nat): Machine {
    ApplyAll(EmptyMachine, Commands(log, 0, n))
  }

  // ----- commands of a log -----

  lemma {:induction false} CommandsAgree(log: seq<LogEntry>, log': seq<LogEntry>, n: nat)
    requires Agree(log, log', n)
    ensures Commands(log, 0, n) == Commands(log', 0, n)
  {
    if n > 0 {
      CommandsAgree(log, log', n - 1);
    }
  }

  lemma AgreeBelow(log: seq<LogEntry>, log': seq<LogEntry>, n: nat, m: nat)
    requires Agree(log, log', m) && n <= m
    ensures Agree(log, log', n)
  {
  }

  // ----- what one handler does to the state machine -----

  /** r comes from s by applying further entries of r's log in order. */
  ghost predicate Ran(s: Peer, r: Peer) {
    s.lastApplied <= r.lastApplied && r.machine == ApplyAll(s.machine, Commands(r.log, s.lastApplied, r.lastApplied))
  }

  lemma IdleRan(s: Peer, r: Peer)
    requires r.lastApplied == s.lastApplied && r.machine == s.machine
    ensures Ran(s, r)
  {
  }

  lemma ApplyPendingRan(s: Peer)
    ensures var r := ApplyPending(s); Ran(s, r) && r.log == s.log && r.currentTerm == s.currentTerm
  {
    hide ApplyPending, ApplyRaises, RaisesAt;
    PendingIsApplied(s);
  }

  lemma AdvanceCommitRan(s: Peer, peers: set<NodeId>)
    ensures var r := AdvanceCommit(s, peers); Ran(s, r) && r.log == s.log
  {
    hide ApplyPending, HighestCountable;
    ApplyPendingRan(s.(commitIndex := HighestCountable(s, peers, |s.log|)));
    IdleRan(s, s);
  }

  // ----- what stays in the log -----

  /** The log has grown, or has lost nothing shared with the leader of its term. */
  ghost predicate KeptLog(h: History, p: Peer, q: Peer) {
    && p.currentTerm <= q.currentTerm
    && (p.log <= q.log || (q.currentTerm in h.reigns && Retains(p.log, q.log, h.reigns[q.currentTerm].log)))
  }

  lemma AppendRan(members: set<NodeId>, ps: Peers, net: set<Message>, h: History, i: NodeId, a: AppendRequest)
    requires Inv(members, ps, net, h) && i in members && Append(a) in net && a.leader != i
    ensures var q := OnAppendEntries(ps[i], a).0; KeptLog(h, ps[i], q) && Ran(ps[i], q)
  {
    hide ReignsOK, VotesOK, BallotsOK, PeersOK, AcksBind, AcksHeld, ReignsBind, VotesBind, NetOK, PeerOK, Quiet, Retains, Mirror, GoodLog, AcceptedPeer, Ran;
    var p := ps[i];
    PeerOf(members, ps, h, i);
    MessageOf(members, h, net, Append(a));
    IdleRan(p, p);
    if a.term >= p.currentTerm {
      var s := BecomeFollower(p, a.term, Some(a.leader));
      FollowerOK(members, ps, h, i, a.term, Some(a.leader));
      QuietPeer(members, ps, h, i, s);
      IdleRan(p, s);
      if PrevMatches(s.log, a.prevIndex, a.prevTerm) {
        PeerLog(members, s, h, i);
        ReignLogGood(members, ps, h, a.term);
        StoreOutcome(members, s, h, a);
        AcceptedIs(p, a);
        AcceptedRan(s, a);
        SameStart(p, s, AcceptedPeer(s, a));
      }
    }
  }

  lemma SameStart(p: Peer, s: Peer, r: Peer)
    requires Ran(s, r) && s.lastApplied == p.lastApplied && s.machine == p.machine
    ensures Ran(p, r)
  {
  }

  lemma AcceptedRan(s: Peer, a: AppendRequest)
    ensures var q := AcceptedPeer(s, a);
            Ran(s, q) && q.log == StoreEntries(s, a.entries).log && q.currentTerm == s.currentTerm
  {
    hide ApplyPending, Commands, ApplyAll, Ran;
    var m := StoreEntries(s, a.entries);
    var v := AdvanceFollowerCommit(m, a.leaderCommit);
    ApplyPendingRan(v);
    SameStart(s, v, ApplyPending(v));
    IdleRan(s, m);
  }

  lemma AdvanceCommitTerm(s: Peer, peers: set<NodeId>)
    ensures AdvanceCommit(s, peers).currentTerm == s.currentTerm
  {
    hide ApplyPending, HighestCountable;
    ApplyPendingRan(s.(commitIndex := HighestCountable(s, peers, |s.log|)));
  }

  lemma ReplyRan(h: History, s: Peer, peers: set<NodeId>, from: NodeId, a: AppendRequest, r: AppendResponse)
    ensures var q := OnAppendReply(s, peers, from, a, r); KeptLog(h, s, q) && Ran(s, q)
  {
    hide AdvanceCommit, Ran, Retains;
    var q := OnAppendReply(s, peers, from, a, r);
    if r.term <= s.currentTerm && r.success {
      var matched := if a.entries != [] then a.entries[|a.entries| - 1].index else a.prevIndex;
      var v := s.(matchIndex := s.matchIndex[from := matched],
                  nextIndex := if a.entries != [] then s.nextIndex[from := matched + 1] else s.nextIndex);
      AdvanceCommitRan(v, peers);
      AdvanceCommitTerm(v, peers);
      SameStart(s, v, q);
    } else {
      IdleRan(s, q);
    }
  }

  lemma ProposeRan(h: History, s: Peer, peers: set<NodeId>, c: Command)
    ensures var q := Propose(s, peers, c); KeptLog(h, s, q) && Ran(s, q)
  {
    hide AdvanceCommit, Ran, Retains;
    var v := AppendLocal(s, c);
    AdvanceCommitRan(v, peers);
    AdvanceCommitTerm(v, peers);
    IdleRan(s, v);
    if peers == {} {
      SameStart(s, v, AdvanceCommit(v, peers));
    }
  }

  // ----- tracking one peer -----

  /** Of the first m entries, which the peer has applied at some time, none can be lost; the
      rows its tables were recovered from come from them; and its state machine is those
      tables with the entries applied since. */
  ghost predicate Tracked(members: set<NodeId>, h: History, p: Peer, m: nat, stored: StoredRows) {
    && p.lastApplied <= m <= |p.log|
    && Backed(members, h, p.log, m, p.currentTerm)
    && R.WrittenBy(stored, Commands(p.log, 0, m))
    && p.machine == ApplyAll(Booted(stored), Commands(p.log, 0, p.lastApplied))
  }

  lemma KeptStays(members: set<NodeId>, ps: Peers, h: History, i: NodeId, q: Peer, ps': Peers, h': History, m: nat)
    requires ps.Keys == members && i in members && ReignsBind(members, ps, h) && Grows(ps, h, ps', h')
    requires KeptLog(h, ps[i], q) && Backed(members, h, ps[i].log, m, ps[i].currentTerm) && m <= |ps[i].log|
    ensures Agree(ps[i].log, q.log, m) && Backed(members, h', q.log, m, q.currentTerm)
  {
    hide ReignsBind, Grows, Backed, Retains;
    BackedLater(members, h, ps[i].log, m, ps[i].currentTerm, q.currentTerm);
    if ps[i].log <= q.log {
      BackedStays(members, ps, h, ps', h', ps[i].log, m, ps[i].currentTerm, q.log, q.currentTerm);
    } else {
      RetainsCommitted(members, ps, h, i, q.currentTerm, q.log, m);
      BackedStays(members, ps, h, ps', h', q.log, m, q.currentTerm, q.log, q.currentTerm);
    }
  }

  lemma BackedBelow(members: set<NodeId>, h: History, log: seq<LogEntry>, n: nat, m: nat, t: nat)
    requires Backed(members, h, log, m, t) && n <= m
    ensures Backed(members, h, log, n, t)
  {
    if n > 0 {
      var u: nat, k: nat :| BackedBy(members, h, log, m, t, u, k);
      assert BackedBy(members, h, log, n, t, u, k);
    }
  }

  lemma WrittenMore(stored: StoredRows, log: seq<LogEntry>, log': seq<LogEntry>, m: nat, n: nat)
    requires R.WrittenBy(stored, Commands(log, 0, m)) && Agree(log, log', m) && m <= n
    ensures R.WrittenBy(stored, Commands(log', 0, n))
  {
    CommandsAgree(log, log', m);
    CommandsSplit(log', 0, m, n);
    R.WrittenByMore(stored, Commands(log', 0, m), Commands(log', m, n));
  }

  /** A handler that applied entries, all committed. */
  lemma RanTracked(members: set<NodeId>, h: History, p: Peer, h': History, q: Peer, m: nat, stored: StoredRows)
    requires Tracked(members, h, p, m, stored) && Ran(p, q)
    requires Agree(p.log, q.log, m) && Backed(members, h', q.log, m, q.currentTerm)
    requires q.lastApplied <= m || (q.lastApplied <= |q.log| && Backed(members, h', q.log, q.lastApplied, q.currentTerm))
    ensures Tracked(members, h', q, if q.lastApplied > m then q.lastApplied else m, stored)
  {
    hide Backed, R.WrittenBy, Commands, ApplyAll, Booted;
    WrittenMore(stored, p.log, q.log, m, if q.lastApplied > m then q.lastApplied else m);
    AgreeBelow(p.log, q.log, p.lastApplied, m);
    CommandsAgree(p.log, q.log, p.lastApplied);
    CommandsSplit(q.log, 0, p.lastApplied, q.lastApplied);
    ApplyAllSplits(Booted(stored), Commands(q.log, 0, p.lastApplied), Commands(q.log, p.lastApplied, q.lastApplied));
  }

  /** A restart over what the store holds. */
  lemma RebootTracked(members: set<NodeId>, h: History, p: Peer, h': History, q: Peer, m: nat, stored: StoredRows)
    requires Tracked(members, h, p, m, stored) && q == Boot(q.disk, p.machine.placements.stored)
    requires Agree(p.log, q.log, m) && Backed(members, h', q.log, m, q.currentTerm)
    ensures Tracked(members, h', q, m, p.machine.placements.stored)
  {
    hide Backed, R.WrittenBy, ApplyAll, Booted, SortedRows;
    var rows := p.machine.placements.stored;
    CommandsSplit(p.log, 0, p.lastApplied, m);
    assert forall c | c in Commands(p.log, 0, p.lastApplied) :: c in Commands(p.log, 0, p.lastApplied) + Commands(p.log, p.lastApplied, m);
    R.ReplayWrites(stored, Commands(p.log, 0, p.lastApplied), Commands(p.log, 0, m));
    WrittenMore(rows, p.log, q.log, m, m);
    NothingApplied(rows, q.log);
  }

  lemma NothingApplied(rows: StoredRows, log: seq<LogEntry>)
    ensures ApplyAll(Booted(rows), Commands(log, 0, 0)) == Booted(rows)
  {
  }

  lemma BootedKeepsRows(disk: Disk, rows: StoredRows)
    ensures Boot(disk, rows).machine.placements.stored == rows
  {
  }

  // ----- how far a peer has ever applied -----

  ghost predicate Crashes(s: Step) {
    || s.CrashRestart? || s.ReceiveVoteRequestAndCrash? || s.ReceiveAppendAndCrash?
    || s.ReceiveAppendReplyAndCrash? || s.ClientProposeAndCrash?
  }

  /** How far peer i has applied when a step is over, or when the crash cuts it short. */
  ghost function AppliedIn(c: Cluster, s: Step, i: NodeId): nat
    requires Enabled(c, s)
  {
    if i !in c.peers then 0
    else if s.i != i then c.peers[i].lastApplied
    else if s.ReceiveAppendAndCrash? && s.point.Applying? then c.peers[i].lastApplied + s.point.applied
    else if s.ReceiveAppendReplyAndCrash? || s.ClientProposeAndCrash? then c.peers[i].lastApplied + s.applied
    else if Crashes(s) then c.peers[i].lastApplied
    else Next(c, s).peers[i].lastApplied
  }

  /** The most entries peer i has ever applied, before and after its crashes. */
  ghost function MostApplied(states: seq<Cluster>, steps: seq<Step>, a: nat, i: NodeId): nat
    requires a < |states| && a <= |steps|
    requires forall k | 0 <= k < a :: Enabled(states[k], steps[k])
  {
    if a == 0 then 0
    else
      var before, now := MostApplied(states, steps, a - 1, i), AppliedIn(states[a - 1], steps[a - 1], i);
      if now > before then now else before
  }

  /** The rows in peer i's store when it last started. */
  ghost function StartedOver(states: seq<Cluster>, steps: seq<Step>, a: nat, i: NodeId): StoredRows
    requires a < |states| && a <= |steps|
  {
    if a == 0 then map[]
    else if steps[a - 1].i == i && Crashes(steps[a - 1]) && i in states[a].peers then states[a].peers[i].machine.placements.stored
    else StartedOver(states, steps, a - 1, i)
  }

  // ----- one step -----

  /** A handler that ran to its end. */
  lemma HandlerTracks(members: set<NodeId>, ps: Peers, h: History, i: NodeId, q: Peer, net': set<Message>, h': History, m: nat, stored: StoredRows)
    requires ps.Keys == members && i in members && ReignsBind(members, ps, h)
    requires Grows(ps, h, ps[i := q], h') && Inv(members, ps[i := q], net', h')
    requires KeptLog(h, ps[i], q) && Ran(ps[i], q) && Tracked(members, h, ps[i], m, stored)
    ensures Tracked(members, h', q, if q.lastApplied > m then q.lastApplied else m, stored)
  {
    hide Inv, ReignsBind, Grows, KeptLog, Ran, Backed, ReignsOK, VotesOK, AcksHeld, PeerOK;
    TrackedBacked(members, h, ps[i], m, stored);
    KeptStays(members, ps, h, i, q, ps[i := q], h', m);
    Peek(members, Cluster(ps[i := q], net'), h', i);
    CommitFacts(members, q, h', i);
    BackedBelow(members, h', q.log, q.lastApplied, q.commitIndex, q.currentTerm);
    RanTracked(members, h, ps[i], h', q, m, stored);
  }

  lemma TrackedBacked(members: set<NodeId>, h: History, p: Peer, m: nat, stored: StoredRows)
    requires Tracked(members, h, p, m, stored)
    ensures m <= |p.log| && Backed(members, h, p.log, m, p.currentTerm)
  {
  }

  /** A handler that died after applying n more entries. */
  lemma InterruptedTracks(members: set<NodeId>, ps: Peers, h: History, i: NodeId, r: Peer, net': set<Message>, h': History, n: nat, m: nat, stored: StoredRows)
    requires ps.Keys == members && i in members && ReignsBind(members, ps, h)
    requires Grows(ps, h, ps[i := r], h') && Inv(members, ps[i := r], net', h')
    requires KeptLog(h, ps[i], r) && Ran(ps[i], r) && Tracked(members, h, ps[i], m, stored)
    requires ps[i].lastApplied + n <= r.lastApplied
    ensures var q, x := Interrupted(ps[i], r, n), ps[i].lastApplied + n;
            Tracked(members, h', q, if x > m then x else m, q.machine.placements.stored)
  {
    hide Inv, ReignsBind, Grows, KeptLog, Ran, Backed, ReignsOK, VotesOK, AcksHeld, PeerOK, ApplyAll, Commands, Boot;
    TrackedBacked(members, h, ps[i], m, stored);
    KeptStays(members, ps, h, i, r, ps[i := r], h', m);
    Peek(members, Cluster(ps[i := r], net'), h', i);
    CommitFacts(members, r, h', i);
    var x := ps[i].lastApplied + n;
    BackedBelow(members, h', r.log, x, r.commitIndex, r.currentTerm);
    var mid := r.(lastApplied := x, machine := ApplyAll(ps[i].machine, Commands(r.log, ps[i].lastApplied, x)));
    MidRan(ps[i], mid);
    RanTracked(members, h, ps[i], h', mid, m, stored);
    var m' := if x > m then x else m;
    var q := Interrupted(ps[i], r, n);
    RebootedLog(members, r, h', i, StoreAfter(ps[i], r.log, n));
    BootedKeepsRows(r.disk, StoreAfter(ps[i], r.log, n));
    TrackedBacked(members, h', mid, m', stored);
    WholeAgrees(mid.log, m');
    RebootTracked(members, h', mid, h', q, m', stored);
  }

  lemma MidRan(p: Peer, mid: Peer)
    requires p.lastApplied <= mid.lastApplied && mid.machine == ApplyAll(p.machine, Commands(mid.log, p.lastApplied, mid.lastApplied))
    ensures Ran(p, mid)
  {
  }

  lemma WholeAgrees(log: seq<LogEntry>, m: nat)
    requires m <= |log|
    ensures Agree(log, log, m)
  {
  }

  lemma RebootedLog(members: set<NodeId>, r: Peer, h: History, i: NodeId, rows: StoredRows)
    requires PeerOK(members, r, h, i)
    ensures var q := Boot(r.disk, rows); q.log == r.log && q.currentTerm == r.currentTerm && q.disk == r.disk
  {
    SortedRowsOfMirror(r.disk.rows, r.log);
  }

  /** A crash outside the loop that applies: the store keeps its rows. */
  lemma CrashTracks(members: set<NodeId>, ps: Peers, h: History, i: NodeId, q: Peer, h': History, m: nat, stored: StoredRows)
    requires ps.Keys == members && i in members && ReignsBind(members, ps, h) && Grows(ps, h, ps[i := q], h')
    requires KeptLog(h, ps[i], q) && q == Boot(q.disk, ps[i].machine.placements.stored) && Tracked(members, h, ps[i], m, stored)
    ensures Tracked(members, h', q, m, ps[i].machine.placements.stored)
    ensures q.machine.placements.stored == ps[i].machine.placements.stored
  {
    hide ReignsBind, Grows, KeptLog, Backed, Boot;
    TrackedBacked(members, h, ps[i], m, stored);
    KeptStays(members, ps, h, i, q, ps[i := q], h', m);
    RebootTracked(members, h, ps[i], h', q, m, stored);
    BootedKeepsRows(q.disk, ps[i].machine.placements.stored);
  }

  /** What a crash in an append request or a vote request leaves of the log. */
  lemma AppendCrashKept(members: set<NodeId>, ps: Peers, net: set<Message>, h: History, i: NodeId, a: AppendRequest, n: nat)
    requires Inv(members, ps, net, h) && i in members && n <= |a.entries| && Append(a) in net && a.leader != i
    ensures var q := OnAppendEntriesCrash(ps[i], a, n);
            KeptLog(h, ps[i], q) && q == Boot(q.disk, ps[i].machine.placements.stored)
  {
    hide ReignsOK, VotesOK, BallotsOK, PeersOK, AcksBind, AcksHeld, ReignsBind, VotesBind, NetOK, PeerOK, Quiet, Retains, GoodLog;
    var p := ps[i];
    var q := OnAppendEntriesCrash(p, a, n);
    var rows := p.machine.placements.stored;
    PeerOf(members, ps, h, i);
    MessageOf(members, h, net, Append(a));
    if a.term < p.currentTerm {
      RebootedLog(members, p, h, i, rows);
    } else {
      var s := BecomeFollower(p, a.term, Some(a.leader));
      FollowerOK(members, ps, h, i, a.term, Some(a.leader));
      QuietPeer(members, ps, h, i, s);
      if PrevMatches(s.log, a.prevIndex, a.prevTerm) {
        ReignLogGood(members, ps, h, a.term);
        BootedKeepsRows(q.disk, rows);
        TornLog(members, s, h, i, a, n, q);
      } else {
        RebootedLog(members, s, h, i, rows);
      }
    }
  }

  lemma VoteCrashKept(members: set<NodeId>, ps: Peers, h: History, i: NodeId, term: nat)
    requires ps.Keys == members && i in members && PeerOK(members, ps[i], h, i)
    ensures var q := OnRequestVoteCrash(ps[i], term);
            KeptLog(h, ps[i], q) && q == Boot(q.disk, ps[i].machine.placements.stored)
  {
    hide PeerOK, Quiet, Retains;
    RebootedLog(members, ps[i], h, i, ps[i].machine.placements.stored);
    if term > ps[i].currentTerm {
      var s := BecomeFollower(ps[i], term, None);
      FollowerOK(members, ps, h, i, term, None);
      QuietPeer(members, ps, h, i, s);
      RebootedLog(members, s, h, i, ps[i].machine.placements.stored);
    }
  }

  lemma RestartKept(members: set<NodeId>, ps: Peers, h: History, i: NodeId)
    requires ps.Keys == members && i in members && PeerOK(members, ps[i], h, i)
    ensures KeptLog(h, ps[i], Boot(ps[i].disk, ps[i].machine.placements.stored))
  {
    hide Retains;
    RebootedLog(members, ps[i], h, i, ps[i].machine.placements.stored);
  }

  lemma OtherTracks(members: set<NodeId>, ps: Peers, h: History, ps': Peers, h': History, i: NodeId, m: nat, stored: StoredRows)
    requires ps.Keys == members && Grows(ps, h, ps', h') && i in ps && Tracked(members, h, ps[i], m, stored)
    ensures Tracked(members, h', ps[i], m, stored)
  {
    WholeAgrees(ps[i].log, m);
    BackedStays(members, ps, h, ps', h', ps[i].log, m, ps[i].currentTerm, ps[i].log, ps[i].currentTerm);
  }

  /** The handlers that touch neither the log nor the state machine. */
  lemma QuietRan(c: Cluster, h: History, s: Step)
    requires Enabled(c, s)
    requires s.Timeout? || s.ReceiveVoteRequest? || s.ReceiveVoteReply? || s.VoterUnreachable? || s.Conclude? || s.Replicate?
    ensures KeptLog(h, c.peers[s.i], Next(c, s).peers[s.i]) && Ran(c.peers[s.i], Next(c, s).peers[s.i])
  {
    hide Ran, Retains;
    IdleRan(c.peers[s.i], Next(c, s).peers[s.i]);
  }

  lemma StepTracks(members: set<NodeId>, c: Cluster, h: History, s: Step, m: nat, stored: StoredRows) returns (h': History)
    requires Inv(members, c.peers, c.net, h) && Enabled(c, s) && Timely(c, s)
    requires Tracked(members, h, c.peers[s.i], m, stored)
    ensures Grows(c.peers, h, Next(c, s).peers, h') && Inv(members, Next(c, s).peers, Next(c, s).net, h')
    ensures var q, x := Next(c, s).peers[s.i], AppliedIn(c, s, s.i);
            Tracked(members, h', q, if x > m then x else m, if Crashes(s) then q.machine.placements.stored else stored)
  {
    hide Inv, ReignsBind, Grows, KeptLog, Ran, Tracked, ReignsOK, VotesOK, AcksHeld, PeerOK;
    hide OnRequestVote, OnRequestVoteCrash, OnVoteReply, ConcludeElection, Propose, BuildAppend, OnAppendEntries, OnAppendEntriesCrash, OnAppendReply, Boot, StartElection, Interrupted;
    var ps, i := c.peers, s.i;
    Peek(members, c, h, i);
    TrackedApplied(members, h, ps[i], m, stored);
    if s.ReceiveAppendAndCrash? && s.point.Applying? {
      var r := OnAppendEntries(ps[i], s.append);
      AppendRan(members, ps, c.net, h, i, s.append);
      h' := AppendStep(members, ps, c.net, h, i, s.append);
      if r.1.Some? {
        FewerMessages(members, ps[i := r.0], c.net, {AppendReply(i, s.append, r.1.value)}, h');
      }
      InterruptedStep(members, ps, c.net, h, i, r.0, h', s.point.applied);
      InterruptedTracks(members, ps, h, i, r.0, c.net, h', s.point.applied, m, stored);
    } else if s.ReceiveAppendReplyAndCrash? {
      h' := h;
      var r := OnAppendReply(ps[i], members - {i}, s.from, s.append, s.result);
      ReplyRan(h, ps[i], members - {i}, s.from, s.append, s.result);
      AppendReplyStep(members, ps, c.net, h, i, s.from, s.append, s.result);
      InterruptedStep(members, ps, c.net, h, i, r, h', s.applied);
      InterruptedTracks(members, ps, h, i, r, c.net, h', s.applied, m, stored);
    } else if s.ClientProposeAndCrash? {
      var r := Propose(ps[i], members - {i}, s.command);
      ProposeRan(h, ps[i], members - {i}, s.command);
      h' := ProposeStep(members, ps, c.net, h, i, s.command);
      InterruptedStep(members, ps, c.net, h, i, r, h', s.applied);
      InterruptedTracks(members, ps, h, i, r, c.net, h', s.applied, m, stored);
    } else {
      h' := StepKeepsInv(members, c, h, s);
      if Crashes(s) {
        CrashStepTracks(members, c, h, s, h', m, stored);
      } else {
        var q := Next(c, s).peers[i];
        HandlerRan(members, c, h, s);
        assert Next(c, s).peers == ps[i := q];
        HandlerTracks(members, ps, h, i, q, Next(c, s).net, h', m, stored);
      }
    }
  }

  lemma TrackedApplied(members: set<NodeId>, h: History, p: Peer, m: nat, stored: StoredRows)
    requires Tracked(members, h, p, m, stored)
    ensures p.lastApplied <= m
  {
  }

  lemma HandlerRan(members: set<NodeId>, c: Cluster, h: History, s: Step)
    requires Inv(members, c.peers, c.net, h) && Enabled(c, s) && !Crashes(s)
    ensures var p, q := c.peers[s.i], Next(c, s).peers[s.i];
            KeptLog(h, p, q) && Ran(p, q) && Next(c, s).peers == c.peers[s.i := q]
  {
    hide Inv, KeptLog, Ran, OnAppendEntries, OnAppendReply, Propose;
    match s
    case ReceiveAppend(i, a) =>
      MembersOf(members, c, h);
      AppendRan(members, c.peers, c.net, h, i, a);
    case ReceiveAppendReply(i, from, a, r) => ReplyRan(h, c.peers[i], Others(c, i), from, a, r);
    case ClientPropose(i, command) => ProposeRan(h, c.peers[i], Others(c, i), command);
    case _ => QuietRan(c, h, s);
  }

  lemma MembersOf(members: set<NodeId>, c: Cluster, h: History)
    requires Inv(members, c.peers, c.net, h)
    ensures c.peers.Keys == members
  {
  }

  lemma CrashStepTracks(members: set<NodeId>, c: Cluster, h: History, s: Step, h': History, m: nat, stored: StoredRows)
    requires Inv(members, c.peers, c.net, h) && Enabled(c, s)
    requires s.CrashRestart? || s.ReceiveVoteRequestAndCrash? || (s.ReceiveAppendAndCrash? && s.point.Merging?)
    requires Tracked(members, h, c.peers[s.i], m, stored) && Grows(c.peers, h, Next(c, s).peers, h')
    ensures var q := Next(c, s).peers[s.i]; Tracked(members, h', q, m, q.machine.placements.stored)
  {
    hide Inv, ReignsBind, Grows, KeptLog, Tracked, ReignsOK, VotesOK, AcksHeld, PeerOK, OnAppendEntriesCrash, OnRequestVoteCrash, Boot;
    var ps, i := c.peers, s.i;
    Peek(members, c, h, i);
    var q := Next(c, s).peers[i];
    match s {
      case ReceiveAppendAndCrash(_, a, point) => AppendCrashKept(members, ps, c.net, h, i, a, point.merged);
      case ReceiveVoteRequestAndCrash(_, vote) => VoteCrashKept(members, ps, h, i, vote.term);
      case CrashRestart(_) =>
        RestartKept(members, ps, h, i);
        BootIs(ps[i].disk, ps[i].machine.placements.stored);
    }
    assert Next(c, s).peers == ps[i := q];
    CrashTracks(members, ps, h, i, q, h', m, stored);
  }

  lemma BootIs(disk: Disk, rows: StoredRows)
    ensures Boot(disk, rows).disk == disk
  {
  }

  // ----- whole runs -----

  lemma StartTracked(members: set<NodeId>, c: Cluster, i: NodeId)
    requires Init(members, c) && i in members
    ensures Tracked(members, NoHistory, c.peers[i], 0, map[])
  {
    NothingApplied(map[], c.peers[i].log);
  }

  lemma {:induction false} RunTracks(members: set<NodeId>, states: seq<Cluster>, steps: seq<Step>, a: nat, i: NodeId) returns (h: History)
    requires Run(members, states, steps) && a < |states| && i in members
    ensures Inv(members, states[a].peers, states[a].net, h) && i in states[a].peers
    ensures forall k | 0 <= k < a :: Enabled(states[k], steps[k])
    ensures Tracked(members, h, states[a].peers[i], MostApplied(states, steps, a, i), StartedOver(states, steps, a, i))
    decreases a
  {
    hide Inv, Tracked, Enabled, Next, Timely, AppliedIn;
    if a == 0 {
      InitialInv(members, states[0]);
      StartTracked(members, states[0], i);
      MembersOf(members, states[0], NoHistory);
      h := NoHistory;
    } else {
      var before := RunTracks(members, states, steps, a - 1, i);
      var c, s := states[a - 1], steps[a - 1];
      assert Enabled(c, s) && Timely(c, s) && states[a] == Next(c, s);
      h := OneMoreTracked(members, c, before, s, i, MostApplied(states, steps, a - 1, i), StartedOver(states, steps, a - 1, i));
      MembersOf(members, states[a], h);
      MembersOf(members, c, before);
    }
  }

  lemma OneMoreTracked(members: set<NodeId>, c: Cluster, h: History, s: Step, i: NodeId, m: nat, stored: StoredRows) returns (h': History)
    requires Inv(members, c.peers, c.net, h) && Enabled(c, s) && Timely(c, s) && i in c.peers
    requires Tracked(members, h, c.peers[i], m, stored)
    ensures Inv(members, Next(c, s).peers, Next(c, s).net, h') && i in Next(c, s).peers
    ensures var q, x := Next(c, s).peers[i], AppliedIn(c, s, i);
            Tracked(members, h', q, if x > m then x else m, if s.i == i && Crashes(s) then q.machine.placements.stored else stored)
  {
    hide Inv, Grows, Tracked, Timely;
    hide OnRequestVote, OnRequestVoteCrash, OnVoteReply, ConcludeElection, Propose, BuildAppend, OnAppendEntries, OnAppendEntriesCrash, OnAppendReply, Boot, StartElection, Interrupted;
    MembersOf(members, c, h);
    if s.i == i {
      h' := StepTracks(members, c, h, s, m, stored);
    } else {
      h' := StepKeepsInv(members, c, h, s);
      OtherTracks(members, c.peers, h, Next(c, s).peers, h', i, m, stored);
      TrackedApplied(members, h, c.peers[i], m, stored);
    }
  }

  /** In every reachable state a peer's state machine is the log applied so far, over the tables
      recovered from the rows its store held when it last started.  Those rows were written by
      entries that are still in its log.  It is what a peer that started on nothing would hold
      exactly if the entries applied so far have overwritten those rows. */
  lemma MachineIsReplay(members: set<NodeId>, states: seq<Cluster>, steps: seq<Step>, a: nat, i: NodeId)
    requires Run(members, states, steps) && a < |states| && i in members
    ensures i in states[a].peers
    ensures var p, stored, most := states[a].peers[i], StartedOver(states, steps, a, i), MostApplied(states, steps, a, i);
            && p.lastApplied <= most <= |p.log|
            && R.WrittenBy(stored, Commands(p.log, 0, most))
            && p.machine == ApplyAll(Booted(stored), Commands(p.log, 0, p.lastApplied))
            && (p.machine == MachineAfter(p.log, p.lastApplied) <==> R.Overwritten(stored, Commands(p.log, 0, p.lastApplied)))
  {
    assert a <= |steps|;
    hide Inv, Run, Enabled, Commands, ApplyAll, Booted, R.Overwritten, R.WrittenBy, Backed, MostApplied, StartedOver;
    var h := RunTracks(members, states, steps, a, i);
    var p := states[a].peers[i];
    R.ReplayConvergesIff(StartedOver(states, steps, a, i), Commands(p.log, 0, p.lastApplied));
  }

  /** Peers that have applied equally far, and have each caught up with what they had applied
      before any crash, hold the same placements, versions, inventory, stored rows and peer list:
      those that the log gives from the start. */
  lemma AppliedStatesAgree(members: set<NodeId>, states: seq<Cluster>, steps: seq<Step>, a: nat, b: nat, i: NodeId, j: NodeId)
    requires Run(members, states, steps) && a <= b < |states| && i in states[a].peers && j in states[b].peers
    requires states[a].peers[i].lastApplied == states[b].peers[j].lastApplied
    requires states[a].peers[i].lastApplied >= MostApplied(states, steps, a, i)
    requires states[b].peers[j].lastApplied >= MostApplied(states, steps, b, j)
    ensures states[a].peers[i].machine == states[b].peers[j].machine
    ensures states[a].peers[i].machine == MachineAfter(states[a].peers[i].log, states[a].peers[i].lastApplied)
  {
    hide Run, Enabled, ApplyAll, Booted, R.Overwritten, R.WrittenBy, MostApplied, StartedOver;
    var p, q := states[a].peers[i], states[b].peers[j];
    CaughtUp(members, states, steps, a, i);
    CaughtUp(members, states, steps, b, j);
    StateMachineSafety(members, states, steps, a, b, i, j, p.lastApplied);
    assert Agree(p.log, q.log, p.lastApplied);
    CommandsAgree(p.log, q.log, p.lastApplied);
  }

  lemma CaughtUp(members: set<NodeId>, states: seq<Cluster>, steps: seq<Step>, a: nat, i: NodeId)
    requires Run(members, states, steps) && a < |states| && i in states[a].peers
    requires states[a].peers[i].lastApplied >= MostApplied(states, steps, a, i)
    ensures states[a].peers[i].machine == MachineAfter(states[a].peers[i].log, states[a].peers[i].lastApplied)
  {
    PeersFixed(members, states, steps, a);
    hide Enabled, Commands, ApplyAll, Booted, R.Overwritten, R.WrittenBy, MostApplied, StartedOver;
    MachineIsReplay(members, states, steps, a, i);
    R.ReplayOfOwnRows(StartedOver(states, steps, a, i), Commands(states[a].peers[i].log, 0, states[a].peers[i].lastApplied));
  }
}
