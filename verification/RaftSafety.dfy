/** The guarantees of Figure 3 of the extended Raft paper, over whole runs of RaftCluster. */
module RaftSafety {
  import opened Metadata
  import opened MetadataMachine
  import opened RaftLog
  import opened RaftPeer
  import opened RaftCluster
  import opened RaftInvariant
  import opened RaftSteps

  ghost predicate Explains(members: set<NodeId>, states: seq<Cluster>, hs: seq<History>) {
    && |hs| == |states|
    && (forall k | 0 <= k < |states| :: Inv(members, states[k].peers, states[k].net, hs[k]))
    && (forall k | 0 < k < |states| :: Grows(states[k - 1].peers, hs[k - 1], states[k].peers, hs[k]))
  }

  lemma {:induction false} RunHasHistory(members: set<NodeId>, states: seq<Cluster>, steps: seq<Step>) returns (hs: seq<History>)
    requires Run(members, states, steps)
    ensures Explains(members, states, hs)
    decreases |steps|
  {
    hide Inv, Grows, Enabled, Timely, Next;
    if steps == [] {
      InitialInv(members, states[0]);
      hs := [NoHistory];
    } else {
      var n := |steps| - 1;
      var before := RunHasHistory(members, states[..n + 1], steps[..n]);
      var h := StepKeepsInv(members, states[n], before[n], steps[n]);
      hs := before + [h];
    }
  }

  lemma {:induction false} GrowsAlong(members: set<NodeId>, states: seq<Cluster>, hs: seq<History>, a: nat, b: nat)
    requires Explains(members, states, hs) && a <= b < |states|
    ensures Grows(states[a].peers, hs[a], states[b].peers, hs[b])
    decreases b - a
  {
    hide Inv, Grows;
    if a == b {
      StillGrows(states[a].peers, hs[a]);
    } else {
      GrowsAlong(members, states, hs, a, b - 1);
      GrowsTransitive(states[a].peers, hs[a], states[b - 1].peers, hs[b - 1], states[b].peers, hs[b]);
    }
  }

  lemma Peek(members: set<NodeId>, c: Cluster, h: History, i: NodeId)
    requires Inv(members, c.peers, c.net, h) && i in c.peers
    ensures c.peers.Keys == members && PeerOK(members, c.peers[i], h, i)
    ensures ReignsOK(members, c.peers, h) && VotesOK(members, c.peers, h)
    ensures ReignsBind(members, c.peers, h) && AcksHeld(members, c.peers, h)
  {
  }

  // ----- election safety (section 5.2) -----

  /** At most one peer is ever leader in a term, now or at any other moment of the run. */
  lemma ElectionSafety(members: set<NodeId>, states: seq<Cluster>, steps: seq<Step>, a: nat, b: nat, i: NodeId, j: NodeId)
    requires Run(members, states, steps) && a < |states| && b < |states|
    requires i in states[a].peers && j in states[b].peers
    requires states[a].peers[i].role == Leader && states[b].peers[j].role == Leader
    requires states[a].peers[i].currentTerm == states[b].peers[j].currentTerm
    ensures i == j
  {
    hide Inv, ReignsOK, VotesOK, ReignsBind, AcksHeld, Run;
    var hs := RunHasHistory(members, states, steps);
    Peek(members, states[a], hs[a], i);
    Peek(members, states[b], hs[b], j);
    var t := states[a].peers[i].currentTerm;
    if a <= b {
      GrowsAlong(members, states, hs, a, b);
      assert ReignGrows(hs[a].reigns[t], hs[b].reigns[t]);
    } else {
      GrowsAlong(members, states, hs, b, a);
      assert ReignGrows(hs[b].reigns[t], hs[a].reigns[t]);
    }
  }

  // ----- log matching (section 5.3) -----

  /** Entries with the same index and term, in any two peers at any two moments, have the same
      command and sit on identical prefixes. */
  lemma LogMatching(members: set<NodeId>, states: seq<Cluster>, steps: seq<Step>, a: nat, b: nat, i: NodeId, j: NodeId, x: nat)
    requires Run(members, states, steps) && a <= b < |states|
    requires i in states[a].peers && j in states[b].peers
    requires x < |states[a].peers[i].log| && x < |states[b].peers[j].log|
    requires states[a].peers[i].log[x].term == states[b].peers[j].log[x].term
    ensures states[a].peers[i].log[..x + 1] == states[b].peers[j].log[..x + 1]
  {
    hide Inv, ReignsOK, VotesOK, ReignsBind, AcksHeld, Grows, Run;
    var hs := RunHasHistory(members, states, steps);
    Peek(members, states[a], hs[a], i);
    Peek(members, states[b], hs[b], j);
    GrowsAlong(members, states, hs, a, b);
    var p, q := states[a].peers[i], states[b].peers[j];
    GoodLogStays(states[a].peers, hs[a], states[b].peers, hs[b], p.log, p.currentTerm, p.currentTerm);
    RootedLogsMatch(hs[b], p.log, q.log);
    assert Agree(p.log, q.log, x + 1);
  }

  // ----- leader completeness (section 5.4) -----

  lemma CommitFacts(members: set<NodeId>, p: Peer, h: History, i: NodeId)
    requires PeerOK(members, p, h, i)
    ensures p.lastApplied <= p.commitIndex <= |p.log|
    ensures Backed(members, h, p.log, p.commitIndex, p.currentTerm)
  {
  }

  lemma ChosenReachesLeader(members: set<NodeId>, ps: Peers, h: History, j: NodeId, t: nat, k: nat)
    requires ps.Keys == members && j in members
    requires ReignsBind(members, ps, h) && PeerOK(members, ps[j], h, j)
    requires ps[j].role == Leader && t <= ps[j].currentTerm && Chosen(members, h, t, k)
    ensures Agree(ps[j].log, h.reigns[t].log, k)
  {
    if t < ps[j].currentTerm {
      ChosenNotBlocked(members, ps, h, t, k);
      assert Holds(members, ps, h, t, k, h.reigns[ps[j].currentTerm].log);
    }
  }

  lemma CommittedTerm(log: seq<LogEntry>, chosen: seq<LogEntry>, n: nat, t: int)
    requires 0 < n && Agree(log, chosen, n) && forall x | 0 <= x < |chosen| :: chosen[x].term <= t
    ensures log[n - 1].term <= t
  {
  }

  /** What any peer has marked committed was chosen in some term, not before its last entry's and
      not after the peer's own, and is in the log of whoever leads that term or a later one from
      then on. */
  lemma LeaderCompleteness(members: set<NodeId>, states: seq<Cluster>, steps: seq<Step>, a: nat, i: NodeId) returns (t: nat)
    requires Run(members, states, steps) && a < |states| && i in states[a].peers
    ensures var p := states[a].peers[i];
            && t <= p.currentTerm && p.commitIndex <= |p.log|
            && (p.commitIndex > 0 ==> p.log[p.commitIndex - 1].term <= t)
    ensures forall b: nat, j | a <= b < |states| && LeadsFrom(states[b], j, t) :: states[a].peers[i].log[..states[a].peers[i].commitIndex] <= states[b].peers[j].log
  {
    hide Inv, ReignsOK, VotesOK, ReignsBind, AcksHeld, Grows, Run, PeerOK, Chosen;
    var hs := RunHasHistory(members, states, steps);
    Peek(members, states[a], hs[a], i);
    CommitFacts(members, states[a].peers[i], hs[a], i);
    var p := states[a].peers[i];
    var n := p.commitIndex;
    t := 0;
    if n > 0 {
      var k: nat;
      t, k :| BackedBy(members, hs[a], p.log, n, p.currentTerm, t, k);
      ChosenIn(members, hs[a], t, k);
      ReignLogGood(members, states[a].peers, hs[a], t);
      CommittedTerm(p.log, hs[a].reigns[t].log, n, t);
      forall b: nat, j | a <= b < |states| && LeadsFrom(states[b], j, t)
        ensures p.log[..n] <= states[b].peers[j].log
      {
        LeaderHolds(members, states, hs, a, b, i, j, t, k);
      }
    }
  }

  ghost predicate LeadsFrom(c: Cluster, j: NodeId, t: nat) {
    j in c.peers && c.peers[j].role == Leader && c.peers[j].currentTerm >= t
  }

  lemma ChosenIn(members: set<NodeId>, h: History, t: nat, k: nat)
    requires Chosen(members, h, t, k)
    ensures t in h.reigns
  {
  }

  lemma LeaderHolds(members: set<NodeId>, states: seq<Cluster>, hs: seq<History>, a: nat, b: nat, i: NodeId, j: NodeId, t: nat, k: nat)
    requires Explains(members, states, hs) && a <= b < |states| && i in states[a].peers && LeadsFrom(states[b], j, t)
    requires BackedBy(members, hs[a], states[a].peers[i].log, states[a].peers[i].commitIndex, states[a].peers[i].currentTerm, t, k)
    requires states[a].peers[i].commitIndex <= |states[a].peers[i].log|
    ensures states[a].peers[i].log[..states[a].peers[i].commitIndex] <= states[b].peers[j].log
  {
    hide Inv, ReignsOK, VotesOK, ReignsBind, AcksHeld, Grows, PeerOK, Chosen;
    Peek(members, states[a], hs[a], i);
    Peek(members, states[b], hs[b], j);
    GrowsAlong(members, states, hs, a, b);
    ChosenIn(members, hs[a], t, k);
    ChosenStays(members, states[a].peers, hs[a], states[b].peers, hs[b], t, k);
    PrefixGrows(states[a].peers, hs[a], states[b].peers, hs[b], t);
    ChosenReachesLeader(members, states[b].peers, hs[b], j, t, k);
    assert Agree(states[b].peers[j].log, states[a].peers[i].log, states[a].peers[i].commitIndex);
  }

  // ----- state machine safety (section 5.4.3) -----

  /** Two committed prefixes, each part of what some term chose, are prefixes of one another. */
  lemma BackedLogsAgree(members: set<NodeId>, ps: Peers, h: History, a: seq<LogEntry>, m: nat, s: nat, b: seq<LogEntry>, n: nat, t: nat)
    requires ReignsBind(members, ps, h)
    requires Backed(members, h, a, m, s) && Backed(members, h, b, n, t)
    requires m <= |a| && n <= |b|
    ensures Agree(a, b, if m <= n then m else n)
  {
    if m > 0 && n > 0 {
      var u: nat, k: nat :| BackedBy(members, h, a, m, s, u, k);
      var v: nat, l: nat :| BackedBy(members, h, b, n, t, v, l);
      ChosenNotBlocked(members, ps, h, u, k);
      ChosenNotBlocked(members, ps, h, v, l);
      if u < v {
        assert Holds(members, ps, h, u, k, h.reigns[v].log);
      } else if v < u {
        assert Holds(members, ps, h, v, l, h.reigns[u].log);
      }
    }
  }

  /** No two peers, and no peer before and after a crash, ever apply different entries at the
      same index. */
  lemma StateMachineSafety(members: set<NodeId>, states: seq<Cluster>, steps: seq<Step>, a: nat, b: nat, i: NodeId, j: NodeId, n: nat)
    requires Run(members, states, steps) && a <= b < |states|
    requires i in states[a].peers && j in states[b].peers
    requires n <= states[a].peers[i].lastApplied && n <= states[b].peers[j].lastApplied
    ensures n <= |states[a].peers[i].log| && n <= |states[b].peers[j].log|
    ensures states[a].peers[i].log[..n] == states[b].peers[j].log[..n]
  {
    hide Inv, ReignsOK, VotesOK, ReignsBind, AcksHeld, Grows, Run, PeerOK;
    var hs := RunHasHistory(members, states, steps);
    Peek(members, states[a], hs[a], i);
    Peek(members, states[b], hs[b], j);
    GrowsAlong(members, states, hs, a, b);
    CommitFacts(members, states[a].peers[i], hs[a], i);
    CommitFacts(members, states[b].peers[j], hs[b], j);
    var p, q := states[a].peers[i], states[b].peers[j];
    BackedStays(members, states[a].peers, hs[a], states[b].peers, hs[b], p.log, p.commitIndex, p.currentTerm, p.log, p.currentTerm);
    BackedLogsAgree(members, states[b].peers, hs[b], p.log, p.commitIndex, p.currentTerm, q.log, q.commitIndex, q.currentTerm);
    assert Agree(p.log, q.log, n);
  }

  // ----- durability -----

  /** In every reachable state raft.db holds the term, the vote and, row for entry, the log:
      a restart reloads exactly the log that was acknowledged. */
  lemma DurableState(members: set<NodeId>, states: seq<Cluster>, steps: seq<Step>, a: nat, i: NodeId)
    requires Run(members, states, steps) && a < |states| && i in states[a].peers
    ensures var p := states[a].peers[i];
            && Mirror(p.disk.rows, p.log)
            && Boot(p.disk, p.machine.placements.stored).log == p.log
            && Boot(p.disk, p.machine.placements.stored).currentTerm == p.currentTerm
            && Boot(p.disk, p.machine.placements.stored).votedFor == p.votedFor
  {
    hide Inv, ReignsOK, VotesOK, ReignsBind, AcksHeld, Run;
    var hs := RunHasHistory(members, states, steps);
    Peek(members, states[a], hs[a], i);
    SortedRowsOfMirror(states[a].peers[i].disk.rows, states[a].peers[i].log);
  }

  // ----- follower commit clipping -----

  /** Every append request in the network was built by a leader of its term. */
  lemma {:induction false} RequestWasSent(members: set<NodeId>, states: seq<Cluster>, steps: seq<Step>, b: nat, a: AppendRequest) returns (s: nat)
    requires Run(members, states, steps) && b < |states| && Append(a) in states[b].net
    ensures s < b && a.leader in states[s].peers && states[s].peers[a.leader].role == Leader
    ensures states[s].peers[a.leader].currentTerm == a.term
    ensures exists to | to in members && to != a.leader :: BuildAppend(states[s].peers[a.leader], a.leader, to) == a
    decreases b
  {
    hide OnRequestVote, OnRequestVoteCrash, OnVoteReply, ConcludeElection, Propose, OnAppendEntries, OnAppendEntriesCrash, OnAppendReply, Boot, Interrupted, StartElection;
    if Append(a) in states[b - 1].net {
      s := RequestWasSent(members, states, steps, b - 1, a);
    } else {
      s := b - 1;
      PeersFixed(members, states, steps, s);
      assert states[b] == Next(states[s], steps[s]);
    }
  }

  lemma {:induction false} PeersFixed(members: set<NodeId>, states: seq<Cluster>, steps: seq<Step>, b: nat)
    requires CodeRun(members, states, steps) && b < |states|
    ensures states[b].peers.Keys == members
    decreases b
  {
    hide OnRequestVote, OnRequestVoteCrash, OnVoteReply, ConcludeElection, Propose, OnAppendEntries, OnAppendEntriesCrash, OnAppendReply, Boot, Interrupted, StartElection, BuildAppend;
    if b > 0 {
      PeersFixed(members, states, steps, b - 1);
      assert states[b] == Next(states[b - 1], steps[b - 1]);
    }
  }

  lemma LeaderSends(members: set<NodeId>, c: Cluster, h: History, a: AppendRequest, to: NodeId)
    requires Inv(members, c.peers, c.net, h) && a.leader in members && to in members && to != a.leader
    requires c.peers[a.leader].role == Leader && a == BuildAppend(c.peers[a.leader], a.leader, to)
    ensures a.term in h.reigns && c.peers[a.leader].log == h.reigns[a.term].log
    ensures a.prevIndex + |a.entries| == |c.peers[a.leader].log|
  {
    Peek(members, c, h, a.leader);
    BuiltAppendOK(members, c.peers[a.leader], h, a.leader, to);
  }

  /** A follower that raises its commit index on a request, however late or repeated, reaches
      the leader's commit index unclipped, and up to it holds the log the leader had when it
      sent that request. */
  lemma CommitClippingIsSafe(members: set<NodeId>, states: seq<Cluster>, steps: seq<Step>, k: nat, i: NodeId, a: AppendRequest)
    requires Run(members, states, steps) && k < |steps|
    requires steps[k] == ReceiveAppend(i, a)
    requires i in states[k].peers && i in states[k + 1].peers
    requires states[k + 1].peers[i].commitIndex > states[k].peers[i].commitIndex
    ensures var q := states[k + 1].peers[i];
            && q.commitIndex == a.leaderCommit
            && exists s: nat :: s < k && a.leader in states[s].peers
                 && states[s].peers[a.leader].role == Leader && states[s].peers[a.leader].currentTerm == a.term
                 && a.prevIndex + |a.entries| == |states[s].peers[a.leader].log|
                 && q.commitIndex <= |q.log| && q.commitIndex <= |states[s].peers[a.leader].log|
                 && q.log[..q.commitIndex] == states[s].peers[a.leader].log[..q.commitIndex]
  {
    hide Inv, Grows;
    var hs := RunHasHistory(members, states, steps);
    var s := RequestWasSent(members, states, steps, k, a);
    PeersFixed(members, states, steps, s);
    var to :| to in members && to != a.leader && BuildAppend(states[s].peers[a.leader], a.leader, to) == a;
    LeaderSends(members, states[s], hs[s], a, to);
    GrowsAlong(members, states, hs, s, k);
    PeersFixed(members, states, steps, k);
    AcceptedAgrees(members, states[k], hs[k], i, a);
    var q := states[k + 1].peers[i];
    assert q == OnAppendEntries(states[k].peers[i], a).0;
    PrefixGrows(states[s].peers, hs[s], states[k].peers, hs[k], a.term);
    assert Agree(q.log, states[s].peers[a.leader].log, q.commitIndex);
  }

  lemma PrefixGrows(ps: Peers, h: History, ps': Peers, h': History, t: nat)
    requires Grows(ps, h, ps', h') && t in h.reigns
    ensures t in h'.reigns && Agree(h.reigns[t].log, h'.reigns[t].log, |h.reigns[t].log|)
  {
    assert ReignGrows(h.reigns[t], h'.reigns[t]);
  }

  lemma AcceptedAgrees(members: set<NodeId>, c: Cluster, h: History, i: NodeId, a: AppendRequest)
    requires Inv(members, c.peers, c.net, h) && i in members && Append(a) in c.net
    requires OnAppendEntries(c.peers[i], a).0.commitIndex > c.peers[i].commitIndex
    ensures var q := OnAppendEntries(c.peers[i], a).0;
            && a.term in h.reigns
            && q.commitIndex == a.leaderCommit <= a.prevIndex + |a.entries|
            && Agree(q.log, h.reigns[a.term].log, a.prevIndex + |a.entries|)
  {
    hide ReignsOK, VotesOK, BallotsOK, PeersOK, AcksBind, AcksHeld, ReignsBind, VotesBind, NetOK, PeerOK, Quiet, Retains, Mirror, Backed, GoodLog;
    Peek(members, c, h, i);
    MessageOf(members, h, c.net, Append(a));
    var s := BecomeFollower(c.peers[i], a.term, Some(a.leader));
    FollowerOK(members, c.peers, h, i, a.term, Some(a.leader));
    QuietPeer(members, c.peers, h, i, s);
    PeerLog(members, s, h, i);
    ReignLogGood(members, c.peers, h, a.term);
    StoreOutcome(members, s, h, a);
    var m := StoreEntries(s, a.entries);
    CommittedBelow(members, s, h, i);
    NoMessage(members, h);
    QuietStep(members, c.peers, c.net, h, i, s, {});
    FollowerCommitOK(members, c.peers[i := s], h, i, a, m);
    ApplyKeepsCommit(AdvanceFollowerCommit(m, a.leaderCommit));
  }

  lemma QuietPeer(members: set<NodeId>, ps: Peers, h: History, i: NodeId, q: Peer)
    requires Quiet(members, ps, h, i, q)
    ensures PeerOK(members, q, h, i)
  {
  }

  lemma CommittedBelow(members: set<NodeId>, p: Peer, h: History, i: NodeId)
    requires PeerOK(members, p, h, i)
    ensures p.lastApplied <= p.commitIndex <= |p.log|
  {
  }

  lemma {:induction false} ApplyKeepsCommit(s: Peer)
    ensures ApplyPending(s).commitIndex == s.commitIndex && ApplyPending(s).log == s.log
    decreases s.commitIndex - s.lastApplied
  {
    if s.lastApplied < s.commitIndex {
      var s1 := s.(lastApplied := s.lastApplied + 1);
      if s1.lastApplied <= |s1.log| {
        var a := ApplyCommand(s1.machine, s1.log[s1.lastApplied - 1].command);
        if !a.raised {
          ApplyKeepsCommit(s1.(machine := a.machine));
        }
      } else {
        ApplyKeepsCommit(s1);
      }
    }
  }

  // ----- leader bookkeeping -----

  /** While a peer has not moved past the leader's term, matchIndex is a length up to which
      its log agrees with the leader's. */
  lemma MatchIndexIsAgreement(members: set<NodeId>, states: seq<Cluster>, steps: seq<Step>, a: nat, i: NodeId, p: NodeId)
    requires Run(members, states, steps) && a < |states| && p != i
    requires i in states[a].peers && p in states[a].peers
    requires states[a].peers[i].role == Leader
    requires states[a].peers[p].currentTerm <= states[a].peers[i].currentTerm
    ensures var leader, other := states[a].peers[i], states[a].peers[p];
            var n := Lookup(leader.matchIndex, p, 0);
            n <= |leader.log| && n <= |other.log| && leader.log[..n] == other.log[..n]
  {
    hide Inv, VotesOK, ReignsBind, Run, ReignsOK, AcksHeld, PeerOK;
    var hs := RunHasHistory(members, states, steps);
    Peek(members, states[a], hs[a], i);
    Peek(members, states[a], hs[a], p);
    MatchIndexAt(members, states[a].peers, hs[a], i, p);
  }

  lemma MatchIndexAt(members: set<NodeId>, ps: Peers, h: History, i: NodeId, p: NodeId)
    requires ps.Keys == members && i in members && p in members && p != i
    requires PeerOK(members, ps[i], h, i) && ReignsOK(members, ps, h) && AcksHeld(members, ps, h)
    requires ps[i].role == Leader && ps[p].currentTerm <= ps[i].currentTerm
    ensures var n := Lookup(ps[i].matchIndex, p, 0);
            n <= |ps[i].log| && n <= |ps[p].log| && ps[i].log[..n] == ps[p].log[..n]
  {
    hide ReignsOK, Rooted, Ordered, Durable, CommitOK;
    if ps[p].currentTerm < ps[i].currentTerm {
      NoAckAhead(members, ps, h, p, ps[i].currentTerm);
    }
    assert Agree(ps[p].log, ps[i].log, Lookup(ps[i].matchIndex, p, 0));
  }
}
