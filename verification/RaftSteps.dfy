/** Every step keeps the invariant. */
module RaftSteps {
  import opened Metadata
  import opened MetadataMachine
  import P = Placement
  import opened RaftLog
  import opened RaftPeer
  import opened RaftCluster
  import opened RaftInvariant
  import RP = RaftPromises

  lemma InitialInv(members: set<NodeId>, c: Cluster)
    requires Init(members, c)
    ensures Inv(members, c.peers, c.net, NoHistory)
  {
    assert SortedRows(EmptyDisk.rows) == [];
  }

  // ----- steps that win no election and append nothing at the leader -----

  /** History changes of such a step by peer i: at most one new vote and ballot and one larger
      acknowledgement, all by i in its own current term. */
  ghost predicate LocalChange(h: History, h': History, i: NodeId, term: nat) {
    && h'.reigns.Keys == h.reigns.Keys
    && (forall t | t in h.reigns ::
          && h'.reigns[t].leader == h.reigns[t].leader
          && h'.reigns[t].log == h.reigns[t].log
          && h.reigns[t].acks.Keys <= h'.reigns[t].acks.Keys <= h.reigns[t].acks.Keys + {i}
          && (forall p | p in h.reigns[t].acks && p != i :: h'.reigns[t].acks[p] == h.reigns[t].acks[p])
          && (t != term ==> h'.reigns[t].acks == h.reigns[t].acks)
          && Ack(h, t, i) <= Ack(h', t, i))
    && h.votes.Keys <= h'.votes.Keys <= h.votes.Keys + {(term, i)}
    && (forall v | v in h.votes :: h'.votes[v] == h.votes[v])
    && h.ballots.Keys <= h'.ballots.Keys <= h.ballots.Keys + {(term, i)}
    && (forall b | b in h.ballots :: h'.ballots[b] == h.ballots[b])
  }

  /** Replacing a peer's log loses nothing it acknowledged that could still be chosen. */
  ghost predicate KeepsAcked(members: set<NodeId>, ps: Peers, h: History, i: NodeId, log: seq<LogEntry>)
    requires i in ps
  {
    forall t: nat, k: nat {:trigger OwnEntry(h, t, k)} |
      OwnEntry(h, t, k) && k <= Ack(h, t, i) && Agree(ps[i].log, h.reigns[t].log, k) ::
        Agree(log, h.reigns[t].log, k) || Blocked(members, ps, h, t, k)
  }

  ghost predicate NewVoteBinds(members: set<NodeId>, ps: Peers, h: History, voter: NodeId, term: nat, ballot: seq<LogEntry>) {
    forall t: nat, k: nat {:trigger OwnEntry(h, t, k)} |
      OwnEntry(h, t, k) && t < term && k <= Ack(h, t, voter) :: Holds(members, ps, h, t, k, ballot)
  }

  /** The history a voter's peer state and ballots must show after the step. */
  ghost predicate NewVoteOK(members: set<NodeId>, ps: Peers, h: History, i: NodeId, q: Peer, h': History) {
    var v := (q.currentTerm, i);
    && (v in h'.votes ==>
          && q.votedFor == Some(h'.votes[v])
          && h'.votes[v] in members
          && (v.0, h'.votes[v]) in h'.ballots)
    && (v in h'.votes && v !in h.votes ==> NewVoteBinds(members, ps, h, i, v.0, h'.ballots[(v.0, h'.votes[v])]))
    && (v in h'.ballots ==> GoodLog(h, h'.ballots[v], q.currentTerm - 1))
  }

  lemma LocalChangeGrows(members: set<NodeId>, ps: Peers, h: History, i: NodeId, q: Peer, h': History)
    requires ps.Keys == members && i in members && ps[i].currentTerm <= q.currentTerm
    requires LocalChange(h, h', i, q.currentTerm)
    ensures Grows(ps, h, ps[i := q], h')
  {
    forall t, p | p in ps
      ensures Ack(h, t, p) <= Ack(h', t, p)
      ensures ps[p].currentTerm > t ==> Ack(h, t, p) == Ack(h', t, p)
    {
      AckChange(h, h', i, q.currentTerm, t, p);
    }
  }

  lemma AckChange(h: History, h': History, i: NodeId, term: nat, t: nat, p: NodeId)
    requires LocalChange(h, h', i, term)
    ensures Ack(h, t, p) <= Ack(h', t, p)
    ensures p != i || t != term ==> Ack(h, t, p) == Ack(h', t, p)
  {
    if t in h.reigns {
      assert t in h'.reigns;
    } else {
      assert t !in h'.reigns;
    }
  }

  lemma LocalStepReigns(members: set<NodeId>, ps: Peers, h: History, i: NodeId, q: Peer, h': History)
    requires ps.Keys == members && i in members && ps[i].currentTerm <= q.currentTerm
    requires LocalChange(h, h', i, q.currentTerm)
    requires ReignsOK(members, ps, h)
    requires q.currentTerm in h.reigns ==> Ack(h', q.currentTerm, i) <= |h.reigns[q.currentTerm].log|
    ensures ReignsOK(members, ps[i := q], h')
  {
    LocalChangeGrows(members, ps, h, i, q, h');
    forall t | t in h'.reigns
      ensures ReignOK(members, ps[i := q], h', t)
    {
      LocalStepReign(members, ps, h, i, q, h', t);
    }
  }

  lemma LocalStepReign(members: set<NodeId>, ps: Peers, h: History, i: NodeId, q: Peer, h': History, t: nat)
    requires ps.Keys == members && i in members && ps[i].currentTerm <= q.currentTerm
    requires LocalChange(h, h', i, q.currentTerm)
    requires Grows(ps, h, ps[i := q], h')
    requires t in h.reigns && ReignOK(members, ps, h, t)
    requires t == q.currentTerm ==> Ack(h', t, i) <= |h.reigns[t].log|
    ensures ReignOK(members, ps[i := q], h', t)
  {
    hide Grows, GoodLog;
    GoodLogStays(ps, h, ps[i := q], h', h.reigns[t].log, t, t);
    var voters :| Quorum(members, voters) && VotedFor(h, t, voters, h.reigns[t].leader);
    KeptVotes(h, h', t, voters, h.reigns[t].leader);
    assert VotedFor(h', t, voters, h'.reigns[t].leader);
    forall p | p in h'.reigns[t].acks
      ensures h'.reigns[t].acks[p] <= |h'.reigns[t].log| && p in members && t <= ps[i := q][p].currentTerm
    {
      AckChange(h, h', i, q.currentTerm, t, p);
    }
  }

  lemma KeptVotes(h: History, h': History, t: nat, q: set<NodeId>, leader: NodeId)
    requires forall v | v in h.votes :: v in h'.votes && h'.votes[v] == h.votes[v]
    requires VotedFor(h, t, q, leader)
    ensures VotedFor(h', t, q, leader)
  {
  }

  lemma LocalStepBallots(members: set<NodeId>, ps: Peers, h: History, i: NodeId, q: Peer, h': History)
    requires ps.Keys == members && i in members && ps[i].currentTerm <= q.currentTerm
    requires LocalChange(h, h', i, q.currentTerm)
    requires VotesOK(members, ps, h) && BallotsOK(members, ps, h)
    requires NewVoteOK(members, ps, h, i, q, h')
    ensures VotesOK(members, ps[i := q], h')
    ensures BallotsOK(members, ps[i := q], h')
  {
    hide GoodLog;
    LocalChangeGrows(members, ps, h, i, q, h');
    forall b | b in h'.ballots
      ensures b.1 in members && b.0 <= ps[i := q][b.1].currentTerm && GoodLog(h', h'.ballots[b], b.0 - 1)
    {
      hide Grows;
      if b in h.ballots {
        assert GoodLog(h, h.ballots[b], b.0 - 1);
      }
      GoodLogStays(ps, h, ps[i := q], h', h'.ballots[b], b.0 - 1, b.0 - 1);
    }
  }

  lemma SupportersGrow(members: set<NodeId>, h: History, h': History, t: nat, i: NodeId, pending: set<NodeId>)
    requires forall v | v in h.votes :: v in h'.votes && h'.votes[v] == h.votes[v]
    ensures |Supporters(members, h, t, i, pending)| <= |Supporters(members, h', t, i, pending)|
  {
    SubsetSize(Supporters(members, h, t, i, pending), Supporters(members, h', t, i, pending));
  }

  /** A peer that does not move stays fine if its own reign and candidacy are not touched. */
  lemma PeerStays(members: set<NodeId>, ps: Peers, h: History, ps': Peers, h': History, j: NodeId)
    requires Grows(ps, h, ps', h') && ps.Keys == members && j in members
    requires PeerOK(members, ps[j], h, j)
    requires ps[j].role == Leader ==>
               && h'.reigns[ps[j].currentTerm].log == h.reigns[ps[j].currentTerm].log
               && Ack(h', ps[j].currentTerm, j) == Ack(h, ps[j].currentTerm, j)
    requires ps[j].role == Candidate && ps[j].currentTerm in h'.reigns ==> h'.reigns[ps[j].currentTerm].leader != j
    ensures PeerOK(members, ps[j], h', j)
  {
    var p := ps[j];
    GoodLogStays(ps, h, ps', h', p.log, p.currentTerm, p.currentTerm);
    BackedStays(members, ps, h, ps', h', p.log, p.commitIndex, p.currentTerm, p.log, p.currentTerm);
    if p.role == Candidate && p.poll.Some? {
      SupportersGrow(members, h, h', p.currentTerm, j, p.poll.value.pending);
    }
    if p.role == Leader {
      LeaderStays(members, ps, h, ps', h', j);
    }
  }

  lemma LeaderStays(members: set<NodeId>, ps: Peers, h: History, ps': Peers, h': History, j: NodeId)
    requires Grows(ps, h, ps', h') && ps.Keys == members && j in members
    requires LeaderOK(members, ps[j], h, j)
    requires h'.reigns[ps[j].currentTerm].log == h.reigns[ps[j].currentTerm].log
    requires Ack(h', ps[j].currentTerm, j) == Ack(h, ps[j].currentTerm, j)
    ensures LeaderOK(members, ps[j], h', j)
  {
    assert ReignGrows(h.reigns[ps[j].currentTerm], h'.reigns[ps[j].currentTerm]);
  }

  lemma LocalStepPeers(members: set<NodeId>, ps: Peers, h: History, i: NodeId, q: Peer, h': History)
    requires ps.Keys == members && i in members && ps[i].currentTerm <= q.currentTerm
    requires LocalChange(h, h', i, q.currentTerm)
    requires PeersOK(members, ps, h) && PeerOK(members, q, h', i)
    ensures PeersOK(members, ps[i := q], h')
  {
    hide LocalChange, PeerOK;
    forall j | j in members
      ensures PeerOK(members, ps[i := q][j], h', j)
    {
      if j != i {
        assert PeerOK(members, ps[j], h, j);
        LocalStepOther(members, ps, h, i, q, h', j);
      }
    }
  }

  lemma LocalStepOther(members: set<NodeId>, ps: Peers, h: History, i: NodeId, q: Peer, h': History, j: NodeId)
    requires ps.Keys == members && i in members && ps[i].currentTerm <= q.currentTerm
    requires LocalChange(h, h', i, q.currentTerm)
    requires j in members && j != i && PeerOK(members, ps[j], h, j)
    ensures PeerOK(members, ps[j], h', j)
  {
    LocalChangeGrows(members, ps, h, i, q, h');
    AckChange(h, h', i, q.currentTerm, ps[j].currentTerm, j);
    hide Grows;
    PeerStays(members, ps, h, ps[i := q], h', j);
  }

  lemma LocalStepAcks(members: set<NodeId>, ps: Peers, h: History, i: NodeId, q: Peer, h': History)
    requires ps.Keys == members && i in members && ps[i].currentTerm <= q.currentTerm
    requires LocalChange(h, h', i, q.currentTerm)
    requires AcksBind(members, ps, h) && KeepsAcked(members, ps, h, i, q.log)
    requires q.currentTerm in h.reigns ==> Agree(q.log, h.reigns[q.currentTerm].log, Ack(h', q.currentTerm, i))
    ensures AcksBind(members, ps[i := q], h')
  {
    var ps' := ps[i := q];
    LocalChangeGrows(members, ps, h, i, q, h');
    forall t: nat, p, k: nat | OwnEntry(h', t, k) && p in members && k <= Ack(h', t, p)
      ensures Holds(members, ps', h', t, k, ps'[p].log)
    {
      assert OwnEntry(h, t, k);
      AckChange(h, h', i, q.currentTerm, t, p);
      if k <= Ack(h, t, p) {
        HoldsStays(members, ps, h, ps', h', t, k, ps[p].log, ps'[p].log);
      } else {
        assert p == i && t == q.currentTerm;
      }
    }
  }

  lemma LocalStepReignsBind(members: set<NodeId>, ps: Peers, h: History, i: NodeId, q: Peer, h': History)
    requires ps.Keys == members && i in members && ps[i].currentTerm <= q.currentTerm
    requires LocalChange(h, h', i, q.currentTerm)
    requires ReignsBind(members, ps, h)
    ensures ReignsBind(members, ps[i := q], h')
  {
    LocalChangeGrows(members, ps, h, i, q, h');
    forall t: nat, t': nat, k: nat | OwnEntry(h', t, k) && t' in h'.reigns && t < t'
      ensures Holds(members, ps[i := q], h', t, k, h'.reigns[t'].log)
    {
      assert OwnEntry(h, t, k);
      HoldsStays(members, ps, h, ps[i := q], h', t, k, h.reigns[t'].log, h.reigns[t'].log);
    }
  }

  lemma LocalStepAcksHeld(members: set<NodeId>, ps: Peers, h: History, i: NodeId, q: Peer, h': History)
    requires ps.Keys == members && i in members && ps[i].currentTerm <= q.currentTerm
    requires LocalChange(h, h', i, q.currentTerm)
    requires AcksHeld(members, ps, h)
    requires q.currentTerm in h.reigns ==> Agree(q.log, h.reigns[q.currentTerm].log, Ack(h', q.currentTerm, i))
    ensures AcksHeld(members, ps[i := q], h')
  {
    forall p | p in members && p != i
      ensures Ack(h', ps[p].currentTerm, p) == Ack(h, ps[p].currentTerm, p)
    {
      AckChange(h, h', i, q.currentTerm, ps[p].currentTerm, p);
    }
  }

  lemma LocalStepVotesBind(members: set<NodeId>, ps: Peers, h: History, i: NodeId, q: Peer, h': History)
    requires ps.Keys == members && i in members && ps[i].currentTerm <= q.currentTerm
    requires LocalChange(h, h', i, q.currentTerm)
    requires VotesOK(members, ps, h) && VotesBind(members, ps, h)
    requires NewVoteOK(members, ps, h, i, q, h')
    ensures VotesBind(members, ps[i := q], h')
  {
    LocalChangeGrows(members, ps, h, i, q, h');
    forall t: nat, v, k: nat | OwnEntry(h', t, k) && v in h'.votes && t < v.0 && k <= Ack(h', t, v.1)
                               && (v.0, h'.votes[v]) in h'.ballots
      ensures Holds(members, ps[i := q], h', t, k, h'.ballots[(v.0, h'.votes[v])])
    {
      assert OwnEntry(h, t, k);
      var ballot := h'.ballots[(v.0, h'.votes[v])];
      AckChange(h, h', i, q.currentTerm, t, v.1);
      if v in h.votes {
        assert v.0 <= ps[v.1].currentTerm;
        assert h.ballots[(v.0, h.votes[v])] == ballot;
      } else {
        assert v == (q.currentTerm, i);
      }
      assert Holds(members, ps, h, t, k, ballot);
      HoldsStays(members, ps, h, ps[i := q], h', t, k, ballot, ballot);
    }
  }

  ghost predicate LocalStep(members: set<NodeId>, ps: Peers, h: History, i: NodeId, q: Peer, h': History) {
    && i in members
    && ps.Keys == members
    && ps[i].currentTerm <= q.currentTerm
    && LocalChange(h, h', i, q.currentTerm)
    && PeerOK(members, q, h', i)
    && KeepsAcked(members, ps, h, i, q.log)
    && (q.currentTerm in h.reigns ==> Agree(q.log, h.reigns[q.currentTerm].log, Ack(h', q.currentTerm, i)))
    && NewVoteOK(members, ps, h, i, q, h')
  }

  lemma LocalStepKeepsInv(members: set<NodeId>, ps: Peers, net: set<Message>, h: History, i: NodeId, q: Peer, h': History, sent: set<Message>)
    requires Inv(members, ps, net, h)
    requires LocalStep(members, ps, h, i, q, h')
    requires NetOK(members, h', sent)
    ensures Grows(ps, h, ps[i := q], h')
    ensures Inv(members, ps[i := q], net + sent, h')
  {
    LocalChangeGrows(members, ps, h, i, q, h');
    LocalStepReigns(members, ps, h, i, q, h');
    LocalStepBallots(members, ps, h, i, q, h');
    LocalStepPeers(members, ps, h, i, q, h');
    LocalStepAcks(members, ps, h, i, q, h');
    LocalStepReignsBind(members, ps, h, i, q, h');
    LocalStepAcksHeld(members, ps, h, i, q, h');
    LocalStepVotesBind(members, ps, h, i, q, h');
    NetStays(members, ps, h, ps[i := q], h', net);
  }

  lemma PeerOf(members: set<NodeId>, ps: Peers, h: History, i: NodeId)
    requires ps.Keys == members && PeersOK(members, ps, h) && i in members
    ensures PeerOK(members, ps[i], h, i)
  {
  }

  lemma NoMessage(members: set<NodeId>, h: History)
    ensures NetOK(members, h, {})
  {
  }

  lemma SingleMessage(members: set<NodeId>, h: History, m: Message)
    requires MessageOK(members, h, m)
    ensures NetOK(members, h, {m})
  {
  }

  lemma MessageOf(members: set<NodeId>, h: History, net: set<Message>, m: Message)
    requires NetOK(members, h, net) && m in net
    ensures MessageOK(members, h, m)
  {
  }

  // ----- steps that leave log and history alone -----

  lemma NoAckAhead(members: set<NodeId>, ps: Peers, h: History, i: NodeId, t: nat)
    requires ps.Keys == members && i in members && ReignsOK(members, ps, h)
    requires t > ps[i].currentTerm
    ensures Ack(h, t, i) == 0
    ensures t in h.reigns ==> h.reigns[t].leader != i
  {
    if t in h.reigns {
      assert ReignOK(members, ps, h, t);
    }
  }

  ghost predicate Quiet(members: set<NodeId>, ps: Peers, h: History, i: NodeId, q: Peer) {
    && i in members
    && ps.Keys == members
    && ps[i].currentTerm <= q.currentTerm
    && q.log == ps[i].log
    && (q.currentTerm == ps[i].currentTerm ==> q.votedFor == ps[i].votedFor)
    && PeerOK(members, q, h, i)
  }

  lemma QuietIsLocal(members: set<NodeId>, ps: Peers, h: History, i: NodeId, q: Peer)
    requires Quiet(members, ps, h, i, q)
    requires AcksHeld(members, ps, h)
    requires q.currentTerm > ps[i].currentTerm ==> Ack(h, q.currentTerm, i) == 0
    requires NewVoteOK(members, ps, h, i, q, h)
    ensures LocalStep(members, ps, h, i, q, h)
  {
    assert LocalChange(h, h, i, q.currentTerm);
    assert KeepsAcked(members, ps, h, i, q.log);
  }

  lemma QuietVotes(members: set<NodeId>, ps: Peers, h: History, i: NodeId, q: Peer)
    requires Quiet(members, ps, h, i, q)
    requires VotesOK(members, ps, h) && BallotsOK(members, ps, h)
    ensures NewVoteOK(members, ps, h, i, q, h)
  {
    var v: (nat, NodeId) := (q.currentTerm, i);
    if v in h.votes {
      assert v.0 <= ps[i].currentTerm;
      var b: (nat, NodeId) := (q.currentTerm, h.votes[v]);
      assert b in h.ballots && b.1 in members;
    }
  }

  lemma QuietStep(members: set<NodeId>, ps: Peers, net: set<Message>, h: History, i: NodeId, q: Peer, sent: set<Message>)
    requires Inv(members, ps, net, h)
    requires Quiet(members, ps, h, i, q)
    requires NetOK(members, h, sent)
    ensures Grows(ps, h, ps[i := q], h)
    ensures Inv(members, ps[i := q], net + sent, h)
  {
    if q.currentTerm > ps[i].currentTerm {
      NoAckAhead(members, ps, h, i, q.currentTerm);
    }
    QuietVotes(members, ps, h, i, q);
    QuietIsLocal(members, ps, h, i, q);
    LocalStepKeepsInv(members, ps, net, h, i, q, h, sent);
  }

  lemma FollowerOK(members: set<NodeId>, ps: Peers, h: History, i: NodeId, term: nat, leader: Option<NodeId>)
    requires ps.Keys == members && i in members && PeerOK(members, ps[i], h, i)
    ensures Quiet(members, ps, h, i, BecomeFollower(ps[i], term, leader))
  {
    var p := ps[i];
    var q := BecomeFollower(p, term, leader);
    BackedLater(members, h, p.log, p.commitIndex, p.currentTerm, q.currentTerm);
  }

  lemma BackedLater(members: set<NodeId>, h: History, log: seq<LogEntry>, n: nat, t: nat, t': nat)
    requires Backed(members, h, log, n, t) && t <= t'
    ensures Backed(members, h, log, n, t')
  {
    if n > 0 {
      var u: nat, k: nat :| BackedBy(members, h, log, n, t, u, k);
      assert BackedBy(members, h, log, n, t', u, k);
    }
  }

  lemma RestartOK(members: set<NodeId>, ps: Peers, h: History, i: NodeId, stored: map<BlockId, P.Stored>)
    requires ps.Keys == members && i in members && PeerOK(members, ps[i], h, i)
    ensures Quiet(members, ps, h, i, Boot(ps[i].disk, stored))
  {
    hide SortedRows, Rooted, Mirror, Backed, LeaderOK, CandidateOK;
    var p := ps[i];
    DurableLog(members, p, h, i);
    SortedRowsOfMirror(p.disk.rows, p.log);
    var q := Boot(p.disk, stored);
    assert q.log == p.log && q.currentTerm == p.currentTerm && q.votedFor == p.votedFor;
    assert q.log[..0] == [];
    NothingBacked(members, h, q.log, q.currentTerm);
  }

  lemma DurableLog(members: set<NodeId>, p: Peer, h: History, i: NodeId)
    requires PeerOK(members, p, h, i)
    ensures Durable(p)
  {
  }

  lemma NothingBacked(members: set<NodeId>, h: History, log: seq<LogEntry>, maxTerm: nat)
    ensures Backed(members, h, log, 0, maxTerm)
  {
  }

  // ----- votes -----

  lemma TimeoutStep(members: set<NodeId>, ps: Peers, net: set<Message>, h: History, i: NodeId) returns (h': History)
    requires Inv(members, ps, net, h) && i in members
    requires ps[i].poll == None && ps[i].role != Leader
    ensures var q := StartElection(ps[i], i, members - {i});
            Grows(ps, h, ps[i := q], h') && Inv(members, ps[i := q], net + {AskVote(PollRequest(i, q.poll.value))}, h')
  {
    hide ReignsOK, VotesOK, BallotsOK, PeersOK, AcksBind, AcksHeld, ReignsBind, VotesBind, NetOK, Grows;
    var p := ps[i];
    var q := StartElection(p, i, members - {i});
    var v := (q.currentTerm, i);
    h' := h.(votes := h.votes[v := i], ballots := h.ballots[v := p.log]);
    PeerOf(members, ps, h, i);
    NoAckAhead(members, ps, h, i, q.currentTerm);
    CandidateStarts(members, ps, h, i, q, h');
    TimeoutIsLocal(members, ps, h, i, q, h');
    SingleMessage(members, h', AskVote(PollRequest(i, q.poll.value)));
    LocalStepKeepsInv(members, ps, net, h, i, q, h', {AskVote(PollRequest(i, q.poll.value))});
  }

  lemma TimeoutIsLocal(members: set<NodeId>, ps: Peers, h: History, i: NodeId, q: Peer, h': History)
    requires ps.Keys == members && i in members
    requires GoodLog(h, ps[i].log, ps[i].currentTerm)
    requires ps[i].role != Leader && q == StartElection(ps[i], i, members - {i})
    requires h' == h.(votes := h.votes[(q.currentTerm, i) := i], ballots := h.ballots[(q.currentTerm, i) := ps[i].log])
    requires PeerOK(members, q, h', i)
    requires Ack(h, q.currentTerm, i) == 0
    requires VotesOK(members, ps, h) && BallotsOK(members, ps, h) && AcksBind(members, ps, h)
    ensures LocalStep(members, ps, h, i, q, h')
  {
    assert (q.currentTerm, i) !in h.votes && (q.currentTerm, i) !in h.ballots;
    assert LocalChange(h, h', i, q.currentTerm);
    assert KeepsAcked(members, ps, h, i, q.log);
    assert NewVoteBinds(members, ps, h, i, q.currentTerm, ps[i].log);
  }

  lemma CandidateStarts(members: set<NodeId>, ps: Peers, h: History, i: NodeId, q: Peer, h': History)
    requires ps.Keys == members && i in members && PeerOK(members, ps[i], h, i)
    requires ps[i].role != Leader && q == StartElection(ps[i], i, members - {i})
    requires h' == h.(votes := h.votes[(q.currentTerm, i) := i], ballots := h.ballots[(q.currentTerm, i) := ps[i].log])
    requires q.currentTerm in h.reigns ==> h.reigns[q.currentTerm].leader != i
    ensures PeerOK(members, q, h', i)
  {
    BackedLater(members, h, q.log, q.commitIndex, ps[i].currentTerm, q.currentTerm);
    SameReignsSameLogs(members, h, h', q.log, q.currentTerm, q.commitIndex);
    SubsetSize({i}, Supporters(members, h', q.currentTerm, i, q.poll.value.pending));
  }

  lemma SameReignsSameLogs(members: set<NodeId>, h: History, h': History, log: seq<LogEntry>, t: nat, n: nat)
    requires h'.reigns == h.reigns
    ensures GoodLog(h, log, t) ==> GoodLog(h', log, t)
    ensures Backed(members, h, log, n, t) ==> Backed(members, h', log, n, t)
  {
    if GoodLog(h, log, t) {
      forall x: nat | x < |log|
        ensures RootedAt(h', log, x)
      {
        assert RootedAt(h, log, x);
      }
    }
    if Backed(members, h, log, n, t) && n > 0 {
      var u: nat, k: nat :| BackedBy(members, h, log, n, t, u, k);
      var q :| Quorum(members, q) && AckedBy(h, u, k, q);
      assert AckedBy(h', u, k, q);
      assert BackedBy(members, h', log, n, t, u, k);
    }
  }

  /** Section 5.4.1: a voter's acknowledged entries reach every log it finds up to date. */
  lemma UpToDateBinds(members: set<NodeId>, ps: Peers, h: History, t: nat, k: nat, ours: seq<LogEntry>, theirs: seq<LogEntry>, term: nat)
    requires ReignsBind(members, ps, h) && OwnEntry(h, t, k)
    requires GoodLog(h, ours, term) && GoodLog(h, theirs, term - 1)
    requires Agree(ours, h.reigns[t].log, k)
    requires IsLogUpToDate(LastIndex(theirs), LastTerm(theirs), LastIndex(ours), LastTerm(ours))
    requires LastTerm(theirs) in h.reigns ==> Ordered(h.reigns[LastTerm(theirs)].log, LastTerm(theirs))
    ensures Holds(members, ps, h, t, k, theirs)
  {
    var lastOurs, lastTheirs := |ours| - 1, |theirs| - 1;
    assert ours[k - 1].term == t && t <= ours[lastOurs].term <= LastTerm(theirs);
    assert RootedAt(h, theirs, lastTheirs) && RootedAt(h, ours, lastOurs);
    var u := theirs[lastTheirs].term;
    if u != ours[lastOurs].term {
      LaterReignBinds(members, ps, h, t, k, u, theirs);
    }
  }

  lemma LaterReignBinds(members: set<NodeId>, ps: Peers, h: History, t: nat, k: nat, u: nat, theirs: seq<LogEntry>)
    requires ReignsBind(members, ps, h) && OwnEntry(h, t, k)
    requires t < u && u in h.reigns && theirs != [] && theirs[|theirs| - 1].term == u
    requires Agree(theirs, h.reigns[u].log, |theirs|)
    requires forall x, y | 0 <= x < y < |h.reigns[u].log| :: h.reigns[u].log[x].term <= h.reigns[u].log[y].term
    ensures Holds(members, ps, h, t, k, theirs)
  {
    assert Holds(members, ps, h, t, k, h.reigns[u].log);
    if Agree(h.reigns[u].log, h.reigns[t].log, k) {
      assert h.reigns[u].log[k - 1].term == t;
      assert h.reigns[u].log[|theirs| - 1].term == u;
      assert k - 1 < |theirs| - 1;
    }
  }

  lemma QuietSelf(members: set<NodeId>, ps: Peers, h: History, i: NodeId)
    requires ps.Keys == members && i in members && PeerOK(members, ps[i], h, i)
    ensures Quiet(members, ps, h, i, ps[i])
  {
  }

  lemma GrantBinds(members: set<NodeId>, ps: Peers, h: History, i: NodeId, ballot: seq<LogEntry>, term: nat)
    requires ps.Keys == members && i in members
    requires ReignsOK(members, ps, h) && AcksBind(members, ps, h) && ReignsBind(members, ps, h)
    requires GoodLog(h, ps[i].log, term) && GoodLog(h, ballot, term - 1)
    requires IsLogUpToDate(LastIndex(ballot), LastTerm(ballot), LastIndex(ps[i].log), LastTerm(ps[i].log))
    ensures NewVoteBinds(members, ps, h, i, term, ballot)
  {
    forall t: nat, k: nat | OwnEntry(h, t, k) && t < term && k <= Ack(h, t, i)
      ensures Holds(members, ps, h, t, k, ballot)
    {
      assert Holds(members, ps, h, t, k, ps[i].log);
      if Agree(ps[i].log, h.reigns[t].log, k) {
        if LastTerm(ballot) in h.reigns {
          assert ReignOK(members, ps, h, LastTerm(ballot));
        }
        UpToDateBinds(members, ps, h, t, k, ps[i].log, ballot, term);
      }
    }
  }

  function Grant(p: Peer, c: NodeId): Peer {
    p.(votedFor := Some(c), disk := p.disk.(term := p.currentTerm, vote := Some(c)))
  }

  lemma GrantedPeerOK(members: set<NodeId>, ps: Peers, h: History, i: NodeId, c: NodeId, h': History)
    requires ps.Keys == members && i in members && PeerOK(members, ps[i], h, i)
    requires c != i && (ps[i].votedFor == None || ps[i].votedFor == Some(c))
    requires h' == h.(votes := h.votes[(ps[i].currentTerm, i) := c])
    ensures PeerOK(members, Grant(ps[i], c), h', i)
  {
    var p := ps[i];
    SameReignsSameLogs(members, h, h', p.log, p.currentTerm, p.commitIndex);
  }

  lemma VoteIsLocalChange(h: History, t: nat, i: NodeId, c: NodeId)
    requires (t, i) in h.votes ==> h.votes[(t, i)] == c
    ensures LocalChange(h, h.(votes := h.votes[(t, i) := c]), i, t)
  {
  }

  lemma GrantIsLocal(members: set<NodeId>, ps: Peers, h: History, i: NodeId, c: NodeId, h': History)
    requires ps.Keys == members && i in members
    requires (ps[i].currentTerm, i) in h.votes ==> h.votes[(ps[i].currentTerm, i)] == c
    requires h' == h.(votes := h.votes[(ps[i].currentTerm, i) := c])
    requires PeerOK(members, Grant(ps[i], c), h', i)
    requires (ps[i].currentTerm, c) in h.ballots
    requires NewVoteBinds(members, ps, h, i, ps[i].currentTerm, h.ballots[(ps[i].currentTerm, c)])
    requires VotesOK(members, ps, h) && BallotsOK(members, ps, h) && AcksHeld(members, ps, h)
    ensures LocalStep(members, ps, h, i, Grant(ps[i], c), h')
  {
    var q := Grant(ps[i], c);
    VoteIsLocalChange(h, ps[i].currentTerm, i, c);
    hide LocalChange, PeerOK, GoodLog;
    assert KeepsAcked(members, ps, h, i, q.log);
    var b: (nat, NodeId) := (q.currentTerm, c);
    assert b in h.ballots && b.1 in members;
  }

  lemma OneVote(members: set<NodeId>, ps: Peers, h: History, i: NodeId, c: NodeId)
    requires ps.Keys == members && i in members && VotesOK(members, ps, h)
    requires ps[i].votedFor == None || ps[i].votedFor == Some(c)
    ensures (ps[i].currentTerm, i) in h.votes ==> h.votes[(ps[i].currentTerm, i)] == c
  {
    var v: (nat, NodeId) := (ps[i].currentTerm, i);
    assert v in h.votes ==> ps[i].votedFor == Some(h.votes[v]);
  }

  lemma GrantStep(members: set<NodeId>, ps: Peers, net: set<Message>, h: History, i: NodeId, vote: VoteRequest) returns (h': History)
    requires Inv(members, ps, net, h) && i in members
    requires AskVote(vote) in net && vote.candidate != i && vote.term == ps[i].currentTerm
    requires ps[i].votedFor == None || ps[i].votedFor == Some(vote.candidate)
    requires IsLogUpToDate(vote.lastIndex, vote.lastTerm, LastIndex(ps[i].log), LastTerm(ps[i].log))
    ensures var q := Grant(ps[i], vote.candidate);
            && Grows(ps, h, ps[i := q], h')
            && Inv(members, ps[i := q], net + {VoteReply(i, vote, VoteResponse(q.currentTerm, true))}, h')
  {
    hide ReignsOK, VotesOK, PeersOK, AcksBind, AcksHeld, ReignsBind, VotesBind, Grows;
    var c := vote.candidate;
    h' := h.(votes := h.votes[(ps[i].currentTerm, i) := c]);
    PeerOf(members, ps, h, i);
    assert MessageOK(members, h, AskVote(vote));
    var b: (nat, NodeId) := (vote.term, c);
    assert GoodLog(h, h.ballots[b], vote.term - 1);
    GrantBinds(members, ps, h, i, h.ballots[b], vote.term);
    GrantedPeerOK(members, ps, h, i, c, h');
    OneVote(members, ps, h, i, c);
    GrantIsLocal(members, ps, h, i, c, h');
    LocalStepKeepsInv(members, ps, net, h, i, Grant(ps[i], c), h', {VoteReply(i, vote, VoteResponse(vote.term, true))});
  }

  lemma VoteRequestStep(members: set<NodeId>, ps: Peers, net: set<Message>, h: History, i: NodeId, vote: VoteRequest) returns (h': History)
    requires Inv(members, ps, net, h) && i in members
    requires AskVote(vote) in net && vote.candidate != i
    ensures var r := OnRequestVote(ps[i], vote);
            && Grows(ps, h, ps[i := r.0], h')
            && Inv(members, ps[i := r.0], net + {VoteReply(i, vote, r.1)}, h')
  {
    hide ReignsOK, VotesOK, BallotsOK, PeersOK, AcksBind, AcksHeld, ReignsBind, VotesBind, NetOK, Grows, PeerOK, Quiet;
    PeerOf(members, ps, h, i);
    var r := OnRequestVote(ps[i], vote);
    var s := if vote.term > ps[i].currentTerm then BecomeFollower(ps[i], vote.term, None) else ps[i];
    if vote.term > ps[i].currentTerm {
      FollowerOK(members, ps, h, i, vote.term, None);
    } else {
      QuietSelf(members, ps, h, i);
    }
    if r.1.granted {
      NoMessage(members, h);
      QuietStep(members, ps, net, h, i, s, {});
      assert net + {} == net;
      h' := GrantStep(members, ps[i := s], net, h, i, vote);
      assert r.0 == Grant(s, vote.candidate);
      assert ps[i := s][i := r.0] == ps[i := r.0];
      GrowsTransitive(ps, h, ps[i := s], h, ps[i := r.0], h');
    } else {
      h' := h;
      SingleMessage(members, h, VoteReply(i, vote, r.1));
      QuietStep(members, ps, net, h, i, s, {VoteReply(i, vote, r.1)});
    }
  }

  lemma SupportersAfterReply(members: set<NodeId>, h: History, t: nat, i: NodeId, pending: set<NodeId>, from: NodeId)
    requires from in pending && pending <= members
    ensures |Supporters(members, h, t, i, pending)| <= |Supporters(members, h, t, i, pending - {from})|
    ensures (t, from) in h.votes && h.votes[(t, from)] == i ==>
              |Supporters(members, h, t, i, pending)| + 1 <= |Supporters(members, h, t, i, pending - {from})|
  {
    var s, s' := Supporters(members, h, t, i, pending), Supporters(members, h, t, i, pending - {from});
    SubsetSize(s, s');
    if (t, from) in h.votes && h.votes[(t, from)] == i {
      SubsetSize(s + {from}, s');
    }
  }

  lemma VoteReplyStep(members: set<NodeId>, ps: Peers, net: set<Message>, h: History, i: NodeId, from: NodeId, resp: Option<VoteResponse>)
    requires Inv(members, ps, net, h) && i in members
    requires ps[i].poll.Some? && from in ps[i].poll.value.pending
    requires resp.Some? ==> VoteReply(from, PollRequest(i, ps[i].poll.value), resp.value) in net
    ensures var q := OnVoteReply(ps[i], from, resp);
            Grows(ps, h, ps[i := q], h) && Inv(members, ps[i := q], net, h)
  {
    hide ReignsOK, VotesOK, BallotsOK, PeersOK, AcksBind, AcksHeld, ReignsBind, VotesBind, NetOK, Grows, PeerOK, Quiet;
    var q := OnVoteReply(ps[i], from, resp);
    PeerOf(members, ps, h, i);
    if resp.Some? && resp.value.term > ps[i].currentTerm {
      StandDownOK(members, ps, h, i, resp.value.term);
    } else {
      if resp.Some? {
        MessageOf(members, h, net, VoteReply(from, PollRequest(i, ps[i].poll.value), resp.value));
      }
      CountedVoteOK(members, ps, h, i, from, resp);
    }
    NoMessage(members, h);
    QuietStep(members, ps, net, h, i, q, {});
    assert net + {} == net;
  }

  lemma StandDownOK(members: set<NodeId>, ps: Peers, h: History, i: NodeId, term: nat)
    requires ps.Keys == members && i in members && PeerOK(members, ps[i], h, i)
    ensures Quiet(members, ps, h, i, BecomeFollower(ps[i], term, None).(poll := None))
  {
    hide GoodLog, Mirror, CommitOK;
    FollowerOK(members, ps, h, i, term, None);
    SameCommit(members, BecomeFollower(ps[i], term, None), h, BecomeFollower(ps[i], term, None).(poll := None));
  }

  lemma SameCommit(members: set<NodeId>, p: Peer, h: History, q: Peer)
    requires q == p.(votesReceived := q.votesReceived, poll := q.poll)
    ensures CommitOK(members, q, h) == CommitOK(members, p, h)
  {
  }

  lemma CountedVoteOK(members: set<NodeId>, ps: Peers, h: History, i: NodeId, from: NodeId, resp: Option<VoteResponse>)
    requires ps.Keys == members && i in members && PeerOK(members, ps[i], h, i)
    requires ps[i].poll.Some? && from in ps[i].poll.value.pending
    requires resp.Some? ==> resp.value.term <= ps[i].currentTerm
    requires resp.Some? ==> MessageOK(members, h, VoteReply(from, PollRequest(i, ps[i].poll.value), resp.value))
    ensures Quiet(members, ps, h, i, OnVoteReply(ps[i], from, resp))
  {
    hide GoodLog, Mirror, LeaderOK, CommitOK, Supporters;
    var p := ps[i];
    SupportersAfterReply(members, h, p.currentTerm, i, p.poll.value.pending, from);
    PollTurnOK(members, p, h, i, OnVoteReply(p, from, resp));
  }

  lemma PollTurnOK(members: set<NodeId>, p: Peer, h: History, i: NodeId, q: Peer)
    requires PeerOK(members, p, h, i)
    requires q == p.(votesReceived := q.votesReceived, poll := q.poll)
    requires PollOK(members, q, i)
    requires q.role == Candidate ==> CandidateOK(members, q, h, i)
    ensures PeerOK(members, q, h, i)
  {
  }

  // ----- winning an election -----

  lemma WinnersQuorum(members: set<NodeId>, p: Peer, h: History, i: NodeId)
    requires i in members && CandidateOK(members, p, h, i)
    requires p.poll.Some? && p.poll.value.pending == {}
    requires p.votesReceived >= MajorityCount(|members - {i}|)
    ensures var q := Supporters(members, h, p.currentTerm, i, {});
            Quorum(members, q) && VotedFor(h, p.currentTerm, q, i)
  {
    assert |members - {i}| == |members| - 1;
  }

  /** One vote per peer and term: nobody else can have been elected in this term. */
  lemma NotElectedYet(members: set<NodeId>, ps: Peers, h: History, i: NodeId, t: nat, q: set<NodeId>)
    requires ps.Keys == members && ReignsOK(members, ps, h)
    requires Quorum(members, q) && VotedFor(h, t, q, i)
    requires t in h.reigns ==> h.reigns[t].leader != i
    ensures t !in h.reigns
  {
    if t in h.reigns {
      assert ReignOK(members, ps, h, t);
      var q' :| Quorum(members, q') && VotedFor(h, t, q', h.reigns[t].leader);
      var v := QuorumsMeet(members, q, q');
      assert false;
    }
  }

  ghost predicate Crowned(h: History, h': History, t: nat, i: NodeId, log: seq<LogEntry>) {
    t !in h.reigns && h' == h.(reigns := h.reigns[t := Reign(i, log, map[i := |log|])])
  }

  lemma CrownGrows(members: set<NodeId>, ps: Peers, h: History, i: NodeId, q: Peer, h': History, t: nat)
    requires ps.Keys == members && i in members && q.currentTerm == ps[i].currentTerm == t
    requires Crowned(h, h', t, i, q.log)
    ensures Grows(ps, h, ps[i := q], h')
  {
    forall u, p | p in ps
      ensures Ack(h, u, p) <= Ack(h', u, p)
      ensures ps[p].currentTerm > u ==> Ack(h, u, p) == Ack(h', u, p)
    {
      if u == t {
        assert Ack(h, u, p) == 0;
      } else {
        assert u in h.reigns <==> u in h'.reigns;
      }
    }
  }

  lemma CrownReigns(members: set<NodeId>, ps: Peers, h: History, i: NodeId, q: Peer, h': History, t: nat, voters: set<NodeId>)
    requires ps.Keys == members && i in members && q.currentTerm == ps[i].currentTerm == t
    requires Crowned(h, h', t, i, q.log) && Grows(ps, h, ps[i := q], h')
    requires ReignsOK(members, ps, h) && GoodLog(h, q.log, t)
    requires Quorum(members, voters) && VotedFor(h, t, voters, i)
    ensures ReignsOK(members, ps[i := q], h')
  {
    var ps' := ps[i := q];
    forall u | u in h'.reigns
      ensures ReignOK(members, ps', h', u)
    {
      if u == t {
        GoodLogStays(ps, h, ps', h', q.log, t, t);
        assert VotedFor(h', t, voters, i);
      } else {
        assert ReignOK(members, ps, h, u);
        GoodLogStays(ps, h, ps', h', h.reigns[u].log, u, u);
        var vs :| Quorum(members, vs) && VotedFor(h, u, vs, h.reigns[u].leader);
        assert VotedFor(h', u, vs, h'.reigns[u].leader);
      }
    }
  }

  /** The votes that elect a leader carry over everything earlier terms may have chosen. */
  lemma CrownBinds(members: set<NodeId>, ps: Peers, h: History, i: NodeId, q: Peer, h': History, t: nat, voters: set<NodeId>)
    requires ps.Keys == members && i in members && q.currentTerm == ps[i].currentTerm == t
    requires Crowned(h, h', t, i, q.log) && Grows(ps, h, ps[i := q], h')
    requires Quorum(members, voters) && VotedFor(h, t, voters, i)
    requires (t, i) in h.ballots && h.ballots[(t, i)] == q.log
    requires forall x | 0 <= x < |q.log| :: q.log[x].term < t
    requires VotesOK(members, ps, h) && VotesBind(members, ps, h) && ReignsBind(members, ps, h)
    ensures ReignsBind(members, ps[i := q], h')
  {
    var ps' := ps[i := q];
    forall u: nat, u': nat, k: nat | OwnEntry(h', u, k) && u' in h'.reigns && u < u'
      ensures Holds(members, ps', h', u, k, h'.reigns[u'].log)
    {
      assert u != t;
      assert OwnEntry(h, u, k);
      if u' != t {
        HoldsStays(members, ps, h, ps', h', u, k, h.reigns[u'].log, h.reigns[u'].log);
      } else {
        VotersBind(members, ps, h, i, t, voters, u, k);
        HoldsStays(members, ps, h, ps', h', u, k, q.log, q.log);
      }
    }
  }

  lemma VotersBind(members: set<NodeId>, ps: Peers, h: History, i: NodeId, t: nat, voters: set<NodeId>, u: nat, k: nat)
    requires ps.Keys == members
    requires Quorum(members, voters) && VotedFor(h, t, voters, i)
    requires (t, i) in h.ballots && OwnEntry(h, u, k) && u < t
    requires VotesOK(members, ps, h) && VotesBind(members, ps, h)
    ensures Holds(members, ps, h, u, k, h.ballots[(t, i)])
  {
    if v :| v in voters && k <= Ack(h, u, v) {
      var vote: (nat, NodeId) := (t, v);
      assert vote in h.votes && h.votes[vote] == i;
    } else {
      forall v | v in voters
        ensures v in ps && ps[v].currentTerm > u && Ack(h, u, v) < k
      {
        var vote: (nat, NodeId) := (t, v);
        assert vote in h.votes;
      }
      assert Blocks(ps, h, u, k, voters);
    }
  }

  lemma CrownRest(members: set<NodeId>, ps: Peers, h: History, i: NodeId, q: Peer, h': History, t: nat)
    requires ps.Keys == members && i in members && q.currentTerm == ps[i].currentTerm == t && q.log == ps[i].log
    requires Crowned(h, h', t, i, q.log) && Grows(ps, h, ps[i := q], h')
    requires forall x | 0 <= x < |q.log| :: q.log[x].term < t
    requires AcksBind(members, ps, h) && VotesBind(members, ps, h)
    ensures AcksBind(members, ps[i := q], h')
    ensures VotesBind(members, ps[i := q], h')
  {
    var ps' := ps[i := q];
    forall u: nat, p, k: nat | OwnEntry(h', u, k) && p in members && k <= Ack(h', u, p)
      ensures Holds(members, ps', h', u, k, ps'[p].log)
    {
      assert u != t && OwnEntry(h, u, k);
      HoldsStays(members, ps, h, ps', h', u, k, ps[p].log, ps[p].log);
    }
    forall u: nat, v, k: nat | OwnEntry(h', u, k) && v in h'.votes && u < v.0 && k <= Ack(h', u, v.1)
                               && (v.0, h'.votes[v]) in h'.ballots
      ensures Holds(members, ps', h', u, k, h'.ballots[(v.0, h'.votes[v])])
    {
      assert u != t && OwnEntry(h, u, k);
      var ballot := h.ballots[(v.0, h.votes[v])];
      HoldsStays(members, ps, h, ps', h', u, k, ballot, ballot);
    }
  }

  lemma CrownPeers(members: set<NodeId>, ps: Peers, h: History, i: NodeId, q: Peer, h': History, t: nat)
    requires ps.Keys == members && i in members && q.currentTerm == ps[i].currentTerm == t && q.log == ps[i].log
    requires Crowned(h, h', t, i, q.log) && Grows(ps, h, ps[i := q], h')
    requires PeersOK(members, ps, h) && PeerOK(members, q, h', i)
    ensures PeersOK(members, ps[i := q], h')
  {
    hide Grows, PeerOK, Crowned;
    forall j | j in members
      ensures PeerOK(members, ps[i := q][j], h', j)
    {
      if j != i {
        assert PeerOK(members, ps[j], h, j);
        CrownOther(members, ps, h, i, q, h', t, j);
      }
    }
  }

  lemma CrownOther(members: set<NodeId>, ps: Peers, h: History, i: NodeId, q: Peer, h': History, t: nat, j: NodeId)
    requires ps.Keys == members && i in members && j in members && j != i
    requires Crowned(h, h', t, i, q.log) && Grows(ps, h, ps[i := q], h')
    requires PeerOK(members, ps[j], h, j)
    ensures PeerOK(members, ps[j], h', j)
  {
    hide Grows;
    PeerStays(members, ps, h, ps[i := q], h', j);
  }

  lemma NewLeaderOK(members: set<NodeId>, ps: Peers, h: History, i: NodeId, q: Peer, h': History)
    requires ps.Keys == members && i in members
    requires PeerOK(members, ps[i], h, i) && ps[i].role == Candidate
    requires q == BecomeLeader(ps[i].(poll := None), i, members - {i})
    requires Crowned(h, h', q.currentTerm, i, q.log) && Grows(ps, h, ps[i := q], h')
    ensures PeerOK(members, q, h', i)
  {
    hide Grows;
    var p := ps[i];
    GoodLogStays(ps, h, ps[i := q], h', p.log, p.currentTerm, p.currentTerm);
    BackedStays(members, ps, h, ps[i := q], h', p.log, p.commitIndex, p.currentTerm, p.log, p.currentTerm);
    NewLeaderBooks(members, p, h', i, q);
    VotesSame(members, ps, h, i, q, h');
  }

  lemma NewLeaderBooks(members: set<NodeId>, p: Peer, h': History, i: NodeId, q: Peer)
    requires Indexed(p.log) && q == BecomeLeader(p.(poll := None), i, members - {i})
    requires q.currentTerm >= 1 && q.currentTerm in h'.reigns && h'.reigns[q.currentTerm] == Reign(i, q.log, map[i := |q.log|])
    ensures LeaderOK(members, q, h', i)
  {
    assert LastIndex(p.log) == |p.log|;
  }

  lemma VotesSame(members: set<NodeId>, ps: Peers, h: History, i: NodeId, q: Peer, h': History)
    requires ps.Keys == members && i in members && Grows(ps, h, ps[i := q], h')
    requires q.votedFor.Some? ==> (q.currentTerm, i) in h.votes && h.votes[(q.currentTerm, i)] == q.votedFor.value
    ensures q.votedFor.Some? ==> (q.currentTerm, i) in h'.votes && h'.votes[(q.currentTerm, i)] == q.votedFor.value
  {
  }

  /** What is known of a candidate that has counted enough votes. */
  lemma WinnerFacts(members: set<NodeId>, ps: Peers, h: History, i: NodeId, q: Peer)
    requires ps.Keys == members && i in members && PeerOK(members, ps[i], h, i)
    requires ReignsOK(members, ps, h) && BallotsOK(members, ps, h)
    requires ps[i].poll.Some? && ps[i].poll.value.pending == {}
    requires ps[i].role == Candidate && ps[i].votesReceived >= MajorityCount(|members - {i}|)
    requires q == ConcludeElection(ps[i], i, members - {i})
    ensures var t, voters := q.currentTerm, Supporters(members, h, q.currentTerm, i, {});
            && Quorum(members, voters) && VotedFor(h, t, voters, i)
            && t !in h.reigns && (t, i) in h.ballots && h.ballots[(t, i)] == q.log && GoodLog(h, q.log, t)
            && (forall x | 0 <= x < |q.log| :: q.log[x].term < t)
    ensures q.currentTerm == ps[i].currentTerm && q.log == ps[i].log && q.votedFor == ps[i].votedFor
    ensures q == BecomeLeader(ps[i].(poll := None), i, members - {i})
  {
    hide ReignsOK, BallotsOK, Rooted, Ordered, Mirror, Backed, LeaderOK;
    WinnersQuorum(members, ps[i], h, i);
    NotElectedYet(members, ps, h, i, q.currentTerm, Supporters(members, h, q.currentTerm, i, {}));
    BallotBelow(members, ps, h, q.currentTerm, i);
  }

  lemma WinStep(members: set<NodeId>, ps: Peers, net: set<Message>, h: History, i: NodeId) returns (h': History)
    requires Inv(members, ps, net, h) && i in members
    requires ps[i].poll.Some? && ps[i].poll.value.pending == {}
    requires ps[i].role == Candidate && ps[i].votesReceived >= MajorityCount(|members - {i}|)
    ensures var q := ConcludeElection(ps[i], i, members - {i});
            Grows(ps, h, ps[i := q], h') && Inv(members, ps[i := q], net, h')
  {
    hide ReignsOK, VotesOK, BallotsOK, PeersOK, AcksBind, AcksHeld, ReignsBind, VotesBind, NetOK, Grows;
    hide PeerOK, GoodLog, Quorum, VotedFor, Supporters, ConcludeElection, BecomeLeader;
    var q := ConcludeElection(ps[i], i, members - {i});
    PeerOf(members, ps, h, i);
    WinnerFacts(members, ps, h, i, q);
    var t, voters := q.currentTerm, Supporters(members, h, q.currentTerm, i, {});
    h' := h.(reigns := h.reigns[t := Reign(i, q.log, map[i := |q.log|])]);
    assert Crowned(h, h', t, i, q.log);
    hide Crowned;
    CrownGrows(members, ps, h, i, q, h', t);
    CrownReigns(members, ps, h, i, q, h', t, voters);
    CrownBinds(members, ps, h, i, q, h', t, voters);
    CrownRest(members, ps, h, i, q, h', t);
    NewLeaderOK(members, ps, h, i, q, h');
    CrownPeers(members, ps, h, i, q, h', t);
    CrownBallots(members, ps, h, i, q, h', t);
    CrownHeld(members, ps, h, i, q, h', t);
    NetStays(members, ps, h, ps[i := q], h', net);
  }

  lemma BallotBelow(members: set<NodeId>, ps: Peers, h: History, t: nat, i: NodeId)
    requires ps.Keys == members && BallotsOK(members, ps, h) && (t, i) in h.ballots
    ensures forall x | 0 <= x < |h.ballots[(t, i)]| :: h.ballots[(t, i)][x].term < t
  {
    var b: (nat, NodeId) := (t, i);
    assert GoodLog(h, h.ballots[b], b.0 - 1);
  }

  lemma CrownBallots(members: set<NodeId>, ps: Peers, h: History, i: NodeId, q: Peer, h': History, t: nat)
    requires ps.Keys == members && i in members && q.currentTerm == ps[i].currentTerm == t && q.votedFor == ps[i].votedFor
    requires Crowned(h, h', t, i, q.log) && Grows(ps, h, ps[i := q], h')
    requires VotesOK(members, ps, h) && BallotsOK(members, ps, h)
    ensures VotesOK(members, ps[i := q], h') && BallotsOK(members, ps[i := q], h')
  {
    forall b | b in h'.ballots
      ensures b.1 in members && b.0 <= ps[i := q][b.1].currentTerm && GoodLog(h', h'.ballots[b], b.0 - 1)
    {
      assert GoodLog(h, h.ballots[b], b.0 - 1);
      GoodLogStays(ps, h, ps[i := q], h', h.ballots[b], b.0 - 1, b.0 - 1);
    }
  }

  lemma CrownHeld(members: set<NodeId>, ps: Peers, h: History, i: NodeId, q: Peer, h': History, t: nat)
    requires ps.Keys == members && i in members && q.currentTerm == ps[i].currentTerm == t && q.log == ps[i].log
    requires Crowned(h, h', t, i, q.log)
    requires AcksHeld(members, ps, h)
    ensures AcksHeld(members, ps[i := q], h')
  {
    forall p | p in members && ps[p].currentTerm in h'.reigns
      ensures Agree(ps[i := q][p].log, h'.reigns[ps[p].currentTerm].log, Ack(h', ps[p].currentTerm, p))
    {
      if ps[p].currentTerm != t {
        assert Ack(h', ps[p].currentTerm, p) == Ack(h, ps[p].currentTerm, p);
      }
    }
  }

  lemma IdleConclude(members: set<NodeId>, ps: Peers, h: History, i: NodeId)
    requires ps.Keys == members && i in members && PeerOK(members, ps[i], h, i)
    ensures Quiet(members, ps, h, i, ps[i].(poll := None))
  {
    PollTurnOK(members, ps[i], h, i, ps[i].(poll := None));
  }

  lemma ConcludeStep(members: set<NodeId>, ps: Peers, net: set<Message>, h: History, i: NodeId) returns (h': History)
    requires Inv(members, ps, net, h) && i in members
    requires ps[i].poll.Some? && ps[i].poll.value.pending == {}
    ensures var q := ConcludeElection(ps[i], i, members - {i});
            Grows(ps, h, ps[i := q], h') && Inv(members, ps[i := q], net, h')
  {
    hide ReignsOK, VotesOK, BallotsOK, PeersOK, AcksBind, AcksHeld, ReignsBind, VotesBind, NetOK, Grows, PeerOK, Quiet;
    var p := ps[i];
    if p.role == Candidate && p.votesReceived >= MajorityCount(|members - {i}|) {
      h' := WinStep(members, ps, net, h, i);
    } else {
      h' := h;
      PeerOf(members, ps, h, i);
      IdleConclude(members, ps, h, i);
      NoMessage(members, h);
      QuietStep(members, ps, net, h, i, p.(poll := None), {});
      assert net + {} == net;
    }
  }

  // ----- committing and applying -----

  lemma ApplyPendingEffect(s: Peer)
    requires s.lastApplied <= s.commitIndex <= |s.log|
    ensures var r := ApplyPending(s);
            && r == s.(lastApplied := r.lastApplied, machine := r.machine)
            && s.lastApplied <= r.lastApplied <= s.commitIndex
            && (s.lastApplied < s.commitIndex ==> s.lastApplied < r.lastApplied)
  {
    hide ApplyPending, ApplyRaises, RP.RaisesAt, RP.MachineAt;
    RP.PendingIsApplied(s);
  }

  lemma CommitMoreOK(members: set<NodeId>, ps: Peers, h: History, i: NodeId, n: nat)
    requires ps.Keys == members && i in members && PeerOK(members, ps[i], h, i)
    requires ps[i].commitIndex <= n <= |ps[i].log| && Backed(members, h, ps[i].log, n, ps[i].currentTerm)
    ensures Quiet(members, ps, h, i, ApplyPending(ps[i].(commitIndex := n)))
  {
    ApplyPendingEffect(ps[i].(commitIndex := n));
  }

  lemma HighestCountableIs(s: Peer, peers: set<NodeId>, n: nat)
    requires n <= |s.log|
    ensures var m := HighestCountable(s, peers, n);
            m == s.commitIndex || (s.commitIndex < m <= n && Countable(s, peers, m))
  {
  }

  lemma CountableIsChosen(members: set<NodeId>, p: Peer, h: History, i: NodeId, n: nat)
    requires i in members && LeaderOK(members, p, h, i)
    requires Countable(p, members - {i}, n)
    ensures Backed(members, h, p.log, n, p.currentTerm)
  {
    var t := p.currentTerm;
    var q := Replicas(p, members - {i}, n) + {i};
    assert |q| == 1 + |Replicas(p, members - {i}, n)|;
    assert |members - {i}| == |members| - 1;
    assert Quorum(members, q);
    assert AckedBy(h, t, n, q);
    assert BackedBy(members, h, p.log, n, t, t, n);
  }

  lemma AdvanceCommitOK(members: set<NodeId>, ps: Peers, h: History, i: NodeId)
    requires ps.Keys == members && i in members && PeerOK(members, ps[i], h, i) && ps[i].role == Leader
    ensures Quiet(members, ps, h, i, AdvanceCommit(ps[i], members - {i}))
  {
    var p := ps[i];
    HighestCountableIs(p, members - {i}, |p.log|);
    var n := HighestCountable(p, members - {i}, |p.log|);
    if n != p.commitIndex {
      CountableIsChosen(members, p, h, i, n);
      CommitMoreOK(members, ps, h, i, n);
    } else {
      QuietSelf(members, ps, h, i);
    }
  }

  // ----- the leader appends -----

  ghost predicate Extended(h: History, h': History, t: nat, i: NodeId, log: seq<LogEntry>) {
    && t in h.reigns
    && h.reigns[t].leader == i
    && |log| == |h.reigns[t].log| + 1
    && Agree(h.reigns[t].log, log, |h.reigns[t].log|)
    && h' == h.(reigns := h.reigns[t := Reign(i, log, h.reigns[t].acks[i := |log|])])
  }

  lemma ExtendAcks(h: History, h': History, t: nat, i: NodeId, log: seq<LogEntry>, u: nat, p: NodeId)
    requires Extended(h, h', t, i, log)
    ensures Ack(h', u, p) == if u == t && p == i then |log| else Ack(h, u, p)
  {
  }

  lemma ExtendGrows(members: set<NodeId>, ps: Peers, h: History, i: NodeId, q: Peer, h': History)
    requires ps.Keys == members && i in members && q.currentTerm == ps[i].currentTerm
    requires Extended(h, h', q.currentTerm, i, q.log) && Ack(h, q.currentTerm, i) <= |q.log|
    ensures Grows(ps, h, ps[i := q], h')
  {
    forall u, p | p in ps
      ensures Ack(h, u, p) <= Ack(h', u, p)
      ensures ps[p].currentTerm > u ==> Ack(h, u, p) == Ack(h', u, p)
    {
      ExtendAcks(h, h', q.currentTerm, i, q.log, u, p);
    }
  }

  lemma GrownVotes(ps: Peers, h: History, ps': Peers, h': History)
    requires Grows(ps, h, ps', h')
    ensures forall v | v in h.votes :: v in h'.votes && h'.votes[v] == h.votes[v]
  {
  }

  lemma ExtendReigns(members: set<NodeId>, ps: Peers, h: History, i: NodeId, q: Peer, h': History)
    requires ps.Keys == members && i in members && q.currentTerm == ps[i].currentTerm
    requires Extended(h, h', q.currentTerm, i, q.log) && Grows(ps, h, ps[i := q], h')
    requires ReignsOK(members, ps, h) && GoodLog(h', q.log, q.currentTerm)
    ensures ReignsOK(members, ps[i := q], h')
  {
    hide Grows, GoodLog, VotedFor;
    forall u | u in h'.reigns
      ensures ReignOK(members, ps[i := q], h', u)
    {
      assert ReignOK(members, ps, h, u);
      var vs :| Quorum(members, vs) && VotedFor(h, u, vs, h.reigns[u].leader);
      GrownVotes(ps, h, ps[i := q], h');
      KeptVotes(h, h', u, vs, h.reigns[u].leader);
      assert VotedFor(h', u, vs, h'.reigns[u].leader);
      if u != q.currentTerm {
        GoodLogStays(ps, h, ps[i := q], h', h.reigns[u].log, u, u);
      }
    }
  }

  /** An entry added to a reign that has already been superseded can never be chosen there. */
  lemma LateEntryBlocked(members: set<NodeId>, ps: Peers, h: History, i: NodeId, t: nat, t': nat, k: nat)
    requires ps.Keys == members && ReignsOK(members, ps, h) && VotesOK(members, ps, h)
    requires t in h.reigns && t' in h.reigns && t < t' && k > |h.reigns[t].log|
    ensures Blocked(members, ps, h, t, k)
  {
    assert ReignOK(members, ps, h, t) && ReignOK(members, ps, h, t');
    var vs :| Quorum(members, vs) && VotedFor(h, t', vs, h.reigns[t'].leader);
    forall v | v in vs
      ensures v in ps && ps[v].currentTerm > t && Ack(h, t, v) < k
    {
      var vote: (nat, NodeId) := (t', v);
      assert vote in h.votes;
    }
    assert Blocks(ps, h, t, k, vs);
  }

  lemma ExtendReignsBind(members: set<NodeId>, ps: Peers, h: History, i: NodeId, q: Peer, h': History)
    requires ps.Keys == members && i in members && q.currentTerm == ps[i].currentTerm
    requires Extended(h, h', q.currentTerm, i, q.log) && Grows(ps, h, ps[i := q], h')
    requires ReignsOK(members, ps, h) && VotesOK(members, ps, h) && ReignsBind(members, ps, h)
    ensures ReignsBind(members, ps[i := q], h')
  {
    hide Grows, ReignsOK, VotesOK;
    forall t: nat, t': nat, k: nat | OwnEntry(h', t, k) && t' in h'.reigns && t < t'
      ensures Holds(members, ps[i := q], h', t, k, h'.reigns[t'].log)
    {
      if k > |h.reigns[t].log| {
        LateEntryBlocked(members, ps, h, i, t, t', k);
        BlockedStays(members, ps, h, ps[i := q], h', t, k);
      } else {
        OwnEntryBefore(h, h', q.currentTerm, i, q.log, t, k);
        assert Holds(members, ps, h, t, k, h.reigns[t'].log);
        HoldsStays(members, ps, h, ps[i := q], h', t, k, h.reigns[t'].log, h'.reigns[t'].log);
      }
    }
  }

  lemma OwnEntryBefore(h: History, h': History, term: nat, i: NodeId, log: seq<LogEntry>, t: nat, k: nat)
    requires Extended(h, h', term, i, log) && OwnEntry(h', t, k) && k <= |h.reigns[t].log|
    ensures OwnEntry(h, t, k)
  {
  }

  lemma ExtendAcksBind(members: set<NodeId>, ps: Peers, h: History, i: NodeId, q: Peer, h': History)
    requires ps.Keys == members && i in members && q.currentTerm == ps[i].currentTerm
    requires Extended(h, h', q.currentTerm, i, q.log) && Grows(ps, h, ps[i := q], h')
    requires ReignsOK(members, ps, h) && AcksBind(members, ps, h)
    requires ps[i].log == h.reigns[q.currentTerm].log
    ensures AcksBind(members, ps[i := q], h')
  {
    hide Grows, GoodLog, Elected;
    forall t: nat, p, k: nat | OwnEntry(h', t, k) && p in members && k <= Ack(h', t, p)
      ensures Holds(members, ps[i := q], h', t, k, ps[i := q][p].log)
    {
      ExtendAcks(h, h', q.currentTerm, i, q.log, t, p);
      assert ReignOK(members, ps, h, t);
      if t != q.currentTerm || p != i {
        assert OwnEntry(h, t, k);
        HoldsStays(members, ps, h, ps[i := q], h', t, k, ps[p].log, ps[i := q][p].log);
      }
    }
  }

  lemma ExtendVotesBind(members: set<NodeId>, ps: Peers, h: History, i: NodeId, q: Peer, h': History)
    requires ps.Keys == members && i in members && q.currentTerm == ps[i].currentTerm
    requires Extended(h, h', q.currentTerm, i, q.log) && Grows(ps, h, ps[i := q], h')
    requires ReignsOK(members, ps, h) && VotesOK(members, ps, h) && VotesBind(members, ps, h)
    ensures VotesBind(members, ps[i := q], h')
  {
    hide Grows, GoodLog, Elected;
    forall t: nat, v, k: nat | OwnEntry(h', t, k) && v in h'.votes && t < v.0 && k <= Ack(h', t, v.1)
                               && (v.0, h'.votes[v]) in h'.ballots
      ensures Holds(members, ps[i := q], h', t, k, h'.ballots[(v.0, h'.votes[v])])
    {
      ExtendAcks(h, h', q.currentTerm, i, q.log, t, v.1);
      assert v.0 <= ps[v.1].currentTerm;
      assert ReignOK(members, ps, h, t);
      assert OwnEntry(h, t, k);
      var ballot := h.ballots[(v.0, h.votes[v])];
      HoldsStays(members, ps, h, ps[i := q], h', t, k, ballot, ballot);
    }
  }

  lemma ExtendHeld(members: set<NodeId>, ps: Peers, h: History, i: NodeId, q: Peer, h': History)
    requires ps.Keys == members && i in members && q.currentTerm == ps[i].currentTerm
    requires Extended(h, h', q.currentTerm, i, q.log)
    requires AcksHeld(members, ps, h)
    ensures AcksHeld(members, ps[i := q], h')
  {
    forall p | p in members && ps[p].currentTerm in h'.reigns
      ensures Agree(ps[i := q][p].log, h'.reigns[ps[p].currentTerm].log, Ack(h', ps[p].currentTerm, p))
    {
      ExtendAcks(h, h', q.currentTerm, i, q.log, ps[p].currentTerm, p);
    }
  }

  lemma ExtendBallots(members: set<NodeId>, ps: Peers, h: History, i: NodeId, q: Peer, h': History)
    requires ps.Keys == members && i in members && q.currentTerm == ps[i].currentTerm && q.votedFor == ps[i].votedFor
    requires Extended(h, h', q.currentTerm, i, q.log) && Grows(ps, h, ps[i := q], h')
    requires VotesOK(members, ps, h) && BallotsOK(members, ps, h)
    ensures VotesOK(members, ps[i := q], h') && BallotsOK(members, ps[i := q], h')
  {
    forall b | b in h'.ballots
      ensures b.1 in members && b.0 <= ps[i := q][b.1].currentTerm && GoodLog(h', h'.ballots[b], b.0 - 1)
    {
      assert GoodLog(h, h.ballots[b], b.0 - 1);
      GoodLogStays(ps, h, ps[i := q], h', h.ballots[b], b.0 - 1, b.0 - 1);
    }
  }

  lemma ExtendPeers(members: set<NodeId>, ps: Peers, h: History, i: NodeId, q: Peer, h': History)
    requires ps.Keys == members && i in members && q.currentTerm == ps[i].currentTerm
    requires Extended(h, h', q.currentTerm, i, q.log) && Grows(ps, h, ps[i := q], h')
    requires PeersOK(members, ps, h) && PeerOK(members, q, h', i)
    ensures PeersOK(members, ps[i := q], h')
  {
    hide Grows, PeerOK, Extended;
    forall j | j in members
      ensures PeerOK(members, ps[i := q][j], h', j)
    {
      if j != i {
        assert PeerOK(members, ps[j], h, j);
        ExtendOther(members, ps, h, i, q, h', j);
      }
    }
  }

  lemma ExtendOther(members: set<NodeId>, ps: Peers, h: History, i: NodeId, q: Peer, h': History, j: NodeId)
    requires ps.Keys == members && i in members && j in members && j != i
    requires Extended(h, h', q.currentTerm, i, q.log) && Grows(ps, h, ps[i := q], h')
    requires PeerOK(members, ps[j], h, j)
    ensures PeerOK(members, ps[j], h', j)
  {
    hide Grows;
    ExtendAcks(h, h', q.currentTerm, i, q.log, ps[j].currentTerm, j);
    PeerStays(members, ps, h, ps[i := q], h', j);
  }

  lemma AppendedLogGood(ps: Peers, h: History, i: NodeId, q: Peer, h': History)
    requires i in ps && GoodLog(h, ps[i].log, q.currentTerm)
    requires Extended(h, h', q.currentTerm, i, q.log) && Grows(ps, h, ps[i := q], h')
    requires ps[i].log == h.reigns[q.currentTerm].log
    requires q.log[|ps[i].log|].term == q.currentTerm >= 1 && q.log[|ps[i].log|].index == |q.log|
    ensures GoodLog(h', q.log, q.currentTerm)
  {
    GoodLogStays(ps, h, ps[i := q], h', ps[i].log, q.currentTerm, q.currentTerm);
    assert Ordered(q.log, q.currentTerm);
    forall x: nat | x < |q.log|
      ensures RootedAt(h', q.log, x)
    {
      if x < |ps[i].log| {
        assert RootedAt(h', ps[i].log, x);
      }
    }
  }

  lemma AppendedPeerOK(members: set<NodeId>, ps: Peers, h: History, i: NodeId, c: Command, q: Peer, h': History)
    requires ps.Keys == members && i in members && PeerOK(members, ps[i], h, i) && ps[i].role == Leader
    requires q == AppendLocal(ps[i], c)
    requires Extended(h, h', q.currentTerm, i, q.log) && Grows(ps, h, ps[i := q], h')
    ensures PeerOK(members, q, h', i)
  {
    hide Grows, Extended, Mirror, Rooted, LeaderOK;
    var p := ps[i];
    AppendedEntry(p, c);
    AppendedFromReign(members, p, h, i);
    AppendedLogGood(ps, h, i, q, h');
    BackedStays(members, ps, h, ps[i := q], h', p.log, p.commitIndex, p.currentTerm, q.log, p.currentTerm);
    VotesSame(members, ps, h, i, q, h');
    assert q.log[..q.lastApplied] == p.log[..p.lastApplied];
    AppendedLeaderOK(members, p, h, i, q, h');
  }

  lemma AppendedFromReign(members: set<NodeId>, p: Peer, h: History, i: NodeId)
    requires LeaderOK(members, p, h, i)
    ensures p.currentTerm >= 1 && p.currentTerm in h.reigns && p.log == h.reigns[p.currentTerm].log
  {
  }

  lemma AppendedEntry(p: Peer, c: Command)
    requires Indexed(p.log) && Mirror(p.disk.rows, p.log)
    ensures var q := AppendLocal(p, c);
            && q.log == p.log + [LogEntry(|p.log| + 1, p.currentTerm, c)]
            && Mirror(q.disk.rows, q.log)
  {
    assert LastIndex(p.log) == |p.log|;
  }

  lemma AppendedLeaderOK(members: set<NodeId>, p: Peer, h: History, i: NodeId, q: Peer, h': History)
    requires LeaderOK(members, p, h, i)
    requires q == p.(log := q.log, disk := q.disk)
    requires Extended(h, h', q.currentTerm, i, q.log)
    ensures LeaderOK(members, q, h', i)
  {
    forall j | j in members && j != i
      ensures Lookup(q.matchIndex, j, 0) <= Ack(h', q.currentTerm, j)
    {
      ExtendAcks(h, h', q.currentTerm, i, q.log, q.currentTerm, j);
    }
  }

  lemma AppendLocalStep(members: set<NodeId>, ps: Peers, net: set<Message>, h: History, i: NodeId, c: Command) returns (h': History)
    requires Inv(members, ps, net, h) && i in members
    requires ps[i].role == Leader
    ensures var q := AppendLocal(ps[i], c);
            Grows(ps, h, ps[i := q], h') && Inv(members, ps[i := q], net, h') && PeerOK(members, q, h', i)
  {
    hide ReignsOK, VotesOK, BallotsOK, PeersOK, AcksBind, AcksHeld, ReignsBind, VotesBind, NetOK, Grows;
    var p := ps[i];
    var q := AppendLocal(p, c);
    PeerOf(members, ps, h, i);
    h' := h.(reigns := h.reigns[p.currentTerm := Reign(i, q.log, h.reigns[p.currentTerm].acks[i := |q.log|])]);
    assert Extended(h, h', q.currentTerm, i, q.log);
    ExtendGrows(members, ps, h, i, q, h');
    AppendedPeerOK(members, ps, h, i, c, q, h');
    ExtendReigns(members, ps, h, i, q, h');
    ExtendBallots(members, ps, h, i, q, h');
    ExtendReignsBind(members, ps, h, i, q, h');
    ExtendAcksBind(members, ps, h, i, q, h');
    ExtendHeld(members, ps, h, i, q, h');
    ExtendVotesBind(members, ps, h, i, q, h');
    ExtendPeers(members, ps, h, i, q, h');
    NetStays(members, ps, h, ps[i := q], h', net);
  }

  lemma ProposeStep(members: set<NodeId>, ps: Peers, net: set<Message>, h: History, i: NodeId, c: Command) returns (h': History)
    requires Inv(members, ps, net, h) && i in members
    requires ps[i].role == Leader
    ensures var q := Propose(ps[i], members - {i}, c);
            Grows(ps, h, ps[i := q], h') && Inv(members, ps[i := q], net, h')
  {
    hide ReignsOK, VotesOK, BallotsOK, PeersOK, AcksBind, AcksHeld, ReignsBind, VotesBind, NetOK, Grows, PeerOK, Quiet;
    var s := AppendLocal(ps[i], c);
    var q := Propose(ps[i], members - {i}, c);
    h' := AppendLocalStep(members, ps, net, h, i, c);
    if members - {i} == {} {
      AdvanceCommitOK(members, ps[i := s], h', i);
      NoMessage(members, h');
      QuietStep(members, ps[i := s], net, h', i, q, {});
      assert net + {} == net;
      assert ps[i := s][i := q] == ps[i := q];
      GrowsTransitive(ps, h, ps[i := s], h', ps[i := q], h');
    }
  }

  // ----- append requests and replies -----

  lemma {:induction false} EntriesFromIs(log: seq<LogEntry>, from: nat, base: nat)
    requires forall x | 0 <= x < |log| :: log[x].index == base + x + 1
    requires base < from <= base + |log| + 1
    ensures EntriesFrom(log, from) == log[from - base - 1..]
  {
    if log != [] {
      if from == base + 1 {
        if |log| > 1 {
          EntriesAll(log[1..], from);
        }
        assert EntriesFrom(log[1..], from) == log[1..];
      } else {
        EntriesFromIs(log[1..], from, base + 1);
      }
    }
  }

  lemma {:induction false} EntriesAll(log: seq<LogEntry>, from: nat)
    requires forall x | 0 <= x < |log| :: log[x].index >= from
    ensures EntriesFrom(log, from) == log
  {
    if log != [] {
      EntriesAll(log[1..], from);
    }
  }

  lemma BuiltAppendOK(members: set<NodeId>, p: Peer, h: History, i: NodeId, to: NodeId)
    requires PeerOK(members, p, h, i) && p.role == Leader && to in members && to != i
    ensures AppendOK(members, h, BuildAppend(p, i, to))
    ensures var a := BuildAppend(p, i, to); a.prevIndex + |a.entries| == |p.log| && a.term == p.currentTerm
  {
    hide Rooted, Backed, Mirror, CandidateOK, EntriesFrom;
    var next := Lookup(p.nextIndex, to, 1);
    EntriesFromIs(p.log, next, 0);
    SuffixIsSlice(p.log, next - 1);
  }

  lemma SuffixIsSlice(log: seq<LogEntry>, x: nat)
    requires x <= |log|
    ensures |log[x..]| == |log| - x && log[x..] == log[x..x + |log[x..]|]
  {
  }

  lemma ReplicateStep(members: set<NodeId>, ps: Peers, net: set<Message>, h: History, i: NodeId, to: NodeId)
    requires Inv(members, ps, net, h) && i in members && to in members && to != i
    requires ps[i].role == Leader
    ensures Inv(members, ps, net + {Append(BuildAppend(ps[i], i, to))}, h)
  {
    hide ReignsOK, VotesOK, BallotsOK, PeersOK, AcksBind, AcksHeld, ReignsBind, VotesBind, PeerOK;
    PeerOf(members, ps, h, i);
    BuiltAppendOK(members, ps[i], h, i, to);
  }

  /** A follower's new log loses nothing it shared with the sender's. */
  ghost predicate Retains(log: seq<LogEntry>, kept: seq<LogEntry>, sender: seq<LogEntry>) {
    forall k: nat | Agree(log, sender, k) :: Agree(kept, sender, k)
  }

  lemma PrefixGood(h: History, log: seq<LogEntry>, maxTerm: int, n: nat)
    requires GoodLog(h, log, maxTerm) && n <= |log|
    ensures GoodLog(h, log[..n], maxTerm)
  {
    forall x: nat | x < n
      ensures RootedAt(h, log[..n], x)
    {
      assert RootedAt(h, log, x);
    }
  }

  lemma RetainsAcked(members: set<NodeId>, ps: Peers, h: History, i: NodeId, t: nat, log: seq<LogEntry>)
    requires ps.Keys == members && i in members && ps[i].currentTerm == t && t in h.reigns
    requires ReignsOK(members, ps, h) && ReignsBind(members, ps, h)
    requires Retains(ps[i].log, log, h.reigns[t].log)
    ensures KeepsAcked(members, ps, h, i, log)
  {
    hide ReignsOK, Retains, Blocked;
    forall u: nat, k: nat | OwnEntry(h, u, k) && k <= Ack(h, u, i) && Agree(ps[i].log, h.reigns[u].log, k)
      ensures Agree(log, h.reigns[u].log, k) || Blocked(members, ps, h, u, k)
    {
      if u > t {
        NoAckAhead(members, ps, h, i, u);
      } else {
        if u < t {
          assert Holds(members, ps, h, u, k, h.reigns[t].log);
        }
        if Agree(h.reigns[t].log, h.reigns[u].log, k) {
          RetainsThrough(ps[i].log, log, h.reigns[t].log, h.reigns[u].log, k);
        }
      }
    }
  }

  lemma RetainsThrough(log: seq<LogEntry>, kept: seq<LogEntry>, sender: seq<LogEntry>, other: seq<LogEntry>, k: nat)
    requires Retains(log, kept, sender) && Agree(log, other, k) && Agree(sender, other, k)
    ensures Agree(kept, other, k)
  {
    assert Agree(log, sender, k);
  }

  /** What was committed is part of every later leader's log, so no leader's request cuts it. */
  lemma RetainsCommitted(members: set<NodeId>, ps: Peers, h: History, i: NodeId, t: nat, log: seq<LogEntry>, n: nat)
    requires ps.Keys == members && i in members && t in h.reigns
    requires ReignsBind(members, ps, h)
    requires Retains(ps[i].log, log, h.reigns[t].log)
    requires Backed(members, h, ps[i].log, n, t)
    ensures n <= |ps[i].log| ==> Agree(ps[i].log, log, n) && Backed(members, h, log, n, t)
  {
    if n > 0 {
      var u: nat, k: nat :| BackedBy(members, h, ps[i].log, n, t, u, k);
      if u < t {
        ChosenNotBlocked(members, ps, h, u, k);
        assert Holds(members, ps, h, u, k, h.reigns[t].log);
      }
      assert Agree(ps[i].log, h.reigns[t].log, n);
      assert BackedBy(members, h, log, n, t, u, k);
    }
  }

  lemma CutRetains(log: seq<LogEntry>, sender: seq<LogEntry>, upto: nat)
    requires upto <= |sender|
    ensures var cut := if Agree(log, sender, upto) then log else sender[..upto];
            Retains(log, cut, sender) && Agree(cut, sender, upto)
  {
  }

  lemma PrevAgrees(h: History, log: seq<LogEntry>, a: AppendRequest)
    requires Rooted(h, log) && a.term in h.reigns && Rooted(h, h.reigns[a.term].log)
    requires a.prevIndex <= |h.reigns[a.term].log|
    requires a.prevIndex > 0 ==> a.prevTerm == h.reigns[a.term].log[a.prevIndex - 1].term
    requires PrevMatches(log, a.prevIndex, a.prevTerm)
    ensures Matches(log, h.reigns[a.term].log) && Agree(log, h.reigns[a.term].log, a.prevIndex)
  {
    RootedLogsMatch(h, log, h.reigns[a.term].log);
    if a.prevIndex > 0 {
      assert Agree(log, h.reigns[a.term].log, a.prevIndex - 1 + 1);
    }
  }

  /** The request is from this term's leader, its place in that leader's log is checked, and
      so the loop has the outcome of MergeThenPutMirrors. */
  lemma StoreOutcome(members: set<NodeId>, p: Peer, h: History, a: AppendRequest)
    requires GoodLog(h, p.log, a.term) && Mirror(p.disk.rows, p.log)
    requires AppendOK(members, h, a) && GoodLog(h, h.reigns[a.term].log, a.term)
    requires PrevMatches(p.log, a.prevIndex, a.prevTerm)
    ensures var sender := h.reigns[a.term].log;
            var upto := a.prevIndex + |a.entries|;
            var s := StoreEntries(p, a.entries);
            && s.log == (if Agree(p.log, sender, upto) then p.log else sender[..upto])
            && Mirror(s.disk.rows, s.log)
            && s.disk.term == p.disk.term && s.disk.vote == p.disk.vote
            && Retains(p.log, s.log, sender)
            && Agree(s.log, sender, upto)
  {
    hide Rooted, Mirror, Agree, Retains, Matches, Backed, MergeEntries, MergeEntry, PutRows;
    var sender := h.reigns[a.term].log;
    PrevAgrees(h, p.log, a);
    MergeThenPutMirrors(p.log, p.disk.rows, sender, a.prevIndex, a.prevIndex + |a.entries|);
    CutRetains(p.log, sender, a.prevIndex + |a.entries|);
  }

  function WithAck(h: History, t: nat, i: NodeId, n: nat): History
    requires t in h.reigns
  {
    var r := h.reigns[t];
    var former := if i in r.acks then r.acks[i] else 0;
    h.(reigns := h.reigns[t := r.(acks := r.acks[i := if n > former then n else former])])
  }

  lemma WithAckChange(h: History, t: nat, i: NodeId, n: nat)
    requires t in h.reigns
    ensures var h' := WithAck(h, t, i, n);
            && LocalChange(h, h', i, t)
            && n <= Ack(h', t, i)
            && (Ack(h', t, i) == n || Ack(h', t, i) == Ack(h, t, i))
  {
  }

  lemma AckedFollowerOK(members: set<NodeId>, ps: Peers, h: History, i: NodeId, q: Peer, h': History)
    requires ps.Keys == members && i in members && PeerOK(members, ps[i], h, i) && q.role == Follower
    requires LocalChange(h, h', i, q.currentTerm) && h'.votes == h.votes && Grows(ps, h, ps[i := q], h')
    requires q == ps[i].(log := q.log, disk := q.disk, commitIndex := q.commitIndex, lastApplied := q.lastApplied, machine := q.machine)
    requires GoodLog(h, q.log, q.currentTerm) && Durable(q) && CommitOK(members, q, h)
    ensures PeerOK(members, q, h', i)
  {
    hide Grows, LocalChange, Durable;
    GoodLogStays(ps, h, ps[i := q], h', q.log, q.currentTerm, q.currentTerm);
    BackedStays(members, ps, h, ps[i := q], h', q.log, q.commitIndex, q.currentTerm, q.log, q.currentTerm);
  }

  lemma FollowerCommitOK(members: set<NodeId>, ps: Peers, h: History, i: NodeId, a: AppendRequest, s: Peer)
    requires ps.Keys == members && i in members && PeerOK(members, ps[i], h, i)
    requires AppendOK(members, h, a) && ReignsBind(members, ps, h) && a.term == ps[i].currentTerm
    requires s == ps[i].(log := s.log, disk := s.disk)
    requires Retains(ps[i].log, s.log, h.reigns[a.term].log)
    requires Agree(s.log, h.reigns[a.term].log, a.prevIndex + |a.entries|)
    ensures var q := if a.leaderCommit > s.commitIndex then ApplyPending(AdvanceFollowerCommit(s, a.leaderCommit)) else s;
            && q == s.(commitIndex := q.commitIndex, lastApplied := q.lastApplied, machine := q.machine)
            && CommitOK(members, q, h)
            && Agree(q.log, h.reigns[a.term].log, a.prevIndex + |a.entries|)
  {
    hide ReignsBind, PeerOK, Retains, Backed, ApplyPending;
    var p := ps[i];
    CommitOf(members, p, h, i);
    RetainsCommitted(members, ps, h, i, a.term, s.log, p.commitIndex);
    SamePrefix(p.log, s.log, p.commitIndex, p.lastApplied);
    if a.leaderCommit > s.commitIndex {
      AckedLength(s.log, h.reigns[a.term].log, a.prevIndex + |a.entries|, a.leaderCommit);
      BackedCopy(members, h, h.reigns[a.term].log, s.log, a.leaderCommit, a.term);
      ApplyPendingEffect(s.(commitIndex := a.leaderCommit));
    }
  }

  lemma CommitOf(members: set<NodeId>, p: Peer, h: History, i: NodeId)
    requires PeerOK(members, p, h, i)
    ensures CommitOK(members, p, h)
  {
  }

  lemma SamePrefix(a: seq<LogEntry>, b: seq<LogEntry>, n: nat, m: nat)
    requires Agree(a, b, n) && m <= n
    ensures m <= |a| && m <= |b| && a[..m] == b[..m]
  {
  }

  lemma AckedLength(a: seq<LogEntry>, b: seq<LogEntry>, n: nat, m: nat)
    requires Agree(a, b, n) && m <= n
    ensures Agree(a, b, m)
  {
  }

  lemma BackedCopy(members: set<NodeId>, h: History, log: seq<LogEntry>, log': seq<LogEntry>, n: nat, maxTerm: nat)
    requires Backed(members, h, log, n, maxTerm) && Agree(log', log, n)
    ensures Backed(members, h, log', n, maxTerm)
  {
    if n > 0 {
      var u: nat, k: nat :| BackedBy(members, h, log, n, maxTerm, u, k);
      assert BackedBy(members, h, log', n, maxTerm, u, k);
    }
  }

  lemma StoredIsLocal(members: set<NodeId>, ps: Peers, h: History, i: NodeId, q: Peer, h': History, n: nat)
    requires ps.Keys == members && i in members && q.currentTerm == ps[i].currentTerm && q.votedFor == ps[i].votedFor
    requires q.currentTerm in h.reigns && h' == WithAck(h, q.currentTerm, i, n)
    requires PeerOK(members, q, h', i) && KeepsAcked(members, ps, h, i, q.log)
    requires Agree(q.log, h.reigns[q.currentTerm].log, n)
    requires Retains(ps[i].log, q.log, h.reigns[q.currentTerm].log)
    requires AcksHeld(members, ps, h) && VotesOK(members, ps, h) && BallotsOK(members, ps, h)
    ensures LocalStep(members, ps, h, i, q, h')
  {
    WithAckChange(h, q.currentTerm, i, n);
    var v: (nat, NodeId) := (q.currentTerm, i);
    if v in h.votes {
      var b: (nat, NodeId) := (q.currentTerm, h.votes[v]);
      assert b in h.ballots && b.1 in members;
    }
  }

  /** What a follower looks like once it has stored a request's entries and its commit index. */
  ghost predicate Stored(members: set<NodeId>, p: Peer, h: History, a: AppendRequest, q: Peer)
    requires a.term in h.reigns
  {
    && q == p.(log := q.log, disk := q.disk, commitIndex := q.commitIndex, lastApplied := q.lastApplied, machine := q.machine)
    && Retains(p.log, q.log, h.reigns[a.term].log)
    && Agree(q.log, h.reigns[a.term].log, a.prevIndex + |a.entries|)
    && GoodLog(h, q.log, a.term)
    && Durable(q)
    && CommitOK(members, q, h)
  }

  function AcceptedPeer(p: Peer, a: AppendRequest): Peer {
    var s := StoreEntries(p, a.entries);
    if a.leaderCommit > s.commitIndex then ApplyPending(AdvanceFollowerCommit(s, a.leaderCommit)) else s
  }

  lemma AcceptedIsStored(members: set<NodeId>, ps: Peers, h: History, i: NodeId, a: AppendRequest)
    requires ps.Keys == members && i in members && PeerOK(members, ps[i], h, i)
    requires ReignsOK(members, ps, h) && ReignsBind(members, ps, h) && AppendOK(members, h, a)
    requires ps[i].currentTerm == a.term && PrevMatches(ps[i].log, a.prevIndex, a.prevTerm)
    ensures Stored(members, ps[i], h, a, AcceptedPeer(ps[i], a))
  {
    hide ReignsOK, ReignsBind, PeerOK, GoodLog, Mirror, Agree, Durable, CommitOK, Backed, Retains;
    var upto := a.prevIndex + |a.entries|;
    ReignLogGood(members, ps, h, a.term);
    PeerLog(members, ps[i], h, i);
    StoreOutcome(members, ps[i], h, a);
    var s := StoreEntries(ps[i], a.entries);
    FollowerCommitOK(members, ps, h, i, a, s);
    StoredLogGood(members, ps, h, i, a.term, upto, s.log);
    StoredDurable(members, ps[i], h, i, s, AcceptedPeer(ps[i], a));
  }

  lemma StoredStep(members: set<NodeId>, ps: Peers, net: set<Message>, h: History, i: NodeId, a: AppendRequest, q: Peer) returns (h': History)
    requires Inv(members, ps, net, h) && i in members
    requires AppendOK(members, h, a) && a.leader != i
    requires ps[i].role == Follower && ps[i].currentTerm == a.term
    requires Stored(members, ps[i], h, a, q)
    ensures Grows(ps, h, ps[i := q], h')
    ensures Inv(members, ps[i := q], net + {AppendReply(i, a, AppendResponse(a.term, true, a.prevIndex + |a.entries|))}, h')
  {
    hide ReignsOK, VotesOK, BallotsOK, PeersOK, AcksBind, AcksHeld, ReignsBind, VotesBind, NetOK, Grows, PeerOK, LocalChange, Retains;
    hide GoodLog, Agree, KeepsAcked, LocalStep, Durable, CommitOK, Backed;
    var upto := a.prevIndex + |a.entries|;
    PeerOf(members, ps, h, i);
    h' := WithAck(h, a.term, i, upto);
    WithAckChange(h, a.term, i, upto);
    LocalChangeGrows(members, ps, h, i, q, h');
    AckedFollowerOK(members, ps, h, i, q, h');
    RetainsAcked(members, ps, h, i, a.term, q.log);
    StoredIsLocal(members, ps, h, i, q, h', upto);
    AppendStays(members, ps, h, ps[i := q], h', a);
    var reply := AppendReply(i, a, AppendResponse(a.term, true, upto));
    SingleMessage(members, h', reply);
    LocalStepKeepsInv(members, ps, net, h, i, q, h', {reply});
  }

  lemma AcceptStep(members: set<NodeId>, ps: Peers, net: set<Message>, h: History, i: NodeId, a: AppendRequest) returns (h': History)
    requires Inv(members, ps, net, h) && i in members
    requires AppendOK(members, h, a) && a.leader != i
    requires ps[i].role == Follower && ps[i].currentTerm == a.term
    requires PrevMatches(ps[i].log, a.prevIndex, a.prevTerm)
    ensures var q := AcceptedPeer(ps[i], a);
            && q.currentTerm == a.term
            && Grows(ps, h, ps[i := q], h')
            && Inv(members, ps[i := q], net + {AppendReply(i, a, AppendResponse(a.term, true, a.prevIndex + |a.entries|))}, h')
            && Inv(members, ps[i := q], net, h')
  {
    hide ReignsOK, VotesOK, BallotsOK, PeersOK, AcksBind, AcksHeld, ReignsBind, VotesBind, NetOK, Grows, PeerOK, AppendOK, PrevMatches;
    hide GoodLog, Agree, Durable, CommitOK, Backed, Retains, AcceptedPeer;
    PeerOf(members, ps, h, i);
    RequestTerm(members, h, a);
    AcceptedIsStored(members, ps, h, i, a);
    var q := AcceptedPeer(ps[i], a);
    h' := StoredStep(members, ps, net, h, i, a, q);
    FewerMessages(members, ps[i := q], net, {AppendReply(i, a, AppendResponse(a.term, true, a.prevIndex + |a.entries|))}, h');
  }

  lemma RequestTerm(members: set<NodeId>, h: History, a: AppendRequest)
    requires AppendOK(members, h, a)
    ensures a.term in h.reigns
  {
  }

  lemma FewerMessages(members: set<NodeId>, ps: Peers, net: set<Message>, more: set<Message>, h: History)
    requires Inv(members, ps, net + more, h)
    ensures Inv(members, ps, net, h)
  {
    hide ReignsOK, VotesOK, BallotsOK, PeersOK, AcksBind, AcksHeld, ReignsBind, VotesBind;
  }

  lemma ReignLogGood(members: set<NodeId>, ps: Peers, h: History, t: nat)
    requires ps.Keys == members && ReignsOK(members, ps, h) && t in h.reigns
    ensures GoodLog(h, h.reigns[t].log, t)
  {
    assert ReignOK(members, ps, h, t);
  }

  lemma StoredLogGood(members: set<NodeId>, ps: Peers, h: History, i: NodeId, t: nat, upto: nat, log: seq<LogEntry>)
    requires ps.Keys == members && i in members && PeerOK(members, ps[i], h, i) && ps[i].currentTerm == t
    requires t in h.reigns && upto <= |h.reigns[t].log| && GoodLog(h, h.reigns[t].log, t)
    requires log == ps[i].log || log == h.reigns[t].log[..upto]
    ensures GoodLog(h, log, t)
  {
    PrefixGood(h, h.reigns[t].log, t, upto);
  }

  lemma StoredDurable(members: set<NodeId>, p: Peer, h: History, i: NodeId, s: Peer, q: Peer)
    requires PeerOK(members, p, h, i)
    requires s == p.(log := s.log, disk := s.disk)
    requires Mirror(s.disk.rows, s.log) && s.disk.term == p.disk.term && s.disk.vote == p.disk.vote
    requires q == s.(commitIndex := q.commitIndex, lastApplied := q.lastApplied, machine := q.machine)
    ensures Durable(q)
  {
  }

  lemma AcceptedIs(p: Peer, a: AppendRequest)
    requires a.term >= p.currentTerm && PrevMatches(p.log, a.prevIndex, a.prevTerm)
    ensures var q := AcceptedPeer(BecomeFollower(p, a.term, Some(a.leader)), a);
            var r := OnAppendEntries(p, a);
            && r.0 == q
            && (r.1.Some? ==> r.1.value == AppendResponse(q.currentTerm, true, a.prevIndex + |a.entries|))
  {
  }

  lemma AppendStep(members: set<NodeId>, ps: Peers, net: set<Message>, h: History, i: NodeId, a: AppendRequest) returns (h': History)
    requires Inv(members, ps, net, h) && i in members
    requires Append(a) in net && a.leader != i
    ensures var r := OnAppendEntries(ps[i], a);
            && Grows(ps, h, ps[i := r.0], h')
            && Inv(members, ps[i := r.0], if r.1.Some? then net + {AppendReply(i, a, r.1.value)} else net, h')
  {
    hide ReignsOK, VotesOK, BallotsOK, PeersOK, AcksBind, AcksHeld, ReignsBind, VotesBind, NetOK, Grows, PeerOK, Quiet, AcceptedPeer, GoodLog, Backed, StoreEntries;
    var r := OnAppendEntries(ps[i], a);
    PeerOf(members, ps, h, i);
    MessageOf(members, h, net, Append(a));
    if a.term < ps[i].currentTerm {
      h' := h;
      QuietSelf(members, ps, h, i);
      SingleMessage(members, h, AppendReply(i, a, r.1.value));
      QuietStep(members, ps, net, h, i, ps[i], {AppendReply(i, a, r.1.value)});
    } else {
      var s := BecomeFollower(ps[i], a.term, Some(a.leader));
      FollowerOK(members, ps, h, i, a.term, Some(a.leader));
      if !PrevMatches(s.log, a.prevIndex, a.prevTerm) {
        h' := h;
        SingleMessage(members, h, AppendReply(i, a, r.1.value));
        QuietStep(members, ps, net, h, i, s, {AppendReply(i, a, r.1.value)});
      } else {
        NoMessage(members, h);
        QuietStep(members, ps, net, h, i, s, {});
        assert net + {} == net;
        AcceptedIs(ps[i], a);
        h' := AcceptStep(members, ps[i := s], net, h, i, a);
        assert ps[i := s][i := r.0] == ps[i := r.0];
        GrowsTransitive(ps, h, ps[i := s], h, ps[i := r.0], h');
      }
    }
  }

  lemma AppendCrashStep(members: set<NodeId>, ps: Peers, net: set<Message>, h: History, i: NodeId, a: AppendRequest, n: nat)
    requires Inv(members, ps, net, h) && i in members && n <= |a.entries|
    requires Append(a) in net && a.leader != i
    ensures var q := OnAppendEntriesCrash(ps[i], a, n);
            Grows(ps, h, ps[i := q], h) && Inv(members, ps[i := q], net, h)
  {
    hide ReignsOK, VotesOK, BallotsOK, PeersOK, AcksBind, AcksHeld, ReignsBind, VotesBind, NetOK, Grows, PeerOK, Quiet, Retains;
    var q := OnAppendEntriesCrash(ps[i], a, n);
    PeerOf(members, ps, h, i);
    MessageOf(members, h, net, Append(a));
    NoMessage(members, h);
    assert net + {} == net;
    if a.term < ps[i].currentTerm {
      RestartOK(members, ps, h, i, ps[i].machine.placements.stored);
      QuietStep(members, ps, net, h, i, q, {});
    } else {
      var s := BecomeFollower(ps[i], a.term, Some(a.leader));
      FollowerOK(members, ps, h, i, a.term, Some(a.leader));
      QuietStep(members, ps, net, h, i, s, {});
      PeerOf(members, ps[i := s], h, i);
      if !PrevMatches(s.log, a.prevIndex, a.prevTerm) {
        RestartOK(members, ps[i := s], h, i, ps[i].machine.placements.stored);
        QuietStep(members, ps[i := s], net, h, i, q, {});
      } else {
        TornAppendStep(members, ps[i := s], net, h, i, a, n, q);
      }
      assert ps[i := s][i := q] == ps[i := q];
      GrowsTransitive(ps, h, ps[i := s], h, ps[i := q], h);
    }
  }

  lemma TornAppendStep(members: set<NodeId>, ps: Peers, net: set<Message>, h: History, i: NodeId, a: AppendRequest, n: nat, q: Peer)
    requires Inv(members, ps, net, h) && i in members && n <= |a.entries|
    requires AppendOK(members, h, a) && ps[i].currentTerm == a.term
    requires PrevMatches(ps[i].log, a.prevIndex, a.prevTerm)
    requires q == Boot(ps[i].disk.(rows := MergeEntries(Merged(ps[i].log, ps[i].disk.rows), a.entries[..n]).rows), q.machine.placements.stored)
    ensures Grows(ps, h, ps[i := q], h) && Inv(members, ps[i := q], net, h)
  {
    hide ReignsOK, VotesOK, BallotsOK, PeersOK, AcksBind, AcksHeld, ReignsBind, VotesBind, NetOK, Grows, PeerOK, Retains, GoodLog, Mirror, MergeEntries, SortedRows, PrevMatches, Backed;
    PeerOf(members, ps, h, i);
    ReignLogGood(members, ps, h, a.term);
    TornLog(members, ps[i], h, i, a, n, q);
    TornPeerOK(members, ps[i], h, i, q);
    RetainsAcked(members, ps, h, i, a.term, q.log);
    TornIsLocal(members, ps, h, i, q);
    NoMessage(members, h);
    LocalStepKeepsInv(members, ps, net, h, i, q, h, {});
    assert net + {} == net;
  }

  lemma TornLog(members: set<NodeId>, p: Peer, h: History, i: NodeId, a: AppendRequest, n: nat, q: Peer)
    requires n <= |a.entries|
    requires PeerOK(members, p, h, i) && AppendOK(members, h, a) && GoodLog(h, h.reigns[a.term].log, a.term)
    requires PrevMatches(p.log, a.prevIndex, a.prevTerm)
    requires q == Boot(p.disk.(rows := MergeEntries(Merged(p.log, p.disk.rows), a.entries[..n]).rows), q.machine.placements.stored)
    ensures q.log <= p.log && Mirror(q.disk.rows, q.log)
    ensures Retains(p.log, q.log, h.reigns[a.term].log)
  {
    hide Rooted, Mirror, Agree, Matches, Backed, MergeEntries, MergeEntry, Retains;
    PeerLog(members, p, h, i);
    var sender := h.reigns[a.term].log;
    PrevAgrees(h, p.log, a);
    assert a.entries[..n] == sender[a.prevIndex..a.prevIndex + n];
    MergeRowsAlone(p.log, p.disk.rows, sender, a.prevIndex, a.prevIndex + n);
    var keep: nat :| keep <= |p.log| && Mirror(q.disk.rows, p.log[..keep])
      && forall k: nat | Agree(p.log, sender, k) :: k <= keep;
    SortedRowsOfMirror(q.disk.rows, p.log[..keep]);
    KeptRetains(p.log, sender, keep);
  }

  lemma KeptRetains(log: seq<LogEntry>, sender: seq<LogEntry>, keep: nat)
    requires keep <= |log| && forall k: nat | Agree(log, sender, k) :: k <= keep
    ensures Retains(log, log[..keep], sender)
  {
  }

  lemma TornPeerOK(members: set<NodeId>, p: Peer, h: History, i: NodeId, q: Peer)
    requires PeerOK(members, p, h, i)
    requires q == Boot(q.disk, q.machine.placements.stored) && q.disk.term == p.disk.term && q.disk.vote == p.disk.vote
    requires q.log <= p.log && Mirror(q.disk.rows, q.log)
    ensures PeerOK(members, q, h, i) && q.currentTerm == p.currentTerm && q.votedFor == p.votedFor
  {
    PrefixGood(h, p.log, p.currentTerm, |q.log|);
    assert q.log == p.log[..|q.log|];
    assert q.log[..0] == [];
  }

  lemma TornIsLocal(members: set<NodeId>, ps: Peers, h: History, i: NodeId, q: Peer)
    requires ps.Keys == members && i in members && q.currentTerm == ps[i].currentTerm && q.votedFor == ps[i].votedFor
    requires q.currentTerm in h.reigns
    requires PeerOK(members, q, h, i) && KeepsAcked(members, ps, h, i, q.log)
    requires Retains(ps[i].log, q.log, h.reigns[q.currentTerm].log)
    requires AcksHeld(members, ps, h) && VotesOK(members, ps, h) && BallotsOK(members, ps, h)
    ensures LocalStep(members, ps, h, i, q, h)
  {
    assert LocalChange(h, h, i, q.currentTerm);
    var v: (nat, NodeId) := (q.currentTerm, i);
    if v in h.votes {
      var b: (nat, NodeId) := (q.currentTerm, h.votes[v]);
      assert b in h.ballots && b.1 in members;
    }
  }

  /** The bookkeeping half of folding a reply in, before commits are counted. */
  function Bookkeep(s: Peer, from: NodeId, next: Option<nat>, matched: Option<nat>): Peer {
    s.(matchIndex := if matched.Some? then s.matchIndex[from := matched.value] else s.matchIndex,
       nextIndex := if next.Some? then s.nextIndex[from := next.value] else s.nextIndex)
  }

  lemma BookkeepOK(members: set<NodeId>, ps: Peers, h: History, i: NodeId, from: NodeId, next: Option<nat>, matched: Option<nat>)
    requires ps.Keys == members && i in members && PeerOK(members, ps[i], h, i) && ps[i].role == Leader
    requires from in members && from != i && (next.Some? ==> 1 <= next.value <= |ps[i].log| + 1)
    requires matched.Some? ==> matched.value <= Ack(h, ps[i].currentTerm, from)
    ensures Quiet(members, ps, h, i, Bookkeep(ps[i], from, next, matched))
  {
    var p := ps[i];
    var q := Bookkeep(p, from, next, matched);
    BookkeepLeader(members, p, h, i, from, next, matched);
    SameBooksOtherwise(members, p, h, i, q);
  }

  lemma BookkeepLeader(members: set<NodeId>, p: Peer, h: History, i: NodeId, from: NodeId, next: Option<nat>, matched: Option<nat>)
    requires LeaderOK(members, p, h, i) && from != i && (next.Some? ==> 1 <= next.value <= |p.log| + 1)
    requires matched.Some? ==> matched.value <= Ack(h, p.currentTerm, from)
    ensures LeaderOK(members, Bookkeep(p, from, next, matched), h, i)
  {
  }

  lemma SameBooksOtherwise(members: set<NodeId>, p: Peer, h: History, i: NodeId, q: Peer)
    requires PeerOK(members, p, h, i) && p.role == Leader
    requires q == p.(matchIndex := q.matchIndex, nextIndex := q.nextIndex) && LeaderOK(members, q, h, i)
    ensures PeerOK(members, q, h, i)
  {
  }

  lemma MatchedIs(members: set<NodeId>, h: History, a: AppendRequest)
    requires AppendOK(members, h, a) && Indexed(h.reigns[a.term].log)
    ensures (if a.entries != [] then a.entries[|a.entries| - 1].index else a.prevIndex) == a.prevIndex + |a.entries|
  {
  }

  lemma MatchedStep(members: set<NodeId>, ps: Peers, net: set<Message>, h: History, i: NodeId, from: NodeId, upto: nat, next: Option<nat>)
    requires Inv(members, ps, net, h) && i in members && from in members && from != i
    requires ps[i].role == Leader && upto <= |ps[i].log|
    requires upto <= Ack(h, ps[i].currentTerm, from) && (next.Some? ==> next.value == upto + 1)
    ensures var q := AdvanceCommit(Bookkeep(ps[i], from, next, Some(upto)), members - {i});
            Grows(ps, h, ps[i := q], h) && Inv(members, ps[i := q], net, h)
  {
    hide ReignsOK, VotesOK, BallotsOK, PeersOK, AcksBind, AcksHeld, ReignsBind, VotesBind, NetOK, Grows, PeerOK, Quiet, AdvanceCommit, Bookkeep;
    PeerOf(members, ps, h, i);
    NoMessage(members, h);
    assert net + {} == net;
    var s := Bookkeep(ps[i], from, next, Some(upto));
    var q := AdvanceCommit(s, members - {i});
    BookkeepOK(members, ps, h, i, from, next, Some(upto));
    QuietStep(members, ps, net, h, i, s, {});
    PeerOf(members, ps[i := s], h, i);
    BookkeepRole(ps[i], from, next, Some(upto));
    AdvanceCommitOK(members, ps[i := s], h, i);
    QuietStep(members, ps[i := s], net, h, i, q, {});
    assert ps[i := s][i := q] == ps[i := q];
    GrowsTransitive(ps, h, ps[i := s], h, ps[i := q], h);
  }

  lemma BookkeepRole(s: Peer, from: NodeId, next: Option<nat>, matched: Option<nat>)
    ensures Bookkeep(s, from, next, matched).role == s.role
  {
  }

  lemma AppendReplyStep(members: set<NodeId>, ps: Peers, net: set<Message>, h: History, i: NodeId, from: NodeId, a: AppendRequest, r: AppendResponse)
    requires Inv(members, ps, net, h) && i in members
    requires AppendReply(from, a, r) in net && a.leader == i
    requires r.term > ps[i].currentTerm || (ps[i].role == Leader && ps[i].currentTerm == a.term)
    ensures var q := OnAppendReply(ps[i], members - {i}, from, a, r);
            Grows(ps, h, ps[i := q], h) && Inv(members, ps[i := q], net, h)
  {
    hide ReignsOK, VotesOK, BallotsOK, PeersOK, AcksBind, AcksHeld, ReignsBind, VotesBind, NetOK, Grows, PeerOK, Quiet;
    var q := OnAppendReply(ps[i], members - {i}, from, a, r);
    PeerOf(members, ps, h, i);
    MessageOf(members, h, net, AppendReply(from, a, r));
    NoMessage(members, h);
    assert net + {} == net;
    if r.term > ps[i].currentTerm {
      FollowerOK(members, ps, h, i, r.term, None);
      QuietStep(members, ps, net, h, i, q, {});
    } else {
      ReignLogGood(members, ps, h, a.term);
      LeadersLog(members, ps[i], h, i);
      MatchedIs(members, h, a);
      if r.success {
        MatchedStep(members, ps, net, h, i, from, a.prevIndex + |a.entries|, if a.entries != [] then Some(a.prevIndex + |a.entries| + 1) else None);
      } else if a.prevIndex > 0 {
        BookkeepOK(members, ps, h, i, from, Some(a.prevIndex), None);
        QuietStep(members, ps, net, h, i, q, {});
      } else {
        QuietSelf(members, ps, h, i);
        QuietStep(members, ps, net, h, i, q, {});
      }
    }
  }

  lemma PeerLog(members: set<NodeId>, p: Peer, h: History, i: NodeId)
    requires PeerOK(members, p, h, i)
    ensures GoodLog(h, p.log, p.currentTerm) && Mirror(p.disk.rows, p.log)
  {
  }

  lemma LeadersLog(members: set<NodeId>, p: Peer, h: History, i: NodeId)
    requires PeerOK(members, p, h, i) && p.role == Leader
    ensures p.currentTerm in h.reigns && p.log == h.reigns[p.currentTerm].log
  {
  }

  // ----- all steps -----

  lemma RestartStep(members: set<NodeId>, ps: Peers, net: set<Message>, h: History, i: NodeId, stored: map<BlockId, P.Stored>)
    requires Inv(members, ps, net, h) && i in members
    ensures var q := Boot(ps[i].disk, stored);
            Grows(ps, h, ps[i := q], h) && Inv(members, ps[i := q], net, h)
  {
    hide ReignsOK, VotesOK, BallotsOK, PeersOK, AcksBind, AcksHeld, ReignsBind, VotesBind, NetOK, Grows, PeerOK, Quiet, Boot;
    PeerOf(members, ps, h, i);
    RestartOK(members, ps, h, i, stored);
    NoMessage(members, h);
    QuietStep(members, ps, net, h, i, Boot(ps[i].disk, stored), {});
    assert net + {} == net;
  }

  /** A handler that keeps the invariant keeps it when it dies while applying. */
  lemma InterruptedStep(members: set<NodeId>, ps: Peers, net: set<Message>, h: History, i: NodeId, r: Peer, h': History, n: nat)
    requires i in members && i in ps && Grows(ps, h, ps[i := r], h') && Inv(members, ps[i := r], net, h')
    ensures var q := Interrupted(ps[i], r, n);
            Grows(ps, h, ps[i := q], h') && Inv(members, ps[i := q], net, h')
  {
    hide Inv, Grows, Boot, StoreAfter;
    var q := Interrupted(ps[i], r, n);
    RestartStep(members, ps[i := r], net, h', i, StoreAfter(ps[i], r.log, n));
    assert ps[i := r][i := q] == ps[i := q];
    GrowsTransitive(ps, h, ps[i := r], h', ps[i := q], h');
  }

  lemma VoteCrashStep(members: set<NodeId>, ps: Peers, net: set<Message>, h: History, i: NodeId, term: nat)
    requires Inv(members, ps, net, h) && i in members
    ensures var q := OnRequestVoteCrash(ps[i], term);
            Grows(ps, h, ps[i := q], h) && Inv(members, ps[i := q], net, h)
  {
    hide ReignsOK, VotesOK, BallotsOK, PeersOK, AcksBind, AcksHeld, ReignsBind, VotesBind, NetOK, Grows, PeerOK, Quiet, Boot;
    if term > ps[i].currentTerm {
      PeerOf(members, ps, h, i);
      NoMessage(members, h);
      var s := BecomeFollower(ps[i], term, None);
      FollowerOK(members, ps, h, i, term, None);
      QuietStep(members, ps, net, h, i, s, {});
      assert net + {} == net;
      RestartStep(members, ps[i := s], net, h, i, ps[i].machine.placements.stored);
      var q := Boot(s.disk, ps[i].machine.placements.stored);
      assert ps[i := s][i := q] == ps[i := q];
      GrowsTransitive(ps, h, ps[i := s], h, ps[i := q], h);
    } else {
      RestartStep(members, ps, net, h, i, ps[i].machine.placements.stored);
    }
  }

  lemma StepKeepsInv(members: set<NodeId>, c: Cluster, h: History, s: Step) returns (h': History)
    requires Inv(members, c.peers, c.net, h)
    requires Enabled(c, s) && Timely(c, s)
    ensures Grows(c.peers, h, Next(c, s).peers, h')
    ensures Inv(members, Next(c, s).peers, Next(c, s).net, h')
  {
    hide ReignsOK, VotesOK, BallotsOK, PeersOK, AcksBind, AcksHeld, ReignsBind, VotesBind, NetOK, Grows, PeerOK, Quiet;
    hide OnRequestVote, OnRequestVoteCrash, OnVoteReply, ConcludeElection, Propose, BuildAppend, OnAppendEntries, OnAppendEntriesCrash, OnAppendReply, Boot, Interrupted;
    var ps, net := c.peers, c.net;
    h' := h;
    assert Others(c, s.i) == members - {s.i};
    match s
    case Timeout(i) =>
      if ps[i].role != Leader {
        h' := TimeoutStep(members, ps, net, h, i);
      } else {
        StillStep(members, ps, net, h, i);
      }
    case ReceiveVoteRequest(i, vote) => h' := VoteRequestStep(members, ps, net, h, i, vote);
    case ReceiveVoteReply(i, from, answer) => VoteReplyStep(members, ps, net, h, i, from, Some(answer));
    case ReceiveVoteRequestAndCrash(i, vote) => VoteCrashStep(members, ps, net, h, i, vote.term);
    case VoterUnreachable(i, from) => VoteReplyStep(members, ps, net, h, i, from, None);
    case Conclude(i) => h' := ConcludeStep(members, ps, net, h, i);
    case ClientPropose(i, command) => h' := ProposeStep(members, ps, net, h, i, command);
    case ClientProposeAndCrash(i, command, applied) =>
      h' := ProposeStep(members, ps, net, h, i, command);
      InterruptedStep(members, ps, net, h, i, Propose(ps[i], members - {i}, command), h', applied);
    case Replicate(i, to) =>
      ReplicateStep(members, ps, net, h, i, to);
      StillGrows(ps, h);
    case ReceiveAppend(i, append) => h' := AppendStep(members, ps, net, h, i, append);
    case ReceiveAppendAndCrash(i, append, point) =>
      if point.Merging? {
        AppendCrashStep(members, ps, net, h, i, append, point.merged);
      } else {
        var r := OnAppendEntries(ps[i], append);
        h' := AppendStep(members, ps, net, h, i, append);
        if r.1.Some? {
          FewerMessages(members, ps[i := r.0], net, {AppendReply(i, append, r.1.value)}, h');
        }
        InterruptedStep(members, ps, net, h, i, r.0, h', point.applied);
      }
    case ReceiveAppendReply(i, from, append, result) => AppendReplyStep(members, ps, net, h, i, from, append, result);
    case ReceiveAppendReplyAndCrash(i, from, append, result, applied) =>
      AppendReplyStep(members, ps, net, h, i, from, append, result);
      InterruptedStep(members, ps, net, h, i, OnAppendReply(ps[i], members - {i}, from, append, result), h, applied);
    case CrashRestart(i) => RestartStep(members, ps, net, h, i, ps[i].machine.placements.stored);
  }

  lemma StillGrows(ps: Peers, h: History)
    ensures Grows(ps, h, ps, h)
  {
  }

  lemma StillStep(members: set<NodeId>, ps: Peers, net: set<Message>, h: History, i: NodeId)
    requires i in ps
    ensures ps[i := ps[i]] == ps && Grows(ps, h, ps, h)
  {
  }
}
