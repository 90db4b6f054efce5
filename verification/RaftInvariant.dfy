/** What every reachable cluster satisfies, stated against a ghost history of elections,
    votes and acknowledgements. */
module RaftInvariant {
  import opened Metadata
  import opened RaftLog
  import opened RaftPeer
  import opened RaftCluster

  /** A won election: who won, the log that leader built in this term, and for each peer the
      longest prefix of it the peer has acknowledged while in this term. */
  datatype Reign = Reign(leader: NodeId, log: seq<LogEntry>, acks: map<NodeId, nat>)

  /** votes: who each peer voted for in each term.  ballots: the log each candidate stood with. */
  datatype History = History(
    reigns: map<nat, Reign>,
    votes: map<(nat, NodeId), NodeId>,
    ballots: map<(nat, NodeId), seq<LogEntry>>)

  type Peers = map<NodeId, Peer>

  // ----- quorums -----

  ghost predicate Quorum(members: set<NodeId>, q: set<NodeId>) {
    q <= members && 2 * |q| > |members|
  }

  lemma QuorumsMeet(members: set<NodeId>, q1: set<NodeId>, q2: set<NodeId>) returns (p: NodeId)
    requires Quorum(members, q1) && Quorum(members, q2)
    ensures p in q1 && p in q2
  {
    SubsetSize(q1 + q2, members);
    assert |q1 + q2| == |q1| + |q2| - |q1 * q2|;
    p :| p in q1 * q2;
  }

  lemma SubsetSize(a: set<NodeId>, b: set<NodeId>)
    requires a <= b
    ensures |a| <= |b|
  {
    assert b == a + (b - a);
  }

  // ----- history -----

  ghost function Ack(h: History, t: nat, p: NodeId): nat {
    if t in h.reigns && p in h.reigns[t].acks then h.reigns[t].acks[p] else 0
  }

  /** Position k of term t's log is an entry created in term t. */
  ghost predicate OwnEntry(h: History, t: nat, k: nat) {
    t in h.reigns && 1 <= k <= |h.reigns[t].log| && h.reigns[t].log[k - 1].term == t
  }

  ghost predicate AckedBy(h: History, t: nat, k: nat, q: set<NodeId>) {
    forall p | p in q :: Ack(h, t, p) >= k
  }

  /** Index k was committed by counting in term t. */
  ghost predicate Chosen(members: set<NodeId>, h: History, t: nat, k: nat) {
    OwnEntry(h, t, k) && exists q :: Quorum(members, q) && AckedBy(h, t, k, q)
  }

  ghost predicate Blocks(ps: Peers, h: History, t: nat, k: nat, q: set<NodeId>) {
    forall p | p in q :: p in ps && ps[p].currentTerm > t && Ack(h, t, p) < k
  }

  /** A quorum has left term t without acknowledging k, so k can never be chosen in t. */
  ghost predicate Blocked(members: set<NodeId>, ps: Peers, h: History, t: nat, k: nat) {
    exists q :: Quorum(members, q) && Blocks(ps, h, t, k, q)
  }

  lemma ChosenNotBlocked(members: set<NodeId>, ps: Peers, h: History, t: nat, k: nat)
    requires Chosen(members, h, t, k)
    ensures !Blocked(members, ps, h, t, k)
  {
    if Blocked(members, ps, h, t, k) {
      var q1 :| Quorum(members, q1) && AckedBy(h, t, k, q1);
      var q2 :| Quorum(members, q2) && Blocks(ps, h, t, k, q2);
      var p := QuorumsMeet(members, q1, q2);
      assert false;
    }
  }

  /** The log has the first k entries of term t's log, or those can never be chosen in t. */
  ghost predicate Holds(members: set<NodeId>, ps: Peers, h: History, t: nat, k: nat, log: seq<LogEntry>)
    requires t in h.reigns
  {
    Agree(log, h.reigns[t].log, k) || Blocked(members, ps, h, t, k)
  }

  // ----- logs -----

  ghost predicate Ordered(log: seq<LogEntry>, maxTerm: int) {
    && Indexed(log)
    && (forall x | 0 <= x < |log| :: 1 <= log[x].term <= maxTerm)
    && (forall x, y | 0 <= x < y < |log| :: log[x].term <= log[y].term)
  }

  /** The entry at x, and all below it, come from the log of the leader of the entry's term. */
  ghost predicate RootedAt(h: History, log: seq<LogEntry>, x: nat)
    requires x < |log|
  {
    log[x].term in h.reigns && Agree(log, h.reigns[log[x].term].log, x + 1)
  }

  ghost predicate Rooted(h: History, log: seq<LogEntry>) {
    forall x: nat {:trigger RootedAt(h, log, x)} | x < |log| :: RootedAt(h, log, x)
  }

  ghost predicate GoodLog(h: History, log: seq<LogEntry>, maxTerm: int) {
    Ordered(log, maxTerm) && Rooted(h, log)
  }

  lemma RootedLogsMatch(h: History, a: seq<LogEntry>, b: seq<LogEntry>)
    requires Rooted(h, a) && Rooted(h, b)
    ensures Matches(a, b)
  {
    forall x | 0 <= x < |a| && x < |b| && a[x].term == b[x].term
      ensures Agree(a, b, x + 1)
    {
      assert RootedAt(h, a, x) && RootedAt(h, b, x);
    }
  }

  // ----- the invariant -----

  ghost predicate Elected(members: set<NodeId>, h: History, t: nat)
    requires t in h.reigns
  {
    exists q :: Quorum(members, q) && VotedFor(h, t, q, h.reigns[t].leader)
  }

  ghost predicate VotedFor(h: History, t: nat, q: set<NodeId>, leader: NodeId) {
    forall p | p in q :: (t, p) in h.votes && h.votes[(t, p)] == leader
  }

  ghost predicate ReignOK(members: set<NodeId>, ps: Peers, h: History, t: nat)
    requires t in h.reigns && ps.Keys == members
  {
    var r := h.reigns[t];
    && r.leader in members
    && t <= ps[r.leader].currentTerm
    && GoodLog(h, r.log, t)
    && Elected(members, h, t)
    && r.acks.Keys <= members
    && forall p | p in r.acks :: r.acks[p] <= |r.log| && t <= ps[p].currentTerm
  }

  ghost predicate ReignsOK(members: set<NodeId>, ps: Peers, h: History)
    requires ps.Keys == members
  {
    forall t | t in h.reigns :: ReignOK(members, ps, h, t)
  }

  ghost predicate VotesOK(members: set<NodeId>, ps: Peers, h: History)
    requires ps.Keys == members
  {
    forall v | v in h.votes ::
      && v.1 in members
      && v.0 <= ps[v.1].currentTerm
      && (v.0 == ps[v.1].currentTerm ==> ps[v.1].votedFor == Some(h.votes[v]))
      && (v.0, h.votes[v]) in h.ballots
  }

  ghost predicate BallotsOK(members: set<NodeId>, ps: Peers, h: History)
    requires ps.Keys == members
  {
    forall b | b in h.ballots ::
      b.1 in members && b.0 <= ps[b.1].currentTerm && GoodLog(h, h.ballots[b], b.0 - 1)
  }

  ghost predicate Durable(p: Peer) {
    p.disk.term == p.currentTerm && p.disk.vote == p.votedFor && Mirror(p.disk.rows, p.log)
  }

  ghost predicate LeaderOK(members: set<NodeId>, p: Peer, h: History, i: NodeId) {
    var t := p.currentTerm;
    && t >= 1
    && t in h.reigns
    && h.reigns[t].leader == i
    && p.log == h.reigns[t].log
    && Ack(h, t, i) == |p.log|
    && (forall j | j in members && j != i :: Lookup(p.matchIndex, j, 0) <= Ack(h, t, j))
    && (forall j | j in members && j != i :: 1 <= Lookup(p.nextIndex, j, 1) <= |p.log| + 1)
  }

  ghost function Supporters(members: set<NodeId>, h: History, t: nat, i: NodeId, pending: set<NodeId>): set<NodeId> {
    set p | p in members && p !in pending && (t, p) in h.votes && h.votes[(t, p)] == i
  }

  ghost predicate CandidateOK(members: set<NodeId>, p: Peer, h: History, i: NodeId) {
    var t := p.currentTerm;
    && t >= 1
    && p.votedFor == Some(i)
    && (t in h.reigns ==> h.reigns[t].leader != i)
    && (p.poll.Some? ==>
          && p.poll.value.term == t
          && (t, i) in h.ballots && h.ballots[(t, i)] == p.log
          && p.votesReceived <= |Supporters(members, h, t, i, p.poll.value.pending)|)
  }

  ghost predicate PollOK(members: set<NodeId>, p: Peer, i: NodeId) {
    p.poll.Some? ==> p.poll.value.term <= p.currentTerm && p.poll.value.pending <= members - {i}
  }

  /** The first n entries are committed: they are part of what some term up to maxTerm chose. */
  ghost predicate Backed(members: set<NodeId>, h: History, log: seq<LogEntry>, n: nat, maxTerm: nat) {
    n == 0 || exists t: nat, k: nat :: BackedBy(members, h, log, n, maxTerm, t, k)
  }

  ghost predicate BackedBy(members: set<NodeId>, h: History, log: seq<LogEntry>, n: nat, maxTerm: nat, t: nat, k: nat) {
    t <= maxTerm && n <= k && Chosen(members, h, t, k) && Agree(log, h.reigns[t].log, n)
  }

  ghost predicate CommitOK(members: set<NodeId>, p: Peer, h: History) {
    && p.lastApplied <= p.commitIndex <= |p.log|
    && Backed(members, h, p.log, p.commitIndex, p.currentTerm)
  }

  ghost predicate PeerOK(members: set<NodeId>, p: Peer, h: History, i: NodeId) {
    && GoodLog(h, p.log, p.currentTerm)
    && Durable(p)
    && (p.votedFor.Some? ==> (p.currentTerm, i) in h.votes && h.votes[(p.currentTerm, i)] == p.votedFor.value)
    && PollOK(members, p, i)
    && (p.role == Leader ==> LeaderOK(members, p, h, i))
    && (p.role == Candidate ==> CandidateOK(members, p, h, i))
    && CommitOK(members, p, h)
  }

  ghost predicate PeersOK(members: set<NodeId>, ps: Peers, h: History)
    requires ps.Keys == members
  {
    forall i | i in members :: PeerOK(members, ps[i], h, i)
  }

  /** Acknowledging k in term t binds the peer's log for good, unless k is blocked. */
  ghost predicate AcksBind(members: set<NodeId>, ps: Peers, h: History)
    requires ps.Keys == members
  {
    forall t: nat, p, k: nat {:trigger OwnEntry(h, t, k), Ack(h, t, p)} |
      OwnEntry(h, t, k) && p in members && k <= Ack(h, t, p) :: Holds(members, ps, h, t, k, ps[p].log)
  }

  /** While a peer is still in term t, it holds all it has acknowledged in t. */
  ghost predicate AcksHeld(members: set<NodeId>, ps: Peers, h: History)
    requires ps.Keys == members
  {
    forall p | p in members && ps[p].currentTerm in h.reigns ::
      Agree(ps[p].log, h.reigns[ps[p].currentTerm].log, Ack(h, ps[p].currentTerm, p))
  }

  /** Leaders of later terms hold what earlier terms may have chosen. */
  ghost predicate ReignsBind(members: set<NodeId>, ps: Peers, h: History) {
    forall t: nat, t': nat, k: nat {:trigger OwnEntry(h, t, k), h.reigns[t']} |
      OwnEntry(h, t, k) && t' in h.reigns && t < t' :: Holds(members, ps, h, t, k, h.reigns[t'].log)
  }

  /** A vote was given only to a candidate holding what the voter had acknowledged. */
  ghost predicate VotesBind(members: set<NodeId>, ps: Peers, h: History) {
    forall t: nat, v, k: nat {:trigger OwnEntry(h, t, k), v in h.votes} |
      && OwnEntry(h, t, k) && v in h.votes && t < v.0 && k <= Ack(h, t, v.1)
      && (v.0, h.votes[v]) in h.ballots ::
        Holds(members, ps, h, t, k, h.ballots[(v.0, h.votes[v])])
  }

  ghost predicate AppendOK(members: set<NodeId>, h: History, a: AppendRequest) {
    && a.term in h.reigns
    && a.leader == h.reigns[a.term].leader
    && var log := h.reigns[a.term].log;
       && a.prevIndex + |a.entries| <= |log|
       && a.entries == log[a.prevIndex..a.prevIndex + |a.entries|]
       && (a.prevIndex > 0 ==> a.prevTerm == log[a.prevIndex - 1].term)
       && a.leaderCommit <= a.prevIndex + |a.entries|
       && Backed(members, h, log, a.leaderCommit, a.term)
  }

  ghost predicate MessageOK(members: set<NodeId>, h: History, m: Message) {
    match m
    case AskVote(v) =>
      && (v.term, v.candidate) in h.ballots
      && LastIndex(h.ballots[(v.term, v.candidate)]) == v.lastIndex
      && LastTerm(h.ballots[(v.term, v.candidate)]) == v.lastTerm
    case VoteReply(voter, v, answer) =>
      answer.granted ==> (v.term, voter) in h.votes && h.votes[(v.term, voter)] == v.candidate
    case Append(a) => AppendOK(members, h, a)
    case AppendReply(p, a, r) =>
      && AppendOK(members, h, a)
      && (r.success ==> r.term == a.term && p in members && p != a.leader && Ack(h, a.term, p) >= a.prevIndex + |a.entries|)
      && (!r.success ==> p in members && p != a.leader)
  }

  ghost predicate NetOK(members: set<NodeId>, h: History, net: set<Message>) {
    forall m | m in net :: MessageOK(members, h, m)
  }

  ghost predicate Inv(members: set<NodeId>, ps: Peers, net: set<Message>, h: History) {
    && ps.Keys == members
    && ReignsOK(members, ps, h)
    && VotesOK(members, ps, h)
    && BallotsOK(members, ps, h)
    && PeersOK(members, ps, h)
    && AcksBind(members, ps, h)
    && AcksHeld(members, ps, h)
    && ReignsBind(members, ps, h)
    && VotesBind(members, ps, h)
    && NetOK(members, h, net)
  }

  const NoHistory := History(map[], map[], map[])

  // ----- growth -----

  /** How peers and history may change from one state to a later one. */
  ghost predicate Grows(ps: Peers, h: History, ps': Peers, h': History) {
    && ps.Keys == ps'.Keys
    && (forall p | p in ps :: ps[p].currentTerm <= ps'[p].currentTerm)
    && (forall t | t in h.reigns :: t in h'.reigns && ReignGrows(h.reigns[t], h'.reigns[t]))
    && (forall v | v in h.votes :: v in h'.votes && h'.votes[v] == h.votes[v])
    && (forall b | b in h.ballots :: b in h'.ballots && h'.ballots[b] == h.ballots[b])
    && (forall t, p | p in ps :: Ack(h, t, p) <= Ack(h', t, p))
    && (forall t, p | p in ps && ps[p].currentTerm > t :: Ack(h, t, p) == Ack(h', t, p))
  }

  ghost predicate ReignGrows(r: Reign, r': Reign) {
    r.leader == r'.leader && Agree(r.log, r'.log, |r.log|)
  }

  lemma GrowsTransitive(a: Peers, ha: History, b: Peers, hb: History, c: Peers, hc: History)
    requires Grows(a, ha, b, hb) && Grows(b, hb, c, hc)
    ensures Grows(a, ha, c, hc)
  {
  }

  lemma BlockedStays(members: set<NodeId>, ps: Peers, h: History, ps': Peers, h': History, t: nat, k: nat)
    requires Grows(ps, h, ps', h') && ps.Keys == members
    requires Blocked(members, ps, h, t, k)
    ensures Blocked(members, ps', h', t, k)
  {
    var q :| Quorum(members, q) && Blocks(ps, h, t, k, q);
    assert Blocks(ps', h', t, k, q);
  }

  lemma ChosenStays(members: set<NodeId>, ps: Peers, h: History, ps': Peers, h': History, t: nat, k: nat)
    requires Grows(ps, h, ps', h') && ps.Keys == members
    requires Chosen(members, h, t, k)
    ensures Chosen(members, h', t, k)
  {
    var q :| Quorum(members, q) && AckedBy(h, t, k, q);
    assert AckedBy(h', t, k, q);
  }

  lemma HoldsStays(members: set<NodeId>, ps: Peers, h: History, ps': Peers, h': History, t: nat, k: nat, log: seq<LogEntry>, log': seq<LogEntry>)
    requires Grows(ps, h, ps', h') && ps.Keys == members
    requires OwnEntry(h, t, k)
    requires Holds(members, ps, h, t, k, log)
    requires Agree(log, h.reigns[t].log, k) ==> Agree(log', h.reigns[t].log, k) || Blocked(members, ps, h, t, k)
    ensures t in h'.reigns && Holds(members, ps', h', t, k, log')
  {
    if Blocked(members, ps, h, t, k) {
      BlockedStays(members, ps, h, ps', h', t, k);
    } else {
      assert ReignGrows(h.reigns[t], h'.reigns[t]);
    }
  }

  lemma BackedStays(members: set<NodeId>, ps: Peers, h: History, ps': Peers, h': History, log: seq<LogEntry>, n: nat, maxTerm: nat, log': seq<LogEntry>, maxTerm': nat)
    requires Grows(ps, h, ps', h') && ps.Keys == members
    requires Backed(members, h, log, n, maxTerm) && maxTerm <= maxTerm'
    requires Agree(log, log', n)
    ensures Backed(members, h', log', n, maxTerm')
  {
    if n > 0 {
      var t: nat, k: nat :| BackedBy(members, h, log, n, maxTerm, t, k);
      ChosenStays(members, ps, h, ps', h', t, k);
      assert ReignGrows(h.reigns[t], h'.reigns[t]);
      assert BackedBy(members, h', log', n, maxTerm', t, k);
    }
  }

  lemma GoodLogStays(ps: Peers, h: History, ps': Peers, h': History, log: seq<LogEntry>, maxTerm: int, maxTerm': int)
    requires Grows(ps, h, ps', h')
    requires GoodLog(h, log, maxTerm) && maxTerm <= maxTerm'
    ensures GoodLog(h', log, maxTerm')
  {
    forall x: nat | x < |log|
      ensures RootedAt(h', log, x)
    {
      assert RootedAt(h, log, x);
      assert ReignGrows(h.reigns[log[x].term], h'.reigns[log[x].term]);
    }
  }

  lemma MessageStays(members: set<NodeId>, ps: Peers, h: History, ps': Peers, h': History, m: Message)
    requires Grows(ps, h, ps', h') && ps.Keys == members
    requires MessageOK(members, h, m)
    ensures MessageOK(members, h', m)
  {
    match m
    case AskVote(v) =>
    case VoteReply(_, _, _) =>
    case Append(a) => AppendStays(members, ps, h, ps', h', a);
    case AppendReply(p, a, r) => AppendStays(members, ps, h, ps', h', a);
  }

  lemma AppendStays(members: set<NodeId>, ps: Peers, h: History, ps': Peers, h': History, a: AppendRequest)
    requires Grows(ps, h, ps', h') && ps.Keys == members
    requires AppendOK(members, h, a)
    ensures AppendOK(members, h', a)
  {
    var log, log' := h.reigns[a.term].log, h'.reigns[a.term].log;
    assert ReignGrows(h.reigns[a.term], h'.reigns[a.term]);
    BackedStays(members, ps, h, ps', h', log, a.leaderCommit, a.term, log', a.term);
    assert log'[a.prevIndex..a.prevIndex + |a.entries|] == log[a.prevIndex..a.prevIndex + |a.entries|];
  }

  lemma NetStays(members: set<NodeId>, ps: Peers, h: History, ps': Peers, h': History, net: set<Message>)
    requires Grows(ps, h, ps', h') && ps.Keys == members
    requires NetOK(members, h, net)
    ensures NetOK(members, h', net)
  {
    forall m | m in net
      ensures MessageOK(members, h', m)
    {
      MessageStays(members, ps, h, ps', h', m);
    }
  }
}
