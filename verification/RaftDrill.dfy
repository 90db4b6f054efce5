/** Segments of runs of the code as it stands, from which the runs of RaftLate and RaftLateReply
    are put together: an election, a proposal, a request and its answer. */
module RaftDrill {
  import opened Metadata
  import opened MetadataMachine
  import opened RaftLog
  import opened RaftPeer
  import opened RaftCluster
  import opened Order
  import opened Placement

  /** The states and steps of a run so far. */
  type Drill = (seq<Cluster>, seq<Step>)

  type Peers = map<NodeId, Peer>

  ghost function Net(r: Drill): set<Message> {
    if r.0 == [] then {} else r.0[|r.0| - 1].net
  }

  /** All steps are timely but, if `late` is one of them, that one. */
  ghost predicate TimelyBut(r: Drill, late: int) {
    |r.0| == |r.1| + 1 && forall k | 0 <= k < |r.1| && k != late :: Enabled(r.0[k], r.1[k]) && Timely(r.0[k], r.1[k])
  }

  /** The run has brought the peers to ps. */
  ghost predicate At(r: Drill, ps: Peers, late: int) {
    CodeRun(ps.Keys, r.0, r.1) && |r.0| == |r.1| + 1 && r.0[|r.1|].peers == ps && TimelyBut(r, late)
  }

  /** r' goes on from r by n steps. */
  ghost predicate Goes(r: Drill, r': Drill, n: nat) {
    && |r'.1| == |r.1| + n && r.1 <= r'.1 && Net(r) <= Net(r')
  }

  ghost predicate Same(ps: Peers, ps': Peers, but: set<NodeId>) {
    ps'.Keys == ps.Keys && forall n | n in ps && n !in but :: ps'[n] == ps[n]
  }

  lemma Take(r: Drill, ps: Peers, s: Step, late: int) returns (r': Drill)
    requires At(r, ps, late) && s.i in ps
    requires Enabled(Cluster(ps, Net(r)), s) && (Timely(Cluster(ps, Net(r)), s) || late == |r.1|)
    requires Next(Cluster(ps, Net(r)), s).peers.Keys == ps.Keys && Net(r) <= Next(Cluster(ps, Net(r)), s).net
    ensures At(r', Next(Cluster(ps, Net(r)), s).peers, late) && Goes(r, r', 1) && r'.1[|r.1|] == s
    ensures Net(r') == Next(Cluster(ps, Net(r)), s).net
  {
    hide Enabled, Timely, Next, Init;
    assert r.0[|r.1|] == Cluster(ps, Net(r));
    r' := (r.0 + [Next(r.0[|r.1|], s)], r.1 + [s]);
  }

  /** An idle peer with nothing committed. */
  ghost predicate Is(p: Peer, role: Role, term: nat, log: seq<LogEntry>) {
    && p.role == role && p.currentTerm == term && p.log == log
    && p.poll == None && p.commitIndex == 0 && p.lastApplied == 0
    && Indexed(log) && Mirror(p.disk.rows, log)
  }

  ghost predicate Idle(p: Peer) {
    Is(p, p.role, p.currentTerm, p.log)
  }

  function NewPeer(): Peer {
    Boot(EmptyDisk, map[])
  }

  lemma Start(members: set<NodeId>, late: int) returns (r: Drill, ps: Peers)
    ensures At(r, ps, late) && ps.Keys == members && r.1 == []
    ensures forall n | n in members :: Is(ps[n], Follower, 0, []) && ps[n].nextIndex == map[] && ps[n].matchIndex == map[]
  {
    hide Booted;
    ps := map n | n in members :: NewPeer();
    r := ([Cluster(ps, {})], []);
  }

  // ----- an election -----

  ghost predicate NewLeader(p: Peer, term: nat, log: seq<LogEntry>, peers: set<NodeId>) {
    && Is(p, Leader, term, log)
    && forall j | j in peers :: Lookup(p.nextIndex, j, 1) == |log| + 1 && Lookup(p.matchIndex, j, 0) == 0
  }

  /** A running candidate that has counted some votes. */
  ghost predicate Polling(p: Peer, req: VoteRequest, log: seq<LogEntry>, votes: nat, pending: set<NodeId>) {
    && p.role == Candidate && p.currentTerm == req.term && p.log == log && p.votesReceived == votes
    && p.commitIndex == 0 && p.lastApplied == 0 && Indexed(log) && Mirror(p.disk.rows, log)
    && p.poll.Some? && PollRequest(req.candidate, p.poll.value) == req && p.poll.value.pending == pending
  }

  /** What p asks for when it stands. */
  function Asking(p: Peer, i: NodeId): VoteRequest {
    VoteRequest(p.currentTerm + 1, i, LastIndex(p.log), LastTerm(p.log))
  }

  /** A peer that will grant its vote. */
  ghost predicate Willing(p: Peer, req: VoteRequest) {
    Idle(p) && p.currentTerm < req.term && IsLogUpToDate(req.lastIndex, req.lastTerm, LastIndex(p.log), LastTerm(p.log))
  }

  lemma Stands(p: Peer, i: NodeId, peers: set<NodeId>)
    requires Idle(p) && p.role != Leader
    ensures Polling(StartElection(p, i, peers), Asking(p, i), p.log, 1, peers)
  {
    hide Mirror, Indexed;
  }

  lemma Grants(p: Peer, req: VoteRequest)
    requires Willing(p, req)
    ensures OnRequestVote(p, req).1 == VoteResponse(req.term, true) && Is(OnRequestVote(p, req).0, Follower, req.term, p.log)
    ensures OnRequestVote(p, req).0.nextIndex == p.nextIndex && OnRequestVote(p, req).0.matchIndex == p.matchIndex
  {
    hide Mirror, Indexed;
  }

  lemma Counts(p: Peer, req: VoteRequest, log: seq<LogEntry>, votes: nat, pending: set<NodeId>, j: NodeId)
    requires Polling(p, req, log, votes, pending)
    ensures Polling(OnVoteReply(p, j, Some(VoteResponse(req.term, true))), req, log, votes + 1, pending - {j})
    ensures Polling(OnVoteReply(p, j, None), req, log, votes, pending - {j})
  {
    hide Mirror, Indexed;
  }

  lemma Wins(p: Peer, i: NodeId, peers: set<NodeId>, req: VoteRequest, log: seq<LogEntry>, votes: nat)
    requires Polling(p, req, log, votes, {}) && votes >= MajorityCount(|peers|)
    ensures NewLeader(ConcludeElection(p, i, peers), req.term, log, peers)
  {
    hide Mirror;
  }

  lemma StandStep(r: Drill, ps: Peers, i: NodeId, late: int) returns (r': Drill, ps': Peers, req: VoteRequest)
    requires At(r, ps, late) && i in ps && Idle(ps[i]) && ps[i].role != Leader
    ensures At(r', ps', late) && Goes(r, r', 1) && Same(ps, ps', {i}) && AskVote(req) in Net(r')
    ensures req == Asking(ps[i], i)
    ensures Polling(ps'[i], req, ps[i].log, 1, ps.Keys - {i})
  {
    hide At, StartElection, Polling, LastIndex, LastTerm;
    req := Asking(ps[i], i);
    Stands(ps[i], i, ps.Keys - {i});
    var q := StartElection(ps[i], i, ps.Keys - {i});
    PollOf(q, req, ps[i].log, 1, ps.Keys - {i});
    r' := Take(r, ps, Timeout(i), late);
    ps' := ps[i := q];
  }

  lemma PollOf(p: Peer, req: VoteRequest, log: seq<LogEntry>, votes: nat, pending: set<NodeId>)
    requires Polling(p, req, log, votes, pending)
    ensures p.poll.Some? && p.poll.value.pending == pending && PollRequest(req.candidate, p.poll.value) == req && p.currentTerm == req.term
  {
  }

  /** One peer is asked and its granted vote counted. */
  lemma AskOne(r: Drill, ps: Peers, i: NodeId, j: NodeId, req: VoteRequest, log: seq<LogEntry>, votes: nat, pending: set<NodeId>, late: int)
      returns (r': Drill, ps': Peers)
    requires At(r, ps, late) && i in ps && j in ps && i != j && req.candidate == i && AskVote(req) in Net(r)
    requires Polling(ps[i], req, log, votes, pending) && j in pending && Willing(ps[j], req)
    ensures At(r', ps', late) && Goes(r, r', 2) && Same(ps, ps', {i, j})
    ensures Polling(ps'[i], req, log, votes + 1, pending - {j}) && Is(ps'[j], Follower, req.term, ps[j].log)
    ensures ps'[j].nextIndex == ps[j].nextIndex && ps'[j].matchIndex == ps[j].matchIndex
  {
    hide At, OnRequestVote, OnVoteReply, Polling, Willing, Is;
    Grants(ps[j], req);
    PollOf(ps[i], req, log, votes, pending);
    var voted, answer := OnRequestVote(ps[j], req).0, VoteResponse(req.term, true);
    var r1 := Take(r, ps, ReceiveVoteRequest(j, req), late);
    var ps1 := ps[j := voted];
    r' := Take(r1, ps1, ReceiveVoteReply(i, j, answer), late);
    ps' := ps1[i := OnVoteReply(ps[i], j, Some(answer))];
    Counts(ps[i], req, log, votes, pending, j);
  }

  lemma SkipOne(r: Drill, ps: Peers, i: NodeId, j: NodeId, req: VoteRequest, log: seq<LogEntry>, votes: nat, pending: set<NodeId>, late: int)
      returns (r': Drill, ps': Peers)
    requires At(r, ps, late) && i in ps && Polling(ps[i], req, log, votes, pending) && j in pending
    ensures At(r', ps', late) && Goes(r, r', 1) && Same(ps, ps', {i}) && Polling(ps'[i], req, log, votes, pending - {j})
  {
    hide At, OnVoteReply, Polling;
    PollOf(ps[i], req, log, votes, pending);
    r' := Take(r, ps, VoterUnreachable(i, j), late);
    ps' := ps[i := OnVoteReply(ps[i], j, None)];
    Counts(ps[i], req, log, votes, pending, j);
  }

  /** The peers that have voted. */
  ghost predicate Voted(ps: Peers, ps': Peers, voters: seq<NodeId>, term: nat) {
    forall j | j in voters :: j in ps && j in ps' && Is(ps'[j], Follower, term, ps[j].log)
      && ps'[j].nextIndex == ps[j].nextIndex && ps'[j].matchIndex == ps[j].matchIndex
  }

  lemma {:induction false} AskAll(r: Drill, ps: Peers, i: NodeId, voters: seq<NodeId>, req: VoteRequest, log: seq<LogEntry>, late: int)
      returns (r': Drill, ps': Peers)
    requires At(r, ps, late) && i in ps && req.candidate == i && AskVote(req) in Net(r)
    requires Polling(ps[i], req, log, 1, ps.Keys - {i}) && NoDuplicates(voters) && i !in voters
    requires forall j | j in voters :: j in ps && Willing(ps[j], req)
    ensures At(r', ps', late) && Goes(r, r', 2 * |voters|) && Same(ps, ps', {i} + Elements(voters))
    ensures Polling(ps'[i], req, log, 1 + |voters|, ps.Keys - {i} - Elements(voters)) && Voted(ps, ps', voters, req.term)
  {
    hide At, Net, Polling, Willing, Is;
    if voters == [] {
      r', ps' := r, ps;
      assert ps.Keys - {i} - Elements(voters) == ps.Keys - {i};
      } else {
      var n := |voters| - 1;
      var before, j := voters[..n], voters[n];
      assert voters == before + [j];
      var r1, ps1 := AskAll(r, ps, i, before, req, log, late);
      assert j !in before && ps1[j] == ps[j];
      r', ps' := AskOne(r1, ps1, i, j, req, log, 1 + n, ps.Keys - {i} - Elements(before), late);
      assert ps.Keys - {i} - Elements(before) - {j} == ps.Keys - {i} - Elements(voters);
    }
  }

  lemma {:induction false} SkipAll(r: Drill, ps: Peers, i: NodeId, deaf: seq<NodeId>, req: VoteRequest, log: seq<LogEntry>, votes: nat, pending: set<NodeId>, late: int)
      returns (r': Drill, ps': Peers)
    requires At(r, ps, late) && i in ps && Polling(ps[i], req, log, votes, pending) && NoDuplicates(deaf) && Elements(deaf) <= pending
    ensures At(r', ps', late) && Goes(r, r', |deaf|) && Same(ps, ps', {i})
    ensures Polling(ps'[i], req, log, votes, pending - Elements(deaf))
  {
    hide At, Net, Polling;
    if deaf == [] {
      r', ps' := r, ps;
      assert pending - Elements(deaf) == pending;
      } else {
      var n := |deaf| - 1;
      var before, j := deaf[..n], deaf[n];
      assert deaf == before + [j];
      assert Elements(before) <= pending && j !in before;
      var r1, ps1 := SkipAll(r, ps, i, before, req, log, votes, pending, late);
      r', ps' := SkipOne(r1, ps1, i, j, req, log, votes, pending - Elements(before), late);
      assert pending - Elements(before) - {j} == pending - Elements(deaf);
    }
  }

  /** i stands and the voters grant their votes. */
  lemma Canvass(r: Drill, ps: Peers, i: NodeId, voters: seq<NodeId>, late: int) returns (r': Drill, ps': Peers)
    requires At(r, ps, late) && i in ps && Idle(ps[i]) && ps[i].role != Leader && i !in voters && NoDuplicates(voters)
    requires forall j | j in voters :: j in ps && Willing(ps[j], Asking(ps[i], i))
    ensures At(r', ps', late) && Goes(r, r', 1 + 2 * |voters|) && Same(ps, ps', {i} + Elements(voters)) && AskVote(Asking(ps[i], i)) in Net(r')
    ensures Polling(ps'[i], Asking(ps[i], i), ps[i].log, 1 + |voters|, ps.Keys - {i} - Elements(voters))
    ensures Voted(ps, ps', voters, ps[i].currentTerm + 1)
  {
    hide At, Net, Polling, Willing, Is, LastIndex, LastTerm;
    var r1, ps1, req := StandStep(r, ps, i, late);
    r', ps' := AskAll(r1, ps1, i, voters, req, ps[i].log, late);
  }

  /** After that the deaf cannot be reached, and i wins. */
  lemma Elect(r: Drill, ps: Peers, i: NodeId, voters: seq<NodeId>, deaf: seq<NodeId>, late: int) returns (r': Drill, ps': Peers)
    requires At(r, ps, late) && i in ps && Idle(ps[i]) && ps[i].role != Leader && i !in voters && NoDuplicates(voters)
    requires forall j | j in voters :: j in ps && Willing(ps[j], Asking(ps[i], i))
    requires NoDuplicates(deaf) && Elements(deaf) == ps.Keys - {i} - Elements(voters) && 1 + |voters| >= MajorityCount(|ps.Keys - {i}|)
    ensures At(r', ps', late) && Goes(r, r', 2 + 2 * |voters| + |deaf|) && Same(ps, ps', {i} + Elements(voters))
    ensures NewLeader(ps'[i], ps[i].currentTerm + 1, ps[i].log, ps.Keys - {i}) && Voted(ps, ps', voters, ps[i].currentTerm + 1)
    ensures AskVote(Asking(ps[i], i)) in Net(r')
  {
    hide At, Net, Polling, Willing, Is, NewLeader, MajorityCount, NoDuplicates, LastIndex, LastTerm;
    var r1, ps1 := Canvass(r, ps, i, voters, late);
    var pending := ps.Keys - {i} - Elements(voters);
    var r2, ps2 := SkipAll(r1, ps1, i, deaf, Asking(ps[i], i), ps[i].log, 1 + |voters|, pending, late);
    assert pending - Elements(deaf) == {};
    r', ps' := ConcludeStep(r2, ps2, i, Asking(ps[i], i), ps[i].log, 1 + |voters|, late);
  }

  lemma ConcludeStep(r: Drill, ps: Peers, i: NodeId, req: VoteRequest, log: seq<LogEntry>, votes: nat, late: int) returns (r': Drill, ps': Peers)
    requires At(r, ps, late) && i in ps && Polling(ps[i], req, log, votes, {}) && votes >= MajorityCount(|ps.Keys - {i}|)
    ensures At(r', ps', late) && Goes(r, r', 1) && Same(ps, ps', {i}) && NewLeader(ps'[i], req.term, log, ps.Keys - {i})
  {
    hide At, Polling, NewLeader, ConcludeElection;
    PollOf(ps[i], req, log, votes, {});
    r' := Take(r, ps, Conclude(i), late);
    ps' := ps[i := ConcludeElection(ps[i], i, ps.Keys - {i})];
    Wins(ps[i], i, ps.Keys - {i}, req, log, votes);
  }

  /** A peer is asked for its vote and the answer is lost. */
  lemma Hear(r: Drill, ps: Peers, i: NodeId, req: VoteRequest, late: int) returns (r': Drill, ps': Peers)
    requires At(r, ps, late) && i in ps && AskVote(req) in Net(r) && req.candidate != i && Willing(ps[i], req)
    ensures At(r', ps', late) && Goes(r, r', 1) && Same(ps, ps', {i}) && Is(ps'[i], Follower, req.term, ps[i].log)
  {
    hide At, OnRequestVote, Willing, Is;
    Grants(ps[i], req);
    r' := Take(r, ps, ReceiveVoteRequest(i, req), late);
    ps' := ps[i := OnRequestVote(ps[i], req).0];
  }

  // ----- a proposal, a request, an answer -----

  lemma Proposed(p: Peer, peers: set<NodeId>, x: Command)
    requires Idle(p) && peers != {}
    ensures var q := Propose(p, peers, x);
            && Is(q, p.role, p.currentTerm, p.log + [LogEntry(|p.log| + 1, p.currentTerm, x)])
            && q.nextIndex == p.nextIndex && q.matchIndex == p.matchIndex
  {
    assert LastIndex(p.log) == |p.log|;
  }

  lemma Append1(r: Drill, ps: Peers, i: NodeId, x: Command, late: int) returns (r': Drill, ps': Peers)
    requires At(r, ps, late) && i in ps && ps.Keys - {i} != {} && Idle(ps[i])
    requires ps[i].role == Leader || late == |r.1|
    ensures At(r', ps', late) && Goes(r, r', 1) && r'.1[|r.1|] == ClientPropose(i, x) && Same(ps, ps', {i})
    ensures Is(ps'[i], ps[i].role, ps[i].currentTerm, ps[i].log + [LogEntry(|ps[i].log| + 1, ps[i].currentTerm, x)])
    ensures ps'[i].nextIndex == ps[i].nextIndex && ps'[i].matchIndex == ps[i].matchIndex
  {
    hide At, Propose, Is;
    Proposed(ps[i], ps.Keys - {i}, x);
    r' := Take(r, ps, ClientPropose(i, x), late);
    ps' := ps[i := Propose(ps[i], ps.Keys - {i}, x)];
  }

  /** The leader sends one request, the peer handles it. */
  lemma Send(r: Drill, ps: Peers, i: NodeId, j: NodeId, late: int) returns (r': Drill, ps': Peers)
    requires At(r, ps, late) && i in ps && j in ps && i != j && ps[i].role == Leader
    ensures var a := BuildAppend(ps[i], i, j);
            var h := OnAppendEntries(ps[j], a);
            At(r', ps', late) && ps' == ps[j := h.0] && (h.1.Some? ==> AppendReply(j, a, h.1.value) in Net(r'))
    ensures Goes(r, r', 2)
  {
    hide At, OnAppendEntries, BuildAppend;
    var a := BuildAppend(ps[i], i, j);
    SentBy(ps[i], i, j);
    var r1 := Take(r, ps, Replicate(i, j), late);
    r' := Take(r1, ps, ReceiveAppend(j, a), late);
    ps' := ps[j := OnAppendEntries(ps[j], a).0];
  }

  lemma SentBy(p: Peer, i: NodeId, j: NodeId)
    ensures BuildAppend(p, i, j).leader == i
  {
  }

  lemma {:induction false} WholeLog(log: seq<LogEntry>)
    requires forall x | 0 <= x < |log| :: log[x].index >= 1
    ensures EntriesFrom(log, 1) == log
  {
    if log != [] {
      WholeLog(log[1..]);
    }
  }

  /** A leader that has to send everything asks for entry 0. */
  lemma AsksFromStart(p: Peer, i: NodeId, j: NodeId)
    requires Lookup(p.nextIndex, j, 1) == 1
    ensures BuildAppend(p, i, j) == AppendRequest(p.currentTerm, i, 0, 0, p.log, p.commitIndex)
  {
    WholeLog(p.log);
  }

  lemma Accepts(q: Peer, i: NodeId, term: nat, log: seq<LogEntry>)
    requires Idle(q) && q.currentTerm <= term && Indexed(log) && Matches(q.log, log) && !Agree(q.log, log, |log|)
    ensures var h := OnAppendEntries(q, AppendRequest(term, i, 0, 0, log, 0));
            Is(h.0, Follower, term, log) && h.1 == Some(AppendResponse(term, true, |log|))
  {
    hide MergeEntries, PutRows, Mirror, Matches;
    assert log[0..|log|] == log;
    MergeThenPutMirrors(q.log, q.disk.rows, log, 0, |log|);
  }

  /** The leader sends its whole log and the peer takes it over. */
  lemma SendAll(r: Drill, ps: Peers, i: NodeId, j: NodeId, late: int) returns (r': Drill, ps': Peers)
    requires At(r, ps, late) && i in ps && j in ps && i != j
    requires Idle(ps[i]) && ps[i].role == Leader && Lookup(ps[i].nextIndex, j, 1) == 1
    requires Idle(ps[j]) && ps[j].currentTerm <= ps[i].currentTerm
    requires Matches(ps[j].log, ps[i].log) && !Agree(ps[j].log, ps[i].log, |ps[i].log|)
    ensures At(r', ps', late) && Goes(r, r', 2) && Same(ps, ps', {j}) && Is(ps'[j], Follower, ps[i].currentTerm, ps[i].log)
    ensures AppendReply(j, AppendRequest(ps[i].currentTerm, i, 0, 0, ps[i].log, 0),
                        AppendResponse(ps[i].currentTerm, true, |ps[i].log|)) in Net(r')
  {
    hide At, OnAppendEntries, BuildAppend, Matches, Agree, Mirror, Lookup;
    AsksFromStart(ps[i], i, j);
    Accepts(ps[j], i, ps[i].currentTerm, ps[i].log);
    r', ps' := Send(r, ps, i, j, late);
  }

  /** An answer is folded in. */
  lemma Fold(r: Drill, ps: Peers, i: NodeId, j: NodeId, req: AppendRequest, resp: AppendResponse, late: int) returns (r': Drill, ps': Peers)
    requires At(r, ps, late) && i in ps && AppendReply(j, req, resp) in Net(r) && req.leader == i
    requires (ps[i].role == Leader && ps[i].currentTerm == req.term) || late == |r.1|
    ensures At(r', ps', late) && Goes(r, r', 1) && r'.1[|r.1|] == ReceiveAppendReply(i, j, req, resp)
    ensures ps' == ps[i := OnAppendReply(ps[i], ps.Keys - {i}, j, req, resp)]
  {
    hide At, OnAppendReply;
    r' := Take(r, ps, ReceiveAppendReply(i, j, req, resp), late);
    ps' := ps[i := OnAppendReply(ps[i], ps.Keys - {i}, j, req, resp)];
  }
}
