/** Why proposals must be timely: a run of the code as it stands in which one proposal is
    appended after its peer has lost the leadership it was tested for. */
module RaftLate {
  import opened Metadata
  import opened RaftLog
  import opened RaftPeer
  import opened RaftCluster
  import opened RaftDrill
  import opened Order
  import opened Placement
  import S = RaftSteps

  /** Of three peers with empty logs, i is elected by j. */
  lemma ElectOne(r: Drill, ps: Peers, i: NodeId, j: NodeId, k: NodeId, term: nat, role: Role, former: nat) returns (r': Drill, ps': Peers)
    requires At(r, ps, 11) && ps.Keys == {i, j, k} && i != j && j != k && i != k
    requires Is(ps[i], Follower, term, []) && Is(ps[j], role, former, []) && former <= term
    ensures At(r', ps', 11) && Goes(r, r', 5) && Same(ps, ps', {i, j})
    ensures NewLeader(ps'[i], term + 1, [], {j, k}) && Is(ps'[j], Follower, term + 1, [])
  {
    hide At, Net, Is, NewLeader, Willing, MajorityCount, Goes, Elements, NoDuplicates;
    Blank(ps[i], Follower, term);
    Blank(ps[j], role, former);
    EmptyLogs(ps[j], role, former, VoteRequest(term + 1, i, 0, 0));
    TwoOthers(ps.Keys, i, j, k);
    r', ps' := Elect(r, ps, i, [j], [k], 11);
    assert j in [j] && Is(ps'[j], Follower, term + 1, ps[j].log);
  }

  /** a leads term 1; b leads term 2 with a's vote. */
  lemma TwoElections(a: NodeId, b: NodeId, c: NodeId) returns (r: Drill, ps: Peers)
    requires a != b && b != c && a != c
    ensures At(r, ps, 11) && ps.Keys == {a, b, c} && |r.1| == 10
    ensures Is(ps[a], Follower, 2, []) && NewLeader(ps[b], 2, [], {a, c}) && Is(ps[c], Follower, 0, [])
  {
    hide At, Is, NewLeader;
    var r0, ps0 := Start({a, b, c}, 11);
    var r1, ps1 := ElectOne(r0, ps0, a, b, c, 0, Follower, 0);
    LeaderIs(ps1[a], 1, [], {b, c});
    r, ps := ElectOne(r1, ps1, b, a, c, 1, Leader, 1);
  }

  lemma TwoOthers(all: set<NodeId>, i: NodeId, j: NodeId, k: NodeId)
    requires i != j && j != k && i != k && all == {i, j, k}
    ensures all - {i} == {j, k} && |all - {i}| == 2 && MajorityCount(2) == 2
    ensures Elements([j]) == {j} && NoDuplicates([j]) && NoDuplicates([k]) && Elements([k]) == all - {i} - Elements([j])
  {
    assert all - {i} == {j, k};
  }

  lemma Blank(p: Peer, role: Role, term: nat)
    requires Is(p, role, term, [])
    ensures Idle(p) && p.log == [] && p.role == role && p.currentTerm == term && LastIndex(p.log) == 0 && LastTerm(p.log) == 0
  {
  }

  lemma LeaderIs(p: Peer, term: nat, log: seq<LogEntry>, peers: set<NodeId>)
    requires NewLeader(p, term, log, peers)
    ensures Is(p, Leader, term, log) && p.log == log
  {
  }

  lemma EmptyLogs(p: Peer, role: Role, term: nat, req: VoteRequest)
    requires Is(p, role, term, []) && term < req.term
    ensures Willing(p, req)
  {
  }

  /** b, the leader, appends x; a, no longer leader, appends y late. */
  lemma TwoProposals(a: NodeId, b: NodeId, c: NodeId, x: Command, y: Command) returns (r: Drill, ps: Peers)
    requires a != b && b != c && a != c
    ensures At(r, ps, 11) && ps.Keys == {a, b, c} && |r.1| == 12 && r.1[11] == ClientPropose(a, y)
    ensures Is(ps[a], Follower, 2, [LogEntry(1, 2, y)]) && Is(ps[c], Follower, 0, [])
    ensures NewBooks(ps[b], {a, c}) && Is(ps[b], Leader, 2, [LogEntry(1, 2, x)])
  {
    hide At, Is, NewLeader, Lookup;
    var r0, ps0 := TwoElections(a, b, c);
    LeaderIs(ps0[b], 2, [], {a, c});
    BooksOf(ps0[b], 2, {a, c});
    Singles(ps0[a], ps0[b]);
    assert a in ps0.Keys - {b} && b in ps0.Keys - {a};
    var r1, ps1 := Append1(r0, ps0, b, x, 11);
    assert [] + [LogEntry(1, 2, x)] == [LogEntry(1, 2, x)] && [] + [LogEntry(1, 2, y)] == [LogEntry(1, 2, y)];
    r, ps := Append1(r1, ps1, a, y, 11);
  }

  /** What a leader of an empty log has booked for its peers. */
  ghost predicate NewBooks(p: Peer, peers: set<NodeId>) {
    forall j | j in peers :: Lookup(p.nextIndex, j, 1) == 1 && Lookup(p.matchIndex, j, 0) == 0
  }

  lemma BooksOf(p: Peer, term: nat, peers: set<NodeId>)
    requires NewLeader(p, term, [], peers)
    ensures NewBooks(p, peers)
  {
  }

  lemma Singles(pa: Peer, pb: Peer)
    requires Is(pa, Follower, 2, []) && Is(pb, Leader, 2, [])
    ensures Idle(pa) && Idle(pb) && pa.log == [] && pb.log == []
    ensures pa.role == Follower && pb.role == Leader && pa.currentTerm == 2 && pb.currentTerm == 2
  {
  }

  /** One untimely proposal is enough: peers a and b end up having applied different commands at
      index 1, under the same term, and a's table holds an entry that its list does not. */
  lemma LateProposalBreaksSafety(a: NodeId, b: NodeId, c: NodeId, x: Command, y: Command) returns (r: Drill, ps: Peers)
    requires a != b && b != c && a != c && x != y
    ensures CodeRun({a, b, c}, r.0, r.1) && |r.1| == 17 && TimelyBut(r, 11)
    ensures r.1[11] == ClientPropose(a, y) && r.0[17].peers == ps && ps.Keys == {a, b, c}
    ensures ps[a].log == [LogEntry(1, 2, y)] && ps[b].log == [LogEntry(1, 2, x)]
    ensures ps[a].lastApplied == 1 && ps[b].lastApplied == 1
    ensures ps[a].disk.rows == map[1 := LogEntry(1, 2, x)]
  {
    hide CodeRun, TimelyBut, Is, Lookup, NewBooks, OnAppendEntries, OnAppendReply, BuildAppend;
    var ex, ey := LogEntry(1, 2, x), LogEntry(1, 2, y);
    var r0, ps0 := TwoProposals(a, b, c, x, y);
    ReadyForEntry(ps0[b], ps0[c], c, {a, c}, ex);
    var r1, ps1 := SendAll(r0, ps0, b, c, 11);
    var req, resp := AppendRequest(2, b, 0, 0, [ex], 0), AppendResponse(2, true, 1);
    assert ps1.Keys - {b} == {a, c};
    var r2, ps2 := Fold(r1, ps1, b, c, req, resp, 11);
    CommitsFirst(ps0[b], a, c, ex, req);
    var r3, ps3 := Send(r2, ps2, b, a, 11);
    OverwritesRowOnly(b, a, ex, ey, ps0[a], ps2[b]);
    r, ps := r3, ps3;
    assert ps.Keys == {a, b, c};
  }

  lemma ReadyForEntry(pb: Peer, pc: Peer, c: NodeId, peers: set<NodeId>, e: LogEntry)
    requires Is(pb, Leader, 2, [e]) && Is(pc, Follower, 0, []) && NewBooks(pb, peers) && c in peers
    ensures Idle(pb) && pb.role == Leader && pb.currentTerm == 2 && pb.log == [e] && Lookup(pb.nextIndex, c, 1) == 1
    ensures Idle(pc) && pc.currentTerm == 0 && Matches(pc.log, pb.log) && !Agree(pc.log, pb.log, 1)
  {
  }

  lemma CommitsFirst(p: Peer, a: NodeId, c: NodeId, e: LogEntry, req: AppendRequest)
    requires a != c && e.index == 1 && e.term == 2 && req.entries == [e] && req.term == 2
    requires Is(p, Leader, 2, [e]) && NewBooks(p, {a, c})
    ensures var q := OnAppendReply(p, {a, c}, c, req, AppendResponse(2, true, 1));
            && q.role == Leader && q.currentTerm == 2 && q.log == [e] && q.commitIndex == 1 && q.lastApplied == 1
            && Lookup(q.nextIndex, a, 1) == 1
  {
    var s := p.(matchIndex := p.matchIndex[c := 1], nextIndex := p.nextIndex[c := 2]);
    assert Replicas(s, {a, c}, 1) == {c} && |{a, c}| == 2;
    assert Countable(s, {a, c}, 1) && HighestCountable(s, {a, c}, 1) == 1;
    S.ApplyPendingEffect(s.(commitIndex := 1));
  }

  /** The request finds an entry of the same index and term in a's list, so only the row is
      replaced, and a applies the entry in its list. */
  lemma OverwritesRowOnly(b: NodeId, a: NodeId, ex: LogEntry, ey: LogEntry, pa: Peer, pb: Peer)
    requires ex.index == 1 && ex.term == 2 && ey.index == 1 && ey.term == 2 && Is(pa, Follower, 2, [ey])
    requires pb.currentTerm == 2 && pb.log == [ex] && pb.commitIndex == 1 && Lookup(pb.nextIndex, a, 1) == 1
    ensures var q := OnAppendEntries(pa, BuildAppend(pb, b, a)).0;
            q.log == [ey] && q.lastApplied == 1 && q.disk.rows == map[1 := ex]
  {
    AsksFromStart(pb, b, a);
    var s1 := BecomeFollower(pa, 2, Some(b));
    assert s1.disk.rows == map[1 := ey];
    assert [ex][1..] == [];
    assert MergeEntries(Merged([ey], s1.disk.rows), [ex]) == Merged([ey], s1.disk.rows);
    assert PutRows(map[1 := ey], [ex]) == map[1 := ex];
    var s2 := StoreEntries(s1, [ex]);
    assert s2.log == [ey] && s2.disk.rows == map[1 := ex];
    S.ApplyPendingEffect(s2.(commitIndex := 1));
  }
}
