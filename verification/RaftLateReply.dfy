/** Why append replies must be timely: a run of the code as it stands, timely but for one reply
    that reaches its sender two terms after the request was sent. */
module RaftLateReply {
  import opened Metadata
  import opened RaftLog
  import opened RaftPeer
  import opened RaftCluster
  import opened RaftDrill
  import opened Order
  import opened Placement
  import S = RaftSteps

  datatype Cast = Cast(a: NodeId, b: NodeId, c: NodeId, d: NodeId, e: NodeId)

  predicate Five(i: NodeId, j: NodeId, k: NodeId, m: NodeId, n: NodeId) {
    i != j && i != k && i != m && i != n && j != k && j != m && j != n && k != m && k != n && m != n
  }

  ghost predicate Apart(k: Cast) {
    Five(k.a, k.b, k.c, k.d, k.e)
  }

  function All(k: Cast): set<NodeId> {
    {k.a, k.b, k.c, k.d, k.e}
  }

  // ----- the logs -----

  function First(x1: Command, x2: Command): seq<LogEntry> {
    [LogEntry(1, 1, x1), LogEntry(2, 1, x2)]
  }

  function Second(y: Command): seq<LogEntry> {
    [LogEntry(1, 2, y)]
  }

  function Third(y: Command, z: Command): seq<LogEntry> {
    [LogEntry(1, 2, y), LogEntry(2, 3, z)]
  }

  /** The reply that stays on the way until term 3. */
  function LateReply(k: Cast, xs: seq<LogEntry>): Message {
    AppendReply(k.b, LateRequest(k, xs), AppendResponse(1, true, 2))
  }

  function LateRequest(k: Cast, xs: seq<LogEntry>): AppendRequest {
    AppendRequest(1, k.a, 0, 0, xs, 0)
  }

  lemma Knows(p: Peer, role: Role, term: nat, log: seq<LogEntry>)
    requires Is(p, role, term, log)
    ensures Idle(p) && p.role == role && p.currentTerm == term && p.log == log
  {
  }

  lemma Votes(p: Peer, role: Role, term: nat, log: seq<LogEntry>, i: NodeId, q: Peer)
    requires Is(p, role, term, log) && term <= q.currentTerm
    requires IsLogUpToDate(LastIndex(q.log), LastTerm(q.log), LastIndex(log), LastTerm(log))
    ensures Willing(p, Asking(q, i))
  {
  }

  /** Of five peers, i is elected by j and k; m and n cannot be reached. */
  lemma ElectTwo(r: Drill, ps: Peers, i: NodeId, j: NodeId, k: NodeId, m: NodeId, n: NodeId) returns (r': Drill, ps': Peers)
    requires At(r, ps, 33) && Five(i, j, k, m, n) && ps.Keys == {i, j, k, m, n} && Idle(ps[i]) && ps[i].role != Leader
    requires Willing(ps[j], Asking(ps[i], i)) && Willing(ps[k], Asking(ps[i], i))
    ensures At(r', ps', 33) && Goes(r, r', 8) && Same(ps, ps', {i, j, k}) && AskVote(Asking(ps[i], i)) in Net(r')
    ensures NewLeader(ps'[i], ps[i].currentTerm + 1, ps[i].log, {j, k, m, n})
    ensures Is(ps'[j], Follower, ps[i].currentTerm + 1, ps[j].log) && Is(ps'[k], Follower, ps[i].currentTerm + 1, ps[k].log)
  {
    hide At, Net, Is, NewLeader, Willing, MajorityCount, Goes, Asking, Elements, NoDuplicates;
    FourOthers(ps.Keys, i, j, k, m, n);
    r', ps' := Elect(r, ps, i, [j, k], [m, n], 33);
    assert j in [j, k] && k in [j, k];
  }

  lemma FourOthers(all: set<NodeId>, i: NodeId, j: NodeId, k: NodeId, m: NodeId, n: NodeId)
    requires Five(i, j, k, m, n) && all == {i, j, k, m, n}
    ensures all - {i} == {j, k, m, n} && |all - {i}| == 4 && MajorityCount(4) == 3
    ensures Elements([j, k]) == {j, k} && NoDuplicates([j, k]) && Elements([m, n]) == {m, n} && NoDuplicates([m, n])
    ensures Elements([m, n]) == all - {i} - Elements([j, k])
  {
    assert all - {i} == {j, k, m, n};
  }

  /** Term 1: a leads and gets two entries to b, whose answer stays on the way. */
  lemma TermOne(k: Cast, x1: Command, x2: Command) returns (r: Drill, ps: Peers)
    requires Apart(k)
    ensures At(r, ps, 33) && ps.Keys == All(k) && |r.1| == 12 && LateReply(k, First(x1, x2)) in Net(r)
    ensures Is(ps[k.a], Leader, 1, First(x1, x2)) && Is(ps[k.b], Follower, 1, First(x1, x2)) && Is(ps[k.c], Follower, 1, [])
    ensures Is(ps[k.d], Follower, 0, []) && Is(ps[k.e], Follower, 0, [])
  {
    hide At, Net, Is, NewLeader, Willing, Asking, Lookup, Matches, Agree;
    var r0, ps0 := Start(All(k), 33);
    Knows(ps0[k.a], Follower, 0, []);
    Knows(ps0[k.b], Follower, 0, []);
    Knows(ps0[k.c], Follower, 0, []);
    Votes(ps0[k.b], Follower, 0, [], k.a, ps0[k.a]);
    Votes(ps0[k.c], Follower, 0, [], k.a, ps0[k.a]);
    var r1, ps1 := ElectTwo(r0, ps0, k.a, k.b, k.c, k.d, k.e);
    Leads(ps1[k.a], 1, [], k.b, {k.b, k.c, k.d, k.e});
    Knows(ps1[k.b], Follower, 1, []);
    assert k.b in ps1.Keys - {k.a};
    var r2, ps2 := Append1(r1, ps1, k.a, x1, 33);
    assert [] + [LogEntry(1, 1, x1)] == [LogEntry(1, 1, x1)];
    Knows(ps2[k.a], Leader, 1, [LogEntry(1, 1, x1)]);
    var r3, ps3 := Append1(r2, ps2, k.a, x2, 33);
    assert [LogEntry(1, 1, x1)] + [LogEntry(2, 1, x2)] == First(x1, x2);
    Knows(ps3[k.a], Leader, 1, First(x1, x2));
    NothingYet(First(x1, x2));
    r, ps := SendAll(r3, ps3, k.a, k.b, 33);
  }

  lemma Leads(p: Peer, term: nat, log: seq<LogEntry>, j: NodeId, peers: set<NodeId>)
    requires NewLeader(p, term, log, peers) && j in peers
    ensures Is(p, Leader, term, log) && Idle(p) && p.role == Leader && p.currentTerm == term && p.log == log
    ensures Lookup(p.nextIndex, j, 1) == |log| + 1 && Lookup(p.matchIndex, j, 0) == 0
  {
  }

  lemma NothingYet(log: seq<LogEntry>)
    requires log != []
    ensures Matches([], log) && !Agree([], log, |log|)
  {
  }

  /** Term 2: c leads and replaces what a has. */
  lemma TermTwo(k: Cast, x1: Command, x2: Command, y: Command) returns (r: Drill, ps: Peers)
    requires Apart(k)
    ensures At(r, ps, 33) && ps.Keys == All(k) && |r.1| == 23 && LateReply(k, First(x1, x2)) in Net(r)
    ensures Is(ps[k.a], Follower, 2, Second(y)) && Is(ps[k.b], Follower, 1, First(x1, x2)) && Is(ps[k.c], Leader, 2, Second(y))
    ensures Is(ps[k.d], Follower, 2, []) && Is(ps[k.e], Follower, 2, [])
  {
    hide At, Net, Is, NewLeader, Willing, Asking, Lookup, Matches, Agree;
    var r0, ps0 := TermOne(k, x1, x2);
    Knows(ps0[k.a], Leader, 1, First(x1, x2));
    Knows(ps0[k.c], Follower, 1, []);
    Knows(ps0[k.d], Follower, 0, []);
    Knows(ps0[k.e], Follower, 0, []);
    Votes(ps0[k.d], Follower, 0, [], k.c, ps0[k.c]);
    Votes(ps0[k.e], Follower, 0, [], k.c, ps0[k.c]);
    assert ps0.Keys == {k.c, k.d, k.e, k.a, k.b};
    var r1, ps1 := ElectTwo(r0, ps0, k.c, k.d, k.e, k.a, k.b);
    Leads(ps1[k.c], 2, [], k.a, {k.d, k.e, k.a, k.b});
    assert k.b in ps1.Keys - {k.c};
    var r2, ps2 := Append1(r1, ps1, k.c, y, 33);
    assert [] + [LogEntry(1, 2, y)] == Second(y);
    Knows(ps2[k.c], Leader, 2, Second(y));
    OtherTerm(x1, x2, y);
    r, ps := SendAll(r2, ps2, k.c, k.a, 33);
  }

  lemma OtherTerm(x1: Command, x2: Command, y: Command)
    ensures Matches(First(x1, x2), Second(y)) && !Agree(First(x1, x2), Second(y), 1)
  {
    assert First(x1, x2)[0].term == 1 && Second(y)[0].term == 2;
  }

  /** What the leader of term 3 has booked: nothing for anybody but these. */
  ghost predicate Booked(p: Peer, k: Cast, holders: set<NodeId>) {
    forall j | j in {k.b, k.c, k.d, k.e} :: Lookup(p.matchIndex, j, 0) == if j in holders then 2 else 0
  }

  lemma NothingBooked(p: Peer, k: Cast, y: Command)
    requires NewLeader(p, 3, Second(y), {k.d, k.e, k.b, k.c})
    ensures Booked(p, k, {}) && Lookup(p.nextIndex, k.d, 1) == 2
  {
  }

  /** Term 3 up to its proposal: a leads again, c has heard of the term. */
  lemma TermThree(k: Cast, x1: Command, x2: Command, y: Command, z: Command) returns (r: Drill, ps: Peers)
    requires Apart(k)
    ensures At(r, ps, 33) && ps.Keys == All(k) && |r.1| == 33 && LateReply(k, First(x1, x2)) in Net(r)
    ensures Is(ps[k.a], Leader, 3, Third(y, z)) && Is(ps[k.b], Follower, 1, First(x1, x2)) && Is(ps[k.c], Follower, 3, Second(y))
    ensures Is(ps[k.d], Follower, 3, []) && Is(ps[k.e], Follower, 3, [])
    ensures Booked(ps[k.a], k, {}) && Lookup(ps[k.a].nextIndex, k.d, 1) == 2
  {
    hide At, Net, Is, NewLeader, Willing, Asking, Lookup, Booked;
    var r0, ps0 := TermTwo(k, x1, x2, y);
    Knows(ps0[k.a], Follower, 2, Second(y));
    Knows(ps0[k.c], Leader, 2, Second(y));
    Knows(ps0[k.d], Follower, 2, []);
    Knows(ps0[k.e], Follower, 2, []);
    Votes(ps0[k.d], Follower, 2, [], k.a, ps0[k.a]);
    Votes(ps0[k.e], Follower, 2, [], k.a, ps0[k.a]);
    Votes(ps0[k.c], Leader, 2, Second(y), k.a, ps0[k.a]);
    assert ps0.Keys == {k.a, k.d, k.e, k.b, k.c};
    var r1, ps1 := ElectTwo(r0, ps0, k.a, k.d, k.e, k.b, k.c);
    AskedBy(ps0[k.a], k.a);
    var r2, ps2 := Hear(r1, ps1, k.c, Asking(ps0[k.a], k.a), 33);
    NothingBooked(ps2[k.a], k, y);
    Leads(ps2[k.a], 3, Second(y), k.d, {k.d, k.e, k.b, k.c});
    assert k.b in ps2.Keys - {k.a};
    r, ps := Append1(r2, ps2, k.a, z, 33);
    assert Second(y) + [LogEntry(2, 3, z)] == Third(y, z);
    SameBooks(ps2[k.a], ps[k.a], k);
  }

  lemma AskedBy(p: Peer, i: NodeId)
    ensures Asking(p, i).candidate == i && Asking(p, i).term == p.currentTerm + 1
  {
  }

  lemma SameBooks(p: Peer, q: Peer, k: Cast)
    requires Booked(p, k, {}) && q.matchIndex == p.matchIndex && q.nextIndex == p.nextIndex
    ensures Booked(q, k, {}) && Lookup(q.nextIndex, k.d, 1) == Lookup(p.nextIndex, k.d, 1)
  {
  }

  // ----- counting in term 3 -----

  /** The late answer is taken as b's place in the log of term 3. */
  lemma LateCount(p: Peer, k: Cast, peers: set<NodeId>, xs: seq<LogEntry>, y: Command, z: Command)
    requires Apart(k) && peers == {k.b, k.c, k.d, k.e} && |xs| == 2 && xs[1].index == 2
    requires Is(p, Leader, 3, Third(y, z)) && Booked(p, k, {})
    ensures var q := OnAppendReply(p, peers, k.b, LateRequest(k, xs), AppendResponse(1, true, 2));
            && Is(q, Leader, 3, Third(y, z)) && Booked(q, k, {k.b})
            && Lookup(q.nextIndex, k.d, 1) == Lookup(p.nextIndex, k.d, 1)
  {
    var s := p.(matchIndex := p.matchIndex[k.b := 2], nextIndex := p.nextIndex[k.b := 3]);
    assert |peers| == 4;
    assert Replicas(s, peers, 2) == {k.b};
    assert !Countable(s, peers, 2) && !Countable(s, peers, 1);
    assert HighestCountable(s, peers, 1) == HighestCountable(s, peers, 0) == 0;
    assert HighestCountable(s, peers, 2) == 0;
  }

  lemma Rejects(p: Peer, k: Cast, q: Peer, y: Command, z: Command)
    requires Is(p, Leader, 3, Third(y, z)) && Lookup(p.nextIndex, k.d, 1) == 2 && Is(q, Follower, 3, [])
    ensures var a := BuildAppend(p, k.a, k.d);
            && a.prevIndex == 1 && a.term == 3 && a.leader == k.a
            && Is(OnAppendEntries(q, a).0, Follower, 3, []) && OnAppendEntries(q, a).1 == Some(AppendResponse(3, false, 0))
  {
  }

  lemma StepsBack(p: Peer, k: Cast, peers: set<NodeId>, req: AppendRequest, y: Command, z: Command)
    requires Is(p, Leader, 3, Third(y, z)) && req.prevIndex == 1 && Booked(p, k, {k.b})
    ensures var q := OnAppendReply(p, peers, k.d, req, AppendResponse(3, false, 0));
            Is(q, Leader, 3, Third(y, z)) && Booked(q, k, {k.b}) && Lookup(q.nextIndex, k.d, 1) == 1
  {
  }

  /** b and d are booked at index 2, so it is committed. */
  lemma RealCount(p: Peer, k: Cast, peers: set<NodeId>, req: AppendRequest, y: Command, z: Command)
    requires Apart(k) && peers == {k.b, k.c, k.d, k.e} && Is(p, Leader, 3, Third(y, z)) && Booked(p, k, {k.b})
    requires req.entries == Third(y, z) && req.term == 3
    ensures var q := OnAppendReply(p, peers, k.d, req, AppendResponse(3, true, 2));
            q.commitIndex == 2 && q.log == Third(y, z) && q.currentTerm == 3
  {
    var s := p.(matchIndex := p.matchIndex[k.d := 2], nextIndex := p.nextIndex[k.d := 3]);
    assert |peers| == 4;
    assert Replicas(s, peers, 2) == {k.b, k.d};
    assert Countable(s, peers, 2) && HighestCountable(s, peers, 2) == 2;
    S.ApplyPendingEffect(s.(commitIndex := 2));
  }

  /** The late reply, then a real exchange with d: a commits what only a and d hold. */
  lemma CommitsTooEarly(k: Cast, x1: Command, x2: Command, y: Command, z: Command) returns (r: Drill, ps: Peers)
    requires Apart(k)
    ensures At(r, ps, 33) && ps.Keys == All(k) && |r.1| == 40
    ensures r.1[33] == ReceiveAppendReply(k.a, k.b, LateRequest(k, First(x1, x2)), AppendResponse(1, true, 2))
    ensures ps[k.a].log == Third(y, z) && ps[k.a].commitIndex == 2 && ps[k.a].currentTerm == 3
    ensures Is(ps[k.b], Follower, 1, First(x1, x2)) && Is(ps[k.c], Follower, 3, Second(y)) && Is(ps[k.e], Follower, 3, [])
  {
    hide At, Net, Is, Lookup, Booked, OnAppendReply, OnAppendEntries, BuildAppend, Matches, Agree;
    var peers := {k.b, k.c, k.d, k.e};
    var r0, ps0 := TermThree(k, x1, x2, y, z);
    Knows(ps0[k.a], Leader, 3, Third(y, z));
    assert ps0.Keys - {k.a} == peers;
    var r1, ps1 := Fold(r0, ps0, k.a, k.b, LateRequest(k, First(x1, x2)), AppendResponse(1, true, 2), 33);
    LateCount(ps0[k.a], k, peers, First(x1, x2), y, z);
    var r2, ps2 := Retry(k, r1, ps1, y, z);
    Knows(ps2[k.a], Leader, 3, Third(y, z));
    Knows(ps2[k.d], Follower, 3, []);
    NothingYet(Third(y, z));
    var r3, ps3 := SendAll(r2, ps2, k.a, k.d, 33);
    assert ps3.Keys - {k.a} == peers;
    var req := AppendRequest(3, k.a, 0, 0, Third(y, z), 0);
    r, ps := Fold(r3, ps3, k.a, k.d, req, AppendResponse(3, true, 2), 33);
    RealCount(ps2[k.a], k, peers, req, y, z);
  }

  /** d rejects the first request and a steps back. */
  lemma Retry(k: Cast, r: Drill, ps: Peers, y: Command, z: Command) returns (r': Drill, ps': Peers)
    requires Apart(k) && At(r, ps, 33) && ps.Keys == All(k)
    requires Is(ps[k.a], Leader, 3, Third(y, z)) && Booked(ps[k.a], k, {k.b}) && Lookup(ps[k.a].nextIndex, k.d, 1) == 2
    requires Is(ps[k.d], Follower, 3, [])
    ensures At(r', ps', 33) && Goes(r, r', 3) && Same(ps, ps', {k.a, k.d}) && Is(ps'[k.d], Follower, 3, [])
    ensures Is(ps'[k.a], Leader, 3, Third(y, z)) && Booked(ps'[k.a], k, {k.b}) && Lookup(ps'[k.a].nextIndex, k.d, 1) == 1
  {
    hide At, Net, Is, Lookup, Booked, OnAppendReply, OnAppendEntries, BuildAppend;
    Knows(ps[k.a], Leader, 3, Third(y, z));
    Rejects(ps[k.a], k, ps[k.d], y, z);
    var a := BuildAppend(ps[k.a], k.a, k.d);
    var r1, ps1 := Send(r, ps, k.a, k.d, 33);
    r', ps' := Fold(r1, ps1, k.a, k.d, a, AppendResponse(3, false, 0), 33);
    StepsBack(ps[k.a], k, ps1.Keys - {k.a}, a, y, z);
  }

  /** One untimely reply is enough: a has marked two entries committed in term 3, and the leader
      that c then becomes in term 4 has only the first of them. */
  lemma LateReplyBreaksCompleteness(k: Cast, x1: Command, x2: Command, y: Command, z: Command) returns (r: Drill, ps: Peers)
    requires Apart(k)
    ensures CodeRun(All(k), r.0, r.1) && |r.1| == 48 && TimelyBut(r, 33) && r.1[33].ReceiveAppendReply?
    ensures r.0[48].peers == ps && ps.Keys == All(k)
    ensures ps[k.a].commitIndex == 2 && ps[k.a].currentTerm == 3 && ps[k.a].log == [LogEntry(1, 2, y), LogEntry(2, 3, z)]
    ensures ps[k.c].role == Leader && ps[k.c].currentTerm == 4 && ps[k.c].log == [LogEntry(1, 2, y)]
  {
    hide CodeRun, TimelyBut, Is, NewLeader, Willing, Asking, Lookup;
    var r0, ps0 := CommitsTooEarly(k, x1, x2, y, z);
    Knows(ps0[k.b], Follower, 1, First(x1, x2));
    Knows(ps0[k.c], Follower, 3, Second(y));
    Knows(ps0[k.e], Follower, 3, []);
    Votes(ps0[k.b], Follower, 1, First(x1, x2), k.c, ps0[k.c]);
    Votes(ps0[k.e], Follower, 3, [], k.c, ps0[k.c]);
    assert ps0.Keys == {k.c, k.b, k.e, k.a, k.d};
    r, ps := ElectTwo(r0, ps0, k.c, k.b, k.e, k.a, k.d);
    Leads(ps[k.c], 4, Second(y), k.a, {k.b, k.e, k.a, k.d});
    assert ps.Keys == All(k);
  }
}
