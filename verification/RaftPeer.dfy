/** The state of one RaftNode and what each of its locked sections does to it
    (metadata/raft/node.py, metadata/raft/election.py), as functions on values.
    RaftNode.dfy proves the imperative methods against these functions. */
module RaftPeer {
  import opened Metadata
  import opened MetadataMachine
  import opened RaftLog
  import P = Placement

  datatype Role = Follower | Candidate | Leader

  /** The local variables of a running _start_election: the term and log position it
      announced, and the peers its loop has not called yet. */
  datatype Poll = Poll(term: nat, lastIndex: nat, lastTerm: nat, pending: set<NodeId>)

  datatype Peer = Peer(
    currentTerm: nat,
    votedFor: Option<NodeId>,
    role: Role,
    leaderId: Option<NodeId>,
    log: seq<LogEntry>,
    commitIndex: nat,
    lastApplied: nat,
    machine: Machine,
    nextIndex: map<NodeId, nat>,
    matchIndex: map<NodeId, nat>,
    votesReceived: nat,
    poll: Option<Poll>,
    disk: Disk)

  datatype VoteRequest = VoteRequest(term: nat, candidate: NodeId, lastIndex: nat, lastTerm: nat)

  datatype VoteResponse = VoteResponse(term: nat, granted: bool)

  datatype AppendRequest = AppendRequest(
    term: nat, leader: NodeId, prevIndex: nat, prevTerm: nat, entries: seq<LogEntry>, leaderCommit: nat)

  datatype AppendResponse = AppendResponse(term: nat, success: bool, matchIndex: nat)

  // ----- metadata/raft/election.py -----

  predicate IsLogUpToDate(candidateIndex: nat, candidateTerm: nat, ourIndex: nat, ourTerm: nat) {
    if candidateTerm != ourTerm then candidateTerm > ourTerm else candidateIndex >= ourIndex
  }

  function MajorityCount(peerCount: nat): nat {
    (peerCount + 1) / 2 + 1
  }

  // ----- log helpers -----

  function LastIndex(log: seq<LogEntry>): nat {
    if log == [] then 0 else log[|log| - 1].index
  }

  function LastTerm(log: seq<LogEntry>): nat {
    if log == [] then 0 else log[|log| - 1].term
  }

  function TermAt(log: seq<LogEntry>, index: nat): nat {
    if 1 <= index <= |log| then log[index - 1].term else 0
  }

  /** The entries whose index is at least `from`. */
  function EntriesFrom(log: seq<LogEntry>, from: nat): seq<LogEntry> {
    if log == [] then []
    else if log[0].index >= from then [log[0]] + EntriesFrom(log[1..], from)
    else EntriesFrom(log[1..], from)
  }

  function Lookup(m: map<NodeId, nat>, p: NodeId, default: nat): nat {
    if p in m then m[p] else default
  }

  function SetAll(m: map<NodeId, nat>, peers: set<NodeId>, n: nat): map<NodeId, nat> {
    map p | p in m.Keys + peers :: if p in peers then n else m[p]
  }

  // ----- start and restart -----

  /** RaftNode.__init__ over whatever raft.db and the metadata store hold: the tables have been
      recovered from the store, and nothing counts as applied. */
  function Boot(disk: Disk, stored: map<BlockId, P.Stored>): Peer {
    Peer(disk.term, disk.vote, Follower, None, SortedRows(disk.rows), 0, 0, Booted(stored),
         map[], map[], 0, None, disk)
  }

  /** The commands of the entries after index `from`, through index `upto`. */
  function Commands(log: seq<LogEntry>, from: nat, upto: nat): seq<Command>
    decreases upto
  {
    if upto <= from then []
    else Commands(log, from, upto - 1) + if upto <= |log| then [log[upto - 1].command] else []
  }

  lemma {:induction false} CommandsSplit(log: seq<LogEntry>, a: nat, b: nat, c: nat)
    requires a <= b <= c
    ensures Commands(log, a, b) + Commands(log, b, c) == Commands(log, a, c)
    decreases c
  {
    if b < c {
      CommandsSplit(log, a, b, c - 1);
      var last := if c <= |log| then [log[c - 1].command] else [];
      assert Commands(log, a, b) + (Commands(log, b, c - 1) + last) == (Commands(log, a, b) + Commands(log, b, c - 1)) + last;
    }
  }

  /** The store once n more entries of a log have been applied. */
  function StoreAfter(s: Peer, log: seq<LogEntry>, n: nat): map<BlockId, P.Stored> {
    ApplyAll(s.machine, Commands(log, s.lastApplied, s.lastApplied + n)).placements.stored
  }

  /** A handler that would have taken s to r died after applying n more entries. */
  function Interrupted(s: Peer, r: Peer, n: nat): Peer {
    Boot(r.disk, StoreAfter(s, r.log, n))
  }

  // ----- _apply_pending_commits -----

  /** Applies committed entries in order; a command that raises ends the loop after
      lastApplied has already been advanced past it. */
  function ApplyPending(s: Peer): Peer
    decreases s.commitIndex - s.lastApplied
  {
    if s.lastApplied >= s.commitIndex then s
    else
      var s1 := s.(lastApplied := s.lastApplied + 1);
      if s1.lastApplied <= |s1.log| then
        var a := ApplyCommand(s1.machine, s1.log[s1.lastApplied - 1].command);
        var s2 := s1.(machine := a.machine);
        if a.raised then s2 else ApplyPending(s2)
      else ApplyPending(s1)
  }

  /** Whether that loop ends by raising. */
  predicate ApplyRaises(s: Peer)
    decreases s.commitIndex - s.lastApplied
  {
    if s.lastApplied >= s.commitIndex then false
    else
      var s1 := s.(lastApplied := s.lastApplied + 1);
      if s1.lastApplied <= |s1.log| then
        var a := ApplyCommand(s1.machine, s1.log[s1.lastApplied - 1].command);
        a.raised || ApplyRaises(s1.(machine := a.machine))
      else ApplyRaises(s1)
  }

  // ----- _become_follower, handle_request_vote, handle_append_entries -----

  function BecomeFollower(s: Peer, term: nat, leader: Option<NodeId>): Peer {
    var term' := if term > s.currentTerm then term else s.currentTerm;
    var vote' := if term > s.currentTerm then None else s.votedFor;
    s.(currentTerm := term',
       votedFor := vote',
       role := Follower,
       leaderId := if leader.Some? && leader.value != "" then leader else s.leaderId,
       disk := s.disk.(term := term', vote := vote'))
  }

  function OnRequestVote(s: Peer, req: VoteRequest): (Peer, VoteResponse) {
    if req.term < s.currentTerm then (s, VoteResponse(s.currentTerm, false))
    else
      var s1 := if req.term > s.currentTerm then BecomeFollower(s, req.term, None) else s;
      if (s1.votedFor == None || s1.votedFor == Some(req.candidate))
         && IsLogUpToDate(req.lastIndex, req.lastTerm, LastIndex(s1.log), LastTerm(s1.log))
      then
        (s1.(votedFor := Some(req.candidate),
             disk := s1.disk.(term := s1.currentTerm, vote := Some(req.candidate))),
         VoteResponse(s1.currentTerm, true))
      else (s1, VoteResponse(s1.currentTerm, false))
  }

  /** A crash after the new term has been persisted and before the vote has. */
  function OnRequestVoteCrash(s: Peer, term: nat): Peer {
    Boot(if term > s.currentTerm then BecomeFollower(s, term, None).disk else s.disk, s.machine.placements.stored)
  }

  predicate PrevMatches(log: seq<LogEntry>, prevIndex: nat, prevTerm: nat) {
    prevIndex > 0 ==> prevIndex <= |log| && log[prevIndex - 1].term == prevTerm
  }

  /** The list and table after the loop over the entries and the INSERT OR REPLACE. */
  function StoreEntries(s: Peer, entries: seq<LogEntry>): Peer {
    var m := MergeEntries(Merged(s.log, s.disk.rows), entries);
    s.(log := m.log, disk := s.disk.(rows := PutRows(m.rows, entries)))
  }

  function AdvanceFollowerCommit(s: Peer, leaderCommit: nat): Peer {
    if leaderCommit > s.commitIndex then
      s.(commitIndex := if leaderCommit <= |s.log| then leaderCommit else |s.log|)
    else s
  }

  /** No response when applying a newly committed entry raises. */
  function OnAppendEntries(s: Peer, req: AppendRequest): (Peer, Option<AppendResponse>) {
    if req.term < s.currentTerm then (s, Some(AppendResponse(s.currentTerm, false, 0)))
    else
      var s1 := BecomeFollower(s, req.term, Some(req.leader));
      if !PrevMatches(s1.log, req.prevIndex, req.prevTerm) then
        (s1, Some(AppendResponse(s1.currentTerm, false, 0)))
      else
        var s2 := StoreEntries(s1, req.entries);
        var s3 := AdvanceFollowerCommit(s2, req.leaderCommit);
        var applying := req.leaderCommit > s2.commitIndex;
        var s4 := if applying then ApplyPending(s3) else s3;
        if applying && ApplyRaises(s3) then (s4, None)
        else (s4, Some(AppendResponse(s4.currentTerm, true, req.prevIndex + |req.entries|)))
  }

  /** A crash once the loop has gone through `merged` entries, whose truncations are then
      committed, and before the insert has run. */
  function OnAppendEntriesCrash(s: Peer, req: AppendRequest, merged: nat): Peer
    requires merged <= |req.entries|
  {
    var stored := s.machine.placements.stored;
    if req.term < s.currentTerm then Boot(s.disk, stored)
    else
      var s1 := BecomeFollower(s, req.term, Some(req.leader));
      if !PrevMatches(s1.log, req.prevIndex, req.prevTerm) then Boot(s1.disk, stored)
      else Boot(s1.disk.(rows := MergeEntries(Merged(s1.log, s1.disk.rows), req.entries[..merged]).rows), stored)
  }

  // ----- _start_election and _become_leader -----

  function StartElection(s: Peer, me: NodeId, peers: set<NodeId>): Peer {
    if s.role == Leader then s
    else
      var term := s.currentTerm + 1;
      s.(role := Candidate,
         currentTerm := term,
         votedFor := Some(me),
         leaderId := None,
         votesReceived := 1,
         disk := s.disk.(term := term, vote := Some(me)),
         poll := Some(Poll(term, LastIndex(s.log), LastTerm(s.log), peers)))
  }

  /** One turn of the voting loop; None is an unreachable peer. */
  function OnVoteReply(s: Peer, from: NodeId, resp: Option<VoteResponse>): Peer
    requires s.poll.Some?
  {
    var rest := Some(s.poll.value.(pending := s.poll.value.pending - {from}));
    if resp == None then s.(poll := rest)
    else if resp.value.term > s.currentTerm then
      BecomeFollower(s, resp.value.term, None).(poll := None)
    else if resp.value.granted then s.(votesReceived := s.votesReceived + 1, poll := rest)
    else s.(poll := rest)
  }

  function BecomeLeader(s: Peer, me: NodeId, peers: set<NodeId>): Peer {
    s.(role := Leader,
       leaderId := Some(me),
       nextIndex := SetAll(s.nextIndex, peers, LastIndex(s.log) + 1),
       matchIndex := SetAll(s.matchIndex, peers, 0))
  }

  function ConcludeElection(s: Peer, me: NodeId, peers: set<NodeId>): Peer {
    var s1 := s.(poll := None);
    if s.role == Candidate && s.votesReceived >= MajorityCount(|peers|) then BecomeLeader(s1, me, peers) else s1
  }

  // ----- propose, _replicate_to_peer, _advance_commit_index -----

  /** _append_local_entry; it does not look at the role. */
  function AppendLocal(s: Peer, c: Command): Peer {
    var e := LogEntry(LastIndex(s.log) + 1, s.currentTerm, c);
    s.(log := s.log + [e], disk := s.disk.(rows := s.disk.rows[e.index := e]))
  }

  /** The request _replicate_to_peer builds for one peer. */
  function BuildAppend(s: Peer, me: NodeId, to: NodeId): AppendRequest {
    var next := Lookup(s.nextIndex, to, 1);
    var prev := if next > 0 then next - 1 else 0;
    AppendRequest(s.currentTerm, me, prev, TermAt(s.log, prev), EntriesFrom(s.log, next), s.commitIndex)
  }

  function Replicas(s: Peer, peers: set<NodeId>, n: nat): set<NodeId> {
    set p | p in peers && Lookup(s.matchIndex, p, 0) >= n
  }

  /** Whether index n may be committed by counting: an entry of the current term on a majority. */
  predicate Countable(s: Peer, peers: set<NodeId>, n: nat) {
    && 1 <= n <= |s.log|
    && s.log[n - 1].term == s.currentTerm
    && 1 + |Replicas(s, peers, n)| >= MajorityCount(|peers|)
  }

  /** The first countable index found scanning down from n, or the old commit index. */
  function HighestCountable(s: Peer, peers: set<NodeId>, n: nat): nat
    requires n <= |s.log|
    decreases n
  {
    if n <= s.commitIndex then s.commitIndex
    else if Countable(s, peers, n) then n
    else HighestCountable(s, peers, n - 1)
  }

  function AdvanceCommit(s: Peer, peers: set<NodeId>): Peer {
    var n := HighestCountable(s, peers, |s.log|);
    if n == s.commitIndex then s else ApplyPending(s.(commitIndex := n))
  }

  function Propose(s: Peer, peers: set<NodeId>, c: Command): Peer {
    var s1 := AppendLocal(s, c);
    if peers == {} then AdvanceCommit(s1, peers) else s1
  }

  /** Folding a reply in, exactly as the code does it: neither the role nor the term of the
      request is looked at again. */
  function OnAppendReply(s: Peer, peers: set<NodeId>, from: NodeId, req: AppendRequest, resp: AppendResponse): Peer {
    var next := req.prevIndex + 1;
    if resp.term > s.currentTerm then BecomeFollower(s, resp.term, None)
    else if resp.success then
      var matched := if req.entries != [] then req.entries[|req.entries| - 1].index else req.prevIndex;
      AdvanceCommit(s.(matchIndex := s.matchIndex[from := matched],
                       nextIndex := if req.entries != [] then s.nextIndex[from := matched + 1] else s.nextIndex), peers)
    else if next > 1 then s.(nextIndex := s.nextIndex[from := next - 1])
    else s
  }
}
