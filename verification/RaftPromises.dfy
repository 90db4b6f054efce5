/** What the locked sections of a node promise, said of its fields, its log and the counts of its
    peers alone, and not through the functions that compute it (metadata/raft/node.py). */
module RaftPromises {
  import opened Metadata
  import opened MetadataMachine
  import opened RaftLog
  import opened RaftPeer

  // ----- applying committed entries -----

  /** The machine of s once its log has been applied through index k. */
  function MachineAt(s: Peer, k: nat): Machine {
    ApplyAll(s.machine, Commands(s.log, s.lastApplied, k))
  }

  /** Applying the log as far as index k, which is not applied yet, raises there. */
  predicate RaisesAt(s: Peer, k: nat) {
    1 <= k <= |s.log| && ApplyCommand(MachineAt(s, k - 1), s.log[k - 1].command).raised
  }

  /** r is s with everything up to its commit index applied, or up to the first command that raises,
      that one counted as applied. */
  ghost predicate AppliesPending(s: Peer, r: Peer, raised: bool) {
    && s.lastApplied <= r.lastApplied
    && r == s.(lastApplied := r.lastApplied, machine := MachineAt(s, r.lastApplied))
    && (forall k: nat | s.lastApplied < k < r.lastApplied :: !RaisesAt(s, k))
    && (raised ==> s.lastApplied < r.lastApplied <= s.commitIndex && RaisesAt(s, r.lastApplied))
    && (!raised ==>
          && r.lastApplied == (if s.commitIndex > s.lastApplied then s.commitIndex else s.lastApplied)
          && (r.lastApplied > s.lastApplied ==> !RaisesAt(s, r.lastApplied)))
  }

  lemma MachineOn(s: Peer, mid: Peer, k: nat)
    requires mid.log == s.log && s.lastApplied <= mid.lastApplied <= k
    requires mid.machine == MachineAt(s, mid.lastApplied)
    ensures MachineAt(mid, k) == MachineAt(s, k)
  {
    hide ApplyAll, Commands;
    CommandsSplit(s.log, s.lastApplied, mid.lastApplied, k);
    ApplyAllSplits(s.machine, Commands(s.log, s.lastApplied, mid.lastApplied), Commands(s.log, mid.lastApplied, k));
  }

  lemma RaisesOn(s: Peer, mid: Peer, k: nat)
    requires mid.log == s.log && s.lastApplied <= mid.lastApplied < k
    requires mid.machine == MachineAt(s, mid.lastApplied)
    ensures RaisesAt(mid, k) == RaisesAt(s, k)
  {
    hide MachineAt, ApplyCommand;
    MachineOn(s, mid, k - 1);
  }

  lemma OneMore(s: Peer)
    ensures MachineAt(s, s.lastApplied) == s.machine
    ensures MachineAt(s, s.lastApplied + 1)
         == if s.lastApplied < |s.log| then ApplyCommand(s.machine, s.log[s.lastApplied].command).machine else s.machine
  {
    hide ApplyCommand;
    assert Commands(s.log, s.lastApplied, s.lastApplied) == [];
    if s.lastApplied < |s.log| {
      ApplyAllSnoc(s.machine, [], s.log[s.lastApplied].command);
    }
  }

  /** The loop gets to the commit index unless a command raises. */
  lemma {:induction false} PendingIsApplied(s: Peer)
    ensures AppliesPending(s, ApplyPending(s), ApplyRaises(s))
    decreases s.commitIndex - s.lastApplied
  {
    hide MachineAt, ApplyCommand;
    OneMore(s);
    if s.lastApplied < s.commitIndex {
      var s1 := s.(lastApplied := s.lastApplied + 1);
      if s1.lastApplied > |s.log| {
        PendingIsApplied(s1);
        AppliesOn(s, s1, ApplyPending(s), ApplyRaises(s));
      } else {
        var a := ApplyCommand(s.machine, s.log[s.lastApplied].command);
        var s2 := s1.(machine := a.machine);
        if !a.raised {
          PendingIsApplied(s2);
          AppliesOn(s, s2, ApplyPending(s), ApplyRaises(s));
        }
      }
    }
  }

  lemma AppliesOn(s: Peer, mid: Peer, r: Peer, raised: bool)
    requires mid == s.(lastApplied := s.lastApplied + 1, machine := MachineAt(s, s.lastApplied + 1))
    requires s.lastApplied < s.commitIndex && !RaisesAt(s, mid.lastApplied)
    requires AppliesPending(mid, r, raised)
    ensures AppliesPending(s, r, raised)
  {
    hide MachineAt, RaisesAt;
    MachineOn(s, mid, r.lastApplied);
    forall k: nat | mid.lastApplied < k
      ensures RaisesAt(s, k) == RaisesAt(mid, k)
    {
      RaisesOn(s, mid, k);
    }
  }

  /** At most one outcome fits, and it has no answer exactly if a command in the range raises. */
  lemma AppliesOneWay(s: Peer, r: Peer, raised: bool)
    requires AppliesPending(s, r, raised)
    ensures raised <==> exists k: nat :: s.lastApplied < k <= s.commitIndex && RaisesAt(s, k)
    ensures r == ApplyPending(s) && raised == ApplyRaises(s)
  {
    hide MachineAt, RaisesAt, ApplyPending, ApplyRaises;
    PendingIsApplied(s);
  }

  // ----- handle_append_entries -----

  /** The request is refused because the entry before its own is missing or of another term. */
  predicate PrevIsForeign(log: seq<LogEntry>, req: AppendRequest) {
    req.prevIndex > |log| || (req.prevIndex > 0 && log[req.prevIndex - 1].term != req.prevTerm)
  }

  function Least(a: nat, b: nat): nat {
    if a <= b then a else b
  }

  /** A peer that has heard from the leader of a term not below its own, nothing stored yet. */
  function Heard(s: Peer, req: AppendRequest): Peer {
    var vote := if req.term == s.currentTerm then s.votedFor else None;
    s.(currentTerm := req.term, votedFor := vote, role := Follower,
       leaderId := if req.leader == "" then s.leaderId else Some(req.leader),
       disk := Disk(req.term, vote, s.disk.rows))
  }

  /** What becomes of a request whose preceding entry is there: its entries are merged in, the commit
      index follows the leader's as far as the log goes, and what that commits is applied. */
  ghost predicate Accepts(s: Peer, req: AppendRequest, r: Peer, resp: Option<AppendResponse>) {
    var m := MergeEntries(Merged(s.log, s.disk.rows), req.entries);
    var commit := if req.leaderCommit > s.commitIndex then Least(req.leaderCommit, |m.log|) else s.commitIndex;
    var kept := Heard(s, req).(log := m.log, commitIndex := commit,
                               disk := Heard(s, req).disk.(rows := PutRows(m.rows, req.entries)));
    && (if req.leaderCommit > s.commitIndex then AppliesPending(kept, r, resp == None) else r == kept && resp.Some?)
    && (resp.Some? ==> resp.value == AppendResponse(req.term, true, req.prevIndex + |req.entries|))
  }

  /** State and answer of an append request in all its branches. */
  ghost predicate AnswersAppend(s: Peer, req: AppendRequest, r: Peer, resp: Option<AppendResponse>) {
    if req.term < s.currentTerm then r == s && resp == Some(AppendResponse(s.currentTerm, false, 0))
    else if PrevIsForeign(s.log, req) then r == Heard(s, req) && resp == Some(AppendResponse(req.term, false, 0))
    else Accepts(s, req, r, resp)
  }

  lemma AppendRequestOutcome(s: Peer, req: AppendRequest)
    ensures var (r, resp) := OnAppendEntries(s, req); AnswersAppend(s, req, r, resp)
  {
    hide ApplyPending, ApplyRaises, MergeEntries, PutRows, AppliesPending;
    if req.term >= s.currentTerm && !PrevIsForeign(s.log, req) {
      var stored := AdvanceFollowerCommit(StoreEntries(Heard(s, req), req.entries), req.leaderCommit);
      PendingIsApplied(stored);
      AppliesSameTerm(stored, ApplyPending(stored), ApplyRaises(stored));
    }
  }

  lemma AppliesSameTerm(s: Peer, r: Peer, raised: bool)
    requires AppliesPending(s, r, raised)
    ensures r.currentTerm == s.currentTerm && r.log == s.log && r.commitIndex == s.commitIndex
  {
  }

  /** A follower that raises its commit index has applied all of it, unless a command raised. */
  lemma FollowerCatchesUp(s: Peer, req: AppendRequest)
    requires s.lastApplied <= s.commitIndex <= |s.log|
    ensures var (r, resp) := OnAppendEntries(s, req);
            resp.Some? && resp.value.success && req.leaderCommit > s.commitIndex && s.commitIndex <= |r.log| ==>
              r.lastApplied == r.commitIndex == Least(req.leaderCommit, |r.log|)
  {
    hide OnAppendEntries, MachineAt, RaisesAt, MergeEntries, PutRows;
    AppendRequestOutcome(s, req);
  }

  // ----- _advance_commit_index and the replies that lead to it -----

  /** The peers known to hold the log through index k. */
  ghost function Booked(s: Peer, peers: set<NodeId>, k: nat): set<NodeId> {
    set p | p in peers && p in s.matchIndex && s.matchIndex[p] >= k
  }

  /** Index k holds an entry of the current term and is on more than half the cluster. */
  ghost predicate MayCommit(s: Peer, peers: set<NodeId>, k: nat) {
    && 1 <= k <= |s.log|
    && s.log[k - 1].term == s.currentTerm
    && 2 * (1 + |Booked(s, peers, k)|) > |peers| + 1
  }

  /** r is s with the largest index above the old commit index that may be committed, committed and
      applied; s itself if there is none. */
  ghost predicate AdvancesCommit(s: Peer, peers: set<NodeId>, r: Peer) {
    && s.commitIndex <= r.commitIndex
    && (forall k: nat | r.commitIndex < k :: !MayCommit(s, peers, k))
    && if r.commitIndex == s.commitIndex then r == s
       else MayCommit(s, peers, r.commitIndex) && exists raised :: AppliesPending(s.(commitIndex := r.commitIndex), r, raised)
  }

  lemma CountableIsMayCommit(s: Peer, peers: set<NodeId>, k: nat)
    ensures Countable(s, peers, k) == MayCommit(s, peers, k)
  {
    if k > 0 {
      assert Replicas(s, peers, k) == Booked(s, peers, k);
    }
  }

  lemma {:induction false} HighestIsLast(s: Peer, peers: set<NodeId>, n: nat)
    requires n <= |s.log| && forall k: nat | n < k :: !MayCommit(s, peers, k)
    ensures var c := HighestCountable(s, peers, n);
            && s.commitIndex <= c && (c > s.commitIndex ==> MayCommit(s, peers, c))
            && forall k: nat | c < k :: !MayCommit(s, peers, k)
    decreases n
  {
    hide MayCommit, Countable;
    if n > s.commitIndex {
      CountableIsMayCommit(s, peers, n);
      if !Countable(s, peers, n) {
        HighestIsLast(s, peers, n - 1);
      }
    }
  }

  /** The commit index becomes the highest that a majority holds. */
  lemma CommitIsHighest(s: Peer, peers: set<NodeId>)
    ensures AdvancesCommit(s, peers, AdvanceCommit(s, peers))
  {
    hide ApplyPending, ApplyRaises, HighestCountable, Booked;
    HighestIsLast(s, peers, |s.log|);
    var n := HighestCountable(s, peers, |s.log|);
    PendingIsApplied(s.(commitIndex := n));
    AppliesSameTerm(s.(commitIndex := n), ApplyPending(s.(commitIndex := n)), ApplyRaises(s.(commitIndex := n)));
  }

  /** The entries of a request are those after its preceding one. */
  predicate Consecutive(req: AppendRequest) {
    forall x | 0 <= x < |req.entries| :: req.entries[x].index == req.prevIndex + x + 1
  }

  /** The last index a request covers. */
  function CoveredIndex(req: AppendRequest): (n: nat)
    ensures Consecutive(req) ==> n == req.prevIndex + |req.entries|
  {
    if req.entries == [] then req.prevIndex else req.entries[|req.entries| - 1].index
  }

  /** s with peer `from` known to hold the log through index `upto`; its next index moves only if
      the request carried entries. */
  ghost predicate Books(s: Peer, from: NodeId, upto: nat, moves: bool, r: Peer) {
    && r == s.(matchIndex := r.matchIndex, nextIndex := r.nextIndex)
    && r.matchIndex.Keys == s.matchIndex.Keys + {from} && r.matchIndex[from] == upto
    && (forall p | p in s.matchIndex && p != from :: r.matchIndex[p] == s.matchIndex[p])
    && (forall p | p in s.nextIndex && p != from :: p in r.nextIndex && r.nextIndex[p] == s.nextIndex[p])
    && if moves then r.nextIndex.Keys == s.nextIndex.Keys + {from} && r.nextIndex[from] == upto + 1
       else r.nextIndex == s.nextIndex
  }

  lemma Booking(s: Peer, from: NodeId, upto: nat, moves: bool, b: Peer)
    requires b == s.(matchIndex := s.matchIndex[from := upto], nextIndex := if moves then s.nextIndex[from := upto + 1] else s.nextIndex)
    ensures Books(s, from, upto, moves, b)
  {
  }

  /** A success books the peer for everything the request covered and commits what that allows; a
      refusal sends one entry more next time; a higher term ends the leadership. */
  ghost predicate FoldsReply(s: Peer, peers: set<NodeId>, from: NodeId, req: AppendRequest, resp: AppendResponse, r: Peer) {
    if resp.term > s.currentTerm then
      r == s.(currentTerm := resp.term, votedFor := None, role := Follower, disk := Disk(resp.term, None, s.disk.rows))
    else if resp.success then
      exists b :: Books(s, from, CoveredIndex(req), req.entries != [], b) && AdvancesCommit(b, peers, r)
    else if req.prevIndex == 0 then r == s
    else r == s.(nextIndex := r.nextIndex) && r.nextIndex == s.nextIndex[from := req.prevIndex]
  }

  lemma ReplyOutcome(s: Peer, peers: set<NodeId>, from: NodeId, req: AppendRequest, resp: AppendResponse)
    ensures FoldsReply(s, peers, from, req, resp, OnAppendReply(s, peers, from, req, resp))
  {
    hide AdvanceCommit, AdvancesCommit, Books;
    if resp.term <= s.currentTerm && resp.success {
      var upto := CoveredIndex(req);
      var b := s.(matchIndex := s.matchIndex[from := upto],
                  nextIndex := if req.entries != [] then s.nextIndex[from := upto + 1] else s.nextIndex);
      Booking(s, from, upto, req.entries != [], b);
      CommitIsHighest(b, peers);
      assert OnAppendReply(s, peers, from, req, resp) == AdvanceCommit(b, peers);
      assert AdvancesCommit(b, peers, OnAppendReply(s, peers, from, req, resp));
    }
  }

  // ----- requests and proposals -----

  /** A leader sends a peer all it has after the entry the peer is thought to share. */
  lemma RequestIsSuffix(s: Peer, me: NodeId, peer: NodeId)
    requires Indexed(s.log) && peer in s.nextIndex && 1 <= s.nextIndex[peer] <= |s.log| + 1
    ensures var req := BuildAppend(s, me, peer);
            && req.term == s.currentTerm && req.leader == me && req.leaderCommit == s.commitIndex
            && req.prevIndex + 1 == s.nextIndex[peer] && !PrevIsForeign(s.log, req)
            && s.log == s.log[..req.prevIndex] + req.entries && Consecutive(req)
  {
    SuffixOf(s.log, 0, s.nextIndex[peer]);
    assert s.log[0..] == s.log;
  }

  lemma {:induction false} SuffixOf(log: seq<LogEntry>, k: nat, from: nat)
    requires Indexed(log) && k < from <= |log| + 1
    ensures EntriesFrom(log[k..], from) == log[from - 1..]
    decreases |log| - k
  {
    if k < |log| {
      assert log[k..][1..] == log[k + 1..];
      if k + 1 < from {
        SuffixOf(log, k + 1, from);
      } else {
        AllFrom(log, k, from);
      }
    }
  }

  lemma {:induction false} AllFrom(log: seq<LogEntry>, k: nat, from: nat)
    requires Indexed(log) && from - 1 <= k <= |log|
    ensures EntriesFrom(log[k..], from) == log[k..]
    decreases |log| - k
  {
    if k < |log| {
      assert log[k..][1..] == log[k + 1..];
      AllFrom(log, k + 1, from);
    }
  }

  /** A proposal becomes the next entry of the current term, in the list and in the table, and nothing
      else moves; without peers it is committed at once. */
  lemma ProposalIsAppended(s: Peer, peers: set<NodeId>, c: Command)
    requires Indexed(s.log) && s.commitIndex <= |s.log|
    ensures var r := Propose(s, peers, c);
            var e := LogEntry(|s.log| + 1, s.currentTerm, c);
            var added := s.(log := s.log + [e], disk := Disk(s.disk.term, s.disk.vote, s.disk.rows[e.index := e]));
            if peers == {} then AdvancesCommit(added, {}, r) && r.commitIndex == |s.log| + 1 else r == added
  {
    hide AdvanceCommit, AppliesPending;
    if peers == {} {
      CommitIsHighest(AppendLocal(s, c), {});
      assert MayCommit(AppendLocal(s, c), {}, |s.log| + 1);
    }
  }

  // ----- votes and elections -----

  /** The log's last entry is newer than the position a candidate announces. */
  predicate IsAheadOf(log: seq<LogEntry>, req: VoteRequest) {
    log != []
    && var last := log[|log| - 1];
       last.term > req.lastTerm || (last.term == req.lastTerm && last.index > req.lastIndex)
  }

  /** A vote is granted exactly in a term not past, to a candidate not behind, if it is still free or
      is that candidate's already; the peer is in the larger of the two terms afterwards, and what
      it answers is durable. */
  ghost predicate AnswersVote(s: Peer, req: VoteRequest, r: Peer, resp: VoteResponse) {
    && (resp.granted <==>
          && req.term >= s.currentTerm && !IsAheadOf(s.log, req)
          && (req.term == s.currentTerm ==> s.votedFor == None || s.votedFor == Some(req.candidate)))
    && resp.term == r.currentTerm == (if req.term > s.currentTerm then req.term else s.currentTerm)
    && r.role == (if req.term > s.currentTerm then Follower else s.role)
    && r.votedFor == (if resp.granted then Some(req.candidate) else if req.term > s.currentTerm then None else s.votedFor)
    && r.disk == (if resp.granted || req.term > s.currentTerm then Disk(r.currentTerm, r.votedFor, s.disk.rows) else s.disk)
    && r == s.(currentTerm := r.currentTerm, role := r.role, votedFor := r.votedFor, disk := r.disk)
  }

  lemma VoteIsGrantedIff(s: Peer, req: VoteRequest)
    ensures var (r, resp) := OnRequestVote(s, req); AnswersVote(s, req, r, resp)
  {
  }

  /** An answer to a running candidate, or the failure to get one. */
  datatype Answer = Answer(from: NodeId, resp: Option<VoteResponse>)

  /** The voting loop over the answers of the peers in turn; it returns at a higher term. */
  function Polled(s: Peer, answers: seq<Answer>): Peer
    decreases |answers|
  {
    if answers == [] || s.poll == None then s else Polled(OnVoteReply(s, answers[0].from, answers[0].resp), answers[1..])
  }

  predicate Outvotes(term: nat, a: Answer) {
    a.resp.Some? && a.resp.value.term > term
  }

  predicate Votes(a: Answer) {
    a.resp.Some? && a.resp.value.granted
  }

  /** The places of the answers that grant their vote. */
  ghost function Granting(answers: seq<Answer>): set<nat> {
    set x: nat | x < |answers| && Votes(answers[x])
  }

  ghost function Senders(answers: seq<Answer>): set<NodeId> {
    set x | 0 <= x < |answers| :: answers[x].from
  }

  lemma SendersRest(answers: seq<Answer>)
    requires answers != []
    ensures Senders(answers) == {answers[0].from} + Senders(answers[1..])
  {
    forall x | 0 < x < |answers|
      ensures answers[x].from in Senders(answers[1..])
    {
      assert answers[1..][x - 1] == answers[x];
    }
  }

  /** A candidate stands in the next term with its own vote, asks every peer, and announces the last
      entry of its log. */
  lemma CandidateAnnouncesItsLog(s: Peer, me: NodeId, peers: set<NodeId>)
    requires Indexed(s.log)
    ensures var r := StartElection(s, me, peers);
            if s.role == Leader then r == s
            else
              && r.poll.Some? && r.poll.value.pending == peers && r.poll.value.term == s.currentTerm + 1
              && r.poll.value.lastIndex == |s.log| && (s.log != [] ==> r.poll.value.lastTerm == s.log[|s.log| - 1].term)
              && (s.log == [] ==> r.poll.value.lastTerm == 0)
              && r.role == Candidate && r.votesReceived == 1 && r.leaderId == None
              && r.log == s.log && r.commitIndex == s.commitIndex && r.lastApplied == s.lastApplied && r.machine == s.machine
  {
  }

  lemma {:induction false} PolledCounts(s: Peer, answers: seq<Answer>)
    requires s.poll.Some? && forall x | 0 <= x < |answers| :: !Outvotes(s.currentTerm, answers[x])
    ensures var r := Polled(s, answers);
            && r.poll.Some?
            && r == s.(votesReceived := s.votesReceived + |Granting(answers)|, poll := r.poll)
            && r.poll.value == s.poll.value.(pending := s.poll.value.pending - Senders(answers))
    decreases |answers|
  {
    if answers != [] {
      SendersRest(answers);
      var r := OnVoteReply(s, answers[0].from, answers[0].resp);
      assert forall x | 0 <= x < |answers| - 1 :: answers[1..][x] == answers[x + 1];
      PolledCounts(r, answers[1..]);
      GrantingRest(answers);
    } else {
      assert Granting(answers) == {};
    }
  }

  lemma GrantingRest(answers: seq<Answer>)
    requires answers != []
    ensures |Granting(answers)| == |Granting(answers[1..])| + if Votes(answers[0]) then 1 else 0
  {
    var later := set x | x in Granting(answers[1..]) :: x + 1;
    ShiftedSize(Granting(answers[1..]), later);
    var first: set<nat> := if Votes(answers[0]) then {0} else {};
    forall x: nat
      ensures x in Granting(answers) <==> x in later + first
    {
      if x > 0 {
        GrantingLater(answers, x);
        hide Granting;
        assert x in later <==> x - 1 in Granting(answers[1..]) by {
          assert (x - 1) + 1 == x;
        }
      }
    }
    hide Granting;
    assert Granting(answers) == later + first;
  }

  lemma GrantingLater(answers: seq<Answer>, x: nat)
    requires answers != [] && x > 0
    ensures x in Granting(answers) <==> x - 1 in Granting(answers[1..])
  {
    if x < |answers| {
      assert answers[1..][x - 1] == answers[x];
    }
  }

  lemma {:induction false} ShiftedSize(xs: set<nat>, ys: set<nat>)
    requires ys == set x | x in xs :: x + 1
    ensures |ys| == |xs| && 0 !in ys
    decreases |xs|
  {
    if xs != {} {
      var x :| x in xs;
      var rest := xs - {x};
      var shifted := set y | y in rest :: y + 1;
      ShiftedSize(rest, shifted);
      assert xs == rest + {x};
      assert ys == shifted + {x + 1};
    }
  }

  /** Standing in the next term, a candidate that no answer outvotes leads exactly if its own vote and
      those granted are more than half the cluster, and then knows nothing of any peer's log. */
  lemma ElectionIsByMajority(s: Peer, me: NodeId, peers: set<NodeId>, answers: seq<Answer>)
    requires s.role != Leader && Indexed(s.log)
    requires forall x | 0 <= x < |answers| :: !Outvotes(s.currentTerm + 1, answers[x])
    ensures var r := ConcludeElection(Polled(StartElection(s, me, peers), answers), me, peers);
            && r.currentTerm == s.currentTerm + 1 && r.votedFor == Some(me) && r.log == s.log
            && r.disk == Disk(s.currentTerm + 1, Some(me), s.disk.rows) && r.poll == None
            && r.role == (if 2 * (1 + |Granting(answers)|) > |peers| + 1 then Leader else Candidate)
            && r.leaderId == (if r.role == Leader then Some(me) else None)
            && (r.role == Leader ==> forall p | p in peers ::
                  p in r.nextIndex && r.nextIndex[p] == |s.log| + 1 && p in r.matchIndex && r.matchIndex[p] == 0)
  {
    hide Polled, Outvotes, Granting;
    PolledCounts(StartElection(s, me, peers), answers);
  }

  /** The first answer of a higher term ends the election as a follower in that term. */
  lemma {:induction false} HigherTermEndsElection(s: Peer, me: NodeId, peers: set<NodeId>, answers: seq<Answer>, k: nat)
    requires s.poll.Some? && k < |answers| && Outvotes(s.currentTerm, answers[k])
    requires forall x | 0 <= x < k :: !Outvotes(s.currentTerm, answers[x])
    ensures var r := ConcludeElection(Polled(s, answers), me, peers);
            && r.role == Follower && r.currentTerm == answers[k].resp.value.term && r.votedFor == None
            && r.disk == Disk(r.currentTerm, None, s.disk.rows) && r.log == s.log && r.poll == None
    decreases k
  {
    var q := OnVoteReply(s, answers[0].from, answers[0].resp);
    if k > 0 {
      assert forall x | 0 <= x < k :: answers[1..][x] == answers[x + 1];
      HigherTermEndsElection(q, me, peers, answers[1..], k - 1);
    } else {
      assert Polled(s, answers) == Polled(q, answers[1..]) == q;
    }
  }
}
