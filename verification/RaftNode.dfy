/** RaftStorage, RaftStateMachine and RaftNode as objects.  Each locked section of the source is
    a method, proved to change the object as the functions of RaftPeer say
    (metadata/raft/storage.py, metadata/raft/state_machine.py, metadata/raft/node.py). */
module RaftNode {
  import opened Metadata
  import opened MetadataMachine
  import opened RaftLog
  import opened RaftPeer
  import opened RaftPromises
  import P = Placement
  import S = PlacementService

  class RaftStorage {
    var currentTerm: nat
    var votedFor: Option<NodeId>
    var rows: Rows

    ghost function Contents(): Disk
      reads this
    {
      Disk(currentTerm, votedFor, rows)
    }

    constructor ()
      ensures Contents() == EmptyDisk
    {
      currentTerm, votedFor, rows := 0, None, map[];
    }

    method SetState(term: nat, vote: Option<NodeId>)
      modifies this
      ensures Contents() == old(Contents()).(term := term, vote := vote)
    {
      currentTerm, votedFor := term, vote;
    }

    method GetLog() returns (log: seq<LogEntry>)
      ensures log == SortedRows(rows)
      ensures |log| == |rows| && forall k | k in rows :: Rank(rows, k) < |log| && log[Rank(rows, k)] == rows[k]
      ensures forall l :: Mirror(rows, l) ==> log == l
    {
      log := SortedRows(rows);
      SortedRowsSize(rows);
      forall k | k in rows
        ensures Rank(rows, k) < |log| && log[Rank(rows, k)] == rows[k]
      {
        SortedRowsAt(rows, k);
      }
      forall l | Mirror(rows, l)
        ensures log == l
      {
        SortedRowsOfMirror(rows, l);
      }
    }

    method AppendEntries(entries: seq<LogEntry>)
      modifies this
      ensures Contents() == old(Contents()).(rows := PutRows(old(rows), entries))
    {
      var k := 0;
      while k < |entries|
        invariant k <= |entries|
        invariant currentTerm == old(currentTerm) && votedFor == old(votedFor)
        invariant PutRows(rows, entries[k..]) == PutRows(old(rows), entries)
      {
        assert entries[k..][1..] == entries[k + 1..];
        rows := rows[entries[k].index := entries[k]];
        k := k + 1;
      }
    }

    method TruncateLogFrom(start: nat)
      modifies this
      ensures Contents() == old(Contents()).(rows := DropRowsFrom(old(rows), start))
    {
      rows := map k | k in rows && k < start :: rows[k];
    }
  }

  class RaftStateMachine {
    const registry: S.PlacementRegistry
    const inventory: S.NodeInventory
    const store: S.MetadataStore
    var peers: seq<NodeId>

    ghost function View(): Machine
      reads this, registry, inventory, store
    {
      Machine(S.Tables(registry, inventory, store, 0), peers)
    }

    constructor (registry: S.PlacementRegistry, inventory: S.NodeInventory, store: S.MetadataStore)
      ensures this.registry == registry && this.inventory == inventory && this.store == store && peers == []
    {
      this.registry, this.inventory, this.store, peers := registry, inventory, store, [];
    }

    /** Whether the handler raised. */
    method Apply(c: Command) returns (raised: bool)
      requires store.Valid()
      modifies this, registry, inventory, store
      ensures store.Valid()
      ensures Applied(View(), raised) == ApplyCommand(old(View()), c)
      ensures Carries(old(View()), c, Applied(View(), raised))
    {
      CommandOutcome(View(), c);
      hide Carries;
      raised := false;
      match c
      case AllocateBlock(b, version, nodes) =>
        var ok := S.Place(registry, inventory, store, b, version, nodes, 0);
        raised := !ok;
      case UpdatePlacement(b, version, nodes) =>
        var ok := S.Replace(registry, inventory, store, b, version, nodes, 0);
        raised := !ok;
      case AddPeer(p) =>
        if p !in peers {
          peers := peers + [p];
        }
      case RemovePeer(p) => ForgetPeer(p);
      case Reconfigure(ps) => peers := ps;
      case Other(_) =>
    }

    method ForgetPeer(p: NodeId)
      modifies this
      ensures peers == RemoveFirst(old(peers), p)
    {
      var k := 0;
      while k < |peers| && peers[k] != p
        invariant k <= |peers| && peers == old(peers)
        invariant RemoveFirst(peers, p) == peers[..k] + RemoveFirst(peers[k..], p)
      {
        assert peers[k..][1..] == peers[k + 1..];
        assert peers[..k + 1] == peers[..k] + [peers[k]];
        k := k + 1;
      }
      if k < |peers| {
        assert peers[k..][1..] == peers[k + 1..];
        peers := peers[..k] + peers[k + 1..];
      }
    }
  }

  class RaftNode {
    const me: NodeId
    const peers: set<NodeId>
    const storage: RaftStorage
    const stateMachine: RaftStateMachine
    var currentTerm: nat
    var votedFor: Option<NodeId>
    var role: Role
    var leaderId: Option<NodeId>
    var log: seq<LogEntry>
    var commitIndex: nat
    var lastApplied: nat
    var nextIndex: map<NodeId, nat>
    var matchIndex: map<NodeId, nat>
    var votesReceived: nat
    var poll: Option<Poll>

    ghost function View(): Peer
      reads this, storage, stateMachine, stateMachine.registry, stateMachine.inventory, stateMachine.store
    {
      Peer(currentTerm, votedFor, role, leaderId, log, commitIndex, lastApplied, stateMachine.View(),
           nextIndex, matchIndex, votesReceived, poll, storage.Contents())
    }

    ghost predicate Valid()
      reads this, stateMachine, stateMachine.store
    {
      stateMachine.store.Valid()
    }

    /** A node over an existing raft.db, at first start or after a crash; the state machine keeps
        what it holds. */
    constructor (me: NodeId, peers: set<NodeId>, storage: RaftStorage, stateMachine: RaftStateMachine)
      requires stateMachine.store.Valid()
      ensures this.me == me && this.peers == peers && this.storage == storage && this.stateMachine == stateMachine
      ensures Valid() && storage.Contents() == old(storage.Contents()) && stateMachine.View() == old(stateMachine.View())
      ensures forall stored :: View() == Boot(storage.Contents(), stored).(machine := stateMachine.View())
    {
      this.me, this.peers, this.storage, this.stateMachine := me, peers, storage, stateMachine;
      currentTerm, votedFor, role, leaderId := storage.currentTerm, storage.votedFor, Follower, None;
      log, commitIndex, lastApplied := [], 0, 0;
      nextIndex, matchIndex, votesReceived, poll := map[], map[], 0, None;
      new;
      log := storage.GetLog();
    }

    method LastLogInfo() returns (index: nat, term: nat)
      ensures index == LastIndex(log) && term == LastTerm(log)
    {
      if log == [] {
        return 0, 0;
      }
      return log[|log| - 1].index, log[|log| - 1].term;
    }

    method PersistState()
      modifies storage
      ensures storage.Contents() == old(storage.Contents()).(term := currentTerm, vote := votedFor)
    {
      hide S.Tables, RaftStateMachine.View;
      storage.SetState(currentTerm, votedFor);
    }

    method BecomeFollower(term: nat, leader: Option<NodeId>)
      requires Valid()
      modifies this, storage
      ensures Valid() && View() == RaftPeer.BecomeFollower(old(View()), term, leader)
    {
      hide S.Tables, RaftStateMachine.View;
      if term > currentTerm {
        currentTerm := term;
        votedFor := None;
      }
      role := Follower;
      if leader.Some? && leader.value != "" {
        leaderId := leader;
      }
      PersistState();
    }

    method HandleRequestVote(req: VoteRequest) returns (resp: VoteResponse)
      requires Valid()
      modifies this, storage
      ensures Valid() && (View(), resp) == OnRequestVote(old(View()), req)
      ensures AnswersVote(old(View()), req, View(), resp)
    {
      hide S.Tables, RaftStateMachine.View, AnswersVote;
      VoteIsGrantedIff(View(), req);
      if req.term < currentTerm {
        return VoteResponse(currentTerm, false);
      }
      if req.term > currentTerm {
        BecomeFollower(req.term, None);
      }
      var lastIndex, lastTerm := LastLogInfo();
      var upToDate := IsLogUpToDate(req.lastIndex, req.lastTerm, lastIndex, lastTerm);
      if (votedFor == None || votedFor == Some(req.candidate)) && upToDate {
        votedFor := Some(req.candidate);
        PersistState();
        return VoteResponse(currentTerm, true);
      }
      return VoteResponse(currentTerm, false);
    }

    /** The loop over a request's entries, and the insert that closes it. */
    method Store(entries: seq<LogEntry>)
      requires Valid()
      modifies this, storage
      ensures Valid() && View() == StoreEntries(old(View()), entries)
    {
      hide S.Tables, RaftStateMachine.View, MergeEntry, PutRows;
      var k := 0;
      while k < |entries|
        invariant k <= |entries| && Valid()
        invariant Merged(log, storage.rows) == MergeEntries(Merged(old(log), old(storage.rows)), entries[..k])
        invariant View() == old(View()).(log := log, disk := old(View()).disk.(rows := storage.rows))
      {
        MergeEntriesSnoc(Merged(old(log), old(storage.rows)), entries[..k], entries[k]);
        assert entries[..k + 1] == entries[..k] + [entries[k]];
        StoreOne(entries[k]);
        k := k + 1;
      }
      assert entries[..k] == entries;
      storage.AppendEntries(entries);
    }

    /** Cuts the log at a conflicting entry and appends what is missing. */
    method StoreOne(entry: LogEntry)
      requires Valid()
      modifies this`log, storage
      ensures Valid() && Merged(log, storage.rows) == MergeEntry(Merged(old(log), old(storage.rows)), entry)
      ensures storage.Contents() == old(storage.Contents()).(rows := storage.rows)
    {
      if entry.index <= |log| {
        if log[entry.index - 1].term != entry.term {
          log := log[..entry.index - 1];
          storage.TruncateLogFrom(entry.index);
        }
      }
      if entry.index > |log| {
        log := log + [entry];
      }
    }

    method ApplyPendingCommits() returns (raised: bool)
      requires Valid()
      modifies this, stateMachine, stateMachine.registry, stateMachine.inventory, stateMachine.store
      ensures Valid() && View() == ApplyPending(old(View())) && raised == ApplyRaises(old(View()))
      ensures AppliesPending(old(View()), View(), raised)
    {
      hide S.Tables, RaftStateMachine.View, ApplyCommand, AppliesPending;
      PendingIsApplied(View());
      while lastApplied < commitIndex
        invariant Valid()
        invariant ApplyPending(View()) == ApplyPending(old(View()))
        invariant ApplyRaises(View()) == ApplyRaises(old(View()))
        decreases commitIndex - lastApplied
      {
        ghost var before := View();
        lastApplied := lastApplied + 1;
        assert View() == before.(lastApplied := lastApplied);
        if lastApplied <= |log| {
          var r := stateMachine.Apply(log[lastApplied - 1].command);
          if r {
            return true;
          }
        }
      }
      return false;
    }

    /** None when applying a newly committed entry raises. */
    method HandleAppendEntries(req: AppendRequest) returns (resp: Option<AppendResponse>)
      requires Valid()
      modifies this, storage, stateMachine, stateMachine.registry, stateMachine.inventory, stateMachine.store
      ensures Valid() && (View(), resp) == OnAppendEntries(old(View()), req)
      ensures AnswersAppend(old(View()), req, View(), resp)
    {
      hide AnswersAppend, AppliesPending;
      AppendRequestOutcome(View(), req);
      hide S.Tables, RaftStateMachine.View, StoreEntries, ApplyPending, ApplyRaises, RaftPeer.BecomeFollower, S.MetadataStore.Valid;
      if req.term < currentTerm {
        return Some(AppendResponse(currentTerm, false, 0));
      }
      BecomeFollower(req.term, Some(req.leader));
      if req.prevIndex > 0 {
        if req.prevIndex > |log| {
          return Some(AppendResponse(currentTerm, false, 0));
        }
        if log[req.prevIndex - 1].term != req.prevTerm {
          return Some(AppendResponse(currentTerm, false, 0));
        }
      }
      if req.entries != [] {
        Store(req.entries);
      } else {
        StoreNothing(View());
      }
      if req.leaderCommit > commitIndex {
        commitIndex := if req.leaderCommit <= |log| then req.leaderCommit else |log|;
        var raised := ApplyPendingCommits();
        if raised {
          return None;
        }
      }
      return Some(AppendResponse(currentTerm, true, req.prevIndex + |req.entries|));
    }

    static lemma StoreNothing(s: Peer)
      ensures StoreEntries(s, []) == s
    {
    }

    method StartElection()
      requires Valid()
      modifies this, storage
      ensures Valid() && View() == RaftPeer.StartElection(old(View()), me, peers)
    {
      hide S.Tables, RaftStateMachine.View, RaftStorage.Contents, S.MetadataStore.Valid, LastIndex, LastTerm;
      if role == Leader {
        return;
      }
      var lastIndex, lastTerm := LastLogInfo();
      role := Candidate;
      currentTerm := currentTerm + 1;
      votedFor := Some(me);
      leaderId := None;
      votesReceived := 1;
      poll := Some(Poll(currentTerm, lastIndex, lastTerm, peers));
      PersistState();
      assert stateMachine.View() == old(stateMachine.View());
      assert storage.Contents() == old(storage.Contents()).(term := currentTerm, vote := votedFor);
    }

    /** One turn of the voting loop: the answer of one peer, or None if it was unreachable. */
    method CountVote(from: NodeId, resp: Option<VoteResponse>)
      requires Valid() && poll.Some?
      modifies this, storage
      ensures Valid() && View() == OnVoteReply(old(View()), from, resp)
    {
      hide S.Tables, RaftStateMachine.View;
      var p := poll.value;
      poll := Some(p.(pending := p.pending - {from}));
      if resp == None {
        return;
      }
      if resp.value.term > currentTerm {
        BecomeFollower(resp.value.term, None);
        poll := None;
        return;
      }
      if resp.value.granted {
        votesReceived := votesReceived + 1;
      }
    }

    method ConcludeElection()
      requires Valid()
      modifies this
      ensures Valid() && View() == RaftPeer.ConcludeElection(old(View()), me, peers)
    {
      hide S.Tables, RaftStateMachine.View;
      poll := None;
      if role == Candidate && votesReceived >= MajorityCount(|peers|) {
        BecomeLeader();
      }
    }

    method BecomeLeader()
      requires Valid()
      modifies this
      ensures Valid() && View() == RaftPeer.BecomeLeader(old(View()), me, peers)
    {
      hide S.Tables, RaftStateMachine.View, SetAll, S.MetadataStore.Valid;
      var lastIndex, _ := LastLogInfo();
      role := Leader;
      leaderId := Some(me);
      ResetIndexes(lastIndex);
    }

    method ResetIndexes(lastIndex: nat)
      modifies this`nextIndex, this`matchIndex
      ensures nextIndex == SetAll(old(nextIndex), peers, lastIndex + 1)
      ensures matchIndex == SetAll(old(matchIndex), peers, 0)
    {
      hide SetAll;
      SetNone(nextIndex, lastIndex + 1);
      SetNone(matchIndex, 0);
      var todo := peers;
      assert peers - todo == {};
      while todo != {}
        invariant todo <= peers
        invariant nextIndex == SetAll(old(nextIndex), peers - todo, lastIndex + 1)
        invariant matchIndex == SetAll(old(matchIndex), peers - todo, 0)
        decreases |todo|
      {
        var p :| p in todo;
        SetOneMore(old(nextIndex), peers - todo, p, lastIndex + 1);
        SetOneMore(old(matchIndex), peers - todo, p, 0);
        assert peers - todo + {p} == peers - (todo - {p});
        nextIndex := nextIndex[p := lastIndex + 1];
        matchIndex := matchIndex[p := 0];
        todo := todo - {p};
      }
      assert peers - todo == peers;
    }

    static lemma SetNone(m: map<NodeId, nat>, n: nat)
      ensures SetAll(m, {}, n) == m
    {
    }

    static lemma SetOneMore(m: map<NodeId, nat>, done: set<NodeId>, p: NodeId, n: nat)
      ensures SetAll(m, done + {p}, n) == SetAll(m, done, n)[p := n]
    {
    }

    method LogTermAt(index: nat) returns (term: nat)
      ensures term == TermAt(log, index)
      ensures if 1 <= index <= |log| then term == log[index - 1].term else term == 0
    {
      if index == 0 {
        return 0;
      }
      if index <= |log| {
        return log[index - 1].term;
      }
      return 0;
    }

    /** The first locked section of _replicate_to_peer; None unless leader. */
    method BuildAppend(to: NodeId) returns (req: Option<AppendRequest>)
      ensures req == if role == Leader then Some(RaftPeer.BuildAppend(View(), me, to)) else None
    {
      hide S.Tables, RaftStateMachine.View, EntriesFrom;
      if role != Leader {
        return None;
      }
      var next := if to in nextIndex then nextIndex[to] else 1;
      var prev := if next > 0 then next - 1 else 0;
      var prevTerm := LogTermAt(prev);
      var entries := SuffixFrom(next);
      return Some(AppendRequest(currentTerm, me, prev, prevTerm, entries, commitIndex));
    }

    method SuffixFrom(next: nat) returns (entries: seq<LogEntry>)
      ensures entries == EntriesFrom(log, next)
    {
      entries := [];
      var k := 0;
      while k < |log|
        invariant k <= |log|
        invariant entries + EntriesFrom(log[k..], next) == EntriesFrom(log, next)
      {
        assert log[k..][1..] == log[k + 1..];
        if log[k].index >= next {
          entries := entries + [log[k]];
        }
        k := k + 1;
      }
      assert entries == entries + EntriesFrom(log[k..], next);
    }

    /** The second locked section of _replicate_to_peer: neither the role nor the request's
        term is looked at again. */
    method ProcessReply(from: NodeId, req: AppendRequest, resp: AppendResponse)
      requires Valid()
      modifies this, storage, stateMachine, stateMachine.registry, stateMachine.inventory, stateMachine.store
      ensures Valid() && View() == OnAppendReply(old(View()), peers, from, req, resp)
      ensures FoldsReply(old(View()), peers, from, req, resp, View())
    {
      hide S.Tables, RaftStateMachine.View, FoldsReply, AdvancesCommit;
      ReplyOutcome(View(), peers, from, req, resp);
      if resp.term > currentTerm {
        BecomeFollower(resp.term, None);
        return;
      }
      var next := req.prevIndex + 1;
      if resp.success {
        if req.entries != [] {
          var last := req.entries[|req.entries| - 1].index;
          matchIndex := matchIndex[from := last];
          nextIndex := nextIndex[from := last + 1];
        } else {
          matchIndex := matchIndex[from := req.prevIndex];
        }
        AdvanceCommitIndex();
      } else {
        if next > 1 {
          nextIndex := nextIndex[from := next - 1];
        }
      }
    }

    method CountReplicas(n: nat) returns (count: nat)
      ensures count == 1 + |Replicas(View(), peers, n)|
    {
      hide S.Tables, RaftStateMachine.View;
      count := 1;
      var todo := peers;
      while todo != {}
        invariant todo <= peers
        invariant count == 1 + |Replicas(View(), peers - todo, n)|
        decreases |todo|
      {
        var p :| p in todo;
        ghost var before := Replicas(View(), peers - todo, n);
        todo := todo - {p};
        ghost var after := Replicas(View(), peers - todo, n);
        if (if p in matchIndex then matchIndex[p] else 0) >= n {
          count := count + 1;
          assert after == before + {p};
        } else {
          assert after == before;
        }
      }
      assert peers - todo == peers;
    }

    method AdvanceCommitIndex()
      requires Valid()
      modifies this, stateMachine, stateMachine.registry, stateMachine.inventory, stateMachine.store
      ensures Valid() && View() == AdvanceCommit(old(View()), peers)
      ensures AdvancesCommit(old(View()), peers, View())
    {
      hide S.Tables, RaftStateMachine.View, AppliesPending, AdvancesCommit;
      CommitIsHighest(View(), peers);
      var n: nat := |log|;
      while n > commitIndex
        invariant n <= |log| && Valid()
        invariant View() == old(View())
        invariant HighestCountable(View(), peers, |log|) == HighestCountable(View(), peers, n)
      {
        if log[n - 1].term == currentTerm {
          var count := CountReplicas(n);
          if count >= MajorityCount(|peers|) {
            commitIndex := n;
            assert View() == old(View()).(commitIndex := n);
            var _ := ApplyPendingCommits();
            return;
          }
        }
        n := n - 1;
      }
    }

    method AppendLocalEntry(c: Command) returns (entry: LogEntry)
      requires Valid()
      modifies this, storage
      ensures Valid() && View() == AppendLocal(old(View()), c) && log == old(log) + [entry]
    {
      hide S.Tables, RaftStateMachine.View;
      var lastIndex, _ := LastLogInfo();
      entry := LogEntry(lastIndex + 1, currentTerm, c);
      log := log + [entry];
      storage.AppendEntries([entry]);
      assert PutRows(old(storage.rows), [entry]) == old(storage.rows)[entry.index := entry] by {
        assert [entry][1..] == [];
      }
    }

    /** The locked section of propose, which the leader test is outside of. */
    method Propose(c: Command)
      requires Valid()
      modifies this, storage, stateMachine, stateMachine.registry, stateMachine.inventory, stateMachine.store
      ensures Valid() && View() == RaftPeer.Propose(old(View()), peers, c)
    {
      hide S.Tables, RaftStateMachine.View;
      var _ := AppendLocalEntry(c);
      if peers == {} {
        AdvanceCommitIndex();
      }
    }
  }

  /** The start of the metadata service over a database and a raft.db: the placement service
      recovers the tables before the Raft node is built on them. */
  method StartMetadataService(me: NodeId, peers: set<NodeId>, storage: RaftStorage, store: S.MetadataStore)
      returns (node: RaftNode, service: S.PlacementService)
    requires store.Valid()
    ensures node.Valid() && node.storage == storage && node.stateMachine.store == store
    ensures storage.Contents() == old(storage.Contents()) && store.Contents() == old(store.Contents())
    ensures node.View() == Boot(storage.Contents(), store.Contents())
    ensures service.registry == node.stateMachine.registry && service.inventory == node.stateMachine.inventory && service.store == store
    ensures service.View() == P.Recover(store.Contents())
  {
    var registry := new S.PlacementRegistry();
    var inventory := new S.NodeInventory();
    var policy := new S.RoundRobinPlacementPolicy();
    service := new S.PlacementService(registry, inventory, store, policy);
    service.Recover();
    var stateMachine := new RaftStateMachine(registry, inventory, store);
    hide P.Recover, SortedRows;
    assert stateMachine.View() == Machine(P.Recover(store.Contents()).(counter := 0), []);
    node := new RaftNode(me, peers, storage, stateMachine);
  }
}
