/** A fixed set of RaftNodes and the messages between them, as a transition system.
    A message, once sent, stays available for ever: it may be delivered never, late, twice,
    or out of order.  Every locked section of the source is one step. */
module RaftCluster {
  import opened Metadata
  import opened RaftLog
  import opened RaftPeer

  datatype Message =
    | AskVote(vote: VoteRequest)
    | VoteReply(voter: NodeId, vote: VoteRequest, answer: VoteResponse)
    | Append(append: AppendRequest)
    | AppendReply(replica: NodeId, append: AppendRequest, result: AppendResponse)

  datatype Cluster = Cluster(peers: map<NodeId, Peer>, net: set<Message>)

  /** Where handling an append request dies: after merging some entries into the list and
      before they are inserted, or after that and with some more entries applied. */
  datatype CrashPoint = Merging(merged: nat) | Applying(applied: nat)

  datatype Step =
    | Timeout(i: NodeId)
    | ReceiveVoteRequest(i: NodeId, vote: VoteRequest)
    | ReceiveVoteRequestAndCrash(i: NodeId, vote: VoteRequest)
    | ReceiveVoteReply(i: NodeId, from: NodeId, answer: VoteResponse)
    | VoterUnreachable(i: NodeId, from: NodeId)
    | Conclude(i: NodeId)
    | ClientPropose(i: NodeId, command: Command)
    | ClientProposeAndCrash(i: NodeId, command: Command, applied: nat)
    | Replicate(i: NodeId, to: NodeId)
    | ReceiveAppend(i: NodeId, append: AppendRequest)
    | ReceiveAppendAndCrash(i: NodeId, append: AppendRequest, point: CrashPoint)
    | ReceiveAppendReply(i: NodeId, from: NodeId, append: AppendRequest, result: AppendResponse)
    | ReceiveAppendReplyAndCrash(i: NodeId, from: NodeId, append: AppendRequest, result: AppendResponse, applied: nat)
    | CrashRestart(i: NodeId)

  /** The vote request a running election is sending round. */
  function PollRequest(i: NodeId, p: Poll): VoteRequest {
    VoteRequest(p.term, i, p.lastIndex, p.lastTerm)
  }

  ghost function Others(c: Cluster, i: NodeId): set<NodeId> {
    c.peers.Keys - {i}
  }

  /** What the code needs to take a step at all.  Nothing here asks whether a proposer or the
      receiver of an append reply is still leader; see Timely. */
  ghost predicate Enabled(c: Cluster, s: Step) {
    && s.i in c.peers
    && var p := c.peers[s.i];
       match s
       case Timeout(_) => p.poll == None
       case ReceiveVoteRequest(i, vote) => AskVote(vote) in c.net && vote.candidate != i
       case ReceiveVoteRequestAndCrash(i, vote) => AskVote(vote) in c.net && vote.candidate != i
       case ReceiveVoteReply(i, from, answer) =>
         p.poll.Some? && from in p.poll.value.pending && VoteReply(from, PollRequest(i, p.poll.value), answer) in c.net
       case VoterUnreachable(_, from) => p.poll.Some? && from in p.poll.value.pending
       case Conclude(_) => p.poll.Some? && p.poll.value.pending == {}
       case ClientPropose(_, _) => true
       case ClientProposeAndCrash(i, command, applied) => p.lastApplied + applied <= Propose(p, Others(c, i), command).lastApplied
       case Replicate(i, to) => p.role == Leader && to in c.peers && to != i
       case ReceiveAppend(i, append) => Append(append) in c.net && append.leader != i
       case ReceiveAppendAndCrash(i, append, point) =>
         && Append(append) in c.net && append.leader != i
         && if point.Merging? then point.merged <= |append.entries|
            else p.lastApplied + point.applied <= OnAppendEntries(p, append).0.lastApplied
       case ReceiveAppendReply(i, from, append, result) => AppendReply(from, append, result) in c.net && append.leader == i
       case ReceiveAppendReplyAndCrash(i, from, append, result, applied) =>
         && AppendReply(from, append, result) in c.net && append.leader == i
         && p.lastApplied + applied <= OnAppendReply(p, Others(c, i), from, append, result).lastApplied
       case CrashRestart(_) => true
  }

  predicate ReplyIsTimely(p: Peer, append: AppendRequest, result: AppendResponse) {
    result.term > p.currentTerm || (p.role == Leader && p.currentTerm == append.term)
  }

  /** The two checks the source omits.  propose tests for leadership before it takes the lock,
      and _replicate_to_peer gives the lock up while it waits; a step is timely if the peer
      is still leader, and for a reply still leader of the request's term. */
  ghost predicate Timely(c: Cluster, s: Step)
    requires Enabled(c, s)
  {
    match s
    case ClientPropose(i, _) => c.peers[i].role == Leader
    case ClientProposeAndCrash(i, _, _) => c.peers[i].role == Leader
    case ReceiveAppendReply(i, _, append, result) => ReplyIsTimely(c.peers[i], append, result)
    case ReceiveAppendReplyAndCrash(i, _, append, result, _) => ReplyIsTimely(c.peers[i], append, result)
    case _ => true
  }

  ghost function Next(c: Cluster, s: Step): Cluster
    requires Enabled(c, s)
  {
    var p := c.peers[s.i];
    match s
    case Timeout(i) =>
      var p' := StartElection(p, i, Others(c, i));
      Cluster(c.peers[i := p'],
              if p'.poll.Some? then c.net + {AskVote(PollRequest(i, p'.poll.value))} else c.net)
    case ReceiveVoteRequest(i, vote) =>
      var r := OnRequestVote(p, vote);
      Cluster(c.peers[i := r.0], c.net + {VoteReply(i, vote, r.1)})
    case ReceiveVoteRequestAndCrash(i, vote) => c.(peers := c.peers[i := OnRequestVoteCrash(p, vote.term)])
    case ReceiveVoteReply(i, from, answer) => c.(peers := c.peers[i := OnVoteReply(p, from, Some(answer))])
    case VoterUnreachable(i, from) => c.(peers := c.peers[i := OnVoteReply(p, from, None)])
    case Conclude(i) => c.(peers := c.peers[i := ConcludeElection(p, i, Others(c, i))])
    case ClientPropose(i, command) => c.(peers := c.peers[i := Propose(p, Others(c, i), command)])
    case ClientProposeAndCrash(i, command, applied) =>
      c.(peers := c.peers[i := Interrupted(p, Propose(p, Others(c, i), command), applied)])
    case Replicate(i, to) => c.(net := c.net + {Append(BuildAppend(p, i, to))})
    case ReceiveAppend(i, append) =>
      var r := OnAppendEntries(p, append);
      Cluster(c.peers[i := r.0],
              if r.1.Some? then c.net + {AppendReply(i, append, r.1.value)} else c.net)
    case ReceiveAppendAndCrash(i, append, point) =>
      var q := if point.Merging? then OnAppendEntriesCrash(p, append, point.merged)
               else Interrupted(p, OnAppendEntries(p, append).0, point.applied);
      c.(peers := c.peers[i := q])
    case ReceiveAppendReply(i, from, append, result) =>
      c.(peers := c.peers[i := OnAppendReply(p, Others(c, i), from, append, result)])
    case ReceiveAppendReplyAndCrash(i, from, append, result, applied) =>
      c.(peers := c.peers[i := Interrupted(p, OnAppendReply(p, Others(c, i), from, append, result), applied)])
    case CrashRestart(i) => c.(peers := c.peers[i := Boot(p.disk, p.machine.placements.stored)])
  }

  ghost predicate Init(members: set<NodeId>, c: Cluster) {
    && c.peers.Keys == members
    && c.net == {}
    && forall i | i in members :: c.peers[i] == Boot(EmptyDisk, map[])
  }

  /** A run of the code as it stands: states.[k + 1] follows states.[k] by steps.[k]. */
  ghost predicate CodeRun(members: set<NodeId>, states: seq<Cluster>, steps: seq<Step>) {
    && |states| == |steps| + 1
    && Init(members, states[0])
    && forall k | 0 <= k < |steps| :: Enabled(states[k], steps[k]) && states[k + 1] == Next(states[k], steps[k])
  }

  /** A run in which proposals and append replies are timely. */
  ghost predicate Run(members: set<NodeId>, states: seq<Cluster>, steps: seq<Step>) {
    && CodeRun(members, states, steps)
    && forall k | 0 <= k < |steps| :: Timely(states[k], steps[k])
  }
}
