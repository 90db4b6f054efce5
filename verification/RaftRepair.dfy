/** Log repair: from any reachable state, a leader that keeps talking to one peer brings that
    peer's log to extend its own. */
module RaftRepair {
  import opened Metadata
  import opened RaftLog
  import opened RaftPeer
  import opened RaftCluster
  import opened RaftInvariant
  import opened RaftSteps
  import opened RaftSafety

  lemma RunExtends(members: set<NodeId>, states: seq<Cluster>, steps: seq<Step>, s: Step)
    requires Run(members, states, steps)
    requires Enabled(states[|steps|], s) && Timely(states[|steps|], s)
    ensures Run(members, states + [Next(states[|steps|], s)], steps + [s])
  {
    hide Enabled, Timely, Next, Init;
  }

  ghost predicate SameLeader(p: Peer, q: Peer) {
    q.role == Leader && q.currentTerm == p.currentTerm && q.log == p.log
  }

  /** One request from the leader either leaves the peer's log extending the leader's, or is
      rejected because of the preceding entry, which means there is one to step back over. */
  lemma RequestOutcome(members: set<NodeId>, c: Cluster, h: History, i: NodeId, p: NodeId)
    requires Inv(members, c.peers, c.net, h) && i in members && p in members && p != i
    requires c.peers[i].role == Leader && c.peers[p].currentTerm <= c.peers[i].currentTerm
    ensures var a := BuildAppend(c.peers[i], i, p);
            var r := OnAppendEntries(c.peers[p], a);
            && a.prevIndex + 1 == Lookup(c.peers[i].nextIndex, p, 1)
            && r.0.currentTerm == c.peers[i].currentTerm
            && (Agree(r.0.log, c.peers[i].log, |c.peers[i].log|)
                || (a.prevIndex > 0 && r.1 == Some(AppendResponse(c.peers[i].currentTerm, false, 0))))
  {
    hide ReignsOK, VotesOK, BallotsOK, PeersOK, AcksBind, AcksHeld, ReignsBind, VotesBind, NetOK, PeerOK, Grows, Mirror, Backed, GoodLog, Retains;
    var a := BuildAppend(c.peers[i], i, p);
    PeerOf(members, c.peers, h, i);
    PeerOf(members, c.peers, h, p);
    BuiltAppendOK(members, c.peers[i], h, i, p);
    LeadersLog(members, c.peers[i], h, i);
    NextIsPositive(members, c.peers[i], h, i, p);
    ReignLogGood(members, c.peers, h, a.term);
    var s := BecomeFollower(c.peers[p], a.term, Some(i));
    FollowerOK(members, c.peers, h, p, a.term, Some(i));
    QuietPeer(members, c.peers, h, p, s);
    PeerLog(members, s, h, p);
    if PrevMatches(s.log, a.prevIndex, a.prevTerm) {
      StoreOutcome(members, s, h, a);
      ApplyKeepsLog(AdvanceFollowerCommit(StoreEntries(s, a.entries), a.leaderCommit));
    }
  }

  lemma ApplyKeepsLog(s: Peer)
    ensures ApplyPending(s).log == s.log && ApplyPending(s).currentTerm == s.currentTerm
    decreases s.commitIndex - s.lastApplied
  {
  }

  lemma NextIsPositive(members: set<NodeId>, p: Peer, h: History, i: NodeId, to: NodeId)
    requires PeerOK(members, p, h, i) && p.role == Leader && to in members && to != i
    ensures Lookup(p.nextIndex, to, 1) >= 1
  {
  }

  /** One request by leader i to peer p, delivered. */
  lemma SendOnce(members: set<NodeId>, states: seq<Cluster>, steps: seq<Step>, i: NodeId, p: NodeId)
      returns (states': seq<Cluster>, steps': seq<Step>)
    requires Run(members, states, steps) && i in members && p in members && p != i
    requires i in states[|steps|].peers && p in states[|steps|].peers
    requires states[|steps|].peers[i].role == Leader
    requires states[|steps|].peers[p].currentTerm <= states[|steps|].peers[i].currentTerm
    ensures Run(members, states', steps') && |steps'| == |steps| + 2
    ensures states <= states' && steps <= steps'
    ensures var a := BuildAppend(states[|steps|].peers[i], i, p);
            var r := OnAppendEntries(states[|steps|].peers[p], a);
            && states'[|steps'|].peers == states[|steps|].peers[p := r.0]
            && (r.1.Some? ==> AppendReply(p, a, r.1.value) in states'[|steps'|].net)
  {
    hide Run, BuildAppend, OnAppendEntries;
    RunLength(members, states, steps);
    var c := states[|steps|];
    var s1 := Replicate(i, p);
    RunExtends(members, states, steps, s1);
    var c1 := Next(c, s1);
    var s2 := ReceiveAppend(p, BuildAppend(c.peers[i], i, p));
    BuiltBy(c.peers[i], i, p);
    assert (states + [c1])[|steps + [s1]|] == c1;
    RunExtends(members, states + [c1], steps + [s1], s2);
    states' := states + [c1] + [Next(c1, s2)];
    steps' := steps + [s1] + [s2];
    RunLength(members, states', steps');
    assert states'[|steps'|] == Next(c1, s2);
  }

  lemma RunLength(members: set<NodeId>, states: seq<Cluster>, steps: seq<Step>)
    requires Run(members, states, steps)
    ensures |states| == |steps| + 1
  {
  }

  lemma BuiltBy(p: Peer, i: NodeId, to: NodeId)
    ensures BuildAppend(p, i, to).leader == i
  {
  }

  /** Taking a rejection back to the leader steps nextIndex down by one and changes nothing else. */
  lemma RejectOnce(members: set<NodeId>, states: seq<Cluster>, steps: seq<Step>, i: NodeId, p: NodeId, a: AppendRequest)
      returns (states': seq<Cluster>, steps': seq<Step>)
    requires Run(members, states, steps) && p != i
    requires |states| == |steps| + 1 && i in states[|steps|].peers && p in states[|steps|].peers
    requires states[|steps|].peers[i].role == Leader && a.leader == i && a.term == states[|steps|].peers[i].currentTerm
    requires a.prevIndex > 0 && AppendReply(p, a, AppendResponse(a.term, false, 0)) in states[|steps|].net
    ensures Run(members, states', steps') && |steps'| == |steps| + 1 && |states'| == |steps'| + 1
    ensures states <= states' && steps <= steps'
    ensures var leader := states[|steps|].peers[i];
            states'[|steps'|].peers == states[|steps|].peers[i := leader.(nextIndex := leader.nextIndex[p := a.prevIndex])]
  {
    hide Run;
    var s := ReceiveAppendReply(i, p, a, AppendResponse(a.term, false, 0));
    RunExtends(members, states, steps, s);
    states' := states + [Next(states[|steps|], s)];
    steps' := steps + [s];
  }

  /** After at most nextIndex requests from a leader to a peer that has not passed its term,
      the peer's log extends the leader's; the leader's log and term have not moved. */
  lemma {:induction false} LogIsRepaired(members: set<NodeId>, states: seq<Cluster>, steps: seq<Step>, i: NodeId, p: NodeId)
      returns (states': seq<Cluster>, steps': seq<Step>)
    requires Run(members, states, steps) && p != i
    requires i in states[|steps|].peers && p in states[|steps|].peers
    requires states[|steps|].peers[i].role == Leader
    requires states[|steps|].peers[p].currentTerm <= states[|steps|].peers[i].currentTerm
    ensures Run(members, states', steps') && |states'| == |steps'| + 1
    ensures states <= states' && steps <= steps'
    ensures |steps'| <= |steps| + 3 * Lookup(states[|steps|].peers[i].nextIndex, p, 1)
    ensures i in states'[|steps'|].peers && p in states'[|steps'|].peers
    ensures SameLeader(states[|steps|].peers[i], states'[|steps'|].peers[i])
    ensures states[|steps|].peers[i].log <= states'[|steps'|].peers[p].log
    decreases Lookup(states[|steps|].peers[i].nextIndex, p, 1)
  {
    hide Run, BuildAppend, OnAppendEntries, Inv, ReignsOK, VotesOK, ReignsBind, AcksHeld, PeerOK, Next, Enabled;
    RunLength(members, states, steps);
    var leader := states[|steps|].peers[i];
    var h := LastHistory(members, states, steps);
    Peek(members, states[|steps|], h, i);
    RequestOutcome(members, states[|steps|], h, i, p);
    var a := BuildAppend(leader, i, p);
    var r := OnAppendEntries(states[|steps|].peers[p], a);
    states', steps' := SendOnce(members, states, steps, i, p);
    RunLength(members, states', steps');
    if !Agree(r.0.log, leader.log, |leader.log|) {
      BuiltBy(leader, i, p);
      BuiltTerm(leader, i, p);
      states', steps' := RejectOnce(members, states', steps', i, p, a);
      assert states'[|steps'|].peers[i] == leader.(nextIndex := leader.nextIndex[p := a.prevIndex]);
      assert states'[|steps'|].peers[p] == r.0;
      states', steps' := LogIsRepaired(members, states', steps', i, p);
    }
  }

  lemma BuiltTerm(p: Peer, i: NodeId, to: NodeId)
    ensures BuildAppend(p, i, to).term == p.currentTerm
  {
  }

  lemma LastHistory(members: set<NodeId>, states: seq<Cluster>, steps: seq<Step>) returns (h: History)
    requires Run(members, states, steps)
    ensures |states| == |steps| + 1 && Inv(members, states[|steps|].peers, states[|steps|].net, h)
  {
    hide Inv, Grows;
    var hs := RunHasHistory(members, states, steps);
    h := hs[|steps|];
  }
}
