/** The replicated part of the metadata state and its commands (metadata/raft/state_machine.py). */
module MetadataMachine {
  import opened Metadata
  import opened Placement
  import opened PlacementPromises

  datatype Machine = Machine(placements: Placements, peers: seq<NodeId>)

  const EmptyMachine := Machine(NoPlacements, [])

  /** A command that the store rejects raises and changes nothing. */
  datatype Applied = Applied(machine: Machine, raised: bool)

  function RemoveFirst(q: seq<NodeId>, x: NodeId): seq<NodeId> {
    if q == [] then [] else if q[0] == x then q[1..] else [q[0]] + RemoveFirst(q[1..], x)
  }

  function Placed(m: Machine, r: Option<Placements>): Applied {
    if r.Some? then Applied(m.(placements := r.value), false) else Applied(m, true)
  }

  function ApplyCommand(m: Machine, c: Command): Applied {
    match c
    case AllocateBlock(b, version, nodes) => Placed(m, Place(m.placements, b, version, nodes))
    case UpdatePlacement(b, version, nodes) => Placed(m, Replace(m.placements, b, version, nodes))
    case AddPeer(p) => Applied(if p in m.peers then m else m.(peers := m.peers + [p]), false)
    case RemovePeer(p) => Applied(m.(peers := RemoveFirst(m.peers, p)), false)
    case Reconfigure(ps) => Applied(m.(peers := ps), false)
    case Other(_) => Applied(m, false)
  }

  /** What a command does to placements and peers: it raises exactly for a repeated node. */
  ghost predicate Carries(m: Machine, c: Command, a: Applied) {
    match c
    case AllocateBlock(b, version, nodes) =>
      && (a.raised <==> !NoDuplicates(nodes)) && a.machine.peers == m.peers
      && if a.raised then a.machine == m else PlacedOver(m.placements, b, version, nodes, a.machine.placements)
    case UpdatePlacement(b, version, nodes) =>
      && (a.raised <==> !NoDuplicates(nodes)) && a.machine.peers == m.peers
      && if a.raised then a.machine == m else PlacedAt(m.placements, b, version, nodes, a.machine.placements)
    case AddPeer(p) =>
      && !a.raised && a.machine.placements == m.placements && p in a.machine.peers
      && m.peers <= a.machine.peers && |a.machine.peers| == |m.peers| + if p in m.peers then 0 else 1
    case RemovePeer(p) =>
      && !a.raised && a.machine.placements == m.placements
      && (p !in m.peers ==> a.machine.peers == m.peers)
      && forall k {:trigger m.peers[k]} | 0 <= k < |m.peers| && m.peers[k] == p && p !in m.peers[..k] ::
           a.machine.peers == m.peers[..k] + m.peers[k + 1..]
    case Reconfigure(ps) => a == Applied(Machine(m.placements, ps), false)
    case Other(_) => a == Applied(m, false)
  }

  lemma {:induction false} RemoveFirstAt(q: seq<NodeId>, x: NodeId, k: nat)
    requires k < |q| && q[k] == x && x !in q[..k]
    ensures RemoveFirst(q, x) == q[..k] + q[k + 1..]
  {
    if k > 0 {
      assert q[0] in q[..k];
      assert q[1..][..k - 1] == q[1..k] && q[1..][k..] == q[k + 1..];
      RemoveFirstAt(q[1..], x, k - 1);
      assert [q[0]] + (q[1..k] + q[k + 1..]) == q[..k] + q[k + 1..];
    }
  }

  lemma {:induction false} RemoveFirstAbsent(q: seq<NodeId>, x: NodeId)
    requires x !in q
    ensures RemoveFirst(q, x) == q
  {
    if q != [] {
      RemoveFirstAbsent(q[1..], x);
    }
  }

  lemma CommandOutcome(m: Machine, c: Command)
    ensures Carries(m, c, ApplyCommand(m, c))
  {
    hide PlacedOver, PlacedAt, Place, Replace, NoDuplicates;
    match c
    case AllocateBlock(b, version, nodes) => PlacePlacesOver(m.placements, b, version, nodes);
    case UpdatePlacement(b, version, nodes) => ReplacePlaces(m.placements, b, version, nodes);
    case RemovePeer(p) =>
      if p !in m.peers {
        RemoveFirstAbsent(m.peers, p);
      }
      forall k | 0 <= k < |m.peers| && m.peers[k] == p && p !in m.peers[..k]
        ensures RemoveFirst(m.peers, p) == m.peers[..k] + m.peers[k + 1..]
      {
        RemoveFirstAt(m.peers, p, k);
      }
    case _ =>
  }

  /** A command keeps the inverse index exact unless it allocates an already placed block away
      from one of its holders. */
  lemma CommandKeepsIndexIff(m: Machine, c: Command)
    requires Consistent(m.placements)
    ensures var p := ApplyCommand(m, c).machine.placements;
            && Persisted(p)
            && (Tracks(p.inventory, p.blocks) <==>
                 !(c.AllocateBlock? && NoDuplicates(c.nodes) && c.block in m.placements.blocks
                   && exists n :: n in m.placements.blocks[c.block] && n !in c.nodes))
  {
    match c
    case AllocateBlock(b, version, nodes) =>
      if NoDuplicates(nodes) {
        PlaceKeepsIndexIff(m.placements, b, version, nodes);
      }
    case UpdatePlacement(b, version, nodes) => ReplaceIsConsistent(m.placements, b, version, nodes);
    case _ =>
  }

  // ----- starting over recovered tables -----

  /** What a start of the metadata service hands the Raft node: the tables rebuilt from the
      stored rows, and no peers.  The round-robin counter is not the state machine's. */
  function Booted(stored: map<BlockId, Stored>): Machine {
    Machine(Recover(stored).(counter := 0), [])
  }

  lemma BootedOnNothing()
    ensures Booted(map[]) == EmptyMachine
  {
    assert Rebuild(map[]) == map[];
  }

  function ApplyAll(m: Machine, cs: seq<Command>): Machine {
    if cs == [] then m else ApplyCommand(ApplyAll(m, cs[..|cs| - 1]), cs[|cs| - 1]).machine
  }

  lemma ApplyAllSnoc(m: Machine, cs: seq<Command>, c: Command)
    ensures ApplyAll(m, cs + [c]) == ApplyCommand(ApplyAll(m, cs), c).machine
  {
    assert (cs + [c])[..|cs|] == cs;
  }

  lemma {:induction false} ApplyAllSplits(m: Machine, cs: seq<Command>, more: seq<Command>)
    ensures ApplyAll(m, cs + more) == ApplyAll(ApplyAll(m, cs), more)
  {
    if more == [] {
      assert cs + more == cs;
    } else {
      var n := |more| - 1;
      assert cs + more == cs + more[..n] + [more[n]];
      ApplyAllSplits(m, cs, more[..n]);
      ApplyAllSnoc(m, cs + more[..n], more[n]);
    }
  }
}
