/** Block placement: the registry, its inverse index, the durable rows and the round-robin
    policy (metadata/placement_service.py, placement_registry.py, node_inventory.py,
    metadata_store.py, placement_policy.py), as functions on values. */
module Placement {
  import opened Metadata
  import opened Order

  datatype Stored = Stored(version: int, nodes: set<NodeId>)

  datatype Placements = Placements(
    blocks: map<BlockId, seq<NodeId>>,
    versions: map<BlockId, int>,
    inventory: map<NodeId, seq<BlockId>>,
    stored: map<BlockId, Stored>,
    counter: nat)

  const NoPlacements := Placements(map[], map[], map[], map[], 0)

  predicate NoDuplicates<T(==)>(q: seq<T>) {
    forall i, j | 0 <= i < j < |q| :: q[i] != q[j]
  }

  // ----- node_inventory.py -----

  function InventoryOf(inv: map<NodeId, seq<BlockId>>, n: NodeId): seq<BlockId> {
    if n in inv then inv[n] else []
  }

  function AddBlock(inv: map<NodeId, seq<BlockId>>, n: NodeId, b: BlockId): map<NodeId, seq<BlockId>> {
    inv[n := SortSet(Elements(InventoryOf(inv, n)) + {b})]
  }

  function Without(q: seq<BlockId>, b: BlockId): seq<BlockId> {
    if q == [] then [] else if q[0] == b then Without(q[1..], b) else [q[0]] + Without(q[1..], b)
  }

  function RemoveBlock(inv: map<NodeId, seq<BlockId>>, n: NodeId, b: BlockId): map<NodeId, seq<BlockId>> {
    if n !in inv then inv
    else
      var updated := Without(inv[n], b);
      if updated != [] then inv[n := updated] else inv - {n}
  }

  /** add_block for each node not in `skip`. */
  function AddToNodes(inv: map<NodeId, seq<BlockId>>, nodes: seq<NodeId>, skip: seq<NodeId>, b: BlockId): map<NodeId, seq<BlockId>> {
    if nodes == [] then inv
    else
      var n := nodes[|nodes| - 1];
      var before := AddToNodes(inv, nodes[..|nodes| - 1], skip, b);
      if n in skip then before else AddBlock(before, n, b)
  }

  /** remove_block for each node not in `keep`. */
  function RemoveFromNodes(inv: map<NodeId, seq<BlockId>>, nodes: seq<NodeId>, keep: seq<NodeId>, b: BlockId): map<NodeId, seq<BlockId>> {
    if nodes == [] then inv
    else
      var n := nodes[|nodes| - 1];
      var before := RemoveFromNodes(inv, nodes[..|nodes| - 1], keep, b);
      if n in keep then before else RemoveBlock(before, n, b)
  }

  // ----- placement_policy.py -----

  /** None when select_nodes raises. */
  function SelectNodes(counter: nat, available: set<NodeId>, factor: int): (r: Option<seq<NodeId>>)
    ensures r.Some? <==> 1 <= factor <= |available|
  {
    if available == {} || factor < 1 || factor > |available| then None
    else
      SortSetIsSorted(available);
      Some(RoundRobin(SortSet(available), counter, factor))
  }

  function RoundRobin(nodes: seq<NodeId>, counter: nat, factor: nat): (r: seq<NodeId>)
    requires nodes != []
    ensures |r| == factor
  {
    if factor == 0 then []
    else RoundRobin(nodes, counter, factor - 1) + [nodes[(counter % |nodes| + (factor - 1)) % |nodes|]]
  }

  // ----- placement_service.py -----

  /** save_placement, register_block and the inventory changes of update_block_placement;
      None when the store rejects a repeated node and nothing changes. */
  function Replace(p: Placements, b: BlockId, version: int, nodes: seq<NodeId>): Option<Placements> {
    if !NoDuplicates(nodes) then None
    else
      var former := if b in p.blocks then p.blocks[b] else [];
      Some(p.(blocks := p.blocks[b := nodes],
              versions := p.versions[b := version],
              stored := p.stored[b := Stored(version, Elements(nodes))],
              inventory := AddToNodes(RemoveFromNodes(p.inventory, former, nodes, b), nodes, former, b)))
  }

  /** The same writes without looking at an earlier placement: allocate_block and the state
      machine's handler for an allocation command. */
  function Place(p: Placements, b: BlockId, version: int, nodes: seq<NodeId>): Option<Placements> {
    if !NoDuplicates(nodes) then None
    else
      Some(p.(blocks := p.blocks[b := nodes],
              versions := p.versions[b := version],
              stored := p.stored[b := Stored(version, Elements(nodes))],
              inventory := AddToNodes(p.inventory, nodes, [], b)))
  }

  function Allocate(p: Placements, b: BlockId, factor: int, version: int, healthy: set<NodeId>): Option<Placements> {
    if b in p.blocks || |healthy| < factor then None
    else
      var nodes := SelectNodes(p.counter, healthy, factor);
      if nodes == None then None else Place(p.(counter := p.counter + 1), b, version, nodes.value)
  }

  function Update(p: Placements, b: BlockId, nodes: seq<NodeId>, version: int): Option<Placements> {
    if b !in p.blocks then None else Replace(p, b, version, nodes)
  }

  function Swap(locations: seq<NodeId>, former: NodeId, successor: NodeId): seq<NodeId> {
    if locations == [] then []
    else [if locations[0] == former then successor else locations[0]] + Swap(locations[1..], former, successor)
  }

  function ReplaceReplica(p: Placements, b: BlockId, former: NodeId, successor: NodeId, version: int): Option<Placements> {
    if b !in p.blocks then None
    else
      var locations := p.blocks[b];
      var nodes := if former !in locations && successor !in locations then locations + [successor] else Swap(locations, former, successor);
      Update(p, b, nodes, version)
  }

  function RemoveExtraReplica(p: Placements, b: BlockId, extra: NodeId, version: int): Option<Placements> {
    if b !in p.blocks then None
    else
      var nodes := Without(p.blocks[b], extra);
      if |nodes| == |p.blocks[b]| then Some(p) else Update(p, b, nodes, version)
  }

  function Delete(p: Placements, b: BlockId): Option<Placements> {
    if b !in p.blocks || b !in p.stored then None
    else
      Some(p.(blocks := p.blocks - {b},
              versions := p.versions - {b},
              stored := p.stored - {b},
              inventory := RemoveFromNodes(p.inventory, p.blocks[b], [], b)))
  }

  function Holding(blocks: map<BlockId, seq<NodeId>>, n: NodeId): set<BlockId> {
    set b | b in blocks && n in blocks[b]
  }

  /** Only blocks that still have placement rows come back; each list is read in node order. */
  function StoredBlocks(stored: map<BlockId, Stored>): map<BlockId, seq<NodeId>> {
    map b | b in stored && stored[b].nodes != {} :: SortSet(stored[b].nodes)
  }

  function Rebuild(blocks: map<BlockId, seq<NodeId>>): map<NodeId, seq<BlockId>> {
    map n | n in set b, n | b in blocks && n in blocks[b] :: n :: SortSet(Holding(blocks, n))
  }

  /** What a restart reads back from the database. */
  function Recover(stored: map<BlockId, Stored>): Placements {
    var blocks := StoredBlocks(stored);
    Placements(blocks, map b | b in stored :: stored[b].version, Rebuild(blocks), stored, |stored|)
  }

  // ----- the index agrees with the placements -----

  /** get_inventory(n) is the sorted list of blocks whose placement contains n. */
  ghost predicate Tracks(inv: map<NodeId, seq<BlockId>>, blocks: map<BlockId, seq<NodeId>>) {
    forall n {:trigger InventoryOf(inv, n)} :: InventoryOf(inv, n) == SortSet(Holding(blocks, n))
  }

  /** The database has the same node sets as the registry, and no rows for anything else. */
  ghost predicate Persisted(p: Placements) {
    && p.blocks.Keys <= p.stored.Keys
    && (forall b | b in p.blocks :: p.stored[b].nodes == Elements(p.blocks[b]) && b in p.versions && p.versions[b] == p.stored[b].version)
    && (forall b | b in p.stored && b !in p.blocks :: p.stored[b].nodes == {})
  }

  ghost predicate Consistent(p: Placements) {
    Tracks(p.inventory, p.blocks) && Persisted(p)
  }

  ghost predicate Sorted(inv: map<NodeId, seq<BlockId>>) {
    forall n {:trigger InventoryOf(inv, n)} :: Increasing(InventoryOf(inv, n))
  }

  ghost function Members(inv: map<NodeId, seq<BlockId>>, n: NodeId): set<BlockId> {
    Elements(InventoryOf(inv, n))
  }

  lemma TracksMeans(inv: map<NodeId, seq<BlockId>>, blocks: map<BlockId, seq<NodeId>>)
    ensures Tracks(inv, blocks) <==> Sorted(inv) && forall n {:trigger Members(inv, n)} :: Members(inv, n) == Holding(blocks, n)
  {
    if Tracks(inv, blocks) {
      forall n
        ensures Increasing(InventoryOf(inv, n)) && Members(inv, n) == Holding(blocks, n)
      {
        SortSetIsSorted(Holding(blocks, n));
      }
    }
    if Sorted(inv) && forall n {:trigger Members(inv, n)} :: Members(inv, n) == Holding(blocks, n) {
      forall n
        ensures InventoryOf(inv, n) == SortSet(Holding(blocks, n))
      {
        SortedIsSortSet(InventoryOf(inv, n));
        assert Members(inv, n) == Holding(blocks, n);
      }
    }
  }

  lemma AddBlockEffect(inv: map<NodeId, seq<BlockId>>, n: NodeId, b: BlockId)
    requires Sorted(inv)
    ensures Sorted(AddBlock(inv, n, b))
    ensures forall m :: Members(AddBlock(inv, n, b), m) == Members(inv, m) + (if m == n then {b} else {})
  {
    SortSetIsSorted(Elements(InventoryOf(inv, n)) + {b});
    var inv' := AddBlock(inv, n, b);
    forall m
      ensures Increasing(InventoryOf(inv', m))
      ensures Members(inv', m) == Members(inv, m) + (if m == n then {b} else {})
    {
      if m != n {
        assert InventoryOf(inv', m) == InventoryOf(inv, m);
      }
    }
  }

  lemma {:induction false} WithoutEffect(q: seq<BlockId>, b: BlockId)
    requires Increasing(q)
    ensures Increasing(Without(q, b)) && Elements(Without(q, b)) == Elements(q) - {b}
  {
    if q != [] {
      WithoutEffect(q[1..], b);
      var r := Without(q[1..], b);
      forall j | 0 <= j < |r|
        ensures Below(q[0], r[j])
      {
        assert r[j] in Elements(r);
      }
      assert Elements(q) == {q[0]} + Elements(q[1..]);
      assert Elements([q[0]] + r) == {q[0]} + Elements(r);
    }
  }

  lemma RemoveBlockEffect(inv: map<NodeId, seq<BlockId>>, n: NodeId, b: BlockId)
    requires Sorted(inv)
    ensures Sorted(RemoveBlock(inv, n, b))
    ensures forall m :: Members(RemoveBlock(inv, n, b), m) == Members(inv, m) - (if m == n then {b} else {})
  {
    WithoutEffect(InventoryOf(inv, n), b);
    var inv' := RemoveBlock(inv, n, b);
    forall m
      ensures Increasing(InventoryOf(inv', m))
      ensures Members(inv', m) == Members(inv, m) - (if m == n then {b} else {})
    {
      if m != n {
        assert InventoryOf(inv', m) == InventoryOf(inv, m);
      } else if n in inv {
        assert InventoryOf(inv', n) == Without(inv[n], b);
      }
    }
  }

  lemma {:induction false} AddToNodesEffect(inv: map<NodeId, seq<BlockId>>, nodes: seq<NodeId>, skip: seq<NodeId>, b: BlockId)
    requires Sorted(inv)
    ensures Sorted(AddToNodes(inv, nodes, skip, b))
    ensures forall m :: Members(AddToNodes(inv, nodes, skip, b), m) == Members(inv, m) + (if m in nodes && m !in skip then {b} else {})
  {
    hide AddBlock, RemoveBlock, Members, Sorted;
    if nodes != [] {
      var n := nodes[|nodes| - 1];
      AddToNodesEffect(inv, nodes[..|nodes| - 1], skip, b);
      AddBlockEffect(AddToNodes(inv, nodes[..|nodes| - 1], skip, b), n, b);
      assert nodes == nodes[..|nodes| - 1] + [n];
    }
  }

  lemma {:induction false} RemoveFromNodesEffect(inv: map<NodeId, seq<BlockId>>, nodes: seq<NodeId>, keep: seq<NodeId>, b: BlockId)
    requires Sorted(inv)
    ensures Sorted(RemoveFromNodes(inv, nodes, keep, b))
    ensures forall m :: Members(RemoveFromNodes(inv, nodes, keep, b), m) == Members(inv, m) - (if m in nodes && m !in keep then {b} else {})
  {
    hide AddBlock, RemoveBlock, Members, Sorted;
    if nodes != [] {
      var n := nodes[|nodes| - 1];
      RemoveFromNodesEffect(inv, nodes[..|nodes| - 1], keep, b);
      RemoveBlockEffect(RemoveFromNodes(inv, nodes[..|nodes| - 1], keep, b), n, b);
      assert nodes == nodes[..|nodes| - 1] + [n];
    }
  }

  lemma HoldingAfter(blocks: map<BlockId, seq<NodeId>>, b: BlockId, nodes: seq<NodeId>, n: NodeId)
    ensures Holding(blocks[b := nodes], n) == Holding(blocks, n) - {b} + (if n in nodes then {b} else {})
    ensures b in Holding(blocks, n) <==> b in blocks && n in blocks[b]
  {
  }

  lemma ReplaceTracks(inv: map<NodeId, seq<BlockId>>, blocks: map<BlockId, seq<NodeId>>, b: BlockId, former: seq<NodeId>, nodes: seq<NodeId>)
    requires Tracks(inv, blocks)
    requires former == if b in blocks then blocks[b] else []
    ensures Tracks(AddToNodes(RemoveFromNodes(inv, former, nodes, b), nodes, former, b), blocks[b := nodes])
  {
    TracksMeans(inv, blocks);
    var removed := RemoveFromNodes(inv, former, nodes, b);
    RemoveFromNodesEffect(inv, former, nodes, b);
    AddToNodesEffect(removed, nodes, former, b);
    var inv' := AddToNodes(removed, nodes, former, b);
    hide Tracks, Sorted, Members, Holding, AddToNodes, RemoveFromNodes;
    forall n
      ensures Members(inv', n) == Holding(blocks[b := nodes], n)
    {
      HoldingAfter(blocks, b, nodes, n);
      assert Members(inv, n) == Holding(blocks, n);
    }
    TracksMeans(inv', blocks[b := nodes]);
  }

  lemma ReplaceIsConsistent(p: Placements, b: BlockId, version: int, nodes: seq<NodeId>)
    requires Consistent(p)
    ensures Replace(p, b, version, nodes).Some? <==> NoDuplicates(nodes)
    ensures var r := Replace(p, b, version, nodes);
            r.Some? ==> Consistent(r.value) && r.value.blocks == p.blocks[b := nodes]
  {
    hide Tracks;
    if NoDuplicates(nodes) {
      ReplaceTracks(p.inventory, p.blocks, b, if b in p.blocks then p.blocks[b] else [], nodes);
    }
  }

  lemma PlaceMembers(inv: map<NodeId, seq<BlockId>>, blocks: map<BlockId, seq<NodeId>>, b: BlockId, nodes: seq<NodeId>)
    requires Tracks(inv, blocks)
    ensures var inv' := AddToNodes(inv, nodes, [], b);
            && Sorted(inv')
            && forall n :: Members(inv', n) == Holding(blocks, n) + (if n in nodes then {b} else {})
  {
    TracksMeans(inv, blocks);
    AddToNodesEffect(inv, nodes, [], b);
    hide AddToNodes, Tracks, Sorted;
    var inv' := AddToNodes(inv, nodes, [], b);
    forall n
      ensures Members(inv', n) == Holding(blocks, n) + (if n in nodes then {b} else {})
    {
      assert Members(inv, n) == Holding(blocks, n);
    }
  }

  /** Placing a block without looking at its earlier placement keeps the index exactly when
      every earlier holder is kept: always for a new block, and for a repeated allocation
      command only if the new list contains the old one. */
  lemma PlaceKeepsIndexIff(p: Placements, b: BlockId, version: int, nodes: seq<NodeId>)
    requires Consistent(p) && NoDuplicates(nodes)
    ensures var r := Place(p, b, version, nodes);
            && r.Some? && Persisted(r.value) && r.value.blocks == p.blocks[b := nodes]
            && (Tracks(r.value.inventory, r.value.blocks) <==> (b in p.blocks ==> forall n | n in p.blocks[b] :: n in nodes))
  {
    hide Tracks, AddToNodes;
    PlaceTracksIff(p.inventory, p.blocks, b, nodes);
  }

  lemma PlaceTracksIff(inv: map<NodeId, seq<BlockId>>, blocks: map<BlockId, seq<NodeId>>, b: BlockId, nodes: seq<NodeId>)
    requires Tracks(inv, blocks)
    ensures Tracks(AddToNodes(inv, nodes, [], b), blocks[b := nodes]) <==> (b in blocks ==> forall n | n in blocks[b] :: n in nodes)
  {
    var inv' := AddToNodes(inv, nodes, [], b);
    PlaceMembers(inv, blocks, b, nodes);
    TracksMeans(inv', blocks[b := nodes]);
    hide AddToNodes, Tracks, Members, Sorted, Holding;
    if n :| b in blocks && n in blocks[b] && n !in nodes {
      HoldingAfter(blocks, b, nodes, n);
      assert Members(inv', n) != Holding(blocks[b := nodes], n);
    } else {
      forall n
        ensures Members(inv', n) == Holding(blocks[b := nodes], n)
      {
        HoldingAfter(blocks, b, nodes, n);
        assert Members(inv', n) == Holding(blocks, n) + (if n in nodes then {b} else {});
      }
    }
  }

  lemma DeleteIsConsistent(p: Placements, b: BlockId)
    requires Consistent(p)
    ensures Delete(p, b).Some? <==> b in p.blocks
    ensures var r := Delete(p, b); r.Some? ==> Consistent(r.value) && r.value.blocks == p.blocks - {b}
  {
    if b in p.blocks {
      var p' := Delete(p, b).value;
      TracksMeans(p.inventory, p.blocks);
      RemoveFromNodesEffect(p.inventory, p.blocks[b], [], b);
      forall n
        ensures Members(p'.inventory, n) == Holding(p'.blocks, n)
      {
        assert Members(p.inventory, n) == Holding(p.blocks, n);
      }
      TracksMeans(p'.inventory, p'.blocks);
    }
  }

  /** A restart brings back the same node set for every block that still has a replica, and an
      index that agrees with it. */
  lemma RecoverIsConsistent(p: Placements)
    requires Consistent(p)
    ensures var r := Recover(p.stored);
            && Consistent(r)
            && (forall n :: InventoryOf(r.inventory, n) == InventoryOf(p.inventory, n))
            && (forall b :: b in r.blocks <==> b in p.blocks && p.blocks[b] != [])
            && (forall b | b in r.blocks :: Elements(r.blocks[b]) == Elements(p.blocks[b]) && r.versions[b] == p.versions[b])
  {
    var r := Recover(p.stored);
    forall b
      ensures b in r.blocks <==> b in p.blocks && p.blocks[b] != []
      ensures b in r.blocks ==> Elements(r.blocks[b]) == Elements(p.blocks[b])
    {
      if b in p.blocks {
        SortSetIsSorted(p.stored[b].nodes);
        if p.blocks[b] != [] {
          assert p.blocks[b][0] in Elements(p.blocks[b]);
        }
      }
    }
    forall n
      ensures InventoryOf(r.inventory, n) == SortSet(Holding(r.blocks, n))
      ensures Holding(r.blocks, n) == Holding(p.blocks, n)
      ensures InventoryOf(p.inventory, n) == SortSet(Holding(p.blocks, n))
    {
      forall b
        ensures b in Holding(r.blocks, n) <==> b in Holding(p.blocks, n)
      {
        if b in r.blocks {
          assert n in Elements(r.blocks[b]) <==> n in Elements(p.blocks[b]);
        }
      }
      if n !in r.inventory {
        assert Holding(r.blocks, n) == {};
      }
    }
  }

  // ----- every sequence of operations -----

  datatype ServiceOp =
    | AllocateOp(block: BlockId, factor: int, version: int, healthy: set<NodeId>)
    | UpdateOp(block: BlockId, nodes: seq<NodeId>, version: int)
    | ReplaceReplicaOp(block: BlockId, former: NodeId, successor: NodeId, version: int)
    | RemoveExtraOp(block: BlockId, extra: NodeId, version: int)
    | DeleteOp(block: BlockId)
    | RecoverOp

  /** None when the operation raises or reports that the block does not exist. */
  function Outcome(p: Placements, op: ServiceOp): Option<Placements> {
    match op
    case AllocateOp(b, factor, version, healthy) => Allocate(p, b, factor, version, healthy)
    case UpdateOp(b, nodes, version) => Update(p, b, nodes, version)
    case ReplaceReplicaOp(b, former, successor, version) => ReplaceReplica(p, b, former, successor, version)
    case RemoveExtraOp(b, extra, version) => RemoveExtraReplica(p, b, extra, version)
    case DeleteOp(b) => Delete(p, b)
    case RecoverOp => Some(Recover(p.stored))
  }

  function After(ops: seq<ServiceOp>): Placements {
    if ops == [] then NoPlacements
    else
      var before := After(ops[..|ops| - 1]);
      var r := Outcome(before, ops[|ops| - 1]);
      if r.Some? then r.value else before
  }

  lemma OutcomeIsConsistent(p: Placements, op: ServiceOp)
    requires Consistent(p)
    ensures Outcome(p, op).Some? ==> Consistent(Outcome(p, op).value)
  {
    match op
    case AllocateOp(b, factor, version, healthy) =>
      var nodes := SelectNodes(p.counter, healthy, factor);
      if nodes.Some? && NoDuplicates(nodes.value) {
        PlaceKeepsIndexIff(p.(counter := p.counter + 1), b, version, nodes.value);
      }
    case UpdateOp(b, nodes, version) => ReplaceIsConsistent(p, b, version, nodes);
    case ReplaceReplicaOp(b, former, successor, version) =>
      if b in p.blocks {
        var locations := p.blocks[b];
        ReplaceIsConsistent(p, b, version, if former !in locations && successor !in locations then locations + [successor] else Swap(locations, former, successor));
      }
    case RemoveExtraOp(b, extra, version) =>
      if b in p.blocks {
        ReplaceIsConsistent(p, b, version, Without(p.blocks[b], extra));
      }
    case DeleteOp(b) => DeleteIsConsistent(p, b);
    case RecoverOp => RecoverIsConsistent(p);
  }

  /** After any sequence of service operations and restarts, every node's inventory is the
      sorted list of the blocks placed on it. */
  lemma {:induction false} InventoryAlwaysAgrees(ops: seq<ServiceOp>)
    ensures Consistent(After(ops))
    ensures forall n :: InventoryOf(After(ops).inventory, n) == SortSet(Holding(After(ops).blocks, n))
  {
    if ops == [] {
      assert forall n :: Holding(NoPlacements.blocks, n) == {};
    } else {
      InventoryAlwaysAgrees(ops[..|ops| - 1]);
      OutcomeIsConsistent(After(ops[..|ops| - 1]), ops[|ops| - 1]);
    }
  }

  // ----- round robin -----

  /** select_nodes returns distinct available nodes: the r places from the counter on, cyclically. */
  lemma {:induction false} RoundRobinPicks(nodes: seq<NodeId>, counter: nat, factor: nat, x: nat)
    requires NoDuplicates(nodes) && factor <= |nodes| && x < |nodes|
    ensures nodes[x] in RoundRobin(nodes, counter, factor) <==> Offset(|nodes|, counter, x) < factor
    ensures NoDuplicates(RoundRobin(nodes, counter, factor))
  {
    if factor > 0 {
      RoundRobinPicks(nodes, counter, factor - 1, x);
      var n := |nodes|;
      var last := (counter % n + (factor - 1)) % n;
      OffsetOf(n, counter, factor - 1, x);
      RoundRobinPicks(nodes, counter, factor - 1, last);
      OffsetOf(n, counter, factor - 1, last);
    }
  }

  /** How many places past the starting position node x comes up. */
  function Offset(n: nat, counter: nat, x: nat): (o: nat)
    requires x < n
    ensures o < n
  {
    var start := counter % n;
    if start <= x then x - start else x + n - start
  }

  lemma OffsetOf(n: nat, counter: nat, o: nat, x: nat)
    requires x < n && o < n
    ensures (counter % n + o) % n == x <==> Offset(n, counter, x) == o
  {
    var start := counter % n;
    if start + o < n {
      ModIs(start + o, n, 0, start + o);
    } else {
      ModIs(start + o, n, 1, start + o - n);
    }
  }

  /** In how many of k consecutive calls, the first at this counter, node x is selected. */
  function Load(n: nat, factor: nat, counter: nat, k: nat, x: nat): nat
    requires x < n
  {
    if k == 0 then 0
    else Load(n, factor, counter, k - 1, x) + if Offset(n, counter + (k - 1), x) < factor then 1 else 0
  }

  function Min(a: int, b: int): int {
    if a < b then a else b
  }

  function Max(a: int, b: int): int {
    if a > b then a else b
  }

  lemma OffsetSteps(n: nat, counter: nat, i: nat, x: nat)
    requires x < n && i < n
    ensures var u := Offset(n, counter, x);
            Offset(n, counter + i, x) == if i <= u then u - i else u - i + n
  {
    var start := counter % n;
    var q := counter / n;
    assert counter == q * n + start;
    if start + i < n {
      ModIs(counter + i, n, q, start + i);
    } else {
      assert (q + 1) * n == q * n + n;
      ModIs(counter + i, n, q + 1, start + i - n);
    }
  }

  lemma {:induction false} MulAtLeast(d: nat, n: nat)
    requires d >= 1
    ensures d * n >= n
  {
    if d > 1 {
      MulAtLeast(d - 1, n);
      assert d * n == (d - 1) * n + n;
    }
  }

  lemma BlockBelow(p: nat, q: nat, n: nat)
    requires p < q
    ensures p * n + n <= q * n
  {
    MulAtLeast(q - p, n);
    assert (q - p) * n == q * n - p * n;
  }

  lemma ModIs(a: nat, n: nat, q: nat, r: nat)
    requires r < n && a == q * n + r
    ensures a % n == r
  {
    var p := a / n;
    assert a == p * n + a % n;
    if p < q {
      BlockBelow(p, q, n);
    } else if q < p {
      BlockBelow(q, p, n);
    }
  }

  /** Within one cycle the load is an overlap of two arcs of the circle of nodes. */
  lemma {:induction false} LoadWithinCycle(n: nat, factor: nat, counter: nat, k: nat, x: nat)
    requires x < n && k <= n && factor <= n
    ensures var u := Offset(n, counter, x);
            Load(n, factor, counter, k, x) ==
              Min(u + 1, factor) - Min(Max(0, u + 1 - k), factor)
              + (if k > u + 1 then factor - Min(u + 1 - k + n, factor) else 0)
  {
    if k > 0 {
      LoadWithinCycle(n, factor, counter, k - 1, x);
      OffsetSteps(n, counter, k - 1, x);
    }
  }

  lemma {:induction false} LoadSplits(n: nat, factor: nat, counter: nat, a: nat, b: nat, x: nat)
    requires x < n
    ensures Load(n, factor, counter, a + b, x) == Load(n, factor, counter, a, x) + Load(n, factor, counter + a, b, x)
  {
    if b > 0 {
      LoadSplits(n, factor, counter, a, b - 1, x);
    }
  }

  /** The overlap of the arcs of two nodes with k calls differs by at most min(r, n - r). */
  lemma OverlapsAreClose(n: nat, r: nat, k: nat, u: nat, v: nat)
    requires k <= n && r <= n && u < n && v < n
    ensures Min(u + 1, r) - Min(Max(0, u + 1 - k), r) + (if k > u + 1 then r - Min(u + 1 - k + n, r) else 0)
            - (Min(v + 1, r) - Min(Max(0, v + 1 - k), r) + (if k > v + 1 then r - Min(v + 1 - k + n, r) else 0))
            <= Min(r, n - r)
  {
  }

  lemma FullCycle(n: nat, factor: nat, counter: nat, x: nat)
    requires x < n && factor <= n
    ensures Load(n, factor, counter, n, x) == factor
  {
    LoadWithinCycle(n, factor, counter, n, x);
  }

  /** Every full cycle gives each node exactly factor placements, and the rest is one partial cycle. */
  lemma {:induction false} LoadOverCycles(n: nat, factor: nat, counter: nat, k: nat, x: nat, y: nat)
    requires x < n && y < n && factor <= n
    ensures Load(n, factor, counter, k, x) - Load(n, factor, counter, k, y) <= Min(factor, n - factor)
    decreases k
  {
    hide *;
    if k <= n {
      LoadWithinCycle(n, factor, counter, k, x);
      LoadWithinCycle(n, factor, counter, k, y);
      OverlapsAreClose(n, factor, k, Offset(n, counter, x), Offset(n, counter, y));
    } else {
      LoadSplits(n, factor, counter, n, k - n, x);
      LoadSplits(n, factor, counter, n, k - n, y);
      FullCycle(n, factor, counter, x);
      FullCycle(n, factor, counter, y);
      LoadOverCycles(n, factor, counter + n, k - n, x, y);
    }
  }

  /** How many of k consecutive select_nodes calls over fixed nodes return node v. */
  function TimesSelected(available: set<NodeId>, factor: int, counter: nat, k: nat, v: NodeId): nat {
    if k == 0 then 0
    else
      var r := SelectNodes(counter + (k - 1), available, factor);
      TimesSelected(available, factor, counter, k - 1, v) + if r.Some? && v in r.value then 1 else 0
  }

  lemma {:induction false} TimesSelectedIsLoad(available: set<NodeId>, factor: nat, counter: nat, k: nat, x: nat)
    requires 1 <= factor <= |available| && x < |SortSet(available)|
    ensures |SortSet(available)| == |available|
    ensures TimesSelected(available, factor, counter, k, SortSet(available)[x]) == Load(|available|, factor, counter, k, x)
  {
    SortSetIsSorted(available);
    if k > 0 {
      TimesSelectedIsLoad(available, factor, counter, k - 1, x);
      IncreasingHasNoDuplicates(SortSet(available));
      RoundRobinPicks(SortSet(available), counter + (k - 1), factor, x);
    }
  }

  lemma IncreasingHasNoDuplicates(q: seq<string>)
    requires Increasing(q)
    ensures NoDuplicates(q)
  {
    forall i, j | 0 <= i < j < |q|
      ensures q[i] != q[j]
    {
      BelowIsStrict(q[i], q[j]);
    }
  }

  /** Over any number of consecutive calls the loads of two of the n nodes never differ by more
      than min(factor, n - factor). */
  lemma SelectionIsBalanced(available: set<NodeId>, factor: nat, counter: nat, k: nat, v: NodeId, w: NodeId)
    requires 1 <= factor <= |available| && v in available && w in available
    ensures TimesSelected(available, factor, counter, k, v) - TimesSelected(available, factor, counter, k, w)
            <= Min(factor, |available| - factor)
  {
    SortSetIsSorted(available);
    var nodes := SortSet(available);
    assert v in Elements(nodes) && w in Elements(nodes);
    var x :| 0 <= x < |nodes| && nodes[x] == v;
    var y :| 0 <= y < |nodes| && nodes[y] == w;
    TimesSelectedIsLoad(available, factor, counter, k, x);
    TimesSelectedIsLoad(available, factor, counter, k, y);
    LoadOverCycles(|available|, factor, counter, k, x, y);
  }

  /** An allocation succeeds exactly when the block is new and enough nodes are healthy, and
      then puts it on that many distinct healthy nodes. */
  lemma AllocationSucceedsIff(p: Placements, b: BlockId, factor: int, version: int, healthy: set<NodeId>)
    ensures var r := Allocate(p, b, factor, version, healthy);
            && (r.Some? <==> b !in p.blocks && 1 <= factor <= |healthy|)
            && (r.Some? ==>
                  && b in r.value.blocks
                  && |r.value.blocks[b]| == factor
                  && NoDuplicates(r.value.blocks[b])
                  && Elements(r.value.blocks[b]) <= healthy)
  {
    if 1 <= factor <= |healthy| {
      SortSetIsSorted(healthy);
      IncreasingHasNoDuplicates(SortSet(healthy));
      RoundRobinPicks(SortSet(healthy), p.counter, factor, 0);
      RoundRobinStaysInside(SortSet(healthy), p.counter, factor);
    }
  }

  lemma {:induction false} RoundRobinStaysInside(nodes: seq<NodeId>, counter: nat, factor: nat)
    requires nodes != []
    ensures Elements(RoundRobin(nodes, counter, factor)) <= Elements(nodes)
  {
    if factor > 0 {
      RoundRobinStaysInside(nodes, counter, factor - 1);
      var r := RoundRobin(nodes, counter, factor - 1);
      forall v | v in RoundRobin(nodes, counter, factor)
        ensures v in nodes
      {
        if v in r {
          assert v in Elements(r);
        }
      }
    }
  }
}
