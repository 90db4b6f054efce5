/** What the operations of the placement service promise, said of node lists, versions, rows and
    inventories alone, and not through the functions that compute them
    (metadata/placement_service.py). */
module PlacementPromises {
  import opened Metadata
  import opened Order
  import opened Placement

  /** No placement names a node twice. */
  ghost predicate Distinct(p: Placements) {
    forall b | b in p.blocks :: NoDuplicates(p.blocks[b])
  }

  /** m' is m but for key b, which now has this value. */
  ghost predicate ChangedAt<T(!new)>(m: map<BlockId, T>, b: BlockId, value: T, m': map<BlockId, T>) {
    m'.Keys == m.Keys + {b} && m'[b] == value && forall c | c in m && c != b :: m'[c] == m[c]
  }

  /** m' is m without key b. */
  ghost predicate LostAt<T(!new)>(m: map<BlockId, T>, b: BlockId, m': map<BlockId, T>) {
    m'.Keys == m.Keys - {b} && forall c | c in m' :: m'[c] == m[c]
  }

  /** Block b, and only it, has left the inventories of `lost` and entered those of `gained`. */
  ghost predicate Moved(inv: map<NodeId, seq<BlockId>>, b: BlockId, lost: set<NodeId>, gained: set<NodeId>, inv': map<NodeId, seq<BlockId>>) {
    Sorted(inv) ==>
      && Sorted(inv')
      && forall n {:trigger Members(inv', n)} :: Members(inv', n)
           == Members(inv, n) - (if n in lost then {b} else {}) + (if n in gained then {b} else {})
  }

  function Holders(p: Placements, b: BlockId): set<NodeId> {
    if b in p.blocks then Elements(p.blocks[b]) else {}
  }

  /** Block b is on exactly these nodes at this version, in memory and in the database, its former
      holders have lost it, and nothing is said differently of any other block. */
  ghost predicate PlacedAt(p: Placements, b: BlockId, version: int, nodes: seq<NodeId>, r: Placements) {
    && ChangedAt(p.blocks, b, nodes, r.blocks)
    && ChangedAt(p.versions, b, version, r.versions)
    && ChangedAt(p.stored, b, Stored(version, Elements(nodes)), r.stored)
    && r.counter == p.counter
    && Moved(p.inventory, b, Holders(p, b) - Elements(nodes), Elements(nodes) - Holders(p, b), r.inventory)
    && (Consistent(p) ==> Consistent(r))
  }

  // ----- update_block_placement -----

  lemma InElements(q: seq<string>, x: string)
    ensures x in q <==> x in Elements(q)
  {
  }

  lemma ReplaceMoves(inv: map<NodeId, seq<BlockId>>, former: seq<NodeId>, nodes: seq<NodeId>, b: BlockId)
    ensures Moved(inv, b, Elements(former) - Elements(nodes), Elements(nodes) - Elements(former),
                  AddToNodes(RemoveFromNodes(inv, former, nodes, b), nodes, former, b))
  {
    if Sorted(inv) {
      var removed := RemoveFromNodes(inv, former, nodes, b);
      var inv' := AddToNodes(removed, nodes, former, b);
      RemoveFromNodesEffect(inv, former, nodes, b);
      AddToNodesEffect(removed, nodes, former, b);
      hide RemoveFromNodes, AddToNodes, Members, Sorted;
      forall n
        ensures Members(inv', n) == Members(inv, n) - (if n in Elements(former) - Elements(nodes) then {b} else {})
                                    + (if n in Elements(nodes) - Elements(former) then {b} else {})
      {
        InElements(former, n);
        InElements(nodes, n);
        assert Members(removed, n) == Members(inv, n) - (if n in former && n !in nodes then {b} else {});
      }
    }
  }

  lemma ReplacePlaces(p: Placements, b: BlockId, version: int, nodes: seq<NodeId>)
    ensures var r := Replace(p, b, version, nodes);
            (r.Some? <==> NoDuplicates(nodes)) && (r.Some? ==> PlacedAt(p, b, version, nodes, r.value))
  {
    hide Consistent, Moved, AddToNodes, RemoveFromNodes, Elements;
    if NoDuplicates(nodes) {
      ReplaceMoves(p.inventory, if b in p.blocks then p.blocks[b] else [], nodes, b);
      if Consistent(p) {
        ReplaceIsConsistent(p, b, version, nodes);
      }
      NoElements();
    }
  }

  lemma NoElements()
    ensures Elements<NodeId>([]) == {}
  {
  }

  /** An update of a known block to distinct nodes puts it on exactly those. */
  ghost predicate Updated(p: Placements, b: BlockId, nodes: seq<NodeId>, version: int, r: Option<Placements>) {
    && (r.Some? <==> b in p.blocks && NoDuplicates(nodes))
    && (r.Some? ==> PlacedAt(p, b, version, nodes, r.value))
  }

  lemma UpdatePlaces(p: Placements, b: BlockId, nodes: seq<NodeId>, version: int)
    ensures Updated(p, b, nodes, version, Update(p, b, nodes, version))
  {
    hide PlacedAt, NoDuplicates, Replace;
    ReplacePlaces(p, b, version, nodes);
  }

  // ----- replace_replica -----

  /** The successor stands where the former node stood; if neither was there it is added at the end. */
  ghost predicate SwappedIn(q: seq<NodeId>, former: NodeId, successor: NodeId, r: seq<NodeId>) {
    if former in q then
      && |r| == |q|
      && (forall k | 0 <= k < |q| :: r[k] == if q[k] == former then successor else q[k])
      && Elements(r) == Elements(q) - {former} + {successor}
    else if successor in q then r == q
    else r == q + [successor]
  }

  lemma {:induction false} SwapAt(q: seq<NodeId>, former: NodeId, successor: NodeId)
    ensures |Swap(q, former, successor)| == |q|
    ensures forall k | 0 <= k < |q| :: Swap(q, former, successor)[k] == if q[k] == former then successor else q[k]
  {
    if q != [] {
      SwapAt(q[1..], former, successor);
    }
  }

  lemma SwapElements(q: seq<NodeId>, former: NodeId, successor: NodeId)
    requires former in q
    ensures Elements(Swap(q, former, successor)) == Elements(q) - {former} + {successor}
  {
    var r := Swap(q, former, successor);
    SwapAt(q, former, successor);
    hide Swap;
    forall x
      ensures x in Elements(r) <==> x in Elements(q) - {former} + {successor}
    {
      if x in q && x != former {
        var k :| 0 <= k < |q| && q[k] == x;
        assert r[k] == x;
      }
      if x == successor {
        var k :| 0 <= k < |q| && q[k] == former;
        assert r[k] == x;
      }
    }
  }

  function SwapOrAdd(q: seq<NodeId>, former: NodeId, successor: NodeId): seq<NodeId> {
    if former !in q && successor !in q then q + [successor] else Swap(q, former, successor)
  }

  lemma SwapOrAddSwaps(q: seq<NodeId>, former: NodeId, successor: NodeId)
    ensures SwappedIn(q, former, successor, SwapOrAdd(q, former, successor))
  {
    hide Elements, Swap;
    SwapAt(q, former, successor);
    if former in q {
      SwapElements(q, former, successor);
    }
  }

  lemma SwapIsDistinct(q: seq<NodeId>, former: NodeId, successor: NodeId)
    requires NoDuplicates(q)
    ensures NoDuplicates(SwapOrAdd(q, former, successor)) <==> former !in q || successor !in q || former == successor
  {
    var r := SwapOrAdd(q, former, successor);
    SwapOrAddSwaps(q, former, successor);
    hide SwapOrAdd, Elements;
    if former in q && successor in q && former != successor {
      var i :| 0 <= i < |q| && q[i] == former;
      var j :| 0 <= j < |q| && q[j] == successor;
      assert r[i] == r[j] && (i < j || j < i);
    }
  }

  /** Replacing a replica of a known block fails only if the new node is a second holder already. */
  ghost predicate ReplicaReplaced(p: Placements, b: BlockId, former: NodeId, successor: NodeId, version: int, r: Option<Placements>) {
    && (r.Some? <==> b in p.blocks && (former in p.blocks[b] && successor in p.blocks[b] ==> former == successor))
    && (r.Some? ==>
          && b in r.value.blocks
          && SwappedIn(p.blocks[b], former, successor, r.value.blocks[b])
          && PlacedAt(p, b, version, r.value.blocks[b], r.value))
  }

  lemma ReplaceReplicaSwaps(p: Placements, b: BlockId, former: NodeId, successor: NodeId, version: int)
    requires Distinct(p)
    ensures ReplicaReplaced(p, b, former, successor, version, ReplaceReplica(p, b, former, successor, version))
  {
    hide NoDuplicates, Swap, Replace, SwappedIn, Moved, Consistent;
    if b in p.blocks {
      SwapOrAddSwaps(p.blocks[b], former, successor);
      SwapIsDistinct(p.blocks[b], former, successor);
      ReplacePlaces(p, b, version, SwapOrAdd(p.blocks[b], former, successor));
    }
  }

  // ----- remove_extra_replica -----

  lemma {:induction false} WithoutAbsent(q: seq<string>, x: string)
    requires x !in q
    ensures Without(q, x) == q
  {
    if q != [] {
      WithoutAbsent(q[1..], x);
    }
  }

  lemma {:induction false} WithoutOne(q: seq<string>, k: nat)
    requires NoDuplicates(q) && k < |q|
    ensures Without(q, q[k]) == q[..k] + q[k + 1..]
  {
    if k == 0 {
      WithoutAbsent(q[1..], q[0]);
    } else {
      assert q[1..][k - 1] == q[k];
      WithoutOne(q[1..], k - 1);
      assert q[0] != q[k];
      assert q[1..][..k - 1] == q[1..k] && q[1..][k..] == q[k + 1..];
      assert [q[0]] + (q[1..k] + q[k + 1..]) == q[..k] + q[k + 1..];
    }
  }

  /** A node that holds the block is dropped from its list; otherwise nothing happens. */
  ghost predicate ExtraRemoved(p: Placements, b: BlockId, extra: NodeId, version: int, r: Option<Placements>) {
    && (r.Some? <==> b in p.blocks)
    && (r.Some? && extra !in p.blocks[b] ==> r.value == p)
    && (r.Some? ==> forall k {:trigger p.blocks[b][k]} | 0 <= k < |p.blocks[b]| && p.blocks[b][k] == extra ::
          PlacedAt(p, b, version, p.blocks[b][..k] + p.blocks[b][k + 1..], r.value))
  }

  lemma RemoveExtraDrops(p: Placements, b: BlockId, extra: NodeId, version: int)
    requires Distinct(p)
    ensures ExtraRemoved(p, b, extra, version, RemoveExtraReplica(p, b, extra, version))
  {
    hide Replace, PlacedAt, Without;
    if b in p.blocks {
      var q := p.blocks[b];
      if extra !in q {
        WithoutAbsent(q, extra);
      } else {
        forall k | 0 <= k < |q| && q[k] == extra
          ensures Without(q, extra) == q[..k] + q[k + 1..]
        {
          WithoutOne(q, k);
        }
        var k :| 0 <= k < |q| && q[k] == extra;
        assert NoDuplicates(q[..k] + q[k + 1..]);
        ReplacePlaces(p, b, version, Without(q, extra));
      }
    }
  }

  // ----- allocate_block, delete_block, recover -----

  /** A new block goes on the next `factor` healthy nodes after the counter, cyclically, which then
      moves on by one. */
  ghost predicate AllocatedNext(p: Placements, b: BlockId, factor: int, version: int, healthy: set<NodeId>, r: Option<Placements>) {
    && (r.Some? <==> b !in p.blocks && 1 <= factor <= |healthy|)
    && (r.Some? ==>
          && r.value.counter == p.counter + 1 && b in r.value.blocks
          && var nodes := r.value.blocks[b];
             && |nodes| == factor && |SortSet(healthy)| == |healthy|
             && (forall i | 0 <= i < factor :: nodes[i] == SortSet(healthy)[(p.counter + i) % |healthy|])
             && PlacedAt(p.(counter := p.counter + 1), b, version, nodes, r.value))
  }

  lemma {:induction false} RoundRobinAt(nodes: seq<NodeId>, counter: nat, factor: nat, i: nat)
    requires nodes != [] && i < factor
    ensures RoundRobin(nodes, counter, factor)[i] == nodes[(counter + i) % |nodes|]
  {
    if i == factor - 1 {
      ModOfSum(counter, i, |nodes|);
    } else {
      RoundRobinAt(nodes, counter, factor - 1, i);
    }
  }

  lemma ModOfSum(a: nat, i: nat, n: nat)
    requires n > 0
    ensures (a % n + i) % n == (a + i) % n
  {
    var p, rest := Divided(a, n);
    var q, r := Divided(rest + i, n);
    SumOfMultiples(p, q, n);
    ModIs(a + i, n, p + q, r);
  }

  lemma Divided(a: nat, n: nat) returns (q: nat, r: nat)
    requires n > 0
    ensures a == q * n + r && r == a % n < n
  {
    q, r := a / n, a % n;
  }

  lemma SumOfMultiples(p: nat, q: nat, n: nat)
    ensures (p + q) * n == p * n + q * n
  {
  }

  lemma PlaceIsReplace(p: Placements, b: BlockId, version: int, nodes: seq<NodeId>)
    requires b !in p.blocks
    ensures Place(p, b, version, nodes) == Replace(p, b, version, nodes)
  {
  }

  /** Placing without looking at an earlier placement: nobody loses the block. */
  ghost predicate PlacedOver(p: Placements, b: BlockId, version: int, nodes: seq<NodeId>, r: Placements) {
    && ChangedAt(p.blocks, b, nodes, r.blocks)
    && ChangedAt(p.versions, b, version, r.versions)
    && ChangedAt(p.stored, b, Stored(version, Elements(nodes)), r.stored)
    && r.counter == p.counter
    && Moved(p.inventory, b, {}, Elements(nodes), r.inventory)
  }

  lemma PlacePlacesOver(p: Placements, b: BlockId, version: int, nodes: seq<NodeId>)
    ensures var r := Place(p, b, version, nodes);
            (r.Some? <==> NoDuplicates(nodes)) && (r.Some? ==> PlacedOver(p, b, version, nodes, r.value))
  {
    hide Members, Sorted, AddToNodes;
    if NoDuplicates(nodes) && Sorted(p.inventory) {
      AddToNodesEffect(p.inventory, nodes, [], b);
      forall n
        ensures n in nodes <==> n in Elements(nodes)
      {
        InElements(nodes, n);
      }
    }
  }

  lemma AllocateTakesNext(p: Placements, b: BlockId, factor: int, version: int, healthy: set<NodeId>)
    ensures AllocatedNext(p, b, factor, version, healthy, Allocate(p, b, factor, version, healthy))
  {
    hide RoundRobin, Place, Replace, PlacedAt, NoDuplicates;
    AllocationSucceedsIff(p, b, factor, version, healthy);
    if b !in p.blocks && 1 <= factor <= |healthy| {
      SortSetIsSorted(healthy);
      var nodes := RoundRobin(SortSet(healthy), p.counter, factor);
      forall i | 0 <= i < factor
        ensures nodes[i] == SortSet(healthy)[(p.counter + i) % |healthy|]
      {
        RoundRobinAt(SortSet(healthy), p.counter, factor, i);
      }
      PlaceIsReplace(p.(counter := p.counter + 1), b, version, nodes);
      ReplacePlaces(p.(counter := p.counter + 1), b, version, nodes);
      assert PlacedAt(p.(counter := p.counter + 1), b, version, nodes, Allocate(p, b, factor, version, healthy).value);
      PlacedList(p.(counter := p.counter + 1), b, version, nodes, Allocate(p, b, factor, version, healthy).value);
    }
  }

  lemma PlacedList(p: Placements, b: BlockId, version: int, nodes: seq<NodeId>, r: Placements)
    requires PlacedAt(p, b, version, nodes, r)
    ensures b in r.blocks && r.blocks[b] == nodes && r.counter == p.counter
  {
  }

  /** A known block disappears from memory, database and the inventories of its holders. */
  ghost predicate Deleted(p: Placements, b: BlockId, r: Option<Placements>) {
    && (r.Some? <==> b in p.blocks && b in p.stored)
    && (r.Some? ==>
          && LostAt(p.blocks, b, r.value.blocks)
          && LostAt(p.versions, b, r.value.versions)
          && LostAt(p.stored, b, r.value.stored)
          && r.value.counter == p.counter
          && Moved(p.inventory, b, Elements(p.blocks[b]), {}, r.value.inventory))
  }

  lemma DeleteDrops(p: Placements, b: BlockId)
    ensures Deleted(p, b, Delete(p, b))
  {
    hide Members, Sorted, RemoveFromNodes;
    if b in p.blocks && b in p.stored && Sorted(p.inventory) {
      RemoveFromNodesEffect(p.inventory, p.blocks[b], [], b);
      forall n
        ensures n in p.blocks[b] <==> n in Elements(p.blocks[b])
      {
        InElements(p.blocks[b], n);
      }
    }
  }

  /** A restart has a placement for exactly the stored blocks with rows, on those nodes in order, every
      stored version, the rows as they were, and a counter that continues from their number. */
  lemma RecoverReadsBack(stored: map<BlockId, Stored>)
    ensures var r := Recover(stored);
            && r.stored == stored && r.counter == |stored|
            && r.versions.Keys == stored.Keys
            && (forall b | b in stored :: r.versions[b] == stored[b].version)
            && (forall b :: b in r.blocks <==> b in stored && stored[b].nodes != {})
            && (forall b | b in r.blocks :: Increasing(r.blocks[b]) && Elements(r.blocks[b]) == stored[b].nodes)
            && (forall n, b :: b in InventoryOf(r.inventory, n) <==> b in stored && n in stored[b].nodes)
            && Distinct(r)
  {
    hide Rebuild, Elements, NoDuplicates, Increasing, InventoryOf;
    var r := Recover(stored);
    forall b | b in r.blocks
      ensures Increasing(r.blocks[b]) && Elements(r.blocks[b]) == stored[b].nodes && NoDuplicates(r.blocks[b])
    {
      SortSetIsSorted(stored[b].nodes);
      IncreasingHasNoDuplicates(r.blocks[b]);
    }
    forall n, b
      ensures b in InventoryOf(r.inventory, n) <==> b in stored && n in stored[b].nodes
    {
      RebuildHolds(r.blocks, n, b);
      if b in r.blocks {
        InElements(r.blocks[b], n);
      }
    }
  }

  lemma RebuildHolds(blocks: map<BlockId, seq<NodeId>>, n: NodeId, b: BlockId)
    ensures b in InventoryOf(Rebuild(blocks), n) <==> b in blocks && n in blocks[b]
  {
    SortSetIsSorted(Holding(blocks, n));
    InElements(SortSet(Holding(blocks, n)), b);
    if b in blocks && n in blocks[b] {
      assert n in Rebuild(blocks);
    }
  }

  /** No operation makes a placement name a node twice. */
  lemma {:induction false} PlacementsStayDistinct(ops: seq<ServiceOp>)
    ensures Distinct(After(ops))
  {
    if ops != [] {
      var before := After(ops[..|ops| - 1]);
      PlacementsStayDistinct(ops[..|ops| - 1]);
      OutcomeIsDistinct(before, ops[|ops| - 1]);
    }
  }

  lemma OutcomeIsDistinct(p: Placements, op: ServiceOp)
    requires Distinct(p)
    ensures Outcome(p, op).Some? ==> Distinct(Outcome(p, op).value)
  {
    hide Recover, AddToNodes, RemoveFromNodes, SelectNodes, Swap, Without, NoDuplicates;
    if op.RecoverOp? {
      RecoverReadsBack(p.stored);
    }
  }
}
