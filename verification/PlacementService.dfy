/** The placement objects as the source has them, each method proved to act on the tables as the
    functions of module Placement say (metadata/placement_registry.py, node_inventory.py,
    metadata_store.py, placement_policy.py, placement_service.py). */
module PlacementService {
  import opened Metadata
  import opened Order
  import P = Placement
  import opened PlacementPromises

  class PlacementRegistry {
    var blocks: map<BlockId, seq<NodeId>>
    var versions: map<BlockId, int>

    constructor ()
      ensures blocks == map[] && versions == map[]
    {
      blocks, versions := map[], map[];
    }

    method RegisterBlock(b: BlockId, version: int, nodes: seq<NodeId>)
      modifies this
      ensures blocks == old(blocks)[b := nodes] && versions == old(versions)[b := version]
    {
      blocks := blocks[b := nodes];
      versions := versions[b := version];
    }

    method DeleteBlock(b: BlockId) returns (deleted: bool)
      modifies this
      ensures deleted == (b in old(blocks))
      ensures blocks == old(blocks) - {b}
      ensures versions == if deleted then old(versions) - {b} else old(versions)
    {
      if b !in blocks {
        return false;
      }
      blocks := blocks - {b};
      versions := versions - {b};
      return true;
    }

    method LoadFromSnapshot(placements: map<BlockId, seq<NodeId>>, vs: map<BlockId, int>)
      modifies this
      ensures blocks == placements && versions == vs
    {
      blocks, versions := placements, vs;
    }
  }

  class NodeInventory {
    var inventory: map<NodeId, seq<BlockId>>

    constructor ()
      ensures inventory == map[]
    {
      inventory := map[];
    }

    method AddBlock(n: NodeId, b: BlockId)
      modifies this
      ensures inventory == P.AddBlock(old(inventory), n, b)
    {
      var blocks: set<BlockId> := if n in inventory then Elements(inventory[n]) else {};
      assert Elements(P.InventoryOf(inventory, n)) == blocks;
      blocks := blocks + {b};
      inventory := inventory[n := SortSet(blocks)];
    }

    method RemoveBlock(n: NodeId, b: BlockId)
      modifies this
      ensures inventory == P.RemoveBlock(old(inventory), n, b)
    {
      if n !in inventory {
        return;
      }
      var updated := AllBut(inventory[n], b);
      if updated != [] {
        inventory := inventory[n := updated];
      } else {
        inventory := inventory - {n};
      }
    }

    method GetInventory(n: NodeId) returns (blocks: seq<BlockId>)
      ensures blocks == P.InventoryOf(inventory, n)
    {
      blocks := if n in inventory then inventory[n] else [];
    }

    /** The inverse of a placement map; a node repeated in a list has the block as often. */
    method RebuildFromPlacements(placements: map<BlockId, seq<NodeId>>)
      modifies this
      ensures RebuiltFrom(inventory, placements)
      ensures (forall b | b in placements :: P.NoDuplicates(placements[b])) ==> inventory == P.Rebuild(placements)
    {
      var lists: map<NodeId, seq<BlockId>> := map[];
      var todo := placements.Keys;
      while todo != {}
        invariant todo <= placements.Keys
        invariant Inverts(lists, placements, placements.Keys - todo)
        decreases |todo|
      {
        var b :| b in todo;
        ghost var before := lists;
        lists := Listed(lists, placements[b], b);
        InvertsOneMore(before, lists, placements, placements.Keys - todo, b);
        assert placements.Keys - todo + {b} == placements.Keys - (todo - {b});
        todo := todo - {b};
      }
      assert placements.Keys - todo == placements.Keys;
      inventory := map n | n in lists :: SortList(lists[n]);
      InvertsAll(lists, placements);
      if forall b | b in placements :: P.NoDuplicates(placements[b]) {
        RebuiltOnce(inventory, placements);
      }
    }
  }

  function ListOf(lists: map<NodeId, seq<BlockId>>, n: NodeId): seq<BlockId> {
    if n in lists then lists[n] else []
  }

  lemma AppendedOne(lists: map<NodeId, seq<BlockId>>, n: NodeId, b: BlockId, m: NodeId, c: BlockId)
    ensures multiset(ListOf(lists[n := ListOf(lists, n) + [b]], m))[c] == multiset(ListOf(lists, m))[c] + if m == n && c == b then 1 else 0
  {
  }

  lemma OneMoreNode(nodes: seq<NodeId>, k: nat, m: NodeId)
    requires k < |nodes|
    ensures multiset(nodes[..k + 1])[m] == multiset(nodes[..k])[m] + if m == nodes[k] then 1 else 0
    ensures m in nodes[..k + 1] <==> m in nodes[..k] || m == nodes[k]
  {
    assert nodes[..k + 1] == nodes[..k] + [nodes[k]];
  }

  /** inventory.setdefault(node_id, []).append(block_id) for each node. */
  method Listed(before: map<NodeId, seq<BlockId>>, nodes: seq<NodeId>, b: BlockId) returns (lists: map<NodeId, seq<BlockId>>)
    ensures ListedFor(before, lists, nodes, b)
  {
    lists := before;
    var k := 0;
    NothingListed(before, nodes, b);
    while k < |nodes|
      invariant k <= |nodes| && ListedFor(before, lists, nodes[..k], b)
    {
      ListedOneMore(before, lists, nodes, k, b);
      lists := lists[nodes[k] := ListOf(lists, nodes[k]) + [b]];
      hide ListOf, ListedFor;
      k := k + 1;
    }
    assert nodes[..k] == nodes;
  }

  /** b has been appended to the list of each of the nodes, as often as it occurs. */
  ghost predicate ListedFor(before: map<NodeId, seq<BlockId>>, lists: map<NodeId, seq<BlockId>>, nodes: seq<NodeId>, b: BlockId) {
    && (forall n :: n in lists <==> n in before || n in nodes)
    && forall n, c :: multiset(ListOf(lists, n))[c] == multiset(ListOf(before, n))[c] + if c == b then multiset(nodes)[n] else 0
  }

  lemma NothingListed(before: map<NodeId, seq<BlockId>>, nodes: seq<NodeId>, b: BlockId)
    ensures ListedFor(before, before, nodes[..0], b)
  {
  }

  lemma ListedOneMore(before: map<NodeId, seq<BlockId>>, lists: map<NodeId, seq<BlockId>>, nodes: seq<NodeId>, k: nat, b: BlockId)
    requires k < |nodes| && ListedFor(before, lists, nodes[..k], b)
    ensures ListedFor(before, lists[nodes[k] := ListOf(lists, nodes[k]) + [b]], nodes[..k + 1], b)
  {
    var lists' := lists[nodes[k] := ListOf(lists, nodes[k]) + [b]];
    forall n
      ensures n in lists' <==> n in before || n in nodes[..k + 1]
    {
      OneMoreNode(nodes, k, n);
    }
    forall n, c
      ensures multiset(ListOf(lists', n))[c] == multiset(ListOf(before, n))[c] + if c == b then multiset(nodes[..k + 1])[n] else 0
    {
      hide ListOf;
      AppendedOne(lists, nodes[k], b, n, c);
      OneMoreNode(nodes, k, n);
    }
  }

  function Occurrences(placements: map<BlockId, seq<NodeId>>, b: BlockId, n: NodeId): nat {
    if b in placements then multiset(placements[b])[n] else 0
  }

  /** Each node has the sorted list of its blocks, a block as often as its placement repeats the
      node. */
  ghost predicate RebuiltFrom(inv: map<NodeId, seq<BlockId>>, placements: map<BlockId, seq<NodeId>>) {
    && (forall n :: n in inv <==> exists b :: b in placements && n in placements[b])
    && (forall n | n in inv :: NonDecreasing(inv[n]) && forall b :: multiset(inv[n])[b] == Occurrences(placements, b, n))
  }

  /** lists is the inverse of the placements of the blocks gone through so far. */
  ghost predicate Inverts(lists: map<NodeId, seq<BlockId>>, placements: map<BlockId, seq<NodeId>>, done: set<BlockId>) {
    && (forall n :: n in lists <==> exists b :: b in done && b in placements && n in placements[b])
    && (forall n, b :: multiset(ListOf(lists, n))[b] == if b in done then Occurrences(placements, b, n) else 0)
  }

  lemma InvertsOneMore(before: map<NodeId, seq<BlockId>>, lists: map<NodeId, seq<BlockId>>,
                       placements: map<BlockId, seq<NodeId>>, done: set<BlockId>, b: BlockId)
    requires Inverts(before, placements, done) && b in placements && b !in done
    requires ListedFor(before, lists, placements[b], b)
    ensures Inverts(lists, placements, done + {b})
  {
  }

  lemma InvertsAll(lists: map<NodeId, seq<BlockId>>, placements: map<BlockId, seq<NodeId>>)
    requires Inverts(lists, placements, placements.Keys)
    ensures RebuiltFrom(map n | n in lists :: SortList(lists[n]), placements)
  {
    forall n | n in lists
      ensures NonDecreasing(SortList(lists[n])) && forall b :: multiset(SortList(lists[n]))[b] == Occurrences(placements, b, n)
    {
      SortListIs(lists[n]);
      assert ListOf(lists, n) == lists[n];
    }
  }

  lemma {:induction false} OnceIn(q: seq<NodeId>, n: NodeId)
    requires P.NoDuplicates(q)
    ensures multiset(q)[n] == if n in q then 1 else 0
  {
    if q != [] {
      OnceIn(q[1..], n);
      assert q == [q[0]] + q[1..];
    }
  }

  /** With no node repeated, that is the inverse as sets. */
  lemma RebuiltOnce(inv: map<NodeId, seq<BlockId>>, placements: map<BlockId, seq<NodeId>>)
    requires RebuiltFrom(inv, placements) && forall b | b in placements :: P.NoDuplicates(placements[b])
    ensures inv == P.Rebuild(placements)
  {
    var r := P.Rebuild(placements);
    forall n | n in inv
      ensures inv[n] == SortSet(P.Holding(placements, n))
    {
      forall b
        ensures multiset(inv[n])[b] == if b in P.Holding(placements, n) then 1 else 0
      {
        if b in placements {
          OnceIn(placements[b], n);
        }
      }
      SortedOnceIsSortSet(inv[n]);
      forall b
        ensures b in Elements(inv[n]) <==> b in P.Holding(placements, n)
      {
        assert b in inv[n] <==> b in multiset(inv[n]);
      }
      assert Elements(inv[n]) == P.Holding(placements, n);
    }
    assert inv.Keys == r.Keys;
  }

  /** The list comprehension that drops one block, or one node, from a list. */
  method AllBut(q: seq<string>, x: string) returns (r: seq<string>)
    ensures r == P.Without(q, x)
  {
    r := [];
    var k := 0;
    while k < |q|
      invariant k <= |q|
      invariant r + P.Without(q[k..], x) == P.Without(q, x)
    {
      assert q[k..][1..] == q[k + 1..];
      if q[k] != x {
        r := r + [q[k]];
      }
      k := k + 1;
    }
  }

  /** The blocks and placements tables; placements has one row per block and node. */
  class MetadataStore {
    var blocks: map<BlockId, int>
    var placements: set<(BlockId, NodeId)>

    ghost predicate Valid()
      reads this
    {
      forall row | row in placements :: row.0 in blocks
    }

    function NodesOf(b: BlockId): set<NodeId>
      reads this
    {
      set row | row in placements && row.0 == b :: row.1
    }

    ghost function Contents(): map<BlockId, P.Stored>
      reads this
    {
      map b | b in blocks :: P.Stored(blocks[b], NodesOf(b))
    }

    constructor ()
      ensures Valid() && Contents() == map[]
    {
      blocks, placements := map[], {};
    }

    /** One transaction; a repeated node breaks the primary key and rolls everything back. */
    method SavePlacement(b: BlockId, version: int, nodes: seq<NodeId>) returns (ok: bool)
      requires Valid()
      modifies this
      ensures Valid()
      ensures ok <==> P.NoDuplicates(nodes)
      ensures Contents() == if ok then old(Contents())[b := P.Stored(version, Elements(nodes))] else old(Contents())
    {
      var blocksBefore, placementsBefore := blocks, placements;
      blocks := blocks[b := version];
      placements := set row | row in placements && row.0 != b;
      var k := 0;
      while k < |nodes|
        invariant k <= |nodes| && P.NoDuplicates(nodes[..k])
        invariant blocks == blocksBefore[b := version]
        invariant forall row :: row in placements <==>
                    if row.0 == b then row.1 in nodes[..k] else row in placementsBefore
      {
        if (b, nodes[k]) in placements {
          blocks, placements := blocksBefore, placementsBefore;
          return false;
        }
        placements := placements + {(b, nodes[k])};
        k := k + 1;
      }
      assert nodes[..k] == nodes;
      SavedContents(old(Contents()), b, version, nodes);
      return true;
    }

    lemma SavedContents(before: map<BlockId, P.Stored>, b: BlockId, version: int, nodes: seq<NodeId>)
      requires blocks.Keys == before.Keys + {b} && blocks[b] == version
      requires forall c | c in before && c != b :: before[c] == P.Stored(blocks[c], NodesOf(c))
      requires forall n :: (b, n) in placements <==> n in nodes
      ensures Contents() == before[b := P.Stored(version, Elements(nodes))]
    {
      assert NodesOf(b) == Elements(nodes) by {
        forall n
          ensures n in NodesOf(b) <==> n in nodes
        {
          assert n in nodes ==> (b, n).1 == n;
        }
      }
    }

    /** Deleting the block row deletes its placement rows with it. */
    method DeleteBlock(b: BlockId) returns (deleted: bool)
      requires Valid()
      modifies this
      ensures Valid()
      ensures deleted <==> b in old(Contents())
      ensures Contents() == old(Contents()) - {b}
    {
      deleted := b in blocks;
      ghost var before := Contents();
      blocks := blocks - {b};
      placements := set row | row in placements && row.0 != b;
      forall c | c in blocks
        ensures P.Stored(blocks[c], NodesOf(c)) == before[c]
      {
        assert NodesOf(c) == old(NodesOf(c));
      }
    }

    /** The rows are read in block and node order, so each list comes back sorted. */
    method LoadRecoverySnapshot()
      returns (lists: map<BlockId, seq<NodeId>>, versions: map<BlockId, int>, count: nat)
      ensures lists == P.StoredBlocks(Contents())
      ensures versions == (map b | b in Contents() :: Contents()[b].version)
      ensures count == |Contents()|
    {
      lists := map b | b in blocks && NodesOf(b) != {} :: SortSet(NodesOf(b));
      versions := blocks;
      count := |blocks|;
      assert Contents().Keys == blocks.Keys;
    }
  }

  class RoundRobinPlacementPolicy {
    var counter: nat

    constructor ()
      ensures counter == 0
    {
      counter := 0;
    }

    method SelectNodes(available: set<NodeId>, factor: int) returns (r: Option<seq<NodeId>>)
      modifies this
      ensures r == P.SelectNodes(old(counter), available, factor)
      ensures counter == if r.Some? then old(counter) + 1 else old(counter)
    {
      if available == {} || factor < 1 || factor > |available| {
        return None;
      }
      var sortedNodes := SortSet(available);
      SortSetIsSorted(available);
      var start := counter % |sortedNodes|;
      counter := counter + 1;
      var selected := [];
      for offset := 0 to factor
        invariant selected == P.RoundRobin(sortedNodes, old(counter), offset)
      {
        selected := selected + [sortedNodes[(start + offset) % |sortedNodes|]];
      }
      return Some(selected);
    }

    method Advance(steps: nat)
      modifies this
      ensures counter == steps
    {
      counter := steps;
    }
  }

  ghost function Tables(registry: PlacementRegistry, inventory: NodeInventory, store: MetadataStore, counter: nat): P.Placements
    reads registry, inventory, store
  {
    P.Placements(registry.blocks, registry.versions, inventory.inventory, store.Contents(), counter)
  }

  ghost function OrElse(r: Option<P.Placements>, p: P.Placements): P.Placements {
    if r.Some? then r.value else p
  }

  /** inventory.add_block for each node not in `skip`. */
  method AddToAll(inventory: NodeInventory, nodes: seq<NodeId>, skip: seq<NodeId>, b: BlockId)
    modifies inventory
    ensures inventory.inventory == P.AddToNodes(old(inventory.inventory), nodes, skip, b)
  {
    hide P.AddBlock;
    var k := 0;
    while k < |nodes|
      invariant k <= |nodes|
      invariant inventory.inventory == P.AddToNodes(old(inventory.inventory), nodes[..k], skip, b)
    {
      if nodes[k] !in skip {
        inventory.AddBlock(nodes[k], b);
      }
      assert nodes[..k + 1][..k] == nodes[..k];
      k := k + 1;
    }
    assert nodes[..k] == nodes;
  }

  /** inventory.remove_block for each node not in `keep`. */
  method RemoveFromAll(inventory: NodeInventory, nodes: seq<NodeId>, keep: seq<NodeId>, b: BlockId)
    modifies inventory
    ensures inventory.inventory == P.RemoveFromNodes(old(inventory.inventory), nodes, keep, b)
  {
    hide P.RemoveBlock;
    var k := 0;
    while k < |nodes|
      invariant k <= |nodes|
      invariant inventory.inventory == P.RemoveFromNodes(old(inventory.inventory), nodes[..k], keep, b)
    {
      if nodes[k] !in keep {
        inventory.RemoveBlock(nodes[k], b);
      }
      assert nodes[..k + 1][..k] == nodes[..k];
      k := k + 1;
    }
    assert nodes[..k] == nodes;
  }

  /** The writes that allocate_block and the state machine's allocation handler share. */
  method Place(registry: PlacementRegistry, inventory: NodeInventory, store: MetadataStore,
               b: BlockId, version: int, nodes: seq<NodeId>, ghost counter: nat) returns (ok: bool)
    requires store.Valid()
    modifies registry, inventory, store
    ensures store.Valid()
    ensures var before := old(Tables(registry, inventory, store, counter));
            var r := P.Place(before, b, version, nodes);
            ok == r.Some? && Tables(registry, inventory, store, counter) == OrElse(r, before)
  {
    hide P.NoDuplicates, P.AddToNodes, MetadataStore.Contents, MetadataStore.Valid;
    ok := store.SavePlacement(b, version, nodes);
    if ok {
      registry.RegisterBlock(b, version, nodes);
      AddToAll(inventory, nodes, [], b);
    }
  }

  /** The writes that update_block_placement and the state machine's placement handler share. */
  method Replace(registry: PlacementRegistry, inventory: NodeInventory, store: MetadataStore,
                 b: BlockId, version: int, nodes: seq<NodeId>, ghost counter: nat) returns (ok: bool)
    requires store.Valid()
    modifies registry, inventory, store
    ensures store.Valid()
    ensures var before := old(Tables(registry, inventory, store, counter));
            var r := P.Replace(before, b, version, nodes);
            ok == r.Some? && Tables(registry, inventory, store, counter) == OrElse(r, before)
  {
    hide P.NoDuplicates, P.AddToNodes, P.RemoveFromNodes, MetadataStore.Contents, MetadataStore.Valid;
    var holders := if b in registry.blocks then registry.blocks[b] else [];
    ok := store.SavePlacement(b, version, nodes);
    if ok {
      registry.RegisterBlock(b, version, nodes);
      RemoveFromAll(inventory, holders, nodes, b);
      AddToAll(inventory, nodes, holders, b);
    }
  }

  class PlacementService {
    const registry: PlacementRegistry
    const inventory: NodeInventory
    const store: MetadataStore
    const policy: RoundRobinPlacementPolicy

    ghost function View(): P.Placements
      reads registry, inventory, store, policy
    {
      Tables(registry, inventory, store, policy.counter)
    }

    constructor (registry: PlacementRegistry, inventory: NodeInventory, store: MetadataStore, policy: RoundRobinPlacementPolicy)
      ensures this.registry == registry && this.inventory == inventory && this.store == store && this.policy == policy
    {
      this.registry, this.inventory, this.store, this.policy := registry, inventory, store, policy;
    }

    /** None when the source raises. */
    method AllocateBlock(b: BlockId, factor: int, version: int, healthy: set<NodeId>) returns (r: Option<seq<NodeId>>)
      requires store.Valid()
      modifies registry, inventory, store, policy
      ensures store.Valid()
      ensures var after := P.Allocate(old(View()), b, factor, version, healthy);
              && View() == OrElse(after, old(View()))
              && (r.Some? <==> after.Some?)
              && (r.Some? ==> View().blocks[b] == r.value)
      ensures AllocatedNext(old(View()), b, factor, version, healthy, if r.Some? then Some(View()) else None)
    {
      AllocateTakesNext(View(), b, factor, version, healthy);
      hide AllocatedNext;
      if b in registry.blocks || |healthy| < factor {
        return None;
      }
      r := policy.SelectNodes(healthy, factor);
      if r.Some? {
        P.AllocationSucceedsIff(old(View()), b, factor, version, healthy);
        var ok := Place(registry, inventory, store, b, version, r.value, policy.counter);
        assert ok;
      }
    }

    method UpdateBlockPlacement(b: BlockId, nodes: seq<NodeId>, version: int) returns (ok: bool)
      requires store.Valid()
      modifies registry, inventory, store
      ensures store.Valid()
      ensures var after := P.Update(old(View()), b, nodes, version);
              View() == OrElse(after, old(View())) && ok == after.Some?
      ensures Updated(old(View()), b, nodes, version, if ok then Some(View()) else None)
    {
      UpdatePlaces(View(), b, nodes, version);
      hide Updated;
      if b !in registry.blocks {
        return false;
      }
      ok := Replace(registry, inventory, store, b, version, nodes, policy.counter);
    }

    method ReplaceReplica(b: BlockId, oldNode: NodeId, newNode: NodeId, version: int) returns (ok: bool)
      requires store.Valid()
      modifies registry, inventory, store
      ensures store.Valid()
      ensures var after := P.ReplaceReplica(old(View()), b, oldNode, newNode, version);
              View() == OrElse(after, old(View())) && ok == after.Some?
      ensures Distinct(old(View())) ==>
                ReplicaReplaced(old(View()), b, oldNode, newNode, version, if ok then Some(View()) else None)
    {
      hide ReplicaReplaced, Distinct, Updated;
      if Distinct(View()) {
        ReplaceReplicaSwaps(View(), b, oldNode, newNode, version);
      }
      if b !in registry.blocks {
        return false;
      }
      var locations := registry.blocks[b];
      var newLocations := [];
      var k := 0;
      while k < |locations|
        invariant k <= |locations|
        invariant newLocations + P.Swap(locations[k..], oldNode, newNode) == P.Swap(locations, oldNode, newNode)
      {
        assert locations[k..][1..] == locations[k + 1..];
        newLocations := newLocations + [if locations[k] == oldNode then newNode else locations[k]];
        k := k + 1;
      }
      assert newLocations == newLocations + P.Swap(locations[k..], oldNode, newNode);
      if oldNode !in locations && newNode !in locations {
        newLocations := locations + [newNode];
      }
      ok := UpdateBlockPlacement(b, newLocations, version);
    }

    method RemoveExtraReplica(b: BlockId, extra: NodeId, version: int) returns (ok: bool)
      requires store.Valid()
      modifies registry, inventory, store
      ensures store.Valid()
      ensures var after := P.RemoveExtraReplica(old(View()), b, extra, version);
              View() == OrElse(after, old(View())) && ok == after.Some?
      ensures Distinct(old(View())) ==> ExtraRemoved(old(View()), b, extra, version, if ok then Some(View()) else None)
    {
      hide ExtraRemoved, Distinct, Updated;
      if Distinct(View()) {
        RemoveExtraDrops(View(), b, extra, version);
      }
      if b !in registry.blocks {
        return false;
      }
      var newLocations := AllBut(registry.blocks[b], extra);
      if |newLocations| == |registry.blocks[b]| {
        return true;
      }
      ok := UpdateBlockPlacement(b, newLocations, version);
    }

    method DeleteBlock(b: BlockId) returns (deleted: bool)
      requires store.Valid()
      modifies registry, inventory, store
      ensures store.Valid()
      ensures var after := P.Delete(old(View()), b);
              View() == OrElse(after, old(View())) && deleted == after.Some?
      ensures Deleted(old(View()), b, if deleted then Some(View()) else None)
    {
      DeleteDrops(View(), b);
      hide Deleted;
      if b !in registry.blocks {
        return false;
      }
      var locations := registry.blocks[b];
      deleted := store.DeleteBlock(b);
      if !deleted {
        assert store.Contents() == old(store.Contents());
        return false;
      }
      var _ := registry.DeleteBlock(b);
      RemoveFromAll(inventory, locations, [], b);
    }

    method Recover()
      requires store.Valid()
      modifies registry, inventory, policy
      ensures View() == P.Recover(old(store.Contents()))
    {
      var placements, versions, count := store.LoadRecoverySnapshot();
      registry.LoadFromSnapshot(placements, versions);
      forall b | b in placements
        ensures P.NoDuplicates(placements[b])
      {
        SortSetIsSorted(store.Contents()[b].nodes);
        P.IncreasingHasNoDuplicates(placements[b]);
      }
      inventory.RebuildFromPlacements(placements);
      policy.Advance(count);
    }
  }
}
