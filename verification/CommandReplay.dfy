/** Replaying the command log over tables recovered from a store that already holds what some of
    its commands wrote (metadata/app.py starts the placement service, then the Raft node, which
    applies its log from the first entry again). */
module CommandReplay {
  import opened Metadata
  import opened Order
  import opened Placement
  import opened MetadataMachine

  // ----- what the commands leave of a block -----

  /** A command that places block b; one with a repeated node raises and places nothing. */
  predicate Places(c: Command, b: BlockId) {
    (c.AllocateBlock? || c.UpdatePlacement?) && c.block == b && NoDuplicates(c.nodes)
  }

  function FirstPlacing(cs: seq<Command>, b: BlockId): Option<Command> {
    if cs == [] then None
    else
      var before, c := FirstPlacing(cs[..|cs| - 1], b), cs[|cs| - 1];
      if before.Some? then before else if Places(c, b) then Some(c) else None
  }

  /** Whether some command places b on n. */
  predicate PlacedOn(cs: seq<Command>, b: BlockId, n: NodeId) {
    exists c :: c in cs && Places(c, b) && n in c.nodes
  }

  function StoredNodes(stored: map<BlockId, Stored>, b: BlockId): set<NodeId> {
    if b in stored then stored[b].nodes else {}
  }

  /** What the registry and the store say about one block. */
  datatype Record = Record(nodes: Option<seq<NodeId>>, version: Option<int>, row: Option<Stored>)

  function Find<V>(m: map<BlockId, V>, b: BlockId): Option<V> {
    if b in m then Some(m[b]) else None
  }

  function RecordOf(m: Machine, b: BlockId): Record {
    Record(Find(m.placements.blocks, b), Find(m.placements.versions, b), Find(m.placements.stored, b))
  }

  function Former(m: Machine, b: BlockId): seq<NodeId> {
    if b in m.placements.blocks then m.placements.blocks[b] else []
  }

  ghost predicate ListedFor(m: Machine, b: BlockId, n: NodeId) {
    b in Members(m.placements.inventory, n)
  }

  /** Inventory lists are sorted and never empty. */
  ghost predicate Tidy(m: Machine) {
    Sorted(m.placements.inventory) && forall n | n in m.placements.inventory :: m.placements.inventory[n] != []
  }

  lemma AddBlockIsTidy(inv: map<NodeId, seq<BlockId>>, n: NodeId, b: BlockId)
    ensures AddBlock(inv, n, b)[n] != []
  {
    SortSetIsSorted(Elements(InventoryOf(inv, n)) + {b});
    assert b in Elements(AddBlock(inv, n, b)[n]);
  }

  lemma {:induction false} AddToNodesIsTidy(inv: map<NodeId, seq<BlockId>>, nodes: seq<NodeId>, skip: seq<NodeId>, b: BlockId)
    requires forall n | n in inv :: inv[n] != []
    ensures forall n | n in AddToNodes(inv, nodes, skip, b) :: AddToNodes(inv, nodes, skip, b)[n] != []
  {
    hide SortSet;
    if nodes != [] {
      var before := AddToNodes(inv, nodes[..|nodes| - 1], skip, b);
      AddToNodesIsTidy(inv, nodes[..|nodes| - 1], skip, b);
      AddBlockIsTidy(before, nodes[|nodes| - 1], b);
    }
  }

  lemma {:induction false} RemoveFromNodesIsTidy(inv: map<NodeId, seq<BlockId>>, nodes: seq<NodeId>, keep: seq<NodeId>, b: BlockId)
    requires forall n | n in inv :: inv[n] != []
    ensures forall n | n in RemoveFromNodes(inv, nodes, keep, b) :: RemoveFromNodes(inv, nodes, keep, b)[n] != []
  {
    hide Without;
    if nodes != [] {
      RemoveFromNodesIsTidy(inv, nodes[..|nodes| - 1], keep, b);
    }
  }

  /** What a command does to the record of a block and to one node's list. */
  lemma CommandEffect(m: Machine, c: Command, b: BlockId, n: NodeId)
    requires Tidy(m)
    ensures var m' := ApplyCommand(m, c).machine;
            && Tidy(m')
            && RecordOf(m', b) == (if Places(c, b) then Record(Some(c.nodes), Some(c.version), Some(Stored(c.version, Elements(c.nodes))))
                                   else RecordOf(m, b))
            && (ListedFor(m', b, n) <==>
                  if !Places(c, b) then ListedFor(m, b, n)
                  else if c.AllocateBlock? then ListedFor(m, b, n) || n in c.nodes
                  else (ListedFor(m, b, n) && (n in c.nodes || n !in Former(m, b))) || (n in c.nodes && n !in Former(m, b)))
  {
    hide Sorted, Members, AddToNodes, RemoveFromNodes;
    var p := m.placements;
    match c
    case AllocateBlock(d, _, nodes) =>
      AddToNodesEffect(p.inventory, nodes, [], d);
      AddToNodesIsTidy(p.inventory, nodes, [], d);
    case UpdatePlacement(d, _, nodes) =>
      var former := Former(m, d);
      var cut := RemoveFromNodes(p.inventory, former, nodes, d);
      RemoveFromNodesEffect(p.inventory, former, nodes, d);
      RemoveFromNodesIsTidy(p.inventory, former, nodes, d);
      AddToNodesEffect(cut, nodes, former, d);
      AddToNodesIsTidy(cut, nodes, former, d);
    case _ =>
  }

  lemma BootedEffect(stored: map<BlockId, Stored>, b: BlockId, n: NodeId)
    ensures Tidy(Booted(stored))
    ensures ListedFor(Booted(stored), b, n) <==> n in StoredNodes(stored, b)
    ensures n in Former(Booted(stored), b) <==> n in StoredNodes(stored, b)
    ensures b !in stored ==> RecordOf(Booted(stored), b) == Record(None, None, None)
    ensures b in stored ==> RecordOf(Booted(stored), b).row == Some(stored[b])
  {
    var blocks := StoredBlocks(stored);
    var inv := Rebuild(blocks);
    forall c | c in blocks
      ensures Elements(blocks[c]) == stored[c].nodes
    {
      SortSetIsSorted(stored[c].nodes);
    }
    forall k
      ensures Increasing(InventoryOf(inv, k)) && Elements(InventoryOf(inv, k)) == Holding(blocks, k)
      ensures k in inv ==> inv[k] != []
    {
      SortSetIsSorted(Holding(blocks, k));
      if k !in inv {
        assert Holding(blocks, k) == {};
      } else {
        var d :| d in blocks && k in blocks[d];
        assert d in Holding(blocks, k);
      }
    }
    assert Members(inv, n) == Holding(blocks, n);
    if b in blocks {
      assert n in blocks[b] <==> n in Elements(blocks[b]);
    }
  }

  lemma PlacedOnSnoc(cs: seq<Command>, b: BlockId, n: NodeId)
    requires cs != []
    ensures PlacedOn(cs, b, n) <==> PlacedOn(cs[..|cs| - 1], b, n) || (Places(cs[|cs| - 1], b) && n in cs[|cs| - 1].nodes)
  {
    assert cs == cs[..|cs| - 1] + [cs[|cs| - 1]];
  }

  /** From the start, nothing is held but what the log has placed, and every block's current
      holders are held. */
  lemma {:induction false} FreshReplay(cs: seq<Command>, b: BlockId, n: NodeId)
    ensures var m := ApplyAll(EmptyMachine, cs);
            && Tidy(m)
            && (ListedFor(m, b, n) ==> PlacedOn(cs, b, n))
            && (n in Former(m, b) ==> ListedFor(m, b, n))
            && (FirstPlacing(cs, b) == None ==> RecordOf(m, b) == Record(None, None, None))
            && (FirstPlacing(cs, b) == None ==> !PlacedOn(cs, b, n))
  {
    hide Tidy, ApplyCommand, ListedFor, PlacedOn;
    if cs == [] {
      BootedOnNothing();
      BootedEffect(map[], b, n);
      assert !PlacedOn([], b, n) by { NothingPlaced(b, n); }
    } else {
      FreshReplay(cs[..|cs| - 1], b, n);
      CommandEffect(ApplyAll(EmptyMachine, cs[..|cs| - 1]), cs[|cs| - 1], b, n);
      PlacedOnSnoc(cs, b, n);
    }
  }

  lemma NothingPlaced(b: BlockId, n: NodeId)
    ensures !PlacedOn([], b, n)
  {
  }

  /** A node that the stored rows give b and no command has placed it on is still listed for b
      unless the first command to place b was an update. */
  ghost predicate Stale(stored: map<BlockId, Stored>, cs: seq<Command>, b: BlockId, n: NodeId) {
    && n in StoredNodes(stored, b) && !PlacedOn(cs, b, n)
    && (FirstPlacing(cs, b) == None || FirstPlacing(cs, b).value.AllocateBlock?)
  }

  /** Replaying over recovered tables, compared with replaying from the start. */
  lemma {:induction false} ReplayOverStored(stored: map<BlockId, Stored>, cs: seq<Command>, b: BlockId, n: NodeId)
    ensures var r, f := ApplyAll(Booted(stored), cs), ApplyAll(EmptyMachine, cs);
            && Tidy(r) && r.peers == f.peers && r.placements.counter == f.placements.counter
            && RecordOf(r, b) == (if FirstPlacing(cs, b).Some? then RecordOf(f, b) else RecordOf(Booted(stored), b))
            && (ListedFor(r, b, n) <==> ListedFor(f, b, n) || Stale(stored, cs, b, n))
  {
    hide Tidy, ApplyCommand, ListedFor, PlacedOn, Booted;
    if cs == [] {
      BootedEffect(stored, b, n);
      BootedPeers(stored);
      BootedOnNothing();
      BootedEffect(map[], b, n);
      NothingPlaced(b, n);
    } else {
      var before, c := cs[..|cs| - 1], cs[|cs| - 1];
      var r, f := ApplyAll(Booted(stored), before), ApplyAll(EmptyMachine, before);
      ReplayOverStored(stored, before, b, n);
      FreshReplay(before, b, n);
      BootedEffect(stored, b, n);
      PlacedOnSnoc(cs, b, n);
      CommandEffect(r, c, b, n);
      CommandEffect(f, c, b, n);
      SamePeers(r, f, c);
      FormerOf(r, f, b);
      FormerOf(r, Booted(stored), b);
    }
  }

  lemma BootedPeers(stored: map<BlockId, Stored>)
    ensures Booted(stored).peers == [] && Booted(stored).placements.counter == 0
  {
  }

  lemma SamePeers(r: Machine, f: Machine, c: Command)
    requires r.peers == f.peers && r.placements.counter == f.placements.counter
    ensures ApplyCommand(r, c).machine.peers == ApplyCommand(f, c).machine.peers
    ensures ApplyCommand(r, c).machine.placements.counter == ApplyCommand(f, c).machine.placements.counter
  {
  }

  lemma FormerOf(r: Machine, f: Machine, b: BlockId)
    ensures RecordOf(r, b) == RecordOf(f, b) ==> Former(r, b) == Former(f, b)
    ensures RecordOf(r, b).nodes == None ==> Former(r, b) == []
  {
  }

  lemma SameMachine(r: Machine, f: Machine)
    requires Tidy(r) && Tidy(f) && r.peers == f.peers && r.placements.counter == f.placements.counter
    requires forall b {:trigger RecordOf(r, b)} :: RecordOf(r, b) == RecordOf(f, b)
    requires forall b, n :: ListedFor(r, b, n) <==> ListedFor(f, b, n)
    ensures r == f
  {
    var p, q := r.placements, f.placements;
    forall b
      ensures Find(p.blocks, b) == Find(q.blocks, b) && Find(p.versions, b) == Find(q.versions, b) && Find(p.stored, b) == Find(q.stored, b)
    {
      assert RecordOf(r, b) == RecordOf(f, b);
    }
    SameMap(p.blocks, q.blocks);
    SameMap(p.versions, q.versions);
    SameMap(p.stored, q.stored);
    forall n
      ensures InventoryOf(p.inventory, n) == InventoryOf(q.inventory, n)
      ensures n in p.inventory <==> n in q.inventory
    {
      forall b
        ensures b in Members(p.inventory, n) <==> b in Members(q.inventory, n)
      {
        assert ListedFor(r, b, n) <==> ListedFor(f, b, n);
      }
      assert Members(p.inventory, n) == Members(q.inventory, n);
      SortedIsSortSet(InventoryOf(p.inventory, n));
      SortedIsSortSet(InventoryOf(q.inventory, n));
    }
    assert p.inventory == q.inventory;
  }

  lemma SameMap<V>(p: map<BlockId, V>, q: map<BlockId, V>)
    requires forall b :: Find(p, b) == Find(q, b)
    ensures p == q
  {
    forall b
      ensures b in p <==> b in q
      ensures b in p && b in q ==> p[b] == q[b]
    {
      assert Find(p, b) == Find(q, b);
    }
  }

  /** Every stored block has been placed again, and by an update first or on all its nodes. */
  ghost predicate Overwritten(stored: map<BlockId, Stored>, cs: seq<Command>) {
    forall b | b in stored ::
      && FirstPlacing(cs, b).Some?
      && (FirstPlacing(cs, b).value.AllocateBlock? ==> forall n | n in stored[b].nodes :: PlacedOn(cs, b, n))
  }

  /** Exactly when replaying commands over the tables recovered from a store ends where
      replaying them from nothing does. */
  lemma ReplayConvergesIff(stored: map<BlockId, Stored>, cs: seq<Command>)
    ensures ApplyAll(Booted(stored), cs) == ApplyAll(EmptyMachine, cs) <==> Overwritten(stored, cs)
  {
    var r, f := ApplyAll(Booted(stored), cs), ApplyAll(EmptyMachine, cs);
    hide ApplyAll, Booted, ListedFor, Tidy, PlacedOn, FirstPlacing;
    ReplayOverStored(stored, cs, "", "");
    FreshReplay(cs, "", "");
    forall b
      ensures RecordOf(r, b) == (if FirstPlacing(cs, b).Some? then RecordOf(f, b) else RecordOf(Booted(stored), b))
      ensures FirstPlacing(cs, b) == None ==> RecordOf(f, b) == Record(None, None, None)
      ensures b !in stored ==> RecordOf(Booted(stored), b) == Record(None, None, None)
      ensures b in stored ==> RecordOf(Booted(stored), b).row == Some(stored[b])
    {
      ReplayOverStored(stored, cs, b, "");
      FreshReplay(cs, b, "");
      BootedEffect(stored, b, "");
    }
    forall b, n
      ensures ListedFor(r, b, n) <==> ListedFor(f, b, n) || Stale(stored, cs, b, n)
      ensures ListedFor(f, b, n) ==> PlacedOn(cs, b, n)
    {
      ReplayOverStored(stored, cs, b, n);
      FreshReplay(cs, b, n);
    }
    hide RecordOf;
    if Overwritten(stored, cs) {
      SameMachine(r, f);
    }
    if r == f {
      forall b | b in stored
        ensures FirstPlacing(cs, b).Some?
        ensures FirstPlacing(cs, b).value.AllocateBlock? ==> forall n | n in stored[b].nodes :: PlacedOn(cs, b, n)
      {
        assert ListedFor(r, b, "") == ListedFor(f, b, "");
        assert FirstPlacing(cs, b).Some?;
        forall n | n in stored[b].nodes && FirstPlacing(cs, b).value.AllocateBlock?
          ensures PlacedOn(cs, b, n)
        {
          assert ListedFor(r, b, n) == ListedFor(f, b, n);
        }
      }
    }
  }

  // ----- rows the commands have written -----

  /** Every stored row is what some command has written. */
  ghost predicate WrittenBy(stored: map<BlockId, Stored>, cs: seq<Command>) {
    forall b | b in stored :: exists c :: c in cs && Places(c, b) && stored[b].nodes == Elements(c.nodes)
  }

  lemma WrittenByMore(stored: map<BlockId, Stored>, cs: seq<Command>, more: seq<Command>)
    requires WrittenBy(stored, cs)
    ensures WrittenBy(stored, cs + more)
  {
    forall b | b in stored
      ensures exists c :: c in cs + more && Places(c, b) && stored[b].nodes == Elements(c.nodes)
    {
      var c :| c in cs && Places(c, b) && stored[b].nodes == Elements(c.nodes);
      assert c in cs + more;
    }
  }

  lemma {:induction false} ReplayWrites(stored: map<BlockId, Stored>, cs: seq<Command>, all: seq<Command>)
    requires WrittenBy(stored, all) && forall c | c in cs :: c in all
    ensures WrittenBy(ApplyAll(Booted(stored), cs).placements.stored, all)
  {
    if cs != [] {
      var before, c := cs[..|cs| - 1], cs[|cs| - 1];
      ReplayWrites(stored, before, all);
      StoredAfter(ApplyAll(Booted(stored), before), c);
    }
  }

  lemma StoredAfter(m: Machine, c: Command)
    ensures var rows, rows' := m.placements.stored, ApplyCommand(m, c).machine.placements.stored;
            forall b | b in rows' ::
              if Places(c, b) then rows'[b].nodes == Elements(c.nodes) else b in rows && rows'[b] == rows[b]
  {
  }

  lemma {:induction false} FirstPlacingIs(cs: seq<Command>, c: Command, b: BlockId)
    requires c in cs && Places(c, b)
    ensures FirstPlacing(cs, b).Some?
  {
    var before, last := cs[..|cs| - 1], cs[|cs| - 1];
    assert cs == before + [last];
    if c in before {
      FirstPlacingIs(before, c, b);
    }
  }

  /** A store whose rows the commands themselves have written makes no difference to them. */
  lemma ReplayOfOwnRows(stored: map<BlockId, Stored>, cs: seq<Command>)
    requires WrittenBy(stored, cs)
    ensures ApplyAll(Booted(stored), cs) == ApplyAll(EmptyMachine, cs)
  {
    hide ApplyAll, Booted;
    forall b | b in stored
      ensures FirstPlacing(cs, b).Some? && forall n | n in stored[b].nodes :: PlacedOn(cs, b, n)
    {
      var c :| c in cs && Places(c, b) && stored[b].nodes == Elements(c.nodes);
      FirstPlacingIs(cs, c, b);
    }
    ReplayConvergesIff(stored, cs);
  }
}
