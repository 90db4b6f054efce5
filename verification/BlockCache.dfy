/** The LRU cache of live rows in front of the blocks table (node/cache.py and its use in
    node/storage_engine.py). */
module BlockCache {
  import opened Metadata
  import opened BlockRows

  /** An OrderedDict, oldest entry first. */
  type Cached = seq<(BlockId, Row)>

  predicate Has(q: Cached, b: BlockId) {
    exists x :: 0 <= x < |q| && q[x].0 == b
  }

  predicate Distinct(q: Cached) {
    forall x, y | 0 <= x < y < |q| :: q[x].0 != q[y].0
  }

  function Dropped(q: Cached, b: BlockId): Cached {
    if q == [] then []
    else if q[0].0 == b then Dropped(q[1..], b)
    else [q[0]] + Dropped(q[1..], b)
  }

  function Lookup(q: Cached, b: BlockId): Option<Row> {
    if q == [] then None else if q[0].0 == b then Some(q[0].1) else Lookup(q[1..], b)
  }

  /** Evicts from the front. */
  function Trimmed(q: Cached, max: nat): Cached {
    if |q| > max then q[|q| - max..] else q
  }

  function Put(q: Cached, b: BlockId, r: Row, max: nat): Cached {
    Trimmed(Dropped(q, b) + [(b, r)], max)
  }

  /** A hit moves the entry to the end. */
  function Touched(q: Cached, b: BlockId): Cached {
    var r := Lookup(q, b);
    if r.Some? then Dropped(q, b) + [(b, r.value)] else q
  }

  // ----- the engine's memory -----

  datatype Memory = Memory(rows: Table, cache: Cached, max: nat)

  datatype MemoryOp = Change(change: BlockRows.Change) | Serve(request: Request) | Read(block: BlockId) | Purge

  /** _apply_write_entry and _apply_delete_entry. */
  function Store(m: Memory, c: BlockRows.Change): Memory {
    var rows := Apply(m.rows, c);
    match c
    case Write(b, _, _) => m.(rows := rows, cache := if rows[b].Live? then Put(m.cache, b, rows[b], m.max) else m.cache)
    case Delete(b, _) => m.(rows := rows, cache := Dropped(m.cache, b))
  }

  function LiveRow(t: Table, b: BlockId): Option<Row> {
    if b in t && t[b].Live? then Some(t[b]) else None
  }

  function ReadBlock(m: Memory, b: BlockId): Option<Row> {
    if Lookup(m.cache, b).Some? then Lookup(m.cache, b) else LiveRow(m.rows, b)
  }

  function AfterRead(m: Memory, b: BlockId): Memory {
    if Lookup(m.cache, b).Some? then m.(cache := Touched(m.cache, b))
    else if LiveRow(m.rows, b).Some? then m.(cache := Put(m.cache, b, m.rows[b], m.max))
    else m
  }

  function Step(m: Memory, op: MemoryOp): Memory {
    match op
    case Change(c) => Store(m, c)
    case Serve(r) => var d := Decide(m.rows, r); if d.Log? then Store(m, d.change) else m
    case Read(b) => AfterRead(m, b)
    case Purge => m.(rows := map[], cache := [])
  }

  function After(m: Memory, ops: seq<MemoryOp>): Memory {
    if ops == [] then m else Step(After(m, ops[..|ops| - 1]), ops[|ops| - 1])
  }

  /** The same operations on a table with no cache. */
  function RowsAfter(t: Table, ops: seq<MemoryOp>): Table {
    if ops == [] then t
    else
      var before := RowsAfter(t, ops[..|ops| - 1]);
      match ops[|ops| - 1]
      case Change(c) => Apply(before, c)
      case Serve(r) => Perform(before, r)
      case Read(_) => before
      case Purge => map[]
  }

  /** Every cached entry is the live row of its block, no block is cached twice, and the cache
      is within its bound. */
  ghost predicate Coherent(m: Memory) {
    && Distinct(m.cache)
    && |m.cache| <= m.max
    && forall x | 0 <= x < |m.cache| :: LiveRow(m.rows, m.cache[x].0) == Some(m.cache[x].1)
  }

  lemma {:induction false} DroppedKeeps(q: Cached, b: BlockId)
    requires Distinct(q)
    ensures Distinct(Dropped(q, b)) && !Has(Dropped(q, b), b)
    ensures |Dropped(q, b)| == |q| - (if Has(q, b) then 1 else 0)
    ensures forall x | 0 <= x < |Dropped(q, b)| :: Dropped(q, b)[x] in q
  {
    if q != [] {
      DroppedKeeps(q[1..], b);
      assert q == [q[0]] + q[1..];
      if q[0].0 == b {
        assert !Has(q[1..], b);
      } else {
        assert Has(q, b) <==> Has(q[1..], b) by {
          if Has(q, b) {
            var x :| 0 <= x < |q| && q[x].0 == b;
            assert q[1..][x - 1].0 == b;
          }
        }
        var d := Dropped(q[1..], b);
        forall y | 0 <= y < |d|
          ensures d[y].0 != q[0].0 && d[y] in q
        {
          assert d[y] in q[1..];
        }
      }
    }
  }

  /** Dropping a block forgets it alone. */
  lemma {:induction false} DroppedForgets(q: Cached, b: BlockId, c: BlockId)
    ensures Lookup(Dropped(q, b), c) == if c == b then None else Lookup(q, c)
  {
    if q != [] {
      DroppedForgets(q[1..], b, c);
    }
  }

  lemma {:induction false} DroppedLength(q: Cached, b: BlockId)
    ensures |Dropped(q, b)| <= |q|
  {
    if q != [] {
      DroppedLength(q[1..], b);
    }
  }

  lemma {:induction false} LookupIs(q: Cached, b: BlockId)
    ensures Lookup(q, b).Some? <==> Has(q, b)
    ensures Lookup(q, b).Some? ==> (b, Lookup(q, b).value) in q
  {
    if q != [] {
      LookupIs(q[1..], b);
      if q[0].0 != b && Has(q, b) {
        var x :| 0 <= x < |q| && q[x].0 == b;
        assert q[1..][x - 1].0 == b;
      }
    }
  }

  lemma PutIsCoherent(m: Memory, b: BlockId)
    requires Distinct(m.cache) && |m.cache| <= m.max && LiveRow(m.rows, b).Some?
    requires forall x | 0 <= x < |m.cache| :: m.cache[x].0 == b || LiveRow(m.rows, m.cache[x].0) == Some(m.cache[x].1)
    ensures Coherent(m.(cache := Put(m.cache, b, m.rows[b], m.max)))
  {
    DroppedKeeps(m.cache, b);
    var d := Dropped(m.cache, b);
    forall x | 0 <= x < |d|
      ensures d[x].0 != b && LiveRow(m.rows, d[x].0) == Some(d[x].1)
    {
      var y :| 0 <= y < |m.cache| && m.cache[y] == d[x];
    }
  }

  lemma StoreIsCoherent(m: Memory, c: BlockRows.Change)
    requires Coherent(m)
    ensures Coherent(Store(m, c))
  {
    ApplyIsJoin(m.rows, c);
    var rows := Apply(m.rows, c);
    assert forall x | 0 <= x < |m.cache| && m.cache[x].0 != c.block :: LiveRow(rows, m.cache[x].0) == Some(m.cache[x].1);
    match c
    case Write(b, version, data) =>
      if rows[b].Live? {
        PutIsCoherent(m.(rows := rows), b);
      } else {
        assert rows == m.rows;
      }
    case Delete(b, _) =>
      DroppedKeeps(m.cache, b);
      var d := Dropped(m.cache, b);
      forall x | 0 <= x < |d|
        ensures LiveRow(rows, d[x].0) == Some(d[x].1)
      {
        var y :| 0 <= y < |m.cache| && m.cache[y] == d[x];
        assert d[x].0 != b;
      }
  }

  lemma ReadIsCoherent(m: Memory, b: BlockId)
    requires Coherent(m)
    ensures Coherent(AfterRead(m, b))
    ensures ReadBlock(m, b) == LiveRow(m.rows, b)
  {
    LookupIs(m.cache, b);
    if Lookup(m.cache, b).Some? {
      var r := Lookup(m.cache, b).value;
      var x :| 0 <= x < |m.cache| && m.cache[x] == (b, r);
      DroppedKeeps(m.cache, b);
      var d := Dropped(m.cache, b);
      forall y | 0 <= y < |d|
        ensures d[y].0 != b && LiveRow(m.rows, d[y].0) == Some(d[y].1)
      {
        var z :| 0 <= z < |m.cache| && m.cache[z] == d[y];
      }
    } else if LiveRow(m.rows, b).Some? {
      PutIsCoherent(m, b);
    }
  }

  lemma StepIsCoherent(m: Memory, op: MemoryOp)
    requires Coherent(m)
    ensures Coherent(Step(m, op)) && Step(m, op).max == m.max
  {
    match op
    case Change(c) => StoreIsCoherent(m, c);
    case Serve(r) =>
      if Decide(m.rows, r).Log? {
        StoreIsCoherent(m, Decide(m.rows, r).change);
      }
    case Read(b) => ReadIsCoherent(m, b);
    case Purge =>
  }

  /** After any sequence of requests, reads, replayed entries and purges, from an empty cache
      over any table: the cache holds only live rows as they are now and stays within its
      bound, the rows are those of an engine without a cache, and a read answers from them. */
  lemma {:induction false} CacheIsTransparent(t: Table, max: nat, ops: seq<MemoryOp>, b: BlockId)
    ensures var m := After(Memory(t, [], max), ops);
            && Coherent(m) && |m.cache| <= max
            && m.rows == RowsAfter(t, ops)
            && ReadBlock(m, b) == LiveRow(RowsAfter(t, ops), b)
  {
    if ops != [] {
      var before := After(Memory(t, [], max), ops[..|ops| - 1]);
      CacheIsTransparent(t, max, ops[..|ops| - 1], b);
      StepIsCoherent(before, ops[|ops| - 1]);
      assert before.max == max by {
        MaxIsFixed(Memory(t, [], max), ops[..|ops| - 1]);
      }
    }
    ReadIsCoherent(After(Memory(t, [], max), ops), b);
  }

  lemma {:induction false} MaxIsFixed(m: Memory, ops: seq<MemoryOp>)
    ensures After(m, ops).max == m.max
  {
    if ops != [] {
      MaxIsFixed(m, ops[..|ops| - 1]);
    }
  }

  /** Least recently used goes first: with room for one more at most, a put keeps the newest
      max - 1 other entries in their order. */
  lemma PutEvictsOldest(q: Cached, b: BlockId, r: Row, max: nat)
    requires Distinct(q) && |q| <= max && max > 0
    ensures var q' := Put(q, b, r, max);
            && q'[|q'| - 1] == (b, r)
            && q'[..|q'| - 1] == if !Has(q, b) && |q| == max then Dropped(q, b)[1..] else Dropped(q, b)
  {
    DroppedKeeps(q, b);
    var full := Dropped(q, b) + [(b, r)];
    if Dropped(q, b) != [] {
      assert full[1..] == Dropped(q, b)[1..] + [(b, r)];
    }
  }

  // ----- which entry is the oldest -----

  datatype CacheOp = PutOp(block: BlockId, row: Row) | GetOp(block: BlockId) | RemoveOp(block: BlockId)

  function CacheStep(q: Cached, op: CacheOp, max: nat): Cached {
    match op
    case PutOp(b, r) => Put(q, b, r, max)
    case GetOp(b) => Touched(q, b)
    case RemoveOp(b) => Dropped(q, b)
  }

  function CacheAfter(ops: seq<CacheOp>, max: nat): Cached {
    if ops == [] then [] else CacheStep(CacheAfter(ops[..|ops| - 1], max), ops[|ops| - 1], max)
  }

  predicate Uses(op: CacheOp, b: BlockId) {
    op.block == b && !op.RemoveOp?
  }

  /** Counting operations from 1, the last one that put or got b; 0 if none did. */
  function LastUse(ops: seq<CacheOp>, b: BlockId): nat {
    if ops == [] then 0
    else if Uses(ops[|ops| - 1], b) then |ops|
    else LastUse(ops[..|ops| - 1], b)
  }

  /** The row of the last put of b. */
  function LastPut(ops: seq<CacheOp>, b: BlockId): Option<Row> {
    if ops == [] then None
    else
      var op := ops[|ops| - 1];
      if op.PutOp? && op.block == b then Some(op.row) else LastPut(ops[..|ops| - 1], b)
  }

  ghost predicate ByLastUse(q: Cached, ops: seq<CacheOp>) {
    forall x, y | 0 <= x < y < |q| :: LastUse(ops, q[x].0) < LastUse(ops, q[y].0)
  }

  ghost predicate HoldsLastPuts(q: Cached, ops: seq<CacheOp>) {
    forall x | 0 <= x < |q| :: LastPut(ops, q[x].0) == Some(q[x].1)
  }

  lemma {:induction false} LastUseIsPast(ops: seq<CacheOp>, b: BlockId)
    ensures LastUse(ops, b) <= |ops|
  {
    if ops != [] {
      LastUseIsPast(ops[..|ops| - 1], b);
    }
  }

  /** Each entry of r stands somewhere in q, and in the same order. */
  ghost predicate Thinned(q: Cached, r: Cached) {
    && (forall x | 0 <= x < |r| :: r[x] in q)
    && forall ops | ByLastUse(q, ops) :: ByLastUse(r, ops)
  }

  lemma {:induction false} DroppedIsThinned(q: Cached, b: BlockId)
    ensures Thinned(q, Dropped(q, b))
  {
    if q != [] {
      hide LastUse;
      DroppedIsThinned(q[1..], b);
      var d := Dropped(q[1..], b);
      assert forall x | 0 <= x < |d| :: d[x] in q[1..];
      forall ops | ByLastUse(q, ops)
        ensures ByLastUse(Dropped(q, b), ops)
      {
        assert ByLastUse(q[1..], ops);
        forall y | 0 <= y < |d|
          ensures LastUse(ops, q[0].0) < LastUse(ops, d[y].0)
        {
          var z :| 0 <= z < |q[1..]| && q[1..][z] == d[y];
          assert q[z + 1] == d[y];
        }
      }
    }
  }

  /** An operation moves only its own block's last use. */
  lemma ByLastUseStays(q: Cached, ops: seq<CacheOp>, op: CacheOp)
    requires ByLastUse(q, ops) && HoldsLastPuts(q, ops) && !Has(q, op.block)
    ensures ByLastUse(q, ops + [op]) && HoldsLastPuts(q, ops + [op])
  {
    assert (ops + [op])[..|ops|] == ops;
    forall x | 0 <= x < |q|
      ensures LastUse(ops + [op], q[x].0) == LastUse(ops, q[x].0) && LastPut(ops + [op], q[x].0) == LastPut(ops, q[x].0)
    {
      assert q[x].0 != op.block;
    }
  }

  lemma EntryIsNewest(q: Cached, ops: seq<CacheOp>, op: CacheOp, r: Row)
    requires ByLastUse(q, ops) && HoldsLastPuts(q, ops) && !Has(q, op.block) && !op.RemoveOp?
    requires if op.PutOp? then r == op.row else LastPut(ops, op.block) == Some(r)
    ensures ByLastUse(q + [(op.block, r)], ops + [op]) && HoldsLastPuts(q + [(op.block, r)], ops + [op])
  {
    ByLastUseStays(q, ops, op);
    assert (ops + [op])[..|ops|] == ops;
    var q' := q + [(op.block, r)];
    forall x | 0 <= x < |q|
      ensures LastUse(ops + [op], q[x].0) < LastUse(ops + [op], op.block)
    {
      assert q[x].0 != op.block;
      LastUseIsPast(ops, q[x].0);
    }
    hide LastUse, LastPut;
    assert HoldsLastPuts(q', ops + [op]) by {
      assert LastPut(ops + [op], op.block) == Some(r) by {
        LastPutAfter(ops, op);
      }
    }
  }

  lemma LastPutAfter(ops: seq<CacheOp>, op: CacheOp)
    ensures LastPut(ops + [op], op.block) == if op.PutOp? then Some(op.row) else LastPut(ops, op.block)
  {
    assert (ops + [op])[..|ops|] == ops;
  }

  lemma DroppedIsRecent(q: Cached, ops: seq<CacheOp>, b: BlockId)
    requires Distinct(q) && ByLastUse(q, ops) && HoldsLastPuts(q, ops)
    ensures var d := Dropped(q, b); ByLastUse(d, ops) && HoldsLastPuts(d, ops) && !Has(d, b)
  {
    hide LastUse, LastPut;
    DroppedIsThinned(q, b);
    DroppedKeeps(q, b);
  }

  /** After any puts, gets and removes the entries stand in the order of their blocks' last put or get, none
      twice, each with the row last put, and no more than the bound. */
  lemma {:induction false} EntriesAreByLastUse(ops: seq<CacheOp>, max: nat)
    ensures var q := CacheAfter(ops, max);
            Distinct(q) && |q| <= max && ByLastUse(q, ops) && HoldsLastPuts(q, ops)
  {
    if ops != [] {
      var before, op := ops[..|ops| - 1], ops[|ops| - 1];
      var q := CacheAfter(before, max);
      EntriesAreByLastUse(before, max);
      assert before + [op] == ops;
      StepIsByLastUse(q, before, op, max);
    }
  }

  lemma StepIsByLastUse(q: Cached, ops: seq<CacheOp>, op: CacheOp, max: nat)
    requires Distinct(q) && |q| <= max && ByLastUse(q, ops) && HoldsLastPuts(q, ops)
    ensures var r := CacheStep(q, op, max);
            Distinct(r) && |r| <= max && ByLastUse(r, ops + [op]) && HoldsLastPuts(r, ops + [op])
  {
    DroppedKeeps(q, op.block);
    DroppedIsRecent(q, ops, op.block);
    LookupIs(q, op.block);
    var d := Dropped(q, op.block);
    ByLastUseStays(d, ops, op);
    hide LastUse, LastPut, Dropped, Lookup;
    match op
    case PutOp(b, r) =>
      EntryIsNewest(d, ops, op, r);
    case GetOp(b) =>
      if Lookup(q, b).Some? {
        EntryIsNewest(d, ops, op, Lookup(q, b).value);
      } else {
        ByLastUseStays(q, ops, op);
      }
    case RemoveOp(_) =>
  }

  /** A put evicts at most one entry, only when the cache is full and the block is new to it, and then
      the one whose last put or get is the oldest. */
  lemma OldestUseIsEvicted(ops: seq<CacheOp>, max: nat, b: BlockId, r: Row)
    requires max > 0
    ensures var q, q' := CacheAfter(ops, max), CacheAfter(ops + [PutOp(b, r)], max);
            && Has(q', b) && (forall c | Has(q', c) :: c == b || Has(q, c))
            && (Has(q, b) || |q| < max ==> forall c | Has(q, c) :: Has(q', c))
            && (!Has(q, b) && |q| == max ==>
                  exists gone :: Has(q, gone) && !Has(q', gone)
                    && (forall c | Has(q, c) && c != gone :: Has(q', c) && LastUse(ops, gone) < LastUse(ops, c)))
  {
    var q := CacheAfter(ops, max);
    EntriesAreByLastUse(ops, max);
    assert (ops + [PutOp(b, r)])[..|ops|] == ops;
    assert CacheAfter(ops + [PutOp(b, r)], max) == Put(q, b, r, max);
    hide CacheAfter, LastUse, LastPut;
    PutOfNew(q, b, r, max);
    if !Has(q, b) && |q| == max {
      var gone := q[0].0;
      forall c | Has(q, c) && c != gone
        ensures LastUse(ops, gone) < LastUse(ops, c)
      {
        var x :| 0 <= x < |q| && q[x].0 == c;
      }
      assert Has(q, gone);
    }
  }

  lemma {:induction false} DroppedAbsent(q: Cached, b: BlockId)
    requires !Has(q, b)
    ensures Dropped(q, b) == q
  {
    if q != [] {
      assert q[0].0 != b;
      assert forall x | 0 <= x < |q| - 1 :: q[1..][x] == q[x + 1];
      DroppedAbsent(q[1..], b);
    }
  }

  lemma HasAfterDrop(q: Cached, b: BlockId, c: BlockId)
    ensures Has(Dropped(q, b), c) <==> c != b && Has(q, c)
  {
    LookupIs(Dropped(q, b), c);
    LookupIs(q, c);
    DroppedForgets(q, b, c);
  }

  lemma HasAppended(q: Cached, b: BlockId, r: Row, c: BlockId)
    ensures Has(q + [(b, r)], c) <==> c == b || Has(q, c)
  {
    var q' := q + [(b, r)];
    if Has(q, c) {
      var x :| 0 <= x < |q| && q[x].0 == c;
      assert q'[x].0 == c;
    }
    assert q'[|q|].0 == b;
  }

  lemma PutOfNew(q: Cached, b: BlockId, r: Row, max: nat)
    requires Distinct(q) && |q| <= max && max > 0
    ensures var q' := Put(q, b, r, max);
            && (forall c :: Has(q', c) <==> c == b || (Has(q, c) && (!Has(q, b) && |q| == max ==> c != q[0].0)))
  {
    DroppedKeeps(q, b);
    var d := Dropped(q, b);
    forall c
      ensures Has(Put(q, b, r, max), c) <==> c == b || (Has(q, c) && (!Has(q, b) && |q| == max ==> c != q[0].0))
    {
      HasAfterDrop(q, b, c);
      if !Has(q, b) && |q| == max {
        DroppedAbsent(q, b);
        assert (q + [(b, r)])[1..] == q[1..] + [(b, r)];
        HasAppended(q[1..], b, r, c);
        HasRest(q, c);
      } else {
        HasAppended(d, b, r, c);
      }
    }
  }

  lemma HasRest(q: Cached, c: BlockId)
    requires Distinct(q) && q != []
    ensures Has(q[1..], c) <==> Has(q, c) && c != q[0].0
  {
    if Has(q, c) && c != q[0].0 {
      var x :| 0 <= x < |q| && q[x].0 == c;
      assert q[1..][x - 1].0 == c;
    }
  }

  /** Neither a get nor a remove evicts another entry; a get finds what was last put, and makes it newest. */
  lemma OnlyPutsEvict(ops: seq<CacheOp>, max: nat, b: BlockId, c: BlockId)
    ensures var q := CacheAfter(ops, max);
            && (Has(CacheAfter(ops + [RemoveOp(b)], max), c) <==> c != b && Has(q, c))
            && (Has(CacheAfter(ops + [GetOp(b)], max), c) <==> Has(q, c))
            && (Lookup(q, b).Some? <==> Has(q, b))
            && (Lookup(q, b).Some? ==> Lookup(q, b) == LastPut(ops, b))
  {
    var q := CacheAfter(ops, max);
    EntriesAreByLastUse(ops, max);
    assert (ops + [RemoveOp(b)])[..|ops|] == ops && (ops + [GetOp(b)])[..|ops|] == ops;
    assert CacheAfter(ops + [RemoveOp(b)], max) == Dropped(q, b) && CacheAfter(ops + [GetOp(b)], max) == Touched(q, b);
    hide CacheAfter, LastUse, LastPut;
    HasAfterDrop(q, b, c);
    LookupIs(q, b);
    if Lookup(q, b).Some? {
      HasAppended(Dropped(q, b), b, Lookup(q, b).value, c);
    }
  }

  lemma PutIsNewest(q: Cached, b: BlockId, r: Row, max: nat)
    requires |q| <= max && max > 0
    ensures var q' := Put(q, b, r, max); q' != [] && q'[|q'| - 1] == (b, r)
  {
    DroppedLength(q, b);
  }

  /** A live row that has just been read is the newest entry of the engine's cache. */
  lemma ReadRowIsNewest(m: Memory, b: BlockId)
    requires Coherent(m) && m.max > 0
    ensures var r := AfterRead(m, b).cache;
            if b in m.rows && m.rows[b].Live? then r != [] && r[|r| - 1] == (b, m.rows[b]) else r == m.cache
  {
    ReadIsCoherent(m, b);
    hide Dropped, Put, Lookup;
    if LiveRow(m.rows, b).Some? {
      PutIsNewest(m.cache, b, m.rows[b], m.max);
    }
  }

  /** So is one that has just been written; a deleted block is forgotten and every other entry found as before. */
  lemma WrittenRowIsNewest(m: Memory, b: BlockId, version: int, data: string)
    requires Coherent(m) && m.max > 0
    ensures var w := Store(m, Write(b, version, data));
            b in w.rows && if w.rows[b].Live? then w.cache != [] && w.cache[|w.cache| - 1] == (b, w.rows[b]) else w.cache == m.cache
    ensures var d := Store(m, Delete(b, version));
            Lookup(d.cache, b) == None && forall c | c != b :: Lookup(d.cache, c) == Lookup(m.cache, c)
  {
    hide Dropped, Put, Lookup;
    var rows := Apply(m.rows, Write(b, version, data));
    PutIsNewest(m.cache, b, rows[b], m.max);
    forall c
      ensures Lookup(Dropped(m.cache, b), c) == if c == b then None else Lookup(m.cache, c)
    {
      DroppedForgets(m.cache, b, c);
    }
  }
}
