/** The blocks table of one node and the requests that change it (node/extent_store.py,
    node/storage_engine.py, node/validation.py).  The two guarded upserts are a join on the key
    (version, deleted); crash recovery, convergence and quorum freshness all rest on that. */
module BlockRows {
  import opened Metadata

  /** A tombstone has no data. */
  datatype Row = Live(version: int, data: string) | Tombstone(version: int)

  type Table = map<BlockId, Row>

  /** One logged operation, without its lsn. */
  datatype Change = Write(block: BlockId, version: int, data: string) | Delete(block: BlockId, version: int)

  // ----- the two SQL guards -----

  function SaveIfNewer(t: Table, b: BlockId, version: int, data: string): Table {
    if b !in t || version > t[b].version then t[b := Live(version, data)] else t
  }

  function TombstoneIfNewer(t: Table, b: BlockId, version: int): Table {
    if b !in t || version > t[b].version || (version == t[b].version && t[b].Live?) then t[b := Tombstone(version)] else t
  }

  function Apply(t: Table, c: Change): Table {
    match c
    case Write(b, version, data) => SaveIfNewer(t, b, version, data)
    case Delete(b, version) => TombstoneIfNewer(t, b, version)
  }

  function ApplyAll(t: Table, cs: seq<Change>): Table {
    if cs == [] then t else Apply(ApplyAll(t, cs[..|cs| - 1]), cs[|cs| - 1])
  }

  lemma ApplyAllSnoc(t: Table, cs: seq<Change>, c: Change)
    ensures ApplyAll(t, cs + [c]) == Apply(ApplyAll(t, cs), c)
  {
    assert (cs + [c])[..|cs|] == cs;
  }

  // ----- the join -----

  /** A version together with the tombstone flag, ordered by version and then live below deleted. */
  datatype Key = Key(version: int, deleted: bool)

  predicate Below(a: Key, b: Key) {
    a.version < b.version || (a.version == b.version && (a.deleted ==> b.deleted))
  }

  function KeyOf(r: Row): Key {
    Key(r.version, r.Tombstone?)
  }

  function ChangeKey(c: Change): Key {
    Key(c.version, c.Delete?)
  }

  /** The row has reached this key; no row is below every key. */
  predicate Reached(t: Table, b: BlockId, k: Key) {
    b in t && Below(k, KeyOf(t[b]))
  }

  predicate Absorbed(t: Table, c: Change) {
    Reached(t, c.block, ChangeKey(c))
  }

  /** Both guards at once: a change raises the row's key to at least its own, changes nothing
      exactly when the key was already reached, and touches no other block. */
  lemma ApplyIsJoin(t: Table, c: Change)
    ensures Absorbed(Apply(t, c), c)
    ensures Apply(t, c) == t <==> Absorbed(t, c)
    ensures !Absorbed(t, c) ==> KeyOf(Apply(t, c)[c.block]) == ChangeKey(c)
    ensures forall b, k | Reached(t, b, k) :: Reached(Apply(t, c), b, k)
    ensures forall b | b != c.block :: (b in Apply(t, c) <==> b in t) && (b in t ==> Apply(t, c)[b] == t[b])
  {
    if !Absorbed(t, c) {
      assert c.block !in t || Apply(t, c)[c.block] != t[c.block];
    }
  }

  /** A row's final key is the largest of its first key and the keys of the changes to it. */
  lemma {:induction false} FinalKeyIsLargest(t: Table, cs: seq<Change>, b: BlockId, k: Key)
    ensures Reached(ApplyAll(t, cs), b, k) <==>
              Reached(t, b, k) || exists c :: c in cs && c.block == b && Below(k, ChangeKey(c))
  {
    if cs != [] {
      var before, last := cs[..|cs| - 1], cs[|cs| - 1];
      FinalKeyIsLargest(t, before, b, k);
      ApplyIsJoin(ApplyAll(t, before), last);
      assert cs == before + [last];
      if last.block == b && Below(k, ChangeKey(last)) {
        assert Reached(ApplyAll(t, cs), b, k);
      } else if Reached(ApplyAll(t, cs), b, k) && last.block == b && !Absorbed(ApplyAll(t, before), last) {
        assert false;
      }
    }
  }

  // ----- requests -----

  const MAX_BLOCK_ID_LEN := 256
  const MAX_DATA_BYTES := 1_048_576

  function Utf8Size(s: string): nat {
    if s == "" then 0
    else Utf8Size(s[..|s| - 1]) +
         var c := s[|s| - 1] as int;
         if c < 0x80 then 1 else if c < 0x800 then 2 else if c < 0x10000 then 3 else 4
  }

  /** The places of s that hold a character past this code. */
  ghost function PlacesFrom(s: string, code: int): set<int> {
    set x | 0 <= x < |s| && s[x] as int >= code
  }

  /** A character takes one byte, and one more from each of these codes on. */
  lemma {:induction false} Utf8SizeIs(s: string)
    ensures Utf8Size(s) == |s| + |PlacesFrom(s, 0x80)| + |PlacesFrom(s, 0x800)| + |PlacesFrom(s, 0x10000)|
  {
    if s == "" {
      assert PlacesFrom(s, 0x80) == {} && PlacesFrom(s, 0x800) == {} && PlacesFrom(s, 0x10000) == {};
    } else {
      Utf8SizeIs(s[..|s| - 1]);
      OneMorePlace(s, 0x80);
      OneMorePlace(s, 0x800);
      OneMorePlace(s, 0x10000);
    }
  }

  lemma OneMorePlace(s: string, code: int)
    requires s != ""
    ensures |PlacesFrom(s, code)| == |PlacesFrom(s[..|s| - 1], code)| + if s[|s| - 1] as int >= code then 1 else 0
  {
    var n := |s| - 1;
    assert PlacesFrom(s, code) == PlacesFrom(s[..n], code) + if s[n] as int >= code then {n} else {};
  }

  predicate ValidBlockId(b: BlockId) {
    b != "" && |b| <= MAX_BLOCK_ID_LEN
  }

  predicate ValidWrite(b: BlockId, data: string, version: Option<int>) {
    ValidBlockId(b) && Utf8Size(data) <= MAX_DATA_BYTES && (version.Some? ==> version.value >= 1)
  }

  /** The ways write_local and delete_local are called: by a client, and with allow_idempotent
      by the replication endpoints and a restore, which pass a version. */
  datatype Request =
    | LocalWrite(block: BlockId, data: string, requested: Option<int>)
    | LocalDelete(block: BlockId, requested: Option<int>)
    | ReplicaWrite(block: BlockId, data: string, version: int)
    | ReplicaDelete(block: BlockId, requested: Option<int>)

  datatype Decision =
    | Invalid
    | Conflict(current: int)
    | AlreadyThere(current: int)
    | Log(change: Change)

  function CurrentVersion(t: Table, b: BlockId): int {
    if b in t then t[b].version else 0
  }

  function DeleteVersion(t: Table, b: BlockId, requested: Option<int>): int {
    if requested.Some? then requested.value else CurrentVersion(t, b) + 1
  }

  /** What the request does before it reaches the log. */
  function Decide(t: Table, r: Request): Decision {
    match r
    case LocalWrite(b, data, requested) =>
      if !ValidWrite(b, data, requested) then Invalid
      else if requested == None then Log(Write(b, CurrentVersion(t, b) + 1, data))
      else if requested.value <= CurrentVersion(t, b) then Conflict(CurrentVersion(t, b))
      else Log(Write(b, requested.value, data))
    case LocalDelete(b, requested) =>
      if !ValidBlockId(b) then Invalid
      else Log(Delete(b, DeleteVersion(t, b, requested)))
    case ReplicaWrite(b, data, version) =>
      if b in t && t[b].Live? && t[b].version > version then Conflict(t[b].version)
      else if b in t && t[b].Live? && t[b].version == version then AlreadyThere(version)
      else Log(Write(b, version, data))
    case ReplicaDelete(b, requested) =>
      if requested.Some? && b in t && t[b].version > requested.value then Conflict(t[b].version)
      else if requested.Some? && b in t && t[b].version >= requested.value && t[b].Tombstone? then AlreadyThere(t[b].version)
      else Log(Delete(b, DeleteVersion(t, b, requested)))
  }

  function Perform(t: Table, r: Request): Table {
    var d := Decide(t, r);
    if d.Log? then Apply(t, d.change) else t
  }

  predicate Accepted(t: Table, r: Request) {
    Decide(t, r).Log? || Decide(t, r).AlreadyThere?
  }

  /** A client's write is accepted only as the block's newest version, is then what a read
      returns, and never collides with the version of a tombstone. */
  lemma LocalWriteWins(t: Table, b: BlockId, data: string, requested: Option<int>)
    ensures var r := LocalWrite(b, data, requested);
            && (Accepted(t, r) <==> ValidWrite(b, data, requested) && (requested.Some? ==> requested.value > CurrentVersion(t, b)))
            && (Accepted(t, r) ==>
                  && b in Perform(t, r)
                  && Perform(t, r)[b].Live? && Perform(t, r)[b].data == data
                  && Perform(t, r)[b].version > CurrentVersion(t, b)
                  && (requested.Some? ==> Perform(t, r)[b].version == requested.value))
  {
  }

  /** A delete without a version leaves a tombstone one version up, idempotent or not. */
  lemma LocalDeleteWins(t: Table, b: BlockId, r: Request)
    requires r == ReplicaDelete(b, None) || (r == LocalDelete(b, None) && ValidBlockId(b))
    ensures Accepted(t, r) && b in Perform(t, r) && Perform(t, r)[b] == Tombstone(CurrentVersion(t, b) + 1)
  {
  }

  /** Every answer to a request in terms of the row.  A client is refused an invalid request or a version
      not above the row's; a replica a change its row is past, unless it writes to a tombstone, and
      its row counts as there already if it is the same kind at the same version.  Anything else
      is logged at the version asked for or, without one, at the next. */
  lemma DecisionIs(t: Table, r: Request)
    ensures var b, d := r.block, Decide(t, r);
            var have := if b in t then t[b].version else 0;
            var isWrite := r.LocalWrite? || r.ReplicaWrite?;
            var asked := if r.ReplicaWrite? then Some(r.version) else r.requested;
            && (d.Invalid? <==>
                  && (r.LocalWrite? || r.LocalDelete?)
                  && (|b| == 0 || |b| > 256
                      || (r.LocalWrite? && (Utf8Size(r.data) > 1024 * 1024 || (asked.Some? && asked.value < 1)))))
            && (d.Conflict? <==>
                  && !d.Invalid? && !r.LocalDelete? && asked.Some? && b in t
                  && (if r.LocalWrite? then have >= asked.value else have > asked.value && (r.ReplicaWrite? ==> t[b].Live?)))
            && (d.AlreadyThere? <==>
                  (r.ReplicaWrite? || r.ReplicaDelete?) && asked.Some? && b in t && have == asked.value && t[b].Live? == r.ReplicaWrite?)
            && (d.Conflict? || d.AlreadyThere? ==> d.current == have)
            && (d.Log? ==>
                  && d.change.block == b && d.change.Write? == isWrite
                  && d.change.version == (if asked.Some? then asked.value else have + 1)
                  && (isWrite ==> d.change.data == r.data))
  {
  }

  // ----- replica convergence -----

  function Message(c: Change): Request {
    match c
    case Write(b, version, data) => ReplicaWrite(b, data, version)
    case Delete(b, version) => ReplicaDelete(b, Some(version))
  }

  /** Whichever branch a replication endpoint takes, its effect on the table is the guarded
      upsert; it refuses only what the row is already strictly past, and what it accepts the
      row has reached. */
  lemma ReceiveIsJoin(t: Table, c: Change)
    ensures Perform(t, Message(c)) == Apply(t, c)
    ensures Accepted(t, Message(c)) || (c.block in t && t[c.block].version > c.version)
    ensures Accepted(t, Message(c)) ==> Absorbed(Perform(t, Message(c)), c)
  {
    ApplyIsJoin(t, c);
  }

  function Received(t: Table, cs: seq<Change>): Table {
    if cs == [] then t else Perform(Received(t, cs[..|cs| - 1]), Message(cs[|cs| - 1]))
  }

  lemma {:induction false} ReceivedIsApplied(t: Table, cs: seq<Change>)
    ensures Received(t, cs) == ApplyAll(t, cs)
  {
    if cs != [] {
      ReceivedIsApplied(t, cs[..|cs| - 1]);
      ReceiveIsJoin(ApplyAll(t, cs[..|cs| - 1]), cs[|cs| - 1]);
    }
  }

  ghost predicate SameMessages(ms: seq<Change>, ns: seq<Change>) {
    forall c :: c in ms <==> c in ns
  }

  /** Two nodes that start alike and receive the same set of messages, in any orders and with
      any repetitions, end with the same version and deleted flag for every block. */
  lemma ReplicasConverge(t: Table, ms: seq<Change>, ns: seq<Change>, b: BlockId)
    requires SameMessages(ms, ns)
    ensures b in Received(t, ms) <==> b in Received(t, ns)
    ensures b in Received(t, ms) ==> KeyOf(Received(t, ms)[b]) == KeyOf(Received(t, ns)[b])
  {
    if b in Received(t, ms) {
      SameReach(t, ms, ns, b);
    }
    if b in Received(t, ns) {
      SameReach(t, ns, ms, b);
    }
  }

  lemma SameReach(t: Table, ms: seq<Change>, ns: seq<Change>, b: BlockId)
    requires SameMessages(ms, ns)
    requires b in Received(t, ms)
    ensures Reached(Received(t, ns), b, KeyOf(Received(t, ms)[b]))
  {
    ReceivedIsApplied(t, ms);
    ReceivedIsApplied(t, ns);
    var k := KeyOf(Received(t, ms)[b]);
    FinalKeyIsLargest(t, ms, b, k);
    FinalKeyIsLargest(t, ns, b, k);
    assert Reached(Received(t, ms), b, k);
  }

  /** Two writes that would both win their block's row, with different data: neither is
      reached at the start and no message goes past them. */
  ghost predicate Rivals(t: Table, ms: seq<Change>, x: Change, y: Change) {
    && x in ms && y in ms && x.Write? && y.Write?
    && x.block == y.block && x.version == y.version && x.data != y.data
    && !Absorbed(t, x)
    && forall c | c in ms && c.block == x.block :: Below(ChangeKey(c), ChangeKey(x))
  }

  /** A live row is the one at the start or that of a write among the changes that was not yet
      reached. */
  lemma {:induction false} LiveRowComesFrom(t: Table, cs: seq<Change>, b: BlockId)
    ensures var t' := ApplyAll(t, cs);
            b in t' && t'[b].Live? ==>
              || (b in t && t'[b] == t[b])
              || (Write(b, t'[b].version, t'[b].data) in cs && !Reached(t, b, KeyOf(t'[b])))
  {
    if cs != [] {
      var before, last := ApplyAll(t, cs[..|cs| - 1]), cs[|cs| - 1];
      LiveRowComesFrom(t, cs[..|cs| - 1], b);
      assert cs == cs[..|cs| - 1] + [last];
      ApplyIsJoin(before, last);
      if last.block == b && !Absorbed(before, last) {
        FinalKeyIsLargest(t, cs[..|cs| - 1], b, ChangeKey(last));
      }
    }
  }

  lemma DifferentRowsAreRivals(t: Table, ms: seq<Change>, ns: seq<Change>, b: BlockId) returns (x: Change, y: Change)
    requires SameMessages(ms, ns)
    requires b in ApplyAll(t, ms) && b in ApplyAll(t, ns)
    requires KeyOf(ApplyAll(t, ms)[b]) == KeyOf(ApplyAll(t, ns)[b]) && ApplyAll(t, ms)[b] != ApplyAll(t, ns)[b]
    ensures Rivals(t, ms, x, y)
  {
    LiveRowComesFrom(t, ms, b);
    LiveRowComesFrom(t, ns, b);
    var p, q := ApplyAll(t, ms)[b], ApplyAll(t, ns)[b];
    hide ApplyAll;
    x, y := Write(b, p.version, p.data), Write(b, q.version, q.data);
    forall c | c in ms && c.block == b
      ensures Below(ChangeKey(c), ChangeKey(x))
    {
      FinalKeyIsLargest(t, ms, b, ChangeKey(c));
    }
  }

  lemma {:induction false} FirstOf(t: Table, x: Change, cs: seq<Change>)
    ensures ApplyAll(t, [x] + cs) == ApplyAll(Apply(t, x), cs)
  {
    var all := [x] + cs;
    if cs == [] {
      assert all[..|all| - 1] == [];
    } else {
      FirstOf(t, x, cs[..|cs| - 1]);
      assert all[..|all| - 1] == [x] + cs[..|cs| - 1];
    }
  }

  /** The first copy of the winning version to arrive stays. */
  lemma {:induction false} WinnerStays(t: Table, b: BlockId, cs: seq<Change>)
    requires b in t && forall c | c in cs && c.block == b :: Below(ChangeKey(c), KeyOf(t[b]))
    ensures b in ApplyAll(t, cs) && ApplyAll(t, cs)[b] == t[b]
  {
    if cs != [] {
      assert cs == cs[..|cs| - 1] + [cs[|cs| - 1]];
      WinnerStays(t, b, cs[..|cs| - 1]);
      ApplyIsJoin(ApplyAll(t, cs[..|cs| - 1]), cs[|cs| - 1]);
    }
  }

  lemma RivalFirst(t: Table, ms: seq<Change>, x: Change, y: Change)
    requires Rivals(t, ms, x, y) || Rivals(t, ms, y, x)
    ensures SameMessages(ms, [x] + ms)
    ensures x.block in Received(t, [x] + ms) && Received(t, [x] + ms)[x.block] == Live(x.version, x.data)
  {
    ReceivedIsApplied(t, [x] + ms);
    FirstOf(t, x, ms);
    ApplyIsJoin(t, x);
    WinnerStays(Apply(t, x), x.block, ms);
  }

  lemma ConvergeUnlessRivals(t: Table, ms: seq<Change>, ns: seq<Change>)
    requires SameMessages(ms, ns) && forall x, y :: !Rivals(t, ms, x, y)
    ensures Received(t, ns) == Received(t, ms)
  {
    ReceivedIsApplied(t, ms);
    ReceivedIsApplied(t, ns);
    hide Rivals, Received, ApplyAll, SameMessages;
    forall b
      ensures b in Received(t, ms) <==> b in Received(t, ns)
      ensures b in Received(t, ms) ==> Received(t, ms)[b] == Received(t, ns)[b]
    {
      ReplicasConverge(t, ms, ns, b);
      if b in Received(t, ms) && Received(t, ms)[b] != Received(t, ns)[b] {
        var x, y := DifferentRowsAreRivals(t, ms, ns, b);
      }
    }
  }

  /** Every order and repetition of a set of messages leaves the same table exactly if no two
      of them are rivals. */
  lemma ReplicasConvergeOnDataIff(t: Table, ms: seq<Change>)
    ensures (forall ns | SameMessages(ms, ns) :: Received(t, ns) == Received(t, ms)) <==> forall x, y :: !Rivals(t, ms, x, y)
  {
    hide Received, SameMessages;
    if forall x, y :: !Rivals(t, ms, x, y) {
      forall ns | SameMessages(ms, ns)
        ensures Received(t, ns) == Received(t, ms)
      {
        ConvergeUnlessRivals(t, ms, ns);
      }
    } else {
      var x, y :| Rivals(t, ms, x, y);
      RivalFirst(t, ms, x, y);
      RivalFirst(t, ms, y, x);
      assert Received(t, [x] + ms) != Received(t, [y] + ms);
    }
  }
}
