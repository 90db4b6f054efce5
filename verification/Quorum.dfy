/** Quorum arithmetic, latest-wins selection, and what a quorum read may return
    (node/quorum.py, node/version_reconciliation.py, node/replication_service.py,
    node/read_coordinator.py). */
module Quorum {
  import opened Metadata
  import R = BlockRows
  import C = BlockCache

  datatype Level = One | Majority | All

  function CalculateQuorum(rf: nat): nat {
    rf / 2 + 1
  }

  /** required_acks and required_reads are the same function of the replication factor. */
  function Required(rf: nat, level: Level): nat {
    match level
    case One => 1
    case All => rf
    case Majority => CalculateQuorum(rf)
  }

  /** Said without a formula: one answer, more than half the replicas, or all of them. */
  predicate Enough(answers: nat, rf: nat, level: Level) {
    match level
    case One => answers >= 1
    case Majority => 2 * answers > rf
    case All => answers >= rf
  }

  /** The number required is the least that is enough; a quorum is the least size that any two sets of
      share a replica. */
  lemma RequiredIsLeast(rf: nat, level: Level, q: nat)
    requires rf >= 1
    ensures Enough(q, rf, level) <==> q >= Required(rf, level)
    ensures q + q > rf <==> q >= Required(rf, Majority)
  {
    assert rf == rf / 2 * 2 + rf % 2;
  }

  /** Exactly the pairs of levels whose write and read sets must meet. */
  lemma LevelsOverlapIff(rf: nat, w: Level, r: Level)
    requires rf >= 1
    ensures Required(rf, w) + Required(rf, r) > rf <==>
              || (w != One && r != One)
              || w == All || r == All
              || rf == 1
              || (rf == 2 && (w == Majority || r == Majority))
  {
  }

  // ----- version_reconciliation.py -----

  datatype ReplicaCopy = ReplicaCopy(node: NodeId, block: BlockId, data: string, version: int, lsn: int, timestamp: int, deleted: bool)

  function CompareCopies(a: ReplicaCopy, b: ReplicaCopy): int {
    if a.version != b.version then a.version - b.version
    else if a.lsn != b.lsn then a.lsn - b.lsn
    else a.timestamp - b.timestamp
  }

  /** Version first, then the log position at the origin, then the time. */
  predicate Newer(a: ReplicaCopy, b: ReplicaCopy) {
    || a.version > b.version
    || (a.version == b.version && a.lsn > b.lsn)
    || (a.version == b.version && a.lsn == b.lsn && a.timestamp > b.timestamp)
  }

  lemma ComparisonIsLexicographic(a: ReplicaCopy, b: ReplicaCopy)
    ensures CompareCopies(a, b) > 0 <==> Newer(a, b)
    ensures CompareCopies(a, b) < 0 <==> Newer(b, a)
  {
    assert CompareCopies(a, b) == 0 ==> !Newer(a, b) && !Newer(b, a);
  }

  /** The first copy that no other is newer than. */
  ghost predicate IsLatest(copies: seq<ReplicaCopy>, c: ReplicaCopy) {
    exists x :: 0 <= x < |copies| && copies[x] == c
      && (forall y | 0 <= y < |copies| :: CompareCopies(copies[y], c) <= 0)
      && (forall y | 0 <= y < x :: CompareCopies(copies[y], c) < 0)
  }

  method SelectLatest(copies: seq<ReplicaCopy>) returns (r: Option<ReplicaCopy>)
    ensures r.Some? <==> copies != []
    ensures r.Some? ==> IsLatest(copies, r.value)
    ensures r.Some? ==> r.value in copies && forall c | c in copies :: !Newer(c, r.value)
  {
    if copies == [] {
      return None;
    }
    var latest := copies[0];
    ghost var at := 0;
    var k := 1;
    while k < |copies|
      invariant 1 <= k <= |copies|
      invariant 0 <= at < k && copies[at] == latest
      invariant forall y | 0 <= y < k :: CompareCopies(copies[y], latest) <= 0
      invariant forall y | 0 <= y < at :: CompareCopies(copies[y], latest) < 0
    {
      if CompareCopies(copies[k], latest) > 0 {
        latest := copies[k];
        at := k;
      }
      k := k + 1;
    }
    forall c | c in copies
      ensures !Newer(c, latest)
    {
      ComparisonIsLexicographic(c, latest);
    }
    return Some(latest);
  }

  lemma LatestIsUnique(copies: seq<ReplicaCopy>, a: ReplicaCopy, b: ReplicaCopy)
    requires IsLatest(copies, a) && IsLatest(copies, b)
    ensures a == b
  {
    var x :| 0 <= x < |copies| && copies[x] == a
      && (forall y | 0 <= y < |copies| :: CompareCopies(copies[y], a) <= 0)
      && (forall y | 0 <= y < x :: CompareCopies(copies[y], a) < 0);
    var z :| 0 <= z < |copies| && copies[z] == b
      && (forall y | 0 <= y < |copies| :: CompareCopies(copies[y], b) <= 0)
      && (forall y | 0 <= y < z :: CompareCopies(copies[y], b) < 0);
  }

  function FindStale(copies: seq<ReplicaCopy>, latest: ReplicaCopy): seq<ReplicaCopy> {
    if copies == [] then []
    else (if CompareCopies(copies[0], latest) < 0 then [copies[0]] else []) + FindStale(copies[1..], latest)
  }

  /** Every copy is either sent a repair or already as new as the one returned. */
  lemma {:induction false} StaleOrLatest(copies: seq<ReplicaCopy>, latest: ReplicaCopy, c: ReplicaCopy)
    ensures c in FindStale(copies, latest) <==> c in copies && CompareCopies(c, latest) < 0
  {
    if copies != [] {
      StaleOrLatest(copies[1..], latest, c);
      assert copies == [copies[0]] + copies[1..];
    }
  }

  /** `at` lists, in order, the places of q that hold what r holds. */
  ghost predicate Places(q: seq<ReplicaCopy>, r: seq<ReplicaCopy>, at: seq<nat>) {
    && |at| == |r|
    && (forall x, y | 0 <= x < y < |at| :: at[x] < at[y])
    && forall x | 0 <= x < |at| :: at[x] < |q| && r[x] == q[at[x]]
  }

  lemma PlacesShift(q: seq<ReplicaCopy>, r: seq<ReplicaCopy>, at: seq<nat>, first: bool) returns (at': seq<nat>)
    requires q != [] && Places(q[1..], r, at)
    ensures Places(q, (if first then [q[0]] else []) + r, at')
    ensures forall x: nat :: x in at' <==> (x == 0 && first) || (x > 0 && x - 1 in at)
  {
    at' := OneOn(q, r, at);
    hide Places;
    if first {
      FirstToo(q, r, at');
      at' := [0] + at';
    } else {
      assert [] + r == r;
    }
  }

  lemma OneOn(q: seq<ReplicaCopy>, r: seq<ReplicaCopy>, at: seq<nat>) returns (at': seq<nat>)
    requires q != [] && Places(q[1..], r, at)
    ensures Places(q, r, at') && 0 !in at'
    ensures forall x: nat :: x in at' <==> x > 0 && x - 1 in at
  {
    at' := seq(|at|, x requires 0 <= x < |at| => at[x] + 1);
    forall x: nat
      ensures x in at' <==> x > 0 && x - 1 in at
    {
      if x > 0 && x - 1 in at {
        var y :| 0 <= y < |at| && at[y] == x - 1;
        assert at'[y] == x;
      }
    }
  }

  lemma FirstToo(q: seq<ReplicaCopy>, r: seq<ReplicaCopy>, at: seq<nat>)
    requires q != [] && Places(q, r, at) && 0 !in at
    ensures Places(q, [q[0]] + r, [0] + at)
    ensures forall x: nat :: x in [0] + at <==> x == 0 || x in at
  {
    forall y | 0 <= y < |at|
      ensures at[y] > 0
    {
      assert at[y] in at;
    }
  }

  /** The copies to repair are exactly the older ones, in the order they came in, as often as they did. */
  lemma {:induction false} StalePlaces(copies: seq<ReplicaCopy>, latest: ReplicaCopy) returns (at: seq<nat>)
    ensures Places(copies, FindStale(copies, latest), at)
    ensures forall x: nat :: x in at <==> x < |copies| && Newer(latest, copies[x])
  {
    at := [];
    if copies != [] {
      ComparisonIsLexicographic(copies[0], latest);
      var later := StalePlaces(copies[1..], latest);
      at := PlacesShift(copies, FindStale(copies[1..], latest), later, Newer(latest, copies[0]));
      forall x: nat
        ensures x in at <==> x < |copies| && Newer(latest, copies[x])
      {
        if x > 0 {
          assert x - 1 in later <==> x - 1 < |copies[1..]| && Newer(latest, copies[1..][x - 1]);
        }
      }
    }
  }

  // ----- replicas over time -----

  type Replicas = map<NodeId, R.Table>

  /** One request served by one node: a client's, a replication message, a retry, a hint or a
      read repair.  A crash and restart changes no rows (module CrashRecovery). */
  datatype Served = Served(node: NodeId, request: R.Request)

  ghost predicate Run(states: seq<Replicas>, steps: seq<Served>) {
    && |states| == |steps| + 1
    && forall k | 0 <= k < |steps| ::
         && steps[k].node in states[k]
         && states[k + 1] == states[k][steps[k].node := R.Perform(states[k][steps[k].node], steps[k].request)]
  }

  lemma PerformKeepsReached(t: R.Table, r: R.Request, b: BlockId, k: R.Key)
    requires R.Reached(t, b, k)
    ensures R.Reached(R.Perform(t, r), b, k)
  {
    if R.Decide(t, r).Log? {
      R.ApplyIsJoin(t, R.Decide(t, r).change);
    }
  }

  /** Rows only move up. */
  lemma {:induction false} ReachedForEver(states: seq<Replicas>, steps: seq<Served>, from: nat, upto: nat, n: NodeId, b: BlockId, k: R.Key)
    requires Run(states, steps) && from <= upto < |states|
    requires n in states[from] && R.Reached(states[from][n], b, k)
    ensures n in states[upto] && R.Reached(states[upto][n], b, k)
    decreases upto - from
  {
    if from < upto {
      ReachedForEver(states, steps, from, upto - 1, n, b, k);
      PerformKeepsReached(states[upto - 1][n], steps[upto - 1].request, b, k);
    }
  }

  /** The coordinator's own row after an accepted write or delete, or a replica's after a 200. */
  ghost predicate Acknowledges(states: seq<Replicas>, steps: seq<Served>, m: nat, n: NodeId, c: R.Change)
    requires Run(states, steps)
  {
    && m < |steps| && steps[m].node == n
    && var t := states[m][n];
       var r := steps[m].request;
       || (r == R.Message(c) && R.Accepted(t, r))
       || ((r.LocalWrite? || r.LocalDelete?) && R.Decide(t, r) == R.Log(c))
  }

  lemma AckReaches(states: seq<Replicas>, steps: seq<Served>, m: nat, n: NodeId, c: R.Change)
    requires Run(states, steps) && Acknowledges(states, steps, m, n, c)
    ensures n in states[m + 1] && R.Absorbed(states[m + 1][n], c)
  {
    var t := states[m][n];
    if steps[m].request == R.Message(c) {
      R.ReceiveIsJoin(t, c);
    } else {
      R.ApplyIsJoin(t, c);
    }
  }

  ghost predicate ServedBefore(states: seq<Replicas>, steps: seq<Served>, done: nat, n: NodeId, c: R.Change)
    requires Run(states, steps)
  {
    exists m: nat :: m < done && Acknowledges(states, steps, m, n, c)
  }

  /** A change acknowledged before moment `done` by a set of nodes large enough for its level. */
  ghost predicate AckedBefore(states: seq<Replicas>, steps: seq<Served>, done: nat, locations: seq<NodeId>, level: Level,
                              acks: set<NodeId>, c: R.Change)
    requires Run(states, steps)
  {
    && acks <= Nodes(locations)
    && |acks| >= Required(|locations|, level)
    && forall n | n in acks :: ServedBefore(states, steps, done, n, c)
  }

  function Nodes(locations: seq<NodeId>): set<NodeId> {
    set n | n in locations
  }

  ghost predicate Distinct(locations: seq<NodeId>) {
    forall x, y | 0 <= x < y < |locations| :: locations[x] != locations[y]
  }

  lemma {:induction false} NodesSize(locations: seq<NodeId>)
    requires Distinct(locations)
    ensures |Nodes(locations)| == |locations|
  {
    if locations != [] {
      var rest := locations[1..];
      NodesSize(rest);
      assert locations == [locations[0]] + rest;
      assert Nodes(locations) == {locations[0]} + Nodes(rest);
      assert locations[0] !in rest;
    }
  }

  // ----- read_coordinator.py -----

  /** A copy comes from a live row, at whatever moment its replica answered; a tombstone or a
      missing row is a 404 and yields no copy. */
  ghost predicate ReadAt(states: seq<Replicas>, m: nat, c: ReplicaCopy) {
    && m < |states| && c.node in states[m]
    && C.LiveRow(states[m][c.node], c.block) == Some(R.Live(c.version, c.data))
    && !c.deleted
  }

  /** The copies one read collects, in the order the answers came in: at most one per node of
      the placement, each taken at or after moment `start`. */
  ghost predicate Collected(states: seq<Replicas>, start: nat, locations: seq<NodeId>, b: BlockId, copies: seq<ReplicaCopy>) {
    && (forall x, y | 0 <= x < y < |copies| :: copies[x].node != copies[y].node)
    && forall x | 0 <= x < |copies| ::
         && copies[x].block == b && copies[x].node in locations
         && exists m: nat :: start <= m && ReadAt(states, m, copies[x])
  }

  datatype ReadResult = ReadResult(block: BlockId, data: string, version: int, node: NodeId, quorumSatisfied: bool, copiesRead: nat)

  function Successful(copies: seq<ReplicaCopy>): seq<ReplicaCopy> {
    if copies == [] then []
    else (if copies[0].version > 0 || !copies[0].deleted then [copies[0]] else []) + Successful(copies[1..])
  }

  lemma {:induction false} AllSuccessful(copies: seq<ReplicaCopy>)
    requires forall x | 0 <= x < |copies| :: !copies[x].deleted
    ensures Successful(copies) == copies
  {
    if copies != [] {
      AllSuccessful(copies[1..]);
    }
  }

  /** The copies that count towards a read are exactly those not of a deleted block nobody wrote, in order. */
  lemma {:induction false} SuccessfulPlaces(copies: seq<ReplicaCopy>) returns (at: seq<nat>)
    ensures Places(copies, Successful(copies), at)
    ensures forall x: nat :: x in at <==> x < |copies| && !(copies[x].deleted && copies[x].version <= 0)
  {
    at := [];
    if copies != [] {
      var later := SuccessfulPlaces(copies[1..]);
      at := PlacesShift(copies, Successful(copies[1..]), later, !(copies[0].deleted && copies[0].version <= 0));
      forall x: nat
        ensures x in at <==> x < |copies| && !(copies[x].deleted && copies[x].version <= 0)
      {
        if x > 0 {
          assert x - 1 in later <==> x - 1 < |copies[1..]| && !(copies[1..][x - 1].deleted && copies[1..][x - 1].version <= 0);
        }
      }
    }
  }

  ghost function Sources(copies: seq<ReplicaCopy>): set<NodeId> {
    set x | 0 <= x < |copies| :: copies[x].node
  }

  lemma {:induction false} SourcesSize(copies: seq<ReplicaCopy>)
    requires forall x, y | 0 <= x < y < |copies| :: copies[x].node != copies[y].node
    ensures |Sources(copies)| == |copies|
  {
    if copies != [] {
      var n := |copies| - 1;
      SourcesSize(copies[..n]);
      assert Sources(copies) == Sources(copies[..n]) + {copies[n].node};
      assert copies[n].node !in Sources(copies[..n]);
    }
  }

  lemma SetsMeet(all: set<NodeId>, a: set<NodeId>, b: set<NodeId>) returns (n: NodeId)
    requires a <= all && b <= all && |a| + |b| > |all|
    ensures n in a && n in b
  {
    assert |a + b| <= |all| by {
      assert all == (a + b) + (all - (a + b));
    }
    assert |a + b| == |a| + |b| - |a * b|;
    n :| n in a * b;
  }

  /** A live copy taken after a node absorbed a change is at least as new as the change, and
      strictly newer than a delete. */
  lemma CopyIsFresh(states: seq<Replicas>, steps: seq<Served>, done: nat, m: nat, n: NodeId, c: R.Change, at: nat, copy: ReplicaCopy)
    requires Run(states, steps) && m < done <= at && Acknowledges(states, steps, m, n, c)
    requires ReadAt(states, at, copy) && copy.node == n && copy.block == c.block
    ensures copy.version >= c.version && (c.Delete? ==> copy.version > c.version)
  {
    AckReaches(states, steps, m, n, c);
    ReachedForEver(states, steps, m + 1, at, n, c.block, R.ChangeKey(c));
  }

  /** In any run in which replicas serve any requests in any order, a read whose quorum is
      satisfied returns a version at least that of every write acknowledged before the read
      began, and strictly above every delete acknowledged before it, provided the two levels
      overlap (LevelsOverlapIff) on the same duplicate-free placement. */
  lemma QuorumReadIsFresh(states: seq<Replicas>, steps: seq<Served>, start: nat, locations: seq<NodeId>,
                          writeLevel: Level, readLevel: Level, acks: set<NodeId>, c: R.Change,
                          copies: seq<ReplicaCopy>, latest: ReplicaCopy)
    requires Run(states, steps) && Distinct(locations)
    requires Required(|locations|, writeLevel) + Required(|locations|, readLevel) > |locations|
    requires AckedBefore(states, steps, start, locations, writeLevel, acks, c)
    requires Collected(states, start, locations, c.block, copies)
    requires |Successful(copies)| >= Required(|locations|, readLevel) && IsLatest(Successful(copies), latest)
    ensures latest.version >= c.version
    ensures c.Delete? ==> latest.version > c.version
  {
    hide Required, Acknowledges, ReadAt, Run, Successful, CompareCopies;
    AllCollected(states, start, locations, c.block, copies);
    AllSuccessful(copies);
    NodesSize(locations);
    SourcesSize(copies);
    var n := SetsMeet(Nodes(locations), acks, Sources(copies));
    var x :| 0 <= x < |copies| && copies[x].node == n;
    var m: nat :| m < start && Acknowledges(states, steps, m, n, c);
    var at: nat :| start <= at && ReadAt(states, at, copies[x]);
    CopyIsFresh(states, steps, start, m, n, c, at, copies[x]);
    NotNewer(copies[x], latest);
  }

  lemma AllCollected(states: seq<Replicas>, start: nat, locations: seq<NodeId>, b: BlockId, copies: seq<ReplicaCopy>)
    requires Collected(states, start, locations, b, copies)
    ensures forall x | 0 <= x < |copies| :: !copies[x].deleted
  {
  }

  lemma NotNewer(a: ReplicaCopy, b: ReplicaCopy)
    requires CompareCopies(a, b) <= 0
    ensures a.version <= b.version
  {
  }

  // ----- levels that do not overlap -----

  /** Writes the next version of a block on the first k nodes: a client's write on the first, a
      replication message on each of the others. */
  lemma {:induction false} Spread(states: seq<Replicas>, steps: seq<Served>, locations: seq<NodeId>, k: nat, t: R.Table, b: BlockId, v: int, data: string)
      returns (states': seq<Replicas>, steps': seq<Served>)
    requires Run(states, steps) && Distinct(locations) && k <= |locations|
    requires R.ValidWrite(b, data, None) && R.CurrentVersion(t, b) == v - 1
    requires forall n | n in locations :: n in states[|steps|] && states[|steps|][n] == t
    ensures Run(states', steps') && |steps'| == |steps| + k && states <= states' && steps <= steps'
    ensures forall j | 0 <= j < |locations| :: locations[j] in states'[|steps'|]
              && states'[|steps'|][locations[j]] == if j < k then t[b := R.Live(v, data)] else t
    ensures forall j | 0 <= j < k :: Acknowledges(states', steps', |steps| + j, locations[j], R.Write(b, v, data))
  {
    if k == 0 {
      states', steps' := states, steps;
    } else {
      var before, done := Spread(states, steps, locations, k - 1, t, b, v, data);
      hide R.ValidWrite;
      var n := locations[k - 1];
      var r := if k == 1 then R.LocalWrite(b, data, None) else R.ReplicaWrite(b, data, v);
      OneWrite(t, b, v, data);
      var last := before[|done|];
      states', steps' := before + [last[n := R.Perform(last[n], r)]], done + [Served(n, r)];
      assert Run(states', steps');
      forall j | 0 <= j < k
        ensures Acknowledges(states', steps', |steps| + j, locations[j], R.Write(b, v, data))
      {
        if j < k - 1 {
          assert Acknowledges(before, done, |steps| + j, locations[j], R.Write(b, v, data));
        }
      }
    }
  }

  lemma OneWrite(t: R.Table, b: BlockId, v: int, data: string)
    requires R.ValidWrite(b, data, None) && R.CurrentVersion(t, b) == v - 1
    ensures R.Decide(t, R.LocalWrite(b, data, None)) == R.Log(R.Write(b, v, data))
    ensures R.Decide(t, R.ReplicaWrite(b, data, v)) == R.Log(R.Write(b, v, data))
    ensures R.Apply(t, R.Write(b, v, data)) == t[b := R.Live(v, data)]
  {
  }

  /** A satisfied read that starts after a change was acknowledged and still misses it. */
  ghost predicate StaleRead(states: seq<Replicas>, steps: seq<Served>, start: nat, locations: seq<NodeId>,
                            writeLevel: Level, readLevel: Level, acks: set<NodeId>, c: R.Change,
                            copies: seq<ReplicaCopy>, latest: ReplicaCopy)
  {
    && Run(states, steps)
    && AckedBefore(states, steps, start, locations, writeLevel, acks, c)
    && Collected(states, start, locations, c.block, copies)
    && |Successful(copies)| >= Required(|locations|, readLevel) && IsLatest(Successful(copies), latest)
    && (latest.version < c.version || (c.Delete? && latest.version == c.version))
  }

  function OldCopies(nodes: seq<NodeId>, b: BlockId, data: string): seq<ReplicaCopy> {
    seq(|nodes|, j requires 0 <= j < |nodes| => ReplicaCopy(nodes[j], b, data, 1, 0, 0, false))
  }

  lemma OldCopiesAreLatest(nodes: seq<NodeId>, b: BlockId, data: string)
    requires nodes != []
    ensures var copies := OldCopies(nodes, b, data);
            Successful(copies) == copies && IsLatest(copies, copies[0])
  {
    AllSuccessful(OldCopies(nodes, b, data));
  }

  /** Two versions of a block, the second on only so many nodes as its level asks for, and a
      read from only so many of the others. */
  lemma StaleRun(locations: seq<NodeId>, writeLevel: Level, readLevel: Level, b: BlockId, x: string, y: string)
      returns (states: seq<Replicas>, steps: seq<Served>, copies: seq<ReplicaCopy>)
    requires Distinct(locations) && locations != []
    requires Required(|locations|, writeLevel) + Required(|locations|, readLevel) <= |locations|
    requires R.ValidWrite(b, x, None) && R.ValidWrite(b, y, None)
    ensures Run(states, steps) && forall n | n in states[0] :: states[0][n] == map[]
    ensures copies != [] && copies[0].version == 1 && copies[0].data == x
    ensures StaleRead(states, steps, |steps|, locations, writeLevel, readLevel,
                      Nodes(locations[..Required(|locations|, writeLevel)]), R.Write(b, 2, y), copies, copies[0])
  {
    hide Required, R.ValidWrite, Acknowledges, Collected, AckedBefore, Successful, IsLatest;
    var w, r := Required(|locations|, writeLevel), Required(|locations|, readLevel);
    RequiredIsPositive(|locations|, readLevel);
    var first: Replicas := map p | p in locations :: map[];
    var one := map[b := R.Live(1, x)];
    states, steps := Spread([first], [], locations, |locations|, map[], b, 1, x);
    assert forall p | p in locations :: p in states[|steps|] && states[|steps|][p] == one;
    states, steps := Spread(states, steps, locations, w, one, b, 2, y);
    hide Run;
    Acknowledged(states, steps, |locations|, locations, w, writeLevel, R.Write(b, 2, y));
    copies := OldCopies(locations[|locations| - r..], b, x);
    OldCopiesAreLatest(locations[|locations| - r..], b, x);
    OldRead(states, |steps|, locations, r, b, x);
  }

  lemma RequiredIsPositive(rf: nat, level: Level)
    requires rf >= 1
    ensures Required(rf, level) >= 1
  {
  }

  /** The last r nodes still hold the first version. */
  lemma OldRead(states: seq<Replicas>, m: nat, locations: seq<NodeId>, r: nat, b: BlockId, x: string)
    requires Distinct(locations) && r <= |locations| && m < |states|
    requires forall j | |locations| - r <= j < |locations| :: locations[j] in states[m] && states[m][locations[j]] == map[b := R.Live(1, x)]
    ensures Collected(states, m, locations, b, OldCopies(locations[|locations| - r..], b, x))
  {
    var copies := OldCopies(locations[|locations| - r..], b, x);
    forall j | 0 <= j < |copies|
      ensures copies[j].node in locations && ReadAt(states, m, copies[j])
    {
      assert copies[j].node == locations[|locations| - r + j];
    }
  }

  lemma Acknowledged(states: seq<Replicas>, steps: seq<Served>, from: nat, locations: seq<NodeId>, w: nat, level: Level, c: R.Change)
    requires Run(states, steps) && |steps| == from + w && Distinct(locations) && w <= |locations| && w >= Required(|locations|, level)
    requires forall j | 0 <= j < w :: Acknowledges(states, steps, from + j, locations[j], c)
    ensures AckedBefore(states, steps, |steps|, locations, level, Nodes(locations[..w]), c)
  {
    hide Acknowledges, Run;
    NodesSize(locations[..w]);
    forall p | p in Nodes(locations[..w])
      ensures ServedBefore(states, steps, |steps|, p, c)
    {
      var j :| 0 <= j < w && locations[..w][j] == p;
      assert Acknowledges(states, steps, from + j, p, c);
    }
  }

  /** Stale reads with a satisfied quorum exist for exactly the levels that do not overlap. */
  lemma StaleReadIff(locations: seq<NodeId>, writeLevel: Level, readLevel: Level)
    requires Distinct(locations) && locations != []
    ensures (exists states, steps, start, acks, c, copies, latest ::
               StaleRead(states, steps, start, locations, writeLevel, readLevel, acks, c, copies, latest)) <==>
            Required(|locations|, writeLevel) + Required(|locations|, readLevel) <= |locations|
  {
    hide Run, AckedBefore, Collected, Successful, IsLatest, Required;
    if Required(|locations|, writeLevel) + Required(|locations|, readLevel) <= |locations| {
      assert R.ValidWrite("b", "", None);
      var states, steps, copies := StaleRun(locations, writeLevel, readLevel, "b", "", "");
    } else {
      forall states, steps, start: nat, acks, c, copies, latest
        ensures !StaleRead(states, steps, start, locations, writeLevel, readLevel, acks, c, copies, latest)
      {
        if StaleRead(states, steps, start, locations, writeLevel, readLevel, acks, c, copies, latest) {
          QuorumReadIsFresh(states, steps, start, locations, writeLevel, readLevel, acks, c, copies, latest);
        }
      }
    }
  }

  // ----- a replicated write, then a read -----

  datatype Outcome = SUCCESS | FAILED | TIMEOUT

  datatype WriteResult = WriteResult(
    replicated: bool, quorumSatisfied: bool, ackCount: nat, required: nat, factor: nat,
    acked: set<NodeId>, failed: set<NodeId>, outcome: Outcome)

  /** The replicas that answered this way. */
  function Answered(answers: seq<(NodeId, bool)>, ok: bool): set<NodeId> {
    set a | a in answers && a.1 == ok :: a.0
  }

  /** What replicate_write and replicate_delete return on node `me`, given the replicas' answers. */
  ghost predicate IsReplicated(me: NodeId, locations: seq<NodeId>, level: Level, answers: seq<(NodeId, bool)>, r: WriteResult) {
    && (me !in locations ==> r.quorumSatisfied && r.acked == {me})
    && (me in locations ==>
          && r.acked == {me} + Answered(answers, true)
          && r.failed == Answered(answers, false) - r.acked
          && r.acked <= Nodes(locations)
          && r.required == Required(|locations|, level)
          && (r.quorumSatisfied <==> |r.acked| >= Required(|locations|, level))
          && (r.replicated <==> answers == [] || r.quorumSatisfied))
  }

  /** What the quorum path of read returns for the copies collected, and the copies to repair. */
  ghost predicate IsRead(locations: seq<NodeId>, level: Level, copies: seq<ReplicaCopy>, repair: bool, r: Option<ReadResult>, stale: seq<ReplicaCopy>) {
    var good := Successful(copies);
    && (copies == [] ==> r == None && stale == [])
    && (r.Some? && r.value.quorumSatisfied ==>
          |good| >= Required(|locations|, level)
          && exists c :: IsLatest(good, c)
               && r.value == ReadResult(c.block, c.data, c.version, c.node, true, |good|)
               && stale == if repair && |good| > 1 then FindStale(good, c) else [])
    && (copies != [] && |good| >= Required(|locations|, level) && good != [] ==> r.Some? && r.value.quorumSatisfied)
    && (copies != [] && |good| < Required(|locations|, level) ==>
          r.Some? && stale == []
          && exists c :: IsLatest(copies, c)
               && r.value == ReadResult(c.block, c.data, c.version, c.node, false, |good|))
  }

  /** The two services together.  The node that coordinated a write or delete had served it, every
      replica that answered well had, and its quorum was satisfied; a read that starts later and
      whose quorum is satisfied returns that version or a newer one, strictly newer after a
      delete, if the levels overlap. */
  lemma ReadAfterWrite(states: seq<Replicas>, steps: seq<Served>, start: nat, locations: seq<NodeId>, c: R.Change,
                       me: NodeId, writeLevel: Level, answers: seq<(NodeId, bool)>, w: WriteResult,
                       readLevel: Level, copies: seq<ReplicaCopy>, repair: bool, r: Option<ReadResult>, stale: seq<ReplicaCopy>)
    requires Run(states, steps) && Distinct(locations) && me in locations
    requires Required(|locations|, writeLevel) + Required(|locations|, readLevel) > |locations|
    requires IsReplicated(me, locations, writeLevel, answers, w) && w.quorumSatisfied
    requires forall n | n in {me} + Answered(answers, true) :: ServedBefore(states, steps, start, n, c)
    requires Collected(states, start, locations, c.block, copies)
    requires IsRead(locations, readLevel, copies, repair, r, stale) && r.Some? && r.value.quorumSatisfied
    ensures r.value.version >= c.version && (c.Delete? ==> r.value.version > c.version)
  {
    hide Required, ServedBefore, Run, Successful, CompareCopies, FindStale, IsLatest, Collected;
    var latest :| IsLatest(Successful(copies), latest) && r.value.version == latest.version;
    QuorumReadIsFresh(states, steps, start, locations, writeLevel, readLevel, w.acked, c, copies, latest);
  }

  // ----- the objects -----

  class QuorumManager {
    const rf: nat
    const required: nat
    var acked: set<NodeId>
    var failed: set<NodeId>

    ghost predicate Valid()
      reads this
    {
      acked !! failed
    }

    constructor (rf: nat, level: Level)
      ensures Valid() && this.rf == rf && required == Required(rf, level)
      ensures acked == {} && failed == {}
    {
      this.rf, required := rf, Required(rf, level);
      acked, failed := {}, {};
    }

    method RecordAck(n: NodeId)
      requires Valid()
      modifies this
      ensures Valid() && acked == old(acked) + {n} && failed == old(failed) - {n}
    {
      failed := failed - {n};
      acked := acked + {n};
    }

    method RecordFailure(n: NodeId)
      requires Valid()
      modifies this
      ensures Valid() && acked == old(acked)
      ensures failed == if n in acked then old(failed) else old(failed) + {n}
    {
      if n !in acked {
        failed := failed + {n};
      }
    }

    /** Both ways of falling short give FAILED; how many answers are still out is computed but
        decides nothing. */
    method Evaluate(timedOut: bool) returns (o: Outcome)
      ensures o == SUCCESS <==> |acked| >= required
      ensures o == TIMEOUT <==> |acked| < required && timedOut
      ensures o == FAILED <==> |acked| < required && !timedOut
    {
      if |acked| >= required {
        return SUCCESS;
      }
      if timedOut {
        return TIMEOUT;
      }
      var remaining := rf - |acked| - |failed|;
      var maxPossible := |acked| + remaining;
      if maxPossible < required {
        return FAILED;
      }
      return FAILED;
    }
  }

  lemma AnsweredOneMore(answers: seq<(NodeId, bool)>, k: nat, ok: bool)
    requires k < |answers|
    ensures Answered(answers[..k + 1], ok) == Answered(answers[..k], ok) + (if answers[k].1 == ok then {answers[k].0} else {})
  {
    assert answers[..k + 1] == answers[..k] + [answers[k]];
  }

  /** This node and those that answered well have acknowledged; of the others, those that answered badly
      have failed. */
  lemma ReplicatedMeans(me: NodeId, locations: seq<NodeId>, level: Level, answers: seq<(NodeId, bool)>, r: WriteResult)
    requires IsReplicated(me, locations, level, answers, r) && me in locations
    ensures forall n :: n in r.acked <==> n == me || (n, true) in answers
    ensures forall n :: n in r.failed <==> n != me && (n, false) in answers && (n, true) !in answers
    ensures r.quorumSatisfied <==> Enough(|r.acked|, |locations|, level)
  {
    RequiredIsLeast(|locations|, level, |r.acked|);
    forall n, ok: bool
      ensures n in Answered(answers, ok) <==> (n, ok) in answers
    {
      assert (n, ok).0 == n && (n, ok).1 == ok;
    }
  }

  class ReplicationService {
    const me: NodeId
    var level: Level
    var lastSnapshot: Option<WriteResult>

    constructor (me: NodeId, level: Level)
      ensures this.me == me && this.level == level && lastSnapshot == None
    {
      this.me, this.level, lastSnapshot := me, level, None;
    }

    method BuildResult(mgr: QuorumManager, replicated: bool, locations: seq<NodeId>, timedOut: bool) returns (r: WriteResult)
      ensures r.replicated == replicated && r.acked == mgr.acked && r.failed == mgr.failed
      ensures r.ackCount == |mgr.acked| && r.required == mgr.required
      ensures r.quorumSatisfied <==> |mgr.acked| >= mgr.required
      ensures r.outcome == if r.quorumSatisfied then SUCCESS else if timedOut then TIMEOUT else FAILED
      ensures r.factor == if locations == [] then 1 else |locations|
    {
      var outcome := mgr.Evaluate(timedOut);
      r := WriteResult(replicated, outcome == SUCCESS, |mgr.acked|, mgr.required,
                       if locations == [] then 1 else |locations|, mgr.acked, mgr.failed, outcome);
    }

    /** No placement, or one that does not include this node: a single local acknowledgement. */
    method LocalOnly(locations: seq<NodeId>, timedOut: bool) returns (r: WriteResult)
      ensures r.quorumSatisfied && r.acked == {me} && r.failed == {} && r.required == 1 && r.replicated
      ensures r.ackCount == 1 && r.outcome == SUCCESS && r.factor == if locations == [] then 1 else |locations|
    {
      var mgr := new QuorumManager(if |locations| > 1 then |locations| else 1, One);
      mgr.RecordAck(me);
      r := BuildResult(mgr, true, locations, timedOut);
    }

    /** The outcome does not depend on the order of the answers. */
    method Tally(mgr: QuorumManager, answers: seq<(NodeId, bool)>)
      requires mgr.Valid() && mgr.failed == {}
      modifies mgr
      ensures mgr.Valid()
      ensures mgr.acked == old(mgr.acked) + Answered(answers, true)
      ensures mgr.failed == Answered(answers, false) - mgr.acked
    {
      var k := 0;
      while k < |answers|
        invariant k <= |answers| && mgr.Valid()
        invariant mgr.acked == old(mgr.acked) + Answered(answers[..k], true)
        invariant mgr.failed == Answered(answers[..k], false) - mgr.acked
      {
        var (target, ok) := answers[k];
        AnsweredOneMore(answers, k, true);
        AnsweredOneMore(answers, k, false);
        if ok {
          mgr.RecordAck(target);
        } else {
          mgr.RecordFailure(target);
        }
        k := k + 1;
      }
      assert answers[..k] == answers;
    }

    /** replicate_write and replicate_delete, given what each replica answered, in the order
        the answers came in. */
    method Replicate(locations: seq<NodeId>, answers: seq<(NodeId, bool)>, timedOut: bool) returns (r: WriteResult)
      requires forall a | a in answers :: a.0 in locations && a.0 != me
      requires me in locations && (forall n | n in locations :: n == me) ==> answers == []
      modifies this`lastSnapshot
      ensures IsReplicated(me, locations, level, answers, r)
      ensures r.ackCount == |r.acked| && r.factor == if locations == [] then 1 else |locations|
      ensures me !in locations ==> r.replicated && r.failed == {} && r.required == 1
      ensures me in locations ==> (r.quorumSatisfied <==> Enough(|r.acked|, |locations|, level))
      ensures r.outcome == if r.quorumSatisfied then SUCCESS else if timedOut then TIMEOUT else FAILED
      ensures me !in locations ==> lastSnapshot == old(lastSnapshot)
      ensures me in locations && (exists n :: n in locations && n != me) ==> lastSnapshot == Some(r)
    {
      hide Required, Enough;
      if me !in locations {
        r := LocalOnly(locations, timedOut);
        return;
      }
      var mgr := new QuorumManager(|locations|, level);
      mgr.RecordAck(me);
      if forall n | n in locations :: n == me {
        assert Answered(answers, true) == {} && Answered(answers, false) == {};
        r := BuildResult(mgr, true, locations, timedOut);
        RequiredIsLeast(|locations|, level, |r.acked|);
        return;
      }
      Tally(mgr, answers);
      var outcome := mgr.Evaluate(timedOut);
      r := BuildResult(mgr, answers == [] || outcome == SUCCESS, locations, timedOut);
      lastSnapshot := Some(r);
      RequiredIsLeast(|locations|, level, |r.acked|);
    }
  }

  method OnlySuccessful(copies: seq<ReplicaCopy>) returns (successful: seq<ReplicaCopy>)
    ensures successful == Successful(copies)
  {
    successful := [];
    var k := 0;
    while k < |copies|
      invariant k <= |copies| && successful + Successful(copies[k..]) == Successful(copies)
    {
      assert copies[k..][1..] == copies[k + 1..];
      if copies[k].version > 0 || !copies[k].deleted {
        successful := successful + [copies[k]];
      }
      k := k + 1;
    }
    assert successful == successful + Successful(copies[k..]);
  }

  class ReadCoordinator {
    const me: NodeId
    var level: Level

    constructor (me: NodeId, level: Level)
      ensures this.me == me && this.level == level
    {
      this.me, this.level := me, level;
    }

    /** Without a placement this node's own row is the answer, and counts as a quorum. */
    method ReadLocalOnly(b: BlockId, local: Option<R.Row>) returns (r: Option<ReadResult>)
      ensures r.Some? <==> local.Some? && local.value.Live?
      ensures r.Some? ==> r.value == ReadResult(b, local.value.data, local.value.version, me, true, 1)
    {
      if local == None || local.value.Tombstone? {
        return None;
      }
      return Some(ReadResult(b, local.value.data, local.value.version, me, true, 1));
    }

    /** read, given what this node's engine holds and the copies collected from the placement;
        and the copies to repair. */
    method Read(b: BlockId, locations: seq<NodeId>, requested: Option<Level>, local: Option<R.Row>, copies: seq<ReplicaCopy>, repair: bool)
      returns (r: Option<ReadResult>, stale: seq<ReplicaCopy>)
      ensures locations != [] ==> IsRead(locations, if requested.Some? then requested.value else level, copies, repair, r, stale)
      ensures locations != [] && copies != [] ==>
                && r.Some?
                && (r.value.quorumSatisfied <==>
                      Enough(|Successful(copies)|, |locations|, if requested.Some? then requested.value else level))
      ensures locations == [] ==> stale == [] && (r.Some? <==> local.Some? && local.value.Live?)
      ensures locations == [] && r.Some? ==> r.value == ReadResult(b, local.value.data, local.value.version, me, true, 1)
    {
      stale := [];
      if locations == [] {
        r := ReadLocalOnly(b, local);
        return;
      }
      var l := if requested.Some? then requested.value else level;
      if copies == [] {
        return None, [];
      }
      var successful := OnlySuccessful(copies);
      RequiredIsLeast(|locations|, l, |successful|);
      hide Successful, FindStale;
      if |successful| >= Required(|locations|, l) {
        var latest := SelectLatest(successful);
        if latest == None {
          return None, [];
        }
        var c := latest.value;
        if repair && |successful| > 1 {
          stale := FindStale(successful, c);
        }
        return Some(ReadResult(c.block, c.data, c.version, c.node, true, |successful|)), stale;
      }
      var latest := SelectLatest(copies);
      var c := latest.value;
      return Some(ReadResult(c.block, c.data, c.version, c.node, false, |successful|)), [];
    }
  }
}
