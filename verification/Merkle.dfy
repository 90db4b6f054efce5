/** Merkle trees over a node's blocks (node/merkle.py).  The hash is symbolic: two digests are
    equal only if the hashed texts are.  A leaf's text contains a colon and a pair of hex
    digests does not, so leaves, pairs and the empty tree never collide. */
module Merkle {
  import opened Metadata
  import opened Order

  datatype Digest = OfText(text: string) | OfPair(left: Digest, right: Digest) | OfNothing

  datatype Block = Block(data: string, version: int)

  type Blocks = map<BlockId, Block>

  // ----- leaves -----

  function Digits(n: nat): string {
    (if n < 10 then "" else Digits(n / 10)) + [(n % 10 + '0' as int) as char]
  }

  function Decimal(v: int): string {
    if v < 0 then "-" + Digits(-v) else Digits(v)
  }

  function LeafText(id: BlockId, b: Block): string {
    id + ":" + Decimal(b.version) + ":" + b.data
  }

  function LeafDigests(blocks: Blocks, ids: seq<BlockId>): seq<Digest>
    requires forall x | 0 <= x < |ids| :: ids[x] in blocks
  {
    seq(|ids|, x requires 0 <= x < |ids| => OfText(LeafText(ids[x], blocks[ids[x]])))
  }

  // ----- levels -----

  /** The next level up: an odd last node is paired with itself. */
  function PairUp(level: seq<Digest>): seq<Digest> {
    seq((|level| + 1) / 2, x requires 0 <= x < (|level| + 1) / 2 =>
      OfPair(level[2 * x], if 2 * x + 1 < |level| then level[2 * x + 1] else level[2 * x]))
  }

  function Root(level: seq<Digest>): Digest
    requires level != []
    decreases |level|
  {
    if |level| == 1 then level[0] else Root(PairUp(level))
  }

  function Leaves(blocks: Blocks): seq<Digest> {
    SortSetIsSorted(blocks.Keys);
    assert forall x | 0 <= x < |SortSet(blocks.Keys)| :: SortSet(blocks.Keys)[x] in Elements(SortSet(blocks.Keys));
    LeafDigests(blocks, SortSet(blocks.Keys))
  }

  function RootOf(blocks: Blocks): Digest {
    if Leaves(blocks) == [] then OfNothing else Root(Leaves(blocks))
  }

  predicate TreesMatch(a: Blocks, b: Blocks) {
    RootOf(a) == RootOf(b)
  }

  // ----- the text of a leaf -----

  lemma {:induction false} DigitsShape(n: nat)
    ensures Digits(n) != "" && forall x | 0 <= x < |Digits(n)| :: '0' <= Digits(n)[x] <= '9'
  {
    if n >= 10 {
      DigitsShape(n / 10);
    }
  }

  lemma DigitsLast(n: nat)
    ensures var s := Digits(n);
            && s[|s| - 1] as int == n % 10 + '0' as int
            && s[..|s| - 1] == if n < 10 then "" else Digits(n / 10)
  {
  }

  lemma {:induction false} DigitsInjective(m: nat, n: nat)
    requires Digits(m) == Digits(n)
    ensures m == n
  {
    DigitsLast(m);
    DigitsLast(n);
    DigitsShape(m / 10);
    DigitsShape(n / 10);
    hide Digits;
    if m >= 10 && n >= 10 {
      DigitsInjective(m / 10, n / 10);
    }
  }

  predicate NoColon(s: string) {
    forall x | 0 <= x < |s| :: s[x] != ':'
  }

  lemma DecimalShape(v: int)
    ensures NoColon(Decimal(v))
  {
    DigitsShape(if v < 0 then -v else v);
  }

  lemma DecimalInjective(v: int, w: int)
    requires Decimal(v) == Decimal(w)
    ensures v == w
  {
    DecimalSign(v);
    DecimalSign(w);
    if v < 0 {
      assert Decimal(v)[1..] == Digits(-v) && Decimal(w)[1..] == Digits(-w);
      DigitsInjective(-v, -w);
    } else {
      DigitsInjective(v, w);
    }
  }

  lemma DecimalSign(v: int)
    ensures Decimal(v) != "" && (Decimal(v)[0] == '-' <==> v < 0)
  {
    DigitsShape(if v < 0 then -v else v);
  }

  /** The second id continues the first with a colon and a number, ending there or at another
      colon: then the first id's version can be read as part of the second id. */
  ghost predicate Confusable(id1: BlockId, id2: BlockId) {
    exists v: int, rest: string :: ConfusedBy(id1, id2, v, rest)
  }

  ghost predicate ConfusedBy(id1: BlockId, id2: BlockId, v: int, rest: string) {
    id2 == id1 + ":" + Decimal(v) + rest && (rest == "" || rest[0] == ':')
  }

  lemma FirstColon(a: string, x: string)
    requires NoColon(a)
    ensures var s := a + ":" + x;
            s[|a|] == ':' && s[..|a|] == a && s[|a| + 1..] == x
            && forall k | 0 <= k < |s| && s[k] == ':' :: k >= |a|
  {
    var s := a + ":" + x;
    forall k | 0 <= k < |a|
      ensures s[k] != ':'
    {
      assert s[k] == a[k];
    }
  }

  /** Two equal texts that start with colon-free parts, each closed by a colon, start with the
      same part. */
  lemma FirstField(a: string, x: string, b: string, y: string)
    requires NoColon(a) && NoColon(b) && a + ":" + x == b + ":" + y
    ensures a == b && x == y
  {
    FirstColon(a, x);
    FirstColon(b, y);
  }

  lemma SameIdSameBlock(id: BlockId, a: Block, b: Block)
    requires LeafText(id, a) == LeafText(id, b)
    ensures a == b
  {
    var s := LeafText(id, a);
    assert s[|id| + 1..] == Decimal(a.version) + ":" + a.data;
    assert s[|id| + 1..] == Decimal(b.version) + ":" + b.data;
    DecimalShape(a.version);
    DecimalShape(b.version);
    FirstField(Decimal(a.version), a.data, Decimal(b.version), b.data);
    DecimalInjective(a.version, b.version);
  }

  /** A text that is one colon-free field, a colon and more, and is also a longer text, a colon
      and more: the longer text starts with the field and ends there or goes on with a colon. */
  lemma LongerField(d: string, x: string, tail: string, y: string)
    requires NoColon(d) && d + ":" + x == tail + ":" + y
    ensures |d| <= |tail| && tail[..|d|] == d && (|tail| > |d| ==> tail[|d|] == ':')
  {
    FirstColon(d, x);
    var s := d + ":" + x;
    assert s[|tail|] == ':';
    assert tail == s[..|tail|];
    assert tail[..|d|] == s[..|d|];
  }

  lemma ShorterIdIsConfused(id1: BlockId, a: Block, id2: BlockId, b: Block)
    requires LeafText(id1, a) == LeafText(id2, b) && |id1| < |id2|
    ensures Confusable(id1, id2)
  {
    var d := Decimal(a.version);
    DecimalShape(a.version);
    hide Decimal, NoColon;
    var s := id1 + ":" + d + ":" + a.data;
    var tail := id2[|id1| + 1..];
    assert s[|id1| + 1..] == d + ":" + a.data;
    assert s == id2 + ":" + Decimal(b.version) + ":" + b.data;
    assert s[|id1| + 1..] == tail + ":" + (Decimal(b.version) + ":" + b.data);
    LongerField(d, a.data, tail, Decimal(b.version) + ":" + b.data);
    assert id2[..|id1|] == s[..|id1|] == id1;
    assert id2[|id1|] == s[|id1|] == ':';
    assert id2 == id1 + ":" + tail;
    assert tail == d + tail[|d|..];
    assert ConfusedBy(id1, id2, a.version, tail[|d|..]);
  }

  lemma LeafTextInjective(id1: BlockId, a: Block, id2: BlockId, b: Block)
    requires LeafText(id1, a) == LeafText(id2, b)
    requires !Confusable(id1, id2) && !Confusable(id2, id1)
    ensures id1 == id2 && a == b
  {
    if |id1| < |id2| {
      ShorterIdIsConfused(id1, a, id2, b);
    } else if |id2| < |id1| {
      ShorterIdIsConfused(id2, b, id1, a);
    } else {
      assert id1 == LeafText(id1, a)[..|id1|] && id2 == LeafText(id2, b)[..|id2|];
      SameIdSameBlock(id1, a, b);
    }
  }

  /** The number that a string of digits stands for. */
  function NumberOf(s: string): int {
    if s == "" then 0 else 10 * NumberOf(s[..|s| - 1]) + (s[|s| - 1] as int - '0' as int)
  }

  /** A version is written in decimal, a minus sign first if it is negative and no leading zero. */
  lemma DecimalReadsBack(v: int)
    ensures var s := Decimal(v);
            && (v >= 0 ==> NumberOf(s) == v && s != "" && s[0] != '-' && (s[0] == '0' ==> v == 0))
            && (v < 0 ==> s != "" && s[0] == '-' && NumberOf(s[1..]) == -v && s[1..] != "" && s[1] != '0')
  {
    var n := if v < 0 then -v else v;
    DigitsReadBack(n);
    DigitsShape(n);
    assert ("-" + Digits(n))[1..] == Digits(n);
  }

  lemma {:induction false} DigitsReadBack(n: nat)
    ensures NumberOf(Digits(n)) == n && Digits(n) != "" && (Digits(n)[0] == '0' ==> n == 0)
  {
    DigitsLast(n);
    if n >= 10 {
      DigitsReadBack(n / 10);
      assert Digits(n)[0] == Digits(n)[..|Digits(n)| - 1][0];
    }
  }

  // ----- a root determines its leaves -----

  /** A level is paired off two by two from the left, an odd last node with itself. */
  lemma PairUpOfJoin(a: seq<Digest>, b: seq<Digest>)
    requires |a| % 2 == 0
    ensures PairUp(a + b) == PairUp(a) + PairUp(b)
    ensures forall l, r :: PairUp([l, r]) == [OfPair(l, r)] && PairUp([l]) == [OfPair(l, l)]
  {
    forall x | 0 <= x < |PairUp(a + b)|
      ensures PairUp(a + b)[x] == (PairUp(a) + PairUp(b))[x]
    {
      if x >= |PairUp(a)| {
        assert (a + b)[2 * x] == b[2 * (x - |PairUp(a)|)];
      }
    }
  }

  /** Two subtrees over 2^k leaves each are joined left to right. */
  lemma {:induction false} RootOfHalves(a: seq<Digest>, b: seq<Digest>, k: nat)
    requires |a| == |b| == Power2(k)
    ensures Root(a + b) == OfPair(Root(a), Root(b))
    decreases k
  {
    if k == 0 {
      assert a + b == [a[0], b[0]];
      assert PairUp([a[0], b[0]]) == [OfPair(a[0], b[0])];
    } else {
      PairUpOfJoin(a, b);
      RootOfHalves(PairUp(a), PairUp(b), k - 1);
    }
  }

  function Power2(k: nat): (n: nat)
    ensures n > 0
    ensures k > 0 ==> n % 2 == 0
  {
    if k == 0 then 1 else 2 * Power2(k - 1)
  }

  /** Roots of up to three leaves; of no block at all, the hash of nothing. */
  lemma SmallRoots(a: Digest, b: Digest, c: Digest)
    ensures Root([a]) == a && Root([a, b]) == OfPair(a, b) && Root([a, b, c]) == OfPair(OfPair(a, b), OfPair(c, c))
    ensures RootOf(map[]) == OfNothing
  {
    PairUpOfJoin([a, b], [c]);
    assert [a, b] + [c] == [a, b, c];
    assert PairUp([a, b, c]) == [OfPair(a, b), OfPair(c, c)];
    assert PairUp([a, b]) == [OfPair(a, b)];
    assert PairUp([OfPair(a, b), OfPair(c, c)]) == [OfPair(OfPair(a, b), OfPair(c, c))];
    assert Root([OfPair(a, b), OfPair(c, c)]) == OfPair(OfPair(a, b), OfPair(c, c));
    var none: Blocks := map[];
    LeavesAre(none);
    SortSetIsSorted(none.Keys);
    assert none.Keys == {};
  }

  function Height(d: Digest): nat {
    if d.OfPair? then 1 + Height(d.left) else 0
  }

  ghost predicate Uniform(level: seq<Digest>, h: nat) {
    forall x | 0 <= x < |level| :: Height(level[x]) == h
  }

  ghost predicate Distinct(level: seq<Digest>) {
    forall x, y | 0 <= x < y < |level| :: level[x] != level[y]
  }

  lemma {:induction false} RootHeight(level: seq<Digest>, h: nat)
    requires level != [] && Uniform(level, h)
    ensures Height(Root(level)) >= h
    ensures |level| > 1 ==> Height(Root(level)) > h
    decreases |level|
  {
    if |level| > 1 {
      RootHeight(PairUp(level), h + 1);
    }
  }

  lemma PairUpDistinct(level: seq<Digest>)
    requires Distinct(level)
    ensures Distinct(PairUp(level))
  {
    var up := PairUp(level);
    forall x, y | 0 <= x < y < |up|
      ensures up[x] != up[y]
    {
      assert up[x].left == level[2 * x] && up[y].left == level[2 * y];
    }
  }

  /** Pairing the odd last node with itself loses nothing, because nodes do not repeat. */
  lemma PairUpInjective(a: seq<Digest>, b: seq<Digest>)
    requires Distinct(a) && Distinct(b) && PairUp(a) == PairUp(b)
    ensures a == b
  {
    if a != [] {
      OddIffLastRepeats(a);
      OddIffLastRepeats(b);
    }
    assert |a| == |b|;
    forall x | 0 <= x < |a|
      ensures a[x] == b[x]
    {
      assert PairUp(a)[x / 2] == PairUp(b)[x / 2];
    }
  }

  lemma OddIffLastRepeats(a: seq<Digest>)
    requires Distinct(a) && a != []
    ensures var last := PairUp(a)[|PairUp(a)| - 1];
            |a| % 2 == 1 <==> last.left == last.right
  {
  }

  lemma {:induction false} RootInjective(a: seq<Digest>, b: seq<Digest>, h: nat)
    requires a != [] && b != [] && Distinct(a) && Distinct(b) && Uniform(a, h) && Uniform(b, h)
    requires Root(a) == Root(b)
    ensures a == b
    decreases |a|
  {
    RootHeight(a, h);
    RootHeight(b, h);
    if |a| > 1 {
      PairUpDistinct(a);
      PairUpDistinct(b);
      RootInjective(PairUp(a), PairUp(b), h + 1);
      PairUpInjective(a, b);
    }
  }

  // ----- roots decide equality -----

  ghost predicate Clear(ids: set<BlockId>) {
    forall i, j | i in ids && j in ids :: !Confusable(i, j)
  }

  lemma LeavesAre(blocks: Blocks)
    ensures var ids := SortSet(blocks.Keys);
            && |Leaves(blocks)| == |ids| && Increasing(ids) && Elements(ids) == blocks.Keys
            && forall x | 0 <= x < |ids| :: ids[x] in blocks && Leaves(blocks)[x] == OfText(LeafText(ids[x], blocks[ids[x]]))
  {
    SortSetIsSorted(blocks.Keys);
    var ids := SortSet(blocks.Keys);
    forall x | 0 <= x < |ids|
      ensures ids[x] in blocks
    {
      assert ids[x] in Elements(ids);
    }
  }

  lemma LeavesDistinct(blocks: Blocks)
    requires Clear(blocks.Keys)
    ensures Distinct(Leaves(blocks)) && Uniform(Leaves(blocks), 0)
  {
    LeavesAre(blocks);
    var ids := SortSet(blocks.Keys);
    forall x, y | 0 <= x < y < |ids|
      ensures Leaves(blocks)[x] != Leaves(blocks)[y]
    {
      BelowIsStrict(ids[x], ids[y]);
      if LeafText(ids[x], blocks[ids[x]]) == LeafText(ids[y], blocks[ids[y]]) {
        LeafTextInjective(ids[x], blocks[ids[x]], ids[y], blocks[ids[y]]);
      }
    }
  }

  lemma LeavesInjective(a: Blocks, b: Blocks)
    requires Clear(a.Keys + b.Keys) && Leaves(a) == Leaves(b)
    ensures a == b
  {
    LeavesAre(a);
    LeavesAre(b);
    hide LeafText, Leaves, SortSet, Increasing, Confusable;
    var ids, jds := SortSet(a.Keys), SortSet(b.Keys);
    forall x | 0 <= x < |ids|
      ensures ids[x] == jds[x] && a[ids[x]] == b[jds[x]]
    {
      assert Leaves(a)[x] == Leaves(b)[x];
      LeafTextInjective(ids[x], a[ids[x]], jds[x], b[jds[x]]);
    }
    assert ids == jds;
    forall i | i in a
      ensures a[i] == b[i]
    {
      assert i in Elements(ids);
    }
  }

  /** For ids that cannot be confused, equal roots mean equal block maps, for any number of
      blocks on either side. */
  lemma RootsDecideEquality(a: Blocks, b: Blocks)
    requires Clear(a.Keys + b.Keys)
    ensures TreesMatch(a, b) <==> a == b
  {
    if TreesMatch(a, b) {
      LeavesDistinct(a);
      LeavesDistinct(b);
      if Leaves(a) != [] && Leaves(b) != [] {
        RootInjective(Leaves(a), Leaves(b), 0);
      } else {
        NoRootIsNothing(a);
        NoRootIsNothing(b);
      }
      LeavesInjective(a, b);
    }
  }

  lemma NoRootIsNothing(a: Blocks)
    ensures RootOf(a) == OfNothing <==> Leaves(a) == []
  {
    if Leaves(a) != [] {
      LeavesAre(a);
      NotNothing(Leaves(a));
    }
  }

  lemma {:induction false} NotNothing(level: seq<Digest>)
    requires level != [] && forall x | 0 <= x < |level| :: level[x] != OfNothing
    ensures Root(level) != OfNothing
    decreases |level|
  {
    if |level| > 1 {
      NotNothing(PairUp(level));
    }
  }

  /** Ids without colons are never confused. */
  lemma ColonFreeIsClear(ids: set<BlockId>)
    requires forall i | i in ids :: NoColon(i)
    ensures Clear(ids)
  {
    forall i, j
      ensures Confusable(i, j) ==> !NoColon(j)
    {
      if Confusable(i, j) {
        var v: int, rest: string :| ConfusedBy(i, j, v, rest);
        assert j[|i|] == ':';
      }
    }
  }

  lemma SingleLeaf(id: BlockId, b: Block)
    ensures RootOf(map[id := b]) == OfText(LeafText(id, b))
  {
    LeavesAre(map[id := b]);
    var ids := SortSet({id});
    SortSetIsSorted({id});
    assert map[id := b].Keys == {id};
    assert |ids| == 1 && ids[0] in Elements(ids);
  }

  /** Two confusable ids give two different one-block maps with the same root. */
  lemma ConfusableIdsCollide(id1: BlockId, id2: BlockId) returns (a: Blocks, b: Blocks)
    requires Confusable(id1, id2)
    ensures a.Keys == {id1} && b.Keys == {id2} && a != b && TreesMatch(a, b)
  {
    var v: int, rest: string :| ConfusedBy(id1, id2, v, rest);
    var data := if rest == "" then "0:" else rest[1..] + ":0:";
    a := map[id1 := Block(data, v)];
    b := map[id2 := Block("", 0)];
    SingleLeaf(id1, a[id1]);
    SingleLeaf(id2, b[id2]);
    SameText(id1, id2, v, rest, data);
    assert |id2| > |id1|;
    assert id1 in a && id1 !in b;
  }

  lemma SameText(id1: BlockId, id2: BlockId, v: int, rest: string, data: string)
    requires ConfusedBy(id1, id2, v, rest)
    requires data == if rest == "" then "0:" else rest[1..] + ":0:"
    ensures LeafText(id2, Block("", 0)) == LeafText(id1, Block(data, v))
  {
    assert Decimal(0) == "0";
    var d := Decimal(v);
    hide Decimal;
    assert rest + ":0:" == ":" + data;
    assert LeafText(id2, Block("", 0)) == id1 + ":" + d + (rest + ":0:");
    assert LeafText(id1, Block(data, v)) == id1 + ":" + d + (":" + data);
  }

  /** Over a set of ids, roots decide equality of block maps exactly when no two of the ids can
      be confused. */
  lemma RootsDecideEqualityIff(ids: set<BlockId>)
    ensures (forall a: Blocks, b: Blocks | a.Keys <= ids && b.Keys <= ids :: TreesMatch(a, b) <==> a == b) <==> Clear(ids)
  {
    if Clear(ids) {
      forall a: Blocks, b: Blocks | a.Keys <= ids && b.Keys <= ids
        ensures TreesMatch(a, b) <==> a == b
      {
        RootsDecideEquality(a, b);
      }
    } else {
      var i, j :| i in ids && j in ids && Confusable(i, j);
      var a, b := ConfusableIdsCollide(i, j);
      assert a.Keys <= ids && b.Keys <= ids;
    }
  }

  // ----- compare_trees -----

  function LeafHashes(blocks: Blocks): map<BlockId, Digest> {
    map id | id in blocks && id != "" :: OfText(LeafText(id, blocks[id]))
  }

  function Differing(a: map<BlockId, Digest>, b: map<BlockId, Digest>): set<BlockId> {
    set id | id in a.Keys + b.Keys && !(id in a && id in b && a[id] == b[id])
  }

  function CompareTrees(a: Blocks, b: Blocks): seq<BlockId> {
    SortSet(Differing(LeafHashes(a), LeafHashes(b)))
  }

  /** compare_trees lists, in order, exactly the non-empty ids on which the maps differ, for ids
      of any form. */
  lemma CompareTreesIsExact(a: Blocks, b: Blocks)
    ensures Increasing(CompareTrees(a, b))
    ensures forall id :: id in CompareTrees(a, b) <==>
              id != "" && (id in a || id in b) && !(id in a && id in b && a[id] == b[id])
  {
    var differing := Differing(LeafHashes(a), LeafHashes(b));
    SortSetIsSorted(differing);
    forall id
      ensures id in CompareTrees(a, b) <==>
                id != "" && (id in a || id in b) && !(id in a && id in b && a[id] == b[id])
    {
      assert id in CompareTrees(a, b) <==> id in Elements(CompareTrees(a, b));
      if id in a && id in b && LeafText(id, a[id]) == LeafText(id, b[id]) {
        SameIdSameBlock(id, a[id], b[id]);
      }
    }
  }

  /** Three ways of saying two block maps are equal. */
  lemma TreesAgree(a: Blocks, b: Blocks)
    requires Clear(a.Keys + b.Keys) && "" !in a && "" !in b
    ensures TreesMatch(a, b) <==> CompareTrees(a, b) == []
    ensures CompareTrees(a, b) == [] <==> a == b
  {
    RootsDecideEquality(a, b);
    CompareTreesIsExact(a, b);
    if CompareTrees(a, b) == [] {
      forall id
        ensures id in a <==> id in b
        ensures id in a ==> a[id] == b[id]
      {
        assert id !in CompareTrees(a, b);
      }
    } else {
      assert CompareTrees(a, b)[0] in CompareTrees(a, b);
    }
  }

  // ----- the object -----

  class MerkleTree {
    const blocks: Blocks
    var leaves: seq<(BlockId, Digest)>
    var root: Digest

    ghost predicate Valid()
      reads this
    {
      && root == RootOf(blocks)
      && |leaves| == |Leaves(blocks)| == |SortSet(blocks.Keys)|
      && forall x | 0 <= x < |leaves| :: leaves[x] == (SortSet(blocks.Keys)[x], Leaves(blocks)[x])
    }

    constructor (blocks: Blocks)
      ensures this.blocks == blocks && Valid()
    {
      this.blocks := blocks;
      leaves, root := [], OfNothing;
      new;
      Build();
    }

    method Build()
      modifies this
      ensures Valid()
    {
      var sortedIds := SortSet(blocks.Keys);
      LeavesAre(blocks);
      if sortedIds == [] {
        leaves, root := [], OfNothing;
        return;
      }
      leaves := seq(|sortedIds|, x requires 0 <= x < |sortedIds| => (sortedIds[x], Leaves(blocks)[x]));
      root := BuildLevel(Leaves(blocks));
    }

    static method BuildLevel(nodes: seq<Digest>) returns (root: Digest)
      requires nodes != []
      ensures root == Root(nodes)
      decreases |nodes|
    {
      if |nodes| == 1 {
        return nodes[0];
      }
      var nextLevel := [];
      var i := 0;
      while i < |nodes|
        invariant i % 2 == 0 && i <= |nodes| + 1
        invariant |nextLevel| == i / 2
        invariant forall x | 0 <= x < |nextLevel| :: x < |PairUp(nodes)| && nextLevel[x] == PairUp(nodes)[x]
      {
        var left := nodes[i];
        var right := if i + 1 < |nodes| then nodes[i + 1] else left;
        assert PairUp(nodes)[i / 2] == OfPair(left, right);
        nextLevel := nextLevel + [OfPair(left, right)];
        i := i + 2;
      }
      assert nextLevel == PairUp(nodes);
      root := BuildLevel(nextLevel);
    }
  }
}
