/** Python's sorted() over strings: the one strictly increasing listing of a set. */
module Order {

  /** Code point order on strings. */
  predicate Below(a: string, b: string) {
    if b == "" then false
    else if a == "" then true
    else if a[0] != b[0] then a[0] < b[0]
    else Below(a[1..], b[1..])
  }

  lemma {:induction false} BelowIsStrict(a: string, b: string)
    ensures !(Below(a, b) && Below(b, a))
    ensures a == b <==> !Below(a, b) && !Below(b, a)
  {
    if a != "" && b != "" && a[0] == b[0] {
      BelowIsStrict(a[1..], b[1..]);
      assert a == [a[0]] + a[1..] && b == [b[0]] + b[1..];
    }
  }

  /** Code point order: the strings agree up to a place where a has ended or has the smaller character. */
  lemma {:induction false} BelowIsLexicographic(a: string, b: string)
    ensures Below(a, b) <==> exists k: nat :: FirstDifference(a, b, k) && (k == |a| || a[k] < b[k])
  {
    forall k: nat | FirstDifference(a, b, k) && k > 0
      ensures a != "" && b != "" && a[0] == b[0]
    {
      SameFirst(a, b, k);
    }
    if a != "" && b != "" && a[0] == b[0] {
      BelowIsLexicographic(a[1..], b[1..]);
      if k: nat :| FirstDifference(a[1..], b[1..], k) && (k == |a[1..]| || a[1..][k] < b[1..][k]) {
        assert a[..k + 1] == [a[0]] + a[1..][..k] && b[..k + 1] == [b[0]] + b[1..][..k];
        assert FirstDifference(a, b, k + 1);
      }
      if k: nat :| FirstDifference(a, b, k) && (k == |a| || a[k] < b[k]) {
        assert k > 0;
        assert a[1..][..k - 1] == a[..k][1..] && b[1..][..k - 1] == b[..k][1..];
        assert FirstDifference(a[1..], b[1..], k - 1);
      }
    } else if b != "" {
      assert FirstDifference(a, b, 0);
    }
  }

  lemma SameFirst(a: string, b: string, k: nat)
    requires FirstDifference(a, b, k) && k > 0
    ensures a != "" && b != "" && a[0] == b[0]
  {
    assert a[0] == a[..k][0] && b[0] == b[..k][0];
  }

  /** a and b agree on their first k characters and differ in the next, where b has one. */
  predicate FirstDifference(a: string, b: string, k: nat) {
    k <= |a| && k < |b| && a[..k] == b[..k] && (k < |a| ==> a[k] != b[k])
  }

  lemma {:induction false} BelowIsTransitive(a: string, b: string, c: string)
    requires Below(a, b) && Below(b, c)
    ensures Below(a, c)
  {
    if a != "" && a[0] == b[0] && b[0] == c[0] {
      BelowIsTransitive(a[1..], b[1..], c[1..]);
    }
  }

  predicate Least(m: string, s: set<string>) {
    m in s && forall x | x in s && x != m :: Below(m, x)
  }

  lemma LeastExists(s: set<string>)
    requires s != {}
    ensures exists m :: Least(m, s)
  {
    var x :| x in s;
    var rest := s - {x};
    if rest == {} {
      assert s == {x};
      assert Least(x, s);
    } else {
      LeastExists(rest);
      var m :| Least(m, rest);
      BelowIsStrict(x, m);
      if Below(x, m) {
        forall y | y in s && y != x
          ensures Below(x, y)
        {
          if y != m {
            BelowIsTransitive(x, m, y);
          }
        }
        assert Least(x, s);
      } else {
        assert Least(m, s);
      }
    }
  }

  lemma LeastIsUnique(m: string, n: string, s: set<string>)
    requires Least(m, s) && Least(n, s)
    ensures m == n
  {
    BelowIsStrict(m, n);
  }

  function SortSet(s: set<string>): seq<string> {
    if s == {} then []
    else
      LeastExists(s);
      assert forall m, n | Least(m, s) && Least(n, s) :: m == n by {
        forall m, n | Least(m, s) && Least(n, s) ensures m == n { LeastIsUnique(m, n, s); }
      }
      var m :| Least(m, s);
      [m] + SortSet(s - {m})
  }

  predicate Increasing(q: seq<string>) {
    forall i, j | 0 <= i < j < |q| :: Below(q[i], q[j])
  }

  function Elements<T>(q: seq<T>): set<T> {
    set x | x in q
  }

  lemma SortSetFirst(s: set<string>) returns (m: string)
    requires s != {}
    ensures Least(m, s) && SortSet(s) == [m] + SortSet(s - {m})
  {
    LeastExists(s);
    m := SortSet(s)[0];
  }

  lemma {:induction false} SortSetIsSorted(s: set<string>)
    ensures Increasing(SortSet(s)) && Elements(SortSet(s)) == s && |SortSet(s)| == |s|
  {
    if s != {} {
      var m := SortSetFirst(s);
      var rest := SortSet(s - {m});
      SortSetIsSorted(s - {m});
      forall j | 0 <= j < |rest|
        ensures Below(m, rest[j])
      {
        assert rest[j] in Elements(rest);
      }
      assert s == {m} + (s - {m});
      assert Elements([m] + rest) == {m} + Elements(rest);
    }
  }

  /** A strictly increasing list is the sorted listing of its elements. */
  lemma {:induction false} SortedIsSortSet(q: seq<string>)
    requires Increasing(q)
    ensures SortSet(Elements(q)) == q
  {
    if q == [] {
      assert Elements(q) == {};
    } else {
      var m := q[0];
      forall i | 0 < i < |q|
        ensures q[i] != m
      {
        BelowIsStrict(m, q[i]);
      }
      assert Least(m, Elements(q));
      var s := SortSet(Elements(q));
      LeastIsUnique(m, s[0], Elements(q));
      assert Elements(q) - {m} == Elements(q[1..]);
      SortedIsSortSet(q[1..]);
    }
  }

  // ----- sorting a list with repeated elements -----

  predicate NonDecreasing(q: seq<string>) {
    forall i, j | 0 <= i < j < |q| :: !Below(q[j], q[i])
  }

  function Insert(q: seq<string>, x: string): seq<string> {
    if q == [] then [x]
    else if Below(q[0], x) then [q[0]] + Insert(q[1..], x)
    else [x] + q
  }

  function SortList(q: seq<string>): seq<string> {
    if q == [] then [] else Insert(SortList(q[..|q| - 1]), q[|q| - 1])
  }

  lemma {:induction false} InsertKeepsOrder(q: seq<string>, x: string)
    requires NonDecreasing(q)
    ensures NonDecreasing(Insert(q, x)) && multiset(Insert(q, x)) == multiset(q) + multiset{x}
  {
    if q != [] {
      assert q == [q[0]] + q[1..];
      if Below(q[0], x) {
        InsertKeepsOrder(q[1..], x);
        var r := Insert(q[1..], x);
        forall j | 0 <= j < |r|
          ensures !Below(r[j], q[0])
        {
          assert r[j] in multiset(r);
          if r[j] == x {
            BelowIsStrict(q[0], x);
          } else {
            assert r[j] in q[1..];
          }
        }
      } else {
        forall j | 0 <= j < |q|
          ensures !Below(q[j], x)
        {
          BelowIsStrict(q[0], q[0]);
          NotBelowFirst(q[0], q[j], x);
        }
      }
    }
  }

  lemma NotBelowFirst(first: string, y: string, x: string)
    requires !Below(first, x) && !Below(y, first)
    ensures !Below(y, x)
  {
    BelowIsStrict(first, y);
    if Below(first, y) && Below(y, x) {
      BelowIsTransitive(first, y, x);
    }
  }

  lemma {:induction false} SortListIs(q: seq<string>)
    ensures NonDecreasing(SortList(q)) && multiset(SortList(q)) == multiset(q)
  {
    if q != [] {
      SortListIs(q[..|q| - 1]);
      InsertKeepsOrder(SortList(q[..|q| - 1]), q[|q| - 1]);
      assert q == q[..|q| - 1] + [q[|q| - 1]];
    }
  }

  /** Without repeated elements that is the sorted listing of the elements. */
  lemma SortedOnceIsSortSet(q: seq<string>)
    requires NonDecreasing(q) && forall x :: multiset(q)[x] <= 1
    ensures q == SortSet(Elements(q))
  {
    forall i, j | 0 <= i < j < |q|
      ensures Below(q[i], q[j])
    {
      BelowIsStrict(q[i], q[j]);
      if q[i] == q[j] {
        TwiceIn(q, i, j);
      }
    }
    SortedIsSortSet(q);
  }

  lemma TwiceIn(q: seq<string>, i: nat, j: nat)
    requires i < j < |q| && q[i] == q[j]
    ensures multiset(q)[q[i]] >= 2
  {
    assert q == q[..i] + [q[i]] + q[i + 1..j] + [q[j]] + q[j + 1..];
  }
}
