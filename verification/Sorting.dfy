/** Python's `sorted`, as the modules here use it: the ascending list of a set of integers, and a stable
    sort of a list by an integer key. */
module Sorting {

  ghost predicate Increasing(s: seq<int>) {
    forall i, j :: 0 <= i < j < |s| ==> s[i] < s[j]
  }

  lemma LeastExists(s: set<int>) returns (m: int)
    requires s != {}
    ensures m in s
    ensures forall x :: x in s ==> m <= x
    decreases |s|
  {
    assert (forall x :: x !in s) ==> s == {};
    var x :| x in s;
    m := x;
    if s != {x} {
      assert s == {x} + (s - {x});
      var rest := LeastExists(s - {x});
      m := if rest < x then rest else x;
    }
  }

  function Least(s: set<int>): (m: int)
    requires s != {}
    ensures m in s && forall x :: x in s ==> m <= x
  {
    assert exists m :: m in s && forall x :: x in s ==> m <= x by {
      var m := LeastExists(s);
    }
    var m :| m in s && forall x :: x in s ==> m <= x;
    m
  }

  /** `sorted(s)` of a set. */
  function Ascending(s: set<int>): (r: seq<int>)
    ensures Increasing(r)
    ensures forall x :: x in r <==> x in s
    decreases |s|
  {
    if s == {} then [] else
      var m := Least(s);
      [m] + Ascending(s - {m})
  }

  /** There is only one ascending list of a set. */
  lemma {:induction false} AscendingUnique(s: set<int>, r: seq<int>)
    requires Increasing(r)
    requires forall x :: x in r <==> x in s
    ensures r == Ascending(s)
    decreases |s|
  {
    assert |r| > 0 ==> r[0] in r && r[0] in s;
    if s == {} {
    } else {
      var m := Least(s);
      assert m in r;
      var i :| 0 <= i < |r| && r[i] == m;
      assert r[0] in s;
      assert i == 0;
      forall x ensures x in r[1..] <==> x in s - {m} {
        if x in s - {m} {
          var j :| 0 <= j < |r| && r[j] == x;
          assert r[1..][j - 1] == x;
        }
      }
      AscendingUnique(s - {m}, r[1..]);
      assert r == [r[0]] + r[1..];
    }
  }

  /** Adding an element above all the others appends it. */
  lemma AscendingAbove(s: set<int>, x: int)
    requires forall y :: y in s ==> y < x
    ensures Ascending(s + {x}) == Ascending(s) + [x]
  {
    var r := Ascending(s);
    assert forall i :: 0 <= i < |r| ==> r[i] in r;
    AscendingUnique(s + {x}, r + [x]);
  }

  /** Dropping the first element of the list drops it from the set. */
  lemma AscendingRest(s: set<int>)
    requires s != {}
    ensures Ascending(s) != []
    ensures Ascending(s)[1..] == Ascending(s - {Ascending(s)[0]})
  {
    assert Ascending(s)[0] == Least(s);
  }

  // ---- edges, possibly repeated

  ghost predicate Ordered(edges: seq<int>) {
    forall i, j :: 0 <= i < j < |edges| ==> edges[i] <= edges[j]
  }

  lemma OrderedAt(bounds: seq<int>, i: nat, j: nat)
    requires Ordered(bounds) && i < |bounds| && j < |bounds|
    ensures i <= j ==> bounds[i] <= bounds[j]
  {
  }

  /** A stretch no edge interrupts lies between two neighbouring edges. */
  lemma {:induction false} BetweenNeighbours(edges: seq<int>, n: nat, a: int, b: int) returns (i: nat)
    requires n < |edges| && n > 0
    requires edges[0] <= a < b <= edges[n]
    requires forall k :: 0 <= k <= n ==> !(a < edges[k] < b)
    ensures i < n && edges[i] <= a && b <= edges[i + 1]
    decreases n
  {
    if n > 1 && b <= edges[n - 1] {
      i := BetweenNeighbours(edges, n - 1, a, b);
    } else {
      i := n - 1;
    }
  }

  lemma SnocSame<T>(a: seq<T>, b: seq<T>, x: T, y: T)
    requires a + [x] == b + [y]
    ensures a == b && x == y
  {
    assert |a| == |b| && (a + [x])[|a|] == x && (b + [y])[|b|] == y;
    assert (a + [x])[..|a|] == a && (b + [y])[..|b|] == b;
  }

  ghost predicate SortedBy<T(!new)>(key: T -> int, s: seq<T>) {
    forall i, j :: 0 <= i < j < |s| ==> key(s[i]) <= key(s[j])
  }

  /** `x` placed behind every element whose key is not above its own. */
  function InsertBy<T>(key: T -> int, s: seq<T>, x: T): (r: seq<T>)
    ensures |r| == |s| + 1
  {
    if s == [] || key(s[|s| - 1]) <= key(x) then s + [x]
    else InsertBy(key, s[..|s| - 1], x) + [s[|s| - 1]]
  }

  /** `sorted(s, key=key)`: stable. */
  function SortBy<T>(key: T -> int, s: seq<T>): (r: seq<T>)
    ensures |r| == |s|
  {
    if s == [] then [] else InsertBy(key, SortBy(key, s[..|s| - 1]), s[|s| - 1])
  }

  lemma {:induction false} InsertByPermutes<T>(key: T -> int, s: seq<T>, x: T)
    ensures multiset(InsertBy(key, s, x)) == multiset(s) + multiset{x}
  {
    if s == [] || key(s[|s| - 1]) <= key(x) {
    } else {
      InsertByPermutes(key, s[..|s| - 1], x);
      assert s == s[..|s| - 1] + [s[|s| - 1]];
    }
  }

  lemma {:induction false} InsertByKeeps<T(!new)>(key: T -> int, s: seq<T>, x: T)
    requires SortedBy(key, s)
    ensures SortedBy(key, InsertBy(key, s, x))
    ensures multiset(InsertBy(key, s, x)) == multiset(s) + multiset{x}
  {
    InsertByPermutes(key, s, x);
    if s == [] || key(s[|s| - 1]) <= key(x) {
    } else {
      var front, last := s[..|s| - 1], s[|s| - 1];
      InsertByKeeps(key, front, x);
      var r := InsertBy(key, front, x);
      forall y | y in r ensures key(y) <= key(last) {
        assert y in multiset(r);
        assert y in front || y == x;
      }
    }
  }

  /** The sort orders the list and permutes it. */
  lemma {:induction false} SortByKeeps<T(!new)>(key: T -> int, s: seq<T>)
    ensures SortedBy(key, SortBy(key, s))
    ensures multiset(SortBy(key, s)) == multiset(s)
  {
    if s != [] {
      var front := s[..|s| - 1];
      SortByKeeps(key, front);
      InsertByKeeps(key, SortBy(key, front), s[|s| - 1]);
      assert s == front + [s[|s| - 1]];
    }
  }

  /** A list already in order is left as it is. */
  lemma {:induction false} SortByFixed<T(!new)>(key: T -> int, s: seq<T>)
    requires SortedBy(key, s)
    ensures SortBy(key, s) == s
  {
    if s != [] {
      SortByFixed(key, s[..|s| - 1]);
      assert s == s[..|s| - 1] + [s[|s| - 1]];
    }
  }
}
