/**
 * Generic sequence operations that stand for the SQL query primitives the
 * application relies on: `filter_by(...)` (Filter), `.first()` and
 * `query.get(id)` (First), `order_by(...)` (SortBy), primary and unique keys
 * (Distinct) and SQLite's choice of a new row id (NextId).
 */
module Seqs {
  import opened Wrappers

  /** `key` never decreases along `s`. */
  predicate Ascending<T>(s: seq<T>, key: T -> int) {
    forall i, j :: 0 <= i < j < |s| ==> key(s[i]) <= key(s[j])
  }

  /** No two positions of `s` carry the same key (a UNIQUE or PRIMARY KEY column). */
  predicate Distinct<T, K(==)>(s: seq<T>, key: T -> K) {
    forall i, j :: 0 <= i < j < |s| ==> key(s[i]) != key(s[j])
  }

  /** Places `x` into the ascending sequence `s`, before the first element whose key is not smaller. */
  function Insert<T>(x: T, s: seq<T>, key: T -> int): (r: seq<T>)
    requires Ascending(s, key)
    ensures Ascending(r, key)
    ensures multiset(r) == multiset(s) + multiset{x}
    ensures forall y :: y in r ==> y == x || y in s
  {
    if |s| == 0 then [x]
    else if key(x) <= key(s[0]) then [x] + s
    else
      var rest := Insert(x, s[1..], key);
      ConsAscending(s[0], s[1..], x, rest, key);
      assert s == [s[0]] + s[1..];
      [s[0]] + rest
  }

  /** The head of an ascending sequence may go in front of anything built from its tail and a larger element. */
  lemma ConsAscending<T>(head: T, tail: seq<T>, x: T, rest: seq<T>, key: T -> int)
    requires Ascending([head] + tail, key) && key(head) < key(x)
    requires Ascending(rest, key)
    requires forall y :: y in rest ==> y == x || y in tail
    ensures Ascending([head] + rest, key)
  {
    var r := [head] + rest;
    forall i, j | 0 <= i < j < |r| ensures key(r[i]) <= key(r[j]) {
      if i == 0 {
        assert r[j] in rest;
        if r[j] != x {
          var k :| 0 <= k < |tail| && tail[k] == r[j];
          assert ([head] + tail)[0] == head && ([head] + tail)[k + 1] == r[j];
        }
      } else {
        assert r[i] == rest[i - 1] && r[j] == rest[j - 1];
      }
    }
  }

  /** ORDER BY key ASC: a permutation of `s` in ascending key order. */
  function SortBy<T>(s: seq<T>, key: T -> int): (r: seq<T>)
    ensures Ascending(r, key)
    ensures multiset(r) == multiset(s)
  {
    if |s| == 0 then []
    else
      assert s == [s[0]] + s[1..];
      Insert(s[0], SortBy(s[1..], key), key)
  }

  /** WHERE p: the elements of `s` satisfying `p`, in their original order. */
  function Filter<T>(s: seq<T>, p: T -> bool): (r: seq<T>)
    ensures forall x :: x in r ==> x in s && p(x)
    ensures forall x :: x in s && p(x) ==> x in r
    ensures |r| <= |s|
  {
    if |s| == 0 then []
    else (if p(s[0]) then [s[0]] else []) + Filter(s[1..], p)
  }

  /** `.first()`: the earliest element of `s` satisfying `p`, if there is one. */
  function First<T>(s: seq<T>, p: T -> bool): (r: Option<T>)
    ensures r.Some? ==> r.value in s && p(r.value)
    ensures r.None? <==> forall x :: x in s ==> !p(x)
  {
    if |s| == 0 then None
    else if p(s[0]) then Some(s[0])
    else First(s[1..], p)
  }

  /**
   * The id SQLite gives a new row of a table without AUTOINCREMENT: one more
   * than the largest id in use, or 1 in an empty table.
   */
  function NextId<T>(s: seq<T>, id: T -> int): (r: int)
    ensures forall x :: x in s ==> id(x) < r
    ensures |s| == 0 ==> r == 1
    ensures |s| > 0 ==> exists i :: 0 <= i < |s| && r == id(s[i]) + 1
  {
    if |s| == 0 then 1
    else if |s| == 1 then id(s[0]) + 1
    else
      var n := NextId(s[1..], id);
      assert exists i :: 0 <= i < |s| - 1 && n == id(s[1..][i]) + 1;
      if id(s[0]) + 1 > n then id(s[0]) + 1 else n
  }

  /** Removing elements keeps a key unique. */
  lemma {:induction false} DistinctFilter<T, K>(s: seq<T>, p: T -> bool, key: T -> K)
    requires Distinct(s, key)
    ensures Distinct(Filter(s, p), key)
  {
    if |s| > 0 {
      DistinctFilter(s[1..], p, key);
      var rest := Filter(s[1..], p);
      forall y | y in rest ensures key(s[0]) != key(y) {
        var j :| 0 <= j < |s[1..]| && s[1..][j] == y;
        assert s[j + 1] == y;
      }
    }
  }

  /** Appending a row whose key is new keeps a key unique. */
  lemma DistinctAppend<T, K>(s: seq<T>, x: T, key: T -> K)
    requires Distinct(s, key)
    requires forall y :: y in s ==> key(y) != key(x)
    ensures Distinct(s + [x], key)
  {
    forall i, j | 0 <= i < j < |s + [x]| ensures key((s + [x])[i]) != key((s + [x])[j]) {
      if j == |s| {
        assert (s + [x])[i] == s[i] && s[i] in s;
      }
    }
  }

  /** Filtering out only the appended element gives back the original sequence. */
  lemma {:induction false} FilterDropsAppended<T>(s: seq<T>, x: T, p: T -> bool)
    requires forall y :: y in s ==> p(y)
    requires !p(x)
    ensures Filter(s + [x], p) == s
  {
    if |s| == 0 {
      assert Filter([x], p) == [] + Filter([x][1..], p);
    } else {
      assert (s + [x])[1..] == s[1..] + [x];
      FilterDropsAppended(s[1..], x, p);
      assert s == [s[0]] + s[1..];
    }
  }
}
