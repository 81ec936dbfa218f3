/**
 * Relational operations the SQL queries of the services perform on a table held as a sequence:
 * WHERE (Filter), ORDER BY (a stable insertion sort) and LIMIT/OFFSET (Window).
 */
module Sequences {

  /** The rows of `s` that satisfy `p`, in table order. */
  function Filter<T(!new)>(s: seq<T>, p: T -> bool): (r: seq<T>)
    ensures |r| <= |s|
    ensures forall x :: x in r <==> x in s && p(x)
    ensures forall i :: 0 <= i < |r| ==> p(r[i])
  {
    if s == [] then [] else (if p(s[0]) then [s[0]] else []) + Filter(s[1..], p)
  }

  lemma {:induction false} FilterAppend<T(!new)>(a: seq<T>, b: seq<T>, p: T -> bool)
    ensures Filter(a + b, p) == Filter(a, p) + Filter(b, p)
    decreases |a|
  {
    if a != [] {
      assert (a + b)[1..] == a[1..] + b;
      FilterAppend(a[1..], b, p);
    } else {
      assert a + b == b;
    }
  }

  lemma {:induction false} FilterMultiset<T(!new)>(s: seq<T>, p: T -> bool)
    ensures multiset(Filter(s, p)) <= multiset(s)
    decreases |s|
  {
    if s != [] {
      FilterMultiset(s[1..], p);
      assert s == [s[0]] + s[1..];
    }
  }

  /** Every row passes: the filter keeps the table as it is. */
  lemma {:induction false} FilterAll<T(!new)>(s: seq<T>, p: T -> bool)
    requires forall i :: 0 <= i < |s| ==> p(s[i])
    ensures Filter(s, p) == s
    decreases |s|
  {
    if s != [] {
      FilterAll(s[1..], p);
    }
  }

  /** No row passes. */
  lemma {:induction false} FilterNone<T(!new)>(s: seq<T>, p: T -> bool)
    requires forall i :: 0 <= i < |s| ==> !p(s[i])
    ensures Filter(s, p) == []
    decreases |s|
  {
    if s != [] {
      FilterNone(s[1..], p);
    }
  }

  /** `le` orders every pair and is transitive: what ORDER BY on one key provides. */
  ghost predicate IsTotalPreorder<T(!new)>(le: (T, T) -> bool) {
    (forall a, b :: le(a, b) || le(b, a)) &&
    (forall a, b, c :: le(a, b) && le(b, c) ==> le(a, c))
  }

  predicate SortedBy<T>(s: seq<T>, le: (T, T) -> bool) {
    forall i, j :: 0 <= i < j < |s| ==> le(s[i], s[j])
  }

  /** Inserts `x` before the first element it is ordered before, so earlier rows stay first among equals. */
  function InsertBy<T>(x: T, s: seq<T>, le: (T, T) -> bool): (r: seq<T>)
    ensures |r| == |s| + 1
    ensures multiset(r) == multiset(s) + multiset{x}
  {
    if s == [] || le(x, s[0]) then [x] + s
    else
      assert s == [s[0]] + s[1..];
      [s[0]] + InsertBy(x, s[1..], le)
  }

  /** ORDER BY: a stable insertion sort of the rows by `le`. */
  function SortBy<T>(s: seq<T>, le: (T, T) -> bool): (r: seq<T>)
    ensures |r| == |s|
    ensures multiset(r) == multiset(s)
  {
    if s == [] then []
    else
      assert s == [s[0]] + s[1..];
      InsertBy(s[0], SortBy(s[1..], le), le)
  }

  lemma {:induction false} InsertBySorted<T(!new)>(x: T, s: seq<T>, le: (T, T) -> bool)
    requires IsTotalPreorder(le)
    requires SortedBy(s, le)
    ensures SortedBy(InsertBy(x, s, le), le)
    decreases |s|
  {
    if s == [] || le(x, s[0]) {
    } else {
      InsertBySorted(x, s[1..], le);
      var r := InsertBy(x, s[1..], le);
      assert le(s[0], x);
      forall k | 0 <= k < |r| ensures le(s[0], r[k]) {
        assert r[k] in multiset(r);
        assert r[k] == x || r[k] in multiset(s[1..]);
        if r[k] != x {
          var m :| 0 <= m < |s[1..]| && s[1..][m] == r[k];
          assert s[m + 1] == r[k];
        }
      }
    }
  }

  lemma {:induction false} SortBySorted<T(!new)>(s: seq<T>, le: (T, T) -> bool)
    requires IsTotalPreorder(le)
    ensures SortedBy(SortBy(s, le), le)
    decreases |s|
  {
    if s != [] {
      SortBySorted(s[1..], le);
      InsertBySorted(s[0], SortBy(s[1..], le), le);
    }
  }

  /** Rows that all tie under `le` come out of ORDER BY in table order. */
  lemma {:induction false} SortByTied<T>(s: seq<T>, le: (T, T) -> bool)
    requires forall i, j :: 0 <= i < |s| && 0 <= j < |s| ==> le(s[i], s[j])
    ensures SortBy(s, le) == s
    decreases |s|
  {
    if s != [] {
      SortByTied(s[1..], le);
      assert s == [s[0]] + s[1..];
      if s[1..] != [] {
        assert le(s[0], s[1]);
      }
    }
  }

  /** A relation that holds between every earlier and later row still holds after a filter. */
  lemma {:induction false} FilterPairwise<T(!new)>(s: seq<T>, p: T -> bool, rel: (T, T) -> bool)
    requires forall i, j :: 0 <= i < j < |s| ==> rel(s[i], s[j])
    ensures forall i, j :: 0 <= i < j < |Filter(s, p)| ==> rel(Filter(s, p)[i], Filter(s, p)[j])
    decreases |s|
  {
    if s != [] {
      FilterPairwise(s[1..], p, rel);
      var rest := Filter(s[1..], p);
      var r := Filter(s, p);
      if p(s[0]) {
        assert r == [s[0]] + rest;
        forall j, k | 0 <= j < k < |r| ensures rel(r[j], r[k]) {
          assert r[k] == rest[k - 1];
          if j > 0 {
            assert r[j] == rest[j - 1];
          } else {
            assert rest[k - 1] in s[1..];
            var m :| 0 <= m < |s[1..]| && s[1..][m] == rest[k - 1];
            assert s[m + 1] == r[k];
          }
        }
      } else {
        assert r == rest;
      }
    }
  }

  /** LIMIT `limit` OFFSET `offset`: the rows from position `offset` on, at most `limit` of them. */
  function Window<T>(s: seq<T>, offset: nat, limit: nat): seq<T> {
    if offset >= |s| then []
    else if offset + limit >= |s| then s[offset..]
    else s[offset..offset + limit]
  }

  lemma {:induction false} WindowSpec<T>(s: seq<T>, offset: nat, limit: nat)
    ensures |Window(s, offset, limit)| == if offset >= |s| then 0 else if offset + limit >= |s| then |s| - offset else limit
    ensures forall k :: 0 <= k < |Window(s, offset, limit)| ==> Window(s, offset, limit)[k] == s[offset + k]
  {
  }
  /** Two positions holding `x` make its multiplicity at least two, and back. */
  lemma {:induction false} TwiceInMultiset<T>(a: seq<T>, x: T)
    ensures multiset(a)[x] >= 2 <==> exists i, j :: 0 <= i < j < |a| && a[i] == x && a[j] == x
    decreases |a|
  {
    if a != [] {
      TwiceInMultiset(a[1..], x);
      assert a == [a[0]] + a[1..];
      assert multiset(a)[x] == (if a[0] == x then 1 else 0) + multiset(a[1..])[x];
      if exists i, j :: 0 <= i < j < |a| && a[i] == x && a[j] == x {
        var i, j :| 0 <= i < j < |a| && a[i] == x && a[j] == x;
        if i == 0 {
          assert a[1..][j - 1] == x;
        } else {
          assert a[1..][i - 1] == x && a[1..][j - 1] == x;
        }
      }
      if multiset(a[1..])[x] >= 2 {
        var i, j :| 0 <= i < j < |a[1..]| && a[1..][i] == x && a[1..][j] == x;
        assert a[i + 1] == x && a[j + 1] == x;
      } else if a[0] == x && multiset(a[1..])[x] >= 1 {
        assert x in a[1..];
        var j :| 0 <= j < |a[1..]| && a[1..][j] == x;
        assert a[j + 1] == x;
      }
    }
  }

  /** No two rows share a key. */
  predicate DistinctBy<T, K(==)>(s: seq<T>, key: T -> K) {
    forall i, j :: 0 <= i < j < |s| ==> key(s[i]) != key(s[j])
  }

  /** Reordering rows keeps their keys distinct. */
  lemma {:induction false} DistinctByPermutation<T, K>(a: seq<T>, b: seq<T>, key: T -> K)
    requires multiset(a) == multiset(b)
    requires DistinctBy(a, key)
    ensures DistinctBy(b, key)
  {
    forall i, j | 0 <= i < j < |b| ensures key(b[i]) != key(b[j]) {
      if key(b[i]) == key(b[j]) {
        assert b[i] in multiset(a) && b[j] in multiset(a);
        var p :| 0 <= p < |a| && a[p] == b[i];
        var q :| 0 <= q < |a| && a[q] == b[j];
        if p == q {
          TwiceInMultiset(b, b[i]);
          TwiceInMultiset(a, b[i]);
        }
      }
    }
  }
}
