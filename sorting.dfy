/**
 * The two standard-library operations the engine applies to its result
 * vectors: a stable comparison sort (`sort_by`, `sort_by_key`) and removal of
 * adjacent repeats (`Vec::dedup`).  Both are given as functions over
 * sequences, specified by what the engine relies on.
 */
module Sorting {

  ghost predicate Total<T(!new)>(le: (T, T) -> bool)
  {
    forall a, b :: le(a, b) || le(b, a)
  }

  ghost predicate Transitive<T(!new)>(le: (T, T) -> bool)
  {
    forall a, b, c :: le(a, b) && le(b, c) ==> le(a, c)
  }

  ghost predicate Antisymmetric<T(!new)>(le: (T, T) -> bool)
  {
    forall a, b :: le(a, b) && le(b, a) ==> a == b
  }

  predicate SortedBy<T>(s: seq<T>, le: (T, T) -> bool)
  {
    forall i, j :: 0 <= i < j < |s| ==> le(s[i], s[j])
  }

  /** No value occurs twice. */
  predicate Distinct<T(==)>(s: seq<T>)
  {
    forall i, j :: 0 <= i < j < |s| ==> s[i] != s[j]
  }

  /** Insert `x` in front of the first element it is strictly below. */
  function Insert<T>(x: T, s: seq<T>, le: (T, T) -> bool): (r: seq<T>)
    ensures multiset(r) == multiset(s) + multiset{x}
    ensures |r| == |s| + 1
  {
    if s == [] then [x]
    else if le(x, s[0]) then [x] + s
    else
      assert s == [s[0]] + s[1..];
      [s[0]] + Insert(x, s[1..], le)
  }

  /** Stable insertion sort: elements that compare equal keep their order. */
  function SortBy<T>(s: seq<T>, le: (T, T) -> bool): (r: seq<T>)
    ensures multiset(r) == multiset(s)
    ensures |r| == |s|
  {
    if s == [] then []
    else
      assert s == [s[0]] + s[1..];
      Insert(s[0], SortBy(s[1..], le), le)
  }

  lemma {:induction false} InsertSorted<T(!new)>(x: T, s: seq<T>, le: (T, T) -> bool)
    requires Total(le) && Transitive(le)
    requires SortedBy(s, le)
    ensures SortedBy(Insert(x, s, le), le)
  {
    if s == [] {
    } else if le(x, s[0]) {
      assert forall y :: y in s ==> le(x, y) by {
        forall y | y in s ensures le(x, y) {
          var k :| 0 <= k < |s| && s[k] == y;
          if k > 0 {
            assert le(s[0], s[k]);
          }
        }
      }
      SortedCons(x, s, le);
    } else {
      InsertSorted(x, s[1..], le);
      var tail := Insert(x, s[1..], le);
      SortedTail(s, le);
      assert forall y :: y in tail ==> le(s[0], y) by {
        forall y | y in tail ensures le(s[0], y) {
          assert y in multiset(tail);
          if y != x {
            assert y in multiset(s[1..]);
            var k :| 0 <= k < |s[1..]| && s[1..][k] == y;
            assert s[k + 1] == y;
          }
        }
      }
      SortedCons(s[0], tail, le);
    }
  }

  /** An element below everything in a sorted sequence can go in front of it. */
  lemma SortedCons<T>(x: T, s: seq<T>, le: (T, T) -> bool)
    requires SortedBy(s, le)
    requires forall y :: y in s ==> le(x, y)
    ensures SortedBy([x] + s, le)
  {
    var r := [x] + s;
    forall i, j | 0 <= i < j < |r| ensures le(r[i], r[j]) {
      assert r[j] == s[j - 1];
      if i > 0 {
        assert r[i] == s[i - 1];
      } else {
        assert r[j] in s;
      }
    }
  }

  /** The sort orders its output (for a total preorder). */
  lemma {:induction false} SortBySorted<T(!new)>(s: seq<T>, le: (T, T) -> bool)
    requires Total(le) && Transitive(le)
    ensures SortedBy(SortBy(s, le), le)
  {
    if s != [] {
      SortBySorted(s[1..], le);
      InsertSorted(s[0], SortBy(s[1..], le), le);
    }
  }

  /** An already sorted sequence is left as it is. */
  lemma {:induction false} SortByFixed<T>(s: seq<T>, le: (T, T) -> bool)
    requires SortedBy(s, le)
    ensures SortBy(s, le) == s
  {
    if s != [] {
      assert SortedBy(s[1..], le) by {
        forall i, j | 0 <= i < j < |s[1..]| ensures le(s[1..][i], s[1..][j]) {
          assert s[1..][i] == s[i + 1] && s[1..][j] == s[j + 1];
        }
      }
      SortByFixed(s[1..], le);
      if |s| > 1 {
        assert le(s[0], s[1]);
      }
    }
  }

  /** An element in front of everything it is below stays in front. */
  lemma SortByHead<T>(x: T, r: seq<T>, le: (T, T) -> bool)
    requires forall y :: y in r ==> le(x, y)
    ensures SortBy([x] + r, le) == [x] + SortBy(r, le)
  {
    HeadAbove(x, r, le);
    SortByCons(x, r, le);
  }

  /** The sorted sequence starts with an element of the input. */
  lemma HeadAbove<T>(b: T, r: seq<T>, le: (T, T) -> bool)
    requires forall y :: y in r ==> le(b, y)
    ensures SortBy(r, le) == [] || le(b, SortBy(r, le)[0])
  {
    var sorted := SortBy(r, le);
    if sorted != [] {
      assert sorted[0] in multiset(r);
    }
  }

  /** Sorting an element in front of a sequence inserts it into the sorted rest. */
  lemma SortByCons<T>(x: T, r: seq<T>, le: (T, T) -> bool)
    ensures SortBy([x] + r, le) == Insert(x, SortBy(r, le), le)
    ensures SortBy(r, le) == [] || le(x, SortBy(r, le)[0]) ==> SortBy([x] + r, le) == [x] + SortBy(r, le)
  {
    var s := [x] + r;
    assert s[0] == x && s[1..] == r;
  }

  lemma SortedTail<T>(s: seq<T>, le: (T, T) -> bool)
    requires s != [] && SortedBy(s, le)
    ensures SortedBy(s[1..], le)
  {
    forall i, j | 0 <= i < j < |s[1..]| ensures le(s[1..][i], s[1..][j]) {
      assert s[1..][i] == s[i + 1] && s[1..][j] == s[j + 1];
    }
  }

  /** A position of an element. */
  lemma IndexOf<T>(s: seq<T>, x: T) returns (j: nat)
    requires x in s
    ensures j < |s| && s[j] == x
  {
    j :| 0 <= j < |s| && s[j] == x;
  }

  lemma MultisetTail<T>(a: seq<T>)
    requires a != []
    ensures multiset(a[1..]) == multiset(a) - multiset{a[0]}
  {
    assert a == [a[0]] + a[1..];
  }

  /** Removing the element at `k` removes one occurrence of it. */
  lemma MultisetRemove<T>(a: seq<T>, k: nat)
    requires k < |a|
    ensures multiset(a[..k] + a[k + 1..]) == multiset(a) - multiset{a[k]}
  {
    assert a == a[..k] + [a[k]] + a[k + 1..];
  }

  lemma SortedHeads<T(!new)>(a: seq<T>, b: seq<T>, le: (T, T) -> bool)
    requires Antisymmetric(le)
    requires SortedBy(a, le) && SortedBy(b, le)
    requires a != [] && multiset(a) == multiset(b)
    ensures b != [] && a[0] == b[0]
  {
    assert a[0] in multiset(b) by {
      assert a[0] in a;
    }
    var k :| 0 <= k < |b| && b[k] == a[0];
    assert b[0] in multiset(a) by {
      assert b[0] in b;
    }
    var m :| 0 <= m < |a| && a[m] == b[0];
    if k > 0 && m > 0 {
      assert le(b[0], b[k]) && le(a[0], a[m]);
    }
  }

  /** Under an antisymmetric order a sorted sequence is fixed by its multiset. */
  lemma {:induction false} SortedUnique<T(!new)>(a: seq<T>, b: seq<T>, le: (T, T) -> bool)
    requires Antisymmetric(le)
    requires SortedBy(a, le) && SortedBy(b, le)
    requires multiset(a) == multiset(b)
    ensures a == b
  {
    if a != [] {
      SortedHeads(a, b, le);
      assert a[1..] == b[1..] by {
        MultisetTail(a);
        MultisetTail(b);
        SortedTail(a, le);
        SortedTail(b, le);
        SortedUnique(a[1..], b[1..], le);
      }
      assert a == [a[0]] + a[1..];
      assert b == [b[0]] + b[1..];
    }
  }

  /** Drop every element equal to its successor (`Vec::dedup`). */
  function Dedup<T(==,!new)>(s: seq<T>): (r: seq<T>)
    ensures forall x :: x in r <==> x in s
    ensures |r| <= |s|
  {
    if |s| <= 1 then s
    else
      var rest := Dedup(s[1..]);
      assert s == [s[0]] + s[1..];
      if s[0] == s[1] then rest else [s[0]] + rest
  }

  /** Applied to a sorted sequence, `Dedup` leaves a sorted sequence without repeats. */
  lemma {:induction false} DedupSorted<T(!new)>(s: seq<T>, le: (T, T) -> bool)
    requires Antisymmetric(le)
    requires SortedBy(s, le)
    ensures SortedBy(Dedup(s), le) && Distinct(Dedup(s))
  {
    if |s| > 1 {
      var tail := s[1..];
      assert SortedBy(tail, le) by {
        forall i, j | 0 <= i < j < |tail| ensures le(tail[i], tail[j]) {
          assert tail[i] == s[i + 1] && tail[j] == s[j + 1];
        }
      }
      DedupSorted(tail, le);
      var rest := Dedup(tail);
      if s[0] != s[1] {
        var r := [s[0]] + rest;
        forall y | y in rest ensures le(s[0], y) && s[0] != y {
          assert y in tail;
          var k :| 0 <= k < |tail| && tail[k] == y;
          assert le(s[0], s[k + 1]);
        }
        forall i, j | 0 <= i < j < |r| ensures le(r[i], r[j]) && r[i] != r[j] {
          assert r[j] == rest[j - 1];
          if i > 0 {
            assert r[i] == rest[i - 1];
          } else {
            assert r[j] in rest;
          }
        }
      }
    }
  }
}
