/** Filtering and stable sorting of sequences, with the facts that pin a stable sort down. */
module Sorting {

  function Filter<T(!new)>(s: seq<T>, keep: T -> bool): (r: seq<T>)
    ensures forall x :: x in r <==> x in s && keep(x)
  {
    if s == [] then []
    else (if keep(s[0]) then [s[0]] else []) + Filter(s[1..], keep)
  }

  lemma {:induction false} FilterConcat<T(!new)>(a: seq<T>, b: seq<T>, keep: T -> bool)
    ensures Filter(a + b, keep) == Filter(a, keep) + Filter(b, keep)
  {
    if a == [] {
      assert a + b == b;
    } else {
      assert (a + b)[1..] == a[1..] + b;
      FilterConcat(a[1..], b, keep);
    }
  }

  lemma FilterCons<T(!new)>(x: T, s: seq<T>, keep: T -> bool)
    ensures Filter([x] + s, keep) == (if keep(x) then [x] else []) + Filter(s, keep)
  {
    assert ([x] + s)[1..] == s;
  }

  lemma {:induction false} FilterNone<T(!new)>(s: seq<T>, keep: T -> bool)
    requires forall x :: x in s ==> !keep(x)
    ensures Filter(s, keep) == []
  {
    if s != [] {
      FilterNone(s[1..], keep);
    }
  }

  lemma {:induction false} FilterAll<T(!new)>(s: seq<T>, keep: T -> bool)
    requires forall x :: x in s ==> keep(x)
    ensures Filter(s, keep) == s
  {
    if s != [] {
      FilterAll(s[1..], keep);
    }
  }

  lemma {:induction false} FilterSame<T(!new)>(s: seq<T>, keep: T -> bool, same: T -> bool)
    requires forall x :: x in s ==> keep(x) == same(x)
    ensures Filter(s, keep) == Filter(s, same)
  {
    if s != [] {
      FilterSame(s[1..], keep, same);
    }
  }

  lemma FilterOne<T(!new)>(x: T, keep: T -> bool)
    ensures Filter([x], keep) == if keep(x) then [x] else []
  {
    assert [x][1..] == [];
  }

  /** Filtering twice is filtering once by both conditions. */
  lemma {:induction false} FilterTwice<T(!new)>(s: seq<T>, first: T -> bool, second: T -> bool, both: T -> bool)
    requires forall x :: x in s ==> both(x) == (first(x) && second(x))
    ensures Filter(Filter(s, first), second) == Filter(s, both)
  {
    if s != [] {
      hide Filter;
      var x, rest := s[0], s[1..];
      FilterTwice(rest, first, second, both);
      assert s == [x] + rest && x in s;
      FilterCons(x, rest, first);
      FilterCons(x, rest, both);
      FilterCons(x, Filter(rest, first), second);
      assert [] + Filter(rest, first) == Filter(rest, first) && [] + Filter(rest, both) == Filter(rest, both);
    } else {
      assert Filter<T>([], first) == [];
    }
  }

  lemma {:induction false} FilterShrinks<T(!new)>(s: seq<T>, keep: T -> bool)
    ensures |Filter(s, keep)| <= |s|
  {
    if s != [] {
      FilterShrinks(s[1..], keep);
    }
  }

  /** No two elements have one key. */
  ghost predicate DistinctBy<T(!new), K(!new)>(s: seq<T>, key: T -> K) {
    forall i, j :: 0 <= i < j < |s| ==> key(s[i]) != key(s[j])
  }

  lemma {:induction false} FilterKeepsDistinct<T(!new), K(!new)>(s: seq<T>, keep: T -> bool, key: T -> K)
    requires DistinctBy(s, key)
    ensures DistinctBy(Filter(s, keep), key)
  {
    if s != [] {
      var rest := Filter(s[1..], keep);
      FilterKeepsDistinct(s[1..], keep, key);
      forall k | 0 <= k < |rest| ensures key(rest[k]) != key(s[0]) {
        assert rest[k] in s[1..];
      }
    }
  }

  /** The first position that satisfies `wanted`, or the length if none does. */
  function FirstWhere<T(!new)>(s: seq<T>, wanted: T -> bool): (i: nat)
    ensures i <= |s|
    ensures i < |s| ==> wanted(s[i])
    ensures forall j :: 0 <= j < i ==> !wanted(s[j])
  {
    if s == [] || wanted(s[0]) then 0 else 1 + FirstWhere(s[1..], wanted)
  }

  function Take<T>(s: seq<T>, n: nat): seq<T> { if n <= |s| then s[..n] else s }

  /** `before(a, b)` says that a must come earlier than b; ties keep their order. */
  ghost predicate Ordering<T(!new)>(before: (T, T) -> bool) {
    && (forall a, b :: before(a, b) ==> !before(b, a))
    && (forall a, b, c :: before(a, c) ==> before(a, b) || before(b, c))
  }

  ghost predicate Sorted<T>(s: seq<T>, before: (T, T) -> bool) {
    forall i, j :: 0 <= i < j < |s| ==> !before(s[j], s[i])
  }

  function Tied<T>(before: (T, T) -> bool, x: T): T -> bool { y => !before(x, y) && !before(y, x) }

  function Insert<T>(x: T, s: seq<T>, before: (T, T) -> bool): seq<T> {
    if s == [] then [x]
    else if before(s[0], x) then [s[0]] + Insert(x, s[1..], before)
    else [x] + s
  }

  /** A stable sort. */
  function Sort<T>(s: seq<T>, before: (T, T) -> bool): seq<T> {
    if s == [] then [] else Insert(s[0], Sort(s[1..], before), before)
  }

  lemma {:induction false} InsertMembers<T(!new)>(x: T, s: seq<T>, before: (T, T) -> bool)
    ensures multiset(Insert(x, s, before)) == multiset{x} + multiset(s)
    ensures |Insert(x, s, before)| == 1 + |s|
    ensures forall y :: y in Insert(x, s, before) <==> y == x || y in s
  {
    if s != [] {
      var head, rest := s[0], s[1..];
      assert s == [head] + rest;
      InsertMembers(x, rest, before);
      if before(head, x) {
        assert Insert(x, s, before) == [head] + Insert(x, rest, before);
      }
    }
  }

  lemma {:induction false} InsertSorted<T(!new)>(x: T, s: seq<T>, before: (T, T) -> bool)
    requires Ordering(before) && Sorted(s, before)
    ensures Sorted(Insert(x, s, before), before)
  {
    if s != [] {
      if before(s[0], x) {
        var r := Insert(x, s[1..], before);
        InsertSorted(x, s[1..], before);
        InsertMembers(x, s[1..], before);
        forall j | 0 <= j < |r| ensures !before(r[j], s[0]) {
          assert r[j] in r;
        }
      } else {
        forall j | 0 <= j < |s| ensures !before(s[j], x) {
          assert j > 0 ==> !before(s[j], s[0]);
        }
      }
    }
  }

  /** Inserting in front of its ties: x comes first among them. */
  lemma {:induction false} InsertStable<T(!new)>(x: T, s: seq<T>, before: (T, T) -> bool, z: T)
    requires Ordering(before)
    ensures Filter(Insert(x, s, before), Tied(before, z)) == Filter([x] + s, Tied(before, z))
  {
    if s != [] && before(s[0], x) {
      hide Filter;
      var keep := Tied(before, z);
      assert !(keep(s[0]) && keep(x));
      InsertStable(x, s[1..], before, z);
      assert Insert(x, s, before) == [s[0]] + Insert(x, s[1..], before);
      hide Insert;
      FilterCons(s[0], Insert(x, s[1..], before), keep);
      FilterCons(x, s[1..], keep);
      FilterCons(x, s, keep);
      assert s == [s[0]] + s[1..];
      FilterCons(s[0], s[1..], keep);
    }
  }

  /** The result is sorted, holds the same elements, and keeps the order of ties. */
  lemma {:induction false} SortIsStable<T(!new)>(s: seq<T>, before: (T, T) -> bool)
    requires Ordering(before)
    ensures Sorted(Sort(s, before), before)
    ensures multiset(Sort(s, before)) == multiset(s) && |Sort(s, before)| == |s|
    ensures forall z :: Filter(Sort(s, before), Tied(before, z)) == Filter(s, Tied(before, z))
  {
    if s != [] {
      var rest := Sort(s[1..], before);
      SortIsStable(s[1..], before);
      InsertSorted(s[0], rest, before);
      InsertMembers(s[0], rest, before);
      assert s == [s[0]] + s[1..];
      forall z ensures Filter(Sort(s, before), Tied(before, z)) == Filter(s, Tied(before, z)) {
        InsertStable(s[0], rest, before, z);
        FilterConcat([s[0]], rest, Tied(before, z));
        FilterConcat([s[0]], s[1..], Tied(before, z));
      }
    }
  }

  lemma SortMembers<T(!new)>(s: seq<T>, before: (T, T) -> bool)
    ensures forall x :: x in Sort(s, before) <==> x in s
  {
    if s != [] {
      SortMembers(s[1..], before);
      InsertMembers(s[0], Sort(s[1..], before), before);
    }
  }

  /**
   * Keeping the first n of a stable sort keeps the n that rank highest: as many as fit, in order,
   * and nothing left out ranks above anything kept.
   */
  lemma BestAreKept<T(!new)>(s: seq<T>, before: (T, T) -> bool, n: nat)
    requires Ordering(before)
    ensures var kept := Take(Sort(s, before), n);
      && |kept| == (if |s| < n then |s| else n)
      && multiset(kept) <= multiset(s)
      && Sorted(kept, before)
      && (forall a, k :: a in multiset(s) - multiset(kept) && k in kept ==> !before(a, k))
  {
    hide Filter;
    hide Sort;
    var ranked, kept := Sort(s, before), Take(Sort(s, before), n);
    SortIsStable(s, before);
    var rest := ranked[|kept|..];
    assert ranked == kept + rest;
    assert multiset(s) - multiset(kept) == multiset(rest);
    forall a, k | a in multiset(rest) && k in kept ensures !before(a, k) {
      var j :| 0 <= j < |rest| && rest[j] == a;
      var i :| 0 <= i < |kept| && kept[i] == k;
      assert ranked[|kept| + j] == a && ranked[i] == k;
    }
  }

  /** Filtering keeps the order of what it keeps. */
  lemma {:induction false} FilterKeepsOrder<T(!new)>(s: seq<T>, keep: T -> bool, i: nat, j: nat) returns (a: nat, b: nat)
    requires i < j < |s| && keep(s[i]) && keep(s[j])
    ensures a < b < |Filter(s, keep)| && Filter(s, keep)[a] == s[i] && Filter(s, keep)[b] == s[j]
  {
    var front := if keep(s[0]) then 1 else 0;
    if i == 0 {
      assert s[j] in Filter(s[1..], keep);
      var k :| 0 <= k < |Filter(s[1..], keep)| && Filter(s[1..], keep)[k] == s[j];
      a, b := 0, k + 1;
    } else {
      a, b := FilterKeepsOrder(s[1..], keep, i - 1, j - 1);
      a, b := a + front, b + front;
    }
  }

  lemma {:induction false} FilterKeepsSorted<T(!new)>(s: seq<T>, keep: T -> bool, before: (T, T) -> bool)
    requires Sorted(s, before)
    ensures Sorted(Filter(s, keep), before)
  {
    if s != [] {
      var rest := Filter(s[1..], keep);
      FilterKeepsSorted(s[1..], keep, before);
      forall j | 0 <= j < |rest| ensures !before(rest[j], s[0]) {
        assert rest[j] in s[1..];
        var k :| 0 <= k < |s[1..]| && s[1..][k] == rest[j];
        assert s[k + 1] == rest[j];
      }
    }
  }

  /** The same by membership: what is kept was there, and what is not kept found no room and ranks above nothing kept. */
  lemma NothingBetterIsCut<T(!new)>(s: seq<T>, before: (T, T) -> bool, n: nat)
    requires Ordering(before)
    ensures var kept := Take(Sort(s, before), n);
      && |kept| <= n && Sorted(kept, before) && (forall k :: k in kept ==> k in s)
      && (forall a :: a in s && a !in kept ==> |kept| == n && forall k :: k in kept ==> !before(a, k))
  {
    hide Sort;
    var ranked, kept := Sort(s, before), Take(Sort(s, before), n);
    SortIsStable(s, before);
    SortMembers(s, before);
    assert kept == ranked[..|kept|];
    forall a | a in s && a !in kept ensures |kept| == n && forall k :: k in kept ==> !before(a, k) {
      var j :| 0 <= j < |ranked| && ranked[j] == a;
      forall k | k in kept ensures !before(a, k) {
        var i :| 0 <= i < |kept| && kept[i] == k;
        assert ranked[i] == k;
      }
    }
  }

  /** Sorting a list that was sorted by `first` keeps that order among the ties of `later`. */
  lemma TiesKeepFirstOrder<T(!new)>(s: seq<T>, first: (T, T) -> bool, later: (T, T) -> bool, i: nat, j: nat)
    requires Ordering(later) && Sorted(s, first) && i < j < |Sort(s, later)|
    requires Tied(later, Sort(s, later)[i])(Sort(s, later)[j])
    ensures !first(Sort(s, later)[j], Sort(s, later)[i])
  {
    hide Filter;
    hide Sort;
    var r := Sort(s, later);
    var keep := Tied(later, r[i]);
    SortIsStable(s, later);
    FilterKeepsSorted(s, keep, first);
    assert keep(r[i]);
    var a, b := FilterKeepsOrder(r, keep, i, j);
    assert Filter(r, keep) == Filter(s, keep);
  }

  lemma SortSingleton<T>(x: T, before: (T, T) -> bool)
    ensures Sort([x], before) == [x]
  {
    assert [x][1..] == [];
  }

  lemma Cancel<T>(prefix: seq<T>, a: seq<T>, b: seq<T>)
    requires prefix + a == prefix + b
    ensures a == b
  {
    assert a == (prefix + a)[|prefix|..] && b == (prefix + b)[|prefix|..];
  }

  /** Being sorted and keeping the order of ties determines the result: every stable sort returns it. */
  lemma {:induction false} StableSortIsUnique<T(!new)>(a: seq<T>, b: seq<T>, before: (T, T) -> bool)
    requires Ordering(before) && Sorted(a, before) && Sorted(b, before)
    requires forall z :: Filter(a, Tied(before, z)) == Filter(b, Tied(before, z))
    ensures a == b
  {
    if b != [] {
      assert b[0] in Filter(b, Tied(before, b[0]));
    }
    if a != [] {
      var keep := Tied(before, a[0]);
      assert a[0] in Filter(a, keep);
      assert a[0] in b;
      var k :| 0 <= k < |b| && b[k] == a[0];
      assert b[0] in a;
      var m :| 0 <= m < |a| && a[m] == b[0];
      assert keep(b[0]);
      assert Filter(a, keep)[0] == a[0] && Filter(b, keep)[0] == b[0];
      forall z ensures Filter(a[1..], Tied(before, z)) == Filter(b[1..], Tied(before, z)) {
        assert a == [a[0]] + a[1..] && b == [a[0]] + b[1..];
        FilterCons(a[0], a[1..], Tied(before, z));
        FilterCons(a[0], b[1..], Tied(before, z));
        Cancel(if Tied(before, z)(a[0]) then [a[0]] else [], Filter(a[1..], Tied(before, z)), Filter(b[1..], Tied(before, z)));
      }
      StableSortIsUnique(a[1..], b[1..], before);
    }
  }
}
