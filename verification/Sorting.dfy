/**
 Go's `sort` package as a specification: a sorted permutation that keeps the order of ties.
 `sort.Slice` does not promise stability; SortUnique shows that it does not matter when the
 comparator separates the elements.
 */
module Sorting {

  ghost predicate TotalPreorder<T(!new)>(le: (T, T) -> bool)
  {
    && (forall x, y :: le(x, y) || le(y, x))
    && (forall x, y, z :: le(x, y) && le(y, z) ==> le(x, z))
  }

  ghost predicate SortedBy<T>(s: seq<T>, le: (T, T) -> bool)
  {
    forall i, j :: 0 <= i < j < |s| ==> le(s[i], s[j])
  }

  function Insert<T>(x: T, s: seq<T>, le: (T, T) -> bool): seq<T>
  {
    if s == [] || le(x, s[0]) then [x] + s else [s[0]] + Insert(x, s[1..], le)
  }

  function Sort<T>(s: seq<T>, le: (T, T) -> bool): seq<T>
  {
    if s == [] then [] else Insert(s[0], Sort(s[1..], le), le)
  }

  lemma {:induction false} InsertPermutes<T>(x: T, s: seq<T>, le: (T, T) -> bool)
    ensures multiset(Insert(x, s, le)) == multiset{x} + multiset(s)
  {
    if s != [] && !le(x, s[0]) {
      InsertPermutes(x, s[1..], le);
      assert s == [s[0]] + s[1..];
    }
  }

  lemma {:induction false} SortPermutes<T>(s: seq<T>, le: (T, T) -> bool)
    ensures multiset(Sort(s, le)) == multiset(s)
  {
    if s != [] {
      SortPermutes(s[1..], le);
      InsertPermutes(s[0], Sort(s[1..], le), le);
      assert s == [s[0]] + s[1..];
    }
  }

  lemma {:induction false} InsertSorted<T(!new)>(x: T, s: seq<T>, le: (T, T) -> bool)
    requires TotalPreorder(le) && SortedBy(s, le)
    ensures SortedBy(Insert(x, s, le), le)
  {
    if s == [] || le(x, s[0]) {
      var r := [x] + s;
      forall i, j | 0 <= i < j < |r| ensures le(r[i], r[j]) {
        if i == 0 { assert le(s[0], s[j - 1]) || j == 1; } else { assert le(s[i - 1], s[j - 1]); }
      }
    } else {
      InsertSorted(x, s[1..], le);
      InsertPermutes(x, s[1..], le);
      var t := Insert(x, s[1..], le);
      forall y | y in t ensures le(s[0], y) {
        assert y in multiset(t);
        if y != x { assert y in s[1..]; }
      }
    }
  }

  lemma {:induction false} SortSorted<T(!new)>(s: seq<T>, le: (T, T) -> bool)
    requires TotalPreorder(le)
    ensures SortedBy(Sort(s, le), le)
  {
    if s != [] {
      SortSorted(s[1..], le);
      InsertSorted(s[0], Sort(s[1..], le), le);
    }
  }

  /** `first` holds of every tie in order: how an earlier sort shows through a later stable one. */
  ghost predicate TiesBy<T>(s: seq<T>, le: (T, T) -> bool, first: (T, T) -> bool)
  {
    forall i, j :: 0 <= i < j < |s| && le(s[j], s[i]) ==> first(s[i], s[j])
  }

  lemma TiesCons<T>(x: T, s: seq<T>, le: (T, T) -> bool, first: (T, T) -> bool)
    requires TiesBy(s, le, first) && forall y :: y in s && le(y, x) ==> first(x, y)
    ensures TiesBy([x] + s, le, first)
  {
    var r := [x] + s;
    forall i, j | 0 <= i < j < |r| && le(r[j], r[i]) ensures first(r[i], r[j]) {
      assert r[j] == s[j - 1];
      if i == 0 { assert r[j] in s; } else { assert r[i] == s[i - 1]; }
    }
  }

  lemma TiesTail<T>(s: seq<T>, le: (T, T) -> bool, first: (T, T) -> bool)
    requires s != [] && TiesBy(s, le, first)
    ensures TiesBy(s[1..], le, first) && forall y :: y in s[1..] && le(y, s[0]) ==> first(s[0], y)
  {
  }

  lemma {:induction false} InsertStable<T(!new)>(x: T, s: seq<T>, le: (T, T) -> bool, first: (T, T) -> bool)
    requires TotalPreorder(le) && SortedBy(s, le) && TiesBy(s, le, first)
    requires forall y :: y in s ==> first(x, y)
    ensures TiesBy(Insert(x, s, le), le, first)
  {
    if s == [] || le(x, s[0]) {
      TiesCons(x, s, le, first);
    } else {
      TiesTail(s, le, first);
      var t := Insert(x, s[1..], le);
      InsertStable(x, s[1..], le, first);
      InsertPermutes(x, s[1..], le);
      forall y | y in t && le(y, s[0]) ensures first(s[0], y) {
        assert y in multiset(t);
        assert y == x || y in s[1..];
      }
      TiesCons(s[0], t, le, first);
    }
  }

  /** Stability: sorting a list already ordered by `first` leaves ties in that order. */
  lemma {:induction false} SortStable<T(!new)>(s: seq<T>, le: (T, T) -> bool, first: (T, T) -> bool)
    requires TotalPreorder(le) && SortedBy(s, first)
    ensures TiesBy(Sort(s, le), le, first)
  {
    if s != [] {
      SortStable(s[1..], le, first);
      SortSorted(s[1..], le);
      SortPermutes(s[1..], le);
      var t := Sort(s[1..], le);
      forall y | y in t ensures first(s[0], y) {
        assert y in multiset(t);
        var k :| 0 <= k < |s[1..]| && s[1..][k] == y;
        assert first(s[0], s[k + 1]);
      }
      InsertStable(s[0], t, le, first);
    }
  }

  lemma HeadIsLeast<T>(a: seq<T>, y: T, le: (T, T) -> bool)
    requires SortedBy(a, le) && y in a && y != a[0]
    ensures le(a[0], y)
  {
    var j :| 0 <= j < |a| && a[j] == y;
  }

  lemma SameTail<T>(x: T, a: seq<T>, b: seq<T>)
    requires multiset([x] + a) == multiset([x] + b)
    ensures multiset(a) == multiset(b)
  {
    assert multiset([x] + a) - multiset{x} == multiset(a);
    assert multiset([x] + b) - multiset{x} == multiset(b);
  }

  lemma SameHead<T>(a: seq<T>, b: seq<T>, le: (T, T) -> bool)
    requires SortedBy(a, le) && SortedBy(b, le) && multiset(a) == multiset(b) && a != [] && b != []
    requires forall i, j :: 0 <= i < j < |a| && le(a[j], a[i]) ==> a[i] == a[j]
    ensures a[0] == b[0]
  {
    assert a[0] in multiset(b) && b[0] in multiset(a);
    if a[0] != b[0] {
      HeadIsLeast(a, b[0], le);
      HeadIsLeast(b, a[0], le);
    }
  }

  /** A comparator that tells the elements apart has one sorted permutation. */
  lemma {:induction false} SortUnique<T>(a: seq<T>, b: seq<T>, le: (T, T) -> bool)
    requires SortedBy(a, le) && SortedBy(b, le) && multiset(a) == multiset(b)
    requires forall i, j :: 0 <= i < j < |a| && le(a[j], a[i]) ==> a[i] == a[j]
    ensures a == b
  {
    assert |a| == |multiset(a)| == |multiset(b)| == |b|;
    if a != [] {
      SameHead(a, b, le);
      assert a == [a[0]] + a[1..] && b == [a[0]] + b[1..];
      SameTail(a[0], a[1..], b[1..]);
      SortUnique(a[1..], b[1..], le);
    }
  }
}
