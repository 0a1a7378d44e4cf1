/**
 The longest-common-subsequence length behind the duplicate scan, computed with one rolling row.
 */
module Lcs {
  /** `at` picks the positions of `a` that spell `s`, left to right. */
  predicate Spells<T(==)>(at: seq<nat>, s: seq<T>, a: seq<T>)
  {
    && |at| == |s|
    && (forall k :: 0 <= k < |at| ==> at[k] < |a| && a[at[k]] == s[k])
    && (forall k, l :: 0 <= k < l < |at| ==> at[k] < at[l])
  }

  ghost predicate Subsequence<T(!new)>(s: seq<T>, a: seq<T>) { exists at: seq<nat> :: Spells(at, s, a) }

  ghost predicate Common<T(!new)>(s: seq<T>, a: seq<T>, b: seq<T>) { Subsequence(s, a) && Subsequence(s, b) }

  /** The recurrence over prefixes. */
  ghost function Cell<T>(a: seq<T>, b: seq<T>, i: nat, j: nat): nat
    requires i <= |a| && j <= |b|
  {
    if i == 0 || j == 0 then 0
    else if a[i - 1] == b[j - 1] then Cell(a, b, i - 1, j - 1) + 1
    else Max(Cell(a, b, i - 1, j), Cell(a, b, i, j - 1))
  }

  function Max(x: nat, y: nat): nat { if x < y then y else x }

  lemma {:induction false} CellReached<T>(a: seq<T>, b: seq<T>, i: nat, j: nat)
    returns (s: seq<T>, p: seq<nat>, q: seq<nat>)
    requires i <= |a| && j <= |b|
    ensures Spells(p, s, a[..i]) && Spells(q, s, b[..j]) && |s| == Cell(a, b, i, j)
    decreases i + j
  {
    if i == 0 || j == 0 {
      s, p, q := [], [], [];
    } else if a[i - 1] == b[j - 1] {
      s, p, q := CellReached(a, b, i - 1, j - 1);
      s, p, q := s + [a[i - 1]], p + [i - 1], q + [j - 1];
    } else if Cell(a, b, i - 1, j) < Cell(a, b, i, j - 1) {
      s, p, q := CellReached(a, b, i, j - 1);
    } else {
      s, p, q := CellReached(a, b, i - 1, j);
    }
  }

  /** A spelling of a non-empty word that misses the last letter, or the same without its own last letter. */
  lemma DropLast<T>(at: seq<nat>, s: seq<T>, a: seq<T>, i: nat)
    requires 0 < i <= |a| && s != [] && Spells(at, s, a[..i])
    ensures Spells(at[..|s| - 1], s[..|s| - 1], a[..i - 1])
    ensures at[|s| - 1] < i - 1 ==> Spells(at, s, a[..i - 1])
    ensures at[|s| - 1] <= i - 1 && a[at[|s| - 1]] == s[|s| - 1]
  {
    assert forall k :: 0 <= k < |s| - 1 ==> at[k] < at[|s| - 1];
  }

  lemma {:induction false} CellBounds<T>(a: seq<T>, b: seq<T>, i: nat, j: nat, s: seq<T>, p: seq<nat>, q: seq<nat>)
    requires i <= |a| && j <= |b| && Spells(p, s, a[..i]) && Spells(q, s, b[..j])
    ensures |s| <= Cell(a, b, i, j)
    decreases i + j
  {
    if s == [] { return; }
    assert 0 < i by { assert p[0] < i; }
    assert 0 < j by { assert q[0] < j; }
    var n := |s| - 1;
    DropLast(p, s, a, i);
    DropLast(q, s, b, j);
    if a[i - 1] == b[j - 1] {
      CellBounds(a, b, i - 1, j - 1, s[..n], p[..n], q[..n]);
    } else if p[n] < i - 1 {
      CellBounds(a, b, i - 1, j, s, p, q);
    } else {
      CellBounds(a, b, i, j - 1, s, p, q);
    }
  }

  ghost predicate IsLcsLength<T(!new)>(a: seq<T>, b: seq<T>, n: nat)
  {
    && (exists s: seq<T> :: Common(s, a, b) && |s| == n)
    && (forall s: seq<T> :: Common(s, a, b) ==> |s| <= n)
  }

  lemma CellIsReached<T(!new)>(a: seq<T>, b: seq<T>)
    ensures exists s: seq<T> :: Common(s, a, b) && |s| == Cell(a, b, |a|, |b|)
  {
    var s, p, q := CellReached(a, b, |a|, |b|);
    assert a[..|a|] == a && b[..|b|] == b;
    assert Common(s, a, b);
  }

  lemma CellIsBound<T(!new)>(a: seq<T>, b: seq<T>, s: seq<T>)
    requires Common(s, a, b)
    ensures |s| <= Cell(a, b, |a|, |b|)
  {
    var p: seq<nat> :| Spells(p, s, a);
    var q: seq<nat> :| Spells(q, s, b);
    assert a[..|a|] == a && b[..|b|] == b;
    CellBounds(a, b, |a|, |b|, s, p, q);
  }

  lemma CellIsLcs<T(!new)>(a: seq<T>, b: seq<T>)
    ensures IsLcsLength(a, b, Cell(a, b, |a|, |b|))
  {
    CellIsReached(a, b);
    forall s: seq<T> | Common(s, a, b) ensures |s| <= Cell(a, b, |a|, |b|) { CellIsBound(a, b, s); }
  }

  /** The length is one number, the same whichever way round the sequences are given. */
  lemma LcsLengthUnique<T(!new)>(a: seq<T>, b: seq<T>, m: nat, n: nat)
    requires IsLcsLength(a, b, m)
    ensures IsLcsLength(b, a, m) && (IsLcsLength(a, b, n) ==> m == n)
  {
    var s: seq<T> :| Common(s, a, b) && |s| == m;
    assert Common(s, b, a);
    forall t: seq<T> | Common(t, b, a) ensures |t| <= m { assert Common(t, a, b); }
  }

  ghost predicate RowDone<T>(a: seq<T>, b: seq<T>, row: array<nat>, i: nat, upTo: nat)
    requires i <= |a| && upTo <= |b| + 1 && row.Length == |b| + 1
    reads row
  {
    forall j :: 0 <= j < upTo ==> row[j] == Cell(a, b, i, j)
  }

  method LcsLength<T(==, !new)>(a: seq<T>, b: seq<T>) returns (n: nat)
    ensures IsLcsLength(a, b, n)
  {
    var prev := new nat[|b| + 1](_ => 0);
    for i := 1 to |a| + 1
      invariant prev.Length == |b| + 1
      invariant RowDone(a, b, prev, i - 1, |b| + 1)
    {
      var cur := new nat[|b| + 1](_ => 0);
      for j := 1 to |b| + 1
        invariant RowDone(a, b, prev, i - 1, |b| + 1)
        invariant RowDone(a, b, cur, i, j)
      {
        var x := if a[i - 1] == b[j - 1] then prev[j - 1] + 1 else Max(prev[j], cur[j - 1]);
        assert x == Cell(a, b, i, j);
        cur[j] := x;
      }
      prev := cur;
    }
    CellIsLcs(a, b);
    n := prev[|b|];
  }
}
