/** `sort.Strings` over a map walk: the keys in order, whatever order the walk had. */
module Keys {
  import opened Text
  import opened Sorting

  /** `names` holds exactly `keys`, each once. */
  ghost predicate Walks(names: seq<string>, keys: set<string>)
  {
    && (forall k :: k in names <==> k in keys)
    && forall i, j :: 0 <= i < j < |names| ==> names[i] != names[j]
  }

  /** `names` are exactly `keys`, in strictly ascending order. */
  ghost predicate Lists(names: seq<string>, keys: set<string>)
  {
    && (forall k :: k in names <==> k in keys)
    && forall i, j :: 0 <= i < j < |names| ==> Le(names[i], names[j]) && names[i] != names[j]
  }

  lemma WalksMore(walked: seq<string>, seen: set<string>, k: string)
    requires Walks(walked, seen) && k !in seen
    ensures Walks(walked + [k], seen + {k})
  {
    forall x ensures x in walked + [k] <==> x in seen + {k} {
      assert x in walked + [k] <==> x in walked || x == k;
    }
  }

  method Sorted(keys: set<string>) returns (names: seq<string>)
    ensures Lists(names, keys)
  {
    var todo, walked := keys, [];
    while todo != {}
      invariant todo <= keys && Walks(walked, keys - todo)
      decreases todo
    {
      var k :| k in todo;
      WalksMore(walked, keys - todo, k);
      assert keys - (todo - {k}) == (keys - todo) + {k};
      todo, walked := todo - {k}, walked + [k];
    }
    assert keys - todo == keys;
    names := Sort(walked, Le);
    SortedWalk(walked, keys);
  }

  lemma SortedWalk(walked: seq<string>, keys: set<string>)
    requires Walks(walked, keys)
    ensures Lists(Sort(walked, Le), keys)
  {
    var names := Sort(walked, Le);
    assert TotalPreorder(Le) by { LeIsTotalOrder(); }
    SortSorted(walked, Le);
    SortPermutes(walked, Le);
    forall k ensures k in names <==> k in keys {
      assert k in names <==> k in multiset(names);
      assert k in walked <==> k in multiset(walked);
    }
    DistinctPermutation(walked, names);
  }

  lemma {:induction false} CountsAtMostOne(a: seq<string>, x: string)
    requires forall i, j :: 0 <= i < j < |a| ==> a[i] != a[j]
    ensures multiset(a)[x] <= 1
  {
    if a != [] {
      assert a == [a[0]] + a[1..];
      CountsAtMostOne(a[1..], x);
      if x == a[0] { assert x !in a[1..]; }
    }
  }

  lemma DistinctPermutation(a: seq<string>, b: seq<string>)
    requires multiset(a) == multiset(b) && forall i, j :: 0 <= i < j < |a| ==> a[i] != a[j]
    ensures forall i, j :: 0 <= i < j < |b| ==> b[i] != b[j]
  {
    forall i, j | 0 <= i < j < |b| ensures b[i] != b[j] {
      CountsAtMostOne(a, b[i]);
      assert b == b[..j] + [b[j]] + b[j + 1..];
      assert multiset(b[..j])[b[i]] >= 1 by { assert b[i] in b[..j]; }
      assert multiset(b) == multiset(b[..j]) + multiset{b[j]} + multiset(b[j + 1..]);
    }
  }
}
