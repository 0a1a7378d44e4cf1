/** Byte strings as the Go sources use them: order, prefixes and splitting. */
module Text {

  /** Go's `<` on strings: lexicographic, a proper prefix comes first. */
  predicate Less(a: string, b: string)
  {
    if b == [] then false
    else if a == [] then true
    else if a[0] != b[0] then a[0] < b[0]
    else Less(a[1..], b[1..])
  }

  /** Where `a` parts from a greater `b`: there `a` ends or has the smaller byte. */
  predicate PartsAt(a: string, b: string, k: nat)
  {
    k <= |a| && k < |b| && a[..k] == b[..k] && (k == |a| || a[k] < b[k])
  }

  ghost predicate Earlier(a: string, b: string) { exists k: nat :: PartsAt(a, b, k) }

  /** The recursive comparison is decided at the first byte where the strings differ. */
  lemma {:induction false} LessIff(a: string, b: string)
    ensures Less(a, b) <==> Earlier(a, b)
  {
    forall k: nat | PartsAt(a, b, k) && k > 0 ensures a != [] && a[0] == b[0] { assert a[0] == a[..k][0] == b[..k][0]; }
    if a == [] || b == [] || a[0] != b[0] {
      if Less(a, b) { assert PartsAt(a, b, 0); }
    } else {
      LessIff(a[1..], b[1..]);
      if k: nat :| PartsAt(a[1..], b[1..], k) {
        assert a[..k + 1] == [a[0]] + a[1..][..k] && b[..k + 1] == [b[0]] + b[1..][..k];
        assert PartsAt(a, b, k + 1);
      }
      if k: nat :| PartsAt(a, b, k) {
        assert a[1..][..k - 1] == a[..k][1..] && b[1..][..k - 1] == b[..k][1..];
        assert PartsAt(a[1..], b[1..], k - 1);
      }
    }
  }

  lemma {:induction false} LessIrreflexive(a: string)
    ensures !Less(a, a)
  {
    if a != [] { LessIrreflexive(a[1..]); }
  }

  lemma {:induction false} LessTotal(a: string, b: string)
    ensures Less(a, b) || Less(b, a) || a == b
  {
    if a != [] && b != [] && a[0] == b[0] {
      LessTotal(a[1..], b[1..]);
      if a[1..] == b[1..] {
        assert a == [a[0]] + a[1..] && b == [b[0]] + b[1..];
      }
    }
  }

  lemma {:induction false} LessTransitive(a: string, b: string, c: string)
    requires Less(a, b) && Less(b, c)
    ensures Less(a, c)
  {
    if a != [] && b != [] && a[0] == b[0] && c[0] == b[0] {
      LessTransitive(a[1..], b[1..], c[1..]);
    }
  }

  /** The non-strict order that `!(b < a)` gives a comparator. */
  predicate Le(a: string, b: string) { !Less(b, a) }

  lemma LeIsTotalOrder()
    ensures forall a, b :: Le(a, b) || Le(b, a)
    ensures forall a, b, c :: Le(a, b) && Le(b, c) ==> Le(a, c)
    ensures forall a, b :: Le(a, b) && Le(b, a) ==> a == b
  {
    forall a, b ensures Le(a, b) || Le(b, a) { if Less(a, b) { LessAsymmetric(a, b); } }
    forall a, b, c | Le(a, b) && Le(b, c) ensures Le(a, c) { LeTransitive(a, b, c); }
    forall a, b | Le(a, b) && Le(b, a) ensures a == b { LessTotal(a, b); }
  }

  /** Ordered by the first string, then by the second. */
  predicate PairLe(a1: string, a2: string, b1: string, b2: string) { Less(a1, b1) || (a1 == b1 && Le(a2, b2)) }

  /** By the first string, and among equal ones by the second. */
  lemma PairLeIff(a1: string, a2: string, b1: string, b2: string)
    ensures PairLe(a1, a2, b1, b2) <==> Earlier(a1, b1) || (a1 == b1 && (a2 == b2 || Earlier(a2, b2)))
  {
    LessIff(a1, b1);
    LessIff(a2, b2);
    LessTotal(a2, b2);
    LessIrreflexive(a2);
    if Less(a2, b2) { LessAsymmetric(a2, b2); }
  }

  lemma PairLeTotal(a1: string, a2: string, b1: string, b2: string)
    ensures PairLe(a1, a2, b1, b2) || PairLe(b1, b2, a1, a2)
  {
    LessTotal(a1, b1);
    if Less(a2, b2) && Less(b2, a2) {
      LessTransitive(a2, b2, a2);
      LessIrreflexive(a2);
    }
  }

  lemma PairLeTransitive(a1: string, a2: string, b1: string, b2: string, c1: string, c2: string)
    requires PairLe(a1, a2, b1, b2) && PairLe(b1, b2, c1, c2)
    ensures PairLe(a1, a2, c1, c2)
  {
    if Less(a1, b1) && Less(b1, c1) { LessTransitive(a1, b1, c1); }
    LessIrreflexive(a1);
    if a1 == b1 == c1 { LeTransitive(a2, b2, c2); }
  }

  lemma LeTransitive(a: string, b: string, c: string)
    requires Le(a, b) && Le(b, c)
    ensures Le(a, c)
  {
    LessTotal(a, b);
    LessTotal(b, c);
    if Less(c, a) && a != b { LessTransitive(c, a, b); }
  }

  lemma LessAsymmetric(a: string, b: string)
    requires Less(a, b)
    ensures !Less(b, a)
  {
    if Less(b, a) {
      LessTransitive(a, b, a);
      LessIrreflexive(a);
    }
  }

  /** Pairs below each other are equal. */
  lemma PairLeAntisymmetric(a1: string, a2: string, b1: string, b2: string)
    requires PairLe(a1, a2, b1, b2) && PairLe(b1, b2, a1, a2)
    ensures a1 == b1 && a2 == b2
  {
    if Less(a1, b1) {
      LessAsymmetric(a1, b1);
      LessIrreflexive(a1);
    }
    LessIrreflexive(a1);
    LessTotal(a2, b2);
  }

  predicate HasPrefix(s: string, p: string) { |p| <= |s| && s[..|p|] == p }

  /** The first position of `c` from `i` on, or |s|. */
  function IndexFrom(s: string, c: char, i: nat): (k: nat)
    requires i <= |s|
    ensures i <= k <= |s|
    ensures k < |s| ==> s[k] == c
    ensures forall j :: i <= j < k ==> s[j] != c
    decreases |s| - i
  {
    if i == |s| || s[i] == c then i else IndexFrom(s, c, i + 1)
  }

  /** `strings.Index` for one byte: the first position of `c`, or |s|. */
  function IndexOf(s: string, c: char): (k: nat)
    ensures k <= |s|
    ensures k < |s| ==> s[k] == c
    ensures forall j :: 0 <= j < k ==> s[j] != c
  {
    IndexFrom(s, c, 0)
  }

  /** `strings.Split` on a one-byte separator: never empty. */
  function Split(s: string, sep: char): (parts: seq<string>)
    ensures |parts| > 0
    ensures forall i :: 0 <= i < |parts| ==> sep !in parts[i]
    ensures Join(parts, sep) == s
    decreases |s|
  {
    var k := IndexOf(s, sep);
    if k == |s| then
      assert s[..k] == s;
      [s]
    else
      var rest := Split(s[k + 1..], sep);
      assert s == s[..k] + [sep] + s[k + 1..];
      assert ([s[..k]] + rest)[1..] == rest;
      [s[..k]] + rest
  }

  function Join(parts: seq<string>, sep: char): string
  {
    if parts == [] then ""
    else if |parts| == 1 then parts[0]
    else parts[0] + [sep] + Join(parts[1..], sep)
  }

  /** The first position is the only one with nothing before it. */
  lemma IndexOfIs(s: string, c: char, k: nat)
    requires k <= |s| && (k < |s| ==> s[k] == c) && forall j :: 0 <= j < k ==> s[j] != c
    ensures IndexOf(s, c) == k
  {
  }

  lemma IndexOfAppend(a: string, c: char, b: string)
    requires c !in a
    ensures IndexOf(a + [c] + b, c) == |a|
  {
    IndexOfIs(a + [c] + b, c, |a|);
  }

  /** `x` stands in `s` between separators, or a separator and an end. */
  predicate FieldAt(s: string, sep: char, x: string, i: nat)
  {
    && i + |x| <= |s| && s[i..i + |x|] == x
    && (i == 0 || s[i - 1] == sep) && (i + |x| == |s| || s[i + |x|] == sep)
  }

  ghost predicate HasField(s: string, sep: char, x: string) { exists i: nat :: FieldAt(s, sep, x, i) }

  /** A field in front ends at the first separator. */
  lemma FirstField(s: string, sep: char, x: string)
    requires sep !in x
    ensures FieldAt(s, sep, x, 0) <==> x == s[..IndexOf(s, sep)]
  {
    if FieldAt(s, sep, x, 0) {
      forall j | 0 <= j < |x| ensures s[j] != sep { assert s[j] == s[..|x|][j] == x[j]; }
      IndexOfIs(s, sep, |x|);
    }
  }

  /** Other fields lie behind the first separator. */
  lemma LaterFieldStarts(s: string, sep: char, x: string, i: nat)
    requires i > 0 && FieldAt(s, sep, x, i)
    ensures IndexOf(s, sep) < i
  {
  }

  lemma SubstringBehind(front: string, rest: string, i: nat, j: nat)
    requires i <= j <= |rest|
    ensures (front + rest)[|front| + i..|front| + j] == rest[i..j]
  {
  }

  lemma FieldBehind(front: string, sep: char, rest: string, x: string, i: nat)
    ensures FieldAt(front + [sep] + rest, sep, x, |front| + 1 + i) <==> FieldAt(rest, sep, x, i)
  {
    var s, k := front + [sep] + rest, |front| + 1;
    assert i > 0 && i <= |rest| ==> s[k + i - 1] == rest[i - 1];
    if i + |x| <= |rest| {
      assert i + |x| < |rest| ==> s[k + (i + |x|)] == rest[i + |x|];
      SubstringBehind(front + [sep], rest, i, i + |x|);
    }
  }

  lemma OnlyField(s: string, sep: char, x: string)
    requires sep !in s && sep !in x
    ensures HasField(s, sep, x) <==> x == s
  {
    if x == s { assert FieldAt(s, sep, x, 0); }
  }

  lemma FieldsOfSum(front: string, sep: char, rest: string, x: string)
    requires sep !in front && sep !in x
    ensures HasField(front + [sep] + rest, sep, x) <==> x == front || HasField(rest, sep, x)
  {
    var s := front + [sep] + rest;
    IndexOfAppend(front, sep, rest);
    FirstField(s, sep, x);
    assert s[..|front|] == front;
    if i: nat :| i > 0 && FieldAt(s, sep, x, i) {
      LaterFieldStarts(s, sep, x, i);
      FieldBehind(front, sep, rest, x, i - |front| - 1);
    }
    if i: nat :| FieldAt(rest, sep, x, i) { FieldBehind(front, sep, rest, x, i); }
  }

  /** The parts of a split are the fields of the text. */
  lemma {:induction false} SplitHasFields(s: string, sep: char, x: string)
    requires sep !in x
    ensures x in Split(s, sep) <==> HasField(s, sep, x)
    decreases |s|
  {
    var k := IndexOf(s, sep);
    if k < |s| {
      SplitHasFields(s[k + 1..], sep, x);
      FieldsOfSum(s[..k], sep, s[k + 1..], x);
      assert s == s[..k] + [sep] + s[k + 1..];
    } else {
      OnlyField(s, sep, x);
    }
  }

  lemma SplitSum(front: string, sep: char, rest: string)
    requires sep !in front
    ensures Split(front + [sep] + rest, sep) == [front] + Split(rest, sep)
  {
    var s := front + [sep] + rest;
    IndexOfAppend(front, sep, rest);
    assert s[..|front|] == front && s[|front| + 1..] == rest;
  }

  lemma SplitWhole(s: string, sep: char)
    requires sep !in s
    ensures Split(s, sep) == [s]
  {
    IndexOfIs(s, sep, |s|);
  }

  /** Splitting undoes joining: pieces free of the separator come back one for one. */
  lemma {:induction false} SplitJoin(parts: seq<string>, sep: char)
    requires |parts| > 0
    requires forall i :: 0 <= i < |parts| ==> sep !in parts[i]
    ensures Split(Join(parts, sep), sep) == parts
  {
    var s := Join(parts, sep);
    if |parts| == 1 {
      assert IndexOf(s, sep) == |s|;
    } else {
      var rest := Join(parts[1..], sep);
      IndexOfAppend(parts[0], sep, rest);
      assert s[..|parts[0]|] == parts[0] && s[|parts[0]| + 1..] == rest;
      SplitJoin(parts[1..], sep);
    }
  }
}
