/** The restart tracker's records and the two ways it orders and reads them. */
module Entries {
  import opened Prelude
  import opened Text
  import opened Sorting

  /** One container that was running at the last healthy tick; `deps` is the raw depends_on label. */
  datatype Entry = Entry(
    id: string, name: string, image: string, project: string, service: string, deps: string,
    policy: string, addedAt: int, stoppedSeenAt: int)

  /** The comparator of `sortEntries`: name, then ID. */
  function EntryLe(): (Entry, Entry) -> bool
  {
    (a: Entry, b: Entry) => PairLe(a.name, a.id, b.name, b.id)
  }

  function SortEntries(es: seq<Entry>): seq<Entry> { Sort(es, EntryLe()) }

  lemma SortEntriesPermutes(es: seq<Entry>)
    ensures multiset(SortEntries(es)) == multiset(es)
  {
    SortPermutes(es, EntryLe());
  }

  ghost predicate UniqueIds(es: seq<Entry>)
  {
    forall i, j :: 0 <= i < j < |es| ==> es[i].id != es[j].id
  }

  lemma EntryLeTotal()
    ensures TotalPreorder(EntryLe())
  {
    var le := EntryLe();
    forall x: Entry, y: Entry ensures le(x, y) || le(y, x) { PairLeTotal(x.name, x.id, y.name, y.id); }
    forall x: Entry, y: Entry, z: Entry | le(x, y) && le(y, z) ensures le(x, z) {
      PairLeTransitive(x.name, x.id, y.name, y.id, z.name, z.id);
    }
  }

  /** An earlier name, or the same name and no later ID. */
  ghost predicate NameThenId(a: Entry, b: Entry)
  {
    Earlier(a.name, b.name) || (a.name == b.name && (a.id == b.id || Earlier(a.id, b.id)))
  }

  lemma EntryLeIff(a: Entry, b: Entry)
    ensures EntryLe()(a, b) <==> NameThenId(a, b)
  {
    PairLeIff(a.name, a.id, b.name, b.id);
  }

  lemma SortEntriesSorted(es: seq<Entry>)
    ensures multiset(SortEntries(es)) == multiset(es) && SortedBy(SortEntries(es), EntryLe())
    ensures var r := SortEntries(es); forall i, j :: 0 <= i < j < |r| ==> NameThenId(r[i], r[j])
  {
    SortEntriesPermutes(es);
    EntryLeTotal();
    SortSorted(es, EntryLe());
    var r := SortEntries(es);
    forall i, j | 0 <= i < j < |r| ensures NameThenId(r[i], r[j]) { EntryLeIff(r[i], r[j]); }
  }

  /**
   The unstable `sort.Slice` still has one result here: entries with unique IDs have exactly one
   ordering by name then ID.
   */
  lemma SortEntriesUnique(es: seq<Entry>, r: seq<Entry>)
    requires UniqueIds(r) && multiset(r) == multiset(es) && SortedBy(r, EntryLe())
    ensures r == SortEntries(es)
  {
    SortEntriesSorted(es);
    var le := EntryLe();
    forall i, j | 0 <= i < j < |r| ensures !le(r[j], r[i]) {
      assert le(r[i], r[j]);
      if le(r[j], r[i]) { PairLeAntisymmetric(r[i].name, r[i].id, r[j].name, r[j].id); }
    }
    SortUnique(r, SortEntries(es), EntryLe());
  }

  lemma SameMember(a: seq<Entry>, b: seq<Entry>, e: Entry)
    requires multiset(a) == multiset(b)
    ensures e in a <==> e in b
  {
    assert e in multiset(a) <==> e in multiset(b);
  }

  lemma SameId(all: seq<Entry>, a: Entry, b: Entry)
    requires UniqueIds(all) && a in all && b in all && a.id == b.id
    ensures a == b
  {
    var i :| 0 <= i < |all| && all[i] == a;
    var j :| 0 <= j < |all| && all[j] == b;
  }

  lemma {:induction false} EntryOnce(a: seq<Entry>, x: Entry)
    requires UniqueIds(a)
    ensures multiset(a)[x] <= 1
  {
    if a != [] {
      assert a == [a[0]] + a[1..];
      EntryOnce(a[1..], x);
      if x == a[0] { assert x !in a[1..]; }
    }
  }

  lemma PermutedIdsUnique(a: seq<Entry>, b: seq<Entry>)
    requires UniqueIds(a) && multiset(a) == multiset(b)
    ensures UniqueIds(b)
  {
    forall i, j | 0 <= i < j < |b| ensures b[i].id != b[j].id {
      SameMember(a, b, b[i]);
      SameMember(a, b, b[j]);
      if b[i] == b[j] {
        assert b == b[..j] + [b[j]] + b[j + 1..] && b[i] in b[..j];
        assert multiset(a)[b[i]] >= 2;
        EntryOnce(a, b[i]);
      } else if b[i].id == b[j].id {
        SameId(a, b[i], b[j]);
      }
    }
  }

  predicate IsSpace(c: char) { c == ' ' || '\t' <= c <= '\r' }

  function TrimSpace(s: string): (r: string)
    ensures |r| <= |s|
    decreases |s|
  {
    if s == [] then s
    else if IsSpace(s[0]) then TrimSpace(s[1..])
    else if IsSpace(s[|s| - 1]) then TrimSpace(s[..|s| - 1])
    else s
  }

  /** One "service:condition[:required]" piece of the label. */
  function ReadPart(part: string): (string, string)
  {
    var f := Split(TrimSpace(part), ':');
    (f[0], if |f| > 1 then f[1] else "")
  }

  function ReadParts(parts: seq<string>): map<string, string>
  {
    if parts == [] then map[]
    else
      var before, (svc, cond) := ReadParts(parts[..|parts| - 1]), ReadPart(parts[|parts| - 1]);
      if svc == "" then before else before[svc := cond]
  }

  /** The services a label names, each with its last condition. */
  function DependsOn(raw: string): map<string, string>
  {
    ReadParts(Split(raw, ','))
  }

  method ParseDependsOn(raw: string) returns (out: map<string, string>)
    ensures out == DependsOn(raw)
    ensures "" !in out
  {
    out := map[];
    var parts := Split(raw, ',');
    for i := 0 to |parts|
      invariant out == ReadParts(parts[..i])
      invariant "" !in out
    {
      assert parts[..i + 1][..i] == parts[..i];
      var f := Split(TrimSpace(parts[i]), ':');
      if f[0] == "" { continue; }
      var cond := "";
      if |f| > 1 { cond := f[1]; }
      out := out[f[0] := cond];
    }
    assert parts[..|parts|] == parts;
  }

  predicate Blank(s: string) { forall i :: 0 <= i < |s| ==> IsSpace(s[i]) }

  predicate Bare(s: string) { s == "" || (!IsSpace(s[0]) && !IsSpace(s[|s| - 1])) }

  lemma {:induction false} TrimFront(before: string, s: string)
    requires Blank(before)
    ensures TrimSpace(before + s) == TrimSpace(s)
  {
    if before == "" {
      NothingBefore(s);
    } else {
      TrimFront(before[1..], s);
      assert (before + s)[1..] == before[1..] + s;
    }
  }

  lemma {:induction false} TrimBack(s: string, after: string)
    requires Bare(s) && Blank(after)
    ensures TrimSpace(s + after) == s
  {
    if after == "" {
      NothingAfter(s);
    } else if s == "" {
      TrimFront(after, "");
      NothingAfter(after);
      NothingBefore(after);
    } else {
      var n := |after| - 1;
      TrimBack(s, after[..n]);
      assert (s + after)[..|s| + n] == s + after[..n];
    }
  }

  /** Exactly the space at the two ends goes. */
  lemma TrimMeans(before: string, s: string, after: string)
    requires Blank(before) && Bare(s) && Blank(after)
    ensures TrimSpace(before + (s + after)) == s
  {
    TrimFront(before, s + after);
    TrimBack(s, after);
  }

  /**
   A dependency as a label names it: the service, then its condition and further fields, if any,
   between blanks that do not count.
   */
  datatype Dependency = Dependency(before: string, service: string, fields: seq<string>, after: string)

  function Condition(d: Dependency): string { if d.fields == [] then "" else d.fields[0] }

  predicate Plain(s: string) { forall i :: 0 <= i < |s| ==> s[i] != ',' && s[i] != ':' && !IsSpace(s[i]) }

  predicate WellFormed(d: Dependency)
  {
    && Plain(d.service) && (forall i :: 0 <= i < |d.fields| ==> Plain(d.fields[i]))
    && Blank(d.before) && Blank(d.after)
  }

  function Written(d: Dependency): string { d.before + (Join([d.service] + d.fields, ':') + d.after) }

  function WrittenAll(ds: seq<Dependency>): seq<string> { seq(|ds|, i requires 0 <= i < |ds| => Written(ds[i])) }

  /** A dependency without a service says nothing. */
  function LastWins(ds: seq<Dependency>): map<string, string>
  {
    if ds == [] then map[]
    else
      var before, d := LastWins(ds[..|ds| - 1]), ds[|ds| - 1];
      if d.service == "" then before else before[d.service := Condition(d)]
  }

  ghost predicate LastNaming(ds: seq<Dependency>, service: string, i: nat)
  {
    i < |ds| && ds[i].service == service && forall j :: i < j < |ds| ==> ds[j].service != service
  }

  /** Each service has the condition of the last dependency that names it. */
  lemma {:induction false} LastWinsMeans(ds: seq<Dependency>, service: string, i: nat)
    requires LastNaming(ds, service, i) && service != ""
    ensures service in LastWins(ds)
    ensures LastWins(ds)[service] == if ds[i].fields == [] then "" else ds[i].fields[0]
  {
    var n := |ds| - 1;
    if i < n {
      assert ds[n].service != service;
      assert LastNaming(ds[..n], service, i);
      LastWinsMeans(ds[..n], service, i);
    }
  }

  lemma {:induction false} OnlyNamed(ds: seq<Dependency>, service: string)
    requires service in LastWins(ds)
    ensures service != "" && exists i :: 0 <= i < |ds| && ds[i].service == service
  {
    var n := |ds| - 1;
    if ds[n].service != service || service == "" {
      OnlyNamed(ds[..n], service);
      var i :| 0 <= i < n && ds[..n][i].service == service;
      assert ds[i].service == service;
    }
  }

  predicate Unbroken(s: string) { forall i :: 0 <= i < |s| ==> s[i] != ',' && !IsSpace(s[i]) }

  lemma {:induction false} JoinUnbroken(parts: seq<string>)
    requires forall i :: 0 <= i < |parts| ==> Plain(parts[i])
    ensures Unbroken(Join(parts, ':'))
  {
    if |parts| > 1 { JoinUnbroken(parts[1..]); }
  }

  lemma WrittenReads(d: Dependency)
    requires WellFormed(d)
    ensures ReadPart(Written(d)) == (d.service, Condition(d))
    ensures ',' !in Written(d)
  {
    var parts := [d.service] + d.fields;
    JoinUnbroken(parts);
    TrimMeans(d.before, Join(parts, ':'), d.after);
    SplitJoin(parts, ':');
    NoComma(d.before, Join(parts, ':'), d.after);
  }

  lemma NoComma(before: string, s: string, after: string)
    requires Blank(before) && Unbroken(s) && Blank(after)
    ensures ',' !in before + (s + after)
  {
  }

  lemma WrittenWhole(ds: seq<Dependency>)
    requires forall i :: 0 <= i < |ds| ==> WellFormed(ds[i])
    ensures forall i :: 0 <= i < |ds| ==> ',' !in WrittenAll(ds)[i]
  {
    forall i | 0 <= i < |ds| ensures ',' !in WrittenAll(ds)[i] { WrittenReads(ds[i]); }
  }

  lemma WrittenOneMore(ds: seq<Dependency>)
    requires ds != []
    ensures WrittenAll(ds) == WrittenAll(ds[..|ds| - 1]) + [Written(ds[|ds| - 1])]
  {
  }

  lemma {:induction false} WrittenPartsRead(ds: seq<Dependency>)
    requires forall i :: 0 <= i < |ds| ==> WellFormed(ds[i])
    ensures ReadParts(WrittenAll(ds)) == LastWins(ds)
  {
    if ds != [] {
      var front, last := ds[..|ds| - 1], ds[|ds| - 1];
      WrittenPartsRead(front);
      WrittenReads(last);
      WrittenOneMore(ds);
      ReadOneMore(WrittenAll(front), Written(last));
    }
  }

  lemma ReadOneMore(parts: seq<string>, last: string)
    ensures var (svc, cond) := ReadPart(last);
            ReadParts(parts + [last]) == if svc == "" then ReadParts(parts) else ReadParts(parts)[svc := cond]
  {
    assert (parts + [last])[..|parts|] == parts;
  }

  /** Reading a label compose wrote gives back its services, the last condition winning. */
  lemma DependsOnReadsLabels(ds: seq<Dependency>)
    requires ds != [] && forall i :: 0 <= i < |ds| ==> WellFormed(ds[i])
    ensures DependsOn(Join(WrittenAll(ds), ',')) == LastWins(ds)
  {
    WrittenPartsRead(ds);
    WrittenWhole(ds);
    SplitJoin(WrittenAll(ds), ',');
  }
}
