/**
 The order in which a restore starts containers: standalone ones first, then each compose project
 level by level along its depends_on graph, or by name when that graph has a cycle.
 */
module RestoreOrder {
  import opened Prelude
  import opened Text
  import opened Sorting
  import opened Entries
  import Keys

  // ----- The service graph and its cycles

  /** Services to the services their labels name. */
  type Graph = map<string, set<string>>

  ghost function DepsOf(es: seq<Entry>, svc: string): set<string>
  {
    set e, d | e in es && e.service == svc && d in DependsOn(e.deps).Keys :: d
  }

  ghost function Services(es: seq<Entry>): set<string> { set e | e in es :: e.service }

  ghost function ServiceGraph(es: seq<Entry>): Graph
  {
    map s | s in Services(es) :: DepsOf(es, s)
  }

  /** A dependency between two different selected services. */
  predicate Edge(g: Graph, s: string, d: string) { s in g && d in g && d in g[s] && d != s }

  predicate IsPath(g: Graph, p: seq<string>) { forall i :: 0 <= i < |p| - 1 ==> Edge(g, p[i], p[i + 1]) }

  predicate IsCycle(g: Graph, p: seq<string>) { |p| >= 2 && IsPath(g, p) && p[0] == p[|p| - 1] }

  ghost predicate HasCycle(g: Graph) { exists p :: IsCycle(g, p) }

  /** `s` has a dependency exactly one level down. */
  ghost predicate Above(g: Graph, rank: map<string, nat>, s: string)
  {
    s in rank && exists d :: Edge(g, s, d) && d in rank && rank[d] + 1 == rank[s]
  }

  /** The level of a service is one above its highest dependency, or 0 without one. */
  ghost predicate IsLevelling(g: Graph, rank: map<string, nat>)
  {
    && rank.Keys == g.Keys
    && (forall s, d :: Edge(g, s, d) ==> rank[d] < rank[s])
    && (forall s {:trigger Above(g, rank, s)} :: s in g && rank[s] > 0 ==> Above(g, rank, s))
  }

  lemma {:induction false} RanksFallAlong(g: Graph, rank: map<string, nat>, p: seq<string>)
    requires IsLevelling(g, rank) && IsPath(g, p) && |p| >= 2
    ensures p[0] in g && p[|p| - 1] in g && rank[p[|p| - 1]] < rank[p[0]]
  {
    assert Edge(g, p[0], p[1]);
    if |p| > 2 {
      PathSlice(g, p, 1, |p|);
      assert p[1..|p|] == p[1..];
      RanksFallAlong(g, rank, p[1..]);
    }
  }

  lemma LevellingHasNoCycle(g: Graph, rank: map<string, nat>)
    requires IsLevelling(g, rank)
    ensures !HasCycle(g)
  {
    forall p | IsPath(g, p) && |p| >= 2 ensures !IsCycle(g, p) { RanksFallAlong(g, rank, p); }
  }

  lemma {:induction false} LevelsAgree(g: Graph, a: map<string, nat>, b: map<string, nat>, s: string)
    requires IsLevelling(g, a) && IsLevelling(g, b) && s in g
    ensures a[s] == b[s]
    decreases a[s] + b[s]
  {
    if a[s] < b[s] {
      assert Above(g, b, s);
      var d :| Edge(g, s, d) && b[d] + 1 == b[s];
      LevelsAgree(g, a, b, d);
    } else if b[s] < a[s] {
      assert Above(g, a, s);
      var d :| Edge(g, s, d) && a[d] + 1 == a[s];
      LevelsAgree(g, a, b, d);
    }
  }

  /** A graph has at most one levelling, so the level loop has one possible answer. */
  lemma LevellingUnique(g: Graph, a: map<string, nat>, b: map<string, nat>)
    requires IsLevelling(g, a) && IsLevelling(g, b)
    ensures a == b
  {
    forall s | s in g ensures a[s] == b[s] { LevelsAgree(g, a, b, s); }
  }

  lemma {:induction false} Pigeonhole(p: seq<string>, r: set<string>)
    requires (forall i :: 0 <= i < |p| ==> p[i] in r) && |p| > |r|
    ensures exists i, j :: 0 <= i < j < |p| && p[i] == p[j]
  {
    if forall j :: 0 < j < |p| ==> p[j] != p[0] {
      Pigeonhole(p[1..], r - {p[0]});
      var i, j :| 0 <= i < j < |p[1..]| && p[1..][i] == p[1..][j];
      assert p[i + 1] == p[j + 1];
    }
  }

  predicate Waits(g: Graph, s: string, remaining: set<string>) { exists d :: d in remaining && Edge(g, s, d) }

  /** Every one of `r` waits for another one of `r`. */
  ghost predicate Stuck(g: Graph, r: set<string>) { forall s {:trigger Waits(g, s, r)} :: s in r ==> Waits(g, s, r) }

  lemma {:induction false} Walk(g: Graph, r: set<string>, s: string, n: nat) returns (p: seq<string>)
    requires s in r && Stuck(g, r)
    ensures |p| == n + 1 && p[0] == s && IsPath(g, p) && forall i :: 0 <= i < |p| ==> p[i] in r
    decreases n
  {
    if n == 0 {
      p := [s];
    } else {
      assert Waits(g, s, r);
      var d :| d in r && Edge(g, s, d);
      var q := Walk(g, r, d, n - 1);
      p := [s] + q;
      forall i | 0 <= i < |p| - 1 ensures Edge(g, p[i], p[i + 1]) {
        if i > 0 { assert Edge(g, q[i - 1], q[i]); }
      }
    }
  }

  lemma PathSlice(g: Graph, p: seq<string>, i: nat, j: nat)
    requires IsPath(g, p) && i <= j <= |p|
    ensures IsPath(g, p[i..j])
  {
    forall k | 0 <= k < |p[i..j]| - 1 ensures Edge(g, p[i..j][k], p[i..j][k + 1]) {
      assert Edge(g, p[i + k], p[i + k + 1]);
    }
  }

  /** Services that all wait for each other contain a cycle. */
  lemma StuckHasCycle(g: Graph, r: set<string>)
    requires r != {} && Stuck(g, r)
    ensures HasCycle(g)
  {
    var s :| s in r;
    var p := Walk(g, r, s, |r|);
    Pigeonhole(p, r);
    var i, j :| 0 <= i < j < |p| && p[i] == p[j];
    PathSlice(g, p, i, j + 1);
    assert IsCycle(g, p[i..j + 1]);
  }

  // ----- Ranking and ordering one project

  /** `s` waits for another remaining service or for one placed on the last level. */
  ghost predicate NearTop(g: Graph, rank: map<string, nat>, remaining: set<string>, level: int, s: string)
  {
    exists d :: Edge(g, s, d) && (d in remaining || (d in rank && rank[d] == level - 1))
  }

  method Ready(g: Graph, remaining: set<string>) returns (ready: set<string>)
    requires remaining <= g.Keys
    ensures ready == set s | s in remaining && !Waits(g, s, remaining)
  {
    ready := {};
    var todo := remaining;
    while todo != {}
      invariant todo <= remaining
      invariant ready == set s | s in remaining - todo && !Waits(g, s, remaining)
      decreases todo
    {
      var s :| s in todo;
      todo := todo - {s};
      if !Waits(g, s, remaining) { ready := ready + {s}; }
    }
  }

  /** After some levels: the ranked services form them, and the next level comes from those left. */
  ghost predicate Levels(g: Graph, rank: map<string, nat>, remaining: set<string>, level: nat)
  {
    && remaining <= g.Keys && rank.Keys == g.Keys - remaining
    && (forall s :: s in rank ==> rank[s] < level)
    && (forall s, d {:trigger Edge(g, s, d)} :: s in rank && Edge(g, s, d) ==> d in rank && rank[d] < rank[s])
    && (forall s {:trigger Above(g, rank, s)} :: s in rank && rank[s] > 0 ==> Above(g, rank, s))
    && (level > 0 ==> forall s {:trigger NearTop(g, rank, remaining, level, s)} :: s in remaining ==>
          NearTop(g, rank, remaining, level, s))
  }

  function Ranked(rank: map<string, nat>, ready: set<string>, level: nat): map<string, nat>
  {
    rank + map s | s in ready :: level
  }

  lemma LevelsKeepEdges(g: Graph, rank: map<string, nat>, remaining: set<string>, level: nat, ready: set<string>)
    requires Levels(g, rank, remaining, level) && ready == set s | s in remaining && !Waits(g, s, remaining)
    ensures var next := Ranked(rank, ready, level);
            forall s, d {:trigger Edge(g, s, d)} :: s in next && Edge(g, s, d) ==> d in next && next[d] < next[s]
  {
    var next := Ranked(rank, ready, level);
    forall s, d | s in next && Edge(g, s, d) ensures d in next && next[d] < next[s] {
      if s in ready { assert !Waits(g, s, remaining); } else { assert s in rank; }
    }
  }

  lemma LevelsStep(g: Graph, rank: map<string, nat>, remaining: set<string>, level: nat, ready: set<string>)
    requires Levels(g, rank, remaining, level) && ready == set s | s in remaining && !Waits(g, s, remaining)
    ensures Levels(g, Ranked(rank, ready, level), remaining - ready, level + 1)
  {
    var next, left := Ranked(rank, ready, level), remaining - ready;
    LevelsKeepEdges(g, rank, remaining, level, ready);
    forall s | s in next && next[s] > 0 ensures Above(g, next, s) {
      if s in rank {
        assert Above(g, rank, s);
      } else {
        assert NearTop(g, rank, remaining, level, s);
        assert !Waits(g, s, remaining);
      }
    }
    forall s | s in left ensures NearTop(g, next, left, level + 1, s) { assert Waits(g, s, remaining); }
  }

  lemma NoneReady(g: Graph, remaining: set<string>, ready: set<string>)
    requires ready == set s | s in remaining && !Waits(g, s, remaining)
    requires remaining != {} && ready == {}
    ensures HasCycle(g)
  {
    forall x | x in remaining ensures Waits(g, x, remaining) {
      assert Waits(g, x, remaining) || x in ready;
    }
    StuckHasCycle(g, remaining);
  }

  /** The level loop: ranks, or none exactly when the services depend on each other in a cycle. */
  method RankServices(g: Graph) returns (r: Option<map<string, nat>>)
    ensures r.None? <==> HasCycle(g)
    ensures r.Some? ==> IsLevelling(g, r.value)
  {
    var rank: map<string, nat>, remaining, level := map[], g.Keys, 0;
    while remaining != {}
      invariant Levels(g, rank, remaining, level)
      decreases remaining
    {
      var ready := Ready(g, remaining);
      if ready == {} {
        NoneReady(g, remaining, ready);
        return None;
      }
      LevelsStep(g, rank, remaining, level, ready);
      rank := rank + map s | s in ready :: level;
      remaining := remaining - ready;
      level := level + 1;
    }
    LevellingHasNoCycle(g, rank);
    return Some(rank);
  }

  function RankOf(rank: map<string, nat>, s: string): nat { if s in rank then rank[s] else 0 }

  function ByRank(rank: map<string, nat>): (Entry, Entry) -> bool
  {
    (a: Entry, b: Entry) => RankOf(rank, a.service) <= RankOf(rank, b.service)
  }

  /** What a project's start order is: by level, then name, then ID; by name and ID on a cycle. */
  ghost predicate IsProjectOrder(es: seq<Entry>, out: seq<Entry>)
  {
    && multiset(out) == multiset(es)
    && var g := ServiceGraph(es);
       if HasCycle(g) then out == SortEntries(es)
       else exists rank :: IsLevelling(g, rank) && SortedBy(out, ByRank(rank)) && TiesBy(out, ByRank(rank), EntryLe())
  }

  lemma DepsOfSnoc(es: seq<Entry>, e: Entry, s: string)
    ensures DepsOf(es + [e], s) == DepsOf(es, s) + (if s == e.service then DependsOn(e.deps).Keys else {})
  {
    forall d | d in DepsOf(es, s) ensures d in DepsOf(es + [e], s) {
      var x :| x in es && x.service == s && d in DependsOn(x.deps).Keys;
      assert x in es + [e];
    }
    if s == e.service { assert e in es + [e]; }
  }

  lemma ServiceGraphSnoc(es: seq<Entry>, e: Entry)
    ensures ServiceGraph(es + [e]) ==
            ServiceGraph(es)[e.service := DepsOf(es, e.service) + DependsOn(e.deps).Keys]
  {
    var l, r := ServiceGraph(es + [e]), ServiceGraph(es)[e.service := DepsOf(es, e.service) + DependsOn(e.deps).Keys];
    assert l.Keys == r.Keys by {
      assert e in es + [e];
      assert forall x :: x in es + [e] <==> x in es || x == e;
    }
    forall s | s in l ensures l[s] == r[s] { DepsOfSnoc(es, e, s); }
  }

  method BuildGraph(es: seq<Entry>) returns (g: Graph)
    ensures g == ServiceGraph(es)
  {
    g := map[];
    for i := 0 to |es|
      invariant g == ServiceGraph(es[..i])
    {
      var e := es[i];
      assert es[..i + 1] == es[..i] + [e];
      ServiceGraphSnoc(es[..i], e);
      var mine := ParseDependsOn(e.deps);
      if e.service !in g {
        assert DepsOf(es[..i], e.service) == {};
        g := g[e.service := {}];
      }
      g := g[e.service := g[e.service] + mine.Keys];
    }
    assert es[..|es|] == es;
  }

  lemma SameGraph(a: seq<Entry>, b: seq<Entry>)
    requires multiset(a) == multiset(b)
    ensures ServiceGraph(a) == ServiceGraph(b)
  {
    forall e ensures e in a <==> e in b { SameMember(a, b, e); }
    assert Services(a) == Services(b);
    forall s ensures DepsOf(a, s) == DepsOf(b, s) { }
  }

  method OrderProject(es: seq<Entry>) returns (out: seq<Entry>)
    ensures IsProjectOrder(es, out)
  {
    var sorted := SortEntries(es);
    SortEntriesSorted(es);
    var g := BuildGraph(sorted);
    SameGraph(sorted, es);
    var r := RankServices(g);
    if r.None? { return sorted; }
    out := Sort(sorted, ByRank(r.value));
    SortPermutes(sorted, ByRank(r.value));
    SortSorted(sorted, ByRank(r.value));
    SortStable(sorted, ByRank(r.value), EntryLe());
    LevellingHasNoCycle(g, r.value);
  }

  /** A dependency on a container of another service of the same project. */
  predicate Direct(e: Entry, d: Entry)
  {
    e.project != "" && d.project == e.project && d.service in DependsOn(e.deps) && d.service != e.service
  }

  lemma DirectIsEdge(es: seq<Entry>, e: Entry, d: Entry)
    requires e in es && d in es && Direct(e, d)
    ensures Edge(ServiceGraph(es), e.service, d.service)
  {
    assert d.service in DepsOf(es, e.service);
  }

  lemma HigherRankLater(g: Graph, rank: map<string, nat>, out: seq<Entry>, i: nat, j: nat)
    requires IsLevelling(g, rank) && SortedBy(out, ByRank(rank))
    requires i < |out| && j < |out| && Edge(g, out[i].service, out[j].service)
    ensures j < i
  {
    assert !ByRank(rank)(out[i], out[j]);
  }

  /** Without a cycle, what a container depends on comes before it. */
  lemma ProjectOrderRespects(es: seq<Entry>, out: seq<Entry>, i: nat, j: nat)
    requires IsProjectOrder(es, out) && !HasCycle(ServiceGraph(es))
    requires i < |out| && j < |out| && Direct(out[i], out[j])
    ensures j < i
  {
    SameMember(out, es, out[i]);
    SameMember(out, es, out[j]);
    DirectIsEdge(es, out[i], out[j]);
    var rank :| IsLevelling(ServiceGraph(es), rank) && SortedBy(out, ByRank(rank)) &&
      TiesBy(out, ByRank(rank), EntryLe());
    HigherRankLater(ServiceGraph(es), rank, out, i, j);
  }

  function RankThenName(rank: map<string, nat>): (Entry, Entry) -> bool
  {
    (a: Entry, b: Entry) =>
      RankOf(rank, a.service) < RankOf(rank, b.service) ||
      (RankOf(rank, a.service) == RankOf(rank, b.service) && EntryLe()(a, b))
  }

  lemma EntryLeSeparates(a: Entry, b: Entry)
    requires EntryLe()(a, b) && EntryLe()(b, a)
    ensures a.id == b.id
  {
    PairLeAntisymmetric(a.name, a.id, b.name, b.id);
  }

  lemma OrderedByRankThenName(out: seq<Entry>, rank: map<string, nat>)
    requires SortedBy(out, ByRank(rank)) && TiesBy(out, ByRank(rank), EntryLe())
    ensures SortedBy(out, RankThenName(rank))
  {
    forall i, j | 0 <= i < j < |out| ensures RankThenName(rank)(out[i], out[j]) {
      assert ByRank(rank)(out[i], out[j]);
      if ByRank(rank)(out[j], out[i]) { assert EntryLe()(out[i], out[j]); }
    }
  }

  /** A project has one start order, whatever order maps are walked in. */
  lemma ProjectOrderUnique(es: seq<Entry>, a: seq<Entry>, b: seq<Entry>)
    requires IsProjectOrder(es, a) && IsProjectOrder(es, b) && UniqueIds(a)
    ensures a == b
  {
    var g := ServiceGraph(es);
    if !HasCycle(g) {
      var ra :| IsLevelling(g, ra) && SortedBy(a, ByRank(ra)) && TiesBy(a, ByRank(ra), EntryLe());
      var rb :| IsLevelling(g, rb) && SortedBy(b, ByRank(rb)) && TiesBy(b, ByRank(rb), EntryLe());
      LevellingUnique(g, ra, rb);
      OrderedByRankThenName(a, ra);
      OrderedByRankThenName(b, ra);
      var le := RankThenName(ra);
      forall i, j | 0 <= i < j < |a| ensures !le(a[j], a[i]) {
        assert le(a[i], a[j]);
        if le(a[j], a[i]) { EntryLeSeparates(a[i], a[j]); }
      }
      SortUnique(a, b, le);
    }
  }

  // ----- Ordering a whole selection

  /** The entries of one project, in list order. */
  function Only(es: seq<Entry>, p: string): seq<Entry>
  {
    if es == [] then []
    else
      var n := |es| - 1;
      if es[n].project == p then Only(es[..n], p) + [es[n]] else Only(es[..n], p)
  }

  lemma {:induction false} OnlyMember(es: seq<Entry>, p: string, e: Entry)
    ensures e in Only(es, p) <==> e in es && e.project == p
  {
    if es != [] {
      var n := |es| - 1;
      OnlyMember(es[..n], p, e);
      assert es == es[..n] + [es[n]];
    }
  }

  lemma OnlySnoc(es: seq<Entry>, e: Entry, p: string)
    ensures Only(es + [e], p) == if e.project == p then Only(es, p) + [e] else Only(es, p)
  {
    assert (es + [e])[..|es|] == es;
  }

  lemma {:induction false} OnlyConcat(a: seq<Entry>, b: seq<Entry>, p: string)
    ensures Only(a + b, p) == Only(a, p) + Only(b, p)
  {
    if b == [] {
      assert a + b == a;
    } else {
      var n := |b| - 1;
      OnlyConcat(a, b[..n], p);
      assert b == b[..n] + [b[n]];
      Regroup(a, b[..n], [b[n]]);
      OnlySnoc(a + b[..n], b[n], p);
      OnlySnoc(b[..n], b[n], p);
      Regroup(Only(a, p), Only(b[..n], p), if b[n].project == p then [b[n]] else []);
    }
  }

  lemma {:induction false} OnlyOneProject(b: seq<Entry>, q: string, p: string)
    requires forall e :: e in b ==> e.project == q
    ensures Only(b, p) == if p == q then b else []
  {
    if b != [] {
      var n := |b| - 1;
      OnlyOneProject(b[..n], q, p);
      assert b[n] in b && b == b[..n] + [b[n]];
    }
  }

  lemma {:induction false} OnlyCounts(es: seq<Entry>, e: Entry)
    ensures multiset(Only(es, e.project))[e] == multiset(es)[e]
  {
    if es != [] {
      var n := |es| - 1;
      OnlyCounts(es[..n], e);
      assert es == es[..n] + [es[n]];
    }
  }

  lemma {:induction false} OnlyAt(es: seq<Entry>, i: nat)
    requires i < |es|
    ensures var p := es[i].project;
            |Only(es[..i], p)| < |Only(es, p)| && Only(es, p)[|Only(es[..i], p)|] == es[i]
  {
    var p := es[i].project;
    assert es == es[..i + 1] + es[i + 1..] && es[..i + 1] == es[..i] + [es[i]];
    OnlyConcat(es[..i + 1], es[i + 1..], p);
    OnlySnoc(es[..i], es[i], p);
  }

  lemma OnlyMonotone(es: seq<Entry>, i: nat, j: nat, p: string)
    requires i <= j <= |es|
    ensures |Only(es[..i], p)| <= |Only(es[..j], p)|
  {
    assert es[..j] == es[..i] + es[i..j];
    OnlyConcat(es[..i], es[i..j], p);
  }

  function ByProject(): (Entry, Entry) -> bool { (a: Entry, b: Entry) => Le(a.project, b.project) }

  /** What the start order of a selection is; "" orders before every project name. */
  ghost predicate IsRestoreOrder(es: seq<Entry>, out: seq<Entry>)
  {
    && multiset(out) == multiset(es)
    && SortedBy(out, ByProject())
    && Only(out, "") == SortEntries(Only(es, ""))
    && forall p {:trigger Only(out, p)} :: p != "" ==> IsProjectOrder(Only(es, p), Only(out, p))
  }

  /** `projects` groups the entries that have a project. */
  ghost predicate IsSplit(es: seq<Entry>, projects: map<string, seq<Entry>>)
  {
    && "" !in projects
    && forall p {:trigger Only(es, p)} :: p != "" ==> Only(es, p) == if p in projects then projects[p] else []
  }

  method SplitProjects(es: seq<Entry>) returns (solo: seq<Entry>, projects: map<string, seq<Entry>>)
    ensures solo == Only(es, "")
    ensures IsSplit(es, projects)
  {
    solo, projects := [], map[];
    for i := 0 to |es|
      invariant solo == Only(es[..i], "")
      invariant IsSplit(es[..i], projects)
    {
      var e := es[i];
      assert es[..i + 1] == es[..i] + [e];
      forall p { OnlySnoc(es[..i], e, p); }
      if e.project == "" {
        solo := solo + [e];
      } else if e.project in projects {
        projects := projects[e.project := projects[e.project] + [e]];
      } else {
        projects := projects[e.project := [e]];
      }
    }
    assert es[..|es|] == es;
  }

  lemma NothingToOrder()
    ensures IsProjectOrder([], [])
  {
    var g, rank: map<string, nat> := ServiceGraph([]), map[];
    assert g == map[];
    assert IsLevelling(g, rank);
    assert SortedBy([], ByRank(rank)) && TiesBy([], ByRank(rank), EntryLe());
  }

  lemma AppendProject(out: seq<Entry>, block: seq<Entry>, q: string)
    requires SortedBy(out, ByProject()) && forall e :: e in out ==> Le(e.project, q)
    requires forall e :: e in block ==> e.project == q
    ensures SortedBy(out + block, ByProject())
    ensures forall p {:trigger Only(out + block, p)} ::
            Only(out + block, p) == Only(out, p) + if p == q then block else []
  {
    var r := out + block;
    forall i, j | 0 <= i < j < |r| ensures ByProject()(r[i], r[j]) {
      LeIsTotalOrder();
      if j < |out| { assert ByProject()(out[i], out[j]); }
      else {
        assert r[j] in block;
        assert i < |out| ==> r[i] in out;
        assert i >= |out| ==> r[i] in block;
      }
    }
    forall p ensures Only(r, p) == Only(out, p) + if p == q then block else [] {
      OnlyConcat(out, block, p);
      OnlyOneProject(block, q, p);
    }
  }

  /** Project `p` is ordered if it is one of `names` and not yet there if not. */
  ghost predicate Placed(es: seq<Entry>, out: seq<Entry>, names: seq<string>, p: string)
  {
    if p in names then IsProjectOrder(Only(es, p), Only(out, p)) else Only(out, p) == []
  }

  ghost predicate OrdersSome(es: seq<Entry>, out: seq<Entry>, names: seq<string>)
  {
    && SortedBy(out, ByProject())
    && (forall e :: e in out ==> e.project == "" || e.project in names)
    && Only(out, "") == SortEntries(Only(es, ""))
    && forall p {:trigger Placed(es, out, names, p)} :: p != "" ==> Placed(es, out, names, p)
  }

  lemma PlacedOneMore(es: seq<Entry>, out: seq<Entry>, names: seq<string>, q: string, block: seq<Entry>, p: string)
    requires Placed(es, out, names, p) && IsProjectOrder(Only(es, q), block) && q !in names
    requires Only(out + block, p) == Only(out, p) + if p == q then block else []
    ensures Placed(es, out + block, names + [q], p)
  {
    assert p in names + [q] <==> p in names || p == q;
    if p == q { assert Only(out + block, p) == block; } else { assert Only(out + block, p) == Only(out, p); }
  }

  lemma OrdersOneMore(es: seq<Entry>, out: seq<Entry>, names: seq<string>, q: string, block: seq<Entry>)
    requires OrdersSome(es, out, names) && IsProjectOrder(Only(es, q), block)
    requires q != "" && q !in names && forall p :: p in names ==> Le(p, q)
    ensures OrdersSome(es, out + block, names + [q])
  {
    forall e | e in block ensures e.project == q {
      SameMember(block, Only(es, q), e);
      OnlyMember(es, q, e);
    }
    AppendProject(out, block, q);
    assert Only(out + block, "") == Only(out, "") + [];
    forall p | p != "" ensures Placed(es, out + block, names + [q], p) {
      assert Placed(es, out, names, p);
      PlacedOneMore(es, out, names, q, block, p);
    }
  }

  method OrderRestore(es: seq<Entry>) returns (out: seq<Entry>)
    ensures IsRestoreOrder(es, out)
  {
    var solo, projects := SplitProjects(es);
    out := SortEntries(solo);
    StandaloneBlock(es, out);
    var names := Keys.Sorted(projects.Keys);
    var i := 0;
    while i < |names|
      invariant i <= |names| && OrdersSome(es, out, names[..i])
    {
      var block := OrderProject(projects[names[i]]);
      OrdersNext(es, projects, out, names, i, block);
      out := out + block;
      i := i + 1;
    }
    OrderDone(es, projects, out, names);
  }

  lemma OrdersNext(es: seq<Entry>, projects: map<string, seq<Entry>>, out: seq<Entry>, names: seq<string>, i: nat,
                   block: seq<Entry>)
    requires IsSplit(es, projects) && Keys.Lists(names, projects.Keys) && i < |names|
    requires OrdersSome(es, out, names[..i]) && IsProjectOrder(projects[names[i]], block)
    ensures OrdersSome(es, out + block, names[..i + 1])
  {
    var q := names[i];
    assert Only(es, q) == projects[q];
    NextName(names, i);
    OrdersOneMore(es, out, names[..i], q, block);
  }

  lemma OrderDone(es: seq<Entry>, projects: map<string, seq<Entry>>, out: seq<Entry>, names: seq<string>)
    requires IsSplit(es, projects) && Keys.Lists(names, projects.Keys) && OrdersSome(es, out, names[..|names|])
    ensures IsRestoreOrder(es, out)
  {
    assert names[..|names|] == names;
    AllPlaced(es, out, names);
    SamePerProject(es, out);
  }

  lemma NextName(names: seq<string>, i: nat)
    requires i < |names| && forall i, j :: 0 <= i < j < |names| ==> Le(names[i], names[j]) && names[i] != names[j]
    ensures names[..i + 1] == names[..i] + [names[i]] && names[i] !in names[..i]
    ensures forall p :: p in names[..i] ==> Le(p, names[i])
  {
  }

  lemma AllPlaced(es: seq<Entry>, out: seq<Entry>, names: seq<string>)
    requires OrdersSome(es, out, names)
    requires forall p {:trigger Only(es, p)} :: p != "" && p !in names ==> Only(es, p) == []
    ensures forall p {:trigger Only(es, p)} :: p != "" ==> IsProjectOrder(Only(es, p), Only(out, p))
  {
    forall p | p != "" ensures IsProjectOrder(Only(es, p), Only(out, p)) {
      assert Placed(es, out, names, p);
      if p !in names { NothingToOrder(); }
    }
  }

  lemma StandaloneBlock(es: seq<Entry>, out: seq<Entry>)
    requires out == SortEntries(Only(es, ""))
    ensures OrdersSome(es, out, [])
  {
    SortEntriesPermutes(Only(es, ""));
    forall e | e in out ensures e.project == "" {
      SameMember(out, Only(es, ""), e);
      OnlyMember(es, "", e);
    }
    forall p ensures Only(out, p) == if p == "" then out else [] { OnlyOneProject(out, "", p); }
    LeIsTotalOrder();
  }

  lemma SamePerProject(es: seq<Entry>, out: seq<Entry>)
    requires Only(out, "") == SortEntries(Only(es, ""))
    requires forall p {:trigger Only(out, p)} :: p != "" ==> IsProjectOrder(Only(es, p), Only(out, p))
    ensures multiset(out) == multiset(es)
  {
    SortEntriesPermutes(Only(es, ""));
    forall e ensures multiset(out)[e] == multiset(es)[e] {
      OnlyCounts(out, e);
      OnlyCounts(es, e);
      assert multiset(Only(out, e.project)) == multiset(Only(es, e.project));
    }
  }

  /** In the whole order too, what a container depends on comes before it. */
  lemma RestoreOrderRespects(es: seq<Entry>, out: seq<Entry>, i: nat, j: nat)
    requires IsRestoreOrder(es, out) && i < |out| && j < |out| && Direct(out[i], out[j])
    requires !HasCycle(ServiceGraph(Only(es, out[i].project)))
    ensures j < i
  {
    var p := out[i].project;
    OnlyAt(out, i);
    OnlyAt(out, j);
    ProjectOrderRespects(Only(es, p), Only(out, p), |Only(out[..i], p)|, |Only(out[..j], p)|);
    if i <= j { OnlyMonotone(out, i, j, p); }
  }

  /** Standalone containers come first. */
  lemma StandaloneFirst(es: seq<Entry>, out: seq<Entry>, i: nat, j: nat)
    requires IsRestoreOrder(es, out) && i < |out| && j < |out|
    requires out[i].project == "" && out[j].project != ""
    ensures i < j
  {
    assert !ByProject()(out[j], out[i]);
  }
}
