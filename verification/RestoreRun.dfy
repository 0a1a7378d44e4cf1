/**
 One restore: the picked containers are started in dependency order, and a container whose
 dependency did not start is skipped. Starting and health waiting may fail in any pattern.
 */
module RestoreRun {
  import opened Prelude
  import opened Entries
  import opened RestoreOrder

  /** `Skipped`: start was never called. `Refused`: the engine refused the start. */
  datatype Outcome = Started | Skipped | Refused

  datatype Item = Item(id: string, name: string, outcome: Outcome)

  /** What the engine answers: start per container, health wait per waiter and dependency. */
  datatype Answers = Answers(starts: string -> bool, healthy: (string, string) -> bool)

  /** `d` is a container of a service that `e`'s label names. */
  predicate Needs(e: Entry, d: Entry)
  {
    e.project != "" && d.project == e.project && d.service in DependsOn(e.deps)
  }

  predicate NeedsHealthy(e: Entry, d: Entry) { Needs(e, d) && DependsOn(e.deps)[d.service] == "service_healthy" }

  predicate Blocks(e: Entry, d: Entry, failed: set<string>, ans: Answers)
  {
    Needs(e, d) && (d.id in failed || (NeedsHealthy(e, d) && !ans.healthy(e.id, d.id)))
  }

  method WaitDependencies(e: Entry, all: seq<Entry>, failed: set<string>, ans: Answers) returns (ok: bool)
    ensures ok <==> forall d :: d in all ==> !Blocks(e, d, failed, ans)
  {
    if e.project == "" { return true; }
    var deps := ParseDependsOn(e.deps);
    var todo := deps.Keys;
    while todo != {}
      invariant todo <= deps.Keys
      invariant forall d :: d in all && d.service !in todo ==> !Blocks(e, d, failed, ans)
      decreases todo
    {
      var svc :| svc in todo;
      for k := 0 to |all|
        invariant forall i :: 0 <= i < k && all[i].service == svc ==> !Blocks(e, all[i], failed, ans)
      {
        var d := all[k];
        if d.project != e.project || d.service != svc { continue; }
        assert d in all && Needs(e, d);
        if d.id in failed {
          assert Blocks(e, d, failed, ans);
          return false;
        }
        if deps[svc] == "service_healthy" && !ans.healthy(e.id, d.id) {
          assert Blocks(e, d, failed, ans);
          return false;
        }
      }
      todo := todo - {svc};
    }
    return true;
  }

  function FailedIds(items: seq<Item>): set<string>
  {
    set it | it in items && !it.outcome.Started? :: it.id
  }

  ghost predicate OutcomeFits(e: Entry, all: seq<Entry>, failed: set<string>, ans: Answers, o: Outcome)
  {
    if exists d :: d in all && Blocks(e, d, failed, ans) then o == Skipped
    else o == if ans.starts(e.id) then Started else Refused
  }

  ghost predicate ItemFits(order: seq<Entry>, all: seq<Entry>, ans: Answers, items: seq<Item>, i: nat)
    requires i < |items| <= |order|
  {
    && items[i].id == order[i].id && items[i].name == order[i].name
    && OutcomeFits(order[i], all, FailedIds(items[..i]), ans, items[i].outcome)
  }

  /** The containers so far: each outcome follows from the failures before it. */
  ghost predicate Runs(order: seq<Entry>, all: seq<Entry>, ans: Answers, items: seq<Item>)
  {
    && |items| <= |order|
    && forall i {:trigger ItemFits(order, all, ans, items, i)} :: 0 <= i < |items| ==>
         ItemFits(order, all, ans, items, i)
  }

  /** All containers have their outcome. */
  ghost predicate IsRun(order: seq<Entry>, all: seq<Entry>, ans: Answers, items: seq<Item>)
  {
    |items| == |order| && Runs(order, all, ans, items)
  }

  lemma FailedOneMore(items: seq<Item>, it: Item)
    ensures FailedIds(items + [it]) == if it.outcome.Started? then FailedIds(items) else FailedIds(items) + {it.id}
  {
    var more := items + [it];
    assert forall x :: x in more <==> x in items || x == it;
  }

  lemma StillFits(order: seq<Entry>, all: seq<Entry>, ans: Answers, items: seq<Item>, it: Item, k: nat)
    requires k < |items| < |order| && ItemFits(order, all, ans, items, k)
    ensures ItemFits(order, all, ans, items + [it], k)
  {
    assert (items + [it])[..k] == items[..k];
  }

  lemma RunsMore(order: seq<Entry>, all: seq<Entry>, ans: Answers, items: seq<Item>, it: Item)
    requires |items| < |order| && Runs(order, all, ans, items)
    requires var e := order[|items|];
             it.id == e.id && it.name == e.name && OutcomeFits(e, all, FailedIds(items), ans, it.outcome)
    ensures Runs(order, all, ans, items + [it])
  {
    var more := items + [it];
    assert more[..|items|] == items;
    forall k | 0 <= k < |more| ensures ItemFits(order, all, ans, more, k) {
      if k < |items| { StillFits(order, all, ans, items, it, k); }
    }
  }

  /** One container: skipped when a dependency blocks it, else started. */
  method StartOne(e: Entry, all: seq<Entry>, failed: set<string>, ans: Answers) returns (outcome: Outcome)
    ensures OutcomeFits(e, all, failed, ans, outcome)
  {
    var ok := WaitDependencies(e, all, failed, ans);
    if !ok { return Skipped; }
    outcome := if ans.starts(e.id) then Started else Refused;
  }

  /** The loop of a restore over an ordered selection. */
  method StartAll(order: seq<Entry>, all: seq<Entry>, ans: Answers) returns (items: seq<Item>)
    ensures IsRun(order, all, ans, items)
  {
    items := [];
    var failed: set<string> := {};
    for i := 0 to |order|
      invariant |items| == i && Runs(order, all, ans, items) && failed == FailedIds(items)
    {
      var e := order[i];
      var outcome := StartOne(e, all, failed, ans);
      RunsMore(order, all, ans, items, Item(e.id, e.name, outcome));
      FailedOneMore(items, Item(e.id, e.name, outcome));
      if !outcome.Started? { failed := failed + {e.id}; }
      items := items + [Item(e.id, e.name, outcome)];
    }
  }

  /** `d` holds container `i` of a run back: it failed before, or had to be healthy and is not. */
  ghost predicate HoldsBack(order: seq<Entry>, ans: Answers, items: seq<Item>, i: nat, d: Entry)
    requires i < |items| <= |order|
  {
    var e := order[i];
    var deps := DependsOn(e.deps);
    && e.project != "" && e.project == d.project && d.service in deps
    && ((exists j :: 0 <= j < i && items[j].id == d.id && items[j].outcome != Started)
        || (deps[d.service] == "service_healthy" && !ans.healthy(e.id, d.id)))
  }

  lemma HoldsBackIff(order: seq<Entry>, ans: Answers, items: seq<Item>, i: nat, d: Entry)
    requires i < |items| <= |order|
    ensures HoldsBack(order, ans, items, i, d) <==> Blocks(order[i], d, FailedIds(items[..i]), ans)
  {
    if j :| 0 <= j < i && items[j].id == d.id && items[j].outcome != Started { FailedBefore(items, i, j); }
    if d.id in FailedIds(items[..i]) { var j := FailedAmong(items, i, d.id); }
  }

  /** What a run reports of container `i`, said of the items before it. */
  lemma RunMeans(order: seq<Entry>, all: seq<Entry>, ans: Answers, items: seq<Item>, i: nat)
    requires IsRun(order, all, ans, items) && i < |order|
    ensures items[i].id == order[i].id && items[i].name == order[i].name
    ensures items[i].outcome == Skipped <==> exists d :: d in all && HoldsBack(order, ans, items, i, d)
    ensures items[i].outcome == Started <==>
              ans.starts(order[i].id) && forall d :: d in all ==> !HoldsBack(order, ans, items, i, d)
  {
    assert ItemFits(order, all, ans, items, i);
    forall d ensures HoldsBack(order, ans, items, i, d) <==> Blocks(order[i], d, FailedIds(items[..i]), ans) {
      HoldsBackIff(order, ans, items, i, d);
    }
  }

  // ----- Failures travel along dependencies

  /** Each container of the chain depends on the next, through services that differ. */
  ghost predicate IsChain(order: seq<Entry>, c: seq<nat>)
  {
    && |c| > 0
    && (forall k :: 0 <= k < |c| ==> c[k] < |order|)
    && forall k :: 0 <= k < |c| - 1 ==> Direct(order[c[k]], order[c[k + 1]])
  }

  /** No project of the selection has a dependency cycle between different services. */
  ghost predicate Acyclic(sel: seq<Entry>)
  {
    forall p {:trigger Only(sel, p)} :: p != "" ==> !HasCycle(ServiceGraph(Only(sel, p)))
  }

  lemma FailedBefore(items: seq<Item>, i: nat, j: nat)
    requires j < i <= |items| && !items[j].outcome.Started?
    ensures items[j].id in FailedIds(items[..i])
  {
    assert items[..i][j] == items[j];
  }

  lemma FailedAmong(items: seq<Item>, i: nat, id: string) returns (j: nat)
    requires i <= |items| && id in FailedIds(items[..i])
    ensures j < i && items[j].id == id && !items[j].outcome.Started?
  {
    var it :| it in items[..i] && !it.outcome.Started? && it.id == id;
    j :| 0 <= j < i && items[..i][j] == it;
  }

  lemma FailedDependencySkips(order: seq<Entry>, all: seq<Entry>, ans: Answers, items: seq<Item>, i: nat, j: nat)
    requires IsRun(order, all, ans, items) && j < i < |order| && order[j] in all
    requires Needs(order[i], order[j]) && !items[j].outcome.Started?
    ensures items[i].outcome.Skipped?
  {
    assert ItemFits(order, all, ans, items, i) && ItemFits(order, all, ans, items, j);
    FailedBefore(items, i, j);
    assert Blocks(order[i], order[j], FailedIds(items[..i]), ans);
  }

  /** No container is started once one it depends on, however indirectly, has failed. */
  lemma {:induction false} FailureReachesDependents(
    sel: seq<Entry>, order: seq<Entry>, all: seq<Entry>, ans: Answers, items: seq<Item>, c: seq<nat>)
    requires IsRestoreOrder(sel, order) && Acyclic(sel)
    requires IsRun(order, all, ans, items) && forall e :: e in sel ==> e in all
    requires IsChain(order, c) && |c| >= 2 && !items[c[|c| - 1]].outcome.Started?
    ensures items[c[0]].outcome.Skipped?
  {
    var i, j := c[0], c[1];
    assert Direct(order[i], order[j]);
    if |c| > 2 {
      assert IsChain(order, c[1..]) by {
        forall k | 0 <= k < |c[1..]| - 1 ensures Direct(order[c[1..][k]], order[c[1..][k + 1]]) {
          assert Direct(order[c[k + 1]], order[c[k + 2]]);
        }
      }
      FailureReachesDependents(sel, order, all, ans, items, c[1..]);
    }
    assert Only(sel, order[i].project) == Only(sel, order[i].project);
    RestoreOrderRespects(sel, order, i, j);
    SameMember(order, sel, order[j]);
    FailedDependencySkips(order, all, ans, items, i, j);
  }

  /** `e` fails by itself: its start is refused or a dependency stays unhealthy. */
  ghost predicate OwnFault(e: Entry, all: seq<Entry>, ans: Answers)
  {
    !ans.starts(e.id) || exists d :: d in all && NeedsHealthy(e, d) && !ans.healthy(e.id, d.id)
  }

  /** Each container of the chain needs the next, which comes before it in the restart order. */
  ghost predicate IsWait(order: seq<Entry>, c: seq<nat>)
  {
    && |c| > 0
    && (forall k :: 0 <= k < |c| ==> c[k] < |order|)
    && forall k :: 0 <= k < |c| - 1 ==> Awaits(order, c[k], c[k + 1])
  }

  predicate Awaits(order: seq<Entry>, i: nat, j: nat) { j < i < |order| && Needs(order[i], order[j]) }

  ghost predicate ReachesFault(order: seq<Entry>, all: seq<Entry>, ans: Answers, i: nat, c: seq<nat>)
  {
    IsWait(order, c) && c[0] == i && OwnFault(order[c[|c| - 1]], all, ans)
  }

  lemma PrependWait(order: seq<Entry>, i: nat, c: seq<nat>)
    requires IsWait(order, c) && Awaits(order, i, c[0])
    ensures IsWait(order, [i] + c)
  {
    var r := [i] + c;
    forall k | 0 <= k < |r| - 1 ensures Awaits(order, r[k], r[k + 1]) {
      if k > 0 { assert Awaits(order, c[k - 1], c[k]); }
    }
  }

  /** A container skipped without a fault of its own depends on one that failed before it. */
  lemma SkippedAfterFailure(order: seq<Entry>, all: seq<Entry>, ans: Answers, items: seq<Item>, i: nat)
    returns (j: nat)
    requires IsRun(order, all, ans, items) && i < |order| && !items[i].outcome.Started?
    requires UniqueIds(all) && (forall e :: e in order ==> e in all) && !OwnFault(order[i], all, ans)
    ensures j < i && !items[j].outcome.Started? && Needs(order[i], order[j])
  {
    assert ItemFits(order, all, ans, items, i);
    var d :| d in all && Blocks(order[i], d, FailedIds(items[..i]), ans);
    j := FailedAmong(items, i, d.id);
    assert ItemFits(order, all, ans, items, j);
    assert order[j] in order;
    SameId(all, order[j], d);
  }

  lemma {:induction false} FailureHasCause(order: seq<Entry>, all: seq<Entry>, ans: Answers, items: seq<Item>, i: nat)
    returns (c: seq<nat>)
    requires IsRun(order, all, ans, items) && i < |order| && !items[i].outcome.Started?
    requires UniqueIds(all) && forall e :: e in order ==> e in all
    ensures ReachesFault(order, all, ans, i, c)
    decreases i
  {
    if OwnFault(order[i], all, ans) {
      c := [i];
    } else {
      var j := SkippedAfterFailure(order, all, ans, items, i);
      var rest := FailureHasCause(order, all, ans, items, j);
      PrependWait(order, i, rest);
      c := [i] + rest;
    }
  }

  lemma OwnFaultFails(order: seq<Entry>, all: seq<Entry>, ans: Answers, items: seq<Item>, i: nat)
    requires IsRun(order, all, ans, items) && i < |order| && OwnFault(order[i], all, ans)
    ensures !items[i].outcome.Started?
  {
    var e := order[i];
    assert ItemFits(order, all, ans, items, i);
    if ans.starts(e.id) {
      var d :| d in all && NeedsHealthy(e, d) && !ans.healthy(e.id, d.id);
      assert Blocks(e, d, FailedIds(items[..i]), ans);
    }
  }

  lemma ReachesTail(order: seq<Entry>, all: seq<Entry>, ans: Answers, i: nat, c: seq<nat>)
    requires ReachesFault(order, all, ans, i, c) && |c| > 1
    ensures Awaits(order, i, c[1]) && ReachesFault(order, all, ans, c[1], c[1..])
  {
    var rest := c[1..];
    assert Awaits(order, c[0], c[1]);
    forall k | 0 <= k < |rest| - 1 ensures Awaits(order, rest[k], rest[k + 1]) {
      assert Awaits(order, c[k + 1], c[k + 2]);
    }
  }

  lemma {:induction false} CauseFails(order: seq<Entry>, all: seq<Entry>, ans: Answers, items: seq<Item>, i: nat,
                                      c: seq<nat>)
    requires IsRun(order, all, ans, items) && (forall e :: e in order ==> e in all)
    requires ReachesFault(order, all, ans, i, c)
    ensures !items[i].outcome.Started?
    decreases |c|
  {
    if |c| == 1 {
      OwnFaultFails(order, all, ans, items, i);
    } else {
      ReachesTail(order, all, ans, i, c);
      CauseFails(order, all, ans, items, c[1], c[1..]);
      FailedDependencySkips(order, all, ans, items, i, c[1]);
    }
  }

  /**
   Exactly which containers stay down, in any run: those that reach, through needed containers
   that come before them, one that fails by itself. Nothing else is skipped and nothing that waits
   for a failed one is started.
   */
  lemma FailsIffCauseReachable(order: seq<Entry>, all: seq<Entry>, ans: Answers, items: seq<Item>, i: nat)
    requires IsRun(order, all, ans, items) && i < |order|
    requires UniqueIds(all) && forall e :: e in order ==> e in all
    ensures !items[i].outcome.Started? <==> exists c :: ReachesFault(order, all, ans, i, c)
  {
    if !items[i].outcome.Started? { var c := FailureHasCause(order, all, ans, items, i); }
    forall c | ReachesFault(order, all, ans, i, c) ensures !items[i].outcome.Started? {
      CauseFails(order, all, ans, items, i, c);
    }
  }

  // ----- The whole restore call

  datatype Refusal = IdsRequired | NotRestorable(id: string)

  datatype Restored = Done(items: seq<Item>) | Rejected(why: Refusal)

  ghost function Selected(es: seq<Entry>, picked: set<string>): seq<Entry>
  {
    if es == [] then []
    else
      var n := |es| - 1;
      Selected(es[..n], picked) + if es[n].id in picked then [es[n]] else []
  }

  lemma {:induction false} SelectedMember(es: seq<Entry>, picked: set<string>, e: Entry)
    ensures e in Selected(es, picked) <==> e in es && e.id in picked
  {
    if es != [] {
      var n := |es| - 1;
      SelectedMember(es[..n], picked, e);
      assert es == es[..n] + [es[n]];
    }
  }

  lemma {:induction false} SelectedUnique(es: seq<Entry>, picked: set<string>)
    requires UniqueIds(es)
    ensures UniqueIds(Selected(es, picked))
  {
    if es != [] {
      var n := |es| - 1;
      SelectedUnique(es[..n], picked);
      forall e | e in Selected(es[..n], picked) ensures e.id != es[n].id { SelectedMember(es[..n], picked, e); }
    }
  }

  ghost predicate HasResult(items: seq<Item>, id: string) { exists i :: 0 <= i < |items| && items[i].id == id }

  ghost predicate OneResultEach(items: seq<Item>, ids: seq<string>)
  {
    && (forall id {:trigger HasResult(items, id)} :: id in ids <==> HasResult(items, id))
    && forall i, j :: 0 <= i < j < |items| ==> items[i].id != items[j].id
  }

  lemma ResultsCover(entries: seq<Entry>, picked: set<string>, ids: seq<string>, order: seq<Entry>, ans: Answers,
                     items: seq<Item>)
    requires UniqueIds(entries) && IsRestoreOrder(Selected(entries, picked), order)
    requires picked == set id | id in ids
    requires forall id :: id in picked ==> exists e :: e in entries && e.id == id
    requires IsRun(order, entries, ans, items)
    ensures OneResultEach(items, ids)
  {
    var sel := Selected(entries, picked);
    SelectedUnique(entries, picked);
    PermutedIdsUnique(sel, order);
    forall i | 0 <= i < |items| ensures items[i].id == order[i].id { assert ItemFits(order, entries, ans, items, i); }
    forall id ensures id in ids <==> HasResult(items, id) {
      if id in ids {
        assert id in picked;
        var e :| e in entries && e.id == id;
        SelectedMember(entries, picked, e);
        SameMember(order, sel, e);
        var i :| 0 <= i < |order| && order[i] == e;
        assert items[i].id == id;
      }
      if i :| 0 <= i < |items| && items[i].id == id {
        SameMember(order, sel, order[i]);
        SelectedMember(entries, picked, order[i]);
      }
    }
  }

  /** The results of a run over the restart order of the picked entries. */
  ghost predicate Restarted(entries: seq<Entry>, ids: seq<string>, ans: Answers, items: seq<Item>)
  {
    exists order ::
      IsRestoreOrder(Selected(entries, set id | id in ids), order) && IsRun(order, entries, ans, items)
  }

  /** The IDs as a set, or the first that is not restorable. */
  method PickAll(ids: seq<string>, open: set<string>) returns (picked: set<string>, bad: Option<string>)
    ensures bad.None? <==> forall id :: id in ids ==> id in open
    ensures bad.Some? ==> bad.value in ids && bad.value !in open
    ensures bad.None? ==> picked == set id | id in ids
  {
    picked := {};
    for i := 0 to |ids|
      invariant picked == set id | id in ids[..i]
      invariant forall id :: id in ids[..i] ==> id in open
    {
      if ids[i] !in open { return picked, Some(ids[i]); }
      picked := picked + {ids[i]};
      assert ids[..i + 1] == ids[..i] + [ids[i]];
    }
    assert ids[..|ids|] == ids;
    return picked, None;
  }

  method SelectEntries(entries: seq<Entry>, picked: set<string>) returns (sel: seq<Entry>)
    ensures sel == Selected(entries, picked)
  {
    sel := [];
    for i := 0 to |entries|
      invariant sel == Selected(entries[..i], picked)
    {
      assert entries[..i + 1][..i] == entries[..i];
      if entries[i].id in picked { sel := sel + [entries[i]]; }
    }
    assert entries[..|entries|] == entries;
  }

  /**
   Restores the picked containers of a pending snapshot. `open` holds the IDs whose item is still
   restorable or waiting; every one of them is an entry.
   */
  method Restore(entries: seq<Entry>, open: set<string>, ids: seq<string>, ans: Answers) returns (r: Restored)
    requires UniqueIds(entries) && forall id :: id in open ==> exists e :: e in entries && e.id == id
    ensures r.Rejected? && r.why.IdsRequired? <==> ids == []
    ensures r.Done? <==> ids != [] && forall id :: id in ids ==> id in open
    ensures r.Rejected? && r.why.NotRestorable? ==> r.why.id in ids && r.why.id !in open
    ensures r.Done? ==> OneResultEach(r.items, ids)
    ensures r.Done? ==> Restarted(entries, ids, ans, r.items)
  {
    if |ids| == 0 { return Rejected(IdsRequired); }
    var picked, bad := PickAll(ids, open);
    if bad.Some? { return Rejected(NotRestorable(bad.value)); }
    var sel := SelectEntries(entries, picked);
    var order := OrderRestore(sel);
    var items := StartAll(order, entries, ans);
    ResultsCover(entries, picked, ids, order, ans, items);
    return Done(items);
  }
}
