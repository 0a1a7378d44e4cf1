/**
 The restart tracker's fold: one observation of the engine turns the last snapshot into the next.
 A tracking snapshot follows the running set; a pending one is frozen until nothing is open.
 */
module Reconcile {
  import opened Prelude
  import opened Text
  import opened Sorting
  import opened Entries

  /** One engine container as one tick saw it. */
  datatype Seen = Seen(
    id: string, name: string, image: string, running: bool, excluded: bool, project: string, service: string,
    deps: string, policy: string, autoRemove: bool, finishedAt: int)

  datatype Observation = Observation(
    engineId: string, context: string, host: string, bootId: string, bootAt: int, containers: seq<Seen>,
    unreachableSince: int)

  /** Grace and policy wait in milliseconds. */
  datatype Timing = Timing(grace: int, policyWait: int)

  datatype Phase = Tracking | Pending

  datatype Snapshot = Snapshot(
    engineId: string, context: string, host: string, bootId: string, bootAt: int, phase: Phase,
    detectedAt: int, updatedAt: int, entries: seq<Entry>)

  datatype Status = Restorable | Waiting | Back | Gone

  datatype StatusItem = StatusItem(
    id: string, name: string, image: string, project: string, service: string, status: Status)

  const TOUCH_EVERY := 24 * 60 * 60 * 1000

  // ----- Looking containers up

  function ById(cs: seq<Seen>, id: string): Option<Seen>
  {
    if cs == [] then None
    else if cs[|cs| - 1].id == id then Some(cs[|cs| - 1])
    else ById(cs[..|cs| - 1], id)
  }

  function ByName(cs: seq<Seen>, name: string): Option<Seen>
  {
    if cs == [] then None
    else if cs[|cs| - 1].name == name then Some(cs[|cs| - 1])
    else ByName(cs[..|cs| - 1], name)
  }

  predicate RunsById(o: Observation, id: string)
  {
    var c := ById(o.containers, id);
    c.Some? && c.value.running
  }

  ghost predicate UniqueSeen(cs: seq<Seen>)
  {
    forall i, j :: 0 <= i < j < |cs| ==> cs[i].id != cs[j].id
  }

  lemma {:induction false} ByIdFinds(cs: seq<Seen>, c: Seen)
    requires UniqueSeen(cs) && c in cs
    ensures ById(cs, c.id) == Some(c)
  {
    var n := |cs| - 1;
    if cs[n] != c {
      var i :| 0 <= i < |cs| && cs[i] == c;
      assert c == cs[..n][i];
      ByIdFinds(cs[..n], c);
    }
  }

  lemma {:induction false} ByIdIsSeen(cs: seq<Seen>, id: string)
    ensures ById(cs, id).Some? ==> ById(cs, id).value in cs && ById(cs, id).value.id == id
  {
    if cs != [] && cs[|cs| - 1].id != id { ByIdIsSeen(cs[..|cs| - 1], id); }
  }

  function Look(m: map<string, Seen>, k: string): Option<Seen> { if k in m then Some(m[k]) else None }

  method Index(o: Observation) returns (byId: map<string, Seen>, byName: map<string, Seen>)
    ensures forall k {:trigger Look(byId, k)} :: Look(byId, k) == ById(o.containers, k)
    ensures forall k {:trigger Look(byName, k)} :: Look(byName, k) == ByName(o.containers, k)
  {
    byId, byName := map[], map[];
    var cs := o.containers;
    for i := 0 to |cs|
      invariant forall k {:trigger Look(byId, k)} :: Look(byId, k) == ById(cs[..i], k)
      invariant forall k {:trigger Look(byName, k)} :: Look(byName, k) == ByName(cs[..i], k)
    {
      assert cs[..i + 1][..i] == cs[..i];
      ghost var byId0, byName0 := byId, byName;
      byId := byId[cs[i].id := cs[i]];
      byName := byName[cs[i].name := cs[i]];
      forall k ensures Look(byId, k) == ById(cs[..i + 1], k) { assert Look(byId0, k) == ById(cs[..i], k); }
      forall k ensures Look(byName, k) == ByName(cs[..i + 1], k) { assert Look(byName0, k) == ByName(cs[..i], k); }
    }
    assert cs[..|cs|] == cs;
  }

  // ----- Building a tracking snapshot

  /** Containers worth an entry: running, not owned by tooling, not removed on exit. */
  predicate Eligible(c: Seen) { c.running && !c.excluded && !c.autoRemove }

  function EntryOf(c: Seen, now: int): Entry
  {
    Entry(c.id, c.name, c.image, c.project, c.service, c.deps, c.policy, now, 0)
  }

  function NewEntries(cs: seq<Seen>, known: set<string>, now: int): seq<Entry>
  {
    if cs == [] then []
    else
      var n := |cs| - 1;
      NewEntries(cs[..n], known, now) + if Eligible(cs[n]) && cs[n].id !in known then [EntryOf(cs[n], now)] else []
  }

  function Rebuild(o: Observation, now: int): Snapshot
  {
    Snapshot(o.engineId, o.context, o.host, o.bootId, o.bootAt, Tracking, 0, now,
             SortEntries(NewEntries(o.containers, {}, now)))
  }

  method RebuildTracking(o: Observation, now: int) returns (s: Snapshot)
    ensures s == Rebuild(o, now)
  {
    var entries := [];
    var cs := o.containers;
    for i := 0 to |cs|
      invariant entries == NewEntries(cs[..i], {}, now)
    {
      assert cs[..i + 1][..i] == cs[..i];
      if cs[i].running && !cs[i].excluded && !cs[i].autoRemove { entries := entries + [EntryOf(cs[i], now)]; }
    }
    assert cs[..|cs|] == cs;
    s := Snapshot(o.engineId, o.context, o.host, o.bootId, o.bootAt, Tracking, 0, now, SortEntries(entries));
  }

  // ----- Item statuses

  function StatusOf(e: Entry, bootAt: int, o: Observation, now: int, t: Timing): Status
  {
    Classify(e, ById(o.containers, e.id), ByName(o.containers, e.name), now - bootAt, t)
  }

  /** `c` has the entry's ID, `n` its name; `up` is how long the engine has been up. */
  function Classify(e: Entry, c: Option<Seen>, n: Option<Seen>, up: int, t: Timing): Status
  {
    if c.Some? && c.value.running then Back
    else if c.None? then
      if n.Some? && n.value.running then Back else Gone
    else if (e.policy == "always" || e.policy == "unless-stopped") && up < t.policyWait then Waiting
    else Restorable
  }

  function ItemOf(e: Entry, bootAt: int, o: Observation, now: int, t: Timing): StatusItem
  {
    StatusItem(e.id, e.name, e.image, e.project, e.service, StatusOf(e, bootAt, o, now, t))
  }

  function ItemLe(): (StatusItem, StatusItem) -> bool
  {
    (a: StatusItem, b: StatusItem) => PairLe(a.project, a.name, b.project, b.name)
  }

  function RawItems(s: Snapshot, o: Observation, now: int, t: Timing): seq<StatusItem>
  {
    seq(|s.entries|, i requires 0 <= i < |s.entries| => ItemOf(s.entries[i], s.bootAt, o, now, t))
  }

  function Items(s: Snapshot, o: Observation, now: int, t: Timing): seq<StatusItem>
  {
    Sort(RawItems(s, o, now, t), ItemLe())
  }

  lemma ItemLeTotal()
    ensures TotalPreorder(ItemLe())
  {
    var le := ItemLe();
    forall x: StatusItem, y: StatusItem ensures le(x, y) || le(y, x) {
      PairLeTotal(x.project, x.name, y.project, y.name);
    }
    forall x: StatusItem, y: StatusItem, z: StatusItem | le(x, y) && le(y, z) ensures le(x, z) {
      PairLeTransitive(x.project, x.name, y.project, y.name, z.project, z.name);
    }
  }

  /** How the entries were sorted, said of their items. */
  function EntryOrder(): (StatusItem, StatusItem) -> bool
  {
    (a: StatusItem, b: StatusItem) => PairLe(a.name, a.id, b.name, b.id)
  }

  /** The items are a permutation ordered by project, then name; items alike in both go by ID. */
  lemma ItemsInOrder(s: Snapshot, o: Observation, now: int, t: Timing)
    requires SortedBy(s.entries, EntryLe())
    ensures multiset(Items(s, o, now, t)) == multiset(RawItems(s, o, now, t))
    ensures SortedBy(Items(s, o, now, t), ItemLe()) && TiesBy(Items(s, o, now, t), ItemLe(), EntryOrder())
    ensures var r := Items(s, o, now, t); forall i, j :: 0 <= i < j < |r| ==> ListedBefore(r[i], r[j])
  {
    var raw := RawItems(s, o, now, t);
    ItemLeTotal();
    SortPermutes(raw, ItemLe());
    SortSorted(raw, ItemLe());
    assert SortedBy(raw, EntryOrder()) by {
      forall i, j | 0 <= i < j < |raw| ensures EntryOrder()(raw[i], raw[j]) {
        assert EntryLe()(s.entries[i], s.entries[j]);
      }
    }
    SortStable(raw, ItemLe(), EntryOrder());
    var r := Items(s, o, now, t);
    forall i, j | 0 <= i < j < |r| ensures ListedBefore(r[i], r[j]) {
      ListedBeforeIff(r[i], r[j], ItemLe()(r[j], r[i]));
    }
  }

  lemma ListedBeforeIff(a: StatusItem, b: StatusItem, tie: bool)
    requires ItemLe()(a, b) && (tie <==> ItemLe()(b, a)) && (tie ==> EntryOrder()(a, b))
    ensures ListedBefore(a, b)
  {
    PairLeIff(a.project, a.name, b.project, b.name);
    if a.project == b.project && a.name == b.name {
      PairLeTotal(a.project, a.name, b.project, b.name);
      PairLeIff(a.name, a.id, b.name, b.id);
      NeverEarlier(a.name);
    }
  }

  lemma NeverEarlier(a: string)
    ensures !Earlier(a, a)
  {
    LessIff(a, a);
    LessIrreflexive(a);
  }

  /** By project, then name, then ID, no container's item before an earlier one's. */
  ghost predicate ListedBefore(a: StatusItem, b: StatusItem)
  {
    || Earlier(a.project, b.project)
    || (a.project == b.project && Earlier(a.name, b.name))
    || (a.project == b.project && a.name == b.name && (a.id == b.id || Earlier(a.id, b.id)))
  }

  predicate IsOpen(st: Status) { st == Restorable || st == Waiting }

  predicate HasOpen(items: seq<StatusItem>) { exists i :: 0 <= i < |items| && IsOpen(items[i].status) }

  /** Some entry is neither back nor gone. */
  ghost predicate AnyOpen(s: Snapshot, o: Observation, now: int, t: Timing)
  {
    exists e :: e in s.entries && IsOpen(StatusOf(e, s.bootAt, o, now, t))
  }

  lemma OpenIsAnyOpen(s: Snapshot, o: Observation, now: int, t: Timing)
    ensures HasOpen(Items(s, o, now, t)) <==> AnyOpen(s, o, now, t)
  {
    var raw, items := RawItems(s, o, now, t), Items(s, o, now, t);
    SortPermutes(raw, ItemLe());
    if HasOpen(items) {
      var i :| 0 <= i < |items| && IsOpen(items[i].status);
      assert items[i] in multiset(items);
      var k :| 0 <= k < |raw| && raw[k] == items[i];
      assert s.entries[k] in s.entries;
    }
    if AnyOpen(s, o, now, t) {
      var e :| e in s.entries && IsOpen(StatusOf(e, s.bootAt, o, now, t));
      var k :| 0 <= k < |s.entries| && s.entries[k] == e;
      assert raw[k] in multiset(raw);
      assert raw[k] in items;
    }
  }

  method ItemStatuses(s: Snapshot, o: Observation, now: int, t: Timing) returns (items: seq<StatusItem>)
    ensures items == Items(s, o, now, t)
  {
    var byId, byName := Index(o);
    items := [];
    ghost var raw := RawItems(s, o, now, t);
    for i := 0 to |s.entries|
      invariant items == raw[..i]
    {
      var e := s.entries[i];
      assert raw[..i + 1] == raw[..i] + [raw[i]];
      var status := Classify(e, Look(byId, e.id), Look(byName, e.name), now - s.bootAt, t);
      items := items + [StatusItem(e.id, e.name, e.image, e.project, e.service, status)];
    }
    assert raw[..|s.entries|] == raw;
    items := Sort(items, ItemLe());
  }

  // ----- Steady state

  /** One entry after one tick: refreshed, marked stopped, dropped past grace, or kept. */
  function Refresh(e: Entry, c: Option<Seen>, now: int, t: Timing): Option<Entry>
  {
    if c.Some? && c.value.running then Some(e.(stoppedSeenAt := 0, name := c.value.name))
    else if e.stoppedSeenAt == 0 then Some(e.(stoppedSeenAt := now))
    else if now - e.stoppedSeenAt >= t.grace then None
    else Some(e)
  }

  predicate Alters(e: Entry, c: Option<Seen>, now: int, t: Timing)
  {
    if c.Some? && c.value.running then e.stoppedSeenAt != 0 || e.name != c.value.name
    else e.stoppedSeenAt == 0 || now - e.stoppedSeenAt >= t.grace
  }

  function Kept(e: Entry, o: Observation, now: int, t: Timing): Option<Entry>
  {
    Refresh(e, ById(o.containers, e.id), now, t)
  }

  predicate Touched(e: Entry, o: Observation, now: int, t: Timing) { Alters(e, ById(o.containers, e.id), now, t) }

  function KeptAll(es: seq<Entry>, o: Observation, now: int, t: Timing): seq<Entry>
  {
    if es == [] then []
    else
      var n := |es| - 1;
      var k := Kept(es[n], o, now, t);
      KeptAll(es[..n], o, now, t) + if k.Some? then [k.value] else []
  }

  predicate AnyTouched(es: seq<Entry>, o: Observation, now: int, t: Timing)
  {
    es != [] && (AnyTouched(es[..|es| - 1], o, now, t) || Touched(es[|es| - 1], o, now, t))
  }

  function Ids(es: seq<Entry>): set<string> { set e | e in es :: e.id }

  predicate Changes(es: seq<Entry>, o: Observation, now: int, t: Timing)
  {
    || AnyTouched(es, o, now, t)
    || NewEntries(o.containers, Ids(es), now) != []
  }

  function Updated(es: seq<Entry>, o: Observation, now: int, t: Timing): seq<Entry>
  {
    var r := KeptAll(es, o, now, t) + NewEntries(o.containers, Ids(es), now);
    if Changes(es, o, now, t) then SortEntries(r) else r
  }

  method RefreshEntry(e0: Entry, c: Option<Seen>, now: int, t: Timing) returns (kept: Option<Entry>, changed: bool)
    ensures kept == Refresh(e0, c, now, t) && changed == Alters(e0, c, now, t)
  {
    var e := e0;
    changed := false;
    if c.Some? && c.value.running {
      if e.stoppedSeenAt != 0 { e, changed := e.(stoppedSeenAt := 0), true; }
      if e.name != c.value.name { e, changed := e.(name := c.value.name), true; }
    } else if e.stoppedSeenAt == 0 {
      e, changed := e.(stoppedSeenAt := now), true;
    } else if now - e.stoppedSeenAt >= t.grace {
      return None, true;
    }
    kept := Some(e);
  }

  /** After `i` entries: the survivors, the IDs met and whether anything changed. */
  ghost predicate Compacted(es: seq<Entry>, o: Observation, now: int, t: Timing, i: nat, survivors: seq<Entry>,
                            known: set<string>, changed: bool)
  {
    && i <= |es|
    && survivors == KeptAll(es[..i], o, now, t)
    && known == Ids(es[..i])
    && changed == AnyTouched(es[..i], o, now, t)
  }

  lemma CompactedStep(es: seq<Entry>, o: Observation, now: int, t: Timing, i: nat, survivors: seq<Entry>,
                      known: set<string>, changed: bool)
    requires Compacted(es, o, now, t, i, survivors, known, changed) && i < |es|
    ensures var k := Kept(es[i], o, now, t);
            Compacted(es, o, now, t, i + 1, if k.Some? then survivors + [k.value] else survivors,
                      known + {es[i].id}, changed || Touched(es[i], o, now, t))
  {
    var more := es[..i + 1];
    assert more[..i] == es[..i] && more == es[..i] + [es[i]];
    assert survivors + [] == survivors;
  }

  /** Puts an entry that survives behind those that did before. */
  method Retain(a: array<Entry>, kept: nat, e: Option<Entry>) returns (n: nat)
    requires kept < a.Length
    modifies a
    ensures n == kept + (if e.Some? then 1 else 0)
    ensures a[..n] == if e.Some? then old(a[..kept]) + [e.value] else old(a[..kept])
    ensures forall j :: kept < j < a.Length ==> a[j] == old(a[j])
  {
    if e.None? { return kept; }
    a[kept] := e.value;
    return kept + 1;
  }

  /** Keeps the surviving entries at the front of the slice they came from. */
  method Compact(a: array<Entry>, o: Observation, now: int, t: Timing)
    returns (kept: nat, known: set<string>, changed: bool)
    modifies a
    ensures kept <= a.Length && a[..kept] == KeptAll(old(a[..]), o, now, t)
    ensures known == Ids(old(a[..]))
    ensures changed == AnyTouched(old(a[..]), o, now, t)
  {
    ghost var es := a[..];
    var byId, _ := Index(o);
    kept, known, changed := 0, {}, false;
    for i := 0 to a.Length
      invariant forall k :: i <= k < a.Length ==> a[k] == es[k]
      invariant kept <= i && Compacted(es, o, now, t, i, a[..kept], known, changed)
    {
      var e := a[i];
      CompactedStep(es, o, now, t, i, a[..kept], known, changed);
      known := known + {e.id};
      var k, touched := RefreshEntry(e, Look(byId, e.id), now, t);
      changed := changed || touched;
      kept := Retain(a, kept, k);
    }
    assert es[..|es|] == es;
  }

  lemma NewEntriesStep(cs: seq<Seen>, i: nat, known: set<string>, now: int)
    requires i < |cs|
    ensures NewEntries(cs[..i + 1], known, now) ==
            NewEntries(cs[..i], known, now) +
            if Eligible(cs[i]) && cs[i].id !in known then [EntryOf(cs[i], now)] else []
  {
    assert cs[..i + 1][..i] == cs[..i];
  }

  /** Enters the containers worth an entry that have none. */
  method AddNew(survivors: seq<Entry>, known: set<string>, touched: bool, cs: seq<Seen>, now: int)
    returns (entries: seq<Entry>, changed: bool)
    ensures entries == survivors + NewEntries(cs, known, now)
    ensures changed == (touched || NewEntries(cs, known, now) != [])
  {
    entries, changed := survivors, touched;
    NothingAfter(survivors);
    for i := 0 to |cs|
      invariant entries == survivors + NewEntries(cs[..i], known, now)
      invariant changed == (touched || NewEntries(cs[..i], known, now) != [])
    {
      NewEntriesStep(cs, i, known, now);
      if cs[i].id in known || !cs[i].running || cs[i].excluded || cs[i].autoRemove {
        NothingAfter(NewEntries(cs[..i], known, now));
        continue;
      }
      Regroup(survivors, NewEntries(cs[..i], known, now), [EntryOf(cs[i], now)]);
      entries, changed := entries + [EntryOf(cs[i], now)], true;
    }
    assert cs[..|cs|] == cs;
  }

  /** The steady-state pass: the entry slice is compacted in place, then extended. */
  method UpdateEntries(a: array<Entry>, o: Observation, now: int, t: Timing)
    returns (entries: seq<Entry>, changed: bool)
    modifies a
    ensures entries == Updated(old(a[..]), o, now, t)
    ensures changed == Changes(old(a[..]), o, now, t)
  {
    var kept, known, touched := Compact(a, o, now, t);
    entries, changed := AddNew(a[..kept], known, touched, o.containers, now);
    if changed { entries := SortEntries(entries); }
  }

  // ----- Restart detection

  predicate BootMoved(s: Snapshot, o: Observation) { s.bootId != "" && o.bootId != "" && s.bootId != o.bootId }

  predicate Outage(s: Snapshot, o: Observation) { s.bootId == "" && o.bootId == "" && o.unreachableSince > 0 }

  /** An outage explains entries still running, missing, or stopped no earlier than it began. */
  predicate Explained(e: Entry, o: Observation, t: Timing)
  {
    var c := ById(o.containers, e.id);
    c.None? || c.value.running || c.value.finishedAt >= o.unreachableSince - t.grace
  }

  function ExplainedAll(es: seq<Entry>, o: Observation, t: Timing): seq<Entry>
  {
    if es == [] then []
    else
      var n := |es| - 1;
      ExplainedAll(es[..n], o, t) + if Explained(es[n], o, t) then [es[n]] else []
  }

  method OutageEntries(es: seq<Entry>, o: Observation, t: Timing) returns (out: seq<Entry>)
    ensures out == ExplainedAll(es, o, t)
  {
    var byId, _ := Index(o);
    var floor := o.unreachableSince - t.grace;
    out := [];
    for i := 0 to |es|
      invariant out == ExplainedAll(es[..i], o, t)
    {
      assert es[..i + 1][..i] == es[..i];
      var e := es[i];
      var c := Look(byId, e.id);
      if c.None? || c.value.running || c.value.finishedAt >= floor { out := out + [e]; }
    }
    assert es[..|es|] == es;
  }

  /** What would be offered after a restart; only read when one was detected. */
  function Candidate(s: Snapshot, o: Observation, now: int, t: Timing): Snapshot
  {
    if BootMoved(s, o) then s.(bootId := o.bootId, bootAt := o.bootAt)
    else s.(bootAt := now, entries := ExplainedAll(s.entries, o, t))
  }

  function DetectRestart(s: Snapshot, o: Observation, now: int, t: Timing): Option<Snapshot>
  {
    if !BootMoved(s, o) && !Outage(s, o) then None
    else
      var c := Candidate(s, o, now, t);
      if !HasOpen(Items(c, o, now, t)) then None
      else Some(c.(phase := Pending, detectedAt := now, updatedAt := now))
  }

  function Touch(s: Snapshot, changed: bool, now: int): (Snapshot, bool)
  {
    if changed || now - s.updatedAt >= TOUCH_EVERY then (s.(updatedAt := now), true) else (s, false)
  }

  predicate AdoptsBoot(s: Snapshot, o: Observation) { o.bootId != "" && o.bootId != s.bootId }

  function FollowBoot(s: Snapshot, o: Observation): Snapshot
  {
    if AdoptsBoot(s, o) then s.(bootId := o.bootId, bootAt := o.bootAt) else s
  }

  function StepPending(s: Snapshot, o: Observation, now: int, t: Timing): (Snapshot, bool)
  {
    var s1 := FollowBoot(s, o);
    if !HasOpen(Items(s1, o, now, t)) then (Rebuild(o, now), true)
    else Touch(s1, AdoptsBoot(s, o), now)
  }

  /** The fold: the next snapshot and whether it must be saved. */
  function Step(prev: Option<Snapshot>, o: Observation, now: int, t: Timing): (Snapshot, bool)
  {
    if prev.None? then (Rebuild(o, now), true)
    else
      var s := prev.value.(context := o.context, host := o.host);
      if s.phase == Pending then StepPending(s, o, now, t)
      else
        var d := DetectRestart(s, o, now, t);
        if d.Some? then (d.value, true)
        else
          var s1 := FollowBoot(s, o).(entries := Updated(s.entries, o, now, t));
          Touch(s1, AdoptsBoot(s, o) || Changes(s.entries, o, now, t), now)
  }

  /**
   The fold as the tracker runs it. The previous snapshot's entries live in `cells`, which a caller
   keeps using: the frame says they are not written.
   */
  method Run(prev: Option<Snapshot>, cells: array<Entry>, o: Observation, now: int, t: Timing)
    returns (next: Snapshot, changed: bool)
    requires prev.Some? ==> cells[..] == prev.value.entries
    ensures (next, changed) == Step(prev, o, now, t)
  {
    if prev.None? {
      next := RebuildTracking(o, now);
      return next, true;
    }
    var s := prev.value.(context := o.context, host := o.host);
    if s.phase == Pending {
      var s1, moved := s, false;
      if o.bootId != "" && o.bootId != s.bootId { s1, moved := s1.(bootId := o.bootId, bootAt := o.bootAt), true; }
      var items := ItemStatuses(s1, o, now, t);
      if !HasOpen(items) {
        next := RebuildTracking(o, now);
        return next, true;
      }
      if moved || now - s1.updatedAt >= TOUCH_EVERY { s1, moved := s1.(updatedAt := now), true; }
      return s1, moved;
    }
    if BootMoved(s, o) || Outage(s, o) {
      var c := s;
      if BootMoved(s, o) {
        c := c.(bootId := o.bootId, bootAt := o.bootAt);
      } else {
        var left := OutageEntries(s.entries, o, t);
        c := c.(bootAt := now, entries := left);
      }
      var items := ItemStatuses(c, o, now, t);
      if HasOpen(items) { return c.(phase := Pending, detectedAt := now, updatedAt := now), true; }
    }
    var moved := false;
    var s1 := s;
    if o.bootId != "" && o.bootId != s1.bootId { s1, moved := s1.(bootId := o.bootId, bootAt := o.bootAt), true; }
    var copy := new Entry[cells.Length](i requires 0 <= i < cells.Length reads cells => cells[i]);
    assert copy[..] == cells[..];
    var entries, updated := UpdateEntries(copy, o, now, t);
    s1 := s1.(entries := entries);
    if moved || updated || now - s1.updatedAt >= TOUCH_EVERY { return s1.(updatedAt := now), true; }
    return s1, false;
  }
}
