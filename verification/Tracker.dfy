/**
 The restart tracker as an object: a cache of snapshots over a store that may fail, the state it
 shows, and the states it pushed. Ticks, restores and dismissals are atomic steps.
 */
module Tracker {
  import opened Prelude
  import opened Sorting
  import opened Entries
  import opened RestoreRun
  import opened Reconcile
  import opened TrackerRuns
  import opened StepMeaning

  /** One container of a pending restore with its last restore failure. */
  datatype WireItem = WireItem(item: StatusItem, failure: Option<Outcome>)

  datatype WireState = WireState(
    pending: bool, engineId: string, context: string, detectedAt: int, bootAt: int, items: seq<WireItem>)

  function NoRestore(): WireState { WireState(false, "", "", 0, 0, []) }

  function Annotated(items: seq<StatusItem>, errs: map<string, Outcome>): seq<WireItem>
  {
    seq(|items|, i requires 0 <= i < |items| =>
      WireItem(items[i], if items[i].id in errs then Some(errs[items[i].id]) else None))
  }

  /** The wire view of a snapshot: pending lists its items, anything else is none. */
  function Wire(s: Snapshot, o: Observation, now: int, t: Timing, errs: map<string, Outcome>): WireState
  {
    if s.phase != Pending then WireState(false, o.engineId, o.context, 0, 0, [])
    else WireState(true, o.engineId, o.context, s.detectedAt, s.bootAt, Annotated(Items(s, o, now, t), errs))
  }

  /** The item's failure is the one on record for its ID, if there is one. */
  ghost predicate FailsAs(w: WireItem, errs: map<string, Outcome>)
  {
    if w.item.id in errs then w.failure == Some(errs[w.item.id]) else w.failure == None
  }

  /** What the windows are shown of a snapshot. */
  lemma WireMeans(s: Snapshot, o: Observation, now: int, t: Timing, errs: map<string, Outcome>, w: WireItem)
    ensures var st := Wire(s, o, now, t, errs);
            && st.engineId == o.engineId && st.context == o.context && (st.pending <==> s.phase == Pending)
            && (if st.pending then st.detectedAt == s.detectedAt && st.bootAt == s.bootAt
                else st.detectedAt == 0 && st.bootAt == 0)
            && |st.items| == (if st.pending then |s.entries| else 0)
            && (w in st.items <==>
                st.pending && FailsAs(w, errs) && exists e :: e in s.entries && Shows(w.item, e, s, o, now, t))
  {
    var items := Items(s, o, now, t);
    ItemsMean(s, o, now, t, w.item);
    if s.phase == Pending && w.item in items && FailsAs(w, errs) {
      var k :| 0 <= k < |items| && items[k] == w.item;
      assert Annotated(items, errs)[k] == w;
    }
  }

  function OpenIds(items: seq<StatusItem>): set<string> { set it | it in items && IsOpen(it.status) :: it.id }

  lemma OpenIdsAreEntries(s: Snapshot, o: Observation, now: int, t: Timing)
    ensures forall id :: id in OpenIds(Items(s, o, now, t)) ==> exists e :: e in s.entries && e.id == id
  {
    var raw, items := RawItems(s, o, now, t), Items(s, o, now, t);
    SortPermutes(raw, ItemLe());
    forall id | id in OpenIds(items) ensures exists e :: e in s.entries && e.id == id {
      var it :| it in items && it.id == id;
      assert it in multiset(items);
      var k :| 0 <= k < |raw| && raw[k] == it;
      assert s.entries[k] in s.entries;
    }
  }

  /** What may be restored is what is listed and stopped. */
  lemma OpenIdsMean(s: Snapshot, o: Observation, now: int, t: Timing, id: string)
    ensures id in OpenIds(Items(s, o, now, t)) <==>
              (exists e :: e in s.entries && e.id == id) && StoppedNow(o.containers, id)
  {
    var items := Items(s, o, now, t);
    if it :| it in items && IsOpen(it.status) && it.id == id {
      ItemsMean(s, o, now, t, it);
      var e :| e in s.entries && Shows(it, e, s, o, now, t);
      OpenMeans(e, s.bootAt, o, now, t);
    }
    if e :| e in s.entries && e.id == id {
      var it := ItemOf(e, s.bootAt, o, now, t);
      ItemsMean(s, o, now, t, it);
      assert Shows(it, e, s, o, now, t);
      OpenMeans(e, s.bootAt, o, now, t);
    }
  }

  /** The failures on record after a restore: an ID's own result replaces what was there. */
  function Recorded(errs: map<string, Outcome>, items: seq<Item>): map<string, Outcome>
  {
    if items == [] then errs
    else
      var n := |items| - 1;
      var before := Recorded(errs, items[..n]);
      if items[n].outcome.Started? then before - {items[n].id} else before[items[n].id := items[n].outcome]
  }

  ghost predicate LastResult(items: seq<Item>, id: string, i: nat)
  {
    i < |items| && items[i].id == id && forall j :: i < j < |items| ==> items[j].id != id
  }

  /** What one result makes of the failure on record. */
  function After(before: Option<Outcome>, id: string, it: Item): Option<Outcome>
  {
    if it.id != id then before else if it.outcome == Started then None else Some(it.outcome)
  }

  lemma RecordedMore(errs: map<string, Outcome>, items: seq<Item>, it: Item, id: string)
    ensures OnRecord(Recorded(errs, items + [it]), id) == After(OnRecord(Recorded(errs, items), id), id, it)
  {
    assert (items + [it])[..|items|] == items;
  }

  function OnRecord(errs: map<string, Outcome>, id: string): Option<Outcome>
  {
    if id in errs then Some(errs[id]) else None
  }

  /** A container that had no result keeps the failure on record. */
  lemma {:induction false} OthersRecorded(errs: map<string, Outcome>, items: seq<Item>, id: string)
    requires forall i :: 0 <= i < |items| ==> items[i].id != id
    ensures OnRecord(Recorded(errs, items), id) == OnRecord(errs, id)
  {
    if items != [] {
      var n := |items| - 1;
      OthersRecorded(errs, items[..n], id);
      assert items == items[..n] + [items[n]];
      RecordedMore(errs, items[..n], items[n], id);
    }
  }

  /** The last result of a container decides: started is forgotten, anything else is the failure. */
  lemma {:induction false} RecordedMeans(errs: map<string, Outcome>, items: seq<Item>, id: string, i: nat)
    requires LastResult(items, id, i)
    ensures OnRecord(Recorded(errs, items), id) == if items[i].outcome == Started then None else Some(items[i].outcome)
  {
    var n := |items| - 1;
    assert items == items[..n] + [items[n]];
    RecordedMore(errs, items[..n], items[n], id);
    if i < n {
      assert LastResult(items[..n], id, i);
      RecordedMeans(errs, items[..n], id, i);
    }
  }

  /**
   A request is served exactly when it names something and only what is open; each ID then has one
   result, and the results are those of a run in the restart order.
   */
  ghost predicate Served(snap: Snapshot, open: set<string>, ids: seq<string>, ans: Answers, r: Restored)
  {
    && (r.Done? <==> ids != [] && forall id :: id in ids ==> id in open)
    && (r.Done? ==> OneResultEach(r.items, ids) && Restarted(snap.entries, ids, ans, r.items))
  }

  datatype Answer = NotPending | Answered(result: Restored)

  /** Every cached snapshot is the saved one. */
  ghost predicate CacheIsStored(snaps: map<string, Snapshot>, store: map<string, Snapshot>)
  {
    "" !in snaps && forall e :: e in snaps ==> e in store && store[e] == snaps[e]
  }

  ghost predicate AllWellKept(store: map<string, Snapshot>)
  {
    forall e :: e in store ==> WellKept(store[e].entries)
  }

  /** Windows show the current state: it was pushed last, or it is none and nothing was pushed. */
  ghost predicate WindowsUpToDate(cur: WireState, pushed: seq<WireState>)
  {
    if pushed == [] then !cur.pending && cur.items == [] else pushed[|pushed| - 1] == cur
  }

  /** The state on record for the last engine is the current one, made from its last observation. */
  ghost predicate LastIsShown(
    engine: string, lastKey: map<string, WireState>, cur: WireState, pushed: seq<WireState>, obs: Observation)
  {
    && UniqueSeen(obs.containers)
    && if engine == "" then pushed == [] && lastKey == map[]
       else engine in lastKey && lastKey[engine] == cur && engine == obs.engineId
  }

  class RestoreTracker {
    const t: Timing
    var snaps: map<string, Snapshot>
    var lastKey: map<string, WireState>
    var lastEngine: string
    var errs: map<string, Outcome>
    var unreachableSince: int
    var failStreak: nat
    var reachable: bool
    var cur: WireState
    var curObs: Observation
    /** The saved snapshots and the states sent to the windows. */
    var store: map<string, Snapshot>
    var pushed: seq<WireState>

    ghost predicate Valid()
      reads this`snaps, this`store, this`cur, this`curObs, this`pushed, this`lastKey, this`lastEngine
    {
      && CacheIsStored(snaps, store) && AllWellKept(store)
      && WindowsUpToDate(cur, pushed)
      && LastIsShown(lastEngine, lastKey, cur, pushed, curObs)
    }

    constructor (timing: Timing, saved: map<string, Snapshot>)
      requires AllWellKept(saved)
      ensures Valid() && store == saved && t == timing && pushed == [] && snaps == map[] && unreachableSince == 0
    {
      t := timing;
      snaps, lastKey, lastEngine, errs := map[], map[], "", map[];
      unreachableSince, failStreak, reachable := 0, 0, false;
      cur, curObs := NoRestore(), Observation("", "", "", "", 0, [], 0);
      store, pushed := saved, [];
    }

    /** What the tracker folds into: the cache, else the saved snapshot if it can be read. */
    function PrevFor(engine: string, loads: bool): Option<Snapshot>
      reads this`snaps, this`store
    {
      if engine in snaps then Some(snaps[engine]) else if loads && engine in store then Some(store[engine]) else None
    }

    predicate Emits(st: WireState, engine: string)
      reads this`lastKey, this`lastEngine
    {
      || (engine in lastKey && lastKey[engine] != st)
      || (engine !in lastKey && st.pending)
      || (lastEngine != "" && lastEngine != engine)
    }

    method Publish(s: Snapshot, o: Observation, now: int)
      requires Valid() && o.engineId != "" && UniqueSeen(o.containers)
      modifies this`cur, this`curObs, this`lastKey, this`lastEngine, this`pushed
      ensures Valid() && cur == Wire(s, o, now, t, errs) && curObs == o
      ensures pushed == if old(Emits(Wire(s, o, now, t, errs), o.engineId)) then old(pushed) + [cur] else old(pushed)
      ensures pushed == old(pushed) <==>
              && (old(lastEngine) == "" || old(lastEngine) == o.engineId)
              && if o.engineId in old(lastKey) then old(lastKey)[o.engineId] == cur else !cur.pending
    {
      var st := Wire(s, o, now, t, errs);
      var emit := Emits(st, o.engineId);
      cur, curObs := st, o;
      lastEngine := o.engineId;
      lastKey := lastKey[o.engineId := st];
      if emit { pushed := pushed + [st]; }
    }

    /** An engine that does not answer changes nothing but the outage clock. */
    method MarkDown(now: int) returns (reresolve: bool)
      requires Valid()
      modifies this`reachable, this`unreachableSince, this`failStreak
      ensures Valid() && !reachable
      ensures unreachableSince == if old(unreachableSince) == 0 then now else old(unreachableSince)
      ensures reresolve <==> old(failStreak) + 1 >= 3
      ensures failStreak == if reresolve then 0 else old(failStreak) + 1
    {
      reachable := false;
      if unreachableSince == 0 { unreachableSince := now; }
      failStreak := failStreak + 1;
      reresolve := failStreak >= 3;
      if reresolve { failStreak := 0; }
    }

    method Fold(prev: Option<Snapshot>, o: Observation, now: int) returns (next: Snapshot, changed: bool)
      requires prev.Some? ==> WellKept(prev.value.entries)
      requires UniqueSeen(o.containers)
      ensures (next, changed) == Step(prev, o, now, t)
      ensures WellKept(next.entries) && (prev.None? ==> changed)
    {
      var es := if prev.Some? then prev.value.entries else [];
      var cells := new Entry[|es|](i requires 0 <= i < |es| => es[i]);
      assert cells[..] == es;
      next, changed := Reconcile.Run(prev, cells, o, now, t);
      StepWellKept(prev, o, now, t);
    }

    /** The snapshot to fold into; a saved one is cached on first sight. */
    method Recall(engine: string, loads: bool) returns (prev: Option<Snapshot>)
      requires Valid() && engine != ""
      modifies this`snaps
      ensures Valid() && prev == old(PrevFor(engine, loads))
      ensures engine in old(snaps) ==> prev == Some(old(snaps)[engine])
      ensures engine !in old(snaps) ==> prev == if loads && engine in store then Some(store[engine]) else None
      ensures prev.Some? ==> WellKept(prev.value.entries)
      ensures snaps == if prev.Some? then old(snaps)[engine := prev.value] else old(snaps)
    {
      prev := PrevFor(engine, loads);
      if prev.Some? { snaps := snaps[engine := prev.value]; }
    }

    /** Saves a changed snapshot and caches it only if that worked. */
    method Keep(next: Snapshot, engine: string, saves: bool)
      requires Valid() && engine != "" && WellKept(next.entries)
      modifies this`snaps, this`store
      ensures Valid()
      ensures store == if saves then old(store)[engine := next] else old(store)
      ensures snaps == if saves then old(snaps)[engine := next] else old(snaps)
    {
      if saves { store, snaps := store[engine := next], snaps[engine := next]; }
    }

    /** The end of a reachable tick: keep what changed, reset the outage clock, publish. */
    method Settle(next: Snapshot, o: Observation, now: int, changed: bool, saves: bool)
      requires Valid() && o.engineId != "" && UniqueSeen(o.containers) && WellKept(next.entries)
      modifies this`snaps, this`store, this`reachable, this`unreachableSince, this`failStreak, this`cur, this`curObs,
               this`lastKey, this`lastEngine, this`pushed
      ensures Valid() && reachable && unreachableSince == 0
      ensures cur == Wire(next, o, now, t, errs)
      ensures store == if changed && saves then old(store)[o.engineId := next] else old(store)
      ensures snaps == if changed && saves then old(snaps)[o.engineId := next] else old(snaps)
    {
      if changed { Keep(next, o.engineId, saves); }
      reachable, unreachableSince, failStreak := true, 0, 0;
      Publish(next, o, now);
    }

    /**
     One observed tick. `loads` and `saves` say whether the store can be read and written now; a
     failed save leaves cache and store alone, so the next tick folds into the same snapshot again.
     */
    method Tick(seen: Observation, now: int, loads: bool, saves: bool) returns (next: Snapshot, changed: bool)
      requires Valid() && seen.engineId != "" && UniqueSeen(seen.containers)
      modifies this
      ensures Valid() && errs == old(errs) && reachable && unreachableSince == 0
      ensures (next, changed) ==
              Step(old(PrevFor(seen.engineId, loads)), seen.(unreachableSince := old(unreachableSince)), now, t)
      ensures cur == Wire(next, seen.(unreachableSince := old(unreachableSince)), now, t, errs)
      ensures store == if changed && saves then old(store)[seen.engineId := next] else old(store)
      ensures seen.engineId in snaps <==> old(PrevFor(seen.engineId, loads)).Some? || saves
      ensures forall e :: e != seen.engineId ==> (e in snaps <==> e in old(snaps))
    {
      var engine := seen.engineId;
      var prev := Recall(engine, loads);
      var o := seen.(unreachableSince := unreachableSince);
      next, changed := Fold(prev, o, now);
      Settle(next, o, now, changed, saves);
    }

    function PendingFor(engine: string): Option<Snapshot>
      reads this`reachable, this`snaps, this`curObs
    {
      if !reachable || curObs.engineId !in snaps || curObs.engineId != engine || snaps[engine].phase != Pending
      then None else Some(snaps[engine])
    }

    /** The containers a pending engine's restore may be asked for. */
    ghost function OpenFor(engine: string, now: int): set<string>
      requires PendingFor(engine).Some?
      reads this`reachable, this`snaps, this`curObs
    {
      OpenIds(Items(PendingFor(engine).value, curObs, now, t))
    }

    method Record(items: seq<Item>)
      modifies this`errs
      ensures errs == Recorded(old(errs), items)
    {
      for i := 0 to |items|
        invariant errs == Recorded(old(errs), items[..i])
      {
        assert items[..i + 1][..i] == items[..i];
        if items[i].outcome.Started? {
          errs := errs - {items[i].id};
        } else {
          errs := errs[items[i].id := items[i].outcome];
        }
      }
      assert items[..|items|] == items;
    }

    /** Starts the picked containers of the pending engine; all must still be open. */
    method RestorePicked(engine: string, ids: seq<string>, now: int, ans: Answers) returns (r: Restored)
      requires Valid() && PendingFor(engine).Some?
      ensures Served(PendingFor(engine).value, OpenFor(engine, now), ids, ans, r)
    {
      var snap := PendingFor(engine).value;
      var items := ItemStatuses(snap, curObs, now, t);
      OpenIdsAreEntries(snap, curObs, now, t);
      r := Restore(snap.entries, OpenIds(items), ids, ans);
    }

    /** Starts the picked containers of the pending engine and records each failure. */
    method RestoreContainers(engine: string, ids: seq<string>, now: int, ans: Answers) returns (a: Answer)
      requires Valid()
      modifies this`errs
      ensures Valid()
      ensures a.NotPending? <==> old(PendingFor(engine)).None?
      ensures a.Answered? <==>
              reachable && curObs.engineId == engine && engine in snaps && snaps[engine].phase == Pending
      ensures a.Answered? ==> Served(old(PendingFor(engine)).value, old(OpenFor(engine, now)), ids, ans, a.result)
      ensures errs == if a.Answered? && a.result.Done? then Recorded(old(errs), a.result.items) else old(errs)
    {
      if PendingFor(engine).None? { return NotPending; }
      var r := RestorePicked(engine, ids, now, ans);
      if r.Done? { Record(r.items); }
      return Answered(r);
    }

    /** Drops the pending restore: tracking starts again from the live running set. */
    method Dismiss(engine: string, now: int, saves: bool) returns (done: bool)
      requires Valid()
      modifies this`errs, this`store, this`snaps, this`cur, this`curObs, this`lastKey, this`lastEngine, this`pushed
      ensures Valid()
      ensures done <==> old(PendingFor(engine)).Some?
      ensures done <==> old(reachable && curObs.engineId == engine && engine in snaps && snaps[engine].phase == Pending)
      ensures !done ==> unchanged(this)
      ensures done ==> errs == map[] && !cur.pending && cur.items == []
      ensures done ==>
              PrevFor(engine, true) == (if saves then Some(Rebuild(old(curObs), now)) else old(PrevFor(engine, true)))
    {
      if PendingFor(engine).None? { return false; }
      var o := curObs;
      errs := map[];
      var next := RebuildTracking(o, now);
      RebuildWellKept(o, now);
      Keep(next, engine, saves);
      assert PrevFor(engine, true) == if saves then Some(next) else old(PrevFor(engine, true));
      Publish(next, o, now);
      return true;
    }

    /** Forgets the outage clock of the previous engine. */
    method ContextChanged()
      requires Valid()
      modifies this`unreachableSince
      ensures Valid() && unreachableSince == 0
    {
      unreachableSince := 0;
    }
  }

  // ----- The object over a whole run

  /**
   What happens to the tracker: an engine answers, or none does, or the context changes. Of an
   answered visit `loads` and `saves` say whether the store can be read and written.
   */
  datatype Visit = Up(seen: Observation, now: int, loads: bool, saves: bool) | Down(now: int) | Switched(now: int)

  predicate Answers(v: Visit, engine: string) { v.Up? && v.seen.engineId == engine }

  ghost predicate Orderly(visits: seq<Visit>)
  {
    && (forall i :: 0 <= i < |visits| ==> visits[i].now > 0)
    && (forall i, j :: 0 <= i <= j < |visits| ==> visits[i].now <= visits[j].now)
    && (forall i :: 0 <= i < |visits| && visits[i].Up? ==>
      visits[i].seen.engineId != "" && UniqueSeen(visits[i].seen.containers))
  }

  function Tock(since: int, v: Visit): int
  {
    match v
    case Up(_, _, _, _) => 0
    case Down(now) => if since == 0 then now else since
    case Switched(_) => 0
  }

  /** The outage clock after some visits, from `since` on. */
  function Clock(since: int, visits: seq<Visit>): int
  {
    if visits == [] then since else Tock(Clock(since, visits[..|visits| - 1]), visits[|visits| - 1])
  }

  /** The unanswered visits at the end begin with visit `j`. */
  ghost predicate FirstDown(visits: seq<Visit>, j: nat)
  {
    && j < |visits| && (forall i :: j <= i < |visits| ==> visits[i].Down?)
    && (j > 0 ==> !visits[j - 1].Down?)
  }

  /** The clock of a tracker that starts without an outage dates the first unanswered visit, or is 0. */
  lemma {:induction false} ClockDatesOutage(visits: seq<Visit>, j: nat)
    requires forall i :: 0 <= i < |visits| ==> visits[i].now > 0
    ensures Clock(0, visits) == 0 <==> visits == [] || !visits[|visits| - 1].Down?
    ensures FirstDown(visits, j) ==> Clock(0, visits) == visits[j].now
  {
    if visits != [] {
      var n := |visits| - 1;
      ClockDatesOutage(visits[..n], j);
      if FirstDown(visits, j) && j < n { assert FirstDown(visits[..n], j); }
    }
  }

  /** Whether what is saved for the engine was at hand once, `known` saying so of the start. */
  function Known(known: bool, visits: seq<Visit>, engine: string): bool
  {
    known || exists i :: 0 <= i < |visits| && Answers(visits[i], engine) && (visits[i].loads || visits[i].saves)
  }

  /** The tick of an answered visit, `since` and `known` saying how things stood before it. */
  function TickOf(v: Visit, since: int, known: bool): Tick
    requires v.Up?
  {
    Tick(v.seen.(unreachableSince := since), v.now, known || v.loads, v.saves)
  }

  /** The ticks that the visits make for the engine. */
  function TicksOf(visits: seq<Visit>, engine: string, since: int, known: bool): seq<Tick>
  {
    if visits == [] then []
    else
      var n := |visits| - 1;
      var front, v := visits[..n], visits[n];
      if Answers(v, engine)
      then TicksOf(front, engine, since, known) + [TickOf(v, Clock(since, front), Known(known, front, engine))]
      else TicksOf(front, engine, since, known)
  }

  /** What is saved for the engine is what the history keeps at its end. */
  ghost predicate StandsAt(tr: RestoreTracker, engine: string, h: History)
    reads tr
  {
    IsHistory(h) && h.t == tr.t && tr.PrevFor(engine, true) == h.kept[|h.ticks|]
  }

  /** `known` says whether the saved snapshot, if any, is cached. */
  ghost predicate KnownIs(tr: RestoreTracker, engine: string, known: bool)
    reads tr
  {
    if known then engine in tr.store ==> engine in tr.snaps else engine !in tr.snaps
  }

  ghost predicate NotBefore(h: History, now: int) { forall i :: 0 <= i < |h.ticks| ==> h.ticks[i].now <= now }

  method VisitOnce(tr: RestoreTracker, engine: string, v: Visit, known: bool, ghost h: History)
    returns (ghost next: History)
    requires tr.Valid() && StandsAt(tr, engine, h) && KnownIs(tr, engine, known)
    requires v.now > 0 && NotBefore(h, v.now)
    requires v.Up? ==> v.seen.engineId != "" && UniqueSeen(v.seen.containers)
    modifies tr
    ensures tr.Valid() && StandsAt(tr, engine, next) && tr.unreachableSince == Tock(old(tr.unreachableSince), v)
    ensures KnownIs(tr, engine, known || (Answers(v, engine) && (v.loads || v.saves)))
    ensures next == if Answers(v, engine) then Next(h, TickOf(v, old(tr.unreachableSince), known)) else h
    ensures Answers(v, engine) ==>
              tr.cur == Wire(next.shown[|h.ticks|], next.ticks[|h.ticks|].obs, v.now, tr.t, tr.errs)
  {
    match v
    case Down(now) =>
      var _ := tr.MarkDown(now);
      return h;
    case Switched(_) =>
      tr.ContextChanged();
      return h;
    case Up(seen, now, loads, saves) =>
      next := h;
      if seen.engineId == engine {
        next := Next(h, TickOf(v, tr.unreachableSince, known));
        NextIsHistory(h, TickOf(v, tr.unreachableSince, known));
        assert FoldsInto(h.kept[|h.ticks|], TickOf(v, tr.unreachableSince, known)) == tr.PrevFor(engine, loads);
      }
      var _, _ := tr.Tick(seen, now, loads, saves);
  }

  /**
   However the engines answer, whenever the context changes and whichever loads and saves fail, the
   tracker goes on with the history that what is saved for an engine has had so far, tick by tick: a
   tick has what is saved at hand if some earlier visit could load or save it, or this one can load
   it. So what is proved of histories is proved of the tracker, over restarts of the program too.
   */
  method Watch(tr: RestoreTracker, engine: string, visits: seq<Visit>, ghost past: History) returns (ghost h: History)
    requires tr.Valid() && StandsAt(tr, engine, past) && Orderly(visits)
    requires visits != [] ==> NotBefore(past, visits[0].now)
    modifies tr
    ensures tr.Valid() && StandsAt(tr, engine, h)
    ensures h.ticks == past.ticks + TicksOf(visits, engine, old(tr.unreachableSince), engine in old(tr.snaps))
  {
    ghost var since, known0 := tr.unreachableSince, engine in tr.snaps;
    var known := engine in tr.snaps;
    h := past;
    NothingAfter(past.ticks);
    for i := 0 to |visits|
      invariant Watched(tr, engine, visits, i, past, since, known0, known, h)
    {
      known, h := WatchOne(tr, engine, visits, i, past, since, known0, known, h);
    }
    assert visits[..|visits|] == visits;
  }

  /** How things stand after `i` visits. */
  ghost predicate Watched(tr: RestoreTracker, engine: string, visits: seq<Visit>, i: nat, past: History, since: int,
                          known0: bool, known: bool, h: History)
    requires i <= |visits|
    reads tr
  {
    && tr.Valid() && StandsAt(tr, engine, h) && KnownIs(tr, engine, known)
    && tr.unreachableSince == Clock(since, visits[..i]) && known == Known(known0, visits[..i], engine)
    && h.ticks == past.ticks + TicksOf(visits[..i], engine, since, known0)
    && (i < |visits| ==> NotBefore(h, visits[i].now))
  }

  method WatchOne(tr: RestoreTracker, engine: string, visits: seq<Visit>, i: nat, ghost past: History, ghost since: int,
                  ghost known0: bool, known: bool, ghost h: History)
    returns (more: bool, ghost next: History)
    requires i < |visits| && Orderly(visits) && Watched(tr, engine, visits, i, past, since, known0, known, h)
    modifies tr
    ensures Watched(tr, engine, visits, i + 1, past, since, known0, more, next)
  {
    var v := visits[i];
    VisitsStep(visits, i, engine, since, known0);
    next := VisitOnce(tr, engine, v, known, h);
    more := known || (Answers(v, engine) && (v.loads || v.saves));
    if Answers(v, engine) {
      Regroup(past.ticks, TicksOf(visits[..i], engine, since, known0), [TickOf(v, Clock(since, visits[..i]), known)]);
    }
  }

  lemma VisitsStep(visits: seq<Visit>, i: nat, engine: string, since: int, known: bool)
    requires i < |visits|
    ensures var front, more, v := visits[..i], visits[..i + 1], visits[i];
            && Clock(since, more) == Tock(Clock(since, front), v)
            && Known(known, more, engine) ==
                 (Known(known, front, engine) || (Answers(v, engine) && (v.loads || v.saves)))
            && TicksOf(more, engine, since, known) ==
                 if Answers(v, engine)
                 then TicksOf(front, engine, since, known)
                      + [TickOf(v, Clock(since, front), Known(known, front, engine))]
                 else TicksOf(front, engine, since, known)
  {
    var front, more := visits[..i], visits[..i + 1];
    assert more[..i] == front && more[i] == visits[i];
    forall k | 0 <= k < i ensures more[k] == front[k] { }
  }

  /** A dismissal that is carried out is a tick that does not look at what is kept. */
  method DismissIsTick(tr: RestoreTracker, engine: string, now: int, saves: bool, ghost h: History)
    returns (done: bool, ghost next: History)
    requires tr.Valid() && StandsAt(tr, engine, h) && now > 0 && NotBefore(h, now)
    modifies tr
    ensures tr.Valid() && StandsAt(tr, engine, next) && (done <==> old(tr.PendingFor(engine)).Some?)
    ensures next == if done then Next(h, Tick(old(tr.curObs), now, false, saves)) else h
  {
    ghost var tick := Tick(tr.curObs, now, false, saves);
    NextIsHistory(h, tick);
    done := tr.Dismiss(engine, now, saves);
    next := if done then Next(h, tick) else h;
  }

  // ----- A failed load

  /** The saved offer is still `offer`. */
  ghost predicate OfferKept(tr: RestoreTracker, engine: string, offer: Snapshot)
    reads tr
  {
    engine in tr.store && tr.store[engine].phase == Pending && SameOffer(tr.store[engine], offer)
  }

  /**
   A tick on a saved offer of which something is still open keeps it exactly when the offer is cached
   or can be loaded; otherwise the live running set is saved in its place.
   */
  method OfferSurvivesIffRead(tr: RestoreTracker, seen: Observation, now: int, loads: bool)
    requires tr.Valid() && seen.engineId in tr.store && seen.engineId != "" && UniqueSeen(seen.containers)
    requires tr.store[seen.engineId].phase == Pending
    requires var o := seen.(unreachableSince := tr.unreachableSince);
             AnyOpen(FollowBoot(tr.store[seen.engineId], o), o, now, tr.t)
    modifies tr
    ensures OfferKept(tr, seen.engineId, old(tr.store[seen.engineId])) <==> seen.engineId in old(tr.snaps) || loads
  {
    PendingStaysOrRebuilds(tr.store[seen.engineId], seen.(unreachableSince := tr.unreachableSince), now, tr.t);
    var _, _ := tr.Tick(seen, now, loads, true);
  }

  /** The container "c" as an entry of a saved snapshot. */
  function OneEntry(): Entry { Entry("c", "c", "", "", "", "", "", 1, 0) }

  function OneOffer(): Snapshot { Snapshot("engine", "", "", "", 0, Pending, 5, 5, [OneEntry()]) }

  lemma OneOfferOpen(now: int, t: Timing)
    ensures AnyOpen(FollowBoot(OneOffer(), OneSeen(false)), OneSeen(false), now, t)
  {
    var cs := OneSeen(false).containers;
    assert ById(cs, "c") == Some(cs[0]);
    assert OneEntry() in OneOffer().entries;
    assert IsOpen(StatusOf(OneEntry(), OneOffer().bootAt, OneSeen(false), now, t));
  }

  /** A run: the program starts on a saved offer that is still open, cannot load it, and saves over it. */
  method FailedLoadLosesOffer(now: int) returns (tr: RestoreTracker)
    ensures tr.Valid() && "engine" in tr.store
    ensures AnyOpen(FollowBoot(OneOffer(), OneSeen(false)), OneSeen(false), now, tr.t)
    ensures tr.store["engine"].phase == Tracking && "c" !in Ids(tr.store["engine"].entries)
  {
    OneSeenRuns(false);
    OneOfferOpen(now, Timing(30, 0));
    tr := new RestoreTracker(Timing(30, 0), map["engine" := OneOffer()]);
    assert OneSeen(false).(unreachableSince := 0) == OneSeen(false);
    RebuiltIff(OneSeen(false), now, "c");
    var _, _ := tr.Tick(OneSeen(false), now, false, true);
  }
}
