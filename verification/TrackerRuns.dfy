/**
 What holds of the restart tracker over whole runs of ticks, from its first snapshot on. Any save
 may fail: a tick whose result was not saved is shown, and the next tick folds into what was kept.
 What is kept may be unreadable: such a tick starts anew from the containers it sees.
 */
module TrackerRuns {
  import opened Prelude
  import opened Sorting
  import opened Entries
  import opened Reconcile

  /** `read` says whether what is kept was at hand, `saved` whether a changed result could be saved. */
  datatype Tick = Tick(obs: Observation, now: int, read: bool, saved: bool)

  /** `kept[i]` is what is kept before tick `i`, `shown[i]` what the tick computes. */
  datatype History = History(t: Timing, ticks: seq<Tick>, kept: seq<Option<Snapshot>>, shown: seq<Snapshot>)

  ghost predicate WellTimed(ticks: seq<Tick>)
  {
    && (forall i :: 0 <= i < |ticks| ==> ticks[i].now > 0 && UniqueSeen(ticks[i].obs.containers))
    && (forall i, j :: 0 <= i <= j < |ticks| ==> ticks[i].now <= ticks[j].now)
  }

  /** What a tick folds into, if `last` is kept. */
  function FoldsInto(last: Option<Snapshot>, tick: Tick): Option<Snapshot> { if tick.read then last else None }

  function StepAt(h: History, i: nat): (Snapshot, bool)
    requires i < |h.ticks| && i < |h.kept|
  {
    Step(FoldsInto(h.kept[i], h.ticks[i]), h.ticks[i].obs, h.ticks[i].now, h.t)
  }

  /** Tick `i` folds into what it read, and keeps its own result if that changed and could be saved. */
  ghost predicate StepsAt(h: History, i: nat)
    requires i < |h.ticks| == |h.shown| && |h.kept| == |h.ticks| + 1
  {
    && h.shown[i] == StepAt(h, i).0
    && h.kept[i + 1] == if StepAt(h, i).1 && h.ticks[i].saved then Some(h.shown[i]) else h.kept[i]
  }

  ghost predicate IsHistory(h: History)
  {
    && |h.shown| == |h.ticks| && |h.kept| == |h.ticks| + 1
    && h.kept[0] == None
    && WellTimed(h.ticks)
    && forall i {:trigger StepsAt(h, i)} :: 0 <= i < |h.ticks| ==> StepsAt(h, i)
  }

  /** A tracking snapshot is kept before tick `k`. */
  ghost predicate TracksAt(h: History, k: nat) { k < |h.kept| && h.kept[k].Some? && h.kept[k].value.phase == Tracking }

  ghost predicate PendsAt(h: History, k: nat) { k < |h.kept| && h.kept[k].Some? && h.kept[k].value.phase == Pending }

  ghost predicate DownAt(h: History, id: string, i: nat) { i < |h.ticks| && !RunsById(h.ticks[i].obs, id) }

  /** What is kept after a tick is what was kept before it, or what it showed. */
  lemma KeptOrShown(h: History, k: nat)
    requires IsHistory(h) && k < |h.ticks|
    ensures h.kept[k + 1] == h.kept[k] || (h.kept[k + 1] == Some(h.shown[k]) && h.ticks[k].saved)
  {
    assert StepsAt(h, k);
  }

  // ----- Members of the updated entry list

  lemma {:induction false} KeptMember(es: seq<Entry>, o: Observation, now: int, t: Timing, x: Entry)
    ensures x in KeptAll(es, o, now, t) <==> exists e :: e in es && Kept(e, o, now, t) == Some(x)
  {
    if es != [] {
      var n := |es| - 1;
      KeptMember(es[..n], o, now, t, x);
      assert es == es[..n] + [es[n]];
      if Kept(es[n], o, now, t) == Some(x) { assert es[n] in es; }
      forall e | e in es[..n] && Kept(e, o, now, t) == Some(x) ensures e in es { }
    }
  }

  lemma {:induction false} NewMember(cs: seq<Seen>, known: set<string>, now: int, x: Entry)
    ensures x in NewEntries(cs, known, now) <==>
            exists c :: c in cs && Eligible(c) && c.id !in known && x == EntryOf(c, now)
  {
    if cs != [] {
      var n := |cs| - 1;
      NewMember(cs[..n], known, now, x);
      assert cs == cs[..n] + [cs[n]];
      if Eligible(cs[n]) && cs[n].id !in known && x == EntryOf(cs[n], now) { assert cs[n] in cs; }
      forall c | c in cs[..n] ensures c in cs { }
    }
  }

  lemma SortKeepsMembers(es: seq<Entry>, x: Entry)
    ensures x in SortEntries(es) <==> x in es
  {
    SortEntriesPermutes(es);
    SameMember(SortEntries(es), es, x);
  }

  lemma UpdatedMember(es: seq<Entry>, o: Observation, now: int, t: Timing, x: Entry)
    ensures x in Updated(es, o, now, t) <==>
            x in KeptAll(es, o, now, t) || x in NewEntries(o.containers, Ids(es), now)
  {
    SortKeepsMembers(KeptAll(es, o, now, t) + NewEntries(o.containers, Ids(es), now), x);
  }

  lemma {:induction false} UntouchedKept(es: seq<Entry>, o: Observation, now: int, t: Timing)
    requires !AnyTouched(es, o, now, t)
    ensures KeptAll(es, o, now, t) == es
  {
    if es != [] {
      var n := |es| - 1;
      UntouchedKept(es[..n], o, now, t);
      assert es == es[..n] + [es[n]];
    }
  }

  /** A result the tracker does not save differs from its input only in what is displayed. */
  lemma UnchangedKeepsSnapshot(prev: Snapshot, o: Observation, now: int, t: Timing)
    ensures var (next, changed) := Step(Some(prev), o, now, t);
            !changed ==> next == prev.(context := o.context, host := o.host)
  {
    if !AnyTouched(prev.entries, o, now, t) { UntouchedKept(prev.entries, o, now, t); }
  }

  // ----- Unique IDs, sorted by name then ID

  ghost predicate WellKept(es: seq<Entry>) { UniqueIds(es) && SortedBy(es, EntryLe()) }

  lemma {:induction false} KeptUnique(es: seq<Entry>, o: Observation, now: int, t: Timing)
    requires UniqueIds(es)
    ensures UniqueIds(KeptAll(es, o, now, t))
    ensures forall x :: x in KeptAll(es, o, now, t) ==> x.id in Ids(es)
  {
    if es != [] {
      var n := |es| - 1;
      KeptUnique(es[..n], o, now, t);
      forall x | x in KeptAll(es[..n], o, now, t) ensures x.id != es[n].id {
        KeptMember(es[..n], o, now, t, x);
      }
      forall x | x in KeptAll(es, o, now, t) ensures x.id in Ids(es) { KeptMember(es, o, now, t, x); }
    }
  }

  lemma {:induction false} NewUnique(cs: seq<Seen>, known: set<string>, now: int)
    requires UniqueSeen(cs)
    ensures UniqueIds(NewEntries(cs, known, now))
    ensures forall x :: x in NewEntries(cs, known, now) ==> x.id !in known
  {
    if cs != [] {
      var n := |cs| - 1;
      NewUnique(cs[..n], known, now);
      forall x | x in NewEntries(cs[..n], known, now) ensures x.id != cs[n].id {
        NewMember(cs[..n], known, now, x);
      }
    }
  }

  lemma UniqueConcat(a: seq<Entry>, b: seq<Entry>)
    requires UniqueIds(a) && UniqueIds(b) && forall x, y :: x in a && y in b ==> x.id != y.id
    ensures UniqueIds(a + b)
  {
    forall i, j | 0 <= i < j < |a + b| ensures (a + b)[i].id != (a + b)[j].id {
      if i < |a| <= j { assert a[i] in a && b[j - |a|] in b; }
    }
  }

  lemma SortWellKept(es: seq<Entry>)
    requires UniqueIds(es)
    ensures WellKept(SortEntries(es))
  {
    SortEntriesSorted(es);
    SortEntriesPermutes(es);
    PermutedIdsUnique(es, SortEntries(es));
  }

  lemma UpdatedWellKept(es: seq<Entry>, o: Observation, now: int, t: Timing)
    requires WellKept(es) && UniqueSeen(o.containers)
    ensures WellKept(Updated(es, o, now, t))
  {
    KeptUnique(es, o, now, t);
    NewUnique(o.containers, Ids(es), now);
    var k, n := KeptAll(es, o, now, t), NewEntries(o.containers, Ids(es), now);
    UniqueConcat(k, n);
    if Changes(es, o, now, t) {
      SortWellKept(k + n);
    } else {
      UntouchedKept(es, o, now, t);
      assert k + n == es;
    }
  }

  lemma RebuildWellKept(o: Observation, now: int)
    requires UniqueSeen(o.containers)
    ensures WellKept(Rebuild(o, now).entries)
  {
    NewUnique(o.containers, {}, now);
    SortWellKept(NewEntries(o.containers, {}, now));
  }

  lemma {:induction false} ExplainedWellKept(es: seq<Entry>, o: Observation, t: Timing)
    requires WellKept(es)
    ensures WellKept(ExplainedAll(es, o, t)) && forall x :: x in ExplainedAll(es, o, t) ==> x in es
  {
    if es != [] {
      var n := |es| - 1;
      ExplainedWellKept(es[..n], o, t);
      var k := ExplainedAll(es[..n], o, t);
      forall x | x in k ensures x.id != es[n].id && EntryLe()(x, es[n]) {
        var i :| 0 <= i < n && es[..n][i] == x;
        assert EntryLe()(es[i], es[n]);
      }
    }
  }

  /** The only places that the entries of a result come from. */
  lemma StepEntries(prev: Option<Snapshot>, o: Observation, now: int, t: Timing)
    ensures var es := Step(prev, o, now, t).0.entries;
            || es == Rebuild(o, now).entries
            || (prev.Some? && es == prev.value.entries)
            || (prev.Some? && es == Updated(prev.value.entries, o, now, t))
            || (prev.Some? && es == ExplainedAll(prev.value.entries, o, t))
  {
    if prev.None? { return; }
    var s := prev.value.(context := o.context, host := o.host);
    if s.phase == Pending { return; }
    var d := DetectRestart(s, o, now, t);
    if d.Some? { assert d.value.entries == Candidate(s, o, now, t).entries; }
  }

  lemma StepWellKept(prev: Option<Snapshot>, o: Observation, now: int, t: Timing)
    requires prev.Some? ==> WellKept(prev.value.entries)
    requires UniqueSeen(o.containers)
    ensures WellKept(Step(prev, o, now, t).0.entries)
  {
    var es := Step(prev, o, now, t).0.entries;
    StepEntries(prev, o, now, t);
    if es == Rebuild(o, now).entries {
      RebuildWellKept(o, now);
    } else if es == Updated(prev.value.entries, o, now, t) {
      UpdatedWellKept(prev.value.entries, o, now, t);
    } else {
      ExplainedWellKept(prev.value.entries, o, t);
    }
  }

  lemma ShownWellKept(h: History, k: nat)
    requires IsHistory(h) && k < |h.ticks| && (h.kept[k].Some? ==> WellKept(h.kept[k].value.entries))
    ensures WellKept(h.shown[k].entries)
  {
    assert StepsAt(h, k);
    StepWellKept(FoldsInto(h.kept[k], h.ticks[k]), h.ticks[k].obs, h.ticks[k].now, h.t);
  }

  /** In every run the entries, kept or shown, have unique IDs and are sorted by name, then ID. */
  lemma {:induction false} EntriesAlwaysWellKept(h: History, k: nat)
    requires IsHistory(h) && k <= |h.ticks|
    ensures h.kept[k].Some? ==> WellKept(h.kept[k].value.entries)
    ensures k < |h.ticks| ==> WellKept(h.shown[k].entries)
  {
    if k > 0 {
      EntriesAlwaysWellKept(h, k - 1);
      KeptOrShown(h, k - 1);
    }
    if k < |h.ticks| { ShownWellKept(h, k); }
  }

  // ----- Who has an entry

  lemma UpdatedCovers(es: seq<Entry>, o: Observation, now: int, t: Timing, c: Seen)
    requires UniqueSeen(o.containers) && c in o.containers && Eligible(c)
    ensures c.id in Ids(Updated(es, o, now, t))
  {
    if c.id in Ids(es) {
      var e :| e in es && e.id == c.id;
      ByIdFinds(o.containers, c);
      var x := e.(stoppedSeenAt := 0, name := c.name);
      assert Kept(e, o, now, t) == Some(x);
      KeptMember(es, o, now, t, x);
      UpdatedMember(es, o, now, t, x);
    } else {
      var x := EntryOf(c, now);
      NewMember(o.containers, Ids(es), now, x);
      UpdatedMember(es, o, now, t, x);
    }
  }

  lemma RebuildCovers(o: Observation, now: int, c: Seen)
    requires c in o.containers && Eligible(c)
    ensures c.id in Ids(Rebuild(o, now).entries)
  {
    var x := EntryOf(c, now);
    NewMember(o.containers, {}, now, x);
    SortKeepsMembers(NewEntries(o.containers, {}, now), x);
  }

  lemma StepCovers(prev: Option<Snapshot>, o: Observation, now: int, t: Timing, c: Seen)
    requires UniqueSeen(o.containers) && c in o.containers && Eligible(c)
    requires Step(prev, o, now, t).0.phase == Tracking
    ensures c.id in Ids(Step(prev, o, now, t).0.entries)
  {
    if prev.None? || prev.value.phase == Pending {
      RebuildCovers(o, now, c);
    } else {
      TrackingStepUpdates(prev.value, o, now, t);
      UpdatedCovers(prev.value.entries, o, now, t, c);
    }
  }

  /** After every tick that leaves it tracking, saved or not, each eligible running container has an entry. */
  lemma RunningContainersTracked(h: History, k: nat, c: Seen)
    requires IsHistory(h) && k < |h.ticks| && h.shown[k].phase == Tracking
    requires c in h.ticks[k].obs.containers && Eligible(c)
    ensures c.id in Ids(h.shown[k].entries)
  {
    assert StepsAt(h, k);
    StepCovers(FoldsInto(h.kept[k], h.ticks[k]), h.ticks[k].obs, h.ticks[k].now, h.t, c);
  }

  // ----- When an entry leaves

  /**
   Since tick `j`, which saw the container down and could save that, every tick before `k` saw it
   down or could not save; and the tracker was tracking.
   */
  ghost predicate StoppedSince(h: History, id: string, j: nat, k: nat)
  {
    && j < k <= |h.ticks| && TracksAt(h, k)
    && DownAt(h, id, j) && h.ticks[j].saved
    && (forall i {:trigger h.ticks[i]} :: j < i < k ==> DownAt(h, id, i) || !h.ticks[i].saved)
    && (forall i {:trigger TracksAt(h, i)} :: j < i <= k ==> TracksAt(h, i))
  }

  lemma StoppedOn(h: History, id: string, j: nat, k: nat)
    requires StoppedSince(h, id, j, k) && k < |h.ticks| && (DownAt(h, id, k) || !h.ticks[k].saved) && TracksAt(h, k + 1)
    ensures StoppedSince(h, id, j, k + 1)
  {
  }

  lemma TrackingStepUpdates(prev: Snapshot, o: Observation, now: int, t: Timing)
    requires prev.phase == Tracking && Step(Some(prev), o, now, t).0.phase == Tracking
    ensures Step(Some(prev), o, now, t).0.entries == Updated(prev.entries, o, now, t)
  {
  }

  lemma RebuiltUnmarked(o: Observation, now: int, e: Entry)
    requires UniqueSeen(o.containers) && e in Rebuild(o, now).entries
    ensures e.stoppedSeenAt == 0 && RunsById(o, e.id)
  {
    SortKeepsMembers(NewEntries(o.containers, {}, now), e);
    NewRuns(o, {}, now, e);
  }

  lemma NewRuns(o: Observation, known: set<string>, now: int, e: Entry)
    requires UniqueSeen(o.containers) && e in NewEntries(o.containers, known, now)
    ensures e.stoppedSeenAt == 0 && RunsById(o, e.id)
  {
    NewMember(o.containers, known, now, e);
    var c :| c in o.containers && Eligible(c) && c.id !in known && e == EntryOf(c, now);
    ByIdFinds(o.containers, c);
  }

  lemma KeptFrom(es: seq<Entry>, o: Observation, now: int, t: Timing, e: Entry) returns (e0: Entry)
    requires e in KeptAll(es, o, now, t)
    ensures e0 in es && Kept(e0, o, now, t) == Some(e)
  {
    KeptMember(es, o, now, t, e);
    e0 :| e0 in es && Kept(e0, o, now, t) == Some(e);
  }

  lemma UpdatedOrigin(es: seq<Entry>, o: Observation, now: int, t: Timing, e: Entry) returns (from: Option<Entry>)
    requires UniqueSeen(o.containers) && e in Updated(es, o, now, t)
    ensures from.None? ==> e.stoppedSeenAt == 0 && RunsById(o, e.id)
    ensures from.Some? ==> from.value in es && Kept(from.value, o, now, t) == Some(e)
  {
    UpdatedMember(es, o, now, t, e);
    if e in NewEntries(o.containers, Ids(es), now) {
      NewRuns(o, Ids(es), now, e);
      return None;
    }
    var e0 := KeptFrom(es, o, now, t, e);
    return Some(e0);
  }

  /** An entry of a tracking snapshot is either freshly seen running or carried over. */
  lemma StepOrigin(prev: Option<Snapshot>, o: Observation, now: int, t: Timing, e: Entry) returns (from: Option<Entry>)
    requires UniqueSeen(o.containers) && Step(prev, o, now, t).0.phase == Tracking
    requires e in Step(prev, o, now, t).0.entries
    ensures from.None? ==> e.stoppedSeenAt == 0 && RunsById(o, e.id)
    ensures from.Some? ==> prev.Some? && prev.value.phase == Tracking && from.value in prev.value.entries
                           && Kept(from.value, o, now, t) == Some(e)
  {
    if prev.None? || prev.value.phase == Pending {
      RebuiltUnmarked(o, now, e);
      return None;
    }
    TrackingStepUpdates(prev.value, o, now, t);
    from := UpdatedOrigin(prev.value.entries, o, now, t, e);
  }

  lemma {:induction false} OneTouched(es: seq<Entry>, o: Observation, now: int, t: Timing, e: Entry)
    requires e in es && Touched(e, o, now, t)
    ensures AnyTouched(es, o, now, t)
  {
    var n := |es| - 1;
    if e != es[n] {
      assert es == es[..n] + [es[n]];
      OneTouched(es[..n], o, now, t, e);
    }
  }

  /** Where an entry kept after tick `k` comes from: it was kept before, or the tick made it. */
  lemma KeptOrigin(h: History, k: nat, e: Entry) returns (from: Option<Entry>)
    requires IsHistory(h) && k < |h.ticks| && TracksAt(h, k + 1) && e in h.kept[k + 1].value.entries
    ensures from.None? ==> e.stoppedSeenAt == 0 && RunsById(h.ticks[k].obs, e.id) && h.ticks[k].saved
    ensures from.Some? ==> TracksAt(h, k) && from.value in h.kept[k].value.entries
    ensures from.Some? && !h.ticks[k].saved ==> from.value == e
    ensures from.Some? && h.ticks[k].saved ==> Kept(from.value, h.ticks[k].obs, h.ticks[k].now, h.t) == Some(e)
  {
    assert StepsAt(h, k);
    var o, now := h.ticks[k].obs, h.ticks[k].now;
    if StepAt(h, k).1 && h.ticks[k].saved {
      from := StepOrigin(FoldsInto(h.kept[k], h.ticks[k]), o, now, h.t, e);
    } else {
      if h.ticks[k].saved { UntouchedIsKept(h.kept[k].value, o, now, h.t, e); }
      return Some(e);
    }
  }

  lemma UntouchedIsKept(prev: Snapshot, o: Observation, now: int, t: Timing, e: Entry)
    requires prev.phase == Tracking && e in prev.entries && !Step(Some(prev), o, now, t).1
    ensures Kept(e, o, now, t) == Some(e)
  {
    if Touched(e, o, now, t) { OneTouched(prev.entries, o, now, t, e); }
  }

  /** A stop mark dates a tick that saw the container down and since which it counts as stopped. */
  lemma {:induction false} MarkDatesStreak(h: History, k: nat, e: Entry) returns (j: nat)
    requires IsHistory(h) && TracksAt(h, k) && e in h.kept[k].value.entries && e.stoppedSeenAt != 0
    ensures StoppedSince(h, e.id, j, k) && h.ticks[j].now == e.stoppedSeenAt
    decreases k
  {
    var from := KeptOrigin(h, k - 1, e);
    if from.value.stoppedSeenAt == 0 {
      j := k - 1;
    } else {
      j := MarkDatesStreak(h, k - 1, from.value);
      StoppedOn(h, e.id, j, k - 1);
    }
  }

  lemma MarksAreDates(h: History, k: nat, e: Entry)
    requires IsHistory(h) && TracksAt(h, k) && e in h.kept[k].value.entries
    ensures e.stoppedSeenAt != 0 ==> 0 < k && 0 < e.stoppedSeenAt <= h.ticks[k - 1].now
  {
    if e.stoppedSeenAt != 0 { var j := MarkDatesStreak(h, k, e); }
  }

  /** The entry behind an ID that leaves was marked stopped at least the grace period ago. */
  lemma DroppedPastGrace(prev: Snapshot, o: Observation, now: int, t: Timing, id: string) returns (e: Entry)
    requires prev.phase == Tracking && Step(Some(prev), o, now, t).0.phase == Tracking
    requires id in Ids(prev.entries) && id !in Ids(Step(Some(prev), o, now, t).0.entries)
    ensures e in prev.entries && e.id == id && Kept(e, o, now, t).None?
  {
    e :| e in prev.entries && e.id == id;
    TrackingStepUpdates(prev, o, now, t);
    var kept := Kept(e, o, now, t);
    if kept.Some? {
      KeptMember(prev.entries, o, now, t, kept.value);
      UpdatedMember(prev.entries, o, now, t, kept.value);
      assert false;
    }
  }

  /** Tick `k` updates the entries of a tracking snapshot, rather than making them anew. */
  ghost predicate CarriesAt(h: History, k: nat)
    requires k < |h.ticks|
  {
    TracksAt(h, k) && h.ticks[k].read
  }

  /** A container of the observation that is worth an entry. */
  predicate SeenWorthy(o: Observation, id: string) { exists c :: c in o.containers && Eligible(c) && c.id == id }

  lemma RebuiltIff(o: Observation, now: int, id: string)
    ensures id in Ids(Rebuild(o, now).entries) <==> SeenWorthy(o, id)
  {
    var es := NewEntries(o.containers, {}, now);
    if id in Ids(Rebuild(o, now).entries) {
      var e :| e in Rebuild(o, now).entries && e.id == id;
      SortKeepsMembers(es, e);
      NewMember(o.containers, {}, now, e);
    }
    if SeenWorthy(o, id) {
      var c :| c in o.containers && Eligible(c) && c.id == id;
      RebuildCovers(o, now, c);
    }
  }

  /** A tick that cannot carry entries over, and does not offer a restart, makes them anew. */
  lemma NotCarriedIsRebuilt(h: History, k: nat)
    requires IsHistory(h) && k < |h.ticks| && !CarriesAt(h, k) && h.shown[k].phase == Tracking
    ensures h.shown[k] == Rebuild(h.ticks[k].obs, h.ticks[k].now)
  {
    assert StepsAt(h, k);
    if PendsAt(h, k) { PendingStaysOrRebuilds(h.kept[k].value, h.ticks[k].obs, h.ticks[k].now, h.t); }
  }

  /**
   A tick that carries entries over drops one only when it sees the container down and it has
   counted as stopped for the grace period. If every save worked, all ticks of that period saw it
   down.
   */
  lemma LeavesOnlyAfterGrace(h: History, k: nat, id: string) returns (j: nat)
    requires IsHistory(h) && k < |h.ticks| && CarriesAt(h, k) && h.shown[k].phase == Tracking
    requires id in Ids(h.kept[k].value.entries) && id !in Ids(h.shown[k].entries)
    ensures StoppedSince(h, id, j, k) && DownAt(h, id, k) && h.ticks[k].now - h.ticks[j].now >= h.t.grace
    ensures (forall i :: j <= i < k ==> h.ticks[i].saved) ==> forall i :: j <= i <= k ==> DownAt(h, id, i)
  {
    var e := DroppedAt(h, k, id);
    j := MarkDatesStreak(h, k, e);
  }

  lemma DroppedAt(h: History, k: nat, id: string) returns (e: Entry)
    requires IsHistory(h) && k < |h.ticks| && CarriesAt(h, k) && h.shown[k].phase == Tracking
    requires id in Ids(h.kept[k].value.entries) && id !in Ids(h.shown[k].entries)
    ensures e in h.kept[k].value.entries && e.id == id && Kept(e, h.ticks[k].obs, h.ticks[k].now, h.t).None?
  {
    assert StepsAt(h, k);
    e := DroppedPastGrace(h.kept[k].value, h.ticks[k].obs, h.ticks[k].now, h.t, id);
  }

  /** A container that counts as stopped since `j` has a mark no later than that. */
  lemma {:induction false} StoppedIsMarked(h: History, id: string, j: nat, k: nat, e: Entry)
    requires IsHistory(h) && StoppedSince(h, id, j, k) && e in h.kept[k].value.entries && e.id == id
    ensures 0 < e.stoppedSeenAt <= h.ticks[j].now
    decreases k
  {
    assert TracksAt(h, k);
    var from := KeptOrigin(h, k - 1, e);
    if j < k - 1 {
      assert TracksAt(h, k - 1);
      StoppedIsMarked(h, id, j, k - 1, from.value);
    } else {
      MarksAreDates(h, k - 1, from.value);
    }
  }

  /** Conversely a container that counts as stopped for the grace period, and is down, has no entry left. */
  lemma GoneAfterGrace(h: History, j: nat, k: nat, id: string)
    requires IsHistory(h) && k < |h.ticks| && h.shown[k].phase == Tracking
    requires StoppedSince(h, id, j, k) && DownAt(h, id, k) && h.ticks[k].now - h.ticks[j].now >= h.t.grace
    ensures id !in Ids(h.shown[k].entries)
  {
    assert StepsAt(h, k) && TracksAt(h, k);
    if id in Ids(h.shown[k].entries) {
      var e :| e in h.shown[k].entries && e.id == id;
      var from := StepOrigin(FoldsInto(h.kept[k], h.ticks[k]), h.ticks[k].obs, h.ticks[k].now, h.t, e);
      StoppedIsMarked(h, id, j, k, from.value);
      assert false;
    }
  }

  ghost predicate GraceOver(h: History, k: nat, id: string)
    requires k < |h.ticks|
  {
    DownAt(h, id, k) && exists j: nat :: StoppedSince(h, id, j, k) && h.ticks[k].now - h.ticks[j].now >= h.t.grace
  }

  lemma LeavesIffGraceOver(h: History, k: nat, id: string)
    requires IsHistory(h) && k < |h.ticks| && CarriesAt(h, k) && h.shown[k].phase == Tracking
    requires id in Ids(h.kept[k].value.entries)
    ensures id !in Ids(h.shown[k].entries) <==> GraceOver(h, k, id)
  {
    if id !in Ids(h.shown[k].entries) { var j := LeavesOnlyAfterGrace(h, k, id); }
    if GraceOver(h, k, id) {
      var j: nat :| StoppedSince(h, id, j, k) && h.ticks[k].now - h.ticks[j].now >= h.t.grace;
      GoneAfterGrace(h, j, k, id);
    }
  }

  /** An outage does not explain why the entry's container is down. */
  ghost predicate Unexplained(h: History, k: nat, id: string)
    requires k < |h.ticks| && k < |h.kept| && h.kept[k].Some?
  {
    && TracksAt(h, k) && !BootMoved(h.kept[k].value, h.ticks[k].obs)
    && forall e :: e in h.kept[k].value.entries && e.id == id ==> !Explained(e, h.ticks[k].obs, h.t)
  }

  lemma {:induction false} ExplainedMember(es: seq<Entry>, o: Observation, t: Timing, x: Entry)
    ensures x in ExplainedAll(es, o, t) <==> x in es && Explained(x, o, t)
  {
    if es != [] {
      var n := |es| - 1;
      ExplainedMember(es[..n], o, t, x);
      assert es == es[..n] + [es[n]];
    }
  }

  lemma LeavesIffUnexplained(h: History, k: nat, id: string)
    requires IsHistory(h) && k < |h.ticks| && h.kept[k].Some? && h.shown[k].phase == Pending
    requires id in Ids(h.kept[k].value.entries)
    ensures id !in Ids(h.shown[k].entries) <==> Unexplained(h, k, id)
  {
    if PendsAt(h, k) {
      StaysPending(h, k);
      return;
    }
    StartsPending(h, k);
    var s, o := h.kept[k].value, h.ticks[k].obs;
    if !BootMoved(s, o) {
      forall x ensures x in h.shown[k].entries <==> x in s.entries && Explained(x, o, h.t) {
        ExplainedMember(s.entries, o, h.t, x);
      }
    }
  }

  /**
   Exactly when an entry that is kept is not among those a tick shows. An offer drops what an outage
   does not explain; entries carried over leave when the grace period is over; otherwise the entries
   are made anew, and one leaves unless its container is seen running.
   */
  lemma LeavesIff(h: History, k: nat, id: string)
    requires IsHistory(h) && k < |h.ticks| && h.kept[k].Some? && id in Ids(h.kept[k].value.entries)
    ensures id !in Ids(h.shown[k].entries) <==>
            if h.shown[k].phase == Pending then Unexplained(h, k, id)
            else if CarriesAt(h, k) then GraceOver(h, k, id)
            else !SeenWorthy(h.ticks[k].obs, id)
  {
    if h.shown[k].phase == Pending {
      LeavesIffUnexplained(h, k, id);
    } else if CarriesAt(h, k) {
      LeavesIffGraceOver(h, k, id);
    } else {
      NotCarriedIsRebuilt(h, k);
      RebuiltIff(h.ticks[k].obs, h.ticks[k].now, id);
    }
  }

  // ----- Pending snapshots

  /** A tracking snapshot turns pending exactly on a restart that left something to restore. */
  lemma TurnsPendingIff(s: Snapshot, o: Observation, now: int, t: Timing)
    requires s.phase == Tracking
    ensures Step(Some(s), o, now, t).0.phase == Pending <==>
            (BootMoved(s, o) || Outage(s, o)) && AnyOpen(Candidate(s, o, now, t), o, now, t)
    ensures Step(Some(s), o, now, t).0.phase == Pending ==>
            && Step(Some(s), o, now, t).0.detectedAt == now
            && Step(Some(s), o, now, t).0.entries == Candidate(s, o, now, t).entries
  {
    var s1 := s.(context := o.context, host := o.host);
    OpenIsAnyOpen(Candidate(s1, o, now, t), o, now, t);
    assert Candidate(s1, o, now, t).entries == Candidate(s, o, now, t).entries;
  }

  /** Whatever is pending still has an open item under the observation that left it so. */
  lemma PendingHasOpenItem(prev: Option<Snapshot>, o: Observation, now: int, t: Timing)
    requires Step(prev, o, now, t).0.phase == Pending
    ensures HasOpen(Items(Step(prev, o, now, t).0, o, now, t))
  {
    var s := prev.value.(context := o.context, host := o.host);
    var next := Step(prev, o, now, t).0;
    var judged := if s.phase == Pending then FollowBoot(s, o) else Candidate(s, o, now, t);
    assert RawItems(judged, o, now, t) == RawItems(next, o, now, t);
  }

  /** A pending snapshot keeps its entries and date, or gives way to the live running set. */
  lemma PendingStaysOrRebuilds(s: Snapshot, o: Observation, now: int, t: Timing)
    requires s.phase == Pending
    ensures var next := Step(Some(s), o, now, t).0;
            if next.phase == Pending then next.entries == s.entries && next.detectedAt == s.detectedAt
            else next == Rebuild(o, now)
    ensures Step(Some(s), o, now, t).0.phase == Pending <==> AnyOpen(FollowBoot(s, o), o, now, t)
  {
    var s1 := FollowBoot(s.(context := o.context, host := o.host), o);
    OpenIsAnyOpen(s1, o, now, t);
    assert s1.entries == FollowBoot(s, o).entries && s1.bootAt == FollowBoot(s, o).bootAt;
  }

  /** Over a whole pending phase nothing of the offer changes, kept or shown. */
  lemma {:induction false} PendingPhaseFrozen(h: History, j: nat, k: nat)
    requires IsHistory(h) && j <= k <= |h.ticks| && forall i {:trigger PendsAt(h, i)} :: j <= i <= k ==> PendsAt(h, i)
    ensures PendsAt(h, j) && PendsAt(h, k) && SameOffer(h.kept[k].value, h.kept[j].value)
    ensures k < |h.ticks| && h.shown[k].phase == Pending ==> SameOffer(h.shown[k], h.kept[j].value)
    decreases k
  {
    assert PendsAt(h, j) && PendsAt(h, k);
    if j < k {
      PendingPhaseFrozen(h, j, k - 1);
      KeptOrShown(h, k - 1);
    }
    if k < |h.ticks| && h.shown[k].phase == Pending { StaysPending(h, k); }
  }

  /**
   An offer lives on through a tick exactly when it was at hand and something of it is still open.
   When it does not, and the tick is saved, the live running set takes its place for good.
   */
  lemma OfferSurvivesIff(h: History, k: nat)
    requires IsHistory(h) && k < |h.ticks| && PendsAt(h, k)
    ensures var s, tick := h.kept[k].value, h.ticks[k];
            h.shown[k].phase == Pending && SameOffer(h.shown[k], s) <==>
              tick.read && AnyOpen(FollowBoot(s, tick.obs), tick.obs, tick.now, h.t)
    ensures h.shown[k].phase != Pending && h.ticks[k].saved ==>
              h.kept[k + 1] == Some(Rebuild(h.ticks[k].obs, h.ticks[k].now))
  {
    assert StepsAt(h, k);
    PendingStaysOrRebuilds(h.kept[k].value, h.ticks[k].obs, h.ticks[k].now, h.t);
  }

  ghost predicate SameOffer(a: Snapshot, b: Snapshot) { a.entries == b.entries && a.detectedAt == b.detectedAt }

  /** The restart behind a pending snapshot `s`: tick `j`, still tracking, saw and dated it. */
  ghost predicate OfferedAt(h: History, j: nat, s: Snapshot)
    requires IsHistory(h)
  {
    && TracksAt(h, j) && j < |h.ticks|
    && (BootMoved(h.kept[j].value, h.ticks[j].obs) || Outage(h.kept[j].value, h.ticks[j].obs))
    && s.detectedAt == h.ticks[j].now
    && s.entries == Candidate(h.kept[j].value, h.ticks[j].obs, h.ticks[j].now, h.t).entries
  }

  lemma StartsPending(h: History, j: nat)
    requires IsHistory(h) && j < |h.ticks| && h.shown[j].phase == Pending && !PendsAt(h, j)
    ensures OfferedAt(h, j, h.shown[j])
  {
    assert StepsAt(h, j);
    TurnsPendingIff(h.kept[j].value, h.ticks[j].obs, h.ticks[j].now, h.t);
  }

  lemma StaysPending(h: History, k: nat)
    requires IsHistory(h) && k < |h.ticks| && h.shown[k].phase == Pending && PendsAt(h, k)
    ensures SameOffer(h.shown[k], h.kept[k].value)
  {
    assert StepsAt(h, k);
    PendingStaysOrRebuilds(h.kept[k].value, h.ticks[k].obs, h.ticks[k].now, h.t);
  }

  lemma {:induction false} KeptPendingGoesBack(h: History, k: nat) returns (j: nat)
    requires IsHistory(h) && PendsAt(h, k)
    ensures j < k && h.ticks[j].saved && OfferedAt(h, j, h.kept[k].value)
    ensures forall i {:trigger PendsAt(h, i)} :: j < i <= k ==> PendsAt(h, i)
    decreases k
  {
    KeptOrShown(h, k - 1);
    if !PendsAt(h, k - 1) {
      j := k - 1;
      StartsPending(h, j);
    } else {
      j := KeptPendingGoesBack(h, k - 1);
      if h.kept[k] != h.kept[k - 1] { StaysPending(h, k - 1); }
    }
  }

  /** Every pending snapshot of a run goes back to one tick that saw a restart and dated it. */
  lemma PendingGoesBackToRestart(h: History, k: nat) returns (j: nat)
    requires IsHistory(h) && k < |h.ticks| && h.shown[k].phase == Pending
    ensures j <= k && OfferedAt(h, j, h.shown[k])
    ensures forall i {:trigger PendsAt(h, i)} :: j < i <= k ==> PendsAt(h, i)
  {
    if PendsAt(h, k) {
      j := KeptPendingGoesBack(h, k);
      StaysPending(h, k);
    } else {
      j := k;
      StartsPending(h, k);
    }
  }

  // ----- A failed save and the grace period

  /** The history one tick on. */
  ghost function Next(h: History, tick: Tick): History
    requires IsHistory(h)
  {
    var last := h.kept[|h.ticks|];
    var r := Step(FoldsInto(last, tick), tick.obs, tick.now, h.t);
    History(h.t, h.ticks + [tick], h.kept + [if r.1 && tick.saved then Some(r.0) else last], h.shown + [r.0])
  }

  lemma NextIsHistory(h: History, tick: Tick)
    requires IsHistory(h) && tick.now > 0 && UniqueSeen(tick.obs.containers)
    requires forall i :: 0 <= i < |h.ticks| ==> h.ticks[i].now <= tick.now
    ensures IsHistory(Next(h, tick))
  {
    var n := Next(h, tick);
    forall i | 0 <= i < |n.ticks| ensures StepsAt(n, i) {
      if i < |h.ticks| { SameStep(h, n, i); }
    }
  }

  lemma SameStep(h: History, n: History, i: nat)
    requires IsHistory(h) && i < |h.ticks| < |n.ticks| == |n.shown| && |n.kept| == |n.ticks| + 1 && n.t == h.t
    requires n.ticks[i] == h.ticks[i] && n.kept[i] == h.kept[i] && n.kept[i + 1] == h.kept[i + 1]
    requires n.shown[i] == h.shown[i]
    ensures StepsAt(n, i)
  {
    assert StepsAt(h, i);
  }

  /** The ticks determine a history. */
  lemma {:induction false} HistoryUnique(a: History, b: History, k: nat)
    requires IsHistory(a) && IsHistory(b) && a.t == b.t && k <= |a.ticks| && k <= |b.ticks|
    requires forall i :: 0 <= i < k ==> a.ticks[i] == b.ticks[i]
    ensures a.kept[k] == b.kept[k] && forall i :: 0 <= i < k ==> a.shown[i] == b.shown[i] && a.kept[i] == b.kept[i]
  {
    if k > 0 {
      HistoryUnique(a, b, k - 1);
      assert StepsAt(a, k - 1) && StepsAt(b, k - 1);
    }
  }

  /** Every well-timed sequence of ticks has a history. */
  lemma {:induction false} HistoryOf(ticks: seq<Tick>, t: Timing) returns (h: History)
    requires WellTimed(ticks)
    ensures IsHistory(h) && h.ticks == ticks && h.t == t
  {
    if ticks == [] { return History(t, [], [None], []); }
    var n := |ticks| - 1;
    var front := HistoryOf(ticks[..n], t);
    NextIsHistory(front, ticks[n]);
    h := Next(front, ticks[n]);
    assert ticks == ticks[..n] + [ticks[n]];
  }

  /** One container, running or not, on an engine without a boot marker. */
  function OneSeen(running: bool): Observation
  {
    Observation("engine", "", "", "", 0, [Seen("c", "c", "", running, false, "", "", "", "", false, 0)], 0)
  }

  lemma OneSeenRuns(running: bool)
    ensures RunsById(OneSeen(running), "c") == running && UniqueSeen(OneSeen(running).containers)
  {
    var cs := OneSeen(running).containers;
    assert ById(cs, "c") == Some(cs[0]);
  }

  ghost predicate AllOneSeen(h: History)
  {
    forall i :: 0 <= i < |h.ticks| ==> h.ticks[i].obs == OneSeen(true) || h.ticks[i].obs == OneSeen(false)
  }

  /** Without a boot marker and an outage the tracker only tracks. */
  lemma {:induction false} OnlyTracks(h: History, k: nat)
    requires IsHistory(h) && AllOneSeen(h) && k <= |h.ticks|
    ensures h.kept[k].Some? ==> TracksAt(h, k) && h.kept[k].value.bootId == ""
    ensures k < |h.ticks| ==> h.shown[k].phase == Tracking && h.shown[k].bootId == ""
  {
    if k > 0 {
      OnlyTracks(h, k - 1);
      KeptOrShown(h, k - 1);
    }
    if k < |h.ticks| { ShownOnlyTracks(h, k); }
  }

  lemma ShownOnlyTracks(h: History, k: nat)
    requires IsHistory(h) && k < |h.ticks|
    requires h.kept[k].Some? ==> h.kept[k].value.phase == Tracking && h.kept[k].value.bootId == ""
    requires h.ticks[k].obs.bootId == "" && h.ticks[k].obs.unreachableSince == 0
    ensures h.shown[k].phase == Tracking && h.shown[k].bootId == ""
  {
    assert StepsAt(h, k);
    StepOnlyTracks(FoldsInto(h.kept[k], h.ticks[k]), h.ticks[k].obs, h.ticks[k].now, h.t);
  }

  lemma StepOnlyTracks(prev: Option<Snapshot>, o: Observation, now: int, t: Timing)
    requires prev.Some? ==> prev.value.phase == Tracking && prev.value.bootId == ""
    requires o.bootId == "" && o.unreachableSince == 0
    ensures Step(prev, o, now, t).0.phase == Tracking && Step(prev, o, now, t).0.bootId == ""
  {
  }

  /** Down at 20, running at 30 in a tick that cannot be saved, down at 50. */
  function FourTicks(): seq<Tick>
  {
    [Tick(OneSeen(true), 10, true, true), Tick(OneSeen(false), 20, true, true),
     Tick(OneSeen(true), 30, true, false), Tick(OneSeen(false), 50, true, true)]
  }

  /**
   A failed save can end an entry early: down at 20, running at 30 in a tick that could not be
   saved, down at 50. With a grace period of 30 the entry leaves at 50, although no stretch of that
   length saw the container down throughout.
   */
  lemma FailedSaveShortensGrace() returns (h: History)
    ensures IsHistory(h) && h.t.grace == 30 && |h.ticks| == 4 && TracksAt(h, 3) && h.shown[3].phase == Tracking
    ensures "c" in Ids(h.kept[3].value.entries) && "c" !in Ids(h.shown[3].entries)
    ensures forall j :: 0 <= j <= 3 && h.ticks[3].now - h.ticks[j].now >= h.t.grace ==>
              exists i :: j <= i <= 3 && !DownAt(h, "c", i)
  {
    OneSeenRuns(true);
    OneSeenRuns(false);
    h := HistoryOf(FourTicks(), Timing(30, 0));
    OnlyTracks(h, 0);
    OnlyTracks(h, 1);
    OnlyTracks(h, 2);
    OnlyTracks(h, 3);
    StaysThrough(h);
    assert !DownAt(h, "c", 2);
    assert StoppedSince(h, "c", 1, 3);
    GoneAfterGrace(h, 1, 3, "c");
  }

  lemma FirstKept(h: History)
    requires IsHistory(h) && h.ticks != [] && h.ticks[0].saved
    ensures h.kept[1] == Some(h.shown[0])
  {
    assert StepsAt(h, 0);
  }

  lemma StaysThrough(h: History)
    requires IsHistory(h) && AllOneSeen(h) && |h.ticks| == 4 && h.ticks[0].saved && !h.ticks[2].saved
    requires h.ticks[1].read
    requires !DownAt(h, "c", 0) && h.ticks[0].obs == OneSeen(true)
    ensures h.kept[1].Some? && h.kept[2].Some? && h.kept[3].Some? && "c" in Ids(h.kept[3].value.entries)
  {
    OnlyTracks(h, 0);
    OnlyTracks(h, 1);
    FirstKept(h);
    var c := OneSeen(true).containers[0];
    RunningContainersTracked(h, 0, c);
    LeavesIffGraceOver(h, 1, "c");
    KeptOrShown(h, 1);
    KeptOrShown(h, 2);
  }
}
