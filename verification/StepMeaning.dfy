/**
 What one tick of the restart tracker does, said of containers, entries and snapshot fields alone:
 a reference for the fold that names none of its parts.
 */
module StepMeaning {
  import opened Prelude
  import opened Sorting
  import opened Entries
  import opened Reconcile
  import opened TrackerRuns

  // ----- Containers of an observation

  /** The last container listed with the ID: the one a map by ID holds. */
  predicate LastById(cs: seq<Seen>, id: string, i: nat)
  {
    i < |cs| && cs[i].id == id && forall j :: i < j < |cs| ==> cs[j].id != id
  }

  predicate LastByName(cs: seq<Seen>, name: string, i: nat)
  {
    i < |cs| && cs[i].name == name && forall j :: i < j < |cs| ==> cs[j].name != name
  }

  ghost predicate RunsNow(cs: seq<Seen>, id: string) { exists i: nat :: LastById(cs, id, i) && cs[i].running }

  ghost predicate StoppedNow(cs: seq<Seen>, id: string) { exists i: nat :: LastById(cs, id, i) && !cs[i].running }

  ghost predicate Absent(cs: seq<Seen>, id: string) { forall i :: 0 <= i < |cs| ==> cs[i].id != id }

  ghost predicate NamesakeRuns(cs: seq<Seen>, name: string)
  {
    exists i: nat :: LastByName(cs, name, i) && cs[i].running
  }

  lemma {:induction false} ByIdIsLast(cs: seq<Seen>, id: string)
    ensures ById(cs, id).None? <==> Absent(cs, id)
    ensures forall i: nat :: LastById(cs, id, i) ==> ById(cs, id) == Some(cs[i])
    ensures ById(cs, id).Some? ==> exists i: nat :: LastById(cs, id, i)
  {
    if cs != [] {
      var n := |cs| - 1;
      if cs[n].id == id {
        assert LastById(cs, id, n);
        return;
      }
      ByIdIsLast(cs[..n], id);
      LastInFront(cs, id);
      if ById(cs, id).Some? { var i: nat :| LastById(cs[..n], id, i); }
    }
  }

  /** When the last container has another ID, what is left decides. */
  lemma LastInFront(cs: seq<Seen>, id: string)
    requires cs != [] && cs[|cs| - 1].id != id
    ensures var front := cs[..|cs| - 1];
            && (Absent(front, id) <==> Absent(cs, id))
            && forall i: nat {:trigger LastById(cs, id, i)} {:trigger LastById(front, id, i)} ::
                 LastById(cs, id, i) <==> LastById(front, id, i)
  {
    var front := cs[..|cs| - 1];
    forall i: nat ensures LastById(cs, id, i) <==> LastById(front, id, i) {
      if LastById(front, id, i) {
        forall j | i < j < |cs| ensures cs[j].id != id { assert j < |front| ==> front[j] == cs[j]; }
      }
    }
    if Absent(front, id) {
      forall i | 0 <= i < |cs| ensures cs[i].id != id { assert i < |front| ==> front[i] == cs[i]; }
    }
  }

  lemma {:induction false} ByNameIsLast(cs: seq<Seen>, name: string)
    ensures forall i: nat :: LastByName(cs, name, i) ==> ByName(cs, name) == Some(cs[i])
    ensures ByName(cs, name).Some? ==> exists i: nat :: LastByName(cs, name, i)
  {
    if cs != [] {
      var n := |cs| - 1;
      if cs[n].name == name {
        assert LastByName(cs, name, n);
        return;
      }
      ByNameIsLast(cs[..n], name);
      NamesakeInFront(cs, name);
      if ByName(cs, name).Some? { var i: nat :| LastByName(cs[..n], name, i); }
    }
  }

  lemma NamesakeInFront(cs: seq<Seen>, name: string)
    requires cs != [] && cs[|cs| - 1].name != name
    ensures var front := cs[..|cs| - 1];
            forall i: nat {:trigger LastByName(cs, name, i)} {:trigger LastByName(front, name, i)} ::
              LastByName(cs, name, i) <==> LastByName(front, name, i)
  {
    var front := cs[..|cs| - 1];
    forall i: nat ensures LastByName(cs, name, i) <==> LastByName(front, name, i) {
      if LastByName(front, name, i) {
        forall j | i < j < |cs| ensures cs[j].name != name { assert j < |front| ==> front[j] == cs[j]; }
      }
    }
  }

  lemma RunsMeans(cs: seq<Seen>, id: string)
    ensures RunsNow(cs, id) <==> ById(cs, id).Some? && ById(cs, id).value.running
    ensures StoppedNow(cs, id) <==> ById(cs, id).Some? && !ById(cs, id).value.running
    ensures Absent(cs, id) <==> ById(cs, id).None?
  {
    ByIdIsLast(cs, id);
    if ById(cs, id).Some? { var i: nat :| LastById(cs, id, i); }
  }

  lemma NamesakeMeans(cs: seq<Seen>, name: string)
    ensures NamesakeRuns(cs, name) <==> ByName(cs, name).Some? && ByName(cs, name).value.running
  {
    ByNameIsLast(cs, name);
    if ByName(cs, name).Some? { var i: nat :| LastByName(cs, name, i); }
  }

  // ----- Statuses

  /** What the engine will start again by itself. */
  predicate SelfRestarting(e: Entry) { e.policy == "always" || e.policy == "unless-stopped" }

  /** The four statuses of an entry. */
  lemma StatusMeans(e: Entry, bootAt: int, o: Observation, now: int, t: Timing)
    ensures var st, cs := StatusOf(e, bootAt, o, now, t), o.containers;
            && (st == Back <==> RunsNow(cs, e.id) || (Absent(cs, e.id) && NamesakeRuns(cs, e.name)))
            && (st == Gone <==> Absent(cs, e.id) && !NamesakeRuns(cs, e.name))
            && (st == Waiting <==> StoppedNow(cs, e.id) && SelfRestarting(e) && now - bootAt < t.policyWait)
            && (st == Restorable <==> StoppedNow(cs, e.id) && !(SelfRestarting(e) && now - bootAt < t.policyWait))
  {
    RunsMeans(o.containers, e.id);
    NamesakeMeans(o.containers, e.name);
  }

  /** An entry is open exactly when its container is there and stopped. */
  lemma OpenMeans(e: Entry, bootAt: int, o: Observation, now: int, t: Timing)
    ensures IsOpen(StatusOf(e, bootAt, o, now, t)) <==> StoppedNow(o.containers, e.id)
  {
    StatusMeans(e, bootAt, o, now, t);
    RunsMeans(o.containers, e.id);
  }

  /** Some entry's container is there and stopped. */
  ghost predicate SomeStopped(es: seq<Entry>, cs: seq<Seen>) { exists e :: e in es && StoppedNow(cs, e.id) }

  lemma AnyOpenMeans(s: Snapshot, o: Observation, now: int, t: Timing)
    ensures AnyOpen(s, o, now, t) <==> SomeStopped(s.entries, o.containers)
  {
    forall e | e in s.entries ensures IsOpen(StatusOf(e, s.bootAt, o, now, t)) <==> StoppedNow(o.containers, e.id) {
      OpenMeans(e, s.bootAt, o, now, t);
    }
  }

  /** The item shows the entry's own data and status. */
  predicate Shows(it: StatusItem, e: Entry, s: Snapshot, o: Observation, now: int, t: Timing)
  {
    && it.id == e.id && it.name == e.name && it.image == e.image && it.project == e.project && it.service == e.service
    && it.status == StatusOf(e, s.bootAt, o, now, t)
  }

  /** The list shows every entry once. */
  lemma ItemsMean(s: Snapshot, o: Observation, now: int, t: Timing, it: StatusItem)
    ensures |Items(s, o, now, t)| == |s.entries|
    ensures it in Items(s, o, now, t) <==> exists e :: e in s.entries && Shows(it, e, s, o, now, t)
  {
    var raw, items := RawItems(s, o, now, t), Items(s, o, now, t);
    SortPermutes(raw, ItemLe());
    assert |multiset(items)| == |multiset(raw)|;
    assert it in items <==> it in multiset(items);
    assert it in raw <==> it in multiset(raw);
    if it in raw {
      var k :| 0 <= k < |raw| && raw[k] == it;
      assert s.entries[k] in s.entries;
    }
    if e :| e in s.entries && Shows(it, e, s, o, now, t) {
      var k :| 0 <= k < |s.entries| && s.entries[k] == e;
      assert raw[k] == it;
    }
  }

  // ----- A tick without a snapshot

  /** A container that gets an entry. */
  predicate Worthy(c: Seen) { c.running && !c.excluded && !c.autoRemove }

  predicate IsEntryFor(x: Entry, c: Seen, now: int)
  {
    && x.id == c.id && x.name == c.name && x.image == c.image && x.policy == c.policy
    && x.project == c.project && x.service == c.service && x.deps == c.deps
    && x.addedAt == now && x.stoppedSeenAt == 0
  }

  /** The snapshot made anew: where it was taken, and one entry for each container worth one. */
  lemma RebuildMeans(o: Observation, now: int, x: Entry)
    ensures var s := Rebuild(o, now);
            && s.engineId == o.engineId && s.context == o.context && s.host == o.host
            && s.bootId == o.bootId && s.bootAt == o.bootAt
            && s.phase == Tracking && s.detectedAt == 0 && s.updatedAt == now
    ensures x in Rebuild(o, now).entries <==> exists c :: c in o.containers && Worthy(c) && IsEntryFor(x, c, now)
  {
    SortKeepsMembers(NewEntries(o.containers, {}, now), x);
    NewMember(o.containers, {}, now, x);
    forall c ensures IsEntryFor(x, c, now) <==> x == EntryOf(c, now) { }
  }

  // ----- A tick that carries entries over

  /** What becomes of entry `e`. */
  ghost predicate Carried(e: Entry, x: Entry, cs: seq<Seen>, now: int, t: Timing)
  {
    || (exists i: nat :: LastById(cs, e.id, i) && cs[i].running && x == e.(name := cs[i].name, stoppedSeenAt := 0))
    || (!RunsNow(cs, e.id) && e.stoppedSeenAt == 0 && x == e.(stoppedSeenAt := now))
    || (!RunsNow(cs, e.id) && e.stoppedSeenAt != 0 && now - e.stoppedSeenAt < t.grace && x == e)
  }

  /** A container worth an entry that has none. */
  ghost predicate NewWorthy(c: Seen, es: seq<Entry>) { Worthy(c) && forall e :: e in es ==> e.id != c.id }

  ghost predicate CarriedOrNew(es: seq<Entry>, x: Entry, cs: seq<Seen>, now: int, t: Timing)
  {
    || (exists e :: e in es && Carried(e, x, cs, now, t))
    || (exists c :: c in cs && NewWorthy(c, es) && IsEntryFor(x, c, now))
  }

  lemma KeptMeans(e: Entry, x: Entry, o: Observation, now: int, t: Timing)
    ensures Kept(e, o, now, t) == Some(x) <==> Carried(e, x, o.containers, now, t)
  {
    RunsMeans(o.containers, e.id);
    ByIdIsLast(o.containers, e.id);
  }

  /** The entries of a tracking snapshot after a tick that finds no restart. */
  lemma UpdatedMeans(es: seq<Entry>, o: Observation, now: int, t: Timing, x: Entry)
    ensures x in Updated(es, o, now, t) <==> CarriedOrNew(es, x, o.containers, now, t)
  {
    var cs := o.containers;
    UpdatedMember(es, o, now, t, x);
    KeptMember(es, o, now, t, x);
    NewMember(cs, Ids(es), now, x);
    forall e ensures Kept(e, o, now, t) == Some(x) <==> Carried(e, x, cs, now, t) { KeptMeans(e, x, o, now, t); }
    forall c ensures Eligible(c) && c.id !in Ids(es) && x == EntryOf(c, now) <==>
                     NewWorthy(c, es) && IsEntryFor(x, c, now) { }
  }

  /** Something about entry `e` has to be written down. */
  ghost predicate Differs(e: Entry, cs: seq<Seen>, now: int, t: Timing)
  {
    || (exists i: nat :: LastById(cs, e.id, i) && cs[i].running && (e.stoppedSeenAt != 0 || e.name != cs[i].name))
    || (!RunsNow(cs, e.id) && (e.stoppedSeenAt == 0 || now - e.stoppedSeenAt >= t.grace))
  }

  lemma TouchedMeans(e: Entry, o: Observation, now: int, t: Timing)
    ensures Touched(e, o, now, t) <==> Differs(e, o.containers, now, t)
  {
    RunsMeans(o.containers, e.id);
    ByIdIsLast(o.containers, e.id);
  }

  lemma {:induction false} AnyTouchedMeans(es: seq<Entry>, o: Observation, now: int, t: Timing)
    ensures AnyTouched(es, o, now, t) <==> exists e :: e in es && Differs(e, o.containers, now, t)
  {
    if es != [] {
      var n := |es| - 1;
      AnyTouchedMeans(es[..n], o, now, t);
      TouchedMeans(es[n], o, now, t);
      assert es == es[..n] + [es[n]];
    }
  }

  lemma {:induction false} NoneNew(cs: seq<Seen>, known: set<string>, now: int)
    ensures NewEntries(cs, known, now) == [] <==> forall c :: c in cs ==> !(Eligible(c) && c.id !in known)
  {
    if cs != [] {
      var n := |cs| - 1;
      NoneNew(cs[..n], known, now);
      assert cs == cs[..n] + [cs[n]];
    }
  }

  /** The entries have changed. */
  ghost predicate EntriesChange(es: seq<Entry>, cs: seq<Seen>, now: int, t: Timing)
  {
    (exists e :: e in es && Differs(e, cs, now, t)) || (exists c :: c in cs && NewWorthy(c, es))
  }

  lemma ChangesMeans(es: seq<Entry>, o: Observation, now: int, t: Timing)
    ensures Changes(es, o, now, t) <==> EntriesChange(es, o.containers, now, t)
  {
    AnyTouchedMeans(es, o, now, t);
    NoneNew(o.containers, Ids(es), now);
    forall c ensures Eligible(c) && c.id !in Ids(es) <==> NewWorthy(c, es) { }
  }

  // ----- The whole tick

  /** A boot marker other than the one on record. */
  predicate NewMarker(s: Snapshot, o: Observation) { o.bootId != "" && o.bootId != s.bootId }

  const DAY := 86_400_000

  /** The restart of an engine that tells its boot marker, with a container left down. */
  ghost predicate Rebooted(s: Snapshot, o: Observation)
  {
    s.bootId != "" && NewMarker(s, o) && SomeStopped(s.entries, o.containers)
  }

  /** An outage may be why the entry's container is down. */
  ghost predicate OutageExplains(e: Entry, o: Observation, t: Timing)
  {
    || Absent(o.containers, e.id) || RunsNow(o.containers, e.id)
    || exists i: nat :: LastById(o.containers, e.id, i) && o.containers[i].finishedAt >= o.unreachableSince - t.grace
  }

  /** The same of an engine without markers: an outage was seen, and it explains a container that is down. */
  ghost predicate CameBack(s: Snapshot, o: Observation, t: Timing)
  {
    && s.bootId == "" && o.bootId == "" && o.unreachableSince > 0
    && exists e :: e in s.entries && StoppedNow(o.containers, e.id) && OutageExplains(e, o, t)
  }

  lemma ExplainedMeans(e: Entry, o: Observation, t: Timing)
    ensures Explained(e, o, t) <==> OutageExplains(e, o, t)
  {
    RunsMeans(o.containers, e.id);
    ByIdIsLast(o.containers, e.id);
  }

  lemma CandidateOpen(s: Snapshot, o: Observation, now: int, t: Timing)
    requires !BootMoved(s, o)
    ensures SomeStopped(Candidate(s, o, now, t).entries, o.containers) <==>
            exists e :: e in s.entries && StoppedNow(o.containers, e.id) && OutageExplains(e, o, t)
  {
    var c := Candidate(s, o, now, t);
    forall e ensures e in c.entries <==> e in s.entries && OutageExplains(e, o, t) {
      ExplainedMember(s.entries, o, t, e);
      ExplainedMeans(e, o, t);
    }
  }

  /** When a tracking snapshot turns pending, and what is then on offer. */
  lemma OfferMeans(s: Snapshot, o: Observation, now: int, t: Timing, x: Entry)
    requires s.phase == Tracking
    ensures var next := Step(Some(s), o, now, t).0;
            && (next.phase == Pending <==> Rebooted(s, o) || CameBack(s, o, t))
            && (next.phase == Pending ==>
                  && Step(Some(s), o, now, t).1 && next.detectedAt == now && next.updatedAt == now
                  && next.engineId == s.engineId && next.context == o.context && next.host == o.host
                  && next.bootId == o.bootId && next.bootAt == (if s.bootId == "" then now else o.bootAt)
                  && (if s.bootId == "" then x in next.entries <==> x in s.entries && OutageExplains(x, o, t)
                      else next.entries == s.entries))
  {
    TurnsPendingIff(s, o, now, t);
    AnyOpenMeans(Candidate(s, o, now, t), o, now, t);
    if !BootMoved(s, o) {
      CandidateOpen(s, o, now, t);
      ExplainedMember(s.entries, o, t, x);
      ExplainedMeans(x, o, t);
    }
  }

  /** What the boot fields and the save date become where no offer is made or dropped. */
  ghost predicate Followed(s: Snapshot, next: Snapshot, o: Observation, now: int, touched: bool)
  {
    && next.engineId == s.engineId && next.context == o.context && next.host == o.host
    && next.phase == s.phase && next.detectedAt == s.detectedAt
    && next.bootId == (if NewMarker(s, o) then o.bootId else s.bootId)
    && next.bootAt == (if NewMarker(s, o) then o.bootAt else s.bootAt)
    && next.updatedAt == (if touched then now else s.updatedAt)
  }

  /** A pending snapshot: its offer stays while a container of it is down; then tracking starts anew. */
  lemma PendingMeans(s: Snapshot, o: Observation, now: int, t: Timing)
    requires s.phase == Pending
    ensures var (next, changed) := Step(Some(s), o, now, t);
            if SomeStopped(s.entries, o.containers)
            then && (changed <==> NewMarker(s, o) || now - s.updatedAt >= DAY)
                 && next.entries == s.entries && Followed(s, next, o, now, changed)
            else changed && next == Rebuild(o, now)
  {
    PendingStaysOrRebuilds(s, o, now, t);
    AnyOpenMeans(FollowBoot(s, o), o, now, t);
  }

  /** A tracking snapshot without a restart: entries carried over, and saved only when something changed. */
  lemma TrackingMeans(s: Snapshot, o: Observation, now: int, t: Timing, x: Entry)
    requires s.phase == Tracking && !Rebooted(s, o) && !CameBack(s, o, t)
    ensures var (next, changed) := Step(Some(s), o, now, t);
            && (changed <==> || NewMarker(s, o) || EntriesChange(s.entries, o.containers, now, t)
                             || now - s.updatedAt >= DAY)
            && Followed(s, next, o, now, changed)
            && (x in next.entries <==> CarriedOrNew(s.entries, x, o.containers, now, t))
  {
    OfferMeans(s, o, now, t, x);
    TrackingStepUpdates(s, o, now, t);
    ChangesMeans(s.entries, o, now, t);
    UpdatedMeans(s.entries, o, now, t, x);
  }
}
