/**
 The patch builder of `internal/agentport/jsonpatch.go`: it follows a document symbolically while
 it emits the operations that set values and extend lists.
 */
module JsonPatch {
  import opened Prelude
  import opened JsonDoc

  /** The builder's fields as a value: emitted operations, pointers known to exist, decoded values. */
  datatype Builder = Builder(ops: seq<Op>, have: set<string>, existing: map<string, Json>)

  function Take(p: Path, n: nat): Path { if n == 0 || p.Top? then Top else At(p.key, Take(p.rest, n - 1)) }

  function EnsureAt(b: Builder, p: Path): Builder
  {
    if Ptr(p) in b.have then b else Builder(b.ops + [Op(true, Ptr(p), EMPTY)], b.have + {Ptr(p)}, b.existing)
  }

  function EnsuredTo(b: Builder, path: Path, i: nat): Builder
  {
    if i == 0 then b else EnsureAt(EnsuredTo(b, path, i - 1), Take(path, i))
  }

  /** Every missing parent of `path` added as an empty object, outermost first. */
  function Ensured(b: Builder, path: Path): Builder { EnsuredTo(b, path, if path.Top? then 0 else Len(path) - 1) }

  /** Emits a set, as an add after its parents when the pointer is not known to exist. */
  function SetStep(b: Builder, path: Path, v: Json): Builder
  {
    var at := Ptr(path);
    if at in b.existing && b.existing[at] == v then b
    else if at in b.have then Builder(b.ops + [Op(false, at, v)], b.have + {at}, b.existing)
    else
      var e := Ensured(b, path);
      Builder(e.ops + [Op(true, at, v)], e.have + {at}, e.existing)
  }

  function KnownItems(b: Builder, path: Path): seq<Json>
  {
    if Ptr(path) in b.existing && b.existing[Ptr(path)].List? then b.existing[Ptr(path)].items else []
  }

  function AppendStep(b: Builder, path: Path, v: Json): Builder
  {
    var at := Ptr(path);
    if v in KnownItems(b, path) then b
    else
      var longer := List(KnownItems(b, path) + [v]);
      var known := if at in b.existing && b.existing[at].List? then b.(existing := b.existing[at := longer]) else b;
      var made := if at in known.have then known else CreateList(Ensured(known, path), at, v);
      made.(ops := made.ops + [Op(true, at + "/-", v)])
  }

  function CreateList(e: Builder, at: string, v: Json): Builder
  {
    Builder(e.ops + [Op(true, at, List([]))], e.have + {at}, e.existing[at := List([v])])
  }

  // ----- Hooks already present

  function Field(j: Json, k: string): Json { if j.Obj? && k in j.fields then j.fields[k] else Null }

  function ItemsOf(j: Json): seq<Json> { if j.List? then j.items else [] }

  /** A hook group with this matcher, a missing one being empty, and a hook with this command. */
  predicate Matches(g: Json, matcher: string, command: string)
  {
    && (if Field(g, "matcher").Str? then Field(g, "matcher").s else "") == matcher
    && var hooks := ItemsOf(Field(g, "hooks"));
       exists i :: 0 <= i < |hooks| && Field(hooks[i], "command") == Str(command)
  }

  predicate HasHook(groups: seq<Json>, matcher: string, command: string)
  {
    exists i :: 0 <= i < |groups| && Matches(groups[i], matcher, command)
  }

  // ----- Requests

  datatype Request =
    | SetTo(path: Path, v: Json)
    | AddTo(path: Path, v: Json)
    | AddHook(path: Path, matcher: string, command: string, v: Json)

  /** The list need not be extended: it has the entry, or a hook that does the same. */
  predicate Skips(items: seq<Json>, r: Request)
    requires !r.SetTo?
  {
    r.v in items || (r.AddHook? && HasHook(items, r.matcher, r.command))
  }

  function Step(b: Builder, r: Request): Builder
  {
    match r
    case SetTo(path, v) => SetStep(b, path, v)
    case AddTo(path, v) => AppendStep(b, path, v)
    case AddHook(path, m, c, v) => if HasHook(KnownItems(b, path), m, c) then b else AppendStep(b, path, v)
  }

  function Steps(b: Builder, rs: seq<Request>): Builder
  {
    if rs == [] then b else Step(Steps(b, rs[..|rs| - 1]), rs[|rs| - 1])
  }

  // ----- What the requests ask for, said of documents alone

  function ItemsAt(doc: Json, path: Path): seq<Json>
  {
    if Get(doc, path).Some? then ItemsOf(Get(doc, path).value) else []
  }

  /** One value set, or one entry joined to a list; nothing else. */
  function Want(doc: Json, r: Request): Json
  {
    if r.SetTo? then Put(doc, r.path, r.v)
    else if Skips(ItemsAt(doc, r.path), r) then doc
    else Put(doc, r.path, List(ItemsAt(doc, r.path) + [r.v]))
  }

  function WantAll(doc: Json, rs: seq<Request>): Json
  {
    if rs == [] then doc else Want(WantAll(doc, rs[..|rs| - 1]), rs[|rs| - 1])
  }

  /** Existing parents are objects and an existing append target is a list. */
  ghost predicate Fits(doc: Json, r: Request)
  {
    Walkable(doc, r.path) && (!r.SetTo? ==> Get(doc, r.path).None? || Get(doc, r.path).value.List?)
  }

  /** Neither path leads through the other, and no path is set beside another request for it. */
  predicate Compatible(r: Request, s: Request)
  {
    !ProperPrefix(r.path, s.path) && !ProperPrefix(s.path, r.path) && (r.path == s.path ==> !r.SetTo? && !s.SetTo?)
  }

  predicate AllCompatibleWith(rs: seq<Request>, r: Request) { forall i :: 0 <= i < |rs| ==> Compatible(rs[i], r) }

  predicate AllCompatible(rs: seq<Request>)
  {
    forall i, j :: 0 <= i < j < |rs| ==> Compatible(rs[i], rs[j])
  }

  // ----- What the builder can see

  /** The managed top-level keys and the document as it was read. */
  datatype Scope = Scope(keys: set<string>, doc: Json)

  predicate UnderManaged(sc: Scope, p: Path) { p.At? && p.key in sc.keys }

  /** Paths whose values were recorded on loading. */
  predicate Decoded(sc: Scope, p: Path) { UnderManaged(sc, p) && Len(p) <= 4 }

  /** Paths of which the builder knows whether they exist: recorded, or absent just below. */
  predicate InSight(sc: Scope, p: Path)
  {
    Decoded(sc, p) || (UnderManaged(sc, p) && Len(p) == 5 && Get(sc.doc, p).None?)
  }

  /**
   Requests that the builder serves on every document they fit: a set needs only its parents to be
   recorded, an append its list too, unless there is none yet.
   */
  predicate InReach(sc: Scope, r: Request)
  {
    if r.SetTo? then UnderManaged(sc, r.path) && Len(r.path) <= 5 else InSight(sc, r.path)
  }

  // ----- Tracking

  predicate BelowDone(done: seq<Request>, q: Path) { exists i :: 0 <= i < |done| && ProperPrefix(done[i].path, q) }

  predicate Spares(r: Request, q: Path)
  {
    !ProperPrefix(r.path, q) && !ProperPrefix(q, r.path) && (r.path == q ==> !r.SetTo?)
  }

  predicate Spared(done: seq<Request>, q: Path) { forall i :: 0 <= i < |done| ==> Spares(done[i], q) }

  function Lookup(existing: map<string, Json>, at: string): Option<Json>
  {
    if at in existing then Some(existing[at]) else None
  }

  ghost predicate HaveRight(sc: Scope, have: set<string>, cur: Json, done: seq<Request>)
  {
    forall q {:trigger InSight(sc, q)} :: InSight(sc, q) && !BelowDone(done, q) ==>
      (Ptr(q) in have <==> Get(cur, q).Some?)
  }

  ghost predicate ExistingRight(sc: Scope, existing: map<string, Json>, cur: Json, done: seq<Request>)
  {
    forall q {:trigger InSight(sc, q)} :: InSight(sc, q) && Spared(done, q) ==> Lookup(existing, Ptr(q)) == Get(cur, q)
  }

  predicate Untouched(done: seq<Request>, q: Path)
  {
    forall i :: 0 <= i < |done| ==> done[i].path != q && !ProperPrefix(q, done[i].path)
  }

  /** Of deeper paths the builder knows only those it wrote itself. */
  ghost predicate BeyondRight(sc: Scope, b: Builder, done: seq<Request>)
  {
    forall q {:trigger Untouched(done, q)} :: UnderManaged(sc, q) && Len(q) > 4 && Untouched(done, q) ==>
      Ptr(q) !in b.have && Ptr(q) !in b.existing
  }

  /**
   The builder follows the document `cur` that its operations make of `sc.doc`: it knows what exists
   except inside what it has written itself, and the values of what it has not touched.
   */
  ghost predicate Tracks(sc: Scope, b: Builder, cur: Json, done: seq<Request>)
  {
    && ApplyAll(sc.doc, b.ops) == Some(cur)
    && cur.Obj?
    && HaveRight(sc, b.have, cur, done)
    && ExistingRight(sc, b.existing, cur, done)
    && BeyondRight(sc, b, done)
  }

  lemma TracksWeaker(sc: Scope, b: Builder, cur: Json, done: seq<Request>, r: Request)
    requires Tracks(sc, b, cur, done)
    ensures Tracks(sc, b, cur, done + [r])
  {
    var more := done + [r];
    forall q | InSight(sc, q) && !BelowDone(more, q) ensures Ptr(q) in b.have <==> Get(cur, q).Some? {
      assert forall i :: 0 <= i < |done| ==> more[i] == done[i];
    }
    forall q | InSight(sc, q) && Spared(more, q) ensures Lookup(b.existing, Ptr(q)) == Get(cur, q) {
      assert Spared(done, q) by {
        forall i | 0 <= i < |done| ensures Spares(done[i], q) { assert more[i] == done[i]; }
      }
    }
    forall q | UnderManaged(sc, q) && Len(q) > 4 && Untouched(more, q)
      ensures Ptr(q) !in b.have && Ptr(q) !in b.existing {
      assert Untouched(done, q) by {
        forall i | 0 <= i < |done| ensures done[i].path != q && !ProperPrefix(q, done[i].path) {
          assert more[i] == done[i];
        }
      }
    }
  }

  /** A write the builder makes for `path`: the value itself, or an empty object for a missing parent. */
  ghost predicate WritesFor(cur: Json, path: Path, p: Path, v: Json)
  {
    p.At? && Open(cur, p) && (p == path || (ProperPrefix(p, path) && v == EMPTY && Get(cur, p).None?))
  }

  lemma PutHave(sc: Scope, have: set<string>, cur: Json, done: seq<Request>, path: Path, p: Path, v: Json)
    requires HaveRight(sc, have, cur, done) && WritesFor(cur, path, p, v)
    requires exists i :: 0 <= i < |done| && done[i].path == path
    ensures HaveRight(sc, have + {Ptr(p)}, Put(cur, p, v), done)
  {
    forall q | InSight(sc, q) && !BelowDone(done, q)
      ensures Ptr(q) in have + {Ptr(p)} <==> Get(Put(cur, p, v), q).Some? {
      PtrInjective(p, q);
      if q == p { GetPut(cur, p, v); }
      else if ProperPrefix(q, p) { GetPutAbove(cur, p, v, q); }
      else if ProperPrefix(p, q) { GetPutBelow(cur, p, q); }
      else { GetPutApart(cur, p, v, q); }
    }
  }

  lemma PutExisting(sc: Scope, existing: map<string, Json>, cur: Json, done: seq<Request>, path: Path, p: Path, v: Json)
    requires ExistingRight(sc, existing, cur, done) && WritesFor(cur, path, p, v)
    requires exists i :: 0 <= i < |done| && done[i].path == path
    ensures ExistingRight(sc, if p == path then existing[Ptr(p) := v] else existing, Put(cur, p, v), done)
  {
    forall q | InSight(sc, q) && Spared(done, q)
      ensures Lookup(if p == path then existing[Ptr(p) := v] else existing, Ptr(q)) == Get(Put(cur, p, v), q)
    {
      var i :| 0 <= i < |done| && done[i].path == path;
      assert Spares(done[i], q);
      PtrInjective(p, q);
      PrefixOfPrefix(q, p, path);
      if q == p { GetPut(cur, p, v); }
      else if ProperPrefix(p, q) { GetPutBelow(cur, p, q); }
      else { GetPutApart(cur, p, v, q); }
    }
  }

  lemma {:induction false} PrefixOfPrefix(q: Path, p: Path, path: Path)
    ensures ProperPrefix(q, p) && ProperPrefix(p, path) ==> ProperPrefix(q, path)
  {
    if ProperPrefix(q, p) && ProperPrefix(p, path) && q.At? { PrefixOfPrefix(q.rest, p.rest, path.rest); }
  }

  lemma PutBeyond(sc: Scope, b: Builder, next: Builder, done: seq<Request>, path: Path, p: Path)
    requires BeyondRight(sc, b, done) && (p == path || ProperPrefix(p, path))
    requires exists i :: 0 <= i < |done| && done[i].path == path
    requires next.have <= b.have + {Ptr(p)} && next.existing.Keys <= b.existing.Keys + {Ptr(p)}
    ensures BeyondRight(sc, next, done)
  {
    forall q | UnderManaged(sc, q) && Len(q) > 4 && Untouched(done, q)
      ensures Ptr(q) !in next.have && Ptr(q) !in next.existing {
      PtrInjective(p, q);
    }
  }

  /** The builder after one operation; `value` says whether it takes down the value written. */
  function Wrote(b: Builder, op: Op, p: Path, v: Json, value: bool): Builder
  {
    Builder(b.ops + [op], b.have + {Ptr(p)}, if value then b.existing[Ptr(p) := v] else b.existing)
  }

  /** One emitted write, with the builder's books brought up to date. */
  lemma WriteTracks(sc: Scope, b: Builder, cur: Json, done: seq<Request>, path: Path, p: Path, v: Json, op: Op)
    requires Tracks(sc, b, cur, done) && WritesFor(cur, path, p, v)
    requires exists i :: 0 <= i < |done| && done[i].path == path
    requires Apply(cur, op) == Some(Put(cur, p, v))
    ensures Tracks(sc, Wrote(b, op, p, v, p == path), Put(cur, p, v), done)
  {
    PutHave(sc, b.have, cur, done, path, p, v);
    PutExisting(sc, b.existing, cur, done, path, p, v);
    PutBeyond(sc, b, Wrote(b, op, p, v, p == path), done, path, p);
    ApplyOneMore(sc.doc, b.ops, op);
  }

  /** The value of a path that was set is not consulted again. */
  lemma StaleAfterSet(sc: Scope, b: Builder, cur: Json, done: seq<Request>, r: Request, v: Json)
    requires r.SetTo? && r in done
    requires Tracks(sc, b.(existing := b.existing[Ptr(r.path) := v]), cur, done)
    ensures Tracks(sc, b, cur, done)
  {
    var existing := b.existing[Ptr(r.path) := v];
    forall q | InSight(sc, q) && Spared(done, q) ensures Lookup(b.existing, Ptr(q)) == Get(cur, q) {
      var i :| 0 <= i < |done| && done[i] == r;
      assert Spares(done[i], q);
      PtrInjective(q, r.path);
      assert Lookup(existing, Ptr(q)) == Get(cur, q);
    }
  }

  // ----- Parents

  ghost predicate OpenTo(doc: Json, p: Path, i: nat)
  {
    doc.Obj? && (i == 0 || (p.At? && p.key in doc.fields && OpenTo(doc.fields[p.key], p.rest, i - 1)))
  }

  lemma {:induction false} TakeFacts(p: Path, i: nat)
    requires i <= Len(p)
    ensures Len(Take(p, i)) == i && (i > 0 ==> Take(p, i).At? && Take(p, i).key == p.key)
    ensures if i < Len(p) then ProperPrefix(Take(p, i), p) else Take(p, i) == p
  {
    if i > 0 { TakeFacts(p.rest, i - 1); }
  }

  lemma {:induction false} OpenToOpen(doc: Json, p: Path, i: nat)
    requires 0 < i <= Len(p) && OpenTo(doc, p, i - 1)
    ensures Open(doc, Take(p, i))
  {
    if i > 1 { OpenToOpen(doc.fields[p.key], p.rest, i - 1); }
  }

  lemma {:induction false} OpenToMore(doc: Json, p: Path, i: nat)
    requires 0 < i < Len(p) && OpenTo(doc, p, i - 1) && Walkable(doc, p) && Get(doc, Take(p, i)).Some?
    ensures OpenTo(doc, p, i)
  {
    if i > 1 { OpenToMore(doc.fields[p.key], p.rest, i - 1); }
  }

  lemma {:induction false} OpenToNew(doc: Json, p: Path, i: nat)
    requires 0 < i < Len(p) && OpenTo(doc, p, i - 1) && Walkable(doc, p) && Get(doc, Take(p, i)).None?
    ensures OpenTo(Put(doc, Take(p, i), EMPTY), p, i) && Walkable(Put(doc, Take(p, i), EMPTY), p)
  {
    if i > 1 { OpenToNew(doc.fields[p.key], p.rest, i - 1); } else { EmptyWalkable(p.rest); }
  }

  /** Parents of a spared path are not below anything written before. */
  lemma ParentsInSight(done: seq<Request>, r: Request, p: Path)
    requires Spared(done, r.path) && (p == r.path || ProperPrefix(p, r.path))
    ensures !BelowDone(done + [r], p)
  {
    var more := done + [r];
    forall i | 0 <= i < |more| ensures !ProperPrefix(more[i].path, p) {
      PrefixOfPrefix(more[i].path, p, r.path);
      NotBelowItself(r.path, p);
      assert i < |done| ==> more[i] == done[i] && Spares(done[i], r.path);
    }
  }

  lemma {:induction false} NotBelowItself(q: Path, p: Path)
    requires p == q || ProperPrefix(p, q)
    ensures !ProperPrefix(q, p)
  {
    if p.At? { NotBelowItself(q.rest, p.rest); }
  }

  lemma {:induction false} EnsuredTracks(sc: Scope, b: Builder, cur: Json, done: seq<Request>, r: Request, i: nat,
                                         v: Json)
    returns (now: Json)
    requires Tracks(sc, b, cur, done + [r]) && UnderManaged(sc, r.path) && Len(r.path) <= 5 && Spared(done, r.path)
    requires Walkable(cur, r.path)
    requires i < Len(r.path)
    ensures Tracks(sc, EnsuredTo(b, r.path, i), now, done + [r]) && Walkable(now, r.path) && OpenTo(now, r.path, i)
    ensures Put(now, r.path, v) == Put(cur, r.path, v) && EnsuredTo(b, r.path, i).existing == b.existing
  {
    if i == 0 { return cur; }
    var open := EnsuredTracks(sc, b, cur, done, r, i - 1, v);
    now := EnsureStep(sc, EnsuredTo(b, r.path, i - 1), open, done, r, i, v);
  }

  lemma EnsureStep(sc: Scope, b: Builder, cur: Json, done: seq<Request>, r: Request, i: nat, v: Json)
    returns (now: Json)
    requires Tracks(sc, b, cur, done + [r]) && UnderManaged(sc, r.path) && Len(r.path) <= 5 && Spared(done, r.path)
    requires Walkable(cur, r.path)
    requires 0 < i < Len(r.path) && OpenTo(cur, r.path, i - 1)
    ensures Tracks(sc, EnsureAt(b, Take(r.path, i)), now, done + [r]) && Walkable(now, r.path) && OpenTo(now, r.path, i)
    ensures Put(now, r.path, v) == Put(cur, r.path, v)
  {
    var p := Take(r.path, i);
    TakeFacts(r.path, i);
    ParentsInSight(done, r, p);
    OpenToOpen(cur, r.path, i);
    assert InSight(sc, p);
    if Ptr(p) in b.have {
      OpenToMore(cur, r.path, i);
      return cur;
    }
    now := Put(cur, p, EMPTY);
    OpenToNew(cur, r.path, i);
    PutThroughNew(cur, p, r.path, v);
    EditIsPut(true, cur, p, EMPTY);
    assert (done + [r])[|done|].path == r.path;
    WriteTracks(sc, b, cur, done + [r], r.path, p, EMPTY, Op(true, Ptr(p), EMPTY));
  }

  /** All parents made: the builder may write at the path. */
  lemma ParentsMade(sc: Scope, b: Builder, cur: Json, done: seq<Request>, r: Request, v: Json) returns (now: Json)
    requires Tracks(sc, b, cur, done + [r]) && UnderManaged(sc, r.path) && Len(r.path) <= 5 && Spared(done, r.path)
    requires Walkable(cur, r.path)
    ensures Tracks(sc, Ensured(b, r.path), now, done + [r]) && Open(now, r.path)
    ensures Put(now, r.path, v) == Put(cur, r.path, v) && Ensured(b, r.path).existing == b.existing
  {
    var n := Len(r.path);
    TakeFacts(r.path, n);
    now := EnsuredTracks(sc, b, cur, done, r, n - 1, v);
    assert Ensured(b, r.path) == EnsuredTo(b, r.path, n - 1);
    OpenToOpen(now, r.path, n);
  }

  lemma {:induction false} FoundOpen(cur: Json, p: Path)
    requires Get(cur, p).Some?
    ensures Open(cur, p)
  {
    if p.At? { FoundOpen(cur.fields[p.key], p.rest); }
  }

  // ----- One request

  /** No earlier request was for this path. */
  predicate NewPath(done: seq<Request>, path: Path) { forall i :: 0 <= i < |done| ==> done[i].path != path }

  /** What the builder knows of a path it is about to set. */
  lemma KnownBeforeSet(sc: Scope, b: Builder, cur: Json, done: seq<Request>, r: Request)
    requires Tracks(sc, b, cur, done) && InReach(sc, r) && Spared(done, r.path) && NewPath(done, r.path) && r.SetTo?
    ensures Ptr(r.path) in b.existing ==> Get(cur, r.path) == Some(b.existing[Ptr(r.path)])
    ensures Ptr(r.path) in b.have ==> Get(cur, r.path).Some?
  {
    if InSight(sc, r.path) {
      ParentsInSight(done, r, r.path);
      TracksWeaker(sc, b, cur, done, r);
      assert Lookup(b.existing, Ptr(r.path)) == Get(cur, r.path);
    } else {
      assert Untouched(done, r.path) by {
        forall i | 0 <= i < |done| ensures done[i].path != r.path && !ProperPrefix(r.path, done[i].path) {
          assert Spares(done[i], r.path);
        }
      }
    }
  }

  lemma SetTracks(sc: Scope, b: Builder, cur: Json, done: seq<Request>, r: Request)
    requires Tracks(sc, b, cur, done) && InReach(sc, r) && Spared(done, r.path) && NewPath(done, r.path)
    requires Fits(cur, r) && r.SetTo?
    ensures Tracks(sc, Step(b, r), Want(cur, r), done + [r])
  {
    var at, more := Ptr(r.path), done + [r];
    KnownBeforeSet(sc, b, cur, done, r);
    TracksWeaker(sc, b, cur, done, r);
    assert more[|done|].path == r.path;
    if at in b.existing && b.existing[at] == r.v {
      PutSame(cur, r.path, r.v);
    } else if at in b.have {
      FoundOpen(cur, r.path);
      EditIsPut(false, cur, r.path, r.v);
      WriteTracks(sc, b, cur, more, r.path, r.path, r.v, Op(false, at, r.v));
      StaleAfterSet(sc, Step(b, r), Put(cur, r.path, r.v), more, r, r.v);
    } else {
      var now := ParentsMade(sc, b, cur, done, r, r.v);
      EditIsPut(true, now, r.path, r.v);
      WriteTracks(sc, Ensured(b, r.path), now, more, r.path, r.path, r.v, Op(true, at, r.v));
      StaleAfterSet(sc, Step(b, r), Put(cur, r.path, r.v), more, r, r.v);
    }
  }

  lemma AppendTracks(sc: Scope, b: Builder, cur: Json, done: seq<Request>, r: Request)
    requires Tracks(sc, b, cur, done) && InSight(sc, r.path) && Spared(done, r.path) && Fits(cur, r) && !r.SetTo?
    requires !Skips(ItemsAt(cur, r.path), r)
    ensures Tracks(sc, AppendStep(b, r.path, r.v), Want(cur, r), done + [r])
  {
    KnownBeforeAppend(sc, b, cur, done, r);
    if Get(cur, r.path).Some? {
      var items := ItemsAt(cur, r.path);
      ExtendTracks(sc, b, cur, done + [r], r, items);
      ExtendStep(b, r.path, items, r.v);
    } else {
      CreateTracks(sc, b, cur, done, r);
      NothingBefore([r.v]);
    }
  }

  /** What the builder knows of a list it is about to extend. */
  lemma KnownBeforeAppend(sc: Scope, b: Builder, cur: Json, done: seq<Request>, r: Request)
    requires Tracks(sc, b, cur, done) && InSight(sc, r.path) && Spared(done, r.path)
    ensures Tracks(sc, b, cur, done + [r]) && r in done + [r]
    ensures Lookup(b.existing, Ptr(r.path)) == Get(cur, r.path)
    ensures Ptr(r.path) in b.have <==> Get(cur, r.path).Some?
  {
    TracksWeaker(sc, b, cur, done, r);
    ParentsInSight(done, r, r.path);
    assert (done + [r])[|done|] == r;
  }

  lemma ExtendStep(b: Builder, path: Path, items: seq<Json>, v: Json)
    requires Ptr(path) in b.have && Lookup(b.existing, Ptr(path)) == Some(List(items)) && v !in items
    ensures AppendStep(b, path, v) ==
            Builder(b.ops + [Op(true, Ptr(path) + "/-", v)], b.have + {Ptr(path)},
                    b.existing[Ptr(path) := List(items + [v])])
  {
    assert b.have + {Ptr(path)} == b.have;
  }

  /** An entry joined to a list that exists. */
  lemma ExtendTracks(sc: Scope, b: Builder, cur: Json, done: seq<Request>, r: Request, items: seq<Json>)
    requires Tracks(sc, b, cur, done) && r.path.At? && r in done && Get(cur, r.path) == Some(List(items))
    ensures Tracks(sc,
                   Builder(b.ops + [Op(true, Ptr(r.path) + "/-", r.v)], b.have + {Ptr(r.path)},
                           b.existing[Ptr(r.path) := List(items + [r.v])]),
                   Put(cur, r.path, List(items + [r.v])), done)
  {
    FoundOpen(cur, r.path);
    AppendIsPut(cur, r.path, items, r.v);
    assert exists i :: 0 <= i < |done| && done[i].path == r.path by {
      var i :| 0 <= i < |done| && done[i] == r;
    }
    WriteTracks(sc, b, cur, done, r.path, r.path, List(items + [r.v]), Op(true, Ptr(r.path) + "/-", r.v));
  }

  function WithEmptyList(e: Builder, at: string): Builder
  {
    Builder(e.ops + [Op(true, at, List([]))], e.have + {at}, e.existing[at := List([])])
  }

  lemma EmptyListTracks(sc: Scope, b: Builder, cur: Json, done: seq<Request>, r: Request)
    requires Tracks(sc, b, cur, done + [r]) && UnderManaged(sc, r.path) && Len(r.path) <= 5 && Spared(done, r.path)
    requires Walkable(cur, r.path)
    ensures Tracks(sc, WithEmptyList(Ensured(b, r.path), Ptr(r.path)), Put(cur, r.path, List([])), done + [r])
  {
    var now := ParentsMade(sc, b, cur, done, r, List([]));
    EditIsPut(true, now, r.path, List([]));
    assert (done + [r])[|done|] == r;
    WriteTracks(sc, Ensured(b, r.path), now, done + [r], r.path, r.path, List([]), Op(true, Ptr(r.path), List([])));
  }

  /** A list made empty and then given its first entry. */
  lemma CreateTracks(sc: Scope, b: Builder, cur: Json, done: seq<Request>, r: Request)
    requires Tracks(sc, b, cur, done + [r]) && UnderManaged(sc, r.path) && Len(r.path) <= 5 && Spared(done, r.path)
    requires Walkable(cur, r.path)
    requires Ptr(r.path) !in b.have && Ptr(r.path) !in b.existing
    ensures Tracks(sc, AppendStep(b, r.path, r.v), Put(cur, r.path, List([r.v])), done + [r])
  {
    EmptyListTracks(sc, b, cur, done, r);
    GetPut(cur, r.path, List([]));
    PutTwice(cur, r.path, List([]), List([r.v]));
    assert (done + [r])[|done|] == r;
    NothingBefore([r.v]);
    ExtendTracks(sc, WithEmptyList(Ensured(b, r.path), Ptr(r.path)), Put(cur, r.path, List([])), done + [r], r, []);
    CreateStep(b, r.path, r.v);
  }

  lemma CreateStep(b: Builder, path: Path, v: Json)
    requires Ptr(path) !in b.have && Ptr(path) !in b.existing
    ensures var at, made := Ptr(path), WithEmptyList(Ensured(b, path), Ptr(path));
            AppendStep(b, path, v) ==
            Builder(made.ops + [Op(true, at + "/-", v)], made.have + {at}, made.existing[at := List([v])])
  {
    var at, e := Ptr(path), Ensured(b, path);
    var made := WithEmptyList(e, at);
    assert made.have + {at} == e.have + {at};
    assert made.existing[at := List([v])] == e.existing[at := List([v])];
  }

  /** The request can be served next. */
  ghost predicate Ready(sc: Scope, cur: Json, done: seq<Request>, r: Request)
  {
    InReach(sc, r) && Spared(done, r.path) && Fits(cur, r) && (r.SetTo? ==> NewPath(done, r.path))
  }

  lemma StepTracks(sc: Scope, b: Builder, cur: Json, done: seq<Request>, r: Request)
    requires Tracks(sc, b, cur, done) && Ready(sc, cur, done, r)
    ensures Tracks(sc, Step(b, r), Want(cur, r), done + [r])
  {
    if r.SetTo? {
      SetTracks(sc, b, cur, done, r);
    } else {
      assert Lookup(b.existing, Ptr(r.path)) == Get(cur, r.path);
      assert KnownItems(b, r.path) == ItemsAt(cur, r.path);
      if Skips(ItemsAt(cur, r.path), r) {
        TracksWeaker(sc, b, cur, done, r);
      } else {
        AppendTracks(sc, b, cur, done, r);
      }
    }
  }

  // ----- Whole runs

  ghost predicate Acceptable(sc: Scope, rs: seq<Request>)
  {
    sc.doc.Obj? && AllCompatible(rs) && forall i :: 0 <= i < |rs| ==> InReach(sc, rs[i]) && Fits(sc.doc, rs[i])
  }

  lemma FitsAfter(doc: Json, r: Request, s: Request)
    requires Fits(doc, r) && Fits(doc, s) && Compatible(r, s)
    ensures Fits(Want(doc, r), s)
  {
    var v := if r.SetTo? then r.v else List(ItemsAt(doc, r.path) + [r.v]);
    WalkableAfterPut(doc, r.path, v, s.path);
    GetPut(doc, r.path, v);
    if r.path != s.path { GetPutApart(doc, r.path, v, s.path); }
  }

  lemma {:induction false} FitsAfterAll(doc: Json, rs: seq<Request>, s: Request)
    requires AllCompatible(rs) && Fits(doc, s)
    requires forall i :: 0 <= i < |rs| ==> Fits(doc, rs[i]) && Compatible(rs[i], s)
    ensures Fits(WantAll(doc, rs), s)
  {
    if rs != [] {
      var n := |rs| - 1;
      FitsAfterAll(doc, rs[..n], s);
      FitsAfterAll(doc, rs[..n], rs[n]);
      FitsAfter(WantAll(doc, rs[..n]), rs[n], s);
    }
  }

  lemma AcceptableFront(sc: Scope, rs: seq<Request>)
    requires Acceptable(sc, rs) && rs != []
    ensures Acceptable(sc, rs[..|rs| - 1])
  {
    var front := rs[..|rs| - 1];
    forall i, j | 0 <= i < j < |front| ensures Compatible(front[i], front[j]) { assert Compatible(rs[i], rs[j]); }
    forall i | 0 <= i < |front| ensures InReach(sc, front[i]) && Fits(sc.doc, front[i]) { assert front[i] == rs[i]; }
  }

  lemma LastIsApart(rs: seq<Request>, last: Request)
    requires rs != [] && AllCompatible(rs) && last == rs[|rs| - 1]
    ensures Spared(rs[..|rs| - 1], last.path) && (last.SetTo? ==> NewPath(rs[..|rs| - 1], last.path))
    ensures AllCompatibleWith(rs[..|rs| - 1], last)
  {
    var front := rs[..|rs| - 1];
    forall i | 0 <= i < |front|
      ensures Compatible(front[i], last) && Spares(front[i], last.path) && (last.SetTo? ==> front[i].path != last.path)
    {
      assert Compatible(rs[i], rs[|rs| - 1]);
    }
  }

  lemma LastIsReady(sc: Scope, rs: seq<Request>)
    requires Acceptable(sc, rs) && rs != []
    ensures Ready(sc, WantAll(sc.doc, rs[..|rs| - 1]), rs[..|rs| - 1], rs[|rs| - 1])
  {
    var front, last := rs[..|rs| - 1], rs[|rs| - 1];
    AcceptableFront(sc, rs);
    LastIsApart(rs, last);
    assert Fits(sc.doc, last);
    FitsAfterAll(sc.doc, front, last);
  }

  lemma LastTracks(sc: Scope, b: Builder, rs: seq<Request>)
    requires rs != [] && Ready(sc, WantAll(sc.doc, rs[..|rs| - 1]), rs[..|rs| - 1], rs[|rs| - 1])
    requires Tracks(sc, Steps(b, rs[..|rs| - 1]), WantAll(sc.doc, rs[..|rs| - 1]), rs[..|rs| - 1])
    ensures Tracks(sc, Steps(b, rs), WantAll(sc.doc, rs), rs)
  {
    var front, last := rs[..|rs| - 1], rs[|rs| - 1];
    assert rs == front + [last];
    StepTracks(sc, Steps(b, front), WantAll(sc.doc, front), front, last);
  }

  /** The builder stays in step with the wanted document. */
  lemma {:induction false} StepsTrack(sc: Scope, b: Builder, rs: seq<Request>)
    requires Acceptable(sc, rs) && Tracks(sc, b, sc.doc, [])
    ensures Tracks(sc, Steps(b, rs), WantAll(sc.doc, rs), rs)
  {
    if rs != [] {
      AcceptableFront(sc, rs);
      StepsTrack(sc, b, rs[..|rs| - 1]);
      LastIsReady(sc, rs);
      LastTracks(sc, b, rs);
    }
  }

  /** The emitted operations apply without error and make exactly the wanted document. */
  lemma PatchMakesWanted(sc: Scope, b: Builder, rs: seq<Request>)
    requires Acceptable(sc, rs) && Tracks(sc, b, sc.doc, [])
    ensures ApplyAll(sc.doc, Steps(b, rs).ops) == Some(WantAll(sc.doc, rs))
  {
    StepsTrack(sc, b, rs);
  }

  // ----- What the wanted document holds

  lemma {:induction false} OthersUnchanged(doc: Json, rs: seq<Request>, q: Path)
    requires forall i :: 0 <= i < |rs| ==> Apart(rs[i].path, q)
    ensures Get(WantAll(doc, rs), q) == Get(doc, q)
  {
    if rs != [] {
      var n := |rs| - 1;
      OthersUnchanged(doc, rs[..n], q);
      var cur, r := WantAll(doc, rs[..n]), rs[n];
      GetPutApart(cur, r.path, if r.SetTo? then r.v else List(ItemsAt(cur, r.path) + [r.v]), q);
    }
  }

  ghost predicate Satisfied(doc: Json, r: Request)
  {
    if r.SetTo? then Get(doc, r.path) == Some(r.v)
    else Get(doc, r.path).Some? && Get(doc, r.path).value.List? && Skips(ItemsAt(doc, r.path), r)
  }

  lemma WantSatisfies(doc: Json, r: Request)
    requires Fits(doc, r)
    ensures Satisfied(Want(doc, r), r)
  {
    GetPut(doc, r.path, if r.SetTo? then r.v else List(ItemsAt(doc, r.path) + [r.v]));
  }

  lemma SkipsMore(items: seq<Json>, x: Json, r: Request)
    requires !r.SetTo? && Skips(items, r)
    ensures Skips(items + [x], r)
  {
    if r.AddHook? && HasHook(items, r.matcher, r.command) {
      var i :| 0 <= i < |items| && Matches(items[i], r.matcher, r.command);
      assert (items + [x])[i] == items[i];
    }
  }

  lemma SatisfiedStays(doc: Json, r: Request, s: Request)
    requires Satisfied(doc, r) && Compatible(r, s)
    ensures Satisfied(Want(doc, s), r)
  {
    var v := if s.SetTo? then s.v else List(ItemsAt(doc, s.path) + [s.v]);
    GetPut(doc, s.path, v);
    if r.path != s.path {
      GetPutApart(doc, s.path, v, r.path);
    } else {
      SkipsMore(ItemsAt(doc, r.path), s.v, r);
    }
  }

  /** Every value that was set reads back, and every list has its requested entry. */
  lemma {:induction false} AllSatisfied(doc: Json, rs: seq<Request>, i: nat)
    requires AllCompatible(rs) && forall j :: 0 <= j < |rs| ==> Fits(doc, rs[j])
    requires i < |rs|
    ensures Satisfied(WantAll(doc, rs), rs[i])
  {
    var n := |rs| - 1;
    var front := rs[..n];
    if i == n {
      FitsAfterAll(doc, front, rs[n]);
      WantSatisfies(WantAll(doc, front), rs[n]);
    } else {
      AllSatisfied(doc, front, i);
      assert front[i] == rs[i] && Compatible(rs[i], rs[n]);
      SatisfiedStays(WantAll(doc, front), rs[i], rs[n]);
    }
  }

  /** A list keeps its entries in place and gains only requested ones, none of them twice. */
  ghost predicate ListUnion(was: seq<Json>, now: seq<Json>, rs: seq<Request>, path: Path)
  {
    && was <= now
    && forall k :: |was| <= k < |now| ==> now[k] !in now[..k] && Requested(rs, path, now[k])
  }

  ghost predicate Requested(rs: seq<Request>, path: Path, v: Json)
  {
    exists i :: 0 <= i < |rs| && rs[i].path == path && rs[i].v == v
  }

  lemma SameUnion(was: seq<Json>, now: seq<Json>, front: seq<Request>, r: Request, path: Path)
    requires ListUnion(was, now, front, path)
    ensures ListUnion(was, now, front + [r], path)
  {
    var rs := front + [r];
    forall k | |was| <= k < |now| ensures Requested(rs, path, now[k]) {
      assert Requested(front, path, now[k]);
      var i :| 0 <= i < |front| && front[i].path == path && front[i].v == now[k];
      assert rs[i] == front[i];
    }
  }

  lemma LongerUnion(was: seq<Json>, mid: seq<Json>, front: seq<Request>, r: Request, path: Path)
    requires ListUnion(was, mid, front, path) && r.path == path && r.v !in mid
    ensures ListUnion(was, mid + [r.v], front + [r], path)
  {
    SameUnion(was, mid, front, r, path);
    var now, rs := mid + [r.v], front + [r];
    assert rs[|front|] == r && Requested(rs, path, r.v);
    forall k | |was| <= k < |now| ensures now[k] !in now[..k] && Requested(rs, path, now[k]) {
      if k < |mid| { assert now[..k] == mid[..k] && now[k] == mid[k]; } else { assert now[..k] == mid; }
    }
  }

  lemma UnionStep(was: seq<Json>, cur: Json, front: seq<Request>, r: Request, path: Path)
    requires ListUnion(was, ItemsAt(cur, path), front, path)
    requires (r.path == path && !r.SetTo?) || Apart(r.path, path)
    ensures ListUnion(was, ItemsAt(Want(cur, r), path), front + [r], path)
  {
    var mid := ItemsAt(cur, path);
    if r.path == path && !Skips(mid, r) {
      GetPut(cur, path, List(mid + [r.v]));
      LongerUnion(was, mid, front, r, path);
    } else {
      var v := if r.SetTo? then r.v else List(ItemsAt(cur, r.path) + [r.v]);
      if r.path != path { GetPutApart(cur, r.path, v, path); }
      SameUnion(was, mid, front, r, path);
    }
  }

  lemma {:induction false} ListsAreUnions(doc: Json, rs: seq<Request>, path: Path)
    requires forall i :: 0 <= i < |rs| ==> (rs[i].path == path && !rs[i].SetTo?) || Apart(rs[i].path, path)
    ensures ListUnion(ItemsAt(doc, path), ItemsAt(WantAll(doc, rs), path), rs, path)
  {
    if rs != [] {
      ListsAreUnions(doc, rs[..|rs| - 1], path);
      UnionOfAll(ItemsAt(doc, path), doc, rs, path);
    }
  }

  lemma UnionOfAll(was: seq<Json>, doc: Json, rs: seq<Request>, path: Path)
    requires rs != [] && ListUnion(was, ItemsAt(WantAll(doc, rs[..|rs| - 1]), path), rs[..|rs| - 1], path)
    requires var r := rs[|rs| - 1]; (r.path == path && !r.SetTo?) || Apart(r.path, path)
    ensures ListUnion(was, ItemsAt(WantAll(doc, rs), path), rs, path)
  {
    var n := |rs| - 1;
    assert rs == rs[..n] + [rs[n]];
    UnionStep(was, WantAll(doc, rs[..n]), rs[..n], rs[n], path);
  }

  // ----- A second run

  lemma {:induction false} EnsuredGrows(b: Builder, path: Path, i: nat)
    ensures |b.ops| <= |EnsuredTo(b, path, i).ops|
  {
    if i > 0 { EnsuredGrows(b, path, i - 1); }
  }

  lemma StepGrows(b: Builder, r: Request)
    ensures |b.ops| <= |Step(b, r).ops|
    ensures Ptr(r.path) !in b.have && Ptr(r.path) !in b.existing ==> |b.ops| < |Step(b, r).ops|
  {
    if r.path.At? {
      EnsuredGrows(b, r.path, Len(r.path) - 1);
      var known := b.(existing := b.existing[Ptr(r.path) := List(KnownItems(b, r.path) + [r.v])]);
      EnsuredGrows(known, r.path, Len(r.path) - 1);
    }
  }

  /** What is already so is not written again. */
  lemma SatisfiedIsSilent(sc: Scope, b: Builder, r: Request)
    requires Tracks(sc, b, sc.doc, []) && Decoded(sc, r.path) && Satisfied(sc.doc, r)
    ensures Step(b, r) == b
  {
    assert InSight(sc, r.path);
    assert Lookup(b.existing, Ptr(r.path)) == Get(sc.doc, r.path);
  }

  lemma BeyondIsNotKnown(sc: Scope, b: Builder, p: Path)
    requires Tracks(sc, b, sc.doc, []) && UnderManaged(sc, p) && Len(p) > 4
    ensures Ptr(p) !in b.have && Ptr(p) !in b.existing
  {
    assert Untouched([], p);
  }

  predicate AllDecoded(sc: Scope, rs: seq<Request>) { forall i :: 0 <= i < |rs| ==> Decoded(sc, rs[i].path) }

  lemma AllDecodedStep(sc: Scope, rs: seq<Request>)
    requires rs != []
    ensures AllDecoded(sc, rs) <==> AllDecoded(sc, rs[..|rs| - 1]) && Decoded(sc, rs[|rs| - 1].path)
  {
    assert forall i :: 0 <= i < |rs| - 1 ==> rs[..|rs| - 1][i] == rs[i];
  }

  /**
   Run on a document in which all requests are satisfied, the builder emits nothing exactly when no
   path is longer than what it recorded.
   */
  lemma {:induction false} SilentIffDecoded(sc: Scope, b: Builder, rs: seq<Request>)
    requires Tracks(sc, b, sc.doc, [])
    requires forall i :: 0 <= i < |rs| ==> UnderManaged(sc, rs[i].path) && Satisfied(sc.doc, rs[i])
    ensures if AllDecoded(sc, rs) then Steps(b, rs) == b else |b.ops| < |Steps(b, rs).ops|
  {
    if rs != [] {
      var n := |rs| - 1;
      SilentIffDecoded(sc, b, rs[..n]);
      AllDecodedStep(sc, rs);
      StepGrows(Steps(b, rs[..n]), rs[n]);
      if Decoded(sc, rs[n].path) { SatisfiedIsSilent(sc, b, rs[n]); } else { BeyondIsNotKnown(sc, b, rs[n].path); }
    }
  }

  /** Run again on what the first run made, the builder emits nothing, if and only if all paths were recorded. */
  lemma SecondExportSilentIff(sc: Scope, rs: seq<Request>, again: Builder)
    requires Acceptable(sc, rs)
    requires Tracks(Scope(sc.keys, WantAll(sc.doc, rs)), again, WantAll(sc.doc, rs), [])
    ensures Steps(again, rs).ops == again.ops <==> AllDecoded(sc, rs)
  {
    var made := Scope(sc.keys, WantAll(sc.doc, rs));
    forall i | 0 <= i < |rs| ensures UnderManaged(made, rs[i].path) && Satisfied(made.doc, rs[i]) {
      AllSatisfied(sc.doc, rs, i);
      assert InReach(sc, rs[i]);
    }
    SilentIffDecoded(made, again, rs);
    assert forall i :: 0 <= i < |rs| ==> (Decoded(made, rs[i].path) <==> Decoded(sc, rs[i].path));
  }

  // ----- Out of reach

  function Drop(p: Path, n: nat): Path { if n == 0 || p.Top? then p else Drop(p.rest, n - 1) }

  /** Along `r` there is nothing beside it: no object on the way holds another key. */
  predicate OnlyAlong(v: Option<Json>, r: Path)
    decreases r
  {
    r.Top? || v.None? || !v.value.Obj? ||
    (v.value.fields.Keys <= {r.key} && OnlyAlong(Get(v.value, At(r.key, Top)), r.rest))
  }

  function Fields(doc: Json): map<string, Json> { if doc.Obj? then doc.fields else map[] }

  lemma OneKey(fields: map<string, Json>, k: string, v: Json, w: Json)
    ensures map[k := v] == fields[k := w] <==> fields.Keys <= {k} && v == w
  {
    assert fields[k := w].Keys == fields.Keys + {k} && map[k := v][k] == v && fields[k := w][k] == w;
    if fields.Keys <= {k} && v == w { assert map[k := v] == fields[k := w]; }
  }

  lemma SameUnderKey(fields: map<string, Json>, k: string, v: Json, w: Json)
    ensures fields[k := v] == fields[k := w] <==> v == w
  {
    assert fields[k := v][k] == v && fields[k := w][k] == w;
  }

  lemma PutTwoSteps(doc: Json, k: string, q: Path, r: Path, v: Json)
    ensures var child := Child(doc, k);
            Put(Put(doc, At(k, q), EMPTY), At(k, r), v) == Obj(Fields(doc)[k := Put(Put(child, q, EMPTY), r, v)])
  {
    var child := Child(doc, k);
    SetTwice(Fields(doc), k, Put(child, q, EMPTY), Put(Put(child, q, EMPTY), r, v));
  }

  lemma {:induction false} PutIntoFresh(doc: Json, r: Path, v: Json)
    ensures Put(EMPTY, r, v) == Put(doc, r, v) <==> OnlyAlong(Some(doc), r)
    decreases r
  {
    if r.At? {
      var child := Child(doc, r.key);
      PutIntoFresh(child, r.rest, v);
      OneKey(Fields(doc), r.key, Put(EMPTY, r.rest, v), Put(child, r.rest, v));
      if doc.Obj? && r.key in doc.fields { assert Get(doc, At(r.key, Top)) == Some(child); }
    }
  }

  /** A write into an object that was just emptied, beside the same write into the object as it was. */
  lemma {:induction false} PutIntoEmptied(doc: Json, p: Path, n: nat, v: Json)
    requires n <= Len(p)
    ensures Put(Put(doc, Take(p, n), EMPTY), p, v) == Put(doc, p, v) <==>
            OnlyAlong(Get(doc, Take(p, n)), Drop(p, n))
    decreases p
  {
    if n == 0 {
      PutIntoFresh(doc, p, v);
      return;
    }
    var k, child, q := p.key, Child(doc, p.key), Take(p.rest, n - 1);
    PutIntoEmptied(child, p.rest, n - 1, v);
    PutTwoSteps(doc, k, q, p.rest, v);
    SameUnderKey(Fields(doc), k, Put(Put(child, q, EMPTY), p.rest, v), Put(child, p.rest, v));
  }

  lemma {:induction false} TakeOfTake(p: Path, n: nat, i: nat)
    requires i <= n
    ensures Take(Take(p, n), i) == Take(p, i)
  {
    if i > 0 && p.At? { TakeOfTake(p.rest, n - 1, i - 1); }
  }

  lemma TakeBelow(p: Path, i: nat, n: nat)
    requires i < n <= Len(p)
    ensures ProperPrefix(Take(p, i), Take(p, n))
  {
    TakeFacts(p, n);
    TakeFacts(Take(p, n), i);
    TakeOfTake(p, n, i);
  }

  lemma {:induction false} EnsuredAlong(b: Builder, p: Path, n: nat, i: nat)
    requires i <= n
    ensures EnsuredTo(b, Take(p, n), i) == EnsuredTo(b, p, i)
  {
    if i > 0 {
      EnsuredAlong(b, p, n, i - 1);
      TakeOfTake(p, n, i);
    }
  }

  lemma {:induction false} EnsuredHave(b: Builder, p: Path, i: nat, q: Path)
    requires i < Len(q) && i <= Len(p)
    ensures Ptr(q) in EnsuredTo(b, p, i).have <==> Ptr(q) in b.have
  {
    if i > 0 {
      EnsuredHave(b, p, i - 1, q);
      TakeFacts(p, i);
      PtrInjective(q, Take(p, i));
    }
  }

  lemma {:induction false} WalkablePrefix(doc: Json, q: Path, p: Path)
    requires Walkable(doc, p) && ProperPrefix(q, p)
    ensures Walkable(doc, q)
    decreases q
  {
    if q.At? && q.key in doc.fields { WalkablePrefix(doc.fields[q.key], q.rest, p.rest); }
  }

  lemma {:induction false} OpenInEmptied(doc: Json, p: Path, i: nat)
    requires i + 1 <= Len(p)
    ensures Open(Put(doc, Take(p, i), EMPTY), Take(p, i + 1))
    decreases p
  {
    if i > 0 { OpenInEmptied(Child(doc, p.key), p.rest, i - 1); }
  }

  lemma {:induction false} WalkableInEmptied(doc: Json, q: Path, p: Path)
    requires Walkable(doc, q) && ProperPrefix(q, p)
    ensures Walkable(Put(doc, q, EMPTY), p)
    decreases q
  {
    if q.At? {
      EmptyWalkable(q.rest);
      WalkableInEmptied(Child(doc, q.key), q.rest, p.rest);
    } else {
      EmptyWalkable(p);
    }
  }

  /** The first key of a path that was not recorded: its value is made anew by whatever goes below it. */
  const BLIND := 5

  /** `doc` with an empty object at the `n`-th key of `p`. */
  function Emptied(doc: Json, p: Path, n: nat): Json { Put(doc, Take(p, n), EMPTY) }

  /** One more object inside the emptied one. */
  lemma NestedEmpty(doc: Json, p: Path, n: nat, i: nat, v: Json)
    requires n <= i < Len(p) && Walkable(doc, p)
    ensures var x := Emptied(doc, p, n);
            Put(Put(x, Take(p, i), EMPTY), Take(p, i + 1), v) == Put(x, Take(p, i + 1), v)
  {
    var q, x := Take(p, n), Emptied(doc, p, n);
    TakeFacts(p, n);
    TakeBelow(p, i, i + 1);
    WalkablePrefix(doc, q, p);
    if i == n {
      PutTwice(doc, q, EMPTY, EMPTY);
    } else {
      TakeBelow(p, n, i);
      TakeBelow(p, n, i + 1);
      GetPutBelow(doc, q, Take(p, i));
      WalkableInEmptied(doc, q, Take(p, i + 1));
      PutThroughNew(x, Take(p, i), Take(p, i + 1), v);
    }
  }

  lemma BlindParent(sc: Scope, b: Builder, p: Path, n: nat)
    requires Tracks(sc, b, sc.doc, []) && UnderManaged(sc, p) && Len(p) > n == BLIND && Walkable(sc.doc, p)
    ensures ApplyAll(sc.doc, EnsuredTo(b, p, n).ops) == Some(Emptied(sc.doc, p, n))
  {
    var q := Take(p, n);
    TakeFacts(p, n);
    BeyondIsNotKnown(sc, b, q);
    WalkablePrefix(sc.doc, q, p);
    SetTracks(sc, b, sc.doc, [], SetTo(q, EMPTY));
    EnsuredAlong(b, p, n, n - 1);
    EnsuredHave(b, p, n - 1, q);
    assert EnsuredTo(b, p, n).ops == SetStep(b, q, EMPTY).ops;
  }

  /** All parents that were not recorded are made anew. */
  lemma {:induction false} BlindParents(sc: Scope, b: Builder, p: Path, n: nat, i: nat)
    requires Tracks(sc, b, sc.doc, []) && UnderManaged(sc, p) && Walkable(sc.doc, p) && BLIND == n <= i < Len(p)
    ensures ApplyAll(sc.doc, EnsuredTo(b, p, i).ops) == Some(Put(Emptied(sc.doc, p, n), Take(p, i), EMPTY))
  {
    if i == n {
      BlindParent(sc, b, p, n);
      PutTwice(sc.doc, Take(p, n), EMPTY, EMPTY);
    } else {
      BlindParents(sc, b, p, n, i - 1);
      NotEnsuredYet(sc, b, p, i);
      BlindNext(sc.doc, EnsuredTo(b, p, i - 1), p, n, i);
    }
  }

  lemma NotEnsuredYet(sc: Scope, b: Builder, p: Path, i: nat)
    requires Tracks(sc, b, sc.doc, []) && UnderManaged(sc, p) && BLIND <= i < Len(p)
    ensures Ptr(Take(p, i)) !in EnsuredTo(b, p, i - 1).have
  {
    TakeFacts(p, i);
    BeyondIsNotKnown(sc, b, Take(p, i));
    EnsuredHave(b, p, i - 1, Take(p, i));
  }

  lemma BlindNext(doc: Json, b: Builder, p: Path, n: nat, i: nat)
    requires n < i < Len(p) && Walkable(doc, p) && Ptr(Take(p, i)) !in b.have
    requires ApplyAll(doc, b.ops) == Some(Put(Emptied(doc, p, n), Take(p, i - 1), EMPTY))
    ensures ApplyAll(doc, EnsureAt(b, Take(p, i)).ops) == Some(Put(Emptied(doc, p, n), Take(p, i), EMPTY))
  {
    NestedEmpty(doc, p, n, i - 1, EMPTY);
    EmitNested(doc, b, Emptied(doc, p, n), p, i);
  }

  lemma EmitNested(doc: Json, b: Builder, x: Json, p: Path, i: nat)
    requires 0 < i < Len(p) && Ptr(Take(p, i)) !in b.have
    requires ApplyAll(doc, b.ops) == Some(Put(x, Take(p, i - 1), EMPTY))
    requires Put(Put(x, Take(p, i - 1), EMPTY), Take(p, i), EMPTY) == Put(x, Take(p, i), EMPTY)
    ensures ApplyAll(doc, EnsureAt(b, Take(p, i)).ops) == Some(Put(x, Take(p, i), EMPTY))
  {
    TakeFacts(p, i);
    OpenInEmptied(x, p, i - 1);
    EmitEmpty(doc, b, Put(x, Take(p, i - 1), EMPTY), Take(p, i));
  }

  lemma EmitEmpty(doc: Json, b: Builder, cur: Json, q: Path)
    requires ApplyAll(doc, b.ops) == Some(cur) && Ptr(q) !in b.have && q.At? && Open(cur, q)
    ensures ApplyAll(doc, EnsureAt(b, q).ops) == Some(Put(cur, q, EMPTY))
  {
    EditIsPut(true, cur, q, EMPTY);
    ApplyOneMore(doc, b.ops, Op(true, Ptr(q), EMPTY));
  }

  /** The document in which a value five or more keys down is written. */
  lemma BlindEnsured(sc: Scope, b: Builder, p: Path, n: nat, v: Json) returns (cur: Json)
    requires Tracks(sc, b, sc.doc, []) && UnderManaged(sc, p) && Walkable(sc.doc, p) && Len(p) >= n == BLIND
    ensures ApplyAll(sc.doc, Ensured(b, p).ops) == Some(cur) && Open(cur, p)
    ensures Put(cur, p, v) == Put(Emptied(sc.doc, p, n), p, v)
  {
    if Len(p) == n {
      cur := BlindHere(sc, b, p, n, v);
    } else {
      cur := BlindBelow(sc, b, p, n, v);
    }
  }

  lemma BlindHere(sc: Scope, b: Builder, p: Path, n: nat, v: Json) returns (cur: Json)
    requires Tracks(sc, b, sc.doc, []) && UnderManaged(sc, p) && Walkable(sc.doc, p) && Len(p) == n == BLIND
    ensures ApplyAll(sc.doc, Ensured(b, p).ops) == Some(cur) && Open(cur, p)
    ensures Put(cur, p, v) == Put(Emptied(sc.doc, p, n), p, v)
  {
    TakeFacts(p, n);
    TracksWeaker(sc, b, sc.doc, [], SetTo(p, v));
    cur := ParentsMade(sc, b, sc.doc, [], SetTo(p, v), v);
    PutTwice(sc.doc, p, EMPTY, v);
  }

  lemma BlindBelow(sc: Scope, b: Builder, p: Path, n: nat, v: Json) returns (cur: Json)
    requires Tracks(sc, b, sc.doc, []) && UnderManaged(sc, p) && Walkable(sc.doc, p) && Len(p) > n == BLIND
    ensures ApplyAll(sc.doc, Ensured(b, p).ops) == Some(cur) && Open(cur, p)
    ensures Put(cur, p, v) == Put(Emptied(sc.doc, p, n), p, v)
  {
    BlindParents(sc, b, p, n, Len(p) - 1);
    cur := Put(Emptied(sc.doc, p, n), Take(p, Len(p) - 1), EMPTY);
    InsideEmptied(sc.doc, p, n, v);
  }

  lemma InsideEmptied(doc: Json, p: Path, n: nat, v: Json)
    requires n < Len(p) && Walkable(doc, p)
    ensures var cur := Put(Emptied(doc, p, n), Take(p, Len(p) - 1), EMPTY);
            Open(cur, p) && Put(cur, p, v) == Put(Emptied(doc, p, n), p, v)
  {
    TakeFacts(p, Len(p));
    OpenInEmptied(Emptied(doc, p, n), p, Len(p) - 1);
    NestedEmpty(doc, p, n, Len(p) - 1, v);
  }

  /**
   A set five or more keys down. What stands at the fifth key was not recorded and is made anew, so
   the result is the wanted one exactly when nothing is lost there: below the fifth key the file has
   nothing beside the path.
   */
  lemma DeepSetIff(sc: Scope, b: Builder, p: Path, v: Json)
    requires Tracks(sc, b, sc.doc, []) && UnderManaged(sc, p) && Len(p) >= BLIND && Walkable(sc.doc, p)
    ensures ApplyAll(sc.doc, SetStep(b, p, v).ops) == Some(Put(Emptied(sc.doc, p, BLIND), p, v))
    ensures ApplyAll(sc.doc, SetStep(b, p, v).ops) == Some(Want(sc.doc, SetTo(p, v))) <==>
            OnlyAlong(Get(sc.doc, Take(p, BLIND)), Drop(p, BLIND))
  {
    BeyondIsNotKnown(sc, b, p);
    var parents := Ensured(b, p);
    var cur := BlindEnsured(sc, b, p, BLIND, v);
    EditIsPut(true, cur, p, v);
    ApplyOneMore(sc.doc, parents.ops, Op(true, Ptr(p), v));
    PutIntoEmptied(sc.doc, p, BLIND, v);
  }

  lemma DeepAppendMakes(sc: Scope, b: Builder, p: Path, v: Json)
    requires Tracks(sc, b, sc.doc, []) && UnderManaged(sc, p) && Len(p) >= BLIND && Walkable(sc.doc, p)
    ensures ApplyAll(sc.doc, AppendStep(b, p, v).ops) == Some(Put(Emptied(sc.doc, p, BLIND), p, List([v])))
  {
    BeyondIsNotKnown(sc, b, p);
    var parents := Ensured(b, p);
    var cur := BlindEnsured(sc, b, p, BLIND, List([]));
    EditIsPut(true, cur, p, List([]));
    var create := Op(true, Ptr(p), List([]));
    ApplyOneMore(sc.doc, parents.ops, create);
    var made := Put(Emptied(sc.doc, p, BLIND), p, List([]));
    GetPut(Emptied(sc.doc, p, BLIND), p, List([]));
    AppendIsPut(made, p, [], v);
    NothingBefore([v]);
    PutTwice(Emptied(sc.doc, p, BLIND), p, List([]), List([v]));
    CreateStep(b, p, v);
    var ops := parents.ops + [create];
    ApplyOneMore(sc.doc, ops, Op(true, Ptr(p) + "/-", v));
  }

  /**
   An append five or more keys down. The list was not recorded and is made anew, so the result is the
   wanted one exactly when the list was absent, empty or held just that entry, and below the fifth
   key the file has nothing beside the path.
   */
  lemma DeepAppendIff(sc: Scope, b: Builder, p: Path, v: Json)
    requires Tracks(sc, b, sc.doc, []) && UnderManaged(sc, p) && Len(p) >= BLIND && Fits(sc.doc, AddTo(p, v))
    ensures ApplyAll(sc.doc, AppendStep(b, p, v).ops) == Some(Put(Emptied(sc.doc, p, BLIND), p, List([v])))
    ensures ApplyAll(sc.doc, AppendStep(b, p, v).ops) == Some(Want(sc.doc, AddTo(p, v))) <==>
            && (ItemsAt(sc.doc, p) == [] || ItemsAt(sc.doc, p) == [v])
            && OnlyAlong(Get(sc.doc, Take(p, BLIND)), Drop(p, BLIND))
  {
    DeepAppendMakes(sc, b, p, v);
    var items, wanted := ItemsAt(sc.doc, p), Want(sc.doc, AddTo(p, v));
    if items == [] || items == [v] {
      NothingBefore([v]);
      if items == [v] { PutSame(sc.doc, p, List([v])); }
      PutIntoEmptied(sc.doc, p, BLIND, List([v]));
    } else {
      GetPut(sc.doc, p, List(items + [v]));
      GetPut(Emptied(sc.doc, p, BLIND), p, List([v]));
      assert |items + [v]| > |[v]|;
    }
  }

  // ----- Setting one path twice

  lemma {:induction false} EnsuredKeepsExisting(b: Builder, p: Path, i: nat)
    ensures EnsuredTo(b, p, i).existing == b.existing
  {
    if i > 0 { EnsuredKeepsExisting(b, p, i - 1); }
  }

  lemma SetKeepsExisting(b: Builder, p: Path, v: Json)
    ensures SetStep(b, p, v).existing == b.existing
  {
    if p.At? { EnsuredKeepsExisting(b, p, Len(p) - 1); }
  }

  /** After one set the builder still knows the file's value, and that the path exists. */
  lemma AfterOneSet(sc: Scope, b: Builder, p: Path, v: Json)
    requires Tracks(sc, b, sc.doc, []) && InSight(sc, p) && Walkable(sc.doc, p)
    ensures var once := SetStep(b, p, v);
            && ApplyAll(sc.doc, once.ops) == Some(Put(sc.doc, p, v))
            && Lookup(once.existing, Ptr(p)) == Get(sc.doc, p) && Ptr(p) in once.have
  {
    var r := SetTo(p, v);
    StepTracks(sc, b, sc.doc, [], r);
    SetKeepsExisting(b, p, v);
    assert Lookup(b.existing, Ptr(p)) == Get(sc.doc, p);
    ParentsInSight([], r, p);
    GetPut(sc.doc, p, v);
  }

  lemma SecondSetMade(doc: Json, once: Builder, p: Path, v: Json, w: Json)
    requires p.At? && ApplyAll(doc, once.ops) == Some(Put(doc, p, v)) && Ptr(p) in once.have
    requires Lookup(once.existing, Ptr(p)) != Some(w)
    ensures ApplyAll(doc, SetStep(once, p, w).ops) == Some(Put(doc, p, w))
  {
    var cur := Put(doc, p, v);
    GetPut(doc, p, v);
    PutTwice(doc, p, v, w);
    FoundOpen(cur, p);
    EditIsPut(false, cur, p, w);
    ApplyOneMore(doc, once.ops, Op(false, Ptr(p), w));
  }

  /**
   Setting one path twice. The builder compares with the value the file had, so it leaves out the
   second set exactly when that would bring the file's own value back after a different first one.
   */
  lemma SetTwiceIff(sc: Scope, b: Builder, p: Path, v: Json, w: Json)
    requires Tracks(sc, b, sc.doc, []) && InSight(sc, p) && Walkable(sc.doc, p)
    ensures var twice := [SetTo(p, v), SetTo(p, w)];
            ApplyAll(sc.doc, Steps(b, twice).ops) == Some(WantAll(sc.doc, twice)) <==>
              v == w || Get(sc.doc, p) != Some(w)
  {
    var twice, once := [SetTo(p, v), SetTo(p, w)], SetStep(b, p, v);
    TwoSteps(sc.doc, b, p, v, w);
    AfterOneSet(sc, b, p, v);
    GetPut(sc.doc, p, v);
    GetPut(sc.doc, p, w);
    if Get(sc.doc, p) == Some(w) {
      assert SetStep(once, p, w) == once;
    } else {
      SecondSetMade(sc.doc, once, p, v, w);
    }
  }

  lemma TwoSteps(doc: Json, b: Builder, p: Path, v: Json, w: Json)
    ensures var twice := [SetTo(p, v), SetTo(p, w)];
            Steps(b, twice) == SetStep(SetStep(b, p, v), p, w) && WantAll(doc, twice) == Put(doc, p, w)
  {
    var twice := [SetTo(p, v), SetTo(p, w)];
    assert twice[..1] == [SetTo(p, v)] && twice[..1][..0] == [];
    assert Steps(b, twice[..1]) == Step(Steps(b, []), SetTo(p, v));
    assert WantAll(doc, twice[..1]) == Want(WantAll(doc, []), SetTo(p, v));
    PutTwice(doc, p, v, w);
  }
}
