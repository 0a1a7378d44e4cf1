/**
 Changing a live container's networks one by one. The engine cannot change an endpoint, so new
 aliases mean detaching and attaching again; a failed attach puts the old endpoint back if it can.
 */
module NetworkEdit {
  import opened Prelude
  import Keys

  datatype Endpoint = Endpoint(aliases: seq<string>, ipam: string, driverOpts: string, links: seq<string>)

  type Endpoints = map<string, Endpoint>

  datatype EditNetwork = EditNetwork(name: string, aliases: seq<string>)

  // ----- What the editor sees of an endpoint

  /** The names a container answers to by itself. */
  datatype Self = Self(shortId: string, name: string)

  predicate IsOwn(me: Self, alias: string) { alias == me.shortId || alias == me.name }

  /** The aliases the user gave: an engine may list the container's own names beside them. */
  function UserAliases(aliases: seq<string>, me: Self): seq<string>
  {
    if aliases == [] then []
    else
      var n := |aliases| - 1;
      if IsOwn(me, aliases[n]) then UserAliases(aliases[..n], me) else UserAliases(aliases[..n], me) + [aliases[n]]
  }

  lemma AliasesMore(aliases: seq<string>, alias: string, me: Self)
    ensures UserAliases(aliases + [alias], me) == UserAliases(aliases, me) + if IsOwn(me, alias) then [] else [alias]
  {
    assert (aliases + [alias])[..|aliases|] == aliases;
  }

  /** Reading goes alias by alias: a name of the container's own is dropped, any other stays. */
  lemma {:induction false} AliasesMean(a: seq<string>, b: seq<string>, alias: string, me: Self)
    ensures UserAliases([], me) == []
    ensures UserAliases([alias], me) == if alias == me.shortId || alias == me.name then [] else [alias]
    ensures UserAliases(a + b, me) == UserAliases(a, me) + UserAliases(b, me)
  {
    assert [alias][..0] == [];
    if b == [] {
      NothingAfter(a);
      NothingAfter(UserAliases(a, me));
    } else {
      var n := |b| - 1;
      AliasesMean(a, b[..n], alias, me);
      AliasesMore(a + b[..n], b[n], me);
      AliasesMore(b[..n], b[n], me);
      Regroup(a, b[..n], [b[n]]);
      assert b == b[..n] + [b[n]];
      Regroup(UserAliases(a, me), UserAliases(b[..n], me), if IsOwn(me, b[n]) then [] else [b[n]]);
    }
  }

  method ReadAliases(aliases: seq<string>, me: Self) returns (out: seq<string>)
    ensures out == UserAliases(aliases, me)
  {
    out := [];
    for i := 0 to |aliases|
      invariant out == UserAliases(aliases[..i], me)
    {
      assert aliases[..i + 1][..i] == aliases[..i];
      if aliases[i] == me.shortId || aliases[i] == me.name { continue; }
      out := out + [aliases[i]];
    }
    assert aliases[..|aliases|] == aliases;
  }

  lemma {:induction false} OwnAreHidden(aliases: seq<string>, listed: seq<string>, me: Self)
    requires forall i :: 0 <= i < |listed| ==> IsOwn(me, listed[i])
    ensures UserAliases(aliases + listed, me) == UserAliases(aliases, me)
  {
    if listed == [] {
      assert aliases + listed == aliases;
    } else {
      var n := |listed| - 1;
      OwnAreHidden(aliases, listed[..n], me);
      assert (aliases + listed)[..|aliases| + n] == aliases + listed[..n];
    }
  }

  lemma {:induction false} SeenOnceIsSeen(aliases: seq<string>, me: Self)
    ensures UserAliases(UserAliases(aliases, me), me) == UserAliases(aliases, me)
  {
    if aliases != [] {
      var n := |aliases| - 1;
      SeenOnceIsSeen(aliases[..n], me);
      var front := UserAliases(aliases[..n], me);
      assert (front + [aliases[n]])[..|front|] == front;
    }
  }

  function Seen(ep: Endpoint, me: Self): Endpoint { ep.(aliases := UserAliases(ep.aliases, me)) }

  /**
   One container's attachments in an engine whose calls may fail, without effect then. Beside the
   aliases it was given, it may list the container's own names.
   */
  class Engine {
    var nets: Endpoints
    var calls: nat
    const me: Self
    const listed: seq<string>
    const faults: nat -> bool

    constructor (nets: Endpoints, me: Self, listed: seq<string>, faults: nat -> bool)
      ensures this.nets == nets && this.me == me && this.listed == listed && this.faults == faults && calls == 0
    {
      this.nets, this.me, this.listed, this.faults, calls := nets, me, listed, faults, 0;
    }

    ghost predicate Valid() { forall i :: 0 <= i < |listed| ==> IsOwn(me, listed[i]) }

    /** No call fails for reasons of its own. */
    ghost predicate Healthy() { forall n :: !faults(n) }

    /** The attachments as the editor sees them. */
    ghost function View(): Endpoints
      reads this
    {
      map n | n in nets :: Seen(nets[n], me)
    }

    method Disconnect(n: string) returns (ok: bool)
      modifies this
      ensures ok <==> n in old(nets) && !faults(old(calls))
      ensures calls == old(calls) + 1
      ensures View() == if ok then old(View()) - {n} else old(View())
    {
      ok := n in nets && !faults(calls);
      calls := calls + 1;
      if ok { nets := nets - {n}; }
    }

    method Connect(n: string, ep: Endpoint) returns (ok: bool)
      requires Valid()
      modifies this
      ensures ok <==> n !in old(nets) && !faults(old(calls))
      ensures calls == old(calls) + 1
      ensures View() == if ok then old(View())[n := Seen(ep, me)] else old(View())
    {
      ok := n !in nets && !faults(calls);
      calls := calls + 1;
      OwnAreHidden(ep.aliases, listed, me);
      if ok { nets := nets[n := ep.(aliases := ep.aliases + listed)]; }
    }
  }

  /** The editable view of the attachments. */
  method SpecNetworks(e: Engine) returns (nets: seq<EditNetwork>)
    ensures ReadAs(e.View(), AliasesByName(nets))
  {
    nets := [];
    var names := Keys.Sorted(e.nets.Keys);
    for i := 0 to |names|
      invariant forall n :: n in AliasesByName(nets) <==> n in names[..i]
      invariant forall n :: n in AliasesByName(nets) ==>
                  n in e.nets && AliasesByName(nets)[n] == UserAliases(e.nets[n].aliases, e.me)
    {
      assert names[i] in e.nets;
      var aliases := ReadAliases(e.nets[names[i]].aliases, e.me);
      ghost var before := nets;
      nets := nets + [EditNetwork(names[i], aliases)];
      assert nets[..|before|] == before;
      assert names[..i + 1] == names[..i] + [names[i]];
    }
    assert names[..|names|] == names;
  }

  /** `netIndex`: the last entry of a name wins. */
  function AliasesByName(nets: seq<EditNetwork>): map<string, seq<string>>
  {
    if nets == [] then map[]
    else AliasesByName(nets[..|nets| - 1])[nets[|nets| - 1].name := nets[|nets| - 1].aliases]
  }

  ghost predicate LastNamed(nets: seq<EditNetwork>, n: string, i: nat)
  {
    i < |nets| && nets[i].name == n && forall j :: i < j < |nets| ==> nets[j].name != n
  }

  lemma {:induction false} IndexedIsListed(nets: seq<EditNetwork>, n: string)
    ensures n in AliasesByName(nets) <==> exists i :: 0 <= i < |nets| && nets[i].name == n
  {
    if nets != [] {
      var front, last := nets[..|nets| - 1], nets[|nets| - 1];
      IndexedIsListed(front, n);
      assert forall i :: 0 <= i < |front| ==> front[i] == nets[i];
    }
  }

  /** The index has the names listed, each with the aliases of its last entry. */
  lemma {:induction false} IndexMeans(nets: seq<EditNetwork>, n: string, i: nat)
    requires LastNamed(nets, n, i)
    ensures n in AliasesByName(nets) && AliasesByName(nets)[n] == nets[i].aliases
  {
    var k := |nets| - 1;
    if i < k {
      assert nets[k].name != n;
      assert LastNamed(nets[..k], n, i);
      IndexMeans(nets[..k], n, i);
    }
  }

  method NetIndex(nets: seq<EditNetwork>) returns (m: map<string, seq<string>>)
    ensures m == AliasesByName(nets)
  {
    m := map[];
    for i := 0 to |nets|
      invariant m == AliasesByName(nets[..i])
    {
      assert nets[..i + 1][..i] == nets[..i];
      m := m[nets[i].name := nets[i].aliases];
    }
    assert nets[..|nets|] == nets;
  }

  function At(nets: Endpoints, n: string): Option<Endpoint> { if n in nets then Some(nets[n]) else None }

  /** What the user asked of network `n`: only the aliases change. None is "not attached". */
  function Asked(orig: Endpoints, want: map<string, seq<string>>, me: Self, n: string): Option<Endpoint>
  {
    if n !in want then None
    else if n !in orig then Some(Endpoint(UserAliases(want[n], me), "", "", []))
    else if orig[n].aliases == want[n] then Some(orig[n])
    else Some(orig[n].(aliases := UserAliases(want[n], me)))
  }

  /** An endpoint whose links a re-attach would drop. */
  predicate Relinks(orig: Endpoints, want: map<string, seq<string>>, n: string)
  {
    n in orig && n in want && orig[n].aliases != want[n] && orig[n].links != []
  }

  /** What the edit leaves: a re-attached endpoint has no links. */
  function Left(orig: Endpoints, want: map<string, seq<string>>, me: Self, n: string): Option<Endpoint>
  {
    var asked := Asked(orig, want, me, n);
    if Relinks(orig, want, n) then Some(asked.value.(links := [])) else asked
  }

  lemma LeftIsAskedIff(orig: Endpoints, want: map<string, seq<string>>, me: Self, n: string)
    ensures Left(orig, want, me, n) == Asked(orig, want, me, n) <==> !Relinks(orig, want, n)
  {
    if Relinks(orig, want, n) { assert Asked(orig, want, me, n).value.links == orig[n].links; }
  }

  /** What may stand at a network whose change failed, by what was reported about restoring it. */
  ghost predicate FailedAt(orig: Endpoints, n: string, now: Option<Endpoint>, restored: Option<bool>)
  {
    match restored
    case None => now == At(orig, n)
    case Some(true) => n in orig && now == Some(orig[n].(links := []))
    case Some(false) => n in orig && now == None
  }

  datatype Changed = Changed(did: bool) | Broken(restored: Option<bool>)

  /** Detaches, attaches or re-attaches one network; `cur` are the aliases the editor saw there. */
  method Network(e: Engine, n: string, cur: Option<seq<string>>, want: Option<seq<string>>, was: Option<Endpoint>)
    returns (r: Changed)
    requires e.Valid() && At(e.View(), n) == was
    requires (cur.Some? <==> was.Some?) && (cur.Some? ==> was.value.aliases == cur.value)
    requires was.Some? ==> UserAliases(was.value.aliases, e.me) == was.value.aliases
    modifies e
    ensures forall m :: m != n ==> At(e.View(), m) == old(At(e.View(), m))
    ensures r.Changed? ==>
            At(e.View(), n) == Left(old(e.View()), if want.Some? then map[n := want.value] else map[], e.me, n)
    ensures r.Changed? ==> (r.did <==> !(cur.Some? && want == cur))
    ensures r.Broken? ==> FailedAt(old(e.View()), n, At(e.View(), n), r.restored)
    ensures e.Healthy() ==> r.Changed?
    ensures r.Broken? && r.restored.Some? <==> Reattaches(e, old(e.calls), cur, want)
    ensures Reattaches(e, old(e.calls), cur, want) ==> r.restored == Some(!e.faults(old(e.calls) + 2))
  {
    if cur.Some? && want.Some? && cur.value == want.value {
      SameAliasesLeft(e.View(), n, cur.value, e.me);
      return Changed(false);
    }
    if cur.Some? {
      var ok := e.Disconnect(n);
      if !ok { return Broken(None); }
    }
    if want.None? { return Changed(true); }
    var ep := Endpoint(want.value, "", "", []);
    if was.Some? && cur.Some? { ep := ep.(ipam := was.value.ipam, driverOpts := was.value.driverOpts); }
    var ok := e.Connect(n, ep);
    if !ok && cur.Some? {
      var back := e.Connect(n, Endpoint(cur.value, was.value.ipam, was.value.driverOpts, []));
      return Broken(Some(back));
    }
    if !ok { return Broken(None); }
    return Changed(true);
  }

  /** The second of the calls fails, after a detach: the old endpoint has to be put back. */
  ghost predicate Reattaches(e: Engine, calls: nat, cur: Option<seq<string>>, want: Option<seq<string>>)
  {
    cur.Some? && want.Some? && cur != want && !e.faults(calls) && e.faults(calls + 1)
  }

  lemma SameAliasesLeft(view: Endpoints, n: string, aliases: seq<string>, me: Self)
    requires n in view && view[n].aliases == aliases
    ensures Left(view, map[n := aliases], me, n) == Some(view[n])
  {
  }

  // ----- All networks

  datatype Edited = Done(applied: seq<string>) | Failed(at: string, restored: Option<bool>, applied: seq<string>)

  /** The container is attached as the editor read it. */
  ghost predicate ReadAs(view: Endpoints, cur: map<string, seq<string>>)
  {
    view.Keys == cur.Keys && forall n :: n in view ==> view[n].aliases == cur[n]
  }

  ghost predicate Before(names: seq<string>, k: nat, n: string)
  {
    exists i :: 0 <= i < k && i < |names| && names[i] == n
  }

  /** The first `k` of `names` as the edit leaves them, every other network as it was. */
  ghost predicate Upto(view: Endpoints, orig: Endpoints, want: map<string, seq<string>>, me: Self, names: seq<string>,
                       k: nat)
  {
    forall n :: At(view, n) == if Before(names, k, n) then Left(orig, want, me, n) else At(orig, n)
  }

  lemma UptoNext(view: Endpoints, next: Endpoints, orig: Endpoints, want: map<string, seq<string>>, me: Self,
                 names: seq<string>, k: nat)
    requires k < |names| && Upto(view, orig, want, me, names, k)
    requires forall m :: m != names[k] ==> At(next, m) == At(view, m)
    requires At(next, names[k]) == Left(orig, want, me, names[k])
    ensures Upto(next, orig, want, me, names, k + 1)
  {
    forall n ensures At(next, n) == if Before(names, k + 1, n) then Left(orig, want, me, n) else At(orig, n) {
      BeforeNext(names, k, n);
    }
  }

  /** What one network is left as depends on that network alone. */
  lemma LeftIsLocal(orig: Endpoints, view: Endpoints, want: map<string, seq<string>>, me: Self, n: string)
    requires At(view, n) == At(orig, n)
    ensures Left(view, if n in want then map[n := want[n]] else map[], me, n) == Left(orig, want, me, n)
  {
  }

  /** The names an edit has to touch: attached or wanted, and not both alike. */
  predicate Differs(cur: map<string, seq<string>>, want: map<string, seq<string>>, n: string)
  {
    (n in cur || n in want) && !(n in cur && n in want && cur[n] == want[n])
  }

  lemma DistinctBefore(names: seq<string>, k: nat)
    requires k < |names| && forall i, j :: 0 <= i < j < |names| ==> names[i] != names[j]
    ensures !Before(names, k, names[k])
  {
  }

  /** The state in which an edit fails at the `k`-th of `names`. */
  ghost predicate FailedAfter(view: Endpoints, orig: Endpoints, want: map<string, seq<string>>, me: Self,
                              names: seq<string>, k: nat, restored: Option<bool>)
    requires k < |names|
  {
    && FailedAt(orig, names[k], At(view, names[k]), restored)
    && forall n :: n != names[k] ==> At(view, n) == if Before(names, k, n) then Left(orig, want, me, n) else At(orig, n)
  }

  /**
   All networks, read or wanted, in name order; without a failing call it succeeds. A success leaves
   what was asked but for the links of re-attached endpoints; a failure leaves earlier names done,
   later ones as they were, and the failing one as `FailedAt` says. Either reports the names changed.
   */
  method Networks(e: Engine, current: seq<EditNetwork>, wanted: seq<EditNetwork>)
    returns (r: Edited, ghost names: seq<string>)
    requires e.Valid() && ReadAs(e.View(), AliasesByName(current))
    modifies e
    ensures e.Healthy() ==> r.Done?
    ensures Keys.Lists(names, AliasesByName(current).Keys + AliasesByName(wanted).Keys)
    ensures r.Done? ==> forall n :: At(e.View(), n) == Left(old(e.View()), AliasesByName(wanted), e.me, n)
    ensures r.Done? ==> forall n :: n in r.applied <==> Differs(AliasesByName(current), AliasesByName(wanted), n)
    ensures r.Failed? ==> exists k ::
              0 <= k < |names| && names[k] == r.at
              && FailedAfter(e.View(), old(e.View()), AliasesByName(wanted), e.me, names, k, r.restored)
              && AppliedUpto(r.applied, AliasesByName(current), AliasesByName(wanted), names, k)
  {
    var cur := NetIndex(current);
    var want := NetIndex(wanted);
    var inspected, me := e.nets, e.me;
    ghost var orig := e.View();
    var list := Keys.Sorted(cur.Keys + want.Keys);
    names := list;
    var applied := [];
    for k := 0 to |list|
      invariant Upto(e.View(), orig, want, me, list, k)
      invariant AppliedUpto(applied, cur, want, list, k)
    {
      var n := list[k];
      ghost var before := e.View();
      DistinctBefore(list, k);
      var was := if n in inspected then Some(Seen(inspected[n], me)) else None;
      if n in inspected { SeenOnceIsSeen(inspected[n].aliases, me); }
      assert At(before, n) == At(orig, n) == was;
      var step := Network(e, n, Get(cur, n), Get(want, n), was);
      if step.Broken? {
        FailedNext(before, e.View(), orig, want, me, list, k, step.restored);
        return Failed(n, step.restored, applied), list;
      }
      LeftIsLocal(orig, before, want, me, n);
      UptoNext(before, e.View(), orig, want, me, list, k);
      AppliedNext(applied, cur, want, list, k);
      if step.did { applied := applied + [n]; }
    }
    UptoAll(e.View(), orig, cur, want, me, list);
    AppliedAll(applied, cur, want, list);
    return Done(applied), list;
  }

  function Get(m: map<string, seq<string>>, n: string): Option<seq<string>> { if n in m then Some(m[n]) else None }

  ghost predicate AppliedUpto(applied: seq<string>, cur: map<string, seq<string>>, want: map<string, seq<string>>,
                              names: seq<string>, k: nat)
  {
    forall n {:trigger n in applied} :: n in applied <==> Before(names, k, n) && Differs(cur, want, n)
  }

  lemma BeforeNext(names: seq<string>, k: nat, n: string)
    requires k < |names|
    ensures Before(names, k + 1, n) <==> Before(names, k, n) || n == names[k]
  {
    if n == names[k] { assert Before(names, k + 1, n); }
  }

  lemma AppliedNext(applied: seq<string>, cur: map<string, seq<string>>, want: map<string, seq<string>>,
                    names: seq<string>, k: nat)
    requires k < |names| && AppliedUpto(applied, cur, want, names, k)
    ensures AppliedUpto(if Differs(cur, want, names[k]) then applied + [names[k]] else applied, cur, want, names, k + 1)
  {
    var more := if Differs(cur, want, names[k]) then applied + [names[k]] else applied;
    forall n ensures n in more <==> Before(names, k + 1, n) && Differs(cur, want, n) {
      BeforeNext(names, k, n);
      assert n in applied <==> Before(names, k, n) && Differs(cur, want, n);
    }
  }

  lemma AppliedAll(applied: seq<string>, cur: map<string, seq<string>>, want: map<string, seq<string>>,
                   names: seq<string>)
    requires AppliedUpto(applied, cur, want, names, |names|)
    requires forall n :: n in names <==> n in cur.Keys + want.Keys
    ensures forall n :: n in applied <==> Differs(cur, want, n)
  {
    forall n ensures n in applied <==> Differs(cur, want, n) {
      assert n in applied <==> Before(names, |names|, n) && Differs(cur, want, n);
      assert n in names <==> Before(names, |names|, n);
    }
  }

  lemma UptoAll(view: Endpoints, orig: Endpoints, cur: map<string, seq<string>>, want: map<string, seq<string>>,
                me: Self, names: seq<string>)
    requires Upto(view, orig, want, me, names, |names|) && ReadAs(orig, cur)
    requires forall n :: n in names <==> n in cur.Keys + want.Keys
    ensures forall n :: At(view, n) == Left(orig, want, me, n)
  {
    forall n ensures At(view, n) == Left(orig, want, me, n) {
      assert n in names <==> Before(names, |names|, n);
      assert n !in names ==> n !in orig && n !in want;
    }
  }

  lemma FailedNext(view: Endpoints, next: Endpoints, orig: Endpoints, want: map<string, seq<string>>, me: Self,
                   names: seq<string>, k: nat, restored: Option<bool>)
    requires k < |names| && Upto(view, orig, want, me, names, k) && At(view, names[k]) == At(orig, names[k])
    requires forall m :: m != names[k] ==> At(next, m) == At(view, m)
    requires FailedAt(view, names[k], At(next, names[k]), restored)
    ensures FailedAfter(next, orig, want, me, names, k, restored)
  {
  }

  /** A success leaves exactly what was asked if and only if no endpoint with links changes its aliases. */
  lemma DoneIsAskedIff(orig: Endpoints, want: map<string, seq<string>>, me: Self, view: Endpoints)
    requires forall n :: At(view, n) == Left(orig, want, me, n)
    ensures (forall n :: At(view, n) == Asked(orig, want, me, n)) <==> (forall n :: !Relinks(orig, want, n))
  {
    forall n ensures At(view, n) == Asked(orig, want, me, n) <==> !Relinks(orig, want, n) {
      assert At(view, n) == Left(orig, want, me, n);
      LeftIsAskedIff(orig, want, me, n);
    }
  }

  /** What stands at a wanted network after a success, `was` having stood there. */
  ghost predicate StandsAs(was: Option<Endpoint>, aliases: seq<string>, me: Self, now: Endpoint)
  {
    match was
    case None =>
      now.aliases == UserAliases(aliases, me) && now.ipam == "" && now.driverOpts == "" && now.links == []
    case Some(ep) =>
      && now.ipam == ep.ipam && now.driverOpts == ep.driverOpts
      && (if ep.aliases == aliases then now.aliases == aliases && now.links == ep.links
          else now.aliases == UserAliases(aliases, me) && now.links == [])
  }

  /**
   In every case the networks are the wanted ones, under the wanted aliases and with their old
   addresses; one whose aliases do not change keeps its links too.
   */
  lemma LeftIsWanted(orig: Endpoints, want: map<string, seq<string>>, me: Self, view: Endpoints)
    requires forall n :: At(view, n) == Left(orig, want, me, n)
    ensures view.Keys == want.Keys
    ensures forall n :: n in want ==> StandsAs(At(orig, n), want[n], me, view[n])
    ensures (forall n :: n in orig ==> UserAliases(orig[n].aliases, me) == orig[n].aliases) ==>
            forall n :: n in want ==> view[n].aliases == UserAliases(want[n], me)
  {
    forall n ensures n in view <==> n in want { assert At(view, n) == Left(orig, want, me, n); }
    forall n | n in want ensures StandsAs(At(orig, n), want[n], me, view[n]) {
      assert At(view, n) == Left(orig, want, me, n);
    }
  }

  /**
   A network reported restored is as it was exactly when its endpoint had no links: the put-back
   endpoint carries aliases, addresses and driver options, but not links.
   */
  method RestoresIffNoLinks(e: Engine, n: string, aliases: seq<string>)
    requires e.Valid() && n in e.View() && aliases != e.View()[n].aliases
    requires !e.faults(e.calls) && e.faults(e.calls + 1) && !e.faults(e.calls + 2)
    modifies e
    ensures At(e.View(), n) == old(At(e.View(), n)) <==> old(e.View()[n]).links == []
  {
    var was := Seen(e.nets[n], e.me);
    SeenOnceIsSeen(e.nets[n].aliases, e.me);
    var r := Network(e, n, Some(was.aliases), Some(aliases), Some(was));
    assert r == Broken(Some(true));
  }

  lemma OneEndpoint(n: string, ep: Endpoint, me: Self, view: Endpoints)
    requires view == map m | m in map[n := ep] :: Seen(map[n := ep][m], me)
    requires UserAliases(ep.aliases, me) == ep.aliases
    ensures At(view, n) == Some(ep)
  {
  }

  /** A run that loses links: the attach fails, the network is reported restored, its links are gone. */
  method RestoredLosesLinks(n: string, ep: Endpoint, aliases: seq<string>, me: Self) returns (e: Engine, r: Changed)
    requires UserAliases(ep.aliases, me) == ep.aliases != aliases && ep.links != []
    ensures r == Broken(Some(true)) && At(e.View(), n) == Some(ep.(links := [])) != Some(ep)
  {
    e := new Engine(map[n := ep], me, [], k => k == 1);
    OneEndpoint(n, ep, me, e.View());
    r := Network(e, n, Some(ep.aliases), Some(aliases), Some(ep));
  }

  /** A run in which nothing fails loses them too. */
  method ChangedLosesLinks(n: string, ep: Endpoint, aliases: seq<string>, me: Self) returns (e: Engine, r: Changed)
    requires UserAliases(ep.aliases, me) == ep.aliases != aliases && ep.links != []
    ensures r == Changed(true)
    ensures At(e.View(), n) == Some(ep.(aliases := UserAliases(aliases, me), links := []))
  {
    e := new Engine(map[n := ep], me, [], k => false);
    OneEndpoint(n, ep, me, e.View());
    r := Network(e, n, Some(ep.aliases), Some(aliases), Some(ep));
  }

  /** One such endpoint, without aliases and with one link. */
  method LinksAreLost() returns (e: Engine, r: Changed)
    ensures r == Broken(Some(true)) && At(e.View(), "n") == Some(Endpoint([], "", "", []))
  {
    e, r := RestoredLosesLinks("n", Endpoint([], "", "", ["db:db"]), ["web"], Self("a1", "app"));
  }
}
