/**
 Recreating a container under a new config: the new one is created beside the old one, the two swap
 names, and any failure on the way is rolled back. Every engine call may fail, in any pattern.
 */
module Recreate {

  datatype Container = Container(name: string, running: bool, autoRemove: bool, networks: set<string>)

  type Containers = map<string, Container>

  datatype Err = Ok | NotFound | Failed

  function Stopped(cs: Containers, id: string): Containers
    requires id in cs
  {
    if cs[id].autoRemove then cs - {id} else cs[id := cs[id].(running := false)]
  }

  function Joined(c: Container, networks: seq<string>): Container
  {
    c.(networks := c.networks + set i | 0 <= i < |networks| :: networks[i])
  }

  lemma JoinedMore(c: Container, networks: seq<string>, k: nat)
    requires k < |networks|
    ensures var now := Joined(c, networks[..k]);
            now.(networks := now.networks + {networks[k]}) == Joined(c, networks[..k + 1])
  {
    assert networks[..k + 1] == networks[..k] + [networks[k]];
  }

  predicate SameName(cs: Containers, a: string, b: string) { a in cs && b in cs && cs[a].name == cs[b].name }

  ghost predicate UniqueNames(cs: Containers)
  {
    forall a, b {:trigger SameName(cs, a, b)} :: SameName(cs, a, b) ==> a == b
  }

  predicate NamedElsewhere(cs: Containers, id: string, name: string)
  {
    exists x :: x in cs && x != id && cs[x].name == name
  }

  lemma UniqueWith(cs: Containers, id: string, c: Container)
    requires UniqueNames(cs) && !NamedElsewhere(cs, id, c.name)
    ensures UniqueNames(cs[id := c])
  {
    var next := cs[id := c];
    forall a, b | SameName(next, a, b) ensures a == b {
      if a != id && b != id { assert SameName(cs, a, b); }
    }
  }

  lemma StillUnique(cs: Containers, id: string, c: Container)
    requires UniqueNames(cs) && id in cs && c.name == cs[id].name
    ensures UniqueNames(cs[id := c])
  {
    forall x | x in cs && x != id ensures cs[x].name != c.name { assert !SameName(cs, x, id); }
    UniqueWith(cs, id, c);
  }

  lemma UniqueWithout(cs: Containers, id: string)
    requires UniqueNames(cs)
    ensures UniqueNames(cs - {id})
  {
    forall a, b | SameName(cs - {id}, a, b) ensures a == b { assert SameName(cs, a, b); }
  }

  datatype Call =
    | Create(id: string, name: string)
    | Connect(id: string, network: string)
    | Stop(id: string)
    | Start(id: string)
    | Rename(id: string, name: string)
    | Remove(id: string, force: bool)

  /** A call as it was made, what came of it and the containers after it. */
  datatype Mark = Mark(call: Call, err: Err, after: Containers)

  predicate CallAt(log: seq<Mark>, p: nat, call: Call) { p < |log| && log[p].call == call }

  predicate OkAt(log: seq<Mark>, p: nat, call: Call) { p < |log| && log[p].call == call && log[p].err == Ok }

  /** From `from` on `calls` were made, in this order, whatever came of them. */
  ghost predicate Tried(log: seq<Mark>, from: nat, calls: seq<Call>)
  {
    forall i {:trigger calls[i]} :: 0 <= i < |calls| ==> CallAt(log, from + i, calls[i])
  }

  /** From `from` on the first `k` of `calls` were made, and all worked. */
  ghost predicate Passed(log: seq<Mark>, from: nat, calls: seq<Call>, k: nat)
  {
    k <= |calls| && from + k <= |log| && forall i {:trigger calls[i]} :: 0 <= i < k ==> OkAt(log, from + i, calls[i])
  }

  /** The first `k` of `calls` worked and the next one failed. */
  ghost predicate StuckAt(log: seq<Mark>, from: nat, calls: seq<Call>, k: nat)
  {
    k < |calls| && Passed(log, from, calls, k) && CallAt(log, from + k, calls[k]) && log[from + k].err == Failed
  }

  /** All of `a` worked, and then the first `k` of `b`. */
  lemma PassedOn(log: seq<Mark>, from: nat, a: seq<Call>, b: seq<Call>, k: nat)
    requires Passed(log, from, a, |a|) && Passed(log, from + |a|, b, k)
    ensures Passed(log, from, a + b, |a| + k)
  {
    var c := a + b;
    forall i | 0 <= i < |a| + k ensures OkAt(log, from + i, c[i]) {
      if i < |a| { assert OkAt(log, from + i, a[i]); } else { assert OkAt(log, from + |a| + (i - |a|), b[i - |a|]); }
    }
  }

  lemma StuckOn(log: seq<Mark>, from: nat, a: seq<Call>, b: seq<Call>, k: nat)
    requires Passed(log, from, a, |a|) && StuckAt(log, from + |a|, b, k)
    ensures StuckAt(log, from, a + b, |a| + k) && (a + b)[|a| + k] == b[k]
  {
    PassedOn(log, from, a, b, k);
  }

  lemma StuckBefore(log: seq<Mark>, from: nat, a: seq<Call>, b: seq<Call>, k: nat)
    requires StuckAt(log, from, a, k)
    ensures StuckAt(log, from, a + b, k) && (a + b)[k] == a[k]
  {
    var c := a + b;
    forall i | 0 <= i < k ensures OkAt(log, from + i, c[i]) { assert OkAt(log, from + i, a[i]); }
  }

  lemma TriedOn(log: seq<Mark>, from: nat, a: seq<Call>, b: seq<Call>)
    requires Tried(log, from, a) && Tried(log, from + |a|, b)
    ensures Tried(log, from, a + b)
  {
    var c := a + b;
    forall i | 0 <= i < |c| ensures CallAt(log, from + i, c[i]) {
      if i < |a| {
        assert CallAt(log, from + i, a[i]);
      } else {
        assert CallAt(log, from + |a| + (i - |a|), b[i - |a|]);
      }
    }
  }

  /** What the log says stays so when it grows. */
  lemma LogGrows(log: seq<Mark>, more: seq<Mark>, from: nat, calls: seq<Call>, k: nat)
    requires log <= more
    ensures Passed(log, from, calls, k) ==> Passed(more, from, calls, k)
    ensures StuckAt(log, from, calls, k) ==> StuckAt(more, from, calls, k)
    ensures Tried(log, from, calls) ==> Tried(more, from, calls)
  {
    if Passed(log, from, calls, k) {
      forall i | 0 <= i < k ensures OkAt(more, from + i, calls[i]) { assert OkAt(log, from + i, calls[i]); }
    }
    if Tried(log, from, calls) {
      forall i | 0 <= i < |calls| ensures CallAt(more, from + i, calls[i]) { assert CallAt(log, from + i, calls[i]); }
    }
  }

  ghost predicate KeptSince(log: seq<Mark>, from: nat, id: string)
  {
    from <= |log| && forall i {:trigger log[i]} :: from <= i < |log| ==> id in log[i].after
  }

  /** The same of all calls but, if it may be spared then, the last. */
  ghost predicate KeptBut(log: seq<Mark>, from: nat, id: string, spared: bool)
  {
    forall i {:trigger log[i]} :: from <= i < |log| && (i < |log| - 1 || !spared) ==> id in log[i].after
  }

  lemma KeptOn(log: seq<Mark>, more: seq<Mark>, from: nat, id: string)
    requires KeptSince(log, from, id) && log <= more && KeptSince(more, |log|, id)
    ensures KeptSince(more, from, id)
  {
    forall i | from <= i < |more| ensures id in more[i].after { if i < |log| { assert more[i] == log[i]; } }
  }

  /** One more mark in the log of a run of calls. */
  lemma Noted(log: seq<Mark>, from: nat, calls: seq<Call>, k: nat, m: Mark, id: string)
    requires Passed(log, from, calls, k) && |log| == from + k && k < |calls| && m.call == calls[k]
    requires KeptSince(log, from, id) && id in m.after
    ensures KeptSince(log + [m], from, id)
    ensures m.err == Ok ==> Passed(log + [m], from, calls, k + 1)
    ensures m.err == Failed ==> StuckAt(log + [m], from, calls, k)
  {
    LogGrows(log, log + [m], from, calls, k);
    assert CallAt(log + [m], from + k, calls[k]);
    assert KeptSince(log + [m], |log|, id);
    KeptOn(log, log + [m], from, id);
  }

  // ----- What a recreate calls

  /** The two containers of a recreate and their names. */
  datatype Job = Job(oldId: string, oldName: string, oldTmp: string, newId: string, newTmp: string, wasRunning: bool)

  function Connecting(j: Job, extra: seq<string>): seq<Call>
  {
    seq(|extra|, i requires 0 <= i < |extra| => Call.Connect(j.newId, extra[i]))
  }

  function Retiring(j: Job): seq<Call>
  {
    if j.wasRunning then [Call.Stop(j.oldId), Call.Rename(j.oldId, j.oldTmp)] else [Call.Rename(j.oldId, j.oldTmp)]
  }

  function Promoting(j: Job, finalName: string): seq<Call>
  {
    if j.wasRunning then [Call.Rename(j.newId, finalName), Call.Start(j.newId)] else [Call.Rename(j.newId, finalName)]
  }

  /** The calls of a swap, in order. */
  function Swapping(j: Job, extra: seq<string>, finalName: string): seq<Call>
  {
    Connecting(j, extra) + (Retiring(j) + Promoting(j, finalName))
  }

  /** After so many calls the old container is off its name. */
  function Moves(j: Job, extra: seq<string>): nat { |extra| + |Retiring(j)| }

  /** The step that a failing call of the swap is reported as. */
  function StepOf(j: Job, c: Call): StepName
  {
    match c
    case Connect(_, network) => Network(network)
    case Stop(_) => StopOld
    case Rename(id, _) => if id == j.oldId then RenameOld else RenameNew
    case _ => StartNew
  }

  /**
   The calls went through, or stopped at the first failing one, which the step names. By then `renamed`
   holds if the first `n` of them went through.
   */
  ghost predicate Swaps(j: Job, log: seq<Mark>, from: nat, calls: seq<Call>, n: nat, r: Swapped, renamed: bool)
  {
    match r
    case Completed => |log| == from + |calls| && Passed(log, from, calls, |calls|) && renamed
    case Stuck(step) => exists k: nat :: |log| == from + k + 1 && SwapStuck(j, log, from, calls, n, step, k, renamed)
  }

  ghost predicate SwapStuck(j: Job, log: seq<Mark>, from: nat, calls: seq<Call>, n: nat, step: StepName, k: nat,
                            renamed: bool)
  {
    StuckAt(log, from, calls, k) && step == StepOf(j, calls[k]) && (renamed <==> n <= k)
  }

  /** Stuck among the first calls, before anything else was tried. */
  lemma SwapsBefore(j: Job, log: seq<Mark>, from: nat, a: seq<Call>, b: seq<Call>, n: nat, r: Swapped)
    requires r.Stuck? && Swaps(j, log, from, a, |a|, r, false) && |a| <= n
    ensures Swaps(j, log, from, a + b, n, r, false)
  {
    var k: nat :| |log| == from + k + 1 && SwapStuck(j, log, from, a, |a|, r.step, k, false);
    StuckBefore(log, from, a, b, k);
    assert SwapStuck(j, log, from, a + b, n, r.step, k, false);
  }

  /** The first calls went through; what comes of the others comes of all. */
  lemma SwapsOn(j: Job, log: seq<Mark>, from: nat, a: seq<Call>, b: seq<Call>, n: nat, r: Swapped, renamed: bool)
    requires Passed(log, from, a, |a|) && Swaps(j, log, from + |a|, b, n, r, renamed)
    ensures Swaps(j, log, from, a + b, |a| + n, r, renamed)
  {
    match r
    case Completed => PassedOn(log, from, a, b, |b|);
    case Stuck(step) =>
      var k: nat :| |log| == from + |a| + k + 1 && SwapStuck(j, log, from + |a|, b, n, step, k, renamed);
      StuckOn(log, from, a, b, k);
      assert SwapStuck(j, log, from, a + b, |a| + n, step, |a| + k, renamed);
  }

  /** The calls of a rollback: all of them are made, whatever comes of the ones before. */
  function Undoing(j: Job, renamed: bool): seq<Call>
  {
    [Call.Remove(j.newId, true)] + Restoring(j, renamed)
  }

  function Restoring(j: Job, renamed: bool): seq<Call>
  {
    (if renamed then [Call.Rename(j.oldId, j.oldName)] else []) + (if j.wasRunning then [Call.Start(j.oldId)] else [])
  }

  /** What a rollback lists of the old container: one entry for each call that failed, under the name it then had. */
  function LeftOver(j: Job, renamed: bool, log: seq<Mark>, from: nat): seq<Leftover>
    requires |log| == from + |Restoring(j, renamed)|
  {
    var stays := renamed && log[from].err != Ok;
    (if stays then [Leftover(j.oldId, j.oldTmp)] else []) +
    if j.wasRunning && log[|log| - 1].err != Ok then [Leftover(j.oldId, if stays then j.oldTmp else j.oldName)] else []
  }

  /** A container engine: names are unique, a failed call has no effect. */
  class Engine {
    var containers: Containers
    var calls: nat
    /** Which calls fail for reasons of their own. */
    const faults: nat -> bool
    /** The calls so far; the n-th of them is the one that `faults(n)` is about. */
    ghost var log: seq<Mark>

    ghost predicate Valid()
      reads this
    {
      UniqueNames(containers) && calls == |log|
    }

    constructor (containers: Containers, faults: nat -> bool)
      requires UniqueNames(containers)
      ensures Valid() && this.containers == containers && log == [] && this.faults == faults
    {
      this.containers, this.faults, calls, log := containers, faults, 0, [];
    }

    /** From now on no call fails for reasons of its own. */
    ghost predicate Healthy()
      reads this
    {
      forall n :: calls <= n ==> !faults(n)
    }

    predicate NameTaken(name: string)
      reads this
    {
      exists id :: id in containers && containers[id].name == name
    }

    /** The call just made: it works if the engine accepts it and it does not fault. */
    ghost predicate Logged(before: seq<Mark>, call: Call, err: Err, accepted: bool)
      reads this
    {
      && log == before + [Mark(call, err, containers)]
      && (err == Ok <==> accepted && !faults(|before|))
    }

    /** Every call ends here: the new state if it worked, and a mark in the log. */
    method Settle(ghost call: Call, ok: bool, next: Containers) returns (err: Err)
      requires Valid() && (ok ==> UniqueNames(next))
      modifies this
      ensures Valid() && err != NotFound && Logged(old(log), call, err, ok)
      ensures containers == if err == Ok then next else old(containers)
    {
      err := if ok && !faults(calls) then Ok else Failed;
      if err == Ok { containers := next; }
      calls := calls + 1;
      log := log + [Mark(call, err, containers)];
    }

    /** The engine gives a created container an ID of its own. */
    method Create(id: string, name: string, networks: set<string>) returns (err: Err)
      requires Valid() && id !in containers
      modifies this
      ensures Valid() && err != NotFound && Logged(old(log), Call.Create(id, name), err, !old(NameTaken(name)))
      ensures containers ==
              if err == Ok then old(containers)[id := Container(name, false, false, networks)] else old(containers)
    {
      if !NameTaken(name) { UniqueWith(containers, id, Container(name, false, false, networks)); }
      err := Settle(Call.Create(id, name), !NameTaken(name), containers[id := Container(name, false, false, networks)]);
    }

    method Connect(id: string, network: string) returns (err: Err)
      requires Valid() && id in containers
      modifies this
      ensures Valid() && err != NotFound && Logged(old(log), Call.Connect(id, network), err, true)
      ensures err != Ok ==> containers == old(containers)
      ensures err == Ok ==>
              var c := old(containers[id]);
              containers == old(containers)[id := c.(networks := c.networks + {network})]
    {
      StillUnique(containers, id, containers[id].(networks := containers[id].networks + {network}));
      err := Settle(Call.Connect(id, network), true,
        containers[id := containers[id].(networks := containers[id].networks + {network})]);
    }

    /** Stopping a container that is removed on exit removes it. */
    method Stop(id: string) returns (err: Err)
      requires Valid() && id in containers
      modifies this
      ensures Valid() && err != NotFound && Logged(old(log), Call.Stop(id), err, true)
      ensures containers == if err == Ok then Stopped(old(containers), id) else old(containers)
    {
      StillUnique(containers, id, containers[id].(running := false));
      UniqueWithout(containers, id);
      err := Settle(Call.Stop(id), true, Stopped(containers, id));
    }

    /** Starting a running container does nothing and is no error. */
    method Start(id: string) returns (err: Err)
      requires Valid() && id in containers
      modifies this
      ensures Valid() && err != NotFound && Logged(old(log), Call.Start(id), err, true)
      ensures containers ==
              if err == Ok then old(containers)[id := old(containers)[id].(running := true)] else old(containers)
    {
      StillUnique(containers, id, containers[id].(running := true));
      err := Settle(Call.Start(id), true, containers[id := containers[id].(running := true)]);
    }

    method Rename(id: string, name: string) returns (err: Err)
      requires Valid() && id in containers
      modifies this
      ensures Valid() && err != NotFound && Logged(old(log), Call.Rename(id, name), err, !old(NameTaken(name)))
      ensures containers ==
              if err == Ok then old(containers)[id := old(containers)[id].(name := name)] else old(containers)
    {
      if !NameTaken(name) { UniqueWith(containers, id, containers[id].(name := name)); }
      err := Settle(Call.Rename(id, name), !NameTaken(name), containers[id := containers[id].(name := name)]);
    }

    method Remove(id: string, force: bool) returns (err: Err)
      requires Valid()
      modifies this
      ensures Valid() && (err == NotFound <==> id !in old(containers))
      ensures Logged(old(log), Call.Remove(id, force), err,
                     id in old(containers) && (force || !old(containers)[id].running))
      ensures containers == if err == Ok then old(containers) - {id} else old(containers)
    {
      if id !in containers {
        calls, log := calls + 1, log + [Mark(Call.Remove(id, force), NotFound, containers)];
        return NotFound;
      }
      UniqueWithout(containers, id);
      err := Settle(Call.Remove(id, force), force || !containers[id].running, containers - {id});
    }
  }

  datatype StepName = Network(name: string) | StopOld | RenameOld | RenameNew | StartNew

  datatype Swapped = Completed | Stuck(step: StepName)

  datatype Leftover = Leftover(id: string, name: string)

  datatype Outcome =
    | Refused
    | NotCreated
    | RolledBack(step: StepName, restored: bool, left: seq<Leftover>)
    | Recreated(warned: bool)

  ghost predicate CanUndo(j: Job, before: Containers, now: Containers, renamed: bool)
  {
    && j.oldId != j.newId && j.newId !in before && j.newId in now && OthersSame(now, before, j.oldId, j.newId)
    && CanRestore(j, before, now, renamed)
  }

  /** The old container is there, and at most off its name or stopped. */
  ghost predicate CanRestore(j: Job, before: Containers, now: Containers, renamed: bool)
  {
    && j.oldId in before && j.oldId in now && j.oldTmp != j.oldName
    && before[j.oldId] == Container(j.oldName, j.wasRunning, false, before[j.oldId].networks)
    && now[j.oldId].(name := j.oldName, running := j.wasRunning) == before[j.oldId]
    && now[j.oldId].name == (if renamed then j.oldTmp else j.oldName)
    && (!j.wasRunning ==> !now[j.oldId].running)
  }

  lemma SameOn(a: Containers, b: Containers, c: Containers, x: string)
    requires forall id :: id != x ==> SameAt(b, a, id)
    requires forall id :: id != x ==> SameAt(c, b, id)
    ensures forall id :: id != x ==> SameAt(c, a, id)
  {
    forall id | id != x ensures SameAt(c, a, id) { assert SameAt(b, a, id) && SameAt(c, b, id); }
  }

  lemma OthersStay(now: Containers, next: Containers, before: Containers, x: string, y: string)
    requires OthersSame(now, before, x, y) && forall id :: id != x && id != y ==> SameAt(next, now, id)
    ensures OthersSame(next, before, x, y)
  {
    forall id | id != x && id != y ensures SameAt(next, before, id) {
      assert SameAt(now, before, id) && SameAt(next, now, id);
    }
  }

  /** A change to the new container leaves the old one to be put back. */
  lemma UndoNew(j: Job, before: Containers, now: Containers, renamed: bool, c: Container)
    requires CanUndo(j, before, now, renamed)
    ensures CanUndo(j, before, now[j.newId := c], renamed)
  {
    OthersStay(now, now[j.newId := c], before, j.oldId, j.newId);
  }

  /** So does moving the old one, as long as only its name or running state move. */
  lemma UndoOld(j: Job, before: Containers, now: Containers, renamed: bool, c: Container, again: bool)
    requires CanUndo(j, before, now, renamed) && c == now[j.oldId].(name := c.name, running := c.running)
    requires c.name == (if again then j.oldTmp else j.oldName) && (!j.wasRunning ==> !c.running)
    ensures CanUndo(j, before, now[j.oldId := c], again)
  {
    OthersStay(now, now[j.oldId := c], before, j.oldId, j.newId);
  }

  /** A name that nobody had before is still free, but for the two containers at hand. */
  lemma StillFree(j: Job, before: Containers, now: Containers, renamed: bool, name: string)
    requires CanUndo(j, before, now, renamed) && now[j.oldId].name != name && now[j.newId].name != name
    requires forall id :: id in before && id != j.oldId ==> before[id].name != name
    ensures forall id :: id in now ==> now[id].name != name
  {
    forall id | id in now ensures now[id].name != name {
      if id != j.oldId && id != j.newId { assert SameAt(now, before, id); }
    }
  }

  /** One recreate past the create step. */
  class Run {
    const e: Engine
    const oldId: string
    const oldName: string
    const oldTmp: string
    const newId: string
    const newTmp: string
    const wasRunning: bool
    var renamedOldToTemp: bool
    /** The containers before the recreate began. */
    ghost const before: Containers

    constructor (e: Engine, ghost before: Containers, oldId: string, oldName: string, oldTmp: string, newId: string,
                 newTmp: string, wasRunning: bool)
      ensures this.e == e && this.before == before
      ensures this.oldId == oldId && this.oldName == oldName && this.oldTmp == oldTmp
      ensures this.newId == newId && this.newTmp == newTmp && this.wasRunning == wasRunning && !renamedOldToTemp
    {
      this.e, this.before, this.oldId, this.oldName, this.oldTmp := e, before, oldId, oldName, oldTmp;
      this.newId, this.newTmp, this.wasRunning, renamedOldToTemp := newId, newTmp, wasRunning, false;
    }

    /** The old container can be put back: it is there and only its name and running state moved. */
    ghost predicate Recoverable()
      reads this, e
    {
      e.Valid() && CanUndo(Task(), before, e.containers, renamedOldToTemp)
    }

    function Task(): Job { Job(oldId, oldName, oldTmp, newId, newTmp, wasRunning) }

    /** No container but the two at hand has the name. */
    ghost predicate Unused(name: string)
    {
      name != newTmp && forall id :: id in before && id != oldId ==> before[id].name != name
    }

    /** The temporary names are free, and the final one is the old one's or free. */
    ghost predicate FreshNames(finalName: string)
    {
      Unused(oldTmp) && Unused(finalName) && oldTmp != finalName
    }

    /** The new container under its final name and as running as the old one was. */
    ghost predicate InPlace(finalName: string, networks: set<string>)
      reads this, e
    {
      newId in e.containers && e.containers[newId] == Container(finalName, wasRunning, false, networks)
    }

    /** Since the call `from`, the old container was there after each call. */
    ghost predicate OldKept(from: nat)
      reads this, e
    {
      KeptSince(e.log, from, oldId)
    }

    method ConnectOne(network: string) returns (err: Err)
      requires Recoverable()
      modifies e
      ensures Recoverable() && err != NotFound && e.Logged(old(e.log), Call.Connect(newId, network), err, true)
      ensures e.containers[oldId] == old(e.containers[oldId])
      ensures var c := old(e.containers[newId]);
              e.containers[newId] == if err == Ok then c.(networks := c.networks + {network}) else c
    {
      ghost var was := e.containers[newId];
      UndoNew(Task(), before, e.containers, renamedOldToTemp, was.(networks := was.networks + {network}));
      err := e.Connect(newId, network);
    }

    method ConnectExtra(extra: seq<string>) returns (r: Swapped)
      requires Recoverable()
      modifies e
      ensures Recoverable() && OldKept(|old(e.log)|) && old(e.log) <= e.log
      ensures Swaps(Task(), e.log, |old(e.log)|, Connecting(Task(), extra), |extra|, r, r.Completed?)
      ensures e.containers[oldId] == old(e.containers[oldId])
      ensures r.Completed? ==> e.containers[newId] == Joined(old(e.containers[newId]), extra)
      ensures r.Stuck? ==> e.faults(|e.log| - 1)
    {
      ghost var from, calls := |e.log|, Connecting(Task(), extra);
      for k := 0 to |extra|
        invariant Recoverable() && OldKept(from) && |e.log| == from + k && Passed(e.log, from, calls, k)
        invariant old(e.log) <= e.log
        invariant e.containers[oldId] == old(e.containers[oldId])
        invariant e.containers[newId] == Joined(old(e.containers[newId]), extra[..k])
      {
        ghost var log := e.log;
        var err := ConnectOne(extra[k]);
        Noted(log, from, calls, k, Mark(Call.Connect(newId, extra[k]), err, e.containers), oldId);
        if err != Ok {
          assert SwapStuck(Task(), e.log, from, calls, |extra|, Network(extra[k]), k, false);
          return Stuck(Network(extra[k]));
        }
        JoinedMore(old(e.containers[newId]), extra, k);
      }
      assert extra[..|extra|] == extra;
      return Completed;
    }

    method StopOld() returns (err: Err)
      requires Recoverable() && wasRunning
      modifies e
      ensures Recoverable() && err != NotFound && e.Logged(old(e.log), Call.Stop(oldId), err, true)
      ensures e.containers[newId] == old(e.containers[newId])
      ensures err == Ok ==> !e.containers[oldId].running
    {
      UndoOld(Task(), before, e.containers, renamedOldToTemp, e.containers[oldId].(running := false), renamedOldToTemp);
      err := e.Stop(oldId);
    }

    method RenameOld() returns (err: Err)
      requires Recoverable() && !renamedOldToTemp
      modifies this, e
      ensures Recoverable() && (renamedOldToTemp <==> err == Ok) && err != NotFound
      ensures e.Logged(old(e.log), Call.Rename(oldId, oldTmp), err, !old(e.NameTaken(oldTmp)))
      ensures e.containers[newId] == old(e.containers[newId])
      ensures e.containers[oldId].running == old(e.containers[oldId]).running
      ensures err != Ok && Unused(oldTmp) && old(e.containers[newId]).name != oldTmp ==> e.faults(|e.log| - 1)
    {
      if Unused(oldTmp) && e.containers[newId].name != oldTmp {
        StillFree(Task(), before, e.containers, false, oldTmp);
      }
      UndoOld(Task(), before, e.containers, false, e.containers[oldId].(name := oldTmp), true);
      err := e.Rename(oldId, oldTmp);
      if err == Ok { renamedOldToTemp := true; }
    }

    /** Stops the old container and moves it off its name. */
    method RetireOld() returns (r: Swapped)
      requires Recoverable() && !renamedOldToTemp
      modifies this, e
      ensures Recoverable() && OldKept(|old(e.log)|) && old(e.log) <= e.log
      ensures Swaps(Task(), e.log, |old(e.log)|, Retiring(Task()), |Retiring(Task())|, r, r.Completed?)
      ensures e.containers[newId] == old(e.containers[newId])
      ensures r.Completed? ==> e.containers[oldId] == before[oldId].(name := oldTmp, running := false)
      ensures r.Completed? <==> renamedOldToTemp
      ensures r.Stuck? && Unused(oldTmp) && old(e.containers[newId]).name != oldTmp ==> e.faults(|e.log| - 1)
    {
      ghost var from, calls, k := |e.log|, Retiring(Task()), 0;
      if wasRunning {
        var err := StopOld();
        Noted(old(e.log), from, calls, 0, Mark(Call.Stop(oldId), err, e.containers), oldId);
        if err != Ok {
          assert SwapStuck(Task(), e.log, from, calls, |calls|, StepName.StopOld, 0, false);
          return Stuck(StepName.StopOld);
        }
        k := 1;
      }
      ghost var log := e.log;
      var err := RenameOld();
      Noted(log, from, calls, k, Mark(Call.Rename(oldId, oldTmp), err, e.containers), oldId);
      if err != Ok {
        assert SwapStuck(Task(), e.log, from, calls, |calls|, StepName.RenameOld, k, false);
        return Stuck(StepName.RenameOld);
      }
      return Completed;
    }

    method RenameNew(finalName: string) returns (err: Err)
      requires Recoverable()
      modifies e
      ensures Recoverable() && err != NotFound && e.containers[oldId] == old(e.containers[oldId])
      ensures e.Logged(old(e.log), Call.Rename(newId, finalName), err, !old(e.NameTaken(finalName)))
      ensures e.containers[newId] == if err == Ok then old(e.containers[newId]).(name := finalName)
                                     else old(e.containers[newId])
      ensures err != Ok && Unused(finalName) && old(e.containers[newId]).name != finalName &&
              old(e.containers[oldId]).name != finalName ==>
                e.faults(|e.log| - 1)
    {
      UndoNew(Task(), before, e.containers, renamedOldToTemp, e.containers[newId].(name := finalName));
      if Unused(finalName) && e.containers[newId].name != finalName && e.containers[oldId].name != finalName {
        StillFree(Task(), before, e.containers, renamedOldToTemp, finalName);
      }
      err := e.Rename(newId, finalName);
    }

    method StartNew() returns (err: Err)
      requires Recoverable()
      modifies e
      ensures Recoverable() && err != NotFound && e.containers[oldId] == old(e.containers[oldId])
      ensures e.Logged(old(e.log), Call.Start(newId), err, true)
      ensures err == Ok ==> e.containers[newId] == old(e.containers[newId]).(running := true)
    {
      UndoNew(Task(), before, e.containers, renamedOldToTemp, e.containers[newId].(running := true));
      err := e.Start(newId);
    }

    /** Gives the new container the final name and starts it if the old one ran. */
    method PromoteNew(finalName: string) returns (r: Swapped)
      requires Recoverable() && renamedOldToTemp
      requires e.containers[newId] == Container(newTmp, false, false, e.containers[newId].networks)
      modifies e
      ensures Recoverable() && OldKept(|old(e.log)|) && old(e.log) <= e.log
      ensures Swaps(Task(), e.log, |old(e.log)|, Promoting(Task(), finalName), 0, r, true)
      ensures e.containers[oldId] == old(e.containers[oldId])
      ensures r.Completed? ==> InPlace(finalName, old(e.containers[newId]).networks)
      ensures r.Stuck? && Unused(finalName) && finalName != newTmp && old(e.containers[oldId]).name != finalName ==>
                e.faults(|e.log| - 1)
    {
      ghost var from, calls := |e.log|, Promoting(Task(), finalName);
      var err := RenameNew(finalName);
      Noted(old(e.log), from, calls, 0, Mark(Call.Rename(newId, finalName), err, e.containers), oldId);
      if err != Ok {
        assert SwapStuck(Task(), e.log, from, calls, 0, StepName.RenameNew, 0, true);
        return Stuck(StepName.RenameNew);
      }
      if wasRunning {
        ghost var log := e.log;
        err := StartNew();
        Noted(log, from, calls, 1, Mark(Call.Start(newId), err, e.containers), oldId);
        if err != Ok {
          assert SwapStuck(Task(), e.log, from, calls, 0, StepName.StartNew, 1, true);
          return Stuck(StepName.StartNew);
        }
      }
      return Completed;
    }

    /** The old container gives way to the new one. */
    method SwapNames(finalName: string) returns (r: Swapped)
      requires Recoverable() && !renamedOldToTemp
      requires e.containers[newId] == Container(newTmp, false, false, e.containers[newId].networks)
      modifies this, e
      ensures Recoverable() && OldKept(|old(e.log)|) && old(e.log) <= e.log
      ensures Swaps(Task(), e.log, |old(e.log)|, Retiring(Task()) + Promoting(Task(), finalName), |Retiring(Task())|, r,
                    renamedOldToTemp)
      ensures r.Completed? ==> InPlace(finalName, old(e.containers[newId]).networks)
      ensures r.Completed? ==> e.containers[oldId] == before[oldId].(name := oldTmp, running := false)
      ensures r.Stuck? && FreshNames(finalName) ==> e.faults(|e.log| - 1)
    {
      ghost var from, b, c := |e.log|, Retiring(Task()), Promoting(Task(), finalName);
      r := RetireOld();
      if r.Stuck? {
        SwapsBefore(Task(), e.log, from, b, c, |b|, r);
        return;
      }
      ghost var log := e.log;
      r := PromoteNew(finalName);
      LogGrows(log, e.log, from, b, |b|);
      KeptOn(log, e.log, from, oldId);
      SwapsOn(Task(), e.log, from, b, c, 0, r, true);
    }

    /** Extra networks, stop old, name swap, start new; stops at the first failure. */
    method Swap(extra: seq<string>, finalName: string) returns (r: Swapped)
      requires Recoverable() && !renamedOldToTemp
      requires e.containers[newId] == Container(newTmp, false, false, e.containers[newId].networks)
      modifies this, e
      ensures Recoverable() && OldKept(|old(e.log)|) && old(e.log) <= e.log
      ensures Swaps(Task(), e.log, |old(e.log)|, Swapping(Task(), extra, finalName), Moves(Task(), extra), r,
                    renamedOldToTemp)
      ensures r.Completed? ==> InPlace(finalName, Joined(old(e.containers[newId]), extra).networks)
      ensures r.Completed? ==> e.containers[oldId] == before[oldId].(name := oldTmp, running := false)
      ensures r.Stuck? && FreshNames(finalName) ==> e.faults(|e.log| - 1)
    {
      ghost var from, a, b := |e.log|, Connecting(Task(), extra), Retiring(Task()) + Promoting(Task(), finalName);
      r := ConnectExtra(extra);
      if r.Stuck? {
        SwapsBefore(Task(), e.log, from, a, b, Moves(Task(), extra), r);
        return;
      }
      ghost var log := e.log;
      r := SwapNames(finalName);
      LogGrows(log, e.log, from, a, |a|);
      KeptOn(log, e.log, from, oldId);
      SwapsOn(Task(), e.log, from, a, b, |Retiring(Task())|, r, renamedOldToTemp);
    }

    /** Removes the new container; one that is gone already is no failure. */
    method DropNew() returns (left: seq<Leftover>)
      requires Recoverable()
      modifies e
      ensures e.Valid() && OldKept(|old(e.log)|) && old(e.log) <= e.log
      ensures |e.log| == |old(e.log)| + 1 && CallAt(e.log, |old(e.log)|, Call.Remove(newId, true))
      ensures e.log[|old(e.log)|].err == Failed <==> left != []
      ensures OthersSame(e.containers, before, oldId, newId)
      ensures oldId in e.containers && e.containers[oldId] == old(e.containers[oldId])
      ensures e.containers == if left == [] then old(e.containers) - {newId} else old(e.containers)
      ensures left == if e.faults(|old(e.log)|) then [Leftover(newId, newTmp)] else []
    {
      var err := e.Remove(newId, true);
      OthersStay(old(e.containers), e.containers, before, oldId, newId);
      left := if err == Failed then [Leftover(newId, newTmp)] else [];
    }

    /** The old container back under its name; it may be refused while another one has it. */
    method NameBack() returns (err: Err)
      requires e.Valid() && CanRestore(Task(), before, e.containers, true)
      modifies e
      ensures e.Valid() && e.Logged(old(e.log), Call.Rename(oldId, oldName), err, !old(e.NameTaken(oldName)))
      ensures CanRestore(Task(), before, e.containers, err != Ok)
      ensures e.containers[oldId].running == old(e.containers[oldId]).running
      ensures forall id :: id != oldId ==> SameAt(e.containers, old(e.containers), id)
      ensures err != Ok && !NamedElsewhere(old(e.containers), oldId, oldName) ==> e.faults(|old(e.log)|)
    {
      err := e.Rename(oldId, oldName);
    }

    method StartBack(ghost renamed: bool) returns (err: Err)
      requires e.Valid() && CanRestore(Task(), before, e.containers, renamed) && wasRunning
      modifies e
      ensures e.Valid() && e.Logged(old(e.log), Call.Start(oldId), err, true)
      ensures CanRestore(Task(), before, e.containers, renamed) && (err == Ok ==> e.containers[oldId].running)
      ensures forall id :: id != oldId ==> SameAt(e.containers, old(e.containers), id)
    {
      err := e.Start(oldId);
    }

    /** Gives the old container its name back and starts it again; the second is tried whatever came of the first. */
    method RestoreOld() returns (left: seq<Leftover>)
      requires e.Valid() && CanRestore(Task(), before, e.containers, renamedOldToTemp)
      modifies e
      ensures e.Valid() && OldKept(|old(e.log)|) && old(e.log) <= e.log
      ensures Tried(e.log, |old(e.log)|, Restoring(Task(), renamedOldToTemp))
      ensures |e.log| == |old(e.log)| + |Restoring(Task(), renamedOldToTemp)|
      ensures left == LeftOver(Task(), renamedOldToTemp, e.log, |old(e.log)|)
      ensures oldId in e.containers && forall id :: id != oldId ==> SameAt(e.containers, old(e.containers), id)
      ensures left == [] ==> e.containers[oldId] == before[oldId]
      ensures OnlyListed(left, {oldId}) && Moved(before[oldId], e.containers[oldId], oldTmp)
      ensures (forall n :: |old(e.log)| <= n ==> !e.faults(n)) && !NamedElsewhere(old(e.containers), oldId, oldName) ==>
                left == []
    {
      left := [];
      var oldNow := if renamedOldToTemp then oldTmp else oldName;
      ghost var stays, named := renamedOldToTemp, e.containers;
      if renamedOldToTemp {
        var err := NameBack();
        stays := err != Ok;
        named := e.containers;
        if err != Ok { left := left + [Leftover(oldId, oldNow)]; } else { oldNow := oldName; }
      }
      if wasRunning {
        var err := StartBack(stays);
        SameOn(old(e.containers), named, e.containers, oldId);
        if err != Ok { left := left + [Leftover(oldId, oldNow)]; }
      }
    }

    /**
     Drops the new container, restores the old name, restarts the old one; lists what it could not do.
     Each call is made whatever came of the ones before it: if none after the removal faults and the
     old name is free, the old container is as it was even when the new one could not be removed.
     */
    method Rollback() returns (left: seq<Leftover>)
      requires Recoverable()
      modifies e
      ensures e.Valid() && OldKept(|old(e.log)|) && old(e.log) <= e.log && oldId in e.containers
      ensures RolledBackAs(Task(), renamedOldToTemp, e.log, |old(e.log)|, left)
      ensures Honest(Task(), before, e.containers, left)
      ensures Listed(left, newId) <==> e.faults(|old(e.log)|)
      ensures (forall n :: |old(e.log)| < n ==> !e.faults(n)) && !NamedElsewhere(old(e.containers), oldId, oldName) ==>
                e.containers[oldId] == before[oldId] && OnlyListed(left, {newId})
      ensures old(e.Healthy()) && UniqueNames(before) ==> left == []
    {
      ghost var from := |e.log|;
      var a := DropNew();
      ghost var mid, log := e.containers, e.log;
      if a == [] && UniqueNames(before) { OldNameFree(Task(), before, mid); }
      var b := RestoreOld();
      left := a + b;
      UndoLogged(Task(), renamedOldToTemp, log, e.log, from, a, b);
      BothListed(Task(), before, mid, e.containers, a, b);
    }
  }

  lemma UndoLogged(j: Job, renamed: bool, log: seq<Mark>, more: seq<Mark>, from: nat, a: seq<Leftover>,
                   b: seq<Leftover>)
    requires log <= more && |log| == from + 1 && CallAt(log, from, Call.Remove(j.newId, true))
    requires a == (if log[from].err == Failed then [Leftover(j.newId, j.newTmp)] else [])
    requires |more| == |log| + |Restoring(j, renamed)| && Tried(more, |log|, Restoring(j, renamed))
    requires b == LeftOver(j, renamed, more, |log|)
    requires KeptSince(log, from, j.oldId) && KeptSince(more, |log|, j.oldId)
    ensures RolledBackAs(j, renamed, more, from, a + b) && KeptSince(more, from, j.oldId)
  {
    assert more[from] == log[from];
    var drop := [Call.Remove(j.newId, true)];
    assert CallAt(more, from + 0, drop[0]);
    TriedOn(more, from, drop, Restoring(j, renamed));
    KeptOn(log, more, from, j.oldId);
  }

  /** A report is honest: what it does not list is as before, and it lists at most the two containers at hand. */
  ghost predicate Honest(j: Job, before: Containers, after: Containers, left: seq<Leftover>)
  {
    && j.oldId in before && j.oldId in after && Moved(before[j.oldId], after[j.oldId], j.oldTmp)
    && OnlyListed(left, {j.oldId, j.newId}) && (left == [] ==> after == before)
    && forall id :: !Listed(left, id) ==> SameAt(after, before, id)
  }

  /** With the new container gone nobody has the old name. */
  lemma OldNameFree(j: Job, before: Containers, mid: Containers)
    requires UniqueNames(before) && j.oldId in before && before[j.oldId].name == j.oldName
    requires OthersSame(mid, before, j.oldId, j.newId) && j.newId !in mid
    ensures !NamedElsewhere(mid, j.oldId, j.oldName)
  {
    forall x | x in mid && x != j.oldId ensures mid[x].name != j.oldName {
      assert SameAt(mid, before, x) && !SameName(before, x, j.oldId);
    }
  }

  lemma BothListed(j: Job, before: Containers, mid: Containers, after: Containers, a: seq<Leftover>, b: seq<Leftover>)
    requires j.oldId in before && j.oldId in after && Moved(before[j.oldId], after[j.oldId], j.oldTmp)
    requires j.newId !in before && j.oldId != j.newId && OthersSame(mid, before, j.oldId, j.newId)
    requires a == [] || a == [Leftover(j.newId, j.newTmp)]
    requires (a == [] ==> j.newId !in mid) && forall id :: id != j.oldId ==> SameAt(after, mid, id)
    requires OnlyListed(b, {j.oldId}) && (b == [] ==> after[j.oldId] == before[j.oldId])
    ensures Honest(j, before, after, a + b) && (Listed(a + b, j.newId) <==> a != [])
  {
    var left := a + b;
    if a != [] { assert left[0].id == j.newId; }
    if b != [] { assert left[|a|] == b[0] && left[|a|].id == j.oldId; }
    forall id | !Listed(left, id) ensures SameAt(after, before, id) {
      if id != j.oldId {
        assert SameAt(after, mid, id);
        if id != j.newId { assert SameAt(mid, before, id); }
      }
    }
    if left == [] { SameEverywhere(after, before); }
  }

  /** All calls of the rollback were made, and what it lists is what failed. */
  ghost predicate RolledBackAs(j: Job, renamed: bool, log: seq<Mark>, from: nat, left: seq<Leftover>)
  {
    && |log| == from + |Undoing(j, renamed)| && Tried(log, from, Undoing(j, renamed))
    && left == (if log[from].err == Failed then [Leftover(j.newId, j.newTmp)] else []) +
               LeftOver(j, renamed, log, from + 1)
  }

  predicate SameAt(a: Containers, b: Containers, id: string) { (id in a <==> id in b) && (id in a ==> a[id] == b[id]) }

  ghost predicate OthersSame(a: Containers, b: Containers, x: string, y: string)
  {
    forall id {:trigger SameAt(a, b, id)} :: id != x && id != y ==> SameAt(a, b, id)
  }

  predicate Listed(left: seq<Leftover>, id: string) { exists i :: 0 <= i < |left| && left[i].id == id }

  predicate OnlyListed(left: seq<Leftover>, ids: set<string>) { forall i :: 0 <= i < |left| ==> left[i].id in ids }

  /** The same container but, perhaps, under its temporary name or stopped. */
  predicate Moved(was: Container, now: Container, tmp: string)
  {
    now.(name := was.name, running := was.running) == was && (now.name == was.name || now.name == tmp)
  }

  lemma SameEverywhere(a: Containers, b: Containers)
    requires forall id :: SameAt(a, b, id)
    ensures a == b
  {
    forall id ensures id in a <==> id in b { assert SameAt(a, b, id); }
    forall id | id in a ensures a[id] == b[id] { assert SameAt(a, b, id); }
  }

  /** The calls went as far as one that failed, and then all of the rollback followed. */
  ghost predicate StuckAndUndone(j: Job, log: seq<Mark>, from: nat, calls: seq<Call>, n: nat, step: StepName,
                                 left: seq<Leftover>)
  {
    exists k: nat, renamed ::
      SwapStuck(j, log, from, calls, n, step, k, renamed) && RolledBackAs(j, renamed, log, from + k + 1, left)
  }

  /** The calls behind an outcome, in order. */
  ghost predicate Told(j: Job, log: seq<Mark>, from: nat, extra: seq<string>, finalName: string, out: Outcome)
  {
    match out
    case Refused => |log| == from
    case NotCreated => |log| == from + 1 && StuckAt(log, from, [Call.Create(j.newId, j.newTmp)], 0)
    case _ => Passed(log, from, [Call.Create(j.newId, j.newTmp)], 1) && ToldOn(j, log, from + 1, extra, finalName, out)
  }

  /** The calls once the new container exists. */
  ghost predicate ToldOn(j: Job, log: seq<Mark>, from: nat, extra: seq<string>, finalName: string, out: Outcome)
  {
    var calls := Swapping(j, extra, finalName);
    match out
    case RolledBack(step, _, left) => StuckAndUndone(j, log, from, calls, Moves(j, extra), step, left)
    case Recreated(warned) =>
      && |log| == from + |calls| + 1 && Passed(log, from, calls, |calls|)
      && CallAt(log, from + |calls|, Call.Remove(j.oldId, false)) && (warned <==> log[from + |calls|].err != Ok)
    case _ => false
  }

  /** What the caller finds afterwards, for every outcome. */
  ghost predicate Accounted(j: Job, before: Containers, after: Containers, new': Container, out: Outcome)
    requires j.oldId in before
  {
    match out
    case Refused => before[j.oldId].autoRemove && after == before
    case NotCreated => after == before
    case RolledBack(_, restored, left) =>
      (restored <==> left == []) && Honest(j, before, after, left)
    case Recreated(warned) =>
      after == if warned then before[j.oldId := before[j.oldId].(name := j.oldTmp, running := false)][j.newId := new']
               else (before - {j.oldId})[j.newId := new']
  }

  lemma SwappedState(before: Containers, now: Containers, oldId: string, newId: string, old': Container,
                     new': Container)
    requires oldId in before && newId !in before && OthersSame(now, before, oldId, newId)
    requires oldId in now && now[oldId] == old' && newId in now && now[newId] == new'
    ensures now == before[oldId := old'][newId := new']
    ensures now - {oldId} == (before - {oldId})[newId := new']
  {
    var next := before[oldId := old'][newId := new'];
    forall id ensures SameAt(now, next, id) {
      if id != oldId && id != newId { assert SameAt(now, before, id); }
    }
    SameEverywhere(now, next);
  }

  /** Both temporary names are free and the final one is free or the container's own. */
  ghost predicate NamesFree(cs: Containers, oldId: string, finalName: string, oldTmp: string, newTmp: string)
  {
    && oldTmp != finalName && newTmp != finalName && oldTmp != newTmp
    && forall id :: id in cs ==>
      cs[id].name != oldTmp && cs[id].name != newTmp && (id != oldId ==> cs[id].name != finalName)
  }

  /**
   Replaces a container. With free names and no failing call it succeeds. Whatever fails: the new
   container stands under the requested name with the old running state, or, when restored is
   reported, nothing changed; otherwise only the two containers at hand are listed and the old one
   has at most lost its name or been stopped. It is there after every call but a successful last one.
   Which calls are made, and in which order, is `Told`.
   */
  method RecreateContainer(e: Engine, oldId: string, finalName: string, oldTmp: string, newTmp: string, newId: string,
                           networks: set<string>, extra: seq<string>) returns (out: Outcome)
    requires e.Valid() && oldId in e.containers && newId !in e.containers && oldTmp != e.containers[oldId].name
    modifies e
    ensures e.Valid()
    ensures var was := old(e.containers[oldId]);
            var j := Job(oldId, was.name, oldTmp, newId, newTmp, was.running);
            && Told(j, e.log, |old(e.log)|, extra, finalName, out)
            && Accounted(j, old(e.containers), e.containers,
                         Joined(Container(finalName, was.running, false, networks), extra), out)
    ensures old(e.Healthy()) && !old(e.containers[oldId]).autoRemove &&
            NamesFree(old(e.containers), oldId, finalName, oldTmp, newTmp) ==>
              out == Recreated(false)
    ensures old(e.log) <= e.log
    ensures KeptBut(e.log, |old(e.log)|, oldId, out.Recreated?)
  {
    var was := e.containers[oldId];
    if was.autoRemove { return Refused; }
    ghost var before, from, create := e.containers, |e.log|, [Call.Create(newId, newTmp)];
    var err := e.Create(newId, newTmp, networks);
    Noted(old(e.log), from, create, 0, Mark(create[0], err, e.containers), oldId);
    if err != Ok { return NotCreated; }
    ghost var log := e.log;
    out := Replace(e, Job(oldId, was.name, oldTmp, newId, newTmp, was.running), before, networks, extra, finalName);
    LogGrows(log, e.log, from, create, 1);
    KeptAfter(log, e.log, from, oldId, out.Recreated?);
  }

  /** The recreate past the create step. */
  method Replace(e: Engine, j: Job, ghost before: Containers, networks: set<string>, extra: seq<string>,
                 finalName: string)
    returns (out: Outcome)
    requires e.Valid() && j.oldId in before && j.newId !in before && j.oldTmp != j.oldName
    requires before[j.oldId] == Container(j.oldName, j.wasRunning, false, before[j.oldId].networks)
    requires e.containers == before[j.newId := Container(j.newTmp, false, false, networks)]
    modifies e
    ensures e.Valid() && old(e.log) <= e.log && |old(e.log)| < |e.log|
    ensures ToldOn(j, e.log, |old(e.log)|, extra, finalName, out) && !out.Refused? && !out.NotCreated?
    ensures Accounted(j, before, e.containers, Joined(Container(finalName, j.wasRunning, false, networks), extra), out)
    ensures KeptBut(e.log, |old(e.log)|, j.oldId, out.Recreated?)
    ensures old(e.Healthy()) && NamesFree(before, j.oldId, finalName, j.oldTmp, j.newTmp) ==> out == Recreated(false)
  {
    var run := new Run(e, before, j.oldId, j.oldName, j.oldTmp, j.newId, j.newTmp, j.wasRunning);
    JustCreated(j, before, e.containers);
    out := SwapOrRollBack(run, extra, finalName);
  }

  lemma JustCreated(j: Job, before: Containers, now: Containers)
    requires j.oldId in before && j.newId !in before && j.oldTmp != j.oldName
    requires before[j.oldId] == Container(j.oldName, j.wasRunning, false, before[j.oldId].networks)
    requires j.newId in now && now == before[j.newId := now[j.newId]]
    ensures CanUndo(j, before, now, false)
  {
    forall id | id != j.oldId && id != j.newId ensures SameAt(now, before, id) { }
  }

  lemma KeptAfter(log: seq<Mark>, more: seq<Mark>, from: nat, id: string, spared: bool)
    requires KeptSince(log, from, id) && log <= more && |log| < |more| && KeptBut(more, |log|, id, spared)
    ensures KeptBut(more, from, id, spared)
  {
    forall i | from <= i < |more| && (i < |more| - 1 || !spared) ensures id in more[i].after {
      if i < |log| { assert more[i] == log[i]; }
    }
  }

  /** The recreate once the new container exists. */
  method SwapOrRollBack(run: Run, extra: seq<string>, finalName: string) returns (out: Outcome)
    requires run.Recoverable() && !run.renamedOldToTemp
    requires run.e.containers[run.newId] == Container(run.newTmp, false, false, run.e.containers[run.newId].networks)
    modifies run, run.e
    ensures run.e.Valid()
    ensures Accounted(run.Task(), run.before, run.e.containers,
                      Joined(Container(finalName, run.wasRunning, false, old(run.e.containers[run.newId]).networks),
                             extra), out)
    ensures ToldOn(run.Task(), run.e.log, |old(run.e.log)|, extra, finalName, out)
    ensures old(run.e.Healthy()) && run.FreshNames(finalName) ==> out == Recreated(false)
    ensures old(run.e.log) <= run.e.log && |old(run.e.log)| < |run.e.log|
    ensures KeptBut(run.e.log, |old(run.e.log)|, run.oldId, out.Recreated?)
  {
    var e := run.e;
    ghost var made, from := e.containers[run.newId], |e.log|;
    var swapped := run.Swap(extra, finalName);
    if swapped.Stuck? {
      var left := RollBack(run, swapped.step, from, extra, finalName);
      return RolledBack(swapped.step, left == [], left);
    }
    SwappedState(run.before, e.containers, run.oldId, run.newId,
                 run.before[run.oldId].(name := run.oldTmp, running := false),
                 Joined(Container(finalName, run.wasRunning, false, made.networks), extra));
    ghost var log := e.log;
    var err := e.Remove(run.oldId, false);
    LogGrows(log, e.log, from, Swapping(run.Task(), extra, finalName), |Swapping(run.Task(), extra, finalName)|);
    return Recreated(err != Ok);
  }

  method RollBack(run: Run, ghost step: StepName, ghost from: nat, ghost extra: seq<string>, ghost finalName: string)
    returns (left: seq<Leftover>)
    requires run.Recoverable() && KeptSince(run.e.log, from, run.oldId)
    requires Swaps(run.Task(), run.e.log, from, Swapping(run.Task(), extra, finalName), Moves(run.Task(), extra),
                   Stuck(step), run.renamedOldToTemp)
    modifies run.e
    ensures run.e.Valid() && old(run.e.log) <= run.e.log && KeptSince(run.e.log, from, run.oldId)
    ensures Honest(run.Task(), run.before, run.e.containers, left)
    ensures ToldOn(run.Task(), run.e.log, from, extra, finalName, RolledBack(step, left == [], left))
  {
    ghost var log := run.e.log;
    left := run.Rollback();
    StuckThenUndone(run.Task(), log, run.e.log, from, Swapping(run.Task(), extra, finalName), Moves(run.Task(), extra),
                    step, run.renamedOldToTemp, left);
    KeptOn(log, run.e.log, from, run.oldId);
  }

  lemma StuckThenUndone(j: Job, log: seq<Mark>, more: seq<Mark>, from: nat, calls: seq<Call>, n: nat, step: StepName,
                        renamed: bool, left: seq<Leftover>)
    requires Swaps(j, log, from, calls, n, Stuck(step), renamed)
    requires log <= more && RolledBackAs(j, renamed, more, |log|, left)
    ensures StuckAndUndone(j, more, from, calls, n, step, left)
  {
    var k: nat :| |log| == from + k + 1 && SwapStuck(j, log, from, calls, n, step, k, renamed);
    LogGrows(log, more, from, calls, k);
    assert SwapStuck(j, more, from, calls, n, step, k, renamed);
    assert RolledBackAs(j, renamed, more, from + k + 1, left);
  }
}
