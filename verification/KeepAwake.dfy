/**
 The keep-awake controller and its caffeinate driver, with the child processes and the reapers
 that wait for them.

 Both locks are modelled by what can happen between two locked sections: while the controller
 works, children may exit and reapers may take the driver's lock at any such point, but a reported
 loss waits for the controller's own lock.
 */
module KeepAwake {
  import opened Prelude

  /** What the driver did, in the order of its locked sections, and when a loss reached the controller. */
  datatype Act = Acquired(child: nat) | Released | Lost(child: nat) | Delivered(child: nat)

  /** The child of the last acquire, unless a release followed it. */
  function Wanted(trace: seq<Act>): Option<nat>
  {
    if trace == [] then None
    else
      match trace[|trace| - 1]
      case Acquired(c) => Some(c)
      case Released => None
      case _ => Wanted(trace[..|trace| - 1])
  }

  ghost predicate HonestAt(trace: seq<Act>, k: nat)
    requires k < |trace|
  {
    trace[k].Lost? ==> Wanted(trace[..k]) == Some(trace[k].child) && trace[k] !in trace[..k]
  }

  /** Each loss is of the child acquired last, with no release since, and of no child twice. */
  ghost predicate Honest(trace: seq<Act>) { forall k :: 0 <= k < |trace| ==> HonestAt(trace, k) }

  predicate IsNotice(a: Act) { a.Lost? || a.Delivered? }

  /** Neither an acquire nor a release follows position `j`. */
  predicate OnlyNotices(trace: seq<Act>, j: nat) { forall k :: j < k < |trace| ==> IsNotice(trace[k]) }

  lemma {:induction false} WantedSince(trace: seq<Act>, c: nat) returns (j: nat)
    requires Wanted(trace) == Some(c)
    ensures j < |trace| && trace[j] == Acquired(c) && OnlyNotices(trace, j)
  {
    j := |trace| - 1;
    if IsNotice(trace[j]) {
      var front := trace[..j];
      j := WantedSince(front, c);
      forall k | j < k < |trace| ensures IsNotice(trace[k]) { assert k < |front| ==> front[k] == trace[k]; }
    }
  }

  lemma {:induction false} WantedFrom(trace: seq<Act>, c: nat, j: nat)
    requires j < |trace| && trace[j] == Acquired(c) && OnlyNotices(trace, j)
    ensures Wanted(trace) == Some(c)
  {
    if j < |trace| - 1 {
      var front := trace[..|trace| - 1];
      assert IsNotice(trace[|trace| - 1]);
      forall k | j < k < |front| ensures IsNotice(front[k]) { assert front[k] == trace[k]; }
      WantedFrom(front, c, j);
    }
  }

  /** `Wanted` says what it is for: some acquire of the child with neither a release nor an acquire after it. */
  lemma WantedMeans(trace: seq<Act>, c: nat)
    ensures Wanted(trace) == Some(c) <==>
            exists j :: 0 <= j < |trace| && trace[j] == Acquired(c) && OnlyNotices(trace, j)
  {
    if Wanted(trace) == Some(c) { var j := WantedSince(trace, c); }
    if j :| 0 <= j < |trace| && trace[j] == Acquired(c) && OnlyNotices(trace, j) { WantedFrom(trace, c, j); }
  }

  /** The child that should be alive and is not known to be lost. */
  function Counted(trace: seq<Act>): Option<nat>
  {
    var c := Wanted(trace);
    if c.Some? && Lost(c.value) in trace then None else c
  }

  /** A loss that reaches the controller late: a newer child counts by now. */
  predicate LateAt(trace: seq<Act>, k: nat)
    requires k < |trace|
  {
    trace[k].Delivered? && Counted(trace[..k]).Some?
  }

  /** The children that counted when a late loss arrived, which made the controller forget them. */
  function Forgotten(trace: seq<Act>): set<nat>
  {
    if trace == [] then {}
    else
      var n := |trace| - 1;
      Forgotten(trace[..n]) + if LateAt(trace, n) then {Counted(trace[..n]).value} else {}
  }

  predicate ForgetsAt(trace: seq<Act>, k: nat, c: nat)
    requires k < |trace|
  {
    LateAt(trace, k) && Counted(trace[..k]) == Some(c)
  }

  lemma {:induction false} ForgottenMeans(trace: seq<Act>, c: nat)
    ensures c in Forgotten(trace) <==> exists k :: 0 <= k < |trace| && ForgetsAt(trace, k, c)
  {
    if trace != [] {
      var n := |trace| - 1;
      var front := trace[..n];
      ForgottenMeans(front, c);
      forall k | 0 <= k < n ensures ForgetsAt(front, k, c) == ForgetsAt(trace, k, c) {
        assert front[..k] == trace[..k] && front[k] == trace[k];
      }
      if ForgetsAt(trace, n, c) { assert c in Forgotten(trace); }
    }
  }

  lemma ForgottenMore(trace: seq<Act>, a: Act)
    ensures Forgotten(trace + [a]) ==
            Forgotten(trace) + if a.Delivered? && Counted(trace).Some? then {Counted(trace).value} else {}
  {
    assert (trace + [a])[..|trace|] == trace;
  }

  /** A child reported lost has been waited for. */
  ghost predicate LossesReaped(trace: seq<Act>, spawned: nat, reapers: set<nat>)
  {
    forall c: nat :: Lost(c) in trace ==> c < spawned && c !in reapers
  }

  /** What goes on outside the locked sections. */
  datatype Step = Exit(child: nat) | Reap(child: nat)

  class Driver {
    var cmd: Option<nat>
    var expected: bool

    // The world: children by number, alive or gone, those a reaper waits for, and losses on
    // their way to the controller.
    var spawned: nat
    var running: set<nat>
    var reapers: set<nat>
    var killed: set<nat>
    var losses: seq<nat>

    ghost var trace: seq<Act>
    ghost var released: set<nat>

    ghost predicate Valid()
      reads this
    {
      && (cmd.Some? && expected ==> cmd.value in released)
      && (forall c :: c in running || c in reapers ==> c < spawned)
      && (cmd.Some? ==> cmd.value in reapers)
      && (cmd.Some? && !expected ==> Wanted(trace) == cmd)
      && (expected ==> Wanted(trace) == None)
      && LossesReaped(trace, spawned, reapers)
      && Honest(trace)
      && (Counted(trace).Some? ==> cmd == Counted(trace))
    }

    /** Each live child is the current one, was asked to exit, or was forgotten through a late loss. */
    ghost predicate Alone()
      reads this
    {
      forall c :: c in running && c in reapers ==> cmd == Some(c) || c in released || c in Forgotten(trace)
    }

    /** The driver counts on no child that the controller has not forgotten. */
    ghost predicate Idle()
      reads this
    {
      cmd == None || expected || cmd.value in Forgotten(trace)
    }

    /** A child that should be alive is either the driver's current one or a loss on its way. */
    ghost predicate Covered()
      reads this
    {
      Wanted(trace).Some? ==> cmd == Wanted(trace) || Wanted(trace).value in losses
    }

    constructor ()
      ensures Valid() && trace == [] && losses == [] && running == {} && killed == {} && Alone() && Idle()
      ensures spawned == 0
    {
      cmd, expected := None, false;
      spawned, running, reapers, killed, losses, trace, released := 0, {}, {}, {}, [], [], {};
    }

    /** The reaper of `c` once its wait is over: it reports only the driver's own, unreleased child. */
    method ReapChild(c: nat)
      requires Valid() && c in reapers && c !in running
      modifies this
      ensures Valid() && reapers == old(reapers) - {c}
      ensures running == old(running) && spawned == old(spawned) && killed == old(killed) && expected == old(expected)
      ensures released == old(released)
      ensures cmd == if old(cmd) == Some(c) then None else old(cmd)
      ensures trace == if old(cmd) == Some(c) && !old(expected) then old(trace) + [Lost(c)] else old(trace)
      ensures losses == if old(cmd) == Some(c) && !old(expected) then old(losses) + [c] else old(losses)
      ensures Wanted(trace) == old(Wanted(trace)) && Forgotten(trace) == old(Forgotten(trace))
    {
      reapers := reapers - {c};
      var report := false;
      if cmd == Some(c) {
        report := !expected;
        cmd := None;
      }
      if report {
        losses := losses + [c];
        HonestLoss(trace, c);
        OneMoreLoss(trace, spawned, reapers, c);
        ForgottenMore(trace, Lost(c));
        trace := trace + [Lost(c)];
      }
    }

    /** Children exiting and reapers getting their turn, in any order. */
    method World(steps: seq<Step>)
      requires Valid()
      modifies this
      ensures Valid() && spawned == old(spawned) && killed == old(killed) && expected == old(expected)
      ensures Wanted(trace) == old(Wanted(trace)) && Forgotten(trace) == old(Forgotten(trace))
      ensures old(Covered()) ==> Covered()
      ensures old(losses) <= losses
      ensures old(Alone()) ==> Alone()
      ensures old(Idle()) ==> Idle()
      ensures running <= old(running) && forall c :: c in old(running) && Exit(c) !in steps ==> c in running
      ensures reapers <= old(reapers)
      ensures forall c: nat :: Lost(c) in trace ==> Lost(c) in old(trace) || c in old(reapers)
    {
      for i := 0 to |steps|
        invariant Valid() && spawned == old(spawned) && killed == old(killed) && expected == old(expected)
        invariant Wanted(trace) == old(Wanted(trace)) && Forgotten(trace) == old(Forgotten(trace))
        invariant old(Covered()) ==> Covered()
        invariant old(losses) <= losses
        invariant old(Alone()) ==> Alone()
        invariant old(Idle()) ==> Idle()
        invariant running <= old(running) && forall c :: c in old(running) && Exit(c) !in steps ==> c in running
        invariant reapers <= old(reapers)
        invariant forall c: nat :: Lost(c) in trace ==> Lost(c) in old(trace) || c in old(reapers)
      {
        match steps[i]
        case Exit(c) => running := running - {c};
        case Reap(c) => if c in reapers && c !in running { ReapChild(c); }
      }
    }

    /**
     Starts a child, which may fail. Until the lock is taken the world goes on, and the new child
     may even exit, but its reaper starts only afterwards.
     */
    method Acquire(starts: bool, world: seq<Step>) returns (ok: bool)
      requires Valid()
      modifies this
      ensures Valid() && ok == starts
      ensures ok ==> cmd.Some? && cmd == Wanted(trace) && cmd.value == old(spawned) && !expected
      ensures old(losses) <= losses
      ensures old(Alone()) && old(Idle()) ==> Alone()
      ensures !ok && old(Idle()) ==> Idle()
      ensures forall c :: c in old(running) && Exit(c) !in world ==> c in running
      ensures ok && Exit(old(spawned)) !in world ==> old(spawned) in running
      ensures spawned == (if ok then old(spawned) + 1 else old(spawned)) && killed == old(killed)
      ensures !ok ==> Wanted(trace) == old(Wanted(trace)) && expected == old(expected) && (old(Covered()) ==> Covered())
    {
      if !starts {
        World(world);
        return false;
      }
      var c := spawned;
      spawned, running := spawned + 1, running + {c};
      World(world);
      Install(c);
      return true;
    }

    /** A started child becomes the current one and gets its reaper. */
    method Install(c: nat)
      requires Valid() && c < spawned && c !in reapers && Lost(c) !in trace
      modifies this`cmd, this`expected, this`reapers, this`trace
      ensures Valid() && cmd == Some(c) && cmd == Wanted(trace) && !expected
      ensures old(Alone()) && old(Idle()) ==> Alone()
    {
      cmd, expected, reapers := Some(c), false, reapers + {c};
      HonestAct(trace, Acquired(c));
      ForgottenMore(trace, Acquired(c));
      trace := trace + [Acquired(c)];
    }

    /** The `i`-th loss on its way reaches the controller. */
    method Notice(i: nat)
      requires Valid() && i < |losses|
      modifies this`losses, this`trace
      ensures Valid() && trace == old(trace + [Delivered(losses[i])]) && Wanted(trace) == old(Wanted(trace))
      ensures losses == old(losses[..i] + losses[i + 1..])
      ensures cmd.Some? && !expected <==> old(Counted(trace)).Some?
      ensures Forgotten(trace) == old(Forgotten(trace)) + if cmd.Some? && !expected then {cmd.value} else {}
    {
      var c := losses[i];
      HonestAct(trace, Delivered(c));
      NoticeCounts(trace, c);
      ForgottenMore(trace, Delivered(c));
      losses, trace := losses[..i] + losses[i + 1..], trace + [Delivered(c)];
    }

    /** Marks the current child as expected to exit, then kills it. */
    method Release(world: seq<Step>)
      requires Valid()
      modifies this
      ensures Valid() && expected && Wanted(trace) == None && Covered()
      ensures killed == if old(cmd).Some? then old(killed) + {old(cmd).value} else old(killed)
      ensures old(losses) <= losses && spawned == old(spawned)
      ensures old(Alone()) ==> Alone()
    {
      var current := cmd;
      expected := true;
      if current.Some? { released := released + {current.value}; }
      HonestAct(trace, Released);
      ForgottenMore(trace, Released);
      trace := trace + [Released];
      World(world);
      if current == None { return; }
      killed := killed + {current.value};
    }
  }

  lemma NoticeCounts(trace: seq<Act>, c: nat)
    ensures Counted(trace + [Delivered(c)]) == Counted(trace)
    ensures forall x: nat :: Lost(x) in trace + [Delivered(c)] <==> Lost(x) in trace
  {
    assert (trace + [Delivered(c)])[..|trace|] == trace;
  }

  lemma OneMoreLoss(trace: seq<Act>, spawned: nat, reapers: set<nat>, c: nat)
    requires LossesReaped(trace, spawned, reapers) && c < spawned && c !in reapers
    ensures LossesReaped(trace + [Lost(c)], spawned, reapers)
  {
  }

  lemma HonestLoss(trace: seq<Act>, c: nat)
    requires Honest(trace) && Wanted(trace) == Some(c) && Lost(c) !in trace
    ensures Honest(trace + [Lost(c)]) && Wanted(trace + [Lost(c)]) == Some(c)
  {
    var more := trace + [Lost(c)];
    assert more[..|trace|] == trace;
    forall k | 0 <= k < |more| ensures HonestAt(more, k) {
      if k < |trace| { assert HonestAt(trace, k) && more[..k] == trace[..k]; }
    }
  }

  lemma HonestAct(trace: seq<Act>, a: Act)
    requires Honest(trace) && !a.Lost?
    ensures Honest(trace + [a])
    ensures Wanted(trace + [a]) ==
            if a.Acquired? then Some(a.child) else if a.Released? then None else Wanted(trace)
  {
    var more := trace + [a];
    assert more[..|trace|] == trace;
    forall k | 0 <= k < |more| ensures HonestAt(more, k) {
      if k < |trace| { assert HonestAt(trace, k) && more[..k] == trace[..k]; }
    }
  }

  datatype Reason = Manual | Agent

  class Controller {
    const driver: Driver
    var reasons: set<Reason>
    var held: bool
    var failed: bool

    /** While the controller believes in its assertion, a child stands for it or its loss is on the way. */
    ghost predicate Valid()
      reads this, driver
    {
      && driver.Valid()
      && (held ==> reasons != {} && Wanted(driver.trace).Some? && driver.Covered())
    }

    /** What keeps children from piling up, but for those forgotten through a late loss. */
    ghost predicate Tidy()
      reads this, driver
    {
      driver.Alone() && (!held ==> driver.Idle())
    }

    /** The children that ran still run, and so does the new one, unless they exited in the meantime. */
    ghost predicate Gained(was: set<nat>, next: nat, started: bool, world: seq<Step>)
      reads driver
    {
      && (forall c :: c in was && Exit(c) !in world ==> c in driver.running)
      && (started ==> driver.spawned == next + 1)
      && (started && Exit(next) !in world ==> next in driver.running)
    }

    constructor (d: Driver)
      requires d.Valid()
      ensures Valid() && driver == d && reasons == {} && !held && !failed
    {
      driver, reasons, held, failed := d, {}, false, false;
    }

    /** Called only while nothing is recorded as held. */
    method AcquireLocked(starts: bool, world: seq<Step>)
      requires Valid() && !held && reasons != {}
      modifies this`held, this`failed, driver
      ensures Valid() && held == starts && failed == !starts
      ensures starts ==> driver.cmd == Some(old(driver.spawned)) && !driver.expected
      ensures old(Tidy()) ==> Tidy()
      ensures forall c :: c in old(driver.running) && Exit(c) !in world ==> c in driver.running
      ensures starts && Exit(old(driver.spawned)) !in world ==> old(driver.spawned) in driver.running
      ensures driver.spawned == (if starts then old(driver.spawned) + 1 else old(driver.spawned))
      ensures driver.killed == old(driver.killed)
      ensures old(driver.losses) <= driver.losses
    {
      var ok := driver.Acquire(starts, world);
      held, failed := ok, !ok;
    }

    /** Called only while something is recorded as held. */
    method ReleaseLocked(world: seq<Step>)
      requires driver.Valid() && held
      modifies this`held, this`failed, driver
      ensures Valid() && !held && !failed && driver.expected && Wanted(driver.trace) == None
      ensures driver.killed ==
              if old(driver.cmd).Some? then old(driver.killed) + {old(driver.cmd).value} else old(driver.killed)
      ensures old(driver.losses) <= driver.losses
      ensures old(driver.Alone()) ==> Tidy()
      ensures driver.spawned == old(driver.spawned)
    {
      driver.Release(world);
      held, failed := false, false;
    }

    /** Acquires or releases when the reasons and the record disagree, and otherwise touches nothing. */
    method SyncLocked(starts: bool, world: seq<Step>)
      requires driver.Valid() && (held ==> Wanted(driver.trace).Some? && driver.Covered())
      modifies this`held, this`failed, driver
      ensures Valid() && held == (reasons != {} && (old(held) || starts))
      ensures old(held) == (reasons != {}) ==> unchanged(driver) && failed == old(failed)
      ensures !old(held) && held ==> driver.cmd == Some(old(driver.spawned)) && !driver.expected
      ensures old(held) && !held ==> driver.expected && Wanted(driver.trace) == None
      ensures !old(held) ==>
              Gained(old(driver.running), old(driver.spawned), held, world) && driver.killed == old(driver.killed)
      ensures old(Tidy()) ==> Tidy()
    {
      var want := reasons != {};
      if want == held { return; }
      if want {
        AcquireLocked(starts, world);
      } else {
        ReleaseLocked(world);
      }
    }

    method Set(r: Reason, on: bool, starts: bool, world: seq<Step>)
      requires Valid()
      modifies this, driver
      ensures Valid() && reasons == if on then old(reasons) + {r} else old(reasons) - {r}
      ensures held == (reasons != {} && (old(held) || starts))
      ensures old(held) == (reasons != {}) ==> unchanged(driver) && failed == old(failed)
      ensures !old(held) && held ==> driver.cmd == Some(old(driver.spawned)) && !driver.expected
      ensures old(held) && !held ==> driver.expected && Wanted(driver.trace) == None
      ensures !old(held) ==>
              Gained(old(driver.running), old(driver.spawned), held, world) && driver.killed == old(driver.killed)
      ensures old(Tidy()) ==> Tidy()
    {
      if on { reasons := reasons + {r}; } else { reasons := reasons - {r}; }
      SyncLocked(starts, world);
    }

    /** Releases and acquires again while held; after a reported loss it does nothing. */
    method Rearm(starts: bool, first: seq<Step>, second: seq<Step>)
      requires Valid()
      modifies this, driver
      ensures Valid() && reasons == old(reasons) && held == (old(held) && starts)
      ensures !old(held) ==> unchanged(this) && unchanged(driver)
      ensures held ==>
              driver.cmd == Some(old(driver.spawned)) && !driver.expected && driver.spawned == old(driver.spawned) + 1
      ensures held && Exit(old(driver.spawned)) !in second ==> old(driver.spawned) in driver.running
      ensures old(driver.cmd) == None ==> driver.killed == old(driver.killed)
      ensures old(driver.losses) <= driver.losses
      ensures old(Tidy()) ==> Tidy()
    {
      if !held { return; }
      ReleaseLocked(first);
      AcquireLocked(starts, second);
    }

    method Close(world: seq<Step>)
      requires Valid()
      modifies this, driver
      ensures Valid() && !held && reasons == old(reasons)
      ensures old(held) ==> driver.expected && Wanted(driver.trace) == None
      ensures !old(held) ==> unchanged(this) && unchanged(driver)
      ensures old(Tidy()) ==> Tidy()
    {
      if held { ReleaseLocked(world); }
    }

    method ReportLost()
      requires Valid()
      modifies this`held, this`failed
      ensures Valid() && !held && failed
    {
      held, failed := false, true;
    }

    /** A loss reaches the controller; others may overtake it. */
    method Deliver(i: nat)
      requires Valid() && i < |driver.losses|
      modifies this, driver
      ensures Valid() && !held && failed && reasons == old(reasons)
      ensures driver.trace == old(driver.trace + [Delivered(driver.losses[i])])
      ensures driver.losses == old(driver.losses[..i] + driver.losses[i + 1..])
      ensures driver.cmd == old(driver.cmd) && driver.running == old(driver.running)
      ensures driver.spawned == old(driver.spawned)
      ensures driver.killed == old(driver.killed)
      ensures old(Tidy()) ==> Tidy()
      ensures driver.cmd.Some? && !driver.expected <==> Counted(old(driver.trace)).Some?
      ensures Forgotten(driver.trace) == old(Forgotten(driver.trace)) +
                if Counted(old(driver.trace)).Some? then {driver.cmd.value} else {}
    {
      ReportLost();
      driver.Notice(i);
    }
  }

  // ----- Whole runs

  datatype Event =
    | Set(r: Reason, on: bool, starts: bool, world: seq<Step>)
    | Rearm(starts: bool, first: seq<Step>, second: seq<Step>)
    | Close(world: seq<Step>)
    | Between(world: seq<Step>)
    | Deliver(loss: nat)

  /**
   In every interleaving, each loss the driver reports is of its current child, which no release
   asked to exit since its acquire, and no child is reported twice. While the controller records
   the assertion as held, the driver has the child it acquired last or that child's loss is on
   its way. Every live child is the current one, was asked to exit, or counted when a loss was
   delivered late; so without a late loss no live child is forgotten.
   */
  method Drive(c: Controller, events: seq<Event>)
    requires c.Valid() && c.Tidy() && c.driver.trace == []
    modifies c, c.driver
    ensures c.Valid() && Honest(c.driver.trace)
    ensures c.held ==> c.reasons != {} && Wanted(c.driver.trace).Some? && c.driver.Covered()
    ensures forall x :: x in c.driver.running && x in c.driver.reapers ==>
              || c.driver.cmd == Some(x) || x in c.driver.released
              || exists k :: 0 <= k < |c.driver.trace| && ForgetsAt(c.driver.trace, k, x)
  {
    for i := 0 to |events|
      invariant c.Valid() && c.Tidy()
    {
      match events[i]
      case Set(r, on, starts, world) => c.Set(r, on, starts, world);
      case Rearm(starts, first, second) => c.Rearm(starts, first, second);
      case Close(world) => c.Close(world);
      case Between(world) => c.driver.World(world);
      case Deliver(loss) =>
        if loss < |c.driver.losses| { c.Deliver(loss); }
    }
    forall x | x in c.driver.running && x in c.driver.reapers && x in Forgotten(c.driver.trace)
      ensures exists k :: 0 <= k < |c.driver.trace| && ForgetsAt(c.driver.trace, k, x)
    {
      ForgottenMeans(c.driver.trace, x);
    }
  }

  /** The first child dies unreleased and a rearm starts the second before its loss arrives. */
  method RearmBeforeLoss() returns (c: Controller)
    ensures fresh(c) && fresh(c.driver) && c.Valid() && |c.driver.losses| > 0
    ensures 1 in c.driver.running && c.driver.spawned == 2 && c.driver.killed == {}
  {
    var d := new Driver();
    c := new Controller(d);
    c.Set(Manual, true, true, []);
    d.running := d.running - {0};
    d.ReapChild(0);
    c.Rearm(true, [], []);
  }

  /**
   A late loss: the first child dies, a rearm starts the second, and only then the first one's
   loss arrives. The next set starts a third child beside the live second one, which nobody kills.
   */
  method LateLossLeavesTwo() returns (c: Controller)
    ensures c.Valid() && c.driver.cmd == Some(2) && {1, 2} <= c.driver.running && c.driver.killed == {}
  {
    c := RearmBeforeLoss();
    c.Deliver(0);
    c.Set(Agent, true, true, []);
  }
}
