/**
 The coalescer: pushed items leave in batches, at a size threshold, on a timer, or at the end.

 A timer that was stopped too late still calls back. Timers are therefore a part of the model:
 an armed one may fire, after which its callback is due and can no longer be stopped.
 */
module Coalescer {
  import opened Prelude

  /** One call of the flush function. */
  datatype Batch<T, F> = Batch(items: seq<T>, done: bool, final: F)

  function Sent<T, F>(out: seq<Batch<T, F>>): seq<T>
  {
    if out == [] then [] else Sent(out[..|out| - 1]) + out[|out| - 1].items
  }

  function Total<T>(sizeOf: T -> int, items: seq<T>): int
  {
    if items == [] then 0 else Total(sizeOf, items[..|items| - 1]) + sizeOf(items[|items| - 1])
  }

  /** A batch leaves as soon as it is big enough: without its last item it was not. */
  predicate NotOverdue<T>(sizeOf: T -> int, maxSize: int, items: seq<T>)
  {
    |items| < 2 || Total(sizeOf, items[..|items| - 1]) < maxSize
  }

  lemma PushedTotal<T>(sizeOf: T -> int, maxSize: int, items: seq<T>, item: T)
    requires items != [] ==> Total(sizeOf, items) < maxSize
    ensures Total(sizeOf, items + [item]) == Total(sizeOf, items) + sizeOf(item)
    ensures NotOverdue(sizeOf, maxSize, items + [item])
  {
    assert (items + [item])[..|items|] == items;
  }

  lemma SentMore<T, F>(out: seq<Batch<T, F>>, b: Batch<T, F>)
    ensures Sent(out + [b]) == Sent(out) + b.items && Sent(out + [b]) + [] == Sent(out + [b])
  {
    assert (out + [b])[..|out|] == out;
  }

  class Coalescer<T, F> {
    const maxSize: int
    const sizeOf: T -> int
    const zero: F

    var pending: seq<T>
    var size: int
    var timer: Option<nat>
    var done: bool

    // The world: timers not fired yet, callbacks on their way, and what flush was called with.
    var armed: set<nat>
    var due: set<nat>
    var nextTimer: nat
    var out: seq<Batch<T, F>>

    ghost predicate Valid()
      reads this
    {
      Counted() && Timed() && WellSent() && (done ==> pending == [])
    }

    /** What is pending is too small to leave yet, and one item earlier it was too. */
    ghost predicate Counted()
      reads this
    {
      && size == Total(sizeOf, pending)
      && (pending != [] ==> size < maxSize)
      && NotOverdue(sizeOf, maxSize, pending)
    }

    /** Pending items have a timer, and its callback is still to come. */
    ghost predicate Timed()
      reads this
    {
      && (timer.Some? <==> pending != [])
      && (timer.Some? ==> timer.value in armed || timer.value in due)
      && TimersOk()
    }

    /** Every batch is partial and non-empty, except one final batch, which is the last. */
    ghost predicate WellSent()
      reads this
    {
      && (done <==> out != [] && out[|out| - 1].done)
      && forall i {:trigger Fits(out, done, i)} :: 0 <= i < |out| ==> Fits(out, done, i)
    }

    ghost predicate Fits(out: seq<Batch<T, F>>, done: bool, i: nat)
      requires i < |out|
    {
      NotOverdue(sizeOf, maxSize, out[i].items) && (i < |out| - 1 || !done ==> IsPartial(out[i]))
    }

    lemma FitsMore(out: seq<Batch<T, F>>, b: Batch<T, F>, done: bool)
      requires forall i {:trigger Fits(out, false, i)} :: 0 <= i < |out| ==> Fits(out, false, i)
      requires NotOverdue(sizeOf, maxSize, b.items) && (!done ==> IsPartial(b))
      ensures forall i {:trigger Fits(out + [b], done, i)} :: 0 <= i <= |out| ==> Fits(out + [b], done, i)
    {
      forall i | 0 <= i <= |out| ensures Fits(out + [b], done, i) {
        if i < |out| { assert Fits(out, false, i) && (out + [b])[i] == out[i]; }
      }
    }

    lemma AllFit()
      requires WellSent()
      ensures forall i :: 0 <= i < |out| ==> NotOverdue(sizeOf, maxSize, out[i].items)
      ensures forall i :: 0 <= i < |out| && (i < |out| - 1 || !done) ==> IsPartial(out[i])
    {
      forall i | 0 <= i < |out|
        ensures NotOverdue(sizeOf, maxSize, out[i].items) && (i < |out| - 1 || !done ==> IsPartial(out[i]))
      {
        assert Fits(out, done, i);
      }
    }

    ghost predicate IsPartial(b: Batch<T, F>) { !b.done && b.items != [] && b.final == zero }

    constructor (maxSize: int, sizeOf: T -> int, zero: F)
      ensures Valid() && out == [] && pending == [] && !done
      ensures this.maxSize == maxSize && this.sizeOf == sizeOf && this.zero == zero
    {
      this.maxSize, this.sizeOf, this.zero := maxSize, sizeOf, zero;
      pending, size, timer, done := [], 0, None, false;
      armed, due, nextTimer, out := {}, {}, 0, [];
    }

    /** Stopping an armed timer disarms it; one that has fired still calls back. */
    method FlushLocked(last: bool, final: F)
      modifies this
      ensures pending == [] && size == 0 && timer == None && done == old(done)
      ensures out == old(out) + [Batch(old(pending), last, final)]
      ensures armed == old(if timer.Some? then armed - {timer.value} else armed)
      ensures due == old(due) && nextTimer == old(nextTimer)
    {
      if timer.Some? {
        armed := armed - {timer.value};
        timer := None;
      }
      var batch := pending;
      pending, size := [], 0;
      out := out + [Batch(batch, last, final)];
    }

    ghost predicate TimersOk()
      reads this
    {
      && (forall t :: t in armed ==> t < nextTimer && t !in due)
      && (forall t :: t in due ==> t < nextTimer)
    }

    /** The pending items leave as one batch that is not the last. */
    method FlushPartial()
      requires WellSent() && TimersOk() && !done && pending != [] && NotOverdue(sizeOf, maxSize, pending)
      modifies this
      ensures Valid() && !done && pending == [] && due == old(due)
      ensures Sent(out) == old(Sent(out) + pending)
    {
      SentMore(out, Batch(pending, false, zero));
      FitsMore(out, Batch(pending, false, zero), false);
      FlushLocked(false, zero);
    }

    /** Starts the interval timer. */
    method Arm()
      requires Counted() && WellSent() && !done && pending != [] && timer == None
      requires TimersOk()
      modifies this`timer, this`armed, this`nextTimer
      ensures Valid()
    {
      timer := Some(nextTimer);
      armed := armed + {nextTimer};
      nextTimer := nextTimer + 1;
    }

    method Push(item: T)
      requires Valid()
      modifies this
      ensures Valid() && done == old(done)
      ensures old(done) ==> out == old(out) && pending == old(pending)
      ensures !old(done) ==> Sent(out) + pending == old(Sent(out) + pending) + [item]
    {
      if done { return; }
      ghost var before := pending;
      pending := pending + [item];
      size := size + sizeOf(item);
      PushedTotal(sizeOf, maxSize, before, item);
      Regroup(Sent(out), before, [item]);
      if size >= maxSize {
        FlushPartial();
        NothingAfter(Sent(out));
        return;
      }
      if timer == None { Arm(); }
    }

    /** The clock: an armed timer fires and its callback is on its way. */
    method Fire(t: nat)
      requires Valid()
      modifies this
      ensures Valid() && out == old(out) && pending == old(pending) && done == old(done)
      ensures t in old(armed) ==> t in due && t !in armed
    {
      if t in armed {
        armed, due := armed - {t}, due + {t};
      }
    }

    /** The callback of timer `t` gets its turn, however late; another timer may be armed by now. */
    method OnTimer(t: nat)
      requires Valid() && t in due
      modifies this
      ensures Valid() && done == old(done) && t !in due
      ensures old(done) ==> out == old(out)
      ensures pending == [] && Sent(out) == old(Sent(out) + pending)
    {
      due := due - {t};
      if done || |pending| == 0 {
        NothingAfter(Sent(out));
        return;
      }
      FlushPartial();
    }

    method Finish(final: F)
      requires Valid()
      modifies this
      ensures Valid() && done && pending == []
      ensures old(done) ==> out == old(out)
      ensures !old(done) ==>
              Sent(out) == old(Sent(out) + pending) && out == old(out) + [Batch(old(pending), true, final)]
    {
      if done { return; }
      SentMore(out, Batch(pending, true, final));
      FitsMore(out, Batch(pending, true, final), true);
      FlushLocked(true, final);
      done := true;
    }
  }

  // ----- Whole runs

  datatype Event<T, F> = Push(item: T) | Fire(timer: nat) | Callback(timer: nat) | Finish(final: F)

  /** The payload of the first finish. */
  function Finished<T, F>(events: seq<Event<T, F>>): Option<F>
  {
    if events == [] then None
    else
      var n := |events| - 1;
      if Finished(events[..n]).Some? then Finished(events[..n])
      else if events[n].Finish? then Some(events[n].final)
      else None
  }

  /** The items pushed before the first finish. */
  function Accepted<T, F>(events: seq<Event<T, F>>): seq<T>
  {
    if events == [] then []
    else
      var n := |events| - 1;
      Accepted(events[..n]) + if Finished(events[..n]).None? && events[n].Push? then [events[n].item] else []
  }

  ghost predicate StandsAfter<T, F>(c: Coalescer<T, F>, events: seq<Event<T, F>>)
    reads c
  {
    && c.Valid()
    && Sent(c.out) + c.pending == Accepted(events)
    && c.done == Finished(events).Some?
    && (c.done ==> c.out[|c.out| - 1].final == Finished(events).value)
  }

  method DriveOne<T, F>(c: Coalescer<T, F>, events: seq<Event<T, F>>, i: nat)
    requires i < |events| && StandsAfter(c, events[..i])
    modifies c
    ensures StandsAfter(c, events[..i + 1])
  {
    assert events[..i + 1][..i] == events[..i];
    NothingAfter(Accepted(events[..i]));
    match events[i]
    case Push(item) => c.Push(item);
    case Fire(t) => c.Fire(t);
    case Callback(t) =>
      if t in c.due {
        c.OnTimer(t);
        NothingAfter(Sent(c.out));
      }
    case Finish(final) =>
      c.Finish(final);
      NothingAfter(Sent(c.out));
  }

  /**
   Any interleaving of pushes, finishes, firing timers and late callbacks: what was flushed, then
   what is pending, is what was pushed before the finish, in order. After a finish all of it has
   been flushed and one final batch, the last, carries the payload; before it, pending items have
   a timer that is armed or whose callback is due. A run can contain `Fire` only of an armed timer
   and `Callback` only of a due one; other such events change nothing.
   */
  method Drive<T, F>(c: Coalescer<T, F>, events: seq<Event<T, F>>)
    requires c.Valid() && c.out == [] && c.pending == [] && !c.done
    modifies c
    ensures c.Valid()
    ensures Sent(c.out) + c.pending == Accepted(events)
    ensures Finished(events).Some? <==> c.out != [] && c.out[|c.out| - 1].done
    ensures Finished(events).Some? ==> c.pending == [] && c.out[|c.out| - 1].final == Finished(events).value
    ensures forall i :: 0 <= i < |c.out| && (i < |c.out| - 1 || Finished(events).None?) ==> c.IsPartial(c.out[i])
    ensures forall i :: 0 <= i < |c.out| ==> NotOverdue(c.sizeOf, c.maxSize, c.out[i].items)
    ensures c.pending != [] ==> c.armed + c.due != {}
  {
    for i := 0 to |events|
      invariant StandsAfter(c, events[..i])
    {
      DriveOne(c, events, i);
    }
    assert events[..|events|] == events;
    assert c.timer.Some? ==> c.timer.value in c.armed + c.due;
    c.AllFit();
  }
}
