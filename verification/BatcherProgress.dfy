/**
 What the flush loop and `stop` get done. The laws of `BatcherProtocol` say that nothing is lost or
 reordered; here, from every reachable state, the loop's own steps hand over what is waiting, and
 `stop` can run to its end.
 */
module BatcherProgress {
  import opened BatcherProtocol
  import opened Batcher

  lemma {:induction false} RunOne(c: Config, s: State, e: Event)
    ensures Run(c, s, [e]) == Next(c, s, e)
  {
    RunSnoc(c, s, [], e);
    assert [] + [e] == [e];
  }

  lemma {:induction false} RunTwo(c: Config, s: State, e1: Event, e2: Event)
    ensures Run(c, s, [e1, e2]) == Next(c, Next(c, s, e1), e2)
  {
    RunOne(c, s, e1);
    RunSnoc(c, s, [e1], e2);
    assert [e1] + [e2] == [e1, e2];
  }

  /** Two events after a run. */
  lemma {:induction false} RunOnTwo(c: Config, s0: State, es: seq<Event>, e1: Event, e2: Event)
    ensures Run(c, s0, es + [e1, e2]) == Next(c, Next(c, Run(c, s0, es), e1), e2)
  {
    RunAppend(c, s0, es, [e1, e2]);
    RunTwo(c, Run(c, s0, es), e1, e2);
  }

  /** As long as the loop has not gone, `stop` has not made its final flush. */
  lemma {:induction false} NoFinalYet(c: Config, es: seq<Event>, s: State)
    requires c.Valid() && s == Run(c, INIT, es) && s.loop != Exited
    ensures s.final == []
  {
    RunKeepsInv(c, es);
  }

  // ---------------------------------------------------------------------------
  // The select
  // ---------------------------------------------------------------------------

  lemma {:induction false} TakeStep(c: Config, s: State)
    requires s.loop == Waiting && s.queue != []
    ensures Next(c, Next(c, s, Take), PublishDone) == Pop(s, Handed(s.queue[0]))
  {
  }

  lemma {:induction false} PopDelivers(c: Config, s: State)
    requires s.queue != [] && s.final == []
    ensures Delivered(Pop(s, Handed(s.queue[0]))) == Delivered(s) + s.queue[0]
  {
    GoneSnoc(c, s.gone, Handed(s.queue[0]));
  }

  /** At its select with a batch waiting, the loop hands over exactly the oldest one and is back. */
  lemma {:induction false} TakeHandsOver(c: Config, es: seq<Event>, s: State, t: State)
    requires c.Valid() && s == Run(c, INIT, es) && s.loop == Waiting && s.queue != []
    requires t == Run(c, INIT, es + [Take, PublishDone])
    ensures t == s.(queue := s.queue[1..], gone := s.gone + [Handed(s.queue[0])])
    ensures Delivered(t) == Delivered(s) + s.queue[0]
  {
    NoFinalYet(c, es, s);
    RunOnTwo(c, INIT, es, Take, PublishDone);
    TakeStep(c, s);
    PopDelivers(c, s);
  }

  /** Nothing but the queue, the buffer, the loop and what has left is different. */
  predicate Alike(s: State, t: State) {
    && t.section == s.section && t.final == s.final && t.accepted == s.accepted && t.dropped == s.dropped
    && t.stop == s.stop && t.cancelled == s.cancelled
  }

  /** Draining hands over the whole queue, in order. */
  lemma {:induction false} DrainHandsOver(c: Config, s: State, n: nat, t: State)
    requires s.loop.Draining? && |s.queue| == n && t == Run(c, s, DrainSteps(n))
    ensures HandedOver(t.gone) == HandedOver(s.gone) + Concat(s.queue)
    ensures t.queue == [] && t.buffer == s.buffer && t.loop == (if s.loop.exiting then Exited else Flushing) && Alike(s, t)
    decreases n
  {
    if n == 0 {
      DrainNone(c, s, t);
    } else {
      var b, next := s.queue[0], Pop(s, Handed(s.queue[0]));
      DrainSome(c, s, n, t);
      DrainHandsOver(c, next, n - 1, t);
      GoneSnoc(c, s.gone, Handed(b));
      Regrouped(HandedOver(s.gone), b, Concat(s.queue[1..]));
    }
  }

  lemma {:induction false} Regrouped(x: seq<Point>, y: seq<Point>, z: seq<Point>)
    ensures (x + y) + z == x + (y + z)
  {
  }

  lemma {:induction false} FlushStep(c: Config, s: State)
    requires s.loop == Flushing && s.queue == [] && s.section == Free
    ensures Next(c, Next(c, s, Flush), PublishDone) ==
            if s.buffer == [] then s.(loop := Waiting)
            else s.(buffer := [], gone := s.gone + [Handed(s.buffer)], loop := Waiting)
  {
  }

  /** With nothing queued and no producer at work, a flush hands over the buffer and the loop is back. */
  lemma {:induction false} FlushHandsOver(c: Config, s: State, t: State)
    requires s.loop == Flushing && s.queue == [] && s.section == Free && t == Next(c, Next(c, s, Flush), PublishDone)
    ensures t.buffer == [] && t.queue == [] && t.loop == Waiting && Alike(s, t)
    ensures HandedOver(t.gone) == HandedOver(s.gone) + s.buffer
  {
    FlushStep(c, s);
    GoneSnoc(c, s.gone, Handed(s.buffer));
  }

  /** The loop's steps from a tick to its next select, with `n` batches queued. */
  function TickSteps(n: nat): seq<Event> {
    [Tick] + DrainSteps(n) + [Flush, PublishDone]
  }

  lemma {:induction false} TickRuns(c: Config, s: State, n: nat, ticked: State, drained: State)
    requires ticked == Next(c, s, Tick) && drained == Run(c, ticked, DrainSteps(n))
    ensures Run(c, s, TickSteps(n)) == Next(c, Next(c, drained, Flush), PublishDone)
  {
    RunOne(c, s, Tick);
    RunAppend(c, s, [Tick], DrainSteps(n));
    RunOnTwo(c, s, [Tick] + DrainSteps(n), Flush, PublishDone);
  }

  lemma {:induction false} TickFrom(c: Config, s: State, t: State)
    requires s.loop == Waiting && s.section == Free && t == Run(c, s, TickSteps(|s.queue|))
    ensures t.queue == [] && t.buffer == [] && t.loop == Waiting && Alike(s, t)
    ensures HandedOver(t.gone) == HandedOver(s.gone) + Concat(s.queue) + s.buffer
  {
    var ticked := s.(loop := Draining(false));
    var drained := Run(c, ticked, DrainSteps(|s.queue|));
    TickRuns(c, s, |s.queue|, ticked, drained);
    DrainHandsOver(c, ticked, |s.queue|, drained);
    FlushHandsOver(c, drained, t);
  }

  /** A tick with no producer at work hands over everything queued and then the buffer, in order. */
  lemma {:induction false} TickHandsOver(c: Config, es: seq<Event>, s: State, t: State)
    requires c.Valid() && s == Run(c, INIT, es) && s.loop == Waiting && s.section == Free
    requires t == Run(c, INIT, es + TickSteps(|s.queue|))
    ensures t.queue == [] && t.buffer == [] && t.loop == Waiting
    ensures Delivered(t) == Delivered(s) + Concat(s.queue) + s.buffer
    ensures t.accepted == s.accepted && t.dropped == s.dropped
  {
    NoFinalYet(c, es, s);
    RunAppend(c, INIT, es, TickSteps(|s.queue|));
    TickFrom(c, s, t);
  }

  // ---------------------------------------------------------------------------
  // The stop sequence
  // ---------------------------------------------------------------------------

  /** A producer's step leaves `stop` and the context alone; the steps in their order lead out of the section. */
  lemma {:induction false} ProducerSteps(c: Config, s: State, e: Event, t: State)
    requires e in {TryEnqueue, TryEvict, RetryEnqueue} && t == Next(c, s, e)
    ensures t.stop == s.stop && t.cancelled == s.cancelled
    ensures e == TryEnqueue ==> !t.section.Enqueuing?
    ensures e == TryEvict && !s.section.Enqueuing? ==> t.section.Free? || t.section.Retrying?
    ensures e == RetryEnqueue && (s.section.Free? || s.section.Retrying?) ==> t.section.Free?
  {
  }

  /** The producer inside the critical section gets out of it by its own steps. */
  lemma {:induction false} SectionEmpties(c: Config, s: State, t: State)
    requires t == Next(c, Next(c, Next(c, s, TryEnqueue), TryEvict), RetryEnqueue)
    ensures t.section == Free && t.stop == s.stop && t.cancelled == s.cancelled
  {
    var s1 := Next(c, s, TryEnqueue);
    var s2 := Next(c, s1, TryEvict);
    ProducerSteps(c, s, TryEnqueue, s1);
    ProducerSteps(c, s1, TryEvict, s2);
    ProducerSteps(c, s2, RetryEnqueue, t);
  }

  lemma {:induction false} PublishGoesBack(c: Config, s: State, t: State)
    requires t == Next(c, s, PublishDone)
    ensures !t.loop.Sending? && !t.loop.DrainSending? && t.section == s.section && t.stop == s.stop && t.cancelled == s.cancelled
  {
  }

  /** A publish in progress ends. */
  lemma {:induction false} PublishEnds(c: Config, s: State) returns (es: seq<Event>, t: State)
    requires s.section == Free
    ensures t == Run(c, s, es) && !t.loop.Sending? && !t.loop.DrainSending?
    ensures t.section == Free && t.stop == s.stop && t.cancelled == s.cancelled
  {
    es, t := [PublishDone], Next(c, s, PublishDone);
    RunOne(c, s, PublishDone);
    PublishGoesBack(c, s, t);
  }

  /** A drain in progress ends. */
  lemma {:induction false} DrainEnds(c: Config, s: State) returns (es: seq<Event>, t: State)
    requires s.section == Free && !s.loop.Sending? && !s.loop.DrainSending?
    ensures t == Run(c, s, es) && t.loop in {Waiting, Flushing, Exited} && (s.loop == Draining(true) ==> t.loop == Exited)
    ensures t.section == Free && t.stop == s.stop && t.cancelled == s.cancelled
  {
    if s.loop.Draining? {
      es, t := DrainSteps(|s.queue|), Run(c, s, DrainSteps(|s.queue|));
      DrainHandsOver(c, s, |s.queue|, t);
    } else {
      es, t := [], s;
    }
  }

  /** A flush in progress ends. */
  lemma {:induction false} FlushEnds(c: Config, s: State) returns (es: seq<Event>, t: State)
    requires s.section == Free && s.loop in {Waiting, Flushing, Exited}
    ensures t == Run(c, s, es) && t.loop in {Waiting, Exited}
    ensures t.section == Free && t.stop == s.stop && t.cancelled == s.cancelled
  {
    if s.loop == Flushing {
      es, t := [Flush, PublishDone], Next(c, Next(c, s, Flush), PublishDone);
      RunTwo(c, s, Flush, PublishDone);
      FlushGoesBack(c, s, t);
    } else {
      es, t := [], s;
    }
  }

  lemma {:induction false} FlushGoesBack(c: Config, s: State, t: State)
    requires s.loop == Flushing && s.section == Free && t == Next(c, Next(c, s, Flush), PublishDone)
    ensures t.loop == Waiting && t.section == Free && t.stop == s.stop && t.cancelled == s.cancelled
  {
  }

  /** At its select with the context cancelled the loop can exit. */
  lemma {:induction false} WaitEnds(c: Config, s: State) returns (es: seq<Event>, t: State)
    requires s.section == Free && s.cancelled && s.loop in {Waiting, Exited}
    ensures t == Run(c, s, es) && t.loop == Exited && t.section == Free && t.stop == s.stop
  {
    if s.loop == Waiting {
      var seen := s.(loop := Draining(true));
      var rest;
      RunOne(c, s, SeeCancel);
      rest, t := DrainEnds(c, seen);
      RunAppend(c, s, [SeeCancel], rest);
      es := [SeeCancel] + rest;
    } else {
      es, t := [], s;
    }
  }

  /** Once the context is cancelled the loop can exit, wherever it is. */
  lemma {:induction false} LoopExits(c: Config, s: State) returns (es: seq<Event>, t: State)
    requires s.section == Free && s.cancelled
    ensures t == Run(c, s, es) && t.loop == Exited && t.section == Free && t.stop == s.stop
  {
    var e1, s1 := PublishEnds(c, s);
    var e2, s2 := DrainEnds(c, s1);
    var e3, s3 := FlushEnds(c, s2);
    var e4;
    e4, t := WaitEnds(c, s3);
    RunAppend(c, s, e1, e2);
    RunAppend(c, s, e1 + e2, e3);
    RunAppend(c, s, e1 + e2 + e3, e4);
    es := e1 + e2 + e3 + e4;
  }

  lemma {:induction false} FlagAndCancel(c: Config, s: State, t: State)
    requires s.section == Free && (s.stop in {Cancelled, Joined, Finished} ==> s.cancelled)
    requires t == Next(c, Next(c, s, StopFlag), Cancel)
    ensures t.section == Free && t.cancelled && t.stop in {Cancelled, Joined, Finished}
  {
  }

  /** `stop` sets its flag as soon as no producer is at work, and cancels the context. */
  lemma {:induction false} StopCancels(c: Config, s: State) returns (es: seq<Event>, t: State)
    requires s.stop in {Cancelled, Joined, Finished} ==> s.cancelled
    ensures t == Run(c, s, es) && t.section == Free && t.cancelled && t.stop in {Cancelled, Joined, Finished}
  {
    var out := [TryEnqueue, TryEvict] + [RetryEnqueue];
    RunTwo(c, s, TryEnqueue, TryEvict);
    RunSnoc(c, s, [TryEnqueue, TryEvict], RetryEnqueue);
    var left := Run(c, s, out);
    SectionEmpties(c, s, left);
    RunOnTwo(c, s, out, StopFlag, Cancel);
    es, t := out + [StopFlag, Cancel], Next(c, Next(c, left, StopFlag), Cancel);
    FlagAndCancel(c, left, t);
  }

  lemma {:induction false} JoinAndFlush(c: Config, s: State)
    requires s.section == Free && s.loop == Exited && s.stop in {Cancelled, Joined, Finished}
    ensures Next(c, Next(c, s, Join), FinalFlush).stop == Finished
  {
  }

  lemma {:induction false} CancelledAfter(c: Config, es: seq<Event>, s: State)
    requires c.Valid() && s == Run(c, INIT, es)
    ensures s.stop in {Cancelled, Joined, Finished} ==> s.cancelled
  {
    RunKeepsInv(c, es);
  }

  /**
   From every reachable state `stop` can run to its end; what it leaves behind is the subject of
   `StopLeavesNothing`.
   */
  lemma {:induction false} StopFinishes(c: Config, es: seq<Event>) returns (more: seq<Event>)
    requires c.Valid()
    ensures Run(c, INIT, es + more).stop == Finished
  {
    var s := Run(c, INIT, es);
    CancelledAfter(c, es, s);
    more := StopFrom(c, s);
    RunAppend(c, INIT, es, more);
  }

  lemma {:induction false} StopFrom(c: Config, s: State) returns (more: seq<Event>)
    requires s.stop in {Cancelled, Joined, Finished} ==> s.cancelled
    ensures Run(c, s, more).stop == Finished
  {
    var first, t := StopCancels(c, s);
    var second, u := LoopExits(c, t);
    RunAppend(c, s, first, second);
    RunOnTwo(c, s, first + second, Join, FinalFlush);
    JoinAndFlush(c, u);
    more := first + second + [Join, FinalFlush];
  }
}
