/**
 The batcher's methods as sequential code. Each one, run without interruption, is a run of the
 steps of `BatcherProtocol`, so what is proved there for every interleaving holds for them.
 The ghost fields keep the protocol's history.
 */
module Batcher {
  import opened BatcherProtocol
  import opened Common

  /** The producer's steps of one uninterrupted `publish`. */
  function PublishSteps(p: Point): seq<Event> {
    [Publish(p), TryEnqueue, TryEvict, RetryEnqueue]
  }

  /** The flush loop's steps of draining `n` queued batches. */
  function DrainSteps(n: nat): seq<Event> {
    if n == 0 then [DrainEmpty] else [DrainTake, PublishDone] + DrainSteps(n - 1)
  }

  lemma {:induction false} RunAppend(c: Config, s: State, a: seq<Event>, b: seq<Event>)
    ensures Run(c, s, a + b) == Run(c, Run(c, s, a), b)
    decreases |b|
  {
    if b == [] {
      assert a + b == a;
    } else {
      var init, last := b[..|b| - 1], b[|b| - 1];
      SplitLast(a, b);
      RunAppend(c, s, a, init);
      RunSnoc(c, s, a + init, last);
      RunSnoc(c, Run(c, s, a), init, last);
    }
  }

  lemma {:induction false} RunPublish(c: Config, s: State, p: Point)
    ensures Run(c, s, PublishSteps(p))
         == Next(c, Next(c, Next(c, Next(c, s, Publish(p)), TryEnqueue), TryEvict), RetryEnqueue)
  {
    RunSnoc(c, s, [], Publish(p));
    RunSnoc(c, s, [Publish(p)], TryEnqueue);
    RunSnoc(c, s, [Publish(p), TryEnqueue], TryEvict);
    RunSnoc(c, s, [Publish(p), TryEnqueue, TryEvict], RetryEnqueue);
    assert [] + [Publish(p)] == [Publish(p)];
    assert [Publish(p)] + [TryEnqueue] == [Publish(p), TryEnqueue];
    assert [Publish(p), TryEnqueue] + [TryEvict] == [Publish(p), TryEnqueue, TryEvict];
    assert [Publish(p), TryEnqueue, TryEvict] + [RetryEnqueue] == PublishSteps(p);
  }

  lemma {:induction false} RunDrain(c: Config, s: State, n: nat)
    ensures Run(c, s, DrainSteps(n)) ==
            if n == 0 then Next(c, s, DrainEmpty)
            else Run(c, Next(c, Next(c, s, DrainTake), PublishDone), DrainSteps(n - 1))
  {
    if n == 0 {
      RunSnoc(c, s, [], DrainEmpty);
      assert [] + [DrainEmpty] == [DrainEmpty];
    } else {
      RunAppend(c, s, [DrainTake, PublishDone], DrainSteps(n - 1));
      RunSnoc(c, s, [], DrainTake);
      RunSnoc(c, s, [DrainTake], PublishDone);
      assert [] + [DrainTake] == [DrainTake] && [DrainTake] + [PublishDone] == [DrainTake, PublishDone];
    }
  }

  lemma {:induction false} DrainOne(c: Config, s: State)
    requires s.loop.Draining? && s.queue != []
    ensures Next(c, Next(c, s, DrainTake), PublishDone) == Pop(s, Handed(s.queue[0]))
  {
  }

  /** Nothing else than the queue, the loop and what has left is different. */
  predicate SameBut(s: State, t: State) {
    && t.buffer == s.buffer && t.section == s.section && t.stopped == s.stopped
    && t.rejected == s.rejected && t.dropped == s.dropped
  }

  lemma {:induction false} DrainNone(c: Config, s: State, t: State)
    requires s.loop.Draining? && s.queue == [] && t == Run(c, s, DrainSteps(0))
    ensures t == s.(loop := if s.loop.exiting then Exited else Flushing)
  {
    RunDrain(c, s, 0);
  }

  lemma {:induction false} DrainSome(c: Config, s: State, n: nat, t: State)
    requires s.loop.Draining? && s.queue != [] && n > 0 && t == Run(c, s, DrainSteps(n))
    ensures t == Run(c, Pop(s, Handed(s.queue[0])), DrainSteps(n - 1))
  {
    RunDrain(c, s, n);
    DrainOne(c, s);
  }

  /** Draining empties the queue and touches nothing else a producer can see. */
  lemma {:induction false} DrainEffect(c: Config, s: State, n: nat, t: State)
    requires s.loop.Draining? && |s.queue| == n && t == Run(c, s, DrainSteps(n))
    ensures t.queue == [] && SameBut(s, t) && t.loop == if s.loop.exiting then Exited else Flushing
    decreases n
  {
    if n == 0 {
      DrainNone(c, s, t);
    } else {
      DrainSome(c, s, n, t);
      DrainEffect(c, Pop(s, Handed(s.queue[0])), n - 1, t);
    }
  }

  /** What one uninterrupted `publish` does to the buffer, the queue and the counters. */
  lemma {:induction false} PublishEffect(c: Config, s: State, p: Point)
    requires c.Valid() && s.section == Free
    ensures var t := Run(c, s, PublishSteps(p));
            && t.section == Free && t.stopped == s.stopped
            && (s.stopped ==> t == s.(rejected := s.rejected + 1))
            && (!s.stopped ==> t.rejected == s.rejected)
            && (!s.stopped && |s.buffer| + 1 < c.batchSize ==>
                  t.buffer == s.buffer + [p] && t.queue == s.queue && t.dropped == s.dropped)
            && (!s.stopped && |s.buffer| + 1 >= c.batchSize ==> t.buffer == [] && EnqueueEffect(c, s, s.buffer + [p], t))
  {
    RunPublish(c, s, p);
    if !s.stopped && |s.buffer| + 1 >= c.batchSize {
      var s1 := Next(c, s, Publish(p));
      EnqueueSteps(c, s1, s.buffer + [p]);
    }
  }

  /** The queue after `batch` was offered to it, oldest out when full. */
  ghost predicate EnqueueEffect(c: Config, s: State, batch: Batch, t: State) {
    if |s.queue| < c.capacity then t.queue == s.queue + [batch] && t.dropped == s.dropped
    else if s.queue != [] && |s.queue| == c.capacity then t.queue == s.queue[1..] + [batch] && t.dropped == s.dropped + 1
    else true
  }

  lemma {:induction false} EnqueueSteps(c: Config, s: State, batch: Batch)
    requires c.Valid() && s.section == Enqueuing(batch)
    ensures var t := Next(c, Next(c, Next(c, s, TryEnqueue), TryEvict), RetryEnqueue);
            && t.section == Free && t.buffer == s.buffer && t.stopped == s.stopped && t.rejected == s.rejected
            && EnqueueEffect(c, s, batch, t)
  {
    var s1 := Next(c, s, TryEnqueue);
    if |s.queue| < c.capacity {
      assert s1.section == Free && Next(c, s1, TryEvict) == s1 && Next(c, s1, RetryEnqueue) == s1;
    } else {
      assert s1 == s.(section := Evicting(batch));
      assert Next(c, s1, TryEvict).section == Retrying(batch);
    }
  }

  class TransportBatcher {
    const c: Config
    var buffer: Batch
    var flushBatches: seq<Batch>
    var stopped: bool
    var publishRejected: nat
    var flushBatchesDropped: nat
    /** Every batch given to `publishWithRetryAndBuffer`, in order. */
    var sent: seq<Batch>
    ghost var history: State

    /** The fields are those of the protocol state, with no producer inside the critical section. */
    ghost predicate Valid()
      reads this
    {
      && c.Valid() && history.section == Free && |flushBatches| <= c.capacity
      && history.buffer == buffer && history.queue == flushBatches && history.stopped == stopped
      && history.rejected == publishRejected && history.dropped == flushBatchesDropped
    }

    constructor (c: Config)
      requires c.Valid()
      ensures Valid() && this.c == c && history == INIT && sent == []
    {
      this.c := c;
      buffer, flushBatches, stopped, publishRejected, flushBatchesDropped := [], [], false, 0, 0;
      sent, history := [], INIT;
    }

    /**
     Adds a point and, when that fills the batch, enqueues the batch, evicting the oldest pending
     one if the queue is full. Fails exactly when the batcher has been stopped.
     */
    method Publish(p: Point) returns (ok: bool)
      requires Valid()
      modifies this
      ensures Valid() && history == Run(c, old(history), PublishSteps(p))
      ensures ok == !old(stopped) && sent == old(sent)
    {
      PublishEffect(c, history, p);
      history := Run(c, history, PublishSteps(p));
      if stopped {
        publishRejected := publishRejected + 1;
        return false;
      }
      buffer := buffer + [p];
      if |buffer| < c.batchSize {
        return true;
      }
      var fullBatch := buffer;
      buffer := [];
      if |flushBatches| < c.capacity {
        flushBatches := flushBatches + [fullBatch];
        return true;
      }
      if |flushBatches| > 0 {
        flushBatches := flushBatches[1..];
        flushBatchesDropped := flushBatchesDropped + 1;
      }
      // The eviction made room, so the branch for a queue that is still full is never taken.
      assert |flushBatches| < c.capacity;
      flushBatches := flushBatches + [fullBatch];
      return true;
    }

    /** Publishes every queued batch in order. */
    method DrainFlushBatches()
      requires Valid() && history.loop.Draining?
      modifies `history, `flushBatches, `sent
      ensures Valid() && history == Run(c, old(history), DrainSteps(|old(flushBatches)|))
      ensures sent == old(sent) + old(flushBatches) && flushBatches == []
    {
      ghost var h := Run(c, history, DrainSteps(|flushBatches|));
      DrainEffect(c, history, |flushBatches|, h);
      history := h;
      ghost var q, before, k := flushBatches, sent, 0;
      while |flushBatches| > 0
        invariant history == h && 0 <= k <= |q|
        invariant flushBatches == q[k..] && sent == before + q[..k]
        decreases |flushBatches|
      {
        var batch := flushBatches[0];
        flushBatches := flushBatches[1..];
        sent := sent + [batch];
        k := k + 1;
      }
    }

    /** Publishes the partial buffer unless older batches are still queued. */
    method Flush()
      requires Valid() && history.loop == Flushing
      modifies this
      ensures Valid() && history == Next(c, Next(c, old(history), BatcherProtocol.Flush), PublishDone)
      ensures sent == old(sent) + (if old(buffer) == [] || old(flushBatches) != [] then [] else [old(buffer)])
    {
      history := Next(c, Next(c, history, BatcherProtocol.Flush), PublishDone);
      if |buffer| == 0 || |flushBatches| > 0 {
        return;
      }
      var batch := buffer;
      buffer := [];
      sent := sent + [batch];
    }

    /** The shutdown flush. */
    method FlushFinal()
      requires Valid() && history.stop == Joined
      modifies this
      ensures Valid() && history == Next(c, old(history), FinalFlush) && buffer == []
      ensures sent == old(sent) + (if old(buffer) == [] then [] else [old(buffer)])
    {
      history := Next(c, history, FinalFlush);
      if |buffer| == 0 {
        return;
      }
      var batch := buffer;
      buffer := [];
      sent := sent + [batch];
    }
  }
}
