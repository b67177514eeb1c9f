/**
 What a read of the latest-value cache gets done: from every reachable state in which the lock is free,
 a reader's own steps complete its call.
 */
module CacheProgress {
  import opened Common
  import opened CacheProtocol

  /** Nothing that a writer or another call sees is different. */
  predicate Quiet(s: State, u: State, t: Thread) {
    && u.hist == s.hist && u.pending == s.pending && u.returned == s.returned
    && forall x :: x in s.readers && x != t ==> x in u.readers && u.readers[x] == s.readers[x]
  }

  /** The reader holds the lock and fills copy `obj`. */
  predicate Fills(s: State, t: Thread, obj: nat) {
    && s.lock.Filling? && s.lock.holder == t && s.lock.obj == obj < |s.heap| && s.lock.todo <= Live(s).Keys
    && t in s.readers && s.readers[t].Slow?
  }

  lemma {:induction false} CopyStep(s: State, t: Thread, obj: nat, tag: Tag, u: State)
    requires Fills(s, t, obj) && tag in s.lock.todo && u == Next(s, Copy(t, tag))
    ensures Fills(u, t, obj) && u.lock.todo == s.lock.todo - {tag} && Quiet(s, u, t)
  {
  }

  /** Copies the tags that are left, one by one. */
  lemma {:induction false} FillAll(events: seq<Event>, s: State, t: Thread, obj: nat) returns (more: seq<Event>, u: State)
    requires s == Run(START, events) && Fills(s, t, obj)
    ensures events <= more && u == Run(START, more) && Fills(u, t, obj) && u.lock.todo == {} && Quiet(s, u, t)
    decreases |s.lock.todo|
  {
    if s.lock.todo == {} {
      more, u := events, s;
    } else {
      var tag :| tag in s.lock.todo;
      var next := Next(s, Copy(t, tag));
      CopyStep(s, t, obj, tag, next);
      RunSnoc(events, Copy(t, tag));
      more, u := FillAll(events + [Copy(t, tag)], next, t, obj);
    }
  }

  lemma {:induction false} AcquireStep(s: State, t: Thread, u: State)
    requires s.lock.Free? && t in s.readers && s.readers[t].Slow? && u == Next(s, Acquire(t))
    ensures Fills(u, t, |s.heap|) && Quiet(s, u, t)
  {
  }

  lemma {:induction false} FinishSteps(s: State, t: Thread, obj: nat, mid: State, u: State)
    requires Fills(s, t, obj) && s.lock.todo == {} && mid == Next(s, Publish(t)) && u == Next(mid, Clear(t))
    ensures t in u.readers && u.readers[t].Done? && u.readers[t].obj == obj && u.lock.Free? && !u.dirty
    ensures u.heap == s.heap && Quiet(s, u, t)
  {
  }

  lemma {:induction false} FilledIsLive(events: seq<Event>, s: State, t: Thread, obj: nat)
    requires s == Run(START, events) && Fills(s, t, obj) && s.lock.todo == {}
    ensures s.heap[obj] == Live(s)
  {
    RunKeepsInv(events);
  }

  /** A call that found the flag set, or no snapshot, returns the live map. */
  lemma {:induction false} SlowCompletes(events: seq<Event>, s: State, t: Thread) returns (more: seq<Event>, u: State)
    requires s == Run(START, events) && s.lock.Free? && t in s.readers && s.readers[t].Slow?
    ensures events <= more && u == Run(START, more) && Quiet(s, u, t) && u.lock.Free?
    ensures t in u.readers && u.readers[t].Done? && u.readers[t].obj < |u.heap| && u.heap[u.readers[t].obj] == Live(s)
  {
    var held := Next(s, Acquire(t));
    AcquireStep(s, t, held);
    RunSnoc(events, Acquire(t));
    var filled;
    more, filled := FillAll(events + [Acquire(t)], held, t, |s.heap|);
    FilledIsLive(more, filled, t, |s.heap|);
    var mid := Next(filled, Publish(t));
    u := Next(mid, Clear(t));
    FinishSteps(filled, t, |s.heap|, mid, u);
    RunSnoc(more, Publish(t));
    RunSnoc(more + [Publish(t)], Clear(t));
    more := more + [Publish(t)] + [Clear(t)];
  }

  lemma {:induction false} StartSteps(s: State, t: Thread, begun: State, u: State)
    requires (t in s.readers ==> s.readers[t].Done?) && begun == Next(s, Begin(t)) && u == Next(begun, LoadDirty(t))
    ensures t in u.readers && (if s.dirty then u.readers[t].Slow? else u.readers[t].Fast?)
    ensures u == s.(readers := u.readers) && Quiet(s, u, t)
  {
  }

  lemma {:induction false} SnapshotStep(s: State, t: Thread, u: State)
    requires t in s.readers && s.readers[t].Fast? && u == Next(s, LoadSnapshot(t))
    ensures t in u.readers && u == s.(readers := u.readers) && Quiet(s, u, t)
    ensures if s.snap.Some? then u.readers[t].Done? && u.readers[t].obj == s.snap.value else u.readers[t].Slow?
  {
  }

  /**
   From every reachable state with the lock free a read completes by its own steps, without changing
   what is live: with the flag clear it returns the published snapshot, otherwise, or if there is none
   yet, the live map.
   */
  lemma {:induction false} ReadCompletes(events: seq<Event>, s: State, t: Thread) returns (more: seq<Event>, u: State)
    requires s == Run(START, events) && s.lock.Free? && (t in s.readers ==> s.readers[t].Done?)
    ensures events <= more && u == Run(START, more) && Quiet(s, u, t) && u.lock.Free? && t in u.readers && u.readers[t].Done?
    ensures var obj := u.readers[t].obj;
            if s.dirty || s.snap.None? then obj < |u.heap| && u.heap[obj] == Live(s) else obj == s.snap.value
  {
    var begun := Next(s, Begin(t));
    var loaded := Next(begun, LoadDirty(t));
    StartSteps(s, t, begun, loaded);
    RunSnoc(events, Begin(t));
    RunSnoc(events + [Begin(t)], LoadDirty(t));
    more, u := events + [Begin(t)] + [LoadDirty(t)], loaded;
    if !s.dirty {
      var shown := Next(loaded, LoadSnapshot(t));
      SnapshotStep(loaded, t, shown);
      RunSnoc(more, LoadSnapshot(t));
      more, u := more + [LoadSnapshot(t)], shown;
    }
    if s.dirty || s.snap.None? {
      more, u := SlowCompletes(more, u, t);
    }
  }
}
