/**
 One driver's latest-value cache under concurrency, as atomic steps. Writers change the live map
 under the lock and set the dirty flag afterwards, outside it. Readers return the published
 snapshot if the flag is clear, otherwise they copy the live map key by key under the lock,
 publish the copy and clear the flag.
 */
module CacheProtocol {
  import opened Common

  type Thread = nat
  type Tag = nat
  type Values = map<Tag, nat>

  function Put(values: Values, tag: Tag, value: nat): Values { values[tag := value] }

  /** A call of the reader; `floor` is the newest change whose writer had returned when it began. */
  datatype Reader = Begun(floor: nat) | Fast(floor: nat) | Slow(floor: nat) | Done(floor: nat, obj: nat)

  /** Who holds the lock: nobody, a reader filling the copy `obj`, or one that has published it. */
  datatype Lock = Free | Filling(holder: Thread, obj: nat, todo: set<Tag>) | Published(holder: Thread, obj: nat)

  /**
   `hist` is the live map after every change so far, its last element the live map itself. `heap`
   holds the copies ever made and `made` the position in `hist` each was made at. `pending` maps a
   writer between its change and its flag store to that change; `returned` is the newest change
   whose writer is through.
   */
  datatype State = State(
    hist: seq<Values>, dirty: bool, snap: Option<nat>, heap: seq<Values>, made: seq<nat>,
    lock: Lock, pending: map<Thread, nat>, returned: nat, readers: map<Thread, Reader>)

  datatype Event =
    | Write(t: Thread, tag: Tag, value: nat)
    | Delete(t: Thread, tag: Tag)
    | MarkDirty(t: Thread)
    | Begin(t: Thread)
    | LoadDirty(t: Thread)
    | LoadSnapshot(t: Thread)
    | Acquire(t: Thread)
    | Copy(t: Thread, tag: Tag)
    | Publish(t: Thread)
    | Clear(t: Thread)

  function Live(s: State): Values {
    if s.hist == [] then map[] else s.hist[|s.hist| - 1]
  }

  function Now(s: State): nat {
    if s.hist == [] then 0 else |s.hist| - 1
  }

  function Max(a: nat, b: nat): nat { if a < b then b else a }

  /** A writer's change of the live map, under the lock. */
  function Change(s: State, t: Thread, values: Values): State {
    if s.lock.Free? && t !in s.pending then s.(hist := s.hist + [values], pending := s.pending[t := |s.hist|]) else s
  }

  predicate Reads(s: State, t: Thread) { t in s.readers }

  /** One step; a step that is not possible in this state changes nothing. */
  function Next(s: State, e: Event): State {
    match e
    case Write(t, tag, value) => Change(s, t, Put(Live(s), tag, value))
    case Delete(t, tag) => Change(s, t, Live(s) - {tag})
    case MarkDirty(t) =>
      if t in s.pending
      then s.(dirty := true, returned := Max(s.returned, s.pending[t]), pending := s.pending - {t})
      else s
    case Begin(t) =>
      if Reads(s, t) && !s.readers[t].Done? then s else s.(readers := s.readers[t := Begun(s.returned)])
    case LoadDirty(t) =>
      if Reads(s, t) && s.readers[t].Begun?
      then s.(readers := s.readers[t := if s.dirty then Slow(s.readers[t].floor) else Fast(s.readers[t].floor)])
      else s
    case LoadSnapshot(t) =>
      if Reads(s, t) && s.readers[t].Fast?
      then s.(readers := s.readers[t := if s.snap.Some? then Done(s.readers[t].floor, s.snap.value) else Slow(s.readers[t].floor)])
      else s
    case Acquire(t) =>
      if Reads(s, t) && s.readers[t].Slow? && s.lock.Free?
      then s.(lock := Filling(t, |s.heap|, Live(s).Keys), heap := s.heap + [map[]], made := s.made + [Now(s)])
      else s
    case Copy(t, tag) =>
      if s.lock.Filling? && s.lock.holder == t && tag in s.lock.todo && tag in Live(s) && s.lock.obj < |s.heap|
      then s.(heap := s.heap[s.lock.obj := Put(s.heap[s.lock.obj], tag, Live(s)[tag])],
              lock := s.lock.(todo := s.lock.todo - {tag}))
      else s
    case Publish(t) =>
      if s.lock.Filling? && s.lock.holder == t && s.lock.todo == {}
      then s.(snap := Some(s.lock.obj), lock := Published(t, s.lock.obj))
      else s
    case Clear(t) =>
      if s.lock.Published? && s.lock.holder == t && Reads(s, t) && s.readers[t].Slow?
      then s.(dirty := false, lock := Free, readers := s.readers[t := Done(s.readers[t].floor, s.lock.obj)])
      else s
  }

  const START := State([map[]], false, None, [], [], Free, map[], 0, map[])

  function Run(s: State, events: seq<Event>): State {
    if events == [] then s else Next(Run(s, events[..|events| - 1]), events[|events| - 1])
  }

  // ---------------------------------------------------------------------------
  // Invariant
  // ---------------------------------------------------------------------------

  /** The newest change is returned or its writer has still to set the flag. */
  ghost predicate Changes(s: State) {
    && s.hist != [] && s.returned <= Now(s)
    && (forall t :: t in s.pending ==> s.pending[t] <= Now(s))
    && (s.returned == Now(s) || exists t :: t in s.pending && s.pending[t] == Now(s))
  }

  /** A copy that is not being filled any more. */
  predicate Finished(s: State, o: nat) {
    o < |s.heap| && !(s.lock.Filling? && s.lock.obj == o)
  }

  /** Copies are what the live map was when they were made; the one being filled is so up to `todo`. */
  ghost predicate Copies(s: State) {
    && |s.made| == |s.heap|
    && (forall o :: 0 <= o < |s.heap| ==> s.made[o] <= Now(s))
    && (forall o :: 0 <= o < |s.heap| && Finished(s, o) ==> s.made[o] < |s.hist| && s.heap[o] == s.hist[s.made[o]])
    && (s.lock.Filling? ==>
          && s.lock.obj < |s.heap| && s.made[s.lock.obj] == Now(s)
          && (forall k :: k in s.heap[s.lock.obj] <==> k in Live(s) && k !in s.lock.todo)
          && (forall k :: k in s.heap[s.lock.obj] && k in Live(s) ==> s.heap[s.lock.obj][k] == Live(s)[k]))
    && (s.lock.Published? ==> s.snap == Some(s.lock.obj) && s.lock.obj < |s.heap| && s.made[s.lock.obj] == Now(s))
    && (s.snap.Some? ==> Finished(s, s.snap.value))
  }

  /** How new the published snapshot is. */
  function SnapAge(s: State): nat {
    if s.snap.Some? && s.snap.value < |s.made| then s.made[s.snap.value] else 0
  }

  /** With the flag clear, every change that is newer than the snapshot has its writer still to set it. */
  ghost predicate Flag(s: State) {
    !s.dirty ==> s.returned <= SnapAge(s)
  }

  predicate ReaderOk(s: State, r: Reader) {
    match r
    case Begun(f) => f <= s.returned
    case Slow(f) => f <= s.returned
    case Fast(f) => f <= SnapAge(s)
    case Done(f, o) => Finished(s, o) && o < |s.made| && f <= s.made[o]
  }

  ghost predicate Readers(s: State) {
    forall t :: t in s.readers ==> ReaderOk(s, s.readers[t])
  }

  ghost predicate Inv(s: State) {
    Changes(s) && Copies(s) && Flag(s) && Readers(s)
  }

  lemma {:induction false} WriterKeepsChanges(s: State, t: Thread, values: Values)
    requires Changes(s)
    ensures Changes(Change(s, t, values))
  {
    var s' := Change(s, t, values);
    if s'.hist != s.hist {
      assert t in s'.pending && s'.pending[t] == Now(s');
    }
  }

  lemma {:induction false} ReturnKeepsChanges(s: State, t: Thread)
    requires Changes(s)
    ensures Changes(Next(s, MarkDirty(t)))
  {
    var s' := Next(s, MarkDirty(t));
    if s.returned != Now(s) {
      var w :| w in s.pending && s.pending[w] == Now(s);
      assert w in s'.pending || s'.returned == Now(s');
    }
  }

  /** Every step keeps the newest change returned or pending. */
  lemma {:induction false} NextKeepsChanges(s: State, e: Event)
    requires Changes(s)
    ensures Changes(Next(s, e))
  {
    match e
    case Write(t, tag, value) => WriterKeepsChanges(s, t, Put(Live(s), tag, value));
    case Delete(t, tag) => WriterKeepsChanges(s, t, Live(s) - {tag});
    case MarkDirty(t) => ReturnKeepsChanges(s, t);
    case _ => assert Next(s, e).hist == s.hist && Next(s, e).pending == s.pending && Next(s, e).returned == s.returned;
  }

  lemma {:induction false} WriterKeepsCopies(s: State, t: Thread, values: Values)
    requires Changes(s) && Copies(s)
    ensures Copies(Change(s, t, values))
  {
    var s' := Change(s, t, values);
    forall o | 0 <= o < |s'.heap| && Finished(s', o) ensures s'.made[o] < |s'.hist| && s'.heap[o] == s'.hist[s'.made[o]] {
      assert Finished(s, o);
    }
  }

  lemma {:induction false} AcquireKeepsCopies(s: State, t: Thread)
    requires Changes(s) && Copies(s)
    ensures Copies(Next(s, Acquire(t)))
  {
    var s' := Next(s, Acquire(t));
    forall o | 0 <= o < |s'.heap| && Finished(s', o) ensures s'.made[o] < |s'.hist| && s'.heap[o] == s'.hist[s'.made[o]] {
      if o < |s.heap| {
        assert Finished(s, o) && s'.heap[o] == s.heap[o] && s'.made[o] == s.made[o];
      }
    }
  }

  lemma {:induction false} CopyKeepsCopies(s: State, t: Thread, tag: Tag)
    requires Changes(s) && Copies(s)
    ensures Copies(Next(s, Copy(t, tag)))
  {
    var s' := Next(s, Copy(t, tag));
    forall o | 0 <= o < |s'.heap| && Finished(s', o) ensures s'.made[o] < |s'.hist| && s'.heap[o] == s'.hist[s'.made[o]] {
      assert Finished(s, o) && s'.heap[o] == s.heap[o];
    }
  }

  /** A copy with nothing left to fill is the live map. */
  lemma {:induction false} PublishKeepsCopies(s: State, t: Thread)
    requires Changes(s) && Copies(s)
    ensures Copies(Next(s, Publish(t)))
  {
    var s' := Next(s, Publish(t));
    if s.lock.Filling? && s.lock.todo == {} {
      assert s.heap[s.lock.obj] == Live(s);
    }
    forall o | 0 <= o < |s'.heap| && Finished(s', o) ensures s'.made[o] < |s'.hist| && s'.heap[o] == s'.hist[s'.made[o]] {
      if !(s.lock.Filling? && s.lock.obj == o) {
        assert Finished(s, o);
      }
    }
  }

  /** Every step keeps finished copies equal to the version they were made from. */
  lemma {:induction false} NextKeepsCopies(s: State, e: Event)
    requires Changes(s) && Copies(s)
    ensures Copies(Next(s, e))
  {
    match e
    case Write(t, tag, value) => WriterKeepsCopies(s, t, Put(Live(s), tag, value));
    case Delete(t, tag) => WriterKeepsCopies(s, t, Live(s) - {tag});
    case Acquire(t) => AcquireKeepsCopies(s, t);
    case Copy(t, tag) => CopyKeepsCopies(s, t, tag);
    case Publish(t) => PublishKeepsCopies(s, t);
    case _ => OthersKeepCopies(s, e);
  }

  lemma {:induction false} OthersKeepCopies(s: State, e: Event)
    requires Copies(s) && (e.MarkDirty? || e.Begin? || e.LoadDirty? || e.LoadSnapshot? || e.Clear?)
    ensures Copies(Next(s, e))
  {
    var s' := Next(s, e);
    forall o | 0 <= o < |s'.heap| && Finished(s', o) ensures s'.made[o] < |s'.hist| && s'.heap[o] == s'.hist[s'.made[o]] {
      assert Finished(s, o);
    }
  }

  lemma {:induction false} NextKeepsFlag(s: State, e: Event)
    requires Changes(s) && Copies(s) && Flag(s)
    ensures Flag(Next(s, e))
  {
  }

  /** A reader's own step leaves it in order. */
  lemma {:induction false} OwnStepOk(s: State, e: Event)
    requires Inv(s) && e.t in Next(s, e).readers
    ensures ReaderOk(Next(s, e), Next(s, e).readers[e.t])
  {
    if e.t in s.readers {
      assert ReaderOk(s, s.readers[e.t]);
    }
  }

  /** Another thread's step only makes changes returned, snapshots newer and copies finished. */
  lemma {:induction false} OtherStepOk(s: State, e: Event, r: Reader)
    requires Inv(s) && ReaderOk(s, r)
    ensures ReaderOk(Next(s, e), r)
  {
  }

  lemma {:induction false} NextKeepsReaders(s: State, e: Event)
    requires Inv(s)
    ensures Readers(Next(s, e))
  {
    var s' := Next(s, e);
    forall t | t in s'.readers ensures ReaderOk(s', s'.readers[t]) {
      if t == e.t {
        OwnStepOk(s, e);
      } else {
        OtherStepOk(s, e, s'.readers[t]);
      }
    }
  }

  lemma {:induction false} RunKeepsInv(events: seq<Event>)
    ensures Inv(Run(START, events))
  {
    if events != [] {
      var s, e := Run(START, events[..|events| - 1]), events[|events| - 1];
      RunKeepsInv(events[..|events| - 1]);
      NextKeepsChanges(s, e);
      NextKeepsCopies(s, e);
      NextKeepsFlag(s, e);
      NextKeepsReaders(s, e);
    }
  }

  // ---------------------------------------------------------------------------
  // Whole runs
  // ---------------------------------------------------------------------------

  /** With the flag clear and no writer on the way to it, the snapshot is the live map. */
  lemma {:induction false} CleanSnapshotIsLive(events: seq<Event>)
    requires var s := Run(START, events); !s.dirty && s.pending == map[] && s.snap.Some?
    ensures var s := Run(START, events); s.snap.value < |s.heap| && s.heap[s.snap.value] == Live(s)
  {
    RunKeepsInv(events);
    CleanIsLive(Run(START, events));
  }

  lemma {:induction false} CleanIsLive(s: State)
    requires Inv(s) && !s.dirty && s.pending == map[] && s.snap.Some?
    ensures s.snap.value < |s.heap| && s.heap[s.snap.value] == Live(s)
  {
    assert s.returned == Now(s);
    assert Finished(s, s.snap.value);
  }

  /**
   What a read returns is the live map as it was at one moment, and it holds every change whose
   writer had returned when the read began.
   */
  lemma {:induction false} ReadsAreFresh(events: seq<Event>, t: Thread)
    requires var s := Run(START, events); t in s.readers && s.readers[t].Done?
    ensures var s := Run(START, events); var r := s.readers[t];
            r.obj < |s.heap| && r.obj < |s.made| && r.floor <= s.made[r.obj] < |s.hist| && s.heap[r.obj] == s.hist[s.made[r.obj]]
  {
    RunKeepsInv(events);
    var s := Run(START, events);
    assert ReaderOk(s, s.readers[t]);
  }

  /** A read that begins after a writer has returned starts with that change or a newer one as its floor. */
  lemma {:induction false} BeginsAfterReturn(events: seq<Event>, w: Thread, later: seq<Event>, t: Thread)
    requires w in Run(START, events).pending
    requires var s := Run(START, events + [MarkDirty(w)] + later); t in s.readers ==> s.readers[t].Done?
    ensures var v := Run(START, events).pending[w];
            var s := Run(START, events + [MarkDirty(w)] + later + [Begin(t)]);
            t in s.readers && s.readers[t].Begun? && v <= s.readers[t].floor
  {
    var before := events + [MarkDirty(w)];
    RunSnoc(events, MarkDirty(w));
    ReturnedGrows(before, later);
    RunSnoc(before + later, Begin(t));
  }

  /** A call keeps its floor until it is begun anew. */
  lemma {:induction false} FloorStays(s: State, e: Event, t: Thread)
    requires t in s.readers && e != Begin(t)
    ensures t in Next(s, e).readers && Next(s, e).readers[t].floor == s.readers[t].floor
  {
  }

  lemma {:induction false} RunSnoc(events: seq<Event>, e: Event)
    ensures Run(START, events + [e]) == Next(Run(START, events), e)
  {
    assert (events + [e])[..|events|] == events;
  }

  lemma {:induction false} FloorKept(events: seq<Event>, later: seq<Event>, t: Thread, floor: nat)
    requires t in Run(START, events).readers && Run(START, events).readers[t].floor == floor
    requires forall i :: 0 <= i < |later| ==> later[i] != Begin(t)
    ensures t in Run(START, events + later).readers && Run(START, events + later).readers[t].floor == floor
    decreases |later|
  {
    if later == [] {
      assert events + later == events;
    } else {
      var before, e := later[..|later| - 1], later[|later| - 1];
      FloorKept(events, before, t, floor);
      RunSnoc(events + before, e);
      assert events + before + [e] == events + later;
      FloorStays(Run(START, events + before), e, t);
    }
  }

  /** With the update's thread `w` returned in `before`, a read begun after it and returned in `all` sees the update. */
  lemma {:induction false} ReadSeesUpdate(events: seq<Event>, w: Thread, between: seq<Event>, t: Thread, after: seq<Event>,
                                          before: seq<Event>, all: seq<Event>)
    requires w in Run(START, events).pending && before == events + [MarkDirty(w)] + between
    requires t in Run(START, before).readers ==> Run(START, before).readers[t].Done?
    requires all == before + [Begin(t)] + after && forall i :: 0 <= i < |after| ==> after[i] != Begin(t)
    requires t in Run(START, all).readers && Run(START, all).readers[t].Done?
    ensures var v, s := Run(START, events).pending[w], Run(START, all);
            var o := s.readers[t].obj;
            o < |s.heap| && o < |s.made| && v <= s.made[o] < |s.hist| && s.heap[o] == s.hist[s.made[o]]
  {
    BeginsAfterReturn(events, w, between, t);
    FloorKept(before + [Begin(t)], after, t, Run(START, before + [Begin(t)]).readers[t].floor);
    ReadsAreFresh(all, t);
  }

  lemma {:induction false} StepGrows(s: State, e: Event)
    ensures s.returned <= Next(s, e).returned && s.hist <= Next(s, e).hist
  {
  }

  /** Returned changes stay returned, and the past of the live map stays what it was. */
  lemma {:induction false} ReturnedGrows(events: seq<Event>, later: seq<Event>)
    ensures Run(START, events).returned <= Run(START, events + later).returned
    ensures Run(START, events).hist <= Run(START, events + later).hist
    decreases |later|
  {
    if later == [] {
      assert events + later == events;
    } else {
      var before := events + later[..|later| - 1];
      ReturnedGrows(events, later[..|later| - 1]);
      assert (events + later)[..|events + later| - 1] == before;
      StepGrows(Run(START, before), later[|later| - 1]);
    }
  }

  /** A write is the newest change until the next one, pending under its thread. */
  lemma {:induction false} WriteIsNewest(s: State, t: Thread, tag: Tag, value: nat)
    requires Changes(s) && s.lock.Free? && t !in s.pending
    ensures var s' := Next(s, Write(t, tag, value));
            t in s'.pending && s'.pending[t] == |s.hist| == |s'.hist| - 1 && s'.hist[|s.hist|] == s.hist[|s.hist| - 1][tag := value]
  {
  }

  /** So is a deletion, which takes out just its tag. */
  lemma {:induction false} DeleteIsNewest(s: State, t: Thread, tag: Tag, k: Tag)
    requires Changes(s) && s.lock.Free? && t !in s.pending
    ensures var s', was := Next(s, Delete(t, tag)), s.hist[|s.hist| - 1];
            && t in s'.pending && s'.pending[t] == |s.hist| == |s'.hist| - 1
            && (k in s'.hist[|s.hist|] <==> k in was && k != tag)
            && (k in s'.hist[|s.hist|] ==> s'.hist[|s.hist|][k] == was[k])
  {
  }

  /** No step touches a finished copy. */
  lemma {:induction false} CopiesStay(s: State, e: Event, o: nat)
    requires Copies(s) && Finished(s, o)
    ensures Finished(Next(s, e), o) && Next(s, e).heap[o] == s.heap[o]
  {
  }

  /** A snapshot that a read has returned never changes afterwards. */
  lemma {:induction false} ReturnedSnapshotsStay(events: seq<Event>, later: seq<Event>, o: nat)
    requires Finished(Run(START, events), o)
    ensures Finished(Run(START, events + later), o) && Run(START, events + later).heap[o] == Run(START, events).heap[o]
    decreases |later|
  {
    if later == [] {
      assert events + later == events;
    } else {
      var before, e := events + later[..|later| - 1], later[|later| - 1];
      ReturnedSnapshotsStay(events, later[..|later| - 1], o);
      assert (events + later)[..|events + later| - 1] == before;
      RunKeepsInv(before);
      CopiesStay(Run(START, before), e, o);
    }
  }
}
