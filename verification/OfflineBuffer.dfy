/**
 The offline buffer's methods and the retry loop that feeds it, as sequential code tied to the
 steps of `OfflineProtocol`. What the file system and the transport answer is passed in.
 */
module OfflineBuffer {
  import opened Common
  import opened OfflineProtocol

  /** Where a batch given to `publishWithRetryAndBuffer` ends up. */
  datatype Fate = Published | Buffered | BufferFailed | Dropped

  /** What the file system and the transport answer during a drain, by entry. */
  datatype Answers = Answers(content: nat -> Content, publish: nat -> bool, removable: nat -> bool)

  // ---------------------------------------------------------------------------
  // What a drain that nothing interrupts does to a directory
  // ---------------------------------------------------------------------------

  /** A batch of this transport that can be read. */
  predicate Own(d: Directory, source: nat, a: Answers, q: nat)
    requires q in d
  {
    a.content(q) == Whole && d[q].source == source
  }

  /** The entry does not stop the drain. */
  predicate Passes(d: Directory, source: nat, a: Answers, q: nat)
    requires q in d
  {
    a.content(q) != Unreadable && (Own(d, source, a, q) ==> a.publish(q))
  }

  /** No older entry stops the drain. */
  ghost predicate Reached(d: Directory, source: nat, a: Answers, q: nat) {
    forall x :: x in d && x < q ==> Passes(d, source, a, x)
  }

  predicate Sent(d: Directory, source: nat, a: Answers, q: nat)
    requires q in d
  {
    Own(d, source, a, q) && a.publish(q)
  }

  /** Its file is removed: replayed or not decodable, and removal succeeds. */
  predicate Gone(d: Directory, source: nat, a: Answers, q: nat)
    requires q in d
  {
    a.removable(q) && (a.content(q) == Corrupt || Sent(d, source, a, q))
  }

  /** The entries replayed: own ones that publish, with no older entry that stops the drain. */
  ghost function Replays(d: Directory, source: nat, a: Answers): set<nat> {
    set q | q in d && Reached(d, source, a, q) && Sent(d, source, a, q)
  }

  /** The entries gone afterwards; a replayed one that is not will be replayed again. */
  ghost function Removed(d: Directory, source: nat, a: Answers): set<nat> {
    set q | q in d && Reached(d, source, a, q) && Gone(d, source, a, q)
  }

  /** The drain comes upon an entry that cannot be read. */
  ghost predicate HitsUnreadable(d: Directory, source: nat, a: Answers) {
    exists q :: q in d && Reached(d, source, a, q) && a.content(q) == Unreadable
  }

  ghost function SentIn(d: Directory, seen: set<nat>, source: nat, a: Answers): set<nat> {
    set q | q in seen && q in d && Sent(d, source, a, q)
  }

  ghost function GoneIn(d: Directory, seen: set<nat>, source: nat, a: Answers): set<nat> {
    set q | q in seen && q in d && Gone(d, source, a, q)
  }

  /** The entries dealt with are the oldest and none stopped the drain. */
  ghost predicate Upward(d: Directory, seen: set<nat>, todo: set<nat>, source: nat, a: Answers) {
    && seen + todo == d.Keys
    && (forall x :: x in seen ==> x in d && Passes(d, source, a, x))
    && (forall x, y :: x in seen && y in todo ==> x < y)
  }

  /** A drain in progress. */
  ghost predicate SoFar(d: Directory, seen: set<nat>, todo: set<nat>, source: nat, a: Answers, dir: Directory, drained: nat) {
    Upward(d, seen, todo, source, a) && dir == d - GoneIn(d, seen, source, a) && drained == |SentIn(d, seen, source, a)|
  }

  datatype Outcome = ReadError | Discarded | Undecoded | Foreign | Replayed | Kept | Failed

  predicate Stops(o: Outcome) {
    o == ReadError || o == Failed
  }

  predicate Delivers(o: Outcome) {
    o == Replayed || o == Kept
  }

  /** What becomes of the oldest entry on the list. */
  function OutcomeOf(own: bool, a: Answers, q: nat): Outcome {
    match a.content(q)
    case Unreadable => ReadError
    case Corrupt => if a.removable(q) then Discarded else Undecoded
    case Whole => if !own then Foreign else if !a.publish(q) then Failed else if a.removable(q) then Replayed else Kept
  }

  lemma {:induction false} OutcomeMeans(d: Directory, source: nat, a: Answers, q: nat)
    requires q in d
    ensures var o := OutcomeOf(d[q].source == source, a, q);
            && (Stops(o) <==> !Passes(d, source, a, q)) && (Delivers(o) <==> Sent(d, source, a, q))
            && (o == Replayed || o == Discarded <==> Gone(d, source, a, q)) && (o == ReadError <==> a.content(q) == Unreadable)
  {
  }

  lemma {:induction false} GoneStep(d: Directory, seen: set<nat>, source: nat, a: Answers, q: nat)
    requires q in d && q !in seen
    ensures d - GoneIn(d, seen + {q}, source, a) ==
            if Gone(d, source, a, q) then (d - GoneIn(d, seen, source, a)) - {q} else d - GoneIn(d, seen, source, a)
  {
    if Gone(d, source, a, q) {
      assert GoneIn(d, seen + {q}, source, a) == GoneIn(d, seen, source, a) + {q};
    } else {
      assert GoneIn(d, seen + {q}, source, a) == GoneIn(d, seen, source, a);
    }
  }

  lemma {:induction false} SentStep(d: Directory, seen: set<nat>, source: nat, a: Answers, q: nat)
    requires q in d && q !in seen
    ensures |SentIn(d, seen + {q}, source, a)| == |SentIn(d, seen, source, a)| + if Sent(d, source, a, q) then 1 else 0
  {
    if Sent(d, source, a, q) {
      assert SentIn(d, seen + {q}, source, a) == SentIn(d, seen, source, a) + {q};
    } else {
      assert SentIn(d, seen + {q}, source, a) == SentIn(d, seen, source, a);
    }
  }

  /** The oldest entry on the list, when it does not stop the drain. */
  lemma {:induction false} SoFarStep(d: Directory, seen: set<nat>, todo: set<nat>, source: nat, a: Answers, dir: Directory, drained: nat, q: nat, o: Outcome)
    requires SoFar(d, seen, todo, source, a, dir, drained) && q in todo && q == Min(todo) && q in d
    requires o == OutcomeOf(d[q].source == source, a, q) && !Stops(o)
    ensures SoFar(d, seen + {q}, todo - {q}, source, a, if o == Replayed || o == Discarded then dir - {q} else dir,
                  if Delivers(o) then drained + 1 else drained)
  {
    OutcomeMeans(d, source, a, q);
    GoneStep(d, seen, source, a, q);
    SentStep(d, seen, source, a, q);
  }

  lemma {:induction false} StillThere(d: Directory, seen: set<nat>, todo: set<nat>, source: nat, a: Answers, dir: Directory, drained: nat, q: nat)
    requires SoFar(d, seen, todo, source, a, dir, drained) && q in todo
    ensures q in d && q in dir && dir[q] == d[q]
  {
  }

  /** A drain that is through, or stopped by the oldest entry on its list, has done all it will. */
  lemma {:induction false} DoneThere(d: Directory, seen: set<nat>, todo: set<nat>, source: nat, a: Answers)
    requires Upward(d, seen, todo, source, a)
    requires todo == {} || (Min(todo) in d && !Passes(d, source, a, Min(todo)))
    ensures Replays(d, source, a) == SentIn(d, seen, source, a) && Removed(d, source, a) == GoneIn(d, seen, source, a)
    ensures HitsUnreadable(d, source, a) <==> todo != {} && a.content(Min(todo)) == Unreadable
  {
    forall q | q in d ensures Reached(d, source, a, q) <==> q in seen || (todo != {} && q == Min(todo)) {
      if q in todo && q != Min(todo) {
        assert Min(todo) < q;
      }
    }
  }

  lemma {:induction false} RunStep(max: nat, s: State, es: seq<Event>, e: Event)
    requires max > 0
    ensures Run(max, s, es + [e]) == Next(max, Run(max, s, es), e)
  {
    assert (es + [e])[..|es|] == es;
  }

  lemma {:induction false} RunThree(max: nat, s: State, e1: Event, e2: Event, e3: Event)
    requires max > 0
    ensures Run(max, s, [e1]) == Next(max, s, e1)
    ensures Run(max, s, [e1, e2]) == Next(max, Next(max, s, e1), e2)
    ensures Run(max, s, [e1, e2, e3]) == Next(max, Next(max, Next(max, s, e1), e2), e3)
  {
    RunStep(max, s, [], e1);
    RunStep(max, s, [e1], e2);
    RunStep(max, s, [e1, e2], e3);
    assert [] + [e1] == [e1] && [e1] + [e2] == [e1, e2] && [e1, e2] + [e3] == [e1, e2, e3];
  }

  /** The steps of a drain that deals with the oldest entry of its list. */
  function EntrySteps(o: Outcome): seq<Event> {
    match o
    case ReadError => [DrainRead(Unreadable)]
    case Discarded => [DrainRead(Corrupt), DrainDiscard(true)]
    case Undecoded => [DrainRead(Corrupt), DrainDiscard(false)]
    case Foreign => [DrainRead(Whole)]
    case Replayed => [DrainRead(Whole), DrainResult(true), DrainRemove(true)]
    case Kept => [DrainRead(Whole), DrainResult(true), DrainRemove(false)]
    case Failed => [DrainRead(Whole), DrainResult(false)]
  }

  /** What those steps do. */
  ghost function AfterEntry(s: State, o: Outcome, seqNo: nat): State
    requires s.drain.Scanning? && seqNo in s.dir
  {
    var rest := s.drain.todo - {seqNo};
    match o
    case ReadError => FinishDrain(s)
    case Discarded =>
      s.(dir := s.dir - {seqNo}, corrupt := s.corrupt + {seqNo},
         drain := Scanning(s.drain.source, rest, s.drain.drained, s.drain.horizon))
    case Undecoded =>
      s.(corrupt := s.corrupt + {seqNo}, drain := Scanning(s.drain.source, rest, s.drain.drained, s.drain.horizon))
    case Foreign => s.(drain := Scanning(s.drain.source, rest, s.drain.drained, s.drain.horizon))
    case Failed => FinishDrain(s)
    case _ =>
      s.(dir := if o == Replayed then s.dir - {seqNo} else s.dir,
         replays := s.replays + [Replay(seqNo, s.drain.source, s.dir[seqNo])],
         drain := Scanning(s.drain.source, rest, s.drain.drained + 1, s.drain.horizon))
  }

  /** The outcome is one this entry can have: only an own batch is tried, only a foreign one skipped. */
  ghost predicate Fits(s: State, o: Outcome, seqNo: nat)
    requires s.drain.Scanning? && seqNo in s.dir
  {
    && (o == Foreign ==> s.dir[seqNo].source != s.drain.source)
    && (Delivers(o) || o == Failed ==> s.dir[seqNo].source == s.drain.source)
  }

  lemma {:induction false} DiscardStepsDo(max: nat, s: State, o: Outcome, seqNo: nat)
    requires max > 0 && s.drain.Scanning? && s.drain.todo != {} && seqNo == Min(s.drain.todo) && seqNo in s.dir
    requires o == Discarded || o == Undecoded
    ensures Run(max, s, EntrySteps(o)) == AfterEntry(s, o, seqNo)
  {
    RunThree(max, s, DrainRead(Corrupt), DrainDiscard(o == Discarded), DrainEnd);
  }

  lemma {:induction false} TryStepsDo(max: nat, s: State, o: Outcome, seqNo: nat)
    requires max > 0 && s.drain.Scanning? && s.drain.todo != {} && seqNo == Min(s.drain.todo) && seqNo in s.dir && Fits(s, o, seqNo)
    requires Delivers(o) || o == Failed
    ensures Run(max, s, EntrySteps(o)) == AfterEntry(s, o, seqNo)
  {
    RunThree(max, s, DrainRead(Whole), DrainResult(o != Failed), DrainRemove(o == Replayed));
  }

  lemma {:induction false} EntryStepsDo(max: nat, s: State, o: Outcome, seqNo: nat)
    requires max > 0 && s.drain.Scanning? && s.drain.todo != {} && seqNo == Min(s.drain.todo) && seqNo in s.dir && Fits(s, o, seqNo)
    ensures Run(max, s, EntrySteps(o)) == AfterEntry(s, o, seqNo)
  {
    match o
    case Discarded => DiscardStepsDo(max, s, o, seqNo);
    case Undecoded => DiscardStepsDo(max, s, o, seqNo);
    case ReadError => RunThree(max, s, DrainRead(Unreadable), DrainEnd, DrainEnd);
    case Foreign => RunThree(max, s, DrainRead(Whole), DrainEnd, DrainEnd);
    case _ => TryStepsDo(max, s, o, seqNo);
  }

  lemma {:induction false} RunTogether(max: nat, s: State, a: seq<Event>, b: seq<Event>)
    requires max > 0
    ensures Run(max, s, a + b) == Run(max, Run(max, s, a), b)
    decreases |b|
  {
    if b == [] {
      assert a + b == a;
    } else {
      var init, last := b[..|b| - 1], b[|b| - 1];
      SplitLast(a, b);
      RunTogether(max, s, a, init);
      RunStep(max, s, a + init, last);
      RunStep(max, Run(max, s, a), init, last);
    }
  }

  lemma {:induction false} PushIs(max: nat, s: State, entry: Entry, stuck: set<nat>, written: bool, kept: Directory, gone: set<nat>)
    requires max > 0 && entry.points > 0 && (kept, gone) == Evict(s.dir, s.dir.Keys, max, stuck)
    ensures DoPush(max, s, Push(entry, stuck, written)) == Store(s, kept, gone, entry, written)
  {
  }

  class Buffer {
    const maxEntries: nat
    var dir: Directory
    var nextSeq: nat
    var evictCount: nat
    var drainCount: nat
    ghost var history: State

    /** The fields are those of the protocol state between drains. */
    ghost predicate Valid()
      reads this
    {
      && maxEntries > 0 && history.drain.Idle?
      && history.dir == dir && history.nextSeq == nextSeq
      && history.evictCount == evictCount && history.drainCount == drainCount
    }

    /** Opens a directory; numbering continues after the highest number found there. */
    constructor (d: Directory, max: nat)
      requires max > 0
      ensures Valid() && maxEntries == max && dir == d
      ensures exists m :: IsMaxSeq(d, m) && history == Start(d, m)
    {
      var m, todo := 0, d.Keys;
      while todo != {}
        invariant todo <= d.Keys
        invariant forall q :: q in d && q !in todo ==> q <= m
        invariant m == 0 || m in d
        invariant m == 0 ==> forall q :: q in d && q !in todo ==> q == 0
        decreases |todo|
      {
        var q :| q in todo;
        todo := todo - {q};
        if q > m {
          m := q;
        }
      }
      maxEntries, dir, nextSeq, evictCount, drainCount := max, d, m + 1, 0, 0;
      history := Start(d, m);
      assert m == 0 && m !in d ==> d.Keys == {};
      assert IsMaxSeq(d, m);
    }

    /** Removes the oldest entries until there is room for one more. */
    method EvictIfNeeded(stuck: set<nat>) returns (ghost gone: set<nat>)
      requires maxEntries > 0
      modifies `dir, `evictCount
      ensures (dir, gone) == Evict(old(dir), old(dir).Keys, maxEntries, stuck)
      ensures evictCount == old(evictCount) + |gone|
    {
      var listed := dir.Keys;
      gone := {};
      while |listed| >= maxEntries
        invariant listed <= old(dir).Keys && gone !! listed
        invariant evictCount == old(evictCount) + |gone|
        invariant Evict(old(dir), old(dir).Keys, maxEntries, stuck).0 == Evict(dir, listed, maxEntries, stuck).0
        invariant Evict(old(dir), old(dir).Keys, maxEntries, stuck).1 == gone + Evict(dir, listed, maxEntries, stuck).1
        decreases |listed|
      {
        assert IsMin(listed, Min(listed));
        var oldest :| oldest in listed && forall x :: x in listed ==> oldest <= x;
        assert oldest == Min(listed);
        listed := listed - {oldest};
        if oldest !in stuck && oldest in dir {
          dir := dir - {oldest};
          evictCount := evictCount + 1;
          gone := gone + {oldest};
        }
      }
    }

    /** Writes a failed batch to disk, evicting the oldest entries when the buffer is full. */
    method Push(entry: Entry, stuck: set<nat>, written: bool) returns (ok: bool)
      requires Valid()
      modifies this
      ensures Valid() && history == DoPush(maxEntries, old(history), OfflineProtocol.Push(entry, stuck, written))
      ensures ok == (entry.points == 0 || written)
    {
      if entry.points == 0 {
        return true;
      }
      ghost var gone := EvictIfNeeded(stuck);
      PushIs(maxEntries, history, entry, stuck, written, dir, gone);
      history := Store(history, dir, gone, entry, written);
      var seqNo := nextSeq;
      nextSeq := nextSeq + 1;
      if !written {
        return false;
      }
      dir := dir[seqNo := entry];
      return true;
    }

    /** The directory and its counters are those of the protocol state, in the middle of a drain. */
    ghost predicate Scans(source: nat, todo: set<nat>, drained: nat)
      reads this
    {
      && maxEntries > 0 && history.dir == dir && history.nextSeq == nextSeq
      && history.evictCount == evictCount && history.drainCount == drainCount
      && history.drain.Scanning? && history.drain.source == source
      && history.drain.todo == todo && history.drain.drained == drained
    }

    /** Directory and counters agree with the protocol state but for what this drain replayed. */
    ghost predicate Agrees(drained: nat)
      reads this
    {
      && maxEntries > 0 && history.dir == dir && history.nextSeq == nextSeq
      && history.evictCount == evictCount && history.drainCount == drainCount + drained
    }

    /** Deals with the oldest entry on the list. */
    method ReplayOldest(source: nat, seqNo: nat, a: Answers, ghost todo: set<nat>, ghost drained: nat) returns (o: Outcome)
      requires Scans(source, todo, drained) && todo != {} && seqNo == Min(todo) && seqNo in dir
      modifies `dir, `history
      ensures o == OutcomeOf(old(dir)[seqNo].source == source, a, seqNo)
      ensures dir == if o == Replayed || o == Discarded then old(dir) - {seqNo} else old(dir)
      ensures history == Run(maxEntries, old(history), EntrySteps(o))
      ensures Stops(o) ==> history.drain.Idle? && Agrees(drained)
      ensures !Stops(o) ==> Scans(source, todo - {seqNo}, if Delivers(o) then drained + 1 else drained)
    {
      ghost var before := history;
      if a.content(seqNo) == Unreadable {
        o := ReadError;
      } else if a.content(seqNo) == Corrupt {
        if a.removable(seqNo) {
          dir := dir - {seqNo};
          o := Discarded;
        } else {
          o := Undecoded;
        }
      } else if dir[seqNo].source != source {
        o := Foreign;
      } else if !a.publish(seqNo) {
        o := Failed;
      } else if a.removable(seqNo) {
        dir := dir - {seqNo};
        o := Replayed;
      } else {
        o := Kept;
      }
      EntryStepsDo(maxEntries, before, o, seqNo);
      history := AfterEntry(before, o, seqNo);
    }

    /** Works through the list, oldest first, until it is done, an entry cannot be read or a publish fails. */
    method DrainList(source: nat, a: Answers) returns (drained: nat, last: Outcome, ghost es: seq<Event>)
      requires Scans(source, dir.Keys, 0)
      modifies `dir, `history
      ensures history == Run(maxEntries, old(history), es)
      ensures dir == old(dir) - Removed(old(dir), source, a) && drained == |Replays(old(dir), source, a)|
      ensures last == ReadError <==> HitsUnreadable(old(dir), source, a)
      ensures if Stops(last) then history.drain.Idle? && Agrees(drained) else Scans(source, {}, drained)
    {
      ghost var d, seen := dir, {};
      var todo := dir.Keys;
      drained, es, last := 0, [], Foreign;
      assert GoneIn(d, {}, source, a) == {} && SentIn(d, {}, source, a) == {} && d - {} == d;
      while todo != {}
        invariant SoFar(d, seen, todo, source, a, dir, drained)
        invariant Scans(source, todo, drained) && history == Run(maxEntries, old(history), es)
        invariant !Stops(last)
        decreases |todo|
      {
        assert IsMin(todo, Min(todo));
        var seqNo :| seqNo in todo && forall x :: x in todo ==> seqNo <= x;
        assert seqNo == Min(todo);
        StillThere(d, seen, todo, source, a, dir, drained, seqNo);
        OutcomeMeans(d, source, a, seqNo);
        ghost var before := dir;
        last := ReplayOldest(source, seqNo, a, todo, drained);
        RunTogether(maxEntries, old(history), es, EntrySteps(last));
        es := es + EntrySteps(last);
        if Stops(last) {
          DoneThere(d, seen, todo, source, a);
          return;
        }
        SoFarStep(d, seen, todo, source, a, before, drained, seqNo, last);
        if Delivers(last) {
          drained := drained + 1;
        }
        seen, todo := seen + {seqNo}, todo - {seqNo};
      }
      DoneThere(d, seen, todo, source, a);
    }

    /**
     Replays this transport's batches oldest first until a publish fails or an entry cannot be read,
     which alone is an error: a run of the protocol that nothing interrupts. A batch whose file does
     not go is counted and stays; a file that does not decode is removed and skipped.
     */
    method Drain(source: nat, a: Answers) returns (drained: nat, ok: bool, ghost es: seq<Event>)
      requires Valid()
      modifies `dir, `drainCount, `history
      ensures Valid() && history == Run(maxEntries, old(history), es)
      ensures dir == old(dir) - Removed(old(dir), source, a)
      ensures drained == |Replays(old(dir), source, a)| && drainCount == old(drainCount) + drained
      ensures ok <==> !HitsUnreadable(old(dir), source, a)
    {
      ghost var start := [DrainStart(source)];
      ghost var begun := Next(maxEntries, history, DrainStart(source));
      StartRun(maxEntries, history, source);
      history := begun;
      var last;
      drained, last, es := DrainList(source, a);
      RunTogether(maxEntries, old(history), start, es);
      es := start + es;
      if !Stops(last) {
        RunStep(maxEntries, old(history), es, DrainEnd);
        es := es + [DrainEnd];
        history := Next(maxEntries, history, DrainEnd);
      }
      drainCount := drainCount + drained;
      ok := last != ReadError;
    }
  }

  lemma {:induction false} StartRun(max: nat, s: State, source: nat)
    requires max > 0
    ensures Run(max, s, [DrainStart(source)]) == Next(max, s, DrainStart(source))
  {
    RunStep(max, s, [], DrainStart(source));
    assert [] + [DrainStart(source)] == [DrainStart(source)];
  }

  /**
   Publishes with up to `retryCount` retries; a cancelled context ends the retries. A batch that
   was not published goes to the offline buffer if there is one. `sent(i)` is whether attempt `i`
   succeeds, `cancelled(i)` whether the context is done in the pause after it.
   */
  method PublishWithRetryAndBuffer(retryCount: nat, sent: nat -> bool, cancelled: nat -> bool,
                                   buffer: Buffer?, entry: Entry, stuck: set<nat>, written: bool)
    returns (fate: Fate, attempts: nat)
    requires buffer != null ==> buffer.Valid()
    modifies buffer
    ensures buffer != null ==> buffer.Valid()
    ensures 1 <= attempts <= retryCount + 1
    ensures forall i :: 0 <= i < attempts - 1 ==> !sent(i) && !cancelled(i)
    ensures fate == Published <==> sent(attempts - 1)
    ensures fate != Published ==> attempts == retryCount + 1 || cancelled(attempts - 1)
    ensures buffer != null && fate == Published ==> buffer.history == old(buffer.history)
    ensures buffer != null && fate != Published ==>
              && buffer.history == DoPush(buffer.maxEntries, old(buffer.history), Push(entry, stuck, written))
              && fate == if entry.points == 0 || written then Buffered else BufferFailed
    ensures buffer == null && fate != Published ==> fate == Dropped
  {
    var maxAttempts := retryCount + 1;
    attempts := 0;
    while attempts < maxAttempts
      invariant attempts <= maxAttempts
      invariant forall i :: 0 <= i < attempts ==> !sent(i)
      invariant forall i :: 0 <= i < attempts && i < maxAttempts - 1 ==> !cancelled(i)
    {
      var attempt := attempts;
      attempts := attempts + 1;
      if sent(attempt) {
        return Published, attempts;
      }
      if attempt < maxAttempts - 1 && cancelled(attempt) {
        break;
      }
    }
    if buffer == null {
      return Dropped, attempts;
    }
    var ok := buffer.Push(entry, stuck, written);
    fate := if ok then Buffered else BufferFailed;
  }
}
