/**
 The batch delivery protocol of one transport as a state machine: producers that share a
 mutex, a bounded queue of full batches with oldest-eviction, one flush loop, a ticker and the
 stop sequence. An event is one atomic step of one goroutine; an event that is not enabled
 leaves the state alone, so every sequence of events is a run.
 */
module BatcherProtocol {

  type Point = int
  type Batch = seq<Point>

  datatype Config = Config(batchSize: nat, capacity: nat) {
    predicate Valid() { batchSize > 0 && capacity > 0 }
  }

  /** What became of a batch that left the queue or the buffer. */
  datatype Gone = Handed(batch: Batch) | Evicted(batch: Batch)

  /** A producer inside the critical section with a full batch in hand, before each channel operation. */
  datatype Section = Free | Enqueuing(batch: Batch) | Evicting(batch: Batch) | Retrying(batch: Batch)

  /**
   Where the flush loop is: at its select, publishing from there, emptying the queue, publishing
   from there, about to flush the buffer, or gone. `exiting` marks the shutdown drain.
   */
  datatype Loop = Waiting | Sending | Draining(exiting: bool) | DrainSending(exiting: bool) | Flushing | Exited

  datatype Stop = Running | Flagged | Cancelled | Joined | Finished

  /** `accepted`, `gone`, `final`, `late` and `early` record the history of the run. */
  datatype State = State(
    buffer: Batch, queue: seq<Batch>, section: Section, loop: Loop, stop: Stop,
    cancelled: bool, stopped: bool, rejected: nat, dropped: nat,
    accepted: seq<Point>,  // points `publish` took, in order
    gone: seq<Gone>,       // batches that left, in order
    final: Batch,          // what the shutdown flush handed over
    lost: seq<Point>,      // points of a new batch dropped because the queue was still full
    late: nat,             // batches enqueued after the flush loop had exited
    early: bool)           // the parent context was cancelled before `stop` set its flag

  const INIT := State([], [], Free, Waiting, Running, false, false, 0, 0, [], [], [], [], 0, false)

  datatype Event =
    | Publish(p: Point) | TryEnqueue | TryEvict | RetryEnqueue
    | Take | Tick | SeeCancel | DrainTake | DrainEmpty | PublishDone | Flush
    | StopFlag | Cancel | Join | FinalFlush | ParentCancel

  /** The head of the queue leaves it. */
  function Pop(s: State, g: Gone): State
    requires s.queue != []
  {
    s.(queue := s.queue[1..], gone := s.gone + [g])
  }

  function Push(s: State, b: Batch): State {
    s.(queue := s.queue + [b], section := Free, late := if s.loop == Exited then s.late + 1 else s.late)
  }

  /** `publish` up to the point where a full batch, if any, is about to be enqueued. */
  function DoPublish(c: Config, s: State, p: Point): State {
    if s.stopped then s.(rejected := s.rejected + 1)
    else
      var s' := s.(accepted := s.accepted + [p], buffer := s.buffer + [p]);
      if |s'.buffer| < c.batchSize then s' else s'.(section := Enqueuing(s'.buffer), buffer := [])
  }

  /** The producers' steps; only one producer is inside the critical section. */
  function Produce(c: Config, s: State, e: Event): State {
    match (e, s.section)
    case (Publish(p), Free) => DoPublish(c, s, p)
    case (TryEnqueue, Enqueuing(b)) =>
      if |s.queue| < c.capacity then Push(s, b) else s.(section := Evicting(b))
    case (TryEvict, Evicting(b)) =>
      if s.queue != [] then Pop(s, Evicted(s.queue[0])).(section := Retrying(b), dropped := s.dropped + 1)
      else s.(section := Retrying(b))
    case (RetryEnqueue, Retrying(b)) =>
      if |s.queue| < c.capacity then Push(s, b)
      else s.(section := Free, dropped := s.dropped + 1, lost := s.lost + b)
    case _ => s
  }

  /** The flush loop's steps. */
  function Consume(s: State, e: Event): State {
    match (e, s.loop)
    case (Take, Waiting) => if s.queue != [] then Pop(s, Handed(s.queue[0])).(loop := Sending) else s
    case (Tick, Waiting) => s.(loop := Draining(false))
    case (SeeCancel, Waiting) => if s.cancelled then s.(loop := Draining(true)) else s
    case (DrainTake, Draining(x)) => if s.queue != [] then Pop(s, Handed(s.queue[0])).(loop := DrainSending(x)) else s
    case (DrainEmpty, Draining(x)) => if s.queue == [] then s.(loop := if x then Exited else Flushing) else s
    case (PublishDone, Sending) => s.(loop := Waiting)
    case (PublishDone, DrainSending(x)) => s.(loop := Draining(x))
    case (Flush, Flushing) =>
      if s.section != Free then s
      else if s.buffer == [] || s.queue != [] then s.(loop := Waiting)
      else s.(buffer := [], gone := s.gone + [Handed(s.buffer)], loop := Sending)
    case _ => s
  }

  /** The steps of `stop`, and the parent context going away on its own. */
  function Shutdown(s: State, e: Event): State {
    match (e, s.stop)
    case (StopFlag, Running) => if s.section == Free then s.(stopped := true, stop := Flagged) else s
    case (Cancel, Flagged) => s.(cancelled := true, stop := Cancelled)
    case (Join, Cancelled) => if s.loop == Exited then s.(stop := Joined) else s
    case (FinalFlush, Joined) => if s.section == Free then s.(final := s.buffer, buffer := [], stop := Finished) else s
    case (ParentCancel, _) => s.(cancelled := true, early := s.early || !s.stopped)
    case _ => s
  }

  function Next(c: Config, s: State, e: Event): State {
    if e.Publish? || e.TryEnqueue? || e.TryEvict? || e.RetryEnqueue? then Produce(c, s, e)
    else if e.StopFlag? || e.Cancel? || e.Join? || e.FinalFlush? || e.ParentCancel? then Shutdown(s, e)
    else Consume(s, e)
  }

  function Run(c: Config, s: State, es: seq<Event>): State {
    if es == [] then s else Next(c, Run(c, s, es[..|es| - 1]), es[|es| - 1])
  }

  // ---------------------------------------------------------------------------
  // Where the points are
  // ---------------------------------------------------------------------------

  function Concat(bs: seq<Batch>): seq<Point> {
    if bs == [] then [] else bs[0] + Concat(bs[1..])
  }

  /** All points that left, in order of leaving. */
  function Left(gs: seq<Gone>): seq<Point> {
    if gs == [] then [] else Left(gs[..|gs| - 1]) + gs[|gs| - 1].batch
  }

  function HandedOver(gs: seq<Gone>): seq<Point> {
    if gs == [] then []
    else HandedOver(gs[..|gs| - 1]) + (if gs[|gs| - 1].Handed? then gs[|gs| - 1].batch else [])
  }

  function EvictedPoints(gs: seq<Gone>): seq<Point> {
    if gs == [] then []
    else EvictedPoints(gs[..|gs| - 1]) + (if gs[|gs| - 1].Evicted? then gs[|gs| - 1].batch else [])
  }

  function EvictedBatches(gs: seq<Gone>): nat {
    if gs == [] then 0 else EvictedBatches(gs[..|gs| - 1]) + (if gs[|gs| - 1].Evicted? then 1 else 0)
  }

  ghost predicate EvictedFull(c: Config, gs: seq<Gone>) {
    gs == [] || (EvictedFull(c, gs[..|gs| - 1]) && (gs[|gs| - 1].Evicted? ==> |gs[|gs| - 1].batch| == c.batchSize))
  }

  function InSection(x: Section): Batch {
    if x.Free? then [] else x.batch
  }

  /** The points handed to `publishWithRetryAndBuffer`, in order. */
  function Delivered(s: State): seq<Point> {
    HandedOver(s.gone) + s.final
  }

  // ---------------------------------------------------------------------------
  // The invariant
  // ---------------------------------------------------------------------------

  ghost predicate FullBatches(c: Config, bs: seq<Batch>) {
    forall i :: 0 <= i < |bs| ==> |bs[i]| == c.batchSize
  }

  ghost predicate Sizes(c: Config, s: State) {
    && FullBatches(c, s.queue) && |s.queue| <= c.capacity
    && |s.buffer| < c.batchSize
    && (!s.section.Free? ==> |s.section.batch| == c.batchSize)
    && (s.section.Retrying? ==> |s.queue| < c.capacity)
    && s.lost == []
  }

  /** Every drop counted so far is the eviction of one full batch. */
  ghost predicate Evictions(c: Config, s: State) {
    EvictedFull(c, s.gone) && EvictedBatches(s.gone) == s.dropped
  }

  /** Accepted points, oldest first: left, queued, in the section, in the final flush, buffered. */
  ghost predicate Split(s: State) {
    s.accepted == Left(s.gone) + Concat(s.queue) + InSection(s.section) + s.final + s.buffer
  }

  /** The loop is in, or on the way to, its exit. */
  predicate Leaving(l: Loop) {
    l == Exited || ((l.Draining? || l.DrainSending?) && l.exiting)
  }

  ghost predicate Phases(s: State) {
    && (s.stop != Running <==> s.stopped)
    && (s.stopped ==> s.section == Free)
    && (s.stop in {Cancelled, Joined, Finished} ==> s.cancelled)
    && (s.stop in {Joined, Finished} ==> s.loop == Exited)
    && (s.stop == Finished ==> s.buffer == [])
    && (s.stop != Finished ==> s.final == [])
    && (Leaving(s.loop) ==> s.cancelled)
    && (s.cancelled && !s.early ==> s.stopped)
    && (s.loop != Exited ==> s.late == 0)
    && (s.loop == Exited && s.late == 0 ==> s.queue == [])
    && (s.late > 0 ==> s.early && (s.queue != [] || s.section.Retrying?))
  }

  ghost predicate Inv(c: Config, s: State) {
    Sizes(c, s) && Evictions(c, s) && Split(s) && Phases(s)
  }

  lemma {:induction false} ConcatSnoc(bs: seq<Batch>, b: Batch)
    ensures Concat(bs + [b]) == Concat(bs) + b
  {
    if bs == [] {
      assert (bs + [b])[1..] == [];
    } else {
      ConcatSnoc(bs[1..], b);
      assert (bs + [b])[1..] == bs[1..] + [b];
    }
  }

  lemma {:induction false} GoneSnoc(c: Config, gs: seq<Gone>, g: Gone)
    ensures Left(gs + [g]) == Left(gs) + g.batch
    ensures HandedOver(gs + [g]) == HandedOver(gs) + (if g.Handed? then g.batch else [])
    ensures EvictedFull(c, gs + [g]) <==> EvictedFull(c, gs) && (g.Evicted? ==> |g.batch| == c.batchSize)
    ensures EvictedBatches(gs + [g]) == EvictedBatches(gs) + (if g.Evicted? then 1 else 0)
  {
    assert (gs + [g])[..|gs|] == gs;
  }

  /** The accepted points, oldest first, by where they are. */
  function Parts(left: seq<Point>, queued: seq<Point>, inSection: Batch, final: Batch, buffer: Batch): seq<Point> {
    left + queued + inSection + final + buffer
  }

  /** Points move from one place to the next without changing the order. */
  lemma {:induction false} PartsMove(left: seq<Point>, x: seq<Point>, queued: seq<Point>, inSection: Batch, final: Batch, buffer: Batch)
    ensures Parts(left + x, queued, inSection, final, buffer) == Parts(left, x + queued, inSection, final, buffer)
    ensures Parts(left, queued + x, [], final, buffer) == Parts(left, queued, x, final, buffer)
    ensures Parts(left, queued, x, [], []) == Parts(left, queued, [], [], x)
    ensures Parts(left + x, [], [], [], []) == Parts(left, [], [], [], x)
    ensures Parts(left, queued, inSection, final, buffer + x) == Parts(left, queued, inSection, final, buffer) + x
  {
  }

  /** A batch leaving the head of the queue stays in its place in the order. */
  lemma {:induction false} PopSplit(c: Config, s: State, g: Gone)
    requires Split(s) && s.queue != [] && g.batch == s.queue[0]
    ensures Split(Pop(s, g))
  {
    GoneSnoc(c, s.gone, g);
    PartsMove(Left(s.gone), g.batch, Concat(s.queue[1..]), InSection(s.section), s.final, s.buffer);
    assert Concat(s.queue) == g.batch + Concat(s.queue[1..]);
    assert s.accepted == Parts(Left(s.gone), Concat(s.queue), InSection(s.section), s.final, s.buffer);
    assert Pop(s, g).accepted == Parts(Left(s.gone) + g.batch, Concat(s.queue[1..]), InSection(s.section), s.final, s.buffer);
  }

  /** A batch enqueued from the section stays in its place in the order. */
  lemma {:induction false} PushSplit(s: State)
    requires Split(s) && !s.section.Free?
    ensures Split(Push(s, s.section.batch))
  {
    var b := s.section.batch;
    ConcatSnoc(s.queue, b);
    PartsMove(Left(s.gone), b, Concat(s.queue), [], s.final, s.buffer);
    assert s.accepted == Parts(Left(s.gone), Concat(s.queue), b, s.final, s.buffer);
    assert Push(s, b).accepted == Parts(Left(s.gone), Concat(s.queue) + b, [], s.final, s.buffer);
  }

  /** A buffer handed over while nothing older is queued or in the section stays in its place. */
  lemma {:induction false} FlushSplit(c: Config, s: State)
    requires Split(s) && s.queue == [] && s.section == Free && s.final == []
    ensures Split(s.(buffer := [], gone := s.gone + [Handed(s.buffer)]))
  {
    GoneSnoc(c, s.gone, Handed(s.buffer));
    PartsMove(Left(s.gone), s.buffer, [], [], [], []);
    assert s.accepted == Parts(Left(s.gone), [], [], [], s.buffer);
  }

  /** A point accepted is the newest of the buffer, or of the batch it fills. */
  lemma {:induction false} PublishSplit(c: Config, s: State, p: Point)
    requires Split(s) && s.section == Free && (!s.stopped ==> s.final == [])
    ensures Split(DoPublish(c, s, p))
  {
    PartsMove(Left(s.gone), [p], Concat(s.queue), [], [], s.buffer);
    PartsMove(Left(s.gone), s.buffer + [p], Concat(s.queue), [], [], []);
    assert s.accepted == Parts(Left(s.gone), Concat(s.queue), [], s.final, s.buffer);
    if !s.stopped {
      var s' := DoPublish(c, s, p);
      assert s'.accepted == Parts(Left(s.gone), Concat(s.queue), [], [], s.buffer + [p]);
      assert s'.gone == s.gone && s'.queue == s.queue && s'.final == [];
    }
  }

  lemma {:induction false} SectionSplit(s: State, x: Section, dropped: nat)
    requires Split(s) && InSection(x) == InSection(s.section)
    ensures Split(s.(section := x)) && Split(s.(section := x, dropped := dropped))
  {
  }

  lemma {:induction false} EnqueueSplit(c: Config, s: State)
    requires Split(s) && s.section.Enqueuing?
    ensures Split(Produce(c, s, TryEnqueue))
  {
    PushSplit(s);
    SectionSplit(s, Evicting(s.section.batch), 0);
  }

  lemma {:induction false} EvictSplit(c: Config, s: State)
    requires Split(s) && s.section.Evicting?
    ensures Split(Produce(c, s, TryEvict))
  {
    var b := s.section.batch;
    if s.queue != [] {
      var t := Pop(s, Evicted(s.queue[0]));
      PopSplit(c, s, Evicted(s.queue[0]));
      SectionSplit(t, Retrying(b), s.dropped + 1);
    } else {
      SectionSplit(s, Retrying(b), 0);
    }
  }

  lemma {:induction false} RetrySplit(c: Config, s: State)
    requires Split(s) && s.section.Retrying? && |s.queue| < c.capacity
    ensures Split(Produce(c, s, RetryEnqueue))
  {
    PushSplit(s);
  }

  lemma {:induction false} ProduceSplit(c: Config, s: State, e: Event)
    requires Split(s) && (!s.stopped ==> s.final == []) && (s.section.Retrying? ==> |s.queue| < c.capacity)
    ensures Split(Produce(c, s, e))
  {
    match (e, s.section)
    case (Publish(p), Free) => PublishSplit(c, s, p);
    case (TryEnqueue, Enqueuing(_)) => EnqueueSplit(c, s);
    case (TryEvict, Evicting(_)) => EvictSplit(c, s);
    case (RetryEnqueue, Retrying(_)) => RetrySplit(c, s);
    case _ => assert Produce(c, s, e) == s;
  }

  lemma {:induction false} ProduceSizes(c: Config, s: State, e: Event)
    requires c.Valid() && Sizes(c, s)
    ensures Sizes(c, Produce(c, s, e))
  {
  }

  lemma {:induction false} EvictStep(c: Config, s: State)
    requires s.section.Evicting? && s.queue != []
    ensures Produce(c, s, TryEvict).gone == s.gone + [Evicted(s.queue[0])]
    ensures Produce(c, s, TryEvict).dropped == s.dropped + 1
  {
  }

  lemma {:induction false} EvictionCounts(c: Config, s: State)
    requires s.section.Evicting? && s.queue != [] && |s.queue[0]| == c.batchSize && Evictions(c, s)
    ensures Evictions(c, Produce(c, s, TryEvict))
  {
    EvictStep(c, s);
    GoneSnoc(c, s.gone, Evicted(s.queue[0]));
  }

  lemma {:induction false} OnlyEvictionCounts(c: Config, s: State, e: Event)
    requires Sizes(c, s) && !(e.TryEvict? && s.section.Evicting? && s.queue != [])
    ensures Produce(c, s, e).gone == s.gone && Produce(c, s, e).dropped == s.dropped
  {
  }

  lemma {:induction false} ProduceEvictions(c: Config, s: State, e: Event)
    requires Sizes(c, s) && Evictions(c, s)
    ensures Evictions(c, Produce(c, s, e))
  {
    if e.TryEvict? && s.section.Evicting? && s.queue != [] {
      EvictionCounts(c, s);
    } else {
      OnlyEvictionCounts(c, s, e);
    }
  }

  lemma {:induction false} ProducePhases(c: Config, s: State, e: Event)
    requires c.Valid() && Inv(c, s)
    ensures Phases(Produce(c, s, e))
  {
  }

  lemma {:induction false} LoopSplit(s: State, l: Loop)
    requires Split(s)
    ensures Split(s.(loop := l))
  {
  }

  lemma {:induction false} TakeSplit(c: Config, s: State, l: Loop)
    requires Split(s) && s.queue != []
    ensures Split(Pop(s, Handed(s.queue[0])).(loop := l))
  {
    PopSplit(c, s, Handed(s.queue[0]));
    LoopSplit(Pop(s, Handed(s.queue[0])), l);
  }

  lemma {:induction false} FlushStepSplit(c: Config, s: State)
    requires Split(s) && s.loop == Flushing && s.final == []
    ensures Split(Consume(s, Flush))
  {
    LoopSplit(s, Waiting);
    if s.section == Free && s.buffer != [] && s.queue == [] {
      FlushSplit(c, s);
      LoopSplit(s.(buffer := [], gone := s.gone + [Handed(s.buffer)]), Sending);
    }
  }

  lemma {:induction false} ConsumeSplit(c: Config, s: State, e: Event)
    requires Split(s) && (s.loop == Flushing ==> s.final == [])
    ensures Split(Consume(s, e))
  {
    match (e, s.loop)
    case (Take, Waiting) => if s.queue != [] { TakeSplit(c, s, Sending); }
    case (DrainTake, Draining(x)) => if s.queue != [] { TakeSplit(c, s, DrainSending(x)); }
    case (Flush, Flushing) => FlushStepSplit(c, s);
    case _ => LoopSplit(s, Consume(s, e).loop);
  }

  lemma {:induction false} ConsumeSizes(c: Config, s: State, e: Event)
    requires c.Valid() && Sizes(c, s)
    ensures Sizes(c, Consume(s, e))
  {
  }

  /** The flush loop drops nothing; what leaves by it is handed over. */
  lemma {:induction false} ConsumeHands(s: State, e: Event) returns (b: Batch)
    ensures Consume(s, e).dropped == s.dropped
    ensures Consume(s, e).gone == s.gone || Consume(s, e).gone == s.gone + [Handed(b)]
  {
    b := if s.queue != [] then s.queue[0] else s.buffer;
  }

  lemma {:induction false} ConsumeEvictions(c: Config, s: State, e: Event)
    requires Evictions(c, s)
    ensures Evictions(c, Consume(s, e))
  {
    var b := ConsumeHands(s, e);
    GoneSnoc(c, s.gone, Handed(b));
  }

  lemma {:induction false} ConsumePhases(c: Config, s: State, e: Event)
    requires Phases(s)
    ensures Phases(Consume(s, e))
  {
  }

  lemma {:induction false} ShutdownKeeps(c: Config, s: State, e: Event)
    requires Inv(c, s)
    ensures Inv(c, Shutdown(s, e))
  {
  }

  lemma {:induction false} NextKeepsInv(c: Config, s: State, e: Event)
    requires c.Valid() && Inv(c, s)
    ensures Inv(c, Next(c, s, e))
  {
    ProduceSizes(c, s, e);
    ProduceEvictions(c, s, e);
    ProduceSplit(c, s, e);
    ProducePhases(c, s, e);
    ConsumeSizes(c, s, e);
    ConsumeEvictions(c, s, e);
    ConsumeSplit(c, s, e);
    ConsumePhases(c, s, e);
    ShutdownKeeps(c, s, e);
  }

  lemma {:induction false} RunKeepsInv(c: Config, es: seq<Event>)
    requires c.Valid()
    ensures Inv(c, Run(c, INIT, es))
  {
    if es != [] {
      RunKeepsInv(c, es[..|es| - 1]);
      NextKeepsInv(c, Run(c, INIT, es[..|es| - 1]), es[|es| - 1]);
    }
  }

  // ---------------------------------------------------------------------------
  // What holds on every run
  // ---------------------------------------------------------------------------

  /** `a` can be got from `b` by deleting elements. */
  ghost predicate Subsequence(a: seq<Point>, b: seq<Point>) {
    if a == [] then true
    else if b == [] then false
    else (a[|a| - 1] == b[|b| - 1] && Subsequence(a[..|a| - 1], b[..|b| - 1])) || Subsequence(a, b[..|b| - 1])
  }

  lemma {:induction false} SubsequenceGrows(a: seq<Point>, b: seq<Point>, x: seq<Point>, keep: bool)
    requires Subsequence(a, b)
    ensures Subsequence(if keep then a + x else a, b + x)
    decreases |x|
  {
    if x == [] {
      assert a + x == a && b + x == b;
    } else {
      var init, last := x[..|x| - 1], x[|x| - 1];
      SubsequenceGrows(a, b, init, keep);
      assert (b + x)[..|b + x| - 1] == b + init;
      if keep {
        assert (a + x)[..|a + x| - 1] == a + init;
      }
    }
  }

  lemma {:induction false} HandedInOrder(gs: seq<Gone>)
    ensures Subsequence(HandedOver(gs), Left(gs))
  {
    if gs != [] {
      var init, g := gs[..|gs| - 1], gs[|gs| - 1];
      HandedInOrder(init);
      SubsequenceGrows(HandedOver(init), Left(init), g.batch, g.Handed?);
      if !g.Handed? {
        assert HandedOver(gs) == HandedOver(init);
      }
    }
  }

  lemma {:induction false} SplitInOrder(s: State)
    requires Split(s)
    ensures Subsequence(Delivered(s), s.accepted)
  {
    HandedInOrder(s.gone);
    SubsequenceGrows(HandedOver(s.gone), Left(s.gone), Concat(s.queue), false);
    SubsequenceGrows(HandedOver(s.gone), Left(s.gone) + Concat(s.queue), InSection(s.section), false);
    SubsequenceGrows(HandedOver(s.gone), Left(s.gone) + Concat(s.queue) + InSection(s.section), s.final, true);
    SubsequenceGrows(Delivered(s), Left(s.gone) + Concat(s.queue) + InSection(s.section) + s.final, s.buffer, false);
  }

  /** In every interleaving the points handed over form a subsequence of the accepted points. */
  lemma {:induction false} DeliveryInOrder(c: Config, es: seq<Event>)
    requires c.Valid()
    ensures Subsequence(Delivered(Run(c, INIT, es)), Run(c, INIT, es).accepted)
  {
    RunKeepsInv(c, es);
    SplitInOrder(Run(c, INIT, es));
  }

  lemma {:induction false} EvictedSize(c: Config, gs: seq<Gone>)
    requires EvictedFull(c, gs)
    ensures |EvictedPoints(gs)| == EvictedBatches(gs) * c.batchSize
    ensures |Left(gs)| == |HandedOver(gs)| + |EvictedPoints(gs)|
  {
    if gs != [] {
      var init := gs[..|gs| - 1];
      EvictedSize(c, init);
      assert (EvictedBatches(init) + 1) * c.batchSize == EvictedBatches(init) * c.batchSize + c.batchSize;
    }
  }

  /**
   At every step the accepted points are, oldest first, those that left the queue, those queued,
   those of a batch being enqueued, those of the shutdown flush and those buffered. Points that
   left without being handed over are exactly the counted evictions of full batches, and no new
   batch is ever dropped because the queue was still full after the eviction.
   */
  lemma {:induction false} PointsConserved(c: Config, es: seq<Event>)
    requires c.Valid()
    ensures var s := Run(c, INIT, es);
            && s.accepted == Left(s.gone) + Concat(s.queue) + InSection(s.section) + s.final + s.buffer
            && |EvictedPoints(s.gone)| == s.dropped * c.batchSize
            && |s.accepted| == |Delivered(s)| + s.dropped * c.batchSize + |Concat(s.queue)| + |InSection(s.section)| + |s.buffer|
            && s.lost == [] && |s.queue| <= c.capacity && |s.buffer| < c.batchSize
  {
    RunKeepsInv(c, es);
    EvictedSize(c, Run(c, INIT, es).gone);
  }

  lemma {:induction false} FinishedState(c: Config, s: State, p: Point)
    requires Inv(c, s) && s.stop == Finished
    ensures s.buffer == [] && s.section == Free
    ensures s.queue == [] <==> s.late == 0
    ensures !s.early ==> s.late == 0 && s.accepted == Left(s.gone) + s.final
    ensures Next(c, s, Publish(p)) == s.(rejected := s.rejected + 1)
  {
  }

  /**
   Once `stop` has finished, nothing is left behind exactly when no batch was enqueued after the
   flush loop had gone; a run whose context is cancelled by `stop` alone never has one. A later
   publish is rejected and counted and changes nothing else.
   */
  lemma {:induction false} StopLeavesNothing(c: Config, es: seq<Event>, p: Point)
    requires c.Valid() && Run(c, INIT, es).stop == Finished
    ensures var s := Run(c, INIT, es);
            && s.buffer == [] && s.section == Free
            && (s.queue == [] <==> s.late == 0)
            && (!s.early ==> s.late == 0 && s.accepted == Left(s.gone) + s.final)
            && Next(c, s, Publish(p)) == s.(rejected := s.rejected + 1)
  {
    RunKeepsInv(c, es);
    FinishedState(c, Run(c, INIT, es), p);
  }

  lemma {:induction false} RunSnoc(c: Config, s: State, es: seq<Event>, e: Event)
    ensures Run(c, s, es + [e]) == Next(c, Run(c, s, es), e)
  {
    assert (es + [e])[..|es|] == es;
  }

  predicate Looks(s: State, loop: Loop, stop: Stop, section: Section, queue: seq<Batch>) {
    && s.loop == loop && s.stop == stop && s.section == section && s.queue == queue
    && s.buffer == [] && (s.stopped <==> stop != Running)
  }

  /** The parent context goes away, the flush loop exits, a producer fills a batch. */
  lemma {:induction false} StrandingPublish(c: Config, p: Point) returns (es: seq<Event>)
    requires c == Config(1, 64)
    ensures Looks(Run(c, INIT, es), Exited, Running, Free, [[p]])
  {
    es := [];
    RunSnoc(c, INIT, es, ParentCancel);
    es := es + [ParentCancel];
    assert Looks(Run(c, INIT, es), Waiting, Running, Free, []);
    RunSnoc(c, INIT, es, SeeCancel);
    es := es + [SeeCancel];
    assert Looks(Run(c, INIT, es), Draining(true), Running, Free, []);
    RunSnoc(c, INIT, es, DrainEmpty);
    es := es + [DrainEmpty];
    assert Looks(Run(c, INIT, es), Exited, Running, Free, []);
    RunSnoc(c, INIT, es, Publish(p));
    es := es + [Publish(p)];
    assert Looks(Run(c, INIT, es), Exited, Running, Enqueuing([p]), []);
    RunSnoc(c, INIT, es, TryEnqueue);
    es := es + [TryEnqueue];
  }

  /** `stop` runs up to its wait for the flush loop, which has gone. */
  lemma {:induction false} StopAfterLoop(c: Config, p: Point) returns (es: seq<Event>)
    requires c == Config(1, 64)
    ensures Looks(Run(c, INIT, es), Exited, Cancelled, Free, [[p]])
  {
    es := StrandingPublish(c, p);
    RunSnoc(c, INIT, es, StopFlag);
    es := es + [StopFlag];
    assert Looks(Run(c, INIT, es), Exited, Flagged, Free, [[p]]);
    RunSnoc(c, INIT, es, Cancel);
    es := es + [Cancel];
  }

  /** A parent context cancelled before `stop` can strand a full batch in the queue. */
  lemma {:induction false} EarlyCancelStrands(c: Config, p: Point) returns (es: seq<Event>)
    requires c == Config(1, 64)
    ensures Run(c, INIT, es).stop == Finished && Run(c, INIT, es).queue == [[p]]
  {
    es := StopAfterLoop(c, p);
    RunSnoc(c, INIT, es, Join);
    es := es + [Join];
    assert Looks(Run(c, INIT, es), Exited, Joined, Free, [[p]]);
    RunSnoc(c, INIT, es, FinalFlush);
    es := es + [FinalFlush];
  }
}
