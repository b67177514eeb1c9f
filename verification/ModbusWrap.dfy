/**
 When the Modbus batches cover their tags. Range ends are 16-bit, so a tag that reaches address
 65535 has a wrapped end; merged behind another tag it lies outside its own batch. The batches
 cover all their tags exactly when no such pair of tags exists.
 */
module ModbusWrap {
  import opened Common
  import opened RangeMerge
  import opened ModbusPlan

  /** A tag that stays below 65536 touches a later one that does not. */
  ghost predicate Hazard(ts: seq<Item>, a: nat, w: nat) {
    a < w < |ts| && !Wraps(ts[a]) && Wraps(ts[w]) && ts[w].start <= TrueEnd(ts[a])
  }

  ghost predicate NoHazardUpTo(ts: seq<Item>, n: nat) {
    forall a: nat, w: nat :: w < n ==> !Hazard(ts, a, w)
  }

  predicate Inside(b: Batch, t: Item) {
    b.start <= t.start && TrueEnd(t) <= b.start + b.qty
  }

  /** Every register of every tag is among those the batch asks for. */
  ghost predicate Covered(b: Batch) {
    forall x :: 0 <= x < |b.members| ==> Inside(b, b.members[x])
  }

  // ---------------------------------------------------------------------------
  // No hazard, all covered
  // ---------------------------------------------------------------------------

  /** Nothing joins a batch opened by a wrapping tag. */
  lemma {:induction false} WrapStaysAlone(ts: seq<Item>, maxBatch: nat, i: nat, j: nat)
    requires Group(ts) && IsRun(LimitsFor(maxBatch), Ranges(ts), i, j) && i + 1 < j
    ensures !Wraps(ts[i])
  {
    assert Fits(LimitsFor(maxBatch), Ranges(ts), i, i + 1);
    assert ts[i].start <= ts[i + 1].start;
  }

  lemma {:induction false} WrapMeansHazard(ts: seq<Item>, maxBatch: nat, i: nat, j: nat, w: nat) returns (a: nat)
    requires Group(ts) && IsRun(LimitsFor(maxBatch), Ranges(ts), i, j) && i < w < j && Wraps(ts[w])
    ensures Hazard(ts, a, w)
  {
    assert Fits(LimitsFor(maxBatch), Ranges(ts), i, w);
    a := MaxEndAttained(Ranges(ts), i, w);
  }

  lemma {:induction false} CleanMember(ts: seq<Item>, maxBatch: nat, i: nat, j: nat, x: nat)
    requires Group(ts) && NoHazardUpTo(ts, |ts|) && IsRun(LimitsFor(maxBatch), Ranges(ts), i, j) && i <= x < j
    ensures Inside(BatchOf(ts, i, j), ts[x])
  {
    if i + 1 < j {
      WrapStaysAlone(ts, maxBatch, i, j);
      RunEndAbove(maxBatch, ts, i, j);
      MaxEndCovers(Ranges(ts), i, j, x);
      if Wraps(ts[x]) {
        var a := WrapMeansHazard(ts, maxBatch, i, j, x);
      }
    }
  }

  lemma {:induction false} CleanRun(ts: seq<Item>, maxBatch: nat, i: nat, j: nat)
    requires Group(ts) && NoHazardUpTo(ts, |ts|) && IsRun(LimitsFor(maxBatch), Ranges(ts), i, j)
    ensures Covered(BatchOf(ts, i, j))
  {
    var b := BatchOf(ts, i, j);
    forall x | 0 <= x < |b.members| ensures Inside(b, b.members[x]) {
      CleanMember(ts, maxBatch, i, j, i + x);
    }
  }

  lemma {:induction false} CleanBatch(ts: seq<Item>, maxBatch: nat, t: nat)
    requires Group(ts) && maxBatch < WORD && NoHazardUpTo(ts, |ts|) && t < |AppendAll(ts, |ts|, maxBatch)|
    ensures Covered(AppendAll(ts, |ts|, maxBatch)[t])
  {
    var i, j := BatchRun(ts, maxBatch, t);
    CleanRun(ts, maxBatch, i, j);
  }

  // ---------------------------------------------------------------------------
  // A hazard, one not covered
  // ---------------------------------------------------------------------------

  /** The first position of the run that holds position `k`. */
  function StartOf(c: Limits, rs: seq<Range>, k: nat): (i: nat)
    requires k < |rs|
    ensures i <= k
  {
    if k > 0 && Fits(c, rs, StartOf(c, rs, k - 1), k) then StartOf(c, rs, k - 1) else k
  }

  lemma {:induction false} StartOfLast(c: Limits, rs: seq<Range>, k: nat, b: seq<Span>)
    requires k < |rs| && b == Spans(c, rs, k + 1)
    ensures b[|b| - 1].lo == StartOf(c, rs, k)
  {
    if k > 0 {
      StartOfLast(c, rs, k - 1, Spans(c, rs, k));
    }
  }

  lemma {:induction false} StartOfRun(c: Limits, rs: seq<Range>, k: nat)
    requires k < |rs|
    ensures IsRun(c, rs, StartOf(c, rs, k), k + 1)
  {
    if k > 0 {
      StartOfRun(c, rs, k - 1);
    }
  }

  /** The first position after `a` that opens a run, at or before `p`, which does. */
  lemma {:induction false} NextStart(c: Limits, rs: seq<Range>, a: nat, p: nat) returns (q: nat)
    requires a < p < |rs| && StartOf(c, rs, p) == p
    ensures a < q <= p && StartOf(c, rs, q) == q && StartOf(c, rs, q - 1) == StartOf(c, rs, a)
    decreases p - a
  {
    if StartOf(c, rs, a + 1) == a + 1 {
      q := a + 1;
    } else {
      assert StartOf(c, rs, a + 1) == StartOf(c, rs, a);
      q := NextStart(c, rs, a + 1, p);
    }
  }

  /** A run stays within the limit unless a lone wrapping tag forms it. */
  lemma {:induction false} RunWithin(ts: seq<Item>, maxBatch: nat, i: nat, j: nat, a: nat)
    requires Group(ts) && 4 <= maxBatch && IsRun(LimitsFor(maxBatch), Ranges(ts), i, j)
    requires i <= a < j && !Wraps(ts[a])
    ensures MaxEnd(Ranges(ts), i, j) <= ts[i].start + maxBatch && TrueEnd(ts[a]) <= MaxEnd(Ranges(ts), i, j)
  {
    MaxEndCovers(Ranges(ts), i, j, a);
    if i + 1 < j {
      RunEndAbove(maxBatch, ts, i, j);
    }
  }

  /** A wrapping tag joins the run before it if that run reaches it. */
  lemma {:induction false} JoinsRun(ts: seq<Item>, maxBatch: nat, p: nat, a: nat, w: nat)
    requires Group(ts) && 4 <= maxBatch && Hazard(ts, a, w) && p <= a
    requires IsRun(LimitsFor(maxBatch), Ranges(ts), p, w)
    ensures Fits(LimitsFor(maxBatch), Ranges(ts), p, w)
  {
    RunWithin(ts, maxBatch, p, w, a);
  }

  /** When a run is cut before it reaches a wrapping tag, the tag that opens the next run touches it too. */
  lemma {:induction false} HazardMoves(ts: seq<Item>, maxBatch: nat, i: nat, a: nat, q: nat, w: nat)
    requires Group(ts) && 4 <= maxBatch && Hazard(ts, a, w) && NoHazardUpTo(ts, w) && i <= a < q < w
    requires IsRun(LimitsFor(maxBatch), Ranges(ts), i, q) && !Fits(LimitsFor(maxBatch), Ranges(ts), i, q)
    ensures Hazard(ts, q, w)
  {
    assert ts[q].start <= ts[w].start;
    assert !Hazard(ts, a, q);
    RunWithin(ts, maxBatch, i, q, a);
  }

  /** The run that holds `a` is cut at some `q`, at or before a position `p` that opens a run. */
  lemma {:induction false} CutAfter(c: Limits, rs: seq<Range>, a: nat, p: nat) returns (i: nat, q: nat)
    requires a < p < |rs| && StartOf(c, rs, p) == p
    ensures i <= a < q <= p && IsRun(c, rs, i, q) && !Fits(c, rs, i, q)
  {
    q := NextStart(c, rs, a, p);
    i := StartOf(c, rs, q - 1);
    StartOfRun(c, rs, q - 1);
  }

  /** Follows a hazard from `a` to the tag that opens the next run. */
  lemma {:induction false} HazardAtNextStart(ts: seq<Item>, maxBatch: nat, a: nat, w: nat, p: nat) returns (q: nat)
    requires Group(ts) && 4 <= maxBatch && Hazard(ts, a, w) && NoHazardUpTo(ts, w)
    requires a < p < w && StartOf(LimitsFor(maxBatch), Ranges(ts), p) == p
    ensures a < q && Hazard(ts, q, w)
  {
    var i;
    i, q := CutAfter(LimitsFor(maxBatch), Ranges(ts), a, p);
    HazardMoves(ts, maxBatch, i, a, q, w);
  }

  lemma {:induction false} MergedHere(ts: seq<Item>, maxBatch: nat, a: nat, w: nat)
    requires Group(ts) && 4 <= maxBatch && Hazard(ts, a, w)
    requires StartOf(LimitsFor(maxBatch), Ranges(ts), w - 1) <= a
    ensures StartOf(LimitsFor(maxBatch), Ranges(ts), w) < w
  {
    var p := StartOf(LimitsFor(maxBatch), Ranges(ts), w - 1);
    StartOfRun(LimitsFor(maxBatch), Ranges(ts), w - 1);
    JoinsRun(ts, maxBatch, p, a, w);
  }

  /** The first wrapping tag of a hazard is merged into an earlier tag's run. */
  lemma {:induction false} FirstIsMerged(ts: seq<Item>, maxBatch: nat, a: nat, w: nat)
    requires Group(ts) && 4 <= maxBatch && Hazard(ts, a, w) && NoHazardUpTo(ts, w)
    ensures StartOf(LimitsFor(maxBatch), Ranges(ts), w) < w
    decreases w - a
  {
    var p := StartOf(LimitsFor(maxBatch), Ranges(ts), w - 1);
    if p <= a {
      MergedHere(ts, maxBatch, a, w);
    } else {
      OpensRun(LimitsFor(maxBatch), Ranges(ts), w - 1);
      var q := HazardAtNextStart(ts, maxBatch, a, w, p);
      FirstIsMerged(ts, maxBatch, q, w);
    }
  }

  lemma {:induction false} OpensRun(c: Limits, rs: seq<Range>, k: nat)
    requires k < |rs|
    ensures StartOf(c, rs, StartOf(c, rs, k)) == StartOf(c, rs, k)
  {
    if StartOf(c, rs, k) < k {
      OpensRun(c, rs, k - 1);
    }
  }

  /** Every position lies in one of the runs. */
  lemma {:induction false} RunHolding(c: Limits, rs: seq<Range>, k: nat, w: nat, b: seq<Span>) returns (t: nat)
    requires w < k <= |rs| && b == Spans(c, rs, k)
    ensures t < |b| && b[t].lo == StartOf(c, rs, w) && w < b[t].hi
    decreases k
  {
    if w == k - 1 {
      t := |b| - 1;
      StartOfLast(c, rs, w, b);
    } else {
      var a := Spans(c, rs, k - 1);
      t := RunHolding(c, rs, k - 1, w, a);
      assert b[t].lo == a[t].lo && b[t].hi >= a[t].hi;
    }
  }

  lemma {:induction false} MergedIsOutside(ts: seq<Item>, maxBatch: nat, i: nat, j: nat, w: nat)
    requires Group(ts) && IsRun(LimitsFor(maxBatch), Ranges(ts), i, j) && i < w < j && Wraps(ts[w])
    ensures !Covered(BatchOf(ts, i, j))
  {
    RunEndAbove(maxBatch, ts, i, j);
    assert BatchOf(ts, i, j).members[w - i] == ts[w];
  }

  lemma {:induction false} FirstHazard(ts: seq<Item>, a: nat, w: nat) returns (a': nat, w': nat)
    requires Hazard(ts, a, w)
    ensures Hazard(ts, a', w') && NoHazardUpTo(ts, w')
    decreases w
  {
    if NoHazardUpTo(ts, w) {
      a', w' := a, w;
    } else {
      var x: nat, y: nat :| y < w && Hazard(ts, x, y);
      a', w' := FirstHazard(ts, x, y);
    }
  }

  lemma {:induction false} HazardUncovers(ts: seq<Item>, maxBatch: nat, a: nat, w: nat) returns (t: nat)
    requires Group(ts) && 4 <= maxBatch < WORD && Hazard(ts, a, w)
    ensures t < |AppendAll(ts, |ts|, maxBatch)| && !Covered(AppendAll(ts, |ts|, maxBatch)[t])
  {
    var a', w' := FirstHazard(ts, a, w);
    FirstIsMerged(ts, maxBatch, a', w');
    var b, s := Spans(LimitsFor(maxBatch), Ranges(ts), |ts|), AppendAll(ts, |ts|, maxBatch);
    t := RunHolding(LimitsFor(maxBatch), Ranges(ts), |ts|, w', b);
    BatchesAreRuns(ts, maxBatch, |ts|, b, s);
    SpansAreRuns(LimitsFor(maxBatch), Ranges(ts), |ts|, b);
    assert Reads(ts, b[t], s[t]) && IsRun(LimitsFor(maxBatch), Ranges(ts), b[t].lo, b[t].hi);
    MergedIsOutside(ts, maxBatch, b[t].lo, b[t].hi, w');
  }

  ghost predicate AllCovered(batches: seq<Batch>) {
    forall t :: 0 <= t < |batches| ==> Covered(batches[t])
  }

  ghost predicate HazardIn(ts: seq<Item>) {
    exists a: nat, w: nat :: Hazard(ts, a, w)
  }

  /** The batches cover all their tags exactly when no tag below 65536 touches a later one beyond. */
  lemma {:induction false} CoveredIff(ts: seq<Item>, maxBatch: nat, batches: seq<Batch>)
    requires Group(ts) && 4 <= maxBatch < WORD && batches == AppendAll(ts, |ts|, maxBatch)
    ensures AllCovered(batches) <==> !HazardIn(ts)
  {
    if HazardIn(ts) {
      var a: nat, w: nat :| Hazard(ts, a, w);
      var t := HazardUncovers(ts, maxBatch, a, w);
    } else {
      forall t | 0 <= t < |batches| ensures Covered(batches[t]) {
        CleanBatch(ts, maxBatch, t);
      }
    }
  }

  /** The shortest failure: single registers at 65534 and 65535 make one batch of one register. */
  lemma {:induction false} UncoveredExample()
    ensures var a, w := Item(0, 65534, 1), Item(1, 65535, 1);
            AppendAll([a, w], 2, MAX_BATCH) == [Batch(65534, 1, [a, w])] && !Inside(Batch(65534, 1, [a, w]), w)
  {
    var a, w := Item(0, 65534, 1), Item(1, 65535, 1);
    var ts := [a, w];
    assert AppendAll(ts, 0, MAX_BATCH) == [];
    assert AppendAll(ts, 1, MAX_BATCH) == AppendMerged([], ts[0], MAX_BATCH);
    assert AppendAll(ts, 2, MAX_BATCH) == AppendMerged([Batch(65534, 1, [a])], ts[1], MAX_BATCH);
    assert [a] + [w] == [a, w];
  }

  // ---------------------------------------------------------------------------
  // Size, content and number of batches
  // ---------------------------------------------------------------------------

  predicate Bounded(b: Batch, maxBatch: nat) {
    b.qty <= maxBatch && forall x :: 0 <= x < |b.members| ==> b.start <= b.members[x].start
  }

  lemma {:induction false} RunBounds(ts: seq<Item>, maxBatch: nat, i: nat, j: nat)
    requires Group(ts) && 4 <= maxBatch && IsRun(LimitsFor(maxBatch), Ranges(ts), i, j)
    ensures Bounded(BatchOf(ts, i, j), maxBatch)
  {
    if i + 1 < j {
      RunEndAbove(maxBatch, ts, i, j);
    }
  }

  /** No batch asks for more than the limit, and none starts after one of its tags. */
  lemma {:induction false} BatchBounds(ts: seq<Item>, maxBatch: nat, t: nat)
    requires Group(ts) && 4 <= maxBatch < WORD && t < |AppendAll(ts, |ts|, maxBatch)|
    ensures Bounded(AppendAll(ts, |ts|, maxBatch)[t], maxBatch)
  {
    var i, j := BatchRun(ts, maxBatch, t);
    RunBounds(ts, maxBatch, i, j);
  }

  /** An address of a run lies in one of its ranges. */
  lemma {:induction false} RunHasNoGaps(ts: seq<Item>, maxBatch: nat, i: nat, j: nat, addr: nat) returns (x: nat)
    requires Group(ts) && IsRun(LimitsFor(maxBatch), Ranges(ts), i, j) && ts[i].start <= addr < MaxEnd(Ranges(ts), i, j)
    ensures i <= x < j && ts[x].start <= addr < TrueEnd(ts[x])
  {
    if j == i + 1 {
      x := i;
    } else if addr < MaxEnd(Ranges(ts), i, j - 1) {
      x := RunHasNoGaps(ts, maxBatch, i, j - 1, addr);
    } else {
      assert Fits(LimitsFor(maxBatch), Ranges(ts), i, j - 1);
      x := j - 1;
    }
  }

  lemma {:induction false} RunUnneeded(ts: seq<Item>, maxBatch: nat, i: nat, j: nat, b: Batch, addr: nat) returns (x: nat)
    requires Group(ts) && IsRun(LimitsFor(maxBatch), Ranges(ts), i, j) && b == BatchOf(ts, i, j) && b.start <= addr < b.start + b.qty
    ensures x < |b.members| && b.members[x].start <= addr < TrueEnd(b.members[x])
  {
    if j == i + 1 {
      x := 0;
    } else {
      RunEndAbove(maxBatch, ts, i, j);
      var y := RunHasNoGaps(ts, maxBatch, i, j, addr);
      x := y - i;
    }
  }

  /** A batch asks for no register or bit that none of its tags occupies. */
  lemma {:induction false} NothingUnneeded(ts: seq<Item>, maxBatch: nat, t: nat, b: Batch, addr: nat) returns (x: nat)
    requires Group(ts) && maxBatch < WORD && t < |AppendAll(ts, |ts|, maxBatch)| && b == AppendAll(ts, |ts|, maxBatch)[t]
    requires b.start <= addr < b.start + b.qty
    ensures x < |b.members| && b.members[x].start <= addr < TrueEnd(b.members[x])
  {
    var i, j := BatchRun(ts, maxBatch, t);
    x := RunUnneeded(ts, maxBatch, i, j, b, addr);
  }

  /** Two neighbouring batches are apart for a reason: the next tag does not touch, or the read would be too long. */
  lemma {:induction false} BatchesAreApart(ts: seq<Item>, maxBatch: nat, t: nat, b: Batch, next: Batch)
    requires Group(ts) && maxBatch < WORD && t + 1 < |AppendAll(ts, |ts|, maxBatch)|
    requires b == AppendAll(ts, |ts|, maxBatch)[t] && next == AppendAll(ts, |ts|, maxBatch)[t + 1]
    ensures next.members != [] && next.members[0].start == next.start
    ensures var end := Add16(b.start, b.qty);
            next.start > end || RangeMerge.Max(end, Add16(next.start, next.members[0].qty)) > b.start + maxBatch
  {
    var sp, all := Spans(LimitsFor(maxBatch), Ranges(ts), |ts|), AppendAll(ts, |ts|, maxBatch);
    BatchesAreRuns(ts, maxBatch, |ts|, sp, all);
    SpansAreRuns(LimitsFor(maxBatch), Ranges(ts), |ts|, sp);
    SpansAdjacent(LimitsFor(maxBatch), Ranges(ts), |ts|, sp, t);
    assert Reads(ts, sp[t], all[t]) && Reads(ts, sp[t + 1], all[t + 1]) && IsRun(LimitsFor(maxBatch), Ranges(ts), sp[t].lo, sp[t].hi);
    BatchEnd(maxBatch, ts, sp[t].lo, sp[t].hi);
  }

  /** All tags of a list of batches, in order. */
  function Members(batches: seq<Batch>): seq<Item> {
    if batches == [] then [] else Members(batches[..|batches| - 1]) + batches[|batches| - 1].members
  }

  lemma {:induction false} AppendMembers(batches: seq<Batch>, t: Item, maxBatch: nat)
    ensures Members(AppendMerged(batches, t, maxBatch)) == Members(batches) + [t]
  {
  }

  /** The batches hold every tag of the group once, in address order. */
  lemma {:induction false} BatchesPartition(ts: seq<Item>, k: nat, maxBatch: nat, s: seq<Batch>)
    requires k <= |ts| && s == AppendAll(ts, k, maxBatch)
    ensures Members(s) == ts[..k]
  {
    if k > 0 {
      var s' := AppendAll(ts, k - 1, maxBatch);
      assert s == AppendMerged(s', ts[k - 1], maxBatch);
      BatchesPartition(ts, k - 1, maxBatch, s');
      AppendMembers(s', ts[k - 1], maxBatch);
      TakeSnoc(ts, k);
    }
  }

  /** With all ends at or below 65535, no consecutive cutting under the limit needs fewer requests. */
  lemma {:induction false} BatchesOptimal(ts: seq<Item>, maxBatch: nat, cuts: seq<nat>)
    requires Group(ts) && maxBatch < WORD && (forall i :: 0 <= i < |ts| ==> !Wraps(ts[i]))
    requires Cutting(LimitsFor(maxBatch), Ranges(ts), 0, cuts)
    ensures |AppendAll(ts, |ts|, maxBatch)| <= |cuts|
  {
    BatchesAreRuns(ts, maxBatch, |ts|, Spans(LimitsFor(maxBatch), Ranges(ts), |ts|), AppendAll(ts, |ts|, maxBatch));
    SpansOptimal(LimitsFor(maxBatch), Ranges(ts), cuts);
  }
}
