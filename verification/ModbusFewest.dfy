/**
 When the Modbus planner makes the fewest requests, counted with the true ends of the tags. Range
 ends are 16-bit, so from the first tag that reaches address 65535 on the planner's runs differ
 from the true ones; how many batches it opens from there on decides.
 */
module ModbusFewest {
  import opened RangeMerge
  import opened ModbusPlan
  import opened ModbusWrap

  /** The ranges the tags really occupy. */
  function TrueRanges(ts: seq<Item>): (rs: seq<Range>)
    ensures |rs| == |ts| && forall i :: 0 <= i < |ts| ==> rs[i] == Range(ts[i].start, TrueEnd(ts[i]))
  {
    seq(|ts|, i requires 0 <= i < |ts| => Range(ts[i].start, TrueEnd(ts[i])))
  }

  /** No cutting of the true ranges into consecutive requests under the limit needs fewer requests. */
  ghost predicate Fewest(ts: seq<Item>, maxBatch: nat) {
    forall cuts :: Cutting(LimitsFor(maxBatch), TrueRanges(ts), 0, cuts) ==> |AppendAll(ts, |ts|, maxBatch)| <= |cuts|
  }

  /** The first tag that reaches address 65535. */
  ghost predicate FirstWrap(ts: seq<Item>, f: nat) {
    f < |ts| && Wraps(ts[f]) && forall x :: 0 <= x < f ==> !Wraps(ts[x])
  }

  /** The tags from `f` up to `k` all fit behind the run that starts at `p` and is open before `f`. */
  ghost predicate Joins(ts: seq<Item>, maxBatch: nat, p: nat, f: nat, k: nat)
    requires p < f < k <= |ts|
  {
    && ts[f].start <= MaxEnd(TrueRanges(ts), p, f)
    && forall x :: f <= x < k ==> TrueEnd(ts[x]) <= ts[p].start + maxBatch
  }

  /** One request can take all tags from `f` on together with the run open before `f`. */
  ghost predicate TailJoins(ts: seq<Item>, maxBatch: nat, f: nat)
    requires f < |ts|
  {
    f > 0 && Joins(ts, maxBatch, StartOf(LimitsFor(maxBatch), Ranges(ts), f - 1), f, |ts|)
  }

  // ---------------------------------------------------------------------------
  // Before the first wrapping tag both arithmetics agree
  // ---------------------------------------------------------------------------

  lemma {:induction false} SameMax(ts: seq<Item>, f: nat, i: nat, k: nat)
    requires f <= |ts| && (forall x :: 0 <= x < f ==> !Wraps(ts[x])) && i < k <= f
    ensures MaxEnd(TrueRanges(ts), i, k) == MaxEnd(Ranges(ts), i, k)
  {
    if i + 1 < k {
      SameMax(ts, f, i, k - 1);
    }
  }

  lemma {:induction false} SameSpans(ts: seq<Item>, c: Limits, f: nat, k: nat)
    requires k <= f <= |ts| && forall x :: 0 <= x < f ==> !Wraps(ts[x])
    ensures Spans(c, TrueRanges(ts), k) == Spans(c, Ranges(ts), k)
  {
    if k > 1 {
      SameSpans(ts, c, f, k - 1);
      var b := Spans(c, Ranges(ts), k - 1);
      SameMax(ts, f, b[|b| - 1].lo, k - 1);
    }
  }

  // ---------------------------------------------------------------------------
  // From there on at most one more request is needed
  // ---------------------------------------------------------------------------

  /** Any tags from a wrapping one on fit one request. */
  lemma {:induction false} TailIsShort(ts: seq<Item>, maxBatch: nat, g: nat, k: nat)
    requires Group(ts) && 7 <= maxBatch && g < k < |ts| && Wraps(ts[g])
    ensures Fits(LimitsFor(maxBatch), TrueRanges(ts), g, k)
  {
    var rs := TrueRanges(ts);
    MaxEndCovers(rs, g, k, g);
    var x := MaxEndAttained(rs, g, k);
  }

  /** The run open before the first wrapping tag is within the limit, and so it stays while tags join it. */
  lemma {:induction false} JoinedWithin(ts: seq<Item>, maxBatch: nat, p: nat, f: nat, k: nat)
    requires Group(ts) && 4 <= maxBatch && FirstWrap(ts, f) && p < f <= k <= |ts| && (f < k ==> Joins(ts, maxBatch, p, f, k))
    requires IsRun(LimitsFor(maxBatch), Ranges(ts), p, f)
    ensures MaxEnd(TrueRanges(ts), p, k) <= ts[p].start + maxBatch
  {
    var x := MaxEndAttained(TrueRanges(ts), p, k);
    if x < f {
      RunWithin(ts, maxBatch, p, f, x);
    }
  }

  /** While all tags join, the next one fits exactly when it joins too; if it does not, it wraps. */
  lemma {:induction false} FitsIffJoins(ts: seq<Item>, maxBatch: nat, p: nat, f: nat, k: nat)
    requires Group(ts) && 4 <= maxBatch && FirstWrap(ts, f) && p < f <= k < |ts| && (f < k ==> Joins(ts, maxBatch, p, f, k))
    requires IsRun(LimitsFor(maxBatch), Ranges(ts), p, f)
    ensures Fits(LimitsFor(maxBatch), TrueRanges(ts), p, k) <==> Joins(ts, maxBatch, p, f, k + 1)
    ensures Fits(LimitsFor(maxBatch), TrueRanges(ts), p, k) || Wraps(ts[k])
  {
    JoinedWithin(ts, maxBatch, p, f, k);
    if f < k {
      MaxEndCovers(TrueRanges(ts), p, k, f);
    }
  }

  /** `p` starts the run open before `f`; if `f` is the first tag there is none and `p` is `f`. */
  ghost predicate OpenBefore(ts: seq<Item>, maxBatch: nat, p: nat, f: nat) {
    p == f == 0 || (p < f && IsRun(LimitsFor(maxBatch), Ranges(ts), p, f))
  }

  /** The true runs after `k` tags: as many as before the tail while all its tags join, then one more. */
  ghost predicate TailRuns(ts: seq<Item>, maxBatch: nat, p: nat, f: nat, k: nat, n: nat, b: seq<Span>)
    requires p <= f < k <= |ts|
  {
    && b != []
    && if p < f && Joins(ts, maxBatch, p, f, k) then |b| == n && b[|b| - 1].lo == p
       else |b| == n + 1 && f <= b[|b| - 1].lo < k && Wraps(ts[b[|b| - 1].lo])
  }

  /** The runs before the tail, the last of them started at `p`. */
  ghost predicate HeadRuns(p: nat, f: nat, a: seq<Span>) {
    if p == f then a == [] else a != [] && a[|a| - 1].lo == p
  }

  /** The tag at `f` itself. */
  lemma {:induction false} TailOpens(ts: seq<Item>, maxBatch: nat, p: nat, f: nat, a: seq<Span>, b: seq<Span>)
    requires Group(ts) && 4 <= maxBatch && FirstWrap(ts, f) && OpenBefore(ts, maxBatch, p, f)
    requires HeadRuns(p, f, a)
    requires b == Extend(LimitsFor(maxBatch), TrueRanges(ts), a, f)
    ensures TailRuns(ts, maxBatch, p, f, f + 1, |a|, b)
  {
    if p < f {
      FitsIffJoins(ts, maxBatch, p, f, f);
    }
  }

  /** A later tag. */
  lemma {:induction false} TailGoesOn(ts: seq<Item>, maxBatch: nat, p: nat, f: nat, k: nat, n: nat, a: seq<Span>, b: seq<Span>)
    requires Group(ts) && 7 <= maxBatch && FirstWrap(ts, f) && OpenBefore(ts, maxBatch, p, f) && f < k < |ts|
    requires TailRuns(ts, maxBatch, p, f, k, n, a) && b == Extend(LimitsFor(maxBatch), TrueRanges(ts), a, k)
    ensures TailRuns(ts, maxBatch, p, f, k + 1, n, b)
  {
    if p < f && Joins(ts, maxBatch, p, f, k) {
      FitsIffJoins(ts, maxBatch, p, f, k);
    } else {
      TailIsShort(ts, maxBatch, a[|a| - 1].lo, k);
    }
  }

  lemma {:induction false} TailCount(ts: seq<Item>, maxBatch: nat, p: nat, f: nat, k: nat, n: nat, b: seq<Span>, out: seq<Span>)
    requires Group(ts) && 7 <= maxBatch && FirstWrap(ts, f) && OpenBefore(ts, maxBatch, p, f) && f < k <= |ts|
    requires TailRuns(ts, maxBatch, p, f, k, n, b) && out == Grown(LimitsFor(maxBatch), TrueRanges(ts), b, k)
    ensures TailRuns(ts, maxBatch, p, f, |ts|, n, out)
    decreases |ts| - k
  {
    if k < |ts| {
      var b' := Extend(LimitsFor(maxBatch), TrueRanges(ts), b, k);
      TailGoesOn(ts, maxBatch, p, f, k, n, b, b');
      TailCount(ts, maxBatch, p, f, k + 1, n, b', out);
    }
  }

  lemma {:induction false} GrownCount(ts: seq<Item>, maxBatch: nat, p: nat, f: nat, a: seq<Span>)
    requires Group(ts) && 7 <= maxBatch && FirstWrap(ts, f) && OpenBefore(ts, maxBatch, p, f) && HeadRuns(p, f, a)
    ensures |Grown(LimitsFor(maxBatch), TrueRanges(ts), a, f)| == |a| + if p < f && Joins(ts, maxBatch, p, f, |ts|) then 0 else 1
  {
    var b := Extend(LimitsFor(maxBatch), TrueRanges(ts), a, f);
    TailOpens(ts, maxBatch, p, f, a, b);
    TailCount(ts, maxBatch, p, f, f + 1, |a|, b, Grown(LimitsFor(maxBatch), TrueRanges(ts), a, f));
  }

  /** The run the planner has open before the first wrapping tag. */
  lemma {:induction false} HeadOpens(ts: seq<Item>, maxBatch: nat, p: nat, f: nat, a: seq<Span>)
    requires FirstWrap(ts, f) && a == Spans(LimitsFor(maxBatch), Ranges(ts), f)
    requires p == if f == 0 then 0 else StartOf(LimitsFor(maxBatch), Ranges(ts), f - 1)
    ensures OpenBefore(ts, maxBatch, p, f) && HeadRuns(p, f, a)
  {
    if f > 0 {
      StartOfLast(LimitsFor(maxBatch), Ranges(ts), f - 1, a);
      StartOfRun(LimitsFor(maxBatch), Ranges(ts), f - 1);
    }
  }

  lemma {:induction false} TrueCount(ts: seq<Item>, maxBatch: nat, f: nat, a: seq<Span>)
    requires Group(ts) && 7 <= maxBatch && FirstWrap(ts, f) && a == Spans(LimitsFor(maxBatch), Ranges(ts), f)
    ensures |Spans(LimitsFor(maxBatch), TrueRanges(ts), |ts|)| == |a| + if TailJoins(ts, maxBatch, f) then 0 else 1
  {
    var p := if f == 0 then 0 else StartOf(LimitsFor(maxBatch), Ranges(ts), f - 1);
    HeadOpens(ts, maxBatch, p, f, a);
    GrownCount(ts, maxBatch, p, f, a);
    SameSpans(ts, LimitsFor(maxBatch), f, f);
    GrownSpans(LimitsFor(maxBatch), TrueRanges(ts), f, a);
  }

  // ---------------------------------------------------------------------------
  // The exact condition
  // ---------------------------------------------------------------------------

  lemma {:induction false} FewestIsGreedy(ts: seq<Item>, maxBatch: nat)
    requires Group(ts)
    ensures Fewest(ts, maxBatch) <==>
            |AppendAll(ts, |ts|, maxBatch)| <= |Spans(LimitsFor(maxBatch), TrueRanges(ts), |ts|)|
  {
    var c, rs := LimitsFor(maxBatch), TrueRanges(ts);
    var best := GreedyCutting(c, rs, 0);
    SpansCount(c, rs);
    forall cuts | Cutting(c, rs, 0, cuts) ensures |best| <= |cuts| {
      GreedyOptimal(c, rs, cuts);
    }
  }

  lemma {:induction false} BatchCount(ts: seq<Item>, maxBatch: nat, k: nat)
    requires Group(ts) && maxBatch < WORD && k <= |ts|
    ensures |AppendAll(ts, k, maxBatch)| == |Spans(LimitsFor(maxBatch), Ranges(ts), k)|
  {
    BatchesAreRuns(ts, maxBatch, k, Spans(LimitsFor(maxBatch), Ranges(ts), k), AppendAll(ts, k, maxBatch));
  }

  /** From the first tag that reaches address 65535 on, the planner opens no batch too many. */
  ghost predicate TailFrugal(ts: seq<Item>, maxBatch: nat) {
    forall f :: FirstWrap(ts, f) ==>
      |AppendAll(ts, |ts|, maxBatch)| <= |AppendAll(ts, f, maxBatch)| + if TailJoins(ts, maxBatch, f) then 0 else 1
  }

  lemma {:induction false} FindFirstWrap(ts: seq<Item>, w: nat) returns (f: nat)
    requires w < |ts| && Wraps(ts[w])
    ensures FirstWrap(ts, f)
    decreases w
  {
    f := w;
    if x :| 0 <= x < w && Wraps(ts[x]) {
      f := FindFirstWrap(ts, x);
    }
  }

  lemma {:induction false} FewestWithWrap(ts: seq<Item>, maxBatch: nat, f: nat)
    requires Group(ts) && 7 <= maxBatch < WORD && FirstWrap(ts, f)
    ensures Fewest(ts, maxBatch) <==>
            |AppendAll(ts, |ts|, maxBatch)| <= |AppendAll(ts, f, maxBatch)| + if TailJoins(ts, maxBatch, f) then 0 else 1
  {
    FewestIsGreedy(ts, maxBatch);
    BatchCount(ts, maxBatch, f);
    TrueCount(ts, maxBatch, f, Spans(LimitsFor(maxBatch), Ranges(ts), f));
  }

  /**
   The planner makes the fewest requests the true ends allow exactly when, from the first tag that
   reaches address 65535 on, it opens at most one batch, and none if the batch before could have
   taken all those tags.
   */
  lemma {:induction false} FewestIff(ts: seq<Item>, maxBatch: nat)
    requires Group(ts) && 7 <= maxBatch < WORD
    ensures Fewest(ts, maxBatch) <==> TailFrugal(ts, maxBatch)
  {
    if w :| 0 <= w < |ts| && Wraps(ts[w]) {
      var f := FindFirstWrap(ts, w);
      FewestWithWrap(ts, maxBatch, f);
      assert forall g :: FirstWrap(ts, g) ==> g == f;
    } else {
      FewestIsGreedy(ts, maxBatch);
      BatchCount(ts, maxBatch, |ts|);
      SameSpans(ts, LimitsFor(maxBatch), |ts|, |ts|);
    }
  }

  /** Two tags at address 65535 are fetched twice although one request has room for both. */
  lemma {:induction false} TwiceExample(a: Item, b: Item)
    requires a == Item(0, 65535, 1) && b == Item(1, 65535, 1)
    ensures AppendAll([a, b], 2, MAX_BATCH) == [Batch(65535, 1, [a]), Batch(65535, 1, [b])]
    ensures Cutting(LimitsFor(MAX_BATCH), TrueRanges([a, b]), 0, [2])
  {
    var ts := [a, b];
    assert AppendAll(ts, 0, MAX_BATCH) == [];
    assert AppendAll(ts, 1, MAX_BATCH) == AppendMerged([], ts[0], MAX_BATCH);
    assert AppendAll(ts, 2, MAX_BATCH) == AppendMerged([Batch(65535, 1, [a])], ts[1], MAX_BATCH);
    assert MaxEnd(TrueRanges(ts), 0, 1) == 65536;
    assert [2][1..] == [];
  }
}
