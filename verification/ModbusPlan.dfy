/**
 Merging Modbus tags into contiguous requests, with the driver's 16-bit address arithmetic. A range
 whose end reaches 65536 wraps around; the exact condition under which that goes wrong is proved.
 */
module ModbusPlan {
  import opened RangeMerge

  const WORD: nat := 65536
  const MAX_BATCH: nat := 125

  /** An unsigned 16-bit number. */
  type Word = x: int | 0 <= x < 65536

  /** A batchable tag: its position in the request list, first register or bit, and how many. */
  datatype Item = Item(index: nat, start: Word, qty: Word)

  datatype Batch = Batch(start: Word, qty: Word, members: seq<Item>)

  /** Where the range really ends, and where 16-bit arithmetic puts the end. */
  function TrueEnd(t: Item): nat { t.start + t.qty }

  function Add16(a: Word, b: Word): Word { if a + b < WORD then a + b else a + b - WORD }

  function Sub16(a: Word, b: Word): Word { if a >= b then a - b else a - b + WORD }

  function Max16(a: Word, b: Word): Word { if a < b then b else a }

  predicate Wraps(t: Item) { TrueEnd(t) >= WORD }

  /** Tags of one area as the driver resolves them, in address order. */
  ghost predicate Group(ts: seq<Item>) {
    && (forall i :: 0 <= i < |ts| ==> 1 <= ts[i].qty <= 4)
    && (forall i, j :: 0 <= i < j < |ts| ==> ts[i].start <= ts[j].start)
  }

  function Ranges(ts: seq<Item>): (rs: seq<Range>)
    ensures |rs| == |ts| && forall i :: 0 <= i < |ts| ==> rs[i] == Range(ts[i].start, Add16(ts[i].start, ts[i].qty))
  {
    seq(|ts|, i requires 0 <= i < |ts| => Range(ts[i].start, Add16(ts[i].start, ts[i].qty)))
  }

  function LimitsFor(maxBatch: nat): Limits {
    Limits(0, maxBatch, true)
  }

  // ---------------------------------------------------------------------------
  // The planner
  // ---------------------------------------------------------------------------

  /** One turn of the loop: the newest batch takes the tag, or a new batch starts. */
  function AppendMerged(batches: seq<Batch>, t: Item, maxBatch: nat): seq<Batch> {
    if batches == [] then [Batch(t.start, t.qty, [t])]
    else
      var cur := batches[|batches| - 1];
      var curEnd := Add16(cur.start, cur.qty);
      var mergedEnd := Max16(curEnd, Add16(t.start, t.qty));
      var mergedQty := Sub16(mergedEnd, cur.start);
      if t.start <= curEnd && mergedQty <= maxBatch
      then batches[|batches| - 1 := Batch(cur.start, mergedQty, cur.members + [t])]
      else batches + [Batch(t.start, t.qty, [t])]
  }

  function AppendAll(ts: seq<Item>, k: nat, maxBatch: nat): seq<Batch>
    requires k <= |ts|
  {
    if k == 0 then [] else AppendMerged(AppendAll(ts, k - 1, maxBatch), ts[k - 1], maxBatch)
  }

  /** Merges an address-sorted group of tags. */
  method MergeBatches(ts: seq<Item>, maxBatch: nat) returns (batches: seq<Batch>)
    requires Group(ts)
    ensures batches == AppendAll(ts, |ts|, maxBatch)
  {
    if |ts| == 0 {
      return [];
    }
    batches := [];
    var cur := Batch(ts[0].start, ts[0].qty, [ts[0]]);
    var curEnd := Add16(cur.start, cur.qty);
    assert AppendAll(ts, 0, maxBatch) == [];
    var k := 1;
    while k < |ts|
      invariant 1 <= k <= |ts|
      invariant batches + [cur] == AppendAll(ts, k, maxBatch)
      invariant curEnd == Add16(cur.start, cur.qty)
    {
      var t := ts[k];
      var tEnd := Add16(t.start, t.qty);
      var mergedEnd := Max16(curEnd, tEnd);
      var mergedQty := Sub16(mergedEnd, cur.start);
      assert (batches + [cur])[|batches + [cur]| - 1] == cur;
      if t.start <= curEnd && mergedQty <= maxBatch {
        cur := Batch(cur.start, mergedQty, cur.members + [t]);
        curEnd := mergedEnd;
        assert batches + [cur] == AppendAll(ts, k + 1, maxBatch);
      } else {
        batches := batches + [cur];
        cur := Batch(t.start, t.qty, [t]);
        curEnd := tEnd;
      }
      k := k + 1;
    }
    batches := batches + [cur];
  }

  // ---------------------------------------------------------------------------
  // The batches are the greedy runs of the wrapped ranges
  // ---------------------------------------------------------------------------

  function BatchOf(ts: seq<Item>, i: nat, j: nat): Batch
    requires i < j <= |ts|
  {
    var end := MaxEnd(Ranges(ts), i, j);
    Batch(ts[i].start, if j == i + 1 || !(ts[i].start <= end < WORD) then ts[i].qty else end - ts[i].start, ts[i..j])
  }

  /** A run never wraps past its own start. */
  lemma {:induction false} RunEndAbove(maxBatch: nat, ts: seq<Item>, i: nat, j: nat)
    requires Group(ts) && IsRun(LimitsFor(maxBatch), Ranges(ts), i, j) && i + 1 < j
    ensures ts[i].start <= MaxEnd(Ranges(ts), i, j) < WORD
    ensures MaxEnd(Ranges(ts), i, j) <= ts[i].start + maxBatch
  {
    var x := MaxEndAttained(Ranges(ts), i, j);
    assert Fits(LimitsFor(maxBatch), Ranges(ts), i, j - 1);
  }

  lemma {:induction false} BatchEnd(maxBatch: nat, ts: seq<Item>, i: nat, k: nat)
    requires Group(ts) && IsRun(LimitsFor(maxBatch), Ranges(ts), i, k)
    ensures Add16(BatchOf(ts, i, k).start, BatchOf(ts, i, k).qty) == MaxEnd(Ranges(ts), i, k)
  {
    if i + 1 < k {
      RunEndAbove(maxBatch, ts, i, k);
    }
  }

  /** A span of tags and the batch that reads it. */
  ghost predicate Reads(ts: seq<Item>, sp: Span, b: Batch) {
    sp.lo < sp.hi <= |ts| && b == BatchOf(ts, sp.lo, sp.hi)
  }

  ghost function ReadsOf(ts: seq<Item>): (Span, Batch) -> bool {
    (sp, r) => Reads(ts, sp, r)
  }

  lemma {:induction false} AppendFits(ts: seq<Item>, maxBatch: nat, cur: Batch, i: nat, k: nat, end: Word)
    requires Group(ts) && i < k < |ts| && maxBatch < WORD && cur == BatchOf(ts, i, k)
    requires end == MaxEnd(Ranges(ts), i, k) == Add16(cur.start, cur.qty) && Fits(LimitsFor(maxBatch), Ranges(ts), i, k)
    ensures AppendMerged([cur], ts[k], maxBatch) == [BatchOf(ts, i, k + 1)]
  {
    assert ts[i..k] + [ts[k]] == ts[i..k + 1];
    assert MaxEnd(Ranges(ts), i, k + 1) == Max16(end, Add16(ts[k].start, ts[k].qty));
    assert ts[i].start <= ts[k].start;
  }

  lemma {:induction false} AppendSplits(ts: seq<Item>, maxBatch: nat, cur: Batch, i: nat, k: nat, end: Word)
    requires Group(ts) && i < k < |ts| && maxBatch < WORD && cur == BatchOf(ts, i, k)
    requires end == MaxEnd(Ranges(ts), i, k) == Add16(cur.start, cur.qty) && !Fits(LimitsFor(maxBatch), Ranges(ts), i, k)
    ensures AppendMerged([cur], ts[k], maxBatch) == [cur, BatchOf(ts, k, k + 1)]
  {
    assert ts[k..k + 1] == [ts[k]];
    assert ts[i].start <= ts[k].start;
  }

  /** Only the newest batch matters to the next tag. */
  lemma {:induction false} AppendLast(batches: seq<Batch>, cur: Batch, t: Item, maxBatch: nat)
    ensures AppendMerged(batches + [cur], t, maxBatch) == batches + AppendMerged([cur], t, maxBatch)
  {
    assert (batches + [cur])[|batches| := AppendMerged([cur], t, maxBatch)[0]] == batches + [AppendMerged([cur], t, maxBatch)[0]];
  }

  lemma {:induction false} NewestStep(ts: seq<Item>, maxBatch: nat, k: nat, sp: Span, cur: Batch, ext: seq<Span>, app: seq<Batch>)
    requires Group(ts) && maxBatch < WORD && k < |ts| && sp.hi == k
    requires Reads(ts, sp, cur) && IsRun(LimitsFor(maxBatch), Ranges(ts), sp.lo, sp.hi)
    requires ext == Extend(LimitsFor(maxBatch), Ranges(ts), [sp], k) && app == AppendMerged([cur], ts[k], maxBatch)
    ensures Mirrors(ReadsOf(ts), ext, app)
  {
    var end := MaxEnd(Ranges(ts), sp.lo, k);
    BatchEnd(maxBatch, ts, sp.lo, k);
    if Fits(LimitsFor(maxBatch), Ranges(ts), sp.lo, k) {
      AppendFits(ts, maxBatch, cur, sp.lo, k, end);
      assert ext == [Span(sp.lo, k + 1)];
    } else {
      AppendSplits(ts, maxBatch, cur, sp.lo, k, end);
      assert ext == [sp, Span(k, k + 1)];
    }
  }

  lemma {:induction false} MirrorsStep(ts: seq<Item>, maxBatch: nat, k: nat, a: seq<Span>, sp: Span, s: seq<Batch>, cur: Batch)
    requires Group(ts) && maxBatch < WORD && 0 < k < |ts| && Mirrors(ReadsOf(ts), a, s) && Reads(ts, sp, cur)
    requires sp.hi == k && IsRun(LimitsFor(maxBatch), Ranges(ts), sp.lo, sp.hi)
    ensures Mirrors(ReadsOf(ts), Extend(LimitsFor(maxBatch), Ranges(ts), a + [sp], k), AppendMerged(s + [cur], ts[k], maxBatch))
  {
    var ext, app := Extend(LimitsFor(maxBatch), Ranges(ts), [sp], k), AppendMerged([cur], ts[k], maxBatch);
    NewestStep(ts, maxBatch, k, sp, cur, ext, app);
    ExtendLast(LimitsFor(maxBatch), Ranges(ts), a, sp, k);
    AppendLast(s, cur, ts[k], maxBatch);
    MirrorsSplit(ReadsOf(ts), a, ext, s, app);
  }

  /** Each batch has the start, the quantity and the tags of one greedy run of the wrapped ranges. */
  lemma {:induction false} BatchesAreRuns(ts: seq<Item>, maxBatch: nat, k: nat, b: seq<Span>, s: seq<Batch>)
    requires k <= |ts| && Group(ts) && maxBatch < WORD
    requires b == Spans(LimitsFor(maxBatch), Ranges(ts), k) && s == AppendAll(ts, k, maxBatch)
    ensures Mirrors(ReadsOf(ts), b, s)
  {
    if k == 1 {
      assert AppendAll(ts, 0, maxBatch) == [] && Spans(LimitsFor(maxBatch), Ranges(ts), 0) == [];
      assert ts[0..1] == [ts[0]];
      assert b == [Span(0, 1)] && s == [BatchOf(ts, 0, 1)];
    } else if k > 1 {
      var b', s' := Spans(LimitsFor(maxBatch), Ranges(ts), k - 1), AppendAll(ts, k - 1, maxBatch);
      BatchesAreRuns(ts, maxBatch, k - 1, b', s');
      SpansAreRuns(LimitsFor(maxBatch), Ranges(ts), k - 1, b');
      MirrorsInit(ReadsOf(ts), b', s');
      var last := b'[|b'| - 1];
      assert IsRun(LimitsFor(maxBatch), Ranges(ts), last.lo, last.hi);
      MirrorsStep(ts, maxBatch, k - 1, b'[..|b'| - 1], last, s'[..|s'| - 1], s'[|s'| - 1]);
    }
  }

  /** Batch `t` of the whole group: the run it reads. */
  lemma {:induction false} BatchRun(ts: seq<Item>, maxBatch: nat, t: nat) returns (i: nat, j: nat)
    requires Group(ts) && maxBatch < WORD && t < |AppendAll(ts, |ts|, maxBatch)|
    ensures IsRun(LimitsFor(maxBatch), Ranges(ts), i, j) && AppendAll(ts, |ts|, maxBatch)[t] == BatchOf(ts, i, j)
  {
    var b, s := Spans(LimitsFor(maxBatch), Ranges(ts), |ts|), AppendAll(ts, |ts|, maxBatch);
    BatchesAreRuns(ts, maxBatch, |ts|, b, s);
    SpansAreRuns(LimitsFor(maxBatch), Ranges(ts), |ts|, b);
    i, j := b[t].lo, b[t].hi;
    assert Reads(ts, b[t], s[t]);
  }
}
