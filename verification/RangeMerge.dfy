/**
 Greedy merging of a start-sorted list of address ranges into consecutive runs, each fetched with
 one request, and the proof that no other way of cutting the list into runs under the same limits
 needs fewer requests. Both device planners are instances.
 */
module RangeMerge {

  /** A half-open address range; `end` may lie below `start` when the source's arithmetic wrapped. */
  datatype Range = Range(start: nat, end: nat)

  /**
   `gap` is the padding a run may read over, `length` the longest run. With `whole` the length is
   that of the run with the candidate added, otherwise only up to the candidate's own end.
   */
  datatype Limits = Limits(gap: nat, length: nat, whole: bool)

  function Max(a: nat, b: nat): nat {
    if a < b then b else a
  }

  /** The highest end among `rs[i..k]`. */
  function MaxEnd(rs: seq<Range>, i: nat, k: nat): nat
    requires i < k <= |rs|
  {
    if k == i + 1 then rs[i].end else Max(MaxEnd(rs, i, k - 1), rs[k - 1].end)
  }

  /** Whether range `k` may join the run `rs[i..k]`. */
  predicate Fits(c: Limits, rs: seq<Range>, i: nat, k: nat)
    requires i < k < |rs|
  {
    && rs[k].start <= MaxEnd(rs, i, k) + c.gap
    && (if c.whole then Max(MaxEnd(rs, i, k), rs[k].end) else rs[k].end) <= rs[i].start + c.length
  }

  /** `rs[i..j]` is a run under the limits. */
  ghost predicate IsRun(c: Limits, rs: seq<Range>, i: nat, j: nat) {
    i < j <= |rs| && forall k :: i < k < j ==> Fits(c, rs, i, k)
  }

  /** Where the greedy run that starts at `i` ends, having got to `k`. */
  function Cut(c: Limits, rs: seq<Range>, i: nat, k: nat): (j: nat)
    requires i < k <= |rs|
    ensures k <= j <= |rs|
    ensures forall x :: k <= x < j ==> Fits(c, rs, i, x)
    ensures j < |rs| ==> !Fits(c, rs, i, j)
    decreases |rs| - k
  {
    if k == |rs| || !Fits(c, rs, i, k) then k else Cut(c, rs, i, k + 1)
  }

  /** The number of greedy runs needed for `rs[i..]`. */
  function GreedyCount(c: Limits, rs: seq<Range>, i: nat): nat
    requires i <= |rs|
    decreases |rs| - i
  {
    if i == |rs| then 0 else 1 + GreedyCount(c, rs, Cut(c, rs, i, i + 1))
  }

  /** `cuts` are the ends of runs that together make up `rs[i..]`. */
  ghost predicate Cutting(c: Limits, rs: seq<Range>, i: nat, cuts: seq<nat>)
    decreases |cuts|
  {
    if cuts == [] then i == |rs|
    else IsRun(c, rs, i, cuts[0]) && Cutting(c, rs, cuts[0], cuts[1..])
  }

  ghost predicate Sorted(rs: seq<Range>) {
    forall i, j :: 0 <= i < j < |rs| ==> rs[i].start <= rs[j].start
  }

  /** No range ends before it starts. */
  ghost predicate Proper(rs: seq<Range>) {
    forall i :: 0 <= i < |rs| ==> rs[i].start <= rs[i].end
  }

  // ---------------------------------------------------------------------------
  // The exchange argument
  // ---------------------------------------------------------------------------

  lemma {:induction false} MaxEndCovers(rs: seq<Range>, i: nat, k: nat, x: nat)
    requires i <= x < k <= |rs|
    ensures rs[x].end <= MaxEnd(rs, i, k)
  {
    if x < k - 1 {
      MaxEndCovers(rs, i, k - 1, x);
    }
  }

  lemma {:induction false} MaxEndAttained(rs: seq<Range>, i: nat, k: nat) returns (x: nat)
    requires i < k <= |rs|
    ensures i <= x < k && rs[x].end == MaxEnd(rs, i, k)
  {
    if k == i + 1 || rs[k - 1].end > MaxEnd(rs, i, k - 1) {
      x := k - 1;
    } else {
      x := MaxEndAttained(rs, i, k - 1);
    }
  }

  /** A greedy cut begins at a range that ends beyond every range of the run it closes, but for the first. */
  lemma {:induction false} CutDominates(c: Limits, rs: seq<Range>, i: nat, x: nat)
    requires Proper(rs) && i < |rs| && i < x < Cut(c, rs, i, i + 1) < |rs|
    ensures rs[x].end < rs[Cut(c, rs, i, i + 1)].end
  {
    var g := Cut(c, rs, i, i + 1);
    assert !Fits(c, rs, i, g) && Fits(c, rs, i, x) && Fits(c, rs, i, g - 1);
    MaxEndCovers(rs, i, g, x);
  }

  /** A run that reaches past a greedy cut can be shortened from the front to start there. */
  lemma {:induction false} Exchange(c: Limits, rs: seq<Range>, i: nat, t: nat, j: nat)
    requires Sorted(rs) && Proper(rs) && i < |rs|
    requires i < t <= Cut(c, rs, i, i + 1) < j && IsRun(c, rs, t, j)
    ensures IsRun(c, rs, Cut(c, rs, i, i + 1), j)
  {
    var g := Cut(c, rs, i, i + 1);
    forall k | g < k < j ensures Fits(c, rs, g, k) {
      assert Fits(c, rs, t, k);
      var x := MaxEndAttained(rs, t, k);
      MaxEndCovers(rs, g, k, g);
      if x < g {
        CutDominates(c, rs, i, x);
      } else {
        MaxEndCovers(rs, g, k, x);
      }
      assert MaxEnd(rs, t, k) <= MaxEnd(rs, g, k);
      var y := MaxEndAttained(rs, g, k);
      MaxEndCovers(rs, t, k, y);
    }
  }

  /** No run that starts at or before `g` reaches past the greedy run from `g`. */
  ghost predicate Reaches(c: Limits, rs: seq<Range>, g: nat)
    requires g < |rs|
  {
    forall t: nat, j: nat :: t <= g && IsRun(c, rs, t, j) ==> j <= Cut(c, rs, g, g + 1)
  }

  lemma {:induction false} RunWithinGreedy(c: Limits, rs: seq<Range>, g: nat, j: nat)
    requires IsRun(c, rs, g, j)
    ensures j <= Cut(c, rs, g, g + 1)
  {
  }

  lemma {:induction false} ReachesNext(c: Limits, rs: seq<Range>, g: nat)
    requires Sorted(rs) && Proper(rs) && g < |rs| && Reaches(c, rs, g) && Cut(c, rs, g, g + 1) < |rs|
    ensures Reaches(c, rs, Cut(c, rs, g, g + 1))
  {
    var n := Cut(c, rs, g, g + 1);
    forall t: nat, j: nat | t <= n && IsRun(c, rs, t, j) ensures j <= Cut(c, rs, n, n + 1) {
      if t > g && j > n {
        Exchange(c, rs, g, t, j);
        RunWithinGreedy(c, rs, n, j);
      }
    }
  }

  lemma {:induction false} GreedyFromOptimal(c: Limits, rs: seq<Range>, g: nat, t: nat, cuts: seq<nat>)
    requires Sorted(rs) && Proper(rs) && t <= g <= |rs| && Cutting(c, rs, t, cuts)
    requires g < |rs| ==> Reaches(c, rs, g)
    ensures GreedyCount(c, rs, g) <= |cuts|
    decreases |cuts|
  {
    if g < |rs| {
      var n := Cut(c, rs, g, g + 1);
      assert IsRun(c, rs, t, cuts[0]);
      if n < |rs| {
        ReachesNext(c, rs, g);
      }
      GreedyFromOptimal(c, rs, n, cuts[0], cuts[1..]);
    }
  }

  /** No cutting of the list into runs under the limits uses fewer requests than the greedy one. */
  lemma {:induction false} GreedyOptimal(c: Limits, rs: seq<Range>, cuts: seq<nat>)
    requires Sorted(rs) && Proper(rs) && Cutting(c, rs, 0, cuts)
    ensures GreedyCount(c, rs, 0) <= |cuts|
  {
    if |rs| > 0 {
      forall t: nat, j: nat | t <= 0 && IsRun(c, rs, t, j) ensures j <= Cut(c, rs, 0, 1) {
        RunWithinGreedy(c, rs, 0, j);
      }
    }
    GreedyFromOptimal(c, rs, 0, 0, cuts);
  }

  // ---------------------------------------------------------------------------
  // The greedy runs, range by range as the planners build them
  // ---------------------------------------------------------------------------

  /** A run of positions, `lo` up to but excluding `hi`. */
  datatype Span = Span(lo: nat, hi: nat)

  /** Range `k` joins the newest run or opens a new one. */
  function Extend(c: Limits, rs: seq<Range>, b: seq<Span>, k: nat): (out: seq<Span>)
    requires k < |rs|
    ensures out != [] && out[|out| - 1].lo < out[|out| - 1].hi == k + 1
  {
    if b != [] && b[|b| - 1].lo < k && Fits(c, rs, b[|b| - 1].lo, k)
    then b[..|b| - 1] + [Span(b[|b| - 1].lo, k + 1)]
    else b + [Span(k, k + 1)]
  }

  /** The runs built from `rs[..k]`, range by range. */
  function Spans(c: Limits, rs: seq<Range>, k: nat): (b: seq<Span>)
    requires k <= |rs|
    ensures k > 0 ==> b != [] && b[|b| - 1].lo < b[|b| - 1].hi == k
  {
    if k == 0 then [] else Extend(c, rs, Spans(c, rs, k - 1), k - 1)
  }

  /** The runs after the ranges from `k` on have been added to `b`. */
  function Grown(c: Limits, rs: seq<Range>, b: seq<Span>, k: nat): seq<Span>
    requires k <= |rs|
    decreases |rs| - k
  {
    if k == |rs| then b else Grown(c, rs, Extend(c, rs, b, k), k + 1)
  }

  lemma {:induction false} GrownSpans(c: Limits, rs: seq<Range>, k: nat, b: seq<Span>)
    requires k <= |rs| && b == Spans(c, rs, k)
    ensures Grown(c, rs, b, k) == Spans(c, rs, |rs|)
    decreases |rs| - k
  {
    if k < |rs| {
      var b' := Extend(c, rs, b, k);
      assert b' == Spans(c, rs, k + 1);
      GrownSpans(c, rs, k + 1, b');
    }
  }

  ghost predicate AllRuns(c: Limits, rs: seq<Range>, b: seq<Span>) {
    forall t :: 0 <= t < |b| ==> IsRun(c, rs, b[t].lo, b[t].hi)
  }

  lemma {:induction false} ExtendKeepsRuns(c: Limits, rs: seq<Range>, b: seq<Span>, k: nat, out: seq<Span>)
    requires k < |rs| && AllRuns(c, rs, b) && (b != [] ==> b[|b| - 1].hi == k) && out == Extend(c, rs, b, k)
    ensures AllRuns(c, rs, out)
  {
    forall t | 0 <= t < |out| ensures IsRun(c, rs, out[t].lo, out[t].hi) {
      if t < |out| - 1 {
        assert out[t] == b[t];
      }
    }
  }

  /** Each run built is a run under the limits. */
  lemma {:induction false} SpansAreRuns(c: Limits, rs: seq<Range>, k: nat, b: seq<Span>)
    requires k <= |rs| && b == Spans(c, rs, k)
    ensures AllRuns(c, rs, b)
  {
    if k > 0 {
      var a := Spans(c, rs, k - 1);
      SpansAreRuns(c, rs, k - 1, a);
      ExtendKeepsRuns(c, rs, a, k - 1, b);
    }
  }

  /** Each run starts where the one before ends, at a range that did not fit it. */
  ghost predicate Adjacent(c: Limits, rs: seq<Range>, b: seq<Span>, t: nat)
    requires t + 1 < |b|
  {
    b[t].hi == b[t + 1].lo < |rs| && b[t].lo < b[t].hi && !Fits(c, rs, b[t].lo, b[t].hi)
  }

  lemma {:induction false} SpansAdjacent(c: Limits, rs: seq<Range>, k: nat, b: seq<Span>, t: nat)
    requires k <= |rs| && b == Spans(c, rs, k) && t + 1 < |b|
    ensures Adjacent(c, rs, b, t)
  {
    var a := Spans(c, rs, k - 1);
    if t + 1 < |a| {
      SpansAdjacent(c, rs, k - 1, a, t);
      assert b[t] == a[t] && b[t + 1].lo == a[t + 1].lo;
    }
  }

  lemma {:induction false} CutIs(c: Limits, rs: seq<Range>, i: nat, k: nat)
    requires IsRun(c, rs, i, k) && (k == |rs| || !Fits(c, rs, i, k))
    ensures Cut(c, rs, i, i + 1) == k
  {
  }

  lemma {:induction false} GreedyCountStep(c: Limits, rs: seq<Range>, i: nat, k: nat)
    requires IsRun(c, rs, i, k) && (k == |rs| || !Fits(c, rs, i, k))
    ensures GreedyCount(c, rs, i) == 1 + GreedyCount(c, rs, k)
  {
    CutIs(c, rs, i, k);
  }

  /** The runs closed so far and the greedy runs from the newest one on make up the greedy number. */
  lemma {:induction false} SpansCountFrom(c: Limits, rs: seq<Range>, k: nat, b: seq<Span>)
    requires 0 < k <= |rs| && b == Spans(c, rs, k)
    ensures |b| - 1 + GreedyCount(c, rs, b[|b| - 1].lo) == GreedyCount(c, rs, 0)
  {
    if k == 1 {
      assert Spans(c, rs, 0) == [] && b == [Span(0, 1)];
    } else {
      var a := Spans(c, rs, k - 1);
      SpansCountFrom(c, rs, k - 1, a);
      SpansAreRuns(c, rs, k - 1, a);
      var last := a[|a| - 1];
      if !Fits(c, rs, last.lo, k - 1) {
        assert IsRun(c, rs, last.lo, last.hi);
        GreedyCountStep(c, rs, last.lo, k - 1);
      }
    }
  }

  /** Building the runs range by range gives the greedy number of runs. */
  lemma {:induction false} SpansCount(c: Limits, rs: seq<Range>)
    ensures |Spans(c, rs, |rs|)| == GreedyCount(c, rs, 0)
  {
    if |rs| > 0 {
      var b := Spans(c, rs, |rs|);
      SpansCountFrom(c, rs, |rs|, b);
      SpansAreRuns(c, rs, |rs|, b);
      var last := b[|b| - 1];
      assert IsRun(c, rs, last.lo, last.hi);
      GreedyCountStep(c, rs, last.lo, |rs|);
    }
  }

  /** So no cutting has fewer. */
  lemma {:induction false} SpansOptimal(c: Limits, rs: seq<Range>, cuts: seq<nat>)
    requires Sorted(rs) && Proper(rs) && Cutting(c, rs, 0, cuts)
    ensures |Spans(c, rs, |rs|)| <= |cuts|
  {
    SpansCount(c, rs);
    GreedyOptimal(c, rs, cuts);
  }

  /** The greedy runs are themselves a cutting. */
  lemma {:induction false} GreedyCutting(c: Limits, rs: seq<Range>, i: nat) returns (cuts: seq<nat>)
    requires i <= |rs|
    ensures Cutting(c, rs, i, cuts) && |cuts| == GreedyCount(c, rs, i)
    decreases |rs| - i
  {
    if i == |rs| {
      cuts := [];
    } else {
      var j := Cut(c, rs, i, i + 1);
      var rest := GreedyCutting(c, rs, j);
      cuts := [j] + rest;
      assert cuts[1..] == rest;
    }
  }

  // ---------------------------------------------------------------------------
  // The requests a planner makes of the runs
  // ---------------------------------------------------------------------------

  /** Only the newest run matters to the next range. */
  lemma {:induction false} ExtendLast(c: Limits, rs: seq<Range>, b: seq<Span>, sp: Span, k: nat)
    requires k < |rs|
    ensures Extend(c, rs, b + [sp], k) == b + Extend(c, rs, [sp], k)
  {
    assert (b + [sp])[..|b|] == b && [sp][..0] == [];
  }

  /** Request by request, the runs and the requests that read them. */
  ghost predicate Mirrors<T>(matches: (Span, T) -> bool, spans: seq<Span>, s: seq<T>) {
    |s| == |spans| && forall t :: 0 <= t < |s| ==> matches(spans[t], s[t])
  }

  lemma {:induction false} MirrorsSplit<T>(matches: (Span, T) -> bool, a: seq<Span>, x: seq<Span>, s: seq<T>, y: seq<T>)
    requires Mirrors(matches, a, s) && Mirrors(matches, x, y)
    ensures Mirrors(matches, a + x, s + y)
  {
    forall t | 0 <= t < |s + y| ensures matches((a + x)[t], (s + y)[t]) {
      if t < |s| {
        assert matches(a[t], s[t]);
      } else {
        assert matches(x[t - |s|], y[t - |s|]);
      }
    }
  }

  lemma {:induction false} MirrorsInit<T>(matches: (Span, T) -> bool, a: seq<Span>, s: seq<T>)
    requires Mirrors(matches, a, s) && a != []
    ensures Mirrors(matches, a[..|a| - 1], s[..|s| - 1]) && matches(a[|a| - 1], s[|s| - 1])
    ensures a == a[..|a| - 1] + [a[|a| - 1]] && s == s[..|s| - 1] + [s[|s| - 1]]
  {
  }
}
