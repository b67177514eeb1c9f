/**
 The sliding rate window: sixty 64-bit words, each a second and a saturating count packed together,
 against the full history of observations.
 */
module RateWindow {

  const SLOTS: nat := 60
  const COUNT_SPAN: nat := 0x100_0000
  const COUNT_MAX: nat := 0xFF_FFFF
  const WORD_SPAN: nat := 0x1_0000_0000_0000_0000
  const SECOND_SPAN: nat := 0x100_0000_0000

  datatype Obs = Obs(sec: nat, n: nat)

  function Min(a: nat, b: nat): nat { if a < b then a else b }

  /** 64-bit addition. */
  function Add64(a: nat, b: nat): nat {
    if a + b < WORD_SPAN then a + b else (a + b) % WORD_SPAN
  }

  /** A second and a count in one word; the shift drops what does not fit 64 bits. */
  function Pack(sec: nat, count: nat): nat {
    (sec * COUNT_SPAN) % WORD_SPAN + Min(count, COUNT_MAX)
  }

  function Second(w: nat): nat { w / COUNT_SPAN }

  function Count(w: nat): nat { w % COUNT_SPAN }

  /** Seconds below 2^40 and capped counts survive packing. */
  lemma {:induction false} PackRoundTrip(sec: nat, count: nat)
    requires sec < SECOND_SPAN
    ensures Second(Pack(sec, count)) == sec && Count(Pack(sec, count)) == Min(count, COUNT_MAX)
  {
  }

  /** Adding to a bucket saturates as it should exactly when the 64-bit sum does not wrap. */
  lemma {:induction false} SaturatesIff(count: nat, n: nat)
    requires count <= COUNT_MAX && n < WORD_SPAN
    ensures Min(Add64(count, n), COUNT_MAX) == Min(count + n, COUNT_MAX) <==> count + n < WORD_SPAN
  {
  }

  /** The shortest failure: one point, then 2^64 - 1 more in the same second, count as none. */
  lemma {:induction false} WrapExample()
    ensures Min(Add64(1, WORD_SPAN - 1), COUNT_MAX) == 0
  {
  }

  // ---------------------------------------------------------------------------
  // The history and what the window should show of it
  // ---------------------------------------------------------------------------

  /** Points observed in one second. */
  function Total(hist: seq<Obs>, sec: int): nat {
    if hist == [] then 0
    else Total(hist[..|hist| - 1], sec) + (if hist[|hist| - 1].sec == sec then hist[|hist| - 1].n else 0)
  }

  /** What 64-bit, saturating counting makes of the points of one second. */
  function Tally(hist: seq<Obs>, sec: int): nat {
    if hist == [] then 0
    else
      var before, x := Tally(hist[..|hist| - 1], sec), hist[|hist| - 1];
      if x.sec == sec then Min(Add64(before, x.n), COUNT_MAX) else before
  }

  /** Counts small enough that no 64-bit addition to a bucket wraps. */
  ghost predicate NoWrap(hist: seq<Obs>) {
    forall i :: 0 <= i < |hist| ==> hist[i].n <= WORD_SPAN - COUNT_SPAN
  }

  /** Without wrap-around, saturating step by step is saturating the total. */
  lemma {:induction false} TallyIsCapped(hist: seq<Obs>, sec: int)
    requires NoWrap(hist)
    ensures Tally(hist, sec) == Min(Total(hist, sec), COUNT_MAX)
  {
    if hist != [] {
      TallyIsCapped(hist[..|hist| - 1], sec);
    }
  }

  /** The tallies of all seconds from `lo` up to but excluding `hi`. */
  function WindowSum(hist: seq<Obs>, lo: int, hi: int): nat
    requires lo <= hi
    decreases hi - lo
  {
    if lo == hi then 0 else WindowSum(hist, lo, hi - 1) + Tally(hist, hi - 1)
  }

  /** The same with each second's total capped. */
  function CappedSum(hist: seq<Obs>, lo: int, hi: int): nat
    requires lo <= hi
    decreases hi - lo
  {
    if lo == hi then 0 else CappedSum(hist, lo, hi - 1) + Min(Total(hist, hi - 1), COUNT_MAX)
  }

  lemma {:induction false} WindowIsCapped(hist: seq<Obs>, lo: int, hi: int)
    requires lo <= hi && NoWrap(hist)
    ensures WindowSum(hist, lo, hi) == CappedSum(hist, lo, hi)
    decreases hi - lo
  {
    if lo < hi {
      WindowIsCapped(hist, lo, hi - 1);
      TallyIsCapped(hist, hi - 1);
    }
  }

  lemma {:induction false} WindowSplit(hist: seq<Obs>, lo: int, mid: int, hi: int)
    requires lo <= mid <= hi
    ensures WindowSum(hist, lo, hi) == WindowSum(hist, lo, mid) + WindowSum(hist, mid, hi)
    decreases hi - mid
  {
    if mid < hi {
      WindowSplit(hist, lo, mid, hi - 1);
    }
  }

  // ---------------------------------------------------------------------------
  // The ring
  // ---------------------------------------------------------------------------

  function NewWord(w: nat, sec: nat, n: nat): nat {
    if Second(w) != sec then Pack(sec, n) else Pack(sec, Add64(Count(w), n))
  }

  /** The words after a history of observations, whatever the clock does. */
  function Ring(hist: seq<Obs>): (words: seq<nat>)
    ensures |words| == SLOTS
  {
    if hist == [] then seq(SLOTS, i => 0)
    else
      var words, x := Ring(hist[..|hist| - 1]), hist[|hist| - 1];
      words[x.sec % SLOTS := NewWord(words[x.sec % SLOTS], x.sec, x.n)]
  }

  lemma {:induction false} RingSnoc(hist: seq<Obs>, x: Obs)
    ensures Ring(hist + [x]) == Ring(hist)[x.sec % SLOTS := NewWord(Ring(hist)[x.sec % SLOTS], x.sec, x.n)]
  {
    assert (hist + [x])[..|hist|] == hist;
  }

  // ---------------------------------------------------------------------------
  // What a bucket says
  // ---------------------------------------------------------------------------

  /** All observations so far that fall in slot `j` are at or before `sec`. */
  ghost predicate NoneLater(hist: seq<Obs>, j: nat, sec: int) {
    forall i :: 0 <= i < |hist| && hist[i].sec % SLOTS == j ==> hist[i].sec <= sec
  }

  ghost predicate Observed(hist: seq<Obs>, sec: int) {
    exists i :: 0 <= i < |hist| && hist[i].sec == sec
  }

  /** Bucket `j` holds the newest second that fell in it, with that second's tally. */
  ghost predicate Bucket(hist: seq<Obs>, j: nat, w: nat) {
    || (w == 0 && NoneLater(hist, j, -1))
    || (Second(w) % SLOTS == j && Count(w) == Tally(hist, Second(w)) && NoneLater(hist, j, Second(w)) && Observed(hist, Second(w)))
  }

  ghost predicate Buckets(hist: seq<Obs>, words: seq<nat>) {
    |words| == SLOTS && forall j :: 0 <= j < SLOTS ==> Bucket(hist, j, words[j])
  }

  lemma {:induction false} NothingThere(hist: seq<Obs>, j: nat, sec: int, t: int)
    requires NoneLater(hist, j, sec) && sec < t && t % SLOTS == j
    ensures Tally(hist, t) == 0
  {
    if hist != [] {
      var x := hist[|hist| - 1];
      NothingThere(hist[..|hist| - 1], j, sec, t);
    }
  }

  // ---------------------------------------------------------------------------
  // When the ring is right
  // ---------------------------------------------------------------------------

  ghost predicate UpTo(hist: seq<Obs>, now: int) {
    forall i :: 0 <= i < |hist| ==> hist[i].sec <= now
  }

  /** Observations of points, with 64-bit counts and seconds that can be packed. */
  ghost predicate Typed(hist: seq<Obs>) {
    forall i :: 0 <= i < |hist| ==> hist[i].sec < SECOND_SPAN && 0 < hist[i].n < WORD_SPAN
  }

  /** No observation is of an earlier second than one before it in its slot: the clock never steps back by whole minutes. */
  ghost predicate SlotsInOrder(hist: seq<Obs>) {
    forall i, j :: 0 <= i < j < |hist| && hist[i].sec % SLOTS == hist[j].sec % SLOTS ==> hist[i].sec <= hist[j].sec
  }

  lemma {:induction false} TallySnoc(hist: seq<Obs>, x: Obs, sec: int)
    ensures Tally(hist + [x], sec) == if x.sec == sec then Min(Add64(Tally(hist, sec), x.n), COUNT_MAX) else Tally(hist, sec)
  {
    assert (hist + [x])[..|hist|] == hist;
  }

  lemma {:induction false} ObservedSnoc(hist: seq<Obs>, x: Obs, sec: int)
    ensures Observed(hist + [x], sec) <==> Observed(hist, sec) || x.sec == sec
  {
    if Observed(hist, sec) {
      var i :| 0 <= i < |hist| && hist[i].sec == sec;
      assert (hist + [x])[i] == hist[i];
    }
    assert (hist + [x])[|hist|] == x;
  }

  lemma {:induction false} OwnBucket(hist: seq<Obs>, w: nat, x: Obs)
    requires Bucket(hist, x.sec % SLOTS, w) && NoneLater(hist, x.sec % SLOTS, x.sec) && x.sec < SECOND_SPAN && x.n < WORD_SPAN
    ensures Bucket(hist + [x], x.sec % SLOTS, NewWord(w, x.sec, x.n))
  {
    TallySnoc(hist, x, x.sec);
    ObservedSnoc(hist, x, x.sec);
    if NoneLater(hist, x.sec % SLOTS, -1) {
      NothingThere(hist, x.sec % SLOTS, -1, x.sec);
    } else if Second(w) < x.sec {
      NothingThere(hist, x.sec % SLOTS, Second(w), x.sec);
    }
    PackRoundTrip(x.sec, x.n);
    PackRoundTrip(x.sec, Add64(Count(w), x.n));
  }

  lemma {:induction false} OtherBucket(hist: seq<Obs>, j: nat, w: nat, x: Obs)
    requires Bucket(hist, j, w) && x.sec % SLOTS != j
    ensures Bucket(hist + [x], j, w)
  {
    TallySnoc(hist, x, Second(w));
    ObservedSnoc(hist, x, Second(w));
  }

  /** If slots are in order, every bucket of the ring is right. */
  lemma {:induction false} RingBuckets(hist: seq<Obs>)
    requires Typed(hist) && SlotsInOrder(hist)
    ensures Buckets(hist, Ring(hist))
  {
    if hist != [] {
      var init, x := hist[..|hist| - 1], hist[|hist| - 1];
      RingBuckets(init);
      assert hist == init + [x];
      RingSnoc(init, x);
      forall j | 0 <= j < SLOTS ensures Bucket(hist, j, Ring(hist)[j]) {
        assert Bucket(init, j, Ring(init)[j]);
        if j == x.sec % SLOTS {
          OwnBucket(init, Ring(init)[j], x);
        } else {
          OtherBucket(init, j, Ring(init)[j], x);
        }
      }
    }
  }

  /** The ring has been right all along. */
  ghost predicate AlwaysRight(hist: seq<Obs>) {
    forall k :: 0 <= k <= |hist| ==> Buckets(hist[..k], Ring(hist[..k]))
  }

  /** An observation of an earlier second than one before it in its slot leaves a wrong bucket. */
  lemma {:induction false} StepBackBreaks(hist: seq<Obs>, i: nat, j: nat)
    requires Typed(hist) && i < j < |hist| && hist[i].sec % SLOTS == hist[j].sec % SLOTS && hist[i].sec > hist[j].sec
    ensures !Buckets(hist[..j + 1], Ring(hist[..j + 1]))
  {
    var now, x := hist[..j + 1], hist[j];
    var slot := x.sec % SLOTS;
    assert now == hist[..j] + [x];
    RingSnoc(hist[..j], x);
    var w := Ring(now)[slot];
    PackRoundTrip(x.sec, x.n);
    PackRoundTrip(x.sec, Add64(Count(Ring(hist[..j])[slot]), x.n));
    assert Second(w) == x.sec && now[i].sec == hist[i].sec;
    assert !NoneLater(now, slot, x.sec) && !NoneLater(now, slot, -1);
    assert !Bucket(now, slot, w);
  }

  /** Every bucket holds the newest second of its slot and its tally at all times, if and only if no observation is of an earlier second than one before it in its slot. */
  lemma {:induction false} RightIff(hist: seq<Obs>)
    requires Typed(hist)
    ensures AlwaysRight(hist) <==> SlotsInOrder(hist)
  {
    if SlotsInOrder(hist) {
      forall k | 0 <= k <= |hist| ensures Buckets(hist[..k], Ring(hist[..k])) {
        RingBuckets(hist[..k]);
      }
    } else {
      var i, j :| 0 <= i < j < |hist| && hist[i].sec % SLOTS == hist[j].sec % SLOTS && hist[i].sec > hist[j].sec;
      StepBackBreaks(hist, i, j);
    }
  }

  // ---------------------------------------------------------------------------
  // Summing
  // ---------------------------------------------------------------------------

  /** What a bucket adds to the sum at `now`. */
  function Share(w: nat, now: nat): nat {
    if Count(w) != 0 && Second(w) <= now && now - Second(w) < SLOTS then Count(w) else 0
  }

  /** The second of the window ending at `now` that falls in slot `j`. */
  function SecondOf(now: nat, j: nat): int {
    if j <= now % SLOTS then now - now % SLOTS + j else now - now % SLOTS + j - SLOTS
  }

  /** Two seconds of one slot less than a window apart are the same. */
  lemma {:induction false} SameSlot(a: int, b: int)
    requires a % SLOTS == b % SLOTS && a - b < SLOTS && b - a < SLOTS
    ensures a == b
  {
  }

  lemma {:induction false} SecondOfSlot(now: nat, j: nat)
    requires j < SLOTS
    ensures SecondOf(now, j) % SLOTS == j && now - SLOTS < SecondOf(now, j) <= now
  {
  }

  /** A bucket adds the tally of its second in the window. */
  lemma {:induction false} ShareIs(hist: seq<Obs>, j: nat, w: nat, now: nat)
    requires j < SLOTS && Bucket(hist, j, w) && UpTo(hist, now)
    ensures Share(w, now) == Tally(hist, SecondOf(now, j))
  {
    SecondOfSlot(now, j);
    var t := SecondOf(now, j);
    if NoneLater(hist, j, -1) {
      NothingBefore(hist, j, t);
      if w != 0 {
        NothingBefore(hist, j, Second(w));
      }
    } else if now - Second(w) < SLOTS {
      SameSlot(Second(w), t);
    } else {
      NothingThere(hist, j, Second(w), t);
    }
  }

  lemma {:induction false} NothingBefore(hist: seq<Obs>, j: nat, t: int)
    requires NoneLater(hist, j, -1) && t % SLOTS == j
    ensures Tally(hist, t) == 0
  {
    if hist != [] {
      NothingBefore(hist[..|hist| - 1], j, t);
    }
  }

  function SumShares(words: seq<nat>, now: nat, k: nat): nat
    requires k <= |words|
  {
    if k == 0 then 0 else SumShares(words, now, k - 1) + Share(words[k - 1], now)
  }

  /** Slots up to that of `now` are the newest seconds. */
  lemma {:induction false} NewerShares(hist: seq<Obs>, words: seq<nat>, now: nat, k: nat)
    requires Buckets(hist, words) && UpTo(hist, now) && k <= now % SLOTS + 1
    ensures var base := now - now % SLOTS; SumShares(words, now, k) == WindowSum(hist, base, base + k)
  {
    if k > 0 {
      NewerShares(hist, words, now, k - 1);
      ShareIs(hist, k - 1, words[k - 1], now);
      assert SecondOf(now, k - 1) == now - now % SLOTS + k - 1;
    }
  }

  /** The others are the oldest of the window. */
  lemma {:induction false} OlderShares(hist: seq<Obs>, words: seq<nat>, now: nat, k: nat)
    requires Buckets(hist, words) && UpTo(hist, now) && now % SLOTS + 1 <= k <= SLOTS
    ensures var base := now - now % SLOTS;
            SumShares(words, now, k) == WindowSum(hist, base, now + 1) + WindowSum(hist, now + 1 - SLOTS, base + k - SLOTS)
  {
    if k == now % SLOTS + 1 {
      NewerShares(hist, words, now, k);
    } else {
      OlderShares(hist, words, now, k - 1);
      ShareIs(hist, k - 1, words[k - 1], now);
      assert SecondOf(now, k - 1) == now - now % SLOTS + k - 1 - SLOTS;
    }
  }

  /**
   Unless the clock steps back by whole minutes, the ring shows exactly the tallies of the last sixty
   seconds, which without 64-bit wrap-around are each second's points, capped.
   */
  lemma {:induction false} RingRefinesHistory(hist: seq<Obs>, now: nat)
    requires Typed(hist) && SlotsInOrder(hist) && UpTo(hist, now)
    ensures SumShares(Ring(hist), now, SLOTS) == WindowSum(hist, now + 1 - SLOTS, now + 1)
    ensures NoWrap(hist) ==> SumShares(Ring(hist), now, SLOTS) == CappedSum(hist, now + 1 - SLOTS, now + 1)
  {
    RingBuckets(hist);
    OlderShares(hist, Ring(hist), now, SLOTS);
    WindowSplit(hist, now + 1 - SLOTS, now - now % SLOTS, now + 1);
    if NoWrap(hist) {
      WindowIsCapped(hist, now + 1 - SLOTS, now + 1);
    }
  }

  /** A clock that steps back a minute makes the ring forget the newer second. */
  lemma {:induction false} StepBackExample()
    ensures Ring([Obs(60, 5), Obs(0, 1)])[0] == Pack(0, 1) && Share(Pack(0, 1), 60) == 0 && Tally([Obs(60, 5), Obs(0, 1)], 60) == 5
  {
    var a, b := Obs(60, 5), Obs(0, 1);
    assert [a, b][..1] == [a] && [a][..0] == [];
    assert Ring([a])[0] == Pack(60, 5);
    PackRoundTrip(60, 5);
    PackRoundTrip(0, 1);
    assert Tally([a], 60) == 5;
  }

  class Window {
    const buckets: array<nat>
    ghost var hist: seq<Obs>

    ghost predicate Valid()
      reads this, buckets
    {
      buckets[..] == Ring(hist)
    }

    constructor ()
      ensures Valid() && hist == [] && fresh(buckets)
    {
      buckets := new nat[SLOTS](i => 0);
      hist := [];
    }

    /** Counts `n` points against a second, whatever it is; no points change nothing. */
    method Observe(now: nat, n: nat)
      requires Valid() && now < WORD_SPAN && n < WORD_SPAN
      modifies this, buckets
      ensures Valid() && hist == if n == 0 then old(hist) else old(hist) + [Obs(now, n)]
    {
      if n == 0 {
        return;
      }
      RingSnoc(hist, Obs(now, n));
      var slot := now % SLOTS;
      ghost var words := buckets[..];
      var w := buckets[slot];
      if Second(w) != now {
        buckets[slot] := Pack(now, n);
      } else {
        buckets[slot] := Pack(now, Add64(Count(w), n));
      }
      assert buckets[..] == words[slot := NewWord(words[slot], now, n)];
      hist := hist + [Obs(now, n)];
    }

    /**
     The sum of the buckets stamped within the last sixty seconds: unless the clock has stepped back
     by whole minutes, the points of those seconds, each capped at what a bucket can hold.
     */
    method Sum(now: nat) returns (total: nat)
      requires Valid()
      ensures total == SumShares(Ring(hist), now, SLOTS)
      ensures Typed(hist) && SlotsInOrder(hist) && UpTo(hist, now) ==> total == WindowSum(hist, now + 1 - SLOTS, now + 1)
      ensures Typed(hist) && SlotsInOrder(hist) && UpTo(hist, now) && NoWrap(hist) ==> total == CappedSum(hist, now + 1 - SLOTS, now + 1)
    {
      total := 0;
      for i := 0 to SLOTS
        invariant total == SumShares(buckets[..], now, i)
      {
        var w := buckets[i];
        if Count(w) != 0 && Second(w) <= now && now - Second(w) < SLOTS {
          total := total + Count(w);
        }
      }
      if Typed(hist) && SlotsInOrder(hist) && UpTo(hist, now) {
        RingRefinesHistory(hist, now);
      }
    }
  }
}
