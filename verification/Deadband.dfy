/**
 The scheduler's deadband filter with heartbeats, over whole sample streams. Values are reals and
 every sample carries the clock reading at which it is filtered.
 */
module Deadband {
  import opened Common

  type Tag = nat

  /** Quality is good or not; the value is a number or something a deadband does not apply to. */
  datatype Sample = Sample(tag: Tag, good: bool, number: Option<real>, now: int)

  /** Thresholds and heartbeat periods by tag. */
  datatype Task = Task(deadBands: map<Tag, real>, heartbeats: map<Tag, int>)

  datatype State = State(lastValues: map<Tag, real>, lastSent: map<Tag, int>, beats: nat)

  datatype Ruling = Pass | Release(value: real) | Beat | Suppress

  function Abs(x: real): real { if x < 0.0 then -x else x }

  /** Whether the filter looks at the sample at all. */
  predicate Filtered(task: Task, x: Sample) {
    x.tag in task.deadBands && task.deadBands[x.tag] > 0.0 && x.good && x.number.Some?
  }

  predicate HasHeartbeat(task: Task, tag: Tag) {
    tag in task.heartbeats && task.heartbeats[tag] > 0
  }

  /** What becomes of a sample. */
  function Rule(task: Task, st: State, x: Sample): Ruling {
    if !Filtered(task, x) then Pass
    else if x.tag !in st.lastValues || Abs(x.number.value - st.lastValues[x.tag]) >= task.deadBands[x.tag] then Release(x.number.value)
    else if HasHeartbeat(task, x.tag) && (x.tag !in st.lastSent || x.now - st.lastSent[x.tag] >= task.heartbeats[x.tag]) then Beat
    else Suppress
  }

  function After(st: State, x: Sample, r: Ruling): State {
    match r
    case Release(v) => st.(lastValues := st.lastValues[x.tag := v], lastSent := st.lastSent[x.tag := x.now])
    case Beat => st.(lastSent := st.lastSent[x.tag := x.now], beats := st.beats + 1)
    case _ => st
  }

  /** The state after a stream, and what it lets through. */
  function Run(task: Task, st: State, xs: seq<Sample>): State {
    if xs == [] then st
    else var s := Run(task, st, xs[..|xs| - 1]); After(s, xs[|xs| - 1], Rule(task, s, xs[|xs| - 1]))
  }

  function Output(task: Task, st: State, xs: seq<Sample>): seq<Sample> {
    if xs == [] then []
    else Output(task, st, xs[..|xs| - 1]) +
         (if Rule(task, Run(task, st, xs[..|xs| - 1]), xs[|xs| - 1]) == Suppress then [] else [xs[|xs| - 1]])
  }

  // ---------------------------------------------------------------------------
  // The runner
  // ---------------------------------------------------------------------------

  class TaskRunner {
    const task: Task
    var lastValues: map<Tag, real>
    var lastSent: map<Tag, int>
    var heartbeats: nat

    constructor (task: Task)
      ensures this.task == task && Current() == FRESH
    {
      this.task := task;
      lastValues, lastSent, heartbeats := map[], map[], 0;
    }

    function Current(): State
      reads this
    {
      State(lastValues, lastSent, heartbeats)
    }

    /** Filters the values of one read; without any deadband everything passes. */
    method ApplyDeadbandFilter(values: seq<Sample>) returns (filtered: seq<Sample>)
      modifies this
      ensures filtered == Output(task, old(Current()), values)
      ensures Current() == Run(task, old(Current()), values)
    {
      if task.deadBands == map[] {
        NothingFiltered(task, Current(), values);
        return values;
      }
      filtered := [];
      for i := 0 to |values|
        invariant filtered == Output(task, old(Current()), values[..i])
        invariant Current() == Run(task, old(Current()), values[..i])
      {
        var v := values[i];
        assert values[..i + 1][..i] == values[..i];
        if v.tag !in task.deadBands || task.deadBands[v.tag] <= 0.0 || !v.good || v.number.None? {
          filtered := filtered + [v];
        } else if v.tag !in lastValues || Abs(v.number.value - lastValues[v.tag]) >= task.deadBands[v.tag] {
          filtered := filtered + [v];
          lastValues := lastValues[v.tag := v.number.value];
          lastSent := lastSent[v.tag := v.now];
        } else if v.tag in task.heartbeats && task.heartbeats[v.tag] > 0 {
          if v.tag !in lastSent || v.now - lastSent[v.tag] >= task.heartbeats[v.tag] {
            filtered := filtered + [v];
            lastSent := lastSent[v.tag := v.now];
            heartbeats := heartbeats + 1;
          }
        }
      }
      assert values[..|values|] == values;
    }
  }

  const FRESH := State(map[], map[], 0)

  lemma {:induction false} NothingFiltered(task: Task, st: State, xs: seq<Sample>)
    requires task.deadBands == map[]
    ensures Output(task, st, xs) == xs && Run(task, st, xs) == st
  {
    if xs != [] {
      NothingFiltered(task, st, xs[..|xs| - 1]);
      assert xs == xs[..|xs| - 1] + [xs[|xs| - 1]];
    }
  }

  /** Filtering read by read is filtering the whole stream. */
  lemma {:induction false} ReadByRead(task: Task, st: State, a: seq<Sample>, b: seq<Sample>)
    ensures Run(task, st, a + b) == Run(task, Run(task, st, a), b)
    ensures Output(task, st, a + b) == Output(task, st, a) + Output(task, Run(task, st, a), b)
    decreases |b|
  {
    if b == [] {
      assert a + b == a;
    } else {
      ReadByRead(task, st, a, b[..|b| - 1]);
      assert (a + b)[..|a + b| - 1] == a + b[..|b| - 1];
    }
  }

  // ---------------------------------------------------------------------------
  // Bounds over whole streams
  // ---------------------------------------------------------------------------

  /** The last filtered sample of the tag that was let through. */
  function LastReleased(task: Task, xs: seq<Sample>, tag: Tag): Option<Sample> {
    if xs == [] then None
    else
      var x := xs[|xs| - 1];
      var r := Rule(task, Run(task, FRESH, xs[..|xs| - 1]), x);
      if x.tag == tag && (r.Release? || r.Beat?) then Some(x) else LastReleased(task, xs[..|xs| - 1], tag)
  }

  /**
   Baseline and clock of a tag against its last released sample: the clock is that sample's; the
   baseline is its value if the tag has no heartbeat, and closer than the deadband otherwise.
   */
  ghost predicate Tracks(task: Task, st: State, last: Option<Sample>, tag: Tag) {
    && (last.None? <==> tag !in st.lastValues) && (tag in st.lastValues <==> tag in st.lastSent)
    && (last.Some? ==>
          && Filtered(task, last.value) && last.value.tag == tag && st.lastSent[tag] == last.value.now
          && Abs(last.value.number.value - st.lastValues[tag]) < task.deadBands[tag]
          && (!HasHeartbeat(task, tag) ==> st.lastValues[tag] == last.value.number.value))
  }

  lemma {:induction false} TracksStep(task: Task, st: State, last: Option<Sample>, tag: Tag, x: Sample)
    requires Tracks(task, st, last, tag)
    ensures var r := Rule(task, st, x);
            Tracks(task, After(st, x, r), if x.tag == tag && (r.Release? || r.Beat?) then Some(x) else last, tag)
  {
  }

  lemma {:induction false} RunTracks(task: Task, xs: seq<Sample>, tag: Tag)
    ensures Tracks(task, Run(task, FRESH, xs), LastReleased(task, xs, tag), tag)
  {
    if xs != [] {
      RunTracks(task, xs[..|xs| - 1], tag);
      TracksStep(task, Run(task, FRESH, xs[..|xs| - 1]), LastReleased(task, xs[..|xs| - 1], tag), tag, xs[|xs| - 1]);
    }
  }

  /**
   A suppressed sample is a good number of a tag already released, less than one deadband from the
   last released one without a heartbeat and less than two with one; and with a heartbeat, its
   period has not yet elapsed since then.
   */
  lemma {:induction false} SuppressedIsClose(task: Task, xs: seq<Sample>, x: Sample)
    requires Rule(task, Run(task, FRESH, xs), x) == Suppress
    ensures Filtered(task, x) && LastReleased(task, xs, x.tag).Some?
    ensures var last := LastReleased(task, xs, x.tag).value;
            && last.number.Some?
            && (!HasHeartbeat(task, x.tag) ==> Abs(x.number.value - last.number.value) < task.deadBands[x.tag])
            && (HasHeartbeat(task, x.tag) ==> Abs(x.number.value - last.number.value) < 2.0 * task.deadBands[x.tag])
            && (HasHeartbeat(task, x.tag) ==> x.now - last.now < task.heartbeats[x.tag])
  {
    RunTracks(task, xs, x.tag);
  }

  /**
   With a heartbeat two deadbands is the exact bound: for every deadband, every period and every
   distance below two deadbands there is a stream that suppresses a sample that far from the last
   released one, because a heartbeat releases a sample but leaves the baseline.
   */
  lemma {:induction false} TwoDeadbandsAreReached(band: real, period: int, distance: real)
    requires band > 0.0 && period > 0 && 0.0 <= distance < 2.0 * band
    ensures var task := Task(map[0 := band], map[0 := period]);
            var half := distance / 2.0;
            var a, b, c := Sample(0, true, Some(0.0), 0), Sample(0, true, Some(half), period), Sample(0, true, Some(-half), period);
            && Rule(task, Run(task, FRESH, [a, b]), c) == Suppress && LastReleased(task, [a, b], 0) == Some(b)
            && Abs(c.number.value - b.number.value) == distance
  {
    var task := Task(map[0 := band], map[0 := period]);
    var a, b := Sample(0, true, Some(0.0), 0), Sample(0, true, Some(distance / 2.0), period);
    assert [a, b][..1] == [a] && [a][..0] == [];
    assert Run(task, FRESH, [a]) == State(map[0 := 0.0], map[0 := 0], 0);
    assert Run(task, FRESH, [a, b]) == State(map[0 := 0.0], map[0 := period], 1);
  }

  /** Without a heartbeat, a sample a whole deadband away from the last released one is always released. */
  lemma {:induction false} ReleasedIffFar(task: Task, xs: seq<Sample>, x: Sample)
    requires Filtered(task, x) && !HasHeartbeat(task, x.tag)
    ensures var last := LastReleased(task, xs, x.tag);
            Rule(task, Run(task, FRESH, xs), x) == Suppress <==>
              last.Some? && last.value.number.Some? && Abs(x.number.value - last.value.number.value) < task.deadBands[x.tag]
  {
    RunTracks(task, xs, x.tag);
  }

  /** A sample passes unfiltered, and leaves no trace, exactly when it is bad, no number, or of a tag without a deadband. */
  lemma {:induction false} PassesIff(task: Task, st: State, x: Sample)
    ensures Rule(task, st, x) == Pass <==> !x.good || x.number.None? || x.tag !in task.deadBands || task.deadBands[x.tag] <= 0.0
    ensures Rule(task, st, x) == Pass ==> Run(task, st, [x]) == st && Output(task, st, [x]) == [x]
  {
    assert [x][..0] == [] && [] + [x] == [x];
  }

  /** How many samples were let through although they are less than a deadband from the one released before for its distance. */
  function Beats(task: Task, xs: seq<Sample>): nat {
    if xs == [] then 0
    else
      var init, x := xs[..|xs| - 1], xs[|xs| - 1];
      var st := Run(task, FRESH, init);
      Beats(task, init) +
      (if Filtered(task, x) && Rule(task, st, x) != Suppress && x.tag in st.lastValues
          && Abs(x.number.value - st.lastValues[x.tag]) < task.deadBands[x.tag] then 1 else 0)
  }

  /** The heartbeat counter counts them. */
  lemma {:induction false} BeatsCounted(task: Task, xs: seq<Sample>)
    ensures Run(task, FRESH, xs).beats == Beats(task, xs)
  {
    if xs != [] {
      BeatsCounted(task, xs[..|xs| - 1]);
    }
  }

  /** The last sample of the tag that was released for its distance; heartbeats leave it. */
  function Baseline(task: Task, xs: seq<Sample>, tag: Tag): Option<Sample> {
    if xs == [] then None
    else
      var x := xs[|xs| - 1];
      if x.tag == tag && Rule(task, Run(task, FRESH, xs[..|xs| - 1]), x).Release? then Some(x)
      else Baseline(task, xs[..|xs| - 1], tag)
  }

  lemma {:induction false} RunHasBaseline(task: Task, xs: seq<Sample>, tag: Tag)
    ensures var st, b := Run(task, FRESH, xs), Baseline(task, xs, tag);
            && (b.Some? <==> tag in st.lastValues)
            && (b.Some? ==> b.value.number.Some? && st.lastValues[tag] == b.value.number.value)
  {
    if xs != [] {
      RunHasBaseline(task, xs[..|xs| - 1], tag);
    }
  }

  /**
   With or without a heartbeat, a filtered sample is suppressed exactly when it is less than a deadband
   from the last one released for its distance and, with a heartbeat, less than its period after the
   last one released for either reason.
   */
  lemma {:induction false} SuppressedIff(task: Task, xs: seq<Sample>, x: Sample)
    requires Filtered(task, x)
    ensures var base, last := Baseline(task, xs, x.tag), LastReleased(task, xs, x.tag);
            Rule(task, Run(task, FRESH, xs), x) == Suppress <==>
              && base.Some? && base.value.number.Some? && Abs(x.number.value - base.value.number.value) < task.deadBands[x.tag]
              && (HasHeartbeat(task, x.tag) ==> last.Some? && x.now - last.value.now < task.heartbeats[x.tag])
  {
    RunTracks(task, xs, x.tag);
    RunHasBaseline(task, xs, x.tag);
  }

  /** The samples the filter looks at. */
  function GoodOnly(task: Task, xs: seq<Sample>): seq<Sample> {
    if xs == [] then []
    else GoodOnly(task, xs[..|xs| - 1]) + (if Filtered(task, xs[|xs| - 1]) then [xs[|xs| - 1]] else [])
  }

  lemma {:induction false} GoodOnlySnoc(task: Task, xs: seq<Sample>, x: Sample)
    ensures GoodOnly(task, xs + [x]) == GoodOnly(task, xs) + (if Filtered(task, x) then [x] else [])
  {
  }

  lemma {:induction false} RunSnoc(task: Task, st: State, xs: seq<Sample>, x: Sample)
    ensures Run(task, st, xs + [x]) == After(Run(task, st, xs), x, Rule(task, Run(task, st, xs), x))
    ensures Output(task, st, xs + [x]) == Output(task, st, xs) + (if Rule(task, Run(task, st, xs), x) == Suppress then [] else [x])
  {
  }

  /** Bad and non-numeric samples change nothing about which good ones are released, wherever they occur. */
  lemma {:induction false} BadSamplesIrrelevant(task: Task, st: State, xs: seq<Sample>)
    ensures Run(task, st, GoodOnly(task, xs)) == Run(task, st, xs)
    ensures GoodOnly(task, Output(task, st, xs)) == Output(task, st, GoodOnly(task, xs))
  {
    if xs != [] {
      var init, x := xs[..|xs| - 1], xs[|xs| - 1];
      BadSamplesIrrelevant(task, st, init);
      GoodOnlySnoc(task, Output(task, st, init), x);
      if Filtered(task, x) {
        RunSnoc(task, st, GoodOnly(task, init), x);
      } else {
        assert GoodOnly(task, xs) == GoodOnly(task, init);
      }
      if Rule(task, Run(task, st, init), x) == Suppress {
        assert Output(task, st, xs) == Output(task, st, init);
      }
    }
  }
}
