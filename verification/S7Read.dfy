/**
 Merged reads of Siemens S7 memory: planning segments and decoding every tag out of its
 segment's buffer, compared with one read per tag.
 */
module S7Read {
  import opened Common
  import opened RangeMerge
  import opened S7Codec
  import opened StableSort

  const GAP_LIMIT: nat := 32
  const MAX_READ_LEN: nat := 480
  const LIMITS := Limits(GAP_LIMIT, MAX_READ_LEN, false)

  /** A memory area and, for data blocks, the block number. */
  datatype Key = Key(area: nat, dbNumber: nat)

  datatype Tag = Tag(index: nat, key: Key, start: nat, size: nat, isBit: bool, bit: nat, dt: DataType)

  datatype Segment = Segment(key: Key, start: nat, length: nat, entries: seq<Tag>)

  // ---------------------------------------------------------------------------
  // Planning
  // ---------------------------------------------------------------------------

  /** Extends the newest segment when the tag fits its gap and length limits, or starts a new one. */
  function AppendMergedSegment(segments: seq<Segment>, tag: Tag): seq<Segment> {
    var n := |segments|;
    if n > 0 && segments[n - 1].key == tag.key
       && tag.start - (segments[n - 1].start + segments[n - 1].length) <= GAP_LIMIT
       && tag.start + tag.size - segments[n - 1].start <= MAX_READ_LEN
    then
      var cur := segments[n - 1];
      var mergedLen := tag.start + tag.size - cur.start;
      segments[n - 1 := Segment(cur.key, cur.start,
                                if mergedLen > cur.length then mergedLen else cur.length,
                                cur.entries + [tag])]
    else segments + [Segment(tag.key, tag.start, tag.size, [tag])]
  }

  function RangeOf(t: Tag): Range {
    Range(t.start, t.start + t.size)
  }

  function Ranges(ts: seq<Tag>): (rs: seq<Range>)
    ensures |rs| == |ts| && forall i :: 0 <= i < |ts| ==> rs[i] == RangeOf(ts[i])
  {
    seq(|ts|, i requires 0 <= i < |ts| => RangeOf(ts[i]))
  }

  /** A group: tags of one area and block, sorted by start. */
  ghost predicate Group(ts: seq<Tag>, key: Key) {
    && (forall i :: 0 <= i < |ts| ==> ts[i].key == key)
    && (forall i, j :: 0 <= i < j < |ts| ==> ts[i].start <= ts[j].start)
  }

  /** The segment that reads `ts[i..j]`. */
  function SegmentOf(ts: seq<Tag>, i: nat, j: nat): Segment
    requires i < j <= |ts|
  {
    var end := MaxEnd(Ranges(ts), i, j);
    Segment(ts[i].key, ts[i].start, if end < ts[i].start then 0 else end - ts[i].start, ts[i..j])
  }

  /** The planner's loop over one group. */
  function AppendAll(segments: seq<Segment>, ts: seq<Tag>, k: nat): seq<Segment>
    requires k <= |ts|
  {
    if k == 0 then segments else AppendMergedSegment(AppendAll(segments, ts, k - 1), ts[k - 1])
  }

  lemma {:induction false} AppendBehind(pre: seq<Segment>, s: seq<Segment>, tag: Tag)
    requires pre != [] && s == [] ==> pre[|pre| - 1].key != tag.key
    ensures AppendMergedSegment(pre + s, tag) == pre + AppendMergedSegment(s, tag)
  {
    if s != [] {
      assert (pre + s)[|pre + s| - 1] == s[|s| - 1];
    } else {
      assert pre + s == pre;
    }
  }

  /** Segments of another area or block are left alone. */
  lemma {:induction false} AppendAllBehind(pre: seq<Segment>, ts: seq<Tag>, key: Key, k: nat)
    requires k <= |ts| && Group(ts, key) && (pre != [] ==> pre[|pre| - 1].key != key)
    ensures AppendAll(pre, ts, k) == pre + AppendAll([], ts, k)
  {
    if k > 0 {
      AppendAllBehind(pre, ts, key, k - 1);
      AppendBehind(pre, AppendAll([], ts, k - 1), ts[k - 1]);
    }
  }

  /** A span of tags and the segment that reads it. */
  ghost predicate Reads(ts: seq<Tag>, sp: Span, s: Segment) {
    sp.lo < sp.hi <= |ts| && s == SegmentOf(ts, sp.lo, sp.hi)
  }

  ghost function ReadsOf(ts: seq<Tag>): (Span, Segment) -> bool {
    (sp, r) => Reads(ts, sp, r)
  }

  lemma {:induction false} AppendFits(ts: seq<Tag>, key: Key, cur: Segment, i: nat, k: nat)
    requires Group(ts, key) && i < k < |ts| && cur == SegmentOf(ts, i, k) && Fits(LIMITS, Ranges(ts), i, k)
    ensures AppendMergedSegment([cur], ts[k]) == [SegmentOf(ts, i, k + 1)]
  {
    MaxEndCovers(Ranges(ts), i, k, i);
    assert ts[i..k] + [ts[k]] == ts[i..k + 1];
    assert MaxEnd(Ranges(ts), i, k + 1) == Max(MaxEnd(Ranges(ts), i, k), ts[k].start + ts[k].size);
  }

  lemma {:induction false} AppendSplits(ts: seq<Tag>, key: Key, cur: Segment, i: nat, k: nat)
    requires Group(ts, key) && i < k < |ts| && cur == SegmentOf(ts, i, k) && !Fits(LIMITS, Ranges(ts), i, k)
    ensures AppendMergedSegment([cur], ts[k]) == [cur, SegmentOf(ts, k, k + 1)]
  {
    MaxEndCovers(Ranges(ts), i, k, i);
    assert ts[k..k + 1] == [ts[k]];
  }

  /** The newest segment takes the tag exactly when the tag fits its run. */
  lemma {:induction false} NewestStep(ts: seq<Tag>, key: Key, k: nat, sp: Span, cur: Segment, ext: seq<Span>, app: seq<Segment>)
    requires Group(ts, key) && k < |ts| && sp.hi == k && Reads(ts, sp, cur)
    requires ext == Extend(LIMITS, Ranges(ts), [sp], k) && app == AppendMergedSegment([cur], ts[k])
    ensures Mirrors(ReadsOf(ts), ext, app)
  {
    if Fits(LIMITS, Ranges(ts), sp.lo, k) {
      AppendFits(ts, key, cur, sp.lo, k);
      assert ext == [Span(sp.lo, k + 1)];
    } else {
      AppendSplits(ts, key, cur, sp.lo, k);
      assert ext == [sp, Span(k, k + 1)];
    }
  }

  lemma {:induction false} AppendLast(segments: seq<Segment>, cur: Segment, tag: Tag)
    ensures AppendMergedSegment(segments + [cur], tag) == segments + AppendMergedSegment([cur], tag)
  {
    AppendBehind(segments, [cur], tag);
  }

  lemma {:induction false} MirrorsStep(ts: seq<Tag>, key: Key, k: nat, a: seq<Span>, sp: Span, s: seq<Segment>, cur: Segment)
    requires Group(ts, key) && k < |ts| && sp.hi == k && Mirrors(ReadsOf(ts), a, s) && Reads(ts, sp, cur)
    ensures Mirrors(ReadsOf(ts), Extend(LIMITS, Ranges(ts), a + [sp], k), AppendMergedSegment(s + [cur], ts[k]))
  {
    var ext, app := Extend(LIMITS, Ranges(ts), [sp], k), AppendMergedSegment([cur], ts[k]);
    NewestStep(ts, key, k, sp, cur, ext, app);
    ExtendLast(LIMITS, Ranges(ts), a, sp, k);
    AppendLast(s, cur, ts[k]);
    MirrorsSplit(ReadsOf(ts), a, ext, s, app);
  }

  /** The planner's segments are the greedy runs of the group's ranges. */
  lemma {:induction false} SegmentsAreRuns(ts: seq<Tag>, key: Key, k: nat, b: seq<Span>, s: seq<Segment>)
    requires k <= |ts| && Group(ts, key) && b == Spans(LIMITS, Ranges(ts), k) && s == AppendAll([], ts, k)
    ensures Mirrors(ReadsOf(ts), b, s)
  {
    if k == 1 {
      assert AppendAll([], ts, 0) == [] && Spans(LIMITS, Ranges(ts), 0) == [];
      assert ts[0..1] == [ts[0]];
      assert b == [Span(0, 1)] && s == [SegmentOf(ts, 0, 1)];
    } else if k > 1 {
      var b', s' := Spans(LIMITS, Ranges(ts), k - 1), AppendAll([], ts, k - 1);
      SegmentsAreRuns(ts, key, k - 1, b', s');
      MirrorsInit(ReadsOf(ts), b', s');
      MirrorsStep(ts, key, k - 1, b'[..|b'| - 1], b'[|b'| - 1], s'[..|s'| - 1], s'[|s'| - 1]);
    }
  }

  // ---------------------------------------------------------------------------
  // What a planned segment is good for
  // ---------------------------------------------------------------------------

  predicate Covers(s: Segment, t: Tag) {
    t.key == s.key && s.start <= t.start && t.start + t.size <= s.start + s.length
  }

  /** A segment covers all its tags, and is no longer than the limit unless a single tag is. */
  ghost predicate Sound(s: Segment) {
    && (forall x :: 0 <= x < |s.entries| ==> Covers(s, s.entries[x]))
    && ((forall x :: 0 <= x < |s.entries| ==> s.entries[x].size <= MAX_READ_LEN) ==> s.length <= MAX_READ_LEN)
  }

  lemma {:induction false} RunIsSound(ts: seq<Tag>, key: Key, i: nat, j: nat)
    requires Group(ts, key) && IsRun(LIMITS, Ranges(ts), i, j)
    ensures Sound(SegmentOf(ts, i, j))
  {
    var s, rs := SegmentOf(ts, i, j), Ranges(ts);
    MaxEndCovers(rs, i, j, i);
    forall x | 0 <= x < |s.entries| ensures Covers(s, s.entries[x]) {
      MaxEndCovers(rs, i, j, i + x);
    }
    var x := MaxEndAttained(rs, i, j);
    assert s.entries[x - i] == ts[x];
    if x > i {
      assert Fits(LIMITS, rs, i, x);
    }
  }

  /** Every segment the planner makes of a group is sound. */
  lemma {:induction false} GroupIsSound(ts: seq<Tag>, key: Key, t: nat)
    requires Group(ts, key) && t < |AppendAll([], ts, |ts|)|
    ensures Sound(AppendAll([], ts, |ts|)[t]) && AppendAll([], ts, |ts|)[t].key == key
  {
    var b, s := Spans(LIMITS, Ranges(ts), |ts|), AppendAll([], ts, |ts|);
    SegmentsAreRuns(ts, key, |ts|, b, s);
    SpansAreRuns(LIMITS, Ranges(ts), |ts|, b);
    assert Reads(ts, b[t], s[t]) && IsRun(LIMITS, Ranges(ts), b[t].lo, b[t].hi);
    RunIsSound(ts, key, b[t].lo, b[t].hi);
  }

  /** The bytes of the first `n` entries of a segment end here. */
  function EndOf(entries: seq<Tag>, n: nat): nat
    requires n <= |entries|
  {
    if n == 0 then 0 else RangeMerge.Max(EndOf(entries, n - 1), entries[n - 1].start + entries[n - 1].size)
  }

  lemma {:induction false} EndOfRun(ts: seq<Tag>, i: nat, j: nat, entries: seq<Tag>, n: nat)
    requires i < j <= |ts| && entries == ts[i..j] && 0 < n <= j - i
    ensures EndOf(entries, n) == MaxEnd(Ranges(ts), i, i + n)
  {
    if n > 1 {
      EndOfRun(ts, i, j, entries, n - 1);
    } else {
      assert EndOf(entries, 0) == 0;
    }
  }

  lemma {:induction false} RunIsTight(ts: seq<Tag>, i: nat, j: nat, x: nat, s: Segment)
    requires IsRun(LIMITS, Ranges(ts), i, j) && s == SegmentOf(ts, i, j) && x < j - i
    ensures s.start == s.entries[0].start && s.start + s.length == EndOf(s.entries, |s.entries|)
    ensures x > 0 ==> s.entries[x].start <= EndOf(s.entries, x) + 32
  {
    EndOfRun(ts, i, j, s.entries, j - i);
    MaxEndCovers(Ranges(ts), i, j, i);
    if x > 0 {
      EndOfRun(ts, i, j, s.entries, x);
      assert Fits(LIMITS, Ranges(ts), i, i + x);
    }
  }

  /** Segment `n` of a group: the run it reads. */
  lemma {:induction false} SegmentRun(ts: seq<Tag>, key: Key, n: nat, s: Segment) returns (i: nat, j: nat)
    requires Group(ts, key) && n < |AppendAll([], ts, |ts|)| && s == AppendAll([], ts, |ts|)[n]
    ensures IsRun(LIMITS, Ranges(ts), i, j) && s == SegmentOf(ts, i, j)
    ensures n < |Spans(LIMITS, Ranges(ts), |ts|)| && Spans(LIMITS, Ranges(ts), |ts|)[n] == Span(i, j)
  {
    var b, all := Spans(LIMITS, Ranges(ts), |ts|), AppendAll([], ts, |ts|);
    SegmentsAreRuns(ts, key, |ts|, b, all);
    SpansAreRuns(LIMITS, Ranges(ts), |ts|, b);
    i, j := b[n].lo, b[n].hi;
    assert Reads(ts, b[n], all[n]);
  }

  /** A segment ends with its entries and never reads over more than 32 bytes that none of its tags needs. */
  lemma {:induction false} SegmentIsTight(ts: seq<Tag>, key: Key, n: nat, x: nat, s: Segment)
    requires Group(ts, key) && n < |AppendAll([], ts, |ts|)| && s == AppendAll([], ts, |ts|)[n] && x < |s.entries|
    ensures s.start == s.entries[0].start && s.start + s.length == EndOf(s.entries, |s.entries|)
    ensures x > 0 ==> s.entries[x].start <= EndOf(s.entries, x) + 32
  {
    var i, j := SegmentRun(ts, key, n, s);
    RunIsTight(ts, i, j, x, s);
  }

  lemma {:induction false} RunsAreApart(ts: seq<Tag>, i: nat, j: nat, k: nat, s: Segment, next: Segment)
    requires i < j < k <= |ts| && s == SegmentOf(ts, i, j) && next == SegmentOf(ts, j, k) && !Fits(LIMITS, Ranges(ts), i, j)
    ensures next.entries != [] && next.entries[0].start == next.start
    ensures next.start > s.start + s.length + 32 || next.start + next.entries[0].size > s.start + 480
  {
    MaxEndCovers(Ranges(ts), i, j, i);
  }

  /** Two neighbouring segments are apart for a reason: the gap is too wide or the merged read too long. */
  lemma {:induction false} SegmentsAreApart(ts: seq<Tag>, key: Key, n: nat, s: Segment, next: Segment)
    requires Group(ts, key) && n + 1 < |AppendAll([], ts, |ts|)|
    requires s == AppendAll([], ts, |ts|)[n] && next == AppendAll([], ts, |ts|)[n + 1]
    ensures next.entries != [] && next.entries[0].start == next.start
    ensures next.start > s.start + s.length + 32 || next.start + next.entries[0].size > s.start + 480
  {
    var i, j := SegmentRun(ts, key, n, s);
    var j', k := SegmentRun(ts, key, n + 1, next);
    SpansAdjacent(LIMITS, Ranges(ts), |ts|, Spans(LIMITS, Ranges(ts), |ts|), n);
    RunsAreApart(ts, i, j, k, s, next);
  }

  /** The planner reads a group with the fewest requests any consecutive cutting allows. */
  lemma {:induction false} PlanOptimal(ts: seq<Tag>, key: Key, cuts: seq<nat>)
    requires Group(ts, key) && Cutting(LIMITS, Ranges(ts), 0, cuts)
    ensures |AppendAll([], ts, |ts|)| <= |cuts|
  {
    SegmentsAreRuns(ts, key, |ts|, Spans(LIMITS, Ranges(ts), |ts|), AppendAll([], ts, |ts|));
    SpansOptimal(LIMITS, Ranges(ts), cuts);
  }

  /** All tags of a list of segments, in order. */
  function Entries(segments: seq<Segment>): seq<Tag> {
    if segments == [] then [] else Entries(segments[..|segments| - 1]) + segments[|segments| - 1].entries
  }

  lemma {:induction false} AppendEntries(segments: seq<Segment>, tag: Tag)
    ensures Entries(AppendMergedSegment(segments, tag)) == Entries(segments) + [tag]
  {
    var out := AppendMergedSegment(segments, tag);
    if |out| == |segments| {
      assert out[..|out| - 1] == segments[..|segments| - 1];
    } else {
      assert out[..|segments|] == segments;
    }
  }

  /** No tag of a group is lost or read twice, and the tags stay in order. */
  lemma {:induction false} AppendAllEntries(segments: seq<Segment>, ts: seq<Tag>, k: nat, out: seq<Segment>)
    requires k <= |ts| && out == AppendAll(segments, ts, k)
    ensures Entries(out) == Entries(segments) + ts[..k]
  {
    if k > 0 {
      var prev := AppendAll(segments, ts, k - 1);
      AppendAllEntries(segments, ts, k - 1, prev);
      assert out == AppendMergedSegment(prev, ts[k - 1]);
      AppendEntries(prev, ts[k - 1]);
      TakeSnoc(ts, k);
      Regroup(Entries(segments), ts[..k - 1], [ts[k - 1]]);
    } else {
      assert Entries(segments) + ts[..0] == Entries(segments);
    }
  }

  // ---------------------------------------------------------------------------
  // Grouping and sorting
  // ---------------------------------------------------------------------------

  /** The tags of one area and block, in order. */
  function TagsOfKey(tags: seq<Tag>, key: Key): seq<Tag> {
    if tags == [] then []
    else TagsOfKey(tags[..|tags| - 1], key) + (if tags[|tags| - 1].key == key then [tags[|tags| - 1]] else [])
  }

  function Start(t: Tag): int { t.start }

  /** The group in the order the planner goes through it. */
  function SortByStart(ts: seq<Tag>): seq<Tag> {
    SortBy(ts, Start)
  }

  lemma {:induction false} SortFacts(ts: seq<Tag>, key: Key, g: seq<Tag>)
    requires g == SortByStart(ts) && forall i :: 0 <= i < |ts| ==> ts[i].key == key
    ensures Group(g, key) && multiset(g) == multiset(ts)
  {
    SortSorts(ts, Start);
    forall i | 0 <= i < |g| ensures g[i].key == key {
      SortKeepsMembers(ts, Start, g[i]);
    }
    forall i, j | 0 <= i < j < |g| ensures g[i].start <= g[j].start {
      assert Start(g[i]) <= Start(g[j]);
    }
  }

  lemma {:induction false} TagsOfKeyFacts(tags: seq<Tag>, key: Key, t: Tag)
    ensures forall i :: 0 <= i < |TagsOfKey(tags, key)| ==> TagsOfKey(tags, key)[i].key == key
    ensures multiset(TagsOfKey(tags, key))[t] == if t.key == key then multiset(tags)[t] else 0
  {
    if tags != [] {
      var init, last := tags[..|tags| - 1], tags[|tags| - 1];
      TagsOfKeyFacts(init, key, t);
      assert tags == init + [last];
    }
  }
}
