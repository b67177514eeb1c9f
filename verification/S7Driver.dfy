/**
 The S7 driver's batch read: plan, fetch each segment once, decode every tag out of the shared
 buffer. Device memory is a function of area, block and address; whether the device answers is
 left open for every single request.
 */
module S7Driver {
  import opened Common
  import opened RangeMerge
  import opened S7Read
  import opened S7Codec

  // ---------------------------------------------------------------------------
  // Planning a whole batch
  // ---------------------------------------------------------------------------

  /** The segments of one area and block. */
  function Planned(tags: seq<Tag>, key: Key): seq<Segment> {
    var g := SortByStart(TagsOfKey(tags, key));
    AppendAll([], g, |g|)
  }

  /** The segments of several, one after the other. */
  function PlanOver(tags: seq<Tag>, ks: seq<Key>): seq<Segment> {
    if ks == [] then [] else PlanOver(tags, ks[..|ks| - 1]) + Planned(tags, ks[|ks| - 1])
  }

  /** Areas in order, and blocks in order within an area. */
  predicate Below(a: Key, b: Key) {
    a.area < b.area || (a.area == b.area && a.dbNumber < b.dbNumber)
  }

  ghost predicate Ascending(ks: seq<Key>) {
    forall i, j :: 0 <= i < j < |ks| ==> Below(ks[i], ks[j])
  }

  lemma {:induction false} GroupOfKey(tags: seq<Tag>, key: Key, g: seq<Tag>)
    requires g == SortByStart(TagsOfKey(tags, key))
    ensures Group(g, key) && multiset(g) == multiset(TagsOfKey(tags, key))
  {
    TagsOfKeyFacts(tags, key, Tag(0, key, 0, 0, false, 0, TypeBool));
    SortFacts(TagsOfKey(tags, key), key, g);
  }

  /** Every planned segment is sound and of one of the areas and blocks. */
  lemma {:induction false} PlanOverSound(tags: seq<Tag>, ks: seq<Key>, n: nat, plan: seq<Segment>)
    requires plan == PlanOver(tags, ks) && n < |plan|
    ensures Sound(plan[n]) && plan[n].key in ks
    decreases |ks|
  {
    var init, key := ks[..|ks| - 1], ks[|ks| - 1];
    var before := PlanOver(tags, init);
    if n < |before| {
      PlanOverSound(tags, init, n, before);
      assert plan[n] == before[n];
    } else {
      var g := SortByStart(TagsOfKey(tags, key));
      GroupOfKey(tags, key, g);
      GroupIsSound(g, key, n - |before|);
      assert plan[n] == Planned(tags, key)[n - |before|];
    }
  }

  lemma {:induction false} EntriesSnoc(a: seq<Segment>, s: Segment, all: seq<Segment>)
    requires all == a + [s]
    ensures Entries(all) == Entries(a) + s.entries
  {
    assert all[..|all| - 1] == a;
  }

  lemma {:induction false} EntriesTogether(a: seq<Segment>, b: seq<Segment>)
    ensures Entries(a + b) == Entries(a) + Entries(b)
    decreases |b|
  {
    if b == [] {
      assert a + b == a;
    } else {
      var init, last := b[..|b| - 1], b[|b| - 1];
      SplitLast(a, b);
      EntriesTogether(a, init);
      EntriesSnoc(a + init, last, a + b);
      EntriesSnoc(init, last, b);
      Regroup(Entries(a), Entries(init), last.entries);
    }
  }

  /** The segments of an area and block hold its tags. */
  lemma {:induction false} PlannedHolds(tags: seq<Tag>, key: Key, t: Tag)
    ensures multiset(Entries(Planned(tags, key)))[t] == if t.key == key then multiset(tags)[t] else 0
  {
    var g := SortByStart(TagsOfKey(tags, key));
    AppendAllEntries([], g, |g|, Planned(tags, key));
    assert Entries([]) + g[..|g|] == g;
    GroupOfKey(tags, key, g);
    TagsOfKeyFacts(tags, key, t);
  }

  lemma {:induction false} LastIsNew(ks: seq<Key>)
    requires Ascending(ks) && ks != []
    ensures ks[|ks| - 1] !in ks[..|ks| - 1] && Ascending(ks[..|ks| - 1])
  {
    var init, key := ks[..|ks| - 1], ks[|ks| - 1];
    forall i | 0 <= i < |init| ensures init[i] != key {
      assert Below(ks[i], ks[|ks| - 1]);
    }
  }

  /** A plan over different areas and blocks holds each of their tags as often as it was asked for. */
  lemma {:induction false} PlanOverHolds(tags: seq<Tag>, ks: seq<Key>, t: Tag)
    requires Ascending(ks)
    ensures multiset(Entries(PlanOver(tags, ks)))[t] == if t.key in ks then multiset(tags)[t] else 0
    decreases |ks|
  {
    if ks != [] {
      var init, key := ks[..|ks| - 1], ks[|ks| - 1];
      LastIsNew(ks);
      PlanOverHolds(tags, init, t);
      PlannedHolds(tags, key, t);
      EntriesTogether(PlanOver(tags, init), Planned(tags, key));
      assert t.key in ks <==> t.key in init || t.key == key;
    }
  }

  /** The number of requests a choice of cuts for every area and block makes. */
  function Requests(ks: seq<Key>, cuts: Key -> seq<nat>): nat {
    if ks == [] then 0 else Requests(ks[..|ks| - 1], cuts) + |cuts(ks[|ks| - 1])|
  }

  /** No way of cutting the sorted groups under the same limits takes fewer requests than the plan. */
  lemma {:induction false} PlanIsOptimal(tags: seq<Tag>, ks: seq<Key>, cuts: Key -> seq<nat>)
    requires forall i :: 0 <= i < |ks| ==> Cutting(LIMITS, Ranges(SortByStart(TagsOfKey(tags, ks[i]))), 0, cuts(ks[i]))
    ensures |PlanOver(tags, ks)| <= Requests(ks, cuts)
    decreases |ks|
  {
    if ks != [] {
      var key := ks[|ks| - 1];
      var g := SortByStart(TagsOfKey(tags, key));
      PlanIsOptimal(tags, ks[..|ks| - 1], cuts);
      GroupOfKey(tags, key, g);
      PlanOptimal(g, key, cuts(key));
    }
  }

  /** The tags of each area and block, in order. */
  method GroupByKey(tags: seq<Tag>) returns (groups: map<Key, seq<Tag>>)
    ensures forall k :: k in groups ==> groups[k] == TagsOfKey(tags, k) && groups[k] != []
    ensures forall j :: 0 <= j < |tags| ==> tags[j].key in groups
  {
    groups := map[];
    for i := 0 to |tags|
      invariant forall k :: k in groups ==> groups[k] == TagsOfKey(tags[..i], k) && groups[k] != []
      invariant forall j :: 0 <= j < i ==> tags[j].key in groups
    {
      var k := tags[i].key;
      assert tags[..i + 1][..i] == tags[..i];
      if k in groups {
        groups := groups[k := groups[k] + [tags[i]]];
      } else {
        TagsOfKeyNone(tags[..i], k);
        groups := groups[k := [tags[i]]];
      }
    }
    assert tags[..|tags|] == tags;
  }

  lemma {:induction false} TagsOfKeyNone(tags: seq<Tag>, key: Key)
    requires forall j :: 0 <= j < |tags| ==> tags[j].key != key
    ensures TagsOfKey(tags, key) == []
  {
    if tags != [] {
      TagsOfKeyNone(tags[..|tags| - 1], key);
    }
  }

  /** The first of the remaining areas and blocks. */
  method LeastKey(todo: set<Key>) returns (k: Key)
    requires todo != {}
    ensures k in todo && forall x :: x in todo ==> x == k || Below(k, x)
  {
    k :| k in todo;
    var rest := todo - {k};
    while rest != {}
      invariant rest <= todo && k in todo && k !in rest
      invariant forall x :: x in todo && x !in rest ==> x == k || Below(k, x)
      decreases |rest|
    {
      var x :| x in rest;
      rest := rest - {x};
      if Below(x, k) {
        k := x;
      }
    }
  }

  /** Merging a group leaves the segments before it alone. */
  lemma {:induction false} PlanNext(tags: seq<Tag>, ks: seq<Key>, key: Key, g: seq<Tag>)
    requires g == SortByStart(TagsOfKey(tags, key)) && key !in ks
    ensures AppendAll(PlanOver(tags, ks), g, |g|) == PlanOver(tags, ks + [key])
  {
    var pre := PlanOver(tags, ks);
    GroupOfKey(tags, key, g);
    if pre != [] {
      PlanOverSound(tags, ks, |pre| - 1, pre);
    }
    AppendAllBehind(pre, g, key, |g|);
    assert (ks + [key])[..|ks|] == ks;
  }

  /** The areas and blocks planned so far come in order, and before those still to do. */
  ghost predicate KeysDone(ks: seq<Key>, keys: set<Key>, todo: set<Key>) {
    && Ascending(ks) && todo <= keys
    && (forall k :: k in ks <==> k in keys - todo)
    && (forall i, x :: 0 <= i < |ks| && x in todo ==> Below(ks[i], x))
  }

  lemma {:induction false} KeysStep(ks: seq<Key>, keys: set<Key>, todo: set<Key>, k: Key)
    requires KeysDone(ks, keys, todo) && k in todo && forall x :: x in todo ==> x == k || Below(k, x)
    ensures k !in ks && KeysDone(ks + [k], keys, todo - {k})
  {
    assert k !in keys - todo;
    forall x ensures x in ks + [k] <==> x in keys - (todo - {k}) {
      assert x in ks + [k] <==> x in ks || x == k;
    }
  }

  /** Merges a sorted group behind the segments there are. */
  method MergeGroup(pre: seq<Segment>, group: seq<Tag>) returns (segments: seq<Segment>)
    ensures segments == AppendAll(pre, group, |group|)
  {
    segments := pre;
    for n := 0 to |group|
      invariant segments == AppendAll(pre, group, n)
    {
      segments := AppendMergedSegment(segments, group[n]);
    }
  }

  /**
   Groups tags by area and block, sorts each group by start and merges neighbours, the areas and
   blocks in ascending order. The segments hold every tag exactly once, each inside the byte range
   of a segment of its own area and block, and no segment of tags within the read limit exceeds it.
   */
  method PlanS7ReadSegments(tags: seq<Tag>) returns (segments: seq<Segment>, ghost ks: seq<Key>)
    ensures segments == PlanOver(tags, ks) && Ascending(ks)
    ensures forall k :: k in ks <==> TagsOfKey(tags, k) != []
    ensures forall n :: 0 <= n < |segments| ==> Sound(segments[n])
    ensures multiset(Entries(segments)) == multiset(tags)
  {
    var groups := GroupByKey(tags);
    segments, ks := [], [];
    var todo := groups.Keys;
    while todo != {}
      invariant segments == PlanOver(tags, ks) && KeysDone(ks, groups.Keys, todo)
      decreases |todo|
    {
      var k := LeastKey(todo);
      var group := SortByStart(groups[k]);
      KeysStep(ks, groups.Keys, todo, k);
      PlanNext(tags, ks, k, group);
      segments := MergeGroup(segments, group);
      ks := ks + [k];
      todo := todo - {k};
    }
    PlanComplete(tags, groups.Keys, ks);
    PlanFacts(tags, ks, segments);
  }

  lemma {:induction false} PlanFacts(tags: seq<Tag>, ks: seq<Key>, segments: seq<Segment>)
    requires segments == PlanOver(tags, ks) && Ascending(ks)
    requires forall j :: 0 <= j < |tags| ==> tags[j].key in ks
    ensures forall n :: 0 <= n < |segments| ==> Sound(segments[n])
    ensures multiset(Entries(segments)) == multiset(tags)
  {
    forall n | 0 <= n < |segments| ensures Sound(segments[n]) {
      PlanOverSound(tags, ks, n, segments);
    }
    forall t ensures multiset(Entries(segments))[t] == multiset(tags)[t] {
      PlanOverHolds(tags, ks, t);
      assert t in tags ==> t.key in ks;
    }
  }

  /** The keys of the groups are those that have tags. */
  lemma {:induction false} PlanComplete(tags: seq<Tag>, keys: set<Key>, ks: seq<Key>)
    requires forall k :: k in keys ==> TagsOfKey(tags, k) != []
    requires forall j :: 0 <= j < |tags| ==> tags[j].key in keys
    requires KeysDone(ks, keys, {})
    ensures forall k :: k in ks <==> TagsOfKey(tags, k) != []
    ensures forall j :: 0 <= j < |tags| ==> tags[j].key in ks
  {
    assert keys - {} == keys;
    forall k | k !in keys ensures TagsOfKey(tags, k) == [] {
      TagsOfKeyNone(tags, k);
    }
  }

  // ---------------------------------------------------------------------------
  // Reading
  // ---------------------------------------------------------------------------

  /** A request of the batch: segment `n` of the plan, or the bit tag of result slot `slot`. */
  datatype Request = OfSegment(n: nat) | OfBit(slot: nat)

  /** Device memory and the requests the device answers. */
  datatype Device = Device(mem: (Key, nat) -> Byte, ok: Request -> bool)

  /** One area read of `len` bytes. */
  function ReadArea(d: Device, key: Key, start: nat, len: nat): (buf: seq<Byte>)
    ensures |buf| == len
  {
    seq<Byte>(len, i requires 0 <= i < len => d.mem(key, start + i))
  }

  datatype Reading = NotFound | Failed | Undecodable | Good(v: Value)

  function ToReading(x: Decoded): Reading {
    if x.Ok? then Good(x.v) else Undecodable
  }

  /** The value a separate read of just this tag gives. */
  function OwnValue(d: Device, t: Tag): Reading {
    ToReading(DecodeBuffer(ReadArea(d, t.key, t.start, t.size), t.isBit, t.bit, t.dt))
  }

  /** What the tag's own bytes in device memory make of it. */
  lemma {:induction false} TagFromMemory(d: Device, t: Tag, b: nat -> nat)
    requires !t.isBit && forall i :: b(i) == d.mem(t.key, t.start + i)
    ensures t.size >= 2 && t.dt == TypeUint16 ==> OwnValue(d, t) == Good(Int(TwoBytes(b(0), b(1))))
    ensures t.size >= 2 && t.dt == TypeInt16 ==> OwnValue(d, t) == Good(Int(TopSigned(TwoBytes(b(0), b(1)), b(0), 0x1_0000)))
    ensures t.size >= 4 && t.dt == TypeUint32 ==> OwnValue(d, t) == Good(Int(FourBytes(b(0), b(1), b(2), b(3))))
    ensures t.size >= 4 && t.dt == TypeFloat32 ==> OwnValue(d, t) == Good(Float(FourBytes(b(0), b(1), b(2), b(3))))
    ensures t.size < RequiredSize(t.dt) ==> OwnValue(d, t) == Undecodable
  {
    var buf := ReadArea(d, t.key, t.start, t.size);
    assert forall i :: 0 <= i < t.size ==> buf[i] == b(i);
    BytesWeigh(buf);
  }

  /** A bit tag is the bit of its byte. */
  lemma {:induction false} BitFromMemory(d: Device, t: Tag)
    requires t.isBit && t.size > 0
    ensures OwnValue(d, t) == Good(Bool(BitAt(d.mem(t.key, t.start), t.bit)))
  {
  }

  /** The value of an answered request, a failure of one that was not. */
  function Answer(d: Device, request: Request, t: Tag): Reading {
    if d.ok(request) then OwnValue(d, t) else Failed
  }

  /** Cutting a covered tag's bytes out of the segment's buffer gives what its own read gives. */
  lemma {:induction false} SliceIsOwnRead(d: Device, s: Segment, t: Tag)
    requires Covers(s, t)
    ensures var off := t.start - s.start;
            ReadArea(d, s.key, s.start, s.length)[off..off + t.size] == ReadArea(d, t.key, t.start, t.size)
  {
  }

  /** What the driver's tables say about a requested tag name. */
  datatype Lookup = Unknown | Known(key: Key, start: nat, size: nat, isBit: bool, bit: nat, dt: DataType)

  /** The resolved request for position `i` of the batch. */
  function TagAt(batch: seq<Lookup>, i: nat): Tag
    requires i < |batch| && batch[i].Known?
  {
    var l := batch[i];
    Tag(i, l.key, l.start, l.size, l.isBit, l.bit, l.dt)
  }

  /** Tags carry their own result slot. */
  ghost predicate Slotted(batch: seq<Lookup>, t: Tag) {
    t.index < |batch| && batch[t.index].Known? && t == TagAt(batch, t.index)
  }

  /** The known tags among the first `n` requests that are single bits, or that are not. */
  function TagsOf(batch: seq<Lookup>, n: nat, isBit: bool): (tags: seq<Tag>)
    requires n <= |batch|
    ensures forall x :: 0 <= x < |tags| ==> Slotted(batch, tags[x]) && tags[x].isBit == isBit && tags[x].index < n
    ensures forall i :: 0 <= i < n && batch[i].Known? && batch[i].isBit == isBit ==> TagAt(batch, i) in tags
  {
    if n == 0 then []
    else TagsOf(batch, n - 1, isBit) + (if batch[n - 1].Known? && batch[n - 1].isBit == isBit then [TagAt(batch, n - 1)] else [])
  }

  // ---------------------------------------------------------------------------
  // Every tag is in one place of the plan
  // ---------------------------------------------------------------------------

  /** Position of entry `x` of segment `n` among all entries. */
  lemma {:induction false} EntryAt(plan: seq<Segment>, n: nat, x: nat)
    requires n < |plan| && x < |plan[n].entries|
    ensures |Entries(plan[..n])| + x < |Entries(plan[..n + 1])| <= |Entries(plan)|
    ensures Entries(plan)[|Entries(plan[..n])| + x] == plan[n].entries[x]
    decreases |plan|
  {
    var init := plan[..|plan| - 1];
    assert plan[..n + 1][..n] == plan[..n];
    if n == |plan| - 1 {
      assert plan[..n + 1] == plan && plan[..n] == init;
    } else {
      EntryAt(init, n, x);
      assert init[..n] == plan[..n] && init[..n + 1] == plan[..n + 1];
    }
  }

  lemma {:induction false} PrefixShorter(plan: seq<Segment>, m: nat, n: nat)
    requires m <= n <= |plan|
    ensures |Entries(plan[..m])| <= |Entries(plan[..n])|
    decreases n
  {
    if m < n {
      PrefixShorter(plan, m, n - 1);
      assert plan[..n][..n - 1] == plan[..n - 1];
    }
  }

  ghost predicate NoRepeats(ts: seq<Tag>) {
    forall a, b :: 0 <= a < b < |ts| ==> ts[a] != ts[b]
  }

  lemma {:induction false} TwiceCounted(ts: seq<Tag>, a: nat, b: nat)
    requires a < b < |ts| && ts[a] == ts[b]
    ensures multiset(ts)[ts[a]] >= 2
  {
    assert ts == ts[..b] + [ts[b]] + ts[b + 1..];
    assert ts[a] in ts[..b];
  }

  /** The same elements as a list without repetitions, just as often, are without repetitions. */
  lemma {:induction false} CountsNoRepeats(ts: seq<Tag>, es: seq<Tag>)
    requires NoRepeats(ts) && multiset(es) == multiset(ts)
    ensures NoRepeats(es)
  {
    forall a, b | 0 <= a < b < |es| ensures es[a] != es[b] {
      AtMostOnce(ts, es[a]);
      if es[a] == es[b] {
        TwiceCounted(es, a, b);
      }
    }
  }

  /** No request is resolved twice. */
  lemma {:induction false} TagsOfApart(batch: seq<Lookup>, n: nat, isBit: bool)
    requires n <= |batch|
    ensures NoRepeats(TagsOf(batch, n, isBit))
  {
    if n > 0 {
      TagsOfApart(batch, n - 1, isBit);
      var before, tags := TagsOf(batch, n - 1, isBit), TagsOf(batch, n, isBit);
      forall a, b | 0 <= a < b < |tags| ensures tags[a] != tags[b] {
        assert tags[a] == before[a];
        if b < |before| {
          assert tags[b] == before[b];
        } else {
          assert tags[b].index == n - 1;
        }
      }
    }
  }

  lemma {:induction false} AtMostOnce(ts: seq<Tag>, t: Tag)
    requires NoRepeats(ts)
    ensures multiset(ts)[t] <= 1
  {
    if ts != [] {
      var init, last := ts[..|ts| - 1], ts[|ts| - 1];
      AtMostOnce(init, t);
      assert ts == init + [last];
      if t == last {
        forall a | 0 <= a < |init| ensures init[a] != t { assert ts[a] != ts[|ts| - 1]; }
        assert t !in init;
      }
    }
  }

  /** Entries of different segments go to different slots. */
  ghost predicate Apart(plan: seq<Segment>) {
    forall m, n, x, y :: 0 <= m < n < |plan| && 0 <= x < |plan[m].entries| && 0 <= y < |plan[n].entries| ==>
      plan[m].entries[x].index != plan[n].entries[y].index
  }

  ghost predicate AllSlotted(batch: seq<Lookup>, plan: seq<Segment>) {
    forall n, x :: 0 <= n < |plan| && 0 <= x < |plan[n].entries| ==> Slotted(batch, plan[n].entries[x])
  }

  lemma {:induction false} PlanSlotted(batch: seq<Lookup>, tags: seq<Tag>, plan: seq<Segment>)
    requires forall x :: 0 <= x < |tags| ==> Slotted(batch, tags[x])
    requires multiset(Entries(plan)) == multiset(tags)
    ensures AllSlotted(batch, plan)
  {
    forall n, x | 0 <= n < |plan| && 0 <= x < |plan[n].entries| ensures Slotted(batch, plan[n].entries[x]) {
      EntryAt(plan, n, x);
      var t := plan[n].entries[x];
      assert t in multiset(Entries(plan));
      assert t in multiset(tags);
      var y :| 0 <= y < |tags| && tags[y] == t;
    }
  }

  lemma {:induction false} PlanApart(batch: seq<Lookup>, plan: seq<Segment>)
    requires AllSlotted(batch, plan) && NoRepeats(Entries(plan))
    ensures Apart(plan)
  {
    forall m, n, x, y | 0 <= m < n < |plan| && 0 <= x < |plan[m].entries| && 0 <= y < |plan[n].entries|
      ensures plan[m].entries[x].index != plan[n].entries[y].index
    {
      EntryAt(plan, m, x);
      EntryAt(plan, n, y);
      PrefixShorter(plan, m + 1, n);
      assert Slotted(batch, plan[m].entries[x]) && Slotted(batch, plan[n].entries[y]);
    }
  }

  lemma {:induction false} EntryFound(segments: seq<Segment>, t: Tag) returns (n: nat, x: nat)
    requires t in Entries(segments)
    ensures n < |segments| && x < |segments[n].entries| && segments[n].entries[x] == t
    decreases |segments|
  {
    var last := segments[|segments| - 1].entries;
    if t in last {
      n := |segments| - 1;
      x :| 0 <= x < |last| && last[x] == t;
    } else {
      n, x := EntryFound(segments[..|segments| - 1], t);
    }
  }

  // ---------------------------------------------------------------------------
  // The reads
  // ---------------------------------------------------------------------------

  /** Slot of entry `x` of segment `n`: the tag's own value, or failed with the segment. */
  ghost predicate RightEntry(d: Device, plan: seq<Segment>, values: seq<Reading>, n: nat, x: nat) {
    && n < |plan| && x < |plan[n].entries| && plan[n].entries[x].index < |values|
    && values[plan[n].entries[x].index] == Answer(d, OfSegment(n), plan[n].entries[x])
  }

  /** Reads one segment and decodes all its tags; if the read fails they all fail with it. */
  method ReadMergedSegment(d: Device, plan: seq<Segment>, n: nat, values: seq<Reading>, ghost batch: seq<Lookup>)
    returns (out: seq<Reading>)
    requires n < |plan| && Sound(plan[n]) && |values| == |batch|
    requires forall x :: 0 <= x < |plan[n].entries| ==> Slotted(batch, plan[n].entries[x])
    ensures |out| == |values|
    ensures forall x :: 0 <= x < |plan[n].entries| ==> RightEntry(d, plan, out, n, x)
    ensures forall i :: 0 <= i < |out| && (forall x :: 0 <= x < |plan[n].entries| ==> plan[n].entries[x].index != i) ==> out[i] == values[i]
  {
    out := values;
    var s := plan[n];
    var answered := d.ok(OfSegment(n));
    var buf := ReadArea(d, s.key, s.start, s.length);
    for x := 0 to |s.entries|
      invariant |out| == |values|
      invariant forall y :: 0 <= y < x ==> RightEntry(d, plan, out, n, y)
      invariant forall i :: 0 <= i < |out| && (forall y :: 0 <= y < x ==> s.entries[y].index != i) ==> out[i] == values[i]
    {
      var t := s.entries[x];
      assert Covers(s, t) && Slotted(batch, t);
      var r := Failed;
      if answered {
        var off := t.start - s.start;
        SliceIsOwnRead(d, s, t);
        r := ToReading(DecodeBuffer(buf[off..off + t.size], t.isBit, t.bit, t.dt));
      }
      ghost var before := out;
      out := out[t.index := r];
      forall y | 0 <= y < x + 1 ensures RightEntry(d, plan, out, n, y) {
        if y < x {
          assert RightEntry(d, plan, before, n, y) && Slotted(batch, s.entries[y]);
        }
      }
    }
  }

  /** Resolves the batch into word tags, which are merged, and bit tags, which are not. */
  method Resolve(batch: seq<Lookup>) returns (wordTags: seq<Tag>, bitTags: seq<Tag>)
    ensures wordTags == TagsOf(batch, |batch|, false) && bitTags == TagsOf(batch, |batch|, true)
  {
    wordTags, bitTags := [], [];
    for i := 0 to |batch|
      invariant wordTags == TagsOf(batch, i, false) && bitTags == TagsOf(batch, i, true)
    {
      if batch[i].Known? {
        var tag := TagAt(batch, i);
        if tag.isBit {
          bitTags := bitTags + [tag];
        } else {
          wordTags := wordTags + [tag];
        }
      }
    }
  }

  /** The entries of the first `n` segments have their readings. */
  ghost predicate ReadUpTo(d: Device, plan: seq<Segment>, values: seq<Reading>, n: nat) {
    n <= |plan| && forall m, x :: 0 <= m < n && 0 <= x < |plan[m].entries| ==> RightEntry(d, plan, values, m, x)
  }

  lemma {:induction false} ReadNext(d: Device, plan: seq<Segment>, values: seq<Reading>, out: seq<Reading>, n: nat)
    requires n < |plan| && Apart(plan) && |out| == |values| && ReadUpTo(d, plan, values, n)
    requires forall x :: 0 <= x < |plan[n].entries| ==> RightEntry(d, plan, out, n, x)
    requires forall i :: 0 <= i < |out| && (forall x :: 0 <= x < |plan[n].entries| ==> plan[n].entries[x].index != i) ==> out[i] == values[i]
    ensures ReadUpTo(d, plan, out, n + 1)
  {
    forall m, x | 0 <= m < n && 0 <= x < |plan[m].entries| ensures RightEntry(d, plan, out, m, x) {
      assert RightEntry(d, plan, values, m, x);
      var i := plan[m].entries[x].index;
      assert forall y :: 0 <= y < |plan[n].entries| ==> plan[n].entries[y].index != i;
    }
  }

  /** Reads all planned segments; slots that no segment holds keep their reading. */
  method ReadPlan(d: Device, plan: seq<Segment>, batch: seq<Lookup>) returns (values: seq<Reading>)
    requires (forall n :: 0 <= n < |plan| ==> Sound(plan[n])) && AllSlotted(batch, plan) && Apart(plan)
    ensures |values| == |batch| && ReadUpTo(d, plan, values, |plan|)
    ensures forall i :: 0 <= i < |batch| && (forall n, x :: 0 <= n < |plan| && 0 <= x < |plan[n].entries| ==> plan[n].entries[x].index != i) ==> values[i] == NotFound
  {
    values := Blank(batch);
    for n := 0 to |plan|
      invariant |values| == |batch| && ReadUpTo(d, plan, values, n)
      invariant forall i :: 0 <= i < |batch| && (forall m, x :: 0 <= m < |plan| && 0 <= x < |plan[m].entries| ==> plan[m].entries[x].index != i) ==> values[i] == NotFound
    {
      ghost var before := values;
      values := ReadMergedSegment(d, plan, n, values, batch);
      ReadNext(d, plan, before, values, n);
    }
  }

  function Blank(batch: seq<Lookup>): (values: seq<Reading>)
    ensures |values| == |batch| && forall i :: 0 <= i < |batch| ==> values[i] == NotFound
  {
    seq(|batch|, i => NotFound)
  }

  /** Bit tags keep one read each. */
  method ReadBitTags(d: Device, bitTags: seq<Tag>, words: seq<Reading>, ghost batch: seq<Lookup>) returns (values: seq<Reading>)
    requires |words| == |batch|
    requires forall x :: 0 <= x < |bitTags| ==> Slotted(batch, bitTags[x]) && bitTags[x].isBit
    requires forall i :: 0 <= i < |batch| && batch[i].Known? && batch[i].isBit ==> TagAt(batch, i) in bitTags
    ensures |values| == |batch|
    ensures forall i :: 0 <= i < |batch| && !(batch[i].Known? && batch[i].isBit) ==> values[i] == words[i]
    ensures forall i :: 0 <= i < |batch| && batch[i].Known? && batch[i].isBit ==> values[i] == Answer(d, OfBit(i), TagAt(batch, i))
  {
    values := words;
    for y := 0 to |bitTags|
      invariant |values| == |batch|
      invariant forall i :: 0 <= i < |batch| && !(batch[i].Known? && batch[i].isBit) ==> values[i] == words[i]
      invariant forall z :: 0 <= z < y ==> values[bitTags[z].index] == Answer(d, OfBit(bitTags[z].index), bitTags[z])
    {
      values := values[bitTags[y].index := Answer(d, OfBit(bitTags[y].index), bitTags[y])];
    }
  }

  lemma {:induction false} PlanReady(batch: seq<Lookup>, plan: seq<Segment>)
    requires multiset(Entries(plan)) == multiset(TagsOf(batch, |batch|, false))
    ensures AllSlotted(batch, plan) && Apart(plan)
    ensures forall n, x :: 0 <= n < |plan| && 0 <= x < |plan[n].entries| ==> !plan[n].entries[x].isBit
  {
    var tags := TagsOf(batch, |batch|, false);
    PlanSlotted(batch, tags, plan);
    TagsOfApart(batch, |batch|, false);
    CountsNoRepeats(tags, Entries(plan));
    PlanApart(batch, plan);
    forall n, x | 0 <= n < |plan| && 0 <= x < |plan[n].entries| ensures !plan[n].entries[x].isBit {
      EntryAt(plan, n, x);
      var t := plan[n].entries[x];
      assert t in multiset(Entries(plan));
      assert t in multiset(tags);
      var y :| 0 <= y < |tags| && tags[y] == t;
    }
  }

  /** A slot that is unknown, or a bit, is not that of a planned entry. */
  lemma {:induction false} NotPlanned(batch: seq<Lookup>, plan: seq<Segment>, i: nat)
    requires i < |batch| && AllSlotted(batch, plan) && batch[i].Unknown?
    ensures forall n, x :: 0 <= n < |plan| && 0 <= x < |plan[n].entries| ==> plan[n].entries[x].index != i
  {
    forall n, x | 0 <= n < |plan| && 0 <= x < |plan[n].entries| ensures plan[n].entries[x].index != i {
      assert Slotted(batch, plan[n].entries[x]);
    }
  }

  /** A planned segment holds the tag, and the tag's reading is what that segment's answer gives it. */
  ghost predicate ReadFromPlan(d: Device, batch: seq<Lookup>, plan: seq<Segment>, values: seq<Reading>, i: nat)
    requires i < |batch| && i < |values| && batch[i].Known?
  {
    exists n :: 0 <= n < |plan| && TagAt(batch, i) in plan[n].entries && values[i] == Answer(d, OfSegment(n), TagAt(batch, i))
  }

  /**
   Reads a batch, one result per tag in input order: an unknown tag is not found; a bit tag is
   read on its own; any other tag is an entry of exactly one planned segment and has its own value
   if that segment was answered, a failure if not.
   */
  method ReadS7Batch(d: Device, batch: seq<Lookup>) returns (values: seq<Reading>, plan: seq<Segment>, ghost ks: seq<Key>)
    ensures |values| == |batch| && plan == PlanOver(TagsOf(batch, |batch|, false), ks) && Ascending(ks)
    ensures forall n :: 0 <= n < |plan| ==> Sound(plan[n])
    ensures multiset(Entries(plan)) == multiset(TagsOf(batch, |batch|, false)) && Apart(plan)
    ensures forall i :: 0 <= i < |batch| && batch[i].Unknown? ==> values[i] == NotFound
    ensures forall i :: 0 <= i < |batch| && batch[i].Known? && batch[i].isBit ==> values[i] == Answer(d, OfBit(i), TagAt(batch, i))
    ensures forall i :: 0 <= i < |batch| && batch[i].Known? && !batch[i].isBit ==> ReadFromPlan(d, batch, plan, values, i)
    ensures ReadUpTo(d, plan, values, |plan|)
  {
    var wordTags, bitTags := Resolve(batch);
    plan, ks := PlanS7ReadSegments(wordTags);
    PlanReady(batch, plan);
    var words := ReadPlan(d, plan, batch);
    values := ReadBitTags(d, bitTags, words, batch);
    forall i | 0 <= i < |batch| && batch[i].Unknown? ensures values[i] == NotFound {
      NotPlanned(batch, plan, i);
    }
    BitsApart(d, batch, plan, words, values);
    forall i | 0 <= i < |batch| && batch[i].Known? && !batch[i].isBit ensures ReadFromPlan(d, batch, plan, values, i) {
      WordIsPlanned(d, batch, plan, values, i);
    }
  }

  /** Reading the bits afterwards leaves the readings of the segments alone. */
  lemma {:induction false} BitsApart(d: Device, batch: seq<Lookup>, plan: seq<Segment>, words: seq<Reading>, values: seq<Reading>)
    requires |words| == |values| == |batch| && AllSlotted(batch, plan) && ReadUpTo(d, plan, words, |plan|)
    requires forall n, x :: 0 <= n < |plan| && 0 <= x < |plan[n].entries| ==> !plan[n].entries[x].isBit
    requires forall i :: 0 <= i < |batch| && !(batch[i].Known? && batch[i].isBit) ==> values[i] == words[i]
    ensures ReadUpTo(d, plan, values, |plan|)
  {
    forall m, x | 0 <= m < |plan| && 0 <= x < |plan[m].entries| ensures RightEntry(d, plan, values, m, x) {
      assert RightEntry(d, plan, words, m, x) && Slotted(batch, plan[m].entries[x]);
    }
  }

  /** A requested word tag is in the plan, so it has exactly the reading of the segment that holds it. */
  lemma {:induction false} WordIsPlanned(d: Device, batch: seq<Lookup>, plan: seq<Segment>, values: seq<Reading>, i: nat)
    requires multiset(Entries(plan)) == multiset(TagsOf(batch, |batch|, false)) && ReadUpTo(d, plan, values, |plan|)
    requires i < |batch| && i < |values| && batch[i].Known? && !batch[i].isBit
    ensures ReadFromPlan(d, batch, plan, values, i)
  {
    var t := TagAt(batch, i);
    assert t in multiset(TagsOf(batch, |batch|, false));
    assert t in multiset(Entries(plan));
    var n, x := EntryFound(plan, t);
    assert RightEntry(d, plan, values, n, x);
  }
}
