/**
 The on-disk replay store shared by all transports, as a state machine. `Push` holds the mutex
 throughout and is one step; a drain reads the directory, then for each entry reads it, tries to
 publish it and removes it, and pushes of any transport can fall between those steps. A second
 mutex lets one drain run at a time. The directory maps sequence numbers to entries.
 */
module OfflineProtocol {

  /** A buffered batch: the transport it belongs to, its number of points, its content. */
  datatype Entry = Entry(source: nat, points: nat, content: int)

  type Directory = map<nat, Entry>

  /** A successful replay of entry `seqNo` through transport `via`. */
  datatype Replay = Replay(seqNo: nat, via: nat, entry: Entry)

  /** A drain in progress. `horizon` is the next sequence number when the directory was read. */
  datatype Drain =
    | Idle
    | Scanning(source: nat, todo: set<nat>, drained: nat, horizon: nat)
    | Trying(source: nat, seqNo: nat, entry: Entry, todo: set<nat>, drained: nat, horizon: nat)
    | Removing(source: nat, seqNo: nat, todo: set<nat>, drained: nat, horizon: nat)
    | Discarding(source: nat, seqNo: nat, todo: set<nat>, drained: nat, horizon: nat)

  /** `pushed`, `evicted`, `corrupt` and `replays` record the history of the process. */
  datatype State = State(
    dir: Directory, nextSeq: nat, evictCount: nat, drainCount: nat, drain: Drain,
    pushed: Directory,    // entries on disk at start and entries whose `Push` returned nil
    evicted: set<nat>,    // entries removed to make room
    corrupt: set<nat>,    // entries whose file a drain read and could not decode
    replays: seq<Replay>) // successful publishes, in order

  /** What reading a file gives: the entry, content that does not decode, or an error. */
  datatype Content = Whole | Corrupt | Unreadable

  /** `stuck` are the files whose removal fails; `written` is false when writing the file fails. */
  datatype Event =
    | Push(entry: Entry, stuck: set<nat>, written: bool)
    | DrainStart(via: nat)
    | DrainRead(content: Content)
    | DrainResult(ok: bool)
    | DrainRemove(removed: bool)
    | DrainDiscard(removed: bool)
    | DrainEnd

  // ---------------------------------------------------------------------------
  // Going through a directory in ascending order, and eviction
  // ---------------------------------------------------------------------------

  ghost predicate IsMin(s: set<nat>, m: nat) {
    m in s && forall x :: x in s ==> m <= x
  }

  lemma {:induction false} MinExists(s: set<nat>)
    requires s != {}
    ensures exists m :: IsMin(s, m)
    decreases |s|
  {
    var m :| m in s;
    if s == {m} {
      assert IsMin(s, m);
    } else {
      assert s - {m} != {};
      MinExists(s - {m});
      var m' :| IsMin(s - {m}, m');
      assert forall x :: x in s ==> x == m || x in s - {m};
      assert IsMin(s, if m' < m then m' else m);
    }
  }

  ghost function Min(s: set<nat>): (m: nat)
    requires s != {}
    ensures m in s && forall x :: x in s ==> m <= x
  {
    MinExists(s);
    var m :| IsMin(s, m);
    m
  }

  /** The highest sequence number on disk, 0 if there is none. */
  ghost predicate IsMaxSeq(d: Directory, m: nat) {
    (forall q :: q in d ==> q <= m) && (m in d || (m == 0 && d == map[]))
  }

  /**
   Removing the oldest of the listed entries until fewer than `max` are listed. A file that does
   not go is dropped from the list but is neither gone nor counted.
   */
  ghost function Evict(d: Directory, listed: set<nat>, max: nat, stuck: set<nat>): (r: (Directory, set<nat>))
    requires max > 0
    decreases |listed|
  {
    if |listed| < max then (d, {})
    else
      var m := Min(listed);
      if m in stuck || m !in d then Evict(d, listed - {m}, max, stuck)
      else
        var (d', gone) := Evict(d - {m}, listed - {m}, max, stuck);
        (d', gone + {m})
  }

  /** Writing the entry after eviction left `kept` and removed `gone`. */
  function Store(s: State, kept: Directory, gone: set<nat>, entry: Entry, written: bool): State {
    var s' := s.(dir := kept, evicted := s.evicted + gone, evictCount := s.evictCount + |gone|, nextSeq := s.nextSeq + 1);
    if written
    then s'.(dir := kept[s.nextSeq := entry], pushed := s.pushed[s.nextSeq := entry])
    else s'
  }

  ghost function DoPush(max: nat, s: State, e: Event): State
    requires max > 0 && e.Push?
  {
    if e.entry.points == 0 then s
    else
      var (kept, gone) := Evict(s.dir, s.dir.Keys, max, e.stuck);
      Store(s, kept, gone, e.entry, e.written)
  }

  function FinishDrain(s: State): State
    requires !s.drain.Idle?
  {
    s.(drain := Idle, drainCount := s.drainCount + s.drain.drained)
  }

  ghost function DoDrain(s: State, e: Event): State {
    match (e, s.drain)
    case (DrainStart(via), Idle) =>
      s.(drain := Scanning(via, s.dir.Keys, 0, s.nextSeq))
    case (DrainRead(content), Scanning(via, todo, n, h)) =>
      if todo == {} then s
      else
        var q := Min(todo);
        var rest := Scanning(via, todo - {q}, n, h);
        if q !in s.dir then s.(drain := rest)
        else if content == Unreadable then FinishDrain(s)
        else if content == Corrupt then s.(corrupt := s.corrupt + {q}, drain := Discarding(via, q, todo - {q}, n, h))
        else if s.dir[q].source != via then s.(drain := rest)
        else s.(drain := Trying(via, q, s.dir[q], todo - {q}, n, h))
    case (DrainResult(ok), Trying(via, q, entry, todo, n, h)) =>
      if !ok then FinishDrain(s)
      else s.(replays := s.replays + [Replay(q, via, entry)], drain := Removing(via, q, todo, n, h))
    case (DrainRemove(removed), Removing(via, q, todo, n, h)) =>
      s.(dir := if removed then s.dir - {q} else s.dir, drain := Scanning(via, todo, n + 1, h))
    case (DrainDiscard(removed), Discarding(via, q, todo, n, h)) =>
      s.(dir := if removed then s.dir - {q} else s.dir, drain := Scanning(via, todo, n, h))
    case (DrainEnd, Scanning(via, todo, n, h)) => if todo == {} then FinishDrain(s) else s
    case _ => s
  }

  ghost function Next(max: nat, s: State, e: Event): State
    requires max > 0
  {
    if e.Push? then DoPush(max, s, e) else DoDrain(s, e)
  }

  /** A process start on directory `d`: numbering goes on after the highest number found. */
  function Start(d: Directory, maxSeq: nat): State {
    State(d, maxSeq + 1, 0, 0, Idle, d, {}, {}, [])
  }

  ghost function Run(max: nat, s: State, es: seq<Event>): State
    requires max > 0
  {
    if es == [] then s else Next(max, Run(max, s, es[..|es| - 1]), es[|es| - 1])
  }

  // ---------------------------------------------------------------------------
  // Eviction
  // ---------------------------------------------------------------------------

  /** Eviction only removes listed entries that are not stuck and leaves the others as they were. */
  lemma {:induction false} EvictFacts(d: Directory, listed: set<nat>, max: nat, stuck: set<nat>)
    requires max > 0
    ensures var (kept, gone) := Evict(d, listed, max, stuck);
            gone <= d.Keys && gone <= listed && gone !! stuck && kept == d - gone
    decreases |listed|
  {
    if |listed| >= max {
      var m := Min(listed);
      if m in stuck || m !in d {
        EvictFacts(d, listed - {m}, max, stuck);
      } else {
        EvictFacts(d - {m}, listed - {m}, max, stuck);
      }
    }
  }

  /** When every removal succeeds the oldest go. */
  lemma {:induction false} EvictOldest(d: Directory, max: nat, x: nat, y: nat)
    requires max > 0
    requires var (kept, gone) := Evict(d, d.Keys, max, {}); x in gone && y in kept
    ensures x < y
    decreases |d|
  {
    var m := Min(d.Keys);
    var rest := d - {m};
    assert rest.Keys == d.Keys - {m};
    EvictFacts(rest, rest.Keys, max, {});
    if x != m {
      EvictOldest(rest, max, x, y);
    }
  }

  /** When every removal succeeds just as many go as needed. */
  lemma {:induction false} EvictSize(d: Directory, max: nat)
    requires max > 0
    ensures |Evict(d, d.Keys, max, {}).0| == if |d| < max then |d| else max - 1
    decreases |d|
  {
    if |d| >= max {
      var rest := d - {Min(d.Keys)};
      assert rest.Keys == d.Keys - {Min(d.Keys)};
      EvictSize(rest, max);
    }
  }

  lemma {:induction false} KeptSize(d: Directory, gone: set<nat>)
    requires gone <= d.Keys
    ensures |d - gone| == |d| - |gone|
  {
    assert (d - gone).Keys == d.Keys - gone;
  }

  /** What was removed is older than all that stayed, and just as much as needed was removed. */
  ghost predicate Newest(d: Directory, kept: Directory, gone: set<nat>, max: nat) {
    && (forall x, y :: x in gone && y in kept ==> x < y)
    && |kept| == (if |d| < max then |d| else max - 1)
  }

  lemma {:induction false} StoreKeepsNewest(max: nat, s: State, kept: Directory, gone: set<nat>, entry: Entry)
    requires max > 0 && gone <= s.dir.Keys && kept == s.dir - gone && Newest(s.dir, kept, gone, max)
    requires forall q :: q in s.dir ==> q < s.nextSeq
    ensures var t := Store(s, kept, gone, entry, true);
            && t.dir == kept[s.nextSeq := entry]
            && (forall x, y :: x in s.dir && x !in t.dir && y in t.dir ==> x < y)
            && |t.dir| == (if |s.dir| < max then |s.dir| + 1 else max)
            && t.evictCount == s.evictCount + |s.dir| + 1 - |t.dir|
  {
    KeptSize(s.dir, gone);
    assert kept[s.nextSeq := entry].Keys == kept.Keys + {s.nextSeq};
  }

  /**
   When every removal succeeds, a push leaves exactly the highest-numbered entries: what was
   removed is older than all that stayed, the new entry is the newest, and the directory holds
   `max` entries or, if there was room, one more than before.
   */
  lemma {:induction false} PushKeepsNewest(max: nat, s: State, entry: Entry)
    requires max > 0 && entry.points > 0 && forall q :: q in s.dir ==> q < s.nextSeq
    ensures var t := DoPush(max, s, Push(entry, {}, true));
            && s.nextSeq in t.dir && t.dir[s.nextSeq] == entry
            && (forall q :: q in t.dir && q != s.nextSeq ==> q in s.dir && t.dir[q] == s.dir[q])
            && (forall x, y :: x in s.dir && x !in t.dir && y in t.dir ==> x < y)
            && |t.dir| == (if |s.dir| < max then |s.dir| + 1 else max)
            && t.evictCount == s.evictCount + |s.dir| + 1 - |t.dir|
  {
    var (kept, gone) := Evict(s.dir, s.dir.Keys, max, {});
    EvictFacts(s.dir, s.dir.Keys, max, {});
    EvictSize(s.dir, max);
    forall x, y | x in gone && y in kept ensures x < y {
      EvictOldest(s.dir, max, x, y);
    }
    StoreKeepsNewest(max, s, kept, gone, entry);
  }

  /** Whatever removals fail, a push stores its entry under the next number exactly when it has points and is written. */
  lemma {:induction false} PushStores(max: nat, s: State, e: Event)
    requires max > 0 && e.Push?
    ensures var t := DoPush(max, s, e);
            && (e.entry.points > 0 && e.written ==>
                  && s.nextSeq in t.dir && t.dir[s.nextSeq] == e.entry && t.nextSeq == s.nextSeq + 1
                  && t.pushed == s.pushed[s.nextSeq := e.entry])
            && (!(e.entry.points > 0 && e.written) ==> t.pushed == s.pushed && t.dir.Keys <= s.dir.Keys)
            && (e.entry.points == 0 ==> t == s)
            && (forall q :: q in s.dir && q !in t.dir ==> q !in e.stuck && q in t.evicted)
  {
    EvictFacts(s.dir, s.dir.Keys, max, e.stuck);
  }

  // ---------------------------------------------------------------------------
  // What every run keeps, whatever fails
  // ---------------------------------------------------------------------------

  ghost predicate Replayed(s: State, q: nat) {
    exists i :: 0 <= i < |s.replays| && s.replays[i].seqNo == q
  }

  /** Everything on disk was pushed under a number already used. */
  ghost predicate OnDisk(s: State) {
    && (forall q :: q in s.dir ==> q in s.pushed && s.dir[q] == s.pushed[q])
    && (forall q :: q in s.pushed ==> q < s.nextSeq)
  }

  /** A pushed entry is on disk, or was replayed, evicted or found corrupt; evictions are counted. */
  ghost predicate NothingLost(s: State) {
    && (forall q :: q in s.pushed && q !in s.dir && q !in s.evicted && q !in s.corrupt ==> Replayed(s, q))
    && (forall q :: q in s.evicted ==> q in s.pushed && q !in s.dir)
    && |s.evicted| == s.evictCount
  }

  /** Every replay went through the transport that pushed the entry, with the entry's content. */
  ghost predicate OwnerOnly(s: State) {
    && (forall i :: 0 <= i < |s.replays| ==>
          var r := s.replays[i]; r.seqNo in s.pushed && r.entry == s.pushed[r.seqNo] && r.via == r.entry.source)
    && (s.drain.Trying? ==> s.drain.seqNo in s.pushed && s.drain.entry == s.pushed[s.drain.seqNo]
                            && s.drain.source == s.drain.entry.source)
    && (s.drain.Removing? ==> Replayed(s, s.drain.seqNo))
    && (s.drain.Discarding? ==> s.drain.seqNo in s.corrupt)
  }

  /** Replays are counted when their drain ends. */
  ghost predicate Counted(s: State) {
    |s.replays| == s.drainCount + (if s.drain.Idle? then 0 else s.drain.drained) + (if s.drain.Removing? then 1 else 0)
  }

  ghost predicate Inv(s: State) {
    OnDisk(s) && NothingLost(s) && OwnerOnly(s) && Counted(s)
  }

  lemma {:induction false} StoreOnDisk(s: State, kept: Directory, gone: set<nat>, entry: Entry, written: bool)
    requires OnDisk(s) && gone <= s.dir.Keys && kept == s.dir - gone
    ensures OnDisk(Store(s, kept, gone, entry, written))
  {
  }

  lemma {:induction false} StoreNothingLost(s: State, kept: Directory, gone: set<nat>, entry: Entry, written: bool)
    requires OnDisk(s) && NothingLost(s) && gone <= s.dir.Keys && kept == s.dir - gone
    ensures NothingLost(Store(s, kept, gone, entry, written))
  {
    var t := Store(s, kept, gone, entry, written);
    assert gone !! s.evicted;
    forall q | q in t.pushed && q !in t.dir && q !in t.evicted && q !in t.corrupt ensures Replayed(t, q) {
      assert Replayed(s, q);
    }
  }

  lemma {:induction false} StoreOwnerOnly(s: State, kept: Directory, gone: set<nat>, entry: Entry, written: bool)
    requires OnDisk(s) && OwnerOnly(s)
    ensures OwnerOnly(Store(s, kept, gone, entry, written))
  {
  }

  lemma {:induction false} PushKeepsInv(max: nat, s: State, e: Event)
    requires max > 0 && e.Push? && Inv(s)
    ensures Inv(DoPush(max, s, e))
  {
    var (kept, gone) := Evict(s.dir, s.dir.Keys, max, e.stuck);
    EvictFacts(s.dir, s.dir.Keys, max, e.stuck);
    StoreOnDisk(s, kept, gone, e.entry, e.written);
    StoreNothingLost(s, kept, gone, e.entry, e.written);
    StoreOwnerOnly(s, kept, gone, e.entry, e.written);
  }

  /** A drain step evicts nothing, and removes from disk only what has been replayed or did not decode. */
  lemma {:induction false} DrainRemoves(s: State, e: Event)
    requires !e.Push?
    ensures var t := DoDrain(s, e);
            && t.pushed == s.pushed && t.evicted == s.evicted && t.evictCount == s.evictCount && s.replays <= t.replays
            && (forall q :: q in t.dir ==> q in s.dir && t.dir[q] == s.dir[q])
            && s.corrupt <= t.corrupt
            && (forall q :: q in s.dir && q !in t.dir ==> (s.drain.Removing? || s.drain.Discarding?) && s.drain.seqNo == q)
  {
  }

  lemma {:induction false} ReplayedStays(s: State, t: State, q: nat)
    requires Replayed(s, q) && s.replays <= t.replays
    ensures Replayed(t, q)
  {
    var i :| 0 <= i < |s.replays| && s.replays[i].seqNo == q;
    assert t.replays[i] == s.replays[i];
  }

  lemma {:induction false} DrainNothingLost(s: State, e: Event)
    requires NothingLost(s) && OwnerOnly(s) && !e.Push?
    ensures NothingLost(DoDrain(s, e))
  {
    var t := DoDrain(s, e);
    DrainRemoves(s, e);
    forall q | q in t.pushed && q !in t.dir && q !in t.evicted && q !in t.corrupt ensures Replayed(t, q) {
      assert Replayed(s, q);
      ReplayedStays(s, t, q);
    }
  }

  lemma {:induction false} DrainOwnerOnly(s: State, e: Event)
    requires Inv(s)
    ensures OwnerOnly(DoDrain(s, e))
  {
    match (e, s.drain)
    case (DrainResult(ok), Trying(via, q, entry, todo, n, h)) =>
      if ok {
        var t := DoDrain(s, e);
        assert t.replays[|s.replays|].seqNo == q;
      }
    case _ =>
  }

  lemma {:induction false} DrainCounted(s: State, e: Event)
    requires Counted(s)
    ensures Counted(DoDrain(s, e))
  {
  }

  lemma {:induction false} DrainOnDisk(s: State, e: Event)
    requires OnDisk(s) && !e.Push?
    ensures OnDisk(DoDrain(s, e))
  {
    DrainRemoves(s, e);
    NumberStays(s, e);
  }

  lemma {:induction false} NumberStays(s: State, e: Event)
    ensures DoDrain(s, e).nextSeq == s.nextSeq
  {
  }

  lemma {:induction false} NextKeepsInv(max: nat, s: State, e: Event)
    requires max > 0 && Inv(s)
    ensures Inv(Next(max, s, e))
  {
    if e.Push? {
      PushKeepsInv(max, s, e);
    } else {
      DrainOnDisk(s, e);
      DrainNothingLost(s, e);
      DrainOwnerOnly(s, e);
      DrainCounted(s, e);
    }
  }

  lemma {:induction false} RunKeepsInv(max: nat, d: Directory, maxSeq: nat, es: seq<Event>)
    requires max > 0 && IsMaxSeq(d, maxSeq)
    ensures Inv(Run(max, Start(d, maxSeq), es))
  {
    if es != [] {
      RunKeepsInv(max, d, maxSeq, es[..|es| - 1]);
      NextKeepsInv(max, Run(max, Start(d, maxSeq), es[..|es| - 1]), es[|es| - 1]);
    }
  }

  /**
   Whatever interleaving of pushes and drains of several transports, and whatever writes, reads,
   publishes and removals fail: every entry on disk at start or pushed with success is on disk
   with its content, or was replayed, or is among the evictions, whose number is counted, or among
   the entries whose file was read and did not decode; and a replay carries an entry's own content through the transport that pushed it.
   */
  lemma {:induction false} EveryBatchAccountedFor(max: nat, d: Directory, maxSeq: nat, es: seq<Event>, q: nat)
    requires max > 0 && IsMaxSeq(d, maxSeq)
    ensures var s := Run(max, Start(d, maxSeq), es);
            && (q in s.pushed ==> (q in s.dir && s.dir[q] == s.pushed[q]) || Replayed(s, q) || q in s.evicted || q in s.corrupt)
            && |s.evicted| == s.evictCount
            && (forall i :: 0 <= i < |s.replays| ==>
                  var r := s.replays[i]; r.seqNo in s.pushed && r.entry == s.pushed[r.seqNo] && r.via == r.entry.source)
            && (s.drain.Idle? ==> s.drainCount == |s.replays|)
  {
    RunKeepsInv(max, d, maxSeq, es);
  }

  // ---------------------------------------------------------------------------
  // Replay order, when every removal succeeds
  // ---------------------------------------------------------------------------

  predicate Clean(e: Event) {
    (e.DrainRemove? || e.DrainDiscard?) ==> e.removed
  }

  /** Replays through one transport have strictly increasing sequence numbers. */
  ghost predicate ReplaysAscend(s: State) {
    forall i, j :: 0 <= i < j < |s.replays| && s.replays[i].via == s.replays[j].via ==> s.replays[i].seqNo < s.replays[j].seqNo
  }

  /** Every replay through transport `via` had a number below `q`. */
  ghost predicate AllBelow(s: State, via: nat, q: nat) {
    forall i :: 0 <= i < |s.replays| && s.replays[i].via == via ==> s.replays[i].seqNo < q
  }

  /** An entry on disk is newer than all its transport has replayed, unless it is being removed. */
  ghost predicate DiskAhead(s: State) {
    forall q :: q in s.dir && !(s.drain.Removing? && s.drain.seqNo == q) ==> AllBelow(s, s.dir[q].source, q)
  }

  /** The entry a drain has in hand. */
  predicate InHand(dr: Drain, q: nat) {
    (dr.Trying? || dr.Removing? || dr.Discarding?) && dr.seqNo == q
  }

  /** A drain goes upward and has every older entry of its transport still before it. */
  ghost predicate DrainAhead(s: State) {
    !s.drain.Idle? ==>
      && s.drain.horizon <= s.nextSeq
      && (forall q :: q in s.dir && s.dir[q].source == s.drain.source && q < s.drain.horizon ==> q in s.drain.todo || InHand(s.drain, q))
      && (forall q :: q in s.drain.todo ==> q < s.drain.horizon)
      && (s.drain.Trying? || s.drain.Removing? || s.drain.Discarding? ==>
            s.drain.seqNo < s.drain.horizon && forall q :: q in s.drain.todo ==> s.drain.seqNo < q)
      && (s.drain.Trying? ==> AllBelow(s, s.drain.source, s.drain.seqNo))
  }

  ghost predicate Ordered(s: State) {
    ReplaysAscend(s) && DiskAhead(s) && DrainAhead(s)
  }

  lemma {:induction false} StoreDiskAhead(s: State, kept: Directory, gone: set<nat>, entry: Entry, written: bool)
    requires Inv(s) && DiskAhead(s) && kept == s.dir - gone
    ensures DiskAhead(Store(s, kept, gone, entry, written))
  {
    var t := Store(s, kept, gone, entry, written);
    forall q | q in t.dir && !(t.drain.Removing? && t.drain.seqNo == q) ensures AllBelow(t, t.dir[q].source, q) {
      if q in s.dir {
        assert AllBelow(s, s.dir[q].source, q);
      }
    }
  }

  lemma {:induction false} StoreDrainAhead(s: State, kept: Directory, gone: set<nat>, entry: Entry, written: bool)
    requires DrainAhead(s) && kept == s.dir - gone
    ensures DrainAhead(Store(s, kept, gone, entry, written))
  {
    if s.drain.Trying? {
      assert AllBelow(s, s.drain.source, s.drain.seqNo);
    }
  }

  lemma {:induction false} ReadKeepsDisk(s: State, e: Event)
    requires s.drain.Scanning? && e.DrainRead?
    ensures DoDrain(s, e).dir == s.dir && DoDrain(s, e).replays == s.replays && DoDrain(s, e).nextSeq == s.nextSeq
    ensures !DoDrain(s, e).drain.Removing?
  {
  }

  lemma {:induction false} SameDiskAhead(s: State, t: State)
    requires DiskAhead(s) && ReplaysAscend(s) && !s.drain.Removing? && t.dir == s.dir && t.replays == s.replays
    ensures DiskAhead(t) && ReplaysAscend(t)
  {
    forall q | q in t.dir ensures AllBelow(t, t.dir[q].source, q) {
      assert AllBelow(s, s.dir[q].source, q);
    }
  }

  lemma {:induction false} ReadKeepsDrainAhead(s: State, e: Event)
    requires DiskAhead(s) && DrainAhead(s) && s.drain.Scanning? && e.DrainRead?
    ensures DrainAhead(DoDrain(s, e))
  {
    var t := DoDrain(s, e);
    if t.drain.Trying? {
      assert AllBelow(s, s.dir[t.drain.seqNo].source, t.drain.seqNo);
    }
  }

  lemma {:induction false} ReadOrdered(s: State, e: Event)
    requires Ordered(s) && s.drain.Scanning? && e.DrainRead?
    ensures Ordered(DoDrain(s, e))
  {
    ReadKeepsDisk(s, e);
    SameDiskAhead(s, DoDrain(s, e));
    ReadKeepsDrainAhead(s, e);
  }

  lemma {:induction false} ResultOrdered(s: State)
    requires Inv(s) && Ordered(s) && s.drain.Trying?
    ensures Ordered(DoDrain(s, DrainResult(true)))
  {
    var t, dr := DoDrain(s, DrainResult(true)), s.drain;
    assert AllBelow(s, dr.source, dr.seqNo);
    forall q | q in t.dir && q != dr.seqNo ensures AllBelow(t, t.dir[q].source, q) {
      assert AllBelow(s, s.dir[q].source, q);
    }
  }

  lemma {:induction false} RemoveOrdered(s: State)
    requires Inv(s) && Ordered(s) && s.drain.Removing?
    ensures Ordered(DoDrain(s, DrainRemove(true)))
  {
    var t := DoDrain(s, DrainRemove(true));
    forall q | q in t.dir ensures AllBelow(t, t.dir[q].source, q) {
      assert AllBelow(s, s.dir[q].source, q);
    }
  }

  lemma {:induction false} DiscardOrdered(s: State)
    requires Inv(s) && Ordered(s) && s.drain.Discarding?
    ensures Ordered(DoDrain(s, DrainDiscard(true)))
  {
    var t := DoDrain(s, DrainDiscard(true));
    forall q | q in t.dir ensures AllBelow(t, t.dir[q].source, q) {
      assert AllBelow(s, s.dir[q].source, q);
    }
  }

  lemma {:induction false} FinishOrdered(s: State)
    requires Ordered(s) && (s.drain.Scanning? || s.drain.Trying?)
    ensures Ordered(FinishDrain(s))
  {
    var t := FinishDrain(s);
    forall q | q in t.dir ensures AllBelow(t, t.dir[q].source, q) {
      assert AllBelow(s, s.dir[q].source, q);
    }
  }

  lemma {:induction false} StartOrdered(s: State, via: nat)
    requires Inv(s) && Ordered(s) && s.drain.Idle?
    ensures Ordered(DoDrain(s, DrainStart(via)))
  {
    var t := DoDrain(s, DrainStart(via));
    forall q | q in t.dir ensures AllBelow(t, t.dir[q].source, q) {
      assert AllBelow(s, s.dir[q].source, q);
    }
  }

  lemma {:induction false} NextOrdered(max: nat, s: State, e: Event)
    requires max > 0 && Inv(s) && Ordered(s) && Clean(e)
    ensures Ordered(Next(max, s, e))
  {
    match (e, s.drain)
    case (Push(entry, stuck, written), _) =>
      var (kept, gone) := Evict(s.dir, s.dir.Keys, max, stuck);
      EvictFacts(s.dir, s.dir.Keys, max, stuck);
      StoreDiskAhead(s, kept, gone, entry, written);
      StoreDrainAhead(s, kept, gone, entry, written);
    case (DrainStart(via), Idle) => StartOrdered(s, via);
    case (DrainRead(content), Scanning(via, todo, n, h)) => ReadOrdered(s, e);
    case (DrainResult(ok), Trying(via, q, entry, todo, n, h)) =>
      if ok { ResultOrdered(s); } else { FinishOrdered(s); }
    case (DrainRemove(removed), Removing(via, q, todo, n, h)) => RemoveOrdered(s);
    case (DrainDiscard(removed), Discarding(via, q, todo, n, h)) => DiscardOrdered(s);
    case (DrainEnd, Scanning(via, todo, n, h)) =>
      if todo == {} { FinishOrdered(s); }
    case _ =>
  }

  /** Within one process each transport's replays go strictly upward across all its drains. */
  lemma {:induction false} ReplaysInOrder(max: nat, d: Directory, maxSeq: nat, es: seq<Event>)
    requires max > 0 && IsMaxSeq(d, maxSeq) && forall i :: 0 <= i < |es| ==> Clean(es[i])
    ensures Ordered(Run(max, Start(d, maxSeq), es))
  {
    if es != [] {
      var init := es[..|es| - 1];
      ReplaysInOrder(max, d, maxSeq, init);
      RunKeepsInv(max, d, maxSeq, init);
      NextOrdered(max, Run(max, Start(d, maxSeq), init), es[|es| - 1]);
    }
  }

  /**
   In every run of a restarted process the number the next push will use is above everything on
   disk, so no push ever overwrites an entry, old or new.
   */
  lemma {:induction false} RestartNeverReuses(max: nat, d: Directory, maxSeq: nat, es: seq<Event>, e: Event)
    requires max > 0 && IsMaxSeq(d, maxSeq) && e.Push? && e.entry.points > 0 && e.written
    ensures var s := Run(max, Start(d, maxSeq), es);
            var t := Next(max, s, e);
            && maxSeq < s.nextSeq && (forall q :: q in s.dir ==> q < s.nextSeq)
            && s.nextSeq in t.dir && t.dir[s.nextSeq] == e.entry && t.nextSeq == s.nextSeq + 1
            && (forall q :: q in t.dir && q != s.nextSeq ==> q in s.dir && t.dir[q] == s.dir[q])
  {
    var s := Run(max, Start(d, maxSeq), es);
    RunKeepsInv(max, d, maxSeq, es);
    NumbersGrow(max, Start(d, maxSeq), es);
    assert OnDisk(s);
    EvictFacts(s.dir, s.dir.Keys, max, e.stuck);
  }

  lemma {:induction false} NumberGrows(max: nat, s: State, e: Event)
    requires max > 0
    ensures s.nextSeq <= Next(max, s, e).nextSeq
  {
  }

  lemma {:induction false} NumbersGrow(max: nat, s: State, es: seq<Event>)
    requires max > 0
    ensures s.nextSeq <= Run(max, s, es).nextSeq
  {
    if es != [] {
      NumbersGrow(max, s, es[..|es| - 1]);
      NumberGrows(max, Run(max, s, es[..|es| - 1]), es[|es| - 1]);
    }
  }
}
