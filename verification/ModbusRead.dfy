/**
 The Modbus driver's batch phase: group the batchable tags by area, merge, fetch every batch once
 and decode each tag out of the shared response. Device memory is a function of area and address;
 a coil or discrete input is a cell that is zero or not.
 */
module ModbusRead {
  import opened ModbusPlan
  import opened ModbusWrap
  import opened S7Codec
  import opened StableSort

  datatype Area = Coil | DiscreteInput | InputRegister | HoldingRegister

  /** A requested tag name as the driver's tables resolve it. */
  datatype Req = Unresolved | Req(area: Area, addr: Word, dt: DataType)

  /** Registers or bits a tag occupies, 0 when it cannot join a batch. */
  function BatchQuantity(area: Area, dt: DataType): Word {
    if area.Coil? || area.DiscreteInput? then (if dt == TypeBool then 1 else 0)
    else match dt
      case TypeBool | TypeUint16 | TypeInt16 => 1
      case TypeUint32 | TypeInt32 | TypeFloat32 => 2
      case TypeFloat64 | TypeUint64 | TypeInt64 => 4
      case _ => 0
  }

  datatype Outcome = Answered | Refused | Lost

  /** Device memory, and what becomes of the request for each batch of an area. */
  datatype Device = Device(mem: (Area, nat) -> Word, outcome: (Area, nat) -> Outcome)

  /** A response of `qty` registers or bits. */
  function Response(d: Device, area: Area, start: nat, qty: nat): (regs: seq<Word>)
    ensures |regs| == qty
  {
    seq<Word>(qty, i requires 0 <= i < qty => d.mem(area, start + i))
  }

  datatype Extracted = Panic | Unsupported | Val(v: Value)

  function Pair(regs: seq<Word>, at: nat): nat
    requires at + 1 < |regs|
  {
    regs[at] as int * 0x1_0000 + regs[at + 1]
  }

  /** Decodes a tag at an offset of a shared response; indexing past the response panics. */
  function ExtractRegisterValue(regs: seq<Word>, offset: nat, dt: DataType): Extracted {
    match dt
    case TypeBool => if offset < |regs| then Val(Bool(regs[offset] != 0)) else Panic
    case TypeUint16 => if offset < |regs| then Val(Int(regs[offset])) else Panic
    case TypeInt16 => if offset < |regs| then Val(Int(Signed(regs[offset], 0x1_0000))) else Panic
    case TypeUint32 => if offset + 1 < |regs| then Val(Int(Pair(regs, offset))) else Panic
    case TypeInt32 => if offset + 1 < |regs| then Val(Int(Signed(Pair(regs, offset), 0x1_0000_0000))) else Panic
    case TypeFloat32 => if offset + 1 < |regs| then Val(Float(Pair(regs, offset))) else Panic
    case TypeUint64 => if offset + 3 < |regs| then Val(Int(Quad(regs, offset))) else Panic
    case TypeInt64 => if offset + 3 < |regs| then Val(Int(Signed(Quad(regs, offset), 0x1_0000_0000_0000_0000))) else Panic
    case TypeFloat64 => if offset + 3 < |regs| then Val(Float(Quad(regs, offset))) else Panic
    case _ => Unsupported
  }

  function Quad(regs: seq<Word>, at: nat): nat
    requires at + 3 < |regs|
  {
    Pair(regs, at) * 0x1_0000_0000 + Pair(regs, at + 2)
  }

  /** The value of a tag's own separate read: the device is asked for just its registers. */
  function OwnValue(d: Device, r: Req): Extracted
    requires r.Req?
  {
    var own := Response(d, r.area, r.addr, BatchQuantity(r.area, r.dt));
    if BatchQuantity(r.area, r.dt) == 0 then Unsupported
    else match r.dt
      case TypeBool => Val(Bool(own[0] != 0))
      case TypeUint16 => Val(Int(own[0]))
      case TypeInt16 => Val(Int(Signed(own[0], 0x1_0000)))
      case TypeUint32 => Val(Int(own[0] as int * 0x1_0000 + own[1]))
      case TypeInt32 => Val(Int(Signed(own[0] as int * 0x1_0000 + own[1], 0x1_0000_0000)))
      case TypeFloat32 => Val(Float(own[0] as int * 0x1_0000 + own[1]))
      case TypeUint64 => Val(Int(FourWords(own)))
      case TypeInt64 => Val(Int(Signed(FourWords(own), 0x1_0000_0000_0000_0000)))
      case TypeFloat64 => Val(Float(FourWords(own)))
  }

  function FourWords(w: seq<Word>): nat
    requires |w| == 4
  {
    ((w[0] as int * 0x1_0000 + w[1]) * 0x1_0000 + w[2]) * 0x1_0000 + w[3]
  }

  /** Decoding at an offset of the batch's response gives the tag's own value, or panics if it lies outside. */
  lemma {:induction false} ExtractIsOwnRead(d: Device, r: Req, b: Batch, t: Item)
    requires r.Req? && t.start == r.addr && t.qty == BatchQuantity(r.area, r.dt) > 0 && b.start <= t.start
    ensures ExtractRegisterValue(Response(d, r.area, b.start, b.qty), t.start - b.start, r.dt) ==
            if Inside(b, t) then OwnValue(d, r) else Panic
  {
  }

  function TwoRegisters(w0: nat, w1: nat): nat { 0x1_0000 * w0 + w1 }

  function FourRegisters(w0: nat, w1: nat, w2: nat, w3: nat): nat {
    0x1_0000_0000_0000 * w0 + 0x1_0000_0000 * w1 + 0x1_0000 * w2 + w3
  }

  /** The number `n` of `m` values whose first register is `top`, whose top bit is the sign. */
  function SignedBy(n: nat, top: nat, m: nat): int {
    if top >= 0x8000 then n - m else n
  }

  /** A tag of one or two registers from device memory, the first register weighing most. */
  lemma {:induction false} TagFromRegisters(d: Device, area: Area, addr: Word)
    requires area.InputRegister? || area.HoldingRegister?
    ensures var w0 := d.mem(area, addr);
            && OwnValue(d, Req(area, addr, TypeBool)) == Val(Bool(w0 != 0))
            && OwnValue(d, Req(area, addr, TypeUint16)) == Val(Int(w0))
            && OwnValue(d, Req(area, addr, TypeInt16)) == Val(Int(SignedBy(w0, w0, 0x1_0000)))
    ensures var w0, n := d.mem(area, addr), TwoRegisters(d.mem(area, addr), d.mem(area, addr + 1));
            && OwnValue(d, Req(area, addr, TypeUint32)) == Val(Int(n)) && OwnValue(d, Req(area, addr, TypeFloat32)) == Val(Float(n))
            && OwnValue(d, Req(area, addr, TypeInt32)) == Val(Int(SignedBy(n, w0, 0x1_0000_0000)))
  {
  }

  /** A tag of four registers, and a coil. */
  lemma {:induction false} WideTagFromRegisters(d: Device, area: Area, addr: Word)
    ensures area.InputRegister? || area.HoldingRegister? ==>
              var w0 := d.mem(area, addr);
              var n := FourRegisters(w0, d.mem(area, addr + 1), d.mem(area, addr + 2), d.mem(area, addr + 3));
              && OwnValue(d, Req(area, addr, TypeUint64)) == Val(Int(n)) && OwnValue(d, Req(area, addr, TypeFloat64)) == Val(Float(n))
              && OwnValue(d, Req(area, addr, TypeInt64)) == Val(Int(SignedBy(n, w0, 0x1_0000_0000_0000_0000)))
    ensures area.Coil? || area.DiscreteInput? ==> OwnValue(d, Req(area, addr, TypeBool)) == Val(Bool(d.mem(area, addr) != 0))
  {
  }

  // ---------------------------------------------------------------------------
  // Grouping and sorting
  // ---------------------------------------------------------------------------

  predicate Batchable(reqs: seq<Req>, i: nat) {
    i < |reqs| && reqs[i].Req? && BatchQuantity(reqs[i].area, reqs[i].dt) > 0
  }

  /** The item stands for a batchable request of the area. */
  predicate Resolved(reqs: seq<Req>, area: Area, t: Item) {
    && Batchable(reqs, t.index) && reqs[t.index].area == area
    && t.start == reqs[t.index].addr && t.qty == BatchQuantity(area, reqs[t.index].dt)
  }

  ghost predicate AllResolved(reqs: seq<Req>, area: Area, ts: seq<Item>) {
    forall x :: 0 <= x < |ts| ==> Resolved(reqs, area, ts[x])
  }

  function ItemAt(reqs: seq<Req>, i: nat): Item
    requires Batchable(reqs, i)
  {
    Item(i, reqs[i].addr, BatchQuantity(reqs[i].area, reqs[i].dt))
  }

  /** The batchable requests of an area among the first `n`, in order. */
  function ItemsOf(reqs: seq<Req>, area: Area, n: nat): (ts: seq<Item>)
    requires n <= |reqs|
    ensures AllResolved(reqs, area, ts)
    ensures forall i :: 0 <= i < n && Batchable(reqs, i) && reqs[i].area == area ==> ItemAt(reqs, i) in ts
  {
    if n == 0 then []
    else ItemsOf(reqs, area, n - 1) + (if Batchable(reqs, n - 1) && reqs[n - 1].area == area then [ItemAt(reqs, n - 1)] else [])
  }

  function Address(t: Item): int { t.start }

  /** The sorted group of one area. */
  function GroupOf(reqs: seq<Req>, area: Area): seq<Item> {
    SortBy(ItemsOf(reqs, area, |reqs|), Address)
  }

  /** Sorting by address keeps the requests of an area and makes them a group. */
  lemma {:induction false} SortedGroup(reqs: seq<Req>, area: Area, ts: seq<Item>, g: seq<Item>)
    requires AllResolved(reqs, area, ts) && g == SortBy(ts, Address)
    ensures Group(g) && AllResolved(reqs, area, g)
  {
    SortSorts(ts, Address);
    forall x | 0 <= x < |g| ensures Resolved(reqs, area, g[x]) {
      SortKeepsMembers(ts, Address, g[x]);
      var y :| 0 <= y < |ts| && ts[y] == g[x];
    }
    forall i, j | 0 <= i < j < |g| ensures g[i].start <= g[j].start {
      assert Address(g[i]) <= Address(g[j]);
    }
    forall i | 0 <= i < |g| ensures 1 <= g[i].qty <= 4 {
      assert Resolved(reqs, area, g[i]);
    }
  }

  /** A group is sorted, of its area, and complete. */
  lemma {:induction false} GroupFacts(reqs: seq<Req>, area: Area, g: seq<Item>)
    requires g == GroupOf(reqs, area)
    ensures Group(g) && AllResolved(reqs, area, g)
    ensures forall i :: 0 <= i < |reqs| && Batchable(reqs, i) && reqs[i].area == area ==> ItemAt(reqs, i) in g
  {
    var ts := ItemsOf(reqs, area, |reqs|);
    SortedGroup(reqs, area, ts, g);
    forall i | 0 <= i < |reqs| && Batchable(reqs, i) && reqs[i].area == area ensures ItemAt(reqs, i) in g {
      SortKeepsMembers(ts, Address, ItemAt(reqs, i));
    }
  }

  // ---------------------------------------------------------------------------
  // Reading
  // ---------------------------------------------------------------------------

  /** Every value read so far is the value of the tag's own read. */
  ghost predicate AllOwn(d: Device, reqs: seq<Req>, values: map<nat, Value>) {
    forall i :: i in values ==> Batchable(reqs, i) && OwnValue(d, reqs[i]) == Val(values[i])
  }

  /** Every tag of the batch has a value. */
  ghost predicate AllIn(b: Batch, values: map<nat, Value>) {
    forall x :: 0 <= x < |b.members| ==> b.members[x].index in values
  }

  /** Decodes an answered batch; it panics exactly when some tag is not covered. */
  method ReadBatch(d: Device, reqs: seq<Req>, area: Area, b: Batch, had: map<nat, Value>) returns (panicked: bool, values: map<nat, Value>)
    requires AllResolved(reqs, area, b.members) && Bounded(b, MAX_BATCH) && AllOwn(d, reqs, had)
    ensures panicked <==> !Covered(b)
    ensures AllOwn(d, reqs, values) && had.Keys <= values.Keys && (!panicked ==> AllIn(b, values))
  {
    values := had;
    var regs := Response(d, area, b.start, b.qty);
    for x := 0 to |b.members|
      invariant forall y :: 0 <= y < x ==> Inside(b, b.members[y]) && b.members[y].index in values
      invariant AllOwn(d, reqs, values) && had.Keys <= values.Keys
    {
      var t := b.members[x];
      assert Resolved(reqs, area, t);
      ExtractIsOwnRead(d, reqs[t.index], b, t);
      var e := ExtractRegisterValue(regs, t.start - b.start, reqs[t.index].dt);
      if e.Val? {
        values := values[t.index := e.v];
      } else {
        return true, values;
      }
    }
    panicked := false;
  }

  /** What is left of a batch that has been dealt with: its values, or a refusal. */
  ghost predicate Served(d: Device, area: Area, n: nat, b: Batch, values: map<nat, Value>) {
    (Covered(b) && AllIn(b, values)) || d.outcome(area, n) == Refused
  }

  ghost predicate AllServed(d: Device, area: Area, batches: seq<Batch>, values: map<nat, Value>) {
    forall n :: 0 <= n < |batches| ==> Served(d, area, n, batches[n], values)
  }

  /** The device answers every request. */
  ghost predicate AllAnswered(d: Device, area: Area, batches: seq<Batch>) {
    forall n :: 0 <= n < |batches| ==> d.outcome(area, n) == Answered
  }

  datatype Ending = Done | LostConnection | Panicked

  lemma {:induction false} PlanFacts(reqs: seq<Req>, area: Area, ts: seq<Item>, t: nat)
    requires Group(ts) && AllResolved(reqs, area, ts) && t < |AppendAll(ts, |ts|, MAX_BATCH)|
    ensures Bounded(AppendAll(ts, |ts|, MAX_BATCH)[t], MAX_BATCH)
    ensures AllResolved(reqs, area, AppendAll(ts, |ts|, MAX_BATCH)[t].members)
  {
    BatchBounds(ts, MAX_BATCH, t);
    var i, j := BatchRun(ts, MAX_BATCH, t);
  }

  /** Reads the batches of one area in turn, stopping at a lost connection or a panic. */
  method ReadGroup(d: Device, reqs: seq<Req>, area: Area, ts: seq<Item>, had: map<nat, Value>)
    returns (ending: Ending, values: map<nat, Value>)
    requires Group(ts) && AllResolved(reqs, area, ts) && AllOwn(d, reqs, had)
    ensures AllOwn(d, reqs, values) && had.Keys <= values.Keys
    ensures ending == Done ==> AllServed(d, area, AppendAll(ts, |ts|, MAX_BATCH), values)
    ensures ending == Panicked ==> !AllCovered(AppendAll(ts, |ts|, MAX_BATCH))
    ensures ending == LostConnection ==> !AllAnswered(d, area, AppendAll(ts, |ts|, MAX_BATCH))
  {
    values := had;
    var batches := MergeBatches(ts, MAX_BATCH);
    for n := 0 to |batches|
      invariant AllOwn(d, reqs, values) && had.Keys <= values.Keys
      invariant forall m :: 0 <= m < n ==> Served(d, area, m, batches[m], values)
    {
      var b := batches[n];
      PlanFacts(reqs, area, ts, n);
      match d.outcome(area, n) {
        case Answered =>
          ghost var before := values;
          var panicked;
          panicked, values := ReadBatch(d, reqs, area, b, values);
          if panicked {
            return Panicked, values;
          }
          forall m | 0 <= m < n ensures Served(d, area, m, batches[m], values) {
            assert Served(d, area, m, batches[m], before);
          }
        case Refused =>
        case Lost =>
          return LostConnection, values;
      }
    }
    ending := Done;
  }

  // ---------------------------------------------------------------------------
  // The whole batch phase
  // ---------------------------------------------------------------------------

  /** The batches planned for an area. */
  function Plan(reqs: seq<Req>, area: Area): seq<Batch> {
    AppendAll(GroupOf(reqs, area), |GroupOf(reqs, area)|, MAX_BATCH)
  }

  /** A batch of the area that holds request `i` was refused. */
  ghost predicate RefusedBatch(d: Device, reqs: seq<Req>, area: Area, i: nat) {
    exists n, x :: 0 <= n < |Plan(reqs, area)| && 0 <= x < |Plan(reqs, area)[n].members| &&
      Plan(reqs, area)[n].members[x].index == i &&
      d.outcome(area, n) == Refused
  }

  ghost predicate AreaDone(d: Device, reqs: seq<Req>, area: Area, values: map<nat, Value>) {
    forall i :: 0 <= i < |reqs| && Batchable(reqs, i) && reqs[i].area == area ==> i in values || RefusedBatch(d, reqs, area, i)
  }

  lemma {:induction false} MemberFound(batches: seq<Batch>, t: Item) returns (n: nat, x: nat)
    requires t in Members(batches)
    ensures n < |batches| && x < |batches[n].members| && batches[n].members[x] == t
    decreases |batches|
  {
    var last := batches[|batches| - 1].members;
    if t in last {
      n := |batches| - 1;
      x :| 0 <= x < |last| && last[x] == t;
    } else {
      n, x := MemberFound(batches[..|batches| - 1], t);
    }
  }

  lemma {:induction false} ServedMeansDone(d: Device, reqs: seq<Req>, area: Area, g: seq<Item>, values: map<nat, Value>)
    requires g == GroupOf(reqs, area) && AllServed(d, area, Plan(reqs, area), values)
    ensures AreaDone(d, reqs, area, values)
  {
    GroupFacts(reqs, area, g);
    BatchesPartition(g, |g|, MAX_BATCH, Plan(reqs, area));
    assert g[..|g|] == g;
    forall i | 0 <= i < |reqs| && Batchable(reqs, i) && reqs[i].area == area ensures i in values || RefusedBatch(d, reqs, area, i) {
      var n, x := MemberFound(Plan(reqs, area), ItemAt(reqs, i));
      assert Served(d, area, n, Plan(reqs, area)[n], values);
    }
  }

  lemma {:induction false} AnsweredMeansCovered(d: Device, area: Area, batches: seq<Batch>, values: map<nat, Value>)
    requires AllServed(d, area, batches, values) && AllAnswered(d, area, batches)
    ensures AllCovered(batches)
  {
  }

  lemma {:induction false} DoneKept(d: Device, reqs: seq<Req>, area: Area, values: map<nat, Value>, more: map<nat, Value>)
    requires AreaDone(d, reqs, area, values) && values.Keys <= more.Keys
    ensures AreaDone(d, reqs, area, more)
  {
  }

  /** Reads one area and says what that means for the requests. */
  method ReadArea(d: Device, reqs: seq<Req>, area: Area, had: map<nat, Value>) returns (ending: Ending, values: map<nat, Value>)
    requires AllOwn(d, reqs, had)
    ensures AllOwn(d, reqs, values) && had.Keys <= values.Keys
    ensures ending == Done ==> AreaDone(d, reqs, area, values)
    ensures ending == Panicked ==> HazardIn(GroupOf(reqs, area))
    ensures AllAnswered(d, area, Plan(reqs, area)) ==>
              ending != LostConnection && (ending == Panicked <==> HazardIn(GroupOf(reqs, area)))
  {
    var g := GroupOf(reqs, area);
    GroupFacts(reqs, area, g);
    ending, values := ReadGroup(d, reqs, area, g, had);
    CoveredIff(g, MAX_BATCH, Plan(reqs, area));
    if ending == Done {
      ServedMeansDone(d, reqs, area, g, values);
      if AllAnswered(d, area, Plan(reqs, area)) {
        AnsweredMeansCovered(d, area, Plan(reqs, area), values);
      }
    }
  }

  /** The device answers every planned request of every area. */
  ghost predicate AnswersAll(d: Device, reqs: seq<Req>) {
    forall area :: AllAnswered(d, area, Plan(reqs, area))
  }

  /** In some area a tag below 65536 touches a later one beyond. */
  ghost predicate Hazardous(reqs: seq<Req>) {
    exists area :: HazardIn(GroupOf(reqs, area))
  }

  /**
   The batch phase over all areas, in any order. Every value it produces is the value of the tag's
   own read; unless the connection is lost, a batchable tag without a value was in a refused batch
   and is left to its own read. It panics only if some area has a hazard, and with every request
   answered it panics exactly then.
   */
  method PerformBatchReads(d: Device, reqs: seq<Req>) returns (ending: Ending, values: map<nat, Value>)
    ensures AllOwn(d, reqs, values)
    ensures ending == Done ==> forall area :: AreaDone(d, reqs, area, values)
    ensures ending == Panicked ==> Hazardous(reqs)
    ensures AnswersAll(d, reqs) ==> ending != LostConnection && (ending == Panicked <==> Hazardous(reqs))
  {
    values := map[];
    var todo: set<Area> := {Coil, DiscreteInput, InputRegister, HoldingRegister};
    while todo != {}
      invariant AllOwn(d, reqs, values)
      invariant forall area :: area !in todo ==> AreaDone(d, reqs, area, values)
      invariant AnswersAll(d, reqs) ==> forall area :: area !in todo ==> !HazardIn(GroupOf(reqs, area))
      decreases |todo|
    {
      var area :| area in todo;
      ghost var before := values;
      ending, values := ReadArea(d, reqs, area, values);
      if ending != Done {
        return;
      }
      forall other | other !in todo ensures AreaDone(d, reqs, other, values) {
        DoneKept(d, reqs, other, before, values);
      }
      todo := todo - {area};
    }
    ending := Done;
  }
}
