/**
 Rule matching as a value: the linear scan that defines the meaning of a rule list,
 the driver-indexed scan that the engine performs, and the exact condition under which
 the two agree on results and on every hit and miss counter.
 */
module RuleSpec {

  /** A driver's name. Names are only ever compared; `NONE` is the empty name. */
  type Name = nat
  const NONE: Name := 0

  datatype Point = Point(driver: Name, tag: string, payload: int)

  /** A compiled rule. `filter` is the driver the rule was filed under, `NONE` for none. */
  datatype Rule = Rule(priority: int, continues: bool, filter: Name, test: Point -> bool)

  /** A rule together with its wrapper's state. */
  datatype Row = Row(rule: Rule, disabled: bool, hits: nat, misses: nat)

  predicate Fires(r: Row, p: Point) {
    !r.disabled && r.rule.test(p)
  }

  /** The wrapper after `Match`. */
  function Evaluated(r: Row, p: Point): Row {
    if r.disabled then r
    else if r.rule.test(p) then r.(hits := r.hits + 1)
    else r.(misses := r.misses + 1)
  }

  /** The wrapper after `RecordMiss`. */
  function Missed(r: Row): Row {
    if r.disabled then r else r.(misses := r.misses + 1)
  }

  // ---------------------------------------------------------------------------
  // Linear scan
  // ---------------------------------------------------------------------------

  predicate Stops(rows: seq<Row>, p: Point, k: nat)
    requires k < |rows|
  {
    Fires(rows[k], p) && !rows[k].rule.continues
  }

  /** One past the first terminal match at or after `k`, or the number of rules. */
  function Reach(rows: seq<Row>, p: Point, k: nat := 0): (n: nat)
    requires k <= |rows|
    ensures k <= n <= |rows|
    ensures forall i :: k <= i < n - 1 ==> !Stops(rows, p, i)
    ensures n < |rows| ==> n > k && Stops(rows, p, n - 1)
    decreases |rows| - k
  {
    if k == |rows| then k
    else if Stops(rows, p, k) then k + 1
    else Reach(rows, p, k + 1)
  }

  /** Positions below `n` that fire, in order. */
  function Firing(rows: seq<Row>, p: Point, n: nat): seq<nat>
    requires n <= |rows|
  {
    if n == 0 then []
    else Firing(rows, p, n - 1) + (if Fires(rows[n - 1], p) then [n - 1] else [])
  }

  datatype Outcome = Outcome(rows: seq<Row>, results: seq<nat>)

  function Linear(rows: seq<Row>, p: Point): Outcome {
    var n := Reach(rows, p);
    Outcome(seq(|rows|, k requires 0 <= k < |rows| => if k < n then Evaluated(rows[k], p) else rows[k]),
            Firing(rows, p, n))
  }

  // ---------------------------------------------------------------------------
  // Driver-indexed scan
  // ---------------------------------------------------------------------------

  predicate Relevant(r: Rule, p: Point) {
    r.filter == NONE || r.filter == p.driver
  }

  /** The row as the indexed scan sees it: a foreign rule is never evaluated. */
  function Masked(r: Row, p: Point): Row {
    if Relevant(r.rule, p) then r else r.(disabled := true)
  }

  function Mask(rows: seq<Row>, p: Point): (m: seq<Row>)
    ensures |m| == |rows|
    ensures forall k :: 0 <= k < |rows| ==> m[k] == Masked(rows[k], p)
  {
    seq(|rows|, k requires 0 <= k < |rows| => Masked(rows[k], p))
  }

  function Indexed(rows: seq<Row>, p: Point): Outcome {
    var m := Mask(rows, p);
    var n := Reach(m, p);
    Outcome(seq(|rows|, k requires 0 <= k < |rows| =>
                  if k >= n then rows[k]
                  else if Relevant(rows[k].rule, p) then Evaluated(rows[k], p)
                  else Missed(rows[k])),
            Firing(m, p, n))
  }

  // ---------------------------------------------------------------------------
  // Agreement for one point
  // ---------------------------------------------------------------------------

  /** No enabled rule of another driver that the linear scan reaches fires on the point. */
  ghost predicate NoForeignHit(rows: seq<Row>, p: Point) {
    forall k :: 0 <= k < Reach(rows, p) && !Relevant(rows[k].rule, p) ==> !Fires(rows[k], p)
  }

  /** Rows that fire alike below `n` have the same firing positions. */
  lemma {:induction false} FiringCongruent(a: seq<Row>, b: seq<Row>, p: Point, n: nat)
    requires n <= |a| && n <= |b|
    requires forall k :: 0 <= k < n ==> (Fires(a[k], p) <==> Fires(b[k], p))
    ensures Firing(a, p, n) == Firing(b, p, n)
  {
    if n > 0 {
      FiringCongruent(a, b, p, n - 1);
    }
  }

  /** A firing position is listed exactly when it lies below the bound; the list ascends. */
  lemma {:induction false} FiringMembers(rows: seq<Row>, p: Point, n: nat)
    requires n <= |rows|
    ensures forall k :: k in Firing(rows, p, n) <==> 0 <= k < n && Fires(rows[k], p)
    ensures forall i, j :: 0 <= i < j < |Firing(rows, p, n)| ==> Firing(rows, p, n)[i] < Firing(rows, p, n)[j]
  {
    if n > 0 {
      FiringMembers(rows, p, n - 1);
      var prev, all := Firing(rows, p, n - 1), Firing(rows, p, n);
      assert forall i :: 0 <= i < |prev| ==> prev[i] in prev && all[i] == prev[i];
    }
  }

  /** A stopping position below every other one determines the reach. */
  lemma {:induction false} ReachCongruent(a: seq<Row>, b: seq<Row>, p: Point)
    requires |a| == |b|
    requires forall k :: 0 <= k < Reach(a, p) ==> (Stops(a, p, k) <==> Stops(b, p, k))
    ensures Reach(a, p) == Reach(b, p)
  {
  }

  lemma {:induction false} AgreeWhenNoForeignHit(rows: seq<Row>, p: Point)
    requires NoForeignHit(rows, p)
    ensures Indexed(rows, p) == Linear(rows, p)
  {
    var m := Mask(rows, p);
    ReachCongruent(rows, m, p);
    FiringCongruent(rows, m, p, Reach(rows, p));
  }

  lemma {:induction false} DifferOnForeignHit(rows: seq<Row>, p: Point)
    requires !NoForeignHit(rows, p)
    ensures Indexed(rows, p).results != Linear(rows, p).results
  {
    var k :| 0 <= k < Reach(rows, p) && !Relevant(rows[k].rule, p) && Fires(rows[k], p);
    var m := Mask(rows, p);
    FiringMembers(rows, p, Reach(rows, p));
    FiringMembers(m, p, Reach(m, p));
    assert k in Linear(rows, p).results;
    assert !Fires(m[k], p);
    assert k !in Indexed(rows, p).results;
  }

  /**
   The index is transparent for a point - same results in the same order, same counters on
   every rule - exactly when the linear scan reaches no enabled foreign rule that fires.
   */
  lemma {:induction false} IndexTransparentIff(rows: seq<Row>, p: Point)
    ensures Indexed(rows, p) == Linear(rows, p) <==> NoForeignHit(rows, p)
  {
    if NoForeignHit(rows, p) {
      AgreeWhenNoForeignHit(rows, p);
    } else {
      DifferOnForeignHit(rows, p);
    }
  }

  // ---------------------------------------------------------------------------
  // Agreement over every run
  // ---------------------------------------------------------------------------

  /** What can happen to a rule list: a point is matched, or a rule is switched on or off. */
  datatype Op = Feed(p: Point) | SetDisabled(index: int, flag: bool)

  /** Out-of-range indices are rejected and leave the list as it was. */
  function Toggle(rows: seq<Row>, index: int, flag: bool): seq<Row> {
    if 0 <= index < |rows| then rows[index := rows[index].(disabled := flag)] else rows
  }

  function RunLinear(rows: seq<Row>, ops: seq<Op>): (seq<Row>, seq<seq<nat>>)
    decreases |ops|
  {
    if ops == [] then (rows, [])
    else match ops[0]
      case Feed(p) =>
        var o := Linear(rows, p);
        var (end, rest) := RunLinear(o.rows, ops[1..]);
        (end, [o.results] + rest)
      case SetDisabled(i, f) => RunLinear(Toggle(rows, i, f), ops[1..])
  }

  function RunIndexed(rows: seq<Row>, ops: seq<Op>): (seq<Row>, seq<seq<nat>>)
    decreases |ops|
  {
    if ops == [] then (rows, [])
    else match ops[0]
      case Feed(p) =>
        var o := Indexed(rows, p);
        var (end, rest) := RunIndexed(o.rows, ops[1..]);
        (end, [o.results] + rest)
      case SetDisabled(i, f) => RunIndexed(Toggle(rows, i, f), ops[1..])
  }

  /** A rule filed under a driver is false on every point from another driver. */
  ghost predicate ScopedRule(r: Rule) {
    forall p: Point :: !Relevant(r, p) ==> !r.test(p)
  }

  ghost predicate Scoped(rows: seq<Row>) {
    forall k :: 0 <= k < |rows| ==> ScopedRule(rows[k].rule)
  }

  lemma {:induction false} RunsAgreeWhenScoped(rows: seq<Row>, ops: seq<Op>)
    requires Scoped(rows)
    ensures RunIndexed(rows, ops) == RunLinear(rows, ops)
    decreases |ops|
  {
    if ops != [] {
      match ops[0]
      case Feed(p) =>
        assert NoForeignHit(rows, p) by {
          forall k | 0 <= k < |rows| && !Relevant(rows[k].rule, p) ensures !Fires(rows[k], p) {
            assert ScopedRule(rows[k].rule);
          }
        }
        AgreeWhenNoForeignHit(rows, p);
        RunsAgreeWhenScoped(Linear(rows, p).rows, ops[1..]);
      case SetDisabled(i, f) =>
        RunsAgreeWhenScoped(Toggle(rows, i, f), ops[1..]);
    }
  }

  /** Switch off every rule below `n` except `keep`, then enable `keep` and match a point. */
  function Isolate(n: nat, keep: nat, p: Point): seq<Op> {
    if n == 0 then [SetDisabled(keep, false), Feed(p)] else [SetDisabled(n - 1, true)] + Isolate(n - 1, keep, p)
  }

  lemma {:induction false} IsolateExposes(rows: seq<Row>, n: nat, keep: nat, p: Point)
    requires n <= |rows| && keep < |rows|
    requires forall k :: n <= k < |rows| ==> rows[k].disabled
    requires !Relevant(rows[keep].rule, p) && rows[keep].rule.test(p)
    ensures RunIndexed(rows, Isolate(n, keep, p)) != RunLinear(rows, Isolate(n, keep, p))
    decreases n
  {
    var ops := Isolate(n, keep, p);
    if n > 0 {
      assert ops[1..] == Isolate(n - 1, keep, p);
      IsolateExposes(Toggle(rows, n - 1, true), n - 1, keep, p);
    } else {
      var on := Toggle(rows, keep, false);
      assert ops[1..] == [Feed(p)] && ops[1..][1..] == [];
      assert !NoForeignHit(on, p) by {
        assert forall k :: 0 <= k < keep ==> !Fires(on[k], p);
        assert Fires(on[keep], p);
        assert keep < Reach(on, p);
      }
      DifferOnForeignHit(on, p);
      assert RunIndexed(on, [Feed(p)]).1[0] == Indexed(on, p).results;
      assert RunLinear(on, [Feed(p)]).1[0] == Linear(on, p).results;
    }
  }

  /**
   The index is transparent on every run of points and switches exactly when every filed
   rule is false on the points of other drivers.
   */
  lemma {:induction false} IndexTransparentOnEveryRunIff(rows: seq<Row>)
    ensures Scoped(rows) <==> forall ops :: RunIndexed(rows, ops) == RunLinear(rows, ops)
  {
    if Scoped(rows) {
      forall ops ensures RunIndexed(rows, ops) == RunLinear(rows, ops) {
        RunsAgreeWhenScoped(rows, ops);
      }
    } else {
      var k :| 0 <= k < |rows| && !ScopedRule(rows[k].rule);
      var p: Point :| !Relevant(rows[k].rule, p) && rows[k].rule.test(p);
      IsolateExposes(rows, |rows|, k, p);
    }
  }

  // ---------------------------------------------------------------------------
  // What the counters count
  // ---------------------------------------------------------------------------

  /** The rows as the scan evaluates them, by index or not. */
  function Seen(rows: seq<Row>, p: Point, indexed: bool): (m: seq<Row>)
    ensures |m| == |rows|
  {
    if indexed then Mask(rows, p) else rows
  }

  function Scan(rows: seq<Row>, p: Point, indexed: bool): Outcome {
    if indexed then Indexed(rows, p) else Linear(rows, p)
  }

  function RunScan(rows: seq<Row>, ops: seq<Op>, indexed: bool): (seq<Row>, seq<seq<nat>>) {
    if indexed then RunIndexed(rows, ops) else RunLinear(rows, ops)
  }

  /** In how many of the results position `k` is listed. */
  function Listed(results: seq<seq<nat>>, k: nat): nat {
    if results == [] then 0 else (if k in results[0] then 1 else 0) + Listed(results[1..], k)
  }

  /** The scan comes to position `k`, which is switched on, and does not list it. */
  predicate PassedOver(rows: seq<Row>, p: Point, indexed: bool, k: nat)
    requires k < |rows|
  {
    var m := Seen(rows, p, indexed);
    k < Reach(m, p) && !rows[k].disabled && k !in Firing(m, p, Reach(m, p))
  }

  /** How often that happens in a run. Only switches change what the next point meets. */
  function PassedOvers(rows: seq<Row>, ops: seq<Op>, indexed: bool, k: nat): nat
    requires k < |rows|
    decreases |ops|
  {
    if ops == [] then 0
    else match ops[0]
      case Feed(p) => (if PassedOver(rows, p, indexed, k) then 1 else 0) + PassedOvers(rows, ops[1..], indexed, k)
      case SetDisabled(i, f) => PassedOvers(Toggle(rows, i, f), ops[1..], indexed, k)
  }

  /** The same rules switched alike, whatever their counters. */
  ghost predicate SameSwitches(a: seq<Row>, b: seq<Row>) {
    |a| == |b| && forall k :: 0 <= k < |a| ==> a[k].rule == b[k].rule && a[k].disabled == b[k].disabled
  }

  lemma {:induction false} SameScan(a: seq<Row>, b: seq<Row>, p: Point, indexed: bool)
    requires SameSwitches(a, b)
    ensures var x, y := Seen(a, p, indexed), Seen(b, p, indexed);
            Reach(x, p) == Reach(y, p) && Firing(x, p, Reach(x, p)) == Firing(y, p, Reach(y, p))
  {
    var x, y := Seen(a, p, indexed), Seen(b, p, indexed);
    ReachCongruent(x, y, p);
    FiringCongruent(x, y, p, Reach(x, p));
  }

  lemma {:induction false} SamePassedOvers(a: seq<Row>, b: seq<Row>, ops: seq<Op>, indexed: bool, k: nat)
    requires SameSwitches(a, b) && k < |a|
    ensures PassedOvers(a, ops, indexed, k) == PassedOvers(b, ops, indexed, k)
    decreases |ops|
  {
    if ops != [] {
      match ops[0]
      case Feed(p) =>
        SameScan(a, b, p, indexed);
        SamePassedOvers(a, b, ops[1..], indexed, k);
      case SetDisabled(i, f) =>
        SamePassedOvers(Toggle(a, i, f), Toggle(b, i, f), ops[1..], indexed, k);
    }
  }

  /** The rule at `k` has one more hit if it is among the results, one more miss if it was passed over, and is else the same. */
  ghost predicate Counted(rows: seq<Row>, p: Point, indexed: bool, k: nat, after: seq<Row>, results: seq<nat>)
    requires k < |rows|
  {
    |after| == |rows| &&
    after[k] == rows[k].(hits := rows[k].hits + (if k in results then 1 else 0),
                         misses := rows[k].misses + (if PassedOver(rows, p, indexed, k) then 1 else 0))
  }

  /** One point: a listed rule has one more hit, a rule passed over one more miss; nothing else changes. */
  lemma {:induction false} ScanCounts(rows: seq<Row>, p: Point, indexed: bool, k: nat)
    requires k < |rows|
    ensures var o := Scan(rows, p, indexed); Counted(rows, p, indexed, k, o.rows, o.results)
  {
    var m := Seen(rows, p, indexed);
    FiringMembers(m, p, Reach(m, p));
  }

  lemma {:induction false} ScanKeepsSwitches(rows: seq<Row>, p: Point, indexed: bool)
    ensures SameSwitches(rows, Scan(rows, p, indexed).rows)
  {
    forall k | 0 <= k < |rows| {
      ScanCounts(rows, p, indexed, k);
    }
  }

  /**
   Over every run of points and switches, with or without the index: a rule's hits have grown by the
   number of results that list it, its misses by the number of points for which the scan came to it,
   switched on, and did not list it.
   */
  lemma {:induction false} CountersCount(rows: seq<Row>, ops: seq<Op>, indexed: bool, k: nat)
    requires k < |rows|
    ensures var (end, results) := RunScan(rows, ops, indexed);
            && |end| == |rows| && end[k].rule == rows[k].rule
            && end[k].hits == rows[k].hits + Listed(results, k)
            && end[k].misses == rows[k].misses + PassedOvers(rows, ops, indexed, k)
    decreases |ops|
  {
    if ops != [] {
      match ops[0]
      case Feed(p) =>
        var o := Scan(rows, p, indexed);
        ScanCounts(rows, p, indexed, k);
        ScanKeepsSwitches(rows, p, indexed);
        CountersCount(o.rows, ops[1..], indexed, k);
        SamePassedOvers(rows, o.rows, ops[1..], indexed, k);
        var (end, rest) := RunScan(o.rows, ops[1..], indexed);
        assert ([o.results] + rest)[1..] == rest;
      case SetDisabled(i, f) =>
        CountersCount(Toggle(rows, i, f), ops[1..], indexed, k);
    }
  }

  // ---------------------------------------------------------------------------
  // What the text test for a driver filter recognises
  // ---------------------------------------------------------------------------

  /** One comparison of a match expression. */
  datatype Atom = DriverIs(name: Name) | Other(holds: Point -> bool)

  predicate AtomHolds(a: Atom, p: Point) {
    match a
    case DriverIs(name) => p.driver == name
    case Other(holds) => holds(p)
  }

  /** `||` of `&&` of comparisons, without grouping, as `&&` binds tighter. */
  type Branches = seq<seq<Atom>>

  /** A match expression: alternatives, or a choice `cond ? yes : no`, which binds loosest. */
  datatype Text = Any(branches: Branches) | Choice(cond: Branches, yes: Text, no: Text)

  predicate AllHold(c: seq<Atom>, p: Point) {
    forall i :: 0 <= i < |c| ==> AtomHolds(c[i], p)
  }

  predicate AnyHolds(b: Branches, from: nat, p: Point) {
    exists i :: from <= i < |b| && AllHold(b[i], p)
  }

  predicate TextHolds(t: Text, p: Point) {
    if t.Any? then AnyHolds(t.branches, 0, p)
    else if AnyHolds(t.cond, 0, p) then TextHolds(t.yes, p) else TextHolds(t.no, p)
  }

  function Leading(t: Text): Branches {
    if t.Any? then t.branches else t.cond
  }

  /** The leading comparison names a driver and is followed by `&&` or by the end of the text. */
  function ExtractDriverFilter(t: Text): Name {
    var b := Leading(t);
    if |b| > 0 && |b[0]| > 0 && b[0][0].DriverIs? && (|b[0]| > 1 || (t.Any? && |b| == 1)) then b[0][0].name else NONE
  }

  /** The text with its leading conjunction taken as false: the other alternatives or, in a choice, the arm they select. */
  predicate RestHolds(t: Text, p: Point) {
    if t.Any? then AnyHolds(t.branches, 1, p)
    else if AnyHolds(t.cond, 1, p) then TextHolds(t.yes, p) else TextHolds(t.no, p)
  }

  /** What is left of the text never holds on a point of another driver. */
  ghost predicate RestScoped(t: Text, d: Name) {
    forall p: Point :: p.driver != d ==> !RestHolds(t, p)
  }

  /** On a point of another driver the leading conjunction plays no part. */
  lemma {:induction false} LeadingFails(t: Text, p: Point)
    requires ExtractDriverFilter(t) != NONE && p.driver != ExtractDriverFilter(t)
    ensures TextHolds(t, p) <==> RestHolds(t, p)
  {
    var b := Leading(t);
    assert !AtomHolds(b[0][0], p);
    assert !AllHold(b[0], p);
  }

  /**
   A rule filed from its text is scoped exactly when what is left of the text is false on other
   drivers; with a single conjunction it always is.
   */
  lemma {:induction false} FilterSoundIff(r: Rule, t: Text)
    requires r.filter == ExtractDriverFilter(t) != NONE
    requires forall p :: r.test(p) <==> TextHolds(t, p)
    ensures ScopedRule(r) <==> RestScoped(t, r.filter)
    ensures t.Any? && |t.branches| == 1 ==> ScopedRule(r)
  {
    forall p: Point | p.driver != r.filter ensures r.test(p) <==> RestHolds(t, p) {
      LeadingFails(t, p);
    }
    if ScopedRule(r) {
      forall p: Point | p.driver != r.filter ensures !RestHolds(t, p) {
        assert !Relevant(r, p);
      }
    }
  }

  /** `driver == 'a' && tag == 'x' || tag == 'y'` is filed under `a` and fires on driver `b`. */
  lemma {:induction false} FilterUnsoundExample() returns (t: Text, p: Point)
    ensures ExtractDriverFilter(t) == 1 && p.driver == 2 && TextHolds(t, p)
  {
    t := Any([[DriverIs(1), Other((p: Point) => p.tag == "x")], [Other((p: Point) => p.tag == "y")]]);
    p := Point(2, "y", 0);
    assert AtomHolds(t.branches[1][0], p);
    assert AllHold(t.branches[1], p);
  }

  /** So is `driver == 'a' && tag == 'x' ? tag == 'x' : tag == 'y'`. */
  lemma {:induction false} ChoiceUnsoundExample() returns (t: Text, p: Point)
    ensures t.Choice? && ExtractDriverFilter(t) == 1 && p.driver == 2 && TextHolds(t, p)
  {
    var x, y := Other((p: Point) => p.tag == "x"), Other((p: Point) => p.tag == "y");
    t := Choice([[DriverIs(1), x]], Any([[x]]), Any([[y]]));
    p := Point(2, "y", 0);
    assert !AtomHolds(t.cond[0][0], p);
    assert AtomHolds(t.no.branches[0][0], p);
    assert AllHold(t.no.branches[0], p);
  }
}
