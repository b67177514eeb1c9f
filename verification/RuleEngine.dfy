/**
 The rule engine as it runs: a priority-sorted list of wrapped rules, split into per-driver
 lists and a universal list, and the on-the-fly merge of the two lists that matter for a
 point. The lists share the wrappers: they hold positions in the sorted list, which are the
 wrappers' build positions. Every method is tied to the scans of `RuleSpec`.
 */
module RuleEngine {
  import opened RuleSpec
  import opened StableSort

  /** The first `n` rules are in priority order. */
  ghost predicate Sorted(rows: seq<Row>, n: nat)
    requires n <= |rows|
  {
    n <= 1 || (rows[n - 2].rule.priority <= rows[n - 1].rule.priority && Sorted(rows, n - 1))
  }

  lemma {:induction false} SortedAt(rows: seq<Row>, n: nat, x: nat, y: nat)
    requires x <= y < n <= |rows| && Sorted(rows, n)
    ensures rows[x].rule.priority <= rows[y].rule.priority
  {
    if y < n - 1 {
      SortedAt(rows, n - 1, x, y);
    } else if x < y {
      SortedAt(rows, n - 1, x, y - 1);
    }
  }

  /** Two lists of rules that differ only in counters and switches. */
  ghost predicate SameRules(a: seq<Row>, b: seq<Row>) {
    |a| == |b| && forall k :: 0 <= k < |a| ==> a[k].rule == b[k].rule
  }

  lemma {:induction false} SortedSameRules(a: seq<Row>, b: seq<Row>, n: nat)
    requires SameRules(a, b) && n <= |a| && Sorted(a, n)
    ensures Sorted(b, n)
  {
    if n > 1 {
      SortedSameRules(a, b, n - 1);
    }
  }

  /** The positions below `n` of the rules filed under `d`. */
  function Filed(rows: seq<Row>, d: Name, n: nat): seq<nat>
    requires n <= |rows|
  {
    if n == 0 then []
    else Filed(rows, d, n - 1) + (if rows[n - 1].rule.filter == d then [n - 1] else [])
  }

  ghost predicate Ascending(list: seq<nat>, n: nat) {
    && (forall i :: 0 <= i < |list| ==> list[i] < n)
    && (forall i, j :: 0 <= i < j < |list| ==> list[i] < list[j])
  }

  /** Filing keeps list order and loses no rule of the driver. */
  lemma {:induction false} FiledIsOrdered(rows: seq<Row>, d: Name, n: nat)
    requires n <= |rows|
    ensures Ascending(Filed(rows, d, n), n)
    ensures forall k :: k in Filed(rows, d, n) <==> 0 <= k < n && rows[k].rule.filter == d
  {
    if n > 0 {
      FiledIsOrdered(rows, d, n - 1);
    }
  }

  lemma {:induction false} FiledEmpty(rows: seq<Row>, d: Name, n: nat)
    requires n <= |rows| && forall k :: 0 <= k < n ==> rows[k].rule.filter != d
    ensures Filed(rows, d, n) == []
  {
    if n > 0 {
      FiledEmpty(rows, d, n - 1);
    }
  }

  lemma {:induction false} FiledSameRules(a: seq<Row>, b: seq<Row>, d: Name, n: nat)
    requires SameRules(a, b) && n <= |a|
    ensures Filed(a, d, n) == Filed(b, d, n)
  {
    if n > 0 {
      FiledSameRules(a, b, d, n - 1);
    }
  }

  // ---------------------------------------------------------------------------
  // Stable sorting by priority
  // ---------------------------------------------------------------------------

  function Priority(r: Rule): int { r.priority }

  /** The rules of one priority, in order. */
  function OfPriority(rules: seq<Rule>, q: int): seq<Rule> {
    OfKey(rules, Priority, q)
  }

  /** Sorting orders by priority, keeps all rules, and keeps configuration order within every priority. */
  lemma {:induction false} StableSortCorrect(rules: seq<Rule>, q: int)
    ensures var sorted := SortBy(rules, Priority);
            && (forall i, j :: 0 <= i < j < |sorted| ==> sorted[i].priority <= sorted[j].priority)
            && multiset(sorted) == multiset(rules)
            && OfPriority(sorted, q) == OfPriority(rules, q)
  {
    var sorted := SortBy(rules, Priority);
    SortSorts(rules, Priority);
    SortIsStable(rules, Priority, q);
    assert forall i, j :: 0 <= i < j < |sorted| ==> Priority(sorted[i]) <= Priority(sorted[j]);
  }

  // ---------------------------------------------------------------------------
  // A scan rule by rule
  // ---------------------------------------------------------------------------

  /** The state of a scan: the rows, the results so far, whether a terminal match ended it. */
  datatype Scan = Scan(rows: seq<Row>, results: seq<nat>, terminal: bool) {
    ghost predicate Is(rows: seq<Row>, results: seq<nat>, terminal: bool) {
      this.rows == rows && this.results == results && this.terminal == terminal
    }
  }

  /** Evaluating rule `k`. */
  function Step(s: Scan, p: Point, k: nat): Scan
    requires k < |s.rows|
  {
    var ok := Fires(s.rows[k], p);
    Scan(s.rows[k := Evaluated(s.rows[k], p)],
         if ok then s.results + [k] else s.results,
         ok && !s.rows[k].rule.continues)
  }

  /** The scan of the rules below `c`: of all of them, or only of those that matter for the point. */
  function Go(before: seq<Row>, p: Point, all: bool, c: nat): (s: Scan)
    requires c <= |before|
    ensures |s.rows| == |before|
  {
    if c == 0 then Scan(before, [], false)
    else
      var s := Go(before, p, all, c - 1);
      if s.terminal || !(all || Relevant(before[c - 1].rule, p)) then s else Step(s, p, c - 1)
  }

  lemma {:induction false} GoSameRules(before: seq<Row>, p: Point, all: bool, c: nat)
    requires c <= |before|
    ensures SameRules(before, Go(before, p, all, c).rows)
  {
    if c > 0 {
      GoSameRules(before, p, all, c - 1);
    }
  }

  /** A scan does not move while it is over or while nothing relevant comes up. */
  lemma {:induction false} GoSkips(before: seq<Row>, p: Point, all: bool, c: nat, q: nat)
    requires c <= q <= |before|
    requires Go(before, p, all, c).terminal || c == q || (!all && forall k :: c <= k < q ==> !Relevant(before[k].rule, p))
    ensures Go(before, p, all, q) == Go(before, p, all, c)
    decreases q - c
  {
    if c < q {
      GoSkips(before, p, all, c, q - 1);
    }
  }

  /** The rows a scan looks at. */
  ghost function Seen(before: seq<Row>, p: Point, all: bool): (seen: seq<Row>)
    ensures |seen| == |before|
  {
    if all then before else Mask(before, p)
  }

  /** A scan that has not passed the reach: which rules it evaluated and whether it is over. */
  lemma {:induction false} GoRows(before: seq<Row>, p: Point, all: bool, seen: seq<Row>, c: nat)
    requires seen == Seen(before, p, all) && c <= Reach(seen, p)
    ensures var s := Go(before, p, all, c);
            && (s.terminal <==> c > 0 && Stops(seen, p, c - 1))
            && (forall k :: 0 <= k < |before| ==>
                  s.rows[k] == if k < c && (all || Relevant(before[k].rule, p)) then Evaluated(before[k], p) else before[k])
  {
    if c > 0 {
      GoRows(before, p, all, seen, c - 1);
      assert !Go(before, p, all, c - 1).terminal;
    }
  }

  /** A scan that has not passed the reach: what it has collected. */
  lemma {:induction false} GoResults(before: seq<Row>, p: Point, all: bool, seen: seq<Row>, c: nat)
    requires seen == Seen(before, p, all) && c <= Reach(seen, p)
    ensures Go(before, p, all, c).results == Firing(seen, p, c)
  {
    if c > 0 {
      GoResults(before, p, all, seen, c - 1);
      GoRows(before, p, all, seen, c - 1);
    }
  }

  /** The whole scan stops at its reach. */
  lemma {:induction false} GoEnd(before: seq<Row>, p: Point, all: bool, seen: seq<Row>)
    requires seen == Seen(before, p, all)
    ensures Go(before, p, all, |before|) == Go(before, p, all, Reach(seen, p))
    ensures Go(before, p, all, |before|).results == Firing(seen, p, Reach(seen, p))
  {
    var n := Reach(seen, p);
    GoRows(before, p, all, seen, n);
    GoResults(before, p, all, seen, n);
    GoSkips(before, p, all, n, |before|);
  }

  /** The last result stopped the scan. */
  ghost predicate EndsTerminal(rows: seq<Row>, results: seq<nat>) {
    results != [] && var k := results[|results| - 1]; k < |rows| && !rows[k].rule.continues
  }

  /** The reach of a scan can be read off its last result. */
  lemma {:induction false} ReachFromLast(before: seq<Row>, p: Point, seen: seq<Row>, results: seq<nat>)
    requires seen == Seen(before, p, false) && results == Firing(seen, p, Reach(seen, p))
    ensures Reach(seen, p) == if EndsTerminal(before, results) then results[|results| - 1] + 1 else |before|
  {
    var n := Reach(seen, p);
    var f := Firing(seen, p, n);
    FiringMembers(seen, p, n);
    if n > 0 && Stops(seen, p, n - 1) {
      assert n - 1 in f;
      var x :| 0 <= x < |f| && f[x] == n - 1;
      assert x == |f| - 1;
    } else if f != [] {
      assert f[|f| - 1] in f;
      assert !Stops(seen, p, f[|f| - 1]);
    }
  }

  // ---------------------------------------------------------------------------
  // Merging two lists
  // ---------------------------------------------------------------------------

  /** The rules scoped to the point's driver; a point without a driver has none. */
  function DriverList(rows: seq<Row>, p: Point): seq<nat> {
    if p.driver == NONE then [] else Filed(rows, p.driver, |rows|)
  }

  function UniversalList(rows: seq<Row>): seq<nat> {
    Filed(rows, NONE, |rows|)
  }

  /** `list[..i]` lies below the cursor, the rest at or above it. */
  ghost predicate CutAt(list: seq<nat>, i: nat, c: nat) {
    && i <= |list|
    && (i > 0 ==> list[i - 1] < c)
    && (i < |list| ==> c <= list[i])
  }

  /** Nothing filed under `d` lies between the cursor and the head of the list. */
  lemma {:induction false} FiledGap(rows: seq<Row>, d: Name, i: nat, c: nat, q: nat)
    requires q <= |rows| && CutAt(Filed(rows, d, |rows|), i, c)
    requires i < |Filed(rows, d, |rows|)| ==> q <= Filed(rows, d, |rows|)[i]
    ensures forall k :: c <= k < q ==> rows[k].rule.filter != d
  {
    var list := Filed(rows, d, |rows|);
    FiledIsOrdered(rows, d, |rows|);
    forall k | c <= k < q ensures rows[k].rule.filter != d {
      if rows[k].rule.filter == d {
        assert k in list;
        var x :| 0 <= x < |list| && list[x] == k;
        assert false;
      }
    }
  }

  /** The head of a list is a rule filed under `d`, and moving past it keeps the list cut. */
  lemma {:induction false} FiledHead(rows: seq<Row>, d: Name, i: nat)
    requires i < |Filed(rows, d, |rows|)|
    ensures var list := Filed(rows, d, |rows|);
            list[i] < |rows| && rows[list[i]].rule.filter == d && CutAt(list, i + 1, list[i] + 1)
  {
    var list := Filed(rows, d, |rows|);
    FiledIsOrdered(rows, d, |rows|);
    assert list[i] in list;
  }

  /** Nothing relevant lies between the cursor and the smaller head of the two lists. */
  lemma {:induction false} NothingBetween(rows: seq<Row>, p: Point, i: nat, j: nat, c: nat, q: nat)
    requires CutAt(UniversalList(rows), i, c) && CutAt(DriverList(rows, p), j, c) && q <= |rows|
    requires i < |UniversalList(rows)| ==> q <= UniversalList(rows)[i]
    requires j < |DriverList(rows, p)| ==> q <= DriverList(rows, p)[j]
    ensures forall k :: c <= k < q ==> !Relevant(rows[k].rule, p)
  {
    FiledGap(rows, NONE, i, c, q);
    if p.driver != NONE {
      FiledGap(rows, p.driver, j, c, q);
    }
  }

  lemma {:induction false} NoneLeft(rows: seq<Row>, p: Point, j: nat, c: nat)
    requires j == |DriverList(rows, p)| && CutAt(DriverList(rows, p), j, c) && c <= |rows|
    ensures forall k :: c <= k < |rows| && rows[k].rule.filter != NONE ==> !Relevant(rows[k].rule, p)
  {
    if p.driver != NONE {
      FiledGap(rows, p.driver, j, c, |rows|);
    }
  }

  /** In a sorted list the merge's comparison is the comparison of positions. */
  lemma {:induction false} MergeOrder(before: seq<Row>, p: Point, c: nat, x: nat, y: nat)
    requires Sorted(before, |before|) && c <= |before| && x < |before| && y < |before|
    ensures MergesFirst(Go(before, p, false, c).rows, x, y) <==> x <= y
  {
    GoSameRules(before, p, false, c);
    if x <= y {
      SortedAt(before, |before|, x, y);
    } else {
      SortedAt(before, |before|, y, x);
    }
  }

  /** The merge's comparison of two heads: priority, then build position. */
  predicate MergesFirst(rows: seq<Row>, x: nat, y: nat)
    requires x < |rows| && y < |rows|
  {
    var px, py := rows[x].rule.priority, rows[y].rule.priority;
    px < py || (px == py && x <= y)
  }

  /** `r` is the next relevant rule at or after the cursor. */
  ghost predicate NextRelevant(rows: seq<Row>, p: Point, c: nat, r: nat) {
    && c <= r < |rows| && Relevant(rows[r].rule, p)
    && forall k :: c <= k < r ==> !Relevant(rows[k].rule, p)
  }

  /** The head the merge takes is the next relevant rule, and taking it keeps both lists cut. */
  ghost predicate TakesHead(before: seq<Row>, p: Point, a: seq<nat>, b: seq<nat>, i: nat, j: nat, c: nat) {
    c <= |before| && i < |a| && CutAt(a, i, c) && j < |b| && CutAt(b, j, c) ==>
      && a[i] < |before| && b[j] < |before|
      && if MergesFirst(Go(before, p, false, c).rows, a[i], b[j])
         then NextRelevant(before, p, c, a[i]) && CutAt(a, i + 1, a[i] + 1) && CutAt(b, j, a[i] + 1)
         else NextRelevant(before, p, c, b[j]) && CutAt(a, i, b[j] + 1) && CutAt(b, j + 1, b[j] + 1)
  }

  lemma {:induction false} TakeHead(before: seq<Row>, p: Point, i: nat, j: nat, c: nat)
    requires Sorted(before, |before|)
    ensures TakesHead(before, p, UniversalList(before), DriverList(before, p), i, j, c)
  {
    var a, b := UniversalList(before), DriverList(before, p);
    if c <= |before| && i < |a| && CutAt(a, i, c) && j < |b| && CutAt(b, j, c) {
      FiledHead(before, NONE, i);
      FiledHead(before, p.driver, j);
      MergeOrder(before, p, c, a[i], b[j]);
      NothingBetween(before, p, i, j, c, if a[i] <= b[j] then a[i] else b[j]);
    }
  }

  /** A driver without an index entry has no rules of its own. */
  lemma {:induction false} UnlistedDriver(rows: seq<Row>, p: Point, index: map<Name, seq<nat>>)
    requires Indexes(rows, UniversalList(rows), index)
    ensures (if p.driver in index then index[p.driver] else []) == DriverList(rows, p)
  {
    if p.driver !in index && p.driver != NONE {
      FiledEmpty(rows, p.driver, |rows|);
    }
  }

  /** What the merge has done to the rows. */
  lemma {:induction false} MergedRows(before: seq<Row>, p: Point, s: Scan)
    requires s == Go(before, p, false, |before|)
    ensures forall k :: 0 <= k < |before| ==>
              s.rows[k] == if k < Reach(Mask(before, p), p) && Relevant(before[k].rule, p) then Evaluated(before[k], p) else before[k]
  {
    GoEnd(before, p, false, Mask(before, p));
    GoRows(before, p, false, Mask(before, p), Reach(Mask(before, p), p));
  }

  /** What the merge has found, and where its last result says it stopped. */
  lemma {:induction false} MergedResults(before: seq<Row>, p: Point, s: Scan)
    requires s == Go(before, p, false, |before|)
    ensures s.results == Indexed(before, p).results
    ensures forall i :: 0 <= i < |s.results| ==> s.results[i] < |before|
  {
    var seen := Mask(before, p);
    GoEnd(before, p, false, seen);
    FiringBelow(seen, p, Reach(seen, p));
  }

  lemma {:induction false} MergedStop(before: seq<Row>, p: Point, s: Scan)
    requires s == Go(before, p, false, |before|)
    ensures StopTold(before, p, s.results, Reach(Mask(before, p), p))
  {
    var seen := Mask(before, p);
    GoEnd(before, p, false, seen);
    ReachFromLast(before, p, seen, s.results);
    FiringMembers(seen, p, Reach(seen, p));
    if s.results != [] {
      assert s.results[|s.results| - 1] in s.results;
    }
  }

  lemma {:induction false} FiringBelow(rows: seq<Row>, p: Point, n: nat)
    requires n <= |rows|
    ensures forall i :: 0 <= i < |Firing(rows, p, n)| ==> Firing(rows, p, n)[i] < n
  {
    FiringMembers(rows, p, n);
    var results := Firing(rows, p, n);
    assert forall i :: 0 <= i < |results| ==> results[i] in results;
  }

  /** The last result tells whether and where the scan stopped. */
  ghost predicate StopTold(before: seq<Row>, p: Point, results: seq<nat>, n: nat) {
    if EndsTerminal(before, results)
    then results[|results| - 1] + 1 == n <= |before| && Relevant(before[n - 1].rule, p)
    else n == |before|
  }

  /** Evaluated relevant rules and missed foreign ones make up the indexed scan. */
  lemma {:induction false} IndexedRows(before: seq<Row>, p: Point, mid: seq<Row>, after: seq<Row>, drivers: set<Name>)
    requires |before| == |mid| == |after|
    requires forall k :: 0 <= k < |before| && before[k].rule.filter != NONE ==> before[k].rule.filter in drivers
    requires forall k :: 0 <= k < |before| ==>
               mid[k] == if k < Reach(Mask(before, p), p) && Relevant(before[k].rule, p) then Evaluated(before[k], p) else before[k]
    requires forall k :: 0 <= k < |before| ==>
               after[k] == if k < Reach(Mask(before, p), p) && !Relevant(before[k].rule, p) && before[k].rule.filter in drivers
                           then Missed(mid[k]) else mid[k]
    ensures after == Indexed(before, p).rows
  {
  }

  /** A priority-sorted list split into the universal rules and one list per driver. */
  ghost predicate Indexes(rows: seq<Row>, universal: seq<nat>, index: map<Name, seq<nat>>) {
    && Sorted(rows, |rows|)
    && universal == UniversalList(rows)
    && NONE !in index
    && (forall d :: d in index ==> index[d] == Filed(rows, d, |rows|))
    && (forall k :: 0 <= k < |rows| && rows[k].rule.filter != NONE ==> rows[k].rule.filter in index)
  }

  lemma {:induction false} IndexedSameRules(before: seq<Row>, p: Point)
    ensures SameRules(before, Indexed(before, p).rows)
  {
  }

  /** Counters and switches do not affect the index. */
  lemma {:induction false} IndexesSameRules(before: seq<Row>, after: seq<Row>, universal: seq<nat>, index: map<Name, seq<nat>>)
    requires SameRules(before, after) && Indexes(before, universal, index)
    ensures Indexes(after, universal, index)
  {
    SortedSameRules(before, after, |before|);
    FiledSameRules(before, after, NONE, |before|);
    forall d | d in index ensures index[d] == Filed(after, d, |after|) {
      FiledSameRules(before, after, d, |before|);
    }
  }

  function Wrap(rules: seq<Rule>): (rows: seq<Row>)
    ensures |rows| == |rules|
    ensures forall k :: 0 <= k < |rows| ==> rows[k] == Row(rules[k], false, 0, 0)
  {
    seq(|rules|, k requires 0 <= k < |rules| => Row(rules[k], false, 0, 0))
  }

  lemma {:induction false} WrapSorted(rules: seq<Rule>, n: nat)
    requires n <= |rules| && forall i, j :: 0 <= i < j < |rules| ==> rules[i].priority <= rules[j].priority
    ensures Sorted(Wrap(rules), n)
  {
    if n > 1 {
      WrapSorted(rules, n - 1);
    }
  }

  lemma {:induction false} SortGivesSorted(rules: seq<Rule>)
    ensures Sorted(Wrap(SortBy(rules, Priority)), |rules|)
  {
    StableSortCorrect(rules, 0);
    WrapSorted(SortBy(rules, Priority), |rules|);
  }

  /** What compiling a rule configuration gives. */
  datatype Compiled = Good(rule: Rule) | Bad

  function Rules(configs: seq<Compiled>): (rules: seq<Rule>)
    requires forall i :: 0 <= i < |configs| ==> configs[i].Good?
    ensures |rules| == |configs| && forall i :: 0 <= i < |rules| ==> rules[i] == configs[i].rule
  {
    seq(|configs|, i requires 0 <= i < |configs| => configs[i].rule)
  }

  class Engine {
    var rows: seq<Row>
    var driverIndex: map<Name, seq<nat>>
    var universalRules: seq<nat>

    ghost predicate Valid()
      reads this
    {
      Indexes(rows, universalRules, driverIndex)
    }

    constructor ()
      ensures Valid() && rows == []
    {
      rows, driverIndex, universalRules := [], map[], [];
    }

    /**
     Installs a rule list: sorted stably by priority, numbered, counters at zero, indexed by
     driver. A configuration that does not compile leaves the engine as it was.
     */
    method SetRules(configs: seq<Compiled>) returns (ok: bool)
      requires Valid()
      modifies this
      ensures Valid()
      ensures ok <==> forall i :: 0 <= i < |configs| ==> configs[i].Good?
      ensures ok ==> rows == Wrap(SortBy(Rules(configs), Priority))
      ensures !ok ==> rows == old(rows)
    {
      var rules := [];
      for i := 0 to |configs|
        invariant forall k :: 0 <= k < i ==> configs[k].Good?
        invariant rules == Rules(configs[..i])
      {
        if configs[i].Bad? {
          return false;
        }
        rules := rules + [configs[i].rule];
      }
      assert configs[..|configs|] == configs;
      rows := Wrap(SortBy(rules, Priority));
      SortGivesSorted(rules);
      universalRules, driverIndex := BuildIndex(rows);
      return true;
    }

    /** Files every rule under its driver, in list order. */
    static method BuildIndex(wrapped: seq<Row>) returns (universal: seq<nat>, index: map<Name, seq<nat>>)
      requires Sorted(wrapped, |wrapped|)
      ensures Indexes(wrapped, universal, index)
    {
      index, universal := map[], [];
      for i := 0 to |wrapped|
        invariant NONE !in index && universal == Filed(wrapped, NONE, i)
        invariant forall d :: d in index ==> index[d] == Filed(wrapped, d, i)
        invariant forall k :: 0 <= k < i && wrapped[k].rule.filter != NONE ==> wrapped[k].rule.filter in index
      {
        var df := wrapped[i].rule.filter;
        if df != NONE {
          if df in index {
            index := index[df := index[df] + [i]];
          } else {
            FiledEmpty(wrapped, df, i);
            index := index[df := [i]];
          }
        } else {
          universal := universal + [i];
        }
      }
    }

    /** Switches one rule on or off; an index out of range is an error. */
    method SetRuleDisabled(index: int, flag: bool) returns (ok: bool)
      requires Valid()
      modifies `rows
      ensures Valid()
      ensures ok <==> 0 <= index < |old(rows)|
      ensures rows == Toggle(old(rows), index, flag)
    {
      if index < 0 || index >= |rows| {
        return false;
      }
      ghost var before := rows;
      rows := rows[index := rows[index].(disabled := flag)];
      IndexesSameRules(before, rows, universalRules, driverIndex);
      return true;
    }

    /** Evaluates one rule, bumps its counters and reports whether it fired. */
    method TryMatch(p: Point, k: nat) returns (ok: bool)
      requires k < |rows|
      modifies `rows
      ensures ok <==> !old(rows)[k].disabled && old(rows)[k].rule.test(p)
      ensures rows == old(rows)[k := Evaluated(old(rows)[k], p)]
      ensures rows[k] == old(rows)[k].(hits := old(rows)[k].hits + (if ok then 1 else 0),
                                       misses := old(rows)[k].misses + (if ok || old(rows)[k].disabled then 0 else 1))
    {
      var r := rows[k];
      if r.disabled {
        return false;
      }
      ok := r.rule.test(p);
      if ok {
        rows := rows[k := r.(hits := r.hits + 1)];
      } else {
        rows := rows[k := r.(misses := r.misses + 1)];
      }
    }

    /** Evaluates the next rule of a scan and collects its result. */
    method Visit(p: Point, r: nat, acc: seq<nat>, ghost before: seq<Row>, ghost all: bool, ghost c: nat)
      returns (results: seq<nat>, terminal: bool)
      requires c <= |before| && Go(before, p, all, c).Is(rows, acc, false)
      requires if all then r == c < |before| else NextRelevant(before, p, c, r)
      modifies `rows
      ensures Go(before, p, all, r + 1).Is(rows, results, terminal)
    {
      GoSkips(before, p, all, c, r);
      results, terminal := acc, false;
      var ok := TryMatch(p, r);
      if ok {
        results := acc + [r];
        terminal := !rows[r].rule.continues;
      }
    }

    /** The reference scan over the whole list. */
    method MatchInRules(p: Point) returns (results: seq<nat>)
      modifies `rows
      ensures rows == Linear(old(rows), p).rows
      ensures results == Linear(old(rows), p).results
      ensures forall k :: 0 <= k < |old(rows)| ==> Counted(old(rows), p, false, k, rows, results)
    {
      ghost var before := rows;
      results := [];
      var k, terminal := 0, false;
      while k < |rows| && !terminal
        invariant k <= |before| == |rows|
        invariant Go(before, p, true, k).Is(rows, results, terminal)
        decreases |before| - k, !terminal
      {
        results, terminal := Visit(p, k, results, before, true, k);
        k := k + 1;
      }
      GoSkips(before, p, true, k, |before|);
      GoEnd(before, p, true, before);
      GoRows(before, p, true, before, Reach(before, p));
      forall k | 0 <= k < |before| ensures Counted(before, p, false, k, rows, results) {
        ScanCounts(before, p, false, k);
      }
    }

    /** The loop over what is left of one list once the other is exhausted. */
    method MatchRest(p: Point, list: seq<nat>, from: nat, acc: seq<nat>,
                     ghost d: Name, ghost before: seq<Row>, ghost c0: nat)
      returns (results: seq<nat>, ghost terminal: bool)
      requires list == Filed(before, d, |before|) && c0 <= |before| && CutAt(list, from, c0)
      requires d == NONE || d == p.driver
      requires forall k :: c0 <= k < |before| && before[k].rule.filter != d ==> !Relevant(before[k].rule, p)
      requires Go(before, p, false, c0).Is(rows, acc, false)
      modifies `rows
      ensures Go(before, p, false, |before|).Is(rows, results, terminal)
    {
      ghost var c: nat := c0;
      var i, stop := from, false;
      results := acc;
      while i < |list| && !stop
        invariant CutAt(list, i, c) && c0 <= c <= |before|
        invariant Go(before, p, false, c).Is(rows, results, stop)
        decreases |list| - i, !stop
      {
        FiledHead(before, d, i);
        FiledGap(before, d, i, c, list[i]);
        results, stop := Visit(p, list[i], results, before, false, c);
        c, i := list[i] + 1, i + 1;
      }
      if !stop {
        FiledGap(before, d, i, c, |before|);
      }
      GoSkips(before, p, false, c, |before|);
      terminal := stop;
    }

    /** The two-pointer part of the merge: until one list is exhausted or a terminal match. */
    method MergeHeads(p: Point, a: seq<nat>, b: seq<nat>)
      returns (results: seq<nat>, i: nat, j: nat, stop: bool, ghost c: nat)
      requires forall i, j, c :: TakesHead(rows, p, a, b, i, j, c)
      requires CutAt(a, 0, 0) && CutAt(b, 0, 0)
      modifies `rows
      ensures stop || i == |a| || j == |b|
      ensures c <= |old(rows)| && CutAt(a, i, c) && CutAt(b, j, c)
      ensures Go(old(rows), p, false, c).Is(rows, results, stop)
    {
      ghost var before := rows;
      results, i, j, stop, c := [], 0, 0, false, 0;
      while i < |a| && j < |b| && !stop
        invariant c <= |before| && CutAt(a, i, c) && CutAt(b, j, c)
        invariant Go(before, p, false, c).Is(rows, results, stop)
        decreases |a| - i + |b| - j, !stop
      {
        assert TakesHead(before, p, a, b, i, j, c);
        var first := MergesFirst(rows, a[i], b[j]);
        var r := if first then a[i] else b[j];
        results, stop := Visit(p, r, results, before, false, c);
        c := r + 1;
        if first {
          i := i + 1;
        } else {
          j := j + 1;
        }
      }
    }

    /** Merge in (priority, build position) order up to the first terminal match. */
    method MatchMerged(p: Point, a: seq<nat>, b: seq<nat>) returns (results: seq<nat>, ghost terminal: bool)
      requires Sorted(rows, |rows|) && a == UniversalList(rows) && b == DriverList(rows, p)
      modifies `rows
      ensures Go(old(rows), p, false, |old(rows)|).Is(rows, results, terminal)
    {
      ghost var before := rows;
      var i, j, stop;
      ghost var c;
      forall i, j, c ensures TakesHead(before, p, a, b, i, j, c) {
        TakeHead(before, p, i, j, c);
      }
      results, i, j, stop, c := MergeHeads(p, a, b);
      if stop {
        GoSkips(before, p, false, c, |before|);
        terminal := true;
      } else if j == |b| {
        NoneLeft(before, p, j, c);
        results, terminal := MatchRest(p, a, i, results, NONE, before, c);
      } else {
        FiledGap(before, NONE, i, c, |before|);
        results, terminal := MatchRest(p, b, j, results, p.driver, before, c);
      }
    }

    /** The miss bookkeeping for one list of rules scoped to another driver. */
    method MissForeign(list: seq<nat>, hasTerminal: bool, terminalPriority: int, terminalSeq: nat,
                       ghost d: Name, ghost before: seq<Row>, ghost reach: nat)
      requires Sorted(before, |before|) && SameRules(before, rows) && list == Filed(before, d, |before|)
      requires if hasTerminal then reach == terminalSeq + 1 <= |before| && terminalPriority == before[terminalSeq].rule.priority && before[terminalSeq].rule.filter != d
               else reach == |before|
      modifies `rows
      ensures |rows| == |before|
      ensures forall k :: 0 <= k < |before| ==>
                rows[k] == if k < reach && before[k].rule.filter == d then Missed(old(rows)[k]) else old(rows)[k]
    {
      ghost var start := rows;
      ghost var c: nat := 0;
      var i := 0;
      while i < |list|
        invariant CutAt(list, i, c) && c <= |rows| == |before|
        invariant forall k :: 0 <= k < |before| ==>
                    rows[k] == if k < reach && k < c && before[k].rule.filter == d then Missed(start[k]) else start[k]
      {
        var r := list[i];
        FiledHead(before, d, i);
        FiledGap(before, d, i, c, r);
        if hasTerminal {
          SortedAt(before, |before|, if r < terminalSeq then r else terminalSeq, if r < terminalSeq then terminalSeq else r);
        }
        if hasTerminal && (rows[r].rule.priority > terminalPriority ||
                           (rows[r].rule.priority == terminalPriority && r >= terminalSeq)) {
        } else {
          rows := rows[r := Missed(rows[r])];
        }
        i, c := i + 1, r + 1;
      }
      FiledGap(before, d, i, c, |before|);
    }

    /** Misses for every rule scoped to another driver that precedes the terminal match. */
    method RecordForeignMisses(p: Point, results: seq<nat>, ghost before: seq<Row>, ghost n: nat)
      requires Sorted(before, |before|) && SameRules(before, rows)
      requires forall d :: d in driverIndex ==> d != NONE && driverIndex[d] == Filed(before, d, |before|)
      requires forall i :: 0 <= i < |results| ==> results[i] < |before|
      requires StopTold(before, p, results, n)
      modifies `rows
      ensures SameRules(before, rows)
      ensures forall k :: 0 <= k < |before| ==>
                rows[k] == if k < n && !Relevant(before[k].rule, p) && before[k].rule.filter in driverIndex
                           then Missed(old(rows)[k]) else old(rows)[k]
    {
      var hasTerminal, terminalPriority, terminalSeq := false, 0, 0;
      if |results| > 0 {
        var last := results[|results| - 1];
        if !rows[last].rule.continues {
          hasTerminal, terminalPriority, terminalSeq := true, rows[last].rule.priority, last;
        }
      }
      ghost var mid := rows;
      var todo := driverIndex.Keys;
      while todo != {}
        invariant todo <= driverIndex.Keys && SameRules(before, rows)
        invariant forall k :: 0 <= k < |before| ==>
                    rows[k] == if k < n && !Relevant(before[k].rule, p) && before[k].rule.filter in driverIndex.Keys - todo
                               then Missed(mid[k]) else mid[k]
        decreases |todo|
      {
        var d :| d in todo;
        todo := todo - {d};
        if d != p.driver {
          MissForeign(driverIndex[d], hasTerminal, terminalPriority, terminalSeq, d, before, n);
        }
      }
    }

    /** The merge followed by the miss bookkeeping. */
    method MatchIndexed(p: Point) returns (results: seq<nat>)
      requires Valid()
      modifies `rows
      ensures rows == Indexed(old(rows), p).rows
      ensures results == Indexed(old(rows), p).results
    {
      ghost var before := rows;
      var driverRules := if p.driver in driverIndex then driverIndex[p.driver] else [];
      UnlistedDriver(before, p, driverIndex);
      ghost var t;
      results, t := MatchMerged(p, universalRules, driverRules);
      ghost var mid := rows;
      GoSameRules(before, p, false, |before|);
      MergedResults(before, p, Scan(mid, results, t));
      MergedStop(before, p, Scan(mid, results, t));
      RecordForeignMisses(p, results, before, Reach(Mask(before, p), p));
      MergedRows(before, p, Scan(mid, results, t));
      IndexedRows(before, p, mid, rows, driverIndex.Keys);
    }

    /**
     All matching rules in priority order up to the first terminal match. Rules scoped to
     other drivers are not evaluated; those the linear scan would have reached record a miss. Unless
     such a rule would have fired, results and counters are those of the linear scan.
     */
    method Match(p: Point) returns (results: seq<nat>)
      requires Valid()
      modifies `rows
      ensures Valid()
      ensures rows == Indexed(old(rows), p).rows
      ensures results == Indexed(old(rows), p).results
      ensures NoForeignHit(old(rows), p) ==> results == Linear(old(rows), p).results && rows == Linear(old(rows), p).rows
      ensures forall k :: 0 <= k < |old(rows)| ==> Counted(old(rows), p, true, k, rows, results)
    {
      ghost var before := rows;
      IndexTransparentIff(before, p);
      if |driverIndex| == 0 {
        results := MatchInRules(p);
        AgreeWhenNoForeignHit(before, p);
      } else {
        results := MatchIndexed(p);
      }
      IndexedSameRules(before, p);
      IndexesSameRules(before, rows, universalRules, driverIndex);
      forall k | 0 <= k < |before| ensures Counted(before, p, true, k, rows, results) {
        ScanCounts(before, p, true, k);
      }
    }
  }
}
