/**
 Configuration reload as a transaction: the running component sets are diffed against the new
 configuration, every change is recorded, and a failure at any point is compensated. Engine calls
 may fail at will, in which case they have no effect; map iteration order is arbitrary.
 */
module Reload {

  type Name = nat

  /** A named component and the rest of its configuration. */
  datatype Component = Component(name: Name, setting: nat)

  datatype Config = Config(drivers: seq<Component>, transports: seq<Component>, rules: seq<nat>, derived: seq<nat>)

  const EMPTY := Config([], [], [], [])

  /** Components by name; a later entry wins. */
  function ByName(cs: seq<Component>): map<Name, nat> {
    if cs == [] then map[] else ByName(cs[..|cs| - 1])[cs[|cs| - 1].name := cs[|cs| - 1].setting]
  }

  /** The last component of that name in the list has that setting. */
  ghost predicate Configured(cs: seq<Component>, name: Name, setting: nat) {
    exists i :: 0 <= i < |cs| && cs[i] == Component(name, setting) && forall j :: i < j < |cs| ==> cs[j].name != name
  }

  /** Exactly the components of the list run: a name does just when it is listed, with the setting listed last. */
  ghost predicate Runs(entries: map<Name, nat>, cs: seq<Component>) {
    forall n, v :: (n in entries && entries[n] == v) <==> Configured(cs, n, v)
  }

  lemma {:induction false} ConfiguredLast(cs: seq<Component>, n: Name, v: nat)
    requires cs != []
    ensures var init, last := cs[..|cs| - 1], cs[|cs| - 1];
            Configured(cs, n, v) <==> (if last.name == n then v == last.setting else Configured(init, n, v))
  {
    var init, last := cs[..|cs| - 1], cs[|cs| - 1];
    if last == Component(n, v) {
      assert cs[|cs| - 1] == Component(n, v);
    }
    if last.name != n && Configured(init, n, v) {
      var i :| 0 <= i < |init| && init[i] == Component(n, v) && forall j :: i < j < |init| ==> init[j].name != n;
      assert cs[i] == init[i];
    }
    if last.name != n && Configured(cs, n, v) {
      var i :| 0 <= i < |cs| && cs[i] == Component(n, v) && forall j :: i < j < |cs| ==> cs[j].name != n;
      assert init[i] == cs[i];
    }
  }

  /** The map by name is what the list means. */
  lemma {:induction false} ByNameRuns(cs: seq<Component>)
    ensures Runs(ByName(cs), cs)
  {
    if cs != [] {
      ByNameRuns(cs[..|cs| - 1]);
      forall n, v ensures (n in ByName(cs) && ByName(cs)[n] == v) <==> Configured(cs, n, v) {
        ConfiguredLast(cs, n, v);
      }
    }
  }

  /** Only one set of running components is what the list means. */
  lemma {:induction false} RunsIsByName(entries: map<Name, nat>, cs: seq<Component>)
    requires Runs(entries, cs)
    ensures entries == ByName(cs)
  {
    ByNameRuns(cs);
    forall n ensures n in entries <==> n in ByName(cs) {
      if n in entries {
        assert Configured(cs, n, entries[n]);
      }
      if n in ByName(cs) {
        assert Configured(cs, n, ByName(cs)[n]);
      }
    }
    forall n | n in entries ensures entries[n] == ByName(cs)[n] {
      assert Configured(cs, n, entries[n]);
    }
  }

  /** With unique names every component runs with its own setting, and nothing else runs. */
  lemma {:induction false} UniqueAllRun(entries: map<Name, nat>, cs: seq<Component>)
    requires Runs(entries, cs) && forall i, j :: 0 <= i < j < |cs| ==> cs[i].name != cs[j].name
    ensures forall i :: 0 <= i < |cs| ==> cs[i].name in entries && entries[cs[i].name] == cs[i].setting
    ensures forall n :: n in entries ==> exists i :: 0 <= i < |cs| && cs[i].name == n
  {
    forall i | 0 <= i < |cs| ensures cs[i].name in entries && entries[cs[i].name] == cs[i].setting {
      assert cs[i] == Component(cs[i].name, cs[i].setting);
      assert Configured(cs, cs[i].name, cs[i].setting);
    }
    forall n | n in entries ensures exists i :: 0 <= i < |cs| && cs[i].name == n {
      assert Configured(cs, n, entries[n]);
    }
  }

  /** The drivers, or the transports, the engine runs. */
  class Registry {
    var entries: map<Name, nat>

    constructor (cs: seq<Component>)
      ensures Runs(entries, cs)
    {
      ByNameRuns(cs);
      entries := ByName(cs);
    }

    /** Starts a component. A name in use fails; otherwise `willing` decides. */
    method Add(c: Component, willing: bool) returns (ok: bool)
      modifies this
      ensures ok <==> willing && c.name !in old(entries)
      ensures entries == if ok then old(entries)[c.name := c.setting] else old(entries)
    {
      ok := willing && c.name !in entries;
      if ok {
        entries := entries[c.name := c.setting];
      }
    }

    /** Stops a component. An unknown name fails; otherwise `willing` decides. */
    method Remove(name: Name, willing: bool) returns (ok: bool)
      modifies this
      ensures ok <==> willing && name in old(entries)
      ensures entries == if ok then old(entries) - {name} else old(entries)
    {
      ok := willing && name in entries;
      if ok {
        entries := entries - {name};
      }
    }
  }

  /** What a diff has already done to one registry. */
  datatype Actions = Actions(removed: seq<Component>, added: seq<Name>)

  function Names(cs: seq<Component>): (ns: set<Name>)
    ensures |cs| > 0 ==> ns == Names(cs[..|cs| - 1]) + {cs[|cs| - 1].name}
  {
    if cs == [] then {} else Names(cs[..|cs| - 1]) + {cs[|cs| - 1].name}
  }

  function Elements(ns: seq<Name>): set<Name> {
    if ns == [] then {} else Elements(ns[..|ns| - 1]) + {ns[|ns| - 1]}
  }

  /** No name twice, and all of them running. */
  ghost predicate Addable(entries: map<Name, nat>, added: seq<Name>) {
    added == [] ||
    (var n := added[|added| - 1]; n in entries && n !in Elements(added[..|added| - 1]) && Addable(entries, added[..|added| - 1]))
  }

  /** No name twice, and each with the configuration it had before. */
  ghost predicate Restorable(before: map<Name, nat>, removed: seq<Component>) {
    removed == [] ||
    (var c := removed[|removed| - 1];
     c.name in before && before[c.name] == c.setting && c.name !in Names(removed[..|removed| - 1]) && Restorable(before, removed[..|removed| - 1]))
  }

  /** Apart from what was added and removed, the registry is as before. */
  ghost predicate SameRest(before: map<Name, nat>, now: map<Name, nat>, added: set<Name>, removed: set<Name>) {
    forall k :: ((k in now && k !in added) <==> (k in before && k !in removed)) && (k in now && k !in added ==> now[k] == before[k])
  }

  /** The record accounts for every difference. */
  ghost predicate Recorded(before: map<Name, nat>, now: map<Name, nat>, act: Actions) {
    && Addable(now, act.added) && Restorable(before, act.removed)
    && SameRest(before, now, Elements(act.added), Names(act.removed))
  }

  lemma {:induction false} RecordRemoval(before: map<Name, nat>, now: map<Name, nat>, act: Actions, n: Name)
    requires Recorded(before, now, act) && n in now && n !in Elements(act.added)
    ensures n in before && now[n] == before[n]
    ensures Recorded(before, now - {n}, act.(removed := act.removed + [Component(n, before[n])]))
  {
    var more := act.removed + [Component(n, before[n])];
    assert more[..|more| - 1] == act.removed;
    StillAddable(now, n, act.added);
    assert Names(more) == Names(act.removed) + {n};
  }

  lemma {:induction false} StillAddable(now: map<Name, nat>, n: Name, added: seq<Name>)
    requires Addable(now, added) && n !in Elements(added)
    ensures Addable(now - {n}, added)
  {
    if added != [] {
      StillAddable(now, n, added[..|added| - 1]);
    }
  }

  lemma {:induction false} RecordAddition(before: map<Name, nat>, now: map<Name, nat>, act: Actions, c: Component)
    requires Recorded(before, now, act) && c.name !in now
    ensures Recorded(before, now[c.name := c.setting], act.(added := act.added + [c.name]))
    ensures Elements(act.added + [c.name]) == Elements(act.added) + {c.name}
  {
    var more := act.added + [c.name];
    assert more[..|more| - 1] == act.added;
    assert Elements(more) == Elements(act.added) + {c.name};
    AddableMore(now, c, act.added);
    SameRestMore(before, now, Elements(act.added), Names(act.removed), c);
  }

  lemma {:induction false} SameRestMore(before: map<Name, nat>, now: map<Name, nat>, added: set<Name>, removed: set<Name>, c: Component)
    requires SameRest(before, now, added, removed) && c.name !in now
    ensures SameRest(before, now[c.name := c.setting], added + {c.name}, removed)
  {
    var next := now[c.name := c.setting];
    forall k ensures ((k in next && k !in added + {c.name}) <==> (k in before && k !in removed))
      && (k in next && k !in added + {c.name} ==> next[k] == before[k])
    {
      assert (k in next && k !in added + {c.name}) <==> (k in now && k !in added);
    }
  }

  lemma {:induction false} AddableMore(now: map<Name, nat>, c: Component, added: seq<Name>)
    requires Addable(now, added) && c.name !in now
    ensures Addable(now[c.name := c.setting], added) && c.name !in Elements(added)
  {
    if added != [] {
      AddableMore(now, c, added[..|added| - 1]);
    }
  }

  /** Stops the components the new configuration no longer has. */
  method RemoveDeleted(reg: Registry, before: map<Name, nat>, wanted: map<Name, nat>, helpful: bool) returns (ok: bool, act: Actions)
    requires reg.entries == before
    modifies reg
    ensures act.added == [] && Recorded(before, reg.entries, act)
    ensures ok ==> forall n :: n in reg.entries <==> n in before && n in wanted
    ensures helpful ==> ok
  {
    act := Actions([], []);
    var todo := before.Keys;
    while todo != {}
      invariant act.added == [] && Recorded(before, reg.entries, act) && todo <= before.Keys
      invariant forall n :: n in reg.entries <==> n in before && (n in wanted || n in todo)
      decreases |todo|
    {
      var n :| n in todo;
      if n !in wanted {
        ghost var now := reg.entries;
        var willing: bool := *;
        ok := reg.Remove(n, helpful || willing);
        if !ok {
          return;
        }
        RecordRemoval(before, now, act, n);
        act := act.(removed := act.removed + [Component(n, before[n])]);
      }
      todo := todo - {n};
    }
    ok := true;
  }

  /** Starts a component that is new, restarts one that has changed. */
  method Reconcile(reg: Registry, before: map<Name, nat>, wanted: map<Name, nat>, n: Name, force: bool, done: Actions, helpful: bool)
    returns (ok: bool, act: Actions)
    requires Recorded(before, reg.entries, done)
    requires n in wanted && n !in Elements(done.added) && (n in before <==> n in reg.entries)
    modifies reg
    ensures Recorded(before, reg.entries, act) && Elements(act.added) <= Elements(done.added) + {n}
    ensures ok ==> reg.entries == old(reg.entries)[n := wanted[n]]
    ensures helpful ==> ok
  {
    act := done;
    var willing: bool := *;
    ghost var now := reg.entries;
    if n in before {
      if !force && before[n] == wanted[n] {
        return true, act;
      }
      ok := reg.Remove(n, helpful || willing);
      if !ok {
        return;
      }
      RecordRemoval(before, now, act, n);
      act := act.(removed := act.removed + [Component(n, before[n])]);
      now := reg.entries;
      willing := *;
    }
    ok := reg.Add(Component(n, wanted[n]), helpful || willing);
    if ok {
      RecordAddition(before, now, act, Component(n, wanted[n]));
      act := act.(added := act.added + [n]);
    }
  }

  /** Starts new components and restarts changed ones. */
  method AddOrRestart(reg: Registry, before: map<Name, nat>, wanted: map<Name, nat>, force: bool, done: Actions, helpful: bool)
    returns (ok: bool, act: Actions)
    requires done.added == [] && Recorded(before, reg.entries, done)
    requires forall n :: n in reg.entries <==> n in before && n in wanted
    modifies reg
    ensures Recorded(before, reg.entries, act)
    ensures ok ==> reg.entries == wanted
    ensures helpful ==> ok
  {
    act := done;
    var todo := wanted.Keys;
    while todo != {}
      invariant Recorded(before, reg.entries, act) && todo <= wanted.Keys && Elements(act.added) !! todo
      invariant forall n :: n in reg.entries <==> n in wanted && (n in before || n !in todo)
      invariant forall n :: n in wanted && n !in todo ==> n in reg.entries && reg.entries[n] == wanted[n]
      decreases |todo|
    {
      var n :| n in todo;
      ok, act := Reconcile(reg, before, wanted, n, force, act, helpful);
      if !ok {
        return;
      }
      todo := todo - {n};
    }
    ok := true;
  }

  /**
   Reconciles a registry with the wanted components, recording every change; stops at the first
   failure. With a helpful engine no call fails.
   */
  method Diff(reg: Registry, olds: seq<Component>, news: seq<Component>, force: bool, helpful: bool) returns (ok: bool, act: Actions)
    requires Runs(reg.entries, olds)
    modifies reg
    ensures Recorded(old(reg.entries), reg.entries, act)
    ensures ok ==> Runs(reg.entries, news)
    ensures helpful ==> ok
  {
    var before, wanted := ByName(olds), ByName(news);
    RunsIsByName(reg.entries, olds);
    ByNameRuns(news);
    ok, act := RemoveDeleted(reg, before, wanted, helpful);
    if ok {
      ok, act := AddOrRestart(reg, before, wanted, force, act, helpful);
    }
  }

  /** Stops everything that was added. */
  method StopAdded(reg: Registry, ghost before: map<Name, nat>, act: Actions)
    requires Recorded(before, reg.entries, act)
    modifies reg
    ensures Recorded(before, reg.entries, Actions(act.removed, []))
  {
    ghost var now := reg.entries;
    for i := 0 to |act.added|
      invariant reg.entries == now - Elements(act.added[..i])
    {
      AddedApart(now, act.added, i);
      var ok := reg.Remove(act.added[i], true);
      assert ok;
      assert act.added[..i + 1][..i] == act.added[..i];
      assert Elements(act.added[..i + 1]) == Elements(act.added[..i]) + {act.added[i]};
    }
    assert act.added[..|act.added|] == act.added;
  }

  lemma {:induction false} AddedApart(now: map<Name, nat>, added: seq<Name>, i: nat)
    requires Addable(now, added) && i < |added|
    ensures added[i] in now && added[i] !in Elements(added[..i])
  {
    if i < |added| - 1 {
      AddedApart(now, added[..|added| - 1], i);
      assert added[..|added| - 1][..i] == added[..i];
    }
  }

  /** Starts everything that was removed, the last first. */
  method RestoreRemoved(reg: Registry, ghost before: map<Name, nat>, removed: seq<Component>)
    requires Recorded(before, reg.entries, Actions(removed, []))
    modifies reg
    ensures reg.entries == before
  {
    var i := |removed|;
    assert removed[..i] == removed;
    while i > 0
      invariant 0 <= i <= |removed| && Restorable(before, removed[..i])
      invariant SameRest(before, reg.entries, {}, Names(removed[..i]))
    {
      var c := removed[i - 1];
      assert removed[..i][..i - 1] == removed[..i - 1] && removed[..i][i - 1] == c;
      assert c.name in Names(removed[..i]);
      var ok := reg.Add(c, true);
      assert ok;
      i := i - 1;
    }
    assert Names(removed[..0]) == {};
  }

  datatype Attempt = Attempt(cfg: Config, force: bool, helpful: bool)

  /** The executor's global state: the engine's components and the configuration last applied. */
  class Executor {
    const drivers: Registry
    const transports: Registry
    const canHotApply: bool
    var rules: seq<nat>
    var derived: seq<nat>
    var currentCfg: Config

    ghost predicate Valid()
      reads this
    {
      drivers != transports
    }

    /** Drivers, transports and rules in the engine are those of the current configuration. */
    ghost predicate InSync()
      reads this, drivers, transports
    {
      Runs(drivers.entries, currentCfg.drivers) && Runs(transports.entries, currentCfg.transports) && rules == currentCfg.rules
    }

    /** The derived tags in the engine are those of the current configuration. */
    ghost predicate DerivedInSync()
      reads this
    {
      derived == currentCfg.derived
    }

    constructor (hotApply: bool)
      ensures Valid() && InSync() && DerivedInSync() && canHotApply == hotApply && currentCfg == EMPTY
      ensures fresh(drivers) && fresh(transports)
    {
      canHotApply := hotApply;
      drivers := new Registry([]);
      transports := new Registry([]);
      rules, derived, currentCfg := [], [], EMPTY;
    }

    /** Undoes a half-applied reload. */
    method Rollback(ghost wereDrivers: map<Name, nat>, ghost wereTransports: map<Name, nat>,
                    forDrivers: Actions, forTransports: Actions, rulesApplied: bool)
      requires Valid() && Runs(wereDrivers, currentCfg.drivers) && Runs(wereTransports, currentCfg.transports)
      requires Recorded(wereDrivers, drivers.entries, forDrivers)
      requires Recorded(wereTransports, transports.entries, forTransports)
      requires !rulesApplied ==> rules == currentCfg.rules
      modifies drivers, transports, this`rules
      ensures InSync() && drivers.entries == wereDrivers && transports.entries == wereTransports
    {
      StopAdded(transports, wereTransports, forTransports);
      RestoreRemoved(transports, wereTransports, forTransports.removed);
      StopAdded(drivers, wereDrivers, forDrivers);
      RestoreRemoved(drivers, wereDrivers, forDrivers.removed);
      if rulesApplied {
        rules := currentCfg.rules;
      }
    }

    /**
     Applies a configuration or leaves everything as it was, wherever the attempt fails; it does
     not fail if no engine call does. Derived tags follow only if the engine can apply them while
     it runs.
     */
    method ApplyConfig(cfg: Config, force: bool, helpful: bool) returns (ok: bool)
      requires Valid() && InSync()
      modifies this, drivers, transports
      ensures Valid() && InSync()
      ensures currentCfg == if ok then cfg else old(currentCfg)
      ensures helpful ==> ok
      ensures !ok ==> drivers.entries == old(drivers.entries) && transports.entries == old(transports.entries)
      ensures !ok ==> rules == old(rules) && derived == old(derived)
      ensures ok && old(DerivedInSync()) ==> (DerivedInSync() <==> canHotApply || cfg.derived == old(currentCfg.derived))
      ensures !canHotApply ==> derived == old(derived)
    {
      var forDrivers, forTransports := Actions([], []), Actions([], []);
      ghost var wereDrivers, wereTransports := drivers.entries, transports.entries;
      ok, forDrivers := Diff(drivers, currentCfg.drivers, cfg.drivers, force, helpful);
      if !ok {
        Rollback(wereDrivers, wereTransports, forDrivers, forTransports, false);
        return;
      }
      ok, forTransports := Diff(transports, currentCfg.transports, cfg.transports, force, helpful);
      if !ok {
        Rollback(wereDrivers, wereTransports, forDrivers, forTransports, false);
        return;
      }
      var rulesApplied := false;
      if force || currentCfg.rules != cfg.rules {
        ok := *;
        ok := ok || helpful;
        if !ok {
          Rollback(wereDrivers, wereTransports, forDrivers, forTransports, false);
          return;
        }
        rules, rulesApplied := cfg.rules, true;
      }
      if force || currentCfg.derived != cfg.derived {
        if canHotApply {
          ok := *;
          ok := ok || helpful;
          if !ok {
            Rollback(wereDrivers, wereTransports, forDrivers, forTransports, rulesApplied);
            return;
          }
          derived := cfg.derived;
        }
      }
      currentCfg := cfg;
      ok := true;
    }

    /**
     After any sequence of attempts, whichever of them fail, engine and configuration agree; the
     derived tags do if and only if they can be applied live or are those of the start again.
     */
    method ApplyAll(attempts: seq<Attempt>)
      requires Valid() && InSync() && DerivedInSync()
      modifies this, drivers, transports
      ensures Valid() && InSync()
      ensures DerivedInSync() <==> canHotApply || currentCfg.derived == old(currentCfg.derived)
    {
      for i := 0 to |attempts|
        invariant Valid() && InSync()
        invariant canHotApply ==> DerivedInSync()
        invariant !canHotApply ==> derived == old(currentCfg.derived)
      {
        var ok := ApplyConfig(attempts[i].cfg, attempts[i].force, attempts[i].helpful);
      }
    }
  }

  /** An engine that cannot apply derived tags live keeps the old ones after a reload that succeeded. */
  method StaleDerivedExample() returns (x: Executor, ok: bool)
    ensures ok && x.currentCfg.derived == [1] && x.derived == []
  {
    x := new Executor(false);
    ok := x.ApplyConfig(Config([], [], [], [1]), false, true);
  }
}
