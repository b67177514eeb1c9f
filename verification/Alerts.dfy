/**
 The alert registry: identity, lifecycle, a cap on active alerts and a bounded history. Every step
 writes to a log that is kept in full here; the history is its newest part.
 */
module Alerts {
  import opened History

  type Key = nat

  const REGISTRY_CAP: nat := 1000
  const HISTORY_CAP: nat := 500

  datatype Alert = Alert(lastFired: int, count: nat, acked: bool)

  datatype Kind = Fired | Acked | Cleared

  datatype Event = Event(kind: Kind, key: Key)

  datatype State = State(active: map<Key, Alert>, log: seq<Event>)

  // ---------------------------------------------------------------------------
  // Steps
  // ---------------------------------------------------------------------------

  function Bump(active: map<Key, Alert>, key: Key, now: int): map<Key, Alert> {
    if key in active then active[key := active[key].(lastFired := now, count := active[key].count + 1)]
    else active[key := Alert(now, 1, false)]
  }

  /** No active alert was fired less recently. */
  ghost predicate LeastRecent(active: map<Key, Alert>, v: Key) {
    v in active && forall k :: k in active ==> active[v].lastFired <= active[k].lastFired
  }

  predicate Overflows(s: State, key: Key) {
    key !in s.active && |s.active.Keys| >= REGISTRY_CAP
  }

  /** A fire. A new alert that overflows the registry makes `victim` clear first. */
  function Fire(s: State, key: Key, now: int, victim: Key): State {
    var bumped := Bump(s.active, key, now);
    if key in s.active then s.(active := bumped)
    else if Overflows(s, key) then State(bumped - {victim}, s.log + [Event(Cleared, victim), Event(Fired, key)])
    else State(bumped, s.log + [Event(Fired, key)])
  }

  function Acknowledge(s: State, key: Key): State {
    if key in s.active then State(s.active[key := s.active[key].(acked := true)], s.log + [Event(Acked, key)]) else s
  }

  function Clear(s: State, key: Key): State {
    if key in s.active then State(s.active - {key}, s.log + [Event(Cleared, key)]) else s
  }

  datatype Step = Record(key: Key, now: int, victim: Key) | Ack(key: Key) | Expire(key: Key, now: int)

  /** Whether the step can happen: the registry clears a least recently fired alert, and expires silent ones. */
  ghost predicate Possible(window: int, s: State, e: Step) {
    match e
    case Record(key, now, victim) => Overflows(s, key) ==> LeastRecent(Bump(s.active, key, now), victim)
    case Ack(_) => true
    case Expire(key, now) => key in s.active && now - s.active[key].lastFired >= window
  }

  function Next(s: State, e: Step): State {
    match e
    case Record(key, now, victim) => Fire(s, key, now, victim)
    case Ack(key) => Acknowledge(s, key)
    case Expire(key, _) => Clear(s, key)
  }

  const EMPTY := State(map[], [])

  function Run(steps: seq<Step>): State {
    if steps == [] then EMPTY else Next(Run(steps[..|steps| - 1]), steps[|steps| - 1])
  }

  ghost predicate AllPossible(window: int, steps: seq<Step>) {
    steps == [] || (AllPossible(window, steps[..|steps| - 1]) && Possible(window, Run(steps[..|steps| - 1]), steps[|steps| - 1]))
  }

  // ---------------------------------------------------------------------------
  // Lifecycle
  // ---------------------------------------------------------------------------

  datatype Life = Closed | Open | Broken

  /** Reads the log of one key as (fired acked* cleared)*, with an open tail or not. */
  function Lifecycle(log: seq<Event>, key: Key): Life {
    if log == [] then Closed
    else
      var before, e := Lifecycle(log[..|log| - 1], key), log[|log| - 1];
      if e.key != key then before
      else match e.kind
        case Fired => if before == Closed then Open else Broken
        case Acked => if before == Open then Open else Broken
        case Cleared => if before == Open then Closed else Broken
  }

  lemma {:induction false} LifecycleSnoc(log: seq<Event>, e: Event, key: Key)
    ensures Lifecycle(log + [e], key) ==
            if e.key != key then Lifecycle(log, key)
            else match e.kind
              case Fired => if Lifecycle(log, key) == Closed then Open else Broken
              case Acked => if Lifecycle(log, key) == Open then Open else Broken
              case Cleared => if Lifecycle(log, key) == Open then Closed else Broken
  {
  }

  /** Every key's log is well formed, with an open tail exactly when the key is active. */
  ghost predicate Orderly(s: State) {
    forall key :: Lifecycle(s.log, key) == if key in s.active then Open else Closed
  }

  lemma {:induction false} RefireKeepsOrder(s: State, key: Key, now: int, victim: Key)
    requires Orderly(s) && key in s.active
    ensures Orderly(Fire(s, key, now, victim))
  {
    var s' := Fire(s, key, now, victim);
    assert forall k :: k in s'.active <==> k in s.active;
  }

  lemma {:induction false} NewKeepsOrder(s: State, key: Key, now: int, victim: Key)
    requires Orderly(s) && key !in s.active && !Overflows(s, key)
    ensures Orderly(Fire(s, key, now, victim))
  {
    var s' := Fire(s, key, now, victim);
    forall k ensures Lifecycle(s'.log, k) == if k in s'.active then Open else Closed {
      LifecycleSnoc(s.log, Event(Fired, key), k);
    }
  }

  /** The log of a key after an overflow: the victim is cleared, then the new alert fired. */
  lemma {:induction false} OverflowLog(s: State, key: Key, victim: Key, log: seq<Event>, k: Key)
    requires Orderly(s) && key !in s.active && (victim in s.active || victim == key)
    requires log == s.log + [Event(Cleared, victim), Event(Fired, key)]
    ensures Lifecycle(log, k) ==
            if victim == key == k then Broken
            else if k == key then Open
            else if k == victim then Closed
            else if k in s.active then Open else Closed
  {
    var mid := s.log + [Event(Cleared, victim)];
    assert log == mid + [Event(Fired, key)];
    LifecycleSnoc(s.log, Event(Cleared, victim), k);
    LifecycleSnoc(mid, Event(Fired, key), k);
  }

  /** A fire keeps the order exactly when it does not clear the alert it is about to report. */
  lemma {:induction false} FireKeepsOrderIff(s: State, key: Key, now: int, victim: Key)
    requires Orderly(s) && (Overflows(s, key) ==> LeastRecent(Bump(s.active, key, now), victim))
    ensures Orderly(Fire(s, key, now, victim)) <==> !(Overflows(s, key) && victim == key)
  {
    var s' := Fire(s, key, now, victim);
    if key in s.active {
      RefireKeepsOrder(s, key, now, victim);
    } else if !Overflows(s, key) {
      NewKeepsOrder(s, key, now, victim);
    } else {
      forall k {
        OverflowLog(s, key, victim, s'.log, k);
      }
      if victim == key {
        assert Lifecycle(s'.log, key) == Broken;
      }
    }
  }

  lemma {:induction false} OthersKeepOrder(s: State, e: Step)
    requires Orderly(s) && !e.Record?
    ensures Orderly(Next(s, e))
  {
  }

  /**
   The new alert itself may be the one cleared exactly when no other active alert was fired before
   `now`; otherwise overflow always clears an older one.
   */
  lemma {:induction false} OverflowSafeIff(s: State, key: Key, now: int)
    requires Overflows(s, key)
    ensures (forall v :: LeastRecent(Bump(s.active, key, now), v) ==> v != key) <==>
            (exists k :: k in s.active && s.active[k].lastFired < now)
  {
    var bumped := Bump(s.active, key, now);
    if k :| k in s.active && s.active[k].lastFired < now {
      assert k in bumped && bumped[k].lastFired < bumped[key].lastFired;
    } else {
      assert LeastRecent(bumped, key);
    }
  }

  /** A registry full of alerts of this very moment: the new alert is cleared before it is reported. */
  lemma {:induction false} TieBreaksOrder(s: State, key: Key, now: int)
    requires Orderly(s) && Overflows(s, key) && forall k :: k in s.active ==> s.active[k].lastFired == now
    ensures LeastRecent(Bump(s.active, key, now), key) && !Orderly(Fire(s, key, now, key))
  {
  }

  // ---------------------------------------------------------------------------
  // Whole runs
  // ---------------------------------------------------------------------------

  /** Removing one key that is there makes the map one smaller. */
  lemma {:induction false} StepSize(window: int, s: State, e: Step)
    requires |s.active.Keys| <= REGISTRY_CAP && Possible(window, s, e)
    ensures |Next(s, e).active.Keys| <= REGISTRY_CAP
  {
  }

  /** The registry never exceeds its cap, whatever the fire times. */
  lemma {:induction false} RegistryBounded(window: int, steps: seq<Step>)
    requires AllPossible(window, steps)
    ensures |Run(steps).active.Keys| <= REGISTRY_CAP
  {
    if steps != [] {
      RegistryBounded(window, steps[..|steps| - 1]);
      StepSize(window, Run(steps[..|steps| - 1]), steps[|steps| - 1]);
    }
  }

  ghost predicate FiresBefore(steps: seq<Step>, t: int) {
    forall i :: 0 <= i < |steps| && steps[i].Record? ==> steps[i].now < t
  }

  /** Fire times increase strictly. */
  ghost predicate Increasing(steps: seq<Step>) {
    forall i, j :: 0 <= i < j < |steps| && steps[i].Record? && steps[j].Record? ==> steps[i].now < steps[j].now
  }

  lemma {:induction false} ActiveFiredBefore(steps: seq<Step>, t: int, k: Key)
    requires FiresBefore(steps, t) && k in Run(steps).active
    ensures Run(steps).active[k].lastFired < t
  {
    var init, e := steps[..|steps| - 1], steps[|steps| - 1];
    if k in Run(init).active {
      ActiveFiredBefore(init, t, k);
    }
  }

  /** An alert fired at a later time than all others is not the one overflow clears. */
  lemma {:induction false} NewestSurvives(s: State, e: Step)
    requires e.Record? && Overflows(s, e.key) && LeastRecent(Bump(s.active, e.key, e.now), e.victim)
    requires forall k :: k in s.active ==> s.active[k].lastFired < e.now
    ensures e.victim != e.key
  {
    OverflowSafeIff(s, e.key, e.now);
    var k :| k in s.active.Keys;
    assert s.active[k].lastFired < e.now;
  }

  /**
   With strictly increasing fire times, every key's full event log is (fired acked* cleared)* at
   all times, with an open tail exactly while the key is active.
   */
  lemma {:induction false} LogsStayOrderly(window: int, steps: seq<Step>)
    requires AllPossible(window, steps) && Increasing(steps)
    ensures Orderly(Run(steps))
  {
    if steps != [] {
      var init, e := steps[..|steps| - 1], steps[|steps| - 1];
      LogsStayOrderly(window, init);
      if e.Record? {
        FireKeepsOrderIff(Run(init), e.key, e.now, e.victim);
        if Overflows(Run(init), e.key) {
          forall k | k in Run(init).active ensures Run(init).active[k].lastFired < e.now {
            ActiveFiredBefore(init, e.now, k);
          }
          NewestSurvives(Run(init), e);
        }
      } else {
        OthersKeepOrder(Run(init), e);
      }
    }
  }

  /** The step overflows the registry and clears the very alert it records. */
  predicate ClearsItself(s: State, e: Step) {
    e.Record? && Overflows(s, e.key) && e.victim == e.key
  }

  ghost predicate NeverClearsItself(steps: seq<Step>) {
    forall i :: 0 <= i < |steps| ==> !ClearsItself(Run(steps[..i]), steps[i])
  }

  lemma {:induction false} NeverClearsInit(steps: seq<Step>)
    requires steps != []
    ensures var init := steps[..|steps| - 1];
            NeverClearsItself(steps) <==> NeverClearsItself(init) && !ClearsItself(Run(init), steps[|steps| - 1])
  {
    var init := steps[..|steps| - 1];
    assert forall i :: 0 <= i < |init| ==> init[..i] == steps[..i];
    if NeverClearsItself(init) && !ClearsItself(Run(init), steps[|steps| - 1]) {
      forall i | 0 <= i < |steps| ensures !ClearsItself(Run(steps[..i]), steps[i]) {
        if i < |init| {
          assert !ClearsItself(Run(init[..i]), init[i]);
        }
      }
    } else if !NeverClearsItself(init) {
      var i :| 0 <= i < |init| && ClearsItself(Run(init[..i]), init[i]);
      assert ClearsItself(Run(steps[..i]), steps[i]);
    }
  }

  /** Once a key's log is broken no step mends it. */
  lemma {:induction false} BrokenStays(s: State, e: Step, key: Key)
    requires Lifecycle(s.log, key) == Broken
    ensures Lifecycle(Next(s, e).log, key) == Broken
  {
    var log := Next(s, e).log;
    if |log| == |s.log| + 2 {
      assert log == (s.log + [log[|s.log|]]) + [log[|s.log| + 1]];
      LifecycleSnoc(s.log, log[|s.log|], key);
      LifecycleSnoc(s.log + [log[|s.log|]], log[|s.log| + 1], key);
    } else if |log| == |s.log| + 1 {
      LifecycleSnoc(s.log, log[|s.log|], key);
    }
  }

  ghost predicate IsBroken(s: State) {
    exists k :: Lifecycle(s.log, k) == Broken
  }

  lemma {:induction false} BrokenOrOrderlyNext(window: int, s: State, e: Step)
    requires Possible(window, s, e)
    ensures IsBroken(s) ==> IsBroken(Next(s, e))
    ensures Orderly(s) && !ClearsItself(s, e) ==> Orderly(Next(s, e))
    ensures Orderly(s) && ClearsItself(s, e) ==> IsBroken(Next(s, e))
  {
    if k :| Lifecycle(s.log, k) == Broken {
      BrokenStays(s, e, k);
    }
    if Orderly(s) {
      if !e.Record? {
        OthersKeepOrder(s, e);
      } else {
        FireKeepsOrderIff(s, e.key, e.now, e.victim);
        if ClearsItself(s, e) {
          OverflowLog(s, e.key, e.victim, Next(s, e).log, e.key);
        }
      }
    }
  }

  /** A run that once cleared the alert it recorded has a broken log ever after; any other is orderly. */
  lemma {:induction false} OrderlyOrBroken(window: int, steps: seq<Step>)
    requires AllPossible(window, steps)
    ensures NeverClearsItself(steps) ==> Orderly(Run(steps))
    ensures !NeverClearsItself(steps) ==> IsBroken(Run(steps))
  {
    if steps != [] {
      var init := steps[..|steps| - 1];
      OrderlyOrBroken(window, init);
      NeverClearsInit(steps);
      BrokenOrOrderlyNext(window, Run(init), steps[|steps| - 1]);
    }
  }

  /** Over whole runs: the logs are orderly exactly when no overflow ever cleared the alert it recorded. */
  lemma {:induction false} RunOrderlyIff(window: int, steps: seq<Step>)
    requires AllPossible(window, steps)
    ensures Orderly(Run(steps)) <==> NeverClearsItself(steps)
  {
    OrderlyOrBroken(window, steps);
  }

  /** `n` alerts with different keys, all fired at one moment. */
  function Burst(n: nat): seq<Step> {
    if n == 0 then [] else Burst(n - 1) + [Record(n - 1, 0, 0)]
  }

  /** There are `n` alerts with keys below `n`, all fired at one moment. */
  ghost predicate Full(active: map<Key, Alert>, n: nat) {
    |active.Keys| == n && forall k :: k in active.Keys ==> k < n && active[k].lastFired == 0
  }

  lemma {:induction false} FullNext(active: map<Key, Alert>, n: nat)
    requires Full(active, n)
    ensures n !in active && Full(Bump(active, n, 0), n + 1)
  {
    assert n !in active.Keys;
    assert Bump(active, n, 0) == active[n := Alert(0, 1, false)];
    assert Bump(active, n, 0).Keys == active.Keys + {n};
  }

  lemma {:induction false} BurstFills(window: int, n: nat, steps: seq<Step>)
    requires n <= REGISTRY_CAP && steps == Burst(n)
    ensures AllPossible(window, steps) && Orderly(Run(steps)) && Full(Run(steps).active, n)
  {
    if n > 0 {
      var init := Burst(n - 1);
      BurstFills(window, n - 1, init);
      assert steps[..|steps| - 1] == init;
      FullNext(Run(init).active, n - 1);
      NewKeepsOrder(Run(init), n - 1, 0, 0);
    }
  }

  /**
   A run that breaks the order: a thousand alerts of one moment, then one more of the same moment,
   which is cleared before it is reported.
   */
  lemma {:induction false} TieRun(window: int, steps: seq<Step>)
    requires steps == Burst(REGISTRY_CAP) + [Record(REGISTRY_CAP, 0, REGISTRY_CAP)]
    ensures AllPossible(window, steps) && !Orderly(Run(steps))
  {
    var full := Burst(REGISTRY_CAP);
    BurstFills(window, REGISTRY_CAP, full);
    assert steps[..|steps| - 1] == full;
    TieBreaksOrder(Run(full), REGISTRY_CAP, 0);
  }

  /** Whether the key was acknowledged since it last became active. */
  predicate AckedSince(log: seq<Event>, key: Key) {
    log != [] &&
    (var e := log[|log| - 1]; if e.key == key then e.kind == Acked else AckedSince(log[..|log| - 1], key))
  }

  lemma {:induction false} AckedSinceSnoc(log: seq<Event>, e: Event, key: Key)
    ensures AckedSince(log + [e], key) == if e.key == key then e.kind == Acked else AckedSince(log, key)
  {
    assert (log + [e])[..|log|] == log;
  }

  ghost predicate AcksAgree(s: State) {
    forall k :: k in s.active ==> s.active[k].acked == AckedSince(s.log, k)
  }

  lemma {:induction false} FireKeepsAcks(s: State, key: Key, now: int, victim: Key)
    requires AcksAgree(s)
    ensures AcksAgree(Fire(s, key, now, victim))
  {
    if key !in s.active {
      var mid := if Overflows(s, key) then s.log + [Event(Cleared, victim)] else s.log;
      assert Fire(s, key, now, victim).log == mid + [Event(Fired, key)];
      forall k { AckedSinceSnoc(s.log, Event(Cleared, victim), k); }
      forall k { AckedSinceSnoc(mid, Event(Fired, key), k); }
    }
  }

  /** An acknowledgement sticks, through any number of fires, until the alert clears. */
  lemma {:induction false} AcksStick(steps: seq<Step>)
    ensures AcksAgree(Run(steps))
  {
    if steps != [] {
      var init, e := steps[..|steps| - 1], steps[|steps| - 1];
      AcksStick(init);
      if e.Record? {
        FireKeepsAcks(Run(init), e.key, e.now, e.victim);
      } else {
        forall k { AckedSinceSnoc(Run(init).log, Event(if e.Ack? then Acked else Cleared, e.key), k); }
      }
    }
  }

  /** An acknowledgement marks an active alert, writes to the log and changes nothing else. */
  lemma {:induction false} AckMarks(steps: seq<Step>, key: Key)
    ensures var s, t := Run(steps), Run(steps + [Ack(key)]);
            && t.active.Keys == s.active.Keys && (key in s.active ==> t.active[key] == s.active[key].(acked := true))
            && (forall k :: k in s.active && k != key ==> t.active[k] == s.active[k])
            && t.log == if key in s.active then s.log + [Event(Acked, key)] else s.log
  {
    assert (steps + [Ack(key)])[..|steps|] == steps;
  }

  /** How often the alert was fired since it last became active. */
  function FiresSince(steps: seq<Step>, key: Key): nat {
    if steps == [] || key !in Run(steps).active then 0
    else FiresSince(steps[..|steps| - 1], key) + (if steps[|steps| - 1].Record? && steps[|steps| - 1].key == key then 1 else 0)
  }

  /** When the alert was last fired, if it ever was. */
  function LastFire(steps: seq<Step>, key: Key): int {
    if steps == [] then 0
    else if steps[|steps| - 1].Record? && steps[|steps| - 1].key == key then steps[|steps| - 1].now
    else LastFire(steps[..|steps| - 1], key)
  }

  lemma {:induction false} StepCounts(s: State, e: Step, key: Key)
    requires key in Next(s, e).active
    ensures var a := Next(s, e).active[key];
            if e.Record? && e.key == key
            then a.lastFired == e.now && a.count == (if key in s.active then s.active[key].count else 0) + 1
            else key in s.active && a.lastFired == s.active[key].lastFired && a.count == s.active[key].count
  {
  }

  /** In every run an active alert carries the number of its fires since it became active and the time of the last. */
  lemma {:induction false} AlertsCountFires(steps: seq<Step>, key: Key)
    requires key in Run(steps).active
    ensures Run(steps).active[key].count == FiresSince(steps, key) && Run(steps).active[key].lastFired == LastFire(steps, key)
  {
    var init, e := steps[..|steps| - 1], steps[|steps| - 1];
    StepCounts(Run(init), e, key);
    if key in Run(init).active {
      AlertsCountFires(init, key);
    }
  }

  /** An alert can expire exactly when it is active and its last fire is a whole window ago; a later fire saves it. */
  lemma {:induction false} ExpiresIffSilent(window: int, steps: seq<Step>, key: Key, now: int)
    ensures Possible(window, Run(steps), Expire(key, now)) <==> key in Run(steps).active && now - LastFire(steps, key) >= window
  {
    if key in Run(steps).active {
      AlertsCountFires(steps, key);
    }
  }

  // ---------------------------------------------------------------------------
  // The manager
  // ---------------------------------------------------------------------------

  class AlertManager {
    const window: int
    var active: map<Key, Alert>
    var history: seq<Event>
    var firedByRule: map<nat, nat>
    ghost var log: seq<Event>

    ghost predicate Valid()
      reads this
    {
      history == LastN(log, HISTORY_CAP) && |active.Keys| <= REGISTRY_CAP
    }

    ghost function View(): State
      reads this
    {
      State(active, log)
    }

    constructor (window: int)
      ensures Valid() && View() == EMPTY && this.window == window && firedByRule == map[]
    {
      this.window := window;
      active, history, firedByRule, log := map[], [], map[], [];
    }

    method AppendHistory(e: Event)
      requires history == LastN(log, HISTORY_CAP)
      modifies this`history, this`log
      ensures history == LastN(log, HISTORY_CAP) && log == old(log) + [e]
    {
      LastNStep(log, e, HISTORY_CAP);
      log := log + [e];
      history := history + [e];
      if |history| > HISTORY_CAP {
        history := history[|history| - HISTORY_CAP..];
      }
    }

    /** An alert no other active one was fired before. */
    method FindLeastRecent() returns (v: Key)
      requires active != map[]
      ensures LeastRecent(active, v)
    {
      v :| v in active;
      var todo := active.Keys;
      while todo != {}
        invariant v in active && todo <= active.Keys
        invariant forall k :: k in active && k !in todo ==> active[v].lastFired <= active[k].lastFired
        decreases |todo|
      {
        var k :| k in todo;
        if active[k].lastFired < active[v].lastFired {
          v := k;
        }
        todo := todo - {k};
      }
    }

    /** Registers a fire; a new alert beyond the cap makes a least recently fired one clear first. */
    method Record(rule: nat, key: Key, now: int) returns (victim: Key)
      requires Valid()
      modifies this
      ensures Valid() && (old(Overflows(View(), key)) ==> LeastRecent(Bump(old(active), key, now), victim))
      ensures View() == Fire(old(View()), key, now, victim)
      ensures firedByRule == old(firedByRule)[rule := (if rule in old(firedByRule) then old(firedByRule)[rule] else 0) + 1]
    {
      firedByRule := firedByRule[rule := (if rule in firedByRule then firedByRule[rule] else 0) + 1];
      var isNew := key !in active;
      ghost var before := View();
      ghost var was := active.Keys;
      victim := key;
      active := Bump(active, key, now);
      assert active.Keys == was + {key};
      if |active.Keys| > REGISTRY_CAP {
        victim := FindLeastRecent();
        ghost var all := active.Keys;
        active := active - {victim};
        assert active.Keys == all - {victim};
        AppendHistory(Event(Cleared, victim));
      }
      if isNew {
        AppendHistory(Event(Fired, key));
      } else {
        assert active.Keys == was;
      }
      assert View() == Fire(before, key, now, victim);
    }

    method Ack(key: Key) returns (ok: bool)
      requires Valid()
      modifies this
      ensures Valid() && (ok <==> key in old(active)) && View() == Acknowledge(old(View()), key)
      ensures firedByRule == old(firedByRule)
    {
      ok := key in active;
      if ok {
        ghost var was := active.Keys;
        active := active[key := active[key].(acked := true)];
        assert active.Keys == was;
        AppendHistory(Event(Acked, key));
      }
    }

    /** Clears one active alert. */
    method ClearAlert(key: Key)
      requires Valid() && key in active
      modifies this`active, this`history, this`log
      ensures Valid() && View() == Clear(old(View()), key)
    {
      ghost var was := active.Keys;
      active := active - {key};
      assert active.Keys == was - {key};
      AppendHistory(Event(Cleared, key));
    }

    /** Clears exactly the alerts that have been silent for a whole window, one event each, in any order. */
    method Sweep(now: int)
      requires Valid()
      modifies this`active, this`history, this`log
      ensures Valid()
      ensures forall k :: k in active <==> k in old(active) && now - old(active)[k].lastFired < window
      ensures forall k :: k in active ==> active[k] == old(active)[k]
      ensures old(Orderly(View())) ==> Orderly(View())
    {
      var todo := active.Keys;
      while todo != {}
        invariant Valid() && todo <= old(active).Keys
        invariant forall k :: k in active <==> k in old(active) && (k in todo || now - old(active)[k].lastFired < window)
        invariant forall k :: k in active ==> active[k] == old(active)[k]
        invariant old(Orderly(View())) ==> Orderly(View())
        decreases |todo|
      {
        var k :| k in todo;
        if now - active[k].lastFired >= window {
          if old(Orderly(View())) {
            OthersKeepOrder(View(), Expire(k, now));
          }
          ClearAlert(k);
        }
        todo := todo - {k};
      }
    }
  }
}
