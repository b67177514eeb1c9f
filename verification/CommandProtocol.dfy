/**
 Command execution across all listeners and workers, as atomic steps: listeners take commands off
 their channels, wait for one of a limited number of slots, and hand the command to a worker that
 writes it with retries. Every command ever taken is accounted for at every step of every run.
 */
module CommandProtocol {
  import opened Common
  import opened History

  type Id = nat

  datatype Config = Config(slots: nat, retries: nat, maxDead: nat)

  datatype End = Succeeded | Forwarded | DeadLettered | Abandoned

  /** Where a taken command is; `tries` counts its device writes so far. */
  datatype Phase =
    | Held(listener: nat)
    | Running(tries: nat)
    | BackingOff(tries: nat)
    | Ended(end: End, tries: nat)

  datatype Listener = Idle | Holding(id: Id) | Draining | Exited

  datatype State = State(
    listeners: seq<Listener>, phase: map<Id, Phase>, busy: nat,
    deadLog: seq<Id>, deadQueue: seq<Id>, auditLog: seq<Id>)

  datatype Verdict = Accepted | Permanent | Transient

  datatype Event =
    | Take(l: nat, id: Id)
    | Acquire(l: nat)
    | Cancel(l: nat)
    | Drain(l: nat, id: Id)
    | Exit(l: nat)
    | Forward(id: Id, ok: bool)
    | Attempt(id: Id, verdict: Verdict)
    | Resume(id: Id)
    | Shutdown(id: Id)

  // ---------------------------------------------------------------------------
  // Steps
  // ---------------------------------------------------------------------------

  predicate Listens(s: State, l: nat, how: Listener) {
    l < |s.listeners| && s.listeners[l] == how
  }

  function SetPhase(s: State, id: Id, p: Phase): State {
    s.(phase := s.phase[id := p])
  }

  /** A dead letter: queued, and counted for good. */
  function Bury(c: Config, s: State, id: Id, tries: nat): State {
    SetPhase(s, id, Ended(DeadLettered, tries)).(deadLog := s.deadLog + [id], deadQueue := LastN(s.deadQueue + [id], c.maxDead))
  }

  /** The worker of a command finishes and gives its slot back. */
  function Release(s: State): State {
    s.(busy := if s.busy > 0 then s.busy - 1 else 0)
  }

  /** One step; a step that is not possible in this state changes nothing. */
  function Next(c: Config, s: State, e: Event): State {
    match e
    case Take(l, id) =>
      if Listens(s, l, Idle) && id !in s.phase
      then SetPhase(s, id, Held(l)).(listeners := s.listeners[l := Holding(id)])
      else s
    case Acquire(l) =>
      if l < |s.listeners| && s.listeners[l].Holding? && s.busy < c.slots
      then SetPhase(s, s.listeners[l].id, Running(0)).(listeners := s.listeners[l := Idle], busy := s.busy + 1)
      else s
    case Cancel(l) =>
      if Listens(s, l, Idle) then s.(listeners := s.listeners[l := Draining])
      else if l < |s.listeners| && s.listeners[l].Holding?
      then Bury(c, s, s.listeners[l].id, 0).(listeners := s.listeners[l := Draining])
      else s
    case Drain(l, id) =>
      if Listens(s, l, Draining) && id !in s.phase then Bury(c, s, id, 0) else s
    case Exit(l) =>
      if Listens(s, l, Draining) then s.(listeners := s.listeners[l := Exited]) else s
    case Forward(id, ok) =>
      if id in s.phase && s.phase[id] == Running(0)
      then Release(if ok then SetPhase(s, id, Ended(Forwarded, 0)) else Bury(c, s, id, 0))
      else s
    case Attempt(id, verdict) =>
      if id in s.phase && s.phase[id].Running? then AfterWrite(c, s.(auditLog := s.auditLog + [id]), id, s.phase[id].tries + 1, verdict)
      else s
    case Resume(id) =>
      if id in s.phase && s.phase[id].BackingOff? then SetPhase(s, id, Running(s.phase[id].tries)) else s
    case Shutdown(id) =>
      if id in s.phase && s.phase[id].BackingOff? then Release(SetPhase(s, id, Ended(Abandoned, s.phase[id].tries))) else s
  }

  /** What the worker does with the result of its `tries`-th write. */
  function AfterWrite(c: Config, s: State, id: Id, tries: nat, verdict: Verdict): State {
    match verdict
    case Accepted => Release(SetPhase(s, id, Ended(Succeeded, tries)))
    case Permanent => Release(Bury(c, s, id, tries))
    case Transient =>
      if tries < c.retries + 1 then SetPhase(s, id, BackingOff(tries)) else Release(Bury(c, s, id, tries))
  }

  function Start(listeners: nat): State {
    State(seq(listeners, i => Idle), map[], 0, [], [], [])
  }

  function Run(c: Config, s: State, events: seq<Event>): State {
    if events == [] then s else Next(c, Run(c, s, events[..|events| - 1]), events[|events| - 1])
  }

  // ---------------------------------------------------------------------------
  // Invariant
  // ---------------------------------------------------------------------------

  predicate Active(p: Phase) { p.Running? || p.BackingOff? }

  /** The commands that occupy a slot. */
  ghost function Workers(s: State): set<Id> {
    set id | id in s.phase && Active(s.phase[id])
  }

  /** Every held command is held by one listener, and every holding listener's command is held. */
  ghost predicate HoldersAgree(s: State) {
    && (forall id :: id in s.phase && s.phase[id].Held? ==> Listens(s, s.phase[id].listener, Holding(id)))
    && (forall l :: 0 <= l < |s.listeners| && s.listeners[l].Holding? ==>
          s.listeners[l].id in s.phase && s.phase[s.listeners[l].id] == Held(l))
  }

  ghost predicate SlotsKept(c: Config, s: State) {
    s.busy == |Workers(s)| && s.busy <= c.slots
  }

  function Tries(p: Phase): nat {
    if p.Held? then 0 else p.tries
  }

  /** How far each kind of phase can have got. */
  predicate PhaseOk(c: Config, p: Phase) {
    match p
    case Held(_) => true
    case Running(t) => t <= c.retries
    case BackingOff(t) => 1 <= t <= c.retries
    case Ended(Succeeded, t) => 1 <= t <= c.retries + 1
    case Ended(Forwarded, t) => t == 0
    case Ended(DeadLettered, t) => t <= c.retries + 1
    case Ended(Abandoned, t) => 1 <= t <= c.retries
  }

  predicate IsDead(p: Phase) { p.Ended? && p.end == DeadLettered }

  /** The logs hold one dead letter per dead-lettered command and one audit entry per write. */
  ghost predicate LogsAgree(c: Config, s: State) {
    && (forall id :: id in s.phase ==> PhaseOk(c, s.phase[id]))
    && (forall id :: multiset(s.deadLog)[id] == if id in s.phase && IsDead(s.phase[id]) then 1 else 0)
    && (forall id :: multiset(s.auditLog)[id] == if id in s.phase then Tries(s.phase[id]) else 0)
    && s.deadQueue == LastN(s.deadLog, c.maxDead)
  }

  ghost predicate Inv(c: Config, s: State) {
    HoldersAgree(s) && SlotsKept(c, s) && LogsAgree(c, s)
  }

  // ---------------------------------------------------------------------------
  // Every step moves at most one command from one phase to another
  // ---------------------------------------------------------------------------

  function PhaseOf(s: State, id: Id): Phase {
    if id in s.phase then s.phase[id] else Held(0)
  }

  /** Command `id` goes to phase `p`, with one more write if `wrote`, and the books follow. */
  ghost predicate Moves(c: Config, s: State, s': State, id: Id, p: Phase, wrote: bool) {
    && s'.phase == s.phase[id := p]
    && s'.busy + (if Active(PhaseOf(s, id)) then 1 else 0) == s.busy + (if Active(p) then 1 else 0)
    && s'.auditLog == (if wrote then s.auditLog + [id] else s.auditLog)
    && s'.deadLog == (if IsDead(p) then s.deadLog + [id] else s.deadLog)
    && s'.deadQueue == (if IsDead(p) then LastN(s.deadQueue + [id], c.maxDead) else s.deadQueue)
  }

  /** What makes a move legal. */
  predicate MoveOk(c: Config, s: State, id: Id, p: Phase, wrote: bool) {
    && !PhaseOf(s, id).Ended? && PhaseOk(c, p)
    && Tries(p) == Tries(PhaseOf(s, id)) + (if wrote then 1 else 0)
    && (Active(p) && !Active(PhaseOf(s, id)) ==> s.busy < c.slots)
  }

  ghost predicate Still(s: State, s': State) {
    s'.phase == s.phase && s'.busy == s.busy && s'.auditLog == s.auditLog && s'.deadLog == s.deadLog && s'.deadQueue == s.deadQueue
  }

  /** The command an event is about, and the phase it ends up in. */
  function Target(s: State, e: Event): Id {
    match e
    case Acquire(l) => if l < |s.listeners| && s.listeners[l].Holding? then s.listeners[l].id else 0
    case Cancel(l) => if l < |s.listeners| && s.listeners[l].Holding? then s.listeners[l].id else 0
    case Exit(_) => 0
    case _ => e.id
  }

  ghost predicate Step(c: Config, s: State, s': State, id: Id, wrote: bool) {
    Still(s, s') || (id in s'.phase && Moves(c, s, s', id, s'.phase[id], wrote) && MoveOk(c, s, id, s'.phase[id], wrote))
  }

  /** A listener's own steps, given that what it holds is a held command. */
  lemma {:induction false} ListenerStep(c: Config, s: State, e: Event)
    requires e.Take? || e.Drain? || e.Exit?
    ensures Step(c, s, Next(c, s, e), Target(s, e), false)
  {
  }

  lemma {:induction false} HolderStep(c: Config, s: State, e: Event)
    requires e.Acquire? || e.Cancel?
    requires e.l < |s.listeners| && s.listeners[e.l].Holding? ==>
               s.listeners[e.l].id in s.phase && s.phase[s.listeners[e.l].id] == Held(e.l)
    ensures Step(c, s, Next(c, s, e), Target(s, e), false)
  {
  }

  lemma {:induction false} WriteStep(c: Config, s: State, id: Id, verdict: Verdict)
    requires id in s.phase && s.phase[id].Running? && PhaseOk(c, s.phase[id]) && s.busy > 0
    ensures Step(c, s, Next(c, s, Attempt(id, verdict)), id, true)
  {
  }

  lemma {:induction false} OtherWorkerStep(c: Config, s: State, e: Event)
    requires e.Forward? || e.Resume? || e.Shutdown?
    requires e.id in s.phase && Active(s.phase[e.id]) && PhaseOk(c, s.phase[e.id]) && s.busy > 0
    ensures Step(c, s, Next(c, s, e), e.id, false)
  {
  }

  /** A running command occupies a slot. */
  lemma {:induction false} WorkerHasSlot(c: Config, s: State, id: Id)
    requires Inv(c, s) && id in s.phase && Active(s.phase[id])
    ensures s.busy > 0 && PhaseOk(c, s.phase[id])
  {
    assert id in Workers(s);
  }

  lemma {:induction false} EveryStep(c: Config, s: State, e: Event)
    requires Inv(c, s)
    ensures Step(c, s, Next(c, s, e), Target(s, e), e.Attempt?)
  {
    if e.Take? || e.Drain? || e.Exit? {
      ListenerStep(c, s, e);
    } else if e.Acquire? || e.Cancel? {
      HolderStep(c, s, e);
    } else if e.id in s.phase && Active(s.phase[e.id]) {
      WorkerHasSlot(c, s, e.id);
      if e.Attempt? && s.phase[e.id].Running? {
        WriteStep(c, s, e.id, e.verdict);
      } else if !e.Attempt? {
        OtherWorkerStep(c, s, e);
      }
    }
  }

  /** Taking on a worker, keeping one, or letting one go changes the workers by just that one. */
  lemma {:induction false} WorkersStep(s: State, s': State, id: Id, p: Phase)
    requires s'.phase == s.phase[id := p]
    ensures Workers(s') == if Active(p) then Workers(s) + {id} else Workers(s) - {id}
  {
  }

  lemma {:induction false} StepKeepsSlots(c: Config, s: State, s': State, id: Id, wrote: bool)
    requires SlotsKept(c, s) && Step(c, s, s', id, wrote)
    ensures SlotsKept(c, s')
  {
    if Still(s, s') {
      assert Workers(s') == Workers(s);
    } else {
      WorkersStep(s, s', id, s'.phase[id]);
    }
  }

  lemma {:induction false} StepKeepsCounts(c: Config, s: State, s': State, id: Id, wrote: bool, x: Id)
    requires id in s'.phase && LogsAgree(c, s) && Moves(c, s, s', id, s'.phase[id], wrote) && MoveOk(c, s, id, s'.phase[id], wrote)
    ensures multiset(s'.deadLog)[x] == if x in s'.phase && IsDead(s'.phase[x]) then 1 else 0
    ensures multiset(s'.auditLog)[x] == if x in s'.phase then Tries(s'.phase[x]) else 0
  {
  }

  lemma {:induction false} StepKeepsLogs(c: Config, s: State, s': State, id: Id, wrote: bool)
    requires LogsAgree(c, s) && Step(c, s, s', id, wrote)
    ensures LogsAgree(c, s')
  {
    if !Still(s, s') {
      LastNStep(s.deadLog, id, c.maxDead);
      forall x {
        StepKeepsCounts(c, s, s', id, wrote, x);
      }
    }
  }

  lemma {:induction false} ListenersKeepHolders(c: Config, s: State, e: Event)
    requires HoldersAgree(s) && (e.Take? || e.Acquire? || e.Cancel? || e.Drain? || e.Exit?)
    ensures HoldersAgree(Next(c, s, e))
  {
  }

  lemma {:induction false} NextKeepsHolders(c: Config, s: State, e: Event)
    requires HoldersAgree(s) && Step(c, s, Next(c, s, e), Target(s, e), e.Attempt?)
    ensures HoldersAgree(Next(c, s, e))
  {
    if e.Take? || e.Acquire? || e.Cancel? || e.Drain? || e.Exit? {
      ListenersKeepHolders(c, s, e);
    } else {
      WorkersLeaveListeners(c, s, e);
    }
  }

  lemma {:induction false} WorkersLeaveListeners(c: Config, s: State, e: Event)
    requires e.Forward? || e.Attempt? || e.Resume? || e.Shutdown?
    ensures Next(c, s, e).listeners == s.listeners
    ensures Next(c, s, e).phase == s.phase ||
            (e.id in s.phase && Active(s.phase[e.id]) && e.id in Next(c, s, e).phase && !Next(c, s, e).phase[e.id].Held? &&
             Next(c, s, e).phase == s.phase[e.id := Next(c, s, e).phase[e.id]])
  {
  }

  lemma {:induction false} NextKeepsInv(c: Config, s: State, e: Event)
    requires Inv(c, s)
    ensures Inv(c, Next(c, s, e))
  {
    var s' := Next(c, s, e);
    EveryStep(c, s, e);
    StepKeepsSlots(c, s, s', Target(s, e), e.Attempt?);
    StepKeepsLogs(c, s, s', Target(s, e), e.Attempt?);
    NextKeepsHolders(c, s, e);
  }

  lemma {:induction false} RunKeepsInv(c: Config, n: nat, events: seq<Event>)
    ensures Inv(c, Run(c, Start(n), events))
  {
    if events == [] {
      assert Workers(Start(n)) == {};
    } else {
      RunKeepsInv(c, n, events[..|events| - 1]);
      NextKeepsInv(c, Run(c, Start(n), events[..|events| - 1]), events[|events| - 1]);
    }
  }

  // ---------------------------------------------------------------------------
  // Whole runs
  // ---------------------------------------------------------------------------

  /**
   In every run: never more commands in execution than slots; each command was written at most
   `retries + 1` times, with one audit entry per write; it has one dead letter if that is how it
   ended and none otherwise; and the dead-letter queue is the newest part of all dead letters.
   */
  lemma {:induction false} CommandsAccountedFor(c: Config, n: nat, events: seq<Event>, id: Id)
    ensures var s := Run(c, Start(n), events);
            && |Workers(s)| <= c.slots
            && multiset(s.auditLog)[id] <= c.retries + 1
            && multiset(s.deadLog)[id] == (if id in s.phase && s.phase[id].Ended? && s.phase[id].end == DeadLettered then 1 else 0)
            && (id in s.phase && s.phase[id].Ended? ==> multiset(s.auditLog)[id] == s.phase[id].tries)
            && (id !in s.phase ==> multiset(s.auditLog)[id] == 0)
            && s.deadQueue == LastN(s.deadLog, c.maxDead)
  {
    RunKeepsInv(c, n, events);
    var s := Run(c, Start(n), events);
    if id in s.phase {
      assert PhaseOk(c, s.phase[id]);
    }
  }

  /** Once no listener holds a command and no slot is in use, every command taken has ended. */
  lemma {:induction false} NothingVanishes(c: Config, n: nat, events: seq<Event>, id: Id)
    requires var s := Run(c, Start(n), events);
             id in s.phase && s.busy == 0 && forall l :: 0 <= l < |s.listeners| ==> !s.listeners[l].Holding?
    ensures Run(c, Start(n), events).phase[id].Ended?
  {
    RunKeepsInv(c, n, events);
    var s := Run(c, Start(n), events);
    assert id !in Workers(s);
  }

  lemma {:induction false} EndIsKept(c: Config, s: State, s': State, id: Id, wrote: bool, x: Id)
    requires Step(c, s, s', id, wrote) && x in s.phase
    ensures x in s'.phase && (s.phase[x].Ended? ==> s'.phase[x] == s.phase[x])
  {
  }

  lemma {:induction false} RunSnoc(c: Config, s: State, events: seq<Event>, e: Event)
    ensures Run(c, s, events + [e]) == Next(c, Run(c, s, events), e)
  {
    assert (events + [e])[..|events|] == events;
  }

  lemma {:induction false} CancelStep(c: Config, s: State, l: nat, id: Id)
    requires l < |s.listeners| && s.listeners[l] == Holding(id)
    ensures var t := Next(c, s, Cancel(l));
            && t.listeners == s.listeners[l := Draining] && id in t.phase && t.phase[id] == Ended(DeadLettered, 0)
            && t.deadLog == s.deadLog + [id]
  {
  }

  lemma {:induction false} DrainStep(c: Config, s: State, l: nat, id: Id)
    requires l < |s.listeners| && s.listeners[l] == Draining && id !in s.phase
    ensures var t := Next(c, s, Drain(l, id));
            t.listeners == s.listeners && id in t.phase && t.phase[id] == Ended(DeadLettered, 0) && t.deadLog == s.deadLog + [id]
  {
  }

  /** In every run, a command held when its listener is cancelled, and one found in the channel then, has a dead letter. */
  lemma {:induction false} CancelBuries(c: Config, n: nat, events: seq<Event>, l: nat, id: Id, s: State, e: Event, t: State)
    requires s == Run(c, Start(n), events) && l < |s.listeners| && t == Run(c, Start(n), events + [e])
    requires (e == Cancel(l) && s.listeners[l] == Holding(id)) || (e == Drain(l, id) && s.listeners[l] == Draining && id !in s.phase)
    ensures t.listeners == s.listeners[l := Draining]
    ensures id in t.phase && t.phase[id] == Ended(DeadLettered, 0) && t.deadLog == s.deadLog + [id]
  {
    RunSnoc(c, Start(n), events, e);
    if e.Cancel? {
      CancelStep(c, s, l, id);
    } else {
      DrainStep(c, s, l, id);
    }
  }

  /** An idle listener that is cancelled drains its channel, and then exits. */
  lemma {:induction false} CancelledExits(c: Config, n: nat, events: seq<Event>, l: nat, s: State)
    requires s == Run(c, Start(n), events) && l < |s.listeners|
    ensures s.listeners[l] == Idle ==> Run(c, Start(n), events + [Cancel(l)]) == s.(listeners := s.listeners[l := Draining])
    ensures s.listeners[l] == Draining ==> Run(c, Start(n), events + [Exit(l)]) == s.(listeners := s.listeners[l := Exited])
  {
    RunSnoc(c, Start(n), events, Cancel(l));
    RunSnoc(c, Start(n), events, Exit(l));
  }

  /** An idle listener takes a command, and with a slot free the command runs and the listener is idle again. */
  lemma {:induction false} TakenRuns(c: Config, n: nat, events: seq<Event>, l: nat, id: Id, s: State)
    requires s == Run(c, Start(n), events) && Listens(s, l, Idle) && id !in s.phase
    ensures var held := Run(c, Start(n), events + [Take(l, id)]);
            id in held.phase && held.phase[id] == Held(l) && held.listeners[l] == Holding(id)
    ensures var t := Run(c, Start(n), events + [Take(l, id)] + [Acquire(l)]);
            s.busy < c.slots ==> id in t.phase && t.phase[id] == Running(0) && t.listeners[l] == Idle && t.busy == s.busy + 1
  {
    RunSnoc(c, Start(n), events, Take(l, id));
    RunSnoc(c, Start(n), events + [Take(l, id)], Acquire(l));
  }

  /** `now` is what has become of a command that was in phase `was`. */
  predicate FollowsFrom(was: Phase, s: State, id: Id) {
    id in s.phase && (was.Ended? ==> s.phase[id] == was)
  }

  lemma {:induction false} NextFollows(c: Config, s: State, e: Event, was: Phase, id: Id)
    requires Inv(c, s) && FollowsFrom(was, s, id)
    ensures FollowsFrom(was, Next(c, s, e), id)
  {
    EveryStep(c, s, e);
    EndIsKept(c, s, Next(c, s, e), Target(s, e), e.Attempt?, id);
  }

  /** How a command ended never changes, and no command already taken is forgotten. */
  lemma {:induction false} EndIsFinal(c: Config, n: nat, events: seq<Event>, more: seq<Event>, id: Id)
    requires id in Run(c, Start(n), events).phase
    ensures FollowsFrom(Run(c, Start(n), events).phase[id], Run(c, Start(n), events + more), id)
    decreases |more|
  {
    if more == [] {
      assert events + more == events;
    } else {
      var init, e := more[..|more| - 1], more[|more| - 1];
      EndIsFinal(c, n, events, init, id);
      SplitLast(events, more);
      RunSnoc(c, Start(n), events + init, e);
      RunKeepsInv(c, n, events + init);
      NextFollows(c, Run(c, Start(n), events + init), e, Run(c, Start(n), events).phase[id], id);
    }
  }
}
