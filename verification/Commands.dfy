/**
 The write manager: the single gate every write passes, the worker that executes one command with
 retries, and the listener's hand-over of stranded commands. Each method is a run of the protocol.
 */
module Commands {
  import opened Common
  import opened CommandProtocol
  import opened History

  const AUDIT_CAPACITY: nat := 1000

  /** An audit entry: which command, and whether the device accepted the write. */
  datatype Audit = Audit(id: Id, success: bool)

  datatype Dead = Dead(id: Id, attempts: nat)

  /** What a driver's write call comes back with; failures may be of the kind no retry can cure. */
  datatype Reply = DriverError(permanent: bool) | NoResult | Refused(permanent: bool) | Success

  /** What one write attempt meets: driver table, tag protection, clock, device. */
  datatype World = World(known: bool, readOnly: bool, now: nat, reply: Reply)

  /**
   Whether a failed write's message holds one of the patterns that mark a failure no retry can cure. An
   unknown driver's message and a pacing message quote the driver's name and nothing else of note, so
   they do exactly when the name does: `marked`.
   */
  predicate Hopeless(w: World, paced: bool, marked: bool) {
    if !w.known then marked
    else w.readOnly || (if paced then marked else (w.reply.DriverError? || w.reply.Refused?) && w.reply.permanent)
  }

  /** Whether the device is asked and accepts. */
  predicate Succeeds(w: World, paced: bool) {
    w.known && !w.readOnly && !paced && w.reply == Success
  }

  /** What each attempt comes to, met with the driver's clock as it is. */
  function Judge(w: World, paced: bool, marked: bool): Verdict {
    if Succeeds(w, paced) then Accepted else if Hopeless(w, paced, marked) then Permanent else Transient
  }

  predicate TooSoon(last: map<nat, nat>, interval: nat, driver: nat, now: nat) {
    interval > 0 && driver in last && now < last[driver] + interval
  }

  function Judged(worlds: seq<World>, last: map<nat, nat>, interval: nat, driver: nat, marked: bool): (vs: seq<Verdict>)
    ensures |vs| == |worlds|
  {
    seq(|worlds|, k requires 0 <= k < |worlds| => Judge(worlds[k], TooSoon(last, interval, driver, worlds[k].now), marked))
  }

  lemma {:induction false} JudgedAt(worlds: seq<World>, last: map<nat, nat>, interval: nat, driver: nat, marked: bool, k: nat)
    requires k < |worlds|
    ensures Judged(worlds, last, interval, driver, marked)[k] == Judge(worlds[k], TooSoon(last, interval, driver, worlds[k].now), marked)
  {
  }

  /**
   How attempt `k` settles the command: accepted, incurable or without a retry left, or interrupted by
   shutdown in the wait after it; a curable failure with retries left and the wait slept out does not.
   */
  function Settled(vs: seq<Verdict>, stop: seq<bool>, k: nat): Option<End>
    requires k <= |stop| < |vs|
  {
    if vs[k] == Accepted then Some(Succeeded)
    else if vs[k] == Permanent || k == |stop| then Some(DeadLettered)
    else if stop[k] then Some(Abandoned)
    else None
  }

  /** The command ends as `end` with its `tries`-th attempt, the first that settles it. */
  ghost predicate EndsAt(vs: seq<Verdict>, stop: seq<bool>, end: End, tries: nat)
    requires |vs| == |stop| + 1
  {
    1 <= tries <= |vs| && Settled(vs, stop, tries - 1) == Some(end) && Unsettled(vs, stop, tries - 1)
  }

  ghost predicate Unsettled(vs: seq<Verdict>, stop: seq<bool>, n: nat)
    requires n <= |stop| < |vs|
  {
    forall k :: 0 <= k < n ==> Settled(vs, stop, k) == None
  }

  lemma {:induction false} UnsettledStep(vs: seq<Verdict>, stop: seq<bool>, n: nat)
    requires n < |stop| < |vs| && Unsettled(vs, stop, n) && Settled(vs, stop, n) == None
    ensures Unsettled(vs, stop, n + 1)
  {
  }

  /** The audit entries of a command's first `n` attempts. */
  ghost function Written(id: Id, vs: seq<Verdict>, n: nat): (a: seq<Audit>)
    requires n <= |vs|
    ensures |a| == n
  {
    if n == 0 then [] else Written(id, vs, n - 1) + [Audit(id, vs[n - 1] == Accepted)]
  }

  lemma {:induction false} WrittenStep(trail: seq<Audit>, id: Id, vs: seq<Verdict>, n: nat)
    requires n < |vs|
    ensures trail + Written(id, vs, n) + [Audit(id, vs[n] == Accepted)] == trail + Written(id, vs, n + 1)
  {
    Regroup(trail, Written(id, vs, n), [Audit(id, vs[n] == Accepted)]);
  }

  lemma {:induction false} WrittenAt(id: Id, vs: seq<Verdict>, n: nat, k: nat)
    requires k < n <= |vs|
    ensures Written(id, vs, n)[k] == Audit(id, vs[k] == Accepted)
  {
    if k < n - 1 {
      WrittenAt(id, vs, n - 1, k);
    }
  }

  /** Of the attempts of a command only the last can have succeeded, and did just when the command did. */
  lemma {:induction false} OnlyLastSucceeds(id: Id, vs: seq<Verdict>, stop: seq<bool>, end: End, tries: nat, k: nat)
    requires |vs| == |stop| + 1 && EndsAt(vs, stop, end, tries) && k < tries
    ensures Written(id, vs, tries)[k].success <==> k == tries - 1 && end == Succeeded
  {
    WrittenAt(id, vs, tries, k);
    assert k < tries - 1 ==> Settled(vs, stop, k) == None;
  }

  /** There is at most one such place, so the attempts determine it. */
  lemma {:induction false} EndsOnce(vs: seq<Verdict>, stop: seq<bool>, end: End, tries: nat, end': End, tries': nat)
    requires |vs| == |stop| + 1 && EndsAt(vs, stop, end, tries) && EndsAt(vs, stop, end', tries')
    ensures end == end' && tries == tries'
  {
  }

  /** A command whose first write is paced ends there as a dead letter just when there are no retries or the name is marked. */
  lemma {:induction false} PacedEndsIff(worlds: seq<World>, stop: seq<bool>, last: map<nat, nat>, interval: nat, driver: nat, marked: bool,
                                        end: End, tries: nat)
    requires |worlds| == |stop| + 1 && worlds[0].known && !worlds[0].readOnly && TooSoon(last, interval, driver, worlds[0].now)
    requires EndsAt(Judged(worlds, last, interval, driver, marked), stop, end, tries)
    ensures end == DeadLettered && tries == 1 <==> stop == [] || marked
  {
    var vs := Judged(worlds, last, interval, driver, marked);
    JudgedAt(worlds, last, interval, driver, marked, 0);
    var first := Settled(vs, stop, 0);
    assert tries > 1 ==> first == None;
  }

  function AuditIds(trail: seq<Audit>): seq<Id> {
    if trail == [] then [] else AuditIds(trail[..|trail| - 1]) + [trail[|trail| - 1].id]
  }

  function DeadIds(dead: seq<Dead>): (ids: seq<Id>)
    ensures |ids| == |dead| && forall i :: 0 <= i < |ids| ==> ids[i] == dead[i].id
  {
    seq(|dead|, i requires 0 <= i < |dead| => dead[i].id)
  }

  lemma {:induction false} DeadIdsAppend(dead: seq<Dead>, d: Dead)
    ensures DeadIds(dead + [d]) == DeadIds(dead) + [d.id]
  {
  }

  /** Bounding the queue and looking at the ids can be done in either order. */
  lemma {:induction false} QueueShows(dead: seq<Dead>, d: Dead, n: nat)
    ensures DeadIds(LastN(dead + [d], n)) == LastN(DeadIds(LastN(dead, n)) + [d.id], n)
  {
  }

  lemma {:induction false} AuditIdsAppend(trail: seq<Audit>, a: Audit)
    ensures AuditIds(trail + [a]) == AuditIds(trail) + [a.id]
  {
  }

  // ---------------------------------------------------------------------------
  // Pacing
  // ---------------------------------------------------------------------------

  /** A write to a driver and what it meets. */
  datatype Try = Try(driver: nat, w: World)

  /** The clocks of the drivers after the write. */
  function ClockAfter(last: map<nat, nat>, interval: nat, marked: set<nat>, t: Try): map<nat, nat> {
    if interval > 0 && Judge(t.w, TooSoon(last, interval, t.driver, t.w.now), t.driver in marked) == Accepted
    then last[t.driver := t.w.now] else last
  }

  function Clocks(interval: nat, marked: set<nat>, ts: seq<Try>): map<nat, nat> {
    if ts == [] then map[] else ClockAfter(Clocks(interval, marked, ts[..|ts| - 1]), interval, marked, ts[|ts| - 1])
  }

  predicate PacedAt(interval: nat, marked: set<nat>, ts: seq<Try>, i: nat)
    requires i < |ts|
  {
    TooSoon(Clocks(interval, marked, ts[..i]), interval, ts[i].driver, ts[i].w.now)
  }

  predicate AcceptedAt(interval: nat, marked: set<nat>, ts: seq<Try>, i: nat)
    requires i < |ts|
  {
    Judge(ts[i].w, PacedAt(interval, marked, ts, i), ts[i].driver in marked) == Accepted
  }

  /** Time does not run backwards. */
  ghost predicate InTime(ts: seq<Try>) {
    forall i, j :: 0 <= i < j < |ts| ==> ts[i].w.now <= ts[j].w.now
  }

  lemma {:induction false} ClocksSnoc(interval: nat, marked: set<nat>, ts: seq<Try>, k: nat)
    requires k < |ts|
    ensures Clocks(interval, marked, ts[..k + 1]) == ClockAfter(Clocks(interval, marked, ts[..k]), interval, marked, ts[k])
  {
    assert ts[..k + 1][..k] == ts[..k];
  }

  /** A driver's clock is not behind any of its accepted writes. */
  lemma {:induction false} ClockNotBehind(interval: nat, marked: set<nat>, ts: seq<Try>, i: nat, k: nat)
    requires 0 < interval && InTime(ts) && i < k <= |ts| && AcceptedAt(interval, marked, ts, i)
    ensures var last := Clocks(interval, marked, ts[..k]); ts[i].driver in last && last[ts[i].driver] >= ts[i].w.now
  {
    ClocksSnoc(interval, marked, ts, k - 1);
    if i < k - 1 {
      ClockNotBehind(interval, marked, ts, i, k - 1);
    }
  }

  /** A driver's clock is the time of one of its accepted writes. */
  lemma {:induction false} ClockIsAccepted(interval: nat, marked: set<nat>, ts: seq<Try>, driver: nat, k: nat) returns (i: nat)
    requires k <= |ts| && driver in Clocks(interval, marked, ts[..k])
    ensures i < k && ts[i].driver == driver && AcceptedAt(interval, marked, ts, i)
    ensures ts[i].w.now == Clocks(interval, marked, ts[..k])[driver]
  {
    ClocksSnoc(interval, marked, ts, k - 1);
    if ts[k - 1].driver == driver && AcceptedAt(interval, marked, ts, k - 1) && interval > 0 {
      i := k - 1;
    } else {
      i := ClockIsAccepted(interval, marked, ts, driver, k - 1);
    }
  }

  /** In every run the accepted writes to a driver are at least the interval apart. */
  lemma {:induction false} AcceptedApart(interval: nat, marked: set<nat>, ts: seq<Try>, i: nat, j: nat)
    requires InTime(ts) && i < j < |ts| && ts[i].driver == ts[j].driver
    requires AcceptedAt(interval, marked, ts, i) && AcceptedAt(interval, marked, ts, j)
    ensures ts[i].w.now + interval <= ts[j].w.now
  {
    if interval > 0 {
      ClockNotBehind(interval, marked, ts, i, j);
    }
  }

  /** A write is paced exactly when an accepted write to its driver is less than the interval ago; a failed one does not count. */
  lemma {:induction false} PacedIff(interval: nat, marked: set<nat>, ts: seq<Try>, j: nat)
    requires InTime(ts) && j < |ts|
    ensures PacedAt(interval, marked, ts, j) <==>
            exists i :: 0 <= i < j && ts[i].driver == ts[j].driver && AcceptedAt(interval, marked, ts, i) && ts[j].w.now < ts[i].w.now + interval
  {
    if PacedAt(interval, marked, ts, j) {
      var i := ClockIsAccepted(interval, marked, ts, ts[j].driver, j);
    }
    if i :| 0 <= i < j && ts[i].driver == ts[j].driver && AcceptedAt(interval, marked, ts, i) && ts[j].w.now < ts[i].w.now + interval {
      ClockNotBehind(interval, marked, ts, i, j);
    }
  }

  /** Where the `t`-th attempt leaves its command. */
  ghost function AfterAttempt(c: Config, t: nat, verdict: Verdict): Phase {
    if verdict == Accepted then Ended(Succeeded, t)
    else if verdict == Permanent || t >= c.retries + 1 then Ended(DeadLettered, t)
    else BackingOff(t)
  }

  class WriteManager {
    const retries: nat
    const maxDead: nat
    const interval: nat
    /** The drivers whose names hold a pattern of the permanent failures. */
    const marked: set<nat>
    var audits: seq<Audit>
    var deadQueue: seq<Dead>
    var pushed: nat
    var lastWrite: map<nat, nat>
    ghost var trail: seq<Audit>
    ghost var deadLog: seq<Dead>

    /** The bounded histories are the newest part of the full ones. */
    ghost predicate Valid()
      reads this
    {
      audits == LastN(trail, AUDIT_CAPACITY) && deadQueue == LastN(deadLog, maxDead) && pushed == |deadLog|
    }

    constructor (retries: nat, maxDead: nat, interval: nat, marked: set<nat>)
      ensures Valid() && trail == [] && deadLog == [] && lastWrite == map[] && deadQueue == []
      ensures this.retries == retries && this.maxDead == maxDead && this.interval == interval && this.marked == marked
    {
      this.retries, this.maxDead, this.interval, this.marked := retries, maxDead, interval, marked;
      audits, deadQueue, pushed, lastWrite := [], [], 0, map[];
      trail, deadLog := [], [];
    }

    method RecordAudit(id: Id, success: bool)
      requires Valid()
      modifies this`audits, this`trail
      ensures Valid() && trail == old(trail) + [Audit(id, success)]
    {
      LastNStep(trail, Audit(id, success), AUDIT_CAPACITY);
      trail := trail + [Audit(id, success)];
      audits := audits + [Audit(id, success)];
      if |audits| > AUDIT_CAPACITY {
        audits := audits[|audits| - AUDIT_CAPACITY..];
      }
    }

    method AddDeadLetter(d: Dead)
      requires Valid()
      modifies this`deadQueue, this`deadLog, this`pushed
      ensures Valid() && deadLog == old(deadLog) + [d]
    {
      LastNStep(deadLog, d, maxDead);
      deadLog := deadLog + [d];
      deadQueue := deadQueue + [d];
      pushed := pushed + 1;
      if |deadQueue| > maxDead {
        deadQueue := deadQueue[|deadQueue| - maxDead..];
      }
    }

    /** Whether the driver's last accepted write is too recent. */
    predicate Paced(driver: nat, now: nat)
      reads this
    {
      TooSoon(lastWrite, interval, driver, now)
    }

    /**
     One write: exactly one audit entry whatever happens, marked successful just when the device
     accepted. A write is accepted only if its driver is known, its tag is writable and the last
     accepted one is far enough back; only an accepted write moves the driver's clock. It fails for
     good exactly when its message says so; a paced write does exactly when its driver's name does.
     */
    method WriteTag(id: Id, driver: nat, w: World) returns (verdict: Verdict)
      requires Valid()
      modifies this`audits, this`trail, this`lastWrite
      ensures Valid() && trail == old(trail) + [Audit(id, verdict == Accepted)]
      ensures verdict == Accepted <==> w.known && !w.readOnly && !old(Paced(driver, w.now)) && w.reply == Success
      ensures !w.known ==> verdict == if driver in marked then Permanent else Transient
      ensures w.known && w.readOnly ==> verdict == Permanent
      ensures w.known && !w.readOnly && old(Paced(driver, w.now)) ==> verdict == if driver in marked then Permanent else Transient
      ensures w.known && !w.readOnly && !old(Paced(driver, w.now)) && w.reply != Success ==>
                (verdict == Permanent <==> (w.reply.DriverError? || w.reply.Refused?) && w.reply.permanent)
      ensures verdict == Judge(w, old(Paced(driver, w.now)), driver in marked)
      ensures lastWrite == if verdict == Accepted && interval > 0 then old(lastWrite)[driver := w.now] else old(lastWrite)
      ensures lastWrite == ClockAfter(old(lastWrite), interval, marked, Try(driver, w))
    {
      verdict := Transient;
      if !w.known {
        RecordAudit(id, false);
        return if driver in marked then Permanent else Transient;
      }
      if w.readOnly {
        RecordAudit(id, false);
        return Permanent;
      }
      if Paced(driver, w.now) {
        RecordAudit(id, false);
        return if driver in marked then Permanent else Transient;
      }
      match w.reply {
        case DriverError(permanent) =>
          RecordAudit(id, false);
          verdict := if permanent then Permanent else Transient;
        case NoResult =>
          RecordAudit(id, false);
        case Refused(permanent) =>
          RecordAudit(id, false);
          verdict := if permanent then Permanent else Transient;
        case Success =>
          RecordAudit(id, true);
          if interval > 0 {
            lastWrite := lastWrite[driver := w.now];
          }
          verdict := Accepted;
      }
    }

    /** The protocol state that shows this manager's histories. */
    ghost predicate Shows(c: Config, s: State)
      reads this
    {
      && c.retries == retries && c.maxDead == maxDead
      && s.auditLog == AuditIds(trail) && s.deadLog == DeadIds(deadLog) && s.deadQueue == DeadIds(deadQueue)
    }

    /** Buries the command, in the manager and in the protocol. */
    method GiveUp(id: Id, tries: nat, attempts: nat, ghost c: Config, ghost s: State)
      requires Valid() && Shows(c, s)
      modifies this`deadQueue, this`deadLog, this`pushed
      ensures Valid() && Shows(c, Bury(c, s, id, tries)) && deadLog == old(deadLog) + [Dead(id, attempts)]
    {
      QueueShows(deadLog, Dead(id, attempts), maxDead);
      DeadIdsAppend(deadLog, Dead(id, attempts));
      AddDeadLetter(Dead(id, attempts));
    }

    method WriteAndShow(id: Id, driver: nat, w: World, ghost c: Config, ghost s: State) returns (verdict: Verdict)
      requires Valid() && Shows(c, s)
      modifies this`audits, this`trail, this`lastWrite
      ensures Valid() && Shows(c, s.(auditLog := s.auditLog + [id])) && trail == old(trail) + [Audit(id, verdict == Accepted)]
      ensures verdict == Judge(w, old(Paced(driver, w.now)), driver in marked)
      ensures verdict != Accepted ==> lastWrite == old(lastWrite)
    {
      verdict := WriteTag(id, driver, w);
      AuditIdsAppend(old(trail), Audit(id, verdict == Accepted));
    }

    /** One attempt, with the dead letter if it was the last. */
    method AttemptOnce(id: Id, driver: nat, w: World, tries: nat, ghost c: Config, ghost s: State) returns (verdict: Verdict)
      requires Valid() && Shows(c, s) && 1 <= tries <= retries + 1 && id in s.phase && s.phase[id] == Running(tries - 1)
      modifies this
      ensures Valid() && Shows(c, Next(c, s, Attempt(id, verdict))) && trail == old(trail) + [Audit(id, verdict == Accepted)]
      ensures verdict == Judge(w, old(Paced(driver, w.now)), driver in marked)
      ensures verdict != Accepted ==> lastWrite == old(lastWrite)
    {
      ghost var wrote := s.(auditLog := s.auditLog + [id]);
      verdict := WriteAndShow(id, driver, w, c, s);
      AttemptBooks(c, s, id, verdict);
      if verdict == Permanent || (verdict == Transient && tries == retries + 1) {
        GiveUp(id, tries, tries, c, wrote);
      }
    }

    /** A command without a local driver goes to another node or is buried. */
    method ForwardOrGiveUp(id: Id, forwarded: bool, ghost c: Config, ghost s: State) returns (end: End)
      requires Valid() && Shows(c, s) && id in s.phase && s.phase[id] == Running(0)
      modifies this
      ensures Valid() && Shows(c, Next(c, s, Forward(id, forwarded))) && trail == old(trail)
      ensures Next(c, s, Forward(id, forwarded)).phase == s.phase[id := Ended(end, 0)]
      ensures end == if forwarded then Forwarded else DeadLettered
    {
      if forwarded {
        end := Forwarded;
      } else {
        end := DeadLettered;
        GiveUp(id, 0, 1, c, s);
      }
    }

    /**
     One attempt and the wait after it, as a run on from `at`: it settles the command or leaves it
     running, and adds its audit entry to the earlier ones after `base`.
     */
    method AttemptAndWait(id: Id, driver: nat, w: World, k: nat, stop: seq<bool>, ghost c: Config, ghost s: State,
                          ghost events: seq<Event>, ghost at: State, ghost vs: seq<Verdict>, ghost base: seq<Audit>)
      returns (end: Option<End>, ghost after: seq<Event>, ghost next: State)
      requires Valid() && Shows(c, at) && at == Run(c, s, events) && k <= |stop| == retries && |vs| == retries + 1
      requires id in at.phase && at.phase[id] == Running(k)
      requires vs[k] == Judge(w, Paced(driver, w.now), driver in marked) && trail == base + Written(id, vs, k)
      modifies this
      ensures Valid() && Shows(c, next) && next == Run(c, s, after) && trail == base + Written(id, vs, k + 1)
      ensures end == Settled(vs, stop, k) && (end != Some(Succeeded) ==> lastWrite == old(lastWrite))
      ensures id in next.phase && next.phase[id] == if end == None then Running(k + 1) else Ended(end.value, k + 1)
    {
      var verdict := AttemptOnce(id, driver, w, k + 1, c, at);
      WrittenStep(base, id, vs, k);
      after, next := AttemptSettles(c, s, events, at, id, k, vs, stop);
      end := if verdict == Accepted then Some(Succeeded)
      else if verdict == Permanent || k == retries then Some(DeadLettered)
      else if stop[k] then Some(Abandoned)
      else None;
    }

    /**
     Writes until accepted, refused for good, out of attempts, or interrupted by shutdown while
     waiting to retry.
     */
    method WriteUntilEnded(id: Id, driver: nat, worlds: seq<World>, stop: seq<bool>, ghost c: Config, ghost s: State)
      returns (end: End, tries: nat, ghost events: seq<Event>)
      requires Valid() && Shows(c, s) && |worlds| == retries + 1 && |stop| == retries
      requires id in s.phase && s.phase[id] == Running(0)
      modifies this
      ensures Valid() && Shows(c, Run(c, s, events)) && id in Run(c, s, events).phase
      ensures Run(c, s, events).phase[id] == Ended(end, tries)
      ensures var vs := Judged(worlds, old(lastWrite), interval, driver, driver in marked);
              EndsAt(vs, stop, end, tries) && trail == old(trail) + Written(id, vs, tries)
    {
      events, tries := [], 0;
      ghost var vs := Judged(worlds, lastWrite, interval, driver, driver in marked);
      ghost var at := s;
      while true
        invariant Valid() && tries <= retries && Shows(c, at) && trail == old(trail) + Written(id, vs, tries)
        invariant at == Run(c, s, events) && id in at.phase && at.phase[id] == Running(tries)
        invariant lastWrite == old(lastWrite)
        invariant Unsettled(vs, stop, tries)
        decreases retries - tries
      {
        var settled;
        JudgedAt(worlds, lastWrite, interval, driver, driver in marked, tries);
        settled, events, at := AttemptAndWait(id, driver, worlds[tries], tries, stop, c, s, events, at, vs, old(trail));
        tries := tries + 1;
        if settled.Some? {
          return settled.value, tries, events;
        }
        UnsettledStep(vs, stop, tries - 1);
      }
    }

    /**
     A worker executes its command: forwarded or buried if there is no local driver, otherwise
     written until its attempts end. `events` is the run of the protocol this is; `stop[k]` says
     whether shutdown interrupts the wait after attempt `k`. A command whose first write is paced is
     dead-lettered at once exactly when there are no retries or the driver's name is marked.
     */
    method ExecuteWriteWithRetry(id: Id, driver: nat, local: bool, forwarded: bool, worlds: seq<World>, stop: seq<bool>,
                                 ghost c: Config, ghost s: State)
      returns (end: End, tries: nat, ghost events: seq<Event>)
      requires Valid() && Shows(c, s) && |worlds| == retries + 1 && |stop| == retries
      requires id in s.phase && s.phase[id] == Running(0)
      modifies this
      ensures Valid() && Shows(c, Run(c, s, events)) && id in Run(c, s, events).phase
      ensures Run(c, s, events).phase[id] == Ended(end, tries)
      ensures !local ==> tries == 0 && end == (if forwarded then Forwarded else DeadLettered) && trail == old(trail)
      ensures var vs := Judged(worlds, old(lastWrite), interval, driver, driver in marked);
              local ==> EndsAt(vs, stop, end, tries) && trail == old(trail) + Written(id, vs, tries)
      ensures local && worlds[0].known && !worlds[0].readOnly && old(Paced(driver, worlds[0].now)) ==>
                (end == DeadLettered && tries == 1 <==> retries == 0 || driver in marked)
    {
      if local {
        end, tries, events := WriteUntilEnded(id, driver, worlds, stop, c, s);
        if worlds[0].known && !worlds[0].readOnly && TooSoon(old(lastWrite), interval, driver, worlds[0].now) {
          PacedEndsIff(worlds, stop, old(lastWrite), interval, driver, driver in marked, end, tries);
        }
        return;
      }
      events, tries := [], 0;
      end := ForwardOrGiveUp(id, forwarded, c, s);
      RunSnoc(c, s, events, Forward(id, forwarded));
      events := events + [Forward(id, forwarded)];
    }

    /** A listener that exits buries what it holds and then everything still in its channel, in order. */
    method DeadLetterStranded(held: seq<Id>, channel: seq<Id>)
      requires Valid() && |held| <= 1
      modifies this`deadQueue, this`deadLog, this`pushed
      ensures Valid() && DeadIds(deadLog) == old(DeadIds(deadLog)) + held + channel
      ensures forall i :: |old(deadLog)| <= i < |deadLog| ==> deadLog[i].attempts == 0
      ensures forall i :: 0 <= i < |old(deadLog)| ==> deadLog[i] == old(deadLog)[i]
    {
      var stranded := held + channel;
      for k := 0 to |stranded|
        invariant Valid() && DeadIds(deadLog) == old(DeadIds(deadLog)) + stranded[..k] && |deadLog| == |old(deadLog)| + k
        invariant forall i :: |old(deadLog)| <= i < |deadLog| ==> deadLog[i].attempts == 0
        invariant forall i :: 0 <= i < |old(deadLog)| ==> deadLog[i] == old(deadLog)[i]
      {
        DeadIdsAppend(deadLog, Dead(stranded[k], 0));
        AddDeadLetter(Dead(stranded[k], 0));
      }
      assert stranded[..|stranded|] == stranded;
    }
  }

  /** A paced attempt at time 5 and a device that accepts from time 20 on, with an interval of 10. */
  const LATE: seq<World> := [World(true, false, 5, Success), World(true, false, 20, Success),
                             World(true, false, 30, Success), World(true, false, 40, Success)]

  lemma {:induction false} LateEnds(marked: bool, end: End, tries: nat)
    requires EndsAt(Judged(LATE, map[7 := 0], 10, 7, marked), [false, false, false], end, tries)
    ensures end == (if marked then DeadLettered else Succeeded) && tries == if marked then 1 else 2
  {
    var vs, stop := Judged(LATE, map[7 := 0], 10, 7, marked), [false, false, false];
    JudgedAt(LATE, map[7 := 0], 10, 7, marked, 0);
    JudgedAt(LATE, map[7 := 0], 10, 7, marked, 1);
    var first, second := Settled(vs, stop, 0), Settled(vs, stop, 1);
    assert tries > 1 ==> first == None;
    assert tries > 2 ==> second == None;
  }

  /**
   Two writes to one driver with 3 retries: the second is paced and not dead-lettered at once; its
   second attempt is accepted, unless the driver's name is marked.
   */
  method PacedExample(name: bool) returns (end: End, tries: nat)
    ensures !name ==> end == Succeeded && tries == 2
    ensures name ==> end == DeadLettered && tries == 1
  {
    var m := new WriteManager(3, 10, 10, if name then {7} else {});
    var first := m.WriteTag(0, 7, World(true, false, 0, Success));
    assert m.lastWrite == map[7 := 0];
    AuditIdsAppend([], Audit(0, true));
    ghost var c, s := Config(1, 3, 10), State([], map[1 := Running(0)], 1, [], [], AuditIds(m.trail));
    ghost var events;
    end, tries, events := m.ExecuteWriteWithRetry(1, 7, true, false, LATE, [false, false, false], c, s);
    LateEnds(name, end, tries);
  }

  /** The phase a command is in after a write. */
  lemma {:induction false} AttemptPhase(c: Config, s: State, id: Id, verdict: Verdict)
    requires id in s.phase && s.phase[id].Running?
    ensures var s' := Next(c, s, Attempt(id, verdict));
            id in s'.phase && s'.phase[id] == AfterAttempt(c, s.phase[id].tries + 1, verdict)
  {
  }

  /** The books after a write: one more audit entry, and the dead letter if it was the last. */
  lemma {:induction false} AttemptBooks(c: Config, s: State, id: Id, verdict: Verdict)
    requires id in s.phase && s.phase[id].Running?
    ensures var t, s', wrote := s.phase[id].tries + 1, Next(c, s, Attempt(id, verdict)), s.(auditLog := s.auditLog + [id]);
            var same := if verdict == Permanent || (verdict == Transient && t >= c.retries + 1) then Bury(c, wrote, id, t) else wrote;
            s'.auditLog == same.auditLog && s'.deadLog == same.deadLog && s'.deadQueue == same.deadQueue
  {
  }

  /** A wait ends with another attempt or with the shutdown, and leaves the histories alone. */
  lemma {:induction false} WaitPhase(c: Config, s: State, id: Id, e: Event)
    requires id in s.phase && s.phase[id].BackingOff? && (e == Shutdown(id) || e == Resume(id))
    ensures var t, s' := s.phase[id].tries, Next(c, s, e);
            && id in s'.phase && s'.phase[id] == (if e.Shutdown? then Ended(Abandoned, t) else Running(t))
            && s'.auditLog == s.auditLog && s'.deadLog == s.deadLog && s'.deadQueue == s.deadQueue
  {
  }

  /** The events of attempt `k` with its verdict and the wait after it, and where they lead. */
  lemma {:induction false} AttemptSettles(c: Config, s: State, events: seq<Event>, at: State, id: Id, k: nat, vs: seq<Verdict>, stop: seq<bool>)
    returns (after: seq<Event>, next: State)
    requires k <= |stop| == c.retries && |vs| == |stop| + 1 && at == Run(c, s, events)
    requires id in at.phase && at.phase[id] == Running(k)
    ensures next == Run(c, s, after) && id in next.phase
    ensures next.phase[id] == match Settled(vs, stop, k) case None => Running(k + 1) case Some(end) => Ended(end, k + 1)
    ensures var tried := Next(c, at, Attempt(id, vs[k]));
            next.auditLog == tried.auditLog && next.deadLog == tried.deadLog && next.deadQueue == tried.deadQueue
  {
    AttemptPhase(c, at, id, vs[k]);
    RunSnoc(c, s, events, Attempt(id, vs[k]));
    after, next := events + [Attempt(id, vs[k])], Next(c, at, Attempt(id, vs[k]));
    if vs[k] == Transient && k < |stop| {
      var e := if stop[k] then Shutdown(id) else Resume(id);
      WaitPhase(c, next, id, e);
      RunSnoc(c, s, after, e);
      after, next := after + [e], Next(c, next, e);
    }
  }
}
