/**
 Per-client rate limiting by token buckets, with eviction of idle buckets. Time is in nanoseconds;
 the tokens earned over an interval are the whole ones.
 */
module TokenBucket {

  type Client = nat

  const SECOND: int := 1_000_000_000
  const TTL: int := 300 * SECOND

  datatype Bucket = Bucket(tokens: int, lastTime: int, lastAccess: int)

  function Open(rate: nat, now: int): Bucket { Bucket(rate, now, now) }

  function Earned(rate: nat, elapsed: int): int { elapsed * rate / SECOND }

  function Refill(rate: nat, b: Bucket, now: int): Bucket {
    var add := Earned(rate, now - b.lastTime);
    if add > 0 then b.(tokens := if b.tokens + add > rate then rate else b.tokens + add, lastTime := now) else b
  }

  datatype Op = Request(client: Client, now: int) | Evict(now: int)

  type Buckets = map<Client, Bucket>

  function BucketOf(rate: nat, m: Buckets, client: Client, now: int): Bucket {
    if client in m then m[client] else Open(rate, now)
  }

  /** The client's bucket as a request at `now` finds it after refilling. */
  function Found(rate: nat, m: Buckets, client: Client, now: int): Bucket {
    Refill(rate, BucketOf(rate, m, client, now).(lastAccess := now), now)
  }

  predicate Admits(rate: nat, m: Buckets, op: Op) {
    op.Request? && Found(rate, m, op.client, op.now).tokens > 0
  }

  predicate Stale(b: Bucket, now: int) { b.lastAccess < now - TTL }

  function Next(rate: nat, m: Buckets, op: Op): Buckets {
    match op
    case Request(client, now) =>
      var b := Found(rate, m, client, now);
      m[client := if b.tokens > 0 then b.(tokens := b.tokens - 1) else b]
    case Evict(now) => map c | c in m && !Stale(m[c], now) :: m[c]
  }

  function Run(rate: nat, ops: seq<Op>): Buckets {
    if ops == [] then map[] else Next(rate, Run(rate, ops[..|ops| - 1]), ops[|ops| - 1])
  }

  /** The clock does not run backwards. */
  ghost predicate Monotone(ops: seq<Op>) {
    forall i, j :: 0 <= i < j < |ops| ==> ops[i].now <= ops[j].now
  }

  // ---------------------------------------------------------------------------
  // The limiter
  // ---------------------------------------------------------------------------

  class RateLimiter {
    const perSec: nat
    var buckets: Buckets

    constructor (perSec: nat)
      ensures this.perSec == perSec && buckets == map[]
    {
      this.perSec, buckets := perSec, map[];
    }

    method Handle(client: Client, now: int) returns (admitted: bool)
      modifies this
      ensures admitted == Admits(perSec, old(buckets), Request(client, now))
      ensures buckets == Next(perSec, old(buckets), Request(client, now))
    {
      if client !in buckets {
        buckets := buckets[client := Open(perSec, now)];
      }
      var b := buckets[client].(lastAccess := now);
      var add := Earned(perSec, now - b.lastTime);
      if add > 0 {
        b := b.(tokens := b.tokens + add);
        if b.tokens > perSec {
          b := b.(tokens := perSec);
        }
        b := b.(lastTime := now);
      }
      admitted := b.tokens > 0;
      if admitted {
        b := b.(tokens := b.tokens - 1);
      }
      buckets := buckets[client := b];
    }

    /** Drops the buckets that have been idle for longer than their time to live. */
    method EvictStale(now: int)
      modifies this
      ensures buckets == Next(perSec, old(buckets), Evict(now))
      ensures forall c :: c in buckets <==> c in old(buckets) && now - old(buckets)[c].lastAccess <= 300 * SECOND
      ensures forall c :: c in buckets ==> buckets[c] == old(buckets)[c]
    {
      var todo := buckets.Keys;
      while todo != {}
        invariant todo <= old(buckets).Keys
        invariant forall c :: c in buckets <==> c in old(buckets) && (c in todo || !Stale(old(buckets)[c], now))
        invariant forall c :: c in buckets ==> buckets[c] == old(buckets)[c]
        decreases |todo|
      {
        var c :| c in todo;
        if Stale(buckets[c], now) {
          buckets := buckets - {c};
        }
        todo := todo - {c};
      }
    }
  }

  // ---------------------------------------------------------------------------
  // Every bucket stays within its bounds
  // ---------------------------------------------------------------------------

  predicate Sane(rate: nat, b: Bucket, now: int) {
    0 <= b.tokens <= rate && b.lastTime <= b.lastAccess <= now
  }

  ghost predicate AllSane(rate: nat, m: Buckets, now: int) {
    forall c :: c in m ==> Sane(rate, m[c], now)
  }

  lemma {:induction false} EarnedBounds(rate: nat, elapsed: int)
    requires elapsed >= 0
    ensures 0 <= Earned(rate, elapsed) * SECOND <= elapsed * rate < Earned(rate, elapsed) * SECOND + SECOND
  {
    assert elapsed * rate >= 0;
  }

  lemma {:induction false} NextSane(rate: nat, m: Buckets, op: Op, now: int)
    requires AllSane(rate, m, now) && now <= op.now
    ensures AllSane(rate, Next(rate, m, op), op.now)
  {
    if op.Request? {
      var b := BucketOf(rate, m, op.client, op.now);
      EarnedBounds(rate, op.now - b.lastTime);
    }
  }

  // ---------------------------------------------------------------------------
  // Eviction changes no decision
  // ---------------------------------------------------------------------------

  /** The operations without the evictions. */
  function Requests(ops: seq<Op>): seq<Op> {
    if ops == [] then []
    else Requests(ops[..|ops| - 1]) + (if ops[|ops| - 1].Request? then [ops[|ops| - 1]] else [])
  }

  /** The decisions taken, one for every request. */
  function Decisions(rate: nat, ops: seq<Op>): seq<bool> {
    if ops == [] then []
    else Decisions(rate, ops[..|ops| - 1]) +
         (if ops[|ops| - 1].Request? then [Admits(rate, Run(rate, ops[..|ops| - 1]), ops[|ops| - 1])] else [])
  }

  /** `m` is `full` without some buckets that by `now` have earned themselves full again. */
  ghost predicate Thinner(rate: nat, m: Buckets, full: Buckets, now: int) {
    && (forall c :: c in m ==> c in full && m[c] == full[c])
    && (forall c :: c in full && c !in m ==> Stale(full[c], now))
  }

  /** A bucket idle for its time to live is refilled to what a new one holds. */
  lemma {:induction false} StaleRefills(rate: nat, b: Bucket, now: int)
    requires 0 < rate && Sane(rate, b, now) && Stale(b, now)
    ensures Refill(rate, b.(lastAccess := now), now) == Open(rate, now) == Refill(rate, Open(rate, now), now)
  {
    var e := now - b.lastTime;
    EarnedBounds(rate, e);
    assert e >= TTL;
    assert e * rate >= TTL * rate;
    assert Earned(rate, e) >= 300 * rate;
    assert Earned(rate, 0) == 0;
  }

  /** Without the bucket or with the stale one, a request finds the same. */
  lemma {:induction false} SameFound(rate: nat, m: Buckets, full: Buckets, client: Client, now: int, since: int)
    requires 0 < rate && since <= now && AllSane(rate, full, since) && Thinner(rate, m, full, since)
    ensures Found(rate, m, client, now) == Found(rate, full, client, now)
  {
    if client in full && client !in m {
      StaleRefills(rate, full[client], now);
    }
  }

  lemma {:induction false} ThinnerStep(rate: nat, m: Buckets, full: Buckets, op: Op, since: int)
    requires 0 < rate && since <= op.now && AllSane(rate, full, since) && Thinner(rate, m, full, since)
    ensures Thinner(rate, Next(rate, m, op), if op.Request? then Next(rate, full, op) else full, op.now)
    ensures op.Request? ==> Admits(rate, m, op) == Admits(rate, full, op)
  {
    if op.Request? {
      SameFound(rate, m, full, op.client, op.now, since);
    }
  }

  function LastTime(ops: seq<Op>): int {
    if ops == [] then 0 else ops[|ops| - 1].now
  }

  lemma {:induction false} RunsStayThinner(rate: nat, ops: seq<Op>)
    requires 0 < rate && Monotone(ops)
    ensures AllSane(rate, Run(rate, Requests(ops)), LastTime(ops))
    ensures Thinner(rate, Run(rate, ops), Run(rate, Requests(ops)), LastTime(ops))
    ensures Decisions(rate, ops) == Decisions(rate, Requests(ops))
  {
    if ops != [] {
      var init, op := ops[..|ops| - 1], ops[|ops| - 1];
      RunsStayThinner(rate, init);
      var since := if init == [] then op.now else LastTime(init);
      var full := Run(rate, Requests(init));
      ThinnerStep(rate, Run(rate, init), full, op, since);
      NextSane(rate, full, op, since);
      if op.Request? {
        assert Requests(ops)[..|Requests(ops)| - 1] == Requests(init);
      } else {
        assert Requests(ops) == Requests(init);
      }
    }
  }

  /** Evicting idle buckets never changes any decision. */
  lemma {:induction false} EvictionIrrelevant(rate: nat, ops: seq<Op>)
    requires 0 < rate && Monotone(ops)
    ensures Decisions(rate, ops) == Decisions(rate, Requests(ops))
  {
    RunsStayThinner(rate, ops);
  }

  // ---------------------------------------------------------------------------
  // Admission bound
  // ---------------------------------------------------------------------------

  predicate IsFrom(op: Op, client: Client) { op.Request? && op.client == client }

  /** How many requests of the client are admitted from position `from` on. */
  function Admitted(rate: nat, ops: seq<Op>, from: nat, client: Client): nat {
    if |ops| <= from then 0
    else Admitted(rate, ops[..|ops| - 1], from, client) +
         (if IsFrom(ops[|ops| - 1], client) && Admits(rate, Run(rate, ops[..|ops| - 1]), ops[|ops| - 1]) then 1 else 0)
  }

  /** Tokens in hand and tokens earned since the last refill, in fractions of a token. */
  function Potential(rate: nat, m: Buckets, client: Client, now: int): int {
    if client in m then m[client].tokens * SECOND + rate * (now - m[client].lastTime) else rate * SECOND
  }

  lemma {:induction false} RefillPotential(rate: nat, b: Bucket, now: int)
    requires 0 <= b.tokens <= rate && b.lastTime <= now
    ensures var f := Refill(rate, b, now);
            && f.tokens * SECOND + rate * (now - f.lastTime) <= b.tokens * SECOND + rate * (now - b.lastTime)
            && f.tokens * SECOND + rate * (now - f.lastTime) <= rate * SECOND + SECOND - 1
            && 0 <= f.tokens <= rate && f.lastTime <= now
  {
    EarnedBounds(rate, now - b.lastTime);
  }

  /** A request uses up a token's worth if admitted, and leaves at most a full bucket and a fraction. */
  lemma {:induction false} RequestPotential(rate: nat, m: Buckets, client: Client, now: int, since: int)
    requires AllSane(rate, m, since) && since <= now
    ensures var op := Request(client, now);
            var after := Potential(rate, Next(rate, m, op), client, now) + (if Admits(rate, m, op) then SECOND else 0);
            after <= Potential(rate, m, client, now) && after <= rate * SECOND + SECOND - 1
  {
    RefillPotential(rate, BucketOf(rate, m, client, now).(lastAccess := now), now);
  }

  /** Other operations add nothing, and eviction gives up at least a full bucket for one. */
  lemma {:induction false} OtherPotential(rate: nat, m: Buckets, op: Op, client: Client, since: int)
    requires AllSane(rate, m, since) && since <= op.now && !IsFrom(op, client)
    ensures Potential(rate, Next(rate, m, op), client, op.now) <= Potential(rate, m, client, op.now)
  {
    if op.Evict? && client in m && Stale(m[client], op.now) {
      IdleEarnsFull(rate, op.now - m[client].lastTime);
    }
  }

  lemma {:induction false} IdleEarnsFull(rate: nat, elapsed: int)
    requires elapsed >= TTL
    ensures rate * elapsed >= rate * SECOND
  {
  }

  lemma {:induction false} TimePotential(rate: nat, m: Buckets, client: Client, t1: int, t2: int)
    requires t1 <= t2
    ensures Potential(rate, m, client, t2) <= Potential(rate, m, client, t1) + rate * (t2 - t1)
  {
    if client in m {
      Distribute(rate, t2 - t1, t1 - m[client].lastTime);
    }
  }

  lemma {:induction false} Distribute(rate: nat, x: int, y: int)
    ensures rate * (x + y) == rate * x + rate * y && (x >= 0 ==> rate * x >= 0)
  {
  }

  lemma {:induction false} RunSane(rate: nat, ops: seq<Op>)
    requires Monotone(ops)
    ensures ops != [] ==> AllSane(rate, Run(rate, ops), LastTime(ops))
  {
    if ops != [] {
      var init, op := ops[..|ops| - 1], ops[|ops| - 1];
      RunSane(rate, init);
      NextSane(rate, Run(rate, init), op, if init == [] then op.now else LastTime(init));
    }
  }

  ghost predicate Asked(ops: seq<Op>, from: nat, client: Client) {
    exists i :: from <= i < |ops| && IsFrom(ops[i], client)
  }

  /** What was admitted since `from` and what is left are paid for by a full bucket and the time passed. */
  ghost predicate Paid(rate: nat, ops: seq<Op>, from: nat, client: Client)
    requires from < |ops|
  {
    SECOND * Admitted(rate, ops, from, client) + Potential(rate, Run(rate, ops), client, LastTime(ops)) <=
    rate * SECOND + SECOND - 1 + rate * (LastTime(ops) - ops[from].now)
  }

  lemma {:induction false} PaidStep(rate: nat, ops: seq<Op>, from: nat, client: Client, init: seq<Op>, op: Op)
    requires Monotone(ops) && |ops| > 0 && from < |init| && init == ops[..|ops| - 1] && op == ops[|ops| - 1]
    requires Paid(rate, init, from, client)
    ensures Paid(rate, ops, from, client)
  {
    var m := Run(rate, init);
    RunSane(rate, init);
    TimePotential(rate, m, client, LastTime(init), op.now);
    Distribute(rate, op.now - LastTime(init), LastTime(init) - ops[from].now);
    if IsFrom(op, client) {
      RequestPotential(rate, m, client, op.now, LastTime(init));
    } else {
      OtherPotential(rate, m, op, client, LastTime(init));
    }
  }

  lemma {:induction false} PaidFirst(rate: nat, ops: seq<Op>, from: nat, client: Client)
    requires Monotone(ops) && from < |ops| && IsFrom(ops[|ops| - 1], client) && !Asked(ops[..|ops| - 1], from, client)
    ensures Paid(rate, ops, from, client)
  {
    var init, op := ops[..|ops| - 1], ops[|ops| - 1];
    NoneAdmitted(rate, init, from, client);
    RunSane(rate, init);
    RequestPotential(rate, Run(rate, init), client, op.now, if init == [] then op.now else LastTime(init));
    Distribute(rate, op.now - ops[from].now, 0);
  }

  lemma {:induction false} NoneAdmitted(rate: nat, ops: seq<Op>, from: nat, client: Client)
    requires !Asked(ops, from, client)
    ensures Admitted(rate, ops, from, client) == 0
  {
    if |ops| > from {
      assert !IsFrom(ops[|ops| - 1], client);
      assert !Asked(ops[..|ops| - 1], from, client);
      NoneAdmitted(rate, ops[..|ops| - 1], from, client);
    }
  }

  lemma {:induction false} WindowPaid(rate: nat, ops: seq<Op>, from: nat, client: Client)
    requires Monotone(ops) && from < |ops| && Asked(ops, from, client)
    ensures Paid(rate, ops, from, client)
  {
    var init, op := ops[..|ops| - 1], ops[|ops| - 1];
    if Asked(init, from, client) {
      WindowPaid(rate, init, from, client);
      PaidStep(rate, ops, from, client, init, op);
    } else {
      PaidFirst(rate, ops, from, client);
    }
  }

  /** Whole tokens that cover a number of fractions. */
  function CeilTokens(fractions: int): int { (fractions + SECOND - 1) / SECOND }

  /** In any window of a run, one client is admitted at most `rate + ceil(rate * T)` times. */
  lemma {:induction false} AdmissionBound(rate: nat, ops: seq<Op>, from: nat, client: Client)
    requires Monotone(ops) && from < |ops|
    ensures Admitted(rate, ops, from, client) <= rate + CeilTokens(rate * (LastTime(ops) - ops[from].now))
  {
    var fractions := rate * (LastTime(ops) - ops[from].now);
    Distribute(rate, LastTime(ops) - ops[from].now, 0);
    if Asked(ops, from, client) {
      WindowPaid(rate, ops, from, client);
      RunSane(rate, ops);
      PotentialPositive(rate, Run(rate, ops), client, LastTime(ops));
      Divided(Admitted(rate, ops, from, client), rate, fractions);
    } else {
      NoneAdmitted(rate, ops, from, client);
    }
  }

  lemma {:induction false} PotentialPositive(rate: nat, m: Buckets, client: Client, now: int)
    requires AllSane(rate, m, now)
    ensures Potential(rate, m, client, now) >= 0
  {
    if client in m {
      Distribute(rate, now - m[client].lastTime, 0);
    }
  }

  lemma {:induction false} Divided(n: nat, rate: nat, fractions: int)
    requires SECOND * n <= rate * SECOND + SECOND - 1 + fractions
    ensures n <= rate + CeilTokens(fractions)
  {
  }

  // ---------------------------------------------------------------------------
  // What a client is entitled to
  // ---------------------------------------------------------------------------

  /** Tokens in hand and whole tokens earned since the last refill, at most a full bucket; a new client has one. */
  function Available(rate: nat, m: Buckets, client: Client, now: int): int {
    if client !in m then rate
    else
      var n := m[client].tokens + (now - m[client].lastTime) * rate / SECOND;
      if n > rate then rate else n
  }

  lemma {:induction false} NothingEarnedAtOnce(rate: nat)
    ensures 0 * rate / SECOND == 0
  {
  }

  /** One request takes one of the available tokens if there is one, and is admitted just then. */
  lemma {:induction false} RequestTakes(rate: nat, m: Buckets, client: Client, now: int)
    requires client in m ==> Sane(rate, m[client], now)
    ensures Admits(rate, m, Request(client, now)) <==> Available(rate, m, client, now) > 0
    ensures var left := Available(rate, m, client, now);
            Available(rate, Next(rate, m, Request(client, now)), client, now) == if left > 0 then left - 1 else left
    ensures 0 <= Available(rate, m, client, now)
  {
    NothingEarnedAtOnce(rate);
    if client in m {
      EarnedBounds(rate, now - m[client].lastTime);
    }
  }

  /** `n` requests of the client at one moment. */
  function Burst(client: Client, now: int, n: nat): seq<Op> {
    if n == 0 then [] else Burst(client, now, n - 1) + [Request(client, now)]
  }

  function Min(a: int, b: int): int { if a < b then a else b }

  lemma {:induction false} AdmittedSnoc(rate: nat, ops: seq<Op>, op: Op, from: nat, client: Client)
    requires from <= |ops|
    ensures Admitted(rate, ops + [op], from, client) ==
            Admitted(rate, ops, from, client) + (if IsFrom(op, client) && Admits(rate, Run(rate, ops), op) then 1 else 0)
    ensures Run(rate, ops + [op]) == Next(rate, Run(rate, ops), op)
  {
    assert (ops + [op])[..|ops|] == ops;
  }

  lemma {:induction false} BurstSnoc(ops: seq<Op>, client: Client, now: int, n: nat)
    requires n > 0
    ensures ops + Burst(client, now, n) == ops + Burst(client, now, n - 1) + [Request(client, now)]
  {
  }

  lemma {:induction false} BurstTakes(rate: nat, ops: seq<Op>, client: Client, now: int, n: nat, all: seq<Op>)
    requires AllSane(rate, Run(rate, ops), now) && all == ops + Burst(client, now, n)
    ensures var k := Available(rate, Run(rate, ops), client, now);
            && AllSane(rate, Run(rate, all), now)
            && Admitted(rate, all, |ops|, client) == Min(n, k)
            && Available(rate, Run(rate, all), client, now) == k - Min(n, k)
  {
    if n == 0 {
      assert all == ops;
      RequestTakes(rate, Run(rate, ops), client, now);
    } else {
      var before := ops + Burst(client, now, n - 1);
      BurstTakes(rate, ops, client, now, n - 1, before);
      BurstSnoc(ops, client, now, n);
      AdmittedSnoc(rate, before, Request(client, now), |ops|, client);
      NextSane(rate, Run(rate, before), Request(client, now), now);
      RequestTakes(rate, Run(rate, before), client, now);
    }
  }

  /**
   After any run, of `n` requests a client makes at one moment exactly as many are admitted as tokens
   are available to it then: those in hand and those earned since the last refill, up to a full bucket.
   */
  lemma {:induction false} BurstAdmitted(rate: nat, ops: seq<Op>, client: Client, now: int, n: nat)
    requires Monotone(ops) && (ops != [] ==> LastTime(ops) <= now)
    ensures var k, all := Available(rate, Run(rate, ops), client, now), ops + Burst(client, now, n);
            && Admitted(rate, all, |ops|, client) == Min(n, k)
            && Available(rate, Run(rate, all), client, now) == k - Min(n, k)
  {
    RunSane(rate, ops);
    BurstTakes(rate, ops, client, now, n, ops + Burst(client, now, n));
  }

  /** The client has no bucket, or one last refilled at or before `since`. */
  predicate OldRefill(m: Buckets, client: Client, since: int) {
    client in m ==> m[client].lastTime <= since
  }

  /** A request that is refused earned nothing, so it does not move the time of the last refill. */
  lemma {:induction false} RefusedKeepsRefill(rate: nat, m: Buckets, op: Op, client: Client, since: int)
    requires OldRefill(m, client, since) && (client in m ==> Sane(rate, m[client], op.now)) && 0 < rate
    requires !(IsFrom(op, client) && Admits(rate, m, op))
    ensures OldRefill(Next(rate, m, op), client, since)
  {
  }

  /** A refill at least a token's time ago is enough to be admitted. */
  lemma {:induction false} EarnedOne(rate: nat, m: Buckets, client: Client, now: int, since: int)
    requires 0 < rate && OldRefill(m, client, since) && (client in m ==> Sane(rate, m[client], now))
    requires since <= now && (now - since) * rate >= SECOND
    ensures Admits(rate, m, Request(client, now))
  {
    RequestTakes(rate, m, client, now);
    if client in m {
      assert (now - m[client].lastTime) * rate >= (now - since) * rate;
    }
  }

  lemma {:induction false} RefillsStayOld(rate: nat, ops: seq<Op>, i: nat, client: Client)
    requires 0 < rate && Monotone(ops) && i < |ops| && IsFrom(ops[i], client)
    ensures Admitted(rate, ops, i + 1, client) > 0 || OldRefill(Run(rate, ops), client, ops[i].now)
  {
    RunSane(rate, ops);
    if |ops| > i + 1 {
      var init, op := ops[..|ops| - 1], ops[|ops| - 1];
      RefillsStayOld(rate, init, i, client);
      RunSane(rate, init);
      if Admitted(rate, ops, i + 1, client) == 0 {
        RefusedKeepsRefill(rate, Run(rate, init), op, client, ops[i].now);
      }
    }
  }

  /**
   In every run, a client that has waited for the time of one token since one of its requests has been
   admitted at least once after it, however often it asked in between; so a client that leaves that
   much time between its requests is never refused, and none starves.
   */
  lemma {:induction false} NeverStarved(rate: nat, ops: seq<Op>, i: nat, client: Client)
    requires 0 < rate && Monotone(ops) && i < |ops| - 1 && IsFrom(ops[i], client) && IsFrom(ops[|ops| - 1], client)
    requires (LastTime(ops) - ops[i].now) * rate >= SECOND
    ensures Admitted(rate, ops, i + 1, client) > 0
  {
    var init, op := ops[..|ops| - 1], ops[|ops| - 1];
    RefillsStayOld(rate, init, i, client);
    RunSane(rate, init);
    if OldRefill(Run(rate, init), client, ops[i].now) {
      EarnedOne(rate, Run(rate, init), client, op.now, ops[i].now);
    }
  }
}
