/** The per-host rate limiter of services/realtime/src/echoweave/app.py: a token bucket per
    host, and the eviction of buckets idle for more than two minutes. Times are real seconds. */
module TokenBucket {

  type Host = string

  datatype Bucket = Bucket(budget: real, at: real)

  // What a bucket table was configured with.
  datatype Rate = Rate(capacity: real, refill: real)

  type Table = map<Host, Bucket>

  const IDLE_SECONDS := 120.0
  const TABLE_LIMIT := 8_192

  ghost predicate ValidRate(r: Rate)
  {
    r.capacity >= 0.0 && r.refill >= 0.0
  }

  /** What a bucket gains between two clock readings. */
  function Gain(from: real, to: real, r: Rate): real
  {
    (to - from) * r.refill
  }

  function MinReal(a: real, b: real): real { if a < b then a else b }

  /** The bucket of a host brought up to date; an absent one is full. */
  function Refilled(t: Table, h: Host, r: Rate, now: real): real
  {
    if h in t then MinReal(r.capacity, t[h].budget + Gain(t[h].at, now, r)) else r.capacity
  }

  function Allows(t: Table, h: Host, r: Rate, amount: real, now: real): bool
  {
    amount <= Refilled(t, h, r, now)
  }

  function Consume(t: Table, h: Host, r: Rate, amount: real, now: real): Table
  {
    var budget := Refilled(t, h, r, now);
    t[h := Bucket(if amount <= budget then budget - amount else budget, now)]
  }

  predicate Stays(t: Table, active: set<Host>, h: Host, now: real)
    requires h in t
  {
    h in active || now - t[h].at <= IDLE_SECONDS
  }

  // Outside its domain the comprehension is pinned to one bucket, so that equal maps have equal terms.
  function EvictStale(t: Table, active: set<Host>, now: real): Table
  {
    map h | h in t && Stays(t, active, h, now) :: if h in t && Stays(t, active, h, now) then t[h] else Bucket(0.0, 0.0)
  }

  function EnsureBucket(t: Table, h: Host, r: Rate, now: real): Table
  {
    if h in t then t else t[h := Bucket(r.capacity, now)]
  }

  // ---- one host: budget range and grants per window --------------------------------------------

  datatype Request = Request(now: real, amount: real)

  function Spend(b: Bucket, r: Rate, q: Request): Bucket
  {
    var budget := MinReal(r.capacity, b.budget + Gain(b.at, q.now, r));
    Bucket(if q.amount <= budget then budget - q.amount else budget, q.now)
  }

  function Granted(b: Bucket, r: Rate, q: Request): real
  {
    if q.amount <= MinReal(r.capacity, b.budget + Gain(b.at, q.now, r)) then q.amount else 0.0
  }

  function SpendAll(b: Bucket, r: Rate, qs: seq<Request>): Bucket
  {
    if qs == [] then b else Spend(SpendAll(b, r, qs[..|qs| - 1]), r, qs[|qs| - 1])
  }

  function TotalGranted(b: Bucket, r: Rate, qs: seq<Request>): real
  {
    if qs == [] then 0.0
    else TotalGranted(b, r, qs[..|qs| - 1]) + Granted(SpendAll(b, r, qs[..|qs| - 1]), r, qs[|qs| - 1])
  }

  ghost predicate Ordered(from: real, qs: seq<Request>)
  {
    && (forall i :: 0 <= i < |qs| ==> from <= qs[i].now && qs[i].amount >= 0.0)
    && forall i, j :: 0 <= i < j < |qs| ==> qs[i].now <= qs[j].now
  }

  // The arithmetic of gains, one fact at a time.

  lemma GainAdds(x: real, y: real, z: real, r: Rate)
    ensures Gain(x, y, r) + Gain(y, z, r) == Gain(x, z, r)
  {
  }

  lemma NoGain(x: real, r: Rate)
    ensures Gain(x, x, r) == 0.0
  {
  }

  lemma GainOver(x: real, d: real, r: Rate)
    ensures Gain(x, x + d, r) == d * r.refill
  {
    assert (x + d) - x == d;
  }

  lemma ProductNonNegative(x: real, y: real)
    requires x >= 0.0 && y >= 0.0
    ensures x * y >= 0.0
  {
  }

  lemma GainNonNegative(x: real, y: real, r: Rate)
    requires x <= y && r.refill >= 0.0
    ensures Gain(x, y, r) >= 0.0
  {
    ProductNonNegative(y - x, r.refill);
  }

  lemma GainGrows(x: real, y: real, z: real, r: Rate)
    requires y <= z && r.refill >= 0.0
    ensures Gain(x, y, r) <= Gain(x, z, r)
  {
    GainAdds(x, y, z, r);
    GainNonNegative(y, z, r);
  }

  lemma SpendInRange(b: Bucket, r: Rate, q: Request)
    requires ValidRate(r) && 0.0 <= b.budget <= r.capacity && b.at <= q.now && q.amount >= 0.0
    ensures 0.0 <= Spend(b, r, q).budget <= r.capacity
  {
    GainNonNegative(b.at, q.now, r);
  }

  /** With a monotone clock and non-negative amounts the budget stays within [0, capacity]. */
  lemma {:induction false} BudgetInRange(b: Bucket, r: Rate, qs: seq<Request>)
    requires ValidRate(r) && 0.0 <= b.budget <= r.capacity && Ordered(b.at, qs)
    ensures var b' := SpendAll(b, r, qs); 0.0 <= b'.budget <= r.capacity
    ensures SpendAll(b, r, qs).at == if qs == [] then b.at else qs[|qs| - 1].now
  {
    if qs != [] {
      var init, q := qs[..|qs| - 1], qs[|qs| - 1];
      BudgetInRange(b, r, init);
      if init != [] { assert qs[|init| - 1].now <= qs[|init|].now; }
      SpendInRange(SpendAll(b, r, init), r, q);
    }
  }

  /** What a bucket is worth against the clock; grants can only lower it. */
  function Potential(b: Bucket, r: Rate): real
  {
    b.budget - Gain(0.0, b.at, r)
  }

  lemma SpendPays(b: Bucket, r: Rate, q: Request)
    ensures Granted(b, r, q) <= Potential(b, r) - Potential(Spend(b, r, q), r)
  {
    GainAdds(0.0, b.at, q.now, r);
  }

  /** Every grant is paid for. Holds for clock readings in any order. */
  lemma {:induction false} GrantsArePaid(b: Bucket, r: Rate, qs: seq<Request>)
    ensures TotalGranted(b, r, qs) <= Potential(b, r) - Potential(SpendAll(b, r, qs), r)
  {
    if qs != [] {
      var init := qs[..|qs| - 1];
      GrantsArePaid(b, r, init);
      SpendPays(SpendAll(b, r, init), r, qs[|qs| - 1]);
    }
  }

  /** The bucket as it stands when a window opens at `now`, before anything is spent. */
  function Opening(b: Bucket, r: Rate, now: real): (o: Bucket)
    ensures o.budget <= r.capacity && o.at == now
  {
    Bucket(MinReal(r.capacity, b.budget + Gain(b.at, now, r)), now)
  }

  lemma OpeningOnce(b: Bucket, r: Rate, q: Request)
    ensures Spend(b, r, q) == Spend(Opening(b, r, q.now), r, q)
    ensures Granted(b, r, q) == Granted(Opening(b, r, q.now), r, q)
  {
    NoGain(q.now, r);
  }

  lemma {:induction false} OpeningIsEnough(b: Bucket, r: Rate, qs: seq<Request>)
    requires qs != []
    ensures var o := Opening(b, r, qs[0].now);
      SpendAll(b, r, qs) == SpendAll(o, r, qs) && TotalGranted(b, r, qs) == TotalGranted(o, r, qs)
    decreases |qs|
  {
    var init := qs[..|qs| - 1];
    var o := Opening(b, r, qs[0].now);
    if init == [] {
      OpeningOnce(b, r, qs[0]);
      assert SpendAll(b, r, init) == b && SpendAll(o, r, init) == o;
    } else {
      OpeningIsEnough(b, r, init);
      assert SpendAll(b, r, init) == SpendAll(o, r, init);
    }
  }

  lemma LastTime(b: Bucket, r: Rate, qs: seq<Request>)
    requires qs != []
    ensures SpendAll(b, r, qs).at == qs[|qs| - 1].now
  {
  }

  /** A window that leaves no debt granted at most capacity plus the refill of its length. */
  lemma SolventWindow(b: Bucket, r: Rate, qs: seq<Request>)
    requires qs != [] && SpendAll(b, r, qs).budget >= 0.0
    ensures TotalGranted(b, r, qs) <= r.capacity + Gain(qs[0].now, qs[|qs| - 1].now, r)
  {
    var o := Opening(b, r, qs[0].now);
    OpeningIsEnough(b, r, qs);
    GrantsArePaid(o, r, qs);
    LastTime(o, r, qs);
    GainAdds(0.0, qs[0].now, qs[|qs| - 1].now, r);
  }

  /** Any window closed by a grant is bounded so, even if clock readings arrive out of order. */
  lemma WindowEndingInGrant(b: Bucket, r: Rate, init: seq<Request>, q: Request)
    requires q.amount <= Opening(SpendAll(b, r, init), r, q.now).budget
    ensures var qs := init + [q];
      TotalGranted(b, r, qs) <= r.capacity + Gain(qs[0].now, q.now, r)
  {
    var qs := init + [q];
    assert qs[..|qs| - 1] == init;
    assert SpendAll(b, r, qs) == Spend(SpendAll(b, r, init), r, q);
    SolventWindow(b, r, qs);
  }

  lemma OrderedSplit(from: real, before: seq<Request>, window: seq<Request>)
    requires Ordered(from, before + window)
    ensures Ordered(from, before)
    ensures Ordered(if before == [] then from else before[|before| - 1].now, window)
  {
    var all := before + window;
    forall i | 0 <= i < |before| ensures from <= before[i].now && before[i].amount >= 0.0 {
      assert from <= all[i].now && all[i].amount >= 0.0;
    }
    forall i, j | 0 <= i < j < |before| ensures before[i].now <= before[j].now {
      assert all[i].now <= all[j].now;
    }
    forall i, j | 0 <= i < j < |window| ensures window[i].now <= window[j].now {
      assert all[|before| + i].now <= all[|before| + j].now;
    }
    var start := if before == [] then from else before[|before| - 1].now;
    forall i | 0 <= i < |window| ensures start <= window[i].now && window[i].amount >= 0.0 {
      assert from <= all[|before| + i].now && all[|before| + i].amount >= 0.0;
      if before != [] { assert all[|before| - 1].now <= all[|before| + i].now; }
    }
  }

  /** Any window of requests to one bucket grants at most capacity plus refill times its length. */
  lemma BucketWindowBound(b: Bucket, r: Rate, before: seq<Request>, window: seq<Request>)
    requires ValidRate(r) && 0.0 <= b.budget <= r.capacity && Ordered(b.at, before + window) && window != []
    ensures TotalGranted(SpendAll(b, r, before), r, window)
         <= r.capacity + Gain(window[0].now, window[|window| - 1].now, r)
  {
    OrderedSplit(b.at, before, window);
    BudgetInRange(b, r, before);
    BudgetInRange(SpendAll(b, r, before), r, window);
    SolventWindow(SpendAll(b, r, before), r, window);
  }

  // ---- one table: what a request, a connection and an eviction do to a host ----------------------

  ghost predicate Full(t: Table, h: Host, r: Rate, now: real)
  {
    Refilled(t, h, r, now) == r.capacity
  }

  /** Same bucket on both sides, or full on both sides. */
  ghost predicate Agree(t: Table, u: Table, h: Host, r: Rate, now: real)
  {
    || (h in t && h in u && t[h] == u[h])
    || (h !in t && h !in u)
    || (Full(t, h, r, now) && Full(u, h, r, now))
  }

  ghost predicate InPast(t: Table, h: Host, r: Rate, now: real)
  {
    h in t ==> t[h].at <= now && 0.0 <= t[h].budget <= r.capacity
  }

  lemma FullStaysFull(t: Table, h: Host, r: Rate, now: real, later: real)
    requires ValidRate(r) && Full(t, h, r, now) && now <= later
    ensures Full(t, h, r, later)
  {
    if h in t {
      GainGrows(t[h].at, now, later, r);
    }
  }

  lemma AgreeLater(t: Table, u: Table, h: Host, r: Rate, now: real, later: real)
    requires ValidRate(r) && Agree(t, u, h, r, now) && now <= later
    ensures Agree(t, u, h, r, later)
  {
    if Full(t, h, r, now) && Full(u, h, r, now) {
      FullStaysFull(t, h, r, now, later);
      FullStaysFull(u, h, r, now, later);
    }
  }

  lemma AgreeDecides(t: Table, u: Table, h: Host, r: Rate, now: real)
    requires Agree(t, u, h, r, now)
    ensures Refilled(t, h, r, now) == Refilled(u, h, r, now)
  {
  }

  lemma IdleIsFull(t: Table, h: Host, r: Rate, now: real)
    requires ValidRate(r) && r.capacity <= IDLE_SECONDS * r.refill
    requires InPast(t, h, r, now) && h in t && now - t[h].at > IDLE_SECONDS
    ensures Full(t, h, r, now)
  {
    GainOver(t[h].at, IDLE_SECONDS, r);
    GainGrows(t[h].at, t[h].at + IDLE_SECONDS, now, r);
  }

  lemma NewIsFull(t: Table, h: Host, r: Rate, now: real)
    requires h in t && t[h] == Bucket(r.capacity, now)
    ensures Full(t, h, r, now)
  {
    NoGain(now, r);
  }

  lemma AskAgrees(t: Table, u: Table, r: Rate, h': Host, amount: real, h: Host, now: real)
    requires Agree(t, u, h, r, now)
    ensures Agree(Consume(t, h', r, amount, now), Consume(u, h', r, amount, now), h, r, now)
  {
    if h' == h {
      AgreeDecides(t, u, h, r, now);
      assert Consume(t, h', r, amount, now)[h] == Consume(u, h', r, amount, now)[h];
    }
  }

  lemma ConnectAgrees(t: Table, u: Table, r: Rate, h': Host, h: Host, now: real)
    requires Agree(t, u, h, r, now)
    ensures Agree(EnsureBucket(t, h', r, now), EnsureBucket(u, h', r, now), h, r, now)
  {
    if h' == h {
      if h !in t { NewIsFull(EnsureBucket(t, h, r, now), h, r, now); }
      if h !in u { NewIsFull(EnsureBucket(u, h, r, now), h, r, now); }
    }
  }

  lemma EvictAgrees(t: Table, u: Table, r: Rate, active: set<Host>, h: Host, now: real)
    requires ValidRate(r) && r.capacity <= IDLE_SECONDS * r.refill
    requires Agree(t, u, h, r, now) && InPast(t, h, r, now)
    ensures Agree(EvictStale(t, active, now), u, h, r, now)
  {
    if h in t && h !in EvictStale(t, active, now) {
      IdleIsFull(t, h, r, now);
      AgreeDecides(t, u, h, r, now);
    }
  }

  lemma RefilledLater(t: Table, h: Host, r: Rate, now: real, later: real)
    requires ValidRate(r) && now <= later
    ensures Refilled(t, h, r, later) <= Refilled(t, h, r, now) + Gain(now, later, r)
  {
    GainNonNegative(now, later, r);
    if h in t { GainAdds(t[h].at, now, later, r); }
  }

  lemma ConsumePays(t: Table, h': Host, r: Rate, amount: real, now: real, h: Host)
    requires amount >= 0.0
    ensures Refilled(Consume(t, h', r, amount, now), h, r, now) ==
            Refilled(t, h, r, now) - if h' == h && Allows(t, h, r, amount, now) then amount else 0.0
  {
    NoGain(now, r);
  }

  lemma ConsumeInPast(t: Table, h': Host, r: Rate, amount: real, now: real, h: Host)
    requires ValidRate(r) && amount >= 0.0 && InPast(t, h, r, now)
    ensures InPast(Consume(t, h', r, amount, now), h, r, now)
  {
    if h in t { GainNonNegative(t[h].at, now, r); }
  }

  lemma EnsurePays(t: Table, h': Host, r: Rate, now: real, h: Host)
    ensures Refilled(EnsureBucket(t, h', r, now), h, r, now) == Refilled(t, h, r, now)
  {
    NoGain(now, r);
  }

  lemma EvictPays(t: Table, r: Rate, active: set<Host>, now: real, h: Host)
    requires ValidRate(r) && r.capacity <= IDLE_SECONDS * r.refill && InPast(t, h, r, now)
    ensures Refilled(EvictStale(t, active, now), h, r, now) == Refilled(t, h, r, now)
  {
    if h in t && h !in EvictStale(t, active, now) {
      IdleIsFull(t, h, r, now);
    }
  }

  // ---- the two loops ---------------------------------------------------------------------------

  /** `consume_budget` on one table. */
  method ConsumeBudget(t: Table, h: Host, amount: real, r: Rate, now: real) returns (t': Table, allowed: bool)
    ensures t' == Consume(t, h, r, amount, now)
    ensures allowed == Allows(t, h, r, amount, now)
  {
    var b := if h in t then t[h] else Bucket(r.capacity, now);
    NoGain(now, r);
    var budget := MinReal(r.capacity, b.budget + Gain(b.at, now, r));
    allowed := amount <= budget;
    if allowed {
      budget := budget - amount;
    }
    t' := t[h := Bucket(budget, now)];
  }

  /** The stale hosts are listed first and popped one by one. */
  method PopStale(t: Table, active: set<Host>, now: real) returns (t': Table)
    ensures t' == EvictStale(t, active, now)
  {
    var stale := set h | h in t && h !in active && now - t[h].at > IDLE_SECONDS;
    ghost var all := stale;
    t' := t;
    while stale != {}
      invariant stale <= all
      invariant forall h :: h in t' <==> h in t && h !in all - stale
      invariant forall h :: h in t' ==> t'[h] == t[h]
      decreases stale
    {
      var h :| h in stale;
      t' := t' - {h};
      stale := stale - {h};
    }
  }
}
