/** What the gateway decides: which requests are granted, when buckets are evicted, and how
    connections are counted. */
module RateDecisions {
  import opened TokenBucket
  import opened RateGateway

  // ---- grants ---------------------------------------------------------------------------------------

  /** What a window of `k` operations, up to `now`, could still be granted. */
  function Room(s: Settings, x: Which, h: Host, t: Trace, k: nat, now: real): real
    requires 1 <= k <= Length(t)
  {
    RateOf(s, x).capacity + Gain(FirstTime(t, k), now, RateOf(s, x)) - TotalTo(s, x, h, t, k)
  }

  lemma RefilledFrom(table: Table, h: Host, r: Rate, now: real, later: real)
    requires ValidRate(r) && now <= later
    ensures Refilled(table, h, r, later) == MinReal(r.capacity, Refilled(table, h, r, now) + Gain(now, later, r))
  {
    GainNonNegative(now, later, r);
    if h in table { GainAdds(table[h].at, now, later, r); }
  }

  lemma RoomLater(s: Settings, x: Which, h: Host, t: Trace, k: nat, now: real, later: real)
    requires 1 <= k <= Length(t)
    ensures Room(s, x, h, t, k, later) == Room(s, x, h, t, k, now) + Gain(now, later, RateOf(s, x))
  {
    GainAdds(FirstTime(t, k), now, later, RateOf(s, x));
  }

  lemma RoomOfLast(s: Settings, x: Which, h: Host, t: Trace)
    requires t.Then?
    ensures Room(s, x, h, t, 1, t.op.now) == RateOf(s, x).capacity - GrantTo(Run(s, t.prev, true), s, x, h, t.op)
  {
    assert TotalTo(s, x, h, t.prev, 0) == 0.0;
    NoGain(t.op.now, RateOf(s, x));
  }

  lemma RoomOfMore(s: Settings, x: Which, h: Host, t: Trace, k: nat, more: nat, now: real)
    requires t.Then? && 1 <= k <= Length(t.prev) && more == k + 1
    ensures Room(s, x, h, t, more, now) == Room(s, x, h, t.prev, k, now) - GrantTo(Run(s, t.prev, true), s, x, h, t.op)
  {
  }

  /** A host's budget is the full capacity or exactly the room of some window. */
  lemma {:induction false} SomeWindowIsTight(s: Settings, x: Which, h: Host, t: Trace, now: real) returns (k: nat)
    requires Validated(s) && FillsInTime(s, x) && LegalRun(s, t) && (t.Then? ==> t.op.now <= now)
    ensures k <= Length(t)
    ensures Refilled(Run(s, t, true).Get(x), h, RateOf(s, x), now)
         == if k == 0 then RateOf(s, x).capacity else Room(s, x, h, t, k, now)
  {
    k := 0;
    if t.Then? {
      var r, at, g := RateOf(s, x), t.op.now, Run(s, t.prev, true);
      var j := SomeWindowIsTight(s, x, h, t.prev, at);
      RunInPast(s, t.prev, x, h, at);
      StepPays(g, s, t.op, x, h);
      RefilledFrom(Run(s, t, true).Get(x), h, r, at, now);
      RoomOfLast(s, x, h, t);
      var i := j + 1;
      if j > 0 {
        RoomOfMore(s, x, h, t, j, i, at);
      }
      assert Refilled(Run(s, t, true).Get(x), h, r, at) == Room(s, x, h, t, i, at);
      RoomLater(s, x, h, t, i, at, now);
      if Refilled(Run(s, t, true).Get(x), h, r, now) != r.capacity {
        k := i;
      }
    }
  }

  /** No window has less room than the budget. */
  lemma WindowsHaveRoom(s: Settings, x: Which, h: Host, t: Trace, k: nat, now: real)
    requires Validated(s) && FillsInTime(s, x) && LegalRun(s, t) && 1 <= k <= Length(t) && t.op.now <= now
    ensures Refilled(Run(s, t, true).Get(x), h, RateOf(s, x), now) <= Room(s, x, h, t, k, now)
  {
    var r, table := RateOf(s, x), Run(s, t, true).Get(x);
    WindowPays(s, x, h, t, k);
    RefilledLater(table, h, r, t.op.now, now);
    RoomLater(s, x, h, t, k, t.op.now, now);
  }

  /** Where idle buckets fill in time, the gateway refuses a request exactly if granting it would exceed
      capacity plus refill in some window ending with it, however the host came and went and whatever
      was evicted: it grants all that the rate allows. */
  lemma GrantedExactly(s: Settings, x: Which, t: Trace, q: Op)
    requires Validated(s) && FillsInTime(s, x) && LegalRun(s, Then(t, q)) && Asks(q, x)
    ensures Decision(Run(s, t, true), s, q, x) <==>
      && Amount(q) <= RateOf(s, x).capacity
      && forall k :: 1 <= k <= Length(t) ==>
           Amount(q) <= Room(s, x, q.h, t, k, q.now)
  {
    var budget := Refilled(Run(s, t, true).Get(x), q.h, RateOf(s, x), q.now);
    var j := SomeWindowIsTight(s, x, q.h, t, q.now);
    assert budget <= RateOf(s, x).capacity;
    forall k | 1 <= k <= Length(t) ensures budget <= Room(s, x, q.h, t, k, q.now) {
      WindowsHaveRoom(s, x, q.h, t, k, q.now);
    }
  }

  /** The rates: one second of microphone audio refilled at five quarters of real time, and the
      configured burst and refill for messages, of which each costs one. */
  lemma Rates(s: Settings, op: Op)
    ensures RateOf(s, Audio) == Rate(1.0, 1.25) && RateOf(s, Control) == Rate(s.burst as real, s.refill)
    ensures op.Message? ==> Amount(op) == 1.0 && Asks(op, Control) && !Asks(op, Audio)
    ensures op.Frame? ==> Amount(op) == op.seconds && Asks(op, Audio) && !Asks(op, Control)
  {
  }

  // ---- eviction and admission --------------------------------------------------------------------------

  predicate Idle(g: Gateway, table: Table, y: Host, now: real)
    requires y in table
  {
    y !in g.active && now - table[y].at > 120.0
  }

  /** Admission evicts the idle hosts without a connection from both tables, if together they hold more
      than 8192 buckets; then an admitted host that has no bucket gets a full one. */
  lemma ConnectExactly(g: Gateway, s: Settings, h: Host, now: real, x: Which, y: Host)
    ensures var g' := Apply(g, s, Connect(h, now), true);
      var t, t' := g.Get(x), g'.Get(x);
      var evicted := |g.audio| + |g.control| > 8192 && y in t && Idle(g, t, y, now);
      var admitted := (if h in g.active then g.active[h] else 0) < s.perHost;
      && (y in t' <==> (y in t && !evicted) || (admitted && y == h))
      && (y in t' ==> t'[y] == if y in t && !evicted then t[y] else Bucket(RateOf(s, x).capacity, now))
      && g'.active == if admitted then g.active[h := (if h in g.active then g.active[h] else 0) + 1] else g.active
  {
  }

  /** A disconnection counts down and forgets a host at zero; requests count nothing. */
  lemma OthersExactly(g: Gateway, s: Settings, op: Op)
    requires !op.Connect?
    ensures var g' := Apply(g, s, op, true);
      && (!op.Frame? ==> g'.audio == g.audio)
      && (!op.Message? ==> g'.control == g.control)
      && g'.audio - {op.h} == g.audio - {op.h} && g'.control - {op.h} == g.control - {op.h}
      && g'.active == if !op.Disconnect? then g.active
                      else if op.h in g.active && g.active[op.h] > 1 then g.active[op.h := g.active[op.h] - 1]
                      else g.active - {op.h}
  {
  }

  /** Over any run a host is remembered as connected only with a count from one to the limit. */
  lemma {:induction false} ConnectionsBounded(s: Settings, t: Trace, h: Host)
    requires Validated(s) && LegalRun(s, t) && h in Run(s, t, true).active
    ensures 1 <= Run(s, t, true).active[h] <= s.perHost
  {
    if h in Run(s, t.prev, true).active {
      ConnectionsBounded(s, t.prev, h);
    }
    if t.op.Connect? {
      ConnectExactly(Run(s, t.prev, true), s, t.op.h, t.op.now, Audio, h);
    } else {
      OthersExactly(Run(s, t.prev, true), s, t.op);
    }
  }
}
