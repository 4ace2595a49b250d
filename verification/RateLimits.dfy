/** When the gateway of RateGateway keeps its rate limits: exactly when the control rate refills an
    idle bucket before it may be evicted. */
module RateLimits {
  import opened TokenBucket
  import opened RateGateway

  // ---- slow rates: a run in which the eviction shows ----------------------------------------------------

  // The studied host connects, drains its budget and leaves at time 0; thousands of other hosts
  // come and go; more than two minutes later it connects again and drains its budget again.

  const STUDIED: Host := ""
  const CROWD := 4_096

  function Messages(t: Trace, n: nat, now: real): Trace
  {
    if n == 0 then t else Then(Messages(t, n - 1, now), Message(STUDIED, now))
  }

  function Visitor(n: nat): Host
  {
    seq(n + 1, _ => 'x')
  }

  function Visits(t: Trace, n: nat): Trace
  {
    if n == 0 then t
    else Then(Then(Visits(t, n - 1), Connect(Visitor(n - 1), 0.0)), Disconnect(Visitor(n - 1), 0.0))
  }

  function Drained(s: Settings): Trace
    requires Validated(s)
  {
    Messages(Then(Start, Connect(STUDIED, 0.0)), s.burst, 0.0)
  }

  function Crowded(s: Settings, crowd: nat): Trace
    requires Validated(s)
  {
    Visits(Then(Drained(s), Disconnect(STUDIED, 0.0)), crowd)
  }

  function Returned(s: Settings, crowd: nat, now: real): Trace
    requires Validated(s)
  {
    Then(Crowded(s, crowd), Connect(STUDIED, now))
  }

  /** The latest operation, if any, is no later than `now`. */
  ghost predicate UpTo(t: Trace, now: real)
  {
    t.Then? ==> t.op.now <= now
  }

  // A gateway whose studied host is connected, with this control budget as of `now`.
  ghost predicate Holding(g: Gateway, budget: real, now: real)
  {
    STUDIED in g.active && STUDIED in g.control && g.control[STUDIED] == Bucket(budget, now)
  }

  function Spent(g: Gateway, budget: real, now: real): Gateway
  {
    g.(control := g.control[STUDIED := Bucket(budget, now)])
  }

  lemma MessageSpends(g: Gateway, s: Settings, budget: real, after: real, now: real, evicting: bool)
    requires Validated(s) && Holding(g, budget, now) && 1.0 <= budget <= s.burst as real && after == budget - 1.0
    ensures Enabled(g, Message(STUDIED, now)) && GrantTo(g, s, Control, STUDIED, Message(STUDIED, now)) == 1.0
    ensures Apply(g, s, Message(STUDIED, now), evicting) == Spent(g, after, now)
  {
    NoGain(now, RateOf(s, Control));
  }

  lemma SpentTwice(g: Gateway, a: real, b: real, now: real)
    ensures Spent(Spent(g, a, now), b, now) == Spent(g, b, now)
  {
  }

  /** Messages at one instant are granted one by one while the budget lasts. */
  lemma {:induction false} MessagesSpend(t: Trace, s: Settings, budget: real, now: real, n: nat, evicting: bool)
    requires Validated(s) && Holding(Run(s, t, evicting), budget, now) && n as real <= budget <= s.burst as real
    ensures Run(s, Messages(t, n, now), evicting) == Spent(Run(s, t, evicting), budget - n as real, now)
    ensures evicting && LegalRun(s, t) && UpTo(t, now) ==>
      LegalRun(s, Messages(t, n, now)) && UpTo(Messages(t, n, now), now)
  {
    var g := Run(s, t, evicting);
    if n == 0 {
      assert g.control[STUDIED := Bucket(budget, now)] == g.control;
    } else {
      var left, after := budget - (n - 1) as real, budget - n as real;
      MessagesSpend(t, s, budget, now, n - 1, evicting);
      MessageSpends(Spent(g, left, now), s, left, after, now, evicting);
      SpentTwice(g, left, after, now);
    }
  }

  /** What they are granted is their number. */
  lemma {:induction false} MessagesTotal(t: Trace, s: Settings, budget: real, now: real, n: nat)
    requires Validated(s) && Holding(Run(s, t, true), budget, now) && n as real <= budget <= s.burst as real
    ensures TotalOf(s, Messages(t, n, now)) == TotalOf(s, t) + n as real
  {
    if n > 0 {
      var left := budget - (n - 1) as real;
      MessagesTotal(t, s, budget, now, n - 1);
      MessagesSpend(t, s, budget, now, n - 1, true);
      MessageSpends(Spent(Run(s, t, true), left, now), s, left, left - 1.0, now, true);
      TotalStep(s, Messages(t, n - 1, now), Message(STUDIED, now));
    }
  }

  /** All that a run grants the studied host from the control table. */
  function TotalOf(s: Settings, t: Trace): real
  {
    TotalTo(s, Control, STUDIED, t, Length(t))
  }

  lemma TotalStep(s: Settings, prev: Trace, op: Op)
    ensures TotalOf(s, Then(prev, op)) == TotalOf(s, prev) + GrantTo(Run(s, prev, true), s, Control, STUDIED, op)
  {
  }

  predicate Continues(longer: Trace, t: Trace)
  {
    longer == t || (longer.Then? && Continues(longer.prev, t))
  }

  lemma {:induction false} TotalGrows(s: Settings, t: Trace, longer: Trace)
    requires Continues(longer, t)
    ensures TotalOf(s, longer) >= TotalOf(s, t)
  {
    if longer != t {
      TotalGrows(s, t, longer.prev);
      TotalStep(s, longer.prev, longer.op);
    }
  }

  lemma {:induction false} VisitsContinue(t: Trace, n: nat)
    ensures Continues(Visits(t, n), t)
  {
    if n > 0 {
      VisitsContinue(t, n - 1);
    }
  }

  /** Without eviction a budget below `burst` runs out before `burst` messages are granted. */
  lemma {:induction false} MessagesRunOut(t: Trace, s: Settings, now: real, n: nat)
    requires Validated(s) && n < s.burst
    requires Refilled(Run(s, t, false).control, STUDIED, RateOf(s, Control), now) < s.burst as real
    ensures Refilled(Run(s, Messages(t, n, now), false).control, STUDIED, RateOf(s, Control), now) < (s.burst - n) as real
  {
    if n > 0 {
      MessagesRunOut(t, s, now, n - 1);
      ConsumePays(Run(s, Messages(t, n - 1, now), false).control, STUDIED, RateOf(s, Control), 1.0, now, STUDIED);
    }
  }

  // ---- the crowd ------------------------------------------------------------------------------------------

  ghost predicate AtStart(t: Table, h: Host, n: nat)
  {
    h in t ==> |h| <= n && t[h].at == 0.0
  }

  ghost predicate AllAtStart(t: Table, n: nat)
  {
    forall h {:trigger AtStart(t, h, n)} :: AtStart(t, h, n)
  }

  // The studied host drained at time 0 and gone; `n` other hosts have buckets as of time 0.
  ghost predicate CrowdedBy(g: Gateway, n: nat)
  {
    && g.active == map[] && |g.audio| == n + 1 && |g.control| == n + 1
    && AllAtStart(g.audio, n) && AllAtStart(g.control, n)
    && STUDIED in g.control && g.control[STUDIED] == Bucket(0.0, 0.0)
  }

  lemma NothingStale(t: Table, n: nat, active: set<Host>)
    requires AllAtStart(t, n)
    ensures EvictStale(t, active, 0.0) == t
  {
    forall h | h in t ensures h in EvictStale(t, active, 0.0) { assert AtStart(t, h, n); }
  }

  lemma OneMoreHost(t: Table, n: nat, m: nat, capacity: real)
    requires |t| == n + 1 && AllAtStart(t, n) && m == n + 1
    ensures Visitor(n) !in t
    ensures var t' := t[Visitor(n) := Bucket(capacity, 0.0)]; |t'| == m + 1 && AllAtStart(t', m)
  {
    assert AtStart(t, Visitor(n), n);
    var t' := t[Visitor(n) := Bucket(capacity, 0.0)];
    assert t'.Keys == t.Keys + {Visitor(n)};
    forall h ensures AtStart(t', h, m) { assert AtStart(t, h, n); }
  }

  lemma OneMoreVisit(g: Gateway, s: Settings, n: nat, m: nat, evicting: bool)
    requires Validated(s) && CrowdedBy(g, n) && m == n + 1
    ensures var g1 := Apply(g, s, Connect(Visitor(n), 0.0), evicting);
      Enabled(g1, Disconnect(Visitor(n), 0.0)) && CrowdedBy(Apply(g1, s, Disconnect(Visitor(n), 0.0), evicting), m)
  {
    NothingStale(g.audio, n, g.active.Keys);
    NothingStale(g.control, n, g.active.Keys);
    var h, a, c := Visitor(n), RateOf(s, Audio).capacity, RateOf(s, Control).capacity;
    OneMoreHost(g.audio, n, m, a);
    OneMoreHost(g.control, n, m, c);
    var g1 := Apply(g, s, Connect(h, 0.0), evicting);
    assert g1 == Gateway(g.audio[h := Bucket(a, 0.0)], g.control[h := Bucket(c, 0.0)], map[h := 1]);
    assert g1.active - {h} == map[];
  }

  /** Legal so far, at time 0, and nobody is connected. */
  ghost predicate Vacant(s: Settings, t: Trace)
  {
    LegalRun(s, t) && UpTo(t, 0.0) && Run(s, t, true).active == map[]
  }

  lemma ComeAndGo(g: Gateway, s: Settings, h: Host)
    requires Validated(s) && g.active == map[]
    ensures var g' := Apply(g, s, Connect(h, 0.0), true);
      h in g'.active && Apply(g', s, Disconnect(h, 0.0), true).active == map[]
  {
    assert Apply(g, s, Connect(h, 0.0), true).active == map[h := 1];
    assert map[h := 1] - {h} == map[];
  }

  lemma VacantAgain(t: Trace, s: Settings, h: Host)
    requires Validated(s) && Vacant(s, t)
    ensures Vacant(s, Then(Then(t, Connect(h, 0.0)), Disconnect(h, 0.0)))
  {
    ComeAndGo(Run(s, t, true), s, h);
    var arrived := Then(t, Connect(h, 0.0));
    assert Run(s, arrived, true) == Apply(Run(s, t, true), s, Connect(h, 0.0), true);
  }

  function Visited(g: Gateway, s: Settings, n: nat, evicting: bool): Gateway
  {
    if n == 0 then g
    else
      var arrived := Apply(Visited(g, s, n - 1, evicting), s, Connect(Visitor(n - 1), 0.0), evicting);
      Apply(arrived, s, Disconnect(Visitor(n - 1), 0.0), evicting)
  }

  lemma {:induction false} RunVisits(t: Trace, s: Settings, n: nat, evicting: bool)
    ensures Run(s, Visits(t, n), evicting) == Visited(Run(s, t, evicting), s, n, evicting)
  {
    if n > 0 {
      RunVisits(t, s, n - 1, evicting);
      var arrived := Then(Visits(t, n - 1), Connect(Visitor(n - 1), 0.0));
      assert Run(s, Visits(t, n), evicting) == Apply(Run(s, arrived, evicting), s, Disconnect(Visitor(n - 1), 0.0), evicting);
    }
  }

  lemma {:induction false} VisitedFill(g: Gateway, s: Settings, n: nat, evicting: bool)
    requires Validated(s) && CrowdedBy(g, 0)
    ensures CrowdedBy(Visited(g, s, n, evicting), n)
  {
    if n > 0 {
      VisitedFill(g, s, n - 1, evicting);
      OneMoreVisit(Visited(g, s, n - 1, evicting), s, n - 1, n, evicting);
    }
  }

  lemma VisitsFill(t: Trace, s: Settings, n: nat, evicting: bool)
    requires Validated(s) && CrowdedBy(Run(s, t, evicting), 0)
    ensures CrowdedBy(Run(s, Visits(t, n), evicting), n)
  {
    RunVisits(t, s, n, evicting);
    VisitedFill(Run(s, t, evicting), s, n, evicting);
  }

  lemma {:induction false} VisitsLegal(t: Trace, s: Settings, n: nat)
    requires Validated(s) && Vacant(s, t)
    ensures Vacant(s, Visits(t, n))
  {
    if n > 0 {
      VisitsLegal(t, s, n - 1);
      VacantAgain(Visits(t, n - 1), s, Visitor(n - 1));
    }
  }

  // ---- the run ------------------------------------------------------------------------------------------

  lemma FirstConnection(s: Settings, evicting: bool)
    requires Validated(s)
    ensures var full := Bucket(s.burst as real, 0.0);
      Run(s, Then(Start, Connect(STUDIED, 0.0)), evicting)
        == Gateway(map[STUDIED := Bucket(1.0, 0.0)], map[STUDIED := full], map[STUDIED := 1])
    ensures var t := Then(Start, Connect(STUDIED, 0.0)); LegalRun(s, t) && TotalOf(s, t) == 0.0
  {
    var g := RunFrom(IDLE_GATEWAY, s, Start, evicting);
    assert g == IDLE_GATEWAY && Swept(g, 0.0) == g && Connections(g, STUDIED) == 0;
    var g' := Seeded(g, s, STUDIED, 0.0);
    assert g'.audio == map[STUDIED := Bucket(1.0, 0.0)];
    assert g'.control == map[STUDIED := Bucket(s.burst as real, 0.0)];
    assert g'.active == map[STUDIED := 1];
    var t := Then(Start, Connect(STUDIED, 0.0));
    assert Run(s, t, evicting) == g';
    assert Length(Start) == 0 && Length(t) == 1 && TotalTo(s, Control, STUDIED, Start, 0) == 0.0;
    assert LegalRun(s, Start) && Enabled(Run(s, Start, true), t.op);
  }

  lemma DrainedRun(s: Settings, evicting: bool)
    requires Validated(s)
    ensures var g := Run(s, Drained(s), evicting);
      g == Gateway(map[STUDIED := Bucket(1.0, 0.0)], map[STUDIED := Bucket(0.0, 0.0)], map[STUDIED := 1])
    ensures evicting ==> LegalRun(s, Drained(s)) && UpTo(Drained(s), 0.0) && TotalOf(s, Drained(s)) == s.burst as real
  {
    var t := Then(Start, Connect(STUDIED, 0.0));
    FirstConnection(s, evicting);
    MessagesSpend(t, s, s.burst as real, 0.0, s.burst, evicting);
    if evicting {
      MessagesTotal(t, s, s.burst as real, 0.0, s.burst);
    }
  }

  lemma CrowdedRun(s: Settings, crowd: nat, evicting: bool)
    requires Validated(s)
    ensures CrowdedBy(Run(s, Crowded(s, crowd), evicting), crowd)
    ensures evicting ==> LegalRun(s, Crowded(s, crowd)) && UpTo(Crowded(s, crowd), 0.0)
    ensures TotalOf(s, Crowded(s, crowd)) >= s.burst as real
  {
    var gone := Then(Drained(s), Disconnect(STUDIED, 0.0));
    DrainedRun(s, evicting);
    DrainedRun(s, true);
    GoneIsCrowded(Run(s, Drained(s), evicting), s, evicting);
    VisitsFill(gone, s, crowd, evicting);
    if evicting {
      VisitsLegal(gone, s, crowd);
    }
    VisitsContinue(gone, crowd);
    TotalGrows(s, Drained(s), gone);
    TotalGrows(s, gone, Crowded(s, crowd));
  }

  lemma GoneIsCrowded(g: Gateway, s: Settings, evicting: bool)
    requires g == Gateway(map[STUDIED := Bucket(1.0, 0.0)], map[STUDIED := Bucket(0.0, 0.0)], map[STUDIED := 1])
    ensures CrowdedBy(Apply(g, s, Disconnect(STUDIED, 0.0), evicting), 0)
  {
    var none := 0;
    assert map[STUDIED := 1] - {STUDIED} == map[];
    forall h ensures AtStart(g.audio, h, none) && AtStart(g.control, h, none) {}
  }

  lemma SweptReturn(g: Gateway, s: Settings, crowd: nat, now: real)
    requires Validated(s) && CrowdedBy(g, crowd) && crowd >= CROWD && now > IDLE_SECONDS
    ensures Holding(Apply(g, s, Connect(STUDIED, now), true), s.burst as real, now)
    ensures Holding(Apply(g, s, Connect(STUDIED, now), false), 0.0, 0.0)
  {
    assert STUDIED !in EvictStale(g.control, g.active.Keys, now);
  }

  /** With eviction the returning host is seeded afresh; without it, its old bucket still counts. */
  lemma ReturnedRun(s: Settings, crowd: nat, now: real)
    requires Validated(s) && crowd >= CROWD && now > IDLE_SECONDS
    ensures Holding(Run(s, Returned(s, crowd, now), true), s.burst as real, now)
    ensures Holding(Run(s, Returned(s, crowd, now), false), 0.0, 0.0)
    ensures LegalRun(s, Returned(s, crowd, now)) && UpTo(Returned(s, crowd, now), now)
    ensures TotalOf(s, Returned(s, crowd, now)) >= s.burst as real
  {
    CrowdedRun(s, crowd, true);
    CrowdedRun(s, crowd, false);
    SweptReturn(Run(s, Crowded(s, crowd), true), s, crowd, now);
    SweptReturn(Run(s, Crowded(s, crowd), false), s, crowd, now);
    TotalGrows(s, Crowded(s, crowd), Returned(s, crowd, now));
  }

  /** An instant past the idle limit at which a drained bucket is not yet full. */
  lemma LateButNotFull(r: Rate, t: real)
    requires ValidRate(r) && r.capacity > IDLE_SECONDS * r.refill
    requires t == if r.refill == 0.0 then 121.0 else (IDLE_SECONDS + r.capacity / r.refill) / 2.0
    ensures t > IDLE_SECONDS && t * r.refill < r.capacity
  {
    if r.refill > 0.0 {
      var full := r.capacity / r.refill;
      assert full * r.refill == r.capacity;
      if full <= IDLE_SECONDS {
        ProductNonNegative(IDLE_SECONDS - full, r.refill);
      }
      Halves(IDLE_SECONDS, full, r.refill);
    }
  }

  lemma Halves(x: real, y: real, z: real)
    ensures (x + y) / 2.0 * z == (x * z + y * z) / 2.0
  {
  }

  lemma SlowInstant(s: Settings) returns (now: real)
    requires Validated(s) && !FillsInTime(s, Control)
    ensures now > IDLE_SECONDS && Gain(0.0, now, RateOf(s, Control)) < s.burst as real
  {
    var r := RateOf(s, Control);
    now := if r.refill == 0.0 then 121.0 else (IDLE_SECONDS + r.capacity / r.refill) / 2.0;
    LateButNotFull(r, now);
    GainFromStart(now, r);
  }

  lemma GainFromStart(now: real, r: Rate)
    ensures Gain(0.0, now, r) == now * r.refill
  {
  }

  /** With eviction the last of `burst` messages is granted, without it the message is refused. */
  lemma LastMessage(s: Settings, crowd: nat, now: real)
    requires Validated(s) && crowd >= CROWD && now > IDLE_SECONDS && Gain(0.0, now, RateOf(s, Control)) < s.burst as real
    ensures !SameDecision(s, Control, Messages(Returned(s, crowd, now), s.burst - 1, now), Message(STUDIED, now))
  {
    var t, n := Returned(s, crowd, now), s.burst - 1;
    ReturnedRun(s, crowd, now);
    MessagesSpend(t, s, s.burst as real, now, n, true);
    MessagesRunOut(t, s, now, n);
    var left := s.burst as real - n as real;
    MessageSpends(Spent(Run(s, t, true), left, now), s, left, left - 1.0, now, true);
  }

  lemma SlowRefillIsObservable(s: Settings)
    requires Validated(s) && !FillsInTime(s, Control)
    ensures !EvictionUnobservable(s, Control)
  {
    var now := SlowInstant(s);
    var crowd: nat :| crowd >= CROWD;
    var t := Returned(s, crowd, now);
    LastMessage(s, crowd, now);
    SecondBurstIsLegal(s, crowd, now);
    Noticed(s, Messages(t, s.burst - 1, now), Message(STUDIED, now));
  }

  lemma SecondBurstIsLegal(s: Settings, crowd: nat, now: real)
    requires Validated(s) && crowd >= CROWD && now > IDLE_SECONDS
    ensures LegalRun(s, Messages(Returned(s, crowd, now), s.burst, now))
  {
    ReturnedRun(s, crowd, now);
    MessagesSpend(Returned(s, crowd, now), s, s.burst as real, now, s.burst, true);
  }

  lemma Noticed(s: Settings, t: Trace, q: Op)
    requires LegalRun(s, Then(t, q)) && q.Message? && !SameDecision(s, Control, t, q)
    ensures !EvictionUnobservable(s, Control)
  {
  }

  lemma {:induction false} MessagesLast(t: Trace, n: nat, now: real)
    requires n > 0
    ensures Messages(t, n, now).op.now == now
  {
  }

  lemma {:induction false} FirstTimeGrows(t: Trace)
    requires t.Then? && t.prev.Then?
    ensures FirstTime(t, Length(t)) == FirstTime(t.prev, Length(t.prev))
  {
  }

  lemma {:induction false} MessagesFirst(t: Trace, n: nat, now: real)
    requires t.Then?
    ensures Messages(t, n, now).Then? && FirstTime(Messages(t, n, now), Length(Messages(t, n, now))) == FirstTime(t, Length(t))
  {
    if n > 0 {
      MessagesFirst(t, n - 1, now);
      FirstTimeGrows(Messages(t, n, now));
    }
  }

  lemma {:induction false} VisitsFirst(t: Trace, n: nat)
    requires t.Then?
    ensures Visits(t, n).Then? && FirstTime(Visits(t, n), Length(Visits(t, n))) == FirstTime(t, Length(t))
  {
    if n > 0 {
      VisitsFirst(t, n - 1);
      FirstTimeGrows(Visits(t, n).prev);
      FirstTimeGrows(Visits(t, n));
    }
  }

  /** The run begins at time 0. */
  lemma ReturnedFirst(s: Settings, crowd: nat, now: real, n: nat)
    requires Validated(s)
    ensures var t := Messages(Returned(s, crowd, now), n, now); t.Then? && FirstTime(t, Length(t)) == 0.0
  {
    var t := Then(Start, Connect(STUDIED, 0.0));
    MessagesFirst(t, s.burst, 0.0);
    var gone := Then(Drained(s), Disconnect(STUDIED, 0.0));
    FirstTimeGrows(gone);
    VisitsFirst(gone, crowd);
    FirstTimeGrows(Returned(s, crowd, now));
    MessagesFirst(Returned(s, crowd, now), n, now);
  }

  lemma SlowRefillIsUnbounded(s: Settings)
    requires Validated(s) && !FillsInTime(s, Control)
    ensures !WindowsBounded(s, Control)
  {
    var now := SlowInstant(s);
    var crowd: nat :| crowd >= CROWD;
    var t := Returned(s, crowd, now);
    ReturnedRun(s, crowd, now);
    MessagesSpend(t, s, s.burst as real, now, s.burst, true);
    MessagesTotal(t, s, s.burst as real, now, s.burst);
    ReturnedFirst(s, crowd, now, s.burst);
    MessagesLast(t, s.burst, now);
    ExceedsRate(s, Messages(t, s.burst, now), now);
  }

  /** Two bursts are more than one burst and the refill. */
  lemma ExceedsRate(s: Settings, t: Trace, now: real)
    requires t.Then? && LegalRun(s, t) && FirstTime(t, Length(t)) == 0.0 && t.op.now == now
    requires TotalOf(s, t) >= 2.0 * s.burst as real && Gain(0.0, now, RateOf(s, Control)) < s.burst as real
    ensures !WindowsBounded(s, Control)
  {
    assert !WithinRate(s, Control, STUDIED, t, Length(t));
  }

  // ---- the two exact conditions -------------------------------------------------------------------------------

  /** A host is never granted more than its rate allows exactly when an idle bucket has time to fill
      up again before it may be evicted. The audio table always meets the condition. */
  lemma WindowBoundExactly(s: Settings, x: Which)
    requires Validated(s)
    ensures WindowsBounded(s, x) <==> x.Audio? || s.burst as real <= IDLE_SECONDS * s.refill
  {
    if FillsInTime(s, x) {
      BoundedIfFilling(s, x);
    } else {
      SlowRefillIsUnbounded(s);
    }
  }

  /** Eviction can never be noticed under exactly the same condition. */
  lemma EvictionUnobservableExactly(s: Settings, x: Which)
    requires Validated(s)
    ensures EvictionUnobservable(s, x) <==> x.Audio? || s.burst as real <= IDLE_SECONDS * s.refill
  {
    if FillsInTime(s, x) {
      UnobservableIfFilling(s, x);
    } else {
      SlowRefillIsObservable(s);
    }
  }

  /** The validated ranges admit settings that fail both; the default settings meet both. */
  lemma SomeSettingsAreTooSlow()
    ensures exists s :: Validated(s) && !WindowsBounded(s, Control) && !EvictionUnobservable(s, Control)
    ensures var s := Settings(20, 10.0, 4); Validated(s) && WindowsBounded(s, Control) && EvictionUnobservable(s, Control)
  {
    var slow := Settings(10_000, 0.1, 4);
    WindowBoundExactly(slow, Control);
    EvictionUnobservableExactly(slow, Control);
    WindowBoundExactly(Settings(20, 10.0, 4), Control);
    EvictionUnobservableExactly(Settings(20, 10.0, 4), Control);
  }
}
