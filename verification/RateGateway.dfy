/** The gateway around the token buckets, services/realtime/src/echoweave/app.py: two tables, the
    connections of each host, and the eviction that an admission triggers when the tables are large. */
module RateGateway {
  import opened TokenBucket

  // ---- the gateway: two tables, connections, guarded eviction ---------------------------------------

  datatype Which = Audio | Control

  datatype Settings = Settings(burst: int, refill: real, perHost: int)

  const MIC_RATE := Rate(1.0, 1.25)

  /** The ranges that the settings are validated against. */
  predicate Validated(s: Settings)
  {
    1 <= s.burst <= 10_000 && 0.1 <= s.refill <= 1_000.0 && 1 <= s.perHost <= 100
  }

  function RateOf(s: Settings, x: Which): Rate
  {
    if x.Audio? then MIC_RATE else Rate(s.burst as real, s.refill)
  }

  datatype Gateway = Gateway(audio: Table, control: Table, active: map<Host, int>) {
    function Get(x: Which): Table
    {
      if x.Audio? then audio else control
    }
  }

  const IDLE_GATEWAY := Gateway(map[], map[], map[])

  // A microphone frame of so many seconds asks the audio table; a text message asks for one unit
  // of the control table.
  datatype Op =
    | Connect(h: Host, now: real)
    | Disconnect(h: Host, now: real)
    | Frame(h: Host, seconds: real, now: real)
    | Message(h: Host, now: real)

  predicate Asks(op: Op, x: Which)
  {
    if x.Audio? then op.Frame? else op.Message?
  }

  function Amount(op: Op): real
  {
    if op.Frame? then op.seconds else 1.0
  }

  function Connections(g: Gateway, h: Host): int
  {
    if h in g.active then g.active[h] else 0
  }

  /** Stale buckets go only when the two tables together have grown large. */
  function Swept(g: Gateway, now: real): Gateway
  {
    if |g.audio| + |g.control| > TABLE_LIMIT then
      g.(audio := EvictStale(g.audio, g.active.Keys, now), control := EvictStale(g.control, g.active.Keys, now))
    else g
  }

  function Seeded(g: Gateway, s: Settings, h: Host, now: real): Gateway
  {
    if Connections(g, h) >= s.perHost then g
    else g.(active := g.active[h := Connections(g, h) + 1],
            audio := EnsureBucket(g.audio, h, RateOf(s, Audio), now),
            control := EnsureBucket(g.control, h, RateOf(s, Control), now))
  }

  function Apply(g: Gateway, s: Settings, op: Op, evicting: bool): Gateway
  {
    match op
    case Connect(h, now) => Seeded(if evicting then Swept(g, now) else g, s, h, now)
    case Disconnect(h, _) =>
      g.(active := if Connections(g, h) > 1 then g.active[h := Connections(g, h) - 1] else g.active - {h})
    case Frame(h, seconds, now) => g.(audio := Consume(g.audio, h, RateOf(s, Audio), seconds, now))
    case Message(h, now) => g.(control := Consume(g.control, h, RateOf(s, Control), 1.0, now))
  }

  /** Only a connected host asks or disconnects. */
  predicate Enabled(g: Gateway, op: Op)
  {
    && (!op.Connect? ==> op.h in g.active)
    && (op.Frame? ==> op.seconds >= 0.0)
  }

  /** A run: the operations so far, latest outermost. */
  datatype Trace = Start | Then(prev: Trace, op: Op)

  function RunFrom(g: Gateway, s: Settings, t: Trace, evicting: bool): Gateway
  {
    match t
    case Start => g
    case Then(prev, op) => Apply(RunFrom(g, s, prev, evicting), s, op, evicting)
  }

  function Run(s: Settings, t: Trace, evicting: bool): Gateway
  {
    RunFrom(IDLE_GATEWAY, s, t, evicting)
  }

  /** A run of the gateway as it is, with eviction, under a monotone clock. */
  ghost predicate LegalRun(s: Settings, t: Trace)
  {
    match t
    case Start => true
    case Then(prev, op) =>
      LegalRun(s, prev) && Enabled(Run(s, prev, true), op) && (prev.Then? ==> prev.op.now <= op.now)
  }

  function Decision(g: Gateway, s: Settings, op: Op, x: Which): bool
  {
    Allows(g.Get(x), op.h, RateOf(s, x), Amount(op), op.now)
  }

  function GrantTo(g: Gateway, s: Settings, x: Which, h: Host, op: Op): real
  {
    if Asks(op, x) && op.h == h && Decision(g, s, op, x) then Amount(op) else 0.0
  }

  function Length(t: Trace): nat
  {
    if t.Start? then 0 else Length(t.prev) + 1
  }

  // A window of a run is given by its end, a run, and the number of its operations.

  /** What the gateway grants a host during the last `k` operations. */
  function TotalTo(s: Settings, x: Which, h: Host, t: Trace, k: nat): real
    requires k <= Length(t)
  {
    if k == 0 then 0.0
    else TotalTo(s, x, h, t.prev, k - 1) + GrantTo(Run(s, t.prev, true), s, x, h, t.op)
  }

  /** The time of the first of the last `k` operations. */
  function FirstTime(t: Trace, k: nat): real
    requires 1 <= k <= Length(t)
  {
    if k == 1 then t.op.now else FirstTime(t.prev, k - 1)
  }

  ghost predicate WithinRate(s: Settings, x: Which, h: Host, t: Trace, k: nat)
    requires 1 <= k <= Length(t)
  {
    TotalTo(s, x, h, t, k) <= RateOf(s, x).capacity + Gain(FirstTime(t, k), t.op.now, RateOf(s, x))
  }

  /** In every window of every run every host gets at most capacity plus refill times the length. */
  ghost predicate WindowsBounded(s: Settings, x: Which)
  {
    forall h, t, k {:trigger WithinRate(s, x, h, t, k)} :: LegalRun(s, t) && 1 <= k <= Length(t) ==> WithinRate(s, x, h, t, k)
  }

  ghost predicate SameDecision(s: Settings, x: Which, t: Trace, q: Op)
  {
    Decision(Run(s, t, true), s, q, x) == Decision(Run(s, t, false), s, q, x)
  }

  /** Every decision of every run is the same with and without eviction. */
  ghost predicate EvictionUnobservable(s: Settings, x: Which)
  {
    forall t, q {:trigger SameDecision(s, x, t, q)} :: LegalRun(s, Then(t, q)) && Asks(q, x) ==> SameDecision(s, x, t, q)
  }

  ghost predicate FillsInTime(s: Settings, x: Which)
  {
    RateOf(s, x).capacity <= IDLE_SECONDS * RateOf(s, x).refill
  }

  lemma StepInPast(g: Gateway, s: Settings, op: Op, x: Which, h: Host)
    requires Validated(s) && Enabled(g, op) && InPast(g.Get(x), h, RateOf(s, x), op.now)
    ensures InPast(Apply(g, s, op, true).Get(x), h, RateOf(s, x), op.now)
  {
    var r := RateOf(s, x);
    match op
    case Connect(_, _) =>
    case Disconnect(_, _) =>
    case Frame(h', seconds, now) => ConsumeInPast(g.Get(x), h', r, seconds, now, h);
    case Message(h', now) => ConsumeInPast(g.Get(x), h', r, 1.0, now, h);
  }

  lemma {:induction false} RunInPast(s: Settings, t: Trace, x: Which, h: Host, now: real)
    requires Validated(s) && LegalRun(s, t) && (t.Then? ==> t.op.now <= now)
    ensures InPast(Run(s, t, true).Get(x), h, RateOf(s, x), now)
  {
    if t.Then? {
      RunInPast(s, t.prev, x, h, t.op.now);
      StepInPast(Run(s, t.prev, true), s, t.op, x, h);
    }
  }

  // ---- windows ------------------------------------------------------------------------------------------

  /** What an operation grants comes out of the host's budget. */
  lemma StepPays(g: Gateway, s: Settings, op: Op, x: Which, h: Host)
    requires Validated(s) && FillsInTime(s, x) && Enabled(g, op) && InPast(g.Get(x), h, RateOf(s, x), op.now)
    ensures var r := RateOf(s, x);
      Refilled(Apply(g, s, op, true).Get(x), h, r, op.now) == Refilled(g.Get(x), h, r, op.now) - GrantTo(g, s, x, h, op)
  {
    var r, t := RateOf(s, x), g.Get(x);
    match op
    case Connect(h', now) =>
      EvictPays(t, r, g.active.Keys, now, h);
      EnsurePays(t, h', r, now, h);
      EnsurePays(EvictStale(t, g.active.Keys, now), h', r, now, h);
    case Disconnect(_, _) =>
    case Frame(h', seconds, now) => ConsumePays(t, h', r, seconds, now, h);
    case Message(h', now) => ConsumePays(t, h', r, 1.0, now, h);
  }

  lemma {:induction false} WindowPays(s: Settings, x: Which, h: Host, t: Trace, k: nat)
    requires Validated(s) && FillsInTime(s, x) && LegalRun(s, t) && 1 <= k <= Length(t)
    ensures var r := RateOf(s, x);
      TotalTo(s, x, h, t, k) + Refilled(Run(s, t, true).Get(x), h, r, t.op.now)
        <= r.capacity + Gain(FirstTime(t, k), t.op.now, r)
  {
    var r, g, now := RateOf(s, x), Run(s, t.prev, true), t.op.now;
    RunInPast(s, t.prev, x, h, now);
    StepPays(g, s, t.op, x, h);
    if k == 1 {
      NoGain(now, r);
    } else {
      var prior := t.prev.op.now;
      WindowPays(s, x, h, t.prev, k - 1);
      RefilledLater(g.Get(x), h, r, prior, now);
      GainAdds(FirstTime(t, k), prior, now, r);
    }
  }

  lemma BoundedIfFilling(s: Settings, x: Which)
    requires Validated(s) && FillsInTime(s, x)
    ensures WindowsBounded(s, x)
  {
    forall h, t, k | LegalRun(s, t) && 1 <= k <= Length(t) ensures WithinRate(s, x, h, t, k) {
      WindowPays(s, x, h, t, k);
      RunInPast(s, t, x, h, t.op.now);
      RefilledNonNegative(Run(s, t, true).Get(x), h, RateOf(s, x), t.op.now);
    }
  }

  lemma RefilledNonNegative(t: Table, h: Host, r: Rate, now: real)
    requires ValidRate(r) && InPast(t, h, r, now)
    ensures Refilled(t, h, r, now) >= 0.0
  {
    if h in t {
      GainNonNegative(t[h].at, now, r);
    }
  }

  // ---- eviction unobserved ---------------------------------------------------------------------------------

  lemma SweptAgrees(g: Gateway, u: Gateway, s: Settings, x: Which, h: Host, now: real)
    requires Validated(s) && FillsInTime(s, x)
    requires Agree(g.Get(x), u.Get(x), h, RateOf(s, x), now) && InPast(g.Get(x), h, RateOf(s, x), now)
    ensures Agree(Swept(g, now).Get(x), u.Get(x), h, RateOf(s, x), now)
  {
    EvictAgrees(g.Get(x), u.Get(x), RateOf(s, x), g.active.Keys, h, now);
  }

  lemma ConnectStepAgrees(g: Gateway, u: Gateway, s: Settings, h': Host, x: Which, h: Host, now: real)
    requires Validated(s) && FillsInTime(s, x) && g.active == u.active
    requires Agree(g.Get(x), u.Get(x), h, RateOf(s, x), now) && InPast(g.Get(x), h, RateOf(s, x), now)
    ensures Agree(Seeded(Swept(g, now), s, h', now).Get(x), Seeded(u, s, h', now).Get(x), h, RateOf(s, x), now)
  {
    SweptAgrees(g, u, s, x, h, now);
    var t := Swept(g, now).Get(x);
    assert Seeded(Swept(g, now), s, h', now).Get(x) ==
           if Connections(g, h') >= s.perHost then t else EnsureBucket(t, h', RateOf(s, x), now);
    ConnectAgrees(t, u.Get(x), RateOf(s, x), h', h, now);
  }

  lemma StepAgrees(g: Gateway, u: Gateway, s: Settings, op: Op, x: Which, h: Host)
    requires Validated(s) && FillsInTime(s, x) && g.active == u.active
    requires Agree(g.Get(x), u.Get(x), h, RateOf(s, x), op.now) && InPast(g.Get(x), h, RateOf(s, x), op.now)
    ensures Agree(Apply(g, s, op, true).Get(x), Apply(u, s, op, false).Get(x), h, RateOf(s, x), op.now)
    ensures Apply(g, s, op, true).active == Apply(u, s, op, false).active
  {
    var r, t, v := RateOf(s, x), g.Get(x), u.Get(x);
    match op
    case Connect(h', now) => ConnectStepAgrees(g, u, s, h', x, h, now);
    case Disconnect(_, _) =>
    case Frame(h', seconds, now) => AskAgrees(t, v, r, h', seconds, h, now);
    case Message(h', now) => AskAgrees(t, v, r, h', 1.0, h, now);
  }

  lemma {:induction false} RunAgrees(s: Settings, t: Trace, x: Which, h: Host, now: real)
    requires Validated(s) && FillsInTime(s, x) && LegalRun(s, t) && (t.Then? ==> t.op.now <= now)
    ensures Agree(Run(s, t, true).Get(x), Run(s, t, false).Get(x), h, RateOf(s, x), now)
    ensures Run(s, t, true).active == Run(s, t, false).active
  {
    if t.Then? {
      var g, u := Run(s, t.prev, true), Run(s, t.prev, false);
      RunAgrees(s, t.prev, x, h, t.op.now);
      RunInPast(s, t.prev, x, h, t.op.now);
      StepAgrees(g, u, s, t.op, x, h);
      AgreeLater(Run(s, t, true).Get(x), Run(s, t, false).Get(x), h, RateOf(s, x), t.op.now, now);
    }
  }

  lemma UnobservableIfFilling(s: Settings, x: Which)
    requires Validated(s) && FillsInTime(s, x)
    ensures EvictionUnobservable(s, x)
  {
    forall t, q | LegalRun(s, Then(t, q)) && Asks(q, x) ensures SameDecision(s, x, t, q) {
      RunAgrees(s, t, x, q.h, q.now);
      AgreeDecides(Run(s, t, true).Get(x), Run(s, t, false).Get(x), q.h, RateOf(s, x), q.now);
    }
  }

  // ---- one bucket inside the gateway ----------------------------------------------------------------------------

  /** A host's requests to one table, as the single bucket sees them. */
  function RequestsOf(t: Trace, x: Which, h: Host): seq<Request>
  {
    if t.Start? then []
    else RequestsOf(t.prev, x, h) + if Asks(t.op, x) && t.op.h == h then [Request(t.op.now, Amount(t.op))] else []
  }

  lemma UnevictedStep(g: Gateway, s: Settings, op: Op, x: Which, h: Host)
    requires h in g.Get(x)
    ensures var t, b := Apply(g, s, op, false).Get(x), g.Get(x)[h];
      h in t && t[h] == if Asks(op, x) && op.h == h then Spend(b, RateOf(s, x), Request(op.now, Amount(op))) else b
  {
    match op
    case Connect(_, _) =>
    case Disconnect(_, _) =>
    case Frame(_, _, _) =>
    case Message(_, _) =>
  }

  /** As long as nothing is evicted, a host's entry is the single bucket of the first theorems. */
  lemma {:induction false} TableFollowsBucket(g: Gateway, s: Settings, t: Trace, x: Which, h: Host)
    requires h in g.Get(x)
    ensures var table := RunFrom(g, s, t, false).Get(x);
      h in table && table[h] == SpendAll(g.Get(x)[h], RateOf(s, x), RequestsOf(t, x, h))
  {
    if t.Then? {
      TableFollowsBucket(g, s, t.prev, x, h);
      UnevictedStep(RunFrom(g, s, t.prev, false), s, t.op, x, h);
      var qs, q := RequestsOf(t.prev, x, h), Request(t.op.now, Amount(t.op));
      assert (qs + [q])[..|qs|] == qs;
      assert qs + [] == qs;
    }
  }

  // ---- the gateway's objects ------------------------------------------------------------------------------------

  class Limiter {
    const settings: Settings
    var audio: Table
    var control: Table
    var active: map<Host, int>

    constructor (settings: Settings)
      ensures this.settings == settings && State() == IDLE_GATEWAY
    {
      this.settings := settings;
      audio, control, active := map[], map[], map[];
    }

    function State(): Gateway
      reads this
    {
      Gateway(audio, control, active)
    }

    method TakeFrame(h: Host, seconds: real, now: real) returns (allowed: bool)
      modifies `audio
      ensures State() == Apply(old(State()), settings, Frame(h, seconds, now), true)
      ensures allowed == Decision(old(State()), settings, Frame(h, seconds, now), Audio)
    {
      audio, allowed := ConsumeBudget(audio, h, seconds, MIC_RATE, now);
    }

    method TakeMessage(h: Host, now: real) returns (allowed: bool)
      modifies `control
      ensures State() == Apply(old(State()), settings, Message(h, now), true)
      ensures allowed == Decision(old(State()), settings, Message(h, now), Control)
    {
      control, allowed := ConsumeBudget(control, h, 1.0, Rate(settings.burst as real, settings.refill), now);
    }

    /** The admission of a connection: evict when the tables are large, then count and seed. */
    method Admit(h: Host, now: real) returns (admitted: bool)
      modifies this
      ensures State() == Apply(old(State()), settings, Connect(h, now), true)
      ensures admitted <==> Connections(old(State()), h) < settings.perHost
    {
      if |audio| + |control| > TABLE_LIMIT {
        audio := PopStale(audio, active.Keys, now);
        control := PopStale(control, active.Keys, now);
      }
      var count := if h in active then active[h] else 0;
      if count >= settings.perHost {
        return false;
      }
      active := active[h := count + 1];
      if h !in audio {
        audio := audio[h := Bucket(MIC_RATE.capacity, now)];
      }
      if h !in control {
        control := control[h := Bucket(settings.burst as real, now)];
      }
      return true;
    }

    method Leave(h: Host, now: real)
      modifies `active
      ensures State() == Apply(old(State()), settings, Disconnect(h, now), true)
    {
      var remaining := (if h in active then active[h] else 1) - 1;
      if remaining > 0 {
        active := active[h := remaining];
      } else {
        active := active - {h};
      }
    }
  }
}
