/** One-time session tokens of services/realtime/src/echoweave/auth.py: a bounded cache that
    evicts expired entries, compared with a set that never forgets. */
module ReplayCache {

  import opened Options
  import opened Sets

  type Jti = string

  type Entries = map<Jti, int>

  // The claims of a token whose signature, header and shape were accepted.
  datatype Token = Token(jti: Jti, issuedAt: int, expiresAt: int)

  datatype Policy = Policy(skew: nat, maxLifetime: int, capacity: nat)

  datatype Answer = Accepted | NotYetValid | TokenExpired | BadLifetime | AlreadyUsed | AtCapacity

  function Max(a: int, b: int): int { if a < b then b else a }

  // ---- the cache -------------------------------------------------------------------------

  // Outside its domain the comprehension is pinned to 0, so that equal maps have equal terms.
  function Evict(entries: Entries, now: int): Entries
  {
    map j | j in entries && entries[j] >= now :: if j in entries && entries[j] >= now then entries[j] else 0
  }

  function Consume(entries: Entries, capacity: nat, jti: Jti, expiresAt: int, now: int): (Entries, Answer)
  {
    var kept := Evict(entries, now);
    if jti in kept then (kept, AlreadyUsed)
    else if |kept| >= capacity then (kept, AtCapacity)
    else (kept[jti := expiresAt], Accepted)
  }

  /** The claim checks of `_decode_token`. */
  function Screen(t: Token, p: Policy, now: int): Answer
  {
    if t.issuedAt > now + p.skew then NotYetValid
    else if t.expiresAt < now - p.skew then TokenExpired
    else if t.expiresAt - t.issuedAt < 1 || t.expiresAt - t.issuedAt > p.maxLifetime then BadLifetime
    else Accepted
  }

  /** `verify_session_token` with a cache: the claims are screened at one reading of the clock and
      the token is consumed at a later one; the entry outlives the token by the skew at that reading. */
  function Verify(entries: Entries, t: Token, p: Policy, screened: int, consumed: int): (Entries, Answer)
  {
    if Screen(t, p, screened) != Accepted then (entries, Screen(t, p, screened))
    else Consume(entries, p.capacity, t.jti, Max(t.expiresAt, consumed + p.skew), consumed)
  }

  class Cache {
    const maxEntries: nat
    var entries: Entries

    /** The range check of `__init__`; None is the error it raises. */
    static method Create(maxEntries: int) returns (r: Option<Cache>)
      ensures r.Some? <==> 1 <= maxEntries <= 1_000_000
      ensures r.Some? ==> fresh(r.value) && r.value.Valid() && r.value.entries == map[] && r.value.maxEntries == maxEntries
    {
      if !(1 <= maxEntries <= 1_000_000) {
        return None;
      }
      var c := new Cache(maxEntries);
      return Some(c);
    }

    constructor (maxEntries: nat)
      requires 1 <= maxEntries <= 1_000_000
      ensures this.maxEntries == maxEntries && entries == map[] && Valid()
    {
      this.maxEntries, entries := maxEntries, map[];
    }

    ghost predicate Valid()
      reads this
    {
      |entries| <= maxEntries
    }

    /** The eviction loop: every key whose expiry lies in the past is popped. */
    method EvictExpired(now: int)
      requires Valid()
      modifies this
      ensures Valid() && entries == Evict(old(entries), now)
    {
      var expired := set j | j in entries && entries[j] < now;
      ghost var all := expired;
      while expired != {}
        invariant expired <= all
        invariant forall j :: j in entries <==> j in old(entries) && j !in all - expired
        invariant forall j :: j in entries ==> entries[j] == old(entries)[j]
        decreases expired
      {
        var key :| key in expired;
        entries := entries - {key};
        expired := expired - {key};
      }
      SubsetSize(entries.Keys, old(entries).Keys);
    }

    method ConsumeToken(jti: Jti, expiresAt: int, now: int) returns (answer: Answer)
      requires Valid()
      modifies this
      ensures Valid()
      ensures (entries, answer) == Consume(old(entries), maxEntries, jti, expiresAt, now)
    {
      EvictExpired(now);
      if jti in entries {
        return AlreadyUsed;
      }
      if |entries| >= maxEntries {
        return AtCapacity;
      }
      assert entries[jti := expiresAt].Keys == entries.Keys + {jti};
      entries := entries[jti := expiresAt];
      return Accepted;
    }

    /** `consume=False` validates the token without using it up. */
    method VerifySession(t: Token, p: Policy, consume: bool, screened: int, consumed: int) returns (answer: Answer)
      requires Valid() && p.capacity == maxEntries
      modifies this
      ensures Valid()
      ensures consume ==> (entries, answer) == Verify(old(entries), t, p, screened, consumed)
      ensures !consume ==> entries == old(entries) && answer == Screen(t, p, screened)
    {
      answer := Screen(t, p, screened);
      if answer == Accepted && consume {
        answer := ConsumeToken(t.jti, Max(t.expiresAt, consumed + p.skew), consumed);
      }
    }
  }

  // ---- what a call is answered, and what the cache then holds -----------------------------------

  /** The tokens whose entries have not lapsed. */
  function Remaining(entries: Entries, now: int): set<Jti>
  {
    set j | j in entries && entries[j] >= now
  }

  lemma EvictKeepsRemaining(entries: Entries, now: int)
    ensures Evict(entries, now).Keys == Remaining(entries, now) && |Evict(entries, now)| == |Remaining(entries, now)|
    ensures forall j :: j in Remaining(entries, now) ==> Evict(entries, now)[j] == entries[j]
  {
    assert Evict(entries, now).Keys == Remaining(entries, now);
  }

  /** The order of the checks and what each means: the screen at the first reading, then a remembered
      token, then a cache full of unlapsed entries; any other call is accepted. */
  lemma AnswersExactly(entries: Entries, t: Token, p: Policy, screened: int, consumed: int)
    ensures Verify(entries, t, p, screened, consumed).1 ==
      if screened < t.issuedAt - p.skew then NotYetValid
      else if screened > t.expiresAt + p.skew then TokenExpired
      else if !(t.issuedAt + 1 <= t.expiresAt <= t.issuedAt + p.maxLifetime) then BadLifetime
      else if t.jti in Remaining(entries, consumed) then AlreadyUsed
      else if |Remaining(entries, consumed)| >= p.capacity then AtCapacity
      else Accepted
  {
    EvictKeepsRemaining(entries, consumed);
  }

  /** Lapsed entries go when a token is consumed, an accepted token is remembered, and nothing else
      changes. */
  lemma EntriesExactly(entries: Entries, t: Token, p: Policy, screened: int, consumed: int)
    ensures var (after, answer) := Verify(entries, t, p, screened, consumed);
      if answer in {NotYetValid, TokenExpired, BadLifetime} then after == entries
      else
        && after.Keys == Remaining(entries, consumed) + (if answer == Accepted then {t.jti} else {})
        && (forall j :: j in Remaining(entries, consumed) ==> after[j] == entries[j])
        && (answer == Accepted ==>
              && t.jti !in Remaining(entries, consumed)
              && after[t.jti] >= t.expiresAt && after[t.jti] >= consumed + p.skew
              && (after[t.jti] == t.expiresAt || after[t.jti] == consumed + p.skew))
  {
    EvictKeepsRemaining(entries, consumed);
  }

  // ---- runs --------------------------------------------------------------------------------

  // One call, with the two readings of the clock it makes.
  datatype Call = Call(token: Token, screened: int, consumed: int)

  // `last` and `uses` record when each token was last consumed and how often it was accepted;
  // `seen` is the set that never forgets, deciding for itself.
  datatype World = World(entries: Entries, last: map<Jti, int>, uses: map<Jti, nat>, seen: set<Jti>)

  function Uses(w: World, j: Jti): nat
  {
    if j in w.uses then w.uses[j] else 0
  }

  predicate PassesScreen(p: Policy, c: Call)
  {
    Screen(c.token, p, c.screened) == Accepted
  }

  function Reference(seen: set<Jti>, p: Policy, c: Call): Answer
  {
    if !PassesScreen(p, c) then Screen(c.token, p, c.screened)
    else if c.token.jti in seen then AlreadyUsed
    else Accepted
  }

  function Reply(w: World, p: Policy, c: Call): Answer
  {
    Verify(w.entries, c.token, p, c.screened, c.consumed).1
  }

  function Step(w: World, p: Policy, c: Call): World
  {
    var j := c.token.jti;
    var accepted := Reply(w, p, c) == Accepted;
    World(Verify(w.entries, c.token, p, c.screened, c.consumed).0,
          if accepted then w.last[j := c.consumed] else w.last,
          if accepted then w.uses[j := Uses(w, j) + 1] else w.uses,
          if Reference(w.seen, p, c) == Accepted then w.seen + {j} else w.seen)
  }

  function Run(p: Policy, calls: seq<Call>): World
  {
    if calls == [] then World(map[], map[], map[], {})
    else Step(Run(p, calls[..|calls| - 1]), p, calls[|calls| - 1])
  }

  /** A call reads a monotone clock twice, and the cache's lock orders the consumptions. */
  ghost predicate Monotone(calls: seq<Call>)
  {
    && (forall i :: 0 <= i < |calls| ==> calls[i].screened <= calls[i].consumed)
    && forall i, j :: 0 <= i < j < |calls| ==> calls[i].consumed <= calls[j].consumed
  }

  /** One call ends before the next begins, as on the gateway's event loop. */
  ghost predicate Sequential(calls: seq<Call>)
  {
    forall i, j :: 0 <= i < j < |calls| ==> calls[i].consumed <= calls[j].screened
  }

  /** One expiry per jti, as issued. */
  ghost predicate OneExpiry(calls: seq<Call>)
  {
    forall i, j :: 0 <= i < |calls| && 0 <= j < |calls| && calls[i].token.jti == calls[j].token.jti ==>
      calls[i].token.expiresAt == calls[j].token.expiresAt
  }

  ghost predicate Genuine(calls: seq<Call>)
  {
    Monotone(calls) && OneExpiry(calls)
  }

  ghost predicate ExpiryIs(calls: seq<Call>, j: Jti, e: int)
  {
    forall i :: 0 <= i < |calls| && calls[i].token.jti == j ==> calls[i].token.expiresAt == e
  }

  /** What the cache remembers of one token after a run whose last call consumed at `clock`. */
  ghost predicate Remembers(w: World, p: Policy, j: Jti, e: int, clock: int)
  {
    && (j in w.entries ==> j in w.last && w.entries[j] == Max(e, w.last[j] + p.skew))
    && (j in w.last && j !in w.entries ==> Max(e, w.last[j] + p.skew) < clock)
    && (j in w.last <==> Uses(w, j) >= 1)
    && (j in w.last ==> w.last[j] <= clock)
    && (Uses(w, j) >= 2 ==> w.last[j] > e)
  }

  function Clock(calls: seq<Call>): int
    requires calls != []
  {
    calls[|calls| - 1].consumed
  }

  lemma {:induction false} RunRemembers(p: Policy, calls: seq<Call>, j: Jti, e: int, now: int)
    requires Monotone(calls) && ExpiryIs(calls, j, e)
    requires calls != [] ==> Clock(calls) <= now
    ensures Remembers(Run(p, calls), p, j, e, now)
  {
    if calls != [] {
      var init, c := calls[..|calls| - 1], calls[|calls| - 1];
      assert Monotone(init) && ExpiryIs(init, j, e);
      if init != [] { assert calls[|init| - 1].consumed <= c.consumed; }
      RunRemembers(p, init, j, e, c.consumed);
      StepRemembers(Run(p, init), p, c, j, e);
    }
  }

  lemma StepRemembers(w: World, p: Policy, c: Call, j: Jti, e: int)
    requires Remembers(w, p, j, e, c.consumed) && (c.token.jti == j ==> c.token.expiresAt == e)
    ensures Remembers(Step(w, p, c), p, j, e, c.consumed)
  {
  }

  /** The token's last acceptance is still remembered when the call consumes. */
  predicate Remembered(w: World, p: Policy, c: Call)
  {
    c.token.jti in w.last && c.consumed <= Max(c.token.expiresAt, w.last[c.token.jti] + p.skew)
  }

  lemma RefusedWhenRemembered(w: World, p: Policy, c: Call)
    requires Remembers(w, p, c.token.jti, c.token.expiresAt, c.consumed) && PassesScreen(p, c)
    ensures Reply(w, p, c) == AlreadyUsed <==> Remembered(w, p, c)
  {
    assert c.token.jti in Evict(w.entries, c.consumed) <==>
           c.token.jti in w.entries && w.entries[c.token.jti] >= c.consumed;
  }

  lemma GenuineRemembers(p: Policy, calls: seq<Call>, c: Call)
    requires Genuine(calls + [c])
    ensures Genuine(calls) && Remembers(Run(p, calls), p, c.token.jti, c.token.expiresAt, c.consumed)
  {
    PrefixGenuine(calls, c);
    RunRemembers(p, calls, c.token.jti, c.token.expiresAt, c.consumed);
  }

  /** Exactness: a valid token is refused as used iff its last acceptance is still remembered. */
  lemma RefusedExactly(p: Policy, calls: seq<Call>, c: Call)
    requires Genuine(calls + [c]) && PassesScreen(p, c)
    ensures Reply(Run(p, calls), p, c) == AlreadyUsed <==> Remembered(Run(p, calls), p, c)
  {
    GenuineRemembers(p, calls, c);
    RefusedWhenRemembered(Run(p, calls), p, c);
  }

  lemma PrefixGenuine(calls: seq<Call>, c: Call)
    requires Genuine(calls + [c])
    ensures Genuine(calls) && ExpiryIs(calls, c.token.jti, c.token.expiresAt)
    ensures c.screened <= c.consumed && (calls != [] ==> Clock(calls) <= c.consumed)
  {
    var all := calls + [c];
    assert all[|calls|] == c;
    forall i | 0 <= i < |calls| ensures all[i] == calls[i] && calls[i].screened <= calls[i].consumed {}
    forall i, j | 0 <= i < |calls| && 0 <= j < |calls| && calls[i].token.jti == calls[j].token.jti
      ensures calls[i].token.expiresAt == calls[j].token.expiresAt
    {
      assert all[i].token.jti == all[j].token.jti;
    }
    forall i, j | 0 <= i < j < |calls| ensures calls[i].consumed <= calls[j].consumed {
      assert all[i].consumed <= all[j].consumed;
    }
    forall i | 0 <= i < |calls| && calls[i].token.jti == c.token.jti ensures calls[i].token.expiresAt == c.token.expiresAt {
      assert all[i].token.jti == all[|calls|].token.jti;
    }
    if calls != [] { assert all[|calls| - 1].consumed <= all[|calls|].consumed; }
  }

  // ---- reuse ---------------------------------------------------------------------------------

  /** A used token is accepted again exactly if it passes the screen at the first reading and its
      entry has lapsed by the second. */
  lemma SecondUseExactly(p: Policy, calls: seq<Call>, c: Call)
    requires Genuine(calls + [c]) && c.token.jti in Run(p, calls).last
    requires Reply(Run(p, calls), p, c) != AtCapacity
    ensures var w, t := Run(p, calls), c.token;
      Reply(w, p, c) == Accepted <==>
        && t.issuedAt - p.skew <= c.screened <= t.expiresAt + p.skew && 1 <= t.expiresAt - t.issuedAt <= p.maxLifetime
        && Max(t.expiresAt, w.last[t.jti] + p.skew) < c.consumed
  {
    if PassesScreen(p, c) {
      RefusedExactly(p, calls, c);
    }
  }

  /** This call can be a second use of its token, after some genuine run. */
  ghost predicate CanReuse(p: Policy, calls: seq<Call>, c: Call)
  {
    && Genuine(calls + [c]) && Sequential(calls + [c])
    && c.token.jti in Run(p, calls).last && Reply(Run(p, calls), p, c) == Accepted
  }

  lemma FirstUse(p: Policy, c: Call)
    requires p.capacity >= 1 && PassesScreen(p, c)
    ensures var w := Run(p, [c]); var t := c.token;
      w.last == map[t.jti := c.consumed] && w.entries == map[t.jti := Max(t.expiresAt, c.consumed + p.skew)]
      && w.uses == map[t.jti := 1]
  {
    assert [c][..0] == [];
    assert Evict(map[], c.consumed) == map[];
  }

  lemma ReuseAfterEarlyUse(p: Policy, c: Call)
    requires p.capacity >= 1 && c.screened <= c.consumed
    requires PassesScreen(p, c) && c.token.expiresAt < c.consumed
    ensures exists calls :: CanReuse(p, calls, c)
  {
    var early := c.token.issuedAt - p.skew;
    var first := Call(c.token, early, early);
    FirstUse(p, first);
    assert Genuine([first] + [c]) && Sequential([first] + [c]);
    ReuseLapsed(Run(p, [first]).entries, p, c);
    assert CanReuse(p, [first], c);
  }

  lemma ReuseLapsed(entries: Entries, p: Policy, c: Call)
    requires p.capacity >= 1 && PassesScreen(p, c)
    requires forall j :: j in entries ==> entries[j] < c.consumed
    ensures Verify(entries, c.token, p, c.screened, c.consumed).1 == Accepted
  {
    assert Evict(entries, c.consumed) == map[];
  }

  /** Which calls can ever reuse a token, for every policy: those that are screened in time and
      consume after the expiry. With zero skew they are the calls that straddle the expiry. */
  lemma ReuseExactly(p: Policy, c: Call)
    requires p.capacity >= 1 && c.screened <= c.consumed
    ensures (exists calls :: CanReuse(p, calls, c)) <==> PassesScreen(p, c) && c.token.expiresAt < c.consumed
  {
    if calls :| CanReuse(p, calls, c) {
      SecondUseExactly(p, calls, c);
    }
    if PassesScreen(p, c) && c.token.expiresAt < c.consumed {
      ReuseAfterEarlyUse(p, c);
    }
  }

  /** The call consumed its token after the last moment at which the screen would have passed it. */
  predicate Late(p: Policy, c: Call)
  {
    PassesScreen(p, c) && c.token.expiresAt + p.skew < c.consumed
  }

  ghost predicate NeverLate(p: Policy, calls: seq<Call>)
  {
    forall i :: 0 <= i < |calls| ==> !Late(p, calls[i])
  }

  lemma NeverLateStep(w: World, p: Policy, c: Call, j: Jti, e: int)
    requires Remembers(w, p, j, e, c.consumed) && (c.token.jti == j ==> c.token.expiresAt == e) && !Late(p, c)
    requires (j in w.last ==> w.last[j] <= e + p.skew) && Uses(w, j) <= 2
    ensures var w' := Step(w, p, c); (j in w'.last ==> w'.last[j] <= e + p.skew) && Uses(w', j) <= 2
  {
    if PassesScreen(p, c) && c.token.jti == j {
      RefusedWhenRemembered(w, p, c);
    }
  }

  lemma {:induction false} NeverLateRun(p: Policy, calls: seq<Call>, j: Jti, e: int)
    requires Monotone(calls) && ExpiryIs(calls, j, e) && NeverLate(p, calls)
    ensures var w := Run(p, calls); (j in w.last ==> w.last[j] <= e + p.skew) && Uses(w, j) <= 2
  {
    if calls != [] {
      var init, c := calls[..|calls| - 1], calls[|calls| - 1];
      NeverLateRun(p, init, j, e);
      if init != [] { assert calls[|init| - 1].consumed <= c.consumed; }
      RunRemembers(p, init, j, e, c.consumed);
      NeverLateStep(Run(p, init), p, c, j, e);
    }
  }

  ghost predicate UsedInOrder(w: World, p: Policy, j: Jti, e: int, clock: int)
  {
    && Uses(w, j) <= 3
    && (j in w.last ==> w.last[j] <= clock)
    && (j in w.last && Uses(w, j) == 3 ==> w.last[j] > e + p.skew)
    && (p.skew == 0 ==> Uses(w, j) <= 2)
  }

  /** After a third use, or a second one without skew, the next screening comes too late. */
  lemma SequentialStep(w: World, p: Policy, c: Call, j: Jti, e: int)
    requires Remembers(w, p, j, e, c.consumed) && (c.token.jti == j ==> c.token.expiresAt == e)
    requires UsedInOrder(w, p, j, e, c.screened) && c.screened <= c.consumed
    ensures UsedInOrder(Step(w, p, c), p, j, e, c.consumed)
  {
    if PassesScreen(p, c) && c.token.jti == j {
      RefusedWhenRemembered(w, p, c);
    }
  }

  lemma {:induction false} SequentialRun(p: Policy, calls: seq<Call>, j: Jti, e: int, now: int)
    requires Monotone(calls) && ExpiryIs(calls, j, e) && Sequential(calls)
    requires calls != [] ==> Clock(calls) <= now
    ensures UsedInOrder(Run(p, calls), p, j, e, now)
  {
    if calls != [] {
      var init, c := calls[..|calls| - 1], calls[|calls| - 1];
      if init != [] { assert calls[|init| - 1].consumed <= c.screened; }
      SequentialRun(p, init, j, e, c.screened);
      RunRemembers(p, init, j, e, c.consumed);
      SequentialStep(Run(p, init), p, c, j, e);
    }
  }

  ghost function ExpiryOf(calls: seq<Call>, j: Jti): (e: int)
    requires OneExpiry(calls)
    ensures ExpiryIs(calls, j, e)
  {
    if i :| 0 <= i < |calls| && calls[i].token.jti == j then calls[i].token.expiresAt else 0
  }

  /** How often a token can be accepted: once if nothing is consumed late and the skew is zero,
      twice if nothing is consumed late, three times if calls follow one another. */
  lemma UseBound(p: Policy, calls: seq<Call>, j: Jti)
    requires Genuine(calls)
    ensures NeverLate(p, calls) ==> Uses(Run(p, calls), j) <= if p.skew == 0 then 1 else 2
    ensures Sequential(calls) ==> Uses(Run(p, calls), j) <= if p.skew == 0 then 2 else 3
  {
    var e := ExpiryOf(calls, j);
    if NeverLate(p, calls) {
      NeverLateRun(p, calls, j, e);
      RunRemembers(p, calls, j, e, if calls == [] then 0 else Clock(calls));
    }
    if Sequential(calls) {
      SequentialRun(p, calls, j, e, if calls == [] then 0 else Clock(calls));
    }
  }

  lemma TwoCalls(p: Policy, a: Call, b: Call)
    ensures Run(p, [a, b]) == Step(Run(p, [a]), p, b)
  {
    assert [a, b][..1] == [a];
  }

  lemma LapsedEntry(entries: Entries, j: Jti, expiry: int, now: int)
    requires entries == map[j := expiry] && expiry < now
    ensures Evict(entries, now) == map[]
  {
  }

  lemma NextUse(w: World, p: Policy, c: Call, expiry: int)
    requires p.capacity >= 1 && PassesScreen(p, c) && w.entries == map[c.token.jti := expiry] && expiry < c.consumed
    ensures var w' := Step(w, p, c);
      && w'.entries == map[c.token.jti := Max(c.token.expiresAt, c.consumed + p.skew)]
      && Uses(w', c.token.jti) == Uses(w, c.token.jti) + 1
  {
    LapsedEntry(w.entries, c.token.jti, expiry, c.consumed);
  }

  lemma TwoUses(p: Policy, a: Call, b: Call)
    requires p.capacity >= 1 && a.token == b.token && PassesScreen(p, a) && PassesScreen(p, b)
    requires Max(a.token.expiresAt, a.consumed + p.skew) < b.consumed
    ensures Uses(Run(p, [a, b]), a.token.jti) == 2
  {
    FirstUse(p, a);
    TwoCalls(p, a, b);
    NextUse(Run(p, [a]), p, b, Max(a.token.expiresAt, a.consumed + p.skew));
  }

  /** The double use really happens: within the default skew of five seconds, with prompt calls. */
  lemma SkewAllowsSecondUse() returns (p: Policy, calls: seq<Call>)
    ensures Genuine(calls) && Sequential(calls) && NeverLate(p, calls) && p.skew == 5 && p.capacity >= 1
    ensures exists j :: Uses(Run(p, calls), j) == 2
  {
    p := Policy(5, 300, 65_536);
    var t := Token("j", 0, 100);
    var first, second := Call(t, 50, 50), Call(t, 101, 101);
    calls := [first, second];
    TwoUses(p, first, second);
    assert Uses(Run(p, calls), "j") == 2;
  }

  /** It happens with zero skew too, if the clock passes the expiry between the two readings. */
  lemma ClockMayPassExpiry() returns (p: Policy, calls: seq<Call>)
    ensures Genuine(calls) && Sequential(calls) && p.skew == 0 && p.capacity >= 1
    ensures exists j :: Uses(Run(p, calls), j) == 2
  {
    p := Policy(0, 300, 65_536);
    var t := Token("j", 0, 100);
    var first, second := Call(t, 50, 50), Call(t, 100, 101);
    calls := [first, second];
    TwoUses(p, first, second);
    assert Uses(Run(p, calls), "j") == 2;
  }

  lemma TwoMoreUses(w: World, p: Policy, b: Call, c: Call, expiry: int)
    requires p.capacity >= 1 && b.token == c.token && PassesScreen(p, b) && PassesScreen(p, c)
    requires w.entries == map[b.token.jti := expiry] && expiry < b.consumed
    requires Max(b.token.expiresAt, b.consumed + p.skew) < c.consumed
    ensures Uses(Step(Step(w, p, b), p, c), b.token.jti) == Uses(w, b.token.jti) + 2
  {
    NextUse(w, p, b, expiry);
    NextUse(Step(w, p, b), p, c, Max(b.token.expiresAt, b.consumed + p.skew));
  }

  lemma ThreeCalls(p: Policy, a: Call, b: Call, c: Call)
    ensures Run(p, [a, b, c]) == Step(Step(Run(p, [a]), p, b), p, c)
  {
    TwoCalls(p, a, b);
    assert [a, b, c][..2] == [a, b];
  }

  lemma ThreeUses(p: Policy, a: Call, b: Call, c: Call)
    requires p.capacity >= 1 && a.token == b.token == c.token
    requires PassesScreen(p, a) && PassesScreen(p, b) && PassesScreen(p, c)
    requires Max(a.token.expiresAt, a.consumed + p.skew) < b.consumed
    requires Max(b.token.expiresAt, b.consumed + p.skew) < c.consumed
    ensures Uses(Run(p, [a, b, c]), a.token.jti) == 3
  {
    FirstUse(p, a);
    ThreeCalls(p, a, b, c);
    TwoMoreUses(Run(p, [a]), p, b, c, Max(a.token.expiresAt, a.consumed + p.skew));
  }

  /** Three uses are the most that calls in sequence can have, and they can: the skew allows the
      second, a late consumption the third. */
  lemma ThirdUseHappens() returns (p: Policy, calls: seq<Call>)
    ensures Genuine(calls) && Sequential(calls) && p.skew == 5 && p.capacity >= 1
    ensures exists j :: Uses(Run(p, calls), j) == 3
  {
    var t := Token("j", 0, 100);
    p := Policy(5, 300, 65_536);
    var a, b, c := Call(t, 50, 50), Call(t, 101, 101), Call(t, 105, 107);
    calls := [a, b, c];
    ThreeUses(p, a, b, c);
    assert Uses(Run(p, calls), "j") == 3;
  }

  // ---- refinement ----------------------------------------------------------------------------

  ghost predicate NeverFull(p: Policy, calls: seq<Call>)
  {
    forall i :: 0 <= i < |calls| ==> Reply(Run(p, calls[..i]), p, calls[i]) != AtCapacity
  }

  lemma ReplyOf(w: World, p: Policy, c: Call)
    ensures Reply(w, p, c) == Accepted ==> PassesScreen(p, c)
    ensures PassesScreen(p, c) ==> Reply(w, p, c) in {Accepted, AlreadyUsed, AtCapacity}
  {
  }

  lemma StepKeepsSeen(w: World, p: Policy, c: Call)
    requires w.seen == w.last.Keys && Reply(w, p, c) != AtCapacity
    requires PassesScreen(p, c) && Reply(w, p, c) == AlreadyUsed ==> c.token.jti in w.last
    ensures Step(w, p, c).seen == Step(w, p, c).last.Keys
  {
    ReplyOf(w, p, c);
    var w' := Step(w, p, c);
    if Reply(w, p, c) == Accepted {
      assert w'.last.Keys == w.last.Keys + {c.token.jti};
    }
  }

  lemma {:induction false} SeenIsLast(p: Policy, calls: seq<Call>)
    requires NeverFull(p, calls) && Genuine(calls)
    ensures Run(p, calls).seen == Run(p, calls).last.Keys
  {
    if calls != [] {
      LessOneCall(p, calls);
      SeenIsLast(p, calls[..|calls| - 1]);
      CallKeepsSeen(p, calls[..|calls| - 1], calls[|calls| - 1]);
    }
  }

  lemma LessOneCall(p: Policy, calls: seq<Call>)
    requires NeverFull(p, calls) && Genuine(calls) && calls != []
    ensures var init, c := calls[..|calls| - 1], calls[|calls| - 1];
      Genuine(init + [c]) && Genuine(init) && NeverFull(p, init) && Reply(Run(p, init), p, c) != AtCapacity
  {
    var init, c := calls[..|calls| - 1], calls[|calls| - 1];
    assert calls == init + [c];
    PrefixGenuine(init, c);
    PrefixNeverFull(p, calls);
  }

  lemma CallKeepsSeen(p: Policy, calls: seq<Call>, c: Call)
    requires Genuine(calls + [c]) && Run(p, calls).seen == Run(p, calls).last.Keys
    requires Reply(Run(p, calls), p, c) != AtCapacity
    ensures var w := Step(Run(p, calls), p, c); w.seen == w.last.Keys
  {
    if PassesScreen(p, c) {
      RefusedExactly(p, calls, c);
    }
    StepKeepsSeen(Run(p, calls), p, c);
  }

  lemma PrefixNeverFull(p: Policy, calls: seq<Call>)
    requires NeverFull(p, calls) && calls != []
    ensures NeverFull(p, calls[..|calls| - 1])
    ensures Reply(Run(p, calls[..|calls| - 1]), p, calls[|calls| - 1]) != AtCapacity
  {
    var init := calls[..|calls| - 1];
    forall i | 0 <= i < |init| ensures Reply(Run(p, init[..i]), p, init[i]) != AtCapacity {
      assert init[..i] == calls[..i];
    }
  }

  predicate Agrees(w: World, p: Policy, c: Call)
  {
    Reply(w, p, c) == Reference(w.seen, p, c)
  }

  /** The call fails the screen, or brings a new token, or consumes while the last use is remembered. */
  predicate InMemory(w: World, p: Policy, c: Call)
  {
    !PassesScreen(p, c) || c.token.jti !in w.last || Remembered(w, p, c)
  }

  lemma AgreesWhenRemembered(w: World, p: Policy, c: Call)
    requires Remembers(w, p, c.token.jti, c.token.expiresAt, c.consumed)
    requires w.seen == w.last.Keys && Reply(w, p, c) != AtCapacity
    ensures Agrees(w, p, c) <==> InMemory(w, p, c)
  {
    if PassesScreen(p, c) {
      RefusedWhenRemembered(w, p, c);
    }
  }

  /** Refinement: the calls on which the evicting cache answers as the set that never forgets. */
  lemma AgreesExactly(p: Policy, calls: seq<Call>, c: Call)
    requires Genuine(calls + [c]) && NeverFull(p, calls) && Reply(Run(p, calls), p, c) != AtCapacity
    ensures Agrees(Run(p, calls), p, c) <==> InMemory(Run(p, calls), p, c)
  {
    GenuineRemembers(p, calls, c);
    SeenIsLast(p, calls);
    AgreesWhenRemembered(Run(p, calls), p, c);
  }

  /** In particular they agree on every call that consumes no later than the expiry. */
  lemma AgreesUntilExpiry(p: Policy, calls: seq<Call>, c: Call)
    requires Genuine(calls + [c]) && NeverFull(p, calls) && Reply(Run(p, calls), p, c) != AtCapacity
    requires c.consumed <= c.token.expiresAt
    ensures Agrees(Run(p, calls), p, c)
  {
    AgreesExactly(p, calls, c);
  }

  /** The cache never grows past its capacity. */
  lemma {:induction false} SizeBound(p: Policy, calls: seq<Call>)
    ensures |Run(p, calls).entries| <= p.capacity
  {
    if calls != [] {
      var init, c := calls[..|calls| - 1], calls[|calls| - 1];
      SizeBound(p, init);
      var before := Run(p, init).entries;
      var kept := Evict(before, c.consumed);
      SubsetSize(kept.Keys, before.Keys);
      assert kept[c.token.jti := Max(c.token.expiresAt, c.consumed + p.skew)].Keys == kept.Keys + {c.token.jti};
    }
  }
}
