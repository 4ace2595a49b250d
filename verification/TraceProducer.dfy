/** Which traces of the agent loop meet the trace contract, and what the checker says of the others. */
module TraceProducer {
  import opened TraceContract
  import opened TraceRuntime

  // ---- appending to a trace ------------------------------------------------------------------------

  ghost predicate Untouched(es: seq<TraceEvent>, c: CallId)
  {
    NoneOf(es, Requests, c) && NoneOf(es, Decides, c) && NoneOf(es, Completes, c)
  }

  /** An approved call that never completes. */
  ghost predicate DanglingAt(es: seq<TraceEvent>, c: CallId, i: int, j: int)
  {
    OnlyAt(es, i, Requests, c) && OnlyAt(es, j, Decides, c) && i < j && es[j].kind == ToolApproved && NoneOf(es, Completes, c)
  }

  ghost predicate Dangling(es: seq<TraceEvent>, c: CallId)
  {
    exists i, j :: DanglingAt(es, c, i, j)
  }

  ghost predicate Foreign(xs: seq<TraceEvent>, c: CallId)
  {
    forall x :: x in xs ==> RoleOf(x) == NoRole || x.callId != c
  }

  lemma ForeignKeepsAt(es: seq<TraceEvent>, xs: seq<TraceEvent>, c: CallId, role: Role)
    requires Foreign(xs, c) && role != NoRole
    ensures forall i :: At(es + xs, i, role, c) <==> At(es, i, role, c)
  {
    forall i ensures At(es + xs, i, role, c) <==> At(es, i, role, c) {
      if |es| <= i < |es + xs| {
        assert (es + xs)[i] in xs;
      }
    }
  }

  lemma ForeignKeepsCallOk(es: seq<TraceEvent>, xs: seq<TraceEvent>, c: CallId)
    requires Foreign(xs, c) && CallOk(es, c)
    ensures CallOk(es + xs, c)
  {
    ForeignKeepsAt(es, xs, c, Requests);
    ForeignKeepsAt(es, xs, c, Decides);
    ForeignKeepsAt(es, xs, c, Completes);
    if i, j :| Handled(es, c, i, j) {
      assert OnlyAt(es + xs, i, Requests, c) && OnlyAt(es + xs, j, Decides, c);
      if k :| j < k && OnlyAt(es, k, Completes, c) {
        assert OnlyAt(es + xs, k, Completes, c);
      }
      assert Handled(es + xs, c, i, j);
    }
  }

  lemma ForeignKeepsDangling(es: seq<TraceEvent>, xs: seq<TraceEvent>, c: CallId)
    requires Foreign(xs, c) && Dangling(es, c)
    ensures Dangling(es + xs, c)
  {
    ForeignKeepsAt(es, xs, c, Requests);
    ForeignKeepsAt(es, xs, c, Decides);
    ForeignKeepsAt(es, xs, c, Completes);
    var i, j :| DanglingAt(es, c, i, j);
    assert OnlyAt(es + xs, i, Requests, c) && OnlyAt(es + xs, j, Decides, c);
    assert DanglingAt(es + xs, c, i, j);
  }

  // ---- one tool call -------------------------------------------------------------------------------

  ghost predicate FitsFor(es: seq<TraceEvent>, stop: Stop, c: CallId)
  {
    if stop == HandlerRaised(c) && c != "" then Dangling(es, c) else CallOk(es, c)
  }

  /** Every call is in order, except the one that `stop` left approved and incomplete. */
  ghost predicate Fits(es: seq<TraceEvent>, stop: Stop)
  {
    forall c :: FitsFor(es, stop, c)
  }

  lemma ShiftAt(es: seq<TraceEvent>, xs: seq<TraceEvent>, role: Role, c: CallId)
    requires NoneOf(es, role, c)
    ensures forall i :: At(es + xs, i, role, c) <==> At(xs, i - |es|, role, c)
  {
    forall i ensures At(es + xs, i, role, c) <==> At(xs, i - |es|, role, c) {
      if 0 <= i < |es| { assert !At(es, i, role, c); }
    }
  }

  lemma ShiftOnlyAt(es: seq<TraceEvent>, xs: seq<TraceEvent>, i: int, role: Role, c: CallId)
    requires NoneOf(es, role, c) && OnlyAt(xs, i, role, c)
    ensures OnlyAt(es + xs, |es| + i, role, c)
  {
    ShiftAt(es, xs, role, c);
  }

  lemma ShiftNoneOf(es: seq<TraceEvent>, xs: seq<TraceEvent>, role: Role, c: CallId)
    requires NoneOf(es, role, c) && NoneOf(xs, role, c)
    ensures NoneOf(es + xs, role, c)
  {
    ShiftAt(es, xs, role, c);
  }

  /** What a block of events makes of a call does not depend on a trace that never mentions it. */
  lemma BlockFitsAfter(es: seq<TraceEvent>, xs: seq<TraceEvent>, stop: Stop, c: CallId)
    requires Untouched(es, c) && FitsFor(xs, stop, c)
    ensures FitsFor(es + xs, stop, c)
  {
    var n := |es|;
    if Untouched(xs, c) {
      ShiftNoneOf(es, xs, Requests, c);
      ShiftNoneOf(es, xs, Decides, c);
      ShiftNoneOf(es, xs, Completes, c);
      assert forall i, j :: !DanglingAt(xs, c, i, j);
    } else {
      var i, j :| OnlyAt(xs, i, Requests, c) && OnlyAt(xs, j, Decides, c)
                  && if stop == HandlerRaised(c) && c != "" then DanglingAt(xs, c, i, j) else Handled(xs, c, i, j);
      ShiftOnlyAt(es, xs, i, Requests, c);
      ShiftOnlyAt(es, xs, j, Decides, c);
      if k :| j < k && OnlyAt(xs, k, Completes, c) {
        ShiftOnlyAt(es, xs, k, Completes, c);
      } else {
        ShiftNoneOf(es, xs, Completes, c);
      }
      if stop == HandlerRaised(c) && c != "" {
        assert DanglingAt(es + xs, c, n + i, n + j);
      } else {
        assert Handled(es + xs, c, n + i, n + j);
      }
    }
  }

  lemma BlockAlone(xs: seq<TraceEvent>, m: nat, call: Call, tools: Tools)
    requires call.id != "" && xs == Numbered(CallTrail(tools, call).bodies, m)
    ensures FitsFor(xs, CallTrail(tools, call).stop, call.id)
  {
    var c := call.id;
    if |xs| > 0 {
      assert OnlyAt(xs, 0, Requests, c) && OnlyAt(xs, 1, Decides, c);
      if |xs| == 3 {
        assert OnlyAt(xs, 2, Completes, c);
        assert Handled(xs, c, 0, 1);
      } else if xs[1].kind == ToolApproved {
        assert DanglingAt(xs, c, 0, 1);
      } else {
        assert Handled(xs, c, 0, 1);
      }
    }
  }

  lemma CallFits(es: seq<TraceEvent>, m: nat, tools: Tools, call: Call)
    requires Fits(es, Going)
    requires call.id != "" && CallTrail(tools, call).bodies != [] ==> Untouched(es, call.id)
    ensures Fits(es + Numbered(CallTrail(tools, call).bodies, m), CallTrail(tools, call).stop)
  {
    var t := CallTrail(tools, call);
    var xs := Numbered(t.bodies, m);
    forall c ensures FitsFor(es + xs, t.stop, c) {
      assert FitsFor(es, Going, c);
      if c != "" && c == call.id && t.bodies != [] {
        BlockAlone(xs, m, call, tools);
        BlockFitsAfter(es, xs, t.stop, c);
      } else {
        assert Foreign(xs, c);
        ForeignKeepsCallOk(es, xs, c);
      }
    }
  }

  // ---- requested ids ---------------------------------------------------------------------------------

  lemma {:induction false} RequestIdsAppend(a: seq<Body>, b: seq<Body>)
    ensures RequestIds(a + b) == RequestIds(a) + RequestIds(b)
  {
    if b == [] {
      assert a + b == a;
    } else {
      var init := b[..|b| - 1];
      RequestIdsAppend(a, init);
      assert (a + b)[..|a + b| - 1] == a + init;
    }
  }

  lemma {:induction false} RequestsCounted(bodies: seq<Body>, n: nat, c: CallId)
    requires c != ""
    ensures Count(Numbered(bodies, n), Requests, c) == multiset(RequestIds(bodies))[c]
  {
    if bodies != [] {
      var init, b := bodies[..|bodies| - 1], bodies[|bodies| - 1];
      assert bodies == init + [b];
      RequestsCounted(init, n, c);
      CountStep(init, b, n, c);
      RequestIdsStep(init, b, c);
    }
  }

  lemma CountStep(init: seq<Body>, b: Body, n: nat, c: CallId)
    requires c != ""
    ensures Count(Numbered(init + [b], n), Requests, c)
         == Count(Numbered(init, n), Requests, c) + if b == Body(ToolRequested, c) then 1 else 0
  {
    var es := Numbered(init + [b], n);
    assert es[..|es| - 1] == Numbered(init, n);
  }

  lemma RequestIdsStep(init: seq<Body>, b: Body, c: CallId)
    ensures multiset(RequestIds(init + [b]))[c]
         == multiset(RequestIds(init))[c] + if b == Body(ToolRequested, c) then 1 else 0
  {
    assert (init + [b])[..|init|] == init;
  }

  lemma NoRepeatsPrefix(a: seq<CallId>, b: seq<CallId>)
    requires NoRepeats(a + b)
    ensures NoRepeats(a)
  {
    forall c | c != "" ensures multiset(a)[c] <= 1 {
      assert multiset(a + b)[c] == multiset(a)[c] + multiset(b)[c];
    }
  }

  /** A call id not requested so far plays no role at all in a trace that fits. */
  lemma NewIdIsUntouched(bodies: seq<Body>, n: nat, c: CallId)
    requires c != "" && NoRepeats(RequestIds(bodies) + [c])
    requires CallOk(Numbered(bodies, n), c)
    ensures Untouched(Numbered(bodies, n), c)
  {
    var es := Numbered(bodies, n);
    assert multiset(RequestIds(bodies) + [c])[c] == multiset(RequestIds(bodies))[c] + 1;
    RequestsCounted(bodies, n, c);
    CountFacts(es, Requests, c);
    IndexIsLast(es, Requests, c);
    assert NoneOf(es, Requests, c);
    assert forall i, j :: !Handled(es, c, i, j);
  }

  // ---- the loop ------------------------------------------------------------------------------------------

  ghost predicate TrailFits(bodies: seq<Body>, n: nat, t: Trail)
  {
    Fits(Numbered(bodies + t.bodies, n), t.stop)
  }

  ghost predicate AsksAnew(bodies: seq<Body>, t: Trail)
  {
    NoRepeats(RequestIds(bodies + t.bodies))
  }

  lemma ThenFits(bodies: seq<Body>, n: nat, t: Trail, rest: Trail)
    requires TrailFits(bodies, n, t) && (t.stop == Going ==> TrailFits(bodies + t.bodies, n, rest))
    ensures TrailFits(bodies, n, t.Then(rest))
  {
    assert bodies + (t.bodies + rest.bodies) == bodies + t.bodies + rest.bodies;
  }

  lemma FirstAsksAnew(a: seq<Body>, b: seq<Body>)
    requires NoRepeats(RequestIds(a + b))
    ensures NoRepeats(RequestIds(a))
  {
    RequestIdsAppend(a, b);
    NoRepeatsPrefix(RequestIds(a), RequestIds(b));
  }

  lemma ThenAsksAnew(bodies: seq<Body>, t: Trail, rest: Trail)
    requires AsksAnew(bodies, t.Then(rest))
    ensures AsksAnew(bodies, t) && (t.stop == Going ==> AsksAnew(bodies + t.bodies, rest))
  {
    if t.stop == Going {
      assert bodies + (t.bodies + rest.bodies) == bodies + t.bodies + rest.bodies;
      FirstAsksAnew(bodies + t.bodies, rest.bodies);
    }
  }

  lemma OneRequest(b: Body)
    requires b.kind == ToolRequested
    ensures RequestIds([b]) == [b.callId]
  {
    assert [b][..0] == [];
  }

  lemma NoRequest(init: seq<Body>, b: Body)
    requires b.kind != ToolRequested
    ensures RequestIds(init + [b]) == RequestIds(init)
  {
    assert (init + [b])[..|init|] == init;
  }

  lemma CallRequestId(tools: Tools, call: Call)
    ensures RequestIds(CallTrail(tools, call).bodies) == if call.name in tools then [call.id] else []
  {
    var b := CallTrail(tools, call).bodies;
    if b != [] {
      var request, decision := Body(ToolRequested, call.id), b[1];
      OneRequest(request);
      NoRequest([request], decision);
      if |b| == 3 {
        assert b == [request] + [decision] + [b[2]];
        NoRequest([request] + [decision], b[2]);
      } else {
        assert b == [request] + [decision];
      }
    }
  }

  lemma NewCallIsUntouched(bodies: seq<Body>, n: nat, tools: Tools, call: Call)
    requires Fits(Numbered(bodies, n), Going) && AsksAnew(bodies, CallTrail(tools, call))
    requires call.id != "" && call.name in tools
    ensures Untouched(Numbered(bodies, n), call.id)
  {
    RequestIdsAppend(bodies, CallTrail(tools, call).bodies);
    CallRequestId(tools, call);
    assert FitsFor(Numbered(bodies, n), Going, call.id);
    NewIdIsUntouched(bodies, n, call.id);
  }

  lemma CallTrailFits(bodies: seq<Body>, n: nat, tools: Tools, call: Call)
    requires Fits(Numbered(bodies, n), Going) && AsksAnew(bodies, CallTrail(tools, call))
    ensures TrailFits(bodies, n, CallTrail(tools, call))
  {
    if call.id != "" && call.name in tools {
      NewCallIsUntouched(bodies, n, tools, call);
    }
    CallFits(Numbered(bodies, n), n + |bodies|, tools, call);
    NumberedAppend(bodies, CallTrail(tools, call).bodies, n);
  }

  lemma {:induction false} CallsTrailFits(bodies: seq<Body>, n: nat, tools: Tools, calls: seq<Call>)
    requires Fits(Numbered(bodies, n), Going) && AsksAnew(bodies, CallsTrail(tools, calls))
    ensures TrailFits(bodies, n, CallsTrail(tools, calls))
    decreases |calls|
  {
    if calls == [] {
      assert bodies + [] == bodies;
    } else {
      var t, rest := CallTrail(tools, calls[0]), CallsTrail(tools, calls[1..]);
      ThenAsksAnew(bodies, t, rest);
      CallTrailFits(bodies, n, tools, calls[0]);
      if t.stop == Going {
        CallsTrailFits(bodies + t.bodies, n, tools, calls[1..]);
      }
      ThenFits(bodies, n, t, rest);
    }
  }

  /** Events without a role in any call disturb nothing. */
  lemma NeutralFits(bodies: seq<Body>, n: nat, xs: seq<Body>, stop: Stop)
    requires Fits(Numbered(bodies, n), stop)
    requires forall x :: x in xs ==> x.callId == ""
    ensures Fits(Numbered(bodies + xs, n), stop)
  {
    NumberedAppend(bodies, xs, n);
    var es, ys := Numbered(bodies, n), Numbered(xs, n + |bodies|);
    forall c ensures FitsFor(es + ys, stop, c) {
      assert FitsFor(es, stop, c);
      assert Foreign(ys, c);
      if stop == HandlerRaised(c) && c != "" {
        ForeignKeepsDangling(es, ys, c);
      } else {
        ForeignKeepsCallOk(es, ys, c);
      }
    }
  }

  lemma StopFits(es: seq<TraceEvent>, stop: Stop)
    requires Fits(es, Going) && !stop.HandlerRaised?
    ensures Fits(es, stop)
  {
    forall c ensures FitsFor(es, stop, c) { assert FitsFor(es, Going, c); }
  }

  /** A turn that ends before any call. */
  lemma HeadFits(bodies: seq<Body>, n: nat, head: seq<Body>, stop: Stop)
    requires Fits(Numbered(bodies, n), Going) && !stop.HandlerRaised?
    requires forall x :: x in head ==> x.callId == ""
    ensures TrailFits(bodies, n, Trail(head, stop))
  {
    NeutralFits(bodies, n, head, Going);
    StopFits(Numbered(bodies + head, n), stop);
  }

  lemma TurnTrailFits(bodies: seq<Body>, n: nat, tools: Tools, turn: Turn)
    requires Fits(Numbered(bodies, n), Going) && AsksAnew(bodies, TurnTrail(tools, turn))
    ensures TrailFits(bodies, n, TurnTrail(tools, turn))
  {
    match turn
    case AdapterRaises => HeadFits(bodies, n, [Body(ModelRequested, "")], Halted);
    case Reply(calls, dumpable) =>
      var head := Trail([Body(ModelRequested, ""), Body(ModelCompleted, "")],
                        if !dumpable then Halted else if calls == [] then Answered else Going);
      HeadFits(bodies, n, head.bodies, head.stop);
      ThenAsksAnew(bodies, head, CallsTrail(tools, calls));
      if head.stop == Going {
        CallsTrailFits(bodies + head.bodies, n, tools, calls);
      }
      ThenFits(bodies, n, head, CallsTrail(tools, calls));
  }

  lemma {:induction false} LoopTrailFits(bodies: seq<Body>, n: nat, tools: Tools, adapter: Adapter, k: int, maxTurns: int)
    requires Fits(Numbered(bodies, n), Going) && AsksAnew(bodies, LoopTrail(tools, adapter, k, maxTurns))
    ensures TrailFits(bodies, n, LoopTrail(tools, adapter, k, maxTurns))
    decreases maxTurns - k
  {
    if k > maxTurns {
      assert bodies + [] == bodies;
      StopFits(Numbered(bodies, n), Halted);
    } else {
      var t, rest := TurnTrail(tools, adapter(k)), LoopTrail(tools, adapter, k + 1, maxTurns);
      ThenAsksAnew(bodies, t, rest);
      TurnTrailFits(bodies, n, tools, adapter(k));
      if t.stop == Going {
        LoopTrailFits(bodies + t.bodies, n, tools, adapter, k + 1, maxTurns);
      }
      ThenFits(bodies, n, t, rest);
    }
  }

  // ---- the whole run -------------------------------------------------------------------------------------

  lemma StartFits(n: nat)
    ensures Fits(Numbered([Body(RunStarted, "")], n), Going)
  {
    forall c ensures FitsFor(Numbered([], n), Going, c) {
      assert Untouched(Numbered([], n), c);
    }
    NeutralFits([], n, [Body(RunStarted, "")], Going);
    assert [] + [Body(RunStarted, "")] == [Body(RunStarted, "")];
  }

  lemma RunTrailFits(n: nat, tools: Tools, adapter: Adapter, maxTurns: int)
    requires NoRepeats(RequestIds(RunBodies(tools, adapter, maxTurns)))
    ensures Fits(Numbered(RunBodies(tools, adapter, maxTurns), n), LoopTrail(tools, adapter, 1, maxTurns).stop)
  {
    var start, loop := [Body(RunStarted, "")], LoopTrail(tools, adapter, 1, maxTurns);
    var end := [Body(if loop.stop == Answered then RunCompleted else RunFailed, "")];
    FirstAsksAnew(start + loop.bodies, end);
    StartFits(n);
    LoopTrailFits(start, n, tools, adapter, 1, maxTurns);
    NeutralFits(start + loop.bodies, n, end, loop.stop);
  }

  ghost predicate Live(bodies: seq<Body>)
  {
    forall b :: b in bodies ==> !IsTerminal(b.kind)
  }

  lemma {:induction false} CallsTrailIsLive(tools: Tools, calls: seq<Call>)
    ensures Live(CallsTrail(tools, calls).bodies)
  {
    if calls != [] {
      CallsTrailIsLive(tools, calls[1..]);
    }
  }

  lemma {:induction false} LoopTrailIsLive(tools: Tools, adapter: Adapter, k: int, maxTurns: int)
    ensures Live(LoopTrail(tools, adapter, k, maxTurns).bodies)
    decreases maxTurns - k
  {
    if k <= maxTurns {
      LoopTrailIsLive(tools, adapter, k + 1, maxTurns);
      match adapter(k)
      case AdapterRaises =>
      case Reply(calls, _) => CallsTrailIsLive(tools, calls);
    }
  }

  /** Whatever the adapter and the tools do, and even with no turns at all, a run ends with its
      single terminal event; it is `run.completed` exactly when the loop answered. */
  lemma RunEndsOnce(tools: Tools, adapter: Adapter, maxTurns: int, n: nat)
    ensures TerminalOk(Numbered(RunBodies(tools, adapter, maxTurns), n))
  {
    LoopTrailIsLive(tools, adapter, 1, maxTurns);
    var bodies := RunBodies(tools, adapter, maxTurns);
    forall i | 0 <= i < |bodies| ensures IsTerminal(bodies[i].kind) <==> i == |bodies| - 1 {
      var loop := LoopTrail(tools, adapter, 1, maxTurns).bodies;
      if 0 < i < |bodies| - 1 {
        assert bodies[i] == loop[i - 1] && loop[i - 1] in loop;
      }
    }
  }

  /** What is wrong with a run: an id requested twice, an approved call that raised, a reused run id. */
  ghost predicate Blemished(tools: Tools, adapter: Adapter, maxTurns: int, n: nat)
  {
    var stop := LoopTrail(tools, adapter, 1, maxTurns).stop;
    n > 0 || !NoRepeats(RequestIds(RunBodies(tools, adapter, maxTurns))) || (stop.HandlerRaised? && stop.c != "")
  }

  lemma DanglingIsNotOk(es: seq<TraceEvent>, c: CallId)
    requires Dangling(es, c)
    ensures !CallOk(es, c)
  {
    var i, j :| DanglingAt(es, c, i, j);
    assert At(es, i, Requests, c) && At(es, j, Decides, c);
  }

  lemma RepeatIsNotOk(bodies: seq<Body>, n: nat, c: CallId)
    requires c != "" && multiset(RequestIds(bodies))[c] > 1
    ensures !CallOk(Numbered(bodies, n), c)
  {
    var es := Numbered(bodies, n);
    RequestsCounted(bodies, n, c);
    CountFacts(es, Requests, c);
    var i, j :| At(es, i, Requests, c) && At(es, j, Requests, c) && i != j;
  }

  /** The loop's trace meets the contract exactly when nothing blemishes the run. */
  lemma RunConformsExactly(tools: Tools, adapter: Adapter, maxTurns: int, n: nat)
    ensures Conforms(Numbered(RunBodies(tools, adapter, maxTurns), n)) <==> !Blemished(tools, adapter, maxTurns, n)
  {
    var bodies, stop := RunBodies(tools, adapter, maxTurns), LoopTrail(tools, adapter, 1, maxTurns).stop;
    var es := Numbered(bodies, n);
    RunEndsOnce(tools, adapter, maxTurns, n);
    assert SequenceOk(es) <==> n == 0 by { assert es[0].sequence == n + 1; }
    if !NoRepeats(RequestIds(bodies)) {
      var c :| c != "" && multiset(RequestIds(bodies))[c] > 1;
      RepeatIsNotOk(bodies, n, c);
    } else {
      RunTrailFits(n, tools, adapter, maxTurns);
      if stop.HandlerRaised? && stop.c != "" {
        assert FitsFor(es, stop, stop.c);
        DanglingIsNotOk(es, stop.c);
      } else {
        forall c ensures CallOk(es, c) { assert FitsFor(es, stop, c); }
      }
    }
  }

  lemma DanglingReport(es: seq<TraceEvent>, c: CallId, v: Violation)
    requires Dangling(es, c) && !IsHeaderCheck(v) && v.c == c
    ensures Expected(es, v) == One(v == MissingCompletion(c))
  {
    var i, j :| DanglingAt(es, c, i, j);
    CallFacts(es, c, Requests);
    CallFacts(es, c, Decides);
    CallFacts(es, c, Completes);
    CountFacts(es, Completes, c);
    assert IndexOf(es, Requests)[c] == i && IndexOf(es, Decides)[c] == j;
  }

  /** With a fresh run id and no id requested twice, a handler that raises after approval costs
      exactly one missing completion, and nothing else is ever reported. */
  lemma RunReportsExactly(tools: Tools, adapter: Adapter, maxTurns: int, v: Violation)
    requires NoRepeats(RequestIds(RunBodies(tools, adapter, maxTurns)))
    ensures var stop := LoopTrail(tools, adapter, 1, maxTurns).stop;
      Expected(Numbered(RunBodies(tools, adapter, maxTurns), 0), v)
        == One(stop.HandlerRaised? && stop.c != "" && v == MissingCompletion(stop.c))
  {
    var es, stop := Numbered(RunBodies(tools, adapter, maxTurns), 0), LoopTrail(tools, adapter, 1, maxTurns).stop;
    RunEndsOnce(tools, adapter, maxTurns, 0);
    TerminalExactly(es);
    if !IsHeaderCheck(v) {
      RunTrailFits(0, tools, adapter, maxTurns);
      assert FitsFor(es, stop, v.c);
      if stop == HandlerRaised(v.c) && v.c != "" {
        DanglingReport(es, v.c, v);
      } else {
        OkCallIsClean(es, v.c);
      }
    }
  }

  // ---- a condition on the adapter alone ----------------------------------------------------------------

  function CallIds(calls: seq<Call>): seq<CallId>
  {
    if calls == [] then [] else [calls[0].id] + CallIds(calls[1..])
  }

  /** All the ids the adapter could ask for, turn by turn. */
  function AskedIds(adapter: Adapter, k: int, maxTurns: int): seq<CallId>
    decreases maxTurns - k
  {
    if k > maxTurns then []
    else (if adapter(k).Reply? then CallIds(adapter(k).calls) else []) + AskedIds(adapter, k + 1, maxTurns)
  }

  lemma {:induction false} CallRequestsAreAsked(tools: Tools, calls: seq<Call>)
    ensures RequestIds(CallsTrail(tools, calls).bodies) <= CallIds(calls)
    ensures CallsTrail(tools, calls).stop == Going ==> RequestIds(CallsTrail(tools, calls).bodies) == CallIds(calls)
  {
    if calls != [] {
      var t := CallTrail(tools, calls[0]);
      CallRequestsAreAsked(tools, calls[1..]);
      RequestIdsAppend(t.bodies, CallsTrail(tools, calls[1..]).bodies);
      CallRequestId(tools, calls[0]);
    }
  }

  /** Calls are requested in the order in which the adapter asks for them, each at most once. */
  lemma {:induction false} RequestsAreAsked(tools: Tools, adapter: Adapter, k: int, maxTurns: int)
    ensures RequestIds(LoopTrail(tools, adapter, k, maxTurns).bodies) <= AskedIds(adapter, k, maxTurns)
    decreases maxTurns - k
  {
    if k <= maxTurns {
      var t, rest := TurnTrail(tools, adapter(k)), LoopTrail(tools, adapter, k + 1, maxTurns);
      RequestsAreAsked(tools, adapter, k + 1, maxTurns);
      RequestIdsAppend(t.bodies, rest.bodies);
      TurnRequestsAreAsked(tools, adapter(k));
    }
  }

  lemma TurnRequestsAreAsked(tools: Tools, turn: Turn)
    ensures var asked := if turn.Reply? then CallIds(turn.calls) else [];
      && RequestIds(TurnTrail(tools, turn).bodies) <= asked
      && (TurnTrail(tools, turn).stop == Going ==> RequestIds(TurnTrail(tools, turn).bodies) == asked)
  {
    if turn.Reply? {
      var head := [Body(ModelRequested, ""), Body(ModelCompleted, "")];
      assert head[..1] == [Body(ModelRequested, "")] && head[..1][..0] == [];
      assert RequestIds(head) == [];
      CallRequestsAreAsked(tools, turn.calls);
      RequestIdsAppend(head, CallsTrail(tools, turn.calls).bodies);
    }
  }

  lemma RunRequestsAreLoopRequests(tools: Tools, adapter: Adapter, maxTurns: int)
    ensures RequestIds(RunBodies(tools, adapter, maxTurns)) == RequestIds(LoopTrail(tools, adapter, 1, maxTurns).bodies)
  {
    var start, loop := Body(RunStarted, ""), LoopTrail(tools, adapter, 1, maxTurns);
    RequestIdsAppend([start], loop.bodies);
    NoRequest([], start);
    assert [] + [start] == [start];
    NoRequest([start] + loop.bodies, Body(if loop.stop == Answered then RunCompleted else RunFailed, ""));
  }

  lemma DistinctAsksDistinctRequests(tools: Tools, adapter: Adapter, maxTurns: int)
    requires NoRepeats(AskedIds(adapter, 1, maxTurns))
    ensures NoRepeats(RequestIds(RunBodies(tools, adapter, maxTurns)))
  {
    RunRequestsAreLoopRequests(tools, adapter, maxTurns);
    RequestsAreAsked(tools, adapter, 1, maxTurns);
    var asked, made := AskedIds(adapter, 1, maxTurns), RequestIds(LoopTrail(tools, adapter, 1, maxTurns).bodies);
    assert asked == made + asked[|made|..];
    NoRepeatsPrefix(made, asked[|made|..]);
  }

  /** With distinct ids from the adapter and a fresh run id, only a handler that raises after
      approval can break the contract. */
  lemma DistinctIdsConform(tools: Tools, adapter: Adapter, maxTurns: int)
    requires NoRepeats(AskedIds(adapter, 1, maxTurns))
    ensures var stop := LoopTrail(tools, adapter, 1, maxTurns).stop;
      Conforms(Numbered(RunBodies(tools, adapter, maxTurns), 0)) <==> !(stop.HandlerRaised? && stop.c != "")
  {
    DistinctAsksDistinctRequests(tools, adapter, maxTurns);
    RunConformsExactly(tools, adapter, maxTurns, 0);
  }

  /** The condition can fail: one answer that asks for two calls under the same id. */
  lemma RepeatedIdBreaks() returns (tools: Tools, adapter: Adapter)
    ensures !Conforms(Numbered(RunBodies(tools, adapter, 1), 0))
    ensures !LoopTrail(tools, adapter, 1, 1).stop.HandlerRaised?
  {
    var call := Call("c", "t", Returns(true));
    var turn := Reply([call, call], true);
    tools, adapter := map["t" := true], _ => turn;
    AskedTwice(tools, turn, call);
    RunRequestsAreLoopRequests(tools, adapter, 1);
    var t := TurnTrail(tools, turn);
    assert LoopTrail(tools, adapter, 1, 1) == Trail(t.bodies + [], Halted) && t.bodies + [] == t.bodies;
    assert multiset(["c", "c"])["c"] == 2;
    RepeatIsNotOk(RunBodies(tools, adapter, 1), 0, "c");
  }

  lemma AskedTwice(tools: Tools, turn: Turn, call: Call)
    requires tools == map["t" := true] && call == Call("c", "t", Returns(true)) && turn == Reply([call, call], true)
    ensures TurnTrail(tools, turn).stop == Going && RequestIds(TurnTrail(tools, turn).bodies) == ["c", "c"]
  {
    GoesOn(tools, call, []);
    GoesOn(tools, call, [call]);
    assert [call] + [] == [call] && [call] + [call] == [call, call];
    TurnRequestsAreAsked(tools, turn);
  }

  lemma GoesOn(tools: Tools, call: Call, rest: seq<Call>)
    requires call.name in tools && tools[call.name] && call.outcome == Returns(true)
    ensures CallsTrail(tools, [call] + rest).stop == CallsTrail(tools, rest).stop
    ensures CallIds([call] + rest) == [call.id] + CallIds(rest)
  {
    assert ([call] + rest)[1..] == rest;
  }

  // ---- running and checking -------------------------------------------------------------------------------

  lemma SingleReport(r: seq<Violation>, v: Violation)
    requires forall w :: multiset(r)[w] == One(w == v)
    ensures r == [v]
  {
    assert multiset(r)[v] == 1;
    assert multiset(r) == multiset{v};
    assert |multiset(r)| == |r|;
    assert r[0] in multiset(r);
  }

  /** A run on a fresh id, checked: nothing is reported, or the one call whose handler raised. */
  method RunAndCheck(runtime: HarnessRuntime, adapterName: string, maxTurns: int) returns (r: seq<Violation>)
    requires adapterName in runtime.adapters && runtime.log == []
    requires NoRepeats(AskedIds(runtime.adapters[adapterName], 1, maxTurns))
    modifies runtime
    ensures var stop := LoopTrail(runtime.tools, runtime.adapters[adapterName], 1, maxTurns).stop;
      r == if stop.HandlerRaised? && stop.c != "" then [MissingCompletion(stop.c)] else []
  {
    var adapter := runtime.adapters[adapterName];
    ghost var stop := LoopTrail(runtime.tools, adapter, 1, maxTurns).stop;
    var _ := runtime.Run(adapterName, maxTurns);
    var _, violations := ProjectViolations(runtime.events);
    DistinctIdsConform(runtime.tools, adapter, maxTurns);
    DistinctAsksDistinctRequests(runtime.tools, adapter, maxTurns);
    if stop.HandlerRaised? && stop.c != "" {
      forall w ensures multiset(violations)[w] == One(w == MissingCompletion(stop.c)) {
        RunReportsExactly(runtime.tools, adapter, maxTurns, w);
      }
      SingleReport(violations, MissingCompletion(stop.c));
    }
    r := violations;
  }
}
