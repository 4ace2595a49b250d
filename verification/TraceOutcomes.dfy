/** How a run of the agent loop goes, said of the adapter's answers and the registered tools: which
    events each call and each turn adds, where the run stops, and when it completes. */
module TraceOutcomes {
  import opened TraceContract
  import opened TraceRuntime

  // ---- the calls of one answer --------------------------------------------------------------------

  /** The tool is registered and read-only, its handler returns, and the result can be serialized. */
  predicate RunsThrough(tools: Tools, call: Call)
  {
    call.name in tools && tools[call.name] && call.outcome == Returns(true)
  }

  /** What the call adds after `b` when it does not run through, and how it ends. An unknown tool leaves
      no event; a tool that is not read-only is requested and denied; one whose handler raises stays
      approved; one whose result cannot be serialized has completed. */
  ghost predicate StopsHere(tools: Tools, call: Call, b: seq<Body>, from: nat, stop: Stop)
  {
    if call.name !in tools then |b| == from && stop == Halted
    else if !tools[call.name] then
      |b| == from + 2 && b[from] == Body(ToolRequested, call.id) && b[from + 1] == Body(ToolDenied, call.id) && stop == Halted
    else if call.outcome.Raises? then
      |b| == from + 2 && b[from] == Body(ToolRequested, call.id) && b[from + 1] == Body(ToolApproved, call.id)
      && stop == HandlerRaised(call.id)
    else FullBlock(call, b, from) && |b| == from + 3 && stop == Halted
  }

  ghost predicate FullBlock(call: Call, b: seq<Body>, from: nat)
  {
    from + 3 <= |b| && b[from] == Body(ToolRequested, call.id) && b[from + 1] == Body(ToolApproved, call.id)
    && b[from + 2] == Body(ToolCompleted, call.id)
  }

  /** The first `n` calls run through with their three events each; the run goes on after the last
      call, and otherwise stops at the first call that does not run through. */
  ghost predicate StopsAfter(tools: Tools, calls: seq<Call>, n: nat, t: Trail)
  {
    && n <= |calls| && (forall i :: 0 <= i < n ==> RunsThrough(tools, calls[i]) && FullBlock(calls[i], t.bodies, 3 * i))
    && if n == |calls| then |t.bodies| == 3 * n && t.stop == Going
       else !RunsThrough(tools, calls[n]) && StopsHere(tools, calls[n], t.bodies, 3 * n, t.stop)
  }

  ghost predicate LaterBy3(b: seq<Body>, b': seq<Body>)
  {
    |b'| == |b| + 3 && forall j :: 0 <= j < |b| ==> b'[j + 3] == b[j]
  }

  lemma Shift(tools: Tools, call: Call, b: seq<Body>, b': seq<Body>, from: nat, later: nat, stop: Stop)
    requires LaterBy3(b, b') && later == from + 3
    ensures FullBlock(call, b, from) ==> FullBlock(call, b', later)
    ensures StopsHere(tools, call, b, from, stop) ==> StopsHere(tools, call, b', later, stop)
  {
  }

  lemma BlockFirst(tools: Tools, calls: seq<Call>, n: nat, rest: Trail)
    requires calls != [] && RunsThrough(tools, calls[0]) && StopsAfter(tools, calls[1..], n, rest)
    ensures StopsAfter(tools, calls, n + 1, CallTrail(tools, calls[0]).Then(rest))
  {
    var all := CallTrail(tools, calls[0]).Then(rest);
    assert LaterBy3(rest.bodies, all.bodies);
    forall i | 0 <= i < n + 1 ensures RunsThrough(tools, calls[i]) && FullBlock(calls[i], all.bodies, 3 * i) {
      if i > 0 {
        assert calls[1..][i - 1] == calls[i] && FullBlock(calls[1..][i - 1], rest.bodies, 3 * (i - 1));
        Shift(tools, calls[i], rest.bodies, all.bodies, 3 * (i - 1), 3 * i, rest.stop);
      }
    }
    if n < |calls| - 1 {
      assert calls[1..][n] == calls[n + 1];
      Shift(tools, calls[n + 1], rest.bodies, all.bodies, 3 * n, 3 * (n + 1), rest.stop);
    }
  }

  lemma {:induction false} CallsTrailExactly(tools: Tools, calls: seq<Call>) returns (n: nat)
    ensures StopsAfter(tools, calls, n, CallsTrail(tools, calls))
  {
    n := 0;
    if calls != [] && RunsThrough(tools, calls[0]) {
      var m := CallsTrailExactly(tools, calls[1..]);
      BlockFirst(tools, calls, m, CallsTrail(tools, calls[1..]));
      n := m + 1;
    }
  }

  /** A tool that is not read-only fails closed: its call is denied, nothing of it is approved or
      completed, and no later call of the answer leaves an event. */
  lemma DeniedCallsStop(tools: Tools, call: Call, rest: seq<Call>)
    requires call.name in tools && !tools[call.name]
    ensures CallsTrail(tools, [call] + rest) == Trail([Body(ToolRequested, call.id), Body(ToolDenied, call.id)], Halted)
  {
    var n := CallsTrailExactly(tools, [call] + rest);
    var t := CallsTrail(tools, [call] + rest);
    assert n == 0 && StopsHere(tools, call, t.bodies, 0, t.stop);
    assert t.bodies == [Body(ToolRequested, call.id), Body(ToolDenied, call.id)];
  }

  // ---- one turn -------------------------------------------------------------------------------------

  /** The loop goes on to the next turn after an answer whose calls all run through. */
  ghost predicate GoesOn(tools: Tools, turn: Turn)
  {
    turn.Reply? && turn.dumpable && turn.calls != [] && forall i :: 0 <= i < |turn.calls| ==> RunsThrough(tools, turn.calls[i])
  }

  /** Without calls, an answer ends the loop; an adapter that raises, or arguments that cannot be
      serialized, halt it before any call. */
  lemma TurnTrailExactly(tools: Tools, turn: Turn)
    ensures var t := TurnTrail(tools, turn);
      && (t.stop == Going <==> GoesOn(tools, turn))
      && (t.stop == Answered <==> turn == Reply([], true))
      && t.bodies != [] && t.bodies[0] == Body(ModelRequested, "")
      && if turn.AdapterRaises? then t == Trail([Body(ModelRequested, "")], Halted)
         else
           && |t.bodies| >= 2 && t.bodies[1] == Body(ModelCompleted, "")
           && if !turn.dumpable || turn.calls == [] then |t.bodies| == 2 && (!turn.dumpable ==> t.stop == Halted)
              else exists n :: StopsAfter(tools, turn.calls, n, Trail(t.bodies[2..], t.stop))
  {
    if turn.Reply? && turn.dumpable && turn.calls != [] {
      var c := CallsTrail(tools, turn.calls);
      var n := CallsTrailExactly(tools, turn.calls);
      assert TurnTrail(tools, turn).bodies[2..] == c.bodies;
      assert StopsAfter(tools, turn.calls, n, Trail(TurnTrail(tools, turn).bodies[2..], TurnTrail(tools, turn).stop));
    }
  }

  // ---- the whole run -----------------------------------------------------------------------------------

  /** The events of turns `k` to `n`, one turn after another. */
  function TurnsFrom(tools: Tools, adapter: Adapter, k: int, n: int): seq<Body>
    decreases n - k
  {
    if k > n then [] else TurnTrail(tools, adapter(k)).bodies + TurnsFrom(tools, adapter, k + 1, n)
  }

  /** Turn `n` is the last of the turns from `k` on: those before it go on, and it does not, or the limit
      is reached. */
  ghost predicate LastTurn(tools: Tools, adapter: Adapter, k: int, n: int, maxTurns: int)
  {
    && k - 1 <= n && (k <= maxTurns ==> k <= n <= maxTurns) && (k > maxTurns ==> n == k - 1)
    && (forall i :: k <= i < n ==> GoesOn(tools, adapter(i)))
    && (k <= n < maxTurns ==> !GoesOn(tools, adapter(n)))
  }

  lemma {:induction false} LoopTrailExactly(tools: Tools, adapter: Adapter, k: int, maxTurns: int) returns (n: int)
    ensures LastTurn(tools, adapter, k, n, maxTurns)
    ensures var t := LoopTrail(tools, adapter, k, maxTurns);
      && t.bodies == TurnsFrom(tools, adapter, k, n)
      && (t.stop == Answered <==> k <= n && adapter(n) == Reply([], true))
    decreases maxTurns - k
  {
    n := k - 1;
    if k <= maxTurns {
      TurnTrailExactly(tools, adapter(k));
      if GoesOn(tools, adapter(k)) {
        n := LoopTrailExactly(tools, adapter, k + 1, maxTurns);
        if k + 1 > maxTurns {
          assert TurnsFrom(tools, adapter, k, n) == TurnTrail(tools, adapter(k)).bodies + [];
        }
      } else {
        n := k;
        assert TurnsFrom(tools, adapter, k + 1, k) == [];
        assert TurnTrail(tools, adapter(k)).bodies + [] == TurnTrail(tools, adapter(k)).bodies;
      }
    }
  }

  /** A run completes exactly if some turn within the limit answers without calls and in every turn
      before it all the calls the adapter asked for ran through. */
  lemma RunCompletesExactly(tools: Tools, adapter: Adapter, maxTurns: int)
    ensures LoopTrail(tools, adapter, 1, maxTurns).stop == Answered <==>
      exists n :: 1 <= n <= maxTurns && adapter(n) == Reply([], true) && forall k :: 1 <= k < n ==> GoesOn(tools, adapter(k))
  {
    var n := LoopTrailExactly(tools, adapter, 1, maxTurns);
    if m :| 1 <= m <= maxTurns && adapter(m) == Reply([], true) && forall k :: 1 <= k < m ==> GoesOn(tools, adapter(k)) {
      assert !GoesOn(tools, adapter(m));
      assert n == m;
    }
  }

  /** The events of a run: its start, the turns up to the last one, and the end that tells whether an
      answer was reached. */
  lemma RunExactly(tools: Tools, adapter: Adapter, maxTurns: int) returns (n: int)
    ensures LastTurn(tools, adapter, 1, n, maxTurns)
    ensures RunBodies(tools, adapter, maxTurns) == [Body(RunStarted, "")] + TurnsFrom(tools, adapter, 1, n)
              + [Body(if 1 <= n && adapter(n) == Reply([], true) then RunCompleted else RunFailed, "")]
  {
    n := LoopTrailExactly(tools, adapter, 1, maxTurns);
  }

  // ---- only read-only tools run ---------------------------------------------------------------------------

  /** Events of a tool come from a call of it that the adapter asked for; approval and completion go to
      read-only tools only, and denial to the others. */
  ghost predicate Warranted(tools: Tools, call: Call, b: Body)
  {
    && call.id == b.callId && call.name in tools
    && (b.kind == ToolApproved || b.kind == ToolCompleted ==> tools[call.name])
    && (b.kind == ToolDenied ==> !tools[call.name])
  }

  predicate OfTool(b: Body)
  {
    b.kind in {ToolRequested, ToolApproved, ToolDenied, ToolCompleted}
  }

  lemma {:induction false} CallEventsAreWarranted(tools: Tools, calls: seq<Call>, b: Body)
    requires b in CallsTrail(tools, calls).bodies
    ensures OfTool(b) && exists i :: 0 <= i < |calls| && Warranted(tools, calls[i], b)
  {
    if b in CallTrail(tools, calls[0]).bodies {
      assert Warranted(tools, calls[0], b);
    } else {
      CallEventsAreWarranted(tools, calls[1..], b);
      var i :| 0 <= i < |calls| - 1 && Warranted(tools, calls[1..][i], b);
      assert Warranted(tools, calls[i + 1], b);
    }
  }

  ghost predicate AskedFor(tools: Tools, adapter: Adapter, k: int, b: Body)
  {
    adapter(k).Reply? && exists i :: 0 <= i < |adapter(k).calls| && Warranted(tools, adapter(k).calls[i], b)
  }

  lemma {:induction false} TurnEventsAreWarranted(tools: Tools, adapter: Adapter, k: int, n: int, b: Body)
    requires b in TurnsFrom(tools, adapter, k, n) && OfTool(b)
    ensures exists m :: k <= m <= n && AskedFor(tools, adapter, m, b)
    decreases n - k
  {
    if b in TurnTrail(tools, adapter(k)).bodies {
      CallEventsAreWarranted(tools, adapter(k).calls, b);
      assert AskedFor(tools, adapter, k, b);
    } else {
      TurnEventsAreWarranted(tools, adapter, k + 1, n, b);
    }
  }

  /** Over a whole run, whatever is approved or completed is a read-only tool that the adapter asked for
      in some turn within the limit. */
  lemma ApprovalsAreReadOnly(tools: Tools, adapter: Adapter, maxTurns: int, b: Body)
    requires b in RunBodies(tools, adapter, maxTurns) && OfTool(b)
    ensures exists k :: 1 <= k <= maxTurns && AskedFor(tools, adapter, k, b)
  {
    var n := RunExactly(tools, adapter, maxTurns);
    assert b in TurnsFrom(tools, adapter, 1, n);
    TurnEventsAreWarranted(tools, adapter, 1, n, b);
  }
}
