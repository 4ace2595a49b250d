/** The agent loop of services/observability/src/harnesslab/runtime.py, for any adapter and any
    tools, and the proof that what it emits meets the trace contract. */
module TraceRuntime {
  import opened TraceContract

  /** What a tool's handler does with one call: raises, or returns a result that the message
      history can or cannot serialize. */
  datatype Outcome = Raises | Returns(serializable: bool)

  datatype Call = Call(id: CallId, name: string, outcome: Outcome)

  /** What the adapter does in one turn; `dumpable` says whether all the calls' arguments serialize. */
  datatype Turn = AdapterRaises | Reply(calls: seq<Call>, dumpable: bool)

  type Adapter = int -> Turn

  /** Whether each registered tool is read-only. */
  type Tools = map<string, bool>

  datatype Body = Body(kind: Kind, callId: CallId)

  /** How a piece of the run ends. `HandlerRaised` is an exception out of an approved tool. */
  datatype Stop = Going | Answered | Halted | HandlerRaised(c: CallId)

  datatype RunStatus = RUNNING | COMPLETED | FAILED

  // ---- what the loop emits ---------------------------------------------------------------------

  datatype Trail = Trail(bodies: seq<Body>, stop: Stop) {
    /** Carries on with `rest` unless an exception or an answer ended this piece. */
    function Then(rest: Trail): Trail
    {
      if stop == Going then Trail(bodies + rest.bodies, rest.stop) else this
    }
  }

  function CallTrail(tools: Tools, call: Call): Trail
  {
    if call.name !in tools then Trail([], Halted)
    else if !tools[call.name] then Trail([Body(ToolRequested, call.id), Body(ToolDenied, call.id)], Halted)
    else if call.outcome.Raises? then
      Trail([Body(ToolRequested, call.id), Body(ToolApproved, call.id)], HandlerRaised(call.id))
    else
      Trail([Body(ToolRequested, call.id), Body(ToolApproved, call.id), Body(ToolCompleted, call.id)],
            if call.outcome.serializable then Going else Halted)
  }

  function CallsTrail(tools: Tools, calls: seq<Call>): Trail
  {
    if calls == [] then Trail([], Going) else CallTrail(tools, calls[0]).Then(CallsTrail(tools, calls[1..]))
  }

  function TurnTrail(tools: Tools, turn: Turn): Trail
  {
    match turn
    case AdapterRaises => Trail([Body(ModelRequested, "")], Halted)
    case Reply(calls, dumpable) =>
      Trail([Body(ModelRequested, ""), Body(ModelCompleted, "")],
            if !dumpable then Halted else if calls == [] then Answered else Going).Then(CallsTrail(tools, calls))
  }

  /** Turns `k` to `maxTurns`; running out of turns is an error. */
  function LoopTrail(tools: Tools, adapter: Adapter, k: int, maxTurns: int): Trail
    decreases maxTurns - k
  {
    if k > maxTurns then Trail([], Halted)
    else TurnTrail(tools, adapter(k)).Then(LoopTrail(tools, adapter, k + 1, maxTurns))
  }

  function RunBodies(tools: Tools, adapter: Adapter, maxTurns: int): seq<Body>
  {
    var loop := LoopTrail(tools, adapter, 1, maxTurns);
    [Body(RunStarted, "")] + loop.bodies + [Body(if loop.stop == Answered then RunCompleted else RunFailed, "")]
  }

  /** The events of a log that already holds `n` of them. */
  function Numbered(bodies: seq<Body>, n: nat): (es: seq<TraceEvent>)
    ensures |es| == |bodies|
    ensures forall i :: 0 <= i < |es| ==> es[i] == TraceEvent(n + i + 1, bodies[i].kind, bodies[i].callId)
  {
    seq(|bodies|, i requires 0 <= i < |bodies| => TraceEvent(n + i + 1, bodies[i].kind, bodies[i].callId))
  }

  lemma NumberedAppend(a: seq<Body>, b: seq<Body>, n: nat)
    ensures Numbered(a + b, n) == Numbered(a, n) + Numbered(b, n + |a|)
  {
  }

  /** Publishing `bodies` took the bus's log and the run record from (l0, e0) to (l1, e1). */
  ghost predicate Emitted(l0: seq<TraceEvent>, e0: seq<TraceEvent>, l1: seq<TraceEvent>, e1: seq<TraceEvent>, bodies: seq<Body>)
  {
    l1 == l0 + Numbered(bodies, |l0|) && e1 == e0 + Numbered(bodies, |l0|)
  }

  lemma EmittedNothing(l0: seq<TraceEvent>, e0: seq<TraceEvent>)
    ensures Emitted(l0, e0, l0, e0, [])
  {
  }

  lemma EmittedTwice(l0: seq<TraceEvent>, e0: seq<TraceEvent>, l1: seq<TraceEvent>, e1: seq<TraceEvent>,
                     l2: seq<TraceEvent>, e2: seq<TraceEvent>, a: seq<Body>, b: seq<Body>)
    requires Emitted(l0, e0, l1, e1, a) && Emitted(l1, e1, l2, e2, b)
    ensures Emitted(l0, e0, l2, e2, a + b)
  {
    NumberedAppend(a, b, |l0|);
  }

  /** The ids of the requested calls, in order. */
  function RequestIds(bodies: seq<Body>): seq<CallId>
  {
    if bodies == [] then []
    else
      RequestIds(bodies[..|bodies| - 1])
      + if bodies[|bodies| - 1].kind == ToolRequested then [bodies[|bodies| - 1].callId] else []
  }

  /** No non-empty id appears twice. */
  ghost predicate NoRepeats(ids: seq<CallId>)
  {
    forall c :: c != "" ==> multiset(ids)[c] <= 1
  }

  // ---- the runtime ---------------------------------------------------------------------------------

  class HarnessRuntime {
    const tools: Tools
    const adapters: map<string, Adapter>
    /** The event bus's log for the run's id. */
    var log: seq<TraceEvent>
    /** The run record. */
    var events: seq<TraceEvent>
    var status: RunStatus

    constructor (tools: Tools, adapters: map<string, Adapter>, log: seq<TraceEvent>)
      ensures this.tools == tools && this.adapters == adapters && this.log == log
    {
      this.tools, this.adapters, this.log, this.events, this.status := tools, adapters, log, [], RUNNING;
    }

    /** `_emit`: the bus numbers the event by the length of its log. */
    method Emit(kind: Kind, callId: CallId)
      modifies this`log, this`events
      ensures Emitted(old(log), old(events), log, events, [Body(kind, callId)])
    {
      var event := TraceEvent(|log| + 1, kind, callId);
      log := log + [event];
      events := events + [event];
      assert [event] == Numbered([Body(kind, callId)], |old(log)|);
    }

    /** `_emit`, after `before` has been emitted since (l0, e0). */
    method EmitNext(ghost l0: seq<TraceEvent>, ghost e0: seq<TraceEvent>, ghost before: seq<Body>, kind: Kind, callId: CallId)
      requires Emitted(l0, e0, log, events, before)
      modifies this`log, this`events
      ensures Emitted(l0, e0, log, events, before + [Body(kind, callId)])
    {
      Emit(kind, callId);
      EmittedTwice(l0, e0, old(log), old(events), log, events, before, [Body(kind, callId)]);
    }

    /** `_execute_tool`. */
    method ExecuteTool(call: Call) returns (stop: Stop)
      modifies this`log, this`events
      ensures stop == CallTrail(tools, call).stop
      ensures Emitted(old(log), old(events), log, events, CallTrail(tools, call).bodies)
    {
      if call.name !in tools {
        EmittedNothing(log, events);
        return Halted;
      }
      Emit(ToolRequested, call.id);
      ghost var requested := [Body(ToolRequested, call.id)];
      if !tools[call.name] {
        EmitNext(old(log), old(events), requested, ToolDenied, call.id);
        return Halted;
      }
      EmitNext(old(log), old(events), requested, ToolApproved, call.id);
      if call.outcome.Raises? {
        return HandlerRaised(call.id);
      }
      EmitNext(old(log), old(events), requested + [Body(ToolApproved, call.id)], ToolCompleted, call.id);
      if !call.outcome.serializable {
        return Halted;
      }
      stop := Going;
    }

    /** The calls of one reply, until one of them raises. */
    method ExecuteTools(calls: seq<Call>) returns (stop: Stop)
      modifies this`log, this`events
      ensures stop == CallsTrail(tools, calls).stop
      ensures Emitted(old(log), old(events), log, events, CallsTrail(tools, calls).bodies)
    {
      ghost var done := Trail([], Going);
      EmittedNothing(log, events);
      stop := Going;
      var i := 0;
      while i < |calls| && stop == Going
        invariant 0 <= i <= |calls| && stop == done.stop
        invariant done.Then(CallsTrail(tools, calls[i..])) == CallsTrail(tools, calls)
        invariant Emitted(old(log), old(events), log, events, done.bodies)
      {
        ghost var t := CallTrail(tools, calls[i]);
        ghost var log1, events1 := log, events;
        ThenAssoc(done, t, CallsTrail(tools, calls[i + 1..]));
        assert calls[i..][1..] == calls[i + 1..];
        stop := ExecuteTool(calls[i]);
        EmittedTwice(old(log), old(events), log1, events1, log, events, done.bodies, t.bodies);
        done := done.Then(t);
        i := i + 1;
      }
    }

    /** One pass of the turn loop. */
    method TakeTurn(turn: Turn) returns (stop: Stop)
      modifies this`log, this`events
      ensures stop == TurnTrail(tools, turn).stop
      ensures Emitted(old(log), old(events), log, events, TurnTrail(tools, turn).bodies)
    {
      Emit(ModelRequested, "");
      if turn.AdapterRaises? {
        return Halted;
      }
      EmitNext(old(log), old(events), [Body(ModelRequested, "")], ModelCompleted, "");
      ghost var head := [Body(ModelRequested, ""), Body(ModelCompleted, "")];
      assert [Body(ModelRequested, "")] + [Body(ModelCompleted, "")] == head;
      if !turn.dumpable {
        return Halted;
      }
      if turn.calls == [] {
        return Answered;
      }
      ghost var log1, events1 := log, events;
      stop := ExecuteTools(turn.calls);
      EmittedTwice(old(log), old(events), log1, events1, log, events, head, CallsTrail(tools, turn.calls).bodies);
    }

    /** The turns, until an answer, an exception or the turn limit. */
    method TakeTurns(adapter: Adapter, maxTurns: int) returns (stop: Stop)
      modifies this`log, this`events
      ensures LoopTrail(tools, adapter, 1, maxTurns).stop == if stop == Going then Halted else stop
      ensures Emitted(old(log), old(events), log, events, LoopTrail(tools, adapter, 1, maxTurns).bodies)
    {
      ghost var done, all := Trail([], Going), LoopTrail(tools, adapter, 1, maxTurns);
      EmittedNothing(log, events);
      var k := 1;
      stop := Going;
      while k <= maxTurns && stop == Going
        invariant stop == done.stop && done.Then(LoopTrail(tools, adapter, k, maxTurns)) == all
        invariant Emitted(old(log), old(events), log, events, done.bodies)
        decreases maxTurns - k
      {
        ghost var t := TurnTrail(tools, adapter(k));
        ghost var log1, events1 := log, events;
        ThenAssoc(done, t, LoopTrail(tools, adapter, k + 1, maxTurns));
        stop := TakeTurn(adapter(k));
        EmittedTwice(old(log), old(events), log1, events1, log, events, done.bodies, t.bodies);
        done := done.Then(t);
        k := k + 1;
      }
      assert all.bodies == done.bodies;
    }

    /** `run`: nothing happens for an unknown adapter; otherwise the run record holds exactly the
        events of the loop's trail, appended to the bus's log. */
    method Run(adapterName: string, maxTurns: int) returns (known: bool)
      modifies this
      ensures known <==> adapterName in adapters
      ensures !known ==> log == old(log) && events == old(events) && status == old(status)
      ensures known ==>
        && events == Numbered(RunBodies(tools, adapters[adapterName], maxTurns), |old(log)|)
        && log == old(log) + events
        && status == if LoopTrail(tools, adapters[adapterName], 1, maxTurns).stop == Answered then COMPLETED else FAILED
    {
      if adapterName !in adapters {
        return false;
      }
      events, status := [], RUNNING;
      ghost var start, loop := [Body(RunStarted, "")], LoopTrail(tools, adapters[adapterName], 1, maxTurns).bodies;
      Emit(RunStarted, "");
      ghost var log1, events1 := log, events;
      var stop := TakeTurns(adapters[adapterName], maxTurns);
      EmittedTwice(old(log), [], log1, events1, log, events, start, loop);
      if stop == Answered {
        status := COMPLETED;
        EmitNext(old(log), [], start + loop, RunCompleted, "");
      } else {
        status := FAILED;
        EmitNext(old(log), [], start + loop, RunFailed, "");
      }
      return true;
    }
  }

  lemma ThenAssoc(a: Trail, b: Trail, c: Trail)
    ensures a.Then(b).Then(c) == a.Then(b.Then(c))
  {
    assert (a.bodies + b.bodies) + c.bodies == a.bodies + (b.bodies + c.bodies);
  }
}
