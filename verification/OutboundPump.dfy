/** `_OutboundPump` of services/realtime/src/echoweave/app.py: a bounded queue with a single
    sender task. One step per stretch of code between awaits; steps interleave freely. */
module OutboundPump {

  datatype Item = Item(payload: nat, size: nat)

  datatype Failure = SlowClient | SendTimeout | Disconnect

  // Where the sender coroutine is suspended.
  datatype Sender = Absent | Created | Waiting | Sending(item: Item) | Ended

  // A caller inside `flush`: how much had been accepted when it called, and whether `join` woke it.
  datatype Flush = Flush(mark: nat, woken: bool)

  datatype Limits = Limits(maxMessages: int, maxBytes: nat)

  datatype Pump = Pump(
    queue: seq<Item>,
    bytes: int,
    unfinished: int,
    accepting: bool,
    failures: seq<Failure>,   // what the failure observer was told
    hasTask: bool,            // `self._task is not None`
    sender: Sender,
    cancelled: bool,          // a cancellation is pending on the sender
    stopping: bool,           // `stop` is awaiting the sender
    flushes: map<nat, Flush>,
    accepted: seq<Item>,      // history: everything ever queued
    delivered: seq<Item>,     // history: everything whose send returned
    stopped: bool,            // history: `stop` was called
    sentAtStop: nat)          // history: how much had been delivered when it first was

  const IDLE := Pump([], 0, 0, true, [], false, Absent, false, false, map[], [], [], false, 0)

  function InFlight(p: Pump): seq<Item>
  {
    if p.sender.Sending? then [p.sender.item] else []
  }

  function Sizes(items: seq<Item>): nat
  {
    if items == [] then 0 else items[0].size + Sizes(items[1..])
  }

  predicate Failed(p: Pump) { p.failures != [] }

  // ---- the atomic pieces ---------------------------------------------------------------------

  predicate QueueFull(p: Pump, l: Limits)
  {
    l.maxMessages > 0 && |p.queue| >= l.maxMessages
  }

  /** `_mark_failed`: only the first failure counts; an overrun also cancels the sender. */
  function MarkFailed(p: Pump, kind: Failure, cancelSender: bool): Pump
  {
    if Failed(p) then p
    else p.(failures := p.failures + [kind], accepting := false,
            cancelled := p.cancelled || (cancelSender && p.hasTask && !p.sender.Ended?))
  }

  datatype Enqueued = Taken | Refused

  function Enqueue(p: Pump, l: Limits, item: Item): (Pump, Enqueued)
  {
    if !p.accepting || Failed(p) then (p, Refused)
    else if QueueFull(p, l) || p.bytes + item.size > l.maxBytes then (MarkFailed(p, SlowClient, true), Refused)
    else (p.(bytes := p.bytes + item.size, queue := p.queue + [item], unfinished := p.unfinished + 1,
             accepted := p.accepted + [item]), Taken)
  }

  /** `task_done` many times over: reaching zero wakes everyone inside `join`. */
  function TaskDone(p: Pump, count: nat): Pump
  {
    var rest := p.unfinished - count;
    p.(unfinished := rest,
       flushes := if rest == 0 && count > 0 then map i | i in p.flushes :: p.flushes[i].(woken := true) else p.flushes)
  }

  function Discard(p: Pump): Pump
  {
    TaskDone(p.(queue := [], bytes := p.bytes - Sizes(p.queue)), |p.queue|)
  }

  /** The inner `finally`: the item leaves the books whatever became of it. */
  function Settle(p: Pump): Pump
  {
    if p.sender.Sending? then
      TaskDone(p.(bytes := p.bytes - p.sender.item.size, sender := Waiting), 1)
    else p
  }

  function End(p: Pump): Pump
  {
    Discard(p).(sender := Ended)
  }

  // ---- steps -----------------------------------------------------------------------------------

  datatype Op =
    | OpEnqueue(item: Item)
    | OpStart
    | OpBegin                    // the task runs for the first time
    | OpTake                     // `queue.get` returns
    | OpSent                     // the send returns
    | OpSendFails(kind: Failure) // the send times out or raises
    | OpCancelled                // the pending cancellation is delivered
    | OpStop
    | OpStopReturns
    | OpFlush(i: nat)
    | OpFlushReturns(i: nat)
    | OpFlushTimesOut(i: nat)

  predicate Enabled(p: Pump, op: Op)
  {
    match op
    case OpEnqueue(_) => true
    case OpStart => p.hasTask || (!p.stopping && (p.sender.Absent? || p.sender.Ended?))
    case OpBegin => p.sender.Created? && !p.cancelled
    case OpTake => p.sender.Waiting? && !p.cancelled && p.queue != []
    case OpSent => p.sender.Sending? && !p.cancelled
    case OpSendFails(kind) => p.sender.Sending? && !p.cancelled && kind in {SendTimeout, Disconnect}
    case OpCancelled => p.cancelled && (p.sender.Created? || p.sender.Waiting? || p.sender.Sending?)
    case OpStop => true
    case OpStopReturns => p.stopping && p.sender.Ended?
    case OpFlush(i) => i !in p.flushes
    case OpFlushReturns(i) => i in p.flushes && p.flushes[i].woken
    case OpFlushTimesOut(i) => i in p.flushes
  }

  function Apply(p: Pump, l: Limits, op: Op): Pump
  {
    match op
    case OpEnqueue(item) => Enqueue(p, l, item).0
    case OpStart => if p.hasTask then p else p.(hasTask := true, sender := Created, cancelled := false)
    case OpBegin => p.(sender := Waiting)
    case OpTake => if p.queue == [] then p else p.(sender := Sending(p.queue[0]), queue := p.queue[1..])
    case OpSent => if p.sender.Sending? then Settle(p).(delivered := p.delivered + [p.sender.item]) else p
    case OpSendFails(kind) => End(Settle(MarkFailed(p, kind, false)))
    case OpCancelled =>
      // a task cancelled before its first step never enters the outer try
      (if p.sender.Created? then p.(sender := Ended) else End(Settle(p))).(cancelled := false)
    case OpStop =>
      var q := Closed(p);
      if p.hasTask then q.(cancelled := p.cancelled || !p.sender.Ended?, stopping := true) else Discard(q)
    case OpStopReturns => Discard(p).(stopping := false)
    case OpFlush(i) =>
      if Failed(p) then p else p.(flushes := p.flushes[i := Flush(|p.accepted|, p.unfinished == 0)])
    case OpFlushReturns(i) => p.(flushes := p.flushes - {i})
    case OpFlushTimesOut(i) => p.(flushes := p.flushes - {i})
  }

  /** `stop` first shuts the entrance and lets go of the task. */
  function Closed(p: Pump): Pump
  {
    p.(accepting := false, hasTask := false, stopped := true, sentAtStop := if p.stopped then p.sentAtStop else |p.delivered|)
  }

  function Run(l: Limits, ops: seq<Op>): Pump
  {
    if ops == [] then IDLE else Apply(Run(l, ops[..|ops| - 1]), l, ops[|ops| - 1])
  }

  ghost predicate LegalRun(l: Limits, ops: seq<Op>)
  {
    ops == [] || (LegalRun(l, ops[..|ops| - 1]) && Enabled(Run(l, ops[..|ops| - 1]), ops[|ops| - 1]))
  }

  // ---- the invariant ------------------------------------------------------------------------------

  ghost predicate BooksBalance(p: Pump, l: Limits)
  {
    && p.bytes == Sizes(InFlight(p)) + Sizes(p.queue)
    && p.bytes <= l.maxBytes
    && p.unfinished == |InFlight(p)| + |p.queue|
    && (l.maxMessages > 0 ==> |p.queue| <= l.maxMessages)
  }

  /** Sent, being sent and queued, in that order, is how acceptance began; nothing is missing
      while the pump still accepts. */
  ghost predicate OrderKept(p: Pump)
  {
    && p.delivered + InFlight(p) + p.queue <= p.accepted
    && (p.accepting ==> p.delivered + InFlight(p) + p.queue == p.accepted)
  }

  ghost predicate FlagsOk(p: Pump)
  {
    && |p.failures| <= 1
    && (p.accepting ==> !Failed(p) && !p.stopped)
    && (!p.accepting ==> Failed(p) || p.stopped)
    && (p.cancelled || p.sender.Ended? || p.stopping ==> !p.accepting)
  }

  ghost predicate FlushOk(p: Pump, i: nat)
  {
    i in p.flushes ==>
      && p.flushes[i].mark <= |p.accepted|
      && (!p.flushes[i].woken ==> p.unfinished > 0)
      && (p.flushes[i].woken && !Failed(p) && !p.stopped ==> p.flushes[i].mark <= |p.delivered|)
  }

  /** After `stop` nothing more is sent: a sender with something to send has a cancellation pending. */
  ghost predicate StopOk(p: Pump)
  {
    && (!p.stopped && !p.hasTask ==> p.sender.Absent?)
    && (p.hasTask ==> !p.sender.Absent?)
    && (p.stopping && !p.sender.Ended? ==> p.cancelled && !p.sender.Absent?)
    && (p.stopped ==>
          && p.sentAtStop == |p.delivered|
          && (p.sender.Sending? ==> p.cancelled)
          && (p.queue != [] && (p.sender.Created? || p.sender.Waiting?) ==> p.cancelled)
          && (!p.stopping ==> p.queue == []))
  }

  ghost predicate Inv(p: Pump, l: Limits)
  {
    && BooksBalance(p, l) && OrderKept(p) && FlagsOk(p) && StopOk(p)
    && forall i {:trigger FlushOk(p, i)} :: FlushOk(p, i)
  }

  lemma {:induction false} SizesAppend(a: seq<Item>, b: seq<Item>)
    ensures Sizes(a + b) == Sizes(a) + Sizes(b)
  {
    if a == [] {
      assert a + b == b;
    } else {
      assert (a + b)[0] == a[0] && (a + b)[1..] == a[1..] + b;
      SizesAppend(a[1..], b);
    }
  }

  lemma EnqueueKeepsInv(p: Pump, l: Limits, item: Item)
    requires Inv(p, l)
    ensures Inv(Enqueue(p, l, item).0, l)
  {
    var q := Enqueue(p, l, item).0;
    if Enqueue(p, l, item).1.Taken? {
      SizesAppend(p.queue, [item]);
      assert q.delivered + InFlight(q) + q.queue == p.delivered + InFlight(p) + p.queue + [item];
    }
    forall i ensures FlushOk(q, i) { assert FlushOk(p, i); }
  }

  lemma TakeKeepsInv(p: Pump, l: Limits)
    requires Inv(p, l) && Enabled(p, OpTake)
    ensures Inv(Apply(p, l, OpTake), l)
  {
    var q := Apply(p, l, OpTake);
    assert p.queue == [p.queue[0]] + p.queue[1..];
    assert Sizes(InFlight(q)) == p.queue[0].size + Sizes([]);
    assert q.delivered + InFlight(q) + q.queue == p.delivered + InFlight(p) + p.queue;
    forall i ensures FlushOk(q, i) { assert FlushOk(p, i); }
  }

  lemma SentKeepsInv(p: Pump, l: Limits)
    requires Inv(p, l) && Enabled(p, OpSent)
    ensures Inv(Apply(p, l, OpSent), l)
  {
    var q := Apply(p, l, OpSent);
    assert Sizes(InFlight(p)) == p.sender.item.size + Sizes([]);
    assert q.delivered + InFlight(q) + q.queue == p.delivered + InFlight(p) + p.queue;
    forall i ensures FlushOk(q, i) {
      assert FlushOk(p, i);
      if q.unfinished == 0 && p.accepting { assert q.delivered == q.accepted; }
    }
  }

  /** Ending the sender, or emptying the queue, once nothing is accepted any more. */
  lemma SettleAndDiscardKeepInv(p: Pump, l: Limits, q: Pump)
    requires Inv(p, l) && !p.accepting
    requires q == Discard(p) || (q == End(Settle(p)) && !p.sender.Absent?)
    ensures BooksBalance(q, l) && OrderKept(q) && StopOk(q) && q.bytes == Sizes(InFlight(q)) && q.queue == []
    ensures forall i :: FlushOk(q, i)
    ensures q.accepting == p.accepting && q.failures == p.failures && q.stopped == p.stopped
    ensures q.cancelled == p.cancelled && q.stopping == p.stopping
  {
    if p.sender.Sending? { assert Sizes(InFlight(p)) == p.sender.item.size + Sizes([]); }
    forall i ensures FlushOk(q, i) { assert FlushOk(p, i); }
    assert p.delivered <= p.accepted && p.delivered + InFlight(p) <= p.accepted by {
      assert p.delivered + InFlight(p) <= p.delivered + InFlight(p) + p.queue;
    }
    assert q.delivered + InFlight(q) + q.queue == q.delivered + InFlight(q);
  }

  lemma FailKeepsInv(p: Pump, l: Limits, kind: Failure, cancelSender: bool)
    requires Inv(p, l)
    ensures Inv(MarkFailed(p, kind, cancelSender), l) && !MarkFailed(p, kind, cancelSender).accepting
  {
    var q := MarkFailed(p, kind, cancelSender);
    forall i ensures FlushOk(q, i) { assert FlushOk(p, i); }
  }

  /** Without a task there is at most a sender that an earlier `stop` is waiting for. */
  lemma StopIdleKeepsInv(p: Pump, l: Limits, q: Pump)
    requires Inv(p, l) && !p.hasTask
    requires q == Closed(p)
    ensures Inv(Discard(q), l)
  {
    var r := Discard(q);
    forall i ensures FlushOk(r, i) { assert FlushOk(p, i); }
    assert p.delivered + InFlight(p) <= p.delivered + InFlight(p) + p.queue;
    assert r.delivered + InFlight(r) + r.queue == p.delivered + InFlight(p);
  }

  lemma StopKeepsInv(p: Pump, l: Limits)
    requires Inv(p, l)
    ensures Inv(Apply(p, l, OpStop), l)
  {
    var q := Closed(p);
    forall i ensures FlushOk(q, i) { assert FlushOk(p, i); }
    if p.hasTask {
      var r := q.(cancelled := p.cancelled || !p.sender.Ended?, stopping := true);
      forall i ensures FlushOk(r, i) { assert FlushOk(q, i); }
    } else {
      StopIdleKeepsInv(p, l, q);
    }
  }

  lemma CancelKeepsInv(p: Pump, l: Limits)
    requires Inv(p, l) && Enabled(p, OpCancelled)
    ensures Inv(Apply(p, l, OpCancelled), l)
  {
    var q := Apply(p, l, OpCancelled);
    if p.sender.Created? {
      forall i ensures FlushOk(q, i) { assert FlushOk(p, i); }
    } else {
      var r := End(Settle(p));
      SettleAndDiscardKeepInv(p, l, r);
      forall i ensures FlushOk(q, i) { assert FlushOk(r, i); }
    }
  }

  lemma FlushKeepsInv(p: Pump, l: Limits, op: Op)
    requires Inv(p, l) && (op.OpFlush? || op.OpFlushReturns? || op.OpFlushTimesOut?)
    ensures Inv(Apply(p, l, op), l)
  {
    var q := Apply(p, l, op);
    forall i ensures FlushOk(q, i) {
      assert FlushOk(p, i);
      if op.OpFlush? && p.unfinished == 0 && p.accepting {
        assert p.delivered + InFlight(p) + p.queue == p.delivered;
      }
    }
  }

  lemma BirthKeepsInv(p: Pump, l: Limits, op: Op)
    requires Inv(p, l) && Enabled(p, op) && (op.OpStart? || op.OpBegin?)
    ensures Inv(Apply(p, l, op), l)
  {
    var q := Apply(p, l, op);
    assert InFlight(q) == InFlight(p);
    forall i ensures FlushOk(q, i) { assert FlushOk(p, i); }
  }

  lemma SendFailsKeepsInv(p: Pump, l: Limits, kind: Failure)
    requires Inv(p, l) && Enabled(p, OpSendFails(kind))
    ensures Inv(Apply(p, l, OpSendFails(kind)), l)
  {
    FailKeepsInv(p, l, kind, false);
    SettleAndDiscardKeepInv(MarkFailed(p, kind, false), l, Apply(p, l, OpSendFails(kind)));
  }

  lemma StopReturnsKeepsInv(p: Pump, l: Limits)
    requires Inv(p, l) && Enabled(p, OpStopReturns)
    ensures Inv(Apply(p, l, OpStopReturns), l)
  {
    var r, q := Discard(p), Apply(p, l, OpStopReturns);
    SettleAndDiscardKeepInv(p, l, r);
    forall i ensures FlushOk(q, i) { assert FlushOk(r, i); }
  }

  lemma StepKeepsInv(p: Pump, l: Limits, op: Op)
    requires Inv(p, l) && Enabled(p, op)
    ensures Inv(Apply(p, l, op), l)
  {
    match op
    case OpEnqueue(item) => EnqueueKeepsInv(p, l, item);
    case OpTake => TakeKeepsInv(p, l);
    case OpSent => SentKeepsInv(p, l);
    case OpSendFails(kind) => SendFailsKeepsInv(p, l, kind);
    case OpCancelled => CancelKeepsInv(p, l);
    case OpStop => StopKeepsInv(p, l);
    case OpStopReturns => StopReturnsKeepsInv(p, l);
    case OpStart => BirthKeepsInv(p, l, op);
    case OpBegin => BirthKeepsInv(p, l, op);
    case _ => FlushKeepsInv(p, l, op);
  }

  lemma {:induction false} RunKeepsInv(l: Limits, ops: seq<Op>)
    requires LegalRun(l, ops)
    ensures Inv(Run(l, ops), l)
  {
    if ops != [] {
      RunKeepsInv(l, ops[..|ops| - 1]);
      StepKeepsInv(Run(l, ops[..|ops| - 1]), l, ops[|ops| - 1]);
    }
  }

  // ---- what every interleaving guarantees ---------------------------------------------------------------

  /** The books always balance and stay within both limits. */
  lemma BoundsHold(l: Limits, ops: seq<Op>)
    requires LegalRun(l, ops)
    ensures var p := Run(l, ops);
      && p.bytes == Sizes(InFlight(p)) + Sizes(p.queue) <= l.maxBytes
      && (l.maxMessages > 0 ==> |p.queue| <= l.maxMessages)
      && (p.sender.Ended? && p.queue == [] ==> p.bytes == 0 && p.unfinished == 0)
  {
    RunKeepsInv(l, ops);
  }

  /** Deliveries follow acceptance: a prefix, in order, whatever failed or was cancelled. */
  lemma DeliveredIsPrefix(l: Limits, ops: seq<Op>)
    requires LegalRun(l, ops)
    ensures Run(l, ops).delivered <= Run(l, ops).accepted
  {
    RunKeepsInv(l, ops);
    var p := Run(l, ops);
    assert p.delivered <= p.delivered + InFlight(p) + p.queue;
  }

  ghost predicate Frozen(p: Pump, q: Pump)
  {
    !q.accepting && q.accepted == p.accepted && (Failed(p) ==> q.failures == p.failures)
  }

  lemma EndFreezes(p: Pump)
    requires !p.accepting
    ensures Frozen(p, Discard(p)) && Frozen(p, Settle(p)) && Frozen(p, End(Settle(p)))
  {
  }

  lemma ClosedStepFreezes(p: Pump, l: Limits, op: Op)
    requires !p.accepting
    ensures Frozen(p, Apply(p, l, op))
  {
    match op
    case OpSendFails(kind) => EndFreezes(MarkFailed(p, kind, false));
    case OpSent => EndFreezes(p);
    case OpCancelled => EndFreezes(p);
    case OpStop => EndFreezes(Closed(p));
    case OpStopReturns => EndFreezes(p);
    case _ =>
  }

  /** A failure is recorded once, and nothing is accepted after a failure or a stop, in any
      continuation of the run. */
  lemma {:induction false} FailureIsFinal(l: Limits, ops: seq<Op>, all: seq<Op>)
    requires ops <= all && LegalRun(l, ops) && (Failed(Run(l, ops)) || Run(l, ops).stopped)
    ensures Run(l, all).accepted == Run(l, ops).accepted && !Run(l, all).accepting
    ensures Failed(Run(l, ops)) ==> Run(l, all).failures == Run(l, ops).failures && |Run(l, ops).failures| == 1
    decreases |all|
  {
    RunKeepsInv(l, ops);
    if ops != all {
      var init, last := all[..|all| - 1], all[|all| - 1];
      FailureIsFinal(l, ops, init);
      ClosedStepFreezes(Run(l, init), l, last);
    }
  }

  /** A flush that returns normally: it was woken and finds no failure recorded. */
  predicate FlushSucceeds(p: Pump, i: nat)
  {
    i in p.flushes && p.flushes[i].woken && !Failed(p)
  }

  /** Everything accepted before this flush was called has been sent. */
  ghost predicate Covered(p: Pump, i: nat)
    requires i in p.flushes
  {
    var mark := p.flushes[i].mark;
    mark <= |p.accepted| && mark <= |p.delivered| && p.accepted[..mark] == p.delivered[..mark]
  }

  /** A normal flush means that everything accepted before it was sent exactly if `stop` was not
      called, or all of that had been sent when it first was. */
  lemma FlushExactly(l: Limits, ops: seq<Op>, i: nat)
    requires LegalRun(l, ops) && FlushSucceeds(Run(l, ops), i)
    ensures var p := Run(l, ops); Covered(p, i) <==> !p.stopped || p.flushes[i].mark <= p.sentAtStop
  {
    RunKeepsInv(l, ops);
    DeliveredIsPrefix(l, ops);
    assert FlushOk(Run(l, ops), i);
  }

  /** Once `stop` was called, nothing more is delivered in any continuation of the run. */
  lemma {:induction false} StopFreezesDelivery(l: Limits, ops: seq<Op>, all: seq<Op>)
    requires ops <= all && LegalRun(l, all) && Run(l, ops).stopped
    ensures Run(l, all).stopped && Run(l, all).delivered == Run(l, ops).delivered
    decreases |all|
  {
    if ops != all {
      var init, last := all[..|all| - 1], all[|all| - 1];
      StopFreezesDelivery(l, ops, init);
      RunKeepsInv(l, init);
      StoppedStep(Run(l, init), l, last);
    }
  }

  lemma StoppedStep(p: Pump, l: Limits, op: Op)
    requires StopOk(p) && p.stopped && Enabled(p, op)
    ensures Apply(p, l, op).stopped && Apply(p, l, op).delivered == p.delivered
  {
    match op
    case OpCancelled => assert Settle(p).delivered == p.delivered && Settle(p).stopped;
    case _ =>
  }

  ghost predicate Reaches(l: Limits, ops: seq<Op>, p: Pump)
  {
    LegalRun(l, ops) && Run(l, ops) == p
  }

  lemma RunExtends(l: Limits, ops: seq<Op>, p: Pump, op: Op, q: Pump) returns (longer: seq<Op>)
    requires Reaches(l, ops, p) && Enabled(p, op) && Apply(p, l, op) == q
    ensures longer == ops + [op] && Reaches(l, longer, q)
  {
    longer := ops + [op];
    assert longer[..|ops|] == ops;
  }

  lemma TwoQueued(l: Limits, a: Item, b: Item) returns (ops: seq<Op>)
    requires l.maxMessages == 8 && a.size + b.size <= l.maxBytes
    ensures Reaches(l, ops, IDLE.(hasTask := true, sender := Waiting, queue := [a, b], bytes := a.size + b.size, unfinished := 2,
                                  accepted := [a, b]))
  {
    var started := IDLE.(hasTask := true, sender := Created);
    var waiting := started.(sender := Waiting);
    var one := waiting.(queue := [a], bytes := a.size, unfinished := 1, accepted := [a]);
    var two := one.(queue := [a, b], bytes := a.size + b.size, unfinished := 2, accepted := [a, b]);
    ops := RunExtends(l, [], IDLE, OpStart, started);
    ops := RunExtends(l, ops, started, OpBegin, waiting);
    ops := RunExtends(l, ops, waiting, OpEnqueue(a), one);
    ops := RunExtends(l, ops, one, OpEnqueue(b), two);
  }

  /** A sender that is sending `a`, with `b` behind it and a flush waiting for both. */
  function OneSending(a: Item, b: Item): Pump
  {
    IDLE.(hasTask := true, sender := Sending(a), queue := [b], bytes := a.size + b.size, unfinished := 2,
          accepted := [a, b], flushes := map[0 := Flush(2, false)])
  }

  lemma SendingWithFlush(l: Limits, a: Item, b: Item) returns (ops: seq<Op>)
    requires l.maxMessages == 8 && a.size + b.size <= l.maxBytes
    ensures Reaches(l, ops, OneSending(a, b))
  {
    ops := TwoQueued(l, a, b);
    var two := IDLE.(hasTask := true, sender := Waiting, queue := [a, b], bytes := a.size + b.size, unfinished := 2,
                     accepted := [a, b]);
    var sending := two.(sender := Sending(a), queue := [b]);
    ops := RunExtends(l, ops, two, OpTake, sending);
    ops := RunExtends(l, ops, sending, OpFlush(0), OneSending(a, b));
  }

  lemma SendingIsDropped(l: Limits, p: Pump, a: Item, b: Item)
    requires p == OneSending(a, b)
    ensures var q := Apply(p, l, OpStop);
      Enabled(q, OpCancelled) && FlushSucceeds(Apply(q, l, OpCancelled), 0) && !Covered(Apply(q, l, OpCancelled), 0)
  {
    var q := Apply(p, l, OpStop);
    assert Sizes([b]) == b.size + Sizes([]);
    assert Settle(q).unfinished == 1 && End(Settle(q)).unfinished == 0;
  }

  /** It happens with a running sender: an item in flight and one in the queue are dropped by
      `stop`, and the pending flush returns normally. */
  lemma StopBreaksFlush() returns (l: Limits, ops: seq<Op>)
    ensures LegalRun(l, ops) && FlushSucceeds(Run(l, ops), 0) && !Covered(Run(l, ops), 0)
    ensures |ops| >= 2 && Run(l, ops[..|ops| - 2]).sender.Sending?
  {
    l := Limits(8, 100);
    var a, b := Item(1, 10), Item(2, 20);
    var before := SendingWithFlush(l, a, b);
    var p := OneSending(a, b);
    var q := Apply(p, l, OpStop);
    SendingIsDropped(l, p, a, b);
    var during := RunExtends(l, before, p, OpStop, q);
    ops := RunExtends(l, during, q, OpCancelled, Apply(q, l, OpCancelled));
    assert ops[..|ops| - 2] == before;
  }

  lemma DropOldest(p: Pump)
    requires p.queue != [] && p.unfinished == |InFlight(p)| + |p.queue|
    ensures Discard(TaskDone(p.(queue := p.queue[1..], bytes := p.bytes - p.queue[0].size), 1)) == Discard(p)
  {
  }

  // ---- the object --------------------------------------------------------------------------------------

  class Transport {
    const limits: Limits
    var queue: seq<Item>
    var bytes: int
    var unfinished: int
    var accepting: bool
    var failures: seq<Failure>
    var hasTask: bool
    var sender: Sender
    var cancelled: bool
    var stopping: bool
    var flushes: map<nat, Flush>
    ghost var accepted: seq<Item>
    ghost var delivered: seq<Item>
    ghost var stopped: bool
    ghost var sentAtStop: nat

    constructor (limits: Limits)
      ensures this.limits == limits && State() == IDLE && Valid()
    {
      this.limits := limits;
      queue, bytes, unfinished, accepting, failures := [], 0, 0, true, [];
      hasTask, sender, cancelled, stopping, flushes := false, Absent, false, false, map[];
      accepted, delivered, stopped, sentAtStop := [], [], false, 0;
      new;
      RunKeepsInv(limits, []);
    }

    ghost function State(): Pump
      reads this
    {
      Pump(queue, bytes, unfinished, accepting, failures, hasTask, sender, cancelled, stopping, flushes,
           accepted, delivered, stopped, sentAtStop)
    }

    ghost predicate Valid()
      reads this
    {
      Inv(State(), limits)
    }

    method Start()
      requires Valid() && Enabled(State(), OpStart)
      modifies this
      ensures Valid() && State() == Apply(old(State()), limits, OpStart)
    {
      StepKeepsInv(State(), limits, OpStart);
      if !hasTask {
        hasTask, sender, cancelled := true, Created, false;
      }
    }

    method Fail(kind: Failure, cancelSender: bool)
      modifies this
      ensures State() == MarkFailed(old(State()), kind, cancelSender)
    {
      if failures != [] {
        return;
      }
      accepting := false;
      failures := failures + [kind];
      if cancelSender && hasTask && !sender.Ended? {
        cancelled := true;
      }
    }

    method Put(item: Item) returns (r: Enqueued)
      requires Valid()
      modifies this
      ensures Valid() && (State(), r) == Enqueue(old(State()), limits, item)
    {
      EnqueueKeepsInv(State(), limits, item);
      if !accepting || failures != [] {
        return Refused;
      }
      if (limits.maxMessages > 0 && |queue| >= limits.maxMessages) || bytes + item.size > limits.maxBytes {
        Fail(SlowClient, true);
        return Refused;
      }
      bytes := bytes + item.size;
      queue := queue + [item];
      unfinished := unfinished + 1;
      accepted := accepted + [item];
      return Taken;
    }

    method Done()
      modifies `unfinished, `flushes
      ensures State() == TaskDone(old(State()), 1)
    {
      unfinished := unfinished - 1;
      if unfinished == 0 {
        flushes := map i | i in flushes :: flushes[i].(woken := true);
      }
    }

    /** The inner `finally` of the sender. */
    method SettleItem()
      requires sender.Sending?
      modifies `bytes, `sender, `unfinished, `flushes
      ensures State() == Settle(old(State()))
    {
      bytes := bytes - sender.item.size;
      sender := Waiting;
      Done();
    }

    /** The outer `finally` of the sender: whatever is still queued is dropped. */
    method EndSender()
      requires unfinished == |InFlight(State())| + |queue|
      modifies `queue, `bytes, `unfinished, `flushes, `sender
      ensures State() == End(old(State()))
    {
      DiscardQueued();
      sender := Ended;
    }

    /** `_discard_queued`: one item at a time until the queue is empty. */
    method DiscardQueued()
      requires unfinished == |InFlight(State())| + |queue|
      modifies `queue, `bytes, `unfinished, `flushes
      ensures State() == Discard(old(State()))
    {
      while queue != []
        invariant unfinished == |InFlight(State())| + |queue|
        invariant Discard(State()) == Discard(old(State()))
        decreases |queue|
      {
        DropOldest(State());
        queue, bytes := queue[1..], bytes - queue[0].size;
        Done();
      }
    }

    /** The sender's own steps, one method per resumption. */
    method SenderTakes()
      requires Valid() && Enabled(State(), OpTake)
      modifies this
      ensures Valid() && State() == Apply(old(State()), limits, OpTake)
    {
      TakeKeepsInv(State(), limits);
      sender := Sending(queue[0]);
      queue := queue[1..];
    }

    method SendReturns()
      requires Valid() && Enabled(State(), OpSent)
      modifies this
      ensures Valid() && State() == Apply(old(State()), limits, OpSent)
    {
      SentKeepsInv(State(), limits);
      delivered := delivered + [sender.item];
      SettleItem();
    }

    method SendRaises(kind: Failure)
      requires Valid() && Enabled(State(), OpSendFails(kind))
      modifies this
      ensures Valid() && State() == Apply(old(State()), limits, OpSendFails(kind))
    {
      StepKeepsInv(State(), limits, OpSendFails(kind));
      Fail(kind, false);
      SettleItem();
      EndSender();
    }

    method CancellationArrives()
      requires Valid() && Enabled(State(), OpCancelled)
      modifies this
      ensures Valid() && State() == Apply(old(State()), limits, OpCancelled)
    {
      CancelKeepsInv(State(), limits);
      if sender.Created? {
        sender := Ended;
      } else {
        if sender.Sending? {
          SettleItem();
        }
        EndSender();
      }
      cancelled := false;
    }

    method Stop()
      requires Valid()
      modifies this
      ensures Valid() && State() == Apply(old(State()), limits, OpStop)
    {
      StopKeepsInv(State(), limits);
      StopNow();
    }

    method CloseEntrance()
      modifies this
      ensures State() == Closed(old(State()))
    {
      accepting, hasTask := false, false;
      sentAtStop := if stopped then sentAtStop else |delivered|;
      stopped := true;
    }

    /** `stop`, up to its await. */
    method StopNow()
      requires unfinished == |InFlight(State())| + |queue|
      modifies this
      ensures State() == Apply(old(State()), limits, OpStop)
    {
      var task := hasTask;
      CloseEntrance();
      if task {
        if !sender.Ended? {
          cancelled := true;
        }
        stopping := true;
      } else {
        DiscardQueued();
      }
    }

    method StopReturns()
      requires Valid() && Enabled(State(), OpStopReturns)
      modifies this
      ensures Valid() && State() == Apply(old(State()), limits, OpStopReturns)
    {
      StepKeepsInv(State(), limits, OpStopReturns);
      DiscardQueued();
      stopping := false;
    }
  }
}
