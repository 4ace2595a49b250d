/** What the outbound pump answers, and what it still achieves from any reachable state. */
module OutboundProgress {
  import opened OutboundPump

  // ---- single steps ---------------------------------------------------------------------------------

  /** An item is taken exactly if the pump is open and both limits have room for it; then it goes to the
      end of the queue. An open pump without room fails as a slow client and cancels its sender. */
  lemma EnqueueExactly(p: Pump, l: Limits, item: Item)
    ensures var (q, answer) := Enqueue(p, l, item);
      var open := p.accepting && p.failures == [];
      var fits := (l.maxMessages <= 0 || |p.queue| < l.maxMessages) && p.bytes + item.size <= l.maxBytes;
      && (answer == Taken <==> open && fits)
      && q == if !open then p
              else if fits then
                p.(queue := p.queue + [item], bytes := p.bytes + item.size, unfinished := p.unfinished + 1,
                   accepted := p.accepted + [item])
              else
                p.(failures := [SlowClient], accepting := false,
                   cancelled := p.cancelled || (p.hasTask && p.sender != Ended))
  {
  }

  /** A flush remembers all that had been accepted, and waits unless nothing is unfinished. */
  lemma FlushBegins(p: Pump, l: Limits, i: nat)
    requires Enabled(p, OpFlush(i)) && p.failures == []
    ensures Apply(p, l, OpFlush(i)) == p.(flushes := p.flushes[i := Flush(|p.accepted|, p.unfinished == 0)])
  {
  }

  /** A pump that has failed refuses to flush. */
  lemma FlushIsRefused(p: Pump, l: Limits, i: nat)
    requires p.failures != []
    ensures Apply(p, l, OpFlush(i)) == p
  {
  }

  /** A new sender takes its first step: no cancellation of an earlier one is still pending. */
  lemma StartBegins(p: Pump, l: Limits)
    requires Enabled(p, OpStart) && !p.hasTask
    ensures var q := Apply(p, l, OpStart);
      q == p.(hasTask := true, sender := Created, cancelled := false) && Enabled(q, OpBegin)
  {
  }

  ghost predicate Emptied(q: Pump)
  {
    q.queue == [] && q.bytes == 0 && q.unfinished == 0 && forall i :: i in q.flushes ==> q.flushes[i].woken
  }

  lemma InvEmptied(q: Pump, l: Limits)
    requires Inv(q, l) && q.queue == [] && !q.sender.Sending?
    ensures Emptied(q)
  {
    assert Sizes([]) == 0;
    forall i | i in q.flushes ensures q.flushes[i].woken { assert FlushOk(q, i); }
  }

  /** A send that fails is recorded if it is the first failure; the pump closes, its queue is dropped and
      everyone inside `flush` wakes. */
  lemma SendFailureCloses(p: Pump, l: Limits, kind: Failure)
    requires Inv(p, l) && Enabled(p, OpSendFails(kind))
    ensures var q := Apply(p, l, OpSendFails(kind));
      && q.failures == (if p.failures == [] then [kind] else p.failures) && !q.accepting && q.sender == Ended
      && q.delivered == p.delivered && Emptied(q)
  {
    SendFailsKeepsInv(p, l, kind);
    var q := Apply(p, l, OpSendFails(kind));
    assert q.queue == [];
    InvEmptied(q, l);
  }

  /** `stop` closes the pump; a sender under way gets a cancellation, and without a task the queue is
      dropped at once. */
  lemma StopCloses(p: Pump, l: Limits)
    ensures var q := Apply(p, l, OpStop);
      && !q.accepting && q.stopped && !q.hasTask && q.delivered == p.delivered && q.failures == p.failures
      && if p.hasTask then q.queue == p.queue && q.stopping && (q.cancelled <==> p.cancelled || p.sender != Ended)
         else q.queue == []
  {
  }

  // ---- continuations of a run --------------------------------------------------------------------------

  /** The run goes on from `ops` to `longer` with steps of the sender alone, ending in `q`. */
  ghost predicate SenderReaches(l: Limits, ops: seq<Op>, longer: seq<Op>, q: Pump)
  {
    ops <= longer && Reaches(l, longer, q) && forall k :: |ops| <= k < |longer| ==> longer[k] in {OpBegin, OpTake, OpSent}
  }

  lemma SenderStep(l: Limits, ops: seq<Op>, p: Pump, op: Op) returns (longer: seq<Op>)
    requires Reaches(l, ops, p) && Inv(p, l) && Enabled(p, op) && op in {OpBegin, OpTake, OpSent}
    ensures SenderReaches(l, ops, longer, Apply(p, l, op)) && Inv(Apply(p, l, op), l) && |longer| == |ops| + 1
  {
    longer := RunExtends(l, ops, p, op, Apply(p, l, op));
    StepKeepsInv(p, l, op);
  }

  /** Steps the sender has still to make until its queue is empty. */
  function Work(p: Pump): nat
  {
    2 * |p.queue| + (if p.sender.Sending? then 1 else if p.sender.Created? then 1 else 0)
  }

  function NextOf(p: Pump): Op
  {
    if p.sender.Created? then OpBegin else if p.sender.Sending? then OpSent else OpTake
  }

  lemma SenderProceeds(p: Pump, l: Limits)
    requires Inv(p, l) && p.accepting && p.hasTask && Work(p) > 0
    ensures Enabled(p, NextOf(p))
    ensures var q := Apply(p, l, NextOf(p)); q.accepting && q.hasTask && q.accepted == p.accepted && Work(q) == Work(p) - 1
  {
  }

  lemma {:induction false} SenderDrains(l: Limits, ops: seq<Op>, p: Pump) returns (longer: seq<Op>, q: Pump)
    requires Reaches(l, ops, p) && Inv(p, l) && p.accepting && p.hasTask
    ensures SenderReaches(l, ops, longer, q) && Inv(q, l) && q.accepting && q.accepted == p.accepted
    ensures q.queue == [] && q.sender == Waiting && |longer| == |ops| + Work(p)
    decreases Work(p)
  {
    longer, q := ops, p;
    if Work(p) > 0 {
      SenderProceeds(p, l);
      var next := SenderStep(l, ops, p, NextOf(p));
      longer, q := SenderDrains(l, next, Apply(p, l, NextOf(p)));
    }
  }

  /** From every reachable state in which the pump is open and has its task, the sender alone can deliver
      everything accepted so far, in order; then the books are empty and every flush has been woken. */
  lemma EverythingCanBeSent(l: Limits, ops: seq<Op>) returns (longer: seq<Op>)
    requires LegalRun(l, ops) && Run(l, ops).accepting && Run(l, ops).hasTask
    ensures ops <= longer && LegalRun(l, longer)
    ensures forall k :: |ops| <= k < |longer| ==> longer[k] in {OpBegin, OpTake, OpSent}
    ensures var p, q := Run(l, ops), Run(l, longer); q.delivered == p.accepted == q.accepted && Emptied(q)
  {
    RunKeepsInv(l, ops);
    var q;
    longer, q := SenderDrains(l, ops, Run(l, ops));
    InvEmptied(q, l);
    assert q.delivered + InFlight(q) + q.queue == q.delivered;
  }

  /** A pending `stop` ends in at most two steps, the cancellation and its return, with nothing left in
      the books and every flush woken. */
  lemma StopCanReturn(l: Limits, ops: seq<Op>) returns (longer: seq<Op>)
    requires LegalRun(l, ops) && Run(l, ops).stopping
    ensures ops <= longer && LegalRun(l, longer) && |longer| <= |ops| + 2
    ensures forall k :: |ops| <= k < |longer| ==> longer[k] in {OpCancelled, OpStopReturns}
    ensures var q := Run(l, longer); !q.stopping && q.sender == Ended && q.delivered == Run(l, ops).delivered && Emptied(q)
  {
    RunKeepsInv(l, ops);
    longer := ops;
    var p := Run(l, ops);
    if !p.sender.Ended? {
      longer := RunExtends(l, longer, p, OpCancelled, Apply(p, l, OpCancelled));
      CancelKeepsInv(p, l);
      CancellationEnds(p, l);
      p := Apply(p, l, OpCancelled);
    }
    longer := RunExtends(l, longer, p, OpStopReturns, Apply(p, l, OpStopReturns));
    StopReturnsKeepsInv(p, l);
    InvEmptied(Apply(p, l, OpStopReturns), l);
  }

  /** As long as something is unfinished, the open pump's sender may run into either failure; nothing more is
      delivered then, the pump closes and everyone inside `flush` wakes. */
  lemma SendMayFail(l: Limits, ops: seq<Op>, kind: Failure) returns (longer: seq<Op>)
    requires LegalRun(l, ops) && kind in {SendTimeout, Disconnect}
    requires var p := Run(l, ops); p.accepting && p.hasTask && p.unfinished > 0
    ensures ops <= longer && LegalRun(l, longer) && |longer| <= |ops| + 3
    ensures var p, q := Run(l, ops), Run(l, longer);
      q.failures == [kind] && !q.accepting && q.accepted == p.accepted && q.delivered == p.delivered && Emptied(q)
  {
    RunKeepsInv(l, ops);
    longer := ops;
    var p := Run(l, ops);
    if p.sender.Created? {
      longer := SenderStep(l, longer, p, OpBegin);
      p := Apply(p, l, OpBegin);
    }
    if p.sender.Waiting? {
      longer := SenderStep(l, longer, p, OpTake);
      p := Apply(p, l, OpTake);
    }
    longer := RunExtends(l, longer, p, OpSendFails(kind), Apply(p, l, OpSendFails(kind)));
    SendFailureCloses(p, l, kind);
  }

  lemma OneMore(l: Limits, ops: seq<Op>, op: Op)
    requires LegalRun(l, ops)
    ensures LegalRun(l, ops + [op]) <==> Enabled(Run(l, ops), op)
    ensures Run(l, ops + [op]) == Apply(Run(l, ops), l, op)
  {
    assert (ops + [op])[..|ops|] == ops;
  }

  lemma FlushForgotten(p: Pump, l: Limits, i: nat)
    requires i in p.flushes
    ensures Enabled(p, OpFlushTimesOut(i)) && (Enabled(p, OpFlushReturns(i)) <==> p.flushes[i].woken)
    ensures Apply(p, l, OpFlushTimesOut(i)) == Apply(p, l, OpFlushReturns(i)) == p.(flushes := p.flushes - {i})
  {
  }

  /** A pending flush may run out of time at any moment, and may return normally exactly once it has been
      woken; either way only the flush itself is forgotten. */
  lemma FlushEnds(l: Limits, ops: seq<Op>, i: nat, op: Op)
    requires LegalRun(l, ops) && i in Run(l, ops).flushes && op in {OpFlushTimesOut(i), OpFlushReturns(i)}
    ensures LegalRun(l, ops + [op]) <==> (op == OpFlushReturns(i) ==> Run(l, ops).flushes[i].woken)
    ensures Run(l, ops + [op]) == Run(l, ops).(flushes := Run(l, ops).flushes - {i})
  {
    var p := Run(l, ops);
    OneMore(l, ops, op);
    FlushForgotten(p, l, i);
  }

  lemma CancellationEnds(p: Pump, l: Limits)
    requires Enabled(p, OpCancelled)
    ensures var q := Apply(p, l, OpCancelled); q.sender == Ended && q.stopping == p.stopping && q.delivered == p.delivered
  {
  }

  /** A sender cancelled before its first step leaves queue and books alone; one cancelled later drops the
      item in flight together with the queue. */
  lemma CancellationExactly(p: Pump, l: Limits)
    requires Inv(p, l) && Enabled(p, OpCancelled)
    ensures var q := Apply(p, l, OpCancelled);
      if p.sender.Created? then q == p.(sender := Ended, cancelled := false)
      else q.delivered == p.delivered && !q.cancelled && Emptied(q)
  {
    CancelKeepsInv(p, l);
    CancellationEnds(p, l);
    if !p.sender.Created? { InvEmptied(Apply(p, l, OpCancelled), l); }
  }
}
