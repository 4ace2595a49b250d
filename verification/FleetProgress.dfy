/** Progress of the Fleet orchestrator: what the workers and approvers can still achieve from any
    reachable state. */
module FleetProgress {
  import opened FleetDag
  import opened FleetState
  import opened FleetOps
  import opened FleetRuns
  import opened FleetOrchestrator
  import opened Sequences
  import opened Sets

  // ---- continuations of a run --------------------------------------------------------------------

  function RunOn(s: State, more: seq<Op>): State
    decreases |more|
  {
    if more == [] then s else RunOn(Apply(s, more[0]), more[1..])
  }

  ghost predicate LegalOn(s: State, more: seq<Op>)
    decreases |more|
  {
    more == [] || (Legal(s, more[0]) && LegalOn(Apply(s, more[0]), more[1..]))
  }

  lemma {:induction false} RunOnContinues(ops: seq<Op>, more: seq<Op>)
    requires LegalRun(ops) && LegalOn(Run(ops), more)
    ensures LegalRun(ops + more) && Run(ops + more) == RunOn(Run(ops), more)
    decreases |more|
  {
    if more == [] {
      assert ops + more == ops;
    } else {
      RunExtends(ops, more[0]);
      RunOnContinues(ops + [more[0]], more[1..]);
      FirstMoves(ops, more);
    }
  }

  /** Every reading of the clock is `clock`, every new deadline is `deadline`. */
  datatype Schedule = Schedule(clock: Time, deadline: Time)

  /** What cooperating workers and approvers do. */
  predicate Helps(op: Op, c: Schedule)
  {
    match op
    case OpClaim(_, _, now, _, _, _, expires) => now == c.clock && expires == c.deadline
    case OpHeartbeat(_, _, expires) => expires == c.deadline
    case OpComplete(_, _, _, _, _, _, now, _) => now == c.clock
    case OpApprove(_, approved, _) => approved
    case _ => false
  }

  ghost predicate Finishes(s: State, f: Id, more: seq<Op>)
  {
    LegalOn(s, more) && f in RunOn(s, more).flows && RunOn(s, more).flows[f] == FlowCompleted
  }

  ghost predicate Finishable(s: State, f: Id, c: Schedule)
  {
    exists more :: Finishes(s, f, more) && forall op :: op in more ==> Helps(op, c)
  }

  lemma FinishableBefore(s: State, op: Op, f: Id, c: Schedule)
    requires Legal(s, op) && Helps(op, c) && Finishable(Apply(s, op), f, c)
    ensures Finishable(s, f, c)
  {
    var rest :| Finishes(Apply(s, op), f, rest) && forall o :: o in rest ==> Helps(o, c);
    var more := [op] + rest;
    assert more[0] == op && more[1..] == rest;
    assert Finishes(s, f, more);
  }

  // ---- what a single step achieves -----------------------------------------------------------------

  /** The rows of a workflow that still have to complete. */
  function Open(s: State, f: Id): set<Key>
  {
    set k | k in s.nodes && k.flow == f && s.nodes[k].status != NodeCompleted
  }

  ghost predicate NoneFailed(s: State, f: Id)
  {
    forall k :: k in s.nodes && k.flow == f ==> s.nodes[k].status != NodeFailed
  }

  ghost predicate NoneLeased(s: State, f: Id)
  {
    forall k :: k in s.nodes && k.flow == f ==> s.nodes[k].status != Leased
  }

  /** The worker can run every node of the workflow, and has capacity once `out` is handed back. */
  ghost predicate Capable(s: State, w: Id, f: Id, out: set<Key>)
  {
    && w in s.workers && |LeasesOf(s, w) - out| < s.workers[w].maxConcurrency
    && forall k :: k in s.nodes && k.flow == f ==> s.nodes[k].capabilities <= s.workers[w].capabilities
  }

  ghost predicate OnTrack(s: State, f: Id, w: Id, out: set<Key>)
  {
    OpInv(s) && f in s.flows && NoneFailed(s, f) && Capable(s, w, f, out)
  }

  /** What every step below keeps: rows, capabilities, workers, and leases up to those in `out`. */
  ghost predicate Steady(s: State, s': State, f: Id, w: Id, out: set<Key>)
  {
    && s'.nodes.Keys == s.nodes.Keys && s'.workers == s.workers && s.flows.Keys <= s'.flows.Keys
    && (forall k :: k in s.nodes && k.flow == f ==> s'.nodes[k].capabilities == s.nodes[k].capabilities)
    && LeasesOf(s', w) - out <= LeasesOf(s, w)
  }

  lemma SteadyKeepsCapable(s: State, s': State, f: Id, w: Id, before: set<Key>, after: set<Key>)
    requires Capable(s, w, f, before) && Steady(s, s', f, w, after) && LeasesOf(s', w) !! (before - after)
    ensures Capable(s', w, f, after)
  {
    SubsetSize(LeasesOf(s', w) - after, LeasesOf(s, w) - before);
  }

  /** The rows of the workflow neither complete nor fail. */
  ghost predicate StaysOpen(s: State, s': State, f: Id)
  {
    forall k :: k in s.nodes && k.flow == f ==>
      && k in s'.nodes && s'.nodes[k].status != NodeFailed
      && (s'.nodes[k].status == NodeCompleted <==> s.nodes[k].status == NodeCompleted)
  }

  lemma StaysOnTrack(s: State, s': State, f: Id, w: Id, out: set<Key>)
    requires OnTrack(s, f, w, {}) && OpInv(s') && Steady(s, s', f, w, out) && StaysOpen(s, s', f)
    ensures OnTrack(s', f, w, out) && Open(s', f) == Open(s, f)
  {
    SteadyKeepsCapable(s, s', f, w, {}, out);
  }

  lemma CompletionIsLegal(s: State, k: Key, now: Time) returns (op: Op)
    requires OpInv(s) && k in s.nodes && s.nodes[k].status == Leased
    ensures var n := s.nodes[k];
      && n.lease.Lease? && op.OpComplete?
      && op == OpComplete(n.lease.worker, n.lease.token, n.tokenBudget, n.costBudget, [], Picked(k), now, op.order)
      && Legal(s, op) && n.lease.worker in s.workers
  {
    assert RowOk(s, k);
    var n := s.nodes[k];
    var order := EnumerationExists(ReadyRows(FinishNode(s, n.lease.worker, n.lease.token, k), k.flow));
    op := OpComplete(n.lease.worker, n.lease.token, n.tokenBudget, n.costBudget, [], Picked(k), now, order);
    assert k in HolderRows(s, n.lease.worker, n.lease.token);
  }

  /** Completing `k`, seen row by row. */
  ghost predicate CompletesOnly(s: State, k: Key, s': State)
    requires k in s.nodes
  {
    && s'.nodes.Keys == s.nodes.Keys && s'.workers == s.workers && s.flows.Keys <= s'.flows.Keys
    && s'.nodes[k] == Release(s.nodes[k], NodeCompleted)
    && forall j :: j in s.nodes && j != k ==>
         s'.nodes[j] == s.nodes[j] || (s.nodes[j].status == Blocked && s'.nodes[j] == MakeReady(s.nodes[j]))
  }

  lemma CompletionHasEffect(s: State, k: Key, n: Node, e: Event, order: seq<Key>)
    requires LegalMove(s, k, n, e) && e.Finished? && Enumerates(order, ReadyRows(Put(s, k, n, e), k.flow))
    ensures CompletesOnly(s, k, Advance(Put(s, k, n, e), k.flow, order))
  {
    var m := Put(s, k, n, e);
    ReleaseCompletesOne(s, k, n, e, order);
    ReadyHasEffect(m, order);
  }

  lemma CompletesOnlyOne(s: State, k: Key, s': State, f: Id, w: Id)
    requires k in s.nodes && k.flow == f && s.nodes[k].status == Leased && CompletesOnly(s, k, s')
    requires NoneFailed(s, f) && Capable(s, w, f, {k})
    ensures NoneFailed(s', f) && Open(s', f) == Open(s, f) - {k} && Capable(s', w, f, {})
  {
    CompletesOnlySteady(s, k, s', f, w);
    SteadyKeepsCapable(s, s', f, w, {k}, {});
    CompletesOnlyCloses(s, k, s', f);
  }

  lemma CompletesOnlyCloses(s: State, k: Key, s': State, f: Id)
    requires k in s.nodes && k.flow == f && s.nodes[k].status == Leased && CompletesOnly(s, k, s') && NoneFailed(s, f)
    ensures NoneFailed(s', f) && Open(s', f) == Open(s, f) - {k}
  {
    forall j ensures j in Open(s', f) <==> j in Open(s, f) - {k} {
      if j in s.nodes && j != k { assert s'.nodes[j].status == NodeCompleted <==> s.nodes[j].status == NodeCompleted; }
    }
  }

  lemma CompletesOnlySteady(s: State, k: Key, s': State, f: Id, w: Id)
    requires k in s.nodes && s.nodes[k].status == Leased && CompletesOnly(s, k, s')
    ensures Steady(s, s', f, w, {}) && k !in LeasesOf(s', w)
  {
  }

  lemma CompleteStep(s: State, f: Id, w: Id, k: Key, c: Schedule) returns (op: Op)
    requires OnTrack(s, f, w, {k}) && k in s.nodes && k.flow == f && s.nodes[k].status == Leased
    requires s.nodes[k].lease.Lease? && s.nodes[k].lease.expires >= c.clock
    ensures Legal(s, op) && Helps(op, c)
    ensures OnTrack(Apply(s, op), f, w, {}) && Open(Apply(s, op), f) == Open(s, f) - {k}
  {
    op := CompletionIsLegal(s, k, c.clock);
    StepKeepsOpInv(s, op);
    var n := s.nodes[k];
    CompletionHasEffect(s, k, Release(n, NodeCompleted), Finished(k, n.lease.worker, n.lease.token), op.order);
    CompletesOnlyOne(s, k, Apply(s, op), f, w);
  }

  lemma BeatStep(s: State, f: Id, w: Id, k: Key, c: Schedule) returns (op: Op)
    requires OnTrack(s, f, w, {}) && k in s.nodes && k.flow == f && s.nodes[k].status == Leased
    ensures Legal(s, op) && Helps(op, c)
    ensures var s' := Apply(s, op);
      && OnTrack(s', f, w, {k}) && Open(s', f) == Open(s, f)
      && k in s'.nodes && s'.nodes[k].status == Leased && s'.nodes[k].lease.Lease? && s'.nodes[k].lease.expires == c.deadline
  {
    assert RowOk(s, k);
    var lease := s.nodes[k].lease;
    op := OpHeartbeat(lease.worker, lease.token, c.deadline);
    BeatEffect(s, lease.worker, lease.token, c.deadline, k, f, w);
    StepKeepsOpInv(s, op);
    StaysOnTrack(s, Apply(s, op), f, w, {k});
  }

  lemma BeatEffect(s: State, id: Id, token: Id, expires: Time, k: Key, f: Id, w: Id)
    requires k in s.nodes && HeldBy(s.nodes[k], id, token) && NoneFailed(s, f)
    ensures var s' := Heartbeat(s, id, token, expires).0;
      && Steady(s, s', f, w, {k}) && StaysOpen(s, s', f)
      && s'.nodes[k] == s.nodes[k].(lease := Lease(id, token, expires))
  {
    assert k in HolderRows(s, id, token);
  }

  lemma ApproveStep(s: State, f: Id, w: Id, k: Key, c: Schedule) returns (op: Op)
    requires OnTrack(s, f, w, {}) && k in s.nodes && k.flow == f && s.nodes[k].status == AwaitingApproval && NoneLeased(s, f)
    ensures Legal(s, op) && Helps(op, c)
    ensures var s' := Apply(s, op);
      && OnTrack(s', f, w, {}) && Open(s', f) == Open(s, f) && NoneLeased(s', f)
      && k in s'.nodes && s'.nodes[k].status == Queued
  {
    op := OpApprove(k, true, "");
    ApproveEffect(s, k, f, w);
    StepKeepsOpInv(s, op);
    StaysOnTrack(s, Apply(s, op), f, w, {});
  }

  lemma ApproveEffect(s: State, k: Key, f: Id, w: Id)
    requires k in s.nodes && s.nodes[k].status == AwaitingApproval && NoneFailed(s, f)
    ensures var s' := Approve(s, k, true, "").0;
      && Steady(s, s', f, w, {}) && StaysOpen(s, s', f) && (NoneLeased(s, f) ==> NoneLeased(s', f))
      && s'.nodes[k].status == Queued
  {
  }

  // ---- claiming --------------------------------------------------------------------------------------

  lemma {:induction false} FirstExists(s: State, rows: set<Key>) returns (best: Key)
    requires rows != {} && rows <= s.nodes.Keys
    ensures best in rows && forall j :: j in rows ==> !Before(s, j, best)
  {
    var k :| k in rows;
    Orchestrator.Irreflexive(k.node);
    if rows == {k} {
      best := k;
    } else {
      best := FirstExists(s, rows - {k});
      if Before(s, k, best) {
        forall j | j in rows ensures !Before(s, j, k) {
          if Before(s, j, k) { BeforeTransitive(s, j, k, best); }
        }
        best := k;
      }
    }
  }

  /** Longer than every token granted so far. */
  lemma {:induction false} FreshToken(events: seq<Event>) returns (t: Id)
    ensures forall n: Id :: |n| >= |t| ==> Count(events, TokenGranted(n)) == 0
  {
    if events == [] {
      t := "";
    } else {
      var last := events[|events| - 1];
      t := FreshToken(events[..|events| - 1]);
      if last.Granted? && |last.token| >= |t| {
        t := last.token + "x";
      }
    }
  }

  /** Sweeping does nothing to a workflow without leases, and hands leases back elsewhere. */
  lemma SweepSpares(s: State, order: seq<Key>, now: Time, f: Id, w: Id)
    requires OnTrack(s, f, w, {}) && NoneLeased(s, f) && Enumerates(order, ExpiredRows(s, now))
    ensures var m := Sweep(s, order);
      && OnTrack(m, f, w, {}) && NoneLeased(m, f) && Open(m, f) == Open(s, f) && m.workers == s.workers
      && forall k :: k in s.nodes && k.flow == f ==> k in m.nodes && m.nodes[k] == s.nodes[k]
  {
    EnumerationIsLeased(s, order, now);
    SweepHasEffect(s, order);
    SweepEffectSpares(s, order, Sweep(s, order), f, w);
    SweepKeepsOpInv(s, order, now);
    StaysOnTrack(s, Sweep(s, order), f, w, {});
  }

  lemma SweepEffectSpares(s: State, order: seq<Key>, m: State, f: Id, w: Id)
    requires SweepEffect(s, order, m) && AllLeased(s, order) && NoneLeased(s, f) && NoneFailed(s, f)
    ensures Steady(s, m, f, w, {}) && StaysOpen(s, m, f)
    ensures forall k :: k in s.nodes && k.flow == f ==> k in m.nodes && m.nodes[k] == s.nodes[k]
  {
  }

  lemma AssignStep(m: State, f: Id, w: Id, pick: Pick, token: Id, c: Schedule)
    requires OnTrack(m, f, w, {}) && Count(m.events, TokenGranted(token)) == 0
    requires f != "" && pick.Picked? && IsPick(m, m.workers[w], f, pick)
    ensures var s' := Assign(m, w, pick, token, c.deadline).0;
      && OnTrack(s', f, w, {pick.k}) && Open(s', f) == Open(m, f)
      && pick.k.flow == f && pick.k in s'.nodes && s'.nodes[pick.k].status == Leased
      && s'.nodes[pick.k].lease == Lease(w, token, c.deadline)
  {
    var s' := Assign(m, w, pick, token, c.deadline).0;
    assert LeasesOf(m, w) - {} == LeasesOf(m, w);
    AssignEffect(m, pick.k, f, w, token, c.deadline);
    AssignKeepsOpInv(m, w, f, pick, token, c.deadline);
    StaysOnTrack(m, s', f, w, {pick.k});
  }

  lemma AssignEffect(m: State, k: Key, f: Id, w: Id, token: Id, expires: Time)
    requires k in m.nodes && m.nodes[k].status == Queued && NoneFailed(m, f)
    ensures var s' := Put(m, k, LeaseTo(m.nodes[k], w, token, expires), Granted(k, w, token));
      Steady(m, s', f, w, {k}) && StaysOpen(m, s', f)
  {
  }

  /** A workflow id is never empty, so the claim can name it. */
  lemma ClaimStep(s: State, f: Id, w: Id, j: Key, c: Schedule) returns (op: Op, k: Key)
    requires OnTrack(s, f, w, {}) && NoneLeased(s, f) && f != ""
    requires j in s.nodes && j.flow == f && s.nodes[j].status == Queued
    ensures Legal(s, op) && Helps(op, c)
    ensures var s' := Apply(s, op);
      && OnTrack(s', f, w, {k}) && Open(s', f) == Open(s, f)
      && k.flow == f && k in s'.nodes && s'.nodes[k].status == Leased
      && s'.nodes[k].lease.Lease? && s'.nodes[k].lease.expires == c.deadline
  {
    var order := EnumerationExists(ExpiredRows(s, c.clock));
    SweepSpares(s, order, c.clock, f, w);
    var m := Sweep(s, order);
    assert j in Candidates(m, m.workers[w], f);
    k := FirstExists(m, Candidates(m, m.workers[w], f));
    var token := FreshToken(m.events);
    op := OpClaim(w, f, c.clock, order, Picked(k), token, c.deadline);
    AssignStep(m, f, w, Picked(k), token, c);
  }

  // ---- every workflow without a failed node can be finished ----------------------------------------------

  lemma IdleIsComplete(s: State, f: Id)
    requires OpInv(s) && f in s.flows && NoneFailed(s, f) && NothingToDo(s, f)
    ensures s.flows[f] == FlowCompleted
  {
    var rank :| IsKeyRank(s, rank);
    forall k | k in s.nodes && k.flow == f ensures s.nodes[k].status == NodeCompleted {
      if s.nodes[k].status != NodeCompleted {
        BlockedByFailure(s, f, rank, k);
        var chain :| |chain| >= 2 && IsAncestry(s, chain) && chain[0] == k && s.nodes[chain[|chain| - 1]].status == NodeFailed;
        AncestrySameFlow(s, chain);
      }
    }
    assert FlowOk(s, f);
  }

  lemma {:induction false} CompleteRound(s: State, f: Id, w: Id, k: Key, c: Schedule)
    requires OnTrack(s, f, w, {k}) && k in s.nodes && k.flow == f && s.nodes[k].status == Leased && f != ""
    requires s.nodes[k].lease.Lease? && s.nodes[k].lease.expires >= c.clock && c.clock <= c.deadline
    ensures Finishable(s, f, c)
    decreases Open(s, f), 0
  {
    var op := CompleteStep(s, f, w, k, c);
    assert k in Open(s, f);
    WorkflowFinishes(Apply(s, op), f, w, c);
    FinishableBefore(s, op, f, c);
  }

  lemma {:induction false} ClaimRound(s: State, f: Id, w: Id, j: Key, c: Schedule)
    requires OnTrack(s, f, w, {}) && NoneLeased(s, f) && f != "" && c.clock <= c.deadline
    requires j in s.nodes && j.flow == f && s.nodes[j].status == Queued
    ensures Finishable(s, f, c)
    decreases Open(s, f), 1
  {
    var op, k := ClaimStep(s, f, w, j, c);
    CompleteRound(Apply(s, op), f, w, k, c);
    FinishableBefore(s, op, f, c);
  }

  lemma {:induction false} WorkflowFinishes(s: State, f: Id, w: Id, c: Schedule)
    requires OnTrack(s, f, w, {}) && f != "" && c.clock <= c.deadline
    ensures Finishable(s, f, c)
    decreases Open(s, f), 2
  {
    if NothingToDo(s, f) {
      IdleIsComplete(s, f);
      assert Finishes(s, f, []);
    } else if k :| k in s.nodes && k.flow == f && s.nodes[k].status == Leased {
      var op := BeatStep(s, f, w, k, c);
      CompleteRound(Apply(s, op), f, w, k, c);
      FinishableBefore(s, op, f, c);
    } else if k :| k in s.nodes && k.flow == f && s.nodes[k].status == Queued {
      ClaimRound(s, f, w, k, c);
    } else {
      var k :| k in s.nodes && k.flow == f && s.nodes[k].status == AwaitingApproval;
      var op := ApproveStep(s, f, w, k, c);
      ClaimRound(Apply(s, op), f, w, k, c);
      FinishableBefore(s, op, f, c);
    }
  }

  /** Progress: while no node of a workflow has failed, one free worker that can run its nodes is
      enough to finish it, together with the holders of its leases and the approvers, at any time of
      the clock and however overdue the leases are. */
  lemma WorkflowCanFinish(ops: seq<Op>, f: Id, w: Id, c: Schedule) returns (more: seq<Op>)
    requires LegalRun(ops) && f in Run(ops).flows && f != "" && c.clock <= c.deadline
    requires NoneFailed(Run(ops), f) && Capable(Run(ops), w, f, {})
    ensures Completes(ops + more, f) && forall op :: op in more ==> Helps(op, c)
  {
    ReachableOpInv(ops);
    WorkflowFinishes(Run(ops), f, w, c);
    more :| Finishes(Run(ops), f, more) && forall op :: op in more ==> Helps(op, c);
    RunOnContinues(ops, more);
  }

  // ---- exactly which workflows can complete ---------------------------------------------------------------

  ghost predicate Completes(ops: seq<Op>, f: Id)
  {
    LegalRun(ops) && f in Run(ops).flows && Run(ops).flows[f] == FlowCompleted
  }

  ghost predicate CanComplete(ops: seq<Op>, f: Id)
  {
    exists more :: Completes(ops + more, f)
  }

  ghost function AllCapabilities(s: State, rows: set<Key>): (r: set<string>)
    requires rows <= s.nodes.Keys
    ensures forall k :: k in rows ==> s.nodes[k].capabilities <= r
  {
    if rows == {} then {}
    else
      var k :| k in rows;
      s.nodes[k].capabilities + AllCapabilities(s, rows - {k})
  }

  /** Registering a worker again, with more capabilities and room, makes it capable. */
  lemma RegisterStep(ops: seq<Op>, f: Id) returns (op: Op)
    requires LegalRun(ops) && f in Run(ops).flows && NoneFailed(Run(ops), f)
    ensures LegalRun(ops + [op]) && f in Run(ops + [op]).flows
    ensures NoneFailed(Run(ops + [op]), f) && Capable(Run(ops + [op]), "", f, {})
  {
    var s := Run(ops);
    var worker := Worker(AllCapabilities(s, RowsOf(s, f)), |LeasesOf(s, "")| + 1);
    op := OpRegister("", worker);
    RunExtends(ops, op);
    var s' := Run(ops + [op]);
    assert LeasesOf(s', "") - {} == LeasesOf(s, "");
    forall k | k in s'.nodes && k.flow == f ensures s'.nodes[k].capabilities <= worker.capabilities {
      assert k in RowsOf(s, f);
    }
  }

  /** From any reachable state a workflow can still complete exactly if none of its nodes failed. */
  lemma CanCompleteExactly(ops: seq<Op>, f: Id)
    requires LegalRun(ops) && f in Run(ops).flows && f != ""
    ensures CanComplete(ops, f) <==> NoneFailed(Run(ops), f)
  {
    if NoneFailed(Run(ops), f) {
      var op := RegisterStep(ops, f);
      var more := WorkflowCanFinish(ops + [op], f, "", Schedule(0.0, 0.0));
      CompletesVia(ops, [op], more, f);
    } else if more :| Completes(ops + more, f) {
      FailureIsForever(ops, more, f);
    }
  }

  lemma CompletesVia(ops: seq<Op>, first: seq<Op>, more: seq<Op>, f: Id)
    requires Completes(ops + first + more, f)
    ensures CanComplete(ops, f)
  {
    assert ops + first + more == ops + (first + more);
  }

  lemma FailureIsForever(ops: seq<Op>, more: seq<Op>, f: Id)
    requires LegalRun(ops) && Completes(ops + more, f)
    ensures NoneFailed(Run(ops), f)
  {
    FlowStatusExact(ops + more, f);
    forall k | k in Run(ops).nodes && k.flow == f ensures Run(ops).nodes[k].status != NodeFailed {
      if Run(ops).nodes[k].status == NodeFailed {
        TerminalIsAbsorbing(ops, more, k);
      }
    }
  }
}
