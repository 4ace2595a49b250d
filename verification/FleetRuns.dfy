/** Runs of the Fleet orchestrator: any sequence of calls, in any interleaving of workers,
    with fresh identifiers and arbitrary clock readings. */
module FleetRuns {
  import opened FleetDag
  import opened FleetState
  import opened FleetOps
  import opened Sets

  datatype Op =
    | OpSubmit(flow: Id, specs: seq<NodeSpec>, at: Time)
    | OpRegister(id: Id, worker: Worker)
    | OpClaim(id: Id, flow: Id, now: Time, order: seq<Key>, pick: Pick, token: Id, expires: Time)
    | OpHeartbeat(id: Id, token: Id, expires: Time)
    | OpComplete(id: Id, token: Id, tokensUsed: int, cost: real, names: seq<string>, row: Pick, now: Time, order: seq<Key>)
    | OpFail(id: Id, token: Id, retryable: bool, row: Pick, now: Time)
    | OpApprove(key: Key, approved: bool, actor: string)
    | OpSweep(now: Time, order: seq<Key>)

  function Apply(s: State, op: Op): State
  {
    match op
    case OpSubmit(flow, specs, at) => Submit(s, flow, specs, at)
    case OpRegister(id, worker) => Register(s, id, worker)
    case OpClaim(id, _, _, order, pick, token, expires) => Claim(s, id, order, pick, token, expires).0
    case OpHeartbeat(id, token, expires) => Heartbeat(s, id, token, expires).0
    case OpComplete(id, token, used, cost, names, row, now, order) =>
      Complete(s, id, token, used, cost, names, row, now, order).0
    case OpFail(id, token, retryable, row, now) => Fail(s, id, token, retryable, row, now).0
    case OpApprove(key, approved, actor) => Approve(s, key, approved, actor).0
    case OpSweep(_, order) => Sweep(s, order)
  }

  /** Identifiers are fresh, specifications are validated, and query results are the true ones. */
  ghost predicate Legal(s: State, op: Op)
  {
    match op
    case OpSubmit(flow, specs, _) => flow !in s.flows && ValidSpec(specs)
    case OpRegister(_, _) => true
    case OpClaim(id, flow, now, order, pick, token, _) =>
      && Enumerates(order, ExpiredRows(s, now))
      && Count(Sweep(s, order).events, TokenGranted(token)) == 0
      && (id in s.workers ==> IsPick(Sweep(s, order), s.workers[id], flow, pick))
    case OpHeartbeat(_, _, _) => true
    case OpComplete(id, token, _, _, _, row, _, order) =>
      && IsRow(s, id, token, row)
      && (row.Picked? ==> Enumerates(order, ReadyRows(FinishNode(s, id, token, row.k), row.k.flow)))
    case OpFail(id, token, _, row, _) => IsRow(s, id, token, row)
    case OpApprove(_, _, _) => true
    case OpSweep(now, order) => Enumerates(order, ExpiredRows(s, now))
  }

  function Run(ops: seq<Op>): State
  {
    if ops == [] then EMPTY else Apply(Run(ops[..|ops| - 1]), ops[|ops| - 1])
  }

  ghost predicate LegalRun(ops: seq<Op>)
  {
    ops == [] || (LegalRun(ops[..|ops| - 1]) && Legal(Run(ops[..|ops| - 1]), ops[|ops| - 1]))
  }

  lemma StepKeepsOpInv(s: State, op: Op)
    requires OpInv(s) && Legal(s, op)
    ensures OpInv(Apply(s, op))
  {
    match op
    case OpSubmit(flow, specs, at) => SubmitKeepsOpInv(s, flow, specs, at);
    case OpRegister(id, worker) => RegisterKeepsOpInv(s, id, worker);
    case OpClaim(id, flow, now, order, pick, token, expires) =>
      SweepKeepsOpInv(s, order, now);
      EnumerationIsLeased(s, order, now);
      SweepHasEffect(s, order);
      AssignKeepsOpInv(Sweep(s, order), id, flow, pick, token, expires);
    case OpHeartbeat(id, token, expires) => HeartbeatKeepsOpInv(s, id, token, expires);
    case OpComplete(id, token, used, cost, names, row, now, order) =>
      CompleteKeepsOpInv(s, id, token, used, cost, names, row, now, order);
    case OpFail(id, token, retryable, row, now) => FailKeepsOpInv(s, id, token, retryable, row, now);
    case OpApprove(key, approved, actor) => ApproveKeepsOpInv(s, key, approved, actor);
    case OpSweep(now, order) => SweepKeepsOpInv(s, order, now);
  }

  lemma EmptyOpInv()
    ensures OpInv(EMPTY)
  {
    assert IsKeyRank(EMPTY, map[]);
  }

  lemma {:induction false} ReachableOpInv(ops: seq<Op>)
    requires LegalRun(ops)
    ensures OpInv(Run(ops))
  {
    if ops == [] {
      EmptyOpInv();
    } else {
      ReachableOpInv(ops[..|ops| - 1]);
      StepKeepsOpInv(Run(ops[..|ops| - 1]), ops[|ops| - 1]);
    }
  }

  // ---- safety ---------------------------------------------------------------------------

  /** No node leaves `blocked` early, approval gates hold, attempts are bounded, leases are sound. */
  lemma SchedulerSafety(ops: seq<Op>, k: Key)
    requires LegalRun(ops) && k in Run(ops).nodes
    ensures var s := Run(ops); var n := s.nodes[k];
      && (n.status != Blocked ==>
            forall d :: d in n.deps ==> Key(k.flow, d) in s.nodes && s.nodes[Key(k.flow, d)].status == NodeCompleted)
      && (n.approvalRequired && n.status in {Queued, Leased, NodeCompleted} ==>
            exists actor :: Approval(k, true, actor) in s.events)
      && n.attempts <= n.maxAttempts
      && Count(s.events, GrantsOf(k)) == n.attempts
      && (n.status == Leased <==> n.lease.Lease?)
      && (n.status == Leased ==> n.lease.worker in s.workers)
  {
    ReachableOpInv(ops);
    var s := Run(ops);
    assert RowOk(s, k) && OrderOk(s, k) && WorkOk(s, k);
  }

  /** Workflow status is exact: completed iff every node is; failed iff a failure was recorded. */
  lemma FlowStatusExact(ops: seq<Op>, f: Id)
    requires LegalRun(ops) && f in Run(ops).flows
    ensures var s := Run(ops);
      && (s.flows[f] == FlowCompleted <==>
            forall k :: k in s.nodes && k.flow == f ==> s.nodes[k].status == NodeCompleted)
      && (s.flows[f] == FlowFailed <==> exists e :: e in s.events && IsFailure(e) && e.key.flow == f)
      && (s.flows[f] == FlowFailed ==> exists k :: k in s.nodes && k.flow == f && s.nodes[k].status == NodeFailed)
  {
    ReachableOpInv(ops);
    var s := Run(ops);
    assert FlowOk(s, f);
    if e :| e in s.events && IsFailure(e) && e.key.flow == f {
      assert FailureOk(s, e);
    }
  }

  lemma CompleteKeepsTerminal(s: State, op: Op, k: Key)
    requires op.OpComplete? && Legal(s, op)
    requires k in s.nodes && s.nodes[k].status in {NodeCompleted, NodeFailed}
    ensures k in Apply(s, op).nodes && Apply(s, op).nodes[k] == s.nodes[k]
  {
    if Live(s, op.row, op.now) {
      AdvanceKeepsTerminal(FinishNode(s, op.id, op.token, op.row.k), op.row.k.flow, op.order, k);
    }
  }

  lemma AdvanceKeepsTerminal(m: State, flow: Id, order: seq<Key>, k: Key)
    requires Enumerates(order, ReadyRows(m, flow))
    requires k in m.nodes && m.nodes[k].status in {NodeCompleted, NodeFailed}
    ensures k in Advance(m, flow, order).nodes && Advance(m, flow, order).nodes[k] == m.nodes[k]
  {
    ReadyHasEffect(m, order);
  }

  lemma SweepKeepsTerminal(s: State, order: seq<Key>, now: Time, k: Key)
    requires Enumerates(order, ExpiredRows(s, now))
    requires k in s.nodes && s.nodes[k].status in {NodeCompleted, NodeFailed}
    ensures k in Sweep(s, order).nodes && Sweep(s, order).nodes[k] == s.nodes[k]
  {
    EnumerationIsLeased(s, order, now);
    SweepHasEffect(s, order);
  }

  lemma ClaimKeepsTerminal(s: State, op: Op, k: Key)
    requires op.OpClaim? && Legal(s, op)
    requires k in s.nodes && s.nodes[k].status in {NodeCompleted, NodeFailed}
    ensures k in Apply(s, op).nodes && Apply(s, op).nodes[k] == s.nodes[k]
  {
    SweepKeepsTerminal(s, op.order, op.now, k);
    EnumerationIsLeased(s, op.order, op.now);
    SweepHasEffect(s, op.order);
    var m := Sweep(s, op.order);
    if op.id in m.workers && op.pick.Picked? {
      assert op.pick.k in Candidates(m, m.workers[op.id], op.flow);
    }
  }

  lemma StepKeepsTerminal(s: State, op: Op, k: Key)
    requires Inv(s) && Legal(s, op) && k in s.nodes && s.nodes[k].status in {NodeCompleted, NodeFailed}
    ensures k in Apply(s, op).nodes && Apply(s, op).nodes[k] == s.nodes[k]
  {
    match op
    case OpSubmit(flow, specs, at) => SubmitAddsRows(s, flow, specs, at);
    case OpClaim(_, _, _, _, _, _, _) => ClaimKeepsTerminal(s, op, k);
    case OpComplete(_, _, _, _, _, _, _, _) => CompleteKeepsTerminal(s, op, k);
    case OpSweep(now, order) => SweepKeepsTerminal(s, order, now, k);
    case _ =>
  }

  /** Completed and failed rows never change again, whatever is called afterwards. */
  lemma {:induction false} TerminalIsAbsorbing(ops: seq<Op>, more: seq<Op>, k: Key)
    requires LegalRun(ops + more) && LegalRun(ops) && k in Run(ops).nodes
    requires Run(ops).nodes[k].status in {NodeCompleted, NodeFailed}
    ensures k in Run(ops + more).nodes && Run(ops + more).nodes[k] == Run(ops).nodes[k]
  {
    if more == [] {
      assert ops + more == ops;
    } else {
      var rest := more[..|more| - 1];
      assert (ops + more)[..|ops + more| - 1] == ops + rest;
      TerminalIsAbsorbing(ops, rest, k);
      ReachableOpInv(ops + rest);
      StepKeepsTerminal(Run(ops + rest), more[|more| - 1], k);
    }
  }

  // ---- no stuck workflow ---------------------------------------------------------------------

  /** A chain of dependencies, from a node up to one of its ancestors. */
  ghost predicate IsAncestry(s: State, chain: seq<Key>)
  {
    && (forall i :: 0 <= i < |chain| ==> chain[i] in s.nodes)
    && forall i :: 0 <= i < |chain| - 1 ==>
         chain[i + 1].flow == chain[i].flow && chain[i + 1].node in s.nodes[chain[i]].deps
  }

  ghost predicate HasFailedAncestor(s: State, k: Key)
  {
    exists chain :: |chain| >= 2 && IsAncestry(s, chain) && chain[0] == k
                    && s.nodes[chain[|chain| - 1]].status == NodeFailed
  }

  ghost predicate NothingToDo(s: State, f: Id)
  {
    forall k :: k in s.nodes && k.flow == f ==> s.nodes[k].status !in {Queued, AwaitingApproval, Leased}
  }

  lemma ExtendAncestry(s: State, k: Key, d: Id, chain: seq<Key>)
    requires k in s.nodes && d in s.nodes[k].deps
    requires |chain| >= 1 && IsAncestry(s, chain) && chain[0] == Key(k.flow, d)
    requires s.nodes[chain[|chain| - 1]].status == NodeFailed
    ensures HasFailedAncestor(s, k)
  {
    var longer := [k] + chain;
    assert IsAncestry(s, longer) by {
      forall i | 0 <= i < |longer| - 1
        ensures longer[i + 1].flow == longer[i].flow && longer[i + 1].node in s.nodes[longer[i]].deps
      {
        if i > 0 { assert longer[i] == chain[i - 1] && longer[i + 1] == chain[i]; }
      }
    }
    assert longer[0] == k && longer[|longer| - 1] == chain[|chain| - 1];
  }

  lemma {:induction false} BlockedByFailure(s: State, f: Id, rank: map<Key, nat>, k: Key)
    requires OpInv(s) && IsKeyRank(s, rank) && NothingToDo(s, f)
    requires k in s.nodes && k.flow == f && s.nodes[k].status !in {NodeCompleted, NodeFailed}
    ensures HasFailedAncestor(s, k)
    decreases rank[k]
  {
    assert !ParentsCompleted(s, k) && RowOk(s, k);
    var d :| d in s.nodes[k].deps && s.nodes[Key(f, d)].status != NodeCompleted;
    var p := Key(f, d);
    if s.nodes[p].status == NodeFailed {
      assert IsAncestry(s, [p]);
      ExtendAncestry(s, k, d, [p]);
    } else {
      BlockedByFailure(s, f, rank, p);
      var chain :| |chain| >= 2 && IsAncestry(s, chain) && chain[0] == p && s.nodes[chain[|chain| - 1]].status == NodeFailed;
      ExtendAncestry(s, k, d, chain);
    }
  }

  /** With nothing queued, leased or awaiting approval, only failures can explain open nodes. */
  lemma NoStuckWorkflow(ops: seq<Op>, f: Id)
    requires LegalRun(ops) && f in Run(ops).flows && NothingToDo(Run(ops), f)
    ensures forall k :: k in Run(ops).nodes && k.flow == f && Run(ops).nodes[k].status !in {NodeCompleted, NodeFailed} ==>
              HasFailedAncestor(Run(ops), k)
    ensures (forall k :: k in Run(ops).nodes && k.flow == f ==> Run(ops).nodes[k].status != NodeFailed) ==>
              Run(ops).flows[f] == FlowCompleted
  {
    var s := Run(ops);
    ReachableOpInv(ops);
    var rank :| IsKeyRank(s, rank);
    forall k | k in s.nodes && k.flow == f && s.nodes[k].status !in {NodeCompleted, NodeFailed}
      ensures HasFailedAncestor(s, k)
    {
      BlockedByFailure(s, f, rank, k);
    }
    assert FlowOk(s, f);
    if forall k :: k in s.nodes && k.flow == f ==> s.nodes[k].status != NodeFailed {
      forall k | k in s.nodes && k.flow == f ensures s.nodes[k].status == NodeCompleted {
        if s.nodes[k].status != NodeCompleted {
          var chain :| |chain| >= 2 && IsAncestry(s, chain) && chain[0] == k && s.nodes[chain[|chain| - 1]].status == NodeFailed;
          AncestrySameFlow(s, chain);
        }
      }
    }
  }

  lemma {:induction false} AncestrySameFlow(s: State, chain: seq<Key>)
    requires |chain| >= 1 && IsAncestry(s, chain)
    ensures chain[|chain| - 1].flow == chain[0].flow
  {
    if |chain| > 1 {
      var c := chain[..|chain| - 1];
      assert IsAncestry(s, c);
      AncestrySameFlow(s, c);
      assert chain[|c| - 1 + 1].flow == chain[|c| - 1].flow;
    }
  }

  // ---- bounded work -----------------------------------------------------------------------------

  function RowsOf(s: State, f: Id): set<Key>
  {
    set k | k in s.nodes && k.flow == f
  }

  /** Sums over rows, of the grants or of all the moves logged for them. */
  ghost function LoggedSum(events: seq<Event>, rows: set<Key>, grants: bool): nat
  {
    if rows == {} then 0
    else
      var k :| k in rows;
      Count(events, if grants then GrantsOf(k) else MovesOf(k)) + LoggedSum(events, rows - {k}, grants)
  }

  ghost function BudgetSum(s: State, rows: set<Key>, grants: bool): nat
    requires rows <= s.nodes.Keys
  {
    if rows == {} then 0
    else
      var k :| k in rows;
      var m := s.nodes[k].maxAttempts;
      (if grants then m else 2 * m + 2) + BudgetSum(s, rows - {k}, grants)
  }

  lemma {:induction false} LoggedWithinBudget(s: State, rows: set<Key>, grants: bool)
    requires Inv(s) && rows <= s.nodes.Keys
    ensures LoggedSum(s.events, rows, grants) <= BudgetSum(s, rows, grants)
  {
    if rows != {} {
      var k :| k in rows && LoggedSum(s.events, rows, grants) ==
        Count(s.events, if grants then GrantsOf(k) else MovesOf(k)) + LoggedSum(s.events, rows - {k}, grants);
      var j :| j in rows && BudgetSum(s, rows, grants) ==
        (if grants then s.nodes[j].maxAttempts else 2 * s.nodes[j].maxAttempts + 2) + BudgetSum(s, rows - {j}, grants);
      LoggedSplit(s.events, rows, grants, j);
      assert RowOk(s, j) && WorkOk(s, j);
      LoggedWithinBudget(s, rows - {j}, grants);
    }
  }

  lemma {:induction false} LoggedSplit(events: seq<Event>, rows: set<Key>, grants: bool, j: Key)
    requires j in rows
    ensures LoggedSum(events, rows, grants) ==
            Count(events, if grants then GrantsOf(j) else MovesOf(j)) + LoggedSum(events, rows - {j}, grants)
  {
    var k :| k in rows && LoggedSum(events, rows, grants) ==
      Count(events, if grants then GrantsOf(k) else MovesOf(k)) + LoggedSum(events, rows - {k}, grants);
    if k != j {
      LoggedSplit(events, rows - {k}, grants, j);
      LoggedSplit(events, rows - {j}, grants, k);
      assert rows - {k} - {j} == rows - {j} - {k};
    }
  }

  lemma {:induction false} LoggedAppend(events: seq<Event>, e: Event, rows: set<Key>, grants: bool)
    ensures LoggedSum(events + [e], rows, grants) == LoggedSum(events, rows, grants)
            + if IsMove(e) && e.key in rows && (grants ==> e.Granted?) then 1 else 0
  {
    if rows != {} {
      var k :| k in rows;
      LoggedSplit(events, rows, grants, k);
      LoggedSplit(events + [e], rows, grants, k);
      CountAppend(events, e, if grants then GrantsOf(k) else MovesOf(k));
      LoggedAppend(events, e, rows - {k}, grants);
    }
  }

  lemma {:induction false} LoggedEmpty(rows: set<Key>, grants: bool)
    ensures LoggedSum([], rows, grants) == 0
  {
    if rows != {} {
      var k :| k in rows;
      LoggedSplit([], rows, grants, k);
      LoggedEmpty(rows - {k}, grants);
    }
  }

  /** Counting a workflow's events directly or row by row gives the same number. */
  lemma {:induction false} FlowCountIsSum(events: seq<Event>, f: Id, rows: set<Key>, grants: bool)
    requires forall k :: k in rows ==> k.flow == f
    requires forall e :: e in events && IsMove(e) && e.key.flow == f ==> e.key in rows
    ensures Count(events, if grants then GrantsIn(f) else MovesIn(f)) == LoggedSum(events, rows, grants)
  {
    if events == [] {
      LoggedEmpty(rows, grants);
    } else {
      var init, e := events[..|events| - 1], events[|events| - 1];
      assert events == init + [e];
      FlowCountIsSum(init, f, rows, grants);
      LoggedAppend(init, e, rows, grants);
    }
  }

  lemma {:induction false} MoveIsCounted(events: seq<Event>, e: Event)
    requires e in events && IsMove(e)
    ensures Count(events, MovesOf(e.key)) >= 1
  {
    if events[|events| - 1] != e {
      var init := events[..|events| - 1];
      var i :| 0 <= i < |events| && events[i] == e;
      assert init[i] == e;
      MoveIsCounted(init, e);
    }
  }

  /** Whatever the interleaving, a workflow makes at most the sum of 2m+2 moves and m grants. */
  lemma BoundedWork(ops: seq<Op>, f: Id)
    requires LegalRun(ops)
    ensures var s := Run(ops);
      && Count(s.events, MovesIn(f)) <= BudgetSum(s, RowsOf(s, f), false)
      && Count(s.events, GrantsIn(f)) <= BudgetSum(s, RowsOf(s, f), true)
  {
    var s := Run(ops);
    ReachableOpInv(ops);
    forall e | e in s.events && IsMove(e) && e.key.flow == f ensures e.key in RowsOf(s, f) {
      MoveIsCounted(s.events, e);
      assert StrangerOk(s, e.key);
    }
    FlowCountIsSum(s.events, f, RowsOf(s, f), false);
    FlowCountIsSum(s.events, f, RowsOf(s, f), true);
    LoggedWithinBudget(s, RowsOf(s, f), false);
    LoggedWithinBudget(s, RowsOf(s, f), true);
  }

  // ---- leases -----------------------------------------------------------------------------------------

  /** A token is granted once, held by one node at a time, and ends at most once. */
  lemma LeaseExclusivity(ops: seq<Op>, t: Id)
    requires LegalRun(ops)
    ensures var s := Run(ops);
      && Count(s.events, TokenEnded(t)) <= Count(s.events, TokenGranted(t)) <= 1
      && (forall k, k' :: HasToken(s, k, t) && HasToken(s, k', t) ==> k == k')
      && (forall k :: HasToken(s, k, t) ==>
            Count(s.events, TokenGranted(t)) == 1 && Count(s.events, TokenEnded(t)) == 0)
  {
    ReachableOpInv(ops);
    assert TokenOk(Run(ops), t);
  }

  /** `complete`, `fail` and `heartbeat` with a token that is not held change nothing. */
  lemma DeadTokenChangesNothing(ops: seq<Op>, op: Op)
    requires LegalRun(ops) && Legal(Run(ops), op)
    requires op.OpComplete? || op.OpFail? || op.OpHeartbeat?
    requires Count(Run(ops).events, TokenGranted(op.token)) == 0 || Count(Run(ops).events, TokenEnded(op.token)) >= 1
    ensures Apply(Run(ops), op) == Run(ops)
  {
    var s := Run(ops);
    ReachableOpInv(ops);
    assert TokenOk(s, op.token);
    forall k ensures k !in HolderRows(s, op.id, op.token) {
      if k in HolderRows(s, op.id, op.token) { assert HasToken(s, k, op.token); }
    }
  }

  lemma HoldersUnique(s: State, id: Id, token: Id, k: Key, k': Key)
    requires Inv(s) && k in HolderRows(s, id, token) && k' in HolderRows(s, id, token)
    ensures k == k'
  {
    assert TokenOk(s, token) && HasToken(s, k, token) && HasToken(s, k', token);
  }

  function AnswerOf(s: State, op: Op): Answer
    requires op.OpComplete? || op.OpFail?
  {
    if op.OpComplete? then Complete(s, op.id, op.token, op.tokensUsed, op.cost, op.names, op.row, op.now, op.order).1
    else Fail(s, op.id, op.token, op.retryable, op.row, op.now).1
  }

  /** `complete` and `fail` refuse the lease exactly if no row is held under the token, or the one
      that is has passed its deadline, swept or not; then they change nothing. */
  lemma ExpiredLeaseIsRefused(ops: seq<Op>, op: Op)
    requires LegalRun(ops) && Legal(Run(ops), op) && (op.OpComplete? || op.OpFail?)
    ensures var s := Run(ops);
      && (AnswerOf(s, op) == LeaseNotActive <==>
            forall k :: k in HolderRows(s, op.id, op.token) ==> s.nodes[k].lease.expires < op.now)
      && (AnswerOf(s, op) == LeaseNotActive ==> Apply(s, op) == s)
  {
    var s := Run(ops);
    ReachableOpInv(ops);
    if op.row.Picked? {
      forall k | k in HolderRows(s, op.id, op.token) ensures k == op.row.k {
        HoldersUnique(s, op.id, op.token, k, op.row.k);
      }
    }
  }

  /** A heartbeat makes the lease good up to the new deadline, overdue or not, exactly if a row is
      still leased to this worker under this token, that is, was not swept. */
  lemma HeartbeatRevivesExactly(ops: seq<Op>, id: Id, token: Id, expires: Time, row: Pick, now: Time)
    requires LegalRun(ops) && now <= expires
    requires IsRow(Heartbeat(Run(ops), id, token, expires).0, id, token, row)
    ensures var s, s' := Run(ops), Heartbeat(Run(ops), id, token, expires).0;
      && (Live(s', row, now) <==> HolderRows(s, id, token) != {})
      && (Heartbeat(s, id, token, expires).1 == LeaseNotActive <==> HolderRows(s, id, token) == {})
      && (Count(s.events, TokenEnded(token)) >= 1 ==> !Live(s', row, now))
  {
    var s, s' := Run(ops), Heartbeat(Run(ops), id, token, expires).0;
    ReachableOpInv(ops);
    assert TokenOk(s, token);
    forall k ensures k in HolderRows(s', id, token) <==> k in HolderRows(s, id, token) {}
    if k :| k in HolderRows(s, id, token) {
      assert HasToken(s, k, token);
    }
  }

  /** The bound on registrations that a run is measured against. */
  ghost predicate RegistersWithin(ops: seq<Op>, bound: map<Id, nat>)
  {
    forall i :: 0 <= i < |ops| && ops[i].OpRegister? ==>
      ops[i].id in bound && ops[i].worker.maxConcurrency <= bound[ops[i].id]
  }

  ghost predicate WithinBound(s: State, bound: map<Id, nat>)
  {
    && (forall w :: w in s.workers ==> w in bound && s.workers[w].maxConcurrency <= bound[w])
    && (forall w :: |LeasesOf(s, w)| <= if w in bound then bound[w] else 0)
  }

  lemma LeasesShrink(s: State, s': State, w: Id)
    requires forall k :: k in LeasesOf(s', w) ==> k in LeasesOf(s, w)
    ensures |LeasesOf(s', w)| <= |LeasesOf(s, w)|
  {
    SubsetSize(LeasesOf(s', w), LeasesOf(s, w));
  }

  lemma AssignWithinBound(s: State, id: Id, pick: Pick, token: Id, expires: Time, bound: map<Id, nat>)
    requires WithinBound(s, bound) && (id in s.workers && pick.Picked? && pick.k in s.nodes ==> s.nodes[pick.k].status == Queued)
    ensures WithinBound(Assign(s, id, pick, token, expires).0, bound)
  {
    var s' := Assign(s, id, pick, token, expires).0;
    if s' != s {
      assert LeasesOf(s', id) == LeasesOf(s, id) + {pick.k};
      forall w | w != id ensures |LeasesOf(s', w)| <= |LeasesOf(s, w)| {
        LeasesShrink(s, s', w);
      }
    }
  }

  lemma NoNewLeases(s: State, s': State, bound: map<Id, nat>)
    requires WithinBound(s, bound) && s'.workers == s.workers
    requires forall k :: k in s'.nodes && s'.nodes[k].status == Leased && s'.nodes[k].lease.Lease? ==>
      k in s.nodes && s.nodes[k].status == Leased && s.nodes[k].lease.Lease? && s.nodes[k].lease.worker == s'.nodes[k].lease.worker
    ensures WithinBound(s', bound)
  {
    forall w ensures |LeasesOf(s', w)| <= |LeasesOf(s, w)| {
      LeasesShrink(s, s', w);
    }
  }

  lemma SweepWithinBound(s: State, order: seq<Key>, now: Time, bound: map<Id, nat>)
    requires WithinBound(s, bound) && Enumerates(order, ExpiredRows(s, now))
    ensures WithinBound(Sweep(s, order), bound)
    ensures forall k :: k in Sweep(s, order).nodes ==> k in s.nodes
  {
    EnumerationIsLeased(s, order, now);
    SweepHasEffect(s, order);
    NoNewLeases(s, Sweep(s, order), bound);
  }

  lemma AdvanceWithinBound(s: State, flow: Id, order: seq<Key>, bound: map<Id, nat>)
    requires WithinBound(s, bound) && Enumerates(order, ReadyRows(s, flow))
    ensures WithinBound(Advance(s, flow, order), bound)
  {
    ReadyHasEffect(s, order);
    NoNewLeases(s, ReadyAll(s, order), bound);
    NoNewLeases(ReadyAll(s, order), Advance(s, flow, order), bound);
  }

  lemma CompleteWithinBound(s: State, op: Op, bound: map<Id, nat>)
    requires WithinBound(s, bound) && op.OpComplete? && Legal(s, op)
    ensures WithinBound(Apply(s, op), bound)
  {
    if Apply(s, op) != s && op.id in s.workers {
      var s1 := FinishNode(s, op.id, op.token, op.row.k);
      NoNewLeases(s, s1, bound);
      AdvanceWithinBound(s1, op.row.k.flow, op.order, bound);
    } else {
      NoNewLeases(s, Apply(s, op), bound);
    }
  }

  lemma ClaimWithinBound(s: State, op: Op, bound: map<Id, nat>)
    requires WithinBound(s, bound) && op.OpClaim? && Legal(s, op)
    ensures WithinBound(Apply(s, op), bound)
  {
    EnumerationIsLeased(s, op.order, op.now);
    SweepHasEffect(s, op.order);
    var m := Sweep(s, op.order);
    NoNewLeases(s, m, bound);
    if op.id in m.workers && op.pick.Picked? {
      assert op.pick.k in Candidates(m, m.workers[op.id], op.flow);
    }
    AssignWithinBound(m, op.id, op.pick, op.token, op.expires, bound);
  }

  lemma SubmitWithinBound(s: State, op: Op, bound: map<Id, nat>)
    requires Inv(s) && WithinBound(s, bound) && op.OpSubmit? && Legal(s, op)
    ensures WithinBound(Apply(s, op), bound)
  {
    var s' := Apply(s, op);
    SubmitAddsRows(s, op.flow, op.specs, op.at);
    forall k | k in s'.nodes && k !in s.nodes ensures s'.nodes[k].status != Leased {
      var i := NewRow(s, s', op.flow, op.specs, op.at, k);
    }
    NoNewLeases(s, s', bound);
  }

  lemma RegisterWithinBound(s: State, id: Id, worker: Worker, bound: map<Id, nat>)
    requires WithinBound(s, bound) && id in bound && worker.maxConcurrency <= bound[id]
    ensures WithinBound(Register(s, id, worker), bound)
  {
    forall w ensures |LeasesOf(Register(s, id, worker), w)| <= |LeasesOf(s, w)| {
      LeasesShrink(s, Register(s, id, worker), w);
    }
  }

  lemma FailWithinBound(s: State, op: Op, bound: map<Id, nat>)
    requires WithinBound(s, bound) && op.OpFail?
    ensures WithinBound(Apply(s, op), bound)
  {
    NoNewLeases(s, Apply(s, op), bound);
  }

  lemma StepWithinBound(s: State, op: Op, bound: map<Id, nat>)
    requires Inv(s) && Legal(s, op) && WithinBound(s, bound)
    requires op.OpRegister? ==> op.id in bound && op.worker.maxConcurrency <= bound[op.id]
    ensures WithinBound(Apply(s, op), bound)
  {
    match op
    case OpRegister(id, worker) => RegisterWithinBound(s, id, worker, bound);
    case OpSubmit(_, _, _) => SubmitWithinBound(s, op, bound);
    case OpClaim(_, _, _, _, _, _, _) => ClaimWithinBound(s, op, bound);
    case OpComplete(_, _, _, _, _, _, _, _) => CompleteWithinBound(s, op, bound);
    case OpSweep(now, order) => SweepWithinBound(s, order, now, bound);
    case OpFail(_, _, _, _, _) => FailWithinBound(s, op, bound);
    case OpHeartbeat(_, _, _) => NoNewLeases(s, Apply(s, op), bound);
    case OpApprove(_, _, _) => NoNewLeases(s, Apply(s, op), bound);
  }

  /** A worker never holds more leases than the largest concurrency it ever registered with. */
  lemma {:induction false} ConcurrencyBound(ops: seq<Op>, bound: map<Id, nat>)
    requires LegalRun(ops) && RegistersWithin(ops, bound)
    ensures WithinBound(Run(ops), bound)
  {
    if ops == [] {
      assert forall w :: LeasesOf(EMPTY, w) == {};
    } else {
      var init := ops[..|ops| - 1];
      assert RegistersWithin(init, bound);
      ConcurrencyBound(init, bound);
      ReachableOpInv(init);
      StepWithinBound(Run(init), ops[|ops| - 1], bound);
    }
  }

  // ---- a failure that does not fail its workflow ---------------------------------------------------------

  lemma RunExtends(ops: seq<Op>, op: Op)
    ensures Run(ops + [op]) == Apply(Run(ops), op)
    ensures LegalRun(ops + [op]) <==> LegalRun(ops) && Legal(Run(ops), op)
  {
    assert (ops + [op])[..|ops|] == ops;
  }

  const ONE_SHOT := NodeSpec("n", [], {}, 0, 0.0, false, 1)
  const ROW := Key("f", "n")

  lemma OneShotIsValid()
    ensures ValidSpec([ONE_SHOT])
    ensures Submit(EMPTY, "f", [ONE_SHOT], 0.0).nodes == map[ROW := NewNode(ONE_SHOT, 0.0)]
  {
    assert [ONE_SHOT][..0] == [];
    assert Edges([]) == map[];
    assert Edges([ONE_SHOT]) == map["n" := []];
    assert IsRank(Edges([ONE_SHOT]), map["n" := 0]);
    assert InsertNodes(map[], "f", [], 0.0) == map[];
  }

  lemma OneShotClaim(s: State)
    requires s == Register(Submit(EMPTY, "f", [ONE_SHOT], 0.0), "w", Worker({}, 1))
    ensures Legal(s, OpClaim("w", "", 0.0, [], Picked(ROW), "t", 60.0))
    ensures Assign(s, "w", Picked(ROW), "t", 60.0).0.nodes == map[ROW := LeaseTo(NewNode(ONE_SHOT, 0.0), "w", "t", 60.0)]
  {
    OneShotIsValid();
    assert Candidates(s, Worker({}, 1), "") == {ROW};
    assert ExpiredRows(s, 0.0) == {};
    CountAppend([], FlowSubmitted("f"), TokenGranted("t"));
    assert LeasesOf(s, "w") == {};
  }

  lemma OneShotExpires(s: State)
    requires s.nodes == map[ROW := LeaseTo(NewNode(ONE_SHOT, 0.0), "w", "t", 60.0)]
    ensures Enumerates([ROW], ExpiredRows(s, 61.0))
    ensures Sweep(s, [ROW]).flows == s.flows
    ensures ROW in Sweep(s, [ROW]).nodes && Sweep(s, [ROW]).nodes[ROW].status == NodeFailed
  {
    assert ExpiredRows(s, 61.0) == {ROW};
    assert [ROW][..0] == [] && Sweep(s, []) == s;
    assert Sweep(s, [ROW]) == ExpireOne(s, ROW);
  }

  /** The one-shot node, leased since time 0 until time 60. */
  lemma OneShotLeased() returns (ops: seq<Op>)
    ensures LegalRun(ops) && Run(ops).nodes == map[ROW := LeaseTo(NewNode(ONE_SHOT, 0.0), "w", "t", 60.0)]
    ensures Run(ops).flows == map["f" := Running] && "w" in Run(ops).workers
  {
    var submit := OpSubmit("f", [ONE_SHOT], 0.0);
    var register := OpRegister("w", Worker({}, 1));
    var claim := OpClaim("w", "", 0.0, [], Picked(ROW), "t", 60.0);
    OneShotIsValid();
    RunExtends([], submit);
    RunExtends([] + [submit], register);
    RunExtends([] + [submit] + [register], claim);
    OneShotClaim(Run([] + [submit] + [register]));
    ops := [] + [submit] + [register] + [claim];
  }

  lemma OneShotCompletes(s: State, expires: Time)
    requires s.nodes == map[ROW := LeaseTo(NewNode(ONE_SHOT, 0.0), "w", "t", expires)] && "w" in s.workers
    ensures var op := OpComplete("w", "t", 0, 0.0, [], Picked(ROW), 70.0, []);
      && Legal(s, op) && ROW in Apply(s, op).nodes
      && if expires < 70.0 then Apply(s, op) == s else Apply(s, op).nodes[ROW].status == NodeCompleted
  {
    var m := FinishNode(s, "w", "t", ROW);
    assert HolderRows(s, "w", "t") == {ROW};
    assert ReadyRows(m, "f") == {};
    assert ReadyAll(m, []) == m;
  }

  lemma OneShotCompletion(ops: seq<Op>, done: Op, expires: Time)
    requires LegalRun(ops) && done == OpComplete("w", "t", 0, 0.0, [], Picked(ROW), 70.0, [])
    requires Run(ops).nodes == map[ROW := LeaseTo(NewNode(ONE_SHOT, 0.0), "w", "t", expires)] && "w" in Run(ops).workers
    ensures LegalRun(ops + [done])
    ensures if expires < 70.0 then Run(ops + [done]) == Run(ops)
            else ROW in Run(ops + [done]).nodes && Run(ops + [done]).nodes[ROW].status == NodeCompleted
  {
    OneShotCompletes(Run(ops), expires);
    RunExtends(ops, done);
  }

  lemma OneShotBeats(s: State)
    requires s.nodes == map[ROW := LeaseTo(NewNode(ONE_SHOT, 0.0), "w", "t", 60.0)]
    ensures var s' := Heartbeat(s, "w", "t", 125.0).0;
      s'.nodes == map[ROW := LeaseTo(NewNode(ONE_SHOT, 0.0), "w", "t", 125.0)] && s'.workers == s.workers
  {
    assert HolderRows(s, "w", "t") == {ROW};
  }

  /** At time 65 the lease is five seconds overdue. Left alone, a completion at time 70 is refused;
      after a heartbeat it succeeds. */
  lemma HeartbeatRevives() returns (ops: seq<Op>, beat: Op, done: Op)
    ensures beat == OpHeartbeat("w", "t", 125.0) && done.OpComplete? && done.now == 70.0
    ensures LegalRun(ops + [done]) && Run(ops + [done]) == Run(ops)
    ensures LegalRun(ops + [beat] + [done]) && ROW in Run(ops + [beat] + [done]).nodes
    ensures Run(ops + [beat] + [done]).nodes[ROW].status == NodeCompleted
  {
    ops := OneShotLeased();
    beat, done := OpHeartbeat("w", "t", 125.0), OpComplete("w", "t", 0, 0.0, [], Picked(ROW), 70.0, []);
    OneShotCompletion(ops, done, 60.0);
    RunExtends(ops, beat);
    OneShotBeats(Run(ops));
    OneShotCompletion(ops + [beat], done, 125.0);
  }

  /** A lease that expires on its last attempt fails the node and leaves the workflow running. */
  lemma ExpiryLeavesWorkflowRunning() returns (ops: seq<Op>)
    ensures LegalRun(ops)
    ensures exists k :: k in Run(ops).nodes && Run(ops).nodes[k].status == NodeFailed
              && k.flow in Run(ops).flows && Run(ops).flows[k.flow] == Running
  {
    var leased := OneShotLeased();
    var sweep := OpSweep(61.0, [ROW]);
    OneShotExpires(Run(leased));
    RunExtends(leased, sweep);
    ops := leased + [sweep];
    assert Run(ops).nodes[ROW].status == NodeFailed && Run(ops).flows["f"] == Running;
  }
}
