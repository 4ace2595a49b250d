/** What each call of the Fleet orchestrator does and answers, said of the rows it finds and leaves. */
module FleetAnswers {
  import opened FleetDag
  import opened FleetState
  import opened FleetOps
  import opened FleetRuns
  import opened FleetProgress
  import opened FleetOrchestrator

  // ---- submit -----------------------------------------------------------------------------------

  /** The columns a submission writes and nothing changes afterwards. */
  ghost predicate SpecifiedBy(n: Node, spec: NodeSpec, at: Time)
  {
    && n.approvalRequired == spec.approvalRequired && n.deps == spec.dependsOn
    && n.capabilities == spec.capabilities
    && n.tokenBudget == spec.tokenBudget && n.costBudget == spec.costBudget
    && n.maxAttempts as int == spec.maxAttempts && n.createdAt == at
  }

  lemma {:induction false} RowsInserted(nodes: map<Key, Node>, flow: Id, specs: seq<NodeSpec>, at: Time, i: nat)
    requires UniqueIds(specs) && i < |specs| && specs[i].maxAttempts >= 1
    ensures var m := InsertNodes(nodes, flow, specs, at); var k := Key(flow, specs[i].id);
      && k in m && SpecifiedBy(m[k], specs[i], at) && m[k].attempts == 0 && m[k].lease == NoLease
      && (m[k].status == Blocked <==> specs[i].dependsOn != [])
      && (m[k].status == AwaitingApproval <==> specs[i].dependsOn == [] && specs[i].approvalRequired)
      && (m[k].status == Queued <==> specs[i].dependsOn == [] && !specs[i].approvalRequired)
  {
    InsertedNodes(nodes, flow, specs, at);
    assert Ids(specs)[i] == specs[i].id;
  }

  /** A submission adds one row per node of the specification, with the columns and the status that
      the node calls for, and touches no other row. */
  lemma SubmittedRows(s: State, flow: Id, specs: seq<NodeSpec>, at: Time)
    requires Inv(s) && flow !in s.flows && ValidSpec(specs)
    ensures var s' := Submit(s, flow, specs, at);
      && s'.flows == s.flows[flow := Running] && s'.workers == s.workers
      && (forall k :: k in s'.nodes <==> k in s.nodes || (k.flow == flow && k.node in Ids(specs)))
      && (forall k :: k in s.nodes ==> s'.nodes[k] == s.nodes[k])
      && forall i :: 0 <= i < |specs| ==>
           var k := Key(flow, specs[i].id);
           && k in s'.nodes && SpecifiedBy(s'.nodes[k], specs[i], at)
           && s'.nodes[k].attempts == 0 && s'.nodes[k].lease == NoLease
           && (s'.nodes[k].status == Blocked <==> specs[i].dependsOn != [])
           && (s'.nodes[k].status == AwaitingApproval <==> specs[i].dependsOn == [] && specs[i].approvalRequired)
           && (s'.nodes[k].status == Queued <==> specs[i].dependsOn == [] && !specs[i].approvalRequired)
  {
    SubmitAddsRows(s, flow, specs, at);
    forall i | 0 <= i < |specs|
      ensures var s' := Submit(s, flow, specs, at); var k := Key(flow, specs[i].id);
           && k in s'.nodes && SpecifiedBy(s'.nodes[k], specs[i], at)
           && s'.nodes[k].attempts == 0 && s'.nodes[k].lease == NoLease
           && (s'.nodes[k].status == Blocked <==> specs[i].dependsOn != [])
           && (s'.nodes[k].status == AwaitingApproval <==> specs[i].dependsOn == [] && specs[i].approvalRequired)
           && (s'.nodes[k].status == Queued <==> specs[i].dependsOn == [] && !specs[i].approvalRequired)
    {
      RowsInserted(s.nodes, flow, specs, at, i);
    }
  }

  // ---- sweep --------------------------------------------------------------------------------------

  /** A sweep leaves every row alone but the leased ones whose deadline has passed; those are requeued
      while attempts remain and fail otherwise. */
  lemma SweepExactly(s: State, order: seq<Key>, now: Time, k: Key)
    requires Enumerates(order, ExpiredRows(s, now)) && k in s.nodes
    ensures k in Sweep(s, order).nodes
    ensures var n, n' := s.nodes[k], Sweep(s, order).nodes[k];
      if n.status == Leased && n.lease.Lease? && n.lease.expires < now then
        n' == n.(lease := NoLease, status := if n.attempts < n.maxAttempts then Queued else NodeFailed)
      else n' == n
  {
    EnumerationIsLeased(s, order, now);
    SweepHasEffect(s, order);
    assert k in order <==> k in ExpiredRows(s, now);
  }

  ghost predicate LeasedAt(s: State, k: Key)
  {
    k in s.nodes && s.nodes[k].status == Leased && s.nodes[k].lease.Lease?
  }

  /** A claim or a sweep at `now` takes a lease away exactly if its deadline lies before `now`. */
  lemma LeaseOutlivesClaims(ops: seq<Op>, op: Op, k: Key)
    requires LegalRun(ops) && Legal(Run(ops), op) && (op.OpClaim? || op.OpSweep?) && LeasedAt(Run(ops), k)
    ensures var s, s' := Run(ops), Apply(Run(ops), op); var lease := s.nodes[k].lease;
      && k in s'.nodes && (s'.nodes[k] == s.nodes[k] <==> lease.expires >= op.now)
      && Count(s'.events, TokenEnded(lease.token)) == if lease.expires < op.now then 1 else 0
  {
    var s := Run(ops);
    ReachableOpInv(ops);
    StepKeepsOpInv(s, op);
    var t := s.nodes[k].lease.token;
    HeldTokenIsOpen(s, k);
    SweepExactly(s, op.order, op.now, k);
    SweepGrantsNothing(s, op.order, t);
    OnlySurvivorsHold(s, op.order, op.now, k, t);
    var m := Sweep(s, op.order);
    if op.OpClaim? {
      SweepKeepsWorkers(s, op.order, op.now);
      AssignSpares(m, op.id, op.flow, op.pick, op.token, op.expires, k, t);
    }
    TokenFollowsRow(Apply(s, op), k, t);
  }

  lemma HeldTokenIsOpen(s: State, k: Key)
    requires Inv(s) && LeasedAt(s, k)
    ensures Count(s.events, TokenGranted(s.nodes[k].lease.token)) == 1
  {
    var t := s.nodes[k].lease.token;
    assert TokenOk(s, t) && HasToken(s, k, t);
  }

  /** If a granted token can only be held by `k`, it has ended exactly if `k` does not hold it. */
  lemma TokenFollowsRow(s: State, k: Key, t: Id)
    requires Inv(s) && Count(s.events, TokenGranted(t)) == 1 && forall j :: HasToken(s, j, t) ==> j == k
    ensures Count(s.events, TokenEnded(t)) == if HasToken(s, k, t) then 0 else 1
  {
    assert TokenOk(s, t);
  }

  lemma OnlySurvivorsHold(s: State, order: seq<Key>, now: Time, k: Key, t: Id)
    requires Inv(s) && Enumerates(order, ExpiredRows(s, now)) && LeasedAt(s, k) && t == s.nodes[k].lease.token
    ensures forall j :: HasToken(Sweep(s, order), j, t) ==> j == k
  {
    assert TokenOk(s, t) && HasToken(s, k, t);
    EnumerationIsLeased(s, order, now);
    SweepHasEffect(s, order);
    forall j | HasToken(Sweep(s, order), j, t) ensures j == k {
      SweepExactly(s, order, now, j);
      assert HasToken(s, j, t);
    }
  }

  lemma AssignSpares(m: State, id: Id, flow: Id, pick: Pick, token: Id, expires: Time, k: Key, t: Id)
    requires Count(m.events, TokenGranted(token)) == 0 && Count(m.events, TokenGranted(t)) == 1
    requires id in m.workers ==> IsPick(m, m.workers[id], flow, pick)
    requires k in m.nodes && forall j :: HasToken(m, j, t) ==> j == k
    ensures var s' := Assign(m, id, pick, token, expires).0;
      && Count(s'.events, TokenGranted(t)) == 1 && (forall j :: HasToken(s', j, t) ==> j == k)
      && k in s'.nodes && (m.nodes[k].status != Queued ==> s'.nodes[k] == m.nodes[k])
      && (s'.nodes[k] != m.nodes[k] ==> s'.nodes[k].attempts == m.nodes[k].attempts + 1)
  {
    if pick.Picked? {
      CountAppend(m.events, Granted(pick.k, id, token), TokenGranted(t));
    }
    var s' := Assign(m, id, pick, token, expires).0;
    forall j | HasToken(s', j, t) ensures j == k { assert HasToken(m, j, t); }
  }

  lemma SweepKeepsWorkers(s: State, order: seq<Key>, now: Time)
    requires Enumerates(order, ExpiredRows(s, now))
    ensures Sweep(s, order).workers == s.workers
  {
    EnumerationIsLeased(s, order, now);
    SweepHasEffect(s, order);
  }

  // ---- what was submitted, over runs ----------------------------------------------------------------

  ghost predicate SameColumns(n: Node, n': Node)
  {
    && n'.approvalRequired == n.approvalRequired && n'.deps == n.deps && n'.capabilities == n.capabilities
    && n'.tokenBudget == n.tokenBudget && n'.costBudget == n.costBudget
    && n'.maxAttempts == n.maxAttempts && n'.createdAt == n.createdAt
  }

  lemma ClaimKeepsColumns(s: State, op: Op, k: Key)
    requires Legal(s, op) && op.OpClaim? && k in s.nodes
    ensures k in Apply(s, op).nodes && SameColumns(s.nodes[k], Apply(s, op).nodes[k])
  {
    SweepExactly(s, op.order, op.now, k);
  }

  lemma CompleteKeepsColumns(s: State, op: Op, k: Key)
    requires Legal(s, op) && op.OpComplete? && k in s.nodes
    ensures k in Apply(s, op).nodes && SameColumns(s.nodes[k], Apply(s, op).nodes[k])
  {
    if Live(s, op.row, op.now) {
      AdvanceKeepsColumns(FinishNode(s, op.id, op.token, op.row.k), op.row.k.flow, op.order, k);
    }
  }

  lemma AdvanceKeepsColumns(m: State, flow: Id, order: seq<Key>, k: Key)
    requires Enumerates(order, ReadyRows(m, flow)) && k in m.nodes
    ensures k in Advance(m, flow, order).nodes && SameColumns(m.nodes[k], Advance(m, flow, order).nodes[k])
  {
    ReadyHasEffect(m, order);
  }

  lemma StepKeepsColumns(s: State, op: Op, k: Key)
    requires Inv(s) && Legal(s, op) && k in s.nodes
    ensures k in Apply(s, op).nodes && SameColumns(s.nodes[k], Apply(s, op).nodes[k])
  {
    match op
    case OpSubmit(flow, specs, at) => SubmittedRows(s, flow, specs, at);
    case OpClaim(_, _, _, _, _, _, _) => ClaimKeepsColumns(s, op, k);
    case OpComplete(_, _, _, _, _, _, _, _) => CompleteKeepsColumns(s, op, k);
    case OpSweep(now, order) => SweepExactly(s, order, now, k);
    case _ =>
  }

  lemma {:induction false} SubmissionIsKept(ops: seq<Op>, j: nat, i: nat)
    requires LegalRun(ops) && j < |ops| && ops[j].OpSubmit? && i < |ops[j].specs|
    ensures var k := Key(ops[j].flow, ops[j].specs[i].id);
      k in Run(ops).nodes && SpecifiedBy(Run(ops).nodes[k], ops[j].specs[i], ops[j].at)
  {
    var init, last := ops[..|ops| - 1], ops[|ops| - 1];
    ReachableOpInv(init);
    if j == |init| {
      SubmittedRows(Run(init), last.flow, last.specs, last.at);
    } else {
      SubmissionIsKept(init, j, i);
      StepKeepsColumns(Run(init), last, Key(ops[j].flow, ops[j].specs[i].id));
    }
  }

  ghost predicate ApprovalsFrom(s: State, s': State, op: Op)
  {
    forall e :: e in s'.events && e.Approval? && e !in s.events ==> op == OpApprove(e.key, e.approved, e.actor)
  }

  lemma {:induction false} SweepApprovesNothing(s: State, order: seq<Key>, e: Event)
    requires e in Sweep(s, order).events && e.Approval?
    ensures e in s.events
  {
    if order != [] {
      var rest, k := order[..|order| - 1], order[|order| - 1];
      assert e in Sweep(s, rest).events;
      SweepApprovesNothing(s, rest, e);
    }
  }

  lemma {:induction false} ReadyApprovesNothing(s: State, order: seq<Key>, e: Event)
    requires e in ReadyAll(s, order).events && e.Approval?
    ensures e in s.events
  {
    if order != [] {
      var rest, k := order[..|order| - 1], order[|order| - 1];
      assert e in ReadyAll(s, rest).events;
      ReadyApprovesNothing(s, rest, e);
    }
  }

  lemma StepApproves(s: State, op: Op)
    requires Legal(s, op)
    ensures ApprovalsFrom(s, Apply(s, op), op)
  {
    forall e | e in Apply(s, op).events && e.Approval? && e !in s.events ensures op == OpApprove(e.key, e.approved, e.actor) {
      match op
      case OpClaim(_, _, _, order, _, _, _) => if e in Sweep(s, order).events { SweepApprovesNothing(s, order, e); }
      case OpSweep(_, order) => SweepApprovesNothing(s, order, e);
      case OpComplete(id, token, _, _, _, row, _, order) =>
        if row.Picked? && row.k in s.nodes && e in ReadyAll(FinishNode(s, id, token, row.k), order).events {
          ReadyApprovesNothing(FinishNode(s, id, token, row.k), order, e);
        }
      case _ =>
    }
  }

  lemma {:induction false} ApprovalsAreCalls(ops: seq<Op>, e: Event)
    requires LegalRun(ops) && e in Run(ops).events && e.Approval?
    ensures OpApprove(e.key, e.approved, e.actor) in ops
  {
    if ops != [] {
      var init, last := ops[..|ops| - 1], ops[|ops| - 1];
      if e in Run(init).events {
        ApprovalsAreCalls(init, e);
      } else {
        StepApproves(Run(init), last);
      }
    }
  }

  /** Over any run, a submitted node carries the columns of its specification; it does not leave
      `blocked` before all the parents it names completed; and if the specification asks for
      approval it is not queued, leased or completed unless someone called `approve` for it. */
  lemma SubmissionGates(ops: seq<Op>, j: nat, i: nat)
    requires LegalRun(ops) && j < |ops| && ops[j].OpSubmit? && i < |ops[j].specs|
    ensures var s, spec, k := Run(ops), ops[j].specs[i], Key(ops[j].flow, ops[j].specs[i].id);
      && k in s.nodes && SpecifiedBy(s.nodes[k], spec, ops[j].at)
      && (s.nodes[k].status != Blocked ==> forall d :: d in spec.dependsOn ==>
            Key(k.flow, d) in s.nodes && s.nodes[Key(k.flow, d)].status == NodeCompleted)
      && (spec.approvalRequired && s.nodes[k].status in {Queued, Leased, NodeCompleted} ==>
            exists actor :: OpApprove(k, true, actor) in ops)
  {
    SubmissionIsKept(ops, j, i);
    var s, spec, k := Run(ops), ops[j].specs[i], Key(ops[j].flow, ops[j].specs[i].id);
    SchedulerSafety(ops, k);
    if spec.approvalRequired && s.nodes[k].status in {Queued, Leased, NodeCompleted} {
      var actor :| Approval(k, true, actor) in s.events;
      ApprovalsAreCalls(ops, Approval(k, true, actor));
    }
  }

  // ---- claim ------------------------------------------------------------------------------------------

  /** ORDER BY compares texts character by character. */
  lemma {:induction false} StringLessExactly(a: string, b: string)
    ensures StringLess(a, b) <==>
      exists n :: 0 <= n <= |a| && n < |b| && a[..n] == b[..n] && (n == |a| || a[n] < b[n])
  {
    if a != [] && b != [] && a[0] == b[0] {
      StringLessExactly(a[1..], b[1..]);
      if n :| 0 <= n <= |a| && n < |b| && a[..n] == b[..n] && (n == |a| || a[n] < b[n]) {
        assert n > 0 && a[1..][..n - 1] == a[..n][1..] == b[..n][1..] == b[1..][..n - 1];
      }
      if n :| 0 <= n <= |a| - 1 && n < |b| - 1 && a[1..][..n] == b[1..][..n] && (n == |a| - 1 || a[1..][n] < b[1..][n]) {
        assert a[..n + 1] == [a[0]] + a[1..][..n] == b[..n + 1];
      }
    } else if a == [] || b == [] || a[0] < b[0] {
      assert a[..0] == b[..0];
    } else {
      assert forall n :: 0 < n <= |a| && n <= |b| ==> a[..n][0] == a[0] && b[..n][0] == b[0];
    }
  }

  /** What a worker may take: queued, of the workflow it named if any, and within its capabilities. */
  ghost predicate Eligible(s: State, worker: Worker, flow: Id, k: Key)
  {
    k in s.nodes && s.nodes[k].status == Queued && (flow != "" ==> k.flow == flow)
    && forall c :: c in s.nodes[k].capabilities ==> c in worker.capabilities
  }

  ghost predicate Earlier(s: State, a: Key, b: Key)
    requires a in s.nodes && b in s.nodes
  {
    || s.nodes[a].createdAt < s.nodes[b].createdAt
    || (s.nodes[a].createdAt == s.nodes[b].createdAt && StringLess(a.node, b.node))
  }

  ghost predicate Busy(s: State, id: Id)
    requires id in s.workers
  {
    |set k | k in s.nodes && s.nodes[k].status == Leased && s.nodes[k].lease.Lease? && s.nodes[k].lease.worker == id|
      >= s.workers[id].maxConcurrency
  }

  lemma BusyCounts(s: State, id: Id)
    requires id in s.workers
    ensures Busy(s, id) <==> |LeasesOf(s, id)| >= s.workers[id].maxConcurrency
  {
    assert LeasesOf(s, id) ==
      set k | k in s.nodes && s.nodes[k].status == Leased && s.nodes[k].lease.Lease? && s.nodes[k].lease.worker == id;
  }

  lemma CandidatesAreEligible(s: State, worker: Worker, flow: Id)
    ensures forall k :: k in Candidates(s, worker, flow) <==> Eligible(s, worker, flow, k)
  {
  }

  ghost predicate NothingFor(s: State, id: Id, flow: Id)
    requires id in s.workers
  {
    Busy(s, id) || forall k :: !Eligible(s, s.workers[id], flow, k)
  }

  /** The row taken is eligible and no eligible one comes before it. */
  ghost predicate IsFirst(s: State, worker: Worker, flow: Id, k: Key)
  {
    Eligible(s, worker, flow, k) && forall j :: Eligible(s, worker, flow, j) ==> !Earlier(s, j, k)
  }

  lemma PickIsFirst(m: State, worker: Worker, flow: Id, pick: Pick)
    requires IsPick(m, worker, flow, pick)
    ensures if pick.Picked? then IsFirst(m, worker, flow, pick.k) else forall k :: !Eligible(m, worker, flow, k)
  {
    CandidatesAreEligible(m, worker, flow);
    if pick.Picked? {
      forall j | Eligible(m, worker, flow, j) ensures !Earlier(m, j, pick.k) { assert !Before(m, j, pick.k); }
    } else {
      forall k ensures !Eligible(m, worker, flow, k) { assert k !in Candidates(m, worker, flow); }
    }
  }

  /** After its sweep a claim is refused for an unknown worker, gives nothing to a busy worker or if no
      row is eligible, and otherwise leases the earliest eligible row and changes nothing else. */
  lemma ClaimExactly(s: State, op: Op)
    requires Legal(s, op) && op.OpClaim?
    ensures var m := Sweep(s, op.order);
      var (s', answer) := Claim(s, op.id, op.order, op.pick, op.token, op.expires);
      if op.id !in m.workers then s' == m && answer == WorkerNotRegistered
      else if NothingFor(m, op.id, op.flow) then s' == m && answer == NoWork
      else
        && op.pick.Picked? && var k := op.pick.k;
        && IsFirst(m, m.workers[op.id], op.flow, k) && answer == Assigned(k, op.token, op.expires)
        && s' == m.(nodes := m.nodes[k := m.nodes[k].(status := Leased, attempts := m.nodes[k].attempts + 1,
                                                      lease := Lease(op.id, op.token, op.expires))],
                    events := m.events + [Granted(k, op.id, op.token)])
    ensures Sweep(s, op.order).workers == s.workers
  {
    SweepKeepsWorkers(s, op.order, op.now);
    var m := Sweep(s, op.order);
    if op.id in s.workers {
      BusyCounts(m, op.id);
      PickIsFirst(m, m.workers[op.id], op.flow, op.pick);
    }
  }

  // ---- heartbeat, complete, fail, approve ---------------------------------------------------------------

  /** The row is leased to this worker under this token. */
  ghost predicate LeasedTo(s: State, k: Key, id: Id, token: Id)
  {
    k in s.nodes && s.nodes[k].status == Leased && s.nodes[k].lease.Lease?
    && s.nodes[k].lease.worker == id && s.nodes[k].lease.token == token
  }

  /** A heartbeat gives every row leased under the token the new deadline, and is refused if there is none. */
  lemma HeartbeatExactly(s: State, id: Id, token: Id, expires: Time)
    ensures var (s', answer) := Heartbeat(s, id, token, expires);
      && s' == s.(nodes := s'.nodes) && s'.nodes.Keys == s.nodes.Keys
      && (forall k :: k in s.nodes ==>
            s'.nodes[k] == if LeasedTo(s, k, id, token) then s.nodes[k].(lease := Lease(id, token, expires)) else s.nodes[k])
      && answer == if exists k :: LeasedTo(s, k, id, token) then Extended(expires) else LeaseNotActive
  {
    forall k ensures k in HolderRows(s, id, token) <==> LeasedTo(s, k, id, token) {}
    if k :| LeasedTo(s, k, id, token) { assert k in HolderRows(s, id, token); }
  }

  lemma RowIsHeld(s: State, id: Id, token: Id, row: Pick)
    requires Inv(s) && IsRow(s, id, token, row)
    ensures row.Picked? <==> exists k :: LeasedTo(s, k, id, token)
    ensures row.Picked? ==> LeasedTo(s, row.k, id, token) && forall k :: LeasedTo(s, k, id, token) ==> k == row.k
  {
    forall k ensures k in HolderRows(s, id, token) <==> LeasedTo(s, k, id, token) {}
    assert TokenOk(s, token);
    forall k | LeasedTo(s, k, id, token) ensures HasToken(s, k, token) {}
  }

  /** The row is leased under the token and the deadline has not passed. */
  ghost predicate Holds(s: State, k: Key, id: Id, token: Id, now: Time)
  {
    LeasedTo(s, k, id, token) && s.nodes[k].lease.expires >= now
  }

  ghost predicate BadName(name: string)
  {
    name == "" || name == "." || '/' in name
  }

  /** A completion is refused without a lease in force, then over either budget, then for an artifact
      name that is no plain file name; a refusal changes nothing. */
  lemma CompleteRefusals(s: State, op: Op)
    requires OpInv(s) && Legal(s, op) && op.OpComplete?
    ensures var (s', answer) := Complete(s, op.id, op.token, op.tokensUsed, op.cost, op.names, op.row, op.now, op.order);
      && (answer == LeaseNotActive <==> forall k :: !Holds(s, k, op.id, op.token, op.now))
      && (answer != LeaseNotActive ==> op.row.Picked? && op.row.k in s.nodes && var n := s.nodes[op.row.k];
            && Holds(s, op.row.k, op.id, op.token, op.now)
            && (answer == OverBudget <==> op.tokensUsed > n.tokenBudget || op.cost > n.costBudget)
            && (answer == BadArtifactName <==>
                  op.tokensUsed <= n.tokenBudget && op.cost <= n.costBudget && exists name :: name in op.names && BadName(name)))
      && answer in {LeaseNotActive, OverBudget, BadArtifactName, Done}
      && (answer != Done ==> s' == s)
  {
    RowIsHeld(s, op.id, op.token, op.row);
    CompleteKeepsOpInv(s, op.id, op.token, op.tokensUsed, op.cost, op.names, op.row, op.now, op.order);
    if op.row.Picked? {
      assert Live(s, op.row, op.now) <==> Holds(s, op.row.k, op.id, op.token, op.now);
    }
    NamesAreChecked(op.names);
  }

  lemma NamesAreChecked(names: seq<string>)
    ensures (exists i :: 0 <= i < |names| && !PlainName(names[i])) <==> exists name :: name in names && BadName(name)
  {
    if name :| name in names && BadName(name) {
      var i :| 0 <= i < |names| && names[i] == name;
    }
    if i :| 0 <= i < |names| && !PlainName(names[i]) {
      assert names[i] in names && BadName(names[i]);
    }
  }

  /** An accepted completion completes its row and hands the lease back; the blocked rows of the same
      workflow whose parents are now all completed become ready; no other row changes. */
  lemma CompleteEffect(s: State, op: Op, j: Key)
    requires OpInv(s) && Legal(s, op) && op.OpComplete? && j in s.nodes
    requires Complete(s, op.id, op.token, op.tokensUsed, op.cost, op.names, op.row, op.now, op.order).1 == Done
    ensures var s', k := Apply(s, op), op.row.k;
      && op.row.Picked? && k in s.nodes && k in s'.nodes && j in s'.nodes && s'.workers == s.workers
      && s'.nodes[k] == s.nodes[k].(status := NodeCompleted, lease := NoLease)
      && (j != k ==>
            s'.nodes[j] == if j.flow == k.flow && s.nodes[j].status == Blocked && ParentsDone(s', s.nodes[j].deps, j.flow)
                           then s.nodes[j].(status := if s.nodes[j].approvalRequired then AwaitingApproval else Queued)
                           else s.nodes[j])
  {
    RowIsHeld(s, op.id, op.token, op.row);
    var k := op.row.k;
    var m := FinishNode(s, op.id, op.token, k);
    ReleaseCompletesOne(s, k, Release(s.nodes[k], NodeCompleted), Finished(k, op.id, op.token), op.order);
    AdvanceEffect(m, k.flow, op.order, k);
    AdvanceEffect(m, k.flow, op.order, j);
  }

  ghost predicate ParentsDone(s: State, deps: seq<Id>, flow: Id)
  {
    forall d :: d in deps ==> Key(flow, d) in s.nodes && s.nodes[Key(flow, d)].status == NodeCompleted
  }

  lemma AdvanceEffect(m: State, flow: Id, order: seq<Key>, j: Key)
    requires AllReady(m, order) && Enumerates(order, ReadyRows(m, flow)) && j in m.nodes
    ensures var s' := Advance(m, flow, order);
      && j in s'.nodes && s'.workers == m.workers
      && s'.nodes[j] == if j.flow == flow && m.nodes[j].status == Blocked && ParentsDone(s', m.nodes[j].deps, j.flow)
                        then m.nodes[j].(status := if m.nodes[j].approvalRequired then AwaitingApproval else Queued)
                        else m.nodes[j]
  {
    ReadyHasEffect(m, order);
    var r := ReadyAll(m, order);
    SameParents(m, r, order, m.nodes[j].deps, j.flow);
    assert j in order <==> j in ReadyRows(m, flow);
    assert ParentsDone(m, m.nodes[j].deps, j.flow) <==> ParentsCompleted(m, j);
  }

  lemma SameParents(m: State, r: State, order: seq<Key>, deps: seq<Id>, flow: Id)
    requires AllReady(m, order) && ReadyEffect(m, order, r)
    ensures ParentsDone(r, deps, flow) <==> ParentsDone(m, deps, flow)
  {
  }

  /** A failure report is refused without a lease in force; it requeues the row if a retry is asked for
      and attempts remain, and otherwise fails the row and its workflow. */
  lemma FailExactly(s: State, op: Op)
    requires OpInv(s) && Legal(s, op) && op.OpFail?
    ensures var (s', answer) := Fail(s, op.id, op.token, op.retryable, op.row, op.now);
      && answer == (if exists k :: Holds(s, k, op.id, op.token, op.now) then Done else LeaseNotActive)
      && (answer == LeaseNotActive ==> s' == s)
      && (answer == Done ==> op.row.Picked? && op.row.k in s.nodes && var k := op.row.k; var n := s.nodes[k];
            && Holds(s, k, op.id, op.token, op.now) && s'.workers == s.workers
            && if op.retryable && n.attempts < n.maxAttempts then
                 s'.nodes == s.nodes[k := n.(status := Queued, lease := NoLease)] && s'.flows == s.flows
               else
                 s'.nodes == s.nodes[k := n.(status := NodeFailed, lease := NoLease)] && s'.flows == s.flows[k.flow := FlowFailed])
  {
    RowIsHeld(s, op.id, op.token, op.row);
    FailKeepsOpInv(s, op.id, op.token, op.retryable, op.row, op.now);
    if op.row.Picked? {
      assert Live(s, op.row, op.now) <==> Holds(s, op.row.k, op.id, op.token, op.now);
    }
  }

  /** Approval is refused unless the row awaits it; it queues the row, and a refusal by the approver
      fails the row and its workflow. */
  lemma ApproveExactly(s: State, k: Key, approved: bool, actor: string)
    ensures var (s', answer) := Approve(s, k, approved, actor);
      && (answer == NotAwaitingApproval <==> k !in s.nodes || s.nodes[k].status != AwaitingApproval)
      && (answer == NotAwaitingApproval ==> s' == s)
      && (answer != NotAwaitingApproval ==>
            && answer == Done && s'.workers == s.workers && s'.events == s.events + [Approval(k, approved, actor)]
            && s'.nodes == s.nodes[k := s.nodes[k].(status := if approved then Queued else NodeFailed)]
            && s'.flows == if approved then s.flows else s.flows[k.flow := FlowFailed])
  {
  }
}
