/** The `Orchestrator` class: methods that update the database rows in place, statement by
    statement as the source does, proved against the operations of FleetOps. */
module FleetOrchestrator {
  import opened FleetDag
  import opened FleetState
  import opened FleetOps
  import opened FleetRuns

  lemma SweepExtends(s: State, order: seq<Key>, k: Key)
    ensures Sweep(s, order + [k]) == ExpireOne(Sweep(s, order), k)
  {
    assert (order + [k])[..|order|] == order;
  }

  lemma ReadyExtends(s: State, order: seq<Key>, k: Key)
    ensures ReadyAll(s, order + [k]) == ReadyOne(ReadyAll(s, order), k)
  {
    assert (order + [k])[..|order|] == order;
  }

  lemma {:induction false} SweepGrantsNothing(s: State, order: seq<Key>, t: Id)
    ensures Count(Sweep(s, order).events, TokenGranted(t)) == Count(s.events, TokenGranted(t))
  {
    if order != [] {
      var rest, k := order[..|order| - 1], order[|order| - 1];
      SweepGrantsNothing(s, rest, t);
      ExpiryGrantsNothing(Sweep(s, rest), k, t);
    }
  }

  lemma ExpiryGrantsNothing(s: State, k: Key, t: Id)
    ensures Count(ExpireOne(s, k).events, TokenGranted(t)) == Count(s.events, TokenGranted(t))
  {
    if k in s.nodes && s.nodes[k].lease.Lease? {
      var n := s.nodes[k];
      CountAppend(s.events, Expired(k, n.lease.token, n.attempts < n.maxAttempts), TokenGranted(t));
    }
  }

  lemma ClaimIsLegal(s: State, op: Op)
    requires OpInv(s) && op.OpClaim? && Enumerates(op.order, ExpiredRows(s, op.now))
    requires Count(s.events, TokenGranted(op.token)) == 0
    requires op.id in s.workers ==> IsPick(Sweep(s, op.order), s.workers[op.id], op.flow, op.pick)
    ensures Legal(s, op) && OpInv(Apply(s, op))
  {
    SweepGrantsNothing(s, op.order, op.token);
    StepKeepsOpInv(s, op);
  }

  /** The set of rows left to visit shrinks by the row just released. */
  lemma EnumerationGrows(order: seq<Key>, rows: set<Key>, todo: set<Key>, k: Key)
    requires Enumerates(order, rows - todo) && k in todo
    ensures k in rows ==> Enumerates(order + [k], rows - (todo - {k}))
    ensures k !in rows ==> Enumerates(order, rows - (todo - {k}))
  {
    if k !in rows {
      assert rows - (todo - {k}) == rows - todo;
    }
  }

  lemma {:induction false} EnumerationExists(rows: set<Key>) returns (order: seq<Key>)
    ensures Enumerates(order, rows)
  {
    if rows == {} {
      order := [];
    } else {
      var k :| k in rows;
      var rest := EnumerationExists(rows - {k});
      order := rest + [k];
    }
  }

  lemma {:induction false} StringLessTransitive(a: string, b: string, c: string)
    requires StringLess(a, b) && StringLess(b, c)
    ensures StringLess(a, c)
  {
    if a != [] && a[0] == b[0] && b[0] == c[0] {
      StringLessTransitive(a[1..], b[1..], c[1..]);
    }
  }

  lemma BeforeTransitive(s: State, a: Key, b: Key, c: Key)
    requires a in s.nodes && b in s.nodes && c in s.nodes && Before(s, a, b) && Before(s, b, c)
    ensures Before(s, a, c)
  {
    if s.nodes[a].createdAt == s.nodes[b].createdAt == s.nodes[c].createdAt {
      StringLessTransitive(a.node, b.node, c.node);
    }
  }

  class Orchestrator {
    var flows: map<Id, FlowStatus>
    var nodes: map<Key, Node>
    var workers: map<Id, Worker>
    var events: seq<Event>
    const leaseSeconds: Time

    constructor (leaseSeconds: Time)
      ensures St() == EMPTY && Valid() && this.leaseSeconds == leaseSeconds
    {
      flows, nodes, workers, events := map[], map[], map[], [];
      this.leaseSeconds := leaseSeconds;
      new;
      EmptyOpInv();
    }

    function St(): State
      reads this
    {
      State(flows, nodes, workers, events)
    }

    ghost predicate Valid()
      reads this
    {
      OpInv(St())
    }

    method Submit(flow: Id, specs: seq<NodeSpec>, at: Time)
      requires Valid() && flow !in flows && ValidSpec(specs)
      modifies this
      ensures Valid() && St() == FleetOps.Submit(old(St()), flow, specs, at)
    {
      flows := flows[flow := Running];
      for i := 0 to |specs|
        invariant nodes == InsertNodes(old(nodes), flow, specs[..i], at)
        invariant flows == old(flows)[flow := Running] && workers == old(workers) && events == old(events)
      {
        assert specs[..i + 1][..i] == specs[..i];
        nodes := nodes[Key(flow, specs[i].id) := NewNode(specs[i], at)];
      }
      assert specs[..|specs|] == specs;
      events := events + [FlowSubmitted(flow)];
      SubmitKeepsOpInv(old(St()), flow, specs, at);
    }

    method Register(id: Id, worker: Worker)
      requires Valid()
      modifies this
      ensures Valid() && St() == FleetOps.Register(old(St()), id, worker)
      ensures workers == old(workers)[id := worker] && nodes == old(nodes) && flows == old(flows) && events == old(events)
    {
      workers := workers[id := worker];
      RegisterKeepsOpInv(old(St()), id, worker);
    }

    /** The update and the event of one expired row. */
    method ExpireRow(k: Key, row: Node)
      requires k in nodes && nodes[k] == row && row.lease.Lease?
      modifies `nodes, `events
      ensures St() == ExpireOne(old(St()), k)
    {
      var retry := row.attempts < row.maxAttempts;
      nodes := nodes[k := nodes[k].(status := if retry then Queued else NodeFailed, lease := NoLease)];
      events := events + [Expired(k, row.lease.token, retry)];
    }

    /** Works from a snapshot of the expired rows, one update and one event per row. */
    method SweepExpired(now: Time) returns (count: nat, ghost order: seq<Key>)
      requires Valid()
      modifies this
      ensures Valid() && St() == Sweep(old(St()), order) && Enumerates(order, ExpiredRows(old(St()), now))
      ensures count == |ExpiredRows(old(St()), now)| && workers == old(workers)
    {
      var snapshot := nodes;
      var expired := set k | k in nodes && IsExpired(nodes[k], now);
      assert expired == ExpiredRows(St(), now);
      var todo := expired;
      count, order := |todo|, [];
      while todo != {}
        invariant todo <= expired <= snapshot.Keys
        invariant St() == Sweep(old(St()), order)
        invariant Enumerates(order, expired - todo)
        invariant nodes.Keys == old(nodes).Keys && workers == old(workers)
        invariant forall k :: k in todo ==> nodes[k] == snapshot[k]
        decreases todo
      {
        var k :| k in todo;
        var row := snapshot[k];
        SweepExtends(old(St()), order, k);
        ExpireRow(k, row);
        order := order + [k];
        todo := todo - {k};
      }
      assert expired - todo == expired;
      SweepKeepsOpInv(old(St()), order, now);
    }

    method FirstOf(rows: set<Key>) returns (best: Key)
      requires rows != {} && rows <= nodes.Keys
      ensures best in rows && forall j :: j in rows ==> !Before(St(), j, best)
    {
      var todo := rows;
      best :| best in rows;
      while todo != {}
        invariant todo <= rows && best in rows
        invariant forall j :: j in rows - todo ==> !Before(St(), j, best)
        decreases todo
      {
        var k :| k in todo;
        if Before(St(), k, best) {
          forall j | j in rows - todo ensures !Before(St(), j, k) {
            if Before(St(), j, k) { BeforeTransitive(St(), j, k, best); }
          }
          Irreflexive(k.node);
          best := k;
        }
        todo := todo - {k};
      }
    }

    static lemma Irreflexive(a: string)
      ensures !StringLess(a, a)
    {
    }

    /** SELECT ... WHERE status='queued' ORDER BY created_at, node_id. */
    method QueuedRows(flow: Id) returns (rows: seq<Key>)
      ensures forall k :: k in rows <==> k in nodes && nodes[k].status == Queued && (flow == "" || k.flow == flow)
      ensures forall i, j :: 0 <= i < j < |rows| ==> rows[i] in nodes && rows[j] in nodes && !Before(St(), rows[j], rows[i])
    {
      var todo := set k | k in nodes && nodes[k].status == Queued && (flow == "" || k.flow == flow);
      ghost var all := todo;
      rows := [];
      while todo != {}
        invariant todo <= all
        invariant forall k :: k in rows <==> k in all - todo
        invariant forall i :: 0 <= i < |rows| ==> rows[i] in nodes
        invariant forall i, j :: 0 <= i < j < |rows| ==> !Before(St(), rows[j], rows[i])
        invariant forall i, j :: 0 <= i < |rows| && j in todo ==> !Before(St(), j, rows[i])
        decreases todo
      {
        var k := FirstOf(todo);
        rows := rows + [k];
        todo := todo - {k};
      }
    }

    /** The first queued row whose capabilities the worker has. */
    method PickRow(worker: Worker, flow: Id) returns (pick: Pick)
      ensures IsPick(St(), worker, flow, pick)
    {
      var rows := QueuedRows(flow);
      pick := NonePicked;
      var i := 0;
      while i < |rows| && pick.NonePicked?
        invariant 0 <= i <= |rows|
        invariant pick.NonePicked? ==> forall j :: 0 <= j < i ==> !(nodes[rows[j]].capabilities <= worker.capabilities)
        invariant pick.Picked? ==> i > 0 && pick.k == rows[i - 1] && IsPick(St(), worker, flow, pick)
      {
        if nodes[rows[i]].capabilities <= worker.capabilities {
          pick := Picked(rows[i]);
          forall j | j in Candidates(St(), worker, flow) ensures !Before(St(), j, rows[i]) {
            var at :| 0 <= at < |rows| && rows[at] == j;
            if at == i { Irreflexive(j.node); }
          }
        }
        i := i + 1;
      }
      assert pick.NonePicked? ==> Candidates(St(), worker, flow) == {};
    }

    method GrantLease(id: Id, k: Key, token: Id, expires: Time)
      requires k in nodes
      modifies `nodes, `events
      ensures St() == Put(old(St()), k, LeaseTo(old(nodes)[k], id, token, expires), Granted(k, id, token))
    {
      nodes := nodes[k := nodes[k].(
        status := Leased, lease := Lease(id, token, expires), attempts := nodes[k].attempts + 1)];
      events := events + [Granted(k, id, token)];
    }

    /** From the worker row on: the concurrency check, the pick and the grant. */
    method GrantFirst(id: Id, flow: Id, token: Id, expires: Time) returns (answer: Answer, ghost pick: Pick)
      modifies `nodes, `events
      ensures id in workers ==> IsPick(old(St()), workers[id], flow, pick)
      ensures (St(), answer) == Assign(old(St()), id, pick, token, expires)
    {
      pick := NonePicked;
      if id !in workers {
        return WorkerNotRegistered, pick;
      }
      var row := PickRow(workers[id], flow);
      pick := row;
      if |LeasesOf(St(), id)| >= workers[id].maxConcurrency || row.NonePicked? {
        return NoWork, pick;
      }
      GrantLease(id, row.k, token, expires);
      return Assigned(row.k, token, expires), pick;
    }

    method SweepAndGrant(id: Id, flow: Id, now: Time, token: Id, expires: Time)
      returns (answer: Answer, ghost order: seq<Key>, ghost pick: Pick)
      requires Valid()
      modifies this
      ensures Enumerates(order, ExpiredRows(old(St()), now))
      ensures id in old(workers) ==> IsPick(Sweep(old(St()), order), old(workers)[id], flow, pick)
      ensures (St(), answer) == FleetOps.Claim(old(St()), id, order, pick, token, expires)
    {
      var count;
      count, order := SweepExpired(now);
      answer, pick := GrantFirst(id, flow, token, expires);
    }

    method Claim(id: Id, flow: Id, now: Time, token: Id, later: Time) returns (answer: Answer, ghost op: Op)
      requires Valid() && Count(events, TokenGranted(token)) == 0
      modifies this
      ensures Valid()
      ensures op.OpClaim? && op.id == id && op.flow == flow && op.now == now && op.token == token
      ensures op.expires == later + leaseSeconds
      ensures Legal(old(St()), op) && St() == Apply(old(St()), op)
      ensures answer == FleetOps.Claim(old(St()), id, op.order, op.pick, token, later + leaseSeconds).1
    {
      ghost var order, pick;
      answer, order, pick := SweepAndGrant(id, flow, now, token, later + leaseSeconds);
      op := OpClaim(id, flow, now, order, pick, token, later + leaseSeconds);
      ClaimIsLegal(old(St()), op);
    }

    /** Note that the deadline is not consulted: an expired lease that was not swept is revived. */
    method Heartbeat(id: Id, token: Id, now: Time) returns (answer: Answer)
      requires Valid()
      modifies this
      ensures Valid()
      ensures (St(), answer) == FleetOps.Heartbeat(old(St()), id, token, now + leaseSeconds)
    {
      var expires := now + leaseSeconds;
      HeartbeatKeepsOpInv(St(), id, token, expires);
      var changed := HolderRows(St(), id, token);
      if changed == {} {
        return LeaseNotActive;
      }
      nodes := map k | k in nodes ::
        if HeldBy(nodes[k], id, token) then nodes[k].(lease := Lease(id, token, expires)) else nodes[k];
      return Extended(expires);
    }

    /** `_lease`: the first matching row, or none; the deadline is checked by the caller here. */
    method FindLease(id: Id, token: Id) returns (row: Pick)
      ensures IsRow(St(), id, token, row)
    {
      var rows := HolderRows(St(), id, token);
      if rows == {} {
        return NonePicked;
      }
      var k :| k in rows;
      return Picked(k);
    }

    /** The loop of `_advance`: decides from a snapshot of the statuses, row by row. */
    method ReleaseReady(flow: Id) returns (ghost order: seq<Key>)
      modifies this
      ensures Enumerates(order, ReadyRows(old(St()), flow))
      ensures St() == ReadyAll(old(St()), order)
    {
      var snapshot := nodes;
      ghost var ready := ReadyRows(St(), flow);
      var todo := set k | k in nodes && k.flow == flow;
      order := [];
      while todo != {}
        invariant forall k :: k in todo ==> k in snapshot && k.flow == flow
        invariant St() == ReadyAll(old(St()), order)
        invariant Enumerates(order, ready - todo)
        invariant nodes.Keys == snapshot.Keys
        invariant forall k :: k in todo ==> nodes[k] == snapshot[k]
        decreases todo
      {
        var k :| k in todo;
        var row := snapshot[k];
        var isReady := row.status == Blocked && forall d :: d in row.deps ==>
          Key(flow, d) in snapshot && snapshot[Key(flow, d)].status == NodeCompleted;
        assert isReady <==> k in ready;
        EnumerationGrows(order, ready, todo, k);
        if isReady {
          ReadyExtends(old(St()), order, k);
          nodes := nodes[k := row.(status := if row.approvalRequired then AwaitingApproval else Queued)];
          events := events + [Ready(k, row.approvalRequired)];
          order := order + [k];
        }
        todo := todo - {k};
      }
      assert ready - todo == ready;
    }

    /** `_advance`: releases the ready children, then closes the workflow if all its rows completed. */
    method Advance(flow: Id) returns (ghost order: seq<Key>)
      modifies this
      ensures Enumerates(order, ReadyRows(old(St()), flow))
      ensures St() == FleetOps.Advance(old(St()), flow, order)
    {
      order := ReleaseReady(flow);
      if AllCompleted(St(), flow) {
        flows := flows[flow := FlowCompleted];
        events := events + [FlowDone(flow)];
      }
    }

    method Complete(id: Id, token: Id, tokensUsed: int, cost: real, names: seq<string>, now: Time)
      returns (answer: Answer, ghost op: Op)
      requires Valid()
      modifies this
      ensures Valid()
      ensures op.OpComplete? && op.id == id && op.token == token && op.tokensUsed == tokensUsed
      ensures op.cost == cost && op.names == names && op.now == now
      ensures Legal(old(St()), op) && St() == Apply(old(St()), op)
      ensures answer == FleetOps.Complete(old(St()), id, token, tokensUsed, cost, names, op.row, now, op.order).1
      ensures !answer.PoolLookupFailed?
    {
      var row := FindLease(id, token);
      ghost var order := [];
      if row.Picked? {
        order := EnumerationExists(ReadyRows(FinishNode(St(), id, token, row.k), row.k.flow));
      }
      op := OpComplete(id, token, tokensUsed, cost, names, row, now, order);
      if !Live(St(), row, now) {
        return LeaseNotActive, op;
      }
      var n := nodes[row.k];
      if tokensUsed > n.tokenBudget || cost > n.costBudget {
        return OverBudget, op;
      }
      for i := 0 to |names|
        invariant forall j :: 0 <= j < i ==> PlainName(names[j])
      {
        if !PlainName(names[i]) {
          return BadArtifactName, op;
        }
      }
      assert id in workers by { assert RowOk(St(), row.k); }
      nodes := nodes[row.k := n.(status := NodeCompleted, lease := NoLease)];
      events := events + [Finished(row.k, id, token)];
      assert St() == FinishNode(old(St()), id, token, row.k);
      order := Advance(row.k.flow);
      op := OpComplete(id, token, tokensUsed, cost, names, row, now, order);
      CompleteKeepsOpInv(old(St()), id, token, tokensUsed, cost, names, row, now, order);
      return Done, op;
    }

    method Fail(id: Id, token: Id, retryable: bool, now: Time) returns (answer: Answer, ghost op: Op)
      requires Valid()
      modifies this
      ensures Valid()
      ensures op.OpFail? && op.id == id && op.token == token && op.retryable == retryable && op.now == now
      ensures Legal(old(St()), op) && St() == Apply(old(St()), op)
      ensures answer == FleetOps.Fail(old(St()), id, token, retryable, op.row, now).1
      ensures !answer.PoolLookupFailed?
    {
      var row := FindLease(id, token);
      op := OpFail(id, token, retryable, row, now);
      FailKeepsOpInv(St(), id, token, retryable, row, now);
      if !Live(St(), row, now) {
        return LeaseNotActive, op;
      }
      var n := nodes[row.k];
      var retry := retryable && n.attempts < n.maxAttempts;
      assert id in workers by { assert RowOk(St(), row.k); }
      nodes := nodes[row.k := n.(status := if retry then Queued else NodeFailed, lease := NoLease)];
      events := events + [if retry then Retrying(row.k, id, token) else GaveUp(row.k, id, token)];
      if !retry {
        flows := flows[row.k.flow := FlowFailed];
      }
      return Done, op;
    }

    method Approve(key: Key, approved: bool, actor: string) returns (answer: Answer)
      requires Valid()
      modifies this
      ensures Valid()
      ensures (St(), answer) == FleetOps.Approve(old(St()), key, approved, actor)
    {
      ApproveKeepsOpInv(St(), key, approved, actor);
      if key !in nodes || nodes[key].status != AwaitingApproval {
        return NotAwaitingApproval;
      }
      nodes := nodes[key := nodes[key].(status := if approved then Queued else NodeFailed)];
      events := events + [Approval(key, approved, actor)];
      if !approved {
        flows := flows[key.flow := FlowFailed];
      }
      return Done;
    }
  }
}
