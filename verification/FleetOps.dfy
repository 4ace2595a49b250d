/** What each public method of the orchestrator does to the database, as a function of the
    rows its queries return; and the invariant that holds between any two calls. */
module FleetOps {
  import opened FleetDag
  import opened FleetState

  datatype Answer =
    | Done
    | Assigned(key: Key, token: Id, expires: Time)
    | Extended(expires: Time)
    | NoWork
    | WorkerNotRegistered
    | LeaseNotActive
    | OverBudget
    | BadArtifactName
    | NotAwaitingApproval
    | PoolLookupFailed

  /** The unordered result of a query, in the order the database happened to return it. */
  ghost predicate Enumerates(order: seq<Key>, rows: set<Key>)
  {
    && (forall i, j :: 0 <= i < j < |order| ==> order[i] != order[j])
    && forall k :: k in order <==> k in rows
  }

  // ---- submit and register ---------------------------------------------------------------

  function NewNode(spec: NodeSpec, at: Time): Node
  {
    Node(
      if spec.dependsOn != [] then Blocked else if spec.approvalRequired then AwaitingApproval else Queued,
      spec.dependsOn, spec.capabilities, spec.tokenBudget, spec.costBudget, spec.approvalRequired,
      0, if spec.maxAttempts < 0 then 0 else spec.maxAttempts, NoLease, at)
  }

  function InsertNodes(nodes: map<Key, Node>, flow: Id, specs: seq<NodeSpec>, at: Time): map<Key, Node>
  {
    if specs == [] then nodes
    else
      var last := specs[|specs| - 1];
      InsertNodes(nodes, flow, specs[..|specs| - 1], at)[Key(flow, last.id) := NewNode(last, at)]
  }

  function Submit(s: State, flow: Id, specs: seq<NodeSpec>, at: Time): State
  {
    s.(flows := s.flows[flow := Running],
       nodes := InsertNodes(s.nodes, flow, specs, at),
       events := s.events + [FlowSubmitted(flow)])
  }

  /** What the request model guarantees of a specification that reaches `submit`. */
  ghost predicate ValidSpec(specs: seq<NodeSpec>)
  {
    && |specs| >= 1
    && (forall i :: 0 <= i < |specs| ==> specs[i].maxAttempts >= 1)
    && UniqueIds(specs) && KnownDependencies(specs) && Acyclic(Edges(specs))
  }

  function Register(s: State, id: Id, worker: Worker): State
  {
    s.(workers := s.workers[id := worker])
  }

  // ---- sweep_expired ----------------------------------------------------------------------

  predicate IsExpired(n: Node, now: Time)
  {
    n.status == Leased && n.lease.Lease? && n.lease.expires < now
  }

  function ExpiredRows(s: State, now: Time): set<Key>
  {
    set k | k in s.nodes && IsExpired(s.nodes[k], now)
  }

  function ExpiredNode(n: Node): Node
  {
    Release(n, RetryOrFail(n.attempts < n.maxAttempts))
  }

  function ExpireOne(s: State, k: Key): State
  {
    if k in s.nodes && s.nodes[k].lease.Lease? then
      var n := s.nodes[k];
      Put(s, k, ExpiredNode(n), Expired(k, n.lease.token, n.attempts < n.maxAttempts))
    else s
  }

  function Sweep(s: State, order: seq<Key>): State
  {
    if order == [] then s else ExpireOne(Sweep(s, order[..|order| - 1]), order[|order| - 1])
  }

  // ---- claim and heartbeat ------------------------------------------------------------------

  function Candidates(s: State, worker: Worker, flow: Id): set<Key>
  {
    set k | k in s.nodes && s.nodes[k].status == Queued && (flow == "" || k.flow == flow)
            && s.nodes[k].capabilities <= worker.capabilities
  }

  predicate StringLess(a: string, b: string)
  {
    b != [] && (a == [] || a[0] < b[0] || (a[0] == b[0] && StringLess(a[1..], b[1..])))
  }

  /** ORDER BY created_at, node_id. */
  predicate Before(s: State, a: Key, b: Key)
    requires a in s.nodes && b in s.nodes
  {
    || s.nodes[a].createdAt < s.nodes[b].createdAt
    || (s.nodes[a].createdAt == s.nodes[b].createdAt && StringLess(a.node, b.node))
  }

  datatype Pick = NonePicked | Picked(k: Key)

  /** The first eligible row in query order; rows tied on both columns may come either way. */
  ghost predicate IsPick(s: State, worker: Worker, flow: Id, pick: Pick)
  {
    var rows := Candidates(s, worker, flow);
    match pick
    case NonePicked => rows == {}
    case Picked(k) => k in rows && forall j :: j in rows ==> !Before(s, j, k)
  }

  function Assign(s: State, id: Id, pick: Pick, token: Id, expires: Time): (r: (State, Answer))
  {
    if id !in s.workers then (s, WorkerNotRegistered)
    else if |LeasesOf(s, id)| >= s.workers[id].maxConcurrency || pick.NonePicked? || pick.k !in s.nodes then (s, NoWork)
    else (Put(s, pick.k, LeaseTo(s.nodes[pick.k], id, token, expires), Granted(pick.k, id, token)),
          Assigned(pick.k, token, expires))
  }

  function Claim(s: State, id: Id, order: seq<Key>, pick: Pick, token: Id, expires: Time): (State, Answer)
  {
    Assign(Sweep(s, order), id, pick, token, expires)
  }

  function HolderRows(s: State, id: Id, token: Id): set<Key>
  {
    set k | k in s.nodes && HeldBy(s.nodes[k], id, token)
  }

  function Heartbeat(s: State, id: Id, token: Id, expires: Time): (State, Answer)
  {
    if HolderRows(s, id, token) == {} then (s, LeaseNotActive)
    else
      (s.(nodes := map k | k in s.nodes ::
        if HeldBy(s.nodes[k], id, token) then s.nodes[k].(lease := Lease(id, token, expires)) else s.nodes[k]),
       Extended(expires))
  }

  // ---- _lease, _advance, complete, fail, approve ----------------------------------------------

  /** `rows[0]` of the `_lease` query. */
  ghost predicate IsRow(s: State, id: Id, token: Id, row: Pick)
  {
    var rows := HolderRows(s, id, token);
    if row.NonePicked? then rows == {} else row.k in rows
  }

  predicate Live(s: State, row: Pick, now: Time)
  {
    row.Picked? && row.k in s.nodes && s.nodes[row.k].lease.Lease? && s.nodes[row.k].lease.expires >= now
  }

  function ReadyRows(s: State, flow: Id): set<Key>
  {
    set k | k in s.nodes && k.flow == flow && s.nodes[k].status == Blocked && ParentsCompleted(s, k)
  }

  function ReadyOne(s: State, k: Key): State
  {
    if k in s.nodes then Put(s, k, MakeReady(s.nodes[k]), Ready(k, s.nodes[k].approvalRequired)) else s
  }

  function ReadyAll(s: State, order: seq<Key>): State
  {
    if order == [] then s else ReadyOne(ReadyAll(s, order[..|order| - 1]), order[|order| - 1])
  }

  predicate AllCompleted(s: State, flow: Id)
  {
    forall k :: k in s.nodes && k.flow == flow ==> s.nodes[k].status == NodeCompleted
  }

  function CloseFlow(s: State, flow: Id): State
  {
    if AllCompleted(s, flow) then
      s.(flows := s.flows[flow := FlowCompleted], events := s.events + [FlowDone(flow)])
    else s
  }

  function Advance(s: State, flow: Id, order: seq<Key>): State
  {
    CloseFlow(ReadyAll(s, order), flow)
  }

  /** `Path(name).name == name and name`, on POSIX paths. */
  predicate PlainName(name: string)
  {
    name != "" && name != "." && '/' !in name
  }

  function FinishNode(s: State, id: Id, token: Id, k: Key): State
    requires k in s.nodes
  {
    Put(s, k, Release(s.nodes[k], NodeCompleted), Finished(k, id, token))
  }

  function Complete(s: State, id: Id, token: Id, tokensUsed: int, cost: real, names: seq<string>,
                    row: Pick, now: Time, order: seq<Key>): (r: (State, Answer))
  {
    if !Live(s, row, now) then (s, LeaseNotActive)
    else
      var n := s.nodes[row.k];
      if tokensUsed > n.tokenBudget || cost > n.costBudget then (s, OverBudget)
      else if exists i :: 0 <= i < |names| && !PlainName(names[i]) then (s, BadArtifactName)
      else if id !in s.workers then
        (s.(nodes := s.nodes[row.k := Release(n, NodeCompleted)]), PoolLookupFailed)
      else (Advance(FinishNode(s, id, token, row.k), row.k.flow, order), Done)
  }

  function FailFlow(s: State, flow: Id): State
  {
    s.(flows := s.flows[flow := FlowFailed])
  }

  function Fail(s: State, id: Id, token: Id, retryable: bool, row: Pick, now: Time): (r: (State, Answer))
  {
    if !Live(s, row, now) then (s, LeaseNotActive)
    else
      var n := s.nodes[row.k];
      var retry := retryable && n.attempts < n.maxAttempts;
      if id !in s.workers then
        (s.(nodes := s.nodes[row.k := Release(n, RetryOrFail(retry))]), PoolLookupFailed)
      else if retry then (Put(s, row.k, Release(n, Queued), Retrying(row.k, id, token)), Done)
      else (FailFlow(Put(s, row.k, Release(n, NodeFailed), GaveUp(row.k, id, token)), row.k.flow), Done)
  }

  function Approve(s: State, k: Key, approved: bool, actor: string): (r: (State, Answer))
  {
    if k !in s.nodes || s.nodes[k].status != AwaitingApproval then (s, NotAwaitingApproval)
    else
      var s1 := Put(s, k, s.nodes[k].(status := RetryOrFail(approved)), Approval(k, approved, actor));
      (if approved then s1 else FailFlow(s1, k.flow), Done)
  }

  // ---- the invariant between calls --------------------------------------------------------------

  ghost predicate FailureRecorded(s: State, flow: Id)
  {
    exists e :: e in s.events && IsFailure(e) && e.key.flow == flow
  }

  ghost predicate FlowOk(s: State, flow: Id)
  {
    && flow in s.flows
    && (exists k :: k in s.nodes && k.flow == flow)
    && (s.flows[flow] == FlowCompleted <==> AllCompleted(s, flow))
    && (s.flows[flow] == FlowFailed <==> FailureRecorded(s, flow))
  }

  /** A blocked node really waits for some parent. */
  ghost predicate Saturated(s: State)
  {
    forall k :: k in s.nodes && s.nodes[k].status == Blocked ==> !ParentsCompleted(s, k)
  }

  ghost predicate IsKeyRank(s: State, rank: map<Key, nat>)
  {
    && rank.Keys == s.nodes.Keys
    && forall k, d :: k in s.nodes && d in s.nodes[k].deps && Key(k.flow, d) in rank ==>
         rank[Key(k.flow, d)] < rank[k]
  }

  ghost predicate Settled(s: State)
  {
    && Saturated(s)
    && (forall f {:trigger FlowOk(s, f)} :: f in s.flows ==> FlowOk(s, f))
    && (exists rank :: IsKeyRank(s, rank))
  }

  ghost predicate OpInv(s: State)
  {
    Inv(s) && Settled(s)
  }

  /** A step that completes nothing, blocks nothing and records no failure keeps the rest settled. */
  ghost predicate Quiet(s: State, s': State)
  {
    && s'.flows == s.flows
    && s'.nodes.Keys == s.nodes.Keys
    && (forall k :: k in s.nodes ==>
         && s'.nodes[k].deps == s.nodes[k].deps
         && (s'.nodes[k].status == NodeCompleted <==> s.nodes[k].status == NodeCompleted)
         && (s'.nodes[k].status == Blocked ==> s.nodes[k].status == Blocked))
    && (forall e :: IsFailure(e) ==> (e in s'.events <==> e in s.events))
  }

  ghost predicate SameGraph(s: State, s': State)
  {
    s'.nodes.Keys == s.nodes.Keys && forall k :: k in s.nodes ==> s'.nodes[k].deps == s.nodes[k].deps
  }

  lemma SameGraphKeepsRank(s: State, s': State)
    requires SameGraph(s, s') && exists rank :: IsKeyRank(s, rank)
    ensures exists rank :: IsKeyRank(s', rank)
  {
    var rank :| IsKeyRank(s, rank);
    assert IsKeyRank(s', rank);
  }

  ghost predicate NothingReadier(s: State, s': State)
  {
    SameGraph(s, s') && forall k :: k in s.nodes ==>
      && (s'.nodes[k].status == NodeCompleted ==> s.nodes[k].status == NodeCompleted)
      && (s'.nodes[k].status == Blocked ==> s.nodes[k].status == Blocked)
  }

  lemma NothingReadierKeepsSaturated(s: State, s': State)
    requires Saturated(s) && NothingReadier(s, s')
    ensures Saturated(s')
  {
    forall k | k in s'.nodes && s'.nodes[k].status == Blocked ensures !ParentsCompleted(s', k) {
      assert !ParentsCompleted(s, k);
    }
  }

  lemma QuietKeepsSettled(s: State, s': State)
    requires Settled(s) && Quiet(s, s')
    ensures Settled(s')
  {
    NothingReadierKeepsSaturated(s, s');
    forall f | f in s'.flows ensures FlowOk(s', f) {
      assert FlowOk(s, f);
      assert FailureRecorded(s, f) <==> FailureRecorded(s', f);
    }
    SameGraphKeepsRank(s, s');
  }

  // ---- register, sweep, claim, heartbeat ------------------------------------------------------------

  predicate SameButExpiry(n: Node, n': Node)
  {
    || n' == n
    || (n.lease.Lease? && n'.lease.Lease? && n' == n.(lease := n.lease.(expires := n'.lease.expires)))
  }

  /** The invariant ignores lease deadlines, worker and workflow rows and workflow events. */
  ghost predicate SameRows(s: State, s': State)
  {
    && s.flows.Keys <= s'.flows.Keys && s.workers.Keys <= s'.workers.Keys
    && s'.nodes.Keys == s.nodes.Keys
    && (forall k :: k in s.nodes ==> SameButExpiry(s.nodes[k], s'.nodes[k]))
    && (forall q :: Count(s'.events, q) == Count(s.events, q))
    && (forall e :: IsMove(e) ==> (e in s'.events <==> e in s.events))
  }

  lemma SameRowsKeepsRow(s: State, s': State, k: Key)
    requires Inv(s) && SameRows(s, s') && k in s.nodes
    ensures RowOk(s', k) && OrderOk(s', k) && WorkOk(s', k)
  {
    assert RowOk(s, k) && OrderOk(s, k) && WorkOk(s, k);
    assert SameButExpiry(s.nodes[k], s'.nodes[k]);
    assert ParentsCompleted(s, k) ==> ParentsCompleted(s', k);
    if actor :| Approval(k, true, actor) in s.events { assert Approval(k, true, actor) in s'.events; }
  }

  lemma SameRowsKeepsInv(s: State, s': State)
    requires Inv(s) && SameRows(s, s')
    ensures Inv(s')
  {
    forall k | k in s'.nodes ensures RowOk(s', k) && OrderOk(s', k) && WorkOk(s', k) {
      SameRowsKeepsRow(s, s', k);
    }
    forall t ensures TokenOk(s', t) {
      assert TokenOk(s, t);
      assert forall k :: HasToken(s', k, t) <==> HasToken(s, k, t);
    }
    forall k ensures StrangerOk(s', k) { assert StrangerOk(s, k); }
    forall e ensures FailureOk(s', e) { assert FailureOk(s, e); }
  }

  lemma RegisterKeepsOpInv(s: State, id: Id, worker: Worker)
    requires OpInv(s)
    ensures OpInv(Register(s, id, worker))
  {
    SameRowsKeepsInv(s, Register(s, id, worker));
    QuietKeepsSettled(s, Register(s, id, worker));
  }

  ghost predicate SweepEffect(s: State, order: seq<Key>, s': State)
  {
    && Quiet(s, s') && s'.workers == s.workers
    && forall k :: k in s.nodes ==>
         s'.nodes[k] == if k in order then ExpiredNode(s.nodes[k]) else s.nodes[k]
  }

  ghost predicate AllLeased(s: State, order: seq<Key>)
  {
    && (forall i, j :: 0 <= i < j < |order| ==> order[i] != order[j])
    && forall k :: k in order ==> k in s.nodes && s.nodes[k].status == Leased && s.nodes[k].lease.Lease?
  }

  lemma {:induction false} SweepHasEffect(s: State, order: seq<Key>)
    requires AllLeased(s, order)
    ensures SweepEffect(s, order, Sweep(s, order))
  {
    if order != [] {
      var rest, k := order[..|order| - 1], order[|order| - 1];
      assert order == rest + [k];
      assert AllLeased(s, rest) && k !in rest;
      SweepHasEffect(s, rest);
      ExpiryHasEffect(s, rest, k, Sweep(s, rest));
    }
  }

  lemma ExpiryHasEffect(s: State, rest: seq<Key>, k: Key, m: State)
    requires SweepEffect(s, rest, m) && k !in rest
    requires k in s.nodes && s.nodes[k].status == Leased && s.nodes[k].lease.Lease?
    ensures SweepEffect(s, rest + [k], ExpireOne(m, k))
  {
  }

  lemma {:induction false} SweepKeepsInv(s: State, order: seq<Key>)
    requires Inv(s) && AllLeased(s, order)
    ensures Inv(Sweep(s, order))
  {
    if order != [] {
      var rest, k := order[..|order| - 1], order[|order| - 1];
      assert AllLeased(s, rest) && k !in rest;
      SweepKeepsInv(s, rest);
      SweepHasEffect(s, rest);
      var m := Sweep(s, rest);
      assert m.nodes[k] == s.nodes[k];
      var n := m.nodes[k];
      MoveKeepsInv(m, k, ExpiredNode(n), Expired(k, n.lease.token, n.attempts < n.maxAttempts));
    }
  }

  lemma SweepKeepsOpInv(s: State, order: seq<Key>, now: Time)
    requires OpInv(s) && Enumerates(order, ExpiredRows(s, now))
    ensures OpInv(Sweep(s, order))
  {
    EnumerationIsLeased(s, order, now);
    SweepHasEffect(s, order);
    SweepKeepsInv(s, order);
    QuietKeepsSettled(s, Sweep(s, order));
  }

  lemma EnumerationIsLeased(s: State, order: seq<Key>, now: Time)
    requires Enumerates(order, ExpiredRows(s, now))
    ensures AllLeased(s, order)
  {
  }

  lemma AssignKeepsOpInv(s: State, id: Id, flow: Id, pick: Pick, token: Id, expires: Time)
    requires OpInv(s) && Count(s.events, TokenGranted(token)) == 0
    requires id in s.workers ==> IsPick(s, s.workers[id], flow, pick)
    ensures OpInv(Assign(s, id, pick, token, expires).0)
  {
    var s' := Assign(s, id, pick, token, expires).0;
    if s' != s {
      MoveKeepsInv(s, pick.k, s'.nodes[pick.k], Granted(pick.k, id, token));
      QuietKeepsSettled(s, s');
    }
  }

  lemma HeartbeatKeepsOpInv(s: State, id: Id, token: Id, expires: Time)
    requires OpInv(s)
    ensures OpInv(Heartbeat(s, id, token, expires).0)
  {
    var s' := Heartbeat(s, id, token, expires).0;
    SameRowsKeepsInv(s, s');
    QuietKeepsSettled(s, s');
  }

  // ---- approve and fail ---------------------------------------------------------------------------

  lemma FailFlowKeepsInv(s: State, flow: Id)
    requires Inv(s)
    ensures Inv(FailFlow(s, flow))
  {
    FlowChangeKeepsInv(s, FailFlow(s, flow));
  }

  /** Workflow rows and workflow events play no part in the node invariant. */
  lemma FlowChangeKeepsInv(s: State, s': State)
    requires Inv(s) && s'.nodes == s.nodes && s'.workers == s.workers && s.flows.Keys <= s'.flows.Keys
    requires s'.events == s.events || exists f :: s'.events == s.events + [FlowDone(f)]
    ensures Inv(s')
  {
    if s'.events != s.events {
      var f :| s'.events == s.events + [FlowDone(f)];
      forall q ensures Count(s'.events, q) == Count(s.events, q) {
        CountAppend(s.events, FlowDone(f), q);
      }
    }
    SameRowsKeepsInv(s, s');
  }

  /** Failing a node and marking its workflow in the same call. */
  lemma FailureKeepsOpInv(s: State, k: Key, n: Node, e: Event)
    requires OpInv(s) && LegalMove(s, k, n, e) && IsFailure(e)
    ensures OpInv(FailFlow(Put(s, k, n, e), k.flow))
  {
    var s1 := Put(s, k, n, e);
    var s' := FailFlow(s1, k.flow);
    MoveKeepsInv(s, k, n, e);
    FailFlowKeepsInv(s1, k.flow);
    assert RowOk(s, k);
    NothingReadierKeepsSaturated(s, s');
    forall f | f in s'.flows ensures FlowOk(s', f) {
      assert FlowOk(s, f);
      FailureKeepsFlow(s, k, n, e, f);
    }
    SameGraphKeepsRank(s, s');
  }

  lemma FailureKeepsFlow(s: State, k: Key, n: Node, e: Event, f: Id)
    requires FlowOk(s, f) && LegalMove(s, k, n, e) && IsFailure(e)
    ensures FlowOk(FailFlow(Put(s, k, n, e), k.flow), f)
  {
    var s' := FailFlow(Put(s, k, n, e), k.flow);
    assert s'.events[|s.events|] == e;
    assert FailureRecorded(s', f) <==> FailureRecorded(s, f) || f == k.flow;
    if f == k.flow {
      assert !AllCompleted(s', f);
    } else {
      assert AllCompleted(s', f) <==> AllCompleted(s, f);
    }
  }

  lemma ApproveKeepsOpInv(s: State, k: Key, approved: bool, actor: string)
    requires OpInv(s)
    ensures OpInv(Approve(s, k, approved, actor).0)
  {
    if k in s.nodes && s.nodes[k].status == AwaitingApproval {
      var n := s.nodes[k].(status := RetryOrFail(approved));
      var e := Approval(k, approved, actor);
      if approved {
        MoveKeepsInv(s, k, n, e);
        QuietKeepsSettled(s, Put(s, k, n, e));
      } else {
        FailureKeepsOpInv(s, k, n, e);
      }
    }
  }

  lemma FailKeepsOpInv(s: State, id: Id, token: Id, retryable: bool, row: Pick, now: Time)
    requires OpInv(s) && IsRow(s, id, token, row)
    ensures OpInv(Fail(s, id, token, retryable, row, now).0)
    ensures !Fail(s, id, token, retryable, row, now).1.PoolLookupFailed?
  {
    if Live(s, row, now) {
      var n := s.nodes[row.k];
      assert RowOk(s, row.k);
      if retryable && n.attempts < n.maxAttempts {
        var e := Retrying(row.k, id, token);
        MoveKeepsInv(s, row.k, Release(n, Queued), e);
        QuietKeepsSettled(s, Put(s, row.k, Release(n, Queued), e));
      } else {
        FailureKeepsOpInv(s, row.k, Release(n, NodeFailed), GaveUp(row.k, id, token));
      }
    }
  }

  // ---- complete --------------------------------------------------------------------------------------

  ghost predicate ReadyEffect(s: State, order: seq<Key>, s': State)
  {
    && s'.flows == s.flows && s'.workers == s.workers
    && s'.nodes.Keys == s.nodes.Keys
    && (forall k :: k in s.nodes ==>
         s'.nodes[k] == if k in order then MakeReady(s.nodes[k]) else s.nodes[k])
    && (forall e :: IsFailure(e) ==> (e in s'.events <==> e in s.events))
  }

  ghost predicate AllReady(s: State, order: seq<Key>)
  {
    && (forall i, j :: 0 <= i < j < |order| ==> order[i] != order[j])
    && forall k :: k in order ==> k in s.nodes && s.nodes[k].status == Blocked && ParentsCompleted(s, k)
  }

  lemma {:induction false} ReadyHasEffect(s: State, order: seq<Key>)
    requires AllReady(s, order)
    ensures ReadyEffect(s, order, ReadyAll(s, order))
  {
    if order != [] {
      var rest, k := order[..|order| - 1], order[|order| - 1];
      assert order == rest + [k];
      assert AllReady(s, rest) && k !in rest;
      ReadyHasEffect(s, rest);
    }
  }

  lemma {:induction false} ReadyKeepsInv(s: State, order: seq<Key>)
    requires Inv(s) && AllReady(s, order)
    ensures Inv(ReadyAll(s, order)) && ReadyEffect(s, order, ReadyAll(s, order))
  {
    ReadyHasEffect(s, order);
    if order != [] {
      var rest, k := order[..|order| - 1], order[|order| - 1];
      assert AllReady(s, rest) && k !in rest;
      ReadyKeepsInv(s, rest);
      var m := ReadyAll(s, rest);
      assert m.nodes[k] == s.nodes[k];
      assert ParentsCompleted(m, k) by {
        forall d | d in m.nodes[k].deps
          ensures Key(k.flow, d) in m.nodes && m.nodes[Key(k.flow, d)].status == NodeCompleted
        {
          var p := Key(k.flow, d);
          assert s.nodes[p].status == NodeCompleted;
          assert p !in rest;
        }
      }
      MoveKeepsInv(m, k, MakeReady(m.nodes[k]), Ready(k, m.nodes[k].approvalRequired));
    }
  }

  /** Releasing every ready child of a workflow restores saturation. */
  lemma ReadyRestoresSaturation(s: State, flow: Id, order: seq<Key>)
    requires Inv(s) && Enumerates(order, ReadyRows(s, flow))
    requires forall k :: k in s.nodes && s.nodes[k].status == Blocked && k.flow != flow ==> !ParentsCompleted(s, k)
    ensures Saturated(ReadyAll(s, order))
  {
    ReadyKeepsInv(s, order);
    var m := ReadyAll(s, order);
    forall k | k in m.nodes && m.nodes[k].status == Blocked ensures !ParentsCompleted(m, k) {
      assert k !in order;
      assert !ParentsCompleted(s, k);
      var d :| d in s.nodes[k].deps && (Key(k.flow, d) in s.nodes ==> s.nodes[Key(k.flow, d)].status != NodeCompleted);
      assert d in m.nodes[k].deps;
    }
  }

  /** `m` is `s` with one leased node completed and some children released. */
  ghost predicate OneMoreCompleted(s: State, k: Key, m: State)
  {
    && m.flows == s.flows && m.nodes.Keys == s.nodes.Keys
    && k in s.nodes && s.nodes[k].status == Leased
    && (forall j :: j in s.nodes ==> m.nodes[j].deps == s.nodes[j].deps)
    && (forall j :: j in s.nodes ==>
          (m.nodes[j].status == NodeCompleted <==> s.nodes[j].status == NodeCompleted || j == k))
    && (forall e :: IsFailure(e) ==> (e in m.events <==> e in s.events))
  }

  lemma CloseKeepsFailures(s: State, k: Key, m: State, f: Id)
    requires OneMoreCompleted(s, k, m)
    ensures FailureRecorded(CloseFlow(m, k.flow), f) <==> FailureRecorded(s, f)
    ensures FailureRecorded(m, f) <==> FailureRecorded(s, f)
  {
    var s' := CloseFlow(m, k.flow);
    assert forall e :: IsFailure(e) ==> (e in s'.events <==> e in s.events);
  }

  /** Only the workflow of the completed node can become complete; it was not before. */
  lemma CloseKeepsCompletion(s: State, k: Key, m: State, f: Id)
    requires OneMoreCompleted(s, k, m)
    ensures f != k.flow ==> (AllCompleted(CloseFlow(m, k.flow), f) <==> AllCompleted(s, f))
    ensures !AllCompleted(s, k.flow)
  {
  }

  lemma FailureExcludesCompletion(m: State, f: Id)
    requires Inv(m) && FailureRecorded(m, f)
    ensures !AllCompleted(m, f)
  {
    var e :| e in m.events && IsFailure(e) && e.key.flow == f;
    assert FailureOk(m, e);
  }

  lemma CloseKeepsFlow(s: State, k: Key, m: State, f: Id)
    requires FlowOk(s, f) && Inv(m) && OneMoreCompleted(s, k, m)
    ensures FlowOk(CloseFlow(m, k.flow), f)
  {
    CloseKeepsFailures(s, k, m, f);
    CloseKeepsCompletion(s, k, m, f);
    if f == k.flow && FailureRecorded(m, f) {
      FailureExcludesCompletion(m, f);
    }
  }

  lemma CloseKeepsOpInv(s: State, k: Key, m: State)
    requires Settled(s) && Inv(m) && OneMoreCompleted(s, k, m) && Saturated(m)
    ensures OpInv(CloseFlow(m, k.flow))
  {
    var s' := CloseFlow(m, k.flow);
    FlowChangeKeepsInv(m, s');
    NothingReadierKeepsSaturated(m, s');
    CloseKeepsFlows(s, k, m);
    SameGraphKeepsRank(s, s');
  }

  lemma CloseKeepsFlows(s: State, k: Key, m: State)
    requires Settled(s) && Inv(m) && OneMoreCompleted(s, k, m)
    ensures var s' := CloseFlow(m, k.flow); forall f {:trigger FlowOk(s', f)} :: f in s'.flows ==> FlowOk(s', f)
  {
    assert RowOk(m, k);
    forall f | f in CloseFlow(m, k.flow).flows ensures FlowOk(CloseFlow(m, k.flow), f) {
      assert FlowOk(s, f);
      CloseKeepsFlow(s, k, m, f);
    }
  }

  lemma OthersStayBlocked(s: State, k: Key, n: Node, e: Event)
    requires OpInv(s) && LegalMove(s, k, n, e) && e.Finished?
    ensures var s1 := Put(s, k, n, e);
      forall j :: j in s1.nodes && s1.nodes[j].status == Blocked && j.flow != k.flow ==> !ParentsCompleted(s1, j)
  {
    var s1 := Put(s, k, n, e);
    forall j | j in s1.nodes && s1.nodes[j].status == Blocked && j.flow != k.flow ensures !ParentsCompleted(s1, j) {
      assert !ParentsCompleted(s, j);
    }
  }

  lemma ReleaseCompletesOne(s: State, k: Key, n: Node, e: Event, order: seq<Key>)
    requires LegalMove(s, k, n, e) && e.Finished?
    requires Enumerates(order, ReadyRows(Put(s, k, n, e), k.flow))
    ensures AllReady(Put(s, k, n, e), order)
    ensures OneMoreCompleted(s, k, ReadyAll(Put(s, k, n, e), order))
  {
    var s1 := Put(s, k, n, e);
    ReadyHasEffect(s1, order);
    ReadyCompletesNone(s, k, n, e, order, ReadyAll(s1, order));
  }

  lemma ReadyCompletesNone(s: State, k: Key, n: Node, e: Event, order: seq<Key>, m: State)
    requires LegalMove(s, k, n, e) && e.Finished?
    requires AllReady(Put(s, k, n, e), order) && ReadyEffect(Put(s, k, n, e), order, m)
    ensures OneMoreCompleted(s, k, m)
  {
  }

  lemma CompletionKeepsOpInv(s: State, k: Key, n: Node, e: Event, order: seq<Key>)
    requires OpInv(s) && LegalMove(s, k, n, e) && e.Finished?
    requires Enumerates(order, ReadyRows(Put(s, k, n, e), k.flow))
    ensures OpInv(Advance(Put(s, k, n, e), k.flow, order))
  {
    MoveKeepsInv(s, k, n, e);
    OthersStayBlocked(s, k, n, e);
    ReleaseCompletesOne(s, k, n, e, order);
    ReadyKeepsInv(Put(s, k, n, e), order);
    ReadyRestoresSaturation(Put(s, k, n, e), k.flow, order);
    CloseKeepsOpInv(s, k, ReadyAll(Put(s, k, n, e), order));
  }

  lemma CompleteKeepsOpInv(s: State, id: Id, token: Id, tokensUsed: int, cost: real, names: seq<string>,
                           row: Pick, now: Time, order: seq<Key>)
    requires OpInv(s) && IsRow(s, id, token, row)
    requires row.Picked? ==> Enumerates(order, ReadyRows(FinishNode(s, id, token, row.k), row.k.flow))
    ensures OpInv(Complete(s, id, token, tokensUsed, cost, names, row, now, order).0)
    ensures !Complete(s, id, token, tokensUsed, cost, names, row, now, order).1.PoolLookupFailed?
  {
    if Live(s, row, now) {
      assert RowOk(s, row.k);
      CompletionKeepsOpInv(s, row.k, Release(s.nodes[row.k], NodeCompleted), Finished(row.k, id, token), order);
    }
  }

  // ---- submit -----------------------------------------------------------------------------------------

  lemma {:induction false} InsertedKeys(nodes: map<Key, Node>, flow: Id, specs: seq<NodeSpec>, at: Time)
    ensures var m := InsertNodes(nodes, flow, specs, at);
      && (forall k :: k in m <==> k in nodes || (k.flow == flow && k.node in Ids(specs)))
      && (forall k :: k in nodes && !(k.flow == flow && k.node in Ids(specs)) ==> m[k] == nodes[k])
  {
    if specs != [] {
      var c := |specs| - 1;
      assert Ids(specs) == Ids(specs[..c]) + [specs[c].id];
      InsertedKeys(nodes, flow, specs[..c], at);
    }
  }

  lemma {:induction false} InsertedNodes(nodes: map<Key, Node>, flow: Id, specs: seq<NodeSpec>, at: Time)
    requires UniqueIds(specs)
    ensures var m := InsertNodes(nodes, flow, specs, at);
      forall i :: 0 <= i < |specs| ==>
        Key(flow, Ids(specs)[i]) in m && m[Key(flow, Ids(specs)[i])] == NewNode(specs[i], at)
  {
    if specs != [] {
      var c := |specs| - 1;
      var rest := specs[..c];
      assert Ids(specs) == Ids(rest) + [specs[c].id];
      assert UniqueIds(rest) by {
        forall a, b | 0 <= a < b < c ensures Ids(rest)[a] != Ids(rest)[b] {
          assert Ids(specs)[a] != Ids(specs)[b];
        }
      }
      InsertedNodes(nodes, flow, rest, at);
      forall i | 0 <= i < c ensures Ids(specs)[i] != specs[c].id {
        assert Ids(specs)[i] != Ids(specs)[c];
      }
      forall i | 0 <= i < c
        ensures InsertNodes(nodes, flow, specs, at)[Key(flow, Ids(specs)[i])] == NewNode(specs[i], at)
      {
        assert Ids(rest)[i] == Ids(specs)[i];
      }
    }
  }

  /** The rows a submission adds. */
  ghost predicate FreshRows(s: State, s': State, flow: Id, specs: seq<NodeSpec>, at: Time)
  {
    && s'.flows == s.flows[flow := Running] && s'.workers == s.workers
    && s'.events == s.events + [FlowSubmitted(flow)]
    && (forall k :: k in s.nodes ==> k in s'.nodes && s'.nodes[k] == s.nodes[k])
    && (forall k :: k in s'.nodes <==> k in s.nodes || (k.flow == flow && k.node in Ids(specs)))
    && (forall i :: 0 <= i < |specs| ==>
          Key(flow, Ids(specs)[i]) in s'.nodes && s'.nodes[Key(flow, Ids(specs)[i])] == NewNode(specs[i], at))
  }

  lemma SubmitAddsRows(s: State, flow: Id, specs: seq<NodeSpec>, at: Time)
    requires Inv(s) && flow !in s.flows && UniqueIds(specs)
    ensures FreshRows(s, Submit(s, flow, specs, at), flow, specs, at)
  {
    InsertedKeys(s.nodes, flow, specs, at);
    InsertedNodes(s.nodes, flow, specs, at);
    forall k | k in s.nodes ensures k.flow != flow {
      assert RowOk(s, k);
    }
  }

  lemma NewRow(s: State, s': State, flow: Id, specs: seq<NodeSpec>, at: Time, k: Key) returns (i: nat)
    requires FreshRows(s, s', flow, specs, at) && k in s'.nodes && k !in s.nodes
    ensures k.flow == flow && i < |specs| && specs[i].id == k.node && s'.nodes[k] == NewNode(specs[i], at)
  {
    i :| 0 <= i < |specs| && Ids(specs)[i] == k.node;
    assert k == Key(flow, Ids(specs)[i]);
  }

  lemma RowsHaveFlows(s: State)
    requires Inv(s)
    ensures forall k :: k in s.nodes ==> k.flow in s.flows
    ensures forall e :: e in s.events && IsFailure(e) ==> e.key.flow in s.flows
  {
    forall k | k in s.nodes ensures k.flow in s.flows { assert RowOk(s, k); }
    forall e | e in s.events && IsFailure(e) ensures e.key.flow in s.flows { assert FailureOk(s, e); }
  }

  lemma NewRowKept(s: State, s': State, flow: Id, specs: seq<NodeSpec>, at: Time, k: Key)
    requires Inv(s) && FreshRows(s, s', flow, specs, at) && ValidSpec(specs) && k in s'.nodes && k !in s.nodes
    requires forall q :: Count(s'.events, q) == Count(s.events, q)
    ensures RowOk(s', k) && OrderOk(s', k) && WorkOk(s', k)
  {
    var i := NewRow(s, s', flow, specs, at, k);
    assert StrangerOk(s, k);
  }

  lemma OldRowKept(s: State, s': State, flow: Id, specs: seq<NodeSpec>, at: Time, k: Key)
    requires Inv(s) && FreshRows(s, s', flow, specs, at) && k in s.nodes
    requires forall q :: Count(s'.events, q) == Count(s.events, q)
    ensures RowOk(s', k) && OrderOk(s', k) && WorkOk(s', k)
  {
    assert RowOk(s, k) && OrderOk(s, k) && WorkOk(s, k);
    assert ParentsCompleted(s, k) ==> ParentsCompleted(s', k);
    if actor :| Approval(k, true, actor) in s.events { assert Approval(k, true, actor) in s'.events; }
  }

  lemma NewRowsHoldNoToken(s: State, s': State, flow: Id, specs: seq<NodeSpec>, at: Time, t: Id)
    requires Inv(s) && FreshRows(s, s', flow, specs, at)
    requires forall q :: Count(s'.events, q) == Count(s.events, q)
    ensures TokenOk(s', t)
  {
    assert TokenOk(s, t);
    forall k ensures HasToken(s', k, t) <==> HasToken(s, k, t) {
      if k in s'.nodes && k !in s.nodes { var i := NewRow(s, s', flow, specs, at, k); }
    }
  }

  lemma SubmissionCountsNothing(s: State, s': State, flow: Id)
    requires s'.events == s.events + [FlowSubmitted(flow)]
    ensures forall q :: Count(s'.events, q) == Count(s.events, q)
  {
    forall q ensures Count(s'.events, q) == Count(s.events, q) {
      CountAppend(s.events, FlowSubmitted(flow), q);
    }
  }

  lemma OldStrangerKept(s: State, s': State, flow: Id, specs: seq<NodeSpec>, at: Time, k: Key)
    requires Inv(s) && FreshRows(s, s', flow, specs, at)
    requires forall q :: Count(s'.events, q) == Count(s.events, q)
    ensures StrangerOk(s', k)
  {
    assert StrangerOk(s, k);
  }

  lemma OldFailureKept(s: State, s': State, flow: Id, specs: seq<NodeSpec>, at: Time, e: Event)
    requires Inv(s) && FreshRows(s, s', flow, specs, at)
    ensures FailureOk(s', e)
  {
    assert FailureOk(s, e);
  }

  lemma SubmitKeepsInv(s: State, s': State, flow: Id, specs: seq<NodeSpec>, at: Time)
    requires Inv(s) && FreshRows(s, s', flow, specs, at) && ValidSpec(specs)
    ensures Inv(s')
  {
    SubmissionCountsNothing(s, s', flow);
    forall k | k in s'.nodes ensures RowOk(s', k) && OrderOk(s', k) && WorkOk(s', k) {
      if k in s.nodes {
        OldRowKept(s, s', flow, specs, at, k);
      } else {
        NewRowKept(s, s', flow, specs, at, k);
      }
    }
    forall t ensures TokenOk(s', t) { NewRowsHoldNoToken(s, s', flow, specs, at, t); }
    forall k ensures StrangerOk(s', k) { OldStrangerKept(s, s', flow, specs, at, k); }
    forall e ensures FailureOk(s', e) { OldFailureKept(s, s', flow, specs, at, e); }
  }

  lemma NewRowRanked(s: State, s': State, flow: Id, specs: seq<NodeSpec>, at: Time, newer: map<Id, nat>, k: Key, d: Id)
    requires FreshRows(s, s', flow, specs, at) && ValidSpec(specs) && IsRank(Edges(specs), newer)
    requires k in s'.nodes && k !in s.nodes && d in s'.nodes[k].deps
    ensures d in newer && k.node in newer && newer[d] < newer[k.node]
  {
    var i := NewRow(s, s', flow, specs, at, k);
    EdgesAt(specs, i);
    assert d in specs[i].dependsOn;
  }

  function RankIn(older: map<Key, nat>, newer: map<Id, nat>, k: Key): nat
  {
    if k in older then older[k] else if k.node in newer then newer[k.node] else 0
  }

  lemma RankDrops(s: State, s': State, flow: Id, specs: seq<NodeSpec>, at: Time,
                  older: map<Key, nat>, newer: map<Id, nat>, k: Key, d: Id)
    requires Inv(s) && flow !in s.flows && FreshRows(s, s', flow, specs, at) && ValidSpec(specs)
    requires IsKeyRank(s, older) && IsRank(Edges(specs), newer)
    requires k in s'.nodes && d in s'.nodes[k].deps
    ensures RankIn(older, newer, Key(k.flow, d)) < RankIn(older, newer, k)
  {
    if k in s.nodes {
      assert RowOk(s, k);
    } else {
      var i := NewRow(s, s', flow, specs, at, k);
      NewRowRanked(s, s', flow, specs, at, newer, k, d);
      RowsHaveFlows(s);
    }
  }

  lemma SubmitKeepsRank(s: State, s': State, flow: Id, specs: seq<NodeSpec>, at: Time)
    requires Inv(s) && flow !in s.flows && FreshRows(s, s', flow, specs, at) && ValidSpec(specs)
    requires exists rank :: IsKeyRank(s, rank)
    ensures exists rank :: IsKeyRank(s', rank)
  {
    var older :| IsKeyRank(s, older);
    var newer :| IsRank(Edges(specs), newer);
    var rank := map k | k in s'.nodes :: RankIn(older, newer, k);
    JointRank(s, s', flow, specs, at, older, newer, rank);
  }

  lemma JointRank(s: State, s': State, flow: Id, specs: seq<NodeSpec>, at: Time,
                  older: map<Key, nat>, newer: map<Id, nat>, rank: map<Key, nat>)
    requires Inv(s) && flow !in s.flows && FreshRows(s, s', flow, specs, at) && ValidSpec(specs)
    requires IsKeyRank(s, older) && IsRank(Edges(specs), newer)
    requires rank.Keys == s'.nodes.Keys && forall k :: k in rank ==> rank[k] == RankIn(older, newer, k)
    ensures IsKeyRank(s', rank)
  {
    forall k, d | k in s'.nodes && d in s'.nodes[k].deps && Key(k.flow, d) in rank
      ensures rank[Key(k.flow, d)] < rank[k]
    {
      RankDrops(s, s', flow, specs, at, older, newer, k, d);
    }
  }

  /** A submitted node starts blocked exactly when it has parents, and none of them has run. */
  lemma NewRowsWait(s: State, s': State, flow: Id, specs: seq<NodeSpec>, at: Time, k: Key)
    requires FreshRows(s, s', flow, specs, at) && ValidSpec(specs) && flow !in s.flows && Inv(s)
    requires k in s'.nodes && k !in s.nodes && s'.nodes[k].status == Blocked
    ensures !ParentsCompleted(s', k)
  {
    var i := NewRow(s, s', flow, specs, at, k);
    var d := specs[i].dependsOn[0];
    assert d in specs[i].dependsOn && d in Ids(specs);
    var p := Key(flow, d);
    RowsHaveFlows(s);
    var j := NewRow(s, s', flow, specs, at, p);
    assert d in s'.nodes[k].deps;
  }

  lemma NewFlowOk(s: State, s': State, flow: Id, specs: seq<NodeSpec>, at: Time)
    requires FreshRows(s, s', flow, specs, at) && ValidSpec(specs) && flow !in s.flows && Inv(s)
    ensures FlowOk(s', flow)
  {
    var k := Key(flow, Ids(specs)[0]);
    assert s'.nodes[k] == NewNode(specs[0], at);
    RowsHaveFlows(s);
  }

  lemma SubmitKeepsOpInv(s: State, flow: Id, specs: seq<NodeSpec>, at: Time)
    requires OpInv(s) && flow !in s.flows && ValidSpec(specs)
    ensures OpInv(Submit(s, flow, specs, at))
  {
    var s' := Submit(s, flow, specs, at);
    SubmitAddsRows(s, flow, specs, at);
    SubmitKeepsInv(s, s', flow, specs, at);
    SubmitKeepsRank(s, s', flow, specs, at);
    forall k | k in s'.nodes && s'.nodes[k].status == Blocked ensures !ParentsCompleted(s', k) {
      if k in s.nodes {
        assert RowOk(s, k) && !ParentsCompleted(s, k);
      } else {
        NewRowsWait(s, s', flow, specs, at, k);
      }
    }
    forall f | f in s'.flows ensures FlowOk(s', f) {
      if f == flow {
        NewFlowOk(s, s', flow, specs, at);
      } else {
        assert FlowOk(s, f);
        assert FailureRecorded(s', f) <==> FailureRecorded(s, f);
        assert AllCompleted(s', f) <==> AllCompleted(s, f);
      }
    }
  }
}
