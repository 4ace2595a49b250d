/** Rows of the Fleet database, its event table, and the nine status moves a node can make
    (services/fleet/src/evoagent_fleet/orchestrator.py and store.py). */
module FleetState {
  import opened FleetDag

  type Time = real

  datatype NodeStatus = Blocked | AwaitingApproval | Queued | Leased | NodeCompleted | NodeFailed

  datatype FlowStatus = Running | FlowCompleted | FlowFailed

  datatype Key = Key(flow: Id, node: Id)

  // The three lease columns of a node row are always written together.
  datatype LeaseInfo = NoLease | Lease(worker: Id, token: Id, expires: Time)

  datatype Node = Node(
    status: NodeStatus,
    deps: seq<Id>,
    capabilities: set<string>,
    tokenBudget: int,
    costBudget: real,
    approvalRequired: bool,
    attempts: nat,
    maxAttempts: nat,
    lease: LeaseInfo,
    createdAt: Time)

  datatype Worker = Worker(capabilities: set<string>, maxConcurrency: nat)

  // The event table. Lease tokens are added to the payloads so that runs can speak of them.
  datatype Event =
    | FlowSubmitted(flow: Id)
    | FlowDone(flow: Id)
    | Ready(key: Key, approvalNext: bool)
    | Approval(key: Key, approved: bool, actor: string)
    | Granted(key: Key, worker: Id, token: Id)
    | Finished(key: Key, worker: Id, token: Id)
    | Retrying(key: Key, worker: Id, token: Id)
    | GaveUp(key: Key, worker: Id, token: Id)
    | Expired(key: Key, token: Id, retry: bool)

  datatype State = State(
    flows: map<Id, FlowStatus>,
    nodes: map<Key, Node>,
    workers: map<Id, Worker>,
    events: seq<Event>)

  const EMPTY := State(map[], map[], map[], [])

  // ---- counting events ------------------------------------------------------------------

  predicate IsMove(e: Event) { !e.FlowSubmitted? && !e.FlowDone? }

  predicate IsEnding(e: Event) { e.Finished? || e.Retrying? || e.GaveUp? || e.Expired? }

  predicate IsFailure(e: Event) { e.GaveUp? || (e.Approval? && !e.approved) }

  datatype Query =
    | MovesOf(k: Key)
    | GrantsOf(k: Key)
    | MovesIn(f: Id)
    | GrantsIn(f: Id)
    | TokenGranted(t: Id)
    | TokenEnded(t: Id)

  predicate Matches(e: Event, q: Query)
  {
    match q
    case MovesOf(k) => IsMove(e) && e.key == k
    case GrantsOf(k) => e.Granted? && e.key == k
    case MovesIn(f) => IsMove(e) && e.key.flow == f
    case GrantsIn(f) => e.Granted? && e.key.flow == f
    case TokenGranted(t) => e.Granted? && e.token == t
    case TokenEnded(t) => IsEnding(e) && e.token == t
  }

  function Count(events: seq<Event>, q: Query): nat
  {
    if events == [] then 0
    else Count(events[..|events| - 1], q) + if Matches(events[|events| - 1], q) then 1 else 0
  }

  lemma CountAppend(events: seq<Event>, e: Event, q: Query)
    ensures Count(events + [e], q) == Count(events, q) + if Matches(e, q) then 1 else 0
  {
    assert (events + [e])[..|events|] == events;
  }

  // ---- the moves of one node -------------------------------------------------------------

  function LeaseTo(n: Node, worker: Id, token: Id, expires: Time): Node
  {
    n.(status := Leased, lease := Lease(worker, token, expires), attempts := n.attempts + 1)
  }

  function Release(n: Node, status: NodeStatus): Node
  {
    n.(status := status, lease := NoLease)
  }

  function MakeReady(n: Node): Node
  {
    n.(status := if n.approvalRequired then AwaitingApproval else Queued)
  }

  function RetryOrFail(retry: bool): NodeStatus
  {
    if retry then Queued else NodeFailed
  }

  function Put(s: State, k: Key, n: Node, e: Event): State
  {
    s.(nodes := s.nodes[k := n], events := s.events + [e])
  }

  predicate ParentsCompleted(s: State, k: Key)
    requires k in s.nodes
  {
    forall d :: d in s.nodes[k].deps ==>
      Key(k.flow, d) in s.nodes && s.nodes[Key(k.flow, d)].status == NodeCompleted
  }

  predicate HeldBy(n: Node, worker: Id, token: Id)
  {
    n.status == Leased && n.lease.Lease? && n.lease.worker == worker && n.lease.token == token
  }

  /** Every status write the orchestrator makes is one of these moves, logged by its event. */
  ghost predicate LegalMove(s: State, k: Key, n: Node, e: Event)
  {
    && k in s.nodes
    && IsMove(e) && e.key == k
    && var o := s.nodes[k];
       match e
       case Ready(_, next) =>
         o.status == Blocked && ParentsCompleted(s, k) && n == MakeReady(o) && next == o.approvalRequired
       case Approval(_, approved, _) =>
         o.status == AwaitingApproval && n == o.(status := RetryOrFail(approved))
       case Granted(_, w, t) =>
         && o.status == Queued && w in s.workers && Count(s.events, TokenGranted(t)) == 0
         && n.lease.Lease? && n == LeaseTo(o, w, t, n.lease.expires)
       case Finished(_, w, t) =>
         HeldBy(o, w, t) && n == Release(o, NodeCompleted)
       case Retrying(_, w, t) =>
         HeldBy(o, w, t) && o.attempts < o.maxAttempts && n == Release(o, Queued)
       case GaveUp(_, w, t) =>
         HeldBy(o, w, t) && n == Release(o, NodeFailed)
       case Expired(_, t, retry) =>
         && o.status == Leased && o.lease.Lease? && o.lease.token == t
         && retry == (o.attempts < o.maxAttempts) && n == Release(o, RetryOrFail(retry))
       case _ => false
  }

  // ---- the invariant every move keeps ------------------------------------------------------

  /** Strictly drops at every move; see `MoveLowersMeasure`. */
  function Measure(n: Node): int
  {
    match n.status
    case Blocked => 2 * n.maxAttempts + 2
    case AwaitingApproval => 2 * n.maxAttempts + 1
    case Queued => 2 * (n.maxAttempts - n.attempts)
    case Leased => 2 * (n.maxAttempts - n.attempts) + 1
    case NodeCompleted => 0
    case NodeFailed => 0
  }

  ghost predicate ApprovalRecorded(events: seq<Event>, k: Key)
  {
    exists actor :: Approval(k, true, actor) in events
  }

  ghost predicate RowOk(s: State, k: Key)
    requires k in s.nodes
  {
    var n := s.nodes[k];
    && k.flow in s.flows
    && 1 <= n.maxAttempts && n.attempts <= n.maxAttempts
    && (forall d :: d in n.deps ==> Key(k.flow, d) in s.nodes)
    && (n.status == Leased <==> n.lease.Lease?)
    && (n.status == Leased ==> n.attempts >= 1 && n.lease.worker in s.workers)
    && (n.status == Queued ==> n.attempts < n.maxAttempts)
    && (n.status == Blocked || n.status == AwaitingApproval ==> n.attempts == 0)
    && (n.status == AwaitingApproval ==> n.approvalRequired)
  }

  ghost predicate OrderOk(s: State, k: Key)
    requires k in s.nodes
  {
    var n := s.nodes[k];
    && (n.status != Blocked ==> ParentsCompleted(s, k))
    && (n.approvalRequired && n.status in {Queued, Leased, NodeCompleted} ==> ApprovalRecorded(s.events, k))
  }

  ghost predicate WorkOk(s: State, k: Key)
    requires k in s.nodes
  {
    var n := s.nodes[k];
    && Count(s.events, MovesOf(k)) + Measure(n) <= 2 * n.maxAttempts + 2
    && Count(s.events, GrantsOf(k)) == n.attempts
  }

  ghost predicate HasToken(s: State, k: Key, t: Id)
  {
    k in s.nodes && s.nodes[k].status == Leased && s.nodes[k].lease.Lease? && s.nodes[k].lease.token == t
  }

  ghost predicate Held(s: State, t: Id)
  {
    exists k :: HasToken(s, k, t)
  }

  /** A token is granted at most once; it is either held by exactly one node or has ended once. */
  ghost predicate TokenOk(s: State, t: Id)
  {
    && Count(s.events, TokenGranted(t)) <= 1
    && (forall k, k' :: HasToken(s, k, t) && HasToken(s, k', t) ==> k == k')
    && Count(s.events, TokenEnded(t)) ==
       Count(s.events, TokenGranted(t)) - if Held(s, t) then 1 else 0
  }

  /** No event mentions a row that does not exist, and a recorded failure is final. */
  ghost predicate StrangerOk(s: State, k: Key)
  {
    k !in s.nodes ==> Count(s.events, MovesOf(k)) == 0 && Count(s.events, GrantsOf(k)) == 0
  }

  ghost predicate FailureOk(s: State, e: Event)
  {
    e in s.events && IsFailure(e) ==> e.key in s.nodes && s.nodes[e.key].status == NodeFailed
  }

  // The triggers keep each conjunct folded until a proof names it.
  ghost predicate Inv(s: State)
  {
    && (forall k {:trigger RowOk(s, k)} :: k in s.nodes ==> RowOk(s, k))
    && (forall k {:trigger OrderOk(s, k)} :: k in s.nodes ==> OrderOk(s, k))
    && (forall k {:trigger WorkOk(s, k)} :: k in s.nodes ==> WorkOk(s, k))
    && (forall t {:trigger TokenOk(s, t)} :: TokenOk(s, t))
    && (forall k {:trigger StrangerOk(s, k)} :: StrangerOk(s, k))
    && (forall e {:trigger FailureOk(s, e)} :: FailureOk(s, e))
  }

  lemma MoveLowersMeasure(s: State, k: Key, n: Node, e: Event)
    requires k in s.nodes && RowOk(s, k) && LegalMove(s, k, n, e)
    ensures 0 <= Measure(n) < Measure(s.nodes[k])
  {
  }

  lemma MoveKeepsRows(s: State, k: Key, n: Node, e: Event, k': Key)
    requires Inv(s) && LegalMove(s, k, n, e) && k' in s.nodes
    ensures RowOk(Put(s, k, n, e), k')
  {
    assert RowOk(s, k') && RowOk(s, k);
  }

  lemma MoveKeepsOrder(s: State, k: Key, n: Node, e: Event, k': Key)
    requires Inv(s) && LegalMove(s, k, n, e) && k' in s.nodes
    ensures OrderOk(Put(s, k, n, e), k')
  {
    var s' := Put(s, k, n, e);
    assert RowOk(s, k') && OrderOk(s, k') && RowOk(s, k) && OrderOk(s, k);
    var n' := s'.nodes[k'];
    if n'.status != Blocked {
      assert ParentsCompleted(s, k');
      assert s.nodes[k].status != NodeCompleted;
    }
    if n'.approvalRequired && n'.status in {Queued, Leased, NodeCompleted} {
      if k' == k && e.Approval? {
        assert s'.events[|s.events|] == e;
      } else {
        var actor :| Approval(k', true, actor) in s.events;
        assert Approval(k', true, actor) in s'.events;
      }
    }
  }

  lemma MoveKeepsWork(s: State, k: Key, n: Node, e: Event, k': Key)
    requires Inv(s) && LegalMove(s, k, n, e) && k' in s.nodes
    ensures WorkOk(Put(s, k, n, e), k')
  {
    assert RowOk(s, k) && WorkOk(s, k) && WorkOk(s, k');
    MoveLowersMeasure(s, k, n, e);
    CountAppend(s.events, e, MovesOf(k'));
    CountAppend(s.events, e, GrantsOf(k'));
  }

  lemma MoveMovesToken(s: State, k: Key, n: Node, e: Event, t: Id)
    requires Inv(s) && LegalMove(s, k, n, e)
    ensures var s' := Put(s, k, n, e);
      && (forall j :: j != k ==> (HasToken(s', j, t) <==> HasToken(s, j, t)))
      && (IsEnding(e) && e.token == t ==> HasToken(s, k, t))
      && (HasToken(s', k, t) <==> (HasToken(s, k, t) && !IsEnding(e)) || (e.Granted? && e.token == t))
      && (HasToken(s, k, t) && IsEnding(e) ==> e.token == t)
  {
    assert RowOk(s, k);
  }

  /** Whether a token is held changes only when it is granted or ends. */
  lemma MoveMovesHolder(s: State, k: Key, n: Node, e: Event, t: Id)
    requires Inv(s) && LegalMove(s, k, n, e)
    ensures var s' := Put(s, k, n, e);
      && (e.Granted? && e.token == t ==> !Held(s, t) && Held(s', t))
      && (IsEnding(e) && e.token == t ==> Held(s, t) && !Held(s', t))
      && (!(e.Granted? && e.token == t) && !(IsEnding(e) && e.token == t) ==> (Held(s', t) <==> Held(s, t)))
      && forall j, j' :: HasToken(s', j, t) && HasToken(s', j', t) ==> j == j'
  {
    var s' := Put(s, k, n, e);
    assert TokenOk(s, t);
    MoveMovesToken(s, k, n, e, t);
    if e.Granted? && e.token == t {
      assert HasToken(s', k, t);
    } else if IsEnding(e) && e.token == t {
      assert HasToken(s, k, t);
    } else {
      assert HasToken(s', k, t) <==> HasToken(s, k, t);
    }
  }

  lemma MoveKeepsToken(s: State, k: Key, n: Node, e: Event, t: Id)
    requires Inv(s) && LegalMove(s, k, n, e)
    ensures TokenOk(Put(s, k, n, e), t)
  {
    assert TokenOk(s, t);
    MoveMovesHolder(s, k, n, e, t);
    CountAppend(s.events, e, TokenGranted(t));
    CountAppend(s.events, e, TokenEnded(t));
  }

  lemma MoveKeepsStrangers(s: State, k: Key, n: Node, e: Event, k': Key)
    requires Inv(s) && LegalMove(s, k, n, e)
    ensures StrangerOk(Put(s, k, n, e), k')
  {
    assert StrangerOk(s, k');
    CountAppend(s.events, e, MovesOf(k'));
    CountAppend(s.events, e, GrantsOf(k'));
  }

  lemma MoveKeepsFailures(s: State, k: Key, n: Node, e: Event, e': Event)
    requires Inv(s) && LegalMove(s, k, n, e)
    ensures FailureOk(Put(s, k, n, e), e')
  {
    assert FailureOk(s, e') && RowOk(s, k);
  }

  /** The invariant survives every move of every node. */
  lemma MoveKeepsInv(s: State, k: Key, n: Node, e: Event)
    requires Inv(s) && LegalMove(s, k, n, e)
    ensures Inv(Put(s, k, n, e))
  {
    var s' := Put(s, k, n, e);
    forall k' | k' in s'.nodes ensures RowOk(s', k') { MoveKeepsRows(s, k, n, e, k'); }
    forall k' | k' in s'.nodes ensures OrderOk(s', k') { MoveKeepsOrder(s, k, n, e, k'); }
    forall k' | k' in s'.nodes ensures WorkOk(s', k') { MoveKeepsWork(s, k, n, e, k'); }
    forall t ensures TokenOk(s', t) { MoveKeepsToken(s, k, n, e, t); }
    forall k' ensures StrangerOk(s', k') { MoveKeepsStrangers(s, k, n, e, k'); }
    forall e' ensures FailureOk(s', e') { MoveKeepsFailures(s, k, n, e, e'); }
  }

  // ---- a worker's leases --------------------------------------------------------

  function LeasesOf(s: State, worker: Id): (ks: set<Key>)
  {
    set k | k in s.nodes && s.nodes[k].status == Leased && s.nodes[k].lease.Lease? && s.nodes[k].lease.worker == worker
  }
}
