/** The trace checker of services/observability/src/harnesslab/trace_contract.py, and the
    declarative contract it decides. Call ids are opaque strings; "" stands for a missing one. */
module TraceContract {
  type CallId = string

  datatype Kind =
    | RunStarted | ModelRequested | ModelCompleted
    | ToolRequested | ToolApproved | ToolDenied | ToolCompleted
    | RunCompleted | RunFailed | RunCancelled
    | OtherKind(name: string)

  datatype TraceEvent = TraceEvent(sequence: int, kind: Kind, callId: CallId)

  datatype Violation =
    | NonMonotonicSequence
    | TerminalEventCount
    | TerminalEventNotLast
    | DuplicateRequest(c: CallId)
    | DuplicatePolicy(c: CallId)
    | DuplicateCompletion(c: CallId)
    | MissingPolicy(c: CallId)
    | PolicyBeforeRequest(c: CallId)
    | MissingCompletion(c: CallId)
    | DeniedToolCompleted(c: CallId)
    | CompletionBeforePolicy(c: CallId)
    | PolicyWithoutRequest(c: CallId)
    | CompletionWithoutRequest(c: CallId)

  predicate IsTerminal(k: Kind)
  {
    k.RunCompleted? || k.RunFailed? || k.RunCancelled?
  }

  datatype Role = Requests | Decides | Completes | NoRole

  function RoleOf(e: TraceEvent): Role
  {
    if e.callId == "" then NoRole
    else
      match e.kind
      case ToolRequested => Requests
      case ToolApproved => Decides
      case ToolDenied => Decides
      case ToolCompleted => Completes
      case _ => NoRole
  }

  // ---- the declarative contract -----------------------------------------------------------

  ghost predicate At(es: seq<TraceEvent>, i: int, role: Role, c: CallId)
  {
    0 <= i < |es| && RoleOf(es[i]) == role && es[i].callId == c
  }

  ghost predicate OnlyAt(es: seq<TraceEvent>, i: int, role: Role, c: CallId)
  {
    At(es, i, role, c) && forall j :: At(es, j, role, c) ==> j == i
  }

  ghost predicate NoneOf(es: seq<TraceEvent>, role: Role, c: CallId)
  {
    forall j :: !At(es, j, role, c)
  }

  /** One request, then one decision, then a completion exactly if the decision was approval. */
  ghost predicate Handled(es: seq<TraceEvent>, c: CallId, i: int, j: int)
  {
    && OnlyAt(es, i, Requests, c) && OnlyAt(es, j, Decides, c) && i < j
    && (es[j].kind == ToolApproved ==> exists k :: j < k && OnlyAt(es, k, Completes, c))
    && (es[j].kind == ToolDenied ==> NoneOf(es, Completes, c))
  }

  ghost predicate CallOk(es: seq<TraceEvent>, c: CallId)
  {
    || (NoneOf(es, Requests, c) && NoneOf(es, Decides, c) && NoneOf(es, Completes, c))
    || exists i, j :: Handled(es, c, i, j)
  }

  ghost predicate SequenceOk(es: seq<TraceEvent>)
  {
    forall i :: 0 <= i < |es| ==> es[i].sequence == i + 1
  }

  ghost predicate TerminalOk(es: seq<TraceEvent>)
  {
    es != [] && forall i :: 0 <= i < |es| ==> (IsTerminal(es[i].kind) <==> i == |es| - 1)
  }

  ghost predicate Conforms(es: seq<TraceEvent>)
  {
    SequenceOk(es) && TerminalOk(es) && forall c :: CallOk(es, c)
  }

  // ---- what the checker's dictionaries hold ------------------------------------------------------

  /** The last index at which each call id plays a role. */
  function IndexOf(es: seq<TraceEvent>, role: Role): map<CallId, nat>
  {
    if es == [] then map[]
    else
      var m := IndexOf(es[..|es| - 1], role);
      if RoleOf(es[|es| - 1]) == role then m[es[|es| - 1].callId := |es| - 1] else m
  }

  function Count(es: seq<TraceEvent>, role: Role, c: CallId): nat
  {
    if es == [] then 0
    else
      Count(es[..|es| - 1], role, c) + if RoleOf(es[|es| - 1]) == role && es[|es| - 1].callId == c then 1 else 0
  }

  function TerminalKinds(es: seq<TraceEvent>): seq<Kind>
  {
    if es == [] then []
    else TerminalKinds(es[..|es| - 1]) + if IsTerminal(es[|es| - 1].kind) then [es[|es| - 1].kind] else []
  }

  lemma {:induction false} IndexIsLast(es: seq<TraceEvent>, role: Role, c: CallId)
    requires role != NoRole
    ensures var m := IndexOf(es, role);
      && (c in m <==> exists i :: At(es, i, role, c))
      && (c in m ==> At(es, m[c], role, c) && forall i :: At(es, i, role, c) ==> i <= m[c])
  {
    if es != [] {
      var init, n := es[..|es| - 1], |es| - 1;
      IndexIsLast(init, role, c);
      assert forall i :: i < n ==> (At(es, i, role, c) <==> At(init, i, role, c));
      if At(es, n, role, c) {
        assert IndexOf(es, role)[c] == n;
      } else {
        assert c in IndexOf(es, role) <==> c in IndexOf(init, role);
        if i :| At(init, i, role, c) { assert At(es, i, role, c); }
        if i :| At(es, i, role, c) { assert At(init, i, role, c); }
      }
    }
  }

  lemma {:induction false} CountFacts(es: seq<TraceEvent>, role: Role, c: CallId)
    requires role != NoRole
    ensures Count(es, role, c) == 0 <==> c !in IndexOf(es, role)
    ensures Count(es, role, c) <= 1 <==> forall i, j :: At(es, i, role, c) && At(es, j, role, c) ==> i == j
  {
    if es != [] {
      var init, n := es[..|es| - 1], |es| - 1;
      CountFacts(init, role, c);
      IndexIsLast(init, role, c);
      assert forall i :: i < n ==> (At(es, i, role, c) <==> At(init, i, role, c));
      if At(es, n, role, c) {
        if i :| At(init, i, role, c) { assert At(es, i, role, c); }
      } else if Count(init, role, c) > 1 {
        var i, j :| At(init, i, role, c) && At(init, j, role, c) && i != j;
        assert At(es, i, role, c) && At(es, j, role, c);
      }
    }
  }

  function Approved(es: seq<TraceEvent>, c: CallId): bool
  {
    var m := IndexOf(es, Decides);
    c in m && m[c] < |es| && es[m[c]].kind == ToolApproved
  }

  function Denied(es: seq<TraceEvent>, c: CallId): bool
  {
    var m := IndexOf(es, Decides);
    c in m && m[c] < |es| && es[m[c]].kind == ToolDenied
  }

  function Surplus(n: nat): nat { if n == 0 then 0 else n - 1 }

  function One(b: bool): nat { if b then 1 else 0 }

  /** How often each violation is reported. */
  ghost function Expected(es: seq<TraceEvent>, v: Violation): nat
  {
    var req, dec, done := IndexOf(es, Requests), IndexOf(es, Decides), IndexOf(es, Completes);
    match v
    case NonMonotonicSequence => One(!SequenceOk(es))
    case TerminalEventCount => One(|TerminalKinds(es)| != 1)
    case TerminalEventNotLast =>
      One(|TerminalKinds(es)| == 1 && (es == [] || es[|es| - 1].kind != TerminalKinds(es)[0]))
    case DuplicateRequest(c) => Surplus(Count(es, Requests, c))
    case DuplicatePolicy(c) => Surplus(Count(es, Decides, c))
    case DuplicateCompletion(c) => Surplus(Count(es, Completes, c))
    case MissingPolicy(c) => One(c in req && c !in dec)
    case PolicyBeforeRequest(c) => One(c in req && c in dec && dec[c] <= req[c])
    case MissingCompletion(c) => One(c in req && Approved(es, c) && c !in done)
    case DeniedToolCompleted(c) => One(c in req && Denied(es, c) && c in done)
    case CompletionBeforePolicy(c) => One(c in req && c in dec && c in done && done[c] <= dec[c])
    case PolicyWithoutRequest(c) => One(c in dec && c !in req)
    case CompletionWithoutRequest(c) => One(c in done && c !in req)
  }

  ghost predicate NothingReported(es: seq<TraceEvent>)
  {
    forall v :: Expected(es, v) == 0
  }

  // ---- exactness ------------------------------------------------------------------------------------

  lemma {:induction false} TerminalCountFacts(es: seq<TraceEvent>)
    ensures |TerminalKinds(es)| == 0 <==> forall i :: 0 <= i < |es| ==> !IsTerminal(es[i].kind)
    ensures forall k :: k in TerminalKinds(es) ==> IsTerminal(k)
  {
    if es != [] {
      TerminalCountFacts(es[..|es| - 1]);
      assert forall i :: 0 <= i < |es| - 1 ==> es[..|es| - 1][i] == es[i];
    }
  }

  lemma TerminalAtEnd(init: seq<TraceEvent>, e: TraceEvent)
    ensures TerminalOk(init + [e]) <==> IsTerminal(e.kind) && TerminalKinds(init) == []
  {
    TerminalCountFacts(init);
    var es := init + [e];
    assert es[|es| - 1] == e;
    if TerminalOk(es) {
      forall i | 0 <= i < |init| ensures !IsTerminal(init[i].kind) { assert es[i] == init[i]; }
    }
  }

  /** One terminal event whose kind is that of the last event: it is the last event. */
  lemma TerminalExactly(es: seq<TraceEvent>)
    ensures TerminalOk(es) <==> Expected(es, TerminalEventCount) == 0 && Expected(es, TerminalEventNotLast) == 0
  {
    if es != [] {
      var init, e := es[..|es| - 1], es[|es| - 1];
      assert es == init + [e];
      TerminalAtEnd(init, e);
      TerminalCountFacts(es);
      if |TerminalKinds(es)| == 1 && e.kind == TerminalKinds(es)[0] {
        assert TerminalKinds(es)[0] in TerminalKinds(es);
      }
    }
  }

  ghost predicate CallClean(es: seq<TraceEvent>, c: CallId)
  {
    && Expected(es, DuplicateRequest(c)) == 0 && Expected(es, DuplicatePolicy(c)) == 0
    && Expected(es, DuplicateCompletion(c)) == 0 && Expected(es, MissingPolicy(c)) == 0
    && Expected(es, PolicyBeforeRequest(c)) == 0 && Expected(es, MissingCompletion(c)) == 0
    && Expected(es, DeniedToolCompleted(c)) == 0 && Expected(es, CompletionBeforePolicy(c)) == 0
    && Expected(es, PolicyWithoutRequest(c)) == 0 && Expected(es, CompletionWithoutRequest(c)) == 0
  }

  lemma CallFacts(es: seq<TraceEvent>, c: CallId, role: Role)
    requires role != NoRole
    ensures var m := IndexOf(es, role);
      && (c !in m <==> NoneOf(es, role, c))
      && (c in m && Count(es, role, c) <= 1 ==> OnlyAt(es, m[c], role, c))
      && (forall i :: OnlyAt(es, i, role, c) ==> c in m && m[c] == i && Count(es, role, c) == 1)
  {
    IndexIsLast(es, role, c);
    CountFacts(es, role, c);
  }

  lemma CleanCallIsOk(es: seq<TraceEvent>, c: CallId)
    requires CallClean(es, c)
    ensures CallOk(es, c)
  {
    var req, dec, done := IndexOf(es, Requests), IndexOf(es, Decides), IndexOf(es, Completes);
    CallFacts(es, c, Requests);
    CallFacts(es, c, Decides);
    CallFacts(es, c, Completes);
    if c in req {
      assert OnlyAt(es, req[c], Requests, c) && OnlyAt(es, dec[c], Decides, c);
      if es[dec[c]].kind == ToolApproved {
        assert OnlyAt(es, done[c], Completes, c);
      }
      assert Handled(es, c, req[c], dec[c]);
    }
  }

  lemma OkCallIsClean(es: seq<TraceEvent>, c: CallId)
    requires CallOk(es, c)
    ensures CallClean(es, c)
  {
    CallFacts(es, c, Requests);
    CallFacts(es, c, Decides);
    CallFacts(es, c, Completes);
    CountFacts(es, Requests, c);
    CountFacts(es, Decides, c);
    CountFacts(es, Completes, c);
    if i, j :| Handled(es, c, i, j) {
      assert IndexOf(es, Requests)[c] == i && IndexOf(es, Decides)[c] == j;
      assert es[j].kind == ToolApproved || es[j].kind == ToolDenied;
      if k :| j < k && OnlyAt(es, k, Completes, c) {
        assert IndexOf(es, Completes)[c] == k;
      }
    }
  }

  /** The checker finds nothing exactly on the traces that meet the contract. */
  lemma CheckerExactly(es: seq<TraceEvent>)
    ensures NothingReported(es) <==> Conforms(es)
  {
    TerminalExactly(es);
    if NothingReported(es) {
      assert Expected(es, NonMonotonicSequence) == 0;
      assert Expected(es, TerminalEventCount) == 0 && Expected(es, TerminalEventNotLast) == 0;
      forall c ensures CallOk(es, c) {
        assert CallClean(es, c);
        CleanCallIsOk(es, c);
      }
    }
    if Conforms(es) {
      forall v ensures Expected(es, v) == 0 {
        if !IsHeaderCheck(v) {
          assert CallOk(es, v.c);
          OkCallIsClean(es, v.c);
        }
      }
    }
  }

  // ---- the checker ------------------------------------------------------------------------------------

  predicate IsHeaderCheck(v: Violation)
  {
    v.NonMonotonicSequence? || v.TerminalEventCount? || v.TerminalEventNotLast?
  }

  /** The checks on numbering and on the terminal event. */
  method HeaderViolations(es: seq<TraceEvent>, terminal: seq<Kind>) returns (r: seq<Violation>)
    requires terminal == TerminalKinds(es)
    ensures forall v :: multiset(r)[v] == if IsHeaderCheck(v) then Expected(es, v) else 0
  {
    r := [];
    if exists i :: 0 <= i < |es| && es[i].sequence != i + 1 {
      r := r + [NonMonotonicSequence];
    }
    if |terminal| != 1 {
      r := r + [TerminalEventCount];
    } else if es == [] || es[|es| - 1].kind != terminal[0] {
      r := r + [TerminalEventNotLast];
    }
  }

  predicate IsDuplicate(v: Violation)
  {
    v.DuplicateRequest? || v.DuplicatePolicy? || v.DuplicateCompletion?
  }

  lemma AppendEvent(es: seq<TraceEvent>, e: TraceEvent, role: Role, c: CallId)
    ensures Count(es + [e], role, c) == Count(es, role, c) + if RoleOf(e) == role && e.callId == c then 1 else 0
    ensures IndexOf(es + [e], role) == if RoleOf(e) == role then IndexOf(es, role)[e.callId := |es|] else IndexOf(es, role)
  {
    assert (es + [e])[..|es|] == es;
  }

  ghost predicate DuplicatesFound(es: seq<TraceEvent>, r: seq<Violation>)
  {
    forall v :: multiset(r)[v] == if IsDuplicate(v) then Expected(es, v) else 0
  }

  /** What the scan reports about one more event. */
  function Repeats(es: seq<TraceEvent>, e: TraceEvent): seq<Violation>
  {
    if RoleOf(e) == Requests && e.callId in IndexOf(es, Requests) then [DuplicateRequest(e.callId)]
    else if RoleOf(e) == Decides && e.callId in IndexOf(es, Decides) then [DuplicatePolicy(e.callId)]
    else if RoleOf(e) == Completes && e.callId in IndexOf(es, Completes) then [DuplicateCompletion(e.callId)]
    else []
  }

  lemma RepeatsExactly(es: seq<TraceEvent>, e: TraceEvent, v: Violation)
    requires IsDuplicate(v)
    ensures Expected(es + [e], v) == Expected(es, v) + multiset(Repeats(es, e))[v]
  {
    var role := if v.DuplicateRequest? then Requests else if v.DuplicatePolicy? then Decides else Completes;
    AppendEvent(es, e, role, v.c);
    CountFacts(es, role, v.c);
  }

  lemma DuplicatesStep(es: seq<TraceEvent>, e: TraceEvent, r: seq<Violation>)
    requires DuplicatesFound(es, r)
    ensures DuplicatesFound(es + [e], r + Repeats(es, e))
  {
    forall v | IsDuplicate(v)
      ensures Expected(es + [e], v) == Expected(es, v) + multiset(Repeats(es, e))[v]
    {
      RepeatsExactly(es, e, v);
    }
    assert forall v :: v in Repeats(es, e) ==> IsDuplicate(v);
  }

  /** The dictionaries that the scan leaves behind. */
  ghost predicate Indexed(es: seq<TraceEvent>, requested: map<CallId, nat>, policy: map<CallId, nat>,
                          policyKind: map<CallId, Kind>, resolved: map<CallId, nat>)
  {
    && requested == IndexOf(es, Requests) && policy == IndexOf(es, Decides) && resolved == IndexOf(es, Completes)
    && policyKind.Keys == policy.Keys
    && forall c :: c in policy ==> policy[c] < |es| && policyKind[c] == es[policy[c]].kind
  }

  /** One pass of the first loop: what the event at index i adds to the dictionaries and to the report. */
  method ScanEvent(ghost es: seq<TraceEvent>, i: nat, e: TraceEvent, r0: seq<Violation>, requested0: map<CallId, nat>,
                   policy0: map<CallId, nat>, policyKind0: map<CallId, Kind>, resolved0: map<CallId, nat>)
    returns (r: seq<Violation>, requested: map<CallId, nat>, policy: map<CallId, nat>,
             policyKind: map<CallId, Kind>, resolved: map<CallId, nat>)
    requires i == |es| && Indexed(es, requested0, policy0, policyKind0, resolved0)
    ensures Indexed(es + [e], requested, policy, policyKind, resolved)
    ensures r == r0 + Repeats(es, e)
  {
    AppendEvent(es, e, Requests, e.callId);
    AppendEvent(es, e, Decides, e.callId);
    AppendEvent(es, e, Completes, e.callId);
    r, requested, policy, policyKind, resolved := r0, requested0, policy0, policyKind0, resolved0;
    if e.callId != "" {
      if e.kind == ToolRequested {
        if e.callId in requested {
          r := r + [DuplicateRequest(e.callId)];
        }
        requested := requested[e.callId := i];
      } else if e.kind == ToolApproved || e.kind == ToolDenied {
        if e.callId in policy {
          r := r + [DuplicatePolicy(e.callId)];
        }
        policy := policy[e.callId := i];
        policyKind := policyKind[e.callId := e.kind];
      } else if e.kind == ToolCompleted {
        if e.callId in resolved {
          r := r + [DuplicateCompletion(e.callId)];
        }
        resolved := resolved[e.callId := i];
      }
    }
  }

  /** The first loop: fills the dictionaries and reports repetitions. */
  method Scan(es: seq<TraceEvent>)
    returns (r: seq<Violation>, requested: map<CallId, nat>, policy: map<CallId, nat>,
             policyKind: map<CallId, Kind>, resolved: map<CallId, nat>)
    ensures DuplicatesFound(es, r)
    ensures Indexed(es, requested, policy, policyKind, resolved)
  {
    r, requested, policy, policyKind, resolved := [], map[], map[], map[], map[];
    for i := 0 to |es|
      invariant DuplicatesFound(es[..i], r)
      invariant Indexed(es[..i], requested, policy, policyKind, resolved)
    {
      assert es[..i + 1] == es[..i] + [es[i]];
      DuplicatesStep(es[..i], es[i], r);
      r, requested, policy, policyKind, resolved :=
        ScanEvent(es[..i], i, es[i], r, requested, policy, policyKind, resolved);
    }
    assert es[..|es|] == es;
  }

  predicate IsCallCheck(v: Violation)
  {
    v.MissingPolicy? || v.PolicyBeforeRequest? || v.MissingCompletion? || v.DeniedToolCompleted? || v.CompletionBeforePolicy?
  }

  /** The place of a violation among the checks made for one call; 0 for the other violations. */
  function Stage(v: Violation): nat
  {
    match v
    case MissingPolicy(_) => 1
    case PolicyBeforeRequest(_) => 2
    case MissingCompletion(_) => 3
    case DeniedToolCompleted(_) => 4
    case CompletionBeforePolicy(_) => 5
    case _ => 0
  }

  function StageCheck(k: nat, c: CallId): Violation
    requires 1 <= k <= 5
  {
    match k
    case 1 => MissingPolicy(c)
    case 2 => PolicyBeforeRequest(c)
    case 3 => MissingCompletion(c)
    case 4 => DeniedToolCompleted(c)
    case _ => CompletionBeforePolicy(c)
  }

  ghost predicate ReportedTo(due: Violation -> nat, c: CallId, k: nat, r: seq<Violation>)
  {
    forall v: Violation :: multiset(r)[v] == if 1 <= Stage(v) <= k && v.c == c then due(v) else 0
  }

  lemma NextStage(due: Violation -> nat, c: CallId, k: nat, r: seq<Violation>, b: bool)
    requires k < 5 && ReportedTo(due, c, k, r) && due(StageCheck(k + 1, c)) == One(b)
    ensures ReportedTo(due, c, k + 1, if b then r + [StageCheck(k + 1, c)] else r)
  {
  }

  ghost function Due(es: seq<TraceEvent>): Violation -> nat
  {
    v => Expected(es, v)
  }

  lemma AllStages(es: seq<TraceEvent>, c: CallId, r: seq<Violation>)
    requires ReportedTo(Due(es), c, 5, r)
    ensures forall v :: multiset(r)[v] == if IsCallCheck(v) && v.c == c then Expected(es, v) else 0
  {
    forall v ensures multiset(r)[v] == if IsCallCheck(v) && v.c == c then Expected(es, v) else 0 {
      assert IsCallCheck(v) <==> 1 <= Stage(v) <= 5;
    }
  }

  /** What is due about one call, read off the dictionaries. */
  ghost predicate DueAtStages(due: Violation -> nat, requested: map<CallId, nat>, policy: map<CallId, nat>,
                              policyKind: map<CallId, Kind>, resolved: map<CallId, nat>, c: CallId)
    requires c in requested && policyKind.Keys == policy.Keys
  {
    && due(StageCheck(1, c)) == One(c !in policy)
    && due(StageCheck(2, c)) == One(c in policy && policy[c] <= requested[c])
    && due(StageCheck(3, c)) == One(c in policyKind && policyKind[c] == ToolApproved && c !in resolved)
    && due(StageCheck(4, c)) == One(c in policyKind && policyKind[c] == ToolDenied && c in resolved)
    && due(StageCheck(5, c)) == One(c in resolved && c in policy && resolved[c] <= policy[c])
  }

  lemma IndexedIsDue(es: seq<TraceEvent>, requested: map<CallId, nat>, policy: map<CallId, nat>,
                     policyKind: map<CallId, Kind>, resolved: map<CallId, nat>, c: CallId)
    requires Indexed(es, requested, policy, policyKind, resolved) && c in requested
    ensures DueAtStages(Due(es), requested, policy, policyKind, resolved, c)
  {
  }

  /** The first check made for a requested call: whether it was decided, and after the request. */
  method CheckDecision(ghost due: Violation -> nat, requested: map<CallId, nat>, policy: map<CallId, nat>, c: CallId)
    returns (r: seq<Violation>)
    requires c in requested && due(MissingPolicy(c)) == One(c !in policy)
    requires due(PolicyBeforeRequest(c)) == One(c in policy && policy[c] <= requested[c])
    ensures ReportedTo(due, c, 2, r)
  {
    r := [];
    NextStage(due, c, 0, r, c !in policy);
    if c !in policy {
      r := [MissingPolicy(c)];
      NextStage(due, c, 1, r, false);
    } else {
      NextStage(due, c, 1, r, policy[c] <= requested[c]);
      if policy[c] <= requested[c] {
        r := r + [PolicyBeforeRequest(c)];
      }
    }
  }

  /** The checks made for one requested call, in the order of the source. */
  method CheckCall(ghost due: Violation -> nat, requested: map<CallId, nat>, policy: map<CallId, nat>,
                   policyKind: map<CallId, Kind>, resolved: map<CallId, nat>, c: CallId)
    returns (r: seq<Violation>)
    requires c in requested && policyKind.Keys == policy.Keys
    requires DueAtStages(due, requested, policy, policyKind, resolved, c)
    ensures ReportedTo(due, c, 5, r)
  {
    r := CheckDecision(due, requested, policy, c);
    NextStage(due, c, 2, r, c in policyKind && policyKind[c] == ToolApproved && c !in resolved);
    if c in policyKind && policyKind[c] == ToolApproved && c !in resolved {
      r := r + [MissingCompletion(c)];
    }
    NextStage(due, c, 3, r, c in policyKind && policyKind[c] == ToolDenied && c in resolved);
    if c in policyKind && policyKind[c] == ToolDenied && c in resolved {
      r := r + [DeniedToolCompleted(c)];
    }
    NextStage(due, c, 4, r, c in resolved && c in policy && resolved[c] <= policy[c]);
    if c in resolved && c in policy && resolved[c] <= policy[c] {
      r := r + [CompletionBeforePolicy(c)];
    }
  }

  /** The second loop, over the requested calls. */
  method CallViolations(ghost es: seq<TraceEvent>, requested: map<CallId, nat>, policy: map<CallId, nat>,
                        policyKind: map<CallId, Kind>, resolved: map<CallId, nat>) returns (r: seq<Violation>)
    requires Indexed(es, requested, policy, policyKind, resolved)
    ensures forall v :: multiset(r)[v] == if IsCallCheck(v) then Expected(es, v) else 0
  {
    r := [];
    var todo := requested.Keys;
    while todo != {}
      invariant todo <= requested.Keys
      invariant forall v :: multiset(r)[v] == if IsCallCheck(v) && v.c !in todo then Expected(es, v) else 0
      decreases todo
    {
      var c :| c in todo;
      IndexedIsDue(es, requested, policy, policyKind, resolved, c);
      var report := CheckCall(Due(es), requested, policy, policyKind, resolved, c);
      AllStages(es, c, report);
      r := r + report;
      todo := todo - {c};
    }
  }

  predicate IsOrphan(v: Violation)
  {
    v.PolicyWithoutRequest? || v.CompletionWithoutRequest?
  }

  predicate AwaitsReport(v: Violation, todo: set<CallId>)
  {
    v.CompletionWithoutRequest? && v.c in todo
  }

  /** The last two loops: decisions and completions that nothing requested. */
  method Orphans(es: seq<TraceEvent>, requested: map<CallId, nat>, policy: map<CallId, nat>, resolved: map<CallId, nat>)
    returns (r: seq<Violation>)
    requires requested == IndexOf(es, Requests) && policy == IndexOf(es, Decides) && resolved == IndexOf(es, Completes)
    ensures forall v :: multiset(r)[v] == if IsOrphan(v) then Expected(es, v) else 0
  {
    r := [];
    var todo := policy.Keys - requested.Keys;
    while todo != {}
      invariant todo <= policy.Keys - requested.Keys
      invariant forall v :: multiset(r)[v] == if v.PolicyWithoutRequest? && v.c !in todo then Expected(es, v) else 0
      decreases todo
    {
      var c :| c in todo;
      r := r + [PolicyWithoutRequest(c)];
      todo := todo - {c};
    }
    todo := resolved.Keys - requested.Keys;
    while todo != {}
      invariant todo <= resolved.Keys - requested.Keys
      invariant forall v :: multiset(r)[v] == if IsOrphan(v) && !AwaitsReport(v, todo) then Expected(es, v) else 0
      decreases todo
    {
      var c :| c in todo;
      r := r + [CompletionWithoutRequest(c)];
      todo := todo - {c};
    }
  }

  /** `_trace_violations`: reports each violation exactly as often as it is due. */
  method TraceViolations(es: seq<TraceEvent>, terminal: seq<Kind>) returns (r: seq<Violation>)
    requires terminal == TerminalKinds(es)
    ensures forall v :: multiset(r)[v] == Expected(es, v)
    ensures r == [] <==> Conforms(es)
  {
    var header := HeaderViolations(es, terminal);
    var repeats, requested, policy, policyKind, resolved := Scan(es);
    var calls := CallViolations(es, requested, policy, policyKind, resolved);
    var orphans := Orphans(es, requested, policy, resolved);
    r := header + repeats + calls + orphans;
    forall v ensures multiset(r)[v] == Expected(es, v) {
      assert multiset(r)[v] == multiset(header)[v] + multiset(repeats)[v] + multiset(calls)[v] + multiset(orphans)[v];
    }
    CheckerExactly(es);
    if r != [] {
      assert multiset(r)[r[0]] >= 1;
    } else {
      assert NothingReported(es) by {
        forall v ensures Expected(es, v) == 0 { assert multiset(r)[v] == 0; }
      }
    }
  }

  /** The part of `project_trace` that collects the terminal kinds and runs the checker. */
  method ProjectViolations(es: seq<TraceEvent>) returns (terminal: seq<Kind>, violations: seq<Violation>)
    ensures terminal == TerminalKinds(es)
    ensures violations == [] <==> Conforms(es)
    ensures forall v :: multiset(violations)[v] == Expected(es, v)
  {
    terminal := [];
    for i := 0 to |es|
      invariant terminal == TerminalKinds(es[..i])
    {
      assert es[..i + 1][..i] == es[..i];
      if IsTerminal(es[i].kind) {
        terminal := terminal + [es[i].kind];
      }
    }
    assert es[..|es|] == es;
    violations := TraceViolations(es, terminal);
  }
}
