/** What each report of the trace checker means, said of places in the trace. */
module TraceReports {
  import opened TraceContract

  /** The roles an event can play: none without a call id. */
  lemma Roles(e: TraceEvent)
    ensures RoleOf(e) == Requests <==> e.callId != "" && e.kind == ToolRequested
    ensures RoleOf(e) == Decides <==> e.callId != "" && (e.kind == ToolApproved || e.kind == ToolDenied)
    ensures RoleOf(e) == Completes <==> e.callId != "" && e.kind == ToolCompleted
    ensures IsTerminal(e.kind) <==> e.kind in {RunCompleted, RunFailed, RunCancelled}
  {
  }

  ghost function Places(es: seq<TraceEvent>, role: Role, c: CallId): set<int>
  {
    set i | 0 <= i < |es| && At(es, i, role, c)
  }

  lemma {:induction false} CountIsPlaces(es: seq<TraceEvent>, role: Role, c: CallId)
    ensures Count(es, role, c) == |Places(es, role, c)|
  {
    if es != [] {
      var init, n := es[..|es| - 1], |es| - 1;
      CountIsPlaces(init, role, c);
      forall i ensures i in Places(es, role, c) <==> i in Places(init, role, c) || (i == n && At(es, n, role, c)) {
        if 0 <= i < n { assert init[i] == es[i]; }
      }
      assert Places(es, role, c) == Places(init, role, c) + if At(es, n, role, c) then {n} else {};
    }
  }

  /** The last place at which the id plays the role. */
  ghost predicate LastAt(es: seq<TraceEvent>, i: int, role: Role, c: CallId)
  {
    At(es, i, role, c) && forall j :: At(es, j, role, c) ==> j <= i
  }

  lemma IndexIsLastAt(es: seq<TraceEvent>, role: Role, c: CallId, i: nat)
    requires role != NoRole
    ensures (c in IndexOf(es, role) && IndexOf(es, role)[c] == i) <==> LastAt(es, i, role, c)
    ensures c !in IndexOf(es, role) <==> NoneOf(es, role, c)
  {
    IndexIsLast(es, role, c);
  }

  ghost predicate Requested(es: seq<TraceEvent>, c: CallId) { exists i :: At(es, i, Requests, c) }

  ghost predicate Decided(es: seq<TraceEvent>, c: CallId) { exists i :: At(es, i, Decides, c) }

  ghost predicate Completed(es: seq<TraceEvent>, c: CallId) { exists i :: At(es, i, Completes, c) }

  /** The last decision about the call is of this kind. */
  ghost predicate LastDecision(es: seq<TraceEvent>, c: CallId, kind: Kind)
  {
    exists i :: LastAt(es, i, Decides, c) && es[i].kind == kind
  }

  /** The last `first` comes after the last `second`. */
  ghost predicate OutOfOrder(es: seq<TraceEvent>, c: CallId, first: Role, second: Role)
  {
    exists i, j :: LastAt(es, i, first, c) && LastAt(es, j, second, c) && j <= i
  }

  lemma Known(es: seq<TraceEvent>, c: CallId)
    ensures c in IndexOf(es, Requests) <==> Requested(es, c)
    ensures c in IndexOf(es, Decides) <==> Decided(es, c)
    ensures c in IndexOf(es, Completes) <==> Completed(es, c)
  {
    IndexIsLast(es, Requests, c);
    IndexIsLast(es, Decides, c);
    IndexIsLast(es, Completes, c);
  }

  lemma DecisionIsLast(es: seq<TraceEvent>, c: CallId)
    ensures Approved(es, c) <==> LastDecision(es, c, ToolApproved)
    ensures Denied(es, c) <==> LastDecision(es, c, ToolDenied)
  {
    var m := IndexOf(es, Decides);
    IndexIsLast(es, Decides, c);
    if c in m {
      assert LastAt(es, m[c], Decides, c);
    }
  }

  lemma OrderIsLast(es: seq<TraceEvent>, c: CallId, first: Role, second: Role)
    requires first != NoRole && second != NoRole
    ensures OutOfOrder(es, c, first, second) <==>
      var a, b := IndexOf(es, first), IndexOf(es, second); c in a && c in b && b[c] <= a[c]
  {
    var a, b := IndexOf(es, first), IndexOf(es, second);
    IndexIsLast(es, first, c);
    IndexIsLast(es, second, c);
    if c in a && c in b {
      assert LastAt(es, a[c], first, c) && LastAt(es, b[c], second, c);
    }
  }

  /** Repetitions are reported once for each place after the first. */
  lemma RepetitionsExactly(es: seq<TraceEvent>, c: CallId)
    ensures var n := |Places(es, Requests, c)|; Expected(es, DuplicateRequest(c)) == if n == 0 then 0 else n - 1
    ensures var n := |Places(es, Decides, c)|; Expected(es, DuplicatePolicy(c)) == if n == 0 then 0 else n - 1
    ensures var n := |Places(es, Completes, c)|; Expected(es, DuplicateCompletion(c)) == if n == 0 then 0 else n - 1
  {
    CountIsPlaces(es, Requests, c);
    CountIsPlaces(es, Decides, c);
    CountIsPlaces(es, Completes, c);
  }

  /** The other reports about a call come once or not at all, each for its own fault. */
  lemma CallReportsExactly(es: seq<TraceEvent>, c: CallId)
    ensures Expected(es, MissingPolicy(c)) == if Requested(es, c) && !Decided(es, c) then 1 else 0
    ensures Expected(es, PolicyBeforeRequest(c)) == if OutOfOrder(es, c, Requests, Decides) then 1 else 0
    ensures Expected(es, MissingCompletion(c)) ==
      if Requested(es, c) && LastDecision(es, c, ToolApproved) && !Completed(es, c) then 1 else 0
    ensures Expected(es, DeniedToolCompleted(c)) ==
      if Requested(es, c) && LastDecision(es, c, ToolDenied) && Completed(es, c) then 1 else 0
    ensures Expected(es, CompletionBeforePolicy(c)) ==
      if Requested(es, c) && OutOfOrder(es, c, Decides, Completes) then 1 else 0
    ensures Expected(es, PolicyWithoutRequest(c)) == if Decided(es, c) && !Requested(es, c) then 1 else 0
    ensures Expected(es, CompletionWithoutRequest(c)) == if Completed(es, c) && !Requested(es, c) then 1 else 0
  {
    Known(es, c);
    DecisionIsLast(es, c);
    OrderIsLast(es, c, Requests, Decides);
    OrderIsLast(es, c, Decides, Completes);
  }

  ghost function TerminalPlaces(es: seq<TraceEvent>): set<int>
  {
    set i | 0 <= i < |es| && IsTerminal(es[i].kind)
  }

  lemma {:induction false} TerminalsCounted(es: seq<TraceEvent>)
    ensures |TerminalKinds(es)| == |TerminalPlaces(es)|
    ensures forall i :: i in TerminalPlaces(es) && |TerminalPlaces(es)| == 1 ==> TerminalKinds(es) == [es[i].kind]
  {
    if es != [] {
      var init, n := es[..|es| - 1], |es| - 1;
      TerminalsCounted(init);
      assert TerminalPlaces(es) == TerminalPlaces(init) + if IsTerminal(es[n].kind) then {n} else {};
      if IsTerminal(es[n].kind) && |TerminalPlaces(es)| == 1 {
        assert TerminalPlaces(init) == {};
      }
    }
  }

  /** The reports about the trace as a whole. */
  lemma HeaderReportsExactly(es: seq<TraceEvent>)
    ensures Expected(es, NonMonotonicSequence) == if exists i :: 0 <= i < |es| && es[i].sequence != i + 1 then 1 else 0
    ensures Expected(es, TerminalEventCount) == if |TerminalPlaces(es)| == 1 then 0 else 1
    ensures Expected(es, TerminalEventNotLast) ==
      if |TerminalPlaces(es)| == 1 && exists i :: i in TerminalPlaces(es) && es[|es| - 1].kind != es[i].kind then 1 else 0
  {
    TerminalsCounted(es);
    if |TerminalPlaces(es)| == 1 {
      var i :| i in TerminalPlaces(es);
      assert TerminalPlaces(es) == {i} by { assert |TerminalPlaces(es) - {i}| == 0; }
    }
  }
}
