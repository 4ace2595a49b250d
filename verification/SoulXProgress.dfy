/** Progress of the SoulX worker: when the inference lock can still be given back. */
module SoulXProgress {
  import opened Options
  import opened Sequences
  import opened SoulX

  // ---- continuations of a run --------------------------------------------------------------------

  function RunOn(w: World, more: seq<Event>): World
    decreases |more|
  {
    if more == [] then w else RunOn(Next(w, more[0]), more[1..])
  }

  ghost predicate LegalOn(w: World, more: seq<Event>)
    decreases |more|
  {
    more == [] || (Possible(w, more[0]) && LegalOn(Next(w, more[0]), more[1..]))
  }

  lemma {:induction false} RunOnContinues(es: seq<Event>, more: seq<Event>)
    requires LegalRun(es) && LegalOn(Run(es), more)
    ensures LegalRun(es + more) && Run(es + more) == RunOn(Run(es), more)
    decreases |more|
  {
    if more == [] {
      assert es + more == es;
    } else {
      RunExtends(es, more[0]);
      RunOnContinues(es + [more[0]], more[1..]);
      FirstMoves(es, more);
    }
  }

  /** The steps by which a request cleans up after itself. */
  predicate CleansUp(op: Op)
  {
    op.Unwinds? || op.CloseStarts? || op == ReapReturns(true) || op.CloseFinishes?
  }

  /** Steps of the owner alone; processes may die on the way if `mortal`. */
  predicate OwnStep(e: Event, r: ReqId, mortal: bool)
  {
    e.Does? && e.r == r && (CleansUp(e.op) || (mortal && (e.op.ChildExits? || e.op.DescendantDies?)))
  }

  predicate Released(w: World, r: ReqId)
  {
    w.lock == None && r in w.reqs && !w.reqs[r].dirExists
  }

  ghost predicate Releases(w: World, r: ReqId, mortal: bool, more: seq<Event>)
  {
    LegalOn(w, more) && Released(RunOn(w, more), r) && forall e :: e in more ==> OwnStep(e, r, mortal)
  }

  lemma ReleasesBefore(w: World, e: Event, r: ReqId, mortal: bool, rest: seq<Event>) returns (more: seq<Event>)
    requires Possible(w, e) && OwnStep(e, r, mortal) && Releases(Next(w, e), r, mortal, rest)
    ensures Releases(w, r, mortal, more) && |more| == |rest| + 1
  {
    more := [e] + rest;
    assert more[0] == e && more[1..] == rest;
  }

  // ---- one step towards release ---------------------------------------------------------------------

  /** The reaper gave up on this request, whether or not the close has acted on it. */
  predicate GivenUp(q: Req)
  {
    q.close == Reaped(false) || q.close == Finished(false)
  }

  function TreeSize(p: Process): nat
  {
    if p.NoPid? then 0 else (if p.child.alive then 1 else 0) + p.child.descendants
  }

  /** Deaths and stages of the close still to come. */
  function Effort(q: Req): nat
  {
    TreeSize(q.process) + 4 - Stage(q.close)
  }

  function Death(q: Req): Op
  {
    if q.process.Started? && q.process.child.alive then ChildExits else DescendantDies
  }

  function CleanUp(q: Req): Op
  {
    match q.close
    case NotRequested => Unwinds
    case Scheduled => CloseStarts
    case Reaping(_, _) => ReapReturns(true)
    case _ => CloseFinishes
  }

  lemma SomeoneDies(v: View)
    requires ViewOk(v) && v.hold.Mine? && !GivenUp(v.q) && TreeAlive(v.q.process)
    ensures var op := Death(v.q); var u := Apply(v, op);
      Enabled(v, op) && Effort(u.q) == Effort(v.q) - 1 && u.hold.Mine? && !GivenUp(u.q)
  {
  }

  lemma CleanUpProceeds(v: View)
    requires ViewOk(v) && v.hold.Mine? && !GivenUp(v.q) && !TreeAlive(v.q.process)
    ensures var op := CleanUp(v.q); var u := Apply(v, op);
      && Enabled(v, op) && Effort(u.q) == Effort(v.q) - 1 && !TreeAlive(u.q.process)
      && if op.CloseFinishes? then u.hold.Free? && !u.q.dirExists else u.hold.Mine? && !GivenUp(u.q)
  {
  }

  lemma {:induction false} OwnerReleases(w: World, r: ReqId, mortal: bool) returns (more: seq<Event>)
    requires Inv(w) && w.lock == Some(r) && r in w.reqs && !GivenUp(w.reqs[r])
    requires mortal || !TreeAlive(w.reqs[r].process)
    ensures Releases(w, r, mortal, more) && |more| <= Effort(w.reqs[r])
    decreases Effort(w.reqs[r])
  {
    assert RequestOk(w, r);
    var v := ViewOf(w, r);
    var e := Does(r, if TreeAlive(v.q.process) then Death(v.q) else CleanUp(v.q));
    if TreeAlive(v.q.process) { SomeoneDies(v); } else { CleanUpProceeds(v); }
    var w' := Next(w, e);
    StepKeepsInv(w, e);
    var rest: seq<Event> := [];
    if !e.op.CloseFinishes? {
      rest := OwnerReleases(w', r, mortal);
    }
    more := ReleasesBefore(w, e, r, mortal, rest);
  }

  /** If the owner's process tree is dead and not reported otherwise, at most four steps of its own
      clean-up delete its directory and free the lock, whatever the other requests do or fail to do. */
  lemma DeadTreeIsReleased(es: seq<Event>, r: ReqId) returns (more: seq<Event>)
    requires LegalRun(es) && Run(es).lock == Some(r) && r in Run(es).reqs && !GivenUp(Run(es).reqs[r])
    requires !TreeAlive(Run(es).reqs[r].process)
    ensures LegalRun(es + more) && Released(Run(es + more), r) && |more| <= 4
    ensures forall e :: e in more ==> e.Does? && e.r == r && CleansUp(e.op)
  {
    RunKeepsInv(es);
    more := OwnerReleases(Run(es), r, false);
    RunOnContinues(es, more);
  }

  // ---- exactly when the lock can be given back ---------------------------------------------------------

  lemma GivenUpStep(w: World, e: Event, r: ReqId)
    requires Inv(w) && Possible(w, e) && w.lock == Some(r) && r in w.reqs && GivenUp(w.reqs[r])
    ensures Next(w, e).lock == Some(r) && r in Next(w, e).reqs && GivenUp(Next(w, e).reqs[r])
  {
    assert RequestOk(w, r) && RequestOk(w, e.r);
    if e.Does? {
      GivenUpView(ViewOf(w, e.r), e.op);
    }
  }

  lemma GivenUpView(v: View, op: Op)
    requires ViewOk(v) && Enabled(v, op)
    ensures v.hold.Theirs? ==> Apply(v, op).hold.Theirs?
    ensures v.hold.Mine? && GivenUp(v.q) ==> Apply(v, op).hold.Mine? && GivenUp(Apply(v, op).q)
  {
  }

  lemma {:induction false} GivenUpForever(es: seq<Event>, more: seq<Event>, r: ReqId)
    requires LegalRun(es + more) && LegalRun(es)
    requires Run(es).lock == Some(r) && r in Run(es).reqs && GivenUp(Run(es).reqs[r])
    ensures Run(es + more).lock == Some(r) && r in Run(es + more).reqs && GivenUp(Run(es + more).reqs[r])
    decreases |more|
  {
    if more == [] {
      assert es + more == es;
    } else {
      var init, last := more[..|more| - 1], more[|more| - 1];
      assert es + more == es + init + [last];
      RunExtends(es + init, last);
      GivenUpForever(es, init, r);
      RunKeepsInv(es + init);
      GivenUpStep(Run(es + init), last, r);
    }
  }

  ghost predicate CanRelease(es: seq<Event>, r: ReqId)
  {
    exists more :: LegalRun(es + more) && Released(Run(es + more), r)
  }

  /** From any reachable state the lock can still be given back, with its owner's directory deleted,
      exactly if the worker is not quarantined and the reaper has not reported the owner's tree alive. */
  lemma ReleasableExactly(es: seq<Event>, r: ReqId)
    requires LegalRun(es) && Run(es).lock == Some(r)
    ensures r in Run(es).reqs
    ensures CanRelease(es, r) <==> !Run(es).quarantined && Run(es).reqs[r].close != Reaped(false)
  {
    RunKeepsInv(es);
    var w := Run(es);
    assert RequestOk(w, r);
    QuarantineIsTheOwners(w, r);
    if GivenUp(w.reqs[r]) {
      forall more | LegalRun(es + more) ensures !Released(Run(es + more), r) {
        GivenUpForever(es, more, r);
      }
    } else {
      var more := OwnerReleases(w, r, true);
      RunOnContinues(es, more);
    }
  }

  lemma QuarantineIsTheOwners(w: World, r: ReqId)
    requires Inv(w) && w.lock == Some(r) && r in w.reqs
    ensures w.quarantined <==> w.reqs[r].close == Finished(false)
  {
    assert RequestOk(w, r);
    if w.quarantined {
      var o :| Quarantining(w, o);
      assert RequestOk(w, o);
    }
  }

  /** The reaper's report is not taken back: a tree that dies after it keeps the lock all the same. */
  lemma DyingTooLate() returns (es: seq<Event>)
    ensures LegalRun(es) && Run(es).lock == Some(0) && !Run(es).quarantined
    ensures 0 in Run(es).reqs && !TreeAlive(Run(es).reqs[0].process) && !CanRelease(es, 0)
  {
    var survived := ChildSurvives();
    RunExtends(survived, Does(0, ChildExits));
    es := survived + [Does(0, ChildExits)];
    ReleasableExactly(es, 0);
  }

  // ---- serving a request --------------------------------------------------------------------------------

  ghost predicate Sees(es: seq<Event>, r: ReqId, v: View)
  {
    LegalRun(es) && r in Run(es).reqs && ViewOf(Run(es), r) == v
  }

  lemma Steps(es: seq<Event>, r: ReqId, v: View, op: Op, u: View) returns (longer: seq<Event>)
    requires Sees(es, r, v) && Enabled(v, op) && Apply(v, op) == u
    ensures longer == es + [Does(r, op)] && Sees(longer, r, u)
  {
    longer := es + [Does(r, op)];
    RunExtends(es, Does(r, op));
  }

  /** The lock starts the child in the same step, unless the worker is quarantined or the start fails;
      then the request closes without a child. */
  lemma LockExactly(v: View, startOk: bool)
    ensures var u := Apply(v, LockAcquired(startOk));
      && u.hold == Mine && u.q.lockAcquired && u.quarantined == v.quarantined
      && if startOk && !v.quarantined then
           u.q.phase == Polling && u.q.process == Started(Child(true, false, false, false, 0)) && u.q.close == v.q.close
         else u.q.phase == Closing && u.q.process == v.q.process && u.q.close != NotRequested
  {
  }

  /** A child that reports ready is isolated from then on and told to start. */
  lemma ReadyStarts(v: View)
    ensures Apply(v, ReadyArrives) == v.(q := v.q.(isolated := true, startSet := true))
  {
  }

  /** What the operating system may let a child do, and its descendants without it. */
  lemma ChildAbilities(c: Child, startSet: bool)
    ensures ChildCan(c, startSet, LeadsGroup) <==> c.alive
    ensures ChildCan(c, startSet, SendsReady) <==> c.alive && c.ownGroup
    ensures ChildCan(c, startSet, SeesStart) <==> c.alive && c.readySent && startSet
    ensures ChildCan(c, startSet, Spawns) <==> (c.alive && c.startSeen) || c.descendants >= 1
    ensures ChildCan(c, startSet, DescendantDies) <==> c.descendants >= 1
    ensures ChildCan(c, startSet, ChildExits) <==> c.alive
  {
  }

  /** A failed upload deletes the directory; one that is cancelled leaves it behind. */
  lemma UploadsExactly(v: View)
    ensures Apply(v, UploadFails) == v.(q := v.q.(phase := Ended, responding := false, dirExists := false))
    ensures Apply(v, UploadCancelled) == v.(q := v.q.(phase := Ended, responding := false))
  {
  }

  /** The steps of a request that is served: the child leads its own group, reports ready, is told to
      start, spawns a descendant, and the generator yields. */
  lemma ChildIsStarted(es: seq<Event>, r: ReqId, v: View) returns (longer: seq<Event>, u: View)
    requires Sees(es, r, v) && v.q.phase == NotStarted && v.q.responding && v.hold == Free && !v.quarantined
    requires v.q.close == NotRequested
    ensures Sees(longer, r, u) && es <= longer && |longer| == |es| + 4
    ensures u == View(v.q.(phase := Polling, process := Started(Child(true, true, true, false, 0)), lockAcquired := true), Mine, false)
  {
    var waiting := v.(q := v.q.(phase := WaitingLock));
    var started := View(waiting.q.(phase := Polling, process := Started(NEWBORN), lockAcquired := true), Mine, false);
    var leading := started.(q := started.q.(process := Started(NEWBORN.(ownGroup := true))));
    u := leading.(q := leading.q.(process := Started(NEWBORN.(ownGroup := true, readySent := true))));
    longer := Steps(es, r, v, FirstNext, waiting);
    longer := Steps(longer, r, waiting, LockAcquired(true), started);
    longer := Steps(longer, r, started, LeadsGroup, leading);
    longer := Steps(longer, r, leading, SendsReady, u);
  }

  lemma ReadyChildWorks(es: seq<Event>, r: ReqId, v: View) returns (longer: seq<Event>, u: View)
    requires Sees(es, r, v) && v.q.phase == Polling && v.q.process == Started(Child(true, true, true, false, 0))
    ensures Sees(longer, r, u) && es <= longer && |longer| == |es| + 4
    ensures u == v.(q := v.q.(phase := AtYield, process := Started(Child(true, true, true, true, 1)), isolated := true, startSet := true))
  {
    var told := v.(q := v.q.(isolated := true, startSet := true));
    var working := told.(q := told.q.(process := Started(Child(true, true, true, true, 0))));
    var spawned := working.(q := working.q.(process := Started(Child(true, true, true, true, 1))));
    u := spawned.(q := spawned.q.(phase := AtYield));
    longer := Steps(es, r, v, ReadyArrives, told);
    longer := Steps(longer, r, told, SeesStart, working);
    longer := Steps(longer, r, working, Spawns, spawned);
    longer := Steps(longer, r, spawned, Yields, u);
  }

  /** From every reachable state with a free lock and no quarantine, a staged request can be served: its
      child starts, hears that it may start, works with a descendant, and a chunk is yielded. */
  lemma RequestCanBeServed(es: seq<Event>, r: ReqId) returns (longer: seq<Event>)
    requires LegalRun(es) && Run(es).lock == None && !Run(es).quarantined
    requires r in Run(es).reqs && Run(es).reqs[r].phase == NotStarted && Run(es).reqs[r].responding
    ensures es <= longer && LegalRun(longer) && |longer| == |es| + 8
    ensures Run(longer).lock == Some(r) && r in Run(longer).reqs
    ensures var q := Run(longer).reqs[r];
      && q.phase == AtYield && q.isolated && q.startSet && q.close == NotRequested
      && q.process == Started(Child(true, true, true, true, 1))
  {
    RunKeepsInv(es);
    assert RequestOk(Run(es), r);
    var u;
    longer, u := ChildIsStarted(es, r, ViewOf(Run(es), r));
    longer, u := ReadyChildWorks(longer, r, u);
  }

  /** Once a response has ended or a generator has been unwound, the close of the request has been asked
      for, in every continuation. */
  lemma CloseIsRequested(es: seq<Event>, e: Event, more: seq<Event>)
    requires LegalRun(es) && LegalRun(es + [e]) && LegalRun(es + [e] + more) && e.Does? && (e.op.Unwinds? || e.op.ResponseEnds?)
    ensures e.r in Run(es + [e] + more).reqs && Run(es + [e] + more).reqs[e.r].close != NotRequested
  {
    RunExtends(es, e);
    CloseOnlyAdvances(es + [e], more, e.r);
  }
}
