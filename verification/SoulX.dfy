/** Child processes, the inference lock and request clean-up of the SoulX worker,
    services/realtime/services/soulx_api.py. Requests, their children, the reaping threads and
    cancellations interleave freely: one step per stretch of code between awaits, and one step per
    thing a process can do. */
module SoulX {
  import opened Options

  type ReqId = nat

  /** A child: whether it runs, how far its handshake went, and how many of its descendants run. */
  datatype Child = Child(alive: bool, ownGroup: bool, readySent: bool, startSeen: bool, descendants: nat)

  // `process`: none, or one that never got a pid; or a started one.
  datatype Process = NoPid | Started(child: Child)

  // Where `generate` stands; `Closing` is the await in its `finally`.
  datatype Phase = Uploading | NotStarted | WaitingLock | Polling | AtYield | Closing | Ended

  // The close task; `Reaping` keeps the arguments handed to the reaping thread.
  datatype Close =
    | NotRequested
    | Scheduled
    | Reaping(hasPid: bool, isolated: bool)
    | Reaped(stopped: bool)
    | Finished(stopped: bool)

  datatype Req = Req(
    phase: Phase,
    responding: bool,     // the response still iterates the generator
    process: Process,
    isolated: bool,
    startSet: bool,       // `start_event`
    lockAcquired: bool,
    close: Close,
    dirExists: bool)

  const FRESH := Req(Uploading, true, NoPid, false, false, false, NotRequested, true)

  const NEWBORN := Child(true, false, false, false, 0)

  predicate TreeAlive(p: Process)
  {
    p.Started? && (p.child.alive || p.child.descendants > 0)
  }

  // The lock as one request sees it.
  datatype Hold = Free | Mine | Theirs

  /** One request together with what it shares with the others. */
  datatype View = View(q: Req, hold: Hold, quarantined: bool)

  datatype Op =
    | UploadFails | UploadCancelled | Staged
    | FirstNext                    // the response asks for the first chunk
    | LockAcquired(startOk: bool)  // and everything up to the next await
    | ReadyArrives
    | Yields
    | Resumes
    | Unwinds                      // end, exception, cancellation or GeneratorExit: into `finally`
    | Leaves                       // the await in `finally` returns or is cancelled
    | ResponseEnds                 // the response's finalizer
    | CloseStarts | ReapReturns(stopped: bool) | CloseFinishes
    | LeadsGroup | SendsReady | SeesStart | Spawns | DescendantDies | ChildExits

  /** What the reaping thread's last look entitles it to report. */
  predicate MayReport(q: Req, stopped: bool)
    requires q.close.Reaping?
  {
    if !q.close.hasPid || q.process.NoPid? then stopped
    else stopped ==> !q.process.child.alive && (q.close.isolated ==> q.process.child.descendants == 0)
  }

  predicate ChildCan(c: Child, startSet: bool, op: Op)
  {
    match op
    case LeadsGroup => c.alive
    case SendsReady => c.alive && c.ownGroup
    case SeesStart => c.alive && c.readySent && startSet
    case Spawns => (c.alive && c.startSeen) || c.descendants > 0
    case DescendantDies => c.descendants > 0
    case ChildExits => c.alive
    case _ => false
  }

  predicate ChildMay(q: Req, op: Op)
  {
    q.process.Started? && ChildCan(q.process.child, q.startSet, op)
  }

  predicate Enabled(v: View, op: Op)
  {
    var q := v.q;
    match op
    case UploadFails => q.phase.Uploading?
    case UploadCancelled => q.phase.Uploading?
    case Staged => q.phase.Uploading?
    case FirstNext => q.phase.NotStarted? && q.responding
    case LockAcquired(_) => q.phase.WaitingLock? && v.hold.Free?
    case ReadyArrives => q.phase.Polling? && q.process.Started? && q.process.child.readySent
    case Yields => q.phase.Polling?
    case Resumes => q.phase.AtYield? && q.responding
    case Unwinds => q.phase.WaitingLock? || q.phase.Polling? || q.phase.AtYield?
    case Leaves => q.phase.Closing?
    case ResponseEnds => q.responding && (q.phase.NotStarted? || q.phase.AtYield? || q.phase.Ended?)
    case CloseStarts => q.close.Scheduled?
    case ReapReturns(stopped) => q.close.Reaping? && MayReport(q, stopped)
    case CloseFinishes => q.close.Reaped?
    case _ => ChildMay(q, op)
  }

  /** `aclose` creates the close task once; later calls only await it. */
  function CallAclose(q: Req): Req
  {
    if q.close.NotRequested? then q.(close := Scheduled) else q
  }

  function ChildStep(c: Child, op: Op): Child
  {
    match op
    case LeadsGroup => c.(ownGroup := true)
    case SendsReady => c.(readySent := true)
    case SeesStart => c.(startSeen := true)
    case Spawns => c.(descendants := c.descendants + 1)
    case DescendantDies => if c.descendants > 0 then c.(descendants := c.descendants - 1) else c
    case _ => c.(alive := false)
  }

  function Apply(v: View, op: Op): View
  {
    var q := v.q;
    match op
    case UploadFails => v.(q := q.(phase := Ended, responding := false, dirExists := false))
    // `except Exception` does not see a cancellation: the directory stays behind
    case UploadCancelled => v.(q := q.(phase := Ended, responding := false))
    case Staged => v.(q := q.(phase := NotStarted))
    case FirstNext => v.(q := q.(phase := WaitingLock))
    case LockAcquired(startOk) =>
      var locked := q.(lockAcquired := true);
      v.(hold := Mine,
         q := if v.quarantined || !startOk then CallAclose(locked.(phase := Closing))
              else locked.(phase := Polling, process := Started(NEWBORN)))
    case ReadyArrives => v.(q := q.(isolated := true, startSet := true))
    case Yields => v.(q := q.(phase := AtYield))
    case Resumes => v.(q := q.(phase := Polling))
    case Unwinds => v.(q := CallAclose(q.(phase := Closing)))
    case Leaves => v.(q := q.(phase := Ended))
    case ResponseEnds => v.(q := CallAclose(q.(responding := false)))
    case CloseStarts => v.(q := q.(close := Reaping(q.process.Started?, q.isolated)))
    case ReapReturns(stopped) => v.(q := q.(close := Reaped(stopped)))
    case CloseFinishes =>
      if q.close.Reaped? && !q.close.stopped then v.(quarantined := true, q := q.(close := Finished(false)))
      else v.(hold := if q.lockAcquired then Free else v.hold,
              q := q.(close := Finished(true), dirExists := false, lockAcquired := false))
    case _ => if q.process.Started? then v.(q := q.(process := Started(ChildStep(q.process.child, op)))) else v
  }

  // ---- all requests together ------------------------------------------------------------------------

  datatype World = World(lock: Option<ReqId>, quarantined: bool, reqs: map<ReqId, Req>)

  const START := World(None, false, map[])

  datatype Event = Arrives(r: ReqId) | Does(r: ReqId, op: Op)

  function HoldOf(lock: Option<ReqId>, r: ReqId): Hold
  {
    match lock
    case None => Free
    case Some(owner) => if owner == r then Mine else Theirs
  }

  function ViewOf(w: World, r: ReqId): View
    requires r in w.reqs
  {
    View(w.reqs[r], HoldOf(w.lock, r), w.quarantined)
  }

  /** A quarantined worker turns new requests away. */
  predicate Possible(w: World, e: Event)
  {
    match e
    case Arrives(r) => r !in w.reqs && !w.quarantined
    case Does(r, op) => r in w.reqs && Enabled(ViewOf(w, r), op)
  }

  function Next(w: World, e: Event): World
  {
    match e
    case Arrives(r) => w.(reqs := w.reqs[r := FRESH])
    case Does(r, op) =>
      if r !in w.reqs then w
      else
        var v := Apply(ViewOf(w, r), op);
        World(match v.hold case Free => None case Mine => Some(r) case Theirs => w.lock,
              v.quarantined, w.reqs[r := v.q])
  }

  function Run(es: seq<Event>): World
  {
    if es == [] then START else Next(Run(es[..|es| - 1]), es[|es| - 1])
  }

  ghost predicate LegalRun(es: seq<Event>)
  {
    es == [] || (LegalRun(es[..|es| - 1]) && Possible(Run(es[..|es| - 1]), es[|es| - 1]))
  }

  // ---- the invariant ------------------------------------------------------------------------------------

  /** The child's side of the handshake: it is ready only in its own group, starts only once told
      to, and has descendants only after that. */
  ghost predicate ChildOk(c: Child, isolated: bool, startSet: bool)
  {
    && (isolated ==> c.ownGroup)
    && (startSet ==> isolated)
    && (c.readySent ==> c.ownGroup)
    && (c.startSeen ==> startSet)
    && (c.descendants > 0 ==> c.startSeen)
  }

  /** The parent sets the start event only with `isolated`, and `isolated` only for a started child. */
  ghost predicate HandshakeOk(q: Req)
  {
    match q.process
    case NoPid => !q.isolated && !q.startSet
    case Started(c) => ChildOk(c, q.isolated, q.startSet)
  }

  ghost predicate PhaseOk(q: Req)
  {
    match q.phase
    case Uploading => q.responding && q.process.NoPid? && !q.lockAcquired && q.close.NotRequested? && q.dirExists
    case NotStarted => q.process.NoPid? && !q.lockAcquired && (q.responding <==> q.close.NotRequested?)
    case WaitingLock => q.process.NoPid? && !q.lockAcquired && q.responding && q.close.NotRequested?
    case Polling => q.process.Started? && q.responding && q.close.NotRequested?
    case AtYield => q.process.Started? && (q.responding <==> q.close.NotRequested?)
    case Closing => !q.close.NotRequested?
    case Ended => q.close.NotRequested? ==> q.process.NoPid? && !q.lockAcquired
  }

  ghost predicate CloseOk(v: View)
  {
    match v.q.close
    case NotRequested => !v.q.dirExists ==> v.q.phase.Ended? && v.q.process.NoPid?
    case Scheduled => v.q.dirExists || (v.q.process.NoPid? && !v.q.lockAcquired)
    case Reaping(hasPid, isolated) =>
      && (hasPid <==> v.q.process.Started?) && (isolated <==> v.q.isolated)
      && (v.q.dirExists || (v.q.process.NoPid? && !v.q.lockAcquired))
    case Reaped(stopped) =>
      && (stopped ==> !TreeAlive(v.q.process)) && (!stopped ==> v.q.process.Started?)
      && (v.q.dirExists || (v.q.process.NoPid? && !v.q.lockAcquired))
    case Finished(stopped) =>
      && (stopped ==> !TreeAlive(v.q.process) && !v.q.dirExists && !v.q.lockAcquired)
      && (!stopped ==> v.q.process.Started? && v.quarantined && v.q.dirExists && v.q.lockAcquired)
  }

  ghost predicate ViewOk(v: View)
  {
    && HandshakeOk(v.q) && PhaseOk(v.q) && CloseOk(v)
    && (v.q.lockAcquired <==> v.hold.Mine?)
    && (v.q.process.Started? && v.q.close != Finished(true) ==> v.q.lockAcquired)
  }

  ghost predicate Quarantining(w: World, r: ReqId)
  {
    r in w.reqs && w.reqs[r].close == Finished(false)
  }

  ghost predicate RequestOk(w: World, r: ReqId)
  {
    r in w.reqs ==> ViewOk(ViewOf(w, r))
  }

  ghost predicate Inv(w: World)
  {
    && (forall r {:trigger RequestOk(w, r)} :: RequestOk(w, r))
    && (w.lock.Some? ==> w.lock.value in w.reqs)
    && (w.quarantined ==> exists r :: Quarantining(w, r))
  }

  lemma ChildKeepsViewOk(v: View, op: Op)
    requires ViewOk(v) && ChildMay(v.q, op)
    ensures ViewOk(Apply(v, op))
  {
  }

  lemma GeneratorKeepsViewOk(v: View, op: Op)
    requires ViewOk(v) && Enabled(v, op)
    requires op.FirstNext? || op.LockAcquired? || op.ReadyArrives? || op.Yields? || op.Resumes? || op.Unwinds? || op.Leaves?
    ensures ViewOk(Apply(v, op))
  {
  }

  lemma CloseKeepsViewOk(v: View, op: Op)
    requires ViewOk(v) && Enabled(v, op)
    requires op.UploadFails? || op.UploadCancelled? || op.Staged? || op.ResponseEnds?
          || op.CloseStarts? || op.ReapReturns? || op.CloseFinishes?
    ensures ViewOk(Apply(v, op))
  {
  }

  lemma StepKeepsViewOk(v: View, op: Op)
    requires ViewOk(v) && Enabled(v, op)
    ensures ViewOk(Apply(v, op))
  {
    if ChildMay(v.q, op) {
      ChildKeepsViewOk(v, op);
    } else if op.FirstNext? || op.LockAcquired? || op.ReadyArrives? || op.Yields? || op.Resumes? || op.Unwinds? || op.Leaves? {
      GeneratorKeepsViewOk(v, op);
    } else {
      CloseKeepsViewOk(v, op);
    }
  }

  /** Whatever the child and its descendants do in the meantime. */
  lemma ChildEvolves(v: View, c: Child)
    requires ViewOk(v) && v.q.process.Started? && ChildOk(c, v.q.isolated, v.q.startSet)
    requires !TreeAlive(v.q.process) ==> !TreeAlive(Started(c))
    ensures ViewOk(v.(q := v.q.(process := Started(c))))
  {
  }

  /** What a step may change for the other requests: a lock they do not hold, and quarantine. */
  lemma SharedEffects(v: View, op: Op)
    requires ViewOk(v) && Enabled(v, op)
    ensures var u := Apply(v, op);
      && (v.quarantined ==> u.quarantined)
      && (u.hold != v.hold ==> (v.hold.Free? && u.hold.Mine?) || (v.hold.Mine? && u.hold.Free?))
      && (u.quarantined && !v.quarantined ==> u.q.close == Finished(false))
      && (v.q.close.Finished? ==> u.q.close == v.q.close)
  {
  }

  lemma StepKeepsInv(w: World, e: Event)
    requires Inv(w) && Possible(w, e)
    ensures Inv(Next(w, e))
  {
    var w' := Next(w, e);
    assert RequestOk(w, e.r);
    if e.Does? {
      var v := ViewOf(w, e.r);
      StepKeepsViewOk(v, e.op);
      SharedEffects(v, e.op);
      assert ViewOf(w', e.r) == Apply(v, e.op);
    }
    forall r ensures RequestOk(w', r) { assert RequestOk(w, r); }
    if w'.quarantined {
      if w.quarantined {
        var r :| Quarantining(w, r);
        assert Quarantining(w', r);
      } else {
        assert Quarantining(w', e.r);
      }
    }
  }

  lemma {:induction false} RunKeepsInv(es: seq<Event>)
    requires LegalRun(es)
    ensures Inv(Run(es))
  {
    if es != [] {
      RunKeepsInv(es[..|es| - 1]);
      StepKeepsInv(Run(es[..|es| - 1]), es[|es| - 1]);
    }
  }

  // ---- what every interleaving guarantees ------------------------------------------------------------------

  ghost predicate Alive(w: World, r: ReqId)
  {
    r in w.reqs && TreeAlive(w.reqs[r].process)
  }

  /** A free lock means that no child and no descendant is alive. */
  lemma FreeLockMeansQuiet(es: seq<Event>, r: ReqId)
    requires LegalRun(es) && Alive(Run(es), r)
    ensures Run(es).lock == Some(r)
  {
    RunKeepsInv(es);
    assert RequestOk(Run(es), r);
  }

  /** At most one request has a live process tree. */
  lemma OneTreeAtMost(es: seq<Event>, r: ReqId, s: ReqId)
    requires LegalRun(es) && Alive(Run(es), r) && Alive(Run(es), s)
    ensures r == s
  {
    FreeLockMeansQuiet(es, r);
    FreeLockMeansQuiet(es, s);
  }

  /** A request directory goes only after its own process tree is dead. */
  lemma DirectoryOutlivesTree(es: seq<Event>, r: ReqId)
    requires LegalRun(es) && Alive(Run(es), r)
    ensures Run(es).reqs[r].dirExists
  {
    RunKeepsInv(es);
    assert RequestOk(Run(es), r);
  }

  /** The handshake is what makes the reaper's partial check enough: whenever it may report success,
      the whole tree is dead, although without `isolated` it looks only at the child itself. */
  lemma ReportCoversTree(es: seq<Event>, r: ReqId)
    requires LegalRun(es) && r in Run(es).reqs && Run(es).reqs[r].close.Reaping?
    ensures MayReport(Run(es).reqs[r], true) <==> !TreeAlive(Run(es).reqs[r].process)
  {
    RunKeepsInv(es);
    assert RequestOk(Run(es), r);
  }

  /** A tree reported dead stays dead, whatever happens before the close finishes or after it. */
  lemma {:induction false} ReportedDeadStaysDead(es: seq<Event>, more: seq<Event>, r: ReqId)
    requires LegalRun(es + more) && LegalRun(es) && r in Run(es).reqs
    requires Run(es).reqs[r].close == Reaped(true) || Run(es).reqs[r].close == Finished(true)
    ensures r in Run(es + more).reqs && !TreeAlive(Run(es + more).reqs[r].process)
    ensures Run(es + more).reqs[r].close == Reaped(true) || Run(es + more).reqs[r].close == Finished(true)
    decreases |more|
  {
    RunKeepsInv(es);
    assert RequestOk(Run(es), r);
    if more == [] {
      assert es + more == es;
    } else {
      var init, last := more[..|more| - 1], more[|more| - 1];
      assert es + more == es + init + [last];
      RunExtends(es + init, last);
      ReportedDeadStaysDead(es, init, r);
      RunKeepsInv(es + init);
      assert RequestOk(Run(es + init), r);
      if last.Does? && last.r == r {
        DeadTreeStep(ViewOf(Run(es + init), r), last.op);
      }
    }
  }

  lemma DeadTreeStep(v: View, op: Op)
    requires ViewOk(v) && Enabled(v, op) && (v.q.close == Reaped(true) || v.q.close == Finished(true))
    ensures var q := Apply(v, op).q; !TreeAlive(q.process) && (q.close == Reaped(true) || q.close == Finished(true))
  {
  }

  /** Descendants can be found: while any is alive, `isolated` is set and they are in the child's own group. */
  lemma DescendantsAreIsolated(es: seq<Event>, r: ReqId)
    requires LegalRun(es) && r in Run(es).reqs
    requires Run(es).reqs[r].process.Started? && Run(es).reqs[r].process.child.descendants > 0
    ensures Run(es).reqs[r].isolated && Run(es).reqs[r].process.child.ownGroup
  {
    RunKeepsInv(es);
    assert RequestOk(Run(es), r);
  }

  ghost predicate Children(w: World, r: ReqId)
  {
    r in w.reqs && w.reqs[r].process.Started?
  }

  lemma QuarantinedStep(w: World, e: Event)
    requires Inv(w) && Possible(w, e) && w.quarantined
    ensures Next(w, e).quarantined && Next(w, e).lock == w.lock && w.lock.Some?
    ensures forall r :: Children(Next(w, e), r) ==> Children(w, r)
  {
    var r :| Quarantining(w, r);
    assert RequestOk(w, r) && RequestOk(w, e.r);
    if e.Does? {
      SharedEffects(ViewOf(w, e.r), e.op);
    }
  }

  lemma RunExtends(es: seq<Event>, e: Event)
    ensures Run(es + [e]) == Next(Run(es), e)
    ensures LegalRun(es + [e]) <==> LegalRun(es) && Possible(Run(es), e)
  {
    assert (es + [e])[..|es|] == es;
  }

  /** Quarantine is for good: the lock keeps its owner and no child ever starts again. */
  lemma {:induction false} QuarantineIsFinal(es: seq<Event>, more: seq<Event>)
    requires LegalRun(es + more) && LegalRun(es) && Run(es).quarantined
    ensures Run(es + more).quarantined && Run(es + more).lock == Run(es).lock && Run(es).lock.Some?
    ensures forall r :: Children(Run(es + more), r) ==> Children(Run(es), r)
    decreases |more|
  {
    RunKeepsInv(es);
    if more == [] {
      assert es + more == es;
      var r :| Quarantining(Run(es), r);
      assert RequestOk(Run(es), r);
    } else {
      var init, last := more[..|more| - 1], more[|more| - 1];
      assert es + more == es + init + [last];
      RunExtends(es + init, last);
      QuarantineIsFinal(es, init);
      RunKeepsInv(es + init);
      QuarantinedStep(Run(es + init), last);
    }
  }

  /** A quarantined request keeps its lock and its directory; every other finished close has deleted
      its directory and given the lock back. */
  lemma CloseOutcome(es: seq<Event>, r: ReqId)
    requires LegalRun(es) && r in Run(es).reqs && Run(es).reqs[r].close.Finished?
    ensures var w := Run(es); var q := w.reqs[r];
      if q.close.stopped then !q.dirExists && w.lock != Some(r) && !TreeAlive(q.process)
      else w.quarantined && q.dirExists && w.lock == Some(r)
  {
    RunKeepsInv(es);
    assert RequestOk(Run(es), r);
  }

  /** The lock is never lost: whoever holds it is still generating, or has a close under way, or is
      the request that quarantined the worker. So it is free once every close has succeeded. */
  lemma LockIsAccountedFor(es: seq<Event>)
    requires LegalRun(es) && Run(es).lock.Some?
    ensures Run(es).lock.value in Run(es).reqs
    ensures var w := Run(es); var q := w.reqs[w.lock.value];
      && q.lockAcquired && q.close != Finished(true)
      && (q.close.NotRequested? ==> q.phase.Polling? || q.phase.AtYield?)
      && (q.close.Finished? ==> w.quarantined)
  {
    RunKeepsInv(es);
    assert RequestOk(Run(es), Run(es).lock.value);
  }

  /** The lock changes hands in two ways only: a waiting request takes a free lock, and a close that
      stopped the process gives back the lock of its own request. */
  lemma LockChangesHands(es: seq<Event>, e: Event)
    requires LegalRun(es + [e]) && LegalRun(es) && Run(es + [e]).lock != Run(es).lock
    ensures var w, w' := Run(es), Run(es + [e]);
      && e.Does? && e.r in w.reqs
      && (|| (e.op.LockAcquired? && w.lock == None && w'.lock == Some(e.r))
          || (e.op.CloseFinishes? && w.reqs[e.r].close == Reaped(true) && w.lock == Some(e.r) && w'.lock == None))
  {
    RunExtends(es, e);
    RunKeepsInv(es);
    assert RequestOk(Run(es), e.r);
    if e.Does? {
      HoldChanges(ViewOf(Run(es), e.r), e.op);
    }
  }

  lemma HoldChanges(v: View, op: Op)
    requires ViewOk(v) && Enabled(v, op) && Apply(v, op).hold != v.hold
    ensures (op.LockAcquired? && v.hold.Free?) || (op.CloseFinishes? && v.q.close == Reaped(true) && v.hold.Mine?)
  {
  }

  /** A close takes effect once: it finds the reaper's report and leaves its outcome for good. */
  lemma CloseRunsOnce(es: seq<Event>, e: Event)
    requires LegalRun(es + [e]) && LegalRun(es) && e.Does? && e.op.CloseFinishes?
    ensures var w, w' := Run(es), Run(es + [e]);
      && e.r in w.reqs && e.r in w'.reqs && w.reqs[e.r].close.Reaped?
      && w'.reqs[e.r].close == Finished(w.reqs[e.r].close.stopped)
  {
    RunExtends(es, e);
    RunKeepsInv(es);
    assert RequestOk(Run(es), e.r);
  }

  function Stage(c: Close): nat
  {
    match c
    case NotRequested => 0
    case Scheduled => 1
    case Reaping(_, _) => 2
    case Reaped(_) => 3
    case Finished(_) => 4
  }

  lemma StepAdvancesClose(v: View, op: Op)
    requires Enabled(v, op)
    ensures Stage(v.q.close) <= Stage(Apply(v, op).q.close) <= Stage(v.q.close) + 1
  {
    match op
    case LockAcquired(_) =>
    case Unwinds =>
    case ResponseEnds =>
    case CloseStarts =>
    case ReapReturns(_) =>
    case CloseFinishes =>
    case _ => assert Apply(v, op).q.close == v.q.close;
  }

  /** `aclose` is idempotent: however often it is called, the close task moves once through its stages. */
  lemma {:induction false} CloseOnlyAdvances(es: seq<Event>, more: seq<Event>, r: ReqId)
    requires LegalRun(es + more) && LegalRun(es) && r in Run(es).reqs
    ensures r in Run(es + more).reqs && Stage(Run(es).reqs[r].close) <= Stage(Run(es + more).reqs[r].close)
    decreases |more|
  {
    if more == [] {
      assert es + more == es;
    } else {
      var init, last := more[..|more| - 1], more[|more| - 1];
      assert es + more == es + init + [last];
      RunExtends(es + init, last);
      CloseOnlyAdvances(es, init, r);
      if last.Does? {
        StepAdvancesClose(ViewOf(Run(es + init), last.r), last.op);
      }
    }
  }

  // A request whose child outlived every signal, just before its close finishes.
  const SURVIVED := Req(Closing, true, Started(NEWBORN), false, false, true, Reaped(false), true)

  lemma ChildSurvives() returns (es: seq<Event>)
    ensures LegalRun(es) && Run(es) == World(Some(0), false, map[0 := SURVIVED])
  {
    var ops := [Staged, FirstNext, LockAcquired(true), Unwinds, CloseStarts, ReapReturns(false)];
    es := [] + [Arrives(0)];
    RunExtends([], Arrives(0));
    ghost var q := FRESH;
    for i := 0 to |ops|
      invariant LegalRun(es) && Run(es) == World(if i >= 3 then Some(0) else None, false, map[0 := q])
      invariant q == FRESH.(
        phase := if i == 0 then Uploading else if i == 1 then NotStarted else if i == 2 then WaitingLock
                 else if i == 3 then Polling else Closing,
        process := if i >= 3 then Started(NEWBORN) else NoPid,
        lockAcquired := i >= 3,
        close := if i < 4 then NotRequested else if i == 4 then Scheduled else if i == 5 then Reaping(true, false) else Reaped(false))
    {
      RunExtends(es, Does(0, ops[i]));
      assert Enabled(ViewOf(Run(es), 0), ops[i]);
      q := Apply(ViewOf(Run(es), 0), ops[i]).q;
      es := es + [Does(0, ops[i])];
    }
  }

  /** A child that cannot be reaped does quarantine the worker, with the lock and the directory kept. */
  lemma QuarantineHappens() returns (es: seq<Event>)
    ensures LegalRun(es) && Run(es).quarantined && Alive(Run(es), 0) && Run(es).reqs[0].dirExists
  {
    var survived := ChildSurvives();
    RunExtends(survived, Does(0, CloseFinishes));
    es := survived + [Does(0, CloseFinishes)];
  }

  // ---- the objects ---------------------------------------------------------------------------------------

  datatype Signal = Terminate(group: bool) | Kill(group: bool)

  /** The operating system's side of a started process and its group. Once killed, what was
      addressed is gone after `lag` more waits, or never. */
  class OsTree {
    var child: Child
    var sent: seq<Signal>
    var fuse: nat
    const lag: Option<nat>

    constructor (lag: Option<nat>)
      ensures this.lag == lag && child == NEWBORN && sent == []
    {
      this.lag, child, sent, fuse := lag, NEWBORN, [], 0;
    }

    /** `_process_group_exists`: the child leads the group and is a member of it. */
    predicate GroupExists()
      reads this
    {
      child.alive || child.descendants > 0
    }

    method Send(signal: Signal)
      modifies this`sent, this`fuse
      ensures sent == old(sent) + [signal]
      ensures fuse == if signal.Kill? && lag.Some? then lag.value else old(fuse)
    {
      sent := sent + [signal];
      if signal.Kill? && lag.Some? {
        fuse := lag.value;
      }
    }

    /** Time passes: the child and its descendants take any steps they can. The dead stay dead. */
    method Elapse(isolated: bool, startSet: bool)
      requires ChildOk(child, isolated, startSet)
      modifies this`child, this`fuse
      ensures ChildOk(child, isolated, startSet)
      ensures child.alive ==> old(child.alive)
      ensures !TreeAlive(Started(old(child))) ==> !TreeAlive(Started(child))
      ensures fuse == if old(fuse) == 0 then 0 else old(fuse) - 1
      ensures lag.Some? && sent != [] && sent[|sent| - 1].Kill? && old(fuse) <= 1 && (sent[|sent| - 1].group || !isolated) ==>
        !TreeAlive(Started(child))
    {
      var steps: nat := *;
      while steps > 0
        invariant fuse == old(fuse)
        invariant ChildOk(child, isolated, startSet)
        invariant child.alive ==> old(child.alive)
        invariant !TreeAlive(Started(old(child))) ==> !TreeAlive(Started(child))
        decreases steps
      {
        var op: Op := *;
        if ChildCan(child, startSet, op) {
          child := ChildStep(child, op);
        }
        steps := steps - 1;
      }
      if lag.Some? && sent != [] && sent[|sent| - 1].Kill? && fuse <= 1 {
        // a child that is not isolated has no descendants to survive it
        child := child.(alive := false, descendants := if sent[|sent| - 1].group then 0 else child.descendants);
      }
      fuse := if fuse == 0 then 0 else fuse - 1;
    }
  }

  /** `_terminate_and_join_soulx_process`; `polls` bounds the last wait for the group, and any signal
      or wait may raise. Short of that the report is exactly whether the whole tree is dead, although
      without `isolated` only the child is looked at; and if killing works in time, it succeeds. */
  method TerminateAndJoin(tree: OsTree?, isolated: bool, startSet: bool, polls: nat) returns (stopped: bool, raised: bool)
    requires tree != null ==> ChildOk(tree.child, isolated, startSet)
    modifies tree
    ensures tree == null ==> stopped
    ensures stopped ==> !raised
    ensures tree != null ==>
      && ChildOk(tree.child, isolated, startSet)
      && (stopped ==> !TreeAlive(Started(tree.child)))
      && (!TreeAlive(Started(old(tree.child))) ==> !TreeAlive(Started(tree.child)))
    ensures tree != null && !raised ==>
      && (stopped <==> !TreeAlive(Started(tree.child)))
      && (old(tree.child.alive) ==> |tree.sent| > |old(tree.sent)| && tree.sent[|old(tree.sent)|] == Terminate(isolated))
      && (!stopped ==> tree.sent != [] && tree.sent[|tree.sent| - 1] == Kill(isolated))
      && (tree.lag.Some? && tree.lag.value <= (if isolated then 1 + polls else 1) ==> stopped)
  {
    raised := false;
    if tree == null {
      return true, false;
    }
    ghost var sent0 := tree.sent;
    if tree.child.alive {
      tree.Send(Terminate(isolated));
    }
    tree.Elapse(isolated, startSet);  // join
    if tree.child.alive || (isolated && tree.GroupExists()) {
      tree.Send(Kill(isolated));
      tree.Elapse(isolated, startSet);  // join
    }
    var left := polls;
    while isolated && tree.GroupExists() && left > 0
      invariant ChildOk(tree.child, isolated, startSet)
      invariant !TreeAlive(Started(old(tree.child))) ==> !TreeAlive(Started(tree.child))
      invariant left <= polls && sent0 <= tree.sent
      invariant old(tree.child.alive) ==> |tree.sent| > |sent0| && tree.sent[|sent0|] == Terminate(isolated)
      invariant TreeAlive(Started(tree.child)) ==> tree.sent != [] && tree.sent[|tree.sent| - 1] == Kill(isolated)
      invariant TreeAlive(Started(tree.child)) && tree.lag.Some? && tree.lag.value <= (if isolated then 1 + polls else 1) ==>
        isolated && tree.fuse <= left && tree.fuse > 0
      decreases left
    {
      tree.Elapse(isolated, startSet);
      left := left - 1;
    }
    raised := *;
    if raised {
      return false, true;
    }
    stopped := !tree.child.alive && !(isolated && tree.GroupExists());
  }

  /** The globals. */
  class Worker {
    var lock: Option<ReqId>
    var quarantined: bool

    constructor ()
      ensures lock == None && !quarantined
    {
      lock, quarantined := None, false;
    }
  }

  /** `_SoulXStreamLifecycle` with the generator that owns it. */
  class Lifecycle {
    const id: ReqId
    const worker: Worker
    var phase: Phase
    var responding: bool
    var process: Process
    var isolated: bool
    var startSet: bool
    var lockAcquired: bool
    var close: Close
    var dirExists: bool

    constructor (id: ReqId, worker: Worker)
      ensures this.id == id && this.worker == worker
      ensures State() == View(FRESH, HoldOf(worker.lock, id), worker.quarantined)
    {
      this.id, this.worker := id, worker;
      phase, responding, process, isolated, startSet := Uploading, true, NoPid, false, false;
      lockAcquired, close, dirExists := false, NotRequested, true;
    }

    ghost function State(): View
      reads this, worker
    {
      View(Req(phase, responding, process, isolated, startSet, lockAcquired, close, dirExists),
           HoldOf(worker.lock, id), worker.quarantined)
    }

    method Aclose()
      modifies `close
      ensures State() == old(State()).(q := CallAclose(old(State()).q))
    {
      if close == NotRequested {
        close := Scheduled;
      }
    }

    /** `generate`, from the moment the lock is acquired to the first await. */
    method OnLock(startOk: bool)
      requires ViewOk(State()) && Enabled(State(), LockAcquired(startOk))
      modifies this, worker
      ensures ViewOk(State()) && State() == Apply(old(State()), LockAcquired(startOk))
    {
      StepKeepsViewOk(State(), LockAcquired(startOk));
      worker.lock := Some(id);
      lockAcquired := true;
      if worker.quarantined || !startOk {
        phase := Closing;
        Aclose();
        return;
      }
      process := Started(NEWBORN);
      phase := Polling;
    }

    method OnReady()
      requires ViewOk(State()) && Enabled(State(), ReadyArrives)
      modifies this
      ensures ViewOk(State()) && State() == Apply(old(State()), ReadyArrives)
    {
      StepKeepsViewOk(State(), ReadyArrives);
      isolated := true;
      startSet := true;
    }

    /** The `finally` of `generate`, up to its await. */
    method Unwind()
      requires ViewOk(State()) && Enabled(State(), Unwinds)
      modifies this
      ensures ViewOk(State()) && State() == Apply(old(State()), Unwinds)
    {
      StepKeepsViewOk(State(), Unwinds);
      phase := Closing;
      Aclose();
    }

    /** The finalizer of the response. */
    method FinalizeResponse()
      requires ViewOk(State()) && Enabled(State(), ResponseEnds)
      modifies this
      ensures ViewOk(State()) && State() == Apply(old(State()), ResponseEnds)
    {
      StepKeepsViewOk(State(), ResponseEnds);
      responding := false;
      Aclose();
    }

    /** `_close_impl`, up to the reaping thread. */
    method CloseBegins()
      requires ViewOk(State()) && Enabled(State(), CloseStarts)
      modifies this
      ensures ViewOk(State()) && State() == Apply(old(State()), CloseStarts)
    {
      StepKeepsViewOk(State(), CloseStarts);
      close := Reaping(process.Started?, isolated);
    }

    /** The reaping thread, from the close task's point of view: the child took some steps, and the
        report is one the thread may make. */
    method Reap(tree: OsTree?, polls: nat)
      requires ViewOk(State()) && close.Reaping?
      requires process == if tree == null then NoPid else Started(tree.child)
      modifies this, tree
      ensures ViewOk(State()) && close.Reaped?
      ensures var seen := old(State().q).(process := process);
        && MayReport(seen, close.stopped)
        && State() == Apply(old(State()).(q := seen), ReapReturns(close.stopped))
      ensures process == if tree == null then NoPid else Started(tree.child)
      ensures close.stopped ==> !TreeAlive(process)
    {
      var stopped, _ := TerminateAndJoin(tree, close.isolated, startSet, polls);
      if tree != null {
        ChildEvolves(State(), tree.child);
        process := Started(tree.child);
      }
      StepKeepsViewOk(State(), ReapReturns(stopped));
      close := Reaped(stopped);
    }

    /** `_close_impl`, once the reaping thread has reported. */
    method CloseEnds()
      requires ViewOk(State()) && Enabled(State(), CloseFinishes)
      modifies this, worker
      ensures ViewOk(State()) && State() == Apply(old(State()), CloseFinishes)
    {
      StepKeepsViewOk(State(), CloseFinishes);
      if close.stopped {
        dirExists := false;
        if lockAcquired {
          worker.lock := None;
          lockAcquired := false;
        }
        close := Finished(true);
        return;
      }
      worker.quarantined := true;
      close := Finished(false);
    }
  }
}
