/** The per-run event log of services/observability/src/harnesslab/events.py, with live
    subscribers. Its critical sections contain no await, so each public step is atomic. */
module EventBus {

  type RunId = string

  type SubId = nat

  datatype Event = Event(run: RunId, sequence: nat, kind: string)

  // A subscription: what was replayed at subscription time and is not yet delivered, what is
  // queued live, and everything delivered so far. `joined` is the log length it subscribed at;
  // `live` says that the generator has left the backlog loop and entered its try block.
  datatype Sub = Sub(run: RunId, after: int, joined: nat, open: bool, live: bool, registered: bool,
                     backlog: seq<Event>, queue: seq<Event>, delivered: seq<Event>)

  datatype Bus = Bus(logs: map<RunId, seq<Event>>, subs: map<SubId, Sub>)

  function Log(b: Bus, run: RunId): seq<Event>
  {
    if run in b.logs then b.logs[run] else []
  }

  function Above(log: seq<Event>, after: int): seq<Event>
  {
    if log == [] then []
    else Above(log[..|log| - 1], after) + if log[|log| - 1].sequence > after then [log[|log| - 1]] else []
  }

  function Publish(b: Bus, run: RunId, kind: string): Bus
  {
    var e := Event(run, |Log(b, run)| + 1, kind);
    Bus(b.logs[run := Log(b, run) + [e]],
        map i | i in b.subs ::
          if b.subs[i].registered && b.subs[i].run == run then b.subs[i].(queue := b.subs[i].queue + [e]) else b.subs[i])
  }

  /** The generator runs to its next suspension: it hands over the next event of the backlog, or
      enters its try block and hands over the head of the queue, or waits there. */
  function Deliver(s: Sub): Sub
  {
    if s.backlog != [] then s.(backlog := s.backlog[1..], delivered := s.delivered + [s.backlog[0]])
    else if s.queue != [] then s.(live := true, queue := s.queue[1..], delivered := s.delivered + [s.queue[0]])
    else s.(live := true)
  }

  /** The first `__anext__`: backlog and registration in one critical section, then on to the first
      suspension, with no await in between. */
  function Subscribe(b: Bus, i: SubId, run: RunId, after: int): Bus
  {
    var joining := Sub(run, after, |Log(b, run)|, true, false, true, Above(Log(b, run), after), [], []);
    b.(subs := b.subs[i := Deliver(joining)])
  }

  function Next(b: Bus, i: SubId): Bus
  {
    if i in b.subs && b.subs[i].open then b.(subs := b.subs[i := Deliver(b.subs[i])]) else b
  }

  /** Closing the generator reaches the `finally` that discards the queue only once it is live. */
  function Close(b: Bus, i: SubId): Bus
  {
    if i in b.subs && b.subs[i].open then
      b.(subs := b.subs[i := b.subs[i].(open := false, registered := !b.subs[i].live)])
    else b
  }

  // ---- runs ------------------------------------------------------------------------------

  datatype Op =
    | OpPublish(run: RunId, kind: string)
    | OpSubscribe(i: SubId, run: RunId, after: int)
    | OpNext(i: SubId)
    | OpClose(i: SubId)

  function Apply(b: Bus, op: Op): Bus
  {
    match op
    case OpPublish(run, kind) => Publish(b, run, kind)
    case OpSubscribe(i, run, after) => Subscribe(b, i, run, after)
    case OpNext(i) => Next(b, i)
    case OpClose(i) => Close(b, i)
  }

  ghost predicate Legal(b: Bus, op: Op)
  {
    op.OpSubscribe? ==> op.i !in b.subs
  }

  function Run(ops: seq<Op>): Bus
  {
    if ops == [] then Bus(map[], map[]) else Apply(Run(ops[..|ops| - 1]), ops[|ops| - 1])
  }

  ghost predicate LegalRun(ops: seq<Op>)
  {
    ops == [] || (LegalRun(ops[..|ops| - 1]) && Legal(Run(ops[..|ops| - 1]), ops[|ops| - 1]))
  }

  /** Numbered 1, 2, 3, ... for its own run. */
  ghost predicate Numbered(log: seq<Event>, run: RunId)
  {
    forall k :: 0 <= k < |log| ==> log[k].sequence == k + 1 && log[k].run == run
  }

  function Clamp(after: int, n: nat): nat
  {
    if after < 0 then 0 else if after > n then n else after
  }

  /** Everything due to a subscriber: delivered, then waiting. */
  function Due(s: Sub): seq<Event>
  {
    s.delivered + s.backlog + s.queue
  }

  /** What an open subscriber was and will be given is the log from its effective start on. */
  ghost predicate SubOk(b: Bus, i: SubId)
    requires i in b.subs
  {
    var s := b.subs[i];
    && s.joined <= |Log(b, s.run)|
    && (s.open ==> s.registered)
    && (!s.live ==> s.after < s.joined)
    && (s.live ==> s.backlog == [])
    && (s.registered ==> Due(s) == Log(b, s.run)[Clamp(s.after, s.joined)..])
    && (!s.registered ==> s.delivered <= Log(b, s.run)[Clamp(s.after, s.joined)..])
  }

  ghost predicate Inv(b: Bus)
  {
    && (forall run {:trigger Numbered(Log(b, run), run)} :: Numbered(Log(b, run), run))
    && (forall i {:trigger SubOk(b, i)} :: i in b.subs ==> SubOk(b, i))
  }

  lemma SuffixStep(init: seq<Event>, e: Event, from: nat)
    requires from <= |init|
    ensures (init + [e])[from..] == init[from..] + [e]
  {
  }

  lemma {:induction false} AboveIsSuffix(log: seq<Event>, run: RunId, after: int)
    requires Numbered(log, run)
    ensures Above(log, after) == log[Clamp(after, |log|)..]
  {
    if log != [] {
      var init, e := log[..|log| - 1], log[|log| - 1];
      AboveIsSuffix(init, run, after);
      assert log == init + [e] && e.sequence == |log|;
      if after < |log| {
        SuffixStep(init, e, Clamp(after, |init|));
      }
    }
  }

  lemma QueuedIsDue(s: Sub, e: Event)
    ensures Due(s.(queue := s.queue + [e])) == Due(s) + [e]
  {
  }

  lemma PublishKeepsSub(b: Bus, run: RunId, kind: string, i: SubId)
    requires Inv(b) && i in b.subs
    ensures SubOk(Publish(b, run, kind), i)
  {
    assert SubOk(b, i);
    var s, log := b.subs[i], Log(b, run);
    if s.run == run {
      var e := Event(run, |log| + 1, kind);
      SuffixStep(log, e, Clamp(s.after, s.joined));
      if s.registered {
        QueuedIsDue(s, e);
      }
    }
  }

  lemma HandOver(given: seq<Event>, waiting: seq<Event>)
    requires waiting != []
    ensures given + [waiting[0]] + waiting[1..] == given + waiting
  {
  }

  lemma DeliverKeepsDue(s: Sub)
    ensures Due(Deliver(s)) == Due(s)
  {
    if s.backlog != [] {
      HandOver(s.delivered, s.backlog);
    } else if s.queue != [] {
      HandOver(s.delivered, s.queue);
      assert s.delivered + s.backlog == s.delivered;
      assert Deliver(s).delivered + [] == Deliver(s).delivered;
    }
  }

  lemma NextKeepsSub(b: Bus, i: SubId, j: SubId)
    requires Inv(b) && j in b.subs
    ensures SubOk(Next(b, i), j)
  {
    assert SubOk(b, j);
    if i in b.subs {
      DeliverKeepsDue(b.subs[i]);
    }
  }

  lemma NewSubOk(b: Bus, i: SubId, run: RunId, after: int)
    requires Inv(b)
    ensures SubOk(Subscribe(b, i, run, after), i)
  {
    var log := Log(b, run);
    var joining := Sub(run, after, |log|, true, false, true, Above(log, after), [], []);
    assert Numbered(log, run);
    AboveIsSuffix(log, run, after);
    assert Due(joining) == joining.backlog;
    DeliverKeepsDue(joining);
  }

  lemma SubscribeKeepsSub(b: Bus, j: SubId, run: RunId, after: int, i: SubId)
    requires Inv(b) && i in b.subs && i != j
    ensures SubOk(Subscribe(b, j, run, after), i)
  {
    assert SubOk(b, i);
    assert Log(Subscribe(b, j, run, after), b.subs[i].run) == Log(b, b.subs[i].run);
  }

  lemma CloseKeepsSub(b: Bus, j: SubId, i: SubId)
    requires Inv(b) && i in b.subs
    ensures SubOk(Close(b, j), i)
  {
    assert SubOk(b, i);
    assert b.subs[i].delivered <= Due(b.subs[i]);
  }

  lemma StepKeepsInv(b: Bus, op: Op)
    requires Inv(b) && Legal(b, op)
    ensures Inv(Apply(b, op))
  {
    var b' := Apply(b, op);
    forall run ensures Numbered(Log(b', run), run) {
      assert Numbered(Log(b, run), run);
    }
    forall i | i in b'.subs ensures SubOk(b', i) {
      match op
      case OpPublish(run, kind) => PublishKeepsSub(b, run, kind, i);
      case OpSubscribe(j, run, after) =>
        if i == j { NewSubOk(b, j, run, after); } else { SubscribeKeepsSub(b, j, run, after, i); }
      case OpNext(j) => NextKeepsSub(b, j, i);
      case OpClose(j) => CloseKeepsSub(b, j, i);
    }
  }

  lemma {:induction false} RunKeepsInv(ops: seq<Op>)
    requires LegalRun(ops)
    ensures Inv(Run(ops))
  {
    if ops != [] {
      RunKeepsInv(ops[..|ops| - 1]);
      StepKeepsInv(Run(ops[..|ops| - 1]), ops[|ops| - 1]);
    }
  }

  /** Every log is numbered 1..n, whatever the interleaving of publishers. */
  lemma {:induction false} LogsAreNumbered(ops: seq<Op>, run: RunId, k: nat)
    requires LegalRun(ops) && k < |Log(Run(ops), run)|
    ensures Log(Run(ops), run)[k].sequence == k + 1 && Log(Run(ops), run)[k].run == run
  {
    RunKeepsInv(ops);
    assert Numbered(Log(Run(ops), run), run);
  }

  /** What the subscriber asked for: exactly the events numbered above `after`. */
  ghost predicate GetsWhatItAsked(b: Bus, i: SubId)
    requires i in b.subs
  {
    Due(b.subs[i]) == Above(Log(b, b.subs[i].run), b.subs[i].after)
  }

  /** Delivery is exact, with no gap or duplicate across the handover, precisely when `after`
      did not lie beyond the log at subscription, or nothing was published since. */
  lemma DeliveryExactly(ops: seq<Op>, i: SubId)
    requires LegalRun(ops) && i in Run(ops).subs && Run(ops).subs[i].open
    ensures var b := Run(ops); var s := b.subs[i];
      GetsWhatItAsked(b, i) <==> s.after <= s.joined || |Log(b, s.run)| == s.joined
  {
    RunKeepsInv(ops);
    var b := Run(ops);
    var s := b.subs[i];
    var log := Log(b, s.run);
    assert SubOk(b, i) && Numbered(log, s.run);
    AboveIsSuffix(log, s.run, s.after);
    if s.after > s.joined && |log| > s.joined {
      assert |Due(s)| == |log| - s.joined;
      assert |Above(log, s.after)| < |log| - s.joined;
    }
  }

  /** The delivered events are consecutive log entries from the effective start, in order. */
  lemma DeliveredInOrder(ops: seq<Op>, i: SubId, k: nat)
    requires LegalRun(ops) && i in Run(ops).subs && k < |Run(ops).subs[i].delivered|
    ensures var s := Run(ops).subs[i];
      s.delivered[k].sequence == Clamp(s.after, s.joined) + k + 1 && s.delivered[k].run == s.run
  {
    RunKeepsInv(ops);
    var b := Run(ops);
    var s := b.subs[i];
    var from := Clamp(s.after, s.joined);
    assert SubOk(b, i) && Numbered(Log(b, s.run), s.run);
    if s.registered {
      assert Due(s)[k] == s.delivered[k] == Log(b, s.run)[from..][k];
    } else {
      assert s.delivered[k] == Log(b, s.run)[from..][k];
    }
  }

  /** Closing a subscriber that is still replaying its backlog keeps its queue registered: events
      go on piling up there. Closing it any later unregisters it; with nothing to replay, that is
      from the start. */
  lemma {:induction false} ClosedEarlyStaysRegistered(ops: seq<Op>, i: SubId, kind: string)
    requires LegalRun(ops) && i in Run(ops).subs && Run(ops).subs[i].open
    ensures var s := Run(ops).subs[i];
      var b := Publish(Close(Run(ops), i), s.run, kind);
      |b.subs[i].queue| == |s.queue| + if s.live then 0 else 1
    ensures var s := Run(ops).subs[i];
      && (s.joined <= s.after ==> s.live)
      && (|s.delivered| > s.joined - Clamp(s.after, s.joined) ==> s.live)
  {
    RunKeepsInv(ops);
    var b := Run(ops);
    var s := b.subs[i];
    assert SubOk(b, i);
    if !s.live {
      ReplayingHasOnlyBacklog(ops, i);
    }
  }

  /** Until it is live, a subscriber has been given nothing that was published after it subscribed. */
  lemma {:induction false} ReplayingHasOnlyBacklog(ops: seq<Op>, i: SubId)
    requires LegalRun(ops) && i in Run(ops).subs
    ensures OnlyBacklog(Run(ops), i)
  {
    if ops != [] {
      var init, op := ops[..|ops| - 1], ops[|ops| - 1];
      RunKeepsInv(init);
      if i in Run(init).subs {
        ReplayingHasOnlyBacklog(init, i);
      }
      OnlyBacklogStep(Run(init), op, i);
    }
  }

  ghost predicate OnlyBacklog(b: Bus, i: SubId)
    requires i in b.subs
  {
    var s := b.subs[i];
    !s.live ==> |s.delivered| + |s.backlog| == s.joined - Clamp(s.after, s.joined)
  }

  lemma OnlyBacklogStep(b: Bus, op: Op, i: SubId)
    requires Inv(b) && Legal(b, op) && i in Apply(b, op).subs && (i in b.subs ==> OnlyBacklog(b, i))
    ensures OnlyBacklog(Apply(b, op), i)
  {
    if op.OpSubscribe? && op.i == i {
      assert Numbered(Log(b, op.run), op.run);
      AboveIsSuffix(Log(b, op.run), op.run, op.after);
    }
  }

  // ---- resuming the generator -----------------------------------------------------------------------

  function Waiting(s: Sub): seq<Event>
  {
    s.backlog + s.queue
  }

  /** A resumption hands over the first waiting event, if there is one, and leaves the rest waiting. */
  lemma ResumptionDelivers(b: Bus, i: SubId)
    requires i in b.subs && b.subs[i].open
    ensures var s := b.subs[i]; var b' := Next(b, i); var s' := b'.subs[i];
      && b'.logs == b.logs && b'.subs == b.subs[i := s']
      && s'.(live := s.live, backlog := s.backlog, queue := s.queue, delivered := s.delivered) == s
      && if Waiting(s) == [] then s'.delivered == s.delivered && Waiting(s') == []
         else s'.delivered == s.delivered + [Waiting(s)[0]] && Waiting(s') == Waiting(s)[1..]
  {
  }

  function Resumed(b: Bus, i: SubId, n: nat): Bus
    decreases n
  {
    if n == 0 then b else Resumed(Next(b, i), i, n - 1)
  }

  /** As many resumptions as events wait hand over everything that is due. */
  lemma {:induction false} ResumptionsDeliverAll(b: Bus, i: SubId, n: nat)
    requires i in b.subs && b.subs[i].open && n == |Waiting(b.subs[i])|
    ensures i in Resumed(b, i, n).subs
    ensures var s' := Resumed(b, i, n).subs[i]; s'.delivered == Due(b.subs[i]) && Waiting(s') == [] && s'.open
    decreases n
  {
    var s := b.subs[i];
    assert Due(s) == s.delivered + Waiting(s);
    if n > 0 {
      ResumptionDelivers(b, i);
      var s' := Next(b, i).subs[i];
      assert Due(s') == s'.delivered + Waiting(s');
      HandOver(s.delivered, Waiting(s));
      ResumptionsDeliverAll(Next(b, i), i, n - 1);
    }
  }

  /** Over any run, such a subscriber has then been handed exactly the events it asked for, if it did
      not ask beyond the log. */
  lemma EverythingIsHandedOver(ops: seq<Op>, i: SubId)
    requires LegalRun(ops) && i in Run(ops).subs && Run(ops).subs[i].open
    ensures var b := Run(ops); var s := b.subs[i]; var n := |Waiting(s)|;
      && i in Resumed(b, i, n).subs
      && (s.after <= s.joined ==> Resumed(b, i, n).subs[i].delivered == Above(Log(b, s.run), s.after))
  {
    DeliveryExactly(ops, i);
    ResumptionsDeliverAll(Run(ops), i, |Waiting(Run(ops).subs[i])|);
  }

  // ---- subscribing and closing ------------------------------------------------------------------------

  /** A new subscriber is open and registered, remembers what it asked for, and is due exactly the events
      logged so far above `after`, the first of them handed over at once. */
  lemma SubscriptionStarts(b: Bus, i: SubId, run: RunId, after: int)
    ensures var b' := Subscribe(b, i, run, after); var s := b'.subs[i]; var asked := Above(Log(b, run), after);
      && b'.logs == b.logs && b'.subs == b.subs[i := s]
      && s.open && s.registered && s.run == run && s.after == after && s.joined == |Log(b, run)|
      && s.queue == [] && s.delivered + s.backlog == asked && |s.delivered| == if asked == [] then 0 else 1
  {
    var asked := Above(Log(b, run), after);
    if asked != [] {
      assert [] + [asked[0]] + asked[1..] == asked;
    }
  }

  lemma StepKeepsOpen(b: Bus, op: Op, i: SubId)
    requires Legal(b, op) && i in b.subs
    ensures i in Apply(b, op).subs
    ensures var s, s' := b.subs[i], Apply(b, op).subs[i];
      && s'.run == s.run && s'.after == s.after && s'.joined == s.joined
      && (s'.open <==> s.open && op != OpClose(i))
  {
  }

  /** Subscribers stay open, with what they asked for, until they are closed. */
  lemma {:induction false} OpenUntilClosed(ops: seq<Op>, all: seq<Op>, i: SubId)
    requires ops <= all && LegalRun(all) && i in Run(ops).subs && Run(ops).subs[i].open
    ensures i in Run(all).subs
    ensures var s, s' := Run(ops).subs[i], Run(all).subs[i];
      && s'.run == s.run && s'.after == s.after && s'.joined == s.joined
      && (s'.open <==> forall k :: |ops| <= k < |all| ==> all[k] != OpClose(i))
    decreases |all|
  {
    if ops != all {
      var init, last := all[..|all| - 1], all[|all| - 1];
      OpenUntilClosed(ops, init, i);
      StepKeepsOpen(Run(init), last, i);
      assert forall k :: |ops| <= k < |init| ==> init[k] == all[k];
    }
  }

  // ---- two runs --------------------------------------------------------------------------------

  ghost predicate Reaches(ops: seq<Op>, b: Bus)
  {
    LegalRun(ops) && Run(ops) == b
  }

  lemma RunExtends(ops: seq<Op>, b: Bus, op: Op, b': Bus) returns (longer: seq<Op>)
    requires Reaches(ops, b) && Legal(b, op) && Apply(b, op) == b'
    ensures longer == ops + [op] && Reaches(longer, b')
  {
    longer := ops + [op];
    assert longer[..|ops|] == ops;
  }

  // The k-th event of run "r".
  function Nth(k: nat): Event
  {
    Event("r", k, "k")
  }

  lemma PublishAlone(b: Bus, longer: seq<Event>)
    requires b.subs == map[] && b.logs.Keys <= {"r"} && longer == Log(b, "r") + [Nth(|Log(b, "r")| + 1)]
    ensures Publish(b, "r", "k") == Bus(map["r" := longer], map[])
  {
    assert Publish(b, "r", "k").subs == map[];
  }

  lemma TwoPublished() returns (ops: seq<Op>)
    ensures Reaches(ops, Bus(map["r" := [Nth(1), Nth(2)]], map[]))
  {
    var publish := OpPublish("r", "k");
    var one := Bus(map["r" := [Nth(1)]], map[]);
    PublishAlone(Bus(map[], map[]), [Nth(1)]);
    PublishAlone(one, [Nth(1), Nth(2)]);
    ops := RunExtends([], Bus(map[], map[]), publish, one);
    ops := RunExtends(ops, one, publish, Bus(map["r" := [Nth(1), Nth(2)]], map[]));
  }

  lemma BothAreAbove()
    ensures Above([Nth(1), Nth(2)], 0) == [Nth(1), Nth(2)]
  {
    assert [Nth(1), Nth(2)][..1] == [Nth(1)] && [Nth(1)][..0] == [];
    assert Above([Nth(1)], 0) == [Nth(1)];
  }

  lemma PublishWaits(subs: map<SubId, Sub>, s: Sub)
    requires subs == map[0 := s] && s.registered && s.run == "r" && s.queue == []
    ensures var b := Publish(Bus(map["r" := [Nth(1), Nth(2)]], subs), "r", "k");
      0 in b.subs && b.subs[0] == s.(queue := [Nth(3)])
  {
    var b := Bus(map["r" := [Nth(1), Nth(2)]], subs);
    assert Log(b, "r") == [Nth(1), Nth(2)];
  }

  /** The leak happens: two events, a subscriber to both, closed after the first was replayed. */
  lemma ReplayLeaks() returns (ops: seq<Op>)
    ensures LegalRun(ops) && 0 in Run(ops).subs
    ensures var s := Run(ops).subs[0]; !s.open && s.registered && |s.delivered| == 1 && |s.queue| == 1
  {
    var replaying := Sub("r", 0, 2, true, false, true, [Nth(2)], [], [Nth(1)]);
    var closed := replaying.(open := false);
    var logs := map["r" := [Nth(1), Nth(2)]];
    var joined, left := Bus(logs, map[0 := replaying]), Bus(logs, map[0 := closed]);
    BothAreAbove();
    ops := TwoPublished();
    ops := RunExtends(ops, Bus(logs, map[]), OpSubscribe(0, "r", 0), joined);
    ops := RunExtends(ops, joined, OpClose(0), left);
    PublishWaits(left.subs, closed);
    ops := RunExtends(ops, left, OpPublish("r", "k"), Publish(left, "r", "k"));
  }

  /** And a subscriber beyond the log is handed what it did not ask for. */
  lemma BeyondTheLog() returns (ops: seq<Op>)
    ensures LegalRun(ops) && 0 in Run(ops).subs && Run(ops).subs[0].open
    ensures !GetsWhatItAsked(Run(ops), 0) && Due(Run(ops).subs[0]) == [Nth(1)]
  {
    var waiting := Sub("r", 5, 0, true, true, true, [], [], []);
    var joined := Bus(map[], map[0 := waiting]);
    ops := RunExtends([], Bus(map[], map[]), OpSubscribe(0, "r", 5), joined);
    ops := RunExtends(ops, joined, OpPublish("r", "k"), Publish(joined, "r", "k"));
    assert Log(Run(ops), "r") == [Nth(1)] && Above([Nth(1)][..0], 5) == [];
  }

  // ---- the class --------------------------------------------------------------------------------

  class Hub {
    var logs: map<RunId, seq<Event>>
    var subs: map<SubId, Sub>

    constructor ()
      ensures State() == Run([]) && Valid()
    {
      logs, subs := map[], map[];
      new;
      RunKeepsInv([]);
    }

    function State(): Bus
      reads this
    {
      Bus(logs, subs)
    }

    ghost predicate Valid()
      reads this
    {
      Inv(State())
    }

    /** The loop after the lock: the event goes on the queue of every registered subscriber. */
    method Fan(run: RunId, event: Event)
      modifies `subs
      ensures subs == map i | i in old(subs) ::
        if old(subs)[i].registered && old(subs)[i].run == run then old(subs)[i].(queue := old(subs)[i].queue + [event])
        else old(subs)[i]
    {
      var todo := set i | i in subs && subs[i].registered && subs[i].run == run;
      ghost var all := todo;
      while todo != {}
        invariant todo <= all && subs.Keys == old(subs).Keys
        invariant forall i :: i in subs ==>
          subs[i] == if i in all - todo then old(subs)[i].(queue := old(subs)[i].queue + [event]) else old(subs)[i]
        decreases todo
      {
        var i :| i in todo;
        subs := subs[i := subs[i].(queue := subs[i].queue + [event])];
        todo := todo - {i};
      }
    }

    /** Appends under the lock, then hands the event to the subscribers registered at that point. */
    method PublishEvent(run: RunId, kind: string) returns (event: Event)
      requires Valid()
      modifies this
      ensures Valid() && State() == Publish(old(State()), run, kind)
      ensures logs[run] == Log(old(State()), run) + [event] && event == Event(run, |logs[run]|, kind)
    {
      event := Event(run, |Log(State(), run)| + 1, kind);
      logs := logs[run := Log(State(), run) + [event]];
      Fan(run, event);
      assert subs == Publish(old(State()), run, kind).subs;
      assert State() == Publish(old(State()), run, kind);
      StepKeepsInv(old(State()), OpPublish(run, kind));
    }

    method History(run: RunId) returns (events: seq<Event>)
      requires Valid()
      ensures events == Log(State(), run)
      ensures forall k :: 0 <= k < |events| ==> events[k].sequence == k + 1
    {
      assert Numbered(Log(State(), run), run);
      events := if run in logs then logs[run] else [];
    }

    /** Takes the backlog and registers the queue, then runs to the first suspension. */
    method SubscribeTo(i: SubId, run: RunId, after: int)
      requires Valid() && i !in subs
      modifies this
      ensures Valid() && State() == Subscribe(old(State()), i, run, after)
    {
      var log := Log(State(), run);
      var backlog: seq<Event> := [];
      for k := 0 to |log|
        invariant backlog == Above(log[..k], after)
      {
        assert log[..k + 1][..k] == log[..k];
        if log[k].sequence > after {
          backlog := backlog + [log[k]];
        }
      }
      assert log[..|log|] == log;
      subs := subs[i := Sub(run, after, |log|, true, false, true, backlog, [], [])];
      Resume(i);
      assert State() == Subscribe(old(State()), i, run, after);
      StepKeepsInv(old(State()), OpSubscribe(i, run, after));
    }

    /** The generator from one suspension to the next. */
    method Resume(i: SubId)
      requires i in subs
      modifies `subs
      ensures subs == old(subs)[i := Deliver(old(subs)[i])]
    {
      var s := subs[i];
      if s.backlog != [] {
        subs := subs[i := s.(backlog := s.backlog[1..], delivered := s.delivered + [s.backlog[0]])];
      } else if s.queue != [] {
        subs := subs[i := s.(live := true, queue := s.queue[1..], delivered := s.delivered + [s.queue[0]])];
      } else {
        subs := subs[i := s.(live := true)];
      }
    }

    method NextEvent(i: SubId)
      requires Valid()
      modifies this
      ensures Valid() && State() == Next(old(State()), i)
    {
      StepKeepsInv(State(), OpNext(i));
      if i in subs && subs[i].open {
        Resume(i);
      }
    }

    method CloseSub(i: SubId)
      requires Valid()
      modifies this
      ensures Valid() && State() == Close(old(State()), i)
    {
      StepKeepsInv(State(), OpClose(i));
      if i in subs && subs[i].open {
        subs := subs[i := subs[i].(open := false, registered := !subs[i].live)];
      }
    }
  }
}
