/** From wherever a running broker has got to, its loops, timers and connections
    alone can bring any slot back (src/messaging/rabbitmq_broker.cc:195-285 and
    476-488). */
module Recovery {
  import opened Basics
  import opened SlotProtocol
  import opened FlushLaws
  import opened SlotLaws
  import opened BrokerModel
  import opened SlotTrace
  import opened BrokerLaws

  /** What can happen without an API call; a connection that has not been decided on
      may report that it is ready. */
  predicate Unassisted(b: Broker, e: Event) {
    match e
    case RunHead(_, _) => true
    case TimerFires(_) => true
    case ReportsFailure(_) => true
    case ReportsReady(slot) => slot < |b.slots| && b.slots[slot].log.awaitingOutcome
    case _ => false
  }

  predicate AllUnassisted(c: Config, b: Broker, es: seq<Event>)
    requires |b.loops| == LoopCount(c)
    decreases |es|
  {
    es != [] ==> Unassisted(b, es[0]) && AllUnassisted(c, Step(c, b, es[0]), es[1..])
  }

  lemma {:induction false} UnassistedSplit(c: Config, b: Broker, es: seq<Event>, fs: seq<Event>)
    requires |b.loops| == LoopCount(c)
    ensures RunFrom(c, b, es + fs) == RunFrom(c, RunFrom(c, b, es), fs)
    ensures AllUnassisted(c, b, es) && AllUnassisted(c, RunFrom(c, b, es), fs) ==>
              AllUnassisted(c, b, es + fs)
    decreases |es|
  {
    hide Step;
    if es == [] {
      assert es + fs == fs;
    } else {
      assert (es + fs)[1..] == es[1..] + fs;
      UnassistedSplit(c, Step(c, b, es[0]), es[1..], fs);
    }
  }

  // ----- nothing is accepted, and nothing dropped but by a waiting stop ---------

  lemma StepLosesNothing(c: Config, l: Local, e: LocalEvent)
    requires !e.LStart? && !e.LStop? && !e.LSubscribe? && !e.LPost?
    ensures
      var m := LocalStep(c, l, e);
      && m.slot.log.accepted == l.slot.log.accepted
      && (Stop !in l.queue ==> Stop !in m.queue && m.slot.log.dropped == l.slot.log.dropped)
  {
    hide ReadyTask;
    if e.LRun? && l.queue != [] {
      assert l.queue == [l.queue[0]] + l.queue[1..];
      FlushKeepsTimers(c, l.slot, l.subs, e.answers);
    }
  }

  lemma {:induction false} RunLosesNothing(c: Config, b: Broker, es: seq<Event>, i: nat)
    requires WellFormed(c, b) && i < |b.slots| && AllUnassisted(c, b, es)
    ensures
      var l, m := LocalOf(c, b, i), LocalOf(c, RunFrom(c, b, es), i);
      && m.slot.log.accepted == l.slot.log.accepted
      && (Stop !in l.queue ==> m.slot.log.dropped == l.slot.log.dropped)
    decreases |es|
  {
    hide Step, LocalStep, LocalOf;
    if es != [] {
      StepWellFormed(c, b, es[0]);
      SlotsRemain(c, b, es[0]);
      StepIsLocal(c, b, es[0], i);
      StepLosesNothing(c, LocalOf(c, b, i), LocalEventOf(c, b, es[0], i));
      RunLosesNothing(c, Step(c, b, es[0]), es[1..], i);
    }
  }

  // ----- running a loop empty -----------------------------------------------------

  function Takes(n: nat): seq<bool> { seq(n, _ => true) }

  lemma {:induction false} TakesCount(n: nat)
    ensures CountTrue(Takes(n)) == n
  {
    if n > 0 {
      assert Takes(n)[1..] == Takes(n - 1);
      TakesCount(n - 1);
    }
  }

  /** A task returns if the channels take everything. */
  lemma TakingReturns(c: Config, s: SlotState, task: Task, subs: seq<Subscription>)
    ensures Returns(c, s, task, subs, Takes(|s.pendingPublishes|))
  {
    var up := BroughtUp(s);
    var base := WithPublishers(c, up);
    ConsumersFrame(base, subs);
    TakesCount(|s.pendingPublishes|);
    FlushEndsExactlyWhen(RebuildChannels(c, up, subs), Takes(|s.pendingPublishes|));
  }

  /** The head of a loop, run with channels that take everything. */
  function HeadTaken(b: Broker, loop: nat): Event
    requires loop < |b.loops| && b.loops[loop] != [] && b.loops[loop][0].slot < |b.slots|
  {
    RunHead(loop, Takes(|b.slots[b.loops[loop][0].slot].pendingPublishes|))
  }

  lemma HeadRuns(c: Config, b: Broker, loop: nat)
    requires WellFormed(c, b) && loop < |b.loops| && b.loops[loop] != []
    ensures b.loops[loop][0].slot < |b.slots|
    ensures
      var head, d := b.loops[loop][0], Step(c, b, HeadTaken(b, loop));
      var s := b.slots[head.slot];
      && |d.slots| == |b.slots| && d.started == b.started && d.loops == b.loops[loop := b.loops[loop][1..]]
      && d.slots[head.slot] == RunTask(c, s, head.task, b.started, SubscriptionsOf(c, b.subscriptions, head.slot),
                                       Takes(|s.pendingPublishes|))
      && Returns(c, s, head.task, SubscriptionsOf(c, b.subscriptions, head.slot), Takes(|s.pendingPublishes|))
  {
    hide Returns, RunTask, SubscriptionsOf, Takes, Succeeded, NewlyPublished;
    var head := b.loops[loop][0];
    assert head.slot < |b.slots|;
    TakingReturns(c, b.slots[head.slot], head.task, SubscriptionsOf(c, b.subscriptions, head.slot));
  }

  lemma {:induction false} LoopRunsEmpty(c: Config, b: Broker, loop: nat) returns (es: seq<Event>)
    requires WellFormed(c, b) && loop < |b.loops|
    ensures AllUnassisted(c, b, es)
    ensures
      var d := RunFrom(c, b, es);
      && WellFormed(c, d) && d.loops[loop] == [] && |d.slots| == |b.slots| && d.started == b.started
    decreases |b.loops[loop]|
  {
    hide Step;
    if b.loops[loop] == [] {
      es := [];
    } else {
      HeadRuns(c, b, loop);
      var e := HeadTaken(b, loop);
      StepWellFormed(c, b, e);
      var rest := LoopRunsEmpty(c, Step(c, b, e), loop);
      es := [e] + rest;
      assert es[1..] == rest;
    }
  }

  // ----- one event of a slot and the task it posts --------------------------------

  /** A running broker whose slot i has its loop to itself for now. */
  ghost predicate Quiet(c: Config, b: Broker, i: nat) {
    && Keeps(c, b) && b.started && i < |b.slots|
    && Tended(LocalOf(c, b, i))
    && LoopOf(c, i).Some? && b.loops[LoopOf(c, i).value] == []
  }

  lemma GoodStep(c: Config, b: Broker, e: Event, i: nat)
    requires Keeps(c, b) && i < |b.slots| && Tended(LocalOf(c, b, i))
    ensures Keeps(c, Step(c, b, e)) && |Step(c, b, e).slots| == |b.slots|
    ensures Tended(LocalOf(c, Step(c, b, e), i))
  {
    hide Step, LocalStep, Tended, LocalOf;
    KeepsStep(c, b, e);
    SlotsRemain(c, b, e);
    StepIsLocal(c, b, e, i);
    TendedStep(c, LocalOf(c, b, i), LocalEventOf(c, b, e, i));
  }

  /** The event, which posts `task` for slot i, and then the task. */
  lemma PostAndRun(c: Config, b: Broker, e: Event, task: Task, i: nat) returns (es: seq<Event>)
    requires Quiet(c, b, i) && Unassisted(b, e)
    requires Step(c, b, e).loops == Post(c, b.loops, i, task) && Step(c, b, e).started
    ensures AllUnassisted(c, b, es)
    ensures
      var s, d := Step(c, b, e).slots, RunFrom(c, b, es);
      var subs := SubscriptionsOf(c, Step(c, b, e).subscriptions, i);
      && Quiet(c, d, i) && i < |s|
      && d.slots[i] == RunTask(c, s[i], task, true, subs, Takes(|s[i].pendingPublishes|))
      && Returns(c, s[i], task, subs, Takes(|s[i].pendingPublishes|))
  {
    hide Step, Tended, LocalOf, SubscriptionsOf, RunTask, Returns, Takes;
    var loop := LoopOf(c, i).value;
    var m := Step(c, b, e);
    GoodStep(c, b, e, i);
    assert m.loops[loop] == [Posting(i, task)];
    HeadRuns(c, m, loop);
    GoodStep(c, m, HeadTaken(m, loop), i);
    es := [e, HeadTaken(m, loop)];
    assert es[1..] == [HeadTaken(m, loop)] && es[1..][1..] == [];
    assert RunFrom(c, m, es[1..]) == Step(c, m, HeadTaken(m, loop));
    assert AllUnassisted(c, m, es[1..]);
  }

  /** A failure of the connection leaves a timer armed. */
  lemma AfterFailure(c: Config, b: Broker, i: nat) returns (es: seq<Event>)
    requires Quiet(c, b, i) && b.slots[i].log.connections > 0
    ensures AllUnassisted(c, b, es)
    ensures Quiet(c, RunFrom(c, b, es), i) && RunFrom(c, b, es).slots[i].log.timers > 0
  {
    assert QueueOf(c, b.loops, i) == [];
    es := PostAndRun(c, b, ReportsFailure(i), Failure, i);
  }

  /** A timer brings a new connection. */
  lemma AfterTimerFires(c: Config, b: Broker, i: nat) returns (es: seq<Event>)
    requires Quiet(c, b, i) && b.slots[i].log.timers > 0
    ensures AllUnassisted(c, b, es)
    ensures
      var d := RunFrom(c, b, es);
      Quiet(c, d, i) && d.slots[i].log.awaitingOutcome && d.slots[i].connection.Some?
  {
    es := PostAndRun(c, b, TimerFires(i), Connect(true), i);
  }

  /** A connection that becomes ready gets everything out. */
  lemma AfterReady(c: Config, b: Broker, i: nat) returns (es: seq<Event>)
    requires Quiet(c, b, i) && b.slots[i].log.awaitingOutcome && b.slots[i].connection.Some?
    ensures AllUnassisted(c, b, es)
    ensures
      var d := RunFrom(c, b, es);
      && Quiet(c, d, i) && d.slots[i].ready && d.slots[i].connection.Some?
      && d.slots[i].pendingPublishes == []
  {
    assert SlotKeeps(c, b, i);
    es := PostAndRun(c, b, ReportsReady(i), Ready, i);
    var subs := SubscriptionsOf(c, b.subscriptions, i);
    var answers := Takes(|b.slots[i].pendingPublishes|);
    ReadyTaskPublishes(c, b.slots[i], subs, answers);
    FlushKeepsTimers(c, b.slots[i], subs, answers);
  }

  // ----- the whole way back --------------------------------------------------------

  ghost predicate Recovered(s: SlotState) {
    s.ready && s.connection.Some? && s.pendingPublishes == []
  }

  lemma QuietRecovers(c: Config, b: Broker, i: nat) returns (es: seq<Event>)
    requires Quiet(c, b, i)
    ensures AllUnassisted(c, b, es)
    ensures Quiet(c, RunFrom(c, b, es), i) && Recovered(RunFrom(c, b, es).slots[i])
  {
    hide RunFrom;
    var s := b.slots[i];
    assert SlotKeeps(c, b, i);
    assert QueueOf(c, b.loops, i) == [];
    assert s.connection.Some? && s.log.connections > 0;
    if Recovered(s) {
      es := [];
      assert RunFrom(c, b, []) == b by {
        RunNothing(c, b);
      }
    } else if s.log.awaitingOutcome {
      es := AfterReady(c, b, i);
    } else {
      var failing := [];
      RunNothing(c, b);
      if s.log.timers == 0 {
        failing := AfterFailure(c, b, i);
      }
      var b1 := RunFrom(c, b, failing);
      var connecting := AfterTimerFires(c, b1, i);
      var b2 := RunFrom(c, b1, connecting);
      var ready := AfterReady(c, b2, i);
      UnassistedSplit(c, b, failing, connecting);
      UnassistedSplit(c, b, failing + connecting, ready);
      es := failing + connecting + ready;
    }
  }

  lemma RunNothing(c: Config, b: Broker)
    requires |b.loops| == LoopCount(c)
    ensures RunFrom(c, b, []) == b && AllUnassisted(c, b, [])
  {
  }

  /** From every state that a run can leave a running broker in, stops and restarts
      included, some course of loop tasks, timers and connection reports, without any
      API call, leaves a slot that has a loop ready and connected, with nothing
      waiting on its loop or in its deque, and consuming the newest subscription of
      each of its topics: every call accepted so far is published, or dropped by a
      stop, and none is dropped unless a stop was waiting. */
  lemma {:induction false} EverySlotCanRecover(c: Config, es: seq<Event>, i: nat) returns (more: seq<Event>)
    requires Run(c, es).started && i < SlotCount(c) && LoopOf(c, i).Some?
    ensures AllUnassisted(c, Run(c, es), more)
    ensures i < |Run(c, es).slots| && i < |RunFrom(c, Run(c, es), more).slots|
    ensures
      var b, d := Run(c, es), RunFrom(c, Run(c, es), more);
      var s, t := b.slots[i], d.slots[i];
      && t.ready && t.connection.Some?
      && t.pendingPublishes == [] && QueueOf(c, d.loops, i) == []
      && t.log.accepted == s.log.accepted
      && multiset(t.log.accepted) == multiset(t.log.published) + multiset(t.log.dropped)
      && (Stop !in QueueOf(c, b.loops, i) ==> t.log.dropped == s.log.dropped)
      && Consumes(c, d, i)
  {
    var b := Run(c, es);
    RunKeeps(c, es);
    RunTended(c, es, i);
    var emptying := LoopRunsEmpty(c, b, LoopOf(c, i).value);
    var q := RunFrom(c, b, emptying);
    KeepsRun(c, b, emptying);
    TendedRun(c, b, emptying, i);
    var recovering := QuietRecovers(c, q, i);
    more := emptying + recovering;
    UnassistedSplit(c, b, emptying, recovering);
    RunLosesNothing(c, b, more, i);
    NothingWaits(c, RunFrom(c, b, more), i);
  }

  lemma {:induction false} RunTended(c: Config, es: seq<Event>, i: nat)
    requires i < SlotCount(c)
    ensures Tended(LocalOf(c, Run(c, es), i))
  {
    NewBrokerIsLocal(c, i);
    TendedRun(c, NewBroker(c), es, i);
  }

  /** The slot consumes the newest subscription of each topic that hashes to it. */
  ghost predicate Consumes(c: Config, d: Broker, i: nat)
    requires i < |d.slots|
  {
    forall k: nat :: Newest(d.subscriptions, k) && SlotOf(c, d.subscriptions[k]) == i ==>
      ConsumerOf(d.slots[i], d.subscriptions[k]) == Some(k)
  }

  lemma NewestConsumed(c: Config, d: Broker, i: nat, k: nat)
    requires Quiet(c, d, i) && Recovered(d.slots[i])
    requires Newest(d.subscriptions, k) && SlotOf(c, d.subscriptions[k]) == i
    ensures ConsumerOf(d.slots[i], d.subscriptions[k]) == Some(k)
  {
    hide SlotSound, SubscriptionsOf, Tended, Conserved, Numbered;
    assert SlotKeeps(c, d, i);
    assert Latest(LocalOf(c, d, i), d.subscriptions[k]);
    assert QueueOf(c, d.loops, i) == [];
    NewestOnSlot(c, d.subscriptions, k);
  }

  lemma NothingWaits(c: Config, d: Broker, i: nat)
    requires Quiet(c, d, i) && Recovered(d.slots[i])
    ensures Consumes(c, d, i)
    ensures QueueOf(c, d.loops, i) == []
    ensures multiset(d.slots[i].log.accepted)
         == multiset(d.slots[i].log.published) + multiset(d.slots[i].log.dropped)
  {
    hide SlotSound, SubscriptionsOf, Tended;
    assert SlotKeeps(c, d, i);
    assert QueueOf(c, d.loops, i) == [];
    assert Places(LocalOf(c, d, i)) == multiset(d.slots[i].log.accepted);
    forall k: nat | Newest(d.subscriptions, k) && SlotOf(c, d.subscriptions[k]) == i
      ensures ConsumerOf(d.slots[i], d.subscriptions[k]) == Some(k)
    {
      NewestConsumed(c, d, i, k);
    }
  }
}
