/** What a slot is, told from the tasks that have run for it and nothing else
    (src/messaging/rabbitmq_broker.cc:44-72 and 202-285). */
module SlotTrace {
  import opened Basics
  import opened SlotProtocol
  import opened SlotLaws
  import opened BrokerModel

  /** A task that has run to its end, and whether the broker was running then. */
  datatype Ran = Ran(task: Task, started: bool)

  /** The task of slot i that the event runs to its end, if it does. */
  function RanBy(c: Config, b: Broker, e: Event, i: nat): seq<Ran> {
    if && e.RunHead? && e.loop < |b.loops| && b.loops[e.loop] != []
       && b.loops[e.loop][0].slot == i < |b.slots|
       && Returns(c, b.slots[i], b.loops[e.loop][0].task, SubscriptionsOf(c, b.subscriptions, i), e.answers)
    then [Ran(b.loops[e.loop][0].task, b.started)]
    else []
  }

  /** The tasks of slot i that a run from b runs to their ends, in order. */
  function RanIn(c: Config, b: Broker, es: seq<Event>, i: nat): seq<Ran>
    requires |b.loops| == LoopCount(c)
    decreases |es|
  {
    if es == [] then [] else RanBy(c, b, es[0], i) + RanIn(c, Step(c, b, es[0]), es[1..], i)
  }

  // ----- told from the tasks -------------------------------------------------------

  /** Ready: the last task that was not a publish or a consumer is a ready task. */
  function ReadyAfter(ran: seq<Ran>): bool
    decreases |ran|
  {
    ran != [] &&
    match ran[|ran| - 1].task
    case Ready => true
    case Connect(_) => false
    case Failure => false
    case Stop => false
    case _ => ReadyAfter(ran[..|ran| - 1])
  }

  function ConnectsIn(ran: seq<Ran>): nat
    decreases |ran|
  {
    if ran == [] then 0
    else ConnectsIn(ran[..|ran| - 1]) + (if ran[|ran| - 1].task.Connect? then 1 else 0)
  }

  /** The connection is the one of the last connect task, unless a stop came after. */
  function ConnectionAfter(ran: seq<Ran>): Option<nat>
    decreases |ran|
  {
    if ran == [] then None
    else
      match ran[|ran| - 1].task
      case Connect(_) => Some(ConnectsIn(ran[..|ran| - 1]))
      case Stop => None
      case _ => ConnectionAfter(ran[..|ran| - 1])
  }

  /** No ready task, failure or stop has come since the last connect task. */
  function UndecidedAfter(ran: seq<Ran>): bool
    decreases |ran|
  {
    ran != [] &&
    match ran[|ran| - 1].task
    case Connect(_) => true
    case Ready => false
    case Failure => false
    case Stop => false
    case _ => UndecidedAfter(ran[..|ran| - 1])
  }

  /** A failure has come in the running broker since the last connect or stop task. */
  function ScheduledAfter(ran: seq<Ran>): bool
    decreases |ran|
  {
    ran != [] &&
    match ran[|ran| - 1].task
    case Connect(_) => false
    case Stop => false
    case Failure => ran[|ran| - 1].started || ScheduledAfter(ran[..|ran| - 1])
    case _ => ScheduledAfter(ran[..|ran| - 1])
  }

  /** The last task arms a timer: a failure in the running broker, none scheduled. */
  predicate Arms(ran: seq<Ran>) {
    && ran != [] && ran[|ran| - 1].task == Failure && ran[|ran| - 1].started
    && !ScheduledAfter(ran[..|ran| - 1])
  }

  function ArmedIn(ran: seq<Ran>): nat
    decreases |ran|
  {
    if ran == [] then 0 else ArmedIn(ran[..|ran| - 1]) + (if Arms(ran) then 1 else 0)
  }

  /** Timers armed since the last ready task. */
  function ArmedSinceReady(ran: seq<Ran>): nat
    decreases |ran|
  {
    if ran == [] || ran[|ran| - 1].task == Ready then 0
    else ArmedSinceReady(ran[..|ran| - 1]) + (if Arms(ran) then 1 else 0)
  }

  ghost predicate Follows(s: SlotState, ran: seq<Ran>) {
    && s.ready == ReadyAfter(ran)
    && s.connection == ConnectionAfter(ran)
    && s.reconnectScheduled == ScheduledAfter(ran)
    && s.reconnectDelay == Backoff(ArmedSinceReady(ran))
    && |s.log.waits| == ArmedSinceReady(ran)
    && s.log.armed == ArmedIn(ran)
    && s.log.connections == ConnectsIn(ran)
    && s.log.awaitingOutcome == UndecidedAfter(ran)
  }

  // ----- every slot follows its tasks -----------------------------------------------

  lemma ReadyFollows(c: Config, s: SlotState, ran: seq<Ran>, started: bool, subs: seq<Subscription>, answers: seq<bool>)
    requires Follows(s, ran)
    ensures Follows(ReadyTask(c, s, subs, answers), ran + [Ran(Ready, started)])
  {
    hide ReadyTask;
    assert (ran + [Ran(Ready, started)])[..|ran|] == ran;
    FlushKeepsTimers(c, s, subs, answers);
  }

  lemma ConnectFollows(s: SlotState, ran: seq<Ran>, fromTimer: bool, started: bool)
    requires Follows(s, ran)
    ensures Follows(ConnectTask(s), ran + [Ran(Connect(fromTimer), started)])
  {
    assert (ran + [Ran(Connect(fromTimer), started)])[..|ran|] == ran;
  }

  lemma FailureFollows(s: SlotState, ran: seq<Ran>, started: bool)
    requires Follows(s, ran)
    ensures Follows(FailureTask(s, started), ran + [Ran(Failure, started)])
  {
    assert (ran + [Ran(Failure, started)])[..|ran|] == ran;
  }

  lemma StopFollows(s: SlotState, ran: seq<Ran>, started: bool)
    requires Follows(s, ran)
    ensures Follows(StopTask(s), ran + [Ran(Stop, started)])
  {
    assert (ran + [Ran(Stop, started)])[..|ran|] == ran;
  }

  /** The rest leaves alone what the other tasks decide. */
  lemma OtherFollows(s: SlotState, t: SlotState, ran: seq<Ran>, task: Task, started: bool)
    requires Follows(s, ran) && (task.Publish? || task.StartConsumer?)
    requires t == s.(consumerChannels := t.consumerChannels, nextPublisherChannel := t.nextPublisherChannel,
                     pendingPublishes := t.pendingPublishes,
                     log := s.log.(attempts := t.log.attempts, published := t.log.published))
    ensures Follows(t, ran + [Ran(task, started)])
  {
    assert (ran + [Ran(task, started)])[..|ran|] == ran;
  }

  lemma TaskFollows(c: Config, s: SlotState, ran: seq<Ran>, task: Task, started: bool, subs: seq<Subscription>,
                    answers: seq<bool>)
    requires Follows(s, ran)
    ensures Follows(RunTask(c, s, task, started, subs, answers), ran + [Ran(task, started)])
  {
    hide Follows, ReadyTask, ConnectTask, FailureTask, StopTask;
    match task {
      case Connect(fromTimer) => ConnectFollows(s, ran, fromTimer, started);
      case Ready => ReadyFollows(c, s, ran, started, subs, answers);
      case Failure => FailureFollows(s, ran, started);
      case Stop => StopFollows(s, ran, started);
      case Publish(call) => OtherFollows(s, PublishOnLoop(s, call, answers != [] && answers[0]), ran, task, started);
      case StartConsumer(sub) => OtherFollows(s, ConsumerTask(s, sub), ran, task, started);
    }
  }

  /** The task that a step of the slot runs to its end, if it does. */
  function LocalRan(c: Config, l: Local, e: LocalEvent): seq<Ran> {
    if e.LRun? && l.queue != [] && Returns(c, l.slot, l.queue[0], l.subs, e.answers)
    then [Ran(l.queue[0], l.started)] else []
  }

  lemma StepFollows(c: Config, l: Local, e: LocalEvent, ran: seq<Ran>)
    requires Follows(l.slot, ran)
    ensures Follows(LocalStep(c, l, e).slot, ran + LocalRan(c, l, e))
  {
    hide RunTask, Returns;
    if LocalRan(c, l, e) == [] {
      assert ran + [] == ran;
    } else {
      TaskFollows(c, l.slot, ran, l.queue[0], l.started, l.subs, e.answers);
    }
  }

  lemma RanIsLocal(c: Config, b: Broker, e: Event, i: nat)
    requires WellFormed(c, b) && i < SlotCount(c)
    ensures RanBy(c, b, e, i) == LocalRan(c, LocalOf(c, b, i), LocalEventOf(c, b, e, i))
  {
    hide Returns, SubscriptionsOf, QueueOf;
    if e.RunHead? && e.loop < |b.loops| && b.loops[e.loop] != [] {
      var head := b.loops[e.loop][0];
      assert head.slot < |b.slots| && LoopOf(c, head.slot) == Some(e.loop);
      PopReaches(c, b.loops, e.loop, i);
      assert LocalOf(c, b, i).queue == QueueOf(c, b.loops, i);
    }
  }

  lemma {:induction false} RunFollows(c: Config, b: Broker, es: seq<Event>, i: nat, ran: seq<Ran>)
    requires WellFormed(c, b) && i < SlotCount(c) && Follows(LocalOf(c, b, i).slot, ran)
    ensures Follows(LocalOf(c, RunFrom(c, b, es), i).slot, ran + RanIn(c, b, es, i))
    decreases |es|
  {
    hide Follows, Step, LocalStep, LocalOf, RanBy, LocalRan;
    if es == [] {
      assert ran + [] == ran;
    } else {
      var now := RanBy(c, b, es[0], i);
      StepWellFormed(c, b, es[0]);
      StepIsLocal(c, b, es[0], i);
      RanIsLocal(c, b, es[0], i);
      StepFollows(c, LocalOf(c, b, i), LocalEventOf(c, b, es[0], i), ran);
      RunFollows(c, Step(c, b, es[0]), es[1..], i, ran + now);
      ConcatAssociates(ran, now, RanIn(c, Step(c, b, es[0]), es[1..], i));
    }
  }

  /** In every run, what a slot is follows from the tasks that have run for it: ready
      exactly if the last of its connect, ready, failure and stop tasks was a ready
      task; on the connection of its last connect task unless a stop came after;
      with a reconnect scheduled exactly if a failure came in the running broker
      since the last connect or stop; with a delay of min(30, 2^k) seconds after k
      timers armed since its last ready task. */
  lemma {:induction false} SlotFollowsItsTasks(c: Config, es: seq<Event>, i: nat)
    requires i < |Run(c, es).slots|
    ensures i < SlotCount(c) && Follows(Run(c, es).slots[i], RanIn(c, NewBroker(c), es, i))
  {
    NewBrokerIsLocal(c, 0);
    RunWellFormed(c, NewBroker(c), es);
    NewBrokerIsLocal(c, i);
    RunFollows(c, NewBroker(c), es, i, []);
    assert [] + RanIn(c, NewBroker(c), es, i) == RanIn(c, NewBroker(c), es, i);
  }

  lemma {:induction false} RunWellFormed(c: Config, b: Broker, es: seq<Event>)
    requires WellFormed(c, b)
    ensures WellFormed(c, RunFrom(c, b, es))
    decreases |es|
  {
    hide Step;
    if es != [] {
      StepWellFormed(c, b, es[0]);
      RunWellFormed(c, Step(c, b, es[0]), es[1..]);
    }
  }

  // ----- out of service -------------------------------------------------------------

  /** The publishes among the tasks, in the order in which they ran. */
  function PublishesIn(ran: seq<Ran>): seq<nat>
    decreases |ran|
  {
    if ran == [] then []
    else PublishesIn(ran[..|ran| - 1])
         + (if ran[|ran| - 1].task.Publish? then [ran[|ran| - 1].task.call] else [])
  }

  predicate NoReady(ran: seq<Ran>) {
    forall r :: r in ran ==> r.task != Ready
  }

  /** From s to t nothing was tried and nothing published; what ran joined the end of
      the deque, from which stops may have dropped a front part. */
  ghost predicate OnlyGathered(s: SlotState, t: SlotState, calls: seq<nat>) {
    && !t.ready
    && t.log.attempts == s.log.attempts && t.log.published == s.log.published
    && t.log.dropped + t.pendingPublishes == (s.log.dropped + s.pendingPublishes) + calls
  }

  lemma TaskGathers(c: Config, s: SlotState, t: SlotState, task: Task, started: bool, subs: seq<Subscription>,
                    answers: seq<bool>, calls: seq<nat>)
    requires OnlyGathered(s, t, calls) && task != Ready
    ensures OnlyGathered(s, RunTask(c, t, task, started, subs, answers),
                         calls + (if task.Publish? then [task.call] else []))
  {
    hide ReadyTask;
    var front := s.log.dropped + s.pendingPublishes;
    if task.Publish? {
      ConcatAssociates(t.log.dropped, t.pendingPublishes, [task.call]);
      ConcatAssociates(front, calls, [task.call]);
    } else {
      assert calls + [] == calls;
      if task == Stop {
        assert (t.log.dropped + t.pendingPublishes) + [] == t.log.dropped + t.pendingPublishes;
      }
    }
  }

  lemma StepGathers(c: Config, s: SlotState, l: Local, e: LocalEvent, calls: seq<nat>)
    requires OnlyGathered(s, l.slot, calls) && NoReady(LocalRan(c, l, e))
    ensures OnlyGathered(s, LocalStep(c, l, e).slot, calls + PublishesIn(LocalRan(c, l, e)))
  {
    hide RunTask, Returns;
    var ran := LocalRan(c, l, e);
    if ran == [] {
      assert calls + [] == calls;
    } else {
      assert ran[0] in ran && ran[..0] == [];
      var task := l.queue[0];
      assert PublishesIn(ran) == if task.Publish? then [task.call] else [];
      TaskGathers(c, s, l.slot, task, l.started, l.subs, e.answers, calls);
    }
  }

  lemma {:induction false} PublishesSplit(a: seq<Ran>, b: seq<Ran>)
    ensures PublishesIn(a + b) == PublishesIn(a) + PublishesIn(b)
    decreases |b|
  {
    if b == [] {
      assert a + b == a;
    } else {
      var k := |b| - 1;
      assert (a + b)[..|a| + k] == a + b[..k] && (a + b)[|a| + k] == b[k];
      PublishesSplit(a, b[..k]);
      ConcatAssociates(PublishesIn(a), PublishesIn(b[..k]), if b[k].task.Publish? then [b[k].task.call] else []);
    }
  }

  lemma {:induction false} RunGathers(c: Config, s: SlotState, b: Broker, es: seq<Event>, i: nat, calls: seq<nat>)
    requires WellFormed(c, b) && i < SlotCount(c) && OnlyGathered(s, LocalOf(c, b, i).slot, calls)
    requires NoReady(RanIn(c, b, es, i))
    ensures OnlyGathered(s, LocalOf(c, RunFrom(c, b, es), i).slot, calls + PublishesIn(RanIn(c, b, es, i)))
    decreases |es|
  {
    hide OnlyGathered, Step, LocalStep, LocalOf, RanBy, LocalRan, PublishesIn;
    if es == [] {
      assert PublishesIn([]) == [] by {
        NoPublishes();
      }
      assert calls + [] == calls;
    } else {
      var now, rest := RanBy(c, b, es[0], i), RanIn(c, Step(c, b, es[0]), es[1..], i);
      assert NoReady(now) && NoReady(rest) by {
        assert forall r :: r in now || r in rest ==> r in now + rest;
      }
      StepWellFormed(c, b, es[0]);
      StepIsLocal(c, b, es[0], i);
      RanIsLocal(c, b, es[0], i);
      StepGathers(c, s, LocalOf(c, b, i), LocalEventOf(c, b, es[0], i), calls);
      RunGathers(c, s, Step(c, b, es[0]), es[1..], i, calls + PublishesIn(now));
      PublishesSplit(now, rest);
      ConcatAssociates(calls, PublishesIn(now), PublishesIn(rest));
    }
  }

  lemma NoPublishes()
    ensures PublishesIn([]) == []
  {
  }

  /** From any reachable state in which a slot is not ready, until a ready task of it
      returns: it stays so, tries no channel and publishes nothing; each of its
      publish tasks that runs joins the end of its deque, and nothing leaves the
      deque but what a stop drops. */
  lemma {:induction false} NotReadyGathers(c: Config, before: seq<Event>, es: seq<Event>, i: nat)
    requires i < |Run(c, before).slots| && !Run(c, before).slots[i].ready
    requires NoReady(RanIn(c, Run(c, before), es, i))
    ensures i < |RunFrom(c, Run(c, before), es).slots|
    ensures
      var b, d := Run(c, before), RunFrom(c, Run(c, before), es);
      OnlyGathered(b.slots[i], d.slots[i], PublishesIn(RanIn(c, b, es, i)))
  {
    var b := Run(c, before);
    NewBrokerIsLocal(c, 0);
    RunWellFormed(c, NewBroker(c), before);
    var s := b.slots[i];
    assert (s.log.dropped + s.pendingPublishes) + [] == s.log.dropped + s.pendingPublishes;
    RunGathers(c, s, b, es, i, []);
    assert [] + PublishesIn(RanIn(c, b, es, i)) == PublishesIn(RanIn(c, b, es, i));
    SlotsStay(c, b, es);
  }

  lemma SlotsRemain(c: Config, b: Broker, e: Event)
    requires |b.loops| == LoopCount(c) && b.slots != []
    ensures |Step(c, b, e).slots| == |b.slots|
  {
  }

  lemma {:induction false} SlotsStay(c: Config, b: Broker, es: seq<Event>)
    requires |b.loops| == LoopCount(c) && b.slots != []
    ensures |RunFrom(c, b, es).slots| == |b.slots|
    decreases |es|
  {
    hide Step;
    if es != [] {
      SlotsRemain(c, b, es[0]);
      SlotsStay(c, Step(c, b, es[0]), es[1..]);
    }
  }
}
