/** The whole broker (src/messaging/rabbitmq_broker.cc): its API calls, the event
    loops its slots share, the reconnect timers and the notifications of the
    connections, as steps that may come in any order. */
module BrokerModel {
  import opened Basics
  import opened SlotProtocol

  /** A task waiting on an event loop. */
  datatype Posting = Posting(slot: nat, task: Task)

  /** A publish callback that has been invoked. */
  datatype Completion = Completion(call: nat, ok: bool)

  datatype Broker = Broker(
    started: bool,
    slots: seq<SlotState>,
    subscriptions: seq<Topic>,
    publishCursor: nat,
    publishRequests: nat,
    publishedMessages: int,
    queuedPublishes: int,
    loops: seq<seq<Posting>>,      // the FIFO queue of each event loop
    returned: seq<bool>,           // what each publish call returned
    turnedAway: seq<nat>,          // calls refused because the broker was not running
    rejected: seq<nat>,            // calls refused because their slot has no loop
    completions: seq<Completion>)

  /** Steps.  `sawStarted` is what a publish call read in its first test: a stop or
      start on another thread may come between that test and the rest.  `answers`
      are the results the channels give while the task runs.  */
  datatype Event =
    | StartCall
    | StopCall
    | SubscribeCall(topic: Topic)
    | PublishCall(sawStarted: bool)
    | RunHead(loop: nat, answers: seq<bool>)
    | TimerFires(slot: nat)
    | ReportsReady(slot: nat)
    | ReportsFailure(slot: nat)

  function NewBroker(c: Config): Broker {
    Broker(false, [], [], 0, 0, 0, 0, seq(LoopCount(c), _ => []), [], [], [], [])
  }

  function NewSlots(c: Config): seq<SlotState> { seq(SlotCount(c), _ => NEW_SLOT) }

  /** The subscriptions whose topic hashes to the slot, in the order of their calls. */
  function SubscriptionsOf(c: Config, topics: seq<Topic>, slot: nat): seq<Subscription>
    decreases |topics|
  {
    if topics == [] then []
    else
      var last := Subscription(topics[|topics| - 1], |topics| - 1);
      SubscriptionsOf(c, topics[..|topics| - 1], slot)
        + (if SlotOf(c, last.topic) == slot then [last] else [])
  }

  function Post(c: Config, loops: seq<seq<Posting>>, slot: nat, task: Task): (r: seq<seq<Posting>>)
    requires |loops| == LoopCount(c)
    ensures |r| == |loops|
  {
    match LoopOf(c, slot)
    case None => loops
    case Some(l) => loops[l := loops[l] + [Posting(slot, task)]]
  }

  /** Posts the task for slots 0 .. count-1, in that order. */
  function PostAll(c: Config, loops: seq<seq<Posting>>, count: nat, task: Task): (r: seq<seq<Posting>>)
    requires |loops| == LoopCount(c)
    ensures |r| == |loops|
  {
    if count == 0 then loops else Post(c, PostAll(c, loops, count - 1, task), count - 1, task)
  }

  function Succeeded(calls: seq<nat>): seq<Completion> {
    seq(|calls|, i requires 0 <= i < |calls| => Completion(calls[i], true))
  }

  /** Every waiting task belongs to a slot of the loop it waits on. */
  ghost predicate WellFormed(c: Config, b: Broker) {
    && |b.loops| == LoopCount(c)
    && (b.slots == [] || |b.slots| == SlotCount(c))
    && (b.started ==> b.slots != [])
    && (forall l, k :: 0 <= l < |b.loops| && 0 <= k < |b.loops[l]| ==>
          b.loops[l][k].slot < |b.slots| && LoopOf(c, b.loops[l][k].slot) == Some(l))
  }

  /** Publishes that the slot's change from `s` to `t` got out. */
  function NewlyPublished(s: SlotState, t: SlotState): seq<nat> {
    if |s.log.published| <= |t.log.published| then t.log.published[|s.log.published|..] else []
  }

  /** A publish call posts its task on the slot's loop. */
  function AfterAccept(c: Config, b: Broker, slot: nat): Broker
    requires |b.loops| == LoopCount(c) && slot < |b.slots|
  {
    var call := |b.returned|;
    var s := b.slots[slot];
    b.(returned := b.returned + [true],
       slots := b.slots[slot := s.(log := s.log.(accepted := s.log.accepted + [call]))],
       loops := Post(c, b.loops, slot, Publish(call)))
  }

  function AfterPublish(c: Config, b: Broker): Broker
    requires |b.loops| == LoopCount(c) && b.slots != []
  {
    var call := |b.returned|;
    var slot := b.publishCursor % |b.slots|;
    var counted := b.(publishRequests := b.publishRequests + 1, publishCursor := b.publishCursor + 1);
    if LoopOf(c, slot).None? then
      counted.(returned := b.returned + [false], rejected := b.rejected + [call],
               completions := b.completions + [Completion(call, false)])
    else AfterAccept(c, counted, slot)
  }

  /** The broker after the head task of a loop has returned; the broker as it was
      if there is no such task or it does not return on these answers. */
  function AfterHead(c: Config, b: Broker, loop: nat, answers: seq<bool>): Broker {
    if loop >= |b.loops| || b.loops[loop] == [] || b.loops[loop][0].slot >= |b.slots| then b
    else
      var head := b.loops[loop][0];
      var s := b.slots[head.slot];
      var subs := SubscriptionsOf(c, b.subscriptions, head.slot);
      if !Returns(c, s, head.task, subs, answers) then b
      else
        var t := RunTask(c, s, head.task, b.started, subs, answers);
        b.(slots := b.slots[head.slot := t],
           loops := b.loops[loop := b.loops[loop][1..]],
           publishedMessages := b.publishedMessages + |t.log.published| - |s.log.published|,
           queuedPublishes := b.queuedPublishes + |t.pendingPublishes| - |s.pendingPublishes|,
           completions := b.completions + Succeeded(NewlyPublished(s, t)))
  }

  function AfterTimer(c: Config, b: Broker, slot: nat): Broker
    requires |b.loops| == LoopCount(c)
  {
    if slot >= |b.slots| || b.slots[slot].log.timers == 0 then b
    else
      var s := b.slots[slot];
      var m := b.(slots := b.slots[slot := s.(log := s.log.(timers := s.log.timers - 1))]);
      if b.started then m.(loops := Post(c, b.loops, slot, Connect(true))) else m
  }

  /** A connection can report only after the slot's first connect task made one. */
  function AfterReport(c: Config, b: Broker, slot: nat, task: Task): Broker
    requires |b.loops| == LoopCount(c)
  {
    if slot >= |b.slots| || b.slots[slot].log.connections == 0 then b
    else b.(loops := Post(c, b.loops, slot, task))
  }

  function Step(c: Config, b: Broker, e: Event): (r: Broker)
    requires |b.loops| == LoopCount(c)
    ensures |r.loops| == LoopCount(c)
  {
    match e
    case StartCall =>
      if b.started then b
      else
        var slots := if b.slots == [] then NewSlots(c) else b.slots;
        b.(started := true, slots := slots,
           loops := PostAll(c, b.loops, |slots|, Connect(false)))
    case StopCall =>
      if !b.started then b
      else b.(started := false, loops := PostAll(c, b.loops, |b.slots|, Stop))
    case SubscribeCall(topic) =>
      var m := b.(subscriptions := b.subscriptions + [topic]);
      if b.started && SlotOf(c, topic) < |b.slots|
      then m.(loops := Post(c, b.loops, SlotOf(c, topic),
                            StartConsumer(Subscription(topic, |b.subscriptions|)))) else m
    case PublishCall(sawStarted) =>
      if !sawStarted || b.slots == [] then
        b.(returned := b.returned + [false], turnedAway := b.turnedAway + [|b.returned|],
           completions := b.completions + [Completion(|b.returned|, false)])
      else AfterPublish(c, b)
    case RunHead(loop, answers) => AfterHead(c, b, loop, answers)
    case TimerFires(slot) => AfterTimer(c, b, slot)
    case ReportsReady(slot) => AfterReport(c, b, slot, Ready)
    case ReportsFailure(slot) => AfterReport(c, b, slot, Failure)
  }

  lemma {:induction false} PostAllWellFormed(c: Config, b: Broker, count: nat, task: Task)
    requires WellFormed(c, b) && count <= |b.slots|
    ensures WellFormed(c, b.(loops := PostAll(c, b.loops, count, task)))
  {
    if count > 0 {
      PostAllWellFormed(c, b, count - 1, task);
    }
  }

  lemma HeadWellFormed(c: Config, b: Broker, loop: nat, answers: seq<bool>)
    requires WellFormed(c, b)
    ensures WellFormed(c, AfterHead(c, b, loop, answers))
  {
    if loop < |b.loops| && b.loops[loop] != [] {
      var rest := b.loops[loop][1..];
      assert forall k :: 0 <= k < |rest| ==> rest[k] == b.loops[loop][k + 1];
    }
  }

  lemma PostWellFormed(c: Config, b: Broker, slot: nat, task: Task)
    requires WellFormed(c, b) && slot < |b.slots|
    ensures WellFormed(c, b.(loops := Post(c, b.loops, slot, task)))
  {
  }

  lemma AcceptWellFormed(c: Config, b: Broker, slot: nat)
    requires WellFormed(c, b) && slot < |b.slots|
    ensures WellFormed(c, AfterAccept(c, b, slot))
  {
    PostWellFormed(c, b, slot, Publish(|b.returned|));
  }

  lemma StepWellFormed(c: Config, b: Broker, e: Event)
    requires WellFormed(c, b)
    ensures WellFormed(c, Step(c, b, e))
  {
    hide Post, PostAll, AfterHead;
    match e {
      case StartCall =>
        if b.slots == [] {
          PostAllWellFormed(c, b.(slots := NewSlots(c)), SlotCount(c), Connect(false));
        } else {
          PostAllWellFormed(c, b, |b.slots|, Connect(false));
        }
      case StopCall => PostAllWellFormed(c, b, |b.slots|, Stop);
      case SubscribeCall(topic) =>
        if SlotOf(c, topic) < |b.slots| {
          PostWellFormed(c, b, SlotOf(c, topic), StartConsumer(Subscription(topic, |b.subscriptions|)));
        }
      case PublishCall(sawStarted) =>
        if b.slots != [] {
          AcceptWellFormed(c, b, b.publishCursor % |b.slots|);
        }
      case RunHead(loop, answers) => HeadWellFormed(c, b, loop, answers);
      case TimerFires(slot) =>
        if slot < |b.slots| {
          PostWellFormed(c, b, slot, Connect(true));
        }
      case ReportsReady(slot) =>
        if slot < |b.slots| {
          PostWellFormed(c, b, slot, Ready);
        }
      case ReportsFailure(slot) =>
        if slot < |b.slots| {
          PostWellFormed(c, b, slot, Failure);
        }
    }
  }

  /** A run of the broker from `b`. */
  function RunFrom(c: Config, b: Broker, es: seq<Event>): (r: Broker)
    requires |b.loops| == LoopCount(c)
    ensures |r.loops| == LoopCount(c)
    decreases |es|
  {
    if es == [] then b else RunFrom(c, Step(c, b, es[0]), es[1..])
  }

  function Run(c: Config, es: seq<Event>): (r: Broker)
    ensures |r.loops| == LoopCount(c)
  {
    RunFrom(c, NewBroker(c), es)
  }

  // ----- one slot's view of the broker ----------------------------------------

  /** The tasks of one slot on a shared loop, in order. */
  ghost function TasksOf(loop: seq<Posting>, slot: nat): seq<Task> {
    if loop == [] then []
    else (if loop[0].slot == slot then [loop[0].task] else []) + TasksOf(loop[1..], slot)
  }

  ghost function QueueOf(c: Config, loops: seq<seq<Posting>>, i: nat): seq<Task>
    requires |loops| == LoopCount(c)
  {
    if LoopOf(c, i).Some? then TasksOf(loops[LoopOf(c, i).value], i) else []
  }

  ghost function LocalOf(c: Config, b: Broker, i: nat): Local
    requires |b.loops| == LoopCount(c) && i < SlotCount(c)
  {
    Local(if i < |b.slots| then b.slots[i] else NEW_SLOT,
          QueueOf(c, b.loops, i),
          b.started,
          LoopOf(c, i).Some?,
          SubscriptionsOf(c, b.subscriptions, i))
  }

  /** What a step of the broker is for slot `i`. */
  ghost function LocalEventOf(c: Config, b: Broker, e: Event, i: nat): LocalEvent {
    match e
    case StartCall => LStart
    case StopCall => LStop
    case SubscribeCall(topic) =>
      if SlotOf(c, topic) == i then LSubscribe(Subscription(topic, |b.subscriptions|)) else LNothing
    case PublishCall(sawStarted) =>
      if sawStarted && b.slots != [] && b.publishCursor % |b.slots| == i
      then LPost(|b.returned|) else LNothing
    case RunHead(loop, answers) =>
      if loop < |b.loops| && b.loops[loop] != [] && b.loops[loop][0].slot == i
      then LRun(answers) else LNothing
    case TimerFires(slot) => if slot == i then LTimer else LNothing
    case ReportsReady(slot) => if slot == i then LReady else LNothing
    case ReportsFailure(slot) => if slot == i then LFail else LNothing
  }

  lemma {:induction false} TasksOfAppend(loop: seq<Posting>, p: Posting, slot: nat)
    ensures TasksOf(loop + [p], slot)
         == TasksOf(loop, slot) + (if p.slot == slot then [p.task] else [])
  {
    if loop == [] {
      assert loop + [p] == [p];
    } else {
      var first := if loop[0].slot == slot then [loop[0].task] else [];
      var mid, last := TasksOf(loop[1..], slot), if p.slot == slot then [p.task] else [];
      assert (loop + [p])[1..] == loop[1..] + [p];
      TasksOfAppend(loop[1..], p, slot);
      assert (first + mid) + last == first + (mid + last);
    }
  }

  lemma PostReaches(c: Config, loops: seq<seq<Posting>>, slot: nat, task: Task, i: nat)
    requires |loops| == LoopCount(c)
    ensures QueueOf(c, Post(c, loops, slot, task), i)
         == QueueOf(c, loops, i) + (if i == slot && LoopOf(c, i).Some? then [task] else [])
  {
    if LoopOf(c, slot).Some? {
      TasksOfAppend(loops[LoopOf(c, slot).value], Posting(slot, task), i);
    }
  }

  lemma {:induction false} PostAllReaches(c: Config, loops: seq<seq<Posting>>, count: nat, task: Task, i: nat)
    requires |loops| == LoopCount(c)
    ensures QueueOf(c, PostAll(c, loops, count, task), i)
         == QueueOf(c, loops, i) + (if i < count && LoopOf(c, i).Some? then [task] else [])
  {
    if count > 0 {
      PostAllReaches(c, loops, count - 1, task, i);
      PostReaches(c, PostAll(c, loops, count - 1, task), count - 1, task, i);
    }
  }

  lemma SubscriptionsOfAppend(c: Config, topics: seq<Topic>, topic: Topic, i: nat)
    ensures SubscriptionsOf(c, topics + [topic], i)
         == SubscriptionsOf(c, topics, i)
            + (if SlotOf(c, topic) == i then [Subscription(topic, |topics|)] else [])
  {
    assert (topics + [topic])[..|topics|] == topics;
  }

  lemma {:induction false} SubscriptionsOfHash(c: Config, topics: seq<Topic>, i: nat, sub: Subscription)
    ensures sub in SubscriptionsOf(c, topics, i)
       <==> sub.number < |topics| && topics[sub.number] == sub.topic && SlotOf(c, sub.topic) == i
    decreases |topics|
  {
    if topics != [] {
      SubscriptionsOfHash(c, topics[..|topics| - 1], i, sub);
    }
  }

  /** Taking the head of a loop takes the head of its slot's queue and no other. */
  lemma PopReaches(c: Config, loops: seq<seq<Posting>>, loop: nat, i: nat)
    requires |loops| == LoopCount(c) && loop < |loops| && loops[loop] != []
    requires LoopOf(c, loops[loop][0].slot) == Some(loop)
    ensures
      var before := QueueOf(c, loops, i);
      var after := QueueOf(c, loops[loop := loops[loop][1..]], i);
      if i == loops[loop][0].slot then before == [loops[loop][0].task] + after else after == before
  {
  }

  lemma HeadIsLocal(c: Config, b: Broker, loop: nat, answers: seq<bool>, i: nat)
    requires WellFormed(c, b) && i < SlotCount(c)
    ensures LocalOf(c, AfterHead(c, b, loop, answers), i)
         == LocalStep(c, LocalOf(c, b, i), LocalEventOf(c, b, RunHead(loop, answers), i))
  {
    hide RunTask, Returns, QueueOf, SubscriptionsOf, Succeeded, NewlyPublished;
    if loop < |b.loops| && b.loops[loop] != [] {
      var head := b.loops[loop][0];
      assert head.slot < |b.slots| && LoopOf(c, head.slot) == Some(loop);
      PopReaches(c, b.loops, loop, i);
      assert LocalOf(c, b, i).queue == QueueOf(c, b.loops, i);
      var m := AfterHead(c, b, loop, answers);
      assert LocalOf(c, m, i).queue == QueueOf(c, m.loops, i);
      if i == head.slot {
        var l := LocalOf(c, b, i);
        assert l.queue[0] == head.task && l.slot == b.slots[i];
        assert l.queue[1..] == QueueOf(c, b.loops[loop := b.loops[loop][1..]], i);
      }
    }
  }

  /** What one broker step is for slot `i`, spelled out. */
  ghost predicate IsLocal(c: Config, b: Broker, e: Event, i: nat)
    requires WellFormed(c, b) && i < SlotCount(c)
  {
    LocalOf(c, Step(c, b, e), i) == LocalStep(c, LocalOf(c, b, i), LocalEventOf(c, b, e, i))
  }

  lemma StartIsLocal(c: Config, b: Broker, i: nat)
    requires WellFormed(c, b) && i < SlotCount(c)
    ensures IsLocal(c, b, StartCall, i)
  {
    PostAllReaches(c, b.loops, SlotCount(c), Connect(false), i);
  }

  lemma StopIsLocal(c: Config, b: Broker, i: nat)
    requires WellFormed(c, b) && i < SlotCount(c)
    ensures IsLocal(c, b, StopCall, i)
  {
    PostAllReaches(c, b.loops, |b.slots|, Stop, i);
  }

  lemma SubscribeIsLocal(c: Config, b: Broker, topic: Topic, i: nat)
    requires WellFormed(c, b) && i < SlotCount(c)
    ensures IsLocal(c, b, SubscribeCall(topic), i)
  {
    hide Post, QueueOf, SubscriptionsOf, RunTask, Returns;
    var slot, task := SlotOf(c, topic), StartConsumer(Subscription(topic, |b.subscriptions|));
    var l, m := LocalOf(c, b, i), LocalOf(c, Step(c, b, SubscribeCall(topic)), i);
    SubscriptionsOfAppend(c, b.subscriptions, topic, i);
    if b.started {
      assert slot < |b.slots|;
      PostReaches(c, b.loops, slot, task, i);
      assert m.queue == l.queue + (if i == slot && l.hasLoop then [task] else []);
    } else {
      assert m.queue == l.queue;
    }
  }

  lemma PublishIsLocal(c: Config, b: Broker, sawStarted: bool, i: nat)
    requires WellFormed(c, b) && i < SlotCount(c)
    ensures IsLocal(c, b, PublishCall(sawStarted), i)
  {
    hide Post, QueueOf, SubscriptionsOf, RunTask, Returns, LoopOf;
    if sawStarted && b.slots != [] {
      PostReaches(c, b.loops, b.publishCursor % |b.slots|, Publish(|b.returned|), i);
    }
  }

  lemma TimerIsLocal(c: Config, b: Broker, slot: nat, i: nat)
    requires WellFormed(c, b) && i < SlotCount(c)
    ensures IsLocal(c, b, TimerFires(slot), i)
  {
    hide Post, QueueOf, SubscriptionsOf, RunTask, Returns;
    PostReaches(c, b.loops, slot, Connect(true), i);
  }

  lemma ReadyIsLocal(c: Config, b: Broker, slot: nat, i: nat)
    requires WellFormed(c, b) && i < SlotCount(c)
    ensures IsLocal(c, b, ReportsReady(slot), i)
  {
    hide Post, QueueOf, SubscriptionsOf, RunTask, Returns;
    PostReaches(c, b.loops, slot, Ready, i);
  }

  lemma FailureIsLocal(c: Config, b: Broker, slot: nat, i: nat)
    requires WellFormed(c, b) && i < SlotCount(c)
    ensures IsLocal(c, b, ReportsFailure(slot), i)
  {
    hide Post, QueueOf, SubscriptionsOf, RunTask, Returns;
    PostReaches(c, b.loops, slot, Failure, i);
  }

  /** Each step of the broker is one step (or none) of every slot, although slots
      share event loops: the laws of a slot on its own carry over. */
  lemma StepIsLocal(c: Config, b: Broker, e: Event, i: nat)
    requires WellFormed(c, b) && i < SlotCount(c)
    ensures IsLocal(c, b, e, i)
  {
    match e {
      case StartCall => StartIsLocal(c, b, i);
      case StopCall => StopIsLocal(c, b, i);
      case SubscribeCall(topic) => SubscribeIsLocal(c, b, topic, i);
      case PublishCall(sawStarted) => PublishIsLocal(c, b, sawStarted, i);
      case RunHead(loop, answers) => HeadIsLocal(c, b, loop, answers, i);
      case TimerFires(slot) => TimerIsLocal(c, b, slot, i);
      case ReportsReady(slot) => ReadyIsLocal(c, b, slot, i);
      case ReportsFailure(slot) => FailureIsLocal(c, b, slot, i);
    }
  }

  lemma NewBrokerIsLocal(c: Config, i: nat)
    requires i < SlotCount(c)
    ensures WellFormed(c, NewBroker(c))
    ensures LocalOf(c, NewBroker(c), i) == NewLocal(LoopOf(c, i).Some?, [])
  {
  }

  // ----- a broker with one slot --------------------------------------------------

  function RunLocal(c: Config, l: Local, es: seq<LocalEvent>): Local
    decreases |es|
  {
    if es == [] then l else RunLocal(c, LocalStep(c, l, es[0]), es[1..])
  }

  lemma {:induction false} RunLocalSplit(c: Config, l: Local, es: seq<LocalEvent>, fs: seq<LocalEvent>)
    ensures RunLocal(c, l, es + fs) == RunLocal(c, RunLocal(c, l, es), fs)
    decreases |es|
  {
    if es == [] {
      assert es + fs == fs;
    } else {
      assert (es + fs)[1..] == es[1..] + fs;
      RunLocalSplit(c, LocalStep(c, l, es[0]), es[1..], fs);
    }
  }

  /** One slot, on the loop of index 0. */
  predicate Solo(c: Config) {
    SlotCount(c) == 1 && LoopOf(c, 0) == Some(0)
  }

  /** A step of the only slot as an event of the broker. */
  function BrokerEvent(e: LocalEvent): Event {
    match e
    case LStart => StartCall
    case LStop => StopCall
    case LSubscribe(sub) => SubscribeCall(sub.topic)
    case LPost(_) => PublishCall(true)
    case LRun(answers) => RunHead(0, answers)
    case LTimer => TimerFires(0)
    case LReady => ReportsReady(0)
    case LFail => ReportsFailure(0)
    case LNothing => PublishCall(false)
  }

  function BrokerEvents(es: seq<LocalEvent>): (r: seq<Event>)
    ensures |r| == |es|
  {
    if es == [] then [] else [BrokerEvent(es[0])] + BrokerEvents(es[1..])
  }

  lemma {:induction false} BrokerEventsSplit(es: seq<LocalEvent>, fs: seq<LocalEvent>)
    ensures BrokerEvents(es + fs) == BrokerEvents(es) + BrokerEvents(fs)
  {
    if es == [] {
      assert es + fs == fs;
    } else {
      assert (es + fs)[1..] == es[1..] + fs;
      BrokerEventsSplit(es[1..], fs);
    }
  }

  /** No subscriptions; publishes carry the numbers of their calls. */
  predicate NumberedFrom(es: seq<LocalEvent>, calls: nat)
    decreases |es|
  {
    es != [] ==>
      && !es[0].LSubscribe? && (es[0].LPost? ==> es[0].call == calls)
      && NumberedFrom(es[1..], calls + (if es[0].LPost? || es[0].LNothing? then 1 else 0))
  }

  lemma SoloStep(c: Config, b: Broker, e: LocalEvent)
    requires Solo(c) && WellFormed(c, b)
    requires b.slots != [] || e.LStart?
    requires !e.LSubscribe? && (e.LPost? ==> e.call == |b.returned|)
    ensures WellFormed(c, Step(c, b, BrokerEvent(e))) && Step(c, b, BrokerEvent(e)).slots != []
    ensures LocalOf(c, Step(c, b, BrokerEvent(e)), 0) == LocalStep(c, LocalOf(c, b, 0), e)
    ensures |Step(c, b, BrokerEvent(e)).returned|
         == |b.returned| + (if e.LPost? || e.LNothing? then 1 else 0)
  {
    StepWellFormed(c, b, BrokerEvent(e));
    StepIsLocal(c, b, BrokerEvent(e), 0);
  }

  lemma {:induction false} SoloRunFrom(c: Config, b: Broker, es: seq<LocalEvent>)
    requires Solo(c) && WellFormed(c, b) && NumberedFrom(es, |b.returned|)
    requires b.slots != [] || (es != [] && es[0].LStart?)
    ensures WellFormed(c, RunFrom(c, b, BrokerEvents(es))) && RunFrom(c, b, BrokerEvents(es)).slots != []
    ensures LocalOf(c, RunFrom(c, b, BrokerEvents(es)), 0) == RunLocal(c, LocalOf(c, b, 0), es)
    decreases |es|
  {
    if es != [] {
      SoloStep(c, b, es[0]);
      assert BrokerEvents(es)[1..] == BrokerEvents(es[1..]);
      SoloRunFrom(c, Step(c, b, BrokerEvent(es[0])), es[1..]);
    }
  }

  /** What the only slot of a broker can go through on its own, without
      subscriptions, is a run of the broker. */
  lemma {:induction false} SoloRun(c: Config, es: seq<LocalEvent>)
    requires Solo(c) && NumberedFrom(es, 0) && es != [] && es[0].LStart?
    ensures
      var b := Run(c, BrokerEvents(es));
      |b.slots| == 1 && b.slots[0] == RunLocal(c, NewLocal(true, []), es).slot
  {
    NewBrokerIsLocal(c, 0);
    SoloRunFrom(c, NewBroker(c), es);
  }
}
