/** Laws of a single slot under every interleaving of its tasks, timers and
    notifications.  Each is stated for one arbitrary step; BrokerLaws lifts them
    to whole runs of the broker. */
module SlotLaws {
  import opened Basics
  import opened SlotProtocol
  import opened FlushLaws

  // ----- channels and back-off ------------------------------------------------

  /** Delay before the k-th reconnect (from 0) since the last ready task. */
  function Backoff(k: nat): nat {
    if k == 0 then 1 else Min(30, Backoff(k - 1) * 2)
  }

  ghost predicate ChannelsSound(c: Config, s: SlotState) {
    var n := ChannelCount(c);
    // ready exactly when there are publisher channels, and then all of them
    && |s.publisherChannels| == (if s.ready then n else 0)
    // attempts go round the channels, across refusals and reconnects
    && s.log.attempts == Walk(0, |s.log.attempts|, n)
    && s.nextPublisherChannel == |s.log.attempts| % n
    // no channel outlives the connection it was opened on
    && (forall ch :: ch in s.publisherChannels ==> ch.connection == s.connection)
    && (forall t :: t in s.consumerChannels ==> s.consumerChannels[t].connection == s.connection)
    && (s.consumerChannels != map[] ==> s.ready && s.connection.Some?)
    && (s.connection.Some? ==> s.connection.value + 1 == s.log.connections)
  }

  ghost predicate BackoffSound(s: SlotState) {
    && s.reconnectDelay == Backoff(|s.log.waits|)
    && (forall k: nat :: k < |s.log.waits| ==> s.log.waits[k] == Backoff(k))
  }

  ghost predicate SlotSound(c: Config, s: SlotState) {
    ChannelsSound(c, s) && BackoffSound(s)
  }

  lemma {:induction false} WalkMore(cursor: nat, count: nat, more: nat, n: nat)
    requires 0 < n
    ensures Walk(cursor, count + more, n)
         == Walk(cursor, count, n) + Walk((cursor + count) % n, more, n)
    decreases count
  {
    if count == 0 {
      if more > 0 {
        ModTwice(cursor, n);
        ModPlus(cursor, 1, n);
      }
    } else {
      WalkMore((cursor + 1) % n, count - 1, more, n);
      ModPlus(cursor + 1, count - 1, n);
    }
  }

  lemma ModTwice(x: nat, n: nat)
    requires 0 < n
    ensures (x % n) % n == x % n
  {
    ModSmall(x % n, n);
  }

  lemma FlushSound(c: Config, s: SlotState, answers: seq<bool>)
    requires SlotSound(c, s)
    ensures SlotSound(c, Flush(s, answers))
  {
    FlushMovesPrefix(s, answers);
    if s.ready {
      FlushWalksChannels(s, answers);
      var n := ChannelCount(c);
      var made := |s.log.attempts|;
      var used := |Flush(s, answers).log.attempts| - made;
      WalkMore(0, made, used, n);
      ModPlus(made, used, n);
    }
  }

  lemma PublishSound(c: Config, s: SlotState, call: nat, ok: bool)
    requires SlotSound(c, s)
    ensures SlotSound(c, PublishOnLoop(s, call, ok))
  {
    if s.ready {
      var n := ChannelCount(c);
      var made := |s.log.attempts|;
      WalkMore(0, made, 1, n);
      ModTwice(made, n);
      ModPlus(made, 1, n);
      assert Walk(made % n, 1, n) == [made % n];
    }
  }

  /** The newest of the subscriptions to a topic. */
  ghost function NewestOf(subs: seq<Subscription>, topic: Topic): Option<nat>
    decreases |subs|
  {
    if subs == [] then None
    else if subs[|subs| - 1].topic == topic then Some(subs[|subs| - 1].number)
    else NewestOf(subs[..|subs| - 1], topic)
  }

  /** The subscription whose handler the slot's consumer of a topic calls. */
  ghost function ConsumerOf(s: SlotState, topic: Topic): Option<nat> {
    if topic in s.consumerChannels then Some(s.consumerChannels[topic].subscription) else None
  }

  lemma {:induction false} ConsumersFrame(s: SlotState, subs: seq<Subscription>)
    requires s.consumerChannels == map[]
    ensures
      var t := ConsumerTasks(s, subs);
      && t == s.(consumerChannels := t.consumerChannels)
      && (t.consumerChannels != map[] ==> s.ready && s.connection.Some?)
      && (forall x :: ConsumerOf(t, x) == if s.ready && s.connection.Some? then NewestOf(subs, x) else None)
      && (forall x :: x in t.consumerChannels ==> t.consumerChannels[x].connection == s.connection)
    decreases |subs|
  {
    if subs != [] {
      ConsumersFrame(s, subs[..|subs| - 1]);
    }
  }

  lemma {:induction false} NewestIsOne(subs: seq<Subscription>, topic: Topic)
    ensures NewestOf(subs, topic).Some? ==> Subscription(topic, NewestOf(subs, topic).value) in subs
    decreases |subs|
  {
    if subs != [] {
      NewestIsOne(subs[..|subs| - 1], topic);
      assert subs == subs[..|subs| - 1] + [subs[|subs| - 1]];
    }
  }

  lemma RebuildSound(c: Config, s: SlotState, subs: seq<Subscription>)
    requires SlotSound(c, s.(ready := false, publisherChannels := [], consumerChannels := map[]))
    requires s.ready
    ensures SlotSound(c, RebuildChannels(c, s, subs))
  {
    var base := WithPublishers(c, s);
    ConsumersFrame(base, subs);
  }

  lemma RunTaskSound(c: Config, s: SlotState, task: Task, started: bool, subs: seq<Subscription>,
                     answers: seq<bool>)
    requires SlotSound(c, s)
    ensures SlotSound(c, RunTask(c, s, task, started, subs, answers))
  {
    match task {
      case Connect(_) =>
      case Ready =>
        var up := BroughtUp(s);
        RebuildSound(c, up, subs);
        FlushSound(c, RebuildChannels(c, up, subs), answers);
      case Failure =>
      case Stop =>
      case Publish(call) => PublishSound(c, s, call, answers != [] && answers[0]);
      case StartConsumer(topic) =>
    }
  }

  /** Ready means exactly the configured channels, all on the current connection;
      the cursor and the back-off follow their closed forms; after any step. */
  lemma SoundStep(c: Config, l: Local, e: LocalEvent)
    requires SlotSound(c, l.slot)
    ensures SlotSound(c, LocalStep(c, l, e).slot)
  {
    if e.LRun? && l.queue != [] {
      RunTaskSound(c, l.slot, l.queue[0], l.started, l.subs, e.answers);
    }
  }

  // ----- single-flight reconnect ---------------------------------------------

  ghost function Count(queue: seq<Task>, task: Task): nat {
    if queue == [] then 0 else (if queue[0] == task then 1 else 0) + Count(queue[1..], task)
  }

  lemma {:induction false} CountAppend(queue: seq<Task>, more: Task, task: Task)
    ensures Count(queue + [more], task) == Count(queue, task) + (if more == task then 1 else 0)
  {
    if queue == [] {
      assert queue + [more] == [more];
    } else {
      assert (queue + [more])[1..] == queue[1..] + [more];
      CountAppend(queue[1..], more, task);
    }
  }

  lemma {:induction false} CountIn(queue: seq<Task>, task: Task)
    ensures Count(queue, task) > 0 <==> task in queue
  {
    if queue != [] {
      CountIn(queue[1..], task);
      assert queue == [queue[0]] + queue[1..];
    }
  }

  /** Reconnects under way: timers armed and timer-issued connects waiting. */
  ghost function InFlight(l: Local): nat {
    l.slot.log.timers + Count(l.queue, Connect(true))
  }

  ghost predicate SingleFlight(l: Local) {
    InFlight(l) == if l.slot.reconnectScheduled then 1 else 0
  }

  /** The steps that forget a reconnect under way: a stop task or a start-issued
      connect clears the flag, or the timer fires while the broker is stopped. */
  predicate LosesTrack(l: Local, e: LocalEvent) {
    && l.slot.reconnectScheduled
    && (|| (e.LRun? && l.queue != [] && (l.queue[0] == Stop || l.queue[0] == Connect(false)))
        || (e.LTimer? && l.slot.log.timers > 0 && !l.started))
  }

  lemma FlushKeepsTimers(c: Config, s: SlotState, subs: seq<Subscription>, answers: seq<bool>)
    ensures
      var t := ReadyTask(c, s, subs, answers);
      && t.log.timers == s.log.timers && t.log.armed == s.log.armed
      && t.reconnectScheduled == s.reconnectScheduled
      && t.log.connections == s.log.connections && t.connection == s.connection
      && t.ready && !t.log.awaitingOutcome
      && t.reconnectDelay == 1 && t.log.waits == []
      && t.log.accepted == s.log.accepted && t.log.dropped == s.log.dropped
      && (forall x :: ConsumerOf(t, x) == if s.connection.Some? then NewestOf(subs, x) else None)
  {
    var up := BroughtUp(s);
    var base := WithPublishers(c, up);
    var rebuilt := RebuildChannels(c, up, subs);
    ConsumersFrame(base, subs);
    FlushMovesPrefix(rebuilt, answers);
    forall x
      ensures ConsumerOf(Flush(rebuilt, answers), x) == ConsumerOf(rebuilt, x)
    {
    }
  }

  lemma PostedCounts(l: Local, task: Task, x: Task)
    ensures Count(Posted(l, task).queue, x)
         == Count(l.queue, x) + (if l.hasLoop && task == x then 1 else 0)
  {
    CountAppend(l.queue, task, x);
  }

  lemma HeadSingleFlight(c: Config, l: Local, answers: seq<bool>)
    requires l.hasLoop && SingleFlight(l)
    ensures SingleFlight(LocalStep(c, l, LRun(answers))) <==> !LosesTrack(l, LRun(answers))
  {
    if l.queue != [] && l.queue[0] == Ready {
      FlushKeepsTimers(c, l.slot, l.subs, answers);
    }
  }

  /** From a state in single flight, a step leaves single flight exactly when it
      is one that loses track. */
  lemma SingleFlightExactly(c: Config, l: Local, e: LocalEvent)
    requires l.hasLoop && SingleFlight(l)
    ensures SingleFlight(LocalStep(c, l, e)) <==> !LosesTrack(l, e)
  {
    var x := Connect(true);
    match e {
      case LStart => PostedCounts(l.(started := true), Connect(false), x);
      case LStop => PostedCounts(l.(started := false), Stop, x);
      case LSubscribe(t) => PostedCounts(l, StartConsumer(t), x);
      case LPost(call) => CountAppend(l.queue, Publish(call), x);
      case LRun(answers) => HeadSingleFlight(c, l, answers);
      case LTimer => CountAppend(l.queue, Connect(true), x);
      case LReady => PostedCounts(l, Ready, x);
      case LFail => PostedCounts(l, Failure, x);
      case LNothing =>
    }
  }

  // ----- a stopped broker winds down -------------------------------------------

  ghost function QueuedConnects(queue: seq<Task>): nat {
    Count(queue, Connect(true)) + Count(queue, Connect(false))
  }

  /** While the broker is stopped no step arms a timer, and the only connections
      still made are those whose connect task was waiting already. */
  lemma StoppedStep(c: Config, l: Local, e: LocalEvent)
    requires !l.started && !e.LStart?
    ensures
      var m := LocalStep(c, l, e);
      && !m.started
      && m.slot.log.armed == l.slot.log.armed
      && m.slot.log.timers <= l.slot.log.timers
      && m.slot.log.connections + QueuedConnects(m.queue)
           == l.slot.log.connections + QueuedConnects(l.queue)
  {
    hide ReadyTask;
    match e {
      case LPost(call) => WaitsQuietly(l, Publish(call));
      case LReady => WaitsQuietly(l, Ready);
      case LFail => WaitsQuietly(l, Failure);
      case LRun(answers) =>
        if l.queue != [] && l.queue[0] == Ready {
          FlushKeepsTimers(c, l.slot, l.subs, answers);
        }
      case _ =>
    }
  }

  lemma WaitsQuietly(l: Local, task: Task)
    requires !task.Connect?
    ensures QueuedConnects(Posted(l, task).queue) == QueuedConnects(l.queue)
  {
    PostedCounts(l, task, Connect(true));
    PostedCounts(l, task, Connect(false));
  }

  // ----- one reconnect at a time, without stop calls ---------------------------

  /** What holds of a slot in every run without a stop call. */
  ghost predicate Undisturbed(l: Local) {
    && SingleFlight(l)
    && Stop !in l.queue
    && Count(l.queue, Connect(false)) <= 1
    && (!l.hasLoop ==> l.queue == [])
    && (!l.started || !l.hasLoop ==> l.slot.log.connections == 0 && Connect(false) !in l.queue)
    && (l.slot.log.connections == 0 ==>
          && !l.slot.reconnectScheduled && !l.slot.ready
          && Ready !in l.queue && Failure !in l.queue)
    && (l.slot.log.connections > 0 ==> Connect(false) !in l.queue)
  }

  lemma NewLocalUndisturbed(hasLoop: bool, subs: seq<Subscription>)
    ensures Undisturbed(NewLocal(hasLoop, subs))
  {
  }

  lemma UndisturbedHead(c: Config, l: Local, answers: seq<bool>)
    requires Undisturbed(l)
    ensures Undisturbed(LocalStep(c, l, LRun(answers)))
  {
    if l.queue != [] {
      SingleFlightExactly(c, l, LRun(answers));
      var head, rest := l.queue[0], l.queue[1..];
      assert l.queue == [head] + rest;
      CountIn(l.queue, Connect(false));
      CountIn(rest, Connect(false));
      if head == Ready {
        FlushKeepsTimers(c, l.slot, l.subs, answers);
      }
    }
  }

  /** Without stop calls a slot never has two reconnects under way. */
  lemma UndisturbedStep(c: Config, l: Local, e: LocalEvent)
    requires Undisturbed(l) && !e.LStop?
    ensures Undisturbed(LocalStep(c, l, e))
  {
    if !l.hasLoop {
      if e.LSubscribe? || e.LStart? {
      }
    } else {
      SingleFlightExactly(c, l, e);
      CountIn(l.queue, Connect(false));
      match e {
        case LStart => CountAppend(l.queue, Connect(false), Connect(false));
        case LSubscribe(t) => CountAppend(l.queue, StartConsumer(t), Connect(false));
        case LPost(call) => CountAppend(l.queue, Publish(call), Connect(false));
        case LRun(answers) => UndisturbedHead(c, l, answers);
        case LTimer => CountAppend(l.queue, Connect(true), Connect(false));
        case LReady => CountAppend(l.queue, Ready, Connect(false));
        case LFail => CountAppend(l.queue, Failure, Connect(false));
        case LNothing =>
      }
    }
  }

  // ----- connections to come ----------------------------------------------------

  /** Whether a connection is held once every waiting task has run. */
  ghost predicate EndsConnected(connected: bool, queue: seq<Task>)
    decreases |queue|
  {
    if queue == [] then connected
    else EndsConnected(queue[0].Connect? || (connected && queue[0] != Stop), queue[1..])
  }

  lemma {:induction false} EndsConnectedAppend(connected: bool, queue: seq<Task>, task: Task)
    ensures EndsConnected(connected, queue + [task])
        <==> task.Connect? || (EndsConnected(connected, queue) && task != Stop)
    decreases |queue|
  {
    if queue == [] {
      assert (queue + [task])[1..] == [];
    } else {
      assert (queue + [task])[1..] == queue[1..] + [task];
      EndsConnectedAppend(queue[0].Connect? || (connected && queue[0] != Stop), queue[1..], task);
    }
  }

  /** A connection held now is held in the end unless a stop undoes it and no
      connect follows. */
  lemma {:induction false} ConnectedOrStops(queue: seq<Task>)
    ensures EndsConnected(true, queue) <==> EndsConnected(false, queue) || Stop !in queue
    decreases |queue|
  {
    if queue != [] {
      assert queue == [queue[0]] + queue[1..];
      ConnectedOrStops(queue[1..]);
    }
  }

  // ----- no slot is stranded -----------------------------------------------------

  /** Somebody will bring the slot of a running broker back, or it is ready: a
      connect waits that no waiting stop undoes; or no stop waits and the slot holds
      a connection and is ready, has a timer armed, or has not processed the outcome
      of that connection. */
  ghost predicate Attended(l: Local) {
    || EndsConnected(false, l.queue)
    || (&& Stop !in l.queue
        && l.slot.connection.Some?
        && (l.slot.ready || l.slot.log.timers > 0 || l.slot.log.awaitingOutcome))
  }

  /** The flag does not keep a failure from arming a timer unless one is armed or a
      connect waits. */
  ghost predicate Tended(l: Local) {
    l.started && l.hasLoop ==>
      && Attended(l)
      && (l.slot.reconnectScheduled ==> l.slot.log.timers > 0 || EndsConnected(false, l.queue))
  }

  lemma TendedHead(c: Config, l: Local, answers: seq<bool>)
    requires Tended(l) && l.started && l.hasLoop && l.queue != []
    ensures Tended(LocalStep(c, l, LRun(answers)))
  {
    var head, rest := l.queue[0], l.queue[1..];
    assert l.queue == [head] + rest;
    match head {
      case Connect(_) => ConnectedOrStops(rest);
      case Ready => FlushKeepsTimers(c, l.slot, l.subs, answers);
      case _ =>
    }
  }

  lemma TendedPost(l: Local, task: Task)
    requires Tended(l) && l.started && l.hasLoop && task != Stop
    ensures Tended(Posted(l, task))
  {
    EndsConnectedAppend(false, l.queue, task);
  }

  /** No step, stop and restart included, strands a slot of a running broker. */
  lemma TendedStep(c: Config, l: Local, e: LocalEvent)
    requires Tended(l)
    ensures Tended(LocalStep(c, l, e))
  {
    if e.LStart? {
      EndsConnectedAppend(false, l.queue, Connect(false));
    } else if l.started && l.hasLoop {
      match e {
        case LSubscribe(topic) => TendedPost(l, StartConsumer(topic));
        case LPost(call) => TendedPost(l, Publish(call));
        case LRun(answers) =>
          if l.queue != [] {
            TendedHead(c, l, answers);
          }
        case LTimer => EndsConnectedAppend(false, l.queue, Connect(true));
        case LReady => TendedPost(l, Ready);
        case LFail => TendedPost(l, Failure);
        case _ =>
      }
    }
  }

  // ----- subscription coverage -------------------------------------------------

  /** What a task makes of the subscription whose handler is called for a topic. */
  ghost function Consuming(held: Option<nat>, task: Task, topic: Topic): Option<nat> {
    if task == Stop then None
    else if task.StartConsumer? && task.subscription.topic == topic then Some(task.subscription.number)
    else held
  }

  /** Whose handler would be called once every waiting task has run, if no
      connection came or went. */
  ghost function EndsConsuming(held: Option<nat>, queue: seq<Task>, topic: Topic): Option<nat>
    decreases |queue|
  {
    if queue == [] then held else EndsConsuming(Consuming(held, queue[0], topic), queue[1..], topic)
  }

  lemma {:induction false} EndsConsumingAppend(held: Option<nat>, queue: seq<Task>, task: Task, topic: Topic)
    ensures EndsConsuming(held, queue + [task], topic)
         == Consuming(EndsConsuming(held, queue, topic), task, topic)
    decreases |queue|
  {
    if queue == [] {
      assert (queue + [task])[1..] == [];
    } else {
      assert (queue + [task])[1..] == queue[1..] + [task];
      EndsConsumingAppend(Consuming(held, queue[0], topic), queue[1..], task, topic);
    }
  }

  /** The last waiting consumer task decides, or what is held now if there is none;
      a stop undoes both. */
  lemma {:induction false} LastConsumerDecides(held: Option<nat>, queue: seq<Task>, topic: Topic)
    ensures
      var waiting := EndsConsuming(None, queue, topic);
      EndsConsuming(held, queue, topic)
        == if waiting.Some? then waiting else if Stop in queue then None else held
    decreases |queue|
  {
    if queue != [] {
      assert queue == [queue[0]] + queue[1..];
      LastConsumerDecides(Consuming(held, queue[0], topic), queue[1..], topic);
      LastConsumerDecides(Consuming(None, queue[0], topic), queue[1..], topic);
    }
  }

  ghost predicate Holds(s: SlotState) {
    s.ready && s.connection.Some?
  }

  /** The last consumer task waiting for a topic, since the last stop, is its newest
      subscription's; and once it has run so is the consumer of a ready, connected
      slot that no stop waits for. */
  ghost predicate Latest(l: Local, topic: Topic) {
    var waiting := EndsConsuming(None, l.queue, topic);
    && (waiting.Some? ==> l.started && waiting == NewestOf(l.subs, topic))
    && (Holds(l.slot) && Stop !in l.queue ==>
          EndsConsuming(ConsumerOf(l.slot, topic), l.queue, topic) == NewestOf(l.subs, topic))
  }

  ghost predicate Subscribed(l: Local) {
    && (!l.hasLoop ==> l.queue == [] && l.slot.connection.None?)
    // a stopped broker ends with no connection on any slot
    && (!l.started ==> !EndsConnected(l.slot.connection.Some?, l.queue))
    // each topic's consumer is its newest subscription's, or about to be
    && (forall topic :: Latest(l, topic))
    // and nothing unregistered is consumed
    && (forall t :: t in l.slot.consumerChannels ==>
          Subscription(t, l.slot.consumerChannels[t].subscription) in l.subs)
    && (forall sub :: StartConsumer(sub) in l.queue ==> sub in l.subs)
  }

  lemma LatestReady(c: Config, l: Local, answers: seq<bool>, topic: Topic)
    requires Latest(l, topic) && l.queue != [] && l.queue[0] == Ready
    ensures Latest(l.(slot := ReadyTask(c, l.slot, l.subs, answers), queue := l.queue[1..]), topic)
  {
    hide ReadyTask;
    assert l.queue == [Ready] + l.queue[1..];
    FlushKeepsTimers(c, l.slot, l.subs, answers);
    LastConsumerDecides(NewestOf(l.subs, topic), l.queue[1..], topic);
  }

  lemma SubscribedReady(c: Config, l: Local, answers: seq<bool>)
    requires Subscribed(l) && l.queue != [] && l.queue[0] == Ready
    requires Returns(c, l.slot, Ready, l.subs, answers)
    ensures Subscribed(LocalStep(c, l, LRun(answers)))
  {
    hide ReadyTask, Latest;
    assert l.queue == [Ready] + l.queue[1..];
    FlushKeepsTimers(c, l.slot, l.subs, answers);
    var m := l.(slot := ReadyTask(c, l.slot, l.subs, answers), queue := l.queue[1..]);
    assert LocalStep(c, l, LRun(answers)) == m;
    forall topic
      ensures Latest(m, topic)
    {
      LatestReady(c, l, answers, topic);
    }
    forall t | t in m.slot.consumerChannels
      ensures Subscription(t, m.slot.consumerChannels[t].subscription) in m.subs
    {
      assert ConsumerOf(m.slot, t) == NewestOf(l.subs, t);
      NewestIsOne(l.subs, t);
    }
  }

  lemma TaskConsumes(c: Config, s: SlotState, task: Task, started: bool, subs: seq<Subscription>,
                     answers: seq<bool>, topic: Topic)
    requires task != Ready
    ensures
      var t := RunTask(c, s, task, started, subs, answers);
      Holds(t) ==>
        Holds(s) && task != Stop && ConsumerOf(t, topic) == Consuming(ConsumerOf(s, topic), task, topic)
  {
    hide ReadyTask;
  }

  lemma LatestRun(c: Config, l: Local, answers: seq<bool>, topic: Topic)
    requires Latest(l, topic) && l.queue != [] && l.queue[0] != Ready
    ensures Latest(LocalStep(c, l, LRun(answers)), topic)
  {
    hide RunTask, NewestOf, Consuming, ConsumerOf;
    var head, rest := l.queue[0], l.queue[1..];
    assert l.queue == [head] + rest;
    LastConsumerDecides(Consuming(None, head, topic), rest, topic);
    TaskConsumes(c, l.slot, head, l.started, l.subs, answers, topic);
  }

  lemma SubscribedRun(c: Config, l: Local, answers: seq<bool>)
    requires Subscribed(l) && l.queue != [] && l.queue[0] != Ready
    ensures Subscribed(LocalStep(c, l, LRun(answers)))
  {
    hide ReadyTask, Latest;
    var head, rest := l.queue[0], l.queue[1..];
    assert l.queue == [head] + rest;
    forall topic
      ensures Latest(LocalStep(c, l, LRun(answers)), topic)
    {
      LatestRun(c, l, answers, topic);
    }
    match head {
      case Connect(_) => assert LocalStep(c, l, LRun(answers)).slot == ConnectTask(l.slot);
      case Failure => assert LocalStep(c, l, LRun(answers)).slot == FailureTask(l.slot, l.started);
      case Stop => assert LocalStep(c, l, LRun(answers)).slot == StopTask(l.slot);
      case Publish(call) =>
      case StartConsumer(sub) => assert LocalStep(c, l, LRun(answers)).slot == ConsumerTask(l.slot, sub);
    }
  }

  lemma LatestPost(l: Local, task: Task, topic: Topic)
    requires Latest(l, topic) && !task.StartConsumer?
    ensures Latest(Posted(l, task), topic)
  {
    EndsConsumingAppend(None, l.queue, task, topic);
    EndsConsumingAppend(ConsumerOf(l.slot, topic), l.queue, task, topic);
  }

  lemma SubscribedPost(l: Local, task: Task)
    requires Subscribed(l) && l.hasLoop && !task.StartConsumer?
    requires task.Connect? ==> l.started
    ensures Subscribed(Posted(l, task))
  {
    hide Latest;
    EndsConnectedAppend(l.slot.connection.Some?, l.queue, task);
    forall topic
      ensures Latest(Posted(l, task), topic)
    {
      LatestPost(l, task, topic);
    }
  }

  lemma LatestSubscribe(c: Config, l: Local, sub: Subscription, topic: Topic)
    requires Latest(l, topic) && l.hasLoop
    requires l.started || !(Holds(l.slot) && Stop !in l.queue)
    ensures Latest(LocalStep(c, l, LSubscribe(sub)), topic)
  {
    assert (l.subs + [sub])[..|l.subs|] == l.subs;
    EndsConsumingAppend(None, l.queue, StartConsumer(sub), topic);
    EndsConsumingAppend(ConsumerOf(l.slot, topic), l.queue, StartConsumer(sub), topic);
  }

  /** A topic registered while the broker is stopped needs no consumer yet: no
      ready slot can still be connected without a stop task waiting for it. */
  lemma SubscribedTopic(c: Config, l: Local, sub: Subscription)
    requires Subscribed(l) && l.hasLoop
    ensures Subscribed(LocalStep(c, l, LSubscribe(sub)))
  {
    hide Latest;
    EndsConnectedAppend(l.slot.connection.Some?, l.queue, StartConsumer(sub));
    ConnectedOrStops(l.queue);
    forall topic
      ensures Latest(LocalStep(c, l, LSubscribe(sub)), topic)
    {
      LatestSubscribe(c, l, sub, topic);
    }
  }

  lemma LatestStart(l: Local, topic: Topic)
    requires Latest(l, topic)
    ensures Latest(l.(started := true), topic)
  {
  }

  lemma LatestStop(l: Local, topic: Topic)
    requires l.hasLoop
    ensures Latest(Posted(l.(started := false), Stop), topic)
  {
    EndsConsumingAppend(None, l.queue, Stop, topic);
  }

  lemma SubscribedStart(l: Local)
    requires Subscribed(l) && l.hasLoop
    ensures Subscribed(Posted(l.(started := true), Connect(false)))
  {
    hide Latest;
    var m := l.(started := true);
    forall topic
      ensures Latest(m, topic)
    {
      LatestStart(l, topic);
    }
    SubscribedPost(m, Connect(false));
  }

  lemma SubscribedStop(l: Local)
    requires Subscribed(l) && l.hasLoop
    ensures Subscribed(Posted(l.(started := false), Stop))
  {
    hide Latest;
    EndsConnectedAppend(l.slot.connection.Some?, l.queue, Stop);
    forall topic
      ensures Latest(Posted(l.(started := false), Stop), topic)
    {
      LatestStop(l, topic);
    }
  }

  /** A slot without a loop has no tasks and never holds a connection. */
  lemma SubscribedIdle(c: Config, l: Local, e: LocalEvent)
    requires Subscribed(l) && !l.hasLoop
    ensures Subscribed(LocalStep(c, l, e))
  {
    var m := LocalStep(c, l, e);
    forall topic
      ensures Latest(m, topic)
    {
      assert m.queue == [] && !Holds(m.slot);
    }
    assert forall sub :: sub in l.subs ==> sub in m.subs;
  }

  lemma SubscribedStep(c: Config, l: Local, e: LocalEvent)
    requires Subscribed(l)
    ensures Subscribed(LocalStep(c, l, e))
  {
    if !l.hasLoop {
      SubscribedIdle(c, l, e);
    } else {
      hide Subscribed, RunTask;
      match e {
        case LStart =>
          if !l.started {
            SubscribedStart(l);
          }
        case LStop =>
          if l.started {
            SubscribedStop(l);
          }
        case LSubscribe(sub) => SubscribedTopic(c, l, sub);
        case LRun(answers) =>
          if l.queue != [] && Returns(c, l.slot, l.queue[0], l.subs, answers) {
            if l.queue[0] == Ready {
              SubscribedReady(c, l, answers);
            } else {
              SubscribedRun(c, l, answers);
            }
          }
        case LPost(call) => SubscribedAccept(l, call);
        case LTimer => SubscribedTimer(c, l);
        case LReady => SubscribedPost(l, Ready);
        case LFail => SubscribedPost(l, Failure);
        case LNothing =>
      }
    }
  }

  /** Subscription coverage does not read the log. */
  lemma SubscribedLog(l: Local, log: History)
    requires Subscribed(l)
    ensures Subscribed(l.(slot := l.slot.(log := log)))
  {
    var m := l.(slot := l.slot.(log := log));
    forall topic
      ensures Latest(m, topic)
    {
      assert Latest(l, topic) && ConsumerOf(m.slot, topic) == ConsumerOf(l.slot, topic);
    }
  }

  lemma SubscribedAccept(l: Local, call: nat)
    requires Subscribed(l) && l.hasLoop
    ensures
      var log := l.slot.log.(accepted := l.slot.log.accepted + [call]);
      Subscribed(Posted(l.(slot := l.slot.(log := log)), Publish(call)))
  {
    hide Subscribed;
    var log := l.slot.log.(accepted := l.slot.log.accepted + [call]);
    SubscribedLog(l, log);
    SubscribedPost(l.(slot := l.slot.(log := log)), Publish(call));
  }

  lemma SubscribedTimer(c: Config, l: Local)
    requires Subscribed(l) && l.hasLoop
    ensures Subscribed(LocalStep(c, l, LTimer))
  {
    hide Subscribed;
    if l.slot.log.timers > 0 {
      var log := l.slot.log.(timers := l.slot.log.timers - 1);
      SubscribedLog(l, log);
      if l.started {
        SubscribedPost(l.(slot := l.slot.(log := log)), Connect(true));
      }
    }
  }

  // ----- where the publishes of a slot are ------------------------------------

  ghost function QueuedPublishes(queue: seq<Task>): seq<nat> {
    if queue == [] then []
    else (if queue[0].Publish? then [queue[0].call] else []) + QueuedPublishes(queue[1..])
  }

  lemma {:induction false} QueuedPublishesAppend(queue: seq<Task>, task: Task)
    ensures QueuedPublishes(queue + [task])
         == QueuedPublishes(queue) + (if task.Publish? then [task.call] else [])
  {
    if queue == [] {
      assert queue + [task] == [task];
    } else {
      var first := if queue[0].Publish? then [queue[0].call] else [];
      var mid, last := QueuedPublishes(queue[1..]), if task.Publish? then [task.call] else [];
      assert (queue + [task])[1..] == queue[1..] + [task];
      QueuedPublishesAppend(queue[1..], task);
      assert (first + mid) + last == first + (mid + last);
    }
  }

  /** Published, waiting in the deque, waiting on the loop, dropped by a stop. */
  ghost function Places(l: Local): multiset<nat> {
    multiset(l.slot.log.published) + multiset(l.slot.pendingPublishes)
    + multiset(QueuedPublishes(l.queue)) + multiset(l.slot.log.dropped)
  }

  ghost predicate Conserved(l: Local) {
    Places(l) == multiset(l.slot.log.accepted)
  }

  lemma ReadyTaskPublishes(c: Config, s: SlotState, subs: seq<Subscription>, answers: seq<bool>)
    ensures
      var t := ReadyTask(c, s, subs, answers);
      && t.log.published + t.pendingPublishes == s.log.published + s.pendingPublishes
      && s.log.published <= t.log.published
      && (FlushDone(t) ==> t.pendingPublishes == [])
  {
    var up := BroughtUp(s);
    var base := WithPublishers(c, up);
    ConsumersFrame(base, subs);
    FlushMovesPrefix(RebuildChannels(c, up, subs), answers);
    FlushKeepsOrder(RebuildChannels(c, up, subs), answers);
  }

  /** Calls the step adds to the slot's loop. */
  ghost function Added(l: Local, e: LocalEvent): seq<nat> {
    if e.LPost? && l.hasLoop then [e.call] else []
  }

  /** A step that runs no task only lengthens the queue. */
  lemma QuietStep(c: Config, l: Local, e: LocalEvent)
    requires !e.LRun?
    ensures
      var m := LocalStep(c, l, e);
      && QueuedPublishes(m.queue) == QueuedPublishes(l.queue) + Added(l, e)
      && m.slot.log.accepted == l.slot.log.accepted + Added(l, e)
      && m.slot.log.published == l.slot.log.published
      && m.slot.log.dropped == l.slot.log.dropped
      && m.slot.pendingPublishes == l.slot.pendingPublishes
  {
    hide QueuedPublishes, RunTask, Returns;
    match e {
      case LStart => QueuedPublishesAppend(l.queue, Connect(false));
      case LStop => QueuedPublishesAppend(l.queue, Stop);
      case LSubscribe(t) => QueuedPublishesAppend(l.queue, StartConsumer(t));
      case LPost(call) => QueuedPublishesAppend(l.queue, Publish(call));
      case LTimer => QueuedPublishesAppend(l.queue, Connect(true));
      case LReady => QueuedPublishesAppend(l.queue, Ready);
      case LFail => QueuedPublishesAppend(l.queue, Failure);
      case LNothing =>
    }
  }

  /** A task that is neither a publish nor a stop moves nothing but the boundary
      between published and deque. */
  lemma LineOfOtherTasks(c: Config, l: Local, answers: seq<bool>)
    requires l.queue != [] && Returns(c, l.slot, l.queue[0], l.subs, answers)
    requires !l.queue[0].Publish? && l.queue[0] != Stop
    ensures
      var m := LocalStep(c, l, LRun(answers));
      && QueuedPublishes(m.queue) == QueuedPublishes(l.queue)
      && m.slot.log.published + m.slot.pendingPublishes
           == l.slot.log.published + l.slot.pendingPublishes
      && m.slot.log.accepted == l.slot.log.accepted
      && m.slot.log.dropped == l.slot.log.dropped
  {
    hide ReadyTask, StopTask, PublishOnLoop;
    if l.queue[0] == Ready {
      ReadyTaskPublishes(c, l.slot, l.subs, answers);
      FlushKeepsTimers(c, l.slot, l.subs, answers);
    }
  }

  /** A publish attempt puts its call in the published sequence or in the deque. */
  lemma PublishPlaces(s: SlotState, call: nat, ok: bool)
    ensures
      var t := PublishOnLoop(s, call, ok);
      && multiset(t.log.published) + multiset(t.pendingPublishes)
           == multiset(s.log.published) + multiset(s.pendingPublishes) + multiset{call}
      && t.log.dropped == s.log.dropped && t.log.accepted == s.log.accepted
  {
    var t := PublishOnLoop(s, call, ok);
    assert t.log.published == s.log.published || t.log.published == s.log.published + [call];
    assert t.pendingPublishes == s.pendingPublishes
        || t.pendingPublishes == s.pendingPublishes + [call]
        || t.pendingPublishes == [call] + s.pendingPublishes;
  }

  lemma MovedPiles(p: multiset<nat>, w: multiset<nat>, q: multiset<nat>, d: multiset<nat>,
                   p': multiset<nat>, w': multiset<nat>, q': multiset<nat>, d': multiset<nat>,
                   moved: multiset<nat>)
    requires p' + w' + d' == p + w + d + moved && q == moved + q'
    ensures p' + w' + q' + d' == p + w + q + d
  {
    forall x: nat
      ensures (p' + w' + q' + d')[x] == (p + w + q + d)[x]
    {
      assert (p' + w' + d')[x] == (p + w + d + moved)[x];
    }
  }

  lemma PublishConserved(c: Config, l: Local, answers: seq<bool>)
    requires l.queue != [] && l.queue[0].Publish? && Conserved(l)
    ensures Conserved(LocalStep(c, l, LRun(answers)))
  {
    var ok := answers != [] && answers[0];
    var s, call, rest := l.slot, l.queue[0].call, l.queue[1..];
    var t := PublishOnLoop(s, call, ok);
    assert LocalStep(c, l, LRun(answers)) == l.(slot := t, queue := rest);
    PublishPlaces(s, call, ok);
    var queued := QueuedPublishes(rest);
    assert QueuedPublishes(l.queue) == [call] + queued;
    MovedPiles(multiset(s.log.published), multiset(s.pendingPublishes),
               multiset([call] + queued), multiset(s.log.dropped),
               multiset(t.log.published), multiset(t.pendingPublishes),
               multiset(queued), multiset(t.log.dropped), multiset{call});
  }

  lemma StopConserved(c: Config, l: Local, answers: seq<bool>)
    requires l.queue != [] && l.queue[0] == Stop && Conserved(l)
    ensures Conserved(LocalStep(c, l, LRun(answers)))
  {
    var s, t, queued := l.slot, StopTask(l.slot), QueuedPublishes(l.queue);
    assert LocalStep(c, l, LRun(answers)) == l.(slot := t, queue := l.queue[1..]);
    assert queued == QueuedPublishes(l.queue[1..]);
    assert multiset(s.log.dropped + s.pendingPublishes)
        == multiset(s.log.dropped) + multiset(s.pendingPublishes);
    MovedPiles(multiset(s.log.published), multiset(s.pendingPublishes),
               multiset(queued), multiset(s.log.dropped),
               multiset(t.log.published), multiset(t.pendingPublishes),
               multiset(queued), multiset(t.log.dropped), multiset{});
  }

  lemma OtherConserved(c: Config, l: Local, answers: seq<bool>)
    requires l.queue != [] && Returns(c, l.slot, l.queue[0], l.subs, answers)
    requires !l.queue[0].Publish? && l.queue[0] != Stop && Conserved(l)
    ensures Conserved(LocalStep(c, l, LRun(answers)))
  {
    var s, t := l.slot, LocalStep(c, l, LRun(answers)).slot;
    LineOfOtherTasks(c, l, answers);
    assert multiset(t.log.published + t.pendingPublishes)
        == multiset(s.log.published + s.pendingPublishes);
  }

  /** No step loses, duplicates or invents a publish of the slot. */
  lemma ConservedStep(c: Config, l: Local, e: LocalEvent)
    requires Conserved(l)
    ensures Conserved(LocalStep(c, l, e))
  {
    if !e.LRun? {
      QuietStep(c, l, e);
    } else if l.queue != [] && Returns(c, l.slot, l.queue[0], l.subs, e.answers) {
      if l.queue[0].Publish? {
        PublishConserved(c, l, e.answers);
      } else if l.queue[0] == Stop {
        StopConserved(c, l, e.answers);
      } else {
        OtherConserved(c, l, e.answers);
      }
    }
  }

  // ----- order -----------------------------------------------------------------

  ghost function Line(l: Local): seq<nat> {
    l.slot.log.published + l.slot.pendingPublishes + QueuedPublishes(l.queue)
  }

  /** Published, deque and loop queue, read in that order, are the accepted calls
      in call order with the dropped ones left out. */
  ghost predicate InOrder(l: Local) {
    Line(l) == Without(l.slot.log.accepted, l.slot.log.dropped)
  }

  ghost predicate Increasing(s: seq<nat>) {
    forall i, j :: 0 <= i < j < |s| ==> s[i] < s[j]
  }

  /** Calls are numbered as they are made, so a slot accepts rising numbers. */
  ghost predicate Fresh(l: Local, e: LocalEvent) {
    e.LPost? ==> forall x :: x in l.slot.log.accepted ==> x < e.call
  }

  /** A publish task takes the direct path past publishes left in the deque. */
  predicate Overtakes(l: Local, e: LocalEvent) {
    && e.LRun? && l.queue != [] && l.queue[0].Publish?
    && l.slot.ready && l.slot.publisherChannels != [] && l.slot.pendingPublishes != []
  }

  lemma IncreasingOnce(s: seq<nat>, x: nat)
    requires Increasing(s)
    ensures multiset(s)[x] <= 1
    decreases |s|
  {
    if s != [] {
      var k := |s| - 1;
      assert s == s[..k] + [s[k]];
      IncreasingOnce(s[..k], x);
      assert s[k] !in s[..k];
    }
  }

  /** Each accepted call is in one place only. */
  lemma PlacesDisjoint(l: Local, x: nat)
    requires Conserved(l) && Increasing(l.slot.log.accepted)
    ensures multiset(l.slot.log.published)[x] + multiset(l.slot.pendingPublishes)[x]
          + multiset(QueuedPublishes(l.queue))[x] + multiset(l.slot.log.dropped)[x]
         == (if x in l.slot.log.accepted then 1 else 0)
  {
    IncreasingOnce(l.slot.log.accepted, x);
    assert Places(l)[x] == multiset(l.slot.log.accepted)[x];
  }

  /** The stop task takes the deque out of the line and leaves the rest alone. */
  lemma CutBlock(front: seq<nat>, block: seq<nat>, back: seq<nat>, all: seq<nat>)
    requires all == (front + block) + back
    requires forall x :: x in block ==> x !in front && x !in back
    ensures Without(all, block) == front + back
  {
    hide Without;
    var head := front + block;
    assert Without(all, block) == Without(head, block) + Without(back, block) by {
      WithoutAppend(head, back, block);
    }
    assert Without(head, block) == Without(front, block) + Without(block, block) by {
      WithoutAppend(front, block, block);
    }
    assert Without(front, block) == front by { WithoutNothing(front, block); }
    assert Without(block, block) == [] by { WithoutAll(block, block); }
    assert Without(back, block) == back by { WithoutNothing(back, block); }
  }

  lemma DequeDisjoint(l: Local)
    requires Conserved(l) && Increasing(l.slot.log.accepted)
    ensures forall x :: x in l.slot.pendingPublishes ==>
              x !in l.slot.log.published && x !in QueuedPublishes(l.queue)
  {
    forall x | x in l.slot.pendingPublishes
      ensures x !in l.slot.log.published && x !in QueuedPublishes(l.queue)
    {
      PlacesDisjoint(l, x);
      assert multiset(l.slot.pendingPublishes)[x] > 0;
    }
  }

  lemma DroppingDeque(accepted: seq<nat>, dropped: seq<nat>, published: seq<nat>, deque: seq<nat>, queued: seq<nat>)
    requires published + deque + queued == Without(accepted, dropped)
    requires forall x :: x in deque ==> x !in published && x !in queued
    ensures published + queued == Without(accepted, dropped + deque)
  {
    CutBlock(published, deque, queued, Without(accepted, dropped));
    WithoutTwice(accepted, dropped, deque);
  }

  lemma StopKeepsOrder(c: Config, l: Local, answers: seq<bool>)
    requires l.queue != [] && l.queue[0] == Stop
    requires Conserved(l) && Increasing(l.slot.log.accepted) && InOrder(l)
    ensures InOrder(LocalStep(c, l, LRun(answers)))
  {
    hide Without, Conserved, Places, Increasing, ReadyTask, FailureTask;
    var s, t, rest := l.slot, StopTask(l.slot), l.queue[1..];
    var queued := QueuedPublishes(l.queue);
    DequeDisjoint(l);
    DroppingDeque(s.log.accepted, s.log.dropped, s.log.published, s.pendingPublishes, queued);
    var m := l.(slot := t, queue := rest);
    assert LocalStep(c, l, LRun(answers)) == m;
    assert QueuedPublishes(rest) == queued;
    assert Line(m) == s.log.published + queued;
  }

  lemma PublishKeepsOrderExactly(c: Config, l: Local, answers: seq<bool>)
    requires l.queue != [] && l.queue[0].Publish?
    requires Conserved(l) && Increasing(l.slot.log.accepted) && InOrder(l)
    ensures InOrder(LocalStep(c, l, LRun(answers))) <==> !Overtakes(l, LRun(answers))
  {
    var s, call, rest := l.slot, l.queue[0].call, l.queue[1..];
    var m := LocalStep(c, l, LRun(answers));
    var queued := QueuedPublishes(rest);
    assert QueuedPublishes(l.queue) == [call] + queued;
    assert m.slot.log.accepted == s.log.accepted && m.slot.log.dropped == s.log.dropped;
    if Overtakes(l, LRun(answers)) {
      DequeDisjoint(l);
      var first := s.pendingPublishes[0];
      assert call == QueuedPublishes(l.queue)[0] && first in s.pendingPublishes;
      assert Line(l)[|s.log.published|] == first;
      assert Line(m)[|s.log.published|] == call by {
        var ok := answers != [] && answers[0];
        assert m.slot.log.published == s.log.published + (if ok then [call] else []);
        assert !ok ==> m.slot.pendingPublishes == [call] + s.pendingPublishes;
      }
    } else {
      PublishInLine(c, l, answers);
    }
  }

  /** Without a deque to overtake, a publish task leaves the line as it is. */
  lemma PublishInLine(c: Config, l: Local, answers: seq<bool>)
    requires l.queue != [] && l.queue[0].Publish? && !Overtakes(l, LRun(answers))
    ensures Line(LocalStep(c, l, LRun(answers))) == Line(l)
  {
    hide ReadyTask;
    var s, call, queued := l.slot, l.queue[0].call, QueuedPublishes(l.queue[1..]);
    var m := LocalStep(c, l, LRun(answers));
    assert QueuedPublishes(l.queue) == [call] + queued;
    assert m.slot.log.published + m.slot.pendingPublishes
        == s.log.published + s.pendingPublishes + [call];
    ConcatAssociates(s.log.published + s.pendingPublishes, [call], QueuedPublishes(l.queue[1..]));
  }

  lemma QuietKeepsOrder(c: Config, l: Local, e: LocalEvent)
    requires !e.LRun?
    requires Conserved(l) && Increasing(l.slot.log.accepted) && InOrder(l) && Fresh(l, e)
    ensures InOrder(LocalStep(c, l, e))
  {
    hide LocalStep, Without, QueuedPublishes;
    QuietStep(c, l, e);
    var s, m, added := l.slot, LocalStep(c, l, e), Added(l, e);
    WithoutAppend(s.log.accepted, added, s.log.dropped);
    forall x | x in added
      ensures x !in s.log.dropped
    {
      PlacesDisjoint(l, x);
      assert x in s.log.dropped ==> multiset(s.log.dropped)[x] > 0;
    }
    WithoutNothing(added, s.log.dropped);
    assert Line(m) == Line(l) + added;
  }

  /** Call order survives a step exactly when the step does not overtake. */
  lemma OrderExactly(c: Config, l: Local, e: LocalEvent)
    requires Conserved(l) && Increasing(l.slot.log.accepted) && InOrder(l) && Fresh(l, e)
    ensures InOrder(LocalStep(c, l, e)) <==> !Overtakes(l, e)
  {
    if !e.LRun? {
      QuietKeepsOrder(c, l, e);
    } else if l.queue != [] && Returns(c, l.slot, l.queue[0], l.subs, e.answers) {
      if l.queue[0].Publish? {
        PublishKeepsOrderExactly(c, l, e.answers);
      } else if l.queue[0] == Stop {
        StopKeepsOrder(c, l, e.answers);
      } else {
        LineOfOtherTasks(c, l, e.answers);
      }
    }
  }
}
