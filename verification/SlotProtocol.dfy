/** The life of one broker slot: what each posted task does to the slot's
    fields (src/messaging/rabbitmq_broker.cc:44-72 and 195-488), and the slot
    seen together with the tasks waiting for it. */
module SlotProtocol {
  import opened Basics

  type Topic = string

  /** The part of the broker configuration the protocol reads.  `hash` stands
      for the standard library's string hash, `loopRuns` for whether the
      framework has an event loop of that index. */
  datatype Config = Config(
    connectionPoolSize: nat,
    channelsPerConnection: nat,
    publisherPoolSize: nat,
    ioThreads: nat,
    loopRuns: nat -> bool,
    hash: Topic -> nat)

  function SlotCount(c: Config): nat { Max(1, c.connectionPoolSize) }

  function LoopCount(c: Config): nat { Max(1, c.ioThreads) }

  function LoopOf(c: Config, slot: nat): Option<nat> {
    var loop := slot % LoopCount(c);
    if c.loopRuns(loop) then Some(loop) else None
  }

  function SlotOf(c: Config, topic: Topic): nat { c.hash(topic) % SlotCount(c) }

  function ChannelCount(c: Config): nat {
    Max(1, Min(c.channelsPerConnection, c.publisherPoolSize))
  }

  /** A registered subscription: its topic and the number of the call. */
  datatype Subscription = Subscription(topic: Topic, number: nat)

  /** Tasks posted to an event loop on behalf of a slot.  A publish is named by
      the ordinal of its call; the request and its callback travel with it. */
  datatype Task =
    | Connect(fromTimer: bool)
    | Ready
    | Failure
    | Stop
    | Publish(call: nat)
    | StartConsumer(subscription: Subscription)

  /** A channel is known by the connection it was opened on; a consumer's also by
      the subscription whose handler it calls. */
  datatype Channel = Channel(connection: Option<nat>)

  datatype Consumer = Consumer(connection: Option<nat>, subscription: nat)

  /** What has happened to a slot so far, and what the outside holds for it. */
  datatype History = History(
    timers: nat,               // reconnect timers armed and not yet fired
    armed: nat,                // reconnect timers ever armed
    connections: nat,          // connection objects created
    awaitingOutcome: bool,     // newest connection: ready or failure not yet processed
    attempts: seq<nat>,        // channel index of every publish attempt
    waits: seq<nat>,           // reconnect delays chosen since the last ready task
    accepted: seq<nat>,        // publish calls posted to this slot
    published: seq<nat>,       // publish calls a channel took
    dropped: seq<nat>)         // publish calls a stop task discarded

  /** The fields of a slot, plus its history. */
  datatype SlotState = SlotState(
    ready: bool,
    reconnectScheduled: bool,
    reconnectDelay: nat,
    connection: Option<nat>,
    publisherChannels: seq<Channel>,
    nextPublisherChannel: nat,
    consumerChannels: map<Topic, Consumer>,
    pendingPublishes: seq<nat>,
    log: History)

  const NEW_SLOT: SlotState :=
    SlotState(false, false, 1, None, [], 0, map[], [], History(0, 0, 0, false, [], [], [], [], []))

  // ----- what each task does ------------------------------------------------

  function ConnectTask(s: SlotState): SlotState {
    s.(ready := false, publisherChannels := [], consumerChannels := map[],
       reconnectScheduled := false,
       connection := Some(s.log.connections),
       log := s.log.(connections := s.log.connections + 1, awaitingOutcome := true))
  }

  function ConsumerTask(s: SlotState, sub: Subscription): SlotState {
    if !s.ready || s.connection.None? then s
    else s.(consumerChannels := s.consumerChannels[sub.topic := Consumer(s.connection, sub.number)])
  }

  function ConsumerTasks(s: SlotState, subs: seq<Subscription>): SlotState
    decreases |subs|
  {
    if subs == [] then s
    else ConsumerTask(ConsumerTasks(s, subs[..|subs| - 1]), subs[|subs| - 1])
  }

  function WithPublishers(c: Config, s: SlotState): SlotState {
    s.(publisherChannels := seq(ChannelCount(c), _ => Channel(s.connection)),
       consumerChannels := map[])
  }

  function RebuildChannels(c: Config, s: SlotState, subs: seq<Subscription>): SlotState {
    ConsumerTasks(WithPublishers(c, s), subs)
  }

  /** One publish attempt; `ok` is what the channel answers when it is asked. */
  function PublishOnLoop(s: SlotState, call: nat, ok: bool): SlotState {
    if !s.ready || s.publisherChannels == [] then
      s.(pendingPublishes := s.pendingPublishes + [call])
    else
      var n := |s.publisherChannels|;
      var asked := s.(nextPublisherChannel := (s.nextPublisherChannel + 1) % n,
                      log := s.log.(attempts := s.log.attempts + [s.nextPublisherChannel % n]));
      if ok then asked.(log := asked.log.(published := asked.log.published + [call]))
      else asked.(pendingPublishes := [call] + asked.pendingPublishes)
  }

  predicate FlushDone(s: SlotState) {
    !s.ready || s.publisherChannels == [] || s.pendingPublishes == []
  }

  /** The flush loop for as many attempts as there are answers, or until it ends. */
  function Flush(s: SlotState, answers: seq<bool>): SlotState
    decreases |answers|
  {
    if FlushDone(s) || answers == [] then s
    else Flush(PublishOnLoop(s.(pendingPublishes := s.pendingPublishes[1..]),
                             s.pendingPublishes[0], answers[0]),
               answers[1..])
  }

  function BroughtUp(s: SlotState): SlotState {
    s.(ready := true, reconnectDelay := 1,
       log := s.log.(waits := [], awaitingOutcome := false))
  }

  function ReadyTask(c: Config, s: SlotState, subs: seq<Subscription>, answers: seq<bool>): SlotState {
    Flush(RebuildChannels(c, BroughtUp(s), subs), answers)
  }

  function ScheduleReconnect(s: SlotState, started: bool): SlotState {
    if !started || s.reconnectScheduled then s
    else s.(reconnectScheduled := true,
            reconnectDelay := Min(30, s.reconnectDelay * 2),
            log := s.log.(timers := s.log.timers + 1, armed := s.log.armed + 1,
                          waits := s.log.waits + [s.reconnectDelay]))
  }

  function FailureTask(s: SlotState, started: bool): SlotState {
    ScheduleReconnect(
      s.(ready := false, publisherChannels := [], consumerChannels := map[],
         log := s.log.(awaitingOutcome := false)),
      started)
  }

  function StopTask(s: SlotState): SlotState {
    s.(ready := false, reconnectScheduled := false,
       publisherChannels := [], consumerChannels := map[],
       pendingPublishes := [], connection := None,
       log := s.log.(dropped := s.log.dropped + s.pendingPublishes, awaitingOutcome := false))
  }

  /** The slot after a task has run to its end.  `subs` are the registered
      subscriptions of this slot, in order. */
  function RunTask(c: Config, s: SlotState, task: Task, started: bool, subs: seq<Subscription>,
                   answers: seq<bool>): SlotState {
    match task
    case Connect(_) => ConnectTask(s)
    case Ready => ReadyTask(c, s, subs, answers)
    case Failure => FailureTask(s, started)
    case Stop => StopTask(s)
    case Publish(call) => PublishOnLoop(s, call, answers != [] && answers[0])
    case StartConsumer(sub) => ConsumerTask(s, sub)
  }

  /** Whether the task returns on these answers: only the flush loop of a ready
      task can ask for more. */
  predicate Returns(c: Config, s: SlotState, task: Task, subs: seq<Subscription>, answers: seq<bool>) {
    task.Ready? ==> FlushDone(ReadyTask(c, s, subs, answers))
  }

  // ----- a slot with the tasks that wait for it -----------------------------

  datatype Local = Local(
    slot: SlotState,
    queue: seq<Task>,        // this slot's tasks on its loop, oldest first
    started: bool,
    hasLoop: bool,
    subs: seq<Subscription>)      // registered subscriptions that hash to this slot

  /** What one step of the broker is for one slot. */
  datatype LocalEvent =
    | LStart
    | LStop
    | LSubscribe(sub: Subscription)
    | LPost(call: nat)
    | LRun(answers: seq<bool>)
    | LTimer
    | LReady
    | LFail
    | LNothing

  function NewLocal(hasLoop: bool, subs: seq<Subscription>): Local {
    Local(NEW_SLOT, [], false, hasLoop, subs)
  }

  function Posted(l: Local, task: Task): Local {
    if l.hasLoop then l.(queue := l.queue + [task]) else l
  }

  function LocalStep(c: Config, l: Local, e: LocalEvent): Local {
    match e
    case LStart => if l.started then l else Posted(l.(started := true), Connect(false))
    case LStop => if !l.started then l else Posted(l.(started := false), Stop)
    case LSubscribe(sub) =>
      var m := l.(subs := l.subs + [sub]);
      if l.started then Posted(m, StartConsumer(sub)) else m
    case LPost(call) =>
      if !l.hasLoop then l
      else Posted(l.(slot := l.slot.(log := l.slot.log.(accepted := l.slot.log.accepted + [call]))),
                  Publish(call))
    case LRun(answers) =>
      if l.queue == [] || !Returns(c, l.slot, l.queue[0], l.subs, answers) then l
      else l.(slot := RunTask(c, l.slot, l.queue[0], l.started, l.subs, answers),
              queue := l.queue[1..])
    case LTimer =>
      if l.slot.log.timers == 0 then l
      else
        var m := l.(slot := l.slot.(log := l.slot.log.(timers := l.slot.log.timers - 1)));
        if l.started then Posted(m, Connect(true)) else m
    case LReady => if l.slot.log.connections == 0 then l else Posted(l, Ready)
    case LFail => if l.slot.log.connections == 0 then l else Posted(l, Failure)
    case LNothing => l
  }
}
