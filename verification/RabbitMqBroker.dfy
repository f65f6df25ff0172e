/** The broker as the program has it: slots and event loops are objects whose
    fields the API calls and the posted tasks update in place
    (src/messaging/rabbitmq_broker.cc, include/messaging/rabbitmq_broker.h).
    Every method is proved to do what the step of BrokerModel says. */
module RabbitMq {
  import opened Basics
  import P = SlotProtocol
  import M = BrokerModel
  import FlushLaws

  class EventLoop {
    var tasks: seq<M.Posting>

    constructor ()
      ensures tasks == []
    {
      tasks := [];
    }

    method QueueInLoop(posting: M.Posting)
      modifies this
      ensures tasks == old(tasks) + [posting]
    {
      tasks := tasks + [posting];
    }
  }

  class Slot {
    const index: nat
    const loop: EventLoop?
    var ready: bool
    var reconnectScheduled: bool
    var reconnectDelaySeconds: nat
    var connectionsMade: nat          // names the connection objects
    var connection: Option<nat>
    var publisherChannels: seq<P.Channel>
    var nextPublisherChannel: nat
    var consumerChannels: map<P.Topic, P.Consumer>
    var pendingPublishes: seq<nat>
    ghost var log: P.History

    ghost predicate Valid()
      reads this
    {
      log.connections == connectionsMade
    }

    ghost function State(): P.SlotState
      reads this
    {
      P.SlotState(ready, reconnectScheduled, reconnectDelaySeconds, connection,
                  publisherChannels, nextPublisherChannel, consumerChannels, pendingPublishes, log)
    }

    constructor (index: nat, loop: EventLoop?)
      ensures this.index == index && this.loop == loop
      ensures Valid() && State() == P.NEW_SLOT
    {
      this.index, this.loop := index, loop;
      ready, reconnectScheduled, reconnectDelaySeconds := false, false, 1;
      connectionsMade, connection := 0, None;
      publisherChannels, nextPublisherChannel, consumerChannels := [], 0, map[];
      pendingPublishes := [];
      log := P.NEW_SLOT.log;
    }
  }

  /** What the broker counts and completes as its slots publish. */
  datatype Tally = Tally(published: int, queued: int, completions: seq<M.Completion>)

  /** The counters and the completions moved as the slot did from `s` to `t`. */
  ghost predicate Accounted(s: P.SlotState, t: P.SlotState, before: Tally, after: Tally) {
    && s.log.published + M.NewlyPublished(s, t) == t.log.published
    && after.published == before.published + |t.log.published| - |s.log.published|
    && after.queued == before.queued + |t.pendingPublishes| - |s.pendingPublishes|
    && after.completions == before.completions + M.Succeeded(M.NewlyPublished(s, t))
  }

  /** A change of the slot to `t`, then one publish taken from the deque and tried. */
  lemma AccountedTwice(s: P.SlotState, t: P.SlotState, u: P.SlotState, x: Tally, y: Tally, z: Tally)
    requires Accounted(s, t, x, y) && t.pendingPublishes != []
    requires Accounted(t.(pendingPublishes := t.pendingPublishes[1..]), u, y.(queued := y.queued - 1), z)
    ensures Accounted(s, u, x, z)
  {
    var taken := t.(pendingPublishes := t.pendingPublishes[1..]);
    assert M.NewlyPublished(s, u) == M.NewlyPublished(s, t) + M.NewlyPublished(taken, u);
  }

  class RabbitMqBroker {
    const config: P.Config
    const loops: seq<EventLoop>
    var started: bool
    var slots: seq<Slot>
    var subscriptions: seq<P.Topic>
    var publishCursor: nat
    var publishRequests: nat
    var publishedMessages: int
    var queuedPublishes: int
    var calls: nat                    // names the publish calls
    ghost var completions: seq<M.Completion>
    ghost var model: M.Broker

    /** The objects hold what the model says. */
    ghost predicate Valid()
      reads this, slots, loops
    {
      && Shape()
      && M.WellFormed(config, model)
      && started == model.started && subscriptions == model.subscriptions
      && publishCursor == model.publishCursor && publishRequests == model.publishRequests
      && publishedMessages == model.publishedMessages && queuedPublishes == model.queuedPublishes
      && completions == model.completions && calls == |model.returned|
      && |slots| == |model.slots| && SlotsHold(model.slots)
      && LoopTasks() == model.loops
    }

    ghost predicate SlotsHold(states: seq<P.SlotState>)
      reads this`slots, slots
    {
      && |slots| == |states|
      && forall i :: 0 <= i < |slots| ==> slots[i].Valid() && slots[i].State() == states[i]
    }

    /** Slots and loops are distinct objects, wired as at initialisation. */
    ghost predicate Shape()
      reads this`slots
    {
      && |loops| == P.LoopCount(config)
      && (forall k, l :: 0 <= k < l < |loops| ==> loops[k] != loops[l])
      && (forall i, j :: 0 <= i < j < |slots| ==> slots[i] != slots[j])
      && (forall i :: 0 <= i < |slots| ==> slots[i].index == i && slots[i].loop == LoopFor(i))
    }

    /** The queue of every loop. */
    ghost function LoopTasks(): (r: seq<seq<M.Posting>>)
      reads loops
      ensures |r| == |loops|
    {
      seq(|loops|, l requires 0 <= l < |loops| reads loops => loops[l].tasks)
    }

    function LoopFor(slot: nat): EventLoop?
      requires |loops| == P.LoopCount(config)
    {
      match P.LoopOf(config, slot)
      case None => null
      case Some(l) => loops[l]
    }

    constructor (config: P.Config, loops: seq<EventLoop>)
      requires |loops| == P.LoopCount(config)
      requires forall k, l :: 0 <= k < l < |loops| ==> loops[k] != loops[l]
      requires forall l :: 0 <= l < |loops| ==> loops[l].tasks == []
      ensures Valid() && model == M.NewBroker(config) && this.config == config
    {
      this.config, this.loops := config, loops;
      started, slots, subscriptions := false, [], [];
      publishCursor, publishRequests, publishedMessages, queuedPublishes := 0, 0, 0, 0;
      calls, completions := 0, [];
      model := M.NewBroker(config);
    }

    // ----- API calls ---------------------------------------------------------

    method InitializeSlots()
      requires Shape() && SlotsHold(model.slots)
      modifies this`slots
      ensures Shape()
      ensures if old(slots) == [] then fresh(slots) else slots == old(slots)
      ensures |slots| == if old(slots) == [] then Max(1, config.connectionPoolSize) else |old(slots)|
      ensures forall i :: 0 <= i < |slots| ==>
                slots[i].loop == if config.loopRuns(i % |loops|) then loops[i % |loops|] else null
      ensures SlotsHold(if old(slots) == [] then M.NewSlots(config) else model.slots)
    {
      if slots != [] {
        return;
      }
      var index := 0;
      while index < P.SlotCount(config)
        invariant 0 <= index == |slots| <= P.SlotCount(config)
        invariant Shape() && fresh(slots)
        invariant forall i :: 0 <= i < |slots| ==> slots[i].Valid() && slots[i].State() == P.NEW_SLOT
      {
        var slot := new Slot(index, LoopFor(index));
        slots := slots + [slot];
        index := index + 1;
      }
    }

    /** Posts a task on the slot's loop, if it has one. */
    method PostTo(slot: Slot, task: P.Task)
      requires Shape() && slot in slots
      modifies loops
      ensures slot.loop != null ==> slot.loop.tasks == old(slot.loop.tasks) + [M.Posting(slot.index, task)]
      ensures forall loop :: loop in loops && loop != slot.loop ==> loop.tasks == old(loop.tasks)
      ensures LoopTasks() == M.Post(config, old(LoopTasks()), slot.index, task)
    {
      if slot.loop != null {
        slot.loop.QueueInLoop(M.Posting(slot.index, task));
      }
      assert LoopTasks() == M.Post(config, old(LoopTasks()), slot.index, task);
    }

    method PostToAll(task: P.Task)
      requires Shape()
      modifies loops
      ensures LoopTasks() == M.PostAll(config, old(LoopTasks()), |slots|, task)
    {
      var i := 0;
      while i < |slots|
        invariant 0 <= i <= |slots|
        invariant LoopTasks() == M.PostAll(config, old(LoopTasks()), i, task)
      {
        PostTo(slots[i], task);
        i := i + 1;
      }
    }

    /** The broker once it has been started. */
    lemma Starting() returns (after: M.Broker)
      requires Valid() && !started
      ensures Shape() && SlotsHold(model.slots)
      ensures after == M.Step(config, model, M.StartCall) && M.WellFormed(config, after)
      ensures |after.slots| == P.SlotCount(config)
      ensures after == model.(
        started := true, slots := if slots == [] then M.NewSlots(config) else model.slots,
        loops := M.PostAll(config, model.loops, |after.slots|, P.Connect(false)))
    {
      after := M.Step(config, model, M.StartCall);
      M.StepWellFormed(config, model, M.StartCall);
      hide M.WellFormed, M.PostAll;
    }

    method Start()
      requires Valid()
      modifies this, loops
      ensures Valid() && model == M.Step(config, old(model), M.StartCall)
      ensures started
      ensures old(started) ==> model == old(model)
    {
      hide M.WellFormed, M.PostAll, M.NewSlots, SlotsHold, Shape, LoopTasks;
      if started {
        return;
      }
      hide M.Step;
      ghost var after := Starting();
      started := true;
      InitializeSlots();
      PostToAll(P.Connect(false));
      model := after;
    }

    method Stop()
      requires Valid()
      modifies this, loops
      ensures Valid() && model == M.Step(config, old(model), M.StopCall)
      ensures !started && slots == old(slots)
      ensures !old(started) ==> model == old(model)
    {
      hide M.WellFormed, M.PostAll, SlotsHold;
      if !started {
        return;
      }
      started := false;
      PostToAll(P.Stop);
      M.StepWellFormed(config, model, M.StopCall);
      model := M.Step(config, model, M.StopCall);
    }

    method Subscribe(topic: P.Topic)
      requires Valid()
      modifies this, loops
      ensures Valid() && model == M.Step(config, old(model), M.SubscribeCall(topic))
      ensures subscriptions == old(subscriptions) + [topic]
      ensures !old(started) ==> LoopTasks() == old(LoopTasks())
    {
      hide M.WellFormed, M.Post, SlotsHold;
      var slotIndex := P.SlotOf(config, topic);
      subscriptions := subscriptions + [topic];
      if started && slotIndex < |slots| {
        PostTo(slots[slotIndex], P.StartConsumer(P.Subscription(topic, |subscriptions| - 1)));
      }
      M.StepWellFormed(config, model, M.SubscribeCall(topic));
      model := M.Step(config, model, M.SubscribeCall(topic));
    }

    /** A publish call that is turned down completes at once with false. */
    method Refuse(ghost after: M.Broker)
      requires Valid() && M.WellFormed(config, after)
      requires after == model.(returned := model.returned + [false],
                               turnedAway := after.turnedAway, rejected := after.rejected,
                               completions := model.completions + [M.Completion(calls, false)])
      modifies this`calls, this`completions, this`model
      ensures Valid() && model == after
    {
      completions := completions + [M.Completion(calls, false)];
      calls := calls + 1;
      model := after;
    }

    /** Gives one slot a new log. */
    ghost method Note(slot: Slot, log: P.History)
      requires Shape() && slot in slots && SlotsHold(model.slots)
      requires log.connections == slot.log.connections
      modifies slot`log
      ensures Shape() && SlotsHold(model.slots[slot.index := old(slot.State()).(log := log)])
    {
      slot.log := log;
    }

    /** The broker once the slot has accepted the next call. */
    lemma Accepted(slot: Slot) returns (after: M.Broker)
      requires Valid() && slot in slots
      ensures Shape() && SlotsHold(model.slots) && slot.index < |model.slots|
      ensures after == M.AfterAccept(config, model, slot.index) && M.WellFormed(config, after)
      ensures after == model.(
        returned := model.returned + [true],
        slots := model.slots[slot.index := slot.State().(log := slot.log.(accepted := slot.log.accepted + [calls]))],
        loops := M.Post(config, model.loops, slot.index, P.Publish(calls)))
    {
      after := M.AfterAccept(config, model, slot.index);
      M.AcceptWellFormed(config, model, slot.index);
      hide M.WellFormed, M.Post;
    }

    /** A publish call whose slot has a loop is posted there. */
    method Accept(slot: Slot)
      requires Valid() && slot in slots && slot.loop != null
      modifies this`calls, this`model, slot`log, loops
      ensures Valid() && model == M.AfterAccept(config, old(model), slot.index)
    {
      hide M.WellFormed, M.Post, M.AfterAccept, SlotsHold, Shape;
      ghost var after := Accepted(slot);
      Note(slot, slot.log.(accepted := slot.log.accepted + [calls]));
      PostTo(slot, P.Publish(calls));
      model := after;
      calls := calls + 1;
    }

    /** Returns whether the publish was posted; the call is number |model.returned|. */
    method Publish() returns (posted: bool)
      requires Valid()
      modifies this, slots, loops
      ensures Valid() && model == M.Step(config, old(model), M.PublishCall(old(started)))
      ensures model.returned == old(model.returned) + [posted]
    {
      ghost var after := M.Step(config, model, M.PublishCall(started));
      M.StepWellFormed(config, model, M.PublishCall(started));
      hide M.WellFormed, SlotsHold, M.AfterPublish;
      if !started || |slots| == 0 {
        Refuse(after);
        return false;
      }
      posted := PublishToNext();
    }

    /** The broker once the next call has been counted, and then dealt with. */
    lemma Counted(slot: Slot) returns (counted: M.Broker, after: M.Broker)
      requires Valid() && slots != [] && slot == slots[publishCursor % |slots|]
      ensures Shape() && |slots| == |model.slots|
      ensures counted == model.(publishRequests := publishRequests + 1, publishCursor := publishCursor + 1)
      ensures M.WellFormed(config, counted)
      ensures after == M.AfterPublish(config, model) && M.WellFormed(config, after)
      ensures slot.index < |slots| && after.returned == model.returned + [slot.loop != null]
      ensures slot.loop != null ==> after == M.AfterAccept(config, counted, slot.index)
      ensures slot.loop == null ==>
                after == counted.(returned := counted.returned + [false],
                                  rejected := after.rejected,
                                  completions := counted.completions + [M.Completion(calls, false)])
    {
      counted := model.(publishRequests := publishRequests + 1, publishCursor := publishCursor + 1);
      after := M.AfterPublish(config, model);
      M.StepWellFormed(config, model, M.PublishCall(true));
      hide SlotsHold;
    }

    /** The rest of publish, once the broker was seen running. */
    method PublishToNext() returns (posted: bool)
      requires Valid() && slots != []
      modifies this, slots, loops
      ensures Valid() && model == M.AfterPublish(config, old(model))
      ensures model.returned == old(model.returned) + [posted]
    {
      hide M.WellFormed, M.AfterPublish, M.AfterAccept, SlotsHold, Shape;
      ghost var counted, after := Counted(slots[publishCursor % |slots|]);
      publishRequests := publishRequests + 1;
      var slotIndex := publishCursor % |slots|;
      publishCursor := publishCursor + 1;
      model := counted;
      var slot := slots[slotIndex];
      if slot.loop == null {
        Refuse(after);
        return false;
      }
      Accept(slot);
      return true;
    }

    // ----- posted tasks, one slot at a time ----------------------------------

    method ConnectSlot(slot: Slot)
      requires slot.Valid()
      modifies slot
      ensures slot.Valid() && slot.State() == P.ConnectTask(old(slot.State()))
      ensures !slot.ready && !slot.reconnectScheduled
      ensures slot.publisherChannels == [] && slot.consumerChannels == map[]
      ensures slot.connection == Some(old(slot.connectionsMade)) && slot.connectionsMade == old(slot.connectionsMade) + 1
      ensures slot.pendingPublishes == old(slot.pendingPublishes)
      ensures slot.reconnectDelaySeconds == old(slot.reconnectDelaySeconds)
    {
      slot.ready := false;
      slot.publisherChannels := [];
      slot.consumerChannels := map[];
      slot.reconnectScheduled := false;
      slot.connection := Some(slot.connectionsMade);
      slot.connectionsMade := slot.connectionsMade + 1;
      slot.log := slot.log.(connections := slot.connectionsMade, awaitingOutcome := true);
    }

    method StartConsumer(slot: Slot, sub: P.Subscription)
      requires slot.Valid()
      modifies slot`consumerChannels
      ensures slot.Valid() && slot.State() == P.ConsumerTask(old(slot.State()), sub)
      ensures slot.ready && slot.connection.Some? ==>
                sub.topic in slot.consumerChannels
                && slot.consumerChannels[sub.topic] == P.Consumer(slot.connection, sub.number)
                && slot.consumerChannels - {sub.topic} == old(slot.consumerChannels) - {sub.topic}
      ensures !(slot.ready && slot.connection.Some?) ==> slot.consumerChannels == old(slot.consumerChannels)
    {
      if !slot.ready || slot.connection.None? {
        return;
      }
      slot.consumerChannels := slot.consumerChannels[sub.topic := P.Consumer(slot.connection, sub.number)];
    }

    method RebuildChannels(slot: Slot)
      requires slot.Valid()
      modifies slot`publisherChannels, slot`consumerChannels
      ensures slot.Valid()
      ensures slot.State() == P.RebuildChannels(config, old(slot.State()),
                                                M.SubscriptionsOf(config, subscriptions, slot.index))
      ensures |slot.publisherChannels| == Max(1, Min(config.channelsPerConnection, config.publisherPoolSize))
      ensures forall channel :: channel in slot.publisherChannels ==> channel.connection == slot.connection
    {
      slot.publisherChannels := [];
      slot.consumerChannels := map[];
      var publisherChannelCount := Min(config.channelsPerConnection, config.publisherPoolSize);
      var channel := P.Channel(slot.connection);
      var i := 0;
      while i < Max(1, publisherChannelCount)
        invariant 0 <= i == |slot.publisherChannels| <= Max(1, publisherChannelCount)
        invariant forall k :: 0 <= k < i ==> slot.publisherChannels[k] == channel
        invariant slot.consumerChannels == map[]
      {
        slot.publisherChannels := slot.publisherChannels + [channel];
        i := i + 1;
      }
      ghost var base := P.WithPublishers(config, old(slot.State()));
      assert slot.publisherChannels == base.publisherChannels;
      assert slot.State() == base;
      assert subscriptions[..0] == [];
      var k := 0;
      while k < |subscriptions|
        invariant 0 <= k <= |subscriptions|
        invariant slot.Valid() && slot.publisherChannels == base.publisherChannels
        invariant slot.State() == P.ConsumerTasks(base, M.SubscriptionsOf(config, subscriptions[..k], slot.index))
      {
        assert subscriptions[..k + 1][..k] == subscriptions[..k];
        ghost var subs := M.SubscriptionsOf(config, subscriptions[..k], slot.index);
        var sub := P.Subscription(subscriptions[k], k);
        assert (subs + [sub])[..|subs|] == subs;
        assert subs + [] == subs;
        if P.SlotOf(config, sub.topic) == slot.index {
          StartConsumer(slot, sub);
        }
        k := k + 1;
      }
      assert subscriptions[..k] == subscriptions;
    }

    /** One publish; `ok` is the channel's answer if it is asked. */
    method PublishOnLoop(slot: Slot, call: nat, ok: bool)
      requires slot.Valid()
      modifies this`publishedMessages, this`queuedPublishes, this`completions, slot
      ensures slot.Valid() && slot.State() == P.PublishOnLoop(old(slot.State()), call, ok)
      ensures !(old(slot.ready) && old(slot.publisherChannels) != []) ==>
                slot.pendingPublishes == old(slot.pendingPublishes) + [call]
                && slot.nextPublisherChannel == old(slot.nextPublisherChannel)
      ensures old(slot.ready) && old(slot.publisherChannels) != [] ==>
                slot.pendingPublishes == (if ok then [] else [call]) + old(slot.pendingPublishes)
                && slot.nextPublisherChannel == (old(slot.nextPublisherChannel) + 1) % |slot.publisherChannels|
      ensures completions == old(completions)
                + (if old(slot.ready) && old(slot.publisherChannels) != [] && ok then [M.Completion(call, true)] else [])
      ensures Accounted(old(slot.State()), slot.State(), old(Books()), Books())
    {
      if !slot.ready || slot.publisherChannels == [] {
        slot.pendingPublishes := slot.pendingPublishes + [call];
        queuedPublishes := queuedPublishes + 1;
        return;
      }
      var channel := slot.nextPublisherChannel % |slot.publisherChannels|;
      slot.nextPublisherChannel := (slot.nextPublisherChannel + 1) % |slot.publisherChannels|;
      slot.log := slot.log.(attempts := slot.log.attempts + [channel]);
      if ok {
        publishedMessages := publishedMessages + 1;
        slot.log := slot.log.(published := slot.log.published + [call]);
        completions := completions + [M.Completion(call, true)];
        return;
      }
      slot.pendingPublishes := [call] + slot.pendingPublishes;
      queuedPublishes := queuedPublishes + 1;
    }

    ghost function Books(): Tally
      reads this`publishedMessages, this`queuedPublishes, this`completions
    {
      Tally(publishedMessages, queuedPublishes, completions)
    }

    /** The flush loop, for as many attempts as there are answers or until it ends. */
    method FlushPendingPublishes(slot: Slot, answers: seq<bool>) returns (attempts: nat)
      requires slot.Valid()
      modifies this`publishedMessages, this`queuedPublishes, this`completions, slot
      ensures slot.Valid() && slot.State() == P.Flush(old(slot.State()), answers)
      ensures Accounted(old(slot.State()), slot.State(), old(Books()), Books())
      ensures attempts <= |answers| && (attempts < |answers| ==> P.FlushDone(slot.State()))
    {
      attempts := 0;
      while slot.ready && slot.publisherChannels != [] && slot.pendingPublishes != []
            && attempts < |answers|
        invariant slot.Valid() && attempts <= |answers|
        invariant P.Flush(slot.State(), answers[attempts..]) == P.Flush(old(slot.State()), answers)
        invariant Accounted(old(slot.State()), slot.State(), old(Books()), Books())
        decreases |answers| - attempts
      {
        hide P.PublishOnLoop, Accounted;
        ghost var before, books := slot.State(), Books();
        var call := slot.pendingPublishes[0];
        slot.pendingPublishes := slot.pendingPublishes[1..];
        queuedPublishes := queuedPublishes - 1;
        PublishOnLoop(slot, call, answers[attempts]);
        AccountedTwice(old(slot.State()), before, slot.State(), old(Books()), books, Books());
        assert answers[attempts..][1..] == answers[attempts + 1..];
        attempts := attempts + 1;
      }
    }

    method HandleReady(slot: Slot, answers: seq<bool>)
      requires slot.Valid()
      modifies this`publishedMessages, this`queuedPublishes, this`completions, slot
      ensures slot.Valid()
      ensures slot.ready && slot.reconnectDelaySeconds == 1 && slot.connection == old(slot.connection)
      ensures slot.reconnectScheduled == old(slot.reconnectScheduled)
      ensures |slot.publisherChannels| == Max(1, Min(config.channelsPerConnection, config.publisherPoolSize))
      ensures slot.State() == P.ReadyTask(config, old(slot.State()),
                                          M.SubscriptionsOf(config, subscriptions, slot.index), answers)
      ensures Accounted(old(slot.State()), slot.State(), old(Books()), Books())
    {
      slot.ready := true;
      slot.reconnectDelaySeconds := 1;
      slot.log := slot.log.(waits := [], awaitingOutcome := false);
      RebuildChannels(slot);
      ghost var rebuilt := slot.State();
      var _ := FlushPendingPublishes(slot, answers);
      FlushLaws.FlushMovesPrefix(rebuilt, answers);
    }

    method ScheduleReconnect(slot: Slot)
      requires slot.Valid()
      modifies slot
      ensures slot.Valid() && slot.State() == P.ScheduleReconnect(old(slot.State()), started)
      ensures slot.reconnectScheduled == (started || old(slot.reconnectScheduled))
      ensures slot.reconnectDelaySeconds == if started && !old(slot.reconnectScheduled)
                                            then Min(30, 2 * old(slot.reconnectDelaySeconds))
                                            else old(slot.reconnectDelaySeconds)
      ensures slot.log.timers == old(slot.log.timers) + (if started && !old(slot.reconnectScheduled) then 1 else 0)
    {
      if !started || slot.reconnectScheduled {
        return;
      }
      slot.reconnectScheduled := true;
      var reconnectDelay := slot.reconnectDelaySeconds;
      slot.reconnectDelaySeconds := Min(30, reconnectDelay * 2);
      slot.log := slot.log.(timers := slot.log.timers + 1, armed := slot.log.armed + 1,
                            waits := slot.log.waits + [reconnectDelay]);
    }

    method HandleFailure(slot: Slot)
      requires slot.Valid()
      modifies slot
      ensures slot.Valid() && slot.State() == P.FailureTask(old(slot.State()), started)
      ensures !slot.ready && slot.publisherChannels == [] && slot.consumerChannels == map[]
      ensures slot.connection == old(slot.connection) && slot.pendingPublishes == old(slot.pendingPublishes)
      ensures slot.reconnectScheduled == (started || old(slot.reconnectScheduled))
    {
      slot.ready := false;
      slot.publisherChannels := [];
      slot.consumerChannels := map[];
      slot.log := slot.log.(awaitingOutcome := false);
      ScheduleReconnect(slot);
    }

    method StopSlot(slot: Slot)
      requires slot.Valid()
      modifies this`queuedPublishes, slot
      ensures slot.Valid() && slot.State() == P.StopTask(old(slot.State()))
      ensures !slot.ready && !slot.reconnectScheduled && slot.connection == None
      ensures slot.publisherChannels == [] && slot.consumerChannels == map[] && slot.pendingPublishes == []
      ensures slot.reconnectDelaySeconds == old(slot.reconnectDelaySeconds)
      ensures queuedPublishes == old(queuedPublishes) - |old(slot.pendingPublishes)|
    {
      slot.ready := false;
      slot.reconnectScheduled := false;
      slot.publisherChannels := [];
      slot.consumerChannels := map[];
      queuedPublishes := queuedPublishes - |slot.pendingPublishes|;
      slot.log := slot.log.(dropped := slot.log.dropped + slot.pendingPublishes, awaitingOutcome := false);
      slot.pendingPublishes := [];
      slot.connection := None;
    }

    method RunTask(slot: Slot, task: P.Task, answers: seq<bool>)
      requires slot.Valid()
      modifies this`publishedMessages, this`queuedPublishes, this`completions, slot
      ensures slot.Valid()
      ensures slot.State() == P.RunTask(config, old(slot.State()), task, started,
                                        M.SubscriptionsOf(config, subscriptions, slot.index), answers)
      ensures Accounted(old(slot.State()), slot.State(), old(Books()), Books())
    {
      match task {
        case Connect(_) => ConnectSlot(slot);
        case Ready => HandleReady(slot, answers);
        case Failure => HandleFailure(slot);
        case Stop => StopSlot(slot);
        case Publish(call) => PublishOnLoop(slot, call, answers != [] && answers[0]);
        case StartConsumer(sub) => StartConsumer(slot, sub);
      }
    }

    /** The slot of that index runs a task. */
    method RunTaskOf(index: nat, task: P.Task, answers: seq<bool>)
      requires Shape() && SlotsHold(model.slots) && index < |slots|
      modifies this`publishedMessages, this`queuedPublishes, this`completions, slots[index]
      ensures
        var before := model.slots[index];
        var after := P.RunTask(config, before, task, started, M.SubscriptionsOf(config, subscriptions, index), answers);
        && SlotsHold(model.slots[index := after]) && slots[index].State() == after
        && Accounted(before, after, old(Books()), Books())
    {
      hide P.RunTask;
      RunTask(slots[index], task, answers);
    }

    method PopHead(loop: nat) returns (head: M.Posting)
      requires Shape() && loop < |loops| && loops[loop].tasks != []
      modifies loops[loop]
      ensures head == old(loops[loop].tasks[0])
      ensures LoopTasks() == old(LoopTasks())[loop := old(LoopTasks()[loop])[1..]]
    {
      head := loops[loop].tasks[0];
      loops[loop].tasks := loops[loop].tasks[1..];
    }

    /** The slot of the head task of a loop, once the channels have given these answers. */
    ghost function HeadSlot(b: M.Broker, loop: nat, answers: seq<bool>): P.SlotState
      requires loop < |b.loops| && b.loops[loop] != [] && b.loops[loop][0].slot < |b.slots|
    {
      var head := b.loops[loop][0];
      P.RunTask(config, b.slots[head.slot], head.task, b.started,
                M.SubscriptionsOf(config, b.subscriptions, head.slot), answers)
    }

    /** The loop is inside the flush of a ready task, which the model has not run. */
    ghost predicate StillFlushing(head: M.Posting, loop: nat, answers: seq<bool>)
      reads this`slots, this`model, slots
    {
      && head.task == P.Ready
      && head.slot < |slots| == |model.slots| && |model.loops| == P.LoopCount(config)
      && loop < |model.loops| && model.loops[loop] != [] && model.loops[loop][0] == head
      && slots[head.slot].State() == HeadSlot(model, loop, answers)
      && !P.FlushDone(slots[head.slot].State())
      && M.Step(config, model, M.RunHead(loop, answers)) == model
    }

    /** The head task of a loop, and the broker once it has returned. */
    lemma HeadRun(loop: nat, answers: seq<bool>) returns (head: M.Posting, t: P.SlotState)
      requires Valid() && loop < |loops| && loops[loop].tasks != []
      ensures Shape() && SlotsHold(model.slots) && loop < |model.loops|
      ensures head == loops[loop].tasks[0] == model.loops[loop][0] && head.slot < |model.slots|
      ensures t == HeadSlot(model, loop, answers)
      ensures head.task == P.Ready && !P.FlushDone(t) ==> M.Step(config, model, M.RunHead(loop, answers)) == model
      ensures
        var s, after := model.slots[head.slot], M.Step(config, model, M.RunHead(loop, answers));
        !(head.task == P.Ready && !P.FlushDone(t)) ==>
          && M.WellFormed(config, after)
          && after == model.(
            slots := model.slots[head.slot := t],
            loops := model.loops[loop := model.loops[loop][1..]],
            publishedMessages := model.publishedMessages + |t.log.published| - |s.log.published|,
            queuedPublishes := model.queuedPublishes + |t.pendingPublishes| - |s.pendingPublishes|,
            completions := model.completions + M.Succeeded(M.NewlyPublished(s, t)))
    {
      head := model.loops[loop][0];
      t := HeadSlot(model, loop, answers);
      M.HeadWellFormed(config, model, loop, answers);
      hide P.ReadyTask, M.WellFormed, SlotsHold, M.Succeeded, M.NewlyPublished, M.SubscriptionsOf;
    }

    /** An event loop runs the task at its head, the channels giving these answers.
        Either the task returns, or it is a ready task still inside its flush. */
    method RunHead(loop: nat, answers: seq<bool>) returns (returned: bool)
      requires Valid() && loop < |loops| && loops[loop].tasks != []
      modifies this, slots, loops
      ensures returned ==> Valid() && model == M.Step(config, old(model), M.RunHead(loop, answers))
      ensures !returned ==> model == old(model) && StillFlushing(old(loops[loop].tasks[0]), loop, answers)
    {
      hide M.WellFormed, M.Step, P.RunTask, P.Returns, M.SubscriptionsOf, M.Succeeded, M.NewlyPublished, SlotsHold, Shape;
      ghost var headTask, t := HeadRun(loop, answers);
      ghost var after := M.Step(config, model, M.RunHead(loop, answers));
      var head := PopHead(loop);
      RunTaskOf(head.slot, head.task, answers);
      var slot := slots[head.slot];
      assert slot.State() == t;
      returned := head.task != P.Ready || !slot.ready || slot.publisherChannels == []
                  || slot.pendingPublishes == [];
      if returned {
        model := after;
      }
    }

    /** The broker once a timer of the slot has fired. */
    lemma Fired(slot: Slot) returns (after: M.Broker)
      requires Valid() && slot in slots && slot.log.timers > 0
      ensures Shape() && SlotsHold(model.slots) && slot.index < |model.slots|
      ensures after == M.Step(config, model, M.TimerFires(slot.index)) && M.WellFormed(config, after)
      ensures after == model.(
        slots := model.slots[slot.index := slot.State().(log := slot.log.(timers := slot.log.timers - 1))],
        loops := if started then M.Post(config, model.loops, slot.index, P.Connect(true)) else model.loops)
    {
      after := M.Step(config, model, M.TimerFires(slot.index));
      M.StepWellFormed(config, model, M.TimerFires(slot.index));
      hide M.WellFormed, M.Post;
    }

    /** A reconnect timer of the slot fires. */
    method TimerFires(slot: Slot)
      requires Valid() && slot in slots && slot.log.timers > 0
      modifies this`model, slot`log, loops
      ensures Valid() && model == M.Step(config, old(model), M.TimerFires(slot.index))
      ensures slot.loop != null ==>
                slot.loop.tasks == old(slot.loop.tasks) + (if started then [M.Posting(slot.index, P.Connect(true))] else [])
    {
      hide M.WellFormed, M.Post, M.Step, SlotsHold, Shape;
      ghost var after := Fired(slot);
      Note(slot, slot.log.(timers := slot.log.timers - 1));
      if started {
        PostTo(slot, P.Connect(true));
      }
      model := after;
    }

    /** The slot's connection reports that it is ready. */
    method HandleSlotReady(slot: Slot)
      requires Valid() && slot in slots && slot.connectionsMade > 0
      modifies this`model, loops
      ensures Valid() && model == M.Step(config, old(model), M.ReportsReady(slot.index))
      ensures slot.loop != null ==> slot.loop.tasks == old(slot.loop.tasks) + [M.Posting(slot.index, P.Ready)]
    {
      M.StepWellFormed(config, model, M.ReportsReady(slot.index));
      ghost var after := M.Step(config, model, M.ReportsReady(slot.index));
      assert after == model.(loops := M.Post(config, model.loops, slot.index, P.Ready));
      hide M.WellFormed, M.Post, M.Step, SlotsHold;
      PostTo(slot, P.Ready);
      model := after;
    }

    /** The slot's connection, or one of its channels, reports a failure. */
    method HandleSlotFailure(slot: Slot)
      requires Valid() && slot in slots && slot.connectionsMade > 0
      modifies this`model, loops
      ensures Valid() && model == M.Step(config, old(model), M.ReportsFailure(slot.index))
      ensures slot.loop != null ==> slot.loop.tasks == old(slot.loop.tasks) + [M.Posting(slot.index, P.Failure)]
    {
      M.StepWellFormed(config, model, M.ReportsFailure(slot.index));
      ghost var after := M.Step(config, model, M.ReportsFailure(slot.index));
      assert after == model.(loops := M.Post(config, model.loops, slot.index, P.Failure));
      hide M.WellFormed, M.Post, M.Step, SlotsHold;
      PostTo(slot, P.Failure);
      model := after;
    }
  }
}
