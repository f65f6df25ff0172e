/** Laws of every run of the broker. */
module BrokerLaws {
  import opened Basics
  import opened SlotProtocol
  import opened SlotLaws
  import opened BrokerModel
  import opened SlotTrace
  import FlushLaws

  // ----- what every slot keeps in every run -----------------------------------

  ghost predicate Numbered(l: Local, calls: nat) {
    && Increasing(l.slot.log.accepted)
    && (forall x :: x in l.slot.log.accepted ==> x < calls)
  }

  ghost predicate SlotKeeps(c: Config, b: Broker, i: nat)
    requires |b.loops| == LoopCount(c) && i < SlotCount(c)
  {
    var l := LocalOf(c, b, i);
    SlotSound(c, l.slot) && Subscribed(l) && Conserved(l) && Numbered(l, |b.returned|)
  }

  ghost predicate Keeps(c: Config, b: Broker) {
    WellFormed(c, b) && forall i: nat :: i < SlotCount(c) ==> SlotKeeps(c, b, i)
  }

  lemma NumberedStep(c: Config, l: Local, f: LocalEvent, calls: nat, calls': nat)
    requires Numbered(l, calls) && calls <= calls'
    requires f.LPost? ==> f.call == calls < calls'
    ensures Numbered(LocalStep(c, l, f), calls')
  {
    if f.LRun? {
      if l.queue != [] {
        AcceptedUnchanged(c, l, f.answers);
      }
    } else {
      QuietStep(c, l, f);
      var old', new' := l.slot.log.accepted, LocalStep(c, l, f).slot.log.accepted;
      assert new' == old' + Added(l, f);
      forall i, j | 0 <= i < j < |new'|
        ensures new'[i] < new'[j]
      {
        assert new'[i] in old';
      }
    }
  }

  lemma AcceptedUnchanged(c: Config, l: Local, answers: seq<bool>)
    requires l.queue != []
    ensures LocalStep(c, l, LRun(answers)).slot.log.accepted == l.slot.log.accepted
  {
    if l.queue[0] == Ready {
      FlushKeepsTimers(c, l.slot, l.subs, answers);
    }
  }

  lemma SlotKeepsStep(c: Config, b: Broker, e: Event, i: nat)
    requires WellFormed(c, b) && i < SlotCount(c) && SlotKeeps(c, b, i)
    ensures SlotKeeps(c, Step(c, b, e), i)
  {
    StepIsLocal(c, b, e, i);
    var l, f := LocalOf(c, b, i), LocalEventOf(c, b, e, i);
    CallsGrow(c, b, e, i);
    NumberedStep(c, l, f, |b.returned|, |Step(c, b, e).returned|);
    SoundStep(c, l, f);
    SubscribedStep(c, l, f);
    ConservedStep(c, l, f);
  }

  lemma CallsGrow(c: Config, b: Broker, e: Event, i: nat)
    requires WellFormed(c, b)
    ensures |Step(c, b, e).returned| == |b.returned| + (if e.PublishCall? then 1 else 0)
    ensures LocalEventOf(c, b, e, i).LPost? ==> e.PublishCall? && LocalEventOf(c, b, e, i).call == |b.returned|
  {
  }

  lemma KeepsStep(c: Config, b: Broker, e: Event)
    requires Keeps(c, b)
    ensures Keeps(c, Step(c, b, e))
  {
    StepWellFormed(c, b, e);
    forall i: nat | i < SlotCount(c)
      ensures SlotKeeps(c, Step(c, b, e), i)
    {
      SlotKeepsStep(c, b, e, i);
    }
  }

  lemma {:induction false} KeepsRun(c: Config, b: Broker, es: seq<Event>)
    requires Keeps(c, b)
    ensures Keeps(c, RunFrom(c, b, es))
    decreases |es|
  {
    if es != [] {
      KeepsStep(c, b, es[0]);
      KeepsRun(c, Step(c, b, es[0]), es[1..]);
    }
  }

  lemma NewBrokerKeeps(c: Config)
    ensures Keeps(c, NewBroker(c))
  {
    forall i: nat | i < SlotCount(c)
      ensures SlotKeeps(c, NewBroker(c), i)
    {
      NewBrokerIsLocal(c, i);
    }
  }

  lemma {:induction false} RunKeeps(c: Config, es: seq<Event>)
    ensures Keeps(c, Run(c, es))
  {
    NewBrokerKeeps(c);
    KeepsRun(c, NewBroker(c), es);
  }

  /** In every run a slot is ready exactly when it has its full set of publisher
      channels, every channel it holds is on its current connection, its k-th
      attempt ever used channel k mod c, and its k-th wait since the last ready
      task was min(30, 2^k) seconds. */
  lemma {:induction false} ChannelsAndBackoff(c: Config, es: seq<Event>, i: nat)
    requires i < |Run(c, es).slots|
    ensures
      var s := Run(c, es).slots[i];
      var n := Max(1, Min(c.channelsPerConnection, c.publisherPoolSize));
      && (s.ready <==> s.publisherChannels != [])
      && (s.ready ==> |s.publisherChannels| == n)
      && s.nextPublisherChannel < n
      && (forall k: nat :: k < |s.log.attempts| ==> s.log.attempts[k] == k % n)
      && (forall ch :: ch in s.publisherChannels ==> ch.connection == s.connection)
      && (forall t :: t in s.consumerChannels ==> s.consumerChannels[t].connection == s.connection)
      && |s.log.waits| == ArmedSinceReady(RanIn(c, NewBroker(c), es, i))
      && (forall k: nat :: k < |s.log.waits| ==> s.log.waits[k] == Backoff(k))
      && s.reconnectDelay == Backoff(|s.log.waits|)
      && 1 <= s.reconnectDelay <= 30
  {
    SlotFollowsItsTasks(c, es, i);
    hide Subscribed, Conserved, Numbered, Run, SubscriptionsOf, QueueOf;
    RunKeeps(c, es);
    var b := Run(c, es);
    assert SlotKeeps(c, b, i);
    var s := b.slots[i];
    forall k: nat | k < |s.log.attempts|
      ensures s.log.attempts[k] == k % ChannelCount(c)
    {
      FlushLaws.WalkAt(0, |s.log.attempts|, ChannelCount(c), k);
    }
    BackoffClosed(|s.log.waits|);
  }

  /** Any c consecutive publish attempts of a slot, across refusals and reconnects,
      use each of its c channels once. */
  lemma {:induction false} EachChannelOncePerRound(c: Config, es: seq<Event>, i: nat, from: nat, channel: nat) returns (k: nat)
    requires i < |Run(c, es).slots| && channel < ChannelCount(c)
    requires from + ChannelCount(c) <= |Run(c, es).slots[i].log.attempts|
    ensures
      var attempts, n := Run(c, es).slots[i].log.attempts, ChannelCount(c);
      && from <= k < from + n && attempts[k] == channel
      && (forall m :: from <= m < from + n && attempts[m] == channel ==> m == k)
  {
    hide Run;
    ChannelsAndBackoff(c, es, i);
    k := OnceInWindow(from, ChannelCount(c), channel);
  }

  lemma OnceInWindow(from: nat, n: nat, r: nat) returns (k: nat)
    requires r < n
    ensures from <= k < from + n && k % n == r
    ensures forall m: nat :: from <= m < from + n && m % n == r ==> m == k
  {
    var first := from % n;
    k := from + (if r >= first then r - first else r + n - first);
    ModPlus(from, k - from, n);
    ModWrap(first + (k - from), r, n);
    forall m: nat | from <= m < from + n && m != k
      ensures m % n != r
    {
      if m < k {
        ModDistinct(m, k, n);
      } else {
        ModDistinct(k, m, n);
      }
    }
  }

  // ----- how things are wired ------------------------------------------------------

  /** In every run there are as many slots as configured, at least one; a slot uses the
      event loop of its index modulo the number of io threads, if there is one; a
      topic belongs to the slot of its hash modulo the number of slots; and a ready
      slot has the smaller of the two configured numbers of publisher channels, at
      least one. */
  lemma {:induction false} WiredAsConfigured(c: Config, es: seq<Event>, i: nat, topic: Topic)
    requires i < |Run(c, es).slots|
    ensures
      var b := Run(c, es);
      && |b.slots| == (if c.connectionPoolSize == 0 then 1 else c.connectionPoolSize)
      && |b.loops| == (if c.ioThreads == 0 then 1 else c.ioThreads)
      && LoopOf(c, i) == (if c.loopRuns(i % |b.loops|) then Some(i % |b.loops|) else None)
      && (LoopOf(c, i).None? ==> b.slots[i].log.accepted == [] && QueueOf(c, b.loops, i) == [])
      && SlotOf(c, topic) == c.hash(topic) % |b.slots|
      && (b.slots[i].ready ==>
            var n := |b.slots[i].publisherChannels|;
            if c.channelsPerConnection == 0 || c.publisherPoolSize == 0 then n == 1
            else && n <= c.channelsPerConnection && n <= c.publisherPoolSize
                 && (n == c.channelsPerConnection || n == c.publisherPoolSize))
  {
    RunKeeps(c, es);
    assert SlotKeeps(c, Run(c, es), i);
    RunWithoutLoop(c, NewBroker(c), es, i);
  }

  lemma WithoutLoopStep(c: Config, b: Broker, e: Event, i: nat)
    requires WellFormed(c, b) && i < SlotCount(c) && LoopOf(c, i).None?
    requires LocalOf(c, b, i).slot.log.accepted == []
    ensures LocalOf(c, Step(c, b, e), i).slot.log.accepted == []
  {
    StepIsLocal(c, b, e, i);
    assert LocalOf(c, b, i).queue == [];
  }

  lemma {:induction false} RunWithoutLoop(c: Config, b: Broker, es: seq<Event>, i: nat)
    requires WellFormed(c, b) && i < SlotCount(c)
    requires LocalOf(c, b, i).slot.log.accepted == []
    ensures LoopOf(c, i).None? ==> LocalOf(c, RunFrom(c, b, es), i).slot.log.accepted == []
    decreases |es|
  {
    hide Step, LocalOf;
    if es != [] && LoopOf(c, i).None? {
      StepWellFormed(c, b, es[0]);
      WithoutLoopStep(c, b, es[0], i);
      RunWithoutLoop(c, Step(c, b, es[0]), es[1..], i);
    }
  }

  // ----- after a failure ----------------------------------------------------------

  ghost predicate Empty(s: SlotState) {
    !s.ready && s.publisherChannels == [] && s.consumerChannels == map[]
  }

  lemma NotReadyIsEmpty(c: Config, es: seq<Event>, i: nat)
    requires i < |Run(c, es).slots| && !Run(c, es).slots[i].ready
    ensures Empty(Run(c, es).slots[i])
  {
    RunKeeps(c, es);
    assert SlotKeeps(c, Run(c, es), i);
  }

  lemma {:induction false} RunSplit(c: Config, b: Broker, es: seq<Event>, fs: seq<Event>)
    requires |b.loops| == LoopCount(c)
    ensures RunFrom(c, b, es + fs) == RunFrom(c, RunFrom(c, b, es), fs)
    ensures forall i: nat :: RanIn(c, b, es + fs, i) == RanIn(c, b, es, i) + RanIn(c, RunFrom(c, b, es), fs, i)
    decreases |es|
  {
    hide Step, RanBy;
    if es == [] {
      assert es + fs == fs;
      assert forall i: nat :: RanIn(c, b, [], i) == [];
    } else {
      assert (es + fs)[1..] == es[1..] + fs;
      RunSplit(c, Step(c, b, es[0]), es[1..], fs);
      forall i: nat
        ensures RanIn(c, b, es + fs, i) == RanIn(c, b, es, i) + RanIn(c, RunFrom(c, b, es), fs, i)
      {
        ConcatAssociates(RanBy(c, b, es[0], i), RanIn(c, Step(c, b, es[0]), es[1..], i),
                         RanIn(c, RunFrom(c, b, es), fs, i));
      }
    }
  }

  lemma RanOne(c: Config, b: Broker, e: Event, i: nat)
    requires |b.loops| == LoopCount(c)
    ensures RunFrom(c, b, [e]) == Step(c, b, e) && RanIn(c, b, [e], i) == RanBy(c, b, e, i)
  {
    assert [e][1..] == [];
    assert RanIn(c, Step(c, b, e), [], i) == [];
  }

  /** Whenever a failure of a slot has been processed, the slot is not ready and holds
      no publisher and no consumer channel; and until a ready task of it returns it
      stays so, tries no channel, publishes nothing, and each of its publish tasks
      that runs joins the end of its deque, which only a stop shortens. */
  lemma {:induction false} FailedSlotIsOut(c: Config, before: seq<Event>, e: Event, es: seq<Event>, i: nat)
    requires RanBy(c, Run(c, before), e, i) != [] && RanBy(c, Run(c, before), e, i)[0].task == Failure
    requires NoReady(RanIn(c, Step(c, Run(c, before), e), es, i))
    ensures
      var d := Step(c, Run(c, before), e);
      var f := RunFrom(c, d, es);
      && i < |d.slots| && Empty(d.slots[i])
      && i < |f.slots| && Empty(f.slots[i])
      && OnlyGathered(d.slots[i], f.slots[i], PublishesIn(RanIn(c, d, es, i)))
  {
    hide Step, RanBy, OnlyGathered;
    var b := Run(c, before);
    var d := Step(c, b, e);
    RanOne(c, b, e, i);
    RunSplit(c, NewBroker(c), before, [e]);
    RunSplit(c, NewBroker(c), before + [e], es);
    RanIsOfASlot(c, b, e, i);
    SlotsRemain(c, b, e);
    SlotFollowsItsTasks(c, before + [e], i);
    LastRanDecides(RanIn(c, NewBroker(c), before, i), RanBy(c, b, e, i));
    NotReadyIsEmpty(c, before + [e], i);
    NotReadyGathers(c, before + [e], es, i);
    assert !RunFrom(c, d, es).slots[i].ready by {
      GatheredNotReady(d.slots[i], RunFrom(c, d, es).slots[i], PublishesIn(RanIn(c, d, es, i)));
    }
    NotReadyIsEmpty(c, (before + [e]) + es, i);
  }

  lemma RanIsOfASlot(c: Config, b: Broker, e: Event, i: nat)
    requires RanBy(c, b, e, i) != []
    ensures i < |b.slots| && |RanBy(c, b, e, i)| == 1
  {
  }

  lemma LastRanDecides(ran: seq<Ran>, last: seq<Ran>)
    requires |last| > 0 && last[|last| - 1].task == Failure
    ensures !ReadyAfter(ran + last)
  {
  }

  lemma GatheredNotReady(s: SlotState, t: SlotState, calls: seq<nat>)
    requires OnlyGathered(s, t, calls)
    ensures !t.ready
  {
  }

  /** After a ready task of a slot has returned, and until the next one does, the k-th
      timer armed for it (from 0) waits min(30, 2^k) seconds; the first waits one. */
  lemma {:induction false} BackoffSinceReady(c: Config, before: seq<Event>, e: Event, es: seq<Event>, i: nat)
    requires RanBy(c, Run(c, before), e, i) != [] && RanBy(c, Run(c, before), e, i)[0].task == Ready
    requires NoReady(RanIn(c, Step(c, Run(c, before), e), es, i))
    ensures
      var d := Step(c, Run(c, before), e);
      var f := RunFrom(c, d, es);
      && i < |d.slots| && d.slots[i].reconnectDelay == 1
      && i < |f.slots| && f.slots[i].log.armed >= d.slots[i].log.armed
      && f.slots[i].reconnectDelay == Min(30, Pow2(f.slots[i].log.armed - d.slots[i].log.armed))
  {
    hide Step, RanBy;
    var b := Run(c, before);
    var d := Step(c, b, e);
    RanOne(c, b, e, i);
    RunSplit(c, NewBroker(c), before, [e]);
    RunSplit(c, NewBroker(c), before + [e], es);
    RanIsOfASlot(c, b, e, i);
    SlotsRemain(c, b, e);
    SlotsStay(c, d, es);
    SlotFollowsItsTasks(c, before + [e], i);
    SlotFollowsItsTasks(c, (before + [e]) + es, i);
    var ran := RanIn(c, NewBroker(c), before, i) + RanBy(c, b, e, i);
    assert ArmedSinceReady(ran) == 0;
    ArmedSince(ran, RanIn(c, d, es, i));
    BackoffClosed(ArmedSinceReady(ran + RanIn(c, d, es, i)));
  }

  lemma {:induction false} ArmedSince(ran: seq<Ran>, more: seq<Ran>)
    requires NoReady(more)
    ensures ArmedSinceReady(ran + more) - ArmedSinceReady(ran) == ArmedIn(ran + more) - ArmedIn(ran) >= 0
    decreases |more|
  {
    if more == [] {
      assert ran + more == ran;
    } else {
      SplitLast(ran, more);
      var k := |more| - 1;
      assert more[k] in more && forall r :: r in more[..k] ==> r in more;
      ArmedSince(ran, more[..k]);
      assert (ran + more)[..|ran + more| - 1] == ran + more[..k];
    }
  }

  function Pow2(k: nat): nat { if k == 0 then 1 else 2 * Pow2(k - 1) }

  lemma {:induction false} BackoffClosed(k: nat)
    ensures Backoff(k) == Min(30, Pow2(k))
    ensures 1 <= Backoff(k) <= 30
  {
    if k > 0 {
      BackoffClosed(k - 1);
    }
  }

  ghost function Total(waits: seq<nat>): nat {
    if waits == [] then 0 else Total(waits[..|waits| - 1]) + waits[|waits| - 1]
  }

  lemma {:induction false} TotalBackoff(waits: seq<nat>)
    requires forall k: nat :: k < |waits| ==> waits[k] == Backoff(k)
    ensures |waits| <= 5 ==> Total(waits) == Pow2(|waits|) - 1
    ensures |waits| >= 5 ==> Total(waits) == 31 + 30 * (|waits| - 5)
    decreases |waits|
  {
    if waits != [] {
      var k := |waits| - 1;
      TotalBackoff(waits[..k]);
      BackoffClosed(k);
      Pow2Table(k);
    }
  }

  /** In every run the first n waits of a slot since its last ready task add up to
      2^n - 1 seconds, and from the fifth on to 31 + 30 (n - 5). */
  lemma {:induction false} TotalWait(c: Config, es: seq<Event>, i: nat, n: nat)
    requires i < |Run(c, es).slots| && n <= ArmedSinceReady(RanIn(c, NewBroker(c), es, i))
    ensures n <= |Run(c, es).slots[i].log.waits|
    ensures
      var waited := Total(Run(c, es).slots[i].log.waits[..n]);
      && (n <= 5 ==> waited == Pow2(n) - 1)
      && (n >= 5 ==> waited == 31 + 30 * (n - 5))
  {
    ChannelsAndBackoff(c, es, i);
    TotalBackoff(Run(c, es).slots[i].log.waits[..n]);
  }

  lemma {:induction false} Pow2Table(k: nat)
    ensures Pow2(0) == 1 && Pow2(1) == 2 && Pow2(2) == 4 && Pow2(3) == 8 && Pow2(4) == 16 && Pow2(5) == 32
    ensures k >= 5 ==> Pow2(k) >= 32
  {
    assert Pow2(3) == 8;
    assert Pow2(5) == 32;
    if k > 5 {
      Pow2Table(k - 1);
    }
  }

  // ----- coverage ---------------------------------------------------------------

  /** Number k is the newest of the subscriptions to its topic. */
  predicate Newest(topics: seq<Topic>, k: nat) {
    k < |topics| && forall later :: k < later < |topics| ==> topics[later] != topics[k]
  }

  lemma {:induction false} NewestOnSlot(c: Config, topics: seq<Topic>, k: nat)
    requires Newest(topics, k)
    ensures NewestOf(SubscriptionsOf(c, topics, SlotOf(c, topics[k])), topics[k]) == Some(k)
    decreases |topics|
  {
    var rest, i := topics[..|topics| - 1], SlotOf(c, topics[k]);
    var last := Subscription(topics[|topics| - 1], |topics| - 1);
    assert topics == rest + [last.topic];
    SubscriptionsOfAppend(c, rest, last.topic, i);
    var subs := SubscriptionsOf(c, rest, i);
    if k < |rest| {
      NewestOnSlot(c, rest, k);
      assert (subs + [last])[..|subs|] == subs;
      assert subs + [] == subs;
    }
  }

  /** Whether a consumer task for the topic waits for the slot. */
  ghost predicate ConsumerWaits(queue: seq<Task>, topic: Topic) {
    exists task :: task in queue && task.StartConsumer? && task.subscription.topic == topic
  }

  lemma {:induction false} NoneWaits(queue: seq<Task>, topic: Topic)
    requires !ConsumerWaits(queue, topic)
    ensures EndsConsuming(None, queue, topic).None?
    decreases |queue|
  {
    if queue != [] {
      assert queue[0] in queue && forall task :: task in queue[1..] ==> task in queue;
      NoneWaits(queue[1..], topic);
    }
  }

  lemma {:induction false} WaitingIsQueued(queue: seq<Task>, topic: Topic)
    ensures
      var waiting := EndsConsuming(None, queue, topic);
      waiting.Some? ==> StartConsumer(Subscription(topic, waiting.value)) in queue
    decreases |queue|
  {
    if queue != [] {
      WaitingIsQueued(queue[1..], topic);
      LastConsumerDecides(Consuming(None, queue[0], topic), queue[1..], topic);
      assert queue == [queue[0]] + queue[1..];
    }
  }

  /** Whenever a slot is ready and connected with no stop waiting for it, the newest
      subscription to each topic that hashes to it is the one consumed, or its
      consumer is about to be started; and once no consumer task for the topic waits
      it is the one consumed. */
  lemma {:induction false} EverySubscriptionCovered(c: Config, es: seq<Event>, k: nat)
    requires Newest(Run(c, es).subscriptions, k)
    ensures
      var b := Run(c, es);
      var topic := b.subscriptions[k];
      var i := SlotOf(c, topic);
      i < |b.slots| && b.slots[i].ready && b.slots[i].connection.Some?
        && Stop !in QueueOf(c, b.loops, i)
      ==> var queue := QueueOf(c, b.loops, i);
          && (ConsumerOf(b.slots[i], topic) == Some(k) || StartConsumer(Subscription(topic, k)) in queue)
          && (!ConsumerWaits(queue, topic) ==> ConsumerOf(b.slots[i], topic) == Some(k))
  {
    RunKeeps(c, es);
    var b := Run(c, es);
    var topic := b.subscriptions[k];
    var i := SlotOf(c, topic);
    assert SlotKeeps(c, b, i);
    assert Latest(LocalOf(c, b, i), topic);
    NewestOnSlot(c, b.subscriptions, k);
    if i < |b.slots| {
      var queue := QueueOf(c, b.loops, i);
      LastConsumerDecides(ConsumerOf(b.slots[i], topic), queue, topic);
      WaitingIsQueued(queue, topic);
      if !ConsumerWaits(queue, topic) {
        NoneWaits(queue, topic);
      }
    }
  }

  /** On a ready, connected slot for which no stop and no consumer task for the topic
      waits, a subscription is consumed exactly if no later one has its topic: a
      second subscription to a topic silences the first. */
  lemma {:induction false} OnlyTheNewestIsConsumed(c: Config, es: seq<Event>, k: nat)
    requires k < |Run(c, es).subscriptions|
    requires
      var b := Run(c, es);
      var i := SlotOf(c, b.subscriptions[k]);
      && i < |b.slots| && b.slots[i].ready && b.slots[i].connection.Some?
      && Stop !in QueueOf(c, b.loops, i) && !ConsumerWaits(QueueOf(c, b.loops, i), b.subscriptions[k])
    ensures
      var b := Run(c, es);
      var topic := b.subscriptions[k];
      ConsumerOf(b.slots[SlotOf(c, topic)], topic) == Some(k) <==> Newest(b.subscriptions, k)
  {
    var topics := Run(c, es).subscriptions;
    var n := NewestFrom(topics, k);
    EverySubscriptionCovered(c, es, n);
  }

  lemma {:induction false} NewestFrom(topics: seq<Topic>, k: nat) returns (n: nat)
    requires k < |topics|
    ensures k <= n && Newest(topics, n) && topics[n] == topics[k]
    decreases |topics| - k
  {
    if Newest(topics, k) {
      n := k;
    } else {
      var later :| k < later < |topics| && topics[later] == topics[k];
      n := NewestFrom(topics, later);
    }
  }

  /** Whatever a slot consumes is a registered subscription whose topic hashes to it,
      so no topic is ever consumed on two slots. */
  lemma {:induction false} NoTopicOnTwoSlots(c: Config, es: seq<Event>, i: nat, topic: Topic)
    requires i < |Run(c, es).slots| && topic in Run(c, es).slots[i].consumerChannels
    ensures
      var b := Run(c, es);
      var k := b.slots[i].consumerChannels[topic].subscription;
      && k < |b.subscriptions| && b.subscriptions[k] == topic
      && i == c.hash(topic) % |b.slots|
  {
    RunKeeps(c, es);
    var b := Run(c, es);
    assert SlotKeeps(c, b, i);
    SubscriptionsOfHash(c, b.subscriptions, i,
                        Subscription(topic, b.slots[i].consumerChannels[topic].subscription));
  }

  // ----- a stopped broker -------------------------------------------------------

  ghost predicate NoStart(es: seq<Event>) {
    forall e :: e in es ==> !e.StartCall?
  }

  /** Connections made for a slot, and those its waiting connect tasks will make. */
  ghost function Connections(c: Config, b: Broker, i: nat): nat
    requires |b.loops| == LoopCount(c) && i < SlotCount(c)
  {
    var l := LocalOf(c, b, i);
    l.slot.log.connections + QueuedConnects(l.queue)
  }

  lemma {:induction false} StoppedRun(c: Config, b: Broker, es: seq<Event>, i: nat)
    requires Keeps(c, b) && i < SlotCount(c) && !b.started && NoStart(es)
    ensures
      var d := RunFrom(c, b, es);
      && Keeps(c, d) && !d.started
      && LocalOf(c, d, i).slot.log.armed == LocalOf(c, b, i).slot.log.armed
      && LocalOf(c, d, i).slot.log.timers <= LocalOf(c, b, i).slot.log.timers
      && Connections(c, d, i) == Connections(c, b, i)
    decreases |es|
  {
    if es != [] {
      assert es[0] in es;
      KeepsStep(c, b, es[0]);
      StepIsLocal(c, b, es[0], i);
      StoppedStep(c, LocalOf(c, b, i), LocalEventOf(c, b, es[0], i));
      assert NoStart(es[1..]) by {
        assert forall e :: e in es[1..] ==> e in es;
      }
      StoppedRun(c, Step(c, b, es[0]), es[1..], i);
    }
  }

  /** From any reachable stopped state, whatever is called or reported, as long as
      the broker is not started again: no reconnect timer is armed, no connection is
      made beyond those whose connect task was waiting, and a slot with no task left
      has no connection and consumes nothing. */
  lemma {:induction false} StoppedBrokerWindsDown(c: Config, es: seq<Event>, more: seq<Event>, i: nat)
    requires !Run(c, es).started && NoStart(more) && i < |Run(c, es).slots|
    ensures i < |RunFrom(c, Run(c, es), more).slots|
    ensures
      var b, d := Run(c, es), RunFrom(c, Run(c, es), more);
      var s, t := b.slots[i], d.slots[i];
      var connects := QueuedConnects(QueueOf(c, d.loops, i));
      && t.log.armed == s.log.armed && t.log.timers <= s.log.timers
      && t.log.connections + connects
           == s.log.connections + QueuedConnects(QueueOf(c, b.loops, i))
      && (QueueOf(c, d.loops, i) == [] ==> t.connection.None? && t.consumerChannels == map[])
  {
    RunKeeps(c, es);
    StoppedRun(c, Run(c, es), more, i);
    SlotsStay(c, Run(c, es), more);
    assert SlotKeeps(c, RunFrom(c, Run(c, es), more), i);
  }

  // ----- no stranded slot, single flight ----------------------------------------

  lemma {:induction false} TendedRun(c: Config, b: Broker, es: seq<Event>, i: nat)
    requires WellFormed(c, b) && i < SlotCount(c) && Tended(LocalOf(c, b, i))
    ensures WellFormed(c, RunFrom(c, b, es)) && Tended(LocalOf(c, RunFrom(c, b, es), i))
    decreases |es|
  {
    if es != [] {
      StepWellFormed(c, b, es[0]);
      StepIsLocal(c, b, es[0], i);
      TendedStep(c, LocalOf(c, b, i), LocalEventOf(c, b, es[0], i));
      TendedRun(c, Step(c, b, es[0]), es[1..], i);
    }
  }

  /** In every run, stops and restarts included, a slot with a loop is never left
      with nobody to bring it back while the broker is running: a connect waits that
      no waiting stop undoes; or no stop waits, the slot holds a connection, and it
      is ready, a reconnect timer is armed, or the outcome of that connection has
      not been processed. */
  lemma {:induction false} NoSlotStranded(c: Config, es: seq<Event>, i: nat)
    requires Run(c, es).started && i < SlotCount(c) && LoopOf(c, i).Some?
    ensures i < |Run(c, es).slots|
    ensures
      var b := Run(c, es);
      var s, queue := b.slots[i], QueueOf(c, b.loops, i);
      || EndsConnected(false, queue)
      || (&& Stop !in queue && s.connection.Some?
          && (s.ready || s.log.timers > 0 || s.log.awaitingOutcome))
  {
    NewBrokerIsLocal(c, i);
    TendedRun(c, NewBroker(c), es, i);
  }

  ghost predicate NoStop(es: seq<Event>) {
    forall e :: e in es ==> !e.StopCall?
  }

  lemma {:induction false} UndisturbedRun(c: Config, b: Broker, es: seq<Event>, i: nat)
    requires WellFormed(c, b) && i < SlotCount(c) && Undisturbed(LocalOf(c, b, i)) && NoStop(es)
    ensures Undisturbed(LocalOf(c, RunFrom(c, b, es), i))
    decreases |es|
  {
    if es != [] {
      assert es[0] in es;
      StepWellFormed(c, b, es[0]);
      StepIsLocal(c, b, es[0], i);
      UndisturbedStep(c, LocalOf(c, b, i), LocalEventOf(c, b, es[0], i));
      assert NoStop(es[1..]) by {
        assert forall e :: e in es[1..] ==> e in es;
      }
      UndisturbedRun(c, Step(c, b, es[0]), es[1..], i);
    }
  }

  /** In every run without stop calls the reconnects under way for a slot, armed
      timers and timer-issued connects together, number one if the flag is set and
      none otherwise. */
  lemma {:induction false} OneReconnectAtATime(c: Config, es: seq<Event>, i: nat)
    requires NoStop(es) && i < |Run(c, es).slots|
    ensures
      var b := Run(c, es);
      b.slots[i].log.timers + Count(QueueOf(c, b.loops, i), Connect(true))
        == (if b.slots[i].reconnectScheduled then 1 else 0)
  {
    RunKeeps(c, es);
    NewBrokerIsLocal(c, i);
    NewLocalUndisturbed(LoopOf(c, i).Some?, []);
    UndisturbedRun(c, NewBroker(c), es, i);
  }

  ghost predicate FlightThroughout(c: Config, b: Broker, es: seq<Event>, i: nat)
    requires |b.loops| == LoopCount(c) && i < SlotCount(c)
    decreases |es|
  {
    && SingleFlight(LocalOf(c, b, i))
    && (es != [] ==> FlightThroughout(c, Step(c, b, es[0]), es[1..], i))
  }

  ghost predicate NeverLosesTrack(c: Config, b: Broker, es: seq<Event>, i: nat)
    requires |b.loops| == LoopCount(c) && i < SlotCount(c)
    decreases |es|
  {
    es != [] ==>
      && !LosesTrack(LocalOf(c, b, i), LocalEventOf(c, b, es[0], i))
      && NeverLosesTrack(c, Step(c, b, es[0]), es[1..], i)
  }

  lemma {:induction false} FlightRun(c: Config, b: Broker, es: seq<Event>, i: nat)
    requires WellFormed(c, b) && i < SlotCount(c) && LoopOf(c, i).Some?
    requires SingleFlight(LocalOf(c, b, i))
    ensures FlightThroughout(c, b, es, i) <==> NeverLosesTrack(c, b, es, i)
    decreases |es|
  {
    if es != [] {
      var l, f := LocalOf(c, b, i), LocalEventOf(c, b, es[0], i);
      StepIsLocal(c, b, es[0], i);
      StepWellFormed(c, b, es[0]);
      SingleFlightExactly(c, l, f);
      if !LosesTrack(l, f) {
        FlightRun(c, Step(c, b, es[0]), es[1..], i);
      }
    }
  }

  /** In any run, with whatever stops and restarts, the reconnects under way for a
      slot are exactly those its flag announces from beginning to end if and only if
      no step of the run loses track of one: no stop task and no start-issued
      connect runs while the flag is set, and no timer fires while the broker is
      stopped and the flag is set. */
  lemma {:induction false} SingleFlightExactlyWhenTracked(c: Config, es: seq<Event>, i: nat)
    requires i < SlotCount(c) && LoopOf(c, i).Some?
    ensures FlightThroughout(c, NewBroker(c), es, i) <==> NeverLosesTrack(c, NewBroker(c), es, i)
  {
    NewBrokerIsLocal(c, i);
    FlightRun(c, NewBroker(c), es, i);
  }

  /** A step that posts a task, and then that task. */
  function Round(e: LocalEvent): seq<LocalEvent> { [e, LRun([])] }

  function AfterRound(c: Config, l: Local, e: LocalEvent): Local {
    LocalStep(c, LocalStep(c, l, e), LRun([]))
  }

  lemma RoundRuns(c: Config, l: Local, e: LocalEvent, more: seq<LocalEvent>)
    ensures RunLocal(c, l, Round(e) + more) == RunLocal(c, AfterRound(c, l, e), more)
  {
    RunLocalSplit(c, l, Round(e), more);
    assert Round(e)[1..] == [LRun([])];
  }

  /** A connection fails; the broker is stopped and started again; the new
      connection fails, too. */
  function FailAcrossRestart(): seq<LocalEvent> {
    [LStart, LRun([]), LFail, LRun([]), LStop, LRun([]), LStart, LRun([]), LFail, LRun([])]
  }

  lemma RoundOfEvents(e: LocalEvent)
    ensures BrokerEvents(Round(e)) == [BrokerEvent(e), RunHead(0, [])]
  {
    assert Round(e)[1..] == [LRun([])] && [LRun([])][1..] == [];
  }

  lemma FiveRounds()
    ensures FailAcrossRestart()
         == Round(LStart) + (Round(LFail) + (Round(LStop) + (Round(LStart) + Round(LFail))))
  {
  }

  lemma StartRound(c: Config, l: Local)
    requires l.queue == [] && l.hasLoop && !l.started
    ensures AfterRound(c, l, LStart) == l.(started := true, slot := ConnectTask(l.slot))
  {
    assert LocalStep(c, l, LStart).queue == [Connect(false)];
  }

  lemma FailRound(c: Config, l: Local)
    requires l.queue == [] && l.hasLoop && l.slot.log.connections > 0
    ensures AfterRound(c, l, LFail) == l.(slot := FailureTask(l.slot, l.started))
  {
    assert LocalStep(c, l, LFail).queue == [Failure];
  }

  lemma StopRound(c: Config, l: Local)
    requires l.queue == [] && l.hasLoop && l.started
    ensures AfterRound(c, l, LStop) == l.(started := false, slot := StopTask(l.slot))
  {
    assert LocalStep(c, l, LStop).queue == [Stop];
  }

  lemma TwoTimers(c: Config)
    ensures RunLocal(c, NewLocal(true, []), FailAcrossRestart()).slot.log.timers == 2
  {
    hide RunLocal, AfterRound, FailAcrossRestart;
    var l := NewLocal(true, []);
    StartRound(c, l);
    var up := AfterRound(c, l, LStart);
    FailRound(c, up);
    var failed := AfterRound(c, up, LFail);
    StopRound(c, failed);
    var stopped := AfterRound(c, failed, LStop);
    StartRound(c, stopped);
    var restarted := AfterRound(c, stopped, LStart);
    FailRound(c, restarted);
    RoundRuns(c, l, LStart, Round(LFail) + (Round(LStop) + (Round(LStart) + Round(LFail))));
    RoundRuns(c, up, LFail, Round(LStop) + (Round(LStart) + Round(LFail)));
    RoundRuns(c, failed, LStop, Round(LStart) + Round(LFail));
    RoundRuns(c, stopped, LStart, Round(LFail));
    LastRound(c, restarted, LFail);
    FiveRounds();
  }

  lemma LastRound(c: Config, l: Local, e: LocalEvent)
    ensures RunLocal(c, l, Round(e)) == AfterRound(c, l, e)
  {
    RoundRuns(c, l, e, []);
    assert Round(e) + [] == Round(e);
  }

  lemma FiveRoundsOfEvents()
    ensures BrokerEvents(FailAcrossRestart())
         == [StartCall, RunHead(0, []), ReportsFailure(0), RunHead(0, []),
             StopCall, RunHead(0, []), StartCall, RunHead(0, []),
             ReportsFailure(0), RunHead(0, [])]
  {
    hide BrokerEvents;
    FiveRounds();
    BrokerEventsSplit(Round(LStart), Round(LFail) + (Round(LStop) + (Round(LStart) + Round(LFail))));
    BrokerEventsSplit(Round(LFail), Round(LStop) + (Round(LStart) + Round(LFail)));
    BrokerEventsSplit(Round(LStop), Round(LStart) + Round(LFail));
    BrokerEventsSplit(Round(LStart), Round(LFail));
    RoundOfEvents(LStart);
    RoundOfEvents(LFail);
    RoundOfEvents(LStop);
  }

  /** With a stop and a restart in between, two reconnects can be under way: the
      stop task forgets the armed timer. */
  lemma StopForgetsTimer(c: Config)
    requires SlotCount(c) == 1 && LoopOf(c, 0) == Some(0)
    ensures
      var b := Run(c, [StartCall, RunHead(0, []), ReportsFailure(0), RunHead(0, []),
                       StopCall, RunHead(0, []), StartCall, RunHead(0, []),
                       ReportsFailure(0), RunHead(0, [])]);
      |b.slots| == 1 && b.slots[0].log.timers == 2
  {
    var es := FailAcrossRestart();
    assert NumberedFrom(es, 0) by {
      QuietlyNumbered(es, 0);
    }
    TwoTimers(c);
    SoloRun(c, es);
    FiveRoundsOfEvents();
  }

  lemma {:induction false} QuietlyNumbered(es: seq<LocalEvent>, calls: nat)
    requires forall e :: e in es ==> !e.LPost? && !e.LNothing? && !e.LSubscribe?
    ensures NumberedFrom(es, calls)
    decreases |es|
  {
    if es != [] {
      QuietlyNumbered(es[1..], calls);
    }
  }
}
