/** The fate of every publish call, over every run of the broker: one place,
    one return value, at most one completion, counters that add up, and call
    order on each slot. */
module PublishLedger {
  import opened Basics
  import opened SlotProtocol
  import opened SlotLaws
  import opened BrokerModel
  import opened SlotTrace
  import opened BrokerLaws

  datatype Pile = Accepted | Published | Pending

  ghost function PileOf(s: SlotState, pile: Pile): multiset<nat> {
    match pile
    case Accepted => multiset(s.log.accepted)
    case Published => multiset(s.log.published)
    case Pending => multiset(s.pendingPublishes)
  }

  ghost function Piles(slots: seq<SlotState>, pile: Pile): seq<multiset<nat>> {
    seq(|slots|, i requires 0 <= i < |slots| => PileOf(slots[i], pile))
  }

  /** The pile over all slots. */
  ghost function All(slots: seq<SlotState>, pile: Pile): multiset<nat> {
    Union(Piles(slots, pile))
  }

  lemma AllUpdate(slots: seq<SlotState>, i: nat, s: SlotState, pile: Pile)
    requires i < |slots|
    ensures All(slots[i := s], pile) + PileOf(slots[i], pile) == All(slots, pile) + PileOf(s, pile)
  {
    UnionUpdate(Piles(slots, pile), i, PileOf(s, pile));
    assert Piles(slots[i := s], pile) == Piles(slots, pile)[i := PileOf(s, pile)];
  }

  lemma AllGrows(slots: seq<SlotState>, i: nat, s: SlotState, pile: Pile, more: multiset<nat>)
    requires i < |slots| && PileOf(s, pile) == PileOf(slots[i], pile) + more
    ensures All(slots[i := s], pile) == All(slots, pile) + more
  {
    AllUpdate(slots, i, s, pile);
    var old', new', part := All(slots, pile), All(slots[i := s], pile), PileOf(slots[i], pile);
    assert new' + part == old' + (part + more);
    forall x
      ensures new'[x] == (old' + more)[x]
    {
      assert (new' + part)[x] == (old' + (part + more))[x];
    }
  }

  lemma AllSame(slots: seq<SlotState>, i: nat, s: SlotState, pile: Pile)
    requires i < |slots| && PileOf(s, pile) == PileOf(slots[i], pile)
    ensures All(slots[i := s], pile) == All(slots, pile)
  {
    assert Piles(slots[i := s], pile) == Piles(slots, pile);
  }

  /** Every call was refused or accepted, once, as it returned. */
  ghost predicate CallsPlaced(refused: multiset<nat>, accepted: multiset<nat>, returned: seq<bool>) {
    && refused + accepted == Upto(|returned|)
    && (forall x :: 0 <= x < |returned| ==> (returned[x] <==> x in accepted))
  }

  /** Completed with true means published, completed with false means refused. */
  ghost predicate CallsCompleted(done: multiset<Completion>, published: multiset<nat>, refused: multiset<nat>) {
    forall x :: done[Completion(x, true)] == published[x] && done[Completion(x, false)] == refused[x]
  }

  ghost function Refused(b: Broker): multiset<nat> {
    multiset(b.turnedAway) + multiset(b.rejected)
  }

  ghost predicate CountersAddUp(b: Broker) {
    && b.publishRequests == |b.rejected| + |All(b.slots, Accepted)|
    && b.publishedMessages == |All(b.slots, Published)|
    && b.queuedPublishes == |All(b.slots, Pending)|
  }

  ghost predicate Ledger(b: Broker) {
    && CallsPlaced(Refused(b), All(b.slots, Accepted), b.returned)
    && CallsCompleted(multiset(b.completions), All(b.slots, Published), Refused(b))
    && CountersAddUp(b)
  }

  // ----- the ledger is kept ----------------------------------------------------

  lemma {:induction false} SucceededCounts(calls: seq<nat>, x: nat)
    ensures multiset(Succeeded(calls))[Completion(x, true)] == multiset(calls)[x]
    ensures multiset(Succeeded(calls))[Completion(x, false)] == 0
    decreases |calls|
  {
    if calls != [] {
      var k := |calls| - 1;
      SucceededCounts(calls[..k], x);
      assert calls == calls[..k] + [calls[k]];
      assert Succeeded(calls) == Succeeded(calls[..k]) + [Completion(calls[k], true)];
    }
  }

  lemma RunTaskPublishes(c: Config, s: SlotState, task: Task, started: bool, subs: seq<Subscription>,
                         answers: seq<bool>)
    ensures
      var t := RunTask(c, s, task, started, subs, answers);
      && t.log.published == s.log.published + NewlyPublished(s, t)
      && t.log.accepted == s.log.accepted
  {
    hide ReadyTask;
    if task == Ready {
      ReadyTaskPublishes(c, s, subs, answers);
      FlushKeepsTimers(c, s, subs, answers);
    }
  }

  lemma RefusedPlaced(refused: multiset<nat>, accepted: multiset<nat>, returned: seq<bool>)
    requires CallsPlaced(refused, accepted, returned)
    ensures CallsPlaced(refused + multiset{|returned|}, accepted, returned + [false])
  {
    var call: nat := |returned|;
    UptoAt(call, call);
    assert (refused + accepted)[call] == 0;
    assert refused + multiset{call} + accepted == refused + accepted + multiset{call};
  }

  lemma AcceptedPlaced(refused: multiset<nat>, accepted: multiset<nat>, returned: seq<bool>)
    requires CallsPlaced(refused, accepted, returned)
    ensures CallsPlaced(refused, accepted + multiset{|returned|}, returned + [true])
  {
    var call: nat := |returned|;
    assert refused + (accepted + multiset{call}) == refused + accepted + multiset{call};
  }

  /** A refused call completes with false and joins one of the two refusal logs. */
  lemma RefusedLedger(b: Broker, m: Broker)
    requires Ledger(b)
    requires
      var call: nat := |b.returned|;
      && m.slots == b.slots && m.returned == b.returned + [false]
      && multiset(m.completions) == multiset(b.completions) + multiset{Completion(call, false)}
      && m.publishedMessages == b.publishedMessages && m.queuedPublishes == b.queuedPublishes
      && Refused(m) == Refused(b) + multiset{call}
      && m.publishRequests - |m.rejected| == b.publishRequests - |b.rejected|
    ensures Ledger(m)
  {
    hide CallsPlaced, CallsCompleted;
    RefusedPlaced(Refused(b), All(b.slots, Accepted), b.returned);
    RefusedCompleted(multiset(b.completions), All(b.slots, Published), Refused(b), |b.returned|);
  }

  lemma RefusedCompleted(done: multiset<Completion>, published: multiset<nat>, refused: multiset<nat>, call: nat)
    requires CallsCompleted(done, published, refused)
    ensures CallsCompleted(done + multiset{Completion(call, false)}, published, refused + multiset{call})
  {
  }

  lemma AcceptedLedger(c: Config, b: Broker)
    requires |b.loops| == LoopCount(c) && b.slots != [] && Ledger(b)
    requires LoopOf(c, b.publishCursor % |b.slots|).Some?
    ensures Ledger(AfterPublish(c, b))
  {
    var i := b.publishCursor % |b.slots|;
    var call: nat := |b.returned|;
    var m := AfterPublish(c, b);
    var t := m.slots[i];
    AllGrows(b.slots, i, t, Accepted, multiset{call});
    AllSame(b.slots, i, t, Published);
    AllSame(b.slots, i, t, Pending);
    AcceptedPlaced(Refused(b), All(b.slots, Accepted), b.returned);
  }

  lemma HeadLedger(c: Config, b: Broker, loop: nat, answers: seq<bool>)
    requires Ledger(b)
    ensures Ledger(AfterHead(c, b, loop, answers))
  {
    if loop < |b.loops| && b.loops[loop] != [] && b.loops[loop][0].slot < |b.slots| {
      var head := b.loops[loop][0];
      var subs := SubscriptionsOf(c, b.subscriptions, head.slot);
      if Returns(c, b.slots[head.slot], head.task, subs, answers) {
        var t := RunTask(c, b.slots[head.slot], head.task, b.started, subs, answers);
        RunTaskPublishes(c, b.slots[head.slot], head.task, b.started, subs, answers);
        SlotChangeLedger(b, AfterHead(c, b, loop, answers), head.slot, t);
      }
    }
  }

  /** A task changes one slot: its new publishes are completed and counted, and
      the deque counter moves with its deque. */
  lemma SlotChangeLedger(b: Broker, m: Broker, i: nat, t: SlotState)
    requires Ledger(b) && i < |b.slots| && m.slots == b.slots[i := t]
    requires m.turnedAway == b.turnedAway && m.rejected == b.rejected && m.returned == b.returned
    requires m.publishRequests == b.publishRequests && t.log.accepted == b.slots[i].log.accepted
    requires
      var s := b.slots[i];
      var news := NewlyPublished(s, t);
      && t.log.published == s.log.published + news
      && m.completions == b.completions + Succeeded(news)
      && m.publishedMessages == b.publishedMessages + |t.log.published| - |s.log.published|
      && m.queuedPublishes == b.queuedPublishes + |t.pendingPublishes| - |s.pendingPublishes|
    ensures Ledger(m)
  {
    hide CallsPlaced, CallsCompleted, All, NewlyPublished, Succeeded;
    var news := NewlyPublished(b.slots[i], t);
    AllSame(b.slots, i, t, Accepted);
    AllGrows(b.slots, i, t, Published, multiset(news));
    PublishedCompleted(multiset(b.completions), All(b.slots, Published), Refused(b), news);
    assert m.publishedMessages == |All(m.slots, Published)| by {
      assert |All(b.slots, Published) + multiset(news)| == |All(b.slots, Published)| + |news|;
    }
    PendingSizes(b.slots, i, t);
  }

  lemma PendingSizes(slots: seq<SlotState>, i: nat, t: SlotState)
    requires i < |slots|
    ensures |All(slots[i := t], Pending)| - |All(slots, Pending)|
         == |t.pendingPublishes| - |slots[i].pendingPublishes|
  {
    AllUpdate(slots, i, t, Pending);
    UnionSizes(All(slots[i := t], Pending), PileOf(slots[i], Pending),
               All(slots, Pending), PileOf(t, Pending));
  }

  lemma UnionSizes(a: multiset<nat>, b: multiset<nat>, x: multiset<nat>, y: multiset<nat>)
    requires a + b == x + y
    ensures |a| + |b| == |x| + |y|
  {
    assert |a + b| == |x + y|;
  }

  lemma PublishedCompleted(done: multiset<Completion>, published: multiset<nat>, refused: multiset<nat>,
                           news: seq<nat>)
    requires CallsCompleted(done, published, refused)
    ensures CallsCompleted(done + multiset(Succeeded(news)), published + multiset(news), refused)
  {
    forall x: nat
      ensures (done + multiset(Succeeded(news)))[Completion(x, true)] == (published + multiset(news))[x]
      ensures (done + multiset(Succeeded(news)))[Completion(x, false)] == refused[x]
    {
      SucceededCounts(news, x);
    }
  }

  lemma NewSlotsHoldNothing(count: nat, pile: Pile)
    ensures All(seq(count, _ => NEW_SLOT), pile) == multiset{}
  {
    UnionEmpty(Piles(seq(count, _ => NEW_SLOT), pile));
  }

  lemma StartLedger(c: Config, b: Broker)
    requires Ledger(b)
    requires |b.loops| == LoopCount(c)
    ensures Ledger(Step(c, b, StartCall))
  {
    var m := Step(c, b, StartCall);
    if b.slots == [] && !b.started {
      forall pile: Pile
        ensures All(m.slots, pile) == All(b.slots, pile)
      {
        NewSlotsHoldNothing(SlotCount(c), pile);
        UnionEmpty(Piles(b.slots, pile));
      }
      assert m == b.(started := true, slots := m.slots, loops := m.loops);
    }
  }

  lemma TimerLedger(c: Config, b: Broker, slot: nat)
    requires Ledger(b)
    requires |b.loops| == LoopCount(c)
    ensures Ledger(AfterTimer(c, b, slot))
  {
    hide Ledger;
    if slot < |b.slots| && b.slots[slot].log.timers > 0 {
      var s := b.slots[slot];
      var t := s.(log := s.log.(timers := s.log.timers - 1));
      assert NewlyPublished(s, t) == [] && Succeeded([]) == [];
      SlotChangeLedger(b, AfterTimer(c, b, slot), slot, t);
    }
  }

  lemma OneMore(a: seq<nat>, b: seq<nat>, x: nat)
    ensures multiset(a + [x]) + multiset(b) == multiset(a) + multiset(b) + multiset{x}
    ensures multiset(a) + multiset(b + [x]) == multiset(a) + multiset(b) + multiset{x}
  {
    assert multiset(a + [x]) == multiset(a) + multiset{x};
    assert multiset(b + [x]) == multiset(b) + multiset{x};
  }

  lemma TurnedAwayLedger(c: Config, b: Broker, sawStarted: bool)
    requires |b.loops| == LoopCount(c) && Ledger(b) && (!sawStarted || b.slots == [])
    ensures Ledger(Step(c, b, PublishCall(sawStarted)))
  {
    OneMore(b.turnedAway, b.rejected, |b.returned|);
    RefusedLedger(b, Step(c, b, PublishCall(sawStarted)));
  }

  lemma NoLoopLedger(c: Config, b: Broker)
    requires |b.loops| == LoopCount(c) && Ledger(b) && b.slots != []
    requires LoopOf(c, b.publishCursor % |b.slots|).None?
    ensures Ledger(AfterPublish(c, b))
  {
    OneMore(b.turnedAway, b.rejected, |b.returned|);
    RefusedLedger(b, AfterPublish(c, b));
  }

  /** Steps that touch neither slots nor logs nor counters. */
  lemma SameLedger(b: Broker, m: Broker)
    requires Ledger(b)
    requires m == b.(started := m.started, subscriptions := m.subscriptions, loops := m.loops)
    ensures Ledger(m)
  {
  }

  lemma CallLedger(c: Config, b: Broker, sawStarted: bool)
    requires |b.loops| == LoopCount(c) && Ledger(b)
    ensures Ledger(Step(c, b, PublishCall(sawStarted)))
  {
    hide Ledger;
    if !sawStarted || b.slots == [] {
      TurnedAwayLedger(c, b, sawStarted);
    } else if LoopOf(c, b.publishCursor % |b.slots|).None? {
      NoLoopLedger(c, b);
    } else {
      AcceptedLedger(c, b);
    }
  }

  lemma {:induction false} LedgerStep(c: Config, b: Broker, e: Event)
    requires WellFormed(c, b) && Ledger(b)
    ensures Ledger(Step(c, b, e))
  {
    hide Ledger;
    match e {
      case StartCall => StartLedger(c, b);
      case PublishCall(sawStarted) => CallLedger(c, b, sawStarted);
      case RunHead(loop, answers) => HeadLedger(c, b, loop, answers);
      case TimerFires(slot) => TimerLedger(c, b, slot);
      case _ =>
        var m := Step(c, b, e);
        assert m == b.(started := m.started, subscriptions := m.subscriptions, loops := m.loops);
        SameLedger(b, m);
    }
  }

  lemma {:induction false} LedgerRun(c: Config, b: Broker, es: seq<Event>)
    requires WellFormed(c, b) && Ledger(b)
    ensures Ledger(RunFrom(c, b, es))
    decreases |es|
  {
    if es != [] {
      LedgerStep(c, b, es[0]);
      StepWellFormed(c, b, es[0]);
      LedgerRun(c, Step(c, b, es[0]), es[1..]);
    }
  }

  lemma {:induction false} RunLedger(c: Config, es: seq<Event>)
    ensures Ledger(Run(c, es))
  {
    NewBrokerIsLocal(c, 0);
    LedgerRun(c, NewBroker(c), es);
  }

  // ----- main results ----------------------------------------------------------

  /** Every place a publish can be, over all slots. */
  ghost function AllPlaces(c: Config, b: Broker): multiset<nat>
    requires |b.loops| == LoopCount(c) && |b.slots| <= SlotCount(c)
  {
    Union(seq(|b.slots|, i requires 0 <= i < |b.slots| => Places(LocalOf(c, b, i))))
  }

  /** In every run, at every task boundary, each publish call made so far is in
      exactly one place: turned away, rejected for want of a loop, or on exactly
      one slot as published, waiting in the deque, waiting on the loop, or dropped
      by a stop. */
  lemma {:induction false} EveryCallInOnePlace(c: Config, es: seq<Event>, call: nat)
    ensures |Run(c, es).slots| <= SlotCount(c)
    ensures
      var b := Run(c, es);
      multiset(b.turnedAway)[call] + multiset(b.rejected)[call] + AllPlaces(c, b)[call]
        == if call < |b.returned| then 1 else 0
  {
    RunKeeps(c, es);
    RunLedger(c, es);
    PlacesAreAccepted(c, Run(c, es));
    PlacedOnce(Run(c, es), call);
  }

  lemma PlacesAreAccepted(c: Config, b: Broker)
    requires Keeps(c, b)
    ensures AllPlaces(c, b) == All(b.slots, Accepted)
  {
    var places := seq(|b.slots|, i requires 0 <= i < |b.slots| => Places(LocalOf(c, b, i)));
    forall i | 0 <= i < |b.slots|
      ensures places[i] == Piles(b.slots, Accepted)[i]
    {
      assert SlotKeeps(c, b, i);
    }
    assert places == Piles(b.slots, Accepted);
  }

  lemma PlacedOnce(b: Broker, call: nat)
    requires Ledger(b)
    ensures multiset(b.turnedAway)[call] + multiset(b.rejected)[call] + All(b.slots, Accepted)[call]
         == if call < |b.returned| then 1 else 0
  {
    UptoAt(|b.returned|, call);
    assert (Refused(b) + All(b.slots, Accepted))[call] == Upto(|b.returned|)[call];
  }

  /** A call that returned false has completed once, with false.  A call that
      returned true never completes with false; it completes with true exactly as
      often as it is published, which is at most once. */
  lemma {:induction false} CompletionsMatchReturns(c: Config, es: seq<Event>, call: nat)
    requires call < |Run(c, es).returned|
    ensures
      var b := Run(c, es);
      var done := multiset(b.completions);
      && done[Completion(call, false)] == (if b.returned[call] then 0 else 1)
      && done[Completion(call, true)] == All(b.slots, Published)[call]
      && done[Completion(call, true)] <= (if b.returned[call] then 1 else 0)
  {
    RunKeeps(c, es);
    RunLedger(c, es);
    var b := Run(c, es);
    PlacedOnce(b, call);
    PublishedAreAccepted(c, b, call);
  }

  lemma PublishedAreAccepted(c: Config, b: Broker, call: nat)
    requires Keeps(c, b)
    ensures All(b.slots, Published)[call] <= All(b.slots, Accepted)[call]
  {
    forall i | 0 <= i < |b.slots|
      ensures Piles(b.slots, Published)[i] <= Piles(b.slots, Accepted)[i]
    {
      assert SlotKeeps(c, b, i);
      assert Places(LocalOf(c, b, i)) == multiset(b.slots[i].log.accepted);
    }
    UnionMonotone(Piles(b.slots, Published), Piles(b.slots, Accepted));
  }

  lemma {:induction false} UnionMonotone(small: seq<multiset<nat>>, large: seq<multiset<nat>>)
    requires |small| == |large|
    requires forall i :: 0 <= i < |small| ==> small[i] <= large[i]
    ensures Union(small) <= Union(large)
  {
    if small != [] {
      UnionMonotone(small[..|small| - 1], large[..|large| - 1]);
    }
  }

  /** At every task boundary the counters are what their names say. */
  lemma {:induction false} CountersAreTotals(c: Config, es: seq<Event>)
    ensures
      var b := Run(c, es);
      && b.publishRequests + |b.turnedAway| == |b.returned|
      && b.publishedMessages == |All(b.slots, Published)|
      && b.queuedPublishes == |All(b.slots, Pending)|
  {
    RunLedger(c, es);
    var b := Run(c, es);
    UptoSize(|b.returned|);
    assert |Refused(b) + All(b.slots, Accepted)| == |b.returned|;
  }

  lemma {:induction false} UptoSize(n: nat)
    ensures |Upto(n)| == n
  {
    if n > 0 {
      UptoSize(n - 1);
    }
  }

  // ----- spreading over the slots -----------------------------------------------

  /** How many of the numbers below m leave remainder i. */
  ghost function Share(m: nat, n: nat, i: nat): nat
    requires n > 0
  {
    if m == 0 then 0 else Share(m - 1, n, i) + (if (m - 1) % n == i then 1 else 0)
  }

  lemma {:induction false} ShareClosed(m: nat, n: nat, i: nat)
    requires i < n
    ensures Share(m, n, i) == m / n + (if i < m % n then 1 else 0)
  {
    if m > 0 {
      ShareClosed(m - 1, n, i);
      NextDivMod(m - 1, n);
    }
  }

  /** The counted calls go round the slots; a slot without a loop accepts none. */
  ghost predicate Spread(c: Config, b: Broker) {
    && b.publishCursor == b.publishRequests
    && (forall i: nat :: i < |b.slots| ==>
          |b.slots[i].log.accepted|
            == if LoopOf(c, i).Some? then Share(b.publishCursor, SlotCount(c), i) else 0)
    && (b.slots == [] ==> b.publishCursor == 0)
  }

  lemma HeadSpread(c: Config, b: Broker, loop: nat, answers: seq<bool>)
    requires Spread(c, b)
    ensures Spread(c, AfterHead(c, b, loop, answers))
  {
    if loop < |b.loops| && b.loops[loop] != [] && b.loops[loop][0].slot < |b.slots| {
      var head := b.loops[loop][0];
      RunTaskPublishes(c, b.slots[head.slot], head.task, b.started,
                       SubscriptionsOf(c, b.subscriptions, head.slot), answers);
    }
  }

  lemma PublishSpread(c: Config, b: Broker)
    requires WellFormed(c, b) && Spread(c, b) && b.slots != []
    ensures Spread(c, AfterPublish(c, b))
  {
  }

  lemma TimerSpread(c: Config, b: Broker, slot: nat)
    requires WellFormed(c, b) && Spread(c, b)
    ensures Spread(c, AfterTimer(c, b, slot))
  {
  }

  lemma SpreadStep(c: Config, b: Broker, e: Event)
    requires WellFormed(c, b) && Spread(c, b)
    ensures Spread(c, Step(c, b, e))
  {
    hide AfterPublish, AfterTimer, AfterHead;
    match e
    case PublishCall(sawStarted) =>
      if b.slots != [] {
        PublishSpread(c, b);
      }
    case RunHead(loop, answers) => HeadSpread(c, b, loop, answers);
    case TimerFires(slot) => TimerSpread(c, b, slot);
    case _ =>
  }

  lemma {:induction false} SpreadRun(c: Config, b: Broker, es: seq<Event>)
    requires WellFormed(c, b) && Spread(c, b)
    ensures WellFormed(c, RunFrom(c, b, es)) && Spread(c, RunFrom(c, b, es))
    decreases |es|
  {
    if es != [] {
      SpreadStep(c, b, es[0]);
      StepWellFormed(c, b, es[0]);
      SpreadRun(c, Step(c, b, es[0]), es[1..]);
    }
  }

  /** In every run, restarts included, the counted calls are dealt to the slots in
      rotation: a slot with a loop has accepted the quotient of the calls by the
      slots, and one more if the rotation has passed it since. */
  lemma {:induction false} CallsAreDealtInRotation(c: Config, es: seq<Event>, i: nat)
    requires i < |Run(c, es).slots|
    ensures
      var b := Run(c, es);
      var m, n := b.publishRequests, |b.slots|;
      |b.slots[i].log.accepted|
        == if c.loopRuns(i % Max(1, c.ioThreads)) then m / n + (if i < m % n then 1 else 0) else 0
  {
    NewBrokerIsLocal(c, 0);
    SpreadRun(c, NewBroker(c), es);
    ShareClosed(Run(c, es).publishRequests, SlotCount(c), i);
  }

  // ----- call order --------------------------------------------------------------

  ghost predicate AllInOrder(c: Config, b: Broker)
    requires |b.loops| == LoopCount(c)
  {
    forall i: nat :: i < SlotCount(c) ==> InOrder(LocalOf(c, b, i))
  }

  /** The step runs a publish task on a ready slot whose deque is not empty. */
  predicate StepOvertakes(b: Broker, e: Event) {
    && e.RunHead? && e.loop < |b.loops| && b.loops[e.loop] != []
    && var head := b.loops[e.loop][0];
       && head.task.Publish? && head.slot < |b.slots|
       && b.slots[head.slot].ready && b.slots[head.slot].publisherChannels != []
       && b.slots[head.slot].pendingPublishes != []
  }

  lemma SlotOrderExactly(c: Config, b: Broker, e: Event, i: nat)
    requires Keeps(c, b) && i < SlotCount(c) && InOrder(LocalOf(c, b, i))
    ensures InOrder(LocalOf(c, Step(c, b, e), i))
       <==> !Overtakes(LocalOf(c, b, i), LocalEventOf(c, b, e, i))
  {
    assert SlotKeeps(c, b, i);
    StepIsLocal(c, b, e, i);
    CallsGrow(c, b, e, i);
    OrderExactly(c, LocalOf(c, b, i), LocalEventOf(c, b, e, i));
  }

  lemma OvertakesAtHead(c: Config, b: Broker, e: Event, i: nat)
    requires WellFormed(c, b) && i < SlotCount(c)
    ensures Overtakes(LocalOf(c, b, i), LocalEventOf(c, b, e, i))
       <==> StepOvertakes(b, e) && b.loops[e.loop][0].slot == i
  {
    if e.RunHead? && e.loop < |b.loops| && b.loops[e.loop] != [] {
      var head := b.loops[e.loop][0];
      assert head.slot < |b.slots| && LoopOf(c, head.slot) == Some(e.loop);
      PopReaches(c, b.loops, e.loop, i);
    }
  }

  lemma StepOrderExactly(c: Config, b: Broker, e: Event)
    requires Keeps(c, b) && AllInOrder(c, b)
    ensures AllInOrder(c, Step(c, b, e)) <==> !StepOvertakes(b, e)
  {
    forall i: nat | i < SlotCount(c)
      ensures InOrder(LocalOf(c, Step(c, b, e), i))
         <==> !(StepOvertakes(b, e) && b.loops[e.loop][0].slot == i)
    {
      SlotOrderExactly(c, b, e, i);
      OvertakesAtHead(c, b, e, i);
    }
    if StepOvertakes(b, e) {
      var i := b.loops[e.loop][0].slot;
      assert i < SlotCount(c) && !InOrder(LocalOf(c, Step(c, b, e), i));
    }
  }

  /** Published, deque and loop queue of every slot stay in call order all along. */
  ghost predicate OrderedThroughout(c: Config, b: Broker, es: seq<Event>)
    requires |b.loops| == LoopCount(c)
    decreases |es|
  {
    AllInOrder(c, b) && (es != [] ==> OrderedThroughout(c, Step(c, b, es[0]), es[1..]))
  }

  ghost predicate NeverOvertakes(c: Config, b: Broker, es: seq<Event>)
    requires |b.loops| == LoopCount(c)
    decreases |es|
  {
    es != [] ==> !StepOvertakes(b, es[0]) && NeverOvertakes(c, Step(c, b, es[0]), es[1..])
  }

  lemma {:induction false} OrderRun(c: Config, b: Broker, es: seq<Event>)
    requires Keeps(c, b) && AllInOrder(c, b)
    ensures OrderedThroughout(c, b, es) <==> NeverOvertakes(c, b, es)
    decreases |es|
  {
    if es != [] {
      StepOrderExactly(c, b, es[0]);
      KeepsStep(c, b, es[0]);
      if !StepOvertakes(b, es[0]) {
        OrderRun(c, Step(c, b, es[0]), es[1..]);
      }
    }
  }

  /** A run, whatever its failures, stops and restarts, keeps every slot in call
      order from beginning to end exactly when no publish task ever runs on a ready
      slot that still has publishes in its deque. */
  lemma {:induction false} OrderedExactlyWhenNeverOvertaking(c: Config, es: seq<Event>)
    ensures OrderedThroughout(c, NewBroker(c), es) <==> NeverOvertakes(c, NewBroker(c), es)
  {
    NewBrokerKeeps(c);
    forall i: nat | i < SlotCount(c)
      ensures InOrder(LocalOf(c, NewBroker(c), i))
    {
      NewBrokerIsLocal(c, i);
    }
    OrderRun(c, NewBroker(c), es);
  }

  lemma ReadyRound(c: Config)
    ensures
      var up := RunLocal(c, NewLocal(true, []), Round(LStart) + Round(LReady));
      && up.queue == [] && up.hasLoop && up.slot.ready && up.slot.publisherChannels != []
      && up.slot.pendingPublishes == [] && up.slot.log.published == []
  {
    hide RunLocal;
    StartRound(c, NewLocal(true, []));
    var connected := AfterRound(c, NewLocal(true, []), LStart);
    assert LocalStep(c, connected, LReady).queue == [Ready];
    FlushKeepsTimers(c, connected.slot, [], []);
    ReadyTaskPublishes(c, connected.slot, [], []);
    RunTaskSound(c, connected.slot, Ready, true, [], []);
    RoundRuns(c, NewLocal(true, []), LStart, Round(LReady));
    LastRound(c, connected, LReady);
  }

  /** Two publishes are posted; the channel refuses the first and takes the second. */
  function RefuseThenTake(): seq<LocalEvent> { [LPost(0), LPost(1), LRun([false]), LRun([true])] }

  lemma FirstWaits(c: Config, up: Local)
    requires up.queue == [] && up.hasLoop && up.slot.ready && up.slot.publisherChannels != []
    requires up.slot.pendingPublishes == [] && up.slot.log.published == []
    ensures
      var end := LocalStep(c, LocalStep(c, LocalStep(c, LocalStep(c, up, LPost(0)), LPost(1)),
                                        LRun([false])), LRun([true]));
      end.slot.ready && end.slot.log.published == [1] && end.slot.pendingPublishes == [0]
  {
    var both := LocalStep(c, LocalStep(c, up, LPost(0)), LPost(1));
    assert both.queue == [Publish(0), Publish(1)];
    var refused := LocalStep(c, both, LRun([false]));
    assert refused.queue == [Publish(1)] && refused.slot.pendingPublishes == [0];
  }

  lemma FourSteps(c: Config, l: Local, e0: LocalEvent, e1: LocalEvent, e2: LocalEvent, e3: LocalEvent)
    ensures RunLocal(c, l, [e0, e1, e2, e3])
         == LocalStep(c, LocalStep(c, LocalStep(c, LocalStep(c, l, e0), e1), e2), e3)
  {
    hide LocalStep;
    var l1 := LocalStep(c, l, e0);
    var l2 := LocalStep(c, l1, e1);
    var l3 := LocalStep(c, l2, e2);
    assert [e3][1..] == [] && RunLocal(c, l3, [e3]) == LocalStep(c, l3, e3);
    assert [e2, e3][1..] == [e3] && RunLocal(c, l2, [e2, e3]) == RunLocal(c, l3, [e3]);
    assert [e1, e2, e3][1..] == [e2, e3] && RunLocal(c, l1, [e1, e2, e3]) == RunLocal(c, l2, [e2, e3]);
    assert [e0, e1, e2, e3][1..] == [e1, e2, e3];
  }

  lemma RefusalEvents()
    ensures BrokerEvents((Round(LStart) + Round(LReady)) + RefuseThenTake())
         == [StartCall, RunHead(0, []), ReportsReady(0), RunHead(0, []),
             PublishCall(true), PublishCall(true), RunHead(0, [false]), RunHead(0, [true])]
  {
    BrokerEventsSplit(Round(LStart) + Round(LReady), RefuseThenTake());
    BrokerEventsSplit(Round(LStart), Round(LReady));
    RoundOfEvents(LStart);
    RoundOfEvents(LReady);
    assert BrokerEvents(RefuseThenTake())
        == [PublishCall(true), PublishCall(true), RunHead(0, [false]), RunHead(0, [true])] by {
      var es := RefuseThenTake();
      assert es[1..][1..] == es[2..] && es[2..][1..] == es[3..] && es[3..][1..] == [];
    }
  }

  lemma RefusalNumbered()
    ensures NumberedFrom((Round(LStart) + Round(LReady)) + RefuseThenTake(), 0)
  {
    var es := (Round(LStart) + Round(LReady)) + RefuseThenTake();
    assert forall k :: 0 <= k < 8 ==> es[k..][1..] == es[k + 1..];
    assert NumberedFrom(es[6..], 2);
    assert NumberedFrom(es[4..], 0);
    assert NumberedFrom(es[2..], 0);
    assert es[0..] == es;
  }

  /** Call order can be lost without any failure: a publish that a channel refuses
      outside a flush waits in the deque while the next one is taken. */
  lemma RefusedPublishIsOvertaken(c: Config)
    requires SlotCount(c) == 1 && LoopOf(c, 0) == Some(0)
    ensures
      var b := Run(c, [StartCall, RunHead(0, []), ReportsReady(0), RunHead(0, []),
                       PublishCall(true), PublishCall(true), RunHead(0, [false]), RunHead(0, [true])]);
      && |b.slots| == 1 && b.slots[0].ready
      && b.slots[0].log.published == [1] && b.slots[0].pendingPublishes == [0]
  {
    hide RunLocal, LocalStep;
    var es := (Round(LStart) + Round(LReady)) + RefuseThenTake();
    var up := RunLocal(c, NewLocal(true, []), Round(LStart) + Round(LReady));
    ReadyRound(c);
    FirstWaits(c, up);
    FourSteps(c, up, LPost(0), LPost(1), LRun([false]), LRun([true]));
    RunLocalSplit(c, NewLocal(true, []), Round(LStart) + Round(LReady), RefuseThenTake());
    RefusalNumbered();
    SoloRun(c, es);
    RefusalEvents();
  }

  /** The event runs a ready or a stop task of the slot, and the task returns. */
  predicate DrainsDeque(c: Config, l: Local, e: LocalEvent) {
    && e.LRun? && l.queue != [] && (l.queue[0] == Ready || l.queue[0] == Stop)
    && Returns(c, l.slot, l.queue[0], l.subs, e.answers)
  }

  lemma StillWaits(c: Config, l: Local, e: LocalEvent, call: nat)
    requires call in l.slot.pendingPublishes
    requires !(e.LRun? && l.queue != [] && (l.queue[0] == Ready || l.queue[0] == Stop))
    ensures call in LocalStep(c, l, e).slot.pendingPublishes
  {
    hide ReadyTask, StopTask, Returns;
  }

  lemma LeavesExactly(c: Config, l: Local, e: LocalEvent, call: nat)
    requires call in l.slot.pendingPublishes
    ensures call !in LocalStep(c, l, e).slot.pendingPublishes <==> DrainsDeque(c, l, e)
  {
    hide ReadyTask;
    if e.LRun? && l.queue != [] && l.queue[0] == Ready {
      ReadyTaskPublishes(c, l.slot, l.subs, e.answers);
    } else if e.LRun? && l.queue != [] && l.queue[0] == Stop {
    } else {
      StillWaits(c, l, e, call);
    }
  }

  /** The step runs a ready or a stop task of slot i to its end. */
  predicate StepDrains(c: Config, b: Broker, e: Event, i: nat) {
    && e.RunHead? && e.loop < |b.loops| && b.loops[e.loop] != []
    && var head := b.loops[e.loop][0];
       && head.slot == i < |b.slots| && (head.task == Ready || head.task == Stop)
       && Returns(c, b.slots[i], head.task, SubscriptionsOf(c, b.subscriptions, i), e.answers)
  }

  lemma DrainsAtHead(c: Config, b: Broker, e: Event, i: nat)
    requires WellFormed(c, b) && i < |b.slots|
    ensures DrainsDeque(c, LocalOf(c, b, i), LocalEventOf(c, b, e, i)) <==> StepDrains(c, b, e, i)
  {
    hide Returns, SubscriptionsOf, QueueOf;
    if e.RunHead? && e.loop < |b.loops| && b.loops[e.loop] != [] {
      var head := b.loops[e.loop][0];
      assert head.slot < |b.slots| && LoopOf(c, head.slot) == Some(e.loop);
      PopReaches(c, b.loops, e.loop, i);
      assert LocalOf(c, b, i).queue == QueueOf(c, b.loops, i);
    }
  }

  /** The call is in the deque of slot i all along. */
  ghost predicate WaitsThroughout(c: Config, b: Broker, es: seq<Event>, i: nat, call: nat)
    requires |b.loops| == LoopCount(c)
    decreases |es|
  {
    && i < |b.slots| && call in b.slots[i].pendingPublishes
    && (es != [] ==> WaitsThroughout(c, Step(c, b, es[0]), es[1..], i, call))
  }

  ghost predicate NeverDrained(c: Config, b: Broker, es: seq<Event>, i: nat)
    requires |b.loops| == LoopCount(c)
    decreases |es|
  {
    es != [] ==> !StepDrains(c, b, es[0], i) && NeverDrained(c, Step(c, b, es[0]), es[1..], i)
  }

  lemma {:induction false} WaitsExactly(c: Config, b: Broker, es: seq<Event>, i: nat, call: nat)
    requires WellFormed(c, b) && i < |b.slots| && call in b.slots[i].pendingPublishes
    ensures WaitsThroughout(c, b, es, i, call) <==> NeverDrained(c, b, es, i)
    decreases |es|
  {
    hide Step, StepDrains, LocalStep;
    if es != [] {
      var d := Step(c, b, es[0]);
      StepWellFormed(c, b, es[0]);
      StepIsLocal(c, b, es[0], i);
      SlotsRemain(c, b, es[0]);
      LeavesExactly(c, LocalOf(c, b, i), LocalEventOf(c, b, es[0], i), call);
      DrainsAtHead(c, b, es[0], i);
      if call in d.slots[i].pendingPublishes {
        WaitsExactly(c, d, es[1..], i, call);
      }
    }
  }

  /** In every run, a publish in the deque of a slot waits there exactly as long as no
      ready task and no stop task of the slot runs to its end, however long the slot
      goes on publishing others; the first that does takes it out. */
  lemma {:induction false} DequeWaitsForReadyOrStop(c: Config, before: seq<Event>, es: seq<Event>, i: nat, call: nat)
    requires i < |Run(c, before).slots| && call in Run(c, before).slots[i].pendingPublishes
    ensures WaitsThroughout(c, Run(c, before), es, i, call) <==> NeverDrained(c, Run(c, before), es, i)
  {
    RunKeeps(c, before);
    WaitsExactly(c, Run(c, before), es, i, call);
  }

  /** A channel refuses a publish that comes straight from the loop. */
  predicate RefusesDirectly(b: Broker, e: Event) {
    && e.RunHead? && e.loop < |b.loops| && b.loops[e.loop] != []
    && var head := b.loops[e.loop][0];
       && head.task.Publish? && head.slot < |b.slots|
       && b.slots[head.slot].ready && b.slots[head.slot].publisherChannels != []
       && (e.answers == [] || !e.answers[0])
  }

  ghost predicate RefusesOnlyInFlush(c: Config, b: Broker, es: seq<Event>)
    requires |b.loops| == LoopCount(c)
    decreases |es|
  {
    es != [] ==> !RefusesDirectly(b, es[0]) && RefusesOnlyInFlush(c, Step(c, b, es[0]), es[1..])
  }

  ghost predicate ReadyMeansFlushed(b: Broker) {
    forall i :: 0 <= i < |b.slots| && b.slots[i].ready ==> b.slots[i].pendingPublishes == []
  }

  lemma TaskLeavesFlushed(c: Config, s: SlotState, task: Task, started: bool, subs: seq<Subscription>,
                          answers: seq<bool>)
    requires s.ready ==> s.pendingPublishes == []
    requires SlotSound(c, s) && Returns(c, s, task, subs, answers)
    requires task.Publish? && s.ready ==> answers != [] && answers[0]
    ensures
      var t := RunTask(c, s, task, started, subs, answers);
      t.ready ==> t.pendingPublishes == []
  {
    if task == Ready {
      ReadyTaskPublishes(c, s, subs, answers);
    }
  }

  lemma FlushedStep(c: Config, b: Broker, e: Event)
    requires Keeps(c, b) && ReadyMeansFlushed(b) && !RefusesDirectly(b, e)
    ensures ReadyMeansFlushed(Step(c, b, e))
  {
    if e.RunHead? && e.loop < |b.loops| && b.loops[e.loop] != [] {
      var head := b.loops[e.loop][0];
      assert head.slot < |b.slots|;
      assert SlotKeeps(c, b, head.slot);
      var subs := SubscriptionsOf(c, b.subscriptions, head.slot);
      if Returns(c, b.slots[head.slot], head.task, subs, e.answers) {
        TaskLeavesFlushed(c, b.slots[head.slot], head.task, b.started, subs, e.answers);
      }
    }
  }

  lemma {:induction false} FlushedRun(c: Config, b: Broker, es: seq<Event>)
    requires Keeps(c, b) && ReadyMeansFlushed(b) && RefusesOnlyInFlush(c, b, es)
    ensures NeverOvertakes(c, b, es)
    decreases |es|
  {
    if es != [] {
      FlushedStep(c, b, es[0]);
      KeepsStep(c, b, es[0]);
      FlushedRun(c, Step(c, b, es[0]), es[1..]);
    }
  }

  lemma {:induction false} OrderedAtEnd(c: Config, b: Broker, es: seq<Event>)
    requires |b.loops| == LoopCount(c) && OrderedThroughout(c, b, es)
    ensures AllInOrder(c, RunFrom(c, b, es))
    decreases |es|
  {
    if es != [] {
      OrderedAtEnd(c, Step(c, b, es[0]), es[1..]);
    }
  }

  /** In every run in which channels refuse only during a flush, each slot's
      published sequence, then its deque, then the publishes still on its loop, are
      the accepted calls in call order without the ones a stop dropped: order
      survives any number of reconnects. */
  lemma {:induction false} OrderSurvivesReconnects(c: Config, es: seq<Event>, i: nat)
    requires RefusesOnlyInFlush(c, NewBroker(c), es) && i < |Run(c, es).slots|
    ensures
      var b := Run(c, es);
      var s := b.slots[i];
      s.log.published + s.pendingPublishes + QueuedPublishes(QueueOf(c, b.loops, i))
        == Without(s.log.accepted, s.log.dropped)
  {
    NewBrokerKeeps(c);
    FlushedRun(c, NewBroker(c), es);
    OrderedExactlyWhenNeverOvertaking(c, es);
    OrderedAtEnd(c, NewBroker(c), es);
    RunKeeps(c, es);
    assert InOrder(LocalOf(c, Run(c, es), i));
  }
}
