/** One IBKR connection slot and the snapshot requests it tracks
    (src/ibkr/connection_slot.cc).  Each critical section is one atomic step;
    requests, ticks, errors, closures and the sections of connect and disconnect
    may come in any order.  Callbacks that the program invokes after leaving a
    section are in hand until they are delivered. */
module RequestTracker {
  import opened Basics

  datatype TickField = Bid | Ask | Last | OtherField

  datatype Tick = Tick(field: TickField, price: real)

  /** An entry of the pending map; `request` and `serial` are history: the number
      of the request call, and how many ids had been handed out since connect. */
  datatype Pending = Pending(
    symbol: string,
    bid: real, ask: real, last: real, volume: int,
    hasBid: bool, hasAsk: bool, hasLast: bool, hasVolume: bool,
    request: nat, serial: nat)

  /** The JSON reply; None is JSON null. */
  datatype Reply = Reply(symbol: string, bid: Option<real>, ask: Option<real>, mid: Option<real>,
                         last: Option<real>, volume: Option<int>)

  datatype Outcome = Success(reply: Reply) | Failure(message: string)

  datatype Callback = Callback(request: nat, outcome: Outcome)

  /** Where the thread that connects and disconnects is; calls are serialised by
      the pool's lock.  `redial` tells a disconnect made by connect. */
  datatype Caller =
    | Idle
    | Stopping(redial: bool)     // flags cleared, reader not yet told to stop
    | Joining(redial: bool)      // waiting for the reader thread
    | Dialing                    // about to mark the slot as connecting
    | Opening                    // socket being opened
    | Reading                    // connected, reader flag not yet raised

  datatype Tracker = Tracker(
    connected: bool,
    connecting: bool,
    readerRunning: bool,
    reqIdStart: int,
    reqIdEnd: int,
    nextReqId: int,
    pending: map<int, Pending>,
    caller: Caller,
    // history
    idOf: seq<int>,              // id given to each request call, 0 if refused
    issued: nat,                 // ids handed out since connect
    hand: seq<Callback>,         // to be invoked
    fired: seq<Callback>,        // invoked
    cancelled: seq<nat>,
    displaced: seq<nat>)

  datatype Event =
    | Request(symbol: string)
    | Cancel(id: int)
    | TickPrice(id: int, tick: Tick)
    | SnapshotEnd(id: int)
    | Error(id: int, message: string)
    | Deliver(k: nat)
    | ConnectionClosed(order: seq<int>)
    | ConnectCall
    | DisconnectCall
    | StopReader
    | FinishDisconnect(order: seq<int>)
    | MarkConnecting
    | OpenFails
    | OpenSucceeds
    | ReaderStarts

  function SetRange(s: Tracker, start: int, end: int): Tracker {
    s.(reqIdStart := start, reqIdEnd := end,
       nextReqId := if s.nextReqId < start || s.nextReqId > end then start else s.nextReqId)
  }

  /** A slot as constructed, then given its id range by the pool. */
  function NewTracker(start: int, end: int): Tracker {
    SetRange(Tracker(false, false, false, 1, 999999, 0, map[], Idle, [], 0, [], [], [], []), start, end)
  }

  // ----- the sections -----------------------------------------------------------

  function NewPending(symbol: string, request: nat, serial: nat): Pending {
    Pending(symbol, 0.0, 0.0, 0.0, 0, false, false, false, false, request, serial)
  }

  function AfterRequest(s: Tracker, symbol: string): Tracker {
    var request: nat := |s.idOf|;
    if !s.connected then
      s.(idOf := s.idOf + [0], fired := s.fired + [Callback(request, Failure("Slot not connected"))])
    else
      var id := s.nextReqId;
      s.(nextReqId := if id + 1 > s.reqIdEnd then s.reqIdStart else id + 1,
         pending := s.pending[id := NewPending(symbol, request, s.issued)],
         idOf := s.idOf + [id],
         issued := s.issued + 1,
         displaced := s.displaced + (if id in s.pending then [s.pending[id].request] else []))
  }

  function AfterCancel(s: Tracker, id: int): Tracker {
    s.(pending := s.pending - {id},
       cancelled := s.cancelled + (if id in s.pending then [s.pending[id].request] else []))
  }

  function ApplyTick(p: Pending, t: Tick): Pending {
    if t.price < 0.0 then p
    else
      match t.field
      case Bid => p.(bid := t.price, hasBid := true)
      case Ask => p.(ask := t.price, hasAsk := true)
      case Last => p.(last := t.price, hasLast := true)
      case OtherField => p
  }

  function AfterTick(s: Tracker, id: int, t: Tick): Tracker {
    if id !in s.pending then s else s.(pending := s.pending[id := ApplyTick(s.pending[id], t)])
  }

  function BuildReply(p: Pending): Reply {
    Reply(p.symbol,
          if p.hasBid then Some(p.bid) else None,
          if p.hasAsk then Some(p.ask) else None,
          if p.hasBid && p.hasAsk then Some((p.bid + p.ask) * 0.5) else None,
          if p.hasLast then Some(p.last) else None,
          if p.hasVolume then Some(p.volume) else None)
  }

  function SnapshotOutcome(p: Pending): Outcome {
    if !p.hasBid && !p.hasAsk && !p.hasLast then Failure("No market data returned for symbol")
    else Success(BuildReply(p))
  }

  function TakeInHand(s: Tracker, id: int, outcome: Outcome): Tracker
    requires id in s.pending
  {
    s.(pending := s.pending - {id}, hand := s.hand + [Callback(s.pending[id].request, outcome)])
  }

  function AfterDeliver(s: Tracker, k: nat): Tracker {
    if k >= |s.hand| then s
    else s.(hand := s.hand[..k] + s.hand[k + 1..], fired := s.fired + [s.hand[k]])
  }

  /** One error callback per pending request, in the order the map yields them. */
  function DrainCallbacks(pending: map<int, Pending>, order: seq<int>): seq<Callback> {
    if order == [] then []
    else (if order[0] in pending
          then [Callback(pending[order[0]].request, Failure("Slot disconnected"))] else [])
         + DrainCallbacks(pending, order[1..])
  }

  ghost predicate Distinct(order: seq<int>) {
    forall i, j :: 0 <= i < j < |order| ==> order[i] != order[j]
  }

  /** A way to go through the whole pending map once. */
  ghost predicate Enumerates(order: seq<int>, pending: map<int, Pending>) {
    Distinct(order) && (forall id :: id in order <==> id in pending)
  }

  function Drain(s: Tracker, order: seq<int>): Tracker {
    s.(pending := map[], fired := s.fired + DrainCallbacks(s.pending, order))
  }

  function BeginDisconnect(s: Tracker, redial: bool): Tracker {
    if s.caller != Idle then s
    else if !s.connected && !s.connecting && !s.readerRunning then
      s.(caller := if redial then Dialing else Idle)
    else s.(connected := false, connecting := false, caller := Stopping(redial))
  }

  ghost function Step(s: Tracker, e: Event): Tracker {
    match e
    case Request(symbol) => AfterRequest(s, symbol)
    case Cancel(id) => AfterCancel(s, id)
    case TickPrice(id, t) => AfterTick(s, id, t)
    case SnapshotEnd(id) =>
      if id !in s.pending then s else TakeInHand(s, id, SnapshotOutcome(s.pending[id]))
    case Error(id, message) =>
      if id <= 0 || id !in s.pending then s else TakeInHand(s, id, Failure(message))
    case Deliver(k) => AfterDeliver(s, k)
    case ConnectionClosed(order) =>
      if !Enumerates(order, s.pending) then s
      else Drain(s.(connected := false, readerRunning := false), order)
    case ConnectCall => BeginDisconnect(s, true)
    case DisconnectCall => BeginDisconnect(s, false)
    case StopReader =>
      if !s.caller.Stopping? then s else s.(readerRunning := false, caller := Joining(s.caller.redial))
    case FinishDisconnect(order) =>
      if !s.caller.Joining? || !Enumerates(order, s.pending) then s
      else Drain(s.(caller := if s.caller.redial then Dialing else Idle), order)
    case MarkConnecting => if s.caller != Dialing then s else s.(connecting := true, caller := Opening)
    case OpenFails => if s.caller != Opening then s else s.(connecting := false, caller := Idle)
    case OpenSucceeds =>
      if s.caller != Opening then s
      else s.(connected := true, connecting := false, nextReqId := s.reqIdStart, issued := 0,
              caller := Reading)
    case ReaderStarts => if s.caller != Reading then s else s.(readerRunning := true, caller := Idle)
  }

  /** Events oldest first. */
  ghost function RunFrom(s: Tracker, es: seq<Event>): Tracker
    decreases |es|
  {
    if es == [] then s else Step(RunFrom(s, es[..|es| - 1]), es[|es| - 1])
  }

  ghost function Run(start: int, end: int, es: seq<Event>): Tracker {
    RunFrom(NewTracker(start, end), es)
  }

  // ----- exactly one fate ---------------------------------------------------------

  ghost function Tags(callbacks: seq<Callback>): multiset<nat> {
    if callbacks == [] then multiset{}
    else Tags(callbacks[..|callbacks| - 1]) + multiset{callbacks[|callbacks| - 1].request}
  }

  lemma TagsOne(a: seq<Callback>, c: Callback)
    ensures Tags(a + [c]) == Tags(a) + multiset{c.request}
  {
    assert (a + [c])[..|a|] == a;
  }

  lemma {:induction false} TagsAppend(a: seq<Callback>, b: seq<Callback>)
    ensures Tags(a + b) == Tags(a) + Tags(b)
    decreases |b|
  {
    if b == [] {
      assert a + b == a;
    } else {
      hide Tags;
      var front, last := b[..|b| - 1], b[|b| - 1];
      TagsAppend(a, front);
      TagsOne(a + front, last);
      TagsOne(front, last);
      SplitLast(a, b);
      PlusAssociates(Tags(a), Tags(front), multiset{last.request});
    }
  }

  /** The request is waiting in the pending map. */
  predicate Waiting(s: Tracker, request: nat) {
    && request < |s.idOf|
    && s.idOf[request] in s.pending
    && s.pending[s.idOf[request]].request == request
  }

  /** In hand, called back, cancelled or displaced, with multiplicity. */
  ghost function Settled(s: Tracker): multiset<nat> {
    Tags(s.hand) + Tags(s.fired) + multiset(s.cancelled) + multiset(s.displaced)
  }

  /** Every request so far has one fate; no other has any. */
  ghost predicate OneFate(s: Tracker, request: nat) {
    Settled(s)[request] + (if Waiting(s, request) then 1 else 0)
      == if request < |s.idOf| then 1 else 0
  }

  ghost predicate Named(s: Tracker) {
    forall id :: id in s.pending ==>
      s.pending[id].request < |s.idOf| && s.idOf[s.pending[id].request] == id
  }

  ghost predicate Accounted(s: Tracker) {
    Named(s) && forall request: nat :: OneFate(s, request)
  }

  /** A request call that adds no entry. */
  lemma CallAccounted(s: Tracker, t: Tracker, id: int)
    requires Accounted(s) && t.idOf == s.idOf + [id] && t.pending == s.pending
    requires Settled(t) == Settled(s) + multiset{|s.idOf|}
    ensures Accounted(t)
  {
    hide Settled;
    forall request: nat
      ensures OneFate(t, request)
    {
      assert OneFate(s, request);
    }
  }

  lemma RefusedAccounted(s: Tracker, symbol: string)
    requires Accounted(s) && !s.connected
    ensures Accounted(AfterRequest(s, symbol))
  {
    var t := AfterRequest(s, symbol);
    var call: nat := |s.idOf|;
    TagsOne(s.fired, Callback(call, Failure("Slot not connected")));
    assert Settled(t) == Settled(s) + multiset{call};
    CallAccounted(s, t, 0);
  }

  /** A request call that puts an entry in the map and settles the one it displaces. */
  lemma EntryAccounted(s: Tracker, t: Tracker, id: int)
    requires Accounted(s) && t.idOf == s.idOf + [id]
    requires id in t.pending && t.pending == s.pending[id := t.pending[id]]
    requires t.pending[id].request == |s.idOf|
    requires Settled(t) == Settled(s) + (if id in s.pending then multiset{s.pending[id].request} else multiset{})
    ensures Accounted(t)
  {
    hide Settled;
    forall request: nat
      ensures OneFate(t, request)
    {
      assert OneFate(s, request);
      assert Waiting(t, request) <==>
        request == |s.idOf| || (Waiting(s, request) && s.idOf[request] != id);
    }
  }

  lemma IssuedAccounted(s: Tracker, symbol: string)
    requires Accounted(s) && s.connected
    ensures Accounted(AfterRequest(s, symbol))
  {
    hide Accounted;
    var t := AfterRequest(s, symbol);
    var id := s.nextReqId;
    if id in s.pending {
      assert multiset(t.displaced) == multiset(s.displaced) + multiset{s.pending[id].request};
    } else {
      assert t.displaced == s.displaced;
    }
    EntryAccounted(s, t, id);
  }

  lemma RemovalAccounted(s: Tracker, t: Tracker, id: int)
    requires Accounted(s) && id in s.pending
    requires t.pending == s.pending - {id} && t.idOf == s.idOf
    requires Settled(t) == Settled(s) + multiset{s.pending[id].request}
    ensures Accounted(t)
  {
    forall request: nat
      ensures OneFate(t, request)
    {
      assert OneFate(s, request);
    }
  }

  lemma CancelAccounted(s: Tracker, id: int)
    requires Accounted(s)
    ensures Accounted(AfterCancel(s, id))
  {
    var t := AfterCancel(s, id);
    if id in s.pending {
      assert multiset(t.cancelled) == multiset(s.cancelled) + multiset{s.pending[id].request};
      RemovalAccounted(s, t, id);
    } else {
      assert t == s;
    }
  }

  lemma TakeAccounted(s: Tracker, id: int, outcome: Outcome)
    requires Accounted(s) && id in s.pending
    ensures Accounted(TakeInHand(s, id, outcome))
  {
    TagsOne(s.hand, Callback(s.pending[id].request, outcome));
    RemovalAccounted(s, TakeInHand(s, id, outcome), id);
  }

  lemma DeliverSettled(hand: seq<Callback>, fired: seq<Callback>, k: nat)
    requires k < |hand|
    ensures Tags(hand[..k] + hand[k + 1..]) + Tags(fired + [hand[k]]) == Tags(hand) + Tags(fired)
  {
    var front, one, back := hand[..k], hand[k], hand[k + 1..];
    assert hand == (front + [one]) + back;
    TagsOne(fired, one);
    TagsAppend(front, back);
    TagsAppend(front + [one], back);
    TagsOne(front, one);
  }

  lemma DeliverAccounted(s: Tracker, k: nat)
    requires Accounted(s) && k < |s.hand|
    ensures Accounted(AfterDeliver(s, k))
  {
    var t := AfterDeliver(s, k);
    DeliverSettled(s.hand, s.fired, k);
    assert Settled(t) == Tags(t.hand) + Tags(t.fired) + multiset(t.cancelled) + multiset(t.displaced);
    SameFates(s, t);
  }

  lemma SameFates(s: Tracker, t: Tracker)
    requires Accounted(s) && Settled(t) == Settled(s) && t.idOf == s.idOf
    requires forall id :: id in t.pending <==> id in s.pending
    requires forall id :: id in s.pending ==> t.pending[id].request == s.pending[id].request
    ensures Accounted(t)
  {
    forall request: nat
      ensures OneFate(t, request)
    {
      assert OneFate(s, request);
      if request < |s.idOf| {
        var id := s.idOf[request];
        assert id in t.pending <==> id in s.pending;
      }
      assert Waiting(t, request) <==> Waiting(s, request);
    }
  }

  lemma {:induction false} DrainTags(s: Tracker, order: seq<int>, request: nat)
    requires Named(s) && Distinct(order)
    ensures Tags(DrainCallbacks(s.pending, order))[request]
         == if Waiting(s, request) && s.idOf[request] in order then 1 else 0
    decreases |order|
  {
    if order != [] {
      var id, rest := order[0], order[1..];
      assert order == [id] + rest;
      assert id !in rest;
      DrainTags(s, rest, request);
      var tail := DrainCallbacks(s.pending, rest);
      if id in s.pending {
        var head := [Callback(s.pending[id].request, Failure("Slot disconnected"))];
        TagsAppend(head, tail);
        TagsOne([], head[0]);
        assert [] + [head[0]] == head;
      } else {
        assert DrainCallbacks(s.pending, order) == [] + tail == tail;
      }
    }
  }

  lemma DrainAccounted(s: Tracker, order: seq<int>)
    requires Accounted(s) && Enumerates(order, s.pending)
    ensures Accounted(Drain(s, order))
  {
    var t := Drain(s, order);
    var drained := Tags(DrainCallbacks(s.pending, order));
    TagsAppend(s.fired, DrainCallbacks(s.pending, order));
    assert Settled(t) == Settled(s) + drained;
    forall request: nat
      ensures OneFate(t, request)
    {
      assert OneFate(s, request);
      DrainTags(s, order, request);
      if Waiting(s, request) {
        var id := s.idOf[request];
        assert id in s.pending;
        assert id in order;
      }
      assert !Waiting(t, request);
    }
  }

  lemma TickAccounted(s: Tracker, id: int, t: Tick)
    requires Accounted(s)
    ensures Accounted(AfterTick(s, id, t))
  {
    if id in s.pending {
      var p := ApplyTick(s.pending[id], t);
      assert p.request == s.pending[id].request;
      var after := s.(pending := s.pending[id := p]);
      assert Settled(after) == Settled(s);
      SameFates(s, after);
    }
  }

  /** The sections of connect and disconnect that drain nothing. */
  ghost predicate ChangesFlagsOnly(s: Tracker, t: Tracker) {
    t == s.(connected := t.connected, connecting := t.connecting, readerRunning := t.readerRunning,
            nextReqId := t.nextReqId, issued := t.issued, caller := t.caller)
  }

  lemma FlagsAccounted(s: Tracker, t: Tracker)
    requires Accounted(s) && ChangesFlagsOnly(s, t)
    ensures Accounted(t)
  {
    SameFates(s, t);
  }

  lemma ClosedAccounted(s: Tracker, order: seq<int>)
    requires Accounted(s) && Enumerates(order, s.pending)
    ensures Accounted(Step(s, ConnectionClosed(order)))
  {
    var m := s.(connected := false, readerRunning := false);
    SameFates(s, m);
    DrainAccounted(m, order);
  }

  lemma FinishAccounted(s: Tracker, order: seq<int>)
    requires Accounted(s) && s.caller.Joining? && Enumerates(order, s.pending)
    ensures Accounted(Step(s, FinishDisconnect(order)))
  {
    var m := s.(caller := if s.caller.redial then Dialing else Idle);
    SameFates(s, m);
    DrainAccounted(m, order);
  }

  lemma AccountedStep(s: Tracker, e: Event)
    requires Accounted(s)
    ensures Accounted(Step(s, e))
  {
    hide Accounted;
    match e {
      case Request(symbol) =>
        if s.connected {
          IssuedAccounted(s, symbol);
        } else {
          RefusedAccounted(s, symbol);
        }
      case Cancel(id) => CancelAccounted(s, id);
      case SnapshotEnd(id) =>
        if id in s.pending {
          TakeAccounted(s, id, SnapshotOutcome(s.pending[id]));
        }
      case Error(id, message) =>
        if id in s.pending {
          TakeAccounted(s, id, Failure(message));
        }
      case Deliver(k) =>
        if k < |s.hand| {
          DeliverAccounted(s, k);
        }
      case ConnectionClosed(order) =>
        if Enumerates(order, s.pending) {
          ClosedAccounted(s, order);
        }
      case FinishDisconnect(order) =>
        if s.caller.Joining? && Enumerates(order, s.pending) {
          FinishAccounted(s, order);
        }
      case TickPrice(id, t) => TickAccounted(s, id, t);
      case _ =>
        assert ChangesFlagsOnly(s, Step(s, e));
        FlagsAccounted(s, Step(s, e));
    }
  }

  lemma {:induction false} AccountedFrom(s: Tracker, es: seq<Event>)
    requires Accounted(s)
    ensures Accounted(RunFrom(s, es))
    decreases |es|
  {
    if es != [] {
      AccountedFrom(s, es[..|es| - 1]);
      AccountedStep(RunFrom(s, es[..|es| - 1]), es[|es| - 1]);
    }
  }

  lemma NewAccounted(start: int, end: int)
    ensures Accounted(NewTracker(start, end))
  {
    forall request: nat
      ensures OneFate(NewTracker(start, end), request)
    {
      assert Settled(NewTracker(start, end)) == multiset{};
    }
  }

  lemma {:induction false} AccountedRun(start: int, end: int, es: seq<Event>)
    ensures Accounted(Run(start, end, es))
  {
    NewAccounted(start, end);
    AccountedFrom(NewTracker(start, end), es);
  }

  /** Under every interleaving each request call is in exactly one place: waiting,
      in hand for one callback, called back, cancelled, or displaced by a later
      request with the same id. */
  lemma {:induction false} EveryRequestOneFate(start: int, end: int, es: seq<Event>, request: nat)
    requires request < |Run(start, end, es).idOf|
    ensures
      var s := Run(start, end, es);
      Tags(s.hand)[request] + Tags(s.fired)[request] + multiset(s.cancelled)[request]
        + multiset(s.displaced)[request] + (if Waiting(s, request) then 1 else 0) == 1
  {
    AccountedRun(start, end, es);
    assert OneFate(Run(start, end, es), request);
  }

  lemma {:induction false} DrainedIsCalled(pending: map<int, Pending>, order: seq<int>, id: int)
    requires id in order && id in pending
    ensures Callback(pending[id].request, Failure("Slot disconnected")) in DrainCallbacks(pending, order)
    decreases |order|
  {
    if order[0] != id {
      assert order == [order[0]] + order[1..];
      DrainedIsCalled(pending, order[1..], id);
    }
  }

  /** Both a closed connection and the last section of a disconnect leave nothing
      waiting, and call every request that was back with an error. */
  lemma DrainsFailEveryWaiting(s: Tracker, e: Event, id: int)
    requires e.ConnectionClosed? || (e.FinishDisconnect? && s.caller.Joining?)
    requires Enumerates(e.order, s.pending) && id in s.pending
    ensures Step(s, e).pending == map[]
    ensures Callback(s.pending[id].request, Failure("Slot disconnected"))
         in Step(s, e).fired[|s.fired|..]
  {
    DrainedIsCalled(s.pending, e.order, id);
    assert Step(s, e).fired[|s.fired|..] == DrainCallbacks(s.pending, e.order);
  }
}
