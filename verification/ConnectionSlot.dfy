/** The IBKR connection slot as the program has it: an object whose fields the
    calls update in place (include/ibkr/connection_slot.h:86-107).  Every method is
    proved to do the steps of RequestTracker in the order of its critical
    sections. */
module IbkrSlot {
  import opened Basics
  import T = RequestTracker

  class ConnectionSlot {
    var connected: bool
    var connecting: bool
    var readerRunning: bool
    var reqIdStart: int
    var reqIdEnd: int
    var nextReqId: int
    var pendingStk: map<int, T.Pending>
    var requests: nat            // numbers the request calls
    var issued: nat              // numbers the ids handed out since connect
    ghost var model: T.Tracker

    ghost predicate Valid()
      reads this
    {
      && connected == model.connected && connecting == model.connecting
      && readerRunning == model.readerRunning
      && reqIdStart == model.reqIdStart && reqIdEnd == model.reqIdEnd
      && nextReqId == model.nextReqId && pendingStk == model.pending
      && requests == |model.idOf| && issued == model.issued
    }

    constructor ()
      ensures Valid() && T.SetRange(model, 1, 999999) == T.NewTracker(1, 999999)
      ensures !connected && !connecting && !readerRunning && pendingStk == map[]
      ensures reqIdStart == 1 && reqIdEnd == 999999 && nextReqId == 0
      ensures forall start, end :: T.SetRange(model, start, end) == T.NewTracker(start, end)
    {
      connected, connecting, readerRunning := false, false, false;
      reqIdStart, reqIdEnd, nextReqId := 1, 999999, 0;
      pendingStk, requests, issued := map[], 0, 0;
      model := T.Tracker(false, false, false, 1, 999999, 0, map[], T.Idle, [], 0, [], [], [], []);
    }

    /** Keeps the next id if it lies in the new range, else starts at its beginning. */
    method SetReqIdRange(start: int, end: int)
      requires Valid()
      modifies this
      ensures Valid() && model == T.SetRange(old(model), start, end)
      ensures reqIdStart == start && reqIdEnd == end
      ensures start <= end ==> start <= nextReqId <= end
      ensures nextReqId == if start <= old(nextReqId) <= end then old(nextReqId) else start
    {
      reqIdStart := start;
      reqIdEnd := end;
      if nextReqId < start || nextReqId > end {
        nextReqId := start;
      }
      model := T.SetRange(model, start, end);
    }

    /** Returns the id of the request, or 0 if the slot is not connected. */
    method RequestStockSnapshot(symbol: string) returns (tickerId: int)
      requires Valid()
      modifies this
      ensures Valid() && model == T.Step(old(model), T.Request(symbol))
      ensures model.idOf == old(model.idOf) + [tickerId]
      ensures tickerId == if old(connected) then old(nextReqId) else 0
      ensures old(connected) ==>
                && tickerId in pendingStk && pendingStk[tickerId].symbol == symbol
                && pendingStk - {tickerId} == old(pendingStk) - {tickerId}
                && nextReqId == (if tickerId + 1 > reqIdEnd then reqIdStart else tickerId + 1)
      ensures !old(connected) ==> pendingStk == old(pendingStk) && nextReqId == old(nextReqId)
    {
      model := T.Step(model, T.Request(symbol));
      requests := requests + 1;
      if !connected {
        return 0;
      }
      tickerId := nextReqId;
      nextReqId := nextReqId + 1;
      if nextReqId > reqIdEnd {
        nextReqId := reqIdStart;
      }
      pendingStk := pendingStk[tickerId := T.NewPending(symbol, requests - 1, issued)];
      issued := issued + 1;
    }

    method CancelMktData(reqId: int)
      requires Valid()
      modifies this
      ensures Valid() && model == T.Step(old(model), T.Cancel(reqId))
      ensures pendingStk == old(pendingStk) - {reqId}
      ensures model.hand == old(model.hand) && model.fired == old(model.fired)
    {
      model := T.Step(model, T.Cancel(reqId));
      pendingStk := pendingStk - {reqId};
    }

    method TickPrice(reqId: int, field: T.TickField, price: real)
      requires Valid()
      modifies this
      ensures Valid() && model == T.Step(old(model), T.TickPrice(reqId, T.Tick(field, price)))
    {
      model := T.Step(model, T.TickPrice(reqId, T.Tick(field, price)));
      if price < 0.0 {
        assert reqId in pendingStk ==> pendingStk[reqId := pendingStk[reqId]] == pendingStk;
        return;
      }
      if reqId !in pendingStk {
        return;
      }
      var p := pendingStk[reqId];
      match field {
        case Bid => p := p.(bid := price, hasBid := true);
        case Ask => p := p.(ask := price, hasAsk := true);
        case Last => p := p.(last := price, hasLast := true);
        case OtherField =>
      }
      pendingStk := pendingStk[reqId := p];
    }

    /** The section of a snapshot-end: takes the entry out and decides on the answer. */
    method TakeSnapshot(reqId: int) returns (taken: Option<T.Callback>)
      requires Valid()
      modifies this
      ensures Valid() && model == T.Step(old(model), T.SnapshotEnd(reqId))
      ensures taken == if reqId in old(pendingStk)
                       then Some(T.Callback(old(pendingStk[reqId]).request, T.SnapshotOutcome(old(pendingStk[reqId]))))
                       else None
      ensures model.hand == old(model.hand) + (if taken.Some? then [taken.value] else [])
    {
      model := T.Step(model, T.SnapshotEnd(reqId));
      if reqId !in pendingStk {
        return None;
      }
      var pending := pendingStk[reqId];
      pendingStk := pendingStk - {reqId};
      if !pending.hasBid && !pending.hasAsk && !pending.hasLast {
        taken := Some(T.Callback(pending.request, T.Failure("No market data returned for symbol")));
      } else {
        taken := Some(T.Callback(pending.request, T.Success(T.BuildReply(pending))));
      }
    }

    /** The section of an error: takes the entry of a positive id out. */
    method TakeError(id: int, message: string) returns (taken: Option<T.Callback>)
      requires Valid()
      modifies this
      ensures Valid() && model == T.Step(old(model), T.Error(id, message))
      ensures taken == if id > 0 && id in old(pendingStk)
                       then Some(T.Callback(old(pendingStk[id]).request, T.Failure(message))) else None
      ensures model.hand == old(model.hand) + (if taken.Some? then [taken.value] else [])
    {
      model := T.Step(model, T.Error(id, message));
      taken := None;
      if id > 0 && id in pendingStk {
        taken := Some(T.Callback(pendingStk[id].request, T.Failure(message)));
        pendingStk := pendingStk - {id};
      }
    }

    /** Invokes a callback taken in hand, outside the lock, whatever other threads did
        since it was taken. */
    method CallBack(callback: T.Callback, ghost k: nat)
      requires Valid() && k < |model.hand| && model.hand[k] == callback
      modifies this
      ensures Valid() && model == T.Step(old(model), T.Deliver(k))
      ensures model.fired == old(model.fired) + [callback]
    {
      model := T.Step(model, T.Deliver(k));
    }

    /** Takes the entry out under the lock, then calls back. */
    method TickSnapshotEnd(reqId: int) returns (answered: Option<T.Outcome>)
      requires Valid()
      modifies this
      ensures Valid()
      ensures answered == if reqId in old(pendingStk) then Some(T.SnapshotOutcome(old(pendingStk[reqId]))) else None
      ensures model == if reqId in old(pendingStk)
                       then T.Step(T.Step(old(model), T.SnapshotEnd(reqId)), T.Deliver(|old(model.hand)|))
                       else T.Step(old(model), T.SnapshotEnd(reqId))
    {
      hide T.Step, Valid;
      var taken := TakeSnapshot(reqId);
      if taken.None? {
        return None;
      }
      CallBack(taken.value, |model.hand| - 1);
      return Some(taken.value.outcome);
    }

    method Error(id: int, message: string) returns (answered: bool)
      requires Valid()
      modifies this
      ensures Valid() && answered == (id > 0 && id in old(pendingStk))
      ensures model == if answered
                       then T.Step(T.Step(old(model), T.Error(id, message)), T.Deliver(|old(model.hand)|))
                       else T.Step(old(model), T.Error(id, message))
    {
      hide T.Step, Valid;
      var taken := TakeError(id, message);
      answered := taken.Some?;
      if answered {
        CallBack(taken.value, |model.hand| - 1);
      }
    }

    /** Calls every pending request back with an error, in the order in which the
        hash map yields its keys, and clears the map. */
    method FailPending(order: seq<int>) returns (ghost called: seq<T.Callback>)
      requires T.Enumerates(order, pendingStk)
      modifies this`pendingStk
      ensures pendingStk == map[]
      ensures called == T.DrainCallbacks(old(pendingStk), order)
    {
      called := [];
      for k := 0 to |order|
        invariant pendingStk == old(pendingStk)
        invariant called == T.DrainCallbacks(pendingStk, order[..k])
      {
        assert order[k] in order;
        assert order[..k + 1] == order[..k] + [order[k]];
        DrainOneMore(pendingStk, order[..k], order[k]);
        called := called + [T.Callback(pendingStk[order[k]].request, T.Failure("Slot disconnected"))];
      }
      assert order[..|order|] == order;
      pendingStk := map[];
    }

    method ConnectionClosed(order: seq<int>)
      requires Valid() && T.Enumerates(order, pendingStk)
      modifies this
      ensures Valid() && model == T.Step(old(model), T.ConnectionClosed(order))
      ensures !connected && !readerRunning && connecting == old(connecting) && pendingStk == map[]
    {
      connected := false;
      readerRunning := false;
      ghost var called := FailPending(order);
      assert T.Step(model, T.ConnectionClosed(order)).fired == model.fired + called;
      model := T.Step(model, T.ConnectionClosed(order));
    }

    // ----- the sections of disconnect and connect, each from any state ----------

    /** First section of a disconnect: tells whether there is anything to do. */
    method ClearFlags(redial: bool) returns (busy: bool)
      requires Valid() && model.caller == T.Idle
      modifies this
      ensures Valid() && model == T.Step(old(model), if redial then T.ConnectCall else T.DisconnectCall)
      ensures busy == old(connected || connecting || readerRunning)
      ensures model.caller == if busy then T.Stopping(redial) else if redial then T.Dialing else T.Idle
      ensures !connected && !connecting && pendingStk == old(pendingStk) && (!busy ==> !readerRunning)
    {
      model := T.Step(model, if redial then T.ConnectCall else T.DisconnectCall);
      if !connected && !connecting && !readerRunning {
        return false;
      }
      connected := false;
      connecting := false;
      return true;
    }

    method StopReader()
      requires Valid() && model.caller.Stopping?
      modifies this
      ensures Valid() && model == T.Step(old(model), T.StopReader)
      ensures model.caller == T.Joining(old(model.caller.redial))
      ensures !readerRunning && pendingStk == old(pendingStk)
      ensures connected == old(connected) && connecting == old(connecting)
    {
      model := T.Step(model, T.StopReader);
      readerRunning := false;
    }

    /** Last section of a disconnect, once the reader thread has ended. */
    method DropPending(order: seq<int>)
      requires Valid() && model.caller.Joining? && T.Enumerates(order, pendingStk)
      modifies this
      ensures Valid() && model == T.Step(old(model), T.FinishDisconnect(order))
      ensures model.caller == if old(model.caller.redial) then T.Dialing else T.Idle
      ensures connected == old(connected) && connecting == old(connecting) && readerRunning == old(readerRunning)
      ensures pendingStk == map[]
    {
      ghost var called := FailPending(order);
      assert T.Step(model, T.FinishDisconnect(order)).fired == model.fired + called;
      model := T.Step(model, T.FinishDisconnect(order));
    }

    method MarkConnecting()
      requires Valid() && model.caller == T.Dialing
      modifies this
      ensures Valid() && model == T.Step(old(model), T.MarkConnecting)
      ensures model.caller == T.Opening && connected == old(connected) && connecting
    {
      model := T.Step(model, T.MarkConnecting);
      connecting := true;
    }

    method GiveUpOpening()
      requires Valid() && model.caller == T.Opening
      modifies this
      ensures Valid() && model == T.Step(old(model), T.OpenFails)
      ensures model.caller == T.Idle && connected == old(connected) && !connecting
    {
      model := T.Step(model, T.OpenFails);
      connecting := false;
    }

    method MarkConnected()
      requires Valid() && model.caller == T.Opening
      modifies this
      ensures Valid() && model == T.Step(old(model), T.OpenSucceeds)
      ensures model.caller == T.Reading && connected && !connecting && nextReqId == reqIdStart
    {
      model := T.Step(model, T.OpenSucceeds);
      connected := true;
      connecting := false;
      nextReqId := reqIdStart;
      issued := 0;
    }

    method StartReading()
      requires Valid() && model.caller == T.Reading
      modifies this
      ensures Valid() && model == T.Step(old(model), T.ReaderStarts)
      ensures model.caller == T.Idle && connected == old(connected) && readerRunning
    {
      model := T.Step(model, T.ReaderStarts);
      readerRunning := true;
    }

    // ----- whole calls, when no other thread comes between -----------------------

    /** The steps of a whole disconnect. */
    static ghost function Disconnected(m: T.Tracker, redial: bool, order: seq<int>): T.Tracker {
      T.Step(T.Step(T.BeginDisconnect(m, redial), T.StopReader), T.FinishDisconnect(order))
    }

    /** The steps of a whole connect. */
    static ghost function Dialled(m: T.Tracker, opens: bool, order: seq<int>): T.Tracker {
      var marked := T.Step(Disconnected(m, true, order), T.MarkConnecting);
      if opens then T.Step(T.Step(marked, T.OpenSucceeds), T.ReaderStarts)
      else T.Step(marked, T.OpenFails)
    }

    /** `redial` when connect makes the disconnect. */
    method DisconnectFor(redial: bool, order: seq<int>)
      requires Valid() && model.caller == T.Idle && T.Enumerates(order, pendingStk)
      modifies this
      ensures Valid() && !connected && !connecting && !readerRunning
      ensures model == Disconnected(old(model), redial, order)
      ensures model.caller == if redial then T.Dialing else T.Idle
    {
      hide ConnectionSlot.Valid, T.Step;
      NothingToDisconnect(model, redial, order);
      assert T.Step(model, if redial then T.ConnectCall else T.DisconnectCall) == T.BeginDisconnect(model, redial) by {
        CallBegins(model, redial);
      }
      var busy := ClearFlags(redial);
      if !busy {
        return;
      }
      StopReader();
      DropPending(order);
    }

    method Disconnect(order: seq<int>)
      requires Valid() && model.caller == T.Idle && T.Enumerates(order, pendingStk)
      modifies this
      ensures Valid() && model.caller == T.Idle && !connected
      ensures model == Disconnected(old(model), false, order)
    {
      DisconnectFor(false, order);
    }

    /** `opens` is whether the socket opens and stays open. */
    method Connect(opens: bool, order: seq<int>) returns (up: bool)
      requires Valid() && model.caller == T.Idle && T.Enumerates(order, pendingStk)
      modifies this
      ensures Valid() && model.caller == T.Idle && up == connected == opens
      ensures model == Dialled(old(model), opens, order)
    {
      hide Disconnected, T.Step, ConnectionSlot.Valid;
      DisconnectFor(true, order);
      MarkConnecting();
      if !opens {
        GiveUpOpening();
        return false;
      }
      MarkConnected();
      StartReading();
      return true;
    }
  }

  lemma CallBegins(m: T.Tracker, redial: bool)
    ensures T.Step(m, if redial then T.ConnectCall else T.DisconnectCall) == T.BeginDisconnect(m, redial)
  {
  }

  lemma NothingToDisconnect(m: T.Tracker, redial: bool, order: seq<int>)
    ensures m.caller == T.Idle && !(m.connected || m.connecting || m.readerRunning) ==>
              ConnectionSlot.Disconnected(m, redial, order) == T.BeginDisconnect(m, redial)
  {
  }

  lemma {:induction false} DrainOneMore(pending: map<int, T.Pending>, order: seq<int>, id: int)
    requires id in pending
    ensures T.DrainCallbacks(pending, order + [id])
         == T.DrainCallbacks(pending, order)
            + [T.Callback(pending[id].request, T.Failure("Slot disconnected"))]
    decreases |order|
  {
    if order == [] {
      assert order + [id] == [id];
      assert [id][1..] == [];
    } else {
      assert (order + [id])[1..] == order[1..] + [id];
      DrainOneMore(pending, order[1..], id);
      var error := T.Failure("Slot disconnected");
      ConcatAssociates(if order[0] in pending then [T.Callback(pending[order[0]].request, error)] else [],
                       T.DrainCallbacks(pending, order[1..]),
                       [T.Callback(pending[id].request, error)]);
    }
  }
}
