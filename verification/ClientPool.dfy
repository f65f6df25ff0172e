/** The client pool as the program has it: an object that fills and scans its
    vector of slots (include/ibkr/client_pool.h:49-51). */
module IbkrPool {
  import opened Basics
  import opened IbkrSlot
  import T = RequestTracker
  import Pool = PoolLaws

  lemma CountAppend(connected: seq<bool>, more: bool)
    ensures CountTrue(connected + [more]) == CountTrue(connected) + (if more then 1 else 0)
  {
    CountTrueSplit(connected + [more], |connected|);
  }

  lemma {:induction false} CountPositive(connected: seq<bool>)
    ensures CountTrue(connected) > 0 <==> true in connected
  {
    if connected != [] {
      CountPositive(connected[1..]);
    }
  }

  class ClientPool {
    var slots: seq<ConnectionSlot>
    var nextSlotIndex: nat
    var running: bool

    ghost predicate Valid()
      reads this, slots
    {
      && (forall i, j :: 0 <= i < j < |slots| ==> slots[i] != slots[j])
      && (forall i :: 0 <= i < |slots| ==> slots[i].Valid())
    }

    ghost function Connected(): (r: seq<bool>)
      reads this, slots
      ensures |r| == |slots|
    {
      seq(|slots|, i requires 0 <= i < |slots| reads this, slots => slots[i].connected)
    }

    constructor ()
      ensures Valid() && slots == [] && nextSlotIndex == 0 && !running
    {
      slots, nextSlotIndex, running := [], 0, false;
    }

    /** Adds a slot with its id range at the end of the vector. */
    method AddSlot(start: int, end: int)
      requires Valid()
      modifies this`slots
      ensures Valid() && |slots| == old(|slots|) + 1 && slots[..old(|slots|)] == old(slots)
      ensures fresh(slots[old(|slots|)]) && slots[old(|slots|)].model == T.NewTracker(start, end)
      ensures slots[old(|slots|)].reqIdStart == start && slots[old(|slots|)].reqIdEnd == end
    {
      hide T.NewTracker, T.SetRange, ConnectionSlot.Valid;
      var slot := new ConnectionSlot();
      slot.SetReqIdRange(start, end);
      slots := slots + [slot];
    }

    /** Gives slot i the ids 100000 (i + 1) .. 100000 (i + 2) - 1. */
    method Initialize(numSlots: int)
      requires Valid() && (!running ==> slots == [])
      modifies this
      ensures Valid() && running && nextSlotIndex == old(nextSlotIndex)
      ensures old(running) ==> slots == old(slots)
      ensures !old(running) ==> |slots| == Max(0, numSlots)
      ensures !old(running) ==> forall i :: 0 <= i < |slots| ==>
                && slots[i].reqIdStart == 100000 * i + 100000 && slots[i].reqIdEnd == 100000 * i + 199999
                && slots[i].model == T.NewTracker(Pool.RangeStart(i), Pool.RangeEnd(i))
    {
      hide T.NewTracker, T.SetRange, ConnectionSlot.Valid;
      if running {
        return;
      }
      running := true;
      var i := 0;
      while i < numSlots
        invariant 0 <= i == |slots| <= Max(0, numSlots)
        invariant running && nextSlotIndex == old(nextSlotIndex)
        invariant Valid() && fresh(slots)
        invariant forall k :: 0 <= k < |slots| ==>
                    && slots[k].reqIdStart == 100000 * k + 100000 && slots[k].reqIdEnd == 100000 * k + 199999
                    && slots[k].model == T.NewTracker(Pool.RangeStart(k), Pool.RangeEnd(k))
      {
        AddSlot((i + 1) * 100000, (i + 2) * 100000 - 1);
        i := i + 1;
      }
    }

    /** Hands the request to the first connected slot from the cursor on; with none
        the pool invokes onError itself.  Other slots are left alone. */
    method RequestStockSnapshot(symbol: string) returns (handedTo: Option<nat>, failed: bool)
      requires Valid()
      modifies this`nextSlotIndex, slots
      ensures Valid() && failed == handedTo.None?
      ensures nextSlotIndex == old(nextSlotIndex) + (if slots == [] then 0 else 1)
      ensures slots == [] ==> failed
      ensures slots != [] ==>
                handedTo == Pool.Search(old(Connected()), old(nextSlotIndex) % |slots|, 0)
      ensures handedTo.Some? ==> handedTo.value < |slots|
      ensures forall i :: 0 <= i < |slots| ==>
                slots[i].model == if handedTo == Some(i)
                                  then T.Step(old(slots[i].model), T.Request(symbol))
                                  else old(slots[i].model)
    {
      hide T.Step, ConnectionSlot.Valid, Pool.Search;
      if |slots| == 0 {
        return None, true;
      }
      var startIdx := nextSlotIndex % |slots|;
      nextSlotIndex := nextSlotIndex + 1;
      var i := 0;
      while i < |slots|
        invariant 0 <= i <= |slots|
        invariant Valid() && Connected() == old(Connected()) && nextSlotIndex == old(nextSlotIndex) + 1
        invariant forall k :: 0 <= k < |slots| ==> slots[k].model == old(slots[k].model)
        invariant Pool.Search(old(Connected()), startIdx, i) == Pool.Search(old(Connected()), startIdx, 0)
      {
        Pool.SearchOnce(old(Connected()), startIdx, i);
        var idx := (startIdx + i) % |slots|;
        assert slots[idx].connected == Connected()[idx];
        if slots[idx].connected {
          var _ := slots[idx].RequestStockSnapshot(symbol);
          return Some(idx), false;
        }
        i := i + 1;
      }
      Pool.SearchOnce(old(Connected()), startIdx, i);
      return None, true;
    }

    /** How many slots are connected, and whether any is. */
    method Status() returns (connectedSlots: nat, anyConnected: bool)
      requires Valid()
      ensures connectedSlots == CountTrue(Connected())
      ensures anyConnected <==> true in Connected()
    {
      connectedSlots := 0;
      for i := 0 to |slots|
        invariant connectedSlots == CountTrue(Connected()[..i])
      {
        assert Connected()[..i + 1] == Connected()[..i] + [slots[i].connected];
        CountAppend(Connected()[..i], slots[i].connected);
        if slots[i].connected {
          connectedSlots := connectedSlots + 1;
        }
      }
      assert Connected()[..|slots|] == Connected();
      CountPositive(Connected());
      anyConnected := connectedSlots > 0;
    }

    /** One round of the monitor: every slot found not connected is dialled anew,
        the others are left alone.  `opens` tells which sockets open, `orders` how
        each slot's hash map yields its keys. */
    method CheckConnectionsOnce(opens: seq<bool>, orders: seq<seq<int>>)
      requires Valid() && |opens| == |orders| == |slots|
      requires forall i :: 0 <= i < |slots| ==>
                 slots[i].model.caller == T.Idle && T.Enumerates(orders[i], slots[i].pendingStk)
      modifies slots
      ensures Valid()
      ensures forall i :: 0 <= i < |slots| ==> slots[i].connected == (old(slots[i].connected) || opens[i])
      ensures forall i :: 0 <= i < |slots| ==>
                slots[i].model == if old(slots[i].connected) then old(slots[i].model)
                                  else ConnectionSlot.Dialled(old(slots[i].model), opens[i], orders[i])
    {
      hide ConnectionSlot.Valid, ConnectionSlot.Dialled, T.Enumerates;
      var i := 0;
      while i < |slots|
        invariant 0 <= i <= |slots| && Valid()
        invariant forall k :: 0 <= k < i ==> slots[k].connected == (old(slots[k].connected) || opens[k])
        invariant forall k :: i <= k < |slots| ==>
                    && slots[k].model == old(slots[k].model) && slots[k].connected == old(slots[k].connected)
                    && slots[k].pendingStk == old(slots[k].pendingStk)
        invariant forall k :: 0 <= k < i ==>
                    slots[k].model == if old(slots[k].connected) then old(slots[k].model)
                                      else ConnectionSlot.Dialled(old(slots[k].model), opens[k], orders[k])
      {
        if !slots[i].connected {
          var _ := slots[i].Connect(opens[i], orders[i]);
        }
        i := i + 1;
      }
    }
  }
}
