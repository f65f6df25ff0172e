/** Request routing of the client pool (src/ibkr/client_pool.cc): the cyclic
    search for a connected slot, its fairness, the id ranges, and a request under
    interference from the slots. */
module PoolLaws {
  import opened Basics
  import opened RequestTracker
  import TrackerLaws

  // ----- id ranges ----------------------------------------------------------------

  function RangeStart(slot: nat): int { (slot + 1) * 100000 }

  function RangeEnd(slot: nat): int { (slot + 2) * 100000 - 1 }

  const INT_MAX := 0x7fff_ffff

  /** The ids of slot i are the 100000 numbers from 100000 (i + 1) on. */
  lemma RangesAre(slot: nat)
    ensures RangeStart(slot) == 100000 * slot + 100000
    ensures RangeEnd(slot) == 100000 * slot + 199999
    ensures 0 < RangeStart(slot) && RangeEnd(slot) - RangeStart(slot) + 1 == 100000
  {
  }

  /** The largest value computed for a range, (i + 2) * 100000, and every id and
      its successor fit a 32-bit int exactly up to 21473 slots. */
  lemma RangesFitInt(slots: nat)
    ensures (forall i: nat :: i < slots ==> 0 < RangeStart(i) <= RangeEnd(i) && RangeEnd(i) + 1 <= INT_MAX)
       <==> slots <= 21473
  {
    if slots > 21473 {
      assert RangeEnd(21473) + 1 > INT_MAX;
    }
  }

  /** Whatever happens on a slot of the pool, the ids that wait in it are its own
      100000, and the first 100000 requests since a connect displace none. */
  lemma {:induction false} SlotIdsSuffice(slot: nat, es: seq<Event>, symbol: string)
    ensures
      var s := Run(RangeStart(slot), RangeEnd(slot), es);
      && (forall id :: id in s.pending ==> 100000 * slot + 100000 <= id <= 100000 * slot + 199999)
      && (s.issued < 100000 ==> Step(s, Request(symbol)).displaced == s.displaced)
  {
    var s := Run(RangeStart(slot), RangeEnd(slot), es);
    TrackerLaws.RotatingRun(RangeStart(slot), RangeEnd(slot), es);
    forall id | id in s.pending
      ensures 100000 * slot + 100000 <= id <= 100000 * slot + 199999
    {
      TrackerLaws.IdsInRange(RangeStart(slot), RangeEnd(slot), es, id);
    }
    TrackerLaws.DisplacedGrows(s, Request(symbol));
    if s.connected && s.nextReqId in s.pending {
      TrackerLaws.LappedExactly(s);
    }
  }

  /** No id is ever waiting in two slots, whatever happens on them. */
  lemma {:induction false} NoIdInTwoSlots(i: nat, j: nat, es: seq<Event>, fs: seq<Event>, id: int)
    requires i != j
    requires id in Run(RangeStart(i), RangeEnd(i), es).pending
    ensures id !in Run(RangeStart(j), RangeEnd(j), fs).pending
  {
    TrackerLaws.IdsInRange(RangeStart(i), RangeEnd(i), es, id);
    if id in Run(RangeStart(j), RangeEnd(j), fs).pending {
      TrackerLaws.IdsInRange(RangeStart(j), RangeEnd(j), fs, id);
      assert false;
    }
  }

  // ----- the cyclic search ----------------------------------------------------------

  /** The first connected slot from `start` on, `tried` slots having been passed. */
  function Search(connected: seq<bool>, start: nat, tried: nat): Option<nat>
    decreases |connected| - tried
  {
    if tried >= |connected| then None
    else
      var index := (start + tried) % |connected|;
      if connected[index] then Some(index) else Search(connected, start, tried + 1)
  }

  lemma SearchOnce(connected: seq<bool>, start: nat, tried: nat)
    ensures Search(connected, start, tried)
         == if tried >= |connected| then None
            else if connected[(start + tried) % |connected|] then Some((start + tried) % |connected|)
            else Search(connected, start, tried + 1)
  {
  }

  /** `steps` slots on from `from`, on a circle of k. */
  function Forward(from: nat, steps: nat, k: nat): (r: nat)
    requires from < k && steps <= k
    ensures r < k
  {
    if from + steps < k then from + steps else from + steps - k
  }

  function Back(from: nat, steps: nat, k: nat): (r: nat)
    requires from < k && steps <= k
    ensures r < k
  {
    if steps <= from then from - steps else from + k - steps
  }

  function Distance(from: nat, to: nat, k: nat): (r: nat)
    requires from < k && to < k
    ensures r < k && Forward(from, r, k) == to
  {
    if to >= from then to - from else to + k - from
  }

  predicate UpAhead(connected: seq<bool>, from: nat, steps: nat)
    requires from < |connected| && steps <= |connected|
  {
    connected[Forward(from, steps, |connected|)]
  }

  predicate UpBehind(connected: seq<bool>, from: nat, steps: nat)
    requires from < |connected| && steps <= |connected|
  {
    connected[Back(from, steps, |connected|)]
  }

  /** Steps back from slot j to the previous connected slot, itself at worst. */
  function Gap(connected: seq<bool>, j: nat, g: nat): (r: nat)
    requires j < |connected| && connected[j] && g <= |connected|
    ensures g <= r <= |connected| && UpBehind(connected, j, r)
    ensures forall e: nat :: g <= e < r ==> !UpBehind(connected, j, e)
    decreases |connected| - g
  {
    if UpBehind(connected, j, g) then g else Gap(connected, j, g + 1)
  }

  lemma ForwardIsMod(from: nat, steps: nat, k: nat)
    requires from < k && steps <= k
    ensures (from + steps) % k == Forward(from, steps, k)
  {
    ModWrap(from + steps, Forward(from, steps, k), k);
  }

  lemma {:induction false} SearchHits(connected: seq<bool>, start: nat, tried: nat, d: nat)
    requires start < |connected| && tried <= d < |connected| && UpAhead(connected, start, d)
    requires forall e: nat :: tried <= e < d ==> !UpAhead(connected, start, e)
    ensures Search(connected, start, tried) == Some(Forward(start, d, |connected|))
    decreases d - tried
  {
    ForwardIsMod(start, tried, |connected|);
    if tried < d {
      assert !UpAhead(connected, start, tried);
      SearchHits(connected, start, tried + 1, d);
    }
  }

  /** The search ends no later than at a connected slot on its way. */
  lemma {:induction false} SearchStopsBy(connected: seq<bool>, start: nat, tried: nat, d: nat) returns (e: nat)
    requires start < |connected| && tried <= d < |connected| && UpAhead(connected, start, d)
    ensures tried <= e <= d && Search(connected, start, tried) == Some(Forward(start, e, |connected|))
    decreases d - tried
  {
    ForwardIsMod(start, tried, |connected|);
    if UpAhead(connected, start, tried) {
      e := tried;
    } else {
      e := SearchStopsBy(connected, start, tried + 1, d);
    }
  }

  /** A search from `start` picks the connected slot j exactly when it starts
      fewer steps before j than the previous connected slot lies. */
  lemma SearchPicks(connected: seq<bool>, start: nat, j: nat)
    requires start < |connected| && j < |connected| && connected[j]
    ensures Search(connected, start, 0) == Some(j)
       <==> Distance(start, j, |connected|) < Gap(connected, j, 1)
  {
    var k := |connected|;
    var d, g := Distance(start, j, k), Gap(connected, j, 1);
    assert UpAhead(connected, start, d);
    if d < g {
      forall e: nat | e < d
        ensures !UpAhead(connected, start, e)
      {
        assert Forward(start, e, k) == Back(j, d - e, k);
        assert !UpBehind(connected, j, d - e);
      }
      SearchHits(connected, start, 0, d);
    } else {
      assert Forward(start, d - g, k) == Back(j, g, k);
      assert UpAhead(connected, start, d - g);
      var e := SearchStopsBy(connected, start, 0, d - g);
      assert Forward(start, e, k) != j;
    }
  }

  /** How many of n consecutive requests, from cursor value c on, go to slot j. */
  ghost function Served(connected: seq<bool>, c: nat, n: nat, j: nat): nat
    requires |connected| > 0
    decreases n
  {
    if n == 0 then 0
    else Served(connected, c, n - 1, j) + Hit(connected, c + n - 1, j)
  }

  ghost function Hit(connected: seq<bool>, c: nat, j: nat): nat
    requires |connected| > 0
  {
    if Search(connected, c % |connected|, 0) == Some(j) then 1 else 0
  }

  lemma ServedOnce(connected: seq<bool>, c: nat, n: nat, j: nat)
    requires |connected| > 0
    ensures Served(connected, c, n + 1, j)
         == Served(connected, c, n, j)
            + (if Search(connected, (c + n) % |connected|, 0) == Some(j) then 1 else 0)
  {
  }

  lemma {:induction false} ServedFromFront(connected: seq<bool>, c: nat, n: nat, j: nat)
    requires |connected| > 0 && n > 0
    ensures Served(connected, c, n, j) == Hit(connected, c, j) + Served(connected, c + 1, n - 1, j)
    decreases n
  {
    if n > 1 {
      ServedFromFront(connected, c, n - 1, j);
    }
  }

  /** Sliding a full window by one leaves the count: the cursor value that comes in
      starts the search where the one that goes out did. */
  lemma {:induction false} WindowSlides(connected: seq<bool>, c: nat, shift: nat, j: nat)
    requires |connected| > 0
    ensures Served(connected, c + shift, |connected|, j) == Served(connected, c, |connected|, j)
    decreases shift
  {
    if shift > 0 {
      var k := |connected|;
      WindowSlides(connected, c, shift - 1, j);
      ServedFromFront(connected, c + shift - 1, k, j);
      assert Served(connected, c + shift, k, j) == Served(connected, c + shift, k - 1, j)
                                                + Hit(connected, c + shift + k - 1, j);
      ModShift(c + shift - 1, k);
    }
  }

  lemma CursorAt(c: nat, j: nat, n: nat, k: nat)
    requires j < k && 1 <= n <= k && c % k == (j + 1) % k
    ensures (c + n - 1) % k == Forward(j, n, k)
  {
    ModPlus(c, n - 1, k);
    ModPlus(j + 1, n - 1, k);
    ForwardIsMod(j, n, k);
  }

  /** From the slot after j, the last Gap requests of a window go to j. */
  lemma {:induction false} WindowAfter(connected: seq<bool>, c: nat, j: nat, n: nat)
    requires j < |connected| && connected[j] && n <= |connected|
    requires c % |connected| == (j + 1) % |connected|
    ensures Served(connected, c, n, j) == Max(0, n + Gap(connected, j, 1) - |connected|)
    decreases n
  {
    if n > 0 {
      var k := |connected|;
      WindowAfter(connected, c, j, n - 1);
      CursorAt(c, j, n, k);
      assert Distance(Forward(j, n, k), j, k) == k - n;
      SearchPicks(connected, Forward(j, n, k), j);
    }
  }

  /** While the connected set is stable, any k consecutive requests on k slots give
      each connected slot exactly as many as its cyclic distance from the previous
      connected slot: at least one, and exactly one if all are connected. */
  lemma RotationIsFair(connected: seq<bool>, c: nat, j: nat)
    requires j < |connected| && connected[j]
    ensures Served(connected, c, |connected|, j) == Gap(connected, j, 1) >= 1
    ensures (forall i :: 0 <= i < |connected| ==> connected[i]) ==> Served(connected, c, |connected|, j) == 1
  {
    var k := |connected|;
    var shift := CursorAfter(c, j, k);
    WindowSlides(connected, c, shift, j);
    WindowAfter(connected, c + shift, j, k);
  }

  /** Some later cursor value starts right after slot j. */
  lemma CursorAfter(c: nat, j: nat, k: nat) returns (shift: nat)
    requires j < k
    ensures (c + shift) % k == (j + 1) % k
  {
    var rounds := c * k;
    assert c <= rounds;
    shift := j + 1 + rounds - c;
    FromSlotAfter(j + 1, c, k);
  }

  lemma {:induction false} FromSlotAfter(x: nat, times: nat, k: nat)
    requires k > 0
    ensures (x + times * k) % k == x % k
    decreases times
  {
    if times > 0 {
      FromSlotAfter(x, times - 1, k);
      assert x + times * k == (x + (times - 1) * k) + k;
      ModShift(x + (times - 1) * k, k);
    }
  }

  lemma {:induction false} SearchPicksConnected(connected: seq<bool>, start: nat, tried: nat)
    ensures
      var found := Search(connected, start, tried);
      found.Some? ==> found.value < |connected| && connected[found.value]
    decreases |connected| - tried
  {
    if tried < |connected| && !connected[(start + tried) % |connected|] {
      SearchPicksConnected(connected, start, tried + 1);
    }
  }

  /** The search finds a slot exactly when one is connected, and then a connected
      one. */
  lemma SearchFindsExactly(connected: seq<bool>, start: nat)
    requires start < |connected|
    ensures Search(connected, start, 0).Some? <==> true in connected
    ensures
      var found := Search(connected, start, 0);
      found.Some? ==> found.value < |connected| && connected[found.value]
  {
    SearchPicksConnected(connected, start, 0);
    if true in connected {
      var j :| 0 <= j < |connected| && connected[j];
      var d := Distance(start, j, |connected|);
      assert UpAhead(connected, start, d);
      var _ := SearchStopsBy(connected, start, 0, d);
    }
  }
}

/** A pool request while the slots go on changing: between its tests of the slots,
    and between its last test and the hand-over, anything may happen on them. */
module PoolRace {
  import opened Basics
  import T = RequestTracker
  import opened PoolLaws

  /** Where the thread holding the pool lock is in its request. */
  datatype PoolCall =
    | NoCall
    | Probing(request: nat, symbol: string, start: nat, tried: nat)
    | HandingOver(request: nat, symbol: string, slot: nat)

  /** A pool request and the request call of a slot that it became. */
  datatype Handover = Handover(request: nat, slot: nat, call: nat)

  datatype Pool = Pool(
    slots: seq<T.Tracker>,
    nextSlotIndex: nat,
    call: PoolCall,
    begun: nat,              // requests that have entered the pool; it numbers them
    handed: seq<Handover>,
    failed: seq<nat>)        // requests whose onError the pool itself invoked

  datatype PoolEvent =
    | Begin(symbol: string)
    | Probe
    | HandOver
    | SlotEvent(slot: nat, event: T.Event)

  ghost function NewPool(slots: nat): Pool {
    Pool(seq(slots, i requires 0 <= i => T.NewTracker(RangeStart(i), RangeEnd(i))), 0, NoCall, 0, [], [])
  }

  ghost function AfterHandOver(p: Pool, request: nat, symbol: string, slot: nat): Pool
    requires slot < |p.slots|
  {
    p.(slots := p.slots[slot := T.Step(p.slots[slot], T.Request(symbol))],
       call := NoCall,
       handed := p.handed + [Handover(request, slot, |p.slots[slot].idOf|)])
  }

  ghost function Step(p: Pool, e: PoolEvent): Pool {
    match e
    case Begin(symbol) =>
      if p.call != NoCall then p
      else if p.slots == [] then p.(begun := p.begun + 1, failed := p.failed + [p.begun])
      else p.(begun := p.begun + 1, nextSlotIndex := p.nextSlotIndex + 1,
              call := Probing(p.begun, symbol, p.nextSlotIndex % |p.slots|, 0))
    case Probe =>
      if !p.call.Probing? then p
      else if p.call.tried >= |p.slots| then p.(call := NoCall, failed := p.failed + [p.call.request])
      else
        var index := (p.call.start + p.call.tried) % |p.slots|;
        if p.slots[index].connected then p.(call := HandingOver(p.call.request, p.call.symbol, index))
        else p.(call := p.call.(tried := p.call.tried + 1))
    case HandOver =>
      if !p.call.HandingOver? || p.call.slot >= |p.slots| then p
      else AfterHandOver(p, p.call.request, p.call.symbol, p.call.slot)
    case SlotEvent(i, event) =>
      // the pool is the only one to make requests on its slots
      if i >= |p.slots| || event.Request? then p
      else p.(slots := p.slots[i := T.Step(p.slots[i], event)])
  }

  /** Events oldest first. */
  ghost function RunFrom(p: Pool, es: seq<PoolEvent>): Pool
    decreases |es|
  {
    if es == [] then p else Step(RunFrom(p, es[..|es| - 1]), es[|es| - 1])
  }

  // ----- each request ends once ------------------------------------------------------

  /** The pool requests handed over. */
  ghost function Requests(handed: seq<Handover>): multiset<nat> {
    if handed == [] then multiset{}
    else Requests(handed[..|handed| - 1]) + multiset{handed[|handed| - 1].request}
  }

  /** The slots' request calls that they became. */
  ghost function Calls(handed: seq<Handover>): multiset<(nat, nat)> {
    if handed == [] then multiset{}
    else Calls(handed[..|handed| - 1])
         + multiset{(handed[|handed| - 1].slot, handed[|handed| - 1].call)}
  }

  ghost predicate InProgress(p: Pool, request: nat) {
    p.call != NoCall && p.call.request == request
  }

  /** A request that has returned was failed by the pool or handed over, once. */
  ghost predicate EndedOnce(p: Pool, request: nat) {
    multiset(p.failed)[request] + Requests(p.handed)[request]
      == if request < p.begun && !InProgress(p, request) then 1 else 0
  }

  /** Every request call of a slot is one that the pool handed over, once. */
  ghost predicate FromPool(p: Pool, slot: nat, call: nat) {
    Calls(p.handed)[(slot, call)] == if slot < |p.slots| && call < |p.slots[slot].idOf| then 1 else 0
  }

  ghost predicate CallSound(p: Pool) {
    && (p.call != NoCall ==> p.call.request < p.begun)
    && (p.call.Probing? ==> p.call.start < |p.slots|)
    && (p.call.HandingOver? ==> p.call.slot < |p.slots|)
  }

  ghost predicate Booked(p: Pool) {
    && CallSound(p)
    && (forall request: nat :: EndedOnce(p, request))
    && (forall slot: nat, call: nat :: FromPool(p, slot, call))
    && (forall i :: 0 <= i < |p.slots| ==> T.Accounted(p.slots[i]))
  }

  lemma CallsOf(s: T.Tracker, e: T.Event)
    ensures |T.Step(s, e).idOf| == |s.idOf| + (if e.Request? then 1 else 0)
  {
  }

  /** A step that leaves the slots alone and at most fails a request. */
  lemma BookedIfEnded(p: Pool, q: Pool)
    requires Booked(p) && CallSound(q) && q.slots == p.slots && q.handed == p.handed
    requires forall request: nat :: EndedOnce(p, request) ==> EndedOnce(q, request)
    ensures Booked(q)
  {
    hide T.Accounted;
    forall slot: nat, call: nat
      ensures FromPool(q, slot, call)
    {
      assert FromPool(p, slot, call);
    }
  }

  lemma BookedBegin(p: Pool, symbol: string)
    requires Booked(p) && p.call == NoCall
    ensures Booked(Step(p, Begin(symbol)))
  {
    hide T.Accounted;
    BookedIfEnded(p, Step(p, Begin(symbol)));
  }

  lemma BookedProbe(p: Pool)
    requires Booked(p) && p.call.Probing?
    ensures Booked(Step(p, Probe))
  {
    hide T.Accounted;
    var q := Step(p, Probe);
    assert q.slots == p.slots && q.handed == p.handed;
    BookedIfEnded(p, q);
  }

  lemma BookedHandOver(p: Pool)
    requires Booked(p) && p.call.HandingOver?
    ensures Booked(Step(p, HandOver))
  {
    var q, i, e := Step(p, HandOver), p.call.slot, T.Request(p.call.symbol);
    hide T.Step, T.Accounted;
    CallsOf(p.slots[i], e);
    T.AccountedStep(p.slots[i], e);
    assert q.handed[..|q.handed| - 1] == p.handed;
    forall request: nat
      ensures EndedOnce(q, request)
    {
      assert EndedOnce(p, request);
    }
    forall slot: nat, call: nat
      ensures FromPool(q, slot, call)
    {
      assert FromPool(p, slot, call);
    }
  }

  lemma BookedSlotEvent(p: Pool, i: nat, event: T.Event)
    requires Booked(p) && i < |p.slots| && !event.Request?
    ensures Booked(Step(p, SlotEvent(i, event)))
  {
    var q := Step(p, SlotEvent(i, event));
    hide T.Step, T.Accounted;
    CallsOf(p.slots[i], event);
    T.AccountedStep(p.slots[i], event);
    forall request: nat
      ensures EndedOnce(q, request)
    {
      assert EndedOnce(p, request);
    }
    forall slot: nat, call: nat
      ensures FromPool(q, slot, call)
    {
      assert FromPool(p, slot, call);
    }
  }

  lemma BookedStep(p: Pool, e: PoolEvent)
    requires Booked(p)
    ensures Booked(Step(p, e))
  {
    hide Booked;
    match e {
      case Begin(symbol) =>
        if p.call == NoCall {
          BookedBegin(p, symbol);
        }
      case Probe =>
        if p.call.Probing? {
          BookedProbe(p);
        }
      case HandOver =>
        if p.call.HandingOver? {
          BookedHandOver(p);
        }
      case SlotEvent(i, event) =>
        if i < |p.slots| && !event.Request? {
          BookedSlotEvent(p, i, event);
        }
    }
  }

  lemma NewPoolBooked(slots: nat)
    ensures Booked(NewPool(slots))
  {
    var p := NewPool(slots);
    forall i | 0 <= i < slots
      ensures T.Accounted(p.slots[i])
    {
      T.NewAccounted(RangeStart(i), RangeEnd(i));
    }
  }

  lemma {:induction false} BookedRun(slots: nat, es: seq<PoolEvent>)
    ensures Booked(RunFrom(NewPool(slots), es))
    decreases |es|
  {
    if es == [] {
      NewPoolBooked(slots);
    } else {
      BookedRun(slots, es[..|es| - 1]);
      BookedStep(RunFrom(NewPool(slots), es[..|es| - 1]), es[|es| - 1]);
    }
  }

  /** What has become of a request call of a slot, with multiplicity. */
  ghost function Fates(s: T.Tracker, call: nat): nat {
    T.Tags(s.hand)[call] + T.Tags(s.fired)[call] + multiset(s.cancelled)[call]
      + multiset(s.displaced)[call] + (if T.Waiting(s, call) then 1 else 0)
  }

  /** Whatever the slots do meanwhile, a pool request that has returned either had
      its onError invoked by the pool, once, or was handed over, once, never both;
      the slot's request call that it became is its alone, and has exactly one fate
      there, even if the slot closed after the pool had looked at it. */
  lemma {:induction false} HandedOnceOrFailed(slots: nat, es: seq<PoolEvent>, request: nat)
    requires
      var p := RunFrom(NewPool(slots), es);
      request < p.begun && !InProgress(p, request)
    ensures
      var p := RunFrom(NewPool(slots), es);
      && multiset(p.failed)[request] + Requests(p.handed)[request] == 1
      && (forall h :: h in p.handed && h.request == request ==>
            && h.slot < |p.slots| && h.call < |p.slots[h.slot].idOf|
            && Calls(p.handed)[(h.slot, h.call)] == 1
            && Fates(p.slots[h.slot], h.call) == 1)
  {
    BookedRun(slots, es);
    var p := RunFrom(NewPool(slots), es);
    assert EndedOnce(p, request);
    forall h | h in p.handed && h.request == request
      ensures h.slot < |p.slots| && h.call < |p.slots[h.slot].idOf|
      ensures Calls(p.handed)[(h.slot, h.call)] == 1 && Fates(p.slots[h.slot], h.call) == 1
    {
      CallsIn(p.handed, h);
      assert FromPool(p, h.slot, h.call);
      assert T.OneFate(p.slots[h.slot], h.call);
    }
  }

  lemma {:induction false} CallsIn(handed: seq<Handover>, h: Handover)
    requires h in handed
    ensures Calls(handed)[(h.slot, h.call)] > 0
  {
    var k := |handed| - 1;
    if handed[k] != h {
      assert handed == handed[..k] + [handed[k]];
      CallsIn(handed[..k], h);
    }
  }

  /** Nothing else makes requests: each request call of each slot is one pool
      request, handed over once. */
  lemma {:induction false} SlotCallsArePoolRequests(slots: nat, es: seq<PoolEvent>, slot: nat, call: nat)
    ensures
      var p := RunFrom(NewPool(slots), es);
      Calls(p.handed)[(slot, call)] == if slot < |p.slots| && call < |p.slots[slot].idOf| then 1 else 0
  {
    BookedRun(slots, es);
    assert FromPool(RunFrom(NewPool(slots), es), slot, call);
  }

  ghost predicate NoBegin(es: seq<PoolEvent>) {
    forall e :: e in es ==> !e.Begin?
  }

  /** The ends a request can come to: still under way, failed, or handed over. */
  ghost predicate OneEnd(p: Pool, q: Pool) {
    || (InProgress(q, p.begun) && CallSound(q) && q.failed == p.failed && q.handed == p.handed)
    || (q.call == NoCall && q.failed == p.failed + [p.begun] && q.handed == p.handed)
    || (&& q.call == NoCall && q.failed == p.failed && |q.handed| == |p.handed| + 1
        && q.handed[..|p.handed|] == p.handed
        && q.handed[|p.handed|].request == p.begun && q.handed[|p.handed|].slot < |q.slots|)
  }

  lemma OneEndStep(p: Pool, q: Pool, e: PoolEvent)
    requires OneEnd(p, q) && !e.Begin?
    ensures OneEnd(p, Step(q, e))
  {
    hide T.Step;
  }

  /** From any state of the pool between requests, one request that begins and
      returns, whatever the slots do meanwhile, adds exactly one failure or exactly
      one hand-over, its own. */
  lemma {:induction false} RequestEndsOnce(p: Pool, symbol: string, es: seq<PoolEvent>)
    requires p.call == NoCall && NoBegin(es)
    ensures OneEnd(p, RunFrom(Step(p, Begin(symbol)), es))
    decreases |es|
  {
    if es != [] {
      var k := |es| - 1;
      assert es[k] in es;
      assert NoBegin(es[..k]) by {
        assert forall e :: e in es[..k] ==> e in es;
      }
      RequestEndsOnce(p, symbol, es[..k]);
      OneEndStep(p, RunFrom(Step(p, Begin(symbol)), es[..k]), es[k]);
    }
  }

  // ----- a slot that stays connected is enough ------------------------------------

  /** Slot j is connected before and after each of the events. */
  ghost predicate Stays(p: Pool, es: seq<PoolEvent>, j: nat)
    decreases |es|
  {
    && j < |RunFrom(p, es).slots| && RunFrom(p, es).slots[j].connected
    && (es != [] ==> Stays(p, es[..|es| - 1], j))
  }

  /** The search has not yet come to slot j. */
  ghost predicate NotPast(p: Pool, j: nat) {
    p.call.Probing? ==>
      && p.call.start < |p.slots| && j < |p.slots|
      && p.call.tried <= Distance(p.call.start, j, |p.slots|)
  }

  lemma ProbeNotPast(p: Pool, e: PoolEvent, j: nat)
    requires NotPast(p, j) && j < |p.slots| && p.slots[j].connected && !e.Begin?
    ensures NotPast(Step(p, e), j) && Step(p, e).failed == p.failed
  {
    hide T.Step;
    if p.call.Probing? {
      ForwardIsMod(p.call.start, p.call.tried, |p.slots|);
    }
  }

  lemma {:induction false} StayerNotPast(p: Pool, symbol: string, es: seq<PoolEvent>, j: nat)
    requires p.call == NoCall && NoBegin(es) && Stays(Step(p, Begin(symbol)), es, j)
    ensures RunFrom(Step(p, Begin(symbol)), es).failed == p.failed
    ensures NotPast(RunFrom(Step(p, Begin(symbol)), es), j)
    decreases |es|
  {
    if es != [] {
      var k := |es| - 1;
      assert es[k] in es;
      assert NoBegin(es[..k]) by {
        assert forall e :: e in es[..k] ==> e in es;
      }
      StayerNotPast(p, symbol, es[..k], j);
      ProbeNotPast(RunFrom(Step(p, Begin(symbol)), es[..k]), es[k], j);
    }
  }

  /** If some slot stays connected throughout a request, the pool does not fail it:
      when it returns it has been handed to a slot. */
  lemma {:induction false} StayerIsFound(p: Pool, symbol: string, es: seq<PoolEvent>, j: nat)
    requires p.call == NoCall && NoBegin(es) && Stays(Step(p, Begin(symbol)), es, j)
    ensures
      var q := RunFrom(Step(p, Begin(symbol)), es);
      && q.failed == p.failed
      && (q.call == NoCall ==>
            |q.handed| == |p.handed| + 1 && q.handed[|p.handed|].request == p.begun)
  {
    StayerNotPast(p, symbol, es, j);
    RequestEndsOnce(p, symbol, es);
  }

  // ----- fairness of the hand-overs -----------------------------------------------

  ghost function Flags(p: Pool): (r: seq<bool>)
    ensures |r| == |p.slots|
  {
    seq(|p.slots|, i requires 0 <= i < |p.slots| => p.slots[i].connected)
  }

  /** Before and after each event exactly these slots are connected. */
  ghost predicate FlagsHold(p: Pool, es: seq<PoolEvent>, connected: seq<bool>)
    decreases |es|
  {
    Flags(RunFrom(p, es)) == connected && (es != [] ==> FlagsHold(p, es[..|es| - 1], connected))
  }

  ghost function HandedTo(handed: seq<Handover>, slot: nat): nat {
    if handed == [] then 0
    else HandedTo(handed[..|handed| - 1], slot) + (if handed[|handed| - 1].slot == slot then 1 else 0)
  }

  /** Where the search of the request in progress stands. */
  ghost predicate OnCourse(call: PoolCall, connected: seq<bool>, cursor: nat)
    requires |connected| > 0
  {
    match call
    case NoCall => true
    case Probing(_, _, start, tried) =>
      start == cursor % |connected| && Search(connected, start, tried) == Search(connected, start, 0)
    case HandingOver(_, _, slot) => Search(connected, cursor % |connected|, 0) == Some(slot)
  }

  /** Since p, slot j has been handed what the searches of the completed requests gave
      it, and none of them failed. */
  ghost predicate Dealt(p: Pool, q: Pool, connected: seq<bool>, j: nat)
    requires |connected| > 0
  {
    var begun := q.begun - p.begun;
    var done := begun - (if q.call == NoCall then 0 else 1);
    && done >= 0 && q.nextSlotIndex == p.nextSlotIndex + begun
    && HandedTo(q.handed, j) == HandedTo(p.handed, j) + Served(connected, p.nextSlotIndex, done, j)
    && q.failed == p.failed
    && OnCourse(q.call, connected, p.nextSlotIndex + done)
  }

  lemma ProbeOnCourse(q: Pool, connected: seq<bool>, cursor: nat)
    requires |connected| > 0 && true in connected && Flags(q) == connected && q.call.Probing?
    requires OnCourse(q.call, connected, cursor)
    ensures Step(q, Probe).call != NoCall && OnCourse(Step(q, Probe).call, connected, cursor)
    ensures Step(q, Probe) == q.(call := Step(q, Probe).call)
  {
    hide Search;
    SearchOnce(connected, q.call.start, q.call.tried);
    SearchFindsExactly(connected, q.call.start);
    var index := (q.call.start + q.call.tried) % |connected|;
    assert |q.slots| == |connected| && q.slots[index].connected == Flags(q)[index];
  }

  lemma HandOverCounts(q: Pool, slot: nat)
    requires q.call.HandingOver? && q.call.slot < |q.slots|
    ensures
      var r := Step(q, HandOver);
      && r.call == NoCall && r.begun == q.begun && r.nextSlotIndex == q.nextSlotIndex && r.failed == q.failed
      && HandedTo(r.handed, slot) == HandedTo(q.handed, slot) + (if q.call.slot == slot then 1 else 0)
  {
    hide T.Step;
    var handed := Step(q, HandOver).handed;
    assert handed[..|handed| - 1] == q.handed;
  }

  lemma DealtStep(p: Pool, q: Pool, e: PoolEvent, connected: seq<bool>, j: nat)
    requires |connected| > 0 && true in connected && Flags(q) == connected && Dealt(p, q, connected, j)
    ensures Dealt(p, Step(q, e), connected, j)
  {
    hide T.Step, Search, Served, HandedTo, AfterHandOver;
    match e {
      case Probe =>
        if q.call.Probing? {
          ProbeOnCourse(q, connected, p.nextSlotIndex + (q.begun - p.begun - 1));
        }
      case HandOver =>
        if q.call.HandingOver? {
          var done := q.begun - p.begun - 1;
          SearchFindsExactly(connected, (p.nextSlotIndex + done) % |connected|);
          ServedOnce(connected, p.nextSlotIndex, done, j);
          HandOverCounts(q, j);
        }
      case _ =>
    }
  }

  lemma {:induction false} DealtRun(p: Pool, es: seq<PoolEvent>, connected: seq<bool>, j: nat)
    requires p.call == NoCall && true in connected && FlagsHold(p, es, connected)
    ensures Dealt(p, RunFrom(p, es), connected, j)
    decreases |es|
  {
    if es != [] {
      DealtRun(p, es[..|es| - 1], connected, j);
      DealtStep(p, RunFrom(p, es[..|es| - 1]), es[|es| - 1], connected, j);
    }
  }

  /** Over any stretch of a pool run with as many completed requests as slots, and the
      same slots connected throughout, each connected slot j is handed exactly as many
      of them as its cyclic distance from the previous connected slot, and none
      fails. */
  lemma {:induction false} HandoversRotate(p: Pool, es: seq<PoolEvent>, connected: seq<bool>, j: nat)
    requires p.call == NoCall && FlagsHold(p, es, connected)
    requires j < |connected| && connected[j]
    requires RunFrom(p, es).call == NoCall && RunFrom(p, es).begun == p.begun + |connected|
    ensures
      var q := RunFrom(p, es);
      && HandedTo(q.handed, j) == HandedTo(p.handed, j) + Gap(connected, j, 1)
      && ((forall i :: 0 <= i < |connected| ==> connected[i]) ==>
            HandedTo(q.handed, j) == HandedTo(p.handed, j) + 1)
      && q.failed == p.failed
  {
    hide RunFrom, Search, Served;
    DealtRun(p, es, connected, j);
    RotationIsFair(connected, p.nextSlotIndex, j);
  }

  // ----- a request that nothing interrupts ---------------------------------------------

  lemma RunAppend(p: Pool, es: seq<PoolEvent>, e: PoolEvent)
    ensures RunFrom(p, es + [e]) == Step(RunFrom(p, es), e)
  {
    assert (es + [e])[..|es|] == es;
  }

  lemma {:induction false} RunPrepend(p: Pool, e: PoolEvent, es: seq<PoolEvent>)
    ensures RunFrom(p, [e] + es) == RunFrom(Step(p, e), es)
    decreases |es|
  {
    hide Step;
    if es == [] {
      RunAppend(p, [], e);
      assert [] + [e] == [e] + es;
    } else {
      SplitLast([e], es);
      RunPrepend(p, e, es[..|es| - 1]);
      RunAppend(p, [e] + es[..|es| - 1], es[|es| - 1]);
    }
  }

  /** Request `request` for `symbol` has gone to the slot found, or failed. */
  ghost predicate EndedAs(p: Pool, q: Pool, request: nat, symbol: string, found: Option<nat>) {
    && q.call == NoCall && q.nextSlotIndex == p.nextSlotIndex && q.begun == p.begun
    && (if found.None? then
          q.failed == p.failed + [request] && q.handed == p.handed && q.slots == p.slots
        else
          && found.value < |p.slots| && q.failed == p.failed
          && q.handed == p.handed + [Handover(request, found.value, |p.slots[found.value].idOf|)]
          && q.slots == p.slots[found.value := T.Step(p.slots[found.value], T.Request(symbol))])
  }

  lemma ProbeOnce(p: Pool)
    requires p.call.Probing? && p.call.start < |p.slots| && p.call.tried <= |p.slots|
    ensures
      var q := Step(p, Probe);
      var index := (p.call.start + p.call.tried) % |p.slots|;
      if p.call.tried == |p.slots| then EndedAs(p, q, p.call.request, p.call.symbol, None)
      else if Flags(p)[index] then
        q == p.(call := HandingOver(p.call.request, p.call.symbol, index))
        && EndedAs(p, Step(q, HandOver), p.call.request, p.call.symbol, Some(index))
      else q == p.(call := Probing(p.call.request, p.call.symbol, p.call.start, p.call.tried + 1))
  {
    hide T.Step;
  }

  lemma {:induction false} ProbesEnd(p: Pool) returns (es: seq<PoolEvent>)
    requires p.call.Probing? && p.call.start < |p.slots| && p.call.tried <= |p.slots|
    ensures |es| <= |p.slots| - p.call.tried + 1
    ensures EndedAs(p, RunFrom(p, es), p.call.request, p.call.symbol, Search(Flags(p), p.call.start, p.call.tried))
    decreases |p.slots| - p.call.tried
  {
    hide Step, Search;
    ProbeOnce(p);
    SearchOnce(Flags(p), p.call.start, p.call.tried);
    var q := Step(p, Probe);
    var rest := [];
    if p.call.tried < |p.slots| {
      if Flags(p)[(p.call.start + p.call.tried) % |p.slots|] {
        rest := [HandOver];
        RunAppend(q, [], HandOver);
        assert [] + [HandOver] == rest;
      } else {
        assert Flags(q) == Flags(p);
        rest := ProbesEnd(q);
      }
    }
    es := [Probe] + rest;
    RunPrepend(p, Probe, rest);
  }

  /** A request during which no slot changes returns after at most one step more than
      there are slots: handed to the slot of the cyclic search from the cursor, or
      failed if there is none; the cursor moves on by one. */
  lemma {:induction false} UninterruptedRequest(p: Pool, symbol: string) returns (es: seq<PoolEvent>)
    requires p.call == NoCall && p.slots != []
    ensures |es| <= |p.slots| + 1
    ensures
      EndedAs(p.(nextSlotIndex := p.nextSlotIndex + 1, begun := p.begun + 1),
              RunFrom(Step(p, Begin(symbol)), es), p.begun, symbol,
              Search(Flags(p), p.nextSlotIndex % |p.slots|, 0))
  {
    var b := Step(p, Begin(symbol));
    assert Flags(b) == Flags(p);
    es := ProbesEnd(b);
  }

  // ----- each slot lives its own life ----------------------------------------------------

  /** What the pool run is for slot i: its own events, and the requests handed to it. */
  ghost function EventsOf(p: Pool, es: seq<PoolEvent>, i: nat): seq<T.Event>
    decreases |es|
  {
    if es == [] then []
    else EventsOf(p, es[..|es| - 1], i) + EventOf(RunFrom(p, es[..|es| - 1]), es[|es| - 1], i)
  }

  ghost function EventOf(p: Pool, e: PoolEvent, i: nat): seq<T.Event> {
    match e
    case HandOver => if p.call.HandingOver? && p.call.slot == i < |p.slots| then [T.Request(p.call.symbol)] else []
    case SlotEvent(slot, event) => if slot == i < |p.slots| && !event.Request? then [event] else []
    case _ => []
  }

  lemma SlotStep(p: Pool, e: PoolEvent, i: nat)
    requires i < |p.slots|
    ensures |Step(p, e).slots| == |p.slots|
    ensures
      var own := EventOf(p, e, i);
      Step(p, e).slots[i] == if own == [] then p.slots[i] else T.Step(p.slots[i], own[0])
    ensures |EventOf(p, e, i)| <= 1
  {
    hide T.Step;
  }

  /** In every run of the pool each slot goes through a run of its own, over its own id
      range: all the laws of a connection slot hold of the slots of a pool. */
  lemma {:induction false} SlotIsARun(slots: nat, es: seq<PoolEvent>, i: nat)
    requires i < slots
    ensures
      var p := RunFrom(NewPool(slots), es);
      && |p.slots| == slots
      && p.slots[i] == T.Run(RangeStart(i), RangeEnd(i), EventsOf(NewPool(slots), es, i))
    decreases |es|
  {
    hide T.Step, Step;
    if es != [] {
      var k := |es| - 1;
      SlotIsARun(slots, es[..k], i);
      var before := RunFrom(NewPool(slots), es[..k]);
      SlotStep(before, es[k], i);
      var own := EventOf(before, es[k], i);
      var so := EventsOf(NewPool(slots), es[..k], i);
      if own == [] {
        assert so + own == so;
      } else {
        assert own == [own[0]] && (so + own)[..|so|] == so;
      }
    }
  }
}
