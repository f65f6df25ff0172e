/** Laws of a connection slot over every interleaving: when requests can wait,
    how ids rotate, when one request displaces another, and what a reply says. */
module TrackerLaws {
  import opened Basics
  import opened RequestTracker

  // ----- requests wait only while connected or being disconnected ---------------

  ghost predicate Lifecycle(s: Tracker) {
    && (s.pending != map[] ==> s.connected || s.caller.Stopping? || s.caller.Joining?)
    && (s.connected ==> s.caller == Idle || s.caller == Reading)
  }

  lemma LifecycleStep(s: Tracker, e: Event)
    requires Lifecycle(s)
    ensures Lifecycle(Step(s, e))
  {
  }

  lemma {:induction false} LifecycleRun(start: int, end: int, es: seq<Event>)
    ensures Lifecycle(Run(start, end, es))
    decreases |es|
  {
    if es != [] {
      LifecycleRun(start, end, es[..|es| - 1]);
      LifecycleStep(Run(start, end, es[..|es| - 1]), es[|es| - 1]);
    }
  }

  /** At every section boundary a request can be waiting only while the slot is
      connected or a disconnect is under way; so when connect resets the id
      counter, no request is waiting and no live id can be handed out again. */
  lemma {:induction false} ConnectResetsOverEmptyMap(start: int, end: int, es: seq<Event>)
    ensures
      var s := Run(start, end, es);
      && (s.pending != map[] ==> s.connected || s.caller.Stopping? || s.caller.Joining?)
      && (s.caller == Opening ==> s.pending == map[] && Step(s, OpenSucceeds).pending == map[])
  {
    LifecycleRun(start, end, es);
  }

  // ----- entries come with requests only -----------------------------------------

  ghost predicate FewerEntries(after: map<int, Pending>, before: map<int, Pending>) {
    forall id :: id in after ==>
      id in before && after[id].request == before[id].request && after[id].serial == before[id].serial
  }

  lemma TickKeepsEntries(s: Tracker, id: int, t: Tick)
    ensures FewerEntries(AfterTick(s, id, t).pending, s.pending)
  {
    if id in s.pending {
      assert ApplyTick(s.pending[id], t).serial == s.pending[id].serial;
      assert ApplyTick(s.pending[id], t).request == s.pending[id].request;
    }
  }

  lemma OldEntries(s: Tracker, e: Event)
    requires !e.Request?
    ensures Step(s, e).idOf == s.idOf && FewerEntries(Step(s, e).pending, s.pending)
  {
    hide SnapshotOutcome, DrainCallbacks, Enumerates, ApplyTick, AfterRequest;
    match e {
      case TickPrice(id, t) => TickKeepsEntries(s, id, t);
      case Cancel(id) => assert Step(s, e).pending == s.pending - {id};
      case _ =>
    }
  }

  // ----- the flags, told from the trace -----------------------------------------------

  /** An opening that succeeds connects; a closure and the begin of a disconnect end it. */
  ghost predicate OpenedBy(s: Tracker, e: Event, was: bool) {
    match e
    case OpenSucceeds => s.caller == Opening || was
    case ConnectionClosed(order) => was && !Enumerates(order, s.pending)
    case ConnectCall => was && s.caller != Idle
    case DisconnectCall => was && s.caller != Idle
    case _ => was
  }

  /** Marked as connecting; an outcome and the begin of a disconnect end it. */
  predicate MarkedBy(s: Tracker, e: Event, was: bool) {
    match e
    case MarkConnecting => s.caller == Dialing || was
    case OpenFails => was && s.caller != Opening
    case OpenSucceeds => was && s.caller != Opening
    case ConnectCall => was && s.caller != Idle
    case DisconnectCall => was && s.caller != Idle
    case _ => was
  }

  /** The reader starts; a stop and a closure end it. */
  ghost predicate StartedBy(s: Tracker, e: Event, was: bool) {
    match e
    case ReaderStarts => s.caller == Reading || was
    case StopReader => was && !s.caller.Stopping?
    case ConnectionClosed(order) => was && !Enumerates(order, s.pending)
    case _ => was
  }

  ghost predicate Opened(start: int, end: int, es: seq<Event>)
    decreases |es|
  {
    es != [] && OpenedBy(Run(start, end, es[..|es| - 1]), es[|es| - 1], Opened(start, end, es[..|es| - 1]))
  }

  ghost predicate Marked(start: int, end: int, es: seq<Event>)
    decreases |es|
  {
    es != [] && MarkedBy(Run(start, end, es[..|es| - 1]), es[|es| - 1], Marked(start, end, es[..|es| - 1]))
  }

  ghost predicate Started(start: int, end: int, es: seq<Event>)
    decreases |es|
  {
    es != [] && StartedBy(Run(start, end, es[..|es| - 1]), es[|es| - 1], Started(start, end, es[..|es| - 1]))
  }

  lemma FlagsStep(s: Tracker, e: Event)
    ensures Step(s, e).connected == OpenedBy(s, e, s.connected)
    ensures Step(s, e).connecting == MarkedBy(s, e, s.connecting)
    ensures Step(s, e).readerRunning == StartedBy(s, e, s.readerRunning)
  {
    hide Enumerates, DrainCallbacks, SnapshotOutcome, ApplyTick;
  }

  /** In every run the slot is connected exactly if an opening has succeeded with no
      closure and no begin of a disconnect since, connecting exactly between the mark
      and the outcome, and its reader runs exactly from its start to a stop or a
      closure. */
  lemma {:induction false} FlagsFollowTheTrace(start: int, end: int, es: seq<Event>)
    ensures
      var s := Run(start, end, es);
      && s.connected == Opened(start, end, es)
      && s.connecting == Marked(start, end, es)
      && s.readerRunning == Started(start, end, es)
    decreases |es|
  {
    hide Step, OpenedBy, MarkedBy, StartedBy;
    if es != [] {
      FlagsFollowTheTrace(start, end, es[..|es| - 1]);
      FlagsStep(Run(start, end, es[..|es| - 1]), es[|es| - 1]);
    }
  }

  // ----- whole calls -----------------------------------------------------------------------

  ghost predicate Busy(s: Tracker) {
    s.connected || s.connecting || s.readerRunning
  }

  /** A slot with nothing connected, nothing waiting, and everything called back. */
  ghost function Drained(s: Tracker, order: seq<int>): Tracker {
    s.(connected := false, connecting := false, readerRunning := false,
       pending := map[], fired := s.fired + DrainCallbacks(s.pending, order))
  }

  /** The sections of a disconnect, when nothing comes between, leave a busy slot
      drained, and any other as it is; a connect goes on to dial. */
  lemma WholeDisconnect(s: Tracker, redial: bool, order: seq<int>)
    requires s.caller == Idle && Enumerates(order, s.pending)
    ensures
      var begun := Step(s, if redial then ConnectCall else DisconnectCall);
      var next := if redial then Dialing else Idle;
      if Busy(s)
      then Step(Step(begun, StopReader), FinishDisconnect(order)) == Drained(s, order).(caller := next)
      else begun == s.(caller := next)
  {
    hide DrainCallbacks;
    if Busy(s) {
      var begun := s.(connected := false, connecting := false, caller := Stopping(redial));
      assert Step(s, if redial then ConnectCall else DisconnectCall) == begun;
      var joining := begun.(readerRunning := false, caller := Joining(redial));
      assert Step(begun, StopReader) == joining;
    }
  }

  /** Dialling marks the slot, and then connects it with its ids from the start and
      the reader running, or gives up; either way the call is over. */
  lemma WholeDial(s: Tracker)
    requires s.caller == Dialing
    ensures
      var marked := Step(s, MarkConnecting);
      && Step(marked, OpenFails) == s.(connecting := false, caller := Idle)
      && Step(Step(marked, OpenSucceeds), ReaderStarts)
           == s.(connected := true, connecting := false, readerRunning := true,
                 nextReqId := s.reqIdStart, issued := 0, caller := Idle)
  {
    var marked := s.(connecting := true, caller := Opening);
    assert Step(s, MarkConnecting) == marked;
    var reading := marked.(connected := true, connecting := false, nextReqId := s.reqIdStart, issued := 0,
                           caller := Reading);
    assert Step(marked, OpenSucceeds) == reading;
  }

  /** A new id range keeps the next id if it lies in it, and starts at its beginning
      otherwise. */
  lemma NewRange(s: Tracker, start: int, end: int)
    ensures
      var t := SetRange(s, start, end);
      && t.reqIdStart == start && t.reqIdEnd == end
      && (start <= s.nextReqId <= end ==> t.nextReqId == s.nextReqId)
      && (!(start <= s.nextReqId <= end) ==> t.nextReqId == start)
  {
  }

  // ----- requests made -------------------------------------------------------------------

  /** In every run a request made while the trace has the slot connected gets the next
      id and an empty entry under it, and no callback yet; otherwise it gets id 0 and
      at once its one callback, an error, and the map stays as it is. */
  lemma {:induction false} RequestAnswered(start: int, end: int, es: seq<Event>, symbol: string)
    ensures
      var s := Run(start, end, es);
      var t := Step(s, Request(symbol));
      var call := |s.idOf|;
      if Opened(start, end, es) then
        && t.idOf == s.idOf + [s.nextReqId] && t.fired == s.fired
        && t.pending.Keys == s.pending.Keys + {s.nextReqId}
        && (forall id :: id in s.pending && id != s.nextReqId ==> t.pending[id] == s.pending[id])
        && t.pending[s.nextReqId].request == call
        && BuildReply(t.pending[s.nextReqId]) == Reply(symbol, None, None, None, None, None)
      else
        && t.idOf == s.idOf + [0] && t.pending == s.pending
        && t.fired == s.fired + [Callback(call, Failure("Slot not connected"))]
  {
    FlagsFollowTheTrace(start, end, es);
  }

  /** Nothing opens. */
  ghost predicate NoOpening(es: seq<Event>) {
    forall e :: e in es ==> !e.OpenSucceeds?
  }

  lemma {:induction false} StaysClosed(s: Tracker, es: seq<Event>)
    requires !s.connected && s.pending == map[] && NoOpening(es)
    ensures !RunFrom(s, es).connected && RunFrom(s, es).pending == map[]
    decreases |es|
  {
    if es != [] {
      var k := |es| - 1;
      assert es[k] in es && forall e :: e in es[..k] ==> e in es;
      StaysClosed(s, es[..k]);
      ClosedStep(RunFrom(s, es[..k]), es[k]);
    }
  }

  lemma ClosedStep(s: Tracker, e: Event)
    requires !s.connected && s.pending == map[] && !e.OpenSucceeds?
    ensures !Step(s, e).connected && Step(s, e).pending == map[]
  {
    if !e.Request? {
      OldEntries(s, e);
    }
  }

  /** From a closed connection until the next opening every request gets id 0 and one
      error callback, and nothing waits. */
  lemma {:induction false} ClosedSlotRefuses(start: int, end: int, es: seq<Event>, order: seq<int>, during: seq<Event>,
                                             symbol: string)
    requires Enumerates(order, Run(start, end, es).pending) && NoOpening(during)
    ensures
      var s := RunFrom(Step(Run(start, end, es), ConnectionClosed(order)), during);
      var t := Step(s, Request(symbol));
      && t.pending == map[] && t.idOf == s.idOf + [0]
      && t.fired == s.fired + [Callback(|s.idOf|, Failure("Slot not connected"))]
  {
    var closed := Step(Run(start, end, es), ConnectionClosed(order));
    assert !closed.connected && closed.pending == map[];
    StaysClosed(closed, during);
  }

  // ----- id rotation ---------------------------------------------------------------

  function Range(s: Tracker): int { s.reqIdEnd - s.reqIdStart + 1 }

  /** The id that comes `n` requests after connect. */
  function IdAt(s: Tracker, n: nat): int
    requires Range(s) > 0
  {
    s.reqIdStart + n % Range(s)
  }

  ghost predicate Rotating(s: Tracker) {
    && Range(s) > 0
    && (s.connected ==> s.nextReqId == IdAt(s, s.issued))
    && (forall id :: id in s.pending ==>
          && s.pending[id].serial < s.issued <= s.pending[id].serial + Range(s)
          && id == IdAt(s, s.pending[id].serial))
  }

  lemma RequestRotates(s: Tracker, symbol: string)
    requires Rotating(s)
    ensures Rotating(AfterRequest(s, symbol))
  {
    if s.connected {
      var t := AfterRequest(s, symbol);
      NextDivMod(s.issued, Range(s));
      forall id | id in t.pending && id != s.nextReqId
        ensures t.issued <= t.pending[id].serial + Range(s)
      {
        var serial := s.pending[id].serial;
        if s.issued == serial + Range(s) {
          ModShift(serial, Range(s));
        }
      }
    }
  }

  /** Steps that add no entry and leave the counters alone. */
  lemma RotatingKept(s: Tracker, t: Tracker)
    requires Rotating(s)
    requires t.reqIdStart == s.reqIdStart && t.reqIdEnd == s.reqIdEnd
    requires t.issued == s.issued && t.nextReqId == s.nextReqId && (t.connected ==> s.connected)
    requires forall id :: id in t.pending ==> id in s.pending && t.pending[id].serial == s.pending[id].serial
    ensures Rotating(t)
  {
  }

  lemma NoNewEntries(s: Tracker, e: Event)
    requires !e.Request? && !e.OpenSucceeds?
    ensures
      var t := Step(s, e);
      && t.reqIdStart == s.reqIdStart && t.reqIdEnd == s.reqIdEnd
      && t.issued == s.issued && t.nextReqId == s.nextReqId && (t.connected ==> s.connected)
      && (forall id :: id in t.pending ==> id in s.pending && t.pending[id].serial == s.pending[id].serial)
  {
    OldEntries(s, e);
    hide SnapshotOutcome, DrainCallbacks, Enumerates, ApplyTick, AfterRequest;
  }

  lemma RotatingStep(s: Tracker, e: Event)
    requires Rotating(s) && Lifecycle(s)
    ensures Rotating(Step(s, e))
    ensures Step(s, e).reqIdStart == s.reqIdStart && Step(s, e).reqIdEnd == s.reqIdEnd
  {
    if e.Request? {
      RequestRotates(s, e.symbol);
    } else if e.OpenSucceeds? {
    } else {
      NoNewEntries(s, e);
      RotatingKept(s, Step(s, e));
    }
  }

  lemma {:induction false} RotatingRun(start: int, end: int, es: seq<Event>)
    requires start <= end
    ensures Rotating(Run(start, end, es))
    ensures Run(start, end, es).reqIdStart == start && Run(start, end, es).reqIdEnd == end
    decreases |es|
  {
    if es != [] {
      var before := Run(start, end, es[..|es| - 1]);
      RotatingRun(start, end, es[..|es| - 1]);
      LifecycleRun(start, end, es[..|es| - 1]);
      RotatingStep(before, es[|es| - 1]);
    }
  }

  /** The n-th request since connect (from 0) gets id start + n mod range, and the
      ids of any range-length window of requests are distinct. */
  lemma {:induction false} IdsRotate(start: int, end: int, es: seq<Event>, symbol: string)
    requires start <= end && Run(start, end, es).connected
    ensures
      var s := Run(start, end, es);
      var t := Step(s, Request(symbol));
      && t.idOf == s.idOf + [start + s.issued % (end - start + 1)]
      && start <= t.idOf[|s.idOf|] <= end
      && t.issued == s.issued + 1
  {
    RotatingRun(start, end, es);
  }

  /** Two requests of a run get different ids if their ordinals since connect differ by
      less than a full range, whatever else happens on the slot. */
  lemma {:induction false} WindowDistinct(start: int, end: int, es: seq<Event>, first: string,
                                          during: seq<Event>, second: string)
    requires start <= end
    requires
      var s := Run(start, end, es);
      var t := RunFrom(s, [Request(first)] + during);
      s.connected && t.connected && s.issued < t.issued < s.issued + (end - start + 1)
    ensures
      var s := Run(start, end, es);
      var t := RunFrom(s, [Request(first)] + during);
      var u := Step(t, Request(second));
      && |s.idOf| < |t.idOf| < |u.idOf|
      && u.idOf[|s.idOf|] == s.nextReqId && u.idOf[|t.idOf|] == t.nextReqId
      && u.idOf[|s.idOf|] != u.idOf[|t.idOf|]
  {
    hide Step;
    var s := Run(start, end, es);
    var t := RunFrom(s, [Request(first)] + during);
    RunSplit(NewTracker(start, end), es, [Request(first)] + during);
    RotatingRun(start, end, es);
    RotatingRun(start, end, es + ([Request(first)] + during));
    ModDistinct(s.issued, t.issued, end - start + 1);
    RunSplit(s, [Request(first)], during);
    RunAppend(s, [], Request(first));
    assert [] + [Request(first)] == [Request(first)];
    IdGiven(s, first);
    IdsStay(Step(s, Request(first)), during);
    IdGiven(t, second);
  }

  lemma IdGiven(s: Tracker, symbol: string)
    requires s.connected
    ensures Step(s, Request(symbol)).idOf == s.idOf + [s.nextReqId]
  {
  }

  lemma {:induction false} RunSplit(s: Tracker, es: seq<Event>, fs: seq<Event>)
    ensures RunFrom(s, es + fs) == RunFrom(RunFrom(s, es), fs)
    decreases |fs|
  {
    if fs == [] {
      assert es + fs == es;
    } else {
      SplitLast(es, fs);
      RunSplit(s, es, fs[..|fs| - 1]);
      RunAppend(s, es + fs[..|fs| - 1], fs[|fs| - 1]);
    }
  }

  lemma IdsOnlyAdded(s: Tracker, e: Event)
    ensures s.idOf <= Step(s, e).idOf
  {
    if !e.Request? {
      OldEntries(s, e);
    }
  }

  /** The id given to a request never changes. */
  lemma {:induction false} IdsStay(s: Tracker, es: seq<Event>)
    ensures s.idOf <= RunFrom(s, es).idOf
    decreases |es|
  {
    if es != [] {
      IdsStay(s, es[..|es| - 1]);
      IdsOnlyAdded(RunFrom(s, es[..|es| - 1]), es[|es| - 1]);
    }
  }

  /** Every waiting id lies in the slot's own range. */
  lemma {:induction false} IdsInRange(start: int, end: int, es: seq<Event>, id: int)
    requires start <= end && id in Run(start, end, es).pending
    ensures start <= id <= end
  {
    RotatingRun(start, end, es);
  }

  // ----- displacement ------------------------------------------------------------

  /** Some waiting request was issued exactly a full range of requests ago. */
  ghost predicate Lapped(s: Tracker) {
    exists id :: id in s.pending && s.pending[id].serial + Range(s) == s.issued
  }

  lemma {:induction false} LappedExactly(s: Tracker)
    requires Rotating(s) && s.connected
    ensures s.nextReqId in s.pending <==> Lapped(s)
  {
    if s.nextReqId in s.pending {
      var serial := s.pending[s.nextReqId].serial;
      if s.issued < serial + Range(s) {
        ModDistinct(serial, s.issued, Range(s));
      }
    }
    if Lapped(s) {
      var id :| id in s.pending && s.pending[id].serial + Range(s) == s.issued;
      ModShift(s.pending[id].serial, Range(s));
    }
  }

  /** No request is made while one issued a full range earlier still waits. */
  ghost predicate NeverLapped(start: int, end: int, es: seq<Event>)
    decreases |es|
  {
    es != [] ==>
      && NeverLapped(start, end, es[..|es| - 1])
      && var s := Run(start, end, es[..|es| - 1]);
         (es[|es| - 1].Request? && s.connected ==> !Lapped(s))
  }

  /** Requests are displaced exactly in the runs in which some request is made
      while the one issued a full id range earlier is still waiting. */
  lemma {:induction false} DisplacedExactly(start: int, end: int, es: seq<Event>)
    requires start <= end
    ensures Run(start, end, es).displaced == [] <==> NeverLapped(start, end, es)
    decreases |es|
  {
    if es != [] {
      var s, e := Run(start, end, es[..|es| - 1]), es[|es| - 1];
      DisplacedExactly(start, end, es[..|es| - 1]);
      RotatingRun(start, end, es[..|es| - 1]);
      if e.Request? && s.connected {
        LappedExactly(s);
      }
      DisplacedGrows(s, e);
    }
  }

  /** The slot connects. */
  function Connecting(): seq<Event> { [ConnectCall, MarkConnecting, OpenSucceeds, ReaderStarts] }

  function Requests(symbol: string, n: nat): seq<Event> { seq(n, _ => Request(symbol)) }

  lemma Connects(s: Tracker)
    requires s.caller == Idle && !s.connected && !s.connecting && !s.readerRunning
    ensures Step(Step(Step(Step(s, ConnectCall), MarkConnecting), OpenSucceeds), ReaderStarts)
         == s.(connected := true, readerRunning := true, nextReqId := s.reqIdStart, issued := 0)
  {
    assert Step(s, ConnectCall) == s.(caller := Dialing);
    WholeDial(s.(caller := Dialing));
  }

  lemma RunAppend(s: Tracker, es: seq<Event>, e: Event)
    ensures RunFrom(s, es + [e]) == Step(RunFrom(s, es), e)
  {
    assert (es + [e])[..|es|] == es;
  }

  lemma Connected(start: int, end: int)
    ensures
      var s := Run(start, end, Connecting());
      && s.connected && s.nextReqId == start && s.pending == map[] && s.idOf == []
      && s.reqIdStart == start && s.reqIdEnd == end
  {
    hide Step;
    var s := NewTracker(start, end);
    RunAppend(s, [], ConnectCall);
    RunAppend(s, [ConnectCall], MarkConnecting);
    RunAppend(s, [ConnectCall, MarkConnecting], OpenSucceeds);
    RunAppend(s, [ConnectCall, MarkConnecting, OpenSucceeds], ReaderStarts);
    assert [] + [ConnectCall] == [ConnectCall];
    assert [ConnectCall] + [MarkConnecting] == [ConnectCall, MarkConnecting];
    assert [ConnectCall, MarkConnecting] + [OpenSucceeds] == [ConnectCall, MarkConnecting, OpenSucceeds];
    assert [ConnectCall, MarkConnecting, OpenSucceeds] + [ReaderStarts] == Connecting();
    Connects(s);
  }

  /** The first request still waits under the first id; `next` is the id to come. */
  ghost predicate FirstWaits(s: Tracker, next: int) {
    && s.connected && s.nextReqId == next
    && s.reqIdStart in s.pending && s.pending[s.reqIdStart].request == 0
  }

  lemma RequestKeepsFirst(s: Tracker, symbol: string)
    requires s.connected && s.reqIdStart <= s.nextReqId <= s.reqIdEnd
    requires if s.idOf == [] then s.nextReqId == s.reqIdStart
             else s.nextReqId > s.reqIdStart && FirstWaits(s, s.nextReqId)
    ensures
      var t := Step(s, Request(symbol));
      && t.reqIdStart == s.reqIdStart && t.reqIdEnd == s.reqIdEnd && |t.idOf| == |s.idOf| + 1
      && FirstWaits(t, if s.nextReqId + 1 > s.reqIdEnd then s.reqIdStart else s.nextReqId + 1)
  {
  }

  /** After n requests, no more than fit the range, the first one still waits. */
  lemma {:induction false} FirstStillWaits(start: int, end: int, symbol: string, n: nat)
    requires start <= end && 1 <= n <= end - start + 1
    ensures
      var s := Run(start, end, Connecting() + Requests(symbol, n));
      && s.reqIdStart == start && s.reqIdEnd == end && |s.idOf| == n
      && FirstWaits(s, if start + n > end then start else start + n)
    decreases n
  {
    hide Step;
    var before := Connecting() + Requests(symbol, n - 1);
    assert Connecting() + Requests(symbol, n) == before + [Request(symbol)];
    RunAppend(NewTracker(start, end), before, Request(symbol));
    if n == 1 {
      assert Connecting() + Requests(symbol, 0) == Connecting();
      Connected(start, end);
    } else {
      FirstStillWaits(start, end, symbol, n - 1);
    }
    RequestKeepsFirst(Run(start, end, before), symbol);
  }

  /** Whatever the range, one more request than it has ids, none of them answered,
      displaces the first. */
  lemma {:induction false} FullLapDisplaces(start: int, end: int, symbol: string)
    requires start <= end
    ensures 0 in Run(start, end, Connecting() + Requests(symbol, end - start + 2)).displaced
  {
    hide Step;
    var before := Connecting() + Requests(symbol, end - start + 1);
    assert Connecting() + Requests(symbol, end - start + 2) == before + [Request(symbol)];
    RunAppend(NewTracker(start, end), before, Request(symbol));
    FirstStillWaits(start, end, symbol, end - start + 1);
    DisplacedGrows(Run(start, end, before), Request(symbol));
  }

  lemma DisplacedGrows(s: Tracker, e: Event)
    ensures Step(s, e).displaced
         == s.displaced + (if e.Request? && s.connected && s.nextReqId in s.pending
                           then [s.pending[s.nextReqId].request] else [])
  {
  }

  // ----- what a reply says ----------------------------------------------------------

  /** The last non-negative price of a field among the ticks for an id. */
  ghost function LastPrice(es: seq<Event>, id: int, field: TickField): Option<real>
    decreases |es|
  {
    if es == [] then None
    else
      var e := es[|es| - 1];
      if e.TickPrice? && e.id == id && e.tick.field == field && e.tick.price >= 0.0
      then Some(e.tick.price)
      else LastPrice(es[..|es| - 1], id, field)
  }

  ghost predicate Quotes(p: Pending, es: seq<Event>, id: int) {
    && (if p.hasBid then Some(p.bid) else None) == LastPrice(es, id, Bid)
    && (if p.hasAsk then Some(p.ask) else None) == LastPrice(es, id, Ask)
    && (if p.hasLast then Some(p.last) else None) == LastPrice(es, id, Last)
    && !p.hasVolume
  }

  /** A step keeps a waiting entry as it is, unless it is a tick for its own id. */
  lemma OnlyOwnTicks(s: Tracker, e: Event, id: int, request: nat)
    requires request < |s.idOf|
    requires id in Step(s, e).pending && Step(s, e).pending[id].request == request
    ensures id in s.pending && s.pending[id].request == request
    ensures Step(s, e).pending[id]
         == if e.TickPrice? && e.id == id then ApplyTick(s.pending[id], e.tick) else s.pending[id]
    ensures |s.idOf| <= |Step(s, e).idOf|
  {
    hide SnapshotOutcome, DrainCallbacks, Enumerates, ApplyTick;
    if e.Request? {
    } else {
      OldEntries(s, e);
      hide AfterRequest;
      match e {
        case Cancel(other) => assert Step(s, e).pending == s.pending - {other};
        case _ =>
      }
    }
  }

  lemma CallsNeverShrink(s: Tracker, e: Event)
    ensures |s.idOf| <= |Step(s, e).idOf|
  {
    if !e.Request? {
      OldEntries(s, e);
    }
  }

  lemma {:induction false} CallsGrow(s: Tracker, es: seq<Event>)
    ensures |s.idOf| <= |RunFrom(s, es).idOf|
    decreases |es|
  {
    if es != [] {
      CallsGrow(s, es[..|es| - 1]);
      CallsNeverShrink(RunFrom(s, es[..|es| - 1]), es[|es| - 1]);
    }
  }

  /** While a request waits, its entry is the fold of its own ticks only, whatever
      else happens on the slot. */
  lemma {:induction false} EntryQuotesOwnTicks(s: Tracker, es: seq<Event>, id: int, symbol: string, request: nat, serial: nat)
    requires request < |s.idOf|
    requires id in s.pending && s.pending[id] == NewPending(symbol, request, serial)
    requires id in RunFrom(s, es).pending && RunFrom(s, es).pending[id].request == request
    ensures
      var p := RunFrom(s, es).pending[id];
      p.symbol == symbol && Quotes(p, es, id)
    decreases |es|
  {
    hide Step;
    if es != [] {
      var before := RunFrom(s, es[..|es| - 1]);
      CallsGrow(s, es[..|es| - 1]);
      OnlyOwnTicks(before, es[|es| - 1], id, request);
      EntryQuotesOwnTicks(s, es[..|es| - 1], id, symbol, request, serial);
    }
  }

  /** What a snapshot must answer, from the trace alone. */
  ghost function ExpectedOutcome(symbol: string, es: seq<Event>, id: int): Outcome {
    var bid, ask, last := LastPrice(es, id, Bid), LastPrice(es, id, Ask), LastPrice(es, id, Last);
    if bid.None? && ask.None? && last.None? then Failure("No market data returned for symbol")
    else
      var mid := if bid.Some? && ask.Some? then Some((bid.value + ask.value) / 2.0) else None;
      Success(Reply(symbol, bid, ask, mid, last, None))
  }

  /** For any interleaving between the request and its snapshot-end, the callback
      that snapshot-end takes in hand answers with the last non-negative bid, ask
      and last of that request's own ticks, the mid when both sides were seen, and
      an error exactly when none of the three was. */
  lemma {:induction false} SnapshotAnswersOwnTicks(start: int, end: int, before: seq<Event>, symbol: string, during: seq<Event>)
    requires Run(start, end, before).connected
    requires
      var s := Run(start, end, before);
      var t := RunFrom(Step(s, Request(symbol)), during);
      s.nextReqId in t.pending && t.pending[s.nextReqId].request == |s.idOf|
    ensures
      var s := Run(start, end, before);
      var t := RunFrom(Step(s, Request(symbol)), during);
      var u := Step(t, SnapshotEnd(s.nextReqId));
      && u.hand == t.hand + [Callback(|s.idOf|, ExpectedOutcome(symbol, during, s.nextReqId))]
      && s.nextReqId !in u.pending
      && (forall id :: id in t.pending && id != s.nextReqId ==> id in u.pending && u.pending[id] == t.pending[id])
  {
    var s := Run(start, end, before);
    var id := s.nextReqId;
    EntryQuotesOwnTicks(Step(s, Request(symbol)), during, id, symbol, |s.idOf|, s.issued);
    var p := RunFrom(Step(s, Request(symbol)), during).pending[id];
    assert (p.bid + p.ask) * 0.5 == (p.bid + p.ask) / 2.0;
  }

  // ----- what an error says -----------------------------------------------------------

  /** A waiting entry belongs to the last request that was given its id. */
  ghost predicate Newest(s: Tracker) {
    forall id, call :: id in s.pending && id > 0 && s.pending[id].request < call < |s.idOf| ==>
      s.idOf[call] != id
  }

  lemma NewestStep(s: Tracker, e: Event)
    requires Newest(s)
    ensures Newest(Step(s, e))
  {
    if !e.Request? {
      OldEntries(s, e);
    }
  }

  lemma {:induction false} NewestRun(start: int, end: int, es: seq<Event>)
    ensures Newest(Run(start, end, es))
    decreases |es|
  {
    if es != [] {
      NewestRun(start, end, es[..|es| - 1]);
      NewestStep(Run(start, end, es[..|es| - 1]), es[|es| - 1]);
    }
  }

  /** A callback taken in hand stays there until it is invoked. */
  ghost predicate Promised(s: Tracker, callback: Callback) {
    callback in s.hand || callback in s.fired
  }

  lemma PromisedStep(s: Tracker, e: Event, callback: Callback)
    requires Promised(s, callback)
    ensures Promised(Step(s, e), callback)
  {
    match e {
      case Deliver(k) =>
        if k < |s.hand| {
          assert s.hand == s.hand[..k] + [s.hand[k]] + s.hand[k + 1..];
        }
      case _ =>
    }
  }

  lemma {:induction false} PromisedRun(s: Tracker, es: seq<Event>, callback: Callback)
    requires Promised(s, callback)
    ensures Promised(RunFrom(s, es), callback)
    decreases |es|
  {
    if es != [] {
      PromisedRun(s, es[..|es| - 1], callback);
      PromisedStep(RunFrom(s, es[..|es| - 1]), es[|es| - 1], callback);
    }
  }

  lemma {:induction false} TagsIn(callbacks: seq<Callback>, callback: Callback)
    requires callback in callbacks
    ensures Tags(callbacks)[callback.request] > 0
  {
    var k := |callbacks| - 1;
    if callbacks[k] != callback {
      assert callbacks == callbacks[..k] + [callbacks[k]];
      TagsIn(callbacks[..k], callback);
    }
  }

  /** The callback is the only thing that ever comes of its request. */
  ghost predicate OnlyFate(s: Tracker, callback: Callback) {
    && Promised(s, callback)
    && Tags(s.hand)[callback.request] + Tags(s.fired)[callback.request] == 1
    && callback.request !in s.cancelled && callback.request !in s.displaced
    && !Waiting(s, callback.request)
  }

  lemma {:induction false} PromiseIsKept(s: Tracker, es: seq<Event>, callback: Callback)
    requires Accounted(s) && Promised(s, callback)
    ensures OnlyFate(RunFrom(s, es), callback)
  {
    var t := RunFrom(s, es);
    AccountedFrom(s, es);
    PromisedRun(s, es, callback);
    assert OneFate(t, callback.request);
    if callback in t.hand {
      TagsIn(t.hand, callback);
    } else {
      TagsIn(t.fired, callback);
    }
  }

  /** In every run, an error for a waiting id goes to the request that was given
      that id last and has come to nothing so far: from then on, whatever happens,
      the error with its message is the one callback of that request, and until then
      it had none; the other entries stay.  An error for any other id changes
      nothing. */
  lemma {:induction false} ErrorIsTheOnlyFate(start: int, end: int, es: seq<Event>, id: int, message: string,
                                              more: seq<Event>)
    ensures
      var s := Run(start, end, es);
      var t := Step(s, Error(id, message));
      if id > 0 && id in s.pending then
        var call := s.pending[id].request;
        && call < |s.idOf| && s.idOf[call] == id
        && (forall later :: call < later < |s.idOf| ==> s.idOf[later] != id)
        && Settled(s)[call] == 0
        && OnlyFate(RunFrom(t, more), Callback(call, Failure(message)))
        && t.pending == s.pending - {id}
      else t == s
  {
    var s := Run(start, end, es);
    AccountedRun(start, end, es);
    NewestRun(start, end, es);
    if id > 0 && id in s.pending {
      var t := Step(s, Error(id, message));
      var callback := Callback(s.pending[id].request, Failure(message));
      assert OneFate(s, callback.request);
      assert Waiting(s, callback.request);
      AccountedStep(s, Error(id, message));
      PromiseIsKept(t, more, callback);
    }
  }

  function Deliveries(n: nat): seq<Event> { seq(n, _ => Deliver(0)) }

  /** Whatever is in hand can be delivered: as many deliveries empty the hand and have
      invoked its callbacks, in order, and nothing else. */
  lemma {:induction false} HandIsDelivered(s: Tracker, n: nat)
    requires n <= |s.hand|
    ensures RunFrom(s, Deliveries(n)) == s.(hand := s.hand[n..], fired := s.fired + s.hand[..n])
    decreases n
  {
    if n == 0 {
      assert s.hand[0..] == s.hand && s.fired + s.hand[..0] == s.fired;
    } else {
      assert Deliveries(n) == Deliveries(n - 1) + [Deliver(0)];
      RunAppend(s, Deliveries(n - 1), Deliver(0));
      HandIsDelivered(s, n - 1);
      assert s.hand[n - 1..][0] == s.hand[n - 1] && s.hand[n - 1..][1..] == s.hand[n..];
      assert s.hand[..n] == s.hand[..n - 1] + [s.hand[n - 1]];
      ConcatAssociates(s.fired, s.hand[..n - 1], [s.hand[n - 1]]);
    }
  }

  // ----- what a cancel does ---------------------------------------------------------------

  ghost predicate Cancelled(s: Tracker, call: nat) {
    && Accounted(s) && call < |s.idOf| && call in s.cancelled
  }

  lemma CancelledStep(s: Tracker, e: Event, call: nat)
    requires Cancelled(s, call)
    ensures Cancelled(Step(s, e), call)
  {
    AccountedStep(s, e);
    CallsNeverShrink(s, e);
    hide Accounted, DrainCallbacks, Enumerates, SnapshotOutcome;
  }

  lemma {:induction false} CancelledRun(s: Tracker, es: seq<Event>, call: nat)
    requires Cancelled(s, call)
    ensures Cancelled(RunFrom(s, es), call)
    decreases |es|
  {
    hide Step;
    if es != [] {
      CancelledRun(s, es[..|es| - 1], call);
      CancelledStep(RunFrom(s, es[..|es| - 1]), es[|es| - 1], call);
    }
  }

  lemma CancelledNeverCalled(s: Tracker, call: nat)
    requires Cancelled(s, call)
    ensures Tags(s.hand)[call] == 0 && Tags(s.fired)[call] == 0 && !Waiting(s, call)
  {
    assert OneFate(s, call);
    assert multiset(s.cancelled)[call] > 0;
  }

  /** In every run a cancel of a waiting id takes its entry out and no other; no
      callback of its request is ever invoked or taken in hand afterwards.  A cancel
      of any other id changes nothing. */
  lemma {:induction false} CancelSilences(start: int, end: int, es: seq<Event>, id: int, more: seq<Event>)
    ensures
      var s := Run(start, end, es);
      var t := Step(s, Cancel(id));
      var u := RunFrom(t, more);
      && t.pending == s.pending - {id}
      && (id in s.pending ==>
            var call := s.pending[id].request;
            Tags(u.hand)[call] == 0 && Tags(u.fired)[call] == 0 && !Waiting(u, call))
      && (id !in s.pending ==> t == s)
  {
    var s := Run(start, end, es);
    AccountedRun(start, end, es);
    AccountedStep(s, Cancel(id));
    if id in s.pending {
      var call := s.pending[id].request;
      CancelledRun(Step(s, Cancel(id)), more, call);
      CancelledNeverCalled(RunFrom(Step(s, Cancel(id)), more), call);
    }
  }

  /** Ticks, snapshot-ends, errors and cancels for an id that does not wait change
      nothing. */
  lemma UnknownIdsChangeNothing(s: Tracker, e: Event, id: int)
    requires id !in s.pending
    requires e == SnapshotEnd(id) || e == Cancel(id) || (e.TickPrice? && e.id == id) || (e.Error? && e.id == id)
    ensures Step(s, e) == s
  {
    assert s.pending - {id} == s.pending;
  }
}
