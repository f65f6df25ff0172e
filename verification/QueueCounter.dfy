/** The `queuedPublishes_` counter when slots run on separate threads: a deque and
    the counter change in two separate atomic steps
    (src/messaging/rabbitmq_broker.cc:61-64, 438-439, 472-473, 483-485). */
module QueueCounter {

  /** Where a slot is between a deque update and its counter update. */
  datatype Phase =
    | Settled        // no update half done
    | Pushed         // deque longer, counter not yet raised
    | Popped         // deque shorter, counter not yet lowered
    | Discounted     // stop task: counter lowered by the size, deque not yet cleared

  datatype Deque = Deque(size: nat, phase: Phase)

  datatype State = State(deques: seq<Deque>, counter: int)

  /** The atomic steps of one slot's thread. */
  datatype Event =
    | Push(slot: nat)
    | CountUp(slot: nat)
    | Pop(slot: nat)
    | CountDown(slot: nat)
    | CountOut(slot: nat)
    | Clear(slot: nat)

  function Fresh(slots: nat): State { State(seq(slots, _ => Deque(0, Settled)), 0) }

  /** By how much a step lowers the counter. */
  function Lowers(s: State, e: Event): nat {
    if e.slot >= |s.deques| then 0
    else
      var d := s.deques[e.slot];
      if e.CountDown? && d.phase == Popped then 1
      else if e.CountOut? && d.phase == Settled then d.size
      else 0
  }

  function StepDeque(d: Deque, e: Event): Deque {
    match (e, d.phase)
    case (Push(_), Settled) => Deque(d.size + 1, Pushed)
    case (CountUp(_), Pushed) => Deque(d.size, Settled)
    case (Pop(_), Settled) => if d.size > 0 then Deque(d.size - 1, Popped) else d
    case (CountDown(_), Popped) => Deque(d.size, Settled)
    case (CountOut(_), Settled) => Deque(d.size, Discounted)
    case (Clear(_), Discounted) => Deque(0, Settled)
    case _ => d
  }

  function Step(s: State, e: Event): State {
    if e.slot >= |s.deques| then s
    else
      var raise := if e.CountUp? && s.deques[e.slot].phase == Pushed then 1 else 0;
      State(s.deques[e.slot := StepDeque(s.deques[e.slot], e)], s.counter + raise - Lowers(s, e))
  }

  function Run(s: State, es: seq<Event>): State
    decreases |es|
  {
    if es == [] then s else Step(Run(s, es[..|es| - 1]), es[|es| - 1])
  }

  /** What the counter holds on account of a deque. */
  ghost function Share(d: Deque): int {
    match d.phase
    case Settled => d.size
    case Pushed => d.size - 1
    case Popped => d.size + 1
    case Discounted => 0
  }

  ghost function Shares(ds: seq<Deque>): int {
    if ds == [] then 0 else Shares(ds[..|ds| - 1]) + Share(ds[|ds| - 1])
  }

  ghost function Sizes(ds: seq<Deque>): nat {
    if ds == [] then 0 else Sizes(ds[..|ds| - 1]) + ds[|ds| - 1].size
  }

  ghost predicate Fair(s: State) {
    && s.counter == Shares(s.deques)
    && (forall i :: 0 <= i < |s.deques| ==> s.deques[i].phase == Pushed ==> s.deques[i].size > 0)
  }

  lemma {:induction false} SharesUpdate(ds: seq<Deque>, i: nat, d: Deque)
    requires i < |ds|
    ensures Shares(ds[i := d]) == Shares(ds) - Share(ds[i]) + Share(d)
  {
    var k := |ds| - 1;
    if i < k {
      SharesUpdate(ds[..k], i, d);
      assert ds[i := d][..k] == ds[..k][i := d];
    } else {
      assert ds[i := d][..k] == ds[..k];
    }
  }

  lemma {:induction false} ShareBelowTotal(ds: seq<Deque>, i: nat)
    requires i < |ds|
    requires forall k :: 0 <= k < |ds| ==> Share(ds[k]) >= 0
    ensures 0 <= Share(ds[i]) <= Shares(ds)
  {
    var k := |ds| - 1;
    if i < k {
      ShareBelowTotal(ds[..k], i);
    } else {
      SharesNonNegative(ds[..k]);
    }
  }

  lemma {:induction false} SharesNonNegative(ds: seq<Deque>)
    requires forall k :: 0 <= k < |ds| ==> Share(ds[k]) >= 0
    ensures Shares(ds) >= 0
  {
    if ds != [] {
      SharesNonNegative(ds[..|ds| - 1]);
    }
  }

  lemma FairStep(s: State, e: Event)
    requires Fair(s)
    ensures Fair(Step(s, e))
  {
    if e.slot < |s.deques| {
      SharesUpdate(s.deques, e.slot, StepDeque(s.deques[e.slot], e));
    }
  }

  lemma {:induction false} SharesOfFresh(slots: nat)
    ensures Shares(Fresh(slots).deques) == 0
  {
    if slots > 0 {
      assert Fresh(slots).deques[..slots - 1] == Fresh(slots - 1).deques;
      SharesOfFresh(slots - 1);
    }
  }

  lemma {:induction false} FairRun(slots: nat, es: seq<Event>)
    ensures Fair(Run(Fresh(slots), es))
    decreases |es|
  {
    if es == [] {
      SharesOfFresh(slots);
    } else {
      FairRun(slots, es[..|es| - 1]);
      FairStep(Run(Fresh(slots), es[..|es| - 1]), es[|es| - 1]);
    }
  }

  lemma {:induction false} SettledSizes(ds: seq<Deque>)
    requires forall i :: 0 <= i < |ds| ==> ds[i].phase == Settled
    ensures Shares(ds) == Sizes(ds)
  {
    if ds != [] {
      SettledSizes(ds[..|ds| - 1]);
    }
  }

  /** Under every interleaving the unsigned counter never underflows: no step asks
      to lower it by more than it holds. */
  lemma {:induction false} CounterNeverUnderflows(slots: nat, es: seq<Event>, e: Event)
    ensures Lowers(Run(Fresh(slots), es), e) <= Run(Fresh(slots), es).counter
  {
    FairRun(slots, es);
    var s := Run(Fresh(slots), es);
    if e.slot < |s.deques| {
      ShareBelowTotal(s.deques, e.slot);
    } else {
      SharesNonNegative(s.deques);
    }
  }

  /** Whenever no slot is between its paired updates, the counter is the number of
      publishes waiting in all deques. */
  lemma {:induction false} CounterIsTotalWhenSettled(slots: nat, es: seq<Event>)
    requires forall d :: d in Run(Fresh(slots), es).deques ==> d.phase == Settled
    ensures Run(Fresh(slots), es).counter == Sizes(Run(Fresh(slots), es).deques)
  {
    FairRun(slots, es);
    SettledSizes(Run(Fresh(slots), es).deques);
  }

  lemma {:induction false} RunTwo(s: State, first: Event, second: Event)
    ensures Run(s, [first, second]) == Step(Step(s, first), second)
  {
    assert [first, second][..1] == [first] && [first][..0] == [];
    assert Run(s, [first]) == Step(Run(s, []), first);
  }

  /** On a settled deque a push and its count, a pop and its count, and a stop's count
      and clearing each settle it again, with the size and the counter moved alike and
      no other deque touched. */
  lemma {:induction false} PairedUpdates(s: State, i: nat)
    requires i < |s.deques| && s.deques[i].phase == Settled
    ensures
      var n := s.deques[i].size;
      && Run(s, [Push(i), CountUp(i)]) == State(s.deques[i := Deque(n + 1, Settled)], s.counter + 1)
      && (n > 0 ==>
            Run(s, [Pop(i), CountDown(i)]) == State(s.deques[i := Deque(n - 1, Settled)], s.counter - 1))
      && Run(s, [CountOut(i), Clear(i)]) == State(s.deques[i := Deque(0, Settled)], s.counter - n)
  {
    RunTwo(s, Push(i), CountUp(i));
    RunTwo(s, Pop(i), CountDown(i));
    RunTwo(s, CountOut(i), Clear(i));
  }
}
