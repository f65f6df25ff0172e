/** The flush loop (src/messaging/rabbitmq_broker.cc:476-488): what it publishes,
    in which order, when it ends and how many attempts that takes. */
module FlushLaws {
  import opened Basics
  import opened SlotProtocol

  /** How many of the waiting publishes these answers get out. */
  ghost function Delivered(s: SlotState, answers: seq<bool>): (k: nat)
    ensures k <= |s.pendingPublishes|
  {
    if s.ready && s.publisherChannels != [] then Min(CountTrue(answers), |s.pendingPublishes|) else 0
  }

  /** Whatever the pattern of refusals, the loop moves a prefix of the deque, in
      order, to the published sequence and leaves the rest as it was; nothing
      but the deque, the cursor and the log changes. */
  lemma {:induction false} FlushMovesPrefix(s: SlotState, answers: seq<bool>)
    ensures
      var k := Delivered(s, answers);
      var t := Flush(s, answers);
      && t.log.published == s.log.published + s.pendingPublishes[..k]
      && t.pendingPublishes == s.pendingPublishes[k..]
      && t == s.(pendingPublishes := t.pendingPublishes,
                 nextPublisherChannel := t.nextPublisherChannel,
                 log := s.log.(attempts := t.log.attempts, published := t.log.published))
    decreases |answers|
  {
    if FlushDone(s) || answers == [] {
    } else {
      var next := PublishOnLoop(s.(pendingPublishes := s.pendingPublishes[1..]),
                                s.pendingPublishes[0], answers[0]);
      FlushMovesPrefix(next, answers[1..]);
      var j := Delivered(next, answers[1..]);
      if answers[0] {
        OneMoreTaken(s.log.published, s.pendingPublishes, j);
      } else {
        assert next.pendingPublishes == s.pendingPublishes;
      }
    }
  }

  lemma OneMoreTaken(published: seq<nat>, deque: seq<nat>, j: nat)
    requires j < |deque|
    ensures published + deque[..1 + j] == (published + [deque[0]]) + deque[1..][..j]
    ensures deque[1 + j..] == deque[1..][j..]
  {
  }

  /** Published so far followed by the deque never changes. */
  lemma {:induction false} FlushKeepsOrder(s: SlotState, answers: seq<bool>)
    ensures Flush(s, answers).log.published + Flush(s, answers).pendingPublishes
         == s.log.published + s.pendingPublishes
  {
    FlushMovesPrefix(s, answers);
    MoveBoundary(s.log.published, s.pendingPublishes, Delivered(s, answers));
  }

  lemma MoveBoundary(front: seq<nat>, back: seq<nat>, k: nat)
    requires k <= |back|
    ensures (front + back[..k]) + back[k..] == front + back
  {
  }

  /** On a ready slot the loop has ended exactly when there were at least as many
      acceptances as waiting publishes.  In particular, while every channel
      refuses, no number of attempts ends it. */
  lemma {:induction false} FlushEndsExactlyWhen(s: SlotState, answers: seq<bool>)
    requires s.ready && s.publisherChannels != []
    ensures FlushDone(Flush(s, answers)) <==> CountTrue(answers) >= |s.pendingPublishes|
  {
    FlushMovesPrefix(s, answers);
  }

  /** `count` channel indices in cyclic order. */
  ghost function Walk(cursor: nat, count: nat, n: nat): (w: seq<nat>)
    requires 0 < n
    ensures |w| == count
    decreases count
  {
    if count == 0 then [] else [cursor % n] + Walk((cursor + 1) % n, count - 1, n)
  }

  lemma {:induction false} WalkAt(cursor: nat, count: nat, n: nat, i: nat)
    requires 0 < n && i < count
    ensures Walk(cursor, count, n)[i] == (cursor + i) % n
    decreases count
  {
    if i > 0 {
      WalkAt((cursor + 1) % n, count - 1, n, i - 1);
      ModPlus(cursor + 1, i - 1, n);
    }
  }

  /** The attempts of a flush walk the channels in cyclic order from the cursor,
      one answer per attempt, and leave the cursor where the walk ends. */
  lemma {:induction false} FlushWalksChannels(s: SlotState, answers: seq<bool>)
    requires s.nextPublisherChannel < |s.publisherChannels|
    ensures
      var n := |s.publisherChannels|;
      var t := Flush(s, answers);
      var used := |t.log.attempts| - |s.log.attempts|;
      && 0 <= used <= |answers|
      && t.log.attempts == s.log.attempts + Walk(s.nextPublisherChannel, used, n)
      && t.nextPublisherChannel == (s.nextPublisherChannel + used) % n
    decreases |answers|
  {
    var n := |s.publisherChannels|;
    var cursor := s.nextPublisherChannel;
    ModSmall(cursor, n);
    if FlushDone(s) || answers == [] {
    } else {
      var next := PublishOnLoop(s.(pendingPublishes := s.pendingPublishes[1..]),
                                s.pendingPublishes[0], answers[0]);
      assert next.publisherChannels == s.publisherChannels;
      assert next.nextPublisherChannel == (cursor + 1) % n;
      assert next.log.attempts == s.log.attempts + [cursor];
      FlushWalksChannels(next, answers[1..]);
      var t := Flush(s, answers);
      var rest := |t.log.attempts| - |next.log.attempts|;
      var tail := Walk((cursor + 1) % n, rest, n);
      ModPlus(cursor + 1, rest, n);
      ConcatAssociates(s.log.attempts, [cursor], tail);
    }
  }

  /** Once the loop has ended, further answers are not asked for. */
  lemma {:induction false} FlushStopsAsking(s: SlotState, answers: seq<bool>, more: seq<bool>)
    requires FlushDone(Flush(s, answers))
    ensures Flush(s, answers + more) == Flush(s, answers)
    decreases |answers|
  {
    if FlushDone(s) {
    } else {
      var next := PublishOnLoop(s.(pendingPublishes := s.pendingPublishes[1..]),
                                s.pendingPublishes[0], answers[0]);
      assert (answers + more)[1..] == answers[1..] + more;
      FlushStopsAsking(next, answers[1..], more);
    }
  }

  /** Channel `good` accepts at each of the attempts that reach it. */
  ghost predicate AcceptsAlways(answers: seq<bool>, cursor: nat, n: nat, good: nat)
    requires 0 < n
  {
    forall i: nat :: i < |answers| && !answers[i] ==> (cursor + i) % n != good
  }

  /** If some channel accepts whenever it is asked, the loop ends with the deque
      empty and everything published in order, after at most (channels x deque
      length) attempts. */
  lemma {:induction false} OneAcceptingChannelEndsFlush(s: SlotState, answers: seq<bool>, good: nat)
    requires s.ready && s.nextPublisherChannel < |s.publisherChannels|
    requires good < |s.publisherChannels|
    requires AcceptsAlways(answers, s.nextPublisherChannel, |s.publisherChannels|, good)
    requires |answers| >= |s.publisherChannels| * |s.pendingPublishes|
    ensures
      var t := Flush(s, answers);
      && t.pendingPublishes == []
      && t.log.published == s.log.published + s.pendingPublishes
      && |t.log.attempts| - |s.log.attempts| <= |s.publisherChannels| * |s.pendingPublishes|
  {
    var n, m := |s.publisherChannels|, |s.pendingPublishes|;
    var cut := n * m;
    var enough, more := answers[..cut], answers[cut..];
    assert answers == enough + more;
    assert CountTrue(enough) >= m by {
      assert forall i :: 0 <= i < cut ==> enough[i] == answers[i];
      AcceptancesPerRound(enough, s.nextPublisherChannel, n, good, m);
    }
    EnoughAcceptancesEndFlush(s, enough, more);
  }

  lemma {:induction false} EnoughAcceptancesEndFlush(s: SlotState, enough: seq<bool>, more: seq<bool>)
    requires s.ready && s.nextPublisherChannel < |s.publisherChannels|
    requires CountTrue(enough) >= |s.pendingPublishes|
    ensures
      var t := Flush(s, enough + more);
      && t.pendingPublishes == []
      && t.log.published == s.log.published + s.pendingPublishes
      && |t.log.attempts| - |s.log.attempts| <= |enough|
  {
    FlushMovesPrefix(s, enough);
    FlushWalksChannels(s, enough);
    FlushStopsAsking(s, enough, more);
    assert s.pendingPublishes[..|s.pendingPublishes|] == s.pendingPublishes;
  }

  lemma {:induction false} AcceptancesPerRound(answers: seq<bool>, cursor: nat, n: nat, good: nat, rounds: nat)
    requires 0 < n && good < n && cursor < n && |answers| == n * rounds
    requires AcceptsAlways(answers, cursor, n, good)
    ensures CountTrue(answers) >= rounds
  {
    if rounds > 0 {
      assert n * rounds == n + n * (rounds - 1);
      var gap := if good >= cursor then good - cursor else good + n - cursor;
      ModWrap(cursor + gap, good, n);
      CountTrueHit(answers[..n], gap);
      CountTrueSplit(answers, n);
      forall i: nat | i < n * (rounds - 1) && !answers[n..][i]
        ensures (cursor + i) % n != good
      {
        ModShift(cursor + i, n);
        assert !answers[i + n];
      }
      AcceptancesPerRound(answers[n..], cursor, n, good, rounds - 1);
    }
  }
}
