/** The fd-interest table of the AMQP handler
    (src/messaging/amqp_trantor_handler.cc:21-28 and 65-144), for calls made on the
    loop thread: per connection, a map from file descriptor to the channel that
    watches it, both changed in place. */
module FdInterest {
  import opened Basics

  type Connection = nat

  type Fd = int

  type Flags = bv32

  const NONE: Flags := 0
  const READABLE: Flags := 1
  const WRITABLE: Flags := 2

  datatype Interest = Interest(reading: bool, writing: bool)

  /** sockets_ with the channels of each entry. */
  type Table = map<Connection, map<Fd, Interest>>

  datatype Watcher = Watcher(table: Table, registered: set<(Connection, Fd)>)

  datatype Event =
    | Monitor(connection: Connection, fd: Fd, flags: Flags)
    | Teardown(connection: Connection)

  function InterestOf(flags: Flags): Interest {
    Interest(flags & READABLE != 0, flags & WRITABLE != 0)
  }

  function Channels(table: Table, connection: Connection): map<Fd, Interest> {
    if connection in table then table[connection] else map[]
  }

  /** A channel joins the loop when interest is first enabled on it and leaves it
      when it is removed. */
  function AfterMonitor(w: Watcher, connection: Connection, fd: Fd, flags: Flags): Watcher {
    var channels := Channels(w.table, connection);
    if flags == NONE then
      Watcher(w.table[connection := channels - {fd}], w.registered - {(connection, fd)})
    else
      var interest := InterestOf(flags);
      Watcher(w.table[connection := channels[fd := interest]],
              if interest.reading || interest.writing then w.registered + {(connection, fd)}
              else w.registered)
  }

  function AfterTeardown(w: Watcher, connection: Connection): Watcher {
    if connection !in w.table then w
    else Watcher(w.table - {connection},
                 w.registered - (set fd | fd in w.table[connection] :: (connection, fd)))
  }

  function Step(w: Watcher, e: Event): Watcher {
    match e
    case Monitor(connection, fd, flags) => AfterMonitor(w, connection, fd, flags)
    case Teardown(connection) => AfterTeardown(w, connection)
  }

  /** Events oldest first. */
  function Run(es: seq<Event>): Watcher
    decreases |es|
  {
    if es == [] then Watcher(map[], {}) else Step(Run(es[..|es| - 1]), es[|es| - 1])
  }

  function Lookup(w: Watcher, connection: Connection, fd: Fd): Option<Interest> {
    if connection in w.table && fd in w.table[connection]
    then Some(w.table[connection][fd]) else None
  }

  /** The reference: the last flags given for the pair since the connection's last
      teardown, if they are not zero. */
  function LastFlags(es: seq<Event>, connection: Connection, fd: Fd): Flags
    decreases |es|
  {
    if es == [] then NONE
    else
      match es[|es| - 1]
      case Teardown(c) => if c == connection then NONE else LastFlags(es[..|es| - 1], connection, fd)
      case Monitor(c, f, flags) =>
        if c == connection && f == fd then flags else LastFlags(es[..|es| - 1], connection, fd)
  }

  /** After any sequence of calls the nested maps hold an entry exactly for the pairs
      whose last flags are not zero; it reads exactly if bit 0 of them is set, and
      writes exactly if bit 1 is. */
  lemma {:induction false} TableIsLastFlags(es: seq<Event>, connection: Connection, fd: Fd)
    ensures
      var flags := LastFlags(es, connection, fd);
      var entry := Lookup(Run(es), connection, fd);
      && (entry.Some? <==> flags != 0)
      && (entry.Some? ==>
            && (entry.value.reading <==> flags & 1 != 0)
            && (entry.value.writing <==> flags & 2 != 0))
    decreases |es|
  {
    if es != [] {
      TableIsLastFlags(es[..|es| - 1], connection, fd);
    }
  }

  ghost predicate Reachable(w: Watcher) {
    && (forall c, f :: (c, f) in w.registered ==> c in w.table && f in w.table[c])
    && (forall c, f :: c in w.table && f in w.table[c] ==>
          (w.table[c][f].reading || w.table[c][f].writing ==> (c, f) in w.registered))
  }

  lemma ReachableStep(w: Watcher, e: Event)
    requires Reachable(w)
    ensures Reachable(Step(w, e))
  {
  }

  /** Every channel the loop knows is reachable from the table, and every channel
      of the table with any interest is known to the loop: none leaks and none is
      lost, through any monitor and teardown calls. */
  lemma {:induction false} RegisteredAreReachable(es: seq<Event>)
    ensures Reachable(Run(es))
    decreases |es|
  {
    if es != [] {
      RegisteredAreReachable(es[..|es| - 1]);
      ReachableStep(Run(es[..|es| - 1]), es[|es| - 1]);
    }
  }

  lemma InterestIs(interest: Interest, flags: Flags)
    requires (interest.reading <==> flags & 1 != 0) && (interest.writing <==> flags & 2 != 0)
    ensures interest == InterestOf(flags)
  {
  }

  /** The reference for the loop: some flags since the pair's last zero flags and the
      connection's last teardown asked for reading or writing. */
  predicate EverInterested(es: seq<Event>, connection: Connection, fd: Fd)
    decreases |es|
  {
    es != [] &&
    match es[|es| - 1]
    case Teardown(c) => c != connection && EverInterested(es[..|es| - 1], connection, fd)
    case Monitor(c, f, flags) =>
      if c == connection && f == fd
      then flags != 0 && (flags & 1 != 0 || flags & 2 != 0 || EverInterested(es[..|es| - 1], connection, fd))
      else EverInterested(es[..|es| - 1], connection, fd)
  }

  lemma KnownStep(w: Watcher, e: Event, connection: Connection, fd: Fd)
    requires Reachable(w)
    ensures
      (connection, fd) in Step(w, e).registered <==>
      match e
      case Teardown(c) => c != connection && (connection, fd) in w.registered
      case Monitor(c, f, flags) =>
        if c == connection && f == fd
        then flags != 0 && (flags & 1 != 0 || flags & 2 != 0 || (connection, fd) in w.registered)
        else (connection, fd) in w.registered
  {
  }

  /** After any sequence of calls the loop knows the channel of exactly the pairs that
      have been of interest since they were last given up. */
  lemma {:induction false} LoopKnowsTheInterested(es: seq<Event>, connection: Connection, fd: Fd)
    ensures (connection, fd) in Run(es).registered <==> EverInterested(es, connection, fd)
    decreases |es|
  {
    if es != [] {
      LoopKnowsTheInterested(es[..|es| - 1], connection, fd);
      RegisteredAreReachable(es[..|es| - 1]);
      KnownStep(Run(es[..|es| - 1]), es[|es| - 1], connection, fd);
    }
  }

  /** Inserting the entry, registering, inserting the channel and, for no flags,
      taking it out again come to one change of the table. */
  lemma MonitorInStages(w: Watcher, connection: Connection, fd: Fd, flags: Flags)
    ensures
      var interest := InterestOf(flags);
      var entry := w.(table := w.table[connection := Channels(w.table, connection)]);
      var known := if interest.reading || interest.writing
                   then entry.(registered := entry.registered + {(connection, fd)}) else entry;
      var inserted := known.(table := known.table[connection := known.table[connection][fd := interest]]);
      Step(w, Monitor(connection, fd, flags))
        == if flags == NONE
           then Watcher(inserted.table[connection := inserted.table[connection] - {fd}],
                        inserted.registered - {(connection, fd)})
           else inserted
  {
    var channels := Channels(w.table, connection);
    assert channels[fd := InterestOf(flags)] - {fd} == channels - {fd};
  }

  // ----- as objects -----------------------------------------------------------------

  class WatchedSocket {
    const hasLoop: bool
    var channels: map<Fd, Interest>

    constructor (hasLoop: bool)
      ensures this.hasLoop == hasLoop && channels == map[]
    {
      this.hasLoop, channels := hasLoop, map[];
    }
  }

  class AmqpTrantorHandler {
    const hasLoop: bool                            // what the resolver finds
    var sockets: map<Connection, WatchedSocket>
    var registered: set<(Connection, Fd)>          // held by the event loop
    ghost var model: Watcher

    ghost predicate Valid()
      reads this, sockets.Values
    {
      && sockets.Keys == model.table.Keys
      && (forall c, d :: c in sockets && d in sockets && c != d ==> sockets[c] != sockets[d])
      && (forall c :: c in sockets ==> sockets[c].channels == model.table[c] && sockets[c].hasLoop == hasLoop)
      && registered == model.registered
    }

    constructor (hasLoop: bool)
      ensures Valid() && model == Run([]) && this.hasLoop == hasLoop
    {
      this.hasLoop := hasLoop;
      sockets, registered := map[], {};
      model := Watcher(map[], {});
    }

    /** Without a loop for the connection the call has no effect. */
    method MonitorFd(connection: Connection, fd: Fd, flags: Flags)
      requires Valid()
      modifies this, sockets.Values
      ensures Valid()
      ensures model == if hasLoop then Step(old(model), Monitor(connection, fd, flags)) else old(model)
    {
      if hasLoop {
        ApplyMonitor(connection, fd, flags);
      }
    }

    /** The connection's entry, inserted if it was not there. */
    method EntryOf(connection: Connection) returns (watchedSocket: WatchedSocket)
      requires Valid()
      modifies this`sockets, this`model
      ensures Valid() && connection in sockets && sockets[connection] == watchedSocket
      ensures fresh(sockets.Values - old(sockets.Values))
      ensures model == old(model).(table := old(model.table)[connection := Channels(old(model.table), connection)])
    {
      if connection in sockets {
        watchedSocket := sockets[connection];
        assert model.table == model.table[connection := Channels(model.table, connection)];
      } else {
        watchedSocket := new WatchedSocket(hasLoop);
        sockets := sockets[connection := watchedSocket];
        model := model.(table := model.table[connection := map[]]);
      }
    }

    /** Enables and disables reading, bit 0, and writing, bit 1, as the flags ask. */
    method Toggle(before: Interest, flags: Flags) returns (channel: Interest, enabled: bool)
      ensures channel.reading <==> flags & 1 != 0
      ensures channel.writing <==> flags & 2 != 0
      ensures enabled == (channel.reading || channel.writing)
    {
      channel, enabled := before, false;
      if flags & READABLE != 0 {
        channel, enabled := channel.(reading := true), true;
      } else if channel.reading {
        channel := channel.(reading := false);
      }
      if flags & WRITABLE != 0 {
        channel, enabled := channel.(writing := true), true;
      } else if channel.writing {
        channel := channel.(writing := false);
      }
    }

    /** Puts a channel on the loop. */
    method Register(connection: Connection, fd: Fd)
      requires Valid()
      modifies this`registered, this`model
      ensures Valid() && model == old(model).(registered := old(model.registered) + {(connection, fd)})
    {
      registered := registered + {(connection, fd)};
      model := model.(registered := registered);
    }

    /** Puts a channel in a connection's entry. */
    method Insert(watchedSocket: WatchedSocket, ghost connection: Connection, fd: Fd, channel: Interest)
      requires Valid() && connection in sockets && sockets[connection] == watchedSocket
      modifies this`model, watchedSocket
      ensures Valid()
      ensures model == old(model).(table := old(model.table)[connection := old(model.table[connection])[fd := channel]])
    {
      watchedSocket.channels := watchedSocket.channels[fd := channel];
      model := model.(table := model.table[connection := model.table[connection][fd := channel]]);
    }

    /** Takes a channel out of a connection's entry and off the loop. */
    method Remove(watchedSocket: WatchedSocket, connection: Connection, fd: Fd)
      requires Valid() && connection in sockets && sockets[connection] == watchedSocket
      modifies this`model, this`registered, watchedSocket
      ensures Valid()
      ensures model == Watcher(old(model.table)[connection := old(model.table[connection]) - {fd}],
                               old(model.registered) - {(connection, fd)})
    {
      registered := registered - {(connection, fd)};
      watchedSocket.channels := watchedSocket.channels - {fd};
      model := Watcher(model.table[connection := model.table[connection] - {fd}],
                       model.registered - {(connection, fd)});
    }

    method ApplyMonitor(connection: Connection, fd: Fd, flags: Flags)
      requires Valid() && hasLoop
      modifies this, sockets.Values
      ensures Valid() && model == Step(old(model), Monitor(connection, fd, flags))
    {
      hide InterestOf, Step, Valid;
      ghost var before := model;
      var watchedSocket := EntryOf(connection);
      var channel := Interest(false, false);
      if fd in watchedSocket.channels {
        channel := watchedSocket.channels[fd];
      }
      var enabled;
      channel, enabled := Toggle(channel, flags);
      assert channel == InterestOf(flags) by {
        InterestIs(channel, flags);
      }
      if enabled {
        Register(connection, fd);
      }
      Insert(watchedSocket, connection, fd, channel);
      if flags == NONE {
        Remove(watchedSocket, connection, fd);
      }
      assert model == Step(before, Monitor(connection, fd, flags)) by {
        MonitorInStages(before, connection, fd, flags);
      }
    }

    method TeardownConnection(connection: Connection)
      requires Valid()
      modifies this, sockets.Values
      ensures Valid() && model == Step(old(model), Teardown(connection))
    {
      if connection !in sockets {
        return;
      }
      var watchedSocket := sockets[connection];
      sockets := sockets - {connection};
      model := Step(model, Teardown(connection));
      registered := registered - (set fd | fd in watchedSocket.channels :: (connection, fd));
      watchedSocket.channels := map[];
    }
  }
}
