# Broker, request tracker and fd table: a verified model

This project models the concurrent core of the service and proves what it keeps
over whole runs.

* **The RabbitMQ broker** (`SlotProtocol`, `BrokerModel`). Each slot is a state
  machine: ready flag, reconnect flag and back-off, connection, publisher
  channels with a rotating cursor, consumer map, deque of waiting publishes. All
  changes are made by tasks posted to FIFO event loops that several slots may
  share. A run is any sequence of API calls, loop heads run, reconnect timers
  fired and connection reports; what a channel answers to a publish is part of the
  event, so every pattern of refusals is a run. An event that cannot happen in a
  state leaves the state as it is, so every sequence of events is a run.
  `SlotLaws` proves the laws of one slot for one arbitrary step, `SlotTrace` tells
  what a slot is from the tasks that have run for it and nothing else,
  `BrokerModel.StepIsLocal` shows that a broker step is one step of each slot even
  on shared loops, and `BrokerLaws`, `PublishLedger` and `Recovery` state the
  results for all runs. `FlushLaws` treats the flush loop, `QueueCounter` the deque counter when
  slots run on different threads.
* **The IBKR connection slot** (`RequestTracker`, `TrackerLaws`). Each critical
  section is one step; ticks, snapshot ends, errors, cancels, closed connections
  and the sections of connect and disconnect interleave freely. Callbacks that the
  program invokes outside the lock are "in hand" until delivered.
* **The client pool** (`PoolLaws`, `PoolRace`): id ranges, the cyclic search, its
  fairness, and a request while slots open and close under it.
* **The fd-interest table** (`FdInterest`): the nested map of the AMQP handler
  against the last flags given for each connection and descriptor.

The classes in `RabbitMqBroker.dfy`, `ConnectionSlot.dfy`, `ClientPool.dfy` and
`FdInterest.dfy` have the program's fields and update them in place with the
program's loops; each method is proved to do exactly the step (or steps) of the
models above, to which the laws apply. Their ghost field `model` is the value those
laws speak about. Fields the program does not have only number things: connections,
publish calls, subscriptions, requests. The `log` of a slot and the last fields of `Broker` and `Tracker` are
history.

Five facts about the code came out as conditions rather than guarantees:

* Call order on a slot is kept throughout a run exactly when no publish runs on a
  ready slot whose deque is not empty. A refusal outside a flush creates that
  situation, without any failure of the connection.
* A publish refused outside a flush waits in the deque exactly as long as no ready
  task and no stop task of its slot runs to its end, however many others are
  published meanwhile.
* On a ready, connected slot for which no stop and no consumer task waits, a
  subscription is consumed exactly if no later one has its topic: a second
  subscription to a topic takes the first one's place.
* One reconnect at a time holds exactly as long as no stop task and no
  start-issued connect runs while a reconnect is scheduled and no timer fires in
  the stopped broker; a stop and restart can leave two under way. No slot of a
  running broker is stranded by this.
* A request displaces another exactly when it is made while the request issued one
  full id range earlier is still waiting.

## Model

| member | source | states |
|---|---|---|
| FlushLaws.FlushMovesPrefix | src/messaging/rabbitmq_broker.cc:459-488 | for every pattern of refusals, a flush moves a prefix of the deque, in order and of exactly min(acceptances, length) calls, to the published ones and changes nothing else but cursor and log |
| FlushLaws.FlushKeepsOrder | src/messaging/rabbitmq_broker.cc:476-488 | published so far followed by the deque is the same before and after any number of flush attempts |
| FlushLaws.FlushEndsExactlyWhen | src/messaging/rabbitmq_broker.cc:482-487 | on a ready slot the loop has ended if and only if there were as many acceptances as waiting publishes; so it never ends while all channels refuse |
| FlushLaws.OneAcceptingChannelEndsFlush | src/messaging/rabbitmq_broker.cc:451-487 | if one of c channels accepts whenever asked, the flush ends with an empty deque, everything published in order, within c times the deque length attempts |
| FlushLaws.FlushWalksChannels | src/messaging/rabbitmq_broker.cc:451-454 | the attempts of a flush visit the channels cyclically from the cursor, one answer each, and the cursor ends where the walk does |
| FlushLaws.FlushStopsAsking | src/messaging/rabbitmq_broker.cc:482-487 | once ended, a flush asks no channel again |
| SlotLaws.SoundStep | src/messaging/rabbitmq_broker.cc:202-305 | every step keeps: ready means the full set of publisher channels and not ready means none; every held channel is on the current connection; cursor and delays follow their closed forms |
| SlotLaws.SingleFlightExactly | src/messaging/rabbitmq_broker.cc:202-285 | from one-reconnect-at-a-time, a step leaves it if and only if it clears the flag by a stop or a start-issued connect, or a timer fires in the stopped broker with the flag set |
| SlotLaws.TendedStep | src/messaging/rabbitmq_broker.cc:29-285 | no step, stop and restart included, strands a slot of a running broker: a connect waits after every waiting stop, or no stop waits and the slot has a connection and is ready, has a timer armed, or has an outcome to process |
| SlotLaws.UndisturbedStep | src/messaging/rabbitmq_broker.cc:195-285 | without stop calls every step keeps the reconnects under way for a slot single |
| SlotLaws.SubscribedStep | src/messaging/rabbitmq_broker.cc:74-103 | every step keeps: the newest subscription of each topic is, or is about to be, the one consumed by a ready connected slot, and a stopped broker ends with no connection |
| SlotLaws.ConservedStep | src/messaging/rabbitmq_broker.cc:433-488 | no step loses, repeats or invents a publish of a slot: published, deque, loop queue and dropped together are always the accepted calls |
| SlotLaws.OrderExactly | src/messaging/rabbitmq_broker.cc:433-488 | call order on a slot survives a step if and only if the step is not a publish overtaking the deque |
| BrokerModel.StepIsLocal | src/messaging/rabbitmq_broker.cc:174-193 | each broker step acts on each slot as one step of that slot alone, although slots share event loops |
| SlotTrace.SlotFollowsItsTasks | src/messaging/rabbitmq_broker.cc:44-72 | in every run a slot is ready exactly if the last of its connect, ready, failure and stop tasks was a ready task; its connection is that of its last connect task unless a stop came after; a reconnect is scheduled exactly if a failure came in the running broker since the last connect or stop; its delay is the back-off term of the number of timers armed since its last ready task |
| SlotTrace.NotReadyGathers | src/messaging/rabbitmq_broker.cc:433-440 | from any reachable state in which a slot is not ready, until a ready task of it returns, it tries no channel and publishes nothing, and each publish task that runs joins the end of its deque, which only a stop shortens |
| BrokerLaws.FailedSlotIsOut | src/messaging/rabbitmq_broker.cc:254-263 | after a failure task of a slot, until a ready task of it returns, the slot is not ready, has no publisher and no consumer channel, publishes nothing and gathers its publishes in order |
| BrokerLaws.BackoffSinceReady | src/messaging/rabbitmq_broker.cc:231-235 | after a ready task of a slot has returned the next timer waits 1 second, and after n timers armed since then the delay is min(30, 2^n) |
| BrokerLaws.WiredAsConfigured | src/messaging/rabbitmq_broker.cc:174-188 | in every run: max(1, pool size) slots; slot i on loop i modulo the io threads if there is one, and without tasks or calls if not; a topic on the slot of its hash modulo the slots; a ready slot with the smaller of the two configured numbers of channels, at least one |
| BrokerLaws.ChannelsAndBackoff | src/messaging/rabbitmq_broker.cc:231-305 | in every run: ready iff publisher channels exist, then exactly max(1, min of the two settings) of them; the k-th attempt ever used channel k mod that; as many waits recorded as timers armed since the last ready task in the trace, the k-th its back-off term; the delay stays within 1 and 30 |
| BrokerLaws.EachChannelOncePerRound | src/messaging/rabbitmq_broker.cc:451-454 | any c consecutive attempts of a slot use each channel index exactly once, across refusals and reconnects |
| BrokerLaws.BackoffClosed | src/messaging/rabbitmq_broker.cc:273-275 | the k-th back-off term is min(30, 2^k) seconds |
| BrokerLaws.TotalWait | src/messaging/rabbitmq_broker.cc:273-279 | in every run the first n waits for the timers armed since the last ready task, counted from the trace, total 2^n - 1 seconds up to n = 5 and 31 + 30 (n - 5) from there |
| BrokerLaws.EverySubscriptionCovered | src/messaging/rabbitmq_broker.cc:74-103 | in every run, on a ready connected slot with no stop waiting, the newest subscription of every topic hashed to it is the one consumed or its consumer is queued; with no consumer task for the topic queued it is the one consumed |
| BrokerLaws.OnlyTheNewestIsConsumed | src/messaging/rabbitmq_broker.cc:320-340 | on such a slot with no consumer task for the topic queued, a subscription is consumed if and only if no later one has its topic |
| BrokerLaws.NoTopicOnTwoSlots | src/messaging/rabbitmq_broker.cc:307-340 | whatever a slot consumes is a registered subscription whose topic hashes to that slot, so no topic is consumed on two |
| BrokerLaws.StoppedBrokerWindsDown | src/messaging/rabbitmq_broker.cc:44-72 | from any stopped state on, until a start, the number of reconnect timers ever armed stays as it is, no connection is made beyond the connect tasks already waiting, and a slot with no task left has no connection and consumes nothing |
| BrokerLaws.NoSlotStranded | src/messaging/rabbitmq_broker.cc:29-285 | in every run, stops and restarts included, a slot with a loop of a running broker has a connect waiting that no waiting stop undoes, or has no stop waiting, holds a connection, and is ready, has a timer armed or an undecided connection |
| Recovery.EverySlotCanRecover | src/messaging/rabbitmq_broker.cc:195-285 | from every reachable state of a running broker some course of loop tasks, timers and connection reports, with no API call, leaves a slot with a loop ready and connected, its loop and deque empty, its topics consumed, every accepted call published or dropped, and none newly dropped unless a stop was waiting |
| BrokerLaws.OneReconnectAtATime | src/messaging/rabbitmq_broker.cc:202-285 | in every run without stop calls, armed timers plus timer-issued connects of a slot number 1 if the flag is set and 0 otherwise |
| BrokerLaws.SingleFlightExactlyWhenTracked | src/messaging/rabbitmq_broker.cc:202-285 | over any run with stops and restarts, reconnects stay single throughout if and only if no step loses track of one |
| BrokerLaws.StopForgetsTimer | src/messaging/rabbitmq_broker.cc:56-70 | a concrete run of ten events, with a stop and a restart, that ends with two reconnect timers armed for one slot |
| PublishLedger.EveryCallInOnePlace | src/messaging/rabbitmq_broker.cc:105-141 | in every run each publish call is in exactly one place: turned away, rejected for a null loop, or on one slot published, in the deque, on the loop or dropped by a stop |
| PublishLedger.CompletionsMatchReturns | src/messaging/rabbitmq_broker.cc:105-141 | a call that returned false completes once, with false; one that returned true never completes with false and completes with true exactly as often as it is published, at most once |
| PublishLedger.CountersAreTotals | src/messaging/rabbitmq_broker.cc:433-488 | at every boundary the request, published and queued counters equal the numbers of calls counted, published and in all deques |
| PublishLedger.CallsAreDealtInRotation | src/messaging/rabbitmq_broker.cc:122-133 | over any run the counted calls go round the slots: each slot with a loop has accepted the quotient, plus one if the rotation has passed it |
| PublishLedger.OrderedExactlyWhenNeverOvertaking | src/messaging/rabbitmq_broker.cc:433-488 | a run keeps every slot in call order from beginning to end if and only if no publish ever runs on a ready slot with a non-empty deque |
| PublishLedger.OrderSurvivesReconnects | src/messaging/rabbitmq_broker.cc:202-263 | when channels refuse only during flushes, published then deque then loop queue are the accepted calls in call order without those a stop dropped, through any failures, stops and restarts |
| PublishLedger.RefusedPublishIsOvertaken | src/messaging/rabbitmq_broker.cc:459-473 | a concrete run of eight events, with no failure, in which the second publish is taken while the first waits in the deque |
| PublishLedger.DequeWaitsForReadyOrStop | src/messaging/rabbitmq_broker.cc:470-488 | in every run, a publish in the deque of a slot waits there throughout what follows if and only if no ready task and no stop task of that slot runs to its end |
| QueueCounter.CounterNeverUnderflows | src/messaging/rabbitmq_broker.cc:438-485 | with deque and counter updates as separate steps of many threads, no step lowers the counter by more than it holds |
| QueueCounter.CounterIsTotalWhenSettled | src/messaging/rabbitmq_broker.cc:61-64 | whenever no slot is between its paired updates the counter equals the sum of the deque lengths |
| QueueCounter.PairedUpdates | src/messaging/rabbitmq_broker.cc:438-485 | on a settled deque a push and its count, a pop and its count, and a stop's count and clearing each settle it again, size and counter moved alike |
| RabbitMq.RabbitMqBroker.InitializeSlots | src/messaging/rabbitmq_broker.cc:174-193 | the first call makes max(1, pool size) fresh idle slots wired to loops by index modulo the loop count; later calls keep the slots |
| RabbitMq.RabbitMqBroker.Start | src/messaging/rabbitmq_broker.cc:29-42 | does the start step: nothing if started, else a connect posted for every slot in order |
| RabbitMq.RabbitMqBroker.Stop | src/messaging/rabbitmq_broker.cc:44-72 | does the stop step: nothing if stopped, else a stop posted for every slot that has a loop |
| RabbitMq.RabbitMqBroker.Subscribe | src/messaging/rabbitmq_broker.cc:74-103 | does the subscribe step: the topic is registered and, if running, its consumer queued on the slot its hash picks |
| RabbitMq.RabbitMqBroker.Publish | src/messaging/rabbitmq_broker.cc:105-141 | does the publish step and returns whether the call was posted; a refused call completes at once with false |
| RabbitMq.RabbitMqBroker.ConnectSlot | src/messaging/rabbitmq_broker.cc:202-226 | leaves the slot as the connect step of the protocol does |
| RabbitMq.RabbitMqBroker.HandleSlotReady | src/messaging/rabbitmq_broker.cc:229-231 | a ready report posts one ready task on the slot's loop |
| RabbitMq.RabbitMqBroker.HandleReady | src/messaging/rabbitmq_broker.cc:231-237 | leaves the slot ready with a delay of 1, its full set of channels and the connection it had, as the ready step does, and accounts for everything flushed in counters and completions |
| RabbitMq.RabbitMqBroker.HandleSlotFailure | src/messaging/rabbitmq_broker.cc:240-254 | a failure report posts one failure task on the slot's loop |
| RabbitMq.RabbitMqBroker.HandleFailure | src/messaging/rabbitmq_broker.cc:254-264 | leaves the slot as the failure step does: not ready, without channels, deque and connection kept, a reconnect scheduled if the broker runs |
| RabbitMq.RabbitMqBroker.ScheduleReconnect | src/messaging/rabbitmq_broker.cc:267-285 | arms one timer with the current delay and doubles it up to 30, unless stopped or already scheduled |
| RabbitMq.RabbitMqBroker.TimerFires | src/messaging/rabbitmq_broker.cc:279-284 | does the timer step: a connect is posted only if the broker is running |
| RabbitMq.RabbitMqBroker.RebuildChannels | src/messaging/rabbitmq_broker.cc:287-318 | both loops together leave c publisher channels and a consumer for each registered topic of the slot, all on the current connection |
| RabbitMq.RabbitMqBroker.StartConsumer | src/messaging/rabbitmq_broker.cc:320-340 | replaces the topic's channel on a ready connected slot and does nothing otherwise |
| RabbitMq.RabbitMqBroker.PublishOnLoop | src/messaging/rabbitmq_broker.cc:433-474 | leaves the slot as the publish step does; counters and completions move with the slot |
| RabbitMq.RabbitMqBroker.FlushPendingPublishes | src/messaging/rabbitmq_broker.cc:476-488 | the while loop leaves the slot as the flush of the protocol does, counts and completes exactly what it published, and ends early only when there is nothing left to do |
| RabbitMq.RabbitMqBroker.StopSlot | src/messaging/rabbitmq_broker.cc:56-70 | leaves the slot as the stop step does and lowers the queued counter by the deque it drops |
| RabbitMq.RabbitMqBroker.RunHead | src/messaging/rabbitmq_broker.cc:202-264 | running the head of a loop does the corresponding broker step and keeps objects and model in agreement, or, if the channels have not yet accepted enough, is still inside the flush of a ready task and says where |
| RequestTracker.EveryRequestOneFate | src/ibkr/connection_slot.cc:173-332 | under every interleaving each request call is in exactly one place: waiting, in hand for one callback, called back, cancelled or displaced |
| RequestTracker.DrainsFailEveryWaiting | src/ibkr/connection_slot.cc:96-108 | a closed connection and the end of a disconnect leave nothing waiting and call every waiting request back with an error |
| TrackerLaws.ConnectResetsOverEmptyMap | src/ibkr/connection_slot.cc:54-108 | at every boundary requests wait only while connected or being disconnected, so connect resets the id counter over an empty map |
| TrackerLaws.FlagsFollowTheTrace | src/ibkr/connection_slot.cc:18-111 | in every run the slot is connected exactly if an opening succeeded with no closure and no begun disconnect since, connecting exactly between the mark and its outcome, and its reader runs exactly from its start to a stop or a closure |
| TrackerLaws.RequestAnswered | src/ibkr/connection_slot.cc:179-195 | in every run a request made while the trace has the slot connected gets the next id and an empty entry and no callback; otherwise id 0 and at once one error callback, the map unchanged |
| TrackerLaws.ClosedSlotRefuses | src/ibkr/connection_slot.cc:316-329 | from a closed connection until the next opening, whatever happens, every request gets id 0 and one error callback and nothing waits |
| TrackerLaws.CancelSilences | src/ibkr/connection_slot.cc:208-214 | in every run a cancel takes out the entry of its id and no other, and no callback of that request ever follows |
| TrackerLaws.IdsRotate | src/ibkr/connection_slot.cc:186-195 | the n-th request since connect gets id start + n mod range, within the range |
| TrackerLaws.WindowDistinct | src/ibkr/connection_slot.cc:186-189 | in every run, two requests whose ordinals since connect differ by less than a full range get different ids, whatever happens between them |
| TrackerLaws.IdsInRange | src/ibkr/connection_slot.cc:186-195 | every waiting id lies in the slot's own range, in every run |
| TrackerLaws.DisplacedExactly | src/ibkr/connection_slot.cc:186-195 | no request is displaced in a run if and only if no request is made while the one issued a full range earlier still waits |
| TrackerLaws.FullLapDisplaces | src/ibkr/connection_slot.cc:186-195 | for every id range there is a run that displaces: one request more than the range has ids, none answered, displaces the first |
| TrackerLaws.EntryQuotesOwnTicks | src/ibkr/connection_slot.cc:225-255 | while a request waits, its bid, ask and last are the last non-negative prices of its own ticks, whatever else happens on the slot |
| TrackerLaws.SnapshotAnswersOwnTicks | src/ibkr/connection_slot.cc:257-284 | for any interleaving since the request, snapshot-end answers with those prices, the mid exactly when both sides exist and a null volume, or fails exactly when none of the three was seen; other entries stay |
| TrackerLaws.ErrorIsTheOnlyFate | src/ibkr/connection_slot.cc:286-311 | in every run an error for a waiting positive id goes to the request that was given that id last, which had come to nothing before; whatever follows, the error is that request's one callback and it is never cancelled, displaced or answered; an error for any other id changes nothing |
| TrackerLaws.PromiseIsKept | src/ibkr/connection_slot.cc:257-311 | a callback taken in hand by a snapshot-end or an error is, in every continuation, the one fate of its request |
| TrackerLaws.HandIsDelivered | src/ibkr/connection_slot.cc:279-310 | n deliveries invoke the first n callbacks in hand, in order, and change nothing else |
| PoolLaws.RangesFitInt | src/ibkr/client_pool.cc:28-33 | the ranges are positive and their arithmetic fits a 32-bit int if and only if there are at most 21473 slots |
| PoolLaws.SlotIdsSuffice | src/ibkr/client_pool.cc:28-33 | in every run of a pool slot the waiting ids are among its own 100000, and the first 100000 requests since a connect displace none |
| PoolLaws.NoIdInTwoSlots | src/ibkr/client_pool.cc:28-33 | no id is ever waiting in two slots, in any runs of them |
| PoolLaws.SearchPicks | src/ibkr/client_pool.cc:85-92 | a search picks a connected slot if and only if it starts closer before it than the previous connected slot lies |
| PoolLaws.RotationIsFair | src/ibkr/client_pool.cc:85-92 | the searches from any k consecutive cursor values pick each connected slot its cyclic distance from the previous one: at least once, exactly once if all are connected |
| PoolLaws.SearchFindsExactly | src/ibkr/client_pool.cc:85-94 | the search finds a slot if and only if one is connected, and finds a connected one |
| PoolRace.HandedOnceOrFailed | src/ibkr/client_pool.cc:73-95 | whatever the slots do meanwhile, each request that has returned had its onError invoked by the pool once or was handed over once, never both; the slot call it became is its alone and has exactly one fate there, even if the slot closed after the pool had looked |
| PoolRace.SlotCallsArePoolRequests | src/ibkr/client_pool.cc:85-92 | each request call of each slot is one pool request handed over once |
| PoolRace.RequestEndsOnce | src/ibkr/client_pool.cc:73-95 | from any state between requests, one request that begins and returns adds exactly one failure or exactly one hand-over, its own |
| PoolRace.StayerIsFound | src/ibkr/client_pool.cc:85-94 | if some slot stays connected throughout a request the pool does not fail it: when it returns it has been handed to a slot |
| PoolRace.UninterruptedRequest | src/ibkr/client_pool.cc:85-94 | a request during which no slot changes returns within one step more than there are slots, handed to the slot of the cyclic search from the cursor, or failed if no slot is connected |
| PoolRace.SlotIsARun | src/ibkr/client_pool.cc:16-33 | in every run of the pool each slot goes through a run of its own, over its own id range, so that the laws of a connection slot hold of it |
| PoolRace.HandoversRotate | src/ibkr/client_pool.cc:85-92 | over a stretch of a pool run with k completed requests on k slots and the same slots connected throughout, each connected slot is handed exactly its cyclic distance from the previous one, one if all are connected, and no request fails |
| IbkrSlot.ConnectionSlot.SetReqIdRange | src/ibkr/connection_slot.cc:216-223 | the next id ends in the new range, unchanged if it lay in it |
| IbkrSlot.ConnectionSlot.RequestStockSnapshot | src/ibkr/connection_slot.cc:173-206 | does the request step and returns the id given, or 0 if not connected |
| IbkrSlot.ConnectionSlot.CancelMktData | src/ibkr/connection_slot.cc:208-214 | does the cancel step: the entry goes without a callback |
| IbkrSlot.ConnectionSlot.TickPrice | src/ibkr/connection_slot.cc:225-255 | does the tick step; negative prices and unknown ids change nothing |
| IbkrSlot.ConnectionSlot.TakeSnapshot | src/ibkr/connection_slot.cc:261-278 | the section of a snapshot-end: does its step from any state and takes the entry's one answer in hand |
| IbkrSlot.ConnectionSlot.TakeError | src/ibkr/connection_slot.cc:293-307 | the section of an error: does its step from any state and takes the callback with the message in hand |
| IbkrSlot.ConnectionSlot.CallBack | src/ibkr/connection_slot.cc:279-284 | invokes a callback in hand, whatever other threads did since it was taken |
| IbkrSlot.ConnectionSlot.TickSnapshotEnd | src/ibkr/connection_slot.cc:257-284 | takes the entry in hand, then delivers one answer; nothing for an unknown id |
| IbkrSlot.ConnectionSlot.Error | src/ibkr/connection_slot.cc:286-311 | resolves the waiting request of a positive id with the message, once; otherwise nothing |
| IbkrSlot.ConnectionSlot.FailPending | src/ibkr/connection_slot.cc:102-107 | the loop calls each entry back once, in the map's order, and leaves the map empty |
| IbkrSlot.ConnectionSlot.ConnectionClosed | src/ibkr/connection_slot.cc:316-329 | does the closed step: not connected, reader down, every entry failed, map empty |
| IbkrSlot.ConnectionSlot.ClearFlags | src/ibkr/connection_slot.cc:76-83 | first section of a disconnect: does the disconnect or connect call step and tells whether anything is to be done |
| IbkrSlot.ConnectionSlot.StopReader | src/ibkr/connection_slot.cc:85-86 | does the step between the sections, whatever other threads did since the first |
| IbkrSlot.ConnectionSlot.DropPending | src/ibkr/connection_slot.cc:96-108 | last section of a disconnect: does the finishing step, which fails every entry there is by then |
| IbkrSlot.ConnectionSlot.MarkConnected | src/ibkr/connection_slot.cc:54-64 | does the step that marks the slot connected and resets the id counter |
| IbkrSlot.ConnectionSlot.Disconnect | src/ibkr/connection_slot.cc:75-111 | does the three sections of a disconnect in order, or nothing if there is nothing to disconnect |
| IbkrSlot.ConnectionSlot.Connect | src/ibkr/connection_slot.cc:18-73 | disconnects, dials and, if the socket opens, connects with the id counter reset |
| IbkrPool.ClientPool.Initialize | src/ibkr/client_pool.cc:16-33 | makes slot i with the ids 100000 (i + 1) to 100000 (i + 2) - 1; nothing if already running |
| IbkrPool.ClientPool.RequestStockSnapshot | src/ibkr/client_pool.cc:73-95 | hands the request to the slot the cyclic search picks and to no other, or fails it; the cursor moves once per request |
| IbkrPool.ClientPool.Status | src/ibkr/client_pool.cc:60-71 | counts the connected slots and says whether any is |
| IbkrPool.ClientPool.CheckConnectionsOnce | src/ibkr/client_pool.cc:105-116 | one monitor round does the steps of a whole connect on exactly the slots found not connected and leaves the others untouched |
| FdInterest.TableIsLastFlags | src/messaging/amqp_trantor_handler.cc:65-144 | after any monitor and teardown calls the nested maps hold an entry exactly for the pairs whose last flags since the last teardown are not zero; it reads exactly if bit 0 is set and writes exactly if bit 1 is |
| FdInterest.RegisteredAreReachable | src/messaging/amqp_trantor_handler.cc:82-143 | every channel the loop knows is reachable from the table, and every channel with interest is known to the loop |
| FdInterest.LoopKnowsTheInterested | src/messaging/amqp_trantor_handler.cc:97-144 | after any calls the loop knows the channel of exactly the pairs for which reading or writing has been asked since their last zero flags and teardown |
| FdInterest.AmqpTrantorHandler.Toggle | src/messaging/amqp_trantor_handler.cc:97-107 | the channel reads exactly if bit 0 of the flags is set and writes exactly if bit 1 is |
| FdInterest.AmqpTrantorHandler.MonitorFd | src/messaging/amqp_trantor_handler.cc:21-28 | does the monitor step if the connection has a loop and nothing otherwise |
| FdInterest.AmqpTrantorHandler.ApplyMonitor | src/messaging/amqp_trantor_handler.cc:65-114 | inserting, toggling and erasing in place come to the monitor step of the table |
| FdInterest.AmqpTrantorHandler.TeardownConnection | src/messaging/amqp_trantor_handler.cc:116-144 | removes the connection's entry and takes its channels off the loop |

## Left out

- BrokerModel.Step: each API call is one step, except that what a publish call read of the started flag may be out of date. A ready task whose flush is refused for ever never comes to a boundary, so such a step leaves the state as it was; the middle of a flush is covered by FlushLaws.FlushMovesPrefix and by RunHead.
- RabbitMq.RabbitMqBroker.Publish: has no other thread between its test of the started flag and the rest; the model's publish step does.
- FdInterest.AmqpTrantorHandler.TeardownConnection: calls made on the loop thread only; elsewhere the removal of channels is queued.
- IbkrSlot.ConnectionSlot.Disconnect: composes its sections without interference between them; the interleavings are those of the section methods and of RequestTracker.
- IbkrSlot.ConnectionSlot.Connect: composes its sections in the same way.
- IbkrSlot.ConnectionSlot.TickSnapshotEnd: composes its section and the callback with no other thread in between; the interleavings are those of TakeSnapshot and CallBack and of RequestTracker.
- IbkrSlot.ConnectionSlot.Error: composes its section and the callback in the same way.
- IbkrSlot.ConnectionSlot.SetReqIdRange: runs start after the pool has set the range, which is the only place that sets it.
- PoolLaws.RotationIsFair: the 64-bit cursor is taken not to wrap, like all 64-bit counters here.
- AMQP-CPP, Trantor, Drogon and the TWS SDK: present only as FIFO loops, timers, reports and channel answers; the declare, bind and consume chain of a consumer is only a source of failure reports.
- Outgoing SDK calls (reqMktData, cancelMktData, eConnect, eDisconnect) and the reader thread's loop.
- Payloads, routing keys and exchange selection of a publish: a publish is named by the number of its call.
- Empty callbacks: every request and publish is taken to come with its callbacks.
- Object lifetimes, mutex re-entrancy, deadlocks and shutdown of the pool.
- Health snapshots, last-error texts, status JSON, logging, HTTP controllers, `main` and configuration parsing.
- Prices are reals and delays whole seconds; IEEE details are not modelled.
- The older sources at the root of the repository: the build does not use them.
