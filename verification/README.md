# A verified model of the MQTT broker and its JavaScript codec

This project models the parts of the broker where messages can get lost, duplicated, reordered or garbled, and proves
in Dafny that they do not, or says exactly when they do. `dafny verify dfyconfig.toml` checks it all.

**Delivery (`Engine`, `EngineInvariants`, `EngineLoss`, `EngineOrder`, `Session`).** A session has an in-flight
window, a bounded pending queue with a channel as its counter, a send queue, a resend timer and the QoS 1 and QoS 2
handshakes. `Engine` describes each atomic step as a function on values; the classes in `Session.dfy` and
`UtilsList.dfy` perform the steps in place, with the lists, loops and callbacks of the program, and are proved to
agree. The theorems are about every run of steps: conservation, single completion, the window and pending bounds,
first-in-first-out admission, exact acknowledgements under the 16-bit ids, and the resend bound. Conservation is about
a running channel. A failed write stops the channel and leaves the session open, and from then on accepted messages
get lost: by a Publish that finds room, and, one with every tick or acknowledgement, by the pump. Close lets waiting
Publish calls return without an error, and a SUBACK that panics loses its entry. `EngineLoss` states what each step
loses, balances every run, and shows that nothing else is ever lost. `MaxSizeOfInflight`, `MaxSizeOfPublishMsg` and
`SentTimeout` are arbitrary positive numbers.

**QoS 2, QoS 1 and QoS 0 (`Qos2Protocol`, `Qos2Progress`, `Qos2Sessions`, `Qos2Delivery`).** Two sessions back to
back, each publishing to the other, with FIFO connections, arbitrary resends and other traffic in between. Both use
the same ids, and the requests of one direction share send queues and wires with the replies of the other: the message
that the n-th Publish or Send call hands over is delivered as it is, at QoS 2 at most once, and exactly once when its
token has completed; at QoS 1 at least once. Nothing else is ever delivered, and nothing is forgotten: when nothing is
under way any more, everything handed over was delivered, or still waits for the window. The receiver's store is a
map, as its interface promises. `MemStore` shows what the in-memory store needs to keep that promise. The id it gives
must be free: it numbers a message by the size of an index, so after a removal in the middle it reuses a live id,
although `store/store.go:12-13` calls the id unique; the exact condition and a run that loses a message are both
proved. And its key is the client id with the message id behind it, which two clients can share exactly when one
client id is the other with a numeral from 1 to 6553 behind it.

**The end of a session (`Lifecycle`).** One notification, one callback, one will; no will after a clean end, and the
will after a failure. Who is told, when the session is connected, and whether the will goes out are each stated from
the events alone, in both directions.

**The wake-up queue (`UtilsList`, `Wakeup`).** The list class, and the same operations taken apart into the steps that
interleave: no wake-up is lost in any interleaving of any number of threads. (The comment on `Channel.Send`,
`session/channel.go:145-146`, says that it blocks on a full buffer. There is no bound; the model follows the code.)

**Subscriptions (`TopicMatch`, `TopicTree`).** A mutable tree of maps refines a flat table of filters; its
byte-scanning lookup finds exactly the matching sessions, with the QoS last asked for with their most specific filter,
after any history of operations. Its matching is the code's: "x/#" does not match "x", and a trailing slash hides the
last level. What it misses compared with section 4.7.1 of MQTT 3.1.1 is stated exactly, in both directions: a filter
one level longer than the topic whose last level is "#".

**The codec (`Utf8`, `BufferList`, `MqttPacket`, `ParserSpec`, `Parser`, `CodecRoundTrip`, `StreamRoundTrip`,
`ChunkIndependence`, `CutPoints`, `ParserVerdicts`, `WriterSpec`, `Writer`, `WriterExact`, `WireExamples`, `Codec`).**
`MqttPacket` says once what the bytes of a packet are. The parser is a class over a list of chunks, proved to follow
`ParserSpec` on every input, malformed ones included; the writer is a class over an accumulator of chunks, some of
them possibly `undefined`, proved to follow `WriterSpec`. Parsing the encodings of any valid packets, cut anywhere,
emits exactly those packets, each as soon as its last byte is there. On malformed packets the cut can show, because
some fields are read without a check against the packet's end. A test on the body alone says exactly when that can
happen: an id needs two bytes, a subscribed topic its QoS, a protocol name something behind it. Lists of packets that
pass it and are read without an error can be cut anywhere. `ParserVerdicts` says from the bytes alone what is read and
what each error means, and `WireExamples` fixes every type and flag against literal octets. The writer produces the
encoding for exactly the packets that `Sendable` describes: a topic must not be empty where something follows it, a
CONNECT must have ASCII protocol and client ids, a PUBREL no duplicate flag, and the writer's own checks must pass.
`Valid` adds what the parser needs: paired surrogates and a known protocol name and version. A packet comes out as
`Normal` says, with defaults filled in and the flags its command has on the wire.

Integers are unbounded and their widths are written out where they matter: packet ids are the counter modulo 65536,
and bytes are taken modulo 256. In the codec, shifts and masks of non-negative numbers are divisions, remainders and
sums.

## Model

| member | source | states |
|---|---|---|
| EngineInvariants.RunInvariant | session/session.go:201-270 | in every run, whatever Publish, Send, acknowledgements, writes, ticks and Close do: tokens carry the id of their packet, every packet is accounted for, and the bounds hold |
| EngineInvariants.Conservation | session/session.go:392-415 | while the channel runs, an accepted packet is found exactly once among pending, blocked, in flight and completed, and nothing that was not accepted is found at all |
| EngineInvariants.SingleCompletion | session/msg-handler.go:465-499 | no token is completed twice, nor while its packet is still in flight, pending or waiting in a blocked Publish, in any run with duplicate, late or unknown acknowledgements, even after a stop or a panic |
| EngineInvariants.WindowAndPendingBounds | session/session.go:407-413 | in every reachable state at most MaxSizeOfInflight entries came through insert2Inflight, peddingChan holds one byte per pending packet and at most MaxSizeOfPublishMsg, and a Publish blocks only when it is full |
| EngineInvariants.PublishLostExactly | session/session.go:407-409 | for the Publish call alone: accepted without an error and nowhere to be found exactly when the channel has stopped and there is room, because insert2Inflight refuses and Publish does not look |
| EngineInvariants.PublishPlaces | session/session.go:392-415 | a Publish puts exactly the caller's message, QoS and the next number into one place: in flight and into the send queue, behind the pending packets, or behind the blocked calls; refused it changes the counter only, and dropped it changes nothing else |
| EngineInvariants.SendPlaces | session/session.go:227-270 | a Send on a running channel puts exactly the caller's packet to the wire, under the next number if it takes one, with the token of its type, and into flight for the five tracked types |
| EngineLoss.StepBalance | session/session.go:392-415 | for every step, stopped channel or not: what was there and what the step accepts is there afterwards or is named in Loss, which reads off the guards of the failing branches |
| EngineLoss.RunningLosesNothing | session/session.go:201-226 | a step on a running channel loses nothing, except Close and a SUBACK that panics |
| EngineLoss.RunBalance | session/msg-handler.go:465-499 | over every run: each serial is found in the four places or was lost, as often as it was accepted |
| EngineLoss.LostExactly | session/session.go:559-570 | an accepted packet is nowhere to be found after a run if and only if some step of the run lost it, and no step loses it again |
| EngineLoss.DroppedIsReached | session/session.go:407-409 | a concrete run: after a failed write a Publish that returns no error is gone at once |
| EngineLoss.PumpLosesPending | session/msg-handler.go:488-497 | another: a Publish accepted on a running channel is popped by the pump after a failed write, and refused by insert2Inflight |
| EngineOrder.NoIdleWindowAndFifo | session/msg-handler.go:488-497 | as long as the send queue is below its limit at every Publish, pending packets mean a full window, and packets are admitted to the wire in the order the Publish calls were numbered |
| EngineOrder.OvertakesExactly | session/session.go:407-413 | with packets pending, a live Publish keeps that order exactly when it does not find room in both the window and the send queue |
| EngineOrder.BusySendQueueReorders | session/session.go:407-413 | the send-queue condition is needed: a concrete run of three publishes and one write in which the window idles beside a pending packet and the third message overtakes the second |
| EngineOrder.IdsDistinctInWindow | session/session.go:397-397 | ids are the counter modulo 65536, so two counter values less than 65536 apart never share one |
| EngineOrder.AckCompletesItsMessage | session/msg-handler.go:465-499 | inside such a window a PUBACK, PUBCOMP, UNSUBACK or answering SUBACK that arrives takes exactly the packet it names out of flight and completes exactly its token, and so does the writing of a QoS 0 publish |
| EngineOrder.InOrderIsContiguous | session/session.go:397-413 | with Publish only, no failed call and in-order acknowledgements, the outstanding packets are exactly the most recent counter values, in order |
| EngineOrder.InOrderAcksAreExact | session/msg-handler.go:465-499 | hence under the window and pending bounds every acknowledgement that arrives is exact, without assuming anything about ids |
| EngineOrder.TickResendsDue | session/session.go:533-557 | the resend part of a tick queues the packets of exactly the due entries in list order, keeps members and order of the list, and leaves every timeout later than now |
| EngineOrder.TickExtends | session/session.go:533-570 | the whole tick adds to that at most the head of the pending queue, at the end of list and queue, and still leaves nothing due |
| EngineOrder.IdlesExactly | session/session.go:407-413 | from a state without an idle window a live Publish leaves none exactly when the window is full or the send queue has room |
| EngineOrder.ResendBound | session/session.go:548-556 | over any run with a monotone clock, retryCnt * SentTimeout is at most the time since insertion, for every entry |
| SessionImpl.Session.constructor | session/session.go:149-165 | a new session is the initial engine and the fresh life cycle |
| SessionImpl.Session.Insert2Inflight | session/session.go:201-226 | updates the lists in place as the engine step says; a stopped channel changes nothing |
| SessionImpl.Session.Publish | session/session.go:392-415 | numbers the packet even when it refuses; window, pending queue or blocking as the engine step says, and nothing else changes |
| SessionImpl.Session.Send | session/session.go:227-270 | takes a new id for three packet types only, and bypasses window and pending queue |
| SessionImpl.Session.RemoveInflightMsg | session/session.go:515-530 | takes out and returns the first entry with the id, and only that one |
| SessionImpl.Session.UpdateInflightMsg | session/session.go:503-513 | gives every entry with the id the PUBREL as the packet to resend |
| SessionImpl.Session.OnInflightDone | session/msg-handler.go:465-499 | completes the flow and refills the window by at most one packet, as the engine step says |
| SessionImpl.Session.OnPubrec | session/msg-handler.go:309-317 | answers PUBREL and makes it what a resend sends |
| SessionImpl.Session.ReceiveReply | session/session.go:333-384 | dispatches the sending side; a session being closed ignores packets |
| SessionImpl.Session.WriteOne | session/session.go:635-680 | one written message; a written QoS 0 publish ends its flow while the session is open |
| SessionImpl.Session.ResendDue | session/session.go:533-557 | both loops of the resend timer together rearm and resend exactly the due entries |
| SessionImpl.Session.CheckInflightList | session/session.go:533-570 | then refills one place if window and send queue allow it |
| SessionImpl.Session.OnPublish | session/msg-handler.go:185-299 | QoS 0 delivers, QoS 1 acknowledges and delivers, QoS 2 answers PUBREC and stores the first copy only |
| SessionImpl.Session.OnPubrel | session/msg-handler.go:322-349 | always answers PUBCOMP; delivers and forgets the stored message if there is one |
| SessionImpl.Session.ReceiveRequest | session/session.go:341-384 | dispatches the receiving side |
| SessionImpl.Session.OnTick | session/session.go:444-473 | deadline check, then the resend timer; a session being closed does nothing |
| SessionImpl.Session.NotifyMgr | session/session.go:475-501 | tells the manager unless the session is already being closed |
| SessionImpl.Session.OnDisconnectException | session/session.go:683-702 | publishes the will only for the first exception |
| SessionImpl.Session.Close | session/session.go:287-321 | stops the channel once; waiting publishers give up |
| SessionImpl.Channel.Send | session/channel.go:147-154 | appends to the send queue unless stopped |
| SessionImpl.Channel.WriteNext | session/channel.go:108-121 | moves the head of the queue to the connection: what is written and what is queued stays the same sequence |
| SessionImpl.RemoveCbFinds | session/session.go:517-528 | removing with the callback of removeInflightMsg deletes the first entry with the id and hands it out, or nothing |
| SessionImpl.UpdateCbReleases | session/session.go:505-511 | iterating with the callback of updateInflightMsg replaces exactly the entries with the id |
| SessionImpl.CollectedIsDue | session/session.go:538-546 | iterating with the callback of checkInflightList collects exactly the positions of the due entries |
| SessionImpl.Session.WriteFails | session/channel.go:114-118 | a failed write drops its packet, stops the channel and starts the handling of the exception; the session stays open |
| SessionImpl.Channel.FailNext | session/channel.go:99-118 | the popped message is gone and the channel is stopped |
| SessionImpl.Session.RefillWindow | session/msg-handler.go:488-497 | takes one byte from peddingChan without blocking and moves at most the head of the pending queue into the window |
| SessionImpl.Session.FinishFlow | session/msg-handler.go:473-485 | removes the entry and completes its token; a SUBACK for another kind of token panics |
| SessionImpl.Session.ResendOne | session/session.go:551-556 | one more retry, a fresh timeout and the packet in the send queue, for this entry only |
| SessionImpl.Session.CheckDeadline | session/session.go:450-466 | a server tells the manager, a client that is connected pings |
| SessionImpl.Session.OnChannelReaded | session/session.go:575-614 | only a failed read starts the handling of an exception, and only while the session is open |
| SessionImpl.Session.OnChannelWrited | session/session.go:635-680 | so does only a failed write |
| SessionImpl.Session.OnChannelError | session/session.go:431-441 | tells the manager |
| SessionImpl.Session.OnDisconnect | session/msg-handler.go:456-462 | tells the manager |
| SessionImpl.Session.OnConnect | session/msg-handler.go:19-63 | accepted once; only then can there be a will |
| SessionImpl.Session.OnConnack | session/msg-handler.go:68-87 | a refusal keeps its return code with the sign flipped |
| Qos2Delivery.ExactlyOnce | session/msg-handler.go:263-358 | QoS 2 in both directions at once over the same two FIFO connections, in any run with arbitrary resends, other traffic and overlapping ids, fewer than 65536 on each side: the n-th message that the moves of one side hand over is delivered at most once under number n, as it was handed over and as nothing else, and once its token has completed exactly once |
| Qos2Delivery.AtLeastOnce | session/msg-handler.go:232-262 | QoS 1 in the same runs: once its token has completed, the n-th message handed over was delivered as it was handed over |
| Qos2Delivery.OnlyWhatWasHandedOver | session/msg-handler.go:185-358 | at every QoS, whatever is delivered under number n is the n-th message handed over |
| Qos2Delivery.SettledMeansDelivered | session/msg-handler.go:185-499 | nothing is forgotten: in every reachable state with nothing queued or under way, each message handed over at QoS 0, 1 or 2 has its token completed and was delivered, exactly once at QoS 2, or still waits for the window |
| Qos2Delivery.RunLogs | session/session.go:392-415 | the counter and the ids follow the moves: the n-th Publish or Send call of one side gets number n and is recorded with the caller's own topic, payload and QoS |
| Qos2Delivery.HandedAt | session/session.go:227-270 | what the k-th move hands over keeps its place, whatever comes later |
| Qos2Delivery.QueuedTrafficShape | session/msg-handler.go:309-317 | among the requests queued from one side to the other nothing but PUBREL stands behind a PUBREL of the same id |
| Qos2Sessions.PlayGood | session/session.go:503-570 | the invariant behind both holds after every run |
| Qos2Sessions.StepGood | session/session.go:503-570 | and is kept by every single move of either session |
| Qos2Sessions.ReceiverRefines | session/msg-handler.go:263-349 | the replies, store and deliveries of a session's receiving side are those of the protocol, and its sending side is untouched |
| Qos2Sessions.TakeRequestRefines | session/session.go:333-384 | taking a request off the wire is a step of the receiver in the direction it came from, and nothing in the other |
| Qos2Sessions.TakeReplyGood | session/session.go:333-384 | taking a reply off the wire keeps both directions safe, although replies share wires and queues with the other direction's requests |
| Qos2Progress.SenderReceivesLive | session/msg-handler.go:303-317 | taking any reply, every packet in flight still is on its way or its answer is, and every issued packet waits, flies or is done |
| Qos2Progress.ReceiverReceivesLive | session/msg-handler.go:185-349 | and so it is when the receiver takes any packet: what awaits an answer gets one |
| Qos2Progress.Settled | session/session.go:503-570 | with nothing under way every packet that awaits an answer waits or is done |
| Qos2Protocol.SenderReceivesSafe | session/msg-handler.go:303-317 | the sender's reaction to any reply keeps the handshake of every id safe |
| Qos2Protocol.ReceiverReceivesSafe | session/msg-handler.go:263-349 | so does the receiver's reaction to any packet |
| Lifecycle.EndsOnce | session/session.go:475-501 | in every run the manager, the owner and the subscribers to the will hear of the end at most once each |
| Lifecycle.CloseStepMonotone | session/session.go:287-292 | clostep never decreases along a run |
| Lifecycle.NoWillAfterCleanEnd | session/msg-handler.go:456-462 | when DISCONNECT or Close comes before any failure the will is never published, whatever follows |
| Lifecycle.WillAfterFailure | session/session.go:575-702 | when a failure comes first, the will has been published exactly once as soon as the spawned routines have run, whatever else comes, except a first CONNECT accepted after the failure that brings the will only then |
| Lifecycle.ToldExactly | session/session.go:475-501 | from the events alone: the manager is told, once, exactly when the first event that ends the session is a DISCONNECT, a channel error or a server's expired deadline and not Close; the owner exactly when Close has come; the session is open exactly as long as nothing has ended it |
| Lifecycle.ConnectedExactly | session/msg-handler.go:19-87 | from the events alone: an open session is connected exactly when the last CONNECT or CONNACK accepted, a refusal leaves its code with the sign flipped, and there is a will exactly when a CONNECT brought one to an open, unconnected session |
| Lifecycle.WillExactly | session/session.go:575-702 | from the events alone: after the first failure of an open session the will has been published once if an accepted CONNECT had brought one, and not at all if none does |
| Lifecycle.ReasonsHappened | session/session.go:683-702 | every reason that waits to be handled or was recorded is a failure that has happened |
| UtilsList.List.Push | utils/list.go:22-35 | appends and leaves the signal slot full |
| UtilsList.List.Pop | utils/list.go:36-52 | takes the head, and signals again exactly when something is left |
| UtilsList.List.Each | utils/list.go:61-70 | the loop visits the elements in order with the callback's captured state, up to the first that says stop |
| UtilsList.List.Remove | utils/list.go:74-90 | the in-place loop deletes exactly the elements the callback names, up to the one that ends it |
| Wakeup.NoLostWakeup | utils/list.go:22-52 | in every interleaving: a non-empty list means a full signal slot, a producer before its signal, or a consumer before the end of its Pop |
| Wakeup.QuietMeansDrained | session/channel.go:105-121 | when nobody is inside an operation and the slot is empty, the list is empty |
| Wakeup.NeverStuck | session/channel.go:105-121 | a consumer waiting beside a non-empty list is never stuck: some operation already begun can go on |
| Wakeup.PopsInPushOrder | utils/list.go:22-52 | without Remove, what was popped and what is left is what was pushed, in order, in every interleaving |
| Wakeup.UndisturbedPush | utils/list.go:22-35 | the four steps of a Push in a row are the atomic Push of the list class |
| Wakeup.UndisturbedPop | utils/list.go:36-52 | the four steps of a Pop in a row are its atomic Pop, with or without a signal before it |
| Wakeup.UndisturbedPopOfNothing | utils/list.go:36-52 | on an empty list they take nothing and leave the slot as it is |
| TopicMatch.WalkIsLevelMatch | topic/tree.go:90-133 | the byte-scanning walk reaches a filter exactly when it matches level by level, for topics that are not empty and do not end in a slash |
| TopicMatch.WalkExactlyLevelMatch | topic/tree.go:96-105 | and for no other topic: on an empty topic or a trailing slash the two disagree about some filter |
| TopicMatch.LevelMatchIsStandard | topic/tree.go:107-130 | every match is one of section 4.7.1 of MQTT 3.1.1, and a match of that section is missed if and only if the filter has one level more than the topic and that level is "#" |
| TopicMatch.ParentIsMissed | topic/tree.go:107-130 | such a match, for every level x: "x/#" on the topic "x" |
| TopicMatch.BeforeExactly | topic/tree.go:107-130 | one filter is less specific than another exactly when at the first level where they differ it has "#", or "+" against a name |
| TopicMatch.BeforeIsStrict | topic/tree.go:107-130 | the order in which matching filters are visited is strict |
| TopicMatch.SplitExactly | topic/tree.go:33-48 | splitting cuts at every slash and nowhere else, and joining gives the string back |
| TopicMatch.BeforeIsTotal | topic/tree.go:107-130 | and total among the filters that match one topic, so the most specific one is well defined |
| TopicTree.Node.Insert | topic/tree.go:33-48 | a recursive insert is one map update of the flat table of filters, and nothing else changes |
| TopicTree.Node.Delete | topic/tree.go:57-77 | a recursive remove with a session deletes exactly that pair |
| TopicTree.Node.RemoveSession | topic/tree.go:157-168 | deletes exactly the session's pairs, at every depth |
| TopicTree.Node.Add | topic/tree.go:137-144 | a list of filters is a fold of map updates, entry by entry with the QoS at the same index |
| TopicTree.Node.RemoveFilter | topic/tree.go:149-154 | the same for the interface operation |
| TopicTree.Node.Walk | topic/tree.go:90-133 | finds exactly the sessions with a matching filter, keeps what the map held for others, and takes the QoS of the most specific match |
| TopicTree.Node.GetSessions | topic/tree.go:80-89 | the same from an empty result map |
| TopicTree.HeldSinceSubscribed | topic/tree.go:137-168 | a session holds a filter exactly when some Add subscribed it and no later Remove or RemoveSession cancelled it |
| TopicTree.HeldExactlyAsAsked | topic/tree.go:137-144 | it holds it with QoS q exactly when the last Add that names the filter gives q at the last place where it does, and nothing cancelled it since |
| TopicTree.Replay | topic/tree.go:137-168 | after any history the tree stores exactly the flat table |
| TopicTree.SessionsAfter | topic/tree.go:80-133 | lookup after any history, in terms of the operations: exactly the sessions with a matching subscription that was not cancelled, each with the QoS last asked for with its most specific one |
| TopicTree.Node.Visit | topic/tree.go:112-130 | one child of the walk: a leaf is merged, an inner node is walked |
| MemStore.KeyInjectiveOnLength | store/mem-provider/mem-store.go:27-29 | client ids of equal length make the concatenated key injective |
| MemStore.KeyInjectiveWithoutTrailingDigit | store/mem-provider/mem-store.go:27-29 | so do client ids that do not end in a digit |
| MemStore.KeysCollide | store/mem-provider/mem-store.go:27-29 | in general two clients share a key: a concrete pair |
| MemStore.KeysCollideExactly | store/mem-provider/mem-store.go:27-29 | two clients share a key for some pair of message ids if and only if one client id is the other with a numeral from 1 to 6553 behind it |
| MemStore.SeparatesExactly | store/mem-provider/mem-store.go:30-74 | for any two clients: nothing saved for one is ever found for the other exactly when they are not of that kind |
| MemStore.SaveAgreesExactly | store/mem-provider/mem-store.go:30-43 | Save keeps the two indexes inverse exactly when the key is taken or the id len(indexId) is free |
| MemStore.RemoveAgrees | store/mem-provider/mem-store.go:76-87 | RemoveMsgById keeps them inverse and removes exactly the one message, and an unknown id is an error and changes nothing |
| MemStore.ReusedIdLosesAMessage | store/mem-provider/mem-store.go:37-40 | a concrete run in which removing one message by its own id deletes another |
| MemStore.RunAgrees | store/mem-provider/mem-store.go:30-87 | the indexes agree in every run in which each saved id was free |
| MemStore.LifoRunAgrees | store/mem-provider/mem-store.go:30-87 | last-in first-out removal is such a run |
| MemStore.MeetsContract | store/store.go:23-32 | on agreeing indexes the store is the map from client and message id that its interface promises, for Get, Save and RemoveMsgById, as long as no other client in it is one that can share a key |
| MemStore.MemoryStore.SaveByClientIdMsgId | store/mem-provider/mem-store.go:30-43 | the two maps and the object's id are updated in place, for any object; unless the indexes have come apart and the object is in one of them that is the operation on values |
| MemStore.MemoryStore.GetMsgByClientIdMsgId | store/mem-provider/mem-store.go:65-74 | reads the second index |
| MemStore.MemoryStore.RemoveMsgById | store/mem-provider/mem-store.go:76-87 | both maps lose the message |
| Utf8.Utf8ToBytes | www/libs/mqtt.js:3412-3490 | one pass over the code units with a held-back surrogate gives the encoding; with a bound on the bytes the result is a prefix of it, within the bound and at most three bytes short of it |
| Utf8.Utf8Slice | www/libs/mqtt.js:2706-2777 | the loop over the bytes is the decoding of the window |
| Utf8.DecodeCodePointsArray | www/libs/mqtt.js:2784-2800 | joining the code units in pieces of 4096 loses and reorders nothing |
| Utf8.StepInverts | www/libs/mqtt.js:2714-2757 | decoding the bytes of any code point gives it back, whatever follows (section 3 of RFC 3629) |
| Utf8.DecodeWellFormed | www/libs/mqtt.js:2760-2773 | no bytes decode to an unpaired surrogate |
| Utf8.RoundTripExactly | www/libs/mqtt.js:2706-2777 | decoding the encoding gives a string back exactly when its surrogates are properly paired |
| Utf8.LengthIsBytesExactly | www/libs/mqtt.js:3412-3490 | a string has as many bytes as code units exactly when it is ASCII |
| Utf8.NextUnits | www/libs/mqtt.js:2711-2773 | one turn of the decoding loop |
| Utf8.EncodeRepairs | www/libs/mqtt.js:3412-3490 | for every string: decoding its encoding gives it back with each unpaired surrogate replaced by U+FFFD, except that a lead behind a lead at the end is lost |
| Utf8.DecodeStepExactly | www/libs/mqtt.js:2711-2757 | the decoder takes a character exactly where the grammar of section 4 of RFC 3629 has one, with its value, and otherwise one byte as U+FFFD |
| BufferList.BufferList.Append | www/libs/mqtt.js:1596-1624 | the concatenation grows by the chunk, and length with it |
| BufferList.BufferList.Offset | www/libs/mqtt.js:1584-1593 | finds the chunk and the position in it |
| BufferList.BufferList.Slice | www/libs/mqtt.js:1660-1666 | every path of slice, for every chunking and also for positions out of order, reads the same range |
| BufferList.SliceIsFlatSlice | www/libs/mqtt.js:1660-1733 | with start <= end that is the slice of the concatenation |
| BufferList.OverlayAt | www/libs/mqtt.js:3279-3320 | a copy changes exactly the positions it reaches, to the bytes that belong there |
| BufferList.BackwardSliceExactly | www/libs/mqtt.js:1703-1707 | with start > end it agrees with a flat buffer exactly for these distances |
| BufferList.BackwardSliceDependsOnChunks | www/libs/mqtt.js:1703-1707 | a concrete list where slice(5, 3) returns two bytes |
| BufferList.BufferList.Copy | www/libs/mqtt.js:1669-1733 | copying writes the slice of the concatenation into the destination, as far as it fits; with the end before the start it writes nothing, and throws exactly when the distance reaches back past the chunk |
| BufferList.BufferList.CopyForward | www/libs/mqtt.js:1703-1733 | for a range in order both copying paths write the same bytes |
| BufferList.BufferList.Consume | www/libs/mqtt.js:1763-1776 | drops exactly the first bytes and keeps length in step |
| BufferList.BufferList.ReadUInt8 | www/libs/mqtt.js:1798-1822 | the byte at the position, or the RangeError behind the end |
| BufferList.BufferList.ReadUInt16BE | www/libs/mqtt.js:1798-1822 | two bytes, high byte first |
| BufferList.CopyChunk | www/libs/mqtt.js:3279-3320 | as much of a buffer as fits, and how much that was |
| BufferList.SliceFromEnd | www/libs/mqtt.js:1660-1666 | negative positions count from the end of the concatenation, clamped at its beginning |
| MqttPacket.LengthLength | www/libs/mqtt.js:5673-5679 | calcLengthLength counts the bytes of the Remaining Length, and no length beyond the format fits in four |
| MqttPacket.LengthReadBack | www/libs/mqtt.js:4909-4935 | the Remaining Length (section 2.2.3 of MQTT 3.1.1) is read back whatever follows it |
| MqttPacket.LengthIncomplete | www/libs/mqtt.js:4922-4928 | every proper prefix is reported incomplete |
| MqttPacket.LengthExactly | www/libs/mqtt.js:4909-4935 | for all bytes: the length is the base-128 number up to the first byte without its top bit, or up to the fifth once a sixth is there, and incomplete exactly when there is no such end |
| MqttPacket.Code | www/libs/mqtt.js:4648-4674 | the codes are the inverse of the types; `WireExamples` fixes each against its octets |
| CodecRoundTrip.FlagsReadBack | www/libs/mqtt.js:5023-5036 | the connect flags say again what they were made from |
| CodecRoundTrip.BodyReadBack | www/libs/mqtt.js:4937-4986 | the fields of every packet are read back from its body, in any chunking and whatever lies behind it |
| CodecRoundTrip.TextExactly | www/libs/mqtt.js:5172-5183 | the strings of a packet survive exactly when all their surrogates are properly paired |
| CodecRoundTrip.PacketReadBack | www/libs/mqtt.js:4937-4986 | both together for every valid packet |
| StreamRoundTrip.StreamPrefix | www/libs/mqtt.js:4880-4894 | however the bytes so far are cut, exactly the packets they complete have been emitted, and no error |
| StreamRoundTrip.StreamRoundTrip | www/libs/mqtt.js:4880-5217 | for every list of valid packets and every split of their encodings the parser emits exactly those packets in order and ends empty, ready for more |
| StreamRoundTrip.FrameStream | www/libs/mqtt.js:4880-5217 | any frames that yield their packets wherever they stand: exactly those packets, in order, for every split |
| ChunkIndependence.IndependentExactly | www/libs/mqtt.js:4937-5153 | what is read for a packet of any contents is the same whatever else is buffered, in whatever chunks, if and only if a decidable test on its body passes |
| ChunkIndependence.SelfContainedAgrees | www/libs/mqtt.js:4937-5153 | the direction that is used: for such a body all the parsing loops stay inside it |
| CutPoints.CutFreeExactly | www/libs/mqtt.js:4880-4986 | cutting the bytes right behind a packet never shows in the emitted events, whatever follows, if and only if the packet is read without an error from its own bytes and passes that test, or throws |
| CutPoints.ThrownIsCutFree | www/libs/mqtt.js:5099-5122 | a packet that throws stays in the buffer and is read again with the next chunk |
| CutPoints.ErrorsShowCuts | www/libs/mqtt.js:4880-4883 | an error drops what stands behind it in its chunk and nothing later, so a cut behind it always shows |
| CutPoints.MissingFieldsShowCuts | www/libs/mqtt.js:4937-4986 | and so does one behind a packet that takes a field from the bytes behind it |
| CutPoints.CleanStream | www/libs/mqtt.js:4880-5217 | any list of packets that pass the test and are read without an error, valid or not: in every split of the stream each is emitted once, in order, with the fields of its own bytes |
| CutPoints.CutsAgree | www/libs/mqtt.js:4880-5217 | so no two ways to cut such a stream can be told apart |
| CutPoints.MalformedDependsOnChunks | www/libs/mqtt.js:5076-5086 | one packet outside the condition: a CONNACK without a body takes its fields from the bytes behind it if they are already there |
| ParserVerdicts.ConnectVerdict | www/libs/mqtt.js:4988-5074 | from the bytes alone: a CONNECT is read, with exactly these fields, if and only if name, a version of 3 or 4, flags, keepalive, client id and what the flags announce stand one behind the other inside the packet, and each of the eight errors is given if and only if its fault is there |
| ParserVerdicts.SubscribeVerdict | www/libs/mqtt.js:5099-5122 | a SUBSCRIBE without QoS 1 in its header is refused; with it, it is read exactly when topics with a QoS byte each fill it, throws exactly when the buffer ends behind a topic, and otherwise a topic cannot be parsed |
| ParserVerdicts.UnsubscribeVerdict | www/libs/mqtt.js:5135-5153 | an UNSUBSCRIBE is read exactly when topics fill it behind its id |
| ParserVerdicts.ReadExactly | www/libs/mqtt.js:4937-4986 | for every command: a buffered packet is read if and only if its bytes can be laid out as one, and a reserved command is not supported |
| ParserVerdicts.FieldsSay | www/libs/mqtt.js:5076-5085 | the fields of CONNACK, the acknowledgements, SUBACK and the empty packets, byte by byte |
| ParserVerdicts.PublishSays | www/libs/mqtt.js:5087-5097 | topic, id and payload of a PUBLISH, byte by byte |
| Parser.Parser.ParseNum | www/libs/mqtt.js:5199-5206 | two bytes at the position, or -1 |
| Parser.Parser.ParseBuffer | www/libs/mqtt.js:5185-5197 | the bytes behind their length, unless they leave the buffer or the packet |
| Parser.Parser.ParseString | www/libs/mqtt.js:5172-5183 | the same, decoded |
| Parser.Parser.ParseConnect | www/libs/mqtt.js:4988-5074 | reads every part or stops with the first error, on every input; `ParserVerdicts.ConnectVerdict` says from the bytes when it does which |
| Parser.Parser.ParsePublish | www/libs/mqtt.js:5087-5097 | topic, id unless QoS 0, and the slice up to the packet's end |
| Parser.Parser.ParseSubscribe | www/libs/mqtt.js:5099-5122 | the loop over topics and QoS bytes, including the RangeError behind the last byte |
| Parser.Parser.ParseSuback | www/libs/mqtt.js:5124-5133 | the loop over the granted QoS bytes |
| Parser.Parser.ParseUnsubscribe | www/libs/mqtt.js:5135-5153 | the loop over the topics |
| Parser.Parser.ParseLength | www/libs/mqtt.js:4909-4935 | the loop over at most five bytes; when the code is incomplete nothing is consumed and nothing changes |
| Parser.Parser.ParsePayload | www/libs/mqtt.js:4937-4986 | waits for the whole payload; an error leaves the packet where it is |
| Parser.Parser.NewPacket | www/libs/mqtt.js:5208-5217 | consumes the payload and emits the packet |
| Parser.Parser.Parse | www/libs/mqtt.js:4880-4894 | one call runs the four states until bytes are missing, an error or an exception, and returns how much is buffered |
| Parser.Parser.ParseAll | www/libs/mqtt.js:4880-4894 | chunk after chunk |
| Parser.Parser.ParseConnack | www/libs/mqtt.js:5076-5085 | two bytes of the buffer, or no fields and no error |
| Parser.Parser.ParseHeader | www/libs/mqtt.js:4896-4907 | the bits of the first byte, which is consumed |
| Parser.Parser.ParseFields | www/libs/mqtt.js:4945-4982 | the switch over the commands; reserved ones are not supported |
| Parser.Parser.RunState | www/libs/mqtt.js:4885-4891 | one turn of the loop; an error keeps the state where it is |
| Parser.Parser.ResetState | www/libs/mqtt.js:4873-4878 | an empty buffer and a blank packet |
| WireExamples.FullConnect | www/libs/mqtt.js:5275-5424 | all flags set, as octets: what the writer generates and the parser reads |
| WireExamples.PlainConnect | www/libs/mqtt.js:5236-5306 | the defaults, as octets, for every keepalive |
| WireExamples.Connacks | www/libs/mqtt.js:5426-5441 | CONNACK as octets, for every return code |
| WireExamples.Publishes | www/libs/mqtt.js:5443-5486 | PUBLISH at QoS 1 and 2 as octets, for every flag, id and short payload |
| WireExamples.PublishesAtQos0 | www/libs/mqtt.js:5443-5486 | the same at QoS 0, without an id |
| WireExamples.Confirmations | www/libs/mqtt.js:5489-5512 | PUBACK, PUBREC, PUBREL, PUBCOMP and UNSUBACK as octets, for every id |
| WireExamples.Subscribes | www/libs/mqtt.js:5514-5575 | SUBSCRIBE as octets |
| WireExamples.Subacks | www/libs/mqtt.js:5577-5614 | SUBACK as octets |
| WireExamples.Unsubscribes | www/libs/mqtt.js:5616-5661 | UNSUBSCRIBE as octets |
| WireExamples.Pings | www/libs/mqtt.js:5663-5665 | PINGREQ, PINGRESP and DISCONNECT as octets |
| WireExamples.Reserveds | www/libs/mqtt.js:4648-4674 | the first bytes below 0x10 and from 0xF0 on give an error |
| Writer.Accumulator.Concat | www/libs/mqtt.js:4779-4808 | both loops together return the chunks before the first falsy one, strings encoded |
| Writer.Writer.GenBufLength | www/libs/mqtt.js:5681-5694 | the do-while loop fills exactly calcLengthLength bytes with the code |
| Writer.Writer.WriteLength | www/libs/mqtt.js:5709-5718 | the cache never changes what is written |
| Writer.Writer.CheckConnect | www/libs/mqtt.js:5288-5380 | the checks of connect in their order, and the length they add up |
| Writer.Writer.WriteConnect | www/libs/mqtt.js:5275-5424 | refuses and writes nothing, or writes every part |
| Writer.Writer.WritePublish | www/libs/mqtt.js:5443-5486 | the same for PUBLISH, with the TypeError of a QoS above two |
| Writer.Writer.WriteConfirmation | www/libs/mqtt.js:5489-5512 | the same for the acknowledgements, with the TypeError of a duplicate PUBREL |
| Writer.Writer.WriteSubscribe | www/libs/mqtt.js:5514-5575 | the same for SUBSCRIBE, with both loops |
| Writer.Writer.WriteSuback | www/libs/mqtt.js:5577-5614 | the same for SUBACK |
| Writer.Writer.WriteUnsubscribe | www/libs/mqtt.js:5616-5661 | the same for UNSUBSCRIBE |
| Writer.Writer.Generate | www/libs/mqtt.js:4761-4765 | what generate returns: the joined chunks, or, as nobody listens to its accumulator, an exception for every refusal and TypeError |
| Writer.Writer.WriteString | www/libs/mqtt.js:5731-5736 | the length in bytes, then the string |
| Writer.Writer.WriteConnack | www/libs/mqtt.js:5426-5441 | always written, the return code modulo 256 |
| Writer.Writer.WriteEmpty | www/libs/mqtt.js:5663-5665 | two bytes; an unknown command is refused |
| Writer.Writer.WriteToStream | www/libs/mqtt.js:5236-5269 | the writer of the packet's command |
| WriterExact.GeneratesExactly | www/libs/mqtt.js:5236-5661 | of all packets that have an encoding, the writer produces it for exactly the sendable ones, a condition on the packet alone |
| WriterExact.ConnectExactly | www/libs/mqtt.js:5291-5306 | an accepted CONNECT is encoded correctly exactly when protocol and client id are ASCII, because their length is counted in code units |
| WriterExact.PublishExactly | www/libs/mqtt.js:5451-5486 | a PUBLISH to an empty topic is cut off behind the topic's length |
| WriterExact.RefusedExactly | www/libs/mqtt.js:5236-5661 | a packet is refused exactly for its first defect in the order of the checks, and without one it is written unless a table has no entry for it |
| WriterExact.AnyReturnCode | www/libs/mqtt.js:5426-5441 | a return code out of range loses its high bits |
| WriterExact.IdOutOfRange | www/libs/mqtt.js:5489-5512 | an id out of range ends the packet where it should stand |
| WriterExact.FlagBits | www/libs/mqtt.js:5394-5402 | the flags of a CONNECT bit by bit, for any will QoS |
| Codec.WriterThenParser | www/libs/mqtt.js:4880-5217 | whatever the writer generates for valid, sendable packets, cut anywhere, the parser emits again |
| Codec.AfterAnError | www/libs/mqtt.js:4880-4883 | after an error the next chunk is parsed as by a new parser |

## Left out

- ExactlyOnce: handlers are atomic, both sessions stay open, Send is used for packets that take an id and for PINGREQ, and each receiver's store is the map of its interface; the in-memory store is one only while the ids it gives are free and no two clients can share a key, see `MemStore.MeetsContract`.
- SessionsAfter: the choice of the QoS is stated for topics without a level "#", which section 4.7.1 of MQTT 3.1.1 forbids; which sessions are found is stated for all topics.
- GeneratesExactly: packets that have no encoding at all, with ids, lengths or codes outside their ranges, are not covered; what is written for them is only described by `WriterSpec`.
- LevelMatchIsStandard: topics that begin with "$", which section 4.7.2 keeps from wildcards, are not treated specially, as in the program.
- SettledMeansDelivered: a QoS above 2 is not acknowledged by any receiver, so it is left out; and a message may wait for the window, as `EngineOrder.IdlesExactly` says when.
- Send: the tokens of CONNECT and DISCONNECT and what completes them are not modelled; packets, lists and counter are.
- Close: the completion of the connect and disconnect tokens is not modelled.
- OnPublish: retained messages, and a store that fails for another reason than a missing or duplicate key, are not modelled.
- OnChannelReaded: the deadline that resetTimeout moves is a parameter of the tick.
- OnChannelWrited: the same.
- OnConnect: the refusal for the reserved bit and the CONNACK that is sent are not modelled; what CONNECT changes in the session is.
- CleanStream: the Remaining Length has its shortest code, which is what the writer produces; a longer code for the same number is covered by `Parser.ParseLength` only.
- Interleavings inside a handler: check-then-act in Publish, onPubrec, the window pump and onDisconnectException is not locked, and each is one atomic step here. Only the list is taken apart.
- A Publish blocked on a full peddingChan is kept in a queue, and the step that frees a place hands it over at once.
- List entries are values: a callback of Each maps the captured state and the element to new ones instead of writing through a pointer, so aliasing of one entry by two lists is not captured.
- A packet shared by several sessions: Publish is taken to get a packet of its own. The fan-out to subscribers, which shares one and sends it with the QoS it came with, is not part of this model.
- The per-topic results of a SUBSCRIBE token; the panic on a SUBACK for another kind of token is modelled.
- The counter of message ids does not wrap at 64 bits.
- onConnectTimeout, which is never called, the clean-session flag of CONNECT, and the session manager's own maps.
- Reading clocks: the time of a step and whether the keepalive deadline has passed are parameters.
- Remove with a nil session, and IsTopicMatch, whose only caller compares a string with itself.
- Empty nodes that removals leave behind in the subscription tree: they hold no session, and no statement depends on them.
- Retained messages, the dashboard's counters and broadcasts, the ticker, goroutine start and stop, network, TLS, HTTP and logging.
- The mutexes of the tree and of the store: their operations are atomic.
- Values of other types than a packet's fields have: the writer's typeof checks, buffers where strings are usual, strings as payloads, numbers that are not integers.
- A will QoS above 3: the flags that are written are stated, the round trip needs a QoS of two bits.
- The error event of the parser without a listener.
- Remaining Lengths whose 32-bit truncation in genBufLength would matter: beyond 268435455 nothing is written anyway.
- The JavaScript client around the codec, and the rest of the bundle and of the web pages.
