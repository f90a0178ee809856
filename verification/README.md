# Verification of the streaming stack

Dafny models of the RTSP/RTP server, its client receiver, the event loop under them, and the
login and stream-list protocol, with proofs of what each promises over all inputs and all runs.
`dafny verify dfyconfig.toml` checks everything.

Code that changes state is modelled by classes and methods with the source's fields and loops.
Each method is proved against a function on values, and the theorems are lemmas about those
functions. Protocols between threads are state machines whose steps are single atomic actions.

| file | what it models |
|---|---|
| `Rtp`, `Fragmentation`, `H264Source`, `H265Source` | frames cut into RTP packets |
| `RtpConnection`, `MediaSession`, `ClientStream`, `ClientIsolation` | one shared packet buffer for many clients |
| `PassLocks`, `SharedIterator` | what a pass over the clients shares with event loops and with other passes |
| `BufferWriter`, `WireConservation`, `Interleaved`, `TcpConnection`, `TcpDelivery` | the write queue, its stream, the flush protocol between threads, and what the peer gets |
| `StreamingWorker`, `EndToEnd` | the client's receiver, and the way from source to decoder |
| `RingBuffer`, `TriggerEvents`, `Timer`, `TimerRuns`, `SelectTaskScheduler` | the event loop |
| `Md5Definition`, `Md5`, `Md5Suite` | RFC 1321, its incremental implementation, and one digest of its test suite |
| `H264File`, `H264Parser` | Annex B segmentation |
| `MemoryPool`, `MemoryManager` | the block allocator |
| `CStrings`, `StreamList`, `NetworkManager`, `Credentials` | the text protocol |
| `RtspMedia`, `MediaGate`, `RtspPush`, `RtspConnection`, `RtspViewer` | the RTSP state machines, and what a viewer gets |
| `Sequences` | concatenation of byte strings |

Several properties that one would expect of the code do not hold of it for all inputs. For
these there is a lemma with an input or a run that shows it, and one that says exactly when the
property does hold:

- Clients of one media session do not affect each other, but when one of them has a socket error
  or is closed by its event loop while a packet is being sent to it, the pass over the clients
  ends for all (`OneClientBreaksThePass`, `UnicastIsolation`, `FateIff`); the second case needs
  no error and is a deadlock between threads (`HangUpStopsThePass`, `StuckForEverIff`).
- A pass sends its packet to the clients of its own session, but not always when a second server
  or pusher is at work in the same program (`RightIffOneOwner`, `ApartMeansRight`).
- A marker packet brings the receiver back to its initial state, but not when it carries one
  byte and the marker of an earlier fragmented frame was lost (`LostMarkerBeforeTinyFrame`,
  `MarkerResynchronises`, and over whole runs `UndefinedIff` and `Resynchronises`).
- A queued write is always flushed or watched for, but not when a reader holds the mutex while
  the sender tries to flush (`ReaderStrandsAWrite`, `StrandedOnlyByReader`).
- An event for which `AddTriggerEvent` answers true is run, but not always when two threads post
  (`DropsIffTwoProducers`).
- A removed timer does not fire, but one with a delay of zero may (`OrphanFires`,
  `OrphanIffZero`, `AddAgreesForIff`, `RemovedFiresOnlyIfZero`).
- select is asked about the channels as they are, but not after a registered channel changes
  whether it reads (`StaleReader`, `SelectIsRightIff`).
- A multicast packet is sent to the group, but not when the client with the smallest socket is
  not playing (`MulticastAsksFirstOnline`).
- The stream list and the credentials are parsed back, but not with empty lists, empty fields or
  line breaks in fields (`MessageRoundTripIff`, `ParsedBody`, `RegisterExactIff`,
  `LoginExactIff`).

## Model

| member | source | states |
|---|---|---|
| `H264Source.H264Source.HandleFrame` | RtspServer/PHZ76_RtspServer/src/xop/H264Source.cpp:52-123 | The packets handed to the callback are exactly `Packets` of the frame, in order, up to and including the first one that the callback refuses; the answer says whether one was refused. Only at the largest size of 32 bits does the sum in the loop wrap, and the last copy overrun the packet. |
| `H264Source.LargeFrameIsWellFragmented` | RtspServer/PHZ76_RtspServer/src/xop/H264Source.cpp:80-120 | For every frame over 1460 bytes: at least two FU-A fragments, the start bit on the first alone, the end bit and the marker on the last alone, none empty or over 1460 bytes, one indicator and type throughout, and bodies that make up the frame without its first byte. |
| `H264Source.PacketsStamped` | RtspServer/PHZ76_RtspServer/src/xop/H264Source.cpp:52-123 | Every packet of every frame has the frame's timestamp and type, the last one alone the marker, and none has more than 1460 bytes. |
| `H264Source.Rfc6184RoundTrip` | RtspServer/PHZ76_RtspServer/src/xop/H264Source.cpp:52-123 | A receiver written from section 5.8 of RFC 6184 rebuilds exactly the frame if and only if the frame is fragmented or starts with a NAL header of type 1 to 23. |
| `H265Source.H265Source.HandleFrame` | RtspServer/PHZ76_RtspServer/src/xop/H265Source.cpp:52-136 | The same for H.265: the callback gets exactly the packets of the frame until it refuses one, except at the largest size, where the sum wraps. |
| `H265Source.LargeFrameIsWellFragmented` | RtspServer/PHZ76_RtspServer/src/xop/H265Source.cpp:81-132 | Fragments with the two-byte payload header and FU header: S on the first alone, E and the marker on the last alone, and bodies that make up the frame without its first two bytes. |
| `H265Source.PacketsStamped` | RtspServer/PHZ76_RtspServer/src/xop/H265Source.cpp:52-136 | The same for H.265. |
| `H265Source.Rfc7798RoundTrip` | RtspServer/PHZ76_RtspServer/src/xop/H265Source.cpp:52-136 | A receiver written from section 4.4.3 of RFC 7798 rebuilds exactly the frame, both header bytes included, if and only if it is fragmented or is a NAL unit of at least two bytes and type 0 to 47. |
| `Fragmentation.FragmentsShape` | RtspServer/PHZ76_RtspServer/src/xop/H264Source.cpp:86-119 | The recursion behind both loops: for any lead, type and remaining bytes the fragments are well formed and their bodies concatenate to those bytes. |
| `Rtp.DatagramReadsBack` | RtspServer/PHZ76_RtspServer/src/xop/RtpConnection.cpp:239-248 | A reader of section 5.1 of RFC 3550 gets version 2, no padding, extension or CSRC, marker, payload type, sequence number, timestamp, SSRC and payload from the bytes of an encoded header and payload. |
| `RtpConnection.RtpConnection.SetupRtpOverTcp` | RtspServer/PHZ76_RtspServer/src/xop/RtpConnection.cpp:56-72 | Sets up the one channel with its interleaved number and switches the transport, unless the RTSP connection is gone; nothing else of the client changes. |
| `RtpConnection.RtpConnection.SetupRtpOverUdp` | RtspServer/PHZ76_RtspServer/src/xop/RtpConnection.cpp:74-128 | Sets up the one channel if and only if the connection and the peer's address are there and one of ten attempts binds both sockets; otherwise nothing changes. |
| `RtpConnection.RtpConnection.SetupRtpOverMulticast` | RtspServer/PHZ76_RtspServer/src/xop/RtpConnection.cpp:130-159 | Sets up the one channel if and only if one of ten attempts binds the socket; otherwise nothing changes. |
| `RtpConnection.RtpConnection.Play` | RtspServer/PHZ76_RtspServer/src/xop/RtpConnection.cpp:161-170 | Exactly the channels that are set up start to play. |
| `RtpConnection.RtpConnection.Record` | RtspServer/PHZ76_RtspServer/src/xop/RtpConnection.cpp:172-182 | Exactly the channels that are set up start to record and play. |
| `RtpConnection.RtpConnection.Teardown` | RtspServer/PHZ76_RtspServer/src/xop/RtpConnection.cpp:184-195 | Closes the client and stops every channel, once. |
| `RtpConnection.RtpConnection.SetFrameType` | RtspServer/PHZ76_RtspServer/src/xop/RtpConnection.cpp:230-237 | A key frame, or a frame of any type, is remembered for good. |
| `RtpConnection.RtpConnection.SetRtpHeader` | RtspServer/PHZ76_RtspServer/src/xop/RtpConnection.cpp:239-248 | On an active channel after a key frame the shared buffer holds the client's own datagram and the sequence number is used up modulo 2^16; otherwise nothing changes. |
| `RtpConnection.RtpConnection.SendRtpPacket` | RtspServer/PHZ76_RtspServer/src/xop/RtpConnection.cpp:250-266 | The client's new state, its TCP connection included, the result, and whether the send waits for an event loop that is closing the connection, are a function of its old state and the packet's payload, marker, timestamp and type alone; the packet as others see it is unchanged. |
| `RtpConnection.RtpConnection.SendRtpOverTcp` | RtspServer/PHZ76_RtspServer/src/xop/RtpConnection.cpp:268-284 | Hands a copy of the datagram behind an interleaving header to the connection, which queues it, flushes, and closes when the socket reports an error, or which the event loop closes while the sender waits for its mutex; fails when the connection is gone. |
| `RtpConnection.RtpConnection.StampInterleaved` | RtspServer/PHZ76_RtspServer/src/xop/RtpConnection.cpp:277-280 | The four bytes in front of the datagram make it a frame of section 10.12 of RFC 2326. |
| `RtpConnection.RtpConnection.SendRtpOverUdp` | RtspServer/PHZ76_RtspServer/src/xop/RtpConnection.cpp:286-296 | The network takes the datagram, or the client is torn down. |
| `MediaSession.MediaSession.SendPacket` | RtspServer/PHZ76_RtspServer/src/xop/MediaSession.cpp:106-139 | One packet for all clients through one buffer, erasing expired entries while iterating, is `Broadcast` over their separate states, up to the first client whose failing flush closes its connection in the middle of the pass, or whose event loop closes it while the send waits; the packet is the same afterwards. |
| `MediaSession.MediaSession.OnClose` | RtspServer/PHZ76_RtspServer/src/xop/RtspConnection.cpp:80-93 | Closing a client in the middle of a pass locks the server's mutex a second time, or erases exactly the entry of its socket, at which the pass stands. |
| `MediaSession.MediaSession.Erase` | RtspServer/PHZ76_RtspServer/src/xop/MediaSession.cpp:117-120 | Erasing one entry while iterating keeps all others, in order. |
| `MediaSession.MediaSession.AddClient` | RtspServer/PHZ76_RtspServer/src/xop/MediaSession.cpp:244-261 | A client is added, in the order of the sockets, if and only if its socket has no entry, not even that of a client that expired. |
| `MediaSession.MediaSession.RemoveClient` | RtspServer/PHZ76_RtspServer/src/xop/MediaSession.cpp:263-277 | Exactly the entry of the socket is removed, if there is one. |
| `ClientIsolation.UnicastIsolation` | RtspServer/PHZ76_RtspServer/src/xop/MediaSession.cpp:106-139 | Over every run of packets, set-ups, PLAY, RECORD and TEARDOWN, flushes and closings by the event loop, expiries, joining and leaving: every pass returns if and only if no client, seen alone, has a flush fail or its connection closed by the event loop while a packet is being sent to it; then each client ends in the state that its own events and the packets give it alone. Otherwise such a client is the reason, for a wait without end or, only under a pusher and after a failing flush, for an erased iterator. |
| `ClientIsolation.EventIsolated` | RtspServer/PHZ76_RtspServer/src/xop/MediaSession.cpp:106-139 | How a pass ends is decided by the first client, in the order of the sockets, for which it does not go well, and a pass that returns has moved every client as if it were alone. |
| `ClientIsolation.FateIff` | RtspServer/PHZ76_RtspServer/src/net/TcpConnection.cpp:48-138 | It does not go well exactly for a client that plays over TCP on that channel with an open connection: the send waits if and only if the event loop closes the connection before the sender has its mutex, and otherwise the flush fails if and only if it gets the mutex and the socket answers with an error before it would block. |
| `ClientIsolation.OneClientBreaksThePass` | RtspServer/PHZ76_RtspServer/src/xop/RtspServer.cpp:83-92 | Whatever other clients there are, one that joins, plays over TCP and has a socket error, or hangs up while a packet is being sent to it, ends the pass of the first key frame for everybody; alone, it does so in a wait without end under the server, and under the pusher with an erased iterator or, when it hangs up, in the wait. |
| `PassLocks.StepKeepsInv` | RtspServer/PHZ76_RtspServer/src/net/TcpConnection.cpp:48-169 | Every action of the pushing thread and of any number of event loops keeps mutual exclusion for every connection's mutex, and a connection that is being closed is marked so. |
| `PassLocks.StuckForEverIff` | RtspServer/PHZ76_RtspServer/src/xop/RtspConnection.cpp:80-93 | After every run, no continuation whatsoever lets the pushing thread get any further if and only if an event loop closed a connection under its mutex between the sender's test and its lock, or a flush of the thread failed under a server. |
| `PassLocks.DoomsIffFatal` | RtspServer/PHZ76_RtspServer/src/net/TcpConnection.cpp:48-169 | One action turns a state from which the thread can get on into one from which it cannot if and only if it is one of these two. |
| `PassLocks.HangUpStopsThePass` | RtspServer/PHZ76_RtspServer/src/net/TcpConnection.cpp:69-95 | For a server and for a pusher, and for each client and event loop, there is a run without any answer of a socket to a write after which the pass waits for ever. |
| `SharedIterator.ApartMeansRight` | RtspServer/PHZ76_RtspServer/src/xop/MediaSession.cpp:106-139 | The iterator is one static variable for all sessions: over every run in which no pass begins while that of another owner is under way, each pass sends its packet to each client of its own session once, in order. |
| `SharedIterator.RightIffOneOwner` | RtspServer/PHZ76_RtspServer/src/xop/MediaSession.cpp:111-112 | Whatever sessions there are, this holds in every run if and only if there are fewer than two servers or pushers: with two, one can send its packet to a client of the other. |
| `ClientIsolation.MulticastAsksFirstOnline` | RtspServer/PHZ76_RtspServer/src/xop/MediaSession.cpp:126-133 | A multicast packet is offered if and only if the first online client is open, active and has a key frame: no other client is asked, and no slot behind it is touched. |
| `ClientStream.EveryPacketOnceInOrder` | RtspServer/PHZ76_RtspServer/src/xop/RtpConnection.cpp:239-266 | A playing client is offered the packet of every pass that comes to it exactly once, in order, with its payload, marker and timestamp, with the payload type and SSRC of its channel, and with numbers consecutive modulo 2^16 on each channel, also over TCP whatever its socket does. |
| `ClientStream.RefusedIffClosed` | RtspServer/PHZ76_RtspServer/src/xop/RtpConnection.cpp:286-296 | Over UDP or multicast a packet is a datagram that the network takes, or it is refused; the client is then closed with no channel active, and the result is -1. |
| `ClientStream.SentOverTcp` | RtspServer/PHZ76_RtspServer/src/xop/RtpConnection.cpp:268-284 | Over TCP the result is the length of the frame, or -1 when the connection is gone; the sender waits if and only if the event loop closes an open connection in between. |
| `ClientStream.NewClientIs` | RtspServer/PHZ76_RtspServer/src/xop/RtpConnection.cpp:11-28 | A client starts with the sequence number and SSRC that are drawn for each channel, with nothing set up or active. |
| `ClientStream.WaitsForKeyFrame` | RtspServer/PHZ76_RtspServer/src/xop/RtpConnection.cpp:230-266 | Packets before the first key frame do nothing, and from it on the client is served as if it had always had one. |
| `BufferWriter.BufferWriter.AppendShared` | RtspServer/PHZ76_RtspServer/src/net/BufferWriter.cpp:56-68 | A non-empty packet is queued when there is room, and dropped whole otherwise. |
| `BufferWriter.BufferWriter.AppendCopy` | RtspServer/PHZ76_RtspServer/src/net/BufferWriter.cpp:70-87 | The same for a copy, which the caller's later writes cannot reach. |
| `BufferWriter.BufferWriter.Send` | RtspServer/PHZ76_RtspServer/src/net/BufferWriter.cpp:89-135 | For every sequence of socket answers: what is written, what stays queued and the result are those of the flush function; the loop ends because each further turn has finished a packet. |
| `BufferWriter.FlushConserves` | RtspServer/PHZ76_RtspServer/src/net/BufferWriter.cpp:89-135 | What a flush writes followed by what it leaves is what was queued, and only the head packet is ever partly sent. |
| `BufferWriter.FlushIs` | RtspServer/PHZ76_RtspServer/src/net/BufferWriter.cpp:89-135 | A flush writes the packets whole that the socket has room for, then as many bytes of the next as there is room for, and nothing else; its result is negative if and only if the socket reports an error for a packet after it has taken all before it, and never because it would block. |
| `BufferWriter.FlushByTurns` | RtspServer/PHZ76_RtspServer/src/net/BufferWriter.cpp:99-128 | The flush function and the loop's single turns agree. |
| `WireConservation.NothingLostOrReordered` | RtspServer/PHZ76_RtspServer/src/net/BufferWriter.cpp:56-135 | Over every run of appends and partial, blocked or failing sends: bytes sent and bytes queued are together the accepted packets, cut inside at most one of them. |
| `Interleaved.DeframeInverts` | RtspServer/PHZ76_RtspServer/src/xop/RtpConnection.cpp:277-282 | Deframing the concatenation of binary frames and text messages, whose header announces the length of the body, gives the parts back, whatever incomplete part follows. |
| `Interleaved.SentDeframes` | RtspServer/PHZ76_RtspServer/src/xop/RtpConnection.cpp:268-284 | Whenever sent and queued bytes together are the accepted parts, deframing what was sent gives all accepted parts but those still queued, in order. |
| `Interleaved.StreamDeframes` | RtspServer/PHZ76_RtspServer/src/xop/RtpConnection.cpp:268-284 | Over every run of appends and flushes that is the case, although a full queue drops packets. |
| `TcpDelivery.TcpStreamDelivers` | RtspServer/PHZ76_RtspServer/src/xop/RtpConnection.cpp:250-284 | Over every run of packets given to a playing client, answers to its requests, and flushes by the event loop: what is accepted are exactly the frames and answers whose turn came when the queue was not full and the connection open, and deframing what the socket took gives these, in order, on the channel numbers that were set up, with their headers, payloads and markers, but for those still queued. |
| `TcpConnection.TcpConnection.Send` | RtspServer/PHZ76_RtspServer/src/net/TcpConnection.cpp:48-58 | On an open connection, queues the bytes and flushes; on a closed one, nothing; on one that the event loop closes before the sender has the mutex, it waits and the bytes are not queued. |
| `TcpConnection.TcpConnection.HandleWrite` | RtspServer/PHZ76_RtspServer/src/net/TcpConnection.cpp:97-138 | With the mutex, the bytes sent, what stays queued, whether the connection closes, and whether EVENT_OUT is on afterwards: exactly when something is left. |
| `TcpConnection.FlushedIff` | RtspServer/PHZ76_RtspServer/src/net/TcpConnection.cpp:97-138 | A flush closes an open connection if and only if it gets the mutex and the socket reports an error; one that blocks or is partial leaves it open and watched for writing, one that leaves nothing leaves it unwatched, and without the mutex nothing changes. |
| `TcpConnection.SendAlone` | RtspServer/PHZ76_RtspServer/src/net/TcpConnection.cpp:48-138 | The atomic actions of a send by one undisturbed thread do together what the methods do. |
| `TcpConnection.StepConsistent` | RtspServer/PHZ76_RtspServer/src/net/TcpConnection.cpp:36-138 | Any action of any thread keeps mutual exclusion, conservation of the wire, and what the holder of the mutex has seen. |
| `TcpConnection.StrandedOnlyByReader` | RtspServer/PHZ76_RtspServer/src/net/TcpConnection.cpp:69-138 | A step leaves data queued, the connection open, nobody at work and the socket unwatched if and only if a thread gives up its flush while a reader holds the mutex. |
| `TcpConnection.NoLostWrite` | RtspServer/PHZ76_RtspServer/src/net/TcpConnection.cpp:36-138 | In every interleaving of any number of senders and flushes in which no reader blocks a flush, queued data is watched for or a thread is still bound to flush it. |
| `TcpConnection.AtRestMeansWatched` | RtspServer/PHZ76_RtspServer/src/net/TcpConnection.cpp:97-138 | When all threads are at rest on an open connection, a non-empty queue implies that EVENT_OUT is on. |
| `TcpConnection.ReaderStrandsAWrite` | RtspServer/PHZ76_RtspServer/src/net/TcpConnection.cpp:69-103 | A run of eight actions of a sender and a reader after which a packet is queued, both are at rest, and EVENT_OUT is off. |
| `StreamingWorker.StreamingWorker.HandleDatagram` | RtspClient/src/streaming_worker.cpp:139-199 | One turn of the loop on the real buffer and flags is the receiver function. |
| `StreamingWorker.StreamingWorker.Run` | RtspClient/src/streaming_worker.cpp:119-201 | The whole loop over the datagrams that arrive is the fold of that function, and it stops where the source breaks. |
| `StreamingWorker.RunsAreSane` | RtspClient/src/streaming_worker.cpp:139-199 | Over every run of datagrams a packetizer can emit, with any losses and order, what is collected stays below 150000 bytes. |
| `StreamingWorker.DecoderObeyed` | RtspClient/src/streaming_worker.cpp:176-197 | Over every run from the start, the worker stops exactly when the decoder answers with success and no picture, and the decoder is closed and opened again once for every ten failures in a row. |
| `StreamingWorker.MarkerResynchronises` | RtspClient/src/streaming_worker.cpp:147-199 | A marker leaves the receiver in its initial state, unless the picture is blank, or the packet has one byte and fragments of a frame whose marker was lost are waiting: exactly then a negative count is copied. |
| `StreamingWorker.LostMarkerBeforeTinyFrame` | RtspClient/src/streaming_worker.cpp:147-172 | That case happens: one fragment, then a frame of one byte. |
| `StreamingWorker.UndefinedIff` | RtspClient/src/streaming_worker.cpp:139-199 | Over every run of emitted datagrams, with any losses and in any order, the receiver runs on if and only if no frame of one byte came while fragments waited for a marker, where every 103 of them overflow the buffer and empty it; and it then holds exactly what the fragments since the last marker left. |
| `StreamingWorker.NoTinyFrameNeverTrips` | RtspClient/src/streaming_worker.cpp:147-172 | A run without frames of one byte never gets there. |
| `EndToEnd.EndToEndRoundTrip` | RtspClient/src/streaming_worker.cpp:133-199 | From source to decoder over UDP without loss: for every list of frames of at most 150000 bytes the decoder gets one buffer for each non-empty frame, in order, the frame itself up to 1460 bytes and the frame without its first byte beyond; and all datagrams of a frame carry its timestamp. |
| `EndToEnd.DeliveredIffNotTooLong` | RtspClient/src/streaming_worker.cpp:166-172 | 150000 bytes is the exact limit: a completely received frame is delivered if and only if it is not longer. |
| `EndToEnd.Resynchronises` | RtspClient/src/streaming_worker.cpp:133-199 | After any history of emitted datagrams with any losses, and a marker, a later frame that arrives completely is delivered correctly if and only if no frame of one byte found fragments of an earlier frame waiting. |
| `RingBuffer.RingBuffer.Push` | RtspServer/PHZ76_RtspServer/src/net/RingBuffer.h:58-70 | Appends to the contents unless they fill the capacity, and says which. |
| `RingBuffer.RingBuffer.Pop` | RtspServer/PHZ76_RtspServer/src/net/RingBuffer.h:31-41 | Takes the oldest element off the contents unless they are empty. |
| `TriggerEvents.StepKeepsInv` | RtspServer/PHZ76_RtspServer/src/net/RingBuffer.h:31-75 | Every step of any number of producers and one consumer, with each check, slot access, position and count update apart, keeps the count, both positions modulo the capacity adjusted for steps in flight, and the values in the slots. |
| `TriggerEvents.EventsRunOnceInOrder` | RtspServer/PHZ76_RtspServer/src/net/TaskScheduler.cpp:70-98 | In every interleaving the events run are a prefix of those pushed and the rest, at most the capacity, are in the ring. |
| `TriggerEvents.NeverSameSlot` | RtspServer/PHZ76_RtspServer/src/net/RingBuffer.h:35-64 | A producer about to write and the consumer about to read are never at the same slot. |
| `TriggerEvents.NothingWaitsForAWakeup` | RtspServer/PHZ76_RtspServer/src/net/TaskScheduler.cpp:70-98 | A loop that sleeps with no byte in the wake-up pipe, when no producer is at work, has run everything that was pushed. |
| `TriggerEvents.DropsIffTwoProducers` | RtspServer/PHZ76_RtspServer/src/net/TaskScheduler.cpp:70-81 | For every capacity, some run answers true for an event that is dropped if and only if two threads may post. |
| `TriggerEvents.HandleTriggerEvent` | RtspServer/PHZ76_RtspServer/src/net/TaskScheduler.cpp:89-98 | Undisturbed, the loop runs all events of the ring in order and leaves it empty. |
| `Timer.AddAgreesIff` | RtspServer/PHZ76_RtspServer/src/net/Timer.cpp:68-80 | Both indexes hold the same timers under their stored deadlines after an addition if and only if the delay is not zero. |
| `Timer.RemoveAgrees` | RtspServer/PHZ76_RtspServer/src/net/Timer.cpp:82-93 | Removing keeps the indexes in agreement and leaves nothing of the timer in either. |
| `Timer.FireAgrees` | RtspServer/PHZ76_RtspServer/src/net/Timer.cpp:128-141 | One turn of the dispatch loop keeps them in agreement. |
| `Timer.DispatchExact` | RtspServer/PHZ76_RtspServer/src/net/Timer.cpp:119-143 | One call fires exactly the timers that are due, each once, by deadline and then id, reschedules those that ask for it from the sampled time and drops the others. |
| `Timer.SleepsUntilDue` | RtspServer/PHZ76_RtspServer/src/net/Timer.cpp:101-117 | The remaining time is -1 without timers and otherwise the clamped distance to the nearest deadline: something is due then and not a millisecond earlier. |
| `Timer.DispatchSafe` | RtspServer/PHZ76_RtspServer/src/net/Timer.cpp:119-143 | Whatever the delays, one call fires, by deadline and then id, only events that are due, and the due event of every registered timer among them. |
| `TimerRuns.AgreeForAll` | RtspServer/PHZ76_RtspServer/src/net/Timer.cpp:56-143 | The indexes agree if and only if they agree about each id. |
| `TimerRuns.AddAgreesForIff` | RtspServer/PHZ76_RtspServer/src/net/Timer.cpp:68-80 | After an addition they agree about the new id if and only if its delay is not zero, and about every other id as before. |
| `TimerRuns.RemoveAgreesFor` | RtspServer/PHZ76_RtspServer/src/net/Timer.cpp:82-93 | A removal changes nothing for other ids and keeps the agreement about its own. |
| `TimerRuns.FireAgreesFor` | RtspServer/PHZ76_RtspServer/src/net/Timer.cpp:128-141 | A firing changes nothing for other ids, and makes the indexes agree about a registered one. |
| `TimerRuns.HandleStamps` | RtspServer/PHZ76_RtspServer/src/net/Timer.cpp:119-143 | The firings that a run records for one call are those of the dispatch loop, in order, at the sampled time. |
| `TimerRuns.FiringsApart` | RtspServer/PHZ76_RtspServer/src/net/Timer.cpp:56-143 | In every run, whatever the delays, a timer first fires at least its delay after its addition and then at least its interval after any firing. |
| `TimerRuns.RemovedFiresOnlyIfZero` | RtspServer/PHZ76_RtspServer/src/net/Timer.cpp:68-143 | In every run, a timer fires after its removal only if it was added with a delay of zero and had not fired before it was removed. |
| `Timer.OrphanIffZero` | RtspServer/PHZ76_RtspServer/src/net/Timer.cpp:68-93 | Adding and removing a timer leaves an event behind if and only if the delay was zero. |
| `Timer.OrphanFires` | RtspServer/PHZ76_RtspServer/src/net/Timer.cpp:119-143 | Such an event fires although its timer was removed. |
| `Timer.TimerQueue.AddTimer` | RtspServer/PHZ76_RtspServer/src/net/Timer.cpp:68-80 | The two maps of shared timer objects change as the function on values says. |
| `Timer.TimerQueue.RemoveTimer` | RtspServer/PHZ76_RtspServer/src/net/Timer.cpp:82-93 | Likewise for removal. |
| `Timer.TimerQueue.GetTimeRemaining` | RtspServer/PHZ76_RtspServer/src/net/Timer.cpp:101-117 | Returns the remaining time of the value that the maps represent. |
| `Timer.TimerQueue.HandleTimerEvent` | RtspServer/PHZ76_RtspServer/src/net/Timer.cpp:119-143 | The loop on the shared objects is the dispatch function and terminates: the number of due events is its measure. |
| `SelectTaskScheduler.RunDescribed` | RtspServer/PHZ76_RtspServer/src/net/SelectTaskScheduler.cpp:26-162 | Over every run of interest changes, announcements, removals and calls of select: the read and exception flags are up exactly when a channel was registered or removed since the sets were last recomputed, the cached read set is that of the channels at that moment, and the others are right unless their flag is up or a change is not announced. |
| `SelectTaskScheduler.SelectIsRightIff` | RtspServer/PHZ76_RtspServer/src/net/SelectTaskScheduler.cpp:74-162 | In every run whose changes are all announced, select is called with exactly the read, write and exception sets of the channels and the largest descriptor if and only if a channel was registered or removed since the last call, or those that read now are those that read at the last call after such a change. |
| `SelectTaskScheduler.DisciplinedIsRight` | RtspServer/PHZ76_RtspServer/src/net/SelectTaskScheduler.cpp:26-162 | That holds in every run in which no registered channel changes whether it reads, unless it drops all its interest and announces that. |
| `SelectTaskScheduler.WritingIsAllowed` | RtspServer/PHZ76_RtspServer/src/net/SelectTaskScheduler.cpp:42-46 | Turning write interest on or off on a channel that reads is such a change. |
| `SelectTaskScheduler.Channel.EnableWriting` | RtspServer/PHZ76_RtspServer/src/net/Channel.cpp:50-53 | Turns on the interest in writing, and leaves that in reading. |
| `SelectTaskScheduler.Channel.DisableWriting` | RtspServer/PHZ76_RtspServer/src/net/Channel.cpp:60-63 | Turns off the interest in writing, and leaves that in reading. |
| `SelectTaskScheduler.StaleReader` | RtspServer/PHZ76_RtspServer/src/net/SelectTaskScheduler.cpp:34-46 | A run that is not right: a channel that stops reading while it still writes stays in the read set. |
| `SelectTaskScheduler.SelectTaskScheduler.UpdateChannel` | RtspServer/PHZ76_RtspServer/src/net/SelectTaskScheduler.cpp:26-57 | Flags and channel map change as the function on values says. |
| `SelectTaskScheduler.SelectTaskScheduler.RemoveChannel` | RtspServer/PHZ76_RtspServer/src/net/SelectTaskScheduler.cpp:59-72 | Likewise for removal. |
| `SelectTaskScheduler.SelectTaskScheduler.HandleEvent` | RtspServer/PHZ76_RtspServer/src/net/SelectTaskScheduler.cpp:74-218 | Select is called with the refreshed cache unless there is no channel, and the events collected are exactly the channels that its answer has something for. |
| `SelectTaskScheduler.SelectTaskScheduler.Collect` | RtspServer/PHZ76_RtspServer/src/net/SelectTaskScheduler.cpp:182-210 | Exactly the registered channels in one of the answered sets are collected, each with all its events. |
| `SelectTaskScheduler.EventsAreBits` | RtspServer/PHZ76_RtspServer/src/net/SelectTaskScheduler.cpp:182-210 | A descriptor gets the bits of exactly those answered sets that it is in: reading, writing, hang-up. |
| `Md5.Md5State.Process` | RtspServer/PHZ76_RtspServer/src/3rdpart/md5/md5.hpp:173-350 | The 64 unrolled operations and the final additions are the compression function of section 3.4 of RFC 1321. |
| `Md5.Round1` | RtspServer/PHZ76_RtspServer/src/3rdpart/md5/md5.hpp:240-263 | The sixteen unrolled operations of round 1, with their complemented constants, are steps 0 to 15 of the indexed recurrence. |
| `Md5.Round2` | RtspServer/PHZ76_RtspServer/src/3rdpart/md5/md5.hpp:265-288 | The same for round 2. |
| `Md5.Round3` | RtspServer/PHZ76_RtspServer/src/3rdpart/md5/md5.hpp:290-313 | The same for round 3. |
| `Md5.Round4` | RtspServer/PHZ76_RtspServer/src/3rdpart/md5/md5.hpp:315-341 | The same for round 4. |
| `Md5.Load` | RtspServer/PHZ76_RtspServer/src/3rdpart/md5/md5.hpp:222-232 | The sixteen words of a block are its bytes, low-order byte first. |
| `Md5.Md5State.constructor` | RtspServer/PHZ76_RtspServer/src/3rdpart/md5/md5.hpp:352-358 | The initial state is that of the empty message. |
| `Md5.Md5State.Append` | RtspServer/PHZ76_RtspServer/src/3rdpart/md5/md5.hpp:360-394 | After any appends the registers are the fold over all whole blocks of everything appended, the buffer has the tail, and the two words the length in bits modulo 2^64. |
| `Md5.Md5State.Finish` | RtspServer/PHZ76_RtspServer/src/3rdpart/md5/md5.hpp:396-415 | The digest is that of sections 3.1 to 3.4 of RFC 1321 for everything appended, however it was cut into pieces. |
| `Md5.HashString` | RtspServer/PHZ76_RtspServer/src/3rdpart/md5/md5.hpp:418-434 | Hashing a string at once gives the same digest. |
| `Md5Suite.AlphabetDigest` | RtspServer/PHZ76_RtspServer/src/3rdpart/md5/md5.hpp:173-434 | The digest of the letters a to z is the one in the test suite of section A.5 of RFC 1321, which fixes every function, constant and order in the definition. |
| `Md5.HexReadsBack` | RtspServer/PHZ76_RtspServer/src/3rdpart/md5/md5.hpp:434-446 | A reader of two hexadecimal digits for each byte, the high half first, gets the digest back. |
| `Md5.HexInjective` | RtspServer/PHZ76_RtspServer/src/3rdpart/md5/md5.hpp:434-446 | Two digests with the same hexadecimal form are the same. |
| `H264File.H264File.ReadFrame` | H264StreamingAPI/H264File.cc:44-147 | One call, with its window, its rewinding, its truncation to the caller's buffer and its closing on failure, does what the scan function says at the current position. |
| `H264File.ReadIff` | H264StreamingAPI/H264File.cc:69-127 | On the bytes: a call cuts at the first 00 00 01 or 00 00 00 01, at least four behind the first that starts a slice of type 1 or 5 with its top bit set, that starts such a slice or a unit of type 6, 7 or 8; without one it takes the rest, but not in the first call of a pass; and it fails exactly otherwise. |
| `H264File.WindowIsWholeIff` | H264StreamingAPI/H264File.cc:69-121 | A call through a window cuts where a scan of the whole file cuts if and only if the window reaches five bytes beyond the cut or to the end of the file. |
| `H264File.H264File.Open` | H264StreamingAPI/H264File.cc:14-26 | Opens the file at its start when there is one, and says so. |
| `H264File.ReadPass` | H264StreamingAPI/H264File.cc:44-147 | Calling until a call fails or ends the pass returns the frames of the pass, when the output buffer is at least as large as the window. |
| `H264File.PassIsWholeIff` | H264StreamingAPI/H264File.cc:44-147 | A whole pass returns the frames of the whole-file segmentation if and only if every call fits its window. |
| `H264File.PassCovers` | H264StreamingAPI/H264File.cc:129-146 | The frames of a pass are consecutive pieces of the file from its start, and every call but the last advances by at least four bytes. |
| `H264File.PassReturnsAll` | H264StreamingAPI/H264File.cc:114-143 | A pass that ends with `*end` and fits its windows returns the whole file. |
| `H264Parser.FindNal` | RtspServer/PHZ76_RtspServer/src/xop/H264Parser.cpp:7-72 | The rolling three-byte window finds exactly the unit of the naive definition: after the first start code with a byte behind it, up to the next code of the same length or the end. |
| `H264Parser.NalUnique` | RtspServer/PHZ76_RtspServer/src/xop/H264Parser.cpp:7-72 | The naive definition determines the result, including when there is none. |
| `H264Parser.NalBounds` | RtspServer/PHZ76_RtspServer/src/xop/H264Parser.cpp:7-72 | The result lies inside the data; only an empty unit ends before it starts. |
| `MemoryPool.MemoryPool.Init` | RtspServer/PHZ76_RtspServer/src/net/MemoryManager.cpp:28-53 | The region is cut into numbered blocks, all free, in order, and no header outside it is written; a second call changes nothing; only without any block is a header written where no block is. |
| `MemoryPool.MemoryPool.Alloc` | RtspServer/PHZ76_RtspServer/src/net/MemoryManager.cpp:55-65 | Hands out the head of the free list, and fails if and only if the list is empty. |
| `MemoryPool.MemoryPool.Free` | RtspServer/PHZ76_RtspServer/src/net/MemoryManager.cpp:67-76 | Puts a live block back at the head; the list in memory stays acyclic and without repetition. |
| `MemoryPool.MemoryPool.FreeAndLive` | RtspServer/PHZ76_RtspServer/src/net/MemoryManager.cpp:28-76 | Free and live blocks together are all n. |
| `MemoryPool.BlockIsProduct` | RtspServer/PHZ76_RtspServer/src/net/MemoryManager.cpp:42 | A block lies where the source's multiplication puts it. |
| `MemoryPool.BlocksApart` | RtspServer/PHZ76_RtspServer/src/net/MemoryManager.cpp:42-43 | Blocks with their headers do not overlap. |
| `MemoryManager.MemoryManager.constructor` | RtspServer/PHZ76_RtspServer/src/net/MemoryManager.cpp:83-89 | The three pools are set up in disjoint regions with nothing live. |
| `MemoryManager.MemoryManager.Alloc` | RtspServer/PHZ76_RtspServer/src/net/MemoryManager.cpp:102-124 | A block of the first class that is large enough, or from malloc when that class is used up or there is none. |
| `MemoryManager.MemoryManager.Free` | RtspServer/PHZ76_RtspServer/src/net/MemoryManager.cpp:126-139 | A block goes back to the pool it came from, or to malloc, and no other pool changes. |
| `MemoryManager.MemoryManager.LiveApart` | RtspServer/PHZ76_RtspServer/src/net/MemoryManager.cpp:102-139 | In every valid state any two live blocks are disjoint, headers and usable bytes included. |
| `MemoryManager.ClassOf` | RtspServer/PHZ76_RtspServer/src/net/MemoryManager.cpp:104-107 | The class that serves a request has room for it, and no smaller class has. |
| `StreamList.SetStreamsAndUrls` | NetworkManagerAPI/NetworkUser.cc:18-49 | The parser's loop splits the text before the first blank line into alternating names and URLs. |
| `StreamList.ParsedBody` | NetworkManagerAPI/NetworkUser.cc:18-49 | What becomes of any printed lines: those before the first empty one; an empty list is rejected; a first line that is empty before one that is not makes the loop run for ever. |
| `StreamList.RoundTripIff` | NetworkManagerAPI/NetworkUser.cc:18-49 | Printed lines are parsed back exactly if and only if there are some, none is empty, and none has a CRLF. |
| `NetworkManager.MessageRoundTripIff` | NetworkManagerAPI/NetworkManager.cc:362-388 | A client that receives the message gets exactly the server's lists if and only if they are not both empty, no URL and no on-demand name is empty, and no name or URL has a CRLF or a NUL. |
| `NetworkManager.NetworkManager.UpdateLiveStream` | NetworkManagerAPI/NetworkManager.cc:290-312 | A new name is added with its URL and a known name keeps its own; the message renders the lists. |
| `NetworkManager.NetworkManager.UpdateOnDemandStream` | NetworkManagerAPI/NetworkManager.cc:314-338 | The URL's entry is replaced or added, URLs stay unique, the list stays sorted by time, and the message renders it. |
| `NetworkManager.NetworkManager.UpdateStreamMessage` | NetworkManagerAPI/NetworkManager.cc:362-388 | The message built by appending in loops is the rendering of both lists. |
| `Credentials.RegisterReadsBack` | NetworkManagerAPI/NetworkClientHandler.cc:179-218 | A sign-up whose fields have no CRLF is read as it was meant, with the database asked in the source's order. |
| `Credentials.RegisterExactIff` | NetworkManagerAPI/NetworkClientHandler.cc:179-218 | For every database: a sign-up is accepted and stores exactly the typed fields if and only if none of them has a CRLF, neither the name nor the email is taken, and the database takes the row. |
| `Credentials.LoginReadsBack` | NetworkManagerAPI/NetworkClientHandler.cc:220-248 | A sign-in whose fields have no CRLF is read as it was meant. |
| `Credentials.LoginExactIff` | NetworkManagerAPI/NetworkClientHandler.cc:220-248 | A sign-in gets the answer for what was typed, whatever the database holds, if and only if neither field has a CRLF. |
| `Credentials.PasswordOfFirst` | NetworkManagerAPI/NetworkClientHandler.cc:220-248 | A password is right if and only if it is that of the first row for the name. |
| `Credentials.SignUpThenSignIn` | NetworkManagerAPI/NetworkClientHandler.cc:144-248 | After a successful sign-up the same username and password sign in if and only if the username has no `@` or happens to be an email with that password; signing in by email works. |
| `RtspConnection.RtspConnection.HandleRtspRequest` | RtspServer/PHZ76_RtspServer/src/xop/RtspConnection.cpp:104-156 | Each complete request changes the connection and its client as the function on values says. |
| `RtspConnection.RtspConnection.HandleAuthentication` | RtspServer/PHZ76_RtspServer/src/xop/RtspConnection.cpp:412-432 | Accepts exactly the digest response to the last nonce and forgets the nonce, or answers with a new one. |
| `RtspConnection.RtspConnection.HandleCmdDescribe` | RtspServer/PHZ76_RtspServer/src/xop/RtspConnection.cpp:233-278 | Makes the client if there is none, and remembers the session that was found. |
| `RtspConnection.RtspConnection.HandleCmdSetup` | RtspServer/PHZ76_RtspServer/src/xop/RtspConnection.cpp:280-360 | Sets up the channel on the transport that fits the session, or says why not. |
| `RtspConnection.RtspConnection.HandleCmdPlay` | RtspServer/PHZ76_RtspServer/src/xop/RtspConnection.cpp:362-382 | Starts all channels that are set up, if there is a client. |
| `RtspConnection.RtspConnection.HandleCmdTeardown` | RtspServer/PHZ76_RtspServer/src/xop/RtspConnection.cpp:384-398 | Stops them, if there is a client. |
| `RtspConnection.MediaIsGated` | RtspServer/PHZ76_RtspServer/src/xop/RtspConnection.cpp:233-398 | In every run a packet is offered on a channel only after that channel's SETUP and a later PLAY and never after a TEARDOWN, and a session that was found has a client. |
| `RtspConnection.NothingBeforeAuthentication` | RtspServer/PHZ76_RtspServer/src/xop/RtspConnection.cpp:412-432 | With credentials configured, nothing is described, set up, started or sent before a request whose response answers the last nonce handed out. |
| `RtspConnection.ExpectedIsRfc2617` | RtspServer/PHZ76_RtspServer/src/xop/DigestAuthentication.cpp:36-44 | The expected response is the keyed digest of section 3.2.2 of RFC 2617 without a quality of protection. |
| `RtspViewer.SetupAnswers` | RtspServer/PHZ76_RtspServer/src/xop/RtspConnection.cpp:280-360 | SETUP is a server error without the session, unsupported if and only if the session is there and the transport does not suit it, and otherwise OK with exactly that channel set up when the connection, peer and sockets that it needs are there; else nothing changes. |
| `RtspViewer.DescribeAnswers` | RtspServer/PHZ76_RtspServer/src/xop/RtspConnection.cpp:233-278 | DESCRIBE is not found, a server error or OK by whether the session is there and has a description, and gives the client the payload types of its sources. |
| `RtspViewer.ChallengedIff` | RtspServer/PHZ76_RtspServer/src/xop/RtspConnection.cpp:412-432 | A request is challenged if and only if it is a DESCRIBE, SETUP or PLAY, credentials are configured, none was accepted yet, and it does not carry the RFC 2617 response for its method to the last nonce; only the nonce changes then. |
| `RtspViewer.OtherAnswers` | RtspServer/PHZ76_RtspServer/src/xop/RtspConnection.cpp:362-410 | OPTIONS is always OK; GET_PARAMETER, TEARDOWN and PLAY are answered if and only if there is a client; PLAY starts exactly what is set up, and TEARDOWN stops everything and closes the client. |
| `RtspViewer.ViewerGetsMedia` | RtspServer/PHZ76_RtspServer/src/xop/RtspConnection.cpp:233-382 | A viewer that describes a described session, sets up a channel over any transport that suits it and can be had, and plays, is answered OK three times, and the next key frame on the channel is offered to it, as a datagram with the packet's payload, marker and timestamp and the viewer's own payload type, sequence number and SSRC. |
| `RtspViewer.ChallengedViewerGetsMedia` | RtspServer/PHZ76_RtspServer/src/xop/RtspConnection.cpp:233-432 | With credentials the same viewer is first challenged, and with the RFC 2617 response to the nonce everything goes as without. |
| `RtspViewer.NothingAfterTeardown` | RtspServer/PHZ76_RtspServer/src/xop/RtspConnection.cpp:384-398 | After a TEARDOWN of a client no packet is ever offered on the connection again, whatever is asked then. |
| `RtspConnection.RtspConnection.HandleRtspResponse` | RtspServer/PHZ76_RtspServer/src/xop/RtspConnection.cpp:158-195 | Each complete answer moves a pushing connection on as the function on values says. |
| `RtspConnection.RtspConnection.SendOptions` | RtspServer/PHZ76_RtspServer/src/xop/RtspConnection.cpp:434-453 | A pushing connection starts with a client that has nothing set up. |
| `RtspConnection.RtspConnection.SendAnnounce` | RtspServer/PHZ76_RtspServer/src/xop/RtspConnection.cpp:455-490 | Announces the described session, or closes. |
| `RtspConnection.RtspConnection.SendSetup` | RtspServer/PHZ76_RtspServer/src/xop/RtspConnection.cpp:499-528 | Sets up the next source that is not, or asks to record. |
| `RtspPush.HandshakeAt` | RtspServer/PHZ76_RtspServer/src/xop/RtspConnection.cpp:158-195 | After every number of good answers the handshake is at that number; a bad one stops it for good. |
| `RtspPush.PushStartsIff` | RtspServer/PHZ76_RtspServer/src/xop/RtspConnection.cpp:158-195 | START_PUSH is reached if and only if there is a described session and the first three answers, and one more for each source, are good. |
| `RtspPush.SourcesRecord` | RtspServer/PHZ76_RtspServer/src/xop/RtspConnection.cpp:499-534 | Every source channel is then set up over TCP and recording, with its payload type, on channel number 0 for the first and 2 for the second source. |
| `RtspPush.PushIsGated` | RtspServer/PHZ76_RtspServer/src/xop/RtspConnection.cpp:158-195 | In every run of answers, good or bad, and packets, a packet is offered on a channel only after that channel was set up and the answer to RECORD came later; a channel that is active is set up, and the connection is in START_PUSH. |

## Left out

- Sockets, epoll, pipes, clocks, random numbers, the decoder, malloc and the database: their answers are parameters, and the proofs hold for all of them.
- `RtpConnection.RtpConnection.SetupRtpOverUdp`: port numbers, addresses and the descriptors of the bound sockets are not modelled.
- `RtpConnection.RtpConnection.SetupRtpOverMulticast`: likewise for the group's address and port.
- The text of RTSP requests and responses: they are values, and in `Interleaved` byte strings that have the length their header announces; what an SDP text too long for the buffer of a reply does to the stream is not modelled.
- RTSP messages that arrive in pieces: only complete ones are modelled. (The source takes an incomplete answer for a good one.)
- The SDP text of a media session and its notification callbacks.
- `MediaSession.MediaSession.AddClient`: is stated for a client that has no entry under another socket, as an RTSP connection registers its own client under its own socket.
- `PassLocks`: the mutexes of descriptor sets, trigger events and timers, and notification callbacks, are left out; what a pusher does after its entry is erased is not followed.
- `MediaSession.MediaSession.OnClose`: the server or pusher that a connection points at is taken to exist still while a pass goes on.
- `ClientIsolation`: one owner's passes are modelled, which its mutex keeps apart (for more owners see `SharedIterator`); after a pass that does not return, nothing is said about the clients, for the source's behaviour is then not defined, or it waits for ever.
- `TcpConnection`: its methods are stated for a caller that is not disturbed; threads are positions in a step machine in which a flush under the mutex is one action. Whether a flush gets the mutex, and whether the event loop closes the connection while a send waits for it, are parameters of a client's runs; `PassLocks` has the schedules behind them.
- `HandleRead`'s parsing of what it has read: a reader is a thread that holds the mutex for a while and may close the connection.
- Callbacks of trigger events that post further events are other threads in the interleavings of `TriggerEvents`; `HandleTriggerEvent` runs events that post nothing.
- `Timer.TimerQueue.AddTimer`: is stated for fewer than 2^32 additions; the reuse of ids after that is not modelled.
- Timer callbacks that add or remove timers: they would lock the queue's mutex a second time.
- `SelectTaskScheduler`: the number of descriptors is not limited to FD_SETSIZE.
- The order in which ready channels are handled, which is that of an unordered map.
- `MemoryPool.MemoryPool.Init`: malloc never fails.
- `H264File`: positions are unbounded, where the source's counter has 32 bits; a file is not opened while another is open.
- `StreamList.SetStreamsAndUrls`: a turn of the loop that does not advance is reported as divergence; in the source it repeats until memory is used up.
- `NetworkManager`: the library sort may order equal timestamps in any way, the model keeps them in order; sending the message to all clients is not modelled.
- Encryption and the length limits of the text protocol's packages; the database is a list of rows, without SQL.
- `RtspConnection.RtspConnection.HandleRtspRequest`: the reply is a value.
- `RtspConnection.RtspConnection.HandleCmdDescribe`: adding the client to the media session is the mark `Described`; in `ClientIsolation` it is the event `Join`.
- `RtspConnection.RtspConnection.SendAnnounce`: likewise, adding the client to the media session is not in its state.
- `JunkCleaner`, file re-recording, RTCP, AAC and G.711 sources, Qt windows and OpenCV capture.
