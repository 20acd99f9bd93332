# MetaShare: the raw-RTP path, modelled and proved

MetaShare streams a desktop to a headset: the streamer splits each encoded access unit into RTP packets
and sends them over UDP under several threads and two locks; the client puts them back in order,
reassembles access units, asks again for what is missing, and feeds a decoder that must never be given a
frame whose reference it has not seen. This project models that path in Dafny and proves what it is
built to guarantee, together with the bounded buffers and the text protocol beside it.

| module | models |
|---|---|
| `Bytes` | bytes, big-endian fields, flattening |
| `AnnexB` | splitting a byte stream into NAL units |
| `Rtp` | the RTP header, written and parsed |
| `Packetizer` | the H.265 and H.264 packetizers |
| `Depacketizer` | reassembly of access units from packets that may be lost, repeated or malformed |
| `RoundTrip` | packetizing and reassembling one access unit |
| `Receiver` | the receive loop: sequence numbers, jitter buffer, gaps |
| `ReceiverRuns` | what the loop neither holds back nor leaves unasked for |
| `Channel` | the network, and what mere reordering does |
| `EndToEnd`, `Delivery` | from access units to decoder frames, safety and delivery |
| `Nack` | packing and reading of generic NACKs |
| `Retransmit` | the cache that NACKs are served from |
| `Server` | the streamer's RTP server, one step for each region under a lock |
| `ServerRuns`, `ServerRepairs`, `ServerSafety` | all runs of the server, under any interleaving: what is never sent |
| `ServerDelivery` | what is sent in the end, with nothing in the way |
| `ServerLife` | clients coming and going, stopping, deadlines, the audio cache |
| `Session` | the server's runs, the network and the client together |
| `SmoothSession` | the same with nothing in the way: what is broadcast is shown |
| `Pacer` | the shared token bucket |
| `DecoderGate` | the queue in front of the decoder: what the decoder never gets |
| `DecoderDelivery` | what it does get, and when a recovery is asked for |
| `PcmRing` | the audio capture ring |
| `TripleBuffer` | handing over captured frames by rotation, against copying |
| `Signaling` | messages, lines, and the chunked line reader |

Objects that change in place are classes whose methods are proved against functions on values; runs are
sequences of events folded over those functions, so every theorem about runs is for all inputs, all
interleavings, all clocks and all socket results. A step that its thread cannot take is left out of a
run, so no theorem about runs assumes that the events were feasible.

Safety results come with their other half: beside each theorem on what is never sent, shown, asked for or
submitted stands one on what is, with nothing in the way, and that part is stated without the functions
that the methods are proved against.

Where the code does less than its comments say, the code is followed:

- A receiver that joins in the middle of an access unit may hand over the rest of that unit as its first
  frame: exactly if the first packet to arrive begins a later NAL unit (`RoundTrip.PartialFrameExactly`).
  `RoundTrip.JoiningShowsASuffix` is such a frame, `EndToEnd.JoinedInsideIsASuffix` says the same of the
  whole receive loop on any network, and `Delivery.JoinedIsDelivered` when that frame does come out.
- The decoder's gate keeps frames and their references together except when a recovery ends, by
  succeeding or by being called off, while the chain is open over frames that have been turned away:
  between the clearing of the queue and the end of the recovery, a keyframe already past the first test
  of `feed` can open the chain. `DecoderGate.EndingIsSafeUnlessExposed` is the exact condition at each
  such step, `DecoderGate.RecoveriesCanEndExposed` reaches it both ways, and
  `DecoderGate.SuccessfulRecoveryBreaksTheChain` is a run in which nothing is called off.
- Handing captured frames over by rotation shows the same picture as copying only if the rows that
  PipeWire delivers are as long as the picture; `TripleBuffer.RotatingRefinesCopying` is the equivalence.

## Model

| member | source | states |
|---|---|---|
| AnnexB.FindStart | src/streamer/rtp_packetizer.cpp:35-44 | the first byte after the next start code of either length, or the end of the data |
| AnnexB.FindEnd | src/streamer/rtp_packetizer.cpp:50-63 | a unit ends where the next start code begins, less the zero bytes before it |
| AnnexB.ForEachNal | src/streamer/rtp_packetizer.cpp:31-67 | the loop yields the units of the specification, in order, on any bytes; it ends because the start moves on |
| AnnexB.UnitsAreSlices | src/streamer/rtp_packetizer.cpp:46-66 | on arbitrary bytes the units are slices of the input: in range, in order, disjoint |
| AnnexB.NalsWellFormed | src/streamer/rtp_packetizer.cpp:60-64 | every unit yielded has two bytes or more, does not end in zero, and contains no start code |
| AnnexB.SplitInvertsJoin | src/streamer/rtp_packetizer.cpp:27-67 | units joined by 3- or 4-byte start codes and any zero padding are split back into exactly themselves |
| AnnexB.ReframingKeepsUnits | client/quest/app/src/main/java/com/metashare/client/RtpReceiver.java:574-579 | the decoder's form of any stream, 4-byte start codes throughout, splits into the same units |
| Rtp.ParseInvertsHeader | src/streamer/rtp_packetizer.cpp:7-23 | the client reads back every header field the streamer wrote, and exactly its payload |
| Packetizer.VideoPacketizer.NextSeq | src/streamer/rtp_packetizer.hpp:71-73 | a 16-bit counter that wraps |
| Packetizer.VideoPacketizer.PacketizeSingle | src/streamer/rtp_packetizer.cpp:98-105 | a unit that fits is one packet carrying the whole unit, marked if it is the last unit |
| Packetizer.VideoPacketizer.PacketizeFragments | src/streamer/rtp_packetizer.cpp:107-136 | the fragment loop hands over exactly the fragments of the unit, with consecutive numbers and the marker on the last of the access unit |
| Packetizer.VideoPacketizer.PacketizeUnits | src/streamer/rtp_packetizer.cpp:94-137 | the loop over units hands over the payloads of all of them, in order |
| Packetizer.VideoPacketizer.Packetize | src/streamer/rtp_packetizer.cpp:71-138 | appends the packets of one access unit and advances the counter by their number; nothing for an empty one |
| Packetizer.FragmentsAreSeveral | src/streamer/rtp_packetizer.cpp:107-136 | fragmentation always yields two fragments or more, each within the limit, none both first and last |
| Packetizer.FragmentsAreFull | src/streamer/rtp_packetizer.cpp:91-136 | every fragment but the last has the 1388 bytes that a packet can carry |
| Packetizer.PayloadsFit | src/streamer/rtp_packetizer.hpp:34-36 | no payload is empty or exceeds what a 1400-byte packet can carry |
| Packetizer.StampedAt | src/streamer/rtp_packetizer.cpp:94-137 | the i-th packet has the i-th number after the first, the common timestamp, and the marker only if last |
| Packetizer.UnitPacketsReadBack | src/streamer/rtp_packetizer.cpp:140-197 | every packet of an access unit, either codec, reads back with its own payload, number, timestamp and marker, and has at most 1400 bytes |
| Depacketizer.VideoDepacketizer.OnGap | client/quest/app/src/main/java/com/metashare/client/RtpReceiver.java:472-475 | a gap invalidates the partial frame and marks the next access unit too |
| Depacketizer.VideoDepacketizer.NeedsKeyframe | client/quest/app/src/main/java/com/metashare/client/RtpReceiver.java:477-477 | whether an IDR is awaited |
| Depacketizer.VideoDepacketizer.AddNal | client/quest/app/src/main/java/com/metashare/client/RtpReceiver.java:574-579 | start code and unit are appended, and an IDR unit makes the frame a keyframe |
| Depacketizer.VideoDepacketizer.TakeFragment | client/quest/app/src/main/java/com/metashare/client/RtpReceiver.java:509-533 | a fragment opens, extends or closes a unit, or invalidates the frame |
| Depacketizer.VideoDepacketizer.TakeAggregate | client/quest/app/src/main/java/com/metashare/client/RtpReceiver.java:536-548 | the units of an aggregation packet are appended until one is malformed or too big |
| Depacketizer.VideoDepacketizer.TakePayload | client/quest/app/src/main/java/com/metashare/client/RtpReceiver.java:500-555 | a payload is dispatched on its type; anything else invalidates the frame |
| Depacketizer.VideoDepacketizer.Feed | client/quest/app/src/main/java/com/metashare/client/RtpReceiver.java:486-568 | one packet fed: the new state, and the frame emitted if any |
| Depacketizer.StepKeeps | client/quest/app/src/main/java/com/metashare/client/RtpReceiver.java:486-568 | on any bytes, the partial frame stays within 4 MiB and made of whole units and at most one open fragment; while an IDR is awaited only a keyframe is emitted |
| Depacketizer.RunSound | client/quest/app/src/main/java/com/metashare/client/RtpReceiver.java:456-580 | every frame of every run is start code and unit over and over, each unit at least a header long, flagged keyframe exactly if it holds an IDR unit |
| Depacketizer.BreakNeedsIdr | client/quest/app/src/main/java/com/metashare/client/RtpReceiver.java:479-491 | after any gap, timestamp change without a marker, unusable packet or open fragment at the marker, the next frame emitted, by that packet or later, contains an IDR unit |
| RoundTrip.UnitRoundTrip | client/quest/app/src/main/java/com/metashare/client/RtpReceiver.java:486-580 | the packets of one access unit, fed at a boundary, give exactly one frame that is the unit with 4-byte start codes, keyframe exactly if it has an IDR, or nothing and an IDR is awaited; it is never lost if it fits and may be shown |
| RoundTrip.PartialUnit | client/quest/app/src/main/java/com/metashare/client/RtpReceiver.java:486-568 | met from packet j on, an access unit fares as one of the NAL units from the one that begins there, and if none begins there nothing comes out and an IDR is awaited |
| RoundTrip.PartialFrameExactly | client/quest/app/src/main/java/com/metashare/client/RtpReceiver.java:486-568 | from packet j on, a frame comes out only if a NAL unit begins there; it is then the unit from that one on, and it does come out if that fits and may be shown |
| RoundTrip.JoiningShowsASuffix | client/quest/app/src/main/java/com/metashare/client/RtpReceiver.java:550-568 | a parameter set and an IDR slice, met at the second packet: the slice alone is handed over as a keyframe, which is not the access unit |
| RoundTrip.AggregatesCountAsTheirUnits | client/quest/app/src/main/java/com/metashare/client/RtpReceiver.java:536-548 | an aggregation packet counts as the units packed in it: each joins the frame behind a start code, in order, and an IDR among them makes it a keyframe |
| Receiver.RtpReceiver.FirstKey | client/quest/app/src/main/java/com/metashare/client/RtpReceiver.java:169-170 | the lowest number held |
| Receiver.RtpReceiver.Deliver | client/quest/app/src/main/java/com/metashare/client/RtpReceiver.java:288-294 | the packet goes to the depacketizer and the next number expected is the one after it |
| Receiver.RtpReceiver.Pop | client/quest/app/src/main/java/com/metashare/client/RtpReceiver.java:176-194 | an entry leaves the buffer and is handed over, after the gap before it has been announced |
| Receiver.RtpReceiver.DrainJitter | client/quest/app/src/main/java/com/metashare/client/RtpReceiver.java:168-195 | everything due leaves, lowest first, under any clock |
| Receiver.RtpReceiver.OnDatagram | client/quest/app/src/main/java/com/metashare/client/RtpReceiver.java:210-300 | a datagram is numbered and dropped, handed over or held; the range to NACK is returned when one is revealed |
| Receiver.DrainKeeps | client/quest/app/src/main/java/com/metashare/client/RtpReceiver.java:168-195 | a drain keeps the loop invariant and leaves at most 512 packets, all beyond the next one expected |
| Receiver.PlaceKeeps | client/quest/app/src/main/java/com/metashare/client/RtpReceiver.java:246-299 | an arrival keeps it: at most 513 packets held, none behind the next one expected |
| Receiver.LoopKeeps | client/quest/app/src/main/java/com/metashare/client/RtpReceiver.java:154-308 | on every run of any datagrams under any clock, the numbers handed over strictly increase and a gap is announced exactly where one is skipped |
| Receiver.UnwrapRecovers | client/quest/app/src/main/java/com/metashare/client/RtpReceiver.java:250-256 | an arrival within the 16-bit window of the highest seen gets its true number, across any wraps |
| Receiver.UnwrapWindowIsExact | client/quest/app/src/main/java/com/metashare/client/RtpReceiver.java:250-256 | and outside that window it never does |
| ReceiverRuns.DrainSettles | client/quest/app/src/main/java/com/metashare/client/RtpReceiver.java:168-195 | at the last reading of a drain the buffer is empty, or its lowest packet is not the next expected, is younger than 30 ms, and at most 512 are held |
| ReceiverRuns.DrainIsIdleExactly | client/quest/app/src/main/java/com/metashare/client/RtpReceiver.java:168-195 | a drain lets nothing go if and only if that holds at its first reading |
| ReceiverRuns.ExpiredIsHanded | client/quest/app/src/main/java/com/metashare/client/RtpReceiver.java:168-195 | a packet that is 30 ms old, with all held before it, is handed over in the drain |
| ReceiverRuns.NothingWaitsForGood | client/quest/app/src/main/java/com/metashare/client/RtpReceiver.java:154-308 | on every run such a packet is handed over in the next iteration, however much was lost before it |
| ReceiverRuns.SkippedAreAskedForOnce | client/quest/app/src/main/java/com/metashare/client/RtpReceiver.java:258-287 | on every run, a number is in exactly one range NACKed if the arrival of a new highest skipped it, among 256 or fewer, and in none otherwise; between the first and the highest, the numbers not skipped are those that were the highest when they arrived |
| ReceiverRuns.StreamerIsAskedForTheSkipped | client/quest/app/src/main/java/com/metashare/client/RtpReceiver.java:258-365 | over a run, the streamer reads out of the feedback packets exactly the numbers so skipped, modulo 2^16 |
| Channel.ArrivalIsPlaced | client/quest/app/src/main/java/com/metashare/client/RtpReceiver.java:247-300 | a packet of the stream that arrives in the window is filed under its own place |
| Channel.ReorderingIsTransparent | client/quest/app/src/main/java/com/metashare/client/RtpReceiver.java:166-195 | while nothing expires or overflows: what was handed over is exactly first up to the least number that has not arrived, no gap was announced, later arrivals are held, and the depacketizer is where an in-order network puts it |
| EndToEnd.SentAt | src/streamer/rtp_packetizer.cpp:71-197 | every place of the stream is the right packet of the right access unit, as the client reads it |
| EndToEnd.TimeReadsBack | src/streamer/rtp_packetizer.hpp:74-77 | until the 32-bit clock wraps, the client reads a unit's time back within 12 microseconds, never late |
| EndToEnd.SecondIsTicks | src/streamer/rtp_packetizer.hpp:74-77 | a second later is 90000 ticks more modulo 2^32, as long as the product fits 64 bits |
| EndToEnd.FramesAreSentUnits | client/quest/app/src/main/java/com/metashare/client/RtpReceiver.java:154-308 | for any subset, order and repetition of the sent packets in the window: frames are sent units, in order, none twice, none without its last packet, each with its time of capture; each but the first is an IDR or directly follows the one before; and each is byte for byte the unit if and only if it is not the first one with reception begun inside it, which then is the unit from the NAL unit on that began there |
| EndToEnd.JoinedInsideIsASuffix | client/quest/app/src/main/java/com/metashare/client/RtpReceiver.java:154-308 | joined at a later packet of unit v, on any in-window network: a frame of v comes out first or not at all, only if a NAL unit begins with that packet, and is v from that one on; all others are exactly later units |
| EndToEnd.CleanStartIsExact | client/quest/app/src/main/java/com/metashare/client/RtpReceiver.java:288-294 | joined at the start of an access unit, every frame is exactly a sent one |
| Delivery.ArrivedIsDelivered | client/quest/app/src/main/java/com/metashare/client/RtpReceiver.java:166-195 | nothing expired, everything up to packet j of unit w arrived: exactly the units before w have been shown, all of them |
| Delivery.JoinedIsDelivered | client/quest/app/src/main/java/com/metashare/client/RtpReceiver.java:166-195 | nothing expired, reception begun with a later NAL unit of v: what is left of v from it on has been shown first, and then exactly the units after it, all of them |
| Delivery.PerfectChannelDeliversAll | client/quest/app/src/main/java/com/metashare/client/RtpReceiver.java:288-294 | a channel that loses, repeats and reorders nothing is the identity: from the access unit at whose start reception begins, every one is shown, exactly as sent, in order |
| Delivery.PerfectChannelShowsTheRest | client/quest/app/src/main/java/com/metashare/client/RtpReceiver.java:288-294 | the same channel joined at any later NAL unit of any access unit shows the rest of that unit, and every unit after it |
| Nack.PackBitmap | client/quest/app/src/main/java/com/metashare/client/RtpReceiver.java:337-344 | the bitmap names as many of the next 16 numbers as are missing |
| Nack.SendNacksForRange | client/quest/app/src/main/java/com/metashare/client/RtpReceiver.java:327-365 | the feedback packets for a range |
| Nack.ReadBitmap | src/streamer/rtp_server.cpp:533-536 | the numbers a bitmap names, wrapping at 16 bits |
| Nack.ReadEntries | src/streamer/rtp_server.cpp:510-537 | the numbers a feedback packet asks for |
| Nack.NacksAreExact | src/streamer/rtp_server.cpp:466-538 | the streamer is asked for exactly the missing range modulo 2^16, in order, in ceil(n/17) packets |
| Nack.WrappedDistinct | client/quest/app/src/main/java/com/metashare/client/RtpReceiver.java:327-365 | up to 65536 numbers, each is asked for once |
| Nack.PliAsksForAKeyframe | src/streamer/rtp_server.cpp:476-496 | the client's picture loss indication is read as a request for a keyframe, and its NACKs never are |
| Retransmit.RetransmitBuffer.Record | src/streamer/rtp_packetizer.cpp:210-219 | insert or replace, then evict the oldest insertions beyond the capacity |
| Retransmit.RetransmitBuffer.Get | src/streamer/rtp_packetizer.cpp:221-230 | the packet kept under a number, if any |
| Retransmit.RetransmitBuffer.Clear | src/streamer/rtp_packetizer.cpp:232-236 | nothing is kept |
| Retransmit.RecordKeepsTidy | src/streamer/rtp_packetizer.hpp:144-148 | for any records at all, the order list has no duplicates, lists exactly the map's keys and respects the capacity |
| Retransmit.CacheRefinesLog | src/streamer/rtp_packetizer.cpp:210-230 | after consecutively numbered records, any number of wraps, a lookup gives the newest record under the number if it is among the last `capacity`, and nothing otherwise |
| Server.RtpServer.constructor | src/streamer/rtp_server.hpp:151-169 | nothing queued, generation 0, a keyframe awaited, no peer |
| Server.RtpServer.Detach | src/streamer/rtp_server.cpp:146-171 | the first region of connecting and disconnecting: streaming stops, the reset is still to come |
| Server.RtpServer.ResetVideoQueue | src/streamer/rtp_server.cpp:231-240 | both queues and both caches are emptied and a generation begins |
| Server.RtpServer.Announce | src/streamer/rtp_server.cpp:193-210 | READY starts streaming, only for a connected peer |
| Server.RtpServer.BeginCapture | src/streamer/rtp_server.cpp:244-244 | the deadline is read before the locks are taken |
| Server.RtpServer.Abandon | src/streamer/rtp_server.cpp:317-323 | queue, repairs and video cache are emptied, the generation advances, a keyframe is awaited |
| Server.RtpServer.BroadcastVideo | src/streamer/rtp_server.cpp:242-278 | the region under both locks: turned away, packetized, abandoned, dropped or queued; a keyframe is requested exactly if the unit was packetized and not queued |
| Server.RtpServer.Enqueue | src/streamer/rtp_server.cpp:254-274 | an expired front or a full queue abandons everything; then the unit is queued, or dropped until a keyframe |
| Server.RtpServer.BroadcastAudio | src/streamer/rtp_server.cpp:372-381 | an audio packet that the socket took is recorded |
| Server.RtpServer.AlreadyQueued | src/streamer/rtp_server.cpp:517-520 | whether a repair of this stream and number waits already |
| Server.RtpServer.Request | src/streamer/rtp_server.cpp:513-532 | one number of a NACK queues at most one repair, with its deadline |
| Server.RtpServer.Stop | src/streamer/rtp_server.cpp:121-124 | the threads are told to end |
| Server.RtpServer.Wake | src/streamer/rtp_server.cpp:284-290 | the sender wakes for frames or for repairs, and serves repairs first |
| Server.RtpServer.TakeRepair | src/streamer/rtp_server.cpp:343-352 | the head of the repair queue is taken in hand, four times at most |
| Server.RtpServer.TryRepair | src/streamer/rtp_server.cpp:353-366 | the repair in hand is sent only if streaming, of the current generation and before its deadline |
| Server.RtpServer.TakeFrame | src/streamer/rtp_server.cpp:291-295 | the front frame leaves the queue and the packet count |
| Server.RtpServer.Advance | src/streamer/rtp_server.cpp:297-299 | the packet loop goes on or ends |
| Server.RtpServer.TryFresh | src/streamer/rtp_server.cpp:304-338 | a packet of the frame is sent and recorded, or the frame is let go, or everything is abandoned; a keyframe is requested exactly when the generation advances |
| ServerSafety.GenerationsAreSafe | src/streamer/rtp_server.cpp:231-341 | under every interleaving, also between the two regions of a disconnect: the frame packets sent under one generation are a prefix of the packets of consecutive non-empty access units, the first one a keyframe; and all packets ever made are numbered consecutively |
| ServerSafety.QueueIsAccounted | src/streamer/rtp_server.cpp:242-316 | the packet count equals the packets queued and is at most 4096, all frames queued are of the current generation, the front alone decides whether anything has expired, and no frame packet was sent at or after its deadline |
| ServerSafety.RepairsAreSafe | src/streamer/rtp_server.cpp:343-367 | every video repair sent repeats a packet recorded earlier in the same generation less than 100 ms before; at most 64 wait, all current, no two for one packet; at most four tries lie between two packets of a frame |
| ServerSafety.SenderIsNeverStuck | src/streamer/rtp_server.cpp:280-341 | unless it sleeps with nothing to do or has been told to end, the sender has a step to take that changes the state, whatever pacer, clock and socket answer |
| ServerSafety.CacheIsTheLastPackets | src/streamer/rtp_server.cpp:327-327 | on every run, the video cache answers with the newest packet sent under a number in this generation if among the last 1024, and with nothing otherwise |
| ServerSafety.NacksAreAnsweredExactly | src/streamer/rtp_server.cpp:513-532 | a NACKed number queues a repair, the packet sent under it, if and only if the stated five conditions hold |
| ServerSafety.WireIsTheStream | src/streamer/rtp_server.cpp:308-334 | every video packet that reaches the wire, first or again, in any generation, is the packet at some place of the one stream the packetizer numbered, in a unit queued under that generation |
| ServerDelivery.NothingIsAbandoned | src/streamer/rtp_server.cpp:242-341 | from any reachable state, over any steps with the pacer granting, the socket taking, no deadline passed, room in the queue and no client coming or going: the generation stays, and sent, in flight and queued gain exactly the packets of the units packetized |
| ServerDelivery.EveryCallIsChosen | src/streamer/rtp_server.cpp:242-278 | over such steps the units packetized are exactly those of the calls with something in them, from the first keyframe on, and all if none was awaited |
| ServerDelivery.AsleepMeansAllSent | src/streamer/rtp_server.cpp:280-341 | and whenever the sender is asleep with nothing queued, all of them have been sent under the generation, in order |
| ServerDelivery.EverythingQueuedIsSent | src/streamer/rtp_server.cpp:280-367 | left to itself, the sender gets there: it comes to rest having sent every packet in flight and queued, and every repair in hand and waiting, in order |
| ServerDelivery.NoRepairIsLost | src/streamer/rtp_server.cpp:343-367 | over such steps the repairs sent, in hand and waiting stay, in order, whatever is added behind them |
| ServerLife.StreamingNeedsAPeer | src/streamer/rtp_server.cpp:146-210 | on every run, streaming means that a client is connected and the queues have been reset |
| ServerLife.ReadyStartsStreaming | src/streamer/rtp_server.cpp:146-240 | a client that connects and says READY is streamed to, from empty queues and a new generation, a keyframe awaited |
| ServerLife.SilentWhileDetached | src/streamer/rtp_server.cpp:146-171 | from a disconnect to the next READY nothing reaches the socket, whatever the threads were in the middle of |
| ServerLife.StoppedSenderEnds | src/streamer/rtp_server.cpp:121-124 | once told to stop, the sender tries at most two packets more, however long it goes on |
| ServerLife.UnitsHaveTheirTime | src/streamer/rtp_server.cpp:244-274 | a unit whose call read the clock at t is queued, if at all, with the deadline t + 100 ms, whatever runs in between |
| ServerLife.AudioCacheIsWhatWasVoiced | src/streamer/rtp_server.cpp:372-381 | on every run, the audio cache is what recording the audio packets sent since the last reset leaves, of 512 |
| ServerRuns.BooksKept | src/streamer/rtp_server.cpp:242-341 | every step keeps the count, the generation of what is queued and the order of deadlines |
| ServerRuns.FlowKept | src/streamer/rtp_server.cpp:146-341 | every step keeps: while frames can still be sent, sent, in flight and queued make up the packets of this generation's units |
| ServerRepairs.RepairsKept | src/streamer/rtp_server.cpp:343-367 | every step keeps: what waits to be repaired, or is in hand, was recorded in this generation recently enough |
| ServerRepairs.TurnsKept | src/streamer/rtp_server.cpp:297-299 | every step keeps: at most four tries since the last packet of the frame in flight |
| Session.ArrivalsHavePlaces | src/streamer/rtp_server.cpp:280-367 | whatever the client receives from the wire has a place in the stream, in a unit of the generation that sent it |
| Session.DecoderSeesBroadcastUnits | src/streamer/rtp_server.cpp:242-367 | for every run of the server and every in-window arrival of what it put on the wire: frames are access units that broadcast_video was called with, in the order of the calls, none twice, with their times, exact but for a first one begun inside; each but the first is an IDR or directly follows the one before in the stream, and, if calls flagged keyframe bring an IDR, no call between the two brought a unit |
| SmoothSession.RestedSessionDelivers | src/streamer/rtp_server.cpp:242-341 | once the sender has come to rest, a keyframe having been queued since the last abandonment, a client that receives what was sent under the generation in order shows exactly the units packetized since, each whole and in order |
| SmoothSession.WhatIsQueuedIsShown | src/streamer/rtp_server.cpp:280-367 | and from any reachable state with a client streaming and no deadline passed, the sender's own steps lead there |
| Pacer.Pacer.SetStreamRate | src/streamer/pacer.hpp:32-44 | the rate is the sum of all streams and a quarter, the burst follows, the tokens never exceed it |
| Pacer.AddedUp | src/streamer/pacer.hpp:35-36 | the loop over the streams yields their sum |
| Pacer.SumFrom | src/streamer/pacer.hpp:35-36 | the sum does not depend on the order of the streams |
| Pacer.Pacer.Look | src/streamer/pacer.hpp:53-67 | one turn under the lock: granted, expired, or short by what it then sleeps for |
| Pacer.Pacer.ConsumeAlone | src/streamer/pacer.hpp:48-75 | a lone consumer without a deadline is granted any packet up to 32768 bytes after a bounded number of turns, and takes no more than was there and flowed in |
| Pacer.GrantedInTheEnd | src/streamer/pacer.hpp:54-75 | a packet is granted at some time if and only if it is no longer than the burst |
| Pacer.TokensStayWithinBurst | src/streamer/pacer.hpp:42-82 | from construction on, on every run, at any rates, the tokens lie between 0 and the burst |
| Pacer.GrantsAreBounded | src/streamer/pacer.hpp:32-75 | in any window with the rate positive and at most r, any consumers and rate updates are granted at most one burst at rate r and r times the length of the window |
| Pacer.PacingIsFeltExactly | src/streamer/pacer.hpp:32-67 | a pacer set to k kbit/s never makes a stream wait if and only if the stream sends in no window more than 32768 bytes, or 10 ms' worth, and 156.25 k bytes a second |
| Pacer.RefusedExactlyWhenLate | src/streamer/pacer.hpp:53-59 | while pacing is on, a look is refused exactly at or past its deadline, and then takes nothing |
| DecoderGate.VideoDecoder.ClearPendingInputs | client/quest/app/src/main/java/com/metashare/client/VideoDecoder.java:357-361 | the queue is emptied and the chain closed |
| DecoderGate.VideoDecoder.DropPendingInputs | client/quest/app/src/main/java/com/metashare/client/VideoDecoder.java:363-379 | what is queued is dropped; a second keyframe lost in a row asks for a recovery |
| DecoderGate.VideoDecoder.BeginFeed | client/quest/app/src/main/java/com/metashare/client/VideoDecoder.java:337-338 | a frame is turned away while a recovery is pending |
| DecoderGate.VideoDecoder.Feed | client/quest/app/src/main/java/com/metashare/client/VideoDecoder.java:339-353 | the synchronized region of feed |
| DecoderGate.VideoDecoder.Drain | client/quest/app/src/main/java/com/metashare/client/VideoDecoder.java:385-403 | the synchronized region of the drain loop |
| DecoderGate.VideoDecoder.Hand | client/quest/app/src/main/java/com/metashare/client/VideoDecoder.java:404-422 | the frame in hand is submitted, or lost with everything behind it, its buffer returned empty if the frame is too big for it |
| DecoderGate.VideoDecoder.OnError | client/quest/app/src/main/java/com/metashare/client/VideoDecoder.java:281-281 | the queue is emptied and the chain closed, before the recovery is asked for |
| DecoderGate.VideoDecoder.Arm | client/quest/app/src/main/java/com/metashare/client/VideoDecoder.java:287-289 | a recovery is pending from now on |
| DecoderGate.VideoDecoder.BeginRecover | client/quest/app/src/main/java/com/metashare/client/VideoDecoder.java:209-209 | the queue is emptied and the chain closed once more |
| DecoderGate.VideoDecoder.RebuildCodec | client/quest/app/src/main/java/com/metashare/client/VideoDecoder.java:210-222 | the streak is forgotten and the codec is reset, unless that throws |
| DecoderGate.VideoDecoder.EndRecover | client/quest/app/src/main/java/com/metashare/client/VideoDecoder.java:204-224 | no recovery is pending any more, whether the codec was rebuilt or the surface given up on |
| DecoderGate.QueueStaysBounded | client/quest/app/src/main/java/com/metashare/client/VideoDecoder.java:39-46 | the byte count equals the sizes queued and is at most 4 MiB, in at most 4 frames |
| DecoderGate.SubmissionsAreChained | client/quest/app/src/main/java/com/metashare/client/VideoDecoder.java:184-424 | under every interleaving of the regions of feed, drain, onError, setSurface and recover, each frame submitted is a keyframe or was preceded immediately by its predecessor in feed order, as long as no recovery ends over a gap |
| DecoderGate.EndingIsSafeUnlessExposed | client/quest/app/src/main/java/com/metashare/client/VideoDecoder.java:195-225 | ending a recovery, by success or by giving up, leaves every continuation chained if and only if the chain is not then open over a frame turned away, or the front of the queue has expired |
| DecoderGate.RecoveriesCanEndExposed | client/quest/app/src/main/java/com/metashare/client/VideoDecoder.java:184-226 | both ways of ending a recovery are reached over a gap by runs whose clock never goes back |
| DecoderGate.SuccessfulRecoveryBreaksTheChain | client/quest/app/src/main/java/com/metashare/client/VideoDecoder.java:208-225 | after a recovery that succeeds, the codec takes frame 0 and then frame 2, no keyframe, frame 1 having been turned away |
| DecoderDelivery.EveryFrameGoesThrough | client/quest/app/src/main/java/com/metashare/client/VideoDecoder.java:336-424 | after any run with no recovery pending, while at most three frames that fit are queued when one is fed, none waits for 40 ms, and the codec takes what it is handed: what is submitted, in hand and queued gains exactly the frames fed, in order, from the first keyframe on |
| DecoderDelivery.EnterDropsExactly | client/quest/app/src/main/java/com/metashare/client/VideoDecoder.java:339-353 | a frame fed joins those queued exactly if at most three of them and few enough bytes wait, none for 40 ms; otherwise all are dropped, and it stays only if it is a keyframe |
| DecoderDelivery.DrainTakesExactly | client/quest/app/src/main/java/com/metashare/client/VideoDecoder.java:385-403 | the front of the queue is taken in hand exactly if the codec has a buffer and it has waited less than 40 ms; the queue is dropped exactly if it has waited longer |
| DecoderDelivery.RecoveryIsAskedForExactly | client/quest/app/src/main/java/com/metashare/client/VideoDecoder.java:363-379 | on every run, the gate asks for a recovery exactly if it loses a keyframe and another has been lost since anything was submitted or the codec rebuilt |
| PcmRing.AudioSource.OnProcess | src/streamer/pipewire_audio_source.cpp:180-216 | an empty chunk changes nothing; otherwise the contents become the last 50 ms of the old contents and the new whole frames, and the timestamp that of the oldest sample |
| PcmRing.AudioSource.Write | src/streamer/pipewire_audio_source.cpp:196-211 | wrapped copies into the ring keep the newest samples that fit |
| PcmRing.AudioSource.Discard | src/streamer/pipewire_audio_source.cpp:201-205 | the oldest samples make room |
| PcmRing.AudioSource.Append | src/streamer/pipewire_audio_source.cpp:206-212 | two copies append at the back, around the end of the buffer |
| PcmRing.AudioSource.NextChunk | src/streamer/pipewire_audio_source.cpp:222-250 | 10 ms from the front with its timestamp, or the codes for too little and for stopped |
| PcmRing.AudioSource.Loan | src/streamer/pipewire_audio_source.cpp:236-242 | two copies take the oldest samples, around the end of the buffer |
| PcmRing.SizesFit | src/streamer/pipewire_audio_source.cpp:50-55 | for every accepted format a chunk is a positive number of frames and fits the ring |
| PcmRing.ChunksAreTheStream | src/streamer/pipewire_audio_source.cpp:185-250 | on every run: what is buffered is the end of the captured stream, every chunk is a slice of it cut at a frame boundary, in order without overlap, and captured is delivered plus discarded plus buffered |
| PcmRing.ChunksAreOnTime | src/streamer/pipewire_audio_source.cpp:191-250 | on every run, a chunk's time is that of its first sample, counted back from the last capture, within a microsecond for each pull since |
| PcmRing.PullsDeliverExactly | src/streamer/pipewire_audio_source.cpp:222-250 | a pull delivers exactly if 10 ms are buffered, and says exactly when it is the end |
| PcmRing.DiscardsAreNeeded | src/streamer/pipewire_audio_source.cpp:196-212 | a capture discards exactly what exceeds 50 ms |
| TripleBuffer.FrameSource.OnProcess | src/streamer/portal_pipewire_source.cpp:507-533 | a capture overwrites and publishes the back frame; the frame on loan is neither written nor exchanged |
| TripleBuffer.FrameSource.RotateFrame | src/streamer/portal_pipewire_source.cpp:669-713 | the portal's pull loans the frame last captured, without writing a pixel; the three frames stay distinct |
| TripleBuffer.FrameSource.CopyFrame | src/streamer/mutter_virtual_source.cpp:273-314 | the compositor source's pull copies the frame last captured, at a fixed format |
| TripleBuffer.RotatingRefinesCopying | src/streamer/portal_pipewire_source.cpp:669-691 | over every run, rotation and copying return the same codes, pictures and times if and only if the captured rows cover the picture |
| TripleBuffer.PullsShowTheLastCapture | src/streamer/portal_pipewire_source.cpp:669-691 | on every run of either source, with rows that cover the picture, a pull shows the last capture with its time, unless that has been shown or the source stopped |
| Signaling.ParsedBack | src/common/signaling.cpp:9-61 | what comes back is the message with at most one carriage return taken off its body |
| Signaling.ParseReadsExactly | src/common/signaling.cpp:27-61 | a line is taken for a message if and only if it is that message written out, a carriage return at its end aside; anything else is no message |
| Signaling.ParseInvertsSerialize | src/common/signaling.cpp:9-61 | a message survives being written and parsed if and only if it is canonical |
| Signaling.LineReader.Refill | src/streamer/signaling_server.cpp:30-36 | recv is called only once everything held has been read, and loses nothing |
| Signaling.LineReader.FindNewline | src/streamer/signaling_server.cpp:37-42 | the piece of the line that the buffer holds |
| Signaling.LineReader.ReadPiece | src/streamer/signaling_server.cpp:29-50 | one turn of the loop appends a piece, ends the line, or refuses it |
| Signaling.LineReader.ReadLine | src/streamer/signaling_server.cpp:27-51 | whatever the pieces: the next line of the stream, or a refusal exactly if it exceeds 65536 bytes or has no end |
| Signaling.ClientLoop | src/streamer/signaling_server.cpp:164-176 | the messages of a connection depend on its bytes alone, not on how they were cut up |
| Signaling.MessagesComeThrough | src/streamer/signaling_server.cpp:141-147 | messages that can be carried arrive, in order, up to and including the first BYE |
| Signaling.CarriedExactly | src/common/signaling.cpp:9-61 | a message sent on its own arrives as itself if and only if it is canonical, has no newline in its body and fits the line limit |

## Left out

- Server.RtpServer.BroadcastAudio: takes a finished Opus packet and the socket's answer, because the Opus packetizer is one header and a copy; what is proved of repairs is about video.
- Server.RtpServer.Request: is one number of a NACK; the test of the sender's address before the loop, in a region of its own, only turns requests away.
- Server.RtpServer.TryRepair: takes what the pacer granted and what the socket took as given, so the results hold for every pacer and every socket; the same is true of TryFresh.
- Receiver.RtpReceiver.OnDatagram: copies the payload; the in-order path of the program lends the receive buffer to the depacketizer, which copies it before returning.
- Receiver.RtpReceiver.DrainJitter: one iteration of loop() is DrainJitter and then OnDatagram, its locals being the fields of the object; the throttled requests for a keyframe are not part of this model.
- Nack.SendNacksForRange: returns the packets; a socket error, after which the program stops sending the rest, is not part of this model.
- Pacer.Pacer.ConsumeAlone: is consume for one consumer without a deadline; with several, each turn is a Look, and GrantsAreBounded covers every interleaving of those.
- PcmRing.AudioSource.NextChunk: begins after the wait of at most 200 ms, whose result is the state it finds.
- TripleBuffer.FrameSource.RotateFrame: next_frame returns the same after its wait; failing allocations, renegotiation of the format and pixel conversion are not part of this model.
- TripleBuffer.FrameSource.OnProcess: both sources capture alike and differ in the pull alone, so one class has both pulls.
- DecoderGate.VideoDecoder.RebuildCodec: reset, configure and start are one step with two outcomes; between it and the end of the recovery, and between it and the clearing before it, feed may take its own steps.
- DecoderGate.VideoDecoder.Drain: is also open while a recovery is pending, which the loop's test allows only when a drop in feed asks for one in between; the results hold for the larger set of runs.
- Floating-point rounding in the pacer, machine widths of counters that cannot be reached in practice (the 64-bit generation, extended sequence numbers), and the memory that packets live in.
- Statistics counters, sender and receiver reports, PLI throttling, HELLO and READY bodies, bitrate adaptation, discovery, input forwarding and rendering times: plumbing or single-function arithmetic.
- Encoders, decoders, PipeWire, the compositor portals and the Android views: foreign calls whose results are inputs here.
