# Verified models of the ffmpeg tools and the public-key extractor

The repository carries the command-line tools of FFmpeg (`ffplay`, `ffmpeg`, `ffserver`) and a firmware
release whose build turns an RSA private key into constants for a signature check. This project models the
parts of them that are hardest to get right and proves what they promise. `dafny verify dfyconfig.toml`
checks everything.

| file | what it models |
|---|---|
| `FrameRing.dfy` | ffplay's frame queue: two threads and an aborting thread as atomic steps over a ring whose indices move outside the lock |
| `RingCalls.dfy` | what the calls on that queue return, and how its threads end |
| `PacketQueue.dfy` | ffplay's packet queue: the linked list on the heap, its totals and serials |
| `DecoderProtocol.dfy` | seeks, stream restarts and decoding as three threads over that queue |
| `DecoderLedger.dfy` | what becomes of every packet the decoder thread takes, and that it gets on and ends |
| `VideoSync.dfy` | `do_video_out`: duplicating and dropping frames before a video encoder |
| `VideoFrames.dfy` | which frames one call of it encodes, for each way of synchronizing |
| `MuxWriter.dfy` | `write_packet` and `check_init_output_file`: the queue before the header and the timestamp repair |
| `MuxEnds.dfy` | how such a run ends, which packets it lets through, and its time bases |
| `BsfChain.dfy` | `output_packet`: the depth-first walk through bitstream filters |
| `FilterInput.dfy` | frames waiting for a filter graph to know its formats |
| `FilterSources.dfy` | which frames a buffer source gets, and when formats are mixed |
| `ModInverse.dfy`, `Der.dfy`, `PemKey.dfy` | the modular inverse, the DER reader, and the Montgomery constants of `pem_extract_pubkey.py` |
| `CommandLine.dfy` | `split_commandline`: options collected into groups |
| `OptionMeaning.dfy` | what each word of it means, on the option table |
| `ReportLine.dfy`, `ReportText.dfy` | the command line in a report file, its decoder, and which characters are quoted |
| `ServerConfig.dfy` | ffserver's configuration sections and their two intrusive lists |
| `ServerLines.dfy` | what a line of that file reads as, and which names clash |
| `Common.dfy` | value types shared by the models |

Code that changes state is modelled by classes and methods with loops; each method is proved against a
transition on values, and the theorems are about runs of those transitions. Timestamps, counters and sizes
are mathematical integers, doubles are reals, and a missing timestamp is `None`. Libraries are parameters:
a bitstream filter is any state transducer, rescaling any function, an option table any classifier, a
configuration directive any number of errors. Allocation succeeds; calls that may fail have a flag that says
whether they do.

## What the code does that a reader might not expect

- A frame queue with one slot that keeps the last frame, and no other, can put both threads to sleep for good
  (`FrameRing.DeadlockIff`); ffplay's queues have at least three slots.
- `do_video_out` counts a duplicate refused as too large as a drop without clearing `last_dropped`, so a
  pending frame can be counted twice (`VideoSync.ConservedUpToLosses`, `VideoSync.CountedTwice`).
- When there is no previous frame to repeat, the new picture is encoded in its place and may still be marked
  as dropped (`VideoSync.MeaningKeptIff`, `VideoSync.EncodedButPending`).
- A packet without dts switches off the monotonicity repair for the packet after it, so dts can go down at the
  muxer (`MuxWriter.DtsOrderIff`, `MuxWriter.GapWitness`).
- A frame whose addition to a buffer source fails while a queue is drained has already left the queue and is
  lost, whatever happens to later graphs (`FilterInput.LossIff`, `FilterInput.LossWitness`).
- Frames of different formats that wait for another input's format all go to one buffer source, made for the last
  of them (`FilterSources.UniformIff`, `FilterSources.QueueMixes`); and if reaping fails behind a change of format,
  a later frame of the new format goes to the source of the old one, should the caller go on after the error
  (`FilterSources.SourcesMatchIff`, `FilterSources.StaleSource`).
- The queue limit is never below the eight packets the queue starts with (`MuxWriter.TooManyIff`).
- `to_words(0, 0)` fails, because zero still prints as one digit (`PemKey.ToWordsCount`).
- With a nonzero sign byte `compute_mod_parameters` succeeds or fails by the size of one remainder
  (`PemKey.ComputeModParameters`).
- ffserver's search for a duplicate feed follows `next` from the first feed, not `next_feed`, so a stream or
  redirect of the same name opened after a feed counts as a clash (`ServerConfig.FeedClashesWrongIff`); and
  `<Feed` or `<Redirect` without a closing bracket dereferences a null pointer, which the model calls a crash
  (`ServerConfig.CrashIff`).
- DER lengths are accepted in long form with leading zeros and for lengths that fit the short form, which the
  distinguished encoding rules forbid (`Der.ElementOfEncoded`).

## Model

| member | source | states |
|---|---|---|
| `FrameRing.RefinesFifo` | external/ffmpeg/ffplay.c:649-765 | Every atomic step of the writer, the reader and the aborting thread keeps the ring's invariant and is exactly the matching step of a FIFO with an optional last shown frame; frame_queue_next never meets an empty queue, and a push always publishes the frame that was written. |
| `FrameRing.RunInv` | external/ffmpeg/ffplay.c:649-784 | The invariant (index arithmetic, slot contents, wait conditions) holds in every state of every interleaving, for every ring size and keep_last setting. |
| `FrameRing.ExclusiveSlots` | external/ffmpeg/ffplay.c:689-759 | In every reachable state the slot lent to the writer is none of the slots the reader may look at or release, although windex, rindex and rindex_shown move outside the lock; peek, peek_next and peek_last stay inside the reader's slots. |
| `FrameRing.PeekAgrees` | external/ffmpeg/ffplay.c:689-702 | Whenever the reader is between calls, nb_remaining is the number of pending frames, peek and peek_next return the first two of them, and peek_last returns the last shown frame (or the first pending one). |
| `FrameRing.EveryFrameOnce` | external/ffmpeg/ffplay.c:736-765 | In every reachable state the frames pushed so far are, in order, those released, the one last shown, and those pending: none lost, repeated or reordered. |
| `FrameRing.CoherentKept` | external/ffmpeg/ffplay.c:704-784 | Each step of each thread keeps the bounds, the relation between the two indices and the locked size (including the moments when an index has moved and size has not), and that a thread's wait condition is still false while it waits. |
| `FrameRing.NoLostWakeup` | external/ffmpeg/ffplay.c:682-759 | With two slots or more, or with one that is not kept for the last frame: reader and writer never wait on the condition together, nobody sleeps on a condition that has come true, each signal wakes the one thread it is meant for, and after decoder_abort has signalled no thread sleeps on either queue. |
| `FrameRing.OneSlotDeadlock` | external/ffmpeg/ffplay.c:704-759 | With a single slot and keep_last there is an interleaving after which both threads sleep while the stream is open. |
| `FrameRing.DeadlockIff` | external/ffmpeg/ffplay.c:649-759 | A queue can reach that state if and only if it has one slot and keeps the last frame. |
| `FrameRing.Grow` | external/ffmpeg/ffplay.c:736-744 | Publishing the filled slot makes its frame the last visible one and moves no other. |
| `FrameRing.Shrink` | external/ffmpeg/ffplay.c:746-759 | Releasing the first visible slot shifts the meaning of every index by one and leaves the slot being filled where it is. |
| `RingCalls.Returns` | external/ffmpeg/ffplay.c:704-734 | In every reachable state: frame_queue_peek_readable waits exactly while no frame is pending and nothing is aborted, and returns the next pending frame, or NULL once aborted; frame_queue_peek_writable likewise a slot that is not the reader's; and packet_queue_get waits, takes a packet or ends the decoder. |
| `RingCalls.AbortEndsWriter` | external/ffmpeg/ffplay.c:777-784 | Once the packet queue is aborted every step of the decoder thread brings it nearer to its end, and no step of another thread takes it further away. |
| `RingCalls.AwakeAfterAbort` | external/ffmpeg/ffplay.c:777-784 | After decoder_abort's signal, in a queue that can be used at all, the decoder thread has ended or is awake and can go on, so waiting for it returns. |
| `PacketQueue.Links.Append` | external/ffmpeg/ffplay.c:408-414 | The pointer part of a put turns a well-linked list into the well-linked list with one node more at its tail. |
| `PacketQueue.Links.Remove` | external/ffmpeg/ffplay.c:520-529 | The pointer part of a get unlinks the first node; last_pkt becomes NULL exactly when the list empties. |
| `PacketQueue.Links.Clear` | external/ffmpeg/ffplay.c:465-481 | The freeing walk visits every node and leaves an empty list. |
| `PacketQueue.PacketList.PutPrivate` | external/ffmpeg/ffplay.c:394-421 | A put refines enqueueing: refused when aborted, else the item is appended under the serial in force, which a flush packet first increments; nb_packets, size and duration stay the length and the sums, and serials stay ordered. |
| `PacketQueue.PacketList.Get` | external/ffmpeg/ffplay.c:510-546 | A get refines dequeueing: -1 when aborted, else the first item with its serial, else empty or wait; the totals are kept. |
| `PacketQueue.PacketList.FlushAll` | external/ffmpeg/ffplay.c:465-481 | A flush empties the list and zeroes all three totals, and leaves serial and abort_request alone. |
| `PacketQueue.PacketList.Start` | external/ffmpeg/ffplay.c:501-508 | Starting clears abort_request and queues a flush packet under a new serial. |
| `PacketQueue.TotalsOfRest` | external/ffmpeg/ffplay.c:521-528 | The running totals, defined from the tail where puts happen, lose exactly the first item's share at a get. |
| `PacketQueue.RestKeeps` | external/ffmpeg/ffplay.c:521-528 | nb_packets, size, duration and the order of serials are right again after a get. |
| `PacketQueue.OrderedMeans` | external/ffmpeg/ffplay.c:410-412 | Serials ordered item by item means: non-decreasing along the whole list and bounded by the queue's serial. |
| `PacketQueue.FirstInFirstOut` | external/ffmpeg/ffplay.c:394-546 | Over any sequence of puts, gets, flushes, starts and aborts, what has left (delivered or flushed) followed by what is queued is exactly what was accepted, in order, and serials stay ordered. |
| `PacketQueue.AcceptedIs` | external/ffmpeg/ffplay.c:394-413 | What was accepted, read off the operations alone: the packets put while the queue is open, themselves, and a flush packet at each start, each under the number of flush packets up to it; the queue is aborted exactly before the first start and from an abort to the next start. |
| `DecoderProtocol.CodecSeesOneGeneration` | external/ffmpeg/ffplay.c:562-582 | In every interleaving of seeks, restarts and decoding, a packet reaches the codec only after a codec flush for the serial it was queued under, with nothing of another serial in between. |
| `DecoderProtocol.FedUnderOwnSerial` | external/ffmpeg/ffplay.c:569-586 | A packet accepted for decoding carries the serial that was the queue's at that moment, and the codec has been flushed for it. |
| `DecoderProtocol.EndOfStreamIsCurrent` | external/ffmpeg/ffplay.c:623-632 | finished == serial means that in this very generation the codec was drained, or the filter graph behind it reported its end (2026-2027, 2129-2130), and that no flush packet is waiting. |
| `DecoderProtocol.FlushUnsetsFinished` | external/ffmpeg/ffplay.c:2890-2901 | finished is 0 or a dequeued serial, so queuing a flush packet by a seek or a start makes it differ from the queue's serial. |
| `DecoderProtocol.QueueKept` | external/ffmpeg/ffplay.c:394-421 | Each step keeps: serials rise exactly at flush packets, and data is queued only behind the flush packet of the newest serial. |
| `DecoderProtocol.CodecKept` | external/ffmpeg/ffplay.c:556-636 | Each step keeps: the log of codec calls is covered by flushes, and a pending packet belongs to the dequeued serial. |
| `DecoderProtocol.RunInv` | external/ffmpeg/ffplay.c:777-784 | Both invariants hold in every state of every interleaving of the demuxer, the decoder and the thread that starts (2039-2048), aborts and clears the queue. |
| `DecoderLedger.QueueFromOps` | external/ffmpeg/ffplay.c:394-546 | In every interleaving the decoder's queue is that of the operations its threads have made on it, so first in, first out holds for the three threads. |
| `DecoderLedger.EveryPacketDecoded` | external/ffmpeg/ffplay.c:566-590 | A ledger of every run since the stream was opened: the packets dequeued, flush packets aside, are in order those whose serial has been compared and the one in hand; the codec was given exactly those found current, in that order, each at least once before the next; those found stale were thrown away. |
| `DecoderLedger.DecodedAgainIff` | external/ffmpeg/ffplay.c:569-620 | A packet is given to the codec again exactly if the codec had more to give and the queue still has its serial; otherwise the next packet is fetched. |
| `DecoderLedger.FinishedIff` | external/ffmpeg/ffplay.c:572-632 | finished is a given serial exactly if the empty packet of that serial has been used up, or the filter graph has ended under it, and the codec has not been flushed since. |
| `DecoderLedger.DecoderGetsOn` | external/ffmpeg/ffplay.c:562-586 | Every step of the decoder before a codec call uses up work bounded by the packets queued, so it calls the codec, stops, or comes to an empty queue. |
| `DecoderLedger.DecoderWaitsIff` | external/ffmpeg/ffplay.c:510-546 | The decoder has a step to take except when it has ended or waits at an empty queue that is not aborted. |
| `DecoderLedger.AbortEndsDecoder` | external/ffmpeg/ffplay.c:562-571 | Once the queue is aborted the decoder thread takes at most four more steps, and always has one until it has ended. |
| `VideoSync.VideoOutput.DoVideoOut` | external/ffmpeg/ffmpeg.c:1036-1347 | The imperative call, through its clipping, rounding, capping, counting and encoding loop, makes exactly the transition the theorems below are about. |
| `VideoSync.VideoOutput.ChooseFrames` | external/ffmpeg/ffmpeg.c:1071-1145 | How many frames to encode and how many of them repeat the previous one, for each sync method. |
| `VideoSync.VideoOutput.Account` | external/ffmpeg/ffmpeg.c:1150-1180 | The history, drop and duplicate counters, and when a call is refused as too large a duplication. |
| `VideoSync.VideoOutput.EncodeFrames` | external/ffmpeg/ffmpeg.c:1182-1337 | The loop encodes frames under consecutive pts until the plan, a picture or the recording time runs out. |
| `VideoSync.EncoderPtsIncrease` | external/ffmpeg/ffmpeg.c:1077-1202 | Under CFR, VSCFR and VFR, mixed in any way, for arbitrary real timestamps and durations, the pts given to the encoder strictly increases over the whole run and stays below sync_opts. |
| `VideoSync.PassthroughIncreasesIff` | external/ffmpeg/ffmpeg.c:1138-1141 | So there the encoder's pts increase if and only if the rounded timestamps of those frames do. |
| `VideoSync.PassthroughPts` | external/ffmpeg/ffmpeg.c:1138-1141 | There, over any run with flushes, a time limit and a frame limit, the encoder gets exactly the frames the time limit lets through, up to max_frames, each once and under its own rounded timestamp. |
| `VideoSync.FrameLimit` | external/ffmpeg/ffmpeg.c:1147-1148 | frame_number never exceeds a non-negative max_frames. |
| `VideoSync.BalanceOfOneCall` | external/ffmpeg/ffmpeg.c:1147-1191 | By how much one call of any outcome breaks the frame balance: not at all when completed; by the frames not encoded when left early; by the uncancelled pending frame (and by 1 when flushing) when refused. |
| `VideoSync.FramesConserved` | external/ffmpeg/ffmpeg.c:1150-1347 | Over any run of completed calls, flushes included: frames in + nb_frames_dup = frames encoded + nb_frames_drop + pending last_dropped (which the last report adds to the drops). |
| `VideoSync.ConservedUpToLosses` | external/ffmpeg/ffmpeg.c:1150-1191 | With refused calls too, on any run in which none is left early: frames in + duplicated + lost = encoded + dropped + pending, where a refused call loses one frame for a pending frame it gives up and one if it is a flush; so the plain equation holds exactly if none did. |
| `VideoSync.CountedTwice` | external/ffmpeg/ffmpeg.c:1152-1175 | Such a run exists from the start: one frame far too early, one refused as too long, one in time make three drops out of three frames, one of which is encoded. |
| `VideoSync.CountersMeanFrames` | external/ffmpeg/ffmpeg.c:1150-1347 | Frame by frame: the encoder got the input frames in order, each some number of times; the drop counter with the pending frame is the number of frames never encoded, the duplicate counter the number of repetitions. |
| `VideoSync.MeaningKeptIff` | external/ffmpeg/ffmpeg.c:1150-1191 | A completed call keeps that meaning if and only if it does not encode the new picture solely in place of a missing previous one; in that case the code marks as pending a frame it has encoded. |
| `VideoSync.ImproperBreaks` | external/ffmpeg/ffmpeg.c:1150-1191 | From any state in which the counters mean the frames, such a call ends it. |
| `VideoSync.EncodedButPending` | external/ffmpeg/ffmpeg.c:1071-1202 | Such a call is reachable: with room for one frame, a first picture two frame times late is encoded and marked as pending. |
| `VideoFrames.VfrGives` | external/ffmpeg/ffmpeg.c:1135-1140 | A VFR call wants its picture once, if the picture ends less than 0.6 frames before the encoder's clock, and nothing otherwise; the clock is first set to the picture's rounded timestamp, but never back, if the picture ends more than 0.6 frames behind it. |
| `VideoFrames.VfrEncodes` | external/ffmpeg/ffmpeg.c:1135-1140 | With room and time left a VFR call encodes exactly its picture, once, under that timestamp, or leaves the encoder's frames alone; it is never refused. |
| `VideoFrames.CfrGives` | external/ffmpeg/ffmpeg.c:1123-1134 | A CFR call wants nothing if its picture is to be dropped, one frame if the picture ends near the clock, and else as many as reach to its end, the first of them filled with the last picture up to its beginning, numbered from the clock on. |
| `VideoFrames.CfrKeepsUp` | external/ffmpeg/ffmpeg.c:1123-1134 | What that is for: after a completed CFR call below the frame limit that dropped nothing, the clock is at most half a frame behind the end of the picture and at most 2.1 frames ahead of it. |
| `VideoFrames.CfrPlaces` | external/ffmpeg/ffmpeg.c:1130-1133 | The last picture is repeated only more than 0.1 frames before the new one is due, and the new one appears no more than 1.1 frames early. |
| `VideoFrames.VscfrIsCfr` | external/ffmpeg/ffmpeg.c:1116-1122 | VSCFR is CFR, except that a first picture half a frame or more late starts the clock and is not filled up to. |
| `VideoFrames.FlushGives` | external/ffmpeg/ffmpeg.c:1071-1075 | A flush wants the last picture as often as the middle one of the last three calls repeated theirs. |
| `VideoFrames.PassthroughGives` | external/ffmpeg/ffmpeg.c:1141-1144 | The other methods want one frame under its own rounded timestamp. |
| `VideoFrames.NextGives` | external/ffmpeg/ffmpeg.c:1150-1347 | What a call does with the frames it wants: refused exactly if there are duplicates among them and they exceed thirty times the error threshold; else encoded one by one with consecutive timestamps, up to the first without a picture or beyond the recording time; the clock and the frame number advance by what was encoded. |
| `VideoFrames.RintIs` | external/ffmpeg/ffmpeg.c:1138 | Rounding is to the nearest integer, and to the even one of two. |
| `MuxWriter.OutputStream.MuxPacket` | external/ffmpeg/ffmpeg.c:725-784 | Rescaling, the guess for a dts after its pts, and the monotonicity repair, as one transition. |
| `MuxWriter.OutputStream.WritePacket` | external/ffmpeg/ffmpeg.c:672-800 | write_packet: limited by max_frames, queued before the header, handed to the muxer after it; an unqueued packet is neither counted nor refused again. |
| `MuxWriter.OutputStream.DrainQueue` | external/ffmpeg/ffmpeg.c:2968-2974 | The unqueuing loop is the queue handed to the muxer packet by packet. |
| `MuxWriter.OutputFile.CheckInit` | external/ffmpeg/ffmpeg.c:2937-2978 | The header is written exactly when every stream is initialized and the header call succeeds; then streams are emptied in turn, each mux_timebase following the muxer only if nothing was queued; if a packet ends the run, the streams before are emptied, that one is where the packet left it, and those behind are untouched. |
| `MuxWriter.OutputFile.FlushQueues` | external/ffmpeg/ffmpeg.c:2960-2975 | Streams are opened and emptied one after another; those after a failing one are untouched. |
| `MuxWriter.NothingLost` | external/ffmpeg/ffmpeg.c:672-744 | Over any run not ended by an error, what the muxer got followed by what is queued is exactly what was accepted, once each and in order; after the header nothing is queued. In every run each packet enters the timestamp repair with its payload and with its stamps rescaled from the time base in force when it was accepted to the stream's (or dropped, as -vsync drop asks). |
| `MuxWriter.TooManyIff` | external/ffmpeg/ffmpeg.c:696-711 | The run ends with too many packets if and only if a packet that counts meets a queue already holding max(8, max_muxing_queue_size) packets. |
| `MuxWriter.GuessIsMedian` | external/ffmpeg/ffmpeg.c:747-757 | The replacement for a dts after its pts, written as a sum less minimum and maximum, is the median of pts, dts and last dts + 1. |
| `MuxWriter.RepairIs` | external/ffmpeg/ffmpeg.c:746-781 | For each packet of any run: it reaches the muxer unchanged if and only if the format has no timestamps or its dts is neither after its pts nor too early behind the dts before it; a dts after its pts becomes, with the pts, the median; a dts too early is raised to exactly the floor, and so is a pts below it; nothing else changes. |
| `MuxWriter.PtsNotBeforeDts` | external/ffmpeg/ffmpeg.c:746-780 | A packet that enters the repair with both stamps leaves it with both and pts >= dts. |
| `MuxWriter.DtsIncrease` | external/ffmpeg/ffmpeg.c:758-781 | On a monotonized stream whose dts are all valid, dts at the muxer increase by at least one each over the whole run, or never decrease under TS_NONSTRICT. |
| `MuxWriter.NeighboursInOrder` | external/ffmpeg/ffmpeg.c:758-781 | Neighbouring valid dts are in order even when others are missing. |
| `MuxWriter.GapResetsOrder` | external/ffmpeg/ffmpeg.c:761-781 | After a packet without dts any later dts passes unchanged however early. |
| `MuxWriter.DtsOrderIff` | external/ffmpeg/ffmpeg.c:746-781 | Over any run of a monotonized stream, all valid dts at the muxer are in order if and only if each packet behind one without dts enters the repair in order with the last valid dts. |
| `MuxWriter.FreeDtsIs` | external/ffmpeg/ffmpeg.c:747-757 | What such a packet enters with, for 64-bit timestamps: its rescaled dts, or its pts if the dts lies after it. |
| `MuxWriter.GapWitness` | external/ffmpeg/ffmpeg.c:761-781 | A run that breaks the order: dts 10, none, 5 reach the muxer so. |
| `MuxWriter.AlwaysRunInv` | external/ffmpeg/ffmpeg.c:672-784 | Losslessness, the time base each packet was queued under, queue capacity, dts order and the count of accepted packets hold after every prefix of every run. |
| `MuxWriter.AlwaysTraced` | external/ffmpeg/ffmpeg.c:672-784 | After every prefix of every run, ended by an error or not, each packet at the muxer is the accepted one rescaled from its own time base and repaired behind its predecessor; before the header there is none. |
| `MuxEnds.AbortsIff` | external/ffmpeg/ffmpeg.c:758-781 | A run ends with bad timestamps exactly when, under -xerror, a packet of a monotonized stream enters the repair, rescaled and guessed, with a dts below the floor that the dts before it sets: it is the first accepted packet that did not reach the muxer, and no packet that did was such a one. |
| `MuxEnds.ArrivalAborts` | external/ffmpeg/ffmpeg.c:758-781 | The same of one packet that arrives behind the header: bad timestamps if it is such a packet, and no error otherwise. |
| `MuxEnds.Accepts` | external/ffmpeg/ffmpeg.c:685-692 | The packets accepted over a run are those that came, up to -frames, or all of them for video that is encoded here. |
| `MuxEnds.TimeBases` | external/ffmpeg/ffmpeg.c:2949-2974 | The stream's time base is the first header's once that is written; packets accepted later are under it too unless some waited for the header, and every other packet is under the encoder's. |
| `BsfChain.Output.OutputPacket` | external/ffmpeg/ffmpeg.c:818-878 | For filters that are arbitrary stateful transducers the depth-first loop terminates; what it has written is always a prefix of running the filters one after another; if no call fails and the chain was drained it succeeds, has written exactly that result, and leaves every filter drained. |
| `BsfChain.Output.Turn` | external/ffmpeg/ffmpeg.c:838-869 | One turn keeps the chain's remaining output, uses up work or moves back, never loses the drained tail, and cannot fail on its own: no packet is sent to a filter that still holds output. |
| `BsfChain.HopKeeps` | external/ffmpeg/ffmpeg.c:841-869 | Moving one packet from a filter to the drained next one changes neither what the chain will give nor how it will end, and uses up one receive. |
| `BsfChain.LastGives` | external/ffmpeg/ffmpeg.c:852-853 | The packet taken from the last filter is the next packet of the chain's result. |
| `BsfChain.ChainSplit` | external/ffmpeg/ffmpeg.c:823-869 | Running the chain over two lists in turn is running it over their concatenation. |
| `BsfChain.WholeStream` | external/ffmpeg/ffmpeg.c:823-869 | Filtering packet by packet over a whole stream is filtering the stream, one filter after the other. |
| `FilterInput.FilterGraph.Send` | external/ffmpeg/ffmpeg.c:2150-2223 | ifilter_send_frame on the heap makes the transition proved below, over every branch and every failure, that of adding a frame included. |
| `FilterInput.FilterGraph.Feed` | external/ffmpeg/ffmpeg_filter.c:1129-1165 | The draining and ending loops with their exit to cleanup at the first addition that fails. |
| `FilterInput.FilterGraph.Eof` | external/ffmpeg/ffmpeg.c:2225-2251 | ifilter_send_eof likewise, with the search for inputs that have not ended. |
| `FilterInput.FilterGraph.Configure` | external/ffmpeg/ffmpeg_filter.c:995-1167 | The passes of configure_filtergraph over its inputs: detached, attached, queues drained in order, ended inputs closed, and all detached again on a failure. |
| `FilterInput.FilterGraph.HasAllFormats` | external/ffmpeg/ffmpeg.c:2139-2148 | The scan answers whether every audio and video input has a known format. |
| `FilterInput.SendFrameKeeps` | external/ffmpeg/ffmpeg.c:2150-2223 | A frame is taken once, or refused with an error and without a trace; other inputs take nothing; known formats stay known. It is taken if and only if it goes to a configured graph and its own addition succeeds, or it waits for another input's format, or reaping, building and every addition for queued frames, ended inputs and the frame itself succeed. Of the frames taken earlier the one whose addition was the first to fail while the queues were drained is lost, and no other. |
| `FilterInput.LossIff` | external/ffmpeg/ffmpeg.c:2174-2211 | A call loses a frame if and only if the graph is not configured, no other input's format is unknown, reaping and building succeed, and one of the first T additions fails, T being the number of queued frames. |
| `FilterInput.SendEofKeeps` | external/ffmpeg/ffmpeg.c:2225-2251 | Ending an input keeps every invariant and changes no input's frames. |
| `FilterInput.ConfiguredInv` | external/ffmpeg/ffmpeg_filter.c:1129-1165 | Configuring succeeds if and only if the graph is built and no addition fails; then every queue is empty. If the first failing addition is that of a queued frame, exactly that frame is lost; a failed building or a failed end of stream loses none. |
| `FilterInput.DrainIs` | external/ffmpeg/ffmpeg_filter.c:1129-1138 | Draining a queue adds everything, or stops at the first addition that fails: the frame it was for is lost, and exactly the frames behind it stay queued. |
| `FilterInput.BufferingLossless` | external/ffmpeg/ffmpeg.c:2139-2251 | After every event of every run, failures included: for each input, frames handed to buffer sources then frames queued are exactly the frames taken, in order, with end of stream after all of them; a configured graph has empty queues and known formats, and each ended input's present buffer source, attached by the last configuration, was itself offered the end of stream. |
| `FilterInput.EventLoses` | external/ffmpeg/ffmpeg.c:2150-2251 | One event of a run makes no known format unknown, and loses exactly the frame named for it, or none. |
| `FilterInput.NothingLost` | external/ffmpeg/ffmpeg.c:2139-2251 | No frame has been lost after a run if and only if no event of it lost one; so additions that were never made do not matter. |
| `FilterInput.LossWitness` | external/ffmpeg/ffmpeg_filter.c:1129-1138 | A run from the start that loses a frame: with two inputs, a frame waits for the other input's format and its addition fails once that is known; it is neither queued nor added. |
| `FilterSources.SentOn` | external/ffmpeg/ffmpeg.c:2156-2216 | On a configured graph a frame that agrees with its input in format and hardware context, and for video in size, for audio in rate, channels and layout, is added to the buffer source there is; no new one is attached and nothing else changes. |
| `FilterSources.NeverToOldSource` | external/ffmpeg/ffmpeg.c:2156-2216 | A frame that does not agree never goes to the source there is: if the call succeeds every input has a new one, made for its present parameters, and the frame is the first its own gets; otherwise no source is given any frame. |
| `FilterSources.SourcesMatchIff` | external/ffmpeg/ffmpeg.c:2150-2223 | Over any run every source is one made for its input's present parameters, as long as, and no longer than, no reaping fails behind changed parameters; until then every frame added directly has the parameters its source was made for. |
| `FilterSources.UniformIff` | external/ffmpeg/ffmpeg_filter.c:1129-1138 | In such a run all frames that a source has got are of its format if and only if those that waited in the queue for it are. |
| `FilterSources.QueueMixes` | external/ffmpeg/ffmpeg.c:2174-2195 | A run in which they are not: two frames of different formats wait for another input, and the source, made for the second, gets both. |
| `FilterSources.StaleSource` | external/ffmpeg/ffmpeg.c:2168-2205 | A run in which reaping fails behind a change of format, after which a frame of the new format goes to the source made for the old one. |
| `FilterSources.ConfiguredIff` | external/ffmpeg/ffmpeg.c:2139-2195 | A frame that is taken leaves the graph configured exactly if no other audio or video input lacks its format; if one does, the frame is queued. |
| `FilterSources.EofReports` | external/ffmpeg/ffmpeg.c:2225-2251 | Ending an input tells the buffer source it has, and fails exactly if that does; without one the outputs are finished exactly once all inputs have ended. |
| `ModInverse.ModInv` | fbc3-release/pem_extract_pubkey.py:149-165 | modinv terminates; it raises ValueError exactly when a and m have a common divisor above 1, divides by zero exactly when m is 0 and they have none, and otherwise returns an inverse in [0, m), or in (m, 0] for negative m. |
| `ModInverse.EuclidStep` | fbc3-release/pem_extract_pubkey.py:155-156 | A Euclidean step keeps the common divisors. |
| `ModInverse.BezoutStep` | fbc3-release/pem_extract_pubkey.py:157-158 | A step keeps the Bezout identity of both remainders. |
| `ModInverse.LastRemainder` | fbc3-release/pem_extract_pubkey.py:159-160 | The last remainder is 1 exactly for coprime arguments. |
| `ModInverse.InverseUnique` | fbc3-release/pem_extract_pubkey.py:161-165 | The reduced inverse is the only one. |
| `Der.Reader.GetTag` | fbc3-release/pem_extract_pubkey.py:90-95 | get_tag on the object's index reads what the index-passing reader reads. |
| `Der.Reader.GetLen` | fbc3-release/pem_extract_pubkey.py:77-88 | get_len with its loop over the long form's octets likewise; 0x80 is refused. |
| `Der.ElementOfEncoded` | fbc3-release/pem_extract_pubkey.py:77-95 | get_tag undoes the definite-length encoding of one element in short and long form (section 8.1.3 of ITU-T X.690), wherever it lies in the data. |
| `Der.ReadAllUndoesEncodeAll` | fbc3-release/pem_extract_pubkey.py:72-95 | Repeated get_tag undoes the encoding of any list of elements, in any mixture of length forms. |
| `Der.ElementWritten` | fbc3-release/pem_extract_pubkey.py:77-95 | Conversely, an element read without running off the end is the encoding of what was returned. |
| `Der.LongOctets` | fbc3-release/pem_extract_pubkey.py:82-87 | Every length has a long form, so the round trips leave no length out. |
| `Der.PemGetMod` | fbc3-release/pem_extract_pubkey.py:117-147 | The checks after base64, in order and with their errors, against a specification on values. |
| `Der.AcceptsKeys` | fbc3-release/pem_extract_pubkey.py:119-147 | Every content that holds a version, a modulus of an allowed size with a zero first byte and the exponent 65537, in any length forms and whatever follows, is accepted with that modulus (appendix A.1.2 of RFC 8017). |
| `Der.AcceptsOnlyKeys` | fbc3-release/pem_extract_pubkey.py:119-147 | Nothing else is accepted: behind an accepted modulus there is such a layout, nothing truncated. |
| `Der.ModulusIff` | fbc3-release/pem_extract_pubkey.py:117-147 | Both directions together: a modulus is returned if and only if the outer sequence holds a key with it. |
| `Der.AcceptedSize` | fbc3-release/pem_extract_pubkey.py:130-137 | A returned modulus is the data of the second field and exactly as long as that field declares, has one of the four sizes, and starts with a zero byte. |
| `PemKey.LoadLimbs` | fbc3-release/pem_extract_pubkey.py:176-180 | The array built from the bytes, reversed and byte-swapped in place, holds limbs whose sum w[i] * 2^(32 i) is the big-endian number. |
| `PemKey.LimbIsSwappedWord` | fbc3-release/pem_extract_pubkey.py:177-180 | Limb k is the byte-swapped word k from the end. |
| `PemKey.LimbsAreTheNumber` | fbc3-release/pem_extract_pubkey.py:176-184 | The limb sum of a big-endian byte string is its number. |
| `PemKey.ToWordsUndone` | fbc3-release/pem_extract_pubkey.py:167-170 | Whenever to_words returns, for any n and count, the limb sum undoes it. |
| `PemKey.ToWordsCount` | fbc3-release/pem_extract_pubkey.py:167-170 | to_words returns exactly count words if and only if count is positive and n < 2^(32 count). |
| `PemKey.ToWordsFails` | fbc3-release/pem_extract_pubkey.py:167-170 | A number with up to one byte more than count words hold makes it fail. |
| `PemKey.WordPower` | fbc3-release/pem_extract_pubkey.py:167-170 | The bound 16^(8k) used there is 2^(32k). |
| `PemKey.HexDigitsBound` | fbc3-release/pem_extract_pubkey.py:168-168 | A number printed with h hexadecimal digits is below 16^h and, for h > 1, not below 16^(h-1). |
| `PemKey.OddIsCoprime` | fbc3-release/pem_extract_pubkey.py:185-187 | A number is coprime with 2^e exactly when it is odd. |
| `PemKey.NegatedInverse` | fbc3-release/pem_extract_pubkey.py:185-187 | Subtracting the inverse of the lowest limb from 2^32 gives a word whose product with the whole number is -1 modulo 2^32. |
| `PemKey.LimbDecides` | fbc3-release/pem_extract_pubkey.py:185-187 | modinv succeeds on the lowest limb exactly when the whole modulus is odd. |
| `PemKey.LimbInverse` | fbc3-release/pem_extract_pubkey.py:185-187 | Negated, the inverse of the lowest limb is one for the whole modulus. |
| `PemKey.RrDenotes` | fbc3-release/pem_extract_pubkey.py:189-195 | The words of a remainder modulo N: exactly len of them, denoting it, if and only if it is below 2^(32 len), which a zero sign byte guarantees. |
| `PemKey.ComputeModParameters` | fbc3-release/pem_extract_pubkey.py:172-197 | For every byte string: it succeeds if and only if the modulus is odd, of a key size, and R^2 modulo it fits its words, and otherwise raises the exception of the first check that fails. On success limbs denote the modulus, n0inv is in [1, 2^32) with N * n0inv = -1 modulo 2^32, and rr denotes 2^(2 modSize) modulo N in exactly len words; with a zero sign byte R^2 always fits. |
| `PemKey.ExtractPubkey` | fbc3-release/pem_extract_pubkey.py:216-222 | From decoded DER to parameters: a key that passes the checks fails only if its modulus is even. |
| `PemKey.RrIsRadixSquared` | fbc3-release/pem_extract_pubkey.py:190-195 | With R = 2^32 to the number of words, the words of rr denote (R * R) % N. |
| `CommandLine.ParseContext.SplitCommandline` | external/ffmpeg/cmdutils.c:752-856 | The imperative loop succeeds with the groups of a fold over the items read, or fails with the first reading error. |
| `CommandLine.ParseContext.HandleOption` | external/ffmpeg/cmdutils.c:780-849 | One option of the loop, over all its cases, errors included. |
| `CommandLine.SplitIsCollect` | external/ffmpeg/cmdutils.c:752-856 | Reading and collecting in one pass is collecting after reading. |
| `CommandLine.EveryWordUsed` | external/ffmpeg/cmdutils.c:767-849 | On success the items, spelled out, are the command line: every argument is used by exactly one item. |
| `CommandLine.GroupsAreSegments` | external/ffmpeg/cmdutils.c:661-702 | Each group holds exactly the per-file options and AVOptions between its separator and the one before, groups of a kind in the order of their separators; globals and the unfinished rest keep their order. |
| `CommandLine.CollectSegments` | external/ffmpeg/cmdutils.c:661-702 | One more item keeps that picture. |
| `CommandLine.BelongsToNextSeparator` | external/ffmpeg/cmdutils.c:661-702 | The segment an option falls in is that of the first separator after it, or the unfinished rest if none follows. |
| `OptionMeaning.ReadMeans` | external/ffmpeg/cmdutils.c:784-850 | What a word behind a dash means, on the tables themselves: a separator of that name; else the first option whose name is the key up to a colon, with the next word, an optional next word, or 1 as its value; else an AVOption; else, with no before its name, a boolean option with the value 0; and which of the three errors it is otherwise. |
| `OptionMeaning.AcceptedMeans` | external/ffmpeg/cmdutils.c:752-857 | A command line that is accepted is, word by word and without a gap, the sequence of those meanings, of file names and of double dashes. |
| `OptionMeaning.RefusedMeans` | external/ffmpeg/cmdutils.c:752-857 | One that is refused has words with a meaning up to one that is wrong, and the error is that word's. |
| `OptionMeaning.OneMeaning` | external/ffmpeg/cmdutils.c:752-857 | A word has one meaning only. |
| `OptionMeaning.NoMeaning` | external/ffmpeg/cmdutils.c:752-857 | A word that has a meaning is not wrong. |
| `OptionMeaning.FindDefines` | external/ffmpeg/cmdutils.c:217-228 | find_option finds the first definition whose name is the key or the key up to its first colon, or there is none. |
| `ReportLine.Report.DumpCommandLine` | external/ffmpeg/cmdutils.c:519-525 | The loop prints the line specified on values: arguments with blanks between and a newline after. |
| `ReportLine.Report.DumpArgument` | external/ffmpeg/cmdutils.c:472-494 | dump_argument prints an argument bare exactly when all its characters are plain, else quoted and escaped. |
| `ReportLine.UnquoteAll` | external/ffmpeg/cmdutils.c:481-493 | Inside quotes, any bytes are recovered from their backslash and hexadecimal escapes, up to the closing quote. |
| `ReportLine.LineDecodes` | external/ffmpeg/cmdutils.c:472-525 | The line is uniquely decodable: a decoder that knows only the quoting rules recovers the exact argument list, empty arguments included. |
| `ReportLine.LinePrintable` | external/ffmpeg/cmdutils.c:481-525 | Whatever the arguments, the line is printable characters and one newline at its end. |
| `ReportText.QuotedIff` | external/ffmpeg/cmdutils.c:472-494 | An argument of letters, digits and the marks + , - . / : @ _ is printed as it is; any other is printed in quotes, where no backslash, quote, dollar or backquote stands without a backslash before it, and only those and the unprintable bytes are escaped. |
| `ServerConfig.ReadArg` | external/ffmpeg/ffserver_config.c:82-108 | ffserver_get_arg: the word cut to the buffer, and the cursor after it. |
| `ServerConfig.QuotedReadBack` | external/ffmpeg/ffserver_config.c:87-107 | A quoted word is read back whole, blanks included, if it does not hold its own quote and fits the buffer. |
| `ServerConfig.BareReadBack` | external/ffmpeg/ffserver_config.c:87-107 | So is a word without blanks and without a quote in front. |
| `ServerConfig.Lists.Append` | external/ffmpeg/ffserver_config.c:1255-1262 | Appending through the tail pointers keeps both lists well linked, with the feed list the exact subsequence of feeds in the stream list. |
| `ServerConfig.Parser.CountClashes` | external/ffmpeg/ffserver_config.c:711-714 | The duplicate searches count clashes among all sections (for a stream) or all sections from the first feed on (for a feed). |
| `ServerConfig.FeedClashesWrongIff` | external/ffmpeg/ffserver_config.c:711-714 | The search for feeds counts something other than the feeds of that name if and only if a stream or redirect of that name stands behind a feed. |
| `ServerConfig.FeedClashesWitness` | external/ffmpeg/ffserver_config.c:711-714 | With a feed a and a stream b it reports a clash for a new feed b. |
| `ServerConfig.Parser.OpenTag` | external/ffmpeg/ffserver_config.c:1241-1303 | An opening tag inside a section is an error and opens nothing; otherwise the section is registered and becomes the one that is open. |
| `ServerConfig.Parser.CloseTag` | external/ffmpeg/ffserver_config.c:792-793 | Only the tag of the open section closes it; any other closing tag is an error. |
| `ServerConfig.Parser.ParseLines` | external/ffmpeg/ffserver_config.c:1234-1297 | The line loop makes the transitions specified on values, with at most one section open throughout. |
| `ServerConfig.ParseConfig` | external/ffmpeg/ffserver_config.c:1210-1308 | On the whole file: the verdict of the value specification, and a well-linked stream list of the registered sections with the feed list as the feeds among them. |
| `ServerConfig.NoErrorsIffBracketed` | external/ffmpeg/ffserver_config.c:1242-1300 | No structural error is counted if and only if the file is a sequence of plain lines and closed, unnested sections. |
| `ServerConfig.RunCounts` | external/ffmpeg/ffserver_config.c:1234-1300 | A parse that is not cut short counts exactly the structural errors of the file. |
| `ServerConfig.AcceptedIff` | external/ffmpeg/ffserver_config.c:1298-1307 | The return value is 0 if and only if the file is a sequence of plain lines and closed, unnested sections in which nothing is amiss: plain directives report no error, each section has a name that no earlier one clashes with, its lines are in order and end no parse, a stream's closing reports nothing, and a redirect's last URL is not empty. |
| `ServerConfig.AcceptedLists` | external/ffmpeg/ffserver_config.c:1255-1293 | Then the stream list holds exactly the sections of the file, in order. |
| `ServerConfig.CutIff` | external/ffmpeg/ffserver_config.c:1234-1305 | How every parse ends: it crashes, or ends with an error code, at the first command that does so, read off the commands alone; otherwise it goes on to the end of the file. |
| `ServerConfig.CrashIff` | external/ffmpeg/ffserver_config.c:707-709 | The parser crashes if and only if some opening tag outside any section has no closing bracket where one is required, and no earlier command crashes or ends the parse. |
| `ServerConfig.UnclosedTag` | external/ffmpeg/ffserver_config.c:706-709 | The line <Feed a is such a tag. |
| `ServerConfig.CrashWitness` | external/ffmpeg/ffserver_config.c:706-709 | A file that starts with such a line crashes the parser. |
| `ServerLines.LineMeans` | external/ffmpeg/ffserver_config.c:699-713 | What a line reads as: white space, a word, white space and an argument stand for opening a feed, stream or redirect, closing one, a URL, or another directive, in any case of letters; the name is what stands before the argument's last closing bracket, and without one a stream's is all of it. |
| `ServerLines.WordAloneMeans` | external/ffmpeg/ffserver_config.c:1246-1290 | A word alone on its line is read so with an empty argument. |
| `ServerLines.BlankMeans` | external/ffmpeg/ffserver_config.c:1239-1245 | White space and comments ask for nothing. |
| `ServerLines.TagNameIs` | external/ffmpeg/ffserver_config.c:704-709 | The name in a tag ends before its last closing bracket. |
| `ServerLines.ClashFreeIff` | external/ffmpeg/ffserver_config.c:710-840 | An opening tag reports no clash exactly if no earlier section has the name, or for a feed none from the first feed on, or for a redirect in any case. |

## Left out

- Integer widths: 32-bit and 64-bit overflow of timestamps, counters, sizes and serials does not occur in the model; indices and words that the code reduces itself are reduced.
- Rounding of doubles: `VideoSync` computes on reals; only `lrint` rounds.
- Memory: allocation failure, `grow_array`'s size limit, reference counts and the freeing of packets and frames.
- ffplay: SDL rendering and events, the clocks, the read thread's own decisions (when to seek, when the queues are full), picture timestamps, and reads of `nb_remaining` by a third thread.
- `FrameRing`: the two spurious-wakeup steps stand for any reason SDL_CondWait may return; a restart is modelled only once the reader has left the queue, and a decoder call that returns -1 ends its thread.
- `PacketQueue.PacketList.Get`: does not wait; the wait of a blocking call is a result, and waiting itself is in `FrameRing` and `DecoderProtocol`. The first and last pointers are grouped in an object of their own. Totals for every packet are kept, but a packet's size and duration are given.
- `do_video_out`: the resolution of the AUTO sync method and of the frame duration, interlacing and forced key frames, raw pictures, encoder errors (which end the program), delayed packets from the encoder, and statistics.
- `write_packet`: packet quality, durations of constant-rate video, statistics, and a failing `av_interleaved_write_frame`, which finishes streams.
- `output_packet`: extradata copied out of a filter that changes it, and the message and exit on an error.
- `check_init_output_file`: interleaving of several streams at the muxer; each stream's packets are followed on their own.
- `FilterInput`: the outputs of the graph, reaping filtered frames (a flag says whether it fails), subtitles queued for sub2video, frames inside a graph that is thrown away, and frames sent to an input after its end.
- `ModInverse.ModInv`: the moduli are mathematical integers as in Python; nothing is left out but the text of exceptions.
- `PemKey`: reading the file, base64, printing and the binary blob; the host is little-endian, so `array.byteswap` always swaps.
- `CommandLine`: merging of equal keys in a dictionary (entries are kept as the sequence of calls that set them), a dictionary changed by an option that then fails, option values checked by `opt_default`, and preset groups without a separator other than the first.
- `ReportLine`: the file name template and the log level of a report.
- `ServerConfig`: the meaning of directives other than the tags and a redirect's URL (how many errors a line reports, and whether it ends the parse, is arbitrary), lines longer than the read buffer, warnings, and freeing.
- Hardware acceleration, option tables, help output, stream selection, the remaining transcoding loop, and the boot code of the firmware: nothing of them is modelled.
