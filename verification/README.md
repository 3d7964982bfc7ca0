# Verification of the RTMP push library

The native half of this repository is an RTMP publishing library and a few Boost headers. This project models its
data paths in Dafny and proves what they promise.

- **Chunk stream** (`ChunkFormat`, `ChunkSender`, `ChunkReading`, `ChunkReader`, `ChunkRoundTrip`, `ChunkLimits`,
  `ChunkCaller`, `ChunkIndependence`, `ChunkSession`). A packet has 18 spare bytes before its body; the header is
  written backwards into them, and each continuation header overwrites body bytes that were already sent. The sender and
  the reader work on arrays and are proved against a pure description of the wire, for which the round trip over whole
  runs is proved. This is chunking as in section 5.3 of the Adobe RTMP 1.0 specification. `capacity` is the number of
  bytes the transport still accepts; the wire is the bytes it has taken.
- **Send queue and scheduler** (`SendQueue`, `Scheduler`, `SchedulerSafety`, `SchedulerStaleness`, `SchedulerPolicy`,
  `SchedulerKeyFrames`, `SchedulerProducers`, `SchedulerReplay`, `SchedulerLosses`, `SchedulerCounterexamples`,
  `SendScript`, `SendThread`). Producers put packets into two linked queues while one thread merges them by time, holds
  video back, skips to a key frame and counts what it drops. The thread is a state machine whose steps interleave with
  puts in any order; each step makes at most one access to what the producers share. `SendThread` is the loop itself,
  over the linked lists: for every script of the surroundings it goes through the run of the machine that the script
  makes (`SendScript`). Whether a send succeeds, the run flag, the bitrate status and the strategy are read from the
  surroundings at each step and may be anything.
- **AMF0** (`Amf`, `AmfFormat`, `AmfRoundTrip`, `AmfBuffer`). Encoder into a bounded buffer, decoder with end-marker
  detection and error recovery; numbers are their eight bytes.
- **JSON** (`Json`, `JsonRoundTrip`, `JsonMinify`, `JsonMinifier`, `JsonText`, `JsonBuffer`, `JsonUnbuffered`,
  `JsonParser`, `JsonRoutes`, `JsonGrammar`, `JsonAcceptance`, `JsonLexemes`, `JsonLayout`). Two printing routes, a
  growing buffer, a parser with escapes and an in-place minifier; the parser is also held against the grammar of RFC
  8259, in both directions up to the liberties it takes.
- **Rational numbers** (`NumberTheory`, `Rational`). Arithmetic that stays in lowest terms without a final gcd, and the
  continued-fraction comparison, over unbounded integers.
- **Remote calls** (`Invoke`, `InvokeSequence`, `InvokeProgress`, `InvokeClient`). The table of pending calls and the
  sequence connect, createStream, publish of section 7.2 of RTMP 1.0, against any server.
- **Token and handshake ciphers** (`BlockTea`, `Ciphers`, `Blowfish`, `CipherRounds`) and the **handshake block**
  (`Handshake`, `HandshakeCoverage`), with any keyed hash of 32 bytes in place of the HMAC.

`Bytes` and `Arith` hold what several of these share. `dafny verify dfyconfig.toml` checks the project.

Where code and documentation disagree the code is followed, and these results say exactly how far it goes.

- The specification repeats an extended timestamp on every chunk of a message. The sender writes it on the first chunk
  only and the reader expects it on each: `ChunkLimits.MessageExact`.
- A message that starts with the one-byte header makes the reader add the last wire time field again:
  `ChunkLimits.MessageExact`, with a run in `ChunkLimits.RepeatedTimeRun`.
- `RTMP_SendChunkSize` switches its own size before announcing it, so the announcement is one chunk that a reader with an
  old size below 4 takes for several: `ChunkLimits.AnnounceExact`. The program never has such a size:
  `ChunkLimits.AnnouncementAlwaysRead`.
- After dropped video the first packet sent should be a key frame. It is not when the video queue is empty at the moment
  the late packet is taken out and an ordinary packet and a key frame arrive before the key-frame time is read:
  `SchedulerKeyFrames.KeyFrameCatchUp` says when a run loses the key frame, `SchedulerKeyFrames.TimelyPutsCatchUp` what
  the producers have to avoid, and `SchedulerLosses.OrdinaryPutExact` at exactly which moments one ordinary packet can
  cost the key frame.

## Model

| member | source | states |
|---|---|---|
| `ChunkSender.Sender.SendPacket` | Android_Java/rtmp/rtmp/librtmp/rtmp.c:4994-5229 | the bytes handed to the transport are the pure chunking of the compressed header and the old body, or the prefix that fits when the transport gives out; it succeeds exactly when all fit; the channel history becomes the packet only on success and no other channel changes; a queued invoke is recorded with the call the body then shows; a transport error closes the connection, which clears channels and calls; header types above 3 send nothing; the first body bytes, up to where the first continuation header reaches, are left as they were |
| `ChunkSender.CallReadBack` | Android_Java/rtmp/rtmp/librtmp/rtmp.c:5207-5223 | the name and number of a remote call, read from the body after sending, are those sent whenever they lie before the first continuation header |
| `ChunkSender.CallRecorded` | Android_Java/rtmp/rtmp/librtmp/rtmp.c:5207-5223 | with either chunk size of the program the call read back from the body after sending is the one that was laid into it, for every name of at most 113 bytes |
| `ChunkSender.Sender.RecordCall` | Android_Java/rtmp/rtmp/librtmp/rtmp.c:5207-5223 | name and number are read from the body as it is after sending and appended to the calls waiting for a result |
| `ChunkSession.SendCall` | Android_Java/rtmp/rtmp/librtmp/rtmp.c:4994-5223 | a call sent as connect, createStream and publish are waits for its result under the very name and number it was sent with; after a transport error none is waiting |
| `ChunkSender.Sender.Transmit` | Android_Java/rtmp/rtmp/librtmp/rtmp.c:5043-5205 | header laid out and chunks sent: the wire gets the chunked message or its prefix |
| `ChunkSender.Sender.SendTurn` | Android_Java/rtmp/rtmp/librtmp/rtmp.c:5152-5197 | one turn keeps what has left plus what the buffer stands for equal to the message, through either transport, or ends the send with the prefix that fitted |
| `ChunkSender.Sender.Compress` | Android_Java/rtmp/rtmp/librtmp/rtmp.c:5021-5046 | header compression against the channel history and the 32-bit time delta come to one choice of form and time field |
| `ChunkSender.Sender.LayHeader` | Android_Java/rtmp/rtmp/librtmp/rtmp.c:5043-5113 | the header written backwards ends exactly where the body begins, inside the reserved bytes, and leaves the body alone |
| `ChunkSender.Sender.SendChunks` | Android_Java/rtmp/rtmp/librtmp/rtmp.c:5115-5205 | sending from the one buffer, directly or through the HTTP buffer, yields the chunked message or its prefix |
| `ChunkSender.Sender.SendLoop` | Android_Java/rtmp/rtmp/librtmp/rtmp.c:5152-5197 | the loop that overwrites sent body bytes with continuation headers emits exactly what the chunking of the buffer at its start says |
| `ChunkSender.Sender.OneChunk` | Android_Java/rtmp/rtmp/librtmp/rtmp.c:5152-5197 | one turn sends one chunk; when body remains, the next header stands directly before it and the unsent body is untouched |
| `ChunkSender.Sender.TurnOfLoop` | Android_Java/rtmp/rtmp/librtmp/rtmp.c:5152-5197 | what was sent plus what the buffer still stands for is the same before and after a turn |
| `ChunkSender.Sender.HttpBuffer` | Android_Java/rtmp/rtmp/librtmp/rtmp.c:5120-5132 | the size computed for the HTTP buffer is enough for every chunk and continuation header |
| `ChunkSender.CountWithinDivision` | Android_Java/rtmp/rtmp/librtmp/rtmp.c:5123-5127 | the number of chunks never exceeds the rounded-up division the HTTP buffer is sized by |
| `ChunkSender.Sender.Emit` | Android_Java/rtmp/rtmp/librtmp/rtmp.c:5161-5172 | a stretch of the buffer goes to the transport or to the end of the HTTP buffer, nothing else changes |
| `ChunkSender.Sender.WriteN` | Android_Java/rtmp/rtmp/librtmp/rtmp.c:2592-2649 | all bytes are written or the prefix the transport accepts, and the result says which; an error, unlike zero bytes written, closes the connection and clears channels and calls |
| `ChunkSender.Sender.SendChunkSize` | Android_Java/rtmp/rtmp/librtmp/rtmp.c:4964-4991 | the chunk size is switched first; the announcement goes out under the new size as one message |
| `ChunkReader.Reader.ReadPacket` | Android_Java/rtmp/rtmp/librtmp/rtmp.c:4617-4804 | the reader over arrays for packet bodies and growing tables does what the pure chunk reader says: same success, same packet, same tables, same bytes consumed |
| `ChunkReader.Reader.ReadBasic` | Android_Java/rtmp/rtmp/librtmp/rtmp.c:4627-4661 | one, two or three bytes give the form and the channel |
| `ChunkReader.Reader.GrowTables` | Android_Java/rtmp/rtmp/librtmp/rtmp.c:4665-4683 | both channel tables grow past the channel, old entries kept and new ones empty |
| `ChunkReader.Reader.ReadMessageHeader` | Android_Java/rtmp/rtmp/librtmp/rtmp.c:4694-4738 | the fields the form carries are read, the others kept from the channel, and a new length drops the old body |
| `ChunkReader.Reader.ReadBodyBytes` | Android_Java/rtmp/rtmp/librtmp/rtmp.c:4753-4776 | at most the chunk size and at most what is missing is read behind the bytes already there |
| `ChunkReader.Reader.KeepPacket` | Android_Java/rtmp/rtmp/librtmp/rtmp.c:4778-4800 | the packet becomes the channel reference; when complete it leaves with its absolute time and the reference loses the body |
| `ChunkReader.Reader.HandleChunkSize` | Android_Java/rtmp/rtmp/librtmp/rtmp.c:4412-4420 | a completed chunk-size message of four bytes or more sets the incoming chunk size |
| `ChunkRoundTrip.RunRoundTrip` | Android_Java/rtmp/rtmp/librtmp/rtmp.c:4617-5229 | for every run of faithful sends and chunk-size announcements, from any synced state, reading the wire gives exactly the packets sent, in order, and the wire is used up |
| `ChunkRoundTrip.FreshConnectionRoundTrip` | Android_Java/rtmp/rtmp/librtmp/rtmp.c:4617-5229 | the same from a fresh connection with the default chunk size on both sides |
| `ChunkRoundTrip.EventRoundTrip` | Android_Java/rtmp/rtmp/librtmp/rtmp.c:4617-5229 | one message, whatever follows it on the wire, is read back as type, channel, absolute time modulo 2^32, stream id and body, and both sides stay in step |
| `ChunkRoundTrip.HeaderExact` | Android_Java/rtmp/rtmp/librtmp/rtmp.c:4685-4738 | a reader that has followed the channel parses a message header to its end and to the packet meant if and only if the header is full, or keeps the stream id, length and type its form leaves out, and a one-byte form repeats the last wire time below the extended mark; on a channel that neither side has used, if and only if what the form leaves out is what the packet passed to the reader still holds |
| `ChunkRoundTrip.OpenedBySyncedReader` | Android_Java/rtmp/rtmp/librtmp/rtmp.c:4685-4738 | the same, for the packet as opened by a reader in step with the sender |
| `ChunkRoundTrip.ReadWholeMessage` | Android_Java/rtmp/rtmp/librtmp/rtmp.c:4742-4800 | a message cut into any number of chunks is put together again |
| `ChunkRoundTrip.KeepSynced` | Android_Java/rtmp/rtmp/librtmp/rtmp.c:4778-4800 | completing a packet leaves both sides with the same history |
| `ChunkLimits.MessageExact` | Android_Java/rtmp/rtmp/librtmp/rtmp.c:4617-5229 | by a reader that has followed the channel, a message is delivered from its own bytes exactly as it was sent if and only if its header is readable and it does not carry an extended time over more than one chunk: any other header or split gives a different delivery or none |
| `ChunkLimits.MessageSurvives` | Android_Java/rtmp/rtmp/librtmp/rtmp.c:4617-4804 | the same for any header form, time field and channel entry: the delivery is the packet meant if and only if the header denotes it and no extended time is split |
| `ChunkLimits.MisledLost` | Android_Java/rtmp/rtmp/librtmp/rtmp.c:4685-4804 | a reader misled about the length, or about four bytes of extended time, never completes a packet of the message size on its channel |
| `ChunkLimits.WholeDelivered` | Android_Java/rtmp/rtmp/librtmp/rtmp.c:4617-4804 | otherwise exactly one packet comes out, with the whole body and the fields its header was read with |
| `ChunkLimits.RepeatedTimeDrifts` | Android_Java/rtmp/rtmp/librtmp/rtmp.c:5021-5046 | a packet with the same time, size and type as the one before it is delivered later than sent by the last time field |
| `ChunkLimits.RepeatedTimeRun` | Android_Java/rtmp/rtmp/librtmp/rtmp.c:5021-5046 | a concrete run on a fresh connection: three packets of equal size sent at 0, 40 and 40 are delivered at 0, 40 and 80 |
| `ChunkLimits.SplitExtendedLost` | Android_Java/rtmp/rtmp/librtmp/rtmp.c:4727-4738 | a message with an extended time over several chunks is never completed with its body: the reader takes four body bytes of each continuation for a time |
| `ChunkLimits.SplitExtendedRun` | Android_Java/rtmp/rtmp/librtmp/rtmp.c:5109-5196 | a concrete message of 129 bytes at time 0xffffff on a fresh connection, of which nothing arrives |
| `ChunkLimits.AnnounceExact` | Android_Java/rtmp/rtmp/librtmp/rtmp.c:4964-4991 | the chunk-size announcement is read back if and only if the old chunk size is at least 4 |
| `ChunkLimits.AnnouncementAlwaysRead` | Android_Java/rtmp/rtmp/librtmp/rtmp.c:4964-4991 | after any run of faithful messages from a fresh connection the program announces its chunk size, and reading the wire delivers the run and then the announcement |
| `ChunkLimits.AnnouncementReadInStep` | Android_Java/rtmp/rtmp/librtmp/rtmp.c:4964-4991 | a reader in step reads the announcement after any run, because the chunk size is only ever 128 or 32768 |
| `ChunkLimits.AnnounceLost` | Android_Java/rtmp/rtmp/librtmp/rtmp.c:4964-4991 | below that nothing is completed |
| `ChunkLimits.GapNeverCloses` | Android_Java/rtmp/rtmp/librtmp/rtmp.c:4753-4772 | too few bytes for a packet stay too few over any number of chunks |
| `ChunkLimits.ReadChunkKeepsTablesOk` | Android_Java/rtmp/rtmp/librtmp/rtmp.c:4665-4800 | every successful chunk keeps the table invariant and is kept under the channel it names |
| `ChunkLimits.CompletedByMessage` | Android_Java/rtmp/rtmp/librtmp/rtmp.c:4617-4804 | reading to the first completed packet and going on is reading everything |
| `ChunkIndependence.ChannelsIndependent` | Android_Java/rtmp/rtmp/librtmp/rtmp.c:4665-4800 | for any interleaving of chunks the packets completed on a channel are those completed when its chunks are read alone, in the same order, from any two readers that agree on the channel |
| `ChunkIndependence.ChannelAlone` | Android_Java/rtmp/rtmp/librtmp/rtmp.c:4665-4800 | in particular from a fresh connection, with tables growing as channels appear |
| `ChunkIndependence.SameChunk` | Android_Java/rtmp/rtmp/librtmp/rtmp.c:4665-4800 | a chunk means the same to every reader that agrees on its channel |
| `ChunkIndependence.OtherChannel` | Android_Java/rtmp/rtmp/librtmp/rtmp.c:4665-4800 | a chunk leaves every other channel as it was |
| `ChunkIndependence.ChunkThenTail` | Android_Java/rtmp/rtmp/librtmp/rtmp.c:4617-4804 | bytes behind a chunk do not change how it is read |
| `ChunkSession.Loopback` | Android_Java/rtmp/rtmp/librtmp/rtmp.c:4617-5229 | the array-based sender and the array-based reader put together, over plain or HTTP transport: everything published faithfully is delivered |
| `ChunkSession.SendAll` | Android_Java/rtmp/rtmp/librtmp/rtmp.c:4994-5229 | the sender object over a run puts the wire of the run, no more and no less |
| `ChunkSession.ReceiveAll` | Android_Java/rtmp/rtmp/librtmp/rtmp.c:4412-4804 | the receiving loop delivers what the pure receiver delivers |
| `ChunkCaller.FaithfulInCallerTerms` | Android_Java/rtmp/rtmp/librtmp/rtmp.c:4994-5113 | in terms of the packet and of the last one on the channel only, for every form asked for: a full packet always has a header the reader understands; one sent without its stream id has exactly when the stream id is that of the channel and it does not repeat size, type and time, unless that last time field was 0; and exactly which packets may ask for a shorter form |
| `ChunkCaller.CompressionExact` | Android_Java/rtmp/rtmp/librtmp/rtmp.c:5021-5027 | a packet sent without its stream id goes out without size and type exactly when both repeat the last packet, and without its time exactly when that repeats, too; the first byte of the wire shows it |
| `ChunkCaller.CallerRoundTrip` | Android_Java/rtmp/rtmp/librtmp/rtmp.c:4994-5205 | with no assumption on headers: every run of packets a caller sends in full, or without a stream id that stays the same and without repeating the last packet, is read back in order on a fresh connection, however often the chunk size is announced |
| `ChunkCaller.BasicHeaderBytes` | Android_Java/rtmp/rtmp/librtmp/rtmp.c:5052-5096 | form in the two highest bits, channel in six bits, one byte or two |
| `ChunkCaller.MessageHeaderBytes` | Android_Java/rtmp/rtmp/librtmp/rtmp.c:5097-5113 | where time, length, type and stream id stand, as numbers of their bytes, and when the four-byte time follows |
| `ChunkCaller.ContinuationBytes` | Android_Java/rtmp/rtmp/librtmp/rtmp.c:5152-5197 | a continuation header is three in the two highest bits and the channel |
| `ChunkCaller.AnnouncedSize` | Android_Java/rtmp/rtmp/librtmp/rtmp.c:4412-4420 | a completed message of type 1 with four bytes or more sets the incoming chunk size to the signed number of its first four bytes, and no other message changes it |
| `ChunkCaller.ReportAfterAnnouncement` | Android_Java/rtmp/rtmp/librtmp/rtmp.c:3138-3157 | a bytes-read report behind a chunk-size announcement of the same channel, size and time keeps its own type: its header is 66 0 0 0 0 0 4 3, and the reader gets both |
| `SendQueue.RTMPBuffer.PutBuffer` | Android_Java/rtmp/rtmp/librtmp/rtmp_buffer.c:110-172 | a put appends to the sequence the list stands for, sets the time of the last packet and, for a key frame, of the last key frame; the list stays acyclic with its last node known |
| `SendQueue.RTMPBuffer.GetBuffer` | Android_Java/rtmp/rtmp/librtmp/rtmp_buffer.c:177-199 | a get takes the first node off, counts down and records its time; an empty list gives nothing |
| `SendQueue.RTMPBuffer.constructor` | Android_Java/rtmp/rtmp/librtmp/rtmp_buffer.c:16-31 | a new buffer is the empty queue with all times 0 |
| `SendQueue.QueueRun` | Android_Java/rtmp/rtmp/librtmp/rtmp_buffer.c:110-211 | over any run of puts and gets: first in, first out; the three times are those of the last put, the last key put and the last got |
| `SendQueue.RunBuffer` | Android_Java/rtmp/rtmp/librtmp/rtmp_buffer.c:110-199 | the real list follows the queue over any run, and the packet count is what was put less what was taken |
| `SchedulerSafety.Conservation` | Android_Java/rtmp/rtmp/librtmp/rtmp_thread.c:45-418 | at every step of every run each packet put is exactly one of settled, in hand, held as head or queued, in the order put; the packets sent are those settled as sent; bytes counted and pending are those of the dropped packets other than skip triggers |
| `SchedulerSafety.InOrder` | Android_Java/rtmp/rtmp/librtmp/rtmp_thread.c:110-155 | per stream, what is transmitted is a subsequence of what was put |
| `SchedulerStaleness.NothingStaleSent` | Android_Java/rtmp/rtmp/librtmp/rtmp_thread.c:157-161 | with non-decreasing timestamps: every packet sent was less than the delay bound behind the newest packet in the buffers when it was taken, or is not older than the key-frame time read; every packet skipped is older than a key frame already put; a skip is triggered only at the delay bound or beyond unless the 32-bit sum overflows |
| `SchedulerStaleness.ClockNeverWraps` | Android_Java/rtmp/rtmp/librtmp/rtmp_thread.c:157-161 | with non-decreasing timestamps the two clock subtractions never wrap, and the clock is between the newest time when the packet was taken and the newest time now |
| `SchedulerStaleness.StepPutsNothing` | Android_Java/rtmp/rtmp/librtmp/rtmp_thread.c:45-422 | no step of the thread puts a packet or touches the last-packet and last-key-frame times |
| `SchedulerKeyFrames.KeyFrameCatchUp` | Android_Java/rtmp/rtmp/librtmp/rtmp_thread.c:262-344 | with strictly increasing video times and video never held back: the first video packet sent after dropped ones is always a key frame if and only if no ordinary on-time video packet is sent right after a skip that began with no video head held |
| `SchedulerKeyFrames.TimelyPutsCatchUp` | Android_Java/rtmp/rtmp/librtmp/rtmp_thread.c:262-344 | with strictly increasing video times and video never held back, the first video packet sent after dropped ones is a key frame as long as no ordinary video packet is put while the only video packet there is, is being judged |
| `SchedulerLosses.OrdinaryPutExact` | Android_Java/rtmp/rtmp/librtmp/rtmp_thread.c:64-412 | exactly when an ordinary video packet may be put: after an admissible run without harmful puts, some continuation with this and no other ordinary packet, meeting every assumption, sends it right after a dropped packet if and only if the moment is critical: the only video packet there is, is between its taking out and its judgement as late, no outdated audio packet comes first, the delay bound is at least 2 and the waiting time above 10 |
| `SchedulerLosses.UntimelyPutCanLose` | Android_Java/rtmp/rtmp/librtmp/rtmp_thread.c:64-412 | the constructive half: at every critical moment, before the first clock read, between the reads or after the packet was found late, such a continuation, found step by step |
| `SchedulerPolicy.OnlyVideoWithheld` | Android_Java/rtmp/rtmp/librtmp/rtmp_thread.c:177-191 | over every run no packet of type 8 or 18 is ever withheld |
| `SchedulerPolicy.WithheldWasHeldBack` | Android_Java/rtmp/rtmp/librtmp/rtmp_thread.c:193-256 | over every run each withheld packet was the one in hand at a step with a low bitrate status and a strategy other than 1, in audio-only mode or with a strategy other than 0, and was no key frame that was due |
| `SchedulerPolicy.OnTimeOutcome` | Android_Java/rtmp/rtmp/librtmp/rtmp_thread.c:161-261 | an on-time packet is withheld and its bytes counted exactly by these rules; otherwise it is sent, or its failed send ends the thread; nothing else changes |
| `SchedulerPolicy.AudioGoesOut` | Android_Java/rtmp/rtmp/librtmp/rtmp_thread.c:177-191 | audio and metadata that are on time are sent whatever the mode |
| `SchedulerPolicy.KeyFrameResumes` | Android_Java/rtmp/rtmp/librtmp/rtmp_thread.c:228-248 | after the retry time an on-time key frame is sent and video is on again |
| `SchedulerPolicy.VideoStaysOn` | Android_Java/rtmp/rtmp/librtmp/rtmp_thread.c:163-176 | over any stretch of a run video stays on unless a packet more than half the bound behind is judged or a skip ends |
| `SchedulerPolicy.ModeAfterJudging` | Android_Java/rtmp/rtmp/librtmp/rtmp_thread.c:161-248 | what judging a packet does to audio-only mode and to the time it is counted from |
| `SchedulerPolicy.EarliestTaken` | Android_Java/rtmp/rtmp/librtmp/rtmp_thread.c:110-155 | the packet taken out is the earliest of those held, audio on a tie, and the head of its stream |
| `SchedulerPolicy.DropsAreCounted` | Android_Java/rtmp/rtmp/librtmp/rtmp_thread.c:54-60 | over every run what was dropped in earlier turns is in the counter before the next packet is chosen |
| `SchedulerPolicy.EndsOnlyFor` | Android_Java/rtmp/rtmp/librtmp/rtmp_thread.c:62-115 | the thread ends on a failed send, on the order to stop or after the waiting time only |
| `SchedulerProducers.HarmlessPutsCatchUp` | Android_Java/rtmp/rtmp/librtmp/rtmp_thread.c:64-412 | the other half: as long as no ordinary video packet is put at a critical moment the first video packet sent after dropped ones is a key frame; with a delay bound of at most 1 or a waiting time of at most 10 nothing is asked of the producers but order |
| `SchedulerKeyFrames.HeldVideoCatchesUp` | Android_Java/rtmp/rtmp/librtmp/rtmp_thread.c:289-344 | hence it always is when a video head was held at every such skip |
| `SchedulerCounterexamples.BlindSkipLosesKeyFrame` | Android_Java/rtmp/rtmp/librtmp/rtmp_thread.c:289-344 | a concrete run, meeting every assumption, in which an ordinary packet follows a dropped one: the video queue was empty when the late packet was taken and refilled before the key-frame time was read |
| `SchedulerCounterexamples.ReleaseLosesKeyFrame` | Android_Java/rtmp/rtmp/librtmp/rtmp_thread.c:191-256 | a concrete run without any skip in which the bitrate status returns to 0 and an ordinary packet follows a withheld one |
| `SendThread.BufferControl.Control` | Android_Java/rtmp/rtmp/librtmp/rtmp_thread.c:22-426 | the loop as written, over two linked queues and for any script of what the producers put before each step and what the step reads: after as many turns of the script as it took steps it stands at the first end of the run that the script makes; its result, the packets sent, in order, the bytes counted and what is left in the two lists and heads are those of that run |
| `SendScript.EveryRunIsPlayed` | Android_Java/rtmp/rtmp/librtmp/rtmp_thread.c:22-426 | scripts leave nothing out: every interleaving of puts and steps is played by one |
| `SendScript.OneOutcome` | Android_Java/rtmp/rtmp/librtmp/rtmp_thread.c:22-426 | after an end of the thread nothing more is sent, dropped or counted, so a script has one outcome |
| `SendScript.PutsAreBrought` | Android_Java/rtmp/rtmp/librtmp/rtmp_buffer.c:110-172 | what has been put into the two buffers is exactly what the turns used so far brought, in that order |
| `SendScript.StateFollows` | Android_Java/rtmp/rtmp/librtmp/rtmp_thread.c:22-426 | each step of the run acts on the state its turn of the script leaves, with what that turn says it reads |
| `SendThread.BufferControl.Round` | Android_Java/rtmp/rtmp/librtmp/rtmp_thread.c:54-422 | one turn of the loop takes the steps of the run from the top up to the next time it is at the top or at the end, and no further |
| `SendThread.BufferControl.Wait` | Android_Java/rtmp/rtmp/librtmp/rtmp_thread.c:64-80 | the polling loop takes the steps of the run up to the choice of a packet and ends there only with a packet, the time limit or a stop read |
| `SendThread.BufferControl.TakeOut` | Android_Java/rtmp/rtmp/librtmp/rtmp_thread.c:110-155 | the older head is taken, audio on a tie, and its place filled from its queue |
| `SendThread.BufferControl.ReadClock` | Android_Java/rtmp/rtmp/librtmp/rtmp_thread.c:157-159 | exactly three steps give the clock, whatever is put between them; it is the last time of one of the buffers, and decides on time or late with a 32-bit sum |
| `SendThread.BufferControl.DispatchFresh` | Android_Java/rtmp/rtmp/librtmp/rtmp_thread.c:161-261 | a packet on time is sent or dropped as delay, bitrate status, strategy and frame type decide |
| `SendThread.BufferControl.LatePacket` | Android_Java/rtmp/rtmp/librtmp/rtmp_thread.c:264-420 | the steps of the run from a late packet up to the next turn or the end: it is sent if no key frame is newer; otherwise both streams are skipped up to it |
| `SendThread.BufferControl.SkipVideoLoop` | Android_Java/rtmp/rtmp/librtmp/rtmp_thread.c:289-344 | the steps of the run that skip video, up to the first head not older than the key frame, which is sent, or the last one there is |
| `SendThread.BufferControl.SkipAudioLoop` | Android_Java/rtmp/rtmp/librtmp/rtmp_thread.c:346-412 | likewise for audio, after which audio-only mode begins |
| `AmfRoundTrip.RoundTrip` | Android_Java/rtmp/rtmp/librtmp/amf.c:360-414 | for every clean tree, room for it and two bytes more, and any suffix: decoding the encoding gives the tree and uses exactly the bytes written |
| `AmfRoundTrip.EnoughRoom` | Android_Java/rtmp/rtmp/librtmp/amf.c:879-982 | with that room nothing is cut and the encoding has the size of the tree |
| `AmfRoundTrip.TruncationIsGraceful` | Android_Java/rtmp/rtmp/librtmp/amf.c:879-944 | for any room: what the encoder returns is inside it and decodes to a tree in which every object keeps a prefix of its properties |
| `AmfRoundTrip.TruncatedStrictArrayLost` | Android_Java/rtmp/rtmp/librtmp/amf.c:947-978 | a strict array that lost elements but not its count does not decode from its own bytes |
| `AmfRoundTrip.NamelessMemberLost` | Android_Java/rtmp/rtmp/librtmp/amf.c:360-374 | a member written without a name is not read back |
| `AmfRoundTrip.NoMarkerAtName` | Android_Java/rtmp/rtmp/librtmp/amf.c:1149-1192 | a named property cannot be taken for the end marker |
| `AmfRoundTrip.ScalarRoundTrip` | Android_Java/rtmp/rtmp/librtmp/amf.c:68-199 | numbers, booleans, short and long strings are read back whatever follows |
| `AmfFormat.FormRead` | Android_Java/rtmp/rtmp/librtmp/amf.c:607-757 | every form in which a peer may write a number, boolean, string, null, object, array, date or XML document, with either string form, any of the three markers that say nothing, members of any name and any ECMA count, is decoded as what it says, and just its bytes are taken |
| `AmfFormat.WritesForm` | Android_Java/rtmp/rtmp/librtmp/amf.c:360-440 | what the encoder writes for what is left of a tree is one of these forms, with its markers and its lengths, highest byte first |
| `AmfFormat.OtherMarkersRefused` | Android_Java/rtmp/rtmp/librtmp/amf.c:640-757 | any other marker is refused, except for the switch to AMF3 |
| `AmfFormat.SkipExact` | Android_Java/rtmp/rtmp/librtmp/amf.c:1149-1195 | after an undecodable member decoding goes on behind the first end marker, and fails exactly when there is none |
| `AmfBuffer.PropEncode` | Android_Java/rtmp/rtmp/librtmp/amf.c:360-414 | the encoder over a buffer writes only between cursor and end, and what it writes is the encoding |
| `AmfBuffer.ValueEncode` | Android_Java/rtmp/rtmp/librtmp/amf.c:376-411 | the same for a value |
| `AmfBuffer.PropsEncode` | Android_Java/rtmp/rtmp/librtmp/amf.c:888-901 | the loop over properties stops at the first that does not fit and keeps those before it |
| `AmfBuffer.MarkerEncode` | Android_Java/rtmp/rtmp/librtmp/amf.c:903-908 | the end marker needs its three bytes and one to spare |
| `AmfBuffer.ObjectDecode` | Android_Java/rtmp/rtmp/librtmp/amf.c:1149-1192 | the decoding loop with its error recovery gives the properties and the bytes used |
| `AmfBuffer.ItemsDecode` | Android_Java/rtmp/rtmp/librtmp/amf.c:982-1010 | the strict-array loop reads as many values as announced |
| `AmfBuffer.PropDecode` | Android_Java/rtmp/rtmp/librtmp/amf.c:607-649 | name and value, or failure |
| `AmfBuffer.ValueDecode` | Android_Java/rtmp/rtmp/librtmp/amf.c:646-784 | the type switch |
| `Bytes.IntRoundTrip` | Android_Java/rtmp/rtmp/librtmp/amf.c:41-172 | every fixed-width integer form is inverted by its reader |
| `JsonRoundTrip.RoundTrip` | Android_Java/rtmp/rtmp/librtmp/cJSON.c:323-339 | for every tree of null, booleans, 32-bit integers, NUL-free strings, arrays and objects, formatted or not, parsing the text gives the tree back and uses all of it |
| `JsonRoundTrip.ValueRoundTrip` | Android_Java/rtmp/rtmp/librtmp/cJSON.c:357-512 | the same at any depth, whatever follows |
| `JsonRoundTrip.EscapeUndone` | Android_Java/rtmp/rtmp/librtmp/cJSON.c:205-250 | every escape the printer writes, short or \\u00xx, is undone by the parser |
| `JsonRoundTrip.ScalarUndone` | Android_Java/rtmp/rtmp/librtmp/cJSON.c:215-240 | the escape of any character, one unit or a surrogate pair, is read as its UTF-8 form |
| `JsonRoundTrip.NumberRoundTrip` | Android_Java/rtmp/rtmp/librtmp/cJSON.c:96-115 | a printed integer is read back before anything that ends a number |
| `JsonRoundTrip.PrintInjective` | Android_Java/rtmp/rtmp/librtmp/cJSON.c:342-343 | different trees print differently |
| `JsonMinify.PrintersAgree` | Android_Java/rtmp/rtmp/librtmp/cJSON.c:342-343 | minifying formatted text gives the unformatted text, unformatted text is a fixed point, and printed text is closed |
| `JsonMinify.ValueMinifies` | Android_Java/rtmp/rtmp/librtmp/cJSON.c:737-752 | minifying a value printed at any depth and in either format leaves its unformatted text, whatever follows |
| `JsonMinify.QuotedMinifies` | Android_Java/rtmp/rtmp/librtmp/cJSON.c:748-748 | string literals pass through untouched |
| `JsonMinifier.MinifyInPlace` | Android_Java/rtmp/rtmp/librtmp/cJSON.c:737-752 | the loop over one array stays before the terminator if and only if the text closes its strings and comments, and then leaves the minified text, NUL-terminated |
| `JsonMinifier.CopyString` | Android_Java/rtmp/rtmp/librtmp/cJSON.c:748-748 | a string is copied down with its quotes, escapes taken whole, or found to be left open |
| `JsonMinifier.SkipComment` | Android_Java/rtmp/rtmp/librtmp/cJSON.c:747-747 | a comment is passed over up to its end, or found to be left open |
| `JsonLexemes.ClosedExact` | Android_Java/rtmp/rtmp/librtmp/cJSON.c:737-752 | the loop stays inside a text exactly when the text falls into blanks, comments, strings and single characters |
| `JsonLexemes.MinifyKeeps` | Android_Java/rtmp/rtmp/librtmp/cJSON.c:737-752 | what is left of such a text are its strings and single characters, in order and unchanged |
| `JsonLayout.ItemsExample` | Android_Java/rtmp/rtmp/librtmp/cJSON.c:435-512 | where tabs, spaces and line ends stand in a formatted text, with an array and an empty object |
| `JsonLayout.NestedExample` | Android_Java/rtmp/rtmp/librtmp/cJSON.c:552-670 | the same for an object inside an object |
| `JsonLayout.EscapeExample` | Android_Java/rtmp/rtmp/librtmp/cJSON.c:252-306 | which characters are escaped, and how |
| `JsonText.Pow2gtFits` | Android_Java/rtmp/rtmp/librtmp/cJSON.c:117-117 | the new size is at least what is needed and less than twice as much |
| `JsonText.EscapedLength` | Android_Java/rtmp/rtmp/librtmp/cJSON.c:257-283 | the counted length is the length of the escaped string |
| `JsonText.WriteString` | Android_Java/rtmp/rtmp/librtmp/cJSON.c:258-307 | the quoted string and its NUL are written inside the room counted |
| `JsonText.PrintNoNul` | Android_Java/rtmp/rtmp/librtmp/cJSON.c:372-403 | printed text contains no NUL, so that strlen finds its end |
| `JsonText.DecimalLength` | Android_Java/rtmp/rtmp/librtmp/cJSON.c:147-161 | a 32-bit number fits the room set aside for it |
| `JsonBuffer.PrintBuffer.Ensure` | Android_Java/rtmp/rtmp/librtmp/cJSON.c:121-136 | room for what is needed, the text so far kept |
| `JsonBuffer.PrintBuffer.Update` | Android_Java/rtmp/rtmp/librtmp/cJSON.c:138-144 | the offset moves to the end of the text |
| `JsonBuffer.PrintBuffer.PrintValue` | Android_Java/rtmp/rtmp/librtmp/cJSON.c:372-388 | the value is written behind what is done, inside the buffer, NUL-terminated |
| `JsonBuffer.PrintBuffer.PrintArray` | Android_Java/rtmp/rtmp/librtmp/cJSON.c:452-470 | an array likewise, item by item |
| `JsonBuffer.PrintBuffer.PrintObject` | Android_Java/rtmp/rtmp/librtmp/cJSON.c:573-612 | an object likewise, member by member |
| `JsonBuffer.PrintBuffered` | Android_Java/rtmp/rtmp/librtmp/cJSON.c:345-353 | for any first size the buffer ends up holding the printed text |
| `JsonUnbuffered.PrintValue` | Android_Java/rtmp/rtmp/librtmp/cJSON.c:389-403 | the unbuffered route gives the same text in an array of its own |
| `JsonUnbuffered.PrintArray` | Android_Java/rtmp/rtmp/librtmp/cJSON.c:471-510 | the entries are composed inside the length summed up beforehand |
| `JsonUnbuffered.PrintObject` | Android_Java/rtmp/rtmp/librtmp/cJSON.c:613-658 | names and entries are composed inside the length summed up beforehand |
| `JsonUnbuffered.ItemsFit` | Android_Java/rtmp/rtmp/librtmp/cJSON.c:474-489 | the sum for an array covers its items and separators |
| `JsonUnbuffered.MembersFit` | Android_Java/rtmp/rtmp/librtmp/cJSON.c:623-633 | the sum for an object covers its members with tabs and line ends |
| `JsonParser.ParseWithOpts` | Android_Java/rtmp/rtmp/librtmp/cJSON.c:323-337 | the cursor parser accepts exactly what the grammar functions accept and returns the same tree and end |
| `JsonParser.ReadString` | Android_Java/rtmp/rtmp/librtmp/cJSON.c:192-250 | strings are decoded inside the room counted by the first loop |
| `JsonParser.CountRoom` | Android_Java/rtmp/rtmp/librtmp/cJSON.c:196-200 | the first loop counts the room, or finds a text that ends in a backslash |
| `JsonParser.EscapeFits` | Android_Java/rtmp/rtmp/librtmp/cJSON.c:198-240 | no escape needs more room than it was counted for, and the two loops stay in step |
| `JsonParser.WriteUtf8` | Android_Java/rtmp/rtmp/librtmp/cJSON.c:229-237 | the bytes written backwards are the UTF-8 form |
| `JsonParser.ReadArray` | Android_Java/rtmp/rtmp/librtmp/cJSON.c:406-432 | arrays, with the list built child by child |
| `JsonParser.ReadObject` | Android_Java/rtmp/rtmp/librtmp/cJSON.c:515-549 | objects, names and values |
| `JsonGrammar.StringRead` | Android_Java/rtmp/rtmp/librtmp/cJSON.c:192-250 | every string of the grammar, each character raw, escaped by letter, slash included, by four digits in either case or by a pair of them, is read as what it says |
| `JsonGrammar.Utf8IsUtf8` | Android_Java/rtmp/rtmp/librtmp/cJSON.c:222-236 | code points become their one UTF-8 form |
| `JsonGrammar.NumberRead` | Android_Java/rtmp/rtmp/librtmp/cJSON.c:96-118 | every whole number of the grammar is read as its value |
| `JsonGrammar.ValueRead` | Android_Java/rtmp/rtmp/librtmp/cJSON.c:357-369 | every text of the grammar, any white space between its tokens, is read as the tree it says, in front of any rest |
| `JsonGrammar.TextRead` | Android_Java/rtmp/rtmp/librtmp/cJSON.c:323-337 | the same for a whole text with white space around it |
| `JsonGrammar.EscapedAddress` | Android_Java/rtmp/rtmp/librtmp/cJSON.c:237-241 | an address with escaped slashes is read with slashes |
| `JsonAcceptance.TextAccepted` | Android_Java/rtmp/rtmp/librtmp/cJSON.c:323-337 | whatever is accepted is a value in one of the shapes of the grammar behind blanks, and with the whole text asked for only blanks follow it; or a string that only the end of the text closes |
| `JsonAcceptance.ShapeFound` | Android_Java/rtmp/rtmp/librtmp/cJSON.c:357-369 | the same for a value in front of any rest: brackets, commas, colons and quotes are where the grammar has them |
| `JsonAcceptance.LiteralFound` | Android_Java/rtmp/rtmp/librtmp/cJSON.c:192-250 | a string read ends at its first bare quote, and is read the same by itself |
| `JsonAcceptance.NumberFound` | Android_Java/rtmp/rtmp/librtmp/cJSON.c:96-118 | the number read is that of the digits in front, of which the first may be an idle zero and which a minus may stand for |
| `JsonRoutes.PrintAndParse` | Android_Java/rtmp/rtmp/librtmp/cJSON.c:323-353 | either printing route followed by the parser gives the tree back |
| `JsonRoutes.PrintAndMinify` | Android_Java/rtmp/rtmp/librtmp/cJSON.c:342-353 | formatted text minified in place and the buffered unformatted text are the same bytes |
| `Rational.RationalNumber.Normalize` | Android_Java/log/src/mars-master/mars/boost/rational.hpp:545-578 | the value is kept, the denominator becomes positive and the fraction is in lowest terms; a zero denominator is refused |
| `Rational.RationalNumber.Assign` | Android_Java/log/src/mars-master/mars/boost/rational.hpp:258-261 | assignment of numerator and denominator: the value in lowest terms, or refused with nothing changed |
| `Rational.RationalNumber.AddAssign` | Android_Java/log/src/mars-master/mars/boost/rational.hpp:279-311 | exact sum in lowest terms without a full gcd, also when added to itself |
| `Rational.RationalNumber.SubAssign` | Android_Java/log/src/mars-master/mars/boost/rational.hpp:314-330 | exact difference in lowest terms |
| `Rational.RationalNumber.MulAssign` | Android_Java/log/src/mars-master/mars/boost/rational.hpp:333-345 | exact product in lowest terms by cross cancelling |
| `Rational.RationalNumber.DivAssign` | Android_Java/log/src/mars-master/mars/boost/rational.hpp:348-374 | exact quotient in lowest terms, sign in the numerator; division by zero is refused and changes nothing |
| `Rational.RationalNumber.AddInt` | Android_Java/log/src/mars-master/mars/boost/rational.hpp:185-185 | exact, still in lowest terms |
| `Rational.RationalNumber.SubInt` | Android_Java/log/src/mars-master/mars/boost/rational.hpp:186-186 | exact, still in lowest terms |
| `Rational.RationalNumber.MulInt` | Android_Java/log/src/mars-master/mars/boost/rational.hpp:379-388 | exact, in lowest terms |
| `Rational.RationalNumber.DivInt` | Android_Java/log/src/mars-master/mars/boost/rational.hpp:391-410 | exact, in lowest terms, zero refused |
| `Rational.RationalNumber.Less` | Android_Java/log/src/mars-master/mars/boost/rational.hpp:414-495 | the continued-fraction loop ends and decides a*d < c*b |
| `Rational.RationalNumber.LessInt` | Android_Java/log/src/mars-master/mars/boost/rational.hpp:498-513 | decides num < i*den |
| `Rational.RationalNumber.GreaterInt` | Android_Java/log/src/mars-master/mars/boost/rational.hpp:516-520 | decides num > i*den |
| `Rational.RationalNumber.Equals` | Android_Java/log/src/mars-master/mars/boost/rational.hpp:523-526 | field-wise equality is equality of values |
| `Rational.RationalNumber.EqualsInt` | Android_Java/log/src/mars-master/mars/boost/rational.hpp:530-533 | equality with an integer |
| `Rational.SumInLowestTerms` | Android_Java/log/src/mars-master/mars/boost/rational.hpp:283-311 | the sum as computed is exact and in lowest terms |
| `Rational.ProductInLowestTerms` | Android_Java/log/src/mars-master/mars/boost/rational.hpp:333-345 | the product as computed is exact and in lowest terms |
| `Rational.NextCycle` | Android_Java/log/src/mars-master/mars/boost/rational.hpp:446-480 | with equal quotients the reciprocals of the remainders are ordered the other way, which the reverse flag accounts for |
| `Rational.Decide` | Android_Java/log/src/mars-master/mars/boost/rational.hpp:456-494 | different quotients decide, and so does the first expansion to end |
| `Rational.EqualityDecides` | Android_Java/log/src/mars-master/mars/boost/rational.hpp:523-526 | two fractions in lowest terms are equal only field by field |
| `Rational.IsNormalizedExact` | Android_Java/log/src/mars-master/mars/boost/rational.hpp:248-253 | the test accepts exactly the pairs with positive denominator in lowest terms |
| `Rational.InnerGcdIsGcd` | Android_Java/log/src/mars-master/mars/boost/rational.hpp:232-234 | the remainder recursion with truncating division gives the greatest common divisor up to sign |
| `NumberTheory.LowestTermsUnique` | Android_Java/log/src/mars-master/mars/boost/rational.hpp:240-241 | a value has one representation in lowest terms |
| `InvokeSequence.AlwaysOrdered` | Android_Java/rtmp/rtmp/librtmp/rtmp.c:3452-4072 | against any server and any failures: pending ids are distinct and increasing; every queued call is pending or completed, once, under its own name; publish never outnumbers answered createStream, nor createStream answered connect; each createStream follows its own answer to connect and each publish its own answer to createStream |
| `InvokeSequence.CausesGiveSequence` | Android_Java/rtmp/rtmp/librtmp/rtmp.c:4008-4056 | causes put the counts in sequence |
| `InvokeSequence.CallTracked` | Android_Java/rtmp/rtmp/librtmp/rtmp.c:5207-5223 | a call uses a fresh id and enters the table at its end |
| `InvokeSequence.RemovalTracked` | Android_Java/rtmp/rtmp/librtmp/rtmp.c:3998-4004 | an answer takes exactly its own call out |
| `InvokeSequence.ResultOrdered` | Android_Java/rtmp/rtmp/librtmp/rtmp.c:3993-4072 | handling a result keeps all of it |
| `InvokeClient.Live` | Android_Java/rtmp/rtmp/librtmp/rtmp.c:3452-4072 | the client over its array goes through the same life, every access in bounds |
| `InvokeClient.Client.QueueCall` | Android_Java/rtmp/rtmp/librtmp/rtmp.c:3474-3485 | a call is appended in bounds, the table growing by sixteen whenever its count is a multiple of sixteen |
| `InvokeClient.Client.EraseCall` | Android_Java/rtmp/rtmp/librtmp/rtmp.c:3453-3466 | the table closes up over the entry in bounds and the freed entry is cleared |
| `InvokeClient.Client.HandleResult` | Android_Java/rtmp/rtmp/librtmp/rtmp.c:3993-4072 | the first call waiting under the id leaves the table and connect, createStream, play and publish are followed up |
| `InvokeClient.Client.HandleError` | Android_Java/rtmp/rtmp/librtmp/rtmp.c:4110-4161 | an error completes its call; a challenged connect closes and connects again |
| `InvokeClient.Client.Send` | Android_Java/rtmp/rtmp/librtmp/rtmp.c:2592-2649 | an id is used up by every attempt; only a written call enters the table; a broken write closes the connection |
| `InvokeProgress.EveryAnswerFollowed` | Android_Java/rtmp/rtmp/librtmp/rtmp.c:3993-4056 | over every life in which all packets are written: each answered connect is followed at once by releaseStream, FCPublish and createStream, each answered createStream by a publish, so that as many createStream are called as connects were answered and as many publishes as createStreams |
| `InvokeProgress.StaysUpToDate` | Android_Java/rtmp/rtmp/librtmp/rtmp.c:3993-4056 | the same from any moment at which the client is up to date, such as any at which it is closed |
| `InvokeProgress.StreamRequested` | Android_Java/rtmp/rtmp/librtmp/rtmp.c:4018-4034 | the answer to connect takes the next three ids and leaves createStream waiting |
| `InvokeProgress.StreamCreated` | Android_Java/rtmp/rtmp/librtmp/rtmp.c:4049-4056 | the answer to createStream sets the stream id and leaves a publish waiting |
| `InvokeProgress.StreamIdIsLast` | Android_Java/rtmp/rtmp/librtmp/rtmp.c:4049-4052 | while the connection stays open the stream id is that of the last createStream answered |
| `InvokeProgress.PublishedPlays` | Android_Java/rtmp/rtmp/librtmp/rtmp.c:4068-4072 | the answer to publish, and the word that publishing has begun, make the client playing |
| `InvokeProgress.ChallengeStartsOver` | Android_Java/rtmp/rtmp/librtmp/rtmp.c:4137-4152 | a challenged connect leaves a new connection with one connect waiting under id 1 |
| `InvokeProgress.ShortestLife` | Android_Java/rtmp/rtmp/librtmp/rtmp.c:3993-4072 | the shortest life of a client down to its publish, entry by entry |
| `BlockTea.DecodeTEA` | Android_Java/rtmp/rtmp/librtmp/rtmp.c:5657-5671 | the loop over the words in place computes the block-TEA decryption, runs exactly 6 + 52 / n rounds, and for two words or more encryption gives the input back |
| `BlockTea.DecodeRound` | Android_Java/rtmp/rtmp/librtmp/rtmp.c:5663-5670 | one round from the last word to the first |
| `BlockTea.CipherInverse` | Android_Java/rtmp/rtmp/librtmp/rtmp.c:5657-5671 | decryption and encryption undo each other for every key and two words or more |
| `BlockTea.SumIsZeroOnlyAtEnd` | Android_Java/rtmp/rtmp/librtmp/rtmp.c:5661-5663 | the loop condition becomes false only after the last round, because DELTA is odd |
| `CipherRounds.TeaWord` | Android_Java/rtmp/rtmp/librtmp/rtmp.c:5654-5670 | what a word loses, said in bits of its two neighbours on the ring of words, of the sum and of the key word, with products and quotients for the shifts |
| `CipherRounds.KeyIndexBits` | Android_Java/rtmp/rtmp/librtmp/rtmp.c:5655-5666 | which key word, bit by bit |
| `CipherRounds.TeaRounds` | Android_Java/rtmp/rtmp/librtmp/rtmp.c:5657-5671 | the sums of the rounds fall from the number of rounds times the constant |
| `CipherRounds.TeaRound` | Android_Java/rtmp/rtmp/librtmp/rtmp.c:5663-5670 | the words of a round are decrypted from the last to the first, each on what the step before it left |
| `Ciphers.Rtmpe8Sig` | Android_Java/rtmp/rtmp/librtmp/handshake.h:337-362 | eight bytes are replaced in place by their encryption, the others kept |
| `Ciphers.Rtmpe8Rounds` | Android_Java/rtmp/rtmp/librtmp/handshake.h:347-351 | the round loop |
| `Ciphers.XteaBlockInverse` | Android_Java/rtmp/rtmp/librtmp/handshake.h:337-362 | on bytes, for every key, the cipher has a two-sided inverse |
| `Ciphers.XteaInverse` | Android_Java/rtmp/rtmp/librtmp/handshake.h:347-351 | on words and for any number of rounds |
| `CipherRounds.XteaRound` | Android_Java/rtmp/rtmp/librtmp/handshake.h:347-351 | what each half of a round adds to a word, said in bits of the other word, of the sum and of the key word the sum chooses |
| `CipherRounds.XteaRounds` | Android_Java/rtmp/rtmp/librtmp/handshake.h:337-362 | a block goes through 32 rounds, with the multiples of the constant from 0 on as sums |
| `Blowfish.BfEnc` | Android_Java/rtmp/rtmp/librtmp/handshake.h:603-627 | two words are replaced by their encryption, from which decryption gives them back |
| `Blowfish.CipherInverse` | Android_Java/rtmp/rtmp/librtmp/handshake.h:603-627 | for every key schedule the network has a two-sided inverse |
| `CipherRounds.BlowfishBoxes` | Android_Java/rtmp/rtmp/librtmp/handshake.h:600-627 | which byte of a word is looked up in which box, and what the four words found come to |
| `CipherRounds.BlowfishRound` | Android_Java/rtmp/rtmp/librtmp/handshake.h:603-627 | what one round leaves, as differences of the halves |
| `CipherRounds.BlowfishRounds` | Android_Java/rtmp/rtmp/librtmp/handshake.h:603-627 | sixteen rounds, key words in order, and the halves crossed over with the last two |
| `Handshake.BuildBlock` | Android_Java/rtmp/rtmp/librtmp/handshake.h:730-803 | time, version, random bytes, then key and digest: the recomputed positions are those written to, the key is where it is looked for, and the block verifies |
| `Handshake.RegionsApart` | Android_Java/rtmp/rtmp/librtmp/handshake.h:146-257 | in any block and layout the exit guards never fire, and key, digest and the bytes that choose their positions do not overlap |
| `Handshake.KeyMovesNothing` | Android_Java/rtmp/rtmp/librtmp/handshake.h:776-795 | writing the key moves neither position |
| `Handshake.DigestMovesNothing` | Android_Java/rtmp/rtmp/librtmp/handshake.h:798-803 | writing the digest moves neither position and the block then verifies under the same key, for any hash |
| `Handshake.OnlyRegionsChange` | Android_Java/rtmp/rtmp/librtmp/handshake.h:776-803 | nothing outside the two regions changes |
| `Handshake.CheckBlock` | Android_Java/rtmp/rtmp/librtmp/handshake.h:862-878 | a peer block is accepted if and only if it verifies in one of the two layouts, and then at the position returned |
| `Handshake.GetDHOffset` | Android_Java/rtmp/rtmp/librtmp/handshake.h:146-229 | position of the key from four bytes of the block |
| `Handshake.GetDigestOffset` | Android_Java/rtmp/rtmp/librtmp/handshake.h:174-257 | position of the digest from four bytes of the block |
| `Handshake.VerifyDigest` | Android_Java/rtmp/rtmp/librtmp/handshake.h:293-303 | compares the digest in place with the one computed |
| `Handshake.CalculateDigest` | Android_Java/rtmp/rtmp/librtmp/handshake.h:278-291 | hash of the block without its digest |
| `HandshakeCoverage.DigestCoversTheRest` | Android_Java/rtmp/rtmp/librtmp/handshake.h:278-291 | the message hashed has 1504 bytes and, with the digest put back at its place, is the block |
| `HandshakeCoverage.TamperingShows` | Android_Java/rtmp/rtmp/librtmp/handshake.h:278-303 | of two blocks with their digests in one place that differ at any byte outside, some keyed hash accepts one and refuses the other |
| `HandshakeCoverage.PositionsFromBytes` | Android_Java/rtmp/rtmp/librtmp/handshake.h:146-257 | the four positions as numbers of the bytes that choose them |
| `HandshakeCoverage.PositionsExact` | Android_Java/rtmp/rtmp/librtmp/handshake.h:146-257 | each position is possible exactly in its range |
| `HandshakeCoverage.FrontOfBlock` | Android_Java/rtmp/rtmp/librtmp/handshake.h:730-803 | the block begins with time and version, and its digest verifies in the layout of its kind |

## Left out

- Sockets, DNS, TLS, HTTP requests, SOCKS, clocks, sleeps and logging: the transport is a wire with a capacity, time and outcomes are parameters.
- `RTMP_SendPacket_reconnect` and reconnection: one send is one success or failure; the priority argument of `WriteN` is not modelled.
- In `Invoke` the call table takes name and id as sent; `RTMP_SendPacket` reads them from the body after sending, which `ChunkSession.SendCall` shows to be the same with the chunk sizes the program uses. What `RTMP_Close` tries to send on the way, over a transport that has just failed, is not modelled.
- The raw-chunk mode of the reader (`m_chunk`) and the state a failed read leaves behind: after a failure the connection is closed.
- The stream id of a packet is a signed field in the source; it is modelled as its 32-bit pattern. Body sizes are below 2^24, as the header can carry.
- Failing memory allocation everywhere, and freeing in cJSON and the queue; nodes and packets are garbage collected.
- ChangeState callbacks of the scheduler and the unused read of the audio key-frame time: neither affects what is sent or dropped.
- The drop counters are unbounded; in the source one is an `int` that is emptied into a 64-bit counter at every turn. The statistics thread that resets that counter is never started.
- `pAudioBuffer` and `pVideoBuffer` are never null in the thread, which returns at once otherwise.
- AMF3, dates and XML documents in AMF0, and the result of decoding malformed AMF beyond the recovery at end markers; a strict array whose length field is cut off counts as failure, and a negative remaining size as no bytes.
- JSON numbers with a fraction or an exponent, and integers beyond 32 bits in printing; reference flags; the list operations on trees. Sizes are unbounded integers, so that `pow2gt` cannot overflow.
- JsonParser.ParseWithOpts: a text that ends inside an escape, or a \u escape with fewer than four ordinary characters behind it, counts as failure, while `parse_string` goes on reading; so do numbers with a fraction or an exponent.
- JsonParser.ReadString: the same for a string that ends inside an escape.
- AmfBuffer.ValueDecode: the switch to AMF3 counts as failure.
- AmfRoundTrip.NamelessMemberLost: a null member with a name of 1280 bytes or more and an unnamed number that starts with a zero byte are left out, because the bytes that happen to follow can spell the member that was lost.
- ChunkLimits.MessageExact: on a channel that neither side has used, a compressed header is judged for a packet passed in without body bytes; what a half-read packet would be completed to is not stated.
- SchedulerLosses.UntimelyPutCanLose: stated where the newest time leaves room for two delay bounds below 2^32; `OrdinaryPutExact` likewise.
- ChunkSender.Sender.SendPacket: for a video packet the source reads the first body byte for the priority before it sends; without a body it crashes and with an empty one it reads past the end, while here the send goes on.
- SendThread.BufferControl.Control: a send that succeeds after reconnecting has gone through `RTMP_Init`, which sets the counter of dropped bytes to 0; here a send is one success or failure and the bytes counted are those of the whole run.
- AmfRoundTrip.TruncatedStrictArrayLost: stated for the bytes of the array alone, because bytes behind it can pass for the elements lost, and for kept elements in which no strict array lost elements itself.
- cJSON children are sequences: the doubly linked sibling list is not modelled.
- `integer::gcd` of Boost is not part of this model; the greatest common divisor is defined by Euclid's algorithm. Integer overflow of the rational's component type is not modelled.
- Transaction ids are unbounded integers. A connect packet supplied by the caller, players (play, pause, seek, FCSubscribe) and `RTMP_ReconnectStream`, which sends createStream on its own, are outside the publishing client.
- DecodeTEA: packing of the key, the hexadecimal input and the output bytes; the loop needs one word at least, as the source does.
- bf_setkey and the byte order of rtmpe9_sig: the network is a permutation for every schedule, so for the one it builds.
- SHA-256, HMAC, RC4, Diffie-Hellman, MD5 and base64: the hash is any function, the public key any 128 bytes.
- The rest of the handshake after the peer block is checked, and the plain handshake without digest.
- H.264, AAC and metadata packing, Java, JNI and OpenGL code, build files and the remaining headers: straight-line layout or no behaviour to prove.
