# Verified model of the bug monitoring system

A device with an accelerometer and a microphone client watch over a place; a server collects position
events and sound recordings; a web page shows them. This project models the parts of that system where
several pieces have to agree, and proves what holds over whole runs.

**Sound.** The client's noise gate (`NoiseGate.dfy`, `AudioClient.dfy`) decides which samples are recorded.
A sink cuts them into 512-sample packets (`Packetizer.dfy`). The network may drop any packet and repeat
any packet (`AudioDelivery.dfy`). The server binds a client's address to a device (`AudioServer.dfy`) and
keeps one writer per recording identifier, each with a file and, in the end, one event
(`AudioHandler.dfy`, `AudioFiles.dfy`). `AudioPipeline.dfy` joins all of it, from raw samples to files;
`LateBinding.dfy` follows a client whose first description is lost.

**Position.** The device samples its accelerometer, gates it, integrates it and sends position events
(`PositionTracker.dfy`); `Episodes.dfy` says what the readings alone decide, `Motion.dfy` how far the integration
can be trusted. Events are written into a byte buffer on the device and read by the
server in another language (`EventCodec.dfy`, `EventTimes.dfy`). A callback queue resends and reconnects
until the server has acknowledged (`TcpClient.dfy`, `TcpProgress.dfy`), and the wireless module counts
errors (`Wifi.dfy`).

**Web page.** A calendar grid and the events counted into it (`Calendar.dfy`, `EventCount.dfy`), and the
index of labels that each stored device carries (`LabelIndex.dfy`).

Where the code changes state step by step, the model has a class (or a method on an array) whose methods
are proved against a pure step function; the properties are lemmas about that function, over all runs.

## What the code does that its documentation does not say

The model follows the code. These are consequences of it, each with its exact condition:

- The first 512 samples of every recording are never written to its file: a fresh writer's number is 0,
  and only larger numbers are written (`AudioDelivery.DeliveredSamples`, `AudioDelivery.LosslessLaw`).
- A recording whose length is a multiple of 512 is not ended, and neither is the one in progress at the
  first end of all; what follows goes under the same identifier (`Packetizer.WhenAnEndIsSent`).
- Without loss a file holds everything after its first 512 samples if and only if the recording has at
  most 2^41 samples, because sequence numbers have 32 bits, and all these samples can be stored
  (`AudioDelivery.LosslessLaw`).
- Unsigned samples above 32767 cannot be stored, although an unsigned signal rests at 32768. A chunk with
  such a sample is stored up to it, does not count as received, and is stored anew by every copy; a
  recording at rest writes nothing (`AudioFiles.UnsignedChunks`, `AudioDelivery.SecondCopyIsIdle`).
- The end of capture does not finish the recording under way if the gate has never closed before
  (`AudioClient.CaptureEnds`).
- A chunk that arrives behind its end packet truncates the finished file, and an identifier can then have
  more than one event (`AudioFiles.HandlerFinishes`, `AudioFiles.LateChunkTruncates`).
- A client with 16-bit samples whose description is lost is not asked for it by its chunks, which the
  server cannot decode, but only by its end packets (`AudioServer.HandshakesPerFormat`).
- A 16-bit threshold at the smallest signed value makes every sample loud (`AudioClient.BelowThresholdMeaning`,
  for silence `AudioClient.SilenceCanBeLoud`).
- A device at full deflection, sampled every 30 milliseconds, wraps its velocity after 537150 milliseconds,
  and its position, from the origin, after 327750 (`Motion.LimitsAreSharp`).
- Of the sends that fail between two connects only the first is reported to the wireless module
  (`TcpClient.LogsAreExact`).
- Every stored time of an event is late by the device's uptime at its synchronisation, less at most a second:
  the offset is the time of synchronisation, and uptimes are added to it (`EventTimes.StoredIsLate`,
  `EventTimes.SynchronisedAfterAMinute`).
- The sums of offset and uptime are stored if and only if neither is zero in whole seconds, short of a
  coincidence (`EventTimes.WhenTimesAreKept`); with a synchronised clock they always are. A device
  without a synchronised clock gets the substitute for events of its first second only, and an event that
  straddles it can lose its duration; all later ones are stored as instants of 1970
  (`EventTimes.Unsynchronised`, `EventTimes.EarlyEventLosesItsDuration`).
- Events of other years are counted too, on the day whose cell they land in; a cell shows the number of
  events of its day if and only if none lands there (`EventCount.WhenTheCountIsRight`). 31 December 2020 is
  counted on 30 December 2021 (`EventCount.StrayAndMissing`).
- An event of another year raises an exception while events are counted exactly when it falls on the last
  day of a year with 54 rows and the selected year has 53 (`EventCount.WhenTheCellIsMissing`), such as
  31 December 2000 in 2021 (`EventCount.StrayAndMissing`).
- A device's label index misses exactly the labels that were stored before the device and have not been
  carried by an action since (`LabelIndex.IndexCompleteness`, `LabelIndex.LabelsFirstLeavesAGap`).

## Model

| member | source | states |
|---|---|---|
| NoiseGate.GateClosedForm | backend/audio-client/src/noise_gate.rs:63-116 | A gate that starts closed records position i exactly when a loud sample lies at most release + 1 positions before it (or is it), and announces the end exactly release + 2 positions after the last loud sample. |
| NoiseGate.BlocksCompose | backend/audio-client/src/noise_gate.rs:63-78 | Cutting the stream into blocks changes neither the final state nor any signal. |
| NoiseGate.StateSinceLoud | README.md:97-118 | From any state, only the distance to the last loud sample decides the gate's state. |
| AudioClient.BelowThresholdMeaning | backend/audio-client/src/noise_gate.rs:126-144 | Below the threshold means strictly nearer to the equilibrium, which is 0, or 32768 for unsigned samples, than the threshold, which must not be the smallest 16-bit value. |
| AudioClient.SilenceCanBeLoud | backend/audio-client/src/noise_gate.rs:126-144 | Silence is loud at that threshold in both 16-bit formats, but neither at the next one nor with float samples. |
| AudioClient.StreamClosedForm | backend/audio-client/src/noise_gate.rs:63-78 | The calls on the sink over a whole stream are those prescribed by the release window alone. |
| AudioClient.StreamOpsCompose | backend/audio-client/src/main.rs:404-411 | Two blocks in turn cause the calls of the joined block. |
| AudioClient.SampleGate.NextState | backend/audio-client/src/noise_gate.rs:80-116 | The in-place transition is the machine's. |
| AudioClient.SampleGate.ProcessSample | backend/audio-client/src/noise_gate.rs:64-77 | One sample makes the call on the sink that the machine's signal prescribes, or none. |
| AudioClient.SampleGate.Process | backend/audio-client/src/noise_gate.rs:63-78 | The loop leaves the sink in the state that the stream's calls lead to, in order. |
| AudioClient.AudioSink.constructor | backend/audio-client/src/main.rs:296-306 | A buffer of default samples, nothing sent, no end seen. |
| AudioClient.AudioSink.WriteSpec | backend/audio-client/src/main.rs:308-319 | Sends the secret and the description, nothing else changes. |
| AudioClient.AudioSink.WritePayload | backend/audio-client/src/main.rs:321-336 | Sends all 512 cells with the position truncated to a byte, replaces the buffer by one of default samples, advances the 32-bit number. |
| AudioClient.AudioSink.WriteEof | backend/audio-client/src/main.rs:338-349 | Sends the end packet and moves to a fresh identifier. |
| AudioClient.AudioSink.Record | backend/audio-client/src/main.rs:357-363 | Stores in place and sends when the buffer is full. |
| AudioClient.AudioSink.EndOfTransmission | backend/audio-client/src/main.rs:365-374 | The first end only sets the flag; later ones flush a buffer that is not empty. |
| AudioClient.AudioCollector.Handle | backend/audio-client/src/main.rs:387-452 | Start, blocks, end of capture and packets from the server lead to exactly their sink calls; packets of other senders to none. |
| AudioClient.OnlyTheStreamCounts | backend/audio-client/src/main.rs:404-452 | Block boundaries and requests for the description have no bearing on which samples belong to which identifier. |
| AudioClient.CaptureEnds | backend/audio-client/src/main.rs:413-416 | The end of capture, behind which only packets come, finishes the recording under way unless it lies on a chunk boundary or the gate has never closed before. |
| AudioClient.DescriptionsAnswer | backend/audio-client/src/main.rs:396-450 | Over every run of inputs the client sends its description exactly once for each start and once for each handshake of its own server. |
| Packetizer.PacketizerClosedForm | backend/audio-client/src/main.rs:321-374 | Over every sequence of calls, the buffer, position, identifier, number, flag and the full list of packets are a closed form of the recorded samples: chunks 0, 1, 2, .. of each identifier without a gap, the end packet last, right behind the only chunk that is not full. |
| Packetizer.WhenAnEndIsSent | backend/audio-client/src/main.rs:365-374 | An end sends the last chunk and the end packet if and only if an end has come before and the samples since the last end packet do not fill whole chunks. |
| Packetizer.PacketizerConserves | backend/audio-client/src/main.rs:321-374 | The unpadded chunks of all identifiers and the filled part of the buffer add up to all recorded samples, in order. |
| Packetizer.SplitConserves | backend/audio-client/src/main.rs:357-374 | The identifiers partition the recorded samples. |
| AudioHandler.AudioWriter.constructor | backend/src/actor/audio_handler.rs:30-38 | An empty file, number 0, started now. |
| AudioHandler.AudioWriter.Write | backend/src/actor/audio_handler.rs:40-61 | Appends the payload of a strictly larger number up to the first sample that does not convert, takes the number over if there is none, refuses after finalisation. |
| AudioHandler.AudioWriter.FinalizeAsNewEvent | backend/src/actor/audio_handler.rs:63-79 | Yields the event once, then nothing. |
| AudioHandler.Actor.WriterFor | backend/src/actor/audio_handler.rs:124-135 | Finds the writer or creates one, truncating the file of that name. |
| AudioHandler.Actor.Handle | backend/src/actor/audio_handler.rs:116-160 | One message takes the table of writers, the files and the events to the next state of the machine. |
| AudioHandler.Actor.HandleEnd | backend/src/actor/audio_handler.rs:147-154 | Takes the writer out and finalises it; a second end does nothing. |
| AudioHandler.Actor.FinalizeWriter | backend/src/actor/audio_handler.rs:162-167 | One event, from the start of the writer to now, and the finished file. |
| AudioHandler.Actor.FinalizeAll | backend/src/actor/audio_handler.rs:169-183 | Draining amounts to one end for every live identifier, each once, in some order, and leaves no writer. |
| AudioFiles.RunProjects | backend/src/actor/audio_handler.rs:116-160 | Identifiers do not disturb one another. |
| AudioFiles.LiveFileIsRunningMaxima | backend/src/actor/audio_handler.rs:40-61 | Under any loss, duplication and reordering a live file is what can be stored of the chunks whose numbers exceed 0 and all complete ones before them, the strict running maxima when all samples convert; the writer's number is the maximum of the complete ones. |
| AudioFiles.HandlerFileIsRunningMaxima | backend/src/actor/audio_handler.rs:116-160 | The same over every run of the handler; a writer exists exactly when chunks have come since the last end. |
| AudioFiles.RedeliveryIsIgnored | backend/src/actor/audio_handler.rs:47-56 | A number that is not above one already delivered in a complete chunk changes nothing at all. |
| AudioFiles.UnsignedChunks | backend/src/actor/audio_handler.rs:48-54 | A chunk of an unsigned signal at rest changes nothing, and one that leaves the signed range after its first sample has that sample stored by every copy. |
| AudioFiles.PayloadsConvert | backend/src/actor/audio_handler.rs:48-54 | No file holds a sample that does not convert. |
| AudioFiles.RecordsAreSelection | backend/src/actor/audio_handler.rs:47-56 | The written chunks are delivered ones, never number 0, and each exceeds every complete one before it; so each is written once, in increasing number, when all samples convert. |
| AudioFiles.TrackFinishes | backend/src/actor/audio_handler.rs:147-167 | Under any loss, duplication and reordering, an identifier's events are the ends that found chunks, and its finished file is what the last of them closed, as long as no chunk has come since. |
| AudioFiles.HandlerFinishes | backend/src/actor/audio_handler.rs:116-167 | The same for the handler's table of files and its events, over every run. |
| AudioFiles.LateChunkTruncates | backend/src/actor/audio_handler.rs:124-135 | A chunk behind its end packet truncates the finished file, and the next end makes one more event. |
| AudioFiles.WriterAccounting | backend/src/actor/audio_handler.rs:116-167 | Writers ever created are live or have sent exactly one event, and every event names the handler's device. |
| AudioFiles.StartedByItsFirstChunk | backend/src/actor/audio_handler.rs:30-38 | A live writer started when the first chunk since the last end came. |
| AudioFiles.EventsAreEndings | backend/src/actor/audio_handler.rs:63-79 | Over every run of arrivals, events and end packets that found chunks correspond one to one and in order; each event has the identifier of its end, ends when it came, starts when the first chunk since the end before came, and names the device. |
| AudioFiles.EndingsAreAll | backend/src/actor/audio_handler.rs:147-167 | These ends are all end packets that found chunks of their identifier, each once. |
| AudioFiles.EventsSpanForward | backend/src/actor/audio_handler.rs:63-79 | No event ends before it starts when the clock does not run backwards. |
| AudioFiles.StoppingEmpties | backend/src/actor/audio_handler.rs:169-197 | Stopping leaves no writer and sends one event for each, which ends at that time, with its file complete. |
| AudioServer.Actor.Handle | backend/src/actor/audio_server.rs:159-190 | A table of handler objects, none of which shares a writer with another, goes to the next state of the machine with every datagram. |
| AudioServer.Actor.NewHandler | backend/src/actor/audio_server.rs:100-135 | Starts a handler object of the found device and leaves all others as they are; without a device nothing happens. |
| AudioServer.Actor.Forward | backend/src/actor/audio_server.rs:163 | The bound client's handler handles the datagram, and no other handler changes. |
| AudioServer.BindingDecides | backend/src/actor/audio_server.rs:159-190 | The first valid description binds the address for good; its handler receives exactly the later datagrams of that address. |
| AudioServer.EventsBelongToTheBoundDevice | backend/src/actor/audio_server.rs:100-135 | An address has a handler exactly when it sent a valid description; all its events carry the device that one named, and writers are accounted for. |
| AudioServer.HandshakesGoToStrangers | backend/src/actor/audio_server.rs:175-183 | A handshake is sent exactly for a datagram of an unbound client that decodes as something else than a description. |
| AudioServer.HandshakesPerFormat | backend/src/actor/audio_server.rs:164-187 | A client with float samples is asked at each of its chunks, one with 16-bit samples at its end packets only, because its chunks are too short to decode. |
| AudioDelivery.SecondCopyIsIdle | backend/src/actor/audio_handler.rs:116-160 | A repeated packet right behind the first changes nothing, if and only if the first was not a chunk that could be stored in part only. |
| AudioDelivery.EndToEnd | backend/src/actor/audio_handler.rs:40-160 | Whatever number of copies of each single transmission arrives, once the end packet is through: exactly one event if any chunk came through and none otherwise; the file is made of what arrived, and below the wrap of the sequence numbers it is the delivered chunks above 0, each once, in recording order, if and only if these can be stored. |
| AudioDelivery.DeliverCollapses | backend/src/actor/audio_handler.rs:116-160 | Copies in a row count once when the repeated chunks can be stored. |
| AudioDelivery.ChunksFollow | backend/src/actor/audio_handler.rs:40-61 | The writer receives exactly the delivered chunks with their copies, however many there are. |
| AudioDelivery.RecordsWithoutWrap | backend/src/actor/audio_handler.rs:47-56 | Below the wrap the file is every delivered chunk but chunk 0, once, if and only if their samples convert. |
| AudioDelivery.StillOpen | backend/src/actor/audio_handler.rs:40-61 | Without the end packet there is no event, and the writer holds what the delivered chunks make of it. |
| AudioDelivery.NothingUnsent | backend/src/actor/audio_handler.rs:116-160 | Nothing exists on the server for identifiers the client has not reached. |
| AudioDelivery.LastArrivalsDeliver | backend/src/actor/audio_server.rs:162-190 | Somebody who hears the last arrivals only hears the client's transmissions with fewer copies. |
| AudioDelivery.LastArrivalsCut | backend/src/actor/audio_server.rs:162-190 | That is nothing of the transmissions before some one, perhaps fewer copies of that one, and all behind it as they were delivered. |
| AudioDelivery.LosslessFile | backend/audio-client/src/main.rs:321-374 | Without loss, for recordings of any length: one event, and the padded samples from index 512 up to where numbers wrap, if and only if these can be stored. |
| AudioDelivery.LosslessLaw | backend/audio-client/src/main.rs:321-374 | Without loss the file holds everything after the first 512 samples if and only if the recording fits 32-bit numbers and all these samples can be stored. |
| AudioPipeline.StreamToFile | backend/audio-client/src/main.rs:404-417 | From captured samples to files: every finished recording, told by the release window alone, gets one event, and its padded samples after the first 512 if and only if it fits 32-bit numbers and these samples can be stored. |
| AudioPipeline.RecordingIsComplete | backend/audio-client/src/noise_gate.rs:63-78 | The recordings together hold exactly the samples that have a loud one in their release window. |
| AudioPipeline.HeardArrives | backend/src/actor/audio_server.rs:159-190 | A handler hears its client's transmissions from the first valid description on, that one excepted. |
| AudioPipeline.ServerEndToEnd | backend/src/actor/audio_server.rs:159-190 | The end-to-end guarantee on the server with many clients, attributed to the bound device and in the format of its description: what comes up to the binding counts as lost. |
| LateBinding.LostDescription | backend/src/actor/audio_server.rs:164-183 | For every client with float samples and every run of its inputs, whose start-up description is lost while everything else arrives: each packet is answered by a handshake until the client answers the first one that reaches it, that answer binds the client, and the guarantee applies. |
| LateBinding.AnswersFirstHandshake | backend/audio-client/src/main.rs:443-450 | Before it is asked a client sends no description but that of its start; its next packet after the handshake is the answer, its own description. |
| LateBinding.LateBindingExample | backend/src/actor/audio_server.rs:164-183 | Such a run with two handshakes and two answers, the second of which reaches the handler: the file is what was recorded behind the binding. |
| PositionTracker.NoiseGate.NextState | bug/src/noise_gate.h:41-64 | The device's gate, with its separate and possibly stale counter, refines the same machine for any loudness. |
| PositionTracker.NoiseGate.Process | bug/src/noise_gate.h:27-36 | The sink is to receive exactly the machine's signal. |
| PositionTracker.Device.Record | bug/src/tracker_position.h:115-123 | Opens an event from the current position at rest, then integrates. |
| PositionTracker.Device.ApplyVelocityAndPosition | bug/src/tracker_position.h:49-67 | Each axis of velocity, then of position, in 32-bit arithmetic with truncating division. |
| PositionTracker.Device.EndOfRecord | bug/src/tracker_position.h:126-143 | Sends the event unless nothing moved, and forgets it. |
| PositionTracker.Device.SampleCallback | bug/src/tracker_position.h:106-109 | One sample takes the tracker to the next state of the machine. |
| PositionTracker.EventsChain | bug/src/tracker_position.h:115-143 | Over every run the unexpected call never happens, events chain from the origin without a gap although episodes without net movement are not sent, and with the gate closed they add up to the position. |
| PositionTracker.RunConsistent | bug/src/tracker_position.h:115-143 | An event is under construction exactly while the gate is open. |
| PositionTracker.RunSamples | bug/src/tracker_position.h:36-47 | Over every run the last two samples are the last two readings, less the bias in 16 bits on each axis, with their times. |
| PositionTracker.EventsInOrder | bug/src/tracker_position.h:115-137 | Events start before they end and after the previous one has ended. |
| Episodes.OpenWhileMoving | bug/src/tracker_position.h:31-34 | Over every run the gate is open if and only if one of the last release + 2 readings is more than 10 away from the bias on some axis. |
| Episodes.EpisodesAreAll | bug/src/noise_gate.h:27-64 | The episodes of a run are all pairs of a tick that opens the gate and the one that next closes it, each once and one after the other. |
| Episodes.EventsAreEpisodes | bug/src/tracker_position.h:115-143 | Over every run the events sent are exactly those of the episodes that lead to another place, in order: from the position before the reading that opens the gate to the one at its closing, between the times of these two ticks. |
| Motion.SampleExact | bug/src/tracker_position.h:36-55 | With readings below 2000 no 16-bit operation overflows. |
| Motion.EpisodeBounds | bug/src/tracker_position.h:49-67 | T milliseconds into an episode of any run whose samples are at most a gap apart, the velocity is that of unbounded integers computed from readings and bias and at most 3998 T per axis up to T = 537139, and the position is that of unbounded integers with a displacement of at most 3998 T (T + gap) / 200000 per axis as long as there is that much room; every sent event is bounded alike. |
| Motion.CourseIntegrates | bug/src/tracker_position.h:49-67 | Over every run, n samples and T milliseconds into an episode, twice the velocity of unbounded integers is within 3 T + n of twice the area under the readings by the trapezoid rule, and 100000 times the displacement within 99999 n of the path at these velocities. |
| Motion.SomeGapWillDo | bug/src/tracker_position.h:49-67 | Every run has such a gap; without one to rely on the displacement is at most 3998 T^2 / 100000. |
| Motion.RoomLimit | bug/src/tracker_position.h:64-66 | From the origin there is room for exactly 327746 milliseconds of samples at most 30 apart, for exactly 231762 with any gaps, and from elsewhere for no more. |
| Motion.VelocityBound | bug/src/tracker_position.h:57-62 | The 32-bit velocity update is exact and keeps its bound. |
| Motion.PositionBound | bug/src/tracker_position.h:64-66 | The 32-bit position update is exact and keeps its bound under truncating division. |
| Motion.LimitsAreSharp | bug/src/tracker_position.h:49-67 | Sampled every 30 milliseconds at full deflection, the velocity wraps with the sample at 537150 and the position with the one at 327750 milliseconds, and neither with the sample before. |
| EventCodec.RoundTrip | backend/event/src/codec.rs:13-31 | All three kinds of event decode to themselves, whatever bytes follow. |
| EventCodec.PrefixFails | backend/event/src/codec.rs:13-23 | No strict prefix of a frame decodes. |
| EventCodec.DecodesExactlyFrames | backend/event/src/codec.rs:13-23 | Bytes decode to an event if and only if they begin with its frame and its fields have their types. |
| EventCodec.LEOfFromLE | bug/src/bug_event.h:37-42 | Reading little-endian bytes is the inverse of writing them, for any width. |
| EventCodec.HeaderLayout | backend/event/src/event.rs:54-95 | The header bytes of the event test vectors. |
| EventCodec.SoundLayout | backend/event/src/event.rs:58-66 | The length prefix and text of the sound vector. |
| EventCodec.PositionLayout | backend/event/src/event.rs:66-93 | The payload bytes of the position vector. |
| EventCodec.LuminosityLayout | backend/event/src/event.rs:94-114 | The payload bytes of the luminosity vector. |
| EventCodec.DecodeBuffer | backend/event/src/codec.rs:13-23 | Decodes one event and empties the buffer, whether or not it decodes. |
| EventCodec.EncodeInto | backend/event/src/codec.rs:28-31 | Appends the frame to the buffer. |
| EventCodec.EncodeLittleEndian4 | bug/src/bug_event.h:37-42 | Four bytes in place, two's complement, the rest of the buffer untouched. |
| EventCodec.EncodeBug | bug/src/bug_event.h:48-85 | The device writes byte for byte what the server's encoder would, the server reads from it the secret, the payload as given, and the sums of clock offset and milliseconds, and the rest of the buffer is left alone. |
| EventCodec.Frame | bug/src/client_bug_event.h:32-36 | Frames are exactly 60 or 44 bytes, fit the 128-byte buffer, and are read as what was to be sent. |
| EventCodec.CrossLanguageRoundTrip | bug/src/bug_event.h:48-85 | The server reads from the device's frame this secret, a position event with `from` and `to` or a luminosity event with `low` and `high`, and the sums of clock offset and milliseconds; and nothing from any strict prefix. |
| EventCodec.DeviceVectors | backend/event/src/event.rs:42-114 | For the events of the server's test vectors the device's frames are these vectors. |
| EventTimes.OffsetIsExact | bug/src/bug_event.h:50-53 | Splitting into seconds and nanoseconds loses nothing, stays below a second and keeps the order. |
| EventTimes.StoreKeeps | backend/src/actor/db/event.rs:88-122 | Kind, payload and device of a record are the event's, for all three kinds. |
| EventTimes.StoredIsExpected | backend/src/actor/db/event.rs:88-122 | With a synchronised clock kind, payload and the sums of clock offset and uptime of either kind of event reach the database undistorted. |
| EventTimes.StoredIsLate | bug/src/wifi.h:102-132 | For every run of synchronisation attempts, stored times are later than the real ones by the uptime at the first answered attempt, less the part of a second that the answer leaves out; they are right if and only if that uptime is below a second and the start fell on a full one. |
| EventTimes.SynchronisedAfterAMinute | bug/src/wifi.h:102-132 | A device synchronised a minute after its start stores all times a minute late. |
| EventTimes.WhenTimesAreKept | backend/src/actor/db/event.rs:90-96 | The sums of offset and uptime are stored if and only if neither is zero in whole seconds, or the substitute happens to be right. |
| EventTimes.Unsynchronised | backend/src/actor/db/event.rs:90-122 | With no offset yet, the substitute is taken if and only if the event starts or ends within the first second; otherwise the milliseconds since start-up are stored as if since 1970. |
| EventTimes.EarlyEventLosesItsDuration | backend/src/actor/db/event.rs:90-122 | An event across the first second of a device without a synchronised clock is stored with no duration. |
| EventTimes.StoredInOrder | bug/src/tracker_position.h:115-137 | Over every run of the tracker the stored events keep the sums of offset and uptime, and their order. |
| TcpClient.Device.constructor | bug/src/client_tcp.h:23-31 | Starts with one delayed connect, no socket and the flag down. |
| TcpClient.Device.ConnectSocketCallback | bug/src/client_tcp.h:49-88 | Any number of failed rounds, each reported if it has an error, then success clears the flag. |
| TcpClient.Device.SendCallback | bug/src/client_tcp.h:90-135 | Frees after an acknowledged send; otherwise queues a connect unless one is on its way, and queues the buffer again. |
| TcpClient.Device.Submit | bug/src/client_bug_event.h:32-36 | A fresh buffer goes to the end of the queue. |
| TcpClient.RunInv | bug/src/client_tcp.h:49-135 | In every reachable state of every interleaving: the flag has a connect behind it in the queue, at most two connects are pending counting the start-up one, every submitted buffer is pending once or freed once, what is freed was sent, and the connected test never answers yes without a socket. |
| TcpClient.FreedWasAcknowledged | bug/src/client_tcp.h:101-115 | A buffer is freed at most once, only after both calls of a send succeeded over a link that was up, and nothing pending refers to it. |
| TcpClient.FlagMeans | bug/src/client_tcp.h:83-131 | In every reachable state the connecting flag says exactly that a send has failed since the client last connected. |
| TcpClient.LogsAreExact | bug/src/client_tcp.h:49-135 | Over every run the errors reported are exactly those of failed attempts to open or connect and of the first failing send since the last connect, the buffers on the wire those whose first call succeeded, and the freed ones those that were answered, in order. |
| TcpProgress.StepApproaches | bug/src/client_tcp.h:49-135 | On a working network no action leads a buffer away from its release and every action of the dispatching thread leads it closer, in a lexicographic measure. |
| TcpProgress.NeverStuck | bug/src/client_tcp.h:49-135 | The dispatching thread always has something to do while a buffer is pending. |
| TcpProgress.EventuallyFreed | bug/src/client_tcp.h:49-135 | From any reachable state, once everything succeeds and the thread acts when it has something to do, every submitted buffer is freed in finitely many steps, whether or not others are still submitted. |
| TcpProgress.AllEventuallyFreed | bug/src/client_tcp.h:49-135 | There is a point at which all of them are freed. |
| TcpProgress.AllStayFreed | bug/src/client_tcp.h:112-115 | What is freed stays so. |
| TcpProgress.QuietRun | bug/src/client_tcp.h:49-135 | A run with a failed sending, a reconnect, the start-up connect and a single submission meets these hypotheses. |
| Wifi.SlotsAreApart | bug/src/wifi.h:22 | Indices stay within 0..20; the codes -3020 to -3001 have a slot of their own, all others share slot 20, and slot 11 is that of -3012. |
| Wifi.StepConserves | bug/src/wifi.h:60-73 | Any interleaving of reporters with spurious exchange failures keeps counter plus three reconnects equal to the errors reported, modulo 2^32. |
| Wifi.RunConserves | bug/src/wifi.h:60-73 | Over every run, exactly equal until 2^32 errors. |
| Wifi.ReportsAlone | bug/src/wifi.h:60-73 | n reports one at a time give (n-1)/3 reconnects and a counter of 1, 2 or 3. |
| Wifi.Wireless.ReportError | bug/src/wifi.h:60-73 | One undisturbed report is the machine's two atomic operations in a row. |
| Wifi.Wireless.SyncTimestamp | bug/src/wifi.h:102-132 | Takes the offset to its next value and reports the server's error when there is no offset yet. |
| Wifi.OffsetIsFirstAnswer | bug/src/wifi.h:102-132 | Over every run of attempts the offset is the first positive answer and never changes again; it is 0 until then. |
| Calendar.IndexIsSequential | frontend/util/day/pluginWeekAndDayOfYear.ts:13-23 | The division is exact, the index lies in the grid, and the cells of successive days follow one another. |
| Calendar.IndexIsInjective | frontend/util/day/pluginWeekAndDayOfYear.ts:13-23 | Different days have different cells. |
| Calendar.CellOfDay | frontend/util/day/pluginWeekAndDayOfYear.ts:13-23 | Which day a cell belongs to, if any. |
| Calendar.WeekCountIsCeiling | frontend/util/day/pluginCalendar.ts:56 | 53 or 54 is the number of weeks the year touches. |
| Calendar.FillUnixMilli | frontend/util/day/pluginCalendar.ts:26-45 | The nested loops fill exactly the cells of the year with the times of their days and leave the others 0. |
| Calendar.CalendarOfTimes | frontend/util/day/pluginCalendar.ts:52-76 | The filled grid and the index formula agree on every day of every year; only days' cells are filled. |
| EventCount.FillEventCount | frontend/components/Event/EventCalendar.tsx:21-27 | Succeeds if and only if every event has a cell, and then each day's cell holds the events of that day and those of other years that land there, and every cell the number of events that land in it. |
| EventCount.WhenTheCountIsRight | frontend/components/Event/EventCalendar.tsx:21-27 | A cell holds the number of events of its day if and only if no event of another year lands there; events of the selected year alone are always counted on their days. |
| EventCount.StrayAndMissing | frontend/components/Event/EventCalendar.tsx:21-27 | The last days of 2020 and 2000 seen from 2021: one is counted on another day, the other has no cell. |
| EventCount.WhenTheCellIsMissing | frontend/components/Event/EventCalendar.tsx:24-25 | Events of the selected year always have a cell; which others have none. |
| EventCount.GridTotal | frontend/components/Event/EventCalendar.tsx:21-27 | The grid adds up to the number of events. |
| EventCount.PaddingStaysZero | frontend/components/Event/EventCalendar.tsx:21-27 | Padding cells stay 0. |
| EventCount.OrderDoesNotMatter | frontend/components/Event/EventCalendar.tsx:21-27 | The order of the list has no bearing on any cell. |
| LabelIndex.StepSound | frontend/store/device/slice.ts:80-114 | Every action keeps each index free of repetitions and naming only stored labels of its device. |
| LabelIndex.RunSound | frontend/store/label/saga.ts:13-78 | The same over every run. |
| LabelIndex.StepMissing | frontend/store/device/slice.ts:80-114 | An action makes up for exactly the labels it carries. |
| LabelIndex.IndexCompleteness | frontend/store/label/saga.ts:13-78 | An index misses exactly the labels stored before its device and not carried since, so it is complete if and only if there are none. |
| LabelIndex.StoredLabels | frontend/store/label/slice.ts:50-78 | Over every run a label is stored if and only if it was created or fetched and not deleted since, or was there at the beginning and never deleted. |
| LabelIndex.StoredDevices | frontend/store/device/slice.ts:80-114 | The same for devices. |
| LabelIndex.CreatedIsIndexed | frontend/store/label/saga.ts:28-39 | A label that is created or fetched while its device is stored is in the table and in the device's index, until one of them is removed. |
| LabelIndex.AddedGoBehind | frontend/store/device/slice.ts:88-91 | Added labels go behind those that an index already lists. |
| LabelIndex.UniqInOrder | frontend/store/device/slice.ts:88-91 | A list without repetitions keeps the order of first occurrences. |
| LabelIndex.LabelsFirstLeavesAGap | frontend/store/label/saga.ts:49-64 | Fetching labels before devices leaves an index incomplete. |
| LabelIndex.Slices.PutLabels | frontend/store/label/slice.ts:53-69 | Adds what is new and keeps what is stored. |
| LabelIndex.Slices.PutDevicesLabels | frontend/store/device/slice.ts:80-98 | For labels keyed by device: every stored device among the keys gets its labels appended without repetitions, all others stay as they are. |
| LabelIndex.Slices.RemoveDevicesLabels | frontend/store/device/slice.ts:99-114 | The same for labels that are filtered out. |
| LabelIndex.Slices.UpdateMany | frontend/store/device/slice.ts:96 | Updates existing entries and passes over the others. |
| LabelIndex.ListUniq | frontend/store/device/slice.ts:88-91 | The loop keeps first occurrences only. |
| LabelIndex.Filter | frontend/store/device/slice.ts:103-110 | The loop keeps what is not deleted, in order. |
| LabelIndex.GroupByDeviceId | frontend/store/label/saga.ts:11 | Every label is in the group of its device, in order, and there are no empty groups. |
| LabelIndex.Slices.CreateLabel | frontend/store/label/saga.ts:28-39 | The two reducers in a row are one step of the store, with the label keyed by its device. |
| LabelIndex.Slices.FetchLabels | frontend/store/label/saga.ts:49-64 | Grouping the labels and running both reducers is one step of the store. |
| LabelIndex.Slices.DeleteLabel | frontend/store/label/saga.ts:66-78 | Filtering the index and removing the label is one step of the store. |

## Left out

- AudioDelivery.EndToEnd: repeated copies of a packet arrive in a row; delivery in any order is covered by `AudioFiles.HandlerFileIsRunningMaxima` and `AudioFiles.HandlerFinishes`.
- Motion.EpisodeBounds: 64-bit durations and products are unbounded integers, because they exceed 64 bits only after millions of years.
- Calendar.IndexIsSequential: the weekday of 1 January, the leap flag and the day of the year are inputs; daylight-saving shifts and the date library are not modelled.
- Sample values are real numbers, so a not-a-number float sample is not modelled; WAV encoding and file errors are not either, among them the WAV library's refusal to finish a file whose last frame lacks a channel.
- Integer overflow follows release builds (wrap-around), where debug builds would panic.
- Identifiers are numbers drawn in order, which stands for the freshness of version 4 identifiers.
- Audio capture, the waker thread, the ring buffer between them, and the ten milliseconds between the end of capture and the collector's stop.
- The mailboxes of the server's actors: a message is handled as soon as it is sent.
- Stopping of a handler by the actor system, beyond what it does to its writers.
- The text test of the sound event's file name is a parameter; UTF-8 itself is not modelled.
- The callback queue's order is FIFO and its allocation never fails; the start-up connect may fire at any time.
- The wireless module's own connecting and retrying, and the time server's protocol.
- The accelerometer driver; its start-up order before the first sample is taken as given.
- The device's gate hands its signal back to the tracker, which makes the call, where the original calls the tracker through an interface.
- Three-element integer arrays of the tracker are values that are replaced, so sharing between them is not modelled.
- Status flags, request failures and key renaming of the web store; each saga's consecutive puts are one step.
- Database queries and the web server, which store records and hand them out as they are; label matching, which the code leaves empty; rendering and styling.
