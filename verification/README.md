# Verified model of the codec server's AMBE-3000 driver

This project models the AMBE-3000 driver of the codec server together with the session life cycle that hands out
its channels, and proves what they promise. It covers:

* the **packet codec**: how packets are built field by field, how a received payload is cut into fields, the parity
  byte, and how packets are put together again from short reads of the serial line
  (`Bytes`, `Protocol`, `Packets`, `Serial`);
* the **request pipeline**: many producers, the bounded device queue, the worker with its window of three
  unanswered packets, the chip, and one bounded queue and reader per channel (`Queue`, `Pipeline`, `Worker`);
* the **blocking queue as a monitor**, at the grain of lock, check, wait, change, notify and unlock (`Monitor`);
* **channels, devices and clients**: reservation, codec selection, framing hints, and the message loop of every
  connection (`Channels`, `Devices`, `Clients`, `ClientConnections`);
* the **configuration reader** and the **`ratep` text** (`Text`, `Config`, `RateP`);
* the **hotplug logic** that keeps the driver's and the core registry in step (`Hotplug`).

Objects that the program updates in place are classes (`Packets.Packet`, `Serial.Line`, `Queue.BlockingQueue`,
`Channels.Channel`, `Devices.Device`, `ClientConnections.ClientConnection`, `Config.Config`, `Hotplug.CoreRegistry`,
`Hotplug.Driver`, `Worker.QueueWorker`). Every method is proved against a function on values, and the properties are
proved about those functions. What happens between threads, the chip and other processes is a transition system:
a state, the events that can happen, `Runs` for a sequence of events each enabled where it happens, and `After` for
the state it leads to. `Worker.QueueWorker.Run` and `ClientConnections.ClientConnection.Serve` tie the loops of the
program to these systems: whatever they do is a run.

## Conventions

* A byte is a number from 0 to 255 and exclusive or is defined bit by bit. Shorts are signed 16-bit values, so a
  word above 0x7fff is a negative number on the wire; `size_t` and `unsigned char` wrap-around is written out
  (`Pipeline.Decremented`, `% 0x100` in `Channels`).
* The host is little-endian. `Bytes.NetworkOrder` and `Bytes.FromNetwork` are `htons` and `ntohs` on bytes in memory.
* The serial line is the byte stream still to come, with an upper bound on what each `read` delivers; the contents
  of fresh memory are an arbitrary function.
* The member pointers of a packet are one map from field class to offset (`Packets.Packet.stored`).
* A failed `assert`, a null result and each exception are results of their own.

## What turned out not to hold

Each of these is stated with the exact condition under which the code does what it seems meant to do.

* A packet built for channel 3 passes the builder but its channel byte is unknown to the scanner, so it comes back
  empty (`Protocol.ChannelPacketRoundTrip`, `Protocol.SpeechPacketRoundTrip`).
* Speech goes to the chip as it is and comes back byte-swapped (`Packets.EchoSwapsBytes`).
* Bit and sample counts are cut to eight bits, so longer inputs lose data (`Channels.DecodeInputSurvivesIff`,
  `Channels.EncodeInputSurvivesIff`).
* Words above 0x7fff in a `ratep` text become 0x7fff, and words with other characters than hexadecimal digits are
  accepted and read as shorter numbers (`RateP.TextToWire`, `RateP.OtherWordIsRead`, `RateP.PrintThenParse`).
* The hint for the second known set of control words looks at the first word only
  (`Channels.RatePHintIsIntendedIff`, `Channels.RatePHintCounterexample`).
* Clearing `run` without the mutex can lose a wake-up and strand a thread (`Monitor.ShutdownLosesWakeupIff`,
  `Monitor.ShutdownStrandsIff`, reached by `Monitor.ParkingIsReached`).
* Answers do not say which session they are for: a new session reads nothing but its own data exactly when no data
  of the channel is under way at its reservation (`Pipeline.SessionReadsOnlyItsOwnIff`).
* A second Request on a connection is the last message it handles, though it is answered with success
  (`Clients.RequestIsTheLastIff`, reached by `Clients.SecondRequestIsReached`).
* An index that is a number but does not fit an int is an exception that leaves the channel reserved with no session
  (`Devices.StartSessionTakesOne`, reached by `Devices.ExceptionIsReached`).
* A second configuration for a tty in use makes a second device on it
  (`Hotplug.SecondConfigurationDuplicatesIff`); a device with several different codecs is deleted more than once
  (`Hotplug.DeletedOnceIff`).
* A device section names its driver with the key `driver` (`src/lib/registry.cpp:44`), not with `type` as the
  program's documentation says (`README.md:48`); a section with `type` alone makes no device
  (`Hotplug.DriverKeyDecides`). The model follows the code.

## Model

| member | source | states |
|---|---|---|
| Bytes.XorAllDetectsChange | src/modules/ambe3k/protocol.cpp:298-304 | changing exactly one byte of a run always changes its parity |
| Bytes.ParityOfBits | src/modules/ambe3k/protocol.cpp:298-304 | each bit of the parity is set if and only if an odd number of the bytes have it set |
| Bytes.BitsDetermine | src/modules/ambe3k/protocol.cpp:298-304 | a byte is known by its eight bits, so the parity is exactly that byte |
| Bytes.NetworkOrderRoundTrip | src/modules/ambe3k/protocol.cpp:217 | a length or control word written in network order is read back as the same short |
| Protocol.NulAt | src/modules/ambe3k/protocol.cpp:49-57 | the product id ends before the first NUL, and holds none |
| Protocol.EveryFieldHasALength | src/modules/ambe3k/protocol.cpp:13-191 | every field that is built has a length of at least 1, so scanning ends |
| Protocol.KnownTags | src/modules/ambe3k/protocol.cpp:276-286 | the scanner stops at a tag if and only if it is none of those listed for the packet class |
| Protocol.CutOffFieldStaysOverlong | src/modules/ambe3k/protocol.cpp:255-266 | a field cut off by the end of the payload is never stored, whatever bytes lie behind it in memory |
| Protocol.ScanIsTheTiling | src/modules/ambe3k/protocol.cpp:251-274 | a cutting of the payload is the result of the scan if and only if its non-empty fields lie end to end from the payload start, each is what is built there, and it stops at the end, an unknown tag, an over-long field or a failed assertion |
| Protocol.FieldPosition | src/modules/ambe3k/protocol.cpp:251-274 | every stored field lies inside the payload, right behind the fields before it |
| Protocol.SlotsKeepTheLast | src/modules/ambe3k/protocol.cpp:288-296 | a member pointer is set if and only if there was a field of its class, and refers to the last one |
| Protocol.SlotPointsAtField | src/modules/ambe3k/protocol.cpp:402-420 | every set pointer of a scanned packet has its whole field inside the packet |
| Protocol.SlotHoldsLast | src/modules/ambe3k/protocol.cpp:402-420 | the bytes behind a set pointer are those of the last field of its class |
| Protocol.DataFieldShape | src/modules/ambe3k/protocol.cpp:162-191 | a stored data field has exactly the bytes its count byte announces; channel fields hold 0x40 to 0x42 |
| Protocol.ParityIsXor | src/modules/ambe3k/protocol.cpp:298-319 | with the parity field last, a packet is accepted if and only if all bytes after the first cancel out |
| Protocol.OneWrongByteIsRejected | src/modules/ambe3k/protocol.cpp:229-249 | one wrong byte after the first is always rejected while the final parity field is still found last |
| Protocol.SealedCancels | src/modules/ambe3k/protocol.cpp:306-309 | updating the parity makes all bytes after the first cancel out, for every packet |
| Protocol.FrameLength | src/modules/ambe3k/protocol.cpp:212-222 | the length bytes of a built packet read back as its size less 4 |
| Protocol.ChannelPacketRoundTrip | src/modules/ambe3k/protocol.cpp:525-534 | for every bit count the fields fill the buffer exactly, and sealing and parsing gives back channel, count and data for channels 0 to 2, and no field at all for channel 3 |
| Protocol.SpeechPacketRoundTrip | src/modules/ambe3k/protocol.cpp:558-567 | the same for every sample count of a speech packet |
| Protocol.ResponseIsBuilt | src/modules/ambe3k/protocol.cpp:379-400 | the scanner builds a well-formed response from its encoding, and the accessors give its value back |
| Protocol.ControlResponsesDecodeUniquely | src/modules/ambe3k/protocol.cpp:379-420 | scanning any sequence of encoded responses gives back exactly that sequence, with nothing left over |
| Protocol.ResponseBytes | src/modules/ambe3k/protocol.cpp:379-400 | the bytes of each response, written out |
| Protocol.ResponsesAreScannedFirst | src/modules/ambe3k/protocol.cpp:251-274 | responses in front of any other bytes are cut off exactly, and the scan goes on behind them |
| Protocol.ControlPacketIsParsed | src/modules/ambe3k/protocol.cpp:229-249 | a packet of type 0 with any responses and no parity is accepted as a control packet with exactly those |
| Protocol.SealedControlPacketIsParsed | src/modules/ambe3k/protocol.cpp:229-249 | the same for a sealed one, with the right parity as the last field |
| Protocol.NonZeroStatusAborts | src/modules/ambe3k/protocol.cpp:96-156 | a status other than 0 in any answer fails the assertion, whatever comes before and after it |
| Protocol.TypeByteDecides | src/modules/ambe3k/protocol.cpp:230-241 | type bytes 0, 1 and 2 select the packet class, packets of any other type are rejected |
| Protocol.ChannelPacketBytes | src/modules/ambe3k/protocol.cpp:525-534 | all bytes of a compressed-data packet, written out |
| Protocol.SpeechPacketBytes | src/modules/ambe3k/protocol.cpp:558-567 | all bytes of a speech packet, written out |
| Protocol.SetupIndexBytes | src/modules/ambe3k/protocol.cpp:495-505 | all bytes of a set-up request by index, written out |
| Protocol.SetupRatePBytes | src/modules/ambe3k/protocol.cpp:507-517 | all bytes of a set-up request by words, written out, each word with its high byte first |
| Packets.EchoSwapsBytes | src/modules/ambe3k/protocol.cpp:180-199 | reading speech as big-endian what was sent raw swaps every pair, and is the identity if and only if both bytes of each pair agree |
| Packets.ChannelRead | src/modules/ambe3k/protocol.cpp:325-328 | the byte at the channel pointer is the number in the last channel field, and is 0 to 2 |
| Packets.DataRead | src/modules/ambe3k/protocol.cpp:591-599 | the bytes copied out from behind the data pointer are those of the last data field, inside the packet |
| Packets.Packet.Blank | src/modules/ambe3k/protocol.cpp:212-222 | a zeroed buffer framed with start byte, big-endian length and type |
| Packets.Packet.ScanFields | src/modules/ambe3k/protocol.cpp:251-274 | the loop stops for the reason the scan has, with each pointer at the last field of its class |
| Packets.Packet.GetChecksum | src/modules/ambe3k/protocol.cpp:298-304 | the loop computes the byte in which each bit is set if and only if an odd number of the bytes between the first and the last have it set |
| Packets.Packet.UpdateChecksum | src/modules/ambe3k/protocol.cpp:306-309 | only the byte after the parity tag changes, to the parity of the packet; with the parity field last all bytes after the first then cancel out |
| Packets.Packet.IsChecksumValid | src/modules/ambe3k/protocol.cpp:315-319 | true without a parity field, otherwise whether its byte is the parity |
| Packets.Packet.WriteTo | src/modules/ambe3k/protocol.cpp:330-333 | what is sent is the packet with its parity brought up to date |
| Packets.Packet.GetChannel | src/modules/ambe3k/protocol.cpp:325-328 | the number in the last channel field of a scanned packet |
| Packets.Packet.GetChannelData | src/modules/ambe3k/protocol.cpp:596-599 | the bytes of the last compressed-data field, or none |
| Packets.Packet.GetSpeechData | src/modules/ambe3k/protocol.cpp:591-594 | the big-endian value of each byte pair of the last speech field, or none |
| Packets.ReadSamples | src/modules/ambe3k/protocol.cpp:193-199 | the loop converts each pair of bytes to its big-endian value |
| Packets.ParsePacket | src/modules/ambe3k/protocol.cpp:229-249 | a packet exactly when type and parity are right, with the scanned fields; a failed assertion is told apart |
| Packets.NewChannelPacket | src/modules/ambe3k/protocol.cpp:525-534 | the buffer is exactly the compressed-data packet, its pointers on the fields |
| Packets.NewSpeechPacket | src/modules/ambe3k/protocol.cpp:558-567 | the buffer is exactly the speech packet, its pointers on the fields |
| Packets.NewSetupIndex | src/modules/ambe3k/protocol.cpp:495-505 | the 11 bytes of a set-up request with a rate index |
| Packets.RatePField | src/modules/ambe3k/protocol.cpp:125-131 | the loop writes the six words in network order |
| Packets.NewSetupRateP | src/modules/ambe3k/protocol.cpp:507-517 | the 22 bytes of a set-up request with control words |
| Serial.FillBuffer | src/modules/ambe3k/protocol.cpp:337-343 | at most ten reads land one after the other in the buffer, and no byte beyond those asked for is taken |
| Serial.ReceiveBytes | src/modules/ambe3k/protocol.cpp:335-360 | what is handed to the parser, with stale memory where the payload did not arrive, and what is left on the line |
| Serial.ReceiveFrom | src/modules/ambe3k/protocol.cpp:335-361 | a packet exactly when bytes were received that parse |
| Serial.FillTakes | src/modules/ambe3k/protocol.cpp:353-358 | the read loop gets its bytes whole if and only if the reads complete them in time |
| Serial.ReceiveOne | src/modules/ambe3k/protocol.cpp:335-361 | one call yields the packet at the front and leaves all bytes behind it if and only if header and payload complete within their tries |
| Serial.WrongHeaderIsRefused | src/modules/ambe3k/protocol.cpp:345-347 | a header that does not begin with 0x61 is thrown away with nothing behind it, and an incomplete one yields no packet |
| Serial.TenReadsAreMade | src/modules/ambe3k/protocol.cpp:338-343 | bytes that come after up to nine empty reads are taken, later ones are not |
| Serial.StreamReassembly | src/modules/ambe3k/protocol.cpp:335-361 | for any split into reads in time, repeated calls yield exactly the packets sent, in order, and leave what follows untouched |
| Serial.SentIsReceived | src/modules/ambe3k/protocol.cpp:330-361 | built, sealed and written one after the other and received under any split in time, data packets are accepted in order, each with its channel, count and data |
| Serial.BuiltPacketsAreFramed | src/modules/ambe3k/protocol.cpp:330-333 | every built packet, sealed or not, meets the condition of reassembly |
| Queue.PassesAreFifo | src/modules/ambe3k/blockingqueue.cpp:10-40 | after any sequence of pushes, pops and a shutdown, what was taken and what is left is what was stored, in order, and never more than the bound |
| Queue.NothingTakenAfterShutdown | src/modules/ambe3k/blockingqueue.cpp:13-35 | after the shutdown no pop takes anything, and nothing changes unless a push does not block |
| Queue.PushOutcomes | src/modules/ambe3k/blockingqueue.cpp:12-19 | only a blocking push waits and only one that does not block is refused, both exactly on a full queue; what is not stored changes nothing |
| Queue.PopOutcomes | src/modules/ambe3k/blockingqueue.cpp:32-35 | a pop waits exactly on an open empty queue; what is not taken changes nothing |
| Monitor.StepKeepsInv | src/modules/ambe3k/blockingqueue.cpp:10-40 | mutual exclusion, the bound, conservation and the sleepers' conditions survive every step of every thread |
| Monitor.MonitorIsCorrect | src/modules/ambe3k/blockingqueue.cpp:10-40 | over every interleaving: size within the bound, pops are the pushes in order, one thread in the monitor, an un-notified popper sleeps only on an empty and a pusher only on a full queue unless the notification is about to come |
| Monitor.NeverAllStuck | src/modules/ambe3k/blockingqueue.cpp:13-38 | with room for one item some thread can go on, or all wait for an item on an empty queue, or all for room on a full one: pushers and poppers never sleep together |
| Monitor.StepsAreAtomicOperations | src/modules/ambe3k/blockingqueue.cpp:10-40 | seen from outside every step is nothing or one whole push or pop; one that passed its check before the shutdown completes as if before it |
| Monitor.RunsAreLinearizable | src/modules/ambe3k/blockingqueue.cpp:10-40 | every interleaving has the effect of the pushes and pops it commits, done at once and one after the other in the order of their commits |
| Monitor.EveryCallTakesEffect | src/modules/ambe3k/blockingqueue.cpp:10-40 | over every interleaving each thread's operations come to their end one by one: by their effect, for a push that does not block also by finding the queue full, for a blocking one also by finding it shut down, and in no other way |
| Monitor.NoPushIsDropped | src/modules/ambe3k/blockingqueue.cpp:10-22 | while the queue is open, what a thread's blocking pushes stored, followed by the one still waiting, is exactly what they were called with |
| Monitor.NobodyWaitsAgain | src/modules/ambe3k/blockingqueue.cpp:13-35 | after the shutdown a thread that is not waiting never waits again |
| Monitor.ShutdownLosesWakeupIff | src/modules/ambe3k/blockingqueue.cpp:43-47 | the shutdown can leave a thread asleep in some later state if and only if some thread is between its check and its wait |
| Monitor.SleepsOn | src/modules/ambe3k/blockingqueue.cpp:14-33 | once nobody is left to notify, a sleeper stays asleep in every run without spurious wake-up and without a successful push that does not block |
| Monitor.ShutdownStrandsIff | src/modules/ambe3k/blockingqueue.cpp:43-47 | the shutdown can strand a thread for good, in all such runs, if and only if some thread is between its check and its wait |
| Monitor.ParkingIsReached | src/modules/ambe3k/blockingqueue.cpp:32-34 | a popper on a new queue reaches the point between check and wait |
| Pipeline.StepKeepsInv | src/modules/ambe3k/queueworker.cpp:20-49 | the accounts of window, device queue, chip, line and every channel survive every event |
| Pipeline.WindowIsSafe | src/modules/ambe3k/queueworker.cpp:21-47 | over every run: at most three unanswered packets, written = received + in progress, written, held and queued packets are the accepted ones in order, the decrement never underflows |
| Pipeline.NoWrongBlocking | src/modules/ambe3k/queueworker.cpp:23-47 | the worker waits in `pop` only when nothing is owed, and in `receiveFrom` only when something is |
| Pipeline.PipelineNeverStuck | src/modules/ambe3k/queueworker.cpp:20-49 | unless it gave up or all accepted packets are answered, the worker or the chip can take a step |
| Pipeline.BoundedWait | src/modules/ambe3k/queueworker.cpp:22-48 | a packet with k ahead of it in the queue is written before a further response after k + 1 of them, whatever is pushed meanwhile |
| Pipeline.PushWaitsIff | src/modules/ambe3k/blockingqueue.cpp:12-20 | a push into the device queue waits if and only if ten packets are in it, and otherwise goes last |
| Pipeline.WorkerSendsIff | src/modules/ambe3k/queueworker.cpp:23 | the worker sends if and only if it has a packet and owes fewer than three answers, or owes none |
| Pipeline.WindowIsFilled | src/modules/ambe3k/queueworker.cpp:22-35 | with three packets waiting and none owed, all three are written, in order, before any response |
| Pipeline.ThreeAreWaiting | src/modules/ambe3k/queueworker.cpp:22-35 | such a state is reached from the start |
| Pipeline.RoutedToItsChannel | src/modules/ambe3k/ambe3kdevice.cpp:221-262 | a data response changes the queue of its own channel and of no other, with or without a channel field |
| Pipeline.AnswerKeepsInFlight | src/modules/ambe3k/queueworker.cpp:31-44 | a chip that answers each channel in order keeps the order of every channel's packets under way |
| Pipeline.AnswerIsNextOfItsChannel | src/modules/ambe3k/ambe3kdevice.cpp:254-262 | what is assumed of the chip: it answers each channel in order and all channels in any, with a channel field unless there is just one channel |
| Pipeline.PerChannelFifo | src/modules/ambe3k/channel.cpp:48-112 | over every run: what a reader took since `reserve` is a prefix of the channel's data requests answered since, in the order they were accepted, also after an overflow; with the queue it is all of them; without data under way at `reserve` it is a prefix of those accepted since |
| Pipeline.ReserveMarksInFlight | src/modules/ambe3k/channel.cpp:122-125 | the counts kept at `reserve` enclose exactly the packets of the channel under way |
| Pipeline.FirstDataIsRead | src/modules/ambe3k/queueworker.cpp:20-49 | wherever data for an empty channel queue is under way, worker and chip alone bring the first of it to the reader |
| Pipeline.StaleAnswerReachesNextSession | src/modules/ambe3k/channel.cpp:48-63 | with data under way at `reserve`, in queue, hand, chip or line, a run without further requests makes the new session read the first of it |
| Pipeline.SessionReadsOnlyItsOwnIff | src/modules/ambe3k/channel.cpp:122-125 | with a worker that has not given up: in every run up to the next `reserve` the reader gets only data accepted since `reserve`, if and only if no data of the channel is under way at `reserve` |
| Pipeline.PipelineRefinesFifo | src/modules/ambe3k/ambe3kdevice.cpp:217-262 | seen from one channel an event is exactly its own labelled step, adding the very request that is pushed, or nothing at all |
| Pipeline.RunRefinesFifo | src/modules/ambe3k/ambe3kdevice.cpp:217-262 | every run, seen from one channel, is exactly the run of that channel alone made of just its own pushes, answers, reads, reservations and releases, in their order, and ends in the same state |
| Pipeline.FifoDeliversInOrder | src/modules/ambe3k/channel.cpp:48-112 | within one session the channel alone delivers a prefix of what was lined up and then accepted, in order, and all of it is still there while the queue is open |
| Pipeline.ReleaseShutsOne | src/modules/ambe3k/channel.cpp:127-133 | a release takes the queue of its own channel away and touches no other |
| Pipeline.ReleasedChannelIsSilent | src/modules/ambe3k/channel.cpp:82-86 | without a queue the reader takes nothing in any run up to the next `reserve` |
| Worker.QueueWorker.SendOne | src/modules/ambe3k/queueworker.cpp:24-33 | of the worker's steps exactly one test, one pop and one write are added to the run; or it waits, on an empty queue with nothing in progress |
| Worker.QueueWorker.ReceiveOne | src/modules/ambe3k/queueworker.cpp:38-45 | of the worker's steps exactly one receipt is added to the run; or the worker gives up, and only when an owed response does not come |
| Worker.QueueWorker.Run | src/modules/ambe3k/queueworker.cpp:20-49 | all of the nested loops extends the run so far to a longer run of the pipeline, and ends only idle or with an answer missing |
| Text.SplitThenJoin | src/modules/ambe3k/ambe3ksession.cpp:80-86 | splitting loses nothing and leaves no separator in a piece |
| Text.JoinThenSplit | src/modules/ambe3k/ambe3ksession.cpp:80-86 | splitting joined pieces gives the pieces back |
| Text.NumberIsRead | src/modules/ambe3k/ambe3ksession.cpp:62 | white space, a sign and the hexadecimal prefix are passed over, the digits that follow are the number, and without digits there is none |
| Text.StoiOfParts | src/modules/ambe3k/ambe3ksession.cpp:62 | the number when it fits an int, and no number told from out of range |
| Text.HexShortOfParts | src/modules/ambe3k/ambe3ksession.cpp:98-100 | the nearest short to the number that is read, 0 without one |
| Text.DigitsAreRead | src/modules/ambe3k/ambe3ksession.cpp:62 | a text of decimal digits is read as its value, or out of range from 2147483648 on |
| Text.TooLargeForInt | src/modules/ambe3k/ambe3ksession.cpp:62 | 2147483648 is out of range |
| RateP.SplitInput | src/modules/ambe3k/ambe3ksession.cpp:80-86 | the loop computes the pieces between the colons |
| RateP.ParseRatePString | src/modules/ambe3k/ambe3ksession.cpp:78-104 | the loops compute the specified parse, or nothing |
| RateP.AcceptedShape | src/modules/ambe3k/ambe3ksession.cpp:79-96 | accepted are exactly the texts of 29 characters with colons at 4, 9, 14, 19, 24 and nowhere else |
| RateP.HexWordIsRead | src/modules/ambe3k/ambe3ksession.cpp:98-100 | four hexadecimal digits are read as their value, or 0x7fff when that is larger |
| RateP.OtherWordIsRead | src/modules/ambe3k/ambe3ksession.cpp:98-100 | a word with another character than a digit is read as a number of at most three digits, or 0 |
| RateP.TextToWire | src/modules/ambe3k/protocol.cpp:125-131 | for every accepted text the 12 data bytes are the hexadecimal decoding of its words if and only if each is four hexadecimal digits and not above 0x7fff; and which bytes go out for the other words |
| RateP.PrintThenParse | src/modules/ambe3k/ambe3ksession.cpp:78-104 | printing six words and parsing the text gives them back if and only if none is above 0x7fff |
| Channels.Channel.Reserve | src/modules/ambe3k/channel.cpp:122-125 | busy, with a fresh empty queue, same codec |
| Channels.Channel.Release | src/modules/ambe3k/channel.cpp:127-133 | not busy, no queue, same codec |
| Channels.Channel.SetupIndex | src/modules/ambe3k/channel.cpp:135-140 | the index becomes the only selection and exactly its request is queued |
| Channels.Channel.SetupRateP | src/modules/ambe3k/channel.cpp:142-147 | the words become the only selection and exactly their request is queued |
| Channels.Channel.Renegotiate | src/modules/ambe3k/ambe3ksession.cpp:42-76 | which branch or exception is taken, and the codec and requests it leads to |
| Channels.Directions | src/modules/ambe3k/ambe3ksession.cpp:46-55 | the loop computes the flags of the directions that occur |
| Channels.DirectionFlags | src/modules/ambe3k/ambe3ksession.cpp:46-55 | flag 1 if and only if encoding is asked for, flag 2 if and only if decoding is, and no other |
| Channels.IndexTextReachesTheWire | src/modules/ambe3k/ambe3ksession.cpp:59-63 | a decimal index is sent, modulo 256, as exactly one request, byte by byte, whatever else the settings hold |
| Channels.RatePReachesTheWire | src/modules/ambe3k/ambe3ksession.cpp:64-72 | without an index an accepted text is sent as exactly one request, byte by byte |
| Channels.OtherSettingsDoNothing | src/modules/ambe3k/ambe3ksession.cpp:59-75 | nothing is sent, and no codec changes, if and only if there is neither a usable index nor, without index, usable words |
| Channels.Channel.Decode | src/modules/ambe3k/channel.cpp:40-42 | exactly one compressed-data packet with the count cut to eight bits is queued |
| Channels.Channel.Encode | src/modules/ambe3k/channel.cpp:44-46 | exactly one speech packet with the count cut to eight bits is queued |
| Channels.Channel.Receive | src/modules/ambe3k/channel.cpp:48-80 | is the offer of a delivery to the queue, of which ReadersGetWhatArrives says what becomes of it |
| Channels.ReadersGetWhatArrives | src/modules/ambe3k/channel.cpp:48-112 | after a reservation, over any arrivals and reads, what was read followed by the queue is what arrived, in order; the queue closes if and only if something arrives while ten are unread |
| Channels.DeliveryReachesReader | src/modules/ambe3k/channel.cpp:48-112 | what arrives in a new queue is what the next read takes |
| Channels.OutputBytes | src/modules/ambe3k/channel.cpp:95-107 | compressed data is read as it arrived, speech with the bytes of each pair swapped |
| Channels.Channel.Read | src/modules/ambe3k/channel.cpp:82-112 | takes the front packet and returns its bytes, or nothing when the queue is gone |
| Channels.ChannelPacketDelivers | src/modules/ambe3k/protocol.cpp:525-534 | the receiver of a compressed-data packet gets the announced bytes |
| Channels.SpeechPacketDelivers | src/modules/ambe3k/protocol.cpp:558-567 | the receiver of a speech packet gets the announced bytes |
| Channels.DecodeInputSurvivesIff | src/modules/ambe3k/channel.cpp:40-42 | compressed input arrives whole if and only if it has at most 31 bytes |
| Channels.EncodeInputSurvivesIff | src/modules/ambe3k/channel.cpp:44-46 | speech input arrives whole if and only if its size is even and at most 510 |
| Channels.HintIsOfLastSetup | src/modules/ambe3k/channel.cpp:135-147 | after any sequence of set-ups at most one selection is active, and the hint is that of the last |
| Channels.HintsAreSufficient | src/modules/ambe3k/ambe3ksession.cpp:28-40 | frames of the hinted sizes, after any sequence of set-ups, arrive whole in both directions |
| Channels.KnownHints | src/modules/ambe3k/channel.cpp:17-38 | the hints of all indices and of the two known sets of words, written out |
| Channels.HintFitsItsBits | src/modules/ambe3k/ambe3ksession.cpp:28-40 | the hinted bytes are the least that hold the bits, and speech is 160 samples of two bytes |
| Channels.SetupRequestsAreDistinct | src/modules/ambe3k/protocol.cpp:495-517 | a set-up request determines channel, codec and direction |
| Channels.RatePTextReachesTheWireIff | src/modules/ambe3k/ambe3ksession.cpp:64-72 | the set-up packet for an accepted text carries just the bytes of its digits if and only if each word is four hexadecimal digits and not above 0x7fff |
| Channels.RatePHintIsIntendedIff | src/modules/ambe3k/channel.cpp:26-36 | the hint for control words is the one the table means if and only if not just the first word is that of the second entry |
| Channels.RatePHintCounterexample | src/modules/ambe3k/channel.cpp:32-35 | words that get the second entry's hint without being it |
| Devices.FirstFree | src/modules/ambe3k/ambe3kdevice.cpp:35-37 | the first channel that is not busy |
| Devices.Device.constructor | src/modules/ambe3k/ambe3kdevice.cpp:195-215 | one, three or no free channels by product id, numbered in order |
| Devices.ChannelsOfProducts | src/modules/ambe3k/ambe3kdevice.cpp:195-209 | one channel for AMBE3000 ids, three for AMBE3003, none for others |
| Devices.Device.StartOn | src/modules/ambe3k/ambe3kdevice.cpp:39-49 | reserves and sets up one channel, gives it back when the index is not a number, keeps it reserved on the exception that is not caught, and leaves all others alone |
| Devices.Device.StartSession | src/modules/ambe3k/ambe3kdevice.cpp:34-53 | the loop starts the session the allocation function gives, with its set-up request |
| Devices.Device.GetChannelNumber | src/modules/ambe3k/ambe3kdevice.cpp:254-262 | channel 0 without a channel field, the field's number inside the range, a failed assertion otherwise |
| Devices.Device.ReceivePacket | src/modules/ambe3k/ambe3kdevice.cpp:221-252 | a data packet is offered to its own channel and no other; control packets change nothing |
| Devices.ChannelPacketIsRouted | src/modules/ambe3k/ambe3kdevice.cpp:221-262 | a sealed compressed-data packet for a channel the device has is routed to that channel with its data |
| Devices.SpeechPacketIsRouted | src/modules/ambe3k/ambe3kdevice.cpp:221-262 | a sealed speech packet for a channel the device has is routed to that channel with its data |
| Devices.UntaggedPacketIsRouted | src/modules/ambe3k/ambe3kdevice.cpp:254-256 | a data packet without channel field is routed to channel 0 |
| Devices.OnlyOtherChannelsAbort | src/modules/ambe3k/ambe3kdevice.cpp:254-262 | the assertion fails if and only if the packet names a channel the device does not have |
| Devices.PipelineOffersTheSame | src/modules/ambe3k/channel.cpp:48-80 | the queue of a channel in the pipeline is the one `receive` offers to, delivery by delivery |
| Devices.PipelineRoutesTheSame | src/modules/ambe3k/ambe3kdevice.cpp:254-262 | a response in the pipeline goes where its packet goes, with a channel field and without |
| Devices.StartSessionFailsIff | src/modules/ambe3k/ambe3kdevice.cpp:34-53 | no session if and only if all channels are busy or the index text is not a number that fits an int |
| Devices.StartSessionTakesOne | src/modules/ambe3k/ambe3kdevice.cpp:34-53 | success takes one free channel and nothing else; failure leaves every busy flag, queue and codec as before if and only if no out-of-range exception was thrown |
| Devices.ExceptionIsReached | src/modules/ambe3k/ambe3kdevice.cpp:39-46 | on a new device the index 2147483648 leaves channel 0 reserved without a session |
| Clients.AllocateFromTakesOne | src/server/clientconnection.cpp:145-148 | the device loop takes exactly one free channel of one device, or changes nothing |
| Clients.AllocateFromFailsIff | src/server/clientconnection.cpp:145-148 | the device loop ends without session if and only if all channels of all devices are busy or the index text is not a number |
| Clients.FirstFreePlaceIsTaken | src/server/clientconnection.cpp:145-148 | the session gets the first free channel of the first device that has one, with a new queue and the codec asked for |
| Clients.OtherCodecsGetNothing | src/server/clientconnection.cpp:139-155 | a Request for a codec other than `ambe` gets no session and takes no channel |
| Clients.RenegotiationChangesOneCodec | src/server/clientconnection.cpp:119-137 | a Renegotiation changes the codec of the client's own channel and nothing else |
| Clients.StopKeepsInv | src/server/clientconnection.cpp:51-63 | stopping frees exactly the session's channel, clears `run`, and keeps the accounts |
| Clients.HandledKeepsInv | src/server/clientconnection.cpp:99-189 | every handler keeps the accounts, and a failing send removes the connection and nobody else |
| Clients.StepKeepsInv | src/server/clientconnection.cpp:14-86 | every event of every client keeps the accounts |
| Clients.ChannelsAreConserved | src/server/clientconnection.cpp:39-86 | over all runs: busy channels are exactly those of live sessions, no two share one, session and reader exist together, a queue implies busy |
| Clients.OthersAreUntouched | src/server/clientconnection.cpp:99-189 | what one connection handles leaves every other connection as it is |
| Clients.OthersKeepTheirs | src/server/clientconnection.cpp:14-86 | nobody loses a channel to another client's event |
| Clients.EveryEndFreesTheChannel | src/server/clientconnection.cpp:14-26 | however a connection ends, its channel is free afterwards |
| Clients.OneMessageAfterStop | src/server/clientconnection.cpp:65-86 | after `run` became false a connection handles no message, or just the one it was waiting for |
| Clients.ReaderEndsConnection | src/server/clientconnection.cpp:191-209 | after its reader ended by itself a connection handles at most one message |
| Clients.EndOfStreamEndsLoop | src/server/clientconnection.cpp:67-69 | after the end of the stream only the exit of the loop is left |
| Clients.OtherMessagesGoOn | src/server/clientconnection.cpp:65-83 | checks, data and unexpected messages leave the connection in its loop and everything else as it is |
| Clients.SecondRequestIsTheLast | src/server/clientconnection.cpp:139-170 | a Request on a connection that has a session is the last message it handles |
| Clients.RequestIsTheLastIff | src/server/clientconnection.cpp:139-170 | a Request is the last message its connection handles if and only if there was a session, `run` was already false, or the response was not sent |
| Clients.SecondRequestIsReached | src/server/clientconnection.cpp:65-86 | on any server with a channel a run leads to a connection with a running session that may send a second Request |
| ClientConnections.ClientConnection.ReaderPass | src/server/clientconnection.cpp:194-207 | one turn takes the front packet, and the reader goes on if and only if it has to wait, or the packet was not empty and could be sent |
| ClientConnections.ClientConnection.JoinReader | src/server/clientconnection.cpp:191-209 | without a queue the reader ends, and has cleared `run` |
| ClientConnections.ClientConnection.StopSession | src/server/clientconnection.cpp:51-63 | is the stopping transition, on the objects |
| ClientConnections.ClientConnection.StartSession | src/server/clientconnection.cpp:39-49 | session and reader are set together, and no channel changes |
| ClientConnections.ClientConnection.FindSession | src/server/clientconnection.cpp:145-148 | the device loop does on the objects what the allocation function says |
| ClientConnections.ClientConnection.ProcessRequest | src/server/clientconnection.cpp:139-170 | is the Request transition, in any world the connection is part of; exactly the set-up request of the new session is queued |
| ClientConnections.ClientConnection.ProcessRenegotiation | src/server/clientconnection.cpp:119-137 | is the Renegotiation transition; exactly the set-up request for the new settings is queued, none on an exception |
| ClientConnections.ClientConnection.ProcessData | src/server/clientconnection.cpp:99-117 | exactly one request of the session's channel, or none without a session |
| ClientConnections.ClientConnection.ProcessMessage | src/server/clientconnection.cpp:68-80 | each kind of message is its transition, and throws exactly when the response was not sent |
| ClientConnections.ClientConnection.Serve | src/server/clientconnection.cpp:14-86 | the whole life of a connection is a run of the transition system in which its messages are handled in order, with the end of the stream after the last, and which ends without session and with the connection gone |
| Config.Config.Read | src/lib/config.cpp:15-55 | the delayed-flush loop computes the fold over the lines |
| Config.Config.GetSections | src/lib/config.cpp:58-68 | the names with the prefix, all of them, each once, in ascending order |
| Config.Config.GetSection | src/lib/config.cpp:70-72 | the section, and an empty one is created when there is none |
| Config.FoldMeans | src/lib/config.cpp:15-55 | after every line the sections read so far, with the open one, are what the lines mean |
| Config.ReadAllIsTheMeaning | src/lib/config.cpp:15-55 | a map is the result of reading if and only if each non-empty name stands for the pairs of the block after its last header, and no other name is in it |
| Config.LastPairWins | src/lib/config.cpp:41-47 | in a block each key that occurs has its last value, and no other key is there |
| Config.SilentLinesChangeNothing | src/lib/config.cpp:22-30 | blank lines, comments and invalid lines can be added anywhere |
| Config.SilentTextChangesNothing | src/lib/config.cpp:22-49 | empty lines, lines that begin with ; or #, and lines without = that are no headers change nothing, wherever they are |
| Config.PairLineReadsIff | src/lib/config.cpp:27-47 | the exact condition under which a printed pair is read as that pair |
| Config.PrintThenRead | src/lib/config.cpp:15-55 | printing any well-formed sections and reading the lines gives their map back |
| Config.TextRoundTrip | src/lib/config.cpp:21 | lines written with line ends are read as the same lines |
| Config.LastLineNeedsNoEnd | src/lib/config.cpp:21 | the last line counts also without a line end |
| Config.PrintedTextIsRead | src/lib/config.cpp:15-55 | the text of any well-formed sections without line ends in them, read as a file, gives their map back |
| Hotplug.StepKeepsInv | src/modules/ambe3k/udevmonitor.cpp:48-61 | registrations, devices and the core registry stay in step through every event |
| Hotplug.RegistriesAgree | src/modules/ambe3k/udevmonitor.cpp:48-61 | over all runs with distinct ttys: one live device for a tty, held by a registration if and only if the core registry lists it, then once |
| Hotplug.LoadMakesDevice | src/lib/registry.cpp:43-61 | a complete section whose device can be built registers it, lists it last, and changes nothing else |
| Hotplug.RemoveTakesDevice | src/modules/ambe3k/udevmonitor.cpp:51-56 | after a remove the tty has no live, listed or registered device, and all others stay |
| Hotplug.StaysWithoutDevice | src/modules/ambe3k/udevmonitor.cpp:50-61 | over any run without a successful add, a registration without device stays as it is |
| Hotplug.FailedDeviceIsRetried | src/modules/ambe3k/ambe3kdriver.cpp:34-40 | a failing constructor leaves a registration without device and the lists alone, whatever happens then, until the next successful add for the tty makes one new device of it, listed last |
| Hotplug.DriverKeyDecides | src/lib/registry.cpp:44-51 | a section that is complete otherwise makes a device if and only if its key `driver` names the driver; without that key nothing happens |
| Hotplug.SecondConfigurationDuplicatesIff | src/modules/ambe3k/ambe3kregistry.cpp:12-14 | a further configuration for a tty keeps one device for it if and only if it had no live one |
| Hotplug.RegisterThenUnregister | src/lib/registry.cpp:63-85 | registering a new device for one codec and unregistering it restores every list |
| Hotplug.DeletedOnceIff | src/lib/registry.cpp:73-85 | unregistering deletes a new device once if and only if all its codecs are the same |
| Hotplug.CoreRegistry.RegisterDevice | src/lib/registry.cpp:63-71 | the loop adds the device at the end of the list of each of its codecs |
| Hotplug.CoreRegistry.UnregisterDevice | src/lib/registry.cpp:73-85 | the loop takes one occurrence out of every list, and deletes once for each list it was in |
| Hotplug.CoreRegistry.FindDevices | src/lib/registry.cpp:87-89 | the list of the codec, and no list changes |
| Hotplug.Driver.AddDevice | src/modules/ambe3k/ambe3kregistry.cpp:12-14 | the registration takes the place of an earlier one for the tty |
| Hotplug.Driver.BuildFromConfiguration | src/modules/ambe3k/ambe3kdriver.cpp:17-41 | null, exception or device, with the registration made first |
| Hotplug.Driver.LoadDeviceFromConfig | src/lib/registry.cpp:43-61 | is the load transition, on the objects |
| Hotplug.Driver.HandleEvent | src/modules/ambe3k/udevmonitor.cpp:48-61 | is the add or remove transition, on the objects; other actions do nothing |

## Left out

* The terminal set-up and the table of baud rates, including the exception for a rate that is not in it and for a
  number too large for `stoul`: a device constructor either succeeds or throws a `DeviceException`.
* Failing `read` and `write` calls: `read` delivers from 0 bytes up to what it was asked for.
* Payload lengths of 0x8000 and more: they are negative in the program and end in the result `BadLength`.
* Bytes read behind a field that is cut off by the end of the buffer, and the status byte of such a field.
* The start-up handshake of a device with reset, product id and version requests.
* Protobuf, sockets, handshake, signals, logging, loading of modules and the plumbing of udev.
* The lifetime of objects: a queue, device or worker that is deleted while another thread uses it. Queues are open
  or gone. The steps of the queue's destructor are one step, and `run` is read once for each check.
* The null from `pop` that ends the worker when the device queue is deleted: the queue lives as long as the worker.
* `Device::onQueueError`: when the worker gives up it stops; that it also unregisters and deletes its own device is
  not modelled.
* Devices that come and go while clients are connected: the devices of `Clients` are fixed.
* What follows an uncaught exception: a Request whose index does not fit an int is excluded from `Clients`, and a
  Renegotiation without a session ends `Serve` with `aborted`.
* The race of two connections in `startSession`: scanning for a free channel and reserving it is one step.
* What happens between two messages inside `Serve`: the method runs the connection alone, the interleaving of
  connections is in `Clients`.
* Which response text and which framing hint a client is sent for a Request.
* The packet classes below `Packet` are one class with a kind, and their pointers one map.
* The answers of the chip are assumed: each packet is answered at most once and each channel in order; a lost answer
  shows as the worker giving up.
