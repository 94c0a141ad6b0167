# AACS, modelled and verified

AACS lets a phone and a car headunit talk Android Auto through two programs. AAServer plays the phone towards the headunit; AAClient plays the headunit towards the phone; a Unix packet socket joins them, and other programs can use AAServer's socket too. This project models the logic of both programs in Dafny and proves what it is for: messages arrive whole, in order and unchanged, and nobody waits for ever.

## Layers

| module | what it is about |
|---|---|
| `Utils`, `Messages` | big-endian numbers, `checkError`, message types |
| `Framing`, `SendQueue` | the frame format, and the send queue that cuts messages into frames |
| `Reassembler` | AAClient's `getMessage`, which puts them together again |
| `Pump`, `DirectLink` | AAServer's `dataPump`: partial writes, parsing of back-to-back frames, and AAClient's sender as its source |
| `VideoHandlers`, `Timestamps` | the two video handlers on bytes, and what happens to presentation times |
| `VideoLink`, `VideoPair`, `VideoWire` | the video channel as a protocol between two parties over FIFO links, two handlers of one program, and the protocol on bytes |
| `InputLink`, `InputRuns`, `InputWire` | the input channel with any number of client threads, what holds over its runs, and the same on bytes |
| `ChannelHandlers`, `InputHandlers`, `Hub`, `Sockets`, `Announcement` | the handlers, client registry and packet dispatch as the objects they are in the programs, and how the phone's open request reaches AAServer |
| `ServiceTable` | the service descriptor and the handler tables filled from it |
| `Routing`, `Relay`, `Proxy`, `ProxyProgress`, `ReturnPath`, `ReturnProgress` | the whole way from phone to headunit and back |
| `BringUp` | version, TLS, authentication and discovery |

Protocols are state machines whose runs are all sequences of atomic steps. Code that works by changing fields and buffers is a class or a method with loops, proved against a specification function; the properties are lemmas about those functions.

## What the proofs found

* A sink that returns zero makes `dataPump` send bytes again: `checkError` turns zero into -1 (`Pump.DeliveredExactly`, `Pump.ByteTwice`).
* AAServer does not skip the total length of a first frame: alone in a buffer it is parsed as one frame with nothing left over only if the message was not split (`DirectLink.SplitMessagesMisparse`). Frames of messages that are not split it understands, any number of them in a buffer (`DirectLink.ParserDispatchesWhatWasSent`).
* `firstSample` is static: a video handler whose first sample comes after another handler of the process has sent one never opens its channel and sends out of order; if both take their first samples before either has sent, both open (`VideoLink.OrderingExactly`, `VideoLink.NeverOpens`, `VideoPair.SecondHandlerUnordered`, `VideoPair.BothOpen`).
* AAClient's video handler creates its source on a message without a time only. A stream whose first sample has a time uses a pointer that has never been set, and every later sample without one starts another pipeline (`VideoWire.DeliveredExactly`, `VideoLink.TimedFirstSampleFails`).
* A video stream that starts at exactly 100000 us loses its time base, because the start value 0 also means "not set" (`Timestamps.DifferencesKeptExactly`); a frame exactly 100 ms before the first loses its time, because the value 0 is not set on a buffer (`VideoWire.TimedExactly`, `VideoWire.TimeLost`).
* A client that sends an unknown packet type, or cannot be sent an answer, stays in the client map, and registered, with its socket closed. The next event or broadcast makes the reading thread of AAServer throw, or reaches another client twice that has got the socket's number. A client that dies while its thread waits for the channel to open has the same effect, unless the write is refused with ECONNRESET (`InputRuns.EventsFannedOut`, `InputRuns.MessagesReach`, `InputRuns.EndedClientStopsReader`, `InputRuns.VanishedClientStopsReader`, `InputRuns.ReusedSocket`).
* A message of a type that a handler does not know ends AAServer's reading thread, so that nothing after it returns (`ReturnPath.AcceptsExactly`, `ReturnPath.ParseStepIs`).
* AAClient answers any message that starts with type 5 as a discovery request, on whatever channel it comes (`Routing.TransparentExactly`).
* Input events lose their Specific bit on the way to AAClient (`Routing.ReturnExactly`).
* `getChannelNumberByChannelType` tests an unsigned number for being negative; the answer for an absent type is 255 (`ServiceTable.ServerDirectory.GetChannelNumberByChannelType`, `ServiceTable.NumberMeaning`).

## Model

Names are qualified by module and class; paths are relative to the root of the AACS repository.

| member | source | states |
|---|---|---|
| `Utils.Int16RoundTrip` | src/utils.cpp:34-37 | what `pushBackInt16` appends reads back, big-endian, as the argument modulo 2^16 |
| `Utils.Int32RoundTrip` | AAServer/src/AaCommunicator.cpp:432-437 | the four total-length bytes of a first frame read back as the length, for every 32-bit length |
| `Utils.Int32Halves` | AAServer/src/AaCommunicator.cpp:432-437 | they are the more significant half before the less significant one |
| `Utils.Int64RoundTrip` | src/utils.cpp:39-67 | what `pushBackInt64` appends after any prefix is what `bytesToUInt64` reads at that offset, for every 64-bit number |
| `Utils.BytesToUInt64` | src/utils.cpp:60-67 | throws exactly when fewer than eight bytes follow the offset |
| `Utils.CheckError` | src/utils.cpp:14-26 | positive counts pass unchanged, zero becomes -1, ignored errors become 0, and exactly the other errors are thrown |
| `Framing.FrameLayout` | AAServer/src/AaCommunicator.cpp:419-449 | where channel, flags, length, total length and body lie in every frame, so that each can be read back |
| `Framing.FrameAccepted` | AAClient/src/AaCommunicator.cpp:440-464 | the bytes of every legal frame make the reassembly loop accept exactly the piece of content they were made from |
| `Framing.FrameFits` | AAServer/src/AaCommunicator.cpp:419-438 | with the expansion bounds of RFC 5246 every frame fits its 16-bit length field, the record buffer of 20000 bytes and the receive buffers, and decrypts to content that fits the 20000 bytes of `plainBuf` |
| `SendQueue.FrameBits` | AAServer/src/AaCommunicator.cpp:377-413 | bit by bit what First, Last and clearing both do to the flags; which frame gets which is in `SendQueue.MarksOfRun` |
| `SendQueue.CutDone` | AAServer/src/AaCommunicator.cpp:382-387 | full and last frame: the rest of the head is sent, marked as both First and Last if the head is whole and as Last otherwise, and one frame of work is gone |
| `SendQueue.CutMore` | AAServer/src/AaCommunicator.cpp:389-405 | first and intermediate frame: exactly one limit's worth is sent, marked as First if nothing has been sent before and not marked otherwise; the head stays legal and is still the same message, one frame of work less |
| `SendQueue.Pieces` | AAServer/src/AaCommunicator.cpp:371-411 | max(1, ceil(n / limit)), characterised by its bounds |
| `SendQueue.EnqueueKeepsInv` | AAServer/src/AaCommunicator.cpp:61-73 | queuing a message keeps the refinement between queue and receiver |
| `SendQueue.DrainKeepsInv` | AAServer/src/AaCommunicator.cpp:364-450 | one drain call keeps the refinement (completed + head + rest is what was queued; only the head partly sent, its offset a multiple of the limit inside the content, its frame bits clear) and lowers the frames to come by exactly one |
| `SendQueue.Run` | AAServer/src/AaCommunicator.cpp:364-450 | every interleaving of any number of `sendMessage` calls with drain calls keeps all of this |
| `SendQueue.FifoRefinement` | AAClient/src/AaCommunicator.cpp:274-359 | over all runs: reassembly never fails and returns the queued messages in order; the receiver's partial content and the head's unsent bytes are together the head; the rest of the queue is untouched |
| `SendQueue.FramesExactly` | AAClient/src/AaCommunicator.cpp:274-359 | the number of frames of a run is exactly the sum of max(1, ceil(n / limit)) when, and only when, the queue is empty; then the receiver has everything |
| `SendQueue.MarksOfRun` | AAServer/src/AaCommunicator.cpp:377-438 | over all runs, on the bytes of the frames: each message takes the next max(1, ceil(n / limit)) frames; each has the message's channel and flags but for the frame bits, which are both set on an only frame, and otherwise First on the first, which also carries the total length, Last on the last, none in between |
| `SendQueue.FrameTypes` | AAClient/src/AaCommunicator.cpp:289-322 | the same for one message of any length, however many of its frames have been sent |
| `SendQueue.FrameSizes` | AAClient/src/AaCommunicator.cpp:431-490 | every frame of every run fits every length field and buffer on its way, and so does what it decrypts to when it arrives |
| `SendQueue.DrainTimes` | AAServer/src/AaCommunicator.cpp:364-450 | `n` drain calls lower the work by `n` until nothing is left |
| `SendQueue.FragmentRoundTrip` | AAClient/src/AaCommunicator.cpp:431-471 | a message of any length is completed by exactly its last frame, with its own channel, content and flags, and by none before |
| `SendQueue.PlainRoundTripExactly` | AAServer/src/AaCommunicator.cpp:439-449 | a plain message survives if and only if its length is below 65536; a longer one makes the receiver fail |
| `SendQueue.Sender.SendMessage` | AAServer/src/AaCommunicator.cpp:61-73 | appends one message to the queue, nothing else |
| `SendQueue.Sender.CutHead` | AAServer/src/AaCommunicator.cpp:380-412 | the four branches, changing the head in place or popping it, send the next piece of it with the frame bits that its place in the message asks for |
| `SendQueue.Sender.EncryptedFrame` | AAServer/src/AaCommunicator.cpp:413-438 | one record is written, read back whole behind its header, and leaves the memory BIO empty |
| `SendQueue.Sender.NextPlain` | AAServer/src/AaCommunicator.cpp:439-449 | a plain message leaves whole, in one frame |
| `SendQueue.Sender.GetMessage` | AAServer/src/AaCommunicator.cpp:364-450 | `getMessage` / `prepareMessage` as a whole is one drain step of the runs, for a buffer of 20000 bytes or more; what such a step sends is in `SendQueue.MarksOfRun` and `SendQueue.FifoRefinement` |
| `Reassembler.ReceiveFrom` | AAClient/src/AaCommunicator.cpp:431-471 | what has been completed before does not influence what is completed later |
| `Reassembler.Receiver.AppendTransfer` | AAClient/src/AaCommunicator.cpp:440-464 | one turn of the do-while loop is one step of the reassembly specification; exactly four kinds of transfers are faults, and a total of 2^31 or more becomes one that is never reached |
| `Reassembler.Receiver.GetMessage` | AAClient/src/AaCommunicator.cpp:431-471 | takes transfers exactly up to the first one that completes a message or is faulty, and returns that message |
| `Reassembler.ReadAll` | AAClient/src/AaCommunicator.cpp:64-93 | on any stream of transfers the loop first returns the messages completed before the first fault, in order, and of an undamaged stream exactly all; it gives up when 30 calls in a row have been faults, and not before |
| `Reassembler.SendAndReceive` | AAClient/src/AaCommunicator.cpp:274-471 | sender and receiver together: what is returned over any run is a prefix of what was sent, and all of it once all frames are out |
| `Pump.WriteOut` | AAServer/src/AaCommunicator.cpp:560-570 | the loop is the run `Pumped` of sink results; every byte reaches the sink once and in order if and only if none of the results used is zero; enough writes end it; only a fatal error throws |
| `Pump.DeliveredExactly` | AAServer/src/AaCommunicator.cpp:560-570 | a buffer that is done with has been delivered once and in order if and only if the sink returned no zero before accepting as many bytes as the buffer holds |
| `Pump.ByteTwice` | AAServer/src/AaCommunicator.cpp:560-570 | two bytes and the results 1, 0, 2: the sink gets the first byte twice |
| `Pump.SplitJoin` | AAServer/src/AaCommunicator.cpp:344-362 | splitting a buffer of frames by their headers gives back the frames and the incomplete rest |
| `Pump.JoinSplit` | AAServer/src/AaCommunicator.cpp:344-362 | every buffer is a concatenation of complete frames and an incomplete rest |
| `Pump.Parser.HandleFrame` | AAServer/src/AaCommunicator.cpp:344-362 | a record that does not decrypt is an exception without effect; anything else is dispatched with its channel, flags and content |
| `Pump.Parser.HandleMessage` | AAServer/src/AaCommunicator.cpp:344-362 | throws without effect if the buffer does not start with a complete frame (even under four bytes), else dispatches exactly that frame and returns its size |
| `Pump.Parser.ParseBuffer` | AAServer/src/AaCommunicator.cpp:560-574 | exactly the complete frames at the start of a buffer are dispatched, in order, up to the first exception; it ends without one if and only if nothing is left over |
| `DirectLink.UnsplitRun` | AAClient/src/AaCommunicator.cpp:274-359 | in a run without split messages the i-th frame is the i-th message in a server frame |
| `DirectLink.ProcessRaws` | AAServer/src/AaCommunicator.cpp:344-362 | the frames of unsplit messages are dispatched as those messages, up to the first one rejected |
| `DirectLink.ParserDispatchesWhatWasSent` | AAServer/src/AaCommunicator.cpp:344-362 | AAClient's sender into AAServer's parser: any stretch of frames of any such run, with or without an incomplete frame behind it, is split and dispatched as the messages sent |
| `DirectLink.SplitMessagesMisparse` | AAServer/src/AaCommunicator.cpp:344-362 | AAServer takes the first frame of a message as one frame with nothing left over if and only if the message was not split |
| `VideoHandlers.ClientVideoHandler.HandleMessageFromMobile` | AAClient/src/VideoChannelHandler.cpp:24-54 | the handler's replies, what it pushes into which pipeline, its start time, its exceptions, and the use of `app_source` before it has been set, for every message |
| `VideoHandlers.ServerVideoHandler.HandleMessageFromHeadunit` | AAServer/src/VideoChannelHandler.cpp:163-190 | which flags a message sets, what is replied, passed on to socket clients, and left unhandled |
| `ChannelHandlers.ChannelHandler.HandleMessageFromHeadunit` | AAServer/src/ChannelHandler.cpp:18-32 | handles exactly channel open responses, by setting the flag; the base of both handlers of AAServer |
| `VideoHandlers.ServerVideoHandler.SendSample` | AAServer/src/VideoChannelHandler.cpp:33-46 | the media message built for a buffer, with or without a time |
| `VideoHandlers.ClientHandles` | AAClient/src/VideoChannelHandler.cpp:24-54 | AAClient handles five types and no other, with which bytes in answer; a message with a time fails exactly when it is too short or comes before any source; an unhandled one has no effect |
| `VideoHandlers.ServerHandles` | AAServer/src/VideoChannelHandler.cpp:163-190 | a channel not opened by AAServer is passed on whole; on one that is, four types are handled, each with its own flag or answer, and an unhandled one has no effect |
| `VideoHandlers.MediaRoundTrip` | AAClient/src/VideoChannelHandler.cpp:37-51 | the client takes out of a media message exactly the microseconds and the data that the server put in, and acknowledges once; an untimed one starts a pipeline, a timed one fails without one |
| `VideoLink.ClientStepFlight` | AAClient/src/VideoChannelHandler.cpp:28-53 | a delivery to the client keeps what the links may hold in each phase of the opening |
| `VideoLink.ServerStepFlight` | AAServer/src/VideoChannelHandler.cpp:163-190 | a delivery to the server keeps it too, and finds the channel opened or, on a channel never opened, an acknowledgement |
| `VideoLink.StepKeepsInv` | AAServer/src/VideoChannelHandler.cpp:127-190 | every step keeps: links hold only what the phase allows; media sent are handled or in flight, in order; acks are in flight or received, one for each sample pushed |
| `VideoLink.MediaOrderedMeaning` | AAServer/src/VideoChannelHandler.cpp:30-46 | the recursive order predicate says: before every media message the four opening events have occurred in order |
| `VideoLink.OrderingExactly` | AAServer/src/VideoChannelHandler.cpp:20-49 | on every run, whatever other handlers of the program send and when: no media message of this handler precedes open request, open response, setup request, setup response, if and only if the static `firstSample` was true when the handler took its first sample (or it has sent none); then, and only then, it has set `channelOpened` |
| `VideoLink.NeverOpens` | AAServer/src/VideoChannelHandler.cpp:20-49 | a handler that has not taken a sample when another one clears the flag never opens its channel on any run, and whatever it sends is out of order |
| `VideoPair.EachRuns` | AAServer/src/VideoChannelHandler.cpp:18-51 | two handlers of one program that share the flag: each runs as the protocol with the other as its environment |
| `VideoPair.EachOrderedExactly` | AAServer/src/VideoChannelHandler.cpp:18-51 | on every run of both, the media of each are ordered if and only if it found the flag set at its first sample |
| `VideoPair.SecondHandlerUnordered` | AAServer/src/VideoChannelHandler.cpp:18-51 | the run in which one handler opens and sends, then the other sends on a channel that it never opens |
| `VideoPair.BothOpen` | AAServer/src/VideoChannelHandler.cpp:30-32 | when both take their first sample before either has sent one, both open their channels |
| `VideoLink.DeliveryLowersWork` | AAServer/src/VideoChannelHandler.cpp:163-190 | every delivery lowers the number of deliveries to come by exactly one, but for the one that the client fails at |
| `VideoLink.WaiterReleased` | AAServer/src/VideoChannelHandler.cpp:147-150 | while the media thread waits the client cannot have failed, some delivery is enabled, and after exactly the known number of deliveries, in any order, the thread has been released |
| `VideoLink.TimedFirstSampleFails` | AAClient/src/VideoChannelHandler.cpp:42-50 | a run of thirteen steps: if the first sample has a time its delivery makes the client use a source that it does not have, and no ack is sent |
| `VideoWire.ClientRealises` | AAClient/src/VideoChannelHandler.cpp:24-54 | the client's handler answers the bytes of each protocol message with the bytes of the protocol's answer and reports it handled |
| `VideoWire.ServerRealises` | AAServer/src/VideoChannelHandler.cpp:163-190 | so does the server's handler |
| `VideoWire.RunSimulated` | AAServer/src/VideoChannelHandler.cpp:127-190 | every run of the byte-level system is the run of the protocol |
| `VideoWire.VideoDelivered` | AAClient/src/VideoChannelHandler.cpp:24-54 | over every run on bytes nothing is reported unhandled, nothing but acknowledgements on an unopened channel goes to socket clients, and the client has played the first samples sent, in order, the others being in flight |
| `VideoWire.PlayExactly` | AAClient/src/VideoChannelHandler.cpp:37-54 | the client fails exactly when the first sample has a time; otherwise it keeps up, with a pipeline for each untimed sample |
| `VideoWire.DeliveredExactly` | AAClient/src/VideoChannelHandler.cpp:37-111 | on every run: what has been handled has been pushed into one pipeline without a failure if and only if the first sample, and no later one, has no time; when no delivery is left every sample sent has been so pushed and acknowledged to the handler if and only if that holds of all and the channel was opened for the first |
| `VideoWire.PlayMeaning` | AAClient/src/VideoChannelHandler.cpp:96-111 | each buffer has its sample's data, the time of the timestamp pipeline, and the pipeline that the last untimed sample has started |
| `VideoWire.TimedExactly` | AAClient/src/VideoChannelHandler.cpp:96-102 | a buffer has a time if and only if its sample has one that is not exactly 100 ms before the one that fixed the start: local time zero is never set |
| `VideoWire.TimeLost` | AAClient/src/VideoChannelHandler.cpp:96-102 | samples at 1 s and 0.9 s: the second loses its time |
| `VideoWire.PlayTiming` | AAClient/src/VideoChannelHandler.cpp:42-49 | buffers that have a time keep the order of presentation times, and differences to within 1000 ns |
| `Timestamps.OutExactly` | AAClient/src/VideoChannelHandler.cpp:42-49 | from the first frame not at 100000 us on, every frame is shifted by the same constant, modulo 2^64 |
| `Timestamps.ZeroExactly` | AAClient/src/VideoChannelHandler.cpp:43-49 | a frame comes out at time zero exactly when it is 100 ms before that first one |
| `Timestamps.DifferencesKeptExactly` | AAClient/src/VideoChannelHandler.cpp:44-48 | time differences survive if and only if the first time is not 100000 us or all times are: the start value 0 doubles as "not set" |
| `Timestamps.Fidelity` | AAServer/src/VideoChannelHandler.cpp:33-39 | from nanoseconds to nanoseconds: order kept, differences within 1000 ns, under an explicit bound against wrap-around |
| `InputLink.RunKeepsWaiters` | AAServer/src/ChannelHandler.cpp:12-51 | no step of a client's thread leaves a waiter without a request outstanding or about to be sent |
| `InputLink.RunKeepsFresh` | AAServer/src/InputChannelHandler.cpp:67-77 | a flag seen set was set by a response after that thread's own reset, whatever other threads do |
| `InputLink.RunKeepsIds` | AAServer/main.cpp:98-118 | a thread's steps keep ids and registrations those of live clients |
| `InputLink.OutsideStepsKeepInv` | AAServer/main.cpp:97-118 | so do packets, disconnections, exceptions, unknown packet types and failed answers, after which the socket is closed but the client still in the map |
| `InputLink.PeerKeepsInv` | AAServer/src/SocketClient.cpp:62-72 | so does a client that closes its own end, at any moment |
| `InputLink.StepKeepsFds` | AAServer/src/SocketClient.cpp:15-26 | no two open sockets share a number, though closed ones are given out again |
| `InputLink.StepKeepsInv` | AAServer/src/InputChannelHandler.cpp:40-81 | every step of any number of clients, of the links and of the headunit keeps the whole invariant |
| `InputLink.Reachable` | AAServer/src/InputChannelHandler.cpp:40-81 | and so does every run |
| `InputRuns.IdsUnique` | AAServer/main.cpp:86-118 | live ids are pairwise distinct, given once, registered ids are live, and `clients[scl]` never inserts a client |
| `InputRuns.HandlesStay` | AAServer/main.cpp:87-88 | once given, an id belongs to the same client for ever |
| `InputRuns.FanOut` | AAServer/src/InputChannelHandler.cpp:57-60 | each registered id stands for exactly one of the clients an event is handed to, and each of these is registered |
| `InputRuns.EventsFannedOut` | AAServer/src/InputChannelHandler.cpp:57-60 | in every run an event is written once to each client registered at that moment, to nobody else and without an exception, if and only if none of these clients has ended and none has closed its own end |
| `InputRuns.MessagesReach` | AAServer/main.cpp:76-82 | in every run a message for an id reaches exactly the client with that id if and only if it has neither ended nor closed its end, one for -1 exactly the clients in the map, in whatever order, if and only if that holds of all of them |
| `InputRuns.EndedClientStopsReader` | AAServer/src/SocketClient.cpp:15-26 | a registered client sends an unknown packet type; the next event reaches nobody and ends the thread that reads from the headunit |
| `InputRuns.VanishedClientStopsReader` | AAServer/src/SocketClient.cpp:62-72 | a client dies while its thread waits for the channel to open; the next event ends that thread too |
| `InputRuns.ReusedSocket` | AAServer/main.cpp:76-82 | the number of its closed socket goes to the next client, which gets a message for all twice |
| `InputRuns.SinceMeaning` | AAServer/src/ChannelHandler.cpp:12-51 | the recursive log predicate says: the thread reset the flag, then a response arrived, and the thread has neither reset it again nor left since |
| `InputRuns.HandshakeOrder` | AAServer/src/InputChannelHandler.cpp:67-77 | however many threads are opening: every handshake request follows an open response received after that thread's own reset in the same call, every return a handshake response likewise |
| `InputRuns.InternalLowersWork` | AAServer/src/InputChannelHandler.cpp:67-77 | every step of a thread or a link lowers the steps to come by exactly one |
| `InputRuns.WorkMeansProgress` | AAServer/src/ChannelHandler.cpp:48-51 | as long as any thread is inside the handler, or a link is not empty, some step is enabled, unless the reading thread has ended |
| `InputRuns.StopsOnlyAtEvent` | AAServer/src/InputChannelHandler.cpp:57-60 | the reading thread ends only at an event for a registered client that has ended, or has closed its end so that the write fails otherwise than with ECONNRESET |
| `InputRuns.EveryoneReleased` | AAServer/src/InputChannelHandler.cpp:40-77 | no lost wakeup: in any order of steps nobody is stuck while the reading thread lives, which it does when no event is in flight or no write to a registered client can fail, and after exactly the known number of steps every thread has returned |
| `InputWire.RunSimulated` | AAServer/src/InputChannelHandler.cpp:45-77 | every run on bytes is the run of the protocol, and no message of either direction goes unhandled |
| `InputHandlers.HeadRealises` | AAClient/src/InputChannelHandler.cpp:14-27 | AAClient answers the bytes of each request with exactly the bytes of its response |
| `InputHandlers.ServerRealises` | AAServer/src/InputChannelHandler.cpp:45-65 | AAServer handles the bytes of each response and event as the protocol's step does |
| `InputHandlers.RequestsSent` | AAServer/src/InputChannelHandler.cpp:22-38 | its requests are the protocol's, on bytes |
| `InputHandlers.HandleAsSpecified` | AAServer/src/InputChannelHandler.cpp:45-65 | its handler method does what the function on bytes says, for every message |
| `InputHandlers.InputSignals` | AAClient/src/InputChannelHandler.cpp:14-27 | exactly two types are handled; an open request becomes a packet of three bytes on the socket and an open response to the phone, a handshake request its response; all are encrypted and whole, and only the open response is Specific |
| `InputHandlers.ClientInputHandler.HandleMessageFromMobile` | AAClient/src/InputChannelHandler.cpp:14-27 | the handler's own signals are these: the announcement on the socket for open requests only, the bytes sent to the phone and their flags |
| `Announcement.PacketsOnSocket` | AAClient/src/AaCommunicator.cpp:76-141 | byte by byte what AAClient writes to the socket for any message from the phone, which is what the runs of `Proxy` are fed with |
| `Announcement.HandleMessage` | AAClient/src/AaCommunicator.cpp:76-141 | the branches of the main loop and the handlers, on any message: the packets their signals become are those bytes, and it throws exactly for channels without a handler and other types on channel 0 |
| `Announcement.TakeAnnouncement` | AAServer/main.cpp:97-106 | AAServer, reading the announcement, registers the client and goes on to open the channel, as the protocol's step for a packet does, and queues nothing |
| `Announcement.PhoneOpensInput` | AAClient/src/InputChannelHandler.cpp:14-27 | the two together, from the phone's open request on |
| `InputHandlers.ClientInputHandler.HandleMessageFromServer` | AAClient/src/InputChannelHandler.cpp:29-37 | passes the content on encrypted and whole, with the Specific bit if and only if asked for |
| `Hub.Clients.NewClient` | AAServer/main.cpp:87-89 | the new client gets the count so far as its id |
| `Hub.Clients.IdOf` | AAServer/main.cpp:99-104 | `clients[scl]` gives a known client's id and changes nothing, and inserts 0 for an unknown client |
| `Hub.Clients.GotMessage` | AAServer/main.cpp:68-83 | every client meant, and no other, is written the message exactly once; disconnected ones are skipped; it throws if and only if one fails otherwise, and then nobody has got it twice |
| `Hub.ServerInputHandler.FanOutEvent` | AAServer/src/InputChannelHandler.cpp:57-60 | an event is written exactly once to every live registered client and to no other |
| `Hub.ServerInputHandler.HandleMessageFromHeadunit` | AAServer/src/InputChannelHandler.cpp:45-65 | which flags a message sets, whom it is written to, and when it is unhandled or throws |
| `Hub.ServerInputHandler.Request` | AAServer/src/ChannelHandler.cpp:34-46 | both requests go out on the handler's channel, encrypted and whole; only the open request is Specific |
| `Hub.ServerInputHandler.OpenStep` | AAServer/src/InputChannelHandler.cpp:67-77 | each atomic piece of opening the channel is the protocol's step of that thread and sends the bytes of its request |
| `ServiceTable.FilledUnique` | AAServer/src/AaCommunicator.cpp:113-139 | "the last channel with an id decides" determines the whole table of handlers |
| `ServiceTable.NumberMeaning` | AAServer/src/AaCommunicator.cpp:116-123 | number 0 is the id of the last channel marked as video, number 1 that of the last marked as input and not as video, each 255 exactly when there is none |
| `ServiceTable.NumberNamesHandler` | AAServer/src/AaCommunicator.cpp:113-139 | either number leads to a handler of its kind if and only if no later channel has the same id |
| `ServiceTable.ServerDirectory.HandleServiceDiscoveryResponse` | AAServer/src/AaCommunicator.cpp:106-140 | stores the descriptor bytes; for every id the last channel with it decides by its own marks: video handler if marked as video, input handler if marked as input only, else default handler; ids that do not occur keep what they had; the channel numbers follow the marks too |
| `ServiceTable.ServerDirectory.GetChannelNumberByChannelType` | AAServer/src/AaCommunicator.cpp:142-148 | never throws, because the checked number is unsigned |
| `ServiceTable.ClientDirectory.HandleServiceDiscoveryRequest` | AAClient/src/AaCommunicator.cpp:95-131 | answers with the descriptor behind type 6; the table follows the channels' marks in the same way |
| `ServiceTable.DescriptorRelayExactly` | AAClient/main.cpp:35-44 | the phone gets the headunit's response unchanged if and only if the descriptor is at most 10240 bytes long; an empty one fails |
| `ServiceTable.Discover` | AAClient/src/AaCommunicator.cpp:95-131 | then both programs have handlers of the same kind for every id |
| `Routing.RawDataRoundTrip` | AAServer/src/SocketClient.cpp:47-57 | a socket packet decodes to its channel, Specific byte and content, the content cut at the read buffer's size |
| `Routing.TransparentExactly` | AAClient/src/AaCommunicator.cpp:76-91 | a phone message is queued for the headunit with its channel, Specific bit and content if and only if it is on a default channel, not of type 5, of a forwarded type when on channel 0, and fits 2 MiB |
| `Routing.ReturnExactly` | AAServer/src/AaCommunicator.cpp:150-172 | a headunit message is queued for the phone with its channel, Specific bit and content if and only if AAServer hands it on as it is (default channel, video channel not opened here, input event without Specific bit to a registered client, two types on channel 0) and it fits 100 KiB |
| `Routing.SingleFramesReturn` | AAServer/src/DefaultChannelHandler.cpp:14-19 | whatever AAServer hands on as it is and fits one frame returns unchanged |
| `Proxy.ReceiveKeepsInv` | AAClient/src/AaCommunicator.cpp:431-471 | a bulk transfer received, with the packet it leads to, keeps the accounting of the whole path |
| `Proxy.ReadKeepsInv` | AAServer/src/SocketClient.cpp:47-57 | so does a packet read and queued again |
| `Proxy.AcceptedPackets` | AAServer/main.cpp:97-99 | reading the packets that any messages of the phone lead to, the empty announcement of an input channel included, queues exactly what these messages are to be forwarded as |
| `Proxy.Transparent` | AAServer/src/DefaultChannelHandler.cpp:21-30 | in every interleaving of phone, AAClient, socket and AAServer, with AAServer's own messages and the phone's messages for AAClient itself in between: the phone's messages that the headunit has received are the first of those to be forwarded, in order |
| `Proxy.ForwardedMeaning` | AAClient/src/AaCommunicator.cpp:76-91 | what is to be forwarded of the phone's messages is exactly the relayable ones, unless one is too long for AAServer's buffer |
| `Proxy.ForwardedOne` | AAServer/src/SocketClient.cpp:47-57 | of a forwarded message the headunit gets the part that fits that buffer, with the same channel and Specific bit |
| `Proxy.RelayedMeaning` | AAClient/src/DefaultChannelHandler.cpp:11-15 | a relayed message has the same channel, Specific bit and content |
| `Proxy.TransparentInTheEnd` | AAServer/src/DefaultChannelHandler.cpp:21-30 | once nothing is on its way the headunit has all of those to be forwarded |
| `ProxyProgress.UsefulLowers` | AAServer/src/AaCommunicator.cpp:364-450 | every step on the path lowers the steps to come by exactly one |
| `ProxyProgress.SendRaises` | AAClient/src/AaCommunicator.cpp:274-359 | what a message adds to them: its phone frames twice, the reading of its packet if it has one, and the frames of 2000 bytes that come of it |
| `ProxyProgress.SettledExactly` | AAServer/src/AaCommunicator.cpp:364-450 | until everything has arrived some step can be taken |
| `ProxyProgress.Delivered` | AAServer/src/DefaultChannelHandler.cpp:21-30 | in whatever order steps are taken, everything has arrived after exactly that many and not before |
| `ReturnPath.AcceptsExactly` | AAServer/src/AaCommunicator.cpp:150-250 | AAServer throws at a message of a channel if and only if the channel has no handler, or is a video channel that it has opened and the type is none of four, or an input channel and the type none of three; on channel 0 it takes two types, throws at five if their own handling does, and at all others |
| `ReturnPath.PacketsOnSocket` | AAServer/src/AaCommunicator.cpp:150-171 | byte by byte what is written to AAClient's socket for any message from the headunit |
| `ReturnPath.ParseStepIs` | AAServer/src/AaCommunicator.cpp:344-362 | one call of the parser on a buffer of any number of whole frames dispatches the next message, whole, and stops the thread if and only if AAServer throws at it |
| `ReturnPath.ParseKeepsInv` | AAServer/src/AaCommunicator.cpp:344-362 | that keeps the accounting of the way back |
| `ReturnPath.TakeKeepsInv` | AAClient/main.cpp:75-93 | so does a packet read and queued for the phone |
| `ReturnPath.ReturnedMeaning` | AAServer/src/AaCommunicator.cpp:150-171 | a message that AAServer hands on as it is returns with its channel, Specific bit and content; any other does not return, but for an input event that loses its Specific bit |
| `ReturnPath.ReturnTransparent` | AAClient/src/DefaultChannelHandler.cpp:17-25 | headunit to phone, in every interleaving, with AAClient's own messages, messages that AAServer keeps, reads of any number of frames and changing registrations: the phone never fails, and the headunit's messages that it has received are the first of those returned, in order |
| `ReturnProgress.UsefulLowers` | AAServer/src/AaCommunicator.cpp:547-577 | every step on the way back lowers the bound on the steps to come |
| `ReturnProgress.SettledExactly` | AAServer/src/AaCommunicator.cpp:547-577 | until everything has settled some step can be taken |
| `ReturnProgress.Delivered` | AAClient/src/DefaultChannelHandler.cpp:17-25 | when no step is left all that AAServer has passed on has arrived, and unless it has thrown at a message that is all of the headunit's messages that it passes on |
| `Sockets.ChannelMessage` | AAClient/main.cpp:100-119 | the packet is written once: retried while interrupted, a success if and only if taken whole |
| `Sockets.FlagsFor` | AAServer/src/DefaultChannelHandler.cpp:24-27 | Specific if and only if asked for, always encrypted and whole, no other bit |
| `Sockets.ReaderThread` | AAClient/main.cpp:75-93 | a datagram for any channel with a handler is queued for the phone: the channel and the Specific bit from its first two bytes, the rest as content up to the buffer's size, encrypted and whole |
| `Sockets.ReadPacket` | AAServer/src/SocketClient.cpp:47-57 | the packet is three bytes and the rest of its own datagram up to the buffer's size; bytes that an earlier, longer packet left in the buffer never show up |
| `Sockets.ClientThread` | AAServer/src/SocketClient.cpp:28-60 | packet i is in the bytes of datagram i, up to the first datagram of length zero or the first packet that makes the slot throw; the thread ends accordingly |
| `Sockets.ReadOffUnique` | AAServer/src/SocketClient.cpp:28-60 | that determines the packets and the end |
| `Sockets.RawDataReadOff` | AAClient/main.cpp:100-119 | a packet of AAClient comes out of it with its channel, Specific bit and content |
| `Sockets.Server.DisconnectHandlers` | AAServer/src/AaCommunicator.cpp:183-188 | the client's id is taken out of the input handler's set, and only that |
| `Sockets.Server.GotRawData` | AAServer/main.cpp:97-106 | the message queued, the registration made, or the client dropped from map and handlers when its data has no handler |
| `Sockets.Server.Disconnected` | AAServer/main.cpp:114-118 | a disconnected client leaves the map and the input handler's set |
| `Sockets.Server.GotPacket` | AAServer/main.cpp:90-113 | each packet type's whole effect on sockets, map, registrations and queue: raw data for a default channel, and nothing else, queues one message with its channel, content and Specific bit; failed answers and unknown types end the thread but leave the client in the map |
| `BringUp.VersionNegotiation` | AAServer/src/AaCommunicator.cpp:85-93 | a version request is accepted by both sides if and only if its major number is 1 |
| `BringUp.FollowsScript` | AAClient/src/AaCommunicator.cpp:52-63 | every run of `setup` against the server's dispatch goes through the states of one script and no others |
| `BringUp.BringsUp` | AAServer/src/AaCommunicator.cpp:220-250 | neither side throws, messages follow the script, nothing is encrypted before the client's handshake is complete, and until the server holds the descriptor exactly one action is enabled |
| `BringUp.ClientSetup.DoSslHandshake` | AAClient/src/AaCommunicator.cpp:153-184 | when the handshake goes on, is complete, or throws, and the flight sent |
| `BringUp.ClientSetup.Setup` | AAClient/src/AaCommunicator.cpp:52-93 | on every sequence of incoming messages `setup` reacts as the specification does, stopping at an exception |
| `BringUp.ClientSetup.ExpectVersionResponse` | AAClient/src/AaCommunicator.cpp:248-254 | a version response is accepted if and only if it has eight bytes, type 2 and status 0; then the first flight is sent |
| `BringUp.ClientSetup.Handshake` | AAClient/src/AaCommunicator.cpp:57-63 | each handshake message on its bytes: the next flight, an empty one, the end of the handshake, or an exception |
| `BringUp.ClientSetup.HandleMessage` | AAClient/src/AaCommunicator.cpp:76-91 | four types are taken, a discovery request is answered with the descriptor, anything else is an exception |
| `BringUp.ClientRunSnoc` | AAClient/src/AaCommunicator.cpp:52-93 | `setup` takes the messages one by one, in order, until it throws |
| `BringUp.ServerControl.HandleMessageContent` | AAServer/src/AaCommunicator.cpp:220-290 | the dispatch on channel 0 on the bytes of any message: which types are exceptions and when, what state changes, and which bytes are sent in answer and whether encrypted; a ping is answered by type 0x0c, the focus responses do nothing |
| `BringUp.PingsAside` | AAServer/src/AaCommunicator.cpp:252-268 | pings anywhere among the messages that come after the handshake: AAServer does about the others what it would do without them, and if it throws at none each ping is answered once, in order |

## Left out

- **TLS.** The cipher is a pair of functions, the k-th record decrypting to the k-th content, with the expansion of sections 6.2.1 to 6.2.3 of RFC 5246; the handshake is a number of non-empty flights. Certificates and OpenSSL's own errors are not modelled.
- **Hypotheses on messages.** Messages queued have both frame bits and offset 0; encrypted content is not empty (OpenSSL refuses an empty `SSL_write`) and shorter than 2^31, because `offset` and the total are `int`. Contents that are dispatched by type have at least two bytes; AACS reads past shorter ones.
- **Undefined behaviour.** Transfers of two or three bytes, first frames under eight, socket packets under three bytes (two towards AAClient), channel types above 1 and channels without a handler are read out of bounds by AACS; the use of `app_source` before it has been set dereferences an indeterminate pointer. They count as failures or are excluded by `requires`.
- **Failure recovery.** USB retries in `writeThread` and transfers lost in the middle of a message are left out, and so is what AAServer does after its reading thread has ended, which makes the program quit.
- **Memory model.** Accesses without a lock (`gotChannelOpenResponse = false`, `registered_clients`, `clients`) are atomic steps; a wait is a step that is enabled when its flag is set.
- **Encodings.** Protobuf payloads are opaque bytes, the answer to a ping an unspecified function of the ping; a service descriptor is parsed by an unspecified function into channels with id, video and input marks.
- **Other programs and libraries.** GStreamer's own failures, X11 and GetEvents, snowmix, USB gadget and ModeSwitcher, pcap logging, signals and socket accept are left out, and so is the kernel's limit on the size of a socket packet.
- **Vectors passed by reference** are values; `clients` is iterated in any order, where AAServer uses the order of addresses.
- SendQueue.Sender.SendMessage: empty encrypted contents and plain contents of 65536 bytes or more are excluded, although the program queues them; `SendQueue.PlainRoundTripExactly` says what becomes of the latter.
- Pump.WriteOut: `checkTerminate`, which ends the loop when the program shuts down, is left out.
- VideoHandlers.ClientVideoHandler.HandleMessageFromMobile: an error that GStreamer returns for a pushed buffer, which makes the handler throw, is left out.
- VideoLink.StepKeepsInv: messages are named rather than bytes, and their flags byte is not tracked; `VideoWire.RunSimulated` supplies the bytes, the flags byte stays out.
- InputLink.StepKeepsInv: one input channel. The fan-out of an event over the registered clients is one atomic step; in the program another thread may erase from the set or the map that the loop is going through, which C++ leaves undefined. The number of a closed socket can be given to a new client only, not to another file. A write to a socket whose other end is closed does not raise SIGPIPE here.
- Sockets.Server.DisconnectHandlers: all input channels share one handler object here.
- Sockets.ReaderThread: a datagram of two bytes, which the program queues as an empty encrypted message, is excluded.
- Sockets.Server.GotRawData: so is empty raw data for a default channel.
- Sockets.Server.GotPacket: the same.
- Proxy.Transparent: on AAClient's side a completed message and its socket packet are one step, since one thread does both; messages that make AAClient throw (on a channel without a handler, or of another type on channel 0) end the session and are excluded, and so are exceptions of AAClient's own handlers. AAServer reads on while it opens an input channel, whose waits `InputRuns.EveryoneReleased` is about.
- ReturnPath.ReturnTransparent: only for a headunit that does not split messages, because AAServer does not reassemble (`DirectLink.SplitMessagesMisparse`), and reads that bring whole frames. Which control messages on channel 0 AAServer throws at is a parameter; an exception while a message is written to socket clients is in `InputRuns.MessagesReach`.
- BringUp.BringsUp: up to the discovery response; messages on other channels do not occur in it, and pings, at whose answers AAClient would throw, only in `BringUp.PingsAside`. An SSL message arriving after the handshake has ended counts as a failure.
- BringUp.ClientSetup.Setup: the fault counter is in `Reassembler.ReadAll`, messages on other channels in `Routing.TransparentExactly`.
