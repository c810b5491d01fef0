# LocalSend: a verified model of the transfer, signaling and token core

This project models the parts of LocalSend in which several programs have to agree with each other, and proves what
they agree on. `dafny verify dfyconfig.toml` checks everything.

## What is modelled

**The peer-to-peer transfer.** `Transfer.dfy` has the two tasks of `send_offer` and `accept_offer` as deterministic
sequential programs: a program counter with its live variables, one step per receive or send. `Channel.dfy` runs two
such programs over an ordered reliable channel, which is two unbounded queues of text and binary messages, in every
interleaving. It proves the confluence of any such pair, so that one reference run speaks for all runs.
`Session.dfy`, `Reference.dfy` and `Delivery.dfy` build that run (nonces, tokens, both PIN challenges, file list, file
tokens, the stream of headers, chunks and delimiters) for every sender, receiver, user behaviour and way of cutting
the files into pieces. The conclusions are in `TransferTheorems.dfy` (ends, bounds, completion, PINs), `NoErrors.dfy`
(sessions in which nothing goes wrong), `Agreement.dfy` (one nonce, one plan), `EndToEnd.dfy` (what the receiving
application reads, in the terms of `Reading.dfy`), `Answers.dfy` (what the sender learns of each file), `Wire.dfy`
(what may be on the channel) and `LastReply.dfy` (which task finishes first). The loops of the source are methods with
loops: `Framing.dfy` (chunker, strings in chunks), `Loops.dfy` (`verify_pin`, `handle_pin`, the receive loop, each
against any peer whatever), `Rebuffering.dfy` (the application's 1 MiB buffer).

The source does not look at the kind of the message that holds a PIN or the last reply. A session marked `strict` is
one whose tasks would refuse a wrong kind there; `NoErrors.KindsExpected` compares the two and finds that the source's
tasks never meet one in a sound session. Every other theorem holds of both.

**The signaling server.** `Server.dfy` has the shared maps as a class whose methods are the lock regions, and a state
machine in which every lock region, every single send, every end of a task and every hourly clear is a separate step
of some handler. A handler is two tasks: the connection itself and the receive task, which goes on until it yields
after it has been aborted, so that it may still apply a request or send an update while the connection is being closed
and after the peer has left the room. `Room.dfy` is the machine of one IP group. `RoomViews.dfy` and
`RoomKnowledge.dfy` carry the inductive invariants, `RoomTheorems.dfy` has the theorems about one room,
`RoomRelays.dfy` counts relayed messages and errors over whole runs, `Departures.dfy` is about what may follow a
departure, and `Server.dfy` proves that the projection of any run of the server to one group is a run of that room.

**The bridge codec.** `Formats.dfy` describes a format by how it puts, how it gets and which values survive, and
proves the laws of its combinators (integers, options, pairs, lists with a 32-bit length, conversions).
`BridgeTypes.dfy` and `BridgeCodec.dfy` compose them into the records and enumerations of the bridge;
`BridgeLayout.dfy` has the bytes of each, apart from how they are put and got, and `Unicode.dfy` says which bytes are
a string; `BridgeStreams.dfy` has the serializer and the deserializer as classes that move a cursor: each method, for
each record, list and option, is proved to write or read what its format says, and together they carry a message
across the bridge. `Entries.dfy` is about hash maps, which are written in whatever order they iterate.

**Tokens, nonces, groups, answers.** `Token.dfy` prints and verifies the dotted tokens over `Base64.dfy`,
`LittleEndian.dfy` and `Texts.dfy`. `Lru.dfy` is the least-recently-used cache, `Nonces.dfy` the pair of caches under
two locks with any number of exchanges at once. `IpGroup.dfy` prints the group of an address. `Signaling.dfy` is the
client's listener with its one-shot answer callbacks.

Cryptography, user behaviour, JSON text and the iteration order of hash maps are parameters: functions or values about
which nothing is assumed but what the statement says. For JSON that is `Transfer.Json.Lawful`: what is written for a
type is not empty and reads back as the same value, a file header takes more than one byte, and the empty text is no
JSON.

## Where the code does less than one might expect

- A delimiter that arrives while no file is open is parsed as a header and fails the receiver
  (core/src/webrtc/webrtc.rs:890-923). A transfer therefore completes only if at least one file is sent and the last
  one sent had been offered: `TransferTheorems.CompletesExactly` has the exact condition, `TransferTheorems.NoFilesFail`
  the simplest failure.
- An empty PIN configured at the receiver is accepted before the sender has sent one
  (core/src/webrtc/webrtc.rs:1188-1194), while the sender, told that a PIN is required, always sends one
  (core/src/webrtc/webrtc.rs:297-322); the receiver then reads that text where it expects a string in chunks. The
  dialogue fails, whatever the user enters: `Reference.EmptyReceiverPin`.
- The sender reads one message after its delimiter, ends and closes the connection (core/src/webrtc/webrtc.rs:558,
  618-623), whether or not that is the reply for the last file. `LastReply.SenderLeavesFirst` is a run in which the
  receiver is still in its loop then; `LastReply.SenderWaitsExactly` says that there is none exactly if just one of the
  files sent was accepted; `EndToEnd.EndToEnd` says what is left in the sender's queue.
- An answer that arrives before its callback is registered is lost, and the offer is sent before the registration
  (core/src/webrtc/webrtc.rs:575-589): `Signaling.AnswerMustNotOvertake`.
- A token timestamp in the future underflows (core/src/crypto/token.rs:156); a token with fewer than five parts panics
  in the slice, which is taken before the check that was meant to refuse it (core/src/crypto/token.rs:182-185); further
  parts are ignored: `Token.TimestampRoundTrip`, `Token.TimestampPanicsExactly`, `Token.PanicsExactly`, `Token.Carries`.
- A collection of 2^31 entries or more, or a string that long, does not survive the bridge codec:
  `BridgeCodec.MessageRoundTrip`, `BridgeCodec.RequestRoundTrip`.
- A refused connect can leave an empty room behind (server/src/controller/ws_controller.rs:111-123):
  `Server.EnterLeavesEmptyRoom` has the exact condition for one connect, `Server.EmptyRoomExactly` for every run, and
  `Server.EmptyRoomExample` a run of five steps.
- An aborted receive task may send its update after the departure of its peer was announced
  (server/src/controller/ws_controller.rs:238-272, 299-305). When a peer is removed, its departure will be the last word
  about it to another member, however the run goes on, exactly if its task has no update for that member in hand:
  `Departures.LastExactly`, with a run of ten steps in `Departures.LateUpdateExample`. A client that takes the last
  message to be the truth is wrong otherwise; one that lets a departure be final is right in the end in any case
  (`RoomTheorems.ViewsConverge`).
- A file that is sent but had not been offered is reported as an error and its bytes are dropped
  (core/src/webrtc/webrtc.rs:925-992), which does not keep a transfer from completing: `NoErrors.NoErrorReachable` has
  the exact condition.

## Model

| member | source | states |
|---|---|---|
| Channel.System.Join | core/src/webrtc/webrtc.rs:200-206 | any two runs of two sequential tasks over an ordered channel can be completed to a common state, in equally many steps |
| Channel.System.EveryRunEndsThere | core/src/webrtc/webrtc.rs:200-206 | if some run comes to a stop, every run is a beginning of one that stops in the same state, with the same logs, and cannot be longer |
| Channel.System.VerdictsAgree | core/src/webrtc/webrtc.rs:200-206 | a verdict or a log a task ends with in one run is its verdict and its final log in every run |
| Channel.System.LeftWentOn | core/src/webrtc/webrtc.rs:200-206 | where one task waits for the other, any run in which it shows more is one in which the other has gone on |
| Channel.System.RightGoesFirst | core/src/webrtc/webrtc.rs:200-206 | where one task waits for the last step of the other, any run has come past that step or can still come to this state |
| Framing.DataChannel.Send | core/src/webrtc/webrtc.rs:536-539 | one message, which must not be empty, is appended, or the send fails and nothing is |
| Framing.SendDelimiter | core/src/webrtc/webrtc.rs:1250-1254 | the end of a stream is the text message "0" |
| Wire.NothingEmpty | core/src/webrtc/webrtc.rs:1250-1254 | in every reachable state of every session, no message on its way to either task is empty |
| Framing.ChunksAreCanonical | core/src/webrtc/webrtc.rs:1280-1296 | pieces of exactly the chunk size followed by one shorter non-empty rest: the chunker's division is the only one of that shape |
| Framing.ChunkCount | core/src/webrtc/webrtc.rs:1266-1299 | the number of chunks is the length divided by 16384, rounded up |
| Framing.ProcessInChunks | core/src/webrtc/webrtc.rs:1271-1299 | however the input is cut, exactly the canonical chunks of its concatenation are sent, up to the first send that fails, and success is reported exactly if none failed |
| Framing.SendStringInChunks | core/src/webrtc/webrtc.rs:1303-1319 | a string leaves as the canonical chunks of its bytes |
| Framing.Feed.StepFacts | core/src/webrtc/webrtc.rs:1280-1296 | the small steps of the same loop emit the first canonical chunk of what is left, or leave what is left unchanged |
| Framing.Inbox.Receive | core/src/webrtc/webrtc.rs:1334-1348 | messages are taken in the order of arrival, none after the channel is closed |
| Framing.ReceiveStringFromChunks | core/src/webrtc/webrtc.rs:1321-1332 | the loop returns the bytes before the first string message and takes that message, no further one |
| Framing.StringRoundTrip | core/src/webrtc/webrtc.rs:1303-1332 | for every string and any following messages: chunks and delimiter are received as that string and the rest is untouched |
| Rebuffering.BufferReceiver | app/rust/src/util/bytes.rs:7-35 | the loop emits the buffers of its specification, until the consumer goes away |
| Rebuffering.Conserves | app/rust/src/util/bytes.rs:16-29 | for any input no byte is lost, added or reordered |
| Rebuffering.EmitsFull | app/rust/src/util/bytes.rs:16-29 | no message is empty, and all but the last have at least 1 MiB |
| Rebuffering.ComposesWithChunks | app/rust/src/util/bytes.rs:10-29 | fed by the chunker, whatever it already holds, the buffer divides the bytes exactly into 1 MiB pieces |
| Rebuffering.FileArrivesInFullBuffers | app/rust/src/util/bytes.rs:7-35 | a file from the chunker arrives in messages of exactly 1048576 bytes, only the last one shorter |
| Session.ChallengeMeaning | core/src/webrtc/webrtc.rs:1191-1223 | a challenge is passed exactly if one of the first `max_tries` entries is the PIN, after at most that many rounds |
| Session.Session.StringToReceiver | core/src/webrtc/webrtc.rs:370-392 | a string sent in chunks is read by the other task as that string, leaving both queues as they were |
| Session.Session.StringToSender | core/src/webrtc/webrtc.rs:843-878 | the same from the receiver to the sender |
| Reference.NonceArrives | core/src/webrtc/webrtc.rs:1078-1101 | a 32-byte nonce survives base64, JSON and the length check |
| Reference.NonceTaken | core/src/webrtc/webrtc.rs:1078-1101 | a nonce is taken from a text of JSON of base64 of 16 to 128 bytes, and from no other message |
| Reference.Handshake | core/src/webrtc/webrtc.rs:233-260 | both tasks come to hold sender nonce followed by receiver nonce, and the receiver holds the sender's token over it |
| Reference.TokensExchanged | core/src/webrtc/webrtc.rs:262-295 | with the tokens exchanged, where each side stands depends only on whom it trusts and whether the receiver has a PIN |
| Reference.ReceiverChallenge | core/src/webrtc/webrtc.rs:1110-1226 | `handle_pin` at the sender and `verify_pin` at the receiver: one reply per PIN, empty queues after each round, and the outcome of the challenge on both sides |
| Reference.SenderChallenge | core/src/webrtc/webrtc.rs:1110-1226 | the same with the sender verifying and replying in chunks |
| Reference.EmptyReceiverPin | core/src/webrtc/webrtc.rs:735-760 | an empty PIN at the receiver: whatever the users do, a task fails, the other gets no further, and nothing is published |
| Reference.UpToFiles | core/src/webrtc/webrtc.rs:222-393 | for every session: both sides know the file list, or nothing can move, a task has failed, and nothing was published or selected |
| Delivery.SelectionMade | core/src/webrtc/webrtc.rs:828-880 | the user's selection becomes the same token map on both sides, a refusal ends both as declined |
| Delivery.SenderStreams | core/src/webrtc/webrtc.rs:500-556 | every file with a token leaves as a header and its canonical chunks, in order; the others are reported and skipped |
| Delivery.ReceiverTakesAll | core/src/webrtc/webrtc.rs:882-993 | the receive loop over such a stream opens, fills, closes and answers the offered files in order, and finishes exactly if a file is open at the delimiter |
| TransferTheorems.EveryInterleaving | core/src/webrtc/webrtc.rs:222-561 | every run of every session, whatever its users do, is a beginning of one with the same end, the same length and the same logs; the end is computed for admitted sessions, and is otherwise a state without anything published or selected in which a task has failed and nothing can move |
| TransferTheorems.RunsAreBounded | core/src/webrtc/webrtc.rs:222-561 | for every session there is a bound on the length of all its runs |
| TransferTheorems.CompletesExactly | core/src/webrtc/webrtc.rs:882-923 | both tasks can finish exactly if tokens are trusted, PINs pass, files were selected, and the last file sent was offered; and then every reachable state leads to their finishing |
| NoErrors.NoErrorReachable | core/src/webrtc/webrtc.rs:885-992 | in a session that completes, no reachable state has a failed task, so nothing is ever misread; and no file error is ever reported to the receiving application exactly if every file sent was offered |
| NoErrors.OfferedSelection | core/src/webrtc/webrtc.rs:836-870 | which is so if the user selects offered files only |
| NoErrors.KindsExpected | core/src/webrtc/webrtc.rs:1198-1216 | in such a session the next message of either task is always of the kind it takes, also where the kind is not checked, and binary data comes only while a file is open |
| TransferTheorems.NoFilesFail | core/src/webrtc/webrtc.rs:882-923 | with no file to send, every run ends with the receiver failing on the delimiter and the sender waiting for a reply |
| TransferTheorems.OneReplyPerFile | core/src/webrtc/webrtc.rs:885-921 | one response for each file opened, in the order of the files |
| TransferTheorems.OneReplyEach | core/src/webrtc/webrtc.rs:885-921 | as many replies as accepted files, the k-th of which reads as the id of the k-th file with success exactly if the user said so, and otherwise with an error, which is the user's if there is one |
| Answers.SessionTells | core/src/webrtc/webrtc.rs:885-921 | in every reachable state of every session, the replies on their way are those of the last files answered, in order, each telling what the user said of its file |
| Answers.LoopTells | core/src/webrtc/webrtc.rs:885-921 | the same of the receive loop after any messages whatever: every opened file but the open one has been answered |
| TransferTheorems.AcceptedExactly | core/src/webrtc/webrtc.rs:500-512 | the files accepted are, as often as they are to be sent, those that were offered and selected |
| EndToEnd.FilesAreBracketed | core/src/webrtc/webrtc.rs:885-992 | in every reachable state of every session: a file is opened only while none is open, bytes and the end of a file are reported only while that file is open, and at the end of the task none is |
| EndToEnd.EndToEnd | core/src/webrtc/webrtc.rs:500-558 | in every reachable state the receiving application has an initial part of the accepted files in the order sent, every byte within the brackets of its own file; at the end all of them byte for byte, with one reply each in the same order that tells what the user said of it |
| LastReply.SenderLeavesFirst | core/src/webrtc/webrtc.rs:556-558 | with two accepted files or more there is a run in which the sender has finished and the receiver is still in its loop |
| LastReply.SenderWaitsExactly | core/src/webrtc/webrtc.rs:556-558 | in a session that completes, the sender finishes only after the receiver, in every interleaving, exactly if just one of the files sent was accepted |
| Reading.DataIsInside | core/src/webrtc/webrtc.rs:947-992 | in an unbroken log, reported bytes follow the opening of their own file with nothing but its bytes between |
| Reading.OpenedIsClosed | core/src/webrtc/webrtc.rs:885-921 | in an unbroken log, every file opened is closed before anything else is opened, or is the one still open |
| TransferTheorems.PinGate | core/src/webrtc/webrtc.rs:735-834 | in every reachable state, a published file list means that both tokens convinced and that by then each user with a PIN to present had been asked for it and had answered with it, within the tries |
| TransferTheorems.PublishedIsTheOffer | core/src/webrtc/webrtc.rs:830-834 | in every reachable state, what the receiver has published is the sender's file list, after everything that comes before it |
| Agreement.SameNonce | core/src/webrtc/webrtc.rs:233-247 | in every reachable state of every session, whichever task is past the nonces holds sender nonce followed by receiver nonce |
| Agreement.OnePlan | core/src/webrtc/webrtc.rs:488-491 | in every reachable state, also once the other task has ended: the plan the receiver goes by is the sender's offer with tokens for exactly the selected files, and the file map the sender was given is the same, from an admitted session with a selection, with the token drawn for each selected file |
| TransferTheorems.ReceiverPinExhausted | core/src/webrtc/webrtc.rs:1110-1226 | with wrong entries every run goes on to both tasks failing after exactly `max_tries` rounds, with empty queues, and stops nowhere else |
| TransferTheorems.SenderPinExhausted | core/src/webrtc/webrtc.rs:1110-1226 | the same with the sender verifying, also when the receiver has had its own PIN presented before |
| Loops.VerifyPin | core/src/webrtc/webrtc.rs:1174-1226 | whatever the peer sends: success exactly if one of the first `max_tries` PINs is the right one or the PIN is empty, one message read per round, the 8-bit counter never overflows |
| Loops.HandlePin | core/src/webrtc/webrtc.rs:1110-1166 | the loop sends one PIN each time the user is asked and ends as its specification says, replies in chunks or not |
| Loops.ConverseMeaning | core/src/webrtc/webrtc.rs:1118-1165 | the user is asked again exactly as long as the replies say so; the first other reply decides |
| Loops.SingleReplies | core/src/webrtc/webrtc.rs:1134-1146 | without chunks the k-th reply is the k-th message, and only if it is a string |
| Loops.HandleMessage | core/src/webrtc/webrtc.rs:885-992 | the body of the receive loop does what the receiver's program does with one message |
| Loops.ReceiveFiles | core/src/webrtc/webrtc.rs:882-993 | the loop over any messages takes them one by one until a delimiter, an error or the end of the channel, and none after |
| Loops.Isolation | core/src/webrtc/webrtc.rs:882-993 | after any messages whatever, a file is open exactly if the last string message is its accepted header (known id, its token, listed) |
| Loops.FinishesExactly | core/src/webrtc/webrtc.rs:909-923 | after any messages whatever, the loop has finished exactly if it came to a string of at most one byte inside a file |
| Loops.BytesStayInTheirFile | core/src/webrtc/webrtc.rs:947-992 | after any messages whatever, bytes were given to a file's stream exactly if they came in a binary message inside that file, before the loop ended |
| Loops.StreamsAreSegments | core/src/webrtc/webrtc.rs:882-993 | after any messages whatever, what the application reads is exactly the messages cut up by their accepted headers, byte for byte and in order |
| Loops.LoopIsBracketed | core/src/webrtc/webrtc.rs:882-993 | after any messages whatever, every byte was reported while its own file was open |
| RoomViews.ToBroadcast | server/src/controller/ws_controller.rs:152-156 | a broadcast over an iteration order sends each peer of the room exactly one message |
| RoomViews.StructuredStep | server/src/controller/ws_controller.rs:88-369 | every step, also of a receive task that was aborted, keeps the structure of a room: who is recorded, who is a member, and that handlers send only messages of their own peer to peers of the room |
| RoomKnowledge.DeliveryKeepsTracks | server/src/controller/ws_controller.rs:152-163 | a send moves news from pending to told and changes nothing else |
| RoomKnowledge.ConsistentStep | server/src/controller/ws_controller.rs:88-369 | every step, also of a receive task that was aborted, keeps what each member has been or will be told in agreement with the room |
| RoomTheorems.AlwaysConsistent | server/src/controller/ws_controller.rs:88-369 | in every state of every run: sent and pending news together are right about every member |
| RoomTheorems.ViewsConverge | server/src/controller/ws_controller.rs:125-163 | once all sends are made, each member's merge of its `Hello`, `Join`, `Update` and `Left`, a `Left` being final, is the room without itself, with the latest infos, wherever the `Hello` came in |
| Departures.DepartureIsLast | server/src/controller/ws_controller.rs:232-272 | if a peer is removed while its receive task has no update for another member in hand, then in every later state that member has been told what it had been told before, and after it at most the departure, for the first time |
| Departures.LateIsPossible | server/src/controller/ws_controller.rs:232-272 | from any reachable state in which a peer can be removed while its task has updates for a member in hand, a run in which the member is told of the departure and then of the updates |
| Departures.LastExactly | server/src/controller/ws_controller.rs:232-305 | over all continuations of a run by a removal: nothing ever follows the departure in what a member is told exactly if the task has no update for that member in hand |
| Departures.LateUpdateExample | server/src/controller/ws_controller.rs:232-272 | a run from the empty room in which an update arrives after the departure of its peer, as the last word about it |
| Departures.EverybodyCanLeave | server/src/controller/ws_controller.rs:232-272 | from every reachable state, for every accepted peer, the run can go on to a state in which it has left the room, its last sends are made and its task has ended |
| RoomTheorems.ExactlyOnce | server/src/controller/ws_controller.rs:108-163 | of two peers that were ever members together, exactly one was introduced to the other as the later one: by `Hello` to it and by exactly one `Join` to the other |
| RoomTheorems.AnnouncedFirst | server/src/controller/ws_controller.rs:152-163 | in every reachable state, a peer that has got its `Hello` has been announced, once, to everybody named there |
| RoomTheorems.RefusedNeverAnnounced | server/src/controller/ws_controller.rs:108-150 | a refused connection is never announced, a member, or in anybody's snapshot |
| RoomTheorems.OffersAreGenuine | server/src/controller/ws_controller.rs:313-356 | an offer or answer queued for a peer was requested by its origin, a peer of the same room, for that peer, with session id and SDP unchanged, and shows the origin as it was when it connected |
| RoomRelays.RelaysAreConserved | server/src/controller/ws_controller.rs:313-356 | in every state of every run: the copies of an offer or answer that its target has got, those on the way and those given up because the target was gone or the task was stopped are together as many as the requests admitted |
| RoomRelays.OneErrorAndNoMore | server/src/controller/ws_controller.rs:185-195 | in every run a peer gets at most one error, with code 429, for a message over the budget, and none of its requests is taken after that |
| RoomTheorems.WithinLimits | server/src/controller/ws_controller.rs:108-138 | in every reachable state the room is within its capacity, and the counter equals the connects and messages let through since the last clear, within the budget |
| RoomTheorems.GuardsHold | server/src/controller/ws_controller.rs:152-163 | every pending send of either task can be made at once; an admitted request finds its peer in the room exactly if the connection has not been removed yet |
| Server.SharedState.Connect | server/src/controller/ws_controller.rs:108-143 | the connect region: refused for capacity without spending budget, refused for budget without entering, or entered with the members it found |
| Server.SharedState.Disconnect | server/src/controller/ws_controller.rs:251-268 | the disconnect region removes the peer, and the room with its last peer |
| Server.BroadcastTo | server/src/controller/ws_controller.rs:299-305 | the loop over the collected senders makes one send each, in order |
| Server.RegionsAreLocal | server/src/controller/ws_controller.rs:108-143 | each lock region touches the room and the counter of its own group only, and decides by them only |
| Server.EnterLeavesEmptyRoom | server/src/controller/ws_controller.rs:111-123 | a connect leaves a room without members exactly if nobody was in it and capacity is zero or the budget is spent |
| Server.EmptyRoomExactly | server/src/controller/ws_controller.rs:111-123 | in every reachable state a group has such a room exactly if a connect to it was refused while it had nobody, and nobody has entered since |
| Server.EmptyRoomExample | server/src/controller/ws_controller.rs:111-123 | a run of five steps that ends with an empty room |
| Server.StepProjects | server/src/controller/ws_controller.rs:88-369 | a step of the server is one step of its own group's room and none of any other; a clear is one of every room |
| Server.RoomsAreIndependent | server/src/controller/ws_controller.rs:88-369 | the projection of any run of the server to a group is a run of that group alone |
| Server.RoomsRunFreely | server/src/controller/ws_controller.rs:88-369 | the other way round: every run of a room is the projection of a run of the server, so the server keeps a group from nothing the room could do |
| Server.GroupsAreIsolated | server/src/controller/ws_controller.rs:313-332 | in every run, whatever is queued for a peer comes from a peer of its own group, and every group keeps to its capacity and budget |
| Formats.Exactly | app/rust/src/frb_generated.rs:2380-2390 | in a lawful format the fitting values, and no others, come back from any position of any stream with the rest untouched |
| Formats.UnsignedIsLawful | app/rust/src/frb_generated.rs:2762-2774 | fixed-width integers read back |
| Formats.SignedIsLawful | app/rust/src/frb_generated.rs:2318-2323 | signed 32-bit integers read back, in two's complement |
| Formats.OptionalIsLawful | app/rust/src/frb_generated.rs:2430-2439 | an option of a lawful format is lawful |
| Formats.PairIsLawful | app/rust/src/frb_generated.rs:2589-2596 | fields written one after another are read one after another |
| Formats.ListIsLawful | app/rust/src/frb_generated.rs:2380-2390 | a list is recovered exactly if it has fewer than 2^31 entries and all of them are |
| Entries.CollectIterated | app/rust/src/frb_generated.rs:2047-2053 | whatever the order a map is iterated in, collecting the entries gives the map back |
| BridgeTypes.InfoIsLawful | app/rust/src/frb_generated.rs:2219-2237 | client information reads back, field by field |
| BridgeTypes.FileIsLawful | app/rust/src/frb_generated.rs:2284-2316 | file descriptions read back, with their nested optional metadata |
| BridgeTypes.RegisterIsLawful | app/rust/src/frb_generated.rs:2607-2629 | device descriptions read back |
| BridgeTypes.EnumerationsAreLawful | app/rust/src/frb_generated.rs:2257-2269 | enumerations read back from their numbers, and no other number is read |
| BridgeCodec.MessageRoundTrip | app/rust/src/frb_generated.rs:2795-2841 | a server message, written anywhere and followed by anything, is read back exactly if every string and list in it is shorter than 2^31 |
| BridgeCodec.RequestRoundTrip | app/rust/src/frb_generated.rs:2512-2525 | the same for an upload request, for every order its file map is written in |
| BridgeStreams.PassServerMessage | app/rust/src/frb_generated.rs:4454-4492 | encoder and decoder run after one another: the same message comes out and nothing is left unread exactly if its lengths fit |
| BridgeStreams.PassPrepareUpload | app/rust/src/frb_generated.rs:4220-4228 | the same for an upload request, whatever order its map is drained in |
| BridgeLayout.MessageWritten | app/rust/src/frb_generated.rs:4454-4492 | the bytes of a server message: its number, 0 for `Hello` to 6 for `Error`, in four bytes, and then its fields in order, with their lengths |
| BridgeLayout.RequestWritten | app/rust/src/frb_generated.rs:4220-4228 | the bytes of an upload request, field by field, with the entries in the order of the iteration |
| BridgeLayout.InfoWritten | app/rust/src/frb_generated.rs:3980-3990 | the bytes of client information are those of its fields in order |
| BridgeLayout.FileWritten | app/rust/src/frb_generated.rs:4030-4041 | the same for file descriptions |
| BridgeLayout.RegisterWritten | app/rust/src/frb_generated.rs:4299-4311 | the same for device descriptions |
| BridgeLayout.DeviceWritten | app/rust/src/frb_generated.rs:4002-4020 | device types are the numbers 0 to 4 in four bytes |
| BridgeLayout.OctetsWritten | app/rust/src/frb_generated.rs:4106-4114 | the low 32 bits of the length, least significant byte first, and then the bytes |
| BridgeLayout.AnyFlag | app/rust/src/frb_generated.rs:2430-2439 | any byte but zero reads as true, also where it says that a value is present |
| BridgeLayout.NegativeLength | app/rust/src/frb_generated.rs:2380-2390 | a length with its highest bit set reads no item |
| Unicode.Utf8Exactly | app/rust/src/frb_generated.rs:2196-2202 | bytes are a string exactly if they are the UTF-8 encoding of some Unicode scalar values |
| BridgeStreams.Serializer.WriteServerMessage | app/rust/src/frb_generated.rs:4454-4492 | the encoder appends exactly the bytes laid down for the message |
| BridgeStreams.Serializer.WriteFiles | app/rust/src/frb_generated.rs:3806-3814 | draining the map writes all its entries in some iteration order |
| BridgeStreams.Deserializer.ReadServerMessage | app/rust/src/frb_generated.rs:2795-2841 | the decoder returns what the message format reads, advances past it, and panics exactly where it reads nothing |
| BridgeStreams.Deserializer.ReadBytes | app/rust/src/frb_generated.rs:2380-2390 | the decoding loop reads as many bytes as the length says, none for a negative one |
| BridgeStreams.Deserializer.ReadPrepareUpload | app/rust/src/frb_generated.rs:2512-2525 | the decoder returns the request with its entries collected, or panics, as the request format does |
| Base64.Bijection | core/src/util/base64.rs:5-13 | the decoder inverts the encoder and accepts nothing but what the encoder prints (section 5 of RFC 4648, without padding) |
| Base64.EncodesBits | core/src/util/base64.rs:5-9 | every three bytes, the last filled up with zero bits, are printed as the letters of table 2 of RFC 4648 for their groups of six bits, as many as needed |
| Base64.NoDot | core/src/util/base64.rs:5-9 | encoded text has no dot |
| Texts.SplitExactly | core/src/crypto/token.rs:182 | splitting recovers parts without the separator, and from their join only |
| LittleEndian.ReadWrite | core/src/crypto/token.rs:112-116 | a number that fits its width is read back from its bytes |
| LittleEndian.WriteAt | core/src/crypto/token.rs:112-116 | the k-th byte is the k-th digit of the number in base 256 |
| Token.AcceptsExactly | core/src/crypto/token.rs:177-220 | every accepted string has the five fields of a token over an accepted salt with a valid signature, and every such string is accepted |
| Token.AcceptedMeaning | core/src/crypto/token.rs:200-220 | an accepted token has the hash of key and nonce in its second field, the nonce in its third, and a signature of that hash |
| Token.NoCarryOver | core/src/crypto/token.rs:200-220 | if the hash has no collisions, no hash and signature serve two nonces |
| Token.CarriesOneSalt | core/src/crypto/token.rs:195-199 | a token determines its salt |
| Token.GeneratedOutcome | core/src/crypto/token.rs:118-136 | on a generated token, whatever the salt check says is the outcome |
| Token.NonceRoundTrip | core/src/crypto/token.rs:166-175 | for all keys and byte strings n and m: the token for n is accepted against m exactly if n equals m |
| Token.TimestampRoundTrip | core/src/crypto/token.rs:143-164 | a timestamp token is accepted exactly within the hour; one from the future panics or wraps around, depending on the build |
| Token.PanicsExactly | core/src/crypto/token.rs:182-185 | verification against a nonce panics on exactly the strings with fewer than four dots |
| Token.TimestampPanicsExactly | core/src/crypto/token.rs:143-164 | verification of a timestamp panics on exactly the strings with fewer than four dots and, in builds with overflow checks, those with the right names around a time that has not come yet, whatever their hash and signature |
| Token.CheckPanicsExactly | core/src/crypto/token.rs:177-204 | for any salt check: exactly on fewer than four dots, or if the check panics on the salt shown between the right names |
| IpGroup.GroupsAreExact | server/src/util/ip.rs:3-18 | two addresses have the same group exactly if they are the same IPv4 address or in the same IPv6 /64 |
| IpGroup.GroupShows | server/src/util/ip.rs:3-18 | the group of an address shows its four numbers, or the first four of an IPv6 address, in order, in base ten or sixteen |
| Texts.DigitsInjective | server/src/util/ip.rs:7-15 | different numbers print differently, in decimal and in hexadecimal |
| Texts.DigitsAreUsual | server/src/util/ip.rs:7-15 | numbers print in the digits of their base without leading zeros |
| Texts.DigitIsUsual | server/src/util/ip.rs:7-15 | the digits are 0 to 9 and a to f |
| Lru.LruCache.Put | core/src/http/server/controller/v3.rs:29-30 | an existing key moves to the front with the new value, a new key evicts the oldest entry of a full cache |
| Lru.LruCache.Get | core/src/http/client/v3.rs:86-93 | a read finds the value and makes the entry the most recent |
| Lru.ReplayIsRecent | core/src/http/server/mod.rs:48-53 | after any history the cache holds the most recent keys, as many as fit |
| Lru.RecentMeaning | core/src/http/server/mod.rs:48-53 | recent entries are the last ones of all keys of the history, in the order of their last puts |
| Nonces.NonceMaps.Exchange | core/src/http/server/controller/v3.rs:10-50 | the server's exchange: both maps updated under one key, or the request refused and nothing changed |
| Nonces.NonceMaps.Store | core/src/http/client/v3.rs:75-96 | the client's exchange: both maps updated under one key, and the two reads for the log never panic |
| Nonces.ReadAfterPut | core/src/http/client/v3.rs:84-93 | reading what was just put finds it and changes nothing |
| Nonces.ReadsNeverFail | core/src/http/client/v3.rs:78-93 | in every interleaving of exchanges, neither read ever fails |
| Nonces.MapsStayInStep | core/src/http/server/controller/v3.rs:27-36 | whenever the locks are free both maps hold the same keys in the same order, the 200 most recent, and both values under a key come from its last exchange |
| Nonces.NeverStuck | core/src/http/client/v3.rs:78-82 | the order of the two locks always lets some exchange go on, until all are done |
| Nonces.RunsAreBounded | core/src/http/client/v3.rs:78-93 | no run has more than seven steps an exchange |
| Signaling.ManagedConnection.OnAnswer | core/src/webrtc/signaling.rs:364-370 | registering a callback replaces the one for the same session |
| Signaling.ManagedConnection.Receive | core/src/webrtc/signaling.rs:292-303 | a turn of the listener: an answer takes its session's callback and calls it, every message is forwarded |
| Signaling.CalledExactly | core/src/webrtc/signaling.rs:292-303 | for any order of messages and registrations: a call is made exactly where a registration is followed by an answer with nothing about the session between |
| Signaling.CallsAreDistinct | core/src/webrtc/signaling.rs:295-297 | a callback registered once is called at most once |
| Signaling.ForwardsEverything | core/src/webrtc/signaling.rs:292-301 | every message is forwarded once, in order |
| Signaling.LostAnswer | core/src/webrtc/signaling.rs:292-303 | an answer before its registration calls nothing |
| Signaling.AnswerMustNotOvertake | core/src/webrtc/webrtc.rs:575-589 | the callback of an offer is called exactly if its answer arrives after the registration |

## Left out

- ICE, STUN, SDP, DTLS, SCTP, WebSocket and HTTP I/O, TLS and certificates: the data channel is assumed to be ordered
  and reliable.
- zlib in `encode_sdp` and `decode_sdp` is a library call; SDP texts are opaque strings.
- JSON text: each message type has a pair of functions with the law `Transfer.Json.Lawful`; field names and escaping
  are not modelled.
- SHA-256, Ed25519 and RSA-PSS are arbitrary functions; a matching key pair accepts its own signatures, and nothing is
  said about forged ones.
- Bounded channels, timeouts, keep-alive and the `done_rx` signal: queues are unbounded, a task whose queue is empty
  waits, and nothing is claimed about deadlocks of the server, whose handlers send before their own queue is drained.
- Send failures, dropped application channels and a closed data channel in the joint runs of the two transfer tasks,
  and with it what is lost when a sender that has finished closes the channel under a receiver that has not;
  `Framing.ProcessInChunks`, `Loops.VerifyPin`, `Loops.HandlePin` and `Loops.ReceiveFiles` do have the closed channel.
- The pairing branch of the sender (core/src/webrtc/webrtc.rs:408-470) is a failure in the model, because the receiver
  never asks for pairing.
- The two transfer tasks are state machines on values, one step per send or receive; their buffers are parts of those
  states. The loops they contain are also methods that change state.
- `Room.Info` and `Transfer.FileDto` keep some of the descriptive fields of clients and files; the protocols only hand
  them on.
- Peer ids are fresh, as `Uuid::new_v4` makes them.
- Nonces.MapsStayInStep: an exchange whose request is cancelled between its two locks is not modelled.
- BridgeStreams.Deserializer.ReadServerMessage: native byte order is taken to be little-endian, and a panic is a result.
- The remaining records, lists and options of the bridge codec are built from the same parts; opaque handles, errors
  and stream sinks have no decoder that mirrors their encoder.
- Token.VerifyTokenWithResult: a public key that cannot be exported is not modelled.
- DTO conversions, `url.rs`, HTTP routing, web pages and platform code.
