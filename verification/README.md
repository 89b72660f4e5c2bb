# A verified model of the stupidP2P relay

stupidP2P is a relay: clients connect to one server, register a device id, subscribe to the ids
of others, and whatever a connection sends is forwarded to its subscribers. Client and server
exchange frames, a four-byte big-endian length followed by a body whose first byte is a command
or a callback code. This project models the server's registry, idle list, codec and buffer, the
C client's ring parser, inbox, flags and send path, and the Python client's deque parser and
responses, and proves what they do together, over whole runs.

`dafny verify dfyconfig.toml` checks everything.

## How the model is laid out

| file | what it holds |
|---|---|
| `Wire.dfy`, `Framing.dfy`, `Protocol.dfy` | bytes, the length header, the specification decoder `Decode`, the protocol codes |
| `Buffer.dfy` | the growable in-place buffer, as a class over an array |
| `Registry.dfy` | the server as a state machine over values: one function per handler, `Step` and `Run` |
| `Commands.dfy` | what the server does with each command and each connection, said on the bytes themselves |
| `Ownership.dfy` | invariants of every run, with nothing assumed about the clients |
| `PubSub.dfy` | the publish/subscribe relation, and the proof that a run agrees with it exactly when its registers are safe |
| `Teardown.dfy` | what is left of a connection that has gone down, and exactly when nothing is |
| `IdleList.dfy` | the sorted idle list and the timer's early break |
| `Displacement.dfy` | non-interference of a connection that lost its id |
| `Delivery.dfy` | what is written to each connection over a run |
| `Scenarios.dfy` | three short runs: the exchange the relay is for, a subscriber that unsubscribes too late, and an answer that comes too late |
| `Relay.dfy` | the server under interleaved byte chunks from many connections |
| `Refusal.dfy` | which lengths the codec refuses, and what that means for a connection |
| `Server.dfy` | the server as objects updated in place; each method performs one `Registry` step, and `Serve` a whole history of the network |
| `Ring.dfy`, `Inbox.dfy`, `CClient.dfy` | the C client: ring, circular doubly linked list, parser, flags, send path |
| `PyClient.dfy` | the Python client: receive loop, responses, sending |
| `ClientSpec.dfy` | what a client makes of the commands it sends and the messages it decodes |
| `EndToEnd.dfy` | the path from one client through the server to another |

A connection is identified by a value of an arbitrary type `C`; `Server.dfy` instantiates it with
object references. A handler is one atomic step: the server has one I/O thread
(`p2pServer/p2pServer.cc:33`). Times are microseconds in unbounded integers; `timeDifference` is
compared exactly.

## What is assumed

- **Lifecycle.** A connection comes up once, sends messages, and goes down once. `shutdown()` takes
  a connected connection to `Disconnecting`: its output is closed and `connected()` is false, but
  its input is still handled. A frame reaches the output only while the connection is connected.
  The expired branch of the timer loop (`p2pServer/p2pServer.cc:56-59`) then cannot be reached.
- **Safe registers** (`PubSub.Safe`), only where a statement says so: the id is not the sentinel
  `"delete"`, and the connection holds it already, or holds none and everyone on its send list who
  is up follows the id. This is exact for what can be seen, owners and send lists: they agree with
  the relation throughout a run, whoever unregisters next, if and only if every register in it was
  safe (`PubSub.RegistryExact`). `PubSub.DisciplineSuffices` shows that a simple discipline of the
  clients gives it (repeat the own id, or claim one while holding none and while nobody is still
  listed from an id lost), and `PubSub.SecondIdIsNotSafe` what goes wrong without it. Complete
  teardown needs, exactly, that a connection that claims an id lists nobody who is down
  (`Teardown.TeardownExact`).
- **Event times do not decrease**, where a statement says `Monotone`, and `idleSeconds` is not
  negative (the server is started with 300).
- **Sane streams** for the client parsers (`ClientSpec.Sane`): bodies of at least 1 byte, callbacks
  of at least 2, and at most 2048 bytes for the C client or 65536 for the Python client. This is
  derived, not assumed, for everything the server writes (`EndToEnd.WrittenIsSane`): for Python
  clients always (`EndToEnd.CodecBoundsMessages`), for C clients among C clients
  (`EndToEnd.GuardBoundsMessages`). Memory allocation succeeds, also for an empty payload.
- **The byte streams are TCP's.** What arrives is a prefix of what was written, cut anywhere. Where a
  statement says `Causal`, nothing is read before it was written, and nothing arrives before it was
  accepted.
- The erase in the send loop (`p2pServer/p2pServer.cc:193`) goes on with the next element.

## Findings

- Unsubscribing from an id stops only its owner of that moment. A displaced connection keeps its
  send list, and what it sends still reaches a subscriber that unsubscribed from the id afterwards:
  `Scenarios.UnsubscribedIsServed` is such a run, and `PubSub.UnsubscribeStopsOwnerOnly` says exactly
  when unsubscribing works.
- A connection that registers a second id leaves its first entry behind, also when it goes down, and
  can become its own subscriber (`PubSub.SecondIdIsNotSafe`). The entry goes when another connection
  registers the first id; that register sets the holder of the second id back to `"delete"` while its
  entry under the second id stays (`PubSub.LeftoverIsReplaced`).
- Callbacks carry no number. A call that gives up after three seconds leaves its command
  outstanding, and the next call of the kind returns the late answer as its own:
  `Scenarios.LateAnswerIsTaken` is such a run, with the server accepting what the client reports as
  refused. A call returns the answer to its own command if and only if, before it, every earlier
  command of its kind had been answered (`ClientSpec.CallGetsOwnAnswer`).
- Clearing the send list on unregister makes re-registering after a displacement safe again, and
  so does registering an id that everybody still listed follows (`PubSub.RegisterSafe`).
- The drain loop is right exactly up to 1024 queued payloads: with 1025 it needs a 1025th slot of
  its 1024-slot array, and beyond that it takes one payload off the list and loses it.
- The protocol comments list "check device alive: 0x06" without an id
  (`p2pServer/p2pServer.h:27`); the code reads the id from the message, and the model follows it.

## Model

| member | source | states |
|---|---|---|
| Wire.EndianInverse | p2pServer/muduo/include/muduo/net/Endian.h:34-52 | the length header and the length are inverse of each other, in both directions, on every non-negative 32-bit value and every four bytes |
| Wire.BigEndian | p2pServer/muduo/include/muduo/net/Endian.h:34-52 | the most significant byte comes first: the first byte in which two headers differ decides which length is greater |
| Framing.DecodeSplit | p2pServer/codec.h:22-50 | decoding two pieces of a stream, resuming from the leftover of the first, equals decoding their concatenation |
| Framing.FeedIsDecode | p2pServer/codec.h:22-50 | any cutting of any stream, also one stuck on a refused length, gives the same messages and the same leftover as the whole stream |
| Framing.DecodeSound | p2pServer/codec.h:22-50 | for every stream, re-encoding the messages found and appending the leftover gives the stream back, and no complete frame is left |
| Framing.DecodeUnique | p2pServer/codec.h:22-62 | frames of messages up to 65536 bytes followed by any incomplete or refused tail decode to exactly those messages and that tail |
| Framing.FrameLayout | p2pServer/codec.h:53-62 | a frame is four bytes that read as the length of the message, not counting themselves, followed by the message |
| Framing.RoundTrip | p2pServer/codec.h:22-62 | the encodings of any message sequence, cut anywhere, decode to that sequence with nothing left |
| Buffers.Buffer.constructor | p2pServer/muduo/include/muduo/net/Buffer.h:48-56 | starts empty with 8 bytes to prepend and 1024 to write |
| Buffers.Buffer.Retrieve | p2pServer/muduo/include/muduo/net/Buffer.h:113-124 | drops exactly that many bytes from the front of the contents |
| Buffers.Buffer.RetrieveAll | p2pServer/muduo/include/muduo/net/Buffer.h:153-157 | empties the contents and restores the prepend space |
| Buffers.Buffer.Resize | p2pServer/muduo/include/muduo/net/Buffer.h:392-396 | growing the storage keeps the indices and the contents |
| Buffers.Buffer.PeekInt32 | p2pServer/codec.h:29-31 | reads the signed big-endian length at the front of the contents |
| Buffers.Buffer.PeekBytes | p2pServer/codec.h:41 | reads the first bytes of the contents |
| Buffers.Buffer.MoveToFront | p2pServer/muduo/include/muduo/net/Buffer.h:397-408 | the overlapping forward copy keeps the contents |
| Buffers.Buffer.MakeSpace | p2pServer/muduo/include/muduo/net/Buffer.h:390-409 | whichever branch is taken, the contents stay, the room suffices, and the source's assertion on the read index holds |
| Buffers.Buffer.EnsureWritableBytes | p2pServer/muduo/include/muduo/net/Buffer.h:194-201 | enough room results and the contents stay |
| Buffers.Buffer.Append | p2pServer/muduo/include/muduo/net/Buffer.h:182-187 | the contents grow by exactly the data at the end |
| Buffers.Buffer.Prepend | p2pServer/muduo/include/muduo/net/Buffer.h:354-360 | the contents grow by exactly the data at the front |
| Ownership.UnsubscribeAllExact | p2pServer/p2pServer.cc:129-162 | the unsubscribe-all loop removes the connection from the lists of exactly the current owners of the ids it holds, empties its id list and changes nothing else |
| Ownership.RegisterKeeps | p2pServer/p2pServer.cc:83-106 | register, displacing or not and for any id, keeps ownership, duplicate-free lists and the exact idle list |
| Ownership.SubscribeKeeps | p2pServer/p2pServer.cc:108-127 | subscribe keeps all invariants |
| Ownership.UnsubscribeKeeps | p2pServer/p2pServer.cc:147-162 | unsubscribe keeps all invariants |
| Ownership.UnregisterKeeps | p2pServer/p2pServer.cc:129-145 | unregister keeps all invariants: the entry it erases is its own |
| Ownership.SendDataKeeps | p2pServer/p2pServer.cc:184-196 | forwarding keeps all invariants |
| Ownership.SweepKeeps | p2pServer/p2pServer.cc:37-61 | the timer keeps all invariants |
| Ownership.HeartBeatKeeps | p2pServer/p2pServer.cc:176-182 | keeps all invariants; the time is stored and the connection's own node is now the last one, so the source's assertion holds |
| Ownership.UpKeeps | p2pServer/p2pServer.cc:69-75 | a new connection joins with no id and empty lists, its stored position designates its own node, and all invariants stay |
| Ownership.DownKeeps | p2pServer/p2pServer.cc:76-80 | erasing through the stored position and unregistering keep all invariants |
| Ownership.StepKeeps | p2pServer/p2pServer.cc:37-238 | every event keeps ownership, duplicate-free lists and the exact idle list |
| Ownership.RunKeeps | p2pServer/p2pServer.cc:37-238 | so does every run from any state that has them |
| Ownership.OwnershipInEveryRun | p2pServer/p2pServer.cc:83-145 | in every run, whatever clients send, a connection holding an id is the one stored under it, no id is held twice, and the idle list holds each up connection exactly once at its stored position |
| Ownership.EntryRemovedOnlyByOwner | p2pServer/p2pServer.cc:129-145 | an entry disappears if and only if the connection holding its id unregisters or goes down, and that connection is the one stored |
| Commands.RegisterCommand | p2pServer/p2pServer.cc:83-106 | 0x01 and a name: the connection is stored under it and holds it, the old owner holds nothing and is shut down, all other records and nodes stay, and [0x81, 0x01] is sent back |
| Commands.SubscribeCommand | p2pServer/p2pServer.cc:108-127 | 0x02 and a name: exactly the connection joins exactly the owner's list and notes the name, if the name is stored and not its own; the callback [0x82, ..] says whether |
| Commands.DataCommand | p2pServer/p2pServer.cc:184-196 | 0x03 and data: every connected connection on the list gets the whole message once, the others leave the list, and [0x83, 0x01] is sent back |
| Commands.UnregisterCommand | p2pServer/p2pServer.cc:129-145 | 0x04: the connection gives up its id, both lists and its places on the lists of the owners it follows; times, nodes and phases stay, and [0x84, 0x01] is sent back |
| Commands.UnsubscribeCommand | p2pServer/p2pServer.cc:147-162 | 0x05 and a name: exactly a followed name is forgotten and exactly its owner's list loses the connection; [0x85, 0x01] is sent back either way |
| Commands.CheckCommand | p2pServer/p2pServer.cc:164-174 | 0x06 and a name: nothing changes, and [0x86, ..] says success exactly if the name is stored with a connected owner |
| Commands.HeartBeatCommand | p2pServer/p2pServer.cc:176-182 | 0x07: only the connection's time changes, to the time of receipt, and its own node goes last; [0x87, 0x01] is sent back |
| Commands.OtherMessage | p2pServer/p2pServer.cc:235-237 | an empty message or any other first byte changes nothing and is not answered |
| Commands.OpenConnection | p2pServer/p2pServer.cc:69-75 | a connection that opens is connected, holds nothing and was heard from at that time; the others stay as they are |
| Commands.CloseConnection | p2pServer/p2pServer.cc:76-80 | a connection that closes is down, holds nothing, loses its own entry and exactly its own node |
| PubSub.SubscribeRefines | p2pServer/p2pServer.cc:108-127 | subscribing adds exactly the pair with the current owner, and is accepted exactly when the id belongs to another connection |
| PubSub.UnsubscribeRefines | p2pServer/p2pServer.cc:147-162 | unsubscribing removes exactly the pair with the current owner, also when the id is not on the connection's list |
| PubSub.UnregisterRefines | p2pServer/p2pServer.cc:129-145 | following the id list alone removes the connection from every registered publisher's list, and clears its id and subscribers |
| PubSub.GoneRefines | p2pServer/p2pServer.cc:76-80 | the DOWN callback has the same effect on the relation |
| PubSub.RegisterRefines | p2pServer/p2pServer.cc:83-106 | a safe register makes the connection the owner, displacing the old one, and leaves all pairs as they are; those on its list who are down do not matter |
| PubSub.RegisterExact | p2pServer/p2pServer.cc:83-106 | after a register the owners and the send lists agree with the relation, also when anybody unregisters next, if and only if the connection held that id already, or held none and everyone on its list who is up followed the id |
| PubSub.EntryStays | p2pServer/p2pServer.cc:87-145 | after the sentinel or a second id is registered, unregistering leaves an entry that the relation does not have |
| PubSub.SubscriberStays | p2pServer/p2pServer.cc:129-162 | after an id is registered that a listed connection does not follow, that connection's unregister leaves it on the list, and the relation has no such pair |
| PubSub.SendDataRefines | p2pServer/p2pServer.cc:184-196 | pruning disconnected entries while sending leaves the relation as it is |
| PubSub.StepRefines | p2pServer/p2pServer.cc:37-238 | every event, a register only if it is safe, is matched by the abstract step |
| PubSub.RunRefines | p2pServer/p2pServer.cc:83-196 | every run whose registers are safe refines the relation from any related start |
| PubSub.RunExact | p2pServer/p2pServer.cc:83-196 | owners and send lists agree with the relation after every prefix of a run, whoever unregisters next, if and only if every register was safe when it was made |
| PubSub.RegistryExact | p2pServer/p2pServer.cc:83-196 | the same for every run from the start, with nothing else assumed |
| PubSub.DisciplineSuffices | p2pServer/p2pServer.cc:83-106 | if the clients keep the discipline, which is about the relation alone, every register is safe |
| PubSub.UnsubscribeStopsOwnerOnly | p2pServer/p2pServer.cc:147-162 | unsubscribing from an id takes a connected subscriber off a publisher's list if and only if that publisher owns the id at that moment |
| PubSub.RegistryIsPubSub | p2pServer/p2pServer.cc:83-196 | in every run with safe registers a send list has no duplicates, holds only abstract subscribers, and holds every connected one |
| Teardown.TeardownIsComplete | p2pServer/p2pServer.cc:76-80 | in every run with safe and tidy registers a connection that went down is, from then on, under no id, on no registered publisher's list, and not in the idle list |
| Teardown.TeardownExact | p2pServer/p2pServer.cc:76-80 | in a run with safe registers teardown is complete throughout if and only if no connection that claimed an id listed anybody who was down |
| Teardown.RegisterClean | p2pServer/p2pServer.cc:83-106 | a safe register keeps teardown complete if and only if the connection held the id already or lists nobody who is down |
| PubSub.OwnersAndIdsAreInverse | p2pServer/p2pServer.cc:108-174 | in every run with safe registers the map and the device ids are inverse, nobody is on its own list, and the alive check succeeds exactly when a connected connection holds the id |
| PubSub.SecondIdIsNotSafe | p2pServer/p2pServer.cc:87-105 | from every state, registering a second id leaves the first entry, allows self-subscription, and the entry outlives the connection |
| PubSub.LeftoverIsReplaced | p2pServer/p2pServer.cc:92-103 | another connection's register replaces an entry left behind, but strips its old owner of the id it holds and leaves that id's entry |
| IdleList.SweepIsFullScan | p2pServer/p2pServer.cc:37-61 | for any time, jumps included, the sweep of a sorted list shuts down exactly the connected connections that are too old and leaves the list sorted; without jumps it changes nothing else |
| IdleList.JumpKeepsSorted | p2pServer/p2pServer.cc:51-53 | resetting a stored time that lies in the future keeps the order |
| IdleList.BreakLosesNothing | p2pServer/p2pServer.cc:54-55 | where the loop breaks, no later connection is too old |
| IdleList.HeartBeatTimed | p2pServer/p2pServer.cc:176-182 | moving the node to the end with the new time keeps the order |
| IdleList.UpTimed | p2pServer/p2pServer.cc:69-75 | a new connection at the end keeps the order |
| IdleList.GoneTimed | p2pServer/p2pServer.cc:76-80 | erasing a node keeps the order |
| IdleList.StepTimed | p2pServer/p2pServer.cc:37-81 | every event in time order keeps the list sorted, and a tick is a full scan |
| IdleList.RunTimed | p2pServer/p2pServer.cc:37-81 | every run in time order keeps the list sorted with no stored time in the future |
| IdleList.TimerIsFullScan | p2pServer/p2pServer.cc:37-61 | in every run with non-decreasing times the next tick equals the full scan |
| IdleList.IdleLimit | p2pServer/p2pServer.cc:44-47 | a connected connection survives the sweep of a sorted list if and only if its stored time is at most the limit times 1000000 microseconds ago |
| IdleList.TimerIdleLimit | p2pServer/p2pServer.cc:37-61 | at the end of every run with non-decreasing times the next tick leaves connected exactly the connected connections that came up or sent a heart beat within the limit |
| IdleList.RunHeard | p2pServer/p2pServer.cc:69-75 | in every such run the stored time is when the connection came up or its last heart beat, whatever else it sent |
| IdleList.ClockSetBack | p2pServer/p2pServer.cc:51-53 | when the clock is set back behind every stored time, the tick sets all of them to the new time and shuts nobody down |
| Displacement.OwnStep | p2pServer/p2pServer.cc:139-144 | no message but a register, and no teardown, of a connection without an id is visible outside its own record and subscriptions |
| Displacement.OtherStep | p2pServer/p2pServer.cc:83-196 | steps of all others take registries that agree up to that connection to registries that agree |
| Displacement.DisplacedIsHarmless | p2pServer/p2pServer.cc:92-103 | non-interference: deleting all its events from any run leaves the same owners, lists, ids and phases, itself aside |
| Displacement.NewOwnerIsUndisturbed | p2pServer/p2pServer.cc:92-103 | after a take-over the displaced connection can no longer influence who owns which id or whom any other owner sends to |
| Delivery.ReplyMeaning | p2pServer/p2pServer.cc:198-234 | a callback carries the command's code with bit 0x80 and says failure exactly for a subscribe without another owner and a check without a connected owner |
| Delivery.StepOutput | p2pServer/p2pServer.cc:184-238 | each event appends to each output exactly the forwarded message and then the callback, if any |
| Delivery.RunOutput | p2pServer/p2pServer.cc:184-238 | over a run each output grows by exactly what the events emit to it, and a connection connected at the end was connected throughout |
| Delivery.RepliesCorrespond | p2pServer/p2pServer.cc:198-238 | on every output the frames with bit 0x80 are one to one and in order the answers to the connection's first known commands, to all of them if it is still connected; all other frames start with 0x03 |
| Delivery.SilentForEver | p2pServer/codec.h:53-62 | a connection that is no longer connected is written nothing more |
| Delivery.AnswersAreReplies | p2pServer/p2pServer.cc:198-238 | the callbacks of a kind are the answers to the connection's commands of that kind, one for each and in order |
| Delivery.AnswerIsForCommand | p2pServer/p2pServer.cc:198-238 | answer number i of a kind is what the server replied to command number i of that kind, in the state it arrived in |
| Delivery.SubscribesAreDecided | p2pServer/p2pServer.cc:108-127 | in every run with safe registers the answers to a connection's subscribes are success exactly where the relation had another owner of the id |
| Delivery.DeliveriesAreDue | p2pServer/p2pServer.cc:184-196 | in every run with safe registers the data frames written to a connection are the first of those sent while the relation held its pair, once each and in order, and all of them if it is still connected |
| Delivery.StandingSubscription | p2pServer/p2pServer.cc:184-196 | while a subscription stands, what is due from the publisher is exactly its data messages, once each and in order |
| Delivery.SteadyStands | p2pServer/p2pServer.cc:129-162 | a subscription stands as long as neither end goes down or unregisters and the subscriber does not unsubscribe, whoever takes over which id |
| Scenarios.UnsubscribedIsServed | p2pServer/p2pServer.cc:147-162 | for any three connections, id and payload: after the id has changed hands and the subscriber has unsubscribed from it, the old owner's message is still written to the subscriber |
| Scenarios.LateAnswerIsTaken | API/C/stupidP2P.c:80-101 | for any two connections and id: the server refuses a subscribe and accepts the next one, and the client, having got only the first answer, shows failure for the second |
| Relay.MessagesAreDecoded | p2pServer/codec.h:22-50 | under any interleaving and cutting, the messages handled for a connection are those its own byte stream decodes to |
| Relay.PrefixArrives | p2pServer/codec.h:22-50 | if a connection's bytes so far are a prefix of encoded messages, the messages handled are a prefix of them |
| Refusal.RefusedExactly | p2pServer/codec.h:32-37 | a call of the codec shuts the connection down if and only if what it leaves has four bytes whose unsigned value exceeds 65536 |
| Refusal.CodecShutsDown | p2pServer/codec.h:22-50 | after the call the connection is connected if and only if it was before and no such length is left; none of its own messages shuts it down |
| Refusal.OverlongShutsDown | p2pServer/codec.h:32-37 | such a length at the front of the buffer yields no message and shuts the connection down |
| Refusal.RefusedForEver | p2pServer/codec.h:22-50 | over any history of the network a connection whose stream so far ends in a refused length is not connected |
| Relay.ServedRuns | p2pServer/p2pServer.cc:21-29 | every history in which bytes come only from connections that are up is a run of the server |
| Server.FrameOf | p2pServer/codec.h:53-62 | building the frame in a buffer, body first and length prepended, gives the encoding |
| Server.P2pServer.RegisterDevice | p2pServer/p2pServer.cc:83-106 | performs the register step in place and keeps the object valid |
| Server.P2pServer.SubscribeDevice | p2pServer/p2pServer.cc:108-127 | performs the subscribe step and returns its result |
| Server.P2pServer.UnsubscribeDevice | p2pServer/p2pServer.cc:147-162 | performs the unsubscribe step |
| Server.P2pServer.UnregisterDevice | p2pServer/p2pServer.cc:129-145 | performs the unregister step; the loop ends because each call removes the front id |
| Server.P2pServer.CheckDeviceAlive | p2pServer/p2pServer.cc:164-174 | returns the result of the check step |
| Server.P2pServer.HeartBeat | p2pServer/p2pServer.cc:176-182 | performs the heart beat step, with the source's assertion proved |
| Server.P2pServer.SendData | p2pServer/p2pServer.cc:184-196 | the loop that sends or erases entry by entry performs the forwarding step |
| Server.P2pServer.ServeEntry | p2pServer/p2pServer.cc:189-194 | one entry: sent to and kept if connected, erased otherwise, the next entry being looked at either way |
| Server.Connection.Send | p2pServer/codec.h:53-62 | a connected connection's socket carries one more frame, any other's nothing |
| Server.Connection.Reset | p2pServer/p2pServer.cc:70-75 | the record of a new connection |
| Server.P2pServer.CallBackTo | p2pServer/p2pServer.cc:198-204 | sends the command code with bit 0x80 and the result |
| Server.P2pServer.Perform | p2pServer/p2pServer.cc:208-233 | the switch performs the effect of the command and yields its result byte |
| Server.P2pServer.OnMessage | p2pServer/p2pServer.cc:206-238 | performs the step of the command and sends its callback |
| Server.P2pServer.ConnectionUp | p2pServer/p2pServer.cc:69-75 | performs the step for a new connection |
| Server.P2pServer.ConnectionDown | p2pServer/p2pServer.cc:76-80 | performs the step for a connection that has gone down |
| Server.P2pServer.OnTimer | p2pServer/p2pServer.cc:37-61 | performs the sweep |
| Server.P2pServer.VisitNode | p2pServer/p2pServer.cc:40-59 | one node: shut down if too old, reset if in the future, and otherwise the place to break |
| Server.P2pServer.CodecOnMessage | p2pServer/codec.h:22-50 | on the buffer's indices: hands over exactly the messages the contents decode to, leaves exactly the leftover, shuts down when stuck |
| Server.P2pServer.TakeFrame | p2pServer/codec.h:38-44 | one complete frame is handed over and removed from the buffer |
| Server.P2pServer.OnBytes | p2pServer/codec.h:22-50 | the same for bytes just appended to the connection's own input buffer |
| Server.P2pServer.OnNet | p2pServer/p2pServer.cc:21-29 | whatever the network does next, the callback for it performs its events and changes no other connection's input |
| Server.P2pServer.Serve | p2pServer/p2pServer.cc:21-29 | over any history of the network the server performs the run of its events, each input buffer holds what is left of its stream, and each socket has carried exactly the frames written to it |
| Ring.RecvFifo.Push | API/C/netWork.h:165-176 | appends to the queue, wherever the ring wraps |
| Ring.RecvFifo.constructor | API/C/netWork.h:159-163 | the ring starts empty |
| Ring.RecvFifo.Top | API/C/netWork.h:204-207 | reads the oldest byte |
| Ring.RecvFifo.Pop | API/C/netWork.h:193-202 | drops from the front of the queue |
| Ring.RecvFifo.TopInt | API/C/netWork.h:209-222 | reads the big-endian length at the front, also when the ring wraps inside it |
| Inbox.RecvDataList.Add | API/C/netWork.h:103-115 | links the node in at the end: `next` and `prev` stay inverse around the sentinel and the queue grows by its payload |
| Inbox.RecvDataList.constructor | API/C/netWork.h:83-94 | the sentinel alone, linked to itself, is a well-formed empty list |
| Inbox.RecvDataList.ReturnData | API/C/netWork.h:117-133 | unlinks the oldest node and returns its payload, or reports an empty list and changes nothing |
| Inbox.Drain | API/C/stupidP2P.c:424-430 | the loop stores and leaves what `DrainFrom` says |
| Inbox.DrainShape | API/C/stupidP2P.c:424-430 | for every queue: what is stored, and which one payload is lost when there are more than 1025 |
| Inbox.DrainExact | API/C/stupidP2P.c:410-444 | everything is handed over in order within 1024 slots and the list is left empty if and only if at most 1024 payloads are queued |
| Inbox.DrainToArray | API/C/stupidP2P.c:414-430 | on the 1024-slot array: everything is stored in order and the list left empty, or the write past the end is reached, which happens exactly with more than 1024 payloads |
| CClient.ApplyMeaning | API/C/netWork.c:46-111 | over any history of commands and frames the inbox gains the payloads of the data frames in order, and each flag is 0xff if a command of its kind was queued after its last callback, otherwise 0x01 if that callback said 0x01 and 0x00 if not, and as before if neither occurred |
| CClient.FlagAfterCallBack | API/C/netWork.c:73-107 | a callback that comes now sets its flag to 0x01 if its result is 0x01 and to 0x00 otherwise, and changes no other flag and not the inbox |
| CClient.Client.ReadCommand | API/C/netWork.c:38-41 | moves the body from the ring into the command array, byte for byte |
| CClient.Client.Handle | API/C/netWork.c:46-111 | on the bytes: 0x03 queues what follows, 0x81 to 0x87 set their own flag to 0x01 or 0x00 by the second byte, also in a longer callback, and nothing else changes anything |
| CClient.Client.TakeFrame | API/C/netWork.c:36-111 | a complete frame leaves the ring and is dispatched |
| CClient.Client.Parse | API/C/netWork.c:33-115 | on any sane ring contents consumes and dispatches exactly the frames `Decode` finds and leaves what it leaves |
| CClient.Client.Receive | API/C/stupidP2P.c:176-188 | one round; bytes are dropped exactly when they do not fit the ring |
| CClient.Client.NeedToSend | API/C/stupidP2P.c:103-156 | commands 1 to 7 with at most 256 bytes are queued last, the code in front of the data, and their flag becomes 0xff; any other call changes nothing |
| CClient.Client.SendAll | API/C/stupidP2P.c:206-235 | the socket carries the frames of all queued commands, in order and whole, and the queue is empty |
| CClient.Client.Step | API/C/stupidP2P.c:158-235 | one round of the application, the receive thread or the send thread |
| CClient.Client.Live | API/C/stupidP2P.c:103-235 | with the three interleaved in any way over a whole sane stream read in pieces of at most 4096 bytes: nothing is dropped, the application sees exactly what the accepted commands and the frames of the stream amount to, and the socket has carried the frames of the accepted commands but those still queued |
| CClient.Compose | API/C/stupidP2P.c:105-156 | accepts exactly known commands with at most 256 bytes of data; the message is one every client is prepared for |
| CClient.ScriptIsComposed | API/C/stupidP2P.c:105-156 | everything a client ever accepts is such a message |
| CClient.PutLength | API/C/stupidP2P.c:198-201 | writes the big-endian length and nothing behind it |
| CClient.PrependLength | API/C/stupidP2P.c:194-204 | writes the encoding of the source clipped to what fits, and nothing behind it |
| CClient.Transmit | API/C/stupidP2P.c:224-226 | a queued command leaves as one whole frame |
| ClientSpec.SaneSplit | API/C/netWork.c:33-41 | a sane stream may be cut anywhere and resumed from the leftover |
| ClientSpec.SaneDecodes | API/C/netWork.c:33-41 | the messages found in a sane stream are well formed, and after a parse less than a header and the largest body is left |
| ClientSpec.StandsIsLast | API/C/stupidP2P.c:152 | the last command or callback of a kind decides: waiting if it was the command, otherwise the callback's result; no data frame counts, whatever it carries |
| ClientSpec.StandsUntouched | API/C/stupidP2P.c:152 | a kind is untouched if and only if there was neither a command nor a callback of it |
| ClientSpec.CallGetsOwnAnswer | API/C/stupidP2P.c:152-155 | what a waiting call returns is the answer to its own command if and only if every earlier command of the kind had been answered before the call |
| ClientSpec.LastAnswerShown | API/C/stupidP2P.c:80-101 | if no callback comes before its command, the answer shown is that to the last command of the kind if and only if as many callbacks have come as commands were queued |
| ClientSpec.ShownIsLastReturned | API/C/netWork.c:73-107 | an answer shown is what the last callback of its kind said |
| ClientSpec.AsksAreScript | API/C/stupidP2P.c:103-156 | the commands of a kind that reset the flag are those of the script |
| ClientSpec.PayloadsAreGiven | API/C/stupidP2P.c:121-122 | the payloads in the messages of a client are, byte for byte and in order, the data its application passed to accepted calls |
| ClientSpec.FramesAreDecoded | API/C/netWork.c:33-115 | however the stream is read and whatever is sent meanwhile, the frames taken out are those the whole stream decodes to |
| PyClient.PushBackRestores | API/Python/stupidP2P.py:123 | the little-endian push-back of a popped header restores the deque |
| PyClient.ApplyMeaning | API/Python/stupidP2P.py:74-121 | over any history of commands and frames each response is 0xff if a command of its kind was sent after its last callback and otherwise that callback's result byte, and the queue gains the payloads in order until it is full |
| PyClient.Receiver.ExtendLeft | API/Python/stupidP2P.py:62 | appends to the stream kept in the reversed deque |
| PyClient.Receiver.constructor | API/Python/stupidP2P.py:34-44 | starts with an empty deque, no response received and an empty queue |
| PyClient.Receiver.Pop | API/Python/stupidP2P.py:47 | takes the oldest byte off the right end |
| PyClient.Receiver.PopMany | API/Python/stupidP2P.py:67-68 | takes that many oldest bytes, in order |
| PyClient.Receiver.TakeBody | API/Python/stupidP2P.py:71-121 | consumes exactly the body: 0x81 to 0x87 store the second byte as the response of their kind, 0x03 queues what follows while fewer than 4096 payloads wait, and nothing else changes anything |
| PyClient.Receiver.PushBack | API/Python/stupidP2P.py:123 | puts a popped header back |
| PyClient.Receiver.Parse | API/Python/stupidP2P.py:65-124 | on any sane deque consumes and dispatches exactly the frames `Decode` finds and leaves what it leaves |
| PyClient.Receiver.SendCommand | API/Python/stupidP2P.py:220-263 | commands 1 to 7, a data command only with data, reset their response to 0xff and send the four-byte length, the code and the data; one too long for the header goes nowhere after the reset, and any other call changes nothing |
| PyClient.Receiver.Step | API/Python/stupidP2P.py:50-124 | one command or one read |
| PyClient.Receiver.Live | API/Python/stupidP2P.py:50-124 | for any cutting of a sane stream and any commands sent meanwhile the application sees exactly what the commands and the frames of the stream amount to |
| EndToEnd.CodecBoundsMessages | p2pServer/codec.h:32-37 | whatever clients send, the server handles no message above 65536 bytes |
| EndToEnd.GuardBoundsMessages | API/C/stupidP2P.c:105 | the C client's length guard bounds every message the server ever handles |
| EndToEnd.HandledIsPrefix | API/C/stupidP2P.c:206-235 | what the server has handled for a client is a prefix of what the client sent, and all of it once its bytes have arrived |
| EndToEnd.OutputIsGood | p2pServer/p2pServer.cc:184-204 | every frame written is well formed and no longer than the longest message handled |
| EndToEnd.WrittenIsSane | API/C/netWork.c:33-41 | everything the server writes is a stream the client parsers accept |
| EndToEnd.FramesRead | API/C/netWork.c:33-115 | the frames a client has taken out are the first of those written to it, and all of them once it has read everything |
| EndToEnd.EndToEndDelivery | p2pServer/p2pServer.cc:184-196 | for any history with safe registers, any connection and any chunking on both sides, the payloads a client has got are those of the first messages sent while it was the sender's subscriber, once each, byte for byte, in order; and of all of them if it is connected and has read everything |
| EndToEnd.EndToEndReplies | API/C/netWork.c:73-107 | the callbacks a client has got are the first of the server's answers to commands from that very connection, and all of them if it is connected and has read everything |
| EndToEnd.CallBacksFollowCommands | API/C/netWork.c:73-107 | the callbacks of a kind a client has got are the server's answers to its first commands of that kind, and no more than it queued |
| EndToEnd.EndToEndAnswers | API/C/stupidP2P.c:80-156 | in every causal history what a client shows for a kind is the server's answer to a command of that kind it queued, and to the last one if and only if as many callbacks of the kind have come as it queued commands |
| EndToEnd.StandingDelivery | p2pServer/p2pServer.cc:184-196 | while a subscription stands, what is due from the publisher is the data messages of a contiguous slice of what its client sent, from where the server stood at the start to the last command once all bytes have arrived |
| EndToEnd.AppDataDelivered | p2pServer/p2pServer.cc:184-196 | what is due to a subscriber from the publisher carries a contiguous part of the data the publisher's application passed, to the last of it once all bytes have arrived |
| EndToEnd.DeliveredToSubscriber | p2pServer/p2pServer.cc:184-196 | the payloads a subscriber has got from the publisher since then are the first of that slice, and all of it if it is connected and has read everything |
| EndToEnd.RunServer | p2pServer/p2pServer.cc:21-35 | a started server object, over any history of the network, has written to each socket exactly the frames these statements speak of |
| EndToEnd.RunCClient | API/C/stupidP2P.c:103-235 | a C client object among C clients: its list gains exactly the payloads due, those from a publisher it follows being the slice of what that client queued; each flag shows the last callback of its kind or that none has come since the last command, with the number of the command it answers as in `EndToEndAnswers`; its socket has carried a prefix of the frames of what it accepted |
| EndToEnd.RunPyClient | API/Python/stupidP2P.py:50-124 | a Python client object among clients of any kind: the same for its queue, while it has room, and its responses |

## Left out

- Sockets, threads, sleeps, signals, logging and reconnecting: they appear only as chunks of bytes, connections going up and down, and time values.
- Data races between the timer thread and the I/O thread on the idle list, and between the threads of a client on a flag: each handler and each round of a client thread is one step.
- `std::list` and `std::map` are sequences and maps with the library's operations; a list iterator is a handle that designates one node.
- Frames outside the sane bounds for the client parsers, which the server never writes; a reconnect in mid-frame and an interrupted `recv`; a `send` that takes only part of a frame.
- The C client's send queue: a sequence, first in, first out and unbounded, because its slots are freed without being cleared and popped without the lock.
- The global client list and the heart-beat and restart counters of both clients, and the polling in their waiting loops: shallow and tied to threads.
- Taking payloads out of the Python queue while the receive loop runs.
- Destroying the inbox and freeing nodes: an unlinked node simply stays unreachable.
- The rest of muduo, the test programs, the Qt interface and the main programs.
- CClient.Client.Parse: requires a sane ring, because the source overruns its 2048-byte command array on longer bodies, and on empty bodies and 1-byte callbacks reads bytes left over from an earlier frame.
- PyClient.Receiver.Parse: requires a sane deque, because on empty bodies and 1-byte callbacks the source pops bytes of the next frame; bodies over 65536 bytes are not sent by the server.
- Ring.RecvFifo.TopInt: requires a value that fits 32 signed bits, because the source's sum overflows beyond it.
- Inbox.Drain: stores payloads in a sequence, to say what the loop's bound does; the 1024-slot array is in `Inbox.DrainToArray`.
