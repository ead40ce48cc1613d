# Multiplexed channels of servercc, modelled and proved

Two connected servercc peers run many logical channels over one TCP connection. A peer opens a
*request channel* by taking an id from a free list; the other peer opens a *response channel* for
that id when the first Request arrives. Either side may close at any time with an End frame, a
received End closes the local half (which sends an End of its own), and a freed id is handed out
again at once, last in first out. This project models that protocol, the objects that carry it out,
and the byte layer below it, and proves what they keep over every run.

## How the model is built

- `Bytes`, `Messages`, `Frames`, `Framing`: 32-bit words, the wrap/unwrap trailer, the four kinds of
  frame, messages on a byte stream. The cells and sockets the source mutates are classes here
  (`MessageCell`, `Socket`), each method proved equal to a function.
- `Peers`: what each whole call does to one peer's tables, as functions on values. They are the one
  definition everything else shares.
- `Channels`, `Connector`: the objects. `ChannelManager` holds two arrays of `InternalChannel`, each
  channel refers back to its manager, closing re-enters the manager and removal re-enters the channel.
  A ghost field `model` holds the value of `Peers`; every method states the new `model` by the function
  of `Peers` and the exact bytes it wrote. `Inv(lag)` ties `model` to the real fields, also in the middle
  of a close, where `lag` says for which id and how far the real fields lag behind.
- `OneWay`, `Invariant`, `Preservation`, `Protocol`: the protocol for the channels one peer opens, as a
  transition system over `Peers` with two FIFO wires, its invariant, and the main results on requests.
- `Replies`, `Reissue`: the way back, and exactly when an id may be reissued.
- `Duplex`: both peers opening and answering over shared wires, projected onto the one-way protocol.
- `ByteStream`: the same connection over two byte streams with reads of any length.
- `WriteLock`, `Allocator`, `Clients`: the three places where threads interleave inside a call.

Channels are numbered in the order they are made and each packet carries the number of the channel that
wrote it. These numbers are history: no function that decides what a peer does reads them. A *session* is
one request channel. Whole channel and manager calls are atomic except in the last three modules, because
the code locks neither its tables nor `isClosed`.

## What is false, and exactly when it is true

A reply can reach the wrong request channel: an id freed by its peer is reissued while frames of its
previous use are still on their way. `Reissue.ReuseMisdelivers` leads there in seven steps with one id.
`Reissue.ReissueIsSafeIffClean` gives the exact guard: taking the id on top of the free list is safe in
every continuation of the run if and only if the peer's response slot for it is empty, no Request with
that id is on the way there, and no frame with that id is on the way back. A RequestEnd still in flight
to an empty slot does no harm. What holds of a session created under that guard, for the rest of the
run, is `Replies.Faithful`.

Where the code and its comments differ the code is modelled. `connector.cc` line 116 speaks of a new
channel, but `forwardMessage` returns the response channel on every Request, so a handler is started
for each (`Connector.Starts`). The semaphore is declared binary but starts at `MaxChannels`; the counting
semaphore that asks for is modelled.

## Model

| member | source | states |
|---|---|---|
| Messages.WrapRoundTrip | servercc/types/include/message.h:40-88 | unwrapping a wrapped message gives back value, header and the body cut or padded to the header's length, exactly for lengths up to 2^32-13; the next four lengths make unwrap fail |
| Messages.UnwrapThenWrap | servercc/types/include/message.h:60-88 | what unwrap returns is well formed and wraps back to the input byte for byte |
| Messages.UnwrapAcceptsImageOfWrap | servercc/types/include/message.h:40-88 | unwrap succeeds on a framed message if and only if some wrap call produced it |
| Messages.NestedRoundTrip | servercc/types/include/message.h:40-88 | n wraps are undone by n unwraps, values coming back last first |
| Messages.MessageCell.Wrap | servercc/types/include/message.h:41-58 | the in-place resize, two copies and header update, with 32-bit offsets, produce the specified wrapping |
| Messages.MessageCell.Unwrap | servercc/types/include/message.h:62-88 | the in-place unwrap succeeds exactly when the specification does and leaves the inner message |
| Frames.ParseEncode | servercc/connectors/include/internal_channel_manager.h:77-120 | classification recovers every frame from its message whatever protocol number the payload carries |
| Frames.EncodeParse | servercc/connectors/include/internal_channel_manager.h:77-120 | a message classified as a frame is that frame's encoding, byte for byte, if and only if it is a Request, a Response or an End of exactly four bytes: what follows an End's id is ignored |
| Frames.ParseClassifies | servercc/connectors/include/internal_channel_manager.h:77-126 | every message has exactly one classification: an End by its outer protocol and the length of its body, any other by what it is the wrapping of, and a message that wraps nothing has a bad length |
| Peers.BytesOfFrames | servercc/types/include/protocols.h:29-53 | each of the four frames on the stream byte by byte: protocols 0x10, 0x11, 0x13 and 0x14, body, original header, id, words least significant byte first |
| Framing.ReadOne | servercc/types/src/message.cc:8-29 | a read at a message boundary yields that message or an error, and the message if the reads are full |
| Framing.ReadSucceedsExactly | servercc/types/src/message.cc:8-29 | a read succeeds if and only if the message has arrived whole and neither receive falls short, and then takes that message and no byte more |
| Framing.ShortReadsNeverMisframe | servercc/types/src/message.cc:8-29 | however reads are split and wherever the stream is cut, the messages read are a prefix of those written |
| Framing.LoopStopsAtFirstShortRead | servercc/connectors/src/connector.cc:94-106 | the read loop returns exactly the messages before the first one that has not arrived whole or whose receive falls short |
| Framing.FullReadsDeliverAll | servercc/types/src/message.cc:8-29 | with full reads every written message arrives |
| Framing.Socket.ReadMessage | servercc/types/src/message.cc:8-29 | the two receives return the specified message or stop short, and consume exactly what they took; when they fall short is ReadSucceedsExactly |
| Framing.Socket.WriteMessage | servercc/types/src/message.cc:47-68 | header.length is overwritten by the body's size and header and body are appended to the stream |
| Framing.WrittenThenRead | servercc/types/src/message.cc:47-68 | whatever header.length said before, what was written reads back as the body cut to its size modulo 2^32, with the same protocol, exactly when both receives are full |
| Invariant.CloseThenCreateReusesTheId | servercc/connectors/include/internal_channel_manager.h:132-145 | ids are reused last in first out: a create after a close takes the id just freed |
| Invariant.CreateThenCloseUndoes | servercc/connectors/include/internal_channel_manager.h:132-145 | closing a channel just created restores free list and slots and sends one RequestEnd |
| Peers.FirstIdsCountDown | servercc/connectors/include/internal_channel_manager.h:49-56 | the n-th create on a new manager with max channels gets id max-n, and 0..max-n-1 are left in order |
| Preservation.StepKeeps | servercc/connectors/include/internal_channel_manager.h:74-221 | every call and every delivery keeps the protocol invariant |
| Protocol.RequestConservation | servercc/connectors/include/internal_channel_manager.h:113-120 | in every run the messages taken by response channels because of one request channel, in order, followed by its Requests in flight, are exactly what it wrote |
| Protocol.RequestIsolation | servercc/connectors/include/internal_channel_manager.h:86-92 | no response channel ever holds messages of two request channels, even of the same id |
| Protocol.IdConservation | servercc/connectors/include/internal_channel_manager.h:45-56 | free list and ids in use partition 0..MaxChannels-1 without duplicates, and every id on a wire is in range |
| Protocol.ClosedForGood | servercc/connectors/include/internal_channel.h:67-97 | a closed channel stays closed and unchanged for ever, so a stale handle disturbs no later channel of its id |
| Protocol.NoHalfOpenChannels | servercc/connectors/include/internal_channel_manager.h:78-93 | with both wires empty a response channel is open exactly for a live request channel that has written, and serves it |
| Protocol.DeliveryLowers | servercc/connectors/include/internal_channel_manager.h:78-126 | every delivery strictly lowers 2 x Requests + other frames + live request channels + open response channels |
| Protocol.EndExchangeTerminates | servercc/connectors/include/internal_channel_manager.h:78-126 | once users are silent every order of deliveries empties the wires within that measure and leaves no half-open channel |
| Replies.RunFaithful | servercc/connectors/include/internal_channel_manager.h:105-111 | a session that owns its id keeps hearing only its own response channels, in write order, nothing lost while it is live |
| Reissue.ResponseIsolation | servercc/connectors/include/internal_channel_manager.h:132-146 | a session created on a clean id is faithful in every continuation and never meets a foreign frame |
| Reissue.TaintArrives | servercc/connectors/include/internal_channel_manager.h:78-84 | from an unclean reissue, deliveries alone bring a foreign frame to the new session |
| Reissue.ReissueIsSafeIffClean | servercc/connectors/include/internal_channel_manager.h:132-146 | reissuing an id is safe in all continuations if and only if the id is clean |
| Reissue.ReuseMisdelivers | servercc/connectors/include/internal_channel_manager.h:105-111 | a concrete run in which a reply to a closed channel lands in the next channel with its id |
| Duplex.DirectionsAreIndependent | servercc/connectors/include/internal_channel_manager.h:78-120 | both projections of any run of the connection are runs of the one-way protocol |
| Duplex.ConnectionConserves | servercc/connectors/include/internal_channel_manager.h:113-120 | conservation and isolation on the shared wires, for the channels of either peer |
| Duplex.EveryIdInRange | servercc/connectors/include/internal_channel_manager.h:78-120 | every id on either shared wire is below MaxChannels |
| Duplex.ConnectionSettles | servercc/connectors/include/internal_channel_manager.h:78-126 | any scheduling of the two readers empties both shared wires |
| Duplex.SettledConnectionIsConsistent | servercc/connectors/include/internal_channel_manager.h:78-126 | from any reachable state the settled connection has no half-open channel in either direction |
| Duplex.CleanSessionsStayFaithful | servercc/connectors/include/internal_channel_manager.h:132-146 | a session either peer begins on a clean id hears only itself however the rest of the connection runs |
| Duplex.AskDelivers | servercc/connectors/include/internal_channel.h:67-89 | a write on an open session, once routed, is the last entry of the log at both ends and changes nothing else |
| Duplex.AnswerDelivers | servercc/connectors/include/internal_channel.h:67-89 | so is a reply, written on the response channel and routed back |
| Duplex.OpenerParts | servercc/connectors/include/internal_channel.h:92-117 | a close by the opener and the two End frames it causes empty both slots and put the id on top of the free list, and nothing else |
| Duplex.AnswererParts | servercc/connectors/include/internal_channel.h:92-117 | a close by the answering peer ends in the same state |
| Duplex.SessionLeavesNoTrace | servercc/connectors/include/internal_channel_manager.h:74-146 | from any reachable state with nothing under way, a session of either peer, whoever closes it, leaves tables, free list and wires as it found them and in the logs exactly its request and its reply at both ends |
| ByteStream.StepRefines | servercc/types/src/message.cc:8-68 | a call or a read over byte streams is exactly one message-level step, or none |
| ByteStream.BytesRefineFrames | servercc/types/src/message.cc:8-68 | every byte-level run matches a message-level run, peers and live streams alike |
| ByteStream.FramesAreRealised | servercc/types/src/message.cc:8-68 | conversely every message-level run is a byte-level run with both readers still reading, so the two have the same reachable peers |
| ByteStream.ShortReadEndsTheReader | servercc/connectors/src/connector.cc:96-106 | after a short read the peer hears nothing of that stream ever again, whatever happens on the link |
| ByteStream.EveryReadIsRoutable | servercc/connectors/include/internal_channel_manager.h:77-126 | every message read is one of the four frames with an id inside the tables |
| ByteStream.EndToEndDelivery | servercc/connectors/include/internal_channel.h:67-76 | over bytes, for the sessions of either peer: what the far end took of a session is a prefix of what it wrote, and all of it when the stream is read out |
| ByteStream.CleanSessionsHearThemselves | servercc/connectors/include/internal_channel_manager.h:105-111 | over bytes, a session either peer begins on a clean id hears only response channels it opened, a prefix of what they wrote, and while it is live all of it when the returning stream is read out |
| Channels.ManyOwnersCloseOnce | servercc/connectors/include/internal_request.h:35-59 | any number of owners closing one channel do together what one close does |
| Channels.DestroyedSendsOneEndEach | servercc/connectors/include/internal_channel_manager.h:59-65 | the destructor sends one End frame for each open channel |
| Channels.DestroyedEmpties | servercc/connectors/include/internal_channel_manager.h:59-65 | after the first n ids no channel of either kind is registered below n |
| Channels.DestroyedInOrder | servercc/connectors/include/internal_channel_manager.h:59-65 | the destructor's End frames go out id by id, for each id the ResponseEnd before the RequestEnd |
| Channels.AcceptedIffRouted | servercc/connectors/include/internal_channel_manager.h:77-126 | the status is OK for every End, and for any other message if and only if routing it changes the tables: an unreadable message, an unknown protocol and a Response for a closed channel are refused |
| Channels.ReportsWhatWasWrapped | servercc/connectors/include/internal_channel_manager.h:77-126 | the protocol reported is that of the message wrapped, whatever the outer protocol; an End reports its own and an unreadable message -1 |
| Channels.InternalChannel.Write | servercc/connectors/include/internal_channel.h:67-76 | an open handle appends one whole frame to the stream, a closed one nothing, and the result says which; of the four lengths too long to wrap, a message of up to three bytes goes out |
| Channels.OversizeIsRejected | servercc/types/include/message.h:62-67 | what goes out for those four lengths is a well-formed message of its own, which the far end reports as too short and which changes none of its tables |
| Channels.InternalChannel.Push | servercc/connectors/include/internal_channel.h:84-89 | an open channel appends the message to its buffer, a closed one refuses it |
| Channels.InternalChannel.Close | servercc/connectors/include/internal_channel.h:92-117 | terminates through the re-entrant callback, sends exactly one End frame, empties the slot and frees a request id once; on a closed channel nothing changes |
| Channels.ChannelManager.constructor | servercc/connectors/include/internal_channel_manager.h:45-56 | the loop pushes 0 to MaxChannels-1 in that order, one permit each, and empties every slot |
| Channels.ChannelManager.RemoveRequestChannel | servercc/connectors/include/internal_channel_manager.h:208-221 | whether entered first or from close: slot emptied, channel closed, id pushed exactly once, one RequestEnd or none |
| Channels.ChannelManager.RemoveResponseChannel | servercc/connectors/include/internal_channel_manager.h:194-201 | whether entered first or from close: slot emptied, channel closed, free list untouched, one ResponseEnd or none |
| Channels.ChannelManager.CreateRequestChannel | servercc/connectors/include/internal_channel_manager.h:132-146 | a fresh open channel in the slot of the id popped, nothing else changed; with no free id the call waits and nothing has changed |
| Channels.ChannelManager.CreateResponseChannel | servercc/connectors/include/internal_channel_manager.h:176-188 | refused if the slot is taken, else a fresh channel in it |
| Channels.ChannelManager.ForwardMessage | servercc/connectors/include/internal_channel_manager.h:74-126 | all branches: tables and stream change as the protocol step for that message says; OK exactly for an End or if the tables changed; the payload's protocol; the channel in the slot for every Request and for nothing else |
| Channels.ChannelManager.Destroy | servercc/connectors/include/internal_channel_manager.h:59-65 | closes every channel once, after which no handle is open and none can call back |
| Channels.InternalRequest.Terminate | servercc/connectors/include/internal_request.h:35-59 | the first owner closes the channel, for later owners nothing changes |
| Connector.Connector.AddClient | servercc/connectors/src/connector.cc:40-46 | a known address is refused and keeps its client, a new one is registered |
| Connector.Connector.SendRequest | servercc/connectors/src/connector.cc:53-70 | refused for an unknown address, else a new request owning the one channel just made on that client's manager, unless the call waits for a free id |
| Connector.HandlerGetsTheChannel | servercc/connectors/src/connector.cc:118-128 | a handler starts for a Request and for nothing else, under the protocol of its payload, with the open channel of its id that has just taken that payload |
| Connector.Connector.HandleMessage | servercc/connectors/src/connector.cc:109-129 | one turn: the message is routed, and for a Request exactly one new request, with the payload's protocol, owning the open channel registered in the slot, is handed over |
| Connector.Connector.ReadLoop | servercc/connectors/src/connector.cc:93-130 | the loop routes in order a prefix of what the far end wrote, up to the first bad read, and hands over one new request per Request, each on the channel its message was pushed to |
| Connector.Connector.RunClient | servercc/connectors/src/connector.cc:75-137 | when the loop ends the client's socket is closed, only that address is erased and it is reported once |
| WriteLock.StreamIsWholeFrames | servercc/connectors/include/internal_channel.h:67-76 | for any interleaving of threads the stream is whole frames and at most one header, that of the lock holder |
| WriteLock.ThreadOrderKept | servercc/connectors/include/internal_channel.h:99-112 | each thread's frames are on the stream in the order of its calls, all but the one in progress |
| WriteLock.ReaderSeesTheFrames | servercc/types/src/message.cc:47-68 | a reader gets completed frames and at most the one underway, and all of them when the lock is free |
| WriteLock.WholeWrite | servercc/connectors/include/internal_channel.h:67-76 | one thread's write puts exactly its frame on the stream and gives the lock back |
| WriteLock.EveryWriteCanFinish | servercc/connectors/include/internal_channel.h:67-76 | from any reachable state the writers inside can finish without a new call, and then everything called for is on the stream in whole frames |
| Allocator.TopIsNeverEmpty | servercc/connectors/include/internal_channel_manager.h:132-138 | semaphore count plus threads between permit and stack equals the stack's size, so no pop meets an empty stack, whichever thread frees an id |
| Allocator.IdsHeldOnce | servercc/connectors/include/internal_channel_manager.h:216-220 | every id is in exactly one place, so no two threads hold the same one, also when one thread frees an id another created |
| Allocator.WholeCreate | servercc/connectors/include/internal_channel_manager.h:132-138 | one create takes one permit and the top id, as in the tables' create |
| Allocator.WholeFree | servercc/connectors/include/internal_channel_manager.h:216-220 | one free, by any thread, puts the id on top and returns one permit, as in the tables' close |
| Allocator.EveryCallCanFinish | servercc/connectors/include/internal_channel_manager.h:132-220 | from any reachable state the threads inside can finish without a new call, and then every id is owned or on the stack with its permit |
| Clients.OneReaderPerClient | servercc/connectors/src/connector.cc:33-50 | an address is known exactly while one reader runs or is about to start for it, erases only its own entry, and adds minus erases is 0 or 1 |
| Clients.WholeVisit | servercc/connectors/src/connector.cc:33-50 | an address added, read and erased leaves the map as it was, so it can be added again; a second add in between is refused |
| Clients.EveryClientCanLeave | servercc/connectors/src/connector.cc:97-106 | from any reachable state every reader can end, and then the map is empty and each add is matched by one erase |

## Left out

- Channels.InternalChannel.Write: takes messages whose header.length is below 2^32-8; from there on `length + 8` wraps around and the source writes outside the body.
- Channels.ChannelManager.CreateRequestChannel: with no free id the source blocks on the semaphore; the method returns null with nothing changed for the call still waiting, and being woken is modelled in Allocator.
- Channels.ChannelManager.ForwardMessage: requires what its copies and array indexing need of the message; between two peers of this code ByteStream.EveryReadIsRoutable shows it always holds.
- Connector.Connector.ReadLoop: is the reader alone; users and handlers acting between its turns are in ByteStream and Duplex, where every interleaving of whole calls is a run.
- Allocator.TopIsNeverEmpty: covers the free list, its mutex and its semaphore; the unlocked slot arrays are not part of that module.
- Partial or failed sends, and a negative descriptor: sends complete.
- Data races on `isClosed` and on the slot arrays inside close and removal: whole calls are atomic there.
- Reading from a channel's buffer: `MessageBuffer` is not part of this model beyond an unbounded queue with a closed flag.
- Allocation failure of very large bodies, and peers of different byte order: words are least significant byte first.
- Sockets, multicast, timeouts and `std::async`: a connection is a FIFO of bytes and each receive returns a prefix of what was asked, of a length that is a parameter; -1 is not modelled.
- `addHandler` and which handler runs for a protocol: easy map lookups; only with which request a handler starts is modelled, and not the client's address in it.
- The discovery handshake, the TCP and UDP servers and clients: no channel traffic of their own.
- `kInternalErrorProtocol` and the `ErrorProtocol` parameter: never acted on by the source.
