# Aurum in Dafny

Aurum is a cluster node. Nodes talk over TCP, and WebSocket clients talk to nodes, in batches:
one frame holds a count, a table of lengths, that many payloads and a checksum. Nodes find each
other with identify and discovery messages, mirror each other's WebSockets with join and leave
messages, and keep all sessions in one registry.

This project models that behaviour and proves, for all inputs and all runs:

- **Codec.** What the builder writes is what the kernel dispatches; exactly the sealed frames are
  accepted in full; on arbitrary bytes the kernel runs the handlers of the longest well-formed prefix
  of a frame's entries; the checksum is the remainder of a polynomial division, the only number of 16
  bits that can be left, and no two frames of one length that differ in a burst of 16 bits, in two
  adjacent covered bytes, or only in the checksum are both accepted. Every number is little-endian and
  every field of every message is found where the format puts it.
- **Identities and addresses.** An identify binds exactly the node id, port and host it carries; after
  the three frames of a handshake both ends know each other; a bound address is listed to third nodes;
  a discovery response is read as the longest list its bytes spell, and of that list exactly the
  reachable peers are dialled to which no registered session is bound.
- **Conversation.** Every reply entry is a response and responses are never answered. However long
  the entries are, an answer has fewer entries than the reply it answers, so every exchange ends, after
  no more further turns than the first reply has entries. It ends after one reply exactly as meant if
  no listing of more than 65513 bytes is asked for ahead of another entry that is answered; a node
  with 16384 connections shows what happens otherwise.
- **Streams and queues.** Every chunking of a stream delivers the same bodies. The write queue has
  at most one write outstanding, never writes again after an error, and what its wire carries is
  delivered at the other end as a prefix of what was sent.
- **Bootstrap.** A cluster whose frames travel as bytes comes to rest in every run with finitely many
  events from outside, whatever bytes are sent from outside, with nothing in flight and no dial
  posted. Without discovery and with all dials succeeding, sessions made, dials posted and fan-out not
  yet processed add up to a constant, so that a call asking for n connections leaves exactly max(1, n)
  new sessions at each end; with dials that fail, ids that are taken, losses and removals it never
  leaves more.
- **Registry.** Ids stay unique and lookups by id and by type agree with a scan in every run; a
  lookup by node id is the scan restricted to the sessions that still have the id they were filed
  under, every step but an identify keeps it equal to the scan, and as long as the container has not
  re-filed its entries it finds no identified TCP session. Concurrent removal disconnects a session at
  most once. A broadcast reaches every connected node once, and sends in a row are shared out fairly
  among the sessions found.
- **Replication.** Over one identified link, applying the join and leave messages under way to the
  peer's stand-ins always gives the WebSockets that joined and have not left, whatever else the two
  nodes do meanwhile with other sessions and each other's WebSockets.

Three properties that one might expect do not hold of the code, and each is settled exactly: the
discovery reader does not invert the discovery builder (`Discovery.InvertsIff`,
`Discovery.TextInvertsIff`, `Discovery.LocalhostPairMisread`), a node-keyed lookup misses identified
sessions (`IndexAgreement.IdentifyCompleteIff`, `IndexAgreement.IdentifiedIsMissed`,
`ClusterRegistry.RunsReachNoNode`), and an oversized listing ahead of another reply entry is misread
(`Exchange.ReplyUnderstoodIff`, `Exchange.CrowdedExchange`).

## Files

| file | contents |
|---|---|
| Bytes, Crc16, Crc16Division, Protocol, Messages | little-endian integers, the checksum and what it is, constants, the entries of the protocol |
| Frames, FrameBuilder, Kernel | the frame layout and its parser, the builder object, the kernel |
| Discovery, Dialling | the two layouts of a peer list, the reader, and which peers are dialled |
| Registry, State, NodeModel | the session container, the node's state and handlers, and the functions they refine |
| Conversation, Arrivals, Exchange | replies, what arrives of entries that are too long, an exchange in bytes |
| Deframing, WriteQueue | the stream reader, the write queue |
| Bootstrap, Carriage, Connections, Bounds, ClusterRegistry | a cluster of nodes as a step relation over bytes: termination, orderly frames, conservation of connections, bounds when things fail, the registries |
| IndexAgreement, Routing, Removal, Disconnects | lookups, broadcast and round robin, removal |
| Readings, Bindings, Handshake | what messages and replies mean, what an identify binds, a handshake from end to end |
| Mirror, Uplink, Replication | the mirror of a node's WebSockets: the receiving end, the sending end, both in step |

Objects that the program updates in place are classes (`Builder`, `SessionContainer`, `State`,
`StreamReader`, `Writer`, `Balancer`); each of their methods is tied to a function of the old state,
and the properties are proved of those functions. Protocols are step relations over runs
`nat -> State`, or over sequences of states.

Verify with `dafny verify dfyconfig.toml`.

## Model

| member | source | states |
|---|---|---|
| Crc16Division.CrcIsRemainder | src/aurum/protocol/frame_builder.cpp:138-149 | for any bytes: quotient times x^16 + x^12 + x^5 + 1 plus the checksum is the message times x^16 with its 16 leading places inverted, over GF(2), most significant bits first |
| Crc16Division.CrcIff | src/aurum/session_kernel.cpp:41-60 | and the checksum is the only number of 16 bits that such a division can leave |
| Crc16.ClockAllInjective | src/aurum/session_kernel.cpp:41-60 | equal bits after a difference never make two checksum registers meet again |
| Crc16.BurstDetected | src/aurum/session_kernel.cpp:41-60 | any change within 16 consecutive bits, at any alignment and place, changes the register at the end |
| Crc16.AdjacentBytesDetected | src/aurum/protocol/frame_builder.cpp:138-149 | changing one or two adjacent bytes always changes the checksum |
| Crc16.CrcFits | src/aurum/protocol/frame_builder.cpp:138-149 | the checksum fits the two bytes it is stored in |
| Bytes.WireIsLittle | src/aurum/protocol/frame_builder.cpp:571-574 | 16-, 32- and 64-bit numbers are written least significant byte first |
| Bytes.ReadBack64 | src/aurum/protocol/frame_builder.cpp:597-600 | a 64-bit count is read back as written |
| Protocol.PayloadFields | src/aurum/session_kernel.cpp:134-154 | opcode, type, transaction id and body are at offsets 0, 1, 2 and 18 of a payload |
| Frames.HeaderIsBodySize | src/aurum/protocol/frame_builder.cpp:71-94 | when both guards pass, the 32-bit length header is the true length of what follows: the cast never wraps |
| Frames.ByteGuardIsTight | src/aurum/protocol/frame_builder.cpp:71-94 | with payloads that fit their length fields, the byte guard rejects exactly the frames of 65535 entries within seven bytes of the largest total |
| Frames.RoundTrip | src/aurum/protocol/frame_builder.cpp:56-153 | the kernel finds exactly the opcodes, types, transaction ids and bodies that were added, in order; the headed form is the little-endian length and the same bytes |
| Frames.ParseOfSealed | src/aurum/session_kernel.cpp:62-164 | the same whatever bytes lie between the last payload and the checksum |
| Frames.ShapeOfParse | src/aurum/session_kernel.cpp:62-164 | a frame whose entries were all found is count, lengths, payloads, ignored bytes, checksum |
| Frames.AcceptedIff | src/aurum/session_kernel.cpp:36-173 | both directions at once: a frame yields these entries in full if and only if it is their sealed encoding with some ignored bytes |
| Frames.WalkIsLongestPrefix | src/aurum/session_kernel.cpp:121-164 | the entries found are each cut from their own bytes, form the longest well-formed prefix of the table, and the walk is complete iff that is the whole table |
| Frames.ParseOfLeading | src/aurum/session_kernel.cpp:62-164 | whatever its bytes, a frame with a sound checksum and table is read as the longest well-formed prefix of its entries |
| Frames.BurstRejected | src/aurum/session_kernel.cpp:41-60 | two frames of one length whose covered bits differ within a burst of at most 16 bits are not both accepted |
| Frames.CorruptionRejected | src/aurum/session_kernel.cpp:41-60 | nor are two that differ only within two adjacent covered bytes, or only in the stored checksum |
| FrameBuilder.Builder.GetData | src/aurum/protocol/frame_builder.cpp:56-153 | one pass over the buffers gives the specified frame, no bytes for no buffers, or the overflow error; it changes nothing |
| FrameBuilder.Builder.Flush | src/aurum/protocol/frame_builder.cpp:158-165 | buffers and size counter are cleared together |
| FrameBuilder.Builder.Push | src/aurum/protocol/frame_builder.cpp:172-607 | the step of all thirteen `add` operations, whose contracts say the same of their own payloads: one more buffer, the counter up by the size announced for it, which is its true size |
| FrameBuilder.AppendLengths | src/aurum/protocol/frame_builder.cpp:120-130 | the loop writes every buffer's length cast to 16 bits, in order |
| FrameBuilder.AppendAll | src/aurum/protocol/frame_builder.cpp:131-137 | the loop writes every buffer, in order |
| FrameBuilder.Builder.AddIdentifyRequest | src/aurum/protocol/frame_builder.cpp:205-265 | appends exactly the payload, with port and host left out only when both are blank, and keeps the size counter equal to the sum of the buffers |
| FrameBuilder.Builder.AddDiscoveryResponse | src/aurum/protocol/frame_builder.cpp:488-555 | the same for a listing: the count, all pairs, then all hosts |
| FrameBuilder.WriteList | src/aurum/protocol/frame_builder.cpp:488-555 | the loops write exactly the grouped layout, and the size announced for the buffer is its size |
| Messages.IdentifyFields | include/aurum/handlers/identify.hpp:42-84 | node id, connection count, port and host read at the handler's offsets are those the builder wrote |
| Readings.RequestsRead | src/aurum/protocol/frame_builder.cpp:172-384 | opcode, type, transaction id and body of the requests without fields and of join and leave, in numbers |
| Readings.IdentifyReads | src/aurum/protocol/frame_builder.cpp:205-265 | the same of an identify request, with its fields at their offsets |
| Readings.PlainAnswers | include/aurum/handlers/ping.hpp:32-43 | ping is answered by code 200 and an unknown opcode by opcode 0 and code 0, under the request's transaction id, changing nothing |
| Readings.WhoamiAnswer | include/aurum/handlers/whoami.hpp:31-38 | whoami is answered by the session's id, the node's id and the kind of session, at their offsets |
| Readings.IdentifyAnswer | include/aurum/handlers/identify.hpp:86-88 | identify is answered by the node's own id |
| Readings.DiscoveryAnswer | include/aurum/handlers/discovery.hpp:40-57 | discovery is answered by the listing for the asking session, changing nothing |
| Readings.JoinStandsIn | include/aurum/handlers/join.hpp:43-51 | a join registers a stand-in with the link's node id and a blank address |
| Readings.JoinTaken | include/aurum/handlers/join.hpp:43-51 | a join for an id in use changes nothing |
| Readings.LeaveTakesOut | include/aurum/handlers/leave.hpp:41-65 | a leave takes out what is registered under the id and changes nothing else |
| Bindings.IdentifyBinds | include/aurum/handlers/identify.hpp:52-98 | for all node ids, counts, ports and hosts: the session is left with exactly the id, port and host of the request, a blank host leaving the old one, the further connections are posted, and nothing else changes |
| Bindings.ResponseBinds | include/aurum/handlers/identify.hpp:52-102 | an identify response binds the node id only and is not answered |
| Bindings.WebSocketStays | include/aurum/handlers/identify.hpp:35-42 | a WebSocket is not identified |
| Bindings.IdentifiedIsListed | include/aurum/handlers/discovery.hpp:40-57 | the address a session identified with is in the listing that a third node's discovery request is answered by |
| Handshake.BothEndsKnow | src/aurum/state.cpp:159-216 | after a call of `connect`, the delivery of its greeting and of the reply, the caller's session is bound to the listener's node id, the listener's to the caller's node id, port and the loopback address, and nothing is left in flight |
| Kernel.Check | src/aurum/session_kernel.cpp:41-60 | true exactly for frames whose last two bytes are the checksum of the rest |
| Kernel.ReadTable | src/aurum/session_kernel.cpp:71-111 | the loop reads the declared number of lengths and leaves the cursor at the first entry |
| Kernel.DispatchAt | src/aurum/session_kernel.cpp:121-164 | the cursor decodes the entry at its own bytes and runs its handler on the state and the reply builder |
| Kernel.DispatchNext | src/aurum/session_kernel.cpp:122-164 | one turn of the loop: an entry that does not fit or lacks its prefix ends it with nothing run; otherwise what is left to handle shrinks by that entry |
| Kernel.DispatchAll | src/aurum/session_kernel.cpp:121-164 | the loop runs handlers on exactly the walked entries, stops at the first ill-formed one keeping the effects so far, and never moves past the checksum |
| Kernel.DispatchTable | src/aurum/session_kernel.cpp:71-164 | reading the table and walking it give the outcome of the parsed entries |
| Kernel.HandleEntries | src/aurum/session_kernel.cpp:62-174 | the reply is headed on TCP sessions only, and absent if an entry was ill formed |
| Kernel.Answer | src/aurum/session_kernel.cpp:166-173 | a reply is built from the handlers' entries only if every entry was well formed |
| Kernel.HandleFrame | src/aurum/session_kernel.cpp:31-174 | for arbitrary bytes: the new state is that of handling the parsed entries in order, and there is a reply iff the frame is sound and every entry well formed; no read is out of range and no subtraction wraps |
| Kernel.KernelRunsPrefix | src/aurum/session_kernel.cpp:62-174 | for arbitrary bytes with a sound checksum and table: the handlers of the entries before the first ill-formed one have run, and there is a reply iff there is no ill-formed one |
| Kernel.KernelDrops | src/aurum/session_kernel.cpp:36-111 | any other bytes change nothing and get no reply |
| Conversation.OneResponse | include/aurum/handlers/non_implemented.hpp:31-41 | a handler adds at most one entry, a response with the request's transaction id; a response is never answered |
| Conversation.RepliesFollowRequests | src/aurum/session_kernel.cpp:113-173 | reply transaction ids are an in-order subsequence of the request's, all replies are responses, a frame of responses gets none |
| Conversation.RepliesIff | src/aurum/session_kernel.cpp:113-173 | there is a reply entry iff some entry is of a sort that the kind of session answers |
| Conversation.RepliesFitIff | src/aurum/protocol/frame_builder.cpp:120-130 | the entries of a reply but the last fit their length fields iff no listing that is too long is asked for ahead of another entry that is answered |
| Conversation.ReplyCountFits | src/aurum/session_kernel.cpp:166-173 | no reply ever trips the 65535-entry guard |
| Conversation.ReplySize | src/aurum/protocol/frame_builder.cpp:326-607 | every reply entry other than a discovery listing is at most 51 bytes |
| Conversation.GreetingArrives | src/aurum/state.cpp:192-209 | the frame `connect` sends is parsed as the entries it was built from |
| Arrivals.LastCutShort | src/aurum/protocol/frame_builder.cpp:120-130 | a last payload too long for its 16-bit length is read cut to the cast length, the others unharmed |
| Arrivals.LastCutOff | src/aurum/session_kernel.cpp:121-164 | if the cast length is below the 18-byte prefix the others are handled and the frame counts as incomplete |
| Arrivals.ResponsesArriveIff | src/aurum/session_kernel.cpp:31-174 | responses sent in one frame are found as sent, the last one perhaps with its body cut or missing, if and only if all before the last fit their 16-bit lengths |
| Arrivals.FirstFound | src/aurum/session_kernel.cpp:121-164 | however long its entries, a frame is never read as more entries than were sent, and the first one found, if any, is of the type of the first one sent |
| Arrivals.ReplyShrinks | src/aurum/session_kernel.cpp:121-173 | what is found in a reply begins with a response and is never more than what the reply answers, and less if that began with a response |
| Exchange.AnswerShrinks | src/aurum/session_kernel.cpp:113-173 | an answer to a reply has fewer entries than the reply, whatever the sizes and whatever happened to the nodes between |
| Exchange.TurnsBounded | src/aurum/session_kernel.cpp:166-173 | an exchange has no more further turns than its first reply has entries |
| Exchange.EveryExchangeEnds | src/aurum/session_kernel.cpp:166-173 | no exchange goes on forever, whatever bytes start it |
| Exchange.ReplyUnderstoodIff | src/aurum/session_kernel.cpp:166-173 | for every frame and registry: the other end finds the reply's entries as they were meant, the last perhaps cut, iff no listing of more than 65513 bytes is asked for ahead of another entry that is answered |
| Exchange.ExchangeEnds | src/aurum/session_kernel.cpp:166-173 | the one-reply case: if the listings asked for fit in that sense, the answer to the reply is empty or absent and nothing answers that |
| Exchange.DiscoveryLastEnds | src/aurum/session_kernel.cpp:166-173 | the same, whatever the registry holds, for every frame that asks for a listing last or not at all |
| Exchange.CrowdIsCrowded | include/aurum/handlers/identify.hpp:35-102 | accepting and identifying k connections one after the other leads to a sound node with k sessions at port 1 |
| Exchange.CrowdedExchange | src/aurum/protocol/frame_builder.cpp:488-555 | a node reached by 16384 such connections is sent a frame that asks for its listing and then pings: the bytes of its reply make any peer's kernel answer a ping that was never sent |
| Deframing.StreamReadsBack | src/aurum/tcp_session.cpp:228-280 | a stream of headed bodies reads back as those bodies with nothing left over |
| Deframing.ReadOn | src/aurum/tcp_session.cpp:228-280 | reading may stop after any byte and go on later with the same result |
| Deframing.PrefixDelivers | src/aurum/tcp_session.cpp:228-280 | any part of a stream delivers the first bodies of the whole |
| Deframing.BuiltIsStream | src/aurum/protocol/frame_builder.cpp:94-106 | the builder's headed frame is a stream of one body, and an empty reply is no bytes at all |
| Deframing.OutputsAreStream | src/aurum/tcp_session.cpp:82-112 | whatever sequence of builder outputs a session sends, the bytes are the stream of its non-empty frames; zero-byte replies leave no trace |
| Deframing.StreamReader.ReadHeader | src/aurum/tcp_session.cpp:228-248 | consumes four bytes when they are there and remembers the length; no byte is lost |
| Deframing.StreamReader.ReadBody | src/aurum/tcp_session.cpp:253-280 | delivers the body when all its bytes are there and turns back to reading a header |
| Deframing.StreamReader.Advance | src/aurum/tcp_session.cpp:228-280 | one turn keeps delivered and undelivered bodies together constant, and makes progress unless bytes are missing |
| Deframing.StreamReader.Receive | src/aurum/tcp_session.cpp:228-280 | after any chunk, what was delivered is what the bytes received so far hold |
| Deframing.ReceiveAll | src/aurum/tcp_session.cpp:228-280 | every chunking of a stream delivers exactly its bodies, in order |
| WriteQueue.StepKeeps | src/aurum/tcp_session.cpp:82-149 | at most one write outstanding; before an error one is outstanding iff the queue is non-empty; the wire is the completed messages in send order and a prefix of the front one |
| WriteQueue.RunKeeps | src/aurum/tcp_session.cpp:82-149 | these hold at every state of every run |
| WriteQueue.CallbackFindsFront | src/aurum/tcp_session.cpp:119-149 | the callback of a finished write finds its own message at the front |
| WriteQueue.NoWriteAfterError | src/aurum/websocket_session.cpp:72-95 | after the first error no write is started, the wire stays as it is and the failed message stays at the front |
| WriteQueue.WireIsPrefix | src/aurum/tcp_session.cpp:82-149 | the wire is always a prefix of everything sent |
| WriteQueue.DeliveredIsPrefix | src/aurum/tcp_session.cpp:82-280 | end to end: of the frames a session's builders made, empty ones left out, the other end's reader delivers the first ones in order, whatever happens to the queue and wherever the bytes are cut |
| WriteQueue.DeliveredInFull | src/aurum/tcp_session.cpp:82-280 | and all of them once the queue has run empty |
| WriteQueue.Writer.Send | src/aurum/tcp_session.cpp:82-112 | refines the send step |
| WriteQueue.Writer.OnWrite | src/aurum/tcp_session.cpp:119-149 | refines the callback step, success and error |
| Discovery.ReadOne | include/aurum/handlers/discovery.hpp:73-101 | one turn of the reader; the cursor never passes the end of the payload |
| Discovery.ReadListBound | include/aurum/handlers/discovery.hpp:58-124 | at most min(count, (size - 4) / 4) peers whatever count is declared |
| Discovery.ReadListIff | include/aurum/handlers/discovery.hpp:73-101 | for every body: a list is what the reader finds iff the bytes spell it back to back, port, size and host, up to the count or the first peer that does not fit; peers before such a break count |
| Discovery.ListCount | src/aurum/protocol/frame_builder.cpp:488-555 | a listing begins with the number of peers |
| Discovery.ListPair | src/aurum/protocol/frame_builder.cpp:520-544 | then the port and the size of the host of each peer |
| Discovery.ListHost | src/aurum/protocol/frame_builder.cpp:520-544 | then the hosts, one after the other |
| Discovery.LocalhostText | src/aurum/state.cpp:197 | the announced host spells 127.0.0.1 |
| Dialling.DialsWanted | include/aurum/handlers/discovery.hpp:103-120 | of a list exactly the reachable peers are dialled, in order, to which no session registered at the start is bound by both host and port |
| Dialling.ListedAreDialled | include/aurum/handlers/discovery.hpp:58-124 | the same of what a discovery response makes a node dial |
| Dialling.DialsIntroduce | src/aurum/state.cpp:192-209 | every such dial sends one identify with the node's own id and port, asking for no further connections and no listing, or nothing |
| Discovery.InvertsIff | src/aurum/protocol/frame_builder.cpp:520-544 | the reader inverts the builder iff every host fits its size field and the grouped and interleaved layouts coincide |
| Discovery.EmptyButLastInverts | include/aurum/handlers/discovery.hpp:73-101 | it does for every list whose hosts are empty but for the last, whatever bytes that holds |
| Discovery.TextInvertsIff | include/aurum/handlers/discovery.hpp:73-101 | for printable hosts, it does exactly for those lists |
| Discovery.LocalhostPairMisread | src/aurum/protocol/frame_builder.cpp:520-544 | two peers on the host every node announces are never read back |
| NodeModel.ListingMembers | include/aurum/handlers/discovery.hpp:40-57 | a peer is listed exactly when a registered session of a third node is bound to it |
| NodeModel.HandleSound | include/aurum/handlers/identify.hpp:35-102 | no handler, whatever it is given, breaks uniqueness of ids or leaves a filing without its object |
| NodeModel.HandleKeepsObjects | include/aurum/handlers/leave.hpp:32-65 | session objects outlive their registration and never change id or kind |
| Registry.SessionContainer.Insert | include/aurum/session_container.hpp:41-69 | an id in use is refused; otherwise the element is filed in all four indices, which keep agreeing with a scan |
| Registry.SessionContainer.EraseId | src/aurum/state.cpp:129-149 | erasing by id takes the element out of every index and no other element out of any |
| Registry.SessionContainer.Range | include/aurum/session_container.hpp:41-69 | a bucket holds what a scan for its key finds, in order |
| Registry.SessionContainer.Count | include/aurum/handlers/join.hpp:53-59 | 1 if the id is registered, 0 otherwise |
| State.State.AddSession | src/aurum/state.cpp:115-122 | registers the session unless its id is taken, and says which |
| State.State.RemoveSession | src/aurum/state.cpp:129-149 | unregisters the session of the id if any, and hands it over to be disconnected |
| State.State.Connect | src/aurum/state.cpp:159-216 | a dial that succeeds registers a blank TCP session and sends identify, then discovery if asked; a failed dial or a taken id changes no registration |
| State.State.Identify | include/aurum/handlers/identify.hpp:35-102 | binds node id, port and host, replies, and posts one dial for every connection beyond the first |
| State.State.PostDials | include/aurum/handlers/identify.hpp:92-98 | the loop posts exactly n - 1 dials to the announced address |
| State.State.ListPeers | include/aurum/handlers/discovery.hpp:40-57 | the loop lists the sessions of third nodes in registry order |
| State.State.IsConnected | include/aurum/handlers/discovery.hpp:103-116 | true iff a registered session is bound to that host and port |
| State.State.Dial | include/aurum/handlers/discovery.hpp:103-120 | dials a peer, without discovery or fan-out, unless a session is bound to it |
| State.State.DialListed | include/aurum/handlers/discovery.hpp:58-124 | the loop dials every peer read that no session is bound to, later peers seeing earlier dials |
| State.State.Discover | include/aurum/handlers/discovery.hpp:40-124 | request: reply with the listing; response: dial; other types: nothing |
| State.State.Join | include/aurum/handlers/join.hpp:34-61 | a TCP request registers a stand-in and reports the count; anything else does nothing |
| State.State.EraseAll | include/aurum/handlers/leave.hpp:47-59 | the erase loop ends with the id gone and counts what it removed |
| State.State.Leave | include/aurum/handlers/leave.hpp:32-65 | a TCP request erases the id and reports the count; anything else does nothing |
| State.State.Dispatch | src/aurum/session_kernel.cpp:156-160 | the opcode selects the handler; state and reply builder change as that handler specifies |
| IndexAgreement.LookupIsFiledScan | include/aurum/session_container.hpp:41-69 | a lookup is the scan of current fields restricted to the sessions filed under the key |
| IndexAgreement.LookupCompleteIff | include/aurum/session_container.hpp:41-69 | it misses no session iff none with the key is filed elsewhere |
| IndexAgreement.IdLookupIsScan | include/aurum/session_container.hpp:41-69 | a lookup by id always equals the scan and finds at most one session |
| IndexAgreement.TypeLookupIsScan | include/aurum/session_container.hpp:41-69 | a lookup by type always equals the scan |
| IndexAgreement.UnmovedLookupIsScan | include/aurum/session_container.hpp:41-69 | while no session has moved, every lookup equals the scan |
| IndexAgreement.OthersKeepComplete | include/aurum/handlers/join.hpp:34-61 | per key: every handler but identify keeps lookups by the key complete, whatever became of other keys before |
| IndexAgreement.IdentifyCompleteIff | include/aurum/handlers/identify.hpp:52 | per key: after an identify of a TCP session lookups are complete iff no other session is missed and, if the bound id gives the session the key, it is the id the session was filed under |
| IndexAgreement.IdentifiedIsMissed | include/aurum/handlers/identify.hpp:52 | once a registered TCP session filed blank identifies as another node, a scan finds it by that node id and the index finds nothing |
| IndexAgreement.BlankTcpUnreachable | src/aurum/state.cpp:307-336 | sessions filed blank are in no bucket that sending to a node looks in |
| IndexAgreement.HandleKeepsBlank | include/aurum/handlers/identify.hpp:52 | whatever frames arrive, TCP sessions stay filed blank |
| IndexAgreement.JoinReportsOne | include/aurum/handlers/join.hpp:53-61 | the reply to a join has opcode 4, type response and the request's transaction id, and its eight bytes read as the count 1 |
| IndexAgreement.LeaveReportsRemoved | include/aurum/handlers/leave.hpp:41-65 | the reply to a leave has opcode 5 and reads as 1 if a session was registered under the id and 0 otherwise |
| IndexAgreement.LeaveRemovesAtMostOne | include/aurum/handlers/leave.hpp:47-59 | the erase loop removes one session if the id is registered and none otherwise |
| Routing.BroadcastTargets | src/aurum/state.cpp:271-300 | the targets are registered TCP sessions with pairwise distinct node ids that cover exactly the node ids TCP sessions hold |
| Routing.LookupRange | src/aurum/state.cpp:307-320 | the sessions a keyed lookup reaches |
| Routing.SendToNode | src/aurum/state.cpp:307-336 | the session at the counter's place in the node's range is chosen and the counter moves on; an empty range changes nothing |
| Routing.Balancer.Pick | src/aurum/state.cpp:318-331 | the place is the counter modulo the range, and the 64-bit counter goes up by one |
| Routing.LookupDistinct | src/aurum/state.cpp:307-320 | a lookup finds no session twice |
| Routing.SendMany | src/aurum/state.cpp:307-336 | m sends in a row to one node while the sessions stay as they are: each of the c sessions found gets floor(m/c) or ceil(m/c) of them and no other session any; none is sent if none is found |
| Routing.Fair | src/aurum/state.cpp:318-331 | the same of the places a counter runs through, for any range without repetitions |
| Routing.OncePerRound | src/aurum/state.cpp:318-331 | any c sends in a row go to each of the c sessions exactly once |
| Removal.StepKeeps | src/aurum/state.cpp:129-149 | a session is registered, or held by one removal, or disconnected once; every locked step keeps this |
| Removal.RunKeeps | src/aurum/state.cpp:129-149 | this holds at every state of every interleaving |
| Removal.DisconnectedAtMostOnce | src/aurum/state.cpp:129-149 | in every interleaving `disconnect()` is called at most once on a session and only after it left the registry |
| Removal.SnapshotGone | src/aurum/state.cpp:222-265 | when `disconnect` or `disconnect_all` returns, every session of its snapshot is gone |
| Removal.EraseTakesIff | src/aurum/state.cpp:222-265 | one turn of a removal call takes out the session registered under the id it has come to, whenever that arrived, and no other |
| Removal.RegisteredUntil | src/aurum/state.cpp:115-149 | a registered session leaves the registry exactly when a removal call comes to its id or a leave names it; a second session under the id is refused |
| Removal.TakenIsDisconnected | src/aurum/state.cpp:129-149 | a session that a removal call takes out has been disconnected, exactly once, by the time the call holds nothing |
| Removal.OthersUntouched | src/aurum/state.cpp:222-265 | sessions whose id is not among the ids of the snapshot are untouched by the call |
| Disconnects.RemoveEach | src/aurum/state.cpp:239-243 | the loop takes out exactly the sessions with the listed ids and disconnects each once |
| Disconnects.DisconnectNode | src/aurum/state.cpp:222-244 | exactly the sessions filed under the node id and still bound to it leave, and each is disconnected once |
| Disconnects.DisconnectAll | src/aurum/state.cpp:249-265 | the registry ends empty and every session was disconnected once |
| Bootstrap.EntryEffects | include/aurum/handlers/discovery.hpp:40-124 | only a discovery response dials, and what it dials greets without fan-out or discovery; only a fanning identify posts; what is replied to any other entry but a discovery is as plain |
| Bootstrap.FrameEffects | src/aurum/session_kernel.cpp:121-164 | a frame without discoveries and fan-out neither dials nor posts, and its replies are of the same kind |
| Bootstrap.ReplyLoad | src/aurum/session_kernel.cpp:121-173 | what is found in a reply weighs less than what was found in the frame, or both weigh nothing and the reply has no requests |
| Bootstrap.EveryStepDrops | include/aurum/handlers/identify.hpp:57-102 | every step lowers the lexicographic measure (weight of the frames in flight by what the kernel finds in them, posted dials, requests in calm frames, frames), whatever bytes are in flight and whichever dials succeed |
| Bootstrap.NextNothingDialled | src/aurum/state.cpp:159-216 | every step launches what it dialled |
| Bootstrap.NextAddressed | src/aurum/state.cpp:159-216 | frames always travel between nodes of the cluster |
| Bootstrap.RunsTerminate | src/aurum/state.cpp:197-209 | no run with finitely many events from outside (`connect`, WebSockets, any bytes sent, removals) goes on forever |
| Bootstrap.StuckIffQuiescent | include/aurum/handlers/discovery.hpp:58-124 | a cluster can take no step of its own iff nothing is in flight and nothing is posted |
| Bootstrap.EveryRunComesToRest | src/aurum/state.cpp:159-216 | every run in which the cluster takes a step whenever it has one reaches quiescence after the last event from outside |
| Carriage.NextCarries | src/aurum/state.cpp:197-209 | what nodes send of themselves fits one frame and its length fields, but for a listing at its end, and asks for a listing last |
| Carriage.RunsAreUnderstood | src/aurum/session_kernel.cpp:31-174 | in every run in which only such frames are sent from outside, the kernel finds in every frame what was meant, the last response perhaps cut |
| Connections.EntryPosts | include/aurum/handlers/identify.hpp:90-98 | handling an entry without discovery, join or leave posts exactly its fan-out and touches no registration |
| Connections.FramePosts | include/aurum/handlers/identify.hpp:90-98 | the same for all entries of a frame together |
| Connections.GreetingFans | src/aurum/state.cpp:197-209 | the greeting of a listening node that asks for n > 1 connections fans out to n - 1 dials back to it, any other to none |
| Connections.LinkTotals | src/aurum/state.cpp:185-209 | a call with n connections raises the total of each end by the links it brings about |
| Connections.StepConserves | include/aurum/handlers/identify.hpp:90-98 | deliveries and posted dials keep sessions + posted dials + unprocessed fan-out of every node constant |
| Connections.RunConserves | include/aurum/handlers/identify.hpp:90-98 | over every run the total of a node grows by exactly what its calls add |
| Connections.SessionsAtQuiescence | tests/connections_per_node_test.cc:61-93 | between quiescent states every node gains exactly the sessions its calls account for, in every interleaving |
| Connections.ConnectionsPerCall | tests/connections_per_node_test.cc:61-93 | after one call asking for n, each end has exactly max(1, n) more sessions and no other node any |
| Bounds.StepBound | src/aurum/state.cpp:159-216 | with dials that fail, ids that are taken, losses and removals: no step but a call raises a node's total, and a call by no more than its links |
| Bounds.SessionsAtMost | src/aurum/state.cpp:185-209 | at every moment of a run from a quiescent state a node has no more new sessions than its calls account for |
| Bounds.AtMostPerCall | tests/connections_per_node_test.cc:61-93 | whatever fails, one call asking for n never leaves more than max(1, n) new sessions at an end, nor any elsewhere |
| ClusterRegistry.FrameKeepsSound | src/aurum/session_kernel.cpp:121-164 | whatever a frame holds, handling it keeps the registry sound |
| ClusterRegistry.RunsStaySound | src/aurum/state.cpp:115-149 | at every moment of every run, with WebSockets admitted, sessions removed and any bytes sent from outside, every registry is sound and both sessions of every frame in flight are there |
| ClusterRegistry.RunsLookUpByScan | include/aurum/session_container.hpp:41-69 | at every moment of every run ids are unique and lookups by id and by type equal a scan |
| ClusterRegistry.NextComplete | include/aurum/session_container.hpp:41-69 | every step of a cluster, from outside or its own, keeps lookups by a key complete at a node that is not handed an identify |
| ClusterRegistry.LookupsEqualScans | include/aurum/session_container.hpp:41-69 | as long as no identify reaches a node, whatever was identified there before, lookups by a key that equalled the scan go on doing so |
| ClusterRegistry.RunsReachNoNode | src/aurum/state.cpp:307-336 | at every moment of every run that starts with TCP sessions filed blank, sending to a node by its id finds no session, whatever was identified since, as long as the container has not re-filed its entries |
| Uplink.SentOnce | src/aurum/state.cpp:271-300 | a broadcast goes out over the owner's only session with the peer exactly once |
| Uplink.HandleUndisturbed | include/aurum/handlers/identify.hpp:35-102 | whatever arrives at the owner, the link stays its only one with the peer and its own WebSockets stay registered |
| Uplink.RepliesNeutral | src/aurum/protocol/frame_builder.cpp:424-448 | what the owner replies names itself and announces no WebSocket |
| Mirror.HandledMirrors | include/aurum/handlers/join.hpp:43-61 | handling a join or leave does to the stand-ins exactly what it announces |
| Mirror.NeutralMirrors | include/aurum/handlers/leave.hpp:41-65 | anything else the owner sends over the link leaves the stand-ins alone |
| Mirror.UnrelatedMirrors | include/aurum/handlers/leave.hpp:41-65 | what other sessions of the peer send leaves the stand-ins alone |
| Replication.StepKeeps | src/aurum/websocket_session.cpp:150-162 | the owner's WebSockets coming and going, any traffic on the link both ways, and both nodes accepting, dialling, identifying, mirroring and dropping other sessions all keep mirror and owner in step |
| Replication.MirrorFollowsOwner | src/aurum/websocket_session.cpp:49-64 | in every run, the undelivered announcements applied in order to the peer's stand-ins give the WebSockets joined since the link came up and not yet left |
| Replication.MirrorCatchesUp | src/aurum/websocket_session.cpp:150-162 | once everything announced has arrived, the stand-ins are exactly the owner's registered WebSockets whose handshake ended |

## Left out

- Sockets, resolver, acceptors, strands, threads and the event loop: their effects are events of the step relations; each locked region is one step.
- Listeners, signal handling, the thread pool and the command line: plumbing.
- The WebSocket handshake and framing of RFC 6455: one WebSocket message is one frame body.
- Clients, benchmarks and profiling output: I/O drivers.
- Which dials succeed and which random ids are drawn: parameters (`NodeModel.Env`), fixed while one frame is handled. Where fresh ids are needed a lemma says so, for the ids of that step only.
- The order in which hashed containers iterate: the order of a sequence; the properties hold for every such sequence.
- Rehashing, bucket collisions and groups: a node-keyed index is a map from the key at insertion to entries. When the container really grows it files its entries again under their current keys, a changed entry can also be found if its old bucket is the new one, and a lookup inspects one element of a group of entries filed under equal keys, so that under the blank key a partly identified group is found whole or not at all. `IndexAgreement.Lookup` decides entry by entry, and `IndexAgreement.IdentifiedIsMissed`, `ClusterRegistry.RunsReachNoNode` and `Disconnects.DisconnectNode` speak of the time before the container grows.
- The CRC tables of Boost: the checksum is the bit-serial definition with polynomial 0x1021, initial value 0xFFFF, unreflected.
- Bootstrap.EveryRunComesToRest: accepting a connection is one step with dialling it. Removing a session is an event from outside, also where a failed read or write causes it. A reply beyond the guards of the builder is an overflow error and sends nothing; that the error leaves the event loop is not modelled.
- Carriage.RunsAreUnderstood: for frames from outside that fit and ask for a listing last. `Exchange.CrowdedExchange` shows an exchange where this fails; `Bootstrap.EveryRunComesToRest` covers it.
- Exchange.ExchangeEnds: the one-reply case is for listings that fit; for all others `Exchange.TurnsBounded` bounds the exchange. How many turns it really takes depends on the bytes of the listings.
- Dialling.DialsWanted: a listed address without host and port, as sessions that were never given one are listed, counts as unreachable.
- Handshake.BothEndsKnow: a call without discovery that reaches another node; each frame is delivered as the last in flight.
- Discovery.TextInvertsIff: speaks of hosts of printable characters shorter than 8192 bytes; `Discovery.InvertsIff` has the exact condition for all hosts.
- Connections.ConnectionsPerCall: calls without discovery, and listeners that are found at 127.0.0.1 and their port, the address `connect` announces.
- Routing.SendMany: before the 64-bit counter wraps.
- Replication.MirrorFollowsOwner: one link that stays up and stays the only one identified between the two nodes, no removal of stand-ins by hand, fresh ids; the code promises no order otherwise. What the peer sends the owner arrives in any order.
- The ping, whoami and non-implemented handlers: cases of `State.State.Dispatch` only.
- Memory ordering of atomics and the implementation of locks.
