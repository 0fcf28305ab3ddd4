# cerver, modelled in Dafny

cerver is a C library for servers and clients that talk in length-prefixed packets over TCP. This
project models the parts of it in which state, arithmetic and interleaving interact, and proves what
they promise.

**Packets on a byte stream.** A packet is a `PacketHeader` followed by `packet_size - sizeof
(PacketHeader)` bytes. `Framing.Parse` reads a whole stream at once and is the reference. The receive
machine (`Receive.ReceiveHandle`) gets the stream in arbitrary pieces and keeps a split header, a
complete header or a partly filled packet between calls; it has the loop, the pointers, the wrapping
`size_t` subtractions and the overshoot of `buffer_pos` of the code. Every call of it is proved equal
to `Chunks.Handle`, and `Chunks` compares runs of `Handle` with the one-shot parse. Packets are built
in `Packets`, sent in `Send` by loops over a `send` that may write any part or fail, and put together
with the receiver in `RoundTrip` and `Transmit`. `Blocking` is the client's other reader of the same
format.

**Who is connected.** `Registry` has the on hold, main and admin poll arrays, the map from descriptors
to clients, the clients and the admins with their connection lists, the on hold tree and map, and all
counters, with one step per event of the poll loops (handler type poll). `RegistryAgreement` and
`Lifecycle` prove that all these structures say the same in every reachable state, under a guard that
is proved exact; `Exceptions` has the inputs on which they do not. `Effects` says what each event does to
whom, on one map from descriptors to places that all the structures stand for. `PollTables.PollTable` and
`Cervers.Cerver` are the arrays and the cerver as objects; each method is proved equal to the step of the
registry.

**Smaller cores.** `Handlers`: the threads, job queues and binary semaphores of multiple app handlers
under every interleaving. `Route`: moving a packet between two connections through a pipe. `Files`: the
file name filters that work in place. `Backoff`: reconnecting with exponentially growing waits.

Sockets, `recv`, `send`, `splice`, `connect`, the authentication method, the session id generator, the
admin id that is made up and the verdict of the packet handler are nondeterministic or parameters.
Allocation succeeds for packets whose header tells their size. Each event of the registry, each push, and
each step of a handler thread is taken to be atomic. For a push and for a handler's steps a mutex makes it
so. For the registry it is an assumption: the main, the on hold and the admin poll loop are three threads,
registering a client takes several locks one after the other, and the on hold lock is commented out
(src/cerver/auth.c:1177, src/cerver/auth.c:1232).

## Where the code does not do what one would expect

- Completing a split header copies the missing bytes without comparing with how many were received
  (src/cerver/handler.c:1709-1751). A run that stays in step conserves bytes, and is in step with the
  one-shot parse, if and only if they were all there whenever a header was completed
  (`Chunks.RunConservesIff`, `Chunks.ChunkingIndependenceIff`); `Chunks.UnpromptRunsDisagree` has two runs
  that receive the same bytes and dispatch different packets.
- A header-only packet whose header is completed by the last bytes of a receive is dispatched by the
  next receive (`RoundTrip.FramesRoundTrip` says exactly when).
- `packet_send_split_tcp` and `packet_send_pieces` return 0 when the data could not be sent; `actual_sent`
  tells. `Send.SendSplit` says for which results of the calls of `send` that is so, and
  `Send.SplitHidesAFailure` and `Send.PiecesHideAFailure` are two of them.
- `packet_route_between_connections` takes one `send` of the header, however short, for the whole, and
  does not wait for the pipe to be empty. `Route.Relay.RoutePacket` says for which results of the calls it
  succeeds and for which the packet arrives intact; `Route.LosesAByte` and `Route.CutsTheHeader` succeed
  and lose a byte.
- After a successful authentication the rest of the same receive is still handled as on hold packets.
  If one of them authenticates again or drops the connection, the structures stop to agree
  (`Lifecycle.AgreementKeptIff`, `Exceptions.AuthenticatingTwiceBreaks`). A second new client for a
  connection that is in the map takes its entries out of map and array, as `htab_insert` refuses the key.
- When sessions are used the client tree is ordered by session id (src/cerver/cerver.c:1493-1496). A client
  that was accepted without authentication has none, and all of these compare equal, so that the tree may
  remove one client instead of another (src/cerver/collections/avl.c:566-615). Every run keeps the
  registry in agreement if and only if sessions are not used without authentication
  (`Exceptions.EveryRunAgreesIff`); accepting two connections and disconnecting one of them is enough to
  break it (`Exceptions.SessionsNeedAuthentication`).
- A header whose size is from 1 to 31 makes the receiver ask for almost 2^64 bytes.
  `packet_create_with_data` gives up and returns NULL, and the code copies the header through that pointer
  (src/cerver/handler.c:1553). Were the memory there, no such packet would ever complete
  (`Receive.UndersizedNeverCompletes`), and the wrapped jump of `buffer_pos` would keep the loop from ending
  unless the header had been completed from a split and the position is smaller than what the size lacks
  (`Receive.JumpLeavesLoopIff`).
- Admins are told apart by an id made of the time and a random number from 0 to 100
  (src/cerver/admin.c:207). Two that get the same id break the registry when the later one ends
  (`Exceptions.AdminIdsMustDiffer`); the guard of `Lifecycle.AgreementKeptIff` is exact.
- A connection that joins an admin by token is not watched by anybody when the admin array is full
  (`Lifecycle.JoinNeedsRoom`; `Exceptions.JoinWithoutRoom` is a run).
- `max_auth_tries`, documented as the number of failed auths allowed for each connection
  (include/cerver/cerver.h:441), is never given to a connection: each gets
  `CONNECTION_DEFAULT_MAX_AUTH_TRIES`, and its second failure drops it. What is documented holds if and only
  if the setting is 2 or nobody can authenticate (`Exceptions.TriesAreHonouredIff`).
- With a handler that has `direct_handle`, or an empty entry, the start of multiple app handlers waits
  for ever (`Handlers.StartupEndsIff`).
- With a `max_sleep` of 2^31 or more, `numsec` wraps to 0 and the reconnect loop never ends
  (`Backoff.LoopEndsIff`).

## Model

| member | source | states |
|---|---|---|
| Transmit.EndToEnd | src/cerver/handler.c:1418-1843 | Messages built, generated and sent, received under any prompt chunking, are dispatched field by field, byte by byte and in order, if and only if the last one is not a header-only packet whose last receive was shorter than a header; then all but that one are |
| Transmit.Transfer | src/cerver/handler.c:1891-1920 | Sender, any network that cuts the stream promptly and receiver as one method: when no call of `send` fails, the receiver's handler has been given exactly the messages, under the same condition |
| RoundTrip.FramesRoundTrip | src/cerver/handler.c:1418-1843 | The same for well-formed frames, with the machine never out of step and the late header held in full |
| Chunks.ChunkingIndependenceIff | src/cerver/handler.c:1418-1843 | A run that stays in step is in step with the one-shot parse of its stream if and only if every split header found all its missing bytes in the receive that completed it |
| Chunks.ChunkingIndependence | src/cerver/handler.c:1418-1843 | From any state in step, whatever the prompt chunks, finishing the parse of what is held gives the one-shot parse of the stream; a lost, stuck or stopped machine has dispatched exactly the packets before the bad header or up to the stop |
| Chunks.StreamDispatched | src/cerver/handler.c:1418-1843 | From the start of a connection the packets dispatched are those of the one-shot parse, but for at most one header-only packet that is still held |
| Chunks.ConservesIffPrompt | src/cerver/handler.c:1706-1751 | A call that stays in step accounts for exactly the bytes it was given if and only if a split header found all its missing bytes among them |
| Chunks.RunConservesIff | src/cerver/handler.c:1473-1816 | Over a run in step, the encodings of the packets dispatched and the bytes held are the bytes received if and only if every call was prompt |
| Chunks.UnpromptRun | src/cerver/handler.c:1709-1751 | What is dispatched for a header that arrives as 24 bytes, 1 byte and 1 byte: it contains old buffer contents |
| Chunks.UnpromptRunsDisagree | src/cerver/handler.c:1709-1751 | Without promptness the packets are not a function of the stream |
| Chunks.LostIsAbsorbing | src/cerver/handler.c:1828-1841 | A lost machine never changes again; a stopped one does not either, as the receive loop of `Transmit.Deliver` does not call it any more |
| Chunks.LostIsPrefixSafe | src/cerver/handler.c:1650-1669 | Well-formed packets followed by a header of size 0 or above the limit: exactly those packets are dispatched, whatever follows and however it is chunked |
| Chunks.RunSettles | src/cerver/handler.c:1683-1843 | Between calls the machine holds nothing a parser could go on with, or a complete header |
| Chunks.RunAppend | src/cerver/handler.c:1683-1843 | A run and its stream can be cut anywhere |
| Framing.ParseAppend | src/cerver/handler.c:1418-1681 | Parsing can be suspended after any prefix: a waiting parse goes on from what it holds, any other is not changed by what follows |
| Framing.ParseConserves | src/cerver/handler.c:1418-1681 | The packets found and the bytes left are the bytes given |
| Framing.ParseExtends | src/cerver/handler.c:1530-1560 | Every packet found is well formed, and the earlier ones stay in front |
| Framing.ParseEncoded | src/cerver/packets.c:699-733 | The parser inverts the encoder, whatever follows |
| Receive.ReceiveHandle.ReceiveSuccess | src/cerver/handler.c:1891-1920 | One receive of a connection does what `Chunks.Handle` says, from NONE too |
| Receive.ReceiveHandle.HandleBuffer | src/cerver/handler.c:1683-1843 | One call of the machine: packets dispatched, bytes held, mode and stop flag are those of `Chunks.Handle`, and what holds between calls still holds |
| Receive.ReceiveHandle.SpareParts | src/cerver/handler.c:1706-1826 | After the spare parts, either the loop has exactly the rest of the parse left to do or the call is over with the right state |
| Receive.ReceiveHandle.TakeSpare | src/cerver/handler.c:1753-1816 | The held packet takes what it misses and is dispatched, or takes everything |
| Receive.ReceiveHandle.CompleteHeader | src/cerver/handler.c:1709-1751 | The held header gets its missing bytes from the front of the buffer |
| Receive.ReceiveHandle.TakeHeader | src/cerver/handler.c:1441-1521 | The next header, and where its data starts; or the split header, with the whole buffer used up |
| Receive.ReceiveHandle.TakePacket | src/cerver/handler.c:1542-1648 | Either the loop goes on at the byte after the packet, or the call is over; the overshooting position always ends it |
| Receive.ReceiveHandle.Round | src/cerver/handler.c:1435-1675 | One round of the loop: either it goes on in step, further in the buffer or with the held header used up, or the call is over in the right state |
| Receive.UndersizedNeverCompletes | src/cerver/handler.c:1548-1552 | For a size from 1 to 31 the data size asked for is 2^64 - 32 + size, more than any receive brings |
| Receive.JumpLeavesLoopIff | src/cerver/handler.c:1626-1675 | For every header size, position and limit: the jump of the position for an incomplete packet ends the loop if and only if it does not wrap, which for a size from 1 to 31 is at positions below what the size lacks |
| Receive.ReceiveHandle.HandleBufferActual | src/cerver/handler.c:1418-1681 | The loop ends, keeps position plus remaining equal to received at its head, and leaves the state that the parse of the held bytes and the buffer leaves |
| Header.DecodeEncode | include/cerver/packets.h:147-158 | A header copied into a buffer and back is the same, and its size is the field the receiver reads |
| Header.EncodeDecode | include/cerver/packets.h:147-158 | Any 32 bytes are the image of exactly one header, padding included |
| Header.FieldPositions | include/cerver/packets.h:147-158 | Where each field and the padding are in the image |
| Header.FieldBytes | include/cerver/packets.h:147-158 | Every byte of every field is a digit of its value, least significant first |
| Header.SizeSub | src/cerver/handler.c:1626-1628 | Subtraction on size_t, which wraps |
| Packets.Packet.WithData | src/cerver/packets.c:383-403 | An empty packet with room for all its data |
| Packets.Packet.AddData | src/cerver/packets.c:518-543 | Data that fits is appended to what has been filled and nothing else changes; data that does not fit is refused |
| Packets.Packet.AppendData | src/cerver/packets.c:545-617 | The data becomes the old data followed by the new |
| Packets.Packet.SetData | src/cerver/packets.c:484-516 | The data is replaced |
| Packets.Packet.SetHeaderValues | src/cerver/packets.c:440-456 | The header gets the fields given |
| Packets.Packet.Generate | src/cerver/packets.c:699-733 | The header gets type, request type and total size and keeps its other fields; the contiguous bytes are the packet's encoding, which is well formed for every limit it fits |
| Send.SendLoop | src/cerver/packets.c:842-866 | What is on the wire is what the calls of `send` let through, the whole if and only if the loop succeeds, which is when none of its calls fails; the count is the bytes written, also after a failure |
| Send.SendContiguous | src/cerver/packets.c:842-888 | Contiguous sending puts the packet's bytes on the wire, or with `raw` its data, or a prefix; the whole if and only if it succeeds, which is when none of its calls fails |
| Send.SendSplit | src/cerver/packets.c:892-948 | Split sending puts the whole on the wire if and only if none of its calls fails; `actual_sent` is the bytes written and tells whether all were; for all results of the calls, 0 is returned if and only if the header got through, and what of the data did |
| Send.SendPieces | src/cerver/packets.c:1295-1372 | The header, then of each piece what the calls of `send` let through, the later pieces also after one that failed; complete if and only if no call fails; `actual_sent` is the bytes written and tells whether the packet is complete |
| Send.WrittenIff | src/cerver/packets.c:842-866 | Everything gets through if and only if none of the calls it takes fails |
| Send.SplitHidesAFailure | src/cerver/packets.c:892-948 | The header goes out, the call for the data fails, and 0 is returned |
| Send.PiecesHideAFailure | src/cerver/packets.c:1349-1360 | The call for the first of two pieces fails, the second goes out, and 0 is returned |
| Send.CutShortLength | src/cerver/packets.c:1349-1360 | Pieces of which some were cut have a smaller total |
| Send.ThreeModesAgree | src/cerver/packets.c:842-1372 | After generating, each mode puts the packet on the wire if and only if none of its calls fails, and when none fails the three put the same bytes there, however short the writes |
| Transmit.SendMessage | src/cerver/packets.c:545-866 | A message, its data appended in any number of steps, is on the wire as a frame that carries exactly it if and only if no call of `send` fails |
| Transmit.SendMessages | src/cerver/packets.c:1145-1222 | Several messages, in order, unless a call of `send` fails |
| Transmit.Deliver | src/cerver/handler.c:1891-1920 | The machine called for each receive, until its handler stops, is the run of `Chunks.Handle` |
| Transmit.StreamSized | src/cerver/handler.c:1530-1560 | A stream whose parse meets no undersized header never gives the machine one |
| RoundTrip.StaysOpen | src/cerver/handler.c:1650-1669 | Well-formed packets never lead out of step |
| RoundTrip.LagOnlyAfterPartOfHeader | src/cerver/handler.c:1733-1751 | A machine that holds a complete header-only header got less than a header last |
| RoundTrip.HoldsPartOfHeader | src/cerver/handler.c:1464-1508 | A stream cut inside a header: all packets before are dispatched and that part is held |
| Blocking.Source.ReceiveData | src/cerver/client.c:3885-3926 | Under any short reads, exactly the bytes asked for |
| Blocking.GetNextPacket | src/cerver/client.c:1986-2062 | The packet at the front of the stream, and the stream after exactly its bytes; an oversized header is read for nothing |
| Blocking.ReadersAgreeIff | src/cerver/client.c:1986-2062 | The blocking reader and the chunk machine agree on the first packet exactly when its size is in range for both or too large for both |
| Blocking.StreamingAndBlockingAgree | src/cerver/client.c:3359-3778 | On a stream that starts with a well-formed packet within both limits, under any prompt chunking, the first packet is the same and the blocking reader reads exactly its encoding |
| Effects.EveryStepMoves | src/cerver/handler.c:2480-2880 | Over every run of guarded events, every step does to arrays, maps, lists and trees together what it does to one map from descriptors to places, event by event as in the next rows |
| Effects.PacketPlaces | src/cerver/auth.c:499-942 | A packet of a connection on hold takes it where the packet leads, and nobody else anywhere: a test packet nowhere, a bad one to one more bad packet or out, a token to whoever has the session it spells and to one try less when nobody has, bad credentials to one try less or out, good ones to a new client or admin, and a request that nothing can authenticate out at once |
| Effects.TokenJoins | src/cerver/auth.c:342-364 | Whoever sends the session id of a registered client as its token while on hold has joined that client |
| Effects.TokenIsString | src/cerver/auth.c:80-103 | A token spells the bytes before the first zero |
| Effects.AcceptPlaces | src/cerver/handler.c:2227-2531 | A new connection is on hold with two tries and no bad packet, refused when there is no room, or with a new client when no authentication is required; nobody else moves |
| Effects.HoldFailedCloses | src/cerver/handler.c:1872-1874 | A failed receive of a connection on hold closes it and takes it off hold, and nothing else |
| Effects.CloseConnectionCloses | src/cerver/client.c:637-754 | Closing a connection of a client, or a failed receive, closes exactly that connection |
| Effects.DisconnectCloses | src/cerver/client.c:573-580 | A disconnect closes all connections of the client and no other |
| Effects.AdminCloseCloses | src/cerver/admin.c:328-424 | Closing a connection of an admin closes exactly that connection |
| Effects.AdminDisconnectCloses | src/cerver/admin.c:1001-1055 | A disconnect closes all connections of the admin and no other |
| Effects.NewcomerIsRegistered | src/cerver/auth.c:199-252 | A new client or admin has the generated session, if sessions are used, and its connection; all others are as they were |
| Effects.BadPacketsAreReset | src/cerver/auth.c:587 | A connection that is let in has its bad packets forgiven |
| Effects.StepKeepsNames | src/cerver/auth.c:199-252 | No event changes the session of a client or an admin, nor the id of an admin |
| Lifecycle.AgreementKeptIff | src/cerver/auth.c:572-834 | In every configuration and for every possible event, the step keeps the whole registry in agreement if and only if the guard holds: no on hold packet has an effect on a connection that has left the on hold table, a connection that joins an admin finds room, and the tree or the list removes the client or admin that ends |
| Lifecycle.RunAgreesIff | src/cerver/handler.c:2827-2880 | A run of whatever can happen, from a state in agreement, is in agreement at every point if and only if each of its events passes that guard |
| Exceptions.EveryRunAgreesIff | src/cerver/cerver.c:1493-1496 | Every run of events that pass the first two guards ends in agreement if and only if sessions are not used without authentication |
| Exceptions.SessionsNeedAuthentication | src/cerver/client.c:911-950 | With sessions and without authentication, a run of two accepts and a disconnect, whichever client the tree comes upon, that breaks the agreement |
| RegistryAgreement.KeysTellApart | src/cerver/client.c:500-531 | Otherwise the comparator of the tree finds exactly the client that is to be removed |
| RegistryAgreement.WrongClientBreaks | src/cerver/client.c:911-950 | Removing another client always breaks the agreement |
| RegistryAgreement.WrongAdminBreaks | src/cerver/admin.c:1001-1036 | Removing another admin always breaks it, too |
| Lifecycle.RunKeeps | src/cerver/handler.c:2480-2880 | Over every run of guarded events the registry is in agreement, when sessions are not used without authentication and admin ids are unique |
| Lifecycle.ClientRegistryAgrees | src/cerver/client.c:637-1046 | Then in every reachable state the watched main entries, the keys of client_sock_fd_map and the clients' connections are the same set, the map's values are the owners, nothing is listed twice, entry 0 is the listening socket, and the three counters are the true counts |
| Lifecycle.AdminRegistryAgrees | src/cerver/admin.c:962-2121 | In every state reachable with unique admin ids the watched admin entries are the admins' connections, each once, and the three counters are the true counts |
| Lifecycle.InOnePlace | src/cerver/auth.c:1013-1289 | In every reachable state an open descriptor is watched by exactly one of the three arrays and a closed one by none; on hold array, tree, map and counters agree |
| Lifecycle.ServedWasGranted | src/cerver/auth.c:293-834 | With authentication required, whoever is in the main or admin table was granted it at some step while on hold, by accepted credentials or a registered session's token, and has been served ever since |
| Lifecycle.ServedIffGranted | src/cerver/auth.c:411-834 | A packet moves its connection from the hold to a table exactly when it grants it and, for an admin, there is room |
| Lifecycle.StepServes | src/cerver/handler.c:2227-2531 | No other event makes a descriptor served |
| Lifecycle.OthersStay | src/cerver/auth.c:910-942 | A packet changes the state of no other connection |
| Lifecycle.StepCosts | src/cerver/auth.c:258-291 | A packet that leaves its connection on hold costs it one of `auth_tries + (max - bad_packets)`, unless it is a test packet; no other event does |
| Lifecycle.StrikesAreBounded | src/cerver/auth.c:840-942 | Over any stretch on hold, packets that are not test packets and the budget left add up to the budget at its start |
| Lifecycle.OnHoldMisbehaviourIsBounded | src/cerver/auth.c:258-942 | A connection stays on hold for at most `on_hold_max_bad_packets` packets that are not test packets |
| Lifecycle.LatePacketBreaks | src/cerver/auth.c:983-1005 | An on hold packet that authenticates or drops a connection already served always breaks the agreement |
| Lifecycle.JoinNeedsRoom | src/cerver/auth.c:776-797 | Joining an admin with a full array always breaks it |
| Exceptions.JoinWithoutRoom | src/cerver/auth.c:776-797 | A run in which a second connection joins the only admin there is room for: in agreement before and not after |
| Exceptions.AuthenticatingTwiceBreaks | src/cerver/auth.c:983-1005 | The credentials sent twice in one write: the registry agrees after the first and not after the second |
| Exceptions.TriesAreHonouredIff | include/cerver/cerver.h:441 | The documented meaning of `max_auth_tries`, over all runs, holds if and only if it is 2 or nobody can authenticate |
| Exceptions.SecondFailureDrops | src/cerver/auth.c:258-291 | A failed authentication of a connection on hold closes it if and only if it is its second one |
| Exceptions.TriesCountFailures | src/cerver/connection.c:163 | While a connection is on hold its failures and the tries it has left add up to two, whatever `max_auth_tries` is |
| Exceptions.AdminIdsMustDiffer | src/cerver/admin.c:201-213 | A run in which two admins get one id and the later one disconnects: in agreement before and not after |
| Lifecycle.HeldPacketKeeps | src/cerver/auth.c:910-942 | Every packet of a connection on hold keeps the agreement, whatever the verdict |
| Lifecycle.AcceptKeeps | src/cerver/handler.c:2480-2531 | A new connection does, on hold, served or refused |
| RegistryAgreement.RegisterClientKeeps | src/cerver/client.c:985-1014 | Registering a new client puts an unlisted connection into every structure |
| RegistryAgreement.JoinClientKeeps | src/cerver/auth.c:342-392 | So does joining a client |
| RegistryAgreement.RegisterAdminKeeps | src/cerver/admin.c:962-997 | Registering an admin does, or closes the connection when the array is full |
| RegistryAgreement.JoinAdminKeeps | src/cerver/auth.c:293-340 | Joining an admin does when there is room |
| RegistryAgreement.HoldDropKeeps | src/cerver/auth.c:1114-1138 | Dropping from the hold removes the connection everywhere |
| RegistryAgreement.AuthenticatedIsLoose | src/cerver/auth.c:1054-1110 | Leaving the hold makes the connection unlisted everywhere, with everything else in agreement |
| RegistryAgreement.RemoveConnectionKeeps | src/cerver/client.c:637-754 | Closing one connection keeps the agreement, for the last one of a client and for one of several |
| RegistryAgreement.ClientDropKeeps | src/cerver/client.c:573-580 | Dropping a client takes all its connections out of every structure |
| RegistryAgreement.RemoveAdminConnectionKeeps | src/cerver/admin.c:328-424 | Closing one connection of an admin keeps the agreement |
| RegistryAgreement.AdminDropKeeps | src/cerver/admin.c:1001-1055 | Dropping an admin does |
| PollTables.AddLists | src/cerver/handler.c:2658-2693 | Registering in an array with a free entry adds the descriptor to the set it lists, once, with both counters right; a full one is unchanged |
| PollTables.RemoveLists | src/cerver/handler.c:2748-2800 | Unregistering takes it out, and an unknown one changes nothing |
| PollTables.RemoveAllLists | src/cerver/client.c:873-908 | Unregistering a list takes out exactly its members |
| PollTables.First | src/cerver/handler.c:2635-2656 | The first entry that holds a value |
| PollTables.PollTable.Find | src/cerver/handler.c:2635-2656 | The index searches give the first match, -1 if and only if there is none |
| PollTables.PollTable.Register | src/cerver/auth.c:1170-1220 | The array and both counters after a register, and when it fails |
| PollTables.PollTable.Unregister | src/cerver/admin.c:2056-2108 | The array and both counters after an unregister, and when it fails |
| PollTables.PollTable.UnregisterAll | src/cerver/client.c:1030-1036 | The loop over the connections of a client or an admin |
| Registry.Owner | src/cerver/admin.c:299-322 | A registered client or admin with the session id, or the certainty that there is none |
| Registry.AdminOf | src/cerver/admin.c:274-296 | The admin with a connection, or the certainty that there is none |
| Cervers.Cerver.constructor | src/cerver/cerver.c:2156-2165 | A started cerver watches only its listening socket |
| Cervers.Cerver.Serve | src/cerver/handler.c:2827-2880 | The object handles every possible guarded event as the registry's step says and is in agreement afterwards |
| Cervers.Cerver.RegisterNewConnection | src/cerver/handler.c:2480-2531 | A new connection is put on hold, served as a new client, or closed |
| Cervers.Cerver.OnHoldPacketHandler | src/cerver/auth.c:867-942 | The whole state after an on hold packet, for every kind of packet and verdict |
| Cervers.Cerver.AuthTry | src/cerver/auth.c:499-834 | The same for an auth packet with data |
| Cervers.Cerver.ClientRegister | src/cerver/client.c:985-1014 | The whole state after a new client is registered, and when the map has its connection already |
| Cervers.Cerver.ClientRemove | src/cerver/client.c:911-950 | The tree loses a client that compares equal, with the counter, or nothing |
| Cervers.Cerver.RemoveConnectionBySockFd | src/cerver/client.c:637-754 | The whole state after a connection of a client is closed, for no, one and several connections |
| Cervers.Cerver.DropClient | src/cerver/client.c:573-580 | The loops over the connections of a client take all of them out of map and array |
| Cervers.Cerver.AdminRemoveConnectionBySockFd | src/cerver/admin.c:328-424 | The whole state after a connection of an admin is closed |
| Cervers.Cerver.UnregisterAdmin | src/cerver/admin.c:1001-1055 | The loop takes all connections of an admin out of the array |
| Cervers.ListRemove | src/cerver/client.c:602-611 | The list without the first match |
| Cervers.ListHas | src/cerver/connection.c:1018-1036 | The search finds a connection if and only if it is listed |
| RegistryAgreement.RemoveFirstIs | src/cerver/client.c:602-611 | Taking a connection off a list without duplicates leaves all the others |
| Registry.FirstAdmin | src/cerver/collections/dlist.c:773-815 | The first admin of the list that compares equal |
| Cervers.FindEqual | src/cerver/collections/dlist.c:773-815 | The search of the list finds it |
| Cervers.FindBySession | src/cerver/client.c:1069-1090 | The search finds the owner of a session id if there is one |
| Cervers.FindBySockFd | src/cerver/admin.c:274-296 | The search finds the admin with a connection |
| Handlers.HandledInOrder | src/cerver/handler.c:840-859 | At every point of every interleaving, packets handled, in hand and queued of handler i are the packets received for it, in order |
| Handlers.CountersExact | src/cerver/handler.c:185-229 | At every point `num_handlers_working` and `num_handlers_alive` are the threads between their two updates, working is at most alive, and both are 0 when no thread is left |
| Handlers.StuckMeansDelivered | src/cerver/threads/jobs.c:342-362 | No wake-up is lost: a handler thread that cannot go on, with no push under way, has handled everything received for it |
| Handlers.EverythingIsDelivered | src/cerver/threads/jobs.c:484-510 | From every point of every interleaving a handler gets there by a bounded number of its own steps |
| Handlers.PushedIsHandled | src/cerver/threads/jobs.c:342-362 | From every point of every interleaving of a running cerver a push is taken, and its packet handled after all those before it, by the end of the push and a number of steps of the handler |
| Handlers.NoIdlePull | src/cerver/threads/jobs.c:484-510 | A handler that is woken finds a job, as long as nobody waits for the handlers to end |
| Handlers.StoppedStartsNoJob | src/cerver/handler.c:185-190 | After the cerver has been stopped a handler completes at most one job, whatever happens |
| Handlers.ThreadEnds | src/cerver/handler.c:185-229 | A handler that is woken after the cerver has been stopped ends in a bounded number of its own steps |
| Handlers.EverybodyEnds | src/cerver/cerver.c:1084-1124 | From every point of every interleaving, stopping the cerver and waking the handlers can make all threads end, with both counters at zero |
| Handlers.RunsUntilStopped | src/cerver/handler.c:185 | A cerver runs if and only if it has not been stopped |
| Handlers.MovesAreBounded | src/cerver/handler.c:179-233 | In every interleaving the steps of a thread are bounded by what it was given to do: it never spins |
| Handlers.StartupEndsIff | src/cerver/cerver.c:1766-1789 | The wait for the handlers to be ready can end if and only if every entry has a thread |
| Handlers.StepKeeps | src/cerver/handler.c:179-413 | Every step of every thread keeps order, accounting and wake-ups |
| Route.Relay.RoutePacket | src/cerver/packets.c:1594-1660 | For all results of the calls: it succeeds if and only if some of the header is sent and the splices complete the body, and the packet arrives intact if and only if all of the header is sent and the last splice of the body drains the pipe |
| Route.Relay.RouteBody | src/cerver/packets.c:1610-1633 | What was taken from the source is what was delivered followed by what is in the pipe, in order; `left` never underflows, the loop ends, and it takes the whole body exactly when the splices complete it |
| Route.Relay.SpliceRound | src/cerver/packets.c:1617-1626 | One round moves bytes into the pipe and out of it, first in first out |
| Route.CompletesAt | src/cerver/packets.c:1610-1633 | A schedule completes the body after one number of rounds at most |
| Route.DrainingDelivers | src/cerver/packets.c:1610-1633 | If every move drains the pipe, what was taken has been delivered |
| Route.LosesAByte | src/cerver/packets.c:1610-1638 | A body of two bytes of which one is delivered, with success |
| Route.CutsTheHeader | src/cerver/packets.c:1602-1604 | A header of which 31 bytes are sent, with success |
| Backoff.ConnectionTry | src/cerver/connection.c:674-696 | Whenever the loop ends: success is that of the last attempt and all before failed. Below 2^31 there are exactly floor(log2) attempts if none succeeds, with the waits 2, 4, 8, ... only between them, and their sum is below the limit; from 2^31 on only a success ends it |
| Backoff.NumsecValues | src/cerver/connection.c:680-694 | The values of `numsec`: powers of two, then 0 for ever |
| Backoff.LoopEndsIff | src/cerver/connection.c:680-694 | The loop condition can fail if and only if the limit is below 2^31 |
| Backoff.Log2Unique | src/cerver/connection.c:680-694 | What floor(log2) means |
| Files.RemoveOthers | src/cerver/files.c:331-378 | The nested loops leave the allowed characters of the string, in order, end, and change nothing after its terminator |
| Files.CleanAt | src/cerver/files.c:337-349 | The middle loop drops characters until an allowed one or the terminator is at its place |
| Files.DropAt | src/cerver/files.c:340-346 | The inner loop shifts the rest of the string by one |
| Files.RemoveSpaces | src/cerver/utils/utils.c:250-259 | The string without its spaces, and no change at all when there are none |
| Files.SanitizeFilename | src/cerver/files.c:331-354 | The result is the string filtered by the allowed characters: it has only letters, digits, '-', '_' and '.', and a string is left as it is exactly when it has no others |
| Files.SanitizeCompleteFilename | src/cerver/files.c:356-378 | The same with slashes allowed |
| Files.SanitizingComposes | src/cerver/files.c:331-378 | Both are idempotent, and the strict one after the loose one is the strict one |
| Files.LetThrough | src/cerver/files.c:331-378 | The characters that pass are these letters, digits and marks, one by one |
| Files.StrictlyFiltered | src/cerver/files.c:331-354 | No separator, space or backslash is left, and a string of allowed characters stays as it is |
| Files.NamesSurvive | src/cerver/files.c:331-378 | A name with an extension stays as it is, and behind a path under the filter that keeps slashes |
| Files.FilterKeeps | src/cerver/files.c:331-378 | Filtering leaves allowed characters only and changes a string exactly when it has others |
| Files.FilterFilter | src/cerver/files.c:331-378 | Filtering twice is filtering by the stricter of the two |

## Left out

- Receive.ReceiveHandle.HandleBuffer: excludes, by `Sized`, calls that meet a header with a size between 1 and 31, in which the code writes through a NULL pointer; and limits that do not fit into size_t together with a buffer, for which `Receive.JumpLeavesLoopIff` says when the loop ends. In `Chunks` a header with such a size makes a run `Stuck`: nothing is dispatched any more.
- Receive.UndersizedNeverCompletes: is about the sizes alone; what writing through the NULL pointer does is left out.
- Receive.ReceiveHandle.Round: excludes the same calls.
- Receive.ReceiveHandle.ReceiveSuccess: excludes the same calls.
- Receive.ReceiveHandle.HandleBufferActual: excludes the same calls.
- Transmit.Deliver: excludes the same calls.
- Chunks.ChunkingIndependence: asks for prompt runs; for runs that stay in step `Chunks.ChunkingIndependenceIff` is exact, and for runs that end lost, stopped or stuck only this direction is stated.
- Receive.ReceiveHandle.TakePacket: is for sizes from that of a header on; the branch for a packet without data and the one for a packet that is all in the buffer are one, as they dispatch the same packet.
- The client's copy of the receive machine (src/cerver/client.c:3359-3778) shares the class; its limit and handler are parameters.
- Receive.ReceiveHandle.Dispatch: the packet handlers themselves are only their verdict, a function of the packets handled so far; what a handler does to the connection while a buffer is being handled is in the registry, not in the machine.
- Send.SendContiguous: nothing is said about `total_sent`, which is the count of the last write.
- Transmit.EndToEnd: sender and receiver meet in a stream; loss and reordering below TCP are not modelled.
- Blocking.Source.ReceiveData: reads without errors; the error exits and the timeout are left out.
- Blocking.GetNextPacket: reads without errors from a stream that has the whole packet; failed reads and an early end are left out.
- Backoff.ConnectionTry: asks for a loop that ends; `Backoff.LoopEndsIff` says when it cannot.
- Registry.RemoveClient: which of several clients that compare equal the tree removes is a parameter, `pick`; the shape of the tree is left out.
- Lifecycle.LatePacketBreaks: after the failed registration the code goes on with a client that it has deleted (src/cerver/auth.c:641-662); what that does is left out.
- Lifecycle.AgreementKeptIff: takes events one at a time; interleavings inside an event of the three poll threads are left out.
- Lifecycle.AdminRegistryAgrees: takes admin ids to be unique; `Lifecycle.AgreementKeptIff` and `Lifecycle.RunAgreesIff` do not.
- Lifecycle.RunKeeps: the main table always has a free entry; its growth (src/cerver/handler.c:2608-2631) is left out.
- Cervers.Cerver.Serve: maps, trees and lists are values with the documented behaviour of the collections; the collections themselves are left out.
- Cervers.Cerver.DropClient: the connections of a client are descriptors; freeing memory, and packets handled after a disconnect in the same buffer, are left out.
- Lifecycle.ServedWasGranted: handling connections in dedicated threads, the result flag of `on_hold_packet_handler`, and failures of allocation or of the collections are left out.
- Handlers.HandledInOrder: one receiving thread pushes at a time, as the poll loop does; the client and admin variants of the handler thread differ only in the counters they use.
- Handlers.EverythingIsDelivered: handler functions return.
- Packet versions, lobbies and games, events and errors, statistics, logging, HTTP, file transfer, UDP, configuration and the thread pool are left out.
