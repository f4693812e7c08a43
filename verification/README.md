# carrier-pigeon in Dafny

A model of the networking library carrier-pigeon (TCP and UDP message passing between one server and many clients) and proofs about it. `dafny verify dfyconfig.toml` checks everything.

## What is modelled

* **Wire formats** (`Header`, `Time`, `Tcp`, `Framing`, `Udp`). A stream is the bytes the peer writes, a read position, and an environment that decides how many bytes have arrived at each coming system call, whether a blocking read times out, and when writes stop being taken. A `recv` is a peek followed by `read_exact`, as in the source. A datagram socket is a list of packets and errors that come next.
* **Message tables** (`MessageTable`): both tables as classes, `register`, `join`, `build`, and what makes two peers agree on every message id.
* **The server** (`ServerModel`, `Server`). `Server` is the class with the source's fields, updated in place; every method is proved to change the state exactly as a function on values in `ServerModel` says, including panics (`Outcome.Panicked`: an index out of bounds, an `unwrap` of nothing). The history (ids issued, hook calls, everything ever queued, dropped streams) is ghost.
* **The client** (`ClientModel`, `Client`), in the same two layers.
* **Runs** (`Lifecycle`, `Runs`). A run is any sequence of calls in any order, with the world (arriving bytes, new connections, datagrams) moving in between. `StepMoves` splits every call into small moves; `RunKeepsMore` turns a fact kept by every move into a fact about every run. `Mirror`, `Handshake`, `Admission`, `Conservation`, `EndToEnd` and `Goodbye` use it. `ClientRuns` has the runs of the client, `Datagrams` what one of its receives buffers.
* **Decisions** (`Verdicts`, `Failures`). What decides over a pending connection, and what ends a live one, in terms of clock, stream and hook.

Hash-map iteration order, clocks, hook decisions and network behaviour are parameters, so the theorems are about all of them. Hooks may depend on the earlier calls of the same pass. Connection ids are u32 and wrap; statements about the identity of ids hold while fewer than 2^32 were issued (`history.issued < CID_COUNT`), and `IdsWrap` shows what happens then.

Setups are `Sound`: their parts have the shape every `build` yields (`BuildShaped`). Runs of the server start from `Complete` setups, with one id for each type; `BuildCoherent` shows that `build` yields such parts exactly when the three reserved types differ.

## What turned out not to hold

* **Removal lists.** Both connection handlers collect ascending index lists and replay them with `Vec::remove`. The right connections are settled, in whatever order, exactly when, along the pending list, there is at most one dead, then one rejected, then one accepted connection (`SettlesExactly`, `CarryExactly`, `PassSettles`). `handle_new_cons` with a hook that accepts everybody panics whenever two or more connections are pending and their connection messages are there (`AcceptingPassPanics`).
* **Reading behind the end.** One `recv_msgs` stops at a disconnect message, and at a frame that does not decode, but the connection stays registered until the queue is handled, and a second `recv_msgs` before that reads on (`ReadsBehindTheEnd`). What is consumed of a stream ends at the first such frame exactly when no `recv_msgs` is called while that end waits and the stream has more to give (`EndsExactly`); calling `handle_disconnects` between any two `recv_msgs` is enough (`HandledIsPatient`). The client needs no such patience (`ClientReceives`).
* **`valid_mid`** admits the number of ids itself, and indexing the deserializers with it panics; that is the only such id (`DecodePanicsExactly`). With short datagrams it is the only way `recv_msgs` panics (`RecvPanicsExactly`).
* **`build`** compares the three reserved types with the table but not with each other.
* **Partial frames.** A nonblocking `recv` that sees a header but not all of its payload consumes a part of the frame and reports `WouldBlock` (`RecvAtFrame`, `SplitLosesFrame`).
* **UDP errors at the server.** The documentation of `handle_udp_msg` says errors are logged and ignored; the code stops receiving datagrams for this call, and the model follows the code (`UdpTakes`, `ErrorHidesDatagram`). All usable datagrams are buffered exactly when none lies behind an unusable one (`AllUsableExactly`). The client's loop does skip errors (`ErrorsAreSkipped`).
* **Timestamps.** Rebuilding the send time subtracts below zero during the first 65536 ms of each clock cycle for some stamps (`UnderflowExactly`); the model wraps as a release build does.
* **Short datagrams** of one to three bytes panic (`ReadPanicsExactly`).
* **Addresses.** `add_tcp_con_cid` keeps the two maps inverse exactly when the peer's address is not registered yet (`AddMirrors`).

## Model

| member | source | states |
|---|---|---|
| Header.TcpHeaderRoundTrip | src/header.rs:30-45 | a header survives the wire exactly when id and length are below 2^16; otherwise both arrive modulo 2^16 |
| Header.TcpHeaderOnto | src/header.rs:30-45 | every four bytes are the header of something: reading then writing is the identity |
| Header.UdpHeaderRoundTrip | src/header.rs:72-88 | the id survives exactly below 2^16, the send time exactly if read less than 65536 ms later |
| Header.BigEndian | src/header.rs:29-35 | on the wire both headers are two big-endian sixteen-bit halves |
| Time.ReconstructUnique | src/time.rs:26-33 | the rebuilt stamp is the one u32 with that low half less than 65536 ms before now |
| Time.ReconstructExact | src/time.rs:26-33 | the low half alone loses nothing exactly within the 65536 ms window, modulo 2^32 |
| Time.UnderflowExactly | src/time.rs:29-31 | the subtraction stays at or above zero exactly when the high half is nonzero or the low half is not ahead |
| Net.OverlapsExactly | src/net.rs:122-149 | two specifications overlap exactly when some u32 matches both; the relation is symmetric |
| MessageTable.MsgTable.Register | src/message_table.rs:102-108 | succeeds exactly for a new type and then appends an entry with this type, this transport and the closures of the type; on the type error nothing changes; types stay distinct |
| MessageTable.MsgTable.Join | src/message_table.rs:70-85 | all or nothing: succeeds exactly on tables without a common type, then appends the other table; else the type error and no change |
| MessageTable.MsgTable.Build | src/message_table.rs:153-190 | succeeds exactly when none of C, R, D is registered, else the type error; the parts have the common shape, and are coherent exactly when C, R, D differ |
| MessageTable.Assemble | src/message_table.rs:167-189 | the loop fills vectors and map with the entries and the last index of each type |
| MessageTable.TidMapAt | src/message_table.rs:167-182 | a type is mapped to the last position it is registered at, and only registered types are mapped |
| MessageTable.TidMapSize | src/message_table.rs:167-182 | the map is as long as the vectors exactly when no type occurs twice |
| MessageTable.BuildShaped | src/message_table.rs:153-190 | whatever C, R, D are, each id has its closures, each type is mapped to an id with its own, and 0, 1, 2 go over TCP |
| MessageTable.BuildCoherent | src/message_table.rs:153-190 | ids are a bijection with types, each routed to its own closures, 0, 1, 2 over TCP, exactly when C, R, D differ |
| MessageTable.IdsInOrder | src/message_table.rs:153-190 | C, R, D get ids 0, 1, 2 and the k-th registered type gets k + 3 with its transport |
| MessageTable.EntryRouted | src/message_table.rs:153-190 | the k-th entry gets id k + 3 with its own transport and closures, whatever C, R, D are |
| MessageTable.ReplayPlain | src/message_table.rs:70-108 | making the calls of a history on `MsgTable`s leaves the table the history stands for |
| MessageTable.PlainEntriesAreCalls | src/message_table.rs:70-108 | the entries of a table are exactly the successful `register` calls of its history, with their types and transports |
| MessageTable.PlainBuiltAsRegistered | src/message_table.rs:70-190 | in the parts built from any history, each type goes over the transport its own `register` call was given, and there are no other types but C, R, D |
| MessageTable.SortedMsgTable.Register | src/message_table.rs:248-255 | succeeds exactly for a new identifier and type and then appends an entry with this identifier, type and transport; which error is reported; nothing changes on error |
| MessageTable.SortedMsgTable.Join | src/message_table.rs:203-226 | succeeds exactly on disjoint tables, reports a shared type first, changes nothing on error, keeps everything unique |
| MessageTable.SortedMsgTable.Build | src/message_table.rs:306-347 | when it succeeds, which error it reports otherwise, that it builds from the entries sorted by identifier, and when the parts are coherent |
| MessageTable.SortSorts | src/message_table.rs:320-322 | the sort by identifier orders the entries and only permutes them |
| MessageTable.StrLeIs | src/message_table.rs:320-322 | identifiers are compared by their first difference, a prefix first |
| MessageTable.SortedOnce | src/message_table.rs:320-322 | without repeated identifiers there is one sorted order of a set of entries |
| MessageTable.SortKeepsUnique | src/message_table.rs:306-347 | sorting keeps types, identifiers and entries |
| MessageTable.Replay | src/message_table.rs:203-255 | making the calls of a history on tables leaves the table the history stands for |
| MessageTable.TablesAgree | src/message_table.rs:193-347 | any two histories of register and join calls that end with the same (identifier, type, transport) triples build identical parts |
| MessageTable.EntriesAreCalls | src/message_table.rs:203-255 | the entries of a sorted table are exactly the successful `register` calls of its history, with identifier, type and transport |
| MessageTable.BuiltAsRegistered | src/message_table.rs:203-347 | in the parts built from any history, each type goes over the transport its own `register` call was given, there are no other types but C, R, D, and ids ascend with identifiers |
| Tcp.TcpCon.FromStream | src/tcp.rs:21-26 | a buffer of the configured size plus header |
| Tcp.TcpCon.Send | src/tcp.rs:41-73 | writes header and payload as one frame, or refuses what is larger than the buffer |
| Tcp.TcpCon.Recv | src/tcp.rs:79-127 | does to the stream what `RecvOn` says in terms of the stream alone: stale buffer contents do not matter |
| Tcp.TcpCon.Close | src/tcp.rs:135-139 | shuts the stream |
| Tcp.RecvCallsAgree | src/tcp.rs:79-127 | peek, decide, read_exact is the same as taking the next frame of the stream in one step |
| Tcp.RecvReads | src/tcp.rs:79-127 | receiving moves the read position forward and writes nothing |
| Framing.EncodeAllInjective | src/header.rs:30-35 | no two sequences of frames look the same on the wire |
| Framing.PrefixFree | src/header.rs:30-35 | bytes written so far determine their frames: more bytes only add frames behind |
| Framing.RecvAtFrame | src/tcp.rs:79-127 | a recv at a frame yields exactly it, or fails and moves nothing, exactly unless the frame is split |
| Framing.BlockingRecv | src/tcp.rs:79-127 | a blocking recv at a complete frame yields it exactly when there is no fault, four bytes are there as it peeks and the rest comes before the read times out |
| Framing.SplitLosesFrame | src/tcp.rs:115-116 | after a split the rest of the frame is read as another frame |
| Framing.RecvMeets | src/tcp.rs:79-127 | one recv on any stream: when it yields the frame in front, what it consumes, when it shuts the stream, and exactly which streams fail for good and with which error |
| Framing.RecvReady | src/tcp.rs:79-127 | with headers visible only with their payloads, or reads that wait, each call yields the next frame or moves nothing, and when which; faults included |
| Framing.PumpYieldsFrames | src/tcp.rs:79-127 | under any chunking, repeated recv yields the frames in order and whole, and all of them once they arrived |
| Framing.SendsConcatenate | src/tcp.rs:41-73 | sending frames on a stream with room appends their encoding |
| Framing.RoundTrip | src/tcp.rs:41-127 | what one side sends is what the other receives, under any chunking |
| Udp.UdpCon.SendShared | src/udp.rs:91-125 | header and payload in one datagram, or refusal |
| Udp.UdpCon.SendTo | src/udp.rs:47-69 | one datagram to the address, or the error |
| Udp.UdpCon.Send | src/udp.rs:71-88 | the same to the connected peer |
| Udp.UdpCon.RecvShared | src/udp.rs:146-158 | what the first n bytes of the buffer mean, with the panic for one to three bytes |
| Udp.UdpCon.RecvFrom | src/udp.rs:127-144 | the next packet read through the buffer; older contents do not matter |
| Udp.DatagramRoundTrip | src/udp.rs:91-158 | payload, id and send time come back under their exact conditions |
| Udp.ReadsExactly | src/udp.rs:127-158 | what each kind of report is read as: errors, empty datagrams, and how much of a datagram fits |
| Udp.ReadPanicsExactly | src/udp.rs:146-158 | a receive panics exactly on datagrams of one to three bytes |
| Inbound.DecodePanicsExactly | src/message_table.rs:357-359 | decoding panics exactly for the id equal to the number of ids; larger ones are refused |
| Inbound.DrainStep | src/server.rs:643-651 | one turn of the inner receive loop |
| Inbound.PushAllAppends | src/server.rs:699 | each buffer keeps what it held and gets its own letters in order |
| Inbound.TotalPushAll | src/server.rs:691-699 | no letter is lost or kept twice |
| Server.Server.constructor | src/server.rs:69-100 | an empty server with one buffer per registered type, for any parts; valid exactly when they have as many ids as types |
| Server.Server.SendTcp | src/server.rs:420-427 | writes to the stream of the id or reports that there is none |
| Server.Server.SendUdp | src/server.rs:430-437 | sends to the address of the id or reports that there is none |
| Server.Server.SendTo | src/server.rs:512-537 | routes by type, serializes, sends by the type's transport; what that does on the wire is `SendsByEntry` |
| Server.Server.Broadcast | src/server.rs:540-545 | visits every id in map order until a send fails |
| Server.Server.SendSpec | src/server.rs:548-553 | visits the matching ids in map order until a send fails |
| Server.Server.NewCid | src/server.rs:773-776 | the next id, wrapping as u32 |
| Server.Server.AddTcpConCid | src/server.rs:780-785 | all three maps after a registration |
| Server.Server.RmTcpCon | src/server.rs:788-795 | succeeds exactly for ids with a stream and then removes all three entries; the unwrap never panics |
| Server.Server.StartIncoming | src/server.rs:323-335 | takes streams while there is space and gives each the next id |
| Server.Server.HandleConHelper | src/server.rs:288-320 | timeout, receive, id check, deserialization, downcast, in this order |
| Server.Server.PollPending | src/server.rs:146-177 | the loop over pending connections: hook calls in order and the three index lists; what decides each verdict is `PollJudges` |
| Server.Server.AcceptIncoming | src/server.rs:338-349 | registers, then responds |
| Server.Server.RejectIncoming | src/server.rs:352-373 | responds directly on the stream and drops it, panics on a foreign response type; what the stream carries then is in `PassByStreams` |
| Server.Server.HandleNew | src/server.rs:214-277 | a pass: accept streams, poll, replay the removals, count |
| Server.Server.HandleNewCon | src/server.rs:131-200 | the pass that ends at the first hook call, and whether there was one |
| Server.Server.HandleNewCons | src/server.rs:210-278 | the pass over all pending connections, and how many were handled |
| Server.Server.Disconnect | src/server.rs:110-121 | sends, shuts, queues `Closed`; each failure ends it earlier |
| Server.Server.HandleDisconnect | src/server.rs:380-395 | skips dead ids, tells the hook about one live id and removes it |
| Server.Server.HandleDisconnects | src/server.rs:400-417 | the whole queue in one loop, with the count |
| Server.Server.RecvTcp | src/server.rs:443-470 | the next frame of a connection as a message from it |
| Server.Server.HandleTcpMsg | src/server.rs:672-703 | where a message, a disconnect message or an error goes, and when the loop ends |
| Server.Server.RecvUdp | src/server.rs:477-509 | a datagram as a message from the live id with its address |
| Server.Server.HandleUdpMsg | src/server.rs:712-727 | buffers a message; any error ends the loop |
| Server.Server.RecvMsgs | src/server.rs:639-662 | both loops, for any order of the connections, with the count |
| Server.Server.RecvSpec | src/server.rs:598-612 | the messages of a type from matching ids, with the panics |
| Server.Server.ClearMsgs | src/server.rs:730-734 | empties every buffer |
| Retiring.RemovalExactly | src/server.rs:183-197 | replaying a list of indices takes out the intended set of entries exactly when the list is strictly descending |
| Retiring.DescendingLeaves | src/server.rs:183-197 | a descending replay leaves exactly the other entries, in their order |
| Retiring.PlanIs | src/server.rs:147-177 | the lists hold every decided connection, by list and then ascending |
| Retiring.ServedExactly | src/server.rs:261-275 | every connection gets its own answer, in whatever order, exactly when the concatenated lists descend |
| Retiring.PlanDescending | src/server.rs:225-275 | the concatenated lists descend exactly when the verdicts fall along the pending list |
| Retiring.SettlesExactly | src/server.rs:225-275 | a pass settles the right connections, in whatever order, exactly when its verdicts fall |
| Settling.RemovalPanics | src/server.rs:261-275 | the replay goes out of bounds exactly when some index is past what is left by then |
| Settling.CarryServes | src/server.rs:261-275 | when the replay returns, and which ids are then registered, dropped and left |
| Settling.FallingSettles | src/server.rs:261-275 | with falling verdicts accepted ids are registered, rejected and dead ones dropped, waiting ones keep their order |
| Settling.CarryExactly | src/server.rs:261-275 | the replay returns and does right by every pending connection exactly when the verdicts fall |
| Settling.AcceptingAllPanics | src/server.rs:261-264 | accepting all of two or more pending connections in one pass panics |
| Verdicts.PollConDecides | src/server.rs:288-320 | which pending connections are lost, speak or wait, by clock and stream: lost ones are late, failed, ended, announce too much, or sent something else than a connection message |
| Verdicts.SilentWaits | src/server.rs:288-320 | a connection in time that shows less than a header, without error or end, is neither lost nor heard |
| Verdicts.PollJudges | src/server.rs:146-177 | the hook is called for each connection that speaks, in order, and each is judged by its own stream, the clock and the hook's answer to it; the loop panics exactly at a connection message of another type |
| Verdicts.CarryAnswers | src/server.rs:338-373 | a descending replay writes to each accepted or rejected stream exactly its own answer, as one response frame, and nothing to dead ones |
| Verdicts.PassByStreams | src/server.rs:210-278 | a whole pass from clock, streams and hook to what becomes of every connection and what was written to it, and its count; a waiting one keeps its id and time |
| Verdicts.NobodyDecided | src/server.rs:210-278 | if nobody speaks and nobody is lost, everybody stays pending and nothing else changes |
| Verdicts.ConHandledExactly | src/server.rs:131-200 | `handle_new_con` returns true exactly when some pending connection speaks |
| Verdicts.OffersPend | src/server.rs:323-335 | the streams offered become pending in order, untouched, with the next ids and the present time, up to the limit or the first refusal |
| Admission.PassSettles | src/server.rs:210-278 | a whole pass does right by every connection exactly when its verdicts fall, and then returns the number of hook calls |
| Admission.AcceptingPassPanics | src/server.rs:210-278 | with two or more pending connections whose messages are there and a hook that accepts all, `handle_new_cons` panics |
| Runs.StepMoves | src/server.rs:107-734 | every call is a sequence of small moves that belong to it |
| Runs.MoveKeeps | src/server.rs:107-734 | every move keeps the invariant and moves no id back |
| Runs.RunKeeps | src/server.rs:107-734 | so does every run |
| Runs.IdsOverRuns | src/server.rs:20-21 | ids are 1, 2, 3, …, each in exactly one stage; pending connections never exceed the limit; the disconnect hook fires at most once per id, for retired ids, with the first status queued |
| Runs.IdsWrap | src/server.rs:773-776 | after 2^32 connections ids start over, with 0 and then 1 |
| Runs.StartInv | src/server.rs:81-100 | a new server fulfils the invariant exactly when its parts have as many ids as types |
| Runs.DisconnectReturns | src/server.rs:110-121 | the lookup in `disconnect` never panics |
| Disconnects.BatchIsIteration | src/server.rs:380-417 | `handle_disconnects` equals calling `handle_disconnect` until it returns false: hook calls, count, final state |
| Disconnects.FirstsAre | src/server.rs:402-408 | the entries told are, of each live id, the first one, and no id twice |
| Disconnects.DisconnectsTell | src/server.rs:400-417 | what `handle_disconnects` tells the hook, retires and counts, for any queue with repeated and dead ids |
| Disconnects.DisconnectSucceeds | src/server.rs:110-121 | `disconnect` succeeds exactly for a live id whose message is sent and whose stream can be shut; a failure shuts and queues nothing |
| Disconnects.DisconnectIsTold | src/server.rs:110-121 | a successful disconnect ends the stream with its message, and the hook hears `Closed` unless something was queued before |
| Mirror.AddMirrors | src/server.rs:780-785 | registering keeps the maps inverse exactly when the address is not registered |
| Mirror.AttributedOverRuns | src/server.rs:477-509 | in every reachable state with fresh addresses, what `recv_msgs` buffers over UDP is exactly what the datagrams in front become, each attributed to the one live stream whose peer sent it, none from other addresses |
| Mirror.MirrorOverRuns | src/server.rs:48-59 | with fresh addresses the maps stay inverse, cover the ids of `tcp` and name the true peer, over any run |
| Sending.MatchingIs | src/server.rs:549 | a specification selects exactly the matching ids, once each |
| Sending.SendsByEntry | src/server.rs:512-537 | by the entry the type is registered with: one frame with its id on the stream of this id and nothing else, or one datagram to its address and no stream touched; and when it succeeds |
| Sending.SendsNothing | src/server.rs:512-523 | an unregistered type or a message that does not serialize is refused and nothing is sent |
| Sending.SentAsRegistered | src/server.rs:512-537 | from the `register` call to the wire: server and client send a message over the transport its type was registered for |
| Sending.TcpReaches | src/server.rs:540-553 | sending to different ids reaches all of them exactly when it succeeds; otherwise the first ones up to the stream that fails, nobody behind it, and no other stream is touched |
| Sending.SpecReaches | src/server.rs:548-553 | `send_spec` and `broadcast` add one frame to exactly the matching streams, and when they succeed |
| Sending.UdpReaches | src/server.rs:548-553 | over UDP: when it succeeds, the datagrams sent, and that a failure sends nothing |
| Sending.SpecReachesUdp | src/server.rs:548-553 | one datagram to the address of each matching id and to no other address |
| Receiving.AbsorbGrows | src/server.rs:643-703 | reading one connection adds its own letters and entry, and nothing any other connection can notice |
| Receiving.RecvTcpsGrow | src/server.rs:643-651 | every visited connection grows by its own stream alone; the loop panics exactly when one of them does |
| Receiving.RecvTcpsCount | src/server.rs:643-651 | the count is the sum over the connections |
| Receiving.AnyOrder | src/server.rs:639-662 | any two iteration orders leave the same contents and entries per id, streams and count, or both panic |
| Conservation.RecvConserves | src/server.rs:639-727 | the count is the growth of all buffers plus the graceful disconnects queued; nothing old moves or vanishes |
| Conservation.ClearEmpties | src/server.rs:730-734 | clearing empties every buffer and changes nothing else; the next receive then counts what the buffers hold |
| Conservation.UdpTakes | src/server.rs:654-660 | the datagrams before the first unusable one are buffered, that one is lost, later ones stay; when it panics |
| Conservation.AllUsableExactly | src/server.rs:654-660 | all usable datagrams are buffered exactly when none lies behind an unusable one |
| Conservation.ErrorHidesDatagram | src/server.rs:712-719 | with an error report in front, a usable datagram is not buffered |
| Conservation.Attributed | src/server.rs:477-509 | which single datagrams are used under inverse maps, and what they become |
| Conservation.StrangersRefused | src/server.rs:492-500 | a datagram from an address without a live connection is never buffered |
| Panics.DrainPanicsExactly | src/server.rs:643-651 | reading a connection panics exactly when its first frame that is no ordinary message has the id equal to the number of ids |
| Panics.UdpsPanicExactly | src/server.rs:654-660 | the datagram loop panics exactly when the first unusable datagram is short or has that id |
| Panics.RecvPanicsExactly | src/server.rs:639-662 | these are the only panics of `recv_msgs` |
| Failures.DrainEndsExactly | src/server.rs:643-703 | reading a connection ends it with a status exactly if, behind ordinary frames, the stream fails for good or a frame says so |
| Failures.ServerNotesExactly | src/server.rs:639-703 | the disconnect queue gets one entry for each live connection whose stream ends, with that status, and none for others |
| Failures.ClientEndsExactly | src/client.rs:287-312 | a connected client changes its status exactly to the one its stream ends with |
| Conservation.RecvSpecYields | src/server.rs:598-612 | with typed buffers, `recv_spec` panics exactly for unregistered types |
| Conservation.TypedOverRuns | src/server.rs:562-612 | over any run, receiving a registered type never panics and yields exactly the messages from matching ids |
| Handshake.GreetedOverRuns | src/server.rs:338-373 | nothing is written to pending streams; a registered stream starts with a whole response; a stream never registered carries at most that response; over any run |
| Handshake.ClientConnects | src/client.rs:64-129 | before a response, `new_blocking` returns it exactly when it comes in time; it has sent only its connection message, holds empty buffers, and reads without blocking exactly on success |
| Handshake.FirstAnswer | src/client.rs:103-128 | what `new_blocking` makes of whatever frame comes first: the response, a refusal as invalid data, or the panic; only on success does the stream stop blocking |
| Handshake.NoGreetingNoAnswer | src/client.rs:103-105 | if the connection message cannot be sent, that error is returned and nothing is read |
| Handshake.HandshakeCompletes | src/client.rs:103-128 | on what the server writes to a registered stream the client's handshake succeeds exactly when the response comes in time |
| Admission.FirstFrame | src/tcp.rs:79-127 | the frame received from an untouched stream is what the stream begins with |
| Admission.PollListens | src/server.rs:232-255 | an accepted connection was asked about with its first frame; one that has to wait stays untouched |
| Admission.AdmittedOverRuns | src/server.rs:288-349 | over clean runs every registered or retired id belongs to a peer whose first frame the hook accepted |
| EndToEnd.DrainTakes | src/server.rs:643-703 | reading a ready stream dry takes whole frames and turns each into its message or the end, none behind an end; all of them up to it once they arrived |
| EndToEnd.EndToEnd | src/server.rs:639-703 | over any run without clear, a connection's buffers and the entries its frames caused are exactly those of the consumed prefix of its frames, in order, undecodable ones skipped |
| Goodbye.ReadsBehindTheEnd | src/server.rs:643-703 | a second `recv_msgs` before the queue is handled buffers a message sent behind a disconnect message or an undecodable frame |
| Goodbye.EndsExactly | src/server.rs:643-703 | over any run, consumption ends at the first frame that ends the connection exactly when no `recv_msgs` is called while that end waits and more is there |
| Goodbye.HandledIsPatient | src/server.rs:400-417 | handling the queue between any two `recv_msgs` ensures that |
| Goodbye.RecvCatchesUp | src/server.rs:639-662 | one `recv_msgs` takes every frame that has arrived |
| EndToEnd.Delivered | src/server.rs:639-703 | the same in terms of the messages the peer sent: read position, buffers and disconnect entries |
| EndToEnd.ClientDelivers | src/client.rs:234-256 | the same for a client that sends these messages on its end of the stream |
| EndToEnd.MeansWhatWasSent | src/server.rs:443-470 | a peer with the same table reads back exactly what was serialized, type by type, and the disconnect messages |
| EndToEnd.ClientWrites | src/client.rs:234-256 | a client's sends append their frames, whole and in order |
| EndToEnd.ClientTakes | src/client.rs:287-312 | one call takes whole frames, buffers their messages, and stops at the first that is none, with the status it says |
| ClientRuns.OverStaysOver | src/client.rs:289-318 | over any run, a client that is not connected never is again and buffers nothing more |
| ClientRuns.ClientReceives | src/client.rs:284-337 | over any run, the client's buffers are those of the consumed prefix of the server's frames, which ends at the first that is no message; the status is what that frame says |
| Datagrams.DrainsPresent | src/client.rs:314-334 | the datagram loop takes every packet that is there, buffers and counts the messages among them in order, and when it panics |
| Datagrams.ClientBuffers | src/client.rs:284-337 | for a client that stays connected each buffer is its old contents, then the stream's messages, then those of the datagrams, each with its own content and send time; and the count |
| Datagrams.ClientGets | src/client.rs:284-337 | the same with the stream's part as the messages of the first whole frames |
| Datagrams.ClientPanicsExactly | src/client.rs:284-337 | the only panics of the client's `recv_msgs` |
| EndToEnd.KnownOverRuns | src/server.rs:463-499 | no buffer ever holds a message of an id that was never registered |
| Client.Client.NewBlocking | src/client.rs:64-129 | the handshake: send, receive, check the id, and how each step fails |
| Client.Client.Send | src/client.rs:234-256 | routes by type, serializes, sends; what that does on the wire is `ClientModel.SendsByEntry` |
| Client.Client.Disconnect | src/client.rs:208-219 | panics for an unregistered type, refuses a wrong one, else sends, shuts and closes |
| Client.Client.RecvTcp | src/client.rs:146-168 | the next frame as a message |
| Client.Client.RecvUdp | src/client.rs:175-197 | the next datagram as a message |
| Client.Client.RecvTcps | src/client.rs:287-312 | the first loop: terminates, and the status, buffers and count it ends with |
| Client.Client.RecvUdps | src/client.rs:314-334 | the second loop: terminates, skips errors, buffers and counts; what is buffered is `ClientBuffers` |
| Client.Client.RecvMsgs | src/client.rs:284-337 | both loops together |
| Client.Client.ClearMsgs | src/client.rs:340-344 | empties every buffer |
| ClientModel.OverIsOver | src/client.rs:289-318 | once not connected, receiving does nothing, whatever arrived |
| ClientModel.SendsByEntry | src/client.rs:234-256 | by the entry the type is registered with: one frame on the stream and no datagram, or one datagram to the peer and nothing on the stream; and when it succeeds |
| ClientModel.ClearEmpties | src/client.rs:340-344 | clearing empties every buffer and changes nothing else |
| ClientModel.RecvCounts | src/client.rs:284-337 | the count is the buffered growth plus one for a disconnect message; at most one transition, and no datagram is read after it |
| ClientModel.ErrorsAreSkipped | src/client.rs:314-334 | every usable datagram is buffered, errors in between do not stop it |
| ClientModel.LeavingIsFinal | src/client.rs:208-219 | when `disconnect` succeeds; the message is then the last thing on the stream and receiving is over |

## Left out

- Sockets, the listener, `peer_addr`, `local_addr` and their failures: replaced by the environment of a stream and of the datagram socket; failures of `set_nonblocking` and `set_read_timeout` are not modelled.
- A socket fault is any error but `InvalidData`, which is the library's own. It is reported by the next peek; faults in the middle of `read_exact` other than end of stream and a timeout are not modelled.
- `PendingClient`, `OptionPendingClient` and the spawned thread: wrappers over a channel.
- Servers made from incoherent parts (two of C, R, D the same type): `BuildCoherent` says exactly when `build` yields such parts, and `StartInv` that such a server lacks buffers; what its calls do is not modelled. Clients are modelled for any parts.
- bincode, `Any`, downcasts and `TypeId`: an opaque type id, and a serializer and deserializer; that they are inverse is the assumption `Faithful` where a theorem needs it.
- The `RwLock` around the stream, logging, `Display`, `Debug`, error texts and the safe-size hint for datagrams.
- Counters are unbounded: the u32 results of the receive and handle calls cannot overflow in the model.
- Server.Server.PutBack: Rust's maps and vectors own their connections; the model keeps them as values and borrows them through `TcpCon` objects, so their buffers have no identity between calls.
- Server.Server.HandleNew: the source writes the pass out twice, once with a `break`; the model has one method with a flag.
- MessageTable.SortById: the standard library's stable sort is an insertion sort on values; only its result matters.
- Iterators returned by `recv` and `recv_spec` are collected eagerly, so the panic of a wrong downcast happens at the call.
- The client's `recv`, which is the server's without ids, `try_recv`, `try_recv_spec`, `addr_of`, `connection_count`, `is_registered` and the other getters: they add nothing beyond the calls above.
- `Config` constructors and the examples and benchmarks of the repository.
- Partial datagram sends, which the source logs and ignores.
