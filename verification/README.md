# Hakoniwa core: a verified model

Hakoniwa couples independent processes ("assets") into one simulation. They exchange
packets over PDU channels in shared memory, call each other's services over pairs of
such channels, and follow a common world time. This project models the parts of that
system whose promises span several functions, and proves them in Dafny.

## What is modelled

**The shared-memory RPC protocol.** `RpcTypes` has packets, states and the mailbox that
a channel and its receive flag form. `ServiceServer` and `ServiceClient` have the two
protocol objects: classes whose methods change the objects' fields and the shared
mailboxes, each proved against a function that says what one call does. `RpcSystem` puts
one server, any number of clients, the run generation and the phases of the simulation
together as a transition system; a new run moves the generation first and clears the
flags one by one, interleaved with everything else. `RpcSafety` proves what holds for all
callers: no packet of one run is ever reported in another, clearing never costs a run its
own packets, and replies rotate strictly. `RpcDelivery` and `RpcTheorems` add the rules
of use and prove exactly-once delivery, one place for each request, matching ids, exact
cancels and the safety of the single request buffer that all clients share; the buffer an
application reads holds the last completion, for all callers. `RpcProgress`
shows that every service can be brought to Running within the rules, again and again, so that
none of this is said of no run at all; `RpcTurns` says exactly when a waiting request is taken, over any
calls within the rules. `RpcStatus` is about requests that are not finished: the packets a
server sends on its own, the progress a client shows and the timeouts it reports.

The rules of use are: an application requests only while its client is idle, with a
header built since the last completion and a status poll interval that is not positive;
the server application answers the request in progress with DONE or ERROR, with a header
built for it; a service has one server object. `FollowsRules` states them step by step.
The server and all clients of a service are created before the first run, so that every
box has its listener when the first packet is written: a request written before its
server registers is announced to nobody.

**The tables under it.** `RecvEvents` is the receive-event table with its loops;
`RecvEventTheorems` proves conservation of notifications and of bytes for any number of
listeners and shows that a channel with one listener is the mailbox of the RPC model;
`RecvEventPauses` says who is told after pausing, resuming, registering and taking over.
`ServiceTable` and `ServiceTableTheorems` are the service table and its name index;
`ServiceCreation` says exactly when clients and servers can be created and what that leaves,
`ServiceSlots` the slots of clients, and `ServiceListeners` says exactly when a service
channel has the one listener that the RPC model gives it, and that it then is the mailbox of
that model. `ServiceReloads` is about loading the table anew while clients use it.

**The launcher.** `Toposort` is Kahn's ordering of assets, with a proof that a remainder
that is stuck contains a cycle. `Launcher` is ordered start and reverse abort, with the
launcher's own states around them. `PathLists` and `EnvMerge` merge environments;
`EnvMergeTheorems` says what the merged one holds, variable by variable, and which level wins.

**Build manifests.** `Scalars`, `ManifestLoader` and `ManifestPrinter` are the scalar
syntax, the loader with its stack of open mappings and the printed form;
`ManifestRoundTrip` and `ResolvedManifest` prove exactly when a printed manifest loads
again, and that it then says what the configuration says. `ManifestReading` is about lines
and scalars that no printer wrote.

**Asset time and recovery.** `AssetTime` is the step, wait and sleep loops of an asset
against world time; `Recovery` is the deletion of leftover runtime files.

`Options`, `Arithmetic` and `Sequences` hold general definitions and lemmas.

## Where the code falls short of its promise

- *Merging defaults twice is not harmless.* Defaults reach an asset without operations of
  its own twice: from the loader (launcher/hako_launch/loader.py:62-63) and from the monitor
  (launcher/hako_launch/hako_monitor.py:59-63). What is prepended treats the old list as one single
  entry, so a second round repeats the new entries: `PathLists.InFrontRepeats` has an input,
  `PathLists.InFrontTwiceIff` and `EnvMerge.DefaultsTwiceIff` the exact condition. The
  search order stays the same (`EnvMerge.DefaultsTwiceSearchTheSame`). A variable set to a text that
  refers to itself grows with the second round (`EnvMerge.SelfReferenceTwiceIff`).
- *Not every text survives the resolved manifest.* A path or metadata text with U+0085, U+2028 or
  U+2029 is printed unescaped and makes the whole file unloadable
  (`ResolvedManifest.ResolvedManifestRoundTrip`).
- *A reload by another process leaves a wrong index hit* (`ServiceTableTheorems.ReloadLeavesStaleHit`):
  a client created through it gets a slot of one service and listens for another
  (`StaleHitMixesServices`). `IndexAgreesIff` says exactly when lookup and scan agree.
- *A server whose service is not in the table takes everybody's slots away.* Creating a service loads
  the table anew when the number of services differs or the name is not found, and every slot is free
  again (`ServiceReloads.ServesAtOnceOrFreesAll`). Even with the same configuration that does no harm
  exactly if there is no client yet (`ReloadIsHarmlessIff`); otherwise the next client gets a slot that
  is in use, and two clients listen on its channel (`ReloadHandsOutAgain`).
- *Anybody may listen on a service channel.* An application that registers on one adds a listener
  that every later write has to wait for. `ServiceListeners.SoleClientListenerIff` and
  `SoleServerListenerIff` say exactly when a channel has the one listener the protocol assumes, and
  `RejoinTakesOwnEntryIff` when a returning client gets its own entry back;
  `ApplicationSpoilsChannel` is a run on which one registration makes the difference.
- *A busy server can lose the request in progress.* Status, busy and error packets go out as replies
  and free the slot; `RpcTheorems.WhenAPollDropsTheRequest` says exactly when, and
  `RpcProgress.ProgressReportLosesRequest` is a run on which it happens.
- *A client that asks for progress may see it only once.* The server compares the interval with the time
  of its last poll, not of its last report (sources/core/src/service/hako_service_protocol_server.cpp:122-133),
  so one that polls more often than the client asked for sends its first report and no other
  (`RpcStatus.FrequentPollsNeverReport`).
- *A silent client holds up all others.* The turn passes only with a reply
  (`RpcProgress.SilentClientHoldsTheTurn`; `SomebodyWaits` has a client waiting on every service with
  two). `RpcTurns.WaitingRequestIsTakenIff` says exactly when a waiting request is taken, over any
  calls, and `RpcProgress.RequestIsServedIff` what that means for a server that polls and replies in
  rounds while nobody else calls anything.
- *An exception while starting strands what was started.* In a launcher that was idle, terminating does
  nothing, and activating again starts the same assets a second time, until an activation comes up and
  a terminate stops them all (`Launcher.ActivatesTwice`). In a launcher that was terminated, the
  assets are lost: it stays terminated, and the next activation replaces the monitor that has them
  (`Launcher.ReplacedMonitorIsLost`). `Launcher.TerminateReachesAllIff` is the exact condition over
  any calls.

A note on appending: `_apply_ops` calls `_join_pathlike` with an argument named `values`, which
that function does not have, so any append ends in a TypeError. The model has this error built in
(`EnvMerge.Applied`), so a merge fails exactly if either level of operations appends anything
(`EnvMerge.AppendingIsAnError`). What the two lines are meant to compute is items merged behind a list; that
this is the same when done twice is `PathLists.MergeTwice`.

## Model

| member | source | states |
|---|---|---|
| ServiceServer.ServiceServerProtocol.StartNewRun | sources/core/src/service/hako_service_protocol_server.cpp:84-99 | the first call in a new run sets every slot idle, the turn to client 0 and the header, percentage and poll time to their initial values, and keeps the buffer; otherwise nothing changes |
| ServiceServer.ServiceServerProtocol.SendReply | sources/core/src/service/hako_service_protocol_server.cpp:200-209 | the packet goes to the current client's response mailbox or is refused; only a packet that went out frees the slot, and the turn passes either way; no other mailbox changes |
| ServiceServer.ServiceServerProtocol.SendStatus | sources/core/src/service/hako_service_protocol_server.cpp:246-256 | status, busy and error packets carry the current request's id and go out exactly as a reply does |
| ServiceServer.ServiceServerProtocol.ReplyToRequest | sources/core/src/service/hako_service_protocol_server.cpp:210-222 | an application's reply passes only for a request taken in this run that is in progress or being cancelled; otherwise nothing changes |
| ServiceServer.ServiceServerProtocol.PollNothingReceived | sources/core/src/service/hako_service_protocol_server.cpp:122-133 | without a packet only a due progress report is sent, and the poll time is kept |
| ServiceServer.ServiceServerProtocol.PollPacketReceived | sources/core/src/service/hako_service_protocol_server.cpp:134-173 | what a valid packet does in each state of the slot: taken, cancelled, answered busy or invalid, or dropped |
| ServiceServer.ServiceServerProtocol.PollOnce | sources/core/src/service/hako_service_protocol_server.cpp:100-174 | one poll: new run noticed first, packet taken from the current client only, invalid headers answered with an error; event, object and both mailboxes as the model of one poll says |
| ServiceClient.ServiceClientProtocol.StartNewRun | sources/core/src/service/hako_service_protocol_client.cpp:80-95 | the first call in a new run makes the client idle and keeps its request id |
| ServiceClient.ServiceClientProtocol.SendRequest | sources/core/src/service/hako_pro_data_service.cpp:475-520 | a request is written to the client's own mailbox or refused, and the caller is told which |
| ServiceClient.ServiceClientProtocol.CallRequest | sources/core/src/service/hako_service_protocol_client.cpp:202-222 | a request is written whatever the client's state; only a written one changes the client |
| ServiceClient.ServiceClientProtocol.CallCancel | sources/core/src/service/hako_service_protocol_client.cpp:223-237 | a cancel goes out only from DOING, with the current request id, and does not look for a new run |
| ServiceClient.ServiceClientProtocol.CallPoll | sources/core/src/service/hako_service_protocol_client.cpp:96-159 | one poll: DONE and ERROR complete the request and raise the id, other statuses only refresh the client, invalid headers are dropped |
| RpcSafety.NextSafe | sources/core/src/hako_pro_data.cpp:77-145 | every step, with any packets from anybody, keeps the invariant that ties each visible packet to the run that wrote it |
| RpcSafety.NoStaleReport | sources/core/src/hako_pro_data.cpp:116-145 | cross-run safety: whatever was called before, a reported request, cancel or completion was written while this very run was Running by a writer that had noticed it |
| RpcSafety.ClearingSparesOwnPackets | sources/core/src/hako_pro_data.cpp:77-95 | the clearing that opens a run lowers only flags of packets written before the run was Running, and nothing is cleared while it is Running |
| RpcSafety.StrictRotation | sources/core/src/service/hako_service_impl_server.hpp:31-38 | within a run the k-th reply attempt, failed and status packets included, is made to client k mod n |
| RpcSafety.OnlyCompletionsFillBuffer | sources/core/src/service/hako_service_protocol_client.cpp:68-76 | whoever calls what, the buffer an application reads changes only in a poll that reports a completion, and then to the packet reported |
| RpcSafety.BufferHoldsLastCompletion | sources/core/src/service/hako_service_protocol_client.cpp:124-139 | over any calls, once a completion was accepted in this run the buffer holds the last one accepted |
| RpcDelivery.NextDelivers | sources/core/src/service/hako_service_protocol_server.cpp:100-222 | every step that follows the rules of use keeps the delivery invariant of all clients at once |
| RpcTheorems.ExactlyOnce | sources/core/src/service/hako_service_protocol_client.cpp:96-237 | under the rules requests are taken as sent, the k-th reply answers the k-th request and is made while the buffer holds that request byte for byte, completions are accepted as replied, ids are distinct and only the last request is outstanding |
| RpcTheorems.OnePlace | sources/core/src/service/hako_service_protocol_server.cpp:134-222 | a client waits if and only if its request is in the request box, at the server or in the response box, and then in one of them only |
| RpcTheorems.PlaceMovesForward | sources/core/src/service/hako_service_protocol_server.cpp:100-222 | the request moves one place at a time, never back, and each move is made by one kind of step only |
| RpcTheorems.ReplyAnswersSentRequest | sources/core/src/service/hako_service_protocol_server.cpp:176-222 | when a reply passes, the server's buffer holds, byte for byte, the request whose answer is due, and the reply answers exactly that one |
| RpcTheorems.MatchingCompletion | sources/core/src/service/hako_service_protocol_client.cpp:52-67 | a completion is the next reply to the client's outstanding request and carries its current request id, although ids are never compared |
| RpcTheorems.CancelHitsItsOwnRequest | sources/core/src/service/hako_service_protocol_server.cpp:153-162 | the server reports a cancel only for the request it is working on, by that request's id |
| RpcTheorems.OvertakenCancelIsDropped | sources/core/src/service/hako_service_protocol_server.cpp:143-146 | a cancel overtaken by a reply blocks the client's next request until the server drops it silently |
| RpcTheorems.SharedBufferIsSafe | sources/core/src/service/hako_service_protocol_server.cpp:70-79 | only the current client can have a request at the server, the one buffer holds it, and its response box is free |
| RpcTheorems.BufferOutlivesOtherSteps | sources/core/src/service/hako_service_protocol_server.cpp:70-79 | no step but its reply or a new run takes a request from the server or overwrites the buffer |
| RpcTheorems.RepliesNeverFail | sources/core/src/service/hako_service_protocol_server.cpp:200-222 | under the rules a reply that passes is delivered, and a poll never sends a packet of its own |
| RpcTheorems.WhenAPollDropsTheRequest | sources/core/src/service/hako_service_protocol_server.cpp:113-168 | for a request in progress or being cancelled, a poll frees the slot exactly when the response box is free and a progress report is due, or something arrived that is not a valid first cancel |
| RpcTheorems.BuiltRequestStaysOwn | sources/core/src/service/hako_service_protocol_client.cpp:160-182 | a request header stays good from when it was built, over any calls and new runs, until its client is told of a completion |
| RpcTheorems.BuiltReplyStaysAnswer | sources/core/src/service/hako_service_protocol_server.cpp:183-245 | a response header stays the right answer as long as the server keeps the request |
| RpcTheorems.RoundTripCompletes | sources/core/src/service/hako_service_protocol_server.cpp:100-222 | from any reachable state, request, poll, reply and poll in the client's turn end with exactly that reply reported |
| RpcProgress.EveryServiceCanRun | sources/core/src/hako_pro_data.cpp:116-145 | from every initial state, calls within the rules lead to a reachable Running state of the same service with empty boxes |
| RpcProgress.AnotherRun | sources/core/src/hako_pro_data.cpp:136-140 | from every reachable Running state, whatever lies in the boxes and whoever waits, stopping, resetting and starting lead to a reachable Running state of the next generation with empty boxes and an idle server |
| RpcProgress.SilentClientHoldsTheTurn | sources/core/src/service/hako_service_protocol_server.cpp:100-121 | as long as the client whose turn it is sends no request, whatever else is called, cancels of its own included, no poll reports anything and every other box keeps what it has |
| RpcProgress.PollReportsIff | sources/core/src/service/hako_service_protocol_server.cpp:134-152 | with no request in progress a poll reports something exactly if the client whose turn it is has a request in its box |
| RpcProgress.SomebodyWaits | sources/core/src/service/hako_service_protocol_server.cpp:100-121 | on every service with two clients, calls within the rules lead to a request that waits behind a client that does not ask |
| RpcTurns.WaitingRequestIsTakenIff | sources/core/src/service/hako_service_protocol_server.cpp:100-222 | over any calls within the rules during one run, the request of the client d turns away has been taken exactly if the server has replied more than d times since, or d times and has it in its slot; until then it lies in its box, and what was taken is that very request |
| RpcProgress.RequestIsServedIff | sources/core/src/service/hako_service_protocol_server.cpp:100-222 | rounds of poll and reply, with no client calling in between, take the request of the client d turns away exactly if there are more than d of them and every client from the one whose turn it is up to this one asks; otherwise it lies where it lay |
| RpcProgress.ProgressReportLosesRequest | sources/core/src/service/hako_service_protocol_server.cpp:122-133 | on every service a request with progress reports and two polls lead to a server without the request that refuses every reply, while the client goes on waiting |
| RpcStatus.PollSendsIff | sources/core/src/service/hako_service_protocol_server.cpp:113-168 | a poll sends something on its own exactly if a progress report is due and nothing arrived, or what arrived is unacceptable, or is not a cancel while a request is in progress, or comes while one is being cancelled; it reaches the client if its box is free |
| RpcStatus.OwnPacketsSayWhy | sources/core/src/service/hako_service_protocol_server.cpp:246-256 | such a packet is never DONE, has the current request's id, the turn's client and the percentage, and a status and result code that say why it was sent |
| RpcStatus.OwnPacketsAreOfThisRun | sources/core/src/service/hako_service_protocol_server.cpp:84-99 | after any calls, such a packet has the id of the request last taken in this run and the progress last put for it, 0 at first |
| RpcStatus.FrequentPollsNeverReport | sources/core/src/service/hako_service_protocol_server.cpp:122-133 | any number of polls, each within the interval of the one before, change nothing but the time of the last poll: no report goes out |
| RpcStatus.HeartbeatIsLastHeard | sources/core/src/service/hako_service_protocol_client.cpp:96-123 | over any calls the heartbeat is the time the client's last request was written or a packet it could use came, or 0 after a new run |
| RpcStatus.TimeoutIff | sources/core/src/service/hako_service_protocol_client.cpp:116-122 | a poll reports a timeout exactly if the client waits, is not cancelling, has nothing in its box, and has not heard of its request for longer than a positive limit |
| RpcStatus.LimitIsLastRequests | sources/core/src/service/hako_service_protocol_client.cpp:212-219 | the limit and the request header are those of the last request that was written, whatever else is called |
| RpcStatus.ProgressIsShown | sources/core/src/service/hako_service_protocol_client.cpp:140-149 | a progress packet shows its percentage if none was read before or the last one longer ago than the interval; it is taken, reports nothing, fills no buffer and the client goes on waiting |
| RpcStatus.ShownIsThisRuns | sources/core/src/service/hako_service_protocol_client.cpp:80-95 | no stale progress: after any calls, the percentage of a client that has noticed the run is 0 or came with a report written while this very run was Running |
| RpcStatus.IdRisesWithCompletion | sources/core/src/service/hako_service_protocol_client.cpp:126-139 | the request id rises by one with a completion, which ends the wait, and with nothing else |
| RecvEvents.RecvEventTable.Register | sources/core/src/hako_pro_data_recv_event.cpp:8-50 | appends one enabled entry with both flags down, or fails when the channel is invalid or the table full |
| RecvEvents.RecvEventTable.Update | sources/core/src/hako_pro_data_recv_event.cpp:51-91 | the first entry of the channel, whoever owns it, changes owner and loses its packet; nothing else changes |
| RecvEvents.RecvEventTable.GetRecvEvent | sources/core/src/hako_pro_data_recv_event.cpp:121-161 | the process's first entry on the channel decides: told and lowered if raised and not pending |
| RecvEvents.RecvEventTable.CallRecvEventCallbacks | sources/core/src/hako_pro_data_recv_event.cpp:162-209 | calls exactly the due callbacks of the process, in table order, and lowers exactly their flags |
| RecvEvents.RecvEventTable.SetPending | sources/core/src/hako_pro_data_recv_event.cpp:234-253 | sets the pending flag of an own entry, and of nothing else |
| RecvEvents.RecvEventTable.SetPendingOnChannel | sources/core/src/hako_pro_data_recv_event.cpp:255-286 | the same for the process's first entry on a channel |
| RecvEvents.RecvEventTable.OnPduDataBeforeWrite | sources/core/src/hako_pro_data.cpp:215-235 | a write is accepted if and only if no listener on the channel has an unread packet it does not hold back |
| RecvEvents.RecvEventTable.OnPduDataWrite | sources/core/src/hako_pro_data.cpp:182-213 | raises the flag of every listener on the channel and of no other entry |
| RecvEvents.RecvEventTable.ClearRunFlags | sources/core/src/hako_pro_data.cpp:77-95 | lowers both flags of every enabled entry and keeps every registration |
| RecvEvents.FirstOwn | sources/core/src/hako_pro_data_recv_event.cpp:135-144 | the entry found is the first of the process on the channel |
| RecvEvents.FirstAny | sources/core/src/hako_pro_data_recv_event.cpp:68-74 | the entry found is the first on the channel |
| RecvEventTheorems.AppendOnlyAll | sources/core/src/hako_pro_data_recv_event.cpp:31-49 | over any calls an entry is never removed, disabled or moved to another channel |
| RecvEventTheorems.FlagChanges | sources/core/src/hako_pro_data.cpp:182-235 | a flag changes only by an accepted write, a notification or a drop, and which of them is possible is decided by the flag |
| RecvEventTheorems.BroadcastConserves | sources/core/src/hako_pro_data.cpp:182-235 | for any number of listeners and any calls, a listener that never holds back has accepted writes = notifications + drops + the one waiting |
| RecvEventTheorems.FlagCountsUnseenWrites | sources/core/src/hako_pro_data_recv_event.cpp:234-286 | whatever is toggled, a packet waits if and only if one was accepted since the last notification or drop |
| RecvEventTheorems.TakeSucceedsOncePerBatch | sources/core/src/hako_pro_data_recv_event.cpp:121-161 | a take succeeds if and only if the entry is not pending and has an unseen write, and a second take fails |
| RecvEventTheorems.ListenersReadWhatWasWritten | sources/core/src/hako_pro_data.cpp:182-235 | over any calls, the packets accepted on a channel are, in order and byte for byte, those a never-pending listener was told of while they lay there, those dropped, and the one waiting |
| RecvEventTheorems.LastAcceptedStays | sources/core/src/hako_pro_data.cpp:215-235 | after any calls, refused writes included, a channel has the bytes of the last accepted write |
| RecvEventTheorems.SoleListenerIsMailbox | sources/core/src/hako_pro_data.cpp:182-235 | over any calls of any processes, a channel with one listener that does not hold back behaves as the one-packet mailbox the protocol relies on: same flag, same bytes, same refusals, same takes |
| RecvEventPauses.PendingIsLastAsked | sources/core/src/hako_pro_data_recv_event.cpp:234-286 | over any calls of any processes, a listener holds back exactly if the last call that addressed it, by its id or as the first of its process on the channel, asked for that and no clearing came after |
| RecvEventPauses.HeldBackIsNotTold | sources/core/src/hako_pro_data_recv_event.cpp:145-158 | a listener that was last asked to hold back is told of nothing, by takes or callbacks |
| RecvEventPauses.PauseAndResume | sources/core/src/hako_pro_data_recv_event.cpp:121-161 | from a pause to the matching resume nothing tells the listener; then the next take succeeds exactly if a packet waited before or came in meanwhile, and the one after that fails |
| RecvEventPauses.NewListenerIsTold | sources/core/src/hako_pro_data_recv_event.cpp:31-49 | after a registration and a write, a take of the registering process succeeds, and a callback is due exactly if it gave one |
| RecvEventPauses.TakeoverIsTold | sources/core/src/hako_pro_data_recv_event.cpp:68-89 | after an update the channel's first entry tells the new process and no other, by take or by its callback, as long as the entry does not hold back |
| RecvEventPauses.ClearedStartsFresh | sources/core/src/hako_pro_data.cpp:77-95 | clearing the table is clearing its entries one by one, in order; then every channel takes a write, nobody is told and nobody holds back |
| ServiceTable.Scan | sources/core/src/service/hako_pro_data_service.cpp:52-63 | the row found by a scan is enabled and has the name; none is missed |
| ServiceTable.ServiceRegistry.RebuildIndex | sources/core/include/hako_pro_data.hpp:249-262 | the rebuilt index maps every enabled name to its row |
| ServiceTable.ServiceRegistry.GetServiceId | sources/core/src/service/hako_pro_data_service.cpp:52-63 | answers from the index, rebuilding it on a miss only |
| ServiceTable.FindClient | sources/core/src/service/hako_pro_data_service.cpp:403-411 | the slot found is the first enabled one below the next id that has the name |
| ServiceTable.ServiceRegistry.CreateServiceClient | sources/core/src/service/hako_pro_data_service.cpp:350-473 | result, slots, index and receive events after creating a client: an empty table is loaded first, a known name gets its old slot, a new one the next, the channel is the one of the name the caller gave, and failure changes no slot and no event |
| ServiceTable.ServiceRegistry.SetServiceData | sources/core/src/service/hako_pro_data_service.cpp:150-201 | loading the table makes every configured row, frees all slots, sets their channel ids and rebuilds the index |
| ServiceTable.ServiceRegistry.CreateService | sources/core/src/service/hako_pro_data_service.cpp:205-257 | the table is loaded anew if the number of services differs and once more if the name is not found; then a server listens on the request channel of every slot in order; the first that cannot be had ends it with an error and leaves the earlier ones registered |
| ServiceCreation.KnownClientRejoins | sources/core/src/service/hako_pro_data_service.cpp:403-431 | a client of a known name gets its slot exactly if somebody listens on the slot's channel, whose first listener then belongs to its process; nothing else changes |
| ServiceCreation.NewClientJoins | sources/core/src/service/hako_pro_data_service.cpp:432-465 | a client of a new name is created exactly if a slot is left, its channel exists and the event table has room; it gets the next slot, under its name, and a new entry of its process on that channel |
| ServiceCreation.ClientComesBack | sources/core/src/service/hako_pro_data_service.cpp:397-431 | a client once created gets the same slot again, from any process and however full the tables are |
| ServiceCreation.NamesThatFit | sources/core/src/service/hako_pro_data_service.cpp:366-383 | names are neither empty nor longer than 128 for a service and 64 for a client |
| ServiceCreation.ServerListens | sources/core/src/service/hako_pro_data_service.cpp:239-255 | a server listens on the request channels slot by slot up to the first that does not exist or has no room; each slot served names its own new entry, and no other slot changes |
| ServiceCreation.ServerIsCreatedIff | sources/core/src/service/hako_pro_data_service.cpp:239-256 | a server is created exactly if every request channel of its service exists and the event table has room for all of them |
| ServiceCreation.ServiceIsFoundIff | sources/core/src/service/hako_pro_data_service.cpp:211-236 | the service is found exactly if there are fewer than 1024 and the configuration has the name, or the table has as many services as the configuration and the process's own lookup succeeds |
| ServiceCreation.LoadedSlots | sources/core/src/service/hako_pro_data_service.cpp:157-183 | a table loaded for the first time has the configured rows with free slots and alternating channel ids |
| ServiceTableTheorems.LookupAgreesIff | sources/core/src/service/hako_pro_data_service.cpp:52-63 | a lookup equals a scan of the shared table if and only if the cached row, if any, still has the name |
| ServiceTableTheorems.IndexAgrees | sources/core/src/service/hako_pro_data_service.cpp:52-63 | while no other process reloads the table and names stay distinct, every lookup equals the scan, rows added by other processes included |
| ServiceTableTheorems.IndexAgreesIff | sources/core/src/service/hako_pro_data_service.cpp:52-63 | over any operations, reloads by others included, lookup and scan agree on a name exactly if the last rebuild of the index did not find it, or found it where a scan finds it now |
| ServiceTableTheorems.ReloadLeavesStaleHit | sources/core/src/service/hako_pro_data_service.cpp:205-236 | a lookup here and a reload with another service elsewhere leave a lookup that finds a service the table no longer has |
| ServiceTableTheorems.StaleHitMixesServices | sources/core/src/service/hako_pro_data_service.cpp:384-467 | a client created through such a hit gets a slot of the other service and listens on the channel of the one it asked for |
| ServiceReloads.ServesAtOnceOrFreesAll | sources/core/src/service/hako_pro_data_service.cpp:211-236 | creating a server is registering on its request channels if the number of services is as configured and the name is found at once; otherwise no service has a client left, whether the server is created or not |
| ServiceReloads.ServesByLookup | sources/core/src/service/hako_pro_data_service.cpp:205-257 | a process whose index agrees with the table creates its server like that, through its own lookups |
| ServiceReloads.ReloadIsHarmlessIff | sources/core/src/service/hako_pro_data_service.cpp:150-201 | loading a table again from its own configuration keeps slots and listeners sound if and only if no slot was handed out |
| ServiceReloads.ReloadHandsOutAgain | sources/core/src/service/hako_pro_data_service.cpp:433-465 | after such a load the next client of a service in use gets slot 0 again, and both clients' entries listen on its channel |
| ServiceReloads.FirstClientFillsTable | sources/core/src/service/hako_pro_data_service.cpp:362-465 | a client on an empty table, for any configured service, gets slot 0 of that very service and an entry of its process on that slot's response channel |
| ServiceSlots.SlotsStaySound | sources/core/src/service/hako_pro_data_service.cpp:350-473 | over any creations of clients, of servers that find their service at once, and any other calls on the event table, service channels included, the enabled slots are those below the next id, which stays within the maximum, names are distinct and each handed-out response channel has exactly one entry registered for a client, the one its slot names |
| ServiceListeners.SoleClientListenerIff | sources/core/src/hako_pro_data_recv_event.cpp:8-50 | that entry is the only listener of the channel exactly if no application registered on it |
| ServiceListeners.ClientChannelIsMailbox | sources/core/src/hako_pro_data.cpp:182-235 | then, and as long as it is neither joined nor held back, the channel is the one-packet mailbox of the RPC protocol over any further calls |
| ServiceListeners.ApplicationSpoilsChannel | sources/core/src/hako_pro_data_recv_event.cpp:8-50 | on every service, one registration by an application after the first client has joined takes the sole listener away |
| ServiceListeners.SoleServerListenerIff | sources/core/src/service/hako_pro_data_service.cpp:239-255 | a request channel has one listener exactly if it was registered once, and a server's alone exactly if one server and no application registered |
| ServiceListeners.RejoinTakesOwnEntryIff | sources/core/src/hako_pro_data_recv_event.cpp:68-89 | a returning client takes over its own entry exactly if no application's entry for the channel stands in front of it |
| ServiceSlots.CreatesByLookup | sources/core/src/service/hako_pro_data_service.cpp:384-389 | a creation through an index that agrees with the table is the creation through a scan that these theorems speak of |
| ServiceSlots.CreateAnswersByName | sources/core/src/service/hako_pro_data_service.cpp:384-472 | through the process's own index, a known name gets its old id without a new receive event, a new one the next id and one event, and failure changes nothing |
| Toposort.EnterDependencies | launcher/hako_launch/model.py:136-140 | one asset's dependencies are entered in order, or the first unknown one is reported |
| Toposort.BuildGraph | launcher/hako_launch/model.py:131-140 | the graph of all assets, or a dependency that is no asset |
| Toposort.Release | launcher/hako_launch/model.py:148-151 | every successor's count goes down by its multiplicity, and exactly those that reach zero are queued, once and in the order of the edges |
| Toposort.InitialQueue | launcher/hako_launch/model.py:143 | the queue starts with the assets that wait for nothing, in the given order |
| Toposort.OrderExcludesCycles | launcher/hako_launch/model.py:153-154 | an order with dependencies first exists only if no dependencies form a cycle |
| Toposort.LeftoverHasCycle | launcher/hako_launch/model.py:153-154 | assets left over when the queue runs empty contain a real cycle |
| Toposort.ToposortAssets | launcher/hako_launch/model.py:125-156 | succeeds if and only if every dependency is known and there is no cycle; the result is a permutation with dependencies first, in which an asset whose last dependency comes earlier is earlier, assets that become ready together stand in the given order, and without dependencies it is the input |
| Launcher.HakoMonitor.Abort | launcher/hako_launch/hako_monitor.py:101-116 | the first abort terminates everything started, in reverse; later ones do nothing |
| Launcher.HakoMonitor.StartAll | launcher/hako_launch/hako_monitor.py:47-87 | starts a prefix of the order: an asset that dies in its grace period ends it with an abort, one that cannot be started, or whose wait is interrupted, ends it without |
| Launcher.HakoMonitor.WatchOnce | launcher/hako_launch/hako_monitor.py:89-99 | one dead process aborts everything, none changes nothing |
| Launcher.LauncherService.Activate | launcher/hako_launch/hako_launcher.py:33-47 | a new monitor after a termination, then the start; an exception leaves the state as it was |
| Launcher.LauncherService.Terminate | launcher/hako_launch/hako_launcher.py:72-80 | aborts the monitor when something is active and does nothing otherwise |
| Launcher.LauncherService.WatchOnce | launcher/hako_launch/hako_launcher.py:86-96 | one dead process aborts everything and ends the activation |
| Launcher.CallsStayOrderly | launcher/hako_launch/hako_launcher.py:33-101 | over any activations, terminations and watching in which no start raises after something was started, what was started is a prefix of the order and was terminated in reverse, once, or not at all |
| Launcher.TerminateReachesAllIff | launcher/hako_launch/hako_launcher.py:33-80 | over any calls, activations included, a terminate has then terminated everything any monitor ever started exactly if no activation stranded anything in a launcher already terminated, and some activation came up in case one stranded something before |
| Launcher.ActivatesTwice | launcher/hako_launch/hako_launcher.py:33-47 | after a first activation that strands assets the next one starts the same assets a second time; if it comes up, a terminate stops both, otherwise neither |
| Launcher.ReplacedMonitorIsLost | launcher/hako_launch/hako_launcher.py:38-42 | what an activation strands after a termination is in a monitor the next activation replaces; it is left running whatever is called then |
| Launcher.OrderedShutdown | launcher/hako_launch/hako_monitor.py:101-116 | whichever asset dies, in its grace period or later, as long as no start raises after something was started, the started assets are closed under dependencies, dependents are terminated before what they depend on, and nothing twice; a call in which one dies ends with everything terminated |
| Launcher.StartEnds | launcher/hako_launch/hako_monitor.py:55-87 | if the k-th asset is the first not to live, its dying terminates it and all before it in reverse; its raising or being interrupted terminates nothing and leaves what was started; if all live, all were started |
| Launcher.DeathStopsEverything | launcher/hako_launch/hako_monitor.py:79-116 | a death while starting, a dead process while up, or the user's terminate ends with everything started terminated in reverse, whatever was called before |
| Launcher.NothingElseStops | launcher/hako_launch/hako_monitor.py:79-99 | no other call terminates anything: a watch that finds all alive changes nothing |
| Launcher.OrderKeepsNamesDistinct | launcher/hako_launch/model.py:125-156 | what the ordering returns can be given to the monitor: its names are still distinct |
| EnvMerge.Expand | launcher/hako_launch/envmerge.py:20-42 | asset and time stamp replaced, then every variable reference in one pass; what comes in for one is not expanded again |
| EnvMerge.ExpandReferences | launcher/hako_launch/envmerge.py:30-41 | the index loop over the changing string computes the one-pass expansion of the original |
| EnvMerge.ExpandList | launcher/hako_launch/envmerge.py:44-46 | expands every value in order |
| EnvMerge.ApplyOps | launcher/hako_launch/envmerge.py:67-119 | unset, set, prepend in this order on a copy; any append is an error |
| EnvMerge.MergeEnv | launcher/hako_launch/envmerge.py:122-140 | defaults first and the asset's own operations on top; the first error ends it; `EnvMergeTheorems` says what that makes of every variable |
| EnvMerge.DefaultsTwiceIff | launcher/hako_launch/envmerge.py:122-140 | with templates in the values and several entries for one variable, as long as no value refers to a changed variable, applying the same operations twice equals once if and only if every list with something in front starts over, gets nothing or is exactly the one entry it gets |
| EnvMerge.SelfReferenceTwiceIff | launcher/hako_launch/envmerge.py:92-96 | setting a variable to a text that refers to that variable, applied twice, equals once exactly if the text is nothing but the reference |
| EnvMerge.ExpandEnvAgrees | launcher/hako_launch/envmerge.py:28-42 | an expansion depends on nothing but the variables the text refers to |
| EnvMerge.DefaultsTwiceSearchTheSame | launcher/hako_launch/envmerge.py:122-140 | even otherwise every list is searched in the same order |
| EnvMergeTheorems.LevelsInTurn | launcher/hako_launch/envmerge.py:122-140 | the defaults act on the launcher's environment and the asset's operations on what they leave, whatever the values refer to |
| EnvMergeTheorems.OperationsInTurn | launcher/hako_launch/envmerge.py:85-106 | what is unset goes first; then each set, and after them each prepend, works on what the ones before it left and expands its values in that |
| EnvMergeTheorems.AssetDecides | launcher/hako_launch/envmerge.py:122-140 | whatever the values refer to, where the asset puts nothing in front: what it sets has its value, a plain one as it stands; what it only unsets is absent; what it does not touch is as the defaults leave it |
| EnvMergeTheorems.MergeKeyByKey | launcher/hako_launch/envmerge.py:122-140 | as long as no value refers to a changed variable, every variable of the merged environment, by itself: what the asset's unset, last set and prepends make of what the defaults' make of the old value |
| EnvMergeTheorems.AssetWins | launcher/hako_launch/envmerge.py:122-140 | likewise, what the asset sets has the asset's value whatever the defaults do, what it unsets and nothing sets again is absent, what only the defaults set is theirs, and what neither touches stays |
| EnvMergeTheorems.AssetIsSearchedFirst | launcher/hako_launch/envmerge.py:98-106 | where neither level sets or unsets a list, the asset's entries are searched first, then the defaults', then the old ones |
| EnvMergeTheorems.LibraryPathIsPlatforms | launcher/hako_launch/envmerge.py:98-106 | what is put in front of `lib_path` goes in front of the platform's own variable and no other |
| EnvMergeTheorems.ReplaceSwaps | launcher/hako_launch/envmerge.py:24-27 | replacing swaps the new text in at every place of the pattern: the pieces between have the pattern nowhere in them and stay |
| EnvMergeTheorems.TemplatesFilled | launcher/hako_launch/envmerge.py:20-27 | the asset's name and the time stamp come in for their templates, and the asset's stays where there is no asset |
| EnvMergeTheorems.ReferenceExpands | launcher/hako_launch/envmerge.py:30-41 | a reference stands for the variable's value, or nothing; what follows is expanded, what came in is not |
| EnvMergeTheorems.NoReferenceNoChange | launcher/hako_launch/envmerge.py:31-37 | a text without references stays as it is, and so does one whose reference is not closed |
| PathLists.JoinSplit | launcher/hako_launch/envmerge.py:54-64 | joining what was split gives the list back |
| PathLists.SplitJoin | launcher/hako_launch/envmerge.py:54-64 | splitting a joined list gives the entries back, the last one split further |
| PathLists.FirstOfElements | launcher/hako_launch/envmerge.py:59-63 | the merged entries are exactly the non-empty new ones, without repetition |
| PathLists.FirstOfKeepsOrder | launcher/hako_launch/envmerge.py:59-63 | entries keep the order of their first occurrences |
| PathLists.JoinPathlike | launcher/hako_launch/envmerge.py:49-64 | both loops together join the first occurrences of base entries and items |
| PathLists.MergeSearchesBaseFirst | launcher/hako_launch/envmerge.py:49-64 | a merged list is searched along the base and then along the items |
| PathLists.MergeInSteps | launcher/hako_launch/envmerge.py:108-117 | merging items in two steps is merging them at once |
| PathLists.MergeTwice | launcher/hako_launch/envmerge.py:108-117 | merging the same separator-free items behind a list twice is merging them once |
| PathLists.InFrontSearchesItemsFirst | launcher/hako_launch/envmerge.py:99-106 | a list with items in front is searched along the items and then along the old list |
| PathLists.InFrontTwiceSearchesTheSame | launcher/hako_launch/envmerge.py:99-106 | items put in front twice are searched as if put once |
| PathLists.InFrontTwiceIff | launcher/hako_launch/envmerge.py:99-106 | putting items in front twice gives the same list if and only if there are none, or one that is already the whole list |
| PathLists.InFrontRepeats | launcher/hako_launch/envmerge.py:99-106 | an input on which the second time repeats the item |
| PathLists.InFrontAllTwiceIff | launcher/hako_launch/envmerge.py:98-106 | several entries for one variable put in front twice give the same list exactly under the condition for all their items in one |
| PathLists.InFrontAllTwiceSearchesTheSame | launcher/hako_launch/envmerge.py:98-106 | and are searched in the same order in any case |
| Scalars.IntRoundTrip | tools/hako.py:90-93 | a printed integer is read as itself |
| Scalars.UnescapedEscaped | tools/hako.py:84-86 | an escaped text is unescaped to itself, whatever characters it has |
| Scalars.UnescapedUnclosed | tools/hako.py:84-88 | escaped text without a closing quote is never a string |
| Scalars.ScalarRoundTrip | tools/hako.py:245-248 | whatever is printed for an integer, a truth value or a text is read as that value |
| ManifestLoader.StripComment | tools/hako.py:44-67 | the loop keeps everything up to a comment sign outside quotes, then strips trailing white space |
| ManifestLoader.LoadSimpleYaml | tools/hako.py:96-129 | the loop with its stack computes the model of loading, with the same error at the same line |
| ManifestLoader.NoTextHasInvalidIndentation | tools/hako.py:118-121 | for every text the stack keeps its root, so the error for invalid indentation cannot occur |
| ManifestLoader.LoadedKeysAreDistinct | tools/hako.py:122-128 | no loaded mapping has a key twice, at any depth |
| ManifestReading.CommentIsDropped | tools/hako.py:64-67 | a number sign outside quotation marks ends the line, whatever follows it but a tab |
| ManifestReading.QuotationIsKept | tools/hako.py:53-66 | between quotation marks it is kept, and the other mark closes nothing |
| ManifestReading.EntryIsRead | tools/hako.py:106-117 | behind any number of spaces, the key is what stands before the first colon without white space around it, and the scalar what stands behind it |
| ManifestReading.LineIsCut | tools/hako.py:100 | a text is cut at the first of ten boundaries, a carriage return and a line feed counting as one, and what follows is cut on its own |
| ManifestReading.CleanIff | tools/hako.py:245-248 | the texts that survive printing are those without U+0085, U+2028 and U+2029 |
| ManifestReading.BadLines | tools/hako.py:108-117 | a list item, a line without colon and one without key are refused, each with its own error |
| ManifestReading.TabIsRefused | tools/hako.py:101-102 | a tab anywhere, in a comment too, refuses the line |
| ManifestReading.SingleQuotedIsText | tools/hako.py:81-89 | between single quotation marks, with its own marks doubled, every text is read as itself |
| ManifestReading.UnclosedIsRefused | tools/hako.py:81-83 | a scalar that begins with a quotation mark and does not end with the same one is an error |
| ManifestReading.PlainWordIsText | tools/hako.py:74-93 | a word that is no truth value and not null is a text |
| ManifestReading.WordsAreValues | tools/hako.py:74-80 | truth values and null are read whatever their capitals |
| ManifestReading.NumberIsRead | tools/hako.py:90-93 | digits are a number, with a sign or without |
| ManifestReading.UnderscoreIsSkipped | tools/hako.py:90-93 | a single underscore between digits changes nothing |
| ManifestReading.NoNumber | tools/hako.py:90-93 | an underscore anywhere else, two of them, or a sign without digits make no number |
| ManifestReading.CodeIsRead | tools/hako.py:84-86 | a character written with four hexadecimal digits is read as that character, and refused if it is a surrogate |
| ManifestReading.OtherEscapes | tools/hako.py:245-248 | a control character without an escape of its own is printed by its number in two digits, and every other character as it stands |
| ManifestReading.NothingOpensMapping | tools/hako.py:71-73 | nothing but white space opens a mapping |
| ManifestPrinter.DocumentAdvances | tools/hako.py:100-128 | reading the printed lines of a document leaves its mapping extended by exactly its entries, whatever was open before |
| ManifestRoundTrip.CleanLoads | tools/hako.py:96-129 | a document without unquotable line boundaries loads as what it means |
| ManifestRoundTrip.UncleanFails | tools/hako.py:81-88 | one text with such a boundary makes the document unloadable |
| ManifestRoundTrip.DocumentRoundTrip | tools/hako.py:96-129 | both directions for every well-formed document of any depth |
| ResolvedManifest.RenderResolvedManifest | tools/hako.py:251-292 | the appended lines are the text of the resolved document, which `ManifestSaysConfiguration` ties to the configuration |
| ResolvedManifest.ResolvedManifestRoundTrip | tools/hako.py:251-292 | the resolved manifest loads as every limit, flag and text it was printed from if no text has U+0085, U+2028 or U+2029, and does not load otherwise |
| ResolvedManifest.ManifestSaysConfiguration | tools/hako.py:251-292 | read from the configuration itself, name by name: every limit loads with its own value in its place, every flag under its own key, each of the eight pieces of metadata or "unknown"; it fails to load exactly if one of the texts printed has one of the three boundaries |
| AssetTime.AssetInstance.Execute | sources/assets/callback/src/hako_asset_impl.cpp:513-562 | one step is made only if running, created, in simulation mode and not ahead of world time; time moves by one delta after the callback |
| AssetTime.AssetInstance.WaitForEvent | sources/assets/callback/src/hako_asset_impl.cpp:435-483 | waits for the event, resets time on a reset, and gives up on a force stop or an unknown event |
| AssetTime.AssetInstance.StepOnce | sources/assets/callback/src/hako_asset_impl.cpp:582-612 | repeats until a step is made, or goes through stop and reset once the simulation has left Running |
| AssetTime.AssetInstance.Step | sources/assets/callback/src/hako_asset_impl.cpp:615-628 | steps until the target time, or ends with the first failure |
| AssetTime.AssetInstance.UsleepNoWait | sources/assets/callback/src/hako_asset.cpp:266-283 | turns the sleep into steps; an external user returns at once |
| AssetTime.StepCountIsCeiling | sources/assets/callback/src/hako_asset.cpp:272-278 | the number of steps is the least that covers the sleep, and one for no sleep |
| AssetTime.UsleepFollowsWorldTime | sources/assets/callback/src/hako_asset.cpp:266-283 | a successful sleep advances time by exactly that many deltas, runs the callback at each of them and does not pass world time; a failed one is a force stop, an unknown event or a reset to time 0 |
| AssetTime.NeverAheadOfWorldTime | sources/assets/callback/src/hako_asset_impl.cpp:536-540 | with world time never going back, the asset is never ahead of it |
| AssetTime.KeepsUpWithWorldTime | sources/assets/callback/src/hako_asset_impl.cpp:615-628 | while world time keeps ahead of a running asset every attempt makes a step, so the sleep succeeds |
| AssetTime.StepEndsAt | sources/assets/callback/src/hako_asset_impl.cpp:513-613 | a step is made at the first answer that finds the simulation running, the channels there, no sync mode, simulation mode and world time a delta ahead; before that a force stop ends it, or a simulation that has stopped running |
| AssetTime.WaitEndsAt | sources/assets/callback/src/hako_asset_impl.cpp:435-483 | a wait ends at the first answer that is a force stop, unknown or the event waited for, a force stop going before the others; a reset on the way takes the time to 0 |
| AssetTime.StopsThenResets | sources/assets/callback/src/hako_asset_impl.cpp:590-607 | once the simulation has left Running, the asset waits for Stop and then for Reset, and is at time 0 |
| Recovery.SortIsStable | sources/command/src/runtime_recovery.cpp:100-110 | the order is a sorted, stable permutation |
| Recovery.SortedByName | sources/command/src/runtime_recovery.cpp:100-110 | files that are no lock files come in the order of their names, by the first difference, and `flock.bin` behind them |
| Recovery.RemoveKnownRuntimeFiles | sources/command/src/runtime_recovery.cpp:95-132 | removed ++ remaining is the sorted list, nothing is tried after the first failure, and that failure is the one reported |
| Recovery.EvidenceGoesLast | sources/command/src/runtime_recovery.cpp:103-110 | `flock.bin` is tried only when every other known file is gone, and stays as long as anything is left |

## Left out

- ServiceServer.ServiceServerProtocol.PollOnce: one API call is one step; the code lowers the flag and reads the packet in two operations (sources/core/src/service/hako_pro_data_service.cpp:289-300).
- ServiceServer.ServiceServerProtocol.SendReply: writing a packet is one operation here; the refusal check, the copy and the announcement happen under the channel lock in hakoniwa-core-cpp, which is not part of this model. Packets are a header and opaque bytes and always decode.
- ServiceTable.ServiceRegistry.SetServiceData: configured names are shorter than the maximum, at which the code would leave the rest of the table as it was; rows behind the last one remember nothing of an earlier, longer table.
- ServiceTable.ServiceRegistry.CreateServiceClient: the terminator that a name of exactly the maximum length writes behind its field is not modelled.
- ServiceSlots.SlotsStaySound: stated for calls that do not load the table anew; `ServiceReloads` says when they do and what becomes of the slots then.
- Toposort.ToposortAssets: asset names are distinct; with a name given twice the code would return the last asset of that name for both.
- EnvMerge.DefaultsTwiceIff: stated for values that do not refer to a variable the operations unset, set or put something in front of; for such values only `EnvMerge.SelfReferenceTwiceIff` is shown.
- AssetTime.AssetInstance.StepOnce: a loop whose answers run out ends as Pending; the receive callbacks an execution triggers are those of `RecvEvents`.
- Recovery.SortIsStable: the library's stable sort is modelled by insertion sort, which is the one result a stable sort can have.
- ManifestLoader.LoadSimpleYaml: the code fills dictionaries that are already entered in their parents; here a mapping is entered when it is complete. Surrogate escapes, integers of non-ASCII digits and the length limit on integers are not modelled.
- Launcher.LauncherService.Activate: one step; the watcher it starts can abort before the state becomes active, and the state then stays active with everything stopped.
- Progress polling and a second request while one is in progress are steps of the model but outside the delivery theorems.
- `cancel_done`, which no API calls; the integer width of the heartbeat time; wrap-around of the run generation; replacing a client object by creating it again.
- JSON configuration, PDU encoding, C API guards and the Python binding: nothing to prove.
- Starting, killing and signalling processes; `abort`'s second round that kills survivors; the start, stop and reset commands of an active launcher.
- The checks in front of the recovery deletion, file access, and the terminal and installer tools.
