# TSymbiote: a verified model

TSymbiote runs an adapter beside every Tailscale node, a web UI that talks to all adapters, a page in
the browser, and an operator that injects the credentials. This project models the parts of it in which
something can go wrong between two pieces of code, and proves what those parts keep, deliver and lose.
`dafny verify dfyconfig.toml` checks everything.

## What is modelled

* **The streaming hub** (`Hub`, `HubInvariants`, `HubTheorems`, `HubCauses`, `SharedHub`). One reader per adapter,
  one client reader, one writer and any number of background pings share two buffered channels, a map and
  two cancellation contexts. `Hub` is the transition system, one event per atomic step; `SharedHub` is the
  imperative code of each goroutine, proved to take exactly those steps. Targets may repeat: readers are
  identified by position, not by host.
* **The adapter's stream** (`AdapterStream`): a producer and a writer around an unbuffered channel, with the
  scanner's reused buffer made explicit.
* **The collectors** (`FanOut`, `Handlers`, `PeerMap`): fan-out to one worker per input and ordered
  collection, over every schedule, refining the sequential map.
* **The two-way indexes** (`PeerIndex`, `PeerAddresses`), with interleaved accesses to the two maps.
* **Ping planning** (`Graph`, `PingPlan`): from graph and selection to pairs, grouped request, server loops,
  replies and their filing on the page.
* **Text** (`Strings`, `Chars`, `GoroutineText`, `Highlight`, `JsonTokens`): the goroutine parser and printer,
  the two HTML highlighters, and the JSON highlighter on serialised values.
* **The page** (`StreamTimer`, `StreamTheorems`, `StreamEffects`, `Selection`): the stream hook with its timer and
  sockets, and the selection with its effects.
* **Hub to page** (`EndToEnd`): what a host's pane shows is what the hub read from that host's adapter.
* **The WebSocket manager** (`Drain`, `HubDrain`): its wait group and shutdown, joined with a stream or a hub.
* **Injection** (`Injection`): the admission webhook and the secrets controller.
* **Middleware** (`Middleware`): the backward fold against an in-order interpreter.

Where the source changes state the model does too: classes whose methods are proved against a specification
function on values, about which the theorems are stated. Every theorem is over all inputs, runs or reachable
states. Where an expected property fails, an input is given and the condition under which it holds is proved, in
both directions; the exceptions are listed under "Left out".

## Where the code does not do what one might expect

* The writer sends the notice of a dead adapter to the channel it alone drains (`websocket.go:267`). When the
  channel is full it blocks for ever, and with it the drain at shutdown: `BlockedIffSelfSendOnFull`,
  `BlockedNeverDrains`, `WriterCanBlockIff`.
* The last notice before "no more adapters" is never sent, if there was one: `LastNoticeNeverSent`.
* A failed background ping can use up the room reserved for the readers' reports: `ReportCanBlock`; exactly when a
  report, a frame or a pong is stuck: `ReportStuckIff`, `SendStuckIff`, `PongStuckIff`. Goroutines none of which is
  stuck alone may still not all return, and exactly when they can: `ShortageCanBeJoint`, `HubShutdownIff`.
* When one host cannot be dialled the connections already made, and the client's, stay open: `RelativeWebsocket`.
* A pass-through worker sends twice when the answer cannot be decoded, and the second send hits a closed
  channel: `RelativeJsonPanicsIff`.
* A log line is handed over in the scanner's own buffer, which even the call that ends the input may reuse:
  `LogLineTorn`, `HeldLineSafeIff`, `LogsIntactIff`. A producer is left in its send when the writer stops first, and
  the shutdown then fails: `ShutdownCanAbandon`, `StreamShutdownIff`.
* A DNS reply keeps its host tag only while the adapter's answer names no other host: `DnsRepliesTagged`.
* A profile whose file cannot be written is reported as a success: `CollectProfiles`, `ProfileFilesExact`.
* Edge ids can coincide: `ArrowNamesCollide`, `SourcesClashIff`.
* Forgetting a host's former adapter forgets the host's new one: `StaleDeleteForgetsHost`,
  `CommuteIff`.
* With several peers of one host name a name finds whichever came last in an unordered map: `OrderFreeIff`.
* A load that meets a node without data has already replaced the hosts and their selection: `SelectionPage.Load`.
* Trimming a stack can create a line that looks like another goroutine: `TrimCreatesAGoroutine`.
* The web UI's secret reference goes to the first container, whichever matched: `WebUIHandshakeIff`,
  `WebUINotFirst`. A secret can hold a key of another pod's role: `RoleIff`.
* A prebaked handler's status is not logged: `SimpleHandlersLog200`.
* Starting a stream while another is connecting leaves that socket to live on, and a late close event of an
  old socket stops a new stream: `CancelClosesIffOpen`, `LateCloseStopsNewStream`, `StreamSurvivesIff`.
* Changing "hide offline" selects all reachable targets again: `HideOfflineReselectsAll`. A host that is
  deselected and selected again has lost its own targets: `ToggleHostTwice`.

## Assumptions

* Calls into Tailscale, Kubernetes, sockets and HTTP succeed or fail with arbitrary data; these answers are
  parameters or events.
* The JSON encoder is a function of host and body that may fail; all that is used of it is that an envelope
  starts with `{`. `EndToEnd` additionally assumes that the page's decoder undoes it.
* The order in which a Go map is ranged over is a parameter. JavaScript sets and maps iterate in insertion order.
* State changes of one handler are rendered together (React 19), and effects run in the order they are declared.
* Timers are exact: time does not pass a due moment before the timer fires, and the clock is positive.
* Controller reads are consistent.
* Of the character classes of regular expressions, the ASCII part and the whitespace and line terminators of
  `Chars` are modelled.

## Model

| member | source | states |
|---|---|---|
| `HubInvariants.QueueStep` | api/webui/tsymbiotewebui/websocket.go:118-294 | Every step of every goroutine leaves the message queue alone or appends one message at its end: `msg` is first in, first out. |
| `HubInvariants.FifoStep` | api/webui/tsymbiotewebui/websocket.go:118-154 | Each step keeps, for every reader, the equation frames read = frames taken out, then queued, then the one being sent. |
| `HubInvariants.TokensStep` | api/webui/tsymbiotewebui/websocket.go:127-133 | Each step keeps every death token tied to a failure that was seen: a read error of that reader, or a failed ping of that host. |
| `HubInvariants.OrderedStep` | api/webui/tsymbiotewebui/websocket.go:127-150 | Each step keeps: behind the notice of a failed reader no frame of that reader is queued, and every notice has its token. |
| `HubInvariants.LivingStep` | api/webui/tsymbiotewebui/websocket.go:247-248 | Each step keeps the living adapters equal to the initial ones minus the hosts whose token was received. |
| `HubInvariants.AccountedStep` | api/webui/tsymbiotewebui/websocket.go:247-269 | Each step keeps the queued notices equal, in order, to the tokens received whose notice can be marshalled. |
| `HubInvariants.LeavingStep` | api/webui/tsymbiotewebui/websocket.go:287-291 | Each step keeps: the exit for want of adapters happens only when none is living, and when none is living the writer is on its way out with a notice still untaken, unless the last token received could not be announced. |
| `HubInvariants.DistinctStep` | api/webui/tsymbiotewebui/websocket.go:127-133 | Each step keeps at most one read-failure token per reader in `dead`. |
| `HubInvariants.NoPingStep` | api/webui/tsymbiotewebui/websocket.go:135-150 | Each step keeps the literal text `ping` out of every message held, queued or written. |
| `HubInvariants.PongCountStep` | api/webui/tsymbiotewebui/websocket.go:181-187 | Each step keeps pongs queued so far plus at most one pending equal to client pings read. |
| `HubInvariants.DeliveryStep` | api/webui/tsymbiotewebui/websocket.go:269-285 | Each step keeps messages taken out = messages written + failed writes + the one in flight, and the same messages in the same order while no write failed. |
| `HubInvariants.InvInit` | api/webui/tsymbiotewebui/websocket.go:58-115 | The state set up by the handler satisfies all invariants, for any non-empty list of targets, repeated or not. |
| `HubInvariants.InvRun` | api/webui/tsymbiotewebui/websocket.go:118-294 | All invariants hold after every run, for any number of adapters and any interleaving. |
| `HubTheorems.NothingLostOrReordered` | api/webui/tsymbiotewebui/websocket.go:118-154 | In every reachable state, for every reader: envelopes of the frames read = those taken out, then those in `msg`, then the one it is blocked sending. |
| `HubTheorems.ClientSeesPrefix` | api/webui/tsymbiotewebui/websocket.go:269-285 | While no write failed, the client was sent exactly what was taken out, so it sees a prefix of each adapter's stream. |
| `HubTheorems.NoticeFollowsAllFrames` | api/webui/tsymbiotewebui/websocket.go:127-150 | When the writer has taken the notice that a reader failed, it had already taken every frame that reader ever read. |
| `HubTheorems.PingsAnsweredOnce` | api/webui/tsymbiotewebui/websocket.go:181-187 | In every reachable state the rewrite of a queued `ping` changes nothing, and each client ping has one pong queued or pending. |
| `HubTheorems.LivingIsExact` | api/webui/tsymbiotewebui/websocket.go:216-248 | The living map is exactly the initial keys minus hosts with a received token, and such hosts did fail. |
| `HubTheorems.NoAdaptersMeansAllFailed` | api/webui/tsymbiotewebui/websocket.go:287-291 | The client is closed for want of adapters only after every target failed. |
| `HubTheorems.LastNoticeNeverSent` | api/webui/tsymbiotewebui/websocket.go:247-291 | After that exit, in any continuation, the notices taken are the first of those owed, and some is left if and only if the one queued last is, which it always is when the last token received could be announced. |
| `HubTheorems.BlockedIffSelfSendOnFull` | api/webui/tsymbiotewebui/websocket.go:218-285 | In every reachable state the writer, not having returned, is blocked if and only if it is at its own send to `msg` and `msg` is full. |
| `HubTheorems.JamIsPermanent` | api/webui/tsymbiotewebui/websocket.go:59 | A full `msg` whose consumer is at the self-send or gone never changes again, and everyone sending to it stays where they are. |
| `HubTheorems.BlockedNeverDrains` | api/webui/tsymbiotewebui/websocket.go:267 | After the writer blocks, it stays blocked in every continuation and the connection never drains, shutdown or not. |
| `HubTheorems.WriterCanBlock` | api/webui/tsymbiotewebui/websocket.go:267 | For every configuration and target whose notice can be marshalled there is a run that blocks the writer. |
| `HubTheorems.WriterCanBlockIff` | api/webui/tsymbiotewebui/websocket.go:247-267 | The writer can block for ever if and only if some target's notice can be marshalled. |
| `HubTheorems.ReportNeverBlocks` | api/webui/tsymbiotewebui/websocket.go:127-133 | While no ping write has failed, a reader reporting its failure always finds room in `dead`, even after the writer has returned. |
| `HubTheorems.ReportCanBlock` | api/webui/tsymbiotewebui/websocket.go:229-248 | With failed pings that bound is lost: for every configuration and reader some run leaves that reader reporting for ever, so the connection never drains. |
| `HubTheorems.ReportBlockedForEver` | api/webui/tsymbiotewebui/websocket.go:131 | A reader reporting to a full `dead` from which the writer will not receive again (it returned, is blocked at its own send, or none is living and its next check ends it) stays there in every continuation. |
| `HubTheorems.ReportStuckIff` | api/webui/tsymbiotewebui/websocket.go:127-133 | In every reachable state a reporting reader stays so in all continuations if and only if `dead` is full and abandoned in one of these three ways. |
| `HubTheorems.SendBlockedForEver` | api/webui/tsymbiotewebui/websocket.go:146-150 | Whoever sends to a full `msg` from which the writer will not receive again sends for ever. |
| `HubTheorems.SendStuckIff` | api/webui/tsymbiotewebui/websocket.go:146-150 | In every reachable state a reader handing on a frame stays so in all continuations if and only if `msg` is full and the writer has returned, is at its own send, or is about to leave for want of adapters. |
| `HubTheorems.PongStuckIff` | api/webui/tsymbiotewebui/websocket.go:181-187 | The same for the client reader answering a ping. |
| `HubCauses.RunSays` | api/webui/tsymbiotewebui/websocket.go:118-294 | In every run the client is given up exactly after a failed read from it or a failed write to it, a reader has failed exactly after a failed read, and the pings counted are the literal text pings the client sent. |
| `HubCauses.ReadsAreKept` | api/webui/tsymbiotewebui/websocket.go:122-138 | What a reader is recorded to have read are the frames of its successful reads, in order. |
| `HubCauses.NobodyStopsWithoutCause` | api/webui/tsymbiotewebui/websocket.go:118-294 | In every reachable state the client reader stops only on shutdown or when the client is given up, which a failed read or write of the client causes; the writer returns only for its reason; a reader stops only on shutdown or after its own failure, and no failure is kept quiet. |
| `HubCauses.ReadsEnd` | api/webui/tsymbiotewebui/websocket.go:122-179 | Once the server shuts down a reader finishes at most the read it is in; so does the client reader, which also stops once the client is given up. |
| `HubCauses.LiteralPingsGetLiteralPongs` | api/webui/tsymbiotewebui/websocket.go:180-187 | Each literal text ping of the client is answered by one text `pong`, nothing else it sends is, and every notice is the marshalled text that its host's websocket closed. |
| `HubCauses.TickPingsTheLiving` | api/webui/tsymbiotewebui/websocket.go:229-245 | A tick starts exactly one ping for each living adapter. |
| `HubCauses.PingsReportedOnce` | api/webui/tsymbiotewebui/websocket.go:234-242 | Over every run no ping is reported twice, and none that has not finished has been reported. |
| `HubCauses.LastActWithoutAdapters` | api/webui/tsymbiotewebui/websocket.go:287-291 | With no adapter living, a tick, a successful write and a queued notice are each the last thing the writer does. |
| `SharedHub.Channels.constructor` | api/webui/tsymbiotewebui/websocket.go:58-65 | Sets up the channels, the map and the goroutines as the initial state of the transition system. |
| `SharedHub.Channels.AdapterReader` | api/webui/tsymbiotewebui/websocket.go:118-154 | One turn of an adapter reader is exactly the enabled step of the transition system for where it stands, or nothing when it is blocked. |
| `SharedHub.Channels.ClientReader` | api/webui/tsymbiotewebui/websocket.go:156-191 | One turn of the client reader is exactly its enabled step, or nothing when it is blocked. |
| `SharedHub.Channels.PollShutdown` | api/webui/tsymbiotewebui/websocket.go:122-126 | The adapter reader stops at a shutdown, and reads otherwise. |
| `SharedHub.Channels.ReadAdapter` | api/webui/tsymbiotewebui/websocket.go:127-145 | A failed read makes the reader report its target, a frame is wrapped or, if it cannot be marshalled, skipped. |
| `SharedHub.Channels.SendFrame` | api/webui/tsymbiotewebui/websocket.go:146-150 | The reader's envelope goes to the end of `msg`. |
| `SharedHub.Channels.ReportDeath` | api/webui/tsymbiotewebui/websocket.go:131 | The reader's target goes to the end of `dead` and the reader returns. |
| `SharedHub.Channels.ReadClient` | api/webui/tsymbiotewebui/websocket.go:172-187 | A failed read stops the client reader and gives the client up; of what is read only the text `ping` is answered. |
| `SharedHub.Channels.SendPong` | api/webui/tsymbiotewebui/websocket.go:183-186 | The pong goes to the end of `msg`. |
| `SharedHub.Channels.RemoveAdapter` | api/webui/tsymbiotewebui/websocket.go:247-248 | Takes the oldest token and removes its host from the living adapters. |
| `SharedHub.Channels.Announce` | api/webui/tsymbiotewebui/websocket.go:250-267 | Prepares the notice, or goes back to the `select` when it cannot be marshalled. |
| `SharedHub.Channels.ClientWriter` | api/webui/tsymbiotewebui/websocket.go:193-294 | One turn of the writer is exactly its enabled step, or nothing when it is blocked. |
| `SharedHub.Channels.Select` | api/webui/tsymbiotewebui/websocket.go:219-271 | The case the `select` commits to can be taken exactly when it is ready, and then does that case's step. |
| `SharedHub.Channels.SpawnPings` | api/webui/tsymbiotewebui/websocket.go:231-245 | The loop starts one background ping per living adapter, in the order the map is ranged over. |
| `SharedHub.Channels.TakeToken` | api/webui/tsymbiotewebui/websocket.go:247-267 | Receiving a token removes its host and prepares its notice, or nothing when it cannot be marshalled. |
| `SharedHub.Channels.TakeMessage` | api/webui/tsymbiotewebui/websocket.go:269-274 | Receiving a message takes the oldest one. |
| `SharedHub.Channels.FinishWrite` | api/webui/tsymbiotewebui/websocket.go:277-291 | A failed write gives the client up and skips the check for living adapters; a good one leads to it. |
| `SharedHub.Channels.Requeue` | api/webui/tsymbiotewebui/websocket.go:267 | The writer's own send puts the notice at the end of `msg`. |
| `SharedHub.Channels.CheckLiving` | api/webui/tsymbiotewebui/websocket.go:287-291 | The writer leaves exactly when no adapter is living. |
| `SharedHub.Channels.Pinger` | api/webui/tsymbiotewebui/websocket.go:234-243 | A background ping reports its host to `dead` exactly when its write failed and there is room. |
| `SharedHub.Drive` | api/webui/tsymbiotewebui/websocket.go:110-115 | Any schedule of the goroutines' turns is a run of the transition system, so everything proved of runs holds of the code. |
| `SharedHub.RelativeWebsocket` | api/webui/tsymbiotewebui/websocket.go:20-116 | The handler dials the listed hosts in order up to the first that cannot be dialled; the hub starts, in its initial state, if and only if there is none, and otherwise the connections dialled so far stay open. |
| `EndToEnd.GenuineStep` | api/webui/tsymbiotewebui/websocket.go:135-150 | Each step keeps every message in the hub an envelope of its sender's frame, the pong, or the notice of a target. |
| `EndToEnd.OnlyOwnMessages` | api/webui/tsymbiotewebui/websocket.go:135-150 | Messages of other hosts contribute nothing to a host's pane, when the targets are distinct. |
| `EndToEnd.PageShowsFramesInOrder` | web-ui/src/hooks/useWebSocketLogs.ts:188-221 | Hub and page together: in any reachable hub state without a failed write, after any run of one connection that heard some first part of what was written, a host's pane shows exactly the text of the first n frames its reader read, until that host's notice. |
| `AdapterStream.ReceivesInOrder` | api/adapter/internal/websocket.go:12-34 | In every run messages received = messages produced but for one being handed over, in order, and one written per received but for one held or one failed. |
| `AdapterStream.AbandonedForEver` | api/adapter/internal/websocket.go:12-34 | Once the writer has returned while the producer offers a message, that message is offered for ever and the stream never drains. |
| `AdapterStream.ShutdownCanAbandon` | api/adapter/internal/websocket.go:15-19 | For any message some run of three steps abandons it: produced, shutdown, writer stops. |
| `AdapterStream.Session.Rendezvous` | api/adapter/internal/websocket.go:23 | The unbuffered send and receive happen together: the writer holds what the producer offered. |
| `AdapterStream.Session.StopWriter` | api/adapter/internal/websocket.go:15-22 | The writer can stop exactly when the server shuts down or the socket is dead. |
| `AdapterStream.Session.WriteHeld` | api/adapter/internal/websocket.go:23-30 | Writes what the held bytes show now; a failed write ends the writer. |
| `AdapterStream.Session.ReadSocket` | api/adapter/internal/websocket.go:36-60 | The reader polls both contexts, reads, and announces the socket's death when a read fails. |
| `AdapterStream.EventsWrittenIntact` | api/adapter/tsymbioteadapter/busevents.go:32-49 | In every run the bus events written and held are, byte for byte, a prefix of those produced. |
| `AdapterStream.LogsWrittenIntact` | api/adapter/tsymbioteadapter/logs.go:36-44 | The same for log lines in every run in which the scanner does not reuse its buffer while the writer holds a line that is not empty. A call that is still looking for its line, or that ends the input, reuses the buffer too. |
| `AdapterStream.LogsIntactIff` | api/adapter/tsymbioteadapter/logs.go:36-44 | A schedule writes every line as it was handed over, whatever the scanner reads into its buffer, if and only if it never reuses the buffer while a line that is not empty is held. |
| `AdapterStream.HeldLineSafeIff` | api/adapter/tsymbioteadapter/logs.go:39-43 | A held line shows what was handed over until it is written, in every continuation, if and only if the scanner is not looking for the next line or the held one is empty. |
| `AdapterStream.LogLineTorn` | api/adapter/tsymbioteadapter/logs.go:39-43 | The input: from every state with a line handed over and the scanner looking for the next, some continuation writes any other bytes of its length, whether the scanner finds another line or ends. |
| `AdapterStream.Session.RefillBuffer` | api/adapter/tsymbioteadapter/logs.go:39 | Reusing the buffer changes what a message still held shows, unless the producer copies, and nothing else. |
| `AdapterStream.Session.ProduceNext` | api/adapter/tsymbioteadapter/logs.go:39-43 | The producer offers the next message or ends; what the writer holds stays as it is. |
| `AdapterStream.Drive` | api/adapter/internal/websocket.go:12-60 | Any schedule of the goroutines' turns is a run, so everything proved of runs holds of the code. |
| `AdapterStream.DrainsIffNotAbandoned` | api/shared/tsymbiote/websocket.go:45-72 | From every state of a stream its goroutines can still all return if and only if no message is offered to a writer that has returned. |
| `AdapterStream.RunSays` | api/adapter/internal/websocket.go:12-60 | In every run the socket is dead exactly after a failed read, and what was produced are the messages made, in order. |
| `AdapterStream.ReadsEnd` | api/adapter/internal/websocket.go:41-57 | Once the socket is dead or the server shuts down, the reader finishes at most the read it is in. |
| `AdapterStream.NobodyStopsWithoutCause` | api/adapter/internal/websocket.go:12-60 | Over every run the reader stops only on shutdown or at a failed read, which makes the socket dead, and the writer only on shutdown, on a dead socket or at a failed write. |
| `AdapterStream.DeadSocketEndsStream` | api/adapter/internal/websocket.go:20-22 | A dead socket is enough to end a stream, unless a message is offered to a writer that has returned: no shutdown is needed. |
| `Drain.Manager.RunWSFunc` | api/shared/tsymbiote/websocket.go:45-50 | Counts one more running function. |
| `Drain.Manager.FuncReturned` | api/shared/tsymbiote/websocket.go:45-50 | Counts one less. |
| `Drain.Manager.CallShutdown` | api/shared/tsymbiote/websocket.go:53-61 | The call starts the waiting goroutine; what runs is unchanged. |
| `Drain.Manager.Waiter` | api/shared/tsymbiote/websocket.go:57-61 | The waiting goroutine closes the channel exactly when a shutdown was called and nothing runs. |
| `Drain.Manager.Select` | api/shared/tsymbiote/websocket.go:63-70 | The shutdown returns exactly when the channel is closed or the grace period is over, with the result of the case it takes. |
| `Drain.Drive` | api/shared/tsymbiote/websocket.go:45-72 | Any schedule of calls, returns, the waiting goroutine, the end of the grace period and the select is a run of the manager, so what is proved of runs holds of the code. |
| `Drain.RunSays` | api/shared/tsymbiote/websocket.go:45-72 | In every run the count is the functions started less those returned, and the other fields say which steps there have been. |
| `Drain.ResultIsEarned` | api/shared/tsymbiote/websocket.go:53-72 | In every run success means that no function was running at some moment since the call, failure that the grace period ended. |
| `Drain.SeenIsARun` | api/shared/tsymbiote/websocket.go:45-72 | What the manager sees of a run together with the goroutines it counts, its own steps and one return at a time, is a run of the manager and leaves it in the same state. |
| `Drain.SuccessMeansGone` | api/shared/tsymbiote/websocket.go:53-72 | A shutdown that succeeds leaves nobody behind: in every continuation all goroutines of the group have returned. |
| `Drain.TrapNeverSucceeds` | api/shared/tsymbiote/websocket.go:53-72 | A shutdown never succeeds once what it waits for is in a set of states that no step leaves and in which some goroutine is alive. |
| `Drain.StreamReturnsOneByOne` | api/shared/tsymbiote/websocket.go:45-50 | Each step of a stream is no return of its three goroutines or one. |
| `Drain.StreamShutdownIff` | api/shared/tsymbiote/websocket.go:53-72 | Manager and stream together, from every state of the two: a waiting shutdown can still succeed if and only if no message is offered to a writer that has returned. |
| `HubDrain.HubReturnsOneByOne` | api/webui/tsymbiotewebui/websocket.go:118-294 | Each step of a hub is no return of a reader, the client reader or the writer, or one. |
| `HubDrain.UnfitStep` | api/webui/tsymbiotewebui/websocket.go:118-294 | What does not fit never will: no step of anybody makes the demands on the two channels fit. |
| `HubDrain.FitAdvances` | api/webui/tsymbiotewebui/websocket.go:118-294 | What fits can go on: unless all have returned, some step leads towards it after which everything still fits. |
| `HubDrain.HubShutdownIff` | api/webui/tsymbiotewebui/websocket.go:118-294 | Manager and hub together, from every reachable state: a waiting shutdown can still succeed if and only if the demands fit. When the writer has returned or its next check makes it: tokens and reports within the capacity of `dead`, messages and senders (readers, client, the writer's own notice) within that of `msg`, and both with the readers that will have to send or report within the two. Otherwise: tokens and reports within that of `dead` and the tokens the writer can receive before one makes it return, and the writer not at its own send to a full `msg`. |
| `HubDrain.ShortageCanBeJoint` | api/webui/tsymbiotewebui/websocket.go:127-131 | With two targets or more some run ends with room for one report and two readers to report: nobody is stuck alone, and yet the demands do not fit. |
| `FanOut.InvStep` | api/webui/tsymbiotewebui/ping.go:57-113 | Each step of spawner, workers and collector keeps: what was collected is what the first workers sent, in order, and a panic needs a worker that sends more than once. |
| `FanOut.MeasureFalls` | api/webui/tsymbiotewebui/ping.go:57-113 | A natural-number measure falls at every step of every goroutine. |
| `FanOut.RunsAreBounded` | api/webui/tsymbiotewebui/ping.go:57-113 | No schedule is longer than the initial measure. |
| `FanOut.EverySchedule` | api/webui/tsymbiotewebui/ping.go:57-113 | For every schedule: the results are always a prefix of the sequential ones; at its end some send hit a closed channel if and only if some worker sends more than once, and otherwise the results are the sequential ones. |
| `FanOut.NoDeadlock` | api/webui/tsymbiotewebui/ping.go:57-113 | In every reachable state the handler is done, has panicked, or some goroutine can move. |
| `Handlers.PingWorker` | api/webui/tsymbiotewebui/ping.go:66-104 | Every way the call can turn out sends exactly one reply, with the error if there was one and the results exactly when the answer could be decoded. |
| `Handlers.StartPings` | api/webui/tsymbiotewebui/ping.go:57-106 | The nested loops start one worker per (host, target), in request order. |
| `Handlers.PingRespondsInOrder` | api/webui/tsymbiotewebui/ping.go:57-113 | For every schedule the response is one reply per pair, in request order, tagged with its pair; nothing panics. |
| `Handlers.PingRepliesExact` | api/webui/tsymbiotewebui/ping.go:57-113 | For every schedule ping reply k is about pair k and carries what its call returned: the error if there was one, and the results exactly when the answer could be decoded. |
| `Handlers.GoroutinesWorker` | api/webui/tsymbiotewebui/goroutines.go:44-66 | One reply whatever happens; a failed read of the body is reported with what was read. |
| `Handlers.HostsRespondInOrder` | api/webui/tsymbiotewebui/goroutines.go:44-77 | For every schedule of single-send workers the response lists the hosts' answers in order; nothing panics. |
| `Handlers.GoroutinesRespondInOrder` | api/webui/tsymbiotewebui/goroutines.go:44-77 | For every schedule reply k is about host k, with the error of its call and whatever was read of its body. |
| `Handlers.QueryDnsWorker` | api/webui/tsymbiotewebui/querydns.go:34-74 | One reply whatever happens; decoding overwrites only the fields present. |
| `Handlers.DnsRepliesTagged` | api/webui/tsymbiotewebui/querydns.go:34-85 | For every schedule reply k is about host k if and only if the adapter's answer does not name another host. |
| `Handlers.DnsRepliesExact` | api/webui/tsymbiotewebui/querydns.go:34-85 | For every schedule DNS reply k shows the fields of the adapter's answer as far as they could be decoded, and its error is the call's if there was one. |
| `Handlers.RelativeJsonWorker` | api/webui/tsymbiotewebui/passthrough.go:55-82 | A failed decode sends twice. |
| `Handlers.RelativeJsonPanicsIff` | api/webui/tsymbiotewebui/passthrough.go:50-93 | Every finished schedule panics if and only if some adapter's body cannot be decoded; otherwise the response is in host order. |
| `Handlers.JsonRepliesExact` | api/webui/tsymbiotewebui/passthrough.go:50-93 | In every run, whatever has been collected: reply k is about host k, has its call's error, and the value exactly when the body could be decoded. |
| `Handlers.PprofWorker` | api/webui/tsymbiotewebui/pprof.go:45-84 | One reply whatever happens, with the profile or the error. |
| `Handlers.CollectProfiles` | api/webui/tsymbiotewebui/pprof.go:87-105 | The loop stores the profiles of the successful replies one after the other; its response has neither profiles nor write errors. |
| `Handlers.ProfilesRespondInOrder` | api/webui/tsymbiotewebui/pprof.go:45-107 | For every schedule reply k is about host k and has the error of its call. |
| `Handlers.ProfileFilesExact` | api/webui/tsymbiotewebui/pprof.go:45-131 | For every schedule a host has a file if and only if some request for it succeeded and created one, and the file is what the last such request wrote, torn or whole. |
| `PeerMap.PeerMapWorker` | api/webui/tsymbiotewebui/peermap.go:56-109 | One result per device: an edge per peer in order, and per name the node of the first peer that has it. |
| `PeerMap.Merge` | api/webui/tsymbiotewebui/peermap.go:112-120 | Edges are concatenated and nodes overwritten in device order. |
| `PeerMap.Values` | api/webui/tsymbiotewebui/peermap.go:122 | The node list holds each node of the map once. |
| `PeerMap.MergedNodesExact` | api/webui/tsymbiotewebui/peermap.go:112-120 | A name is a node if and only if some device saw it, with the data of the last such device in list order. |
| `PeerMap.MergedEdgesExact` | api/webui/tsymbiotewebui/peermap.go:89-122 | An edge is listed if and only if an answering device reported that peer. |
| `PeerMap.MergedEdgesCount` | api/webui/tsymbiotewebui/peermap.go:89-122 | There are as many edges as peers reported by answering devices. |
| `PeerMap.EdgeTargetsAreNodes` | api/webui/tsymbiotewebui/peermap.go:89-122 | Every edge ends in a node. |
| `PeerMap.SameIdIff` | api/webui/tsymbiotewebui/peermap.go:91-99 | Two edges have the same id if and only if they are equal, or one source goes on from the other with an arrow and the targets make up for it. |
| `PeerMap.SourcesClashIff` | api/webui/tsymbiotewebui/peermap.go:91-99 | Two different sources can have edges with the same id if and only if one goes on from the other with an arrow. |
| `PeerMap.EdgeIdsInjective` | api/webui/tsymbiotewebui/peermap.go:91-99 | In particular edge ids tell edges apart when no source name contains an arrow. |
| `PeerMap.ArrowNamesCollide` | api/webui/tsymbiotewebui/peermap.go:91-99 | The input: two edges that share an id. |
| `PeerMap.PeerMapEverySchedule` | api/webui/tsymbiotewebui/peermap.go:40-131 | Under every schedule of the calls the results are the sequential ones with their calls' errors; under every schedule of the index accesses of devices on different pairs the index is as if they were asked one by one, in any order. |
| `PeerMap.IndexOpsExact` | api/webui/tsymbiotewebui/peermap.go:61-86 | The index is written once for each device that could not be called, to forget it, and for each that answered, to store it with the host it named, and for no other. |
| `PeerMap.IndexSaysWhoAnswered` | api/webui/tsymbiotewebui/peermap.go:61-86 | Under every schedule of accesses, for devices on different pairs: one that could not be called is forgotten, and one that answered is known for its host. |
| `PeerMap.BuildGraph` | api/webui/tsymbiotewebui/peermap.go:111-130 | The response's graph: distinct node ids, each node the last device's view, one edge per reported peer, no edge without its node. |
| `PeerIndex.Client.constructor` | api/webui/client/client.go:28-32 | Both maps start empty. |
| `PeerIndex.Client.SetKnownHost` | api/webui/client/client.go:34-37 | Stores the pair in both maps. |
| `PeerIndex.Client.DeleteAdapter` | api/webui/client/client.go:39-47 | Removes the adapter and the host it is stored for; fails on an unknown adapter and changes nothing. |
| `PeerIndex.Client.GetAdapter` | api/webui/client/client.go:49-55 | The adapter stored for the host, if any. |
| `PeerIndex.Client.GetHost` | api/webui/client/client.go:67-74 | The host stored for the adapter, if any. |
| `PeerIndex.Client.Perform` | api/webui/client/client.go:34-47 | A sequence of sets and deletes has the effect of the specified sequence. |
| `PeerIndex.KeepsInverseIff` | api/webui/client/client.go:34-47 | The two maps stay exact inverses if and only if the stored pair re-pairs no known host or adapter; deletions always keep them so. |
| `PeerIndex.OneToOneStaysInverse` | api/webui/client/client.go:34-47 | After any sequence of operations on a one-to-one pairing the maps are exact inverses. |
| `PeerIndex.CommuteIff` | api/webui/client/client.go:34-47 | The order of two operations does not matter if and only if they store the same pair or pairs sharing nothing, or both delete, or one deletes an adapter that is neither the stored one nor known for the stored host. |
| `PeerIndex.StaleDeleteForgetsHost` | api/webui/client/client.go:39-47 | Deleting a host's former adapter after it came back under a new one forgets the host; in the other order it does not. |
| `PeerIndex.EveryOrderIsTheSame` | api/webui/client/client.go:34-47 | Operations on different pairs leave the same index in every sequential order. |
| `PeerIndex.InterleavingIsSequential` | api/webui/client/client.go:34-47 | When operations on different pairs interleave their map accesses in any way, the final index is that of every sequential order. |
| `PeerIndex.SequentialOutcome` | api/webui/client/client.go:34-47 | The sequential order leaves each pair as its own operation says and everything else untouched. |
| `PeerIndex.OutcomeUnique` | api/webui/client/client.go:34-47 | At most one index is as the operations say and otherwise untouched. |
| `PeerAddresses.KnownPeers.StorePeer` | api/adapter/internal/knownpeers.go:18-21 | Stores name and address in both maps. |
| `PeerAddresses.KnownPeers.StorePeers` | api/adapter/internal/knownpeers.go:23-31 | Stores, in the order they come, the peers that have an address under their first one. |
| `PeerAddresses.KnownPeers.GetIPByPeer` | api/adapter/internal/knownpeers.go:33-40 | The address stored for the name, if any. |
| `PeerAddresses.KnownPeers.GetPeerByIP` | api/adapter/internal/knownpeers.go:42-49 | The name stored for the address, if any. |
| `PeerAddresses.LastIsFound` | api/adapter/internal/knownpeers.go:23-49 | A name finds the first address of the last peer of that name, an address the name of the last peer with that first address, or what they found before. |
| `PeerAddresses.OrderFreeIff` | api/adapter/internal/knownpeers.go:23-49 | What a name or an address finds is the same for every order of the peers if and only if all peers stored under it agree. |
| `PingPlan.TargetsForHost` | web-ui/src/App.tsx:389-404 | The candidate peers of a host: the targets, then the other selected hosts sharing an edge with it, without repeats. |
| `PingPlan.AppendPairs` | web-ui/src/App.tsx:406-415 | Keeps the candidates with an edge from the host. |
| `PingPlan.GetTargetedCombinations` | web-ui/src/App.tsx:382-419 | The pairs in the order of the nested loops. |
| `PingPlan.CombinationsExact` | web-ui/src/App.tsx:382-419 | Without repeats, exactly the pairs (h, p) with a directed edge, h selected and p a selected target or another selected host. |
| `PingPlan.GroupByHost` | web-ui/src/App.tsx:436-443 | Groups the pairs by host in first-seen order. |
| `PingPlan.GroupPairs` | web-ui/src/App.tsx:436-454 | Grouping a flattened plan gives the plan back, without hosts that have no peer. |
| `PingPlan.PairsNonEmpty` | web-ui/src/App.tsx:436-454 | Dropping those hosts loses no pair. |
| `PingPlan.PingRequest` | web-ui/src/App.tsx:428-454 | The request is the grouped plan of the online selection. |
| `PingPlan.EachWantedPairPingedOnce` | web-ui/src/App.tsx:428-479 | Page and server together, for every schedule: the server pings exactly the wanted pairs, each once, in the order in which hosts and then targets were selected, and reply k is tagged with pair k. |
| `PingPlan.KeyBack` | web-ui/src/App.tsx:460-471 | Files each reply under its host and target. |
| `PingPlan.FilingKeys` | web-ui/src/App.tsx:460-471 | A pair is filed if and only if some reply has that tag. |
| `PingPlan.FilingFinds` | web-ui/src/App.tsx:460-471 | When no two replies share a tag, each is found under its own. |
| `PingPlan.RepliesFiledByPair` | web-ui/src/App.tsx:428-479 | End to end: the page files under (h, p) what the one ping from h to p returned, an empty list if it failed, and files nothing else. |
| `Selection.SelectionPage.RunSelectDefaults` | web-ui/src/App.tsx:212-228 | With nodes and hosts present, selects every target that is not hidden. |
| `Selection.SelectionPage.RunDeselectOffline` | web-ui/src/App.tsx:238-252 | When offline peers are hidden, deselects them and nothing else. |
| `Selection.SelectionPage.RunDropUnreachable` | web-ui/src/App.tsx:285-299 | Leaves exactly the selected targets that are reachable, although it assigns only when the sizes differ. |
| `Selection.SelectionPage.Load` | web-ui/src/App.tsx:154-209 | A load is the specified step for each of its outcomes: refused, complete, or throwing at a node without data, when hosts and selected hosts have been set and the nodes have not. |
| `Selection.SelectionPage.DoToggleHost` | web-ui/src/App.tsx:254-264 | Toggling a host is the specified step with its effects. |
| `Selection.SelectionPage.DoToggleAllHosts` | web-ui/src/App.tsx:266-272 | Deselects all hosts if as many are selected as are listed, and otherwise selects all; then drops unreachable targets. |
| `Selection.SelectionPage.DoFilterToHost` | web-ui/src/App.tsx:1128 | Filtering to a host is the specified step with its effects. |
| `Selection.SelectionPage.DoToggleTarget` | web-ui/src/App.tsx:317-327 | Toggling a target is the specified step; no effect runs. |
| `Selection.SelectionPage.DoToggleAllTargets` | web-ui/src/App.tsx:329-335 | Deselects all targets if as many are selected as are reachable, and otherwise selects the reachable ones; no effect runs. |
| `Selection.SelectionPage.DoToggleHideOffline` | web-ui/src/App.tsx:212-299 | Changing the offline setting runs all three effects. |
| `Selection.SelectionPage.DoReset` | web-ui/src/hooks/useKeyboardShortcuts.ts:123-130 | Reset selects all hosts and all targets, then drops the unreachable ones. |
| `Selection.SelectionStaysWithin` | web-ui/src/App.tsx:212-335 | After any sequence of offered actions with their effects, selected hosts are listed hosts and selected targets are reachable. |
| `Selection.SizeMeansAll` | web-ui/src/App.tsx:266-335 | A selection among listed ids is as large as the list if and only if the list has no repeats and all of it is selected. |
| `Selection.ToggleAllIsExact` | web-ui/src/App.tsx:266-335 | In every reachable state with repeat-free hosts and node ids, each toggle deselects everything if everything is selected, and otherwise selects everything. |
| `Selection.RepeatedHostNeverClears` | web-ui/src/App.tsx:266-272 | A host listed twice makes the toggle select everything, always. |
| `Selection.HideOfflineReselectsAll` | web-ui/src/App.tsx:212-299 | Changing the offline setting throws the user's choice away: exactly the reachable targets are selected afterwards. |
| `Selection.LoadingSelectsAll` | web-ui/src/App.tsx:154-228 | A load selects every host and exactly the reachable targets of the fetched graph; one that throws does so for the new hosts over the old graph; a refused one changes nothing. |
| `Selection.ToggleAllBySize` | web-ui/src/App.tsx:266-335 | Whatever is listed, the toggles decide by the sizes, and change nothing but the selection. |
| `Selection.HostChoiceExact` | web-ui/src/App.tsx:254-299 | Toggling or filtering to a host changes only the hosts chosen, that one or to that one, and drops exactly the targets no longer reachable. |
| `Selection.TargetChoiceExact` | web-ui/src/App.tsx:317-327 | Toggling a target changes that one only; a reset selects all hosts and exactly the reachable targets. |
| `Selection.EffectsExact` | web-ui/src/App.tsx:212-252 | What each effect does to one target; after the first, the second has nothing left to deselect. |
| `Selection.OutcomeExact` | web-ui/src/App.tsx:158-203 | A load is refused, throws exactly if a fetched node has no data, or is the graph fetched. |
| `Selection.ToggleHostTwice` | web-ui/src/App.tsx:254-299 | Toggling a host twice restores the hosts; it costs nothing if the host was not selected, and otherwise exactly the targets no other selected host reaches. |
| `Graph.FilterOnline` | web-ui/src/hooks/useOnlineFilter.ts:20-31 | Keeps exactly the ids that are online: unknown ids and ids without data count as online. |
| `Graph.TargetNodes` | web-ui/src/hooks/useOnlineFilter.ts:59-63 | Exactly the node ids that are not hosts. |
| `Graph.Reachable` | web-ui/src/hooks/useOnlineFilter.ts:66-82 | Exactly the targets with an edge from a selected host, without offline ones if they are hidden. |
| `Graph.TargetNodesNoDup` | web-ui/src/hooks/useOnlineFilter.ts:59-63 | Distinct node ids give repeat-free targets. |
| `Graph.ReachableNoDup` | web-ui/src/hooks/useOnlineFilter.ts:66-82 | Repeat-free targets give repeat-free reachable targets. |
| `Graph.OfflineIff` | web-ui/src/hooks/useOnlineFilter.ts:15-31 | An id counts as offline exactly if the first node with it says so. |
| `Graph.TargetNodesInOrder` | web-ui/src/hooks/useOnlineFilter.ts:59-63 | Targets are listed in the order of the nodes. |
| `Graph.ReachableInOrder` | web-ui/src/hooks/useOnlineFilter.ts:66-82 | Reachable targets are listed in the order of the targets. |
| `StreamTimer.StreamHook.CancelStreaming` | web-ui/src/hooks/useWebSocketLogs.ts:119-144 | Cancelling is the specified step: timer cleared, disconnect text appended and socket closed only if open, references dropped. |
| `StreamTimer.StreamHook.StartStream` | web-ui/src/hooks/useWebSocketLogs.ts:146-278 | Starting is cancelling, then new references and socket; the timer starts even if the socket could not be constructed. |
| `StreamTimer.StreamHook.AppendEach` | web-ui/src/hooks/useWebSocketLogs.ts:127-131 | Appends the text to every listed host's pane, as often as it is listed. |
| `StreamTimer.StreamHook.SetEach` | web-ui/src/hooks/useWebSocketLogs.ts:161-166 | Every listed host's pane shows the text and no other pane exists. |
| `StreamTimer.StreamHook.OnOpen` | web-ui/src/hooks/useWebSocketLogs.ts:179-186 | Opening empties the panes of the hosts the socket was started for. |
| `StreamTimer.StreamHook.OnMessage` | web-ui/src/hooks/useWebSocketLogs.ts:188-221 | A message is a pong, garbage, a notice or an item, and does the specified step. |
| `StreamTimer.StreamHook.OnClose` | web-ui/src/hooks/useWebSocketLogs.ts:228-239 | A close event of any socket forgets the current stream and leaves the timer running. |
| `StreamTimer.StreamHook.OnInterval` | web-ui/src/hooks/useWebSocketLogs.ts:251-277 | A tick does nothing without a socket, times out a silent one, and otherwise sends one ping on an open one. |
| `StreamTimer.StreamHook.OnUnmount` | web-ui/src/hooks/useWebSocketLogs.ts:281-294 | Unmounting clears the interval and closes the socket whatever its state. |
| `StreamTheorems.InvRun` | web-ui/src/hooks/useWebSocketLogs.ts:119-278 | The timer invariant holds after every run with exact timers. |
| `StreamTheorems.AtMostOneTimer` | web-ui/src/hooks/useWebSocketLogs.ts:119-278 | After any sequence of starts, cancels, messages, closes and ticks at most one interval timer is live, and exactly one while there is a socket. |
| `StreamTheorems.TimeoutWindow` | web-ui/src/hooks/useWebSocketLogs.ts:251-277 | In every reachable state a tick drops the stream if and only if the last pong (before any pong: the first ping) is more than 10 s old; it is then at most 15 s old. |
| `StreamTheorems.SilenceIsBounded` | web-ui/src/hooks/useWebSocketLogs.ts:251-277 | In every reachable state with a stream the time kept as the last sign of life, a pong on whichever socket or the first ping, is at most 15 s old. |
| `StreamTheorems.OwnSilenceIsBounded` | web-ui/src/hooks/useWebSocketLogs.ts:190-277 | While a reachable stream runs on one connection and is not dropped, the last pong on that connection is at most 15 s old. |
| `StreamTheorems.DroppedStaysAsItIs` | web-ui/src/hooks/useWebSocketLogs.ts:119-294 | No run makes the hook close a socket that it no longer refers to. |
| `StreamTheorems.CancelClosesIffOpen` | web-ui/src/hooks/useWebSocketLogs.ts:135-138 | Cancelling closes the socket if and only if it is open: one still connecting stays alive in every continuation in which its peer does not close it. |
| `StreamTheorems.StreamSurvivesIff` | web-ui/src/hooks/useWebSocketLogs.ts:119-294 | A stream survives a run if and only if the run has no page action, no close event of any socket, its own or one it replaced, and no tick that finds the last sign of life more than 10 s old. |
| `StreamTheorems.SurvivesSocketEventsIff` | web-ui/src/hooks/useWebSocketLogs.ts:179-239 | Among the events of sockets alone it survives if and only if none of them is a close, of whichever socket. |
| `StreamTheorems.LateCloseStopsNewStream` | web-ui/src/hooks/useWebSocketLogs.ts:228-239 | The input: a restart followed by the late close of the first socket forgets the second stream, whose socket stays alive. |
| `StreamTheorems.PaneIsWhatWasSaid` | web-ui/src/hooks/useWebSocketLogs.ts:188-221 | On one connection a host's pane grows by exactly what the messages say about that host, in order, whatever the others send. |
| `StreamTheorems.PaneEmptyWhenOpened` | web-ui/src/hooks/useWebSocketLogs.ts:179-186 | Every pane is empty when the connection opens. |
| `StreamEffects.PingsAreTicks` | web-ui/src/hooks/useWebSocketLogs.ts:270-275 | Over every run the pings sent on a socket are the ticks that found it the stream's, open and with its last sign of life, if any, not more than 10 s old. |
| `StreamEffects.TicksEveryFiveSeconds` | web-ui/src/hooks/useWebSocketLogs.ts:248-277 | A timer fires every five seconds as long as it lives. |
| `StreamEffects.StartExact` | web-ui/src/hooks/useWebSocketLogs.ts:146-278 | A start streams the hosts from a socket of their own, if one could be constructed, under a new timer due in 5 s, and their panes, and no others, say that the connection is being made. |
| `StreamEffects.CancelExact` | web-ui/src/hooks/useWebSocketLogs.ts:119-144 | A cancellation ends the stream and its timer, closes its socket if open, and appends to its hosts' panes, if asked to and the socket is open, that it was disconnected. |
| `StreamEffects.OpenExact` | web-ui/src/hooks/useWebSocketLogs.ts:179-186 | An opened socket empties the panes of its own hosts, and no others are left. |
| `StreamEffects.TimeoutExact` | web-ui/src/hooks/useWebSocketLogs.ts:251-267 | A tick on a stream silent for more than 10 s says so in its hosts' panes, closes its socket and forgets the stream, but goes on ticking. |
| `StreamEffects.QuietTick` | web-ui/src/hooks/useWebSocketLogs.ts:251-277 | Any other tick changes nothing but the pings and, if it is the first ping, the time counted from. |
| `StreamEffects.CloseExact` | web-ui/src/hooks/useWebSocketLogs.ts:228-239 | A close event of any socket ends the stream there is, keeps its panes and leaves its timer running. |
| `StreamEffects.UnmountExact` | web-ui/src/hooks/useWebSocketLogs.ts:281-294 | When the page goes the timer stops and the stream's socket is closed, open or not. |
| `StreamEffects.StreamMatchesSocket` | web-ui/src/hooks/useWebSocketLogs.ts:146-278 | Over every run the page's stream, while it has a socket, is the one that socket was made for. |
| `Strings.JoinSplit` | web-ui/src/components/CommandOutputsPanel.tsx:944 | Joining the lines of a text gives the text. |
| `GoroutineText.PartsConcat` | web-ui/src/components/CommandOutputsPanel.tsx:926 | Text that ends a line and text that starts a goroutine split independently. |
| `GoroutineText.ParseFormat` | web-ui/src/components/CommandOutputsPanel.tsx:930-946 | One printed goroutine whose header is read back, with or without the separating newline, is read back field by field, its stack trimmed. |
| `GoroutineText.FormatIsOnePart` | web-ui/src/components/CommandOutputsPanel.tsx:926 | A printed goroutine is one part if and only if no line of its stack looks like another. |
| `GoroutineText.ReadIff` | web-ui/src/components/CommandOutputsPanel.tsx:930-940 | Exactly which states and durations are read back from the bracketed text, by where their commas, spaces and line ends are. |
| `GoroutineText.ParsePrint` | web-ui/src/components/CommandOutputsPanel.tsx:924-986 | Printing then parsing gives back every list of goroutines whose headers are read back and whose stacks are trimmed without a look-alike line. |
| `GoroutineText.ParsePrintLength` | web-ui/src/components/CommandOutputsPanel.tsx:924-986 | Each stack with a line that looks like a goroutine yields at least one extra goroutine. |
| `GoroutineText.ParsePrintIff` | web-ui/src/components/CommandOutputsPanel.tsx:924-986 | Of all lists whatsoever exactly these survive the round trip: every id is digits, every bracketed text is read back and without `]` or line feed, every stack is trimmed, and no line but the first looks like a goroutine. |
| `GoroutineText.TrimCreatesAGoroutine` | web-ui/src/components/CommandOutputsPanel.tsx:944 | Trimming can itself create such a line: the copy of a parsed goroutine need not parse back. |
| `GoroutineText.TextWithoutGoroutines` | web-ui/src/components/CommandOutputsPanel.tsx:924-933 | A text in which no line looks like a goroutine is one unknown goroutine with the trimmed text as its stack, or none if it is blank. |
| `Highlight.EscapeIsPerCharacter` | web-ui/src/components/UIComponents.tsx:208-210 | The three successive replacements equal one per-character map. |
| `Highlight.UnescapeEscape` | web-ui/src/components/UIComponents.tsx:208-210 | Undoing the escapes returns the text. |
| `Highlight.EscapeHasNoAngles` | web-ui/src/components/UIComponents.tsx:208-210 | Escaped text contains no angle bracket. |
| `Highlight.RenderThenRest` | web-ui/src/components/UIComponents.tsx:213-229 | Rendered pieces show as their text, whatever follows, and bring only the highlighter's own tags. |
| `Highlight.LinePiecesText` | web-ui/src/components/UIComponents.tsx:250-279 | Whichever pattern a line matches, its pieces add up to the line. |
| `Highlight.StackTracePreserved` | web-ui/src/components/UIComponents.tsx:245-281 | For every text the highlighted stack trace shows exactly that text, and its only tags are the highlighter's. |
| `Highlight.CallColoured` | web-ui/src/components/UIComponents.tsx:253-260 | A line that calls a function: package with dot, name and arguments, each in its colour. |
| `Highlight.FileColoured` | web-ui/src/components/UIComponents.tsx:264-269 | A line with a file: path, line number and offset, each in its colour. |
| `Highlight.CreatedColoured` | web-ui/src/components/UIComponents.tsx:273-278 | A line that says who created the goroutine: each part in its colour. |
| `Highlight.OtherColoured` | web-ui/src/components/UIComponents.tsx:281 | A line of no such form is in one colour. |
| `Highlight.TokensAddUp` | web-ui/src/components/UIComponents.tsx:213-229 | However a text is cut into matches and gaps, the tokens add up to it. |
| `Highlight.JsonPreserved` | web-ui/src/components/UIComponents.tsx:208-230 | For every text the highlighted JSON shows exactly that text, and its only tags are the highlighter's. |
| `JsonTokens.LiteralMatchedWhole` | web-ui/src/components/UIComponents.tsx:213-215 | Where a serialised string literal stands it is matched in one piece, whatever it contains. |
| `JsonTokens.TokensAreLexemes` | web-ui/src/components/UIComponents.tsx:213-229 | The tokens found in a row of lexemes, words and numbers being followed by punctuation, are exactly these lexemes. |
| `JsonTokens.JsonValuesColoured` | web-ui/src/components/UIComponents.tsx:208-233 | Every serialised value is shown lexeme by lexeme: keys and their colons, strings, booleans, null and numbers each in the colour of their class, everything else bare, whatever the strings contain. |
| `Injection.PodObject.ApplyDefault` | operator/internal/webhook/core/v1/pod_webhook.go:62-175 | Defaulting the pod in place is the specified step and keeps every container it had; a missing image fails and changes nothing. |
| `Injection.AdmissionKeeps` | operator/internal/webhook/core/v1/pod_webhook.go:62-175 | Admission keeps the pod's containers with their images and sources, in place, and every label but its own. |
| `Injection.AdmissionAdds` | operator/internal/webhook/core/v1/pod_webhook.go:62-175 | Admission fails exactly when there is no web UI and no adapter image. It adds one reference, to the pod's own secret: with a web UI, in the first container, and otherwise in an adapter container of the given image, with shared processes. |
| `Injection.AdapterHandshake` | operator/internal/webhook/core/v1/pod_webhook.go:80-152 | Every enabled pod defaulted as an adapter is watched and resolves to its own secret with the adapter's tag, whatever containers it had. |
| `Injection.WebUIHandshakeIff` | operator/internal/webhook/core/v1/pod_webhook.go:71-175 | An enabled web UI pod is watched with the web UI's tag, and resolves to its own secret if and only if its own reference decides among those present. |
| `Injection.WebUIAloneAndFirst` | operator/internal/webhook/core/v1/pod_webhook.go:71-175 | It does when the only one of our containers comes first and has no such reference yet. |
| `Injection.WebUINotFirst` | operator/internal/webhook/core/v1/pod_webhook.go:71-175 | A web UI behind a foreign first container resolves to no secret: its reference went to the other container. |
| `Injection.Controller.FindRef` | operator/internal/controller/secrets/secrets_controller.go:78-93 | Per container the first reference that mentions the prefix; the last of our containers that has one decides. |
| `Injection.Controller.DeviceTag` | operator/internal/controller/secrets/secrets_controller.go:113-120 | The web UI's tag if any container is the web UI, else the adapter's. |
| `Injection.Controller.Reconcile` | operator/internal/controller/secrets/secrets_controller.go:52-138 | Reconciling the cluster is the specified step for every way its calls can answer. |
| `Injection.RefNameExact` | operator/internal/controller/secrets/secrets_controller.go:78-93 | Exactly which secret a pod resolves to: the first reference mentioning the prefix in the last adapter or web UI container that has one. |
| `Injection.ReconcileAsks` | operator/internal/controller/secrets/secrets_controller.go:95-135 | A reconcile asks for a key exactly when its reads worked and the pod resolves to a secret that is not there, for its pod with the pod's tag, and either stores it or counts a failed apply. |
| `Injection.ReconcileOkIff` | operator/internal/controller/secrets/secrets_controller.go:52-138 | A reconcile reports success if and only if its reads worked and the pod is gone or its secret is there afterwards; when it fails it has at most asked for a key. |
| `Injection.KeysAccountedFor` | operator/internal/controller/secrets/secrets_controller.go:113-135 | Over any run with consistent reads: keys asked for = secrets created + failed applies, and secrets present = created - collected. |
| `Injection.SecretNeverRewritten` | operator/internal/controller/secrets/secrets_controller.go:95-135 | Over any run an existing secret keeps its key until it is collected. |
| `Injection.HandshakeCompletes` | operator/internal/controller/secrets/secrets_controller.go:52-188 | A reconcile right after the admission whose calls all succeed creates the pod's own secret with a key of its role, and nothing else changes. |
| `Injection.SuccessAnywhereStores` | operator/internal/controller/secrets/secrets_controller.go:52-138 | In any run that leaves the pod and its secret alone, one fully successful reconcile of the pod, wherever it comes, means that the secret is there at the end. |
| `Injection.KeysMatchRun` | operator/internal/controller/secrets/secrets_controller.go:113-135 | Over any run every secret holds a device key that was asked for, the one recorded for it. |
| `Injection.RoleIff` | operator/internal/controller/secrets/secrets_controller.go:78-135 | A missing secret is sure to get a key of a role, however the pods are reconciled, if and only if all pods that resolve to it have that role. |
| `Injection.HandshakeOverRuns` | operator/internal/controller/secrets/secrets_controller.go:52-188 | The handshake over whole runs: an admitted pod whose reference decides is watched, gets its secret by any fully successful reconcile, and the secret holds a key of the pod's own role when no pod of the other role resolves to it. |
| `Middleware.Chain.Add` | api/shared/tsymbiote/middleware.go:38-41 | Appends the stage. |
| `Middleware.Chain.Register` | api/shared/tsymbiote/middleware.go:76-84 | The backward loop registers the fold of the chain around the handler. |
| `Middleware.Chain.RegisterSimple` | api/shared/tsymbiote/middleware.go:88-96 | The same around a handler that only sees the raw request. |
| `Middleware.FoldIsInOrder` | api/shared/tsymbiote/middleware.go:76-96 | For every chain, handler and request the registered function equals an in-order interpreter: guards in the order added, handler if and only if all pass, entered stages left in reverse. |
| `Middleware.EnteredOnceInOrder` | api/shared/tsymbiote/middleware.go:76-96 | The stages entered are the first ones of the chain, each once and in order. |
| `Middleware.GuardVerdict` | api/shared/tsymbiote/middleware.go:98-183 | A guard passes if and only if it admits the request and needs no missing logger, and leaves the request itself unchanged. |
| `Middleware.CrashIff` | api/shared/tsymbiote/middleware.go:98-183 | A chain uses an unset logger if and only if some stage that would log for this request is reached before any logger. |
| `Middleware.LoggerFirstNeverCrashes` | api/shared/tsymbiote/server.go:190-222 | With the logger first no guard ever uses an unset logger. |
| `Middleware.HandlerRunsIff` | api/shared/tsymbiote/server.go:190-222 | Behind the logger the handler runs if and only if every guard admits the request. |
| `Middleware.RefusalIsLogged` | api/shared/tsymbiote/server.go:203-220 | Behind the logger a refused request is logged last, with the answer of the first guard that does not admit it. |
| `Middleware.SimpleHandlersLog200` | api/shared/tsymbiote/server.go:211-220 | An admitted request to a prebaked handler is always logged as 200. |
| `Middleware.RefusalIsAnswered` | api/shared/tsymbiote/server.go:190-222 | Behind the logger a refused request is answered once, with the status of the first guard that does not admit it, and the body is closed once per stage entered that defers it. |
| `Middleware.HandlerGetsTheRequest` | api/shared/tsymbiote/server.go:190-222 | Behind the logger an admitted request reaches the handler as it came, unanswered, with a logger, and with a socket exactly if the chain upgrades; what the handler makes of it stays. |
| `Middleware.SimpleHandlerRuns` | api/shared/tsymbiote/server.go:211-220 | A prebaked handler is run on the raw request, and what it makes of it stays. |
| `Middleware.Chain.constructor` | api/shared/tsymbiote/server.go:259-269 | A route's chain starts with the request logger. |

## Left out

- Highlight.StackTracePreserved: says which text is shown and which tags occur; the colours are given by the four lemmas beside it for lines of the forms that Go prints.
- Whether a shutdown is sure to succeed: a read may block for as long as it likes, so the results say exactly when one still can.
- Handlers.DnsRepliesTagged: answers are taken field by field; a header or resolver is an opaque string.
- EndToEnd.PageShowsFramesInOrder: is about one connection and needs distinct targets; with a repeated target two readers feed one pane.
- PeerMap.PeerMapEverySchedule: says nothing of the index when devices share or re-pair a host; `PeerIndex.CommuteIff` says when the order of two such operations matters.
- PeerMap.PeerMapWorker: the type assertions on a decoded status are not modelled; a status is well formed or not decoded.
- StreamTheorems.TimeoutWindow: a socket that never opens is never pinged and so never timed out; that is what the code does.
- Control frames: the close frames sent to clients and adapters, read and write deadlines and the pong handlers; a deadline is a read failure.
- `GetHosts` and `GetAdapters`: they list the keys of a map.
- The path table that maps a request path to the adapter's path: whether one was found is a parameter.
- Which tabs, panels, search filters, layouts and colours the page shows, and its other keyboard shortcuts.
- The message formatters of the stream hook: a formatter is an arbitrary function of the message.
- Profile files: only which profile ends up under which host name, not the file system.
- The StatefulSet the operator builds for the web UI, owner references and garbage collection (a secret is collected or not).
- Registering one path twice in a multiplexer, which panics.
- Tailscale and OAuth calls, tsnet, command-line flags, logging, random host names and socket discovery.
