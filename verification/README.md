# AirDAP in Dafny

AirDAP is a wireless CMSIS-DAP debug probe: firmware in C that shares one SWD bus, one target UART and
one update slot between a USB host and a network host, and a Rust host program that offers the probe
over USB/IP. This project models the parts where that sharing and that byte handling are decided, and
proves what they promise. `dafny verify dfyconfig.toml` checks all of it.

## How the models are built

* **Concurrent components** are state machines. Every call is cut at its shared accesses (an atomic load,
  a compare-and-swap, a locked section, a driver or backend call), `Step` performs one piece for one
  thread, and a run is any list of actions. A lemma about `Exec` therefore covers any number of threads
  and every interleaving. Failures of storage, flash, hardware, authorization and the network are
  choices inside the actions.
* **Records and buffers that the source changes in place** are classes whose methods, loops included, are
  proved equal to functions on values; the theorems are about those functions.
* **Integer widths** are explicit: 8-bit and 5-bit epochs, 28-bit and 32-bit and 64-bit generations and
  ids, big- and little-endian words. Ghost serial numbers, which the source does not have, say which
  session an id really belongs to.

| module | source |
|---|---|
| `Ownership` | the bus arbiter `dap_ownership.c` |
| `ModeWord`, `Arbitration`, `PackedRuns`, `PolicyWindow` | the packed mode word, its events, routes and admission transactions, `mode_state.c` |
| `OtaSession`, `OtaManager`, `OtaUpload` | `ota_manager.c` as one machine with mode word, bus and UART; the wire step `network_ota.c` and the host loop `ota.rs` |
| `DapService` | sessions, queue and worker of `dap_service.c` |
| `UsbIpState`, `UsbIp` | receiver, workers and UART reader of `usbip.rs` |
| `UartRing`, `TargetUart` | subscriber rings, sessions, transmit ownership and suspension of `target_uart.c` |
| `NetworkAuth` | credentials, owner session and revocation of `network_auth.c` |
| `DapRequest`, `DapStream`, `DapTransfer` | request framing and DAP_Transfer of `dap_protocol.c`, the re-framer `dap_stream.c` |
| `ShellTx` | transmit accounting, `debug_shell_tx_state.c` |
| `Frame`, `FrameSession` | the AirDAP frame codec and sequence numbers of `airdap_frame.c` and `network.rs` |
| `SwdProtocol` | `swd_protocol.c` over the primitives of `swd_engine.c` |
| `Bytes`, `Options`, `SessionIds` | bytes and words, missing values and 32-bit session ids, shared by the others |

## Where the code does less than one would hope

Each of these is a lemma with a concrete run or value, beside a theorem that says exactly when things go well.

* An admission transaction cannot notice 256 Wi-Fi events between its two samples
  (`PolicyWindow.FullTurnUnnoticed`, reached from boot in `FullTurnFromBoot`); it notices anything else
  (`PolicyWindow.StampsSeeBumps`).
* `flush` in `usbip.rs` takes a fragment off the queue before it sends it, so a full channel loses it
  (`UsbIp.RefusedFlushLoses`). The inputs spell the responses exactly when every flush finds room for one
  packet per input the waiting responses can be delivered to (`UsbIp.InputsSpellResponses`,
  `UsbIpState.FlushNeedsRoom`).
* The host burns a sequence number on a payload that is too large to frame, and keeps using the
  connection (`FrameSession.OversizeBreaksLockstep`); `FrameSession.Lockstep` is the exact condition.
* `airdap_network_auth_session_bind` and `airdap_network_auth_connection_close` look at `bound` outside the
  lock. Two overlapping binds count a connection twice, a close overtaken by a bind leaves a connection
  counted that is gone, and two overlapping closes take one out twice
  (`NetworkAuth.OverlappingBindsMiscount`, `OvertakenCloseMiscounts`, `OverlappingClosesMiscount`);
  `NetworkAuth.BoundIsCountedExactly` says that these three are all there is, and when each happens.
* Session ids come back after 2^32 - 1 sessions (`DapService.FullRoundOfIds`), shell generations after
  2^64 - 1 changes (`ShellTx.GensAgree`), and after 2^64 - 1 bytes on a shell connection a write gets no
  ticket (`ShellTx.OverflowLosesTicket`; `ShellTx.CommitExactly` is the exact condition).
* With the largest `wait_retries` the SWD retry loop has no last try: a target that always answers WAIT is
  asked for ever (`SwdProtocol.WaitForever`), and otherwise the loop ends with the first other answer
  (`SwdProtocol.Engine.TransferWithRetries`).

## Model

| member | source | states |
|---|---|---|
| Ownership.MutualExclusion | firmware/components/dap_ownership/dap_ownership.c:76-445 | in every interleaving at most one operation is live, ACTIVE is set exactly while one is, and a `line_reset` or `release_pins` call overlaps neither an operation nor another such call |
| Ownership.GenerationsIncrease | firmware/components/dap_ownership/dap_ownership.c:119-191 | the generations of granted claims strictly increase over every run, never wrap, and never pass the word's generation |
| Ownership.EndedClaimNeverServes | firmware/components/dap_ownership/dap_ownership.c:193-238 | a claim that stopped being current fails every later `release` and `operation_begin`, which leave the word alone |
| Ownership.TakingEndsTheClaim | firmware/components/dap_ownership/dap_ownership.c:193-417 | release, both revokes and suspend end the current claim at the step that takes the word, and nothing else does |
| Ownership.EndedForever | firmware/components/dap_ownership/dap_ownership.c:119-445 | no run makes an ended claim current again |
| Ownership.CurrentOrEnded | firmware/components/dap_ownership/dap_ownership.c:119-445 | a claim once current is at any later time either still current or ended for good |
| Ownership.OfflineForever | firmware/components/dap_ownership/dap_ownership.c:76-445 | OFFLINE is absorbing: no thread changes the word again |
| Ownership.ExhaustionGoesOffline | firmware/components/dap_ownership/dap_ownership.c:119-191 | an acquire at the last generation ends OFFLINE and grants nothing |
| Ownership.AcquireAlone | firmware/components/dap_ownership/dap_ownership.c:119-191 | on a free bus an acquire nobody disturbs, whose line reset succeeds, answers OK with a claim of the next generation that is then current, and changes nothing else |
| Ownership.ReleaseAlone | firmware/components/dap_ownership/dap_ownership.c:193-211 | a release of the current claim nobody disturbs frees the bus and keeps the generation |
| Ownership.AcquireThenRelease | firmware/components/dap_ownership/dap_ownership.c:119-211 | acquire then release, undisturbed, is the identity on the word up to the generation, which is one higher |
| Ownership.PackFaithful | firmware/components/dap_ownership/dap_ownership.c:29-44 | generation, ACTIVE and state are readable from the 32-bit word, and two words are equal exactly when all three agree, so a compare-and-swap on words is one on records |
| Ownership.ExecKeepsInv | firmware/components/dap_ownership/dap_ownership.c:76-445 | the arbiter's invariant over word, grants, live operations and every thread's position holds along every run |
| ModeWord.NextControlRefines | firmware/components/mode_state/mode_state.c:34-208 | the packed word accepts an event exactly when the plain record does, and then both hold the same fields |
| ModeWord.PublishRouteRefines | firmware/components/mode_state/mode_state.c:476-481 | publishing a route in the packed word changes the route, advances the USB/OTA epoch, and leaves every other field |
| ModeWord.EventTouches | firmware/components/mode_state/mode_state.c:63-208 | an event changes only the fields of its own kind and advances only its own epoch |
| ModeWord.UnpackInjective | firmware/components/mode_state/mode_state.c:8-61 | the ten fields are the whole word: two words are equal exactly when all their fields are |
| ModeWord.StampFaithful | firmware/components/mode_state/mode_state.c:487-497 | two policy stamps are equal exactly when the policy fields and epochs they watch are |
| ModeWord.RestoreRouteSpec | firmware/components/mode_state/mode_state.c:420-433 | restoring the route succeeds exactly on an untouched word with a readable setting, and sets nothing but the route |
| Arbitration.StoredRouteAgrees | firmware/components/mode_state/mode_state.c:435-485 | under every interleaving and storage failure the stored route is the word's route unless a route command stands between save and publication, and that command holds the only live operation |
| PackedRuns.PackedHistory | firmware/components/mode_state/mode_state.c:237-269 | every run of the record machine is the history of exactly one sequence of packed words, each made from the one before by the firmware's own step: no event or route is lost |
| Arbitration.OkMeansCommitted | firmware/components/mode_state/mode_state.c:237-269 | a transition answers OK exactly when its own event entered the history at its compare-and-swap |
| Arbitration.OneReservation | firmware/components/mode_state/mode_state.c:435-485 | two route commands are never both past their reservation |
| Arbitration.StepOnOwnership | firmware/components/mode_state/mode_state.c:237-647 | every step of the mode code is at most one step of the arbiter, so the arbiter's theorems carry over |
| Arbitration.ExecKeepsInv | firmware/components/mode_state/mode_state.c:237-647 | the joint invariant of mode word, arbiter and every thread's position holds along every run |
| PolicyWindow.AdmissionWindow | firmware/components/mode_state/mode_state.c:499-647 | an acquire or operation begin that is ALLOWED with fewer bumps than a period between its samples was allowed by the policy at every instant in between, in particular at the ownership compare-and-swap, despite A-B-A flips |
| PolicyWindow.StampsSeeBumps | firmware/components/mode_state/mode_state.c:487-497 | two samples look the same exactly when the watched fields are the same and each watched epoch made whole turns |
| PolicyWindow.EpochCounts | firmware/components/mode_state/mode_state.c:51-208 | an epoch counts its bumps modulo its period over every stretch of history |
| PolicyWindow.QuietFields | firmware/components/mode_state/mode_state.c:63-208 | fields do not change while the epoch that watches them does not move |
| PolicyWindow.FullTurnUnnoticed | firmware/components/mode_state/mode_state.c:499-564 | from every state with a free bus, a generation left and the network up, a network acquire can be ALLOWED across 256 Wi-Fi events with Wi-Fi off in between: the bound is needed |
| PolicyWindow.FullTurnFromBoot | firmware/components/mode_state/mode_state.c:499-564 | such a run exists from every boot whose stored route is not USB |
| OtaSession.PlanKeepsSession | firmware/components/ota_manager/ota_manager.c:141-299 | every call keeps the session record consistent, a committed record never changes, and only the commit path can answer OK to a commit |
| OtaSession.OwnerIsBeginner | firmware/components/ota_manager/ota_manager.c:48-58 | among authorized clients, the one `owns_session` accepts is the one that began |
| OtaSession.AppendChunk | firmware/components/ota_manager/ota_manager.c:207-239 | a write at the expected offset extends the image without gap or overlap |
| OtaManager.StatesAgree | firmware/components/ota_manager/ota_manager.c:66-299 | in every run with any failures, whenever the session mutex is free session, mode word, bus and UART agree: all idle, or all in the update |
| OtaManager.NoOperationDuringUpdate | firmware/components/ota_manager/ota_manager.c:141-205 | while an update is open or committed the bus is suspended, no operation is live and no step of any thread begins one |
| OtaManager.CallsAreAtomic | firmware/components/ota_manager/ota_manager.c:354-450 | in the order in which calls leave the mutex, each is a step of the sequential session on what the one before left |
| OtaManager.CommittedImageIsWhole | firmware/components/ota_manager/ota_manager.c:241-280 | after a commit that returned OK the image's writes all came from the beginning client, are contiguous, and are exactly the declared size, which fits the partition |
| OtaManager.InnocentStep | firmware/components/ota_manager/ota_manager.c:66-77 | no other thread's traffic changes the update state of the mode word or whether the bus is suspended |
| OtaManager.ExecKeepsInv | firmware/components/ota_manager/ota_manager.c:66-450 | the joint invariant of session, mutex holder, mode word, arbiter and UART holds along every run |
| OtaUpload.Upload | host/src/ota.rs:17-138 | if the host's upload succeeds then the image passed `inspect`, size, magics, chip and a non-empty UTF-8 version, and, whatever other clients, network and flash did, the committed image is the host's image byte for byte, written by this client; and it succeeds for every such image that fits when nothing fails |
| OtaUpload.WriteAccepted | firmware/components/network_ota/network_ota.c:27-95 | an accepted write moves the upload on by exactly the host's next chunk, and a good device accepts it |
| OtaUpload.CommitAccepted | firmware/components/network_ota/network_ota.c:27-95 | a commit is accepted only with the whole image written, and then the image is the committed one |
| OtaUpload.BeginAccepted | firmware/components/network_ota/network_ota.c:27-95 | an accepted begin starts an empty upload of the declared size owned by this client |
| OtaUpload.ForeignCalls | firmware/components/ota_manager/ota_manager.c:354-450 | calls of any other clients leave an upload in progress exactly as it is |
| DapService.DisconnectBetweenSessions | firmware/components/dap_service/dap_service.c:94-195 | between running requests of two sessions on one transport the processor was told of the disconnect, for every interleaving in which ids do not go round on a waiting request |
| DapService.ChecksAreExact | firmware/components/dap_service/dap_service.c:128-195 | every request that passes the worker's check belongs to the session then live, if and only if no request waited through a full round of ids |
| DapService.AtMostOnce | firmware/components/dap_service/dap_service.c:128-195 | an accepted request runs at most once and is answered at most once, after its run |
| DapService.AnswersLiveSession | firmware/components/dap_service/dap_service.c:128-195 | a response callback runs under the transport's mutex with its session id live and no client inside, and it is its own session exactly within a round of ids |
| DapService.FullRoundOfIds | firmware/components/dap_service/dap_service.c:248-302 | a run in which 2^32 - 1 sessions pass while a request waits, which then runs next to a stranger's request with no disconnect between |
| SessionIds.IdsDiffer | firmware/components/dap_service/dap_service.c:248-278 | two sessions less than a full round apart have different ids |
| DapService.ExecKeepsInv | firmware/components/dap_service/dap_service.c:94-370 | mutexes, slots, ids, queue tickets and the worker's position stay consistent along every run |
| UsbIp.OneReplyPerUrb | host/src/usbip.rs:348-399 | in every interleaving no URB gets two terminal replies of either kind, pending ones have had none, pending sequence numbers are distinct and at most 128, and at most 4 responses wait |
| UsbIp.InputsSpellResponses | host/src/usbip.rs:476-553 | over every run, EP1 inputs followed by the queued fragments spell the DAP responses in order if and only if each flush finds in the channel one place per input that the waiting responses can be delivered to, counted from pending URBs and responses before it; EP3 inputs followed by the buffer always spell the UART bytes |
| UsbIp.RefusedFlushLoses | host/src/usbip.rs:321-346 | a run in which a response is lost because its input reply met a full channel |
| UsbIp.ExecKeepsInv | host/src/usbip.rs:348-553 | the invariant of the shared state, the queues and all four tasks holds along every run |
| UsbIpState.FlushNeedsRoom | host/src/usbip.rs:321-333 | responses are flushed without loss if and only if the channel has room for the number of deliveries that pending inputs and response lengths determine |
| UsbIpState.FlushResponsesKeeps | host/src/usbip.rs:321-346 | flushing keeps the bookkeeping, leaves delivered plus queued bytes unchanged unless a send is refused, then strictly loses, and stops only without responses or inputs |
| UsbIpState.FlushKeeps | host/src/usbip.rs:321-346 | the same for the whole of `flush`, which leaves the other endpoints' bytes alone |
| UsbIpState.TurnSpells | host/src/usbip.rs:321-346 | one turn delivers a prefix of the oldest response and keeps the rest in front |
| UsbIpState.CompleteKeeps | host/src/usbip.rs:299-320 | completing an URB keeps replies unique, pending URBs unanswered and lengths within what was asked |
| UsbIpState.State.FlushAll | host/src/usbip.rs:321-346 | the in-place loop does what the function says on the fields |
| UartRing.StoryConserves | firmware/components/target_uart/target_uart.c:250-295 | since open, bytes read followed by bytes buffered are the accepted prefixes in order, published is accepted plus dropped, and the counter is the true loss saturated at 2^32 - 1 |
| UartRing.NextConserves | firmware/components/target_uart/target_uart.c:682-723 | one publication or read keeps that balance |
| UartRing.Slot.PublishRx | firmware/components/target_uart/target_uart.c:266-295 | on the array with wrap-around copies, publishing is the bounded queue's publication and the next entry of the slot's conserved history |
| UartRing.Slot.CopyIn | firmware/components/target_uart/target_uart.c:266-295 | the two copies put the data at consecutive ring positions and touch no other |
| UartRing.Slot.ReadInto | firmware/components/target_uart/target_uart.c:682-723 | reading copies out the oldest bytes in order, removes exactly those, leaves the rest of the caller's array, and the bytes join what the conserved history has read since open |
| UartRing.Slot.Reset | firmware/components/target_uart/target_uart.c:261-264 | a reopened slot is empty with no loss counted and a new history |
| UartRing.PublishAll | firmware/components/target_uart/target_uart.c:266-295 | each live subscriber gets its own prefix, independently of the other, and its history goes on accordingly |
| TargetUart.DriverCallsAreOwned | firmware/components/target_uart/target_uart.c:639-787 | during every session-issued driver call the session is live, is the transmit owner, the UART is not suspended, and no other session is in the driver |
| TargetUart.OwnerIsLive | firmware/components/target_uart/target_uart.c:508-637 | a recorded transmit owner is a live session and never coexists with suspension |
| TargetUart.OwnerMoves | firmware/components/target_uart/target_uart.c:508-637 | in every reachable state the transmit owner changes exactly by an acquire of a live session from nobody while not suspended (which then answers OK), by closing the owning session, or by suspension |
| TargetUart.SuspensionIsQuiet | firmware/components/target_uart/target_uart.c:609-637 | while suspended no session is in the driver |
| TargetUart.ExecKeepsInv | firmware/components/target_uart/target_uart.c:472-787 | the invariant of both mutexes, sessions and owner holds along every run |
| NetworkAuth.ValidMeansCurrent | firmware/components/network_auth/network_auth.c:824-857 | when validation says OK the connection is bound, its credential is the active one, the owner has not expired, and the owner is the session it was bound to exactly within a round of ids |
| NetworkAuth.RevokedExactlyOnce | firmware/components/network_auth/network_auth.c:265-316 | every owner session open when the handler was registered or opened since, and not the owner any more by pairing, expiry, close or clear, and no other session, has had exactly one revoke call or has exactly one thread about to make it |
| NetworkAuth.BoundIsCountedExactly | firmware/components/network_auth/network_auth.c:754-882 | the count is the number of open bound connections in every state of a run if and only if no call is overtaken after its look at `bound` outside the lock: no admissible bind of a connection another bind counted since, no close of one another close took out since, no free of one a bind counted since |
| NetworkAuth.BoundIsCounted | firmware/components/network_auth/network_auth.c:754-882 | with one call at a time on each connection nothing is overtaken and the count is the number of open bound connections |
| NetworkAuth.OverlappingBindsMiscount | firmware/components/network_auth/network_auth.c:754-822 | a run from boot in which two overlapping binds of one connection, both with the owner's token, count it twice |
| NetworkAuth.OvertakenCloseMiscounts | firmware/components/network_auth/network_auth.c:859-882 | a run from boot in which a close looks before a bind commits and frees after it: the connection stays counted though it is gone, and no bind met a bound connection |
| NetworkAuth.OverlappingClosesMiscount | firmware/components/network_auth/network_auth.c:859-882 | a run from boot in which two overlapping closes take one connection out twice |
| NetworkAuth.HandshakesBounded | firmware/components/network_auth/network_auth.c:534-741 | the pending counter is the number of handshakes under way, at most two |
| NetworkAuth.ExecKeepsInv | firmware/components/network_auth/network_auth.c:265-904 | owner, credential, ids, owed revocations and handshakes stay consistent along every run |
| DapRequest.SizeStable | firmware/components/dap_protocol/dap_protocol.c:502-621 | a verdict about a request's length is not changed by more bytes |
| DapRequest.SizeExact | firmware/components/dap_protocol/dap_protocol.c:502-621 | a framed request is framed by its own bytes alone and each strict prefix asks for more |
| DapRequest.Measure | firmware/components/dap_protocol/dap_protocol.c:502-621 | the loops over the buffer compute that length for every region and every command |
| DapRequest.MeasureTransfer | firmware/components/dap_protocol/dap_protocol.c:569-593 | the DAP_Transfer walk finds the end of the last descriptor or how it falls short |
| DapRequest.MeasureSequence | firmware/components/dap_protocol/dap_protocol.c:594-617 | the DAP_SWD_Sequence walk finds the end of the last sequence or how it falls short |
| DapStream.ChunksDoNotMatter | firmware/components/usb_device/dap_stream.c:28-77 | however an input is split into chunks that are all accepted, the requests delivered and the bytes left are those of the whole input and together are the input |
| DapStream.MalformedIsIntrinsic | firmware/components/usb_device/dap_stream.c:28-77 | a malformed verdict is given exactly when framing the whole input fails, after the same requests |
| DapStream.SplitSpells | firmware/components/usb_device/dap_stream.c:28-77 | framing loses nothing, every request frames by itself and fits a packet, and the rest does not frame |
| DapStream.SplitContinues | firmware/components/usb_device/dap_stream.c:28-77 | more input only continues the rest |
| DapStream.Buffer.FeedChunk | firmware/components/usb_device/dap_stream.c:28-77 | the 512-byte buffer, its overflow check, its compaction and its clock behave as feeding on values |
| DapStream.Buffer.Consume | firmware/components/usb_device/dap_stream.c:50-69 | the loop hands out exactly the framed requests and stops at the rest |
| DapStream.Buffer.Expire | firmware/components/usb_device/dap_stream.c:14-26 | a partial request is dropped exactly when it is 250 ms old, and nothing else changes |
| DapTransfer.ScanAgrees | firmware/components/dap_protocol/dap_protocol.c:220-240 | on every framed request the unchecked prescan ends at the framed length with the bytes its reads need |
| DapTransfer.AnswerHoldsReads | firmware/components/dap_protocol/dap_protocol.c:209-338 | the answer fits the buffer and, unless it is the error byte or there is no port, holds the number of completed descriptors, the status of the last access (mismatch, refusal, or that of the read that flushes a final write) and in order exactly the words of the plain reads among the completed, each from a successful reply of its own to the access its descriptor names; the processor's access log is accounted for entry by entry |
| DapTransfer.ExecutionIsPrefix | firmware/components/dap_protocol/dap_protocol.c:249-333 | completed descriptors are a prefix of the request, all of it unless a transfer failed or a mask came on a read |
| DapTransfer.RepliesInOrder | firmware/components/dap_protocol/dap_protocol.c:249-333 | each completed descriptor has a successful reply of its own, in order, to a logged access of the port, direction, register and word it names, and each reply answers one access |
| DapTransfer.ExecutionAccounts | firmware/components/dap_protocol/dap_protocol.c:249-333 | descriptor by descriptor, which accesses were made and why it went on or stopped: masks apply to later matches, a match repeats until a reply agrees under the mask, the first refusal or spent match ends it with its status |
| DapTransfer.WordsFit | firmware/components/dap_protocol/dap_protocol.c:209-338 | the response never outgrows what the prescan asked for, time stamps included |
| DapTransfer.TryMatchProgress | firmware/components/dap_protocol/dap_protocol.c:284-304 | a value match stops at a successful reply that agrees under the mask, and a mismatch used every retry |
| DapTransfer.Processor.Process | firmware/components/dap_protocol/dap_protocol.c:209-338 | the three walks on the buffers give exactly that answer and processor state and stay within the capacity |
| DapTransfer.Processor.Run | firmware/components/dap_protocol/dap_protocol.c:249-333 | the execution loop consumes exactly the request and writes exactly the words |
| DapTransfer.Processor.PerformAt | firmware/components/dap_protocol/dap_protocol.c:255-324 | one descriptor is decoded and performed as specified; it moves input and output by exactly its own bytes and a failure leaves the response alone |
| DapTransfer.Processor.MatchValue | firmware/components/dap_protocol/dap_protocol.c:284-304 | the retry loop performs the tries of the value match |
| DapTransfer.PutRead | firmware/components/dap_protocol/dap_protocol.c:312-323 | a read leaves its word, behind a zero time stamp if one was asked for, and nothing before it changes |
| DapTransfer.ScanRequest | firmware/components/dap_protocol/dap_protocol.c:220-240 | the prescan loop never reads outside a framed request |
| ShellTx.NothingClipped | firmware/components/usb_device/debug_shell_tx_state.c:42-91 | in every interleaving of reserve, commit, completion and disconnect every reported byte is counted, and with no write in progress completed does not exceed accepted, which is what the driver took |
| ShellTx.TicketsTellTheTruth | firmware/components/usb_device/debug_shell_tx_state.c:58-104 | a ticket of this connection is COMPLETE exactly when all bytes committed up to it were reported; any ticket is CANCELLED if and only if nothing is connected or its generation is not back |
| ShellTx.GensAgree | firmware/components/usb_device/debug_shell_tx_state.c:14-40 | a generation is back exactly after whole rounds of 2^64 - 1 changes |
| ShellTx.CommitExactly | firmware/components/usb_device/debug_shell_tx_state.c:42-76 | a commit after a reservation gets its ticket if and only if it is for no more than was reserved and the reservation did not pass 2^64; then the unwritten part is given back |
| ShellTx.ReportsAdd | firmware/components/usb_device/debug_shell_tx_state.c:78-91 | two completions count what one completion of both would, never past the accepted bytes |
| ShellTx.ReconnectCancels | firmware/components/usb_device/debug_shell_tx_state.c:14-76 | after a disconnect, and still after connecting again, tickets read CANCELLED and reservations from before get no ticket |
| ShellTx.OverflowLosesTicket | firmware/components/usb_device/debug_shell_tx_state.c:42-76 | a run from the start, of writes no longer than 2^32 - 1 bytes, after which a write the driver takes in full gets no ticket: the byte bound is needed |
| ShellTx.TxState.Disconnected | firmware/components/usb_device/debug_shell_tx_state.c:29-40 | after disconnecting, every ticket of the old generation reads CANCELLED, now and after the next connect |
| Frame.DecodeEncode | firmware/components/airdap_frame/airdap_frame.c:120-223 | decoding inverts encoding whatever bytes follow |
| Frame.PrefixNeedsMore | firmware/components/airdap_frame/airdap_frame.c:120-175 | every strict prefix of a frame asks for more |
| Frame.EncodeDecode | firmware/components/airdap_frame/airdap_frame.c:82-223 | what decodes is the encoding of what it decodes to: a frame has one spelling |
| Frame.EncodeInto | firmware/components/airdap_frame/airdap_frame.c:177-223 | the encoder writes the frame, or reports which check failed and the size it would need |
| Frame.HeaderRoundTrip | firmware/components/airdap_frame/airdap_frame.c:120-223 | the 20 header bytes give back every header field |
| FrameSession.Lockstep | host/src/network.rs:189-218 | over unbounded runs the host's next number is never 0 and is the one the firmware expects if and only if the numbers burnt on oversized payloads are a multiple of 2^32 - 1 |
| FrameSession.OversizeBreaksLockstep | host/src/network.rs:189-218 | one oversized payload makes the next request out of order |
| FrameSession.ValidatorCounts | firmware/components/airdap_frame/airdap_frame.c:284-342 | whatever a peer sends, the validator expects 1, 2, .. 2^32 - 1, 1, .. in turn, one more per accepted request, and a refused request leaves it unchanged |
| FrameSession.OffByDistance | firmware/components/airdap_frame/airdap_frame.c:300-342 | after any requests whatever, 1 to 2^31 - 1 ahead is OUT_OF_ORDER, one behind is DUPLICATE and 2 to 2^31 - 1 behind is STALE, through wraparound and skipping 0, except that before the first accepted request those behind are OUT_OF_ORDER too |
| FrameSession.EveryDistance | firmware/components/airdap_frame/airdap_frame.c:300-342 | every unexpected number lies at exactly one such distance, on exactly one side |
| FrameSession.HostSpeaksFirmware | host/src/network.rs:21-36 | the host's frames are the firmware's encoding, and the firmware decodes them to the same fields |
| FrameSession.HostHearsFirmware | host/src/network.rs:37-69 | the host takes a firmware response exactly for its own session, sequence and expected kind |
| SwdProtocol.TransferClean | firmware/components/swd_engine/swd_protocol.c:183-274 | for every target reply and every failing hardware call no bit is written while the target side is selected nor read while the host drives; if all calls succeed the host drives at the end and at most a protocol error is reported |
| SwdProtocol.AttemptsBounded | firmware/components/swd_engine/swd_protocol.c:255-274 | at most wait_retries + 1 requests go on the wire |
| SwdProtocol.DataOnlyFromGoodRead | firmware/components/swd_engine/swd_protocol.c:183-274 | the caller's word is set on a read that ends with ACK OK and no error, to the 32 bits the last attempt received with right parity in the data phase right after that ACK, and is left alone in every other case |
| SwdProtocol.AttemptOnWire | firmware/components/swd_engine/swd_protocol.c:95-253 | an attempt whose hardware calls succeed clocks exactly the request, turnaround and ACK and then what that ACK calls for (data with parity behind the guard bit, dummy data phase, way back, idle bits), in order, and reports InvalidResponse exactly for an unknown ACK |
| SwdProtocol.IdleChunksExact | firmware/components/swd_engine/swd_protocol.c:71-93 | idle chunks are 2 to 64 bits and sum to the request, or to 2 when 1 is asked |
| SwdProtocol.WriteIdleClean | firmware/components/swd_engine/swd_protocol.c:71-93 | idle writing is never refused, fails only with the hardware, and otherwise puts exactly those chunks of zeros on the wire |
| SwdProtocol.ParityChecks | firmware/components/swd_engine/swd_protocol.c:21-31 | a word sent with its parity bit has even parity, and a received 33-bit value passes exactly when it has |
| SwdProtocol.Parity32 | firmware/components/swd_engine/swd_protocol.c:21-31 | the shifting loop computes the parity of all bits |
| SwdProtocol.RequestOnWire | firmware/components/swd_engine/swd_protocol.c:51-69 | the request byte has start, stop and park right, even parity over its fields, and gives back port, direction and address |
| SwdProtocol.TakeBack | firmware/components/swd_engine/swd_engine.c:109-126 | turning the bus back from the target is never refused, leaves the host driving, and fails only with the hardware |
| SwdProtocol.LetGo | firmware/components/swd_engine/swd_engine.c:127-144 | turning the bus over to the target is never refused, leaves the target side selected, and fails only with the hardware |
| SwdProtocol.WaitForever | firmware/components/swd_engine/swd_protocol.c:255-274 | a target that always answers WAIT settles a transfer in no number of tries |
| SwdProtocol.Engine.TransferWithRetries | firmware/components/swd_engine/swd_protocol.c:255-274 | the retry loop on the engine is the specified transfer over wait_retries + 1 tries; with the largest setting it ends with the first attempt not answered by WAIT, provided there is one; an invalid request touches nothing |
| SwdProtocol.Engine.TransferAttempt | firmware/components/swd_engine/swd_protocol.c:183-253 | one attempt in place has exactly the specified bus effects, error, ACK and word on every path |
| SwdProtocol.Engine.CompleteErrorDataPhase | firmware/components/swd_engine/swd_protocol.c:158-181 | after WAIT or FAULT the specified data phase is clocked, or none when the host asked for none |
| SwdProtocol.Engine.CompleteProtocolError | firmware/components/swd_engine/swd_protocol.c:140-156 | after an unknown ACK the data phase is clocked through and the bus taken back even when that read fails |
| SwdProtocol.Engine.WriteDataPhaseAndIdle | firmware/components/swd_engine/swd_protocol.c:95-120 | the 40-bit frame goes out and the six idle bits in it count against those asked for |
| SwdProtocol.Engine.RestoreHostAndIdle | firmware/components/swd_engine/swd_protocol.c:122-138 | the bus is turned back and at least one idle cycle follows |
| SwdProtocol.Engine.WriteIdleCycles | firmware/components/swd_engine/swd_protocol.c:71-93 | the chunking loop writes the specified chunks and stops at the first failure |
| Bytes.U32RoundTrip | firmware/components/airdap_frame/airdap_frame.c:13-33 | a 32-bit word survives its four big-endian bytes |
| Bytes.Le32RoundTrip | firmware/components/dap_protocol/dap_protocol.c:69-89 | a 32-bit word survives its four little-endian bytes |

## Left out

- DapService.DisconnectBetweenSessions: one direction only; when a request did wait through a full round of ids, whether two strangers' requests then meet without a disconnect depends on what else the worker is given. `ChecksAreExact` is the exact statement for the check itself.
- NetworkAuth.BoundIsCounted: one direction only; calls on one connection may overlap and still be lucky. `BoundIsCountedExactly` is the exact statement.
- NetworkAuth: what happens on a connection after it is freed, which is undefined in C, is modelled as reading the zeros it was cleared to.
- PolicyWindow.AdmissionWindow: one direction only; the exact condition for the two samples to agree is `StampsSeeBumps`.
- ShellTx.NothingClipped: assumes, as the source does, one writer at a time, a driver that reports only bytes it took on this connection, and fewer than 2^64 bytes on a connection.
- OtaUpload.Upload: stops at the commit, or the abort after a failure; the query before it enters as the capacity it reports, and the queries and reboot check after it are not modelled.
- DAP_TransferBlock, DAP_SWD_Sequence and the other DAP commands are framed but not executed; their execution adds no new kind of argument.
- SWD connect sequences, clock and pin set-up, and the buffers handed to SPI.
- Time stamps in DAP_Transfer answers are the zero words the source writes.
- USB/IP packets are values, not wire bytes; descriptors and the control-request table of endpoint 0 are an arbitrary answer.
- TLS, hashing, credential storage, NVS and flash are inputs that may fail; keys and fingerprints are opaque.
- Sockets, task creation, BLE provisioning, mDNS, buttons and LEDs.
- Component initialisation failures, calls on uninitialised components, and mutexes that cannot be taken.
- Status and statistics queries that only read.
- Memory ordering weaker than sequential consistency: each atomic access is one step of one thread.
