# Intendant: verified models of its protocols, codecs and arithmetic

Intendant is a daemon with a macOS app around it, a relay in front of it and tools that check it. This
project models the parts whose correctness is hardest to see from their code, and proves what they are for.
`dafny verify dfyconfig.toml` checks everything.

- **Daemon supervisor** (`SupervisorModel`, `SupervisorSafety`, `SupervisorRuns`, `SupervisorLaws`,
  `BackendSupervisor`). The app keeps one daemon alive, restarts it with a growing delay and swaps it for an
  updated successor while the old one drains. The model is a state machine over main-queue events with a log of
  what the supervisor did; safety is proved for every run, and a class with one method per source function performs
  exactly its transitions.
- **MCP relay** (`Base64Url`, `RelayRouting`, `TerminalRouting`, `TerminalLaws`, `RelayForward`, `RelayLaws`).
  Session ids and terminal handles carry the daemon that owns them in canonical base64url; a request is routed by
  one argument and its session header, reconnects across a handover at most once, and its client is never told
  something false about delivery.
- **PNG reader** (`PngFilter`, `PngReader`, `PngLaws`). Filters are undone in place row by row, chunks are walked by a
  cursor; both are inverse to a writer.
- **WebSocket clients** (`Bits`, `WebSocketFrames`, `WebSocketMessages`, `CdpReplies`, `WebSocketClients`).
  Two clients over a byte stream that arrives in any pieces: frames round-trip, fragments reassemble, pings
  are answered, and no result depends on the pieces.
- **Build timestamp** (`Calendar`, `StampLaws`). Nested constant divisions against a calendar that steps day by day.
- **Agent View** (`AgentViewProtocol`, `AgentViewSafety`, `AgentViewLaws`, `AgentView`). An epoch-guarded view over
  a table of pending requests; stale, cancelled and refused callbacks never show a frame.
- **Key study** (`PyJson`, `KeyEvidence`, `KeyLaws`, `KeyLog`, `KeyStudy`). One key press at most, whatever call
  raises, and no success without evidence.
- **Dirty tiles** (`DirtyTiles`, `Singles`, `SingleLaws`). Damage rectangles to tiles against the definition by
  pixels, and the dirty fraction in 32-bit floats.

Where code is expressions it is functions here; where it changes things step by step it is a class or a loop,
proved against such functions. The modules named `...Laws` say what the steps and codecs do in their callers' terms,
without naming the functions that compute it. `Common` holds the shared datatypes.

What the proofs found, most of it stated as an exact condition:

- Quit does not sweep a successor whose swap is still pending, nor a daemon that an earlier restart or failed
  swap told to go down and that is still going (`QuitLeavesNothingRunningIff`; runs
  `PendingSuccessorSurvivesQuit`, `RestartedChildSurvivesQuit`).
- A manual restart that cannot spawn cancels a countdown and replaces it with nothing, and takes the handler off
  a running daemon whose exit then nobody sees (`CountdownDeadEndIff`, `ExitStaysWatchedIff`; runs
  `CountdownIsCancelled`, `ExitIsLost`).
- Promotion leaves an armed countdown running, which can then take the promoted successor down
  (`PromotedSuccessorRestartedIff`; run `CountdownTakesPromotedDown`).
- The relay leaves a connection open exactly when the descriptor cannot be read again after connecting
  (`ConnectToActiveDaemon`, `Forward`).
- A request is never answered when the record of the owner it names has an array or object as its state, or when
  it names no owner, its response names a session and a record listed for that port has such a state
  (`ConnectToTerminalOwner`, `BootForTarget`, `Forward`; `ListedStateLeavesUnanswered`).
- An argument after the terminal id still matters in one way: if it is no string the call is not routed
  (`NonStringWordIsNotRouted`).
- A text frame that interrupts a fragmented message replaces it, where section 5.4 of RFC 6455 has the
  connection fail (`InterruptedMessageIsDropped`).
- Timestamps stop sorting at year 10000 (`SortsLikeTimeIff`), and the tile grid counts no tiles at all when
  the tile size plus a side exceeds 2^32 (`GridCountsTheScreen`, `CountWithinGridIff`).
- On grids beyond 2^24 tiles the dirty fraction can be one with a tile still clean (`FractionIsOneIff`,
  `CleanTileVanishes`).

## Model

| member | source | states |
|---|---|---|
| SupervisorSafety.RunIsSafe | macos-app/BackendSupervisor.swift:86-580 | In every state of every run from launch (poll replies, child exits, termination handlers, health ticks, restart timers, manual restarts, swaps and quit in any order) the whole invariant holds: custody of children, one current readiness chain, one pending swap, lawful log |
| SupervisorSafety.StepKeeps | macos-app/BackendSupervisor.swift:215-580 | Each event on its own keeps that invariant |
| SupervisorSafety.LaunchEstablishes | macos-app/BackendSupervisor.swift:114-128 | The launch sequence establishes it, whether or not the first spawn works |
| SupervisorSafety.AnswersFollowTheirStarting | macos-app/BackendSupervisor.swift:486-528 | Every ready or unreachable announcement answers a starting one with no announcement between: never two answers to one start, none after a crash or a clean stop until the next start |
| SupervisorSafety.ChainContinuesOrAnswers | macos-app/BackendSupervisor.swift:492-528 | The reply to a current poll announces ready, or polls again, or after 31 requests announces unreachable |
| SupervisorSafety.ExitActedOnOnce | macos-app/BackendSupervisor.swift:436-457 | No child exit is acted on twice, whatever the termination handler and the health tick do |
| SupervisorSafety.CountdownIsBackoff | macos-app/BackendSupervisor.swift:463-480 | Each announced delay is min(60, 2^k) where k counts, from the log alone, abnormal exits acted on plus failed timer respawns since the last reset; the counter field is that number in every state |
| SupervisorSafety.LiveChildHasOneSlot | macos-app/BackendSupervisor.swift:215-313 | In every reachable state a live child not told to terminate is exactly one of current backend, draining predecessor, pending successor; no draining child is listed twice |
| SupervisorSafety.DrainingIsNotTerminated | macos-app/BackendSupervisor.swift:267-300 | A predecessor sent to drain is told to terminate only once quit has begun |
| SupervisorSafety.SwapCallsAnsweredOnce | macos-app/BackendSupervisor.swift:215-313 | Every swap call has exactly one completion, given already or owed by the one live chain; no probe follows it; at most 31 probes a call; a chain is alive exactly while the in-flight flag is set |
| SupervisorSafety.PromotionHandsOver | macos-app/BackendSupervisor.swift:267-300 | A ready successor takes over without anything terminated: backend and port are its own, the predecessor drains, every live child stays live, the counter restarts, no announcement is made, the call is answered once with success |
| SupervisorSafety.FailedSwapLeavesBackend | macos-app/BackendSupervisor.swift:302-313 | A failing swap leaves backend, port, draining list, counter and timers as they were, and every other child untouched |
| SupervisorSafety.FailedBeginLeavesBackend | macos-app/BackendSupervisor.swift:215-231 | Nor does a swap that fails in its own call: all of that, every earlier child and the pending swap are untouched, no new child is live, the call is answered |
| SupervisorSafety.QuitLeavesNoLiveChildIff | macos-app/BackendSupervisor.swift:409-428 | Of the children not told to go down earlier, quit leaves none running if and only if no pending successor runs |
| SupervisorSafety.QuitLeavesNothingRunningIff | macos-app/BackendSupervisor.swift:409-428 | Quit leaves nothing running if and only if no pending successor runs and no child told to go down by an earlier restart or failed swap is still going |
| SupervisorSafety.ExitStaysWatchedIff | macos-app/BackendSupervisor.swift:389-403 | Every event keeps the current backend's exit seen by its handler, a queued block or the health tick, or replaced by a countdown, except exactly a manual restart that cannot spawn, of a backend that still ran or whose exit only a timer was left to see |
| SupervisorSafety.CountdownDeadEndIff | macos-app/BackendSupervisor.swift:389-403 | An armed countdown is lost with nothing in its place exactly by quit or by a manual restart that cannot spawn |
| SupervisorSafety.PromotedSuccessorRestartedIff | macos-app/BackendSupervisor.swift:267-300 | After a promotion the restart timer can still fire exactly when it was armed at the promotion, and firing it terminates the promoted successor |
| SupervisorRuns.SwapAnsweredByThirtyFirst | macos-app/BackendSupervisor.swift:233-261 | On every run a swap call takes at most 31 answered probes, and is completed by the 31st |
| SupervisorRuns.RunStaysWatched | macos-app/BackendSupervisor.swift:389-457 | From launch on, the backend's exit stays watched until an event that loses it |
| SupervisorRuns.RestartedChildSurvivesQuit | macos-app/BackendSupervisor.swift:389-428 | A run: launch, restart, quit, with the first daemon still running, no swap pending |
| SupervisorRuns.PendingSuccessorSurvivesQuit | macos-app/BackendSupervisor.swift:215-231 | A run: launch, swap, quit, with the successor still live |
| SupervisorRuns.CountdownTakesPromotedDown | macos-app/BackendSupervisor.swift:267-300 | A run: a crash during a swap, the promotion, and the countdown that terminates the promoted daemon |
| SupervisorRuns.CountdownIsCancelled | macos-app/BackendSupervisor.swift:389-403 | A run: a crash announced with a countdown, then a failed manual restart, and nothing armed, polling or announced |
| SupervisorRuns.ExitIsLost | macos-app/BackendSupervisor.swift:389-403 | A run: ready, a failed manual restart, the daemon gone, and no event but the user's left that could notice |
| BackendSupervision.BackendSupervisor.constructor | macos-app/main.swift:383-386 | Launch: the new object is the launch state and satisfies the invariant |
| BackendSupervision.BackendSupervisor.StartBackend | macos-app/BackendSupervisor.swift:114-128 | A started child becomes the backend with the exit policy installed; a failed spawn changes nothing |
| BackendSupervision.BackendSupervisor.BeginUpdateSwap | macos-app/BackendSupervisor.swift:215-231 | Refused at once when a swap is in flight, no live backend or no spawn; else a successor is spawned and probed |
| BackendSupervision.BackendSupervisor.PollSwapReadiness | macos-app/BackendSupervisor.swift:233-261 | Fails the swap when the successor died or 31 probes were spent, else sends one probe |
| BackendSupervision.BackendSupervisor.SwapPollAnswered | macos-app/BackendSupervisor.swift:245-260 | A ready successor is promoted, otherwise the chain goes on |
| BackendSupervision.BackendSupervisor.PromoteSuccessor | macos-app/BackendSupervisor.swift:267-300 | Predecessor to draining, successor to backend with port, exit policy, counter and health timer; one completion; stale calls do nothing |
| BackendSupervision.BackendSupervisor.FinishFailedSwap | macos-app/BackendSupervisor.swift:302-313 | Flag cleared, successor detached and terminated if running, one failed completion |
| BackendSupervision.BackendSupervisor.RestartBackend | macos-app/BackendSupervisor.swift:389-403 | Both timers stopped, a running backend detached and terminated, a new child started and polled if it spawned |
| BackendSupervision.BackendSupervisor.Shutdown | macos-app/BackendSupervisor.swift:409-428 | Quit flag, timers, and exactly the running children among backend and draining list are told and gone |
| BackendSupervision.BackendSupervisor.BackendDidExit | macos-app/BackendSupervisor.swift:436-457 | Only for the current, dead backend and not after quit: the reference is consumed, then a clean stop or a countdown |
| BackendSupervision.BackendSupervisor.ScheduleBackendAutoRestart | macos-app/BackendSupervisor.swift:463-480 | New poll generation, counter up by one, timer armed, delay announced |
| BackendSupervision.BackendSupervisor.RestartTimerFires | macos-app/BackendSupervisor.swift:471-480 | Restart, or another countdown after a failed respawn; nothing after quit |
| BackendSupervision.BackendSupervisor.PollUntilReady | macos-app/BackendSupervisor.swift:486-490 | New generation, starting announced, first poll |
| BackendSupervision.BackendSupervisor.Poll | macos-app/BackendSupervisor.swift:492-528 | Stale generations ignored, unreachable after 31 attempts, else one request |
| BackendSupervision.BackendSupervisor.PollAnswered | macos-app/BackendSupervisor.swift:492-528 | Ready announced only for the current generation |
| BackendSupervision.BackendSupervisor.HealthTick | macos-app/BackendSupervisor.swift:532-541 | A dead backend found by the tick goes through the same exit policy |
| BackendSupervision.BackendSupervisor.ExitNoted | macos-app/BackendSupervisor.swift:267-300 | Exit policy for a backend, removal by identity from the draining list for a predecessor |
| BackendSupervision.BackendSupervisor.Deliver | macos-app/BackendSupervisor.swift:86-580 | For every event the object's methods perform exactly the transition of the state machine, and keep the invariant |
| BuildTimestamp.CivilIsCalendar | build.rs:505-527 | For every day number the nested divisions give the date reached by stepping a Gregorian calendar one day at a time from 1970-01-01 |
| BuildTimestamp.DayCountRecovered | build.rs:505-527 | The date is valid and counting its days month by month gives the day number back |
| BuildTimestamp.CalendarIncreases | build.rs:505-527 | Later days have later dates |
| BuildTimestamp.StampPrintsCalendarDay | build.rs:505-527 | The printed stamp is that calendar date and the rest of the day as a clock time |
| BuildTimestamp.YearBound | build.rs:505-527 | The year is below 10000 exactly for seconds below 253402300800 |
| BuildTimestamp.NoOverflow | build.rs:505-527 | Every intermediate value of the conversion, down to month and day, is below 2^49 and none is negative |
| BuildTimestamp.StringsIncrease | build.rs:505-527 | Below year 10000 stamps have 20 characters and increase lexicographically with the seconds |
| BuildTimestamp.SortsLikeTimeIff | build.rs:505-527 | The stamps of all seconds up to a bound sort like time if and only if the bound lies before year 10000 |
| BuildTimestamp.FirstInversion | build.rs:505-527 | The first instant of year 10000 sorts before the second that precedes it |
| Base64Url.DecodeEncode | scripts/intendant-mcp-relay.py:216-226 | Decoding an unpadded encoding gives the bytes back, for every byte string |
| Base64Url.PaddedIsRepadded | scripts/intendant-mcp-relay.py:270-275 | The padding computed from the length is the padding the encoder produced and stripped |
| Base64Url.AcceptedIffCanonical | scripts/intendant-mcp-relay.py:270-275 | The decode-then-re-encode test accepts exactly the canonical texts: URL-safe alphabet only, no dangling character, zero bits past the last byte |
| RelayRouting.WrapThenUnwrapIff | scripts/intendant-mcp-relay.py:260-308 | For every boot id and ASCII session id, unwrapping the wrapped id gives both back if and only if the session id is nonempty, printable and at most 1050 bytes; otherwise the header is refused |
| RelayRouting.UnwrapThenWrap | scripts/intendant-mcp-relay.py:260-280 | Any prefixed header that unwraps is the wrapping of what it unwrapped to |
| RelayRouting.UnwrapIsInjective | scripts/intendant-mcp-relay.py:260-280 | Two headers that unwrap alike are one header |
| TerminalRouting.FindSlot | scripts/intendant-mcp-relay.py:189-207 | The flag-skipping loop computes the recursive scan |
| TerminalRouting.ScanIffPositional | scripts/intendant-mcp-relay.py:189-207 | The loop stops at a word exactly when a declarative grammar of the operation's flags calls it the positional word |
| TerminalRouting.ScanReadsOnlyTheSlot | scripts/intendant-mcp-relay.py:189-207 | Words after the slot cannot move it |
| TerminalRouting.HandleRoutesIff | scripts/intendant-mcp-relay.py:212-226 | A handle routes to a daemon exactly when it is that daemon's handle for some shell id and UTF-8 name of 1 to 1024 bytes in its one spelling |
| TerminalRouting.RouteTerminal | scripts/intendant-mcp-relay.py:164-226 | The routing procedure computes the specified route or error |
| TerminalRouting.RoutingReadsOnlyTheSlot | scripts/intendant-mcp-relay.py:164-226 | Two facade calls equal up to and including the slot get the same route or error, whatever strings follow |
| TerminalRouting.NonStringWordIsNotRouted | scripts/intendant-mcp-relay.py:182-184 | The one thing after the slot that matters: a word that is no string stops routing |
| RelayForward.ConnectToActiveDaemon | scripts/intendant-mcp-relay.py:101-137 | At most two connections, the second only across an observed handover; nothing requested; a result is pinned to a descriptor read again after connecting; a failure is one round that raised or two that failed, and leaks a connection exactly when the second read raises |
| RelayForward.ConnectToTerminalOwner | scripts/intendant-mcp-relay.py:229-253 | At most one connection, made only to the recorded owner's port after a token of the recorded digest; a refusal has a record or token not in order, or a failed connection, and leaves nothing open; an exception escapes exactly when the record of this boot has an array or object as its state |
| RelayForward.Exchange | scripts/intendant-mcp-relay.py:446-501 | One request, the owner of a session looked up only for a request without one, at most one response started, the connection closed whatever raises; something escapes exactly when a listed record of the port raises |
| RelayForward.BootForTarget | scripts/intendant-mcp-relay.py:283-300 | The session's owner is the boot whose record is the only one of that port, running or draining, with the token's digest; the lookup escapes exactly when a record of the port and of its own file's boot has an array or object as its state |
| RelayForward.ListedStateLeavesUnanswered | scripts/intendant-mcp-relay.py:283-300 | A request without an owner that is sent and never answered, for every descriptor, token and boot id |
| RelayForward.Forward | scripts/intendant-mcp-relay.py:409-525 | On every run at most one request and one response; not_sent implies nothing was requested, unknown that something was; a routed request goes only to the recorded owner with its token, over at most one connection; nothing is left unsent without a refusal of the active daemon or the owner as above, or a session header of another daemon; exactly one answer, unless the owner's record, or, after sending a request without an owner, a listed record of that port, has an array or object as its state, and then exactly none; every connection is closed except exactly in the leak above |
| RelayForward.HonestExchange | scripts/intendant-mcp-relay.py:362-405 | Reads, one proper request and an answer that does not claim it was not sent leave a client nothing false to conclude |
| RelayForward.RefusalIsTruthful | scripts/intendant-mcp-relay.py:502-525 | Reads that end in a refusal, answered in kind and once, are such a run |
| RelayForward.ExchangeIsTruthful | scripts/intendant-mcp-relay.py:446-525 | Reads that reached an upstream, the exchange and one answer are such a run |
| PngFilter.PaethIsNearest | scripts/test-linux-display-cutover.py:195-204 | The predictor is the nearest of left, up, upper-left to left + up - upper-left, ties in that order |
| PngFilter.UnfilterFilter | scripts/test-linux-display-cutover.py:284-301 | For every filter type, pixel width and previous row, unfiltering a filtered row gives it back |
| PngFilter.FilterUnfilter | scripts/test-linux-display-cutover.py:284-301 | And filtering an unfiltered row gives the raw form back |
| PngFilter.UnfilterInPlace | scripts/test-linux-display-cutover.py:284-301 | The loop over the reconstructed buffer computes the row |
| PngReader.DecodeRows | scripts/test-linux-display-cutover.py:276-301 | The row loop, carrying the buffer above, computes the rows or the bad-filter error of the specification |
| PngReader.RowsRoundTrip | scripts/test-linux-display-cutover.py:276-301 | Whatever filter each row was written with, the reader recovers the rows |
| PngReader.WalkOfChunks | scripts/test-linux-display-cutover.py:216-246 | Walking the bytes of a chunk list gives its fold and stops at IEND with the rest untouched |
| PngReader.ChunksOfWalk | scripts/test-linux-display-cutover.py:216-246 | Any byte string the walk accepts is the encoding of such a chunk list |
| PngReader.FoldIffWellFormed | scripts/test-linux-display-cutover.py:229-250 | A chunk list is taken exactly when well formed: one 13-byte IHDR before any IDAT, one empty IEND, last; and yields its own header and joined data |
| PngReader.DecodePng | scripts/test-linux-display-cutover.py:207-303 | The cursor loop and the checks compute the specified image or error |
| PngReader.WellFormedDecodes | scripts/test-linux-display-cutover.py:207-303 | A well-formed file decodes from its header and joined IDAT data alone, wherever the stream was cut |
| PngReader.DecodesIffWellFormed | scripts/test-linux-display-cutover.py:207-303 | A file is accepted exactly when it is a well-formed chunk list with nothing after IEND whose image decodes |
| PngReader.WriterRoundTrip | scripts/test-linux-display-cutover.py:207-303 | A file written from rows with any filters, any cut into IDAT chunks and any ancillary chunks decodes to those rows |
| WebSocketFrames.MaskTwice | scripts/codex_context_stress_e2e.py:500-526 | Masking is its own inverse |
| WebSocketFrames.FrameRoundTrip | scripts/codex_context_stress_e2e.py:491-527 | For every opcode below 16, mask key and payload below 2^64 bytes, reading a sent frame gives opcode and payload back and leaves what follows untouched |
| WebSocketFrames.ParseIffWire | scripts/codex_context_stress_e2e.py:513-527 | The reader accepts exactly the encodings of a frame: any reserved bits, any of the three length forms wide enough, masked or not |
| WebSocketClients.StressClient.RecvExact | scripts/codex_context_stress_e2e.py:504-511 | The next bytes of the stream, however the transport splits them |
| WebSocketClients.StressClient.RecvFrame | scripts/codex_context_stress_e2e.py:513-527 | The first frame of the stream and not a byte more, for every split |
| WebSocketClients.StressClient.SendFrame | scripts/codex_context_stress_e2e.py:491-502 | The frame on the wire; a payload of 2^64 bytes or more sends nothing |
| WebSocketClients.StressClient.RecvMessage | scripts/codex_context_stress_e2e.py:529-553 | The message, the unread rest and one pong per ping, as specified |
| WebSocketMessages.Reassembly | scripts/codex_context_stress_e2e.py:529-553 | A message cut into any number of fragments with any other frames but a close among them comes out whole, the rest unread, one pong per ping, same payloads, same order |
| WebSocketMessages.TextIff | scripts/codex_context_stress_e2e.py:529-553 | Exactly which streams yield which text, which bytes are left and which pings were answered |
| WebSocketMessages.NoTextIff | scripts/codex_context_stress_e2e.py:529-553 | Exactly which streams yield no text: a close frame first, or a message whose last starting frame is no text |
| WebSocketMessages.BrokenIff | scripts/codex_context_stress_e2e.py:504-553 | Exactly which streams break off: frames that neither end a message nor close, then no whole frame |
| WebSocketMessages.PongsReadBack | scripts/codex_context_stress_e2e.py:491-502 | The bytes sent for the pongs parse, in order, to exactly one final pong frame per payload |
| WebSocketMessages.PongsFit | scripts/codex_context_stress_e2e.py:536-538 | No ping that can be read is too long to answer |
| WebSocketMessages.InterruptedMessageIsDropped | scripts/codex_context_stress_e2e.py:541-543 | A text frame inside an unfinished message starts another instead of being refused |
| CdpReplies.RefinesParse | scripts/verify-macos-chromium-controls.py:172-180 | The browser client's frame reader is the general one with four refusals: not final, masked, reserved bits, over 1 MiB |
| CdpReplies.TakenIff | scripts/verify-macos-chromium-controls.py:172-180 | It accepts exactly the whole, unmasked, unreserved encodings of at most 1 MiB |
| CdpReplies.AnswerIff | scripts/verify-macos-chromium-controls.py:162-189 | A call returns a result exactly when at most 256 such frames, pings and unrelated texts, lead to the text that answers it; what is left and what was answered |
| WebSocketClients.CdpClient.Handshake | scripts/verify-macos-chromium-controls.py:125-142 | The header up to the first blank line, the rest kept for the frames; always found when it ends within 8192 bytes, never beyond 12287 |
| WebSocketClients.CdpClient.Exact | scripts/verify-macos-chromium-controls.py:144-153 | The next bytes of buffer and stream together; raising loses nothing |
| WebSocketClients.CdpClient.Send | scripts/verify-macos-chromium-controls.py:155-160 | The same wire form as the other client, at most 1 MiB |
| WebSocketClients.CdpClient.NextFrame | scripts/verify-macos-chromium-controls.py:172-180 | The first acceptable frame of buffer and stream together, including bytes left over from the handshake |
| WebSocketClients.CdpClient.Call | scripts/verify-macos-chromium-controls.py:162-189 | One request sent, then the answer, the rest and the pongs the specification gives for the bytes to come; whatever happens, what is left is the end of what was there |
| AgentViewSafety.InventoryIff | macos-app/AgentViewModel.swift:108-119 | An inventory is taken exactly when live with valid rows of pairwise distinct targets, at most two, or stopped with none |
| AgentViewSafety.RunIsSafe | macos-app/AgentViewModel.swift:129-197 | Any order of show, hide, reload, select, tick, session callbacks and queued refusals keeps the invariant of view and table together |
| AgentViewSafety.StepKeeps | macos-app/AgentViewModel.swift:147-197 | Each event on its own keeps it |
| AgentViewSafety.FrameIsTheSelectedMonitors | macos-app/AgentViewModel.swift:181-197 | A frame is present exactly when its receive time is and the preview message shows; then the view is visible and the frame is what one request of this epoch, for the monitor selected now, received in full; the selection is in the list |
| AgentViewSafety.BusyIffOneIsOutstanding | macos-app/AgentViewModel.swift:147-197 | Busy exactly when a request carrying the current epoch is outstanding, never two, and never more than one connection |
| AgentViewSafety.AnsweredAtMostOnce | macos-app/AgentViewTransport.swift:88-94 | No request's completion runs twice, nor while it is still outstanding |
| AgentViewSafety.SuccessCarriesWhatWasReceived | macos-app/AgentViewTransport.swift:80-94 | No request holds more than 32 MiB; a success has no failure recorded and carries exactly the received chunks in order |
| AgentViewSafety.CaptureOutcomeIsShown | macos-app/AgentViewModel.swift:184-197 | A capture completed from the table is never stale: the view is visible with that monitor selected, and shows the frame or drops it and says why, with the next request after 2 or 5 seconds |
| AgentViewSafety.InventoryOutcomeIsTaken | macos-app/AgentViewModel.swift:160-172 | An inventory completed from the table is always taken; a selection still listed is captured at once in the same epoch, one no longer listed is dropped |
| AgentViewSafety.StaleCompletionIsIgnored | macos-app/AgentViewModel.swift:160-197 | A completion of an earlier epoch, or for a hidden view, changes nothing |
| AgentViewSafety.HiddenDoesNothing | macos-app/AgentViewModel.swift:151-155 | Hidden: no frame, not busy, no connection, and no request until shown |
| AgentViewSafety.RefusalsAreStillAnswered | macos-app/AgentViewTransport.swift:47-52 | A refused request leaves the main queue only by its own turn, which runs its completion |
| AgentViewSafety.RefusalArrivesAfterHide | macos-app/AgentViewTransport.swift:47-52 | So one can arrive after a hide, and leaves the hidden view as it is |
| AgentView.AgentViewTransport.Call | macos-app/AgentViewTransport.swift:47-69 | A row in the table, or a refusal queued when there is no admission token |
| AgentView.AgentViewTransport.Cancel | macos-app/AgentViewTransport.swift:64-68 | The row is gone, the queue is not touched |
| AgentView.AgentViewTransport.Close | macos-app/AgentViewTransport.swift:38 | Every row is gone |
| AgentView.AgentViewTransport.DidReceiveResponse | macos-app/AgentViewTransport.swift:70-79 | Allowed exactly for a pending request with status 200 and a bounded length; otherwise the failure is recorded |
| AgentView.AgentViewTransport.DidReceiveData | macos-app/AgentViewTransport.swift:80-87 | Appended within 32 MiB, else failed |
| AgentView.AgentViewTransport.DidComplete | macos-app/AgentViewTransport.swift:88-94 | The row is removed first and its reply is failure, transport error or data, in that order |
| AgentView.AgentViewTransport.Redirected | macos-app/AgentViewTransport.swift:95-98 | A redirect is a recorded failure |
| AgentView.AgentViewModel.Invalidate | macos-app/AgentViewModel.swift:147-149 | Next epoch, request cancelled, idle |
| AgentView.AgentViewModel.Show | macos-app/AgentViewModel.swift:150 | Visible and reloading |
| AgentView.AgentViewModel.Hide | macos-app/AgentViewModel.swift:151-154 | Hidden, invalidated, frame dropped |
| AgentView.AgentViewModel.Reload | macos-app/AgentViewModel.swift:155-159 | A fresh inventory request of a fresh epoch |
| AgentView.AgentViewModel.Listed | macos-app/AgentViewModel.swift:160-172 | Stale replies ignored; list replaced, selection kept only if listed, then a tick |
| AgentView.AgentViewModel.Select | macos-app/AgentViewModel.swift:174-180 | Invalidated; only a listed monitor is selected |
| AgentView.AgentViewModel.Tick | macos-app/AgentViewModel.swift:181-184 | A capture of the selection when visible, idle and due |
| AgentView.AgentViewModel.Captured | macos-app/AgentViewModel.swift:184-197 | Only for this epoch and this selection: a frame with its time, or its removal |
| AgentView.AgentViewModel.Deliver | macos-app/AgentViewModel.swift:129-197 | For every event the two objects perform exactly the step of the state machine, and keep the invariant |
| KeyStudy.Study.Collect | scripts/macos_concurrent_keys.py:299-404 | Whatever call raises: at most one press, on a covered log, always followed by a request for the finishing witness; completed only with evidence that stands before and after the operation it is about; a normal return exactly when completed and the last checkpoint was written; a bad key or deadline calls nothing |
| KeyStudy.Study.Bracket | scripts/macos_concurrent_keys.py:309-344 | One operation, at a place on the log with a valid witness before it and one after it that reports the same baseline; an operation that raises is witnessed all the same |
| KeyStudy.Study.Run | scripts/macos_concurrent_keys.py:346-387 | The body of the study: for each outcome, what is on the log before and after the preparation and the press |
| KeyStudy.Study.Observe | scripts/macos_concurrent_keys.py:369-373 | Polling reads only and ends |
| KeyLog.StudyIsSound | scripts/macos_concurrent_keys.py:299-404 | A refused preparation means no press, and the field and geometry read after it as before it; else exactly one press, covered, bracketed, the geometry read after it as before it, and the field read after it either as armed (refused dispatch) or one trusted key pair and one caret step away (verified effect) |
| KeyLog.EvidenceStays | scripts/macos_concurrent_keys.py:389-404 | The evidence for an outcome outlasts everything the study does afterwards |
| KeyLog.PressIsCovered | scripts/macos_concurrent_keys.py:317-327 | Any press on a lawful log follows a granted token, a valid baseline and, immediately, a saved record of the attempt |
| KeyLog.CountOfOne | scripts/macos_concurrent_keys.py:361-363 | Two presses cannot both be on such a log |
| KeyLog.PressIsWitnessed | scripts/macos_concurrent_keys.py:331-337 | Every press is followed by a request for the finishing witness |
| KeyEvidence.EffectIsOnePairAndOneStep | scripts/macos_arrow_acceptance.py:8-31 | A verified effect moves the caret by exactly one in the key's direction, from no events to one trusted pair, the text unchanged |
| KeyEvidence.ActivityIsCounted | scripts/macos_concurrent_keys.py:21-44 | A valid finishing witness claims activity exactly when a counter moved, and is silent exactly on a regression |
| KeyEvidence.PreparedToken | scripts/macos_concurrent_keys.py:157-173 | A token is taken only from a successful preparation of this key, and is well formed |
| KeyEvidence.TokenIsNotReported | scripts/macos_concurrent_keys.py:228-235 | The one-use token is not in the recorded reply; everything else of the preparation is |
| DirtyTiles.CollectDirtyTiles | examples/damage-trace.rs:246-266 | For any rectangles, screen sides up to 65535 and tile size of at least 1, the tile set is exactly the tiles with a pixel on the screen in some rectangle |
| DirtyTiles.RectTiles | examples/damage-trace.rs:249-266 | The tiles between the clipped corners are exactly those with a pixel of the rectangle on the screen |
| DirtyTiles.NotTruncated | examples/damage-trace.rs:257-260 | No tile index is truncated by the 16-bit cast |
| DirtyTiles.GridCountsTheScreen | examples/damage-trace.rs:194-196 | The grid total is the number of tiles of the screen, or 0 when a 32-bit sum wraps |
| DirtyTiles.CountWithinGridIff | examples/damage-trace.rs:194-268 | No damage yields more tiles than the grid total, if and only if neither 32-bit sum wraps or the screen has no pixels |
| DirtyTiles.FractionIsOneIff | examples/damage-trace.rs:268-272 | In 32-bit floats, below the wrap, the fraction is one exactly when every pixel's tile is dirty, for all damage, if and only if the grid total and the total less one are different floats |
| DirtyTiles.FractionOfDamage | examples/damage-trace.rs:268-272 | Of any damage the fraction is one exactly when its count and the total round to the same float |
| DirtyTiles.SmallGridsAreExact | examples/damage-trace.rs:268-272 | That holds for every grid of at most 2^24 tiles |
| DirtyTiles.CleanTileVanishes | examples/damage-trace.rs:268-272 | It fails for one-pixel tiles on a 4097 by 4096 screen: one clean tile, fraction one |
| Singles.RatioIsOneIff | examples/damage-trace.rs:271 | The rounded quotient of two counts is one exactly when they are the same float |
| SupervisorLaws.ExitsAreToldAsTheyWere | macos-app/BackendSupervisor.swift:436-457 | On every run each exit on the log is of a child that is gone, clean or abnormal as that child really went |
| SupervisorLaws.ExitNoteIsActedOn | macos-app/BackendSupervisor.swift:436-457 | Before quit, the note of the current backend ends it: a clean exit appends the clean stop with counter and countdown untouched, an abnormal one a countdown with the timer armed, counted from zero exactly after ten minutes of running; any other note is dropped |
| SupervisorLaws.HealthTickIsActedOn | macos-app/BackendSupervisor.swift:532-541 | A tick that finds the backend dead does the same, and one that finds it running changes nothing |
| SupervisorLaws.DrainNoteForgetsItsChild | macos-app/BackendSupervisor.swift:267-300 | The note of a drained predecessor takes it off the draining list, the rest in order, and changes nothing else |
| SupervisorLaws.ExitsAreNoted | macos-app/BackendSupervisor.swift:114-128 | An exit changes its child alone, and its handler runs once and leaves a note exactly if one is installed |
| SupervisorLaws.ManualRestartReplaces | macos-app/BackendSupervisor.swift:389-403 | A running backend is told to terminate with its handler off; a spawned child is the backend under the exit policy with a fresh readiness chain, and without one nothing else happens; both timers are off either way |
| SupervisorLaws.CountdownEnds | macos-app/BackendSupervisor.swift:463-480 | The timer restarts in the same way, or arms the next countdown with the counter one up; after quit it does nothing |
| SupervisorLaws.Countdowns | macos-app/BackendSupervisor.swift:463-480 | The delays are 2, 4, 8, 16, 32 and then always 60 seconds |
| SupervisorLaws.LaunchStarts | macos-app/main.swift:383-386 | Readiness polling starts whether a child could be spawned or not, and a spawned one is the backend under the exit policy |
| SupervisorLaws.PollAnswerIsActedOn | macos-app/BackendSupervisor.swift:492-528 | The whole state after each answer: stale, ready, retried, or the 31st failure |
| SupervisorLaws.SwapBegins | macos-app/BackendSupervisor.swift:215-231 | The whole state after a swap call: refused with nothing changed but the answer, or a live unwatched child probed on the new port, or a dead one answered at once |
| SupervisorLaws.FailedProbeIsActedOn | macos-app/BackendSupervisor.swift:233-261 | The whole state after a failing probe: one more probe, or the swap ended with its successor told to terminate if it runs |
| SupervisorLaws.ReadySuccessorTakesOver | macos-app/BackendSupervisor.swift:267-300 | The whole state after a promotion, each handler included |
| SupervisorLaws.QuitEndsItsChildren | macos-app/BackendSupervisor.swift:409-428 | Exactly the running backend and running draining children are told and gone; every other child and the rest of the state stay |
| SupervisorLaws.PortFollowsTheBackend | macos-app/BackendSupervisor.swift:267-300 | The port changes by a ready successor's answer, to that successor's port, and by nothing else |
| StampLaws.StampReadsBack | build.rs:505-527 | Every stamp splits into decimal fields that read back as its calendar date and the hours, minutes and seconds of its time, two digits each, the year with four exactly below year 10000 |
| StampLaws.PaddedReads | build.rs:505-527 | A padded field is all digits, at least as wide as asked for and reads as its number; a wider one is unpadded |
| Base64Url.EncodedSextets | scripts/intendant-mcp-relay.py:303-308 | Each character of an encoding is the letter of RFC 4648's table for its six bits of the bytes, the first byte's top bit first |
| TerminalLaws.RoutedIff | scripts/intendant-mcp-relay.py:164-226 | A call is routed to a daemon exactly when it names a terminal of that daemon, by the argument of a terminal tool or the positional word of a facade command, white space ignored around it for open only |
| TerminalLaws.RefusedIff | scripts/intendant-mcp-relay.py:164-226 | It is refused exactly when what it names begins like a handle and is no daemon's terminal |
| TerminalLaws.UnroutedIff | scripts/intendant-mcp-relay.py:164-226 | It goes to the active daemon exactly when nothing it names begins like a handle |
| TerminalLaws.KnownFlags | scripts/intendant-mcp-relay.py:187-206 | Which words are flags of which operation: two of open and two of read take a value, as the next word or behind an equals sign; one of open and one of write stand alone |
| TerminalLaws.StripIff | scripts/intendant-mcp-relay.py:208-209 | Trimming gives the one middle part that neither begins nor ends with white space |
| RelayLaws.SessionIff | scripts/intendant-mcp-relay.py:260-280 | A session goes to a daemon, unwrapped, exactly when the header wraps it for that daemon |
| RelayLaws.DestinedIff | scripts/intendant-mcp-relay.py:409-445 | A request goes to a daemon exactly when its call or its wrapped session names it and neither names another; to the active daemon exactly when neither names one |
| RelayLaws.RefusedRouteIff | scripts/intendant-mcp-relay.py:409-445 | Exactly when each of the three refusals is given: a call and a session of different daemons, a broken handle, a broken session; none says anything was sent, and only the last is a protocol error |
| PngLaws.UnfilterReconstructs | scripts/test-linux-display-cutover.py:284-301 | Every byte of a row is its raw byte plus, for the five filter types: nothing, the byte before, the byte above, the floor of their mean, or the nearest of the three neighbours; modulo 256, zero at the left edge |
| PngLaws.RowsAreReconstructed | scripts/test-linux-display-cutover.py:276-301 | Each decoded row is reconstructed so from its own bytes of the stream and the row above it |
| PngLaws.ImageIff | scripts/test-linux-display-cutover.py:250-303 | An image comes out exactly of 8-bit RGB or RGBA, not interlaced, sides of 1 to 4096, with inflated data of its length and legal filter types; with 3 or 4 bytes a pixel and the rows reconstructed from that data |
| PngLaws.ImageErrors | scripts/test-linux-display-cutover.py:250-286 | The error names the first fault in the order of the checks, and for filters the first bad row |
| PngLaws.ImageWithoutHeader | scripts/test-linux-display-cutover.py:250-256 | A file without an image header is refused for its dimensions |
| PngLaws.ChunkLayout | scripts/test-linux-display-cutover.py:216-227 | Where length, kind, payload, CRC and the rest lie, and over what the CRC is taken |
| PngLaws.ChunkErrors | scripts/test-linux-display-cutover.py:216-227 | A chunk that cannot be read is cut short, longer than the file, or of another CRC, in that order |
| PngLaws.AbsorbErrors | scripts/test-linux-display-cutover.py:229-247 | Each error of a chunk in the wrong place or of the wrong size, exactly when it is given; otherwise IHDR sets the header and IDAT appends its payload |
| PngLaws.HeaderLayout | scripts/test-linux-display-cutover.py:229-239 | The seven fields of an image header, in their order |
| WebSocketFrames.MaskedBits | scripts/codex_context_stress_e2e.py:491-502 | Octet i of a masked payload differs from octet i of the payload in exactly the bits of key octet i modulo 4 |
| WebSocketFrames.ClientFrameLayout | scripts/codex_context_stress_e2e.py:491-502 | The bytes of a sent frame: final bit and opcode, masked bit and shortest length form, the length in base 256 from the highest digit, the key, the masked payload |
| AgentViewLaws.SelectionIsHonoured | macos-app/AgentViewModel.swift:174-180 | On a visible view the monitor asked for is the one selected if it is listed, and the only request out is then its capture under a new epoch; otherwise nothing is selected or asked for |
| AgentViewLaws.ReloadAsksForTheList | macos-app/AgentViewModel.swift:150-159 | Showing or reloading asks for the list once, under a new epoch, with list and selection kept until it comes |
| AgentViewLaws.HidingEndsEverything | macos-app/AgentViewModel.swift:151-154 | Hiding or shutting down leaves nothing in flight and nothing shown, and keeps list and selection |
| AgentViewLaws.TickAsksOrWaits | macos-app/AgentViewModel.swift:181-184 | A tick asks for one capture of the selection in the same epoch, or changes nothing |
| AgentViewLaws.RefreshIsPaced | macos-app/AgentViewModel.swift:181-197 | After a capture nothing the session or early ticks do changes anything, and the first tick two seconds after a frame, or five after a failure, asks for the same monitor again with the frame still shown |
| AgentViewLaws.FailureReachesTheUser | macos-app/AgentViewTransport.swift:70-98 | Whatever a request was for: status 401 or 403 ends as no permission, any other head, a redirect or a long announced body as unavailable, a body past 32 MiB as too large |
| AgentViewLaws.RefusalIsShown | macos-app/AgentViewTransport.swift:47-52 | A refused request of this epoch ends as a permission failure when its turn comes |
| AgentViewLaws.BodyIsGathered | macos-app/AgentViewTransport.swift:70-87 | An acceptable head and data within the limit record no failure, and the data is appended to its own row alone |
| AgentViewLaws.StrangersAreIgnored | macos-app/AgentViewTransport.swift:70-98 | A callback of a task that is not in the table changes nothing |
| AgentViewLaws.FrameIff | macos-app/AgentViewTransport.swift:42-46 | A frame comes exactly of a reply without failure that the wire format makes it of, for that request and monitor |
| AgentViewLaws.ListIff | macos-app/AgentViewModel.swift:160-172 | A list comes exactly of a reply without failure whose inventory is acceptable; the user is told whether it is empty, or else which failure it was |
| AgentViewLaws.UnavailableIff | macos-app/AgentViewModel.swift:108-119 | The broker is called unavailable exactly when a well-formed reply names some other state than the three known |
| KeyLaws.StartIff | scripts/macos_focus_witness.py:12-40 | The first witness accepted is exactly what an honest sampling of both focuses writes |
| KeyLaws.FinishIff | scripts/macos_concurrent_keys.py:21-44 | The finishing witness accepted is exactly what an honest second sampling writes: each change told when both its samples are valid and only then, the activity flag true exactly when a counter moved |
| KeyLaws.PreparedIff | scripts/macos_concurrent_keys.py:157-173 | A preparation is taken exactly when it is one certain object for this key, this window and an enabled text field, with a token of 32 hexadecimal digits |
| KeyLaws.NoPostIff | scripts/macos_concurrent_keys.py:176-186 | A reply proves that nothing was posted exactly when five fields say so, an error is told, and there is no receipt and no focus interference |
| KeyLaws.EffectIff | scripts/macos_arrow_acceptance.py:8-31 | An effect is verified exactly when the receipt reports two posted calls and nothing else and the page went from untouched to pressed once |
| KeyLaws.ReceiptMatchesIff | scripts/macos_concurrent_keys.py:381-388 | A receipt matches exactly when it owns up to the attempt and the receiver, and likewise the window, was one and the same when prepared, before and after |
| KeyLaws.ReportKeepsTheRest | scripts/macos_concurrent_keys.py:228-235 | The report keeps every field of a reply and of its preparation but the token |
| SingleLaws.SingleIsNearest | examples/damage-trace.rs:271 | Converting a count gives the nearest 32-bit float, halfway between two the even one |
| SingleLaws.QuotientIsClose | examples/damage-trace.rs:271 | A quotient of two such is off by at most one part in 2^24 |
| SingleLaws.FractionIsClose | examples/damage-trace.rs:268-272 | The fraction is at most one, zero exactly for no damage or an empty grid, one for damage that fills or exceeds the grid, and below that within four parts in 2^24 of the true ratio |

## Left out

- BuildTimestamp.StringsIncrease: stops before year 10000, because the strings stop sorting there; `SortsLikeTimeIff` gives the exact bound.
- SupervisorSafety.QuitLeavesNothingRunningIff: quit is not shown to leave nothing running, because it can; the lemma gives the exact condition.
- SupervisorSafety.RunIsSafe: the launch sequence happens once, and the interface's own calls (manual restart, swap, quit) stop at quit.
- TerminalRouting.RoutingReadsOnlyTheSlot: needs the words after the slot to be strings, because the source refuses an argument list that holds anything else; `NonStringWordIsNotRouted` is the other half.
- RelayForward.Forward: the relay's own answers are taken to be written once decided on, and a body nested too deeply to parse counts as one that could not be read. Writing a response is taken to succeed once it has started; copying headers (with the wrapping of a session the response names) and streaming bodies are not modelled, only the points at which they can raise.
- DirtyTiles.CountWithinGridIff: models the release build, in which 32-bit sums wrap; a debug build stops there instead.
- KeyStudy.Study.Collect: the text of diagnostics and their classification into categories, the copy of the fixture kept in the report and the closing summary are not modelled; the log of calls is that of one study.
- WebSocketClients.CdpClient.Handshake: the status line and the accept key are one predicate of the header, and between 8192 and 12287 bytes the outcome depends on how the header arrives.
- WebSocketClients.CdpClient.AwaitReply: on failure the pongs sent are stated and that what is left is the end of what was there, not how much was read.
- Process launching, sockets, files, clocks and random masks: every step of the environment may answer anything or raise. Time is a monotonic reading; read and call deadlines other than those of the key study are not modelled.
- JSON parsing, UTF-8 validity, zlib, CRC-32 and SHA-256 are functions given to the models; the PNG round trip assumes only that inflating the joined data gives the filtered rows back.
- The supervisor's identifiers for children are indices in order of spawning; reading whether a child runs and acting on it is one step, and the failure count of the health probe, the relay of pending swap claims, drain requests, log rotation and detail texts are left out.
- The Agent View epoch is unbounded (the source wraps at 2^64), completions arrive after the call that caused them has returned, and JSON details of monitors and frames, the certificate challenge and the window itself are left out.
- The stress client's own handshake, which reads its response by blocks and keeps nothing that follows it.
- The rest of the Python harnesses, the menus and windows of the app, web-assembly rebuilding, version comparison and audio chunking: they would only add easy members.
