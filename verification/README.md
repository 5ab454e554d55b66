# TangoKore: a verified model of the agent and its enrollment

This project models the parts of KontangoOSS/TangoKore whose behaviour spans many steps, and
proves what holds of every run of them.

* **Store-and-forward telemetry** (`internal/agent/agent.go`, `buffer.go`, `pulse.go`). The agent
  takes events from a channel and publishes them to NATS; while NATS is away it keeps them in a
  time-bounded buffer and replays them on reconnection.
  * `EdgeBuffer.dfy` specifies the buffer on values and shows exactly when its eviction cannot be
    observed.
    `EventBuffer.dfy` is the buffer itself: a window on a backing array, re-sliced, appended to
    and truncated in place, whose payloads are byte arrays.
  * `Telemetry.dfy` is the loop as a step machine. A step is one interaction with the world, whose
    answers (clock, connection attempts, acknowledgements, selects) come from an arbitrary script.
    A ledger records where each event is. The theorems are about every script.
  * `PublishCalls.dfy` lists every single call of `js.Publish` and `nc.Publish` in such a run, with
    whether it was acknowledged, and relates the calls to the hand-offs. An event can be published
    up to three times; at most one of these calls is acknowledged or on core NATS.
  * `TelemetryRuns.dfy` gives runs that reach the limits: a seventh sleep of an outage with an event
    in the buffer, and an event published three times.
  * `TelemetryCourse.dfy` tells from the answers alone where such a run is: in a session, in the pause
    after one, in an outage, stopped; with which interval, JetStream context and backoff.
  * `TelemetryLoop.dfy` is `runTelemetryLoop` with its nested loops and the real buffer and frames,
    proved to take the machine's steps and to make its calls. A script that ends is a process
    killed at that point.
  * `PulseFraming.dfy` is the wire frame. `Intervals.dfy` follows a reporting interval from the
    controller into tickers, in 64-bit arithmetic.
* **The enrollment event stream** (`internal/enroll/sse.go`): the client's loop in
  `EnrollStream.dfy`; in `EnrollReports.dfy` the round trip from a server's typed reports to the
  client's callbacks and outcome; in `EventStreamStandard.dfy` the interpretation that sections 9.2.5 and
  9.2.6 of the WHATWG HTML Living Standard define, from characters to messages; and in
  `EventStreamAgreement.dfy` exactly when the two agree on events with any number of data lines.
* **The resumable installer** (`internal/controller/install.go`) in `Installer.dfy`: series of runs
  in which any step may fail, be interrupted, or succeed without leaving its sentinel.
* **The enrollment wizard** (`cmd/kontango/enroll_tui.go`) in `Wizard.dfy`: its transition
  function, run with replies that arrive only after the command that asks for them. What such runs
  send is in `WizardEnrollment.dfy`, and where the text of it was typed in `WizardTyping.dfy`.
* **The two access checks** (`internal/caddy/http_router.go`, `internal/routing/config_router.go`)
  in `AccessControl.dfy`, and the **hand-made HTTP client** (`internal/agent/apply.go`) in
  `HttpBody.dfy`. `Strings.dfy`, `Histories.dfy` and `Common.dfy` hold what several models
  share.

Clock readings, network and disk outcomes, keys and replies are parameters. JSON decoding and the
effect of an installer step are function parameters, so the results hold for all of them. What a
hypothesis asks for is said in the contract that needs it.

## Where the code and its words differ

* `internal/agent/buffer.go:11` says events older than `maxAge` are dropped on every append. The
  eviction loop stops at the first young entry, so `push` as written does this exactly if no entry
  too old stands behind one that is not (`EdgeBuffer.PushBounds`), and fails to for stamps that run
  backwards (`EdgeBuffer.OldEntryStays`). An event aged exactly `maxAge` is kept by a push and left
  out by a drain.
* `internal/agent/buffer.go:49` says drain returns all buffered events. Used concurrently it can
  miss a young one: `EdgeBuffer.EvictingExactly` says exactly when, `EdgeBuffer.EarlyDrainLosesAnEvent`
  gives a run. In the program one goroutine both pushes to this buffer and drains it, and its clock
  is monotonic, so neither this nor the old entry above comes about (`EdgeBuffer.EvictingRefinesLog`,
  `EdgeBuffer.MonotoneBounded`).
* `internal/agent/agent.go:397` says up to five minutes of events survive an outage. The backoff
  reaches 320 seconds, so from the seventh sleep of an outage on nothing buffered before the sleep
  does: `Telemetry.AcrossASleep`, with a run in `TelemetryRuns.LostInSeventhSleep`. What arrives
  during a sleep waits in the event channel, not in the buffer, and is not concerned.
* `cmd/kontango/enroll_tui.go:443` takes row 0 for "none", but the profile sent is the one after the
  highlighted row: `WizardEnrollment.NextRowSent` gives the runs, and `WizardEnrollment.SentExactly`
  what can be sent at all. The first profile of a list never is.
* The event client is not a full implementation of its format. It needs the space that the format
  leaves optional after a field's colon: without it the standard dispatches an event and the client
  sees nothing (`EventStreamAgreement.SpaceNeeded`). And it takes the first of several data lines:
  of events printed with the space, `EventStreamAgreement.AgreeExactly` says exactly which it reads
  as the standard does, and `EventStreamAgreement.HandlingExactly` when the difference cannot be seen.
* The two access checks part when a request's attributes header is blank: the Caddy handler then
  goes by the identity header (`AccessControl.IdentityStandsIn`, `AccessControl.ChecksAgree`).
* An interrupted leader installation that resumes after preflight makes its certificate without the
  node's address: `Installer.AddressLost`. `Installer.SameDiskExactly` says exactly when it does not.
* An interval above 9,223,372,036 seconds can become a negative duration and stop the agent:
  `Intervals.BoundExactly`.

## Model

| member | source | states |
|---|---|---|
| `EdgeBuffer.DrainExactly` | internal/agent/buffer.go:33-65 | draining what pushes have left of a log returns the young part of the whole log exactly if no push was stamped more than maxAge after the first entry that is young at the drain |
| `EdgeBuffer.EvictingExactly` | internal/agent/buffer.go:28-66 | so over any run of pushes and drains every drain returns what an unbounded log filtered by age would, in push order, exactly if that is so at each of its drains |
| `EdgeBuffer.EvictingRefinesLog` | internal/agent/buffer.go:28-66 | in particular if no drain reads an earlier clock than a push it collects; push stamps may be out of order |
| `EdgeBuffer.EarlyDrainLosesAnEvent` | internal/agent/buffer.go:29-53 | a drain that read its clock before a concurrent push stamped more than maxAge later misses an event that is young by that clock |
| `EdgeBuffer.MonotoneExact` | internal/agent/buffer.go:33-46 | with a clock that never runs backwards the buffer after a push is exactly the log since the last drain aged at most maxAge, sorted by stamp |
| `EdgeBuffer.PushBounds` | internal/agent/buffer.go:33-46 | a push leaves nothing older than maxAge exactly if no entry too old stood behind one that is not |
| `EdgeBuffer.OldEntryStays` | internal/agent/buffer.go:37-41 | two pushes with stamps that run backwards and a third leave an entry that is too old |
| `EdgeBuffer.MonotoneBounded` | internal/agent/buffer.go:8-11 | with a clock that never runs backwards every push leaves nothing older than maxAge |
| `EdgeBuffer.PushOfRead` | internal/agent/buffer.go:33-46 | a push commutes with replacing payload references by what they refer to |
| `EdgeBuffer.FreshOfRead` | internal/agent/buffer.go:58-63 | and so does the selection a drain makes |
| `EventBuffers.EventBuffer.Evict` | internal/agent/buffer.go:33-41 | re-slicing past the stale prefix, by an index loop, is dropping exactly that prefix |
| `EventBuffers.EventBuffer.Append` | internal/agent/buffer.go:46 | appending in place or into a larger array adds one slot and leaves the others as they were |
| `EventBuffers.EventBuffer.Push` | internal/agent/buffer.go:28-47 | push on the real structure is the specified push of the caller's bytes, and the payload kept is a fresh array |
| `EventBuffers.EventBuffer.Drain` | internal/agent/buffer.go:51-66 | drain on the real structure returns the specified payloads and leaves the buffer empty and owning nothing |
| `EventBuffers.Client` | internal/agent/buffer.go:43-65 | over any client run of pushes, writes to the client's own arrays and drains, every payload ever drained still holds at the end what a share-nothing buffer would have returned |
| `PulseFraming.EncodePulseMessage` | internal/agent/pulse.go:91-101 | filling the buffer in place gives length byte, slug cut at 255 bytes, and data |
| `PulseFraming.DecodeOfEncode` | internal/agent/pulse.go:91-112 | decoding undoes encoding up to the cut at 255 bytes, except for the frame of nothing, which is too short to read |
| `PulseFraming.EncodeOfDecode` | internal/agent/pulse.go:103-112 | encoding undoes decoding on every frame that decodes |
| `PulseFraming.PublishedRightly` | internal/agent/agent.go:512-516 | a payload is published with the slug and the data it is a frame of, and one that is no frame whole, under the seven bytes of "unknown" |
| `PulseFraming.NothingLost` | internal/agent/agent.go:512-516 | what is published frames back to the payload or is the payload under "unknown" |
| `PulseFraming.PublishedAlike` | internal/agent/agent.go:582-587 | two payloads are published alike exactly when they are equal or one is the other, undecodable, framed under "unknown" |
| `Telemetry.Conservation` | internal/agent/agent.go:400-602 | after any run every received event is in exactly one place, once: handed off, under way, buffered or expired; nothing expired before it had been buffered for five minutes |
| `Telemetry.NeverTwice` | internal/agent/agent.go:505-602 | no event is acknowledged by JetStream or published on core NATS more than once, and none that expired is |
| `Telemetry.ReceivedMeaning` | internal/agent/agent.go:426-434 | the events received are exactly the payloads the channel gave to a waiting loop, in order |
| `Telemetry.HandedMeaning` | internal/agent/agent.go:518-524 | the hand-offs are publishes that took place, through JetStream exactly if acknowledged; and every publish step that was acknowledged or on core NATS is on the ledger, after those before it, once |
| `PublishCalls.CountedAreHanded` | internal/agent/agent.go:518-524 | of all calls of js.Publish and nc.Publish in a run, those acknowledged or on core NATS are the hand-offs, in the same order |
| `PublishCalls.CallsForEvent` | internal/agent/agent.go:518-598 | in every run an event is published at most three times; only the last call for it can be acknowledged or on core NATS, and is exactly if the event was handed off; every other call is a JetStream publish that failed; so it is published more than once exactly if one failed and it was handed off since |
| `TelemetryRuns.PublishedThreeTimes` | internal/agent/agent.go:505-602 | there are runs with three calls for one event: a live publish that fails, and a replay that fails and is repeated on core NATS |
| `Telemetry.Ordering` | internal/agent/agent.go:565-602 | an event handed off after a later one is a refused one; a publish session starts with an empty buffer and buffers only refused events while it lasts |
| `Telemetry.RefusedMeaning` | internal/agent/agent.go:590-596 | the refused events are exactly those whose JetStream publish failed with the connection found up right after |
| `Telemetry.HandedInReceiptOrder` | internal/agent/agent.go:487-489 | without refusals the hand-offs are in receipt order |
| `Telemetry.ExpiredSinceReceipt` | internal/agent/agent.go:404 | with a clock that never runs backwards an expired event was received at least five minutes before it was given up |
| `Telemetry.ReplayHandsAll` | internal/agent/agent.go:511-525 | however the connection behaves, a replay hands off all drained events in order, one a step |
| `Telemetry.Backoff` | internal/agent/agent.go:401-464 | in every run the n-th sleep since the last connection is min(5·2^n, 320) seconds |
| `Telemetry.ReplayedIfYoung` | internal/agent/agent.go:407-487 | however many dials fail, sleeps pass and events are buffered meanwhile: with a clock that never runs backwards a buffered event is replayed by the next drain exactly if it is then younger than five minutes, and is on record as expired otherwise |
| `Telemetry.AcrossASleep` | internal/agent/agent.go:452-487 | so across one sleep that ends in a reconnection, whatever the clock, it can survive sleeps 0 to 5 of an outage and no later one |
| `TelemetryRuns.SleepReached` | internal/agent/agent.go:407-460 | for every n there is a run in which the sleep after n others of an outage begins with an event in the buffer |
| `TelemetryRuns.LostInSeventhSleep` | internal/agent/agent.go:450-487 | so there are runs in which an event buffered just before the seventh sleep is too old at the reconnection that ends it |
| `TelemetryCourse.Sessions` | internal/agent/agent.go:412-501 | in every run the loop is in a session exactly if it has dialed successfully and since then no select gave Done or Closed and no connection test failed; and in the pause after one exactly if one was so left and neither Done nor the end of the pause has come since |
| `TelemetryCourse.PayloadCourse` | internal/agent/agent.go:574-598 | a payload a session's select gives is received; it is buffered and the session left if the connection test fails; handed off without JetStream or if acknowledged; and otherwise buffered, with the loop back at its select exactly if the second test succeeds |
| `TelemetryCourse.ReplayEnds` | internal/agent/agent.go:505-526 | a replay of n events is over after one step for each and one more, with all handed off in order, and the session is at its select |
| `TelemetryCourse.Outages` | internal/agent/agent.go:415-459 | the loop empties the channel exactly if a dial failed, or a fallback wait gave a new interval, and the channel has had a payload at every step since; it sleeps exactly if the channel was then found empty and neither Done nor the end of the sleep nor, with a fallback, a new interval has come since |
| `TelemetryCourse.StartsAndStops` | internal/agent/agent.go:406-502 | the loop has stopped exactly if Done was given at the top, in a sleep, in a fallback wait or in a pause; it dials exactly after being at the top without Done, and is at the top first and after each sleep, wait or pause that ended |
| `TelemetryCourse.InForce` | internal/agent/agent.go:405-489 | the interval is the last one a fallback wait or a session's select gave, or the initial one; the JetStream context is what the last successful dial found |
| `TelemetryCourse.SleepsCounted` | internal/agent/agent.go:401-466 | the place of the backoff in its schedule is the number of sleeps that ended since the last successful dial |
| `TelemetryLoop.WireAddressed` | internal/agent/agent.go:511-523 | every message of any list of calls goes to the base subject plus the slug its event's payload is a frame of, with the data framed; if the payload is no frame, to the base plus "unknown", with the whole payload |
| `TelemetryLoop.RunFromStart` | internal/agent/agent.go:400-502 | the nested loops follow the machine and make exactly its calls of js.Publish and nc.Publish, failed ones included; each goes, by the way and with the outcome of its call, where the frame of its event says, with the data framed; those acknowledged or on core NATS are its hand-offs |
| `TelemetryLoop.SentInOrder` | internal/agent/agent.go:505-602 | so the messages acknowledged or on core NATS are those of the hand-offs, each addressed as its own event's frame says, none twice, and without refusals in receipt order |
| `TelemetryLoop.Agent.RunTelemetryLoop` | internal/agent/agent.go:400-502 | the outer loop keeps machine, buffer, timers and publish calls in step |
| `TelemetryLoop.Agent.PublishEvents` | internal/agent/agent.go:565-602 | the publish session does, and ends where the machine closes the connection |
| `TelemetryLoop.Agent.PublishOne` | internal/agent/agent.go:576-599 | so does the handling of one event, with its two connection tests and its publish call, failed or not |
| `TelemetryLoop.Agent.DrainEdgeBuffer` | internal/agent/agent.go:505-526 | so does the replay, on the arrays the buffer returned, with the repetition on core NATS of what JetStream did not acknowledge |
| `TelemetryLoop.Agent.BufferFromChannel` | internal/agent/agent.go:529-538 | so does emptying the channel into the buffer while offline |
| `TelemetryLoop.Agent.FallbackLoop` | internal/agent/agent.go:415-448 | so does the fallback loop |
| `TelemetryLoop.Agent.SelectBackoff` | internal/agent/agent.go:452-459 | so does the backoff sleep with its doubling |
| `Intervals.SecondsExact` | internal/agent/agent.go:336 | a positive number of seconds becomes that duration in 64 bits exactly when it is at most 9,223,372,036 |
| `Intervals.Control.Handle` | internal/agent/agent.go:325-384 | every instruction and heartbeat command changes the greeting and the one-slot channel as the machine says |
| `Intervals.Control.Receive` | internal/agent/pulse.go:145-147 | and so does every receiver with its ticker |
| `Intervals.FirstReaderGets` | internal/agent/agent.go:325-384 | in every run a positive number of seconds that any kind of message asks for while the slot is free reaches the first receiver that reads it, and through it just the tickers and the loop interval that receiver is there for |
| `Intervals.TickersPositive` | internal/agent/agent.go:325-384 | with controller intervals up to that bound every duration given to a ticker is positive, whatever the messages and whoever reads the channel |
| `Intervals.RunControl` | internal/agent/agent.go:325-384 | so it is of the class, on any list of messages, receivers and ticker starts |
| `Intervals.BoundExactly` | internal/agent/agent.go:608-623 | the bounds on controller intervals under which this holds of every run are exactly those up to that number |
| `Intervals.TickerNegative` | internal/agent/agent.go:370-376 | one second more, and a ticker is given a negative duration |
| `EnrollStream.SSEEnrollStream` | internal/enroll/sse.go:103-184 | the line loop makes exactly the callbacks, in order, up to and including the first failure, and returns the outcome, that its events call for |
| `EnrollStream.HandleEvent` | internal/enroll/sse.go:118-177 | one event makes the callback of its kind with what its data reads as, and none if it is of no known kind; it ends the stream exactly if it is a decision to reject or an error, with its own reason |
| `EnrollReports.ReportsTold` | internal/enroll/sse.go:112-184 | for every encoder that the decoder undoes, and every list of verification results, progress, decisions, identities and errors printed as events, the callbacks are these values, each with its kind, in order, up to and including the first rejection or error; the outcome has that one's reason, or else is the last identity sent, or that there was none |
| `EnrollReports.TextTold` | internal/enroll/sse.go:103-184 | so it is from the characters of the stream on, if each value is spelled on one line |
| `EnrollReports.ToldOneWay` | internal/enroll/sse.go:112-184 | this leaves one list of callbacks and one outcome for every list of reports |
| `EnrollStream.OutcomeMeans` | internal/enroll/sse.go:145-184 | success exactly when no event is a rejection or an error and some event is an identity, with the last identity as result; otherwise the first failure, or no identity |
| `EnrollStream.NoiseIrrelevant` | internal/enroll/sse.go:113-115 | inserting or deleting lines of neither prefix anywhere changes nothing |
| `EventStreamStandard.ClientFollowsStandard` | internal/enroll/sse.go:103-184 | on every canonically printed text the client does what handling the messages of the standard's interpretation would do, and those messages are the events printed |
| `EventStreamStandard.BothSplitAlike` | internal/enroll/sse.go:103-108 | the client's line splitting and the standard's agree on every text of lines ended by line feeds |
| `EventStreamAgreement.ClientTakesFirst` | internal/enroll/sse.go:116-178 | of events printed with any number of data lines the client pairs only the first with the event, and the others with none |
| `EventStreamAgreement.StandardJoins` | internal/enroll/sse.go:116-178 | the standard's interpretation joins them, and dispatches nothing for an event without any |
| `EventStreamAgreement.AgreeExactly` | internal/enroll/sse.go:112-178 | the two read such a list of events alike exactly if none has more than one data line |
| `EventStreamAgreement.HandlingExactly` | internal/enroll/sse.go:112-184 | callbacks and outcome are the same whatever the JSON decoder exactly if, up to and including the first error event, no event of a known kind has more than one data line |
| `EventStreamAgreement.RejectionMissed` | internal/enroll/sse.go:112-148 | a rejection that only its two lines together spell out ends without one in the client |
| `EventStreamAgreement.SpaceNeeded` | internal/enroll/sse.go:109-115 | without the space after the colons of its lines an event is dispatched by the standard and not seen by the client |
| `Installer.Machine.Install` | internal/controller/install.go:173-203 | the step loop with its skips, sentinels and early returns is one run of the specification |
| `Installer.OneAttempt` | internal/controller/install.go:173-203 | a run that gets one attempt makes it at the first step without a sentinel; a success leaves that step's work and its sentinel, an unrecorded one the work alone, a failure its residue, and nothing else changes |
| `Installer.ApplicableSteps` | internal/controller/install.go:68-90 | which steps apply to a leader and to a joining node, in order |
| `Installer.SeriesInTurn` | internal/controller/install.go:173-203 | over any series of runs the sentinels are those of a prefix of the applicable steps; a step runs only when exactly the steps before it have sentinels; the address is in memory exactly if preflight ran earlier in the same run |
| `Installer.EnoughRuns` | internal/controller/install.go:180-200 | if every run completes a step, no more runs are needed than sentinels are missing |
| `Installer.SameDiskAsClean` | internal/controller/install.go:172-203 | if steps read only the disk and absorb the residue of failed attempts, every completed series leaves the disk of one uninterrupted run |
| `Installer.AddressLost` | internal/controller/preflight.go:67-74 | the hypothesis on memory fails of the code, and matters: a leader killed after preflight ends with a certificate without its address |
| `Installer.SameDiskExactly` | internal/controller/pki.go:61-70 | where pki alone reads the address preflight left in memory, a completed series leaves the disk of an uninterrupted run always on a joining node; and on a leader, if the address shows on disk, exactly if the run that completed pki began without preflight's sentinel |
| `Wizard.EveryRunGood` | cmd/kontango/enroll_tui.go:211-450 | in every run no index is out of range, cursors, inputs and focus fit together, at most one scan and one enrollment are issued and awaited in their own step, and the end is an error or a result |
| `Wizard.EnrollmentIsConfirmed` | cmd/kontango/enroll_tui.go:343-359 | enrollment is issued only by a confirm key that follows a successful scan |
| `WizardEnrollment.EnrollmentSent` | cmd/kontango/enroll_tui.go:427-450 | every enrollment issued in a run carries the credentials that stood in the form when the scan was issued, of that method and no other; its profile is none or a later row than the first of a delivered list, and the highlighted one, in a list without repeats, only if none is highlighted |
| `WizardTyping.TypedSent` | cmd/kontango/enroll_tui.go:276-450 | in every run an issued enrollment carries, as role id, secret id or invite token, the last text typed while that input had the focus since its method was chosen, or what it was prefilled with, and nothing of the other methods; its URL is the prefilled one or the text last typed, with "https://" put before it if it lacks "http" |
| `WizardTyping.ProfilesAsked` | cmd/kontango/enroll_tui.go:227-236 | profiles are asked for exactly on a successful scan reply, at that same URL |
| `WizardTyping.PrefilledSent` | cmd/kontango/enroll_tui.go:380-435 | with any prefilled URL and credentials, the run that confirms everything with enter and y sends just these, each as what it was given as, cut at the limits of the inputs |
| `WizardTyping.AppRoleSent` | cmd/kontango/enroll_tui.go:380-435 | so role id and secret id within the limits arrive as they are and are not exchanged |
| `WizardTyping.EndsAsReplied` | cmd/kontango/enroll_tui.go:227-272 | in every run a finished wizard shows the error of a scan or enrollment reply it got, or the result of one, and not both |
| `WizardEnrollment.NextRowSent` | cmd/kontango/enroll_tui.go:442-446 | there are runs for every list and row in which one profile is highlighted and the next is sent |
| `WizardEnrollment.SentExactly` | cmd/kontango/enroll_tui.go:442-446 | given a list, the profiles that some run sends are none and those after its first row, and no others |
| `Wizard.TurnConfirms` | cmd/kontango/enroll_tui.go:355-356 | only the confirm step enrolls, and only a successful scan leads to it |
| `Wizard.TabsUndone` | cmd/kontango/enroll_tui.go:321-328 | tab and shift+tab undo each other |
| `AccessControl.CheckACLMeans` | internal/routing/config_router.go:109-129 | the list check decides a policy on sets of attributes and tiers |
| `AccessControl.CheckACLMonotone` | internal/routing/config_router.go:109-129 | more attributes or tiers never take access away |
| `AccessControl.CheckZitiACL` | internal/caddy/http_router.go:207-240 | splitting, trimming in place and searching decide the same policy on the header's attributes |
| `AccessControl.ChecksAgree` | internal/caddy/http_router.go:213-239 | on plain attributes sent as a header, whatever the identity header, the two checks agree exactly if the attributes header is not blank, or the identity header is granted just what the list check grants |
| `AccessControl.IdentityStandsIn` | internal/caddy/http_router.go:216-222 | without attributes a plain identity that is a tier is let in by the handler and not by the list check |
| `AccessControl.CheckACLRequires` | internal/routing/config_router.go:109-129 | the list check grants exactly if some attribute is a tier, or is one after an @ |
| `AccessControl.PaddingIgnored` | internal/caddy/http_router.go:216-228 | white space put around the pieces of an attributes or identity header that is not blank changes nothing in what is checked |
| `AccessControl.RouteRequestMeans` | internal/routing/config_router.go:65-105 | the config router picks a backend exactly if the lookup finds a configuration that is enabled, and then that one; otherwise it says honeypot and names no backend |
| `AccessControl.ServeHTTP` | internal/caddy/http_router.go:86-150 | a request is served by a backend exactly if the lookup of its domain finds that configuration, it is enabled, and no access is required or the policy grants it to the headers |
| `AccessControl.RoutersAgree` | internal/routing/config_router.go:65-105 | a request with plain attributes and any identity header is served by a backend exactly when the config router picks it and no access is required or the list check grants it to the attributes, or, where their header is blank, to the identity header |
| `HttpBody.StripHTTPHeaders` | internal/agent/apply.go:169-176 | the index loop returns what follows the first blank line |
| `HttpBody.BodyMissing` | internal/agent/apply.go:169-176 | it fails exactly when there is no blank line anywhere |
| `HttpBody.BodyOfRender` | internal/agent/apply.go:161-176 | of a message laid out as in section 2.1 of RFC 9112 it returns exactly the body, whatever its bytes |
| `HttpBody.SplitSource` | internal/agent/apply.go:141-142 | a source is split into a service without a slash and a path that is empty or starts with one |

## Left out

- Ziti, NATS and JetStream themselves, HTTP, systemd, process execution: each is an arbitrary success or failure.
- `runFallbackUntilOverlay` and `runTelemetryWithLeaf`: they drop events on a send error by design, so no conservation holds of them; only their reading of intervals is modelled.
- HTTP posts beside the buffer in the fallback loop: best effort and without effect on buffer, hand-offs or timers. Hand-off means NATS.
- A core NATS publish counts as a hand-off though its error is dropped, as in the source.
- The event channel is never closed by the agent; only the publish session's test for it is modelled.
- Who gets an interval from the one-slot channel: receivers compete, so nothing is claimed about which one does. In the telemetry machine an interval may arrive at any select that reads one.
- `EventBuffers.EventBuffer.Append`: the growth of the backing array is one particular growth; the mutex is left out, each call being one step.
- JSON, msgpack and zlib encodings, checksums and archives; the heartbeat's and the enrollment request's contents.
- The limits of the line scanner on very long lines, and reading errors in the middle of a stream.
- Reconnection time, retry fields and the last event id of the standard beyond storing it: the client has nothing that corresponds.
- Bodies of the installer steps, the defaults of its configuration, and runs that change mode between them. The one field a step assigns for a later step, `NodePublicIP`, is modelled.
- The wizard's rendering and text editing; its inputs are values, so the sharing of the input list between successive models, which the program never looks back at, is not captured.
- UUID and nickname generation, fingerprint and probe collection, platform installers, command-line parsing and catalog files: nothing beyond easy members.
