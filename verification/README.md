# A verified model of Roused

Roused is a reverse proxy that wakes a launchd service when a request comes for it and stops it again when it has been idle.
This project models its logic in Dafny and proves what the logic keeps, in every run. `dafny verify dfyconfig.toml` checks it.

## What is modelled

**Sleep, wake and shutdown** (`src/lifecycle.rs`, `src/wake.rs`, the request stages of `src/proxy.rs`). Each service has a
lifecycle record and a launch record under two locks; a request gate and a three-phase coordinator are shared. The model has two
layers over one set of transition functions; contracts and theorems state what the functions do in terms of fields, numbers and names
written out, or of the event log.

- `Wake`, `Gate`, `Lifecycle`, `Monitor` and `Proxy` hold the classes with the program's fields. Each method does what the
  original does, step by step, and its contract equates the new state with a transition function of the old state.
- `ServiceModel` and `Protocol` put the same transition functions together as a timed transition system: any number of requests,
  services, stop attempts, kickstarts and one background task interleave, one critical section at a time. The one critical
  section that takes the wake lock twice (`start_allowed_attempt_at`) is two steps, `AllowStop` and `CommitStop`, with launch
  requests free to come between them. Every outcome of a probe, a checker, a stop command or a kickstart is possible at every
  point that the code allows.

Every service also carries an event log that only the model keeps. `History` defines the log, a digest of it, and when an event is
legal after a given log. `ServiceInvariant` and `ProtocolInvariant` prove that in every run the program's compact fields are
exactly what the digest says and that the logs stay legal. `HistoryTheorems`, `Rates` and `LogReading` prove what legal logs imply,
and `Guarantees`, `StopGuarantees`, `Cleanup`, `Transitions`, `Punctual`, `Response`, `Progress` and `Liveness` state it for runs.
`Gateway` shows that every loaded configuration is one that these theorems are about.

Three kinds of run are told apart, and each theorem names the one it needs.

- `IsRun`: every run, with no assumption on time.
- `PromptRun`: requests leave their probing stage within the service's idle timeout of their arrival. The program cuts the probe
  off after 100 ms and accepts only whole-second nonzero idle timeouts (`ReadinessTimerIsPrompt`). `LateRequests` has runs
  that show what happens without it.
- `PunctualRun`: time does not pass a deadline while the work that it guards is pending, scans come on their 100 ms grid, and what
  needs no wait takes no time. `Liveness` proves that this never stalls the clock: every punctual run goes on to any later
  instant, and every shutdown to its completion.

**The property-list printer** (`src/setup.rs`). `Plist` writes into one buffer as the original does. `PlistParser` is a parser
written from XML 1.0, and `PlistRoundTrip` proves that it inverts the printer.

**Header rewriting** (`src/proxy.rs`). `Headers` edits a multimap in place; `HeaderTheorems` says what that does to every field,
with the fields that `Connection` lists read off the bytes of its values.

**Host routing and the service loop of the loader** (`src/config.rs`). `Routing` characterises the accepted language exactly.
`Loader` runs the loop over its three tables.

## Where the code and its documentation differ

- `docs/design.md:157-158` and `docs/design.md:166` promise the original `Host` to the upstream, while `docs/design.md:171-172`
  orders every field that `Connection` names to be removed for ordinary HTTP. The code does the latter, for upgrades too, also when
  the field named is `Host`: `HeaderTheorems.HostKeptUnlessListed` gives the exact condition and `HeaderTheorems.HostDropped` a
  request that loses its `Host`.
- The printer's character check admits U+000D, which an XML parser turns into a line feed (section 2.11 of XML 1.0).
  `PlistRoundTrip.RoundTripExact` shows that the round trip is exact if and only if every key and string passes the check and none
  holds U+000D. `GatewayPlist.GatewayPlistExact` says the same of the gateway's own list and its three paths, and
  `GatewayPlist.ReturnInPath` has a path that the code accepts and that reads back as another.
- A port in a request's host may have leading zeros or a plus sign, since it is read as a number. `Routing.NormalizeExact`
  includes these spellings.
- With a generation that wraps at 64 bits an attempt overlooks a whole number of 2^64 activities.
  `StopGuarantees.StopsFollowQuietAttempts` states both this and what holds below that number.

## Model

| member | source | states |
|---|---|---|
| Wake.WakeTarget.RequestLaunchAt | src/wake.rs:103-123 | a kickstart starts exactly when the state is eligible or the end of its cooldown is not in the future; the state is then `Launching`, else unchanged |
| Wake.WakeTarget.LaunchFinishedAt | src/wake.rs:125-128 | a finished launch cools down for 5 s from its end |
| Wake.WakeTarget.AllowLaunchAfterStop | src/wake.rs:93-96 | a stop makes the next wake immediately eligible |
| Wake.WakeTarget.LaunchInProgress | src/wake.rs:98-101 | whether the state is `Launching` |
| Gate.RequestGate.Admit | src/lifecycle.rs:148-162 | admits and counts exactly while the gate accepts |
| Gate.RequestGate.Close | src/lifecycle.rs:164-172 | closes the gate, and stores a permit when nothing is admitted |
| Gate.RequestGate.Release | src/lifecycle.rs:194-205 | uncounts an admission and stores a permit on the last one; fails only when none is counted |
| Gate.RequestGate.WaitForDrainUntil | src/lifecycle.rs:174-192 | on a closed gate: true exactly when every admission is released by the deadline, at the instant of the last release and not at the deadline; otherwise false at the deadline; never more than three passes |
| Gate.ShutdownCoordinator.Request | src/lifecycle.rs:217-227 | closes the gate and moves the phase forward only |
| Gate.ShutdownCoordinator.Complete | src/lifecycle.rs:239-248 | the phase ends at completed |
| Lifecycle.ServiceLifecycle.constructor | src/lifecycle.rs:292-316 | the initial record |
| Lifecycle.ServiceLifecycle.NoteRequestArrivalAt | src/lifecycle.rs:322-328 | sets the idle clock and starts a new generation with no failure and no stop on record |
| Lifecycle.ServiceLifecycle.Acquire | src/lifecycle.rs:334-348 | counts a lease and starts a new generation, leaving the idle clock alone |
| Lifecycle.ServiceLifecycle.ReleaseAt | src/lifecycle.rs:350-361 | uncounts a lease, sets the idle clock, starts a new generation; fails only with no lease in flight |
| Lifecycle.ServiceLifecycle.BeginStopAttemptAt | src/lifecycle.rs:363-383 | an idle attempt on the current generation exactly when all six conditions allow it; only the attempt flag changes |
| Lifecycle.ServiceLifecycle.PrepareShutdown | src/lifecycle.rs:385-394 | cleanup is needed exactly when no attempt is in progress and the current generation has no stop on record; an attempt in progress is answered as such; nothing changes |
| Lifecycle.ServiceLifecycle.BeginShutdownAttempt | src/lifecycle.rs:396-414 | already signalled exactly when the current generation has a stop on record; else ready exactly with no request in flight, no attempt and no launch; only the attempt flag changes |
| Lifecycle.ServiceLifecycle.FinishVetoedAttemptAt | src/lifecycle.rs:416-422 | ends the attempt; the failure counts only against an unchanged generation with no lease |
| Lifecycle.ServiceLifecycle.StartAllowedAttemptAt | src/lifecycle.rs:424-455 | obsolete, started or failed, with the whole new state of both records in each case |
| Lifecycle.ServiceLifecycle.FinishStartedStopCommand | src/lifecycle.rs:457-460 | ends the attempt and keeps everything else |
| Monitor.ScanAt | src/lifecycle.rs:584-595 | one scan begins an attempt on every service that may stop and on no other, and changes nothing else |
| Monitor.PrepareAll | src/lifecycle.rs:606-620 | a cleanup task is spawned for exactly the services with no attempt in progress and no stop on record for the current generation |
| Monitor.CleanupAtShutdown | src/lifecycle.rs:597-621 | the gate is closed and admissions drain for at most 5 s; a drain spawns cleanup tasks for exactly the services with no attempt in progress and no stop on record for the current generation, and a failed drain spawns none |
| Monitor.CleanupServiceAtShutdown | src/lifecycle.rs:659-683 | a shutdown attempt begins exactly when the service falls quiet by the first poll at or after the deadline, and at the first poll that finds it quiet; otherwise the loop gives up at that first poll; the already-signalled arm is not reached |
| Monitor.PollOvershoot | src/lifecycle.rs:15 | polls fall on the 20 ms grid and pass an instant by less than one interval |
| Proxy.RousedProxy.RouteForSpelling | src/proxy.rs:148-154 | a request takes the route of the host in normal form that its first `Host` value spells for the listener |
| Proxy.RousedProxy.RouteForExact | src/proxy.rs:148-154 | a request has no route exactly when its first `Host` value spells no routed host, and any route is that of a routed host that it spells |
| Proxy.RequestContext.NewCtx | src/proxy.rs:123-135 | the context holds an admission exactly when the gate was accepting, is marked rejected otherwise, and has its initial values |
| Proxy.RequestContext.RequestFilter | src/proxy.rs:137-172 | a rejected request changes nothing; any other keeps its upgrade, the local port or else the plain listener's, TLS and peer in the context, is of an unknown host exactly when its `Host` spells no routed one, and is proxied only to the host that it spells, with the whole change that follows |
| Proxy.RequestContext.TakeRoute | src/proxy.rs:156-171 | each answer with the whole change: who keeps the admission and the route, when an arrival is noted, when a launch is asked for and whether it starts |
| Proxy.RequestContext.ProxyUpstreamFilter | src/proxy.rs:174-191 | the lease is taken before the admission is dropped; a missing route or a second lease is an error that changes nothing |
| Proxy.RequestContext.Logging | src/proxy.rs:239-247 | lease and admission are both given back and no guard stays held |
| ServiceInvariant.StepKeepsInv | src/lifecycle.rs:322-460 | every critical section of a service keeps its log legal and its fields equal to what the log's digest says |
| ServiceInvariant.ShutdownTestPasses | src/lifecycle.rs:434-442 | with the service invariant, the test of a shutdown attempt always passes |
| ServiceInvariant.StageTimers | src/lifecycle.rs:685-734 | a check and a stop command are cut off after 5 s and no earlier, a child cut off is waited for 1 s |
| ProtocolInvariant.RunInv | src/lifecycle.rs:137-683 | the invariant of services, guards and shutdown order holds in every state of every run |
| ProtocolInvariant.HeldGuardsCounted | src/lifecycle.rs:194-205 | a guard that a request holds is counted where it will be released |
| HistoryTheorems.DigestCounts | src/lifecycle.rs:322-361 | the digest's counters agree with independent counts of the log's events |
| HistoryTheorems.IdleStopInterval | src/lifecycle.rs:433-450 | in a legal log an idle stop has one idle timeout before its clock reading, and the time up to its start, free of activity and of open leases |
| HistoryTheorems.StopsSeparated | src/lifecycle.rs:358-369 | in a legal log two stops have an activity between them |
| HistoryTheorems.StopFromQuietAttempt | src/lifecycle.rs:434-449 | in a legal log a stop's attempt saw a multiple of 2^64 activities, so none when there were fewer |
| HistoryTheorems.QuietAfterDrain | src/lifecycle.rs:597-629 | in a legal log no arrival, lease, launch or idle decision follows the drain, and at most one stop |
| LogReading.PermitsIffDigest | src/lifecycle.rs:363-383 | the digest permits a stop decision exactly when the log, read by quantifiers over its events, does |
| LogReading.RefusalCountsWhenUntouched | src/lifecycle.rs:416-422 | a refused check counts as a failure exactly when its attempt saw no activity |
| LogReading.LaunchingIsShown | src/wake.rs:93-128 | the state is `Launching` exactly when the log has a launch that no launch end and no stop has followed |
| LogReading.StartableIsShown | src/wake.rs:103-128 | the launch state lets a request start a kickstart exactly when the log shows no standing launch and no launch end of the last 5 s without a later stop |
| LogReading.OneLaunch | src/wake.rs:103-128 | in a log of prompt requests one launch runs exactly while the launch state says so, and never two |
| Rates.LaunchGap | src/wake.rs:103-128 | two launches with no stop between them are a retry cooldown apart |
| Rates.StopGap | src/lifecycle.rs:334-361 | an idle stop starts at least one idle timeout after any earlier stop |
| Rates.LaunchBound | src/wake.rs:103-128 | in a legal log a window of length L holds at most 2 + L / 5 s + L / idle timeout launches |
| Rates.DecisionGap | src/lifecycle.rs:363-383 | with no activity between them and no obsolete end, stop decisions are a retry interval apart, whatever ended the first |
| Rates.DecisionBound | src/lifecycle.rs:363-383 | in a legal log an activity-free stretch of length L holds at most 1 + L / 30 s stop decisions, and one more for each of its attempts that ends obsolete |
| Rates.NoWithdrawals | src/lifecycle.rs:433-442 | in a log of prompt requests no attempt of an activity-free stretch ends obsolete |
| PromptInvariant.NoLaunchInTheGap | src/lifecycle.rs:433-447 | a launch request of a prompt request finds no attempt between its test and its commit |
| PromptRuns.PromptRunInv | src/proxy.rs:157-169 | the further invariant of prompt requests holds in every state of every prompt run |
| PromptRuns.ReadinessTimerIsPrompt | src/wake.rs:10 | a 100 ms limit on the probe and idle timeouts of at least a second make requests prompt |
| Guarantees.OneKickstart | src/wake.rs:93-128 | in a prompt run at most one kickstart of a service is outstanding, and one exactly when the state is `Launching` |
| Guarantees.CommitOverwritesNoLaunch | src/lifecycle.rs:424-455 | in a prompt run the commit of a stop never overwrites `Launching` |
| LateRequests.LateRequestsBreakOneKickstart | src/lifecycle.rs:424-455 | without prompt requests a run exists in which the commit overwrites `Launching` and two kickstarts are outstanding |
| LateRequests.LateRequestsBreakRefinement | src/lifecycle.rs:363-383 | without prompt requests a run exists in which a stop decision may begin while a launch still runs |
| LateRequests.LateRequestsBreakDecisionRate | src/lifecycle.rs:363-383 | without prompt requests a run exists with two stop decisions 100 ms apart and no activity between them |
| Guarantees.RunLaunchBound | src/wake.rs:103-128 | in every run, kickstarts of a service in a window of length L number at most 2 + L / 5 s + L / idle timeout |
| Guarantees.AskLaunchExact | src/wake.rs:103-123 | in every run a probing request may ask for a launch, and a kickstart starts and is logged exactly when the log shows no standing launch and no launch end of the last 5 s that no stop has followed |
| Guarantees.BeginReadsLog | src/lifecycle.rs:363-383 | in every run a stop decision may begin exactly when the event log, launches apart, permits it and shows no launch that no launch end and no stop has followed |
| Guarantees.BeginRefinesLog | src/lifecycle.rs:363-383 | in a prompt run a launch is shown exactly when one runs, so a decision may begin exactly when the event log shows no open lease or attempt, no running launch, no arrival or release within the idle timeout, no stop since the last activity, and no counted failure of the last 30 s since it |
| Guarantees.RunDecisionBound | src/lifecycle.rs:363-383 | in every run an activity-free stretch of length L holds at most 1 + L / 30 s stop decisions of ordinary monitoring, and one more for each of its attempts that ends obsolete, of which there is none with prompt requests |
| Guarantees.SignalledGenerationIsCurrent | src/lifecycle.rs:385-414 | the signalled generation is none or the current one, and it is set exactly when a stop has started since the last activity |
| Guarantees.Conservation | src/proxy.rs:123-191 | the gate counts the admission holders, each service counts its lease holders, and a warm request always holds one of the two |
| Guarantees.NoPanicOnDrop | src/lifecycle.rs:194-205 | dropping a guard that is held never hits the underflow panic, and a lease can be dropped whenever the lock is free |
| Guarantees.DrainIsFinal | src/lifecycle.rs:148-205 | once the gate is closed with nothing admitted it stays so; no arrival, lease or launch follows on any service and no in-flight count rises |
| Guarantees.ShutdownAttemptNeverObsolete | src/lifecycle.rs:396-442 | an allowed check of a shutdown attempt always goes on to the spawn |
| Guarantees.CleanerNeverFindsSignal | src/lifecycle.rs:659-683 | while a cleaner polls, its service is never found already signalled |
| Guarantees.CompletedIsQuiet | src/lifecycle.rs:239-248 | when the phase is completed no attempt is open, and none and no stop starts in any later state |
| Cleanup.PreparationExact | src/lifecycle.rs:606-620 | in every run, preparing a service sets a cleaner to work exactly when the log shows no open attempt and no stop since the last activity |
| Cleanup.DecisionReadsLog | src/lifecycle.rs:396-414 | a cleaner finds its service signalled, busy or ready exactly as the log shows a standing stop, or else a lease, attempt or launch, or neither |
| Cleanup.PollExact | src/lifecycle.rs:659-683 | in every run a poll begins an attempt exactly on a service that its log does not show in use; otherwise it polls again 20 ms later, or gives up once 5 s of cleanup have passed |
| Cleanup.CompletedAfterDrain | src/lifecycle.rs:597-656 | in every run, when the phase is completed after a drain, every service's log shows a stop since its last activity or the end of an attempt after the drain, or its cleaner gave up on it in use after at least 5 s |
| Transitions.RequestPathExact | src/proxy.rs:123-247 | in every run: exactly when each step of a request is possible, what the request holds afterwards, and which event each log gains |
| Transitions.TaskExact | src/lifecycle.rs:416-560 | in every run the steps of an attempt and of a kickstart are possible exactly at their stages, each logs its one event, and an attempt is over exactly when that event ends it |
| Transitions.AllowExact | src/lifecycle.rs:424-455 | in every run an allowed attempt goes on to the spawn exactly when the log shows a multiple of 2^64 activities since it began, no lease, no launch and, for an idle attempt, the idle timeout over; otherwise it ends obsolete |
| Transitions.QuietAttemptGoesOn | src/lifecycle.rs:424-455 | below 2^64 activities an allowed attempt goes on exactly when there was no activity since it began and no launch is shown |
| Guarantees.NoLostWakeup | src/lifecycle.rs:164-205 | the drain wait makes at most three passes, and with no admission left a sleeping waiter has its permit and then returns true |
| StopGuarantees.IdleStopsAreIdle | src/lifecycle.rs:433-450 | in every run an idle stop has one idle timeout free of activity and of open leases before it |
| StopGuarantees.StopsAreSeparated | src/lifecycle.rs:358-369 | in every run two stops of a service have an activity between them, and at most one stop follows the drain |
| StopGuarantees.StopsFollowQuietAttempts | src/lifecycle.rs:322-345 | in every run a stop starts only from an attempt that saw no activity, given fewer than 2^64 activities in it |
| StopGuarantees.ShutdownStopsFollowDrain | src/lifecycle.rs:597-629 | in every run a stop at shutdown comes after the drain, and no request, launch or idle decision does |
| Punctual.CleanupWithinLimit | src/lifecycle.rs:597-734 | under exact timers cleanup has lasted at most 16.02 s while it runs, for any number of services |
| Punctual.CoordinationSucceeds | src/main.rs:24 | under exact timers the phase is completed once 16.02 s, and so once 20 s, have passed since shutdown was requested |
| Response.StopDecidedWithinOneScan | src/lifecycle.rs:584-595 | under exact timers and with prompt requests, on a service whose log permits a stop the next event is a stop decision, an arrival or a lease, within 100 ms, unless cleanup has started |
| Response.NextScanIsFirst | src/lifecycle.rs:634-656 | the next scan is due at the first instant to come on the 100 ms grid; missed ones are skipped |
| Response.DrainSeenAtOnce | src/lifecycle.rs:174-192 | under exact timers, in every interleaving, no time passes between the last release and the end of the drain wait |
| Response.DrainWaitResult | src/lifecycle.rs:174-192 | the drain wait ends drained exactly when nothing is admitted, and gives up exactly at the deadline |
| Response.PolledWithinOneInterval | src/lifecycle.rs:659-683 | under exact timers, in every interleaving, a service ready for its shutdown attempt is polled within 20 ms |
| Response.CleanerResult | src/lifecycle.rs:659-683 | a cleaner ends with the attempt of a ready service, or gives up on a busy one at the deadline or less than 20 ms after it |
| Progress.DueDecreases | src/lifecycle.rs:584-734 | every due action takes no time and lowers a measure, so only finitely many can follow each other at one instant |
| Liveness.ClockNeverStalls | src/lifecycle.rs:634-734 | in every state of a punctual run time may pass or there is due work that can be done |
| Liveness.Settles | src/lifecycle.rs:634-734 | every punctual run goes on, in no time and by finitely many due actions, to a state in which time may pass |
| Liveness.TimeGoesOn | src/lifecycle.rs:634-734 | every punctual run goes on to any later instant by due work and the passage of time alone, and stays prompt if it was |
| Liveness.ShutdownCompletes | src/lifecycle.rs:597-656 | once shutdown is requested, every punctual run goes on to the completed phase, reached by the first instant after 16.02 s |
| Liveness.EveryRunCanShutDown | src/lifecycle.rs:217-248 | every punctual run is the start of one that ends completed |
| Plist.Output.WriteXml | src/setup.rs:166-205 | appends exactly the rendering of the tree at the indentation |
| Plist.Output.WriteIndentation | src/setup.rs:208-212 | appends two spaces for each level |
| Plist.Output.WriteEscapedXml | src/setup.rs:214-225 | appends the text with the five entities |
| PlistRoundTrip.ReadEscaped | src/setup.rs:214-225 | reading escaped text gives the text with its line ends normalised, or fails exactly when it holds a character that XML 1.0 does not admit |
| PlistRoundTrip.EscapedIsSafe | src/setup.rs:214-225 | escaped text holds no markup character but the ampersands of the five entities |
| PlistRoundTrip.IndentationExact | src/setup.rs:208-212 | the indentation is two spaces for each level |
| PlistRoundTrip.RenderedLayout | src/setup.rs:166-205 | the layout of an array, of a key with its value and of an empty dictionary: one element or key a line, two spaces a level |
| PlistRoundTrip.LeftOutCharacters | src/setup.rs:147-155 | the characters that the check turns down are the control characters but three, U+FFFE and U+FFFF |
| PlistRoundTrip.ParseRender | src/setup.rs:165-206 | parsing any rendered tree, at any indentation and before any text, gives the tree with line ends normalised, or fails exactly when some key or string is no XML text |
| PlistRoundTrip.RoundTripExact | src/setup.rs:147-206 | the parser gives back exactly the tree if and only if all keys and strings are XML text without U+000D |
| GatewayPlist.FirstInvalidIsFirst | src/setup.rs:137-155 | the character check fails exactly on text that XML 1.0 does not admit and names the first offending character |
| GatewayPlist.GatewayPlistReads | src/setup.rs:71-120 | the gateway's list is written exactly for valid inputs, never fails on the derived log paths, and reads back as the intended tree with its line ends normalised |
| GatewayPlist.GatewayPlistExact | src/setup.rs:71-120 | it reads back as exactly the intended tree if and only if none of the three paths holds U+000D |
| GatewayPlist.GatewayPlistDescribes | src/setup.rs:95-113 | the list reads back with the label, the program and then the configuration, both flags set, 30 s to exit, and two log paths that are the directory, one slash and the label with its suffix |
| GatewayPlist.GatewayPlistExplains | src/setup.rs:71-94 | an error names the input at fault, the first offending character, and only where the paths checked before it are fine |
| GatewayPlist.ReturnInPath | src/setup.rs:122-155 | a path with U+000D is accepted and reads back as another |
| Headers.TrimAsciiWhitespace | src/proxy.rs:447-455 | trims ASCII white space at both ends |
| HeaderTheorems.TrimAt | src/proxy.rs:447-455 | what is trimmed is white space, and what is left has none at its ends |
| Headers.Message.StripRequestHopHeaders | src/proxy.rs:457-490 | the request rewriting in place; `HeaderTheorems.StrippedNames` gives every field of its result |
| Headers.Message.StripResponseHopHeaders | src/proxy.rs:492-519 | the response rewriting in place; `HeaderTheorems.StrippedNames` gives every field of its result |
| Headers.Message.ApplyForwardedHeaders | src/proxy.rs:323-356 | the forwarding fields in place; `HeaderTheorems.ForwardedExactly` says which and what they hold |
| Headers.Message.UpstreamRequestFilter | src/proxy.rs:208-223 | the whole request filter in place; `HeaderTheorems.UpstreamExactly` gives every field of its result |
| Headers.Message.UpstreamResponseFilter | src/proxy.rs:225-237 | the response filter upgrades exactly for a valid 101 response to a WebSocket request, as `HeaderTheorems.WebsocketExactly` defines one |
| HeaderTheorems.ConnectionNamesAreListed | src/proxy.rs:437-445 | the collected names are exactly the field names that are elements of the comma-separated lists in `Connection` |
| HeaderTheorems.UpgradeTokenIsListed | src/proxy.rs:427-435 | the token test on `Connection` holds exactly when some value lists `upgrade`, in any place and letter case |
| HeaderTheorems.WebsocketExactly | src/proxy.rs:407-425 | a WebSocket request or response is exactly HTTP/1.1, or status 101, with an `Upgrade` value "websocket" in any case and a `Connection` list holding `upgrade` |
| HeaderTheorems.UpgradeListedSecond | src/proxy.rs:407-435 | a `Connection` value with `Upgrade` behind any other text and a comma asks for an upgrade |
| HeaderTheorems.HeaderCharacters | src/proxy.rs:437-455 | the white space that is trimmed, the characters of a field name and the letters that are lowered, by code points |
| Strings.EqualIgnoringCaseExact | src/proxy.rs:407-435 | texts are equal ignoring case exactly when they are as long and differ at most in the case of ASCII letters |
| HeaderTheorems.StripExactly | src/proxy.rs:457-519 | a field survives, with all its values in order, exactly when it is neither hop-by-hop nor listed by `Connection`; upgrade fields are rewritten |
| HeaderTheorems.StrippedNames | src/proxy.rs:457-519 | the values of every field after the rewriting of a request or a response, with all names written out |
| HeaderTheorems.StripIdempotent | src/proxy.rs:457-519 | rewriting twice is rewriting once |
| HeaderTheorems.UpgradeStaysValid | src/proxy.rs:407-425 | a WebSocket request or a 101 response stays valid when rewritten for an upgrade |
| HeaderTheorems.UpgradeReachesUpstream | src/proxy.rs:208-223 | the whole filter keeps a WebSocket request valid and lets no upgrade through otherwise |
| HeaderTheorems.ForwardedExactly | src/proxy.rs:323-356 | each of the seven forwarding names holds exactly what the connection says and no other field changes |
| HeaderTheorems.ClientForwardingGone | src/proxy.rs:208-223 | after the whole filter none of the client's `Forwarded`, `X-Forwarded-For`, `-Host`, `-Port`, `-Prefix`, `-Proto` and `X-Real-IP` survives: each holds what the connection says, or is absent |
| HeaderTheorems.UpstreamExactly | src/proxy.rs:208-223 | the values of every field after the whole request filter, with all hop-by-hop and forwarding names written out; nothing else is kept, dropped or added |
| HeaderTheorems.FramingExclusive | src/proxy.rs:217-221 | Content-Length and Transfer-Encoding never come together, and a request with a body has one |
| HeaderTheorems.EndToEndFieldKept | src/proxy.rs:457-473 | an end-to-end field reaches the upstream unchanged exactly when `Connection` does not list it |
| HeaderTheorems.HostKeptUnlessListed | src/proxy.rs:457-464 | `Host` reaches the upstream exactly when `Connection` does not list it |
| HeaderTheorems.HostDropped | src/proxy.rs:457-464 | a request with `Connection: Host` reaches the upstream without `Host` |
| Routing.NormalizeDnsNameExact | src/config.rs:347-363 | a name normalises to `c` exactly when `c` is canonical, by code points and lengths written out, and the name is a case variant of it with at most one terminal dot |
| Routing.NormalizeExact | src/config.rs:315-345 | a host normalises to `c` exactly when `c` is canonical and the host is a case variant, plus at most one dot, plus at most the allowed port in decimal, with zeros or a plus sign allowed in front |
| Routing.ParsePortExact | src/config.rs:333-337 | a port text denotes a port exactly when it writes it in decimal, below 65,536, with zeros and one plus sign allowed in front |
| Routing.Ipv4Exact | src/config.rs:347-351 | the test for a literal IPv4 address meets exactly four decimal numbers up to 255 between dots |
| Routing.HostWithPort | src/config.rs:315-345 | `a.test:8080` is `a.test` for the listener on port 8080 |
| Routing.NormalizeIdempotent | src/config.rs:315-363 | a normal form is canonical and normalises to itself, for the configuration and for every listener |
| Loader.LoadServices | src/config.rs:142-210 | the loop over the three tables succeeds exactly when there is an entry and the entries are valid and pairwise distinct, its services are then the entries one for one, and its error is the one of the first problem |
| Loader.LoadExact | src/config.rs:142-216 | loading succeeds exactly when there is an entry, each is valid by itself and hosts, labels and upstreams are pairwise distinct; the services are then the entries one for one, and a failure names the first entry that does not load and its problem |
| Loader.CheckExact | src/config.rs:153-185 | an entry is good exactly when it has none of seven spelled-out problems, the problem named is its first in the order of the checks, and a good entry gives its host in canonical form and its other four fields |
| Loader.LoadableExact | src/config.rs:142-216 | entries load together exactly when none has a problem and no two share a host spelling, a label or an upstream |
| Loader.LoadedFields | src/config.rs:198-207 | each loaded service stands under its entry's canonical host and has the entry's upstream, label, idle timeout and command |
| Names.LabelCharacters | src/config.rs:308-313 | a label is valid exactly when it is not empty and holds no slash, control character or white space, by code points |
| Loader.RouteExact | src/config.rs:230-233 | a request reaches a configured service exactly when its host spells that service's host |
| Loader.LoadedRoutes | src/config.rs:142-233 | after loading, a request reaches an entry's service exactly when its host spells that entry's normalised host, and is of an unknown host exactly when it spells none |
| Gateway.LoadedConfigIsValid | src/proxy.rs:66-104 | the services of a loaded configuration are one for each entry, with its idle timeout, of at least a second as the protocol's theorems require, and a checker exactly where the entry has a command |

## Left out

- Pingora, TCP connects, `launchctl` and the stop checker: each is an outcome that may come at any time the code allows; their
  command lines, log texts and exit codes are not modelled.
- The command line, file writing, TLS material, signal handlers and `src/plain_http.rs`; HOME and the log directory's metadata are
  parameters, and a path that is no UTF-8 is outside the model of strings.
- TOML parsing, and the parsing of socket addresses: an upstream comes as an address or as none. Listener and TLS settings of the
  configuration are not part of the loader's model.
- `http::Authority` is modelled on unreserved characters, sub-delimiters and one colon. Forms with brackets, percent signs or
  user information, which the code turns down in every case, are turned down here without being parsed.
- Field names are tokens of at most 65,535 bytes (section 5.6.2 of RFC 9110). The order of different names in a header map is not
  modelled; the order of one name's values is.
- `Accept` quality values and the fixed response bodies: easy members.
- `last_completed`, which no decision reads; overflow of the in-flight and admission counts, which are unbounded here.
- Mutex poisoning and panicking tasks. Guards are dropped by every request in the end or never; both are allowed.
- Instants read just before a lock is taken: arrivals, releases and check failures are stamped when the lock is held. A scan and
  the test of an allowed attempt may use an older reading, as in the code.
- Monitor.CleanupServiceAtShutdown: other tasks are not run beside the method; what they do is given as the instants at which leases
  are dropped and a launch ends. `Response.PolledWithinOneInterval` and `Response.CleanerResult` state the loop's result for every
  interleaving.
- Gate.RequestGate.WaitForDrainUntil: other tasks are not run beside the method; what they do is given as the instants at which
  admissions are dropped. `Response.DrainSeenAtOnce` and `Response.DrainWaitResult` state the wait's result for every interleaving.
- Monitor.CleanupAtShutdown: the join of the spawned tasks is not part of the method; `Guarantees.CompletedIsQuiet` and
  `Liveness.ShutdownCompletes` cover it. Releases are given as in the drain wait.
- Monitor.ScanAt: the finished tasks that a scan collects are not modelled, and the services are looked at with their launch states
  unchanged during the scan. `Protocol` scans service by service, in any order.
- Guarantees.OneKickstart: this, `Guarantees.CommitOverwritesNoLaunch` and `Guarantees.BeginRefinesLog` need prompt requests. Runs
  that break them are given, but not every run with a late request breaks them.
- Punctual.CleanupWithinLimit: this, `Punctual.CoordinationSucceeds` and the results of `Response` and `Liveness` need exact timers;
  scheduling delays come on top in practice.
- The cleanup loop takes services in some order; the model allows every order.
