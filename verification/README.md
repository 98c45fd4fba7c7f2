# Model of the relay daemon

The daemon drives gate relays from a Raspberry Pi. A request starts a timed pulse, latches a relay or
releases it; the state changes go to browsers as an event stream; one JSON document holds the
configuration; a small HTTP server guards all of it with a single account; network changes are made
under a rollback timer. This project models the logic of those parts and proves what they promise. Where
the code does not do what its comments say, a theorem says exactly when it does, and another result gives a
run or an input with which it does not; the list below names them. Its last two items are remarks.

`dafny verify dfyconfig.toml` checks everything.

## The parts

| file | what it models |
|---|---|
| `Basics.dfy` | options, and when a property holds that some steps establish and others end |
| `Config.dfy` | the configuration document and `Validate` |
| `RelayMachine.dfy` | one relay: each body that runs under the relay's mutex is one operation; generations, timers, outstanding expiry closures; the three-state relay it refines |
| `RelayRuns.dfy` | whole runs of one relay: invariants, refinement, reported times |
| `System.dfy` | the controller: many relays, the event queue, the transition history, Shutdown, all interleaved |
| `SystemRuns.dfy` | what holds over every run of the controller: refinement, pulse lengths, reported times, levels, shutdown, redundant requests |
| `SystemFaults.dfy` | exactly when a relay is stranded on, a line is energised with nothing to end it, Shutdown leaves a line energised, or a deadline outlives its pulse |
| `SystemEvents.dfy` | the queue, the streams that share it, and what events tell about a relay |
| `SystemReports.dfy` | what callers get in every run and under any faults: answers, reports, and the traces that commands leave |
| `Daemon.dfy` | `Mock`, `Line`, the relay struct and `Controller` as classes; every method is proved to take the step of `System` it stands for |
| `Sse.dfy` | the server's frames and the browser's parser of them |
| `Disk.dfy` | `Save` and `Load` over a file system that can lose power between any two calls |
| `Saves.dfy` | any number of Saves at once, call by call |
| `Auth.dfy` | the authentication cache and the failure throttle |
| `Server.dfy` | the server's state across requests that run one at a time |
| `ServerAnswers.dfy` | who is let in, what each request is answered and what it changes, field by field |
| `Handlers.dfy` | requests interleaved: cache check, verification, remembering, gate, Load, Save, Store and flush are separate steps; what the log of a run can look like |
| `HandlerRuns.dfy` | what holds over every interleaving of requests |
| `Netmask.dfy` | netmask and prefix length, with the parts of Go's `net` they rest on |
| `Netcfg.dfy` | `Apply` and `Confirm` against NetworkManager's checkpoints |

## Conventions

- An action that is not possible in a state changes nothing, so every list of actions is a run and the
  theorems quantify over plain lists. Times are integers (nanoseconds; seconds in `Netcfg`) on a clock
  that only moves forward.
- Stopping a timer is never trusted: the closure of a stopped timer stays outstanding and may run at any
  later time. A relay's `closures` are all closures that were scheduled and have not run.
- The outcome of each driver, file-system and NetworkManager call is a parameter. A failing `SetActive`
  leaves the level as it was. `Mock` itself never fails; its class takes the outcome as a parameter so
  that the same proofs cover a real driver.
- Strings are byte strings. SHA-256 (no two headers share a digest), bcrypt's comparison, the parsing of
  a Basic header, `net.ParseIP`, the four-byte form of an address in IPv6 notation, and JSON printing and
  parsing (a round trip whose one-line form has no raw newline) are function parameters.
- Saves that run at the same time have distinct temporary names and inodes.
- Nobody but this program changes the connection profile.
- `closeAll` reads and clears `line` without the mutex. It is an assumption that each of its iterations is
  one atomic step; commands and expiry closures may run between any two. The source waits five seconds for
  the HTTP server to drain and goes on regardless (cmd/relayd/main.go:110-118), and an open event stream
  makes it time out, so that it does not guarantee this.
- After a power cut a file's data is whatever it was if it was synced and arbitrary otherwise, and the
  directory is any of those it has been since it was last synced. Rename is atomic.

## Where code and documentation part

- The package comment (internal/relay/relay.go:4-8) says that a gate can never be held open beyond its
  duration by retries. It holds for any interval that no `On`, no Shutdown and no driver failure disturbs
  (`EnergisedIntervalBound`). A failed `Off` during a pulse has already dropped the timer and bumped the
  generation, so the relay stays energised for as long as it takes until an `On`, a successful `Off` or Shutdown,
  and answers every Trigger as a duplicate (`StrandedIff`, `StrandedIsReachable`, `StrandedStaysEnergised`).
- No relay is to be left energised on exit (internal/relay/relay.go:272-274). `expire`, `Shutdown` and `closeAll`
  ignore driver errors; a line stays energised with nothing to end that exactly as `RunawayIff` says
  (`RunawayIsReachable`). After Shutdown a line is energised exactly if `closeAll` found it energised and failed
  to release it (`EnergisedAfterShutdownIff`). That needs no earlier failure: a Trigger may slip in between
  Shutdown's loop and `closeAll` (`LineCanOutliveTheDaemon`).
- The remaining time is documented as zero when not pulsing (internal/relay/relay.go:28). `Shutdown` leaves
  `deadline` in place, and the relay reports time left exactly as `UntidyIff` says (`ShutdownReportsTimeLeft`).
- An event is promised for every change of state (internal/relay/relay.go:39-40). Shutdown switches a relay off
  without one, and that is the only exception (`AnnouncementsTrackStateIff`, `ShutdownIsSilent`).
- `expire` publishes after it has unlocked. `LastEventTellsIff` says exactly when the last event tells the
  relay's state, `PublishedInOrderIff` when events are published in the order of the changes, and
  `ExpiryEventCanBeOvertaken` gives a run in which the last event is wrong with nothing left to publish.
- Each connected client is said to get a stream of the events (internal/httpapi/events.go:9-12). The channel
  is shared, and a stream sees all of them exactly if no other stream has taken one (`StreamSeesAllIff`,
  `StreamsCompete`).
- A password change is to take effect at once (internal/httpapi/auth_handlers.go:80-82). It does when requests
  run one at a time (`RotationIsImmediate`). Interleaved, a header that the new password does not match is
  let in exactly as `StaleHeaderAdmittedIff` says: between Store and flush if it is cached, and for up to a
  minute if it was verified before the Store and remembered after the flush (`HeaderCanOutliveItsPassword`).
  And the new password itself lasts until the next change exactly if no request that had loaded the
  configuration before the Store stores after it (`PasswordLastsIff`, `SaltedPasswordLastsIff`); otherwise the
  old one is back, in memory and on disk (`PasswordCanBeLost`).
- Memory and disk agree when requests run one at a time. Interleaved, when no handler is between Save and
  Store, they differ exactly if the last two writers crossed (`MemoryIsDiskIff`, `MemoryCanLeaveDisk`).
- A success is to clear the failures of an address (internal/httpapi/auth.go:152). A request that the cache
  answers does not: the throttle is the replay of the other failures and successes (`ThrottleOverRuns`,
  `CachedSuccessForgetsNothing`).
- `New` gives back what it has opened when it fails (internal/relay/relay.go:91-95), exactly if no enabled relay
  before the refused one has a later namesake: the map then no longer holds that relay's line (`New`,
  `NewCanLeak`). `Validate` excludes that (`ValidatedIsAllOrNothing`).
- The note sent with a network change (internal/httpapi/network.go:63) says that it is undone unless confirmed.
  A further `Apply` that gets the lock also takes the guard off, even if it then fails
  (`RolledBackUnlessDisarmed`, `FailedApplyDisarms`).
- `prefixToNetmask` is called the inverse of `netmaskToPrefix` (internal/netcfg/prefix.go:29). It is, on
  netmasks written in dotted decimal; an accepted netmask in IPv6 notation comes back spelt differently
  (`NetmaskRoundTrip`, `SpellingCanChange`).
- `handleLogin` turns a locked-out address away without recording anything, so its throttle, described as
  progressive (internal/httpapi/auth.go:60-62), never goes beyond its first step there (`LoginsOnlyThrottle`).
- `handlePutNetwork` is documented as answering before it applies (internal/httpapi/network.go:25-27); it
  applies first, and the model follows the code.

## Model

| member | source | states |
|---|---|---|
| Configs.Validate | internal/config/config.go:99-144 | accepts a document if and only if it meets the declarative specification (distinct positive ids, distinct non-negative pins, bounds, static addresses), and otherwise names the first problem |
| Configs.FirstProblemUnique | internal/config/config.go:99-144 | a document has at most one first problem, and a valid one has none |
| RelayRuns.RunInv | internal/relay/relay.go:53-63 | in every reachable state closures have distinct generations none beyond the relay's, latched implies on, an armed timer belongs to the current generation and its closure is due at the deadline; with their stated conditions also tidy, sound and configured |
| RelayMachine.GenerationRule | internal/relay/relay.go:58-63 | a timed pulse runs iff the timer is set iff the deadline is set iff exactly one closure of the current generation is outstanding, and the line is energised iff on |
| RelayMachine.RefinesStep | internal/relay/relay.go:145-326 | each operation is one of a relay that is only Opened, Pulse(deadline) or Latched, with the same answer; an expiry takes effect only when the pulse is over |
| RelayMachine.LapseIsAvailable | internal/relay/relay.go:309-321 | whenever the three-state relay may end its pulse, exactly one outstanding closure does it, and every other one is invisible |
| RelayMachine.CommandUnderFaults | internal/relay/relay.go:145-247 | a command that needs the driver and fails is answered with an error and leaves relay and line as they were; every other one is a step of the three-state relay, with its answer, also while Shutdown takes the lines away |
| RelayMachine.SnapshotIsReport | internal/relay/relay.go:328-349 | a snapshot has the configured id, name and pin, says whether the line is held, and reports the three-state relay with the time left of its pulse in milliseconds |
| RelayMachine.FaultStep | internal/relay/relay.go:169-180 | off implies no timer and no live closure, so the Stop branch in Trigger is dead; a relay is stranded by a failed Off only and freed by On, a successful Off or Shutdown only |
| RelayMachine.RunawayStep | internal/relay/relay.go:286-321 | energised while off or given up arises from a failed release in expire, Shutdown or closeAll only, and ends with the next successful drive only; once given up energised, a line stays so |
| RelayMachine.UntidyStep | internal/relay/relay.go:286-291 | a deadline outlives its pulse through Shutdown only, and only a later successful command clears it |
| RelayRuns.RunRefines | internal/relay/relay.go:145-326 | every faultless run before Shutdown is a run of the three-state relay under the same calls at the same times: same states, same answers |
| RelayRuns.RequestedPulseBounds | internal/httpapi/relays.go:39-47 | a request is taken iff it names no duration or one of 50 to 300000 ms; the pulse then lasts exactly what it says, or else what is configured, and on a validated relay 50 to 300000 ms |
| RelayRuns.RemainingBounded | internal/relay/relay.go:340-349 | in every run with checked durations every reported remaining time, in answers and snapshots, is within 0 to 300000 ms |
| RelayRuns.StrandedStaysEnergised | internal/relay/relay.go:233-240 | such a relay stays energised through any Triggers, expiries and further failed Offs, and answers every Trigger as a duplicate |
| System.RelaysAreIndependent | internal/relay/relay.go:46-64 | in every interleaving each relay goes through the run of its own operations, on a forward clock, and nothing done elsewhere touches it |
| System.FreshRelays | internal/relay/relay.go:79-100 | a new controller holds exactly the configured relays, new, in configuration order |
| SystemRuns.ReachableRelay | internal/relay/relay.go:145-326 | every relay of every reachable state of a validated configuration keeps the invariants |
| SystemRuns.EveryRelayRefines | internal/relay/relay.go:145-326 | without driver faults every interleaving of commands and arbitrarily late closures over any number of relays refines the three-state relay, relay by relay, states and answers |
| SystemRuns.GenerationsTellClosuresApart | internal/relay/relay.go:58-63 | the generation rule in every reachable state before Shutdown |
| SystemRuns.PulseHolds | internal/relay/relay.go:160-180 | throughout an energised interval the timer stays armed and the deadline is the one its first Trigger set, whatever further Triggers ask for |
| SystemRuns.CoalescedNeverIncreases | internal/relay/relay.go:160-163 | of two coalesced answers within one pulse the later never reports more time |
| SystemRuns.PulseBound | internal/relay/relay.go:137-180 | if due closures run within a slack, an undisturbed energised interval lasts at most the duration of the Trigger that started it plus the slack |
| SystemRuns.EnergisedIntervalBound | internal/relay/relay.go:4-8 | from a validated configuration, any undisturbed energised interval was started by a Trigger on that relay and lasts at most what it asked for and at most 300000 ms, plus the slack |
| SystemRuns.RemainingBounded | internal/relay/relay.go:260-270 | at any time of any run of a validated configuration under checked durations, the time left in a listing and in any answer is within 0 to 300000 ms |
| SystemReports.EveryAnswer | internal/relay/relay.go:145-247 | after any run whatever a command is refused with a driver error iff the relay holds its line, the driver is needed and fails; otherwise it is answered as the three-state relay answers and takes it on; an answer is "disabled" iff the line is not held |
| SystemReports.EveryReport | internal/relay/relay.go:250-270 | in any run whatever what Get and List report is the configured identity and the three-state relay, but for the time that a relay switched off in its pulse by Shutdown keeps reporting |
| SystemReports.CommandTraces | internal/relay/relay.go:171-245 | a command drives the line once iff it is carried out and changes the level or is an Off, and publishes once iff it is carried out and is not a Trigger on a relay that is on |
| SystemReports.ExpiryTraces | internal/relay/relay.go:309-326 | a due closure of the current generation drives the line inactive and takes one snapshot to publish; any other leaves no trace |
| SystemReports.ShutdownTraces | internal/relay/relay.go:278-303 | an iteration of Shutdown or of closeAll drives a held line inactive and publishes nothing |
| SystemReports.FirstBoot | internal/config/config.go:75-93 | the seeded relays are valid, active-low, on pins 17 and 27, and their Triggers last two and five seconds |
| SystemRuns.HistoryGivesLevels | internal/gpio/mock.go:65-76 | under any faults and through shutdown each relay's level is the last one in the backend's history |
| SystemRuns.NoDoubleEnergise | internal/relay/relay.go:157-163 | in every faultless run, shutdown included, no line is energised twice without a release between |
| SystemRuns.ReleasedRun | internal/relay/relay.go:296-303 | a line that closeAll has passed is released, and without faults was last driven inactive |
| SystemRuns.ShutdownIsSafe | internal/relay/relay.go:277-303 | with commands and closures running between any two iterations, a completed faultless Shutdown has released every line and last driven it inactive |
| SystemRuns.ShutdownIsFinal | internal/relay/relay.go:277-303 | afterwards no line is ever driven again and every command is answered "disabled" |
| SystemFaults.ShutdownTreatsEveryRelay | internal/relay/relay.go:278-292 | in every run, once Shutdown is past its loop, each relay of the controller has been switched off by an iteration of it |
| SystemFaults.StrandedIff | internal/relay/relay.go:233-240 | in every run a relay is on, unlatched and without a timer iff an Off failed during a pulse and no On, successful Off or Shutdown came after it |
| SystemFaults.StrandedIsReachable | internal/relay/relay.go:233-240 | a Trigger and then an Off that fails lead there |
| SystemFaults.RunawayIff | internal/relay/relay.go:286-321 | in every run, shutdown included, a line is energised while its relay is off or has given it up iff an expiry, Shutdown or closeAll failed to release it and no drive has succeeded since |
| SystemFaults.RunawayIsReachable | internal/relay/relay.go:315-321 | a pulse that the driver fails to end leads there |
| SystemFaults.EnergisedAfterShutdownIff | internal/relay/relay.go:272-303 | once Shutdown is done a line is energised, and last driven active, iff closeAll found it energised and its close failed, whatever ran in between |
| SystemFaults.LineCanOutliveTheDaemon | internal/relay/relay.go:293-300 | a Trigger between Shutdown's loop and closeAll and a failed close leave a line energised with the relay off, although every other drive succeeded |
| SystemFaults.UntidyIff | internal/relay/relay.go:278-292 | in every run a relay that is off has a deadline iff Shutdown met it during a pulse and no command has succeeded since, and it then reports time left until that deadline |
| SystemFaults.ShutdownReportsTimeLeft | internal/relay/relay.go:278-292 | after a Trigger and Shutdown a relay reports off and its full duration |
| SystemEvents.QueueAccounts | internal/relay/relay.go:108-115 | the queue never exceeds 64, published = queued + received + dropped, and what is delivered is in publication order |
| SystemEvents.NothingDroppedIff | internal/relay/relay.go:108-115 | in every run what is received and queued is all that was published, in order, iff nothing was ever published into a queue of 64 |
| SystemEvents.StreamSeesAllIff | internal/httpapi/events.go:27-33 | in every run a stream has seen every event delivered iff no other stream has taken one |
| SystemEvents.StreamsCompete | internal/httpapi/events.go:27-33 | a Trigger and a read by one stream leave another with nothing |
| SystemEvents.EventsAreReal | internal/relay/relay.go:322-338 | every event, late ones included, is a snapshot its relay really had in the run |
| SystemEvents.EventTimesBounded | internal/relay/relay.go:328-338 | no event of such a run reports time left outside 0 to 300000 ms |
| SystemEvents.AnnouncementsTrackStateIff | internal/relay/relay.go:39-44 | in every run, under any driver faults, the last snapshot taken for publication disagrees with the relay's on or latched iff Shutdown has switched it off since without one |
| SystemEvents.ShutdownIsSilent | internal/relay/relay.go:286-291 | a Trigger and Shutdown leave a relay off with a last event that says on and nothing left to publish |
| SystemEvents.CommandsPublishInOrder | internal/relay/relay.go:182-245 | the events of Trigger, On and Off on one relay are exactly the states these commands left behind, in that order |
| SystemRuns.RedundantRequestsAreInvisible | internal/relay/relay.go:157-163 | deleting every coalesced Trigger, Trigger on a latched relay and stale expiry from any run leaves the history, the events and every relay's state the same |
| SystemEvents.ExpiryEventCanBeOvertaken | internal/relay/relay.go:322-325 | a run after which the last event in the queue says off while the relay is on, and nothing is left to publish |
| SystemEvents.LastEventTellsIff | internal/relay/relay.go:286-325 | in every run with no expiry of the relay still to be published, the last event about it has its present on and latched iff, when a command's, Shutdown has not silently switched it off since, and when an expiry's, the relay is off |
| SystemEvents.PublishedInOrderIff | internal/relay/relay.go:309-326 | in every run, once no expiry of the relay is still to be published, its events were published in the order in which their snapshots were taken iff nothing about it was published between an expiry and its publication |
| Daemon.Mock.RequestLine | internal/gpio/mock.go:33-43 | grants a free line, inactive, and registers it; refuses a taken one and changes nothing |
| Daemon.Line.SetActive | internal/gpio/mock.go:65-76 | sets the level and records the transition |
| Daemon.Line.Close | internal/gpio/mock.go:78-84 | drives the line inactive and gives it back, even if the drive failed |
| Daemon.Cell.Trigger | internal/relay/relay.go:153-183 | takes exactly the step Trigger of the relay machine, with its answer, publication and transitions |
| Daemon.Cell.On | internal/relay/relay.go:197-216 | takes exactly the step On |
| Daemon.Cell.Off | internal/relay/relay.go:229-246 | takes exactly the step Off |
| Daemon.Cell.Expire | internal/relay/relay.go:310-321 | takes exactly the step Fire of the closure it runs |
| Daemon.Cell.Shut | internal/relay/relay.go:280-291 | takes exactly the step Shut |
| Daemon.Cell.Close | internal/relay/relay.go:298-301 | takes exactly the step Close and lets go of the line |
| Daemon.Controller.Publish | internal/relay/relay.go:108-115 | never blocks: the event is queued if there is room and dropped otherwise |
| Daemon.Controller.Receive | internal/httpapi/events.go:33 | a stream takes the oldest event of the queue |
| Daemon.Controller.Get | internal/relay/relay.go:250-258 | the snapshot of the relay, or not found |
| Daemon.Controller.List | internal/relay/relay.go:261-270 | one snapshot for each relay, in configuration order |
| Daemon.Controller.Trigger | internal/relay/relay.go:145-184 | moves the whole controller, its lines, its history and its queue by exactly that step of the system, and answers as the machine says |
| Daemon.Controller.On | internal/relay/relay.go:189-217 | the same for On |
| Daemon.Controller.Off | internal/relay/relay.go:221-247 | the same for Off |
| Daemon.Controller.ExpireLocked | internal/relay/relay.go:309-323 | the same for expire up to its unlock, with the snapshot in hand and not yet published |
| Daemon.Controller.PublishExpiry | internal/relay/relay.go:325 | the separate late publication |
| Daemon.Controller.Shutdown | internal/relay/relay.go:277-303 | run to its end it takes exactly one Shutdown step for each relay in configuration order and one close for each relay in the order of the map, with the driver's answer for that relay; no relay keeps a line, and the backend keeps exactly the lines that no relay held |
| Daemon.New | internal/relay/relay.go:75-100 | for any list of relays and any backend: fails iff the backend refuses the line of an enabled relay or its pin is taken, and then the backend holds what it held and the lines that leaked, so that it is as it was iff no enabled relay before the refused one has a later namesake there; otherwise it holds what it held and exactly the enabled relays' lines, each pin high iff its relay is active-low, and nothing has been driven |
| Daemon.Controller.PinShowsLevel | internal/gpio/mock.go:70-72 | whenever the controller is valid, as every method leaves it, the pin of a held line is high iff the relay's level is that of its polarity |
| Daemon.NewCanLeak | internal/relay/relay.go:91-97 | such a list, with an idle backend that grants every line, leaves a line held |
| Daemon.ValidatedIsAllOrNothing | internal/relay/relay.go:91-97 | for a validated configuration nothing leaks and no two of its relays compete for a pin |
| Sse.Consume | web/app.js:265-280 | for any stream and any chunks the loop ends and its result is that of the whole text parsed at once |
| Sse.DrainMore | web/app.js:272-279 | parsing what is there and then more is parsing all of it together |
| Sse.DeadStays | web/app.js:278-284 | after a payload that does not parse nothing more is applied, whatever arrives |
| Sse.DataLineIff | web/app.js:277-278 | of a frame with any lines the parser takes the text of the first that starts with "data: ", and nothing iff there is none |
| Sse.FramesAreDelivered | web/app.js:274-279 | of any frames and any rest the client delivers, in order, the payloads of the frames that have one, up to the first that does not parse, and keeps the rest |
| Sse.EveryStreamIsFramed | web/app.js:274-276 | every stream at all is such frames and a rest without a blank line |
| Sse.Serve | internal/httpapi/events.go:29-40 | writes the frames of the encodable events, in order |
| Sse.FrameRoundTrip | internal/httpapi/events.go:38 | a printed frame followed by anything is one frame to the parser, and its data line is the payload |
| Sse.DrainPrinted | web/app.js:274-279 | the parser undoes the printer for any payloads without newline and keeps what is left over |
| Sse.PrefixDeliversCompleteFrames | web/app.js:272-279 | any prefix of the stream delivers exactly the frames that are complete in it |
| Sse.EventsArriveInOrder | web/app.js:265-280 | however the stream is split, the client applies exactly the events that can be encoded, in order; all of them if all can be |
| Disk.Store.Save | internal/config/store.go:62-116 | succeeds iff the document is valid and no step up to the rename fails, and passes through exactly the stated states of the disk; an invalid document touches nothing |
| Disk.Store.Load | internal/config/store.go:29-54 | seeds a missing document and saves it; otherwise returns the document iff it is readable, parses and is valid, and writes nothing |
| Disk.SaveIsCrashSafe | internal/config/store.go:56-116 | a crash between any two calls finds the whole old document or the whole new one; an error changes nothing at the path, now or after a crash; success shows the new one, and with the directory synced a crash finds nothing else |
| Disk.SaveSucceedsIff | internal/config/store.go:67-103 | Save succeeds, and the new document can be read, iff every call up to the rename works and the temporary name is free; otherwise what could be read before can still be |
| Disk.NoLeftovers | internal/config/store.go:82-84 | no temporary file stays behind, unless its removal fails |
| Disk.CrashFindsARecentDocument | internal/config/store.go:62-116 | after any sequence of saves a crash finds exactly one of the documents successfully saved since the last one whose directory sync took effect, that one included |
| Saves.CrashFindsAWholeDocument | internal/config/store.go:62-116 | with any number of Saves interleaved call by call, the path always reads as the document renamed last, whole, and a crash finds exactly a document renamed into place (or what was there at first) that no later rename followed by any directory sync has superseded |
| Saves.RestartFindsAValidDocument | internal/config/store.go:46-53 | whatever such a crash finds is a document that Load takes, if all that were saved are |
| Saves.AloneIsSave | internal/config/store.go:62-116 | a Save that nothing interleaves with goes through the states of Disk and ends as it says |
| Disk.RestartAfterCrash | internal/config/store.go:46-53 | what the next start reads after a crash at any moment of a Save is accepted, and is the old configuration or the new one |
| Disk.FirstBootPersists | internal/config/store.go:31-40 | after a first boot every later start reads the seeded document with its forced password change |
| Auth.AuthCache.Check | internal/httpapi/auth.go:32-45 | true iff the header is remembered and not past its time; drops an entry that is |
| Auth.AuthCache.Remember | internal/httpapi/auth.go:47-52 | the header is remembered for the cache's lifetime |
| Auth.AuthCache.Flush | internal/httpapi/auth.go:54-58 | nothing is remembered |
| Auth.Throttle.DelayFor | internal/httpapi/auth.go:79-95 | the delay of the specification, leaving the map alone |
| Auth.Throttle.RecordFailure | internal/httpapi/auth.go:97-107 | the failure step of the specification, on that address only |
| Auth.Throttle.RecordSuccess | internal/httpapi/auth.go:109-113 | forgets that address only |
| Auth.ThrottleRemembersBursts | internal/httpapi/auth.go:97-113 | over any history, address by address: the count is the length of the last burst of failures since the last success, each within 60 s of the one before, and the entry ends 60 s after the last |
| Auth.DelayClosedForm | internal/httpapi/auth.go:79-95 | delay = min(5 s, 200 ms * max(0, n - 5)) for a burst of n until 60 s after its last failure, and 0 otherwise |
| Auth.LoginCountAtMostSix | internal/httpapi/auth_handlers.go:29-41 | through logins alone no count passes six |
| Auth.LockoutEnds | internal/httpapi/auth_handlers.go:29-41 | whatever logins a locked-out address or others try, its lockout ends 60 s after the sixth failure and not before |
| Server.RunKeeps | internal/httpapi/relays.go:115-126 | over any requests one at a time, whatever steps of Save fail: the served configuration is valid and is the document on disk, every cached header is genuine for it, and with directory syncs in effect a crash can find no other document |
| Server.CacheIsTransparent | internal/httpapi/auth.go:138-154 | at every point of every such run requireAuth accepts a header iff a check without a cache would |
| Server.MemoryIsDisk | internal/httpapi/auth_handlers.go:70-79 | after every request of every such run memory is valid and equals what is on disk |
| Server.PowerCutDuringRequest | internal/httpapi/network.go:43-54 | a power cut at any moment of a request's Save restarts with the configuration served before it or the one being put in place |
| Server.RotationIsImmediate | internal/httpapi/auth_handlers.go:64-82 | after a successful password change exactly the headers genuine under the new hash are accepted |
| Server.ThrottleOverRuns | internal/httpapi/auth.go:138-153 | over any run of logins and protected requests, one at a time, the throttle is the replay of its failures and successes, a request that the cache answers being neither, and its delay has the closed form |
| Server.CachedSuccessForgetsNothing | internal/httpapi/auth.go:138-153 | a genuine request, a failed login and the same request let in again leave the failure on record |
| Server.LoginsOnlyThrottle | internal/httpapi/auth_handlers.go:22-43 | a run of logins changes the throttle only, as the specification says, with at most six failures on record and a lockout exactly at six until 60 s after the last |
| ServerAnswers.OnlyCredentialsAreServed | internal/httpapi/auth.go:131-155 | a request whose header does not parse, or names another user, or whose password the stored hash does not verify, or any while the hash is empty, is answered Unauthorized and changes neither configuration nor disk; any other is handled |
| ServerAnswers.PlainAnswered | internal/httpapi/routes.go:60-68 | any other protected route is answered Unauthorized without credentials, MustChange while the flag is set, and otherwise runs; nothing changes |
| ServerAnswers.PutRelaysAnswered | internal/httpapi/relays.go:108-132 | the exact answer in every case; on success the submitted list is served and on disk and every other field is as it was; otherwise the configuration is as it was |
| ServerAnswers.PutNetworkAnswered | internal/httpapi/network.go:31-66 | the exact answer in every case; once saved the submitted settings are served and on disk, even if Apply then fails, and every other field is as it was |
| ServerAnswers.PutPasswordAnswered | internal/httpapi/auth_handlers.go:53-85 | the exact answer in every case; on success the given hash is served and on disk with the flag cleared, no header is remembered, and every other field is as it was |
| ServerAnswers.ChangesAreAuthorised | internal/httpapi/routes.go:15-36 | over any run configuration and disk change only through requests with credentials for what was served then, and while the flag is set only through password changes |
| ServerAnswers.ConfigIsWhatWasPut | internal/httpapi/relays.go:115-126 | after any run the configuration has the relays and the network settings of the last PUT that was taken, the account of the last password change, and all else as at first; and that is what the document on disk decodes to |
| ServerAnswers.HappeningsAreAnswers | internal/httpapi/auth.go:138-153 | what counts as a failure or a success for the throttle is what was answered as one |
| ServerAnswers.LoginAnswered | internal/httpapi/auth_handlers.go:22-43 | after any run a login is turned away iff the address has more than five failures in its last burst and the last at most 60 s ago; otherwise it is accepted iff user and password are right |
| ServerAnswers.FactoryLogin | internal/config/store.go:31-40 | after a first boot exactly the factory password opens the account, with the flag set |
| Server.HttpServer.RequireAuth | internal/httpapi/auth.go:131-154 | takes exactly the authentication step on cache and throttle |
| Server.HttpServer.HandleLogin | internal/httpapi/auth_handlers.go:22-43 | takes exactly the login step |
| Server.HttpServer.HandleChangePassword | internal/httpapi/auth_handlers.go:53-85 | takes exactly the password-change step: checks, Save, Store, flush |
| Server.HttpServer.HandlePutRelays | internal/httpapi/relays.go:108-132 | takes exactly the relay-replacement step, behind the gate |
| Server.HttpServer.HandlePutNetwork | internal/httpapi/network.go:31-66 | takes exactly the network-replacement step, behind the gate; a failed Apply is reported after memory and disk have changed |
| Server.HttpServer.Dispatch | internal/httpapi/routes.go:15-36 | every request takes exactly its step of the model: authentication, then the gate on every route but the password change |
| Handlers.RunOk | internal/httpapi/auth_handlers.go:64-82 | in every interleaving the log is in order: a request loads what is served then, once, and behind the gate only if the gate was open; saves, once, a valid configuration made from what it loaded; stores what it saved; loads only once it has been let in; verifies against what is served then and remembers only what it verified; and memory and document are what the log says |
| HandlerRuns.NothingBeforePasswordChange | internal/httpapi/routes.go:60-68 | in every interleaving from a document with the flag set, no gated handler runs before a password change with the right current password and a new one of at least 8 bytes has been stored, the served flag is clear iff one has, and no document saved or served has the flag again |
| HandlerRuns.ServedConfigIsValid | internal/httpapi/network.go:43-54 | in every interleaving, whatever saves fail, the served configuration and the document are valid |
| HandlerRuns.NobodyUnchecked | internal/httpapi/auth.go:131-155 | in every interleaving a handler runs only for a request whose header had the credentials of what was served when it was checked, or for whose header the cache answers, remembered from such a check at most 60 s ago and after the last flush |
| HandlerRuns.SavedAsSubmitted | internal/httpapi/relays.go:115-126 | in every interleaving what a request saves and stores is what was served when it loaded, with the submitted relays, settings or hash in place and every other field as it was |
| HandlerRuns.MemoryIsDiskIff | internal/httpapi/relays.go:122-126 | when no handler is between Save and Store, memory and disk differ iff the last to store had saved before the last to save, who had stored before it, with different documents |
| HandlerRuns.MemoryIsDiskWhenSerial | internal/httpapi/relays.go:122-126 | if no two handlers are ever between Save and Store together, memory and disk agree whenever none is |
| HandlerRuns.MemoryCanLeaveDisk | internal/httpapi/relays.go:122-126 | any two PUTs with different valid results have an interleaving that leaves one served and the other on disk with no request in flight |
| HandlerRuns.PasswordLastsIff | internal/httpapi/auth_handlers.go:64-79 | the account that a password change stores stays served until the next change iff no request that had loaded another account before that Store stores after it |
| HandlerRuns.SaltedPasswordLastsIff | internal/httpapi/auth_handlers.go:70-79 | if the new hash is not one that was loaded before, iff no request that had loaded before that Store stores after it |
| HandlerRuns.PasswordCanBeLost | internal/httpapi/relays.go:115-126 | any PUT and any password change have an interleaving that ends with the change answered and the old password back, in memory and on disk |
| HandlerRuns.StaleHeaderAdmittedIff | internal/httpapi/auth.go:138-154 | in every interleaving a header genuine for nothing stored since some Store is let in iff a request verified it before that Store and remembered it less than a minute ago and after the last flush |
| HandlerRuns.HeaderCanOutliveItsPassword | internal/httpapi/auth.go:143-153 | any header and any change that it does not survive have an interleaving that ends with the change answered and the header let in |
| Netmask.MaskLengthExact | internal/netcfg/prefix.go:18-26 | the length of a mask is p iff its first p bits are ones and all others zeros |
| Netmask.AcceptedMasks | internal/netcfg/prefix.go:13-27 | netmaskToPrefix yields p iff the netmask parses to four bytes that are p ones followed by zeros |
| Netmask.CIDRMaskBits | internal/netcfg/prefix.go:34 | the mask built for a length has that many ones and then zeros |
| Netmask.PrefixMaskUnique | internal/netcfg/prefix.go:34 | it is the only one |
| Netmask.PrefixRoundTrip | internal/netcfg/prefix.go:29-36 | every length 0 to 32 survives printing as a dotted netmask and reading it back |
| Netmask.NetmaskRoundTrip | internal/netcfg/prefix.go:29-36 | an accepted netmask survives the trip through its length iff it is written in dotted decimal |
| Netmask.SpellingCanChange | internal/netcfg/prefix.go:29-36 | a netmask written as an IPv4-mapped IPv6 address is accepted and comes back in dotted decimal |
| Netmask.QuadRoundTrip | internal/netcfg/prefix.go:35 | a printed address parses back to itself |
| Netmask.QuadCanonical | internal/netcfg/prefix.go:14 | an address has one dotted-decimal spelling |
| Netcfg.StripLegacyAddressSettings | internal/netcfg/netcfg.go:211-218 | every block loses exactly the legacy keys |
| Netcfg.NetmaskSurvives | internal/netcfg/netcfg.go:231-246 | a static intent's netmask comes back from the settings Apply sends iff it was written in dotted decimal |
| Netcfg.StaticSettings | internal/netcfg/netcfg.go:231-246 | the ipv4 block of a static intent has four keys and no others: manual, the one address with the prefix of the netmask, the gateway and the name servers of the intent |
| Netcfg.DhcpSettings | internal/netcfg/netcfg.go:225-229 | that of a dhcp intent says auto and nothing else |
| Netcfg.OtherBlocksStay | internal/netcfg/netcfg.go:156-157 | every other block keeps every key but the legacy ones |
| Netcfg.IntentSurvives | internal/netcfg/netcfg.go:93-120 | read back as Get reads it, a static intent comes back in mode, address, gateway and name servers, and in its netmask iff that was written in dotted decimal; a dhcp intent comes back as dhcp |
| Netcfg.RefusedIntent | internal/netcfg/netcfg.go:231-234 | no settings can be made iff a netmask is needed and is none |
| Netcfg.RunInv | internal/netcfg/netcfg.go:159-200 | in every run at most one checkpoint is live, and it is the one the manager holds |
| Netcfg.CheckpointFate | internal/netcfg/netcfg.go:159-200 | a checkpoint is, exclusively, still live with its settings in force, rolled back, or disarmed while live; so after Confirm that change is never rolled back |
| Netcfg.RolledBackUnlessDisarmed | internal/netcfg/netcfg.go:159-200 | once its 60 s are over a change has been rolled back iff neither Confirm nor a further Apply took the lock in time |
| Netcfg.RollbackRestores | internal/netcfg/netcfg.go:171-185 | undisturbed, the new settings are in force until the 60 s are over and then those in force just before that Apply |
| Netcfg.FailedApplyDisarms | internal/netcfg/netcfg.go:166-174 | a further Apply that fails to create its checkpoint leaves the pending change in place for good |
| Netcfg.ApplyLeaves | internal/netcfg/netcfg.go:166-186 | which settings are in the profile, which are active and what guards them, after each way in which Apply can end |
| Netcfg.ConfirmLeaves | internal/netcfg/netcfg.go:192-200 | Confirm leaves the settings as they are and takes the guard off |
| Netcfg.Manager.Prepare | internal/netcfg/netcfg.go:139-157 | before the lock: settings that are the present profile with a new ipv4 block and no legacy keys, or an error iff the device or the netmask is not usable |
| Netcfg.Manager.Commit | internal/netcfg/netcfg.go:159-187 | under the lock: takes exactly the Apply step with those settings, in each of its failure cases |
| Netcfg.Manager.Apply | internal/netcfg/netcfg.go:134-187 | the two with nothing in between |
| Netcfg.EarlyReadIsHarmless | internal/netcfg/netcfg.go:147-159 | in every run of Apply, Confirm and rollbacks, settings made from the profile at any earlier moment are settings that would be made from it now |
| Netcfg.Manager.Confirm | internal/netcfg/netcfg.go:192-200 | disarms the checkpoint it holds, if any |

## Left out

- HTTP routing, headers, status codes and JSON shapes (json.go, static.go, device.go): plumbing. Responses are a datatype, and JSON is an abstract round trip, which is assumed for every configuration.
- bcrypt, SHA-256, base64 and Basic header parsing: function parameters with the stated assumptions.
- The kernel GPIO driver (internal/gpio/cdev.go, open.go): its contract is the Line interface, and its failures are parameters.
- D-Bus, device discovery and the hostname: one parameter decides whether Apply gets as far as its lock. A destroy of a live checkpoint always succeeds.
- internal/sysinfo, cmd/relayd and deploy: process plumbing, used only to justify the shutdown assumption.
- The user interface: DOM code, countdown ticking, saveRelay and web/login.js.
- `debounce_ms`: validated, and otherwise unused by the controller.
- Wrap-around of the 64-bit generation counter: an unbounded natural number.
- The byte level of TextDecoder: chunks are text, and an incomplete last character stays with the decoder.
- The write errors and the disconnect of an event stream: Serve covers the events taken from the channel up to any point.
- The 503 answers when no network configurator is present.
- The sleep in requireAuth: it delays a request and decides nothing.
- The throttle in the interleaved handlers: `Handlers` has what decides admission; the throttle's runs are in `Server`.
- Handlers.RunOk: a Save is the one step that makes its document readable; `Saves` has its calls, and shows that nothing else of it can be read.
- Daemon.Controller.Shutdown: the method runs without interruption; interleavings with commands and closures are covered on `System` by ShutdownIsSafe.
