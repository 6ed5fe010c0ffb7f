# Door access control: a verified model

A Raspberry Pi drives an electromagnetic lock. Relock timers, a button, an NFC reader, door sensors and
a control socket feed one bounded event queue; a single dispatcher empties it and owns the lock, the
configuration with its file, the enrollment dialogue and the audit log. A separate web process logs
administrators in and shows the history. This project models that service in Dafny and proves what its
parts guarantee, alone and together. Check it with `dafny verify dfyconfig.toml`.

## How the model is built

Every component that changes state in place is a class whose methods are proved against functions on
values: `LockController`, `DoorSensor`, `EventStore`, `ConfigFile`, `NfcReader`, `LoginThrottle`,
`ControlSocket`, `EventQueue`, and `DoorService`, which is the dispatcher with its rollbacks and its loop.
`Dispatcher` holds the functions that `DoorService` computes, and `Effects` proves what they mean: when each
command succeeds, what it changes and what it leaves. `DoorSystem` is the whole service as a transition
system over the same functions: a run is any interleaving of timer threads, callbacks, card scans, socket
connections, clock ticks and loop steps, with any save failing at any step and any log insertion failing.
The modules `Relock`, `EarlyRelock`, `Audit`, `Settings`, `Enrollment`, `Replies`, `Publishing`,
`PolarityRaces`, `Alerting` and `Trail` prove properties of every state that every run reaches. Clocks, card
reads, socket chunks, pin levels, JSON parsing, PAM verdicts and I/O failures are inputs.

A relock timer is modelled in the two steps its thread takes: it passes its cancellation check, and later
posts. A cancellation in between has no effect, as in the program, so expiries of cancelled timers occur. An
edge callback is modelled in two steps too: its critical section, and later its post. The callbacks of one
sensor run one at a time, as RPi.GPIO runs them.

## Where the code and its documentation differ

The model follows the code.

- The program's own README says (line 269) that 5 failed attempts lock a client out. Check and record are
  separate critical sections and the admin service runs 4 threads (door_admin.service:34), so 8 failures fit in
  one lockout window: `LoginThrottle.WindowBound` gives `max + threads - 1` and
  `LoginThrottle.WindowBoundAttained` reaches it.
- `uid_debounce_seconds` (config.json:37) has no effect: the last UID is forgotten whenever a card leaves, so
  the debounce branch is dead. `NfcReader.NfcReader.Run` proves it unreachable.
- The same README says (lines 307-309) that no stale door state lingers after a polarity change. The command
  publishes the new state ahead of what is queued or about to be posted, and an older state then overwrites it:
  `PolarityRaces.PolarityCanMislead` and `PolarityRaces.PendingPostCanMislead` are runs that do, and
  `Publishing.PolarityConvergesIff` says exactly when it does not.
- main.py:23-25 gives the enrollment window as 60 seconds. A scan may be captured one queue wait later:
  `Enrollment.CaptureIsLateIff` says exactly when, `Enrollment.CaptureIsPrompt` bounds it by 61 seconds, and
  `Enrollment.LateCaptureHappens` is a run that takes all 61.
- An unlock may last less than the configured duration: a timer that fired just before it still relocks the
  door. `EarlyRelock.CutShortIff` says exactly when that can happen, `Relock.RelockIsExplained` which timers do
  it, and `Relock.EarlyRelockHappens` is a run.

## Model

| member | source | states |
|---|---|---|
| Relock.NoLostRelock | lock_controller.py:64-122 | in every reachable state before shutdown at most one timer counts, none when locked, the pins encode the state, and an unlocked door's own timer is in exactly one of four places: counting, about to post, queued, or dropped by a queue that held 100 events |
| Relock.RelockIsExplained | lock_controller.py:75-122 | an expiry that relocks an unlocked door is its own timer's, which is due, or one that was already on its way when the current unlock ran |
| Relock.StaysUnlocked | lock_controller.py:75-88 | when an unlock is dispatched, in any reachable state with no expiry on its way, the door stays unlocked through every run until a due timer of that or a later unlock is dispatched, a lock command is, or the service shuts down |
| Relock.RelockIsBounded | main.py:438-469 | an expiry at queue position k has locked the door, with no timer left, after exactly k + 1 dispatches, whatever is queued meanwhile |
| Relock.EarlyRelockHappens | lock_controller.py:118-122 | a run in which a stale expiry relocks the door five seconds before the unlock's own timer is due |
| EarlyRelock.CutShortIff | lock_controller.py:75-122 | with the initial duration in range, after an unlock in any reachable state some run relocks the door without a lock command or shutdown and before any timer of that or a later unlock is due, if and only if an expiry was on its way when the unlock ran with no lock command queued ahead of it |
| Relock.ShutdownLocks | lock_controller.py:55-62 | the pins are released exactly once shutdown has begun; by then no timer counts and the locked level was the last one driven |
| DoorSystem.DispatchLock | main.py:424-443 | exactly which events unlock, which lock, and that all others leave state and timers alone and keep the pins in step |
| DoorSystem.TurnIsTwoSteps | main.py:446-469 | one turn of the program's loop is the head step and the dispatch step of the system |
| LockController.PinsFollowState | lock_controller.py:55-116 | every operation leaves relay and LED encoding the state, except cleanup on an unlocked door |
| LockController.LevelsMeanState | lock_controller.py:109-116 | the relay is energized, at the level that its wiring calls active, and the LED lit exactly while unlocked, and a polarity change inverts the level |
| LockController.TimersFollow | lock_controller.py:55-103 | an unlock starts one timer, due after the given duration or else the default one, and drops the last; lock and cleanup only drop it; settings change only by their own operations |
| LockController.LockController.Lock | lock_controller.py:64-73 | cancels the timer, records LOCKED and drives the locked level |
| LockController.LockController.Unlock | lock_controller.py:75-88 | cancels the old timer, records and drives UNLOCKED, and starts one timer due after exactly the duration given, or the default one when none is |
| LockController.LockController.SetActiveLow | lock_controller.py:90-97 | re-encodes the unchanged state under the new polarity |
| LockController.LockController.SetDefaultDuration | lock_controller.py:99-103 | changes the duration of later unlocks only |
| LockController.LockController.Cleanup | lock_controller.py:55-62 | cancels the timer, drives the locked level without recording it, and releases the pins |
| LockController.LockController.TimerCallback | lock_controller.py:118-122 | posts the expiry, or drops it when the queue is full, and never touches the lock |
| Audit.LogExplainsEverything | main.py:115-136 | with a working store, in every reachable state replaying the log over the initial tags gives the tags in force, every record about a UID is true of the replay before it, and the log holds one granted record for each unlock |
| Audit.ScanFollowsLog | main.py:107-136 | an unarmed scan unlocks exactly when the replayed log knows its UID, and is recorded under the replayed name |
| Audit.CommandAccounts | main.py:298-408 | each command other than a door polarity change is silent or leaves one record that accounts for its effect on tags and lock |
| Settings.SettingsAlwaysAgree | main.py:298-356 | in every reachable state file, memory, lock and sensors hold the same settings and the relay encodes the lock's state under the saved polarity |
| Settings.CrashDuringDispatch | main.py:33-63 | a crash at any step of any save, in any reachable state, leaves a file with the settings before the event, or after it once the last step ran |
| Settings.DispatchSaves | main.py:413-421 | a dispatch saves at most once, and saves the configuration it leaves in memory |
| Settings.RefusalChangesNothing | main.py:298-410 | a refused command changes no setting, tag, controller or enrollment state and leaves no record |
| Settings.UnlocksLastOneToSixtySeconds | main.py:298-313 | with an initial duration in range, every unlock's timer is due 1 to 60 seconds after it in every run |
| Settings.UnlockLastsAsConfigured | lock_controller.py:75-84 | in every reachable state a dispatch that unlocks leaves one timer counting, due after exactly the duration configured then |
| Settings.EveryTagCanBeNamed | main.py:376-403 | from canonical initial keys, at every point of every run a tag is removed, and renamed, by exactly the spellings of its UID |
| Effects.AddTagEffect | main.py:358-374 | a tag is added exactly when its UID is hex and new and the save works; then memory and file hold the old tags and this one, and one record and one message are left; otherwise why not, and nothing changes |
| Effects.RemoveTagEffect | main.py:376-387 | a tag is removed exactly when it is stored and the save works; then memory and file hold the others |
| Effects.RenameTagEffect | main.py:389-403 | a tag is renamed exactly when it is stored, the name is not blank and the save works |
| Effects.SetDurationEffect | main.py:298-313 | the duration changes exactly when it is from 1 to 60 seconds and the save works; then memory, file and lock hold the requested one |
| Effects.SetLockPolarityEffect | main.py:315-330 | the relay has the requested polarity exactly when a boolean was given and it had it already or the save works |
| Effects.SetDoorPolarityEffect | main.py:332-356 | the same for a door with a sensor and an entry, whose pin is then read again and whose state is published and recorded |
| Effects.LockCommandEffect | main.py:283-296 | what the lock and unlock commands answer, publish and record |
| Effects.EnrollCommandEffect | main.py:235-260 | what arming, polling and cancelling answer and leave; a poll tells the whole seconds left and hands the outcome over |
| Effects.QueryEffect | main.py:262-281 | status, hardware and tag queries answer from the state and change nothing |
| Effects.LoginEventEffect | main.py:405-410 | a reported login leaves one record without a UID; an unknown command is refused |
| Effects.RequestEffect | main.py:208-226 | a request runs its command under the first 64 characters of its actor, and one that is not an object does nothing |
| Effects.ScanEffect | main.py:107-136 | an unarmed scan unlocks exactly when its tag is stored, and what it publishes and records |
| Effects.CaptureEffect | main.py:115-172 | the three ends of an armed scan, when each occurs, and what it stores, saves, publishes and records |
| Effects.DeviceEffect | main.py:175-200 | the button unlocks, door states and alerts are published and recorded as posted, and an expiry locks without a record |
| ConfigFile.SaveIsAtomic | main.py:33-63 | the file holds the new configuration exactly when no step of the save failed, and is untouched otherwise |
| ConfigFile.CrashKeepsOldOrNew | main.py:50-63 | a restart after a crash between any two steps reads the old content until the last step has run, the new one afterwards |
| ConfigFile.ConfigFile.Save | main.py:33-63 | performs the steps up to the failing one and reports success exactly when none failed |
| Enrollment.DialogueIsAccounted | main.py:139-172 | in every run each capture with its outcome, each expiry and each hand-over is accounted for by the acts before it; armed means a deadline one window after the arm and no stored outcome, not armed means no deadline |
| Enrollment.OutcomesAreHandedOnce | main.py:235-260 | between two handed outcomes, and between two captures or expiries, the reader was armed again |
| Enrollment.CaptureIsPrompt | main.py:456-465 | in every run whose queue waits last at most one second, a scan is captured at most 61 seconds after its arm, which nothing ended before |
| Enrollment.CaptureIsLateIff | main.py:115-120 | in every reachable state in which the loop waits with the reader armed, a scan dispatched next is captured, and after the window if and only if the loop looked at the clock within it and the deadline has passed since |
| Enrollment.LateCaptureHappens | main.py:456-465 | a run with such waits that captures a scan 61 seconds after its arm and enrolls its tag in memory and in the file |
| Enrollment.ArmedScanIsCaptured | main.py:115-172 | an armed scan disarms the reader, never touches the lock, and is already enrolled, added or not saved exactly as the tag was stored, the save works or it fails; an added tag is in memory and in the file under the arm's name |
| Replies.AnswersAreOwn | control_socket.py:143-171 | a connection gets at most one answer; a result is that of its own request, executed once before; refused and busy requests are never queued or executed; non-object requests never get a result; no reply slot is ever full |
| Replies.ExecutionIsDispatch | main.py:208-226 | what is executed for a connection is the dispatch of its request, and a request that is not an object has no response |
| Replies.ResultIsDelivered | main.py:223-226 | in every reachable state the result of the request dispatched next fills its connection's own slot and is what that connection can be sent if it still waits |
| ControlSocket.ControlSocket.Serve | control_socket.py:143-171 | the queue gets the request only when a whole line was read, parsed and fitted, and each end sends the right answer |
| Publishing.PublishedStateConverges | door_sensor.py:58-104 | with unique door names and no polarity change of the door, what is published and queued for it is what was posted, in order; with no post dropped, it and the post under way are the first state and every change since, alternating, and once nothing is under way the last state published is the sensor's, unless it never announced one |
| Publishing.SettledIff | door_sensor.py:89-104 | from any state whatever, with unique names, no polarity change of the door and no post dropped, once nothing is under way the last state published is the sensor's if and only if the last one told or under way at the beginning was, or the sensor has changed since |
| Publishing.PolarityConvergesIff | main.py:332-356 | after a polarity change and any run without another of that door or a dropped post, once nothing is under way the last state published is the sensor's if and only if nothing queued or about to be posted was under way at the change, or the last of it was what the sensor reads under the new polarity, or the sensor has changed since |
| PolarityRaces.PolarityCanMislead | main.py:345-350 | a run in which an edge queued behind the command leaves a published state that the sensor does not have |
| PolarityRaces.PendingPostCanMislead | door_sensor.py:92-104 | the same with no state of the door queued: the edge callback has left its critical section and posts after the command |
| Publishing.LockStateIsPublished | main.py:122-125 | in every reachable state the last lock state published is the lock's |
| DoorSensor.AlwaysCoherent | door_sensor.py:35-123 | under any interleaving of edges, polls and polarity changes a door is open exactly when an opening time is recorded, and only an open door has alerted |
| DoorSensor.Episode | door_sensor.py:89-104 | the recorded opening time is when the current unbroken episode began, and the alert flag says whether it has alerted |
| DoorSensor.AlertsAreJustified | door_sensor.py:106-123 | an alert reports the time since its episode began, which reaches the threshold, and is the only one of its episode |
| DoorSensor.PollAlertsIff | door_sensor.py:106-123 | a poll alerts if and only if the current episode has not alerted yet and has reached the threshold |
| DoorSensor.ReadMeansPin | door_sensor.py:83-87 | a low pin means open exactly under active-low wiring |
| DoorSensor.AlertIsPrompt | door_sensor.py:106-123 | with polls at most 5 seconds apart no open door goes without an alert for longer than the threshold plus 5 seconds |
| DoorSensor.DoorSensor.SetActiveLow | door_sensor.py:35-47 | re-reads the pin under the new polarity and restarts the episode only when the state changes |
| DoorSensor.DoorSensor.EdgeCallback | door_sensor.py:89-104 | records and posts a changed state, and ignores a repeated one |
| DoorSensor.DoorSensor.Poll | door_sensor.py:106-123 | posts one alert when the episode is due and not alerted yet |
| Alerting.SensorsRunOnTheirOwn | door_sensor.py:35-123 | inside the running service each sensor goes through an ordered run of its own moves, so the results about single sensors hold of it |
| Trail.AlertsArePublished | door_sensor.py:106-123 | in every run the alerts published for a door and those queued are, in order, exactly those its polls posted into a queue with room |
| Trail.PostedAlertIsEpisode | door_sensor.py:106-123 | in every reachable state a poll posts an alert exactly when the door's episode has reached the threshold and not alerted, and it carries the time since that episode began |
| Trail.HistoryTellsDoors | main.py:184-200 | with a working store, in every reachable state the history holds for each door exactly the states and alerts published, in order, with the same times |
| Alerting.PublishedIsPin | door_sensor.py:83-104 | under the conditions of convergence, when callbacks act on the pin as it is and one has run since it last changed, the last state published is what the pin reads |
| DoorSensor.StateIsPin | door_sensor.py:83-104 | when callbacks act on the pin as it is and one, or a polarity change, has read it since it last changed, the state is what the pin says |
| DoorService.DoorService.DispatchEvent | main.py:424-443 | the in-place handlers, with their rollbacks, compute the dispatch function for every event |
| DoorService.DoorService.RunEventLoop | main.py:446-469 | the loop computes the fold of its turns, each an expiry check followed by a dispatch, and keeps the time of the last prune |
| DoorService.DoorService.PruneIfDue | main.py:453-455 | prunes the history exactly when a day has passed since the last time |
| DoorService.PrunesAreDaily | main.py:451-455 | prunes are a day or more apart, and no turn begins a day or more after the last without pruning |
| DoorService.DoorService.CaptureTag | main.py:144-172 | captures, or takes the tag out again when the save fails |
| DoorService.DoorService.RunWebCommand | main.py:229-410 | every command's response and new state |
| DoorService.DoorService.SetDoorPolarity | main.py:332-356 | saves, applies and publishes, or restores the previous polarity |
| LoginThrottle.WindowBound | web_admin.py:178-192 | with T threads and no successful login from a key, every window of one lockout holds at most max + T - 1 of its failures, in every interleaving |
| LoginThrottle.WindowBoundAttained | web_admin.py:404-446 | that bound is reached for every limit and thread count |
| LoginThrottle.LoginThrottle.LockedFor | web_admin.py:178-187 | the seconds left to wait of a client that has used its attempts up within the lockout, and none for any other, whose expired entry goes |
| LoginThrottle.LoginThrottle.Login | web_admin.py:400-448 | a locked-out client gets 429 and nothing changes; otherwise 302 and forgiveness exactly for an admin PAM accepts, 500 and no change exactly when PAM cannot judge, and 401 or 403 and one failure more in every other case; no other client is affected |
| LoginThrottle.FailuresLockOut | web_admin.py:178-192 | after failures in a row the next login is turned away exactly when they reach the limit and less than a lockout has passed since the last |
| Basics.StripTrims | main.py:161 | stripping a name takes whitespace off both ends, and all of it |
| Uid.PrinterRoundTrip | nfc_reader.py:122-126 | normalizing gives the reader's hex for exactly the spellings of it, and no other bytes print the same |
| Uid.NormalizeIffVariant | control_socket.py:36-52 | a string normalizes to a canonical UID exactly when it spells it in either case with separators anywhere |
| Uid.NormalForms | control_socket.py:36-52 | normalization is idempotent and accepts exactly the spellings of what a reader can print |
| Uid.KeyCanBeNamed | main.py:376-397 | a stored key can be named by some request exactly when it is canonical or empty |
| NfcReader.NfcReader.Run | nfc_reader.py:58-120 | one attempt to post for each card whose first read succeeds, in order, whatever the dwell and the debounce setting |
| NfcReader.OneEventPerPresentation | nfc_reader.py:91-106 | as many attempts as presentations, each with a canonical UID |
| NfcReader.AttemptCarriesUid | nfc_reader.py:91-106 | the attempt for a presentation carries the UID read from that card |
| NfcReader.AttemptsQueue | nfc_reader.py:155-166 | attempts are queued in order while there is room and dropped afterwards |
| Framing.ServerReads | control_socket.py:143-156 | which of its three ends the read loop reaches for every stream and chunking, and that a line read is the stream's first |
| Framing.ChunkingIsIrrelevant | control_socket.py:143-156 | a request with nothing after its newline is read the same under every chunking, and refused exactly when it exceeds 8192 bytes |
| Framing.ReadRequest | control_socket.py:143-153 | the loop computes that outcome and never buffers more than 8192 + 1024 bytes |
| Framing.ReadReply | control_socket.py:200-208 | the client gets the first line of the stream, or all of it, under every chunking |
| Timestamps.StampOrder | event_store.py:38-39 | stored timestamps compare as text exactly as their instants do in whole seconds, for years 1 to 9999 |
| Timestamps.StampSpells | event_store.py:38-39 | a timestamp spells year, month, day, hour, minute and second at fixed places, with UTC as its zone |
| EventStore.PruneIsExact | event_store.py:103-112 | a prune keeps every event inside the window and none a second or more past it |
| EventStore.EventStore.Log | event_store.py:86-101 | inserts one row under a new id, or nothing; readers see it once its commit or a later one works |
| EventStore.EventStore.Prune | event_store.py:103-116 | deletes exactly the rows older than the cutoff, keeping the others in order; readers see that once its commit or a later one works |
| EventStore.PagesPartition | web_admin.py:655-668 | the pages show every matching event exactly once, newest first, as many as are counted; all but the last are full, the last is not empty unless all is, and nothing follows it |
| EventStore.UnknownUidsRefineLog | event_store.py:191-202 | for every limit: as many denied UIDs as fit, each once, those denied last, most recent first, with the number and latest timestamp of their denials; all of them, with all the hits, if and only if the limit allows as many UIDs as were denied |
| EventStore.SmallerLimitIsPrefix | event_store.py:191-202 | a smaller limit shows a prefix |

## Left out

- DoorSystem.Init: a run starts when every sensor is started; an edge callback that runs while `start` is still under way, and may post before the initial state does, is not modelled; what follows from the state that leaves is `Publishing.SettledIff`.
- DoorSystem.Next: each critical section is one step, and so is a dispatch; the pin read before an edge callback's critical section may be out of date.
- Enrollment.CaptureIsPrompt: assumes that no queue wait outlasts its one-second timeout; no other result about runs does.
- Audit.LogExplainsEverything: assumes that every insertion works and speaks of all records since the start, pruned or not and committed or not.
- DoorService.DoorService.RunEventLoop: the prune when the store is opened, and the service's own start and stop records.
- EventStore.PruneIsExact: the cutoff is given as a valid time; a retention reaching before year 1 raises in the program.
- ConfigFile.CrashKeepsOldOrNew: a rename that returned is taken to survive a crash.
- LoginThrottle.WindowBoundAttained: for a limit of at least one.
- GPIO, PC/SC, PAM, sockets, SQLite and MQTT themselves, and exceptions they raise inside a dispatch.
- JSON text, number formatting, a duration too large for a float (refused with another message), log messages and the parts of the configuration that never change at run time.
- SQL LIKE: `recent` and `count` share one arbitrary row predicate.
- Flask routes, sessions, templates and browser code; the journal viewer; the update scripts and unit files, except the thread count.
- MQTT connection state and discovery: publishing appends to a trace.
- The order in which `list_tags` sorts names, and reader feedback by LED and buzzer.
