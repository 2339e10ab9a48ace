# Verified model of the ROCK 3A monitoring terminal

A Dafny model of the two halves of the monitoring terminal — the `sensor_hub` kernel driver and the
user-space daemon — with machine-checked properties of the parts that keep state over a run. Check it with
`dafny verify dfyconfig.toml`.

| module | what it models |
|---|---|
| `MjpegCache` | the shared one-frame MJPEG cache and the client's wait-and-copy loop, updated in place |
| `MonitorProtocol`, `MonitorSafety`, `MonitorTheorems`, `MonitorProgress` | main loop, camera worker and any number of stream clients as one transition system: its steps, its inductive invariant, its theorems over all interleavings, and what its threads can always achieve |
| `EventQueue` | the 64-slot drop-oldest ring as an array class, refining a sequence |
| `EventHistory` | the fate of every event ever pushed, over any run of pushes, pops by any readers, and clears |
| `EventReader` | `read()` on the hub, with other threads acting before every pop, and the client's wrapper |
| `PirDebounce` | the PIR interrupt handler and its rate bound, composed with the ring |
| `SensorRegistry` | the endpoint table, snapshots, and the client's lookup |
| `PwmTiming`, `Buzzer` | the PWM arithmetic; the one-shot buzzer with a PWM that may fail at every call |
| `Sampler` | the self-rearming SHT20 work against reconfiguration and removal |
| `FrameLayout`, `FrameConvert`, `FrameRoundTrip` | NV12 to I420: plane layout under 32-bit wrap-around, the loops, the inverse |
| `CameraMapping`, `CameraQueue` | mapping and unmapping the capture buffers; who owns which buffer |

Code that updates objects or arrays in place is a class or an array method whose `ensures` equate the new
state with a specification function; the lemmas are about those functions, and for each of them some lemma
says in terms of the caller's data alone what it computes. Threads that interleave are
transition systems whose `Step` is total: an event a thread cannot take leaves the state as it is, so a run
is any sequence of events and "for every run" means every interleaving. The calls the code makes (mmap,
ioctl, realloc, `pthread_create`, PWM, GPIO, `copy_to_user`) are parameters that say how each call turns out;
no lemma assumes they succeed unless its `requires` says so.

Results where the code does less than one might expect, each as an if-and-only-if or with its witness:

- `CameraMapping.CameraContext.ReopenOrRelease`: the retries of a mode switch leave descriptors or mappings
  behind exactly when an attempt before the last fails inside `camera_init`, whose memset forgets them on
  the next attempt.
- `Buzzer.OneShotKeptIff`: a PWM failure while the buzzer sounds loses the pending stop, because the stop
  work is cancelled first.
- `Buzzer.FailedDisableSticks`, `Buzzer.StuckToneGoesOnIff`, `Buzzer.FailedEnableLetsActionsThrough`: after a
  disable that fails at the PWM the tone goes on, whatever actions are tried, exactly until the buzzer is
  enabled again, even by a reconfiguration that fails at the PWM too, or a reconfiguration or removal
  reaches the PWM.
- `Buzzer.ValueUpToDateIff`: a reconfiguration that fails to silence the buzzer leaves a stale published value
  exactly if it changes a setting.
- `FrameLayout.CoversExactlyIff`, `FrameLayout.PlanesDisjointIff`: odd sizes above one pixel leave unwritten
  bytes; the planes overlap exactly when `width * height` wraps.
- `PwmTiming.DutyMonotoneIff`: the half-period fallback breaks the order of duty settings exactly for
  frequencies of 2,002,003 to 285,714,285 Hz.
- `SensorRegistry.SlotsAreNeverReused`: removed endpoints keep their slot, so registrations after the
  sixteenth fail whatever was removed.
- `CameraQueue.EachRefusalCostsABuffer`: in trigger mode each refused requeue costs one buffer for good.
- `PirDebounce.LossFreeIffBoundFits`: the bound of `L / D + 1` accepted edges is sharp, so a window starting
  with an empty queue is free of loss exactly when it is at most 64.

Where documentation and code differ the code is followed: the architecture notes say a stream client waits
for the sequence number to change (docs/02-architecture-deep-dive.md:482); the code also requires a valid
frame, since a clear moves the sequence number too. The same notes name the value update
`sh_update_sensor_value`; the code has `sh_update_endpoint_value`.

## Model

| member | source | states |
|---|---|---|
| `MonitorTheorems.NoWorkerNoFrame` | user/daemon/main.c:598-606 | in every interleaving, whenever `running` is 0 the cache is invalid; at a loop head in TRIGGER mode both hold |
| `MonitorTheorems.DeliveryNeedsWorker` | user/daemon/http_server.c:338-371 | a client is handed a frame only while a live worker that has not cleared yet stands behind a streaming MONITOR camera, never at a quiet point of main such as a TRIGGER loop head; the frame is the newest thing stored and the only one added |
| `MonitorTheorems.ClientsReceivePublishedFramesInOrder` | user/daemon/http_server.c:384-431 | over a whole run every frame a client holds is byte for byte the argument of the single publish that made its sequence number; its sequence numbers strictly increase |
| `MonitorTheorems.CameraIsExclusive` | user/daemon/main.c:565-637 | across switches, self-exits, rollbacks and shutdown: never two workers on the camera, never a worker while main opens, starts, captures or deinitialises; under a worker it is the streaming MONITOR camera |
| `MonitorTheorems.LoopHeadHasActiveCamera` | user/daemon/main.c:723-788 | at every loop head the camera streams with the active mode's parameters |
| `MonitorTheorems.LoopHeadHasItsWorker` | user/daemon/main.c:710-719 | at every loop head in MONITOR mode, after start-up, switch or rollback, a worker has been created for it and is the one main would join |
| `MonitorTheorems.CameraIsReleasedBeforeOpening` | user/daemon/main.c:739-768 | the camera is never opened while the context holds an open one |
| `MonitorTheorems.LockedCacheIsStill` | user/daemon/http_server.c:340-374 | while a client holds the cache lock no step of any thread changes the cache |
| `MonitorTheorems.AttemptStarts` | user/daemon/main.c:724-737 | an attempt starts exactly when the mode read differs from the active one, with no opens made and that mode as its target |
| `MonitorTheorems.SwitchIsTransaction` | user/daemon/main.c:726-788 | followed through any run, an attempt is either still open or ended in one of three ways: switched; rolled back with the camera reopened and the application mode written back; leaving the loop with the active mode unchanged. At most six opens either way; back at the loop head it has created exactly one worker thread if the mode there is MONITOR, and none otherwise |
| `MonitorTheorems.MainMoveUsesUpAttempt` | user/daemon/main.c:412-429 | every move main can make inside an attempt ends it or strictly lowers a bound on the moves left, retries included |
| `MonitorTheorems.StoppedWorkerDrains` | user/daemon/main.c:565-606 | while main waits in the join, each step of the worker brings it closer to its end whatever its calls return; only a client that can release the cache lock at once may hold it up |
| `MonitorTheorems.SwitchNeverStuck` | user/daemon/main.c:628-637 | from every state inside a switch, and however each of main's calls turns out, some bounded continuation ends the attempt: no deadlock on the join or the cache lock |
| `MonitorProgress.StartUpSucceeds` | user/daemon/main.c:702-719 | when its calls succeed, start-up ends at the loop head with the start mode's camera streaming, and with a running worker exactly in MONITOR mode |
| `MonitorProgress.SwitchOrRollbackSucceeds` | user/daemon/main.c:726-788 | from every reachable state in which main reads another mode: if its calls succeed the new mode is active, its camera streaming, a newly created worker running exactly if it is MONITOR; if only the new camera cannot be opened, the same holds of the old mode, which is written back |
| `MonitorProgress.ThreeAttempts` | user/daemon/main.c:412-429 | a switch and a rollback make three attempts each, wherever each fails, before giving up; start-up makes one |
| `MonitorProgress.ModeIsSetUp` | user/daemon/main.c:751-775 | MONITOR is set up by a clear of the cache and one new worker, TRIGGER by the streaming camera alone |
| `MonitorProgress.MonitorIsTornDown` | user/daemon/main.c:733-741 | once the worker is gone it is joined and forgotten, the cache cleared and the camera released before the next open |
| `MonitorProgress.FrameReachesClient` | user/daemon/main.c:565-596 | a frame that a serving worker dequeues, encodes and can store reaches a waiting client that can hold it, byte for byte, under the next sequence number |
| `MonitorProgress.WorkerPublishes` | user/daemon/main.c:587-589 | a publishing worker leaves the frame valid in the cache and logged, and goes on to give its buffer back |
| `MonitorProgress.WorkerComesUp` | user/daemon/main.c:537-560 | a worker whose start-up calls succeed comes to the head of its loop, any other stops |
| `MonitorProgress.WorkerSkips` | user/daemon/main.c:581-592 | a frame that cannot be encoded is skipped: nothing is stored and its buffer goes back |
| `MonitorProgress.WorkerLoopsOrLeaves` | user/daemon/main.c:565-596 | a worker loops on timeouts and accepted requeues, and leaves through its clear on a failed dequeue, a refused requeue or a stop |
| `MonitorProgress.ClientClosesOrConnects` | user/daemon/http_server.c:342-357 | a waiting client closes on a changed mode, a stopping server or a failed send; a new one starts with no frame |
| `MonitorProgress.ShutdownEndsCleanly` | user/daemon/main.c:858-867 | after a signal, however main's calls turn out, some bounded continuation ends with no worker, an invalid cache, the camera released and the server stopped |
| `MonitorProgress.RequestsAreSeen` | user/daemon/main.c:723-726 | a signal is seen at the next loop head, a mode request at the next read of the mode |
| `MonitorProgress.LoopGoesRound` | user/daemon/main.c:790-855 | with no switch due the loop goes round, capturing in TRIGGER mode as often as there are events |
| `MonitorSafety.StepKeepsInv` | user/daemon/main.c:528-637 | every step of every thread keeps the invariant: cache and log agree, at most one live worker and only where main allows it, camera contents point by point, opens bounded, clients sound |
| `MonitorSafety.RunKeepsInv` | user/daemon/main.c:723-868 | hence so does every run, from start-up through switches to shutdown |
| `MonitorSafety.MainKeepsQuiet` | user/daemon/main.c:733-781 | no main step reaches a quiet point with a worker alive |
| `MonitorSafety.MainKeepsWorkerCamera` | user/daemon/main.c:739-781 | no main step leaves a worker alive over a camera other than the streaming MONITOR one |
| `MonitorSafety.WorkerKeepsInv` | user/daemon/main.c:537-606 | the worker's steps, including its failed start-up and its clear-then-stop exit, keep the whole invariant |
| `MonitorSafety.DecisionIsSound` | user/daemon/http_server.c:338-371 | a client's pass through the wait loop adds at most the published frame of the current sequence number and never keeps the lock |
| `MjpegCache.MjpegCache.Publish` | user/daemon/http_server.c:606-632 | stores exactly the frame, grows the buffer when needed, and leaves the cache untouched for an empty frame or a failed realloc |
| `MjpegCache.PublishedFrameIsThere` | user/daemon/http_server.c:608-631 | by the caller's data: a nonempty frame that fits or for which the buffer can grow is afterwards valid, byte for byte, under the next sequence number; any other publish changes nothing |
| `MjpegCache.MjpegCache.Clear` | user/daemon/http_server.c:634-642 | invalidates, empties and moves the sequence number, keeping the buffer |
| `MjpegCache.ClearedCacheIsEmpty` | user/daemon/http_server.c:636-639 | nothing valid, nothing stored, one sequence number on, same capacity |
| `MjpegCache.StreamClient.WaitAndCopyNext` | user/daemon/http_server.c:333-376 | the loop over an arbitrary series of wakeups ends exactly as the specified wait loop; on success the local copy is the cached frame under its sequence number, otherwise the client is unchanged |
| `MjpegCache.ApplyOpsKeepsWellFormed` | user/daemon/http_server.c:614-629 | over any publishes and clears: length within capacity through growth and failed realloc, valid implies a nonempty frame and a sequence number of at least 1, which never decreases |
| `MjpegCache.SameSeqnoSameContents` | user/daemon/http_server.c:624-639 | one sequence number names one frame: if it did not move over a run, nothing else did |
| `MjpegCache.OnePassDecides` | user/daemon/http_server.c:342-371 | whatever happens while a client sleeps, the outcome is decided by one pass, by what that pass saw itself: a stopping server, a changed mode, a frame too large to hold, or a valid new frame that it hands over; the passes before only waited |
| `MjpegCache.SleepsExactlyWithoutNews` | user/daemon/http_server.c:342-353 | the client sleeps on if and only if no wakeup shows a mode change, a shutdown or a new valid frame |
| `MjpegCache.FreshClientNeedsNoPublish` | user/daemon/http_server.c:348-371 | a client that has received nothing takes the cached frame on its first pass |
| `MjpegCache.PublishedFrameIsHandedOver` | user/daemon/http_server.c:348-371 | a frame published while a client waits is handed to it at once and byte for byte, in MONITOR mode on a running server |
| `EventQueue.EventRing.Pop` | kernel/sensor_hub/sensor_hub_core.c:12-31 | the ring refines the sequence: the oldest event is removed, or -ENOENT exactly if there is none; head == (tail + count) % 64 is kept |
| `EventQueue.EventRing.Push` | kernel/sensor_hub/sensor_hub_core.c:33-54 | the ring refines drop-oldest: appended with the next sequence number, a full ring loses its oldest event and counts it |
| `EventQueue.EventRing.Clear` | kernel/sensor_hub/sensor_hub_core.c:278-287 | empties the queue, keeping sequence number and dropped count |
| `EventHistory.LiveIsLastPushed` | kernel/sensor_hub/sensor_hub_core.c:12-54 | after any run of pushes, pops and clears the live slots in order are exactly the last `count` events pushed, numbered event_seq - count + 1 to event_seq |
| `EventHistory.RecordKeepsConsistent` | kernel/sensor_hub/sensor_hub_core.c:12-54 | every operation keeps queue, fates, receipts and counters consistent |
| `EventHistory.EventsAreConserved` | kernel/sensor_hub/sensor_hub_core.c:24-48 | over any run with any readers, event_seq == delivered + dropped + cleared + lost to a copy fault + count |
| `EventHistory.DeliveredAtMostOnce` | kernel/sensor_hub/sensor_hub_core.c:193-214 | no event reaches two readers, or one reader twice |
| `EventHistory.FatesAreFinal` | kernel/sensor_hub/sensor_hub_core.c:193-214 | once an event is delivered, dropped, cleared or lost nothing that follows changes that; the past is never rewritten |
| `EventHistory.GapCountsMissedEvents` | kernel/sensor_hub/sensor_hub_core.c:39-48 | for every run and every reader the jump between two consecutive sequence numbers it gets is exactly the number of events in between dropped, cleared, lost to a copy fault or delivered to someone else |
| `EventHistory.SoleReaderMissesOnlyLostEvents` | kernel/sensor_hub/sensor_hub_core.c:39-48 | for a sole reader that jump counts only dropped, cleared and lost events |
| `EventReader.SensorHub.Read` | kernel/sensor_hub/sensor_hub_core.c:179-215 | whatever other threads do before each pop: whole records only, all delivered to this reader, strictly increasing, none settled before the call; it stops short only on an empty queue or a copy fault; alone, exactly the oldest events that fit, up to the first copy fault; every error code with its condition |
| `EventReader.SensorHub.ReadLoop` | kernel/sensor_hub/sensor_hub_core.c:193-214 | the pop-and-copy loop does so and terminates, non-blocking or blocking, for any series of disturbances |
| `EventReader.SensorHub.ReadEvents` | user/daemon/sensor_client.c:164-185 | the record count is exact with no remainder, 0 on EAGAIN, -1 only for an invalid length or a fault on the first record, with the byte count's wrap at 2^64; fewer than asked for only on an empty queue or a fault; alone it drains min(max_events, count) events |
| `EventReader.AloneStops` | kernel/sensor_hub/sensor_hub_core.c:193-214 | an undisturbed read stopped by a full buffer, an empty queue or a fault returns exactly the specified outcome, -EAGAIN exactly when nothing was queued |
| `EventReader.ReadTakes` | kernel/sensor_hub/sensor_hub_core.c:208-211 | one more copied event keeps a batch ordered and credited to its reader, however the history grew meanwhile |
| `PirDebounce.PirSensor.IrqThread` | kernel/sensor_hub/sensor_hub_pir.c:14-58 | an edge is accepted exactly if the endpoint is registered, enabled, past the debounce time and readable; then clock, endpoint value with the snapshot counter, and queue all change, otherwise nothing does |
| `PirDebounce.EdgeByTheFields` | kernel/sensor_hub/sensor_hub_pir.c:28-55 | field by field: exactly when enabled, readable and at least debounce_ms milliseconds after the last accepted edge, an edge is queued as TRIGGER or FALLING with its level, flags, sensor id and time |
| `PirDebounce.EdgeValueByTheFields` | kernel/sensor_hub/sensor_hub_pir.c:46-52 | the endpoint value it commits, field by field |
| `PirDebounce.RateBound` | kernel/sensor_hub/sensor_hub_pir.c:31-44 | any window of length L holds at most L / D + 1 accepted edges, whatever came before |
| `PirDebounce.AcceptedNeedTime` | kernel/sensor_hub/sensor_hub_pir.c:34-44 | n more accepted edges take n whole debounce intervals |
| `PirDebounce.FittingWindowDropsNothing` | kernel/sensor_hub/sensor_hub_core.c:39-48 | while queued plus still-to-be-accepted events fit in the ring, `dropped` does not move, whatever readers do |
| `PirDebounce.UnreadWindowDropsExcess` | kernel/sensor_hub/sensor_hub_core.c:39-48 | with no reader, every accepted edge beyond the free slots drops exactly one event |
| `PirDebounce.LossFreeIffBoundFits` | kernel/sensor_hub/sensor_hub_pir.c:31-55 | for a ready filter and an empty queue, no window of length L can lose an event if and only if L / D + 1 <= 64 |
| `SensorRegistry.SensorTable.Find` | kernel/sensor_hub/sensor_hub_core.c:57-67 | returns the slot of the specified lookup |
| `SensorRegistry.FindsFirstRegistered` | kernel/sensor_hub/sensor_hub_core.c:57-67 | that lookup is the first registered slot with the id, or none exactly if there is none |
| `SensorRegistry.SensorTable.Register` | kernel/sensor_hub/sensor_hub_core.c:70-83 | takes the next slot, or fails and changes nothing when all sixteen are used |
| `SensorRegistry.RegisterAppends` | kernel/sensor_hub/sensor_hub_core.c:70-83 | a registration goes behind the others, registered with a zeroed value; a seventeenth changes nothing |
| `SensorRegistry.SensorTable.Unregister` | kernel/sensor_hub/sensor_hub_core.c:86-95 | marks one slot unregistered and has the device's remove called exactly if it was registered; otherwise, and for NULL, changes nothing |
| `SensorRegistry.UnregisterClears` | kernel/sensor_hub/sensor_hub_core.c:86-95 | only the registered flag of that slot changes |
| `SensorRegistry.SensorTable.UpdateValue` | kernel/sensor_hub/sensor_hub_core.c:136-144 | replaces one value and counts one update |
| `SensorRegistry.UpdateStores` | kernel/sensor_hub/sensor_hub_core.c:98-112 | field by field: the committed value is in its slot under the template's identity, no other slot changes, and the update is counted once |
| `SensorRegistry.ReflagStores` | kernel/sensor_hub/sensor_hub_pir.c:91-96 | a reconfiguration's update changes flags and time and nothing else |
| `SensorRegistry.LatestUpdateShows` | kernel/sensor_hub/sensor_hub_core.c:136-144 | over any run a slot shows exactly what the latest update that reached it committed |
| `SensorRegistry.ClientFindsLatestUpdate` | user/daemon/sensor_client.c:187-203 | so a client looking up the sensor in that slot finds the latest committed value |
| `SensorRegistry.SensorTable.FillSnapshot` | kernel/sensor_hub/sensor_hub_core.c:147-167 | for every run leading to the table and everything that slips in after the unlocked read: the items are the values of the registered endpoints after exactly k updates of the run, never truncated; seq <= k, and seq == k if and only if no update slipped in |
| `SensorRegistry.ItemOfSlot` | kernel/sensor_hub/sensor_hub_core.c:159-165 | a snapshot has exactly one item per registered slot, in slot order, and it is that slot's value |
| `SensorRegistry.UpdatesInBetween` | kernel/sensor_hub/sensor_hub_core.c:136-144 | the table after a run is the one its last part leads to from its first, and its counter is ahead of the first part's by exactly the updates of the last |
| `SensorRegistry.SnapshotSeqCountsUpdates` | kernel/sensor_hub/sensor_hub_core.c:140-143 | snapshot_seq counts exactly the updates that reach an endpoint |
| `SensorRegistry.SlotsAreNeverReused` | kernel/sensor_hub/sensor_hub_core.c:75-94 | the table holds the first sixteen registrations of a run; removals free nothing, and a removed slot stays removed |
| `SensorRegistry.ClientFindValue` | user/daemon/sensor_client.c:187-203 | the client's loop returns the specified lookup in the items |
| `SensorRegistry.FindsFirstItem` | user/daemon/sensor_client.c:196-200 | that lookup is the first item with the id, or none exactly if there is none |
| `SensorRegistry.LookupsAgreeIffCommitted` | user/daemon/sensor_client.c:196-202 | after any run of registrations, removals and updates, for every nonzero id, client and driver lookups agree if and only if the endpoint found has committed a value |
| `PwmTiming.PeriodAtLeast` | kernel/sensor_hub/sensor_hub_buzzer.c:69 | the rounded period reaches n ns exactly when 10^9 + freq / 2 >= n * freq |
| `PwmTiming.DutyFitsPeriod` | kernel/sensor_hub/sensor_hub_buzzer.c:65-76 | for every nonzero 32-bit frequency and every duty input: duty_ns <= period_ns and no 64-bit overflow |
| `PwmTiming.DutyIsClosest` | kernel/sensor_hub/sensor_hub_buzzer.c:70-72 | without the fallback the pulse is within half a permille unit of the requested share |
| `PwmTiming.AudibleIff` | kernel/sensor_hub/sensor_hub_buzzer.c:69-72 | the duty cycle is nonzero exactly up to 666,666,666 Hz, and up to 2 GHz for shares of at least one half |
| `PwmTiming.FallbackNeverTakenIff` | kernel/sensor_hub/sensor_hub_buzzer.c:70-72 | no duty setting falls back if and only if the frequency is at most 2,002,002 Hz |
| `PwmTiming.PeriodMonotoneIff` | kernel/sensor_hub/sensor_hub_buzzer.c:70-72 | in terms of the period: at least 500 ns or at most 3 ns |
| `PwmTiming.DutyMonotoneIff` | kernel/sensor_hub/sensor_hub_buzzer.c:68-72 | pulse length is monotone in the duty setting if and only if the frequency is at most 2,002,002 Hz or at least 285,714,286 Hz |
| `Buzzer.BuzzerDevice.ApplyPwm` | kernel/sensor_hub/sensor_hub_buzzer.c:46-79 | fails exactly for enabling at frequency 0 or when the PWM call fails; sets period and duty cycle as specified, or leaves the PWM alone |
| `Buzzer.BuzzerDevice.CommitState` | kernel/sensor_hub/sensor_hub_buzzer.c:81-110 | publishes the value built from the current state and emits an event for a nonzero code only |
| `Buzzer.ToS32Wraps` | kernel/sensor_hub/sensor_hub_buzzer.c:93-95 | a published number is the stored one modulo 2^32, as a signed 32-bit number |
| `Buzzer.BuzzerDevice.StopNow` | kernel/sensor_hub/sensor_hub_buzzer.c:112-127 | silences and commits, or changes nothing when the PWM fails |
| `Buzzer.BuzzerDevice.ApplyCfg` | kernel/sensor_hub/sensor_hub_buzzer.c:144-183 | the configuration step, with every failure path |
| `Buzzer.ConfigurationByTheFields` | kernel/sensor_hub/sensor_hub_buzzer.c:151-182 | a reconfiguration takes the settings from its parameters, silences, cancels the stop and publishes with an ENABLE or DISABLE event |
| `Buzzer.RegisteredByTheFields` | kernel/sensor_hub/sensor_hub_buzzer.c:292-318 | registration: silent, enabled, the sanitised defaults in use and published |
| `Buzzer.BuzzerDevice.Act` | kernel/sensor_hub/sensor_hub_buzzer.c:185-242 | the stop, pulse and alert actions, with signed request values, refusals and failures |
| `Buzzer.ToneByTheFields` | kernel/sensor_hub/sensor_hub_buzzer.c:204-238 | on the fields of request and configuration: frequency, duty and duration are the request's where given, else the configured, else the default; the stop is due one such duration from now, the PWM gets that tone's period and pulse, and the settings are published with the action's own event |
| `Buzzer.StopSilences` | kernel/sensor_hub/sensor_hub_buzzer.c:129-142 | a stop, by action or by the delayed work, silences at once, keeps the settings and emits OUTPUT_OFF |
| `Buzzer.RefusalsByTheFields` | kernel/sensor_hub/sensor_hub_buzzer.c:197-242 | every refusal and failure, and a removal, with what they leave |
| `Buzzer.BuzzerDevice.StopWork` | kernel/sensor_hub/sensor_hub_buzzer.c:136-142 | the delayed stop |
| `Buzzer.BuzzerDevice.RemoveDevice` | kernel/sensor_hub/sensor_hub_buzzer.c:244-254 | removal cancels the pending stop and silences the buzzer if the PWM lets it |
| `Buzzer.ViewsAlwaysAgree` | kernel/sensor_hub/sensor_hub_buzzer.c:81-142 | after any run, with PWM calls failing at will, hardware-enabled, `active`, the ACTIVE flag and values[0] agree |
| `Buzzer.OneShotKeptIff` | kernel/sensor_hub/sensor_hub_buzzer.c:160-179 | an operation keeps "sounding exactly while a stop is pending, never while disabled" if and only if it does not fail at the PWM of a sounding buzzer |
| `Buzzer.WorkingPwmIsOneShot` | kernel/sensor_hub/sensor_hub_buzzer.c:197-238 | with a PWM that works, that property holds after every run |
| `Buzzer.DeadlineIsFromLatestTrigger` | kernel/sensor_hub/sensor_hub_buzzer.c:221-237 | a pending stop is due one duration after some trigger of the run and has stood unchanged, with the buzzer sounding, ever since: a retrigger replaces it and nothing else sets it |
| `Buzzer.ValueUpToDateIff` | kernel/sensor_hub/sensor_hub_buzzer.c:151-182 | the published value matches the state after an operation if and only if that is not a reconfiguration of a sounding buzzer whose PWM call fails and whose enable flag or sanitised parameters differ from those in use |
| `Buzzer.StoredNumbersFit` | kernel/sensor_hub/sensor_hub_buzzer.c:16-18 | after any run the three stored numbers fit their 32-bit fields, as the lemma above needs |
| `Buzzer.FailedDisableSticks` | kernel/sensor_hub/sensor_hub_buzzer.c:160-167 | from registration, a tone and a disable that fails at the PWM lead to a buzzer that sounds, is disabled and has no stop pending |
| `Buzzer.StuckToneGoesOnIff` | kernel/sensor_hub/sensor_hub_buzzer.c:160-198 | from such a state and over a run of any length, the state lasts throughout, and with it the same tone, if and only if the run holds no enabling reconfiguration and no reconfiguration or removal that reaches the PWM; actions and expiries of any number and outcome do not end it |
| `Buzzer.FailedEnableLetsActionsThrough` | kernel/sensor_hub/sensor_hub_buzzer.c:151-178 | an enabling reconfiguration lets actions through again even though its PWM call fails: a stop then silences the buzzer, a new tone has its own stop |
| `Buzzer.WorkingPwmRecovers` | kernel/sensor_hub/sensor_hub_buzzer.c:160-181 | from any state, an operation that reaches a working PWM restores the one-shot property |
| `Sampler.StepKeepsInv` | kernel/sensor_hub/sensor_hub_sht20.c:85-118 | every step of work, timer and caller keeps the arming invariant |
| `Sampler.SamplerIsArmedExactlyWhenEnabled` | kernel/sensor_hub/sensor_hub_sht20.c:101-144 | in every interleaving, outside a reconfiguration the sampler is pending or running if and only if enabled, and what is pending is due at once or after the current period, never a stale one; the period is never 0; after removal nothing is armed |
| `Sampler.RemovedStaysRemoved` | kernel/sensor_hub/sensor_hub_sht20.c:133-144 | after a removal no event changes anything |
| `Sampler.CancelReturns` | kernel/sensor_hub/sensor_hub_sht20.c:116 | cancelling always comes back: the work it waits for moves towards idle and cannot be queued again |
| `Sampler.NextSampleComes` | kernel/sensor_hub/sensor_hub_sht20.c:91-98 | an enabled sampler left alone takes its next sample within six of its own moves, from any reachable state |
| `Sampler.RearmWaitsForThePeriod` | kernel/sensor_hub/sensor_hub_sht20.c:96-98 | a sample is followed by a rearm after the period in force, never at once |
| `Sampler.ReconfigurationTakesEffect` | kernel/sensor_hub/sensor_hub_sht20.c:109-118 | under every interleaving a reconfiguration ends with exactly the settings it asked for in force, zero meaning one second, and with a sample due at once or never |
| `FrameLayout.PlanesInBounds` | user/daemon/main.c:435-437 | for every 32-bit size, wrapped or not, all three planes lie inside the width * height * 3 / 2 buffer |
| `FrameLayout.PlanesDisjointIff` | user/daemon/main.c:435-437 | for every 32-bit size the planes are disjoint if and only if width * height does not wrap |
| `FrameLayout.CoversExactlyIff` | user/daemon/main.c:435-481 | for every 32-bit size every byte is covered exactly once if and only if the product does not wrap and both sizes are even or the frame has at most one pixel |
| `FrameConvert.CopyLuma` | user/daemon/main.c:466-470 | all luma rows in place, nothing outside the luma plane touched |
| `FrameConvert.CopyChroma` | user/daemon/main.c:472-481 | all chroma rows in place, U from the first and V from the second byte of each pair, nothing outside the two planes touched |
| `FrameConvert.Nv12ToI420` | user/daemon/main.c:431-484 | fails and writes nothing for other formats; otherwise, for one- and two-plane input and any stride, byte for byte: every luma byte is that of plane 0 at its stride, every chroma pair comes from plane 1 or from behind the luma rows of plane 0, and every other byte is unchanged |
| `FrameConvert.ReadableIff` | user/daemon/main.c:456-473 | what the conversion needs of the planes, row by row and by their lengths |
| `FrameRoundTrip.RoundTrip` | user/daemon/main.c:466-481 | re-interleaving the converted buffer gives back exactly the visible picture |
| `FrameRoundTrip.ConversionIsDeinterleaving` | user/daemon/main.c:466-481 | for even sizes the buffer is luma, then the even chroma bytes, then the odd ones, and nothing of its old contents |
| `FrameRoundTrip.EncoderSeesLuma` | user/daemon/main.c:501-507 | through the encoder's plane pointer and stride every luma sample is the byte of plane 0 at its stride |
| `FrameRoundTrip.EncoderSeesChroma` | user/daemon/main.c:501-507 | every U and V sample is the byte of its pair in plane 1, or behind the luma rows of plane 0 |
| `CameraMapping.CameraContext.ReqbufsAndMmap` | user/daemon/camera_v4l2.c:185-252 | succeeds if and only if no call fails and at least two buffers come; at whatever call it fails, the address space is the old one plus exactly the regions recorded in the context, no two alike; on success every plane the driver reported is mapped with the reported length |
| `CameraMapping.MapBuffer` | user/daemon/camera_v4l2.c:231-247 | the inner mapping loop keeps that after every plane, and succeeds if and only if every mmap is granted |
| `CameraMapping.UnmapBuffer` | user/daemon/camera_v4l2.c:562-568 | the inner unmapping loop unmaps the buffer's mapped planes in order, skipping NULL and MAP_FAILED |
| `CameraMapping.CameraContext.UnmapBuffers` | user/daemon/camera_v4l2.c:560-569 | the munmap calls are exactly the recorded regions, once each with the mapped length |
| `CameraMapping.CameraContext.Deinit` | user/daemon/camera_v4l2.c:530-579 | the address space is the one from before the mapping, the descriptor is closed; on a released context nothing changes |
| `CameraMapping.CameraContext.Init` | user/daemon/camera_v4l2.c:344-389 | forgets the old context; succeeds if and only if every call does; whatever fails, what it opened and mapped is what the context records |
| `CameraMapping.CameraContext.OpenForMode` | user/daemon/main.c:376-410 | succeeds if and only if every call does, and then streams; a failed start is released, a failed init keeps its descriptor |
| `CameraMapping.OutcomeByTheCalls` | user/daemon/main.c:392-409 | what an attempt comes to, by the calls it makes: opened exactly if open, checks, all buffer calls and the start succeed |
| `CameraMapping.CameraContext.Reopen` | user/daemon/main.c:412-429 | makes attempts up to the first that opens the camera, at most three; afterwards descriptors and mappings are those of before, those an earlier attempt forgot, and the context's own |
| `CameraMapping.CameraContext.ReopenOrRelease` | user/daemon/main.c:746-782 | succeeds if and only if one of three attempts would; after it, and after the caller's deinit if it failed, descriptors and mappings are those of before plus the context's own if and only if no attempt that another follows failed inside camera_init |
| `CameraMapping.MapOneMore` | user/daemon/camera_v4l2.c:234-247 | one more region on top keeps all regions distinct and the address space their sum |
| `CameraMapping.UnmapFirst` | user/daemon/camera_v4l2.c:565-566 | unmapping the first region leaves exactly the others |
| `CameraMapping.OnePlaneMore` | user/daemon/camera_v4l2.c:233-246 | recording one plane of one buffer changes what the context owns by exactly that plane's region |
| `CameraQueue.CaptureBuffers.Queue` | user/daemon/camera_v4l2.c:459-483 | hands a buffer to the driver exactly if the application holds it and the driver takes it; otherwise changes no owner |
| `CameraQueue.CaptureBuffers.QueueAll` | user/daemon/camera_v4l2.c:254-278 | the driver gets buffers in order up to the first refusal; success exactly if it got all |
| `CameraQueue.CaptureBuffers.Start` | user/daemon/camera_v4l2.c:391-411 | streaming exactly if every buffer was queued and STREAMON succeeded; then the application holds none |
| `CameraQueue.CaptureBuffers.Dequeue` | user/daemon/camera_v4l2.c:413-457 | takes one driver-owned buffer, or changes no owner |
| `CameraQueue.CaptureBuffers.CaptureOne` | user/daemon/camera_v4l2.c:485-528 | result, buffers dequeued in order and buffers left with the driver are those of the specified capture, failure paths included; every buffer keeps exactly one owner |
| `CameraQueue.CaptureAsAWhole` | user/daemon/camera_v4l2.c:495-527 | the step-by-step capture equals its closed form: it takes the buffers offered up to skip_frames + 1 of them, a failure, or the first refused return, and all are back except the one refused |
| `CameraQueue.CaptureSucceedsIff` | user/daemon/camera_v4l2.c:495-527 | a capture succeeds if and only if skip_frames + 1 buffers come before any failure, all are taken back and the last can be saved; then the last is the one saved, exactly skip_frames + 1 were dequeued and none is held |
| `CameraQueue.UndisturbedCaptureSaves` | user/daemon/camera_v4l2.c:495-527 | when nothing goes wrong the frame after the skipped ones is saved and no buffer is lost |
| `CameraQueue.OfferedByTheAnswers` | user/daemon/camera_v4l2.c:424-456 | which buffers are offered, answer by answer |
| `CameraQueue.EachRefusalCostsABuffer` | user/daemon/camera_v4l2.c:511-524 | over any series of captures the driver loses exactly one buffer per refused requeue, and none otherwise |
| `CameraQueue.NoBufferNoCapture` | user/daemon/camera_v4l2.c:495-505 | with no buffer left at the driver no capture succeeds |
| `CameraQueue.CaptureBuffers.WorkerLoop` | user/daemon/main.c:565-596 | the worker's loop does exactly what its specification says with the buffers, and every buffer keeps one owner |
| `CameraQueue.WorkerHoldsOneIffRefused` | user/daemon/main.c:565-596 | the worker looks at every buffer offered up to the first refused requeue, and leaves with exactly one buffer not given back if and only if the last requeue was refused |

## Left out

- MonitorProtocol: the threads are values of a transition system, not objects updated in place, so aliasing inside `g_monitor` and the camera context is not modelled; the cache they share is (`MjpegCache`).
- Weak memory: each access to `running`, `stop`, `g_running`, `g_http_running` and the mode is one atomic step.
- Real-time fairness: progress results say that a bounded continuation exists (`MonitorTheorems.SwitchNeverStuck`) or that own moves suffice (`Sampler.NextSampleComes`), not that the scheduler takes it.
- The mode a client sees: the check and the copy are one critical section of the cache, but the mode has its own lock, so a frame may be handed over just after the mode changed. The application mode and the main loop's active mode are kept apart for that reason.
- A client waiting after a mode change: a mode write does not signal the condition variable, so a request toggled back before main reads it, or a rollback, can leave a client asleep; no claim that every client closes is made.
- A worker that leaves by itself stays unjoined, and MONITOR mode then runs without one; the model has both, and claims neither absent.
- MjpegCache.StreamClient.WaitAndCopyNext: the wakeups form a finite series; one that is used up means "still asleep". Freeing and reusing buffers through realloc is a new array.
- Sends, sockets, routing, JSON, file serving, logs, ffmpeg and the JPEG encoder: a frame is an arbitrary byte string, a failed send is a client that leaves.
- Counters (event_seq, snapshot_seq, dropped, the cache's seq) are unbounded; wrap-around at 2^32 or 2^64 is not modelled. Byte counts, plane offsets and the casts of the buzzer's parameters do wrap.
- EventReader.SensorHub.Read: what other threads do is a finite list per read; a blocking read that outlives the list on an empty queue counts as interrupted. `copy_to_user` either copies the whole record or faults.
- PirDebounce: the refresh ioctl and changes of the debounce time inside a window are not modelled; the PIR is the only producer in a window, and its endpoint stays registered there.
- SensorRegistry: registering and removing take no lock in the driver and are one atomic step each here; what the device's own `remove` does and the endpoint's name and operations are left out; the value update of `apply_cfg` is taken with the value it read, so its lost updates are not studied.
- SensorRegistry.SensorTable.FillSnapshot: the dropped count and the timestamp are whatever was read.
- Buzzer: ioctls and the delayed work are serialised; the PWM is off at registration; a deadline is exact to the millisecond, without conversion to jiffies; a buzzer without a PWM is never registered and is left out.
- Sampler: callers of `apply_cfg` are serialised; the I2C transfer and the conversion of the raw readings are one sampling step that may do anything to the value; a work item does not start while the previous one runs.
- FrameConvert.Nv12ToI420: where the 32-bit offsets wrap only the bounds are stated, since the planes then overlap; the source planes are taken to be as long as the rows the loops read, as the code relies on the driver for this; null arguments are left out.
- FrameLayout: the allocation size is the exact product; on a machine whose size_t is 32 bits wide it could wrap.
- CameraMapping: the kernel chooses any free address and descriptor; a mapping is keyed by its start address and partial overlap is left to the kernel; capability, format and frame-rate calls are one outcome; the REQBUFS count is whatever the driver answers; a driver that reports more than eight planes counts as a failed QUERYBUF.
- CameraMapping.CameraContext.ReopenOrRelease: the retries' sleeps, and which mode's parameters are requested (`MonitorTheorems.LoopHeadHasActiveCamera` has the mode), are left out.
- CameraQueue.CaptureBuffers.Dequeue: the driver returns only buffers it owns; a select that times out, is interrupted, or is followed by EAGAIN is one outcome.
- CameraQueue.CaptureBuffers.CaptureOne: answers that run out in the endless loop are `StillWaiting`.
- The REST API, the trigger-mode capture pipeline beyond `camera_capture_one`, probe, device-tree and overlay code: plumbing without deep state.
