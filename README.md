# SmartFlag firmware core, modelled in Dafny

This project models the control core of the SmartFlag halyard controller, a
Particle-based device that raises a flag to full staff or lowers it to half
staff on a schedule of published flag events. It has six parts.

- **The flag-event scheduler** (`EventManager`):
  - a fixed table of 20 event slots, plus a configuration and a persisted EEPROM block;
  - receiving, replacing, deleting, purging and re-reading events;
  - parsing time marks and applying the daylight-saving rule;
  - resolving the table into the ordered station (FULL or HALF), the instant of the next change and the station after it;
  - merging overlapping half-staff windows;
  - setting the wake-up timer.
- **The halyard motor** (`HalyardManager`): run and stop, a linear ramp of the duty cycle, a time-based stop, stall detection and the target-then-arrival position hand-off.
- **The enum-indexed state machine** (`SmartFlagFSM`): a table of states indexed by id, with one transition per update. Each state behaviour has a latch that its `onEnter` resets and its `onUpdate` sets. The startup, idle, lid-open and fix-me states are registered.
- **The name-keyed state machine** (`FSMController`), with two tables of states:
  - the states it is built from: drive to the sensor, or stop as the error state;
  - the lowering and test sequences.
- **The lid edge detector** (`SensorManager`).
- **The tone sequencer** (`BuzzerManager`).

How the model is organised:
- Code that changes state in place is modelled as classes whose methods carry `modifies` frames.
- Each such method is specified by a pure function on a snapshot of the state, e.g.:
  - `Looped` for the name-keyed controller's loop;
  - `Stepped` for the buzzer's update;
  - `Purged`, `Stored`, `Reprocessed` and `Classified` for the event table.
- The properties the firmware relies on are proved about those functions.

Clocks and inputs:
- The clocks are parameters of the operations that read them:
  - `now` in seconds (UTC) for the scheduler;
  - a wrapping 32-bit millisecond count for the motor, the controllers and the buzzer.
- Pin readings and the sensed motor current are parameters too.
- Pin writes are output fields.
- Sunrise and sunset are an uninterpreted `SunModel` handed to the scheduler.

The model follows the code as written, also where its behaviour is surprising:
- An update with the same version as the stored event replaces it; only a lower version is ignored (`Stored`).
- The placeholder mark `"TBD"` fails to parse (result 0), just like a malformed mark. So an event with a TBD end is cleared when it is re-read (`PlaceholderFails`, `ReprocessSlot`).
- `"2025-07-04 13:30L"` with zone -5 under daylight time is 17:30 UTC, not 18:30. The code takes `(TZ + 1) * 3600` off the local clock (`LocalMarkExample`).
- `runMotor` with duration 0 arms a stop time of `now + 0`. From any instant after 0, the next `update` stops the motor (`ZeroDurationIsDueAtOnce`). So a duration of 0 does not mean "no timeout".
- There is no minimum ramp time: a ramp time of 0 starts at duty 0 with no ramp, and the duty then stays at 0.
- The state ids `IDLE_FULL`, `PENDING_FROM_FULL`, `PENDING_FROM_HALF` and `FIX_ME`, used by the state definitions, are missing from the enum. The model adds them after `FAULT_RECOVERY` and before `MAX`.
- The sequence callbacks read `fsm.getStateStartTime()` without capturing `fsm`. They are modelled as intended: the time elapsed since the state was entered.

## Model

| member | source | states |
|---|---|---|
| Millis.Add32 | firmware/src/HalyardManager.cpp:49 | unsigned 32-bit addition wraps modulo 2^32 |
| Millis.Elapsed | firmware/src/HalyardManager.cpp:69 | `now - since` on unsigned 32-bit values is the distance forward from `since`, across a wrap |
| Millis.ToU32 | firmware/src/EventManager.cpp:178 | an integer stored into a `uint32_t` keeps its value when it fits and is otherwise reduced modulo 2^32 |
| Millis.ElapsedAfterAdd | firmware/src/fsm/FSMStates.cpp:22 | the time elapsed from `t` to `t + d` (wrapped) is `d` |
| EventRecords.Code | firmware/src/EventManager.h:53 | the error codes are 0..7 in enum order, SUCCESS alone being 0 |
| EventRecords.StaToLetter | firmware/src/EventManager.cpp:183-189 | FULL shows as "F", HALF as "H", anything else as "?", one letter each, both directions |
| EventRecords.JurMatch | firmware/src/EventManager.cpp:44-50 | true iff the subscribed jurisdiction is, ignoring case, a prefix of the published one; an empty subscription matches everything, a longer one nothing |
| EventRecords.EventApplies | firmware/src/EventManager.cpp:52-61 | an event applies iff its jurisdiction matches the federal or the state one and its flag is "US" or the unit's top flag |
| EventRecords.Admitted | firmware/src/EventManager.cpp:361-362 | a stored event is the submitted one with only `applies` recomputed |
| EventRecords.Truncated | firmware/src/EventManager.cpp:788-795 | a string copied into a `char[size]` field keeps at most size-1 leading characters, and is unchanged when it fits |
| EventRecords.ToRecord | firmware/src/EventManager.cpp:782-799 | a valid slot is persisted with its id, version and instants and its strings truncated to their fields; an invalid slot as the blank record |
| EventRecords.FromRecord | firmware/src/EventManager.cpp:716-731 | a record with a positive id loads as a valid event with that id and version; any other as the default event |
| EventRecords.Block | firmware/src/EventManager.cpp:751-800 | the written block carries the right tag and version, the write count, one record per slot, the numeric settings as they are and each setting string cut to its field; settings whose strings fit load back unchanged |
| EventRecords.FieldCopy | firmware/src/EventManager.cpp:762-776 | a setting string copied into a `char[size]` field keeps its first `size` characters, all of it when it fits |
| EventRecords.LoadedConfig | firmware/src/EventManager.cpp:704-714 | `getEE` restores every setting from the block field of the same name |
| EventRecords.Saved | firmware/src/EventManager.cpp:737-803 | `putEE` writes a loadable block, one record per slot, and its count is the previous count plus one, restarting from 0 over a foreign block |
| EventRecords.LoadedTable | firmware/src/EventManager.cpp:716-731 | `getEE` rebuilds the table slot by slot from the records |
| EventRecords.SaveLoadSlot | firmware/src/EventManager.cpp:782-798 | one slot saved and loaded back keeps id, version and instants and gets its strings back truncated to 9, 2, 24 and 24 characters; an invalid slot comes back as the default event |
| EventRecords.SaveLoadRoundTrip | firmware/src/EventManager.cpp:716-731 | saving then loading a table of well-formed slots whose strings fit gives back the same table and configuration |
| TimeMarks.ScanDate | firmware/src/EventManager.cpp:603-604 | the date scan succeeds exactly on "DDDD-DD-DD" at the head of the mark, giving fields in range |
| TimeMarks.ScanClock | firmware/src/EventManager.cpp:622-623 | the clock scan succeeds exactly on "DD:DD" at offset 11 |
| TimeMarks.EpochIsZero | firmware/src/EventManager.cpp:586-588 | `timegm` of 1970-01-01 00:00 is 0 |
| TimeMarks.MonthLength | firmware/src/EventManager.cpp:586-588 | consecutive months of the calendar `timegm` uses are as long as the month table says, leap years included |
| TimeMarks.YearLength | firmware/src/EventManager.cpp:586-588 | a March-to-March year is 366 days exactly when it ends in a leap day |
| TimeMarks.FebruaryLength | firmware/src/EventManager.cpp:586-588 | February has 29 days in a leap year and 28 otherwise |
| TimeMarks.MonthRollsIntoYear | firmware/src/EventManager.cpp:627 | month 13 is January of the next year, as `mktime` normalises it |
| TimeMarks.ClockWithinDay | firmware/src/EventManager.cpp:625-631 | an instant is its day's start plus hours and minutes, and days are 86400 s apart |
| TimeMarks.ParseTimeMark | firmware/src/EventManager.cpp:590-647 | the result for each mark shape: an unscannable date, an unknown length, an unknown suffix or a bad clock gives 0; a bare date gives sunrise for H and sunset for F; " SR"/" SS" give sunrise/sunset; a clock gives UTC with no zone or "Z" and local minus the zone offset with "L" |
| TimeMarks.LocalOffset | firmware/src/EventManager.cpp:641-643 | a local mark is shifted by the zone plus one hour under daylight time |
| TimeMarks.ClockMarkRoundTrip | firmware/src/EventManager.cpp:622-644 | a written clock mark parses back to the instant of its fields, shifted for "L" |
| TimeMarks.DateMarkRoundTrip | firmware/src/EventManager.cpp:603-620 | a written date mark, bare or with " SR"/" SS", parses back to the solar instant of that date |
| TimeMarks.PlaceholderFails | firmware/src/EventManager.cpp:603-604 | "TBD" and the empty mark parse to 0, the failure value |
| TimeMarks.LocalMarkExample | firmware/src/EventManager.cpp:639-644 | 13:30L in zone -5 under daylight time is 17:30 UTC |
| TimeMarks.IsDST | firmware/src/EventManager.cpp:649-657 | never daylight time December to February, always April to October |
| TimeMarks.MarchRule | firmware/src/EventManager.cpp:654-655 | in March, daylight time holds exactly from the second Sunday on |
| TimeMarks.NovemberRule | firmware/src/EventManager.cpp:656 | in November, daylight time holds exactly before the first Sunday |
| EventSchedule.CountWhere | firmware/src/EventManager.cpp:659-665 | the count of slots satisfying a test never exceeds the table size |
| EventSchedule.CountWhereIsCardinality | firmware/src/EventManager.cpp:659-665 | the count is the number of indices whose slot satisfies the test |
| EventSchedule.FirstIndex | firmware/src/EventManager.cpp:37-42 | `matchEVID` gives -1 iff no slot holds the id, else the first slot that holds it |
| EventSchedule.Purged | firmware/src/EventManager.cpp:225-244 | a purge empties exactly the stale slots (id > 0 and invalid, without beginning, or with an end in the past) and keeps the rest |
| EventSchedule.StaleCount | firmware/src/EventManager.cpp:236-243 | the count a purge returns is at most the table size |
| EventSchedule.PurgeIsComplete | firmware/src/EventManager.cpp:229-239 | after a purge no slot is stale, a second purge changes nothing, and ids are kept or emptied |
| EventSchedule.PurgeChangesStaleSlots | firmware/src/EventManager.cpp:229-239 | a purge changes exactly the stale slots, as many as it reports |
| EventSchedule.KeptOrClearedKeepsIdsUnique | firmware/src/EventManager.cpp:235 | keeping or emptying slots never makes two of them share an id |
| EventSchedule.Stored | firmware/src/EventManager.cpp:348-374 | a malformed event is refused with PARSE_ERROR and no change; a lower version is ignored with success; a matched id is replaced or deleted; an unmatched delete is ignored; a new event goes after a purge into the first empty slot, or fails with EVL_OVERFLOW |
| EventSchedule.StoredKeepsIdsUnique | firmware/src/EventManager.cpp:348-374 | storing never makes two slots share an id |
| EventSchedule.ReceiveKeepsIdsUnique | firmware/src/EventManager.cpp:348-379 | receiving, re-reading, purging and classifying keep ids unique |
| EventSchedule.StoredEventIsFound | firmware/src/EventManager.cpp:352-373 | after a successful store of a new or newer event, looking its id up finds it with `applies` recomputed |
| EventSchedule.MarkInstant | firmware/src/EventManager.cpp:264-265 | a mark yields an instant iff it parses to something other than 0 |
| EventSchedule.ReprocessSlot | firmware/src/EventManager.cpp:261-269 | re-reading clears an invalid slot or one whose begin (H) or end (F) mark fails, else installs the new instants and recomputes `applies` |
| EventSchedule.ReprocessedSlotHasInstants | firmware/src/EventManager.cpp:263-266 | a slot that survives re-reading has a nonzero beginning and end |
| EventSchedule.Reprocessed | firmware/src/EventManager.cpp:255-270 | re-reading works slot by slot and keeps the table size |
| EventSchedule.ReprocessKeepsIdsUnique | firmware/src/EventManager.cpp:255-270 | re-reading keeps ids unique |
| EventSchedule.ClassifySlot | firmware/src/EventManager.cpp:85-97 | an applicable slot that is neither future nor current is cleared; every other slot is kept |
| EventSchedule.Classified | firmware/src/EventManager.cpp:84-99 | the classification pass works slot by slot |
| EventSchedule.CurrentEnd | firmware/src/EventManager.cpp:92-94 | the running end is at least now and at least the end of every applicable current event, and equals one of them when it exceeds now |
| EventSchedule.EarliestBegin | firmware/src/EventManager.cpp:89-91 | the running beginning is at most 30 days ahead and at most every applicable future beginning, and equals one of them when below the horizon |
| EventSchedule.MergedEndUnique | firmware/src/EventManager.cpp:101-115 | the merged end of the half-staff window is unique |
| EventSchedule.MergedWindowSwallowsOverlaps | firmware/src/EventManager.cpp:103-115 | a future event chained onto the window by overlap ends no later than the merged end |
| EventSchedule.CountAboveDrops | firmware/src/EventManager.cpp:107-111 | each extension of the window strictly lowers the number of events ending beyond it, so the fixed-point loop ends |
| EventSchedule.NextChangeIsAhead | firmware/src/EventManager.cpp:117-124 | a scheduled change is never in the past |
| EventSchedule.ResolutionIsDetermined | firmware/src/EventManager.cpp:117-129 | the outputs are determined by table and clock: HALF exactly while an event is in force, a scheduled change lies ahead and goes to the other station |
| EventSchedule.ClassificationKeepsLiveEvents | firmware/src/EventManager.cpp:84-99 | after purge and classification every applicable slot is future or current, and no future or current slot was lost |
| EventSchedule.SunCheck | firmware/src/EventManager.cpp:153-172 | the check instant is 30 minutes before today's or else tomorrow's sunrise, or else one hour ahead, and never in the past |
| EventSchedule.WakeInstant | firmware/src/EventManager.cpp:177 | the wake instant is the check instant, brought forward to a scheduled change |
| EventSchedule.WaitMs | firmware/src/EventManager.cpp:178 | the wait is the distance to the wake instant in milliseconds, reduced to 32 bits |
| EventSchedule.FallbackWaitIsOneHour | firmware/src/EventManager.cpp:172-178 | with nothing scheduled and no usable sunrise the wait is 3600000 ms |
| EventSchedule.ActiveIdAsWritten | firmware/src/EventManager.cpp:667-685 | the as-written scan returns the id of the first slot that is valid, applicable, begun and ends after now, else -1 |
| EventSchedule.ActiveId | firmware/src/EventManager.cpp:667-668 | the corrected scan also accepts an open end, as the function's comment states |
| EventSchedule.ActiveTestsDifferOnOpenEnds | firmware/src/EventManager.cpp:678-682 | the two tests differ exactly on begun open-ended events, and the corrected one is the resolver's "current" |
| EventSchedule.OpenEndedEventMissed | firmware/src/EventManager.cpp:668-682 | a begun open-ended event holds the flag at HALF, yet the as-written scan reports -1 |
| EventManagerModel.EventManager.constructor | firmware/src/EventManager.cpp:11-14 | a new scheduler: every slot empty, not configured, nothing ordered |
| EventManagerModel.EventManager.TimerFired | firmware/src/EventManager.cpp:20-22 | the wake-up timer raises the attention flag |
| EventManagerModel.EventManager.MatchEVID | firmware/src/EventManager.cpp:37-42 | the loop returns the first slot holding the id, or -1 |
| EventManagerModel.EventManager.ClearEvent | firmware/src/EventManager.cpp:246-249 | the slot becomes the default event and no other slot changes |
| EventManagerModel.EventManager.PutEE | firmware/src/EventManager.cpp:737-803 | the block becomes the saved image of configuration and table, and the counter follows it; the records are built slot by slot |
| EventManagerModel.EventManager.GetEE | firmware/src/EventManager.cpp:687-735 | a foreign block gives 1 and no change; otherwise 0, the configuration, table and counter restored from the block |
| EventManagerModel.EventManager.PurgeEvents | firmware/src/EventManager.cpp:225-244 | the table becomes `Purged`, the count returned is `StaleCount`, and the block is saved |
| EventManagerModel.EventManager.UpdEventTimer | firmware/src/EventManager.cpp:137-181 | the attention flag is cleared and the wait is set to the wake instant |
| EventManagerModel.EventManager.SetNextEvent | firmware/src/EventManager.cpp:64-135 | the purged table is classified, the outputs resolve it (`Resolves`), the timer is set, and the block holds the purged table |
| EventManagerModel.EventManager.ResolveTable | firmware/src/EventManager.cpp:84-134 | after the purge, the table is classified and the outputs and timer resolve it |
| EventManagerModel.EventManager.ClassifyEvents | firmware/src/EventManager.cpp:84-99 | the loop leaves the table `Classified`, records every applicable slot's beginning and end, and computes in-progress, waiting, the latest current end and the earliest future beginning |
| EventManagerModel.EventManager.ClassifySlotAt | firmware/src/EventManager.cpp:85-97 | one slot: it applies, is future or is current as its fields say, and is cleared exactly when classification changes it |
| EventManagerModel.EventManager.MergeWindow | firmware/src/EventManager.cpp:101-115 | the fixed-point loop ends with the merged end of the half-staff window |
| EventManagerModel.EventManager.ReprocessEvents | firmware/src/EventManager.cpp:251-277 | unconfigured, nothing changes; configured, the re-read and purged table is resolved, persisted, and the block written twice |
| EventManagerModel.EventManager.RereadAndSchedule | firmware/src/EventManager.cpp:255-276 | the configured path: the re-read table is purged, resolved and written, counting two writes |
| EventManagerModel.EventManager.RereadSlots | firmware/src/EventManager.cpp:255-270 | the loop leaves the table `Reprocessed` |
| EventManagerModel.EventManager.ReceiveEvent | firmware/src/EventManager.cpp:348-379 | the code is the one `Stored` gives; the table is the stored one, then resolved and persisted when configured, the block then written twice more after any purge's write; without the final reprocessing the outputs are unchanged and only a new event's purge writes the block; ids stay unique |
| EventManagerModel.EventManager.FinishReceive | firmware/src/EventManager.cpp:375 | the final reprocessing runs only when the table work asks for it and the scheduler is configured; otherwise table, block, counter and outputs are unchanged |
| EventManagerModel.EventManager.StoreEvent | firmware/src/EventManager.cpp:349-374 | the table, the code and whether to reprocess are exactly `Stored`; only a new event purges, and that purge saves the purged table, otherwise block and counter are unchanged; ids stay unique |
| EventManagerModel.EventManager.Configure | firmware/src/EventManager.cpp:214-217 | the scheduler is configured with the new settings, and the table is re-read, resolved and persisted; the block is written three times, twice by the reprocessing and once more at the end |
| EventManagerModel.EventManager.GetNEvents | firmware/src/EventManager.cpp:659-665 | the loop counts the valid applicable slots |
| EventManagerModel.EventManager.FirstActiveEvent | firmware/src/EventManager.cpp:667-685 | the loop returns the corrected `ActiveId` |
| Halyard.RampSpeed | firmware/src/HalyardManager.cpp:74-75 | the ramp duty never exceeds the target and starts at 0 |
| Halyard.RampSpeedMonotone | firmware/src/HalyardManager.cpp:69-76 | more elapsed ramp time never gives less duty |
| Halyard.ZeroDurationIsDueAtOnce | firmware/src/HalyardManager.cpp:81-83 | a run armed with duration 0 at a nonzero instant is due to stop at the next reading |
| Halyard.NoStopTimeOnlyFromZero | firmware/src/HalyardManager.cpp:49 | the stop time is 0, meaning no time stop, exactly when start plus duration is 0 modulo 2^32 |
| Halyard.HalyardManager.constructor | firmware/src/HalyardManager.cpp:3-21 | the static initial values: no pins, stopped, target speed 255, limit 1.8 A, no stall |
| Halyard.HalyardManager.Initialize | firmware/src/HalyardManager.cpp:23-34 | the pins are taken and driven low, with the driver disabled |
| Halyard.HalyardManager.RunMotor | firmware/src/HalyardManager.cpp:36-51 | with a missing pin, no change; otherwise the direction is set, the ramp starts from 0, the driver is enabled, the stop time is armed and the motor runs |
| Halyard.HalyardManager.Update | firmware/src/HalyardManager.cpp:53-84 | when stopped, no change; a stall latches and stops with nothing else; otherwise the ramp advances (target reached when its time is up) and the motor runs iff no stop is due; a due stop disables the driver at duty 0, else the driver is untouched and the duty follows the ramp, or stays when no ramp is active |
| Halyard.HalyardManager.StopMotor | firmware/src/HalyardManager.cpp:86-90 | the driver is disabled, duty 0, not running |
| Halyard.HalyardManager.IsRunning | firmware/src/HalyardManager.cpp:92-94 | reports the running flag |
| Halyard.HalyardManager.SetTargetPosition | firmware/src/HalyardManager.cpp:96-98 | the target becomes the given position |
| Halyard.HalyardManager.GetTargetPosition | firmware/src/HalyardManager.cpp:100-102 | reports the target |
| Halyard.HalyardManager.ConfirmArrival | firmware/src/HalyardManager.cpp:104-109 | a pending target becomes the known position and is cleared; with none, nothing changes |
| Halyard.HalyardManager.GetLastKnownPosition | firmware/src/HalyardManager.cpp:111-113 | reports the known position |
| Halyard.HalyardManager.HandleSensorTriggered | firmware/src/HalyardManager.cpp:115-121 | only while running: stop and confirm arrival; otherwise no change |
| Halyard.HalyardManager.SetStallAmpsThreshold | firmware/src/HalyardManager.cpp:123-125 | the stall limit becomes the given value |
| Halyard.HalyardManager.GetStallAmpsThreshold | firmware/src/HalyardManager.cpp:127-129 | reports the stall limit |
| Halyard.HalyardManager.StallDetected | firmware/src/HalyardManager.cpp:131-133 | reports the latched stall |
| Halyard.HalyardManager.ClearStall | firmware/src/HalyardManager.cpp:135-137 | lowers the stall flag |
| SmartFlagFSM.UpdatedLatch | firmware/src/fsm/SmartFlagFSM.cpp:11-96 | an `onUpdate` leaves its latch or sets it to one of its behaviour's successors |
| SmartFlagFSM.EnterEffects | firmware/src/fsm/SmartFlagFSM.cpp:59-83 | only lid-open invalidates the station and only fix-me plays "4444"/"____" on entry |
| SmartFlagFSM.IdleRequestsMoveOnMismatch | firmware/src/fsm/SmartFlagFSM.cpp:20-31 | idle requests PENDING_FROM_FULL iff FULL is ordered to HALF, PENDING_FROM_HALF iff HALF is ordered to FULL, and nothing otherwise |
| SmartFlagFSM.LatchStaysInSuccessors | firmware/src/fsm/SmartFlagFSM.cpp:20-89 | a latch holding NONE or a successor keeps doing so |
| SmartFlagFSM.SuccessorsAreStates | firmware/src/fsm/SmartFlagFSM.h:9-18 | every requested id is a declared state other than NONE |
| SmartFlagFSM.FSMController.constructor | firmware/src/fsm/SmartFlagFSM.h:30-31 | every slot holds the empty state, and the current state is NONE |
| SmartFlagFSM.FSMController.AddState | firmware/src/fsm/SmartFlagFSM.cpp:107-111 | a state is stored only at an id strictly between NONE and MAX |
| SmartFlagFSM.Entering | firmware/src/fsm/SmartFlagFSM.cpp:126 | a present `onEnter` resets its behaviour's latch and only that one, and only adds to the log; an absent one changes nothing |
| SmartFlagFSM.Step | firmware/src/fsm/SmartFlagFSM.cpp:118-130 | one update keeps the machine well formed; NONE and a state without callbacks change nothing; at most one transition, only to a successor of the old behaviour; inert and fix-me never move; the log only grows |
| SmartFlagFSM.IdleWaitsWhileStationsAgree | firmware/src/fsm/SmartFlagFSM.cpp:20-35 | freshly entered idle with agreeing stations stays idle, keeps its latch NONE and logs only its update |
| SmartFlagFSM.IdleLeavesOnMismatch | firmware/src/fsm/SmartFlagFSM.cpp:20-35 | idle with FULL ordered to HALF moves to PENDING_FROM_FULL in one update, logging its update and exit first |
| SmartFlagFSM.StartupGoesToIdle | firmware/src/fsm/SmartFlagFSM.cpp:39-53 | startup moves to idle on its first update, idle entered with its latch reset; the log gains update, exit and entry |
| SmartFlagFSM.LidOpenWaitsForLid | firmware/src/fsm/SmartFlagFSM.cpp:55-73 | lid-open only logs its update while the lid is open, and moves to startup, entered with its latch reset, once it is closed |
| SmartFlagFSM.FSMController.Enter | firmware/src/fsm/SmartFlagFSM.cpp:126 | the controller's state becomes `Entering` of the old one |
| SmartFlagFSM.FSMController.Begin | firmware/src/fsm/SmartFlagFSM.cpp:113-116 | the initial state becomes current and is entered |
| SmartFlagFSM.FSMController.Update | firmware/src/fsm/SmartFlagFSM.cpp:118-130 | the current id, every latch and the whole log become exactly `Step` of the old state on the registered table |
| SmartFlagFSM.FSMController.CurrentState | firmware/src/fsm/SmartFlagFSM.cpp:132-134 | reports the current id |
| SmartFlagFSM.SetupFSM | firmware/src/fsm/SmartFlagFSM.cpp:99-104 | startup, idle (under IDLE_FULL), lid-open and fix-me are registered, and every other slot is kept |
| FSMControl.RunMotorArgs | firmware/src/HalyardManager.h:17 | a `RunMotor` command calls `runMotor` with its direction, duration and speed and the default ramp time of 300 ms, which is never 0 |
| FSMControl.UpdateCommands | firmware/src/fsm/FSMStates.cpp:15-19 | an update issues the sensor hand-off iff its rule asks for it and the sensor is triggered |
| FSMControl.TimeoutMeasuresFromEntry | firmware/src/fsm/FSMStates.cpp:20-23 | a timeout of `ms` has not fired `ms` after entry and has fired `ms + 1` after, across a clock wrap |
| FSMControl.Stopped | firmware/src/fsm/FSMController.cpp:12-15 | stopping leaves the controller inactive with no current state |
| FSMControl.Transitioned | firmware/src/fsm/FSMController.cpp:41-54 | an unknown name stops the controller; a known one becomes current, timed from now, and its entry commands are issued |
| FSMControl.Started | firmware/src/fsm/FSMController.cpp:7-10 | starting leaves a coherent run that is active iff the initial name is registered |
| FSMControl.Looped | firmware/src/fsm/FSMController.cpp:25-39 | a loop keeps the run coherent, makes at most one transition (to the successor, or stops), does nothing when inactive, and changes state only when the advance rule fires |
| FSMControl.NeverAdvancingStateStays | firmware/src/fsm/FSMStates.cpp:37 | a state that never advances stays current with its entry time |
| FSMControl.ReentryRestartsTimer | firmware/src/fsm/FSMController.cpp:41-54 | entering the current state again restarts its timer |
| FSMControl.FSMController.constructor | firmware/src/fsm/FSMController.h:18-21 | no states, inactive, no current state, start time 0 |
| FSMControl.FSMController.AddState | firmware/src/fsm/FSMController.cpp:3-5 | a state replaces any state of the same name |
| FSMControl.FSMController.Start | firmware/src/fsm/FSMController.cpp:7-10 | the run becomes `Started` |
| FSMControl.FSMController.Stop | firmware/src/fsm/FSMController.cpp:12-15 | the run becomes `Stopped` |
| FSMControl.FSMController.IsRunning | firmware/src/fsm/FSMController.cpp:17-19 | reports the active flag |
| FSMControl.FSMController.GetStateStartTime | firmware/src/fsm/FSMController.cpp:21-23 | reports the entry time |
| FSMControl.FSMController.Loop | firmware/src/fsm/FSMController.cpp:25-39 | the run becomes `Looped` |
| FSMControl.FSMController.TransitionTo | firmware/src/fsm/FSMController.cpp:41-54 | the run becomes `Transitioned` |
| FSMStates.MotorToSensorStopState | firmware/src/fsm/FSMStates.cpp:9-25 | the registered state carries the given name and successor |
| FSMStates.ErrorState | firmware/src/fsm/FSMStates.cpp:29-39 | the error state carries its name and has no successor |
| FSMStates.MotorToSensorStop | firmware/src/fsm/FSMStates.cpp:3-26 | registers the drive-to-sensor state and leaves the run alone |
| FSMStates.BuildErrorState | firmware/src/fsm/FSMStates.cpp:28-39 | registers the error state and leaves the run alone |
| FSMStates.EnteringDriveSetsTargetThenRuns | firmware/src/fsm/FSMStates.cpp:11-14 | entry sets the target, then runs the motor in `dir` with duration 0 at speed 255 |
| FSMStates.DriveToSensorStep | firmware/src/fsm/FSMStates.cpp:15-23 | the state advances on the sensor or once the timeout has passed, and otherwise nothing changes; a trigger issues the hand-off first; a timeout alone issues only the successor's entry commands |
| FSMStates.ErrorStateIsTerminal | firmware/src/fsm/FSMStates.cpp:31-38 | entering the error state stops the motor, and later loops change nothing |
| HalyardSequences.BuildLoweringSequence | firmware/src/HalyardSequences.cpp:4-20 | registers START and STOP |
| HalyardSequences.BuildTestSequence | firmware/src/HalyardSequences.cpp:22-54 | registers CW, PAUSE, CCW and DONE |
| HalyardSequences.TimedStep | firmware/src/HalyardSequences.cpp:9 | a timed state stays until its timeout passes, then moves to its successor and issues only its entry commands |
| HalyardSequences.LoweringRunsThenStops | firmware/src/HalyardSequences.cpp:4-20 | lowering runs clockwise at 255, moves to STOP after more than 3000 ms, stops the motor and stays |
| HalyardSequences.TestSequenceOrder | firmware/src/HalyardSequences.cpp:22-54 | the test visits CW, PAUSE, CCW, DONE in order, issuing run CW, stop, run CCW, stop, and stays in DONE |
| HalyardSequences.TestStatesWaitForTimeout | firmware/src/HalyardSequences.cpp:22-46 | no test state is left within 500 ms of entry |
| Sensors.LidOpen | firmware/src/sensors/SensorManager.cpp:25-27 | the lid is open iff its pin reads LOW |
| Sensors.HalyardTriggered | firmware/src/sensors/SensorManager.cpp:21-23 | the halyard sensor is triggered iff its pin reads HIGH |
| Sensors.ClosedEdge | firmware/src/sensors/SensorManager.cpp:29-34 | a closing edge is reported iff the lid was open and is now closed |
| Sensors.OpenedEdge | firmware/src/sensors/SensorManager.cpp:36-41 | an opening edge is reported iff the lid was closed and is now open |
| Sensors.EdgeIffChange | firmware/src/sensors/SensorManager.cpp:29-41 | an edge is reported iff the reading changed, never both kinds at once |
| Sensors.EdgesAlternate | firmware/src/sensors/SensorManager.cpp:29-41 | along any run of readings, closings minus openings is the net change of the lid |
| Sensors.SensorManager.constructor | firmware/src/sensors/SensorManager.cpp:3-5 | no pins, and the previous lid reading is HIGH (closed) |
| Sensors.SensorManager.Initialize | firmware/src/sensors/SensorManager.cpp:7-15 | the pins are taken and the previous reading is seeded from the lid pin |
| Sensors.SensorManager.LidJustClosed | firmware/src/sensors/SensorManager.cpp:29-34 | reports a closing edge and remembers the reading, so an unchanged pin reports nothing next time |
| Sensors.SensorManager.LidJustOpened | firmware/src/sensors/SensorManager.cpp:36-41 | reports an opening edge and remembers the reading, so an unchanged pin reports nothing next time |
| Buzzer.DurationOf | firmware/src/BuzzerManager.h:42-43 | a symbol lasts 0 ms iff it is outside the table; '1' to '4' and ' ' last 60 to 480 ms |
| Buzzer.GetDuration | firmware/src/BuzzerManager.cpp:149-154 | the table search gives the symbol's duration, or 0 |
| Buzzer.DurationsAreBeats | firmware/src/BuzzerManager.h:42 | '1' to '4' last that many 120 ms beats, and ' ' half a beat |
| Buzzer.GetFrequency | firmware/src/BuzzerManager.cpp:160-179 | silent iff '.' or '_'; notes a-g and A-G lie in 440..1568 Hz; anything else is 2000 Hz |
| Buzzer.NotesFormTwoOctaves | firmware/src/BuzzerManager.cpp:162-175 | notes rise with the letter, and a capital sounds an octave above, to within 1 Hz |
| Buzzer.FreqCharAt | firmware/src/BuzzerManager.cpp:124 | past the end of the frequency pattern the step plays 2000 Hz |
| Buzzer.Finished | firmware/src/BuzzerManager.cpp:145-147 | finished iff the index has reached the pattern length, so always on an empty pattern |
| Buzzer.Begun | firmware/src/BuzzerManager.cpp:123-134 | an idle step begins as a tone iff its frequency is nonzero, else as a silence, timed from now |
| Buzzer.Stepped | firmware/src/BuzzerManager.cpp:116-143 | a finished player is unchanged; the index advances by at most 1, and only from an unfinished player, leaving it idle and silent, timed from now; the invariant is kept |
| Buzzer.StepEndsOnlyAfterDuration | firmware/src/BuzzerManager.cpp:136-142 | a begun step ends only once its duration has elapsed (wrapping); a step begun in this update ends at once iff its duration is 0 |
| Buzzer.StepCompletes | firmware/src/BuzzerManager.cpp:123-142 | an idle step is over within two updates spaced by its duration |
| Buzzer.EventPattern | firmware/src/BuzzerManager.cpp:51-106 | seven events have no pattern; every other event has non-empty duration and frequency strings of equal length |
| Buzzer.EventPatternsUseTableSymbols | firmware/src/BuzzerManager.cpp:51-106 | canned patterns use only table symbols |
| Buzzer.SilentEventLastsTwoSeconds | firmware/src/BuzzerManager.cpp:51-106 | the silent event is four silent 480 ms steps, 1920 ms in all |
| Buzzer.BuzzerManager.constructor | firmware/src/BuzzerManager.h:35-40 | a fresh player: empty pattern, index 0, idle, already finished |
| Buzzer.BuzzerManager.Begin | firmware/src/BuzzerManager.cpp:36-40 | the pin is silenced |
| Buzzer.BuzzerManager.PlayPattern | firmware/src/BuzzerManager.cpp:42-49 | sets the pattern, index 0, idle, timed from now, and leaves the pin alone |
| Buzzer.BuzzerManager.PlayEvent | firmware/src/BuzzerManager.cpp:51-106 | plays the event's pattern; an event without one leaves the player unchanged |
| Buzzer.BuzzerManager.Update | firmware/src/BuzzerManager.cpp:116-143 | the player becomes `Stepped` |
| Buzzer.BuzzerManager.IsFinished | firmware/src/BuzzerManager.cpp:145-147 | reports `Finished` |

## Left out

- JSON: the decoding in `parseEvent` and `configScheduler`, `showConfig`, `showEvent`, `showEventList`, `showEE` and `PlayTones` need a library parser or writer. `ReceiveEvent` and `Configure` take the already decoded event or configuration.
- Cloud I/O: subscriptions (`resetSubscriptions`, `eventHandler`), `begin`'s registration of cloud functions, status reports, `Log`, `Serial` and `Particle.publish` output.
- Solar arithmetic: `UTCSunEvent`, `solarEventUTC`, `getSunriseUTC`, `getSunsetUTC` and `julianDay` are floating point. They are the uninterpreted `SunModel`.
- The hardware timer: the one-shot `Timer` and its `changePeriod` become the `msUntilNext` field; the interrupt that calls `eventTimer` is the method `TimerFired`.
- `halMgr1.setOrderedStation` in `setNextEvent` is the `orderedSta` output field.
- Clock reads: each operation reads one `now`. The code calls `Time.now()` or `millis()` several times within one call, e.g. twice in `runMotor` and twice in `update`.
- Block: a setting string of `sizeof` characters or more is stored as its first `sizeof` characters, and the model stops there. `putEE` copies `sizeof` bytes with `strncpy`, so such a string has no terminator inside its field. Each terminator is written one byte past its field (EventManager.cpp:762-776). That byte is padding or the first byte of the next string field, which the next copy overwrites. When `getEE` reads a field with no terminator, it runs on into the bytes that follow, e.g. a 10-character federal jurisdiction loads with the state jurisdiction appended. The model keeps each field separate and captures neither the overrun nor that read.
- TimeMarks.ScanDate and TimeMarks.ScanClock accept only the exact digit layouts ("DDDD-DD-DD" at the head, "DD:DD" at offset 11). `sscanf` with `%4d` and `%2d` also accepts leading blanks, a sign and shorter fields, e.g. "+024-01-05" scans as year 24. Marks in those forms are refused here.
- Halyard.HalyardManager.Update: the ramp duty is the floor of `target * elapsed / duration`. The float product and its truncating cast are not modelled, and the motor current is a parameter in amperes instead of the scaled `analogRead`.
- The time-zone offset of the configuration is whole hours. The code keeps it as a float and hands it to an `int` parameter.
- `SensorManager::update` does nothing. The thin pin wrappers `Sensor.h` and `SensorManager.h` are not part of this model; the header declares a lid that is open on HIGH, which contradicts the implementation modelled here.
- `BuzzerManager::isAudible` is declared and never used, so it is not part of this model. `playEventWait` busy-waits on the cloud loop and is not part of this model either.
- The application's `main.cpp` wiring, its connection loops and its lid interlock are not part of this model.
- Concurrency between the timer interrupt and the main loop is not modelled: every operation is atomic.

## Findings

| source | as written | input that shows it | evidently intended | confidence | as-written member | corrected member |
|---|---|---|---|---|---|---|
| firmware/src/EventManager.cpp:667-685 | `firstActiveEvent` returns an event only when its end is after now, so an open-ended event (end 0) never counts | one valid applicable event with begin 100, end 0, at now 200: the resolver orders HALF, yet the scan returns -1 | the comment on line 668: the end is either TBD (open, 0) or after now | not executed | EventSchedule.ActiveIdAsWritten (shown by EventSchedule.OpenEndedEventMissed) | EventSchedule.ActiveId (used by EventManagerModel.EventManager.FirstActiveEvent) |
