# SFAS stealth game — a Dafny model of its gameplay core

This project models the gameplay core of a Unity stealth game. The player
hacks a level's devices from a console and sneaks past guards to reach the
end point. The model covers:

- **Guards** run a per-frame behaviour state machine. They patrol their
  waypoints in looping, mirrored or random order, or hold a post. They wait
  at each stop. The first time the player is seen, they latch into pursuit
  for good.
- **The player detector** first rejects on the angle to the player's centre.
  Then it casts a fan of five rays across the player's width. It tells the
  level manager when a ray hits the player.
- **The devices** are the alarm, the door and the security camera.
  - The alarm is edge-triggered. It sends the guard with the shortest walk
    to its turn-off point, and goes silent once a guard reaches it.
  - The door opens while a character stands in its box. A lock stops it
    opening but not closing.
  - The camera sweeps between two rotations following a sine of its clock.
- **The level manager and the level end point** hold two one-shot latches:
  the level failed and the level completed.
- **The screen transitioner** fades the screen to black and back in fixed
  alpha steps.
- **The hacking console** shows the beats of a branching story. The number
  keys choose the next beat.
- **The story editor window** adds, deletes and links beats.
- **The waypoint inspector** edits, selects, removes and inserts waypoints,
  and draws the patrol ring.

Each component is a module in its own file:

- `guard.dfy` (`GuardPatrol`)
- `player_detector.dfy` (`Detection`)
- `alarm.dfy` (`Alarms`)
- `door.dfy` (`Doors`)
- `security_camera.dfy` (`SecurityCameras`)
- `level.dfy` (`Level`)
- `transitioner.dfy` (`Transitions`)
- `game.dfy` (`GameConsole`)
- `story_data.dfy` (`StoryData`)
- `story_editor.dfy` (`StoryEditor`)
- `waypoint_editor.dfy` (`Waypoints`)
- `unity.dfy` (`Unity`), which holds the engine value types and the Mathf
  helpers they share.

The source's components update their fields in place, so each one is a
Dafny `class` whose methods declare what they modify.

- A component's frame rule is a pure function on a snapshot of its fields
  (`Vars()`). For example, `GuardPatrol.Tick` is one guard frame and
  `Doors.Frame` is one door frame.
- Each method's `ensures` ties the new snapshot to that function applied to
  the old one.
- The properties the game relies on are lemmas about those functions.

Engine services become inputs to the methods: the navigation agent's
readings, `Time.deltaTime`, random draws, physics overlaps and ray results,
angles and `Mathf.Sin`. An exception that Unity would log and survive is a
`faulted` result, after which the rest of that frame does not run. Examples
are an index out of range and a missing end point. C#'s truncating `%` is
written out as `Unity.CsRem`.

## Model

| member | source | states |
|---|---|---|
| GuardPatrol.ReachedDestination | Assets/Scripts/Gameplay/Guard.cs:250-260 | arrival holds exactly when the remaining distance is within the stopping distance and the agent has no path or stands still |
| GuardPatrol.LoopingAdvance | Assets/Scripts/Gameplay/Guard.cs:161-179 | after its wait, a looping guard with a non-negative index heads for waypoint (index+1) mod n at patrol speed, and the new index is a valid waypoint |
| GuardPatrol.LoopingNegativeIndexFaults | Assets/Scripts/Gameplay/Guard.cs:172-174 | an index below -1 (not a multiple of n) stays negative under C#'s `%`, so the waypoint access throws |
| GuardPatrol.RandomAdvance | Assets/Scripts/Gameplay/Guard.cs:216-233 | after its wait, a random patroller heads for the drawn waypoint at patrol speed and never throws |
| GuardPatrol.NoWaypointsNoChange | Assets/Scripts/Gameplay/Guard.cs:266-274 | with an empty waypoint list, the three waypoint patrols leave the guard unchanged |
| GuardPatrol.ArrivalStartsWait | Assets/Scripts/Gameplay/Guard.cs:317-324 | before arrival nothing changes; on arrival without a wait the guard goes Idle, remembers its behaviour and draws a wait between the two bounds |
| GuardPatrol.WaitingResumes | Assets/Scripts/Gameplay/Guard.cs:326-335 | Idle frames add the frame time; once the wait is over, the remembered behaviour resumes with `waited` set |
| GuardPatrol.GuardStanceReturns | Assets/Scripts/Gameplay/Guard.cs:339-351 | after its wait, a guard on post heads back to its post |
| GuardPatrol.MirroredAdvanceInRange | Assets/Scripts/Gameplay/Guard.cs:196-206 | for n >= 2 the mirrored counter steps by one, wraps to 0 at 2(n-1), and targets a valid index: the counter going out, its mirror coming back |
| GuardPatrol.MirroredFirstRound | Assets/Scripts/Gameplay/Guard.cs:185-211 | starting from 0, the counter after k < 2(n-1) advances is k, so one round visits 1..n-1 and then back down to 0 |
| GuardPatrol.MirroredPeriodic | Assets/Scripts/Gameplay/Guard.cs:185-211 | the mirrored patrol repeats with period 2(n-1) |
| GuardPatrol.MirroredThreeWaypoints | Assets/Scripts/Gameplay/Guard.cs:196-206 | over three waypoints, the counter and target run (1,1), (2,2), (3,1), (0,0) |
| GuardPatrol.MirroredSingleWaypointFaults | Assets/Scripts/Gameplay/Guard.cs:196-206 | with one waypoint, the advance from 0 targets index -1 and throws, skipping detection; the next advance targets waypoint 0 |
| GuardPatrol.FirstSightingLatches | Assets/Scripts/Gameplay/Guard.cs:119-129 | the first sighting sets foundPlayer, switches to Pursuit at alert speed and heads to the player |
| GuardPatrol.FoundPlayerStays | Assets/Scripts/Gameplay/Guard.cs:122-129 | no frame clears foundPlayer |
| GuardPatrol.PursuitIsFinal | Assets/Scripts/Gameplay/Guard.cs:96-129 | a frame leaves a guard that is in pursuit and has found the player completely unchanged |
| GuardPatrol.LatchIsPermanent | Assets/Scripts/Gameplay/Guard.cs:96-129 | over any run of frames, a guard that is in pursuit and has found the player never changes again |
| GuardPatrol.TickKeepsLatchConsistent | Assets/Scripts/Gameplay/Guard.cs:96-129 | every frame keeps "foundPlayer implies Pursuit" |
| GuardPatrol.SightingLatchesRun | Assets/Scripts/Gameplay/Guard.cs:96-129 | a sighting in any frame that does not throw leaves the guard in pursuit at the end of the run |
| GuardPatrol.TickKeepsIndexFit | Assets/Scripts/Gameplay/Guard.cs:161-233 | for a well-set-up index and a valid random draw, no frame throws and the index stays well set up |
| GuardPatrol.PathLength | Assets/Scripts/Gameplay/Guard.cs:303-307 | a polyline's length is never negative |
| GuardPatrol.DirectPathLength | Assets/Scripts/Gameplay/Guard.cs:286-307 | a path with no corners measures the straight segment to the target |
| GuardPatrol.Guard.constructor | Assets/Scripts/Gameplay/Guard.cs:64-94 | the patrol speed is the agent's speed and the alert speed is twice it; the waypoints come from the manager (empty without one); nothing is found yet |
| GuardPatrol.Guard.StartWaitingNow | Assets/Scripts/Gameplay/Guard.cs:317-324 | the new fields are the wait-start rule applied to the old ones |
| GuardPatrol.Guard.WaitingNow | Assets/Scripts/Gameplay/Guard.cs:326-335 | the new fields are the Idle rule applied to the old ones |
| GuardPatrol.Guard.OnLoopingPatrol | Assets/Scripts/Gameplay/Guard.cs:161-179 | the new fields and the fault flag are the looping step of the old ones |
| GuardPatrol.Guard.OnMirroredPatrol | Assets/Scripts/Gameplay/Guard.cs:185-211 | the new fields and the fault flag are the mirrored step of the old ones |
| GuardPatrol.Guard.OnRandomPatrol | Assets/Scripts/Gameplay/Guard.cs:216-233 | never throws; the new fields are the random step of the old ones |
| GuardPatrol.Guard.GuardStance | Assets/Scripts/Gameplay/Guard.cs:339-351 | the new fields are the stance step of the old ones |
| GuardPatrol.Guard.Update | Assets/Scripts/Gameplay/Guard.cs:96-130 | a frame is the behaviour dispatch followed by the detection latch (Tick) |
| GuardPatrol.Guard.Investigate | Assets/Scripts/Gameplay/Guard.cs:238-242 | the guard heads for the point at alert speed; its behaviour state is untouched |
| GuardPatrol.Guard.GetTravelDistanceToPoint | Assets/Scripts/Gameplay/Guard.cs:281-314 | Infinity exactly when no path is found; otherwise the summed length of guard position, corners and target, never negative |
| Detection.FirstHit | Assets/Scripts/Gameplay/PlayerDetector.cs:49-79 | the first sample from k on that is cast and hits the player; none exactly when no such sample exists |
| Detection.CastOffsets | Assets/Scripts/Gameplay/PlayerDetector.cs:49-58 | every listed offset belongs to a sample in range whose angle is in view |
| Detection.CastOffsetsAscending | Assets/Scripts/Gameplay/PlayerDetector.cs:49-58 | the fan casts its samples in strictly ascending offset order, so none twice |
| Detection.CastOffsetsComplete | Assets/Scripts/Gameplay/PlayerDetector.cs:49-58 | the fan casts every sample whose angle is in view |
| Detection.CastOffsetsExtend | Assets/Scripts/Gameplay/PlayerDetector.cs:49-58 | scanning one more sample appends its offset exactly when it is in view |
| Detection.Decide | Assets/Scripts/Gameplay/PlayerDetector.cs:41-80 | an out-of-view centre casts nothing; the player is found exactly when the centre is in view and some cast ray hits the player; only in-view samples are cast |
| Detection.HitIsLastCast | Assets/Scripts/Gameplay/PlayerDetector.cs:61-68 | when found, the hit is the last ray cast and no earlier cast ray hit the player |
| Detection.PlayerDetector.constructor | Assets/Scripts/Gameplay/PlayerDetector.cs:7-10 | no player is cached and the view angle defaults to 130 |
| Detection.PlayerDetector.FindAndSetPlayerTransform | Assets/Scripts/Gameplay/PlayerDetector.cs:95-107 | the result is true exactly when the scene has a player, which is then cached; otherwise the cache is kept |
| Detection.PlayerDetector.PlayerDetected | Assets/Scripts/Gameplay/PlayerDetector.cs:83-89 | a level manager, when there is one, receives its detection rule |
| Detection.PlayerDetector.DetectPlayer | Assets/Scripts/Gameplay/PlayerDetector.cs:20-81 | the angle is stored and the player looked up once; nothing is cast without a player; rays and result follow the decision; the level is told exactly when the player is returned |
| Alarms.TriggerIsEdgeTriggered | Assets/Scripts/Gameplay/Alarm.cs:108-117 | the alarm ends in the requested state; asking twice equals asking once; an alert starts exactly on a false-to-true edge |
| Alarms.SetUpIsSilent | Assets/Scripts/Gameplay/Alarm.cs:47-52 | set-up leaves the alarm silent and starts no alert |
| Alarms.DeviceStateRule | Assets/Scripts/Gameplay/Alarm.cs:54-63 | for any state text: one containing "Ringing" rings the alarm whatever else it holds; "Silenced" without "Ringing" silences it with no new alert; other text changes nothing; an alert starts only when a silent alarm is told to ring; the same text applied twice acts as once |
| Alarms.RingingBeatsSilenced | Assets/Scripts/Gameplay/Alarm.cs:54-63 | examples of the rule on three fixed texts: "Silenced, Ringing" rings, "Silenced" silences, "Standby" changes nothing |
| Alarms.AlertsCountRisingEdges | Assets/Scripts/Gameplay/Alarm.cs:108-117 | over any run of requests, one alert starts per rising edge, and the alarm ends in the last requested state |
| Alarms.ClosestIsUnique | Assets/Scripts/Gameplay/Alarm.cs:85-97 | at most one guard meets the closest-guard condition |
| Alarms.ClosestGuardIndex | Assets/Scripts/Gameplay/Alarm.cs:82-97 | no guard exactly when the list is empty; otherwise the chosen distance is at most every other and every later guard is strictly farther (ties go to the later guard) |
| Alarms.Alarm.constructor | Assets/Scripts/Gameplay/Alarm.cs:33-39 | the alarm starts silent with no alert or turn-off started |
| Alarms.Alarm.TriggeredAlarm | Assets/Scripts/Gameplay/Alarm.cs:108-117 | the new state is the edge-triggered rule applied to the old one; delays are kept |
| Alarms.Alarm.SetAlarmUp | Assets/Scripts/Gameplay/Alarm.cs:47-52 | the new state is the set-up rule applied to the old one |
| Alarms.Alarm.UpdateDeviceState | Assets/Scripts/Gameplay/Alarm.cs:54-63 | the new state is the state-text rule applied to the old one |
| Alarms.Alarm.AlertClosestGuard | Assets/Scripts/Gameplay/Alarm.cs:65-106 | the delay is raised to at least 0.1; the closest guard is sent to the turn-off point (or the alarm's position) at alert speed; every other guard is unchanged |
| Alarms.Alarm.Update | Assets/Scripts/Gameplay/Alarm.cs:41-45 | a turn-off starts exactly when the alarm rings, has a detection box and a guard overlaps it |
| Alarms.Alarm.CheckForGuard | Assets/Scripts/Gameplay/Alarm.cs:181-199 | one turn-off starts exactly when there is a detection box and some overlapping collider is a guard |
| Alarms.Alarm.TurnOffAlarm | Assets/Scripts/Gameplay/Alarm.cs:205-210 | the turn-off delay is raised to at least 0.1 and the alarm is silenced |
| Doors.FrameKeepsFractionInUnit | Assets/Scripts/Gameplay/Door.cs:51-98 | a frame keeps the open fraction in [0, 1], sets the state to what the box sensed and keeps the lock |
| Doors.LockBlocksOpeningOnly | Assets/Scripts/Gameplay/Door.cs:67-89 | a locked door does not open further; closing ignores the lock |
| Doors.FrameIsMonotone | Assets/Scripts/Gameplay/Door.cs:51-89 | with a non-negative step, an occupied box never closes the door further and an empty box never opens it further; locked and occupied, it does not move |
| Doors.OpensFully | Assets/Scripts/Gameplay/Door.cs:67-77 | an unlocked, occupied door opens by at least one step per frame until fully open |
| Doors.Door.constructor | Assets/Scripts/Gameplay/Door.cs:25-31 | the door starts in its inspector state and lock, fully closed |
| Doors.Door.Update | Assets/Scripts/Gameplay/Door.cs:51-65 | the new fields are one door frame applied to the old ones |
| Doors.Door.OpenDoor | Assets/Scripts/Gameplay/Door.cs:67-77 | the new fields are the opening rule applied to the old ones |
| Doors.Door.CloseDoor | Assets/Scripts/Gameplay/Door.cs:79-89 | the new fields are the closing rule applied to the old ones |
| Doors.Door.MoveDoor | Assets/Scripts/Gameplay/Door.cs:91-98 | the fraction becomes the clamped argument, in [0, 1] |
| Doors.Door.LockDoor | Assets/Scripts/Gameplay/Door.cs:100-103 | only the lock changes |
| Doors.Door.SetDoorState | Assets/Scripts/Gameplay/Door.cs:105-108 | only the state changes |
| Doors.Door.CheckForCharacter | Assets/Scripts/Gameplay/Door.cs:110-124 | the state becomes Open exactly when some overlapping collider is a character |
| SecurityCameras.SweepFactor | Assets/Scripts/Gameplay/SecuirityCamera.cs:95-98 | a sine in [-1, 1] becomes a factor in [0, 1] |
| SecurityCameras.SweepAtBetween | Assets/Scripts/Gameplay/SecuirityCamera.cs:99 | the rotation at any factor lies between the two end rotations, component by component |
| SecurityCameras.SelectStateRule | Assets/Scripts/Gameplay/SecuirityCamera.cs:62-71 | for any state text and any current state: text containing "static" selects Static whatever else it holds; "sentry mode" without "static" selects SentryMode; other text keeps the state; the same text applied twice acts as once |
| SecurityCameras.StaticTakesPrecedence | Assets/Scripts/Gameplay/SecuirityCamera.cs:62-71 | examples of the rule on three fixed texts: "sentry mode static" selects Static, "sentry mode" selects SentryMode, "offline" keeps the state |
| SecurityCameras.SentrySweepStaysBetweenEnds | Assets/Scripts/Gameplay/SecuirityCamera.cs:73-100 | Static changes nothing; SentryMode advances the clock and keeps every rotation component between the two ends |
| SecurityCameras.SecurityCamera.constructor | Assets/Scripts/Gameplay/SecuirityCamera.cs:31-51 | the camera starts turned to its left-most rotation |
| SecurityCameras.SecurityCamera.SetDeviceState | Assets/Scripts/Gameplay/SecuirityCamera.cs:62-71 | the new state is the state-text rule applied to the old one |
| SecurityCameras.SecurityCamera.SetCameraState | Assets/Scripts/Gameplay/SecuirityCamera.cs:102-105 | only the state changes |
| SecurityCameras.SecurityCamera.SetStateInformation | Assets/Scripts/Gameplay/SecuirityCamera.cs:73-85 | the new fields are one camera frame applied to the old ones |
| SecurityCameras.SecurityCamera.StaticMode | Assets/Scripts/Gameplay/SecuirityCamera.cs:87-90 | nothing changes |
| SecurityCameras.SecurityCamera.SentryModeStep | Assets/Scripts/Gameplay/SecuirityCamera.cs:92-100 | the clock advances by the frame time and the rotation is the sweep at the sine of clock times speed |
| Level.StartState | Assets/Scripts/Gameplay/LevelManager.cs:48-108 | after Start the level is in Intro, has started only the intro, and neither latch is set |
| Level.DetectIsOneShot | Assets/Scripts/Gameplay/LevelManager.cs:113-126 | detection latches; a second detection changes nothing; the failure sequence starts only on the first |
| Level.CompletionOnlyWhilePlaying | Assets/Scripts/Gameplay/LevelManager.cs:128-141 | only a Playing frame checks completion; completion latches only when the end point was reached; the completion sequence starts once |
| Level.ReplayStartsEachSequenceOnce | Assets/Scripts/Gameplay/LevelManager.cs:113-141 | over any run of events, each latch has started its sequence exactly once if set and never if not, and no latch clears |
| Level.LevelEndPoint.constructor | Assets/Scripts/Gameplay/LevelEndPoint.cs:9-12 | the end point starts not reached |
| Level.LevelEndPoint.OnTriggerEnter | Assets/Scripts/Gameplay/LevelEndPoint.cs:14-21 | the flag is set when the entering collider carries a player, and is never cleared |
| Level.LevelEndPoint.IsLevelComplete | Assets/Scripts/Gameplay/LevelEndPoint.cs:23-26 | complete exactly when the end point has been reached |
| Level.AfterEntriesLatches | Assets/Scripts/Gameplay/LevelEndPoint.cs:14-21 | after any run of entries the flag is set exactly when it was set before or some entering collider carried a player |
| Level.LevelManager.constructor | Assets/Scripts/Gameplay/LevelManager.cs:48-60 | the level starts in the Start state |
| Level.LevelManager.SetUpLevel | Assets/Scripts/Gameplay/LevelManager.cs:73-87 | only the detected latch is cleared |
| Level.LevelManager.SwitchCurrentState | Assets/Scripts/Gameplay/LevelManager.cs:94-108 | the state is assigned and the intro starts only for Intro |
| Level.LevelManager.PlayerDetected | Assets/Scripts/Gameplay/LevelManager.cs:113-126 | the new fields are the detection rule applied to the old ones |
| Level.LevelManager.CheckLevelComplete | Assets/Scripts/Gameplay/LevelManager.cs:128-141 | the new fields follow the completion rule; the check throws without an end point |
| Level.LevelManager.Update | Assets/Scripts/Gameplay/LevelManager.cs:68-71 | a frame runs the current state: the completion check while Playing, nothing otherwise |
| Transitions.Max | Assets/Transitioner.cs:35-37 | the larger of the two arguments |
| Unity.TimesIsProduct | Assets/Transitioner.cs:64 | n increments of x sum to n times x |
| Transitions.TimesMonotone | Assets/Transitioner.cs:60-65 | with a positive step, the running alpha never decreases and strictly grows |
| Transitions.TimesScales | Assets/Transitioner.cs:45-46 | scaling the step scales the sum |
| Transitions.ReachesOne | Assets/Transitioner.cs:60-65 | a positive step reaches alpha 1 after finitely many updates, so the fade-in ends |
| Transitions.Reach | Assets/Transitioner.cs:60-65 | the least count in a range whose sum reaches 1 |
| Transitions.FadeLength | Assets/Transitioner.cs:60-65 | the number of fade-in updates is the least m with m steps reaching 1 |
| Transitions.FadeInAlphasBelowOne | Assets/Transitioner.cs:60-65 | every alpha written while fading in lies in [0, 1) |
| Transitions.FadeOutAlphasPositive | Assets/Transitioner.cs:71-76 | every alpha written while fading out is positive, at least one step and below 1 + step |
| Transitions.UnclockedFadeIn | Assets/Transitioner.cs:92-97 | the real-time fade-in equals the scaled one up to the clock kind |
| Transitions.UnclockedFadeOut | Assets/Transitioner.cs:103-108 | the real-time fade-out equals the scaled one up to the clock kind |
| Transitions.VariantsAgree | Assets/Transitioner.cs:54-116 | the two coroutines write the same alphas and wait the same durations, and both end or both run forever |
| Transitions.EndsIffTimeCoversOpaque | Assets/Transitioner.cs:45-65 | the coroutine ends exactly when the clamped transition time is at least the clamped opaque time |
| Transitions.TotalWaitAppend | Assets/Transitioner.cs:54-84 | the waits of two runs of effects add up |
| Transitions.FadeInWait | Assets/Transitioner.cs:60-65 | the fade-in waits m refresh periods |
| Transitions.FadeOutWait | Assets/Transitioner.cs:71-76 | the fade-out waits m refresh periods |
| Transitions.StepsCoverSpan | Assets/Transitioner.cs:44-46 | m steps reach alpha 1 exactly when 2m refresh periods cover the fade span |
| Transitions.TransitionTimeIsClose | Assets/Transitioner.cs:44-84 | with time above the opaque time, the coroutine ends, and its total wait is at least the requested time and less than two refresh periods more |
| Transitions.Transitioner.constructor | Assets/Transitioner.cs:13-20 | the field defaults: time 1, refresh 0.05, step 0.05, opaque 0, idle |
| Transitions.Transitioner.MaskTransition | Assets/Transitioner.cs:29-52 | ignored while transitioning; otherwise the settings are clamped (refresh >= 0.01, time >= 0.1, opaque >= 0), the step is twice refresh over the fade span, and the transitioner is busy |
| Transitions.Transitioner.RunCoroutine | Assets/Transitioner.cs:54-116 | the effects are the whole transition for the stored settings; on its end the transitioner is idle again, and a run that never ends leaves it busy |
| Transitions.Transitioner.Fade | Assets/Transitioner.cs:56-81 | the two loops write the fade-in, force alpha 1, hold, write the fade-out, force alpha 0 |
| GameConsole.FirstPressed | Assets/Scripts/Gameplay/Game.cs:121-138 | the lowest choice among the first nine whose number key is down, on the main row or keypad; none when no such key is down |
| GameConsole.LowestKeyWins | Assets/Scripts/Gameplay/Game.cs:124-133 | with keys 1 and 3 down the first choice wins; keys past 9 select nothing |
| GameConsole.Game.constructor | Assets/Scripts/Gameplay/Game.cs:18-35 | input is refused and no beat is current |
| GameConsole.Game.SetAcceptingInput | Assets/Scripts/Gameplay/Game.cs:37-40 | only the input flag changes |
| GameConsole.Game.GetCurrentBeatText | Assets/Scripts/Gameplay/Game.cs:149-154 | the current beat's text, or empty without one |
| GameConsole.Game.DisplayBeat | Assets/Scripts/Gameplay/Game.cs:142-147 | the looked-up beat (none when the id is missing) becomes current and its display starts |
| GameConsole.Game.SetConsoleInformation | Assets/Scripts/Gameplay/Game.cs:83-90 | a story replaces the current one and shows beat 1; a null story changes nothing |
| GameConsole.Game.UpdateInput | Assets/Scripts/Gameplay/Game.cs:100-140 | without input nothing changes; Escape quits on beat 1 and shows beat 1 otherwise; else the lowest pressed choice key leads to that choice's beat |
| GameConsole.Game.FinishDisplay | Assets/Scripts/Gameplay/Game.cs:156-196 | a beat with several choices lists them numbered from 1; otherwise the console follows choice 0 of the current beat, throwing when there is none |
| GameConsole.Game.Update | Assets/Scripts/Gameplay/Game.cs:42-55 | once the output is idle, beat 1 is shown if no beat is current, else the keyboard is read |
| StoryData.GetBeatById | Assets/Scripts/Data/StoryData.cs:15-18 | none exactly when no beat has the id; otherwise the first beat with that id |
| StoryData.GetBeatByIdFindsFirst | Assets/Scripts/Data/StoryData.cs:15-18 | a beat whose id no earlier beat has is the one the lookup returns |
| StoryEditor.UsedRangeFits | Assets/Scripts/Editor/StoryEditor.cs:273-283 | if all ids 1..r are in use, the list has at least r beats, which bounds the unique-id search |
| StoryEditor.IsIdInList | Assets/Scripts/Editor/StoryEditor.cs:285-297 | true exactly when some beat has the id, and the scan stops at the first |
| StoryEditor.FindUniqueId | Assets/Scripts/Editor/StoryEditor.cs:273-283 | the smallest positive unused id, at most the number of beats plus one |
| StoryEditor.FindIndexOfBeatId | Assets/Scripts/Editor/StoryEditor.cs:299-315 | the index of the first beat with the id, or -1 exactly when there is none |
| StoryEditor.TryGetObjectsFromPath | Assets/Scripts/Editor/StoryEditor.cs:35-55 | the found list keeps its prefix, gains every loaded asset and nothing else, and adds no duplicate |
| StoryEditor.CollectedAssetsDistinct | Assets/Scripts/Editor/StoryEditor.cs:46-51 | a duplicate-free list stays duplicate-free after the scan |
| StoryEditor.AppendedIdKeepsDistinct | Assets/Scripts/Editor/StoryEditor.cs:242-247 | appending a beat with an unused id keeps all ids distinct |
| StoryEditor.StoryEditorWindow.constructor | Assets/Scripts/Editor/StoryEditor.cs:10-13 | the window opens on the beat list with no beat and no data set chosen |
| StoryEditor.StoryEditorWindow.Screen | Assets/Scripts/Editor/StoryEditor.cs:93-110 | the beat view is drawn only with a beat index; the data view for DataList; otherwise the beat list |
| StoryEditor.StoryEditorWindow.AddBeat | Assets/Scripts/Editor/StoryEditor.cs:317-327 | the list grows by one beat with the given id and text, and the earlier beats are kept |
| StoryEditor.StoryEditorWindow.AddChoice | Assets/Scripts/Editor/StoryEditor.cs:329-339 | one choice to the given id is appended to that beat, and every other beat is kept |
| StoryEditor.StoryEditorWindow.OpenBeatList | Assets/Scripts/Editor/StoryEditor.cs:126-129 | an empty story first gets beat 1, "First Story Beat" |
| StoryEditor.StoryEditorWindow.AddChoiceClicked | Assets/Scripts/Editor/StoryEditor.cs:242-247 | a new beat with a fresh id is appended and linked from the current beat; lookups find it; distinct ids stay distinct |
| StoryEditor.StoryEditorWindow.EditClicked | Assets/Scripts/Editor/StoryEditor.cs:145-150 | the beat view opens on that row |
| StoryEditor.StoryEditorWindow.DeleteClicked | Assets/Scripts/Editor/StoryEditor.cs:152-156 | exactly that row's beat is removed |
| StoryEditor.StoryEditorWindow.GoToBeat | Assets/Scripts/Editor/StoryEditor.cs:263-268 | the index becomes the first beat with the target id, or -1 (leaving the beat view) when there is none |
| StoryEditor.StoryEditorWindow.ReturnToBeatList | Assets/Scripts/Editor/StoryEditor.cs:226-230 | the beat list is shown and no beat is chosen |
| StoryEditor.StoryEditorWindow.ReturnToDataList | Assets/Scripts/Editor/StoryEditor.cs:167-171 | the data list is shown and no data set is chosen |
| StoryEditor.StoryEditorWindow.EditDataSet | Assets/Scripts/Editor/StoryEditor.cs:194-201 | that data set's beats are edited, on the beat list |
| Waypoints.Waypoint.constructor | Assets/Scripts/Editor/WaypointEditor.cs:170 | a new waypoint has a zero offset and no manager (the called code is at Waypoint System/Waypoint.cs:12-23) |
| Waypoints.Waypoint.UpdatePosition | Assets/Scripts/Editor/WaypointEditor.cs:105 | the offset moves by the delta (the called code is at Waypoint System/Waypoint.cs:52-57) |
| Waypoints.Waypoint.Copy | Assets/Scripts/Editor/WaypointEditor.cs:171 | the offset becomes the other waypoint's, unchanged when there is none (the called code is at Waypoint System/Waypoint.cs:59-64) |
| Waypoints.Waypoint.SetWaypointManager | Assets/Scripts/Editor/WaypointEditor.cs:240 | only the manager reference changes (the called code is at Waypoint System/Waypoint.cs:37-40) |
| Waypoints.Added | Assets/Scripts/Editor/WaypointEditor.cs:172 | one more waypoint, same multiset plus it, appended at -1 and inserted before the index otherwise (the called code is at Waypoint System/WaypointManager.cs:49-52) |
| Waypoints.WaypointManager.constructor | Assets/Scripts/Editor/WaypointEditor.cs:40 | the manager starts with an empty list (the called code is at Waypoint System/WaypointManager.cs:9) |
| Waypoints.WaypointManager.GetAllWaypoints | Assets/Scripts/Editor/WaypointEditor.cs:22 | the list is returned and every waypoint in it refers to this manager (the called code is at Waypoint System/WaypointManager.cs:24-38) |
| Waypoints.WaypointManager.AddWaypoint | Assets/Scripts/Editor/WaypointEditor.cs:172 | throws exactly for an index the list refuses; otherwise the waypoint is added and linked to this manager (the called code is at Waypoint System/WaypointManager.cs:45-54) |
| Waypoints.Toggle | Assets/Scripts/Editor/WaypointEditor.cs:114-127 | clicking the selected waypoint clears the selection; any other becomes selected |
| Waypoints.LastRemoved | Assets/Scripts/Editor/WaypointEditor.cs:132-137 | the last row whose Remove was clicked, or -1 exactly when none was |
| Waypoints.IndexOf | Assets/Scripts/Editor/WaypointEditor.cs:162 | the first position holding the waypoint, or -1 exactly when it is absent |
| Waypoints.RemovalDropsOne | Assets/Scripts/Editor/WaypointEditor.cs:144-149 | exactly the removed waypoint leaves the list; it is never left selected; the list stays duplicate-free |
| Waypoints.InsertsAfterSelected | Assets/Scripts/Editor/WaypointEditor.cs:156-176 | the new waypoint goes right after the selected one, or at the end when nothing current is selected, and the list accepts the index |
| Waypoints.RowsKeepSelectionInList | Assets/Scripts/Editor/WaypointEditor.cs:114-127 | the row pass keeps the selection empty or in the list |
| Waypoints.LinesCloseTheRing | Assets/Scripts/Editor/WaypointEditor.cs:188-223 | for the result of a complete scene-view pass (`DrawnPrefix` over all waypoints) in which no handle moved: every line starts at its waypoint's unmoved position and ends where the next line starts, and the last line ends where the first starts |
| Waypoints.WaypointEditor.constructor | Assets/Scripts/Editor/WaypointEditor.cs:19-23 | nothing is selected and every waypoint knows the manager |
| Waypoints.WaypointEditor.OnInspectorGUI | Assets/Scripts/Editor/WaypointEditor.cs:59-186 | the list and selection after the rows, the last removal and the Add button; a new waypoint copies the selected one's offset; every waypoint of the old list with a typed position is now at that position and every other keeps its offset (`EditsApplied`) |
| Waypoints.WaypointEditor.ApplyButtons | Assets/Scripts/Editor/WaypointEditor.cs:144-176 | the last Remove (if any) is applied, then the Add button: the list and selection are the removal followed by the insertion after the selection, and the new waypoint copies the selected one's offset; no existing waypoint is written |
| Waypoints.WaypointEditor.RowsPass | Assets/Scripts/Editor/WaypointEditor.cs:79-142 | a typed position becomes the waypoint's world position; the selection toggles per row; the last Remove is returned |
| Waypoints.WaypointEditor.InspectRow | Assets/Scripts/Editor/WaypointEditor.cs:89-125 | a typed position becomes the row's world position and Select toggles the selection; no other waypoint moves |
| Waypoints.WaypointEditor.RemoveWaypoint | Assets/Scripts/Editor/WaypointEditor.cs:144-149 | list and selection become the removal of that row |
| Waypoints.WaypointEditor.AddClicked | Assets/Scripts/Editor/WaypointEditor.cs:156-176 | a fresh waypoint is inserted after the selected one (or appended), copies its offset and becomes the selection |
| Waypoints.WaypointEditor.DrawAllWaypoints | Assets/Scripts/Editor/WaypointEditor.cs:188-223 | clicks change the selection as the pass goes; `DrawnPrefix` of the offsets before and after: a waypoint selected at its turn follows its handle and every other keeps its offset; line i runs from waypoint i's new position to waypoint i+1's position from before the pass, and the last line to waypoint 0's final position; with no handle moved the lines form a closed ring |
| Waypoints.WaypointEditor.DrawWaypoint | Assets/Scripts/Editor/WaypointEditor.cs:230-289 | the selected waypoint follows its handle; another becomes selected when clicked; no other waypoint moves |

## Left out

- Engine services are inputs, not models: the navigation mesh and agent movement, physics overlaps and ray casts, `Vector3.Angle`, `Random`, `Time`, animation curves and `Mathf.Sin`.
- Floats are reals: rounding, NaN and the float precision of distances and alphas are not modelled. The one exception is the infinite alpha step; `Transitions.AlphaStep.PosInfinity` models the division by zero when the transition time equals the opaque time.
- Transitions.Transitioner.RunCoroutine: a transition that never ends (non-positive step) is reported as `NeverEnds`; its infinite stream of alpha writes and waits is not produced.
- Coroutine timing is left out: the alert, turn-off, level failed/complete and intro sequences are counted when started, not scheduled in time. Scene reloads, `GameManager`, `SoundManager`, the mini map, the hacker animation, the cameras and cursor visibility are outside the model.
- Rendering and GUI: colours, materials, the UI symbols, handle drawing, Undo, repaint, text display and the console's output coroutine busy-waits. `Game.FinishDisplay` models only the end of the display coroutine.
- Guard head animation (`Animate`, `LookAround`, `LateUpdate`) is left out. It moves the head, not the state machine. The `lookingAround` flag is set on each arrival as in the source, but `LookAround` is what clears it after a head cycle (Guard.cs:390), so in this model the flag never returns to false once a wait has started.
- The guard's waypoint positions are read once, when the guard starts, from its manager's list (`GuardPatrol.Guard.waypoints` is a constant). The source reads each waypoint's position from the shared list at every use (Guard.cs:174, 205, 228), so a waypoint moved during play would be seen by the source but not by this model. Nothing moves waypoints during play.
- The result of `NavMeshAgent.SetDestination` is ignored by the source and not modelled; `destination` is the last point given to the agent.
- The security camera's player detection is left out. `SecuirityCamera.Update` calls `DetectPlayer` with three arguments while `PlayerDetector.DetectPlayer` takes five, so that call does not match the detector this model describes.
- `ElectronicDevice` (the base class of the alarm, door and camera) is not part of this model. The base `UpdateDeviceState`/`SetDeviceState` calls and the data loading from resources are left out.
- `WaypointEditor.OnSceneGUI`, `CreateWaypointSet` and `WaypointManager.Awake` are editor plumbing. `Waypoint`'s cached `position` field and rotation are not modelled.
- A `null` element of the waypoint list is not modelled: the list is a sequence of non-null waypoints. The source's `DrawWaypoint` logs and returns false for one (WaypointEditor.cs:232-236), and the line drawn after it would then dereference null.
- A `null` waypoint list is treated as empty. Waypoints are assumed to appear once in their manager's list (`Waypoints.Distinct`), which the editor preserves.
- StoryEditor.TryGetObjectsFromPath: the folder listing and asset loading are inputs. `SetDefaultData`, `OnGUI_DataView`'s asset creation and the serialized-object plumbing are left out.
- GameConsole.Game.Update: states only the idle, beat-1 and refused-input cases; the keyboard case is `UpdateInput`'s contract.
- Level.LevelManager.CheckLevelComplete: a missing end point is a fault, as the null dereference would be; the end point's flag itself is `LevelEndPoint`.
