# Driver monitoring alert engine

A Dafny model of the per-frame alert engine of a Streamlit driver-monitoring app (app.py).
For every camera frame, an object detector reports a list of detections. Each detection is a
class name and a confidence. The engine:

1. folds the detections into four scores: closed eyes, seatbelt, cigarette and phone
   (`Scoring`);
2. advances four persistence timers by the time since the previous frame, or resets them to 0
   (`AlertEngine.Tick`);
3. shows an alert line for every timer strictly over its threshold, and starts the alarm sound
   only on the first frame of each over-threshold episode (`AlertEngine.Next`).

Files:

- `conditions.dfy`: the four conditions, their activation tests, thresholds and alert texts.
- `scoring.dfy`: lower-casing, substring search, first-match routing and the scoring loop
  `ComputeScores`.
- `engine.dfy`: the session state as a value (`Session`) with the specification of one frame
  (`Next`) and of a run of frames (`Run`, `Outputs`). It also holds the imperative `Engine`
  class. Its fields are the session-state entries. Its methods `Step`, `Toggle` and `Monitor`
  are proved to compute exactly `Next`, `Toggled` and `Run`/`Outputs`.
- `properties.dfy`: what the engine guarantees for one frame and over runs of frames.
- `scenarios.dfy`: worked cases. An episode in which one condition persists, one
  frame per second, alerts from the frame after its threshold. It sounds only on that frame, and
  one quiet frame re-arms it.

Time and confidences are `real`. app.py only adds, subtracts and compares them. The clock
reading `now` of each frame is a parameter. The alarm sound is an output: the list of
conditions whose sound starts on that frame.

Stopping the monitor changes nothing but the run flag. The session state is initialised only when
it is absent (app.py:44-51), and the button callback only negates the flag (app.py:75-76). So
timers, alert-played flags and the previous clock reading survive a stop. After a restart, the
first frame's dt includes the whole pause. The model follows the code here (`ToggleKeepsEngineState`,
`RestartCountsPause`).

## Model

| member | source | states |
|---|---|---|
| Conditions.Active | app.py:127-130 | the activation tests: eyes above 0.1, seatbelt below 0.5 (reversed), cigarette above 0.5, phone above 0.1; a score of 0.0 (nothing detected) activates only the seatbelt condition |
| Conditions.AlertSec | app.py:55-58 | the persistence thresholds, 5 s for eyes and seatbelt and 3 s for cigarette and phone, all positive |
| Conditions.Message | app.py:135-159 | the four alert texts, none empty and none equal to the "All Normal" text |
| Conditions.MessageInjective | app.py:133-164 | the four alert texts are pairwise distinct, so a line identifies its condition |
| Scoring.Lower | app.py:112 | lower-casing keeps the length and maps every character through the letter case map |
| Scoring.Contains | app.py:113-119 | the `in` test on strings holds exactly when the pattern occurs at some position |
| Scoring.ComputeScores | app.py:102-120 | the scoring loop over the detections yields, for every condition, the score of the fold `BestOf` |
| Scoring.Route | app.py:112-120 | the if/elif chain on the lower-cased class name; a chosen bucket's keyword always occurs in that name |
| Scoring.RouteIsFirstMatch | app.py:112-120 | a detection goes to condition c exactly when its lower-cased name contains c's keyword and no keyword earlier in the order closed eyes, seatbelt, cigarette, phone; it goes nowhere exactly when it contains none |
| Scoring.BestOfIsMax | app.py:102-120 | a score is at least 0.0 and at least every confidence routed to it, and it is either 0.0 or one of those confidences |
| Scoring.BestOfNoneRouted | app.py:102-107 | a score with no detection routed to it stays 0.0 |
| Scoring.BestOfSomeRouted | app.py:109-120 | with non-negative confidences, a score with a routed detection equals the largest routed confidence |
| Scoring.FeedsOneScore | app.py:113-120 | appending a detection changes no score other than the one it is routed to |
| AlertEngine.Initial | app.py:44-51 | the first-run session: monitoring off, clock at now, every timer 0 and no alarm played |
| AlertEngine.Toggled | app.py:75-76 | the run flag negated and every other entry kept |
| AlertEngine.Tick | app.py:123-130 | the timer update; the clock becomes now, while the run flag and the alarm flags are kept (the new timer values are stated by `AlertProperties.StepTimers`) |
| AlertEngine.DisplayOf | app.py:166-176 | "All Normal" exactly when there is no alert line, otherwise the alert lines |
| AlertEngine.Next | app.py:101-176 | one frame: scores, timer update, alert block and display; its scores are the frame's, the clock becomes now, the run flag is kept, and "All Normal" shows exactly when no line is raised |
| AlertEngine.Run | app.py:87-176 | the session after a run of frames; the run flag is kept and the clock is the last frame's reading |
| AlertEngine.Outputs | app.py:87-176 | the outputs of a run of frames, one per frame |
| AlertEngine.Taken | app.py:87-91 | the frames read before the first failed grab, at most one per camera read (which frames they are is stated by `AlertProperties.TakenIsPrefix`) |
| AlertEngine.AlertBlock | app.py:133-164 | the four alert blocks run in order: lines, sounds and new flags are those of each condition in turn |
| AlertEngine.PlayedAfterComplete | app.py:134-164 | after the alert block every condition has a flag, equal to whether its timer is over threshold |
| AlertEngine.Engine.constructor | app.py:44-51 | first-run state: timers 0, clock at now, monitoring off, all four flags false |
| AlertEngine.Engine.Toggle | app.py:75-76 | the button negates the run flag and leaves the rest of the state as it was |
| AlertEngine.Engine.Signal | app.py:134-140 | one alert block: over threshold appends the line, starts the sound only if not yet played, and sets the flag; otherwise clears the flag |
| AlertEngine.Engine.UpdateTimers | app.py:123-130 | the new state is the timer update `Tick` of the old one |
| AlertEngine.Engine.RaiseAlerts | app.py:133-164 | the lines, sounds and flags are those of the alert block on the state after the timer update |
| AlertEngine.Engine.Step | app.py:101-176 | one frame changes the state and produces the output exactly as `Next` says, and keeps every flag present |
| AlertEngine.Engine.Monitor | app.py:84-91 | with monitoring on, the state and outputs are those of `Run` and `Outputs` over the frames read before the first failed grab; with monitoring off nothing happens |
| AlertProperties.AboveMembers | app.py:133-164 | a condition is among the raised ones exactly when it is listed and its timer is over threshold |
| AlertProperties.UnplayedMembers | app.py:136-162 | a condition sounds exactly when it is raised and its flag was not set |
| AlertProperties.MessagesAt | app.py:133-164 | the alert list has one line per raised condition, in the same positions |
| AlertProperties.AboveInOrder | app.py:133-164 | raising keeps the conditions in their order |
| AlertProperties.StepTimers | app.py:123-130 | the clock becomes now, the run flag is kept, and each timer grows by dt = now - prev_time while its condition is active and is exactly 0 otherwise |
| AlertProperties.StepConsistent | app.py:134-164 | after every frame each flag is true exactly when its timer is strictly over threshold |
| AlertProperties.AlertShownIffOver | app.py:133-164 | a condition's line is shown exactly when its timer is strictly over threshold after the update |
| AlertProperties.MessagesInOrder | app.py:133-164 | lines of conditions listed in order appear in that order |
| AlertProperties.AlertsInOrder | app.py:133-164 | the alert lines appear in the fixed order eyes, seatbelt, cigarette, phone |
| AlertProperties.DisplayAllNormal | app.py:166-176 | "All Normal" is shown exactly when the alert list is empty, which is exactly when no timer is over threshold; otherwise the display carries the lines |
| AlertProperties.ShownAllNormal | app.py:166-176 | the alert area shows the "All Normal" text exactly when no line is raised, and otherwise exactly the alert lines |
| AlertProperties.SoundIffUnplayed | app.py:136-162 | the sound for c starts exactly when its timer is over threshold after the update and its flag was false before the frame |
| AlertProperties.SoundOnRisingEdge | app.py:134-164 | when the flags agree with the timers, the sound starts exactly on the rising edge: at or below threshold before the frame, strictly above after |
| AlertProperties.RunStep | app.py:87-176 | the state after i + 1 frames is one step from the state after i frames |
| AlertProperties.RunClock | app.py:123-125 | after a run the clock is the last frame's reading, and the run flag is unchanged |
| AlertProperties.OutputAt | app.py:87-176 | output i of a run is the output of frame i from the state reached before it |
| AlertProperties.OutputsEarlier | app.py:87-176 | processing one more frame leaves the earlier outputs as they were |
| AlertProperties.TakenIsPrefix | app.py:87-91 | the processed frames are the grabbed frames at the start of the reads, and the read after them, if any, is a failed grab |
| AlertProperties.RunConsistent | app.py:134-164 | after any non-empty run the flags agree with the timers |
| AlertProperties.TimersStayNonNegative | app.py:127-130 | if no frame's clock reading is earlier than the previous one, timers that start non-negative stay non-negative |
| AlertProperties.ElapsedWhileActive | app.py:124-130 | over a run on which c stays active, its timer grows by exactly the elapsed clock time |
| AlertProperties.ActiveFrameNonDecreasing | app.py:127-130 | one frame with c active and a non-negative dt does not lower c's timer |
| AlertProperties.NonDecreasingWhileActive | app.py:127-130 | with non-negative dt, a timer never decreases across consecutive frames on which its condition holds |
| AlertProperties.SoundOncePerEpisode | app.py:134-164 | over a run with c's timer over threshold after every frame, c's sound can start only on the first frame, exactly when its flag was false there (exactly when the timer was not over threshold before, if the flags agreed with the timers) |
| AlertProperties.QuietWhenInactive | app.py:127-176 | frames with no active condition raise no line and no sound, show "All Normal" and leave every timer at 0 |
| AlertProperties.ToggleKeepsEngineState | app.py:75-76 | toggling negates only the run flag, and toggling twice restores the state |
| AlertProperties.RestartCountsPause | app.py:123-127 | after stop and restart, the first frame's dt is measured from the last frame before the stop, so an active timer grows by the whole pause |
| AlertScenarios.FrameLists | app.py:133-164 | a frame's lines and sounds, condition by condition in order |
| AlertScenarios.InitialWellFormed | app.py:50-51 | the first-run flags cover all four conditions, all false |
| AlertScenarios.LoneCondition | app.py:123-164 | in a frame where only c is active, c's timer grows by dt, the others are 0, and at most c's line and sound come out |
| AlertScenarios.BestOfPair | app.py:109-120 | a two-detection frame is scored one detection at a time |
| AlertScenarios.RouteIgnoresCase | app.py:112 | lower-casing a class name first does not change its bucket |
| AlertScenarios.RouteSeatbelt | app.py:112-116 | a detection named "seatbelt" feeds the seatbelt score |
| AlertScenarios.DrowsyOnlyEyes | app.py:109-130 | eyes 0.2 with a seatbelt seen at 0.9 scores (0.2, 0.9, 0, 0) and activates only the eyes condition |
| AlertScenarios.SustainedWellFormed | app.py:50-51 | the episode states have a flag for every condition |
| AlertScenarios.SustainedStart | app.py:44-51 | pressing start on a fresh session gives the state before the first frame of an episode |
| AlertScenarios.SustainedOwn | app.py:127-164 | in an episode state, c's timer is the frame count and its flag says whether that count is over the threshold |
| AlertScenarios.SustainedTimers | app.py:127-130 | frame k of an episode of c alone sets c's timer to k and the other timers to 0 |
| AlertScenarios.SustainedSession | app.py:127-164 | frame k of a one-second-per-frame episode of c alone sets c's timer to k and its flag to k > threshold |
| AlertScenarios.SustainedAlerts | app.py:133-176 | frame k of such an episode shows c's line exactly when k is over the threshold, and "All Normal" otherwise |
| AlertScenarios.SustainedSounds | app.py:136-162 | frame k of such an episode starts c's sound only when k is the first count over the threshold |
| AlertScenarios.SustainedStep | app.py:127-176 | frame k of such an episode shows c's line exactly when k is over the threshold (k equal to it is still "All Normal"), and sounds only on the first frame over it |
| AlertScenarios.Recovery | app.py:127-176 | a frame with nothing active clears every timer and flag, shows nothing, and re-arms the sound for the next episode |
| AlertScenarios.ScenarioDrowsy | app.py:127-140 | eyes closed with a seatbelt seen, one frame per second: the drowsiness line from frame 6 on, its sound on frame 6 only |
| AlertScenarios.ScenarioNothingSeen | app.py:128-148 | a frame with no detections counts as no seatbelt: the seatbelt line from frame 6 on, its sound on frame 6 only |

## Left out

- The Streamlit page: configuration, animations, columns, the button label and the frame image. These are presentation only.
- Camera capture, resizing and colour conversion. A frame that was read is a `Frame` value; a failed read is `Capture.Failed` and ends the loop. The "Failed to grab frame" message is not modelled.
- The object detector and its annotated image. Its detections are an input list of (class name, confidence) pairs.
- `play_alert_sound` (file read, base64, HTML audio, swallowed exception). It is modelled only as the frame's `sounds` output.
- `time.time()`. Each frame's clock reading is a parameter. Clock monotonicity is assumed only where a lemma requires `Chronological`.
- The Streamlit rerun mechanism. A button click reruns the script and interrupts the loop. The model has `Toggle` between runs and `Monitor` over the captures of one run. Inside a run the run flag does not change.
- Scoring.Lower: lower-cases only the ASCII letters A-Z. Python's `str.lower` also maps other Unicode letters. This does not change any bucket: the only non-ASCII characters that lower-case into ASCII are U+0130 (to "i" followed by U+0307) and U+212A (to "k"), and neither can complete "closed eyes", "seatbelt", "cigarette" or "phone".
- The HTML markup of the alert area. `Display` carries the alert lines, not their `<br>`-joined HTML.
- AlertEngine.Engine.constructor: sets all session entries at once. app.py checks each entry for absence separately. All entries are absent together on a first run.
- The integer 0 that app.py gives the timers is the real 0.0 here. The arithmetic is the same.
