# Neuralator watch simulator: state model

Neuralator is a smartwatch web app for people with Pathological Demand Avoidance. Its
`App` component (`neuralator-for-pda/App.tsx`) runs a small simulation in the browser. It
tracks:

- a heart rate (bpm);
- a burnout level from 0 to 100, shown as one of five calm animals;
- a rolling stress history for a graph;
- a sensory-overload alarm with hysteresis;
- a triple-press "witness mode" toggle on the crown;
- a walk to a quiet zone that ends with a note to the manager;
- a transcript classifier that adjusts burnout and logs aggressive remarks as incidents.

Burnout and bpm come from one of two sources. In random mode they are random walks. In
watch-feed mode they follow two sliders, a heart rate and a heart-rate variability (HRV).

The project models this controller as one object, `Neuralator.Watch` (`watch.dfy`). Each
field mirrors a piece of React state or a ref. Each method is one timer body or one event
handler, run as an atomic step. The expressions those steps compute are pure functions,
and their properties are proved as lemmas:

- `stress.dfy`: the history buffer, the clamped random walks, and the HRV map and its inverse;
- `overload.dfy`: the overload monitor;
- `travel.dfy`: the distance labels and the travel countdown;
- `animal.dfy`: the level-to-animal banding;
- `gemini.dfy`: the fallbacks of the two text-model calls.

`scenarios.dfy` strings steps together:

- three crown presses;
- a whole trip;
- an overload followed by its recovery, with and without an interrupting spike.

Some behaviour needs care in the model:

- **Randomness.** The source draws it with `Math.random()`. Here it is a parameter of the
  step, restricted to the range the source's floor-and-shift produces: `-5..5` for the
  heart-rate noise and `-15..15` for the burnout change.
- **Classifier and notification replies.** These are also parameters.
- **Floating point.** The source's decimal arithmetic is modelled exactly in integers:
  - `0.8·b` is `4b/5`;
  - `116 − 1.33·h` is `(11600 − 133h)/100`;
  - `(116 − b)/1.33` is `100(116 − b)/133`.

  Dafny's division by a positive divisor is the floor, and the clamp bounds are integers,
  so the clamp-then-floor of the source equals the floor-then-clamp here.
- **The overload effect.** It re-runs whenever bpm, `sensoryOverload` or `viewMode`
  changed. The step that changed them runs it at its end (`Watch.Commit`, specified by
  `Overload.Rerender`), because the effect's cleanup cancels the pending clear.
- **The watch-feed recomputation.** React re-runs the simulation effect whenever burnout,
  the view, the mode or a slider changed, and in watch-feed mode that run sets bpm and
  burnout from the sliders. It is a separate step, `Watch.SyncWatchFeed`.
- **Timeouts.** Timeouts the source never cancels (the 10 s status revert and the 8 s
  notification dismissal) are counts of pending firings.
- **The 400 ms crown window.** It is a pending flag.
- **The 5 s overload clear.** It is a countdown in seconds.

The model makes the following consequences of the source explicit:

- **HRV 23.** In watch-feed mode this HRV stores burnout 85 yet still forces the app
  view, because the source compares the unfloored value 85.41 with 85. See
  `Stress.HrvEscalationThreshold`.
- **The HRV written back after a submit.** Mapped forward again, it gives the submitted
  burnout or one more (`Stress.HrvRoundTrip`). Burnout 11 cannot come from any HRV
  (`Stress.HrvRoundTripDrifts`).
- **Arrival in watch-feed mode.** Arrival sets burnout 15 and bpm 70 (`Watch.Arrive`).
  Because burnout changed, the next `Watch.SyncWatchFeed` puts bpm back to the heart-rate
  slider and burnout back to the HRV's value.

## Model

| member | source | states |
|---|---|---|
| Stress.Clamp | neuralator-for-pda/App.tsx:330 | the result lies in [lo, hi], equals x inside the range and the nearer bound outside it |
| Stress.Sampled | neuralator-for-pda/App.tsx:314-318 | a sample appends burnout as the newest entry; the length grows by one below 20 entries and stays put at 20, when the oldest entry is dropped and the order kept |
| Stress.Window | neuralator-for-pda/App.tsx:316 | the reference rolling buffer of a sequence of n values keeps min(n, 20) of them |
| Stress.SampledIsWindow | neuralator-for-pda/App.tsx:314-318 | from a history of at most 20 entries, one sample equals the newest 20 of the history with the sample appended |
| Stress.WindowOfWindow | neuralator-for-pda/App.tsx:316 | truncating before appending more and truncating once at the end give the same buffer |
| Stress.SampledAllIsWindow | neuralator-for-pda/App.tsx:313-318 | any run of samples from a history of at most 20 entries leaves the newest 20 of all values seen |
| Stress.HistoryKeepsNewest | neuralator-for-pda/App.tsx:313-318 | after at least 20 samples the buffer is exactly the last 20 samples, in order |
| Stress.HistoryLengthFromStart | neuralator-for-pda/App.tsx:183 | from the initial 15 entries of 15, the length is min(15 + number of samples, 20) and never exceeds 20 |
| Stress.RandomBpm | neuralator-for-pda/App.tsx:324-331 | a random-mode bpm is clamp(60, 180, 60 + floor(0.8·burnout) + noise), each case of the clamp stated on the raw value; it is at most 145 for a burnout in range, and the previous bpm plays no part |
| Stress.RandomBpmMonotone | neuralator-for-pda/App.tsx:327-330 | for equal noise, a higher burnout never gives a lower bpm |
| Stress.RandomOverloadNeedsBurnout64 | neuralator-for-pda/App.tsx:327-330 | random mode reaches the overload level (bpm above 115) only with burnout at least 64, and burnout 64 with noise +5 reaches it |
| Stress.RandomRecoveryNeedsBurnout57 | neuralator-for-pda/App.tsx:327-330 | random mode reaches the recovery level (bpm 100 or below) only with burnout at most 57, and burnout 57 with noise −5 reaches it |
| Stress.RandomBurnout | neuralator-for-pda/App.tsx:335-339 | a random-walk step stays in [0, 100], moves by at most 15 from a valid level, is exactly burnout + change when that stays in range, 100 above it and 0 below it |
| Stress.HrvBurnout | neuralator-for-pda/App.tsx:356-357 | the watch-feed burnout is floor(clamp(0, 100, 116 − 1.33·HRV)): 0 exactly when the raw value is below 1, 100 exactly when it is at least 100, and otherwise the floor of the raw value |
| Stress.HrvBurnoutAntitone | neuralator-for-pda/App.tsx:356 | a higher HRV never gives a higher burnout |
| Stress.HrvBurnoutAnchors | neuralator-for-pda/App.tsx:352-356 | HRV 20 gives 89, HRV 88 or more gives 0, HRV 12 or less gives 100 |
| Stress.HrvEscalationThreshold | neuralator-for-pda/App.tsx:356-359 | the watch feed forces the app view exactly for HRV 23 or less; a stored burnout above 85 always escalates, but HRV 23 escalates while storing only 85 |
| Stress.BurnoutHrv | neuralator-for-pda/App.tsx:443-446 | the HRV written back after a submit is in [10, 100], and for burnout in [0, 100] it is floor(100·(116 − burnout)/133), in [12, 87], so the clamp never acts |
| Stress.HrvRoundTrip | neuralator-for-pda/App.tsx:443-446 | mapping a burnout to HRV and back yields the same burnout or one more |
| Stress.HrvRoundTripDrifts | neuralator-for-pda/App.tsx:443-446 | burnout 11 becomes HRV 78, which reads back as 12, and no HRV at all reads as 11 |
| Stress.Adjusted | neuralator-for-pda/App.tsx:440 | a submit's burnout is burnout + adjustment clamped to [0, 100], with both saturation directions stated |
| Stress.AdjustedMonotone | neuralator-for-pda/App.tsx:440 | a higher burnout or a higher adjustment never gives a lower result |
| Overload.OverloadEffect | neuralator-for-pda/App.tsx:373-381 | one run of the monitor: overload is entered only above 115 bpm and only from off, the view changes only face→app on that entry (never while already overloaded), a clear is armed (for 5 s) exactly when overloaded at 100 bpm or below, and at 101..115 bpm nothing changes and no clear is left pending; the result is settled |
| Overload.Rerender | neuralator-for-pda/App.tsx:373-381 | the monitor re-runs only when bpm, the flag or the view changed, so an unchanged render keeps the pending clear counting; a settled monitor stays settled |
| Overload.ChangeRestartsClear | neuralator-for-pda/App.tsx:373-381 | while overloaded, a render in which bpm or the view changed cancels a running clear whatever it shows, re-arms it at the full 5 s at 100 bpm or below, and leaves none pending above; the overload stays on |
| Overload.EffectSettlesInOneRun | neuralator-for-pda/App.tsx:373-381 | the re-render caused by the monitor's own writes changes nothing further |
| Overload.ClearTick | neuralator-for-pda/App.tsx:378 | one second of the pending clear counts down by one and clears the overload when it reaches 0 |
| Overload.ClearTicksOverload | neuralator-for-pda/App.tsx:377-379 | an armed clear keeps the overload on for exactly as many seconds as its countdown shows |
| Overload.ClearsAfterFiveSeconds | neuralator-for-pda/App.tsx:377-379 | freshly armed, the overload is still on after 4 s and off after 5 s |
| Animals.ChillAnimal | neuralator-for-pda/App.tsx:8-31 | the animal's rank is 0 for level ≤ 0, 4 above 100 and (level − 1)/20 in between: bands 0-20, 21-40, 41-60, 61-80, 81-100 with inclusive upper edges |
| Animals.ChillAnimalMonotone | neuralator-for-pda/App.tsx:19-31 | a higher level never shows a calmer animal |
| Animals.PulsesIffBear | neuralator-for-pda/App.tsx:34 | the pulse animation is used exactly when the bear is shown |
| Travel.DropFirst | neuralator-for-pda/App.tsx:406 | replace with a one-character pattern leaves a string without it untouched and otherwise removes one character |
| Travel.DropFirstSplit | neuralator-for-pda/App.tsx:406 | the character removed is the first occurrence: p + c + q becomes p + q when p has no c |
| Travel.DigitRun | neuralator-for-pda/App.tsx:406 | the leading run of decimal digits: all characters before it are digits, the next one is not |
| Travel.ParseInt | neuralator-for-pda/App.tsx:406 | parseInt gives a number exactly when the string starts with a digit, NaN otherwise |
| Travel.Decimal | neuralator-for-pda/App.tsx:223-227 | the decimal writing of a number is a non-empty string of digits |
| Travel.DecimalValue | neuralator-for-pda/App.tsx:406 | reading the digits of a number's decimal writing gives back the number |
| Travel.ParseDistanceRoundTrip | neuralator-for-pda/App.tsx:406 | the label "<n>m" parses to n |
| Travel.DigitRunOfDigits | neuralator-for-pda/App.tsx:406 | a string of digits is one whole digit run |
| Travel.QuietZoneDistances | neuralator-for-pda/App.tsx:223-227 | the three zones' labels parse to 45, 120 and 280 metres |
| Travel.PodDistance | neuralator-for-pda/App.tsx:224 | the Blue Sensory Pod's label "45m" parses to 45 |
| Travel.NookDistance | neuralator-for-pda/App.tsx:225 | the Reading Nook's label "120m" parses to 120 |
| Travel.GardenDistance | neuralator-for-pda/App.tsx:226 | the Outdoor Zen Garden's label "280m" parses to 280 |
| Travel.ZoneDistance | neuralator-for-pda/App.tsx:406 | a zone whose label is "<n>m" parses to n |
| Travel.ZoneParses | neuralator-for-pda/App.tsx:223-227 | every offered zone's label parses to a number |
| Travel.TravelStep | neuralator-for-pda/App.tsx:387 | one tick lowers a positive distance by 5, and to 0 when 5 or less is left |
| Travel.TicksToArrive | neuralator-for-pda/App.tsx:385-391 | the interval fires ceil(distance / 5) times before the distance reaches 0 |
| Travel.NearestZoneTicks | neuralator-for-pda/App.tsx:385-391 | the 45 m zone is reached after 9 ticks |
| Gemini.AnalysisFailed | neuralator-for-pda/services/geminiService.ts:56-58 | a failed analysis is not aggressive and adjusts stress by 0 |
| Gemini.ManagerNotification | neuralator-for-pda/services/geminiService.ts:68-70 | the notification is the model's reply when it is non-empty, otherwise the fixed sentence naming the zone; it is never empty |
| Neuralator.Escalated | neuralator-for-pda/App.tsx:341-343 | after a burnout update above 85 the view is the app; otherwise the view is kept |
| Neuralator.FailedAnalysisKeepsBurnout | neuralator-for-pda/App.tsx:440 | submitting when the classifier failed leaves burnout unchanged |
| Neuralator.Watch.constructor | neuralator-for-pda/App.tsx:177-205 | the start-up state: face view, 72 bpm, burnout 15, fifteen history entries of 15, monitoring, no incidents, no overload, random mode with sliders at 75 bpm and 55 ms, no travel and no notification; the invariant holds |
| Neuralator.Watch.MonitorOverload | neuralator-for-pda/App.tsx:373-381 | one run of the overload effect, cleanup first, changes exactly what `Overload.OverloadEffect` describes |
| Neuralator.Watch.Commit | neuralator-for-pda/App.tsx:373-381 | the render after a step re-runs the overload effect exactly when bpm, the flag or the view changed |
| Neuralator.Watch.OverloadClearTick | neuralator-for-pda/App.tsx:378 | one second of the armed clear, with the re-render its clearing causes; the invariant holds |
| Neuralator.Watch.SampleHistory | neuralator-for-pda/App.tsx:313-319 | the history interval stores `Stress.Sampled` of the history and the current burnout; the buffer stays within 20 entries of valid levels |
| Neuralator.Watch.RandomBpmTick | neuralator-for-pda/App.tsx:324-332 | the bpm interval of random mode sets `Stress.RandomBpm` of the burnout and noise, and the overload monitor reacts |
| Neuralator.Watch.RandomBurnoutTick | neuralator-for-pda/App.tsx:334-346 | the burnout interval of random mode sets `Stress.RandomBurnout`; above 85 the view becomes the app, otherwise it is kept; the overload monitor reacts to a view change |
| Neuralator.Watch.SyncWatchFeed | neuralator-for-pda/App.tsx:347-362 | in watch-feed mode bpm becomes the heart-rate slider, unclamped, burnout becomes `Stress.HrvBurnout` of the HRV slider, and an escalating HRV shows the app; in random mode nothing changes |
| Neuralator.Watch.ToggleWatchData | neuralator-for-pda/App.tsx:621 | the switch flips the data source |
| Neuralator.Watch.SetWatchBpm | neuralator-for-pda/App.tsx:636-637 | the slider stores a heart rate in 40..180 |
| Neuralator.Watch.SetWatchHrv | neuralator-for-pda/App.tsx:647-648 | the slider stores an HRV in 10..100 |
| Neuralator.Watch.StartTravel | neuralator-for-pda/App.tsx:405-409 | GO on a zone sets the remaining distance to the parsed label and the destination to the zone's name |
| Neuralator.Watch.TravelTick | neuralator-for-pda/App.tsx:385-388 | one tick sets the distance to `Travel.TravelStep` of it |
| Neuralator.Watch.Arrive | neuralator-for-pda/App.tsx:389-403 | arrival ends the travel, shows the manager notification with a dismissal pending, and resets burnout to 15 and bpm to 70, with the monitor reacting |
| Neuralator.Watch.CancelTravel | neuralator-for-pda/App.tsx:750 | cancelling ends the travel without touching burnout, bpm or the notification |
| Neuralator.Watch.DismissNotification | neuralator-for-pda/App.tsx:760 | the Dismiss button hides the notification |
| Neuralator.Watch.NotificationTimeout | neuralator-for-pda/App.tsx:402 | an 8 s timer hides the notification and is used up |
| Neuralator.Watch.OpenApp | neuralator-for-pda/App.tsx:560-563 | the animal widget on the face shows the app, and the overload monitor reacts to the view change (cancelling and possibly re-arming a pending clear) |
| Neuralator.Watch.PressCrown | neuralator-for-pda/App.tsx:412-431 | every press shows the face; the third press in a row flips witness mode and resets the counter with no timer armed; any other press counts and re-arms the 400 ms window; the counter stays below 3 |
| Neuralator.Watch.CrownWindowExpires | neuralator-for-pda/App.tsx:427-429 | the 400 ms timer resets the counter |
| Neuralator.Watch.SetTranscript | neuralator-for-pda/App.tsx:666 | the input stores the transcript text |
| Neuralator.Watch.SubmitTranscript | neuralator-for-pda/App.tsx:433-461 | a blank transcript changes nothing; otherwise burnout becomes `Stress.Adjusted`, the HRV slider follows via `Stress.BurnoutHrv` in watch-feed mode, and the transcript is cleared; an aggressive verdict prepends exactly one incident quoting the transcript, shows the threat status and arms its 10 s revert; any other verdict shows monitoring and logs nothing |
| Neuralator.Watch.ThreatTimeout | neuralator-for-pda/App.tsx:456 | a 10 s timer puts the status back to monitoring and is used up |
| Scenarios.TriplePress | neuralator-for-pda/App.tsx:412-431 | three presses inside the window flip witness mode once and leave the counter at rest on the face |
| Scenarios.DoublePressThenPause | neuralator-for-pda/App.tsx:412-431 | two presses followed by the window closing leave witness mode unchanged |
| Scenarios.TravelToZone | neuralator-for-pda/App.tsx:383-409 | a whole trip to a zone takes ceil(metres / 5) ticks, nine to the nearest zone, and ends at burnout 15 and 70 bpm with the zone's notification shown |
| Scenarios.InterruptedRecovery | neuralator-for-pda/App.tsx:373-381 | overloaded at 95 bpm, a rise to 105 after two seconds of the clear keeps the overload on with no clear pending, and back at 95 the overload ends only after five more uninterrupted seconds |
| Scenarios.OverloadAndRecovery | neuralator-for-pda/App.tsx:373-381 | 120 bpm enters overload and shows the app; dropping to 90 bpm clears it after exactly five one-second ticks |

## Left out

- Rendering: the JSX, SVG, colours, sizes and the stress graph's coordinates are view code and are not modelled.
- Speech recognition and its witness-mode microphone sync: a browser callback API. Witness mode is kept only as a boolean.
- Screen-width detection and the clock tick read the window and the wall clock. The incident's time stamp is a parameter of `Neuralator.Watch.SubmitTranscript`.
- The text-model client is not part of this model. The classifier's verdict and the notification reply are parameters of the steps that receive them. The JSON decoding of the verdict and the prompt texts are left out.
- Neuralator.Watch.SubmitTranscript: the source awaits the classifier and then adjusts the burnout it read before the wait, and it shows a busy flag meanwhile. The model runs the submit as one atomic step on the current burnout and leaves the busy flag out.
- Neuralator.Watch.Arrive: the source clears the destination at once and writes the notification, burnout and bpm only after the notification call returns. The model does both in one step.
- Neuralator.Watch.StartTravel: only the three offered zones can be chosen, as in the source's map. parseInt's handling of signs, leading white space, other radices and labels without digits is not modelled, since no offered label needs it.
- Wall-clock scheduling: each interval or timeout body is a step the environment may run whenever its precondition holds. This over-approximates the source: `Neuralator.Watch.SyncWatchFeed` may run even when none of the simulation effect's dependencies changed, and `Neuralator.Watch.CancelTravel`, `Neuralator.Watch.DismissNotification` and `Neuralator.Watch.StartTravel` may run in either view, while their buttons are only on the app screen. The invariant `Neuralator.Watch.Valid` and the step contracts therefore also hold on the source's narrower schedules. The periods (1 s, 3 s, 4 s, 6 s, 400 ms, 5 s, 8 s, 10 s) are not compared with each other. Intervals restarting whenever the simulation effect re-runs only shifts timing and is not modelled.
- Floating point: no IEEE rounding is modelled. The decimal constants are replaced by exact integer fractions, and these agree with the floored results for the integer inputs the app produces.
- The analysis severity is carried in `Types.AnalysisResult` but nothing computes with it.
