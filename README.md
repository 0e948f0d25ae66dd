# Start-sequence countdown, verified model

This project models the start-sequence countdown of a sailing race-committee web page, and proves properties of the model. The countdown exists in two versions of the page script:

- `countdown.js` is the current version.
- `countdown_bu.js` is an older backup.

In each version, a catalog maps a sequence key ("5" or "3") to a duration and an ordered list of signals `{time, sound, text}`. The page keeps a count `timeLeft`. Starting sets an interval that lowers the count once a second. After each step the page re-renders the `m:ss` display and fires every catalog signal whose time equals the new count, in list order. Stop resets the count. A separate button sounds the horn by hand.

`countdown.js` also holds a tacking advisor. The model covers its four pure angle helpers:

- normalising a bearing;
- the signed difference of two bearings;
- the current tack;
- the header / lift verdict.

Modules:

- `JsSemantics` (`js_semantics.dfy`): JavaScript's truncating `%`, `Math.floor` division, `null`, and the decimal text a template literal produces. It proves the truncating remainder, shifted when negative, equals Dafny's Euclidean one. It also proves decimal text parses back.
- `ClockFace` (`clock_face.dfy`): the `m:ss` rendering both versions share. For a non-negative count it is the minutes, a colon and two digits, and it reads back as the count.
- `StartSequence` (`start_sequence.dfy`): what both versions share:
  - the catalog's shape and the page state;
  - signal dispatch (`filter` + `forEach`);
  - the start, stop, selector-change and horn handlers, as functions on the state;
  - which entries a countdown over a range of counts fires.
- `CountdownRun` (`countdown_run.dfy`): the interval callback and uninterrupted runs, stated once for both versions. The run functions differ only in the lowest count at which the callback keeps its interval (the callbacks also call different display routines, which the page classes model):
  - 0 in `countdown.js`, which clears it once `timeLeft < 0`;
  - 1 in `countdown_bu.js`, which clears it once `timeLeft <= 0`.
- `Countdown` (`countdown.dfy`): `countdown.js`:
  - its catalog;
  - the display with its "GO!" case;
  - the class `CountdownPage`, whose methods update the page's variables in place and are proved against the state functions.
- `CountdownBackup` (`countdown_backup.dfy`): `countdown_bu.js`. It has its own catalog, an always-`m:ss` display, and its own `CountdownPage` class.
- `WindAngles` (`wind_angles.dfy`): `normalizeAngle`, `angleDifference`, `getCurrentTack` and `checkHeaderLift`.

How the page is modelled:

- **The timer.** The interval handle is the `ticking` flag. The interval callback is the method `OnTick`, which can be called only while the flag is set. `Run(c, s, lowest, n)` is the state after `n` timer periods.
- **Sound.** Playback is a trace `played` of the sounds started, in order.
- **The display.** Every write of the count is followed by a display update. So each page class keeps `display == Display(timeLeft)` (or `ClockText(timeLeft)` in the backup) as an invariant in `Valid()`, rather than as part of `State`.

Behaviour the model keeps:

- **Unknown selector keys.** Changing the selector to a value that is not a catalog key is accepted. The change listener runs `stopCountdown`, which keeps that key selected and resets the count to 300 (`Reselected`, `ResetDuration`).
- **The end of a `countdown.js` run.** The interval is cleared only once the count is below 0. So a run makes one silent extra tick and ends at -1 (`FinalTickSilent`). The backup stops at 0 (`PageRunEndsOnStart`).
- **"GO!" display.** Only `countdown.js` shows "GO!". The backup shows "0:00" at the end.

## Model

| member | source | states |
|---|---|---|
| JsSemantics.Rem | countdown.js:52 | JavaScript's `%`: the remainder lies strictly between -m and m, has the sign of the dividend, and together with the truncated quotient rebuilds the dividend |
| JsSemantics.FloorDiv | countdown.js:51 | `Math.floor(a / m)`: the largest q with m*q <= a |
| JsSemantics.RemShifted | countdown.js:262-263 | the truncating remainder, moved up by m when negative, equals the Euclidean remainder |
| JsSemantics.NatText | countdown.js:56 | `${n}` for a natural number below 1e21; its properties are stated by `NatTextDigits` and `ParseNatText` |
| JsSemantics.NatTextDigits | countdown.js:56 | the decimal text of a natural number is non-empty and all digits, with no leading zero, and is one character exactly when the number is below 10 |
| JsSemantics.ParseNatText | countdown.js:56 | the decimal text of a natural number reads back as that number |
| JsSemantics.IntText | countdown.js:56 | `${n}` for an integer of magnitude below 1e21: a minus sign and the magnitude's digits for a negative number, the digits alone otherwise; its properties are stated by `IntTextRoundTrip` |
| JsSemantics.IntTextRoundTrip | countdown.js:56 | the text of an integer starts with '-' exactly when it is negative, and the digits after any sign read back as its magnitude |
| ClockFace.ClockText | countdown_bu.js:41-45 | the template `${minutes}:${seconds < 10 ? '0' : ''}${seconds}` over `Math.floor` and `%`; its properties are stated by `ClockTextOfNatural` and `ParseClockText` |
| ClockFace.ClockTextOfNatural | countdown_bu.js:41-45 | for a count t >= 0, `updateDisplay` shows the minutes `t / 60`, a colon and exactly two digits of `t % 60` |
| ClockFace.ParseClockText | countdown_bu.js:41-45 | the `m:ss` text of a non-negative count reads back as that count |
| ClockFace.ClockTextInjective | countdown_bu.js:41-45 | two different non-negative counts never show the same text |
| ClockFace.ClockExamples | countdown_bu.js:41-45 | 300 shows "5:00", 65 shows "1:05", 9 shows "0:09" |
| StartSequence.Matching | countdown.js:63 | the filter keeps only entries whose time equals the count, and never more entries than the list has |
| StartSequence.MatchingMembers | countdown.js:63 | an entry is in the filtered list exactly when it is in the catalog list and its time equals the count |
| StartSequence.MatchingAppend | countdown.js:63 | the filter preserves order: filtering a concatenation concatenates the filtered parts |
| StartSequence.MatchingNone | countdown_bu.js:51 | with no entry at the count, the filter is empty |
| StartSequence.SoundsAppend | countdown.js:64-68 | the sounds played for consecutive groups of entries are played one group after the other |
| StartSequence.LastTextAppend | countdown.js:69 | after several groups of entries, the status is the last entry's text, or the earlier status when no entry was seen |
| StartSequence.PrefixStep | countdown.js:64-71 | one `forEach` step plays the entry's sound after the earlier ones when it is not `null`, and leaves its text as the status |
| StartSequence.Dispatch | countdown.js:60-72 | `playCountdownSignal` / `playSignal` change only the played trace and the status, and only append to the trace |
| StartSequence.DispatchWithoutMatch | countdown.js:60-72 | with no entry at the current count, dispatch plays nothing and leaves the status as it was |
| StartSequence.DispatchFrame | countdown.js:60-72 | every sound dispatch plays is the sound of a catalog entry at the current count |
| StartSequence.SoundsFrom | countdown.js:65-67 | only non-null sounds of the dispatched entries are played |
| StartSequence.HornSounded | countdown.js:110-114 | the manual horn appends the horn to the trace and sets the status to "Manual Horn Sounded"; the count, the interval, the selection and the buttons are unchanged |
| StartSequence.ResetDuration | countdown.js:100-101 | the reset count is the selected duration, or 300 for an unknown key, and is positive for a well-formed catalog |
| StartSequence.Stopped | countdown.js:97-106 | stop clears the interval and resets the count. It sets status "Sequence Stopped/Reset.", enables Start and disables Stop; the selection and the trace are kept |
| StartSequence.StopIdempotent | countdown.js:97-106 | stopping twice equals stopping once |
| StartSequence.Reselected | countdown.js:117 | a selector change leaves a stopped page for the new key, keeps the trace, and for the current key equals a plain stop |
| StartSequence.Started | countdown.js:74-95 | start always clears the interval first. It sets a new one exactly for a known key, and then the count is the duration, Start is disabled and Stop enabled. An unknown key changes nothing else |
| StartSequence.StartKnown | countdown.js:82-94 | start with a known key sets the count to the duration and dispatches exactly the entries at it, then sets the interval, disables Start and enables Stop |
| StartSequence.RestartSameCount | countdown.js:74-95 | starting again while running restarts from the same state, apart from the sounds and status of the repeated first dispatch |
| StartSequence.DescendingHead | countdown_bu.js:19-39 | in a list ordered by strictly falling time, every entry lies between the last entry's time and the first's |
| StartSequence.FiredFromExtend | countdown.js:85-92 | one more tick of a run dispatches the entries at the new count after all earlier ones |
| StartSequence.FiredFromAll | countdown_bu.js:19-39 | sweeping the counts from the top down over a list of strictly falling times dispatches the whole list, each entry once, in list order |
| StartSequence.RunFiresEachSignalOnce | countdown_bu.js:19-39 | for a well-formed sequence, visiting every count from its duration down to 0 fires each signal exactly once, in descending time order |
| StartSequence.TraceStep | countdown.js:85-92 | the run's dispatched entries after one more tick are those before it plus the entries at the new count |
| CountdownRun.Ticked | countdown.js:85-92 | the interval callback lowers the count by exactly 1, keeps the interval exactly while the new count is at least the version's lowest running count, and changes nothing else but the trace and status |
| CountdownRun.Run | countdown.js:85-92 | after n periods the selection is unchanged and the count has fallen by at most n; without an interval nothing changes |
| CountdownRun.HandlersKeepConsistent | countdown.js:74-117 | start, tick, stop, selector change and horn keep the count at least lowest - 1, and set the interval only for a known sequence with a count in [lowest, duration] (lowest is 0 here, 1 in countdown_bu.js) |
| CountdownRun.TickStep | countdown.js:85-92 | a tick dispatches exactly the entries at the new count and clears the interval exactly when the new count is below the lowest running count (`timeLeft < 0` here, `timeLeft <= 0` at countdown_bu.js:79) |
| CountdownRun.RunProgress | countdown.js:74-95 | k periods after a start, for k up to duration + 1 - lowest, the count is duration - k. Exactly the entries for the counts visited so far have fired |
| CountdownRun.ProgressByTick | countdown.js:85-92 | each tick of an uninterrupted run advances it by one period |
| CountdownRun.RunToEnd | countdown_bu.js:74-83 | an uninterrupted run keeps its interval for duration + 1 - lowest ticks and ends at lowest - 1 with the interval cleared. Every catalog sound has played once, in descending time order, and the status is the last entry's text |
| CountdownRun.RunStaysFinished | countdown.js:89-91 | once the interval is cleared, further periods change nothing |
| CountdownRun.RunStaysInRange | countdown_bu.js:74-83 | however many periods pass after a start, the count stays within [lowest - 1, duration] |
| Countdown.Sequences | countdown.js:19-48 | the catalog, entry for entry: keys "5" and "3", strictly falling times from the duration down to 0, both ending on the silent "GO!" entry |
| Countdown.Display | countdown.js:50-58 | the display is "GO!" exactly when the count is not positive, and otherwise reads back as the count |
| Countdown.DisplayText | countdown.js:56 | for a positive count the display is the minutes, a colon and exactly two digits of seconds |
| Countdown.DisplayExamples | countdown.js:50-58 | 300 shows "5:00", 65 shows "1:05", 9 shows "0:09", and 0 and -1 show "GO!" |
| Countdown.FinalTickSilent | countdown.js:85-92 | a run ticks duration + 1 times: the last tick takes the count from 0 to -1, clears the interval, plays nothing and shows "GO!" |
| Countdown.PageRunEndsOnGo | countdown.js:19-92 | on the page's own catalog a run ends at -1 with display and status "GO!" |
| Countdown.CountdownPage.constructor | countdown.js:116 | initialisation runs `stopCountdown` on the page catalog |
| Countdown.CountdownPage.UpdateCountdownDisplay | countdown.js:50-58 | writes the display for the current count and changes nothing else |
| Countdown.CountdownPage.PlayCountdownSignal | countdown.js:60-72 | filtering the entries at the current count and running the `forEach` over them yields exactly the dispatch of the current count; an unknown key dispatches nothing |
| Countdown.CountdownPage.PlayEach | countdown.js:64-71 | the `forEach` loop appends the non-null sounds of the entries in order and leaves the last entry's text, or the old status when there is none; nothing else changes |
| Countdown.CountdownPage.StartCountdown | countdown.js:74-95 | the new state is the start of the old one, and the page invariant holds |
| Countdown.CountdownPage.OnTick | countdown.js:85-92 | the new state is one tick of the old one with lowest running count 0, and the page invariant holds |
| Countdown.CountdownPage.StopCountdown | countdown.js:97-106 | the new state is the reset of the old one, and the page invariant holds |
| Countdown.CountdownPage.ChangeSequence | countdown.js:117 | selecting a key then resets as stop does |
| Countdown.CountdownPage.SoundHorn | countdown.js:110-114 | plays the horn and sets the horn status, nothing else |
| CountdownBackup.Sequences | countdown_bu.js:19-39 | the catalog, entry for entry: keys "5" and "3", distinct and strictly falling times from the duration down to 0, both ending on the starting signal |
| CountdownBackup.DisplayExamples | countdown_bu.js:41-45 | 300 shows "5:00", 65 shows "1:05", 9 shows "0:09", and 0 shows "0:00", not "GO!" |
| CountdownBackup.RunNeverNegative | countdown_bu.js:74-83 | however many periods pass after a start, the count stays within [0, duration] |
| CountdownBackup.PageRunEndsOnStart | countdown_bu.js:19-83 | on the page's own catalog a run ticks exactly duration times and ends at 0 showing "0:00" with status "Starting Signal" and the interval cleared |
| CountdownBackup.CountdownPage.constructor | countdown_bu.js:106-107 | initialisation runs `stopCountdown` on the page catalog |
| CountdownBackup.CountdownPage.UpdateDisplay | countdown_bu.js:41-45 | writes the `m:ss` display for the current count and changes nothing else |
| CountdownBackup.CountdownPage.PlaySignal | countdown_bu.js:47-60 | filtering the entries at the current count and running the `forEach` over them yields exactly the dispatch of the current count; an unknown key dispatches nothing |
| CountdownBackup.CountdownPage.PlayEach | countdown_bu.js:52-59 | the `forEach` loop appends the non-null sounds of the entries in order and leaves the last entry's text, or the old status when there is none; nothing else changes |
| CountdownBackup.CountdownPage.StartCountdown | countdown_bu.js:62-86 | the new state is the start of the old one, and the page invariant holds |
| CountdownBackup.CountdownPage.OnTick | countdown_bu.js:74-83 | the new state is one tick of the old one with lowest running count 1, and the page invariant holds |
| CountdownBackup.CountdownPage.StopCountdown | countdown_bu.js:88-96 | the new state is the reset of the old one, and the page invariant holds |
| CountdownBackup.CountdownPage.ChangeSequence | countdown_bu.js:108 | selecting a key then resets as stop does |
| CountdownBackup.CountdownPage.SoundHorn | countdown_bu.js:100-104 | plays the horn and sets the horn status, nothing else |
| WindAngles.NormalizeAngle | countdown.js:261-265 | the result is in [0, 360) and congruent to the input modulo 360 |
| WindAngles.AngleDifference | countdown.js:266-271 | the result is in [-180, 180] and congruent to angle2 - angle1 modulo 360 |
| WindAngles.AngleDifferenceSwap | countdown.js:266-271 | exchanging the bearings negates the difference, half a turn included (180 becomes -180) |
| WindAngles.GetCurrentTack | countdown.js:273-279 | "unknown" exactly when a reading is null. "port" exactly when the difference is in (-175, -5), "starboard" exactly when it is in (5, 175), and "in_irons_or_downwind" otherwise |
| WindAngles.TackMirror | countdown.js:273-279 | exchanging heading and wind direction exchanges port and starboard |
| WindAngles.StartsWith | countdown.js:282 | `currentTack.startsWith("in_irons")`: the string's first characters are the prefix; used by `HeaderLiftOnlyOnTack` |
| WindAngles.Abs | countdown.js:283 | `Math.abs`: the result is non-negative and is the argument or its negation |
| WindAngles.CheckHeaderLift | countdown.js:281-288 | "not_close_hauled" exactly when a reading is null or the tack starts with "in_irons". Otherwise "header" exactly when the angle to the wind exceeds optimal + 7, "lift" exactly when it is below optimal - 7, and "on_optimal_angle" exactly when it is within 7 of optimal |
| WindAngles.HeaderLiftOnlyOnTack | countdown.js:273-288 | given the tack computed from the same readings, a verdict other than "not_close_hauled" comes exactly when the boat is on port or starboard, and the angle to the wind is then strictly between 5 and 175 |
| WindAngles.HeaderLiftMonotone | countdown.js:281-288 | a narrower angle to the wind never gives a worse verdict (lift, then on optimal, then header) |

## Left out

- DOM lookups, `alert`, and `console.log`/`console.error`: UI and logging. Only the display text, the status text and the two buttons' `disabled` flags are modelled.
- Audio playback (`play()` promises, `currentTime = 0`, errors while playing, which are only logged). The model keeps a trace of the sounds started instead. A missing audio element (`getElementById` returning `null`) is not modelled: every catalog sound is taken to exist.
- Real `setInterval`/`clearInterval` timing. It is a flag plus an explicit `OnTick` call.
- CountdownPage.OnTick: requires the interval to be set, because the browser only runs the callback while it is. This also holds in `CountdownBackup`.
- The catalog lookup `sequences[key]` is a map lookup. JavaScript would also find inherited object properties such as "toString" as keys; the model does not.
- CountdownPage.StopCountdown: requires a well-formed catalog. The page only ever holds its own literal catalog, which satisfies this (the contract of `Sequences`).
- The GPS geolocation watch, the course planner (its trigonometry and DOM output), `getTackingAdviceNow` and its button, the advice poll, and the placeholder `calculateBearing`/`calculateDistance`. These are browser I/O, floating-point numerics or constant stubs.
- JsSemantics.NatText: JavaScript numbers are doubles, so `${n}` is plain decimal text only below 1e21 (from 1e21 up it switches to exponent form, "1e+21"); the model writes plain digits for every natural. The page's counts stay within [-1, 300], so no modelled behaviour reaches that range.
- JsSemantics.IntText: the same bound as `NatText`, for the magnitude of a negative number.
- WindAngles.NormalizeAngle: angles are whole degrees. The source takes JavaScript numbers, so fractional bearings are not modelled.
- WindAngles.CheckHeaderLift: the optimal close-hauled angle is a whole number of degrees, not a float.
