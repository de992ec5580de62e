# Exercise counters and tracking metrics

This project models the core of a Next.js fitness application. The browser
runs a pose estimator on the camera stream. Each page then turns the stream of
poses, frame by frame, into a repetition count:

- the squat page counts knee-angle cycles (below 100°, then above 160°);
- the push-up page counts elbow-angle cycles (below 90°, then above 150°) while
  the torso lies horizontal;
- the bench-dip ("biceps") page averages both arms, smooths the angle over the
  last five frames and refuses a repetition closer than 800 ms to the previous
  one;
- the jumping-jack page opens on hands up and feet apart, and counts on hands
  down and feet together;
- the combined pose-detector component runs four detectors on every pose:
  squat, push-up, a five-frame-confirmed jumping jack, and a vertical jump
  whose ground level is calibrated from the first sixty frames.

On the server, `addOrUpdateTracking` adds repetitions to today's
`ExerciseTracking` record of an exercise, creating the record when there is
none. `updateNoteTracking` sets the note of a record the user owns.
`getExerciseMetrics` and its companions group the records by day, total them
by period, count active days and compare weeks and months. The metrics page
colours a calendar heatmap from the per-day groups.

Modules:

- `PhaseMachine`: the two-threshold "down, then up" state machine that every
  counter shares, and its runs over a sequence of angles.
- `Keypoints`: keypoint frames, score gates, averages of the available sides.
- `SquatPage`, `PushUpPage`, `BicepsPage`, `JumpingJacksPage`: one class per
  page holding the page's refs and counter. Each detection method is proved
  equal to a pure step function, and the properties are lemmas about that
  function and its runs.
- `PoseDetector`: the combined component as a class with the four detectors'
  state.
- `Tracking`, `RegisterTracking`, `UpdateNote`, `TrackingTable`: the record
  table, the two server actions as functions over it, and a class for the
  table that the actions update in place.
- `ExerciseMetrics`: per-day grouping (a loop proved against a functional
  specification), period totals, active days and the change percentage.
- `Metricas`: the heatmap's class and tooltip attributes.
- `Strings`, `Wrappers`: decimal rendering and parsing, `Join`, and
  `Option`/`Result`.

The joint angle (`getAngle`, an `acos` of a dot product) enters as a parameter
`angle: AngleFn`. The clock (`Date.now()`, `new Date()`) enters as a `now`
parameter in milliseconds. The session enters as an `Option<string>` user id.

## Model

| member | source | states |
|---|---|---|
| PhaseMachine.Toggle | app/detectSquat/ui/SquatDetector.tsx:169-175 | the "enter" test runs before the "exit" test in the same frame: the count grows by one exactly when the exit test holds and the phase was, or has just become, down; the new phase is down exactly when it was or became down and did not exit |
| PhaseMachine.ToggleConserves | app/detectSquat/ui/SquatDetector.tsx:169-175 | one frame conserves count plus "currently down": the sum grows by one exactly when the frame enters the down phase from up |
| PhaseMachine.HysteresisBand | app/detectSquat/ui/SquatDetector.tsx:169-175 | an angle between the two thresholds changes neither the phase nor the count |
| PhaseMachine.HysteresisTransitions | app/detectSquat/ui/SquatDetector.tsx:169-175 | below the lower threshold an up phase goes down without counting; the count grows exactly on a down phase above the upper threshold, which also ends the down phase |
| PhaseMachine.RunConserves | app/detectSquat/ui/SquatDetector.tsx:169-175 | over any run, final count plus "still down" equals initial count plus "was down" plus the number of descents, so every counted repetition was preceded by a descent |
| PhaseMachine.RunCountBounds | app/detectSquat/ui/SquatDetector.tsx:169-175 | the count never decreases and grows by at most one per frame |
| PhaseMachine.RunInBand | app/detectSquat/ui/SquatDetector.tsx:169-175 | angles that all stay between the thresholds leave the state unchanged |
| Keypoints.Abs | app/pushUp/page.tsx:156 | `Math.abs`: non-negative and equal to the argument or its negation |
| Keypoints.SumBounds | app/detectSquat/ui/SquatDetector.tsx:166 | the `reduce` sum of values within bounds lies between length·low and length·high |
| Keypoints.MeanBounds | app/biceps/page.tsx:177-179 | the average of a non-empty list lies within any bounds of its elements |
| Keypoints.MeanOfOne | app/detectSquat/ui/SquatDetector.tsx:166 | the average of one angle is that angle |
| Keypoints.MeanOfTwo | app/detectSquat/ui/SquatDetector.tsx:166 | the average of two angles is their half-sum |
| Keypoints.BestAvailable | app/detectSquat/ui/SquatDetector.tsx:138-166 | no angle when neither side is valid, the one valid side's angle, or the half-sum of both |
| SquatPage.SignalSides | app/detectSquat/ui/SquatDetector.tsx:122-166 | the averaged knee angle exists exactly when a leg has hip, knee and ankle above 0.5; it is that leg's angle or the mean of both |
| SquatPage.SquatCounter.constructor | app/detectSquat/ui/SquatDetector.tsx:18-20 | the counter starts up, at zero |
| SquatPage.SquatCounter.DetectSquat | app/detectSquat/ui/SquatDetector.tsx:113-176 | the method's new (isDown, count) is the step function of the old state and the frame |
| SquatPage.GateSkips | app/detectSquat/ui/SquatDetector.tsx:138 | a frame with neither leg valid changes nothing |
| SquatPage.StepTransitions | app/detectSquat/ui/SquatDetector.tsx:169-175 | below 100° an up phase goes down; the count grows exactly on a down phase above 160°, which ends it; between 100° and 160° nothing changes |
| SquatPage.StepCount | app/detectSquat/ui/SquatDetector.tsx:169-175 | one frame adds at most one squat |
| SquatPage.RunIsHysteresisRun | app/detectSquat/ui/SquatDetector.tsx:113-176 | the page over a frame sequence is the shared state machine over the angles of its valid frames |
| SquatPage.RunCounts | app/detectSquat/ui/SquatDetector.tsx:113-176 | over a frame sequence the count grows by at most one per frame, and every counted squat was preceded by a descent |
| SquatPage.SignalsLength | app/detectSquat/ui/SquatDetector.tsx:138 | skipped frames contribute no angle |
| SquatPage.Traces | app/detectSquat/ui/SquatDetector.tsx:169-175 | up-down-down-up counts one squat; a trace that ends down has counted none yet |
| PushUpPage.PushUpCounter.constructor | app/pushUp/page.tsx:25-26 | the counter starts up, at zero |
| PushUpPage.PushUpCounter.DetectPushUp | app/pushUp/page.tsx:132-176 | the method's new state is the step function of the old state and the frame |
| PushUpPage.SkippedFrames | app/pushUp/page.tsx:141-157 | a missing keypoint, an arm or hip score below 0.3, a nose score below 0.4, or nose and hip more than 100 px apart vertically leaves the state unchanged |
| PushUpPage.StepTransitions | app/pushUp/page.tsx:165-175 | on an accepted frame, below 90° goes down; the count grows exactly on a down phase above 150°, which ends it; at most one per frame |
| PushUpPage.Signals | app/pushUp/page.tsx:141-160 | the accepted frames yield at most one elbow angle each |
| PushUpPage.RunIsHysteresisRun | app/pushUp/page.tsx:132-176 | the page over frames is the shared state machine over the elbow angles of its accepted frames |
| PushUpPage.RunCounts | app/pushUp/page.tsx:132-176 | at most one push-up per frame, and every counted push-up was preceded by a descent |
| BicepsPage.Push | app/biceps/page.tsx:173-176 | the history gains the new angle at its end and keeps at most five, dropping the oldest |
| BicepsPage.BenchDipCounter.constructor | app/biceps/page.tsx:18-23 | empty history, up, zero repetitions, last repetition at time 0 |
| BicepsPage.BenchDipCounter.DetectBenchDip | app/biceps/page.tsx:122-205 | the method's new (history, isDown, count, last time) is the step function of the old state, the frame and the time |
| BicepsPage.BenchDipCounter.Record | app/biceps/page.tsx:172-204 | pushing one averaged angle and applying the thresholds is the update function of the old state |
| BicepsPage.GateSkips | app/biceps/page.tsx:136-151 | a frame with no arm whose three keypoints all score above 0.4 changes nothing, the history included |
| BicepsPage.UpdateTransitions | app/biceps/page.tsx:189-204 | below 90° (smoothed) an up phase goes down; a repetition is counted exactly on a down phase above 160° more than 800 ms after the last one, and then the last time becomes now; otherwise the last time stays |
| BicepsPage.DebounceKeepsDown | app/biceps/page.tsx:195-199 | an up movement within 800 ms of the last repetition is ignored and stays down |
| BicepsPage.DebounceExamples | app/biceps/page.tsx:186-199 | 500 ms after a repetition a second one is refused; 900 ms after it is counted |
| BicepsPage.DebounceRun | app/biceps/page.tsx:185-204 | over any sequence of frames the counted repetitions have times more than 800 ms after the starting time and more than 800 ms apart from each other, and the last one is the stored time |
| BicepsPage.StepDebounce | app/biceps/page.tsx:185-204 | one frame adds at most one repetition, and only at a time more than 800 ms after the stored one, which it then stores |
| BicepsPage.LastN | app/biceps/page.tsx:173-176 | keeping the last n values keeps at most n |
| BicepsPage.PushLastN | app/biceps/page.tsx:173-176 | pushing onto the last five values gives the last five of the extended list |
| BicepsPage.HistoryIsLastFive | app/biceps/page.tsx:173-179 | after any run the history holds exactly the last five averaged angles of the valid frames |
| JumpingJacksPage.JumpingJackCounter.constructor | app/JumpingJacksDetector/page.tsx:17-20 | closed, at zero |
| JumpingJacksPage.JumpingJackCounter.DetectJumpingJack | app/JumpingJacksDetector/page.tsx:107-198 | the method's new (isOpen, count) is the step function of the old state and the frame |
| JumpingJacksPage.GateSkips | app/JumpingJacksDetector/page.tsx:125-142 | a frame missing a keypoint or below its per-joint score threshold changes nothing |
| JumpingJacksPage.StepTransitions | app/JumpingJacksDetector/page.tsx:172-196 | a closed state opens exactly on hands above shoulders and feet more than 116 px apart; the count grows exactly from open with hands down and feet under 48 px apart, which closes it; between 48 and 116 px nothing changes |
| JumpingJacksPage.RunConserves | app/JumpingJacksDetector/page.tsx:183-196 | over any run, count plus "open" equals its initial value plus the number of openings; from rest there are never more jumping jacks than openings |
| PoseDetector.PushUpAsOnPage | components/PoseDetector.tsx:184-223 | the component's push-up gate (every score at least 0.5, torso horizontal) implies the page's gate, and then both take the same 90/150 step; a frame it rejects changes nothing |
| PoseDetector.JackStepRules | components/PoseDetector.tsx:243-324 | a frame missing one of the eight keypoints or below 0.6 changes nothing; an open pose extends the open streak and resets the closed one, and conversely; any other pose resets both; opening needs five open frames, counting needs five closed frames from open |
| PoseDetector.JackPoses | components/PoseDetector.tsx:259-288 | the accepted frames yield at most one pose each |
| PoseDetector.Trailing | components/PoseDetector.tsx:303-312 | the length of the run of one pose at the end of a pose sequence |
| PoseDetector.JackCountersAreStreaks | components/PoseDetector.tsx:303-312 | from the initial state, the open and closed frame counters equal the lengths of the trailing runs of open and closed poses |
| PoseDetector.JackNeedsFiveFrames | components/PoseDetector.tsx:314-324 | the phase opens only after the last five accepted poses were all open, and a jumping jack is counted only after the last five were all closed |
| PoseDetector.JumpCalibrationRules | components/PoseDetector.tsx:346-366 | a frame without both ankles at 0.5 changes nothing; before calibration a frame only appends its ankle height, and the ground is set exactly when 60 heights are collected; afterwards calibration never changes |
| PoseDetector.JumpRegionRules | components/PoseDetector.tsx:369-386 | more than 30 px above ground extends the air streak, less than 10 px above ground extends the ground streak, in between nothing changes; a jump starts only after three air frames and is counted only after three ground frames |
| PoseDetector.AnkleYs | components/PoseDetector.tsx:346-354 | the valid frames yield at most one ankle height each |
| PoseDetector.Calibration | components/PoseDetector.tsx:356-366 | before 60 valid frames the state only holds their heights; from the 60th on the ground level is the mean of the first 60 heights and stays so |
| PoseDetector.PoseDetectorComponent.constructor | components/PoseDetector.tsx:179-241 | every detector starts at rest, empty and uncalibrated |
| PoseDetector.PoseDetectorComponent.OnPose | components/PoseDetector.tsx:61-66 | one pose goes through the squat, push-up, jumping-jack and vertical-jump detectors, and the new state is their four steps |
| PoseDetector.PoseDetectorComponent.DetectSquat | components/PoseDetector.tsx:105-176 | the squat detector takes the squat page's step and touches no other detector |
| PoseDetector.PoseDetectorComponent.DetectPushUp | components/PoseDetector.tsx:184-233 | the push-up detector takes the component's push-up step and touches nothing else |
| PoseDetector.PoseDetectorComponent.DetectJumpingJack | components/PoseDetector.tsx:243-325 | the jumping-jack detector takes the streak-counting step and touches nothing else |
| PoseDetector.PoseDetectorComponent.DetectVerticalJump | components/PoseDetector.tsx:338-387 | the vertical-jump detector takes the calibrate-then-threshold step and touches nothing else |
| Strings.NatToString | components/Metricas.tsx:94-95 | decimal digits of a count, no leading zero |
| Strings.ParseNatToString | components/Metricas.tsx:94-95 | reading back the digits gives the number |
| Strings.IntToString | components/Metricas.tsx:82 | a sign exactly for negatives, then the digits |
| Strings.ParseIntToString | components/Metricas.tsx:82 | reading back the rendering gives the integer |
| Strings.IntToStringInjective | components/Metricas.tsx:82 | different integers render differently |
| Strings.JoinLength | components/Metricas.tsx:96 | `join` of n parts is their total length plus n-1 separators, and empty for no parts |
| Tracking.FindFirst | actions/RegisterTracking.ts:37-46 | `findFirst`: the first matching record's position, or none exactly when no record matches |
| Tracking.RepsWhereUpdate | actions/RegisterTracking.ts:52-58 | replacing one record changes the sum of matching repetitions by exactly that record's part |
| Tracking.FindFirstSnoc | actions/RegisterTracking.ts:37-46 | appending a record leaves an earlier first match in place, and is the first match otherwise when it matches |
| Tracking.Filter | actions/getExerciseMetrics.ts:143-148 | a `where` filter keeps only matching records of the table |
| RegisterTracking.UpsertIndex | actions/RegisterTracking.ts:37-50 | the updated position is inside the table exactly when today's record for this user and exercise exists |
| RegisterTracking.Upsert | actions/RegisterTracking.ts:48-70 | the table grows by one record exactly when none was found |
| RegisterTracking.UpsertUpdates | actions/RegisterTracking.ts:50-58 | when today's record exists, the first one gains the repetitions, keeps its id, user, exercise and date, takes the new note only when one is given, and no other record changes |
| RegisterTracking.UpsertCreates | actions/RegisterTracking.ts:59-70 | when none exists, a new record with the fresh id, the user, the exercise, the current time, the repetitions and the note is appended |
| RegisterTracking.UpsertLeavesOthers | actions/RegisterTracking.ts:48-70 | every record of another user, exercise or day is unchanged |
| RegisterTracking.UpsertAccumulates | actions/RegisterTracking.ts:48-70 | today's repetitions of the exercise grow by exactly the repetitions given, and every sum that excludes today's exercise is unchanged |
| RegisterTracking.UpsertKeepsOnePerDay | actions/RegisterTracking.ts:36-70 | a table with at most one record per user, exercise and day keeps that property |
| UpdateNote.SetNote | actions/updateNote.ts:35-43 | setting a note keeps the table's length |
| UpdateNote.SetNoteResult | actions/updateNote.ts:26-46 | the action returns a record exactly when the user owns a record with that id, and that record has the id, the user and the new note |
| UpdateNote.SetNoteOnlyOwnedNotes | actions/updateNote.ts:35-43 | only the note of the user's record with that id can change; every other field and record stays |
| UpdateNote.SetNoteFoundOrNot | actions/updateNote.ts:26-46 | without an owned record the table is unchanged and nothing is returned; a returned record is in the new table |
| TrackingTable.UpsertKeepsIds | actions/RegisterTracking.ts:48-70 | the upsert keeps ids distinct and below the next free id, counting the new one |
| TrackingTable.SetNoteKeepsIds | actions/updateNote.ts:35-43 | setting a note keeps ids distinct and below the next free id |
| TrackingTable.PositionIsId | actions/RegisterTracking.ts:52-53 | with distinct ids, changing the record at the found position is the same as updating every record with its id, so no other record is touched |
| TrackingTable.UpsertUpdatesById | actions/RegisterTracking.ts:50-58 | when today's record exists, the saving action equals an update by that record's id that adds the repetitions and applies `notes ?? existing.notes` |
| TrackingTable.SetNoteUpdatesById | actions/updateNote.ts:35-43 | with an owned record, the note action equals an update by the given id that sets the notes; without one the table is unchanged |
| TrackingTable.ExerciseTrackingTable.constructor | actions/RegisterTracking.ts:22-85 | an empty table with distinct ids |
| TrackingTable.ExerciseTrackingTable.FindFirstRow | actions/RegisterTracking.ts:37-46 | the scan returns the first matching position, the specification's `FindFirst` |
| TrackingTable.ExerciseTrackingTable.AddOrUpdateTracking | actions/RegisterTracking.ts:14-85 | without a session the table is unchanged and the result is the "No autenticado" failure; with one, the table becomes the upsert of the old table and the result is the updated or created record |
| TrackingTable.ExerciseTrackingTable.UpdateNoteTracking | actions/updateNote.ts:21-56 | without a session nothing changes and "No autenticado" is returned; with one, the table becomes the note update and the result is the updated record or none |
| ExerciseMetrics.Keys | actions/getExerciseMetrics.ts:40-58 | the distinct days in first-seen order are no more than the records |
| ExerciseMetrics.KeysFirstAppearance | actions/getExerciseMetrics.ts:40-58 | `Object.values` of the accumulator lists each day once, lists exactly the days of some record, and lists them in the order of their first record |
| ExerciseMetrics.KeysDistinct | actions/getExerciseMetrics.ts:43-51 | no day is listed twice |
| ExerciseMetrics.KeysMembership | actions/getExerciseMetrics.ts:43-51 | a day is listed exactly when some record falls on it |
| ExerciseMetrics.KeysOrder | actions/getExerciseMetrics.ts:43-51 | days are listed in the order of their first record |
| ExerciseMetrics.Grouped | actions/getExerciseMetrics.ts:40-58 | one group per distinct day, dated with that day, in first-seen order |
| ExerciseMetrics.GroupWhereNew | actions/getExerciseMetrics.ts:43-55 | the first record of a day opens a group with its repetitions, its label, its note (or "") and its id |
| ExerciseMetrics.GroupWhereSame | actions/getExerciseMetrics.ts:52-55 | a further record of a day adds its repetitions and appends its label, keeping the first record's note and id |
| ExerciseMetrics.GroupWhereOther | actions/getExerciseMetrics.ts:41-56 | a record of another day leaves the group unchanged |
| ExerciseMetrics.NoneMatchEmpty | actions/getExerciseMetrics.ts:41-56 | a day without records has no labels and no repetitions |
| ExerciseMetrics.AccumulateStep | actions/getExerciseMetrics.ts:41-56 | one `reduce` step keeps the accumulator equal to the grouping of the records seen so far |
| ExerciseMetrics.EntryStep | actions/getExerciseMetrics.ts:43-55 | one step keeps each accumulator entry equal to its day's group |
| ExerciseMetrics.AccumulatedGroups | actions/getExerciseMetrics.ts:40-58 | reading the accumulator in key order gives the grouping |
| ExerciseMetrics.GroupByDay | actions/getExerciseMetrics.ts:40-58 | the `reduce` loop returns exactly the per-day grouping |
| ExerciseMetrics.FirstIsLatest | actions/getExerciseMetrics.ts:27-58 | with records ordered by date descending, a group's note and id are those of the day's latest record |
| ExerciseMetrics.SumOverNoRecords | actions/getExerciseMetrics.ts:41-56 | no records give zero for every key |
| ExerciseMetrics.SumOverSnoc | actions/getExerciseMetrics.ts:52 | one more record adds its repetitions to the per-key total exactly when its key is listed |
| ExerciseMetrics.PartitionTotal | actions/getExerciseMetrics.ts:40-58 | summing over distinct keys that cover every record gives the grand total |
| ExerciseMetrics.SumCountsOver | actions/getExerciseMetrics.ts:52 | groups whose counts are per-key sums add up to the sum over the keys |
| ExerciseMetrics.DayCountsAddUp | actions/getExerciseMetrics.ts:40-58 | the day counts add up to all repetitions of the user |
| ExerciseMetrics.PeriodTotalOver | actions/getExerciseMetrics.ts:118-127 | summing the rows' `_sum` (missing as 0) gives the per-name totals over the records |
| ExerciseMetrics.PeriodTotalMeaning | actions/getExerciseMetrics.ts:78-127 | the daily, weekly or monthly total is the sum of the user's repetitions in that window |
| ExerciseMetrics.MostRepeatedMeaning | actions/getExerciseMetrics.ts:128-130 | there is no most repeated exercise exactly when the window has no records; otherwise it has the largest sum |
| ExerciseMetrics.FilterTotal | actions/getExerciseMetrics.ts:80-86 | the total of the filtered records is the total of the matching records |
| ExerciseMetrics.ActiveDaysAsWritten | actions/getExerciseMetrics.ts:135-157 | as written: active days are the distinct UTC dates of records no older than 30·24 h, and inactive days are 30 minus that |
| ExerciseMetrics.Range | actions/getExerciseMetrics.ts:154-157 | n consecutive days |
| ExerciseMetrics.WithinRangeCard | actions/getExerciseMetrics.ts:154-157 | dates within n consecutive days are at most n |
| ExerciseMetrics.NoonDatesCover | actions/getExerciseMetrics.ts:141-152 | with a record at noon on each of days 0..30, "now" at noon of day 30 sees all 31 dates |
| ExerciseMetrics.NoonDatesWithin | actions/getExerciseMetrics.ts:141-152 | and no other date |
| ExerciseMetrics.InactiveDaysCanBeNegative | actions/getExerciseMetrics.ts:141-157 | that input gives -1 inactive days |
| ExerciseMetrics.ActiveDays | actions/getExerciseMetrics.ts:135-157 | corrected: active days count the distinct dates among the last 30 days up to today, so both numbers lie in 0..30 and add up to 30 |
| ExerciseMetrics.EveryDayActive | actions/getExerciseMetrics.ts:150-157 | activity on each of the last 30 days gives 30 active and 0 inactive days |
| ExerciseMetrics.Change | actions/getExerciseMetrics.ts:213-227 | no previous total, or a non-positive one, gives 0 |
| ExerciseMetrics.ChangeMeaning | actions/getExerciseMetrics.ts:213-227 | with a positive previous total, the previous total increased by the change percentage is the current total (missing as 0); the change is positive exactly when the total grew and zero exactly when it stayed |
| ExerciseMetrics.Round | actions/getExerciseMetrics.ts:230-231 | `Math.round`: the integer within half a unit of the value, halves going up |
| ExerciseMetrics.RoundedChangeDirection | actions/getExerciseMetrics.ts:213-232 | the returned percentage is 0 without a positive previous total, never negative when the total did not drop and never positive when it did not grow |
| Metricas.ClassEmptyIff | components/Metricas.tsx:80-83 | a cell is "color-empty" exactly when it has no value or zero repetitions; otherwise it gets "color-scale-" and the capped count |
| Metricas.BucketRange | components/Metricas.tsx:82 | a positive count gives a step from 1 to 4: the count itself up to 4, and 4 beyond |
| Metricas.BucketMonotone | components/Metricas.tsx:82 | more repetitions never give a lower step |
| Metricas.ClassNamesBucket | components/Metricas.tsx:82 | the scale class reads back as the capped count |
| Metricas.TooltipDataAttrs | components/Metricas.tsx:84-98 | the attributes are either none or exactly the tooltip id and the content |
| Metricas.TooltipShape | components/Metricas.tsx:84-98 | no attributes exactly for a missing value or an empty date; otherwise the shared tooltip id and a content that begins with the date |
| Metricas.TooltipAgreesWithClass | components/Metricas.tsx:80-98 | the tooltip says "Sin actividad" exactly for cells drawn with the empty colour |
| Metricas.TooltipListsExercises | components/Metricas.tsx:92-97 | a day with repetitions ends its tooltip with its exercise labels, comma separated |

## Left out

- `getAngle` (an `acos` of a dot product of keypoint vectors) is an uninterpreted parameter `angle`; its range and numeric behaviour are not modelled.
- Camera access, the TensorFlow backend and detector, the animation-frame loop, canvas drawing, React state and rendering, and console logging are not modelled; one call of a detection method stands for one pose passed in by the loop.
- `Math.round` of the displayed angle is left out, because it only feeds the display. So are `debugPoseValues`, the pages' saving effect (`useExerciseTracker`/`handleSave`) and every other UI file.
- Keypoint scores are always present (the source's `score!`); NaN, infinities and floating-point rounding are not modelled: angles, coordinates and scores are exact reals.
- PoseDetector.PoseDetectorComponent.DetectVerticalJump: `groundY` is a field set once calibration completes. In the component, `detectLoop` keeps the `detectVerticalJump` of the first render, whose `groundY` stays `null`, so in practice calibration frames keep accumulating and no jump is counted; the model follows the function's logic instead.
- The database is a sequence of records in the class `TrackingTable.ExerciseTrackingTable`; Prisma's query engine, concurrency between requests, transactions and `revalidatePath` are not modelled. Ids are naturals from a counter rather than generated strings.
- The calendar day of a timestamp in the server's time zone (`setHours(0,0,0,0)`, `format(…, "yyyy-MM-dd")`) is a parameter `localDay`/`day`. The start and end of the week and month (`startOfWeek`, `endOfMonth`) become the window's bounds `from` and `to`.
- The `groupBy` queries of `getTotalsMetrics` are the precondition `ExerciseMetrics.IsGroupingByName` on their rows: distinct names, one row per name in the window with its sum, ordered by sum descending. The query itself is not modelled.
- The `orderBy: { date: "desc" }` of `getExerciseMetrics` is a precondition of `ExerciseMetrics.FirstIsLatest`; `GroupByDay` takes the records in whatever order they come.
- The session lookup is an `Option` user id. Only the unauthenticated path of the `catch` blocks is modelled, because there the `catch` calls `getUserId` again and rethrows. Other database failures, and `getExerciseMetrics` returning `[]` on error, are not modelled.
- `subDays(new Date(), 30)` is `now - 30·86400000` ms, ignoring daylight-saving shifts; `toISOString().split("T")[0]` is the UTC day `ms / 86400000`.
- ExerciseMetrics.Change: the percentage is computed on exact reals, whereas the source divides and multiplies JavaScript doubles; floating-point rounding, which can move a value that is exactly half-way before `Math.round`, is not modelled, so `RoundedChange` can differ from the program by one at such ties.
- The queries of `getComparisonMetrics` that produce the week and month totals (lines 160-211) are not modelled; `Change` takes the totals as `Option<int>`.

## Findings

| source | as written | input that shows it | evidently intended | confidence | as-written member | corrected member |
|---|---|---|---|---|---|---|
| actions/getExerciseMetrics.ts:141-157 | active days are the distinct UTC dates of records from `subDays(now, 30)` on, and inactive days are `30 - activeDays` | one record at noon on each of 31 consecutive days, with now at noon of the last: 31 distinct dates, so inactiveDays = -1 | count only the 30 calendar days ending today, so both numbers lie in 0..30 and add up to 30 | not executed | ExerciseMetrics.InactiveDaysCanBeNegative | ExerciseMetrics.ActiveDays |
