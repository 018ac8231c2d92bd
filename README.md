# Interview practice session: a Dafny model

This project models the logic of the mock-interview web app's three core
screens:

- **The live-interview page.** Its session controller holds these fields:
  - recording, muted, connected and started flags;
  - the current question, out of 5;
  - the elapsed seconds and the recording start time.

  Its handlers are start, end, the toggling of recording and mute, the
  move to the next question, and the once-a-second tick. The page also
  holds the question bank and the lookup of the question on screen.
- **The progress card.** It formats the elapsed time as `MM:SS` and marks
  each question as completed, current or pending.
- **The results page.** It maps a score to a colour class and a badge, and
  holds the sample report it renders.

Layout:

- `wrappers.dfy`: `Option`.
- `number_text.dfy` (module `NumberText`): JavaScript's integer `toString`
  and `padStart(width, '0')`, and reading a digit string back.
- `interview_progress.dfy` (module `InterviewProgress`): `formatTime`, a
  reader for its output, and the question-status row.
- `results.dfy` (module `Results`): the score classifiers, a reference
  banding they are proved against, and the sample report.
- `interview_state.dfy` (module `InterviewState`): the controller as values.
  - Each handler is a function from one `SessionState` to the next.
  - Callbacks scheduled with `setTimeout` are an explicit list of pending
    continuations: `Advance(captured)` and `EndSession`.
  - Any one of them may fire at any step.
  - It also holds the invariants, their preservation over single steps and
    over runs, and concrete scenarios.
- `interview.dfy` (module `Interview`): the question bank, the
  `getCurrentQuestionData` lookup, and the class `InterviewSession`.
  - The class's fields are the page's state.
  - Each method updates the fields in place.
  - Each method is proved to produce exactly the next state that the
    matching `InterviewState` function gives, and to keep `Valid()`, the
    consistency invariant.
  - The question bound (1..5, at most one advance pending) is kept only
    where its row in the table below says so: unconditionally by every
    method except `MoveToNextQuestion` and `ToggleRecording`. It is kept by
    `ToggleRecording` only while at most one advance is left pending. It is
    not promised by `MoveToNextQuestion` run directly, since an advance that
    captured 4 while the live question is 5 takes it to 6.

### Behaviour of the code that the model keeps

These points may differ from how a session is usually described (an end
that cancels everything, a start that resets the question); the model
follows the code.

- **Starting does not reset anything.** `handleStartInterview` resets
  neither the question number nor the elapsed time
  (`src/pages/Interview.tsx:86-87`). It only sets the connected and started
  flags (`InterviewState.StartInterviewOutcome`).
- **Ending does not cancel scheduled callbacks.** `handleEndInterview` does
  not cancel callbacks already scheduled with `setTimeout`
  (`src/pages/Interview.tsx:101-111`). An advance scheduled before the end
  still fires afterwards: `InterviewState.PendingAdvanceSurvivesEnd`.
- **The question number is not always within 1..5.**
  - `moveToNextQuestion` tests the question number its closure captured
    when recording stopped (`src/pages/Interview.tsx:114`), but increments
    the live number (line 115).
  - While at most one advance is pending, the number stays within 1..5
    (`InterviewState.RunKeepsQuestionBounded`,
    `InterviewState.ReachableQuestionInRange`).
  - Two overlapping advances captured on question 4 carry it to 6
    (`InterviewState.TwoPendingAdvancesOvershoot`).
  - On question 6 the page falls back to the first prompt, and the progress
    row shows no current question
    (`Interview.OvershotSessionShowsFirstQuestion`).

`formatTime` appears twice in the source, identically:
`src/pages/Interview.tsx:76-80` and `src/components/InterviewProgress.tsx:19-23`.
It is modelled once, as `InterviewProgress.FormatTime`.

## Model

| member | source | states |
|---|---|---|
| NumberText.NatToString | src/components/InterviewProgress.tsx:22 | `toString()` of a non-negative integer: at least one character, all decimal digits, and a leading '0' only for zero |
| NumberText.ParseDigits | src/components/InterviewProgress.tsx:22 | reading a string as a decimal number succeeds exactly when every character is a digit |
| NumberText.ParseNatToString | src/components/InterviewProgress.tsx:22 | reading back the decimal text of `n` gives `n` |
| NumberText.NatToStringLength | src/components/InterviewProgress.tsx:22 | the text has one character iff the number is below 10, and at most two iff below 100 |
| NumberText.PadStart | src/components/InterviewProgress.tsx:22 | `padStart(width, '0')`: the length is the larger of the old length and `width`; the text ends with the original; every character before it is '0'; it never truncates |
| NumberText.PadStartDigits | src/components/InterviewProgress.tsx:22 | padding a digit string leaves a digit string |
| NumberText.ParsePadStart | src/components/InterviewProgress.tsx:22 | padding with '0' does not change the number a string reads as |
| InterviewProgress.JsRemainder | src/components/InterviewProgress.tsx:21 | JavaScript `%`: for a non-negative dividend it is the mathematical remainder; for a negative one it lies in (-divisor, 0] |
| InterviewProgress.NumberToString | src/components/InterviewProgress.tsx:22 | `toString()` of an integer is the digit text for a non-negative one |
| InterviewProgress.FormatTimeFields | src/components/InterviewProgress.tsx:19-22 | for seconds >= 0 the minutes are `seconds / 60` and the seconds `seconds % 60`, in 0..59, and together they rebuild the count; the text is the padded minutes, ':' and the padded seconds |
| InterviewProgress.ClockTextShape | src/components/InterviewProgress.tsx:22 | minutes and seconds below 100 give exactly five characters, `DD:DD` |
| InterviewProgress.FormatTimeShape | src/components/InterviewProgress.tsx:19-22 | for 0 <= seconds < 6000 the formatted time is exactly `DD:DD` |
| InterviewProgress.FormatTimeWideMinutes | src/components/InterviewProgress.tsx:19-22 | from 6000 seconds on, the minutes are written with more than two digits and in full; the text is longer than five characters |
| InterviewProgress.ClockTextRoundTrip | src/components/InterviewProgress.tsx:22 | reading a clock text of `m` minutes and `s` < 60 seconds back gives `60*m + s` |
| InterviewProgress.FormatTimeRoundTrip | src/components/InterviewProgress.tsx:19-22 | reading the minute and second digits of `formatTime(seconds)` back gives `seconds`, for every seconds >= 0 |
| InterviewProgress.FormatTimeInjective | src/components/InterviewProgress.tsx:19-22 | distinct non-negative counts are formatted differently |
| InterviewProgress.StatusRow | src/components/InterviewProgress.tsx:60-75 | the row has `totalQuestions` circles numbered 1.. in order. A circle is completed iff its number is below the current question, current iff equal, and pending iff above. A completed circle shows a check mark; the others show their number |
| InterviewProgress.StatusCounts | src/components/InterviewProgress.tsx:60-75 | for any current question, the row has `max(0, min(n, current-1))` completed circles, one current circle iff the current question is in 1..n, and the rest pending |
| InterviewProgress.ExactlyOneCurrent | src/components/InterviewProgress.tsx:60-71 | with the current question in 1..total, exactly one circle is current, `current-1` are completed and `total-current` are pending |
| Results.BandIndex | src/pages/Results.tsx:58-70 | the reference banding: the number of thresholds 70, 80 and 90 reached, one of 0..3 |
| Results.GetScoreColor | src/pages/Results.tsx:58-63 | every score gets one of the four classes: green iff >= 90, blue iff in 80..89, yellow iff in 70..79, red iff below 70 |
| Results.GetScoreBadge | src/pages/Results.tsx:65-70 | every score gets one of the four badges: "Excellent" iff >= 90, "Good" iff in 80..89, "Fair" iff in 70..79, "Needs Improvement" iff below 70 |
| Results.RankIn | src/pages/Results.tsx:58-70 | the position of a band's text in the ordered list of band texts, or -1 exactly when it is absent |
| Results.ClassifiersFollowBands | src/pages/Results.tsx:58-70 | both classifiers return the entry of their ordered list that the reference banding selects |
| Results.ColorAgreesWithBadge | src/pages/Results.tsx:58-70 | the colour is the k-th class iff the badge is the k-th badge, for example green iff "Excellent" |
| Results.BandsMonotone | src/pages/Results.tsx:58-70 | raising a score never lowers its band, for either classifier |
| Results.SampleResults | src/pages/Results.tsx:25-56 | the sample report has one score per question (5), answers no more questions than it has, keeps every score and speaking metric in 0..100, and its overall score earns "Good" |
| InterviewState.RemoveAt | src/pages/Interview.tsx:152-154 | a callback that has run leaves the schedule; the others stay, in order |
| InterviewState.ToggleMuteFlipsOnlyMute | src/pages/Interview.tsx:158-160 | `toggleMute` flips the mute flag and nothing else; toggling twice restores the state |
| InterviewState.EndInterviewResets | src/pages/Interview.tsx:101-111 | ending clears connected, started and recording, zeroes the elapsed time, sets question 1, keeps the mute flag, the recording start time and every scheduled callback, and announces the end |
| InterviewState.EndInterviewIdempotent | src/pages/Interview.tsx:101-111 | ending twice gives the state of ending once, except for a second announcement |
| InterviewState.StartInterviewOutcome | src/pages/Interview.tsx:82-99 | denied: nothing changes except the "Microphone Access Required" announcement. Granted: connected and started, with the question, elapsed time, recording, mute and schedule untouched |
| InterviewState.TickAddsOneSecond | src/pages/Interview.tsx:66-74 | a tick adds exactly one second and changes nothing else |
| InterviewState.ToggleRecordingSchedules | src/pages/Interview.tsx:132-156 | starting a recording stores its start time and schedules nothing. Stopping clears the start time and schedules exactly one advance that carries the current question number |
| InterviewState.FireAdvance | src/pages/Interview.tsx:113-130 | an advance that captured a number below 5 adds one to the live question number; one that captured 5 or more keeps the question and schedules exactly one end |
| InterviewState.FireEndSession | src/pages/Interview.tsx:126-128 | the scheduled end runs `handleEndInterview` on whatever state is current |
| InterviewState.InitialSatisfiesInvariants | src/pages/Interview.tsx:56-63 | the mount state satisfies both invariants |
| InterviewState.StepPreservesInv | src/pages/Interview.tsx:66-160 | every operation keeps these: recording implies started; connected equals started; no elapsed time outside a started interview; recording implies a start time; question >= 1 |
| InterviewState.StepKeepsQuestionBounded | src/pages/Interview.tsx:113-156 | every operation that leaves at most one advance scheduled keeps the question in 1..5 |
| InterviewState.FireKeepsQuestionBounded | src/pages/Interview.tsx:113-130 | firing any scheduled callback keeps the question in 1..5 and at most one advance pending |
| InterviewState.FireAdvanceKeepsQuestionBounded | src/pages/Interview.tsx:113-130 | an advance fired as the only pending one leaves the question in 1..5 |
| InterviewState.FireEndKeepsQuestionBounded | src/pages/Interview.tsx:126-128 | a scheduled end leaves question 1 and keeps the question bound |
| InterviewState.RunPreservesInv | src/pages/Interview.tsx:66-160 | every run of enabled operations keeps the consistency invariant |
| InterviewState.RunKeepsQuestionBounded | src/pages/Interview.tsx:113-156 | every run in which no two advances are ever scheduled at once keeps the question in 1..5 |
| InterviewState.ReachableStatesAreConsistent | src/pages/Interview.tsx:56-160 | from the mount state, recording implies started, no time is counted outside an interview, and the question is >= 1 |
| InterviewState.ReachableQuestionInRange | src/pages/Interview.tsx:56-160 | from the mount state, without overlapping advances, the question stays within 1..5 |
| InterviewState.StopAnswer | src/pages/Interview.tsx:132-156 | starting and stopping a recording with nothing scheduled stores and then clears the start time, announces both, and schedules exactly one advance carrying the current question |
| InterviewState.AnswerQuestionOutcome | src/pages/Interview.tsx:113-156 | with nothing scheduled, recording and stopping an answer moves to the next question, or on question 5 announces completion and schedules the end |
| InterviewState.FiveAnswersCompleteTheInterview | src/pages/Interview.tsx:113-156 | four answers reach question 5; the fifth announces completion; the scheduled end returns the session to its mount state, announcements aside |
| InterviewState.PendingAdvanceSurvivesEnd | src/pages/Interview.tsx:101-156 | an advance scheduled before the end is still pending after it, and when it fires it moves the reset session to question 2 |
| InterviewState.TwoPendingAdvancesOvershoot | src/pages/Interview.tsx:113-156 | two advances scheduled on question 4 before either fires both increment, to question 6 |
| Interview.CurrentQuestionData | src/pages/Interview.tsx:162-164 | the prompt for a question number in 1..5, the first prompt for any other number, always one of the bank's prompts |
| Interview.BoundedSessionShowsItsQuestion | src/pages/Interview.tsx:162-164 | with the question bounded, the screen shows that question's prompt and the progress row marks exactly one question current |
| Interview.OvershotSessionShowsFirstQuestion | src/pages/Interview.tsx:162-164 | after the overshoot to question 6 the screen falls back to the first prompt and the progress row has no current question |
| Interview.InterviewSession.constructor | src/pages/Interview.tsx:56-63 | the fields start as the mount state: not recording, muted, connected or started; question 1; no elapsed time; no start time; nothing scheduled |
| Interview.InterviewSession.StartInterview | src/pages/Interview.tsx:82-99 | the fields become `InterviewState.StartInterview` of the old ones; both invariants are kept |
| Interview.InterviewSession.EndInterview | src/pages/Interview.tsx:101-111 | the fields become `InterviewState.EndInterview` of the old ones; both invariants are kept |
| Interview.InterviewSession.MoveToNextQuestion | src/pages/Interview.tsx:113-130 | the fields become `InterviewState.MoveToNextQuestion` of the old ones for the captured number; the consistency invariant is kept |
| Interview.InterviewSession.ToggleRecording | src/pages/Interview.tsx:132-156 | the fields become `InterviewState.ToggleRecording` of the old ones; consistency is kept, and the question bound is kept when no second advance is scheduled |
| Interview.InterviewSession.ToggleMute | src/pages/Interview.tsx:158-160 | the fields become `InterviewState.ToggleMute` of the old ones; both invariants are kept |
| Interview.InterviewSession.Tick | src/pages/Interview.tsx:66-74 | the fields become `InterviewState.Tick` of the old ones; both invariants are kept |
| Interview.InterviewSession.Fire | src/pages/Interview.tsx:152-154 | running the callback at index i gives `InterviewState.Fire` of the old fields; both invariants are kept |

## Left out

- Rendering is not modelled: JSX, Tailwind classes, icons, router links and the `Progress` bar.
- The microphone request (`navigator.mediaDevices.getUserMedia`) is a browser API. It becomes the boolean `granted` argument to `StartInterview`.
- `Date.now()` is the clock. It becomes the `now` argument to `ToggleRecording`; the start time is only stored.
- The delays are not modelled: the 1-second interval and the two 2-second timeouts.
  - A tick is any step taken while the interview is started.
  - Any scheduled callback may fire at any step.
  - This allows more orders than the real timers do; every property holds for all of them.
- Interval cleanup on end is modelled as `Tick` requiring a started interview.
- Toast delivery is reduced to the list of titles. Descriptions and the `destructive` variant are left out, including "Question N of 5", which reads the captured question number.
- Each handler is one atomic step on the latest committed state. React's batching of several setters called within one render is not modelled.
- Interview.InterviewSession.ToggleRecording: the control is drawn only once the interview has started (`src/pages/Interview.tsx:168`), so the model requires `interviewStarted` rather than handling a call before start.
- InterviewState.RunKeepsQuestionBounded: the question bound is stated only for runs without two advances pending at once, because the code does not keep it otherwise (see `InterviewState.TwoPendingAdvancesOvershoot`).
- `progressPercentage` (`src/components/InterviewProgress.tsx:17`) is floating-point division and is not modelled.
- `FormatTime` takes an integer count of seconds. `toString` of fractional or exponent-sized numbers is not modelled. Negative counts follow JavaScript's `/`-then-floor and `%`, but only non-negative counts have lemmas.
- Scores and metrics in the results record are integers; JavaScript numbers are not.
- src/components/AudioVisualizer.tsx, src/components/VoiceControls.tsx, src/pages/Index.tsx and src/pages/Dashboard.tsx are not part of this model. They contain randomness, forwarding of clicks, and static data.
