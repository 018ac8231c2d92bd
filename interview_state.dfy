/**
 * The interview session controller as a state machine over values. Each
 * handler of the live-interview screen is a function from the state before
 * to the state after; the `InterviewSession` class in module `Interview`
 * is proved to change its fields exactly as these functions say.
 *
 * A `setTimeout` continuation is an entry of `pending`, fired later by
 * `Fire`; the once-per-second `setInterval` callback is `Tick`; the toasts
 * shown are logged by title in `toasts`.
 */
module InterviewState {

  import opened Wrappers

  /** `totalQuestions`, a state value that is never updated. */
  const TotalQuestions: int := 5

  const StartedTitle: string := "Interview Started"
  const MicrophoneRequiredTitle: string := "Microphone Access Required"
  const EndedTitle: string := "Interview Ended"
  const NextQuestionTitle: string := "Moving to Next Question"
  const CompletedTitle: string := "Interview Completed!"
  const RecordingStartedTitle: string := "Recording Started"
  const ProcessingTitle: string := "Processing Response"

  /**
   * A scheduled continuation: the advance a stopped recording schedules,
   * carrying the question number its closure captured, or the end of the
   * session a completed interview schedules.
   */
  datatype Continuation = Advance(captured: int) | EndSession

  datatype SessionState = SessionState(
    recording: bool,
    muted: bool,
    connected: bool,
    started: bool,
    current: int,
    elapsed: int,
    recordingStart: Option<int>,
    pending: seq<Continuation>,
    toasts: seq<string>)

  /** The state the screen mounts with. */
  const Initial: SessionState := SessionState(false, false, false, false, 1, 0, None, [], [])

  /**
   * `handleStartInterview`, given whether the microphone request succeeded.
   * Neither the question nor the elapsed time is reset.
   */
  function StartInterview(s: SessionState, granted: bool): SessionState {
    if granted then s.(connected := true, started := true, toasts := s.toasts + [StartedTitle])
    else s.(toasts := s.toasts + [MicrophoneRequiredTitle])
  }

  /**
   * `handleEndInterview`. It clears no scheduled continuation and does not
   * touch the mute flag or the recording start time.
   */
  function EndInterview(s: SessionState): SessionState {
    s.(connected := false, started := false, recording := false, elapsed := 0, current := 1,
       toasts := s.toasts + [EndedTitle])
  }

  /**
   * `moveToNextQuestion` as run by a continuation: the test reads the
   * question number the closure captured, the increment reads the live one.
   */
  function MoveToNextQuestion(s: SessionState, captured: int): SessionState {
    if captured < TotalQuestions then
      s.(current := s.current + 1, toasts := s.toasts + [NextQuestionTitle])
    else
      s.(pending := s.pending + [EndSession], toasts := s.toasts + [CompletedTitle])
  }

  /** `toggleRecording`; its controls exist only once the interview has started. */
  function ToggleRecording(s: SessionState, now: int): SessionState
    requires s.started
  {
    if !s.recording then
      s.(recording := true, recordingStart := Some(now), toasts := s.toasts + [RecordingStartedTitle])
    else
      s.(recording := false, recordingStart := None, toasts := s.toasts + [ProcessingTitle],
         pending := s.pending + [Advance(s.current)])
  }

  /** `toggleMute`. */
  function ToggleMute(s: SessionState): SessionState {
    s.(muted := !s.muted)
  }

  /** One firing of the interval, which runs only while the interview is started. */
  function Tick(s: SessionState): SessionState
    requires s.started
  {
    s.(elapsed := s.elapsed + 1)
  }

  /** `p` without its entry at `i`, the others in order. */
  function RemoveAt(p: seq<Continuation>, i: nat): (r: seq<Continuation>)
    requires i < |p|
    ensures |r| == |p| - 1
    ensures forall k :: 0 <= k < |r| ==> r[k] == p[if k < i then k else k + 1]
  {
    p[..i] + p[i + 1..]
  }

  /** The scheduled continuation at `i` runs and is no longer pending. */
  function Fire(s: SessionState, i: nat): SessionState
    requires i < |s.pending|
  {
    var rest := s.(pending := RemoveAt(s.pending, i));
    match s.pending[i]
    case Advance(c) => MoveToNextQuestion(rest, c)
    case EndSession => EndInterview(rest)
  }

  /** Everything that can happen to a session. */
  datatype Event =
    | StartEvent(granted: bool)
    | EndEvent
    | ToggleRecordingEvent(now: int)
    | ToggleMuteEvent
    | TickEvent
    | FireEvent(index: nat)

  predicate Enabled(s: SessionState, e: Event) {
    match e
    case ToggleRecordingEvent(_) => s.started
    case TickEvent => s.started
    case FireEvent(i) => i < |s.pending|
    case _ => true
  }

  function Step(s: SessionState, e: Event): SessionState
    requires Enabled(s, e)
  {
    match e
    case StartEvent(granted) => StartInterview(s, granted)
    case EndEvent => EndInterview(s)
    case ToggleRecordingEvent(now) => ToggleRecording(s, now)
    case ToggleMuteEvent => ToggleMute(s)
    case TickEvent => Tick(s)
    case FireEvent(i) => Fire(s, i)
  }

  /**
   * What holds in every reachable state: recording only in a started
   * interview, connected exactly while started, no elapsed time outside an
   * interview, a start time while recording, a question number of at least 1.
   */
  predicate Inv(s: SessionState) {
    && (s.recording ==> s.started)
    && s.connected == s.started
    && (!s.started ==> s.elapsed == 0)
    && s.elapsed >= 0
    && (s.recording ==> s.recordingStart.Some?)
    && s.current >= 1
  }

  /** Number of scheduled advances. */
  function AdvanceCount(p: seq<Continuation>): nat {
    if p == [] then 0
    else (if p[0].Advance? then 1 else 0) + AdvanceCount(p[1..])
  }

  /**
   * The question number is one of 1..TotalQuestions, at most one advance is
   * scheduled, and a scheduled advance either captured the live question
   * number or the session has since been reset to question 1.
   */
  predicate QuestionBounded(s: SessionState) {
    && 1 <= s.current <= TotalQuestions
    && AdvanceCount(s.pending) <= 1
    && forall k :: 0 <= k < |s.pending| && s.pending[k].Advance? ==>
         s.pending[k].captured == s.current || s.current == 1
  }

  lemma {:induction false} AdvanceCountConcat(a: seq<Continuation>, b: seq<Continuation>)
    ensures AdvanceCount(a + b) == AdvanceCount(a) + AdvanceCount(b)
    decreases |a|
  {
    if a == [] {
      assert a + b == b;
    } else {
      assert (a + b)[1..] == a[1..] + b;
      AdvanceCountConcat(a[1..], b);
    }
  }

  lemma {:induction false} NoAdvanceCounted(p: seq<Continuation>)
    requires AdvanceCount(p) == 0
    ensures forall k :: 0 <= k < |p| ==> !p[k].Advance?
  {
    if p != [] {
      NoAdvanceCounted(p[1..]);
      assert forall k :: 1 <= k < |p| ==> p[k] == p[1..][k - 1];
    }
  }

  /** Removing an entry removes its advance, if it is one, from the count. */
  lemma {:induction false} AdvanceCountRemoveAt(p: seq<Continuation>, i: nat)
    requires i < |p|
    ensures AdvanceCount(RemoveAt(p, i)) + (if p[i].Advance? then 1 else 0) == AdvanceCount(p)
  {
    if i == 0 {
      assert RemoveAt(p, i) == p[1..];
    } else {
      assert RemoveAt(p, i) == [p[0]] + RemoveAt(p[1..], i - 1);
      assert ([p[0]] + RemoveAt(p[1..], i - 1))[1..] == RemoveAt(p[1..], i - 1);
      AdvanceCountRemoveAt(p[1..], i - 1);
    }
  }

  // ---- One operation at a time ----

  /** Muting flips the mute flag and nothing else; muting twice restores the state. */
  lemma ToggleMuteFlipsOnlyMute(s: SessionState)
    ensures ToggleMute(s).muted == !s.muted
    ensures ToggleMute(s).(muted := s.muted) == s
    ensures ToggleMute(ToggleMute(s)) == s
  {
  }

  /**
   * Ending resets connection, start, recording, elapsed time and question,
   * keeps the mute flag, the recording start time and every scheduled
   * continuation, and announces the end.
   */
  lemma EndInterviewResets(s: SessionState)
    ensures var t := EndInterview(s);
      && !t.connected && !t.started && !t.recording && t.elapsed == 0 && t.current == 1
      && t.muted == s.muted && t.recordingStart == s.recordingStart && t.pending == s.pending
      && t.toasts == s.toasts + [EndedTitle]
  {
  }

  /** Ending twice leaves the state of ending once, with the end announced a second time. */
  lemma EndInterviewIdempotent(s: SessionState)
    ensures var once := EndInterview(s);
      EndInterview(once) == once.(toasts := once.toasts + [EndedTitle])
  {
  }

  /**
   * Denied, starting changes nothing but announces that the microphone is
   * required; granted, it connects and starts the interview and leaves the
   * question, the elapsed time, recording, mute and the schedule alone.
   */
  lemma StartInterviewOutcome(s: SessionState, granted: bool)
    ensures var t := StartInterview(s, granted);
      && (!granted ==> t == s.(toasts := s.toasts + [MicrophoneRequiredTitle]))
      && (granted ==>
            && t.connected && t.started
            && t.current == s.current && t.elapsed == s.elapsed
            && t.recording == s.recording && t.muted == s.muted && t.pending == s.pending
            && t.toasts == s.toasts + [StartedTitle])
  {
  }

  /** A tick adds exactly one second and changes nothing else. */
  lemma TickAddsOneSecond(s: SessionState)
    requires s.started
    ensures Tick(s).elapsed == s.elapsed + 1 && Tick(s).(elapsed := s.elapsed) == s
  {
  }

  /**
   * Starting a recording notes its start time and schedules nothing;
   * stopping it clears the start time and schedules exactly one advance,
   * carrying the current question number.
   */
  lemma ToggleRecordingSchedules(s: SessionState, now: int)
    requires s.started
    ensures var t := ToggleRecording(s, now);
      && t.recording == !s.recording
      && t.started && t.current == s.current && t.elapsed == s.elapsed && t.muted == s.muted
      && (!s.recording ==> t.recordingStart == Some(now) && t.pending == s.pending)
      && (s.recording ==> t.recordingStart == None && t.pending == s.pending + [Advance(s.current)])
      && AdvanceCount(t.pending) == AdvanceCount(s.pending) + (if s.recording then 1 else 0)
  {
    AdvanceCountConcat(s.pending, [Advance(s.current)]);
    assert [Advance(s.current)][1..] == [];
  }

  /**
   * Firing a scheduled advance that captured question `c`: below the last
   * question it adds one to the LIVE question number; at or past it, the
   * question stays and exactly one end of session is scheduled.
   */
  lemma FireAdvance(s: SessionState, i: nat)
    requires i < |s.pending| && s.pending[i].Advance?
    ensures var c, t := s.pending[i].captured, Fire(s, i);
      && (c < TotalQuestions ==>
            t.current == s.current + 1 && t.pending == RemoveAt(s.pending, i)
            && t.toasts == s.toasts + [NextQuestionTitle])
      && (c >= TotalQuestions ==>
            t.current == s.current && t.pending == RemoveAt(s.pending, i) + [EndSession]
            && t.toasts == s.toasts + [CompletedTitle])
      && t.started == s.started && t.recording == s.recording && t.elapsed == s.elapsed
  {
  }

  /** Firing a scheduled end of session is `handleEndInterview`, whatever the state. */
  lemma FireEndSession(s: SessionState, i: nat)
    requires i < |s.pending| && s.pending[i] == EndSession
    ensures Fire(s, i) == EndInterview(s.(pending := RemoveAt(s.pending, i)))
    ensures !Fire(s, i).started && Fire(s, i).current == 1
  {
  }

  // ---- Invariants ----

  lemma InitialSatisfiesInvariants()
    ensures Inv(Initial) && QuestionBounded(Initial)
  {
  }

  /** Every operation keeps `Inv`. */
  lemma StepPreservesInv(s: SessionState, e: Event)
    requires Inv(s) && Enabled(s, e)
    ensures Inv(Step(s, e))
  {
  }

  /**
   * Every operation keeps the question number within 1..TotalQuestions,
   * provided it leaves at most one advance scheduled.
   */
  lemma StepKeepsQuestionBounded(s: SessionState, e: Event)
    requires Inv(s) && QuestionBounded(s) && Enabled(s, e)
    requires AdvanceCount(Step(s, e).pending) <= 1
    ensures QuestionBounded(Step(s, e))
  {
    match e
    case FireEvent(i) => FireKeepsQuestionBounded(s, i);
    case _ =>
  }

  /** Firing any scheduled continuation keeps the question number in range. */
  lemma FireKeepsQuestionBounded(s: SessionState, i: nat)
    requires QuestionBounded(s) && i < |s.pending|
    ensures QuestionBounded(Fire(s, i))
  {
    if s.pending[i].Advance? {
      FireAdvanceKeepsQuestionBounded(s, i);
    } else {
      FireEndKeepsQuestionBounded(s, i);
    }
  }

  lemma FireEndKeepsQuestionBounded(s: SessionState, i: nat)
    requires QuestionBounded(s) && i < |s.pending| && s.pending[i] == EndSession
    ensures Fire(s, i).current == 1
    ensures QuestionBounded(Fire(s, i))
  {
    AdvanceCountRemoveAt(s.pending, i);
  }

  /**
   * The fired advance was the only one scheduled, so none is left; below the
   * last question it captured the live number or the session was reset to 1,
   * so the increment stays in range.
   */
  lemma FireAdvanceKeepsQuestionBounded(s: SessionState, i: nat)
    requires QuestionBounded(s) && i < |s.pending| && s.pending[i].Advance?
    ensures QuestionBounded(Fire(s, i))
  {
    var rest := RemoveAt(s.pending, i);
    AdvanceCountRemoveAt(s.pending, i);
    NoAdvanceCounted(rest);
    var t := Fire(s, i);
    if s.pending[i].captured < TotalQuestions {
      assert t.pending == rest && t.current == s.current + 1;
    } else {
      assert t.pending == rest + [EndSession] && t.current == s.current;
      AdvanceCountConcat(rest, [EndSession]);
      assert [EndSession][1..] == [];
      assert forall k :: 0 <= k < |t.pending| ==> !t.pending[k].Advance?;
    }
  }

  /** A run of operations, each enabled in the state the previous ones left. */
  predicate ValidRun(s: SessionState, events: seq<Event>)
    decreases |events|
  {
    events == [] || (Enabled(s, events[0]) && ValidRun(Step(s, events[0]), events[1..]))
  }

  function Run(s: SessionState, events: seq<Event>): SessionState
    requires ValidRun(s, events)
    decreases |events|
  {
    if events == [] then s else Run(Step(s, events[0]), events[1..])
  }

  /** No state of the run, from `s` on, has two advances scheduled at once. */
  predicate AdvancesNeverOverlap(s: SessionState, events: seq<Event>)
    requires ValidRun(s, events)
    decreases |events|
  {
    && AdvanceCount(s.pending) <= 1
    && (events == [] || AdvancesNeverOverlap(Step(s, events[0]), events[1..]))
  }

  lemma {:induction false} RunPreservesInv(s: SessionState, events: seq<Event>)
    requires Inv(s) && ValidRun(s, events)
    ensures Inv(Run(s, events))
    decreases |events|
  {
    if events != [] {
      StepPreservesInv(s, events[0]);
      RunPreservesInv(Step(s, events[0]), events[1..]);
    }
  }

  lemma {:induction false} RunKeepsQuestionBounded(s: SessionState, events: seq<Event>)
    requires Inv(s) && QuestionBounded(s) && ValidRun(s, events) && AdvancesNeverOverlap(s, events)
    ensures QuestionBounded(Run(s, events))
    decreases |events|
  {
    if events != [] {
      var next := Step(s, events[0]);
      StepPreservesInv(s, events[0]);
      assert AdvanceCount(next.pending) <= 1;
      StepKeepsQuestionBounded(s, events[0]);
      RunKeepsQuestionBounded(next, events[1..]);
    }
  }

  /**
   * In every state reachable from the initial one, recording implies a
   * started interview and no elapsed time is counted outside one.
   */
  lemma ReachableStatesAreConsistent(events: seq<Event>)
    requires ValidRun(Initial, events)
    ensures var t := Run(Initial, events);
      (t.recording ==> t.started) && (!t.started ==> t.elapsed == 0) && t.current >= 1
  {
    RunPreservesInv(Initial, events);
  }

  /**
   * In every state reachable from the initial one without two advances ever
   * scheduled at once, the question number is one of 1..TotalQuestions.
   */
  lemma ReachableQuestionInRange(events: seq<Event>)
    requires ValidRun(Initial, events) && AdvancesNeverOverlap(Initial, events)
    ensures 1 <= Run(Initial, events).current <= TotalQuestions
  {
    RunKeepsQuestionBounded(Initial, events);
  }

  // ---- Scenarios ----

  /** One answer: recording starts, stops, and the advance it scheduled fires. */
  function AnswerQuestion(s: SessionState, now: int): SessionState
    requires s.started && !s.recording
  {
    var stopped := ToggleRecording(ToggleRecording(s, now), now);
    Fire(stopped, |stopped.pending| - 1)
  }

  /**
   * With nothing scheduled, an answer moves to the next question, or on the
   * last question announces completion and schedules the end; the recording
   * start is cleared and the other fields are kept.
   */
  lemma AnswerQuestionOutcome(s: SessionState, now: int)
    requires s.started && !s.recording && s.pending == []
    ensures AnswerQuestion(s, now) ==
      if s.current < TotalQuestions then
        s.(recordingStart := None, current := s.current + 1,
           toasts := s.toasts + [RecordingStartedTitle, ProcessingTitle, NextQuestionTitle])
      else
        s.(recordingStart := None, pending := [EndSession],
           toasts := s.toasts + [RecordingStartedTitle, ProcessingTitle, CompletedTitle])
  {
    var stopped := StopAnswer(s, now);
    assert RemoveAt(stopped.pending, 0) == [];
    var rest := stopped.(pending := []);
    assert rest == s.(recordingStart := None, toasts := s.toasts + [RecordingStartedTitle, ProcessingTitle]);
    assert AnswerQuestion(s, now) == MoveToNextQuestion(rest, s.current);
  }

  /** Starting and stopping a recording with nothing scheduled schedules one advance for the current question. */
  lemma StopAnswer(s: SessionState, now: int) returns (stopped: SessionState)
    requires s.started && !s.recording && s.pending == []
    ensures stopped == ToggleRecording(ToggleRecording(s, now), now)
    ensures stopped == s.(recordingStart := None, pending := [Advance(s.current)],
                          toasts := s.toasts + [RecordingStartedTitle, ProcessingTitle])
  {
    var recording := ToggleRecording(s, now);
    assert recording == s.(recording := true, recordingStart := Some(now),
                           toasts := s.toasts + [RecordingStartedTitle]);
    stopped := ToggleRecording(recording, now);
    assert stopped.toasts == s.toasts + [RecordingStartedTitle] + [ProcessingTitle];
    assert s.toasts + [RecordingStartedTitle] + [ProcessingTitle] == s.toasts + [RecordingStartedTitle, ProcessingTitle];
  }

  /**
   * Four answers lead from question 1 to the last question; the fifth
   * announces completion and schedules the end, whose firing resets the
   * session to the state the screen mounted with.
   */
  lemma FiveAnswersCompleteTheInterview(now: int)
    ensures var s0 := StartInterview(Initial, true);
      var s4 := AnswerQuestion(AnswerQuestion(AnswerQuestion(AnswerQuestion(s0, now), now), now), now);
      var s5 := AnswerQuestion(s4, now);
      && s4.current == TotalQuestions && s4.started && s4.pending == []
      && s5.current == TotalQuestions && s5.started && s5.pending == [EndSession]
      && s5.toasts[|s5.toasts| - 1] == CompletedTitle
      && Fire(s5, 0).(toasts := []) == Initial
  {
    var s0 := StartInterview(Initial, true);
    AnswerQuestionOutcome(s0, now);
    var s1 := AnswerQuestion(s0, now);
    AnswerQuestionOutcome(s1, now);
    var s2 := AnswerQuestion(s1, now);
    AnswerQuestionOutcome(s2, now);
    var s3 := AnswerQuestion(s2, now);
    AnswerQuestionOutcome(s3, now);
    var s4 := AnswerQuestion(s3, now);
    AnswerQuestionOutcome(s4, now);
    var s5 := AnswerQuestion(s4, now);
    assert RemoveAt(s5.pending, 0) == [];
  }

  /**
   * Ending the interview while an advance is scheduled does not stop it: it
   * fires afterwards and moves the reset session to question 2.
   */
  lemma PendingAdvanceSurvivesEnd(now: int)
    ensures var stopped := ToggleRecording(ToggleRecording(StartInterview(Initial, true), now), now);
      var ended := EndInterview(stopped);
      var t := Fire(ended, 0);
      && ended.pending == [Advance(1)]
      && !t.started && t.current == 2
  {
  }

  /**
   * With two advances scheduled at once the bound fails: stopping two
   * recordings on question 4 before either advance fires schedules two
   * advances that both captured 4, and both increment, to question 6.
   */
  lemma TwoPendingAdvancesOvershoot(now: int)
    ensures var s3 := AnswerQuestion(AnswerQuestion(AnswerQuestion(StartInterview(Initial, true), now), now), now);
      var twice := ToggleRecording(ToggleRecording(ToggleRecording(ToggleRecording(s3, now), now), now), now);
      && s3.current == 4
      && twice.pending == [Advance(4), Advance(4)]
      && Fire(Fire(twice, 0), 0).current == TotalQuestions + 1
  {
    var s0 := StartInterview(Initial, true);
    AnswerQuestionOutcome(s0, now);
    var s1 := AnswerQuestion(s0, now);
    AnswerQuestionOutcome(s1, now);
    var s2 := AnswerQuestion(s1, now);
    AnswerQuestionOutcome(s2, now);
    var s3 := AnswerQuestion(s2, now);
    var once := ToggleRecording(ToggleRecording(s3, now), now);
    var twice := ToggleRecording(ToggleRecording(once, now), now);
    assert once.pending == [Advance(4)];
    assert twice.pending == [Advance(4), Advance(4)];
    var first := Fire(twice, 0);
    assert first.pending == [Advance(4)];
  }
}
