/**
 * The live-interview screen: its question bank, the lookup of the question
 * on screen, and the session controller as an object whose handlers update
 * its fields in place.
 */
module Interview {

  import opened Wrappers
  import InterviewState
  import InterviewProgress

  datatype Question = Question(question: string, kind: string, timeLimit: string)

  /** `interviewQuestions`: the fixed, ordered sample prompts. */
  const InterviewQuestions: seq<Question> := [
    Question(
      "Tell me about a challenging project you've worked on recently and how you overcame the obstacles you faced.",
      "Behavioral", "3-5 minutes"),
    Question(
      "Describe a time when you had to work with a difficult team member. How did you handle the situation?",
      "Behavioral", "3-4 minutes"),
    Question(
      "Give me an example of when you had to learn a new technology or skill quickly for a project.",
      "Technical", "4-5 minutes"),
    Question(
      "Tell me about a time when you had to make a decision with incomplete information. What was your approach?",
      "Problem Solving", "3-4 minutes"),
    Question(
      "Describe a situation where you had to give constructive feedback to a colleague or team member.",
      "Leadership", "3-4 minutes")
  ]

  /**
   * `getCurrentQuestionData`: the entry for a question number within the
   * bank, and the first question for any other number (an index outside
   * the array reads `undefined`, which `||` replaces).
   */
  function CurrentQuestionData(currentQuestion: int): (q: Question)
    ensures q in InterviewQuestions
    ensures 1 <= currentQuestion <= |InterviewQuestions| ==> q == InterviewQuestions[currentQuestion - 1]
    ensures (currentQuestion < 1 || currentQuestion > |InterviewQuestions|) ==> q == InterviewQuestions[0]
  {
    if 1 <= currentQuestion <= |InterviewQuestions| then InterviewQuestions[currentQuestion - 1]
    else InterviewQuestions[0]
  }

  /**
   * While the question number is bounded the screen shows that question,
   * never the fallback for a later one, and the progress row marks exactly
   * one question current.
   */
  lemma BoundedSessionShowsItsQuestion(s: InterviewState.SessionState)
    requires InterviewState.QuestionBounded(s)
    ensures |InterviewQuestions| == InterviewState.TotalQuestions
    ensures CurrentQuestionData(s.current) == InterviewQuestions[s.current - 1]
    ensures InterviewProgress.CountStatus(
              InterviewProgress.StatusRow(s.current, InterviewState.TotalQuestions),
              InterviewProgress.Current) == 1
  {
    InterviewProgress.ExactlyOneCurrent(s.current, InterviewState.TotalQuestions);
  }

  /**
   * After two overlapping advances carry the session to question 6, the
   * screen falls back to the first question and the progress row has no
   * current question.
   */
  lemma OvershotSessionShowsFirstQuestion(now: int)
    ensures var s3 := InterviewState.AnswerQuestion(InterviewState.AnswerQuestion(InterviewState.AnswerQuestion(
                        InterviewState.StartInterview(InterviewState.Initial, true), now), now), now);
      var twice := InterviewState.ToggleRecording(InterviewState.ToggleRecording(
                     InterviewState.ToggleRecording(InterviewState.ToggleRecording(s3, now), now), now), now);
      var t := InterviewState.Fire(InterviewState.Fire(twice, 0), 0);
      && CurrentQuestionData(t.current) == InterviewQuestions[0]
      && InterviewProgress.CountStatus(
           InterviewProgress.StatusRow(t.current, InterviewState.TotalQuestions),
           InterviewProgress.Current) == 0
  {
    InterviewState.TwoPendingAdvancesOvershoot(now);
    InterviewProgress.StatusCounts(InterviewState.TotalQuestions + 1, InterviewState.TotalQuestions);
  }

  /**
   * The interview page's session state. `Date.now()` and the microphone
   * request's outcome are parameters; scheduled `setTimeout` callbacks
   * wait in `pending` until `Fire` runs one.
   */
  class InterviewSession {
    var isRecording: bool
    var isMuted: bool
    var isConnected: bool
    const totalQuestions: int
    var interviewStarted: bool
    var currentQuestion: int
    var elapsedTime: int
    var recordingStartTime: Option<int>
    var pending: seq<InterviewState.Continuation>
    var toasts: seq<string>

    /** The fields as a value of the state machine. */
    ghost function Snapshot(): InterviewState.SessionState
      reads this
    {
      InterviewState.SessionState(
        isRecording, isMuted, isConnected, interviewStarted, currentQuestion, elapsedTime,
        recordingStartTime, pending, toasts)
    }

    ghost predicate Valid()
      reads this
    {
      totalQuestions == InterviewState.TotalQuestions && InterviewState.Inv(Snapshot())
    }

    /** The question number is in range and no two advances overlap. */
    ghost predicate QuestionBounded()
      reads this
    {
      InterviewState.QuestionBounded(Snapshot())
    }

    /** The state the screen mounts with. */
    constructor ()
      ensures Valid() && QuestionBounded() && Snapshot() == InterviewState.Initial
    {
      isRecording, isMuted, isConnected := false, false, false;
      totalQuestions := InterviewState.TotalQuestions;
      interviewStarted := false;
      currentQuestion := 1;
      elapsedTime := 0;
      recordingStartTime := None;
      pending, toasts := [], [];
    }

    method StartInterview(granted: bool)
      requires Valid()
      modifies this
      ensures Valid() && Snapshot() == InterviewState.StartInterview(old(Snapshot()), granted)
      ensures old(QuestionBounded()) ==> QuestionBounded()
    {
      if granted {
        isConnected := true;
        interviewStarted := true;
        toasts := toasts + [InterviewState.StartedTitle];
      } else {
        toasts := toasts + [InterviewState.MicrophoneRequiredTitle];
      }
      if old(QuestionBounded()) {
        InterviewState.StepKeepsQuestionBounded(old(Snapshot()), InterviewState.StartEvent(granted));
      }
    }

    method EndInterview()
      requires Valid()
      modifies this
      ensures Valid() && Snapshot() == InterviewState.EndInterview(old(Snapshot()))
      ensures old(QuestionBounded()) ==> QuestionBounded()
    {
      isConnected := false;
      interviewStarted := false;
      isRecording := false;
      elapsedTime := 0;
      currentQuestion := 1;
      toasts := toasts + [InterviewState.EndedTitle];
      if old(QuestionBounded()) {
        InterviewState.StepKeepsQuestionBounded(old(Snapshot()), InterviewState.EndEvent);
      }
    }

    method MoveToNextQuestion(captured: int)
      requires Valid()
      modifies this
      ensures Valid() && Snapshot() == InterviewState.MoveToNextQuestion(old(Snapshot()), captured)
    {
      if captured < totalQuestions {
        currentQuestion := currentQuestion + 1;
        toasts := toasts + [InterviewState.NextQuestionTitle];
      } else {
        toasts := toasts + [InterviewState.CompletedTitle];
        pending := pending + [InterviewState.EndSession];
      }
    }

    method ToggleRecording(now: int)
      requires Valid() && interviewStarted
      modifies this
      ensures Valid() && Snapshot() == InterviewState.ToggleRecording(old(Snapshot()), now)
      ensures old(QuestionBounded()) && InterviewState.AdvanceCount(pending) <= 1 ==> QuestionBounded()
    {
      if !isRecording {
        isRecording := true;
        recordingStartTime := Some(now);
        toasts := toasts + [InterviewState.RecordingStartedTitle];
      } else {
        isRecording := false;
        recordingStartTime := None;
        toasts := toasts + [InterviewState.ProcessingTitle];
        pending := pending + [InterviewState.Advance(currentQuestion)];
      }
      if old(QuestionBounded()) && InterviewState.AdvanceCount(pending) <= 1 {
        InterviewState.StepKeepsQuestionBounded(old(Snapshot()), InterviewState.ToggleRecordingEvent(now));
      }
    }

    method ToggleMute()
      requires Valid()
      modifies this
      ensures Valid() && Snapshot() == InterviewState.ToggleMute(old(Snapshot()))
      ensures old(QuestionBounded()) ==> QuestionBounded()
    {
      isMuted := !isMuted;
      if old(QuestionBounded()) {
        InterviewState.StepKeepsQuestionBounded(old(Snapshot()), InterviewState.ToggleMuteEvent);
      }
    }

    /** The interval callback, which only runs while the interview is started. */
    method Tick()
      requires Valid() && interviewStarted
      modifies this
      ensures Valid() && Snapshot() == InterviewState.Tick(old(Snapshot()))
      ensures old(QuestionBounded()) ==> QuestionBounded()
    {
      elapsedTime := elapsedTime + 1;
      if old(QuestionBounded()) {
        InterviewState.StepKeepsQuestionBounded(old(Snapshot()), InterviewState.TickEvent);
      }
    }

    /** Runs the scheduled callback at `i`. */
    method Fire(i: nat)
      requires Valid() && i < |pending|
      modifies this
      ensures Valid() && Snapshot() == InterviewState.Fire(old(Snapshot()), i)
      ensures old(QuestionBounded()) ==> QuestionBounded()
    {
      var continuation := pending[i];
      pending := InterviewState.RemoveAt(pending, i);
      match continuation {
        case Advance(c) => MoveToNextQuestion(c);
        case EndSession => EndInterview();
      }
      if old(QuestionBounded()) {
        InterviewState.FireKeepsQuestionBounded(old(Snapshot()), i);
      }
    }
  }
}
