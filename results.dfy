/**
 * The results report: the colour class and the badge text a score is shown
 * with, and the shape of the sample report the page renders.
 */
module Results {

  /** The badge texts, from the lowest band to the highest. */
  const BadgeLabels: seq<string> := ["Needs Improvement", "Fair", "Good", "Excellent"]

  /** The colour classes, from the lowest band to the highest. */
  const ColorClasses: seq<string> := ["text-red-600", "text-yellow-600", "text-blue-600", "text-green-600"]

  /**
   * Reference banding: how many of the thresholds 70, 80 and 90 a score
   * reaches, so 0 for the lowest band and 3 for the highest.
   */
  function BandIndex(score: int): (k: nat)
    ensures k < 4
  {
    (if score >= 70 then 1 else 0) + (if score >= 80 then 1 else 0) + (if score >= 90 then 1 else 0)
  }

  /** `getScoreColor`: green from 90, blue from 80, yellow from 70, red below. */
  function GetScoreColor(score: int): (c: string)
    ensures c in ColorClasses
    ensures c == "text-green-600" <==> score >= 90
    ensures c == "text-blue-600" <==> 80 <= score < 90
    ensures c == "text-yellow-600" <==> 70 <= score < 80
    ensures c == "text-red-600" <==> score < 70
  {
    if score >= 90 then "text-green-600"
    else if score >= 80 then "text-blue-600"
    else if score >= 70 then "text-yellow-600"
    else "text-red-600"
  }

  /** `getScoreBadge`: the same thresholds, named. */
  function GetScoreBadge(score: int): (b: string)
    ensures b in BadgeLabels
    ensures b == "Excellent" <==> score >= 90
    ensures b == "Good" <==> 80 <= score < 90
    ensures b == "Fair" <==> 70 <= score < 80
    ensures b == "Needs Improvement" <==> score < 70
  {
    if score >= 90 then "Excellent"
    else if score >= 80 then "Good"
    else if score >= 70 then "Fair"
    else "Needs Improvement"
  }

  /** Position of a text in a list of band texts (the band it names), -1 if absent. */
  function RankIn(labels: seq<string>, text: string): (k: int)
    ensures -1 <= k < |labels|
    ensures k >= 0 ==> labels[k] == text
    ensures k == -1 ==> text !in labels
  {
    if labels == [] then -1
    else if labels[|labels| - 1] == text then |labels| - 1
    else RankIn(labels[..|labels| - 1], text)
  }

  /** Both classifiers pick the entry of their list that the reference banding selects. */
  lemma ClassifiersFollowBands(score: int)
    ensures GetScoreColor(score) == ColorClasses[BandIndex(score)]
    ensures GetScoreBadge(score) == BadgeLabels[BandIndex(score)]
    ensures RankIn(ColorClasses, GetScoreColor(score)) == BandIndex(score)
    ensures RankIn(BadgeLabels, GetScoreBadge(score)) == BandIndex(score)
  {
  }

  /** The colour and the badge of a score name the same band: green iff "Excellent", and so on. */
  lemma ColorAgreesWithBadge(score: int, k: nat)
    requires k < 4
    ensures GetScoreColor(score) == ColorClasses[k] <==> GetScoreBadge(score) == BadgeLabels[k]
  {
    ClassifiersFollowBands(score);
  }

  /** Raising a score never moves it to a lower band, for either classifier. */
  lemma BandsMonotone(lower: int, higher: int)
    requires lower <= higher
    ensures RankIn(BadgeLabels, GetScoreBadge(lower)) <= RankIn(BadgeLabels, GetScoreBadge(higher))
    ensures RankIn(ColorClasses, GetScoreColor(lower)) <= RankIn(ColorClasses, GetScoreColor(higher))
  {
    ClassifiersFollowBands(lower);
    ClassifiersFollowBands(higher);
  }

  datatype QuestionScore = QuestionScore(question: string, score: int, feedback: string)

  datatype SpeakingMetrics = SpeakingMetrics(pace: int, clarity: int, confidence: int, engagement: int)

  /** The report record `interviewResults`. */
  datatype InterviewResults = InterviewResults(
    overallScore: int,
    completionDate: string,
    duration: string,
    role: string,
    questionsAnswered: int,
    totalQuestions: int,
    strengths: seq<string>,
    areasForImprovement: seq<string>,
    questionScores: seq<QuestionScore>,
    speakingMetrics: SpeakingMetrics)

  predicate IsPercentage(x: int) {
    0 <= x <= 100
  }

  /**
   * A consistent report: one score per question, no more answers than
   * questions, and every score and speaking metric a percentage.
   */
  predicate WellFormedReport(r: InterviewResults) {
    && |r.questionScores| == r.totalQuestions
    && 0 <= r.questionsAnswered <= r.totalQuestions
    && IsPercentage(r.overallScore)
    && (forall i :: 0 <= i < |r.questionScores| ==> IsPercentage(r.questionScores[i].score))
    && IsPercentage(r.speakingMetrics.pace)
    && IsPercentage(r.speakingMetrics.clarity)
    && IsPercentage(r.speakingMetrics.confidence)
    && IsPercentage(r.speakingMetrics.engagement)
  }

  /** The strengths listed in the sample report. */
  const SampleStrengths: seq<string> :=
    [ "Clear communication and articulation",
      "Strong technical problem-solving approach",
      "Good use of specific examples and metrics",
      "Confident delivery and professional demeanor" ]

  /** The improvement suggestions listed in the sample report. */
  const SampleImprovements: seq<string> :=
    [ "Could provide more detail on leadership experiences",
      "Consider using the STAR method more consistently",
      "Expand on collaborative problem-solving examples" ]

  /** The per-question titles and feedback of the sample report, in question order. */
  const SampleTitles: seq<string> :=
    [ "Challenging project experience",
      "Working with difficult team members",
      "Learning new technology quickly",
      "Decision making with incomplete information",
      "Giving constructive feedback" ]

  const SampleFeedback: seq<string> :=
    [ "Excellent use of specific examples and clear problem-solving approach.",
      "Good conflict resolution skills, could elaborate more on long-term outcomes.",
      "Strong learning methodology and adaptation skills demonstrated.",
      "Solid analytical approach, consider discussing risk mitigation strategies.",
      "Outstanding emotional intelligence and communication skills shown." ]

  /** The sample report the page shows, with its badge and per-question bands. */
  function SampleResults(): (r: InterviewResults)
    ensures WellFormedReport(r)
    ensures r.totalQuestions == 5 && r.questionsAnswered == r.totalQuestions
    ensures GetScoreBadge(r.overallScore) == "Good"
  {
    var titles, feedback := SampleTitles, SampleFeedback;
    InterviewResults(
      85, "2024-01-15", "28 minutes", "Senior Frontend Developer", 5, 5,
      SampleStrengths, SampleImprovements,
      [ QuestionScore(titles[0], 90, feedback[0]),
        QuestionScore(titles[1], 75, feedback[1]),
        QuestionScore(titles[2], 88, feedback[2]),
        QuestionScore(titles[3], 80, feedback[3]),
        QuestionScore(titles[4], 92, feedback[4]) ],
      SpeakingMetrics(85, 90, 88, 82))
  }
}
