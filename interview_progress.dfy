/**
 * The progress card shown beside a running interview: the elapsed time as
 * `MM:SS` and one status indicator per question (completed, current,
 * pending).
 */
module InterviewProgress {

  import opened Wrappers
  import opened NumberText

  /** JavaScript's `%`: the remainder takes the sign of the dividend. */
  function JsRemainder(a: int, b: int): (r: int)
    requires b > 0
    ensures a >= 0 ==> r == a % b
    ensures a < 0 ==> -b < r <= 0
  {
    if a >= 0 then a % b else -((-a) % b)
  }

  /** `toString()` of an integer: a '-' before the digits of a negative number. */
  function NumberToString(i: int): (s: string)
    ensures i >= 0 ==> s == NatToString(i)
  {
    if i < 0 then "-" + NatToString(-i) else NatToString(i)
  }

  /**
   * `formatTime`: whole minutes `Math.floor(seconds / 60)` and the
   * remainder `seconds % 60`, each padded with '0' to two characters,
   * joined by ':'. Dafny's `/` rounds down for the positive divisor 60, as
   * `Math.floor` does; `%` is JavaScript's.
   */
  function FormatTime(seconds: int): string {
    var mins := seconds / 60;
    var secs := JsRemainder(seconds, 60);
    PadStart(NumberToString(mins), 2) + ":" + PadStart(NumberToString(secs), 2)
  }

  /** Minute digits and second digits naming less than 60 seconds, as a number of seconds. */
  function ClockValue(minutes: string, seconds: string): Option<nat> {
    match (ParseDigits(minutes), ParseDigits(seconds))
    case (Some(m), Some(sec)) => if sec < 60 then Some(60 * m + sec) else None
    case _ => None
  }

  /**
   * Reads a clock text back: at least two minute digits, ':', and two
   * digits naming less than 60 seconds. Gives the number of seconds.
   */
  function ParseClock(t: string): Option<nat>
  {
    if |t| >= 5 && t[|t| - 3] == ':' then ClockValue(t[..|t| - 3], t[|t| - 2..]) else None
  }

  /** The text for a split into whole minutes and remaining seconds. */
  function ClockText(mins: nat, secs: nat): string {
    PadStart(NatToString(mins), 2) + ":" + PadStart(NatToString(secs), 2)
  }

  /**
   * For a non-negative count the text is the padded minutes, ':' and the
   * padded seconds, with seconds the remainder in 0..59 that completes the
   * minutes to the count.
   */
  lemma FormatTimeFields(seconds: int)
    requires seconds >= 0
    ensures 0 <= seconds % 60 < 60 && 60 * (seconds / 60) + seconds % 60 == seconds
    ensures FormatTime(seconds) == ClockText(seconds / 60, seconds % 60)
  {
  }

  lemma ClockTextShape(mins: nat, secs: nat)
    requires mins < 100 && secs < 100
    ensures var r := ClockText(mins, secs);
      |r| == 5 && r[2] == ':' && IsDigits(r[..2]) && IsDigits(r[3..])
  {
    var mt, st := NatToString(mins), NatToString(secs);
    NatToStringLength(mins);
    NatToStringLength(secs);
    PadStartDigits(mt, 2);
    PadStartDigits(st, 2);
    var m, s := PadStart(mt, 2), PadStart(st, 2);
    var r := m + ":" + s;
    assert r[..2] == m && r[3..] == s;
  }

  /** Below 100 minutes the text is exactly `DD:DD`. */
  lemma FormatTimeShape(seconds: int)
    requires 0 <= seconds < 6000
    ensures var r := FormatTime(seconds);
      |r| == 5 && r[2] == ':' && IsDigits(r[..2]) && IsDigits(r[3..])
  {
    FormatTimeFields(seconds);
    ClockTextShape(seconds / 60, seconds % 60);
  }

  /** From 100 minutes on, the minutes are written in full: more than two digits, never cut. */
  lemma FormatTimeWideMinutes(seconds: int)
    requires seconds >= 6000
    ensures var minutes := NatToString(seconds / 60);
      |minutes| > 2
      && FormatTime(seconds) == minutes + ":" + PadStart(NatToString(seconds % 60), 2)
      && |FormatTime(seconds)| > 5
  {
    FormatTimeFields(seconds);
    NatToStringLength(seconds / 60);
    NatToStringLength(seconds % 60);
  }

  /** A clock text splits into the minute digits before the ':' and the two second digits after it. */
  lemma ParseClockSplit(m: string, s: string)
    requires |m| >= 2 && |s| == 2
    ensures ParseClock(m + ":" + s) == ClockValue(m, s)
  {
    var t := m + ":" + s;
    assert t[..|t| - 3] == m && t[|t| - 2..] == s;
  }

  /**
   * A clock text of whole minutes and fewer than 60 seconds reads back as
   * their total, `60 * mins + secs`. The total is passed in as `total`
   * so that callers holding a count already split into minutes and
   * seconds (such as `FormatTimeRoundTrip`) get `Some(total)` without
   * redoing the multiplication inside the option.
   */
  lemma ClockTextRoundTrip(mins: nat, secs: nat, total: nat)
    requires secs < 60 && total == 60 * mins + secs
    ensures ParseClock(ClockText(mins, secs)) == Some(total)
  {
    var mt, st := NatToString(mins), NatToString(secs);
    NatToStringLength(secs);
    var ms, ss := PadStart(mt, 2), PadStart(st, 2);
    ParsePadStart(mt, 2);
    ParsePadStart(st, 2);
    ParseNatToString(mins);
    ParseNatToString(secs);
    assert ClockValue(ms, ss) == Some(total);
    ParseClockSplit(ms, ss);
  }

  /** Reading the minutes and the seconds back gives the count formatted. */
  lemma FormatTimeRoundTrip(seconds: int)
    requires seconds >= 0
    ensures ParseClock(FormatTime(seconds)) == Some(seconds)
  {
    FormatTimeFields(seconds);
    ClockTextRoundTrip(seconds / 60, seconds % 60, seconds);
  }

  /** Different counts of seconds are shown differently. */
  lemma FormatTimeInjective(a: int, b: int)
    requires a >= 0 && b >= 0 && a != b
    ensures FormatTime(a) != FormatTime(b)
  {
    FormatTimeRoundTrip(a);
    FormatTimeRoundTrip(b);
  }

  datatype QuestionStatus = Completed | Current | Pending

  /** One circle of the status row: its question number, status and text. */
  datatype Indicator = Indicator(number: nat, status: QuestionStatus, text: string)

  const Checkmark: string := "\U{2713}"

  /** The nested conditional that styles one circle. */
  function StatusOf(questionNumber: int, currentQuestion: int): QuestionStatus {
    if questionNumber < currentQuestion then Completed
    else if questionNumber == currentQuestion then Current
    else Pending
  }

  function IndicatorFor(questionNumber: nat, currentQuestion: int): Indicator {
    Indicator(
      questionNumber,
      StatusOf(questionNumber, currentQuestion),
      if questionNumber < currentQuestion then Checkmark else NatToString(questionNumber))
  }

  /**
   * `Array.from({ length: totalQuestions }, ...)`: circles numbered
   * 1..totalQuestions in order; a circle is completed (and shows a check
   * mark) exactly when its number is below the current question, current
   * exactly when it is the current question, and pending, showing its own
   * number, otherwise.
   */
  function StatusRow(currentQuestion: int, totalQuestions: nat): (row: seq<Indicator>)
    ensures |row| == totalQuestions
    ensures forall i :: 0 <= i < |row| ==> row[i].number == i + 1
    ensures forall i :: 0 <= i < |row| ==>
      && (row[i].status == Completed <==> i + 1 < currentQuestion)
      && (row[i].status == Current <==> i + 1 == currentQuestion)
      && (row[i].status == Pending <==> i + 1 > currentQuestion)
    ensures forall i :: 0 <= i < |row| ==>
      row[i].text == if row[i].status == Completed then Checkmark else NatToString(i + 1)
  {
    seq(totalQuestions, index requires 0 <= index => IndicatorFor(index + 1, currentQuestion))
  }

  /** How many circles of a row have a given status. */
  function CountStatus(row: seq<Indicator>, status: QuestionStatus): nat {
    if row == [] then 0
    else CountStatus(row[..|row| - 1], status) + (if row[|row| - 1].status == status then 1 else 0)
  }

  function Min(a: int, b: int): int {
    if a <= b then a else b
  }

  function Max(a: int, b: int): int {
    if a <= b then b else a
  }

  /**
   * For any current question, the row of `n` circles has
   * min(n, current - 1) completed ones, one current one if the current
   * question is among 1..n and none otherwise, and the rest pending.
   */
  lemma {:induction false} StatusCounts(currentQuestion: int, n: nat)
    ensures CountStatus(StatusRow(currentQuestion, n), Completed) == Max(0, Min(n, currentQuestion - 1))
    ensures CountStatus(StatusRow(currentQuestion, n), Current) == if 1 <= currentQuestion <= n then 1 else 0
    ensures CountStatus(StatusRow(currentQuestion, n), Pending) == n - Max(0, Min(n, currentQuestion))
  {
    if n > 0 {
      var row := StatusRow(currentQuestion, n);
      assert row[..n - 1] == StatusRow(currentQuestion, n - 1);
      StatusCounts(currentQuestion, n - 1);
    }
  }

  /**
   * While the current question is one of 1..totalQuestions, exactly one
   * circle is current, `currentQuestion - 1` are completed and the rest are
   * pending.
   */
  lemma ExactlyOneCurrent(currentQuestion: int, totalQuestions: nat)
    requires 1 <= currentQuestion <= totalQuestions
    ensures CountStatus(StatusRow(currentQuestion, totalQuestions), Current) == 1
    ensures CountStatus(StatusRow(currentQuestion, totalQuestions), Completed) == currentQuestion - 1
    ensures CountStatus(StatusRow(currentQuestion, totalQuestions), Pending) == totalQuestions - currentQuestion
  {
    StatusCounts(currentQuestion, totalQuestions);
  }
}
