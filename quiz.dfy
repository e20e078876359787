/**
 * Scoring of the mastery quiz that closes a learning session, and the
 * values derived from it for the session log: percentage, strengths and
 * weaknesses, pass/review status and whole-minute duration; also the
 * hours/minutes/seconds split of the running session timer.
 */
module Quiz {
  import opened Wrappers
  import opened Numerals

  /** One generated question; `correctAnswer` is an index into `options`. */
  datatype Question = Question(question: string, options: seq<string>, correctAnswer: int)

  /** The log's pass/review status. */
  datatype Status = Completed | NeedsReview

  /** The correct count a session needs to be logged as completed. */
  const PassMark: int := 6

  predicate Ascending(xs: seq<int>) {
    forall a, b | 0 <= a < b < |xs| :: xs[a] < xs[b]
  }

  /** Question `i` was answered, with the option the question marks as correct. */
  predicate AnsweredCorrectly(quiz: seq<Question>, answers: map<int, int>, i: int)
    requires 0 <= i < |quiz|
  {
    i in answers && answers[i] == quiz[i].correctAnswer
  }

  /**
   * The submit handler's scoring loop: the indices of answered questions
   * whose chosen option is the correct one, and of the other answered ones.
   * Unanswered questions are in neither list.
   */
  method ScoreQuiz(quiz: seq<Question>, answers: map<int, int>)
    returns (score: int, correct: seq<nat>, incorrect: seq<nat>)
    ensures score == |correct|
    ensures Ascending(correct) && Ascending(incorrect)
    ensures forall i :: i in correct <==> 0 <= i < |quiz| && AnsweredCorrectly(quiz, answers, i)
    ensures forall i :: i in incorrect <==> 0 <= i < |quiz| && i in answers && !AnsweredCorrectly(quiz, answers, i)
    ensures forall i | i in correct :: i !in incorrect
    ensures score + |incorrect| <= |quiz|
  {
    score := 0;
    correct := [];
    incorrect := [];
    for i := 0 to |quiz|
      invariant score == |correct|
      invariant Ascending(correct) && Ascending(incorrect)
      invariant forall j :: j in correct <==> 0 <= j < i && AnsweredCorrectly(quiz, answers, j)
      invariant forall j :: j in incorrect <==> 0 <= j < i && j in answers && !AnsweredCorrectly(quiz, answers, j)
      invariant forall k | 0 <= k < |correct| :: correct[k] < i
      invariant forall k | 0 <= k < |incorrect| :: incorrect[k] < i
      invariant score + |incorrect| <= i
    {
      if i in answers {
        if answers[i] == quiz[i].correctAnswer {
          score := score + 1;
          correct := correct + [i];
        } else {
          incorrect := incorrect + [i];
        }
      }
    }
  }

  /** `score / total * 100`, or 0 for an empty quiz. */
  function Percentage(score: int, total: int): (r: real)
    requires total >= 0
    ensures total == 0 ==> r == 0.0
    ensures total > 0 ==> r * total as real == score as real * 100.0
  {
    if total > 0 then (score as real / total as real) * 100.0 else 0.0
  }

  lemma PercentageBounds(score: int, total: int)
    requires 0 <= score <= total
    ensures 0.0 <= Percentage(score, total) <= 100.0
    ensures Percentage(score, total) == 100.0 <==> total > 0 && score == total
    ensures Percentage(score, total) == 0.0 <==> score == 0
  {
    if total > 0 {
      var q := score as real / total as real;
      assert q * total as real == score as real;
      assert 0.0 <= q <= 1.0;
      assert q == 1.0 <==> score == total;
    }
  }

  /** The label `"Q{i+1}"` of question index `i`. */
  function Label(i: nat): (r: string)
    ensures |r| >= 2 && r[0] == 'Q'
  {
    "Q" + NatToString(i + 1)
  }

  /** Different questions have different labels. */
  lemma LabelInjective(i: nat, j: nat)
    requires Label(i) == Label(j)
    ensures i == j
  {
    assert NatToString(i + 1) == Label(i)[1..] == Label(j)[1..] == NatToString(j + 1);
    assert IntToString(i + 1) == IntToString(j + 1);
    IntToStringInjective(i + 1, j + 1);
  }

  /** Strengths or weaknesses: the labels of at most the first two indices. */
  function Highlights(indices: seq<nat>): (r: seq<string>)
    ensures |r| == if |indices| < 2 then |indices| else 2
    ensures forall k | 0 <= k < |r| :: r[k] == Label(indices[k])
  {
    var n := if |indices| < 2 then |indices| else 2;
    seq(n, k requires 0 <= k < n => Label(indices[k]))
  }

  /** A label can appear as both a strength and a weakness only if its index is in both lists. */
  lemma HighlightsDisjoint(correct: seq<nat>, incorrect: seq<nat>)
    requires forall i | i in correct :: i !in incorrect
    ensures forall s | s in Highlights(correct) :: s !in Highlights(incorrect)
  {
    var hs := Highlights(correct);
    var hw := Highlights(incorrect);
    forall s | s in hs ensures s !in hw {
      var a :| 0 <= a < |hs| && hs[a] == s;
      assert correct[a] in correct;
      if s in hw {
        var b :| 0 <= b < |hw| && hw[b] == s;
        LabelInjective(correct[a], incorrect[b]);
      }
    }
  }

  /** The log status and the result card's PASS/REVIEW read the raw correct count. */
  function StatusOf(score: int): (r: Status)
    ensures r == Completed <==> score >= PassMark
  {
    if score >= 6 then Completed else NeedsReview
  }

  /** The text the log stores: `COMPLETED` or `NEEDS_REVIEW`. */
  function StatusText(st: Status): (r: string)
    ensures r == "COMPLETED" <==> st == Completed
    ensures r == "NEEDS_REVIEW" <==> st == NeedsReview
  {
    match st
    case Completed => "COMPLETED"
    case NeedsReview => "NEEDS_REVIEW"
  }

  /** A quiz of fewer than six questions can never complete the session. */
  lemma ShortQuizNeedsReview(score: int, total: int)
    requires 0 <= score <= total < PassMark
    ensures StatusOf(score) == NeedsReview
  {
  }

  /** Python's `int(x)` on a float: truncation toward zero. */
  function Truncate(x: real): (r: int)
    ensures x >= 0.0 ==> r as real <= x < r as real + 1.0
    ensures x < 0.0 ==> r as real - 1.0 < x <= r as real
  {
    if x >= 0.0 then x.Floor else -((-x).Floor)
  }

  /**
   * Whole minutes of the session: the truncated elapsed seconds
   * floor-divided by 60, or 0 when there is no start time (Python's
   * falsy `None` or `0.0`).
   */
  function Duration(now: real, startTime: Option<real>): (r: int)
    ensures startTime.None? || startTime.value == 0.0 ==> r == 0
    ensures startTime.Some? && startTime.value != 0.0 ==>
      r * 60 <= Truncate(now - startTime.value) < (r + 1) * 60
  {
    if startTime.None? || startTime.value == 0.0 then 0
    else Truncate(now - startTime.value) / 60
  }

  /** For a session that started in the past, the duration counts its completed minutes. */
  lemma DurationMinutes(now: real, start: real)
    requires start != 0.0 && start <= now
    ensures Duration(now, Some(start)) >= 0
    ensures (Duration(now, Some(start)) * 60) as real <= now - start
    ensures now - start < ((Duration(now, Some(start)) + 1) * 60) as real
  {
    var e := Truncate(now - start);
    var d := e / 60;
    assert d * 60 <= e < (d + 1) * 60;
  }

  /** The live timer's display: hours, minutes and seconds of `elapsed`. */
  function TimerSplit(elapsed: int): (hms: (int, int, int))
    ensures hms.0 * 3600 + hms.1 * 60 + hms.2 == elapsed
    ensures 0 <= hms.1 < 60 && 0 <= hms.2 < 60
  {
    (elapsed / 3600, (elapsed % 3600) / 60, elapsed % 60)
  }

  /** No other hours/minutes/seconds triple with minutes and seconds in range writes `elapsed`. */
  lemma TimerSplitUnique(elapsed: int, h: int, m: int, s: int)
    requires h * 3600 + m * 60 + s == elapsed
    requires 0 <= m < 60 && 0 <= s < 60
    ensures TimerSplit(elapsed) == (h, m, s)
  {
    var t := TimerSplit(elapsed);
    var a := m * 60 + s;
    var b := t.1 * 60 + t.2;
    assert 0 <= a < 3600 && 0 <= b < 3600;
    assert (h - t.0) * 3600 == b - a;
    assert h == t.0;
    assert (m - t.1) * 60 == t.2 - s;
  }

  /** The timer's hours and minutes are the session's duration in minutes. */
  lemma TimerAgreesWithDuration(now: real, start: real)
    requires start != 0.0
    ensures TimerSplit(Truncate(now - start)).0 * 60 + TimerSplit(Truncate(now - start)).1
      == Duration(now, Some(start))
  {
    var e := Truncate(now - start);
    var t := TimerSplit(e);
    assert e == (t.0 * 60 + t.1) * 60 + t.2;
  }
}
