/**
 * The intern's learning session as the dashboard keeps it between reruns:
 * the fields of the session state, and the button handlers that move it
 * from configuring (task and resources), to clocked in, to the quiz, and
 * back. The clock and the AI service are parameters: `now` is the current
 * time in seconds, and the generated quiz and feedback text are inputs.
 */
module Session {
  import opened Wrappers
  import opened Quiz
  import opened Lists

  /** The session log the submit handler stores. */
  datatype SessionLog = SessionLog(
    task: string,
    resources: seq<string>,
    duration: int,
    score: int,
    status: Status,
    totalQuestions: int,
    percentage: real,
    correctAnswers: seq<nat>,
    incorrectAnswers: seq<nat>,
    strengths: seq<string>,
    weaknesses: seq<string>,
    feedback: string)

  class LearningSession {
    var clockedIn: bool
    var startTime: Option<real>
    var resources: seq<string>
    var task: string
    var showQuiz: bool
    var quizData: seq<Question>
    var quizAnswers: map<int, int>
    var quizFeedback: string

    /**
     * What every handler keeps: no resource is listed twice, and a
     * running session has a task, at least one resource and a start time.
     */
    predicate Valid()
      reads this
    {
      Distinct(resources) &&
      (clockedIn ==> task != "" && resources != [] && startTime.Some?)
    }

    /** Every field but the feedback text holds its initial value. */
    predicate Idle()
      reads this
    {
      !clockedIn && startTime == None && resources == [] && task == "" &&
      !showQuiz && quizData == [] && quizAnswers == map[]
    }

    /** The first visit's initialisation of the session fields. */
    constructor ()
      ensures Idle() && quizFeedback == ""
      ensures Valid()
    {
      clockedIn := false;
      startTime := None;
      resources := [];
      task := "";
      showQuiz := false;
      quizData := [];
      quizAnswers := map[];
      quizFeedback := "";
    }

    /**
     * "Add": the typed URL is appended when it is non-empty and not yet
     * listed; the button is disabled while clocked in.
     */
    method AddResource(resourceInput: string)
      requires Valid()
      modifies this`resources
      ensures Valid()
      ensures !old(clockedIn) && resourceInput != "" && resourceInput !in old(resources) ==>
        resources == old(resources) + [resourceInput]
      ensures old(clockedIn) || resourceInput == "" || resourceInput in old(resources) ==>
        resources == old(resources)
    {
      if !clockedIn && resourceInput != "" && resourceInput !in resources {
        resources := resources + [resourceInput];
      }
    }

    /** "Delete" beside resource `i`: removes exactly that entry, and only when not clocked in. */
    method DeleteResource(i: nat)
      requires Valid() && i < |resources|
      modifies this`resources
      ensures Valid()
      ensures !old(clockedIn) ==> resources == old(resources[..i] + resources[i + 1..])
      ensures old(clockedIn) ==> resources == old(resources)
    {
      if !clockedIn {
        resources := resources[..i] + resources[i + 1..];
      }
    }

    /**
     * "Start Learning Session" (shown only while not clocked in): starts the
     * clock when the objective is non-empty and a resource is listed.
     */
    method Start(taskInput: string, now: real) returns (started: bool)
      requires Valid() && !clockedIn
      modifies this`clockedIn, this`startTime, this`task
      ensures Valid()
      ensures started <==> taskInput != "" && resources != []
      ensures started ==> clockedIn && startTime == Some(now) && task == taskInput
      ensures !started ==> !clockedIn && startTime == old(startTime) && task == old(task)
    {
      started := taskInput != "" && resources != [];
      if started {
        clockedIn := true;
        startTime := Some(now);
        task := taskInput;
      }
    }

    /**
     * "End Session & Take Quiz" (shown only while clocked in): under the
     * same condition as starting, installs the generated quiz with no
     * answers, opens it and stops the clock. The start time is kept for
     * the duration.
     */
    method EndSession(taskInput: string, quiz: seq<Question>) returns (ended: bool)
      requires Valid() && clockedIn
      modifies this`quizData, this`quizAnswers, this`showQuiz, this`clockedIn
      ensures Valid()
      ensures ended <==> taskInput != ""
      ensures ended ==> quizData == quiz && quizAnswers == map[] && showQuiz && !clockedIn
      ensures !ended ==> clockedIn && showQuiz == old(showQuiz)
      ensures !ended ==> quizData == old(quizData) && quizAnswers == old(quizAnswers)
    {
      ended := taskInput != "" && resources != [];
      if ended {
        quizData := quiz;
        quizAnswers := map[];
        showQuiz := true;
        clockedIn := false;
      }
    }

    /** Picking option `choice` for question `i` records its index. */
    method SelectAnswer(i: nat, choice: nat)
      requires Valid() && showQuiz && i < |quizData| && choice < |quizData[i].options|
      modifies this`quizAnswers
      ensures Valid()
      ensures quizAnswers == old(quizAnswers)[i := choice]
    {
      quizAnswers := quizAnswers[i := choice];
    }

    /** "Cancel Quiz": closes the quiz and drops it with its answers; nothing else changes. */
    method CancelQuiz()
      requires Valid() && showQuiz
      modifies this`showQuiz, this`quizData, this`quizAnswers
      ensures Valid()
      ensures !showQuiz && quizData == [] && quizAnswers == map[]
    {
      showQuiz := false;
      quizData := [];
      quizAnswers := map[];
    }

    /**
     * "Submit Assessment": scores the answers, builds the session log, and
     * returns every field except the feedback text to its initial value.
     */
    method Submit(now: real, feedback: string) returns (log: SessionLog)
      requires Valid() && showQuiz
      modifies this`clockedIn, this`startTime, this`resources, this`task,
        this`showQuiz, this`quizData, this`quizAnswers
      ensures Valid() && Idle()
      ensures log.task == old(task) && log.resources == old(resources)
      ensures log.duration == Duration(now, old(startTime))
      ensures log.totalQuestions == |old(quizData)|
      ensures log.score == |log.correctAnswers| && log.score + |log.incorrectAnswers| <= log.totalQuestions
      ensures Ascending(log.correctAnswers) && Ascending(log.incorrectAnswers)
      ensures forall i :: i in log.correctAnswers <==>
        0 <= i < |old(quizData)| && AnsweredCorrectly(old(quizData), old(quizAnswers), i)
      ensures forall i :: i in log.incorrectAnswers <==>
        0 <= i < |old(quizData)| && i in old(quizAnswers) && !AnsweredCorrectly(old(quizData), old(quizAnswers), i)
      ensures log.percentage == Percentage(log.score, log.totalQuestions)
      ensures log.strengths == Highlights(log.correctAnswers)
      ensures log.weaknesses == Highlights(log.incorrectAnswers)
      ensures log.status == StatusOf(log.score)
      ensures log.feedback == feedback
    {
      var score, correct, incorrect := ScoreQuiz(quizData, quizAnswers);
      var total := |quizData|;
      var percentage := Percentage(score, total);
      var strengths := Highlights(correct);
      var weaknesses := Highlights(incorrect);
      var duration := Duration(now, startTime);
      log := SessionLog(task, resources, duration, score, StatusOf(score), total, percentage,
        correct, incorrect, strengths, weaknesses, feedback);
      clockedIn := false;
      startTime := None;
      resources := [];
      task := "";
      showQuiz := false;
      quizData := [];
      quizAnswers := map[];
    }
  }
}
