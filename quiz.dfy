/** The quiz session of script.js as the object it is there: the module-level variables
    become the fields of one QuizSession, and each handler a method that updates them in
    place. Every method is proved to perform the transition that module QuizSteps specifies. */
module Quiz {
  import opened Shuffling
  import opened Questions
  import opened QuizSteps

  class QuizSession {
    var questions: seq<Question>
    var currentQuestionIndex: int
    var score: int
    var timeLeft: int
    /** Whether an interval is set (timerInterval). */
    var timerRunning: bool
    /** Whether the option buttons on screen accept clicks. */
    var optionsEnabled: bool
    /** The option list the buttons on screen show, in their order. */
    var options: seq<string>
    /** The correct answer the click handlers of those buttons compare with. */
    var shownCorrect: string
    /** The number of question requests issued so far. */
    var fetchRequests: nat

    /** The session variables as a value. */
    function State(): QuizState
      reads this
    {
      QuizState(questions, currentQuestionIndex, score, timeLeft, timerRunning,
                optionsEnabled, options, shownCorrect, fetchRequests)
    }

    ghost predicate Valid()
      reads this
    {
      QuizSteps.Valid(State())
    }

    /** Loading the script: the variables take their initial values and the first
        request for questions goes out. */
    constructor ()
      ensures Valid() && State() == Initial()
    {
      questions := [];
      currentQuestionIndex := 0;
      score := 0;
      timeLeft := InitialTimeLeft;
      timerRunning := false;
      optionsEnabled := false;
      options := [];
      shownCorrect := "";
      fetchRequests := 1;
    }

    /** The success path of fetchQuestions, given the parsed `results`. It reports whether the
        question at the current index could be shown and the timer started. */
    method LoadBatch(results: seq<Question>, js: seq<int>) returns (shown: bool)
      requires Valid() && CanLoad(State(), results, js)
      modifies this
      ensures Valid() && State() == Loaded(old(State()), results, js)
      ensures shown <==> old(currentQuestionIndex) < |results|
    {
      questions := results;
      ghost var replaced := State();
      if currentQuestionIndex < |questions| {
        DisplayQuestion(js);
        assert State() == Displayed(replaced, js);
        StartTimer();
        shown := true;
      } else {
        // displayQuestion clears the options and then fails on the missing question;
        // the failure ends fetchQuestions before startTimer.
        options := [];
        optionsEnabled := false;
        shown := false;
      }
    }

    /** displayQuestion: show the shuffled option list of the current question as fresh,
        enabled buttons whose handlers compare with its correct answer. */
    method DisplayQuestion(js: seq<int>)
      requires Valid() && CanDisplay(State(), js)
      modifies this
      ensures Valid() && State() == Displayed(old(State()), js)
    {
      var q := questions[currentQuestionIndex];
      var shuffled := ShuffledOptionList(q, js);
      options, optionsEnabled, shownCorrect := shuffled, true, q.correctAnswer;
    }

    /** checkAnswer. The source relies on the buttons being disabled after the first answer;
        here a call while they are disabled returns at once, as no click can reach it. */
    method CheckAnswer(selectedOption: string, correctOption: string)
      requires Valid()
      modifies this
      ensures Valid() && State() == AnswerChecked(old(State()), selectedOption, correctOption)
    {
      if !optionsEnabled {
        return;
      }
      timerRunning := false;
      optionsEnabled := false;
      if selectedOption == correctOption {
        score := score + 1;
      }
    }

    /** A click on the k-th option button: its handler calls checkAnswer with that option
        and the correct answer of the question it was built for. */
    method SelectOption(k: nat)
      requires Valid()
      modifies this
      ensures Valid() && State() == Step(old(State()), OptionClicked(k))
    {
      if k < |options| {
        CheckAnswer(options[k], shownCorrect);
      }
    }

    /** nextQuestion. */
    method NextQuestion(js: seq<int>)
      requires Valid() && CanAdvance(State(), js)
      modifies this
      ensures Valid() && State() == Advanced(old(State()), js)
    {
      currentQuestionIndex := currentQuestionIndex + 1;
      ghost var next := State();
      if currentQuestionIndex < |questions| {
        DisplayQuestion(js);
        assert State() == Displayed(next, js);
        StartTimer();
      } else {
        currentQuestionIndex := 0;
        score := 0;
        fetchRequests := fetchRequests + 1;
      }
    }

    /** One firing of the interval set by startTimer. */
    method Tick(js: seq<int>)
      requires Valid() && CanTick(State(), js)
      modifies this
      ensures Valid() && State() == Ticked(old(State()), js)
    {
      if !timerRunning {
        return;
      }
      timeLeft := timeLeft - 1;
      if timeLeft <= 0 {
        timerRunning := false;
        assert State() == old(State()).(timeLeft := old(timeLeft) - 1, timerRunning := false);
        NextQuestion(js);
      }
    }

    /** startTimer. */
    method StartTimer()
      requires Valid()
      modifies this
      ensures Valid() && State() == TimerStarted(old(State()))
    {
      timerRunning := true;
    }

    /** resetTimer: clear the interval, restore timeLeft, and start again. */
    method ResetTimer()
      requires Valid()
      modifies this
      ensures Valid() && State() == TimerReset(old(State()))
    {
      timerRunning := false;
      timeLeft := InitialTimeLeft;
      StartTimer();
    }
  }

  /** The option list of displayQuestion: the incorrect answers followed by the correct one,
      copied into a fresh array and shuffled there in place. */
  method ShuffledOptionList(q: Question, js: seq<int>) returns (opts: seq<string>)
    requires ValidChoices(js, |q.incorrectAnswers| + 1)
    ensures opts == Shuffled(Options(q), js)
    ensures |opts| == |q.incorrectAnswers| + 1 && q.correctAnswer in opts
  {
    var list := Options(q);
    var a := new string[|list|](i requires 0 <= i < |list| => list[i]);
    assert a[..] == list;
    ShuffleArray(a, js);
    opts := a[..];
    ShuffledOptions(q, js);
  }

  /** A one-question batch whose correct answer is picked after five seconds: the score
      becomes 1 and the timer stops. */
  method CorrectAnswerScenario()
  {
    var session := new QuizSession();
    var q := Question("2+2?", "4", ["3", "5"]);
    var shown := session.LoadBatch([q], [0, 1, 2]);
    assert shown && session.timerRunning && session.timeLeft == 30;
    var n := 0;
    while n < 5
      invariant 0 <= n <= 5
      invariant session.Valid() && session.questions == [q] && session.currentQuestionIndex == 0
      invariant session.timerRunning && session.optionsEnabled && session.score == 0
      invariant session.timeLeft == 30 - n && session.shownCorrect == "4"
    {
      session.Tick([0, 1, 2]);
      n := n + 1;
    }
    var k :| 0 <= k < |session.options| && session.options[k] == "4";
    session.SelectOption(k);
    assert session.score == 1 && !session.timerRunning && !session.optionsEnabled;
    assert session.timeLeft == 25;
  }

  /** The same batch left unanswered: after thirty firings the question times out, the batch
      rolls over with the score still 0, and a new batch is requested. */
  method TimeoutScenario()
  {
    var session := new QuizSession();
    var q := Question("2+2?", "4", ["3", "5"]);
    var shown := session.LoadBatch([q], [0, 1, 2]);
    var n := 0;
    while n < 29
      invariant 0 <= n <= 29
      invariant session.Valid() && session.questions == [q] && session.currentQuestionIndex == 0
      invariant session.timerRunning && session.score == 0 && session.fetchRequests == 1
      invariant session.timeLeft == 30 - n
    {
      session.Tick([]);
      n := n + 1;
    }
    session.Tick([]);
    assert session.score == 0 && session.currentQuestionIndex == 0 && !session.timerRunning;
    assert session.fetchRequests == 2 && session.timeLeft == 0;
  }
}
