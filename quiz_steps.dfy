/** The quiz session of script.js as a state machine over values: one function per handler,
    the events that drive them (option clicks, the Next button, timer firings, the arrival
    of a batch), and the properties of runs of events. The class in module Quiz performs
    these same transitions in place. */
module QuizSteps {
  import opened Shuffling
  import opened Questions

  /** The value timeLeft starts with and resetTimer restores. */
  const InitialTimeLeft := 30

  /** The session variables of script.js. `timerRunning` says whether an interval is set,
      `optionsEnabled` whether the option buttons on screen accept clicks, `options` the option
      list they show and `shownCorrect` the correct answer their click handlers compare with.
      `fetches` counts the question requests issued so far. */
  datatype QuizState = QuizState(
    questions: seq<Question>,
    index: int,
    score: int,
    timeLeft: int,
    timerRunning: bool,
    optionsEnabled: bool,
    options: seq<string>,
    shownCorrect: string,
    fetches: nat)

  /** What every transition keeps: the index and the score are never negative, and the
      options on screen contain the answer their buttons count as correct. */
  predicate Valid(s: QuizState) {
    && 0 <= s.index
    && 0 <= s.score
    && (s.options != [] ==> s.shownCorrect in s.options)
    && (s.optionsEnabled ==> s.options != [])
  }

  /** The state when the script has loaded: the initial variable values, and the first
      request for questions issued. */
  function Initial(): (s: QuizState)
    ensures Valid(s) && s.questions == [] && s.index == 0 && s.score == 0
    ensures s.timeLeft == InitialTimeLeft && !s.timerRunning
    ensures !s.optionsEnabled && s.options == [] && s.fetches == 1
  {
    QuizState([], 0, 0, InitialTimeLeft, false, false, [], "", 1)
  }

  /** displayQuestion can show the current question: the index is in range (the source fails
      otherwise) and the shuffle choices fit its option list. */
  predicate CanDisplay(s: QuizState, js: seq<int>) {
    0 <= s.index < |s.questions| && ValidChoices(js, |Options(s.questions[s.index])| )
  }

  /** displayQuestion: the buttons now show a shuffled option list of the current question,
      accept clicks, and count its correct answer as correct; nothing else changes. */
  function Displayed(s: QuizState, js: seq<int>): (r: QuizState)
    requires CanDisplay(s, js)
    ensures r.optionsEnabled && r.shownCorrect == s.questions[s.index].correctAnswer
    ensures multiset(r.options) == multiset(Options(s.questions[s.index]))
    ensures r.shownCorrect in r.options
    ensures r.(options := s.options, optionsEnabled := s.optionsEnabled, shownCorrect := s.shownCorrect) == s
  {
    var q := s.questions[s.index];
    ShuffledOptions(q, js);
    s.(options := Shuffled(Options(q), js), optionsEnabled := true, shownCorrect := q.correctAnswer)
  }

  /** startTimer: an interval is set; timeLeft keeps the value it had. */
  function TimerStarted(s: QuizState): (r: QuizState)
    ensures r.timerRunning && r.timeLeft == s.timeLeft
    ensures r.(timerRunning := s.timerRunning) == s
  {
    s.(timerRunning := true)
  }

  /** resetTimer: timeLeft is back at its initial value and an interval is set. */
  function TimerReset(s: QuizState): (r: QuizState)
    ensures r.timerRunning && r.timeLeft == InitialTimeLeft
    ensures r.(timerRunning := s.timerRunning, timeLeft := s.timeLeft) == s
  {
    TimerStarted(s.(timerRunning := false, timeLeft := InitialTimeLeft))
  }

  /** checkAnswer, reached through a click on an option button. While the buttons are disabled
      a click does nothing. Otherwise the timer stops, the buttons are disabled, and the score
      goes up by one exactly when the selected option is the correct one. */
  function AnswerChecked(s: QuizState, selected: string, correct: string): (r: QuizState)
    ensures !s.optionsEnabled ==> r == s
    ensures s.optionsEnabled ==> !r.timerRunning && !r.optionsEnabled
    ensures s.optionsEnabled ==> (r.score == s.score + 1 <==> selected == correct)
    ensures s.optionsEnabled && selected != correct ==> r.score == s.score
    ensures r.(score := s.score, timerRunning := s.timerRunning, optionsEnabled := s.optionsEnabled) == s
  {
    if !s.optionsEnabled then s
    else s.(timerRunning := false, optionsEnabled := false,
            score := if selected == correct then s.score + 1 else s.score)
  }

  /** nextQuestion can run: when the next index is inside the batch, the choices fit its options. */
  predicate CanAdvance(s: QuizState, js: seq<int>) {
    0 <= s.index + 1 < |s.questions| ==> ValidChoices(js, |Options(s.questions[s.index + 1])|)
  }

  /** nextQuestion. Inside the batch the index moves on by one and that question is shown with
      the timer set; the score is kept. Past the last question the index and the score go back
      to 0 and a new batch is requested; nothing else changes, the buttons on screen included. */
  function Advanced(s: QuizState, js: seq<int>): (r: QuizState)
    requires Valid(s) && CanAdvance(s, js)
    ensures Valid(r) && r.questions == s.questions
    ensures s.index + 1 < |s.questions| ==>
      && r.index == s.index + 1 && r.index < |r.questions|
      && r.score == s.score && r.fetches == s.fetches && r.timeLeft == s.timeLeft
      && r.timerRunning && r.optionsEnabled
      && r.shownCorrect == s.questions[s.index + 1].correctAnswer
      && multiset(r.options) == multiset(Options(s.questions[s.index + 1]))
    ensures s.index + 1 >= |s.questions| ==>
      r == s.(index := 0, score := 0, fetches := s.fetches + 1)
  {
    var next := s.(index := s.index + 1);
    if next.index < |s.questions| then TimerStarted(Displayed(next, js))
    else next.(index := 0, score := 0, fetches := s.fetches + 1)
  }

  /** A tick may fire: if it is the one that expires the timer, nextQuestion can run. */
  predicate CanTick(s: QuizState, js: seq<int>) {
    s.timerRunning && s.timeLeft - 1 <= 0 ==> CanAdvance(s, js)
  }

  /** One firing of the interval. A cleared interval never fires. Otherwise timeLeft goes down
      by exactly one; when it is then 0 or less the interval is cleared and nextQuestion runs
      at once, so the score changes only as nextQuestion changes it. */
  function Ticked(s: QuizState, js: seq<int>): (r: QuizState)
    requires Valid(s) && CanTick(s, js)
    ensures Valid(r) && r.questions == s.questions
    ensures !s.timerRunning ==> r == s
    ensures s.timerRunning && s.timeLeft - 1 > 0 ==> r == s.(timeLeft := s.timeLeft - 1)
    ensures s.timerRunning && s.timeLeft - 1 <= 0 ==>
      r == Advanced(s.(timeLeft := s.timeLeft - 1, timerRunning := false), js)
    ensures s.timerRunning && s.timeLeft - 1 <= 0 && s.index + 1 < |s.questions| ==>
      r.index == s.index + 1 && r.score == s.score && r.timerRunning && r.timeLeft == s.timeLeft - 1
  {
    if !s.timerRunning then s
    else
      var t := s.(timeLeft := s.timeLeft - 1);
      if t.timeLeft <= 0 then Advanced(t.(timerRunning := false), js) else t
  }

  /** The batch can be loaded: if its entry at the current index exists, the choices fit its options. */
  predicate CanLoad(s: QuizState, results: seq<Question>, js: seq<int>) {
    0 <= s.index < |results| ==> ValidChoices(js, |Options(results[s.index])|)
  }

  /** The success path of fetchQuestions: the batch replaces the questions, then the question at
      the current index is shown and the timer set. The index and the score are not touched
      here. When there is no entry at the index (an empty batch, for one), displayQuestion has
      already cleared the options when it fails, and the timer is not started. */
  function Loaded(s: QuizState, results: seq<Question>, js: seq<int>): (r: QuizState)
    requires Valid(s) && CanLoad(s, results, js)
    ensures Valid(r)
    ensures r.questions == results && r.index == s.index && r.score == s.score
    ensures r.fetches == s.fetches && r.timeLeft == s.timeLeft
    ensures s.index < |results| ==>
      && r.timerRunning && r.optionsEnabled
      && r.shownCorrect == results[s.index].correctAnswer
      && multiset(r.options) == multiset(Options(results[s.index]))
    ensures s.index >= |results| ==>
      r == s.(questions := results, options := [], optionsEnabled := false)
  {
    var t := s.(questions := results);
    if s.index < |results| then TimerStarted(Displayed(t, js))
    else t.(options := [], optionsEnabled := false)
  }

  /** What can happen to a session: a click on the k-th option button, a click on Next,
      a firing of the interval, and the arrival of a batch from the question service. */
  datatype Event =
    | OptionClicked(k: nat)
    | NextClicked(js: seq<int>)
    | TimerFired(js: seq<int>)
    | BatchArrived(results: seq<Question>, js: seq<int>)

  predicate Allowed(s: QuizState, e: Event) {
    match e
    case OptionClicked(_) => true
    case NextClicked(js) => CanAdvance(s, js)
    case TimerFired(js) => CanTick(s, js)
    case BatchArrived(results, js) => CanLoad(s, results, js)
  }

  /** One event. A click on a button that is not on screen does nothing. The score only ever
      moves up by one on a click, or back to 0 when the batch rolls over and a new one is requested. */
  function Step(s: QuizState, e: Event): (r: QuizState)
    requires Valid(s) && Allowed(s, e)
    ensures Valid(r)
    ensures || r.score == s.score
            || (r.score == s.score + 1 && e.OptionClicked?)
            || (r.score == 0 && r.index == 0 && r.fetches == s.fetches + 1)
  {
    match e
    case OptionClicked(k) =>
      if k < |s.options| then AnswerChecked(s, s.options[k], s.shownCorrect) else s
    case NextClicked(js) => Advanced(s, js)
    case TimerFired(js) => Ticked(s, js)
    case BatchArrived(results, js) => Loaded(s, results, js)
  }

  /** Every event of the run can happen in the state the earlier ones lead to. Only the
      start state is required to be valid; the later ones are valid because Step keeps it. */
  predicate RunAllowed(s: QuizState, es: seq<Event>)
    requires Valid(s)
    decreases |es|
  {
    es != [] ==> Allowed(s, es[0]) && RunAllowed(Step(s, es[0]), es[1..])
  }

  /** The state after the events of `es`, in order: it is valid again. */
  function Run(s: QuizState, es: seq<Event>): (r: QuizState)
    requires Valid(s) && RunAllowed(s, es)
    ensures Valid(r)
    decreases |es|
  {
    if es == [] then s else Run(Step(s, es[0]), es[1..])
  }

  /** Running two pieces of a run one after the other is running the whole. */
  lemma {:induction false} RunAppend(s: QuizState, a: seq<Event>, b: seq<Event>)
    requires Valid(s) && RunAllowed(s, a + b)
    ensures RunAllowed(s, a) && RunAllowed(Run(s, a), b)
    ensures Run(s, a + b) == Run(Run(s, a), b)
    decreases |a|
  {
    if a == [] {
      assert a + b == b;
    } else {
      assert (a + b)[0] == a[0] && (a + b)[1..] == a[1..] + b;
      RunAppend(Step(s, a[0]), a[1..], b);
    }
  }

  /** Clicks alone score at most once: the first click on a button disables all of them, and
      clicks on disabled buttons change nothing at all. */
  lemma {:induction false} ClicksScoreAtMostOnce(s: QuizState, es: seq<Event>)
    requires Valid(s) && RunAllowed(s, es)
    requires forall i :: 0 <= i < |es| ==> es[i].OptionClicked?
    ensures Run(s, es).score <= s.score + (if s.optionsEnabled then 1 else 0)
    ensures !s.optionsEnabled ==> Run(s, es) == s
    decreases |es|
  {
    if es != [] {
      ClicksScoreAtMostOnce(Step(s, es[0]), es[1..]);
    }
  }

  /** Within a batch, each click on Next moves the index on by exactly one and keeps the score,
      and no question request is issued. */
  lemma {:induction false} NextWithinBatch(s: QuizState, es: seq<Event>)
    requires Valid(s) && RunAllowed(s, es)
    requires forall i :: 0 <= i < |es| ==> es[i].NextClicked?
    requires s.index + |es| < |s.questions|
    ensures Run(s, es).index == s.index + |es|
    ensures Run(s, es).score == s.score
    ensures Run(s, es).fetches == s.fetches
    ensures Run(s, es).questions == s.questions
    decreases |es|
  {
    if es != [] {
      NextWithinBatch(Step(s, es[0]), es[1..]);
    }
  }

  /** A batch of n questions shown from index i is left after exactly n - i clicks on Next:
      the first n - i - 1 (`init`) keep the score and reach the last question, and the last
      one (`e`) sets index and score to 0 and requests the next batch. */
  lemma BatchRollsOverAfterLastQuestion(s: QuizState, init: seq<Event>, e: Event)
    requires Valid(s) && RunAllowed(s, init + [e])
    requires forall i :: 0 <= i < |init| ==> init[i].NextClicked?
    requires e.NextClicked? && s.index + |init| + 1 == |s.questions|
    ensures RunAllowed(s, init) && Run(s, init).score == s.score
    ensures Run(s, init).index == |s.questions| - 1
    ensures Run(s, init + [e]).index == 0 && Run(s, init + [e]).score == 0
    ensures Run(s, init + [e]).fetches == s.fetches + 1
  {
    RunAppend(s, init, [e]);
    NextWithinBatch(s, init);
    RollOverStep(Run(s, init), e);
  }

  /** One click on Next at the last question of the batch, as a run. */
  lemma RollOverStep(s: QuizState, e: Event)
    requires Valid(s) && RunAllowed(s, [e]) && e.NextClicked?
    requires s.index + 1 == |s.questions|
    ensures Run(s, [e]) == s.(index := 0, score := 0, fetches := s.fetches + 1)
  {
    assert [e][1..] == [];
    assert Run(s, [e]) == Step(s, e) == Advanced(s, e.js);
  }

  /** startTimer never resets timeLeft, so once a question has timed out every later question
      times out on the first firing of its interval. */
  lemma {:induction false} ExpiredTimerSkipsEachQuestion(s: QuizState, es: seq<Event>)
    requires Valid(s) && RunAllowed(s, es)
    requires forall i :: 0 <= i < |es| ==> es[i].TimerFired?
    requires s.timerRunning && s.timeLeft <= 0
    requires s.index + |es| < |s.questions|
    ensures Run(s, es).index == s.index + |es|
    ensures Run(s, es).timeLeft == s.timeLeft - |es|
    ensures Run(s, es).score == s.score
    ensures Run(s, es).timerRunning
    decreases |es|
  {
    if es != [] {
      var next := Step(s, es[0]);
      assert RunAllowed(next, es[1..]) && Run(s, es) == Run(next, es[1..]);
      assert next == Ticked(s, es[0].js);
      ExpiredTimerSkipsEachQuestion(next, es[1..]);
    }
  }

  /** After the last question of a batch times out, its option buttons stay enabled while the
      next batch is requested, so a click on its correct answer scores in the new round. */
  lemma StaleClickAfterTimeoutRollover(s: QuizState, js: seq<int>, k: nat)
    requires Valid(s) && s.timerRunning && s.timeLeft <= 1
    requires s.index + 1 == |s.questions| && s.optionsEnabled
    requires k < |s.options| && s.options[k] == s.shownCorrect
    ensures RunAllowed(s, [TimerFired(js), OptionClicked(k)])
    ensures Run(s, [TimerFired(js), OptionClicked(k)]).index == 0
    ensures Run(s, [TimerFired(js), OptionClicked(k)]).score == 1
    ensures Run(s, [TimerFired(js), OptionClicked(k)]).fetches == s.fetches + 1
  {
    var r1 := Step(s, TimerFired(js));
    assert [TimerFired(js), OptionClicked(k)][1..] == [OptionClicked(k)];
    assert [OptionClicked(k)][1..] == [];
    assert Run(r1, [OptionClicked(k)]) == Step(r1, OptionClicked(k));
  }
}
